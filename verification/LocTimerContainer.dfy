/** gps/utils/LocTimer.cpp, LocTimerContainer: what the message procs do to the
    heap and to the kernel timer when no other thread gets in between.  Each
    proc is tied to the functions the transition system of LocTimer is made of. */
module LocTimerContainer {
  import opened Wrappers
  import opened HeapSpec
  import LocHeap
  import opened LocTimer

  /** The kernel state once the calls `m` stands for have been made. */
  function Told(box: Container, m: MsgThread): Container {
    if m.AddPoll? then box.(polled := true, armed := Armed(m.time))
    else if m.RemovePoll? then box.(polled := false, armed := None)
    else box
  }

  /** The message thread of the transition system takes the container there, in two steps:
      the epoll set first, then the time. */
  lemma ToldIsReached(s: State)
    requires s.msg.AddPoll? || s.msg.RemovePoll?
    ensures var box := s.containers.Get(s.msg.wake);
            var mid := s.containers.Set(s.msg.wake, box.(polled := s.msg.AddPoll?));
            && Continue(s).Ok? && Continue(s).state.containers == mid
            && Continue(Continue(s).state)
               == Ok(s.(containers := s.containers.Set(s.msg.wake, Told(box, s.msg)), msg := Finish(s.msg.del)))
  {}

  /** The fd is polled, and armed at that time; timerfd_settime takes a zero time for disarming. */
  predicate ArmedAt(polled: bool, armed: Option<int>, time: int) {
    polled && armed == if time == 0 then None else Some(time)
  }

  /** The fd is polled, and armed at the time of a timer that none is sooner than. */
  ghost predicate ArmedForSoonest(polled: bool, armed: Option<int>, timers: multiset<LocRankable>) {
    exists e :: e in timers && ArmedAt(polled, armed, e.key) && forall f <- timers :: e.key <= f.key
  }

  class LocTimerContainer {
    const heap: LocHeap.LocHeap
    var mPolled: bool
    var mArmed: Option<int>

    ghost predicate Valid()
      reads this, heap, heap.mTree, heap.Nodes()
    { heap.Valid() }

    ghost function Box(): Container
      reads this, heap, heap.mTree
    { Container(heap.Shape(), mPolled, mArmed) }

    constructor ()
      ensures Valid() && fresh(heap) && Box() == Container(Leaf, false, None)
    {
      heap := new LocHeap.LocHeap();
      mPolled, mArmed := false, None;
    }

    method AddPoll()
      modifies this`mPolled
      ensures mPolled
    { mPolled := true; }

    method RemovePoll()
      modifies this`mPolled
      ensures !mPolled
    { mPolled := false; }

    /** timerfd_settime */
    method SetTime(time: int)
      modifies this`mArmed
      ensures mArmed == Armed(time)
    { mArmed := if time == 0 then None else Some(time); }

    method UpdateSoonestTime(priorTop: Option<LocRankable>)
      requires Valid()
      modifies this`mPolled, this`mArmed
      ensures Box() == Told(old(Box()), LocTimer.UpdateSoonestTime(heap.Shape(), priorTop, false, None))
      ensures var top := heap.Shape();
              if top.Node? && (priorTop.None? || top.data.key < priorTop.value.key) then ArmedAt(mPolled, mArmed, top.data.key)
              else if top.Leaf? && priorTop.Some? then !mPolled && mArmed == None
              else mPolled == old(mPolled) && mArmed == old(mArmed)
    {
      var curTop := heap.Peek();
      if curTop != priorTop {
        var delay, toSetTime := 0, false;
        if curTop.None? {
          RemovePoll();
          toSetTime := true;
        } else if priorTop.None? || curTop.value.OutRanks(priorTop.value) {
          AddPoll();
          delay := curTop.value.key;
          toSetTime := true;
        }
        if toSetTime {
          SetTime(delay);
        }
      }
    }

    lemma TopIsSoonest()
      requires Valid()
      ensures heap.Contents() == multiset{} <==> heap.Shape().Leaf?
      ensures heap.Shape().Node? && ArmedAt(mPolled, mArmed, heap.Shape().data.key) ==> ArmedForSoonest(mPolled, mArmed, heap.Contents())
    {
      if heap.Shape().Node? {
        TopOutranks(heap.Shape());
        assert heap.Shape().data in heap.Contents();
      }
    }

    /** updateSoonestTime(NULL): the kernel is told the soonest time, if there is one. */
    method TellSoonest()
      requires Valid()
      modifies this`mPolled, this`mArmed
      ensures Valid() && heap.Shape() == old(heap.Shape()) && heap.Nodes() == old(heap.Nodes())
      ensures Box() == Told(old(Box()), LocTimer.UpdateSoonestTime(heap.Shape(), None, false, None))
      ensures if heap.Contents() != multiset{} then ArmedForSoonest(mPolled, mArmed, heap.Contents())
              else mPolled == old(mPolled) && mArmed == old(mArmed)
    {
      UpdateSoonestTime(None);
      TopIsSoonest();
    }

    /** MsgTimerPush::proc */
    method ProcPush(timer: LocRankable)
      requires Valid()
      modifies this`mPolled, this`mArmed, heap, heap.Nodes()
      ensures Valid() && fresh(heap.Nodes() - old(heap.Nodes()))
      ensures Box() == Told(Pushed(old(Box()), timer), AfterPush(old(heap.Shape()), timer, false))
      ensures if forall e <- old(heap.Contents()) :: timer.key < e.key then ArmedAt(mPolled, mArmed, timer.key)
              else mPolled == old(mPolled) && mArmed == old(mArmed)
      ensures heap.Contents() == old(heap.Contents()) + multiset{timer}
    {
      var priorTop := heap.Peek();
      heap.Push(timer);
      UpdateSoonestTime(priorTop);
    }

    /** Takes the timer out of the heap, if it is there.  `tellKernel`: it was the soonest,
        or there was none and it was not there either. */
    method TakeOut(timer: LocRankable) returns (tellKernel: bool)
      requires Valid()
      modifies heap, heap.Nodes()
      ensures Valid() && heap.Nodes() <= old(heap.Nodes())
      ensures var (rest, found) := Remove(old(heap.Shape()), timer);
              heap.Shape() == rest && tellKernel == (Top(old(heap.Shape())) == if found then Some(timer) else None)
      ensures old(heap.Contents()) == heap.Contents() + if timer in old(heap.Contents()) then multiset{timer} else multiset{}
    {
      var priorTop := heap.Peek();
      var removed := heap.Remove(timer);
      tellKernel := priorTop == removed;
    }

    /** MsgTimerRemove::proc, up to the deletion of the delegate. */
    method ProcRemove(timer: LocRankable)
      requires Valid()
      modifies this`mPolled, this`mArmed, heap, heap.Nodes()
      ensures Valid() && heap.Nodes() <= old(heap.Nodes())
      ensures Box() == Told(Removed(old(Box()), timer), AfterRemove(old(heap.Shape()), timer, false))
      ensures if old(heap.Shape().Node? && heap.Shape().data == timer) && heap.Contents() != multiset{}
              then ArmedForSoonest(mPolled, mArmed, heap.Contents())
              else mPolled == old(mPolled) && mArmed == old(mArmed)
      ensures old(heap.Contents()) == heap.Contents() + if timer in old(heap.Contents()) then multiset{timer} else multiset{}
    {
      var tellKernel := TakeOut(timer);
      if tellKernel {
        TellSoonest();
      }
    }

    method PopIfOutRanks(timerOfNow: LocRankable) returns (popped: Option<LocRankable>)
      requires Valid()
      modifies heap, heap.Nodes()
      ensures Valid() && heap.Nodes() <= old(heap.Nodes())
      ensures popped.None? ==> heap.Shape() == old(heap.Shape())
      ensures popped.None? <==> forall e <- old(heap.Contents()) :: timerOfNow.key < e.key
      ensures popped.Some? ==> popped.value.key <= timerOfNow.key
      ensures popped.Some? ==> old(heap.Contents()) == heap.Contents() + multiset{popped.value}
      ensures popped.Some? ==> forall e <- heap.Contents() :: popped.value.key <= e.key
    {
      var top := heap.Peek();
      if top.Some? && !timerOfNow.OutRanks(top.value) {
        popped := heap.Pop();
      } else {
        popped := None;
      }
    }

    /** popIfOutRanks as the loop below calls it, when `popped` has just expired. */
    method PopNext(timerOfNow: LocRankable, ghost all: multiset<LocRankable>,
                   ghost expired: seq<LocRankable>, ghost popped: LocRankable)
      returns (timer: Option<LocRankable>)
      requires Valid() && InBatch(all, expired, Some(popped), heap.Contents(), timerOfNow.key)
      modifies heap, heap.Nodes()
      ensures Valid() && heap.Nodes() <= old(heap.Nodes())
      ensures InBatch(all, expired + [popped], timer, heap.Contents(), timerOfNow.key)
      ensures |heap.Contents()| + |Pending(timer)| < |old(heap.Contents())| + 1
    {
      ghost var rest := heap.Contents();
      timer := PopIfOutRanks(timerOfNow);
      BatchGrows(all, expired, popped, rest, timer, heap.Contents(), timerOfNow.key);
    }

    /** The loop of MsgTimerExpire::proc: one pop whatever the time is, then one
        after another while the top is not in the future. */
    method PopExpired(now: int) returns (expired: seq<LocRankable>)
      requires Valid()
      modifies heap, heap.Nodes()
      ensures Valid() && heap.Nodes() <= old(heap.Nodes())
      ensures InBatch(old(heap.Contents()), expired, None, heap.Contents(), now)
    {
      var timerOfNow := LocRankable(0, now);
      ghost var all := heap.Contents();
      expired := [];
      var timer := heap.Pop();
      BatchStarts(all, timer, heap.Contents(), now);
      while timer.Some?
        invariant Valid() && heap.Nodes() <= old(heap.Nodes())
        invariant InBatch(all, expired, timer, heap.Contents(), now)
        decreases |heap.Contents()| + |Pending(timer)|
      {
        ghost var (before, popped) := (expired, timer.value);
        expired := expired + [timer.value];
        timer := PopNext(timerOfNow, all, before, popped);
      }
    }

    /** What the loop has popped is a batch. */
    method PopBatch(now: int) returns (expired: seq<LocRankable>)
      requires Valid()
      modifies heap, heap.Nodes()
      ensures Valid() && heap.Nodes() <= old(heap.Nodes())
      ensures IsBatch(old(heap.Contents()), expired, heap.Contents(), now)
    {
      expired := PopExpired(now);
      BatchDone(old(heap.Contents()), expired, heap.Contents(), now);
    }

    /** MsgTimerExpire::proc: the batch expires, and the kernel is told the
        soonest of what stays. */
    method ProcExpire(now: int) returns (expired: seq<LocRankable>)
      requires Valid()
      modifies this`mPolled, this`mArmed, heap, heap.Nodes()
      ensures Valid() && heap.Nodes() <= old(heap.Nodes())
      ensures IsBatch(old(heap.Contents()), expired, heap.Contents(), now)
      ensures Box() == Told(old(Box()).(heap := heap.Shape()), LocTimer.UpdateSoonestTime(heap.Shape(), None, false, None))
      ensures if heap.Contents() != multiset{} then ArmedForSoonest(mPolled, mArmed, heap.Contents())
              else mPolled == old(mPolled) && mArmed == old(mArmed)
    {
      expired := PopBatch(now);
      ghost var rest := heap.Contents();
      TellSoonest();
      assert heap.Contents() == rest;
    }
  }

  /** What one expire message takes out of a heap holding `all`, leaving `rest`:
      nothing from an empty heap; otherwise, in order of time, the soonest timer
      whatever the time is and every other whose time has come. */
  ghost predicate IsBatch(all: multiset<LocRankable>, expired: seq<LocRankable>, rest: multiset<LocRankable>, now: int) {
    && all == multiset(expired) + rest
    && (expired == [] <==> all == multiset{})
    && (forall i, j :: 0 <= i < j < |expired| ==> expired[i].key <= expired[j].key)
    && (forall i, e :: 0 <= i < |expired| && e in rest ==> expired[i].key <= e.key)
    && (forall i :: 0 < i < |expired| ==> expired[i].key <= now)
    && (forall e <- rest :: now < e.key)
  }

  /** The timer popped but not yet expired. */
  function Pending(timer: Option<LocRankable>): multiset<LocRankable> {
    if timer.Some? then multiset{timer.value} else multiset{}
  }

  /** How far a batch has got: what has expired, what has just been popped, and
      what is still in the heap. */
  ghost predicate InBatch(all: multiset<LocRankable>, expired: seq<LocRankable>, timer: Option<LocRankable>,
                          rest: multiset<LocRankable>, now: int) {
    && all == multiset(expired) + Pending(timer) + rest
    && (forall i, j :: 0 <= i < j < |expired| ==> expired[i].key <= expired[j].key)
    && (forall i :: 0 < i < |expired| ==> expired[i].key <= now)
    && (forall i, e :: 0 <= i < |expired| && e in rest ==> expired[i].key <= e.key)
    && (timer.Some? ==>
          && (forall e <- rest :: timer.value.key <= e.key)
          && (forall i :: 0 <= i < |expired| ==> expired[i].key <= timer.value.key)
          && (expired != [] ==> timer.value.key <= now))
    && (timer.None? ==> forall e <- rest :: now < e.key)
    && (timer.None? && expired == [] ==> all == multiset{})
  }

  lemma BatchStarts(all: multiset<LocRankable>, timer: Option<LocRankable>, rest: multiset<LocRankable>, now: int)
    requires all == rest + Pending(timer)
    requires timer.None? <==> all == multiset{}
    requires timer.Some? ==> forall e <- rest :: timer.value.key <= e.key
    ensures InBatch(all, [], timer, rest, now)
  {}

  lemma BatchGrows(all: multiset<LocRankable>, expired: seq<LocRankable>, popped: LocRankable, rest: multiset<LocRankable>,
                   timer: Option<LocRankable>, rest': multiset<LocRankable>, now: int)
    requires InBatch(all, expired, Some(popped), rest, now)
    requires rest == rest' + Pending(timer)
    requires timer.None? ==> forall e <- rest' :: now < e.key
    requires timer.Some? ==> timer.value.key <= now && forall e <- rest' :: timer.value.key <= e.key
    ensures InBatch(all, expired + [popped], timer, rest', now)
    ensures |rest'| + |Pending(timer)| < |rest| + 1
  {
    BatchRegroups(all, expired, popped, rest, timer, rest');
    forall e | e in rest' ensures e in rest {}
    if timer.Some? { assert timer.value in rest; }
  }

  lemma BatchRegroups(all: multiset<LocRankable>, expired: seq<LocRankable>, popped: LocRankable, rest: multiset<LocRankable>,
                      timer: Option<LocRankable>, rest': multiset<LocRankable>)
    requires all == multiset(expired) + Pending(Some(popped)) + rest
    requires rest == rest' + Pending(timer)
    ensures all == multiset(expired + [popped]) + Pending(timer) + rest'
    ensures |rest'| + |Pending(timer)| < |rest| + 1
  {
    assert multiset(expired + [popped]) == multiset(expired) + multiset{popped};
  }

  lemma BatchDone(all: multiset<LocRankable>, expired: seq<LocRankable>, rest: multiset<LocRankable>, now: int)
    requires InBatch(all, expired, None, rest, now)
    ensures IsBatch(all, expired, rest, now)
  {
    if expired != [] {
      assert expired[0] in multiset(expired);
      assert expired[0] in all;
    }
  }
}
