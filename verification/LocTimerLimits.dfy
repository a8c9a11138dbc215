/** Three things one might expect of the timer service and that do not hold, each
    with the condition under which it does, and two of them with a run that shows
    it: no timer is popped before its time (the first pop of an expire message is
    unconditional); the callback is made for the timer that was popped (the client
    is read without its lock and may have been restarted since); a client may be
    deleted at any time (the expiry holds its bare pointer for a while). */
module LocTimerLimits {
  import opened Wrappers
  import opened HeapSpec
  import opened LocTimer
  import opened LocTimerInvariant
  import opened LocTimerClients
  import opened LocTimerThreads
  import opened LocTimerTheorems

  // ----- a timer popped before its time -----

  /** The timers popped along a run, in order. */
  ghost function Pops(s: State, steps: seq<Step>): seq<LocRankable> {
    if steps == [] then []
    else
      var before := steps[..|steps| - 1];
      Pops(s, before) +
      match Run(s, before)
      case Ok(mid) => PoppedBy(mid, Next(mid, steps[|steps| - 1]))
      case _ => []
  }

  ghost function PoppedBy(s: State, outcome: Outcome): seq<LocRankable> {
    if outcome.Ok? && s.msg.PopNext? && outcome.state.msg.Popped? && s.containers.Get(s.msg.wake).heap.Node?
    then [s.containers.Get(s.msg.wake).heap.data] else []
  }

  /** Where the message thread is, with an expire message of container `wake` received at
      time `t`, once it has popped `pops` from what was `heap` and is `left` now. */
  ghost predicate InExpire(m: MsgThread, left: Tree, wake: bool, t: int, heap: Tree, pops: seq<LocRankable>) {
    && (InLoop(m) ==> m.wake == wake && m.timerOfNow == t)
    && (if pops == [] then
          left == heap && (if InLoop(m) then m == PopNext(wake, t, true) else heap.Leaf?)
        else
          && heap.Node? && pops[0] == heap.data
          && (m.PopNext? ==> !m.first)
          && (forall i :: 0 < i < |pops| ==> pops[i].key <= t)
          && (forall e <- Elems(left) :: heap.data.key <= e.key)
          && (t < heap.data.key ==> |pops| == 1))
  }

  /** Only the message thread touches the heaps, and only a pop does so in the loop. */
  lemma OthersLeaveHeaps(s: State, step: Step, wake: bool)
    requires !step.Receive? && !step.Proceed? && Next(s, step).Ok?
    ensures Next(s, step).state.msg == s.msg
    ensures Next(s, step).state.containers.Get(wake).heap == s.containers.Get(wake).heap
  {}

  lemma MovesLeaveHeaps(s: State, wake: bool)
    requires !s.msg.PopNext? && Continue(s).Ok?
    ensures Continue(s).state.containers.Get(wake).heap == s.containers.Get(wake).heap
  {}

  lemma MovesStayInMessage(s: State)
    requires !s.msg.PopNext? && Continue(s).Ok?
    ensures var m := Continue(s).state.msg;
            InLoop(m) ==> InLoop(s.msg) && m.wake == s.msg.wake && m.timerOfNow == s.msg.timerOfNow && (m.PopNext? ==> !m.first)
    ensures Continue(s).state.msg.Popped? ==> !InLoop(s.msg)
  {}

  /** The loop's test. */
  lemma PopOrLeave(s: State)
    requires s.msg.PopNext? && Continue(s).Ok?
    ensures var (m, left, s') := (s.msg, s.containers.Get(s.msg.wake).heap, Continue(s).state);
            if left.Leaf? || (!m.first && m.timerOfNow < left.data.key)
            then !InLoop(s'.msg) && s'.containers == s.containers
            else s'.msg == Popped(m.wake, m.timerOfNow, left.data.id) && s'.containers.Get(m.wake).heap == Pop(left)
  {}

  lemma InExpirePops(m: MsgThread, left: Tree, wake: bool, t: int, heap: Tree, pops: seq<LocRankable>, d: nat)
    requires InExpire(m, left, wake, t, heap, pops) && m.PopNext?
    requires left.Node? && (m.first || left.data.key <= t)
    requires heap.Node? ==> forall e <- Elems(heap) :: heap.data.key <= e.key
    ensures InExpire(Popped(wake, t, d), Pop(left), wake, t, heap, pops + [left.data])
  {
    PopTakesTop(left);
    assert left.data in Elems(left);
    assert forall e <- Elems(Pop(left)) :: e in Elems(left);
  }

  lemma StepInExpire(s: State, step: Step, wake: bool, t: int, heap: Tree, pops: seq<LocRankable>)
    requires InExpire(s.msg, s.containers.Get(wake).heap, wake, t, heap, pops) && !step.Receive? && Next(s, step).Ok?
    requires heap.Node? ==> forall e <- Elems(heap) :: heap.data.key <= e.key
    ensures var s' := Next(s, step).state;
            InExpire(s'.msg, s'.containers.Get(wake).heap, wake, t, heap, pops + PoppedBy(s, Next(s, step)))
  {
    var left := s.containers.Get(wake).heap;
    assert pops + [] == pops;
    if !step.Proceed? {
      OthersLeaveHeaps(s, step, wake);
    } else if !s.msg.PopNext? {
      MovesLeaveHeaps(s, wake);
      MovesStayInMessage(s);
    } else {
      PopOrLeave(s);
      if left.Node? && (s.msg.first || left.data.key <= t) { InExpirePops(s.msg, left, wake, t, heap, pops, left.data.id); }
    }
  }

  lemma {:induction false} RunInExpire(s: State, steps: seq<Step>, wake: bool)
    requires Reachable(s) && s.msg == PopNext(wake, s.now, true) && Run(s, steps).Ok?
    requires forall i :: 0 <= i < |steps| ==> !steps[i].Receive?
    ensures var s' := Run(s, steps).state;
            InExpire(s'.msg, s'.containers.Get(wake).heap, wake, s.now, s.containers.Get(wake).heap, Pops(s, steps))
  {
    if steps != [] {
      var before := steps[..|steps| - 1];
      RunInExpire(s, before, wake);
      if s.containers.Get(wake).heap.Node? { SoonestOnTop(s, wake); }
      StepInExpire(Run(s, before).state, steps[|steps| - 1], wake, s.now, s.containers.Get(wake).heap, Pops(s, before));
    }
  }

  /** Some timer was popped before its time. */
  ghost predicate PoppedEarly(pops: seq<LocRankable>, t: int) {
    exists i :: 0 <= i < |pops| && t < pops[i].key
  }

  ghost predicate AllToCome(heap: Tree, t: int) {
    heap.Node? && forall e <- Elems(heap) :: t < e.key
  }

  lemma ExpiredEarlyIff(m: MsgThread, left: Tree, wake: bool, t: int, heap: Tree, pops: seq<LocRankable>)
    requires InExpire(m, left, wake, t, heap, pops) && !InLoop(m)
    requires heap.Node? ==> heap.data in Elems(heap) && forall e <- Elems(heap) :: heap.data.key <= e.key
    ensures PoppedEarly(pops, t) <==> AllToCome(heap, t)
    ensures PoppedEarly(pops, t) ==> |pops| == 1
  {
    if heap.Node? && t < heap.data.key {
      assert pops[0] == heap.data;
      assert PoppedEarly(pops, t);
    }
  }

  /** A whole expire message, however its steps interleave with other threads': it pops a
      timer before its time exactly when, as it is received, the heap is not empty and
      every timer in it is still to come; and then it pops just that one. */
  lemma ExpirePopsEarlyIff(s: State, steps: seq<Step>, wake: bool)
    requires Reachable(s) && s.msg == PopNext(wake, s.now, true) && Run(s, steps).Ok?
    requires (forall i :: 0 <= i < |steps| ==> !steps[i].Receive?) && !InLoop(Run(s, steps).state.msg)
    ensures PoppedEarly(Pops(s, steps), s.now) <==> AllToCome(s.containers.Get(wake).heap, s.now)
    ensures PoppedEarly(Pops(s, steps), s.now) ==> |Pops(s, steps)| == 1
  {
    RunInExpire(s, steps, wake);
    var (heap, s') := (s.containers.Get(wake).heap, Run(s, steps).state);
    if heap.Node? {
      SoonestOnTop(s, wake);
      assert heap.data in Elems(heap);
    }
    ExpiredEarlyIff(s'.msg, s'.containers.Get(wake).heap, wake, s.now, heap, Pops(s, steps));
  }

  /** The keys in a heap are the times of live delegates, and none is sooner than the
      top's. */
  lemma SoonestOnTop(s: State, wake: bool)
    requires Reachable(s) && s.containers.Get(wake).heap.Node?
    ensures var heap := s.containers.Get(wake).heap;
            (forall e <- Elems(heap) :: heap.data.key <= e.key)
            && (forall e <- Elems(heap) :: e.id in s.delegates && s.delegates[e.id].mFutureTime == e.key)
  {
    ReachableInv(s);
    BothBoxes(s, wake);
    TopOutranks(s.containers.Get(wake).heap);
  }

  /** The stop inside an expiry ends the start of the timer that was popped
      exactly when the client still runs that timer; otherwise it ends none, or
      the one the client has been restarted with. */
  lemma ExpiryEndsItsOwnIff(s: State)
    requires Reachable(s) && s.msg.Stopping?
    ensures s.msg.timer in s.delegates && s.msg.client in s.clients && Next(s, Proceed).Ok?
    ensures var m := Next(s, Proceed).state.msg;
            m.CallingBack? && m.serial == s.delegates[s.msg.timer].serial
            <==> s.clients[s.msg.client].mTimer == Some(s.msg.timer)
  {
    ReachableInv(s);
    MoveOfExpiry(s, s.msg.timer, s.msg.client);
  }

  lemma MoveOfExpiry(s: State, d: nat, c: nat)
    requires Inv(s) && s.msg.Stopping? && d == s.msg.timer && c == s.msg.client
    ensures d in s.delegates && c in s.clients && Next(s, Proceed).Ok?
    ensures Next(s, Proceed).state.msg == AfterStop(s, s.msg.wake, s.msg.timerOfNow, c)
    ensures var m := AfterStop(s, s.msg.wake, s.msg.timerOfNow, c);
            m.CallingBack? && m.serial == s.delegates[d].serial <==> s.clients[c].mTimer == Some(d)
  {
    AfterStopSound(s, c, AfterStop(s, s.msg.wake, s.msg.timerOfNow, c));
    NextOfExpiry(s, c);
    assert Held(s.msg) == Some(d);
    SerialIdentifies(s, d, c);
  }

  lemma NextOfExpiry(s: State, c: nat)
    requires s.msg.Stopping? && s.msg.client == c && c in s.clients && StopTimer(s, c, true).Ok?
    ensures Next(s, Proceed).Ok? && Next(s, Proceed).state.msg == AfterStop(s, s.msg.wake, s.msg.timerOfNow, c)
  {
    StoppingGoesOn(s, c);
  }

  lemma SerialIdentifies(s: State, d: nat, c: nat)
    requires HistorySound(s.starts, s.delegates, s.msg) && Linked(s.clients, s.delegates) && s.msg.Stopping?
    requires d in s.delegates && c in s.clients
    ensures var m := AfterStop(s, s.msg.wake, s.msg.timerOfNow, c);
            m.CallingBack? && m.serial == s.delegates[d].serial <==> s.clients[c].mTimer == Some(d)
  {}

  /** Deleting a client makes the message thread's next move touch freed memory
      exactly while the expiry holds the client's bare pointer. */
  lemma DeletionFaultsIff(s: State, c: nat)
    requires Reachable(s) && c in s.clients
    ensures DestroyClient(s, c).Ok?
    ensures Next(DestroyClient(s, c).state, Proceed).Fault? <==> UsedByExpiry(s.msg, c)
  {
    ReachableInv(s);
    if UsedByExpiry(s.msg, c) {
      StopInv(s, c, false);
      DeletedWhileUsed(s, c);
    } else {
      DeleteClientInv(s, c);
      NextInv(DestroyClient(s, c).state, Proceed);
    }
  }

  lemma DeletedWhileUsed(s: State, c: nat)
    requires c in s.clients && UsedByExpiry(s.msg, c) && s.clients[c].mLock in s.locks && StopTimer(s, c, false).Ok?
    ensures DestroyClient(s, c).Ok? && Next(DestroyClient(s, c).state, Proceed).Fault?
  {}

  lemma Extend(start: State, steps: seq<Step>, mid: State, step: Step, next: State)
    requires Run(start, steps) == Ok(mid) && Next(mid, step) == Ok(next)
    ensures Run(start, steps + [step]) == Ok(next)
  {
    assert (steps + [step])[..|steps|] == steps;
  }

  function FirstState(): State {
    State(1, map[], map[], map[], [], Containers(Container(Leaf, false, None), Container(Leaf, false, None)),
          Idle, PollThread([], 0), [])
  }

  const SOONER := LocRankable(0, 1_000_001)
  const LATER := LocRankable(1, 1_000_000_001)
  const BOTH := Node(2, Node(1, Leaf, LATER, Leaf), SOONER, Leaf)

  lemma TwoClients() returns (s: State, steps: seq<Step>)
    ensures Init(FirstState()) && Run(FirstState(), steps) == Ok(s)
    ensures s == FirstState().(clients := map[0 := Client(0, None), 1 := Client(1, None)], locks := map[0 := 1, 1 := 1])
  {
    var s0 := FirstState();
    var s1 := CreateClient(s0, 0, 0);
    Extend(s0, [], s0, NewClient(0, 0), s1);
    s := CreateClient(s1, 1, 1);
    Extend(s0, [NewClient(0, 0)], s1, NewClient(1, 1), s);
    steps := [NewClient(0, 0)] + [NewClient(1, 1)];
  }

  /** Two timers are running, and the sooner one is in the kernel. */
  lemma TwoTimersRunning() returns (s: State, steps: seq<Step>)
    ensures Init(FirstState()) && Run(FirstState(), steps) == Ok(s)
    ensures s.msg == Idle && s.queue == [] && s.poll == PollThread([], 0) && s.now == 1
    ensures s.containers.sw == Container(BOTH, true, Some(1_000_001))
    ensures s.clients.Keys == {0, 1} && s.clients[0] == Client(0, Some(0)) && s.clients[1] == Client(1, Some(1))
    ensures s.delegates.Keys == {0, 1} && s.locks.Keys == {0, 1} && s.locks[0] == s.locks[1] == 2
    ensures s.delegates[0] == Delegate(Some(0), 0, 1_000_001, Some(false), false, 0)
    ensures s.delegates[1] == Delegate(Some(1), 1, 1_000_000_001, Some(false), false, 1)
    ensures |s.starts| == 2
  {
    s, steps := TwoClients();
    s, steps := FirstStart(s, steps);
    s, steps := SecondStart(s, steps);
    s, steps := TheirPushesHandled(s, steps);
  }

  lemma FirstStart(s: State, steps: seq<Step>) returns (s': State, steps': seq<Step>)
    requires Run(FirstState(), steps) == Ok(s) && s.now == 1 && s.starts == [] && s.delegates == map[]
    requires 0 in s.clients && s.clients[0] == Client(0, None) && 0 in s.locks
    ensures Run(FirstState(), steps') == Ok(s')
    ensures s' == Started(s, 0, 0, Delegate(Some(0), 0, 1_000_001, Some(false), false, 0), 1)
  {
    s' := Started(s, 0, 0, Delegate(Some(0), 0, 1_000_001, Some(false), false, 0), 1);
    Extend(FirstState(), steps, s, Start(0, 0, 1, false), s');
    steps' := steps + [Start(0, 0, 1, false)];
  }

  lemma SecondStart(s: State, steps: seq<Step>) returns (s': State, steps': seq<Step>)
    requires Run(FirstState(), steps) == Ok(s) && s.now == 1 && |s.starts| == 1 && 1 !in s.delegates
    requires 1 in s.clients && s.clients[1] == Client(1, None) && 1 in s.locks
    ensures Run(FirstState(), steps') == Ok(s')
    ensures s' == Started(s, 1, 1, Delegate(Some(1), 1, 1_000_000_001, Some(false), false, 1), 1000)
  {
    s' := Started(s, 1, 1, Delegate(Some(1), 1, 1_000_000_001, Some(false), false, 1), 1000);
    Extend(FirstState(), steps, s, Start(1, 1, 1000, false), s');
    steps' := steps + [Start(1, 1, 1000, false)];
  }

  lemma TheirPushesHandled(s: State, steps: seq<Step>) returns (s': State, steps': seq<Step>)
    requires Run(FirstState(), steps) == Ok(s)
    requires s.msg == Idle && s.containers.sw == Container(Leaf, false, None)
    requires s.queue == [MsgTimerPush(false, 0), MsgTimerPush(false, 1)]
    requires 0 in s.delegates && 1 in s.delegates
    requires s.delegates[0].mFutureTime == SOONER.key && s.delegates[1].mFutureTime == LATER.key
    ensures Run(FirstState(), steps') == Ok(s')
    ensures s' == s.(queue := [], containers := s.containers.(sw := Container(BOTH, true, Some(1_000_001))))
  {
    var one := Node(1, Leaf, SOONER, Leaf);
    var box := s.containers;
    assert Push(Leaf, SOONER) == one;
    var t1 := s.(queue := [MsgTimerPush(false, 1)], containers := box.(sw := Container(one, false, None)), msg := AddPoll(false, 1_000_001, None));
    Extend(FirstState(), steps, s, Receive, t1);
    var t2 := t1.(containers := box.(sw := Container(one, true, None)), msg := SetTime(false, 1_000_001, None));
    Extend(FirstState(), steps + [Receive], t1, Proceed, t2);
    var t3 := t2.(containers := box.(sw := Container(one, true, Some(1_000_001))), msg := Idle);
    Extend(FirstState(), steps + [Receive] + [Proceed], t2, Proceed, t3);
    assert Push(one, LATER) == BOTH;
    s' := t3.(queue := [], containers := box.(sw := Container(BOTH, true, Some(1_000_001))));
    Extend(FirstState(), steps + [Receive] + [Proceed] + [Proceed], t3, Receive, s');
    steps' := steps + [Receive] + [Proceed] + [Proceed] + [Receive];
  }

  const NOW := 1_000_001
  const REST := Node(1, Leaf, LATER, Leaf)

  /** The sooner timer comes due; its client stops it just before the expire
      message is sent. */
  lemma StoppedAsItExpires(s: State, steps: seq<Step>) returns (s': State, steps': seq<Step>)
    requires Run(FirstState(), steps) == Ok(s)
    requires s.msg == Idle && s.queue == [] && s.poll == PollThread([], 0) && s.now == 1
    requires s.containers.sw == Container(BOTH, true, Some(NOW))
    requires 0 in s.clients && s.clients[0] == Client(0, Some(0)) && 0 in s.locks
    requires 0 in s.delegates && s.delegates[0].mContainer == Some(false)
    ensures Run(FirstState(), steps') == Ok(s')
    ensures s' == Destroyed(s.(now := NOW), 0, 0, false).(queue := [MsgTimerRemove(false, 0), MsgTimerExpire(false)],
                  containers := s.containers.(sw := Container(BOTH, false, None)), poll := PollThread([], 0))
  {
    var box := s.containers;
    var t1 := s.(now := NOW);
    Extend(FirstState(), steps, s, Tick(NOW), t1);
    steps' := steps + [Tick(NOW)];
    var t2 := t1.(poll := PollThread([false], 0));
    Extend(FirstState(), steps', t1, PollWake([false]), t2);
    steps' := steps' + [PollWake([false])];
    var t3 := Destroyed(t2, 0, 0, false);
    Extend(FirstState(), steps', t2, Stop(0), t3);
    steps' := steps' + [Stop(0)];
    var t4 := t3.(containers := box.(sw := Container(BOTH, true, None)), poll := PollThread([false], 1));
    Extend(FirstState(), steps', t3, PollStep, t4);
    steps' := steps' + [PollStep];
    var t5 := t4.(containers := box.(sw := Container(BOTH, false, None)), poll := PollThread([false], 2));
    Extend(FirstState(), steps', t4, PollStep, t5);
    steps' := steps' + [PollStep];
    s' := t5.(queue := [MsgTimerRemove(false, 0), MsgTimerExpire(false)], poll := PollThread([], 0));
    Extend(FirstState(), steps', t5, PollStep, s');
    steps' := steps' + [PollStep];
  }

  lemma RemoveReceived(s: State, t1: State)
    requires s.msg == Idle && s.queue == [MsgTimerRemove(false, 0), MsgTimerExpire(false)]
    requires s.containers.sw == Container(BOTH, false, None) && 0 in s.delegates && 1 in s.delegates
    requires s.delegates[0].mFutureTime == SOONER.key && s.delegates[1].mFutureTime == LATER.key
    requires t1 == s.(queue := [MsgTimerExpire(false)], containers := s.containers.(sw := Container(REST, false, None)),
                      msg := AddPoll(false, LATER.key, Some(0)))
    ensures Next(s, Receive) == Ok(t1)
  {
    assert Remove(BOTH, SOONER) == (REST, true);
  }

  lemma RemoveHandled(s: State, steps: seq<Step>) returns (s': State, steps': seq<Step>)
    requires Run(FirstState(), steps) == Ok(s)
    requires s.msg == Idle && s.queue == [MsgTimerRemove(false, 0), MsgTimerExpire(false)] && s.now == NOW
    requires s.containers.sw == Container(BOTH, false, None)
    requires 0 in s.delegates && 1 in s.delegates && s.delegates[0].mLock in s.locks
    requires s.delegates[0].mFutureTime == SOONER.key && s.delegates[1].mFutureTime == LATER.key
    ensures Run(FirstState(), steps') == Ok(s')
    ensures s'.msg == Idle && s'.queue == [MsgTimerExpire(false)] && s'.now == NOW
    ensures s'.containers.sw == Container(REST, true, Some(LATER.key))
    ensures 1 in s'.delegates && s'.delegates[1] == s.delegates[1]
  {
    var box := s.containers;
    var t1 := s.(queue := [MsgTimerExpire(false)], containers := box.(sw := Container(REST, false, None)),
                 msg := AddPoll(false, LATER.key, Some(0)));
    RemoveReceived(s, t1);
    Extend(FirstState(), steps, s, Receive, t1);
    steps' := steps + [Receive];
    var t2 := t1.(containers := box.(sw := Container(REST, true, None)), msg := SetTime(false, LATER.key, Some(0)));
    Extend(FirstState(), steps', t1, Proceed, t2);
    steps' := steps' + [Proceed];
    var t3 := t2.(containers := box.(sw := Container(REST, true, Some(LATER.key))), msg := Delete(0));
    Extend(FirstState(), steps', t2, Proceed, t3);
    steps' := steps' + [Proceed];
    s' := WithoutDelegate(t3, 0).(locks := Dropped(t3.locks, s.delegates[0].mLock));
    Extend(FirstState(), steps', t3, Proceed, s');
    steps' := steps' + [Proceed];
  }

  lemma ExpireHandled(s: State, steps: seq<Step>) returns (s': State, steps': seq<Step>)
    requires Run(FirstState(), steps) == Ok(s)
    requires s.msg == Idle && s.queue == [MsgTimerExpire(false)] && s.now == NOW && 1 in s.delegates
    requires s.containers.sw == Container(REST, true, Some(LATER.key))
    ensures Run(FirstState(), steps') == Ok(s')
    ensures s'.now == NOW && s'.msg == Popped(false, NOW, 1) && s'.delegates == s.delegates
  {
    var t1 := s.(queue := [], msg := PopNext(false, NOW, true));
    Extend(FirstState(), steps, s, Receive, t1);
    s' := t1.(containers := s.containers.(sw := Container(Leaf, true, Some(LATER.key))), msg := Popped(false, NOW, 1));
    Extend(FirstState(), steps + [Receive], t1, Proceed, s');
    steps' := steps + [Receive] + [Proceed];
  }

  /** That no timer expires before its deadline fails on this run: a delegate is
      popped 999 milliseconds before its time. */
  lemma ATimerExpiresEarly() returns (s: State, steps: seq<Step>)
    ensures Init(FirstState()) && Run(FirstState(), steps) == Ok(s)
    ensures s.msg == Popped(false, s.now, 1) && 1 in s.delegates
    ensures s.delegates[1].mFutureTime == s.now + 999_000_000
  {
    s, steps := TwoTimersRunning();
    s, steps := StoppedAsItExpires(s, steps);
    s, steps := RemoveHandled(s, steps);
    s, steps := ExpireHandled(s, steps);
  }

  // ----- a callback for a timer that has not expired -----

  /** The sooner timer comes due, its expire message is handled up to the point
      where the client has been read. */
  lemma ClientHasBeenRead(s: State, steps: seq<Step>) returns (s': State, steps': seq<Step>)
    requires Run(FirstState(), steps) == Ok(s)
    requires s.msg == Idle && s.queue == [] && s.poll == PollThread([], 0) && s.now == 1
    requires s.containers.sw == Container(BOTH, true, Some(NOW))
    requires 0 in s.delegates && 1 in s.delegates && s.delegates[0].mClient == Some(0)
    ensures Run(FirstState(), steps') == Ok(s')
    ensures s' == s.(now := NOW, containers := s.containers.(sw := Container(REST, false, None)), msg := Stopping(false, NOW, 0, 0))
  {
    var box := s.containers;
    var t1 := s.(now := NOW);
    Extend(FirstState(), steps, s, Tick(NOW), t1);
    steps' := steps + [Tick(NOW)];
    var t2 := t1.(poll := PollThread([false], 0));
    Extend(FirstState(), steps', t1, PollWake([false]), t2);
    steps' := steps' + [PollWake([false])];
    var t3 := t2.(containers := box.(sw := Container(BOTH, true, None)), poll := PollThread([false], 1));
    Extend(FirstState(), steps', t2, PollStep, t3);
    var t4 := t3.(containers := box.(sw := Container(BOTH, false, None)), poll := PollThread([false], 2));
    Extend(FirstState(), steps' + [PollStep], t3, PollStep, t4);
    var t5 := t4.(queue := [MsgTimerExpire(false)], poll := PollThread([], 0));
    Extend(FirstState(), steps' + [PollStep] + [PollStep], t4, PollStep, t5);
    steps' := steps' + [PollStep] + [PollStep] + [PollStep];
    s', steps' := TakenUpToStop(t5, steps');
  }

  lemma TakenUpToStop(s: State, steps: seq<Step>) returns (s': State, steps': seq<Step>)
    requires Run(FirstState(), steps) == Ok(s)
    requires s.msg == Idle && s.queue == [MsgTimerExpire(false)] && s.now == NOW
    requires s.containers.sw == Container(BOTH, false, None)
    requires 0 in s.delegates && 1 in s.delegates && s.delegates[0].mClient == Some(0)
    ensures Run(FirstState(), steps') == Ok(s')
    ensures s' == s.(queue := [], containers := s.containers.(sw := Container(REST, false, None)), msg := Stopping(false, NOW, 0, 0))
  {
    var t1 := s.(queue := [], msg := PopNext(false, NOW, true));
    Extend(FirstState(), steps, s, Receive, t1);
    assert Pop(BOTH) == REST;
    var t2 := t1.(containers := s.containers.(sw := Container(REST, false, None)), msg := Popped(false, NOW, 0));
    Extend(FirstState(), steps + [Receive], t1, Proceed, t2);
    s' := t2.(msg := Stopping(false, NOW, 0, 0));
    Extend(FirstState(), steps + [Receive] + [Proceed], t2, Proceed, s');
    steps' := steps + [Receive] + [Proceed] + [Proceed];
  }

  /** That a client may be deleted at any time fails on this run: deleted right after the
      expiry has read it, it is used by the message thread's next move. */
  lemma ADeletedClientIsUsed() returns (s: State, steps: seq<Step>)
    ensures Init(FirstState()) && Run(FirstState(), steps) == Ok(s)
    ensures 0 in s.clients && DestroyClient(s, 0).Ok? && Next(DestroyClient(s, 0).state, Proceed).Fault?
  {
    s, steps := TwoTimersRunning();
    s, steps := ClientHasBeenRead(s, steps);
    assert Reachable(s);
    DeletionFaultsIff(s, 0);
  }

  /** That a callback is made for a start whose time has come fails on this run:
      the client restarts its timer for another second after it has been read,
      and is called back for that new start at once. */
  lemma ACallbackForARestartedTimer() returns (s: State, steps: seq<Step>)
    ensures Init(FirstState()) && Run(FirstState(), steps) == Ok(s)
    ensures s.msg.CallingBack? && 2 in s.delegates && s.msg.serial == s.delegates[2].serial
    ensures s.delegates[2].mFutureTime == s.now + 1_000_000_000
  {
    s, steps := TwoTimersRunning();
    s, steps := ClientHasBeenRead(s, steps);
    var t1 := Destroyed(s, 0, 0, false);
    Extend(FirstState(), steps, s, Stop(0), t1);
    steps := steps + [Stop(0)];
    var t2 := Started(t1, 0, 2, Delegate(Some(0), 0, NOW + 1_000_000_000, Some(false), false, 2), 1000);
    Extend(FirstState(), steps, t1, Start(0, 2, 1000, false), t2);
    steps := steps + [Start(0, 2, 1000, false)];
    s := Destroyed(t2, 0, 2, true).(msg := CallingBack(false, NOW, 0, 2));
    Extend(FirstState(), steps, t2, Proceed, s);
    steps := steps + [Proceed];
  }
}
