/** Where a running timer is: from its start until it has expired or been stopped,
    no step loses it. */
module LocTimerPlaces {
  import opened Wrappers
  import opened HeapSpec
  import opened LocTimer
  import opened LocTimerInvariant
  import opened LocTimerClients
  import opened LocTimerThreads
  import opened LocTimerTheorems

  /** The message thread has popped it, and not yet stopped its client. */
  predicate Taken(m: MsgThread, d: nat) { (m.Popped? || m.Stopping?) && m.timer == d }

  /** In its heap, or about to be pushed there, or popped from it. */
  ghost predicate HasPlace(d: nat, timer: Delegate, queue: seq<Msg>, sw: Tree, hw: Tree, m: MsgThread) {
    || LocRankable(d, timer.mFutureTime) in Elems(HeapOf(timer.wake, sw, hw))
    || MsgTimerPush(timer.wake, d) in queue
    || Taken(m, d)
  }

  ghost predicate Placed(delegates: Delegates, queue: seq<Msg>, sw: Tree, hw: Tree, m: MsgThread) {
    forall d <- delegates :: delegates[d].mClient.Some? ==> HasPlace(d, delegates[d], queue, sw, hw, m)
  }

  /** The client the expiry has read is the timer's, unless the timer has lost it since. */
  ghost predicate ReadFromTimer(delegates: Delegates, m: MsgThread) {
    m.Stopping? && m.timer in delegates && delegates[m.timer].mClient.Some? ==> delegates[m.timer].mClient == Some(m.client)
  }

  ghost predicate Kept(s: State) {
    Placed(s.delegates, s.queue, s.containers.sw.heap, s.containers.hw.heap, s.msg) && ReadFromTimer(s.delegates, s.msg)
  }

  // ----- the steps -----

  /** No delegate gets a client, and the queue only grows. */
  ghost predicate Fewer(before: Delegates, after: Delegates) {
    forall d <- after :: after[d].mClient.Some? ==> d in before && after[d] == before[d]
  }

  lemma FewerKept(s: State, s': State)
    requires Kept(s) && Fewer(s.delegates, s'.delegates) && s.queue <= s'.queue && s'.msg == s.msg
    requires s'.containers.sw.heap == s.containers.sw.heap && s'.containers.hw.heap == s.containers.hw.heap
    ensures Kept(s')
  {}

  lemma StopFewer(s: State, c: nat, byExpiry: bool)
    requires c in s.clients && StopTimer(s, c, byExpiry).Ok?
    ensures var s' := StopTimer(s, c, byExpiry).state;
            && Fewer(s.delegates, s'.delegates) && s.queue <= s'.queue && s'.msg == s.msg && s'.containers == s.containers
            && (s.clients[c].mTimer.Some? ==> s.clients[c].mTimer.value in s'.delegates
                                              && s'.delegates[s.clients[c].mTimer.value].mClient.None?)
  {}

  lemma StartKept(s: State, c: nat, d: nat, ms: nat, wake: bool)
    requires Kept(s) && c in s.clients && d !in s.delegates && StartTimer(s, c, d, ms, wake).Ok?
    requires !Taken(s.msg, d)
    ensures Kept(StartTimer(s, c, d, ms, wake).state)
  {
    var s' := StartTimer(s, c, d, ms, wake).state;
    if s.clients[c].mTimer.None? {
      assert MsgTimerPush(wake, d) in s'.queue;
      assert forall e <- s.delegates :: s'.delegates[e] == s.delegates[e];
      assert forall m <- s.queue :: m in s'.queue;
    }
  }

  lemma DeleteClientKept(s: State, c: nat)
    requires Kept(s) && c in s.clients && DestroyClient(s, c).Ok?
    ensures Kept(DestroyClient(s, c).state)
  {
    StopFewer(s, c, false);
    FewerKept(s, DestroyClient(s, c).state);
  }

  /** What a message does to the places of the delegates, seen through what it leaves:
      a heap that has gained or lost what it says, and the rest of the queue. */
  lemma PushPlaced(delegates: Delegates, queue: seq<Msg>, sw: Tree, hw: Tree, wake: bool, d: nat, heap: Tree, m: MsgThread)
    requires Placed(delegates, queue, sw, hw, Idle) && queue != [] && queue[0] == MsgTimerPush(wake, d)
    requires d in delegates && delegates[d].wake == wake
    requires Elems(heap) == Elems(HeapOf(wake, sw, hw)) + multiset{LocRankable(d, delegates[d].mFutureTime)}
    ensures Placed(delegates, queue[1..], if wake then sw else heap, if wake then heap else hw, m)
  {
    forall e | e in delegates && delegates[e].mClient.Some?
      ensures HasPlace(e, delegates[e], queue[1..], if wake then sw else heap, if wake then heap else hw, m)
    {
      assert HasPlace(e, delegates[e], queue, sw, hw, Idle);
      var x := LocRankable(e, delegates[e].mFutureTime);
      if MsgTimerPush(delegates[e].wake, e) in queue && e != d {
        StillQueued(queue, MsgTimerPush(delegates[e].wake, e));
      } else if x in Elems(HeapOf(wake, sw, hw)) {
        assert x in Elems(heap);
      }
    }
  }

  lemma StillQueued(queue: seq<Msg>, m: Msg)
    requires m in queue && queue[0] != m
    ensures m in queue[1..]
  {
    assert queue == [queue[0]] + queue[1..];
  }

  lemma RemovePlaced(delegates: Delegates, queue: seq<Msg>, sw: Tree, hw: Tree, wake: bool, d: nat, m: MsgThread)
    requires Placed(delegates, queue, sw, hw, Idle) && queue != [] && queue[0] == MsgTimerRemove(wake, d)
    requires d in delegates && delegates[d].mClient.None? && IsHeap(HeapOf(wake, sw, hw))
    ensures var heap := Remove(HeapOf(wake, sw, hw), LocRankable(d, delegates[d].mFutureTime)).0;
            Placed(delegates, queue[1..], if wake then sw else heap, if wake then heap else hw, m)
  {
    RemoveExact(HeapOf(wake, sw, hw), LocRankable(d, delegates[d].mFutureTime));
    assert queue == [queue[0]] + queue[1..];
  }

  lemma ExpirePlaced(delegates: Delegates, queue: seq<Msg>, sw: Tree, hw: Tree, m: MsgThread)
    requires Placed(delegates, queue, sw, hw, Idle) && queue != [] && queue[0].MsgTimerExpire?
    ensures Placed(delegates, queue[1..], sw, hw, m)
  {
    assert queue == [queue[0]] + queue[1..];
  }

  /** None of the messages leaves the message thread with a popped timer. */
  lemma ReceivedIdle(heap: Tree, x: LocRankable, wake: bool)
    ensures !AfterPush(heap, x, wake).Stopping? && !AfterRemove(heap, x, wake).Stopping?
  {}

  lemma ReceiveKept(s: State)
    requires Inv(s) && Kept(s) && s.msg.Idle? && s.queue != [] && Process(s.(queue := s.queue[1..]), s.queue[0]).Ok?
    ensures Kept(Process(s.(queue := s.queue[1..]), s.queue[0]).state)
  {
    var (sw, hw) := (s.containers.sw.heap, s.containers.hw.heap);
    var m := Process(s.(queue := s.queue[1..]), s.queue[0]).state.msg;
    match s.queue[0]
    case MsgTimerPush(wake, d) =>
      ReceivedIdle(HeapOf(wake, sw, hw), Rankable(s, d), wake);
      PushAddsOne(HeapOf(wake, sw, hw), Rankable(s, d));
      PushPlaced(s.delegates, s.queue, sw, hw, wake, d, Push(HeapOf(wake, sw, hw), Rankable(s, d)), m);
    case MsgTimerRemove(wake, d) =>
      ReceivedIdle(HeapOf(wake, sw, hw), Rankable(s, d), wake);
      assert MsgTimerRemove(s.delegates[d].wake, d) in s.queue;
      RemovePlaced(s.delegates, s.queue, sw, hw, wake, d, m);
    case MsgTimerExpire(wake) =>
      ExpirePlaced(s.delegates, s.queue, sw, hw, m);
  }

  lemma PopPlaced(delegates: Delegates, queue: seq<Msg>, sw: Tree, hw: Tree, wake: bool, m: MsgThread, m': MsgThread)
    requires Placed(delegates, queue, sw, hw, m) && m.PopNext?
    requires HeapOf(wake, sw, hw).Node? && Taken(m', HeapOf(wake, sw, hw).data.id)
    ensures var heap := Pop(HeapOf(wake, sw, hw));
            Placed(delegates, queue, if wake then sw else heap, if wake then heap else hw, m')
  {
    PopTakesTop(HeapOf(wake, sw, hw));
  }

  lemma PopNextKept(s: State)
    requires Kept(s) && s.msg.PopNext? && Continue(s).Ok?
    ensures Kept(Continue(s).state)
  {
    var wake := s.msg.wake;
    var heap := s.containers.Get(wake).heap;
    if heap.Node? && (s.msg.first || heap.data.key <= s.msg.timerOfNow) {
      PopPlaced(s.delegates, s.queue, s.containers.sw.heap, s.containers.hw.heap, wake, s.msg,
                Popped(wake, s.msg.timerOfNow, heap.data.id));
    }
  }

  /** The expiry's own stop detaches the popped timer, if it still has its client. */
  lemma StoppingKept(s: State)
    requires Inv(s) && Kept(s) && s.msg.Stopping? && Continue(s).Ok?
    ensures Kept(Continue(s).state)
  {
    var (c, d) := (s.msg.client, s.msg.timer);
    StopFewer(s, c, true);
    StoppingGoesOn(s, c);
    FewerKept(s, StopTimer(s, c, true).state);
    assert s.delegates[d].mClient == Some(c) ==> s.clients[c].mTimer == Some(d);
  }

  lemma KernelCallKept(s: State)
    requires Kept(s) && (s.msg.AddPoll? || s.msg.SetTime? || s.msg.RemovePoll? || s.msg.Disarm?)
    ensures Continue(s).Ok? && Kept(Continue(s).state)
  {
    var s' := Continue(s).state;
    assert s'.containers.sw.heap == s.containers.sw.heap && s'.containers.hw.heap == s.containers.hw.heap;
  }

  lemma DeleteKept(s: State)
    requires Kept(s) && s.msg.Delete? && Continue(s).Ok?
    ensures Kept(Continue(s).state)
  {
    assert Fewer(s.delegates, Continue(s).state.delegates);
  }

  lemma PoppedKept(s: State)
    requires Kept(s) && s.msg.Popped? && Continue(s).Ok?
    ensures Kept(Continue(s).state)
  {
    var m := AfterPop(s.msg.timer, s.delegates[s.msg.timer].mClient, s.msg.wake, s.msg.timerOfNow);
    assert Continue(s) == Ok(s.(msg := m));
  }

  lemma CallingBackKept(s: State)
    requires Kept(s) && s.msg.CallingBack? && Continue(s).Ok?
    ensures Kept(Continue(s).state)
  {}

  lemma ProceedKept(s: State)
    requires Inv(s) && Kept(s) && Continue(s).Ok?
    ensures Kept(Continue(s).state)
  {
    match s.msg
    case Delete(_) => DeleteKept(s);
    case PopNext(_, _, _) => PopNextKept(s);
    case Popped(_, _, _) => PoppedKept(s);
    case Stopping(_, _, _, _) => StoppingKept(s);
    case CallingBack(_, _, _, _) => CallingBackKept(s);
    case _ => KernelCallKept(s);
  }

  lemma ClientStepKept(s: State, step: Step)
    requires Inv(s) && Kept(s) && Next(s, step).Ok? && (step.Start? || step.Stop? || step.DeleteClient?)
    ensures Kept(Next(s, step).state)
  {
    match step
    case Start(c, d, ms, wake) => StartKept(s, c, d, ms, wake);
    case Stop(c) => StopFewer(s, c, false); FewerKept(s, Next(s, step).state);
    case DeleteClient(c) => DeleteClientKept(s, c);
  }

  /** The clock, new clients and the poll thread. */
  lemma OtherStepKept(s: State, step: Step)
    requires Kept(s) && Next(s, step).Ok? && (step.Tick? || step.NewClient? || step.PollWake? || step.PollStep?)
    ensures Kept(Next(s, step).state)
  {
    FewerKept(s, Next(s, step).state);
  }

  lemma NextKept(s: State, step: Step)
    requires Inv(s) && Kept(s) && Next(s, step).Ok?
    ensures Kept(Next(s, step).state)
  {
    match step
    case Receive => ReceiveKept(s);
    case Proceed => ProceedKept(s);
    case Start(_, _, _, _) => ClientStepKept(s, step);
    case Stop(_) => ClientStepKept(s, step);
    case DeleteClient(_) => ClientStepKept(s, step);
    case _ => OtherStepKept(s, step);
  }

  lemma {:induction false} RunKept(s: State, steps: seq<Step>)
    requires Init(s) && Run(s, steps).Ok?
    ensures Kept(Run(s, steps).state)
  {
    if steps != [] {
      var before := steps[..|steps| - 1];
      RunKept(s, before);
      RunInv(s, before);
      NextKept(Run(s, before).state, steps[|steps| - 1]);
    }
  }

  // ----- what it gives -----

  /** A running timer is in its container's heap, or its push is queued, or the message
      thread has popped it and is about to stop its client. */
  lemma RunningTimerHasPlace(s: State, d: nat)
    requires Reachable(s) && d in s.delegates && s.delegates[d].mClient.Some?
    ensures HasPlace(d, s.delegates[d], s.queue, s.containers.sw.heap, s.containers.hw.heap, s.msg)
  {
    ReachableKept(s);
  }

  lemma ReachableKept(s: State)
    requires Reachable(s)
    ensures Kept(s)
  {
    var start, steps :| Init(start) && Run(start, steps) == Ok(s);
    RunKept(start, steps);
  }

  /** What stands between a timer in the heap and its expiry: an expire on its way, or the
      kernel, which has, or is about to be given, a time no later than the timer's. */
  ghost predicate WillExpire(s: State, wake: bool, due: int) {
    var box := s.containers.Get(wake);
    || ExpireInFlight(wake, s.poll.todo, s.queue, s.msg)
    || ((s.msg.AddPoll? || s.msg.SetTime?) && s.msg.wake == wake && s.msg.time <= due)
    || (box.polled && box.armed.Some? && box.armed.value <= due)
  }

  lemma InHeapWillExpire(s: State, wake: bool, timer: LocRankable)
    requires Reachable(s) && timer in Elems(s.containers.Get(wake).heap)
    ensures WillExpire(s, wake, timer.key)
  {
    assert s.containers.Get(wake).heap.Node?;
    NoLostExpiry(s, wake);
  }

  /** A start that has not been stopped has a running timer, as it asked for. */
  lemma StartRuns(s: State, i: nat) returns (d: nat)
    requires Reachable(s) && i < |s.starts| && s.starts[i].stops == 0
    ensures d in s.delegates && s.delegates[d].serial == i && s.delegates[d].mClient.Some? && AsAsked(s.delegates[d], s.starts[i])
  {
    ReachableInv(s);
    d :| d in s.delegates && s.delegates[d].serial == i && s.delegates[d].mClient.Some?;
  }

  /** No start is lost: until it is stopped its timer runs, and is about to be pushed into
      the container it asked for, or has been popped, or is in that heap, under the time it
      was started at plus the milliseconds it asked for, and will expire. */
  lemma NoLostStart(s: State, i: nat)
    requires Reachable(s) && i < |s.starts| && s.starts[i].stops == 0
    ensures var start := s.starts[i];
            var due := start.time + start.ms * 1_000_000;
            exists d :: d in s.delegates && s.delegates[d].serial == i && s.delegates[d].mClient.Some?
              && s.delegates[d].mFutureTime == due
              && (|| MsgTimerPush(start.wake, d) in s.queue
                  || Taken(s.msg, d)
                  || (LocRankable(d, due) in Elems(s.containers.Get(start.wake).heap) && WillExpire(s, start.wake, due)))
  {
    var d := StartRuns(s, i);
    var (wake, timer) := (s.starts[i].wake, LocRankable(d, s.starts[i].Due()));
    RunningTimerHasPlace(s, d);
    if timer in Elems(s.containers.Get(wake).heap) { InHeapWillExpire(s, wake, timer); }
  }
}
