/** What becomes of a start whose time has come, once clients leave it alone and the
    message thread and the poll thread get to run: it is called back. */
module LocTimerProgress {
  import opened Wrappers
  import opened HeapSpec
  import opened LocTimer
  import opened LocTimerInvariant
  import opened LocTimerClients
  import opened LocTimerThreads
  import opened LocTimerTheorems
  import opened LocTimerPlaces

  predicate ByThreads(step: Step) { step.Receive? || step.Proceed? || step.PollWake? || step.PollStep? }

  /** Steps of the two threads alone lead from one state to the other. */
  ghost predicate Leads(s: State, steps: seq<Step>, s': State) {
    (forall i :: 0 <= i < |steps| ==> ByThreads(steps[i])) && Run(s, steps) == Ok(s')
  }

  lemma RunLast(s: State, before: seq<Step>, last: Step)
    requires Run(s, before).Ok?
    ensures Run(s, before + [last]) == Next(Run(s, before).state, last)
  {
    assert (before + [last])[..|before|] == before;
  }

  lemma {:induction false} LeadsOn(s: State, a: seq<Step>, mid: State, b: seq<Step>, s': State)
    requires Leads(s, a, mid) && Leads(mid, b, s')
    ensures Leads(s, a + b, s')
    decreases |b|
  {
    if b == [] {
      assert a + b == a;
    } else {
      var (before, last) := (b[..|b| - 1], b[|b| - 1]);
      LeadsOn(s, a, mid, before, Run(mid, before).state);
      RunLast(s, a + before, last);
      assert a + b == (a + before) + [last];
    }
  }

  lemma LeadsBy(s: State, step: Step, mid: State, steps: seq<Step>, s': State)
    requires ByThreads(step) && Next(s, step) == Ok(mid) && Leads(mid, steps, s')
    ensures Leads(s, [step] + steps, s')
  {
    assert [step][..0] == [];
    LeadsOn(s, [step], mid, steps, s');
  }

  lemma ReachedBy(s: State, step: Step, mid: State)
    requires Reachable(s) && Next(s, step) == Ok(mid)
    ensures Reachable(mid)
  {
    var start, steps :| Init(start) && Run(start, steps) == Ok(s);
    assert (steps + [step])[..|steps|] == steps;
    assert Run(start, steps + [step]) == Ok(mid);
  }

  // ----- a start on its way -----

  /** It runs, or the expiry has stopped it and is about to call back, or has done so. */
  ghost predicate OnItsWay(i: nat, starts: seq<StartRecord>, m: MsgThread) {
    i < |starts| && (starts[i].stops == 0 || (m.CallingBack? && m.serial == i) || starts[i].callbacks == 1)
  }

  ghost predicate GoesOn(i: nat, s: State, s': State) {
    OnItsWay(i, s'.starts, s'.msg) && i < |s.starts| && s'.now == s.now && s'.starts[i].Due() == s.starts[i].Due() && s'.starts[i].wake == s.starts[i].wake
  }

  lemma MovesLeaveStarts(s: State)
    requires !s.msg.Stopping? && !s.msg.CallingBack? && Continue(s).Ok?
    ensures Continue(s).state.starts == s.starts && Continue(s).state.now == s.now
  {}

  lemma StopGoesOn(s: State, i: nat)
    requires OnItsWay(i, s.starts, s.msg) && s.msg.Stopping? && Continue(s).Ok?
    ensures GoesOn(i, s, Continue(s).state)
  {
    StoppingGoesOn(s, s.msg.client);
  }

  lemma CallbackGoesOn(s: State, i: nat)
    requires OnItsWay(i, s.starts, s.msg) && s.msg.CallingBack? && s.msg.serial < |s.starts| && Uncalled(s.starts[s.msg.serial])
    requires Continue(s).Ok?
    ensures GoesOn(i, s, Continue(s).state)
  {}

  lemma ReceivedGoesOn(s: State, i: nat)
    requires OnItsWay(i, s.starts, s.msg) && s.msg.Idle? && Next(s, Receive).Ok?
    ensures GoesOn(i, s, Next(s, Receive).state)
  {}

  lemma StaysOnItsWay(s: State, step: Step, i: nat)
    requires OnItsWay(i, s.starts, s.msg) && ByThreads(step) && Next(s, step).Ok?
    requires s.msg.CallingBack? ==> s.msg.serial < |s.starts| && Uncalled(s.starts[s.msg.serial])
    ensures GoesOn(i, s, Next(s, step).state)
  {
    if step.Receive? {
      ReceivedGoesOn(s, i);
    } else if step.Proceed? {
      if s.msg.Stopping? {
        StopGoesOn(s, i);
      } else if s.msg.CallingBack? {
        CallbackGoesOn(s, i);
      } else {
        MovesLeaveStarts(s);
      }
    }
  }

  lemma {:induction false} AllTheWay(s: State, steps: seq<Step>, s': State, i: nat)
    requires Reachable(s) && Leads(s, steps, s') && OnItsWay(i, s.starts, s.msg)
    ensures Reachable(s') && GoesOn(i, s, s')
    decreases |steps|
  {
    if steps != [] {
      var (before, last) := (steps[..|steps| - 1], steps[|steps| - 1]);
      var mid := Run(s, before).state;
      AllTheWay(s, before, mid, i);
      CalledOnce(mid);
      StaysOnItsWay(mid, last, i);
      ReachedBy(mid, last, s');
    }
  }

  lemma CalledOnce(s: State)
    requires Reachable(s)
    ensures s.msg.CallingBack? ==> s.msg.serial < |s.starts| && Uncalled(s.starts[s.msg.serial])
  {
    ReachableInv(s);
  }

  // ----- the message thread comes to the end of its message -----

  ghost function Runners(delegates: Delegates): set<nat> { set d | d in delegates && delegates[d].mClient.Some? }

  /** Every stop takes a runner and queues one message. */
  ghost function Work(queue: seq<Msg>, delegates: Delegates): nat { |queue| + 2 * |Runners(delegates)| }

  /** All that has been queued is removes. */
  ghost predicate OnlyRemoves(queue: seq<Msg>, queue': seq<Msg>) {
    queue <= queue' && forall m <- queue'[|queue|..] :: m.MsgTimerRemove?
  }

  ghost predicate AllAfter(heap: Tree, t: int) { forall e <- Elems(heap) :: t < e.key }

  function Phase(m: MsgThread): nat {
    match m
    case Idle => 0
    case PopNext(_, _, _) => 0
    case Delete(_) => 1
    case CallingBack(_, _, _, _) => 1
    case SetTime(_, _, _) => 2
    case Disarm(_, _) => 2
    case Stopping(_, _, _, _) => 2
    case _ => 3
  }

  ghost function StillToPop(s: State): nat { if InLoop(s.msg) then |Elems(s.containers.Get(s.msg.wake).heap)| else 0 }

  /** One move nearer to the end of the message. */
  ghost predicate Nearer(s: State, s': State) {
    if InLoop(s'.msg) then InLoop(s.msg) && (StillToPop(s') < StillToPop(s) || (StillToPop(s') == StillToPop(s) && Phase(s'.msg) < Phase(s.msg)))
    else InLoop(s.msg) || Phase(s'.msg) < Phase(s.msg)
  }

  /** In the loop, the moves stay with the container; on leaving it nothing is due. */
  ghost predicate StaysInLoop(s: State, s': State) {
    if InLoop(s.msg) then
      if InLoop(s'.msg) then s'.msg.wake == s.msg.wake && s'.msg.timerOfNow == s.msg.timerOfNow
      else AllAfter(s'.containers.Get(s.msg.wake).heap, s.msg.timerOfNow)
    else !InLoop(s'.msg) && forall wake :: s'.containers.Get(wake).heap == s.containers.Get(wake).heap
  }

  ghost predicate Moved(s: State, s': State) {
    && Nearer(s, s') && StaysInLoop(s, s') && s'.poll == s.poll
    && Work(s'.queue, s'.delegates) <= Work(s.queue, s.delegates) && OnlyRemoves(s.queue, s'.queue)
  }

  lemma PopMoves(s: State, heap: Tree)
    requires s.msg.PopNext? && heap == s.containers.Get(s.msg.wake).heap
    requires IsHeap(heap) && HeapReadable(heap, s.delegates)
    ensures Continue(s).Ok? && Moved(s, Continue(s).state)
  {
    PopOrLeave(s, heap);
    if heap.Node? {
      TopOutranks(heap);
      PopTakesTop(heap);
    }
  }

  /** The loop's test. */
  lemma PopOrLeave(s: State, heap: Tree)
    requires s.msg.PopNext? && heap == s.containers.Get(s.msg.wake).heap && HeapReadable(heap, s.delegates)
    ensures Continue(s).Ok?
    ensures var (m, s') := (s.msg, Continue(s).state);
            && s'.queue == s.queue && s'.delegates == s.delegates && s'.poll == s.poll
            && if heap.Leaf? || (!m.first && m.timerOfNow < heap.data.key)
               then !InLoop(s'.msg) && s'.containers == s.containers
               else s'.msg == Popped(m.wake, m.timerOfNow, heap.data.id) && s'.containers.Get(m.wake).heap == Pop(heap)
  {}

  lemma StopMoves(s: State)
    requires s.msg.Stopping? && s.msg.client in s.clients && StopTimer(s, s.msg.client, true).Ok?
    requires s.clients[s.msg.client].mTimer.Some? ==> s.clients[s.msg.client].mTimer.value in Runners(s.delegates)
    ensures Continue(s).Ok? && Moved(s, Continue(s).state)
  {
    var c := s.msg.client;
    StoppingGoesOn(s, c);
    StopWorks(s, c);
  }

  lemma StopWorks(s: State, c: nat)
    requires c in s.clients && StopTimer(s, c, true).Ok?
    requires s.clients[c].mTimer.Some? ==> s.clients[c].mTimer.value in Runners(s.delegates)
    ensures var s' := StopTimer(s, c, true).state;
            s'.containers == s.containers && s'.poll == s.poll
            && Work(s'.queue, s'.delegates) <= Work(s.queue, s.delegates) && OnlyRemoves(s.queue, s'.queue)
  {
    if s.clients[c].mTimer.Some? { OneRunnerLess(s.delegates, s.clients[c].mTimer.value); }
  }

  lemma OneRunnerLess(delegates: Delegates, d: nat)
    requires d in Runners(delegates)
    ensures |Runners(delegates[d := Detached(delegates[d])])| == |Runners(delegates)| - 1
  {
    assert Runners(delegates[d := Detached(delegates[d])]) == Runners(delegates) - {d};
  }

  lemma DeleteMoves(s: State)
    requires s.msg.Delete? && Continue(s).Ok? && s.delegates[s.msg.timer].mClient.None?
    ensures Moved(s, Continue(s).state)
  {
    assert Runners(s.delegates - {s.msg.timer}) == Runners(s.delegates);
  }

  lemma KernelMoves(s: State)
    requires s.msg.AddPoll? || s.msg.SetTime? || s.msg.RemovePoll? || s.msg.Disarm?
    ensures Continue(s).Ok? && Moved(s, Continue(s).state)
  {}

  lemma PoppedMoves(s: State)
    requires s.msg.Popped? && Continue(s).Ok?
    ensures Moved(s, Continue(s).state)
  {
    var m := AfterPop(s.msg.timer, s.delegates[s.msg.timer].mClient, s.msg.wake, s.msg.timerOfNow);
    assert Continue(s) == Ok(s.(msg := m));
  }

  lemma CallbackMoves(s: State)
    requires s.msg.CallingBack? && Continue(s).Ok?
    ensures Moved(s, Continue(s).state)
  {
    var s' := Continue(s).state;
    assert s' == s.(starts := s'.starts, msg := PopNext(s.msg.wake, s.msg.timerOfNow, false));
  }

  /** What these moves find. */
  lemma MoveFinds(s: State)
    requires Reachable(s) && !s.msg.Idle?
    ensures s.msg.PopNext? ==> IsHeap(s.containers.Get(s.msg.wake).heap) && HeapReadable(s.containers.Get(s.msg.wake).heap, s.delegates)
    ensures s.msg.Delete? ==> s.msg.timer in s.delegates && s.delegates[s.msg.timer].mClient.None?
    ensures s.msg.Stopping? ==> s.msg.client in s.clients && StopTimer(s, s.msg.client, true).Ok?
    ensures s.msg.Stopping? && s.clients[s.msg.client].mTimer.Some? ==> s.clients[s.msg.client].mTimer.value in Runners(s.delegates)
  {
    ReachableInv(s);
    if s.msg.Stopping? { StopInv(s, s.msg.client, true); }
  }

  lemma CanMove(s: State)
    requires Reachable(s) && !s.msg.Idle?
    ensures Continue(s).Ok?
  {
    ReachableInv(s);
    ProceedInv(s);
    MovesOn(s);
  }

  lemma MovesOn(s: State)
    ensures Continue(s).Disabled? <==> s.msg.Idle?
  {}

  lemma ProceedMoves(s: State) returns (mid: State)
    requires Reachable(s) && !s.msg.Idle?
    ensures Next(s, Proceed) == Ok(mid) && Reachable(mid) && Moved(s, mid)
  {
    CanMove(s);
    MoveFinds(s);
    mid := Continue(s).state;
    if s.msg.PopNext? {
      PopMoves(s, s.containers.Get(s.msg.wake).heap);
    } else if s.msg.Stopping? {
      StopMoves(s);
    } else if s.msg.Delete? {
      DeleteMoves(s);
    } else if s.msg.Popped? {
      PoppedMoves(s);
    } else if s.msg.CallingBack? {
      CallbackMoves(s);
    } else {
      KernelMoves(s);
    }
    ReachedBy(s, Proceed, mid);
  }

  /** The end of the message at hand, and what has happened meanwhile. */
  ghost predicate Ended(s: State, s': State) {
    && s'.msg.Idle? && s'.poll == s.poll
    && Work(s'.queue, s'.delegates) <= Work(s.queue, s.delegates) && OnlyRemoves(s.queue, s'.queue)
    && (if InLoop(s.msg) then AllAfter(s'.containers.Get(s.msg.wake).heap, s.msg.timerOfNow)
        else forall wake :: s'.containers.Get(wake).heap == s.containers.Get(wake).heap)
  }

  lemma MovedThenEnded(s: State, mid: State, s': State)
    requires Moved(s, mid) && Ended(mid, s')
    ensures Ended(s, s')
  {
    assert s'.queue[|s.queue|..] == mid.queue[|s.queue|..] + s'.queue[|mid.queue|..];
  }

  lemma {:induction false} ToIdle(s: State) returns (s': State, steps: seq<Step>)
    requires Reachable(s)
    ensures Leads(s, steps, s') && Reachable(s') && Ended(s, s')
    decreases InLoop(s.msg), StillToPop(s), Phase(s.msg)
  {
    if s.msg.Idle? {
      s', steps := s, [];
    } else {
      var mid := ProceedMoves(s);
      s', steps := ToIdle(mid);
      MovedThenEnded(s, mid, s');
      LeadsBy(s, Proceed, mid, steps, s');
      steps := [Proceed] + steps;
    }
  }

  // ----- both threads come to rest -----

  lemma Receives(s: State) returns (mid: State)
    requires Reachable(s) && s.msg.Idle? && s.queue != []
    ensures Next(s, Receive) == Ok(mid) && Reachable(mid)
    ensures mid.poll == s.poll && mid.queue == s.queue[1..] && mid.delegates == s.delegates
    ensures s.queue[0].MsgTimerExpire? ==> mid.msg == PopNext(s.queue[0].wake, s.now, true)
  {
    CanReceive(s);
    mid := Next(s, Receive).state;
    ReceiveLeaves(s);
    ReachedBy(s, Receive, mid);
  }

  lemma CanReceive(s: State)
    requires Reachable(s) && s.msg.Idle? && s.queue != []
    ensures Next(s, Receive).Ok?
  {
    ReachableInv(s);
    NextInv(s, Receive);
    TakesOn(s);
  }

  lemma TakesOn(s: State)
    requires s.msg.Idle? && s.queue != []
    ensures !Next(s, Receive).Disabled?
  {}

  lemma ReceiveLeaves(s: State)
    requires s.msg.Idle? && s.queue != [] && Next(s, Receive).Ok?
    ensures var s' := Next(s, Receive).state;
            s'.poll == s.poll && s'.queue == s.queue[1..] && s'.delegates == s.delegates
    ensures s.queue[0].MsgTimerExpire? ==> Next(s, Receive).state.msg == PopNext(s.queue[0].wake, s.now, true)
  {}

  lemma {:induction false} Drain(s: State) returns (s': State, steps: seq<Step>)
    requires Reachable(s) && s.msg.Idle?
    ensures Leads(s, steps, s') && Reachable(s') && s'.msg.Idle? && s'.queue == [] && s'.poll == s.poll
    decreases Work(s.queue, s.delegates)
  {
    if s.queue == [] {
      s', steps := s, [];
    } else {
      var mid := Receives(s);
      var idle, a := ToIdle(mid);
      s', steps := Drain(idle);
      LeadsOn(mid, a, idle, steps, s');
      LeadsBy(s, Receive, mid, a + steps, s');
      steps := [Receive] + (a + steps);
    }
  }

  ghost function Sent(todo: seq<bool>): seq<Msg> {
    if todo == [] then [] else [MsgTimerExpire(todo[0])] + Sent(todo[1..])
  }

  lemma SentSplits(queue: seq<Msg>, todo: seq<bool>)
    requires todo != []
    ensures queue + [MsgTimerExpire(todo[0])] + Sent(todo[1..]) == queue + Sent(todo)
  {}

  lemma PollSteps(s: State) returns (mid: State)
    requires Reachable(s) && s.poll.todo != []
    ensures Next(s, PollStep) == Ok(mid) && Reachable(mid) && mid.msg == s.msg && mid.now == s.now
    ensures if s.poll.stage < 2 then mid.poll == s.poll.(stage := s.poll.stage + 1) && mid.queue == s.queue
            else mid.poll == PollThread(s.poll.todo[1..], 0) && mid.queue == s.queue + [MsgTimerExpire(s.poll.todo[0])]
  {
    mid := ExpireStep(s);
    ReachedBy(s, PollStep, mid);
  }

  /** The poll thread sends its expires. */
  lemma {:induction false} PollAll(s: State) returns (s': State, steps: seq<Step>)
    requires Reachable(s)
    ensures Leads(s, steps, s') && Reachable(s') && s'.poll.todo == []
    ensures s'.msg == s.msg && s'.now == s.now && s'.queue == s.queue + Sent(s.poll.todo)
    decreases |s.poll.todo|, if s.poll.stage < 2 then 2 - s.poll.stage else 0
  {
    if s.poll.todo == [] {
      s', steps := s, [];
    } else {
      var mid := PollSteps(s);
      SentSplits(s.queue, s.poll.todo);
      s', steps := PollAll(mid);
      LeadsBy(s, PollStep, mid, steps, s');
      steps := [PollStep] + steps;
    }
  }

  ghost predicate AtRest(s: State) { s.msg.Idle? && s.queue == [] && s.poll.todo == [] }

  lemma ToRest(s: State) returns (s': State, steps: seq<Step>)
    requires Reachable(s)
    ensures Leads(s, steps, s') && Reachable(s') && AtRest(s')
  {
    var sent, a := PollAll(s);
    var idle, b := ToIdle(sent);
    var c;
    s', c := Drain(idle);
    LeadsOn(s, a, sent, b, idle);
    LeadsOn(s, a + b, idle, c, s');
    steps := a + b + c;
  }

  lemma Wakes(s: State, wake: bool) returns (s': State, steps: seq<Step>)
    requires Reachable(s) && AtRest(s) && FdReady(s, wake)
    ensures Leads(s, steps, s') && Reachable(s')
    ensures s'.msg.Idle? && s'.now == s.now && s'.queue == [MsgTimerExpire(wake)]
  {
    var woken := s.(poll := PollThread([wake], 0));
    assert Next(s, PollWake([wake])) == Ok(woken);
    ReachedBy(s, PollWake([wake]), woken);
    s', steps := PollAll(woken);
    assert Sent([wake]) == [MsgTimerExpire(wake)];
    LeadsBy(s, PollWake([wake]), woken, steps, s');
    steps := [PollWake([wake])] + steps;
  }

  /** A ready fd makes the poll thread send an expire, and that pops all that is due. */
  lemma WakesAndExpires(s: State, wake: bool) returns (s': State, steps: seq<Step>)
    requires Reachable(s) && AtRest(s) && FdReady(s, wake)
    ensures Leads(s, steps, s') && s'.msg.Idle? && AllAfter(s'.containers.Get(wake).heap, s.now)
    ensures forall m <- s'.queue :: m.MsgTimerRemove?
  {
    var sent, a := Wakes(s, wake);
    var popping := Receives(sent);
    var b;
    s', b := ToIdle(popping);
    LeadsBy(sent, Receive, popping, b, s');
    LeadsOn(s, a, sent, [Receive] + b, s');
    steps := a + ([Receive] + b);
  }

  // ----- the winner calls back -----

  /** A start the expiry has stopped is called back, or about to be. */
  ghost predicate Paid(starts: seq<StartRecord>, m: MsgThread) {
    forall i :: 0 <= i < |starts| && starts[i].stops == 1 && starts[i].byExpiry ==> OnItsWay(i, starts, m)
  }

  lemma StopPaid(s: State, c: nat)
    requires Paid(s.starts, s.msg) && c in s.clients && StopTimer(s, c, false).Ok?
    ensures Paid(StopTimer(s, c, false).state.starts, StopTimer(s, c, false).state.msg)
  {}

  lemma ClientPaid(s: State, step: Step)
    requires Paid(s.starts, s.msg) && Next(s, step).Ok? && (step.Start? || step.Stop? || step.DeleteClient?)
    ensures Paid(Next(s, step).state.starts, Next(s, step).state.msg)
  {
    match step
    case Stop(c) => StopPaid(s, c);
    case DeleteClient(c) => StopPaid(s, c);
    case Start(_, _, _, _) =>
  }

  lemma ExpiryPaid(s: State)
    requires Paid(s.starts, s.msg) && s.msg.Stopping? && Continue(s).Ok?
    ensures Paid(Continue(s).state.starts, Continue(s).state.msg)
  {
    StoppingGoesOn(s, s.msg.client);
  }

  lemma CallbackPays(s: State)
    requires s.msg.CallingBack? && s.msg.serial < |s.starts| && Uncalled(s.starts[s.msg.serial]) && Continue(s).Ok?
    ensures Continue(s).state.starts[s.msg.serial].callbacks == 1
    ensures Paid(s.starts, s.msg) ==> Paid(Continue(s).state.starts, Continue(s).state.msg)
  {}

  lemma NextPaid(s: State, step: Step)
    requires Reachable(s) && Paid(s.starts, s.msg) && Next(s, step).Ok?
    ensures Paid(Next(s, step).state.starts, Next(s, step).state.msg)
  {
    CalledOnce(s);
    if step.Start? || step.Stop? || step.DeleteClient? {
      ClientPaid(s, step);
    } else if step.Proceed? {
      if s.msg.Stopping? {
        ExpiryPaid(s);
      } else if s.msg.CallingBack? {
        CallbackPays(s);
      } else {
        MovesLeaveStarts(s);
      }
    } else {
      OthersLeaveStarts(s, step);
    }
  }

  lemma OthersLeaveStarts(s: State, step: Step)
    requires Next(s, step).Ok? && (step.Tick? || step.NewClient? || step.Receive? || step.PollWake? || step.PollStep?)
    ensures Next(s, step).state.starts == s.starts && (Next(s, step).state.msg == s.msg || step.Receive?)
    ensures step.Receive? ==> s.msg.Idle?
  {}

  lemma {:induction false} RunPaid(start: State, steps: seq<Step>)
    requires Init(start) && Run(start, steps).Ok?
    ensures Paid(Run(start, steps).state.starts, Run(start, steps).state.msg)
    decreases |steps|
  {
    if steps != [] {
      var before := steps[..|steps| - 1];
      RunPaid(start, before);
      assert Run(start, before) == Ok(Run(start, before).state);
      NextPaid(Run(start, before).state, steps[|steps| - 1]);
    }
  }

  /** In every reachable state the start that the expiry has won has been called back, once,
      or the message thread is just about to do that. */
  lemma WinnerCallsBack(s: State, i: nat)
    requires Reachable(s) && i < |s.starts| && s.starts[i].stops == 1 && s.starts[i].byExpiry
    ensures s.starts[i].callbacks == 1 || (s.msg.CallingBack? && s.msg.serial == i)
    ensures s.msg.CallingBack? && s.msg.serial == i ==>
              Next(s, Proceed).Ok? && i < |Next(s, Proceed).state.starts| && Next(s, Proceed).state.starts[i].callbacks == 1
  {
    var start, steps :| Init(start) && Run(start, steps) == Ok(s);
    RunPaid(start, steps);
    CalledOnce(s);
    if s.msg.CallingBack? && s.msg.serial == i {
      CanMove(s);
      CallbackPays(s);
    }
  }

  // ----- what it gives -----

  /** With the message thread idle and nothing to be pushed, a timer that still runs is
      in its heap. */
  lemma RunsInHeap(s: State, i: nat)
    requires Reachable(s) && s.msg.Idle? && (forall m <- s.queue :: m.MsgTimerRemove?)
    requires i < |s.starts| && s.starts[i].stops == 0
    ensures exists e :: e in Elems(s.containers.Get(s.starts[i].wake).heap) && e.key == s.starts[i].Due()
  {
    var d := StartRuns(s, i);
    RunningTimerHasPlace(s, d);
    assert LocRankable(d, s.delegates[d].mFutureTime).key == s.starts[i].Due();
  }

  lemma DueMakesReady(s: State, i: nat)
    requires Reachable(s) && AtRest(s)
    requires i < |s.starts| && s.starts[i].stops == 0 && s.starts[i].Due() <= s.now
    ensures FdReady(s, s.starts[i].wake)
  {
    RunsInHeap(s, i);
    NoLostExpiry(s, s.starts[i].wake);
  }

  /** Whatever the state, steps of the two threads alone lead from it to one in which a
      start that has not been stopped, and whose time has come, has been called back. */
  lemma DueStartIsCalledBack(s: State, i: nat) returns (s': State, steps: seq<Step>)
    requires Reachable(s) && i < |s.starts| && s.starts[i].stops == 0
    requires s.starts[i].time + s.starts[i].ms * 1_000_000 <= s.now
    ensures Leads(s, steps, s') && i < |s'.starts| && s'.starts[i].callbacks == 1
  {
    s', steps := ToRest(s);
    AllTheWay(s, steps, s', i);
    if s'.starts[i].stops == 0 {
      DueMakesReady(s', i);
      var rest := s';
      var more;
      s', more := WakesAndExpires(rest, rest.starts[i].wake);
      LeadsOn(s, steps, rest, more, s');
      AllTheWay(rest, more, s', i);
      steps := steps + more;
      if s'.starts[i].stops == 0 { RunsInHeap(s', i); }
    }
  }

  /** And not only on that one path: on every path of theirs that ends with nothing left
      for them to do, it has been called back, once. */
  lemma RestMeansCalledBack(s: State, steps: seq<Step>, s': State, i: nat)
    requires Reachable(s) && i < |s.starts| && s.starts[i].stops == 0
    requires s.starts[i].time + s.starts[i].ms * 1_000_000 <= s.now
    requires Leads(s, steps, s') && AtRest(s') && !FdReady(s', false) && !FdReady(s', true)
    ensures i < |s'.starts| && s'.starts[i].callbacks == 1 && s'.starts[i].stops == 1
  {
    AllTheWay(s, steps, s', i);
    OneWinnerPerStart(s', i);
    if s'.starts[i].stops == 0 { DueMakesReady(s', i); }
  }
}
