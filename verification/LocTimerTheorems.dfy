/** What holds in every state the timer service can reach, whatever the
    interleaving of client threads, message thread and poll thread. */
module LocTimerTheorems {
  import opened Wrappers
  import opened HeapSpec
  import opened LocTimer
  import opened LocTimerInvariant
  import opened LocTimerClients
  import opened LocTimerThreads

  lemma ClientStepInv(s: State, step: Step)
    requires Inv(s) && (step.NewClient? || step.Start? || step.Stop? || step.DeleteClient?)
    ensures KeepsInv(Next(s, step))
  {
    match step
    case NewClient(c, l) => if c !in s.clients && l !in s.locks { NewClientInv(s, c, l); }
    case Start(c, d, ms, wake) => if c in s.clients && d !in s.delegates { StartInv(s, c, d, ms, wake); }
    case Stop(c) => if c in s.clients { StopInv(s, c, false); }
    case DeleteClient(c) => if c in s.clients && !UsedByExpiry(s.msg, c) { DeleteClientInv(s, c); }
  }

  lemma ThreadStepInv(s: State, step: Step)
    requires Inv(s) && (step.Receive? || step.Proceed?)
    ensures KeepsInv(Next(s, step))
  {
    match step
    case Receive => if s.msg.Idle? && s.queue != [] { ReceiveInv(s); }
    case Proceed => ProceedInv(s);
  }

  lemma ClockAndPollInv(s: State, step: Step)
    requires Inv(s) && (step.Tick? || step.PollWake? || step.PollStep?)
    ensures KeepsInv(Next(s, step))
  {
    match step
    case Tick(t) => if s.now <= t { TickInv(s, t); }
    case PollWake(ready) => if s.poll.todo == [] { PollWakeInv(s, ready); }
    case PollStep => if s.poll.todo != [] { PollStepInv(s); }
  }

  /** No step touches a freed object, and every step keeps the invariant. */
  lemma NextInv(s: State, step: Step)
    requires Inv(s)
    ensures KeepsInv(Next(s, step))
  {
    if step.Receive? || step.Proceed? {
      ThreadStepInv(s, step);
    } else if step.Tick? || step.PollWake? || step.PollStep? {
      ClockAndPollInv(s, step);
    } else {
      ClientStepInv(s, step);
    }
  }

  /** No run ever faults. */
  lemma {:induction false} RunInv(s: State, steps: seq<Step>)
    requires Init(s)
    ensures KeepsInv(Run(s, steps))
  {
    if steps == [] {
      InitInv(s);
    } else {
      var before := steps[..|steps| - 1];
      RunInv(s, before);
      if Run(s, before).Ok? {
        NextInv(Run(s, before).state, steps[|steps| - 1]);
      }
    }
  }

  lemma NeverFaults(s: State, steps: seq<Step>)
    requires Init(s)
    ensures !Run(s, steps).Fault?
  {
    RunInv(s, steps);
  }

  ghost predicate Reachable(s: State) {
    exists start, steps :: Init(start) && Run(start, steps) == Ok(s)
  }

  lemma ReachableInv(s: State)
    requires Reachable(s)
    ensures Inv(s)
  {
    var start, steps :| Init(start) && Run(start, steps) == Ok(s);
    RunInv(start, steps);
  }

  /** No lost expiry: while a heap holds a timer, either an expire is on its way,
      or the message thread is about to write the soonest time to the kernel, or
      the fd is polled and armed at exactly the soonest time in the heap. */
  lemma NoLostExpiry(s: State, wake: bool)
    requires Reachable(s) && s.containers.Get(wake).heap.Node?
    ensures var box := s.containers.Get(wake);
            && (forall e <- Elems(box.heap) :: box.heap.data.key <= e.key)
            && (|| ExpireInFlight(wake, s.poll.todo, s.queue, s.msg)
                || ((s.msg.AddPoll? || s.msg.SetTime?) && s.msg.wake == wake && s.msg.time == box.heap.data.key)
                || (box.polled && box.armed == Some(box.heap.data.key)))
  {
    ReachableInv(s);
    TopOutranks(s.containers.Get(wake).heap);
  }

  /** Neither heap ever refers to a deleted delegate, nor does a queued message,
      a client, or the message thread. */
  lemma NoDanglingDelegate(s: State)
    requires Reachable(s)
    ensures forall wake, e :: e in Elems(s.containers.Get(wake).heap) ==> e.id in s.delegates
    ensures forall m <- s.queue :: !m.MsgTimerExpire? ==> m.timer in s.delegates
    ensures forall c <- s.clients :: s.clients[c].mTimer.Some? ==> s.clients[c].mTimer.value in s.delegates
    ensures Held(s.msg).Some? ==> Held(s.msg).value in s.delegates
  {
    ReachableInv(s);
  }

  /** A live delegate is owned by its client and no remove for it is pending, or
      it has no client and exactly one remove: queued once, or being handled. */
  lemma RemovedExactlyOnce(s: State, d: nat)
    requires Reachable(s) && d in s.delegates
    ensures var remove := MsgTimerRemove(s.delegates[d].wake, d);
            && (s.delegates[d].mClient.Some? ==> multiset(s.queue)[remove] == 0 && BeingRemoved(s.msg) != Some(d))
            && (s.delegates[d].mClient.None? && BeingRemoved(s.msg) != Some(d) ==> multiset(s.queue)[remove] == 1)
            && (BeingRemoved(s.msg) == Some(d) ==> s.delegates[d].mClient.None? && multiset(s.queue)[remove] == 0)
  {
    ReachableInv(s);
    var remove := MsgTimerRemove(s.delegates[d].wake, d);
    OnceInQueue(s.queue, remove);
  }

  lemma {:induction false} OnceInQueue(queue: seq<Msg>, m: Msg)
    requires forall i, j :: 0 <= i < j < |queue| && queue[i] == queue[j] ==> queue[i] != m
    ensures multiset(queue)[m] == if m in queue then 1 else 0
  {
    if queue != [] {
      var rest := queue[1..];
      forall i, j | 0 <= i < j < |rest| && rest[i] == rest[j] ensures rest[i] != m {
        assert queue[i + 1] == queue[j + 1];
      }
      OnceInQueue(rest, m);
      assert queue == [queue[0]] + rest;
      assert forall i :: 0 <= i < |rest| ==> rest[i] == queue[i + 1];
    }
  }

  /** A shared lock counts its live client, if any, and its live delegates; it is
      there exactly as long as one of them is. */
  lemma LocksCountHolders(s: State, l: nat)
    requires Reachable(s)
    ensures l in s.locks ==> s.locks[l] == |ClientsOf(s.clients, l)| + |DelegatesOf(s.delegates, l)|
    ensures l in s.locks <==> ClientsOf(s.clients, l) != {} || DelegatesOf(s.delegates, l) != {}
    ensures |ClientsOf(s.clients, l)| <= 1
  {
    ReachableInv(s);
    var holders := ClientsOf(s.clients, l);
    if holders != {} {
      var c :| c in holders;
      assert holders == {c};
    }
  }

  /** However the steps of an expiry interleave with other stops, a start has one
      winner: at most one stop of it returns true, it calls back at most once,
      and only if that stop was the expiry's own. */
  lemma OneWinnerPerStart(s: State, i: nat)
    requires Reachable(s) && i < |s.starts|
    ensures s.starts[i].stops <= 1 && s.starts[i].callbacks <= s.starts[i].stops
    ensures s.starts[i].callbacks == 1 ==> s.starts[i].byExpiry
    ensures s.starts[i].stops == 0 <==>
              exists d, c :: d in s.delegates && s.delegates[d].serial == i
                && c in s.clients && s.delegates[d].mClient == Some(c) && s.clients[c].mTimer == Some(d)
  {
    ReachableInv(s);
    if Running(s.delegates, i) {
      var d :| d in s.delegates && s.delegates[d].serial == i && s.delegates[d].mClient.Some?;
      assert s.clients[s.delegates[d].mClient.value].mTimer == Some(d);
    }
  }

  /** Client and delegate agree on each other. */
  lemma ClientAndTimerAgree(s: State, c: nat, d: nat)
    requires Reachable(s) && c in s.clients && d in s.delegates
    ensures s.delegates[d].mClient == Some(c) <==> s.clients[c].mTimer == Some(d)
  {
    ReachableInv(s);
  }

  /** updateSoonestTime never finds the heap emptied: that branch, the only one
      that would disarm the fd, is dead code. */
  lemma EmptiedHeapNeverDisarms(s: State)
    requires Reachable(s)
    ensures !s.msg.RemovePoll? && !s.msg.Disarm?
  {
    ReachableInv(s);
  }
}
