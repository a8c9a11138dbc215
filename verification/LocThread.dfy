/** gps/utils/LocThread.cpp: the life of one thread delegate, which the parent and
    the spawned thread both hold.  A step is one access to the delegate, or what one
    of them does under its mutex. */
module LocThread {
  /** The fields of LocThreadDelegate.  `runnable`: mRunnable is not null. */
  datatype Delegate = Delegate(runnable: bool, joinable: bool, refCount: int)

  datatype Parent =
    | Constructing
    | Creating          // the constructor is over; create() is about to look at mRunnable
    | Holding           // LocThread::mThread points to the delegate
    | Stopping          // stop() has cleared mRunnable
    | Joining
    | Leaving(destroy: Destroy)
    | Left

  datatype Child =
    | NotStarted
    | Started
    | Running
    | Finishing         // mRunnable is cleared, the runnable is about to be deleted
    | Exiting(destroy: Destroy)
    | Exited

  /** Inside destroy(): about to look at mRefCount, about to decrement it, about to
      delete the delegate. */
  datatype Destroy = Look | Decrement | Delete

  /** `delegate` is meaningful until `freed`.  `started` and `joined` are history:
      the thread was created; pthread_join has returned.  `deleted`: the runnable
      has been deleted. */
  datatype State = State(delegate: Delegate, freed: bool, parent: Parent, child: Child,
                         started: bool, joined: bool, deleted: bool)

  /** The delegate as its constructor sets it up. */
  function Init(joinable: bool): State {
    State(Delegate(true, joinable, 2), false, Constructing, NotStarted, false, false, false)
  }

  datatype Step =
    | Spawn(created: bool)
    | CheckRunning
    | Stop
    | Bye
    | StopOrJoin
    | Joined
    | ParentDestroys
    | ReadRunnable
    | RunOnce           // any of isRunning, prerun, run, postrun
    | ClearRunnable
    | DeleteRunnable
    | ChildDestroys

  /** Fault: the delegate was touched after it was freed. */
  datatype Outcome = Disabled | Fault | Ok(state: State)

  function Next(s: State, step: Step): Outcome {
    var d := s.delegate;
    match step
    case Spawn(created) =>
      if !s.parent.Constructing? then Disabled
      else if s.freed then Fault
      else if created then Ok(s.(parent := Creating, child := Started, started := true))
      else Ok(s.(parent := Creating, delegate := Delegate(false, false, 1)))
    case CheckRunning =>
      if !s.parent.Creating? then Disabled
      else if s.freed then Fault
      else Ok(s.(parent := if d.runnable then Holding else Leaving(Look)))
    case Stop =>
      if !s.parent.Holding? then Disabled
      else if s.freed then Fault
      else Ok(s.(delegate := d.(runnable := false), parent := Stopping))
    case Bye =>
      if !s.parent.Holding? then Disabled
      else if s.freed then Fault
      else if d.joinable then Ok(s.(delegate := d.(runnable := false), parent := Stopping))
      else Ok(s.(parent := Leaving(Look)))
    case StopOrJoin =>
      if !s.parent.Stopping? then Disabled
      else if s.freed then Fault
      else if d.joinable then Ok(s.(delegate := d.(joinable := false), parent := Joining))
      else Ok(s.(parent := Leaving(Look)))
    case Joined =>
      if !s.parent.Joining? || !s.child.Exited? then Disabled
      else if s.freed then Fault
      else Ok(s.(parent := Leaving(Look), joined := true))
    case ParentDestroys =>
      if !s.parent.Leaving? then Disabled
      else if s.freed then Fault
      else
        (match s.parent.destroy
         case Look => Ok(s.(parent := if d.refCount > 0 then Leaving(Decrement) else Left))
         case Decrement =>
           Ok(s.(delegate := d.(refCount := d.refCount - 1), parent := if d.refCount == 1 then Leaving(Delete) else Left))
         case Delete => Ok(s.(freed := true, parent := Left)))
    case ReadRunnable =>
      if !s.child.Started? then Disabled
      else if s.freed then Fault
      else Ok(s.(child := if d.runnable then Running else Exiting(Look)))
    case RunOnce =>
      if !s.child.Running? then Disabled else if s.freed then Fault else Ok(s)
    case ClearRunnable =>
      if !s.child.Running? then Disabled
      else if s.freed then Fault
      else Ok(s.(delegate := d.(runnable := false), child := Finishing))
    case DeleteRunnable =>
      if !s.child.Finishing? then Disabled else Ok(s.(child := Exiting(Look), deleted := true))
    case ChildDestroys =>
      if !s.child.Exiting? then Disabled
      else if s.freed then Fault
      else
        match s.child.destroy
        case Look => Ok(s.(child := if d.refCount > 0 then Exiting(Decrement) else Exited))
        case Decrement =>
          Ok(s.(delegate := d.(refCount := d.refCount - 1), child := if d.refCount == 1 then Exiting(Delete) else Exited))
        case Delete => Ok(s.(freed := true, child := Exited))
  }

  function Run(s: State, steps: seq<Step>): Outcome
    decreases |steps|
  {
    if steps == [] then Ok(s)
    else
      match Next(s, steps[0])
      case Ok(s') => Run(s', steps[1..])
      case r => r
  }

  // The invariant.

  predicate ParentHolds(s: State) { !s.parent.Left? && s.parent != Leaving(Delete) }

  /** Until it is created, the thread's share is held for it; if it never is, there is none. */
  predicate ChildHolds(s: State) {
    if s.child.NotStarted? then s.parent.Constructing? else !s.child.Exited? && s.child != Exiting(Delete)
  }

  function Holders(s: State): int {
    (if ParentHolds(s) then 1 else 0) + (if ChildHolds(s) then 1 else 0)
  }

  predicate SomeoneDeletes(s: State) { s.parent == Leaving(Delete) || s.child == Exiting(Delete) }

  /** Neither of the two will ever use the delegate again. */
  predicate AllGone(s: State) {
    s.parent.Left? && (s.child.Exited? || s.child.NotStarted?)
  }

  ghost predicate Inv(s: State) {
    && (s.freed <==> AllGone(s))
    && (!s.freed ==> s.delegate.refCount == Holders(s))
    && (SomeoneDeletes(s) <==> Holders(s) == 0 && !s.freed)
    && !(s.parent == Leaving(Delete) && s.child == Exiting(Delete))
    && (s.started <==> !s.child.NotStarted?)
    && (s.parent.Constructing? ==> s.child.NotStarted? && s.delegate.runnable)
    && (s.child.Finishing? ==> !s.delegate.runnable)
    && (s.joined ==> s.child.Exited?)
    && (s.parent.Holding? || s.parent.Stopping? || s.parent.Joining? ==> s.started)
    && (s.parent.Creating? ==>
          (s.delegate.runnable <==> s.child.Started? || s.child.Running?)
          && ((s.child.Exiting? || s.child.Exited?) ==> s.deleted))
  }

  ghost predicate KeepsInv(r: Outcome) { !r.Fault? && (r.Ok? ==> Inv(r.state)) }

  lemma CreateInv(s: State, step: Step)
    requires Inv(s) && (step.Spawn? || step.CheckRunning?)
    ensures KeepsInv(Next(s, step))
  {}

  lemma StopInv(s: State, step: Step)
    requires Inv(s) && (step.Stop? || step.Bye? || step.StopOrJoin? || step.Joined?)
    ensures KeepsInv(Next(s, step))
  {}

  lemma ChildRunInv(s: State, step: Step)
    requires Inv(s) && (step.ReadRunnable? || step.RunOnce? || step.ClearRunnable? || step.DeleteRunnable?)
    ensures KeepsInv(Next(s, step))
  {}

  lemma DestroyInv(s: State, step: Step)
    requires Inv(s) && (step.ParentDestroys? || step.ChildDestroys?)
    ensures KeepsInv(Next(s, step))
  {}

  /** No step touches a freed delegate, and every step keeps the invariant. */
  lemma NextInv(s: State, step: Step)
    requires Inv(s)
    ensures KeepsInv(Next(s, step))
  {
    if step.Spawn? || step.CheckRunning? {
      CreateInv(s, step);
    } else if step.Stop? || step.Bye? || step.StopOrJoin? || step.Joined? {
      StopInv(s, step);
    } else if step.ParentDestroys? || step.ChildDestroys? {
      DestroyInv(s, step);
    } else {
      ChildRunInv(s, step);
    }
  }

  lemma {:induction false} RunInv(s: State, steps: seq<Step>)
    requires Inv(s)
    ensures !Run(s, steps).Fault?
    ensures Run(s, steps).Ok? ==> Inv(Run(s, steps).state)
    decreases |steps|
  {
    if steps != [] {
      NextInv(s, steps[0]);
      if Next(s, steps[0]).Ok? { RunInv(Next(s, steps[0]).state, steps[1..]); }
    }
  }

  // What it gives, for a joinable or a detached thread, created or not.

  /** No interleaving touches a freed delegate, and none frees it twice. */
  lemma NeverTouchedOnceFreed(joinable: bool, steps: seq<Step>)
    ensures !Run(Init(joinable), steps).Fault?
  {
    RunInv(Init(joinable), steps);
  }

  /** The delegate is freed exactly when the last of its holders has let go. */
  lemma FreedByTheLastHolder(joinable: bool, steps: seq<Step>)
    requires Run(Init(joinable), steps).Ok?
    ensures var s := Run(Init(joinable), steps).state; s.freed <==> AllGone(s)
  {
    RunInv(Init(joinable), steps);
  }

  /** After pthread_join the parent holds the last share: it is the one that frees the
      delegate, and has done so once it has left. */
  lemma JoiningParentFrees(joinable: bool, steps: seq<Step>)
    requires Run(Init(joinable), steps).Ok? && Run(Init(joinable), steps).state.joined
    ensures var s := Run(Init(joinable), steps).state;
            && (s.freed <==> s.parent.Left?)
            && (s.parent == Leaving(Look) || s.parent == Leaving(Decrement) ==> s.delegate.refCount == 1)
  {
    RunInv(Init(joinable), steps);
  }

  // What stop() and giving the thread up do.

  /** stop() clears the runnable; giving up does so only for a joinable thread, and leaves a
      detached one running. */
  lemma StopClears(s: State)
    requires s.parent.Holding? && !s.freed
    ensures var stopped := Ok(s.(delegate := Delegate(false, s.delegate.joinable, s.delegate.refCount), parent := Stopping));
            && Next(s, Stop) == stopped
            && Next(s, Bye) == if s.delegate.joinable then stopped else Ok(s.(parent := Leaving(Look)))
  {}

  /** The thread has not read the runnable, and never will. */
  predicate Unread(s: State) {
    && !s.parent.Constructing?
    && ((s.child.Started? && !s.delegate.runnable) || s.child.Exiting? || s.child.Exited?)
  }

  lemma NextUnread(s: State, step: Step)
    requires Unread(s) && Next(s, step).Ok?
    ensures Unread(Next(s, step).state) && Next(s, step).state.deleted == s.deleted
  {}

  lemma {:induction false} StaysUnread(s: State, steps: seq<Step>)
    requires Unread(s) && Run(s, steps).Ok?
    ensures Unread(Run(s, steps).state) && Run(s, steps).state.deleted == s.deleted
    decreases |steps|
  {
    if steps != [] {
      NextUnread(s, steps[0]);
      StaysUnread(Next(s, steps[0]).state, steps[1..]);
    }
  }

  /** A thread stopped before it has read the runnable never runs it, whatever happens
      then; nor does it delete it. */
  lemma StoppedThreadNeverRuns(s: State, steps: seq<Step>)
    requires Inv(s) && s.parent.Holding? && s.child.Started? && !s.deleted && Run(s, [Stop] + steps).Ok?
    ensures var s' := Run(s, [Stop] + steps).state; !s'.child.Running? && !s'.child.Finishing? && !s'.deleted
  {
    StopClears(s);
    assert ([Stop] + steps)[1..] == steps;
    StaysUnread(Next(s, Stop).state, steps);
  }

  /** Along the run the thread reads the runnable before anyone has cleared it. */
  ghost predicate ReadsInTime(s: State, steps: seq<Step>)
    decreases |steps|
  {
    steps != [] && ((steps[0].ReadRunnable? && s.delegate.runnable)
                    || (Next(s, steps[0]).Ok? && ReadsInTime(Next(s, steps[0]).state, steps[1..])))
  }

  lemma {:induction false} DeletedIff(s: State, steps: seq<Step>)
    requires Inv(s) && Run(s, steps).Ok? && Run(s, steps).state.child.Exited?
    ensures Run(s, steps).state.deleted <==> s.deleted || s.child.Running? || s.child.Finishing? || ReadsInTime(s, steps)
    decreases |steps|
  {
    if steps != [] {
      NextInv(s, steps[0]);
      DeletedIff(Next(s, steps[0]).state, steps[1..]);
    }
  }

  /** That a thread which has been started deletes its runnable holds, in a run at the end
      of which it is over, exactly when it has read it before it was cleared. */
  lemma RunnableDeletedIff(joinable: bool, steps: seq<Step>)
    requires Run(Init(joinable), steps).Ok? && Run(Init(joinable), steps).state.child.Exited?
    ensures Run(Init(joinable), steps).state.deleted <==> ReadsInTime(Init(joinable), steps)
  {
    DeletedIff(Init(joinable), steps);
  }

  const EARLY_STOP := [Spawn(true), CheckRunning, Stop, ReadRunnable]
  const THREAD_LEAVES := [ChildDestroys, ChildDestroys]

  /** It fails on this run: start() has succeeded, stop() comes before the thread reads, and
      the thread is over with the runnable neither run nor deleted. */
  lemma AStoppedRunnableLeaks(joinable: bool)
    ensures Run(Init(joinable), EARLY_STOP[..2]).Ok? && Run(Init(joinable), EARLY_STOP[..2]).state.parent.Holding?
    ensures var r := Run(Init(joinable), EARLY_STOP + THREAD_LEAVES); r.Ok? && r.state.child.Exited? && !r.state.deleted
  {
    var started := Init(joinable).(parent := Creating, child := Started, started := true);
    var holding := started.(parent := Holding);
    var read := holding.(delegate := Delegate(false, joinable, 2), parent := Stopping, child := Exiting(Look));
    assert EARLY_STOP[..2] == [Spawn(true), CheckRunning];
    assert Run(Init(joinable), [Spawn(true), CheckRunning]) == Run(started, [CheckRunning]);
    var steps := EARLY_STOP + THREAD_LEAVES;
    assert Run(Init(joinable), steps) == Run(holding, steps[2..]) by { assert steps[1..][1..] == steps[2..]; }
    assert steps[2..] == [Stop, ReadRunnable, ChildDestroys, ChildDestroys];
    assert Run(holding, steps[2..]) == Run(read, THREAD_LEAVES);
  }

  /** The parent is on its way to joining the thread, or the thread is over. */
  predicate WillJoin(s: State) {
    || (s.parent.Stopping? && s.delegate.joinable) || s.parent.Joining?
    || ((s.parent.Leaving? || s.parent.Left?) && s.child.Exited?)
  }

  lemma {:induction false} StillJoins(s: State, steps: seq<Step>)
    requires WillJoin(s) && Run(s, steps).Ok?
    ensures WillJoin(Run(s, steps).state)
    decreases |steps|
  {
    if steps != [] { StillJoins(Next(s, steps[0]).state, steps[1..]); }
  }

  /** Stopping a joinable thread, or giving it up, does not return before the thread is over. */
  lemma StopOutlastsAJoinableThread(s: State, step: Step, steps: seq<Step>)
    requires Inv(s) && s.parent.Holding? && s.delegate.joinable && (step == Stop || step == Bye)
    requires Run(s, [step] + steps).Ok?
    ensures var s' := Run(s, [step] + steps).state; s'.parent.Leaving? || s'.parent.Left? ==> s'.child.Exited?
  {
    StopClears(s);
    assert ([step] + steps)[1..] == steps;
    StillJoins(Next(s, step).state, steps);
  }

  /** The next move of the thread, or, once it is over, of the parent giving it up. */
  function NextMove(s: State): Step {
    match s.child
    case Started => ReadRunnable
    case Running => ClearRunnable
    case Finishing => DeleteRunnable
    case Exiting(_) => ChildDestroys
    case _ =>
      match s.parent
      case Constructing => Spawn(true)
      case Creating => CheckRunning
      case Holding => Bye
      case Stopping => StopOrJoin
      case Joining => Joined
      case _ => ParentDestroys
  }

  function MovesLeft(destroy: Destroy): nat {
    match destroy
    case Look => 3
    case Decrement => 2
    case Delete => 1
  }

  function ParentMoves(p: Parent): nat {
    match p
    case Constructing => 8
    case Creating => 7
    case Holding => 6
    case Stopping => 5
    case Joining => 4
    case Leaving(destroy) => MovesLeft(destroy)
    case Left => 0
  }

  function ChildMoves(c: Child): nat {
    match c
    case Started => 6
    case Running => 5
    case Finishing => 4
    case Exiting(destroy) => MovesLeft(destroy)
    case _ => 0
  }

  lemma MovesOn(s: State)
    requires Inv(s) && !s.freed
    ensures Next(s, NextMove(s)).Ok?
    ensures var s' := Next(s, NextMove(s)).state;
            ParentMoves(s'.parent) < ParentMoves(s.parent)
            || (s'.parent == s.parent && ChildMoves(s'.child) < ChildMoves(s.child))
  {}

  /** From wherever parent and thread are, their moves go on to the end, and the delegate
      is freed: it does not leak. */
  lemma {:induction false} EveryLifeEnds(s: State) returns (steps: seq<Step>)
    requires Inv(s)
    ensures Run(s, steps).Ok? && Run(s, steps).state.freed
    decreases ParentMoves(s.parent), ChildMoves(s.child)
  {
    if s.freed {
      steps := [];
    } else {
      MovesOn(s);
      NextInv(s, NextMove(s));
      steps := EveryLifeEnds(Next(s, NextMove(s)).state);
      steps := [NextMove(s)] + steps;
    }
  }

  lemma ReachableInv(joinable: bool, steps: seq<Step>)
    requires Run(Init(joinable), steps).Ok?
    ensures Inv(Run(Init(joinable), steps).state)
  {
    RunInv(Init(joinable), steps);
  }

  /** start() reports failure just when the thread could not be created, or is over
      before create() looks at it; then the runnable is deleted by the thread. */
  lemma StartFailsIff(joinable: bool, steps: seq<Step>)
    requires Run(Init(joinable), steps).Ok? && Run(Init(joinable), steps).state.parent.Creating?
    ensures var s := Run(Init(joinable), steps).state;
            && Next(s, CheckRunning).Ok?
            && (Next(s, CheckRunning).state.parent == Leaving(Look) <==>
                  !s.started || s.child.Finishing? || s.child.Exiting? || s.child.Exited?)
            && (s.started && s.child.Exited? ==> s.deleted)
  {
    RunInv(Init(joinable), steps);
  }

  /** The second case does happen: start() reports failure, which leaves the runnable to
      its client, when the thread has run it and deleted it. */
  lemma FailedStartMayHaveRun(joinable: bool)
    ensures var r := Run(Init(joinable), [Spawn(true), ReadRunnable, RunOnce, ClearRunnable, DeleteRunnable, CheckRunning]);
            r.Ok? && r.state.parent == Leaving(Look) && r.state.started && r.state.deleted
  {
    var s1 := Init(joinable).(parent := Creating, child := Running, started := true);
    assert Run(Init(joinable), [Spawn(true), ReadRunnable, RunOnce, ClearRunnable, DeleteRunnable, CheckRunning])
        == Run(s1, [RunOnce, ClearRunnable, DeleteRunnable, CheckRunning]);
    var s2 := s1.(delegate := Delegate(false, joinable, 2), child := Exiting(Look), deleted := true);
    assert Run(s1, [RunOnce, ClearRunnable, DeleteRunnable, CheckRunning]) == Run(s2, [CheckRunning]);
  }
}
