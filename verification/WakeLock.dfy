/** libril/ril.cpp: the counted partial wake lock of version 13 on, and the timeouts
    that drop it.  What s_wakeLockCountMutex protects is read and written by its
    holder alone; s_last_wake_timeout_info and the timeouts are not so protected,
    since the end of userTimerCallback takes no mutex.  So every access to those is
    a step of its own, whoever makes it. */
module WakeLock {
  import opened Wrappers

  /** UserCallbackInfo: cancelled once userParam is not null. */
  datatype Info = Info(cancelled: bool)

  /** Where the event-loop thread is inside userTimerCallback. */
  datatype Firing =
    | Idle
    | Read(info: nat, param: bool)   // userParam has been read
    | Compare(info: nat)             // wakeTimeoutCallback has returned
    | Clear(info: nat)               // s_last_wake_timeout_info was equal
    | Free(info: nat)

  /** Where the holder of the mutex is inside a grab, which has made the timeout
      `grab`, or inside a release: about to test s_last_wake_timeout_info, to load
      it, to write through what it loaded, to assign it. */
  datatype Holder =
    | Nobody
    | Testing(grab: Option<nat>)
    | Loading(grab: Option<nat>)
    | Writing(grab: Option<nat>, target: Option<nat>)
    | Assigning(info: nat)

  /** `infos` are the timeouts not yet freed, by address; `latest` is the one the
      latest grab made. */
  datatype State = State(count: nat, held: bool, infos: map<nat, Info>, last: Option<nat>,
                         holder: Holder, firing: Firing, latest: Option<nat>)

  const INIT := State(0, false, map[], None, Nobody, Idle, None)

  datatype Step =
    | Grab(pInfo: Option<nat>)       // None: there was no memory for the timeout
    | Release
    | Test
    | Load
    | Write
    | Assign
    | FireRead(info: nat)
    | FireRun
    | TailCompare
    | TailClear
    | TailFree

  /** Fault: null, or memory that is not there any more, was written to. */
  datatype Outcome = Disabled | Fault | Ok(state: State)

  function Next(s: State, step: Step): Outcome {
    match step
    case Grab(None) => if s.holder.Nobody? then Ok(s.(held := false)) else Disabled
    case Grab(Some(x)) =>
      if !s.holder.Nobody? || x in s.infos then Disabled
      else Ok(s.(count := s.count + 1, held := true, infos := s.infos[x := Info(false)], holder := Testing(Some(x))))
    case Release =>
      if !s.holder.Nobody? then Disabled
      else if s.count > 1 then Ok(s.(count := s.count - 1))
      else Ok(s.(count := 0, held := false, holder := Testing(None)))
    case Test =>
      if !s.holder.Testing? then Disabled
      else Ok(s.(holder := if s.last.Some? then Loading(s.holder.grab) else After(s.holder.grab)))
    case Load =>
      if !s.holder.Loading? then Disabled else Ok(s.(holder := Writing(s.holder.grab, s.last)))
    case Write =>
      if !s.holder.Writing? then Disabled
      else if s.holder.target.None? || s.holder.target.value !in s.infos then Fault
      else Ok(s.(infos := s.infos[s.holder.target.value := Info(true)], holder := After(s.holder.grab)))
    case Assign =>
      if !s.holder.Assigning? then Disabled
      else Ok(s.(last := Some(s.holder.info), latest := Some(s.holder.info), holder := Nobody))
    case FireRead(x) =>
      if s.firing.Idle? && x in s.infos then Ok(s.(firing := Read(x, s.infos[x].cancelled))) else Disabled
    case FireRun =>
      if !s.firing.Read? then Disabled
      else if s.firing.param then Ok(s.(firing := Compare(s.firing.info)))
      else if !s.holder.Nobody? then Disabled
      else Ok(s.(count := 0, held := false, firing := Compare(s.firing.info)))
    case TailCompare =>
      if !s.firing.Compare? then Disabled
      else if s.last == Some(s.firing.info) then Ok(s.(firing := Clear(s.firing.info)))
      else Ok(s.(firing := Free(s.firing.info)))
    case TailClear =>
      if !s.firing.Clear? then Disabled else Ok(s.(last := None, firing := Free(s.firing.info)))
    case TailFree =>
      if !s.firing.Free? then Disabled else Ok(s.(infos := s.infos - {s.firing.info}, firing := Idle))
  }

  /** What follows the cancelling: a grab assigns its timeout, a release is over. */
  function After(grab: Option<nat>): Holder {
    if grab.Some? then Assigning(grab.value) else Nobody
  }

  function Run(s: State, steps: seq<Step>): Outcome
    decreases |steps|
  {
    if steps == [] then Ok(s)
    else
      match Next(s, steps[0])
      case Ok(s') => Run(s', steps[1..])
      case r => r
  }

  // Pointers.

  predicate HasRun(s: State, x: nat) {
    (s.firing.Compare? || s.firing.Clear? || s.firing.Free?) && s.firing.info == x
  }

  /** The timeout a grab under way has made. */
  function Made(h: Holder): Option<nat> {
    match h
    case Nobody => None
    case Assigning(x) => Some(x)
    case Testing(grab) => grab
    case Loading(grab) => grab
    case Writing(grab, _) => grab
  }

  /** s_last_wake_timeout_info never dangles, and what is about to be freed is not what
      it points to; the timeout of a grab under way is not known to anyone else. */
  ghost predicate Sound(s: State) {
    && (s.last.Some? ==> s.last.value in s.infos && s.last == s.latest)
    && (!s.firing.Idle? ==> s.firing.info in s.infos)
    && (s.firing.Read? && s.firing.param ==> s.infos[s.firing.info].cancelled)
    && (s.firing.Free? ==> s.last != Some(s.firing.info))
    && (Made(s.holder).Some? ==>
          && Made(s.holder).value in s.infos && !s.infos[Made(s.holder).value].cancelled
          && !HasRun(s, Made(s.holder).value)
          && s.last != Made(s.holder)
          && (s.holder.Writing? ==> s.holder.target != Made(s.holder)))
  }

  lemma NextSound(s: State, step: Step)
    requires Sound(s) && Next(s, step).Ok?
    ensures Sound(Next(s, step).state)
  {}

  lemma {:induction false} RunSound(s: State, steps: seq<Step>)
    requires Sound(s) && Run(s, steps).Ok?
    ensures Sound(Run(s, steps).state)
    decreases |steps|
  {
    if steps != [] {
      NextSound(s, steps[0]);
      RunSound(Next(s, steps[0]).state, steps[1..]);
    }
  }

  /** In no run does s_last_wake_timeout_info point to a freed timeout; when it is not
      null it points to the one of the latest grab. */
  lemma NoDanglingTimeout(steps: seq<Step>)
    requires Run(INIT, steps).Ok?
    ensures var s := Run(INIT, steps).state; s.last.Some? ==> s.last.value in s.infos && s.last == s.latest
  {
    RunSound(INIT, steps);
  }

  // The write through it.

  /** The holder's test has succeeded, and its write has still to come. */
  predicate BetweenTestAndWrite(s: State) { s.holder.Loading? || s.holder.Writing? }

  /** The pointer, or what it points to, is gone from under the holder. */
  predicate Doomed(s: State) {
    || (s.holder.Loading? && s.last.None?)
    || (s.holder.Writing? && (s.holder.target.None? || s.holder.target.value !in s.infos))
  }

  /** The end of userTimerCallback clears the pointer that the holder has tested, or
      frees the timeout whose address it has loaded. */
  predicate PullsAway(s: State, step: Step) {
    || (step == TailClear && s.firing.Clear? && s.holder.Loading?)
    || (step == TailFree && s.firing.Free? && s.holder.Writing? && s.holder.target == Some(s.firing.info))
  }

  /** A holder comes to be doomed by just those two steps, and stays so. */
  lemma DoomedByPull(s: State, step: Step)
    requires Sound(s) && Next(s, step).Ok?
    ensures Doomed(Next(s, step).state) <==> Doomed(s) || PullsAway(s, step)
  {}

  ghost predicate PulledAway(s: State, steps: seq<Step>)
    decreases |steps|
  {
    steps != [] && (PullsAway(s, steps[0]) || (Next(s, steps[0]).Ok? && PulledAway(Next(s, steps[0]).state, steps[1..])))
  }

  lemma {:induction false} RunDoomed(s: State, steps: seq<Step>)
    requires Sound(s)
    ensures Run(s, steps).Ok? ==> (Doomed(Run(s, steps).state) <==> Doomed(s) || PulledAway(s, steps))
    ensures Run(s, steps).Fault? ==> Doomed(s) || PulledAway(s, steps)
    decreases |steps|
  {
    if steps != [] && Next(s, steps[0]).Ok? {
      NextSound(s, steps[0]);
      DoomedByPull(s, steps[0]);
      RunDoomed(Next(s, steps[0]).state, steps[1..]);
    }
  }

  /** What is left to do up to and including the write. */
  function UpToWrite(h: Holder): seq<Step> { if h.Loading? then [Load, Write] else [Write] }

  /** A run writes through null or to a freed timeout only if the end of
      userTimerCallback has pulled the pointer or the timeout away from a holder
      between its test and its write. */
  lemma FaultsOnlyIfPulledAway(steps: seq<Step>)
    requires Run(INIT, steps).Fault?
    ensures PulledAway(INIT, steps)
  {
    RunDoomed(INIT, steps);
  }

  /** And if it has, the holder's write is sure to fault: for a holder between test and
      write, faulting and having been pulled away from are the same. */
  lemma WriteFaultsIffPulledAway(steps: seq<Step>)
    requires Run(INIT, steps).Ok? && BetweenTestAndWrite(Run(INIT, steps).state)
    ensures var s := Run(INIT, steps).state;
            Run(s, UpToWrite(s.holder)).Fault? <==> PulledAway(INIT, steps)
  {
    RunSound(INIT, steps);
    RunDoomed(INIT, steps);
    WritesUnlessDoomed(Run(INIT, steps).state);
  }

  lemma WritesUnlessDoomed(s: State)
    requires Sound(s) && BetweenTestAndWrite(s)
    ensures Run(s, UpToWrite(s.holder)).Fault? <==> Doomed(s)
  {
    if s.holder.Loading? {
      var s' := s.(holder := Writing(s.holder.grab, s.last));
      assert Next(s, Load) == Ok(s');
      assert UpToWrite(s.holder)[1..] == [Write];
      assert Run(s, UpToWrite(s.holder)) == Run(s', [Write]);
    }
  }

  /** Once pulled away from, no holder ever gets past its write. */
  lemma PulledAwayIsFinal(steps: seq<Step>)
    requires Run(INIT, steps).Ok? && PulledAway(INIT, steps)
    ensures BetweenTestAndWrite(Run(INIT, steps).state)
  {
    RunDoomed(INIT, steps);
  }

  // The lock and its count.

  ghost predicate HeldIffCounted(s: State) { s.held <==> s.count > 0 }

  /** The one step that breaks it: a grab without memory while the lock is held. */
  predicate DropsHeldLock(s: State, step: Step) { step == Grab(None) && s.count > 0 }

  lemma HeldIffCountedUnless(s: State, step: Step)
    requires HeldIffCounted(s) && Next(s, step).Ok?
    ensures HeldIffCounted(Next(s, step).state) <==> !DropsHeldLock(s, step)
  {}

  ghost predicate NeverDropsHeldLock(s: State, steps: seq<Step>)
    decreases |steps|
  {
    steps == [] || (!DropsHeldLock(s, steps[0])
                    && (Next(s, steps[0]).Ok? ==> NeverDropsHeldLock(Next(s, steps[0]).state, steps[1..])))
  }

  lemma {:induction false} RunHeldIffCounted(s: State, steps: seq<Step>)
    requires HeldIffCounted(s) && NeverDropsHeldLock(s, steps) && Run(s, steps).Ok?
    ensures HeldIffCounted(Run(s, steps).state)
    decreases |steps|
  {
    if steps != [] {
      HeldIffCountedUnless(s, steps[0]);
      RunHeldIffCounted(Next(s, steps[0]).state, steps[1..]);
    }
  }

  /** What each step does to the two. */
  lemma StepCounts(s: State, step: Step)
    requires Next(s, step).Ok?
    ensures var (s', dropped) := (Next(s, step).state, Drops(s, step));
            && (step.Grab? && step.pInfo.Some? ==> s'.count == s.count + 1 && s'.held)
            && (step == Grab(None) ==> s'.count == s.count && !s'.held)
            && (step == Release ==> s'.count == (if s.count > 1 then s.count - 1 else 0) && s'.held == (s.held && s.count > 1))
            && (dropped ==> s'.count == 0 && !s'.held)
            && (!dropped && !step.Grab? && step != Release ==> s'.count == s.count && s'.held == s.held)
  {}

  /** A timeout that is not cancelled drops the lock. */
  predicate Drops(s: State, step: Step) { step == FireRun && s.firing.Read? && !s.firing.param }

  ghost predicate NeverDrops(s: State, steps: seq<Step>)
    decreases |steps|
  {
    steps == [] || (!Drops(s, steps[0]) && (Next(s, steps[0]).Ok? ==> NeverDrops(Next(s, steps[0]).state, steps[1..])))
  }

  ghost function Grabs(steps: seq<Step>): nat {
    if steps == [] then 0 else (if steps[0].Grab? && steps[0].pInfo.Some? then 1 else 0) + Grabs(steps[1..])
  }

  ghost function Releases(steps: seq<Step>): nat {
    if steps == [] then 0 else (if steps[0] == Release then 1 else 0) + Releases(steps[1..])
  }

  /** Nobody releases what has not been grabbed. */
  ghost predicate Balanced(count: nat, steps: seq<Step>) {
    forall k :: 0 <= k <= |steps| ==> Releases(steps[..k]) <= count + Grabs(steps[..k])
  }

  lemma BalancedTail(count: nat, steps: seq<Step>, count': nat)
    requires Balanced(count, steps) && steps != []
    requires count' == count + Grabs([steps[0]]) - Releases([steps[0]])
    ensures Balanced(count', steps[1..])
  {
    forall k | 0 <= k <= |steps[1..]| ensures Releases(steps[1..][..k]) <= count' + Grabs(steps[1..][..k]) {
      assert steps[..k + 1][1..] == steps[1..][..k];
    }
  }

  /** While no timeout drops the lock the count is what the grabs and releases make it,
      whatever else goes on in between. */
  lemma {:induction false} CountIsBalance(s: State, steps: seq<Step>)
    requires Run(s, steps).Ok? && NeverDrops(s, steps) && Balanced(s.count, steps)
    ensures Run(s, steps).state.count == s.count + Grabs(steps) - Releases(steps)
    decreases |steps|
  {
    if steps != [] {
      var s' := Next(s, steps[0]).state;
      assert steps[..1] == [steps[0]];
      assert Releases(steps[..1]) <= s.count + Grabs(steps[..1]);
      StepCounts(s, steps[0]);
      BalancedTail(s.count, steps, s'.count);
      CountIsBalance(s', steps[1..]);
    }
  }

  /** So over such a run the lock is held if and only if there were more grabs than
      releases. */
  lemma HeldIffMoreGrabs(steps: seq<Step>)
    requires Run(INIT, steps).Ok? && NeverDrops(INIT, steps) && NeverDropsHeldLock(INIT, steps) && Balanced(0, steps)
    ensures Run(INIT, steps).state.count == Grabs(steps) - Releases(steps)
    ensures Run(INIT, steps).state.held <==> Grabs(steps) > Releases(steps)
  {
    CountIsBalance(INIT, steps);
    RunHeldIffCounted(INIT, steps);
  }

  // The timeout that guards a held lock.

  /** Timeouts that have not run yet and are not cancelled. */
  ghost function Armed(s: State): set<nat> {
    set x | x in s.infos && !s.infos[x].cancelled && !HasRun(s, x)
  }

  /** The older timeout that is still known: in s_last_wake_timeout_info, or loaded from
      it and about to be cancelled. */
  function Known(s: State): Option<nat> {
    if s.holder.Writing? then s.holder.target else if s.holder.Assigning? then None else s.last
  }

  /** Only the known timeout and that of a grab under way may be armed; while the lock is
      held the newest of them is. */
  ghost predicate Guarded(s: State) {
    && (forall x <- Armed(s) :: Known(s) == Some(x) || Made(s.holder) == Some(x))
    && (s.held && s.holder.Nobody? ==> s.last.Some? && s.last.value in Armed(s))
    && (!s.holder.Nobody? ==> (s.held <==> Made(s.holder).Some?))
  }

  /** The one step that breaks it: between the comparison and the assignment of
      userTimerCallback, which no mutex covers, another grab has put its timeout in,
      and nobody has loaded it since. */
  predicate ForgetsAGrab(s: State, step: Step) {
    && step == TailClear && s.firing.Clear? && !s.holder.Writing? && !s.holder.Assigning?
    && s.last.Some? && s.last.value != s.firing.info
    && s.last.value in s.infos && !s.infos[s.last.value].cancelled
  }

  lemma GuardedUnless(s: State, step: Step)
    requires Guarded(s) && Sound(s) && Next(s, step).Ok?
    ensures Guarded(Next(s, step).state) <==> !ForgetsAGrab(s, step)
  {
    var s' := Next(s, step).state;
    if ForgetsAGrab(s, step) {
      assert s.last.value in Armed(s');
    } else {
      ArmedStep(s, step);
    }
  }

  lemma ArmedStep(s: State, step: Step)
    requires Guarded(s) && Sound(s) && Next(s, step).Ok? && !ForgetsAGrab(s, step)
    ensures Guarded(Next(s, step).state)
  {
    var s' := Next(s, step).state;
    forall x | x in Armed(s') ensures x in Armed(s) || step == Grab(Some(x)) {}
    if s'.held && s'.holder.Nobody? {
      if step.Assign? {
        assert s.holder.info in Armed(s');
      } else {
        assert s.last.value in Armed(s);
        assert s.last.value in Armed(s');
      }
    }
  }

  ghost predicate NeverForgetsAGrab(s: State, steps: seq<Step>)
    decreases |steps|
  {
    steps == [] || (!ForgetsAGrab(s, steps[0])
                    && (Next(s, steps[0]).Ok? ==> NeverForgetsAGrab(Next(s, steps[0]).state, steps[1..])))
  }

  lemma {:induction false} RunGuarded(s: State, steps: seq<Step>)
    requires Guarded(s) && Sound(s) && NeverForgetsAGrab(s, steps) && Run(s, steps).Ok?
    ensures Guarded(Run(s, steps).state) && Sound(Run(s, steps).state)
    decreases |steps|
  {
    if steps != [] {
      GuardedUnless(s, steps[0]);
      NextSound(s, steps[0]);
      RunGuarded(Next(s, steps[0]).state, steps[1..]);
    }
  }

  /** Over every run in which no grab is forgotten: while the lock is held, and nobody is
      in the middle of a grab or release, exactly one timeout is armed, and it is the
      latest grab's. */
  lemma HeldLockIsGuarded(steps: seq<Step>)
    requires NeverForgetsAGrab(INIT, steps) && Run(INIT, steps).Ok?
    ensures var s := Run(INIT, steps).state;
            s.held && s.holder.Nobody? ==> s.latest.Some? && Armed(s) == {s.latest.value}
  {
    RunGuarded(INIT, steps);
    var s := Run(INIT, steps).state;
    if s.held && s.holder.Nobody? {
      assert forall x <- Armed(s) :: x == s.last.value;
    }
  }

  // Runs that go wrong.

  lemma {:induction false} RunSplits(s: State, a: seq<Step>, b: seq<Step>)
    ensures Run(s, a + b) == if Run(s, a).Ok? then Run(Run(s, a).state, b) else Run(s, a)
    decreases |a|
  {
    if a == [] {
      assert a + b == b;
    } else {
      assert (a + b)[1..] == a[1..] + b;
      if Next(s, a[0]).Ok? { RunSplits(Next(s, a[0]).state, a[1..], b); }
    }
  }

  /** One grab, and its timeout has just run. */
  const FIRED_STEPS := [Grab(Some(1)), Test, Assign, FireRead(1), FireRun]
  const FIRED := State(0, false, map[1 := Info(false)], Some(1), Nobody, Compare(1), Some(1))

  lemma FirstTimeoutFires()
    ensures Run(INIT, FIRED_STEPS) == Ok(FIRED)
  {
    var grabbed := State(1, true, map[1 := Info(false)], Some(1), Nobody, Idle, Some(1));
    assert Run(INIT, [Grab(Some(1)), Test, Assign]) == Ok(grabbed);
    assert Run(grabbed, [FireRead(1), FireRun]) == Ok(FIRED);
    RunSplits(INIT, [Grab(Some(1)), Test, Assign], [FireRead(1), FireRun]);
    assert FIRED_STEPS == [Grab(Some(1)), Test, Assign] + [FireRead(1), FireRun];
  }

  /** A second grab, or a release, begins and finds the pointer not null. */
  lemma SecondHolderTests(begin: Step) returns (s: State)
    requires begin == Grab(Some(2)) || begin == Release
    ensures Run(FIRED, [begin, Test]) == Ok(s)
    ensures ReadyToLoad(s)
  {
    var begun := Next(FIRED, begin).state;
    s := begun.(holder := Loading(begun.holder.grab));
    assert Next(begun, Test) == Ok(s);
    assert [begin, Test][1..] == [Test];
    assert Run(begun, [Test]) == Run(s, []);
  }

  predicate ReadyToLoad(s: State) { s.holder.Loading? && s.last == Some(1) && 1 in s.infos && s.firing == Compare(1) }

  /** The pointer is cleared between the test and the load: the write goes through null. */
  lemma WritesThroughNull(begin: Step)
    requires begin == Grab(Some(2)) || begin == Release
    ensures Run(INIT, FIRED_STEPS + [begin, Test] + [TailCompare, TailClear, Load, Write]).Fault?
  {
    var s := SecondHolderTests(begin);
    ClearedBeforeLoad(s);
    FirstTimeoutFires();
    RunSplits(INIT, FIRED_STEPS, [begin, Test]);
    RunSplits(INIT, FIRED_STEPS + [begin, Test], [TailCompare, TailClear, Load, Write]);
  }

  lemma ClearedBeforeLoad(s: State)
    requires ReadyToLoad(s)
    ensures Run(s, [TailCompare, TailClear, Load, Write]).Fault?
  {
    var cleared := s.(last := None, firing := Free(1));
    assert Run(s, [TailCompare, TailClear, Load, Write]) == Run(cleared, [Load, Write]);
    assert Next(cleared, Load) == Ok(cleared.(holder := Writing(s.holder.grab, None)));
  }

  /** The timeout is freed between the load and the write: the write goes to freed memory. */
  lemma WritesToFreedTimeout(begin: Step)
    requires begin == Grab(Some(2)) || begin == Release
    ensures Run(INIT, FIRED_STEPS + [begin, Test] + [Load, TailCompare, TailClear, TailFree, Write]).Fault?
  {
    var s := SecondHolderTests(begin);
    FreedBeforeWrite(s);
    FirstTimeoutFires();
    RunSplits(INIT, FIRED_STEPS, [begin, Test]);
    RunSplits(INIT, FIRED_STEPS + [begin, Test], [Load, TailCompare, TailClear, TailFree, Write]);
  }

  lemma FreedBeforeWrite(s: State)
    requires ReadyToLoad(s)
    ensures Run(s, [Load, TailCompare, TailClear, TailFree, Write]).Fault?
  {
    var loaded := s.(holder := Writing(s.holder.grab, Some(1)));
    var freed := loaded.(last := None, infos := s.infos - {1}, firing := Idle);
    assert Run(s, [Load, TailCompare, TailClear, TailFree, Write]) == Run(loaded, [TailCompare, TailClear, TailFree, Write]);
    assert Run(loaded, [TailCompare, TailClear, TailFree, Write]) == Run(loaded.(firing := Clear(1)), [TailClear, TailFree, Write]);
    assert Run(loaded.(firing := Clear(1)), [TailClear, TailFree, Write]) == Run(freed, [Write]);
  }

  const SECOND_GRAB := [TailCompare, Grab(Some(2)), Test, Load, Write, Assign]
  const THIRD_GRAB := [TailClear, TailFree, Grab(Some(3)), Test, Assign]

  /** A whole second grab fits between comparison and assignment, so the third does not
      cancel its timeout: two are armed. */
  lemma TwoTimeoutsArmed()
    ensures var r := Run(INIT, FIRED_STEPS + SECOND_GRAB + THIRD_GRAB);
            r.Ok? && r.state.held && r.state.holder.Nobody? && Armed(r.state) == {2, 3}
  {
    var mid := State(1, true, map[1 := Info(true), 2 := Info(false)], Some(2), Nobody, Clear(1), Some(2));
    var end := State(2, true, map[2 := Info(false), 3 := Info(false)], Some(3), Nobody, Idle, Some(3));
    SecondGrabRuns(mid);
    ThirdGrabRuns(mid, end);
    FirstTimeoutFires();
    RunSplits(INIT, FIRED_STEPS, SECOND_GRAB);
    RunSplits(INIT, FIRED_STEPS + SECOND_GRAB, THIRD_GRAB);
    assert Armed(end) == {2, 3};
  }

  lemma SecondGrabRuns(mid: State)
    requires mid == State(1, true, map[1 := Info(true), 2 := Info(false)], Some(2), Nobody, Clear(1), Some(2))
    ensures Run(FIRED, SECOND_GRAB) == Ok(mid)
  {
    var made := State(1, true, map[1 := Info(false), 2 := Info(false)], Some(1), Testing(Some(2)), Clear(1), Some(1));
    assert Run(FIRED, SECOND_GRAB) == Run(made, [Test, Load, Write, Assign]);
    var loaded := made.(holder := Writing(Some(2), Some(1)));
    assert Run(made, [Test, Load, Write, Assign]) == Run(loaded, [Write, Assign]);
    var written := loaded.(infos := map[1 := Info(true), 2 := Info(false)], holder := Assigning(2));
    assert Run(loaded, [Write, Assign]) == Run(written, [Assign]) by { assert Next(loaded, Write) == Ok(written); }
  }

  lemma ThirdGrabRuns(mid: State, end: State)
    requires mid == State(1, true, map[1 := Info(true), 2 := Info(false)], Some(2), Nobody, Clear(1), Some(2))
    requires end == State(2, true, map[2 := Info(false), 3 := Info(false)], Some(3), Nobody, Idle, Some(3))
    ensures Run(mid, THIRD_GRAB) == Ok(end)
  {
    var freed := State(1, true, map[2 := Info(false)], None, Nobody, Idle, Some(2));
    assert Run(mid, THIRD_GRAB) == Run(freed, [Grab(Some(3)), Test, Assign]);
    var made := State(2, true, map[2 := Info(false), 3 := Info(false)], None, Testing(Some(3)), Idle, Some(2));
    assert Next(freed, Grab(Some(3))) == Ok(made);
  }

  // The code of the steps.

  /** The steps of a whole grab, release or timeout that nobody gets in between. */
  function GrabSteps(s: State, pInfo: Option<nat>): seq<Step> {
    if pInfo.None? then [Grab(None)] else [Grab(pInfo), Test] + (if s.last.Some? then [Load, Write] else []) + [Assign]
  }

  function ReleaseSteps(s: State): seq<Step> {
    if s.count > 1 then [Release] else [Release, Test] + if s.last.Some? then [Load, Write] else []
  }

  function CallbackSteps(s: State, info: nat): seq<Step> {
    [FireRead(info), FireRun, TailCompare] + if s.last == Some(info) then [TailClear, TailFree] else [TailFree]
  }

  lemma GrabRuns(s: State, x: nat)
    requires Sound(s) && s.holder.Nobody? && x !in s.infos
    ensures var infos := s.infos[x := Info(false)];
            Run(s, GrabSteps(s, Some(x)))
            == Ok(s.(count := s.count + 1, held := true, last := Some(x), latest := Some(x),
                     infos := if s.last.Some? then infos[s.last.value := Info(true)] else infos))
  {
    var made := s.(count := s.count + 1, held := true, infos := s.infos[x := Info(false)], holder := Testing(Some(x)));
    var steps := GrabSteps(s, Some(x));
    assert Next(s, steps[0]) == Ok(made);
    CancelsAndGoesOn(made, steps[1..]);
  }

  /** A release counts down; that of the last grab lets go of the lock, and cancels the
      timeout. */
  lemma ReleaseRuns(s: State)
    requires Sound(s) && s.holder.Nobody?
    ensures Run(s, ReleaseSteps(s))
         == Ok(if s.count > 1 then s.(count := s.count - 1)
               else s.(count := 0, held := false,
                       infos := if s.last.Some? then s.infos[s.last.value := Info(true)] else s.infos))
  {
    if s.count > 1 {
      assert Run(s, [Release]) == Run(s.(count := s.count - 1), []);
      return;
    }
    var begun := s.(count := 0, held := false, holder := Testing(None));
    var steps := ReleaseSteps(s);
    assert Next(s, steps[0]) == Ok(begun);
    CancelsAndGoesOn(begun, steps[1..]);
  }

  /** From the test on. */
  lemma CancelsAndGoesOn(s: State, steps: seq<Step>)
    requires s.holder.Testing? && (s.last.Some? ==> s.last.value in s.infos)
    requires steps == [Test] + (if s.last.Some? then [Load, Write] else []) + (if s.holder.grab.Some? then [Assign] else [])
    ensures var infos := if s.last.Some? then s.infos[s.last.value := Info(true)] else s.infos;
            var grab := s.holder.grab;
            Run(s, steps) == Ok(s.(infos := infos, holder := Nobody, last := if grab.Some? then grab else s.last,
                                   latest := if grab.Some? then grab else s.latest))
  {
    if s.last.Some? {
      Cancels(s, steps);
    } else {
      var tested := s.(holder := After(s.holder.grab));
      assert Next(s, steps[0]) == Ok(tested);
      GoesOn(tested, s.holder.grab, steps[1..]);
    }
  }

  lemma Cancels(s: State, steps: seq<Step>)
    requires s.holder.Testing? && s.last.Some? && s.last.value in s.infos
    requires steps == [Test, Load, Write] + if s.holder.grab.Some? then [Assign] else []
    ensures var grab := s.holder.grab;
            Run(s, steps) == Ok(s.(infos := s.infos[s.last.value := Info(true)], holder := Nobody,
                                   last := if grab.Some? then grab else s.last,
                                   latest := if grab.Some? then grab else s.latest))
  {
    var grab := s.holder.grab;
    var loaded := s.(holder := Writing(grab, s.last));
    var written := s.(infos := s.infos[s.last.value := Info(true)], holder := After(grab));
    assert Run(s, steps) == Run(loaded, steps[2..]) by {
      assert Next(s, steps[0]) == Ok(s.(holder := Loading(grab)));
      assert steps[1..][1..] == steps[2..];
    }
    assert Run(loaded, steps[2..]) == Run(written, steps[3..]) by {
      assert steps[2..][0] == Write && steps[2..][1..] == steps[3..];
    }
    GoesOn(written, grab, steps[3..]);
  }

  lemma GoesOn(s: State, grab: Option<nat>, steps: seq<Step>)
    requires s.holder == After(grab) && steps == if grab.Some? then [Assign] else []
    ensures Run(s, steps) == Ok(s.(holder := Nobody, last := if grab.Some? then grab else s.last,
                                   latest := if grab.Some? then grab else s.latest))
  {
    if grab.Some? {
      assert Run(s, steps) == Run(Next(s, Assign).state, []);
    }
  }

  lemma CallbackRuns(s: State, x: nat)
    requires s.holder.Nobody? && s.firing.Idle? && x in s.infos
    ensures var cancelled := s.infos[x].cancelled;
            Run(s, CallbackSteps(s, x))
            == Ok(s.(count := if cancelled then s.count else 0, held := s.held && cancelled, infos := s.infos - {x},
                     last := if s.last == Some(x) then None else s.last))
  {
    var steps := CallbackSteps(s, x);
    var cancelled := s.infos[x].cancelled;
    var ran := s.(count := if cancelled then s.count else 0, held := s.held && cancelled, firing := Compare(x));
    assert Next(s.(firing := Read(x, cancelled)), FireRun) == Ok(ran);
    assert Run(s, steps) == Run(ran, steps[2..]) by {
      assert steps[1..][0] == FireRun && steps[1..][1..] == steps[2..];
    }
    assert steps[2..][0] == TailCompare;
    if s.last == Some(x) {
      assert steps[2..][1..] == [TailClear, TailFree];
      assert Next(ran, TailCompare) == Ok(ran.(firing := Clear(x)));
      assert Run(ran, steps[2..]) == Run(ran.(firing := Clear(x)), [TailClear, TailFree]);
      assert Next(ran.(firing := Clear(x)), TailClear) == Ok(ran.(firing := Free(x), last := None));
    } else {
      assert steps[2..][1..] == [TailFree];
      assert Next(ran, TailCompare) == Ok(ran.(firing := Free(x)));
      assert Run(ran, steps[2..]) == Run(ran.(firing := Free(x)), [TailFree]);
    }
  }

  lemma {:induction false} AfterGrabs(n: nat) returns (s: State, steps: seq<Step>)
    ensures Run(INIT, steps) == Ok(s) && Sound(s) && s.holder.Nobody? && s.firing.Idle?
    ensures s.count == n && (s.held <==> n > 0) && forall x <- s.infos :: x < n
  {
    if n == 0 {
      s, steps := INIT, [];
    } else {
      var before, first := AfterGrabs(n - 1);
      GrabRuns(before, n - 1);
      steps := first + GrabSteps(before, Some(n - 1));
      RunSplits(INIT, first, GrabSteps(before, Some(n - 1)));
      s := Run(before, GrabSteps(before, Some(n - 1))).state;
      RunSound(INIT, steps);
    }
  }

  /** Of `n` grabs and `m` releases that nobody gets in between, `n - m` are left, and the
      lock is held if and only if that is not zero. */
  lemma {:induction false} GrabsThenReleases(n: nat, m: nat) returns (s: State, steps: seq<Step>)
    requires m <= n
    ensures Run(INIT, steps) == Ok(s) && Sound(s) && s.holder.Nobody?
    ensures s.count == n - m && (s.held <==> m < n)
  {
    if m == 0 {
      s, steps := AfterGrabs(n);
    } else {
      var before, first := GrabsThenReleases(n, m - 1);
      ReleaseRuns(before);
      steps := first + ReleaseSteps(before);
      RunSplits(INIT, first, ReleaseSteps(before));
      s := Run(before, ReleaseSteps(before)).state;
      RunSound(INIT, steps);
    }
  }

  class RilWakeLock {
    var wakelockCount: nat
    var held: bool
    var infos: map<nat, Info>
    var lastWakeTimeoutInfo: Option<nat>
    var firing: Firing
    ghost var latest: Option<nat>

    /** With nobody inside a grab or release. */
    ghost function Current(): State
      reads this
    { State(wakelockCount, held, infos, lastWakeTimeoutInfo, Nobody, firing, latest) }

    constructor ()
      ensures Current() == INIT
    {
      wakelockCount, held, infos, lastWakeTimeoutInfo, firing, latest := 0, false, map[], None, Idle, None;
    }

    /** userParam = (void *)1 */
    method Cancel(info: nat)
      requires info in infos
      modifies this`infos
      ensures infos == old(infos)[info := Info(true)]
    { infos := infos[info := Info(true)]; }

    /** `pInfo` is what internalRequestTimedCallback returns. */
    method GrabPartialWakeLock(pInfo: Option<nat>)
      requires Sound(Current()) && (pInfo.Some? ==> pInfo.value !in infos)
      modifies this
      ensures Run(old(Current()), GrabSteps(old(Current()), pInfo)) == Ok(Current())
      ensures pInfo.None? ==> !held && wakelockCount == old(wakelockCount) && infos == old(infos)
                              && lastWakeTimeoutInfo == old(lastWakeTimeoutInfo)
      ensures pInfo.Some? ==> held && wakelockCount == old(wakelockCount) + 1 && lastWakeTimeoutInfo == pInfo
      ensures pInfo.Some? ==>
                infos == (if old(lastWakeTimeoutInfo).Some? then old(infos)[old(lastWakeTimeoutInfo).value := Info(true)]
                          else old(infos))[pInfo.value := Info(false)]
    {
      if pInfo.Some? { GrabRuns(Current(), pInfo.value); }
      held := true;
      if pInfo.None? {
        held := false;
      } else {
        infos := infos[pInfo.value := Info(false)];
        wakelockCount := wakelockCount + 1;
        if lastWakeTimeoutInfo.Some? {
          Cancel(lastWakeTimeoutInfo.value);
        }
        lastWakeTimeoutInfo, latest := pInfo, pInfo;
      }
    }

    method ReleaseWakeLock()
      requires Sound(Current())
      modifies this
      ensures Run(old(Current()), ReleaseSteps(old(Current()))) == Ok(Current())
      ensures wakelockCount == if old(wakelockCount) > 1 then old(wakelockCount) - 1 else 0
      ensures held == (old(held) && old(wakelockCount) > 1) && lastWakeTimeoutInfo == old(lastWakeTimeoutInfo)
      ensures infos == if old(wakelockCount) <= 1 && lastWakeTimeoutInfo.Some?
                       then old(infos)[lastWakeTimeoutInfo.value := Info(true)] else old(infos)
    {
      ReleaseRuns(Current());
      if wakelockCount > 1 {
        wakelockCount := wakelockCount - 1;
      } else {
        wakelockCount := 0;
        held := false;
        if lastWakeTimeoutInfo.Some? {
          Cancel(lastWakeTimeoutInfo.value);
        }
      }
    }

    /** The timeout runs unless it was cancelled, and is gone afterwards. */
    method UserTimerCallback(info: nat)
      requires firing.Idle? && info in infos
      modifies this
      ensures Run(old(Current()), CallbackSteps(old(Current()), info)) == Ok(Current())
      ensures held == (old(held) && old(infos)[info].cancelled) && infos == old(infos) - {info}
      ensures wakelockCount == if old(infos)[info].cancelled then old(wakelockCount) else 0
      ensures lastWakeTimeoutInfo == if old(lastWakeTimeoutInfo) == Some(info) then None else old(lastWakeTimeoutInfo)
    {
      CallbackRuns(Current(), info);
      WakeTimeoutCallback(infos[info].cancelled);
      if lastWakeTimeoutInfo.Some? && lastWakeTimeoutInfo.value == info {
        lastWakeTimeoutInfo := None;
      }
      infos := infos - {info};
    }

    method WakeTimeoutCallback(param: bool)
      modifies this`wakelockCount, this`held
      ensures if param then wakelockCount == old(wakelockCount) && held == old(held) else wakelockCount == 0 && !held
    {
      if !param {
        wakelockCount := 0;
        held := false;
      }
    }
  }
}
