/** libril/ril_service.cpp: how the callbacks of a dead client are dropped, for one
    SIM slot.  Threads share the slot's read-write lock; a step is one lock
    operation, or what one thread does while it holds the lock. */
module RilCallbacks {
  import opened Wrappers

  /** An interface a client handed in, and whether it can be cast to version 1.1. */
  datatype Callback = Callback(id: nat, is1_1: bool)

  datatype Callbacks = Callbacks(response: Option<Callback>, indication: Option<Callback>,
                                 response1_1: Option<Callback>, indication1_1: Option<Callback>)

  const NO_CALLBACKS := Callbacks(None, None, None, None)

  /** `counter` is mCounterRadio or mCounterOemHook; `cleared` is history: the
      counter values at which callbacks were dropped. */
  datatype Service = Service(callbacks: Callbacks, counter: nat, cleared: seq<nat>)

  datatype Kind = Radio | OemHook

  /** Where a thread is.  A caller holds the read lock, or, for one kind of unsolicited
      response, the write lock (`exclusive`).  `used` and `gen` are history: the
      callbacks the failed call was made on, and the counter at the time. */
  datatype Phase =
    | Calling(exclusive: bool)
    | Called(exclusive: bool, kind: Kind, gen: nat, used: Callbacks)   // the call has failed
    | Noted(exclusive: bool, kind: Kind, gen: nat, used: Callbacks, counter: nat)
    | Released(kind: Kind, gen: nat, used: Callbacks, counter: nat)
    | Writing(kind: Kind, gen: nat, used: Callbacks, counter: nat)  // holds the write lock
    | Written(kind: Kind, gen: nat)                            // holds it
    | Reacquiring(kind: Kind, gen: nat)
    | Setting                                                  // holds the write lock
    | Set                                                      // holds it

  datatype State = State(radio: Service, oemHook: Service, readers: set<nat>, writer: Option<nat>, threads: map<nat, Phase>)

  const INIT := State(Service(NO_CALLBACKS, 0, []), Service(NO_CALLBACKS, 0, []), {}, None, map[])

  datatype Step =
    | Lock(t: nat, exclusive: bool)
    | CallFails(t: nat, kind: Kind)
    | NoteCounter(t: nat)
    | Unlock(t: nat)
    | WrLock(t: nat)
    | CompareAndClear(t: nat)
    | WrUnlock(t: nat)
    | RdLockAgain(t: nat)
    | Leave(t: nat)
    | SetLock(t: nat)
    | SetFunctions(t: nat, kind: Kind, response: Option<Callback>, indication: Option<Callback>)
    | SetUnlock(t: nat)

  function Get(s: State, kind: Kind): Service { if kind.Radio? then s.radio else s.oemHook }

  function Put(s: State, kind: Kind, service: Service): State {
    if kind.Radio? then s.(radio := service) else s.(oemHook := service)
  }

  function At(s: State, t: nat, phase: Phase): State { s.(threads := s.threads[t := phase]) }

  /** castFrom(...).withDefault(nullptr) */
  function Cast(c: Option<Callback>): Option<Callback> { if c.Some? && c.value.is1_1 then c else None }

  /** What setResponseFunctions installs: the 1.1 pair only if both casts succeed. */
  function Installed(kind: Kind, response: Option<Callback>, indication: Option<Callback>): Callbacks {
    if kind.Radio? && Cast(response).Some? && Cast(indication).Some?
    then Callbacks(response, indication, Cast(response), Cast(indication))
    else Callbacks(response, indication, None, None)
  }

  /** The write-locked part of checkReturnStatus. */
  function Clear(service: Service, counter: nat): Service {
    if counter == service.counter
    then Service(NO_CALLBACKS, service.counter + 1, service.cleared + [service.counter])
    else service
  }

  function TakeRead(s: State, t: nat): Option<State> {
    if s.writer.Some? then None else Some(s.(readers := s.readers + {t}))
  }

  function TakeWrite(s: State, t: nat): Option<State> {
    if s.writer.Some? || s.readers != {} then None else Some(s.(writer := Some(t)))
  }

  /** pthread_rwlock_unlock, whichever way the thread holds the lock. */
  function Release(s: State, t: nat, exclusive: bool): State {
    if exclusive then s.(writer := None) else s.(readers := s.readers - {t})
  }

  /** None when the thread is not where the step starts, or has to wait for the lock. */
  function Next(s: State, step: Step): Option<State> {
    var t := step.t;
    if step.Lock? || step.SetLock? then
      if t in s.threads then None
      else
        var got := if step.Lock? && !step.exclusive then TakeRead(s, t) else TakeWrite(s, t);
        if got.None? then None
        else Some(At(got.value, t, if step.Lock? then Calling(step.exclusive) else Setting))
    else if t !in s.threads then None
    else
      match (step, s.threads[t])
      case (CallFails(_, kind), Calling(exclusive)) =>
        var service := Get(s, kind);
        if service.callbacks.response.None? && service.callbacks.indication.None? then None
        else Some(At(s, t, Called(exclusive, kind, service.counter, service.callbacks)))
      case (NoteCounter(_), Called(exclusive, kind, gen, used)) =>
        Some(At(s, t, Noted(exclusive, kind, gen, used, Get(s, kind).counter)))
      case (Unlock(_), Noted(exclusive, kind, gen, used, counter)) =>
        Some(At(Release(s, t, exclusive), t, Released(kind, gen, used, counter)))
      case (WrLock(_), Released(kind, gen, used, counter)) =>
        if TakeWrite(s, t).None? then None else Some(At(TakeWrite(s, t).value, t, Writing(kind, gen, used, counter)))
      case (CompareAndClear(_), Writing(kind, gen, used, counter)) =>
        Some(At(Put(s, kind, Clear(Get(s, kind), counter)), t, Written(kind, gen)))
      case (WrUnlock(_), Written(kind, gen)) => Some(At(s.(writer := None), t, Reacquiring(kind, gen)))
      case (RdLockAgain(_), Reacquiring(_, _)) =>
        if TakeRead(s, t).None? then None else Some(At(TakeRead(s, t).value, t, Calling(false)))
      case (Leave(_), Calling(exclusive)) => Some(Release(s, t, exclusive).(threads := s.threads - {t}))
      case (SetFunctions(_, kind, response, indication), Setting) =>
        var service := Get(s, kind);
        Some(At(Put(s, kind, service.(callbacks := Installed(kind, response, indication), counter := service.counter + 1)), t, Set))
      case (SetUnlock(_), Set) => Some(s.(writer := None, threads := s.threads - {t}))
      case _ => None
  }

  function Run(s: State, steps: seq<Step>): Option<State>
    decreases |steps|
  {
    if steps == [] then Some(s)
    else
      match Next(s, steps[0])
      case None => None
      case Some(s') => Run(s', steps[1..])
  }

  // The invariant.

  predicate IsCaller(p: Phase) { p.Calling? || p.Called? || p.Noted? }

  predicate HoldsRead(p: Phase) { IsCaller(p) && !p.exclusive }

  predicate HoldsWrite(p: Phase) { p.Writing? || p.Written? || p.Setting? || p.Set? || (IsCaller(p) && p.exclusive) }

  ghost predicate Locked(s: State) {
    && (s.writer.Some? ==> s.readers == {} && s.writer.value in s.threads && HoldsWrite(s.threads[s.writer.value]))
    && (forall t <- s.readers :: t in s.threads && HoldsRead(s.threads[t]))
    && (forall t <- s.threads :: HoldsRead(s.threads[t]) ==> t in s.readers)
    && (forall t <- s.threads :: HoldsWrite(s.threads[t]) ==> s.writer == Some(t))
  }

  /** What a thread knows of the service its call failed on. */
  ghost predicate Knows(p: Phase, service: Service) {
    match p
    case Called(_, _, gen, used) => gen == service.counter && used == service.callbacks
    case Noted(_, _, gen, used, counter) => counter == gen == service.counter && used == service.callbacks
    case Released(_, gen, used, counter) => counter == gen <= service.counter && (gen == service.counter ==> used == service.callbacks)
    case Writing(_, gen, used, counter) => counter == gen <= service.counter && (gen == service.counter ==> used == service.callbacks)
    case Written(_, gen) => gen < service.counter
    case Reacquiring(_, gen) => gen < service.counter
    case _ => true
  }

  predicate HasKind(p: Phase) { !p.Calling? && !p.Setting? && !p.Set? }

  ghost predicate Informed(s: State) {
    forall t <- s.threads :: HasKind(s.threads[t]) ==> Knows(s.threads[t], Get(s, s.threads[t].kind))
  }

  ghost predicate WellKept(service: Service) {
    && (forall i, j :: 0 <= i < j < |service.cleared| ==> service.cleared[i] < service.cleared[j])
    && (forall gen <- service.cleared :: gen < service.counter)
    && (service.callbacks.response1_1.Some? <==> service.callbacks.indication1_1.Some?)
    && (service.callbacks.response1_1.Some? ==>
          service.callbacks.response1_1 == service.callbacks.response
          && service.callbacks.indication1_1 == service.callbacks.indication)
  }

  ghost predicate Inv(s: State) { Locked(s) && Informed(s) && WellKept(s.radio) && WellKept(s.oemHook) }

  /** Steps of a thread that has the lock, and keeps or returns it. */
  predicate Holding(step: Step) {
    step.CallFails? || step.NoteCounter? || step.Unlock? || step.CompareAndClear? || step.WrUnlock?
    || step.Leave? || step.SetFunctions? || step.SetUnlock?
  }

  lemma HoldingLocked(s: State, step: Step)
    requires Locked(s) && Next(s, step).Some? && Holding(step)
    ensures Locked(Next(s, step).value)
  {}

  lemma TakingLocked(s: State, step: Step)
    requires Locked(s) && Next(s, step).Some? && !Holding(step)
    ensures Locked(Next(s, step).value)
  {}

  lemma NextLocked(s: State, step: Step)
    requires Locked(s) && Next(s, step).Some?
    ensures Locked(Next(s, step).value)
  {
    if Holding(step) { HoldingLocked(s, step); } else { TakingLocked(s, step); }
  }

  lemma NextInformed(s: State, step: Step)
    requires Locked(s) && Informed(s) && Next(s, step).Some?
    ensures Informed(Next(s, step).value)
  {}

  lemma NextWellKept(s: State, step: Step)
    requires WellKept(s.radio) && WellKept(s.oemHook) && Next(s, step).Some?
    ensures WellKept(Next(s, step).value.radio) && WellKept(Next(s, step).value.oemHook)
  {
    if step.CompareAndClear? {
      ClearKeeps(s.radio, s.threads[step.t].counter);
      ClearKeeps(s.oemHook, s.threads[step.t].counter);
    }
  }

  lemma ClearKeeps(service: Service, counter: nat)
    requires WellKept(service)
    ensures WellKept(Clear(service, counter))
  {
    assert forall i :: 0 <= i < |service.cleared| ==> service.cleared[i] in service.cleared;
  }

  lemma NextInv(s: State, step: Step)
    requires Inv(s) && Next(s, step).Some?
    ensures Inv(Next(s, step).value)
  {
    NextLocked(s, step);
    NextInformed(s, step);
    NextWellKept(s, step);
  }

  lemma {:induction false} RunInv(s: State, steps: seq<Step>)
    requires Inv(s) && Run(s, steps).Some?
    ensures Inv(Run(s, steps).value)
    decreases |steps|
  {
    if steps != [] {
      NextInv(s, steps[0]);
      RunInv(Next(s, steps[0]).value, steps[1..]);
    }
  }

  ghost predicate Reachable(s: State) {
    exists steps :: Run(INIT, steps) == Some(s)
  }

  lemma ReachableInv(s: State)
    requires Reachable(s)
    ensures Inv(s)
  {
    var steps :| Run(INIT, steps) == Some(s);
    RunInv(INIT, steps);
  }

  // What it gives.

  predicate NoneLeft(c: Callbacks) {
    c.response.None? && c.indication.None? && c.response1_1.None? && c.indication1_1.None?
  }

  predicate Is1_1(c: Option<Callback>) { c.Some? && c.value.is1_1 }

  /** A registration installs the very callbacks it is given, and for the radio, when both
      can be cast, as those of version 1.1 too; it makes a new generation of them, and
      leaves the other service alone. */
  lemma RegistersWhatItIsGiven(s: State, t: nat, kind: Kind, response: Option<Callback>, indication: Option<Callback>)
    requires t in s.threads && s.threads[t].Setting?
    ensures Next(s, SetFunctions(t, kind, response, indication)).Some?
    ensures var s' := Next(s, SetFunctions(t, kind, response, indication)).value;
            var (before, after) := (Get(s, kind), Get(s', kind));
            && after.callbacks.response == response && after.callbacks.indication == indication
            && (if kind.Radio? && Is1_1(response) && Is1_1(indication)
                then after.callbacks.response1_1 == response && after.callbacks.indication1_1 == indication
                else after.callbacks.response1_1.None? && after.callbacks.indication1_1.None?)
            && after.counter == before.counter + 1 && after.cleared == before.cleared
            && (kind.Radio? ==> s'.oemHook == s.oemHook) && (kind.OemHook? ==> s'.radio == s.radio)
            && s'.readers == s.readers && s'.writer == s.writer
  {}

  function Registration(t: nat, kind: Kind, response: Option<Callback>, indication: Option<Callback>): seq<Step> {
    [SetLock(t), SetFunctions(t, kind, response, indication), SetUnlock(t)]
  }

  function Failure(t: nat, kind: Kind): seq<Step> {
    [CallFails(t, kind), NoteCounter(t), Unlock(t), WrLock(t), CompareAndClear(t), WrUnlock(t), RdLockAgain(t)]
  }

  /** With nobody else about, a registration goes through, and gives the lock back. */
  lemma RegistrationGoesThrough(s: State, t: nat, kind: Kind, response: Option<Callback>, indication: Option<Callback>)
    requires t !in s.threads && s.readers == {} && s.writer.None?
    ensures var r := Run(s, Registration(t, kind, response, indication));
            && r.Some? && r.value.threads == s.threads && r.value.readers == {} && r.value.writer.None?
            && Get(r.value, kind).callbacks.response == response && Get(r.value, kind).callbacks.indication == indication
  {
    var steps := Registration(t, kind, response, indication);
    var locked := At(s.(writer := Some(t)), t, Setting);
    RegistersWhatItIsGiven(locked, t, kind, response, indication);
    var registered := Next(locked, steps[1]).value;
    FirstStep(s, steps, locked);
    FirstStep(locked, steps[1..], registered);
    assert registered.threads - {t} == s.threads;
    FirstStep(registered, steps[2..], registered.(writer := None, threads := s.threads));
  }

  lemma FirstStep(s: State, steps: seq<Step>, mid: State)
    requires steps != [] && Next(s, steps[0]) == Some(mid)
    ensures Run(s, steps) == Run(mid, steps[1..])
  {}

  /** A caller whose call has failed, nobody else holding the lock, gets to drop the
      callbacks, and ends up calling again, under the lock for reading. */
  lemma FailureGoesThrough(s: State, t: nat, kind: Kind)
    requires t in s.threads && s.threads[t].Calling? && s.threads[t].exclusive == s.writer.Some?
    requires if s.threads[t].exclusive then s.writer == Some(t) && s.readers == {} else s.readers == {t}
    requires Get(s, kind).callbacks.response.Some? || Get(s, kind).callbacks.indication.Some?
    ensures var r := Run(s, Failure(t, kind));
            && r.Some? && NoneLeft(Get(r.value, kind).callbacks) && Get(r.value, kind).counter == Get(s, kind).counter + 1
            && r.value.threads == s.threads[t := Calling(false)] && r.value.readers == {t} && r.value.writer.None?
  {
    var (gen, used) := (Get(s, kind).counter, Get(s, kind).callbacks);
    var writing := GetsToWrite(s, Failure(t, kind), t, s.threads[t].exclusive, kind, gen, used);
    ClearsAndComesBack(writing, Failure(t, kind)[4..], t, kind, gen, used);
  }

  lemma GetsToWrite(s: State, steps: seq<Step>, t: nat, x: bool, kind: Kind, gen: nat, used: Callbacks)
    returns (writing: State)
    requires steps == Failure(t, kind) && t in s.threads && s.threads[t] == Calling(x)
    requires if x then s.writer == Some(t) && s.readers == {} else s.readers == {t} && s.writer.None?
    requires gen == Get(s, kind).counter && used == Get(s, kind).callbacks && (used.response.Some? || used.indication.Some?)
    ensures Run(s, steps) == Run(writing, steps[4..])
    ensures writing == s.(readers := {}, writer := Some(t), threads := s.threads[t := Writing(kind, gen, used, gen)])
  {
    var noted := FindsFailure(s, steps, t, x, kind, gen, used);
    writing := LocksForWriting(noted, steps[2..], t, x, kind, gen, used);
    assert steps[2..][2..] == steps[4..];
  }

  lemma FindsFailure(s: State, steps: seq<Step>, t: nat, x: bool, kind: Kind, gen: nat, used: Callbacks)
    returns (noted: State)
    requires t in s.threads && s.threads[t] == Calling(x) && |steps| >= 2 && steps[0] == CallFails(t, kind) && steps[1] == NoteCounter(t)
    requires gen == Get(s, kind).counter && used == Get(s, kind).callbacks && (used.response.Some? || used.indication.Some?)
    ensures Run(s, steps) == Run(noted, steps[2..])
    ensures noted == s.(threads := s.threads[t := Noted(x, kind, gen, used, gen)])
  {
    var called := At(s, t, Called(x, kind, gen, used));
    noted := At(called, t, Noted(x, kind, gen, used, gen));
    FirstStep(s, steps, called);
    FirstStep(called, steps[1..], noted);
  }

  lemma LocksForWriting(s: State, steps: seq<Step>, t: nat, x: bool, kind: Kind, gen: nat, used: Callbacks)
    returns (writing: State)
    requires t in s.threads && s.threads[t] == Noted(x, kind, gen, used, gen)
    requires if x then s.writer == Some(t) && s.readers == {} else s.readers == {t} && s.writer.None?
    requires |steps| >= 2 && steps[0] == Unlock(t) && steps[1] == WrLock(t)
    ensures Run(s, steps) == Run(writing, steps[2..])
    ensures writing == s.(readers := {}, writer := Some(t), threads := s.threads[t := Writing(kind, gen, used, gen)])
  {
    var released := At(s.(readers := {}, writer := None), t, Released(kind, gen, used, gen));
    writing := At(released.(writer := Some(t)), t, Writing(kind, gen, used, gen));
    assert Release(s, t, x) == s.(readers := {}, writer := None);
    FirstStep(s, steps, released);
    FirstStep(released, steps[1..], writing);
  }

  lemma ClearsAndComesBack(s: State, steps: seq<Step>, t: nat, kind: Kind, gen: nat, used: Callbacks)
    requires t in s.threads && s.threads[t] == Writing(kind, gen, used, gen)
    requires s.writer == Some(t) && s.readers == {} && Get(s, kind).counter == gen
    requires steps == [CompareAndClear(t), WrUnlock(t), RdLockAgain(t)]
    ensures var r := Run(s, steps);
            && r.Some? && NoneLeft(Get(r.value, kind).callbacks) && Get(r.value, kind).counter == gen + 1
            && r.value.threads == s.threads[t := Calling(false)] && r.value.readers == {t} && r.value.writer.None?
  {
    var cleared := At(Put(s, kind, Clear(Get(s, kind), gen)), t, Written(kind, gen));
    var unlocked := At(cleared.(writer := None), t, Reacquiring(kind, gen));
    FirstStep(s, steps, cleared);
    FirstStep(cleared, steps[1..], unlocked);
    assert unlocked.readers == {} && {} + {t} == {t};
    assert TakeRead(unlocked, t) == Some(unlocked.(readers := {t}));
    FirstStep(unlocked, steps[2..], At(unlocked.(readers := {t}), t, Calling(false)));
  }

  /** The write-locked section drops exactly the callbacks the failed call was made on,
      or, when those have gone already, nothing; and it never touches the other
      service.  Either way the failed ones are gone after it. */
  lemma DropsOnlyWhatFailed(s: State, t: nat)
    requires Reachable(s) && t in s.threads && s.threads[t].Writing?
    ensures var p, step := s.threads[t], CompareAndClear(t);
            var (before, after) := (Get(s, p.kind), Get(Next(s, step).value, p.kind));
            && Next(s, step).Some?
            && (p.gen == before.counter ==> before.callbacks == p.used && NoneLeft(after.callbacks)
                                            && p.gen !in before.cleared && after.cleared == before.cleared + [p.gen])
            && (p.gen != before.counter ==> after == before)
            && p.gen < after.counter
            && (p.kind.Radio? ==> Next(s, step).value.oemHook == s.oemHook)
            && (p.kind.OemHook? ==> Next(s, step).value.radio == s.radio)
  {
    ReachableInv(s);
  }

  /** No generation is dropped twice, however many calls fail on it. */
  lemma EachGenerationDroppedOnce(s: State, kind: Kind)
    requires Reachable(s)
    ensures forall i, j :: 0 <= i < j < |Get(s, kind).cleared| ==> Get(s, kind).cleared[i] != Get(s, kind).cleared[j]
  {
    ReachableInv(s);
  }

  /** checkReturnStatus hands the read lock back, and by then the generation the call
      failed on is installed no longer. */
  lemma ReturnsHoldingTheReadLock(s: State, t: nat)
    requires Reachable(s) && t in s.threads && s.threads[t].Reacquiring? && Next(s, RdLockAgain(t)).Some?
    ensures var s' := Next(s, RdLockAgain(t)).value;
            t in s'.readers && s'.writer.None? && s.threads[t].gen < Get(s', s.threads[t].kind).counter
  {
    ReachableInv(s);
    NextLocked(s, RdLockAgain(t));
  }

  /** The version 1.1 callbacks come and go as a pair, and are the registered ones. */
  lemma VersionsGoTogether(s: State)
    requires Reachable(s)
    ensures s.radio.callbacks.response1_1.Some? <==> s.radio.callbacks.indication1_1.Some?
    ensures s.radio.callbacks.response1_1.Some? ==>
              s.radio.callbacks.response1_1 == s.radio.callbacks.response
              && s.radio.callbacks.indication1_1 == s.radio.callbacks.indication
  {
    ReachableInv(s);
  }

  /** The lock keeps a thread that clears or registers callbacks apart from every caller. */
  lemma WriterIsAlone(s: State, t: nat)
    requires Reachable(s) && t in s.threads && HoldsWrite(s.threads[t])
    ensures s.readers == {} && forall u <- s.threads :: u != t ==> !HoldsRead(s.threads[u]) && !HoldsWrite(s.threads[u])
  {
    ReachableInv(s);
  }

  /** No call that failed, and is not dealt with yet, was made on the callbacks that
      are installed. */
  ghost predicate NoneFailed(s: State, kind: Kind) {
    forall t <- s.threads :: HasKind(s.threads[t]) && s.threads[t].kind == kind ==> s.threads[t].gen != Get(s, kind).counter
  }

  /** A step that registers callbacks of a kind, or that finds a call on them failed. */
  predicate Concerns(step: Step, kind: Kind) { (step.SetFunctions? || step.CallFails?) && step.kind == kind }

  lemma NewCallbacksHaveNotFailed(s: State, step: Step)
    requires Inv(s) && step.SetFunctions? && Next(s, step).Some?
    ensures NoneFailed(Next(s, step).value, step.kind)
  {}

  lemma OtherStepsLeaveAlone(s: State, step: Step, kind: Kind)
    requires Inv(s) && NoneFailed(s, kind) && !Concerns(step, kind) && Next(s, step).Some?
    ensures NoneFailed(Next(s, step).value, kind) && Get(Next(s, step).value, kind) == Get(s, kind)
  {}

  /** Whatever calls had failed before, and however far the threads that made them have
      got, callbacks that have been registered stay until others are registered or a
      call on them fails. */
  lemma {:induction false} NewCallbacksStay(s: State, registers: Step, steps: seq<Step>)
    requires Inv(s) && registers.SetFunctions? && Run(s, [registers] + steps).Some?
    requires forall i :: 0 <= i < |steps| ==> !Concerns(steps[i], registers.kind)
    ensures Get(Run(s, [registers] + steps).value, registers.kind) == Get(Next(s, registers).value, registers.kind)
  {
    assert ([registers] + steps)[1..] == steps;
    NewCallbacksHaveNotFailed(s, registers);
    NextInv(s, registers);
    Stay(Next(s, registers).value, steps, registers.kind);
  }

  lemma {:induction false} Stay(s: State, steps: seq<Step>, kind: Kind)
    requires Inv(s) && NoneFailed(s, kind) && Run(s, steps).Some?
    requires forall i :: 0 <= i < |steps| ==> !Concerns(steps[i], kind)
    ensures Get(Run(s, steps).value, kind) == Get(s, kind)
    decreases |steps|
  {
    if steps != [] {
      OtherStepsLeaveAlone(s, steps[0], kind);
      NextInv(s, steps[0]);
      Stay(Next(s, steps[0]).value, steps[1..], kind);
    }
  }
}
