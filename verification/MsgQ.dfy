/** gps/utils/msg_q.c as a transition system: one step for each stretch of code
    that runs under the mutex, and one for each way a thread in
    pthread_cond_wait gets going again. */
module MsgQ {
  import opened LinkedList

  datatype MsgQErr = QSuccess | QFailureGeneral | QInvalidParameter | QUnavailableResource

  /** What became of an accepted message. */
  datatype Fate = Received(item: Item, thread: nat) | Flushed(item: Item)

  /** `list` is the linked list from head to tail.  A thread inside msg_q_rcv is
      either asleep in pthread_cond_wait, or has been woken and has not got the
      mutex back yet.  The last two fields are history. */
  datatype State = State(list: seq<Item>, unblocked: bool, asleep: set<nat>, woken: set<nat>,
                         accepted: seq<Item>, fates: seq<Fate>)

  const INIT := State([], false, {}, {}, [], [])

  datatype Step =
    | Snd(msg: Pointer, dealloc: bool, mallocOk: bool, signalled: nat)
    | Rcv(thread: nat)
    | Resume(thread: nat)
    | SpuriousWake(thread: nat)
    | Flush
    | Unblock

  /** Where the call made by a step has got to. */
  datatype Progress = Returned(err: MsgQErr) | Waiting

  datatype Outcome = Disabled | Ok(state: State, progress: Progress)

  function Next(s: State, step: Step): Outcome {
    match step
    case Snd(msg, dealloc, mallocOk, signalled) =>
      if msg == NULL then Ok(s, Returned(QInvalidParameter))
      else if s.unblocked then Ok(s, Returned(QUnavailableResource))
      else if s.asleep != {} && signalled !in s.asleep then Disabled
      else if mallocOk then Ok(Signal(Accept(s, Item(msg, dealloc)), signalled), Returned(QSuccess))
      else Ok(Signal(s, signalled), Returned(QFailureGeneral))
    case Rcv(t) =>
      if t in s.asleep + s.woken then Disabled
      else if s.unblocked then Ok(s, Returned(QUnavailableResource))
      else WaitOrTake(s, t)
    case Resume(t) =>
      if t !in s.woken then Disabled
      else WaitOrTake(s.(woken := s.woken - {t}), t)
    case SpuriousWake(t) =>
      if t !in s.asleep then Disabled else Ok(Signal(s, t), Waiting)
    case Flush => Ok(Flushing(s), Returned(QSuccess))
    case Unblock =>
      if s.unblocked then Ok(s, Returned(QUnavailableResource))
      else Ok(s.(unblocked := true, asleep := {}, woken := s.woken + s.asleep), Returned(QSuccess))
  }

  function Accept(s: State, item: Item): State {
    s.(list := [item] + s.list, accepted := s.accepted + [item])
  }

  /** pthread_cond_signal wakes one thread if any is asleep. */
  function Signal(s: State, t: nat): State {
    if t in s.asleep then s.(asleep := s.asleep - {t}, woken := s.woken + {t}) else s
  }

  /** The wait loop's test, and linked_list_remove once it lets the thread through. */
  function WaitOrTake(s: State, t: nat): Outcome {
    if s.list == [] && !s.unblocked then Ok(s.(asleep := s.asleep + {t}), Waiting)
    else if s.list == [] then Ok(s, Returned(QUnavailableResource))
    else Ok(Take(s, t), Returned(QSuccess))
  }

  function Take(s: State, t: nat): State
    requires s.list != []
  {
    s.(list := s.list[..|s.list| - 1], fates := s.fates + [Received(Last(s.list), t)])
  }

  function Flushing(s: State): State {
    s.(list := [], fates := s.fates + AllFlushed(s.list))
  }

  /** linked_list_flush goes from the head, but what it drops is no longer ordered
      by anything: the fates are recorded oldest first. */
  function AllFlushed(list: seq<Item>): (fates: seq<Fate>)
    ensures |fates| == |list|
    ensures forall i :: 0 <= i < |fates| ==> fates[i] == Flushed(list[|list| - 1 - i])
  {
    seq(|list|, i requires 0 <= i < |list| => Flushed(list[|list| - 1 - i]))
  }

  function Run(s: State, steps: seq<Step>): Outcome
    decreases |steps|
  {
    if steps == [] then Ok(s, Waiting)
    else
      match Next(s, steps[0])
      case Disabled => Disabled
      case Ok(s', _) => Run(s', steps[1..])
  }

  // What each call does.

  /** A send says what has become of the message: only with QSuccess has it been accepted,
      and put at the head of the list.  Once past the checks it wakes one sleeper. */
  lemma SndGives(s: State, msg: Pointer, dealloc: bool, mallocOk: bool, signalled: nat)
    requires s.asleep != {} ==> signalled in s.asleep
    ensures var r := Next(s, Snd(msg, dealloc, mallocOk, signalled));
            var err := if msg == NULL then QInvalidParameter else if s.unblocked then QUnavailableResource
                       else if !mallocOk then QFailureGeneral else QSuccess;
            var more := if err == QSuccess then [Item(msg, dealloc)] else [];
            && r.Ok? && r.progress == Returned(err)
            && r.state.list == more + s.list && r.state.accepted == s.accepted + more
            && r.state.fates == s.fates && r.state.unblocked == s.unblocked
            && (if s.asleep != {} && msg != NULL && !s.unblocked
                then r.state.asleep == s.asleep - {signalled} && r.state.woken == s.woken + {signalled}
                else r.state.asleep == s.asleep && r.state.woken == s.woken)
  {}

  /** What a receiver gets: the message at the tail, or, from an empty list, sleep, or
      after unblock nothing. */
  ghost predicate Receives(s: State, t: nat, s': State, progress: Progress) {
    && s'.accepted == s.accepted && s'.unblocked == s.unblocked && s'.woken == s.woken
    && (if s.list != [] then
          && progress == Returned(QSuccess) && s'.asleep == s.asleep
          && s.list == s'.list + [s.list[|s.list| - 1]]
          && s'.fates == s.fates + [Received(s.list[|s.list| - 1], t)]
        else
          && s'.list == [] && s'.fates == s.fates
          && (if s.unblocked then progress == Returned(QUnavailableResource) && s'.asleep == s.asleep
              else progress == Waiting && s'.asleep == s.asleep + {t}))
  }

  /** A fresh call is refused after unblock, even with messages in the list. */
  lemma RcvGives(s: State, t: nat)
    requires t !in s.asleep + s.woken
    ensures var r := Next(s, Rcv(t));
            r.Ok? && if s.unblocked then r.state == s && r.progress == Returned(QUnavailableResource)
                     else Receives(s, t, r.state, r.progress)
  {}

  /** A thread that comes back from its wait is not: it looks at the list again. */
  lemma ResumeGives(s: State, t: nat)
    requires t in s.woken
    ensures var r := Next(s, Resume(t));
            r.Ok? && Receives(s.(woken := s.woken - {t}), t, r.state, r.progress)
  {}

  /** Every message in the list is lost, the oldest first on record. */
  lemma FlushGives(s: State)
    ensures var r := Next(s, Flush);
            && r.Ok? && r.progress == Returned(QSuccess)
            && r.state == s.(list := [], fates := r.state.fates)
            && |r.state.fates| == |s.fates| + |s.list| && s.fates <= r.state.fates
            && forall i :: |s.fates| <= i < |r.state.fates| ==>
                 r.state.fates[i] == Flushed(s.list[|s.fates| + |s.list| - 1 - i])
  {}

  /** All sleepers are woken, once and for all. */
  lemma UnblockGives(s: State)
    ensures var r := Next(s, Unblock);
            && r.Ok?
            && (if s.unblocked then r.state == s && r.progress == Returned(QUnavailableResource)
                else r.progress == Returned(QSuccess)
                     && r.state == s.(unblocked := true, asleep := {}, woken := s.woken + s.asleep))
  {}

  /** A sleeper may wake up for no reason. */
  lemma SpuriousWakeGives(s: State, t: nat)
    ensures Next(s, SpuriousWake(t))
         == if t in s.asleep then Ok(s.(asleep := s.asleep - {t}, woken := s.woken + {t}), Waiting) else Disabled
  {}

  // The invariant.

  function Oldest(list: seq<Item>): (s: seq<Item>)
    ensures |s| == |list| && forall i :: 0 <= i < |s| ==> s[i] == list[|list| - 1 - i]
  {
    if list == [] then [] else Oldest(list[1..]) + [list[0]]
  }

  function Items(fates: seq<Fate>): (s: seq<Item>)
    ensures |s| == |fates| && forall i :: 0 <= i < |s| ==> s[i] == fates[i].item
  {
    seq(|fates|, i requires 0 <= i < |fates| => fates[i].item)
  }

  /** Every accepted message has met its fate or is in the list, in the order
      they were accepted. */
  ghost predicate InOrder(s: State) {
    s.accepted == Items(s.fates) + Oldest(s.list)
  }

  /** While a receiver sleeps, enough others are on their way for every message. */
  ghost predicate NoneStranded(s: State) {
    && s.asleep !! s.woken
    && (s.asleep != {} ==> |s.list| <= |s.woken|)
    && (s.unblocked ==> s.asleep == {})
  }

  ghost predicate Inv(s: State) { InOrder(s) && NoneStranded(s) }

  lemma AcceptInOrder(s: State, item: Item)
    requires InOrder(s)
    ensures InOrder(Accept(s, item))
  {}

  lemma FlushInOrder(s: State)
    requires InOrder(s)
    ensures InOrder(Flushing(s))
  {
    assert Items(Flushing(s).fates) == Items(s.fates) + Oldest(s.list);
  }

  lemma TakeInOrder(s: State, t: nat)
    requires InOrder(s) && s.list != []
    ensures InOrder(Take(s, t))
  {
    var (s', x) := (Take(s, t), Last(s.list));
    assert Items(s'.fates) == Items(s.fates) + [x];
    assert Oldest(s.list) == [x] + Oldest(s'.list);
  }

  lemma NextInOrder(s: State, step: Step)
    requires InOrder(s) && Next(s, step).Ok?
    ensures InOrder(Next(s, step).state)
  {
    match step
    case Snd(msg, dealloc, _, _) => AcceptInOrder(s, Item(msg, dealloc));
    case Flush => FlushInOrder(s);
    case Rcv(t) => if s.list != [] { TakeInOrder(s, t); }
    case Resume(t) => if s.list != [] { TakeInOrder(s, t); }
    case _ =>
  }

  lemma NextStrandsNone(s: State, step: Step)
    requires NoneStranded(s) && Next(s, step).Ok?
    ensures NoneStranded(Next(s, step).state)
  {
    match step
    case Snd(_, _, _, _) => SndStrandsNone(s, step);
    case SpuriousWake(t) => SignalWakesOne(s, t);
    case Resume(t) => ResumeStrandsNone(s, t);
    case Rcv(_) =>
    case Flush =>
    case Unblock =>
  }

  lemma SndStrandsNone(s: State, step: Step)
    requires NoneStranded(s) && step.Snd? && Next(s, step).Ok?
    ensures NoneStranded(Next(s, step).state)
  {
    if step.signalled in s.asleep { SignalWakesOne(s, step.signalled); }
  }

  lemma ResumeStrandsNone(s: State, t: nat)
    requires NoneStranded(s) && t in s.woken
    ensures NoneStranded(Next(s, Resume(t)).state)
  {
    assert |s.woken - {t}| == |s.woken| - 1;
  }

  lemma SignalWakesOne(s: State, t: nat)
    requires s.asleep !! s.woken && t in s.asleep
    ensures var s' := Signal(s, t); s'.asleep !! s'.woken && |s'.woken| == |s.woken| + 1
  {}

  lemma {:induction false} RunInv(s: State, steps: seq<Step>)
    requires Inv(s) && Run(s, steps).Ok?
    ensures Inv(Run(s, steps).state)
    decreases |steps|
  {
    if steps != [] {
      NextInOrder(s, steps[0]);
      NextStrandsNone(s, steps[0]);
      RunInv(Next(s, steps[0]).state, steps[1..]);
    }
  }

  ghost predicate Reachable(s: State) {
    exists steps :: Run(INIT, steps).Ok? && Run(INIT, steps).state == s
  }

  lemma ReachableInv(s: State)
    requires Reachable(s)
    ensures Inv(s)
  {
    var steps :| Run(INIT, steps).Ok? && Run(INIT, steps).state == s;
    RunInv(INIT, steps);
  }

  // What it gives.

  /** Messages leave the queue in the order they were accepted: the i-th to leave is
      the i-th accepted, each exactly once, and what has not left is in the list. */
  lemma FirstInFirstOut(s: State)
    requires Reachable(s)
    ensures Items(s.fates) <= s.accepted
    ensures |s.accepted| == |s.fates| + |s.list|
    ensures forall i :: 0 <= i < |s.fates| ==> s.fates[i].item == s.accepted[i]
    ensures forall i :: 0 <= i < |s.list| ==> s.list[i] == s.accepted[|s.accepted| - 1 - i]
  {
    ReachableInv(s);
    var (gone, left) := (Items(s.fates), Oldest(s.list));
    forall i | 0 <= i < |s.list| ensures s.list[i] == s.accepted[|s.accepted| - 1 - i] {
      assert left[|s.list| - 1 - i] == s.list[i];
    }
  }

  /** A flush is the only thing that loses a message. */
  lemma {:induction false} OnlyFlushLoses(s: State, steps: seq<Step>)
    requires Run(s, steps).Ok? && forall i :: 0 <= i < |steps| ==> steps[i] != Flush
    ensures s.fates <= Run(s, steps).state.fates
    ensures forall i :: |s.fates| <= i < |Run(s, steps).state.fates| ==> Run(s, steps).state.fates[i].Received?
    decreases |steps|
  {
    if steps != [] {
      OnlyFlushLoses(Next(s, steps[0]).state, steps[1..]);
    }
  }

  /** While a receiver sleeps, at least as many woken ones have still to run as there are
      messages in the list. */
  lemma NoReceiverSleepsThroughAMessage(s: State)
    requires Reachable(s)
    ensures s.asleep !! s.woken
    ensures s.asleep != {} ==> |s.list| <= |s.woken|
    ensures s.unblocked ==> s.asleep == {}
  {
    ReachableInv(s);
  }

  /** Once unblocked, always unblocked: nothing more is accepted, nobody goes to
      sleep, and no fresh call receives. */
  lemma {:induction false} NothingAfterUnblock(s: State, steps: seq<Step>)
    requires s.unblocked && s.asleep == {} && Run(s, steps).Ok?
    ensures Run(s, steps).state.unblocked && Run(s, steps).state.asleep == {}
    ensures Run(s, steps).state.accepted == s.accepted
    ensures Run(s, steps).state.woken <= s.woken
    ensures forall i :: |s.fates| <= i < |Run(s, steps).state.fates| ==>
              var f := Run(s, steps).state.fates[i]; f.Received? ==> f.thread in s.woken
    ensures s.fates <= Run(s, steps).state.fates
    decreases |steps|
  {
    if steps != [] {
      NothingAfterUnblock(Next(s, steps[0]).state, steps[1..]);
    }
  }

  /** Let the woken threads run, in any order, with nothing else going on: each
      comes back with the oldest message left, so the list drains by as many
      messages as there are threads, or to empty. */
  lemma {:induction false} WokenThreadsDrain(s: State, order: seq<nat>)
    requires Inv(s)
    requires (forall t <- order :: t in s.woken) && (forall i, j :: 0 <= i < j < |order| ==> order[i] != order[j])
    requires |order| == |s.woken|
    ensures Run(s, Resumes(order)).Ok?
    ensures var s' := Run(s, Resumes(order)).state;
            && s'.woken == {}
            && |s'.list| == (if |s.list| <= |s.woken| then 0 else |s.list| - |s.woken|)
            && (s.asleep != {} ==> s'.list == [])
    decreases |order|
  {
    if order != [] {
      var step := Resume(order[0]);
      var s' := Next(s, step).state;
      NextInOrder(s, step);
      NextStrandsNone(s, step);
      assert Resumes(order)[1..] == Resumes(order[1..]);
      WokenThreadsDrain(s', order[1..]);
    }
  }

  function Resumes(order: seq<nat>): (steps: seq<Step>)
    ensures |steps| == |order| && forall i :: 0 <= i < |steps| ==> steps[i] == Resume(order[i])
  {
    seq(|order|, i requires 0 <= i < |order| => Resume(order[i]))
  }
}
