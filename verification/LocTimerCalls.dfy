/** What a single call of the timer service does: the calls clients make, and those of
    the poll thread.  What the message thread does is in LocTimerContainer. */
module LocTimerCalls {
  import opened Wrappers
  import opened HeapSpec
  import opened LocTimer
  import opened LocTimerInvariant
  import opened LocTimerTheorems

  // ----- clients -----

  ghost predicate ThreadsUntouched(s: State, s': State) {
    s'.now == s.now && s'.containers == s.containers && s'.msg == s.msg && s'.poll == s.poll
  }

  lemma NewClientGives(s: State, c: nat, l: nat)
    requires c !in s.clients && l !in s.locks
    ensures Next(s, NewClient(c, l)).Ok?
    ensures var s' := Next(s, NewClient(c, l)).state;
            && s'.clients == s.clients[c := Client(l, None)] && s'.locks == s.locks[l := 1]
            && s'.delegates == s.delegates && s'.queue == s.queue && s'.starts == s.starts && ThreadsUntouched(s, s')
  {}

  /** What the calls of a client find. */
  lemma ClientFinds(s: State, c: nat)
    requires Reachable(s) && c in s.clients
    ensures s.clients[c].mLock in s.locks
    ensures s.clients[c].mTimer.Some? ==>
              && s.clients[c].mTimer.value in s.delegates
              && s.delegates[s.clients[c].mTimer.value].mContainer == Some(s.delegates[s.clients[c].mTimer.value].wake)
              && Runs(s.starts, s.delegates[s.clients[c].mTimer.value].serial)
  {
    ReachableInv(s);
    if s.clients[c].mTimer.Some? { assert Running(s.delegates, s.delegates[s.clients[c].mTimer.value].serial); }
  }

  predicate Runs(starts: seq<StartRecord>, i: nat) { i < |starts| && starts[i].stops == 0 && starts[i].callbacks == 0 }

  /** A start of a client that has no timer gives it one, due exactly the milliseconds
      asked for after now, in the container asked for, and queues its push there. */
  lemma StartGives(s: State, c: nat, d: nat, ms: nat, wake: bool)
    requires Reachable(s) && c in s.clients && d !in s.delegates && s.clients[c].mTimer.None?
    ensures Next(s, Start(c, d, ms, wake)).Ok? && s.clients[c].mLock in s.locks
    ensures var (s', l) := (Next(s, Start(c, d, ms, wake)).state, s.clients[c].mLock);
            && s'.clients == s.clients[c := Client(l, Some(d))]
            && s'.delegates == s.delegates[d := Delegate(Some(c), l, s.now + ms * 1_000_000, Some(wake), wake, |s.starts|)]
            && s'.locks == s.locks[l := s.locks[l] + 1]
            && s'.queue == s.queue + [MsgTimerPush(wake, d)]
            && s'.starts == s.starts + [StartRecord(0, false, 0, s.now, ms, wake)]
            && ThreadsUntouched(s, s')
  {
    ClientFinds(s, c);
  }

  /** With a timer running a start is refused. */
  lemma StartRefused(s: State, c: nat, d: nat, ms: nat, wake: bool)
    requires Reachable(s) && c in s.clients && d !in s.delegates && s.clients[c].mTimer.Some?
    ensures Next(s, Start(c, d, ms, wake)) == Ok(s)
  {
    ClientFinds(s, c);
  }

  /** A stop takes the timer from its client and from its container, and queues its
      removal from there; it ends that start and no other. */
  lemma StopGives(s: State, c: nat)
    requires Reachable(s) && c in s.clients && s.clients[c].mTimer.Some?
    ensures Next(s, Stop(c)).Ok? && s.clients[c].mTimer.value in s.delegates
    ensures var (s', d) := (Next(s, Stop(c)).state, s.clients[c].mTimer.value);
            var timer := s.delegates[d];
            && s'.clients == s.clients[c := Client(s.clients[c].mLock, None)]
            && s'.delegates == s.delegates[d := timer.(mClient := None, mContainer := None)]
            && s'.queue == s.queue + [MsgTimerRemove(timer.wake, d)]
            && s'.locks == s.locks && ThreadsUntouched(s, s')
            && StoppedOnce(s.starts, s'.starts, timer.serial)
  {
    ClientFinds(s, c);
    assert Next(s, Stop(c)) == Ok(Destroyed(s, c, s.clients[c].mTimer.value, false));
  }

  ghost predicate StoppedOnce(starts: seq<StartRecord>, starts': seq<StartRecord>, i: nat) {
    && i < |starts| == |starts'|
    && starts[i].stops == 0 && starts'[i].stops == 1 && !starts'[i].byExpiry && starts'[i].callbacks == starts[i].callbacks == 0
    && forall j :: 0 <= j < |starts| && j != i ==> starts'[j] == starts[j]
  }

  /** Without a timer there is nothing to stop. */
  lemma StopRefused(s: State, c: nat)
    requires Reachable(s) && c in s.clients && s.clients[c].mTimer.None?
    ensures Next(s, Stop(c)) == Ok(s)
  {
    ClientFinds(s, c);
  }

  /** A client that is deleted has its timer stopped, and lets go of the lock. */
  lemma DeleteGives(s: State, c: nat)
    requires Reachable(s) && c in s.clients && !UsedByExpiry(s.msg, c)
    ensures Next(s, Stop(c)).Ok? && Next(s, DeleteClient(c)).Ok? && s.clients[c].mLock in s.locks
    ensures var (stopped, s', l) := (Next(s, Stop(c)).state, Next(s, DeleteClient(c)).state, s.clients[c].mLock);
            && s' == stopped.(clients := stopped.clients - {c},
                              locks := if s.locks[l] == 1 then s.locks - {l} else s.locks[l := s.locks[l] - 1])
  {
    ClientFinds(s, c);
  }

  // ----- the clock and the poll thread -----

  lemma TimeGoesOn(s: State, t: int)
    ensures Next(s, Tick(t)) == if s.now <= t then Ok(s.(now := t)) else Disabled
  {}

  /** The poll thread wakes up for containers that are polled and whose time has come. */
  lemma WakesUp(s: State, ready: seq<bool>)
    requires s.poll.todo == [] && ready != []
    ensures (forall wake <- ready :: var box := s.containers.Get(wake);
                                     box.polled && box.armed.Some? && box.armed.value <= s.now)
            <==> Next(s, PollWake(ready)) == Ok(s.(poll := PollThread(ready, 0)))
    ensures Next(s, PollWake(ready)).Ok? || Next(s, PollWake(ready)).Disabled?
  {}

  /** For each of them it disarms the fd, takes it off the epoll set, and sends an expire,
      with other threads' steps possibly in between. */
  lemma PollSteps(s: State)
    requires s.poll.todo != []
    ensures Next(s, PollStep).Ok?
    ensures var (s', wake) := (Next(s, PollStep).state, s.poll.todo[0]);
            var (box, box') := (s.containers.Get(wake), s'.containers.Get(wake));
            && box'.heap == box.heap && s'.containers.Get(!wake) == s.containers.Get(!wake)
            && (s.poll.stage == 0 ==> box'.armed.None? && box'.polled == box.polled
                                      && s'.queue == s.queue && s'.poll == PollThread(s.poll.todo, 1))
            && (s.poll.stage == 1 ==> !box'.polled && box'.armed == box.armed
                                      && s'.queue == s.queue && s'.poll == PollThread(s.poll.todo, 2))
            && (s.poll.stage >= 2 ==> box' == box && s'.queue == s.queue + [MsgTimerExpire(wake)]
                                      && s'.poll == PollThread(s.poll.todo[1..], 0))
            && s' == s.(containers := s'.containers, queue := s'.queue, poll := s'.poll)
  {}

  // ----- what stays -----

  predicate SameRecord(i: nat, starts: seq<StartRecord>, starts': seq<StartRecord>) {
    && i < |starts| && i < |starts'|
    && starts'[i].time == starts[i].time && starts'[i].ms == starts[i].ms && starts'[i].wake == starts[i].wake
  }

  lemma RecordsStayInMessage(s: State, i: nat)
    requires i < |s.starts| && Continue(s).Ok?
    ensures SameRecord(i, s.starts, Continue(s).state.starts)
  {}

  /** What is on record about a start, once made, no step changes. */
  lemma RecordsStay(s: State, step: Step, i: nat)
    requires i < |s.starts| && Next(s, step).Ok?
    ensures SameRecord(i, s.starts, Next(s, step).state.starts)
  {
    if step.Proceed? { RecordsStayInMessage(s, i); }
  }
}
