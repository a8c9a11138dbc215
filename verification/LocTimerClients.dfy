/** Steps taken on client threads keep the invariant and never fault. */
module LocTimerClients {
  import opened Wrappers
  import opened HeapSpec
  import opened LocTimer
  import Timespec
  import opened LocTimerInvariant

  ghost predicate KeepsInv(outcome: Outcome) {
    outcome.Disabled? || (outcome.Ok? && Inv(outcome.state))
  }

  // ----- new clients -----

  lemma NewClientHolders(clients: Clients, delegates: Delegates, c: nat, l: nat, k: nat)
    requires c !in clients
    ensures Holders(clients[c := Client(l, None)], delegates, k) == Holders(clients, delegates, k) + if k == l then 1 else 0
  {
    assert ClientsOf(clients[c := Client(l, None)], k) == ClientsOf(clients, k) + if k == l then {c} else {};
  }

  lemma NewClientCounted(clients: Clients, delegates: Delegates, locks: map<nat, int>, c: nat, l: nat)
    requires Counted(clients, delegates, locks) && c !in clients && l !in locks
    ensures Counted(clients[c := Client(l, None)], delegates, locks[l := 1])
  {
    assert ClientsOf(clients, l) == {} && DelegatesOf(delegates, l) == {};
    var clients', locks' := clients[c := Client(l, None)], locks[l := 1];
    forall k | k in locks' ensures locks'[k] == Holders(clients', delegates, k) {
      NewClientHolders(clients, delegates, c, l, k);
    }
  }

  lemma NewClientLinked(clients: Clients, delegates: Delegates, m: MsgThread, c: nat, l: nat)
    requires Linked(clients, delegates) && ClientUsable(m, clients) && c !in clients
    ensures Linked(clients[c := Client(l, None)], delegates) && ClientUsable(m, clients[c := Client(l, None)])
  {}

  lemma NewClientInv(s: State, c: nat, l: nat)
    requires Inv(s) && c !in s.clients && l !in s.locks
    ensures Inv(CreateClient(s, c, l))
  {
    NewClientLinked(s.clients, s.delegates, s.msg, c, l);
    NewClientCounted(s.clients, s.delegates, s.locks, c, l);
  }

  // ----- start -----

  lemma StartLinked(clients: Clients, delegates: Delegates, c: nat, d: nat, timer: Delegate)
    requires Linked(clients, delegates) && c in clients && d !in delegates && clients[c].mTimer.None?
    requires timer.mClient == Some(c) && timer.mLock == clients[c].mLock
    requires timer.mContainer == Some(timer.wake) && timer.mFutureTime > 0
    ensures Linked(clients[c := clients[c].(mTimer := Some(d))], delegates[d := timer])
  {}

  lemma SetTimerHolders(clients: Clients, delegates: Delegates, c: nat, mTimer: Option<nat>, k: nat)
    requires c in clients
    ensures Holders(clients[c := clients[c].(mTimer := mTimer)], delegates, k) == Holders(clients, delegates, k)
  {
    assert ClientsOf(clients[c := clients[c].(mTimer := mTimer)], k) == ClientsOf(clients, k);
  }

  lemma NewDelegateHolders(clients: Clients, delegates: Delegates, d: nat, timer: Delegate, k: nat)
    requires d !in delegates
    ensures Holders(clients, delegates[d := timer], k) == Holders(clients, delegates, k) + if k == timer.mLock then 1 else 0
  {
    assert DelegatesOf(delegates[d := timer], k) == DelegatesOf(delegates, k) + if k == timer.mLock then {d} else {};
  }

  lemma StartCounted(clients: Clients, delegates: Delegates, locks: map<nat, int>, c: nat, d: nat, timer: Delegate)
    requires Counted(clients, delegates, locks) && c in clients && d !in delegates
    requires timer.mLock == clients[c].mLock
    ensures Counted(clients[c := clients[c].(mTimer := Some(d))], delegates[d := timer],
                    locks[timer.mLock := locks[timer.mLock] + 1])
  {
    var clients', delegates' := clients[c := clients[c].(mTimer := Some(d))], delegates[d := timer];
    var locks' := locks[timer.mLock := locks[timer.mLock] + 1];
    forall k | k in locks' ensures locks'[k] == Holders(clients', delegates', k) > 0 {
      SetTimerHolders(clients, delegates', c, Some(d), k);
      NewDelegateHolders(clients, delegates, d, timer, k);
    }
  }

  lemma StartQueue(queue: seq<Msg>, delegates: Delegates, beingRemoved: Option<nat>, d: nat, timer: Delegate)
    requires QueueSound(queue, delegates) && Awaited(queue, delegates, beingRemoved)
    requires d !in delegates && timer.mClient.Some?
    ensures QueueSound(queue + [MsgTimerPush(timer.wake, d)], delegates[d := timer])
    ensures Awaited(queue + [MsgTimerPush(timer.wake, d)], delegates[d := timer], beingRemoved)
  {}

  lemma StartHeap(heap: Tree, wake: bool, queue: seq<Msg>, delegates: Delegates, d: nat, timer: Delegate)
    requires HeapSound(heap, wake, queue, delegates) && d !in delegates
    ensures HeapSound(heap, wake, queue + [MsgTimerPush(timer.wake, d)], delegates[d := timer])
  {}

  lemma StartHeld(held: Option<nat>, queue: seq<Msg>, delegates: Delegates, sw: Tree, hw: Tree, d: nat, timer: Delegate)
    requires HeldLoose(held, queue, delegates, sw, hw) && d !in delegates
    ensures HeldLoose(held, queue + [MsgTimerPush(timer.wake, d)], delegates[d := timer], sw, hw)
  {}

  lemma StartHistory(starts: seq<StartRecord>, delegates: Delegates, m: MsgThread, d: nat, timer: Delegate, start: StartRecord)
    requires HistorySound(starts, delegates, m) && d !in delegates
    requires timer.mClient.Some? && timer.serial == |starts|
    requires start.stops == start.callbacks == 0 && AsAsked(timer, start)
    ensures HistorySound(starts + [start], delegates[d := timer], m)
  {
    var starts' := starts + [start];
    var delegates' := delegates[d := timer];
    forall i | 0 <= i < |starts'| ensures starts'[i].stops == 0 <==> Running(delegates', i) {
      if i == |starts| {
        assert delegates'[d].serial == i;
      } else if Running(delegates, i) {
        var e :| e in delegates && delegates[e].serial == i && delegates[e].mClient.Some?;
        assert delegates'[e].serial == i;
      }
    }
  }

  lemma StartInvClients(s: State, c: nat, d: nat, timer: Delegate, ms: nat)
    requires Inv(s) && c in s.clients && d !in s.delegates && s.clients[c].mTimer.None?
    requires timer == Delegate(Some(c), s.clients[c].mLock, timer.mFutureTime, Some(timer.wake), timer.wake, |s.starts|)
    requires timer.mFutureTime == Timespec.DeadlineNs(s.now, ms)
    ensures timer.mLock in s.locks
    ensures var s' := Started(s, c, d, timer, ms);
            Linked(s'.clients, s'.delegates) && Counted(s'.clients, s'.delegates, s'.locks)
  {
    StartLinked(s.clients, s.delegates, c, d, timer);
    StartCounted(s.clients, s.delegates, s.locks, c, d, timer);
  }

  lemma StartInvHistory(s: State, c: nat, d: nat, timer: Delegate, ms: nat)
    requires Inv(s) && c in s.clients && d !in s.delegates && timer.mLock in s.locks && timer.mClient.Some?
    requires timer.serial == |s.starts| && timer.mFutureTime == Timespec.DeadlineNs(s.now, ms)
    ensures var s' := Started(s, c, d, timer, ms); HistorySound(s'.starts, s'.delegates, s'.msg)
  {
    StartHistory(s.starts, s.delegates, s.msg, d, timer, StartRecord(0, false, 0, s.now, ms, timer.wake));
  }

  lemma StartInvQueue(s: State, c: nat, d: nat, timer: Delegate, ms: nat)
    requires Inv(s) && c in s.clients && d !in s.delegates && timer.mLock in s.locks && timer.mClient.Some?
    ensures var s' := Started(s, c, d, timer, ms);
            QueueSound(s'.queue, s'.delegates) && Awaited(s'.queue, s'.delegates, BeingRemoved(s'.msg))
            && HeldLoose(Held(s'.msg), s'.queue, s'.delegates, s'.containers.sw.heap, s'.containers.hw.heap)
  {
    StartQueue(s.queue, s.delegates, BeingRemoved(s.msg), d, timer);
    StartHeld(Held(s.msg), s.queue, s.delegates, s.containers.sw.heap, s.containers.hw.heap, d, timer);
  }

  lemma StartInvHeaps(s: State, c: nat, d: nat, timer: Delegate, ms: nat)
    requires Inv(s) && c in s.clients && d !in s.delegates && timer.mLock in s.locks
    ensures var s' := Started(s, c, d, timer, ms);
            HeapSound(s'.containers.sw.heap, false, s'.queue, s'.delegates)
            && HeapSound(s'.containers.hw.heap, true, s'.queue, s'.delegates)
            && NothingLost(false, s'.containers.sw, s'.poll.todo, s'.queue, s'.msg)
            && NothingLost(true, s'.containers.hw, s'.poll.todo, s'.queue, s'.msg)
  {
    StartHeap(s.containers.sw.heap, false, s.queue, s.delegates, d, timer);
    StartHeap(s.containers.hw.heap, true, s.queue, s.delegates, d, timer);
    NothingLostAppend(false, s.containers.sw, s.poll.todo, s.queue, s.msg, [MsgTimerPush(timer.wake, d)]);
    NothingLostAppend(true, s.containers.hw, s.poll.todo, s.queue, s.msg, [MsgTimerPush(timer.wake, d)]);
  }

  lemma StartedInv(s: State, c: nat, d: nat, timer: Delegate, ms: nat)
    requires Inv(s) && c in s.clients && d !in s.delegates && s.clients[c].mTimer.None?
    requires timer == Delegate(Some(c), s.clients[c].mLock, timer.mFutureTime, Some(timer.wake), timer.wake, |s.starts|)
    requires timer.mFutureTime == Timespec.DeadlineNs(s.now, ms)
    ensures timer.mLock in s.locks && Inv(Started(s, c, d, timer, ms))
  {
    StartInvClients(s, c, d, timer, ms);
    StartInvHistory(s, c, d, timer, ms);
    StartInvQueue(s, c, d, timer, ms);
    StartInvHeaps(s, c, d, timer, ms);
  }

  lemma StartInv(s: State, c: nat, d: nat, ms: nat, wake: bool)
    requires Inv(s) && c in s.clients && d !in s.delegates
    ensures KeepsInv(StartTimer(s, c, d, ms, wake))
  {
    if s.clients[c].mTimer.None? {
      StartedInv(s, c, d, NewDelegate(s, c, ms, wake), ms);
    }
  }

  // ----- stop -----

  lemma StopLinked(clients: Clients, delegates: Delegates, c: nat, d: nat)
    requires Linked(clients, delegates) && c in clients && clients[c].mTimer == Some(d)
    ensures Linked(clients[c := clients[c].(mTimer := None)], delegates[d := Detached(delegates[d])])
  {}

  lemma StopCounted(clients: Clients, delegates: Delegates, locks: map<nat, int>, c: nat, d: nat)
    requires Counted(clients, delegates, locks) && c in clients && d in delegates
    ensures Counted(clients[c := clients[c].(mTimer := None)], delegates[d := Detached(delegates[d])], locks)
  {
    var clients', delegates' := clients[c := clients[c].(mTimer := None)], delegates[d := Detached(delegates[d])];
    forall k | k in locks ensures locks[k] == Holders(clients', delegates', k) {
      SetTimerHolders(clients, delegates', c, None, k);
      assert DelegatesOf(delegates', k) == DelegatesOf(delegates, k);
    }
  }

  lemma StopQueue(queue: seq<Msg>, delegates: Delegates, beingRemoved: Option<nat>, d: nat)
    requires QueueSound(queue, delegates) && Awaited(queue, delegates, beingRemoved)
    requires d in delegates && delegates[d].mClient.Some?
    ensures QueueSound(queue + [MsgTimerRemove(delegates[d].wake, d)], delegates[d := Detached(delegates[d])])
    ensures Awaited(queue + [MsgTimerRemove(delegates[d].wake, d)], delegates[d := Detached(delegates[d])], beingRemoved)
  {}

  lemma StopHeap(heap: Tree, wake: bool, queue: seq<Msg>, delegates: Delegates, d: nat)
    requires HeapSound(heap, wake, queue, delegates) && d in delegates
    ensures HeapSound(heap, wake, queue + [MsgTimerRemove(delegates[d].wake, d)], delegates[d := Detached(delegates[d])])
  {}

  lemma StopHeld(held: Option<nat>, queue: seq<Msg>, delegates: Delegates, sw: Tree, hw: Tree, d: nat)
    requires HeldLoose(held, queue, delegates, sw, hw) && d in delegates
    ensures HeldLoose(held, queue + [MsgTimerRemove(delegates[d].wake, d)], delegates[d := Detached(delegates[d])], sw, hw)
  {}

  predicate Once(start: StartRecord, byExpiry: bool) { start.stops == 1 && start.byExpiry == byExpiry && start.callbacks == 0 }

  lemma StopHistory(starts: seq<StartRecord>, delegates: Delegates, m: MsgThread, d: nat, byExpiry: bool)
    requires HistorySound(starts, delegates, m) && d in delegates && delegates[d].mClient.Some?
    ensures HistorySound(Ended(starts, delegates[d].serial, byExpiry), delegates[d := Detached(delegates[d])], m)
    ensures Once(Ended(starts, delegates[d].serial, byExpiry)[delegates[d].serial], byExpiry)
  {
    var i := delegates[d].serial;
    var delegates' := delegates[d := Detached(delegates[d])];
    assert Running(delegates, i);
    forall k | 0 <= k < |starts| && k != i ensures Running(delegates, k) <==> Running(delegates', k) {
      if Running(delegates, k) {
        var e :| e in delegates && delegates[e].serial == k && delegates[e].mClient.Some?;
        assert delegates'[e] == delegates[e];
      }
    }
  }

  lemma StopInvClients(s: State, c: nat, d: nat, byExpiry: bool)
    requires Inv(s) && c in s.clients && s.clients[c].mTimer == Some(d)
    ensures s.clients[c].mLock in s.locks && d in s.delegates && s.delegates[d].mClient == Some(c)
    ensures s.delegates[d].mContainer == Some(s.delegates[d].wake)
    ensures var s' := Destroyed(s, c, d, byExpiry);
            Linked(s'.clients, s'.delegates) && Counted(s'.clients, s'.delegates, s'.locks)
            && HistorySound(s'.starts, s'.delegates, s'.msg)
            && s.delegates[d].serial < |s'.starts| && Once(s'.starts[s.delegates[d].serial], byExpiry)
  {
    StopLinked(s.clients, s.delegates, c, d);
    StopCounted(s.clients, s.delegates, s.locks, c, d);
    StopHistory(s.starts, s.delegates, s.msg, d, byExpiry);
  }

  lemma StopInvQueue(s: State, c: nat, d: nat, byExpiry: bool)
    requires Inv(s) && c in s.clients && d in s.delegates && s.delegates[d].mClient == Some(c)
    requires s.delegates[d].mContainer == Some(s.delegates[d].wake)
    ensures var s' := Destroyed(s, c, d, byExpiry);
            QueueSound(s'.queue, s'.delegates) && Awaited(s'.queue, s'.delegates, BeingRemoved(s'.msg))
            && HeldLoose(Held(s'.msg), s'.queue, s'.delegates, s'.containers.sw.heap, s'.containers.hw.heap)
  {
    StopQueue(s.queue, s.delegates, BeingRemoved(s.msg), d);
    StopHeld(Held(s.msg), s.queue, s.delegates, s.containers.sw.heap, s.containers.hw.heap, d);
  }

  lemma StopInvHeaps(s: State, c: nat, d: nat, byExpiry: bool)
    requires Inv(s) && c in s.clients && d in s.delegates
    requires s.delegates[d].mContainer == Some(s.delegates[d].wake)
    ensures var s' := Destroyed(s, c, d, byExpiry);
            HeapSound(s'.containers.sw.heap, false, s'.queue, s'.delegates)
            && HeapSound(s'.containers.hw.heap, true, s'.queue, s'.delegates)
            && NothingLost(false, s'.containers.sw, s'.poll.todo, s'.queue, s'.msg)
            && NothingLost(true, s'.containers.hw, s'.poll.todo, s'.queue, s'.msg)
  {
    var more := [MsgTimerRemove(s.delegates[d].wake, d)];
    StopHeap(s.containers.sw.heap, false, s.queue, s.delegates, d);
    StopHeap(s.containers.hw.heap, true, s.queue, s.delegates, d);
    NothingLostAppend(false, s.containers.sw, s.poll.todo, s.queue, s.msg, more);
    NothingLostAppend(true, s.containers.hw, s.poll.todo, s.queue, s.msg, more);
  }

  lemma StopInv(s: State, c: nat, byExpiry: bool)
    requires Inv(s) && c in s.clients
    ensures KeepsInv(StopTimer(s, c, byExpiry))
  {
    if s.clients[c].mTimer.Some? {
      var d := s.clients[c].mTimer.value;
      StopInvClients(s, c, d, byExpiry);
      StopInvQueue(s, c, d, byExpiry);
      StopInvHeaps(s, c, d, byExpiry);
      assert StopTimer(s, c, byExpiry) == Ok(Destroyed(s, c, d, byExpiry));
    }
  }

  // ----- dropping a lock -----

  /** As Counted, but one holder of `l` has gone without dropping it yet. */
  ghost predicate OneTooMany(clients: Clients, delegates: Delegates, locks: map<nat, int>, l: nat) {
    && l in locks
    && (forall c <- clients :: clients[c].mLock in locks)
    && (forall d <- delegates :: delegates[d].mLock in locks)
    && (forall k <- locks :: locks[k] == Holders(clients, delegates, k) + (if k == l then 1 else 0) > 0)
    && (forall c, c' :: c in clients && c' in clients && clients[c].mLock == clients[c'].mLock ==> c == c')
  }

  lemma DropCounted(clients: Clients, delegates: Delegates, locks: map<nat, int>, l: nat)
    requires OneTooMany(clients, delegates, locks, l)
    ensures Counted(clients, delegates, Dropped(locks, l))
  {
    if locks[l] == 1 {
      assert ClientsOf(clients, l) == {} && DelegatesOf(delegates, l) == {};
      NobodyHolds(clients, delegates, l);
    }
  }

  lemma NobodyHolds(clients: Clients, delegates: Delegates, l: nat)
    ensures ClientsOf(clients, l) == {} ==> forall c <- clients :: clients[c].mLock != l
    ensures DelegatesOf(delegates, l) == {} ==> forall d <- delegates :: delegates[d].mLock != l
  {
    forall c | c in clients && clients[c].mLock == l ensures c in ClientsOf(clients, l) {}
    forall d | d in delegates && delegates[d].mLock == l ensures d in DelegatesOf(delegates, l) {}
  }

  lemma HoldersWithout(clients: Clients, delegates: Delegates, c: nat, d: nat, k: nat)
    ensures c in clients ==>
      Holders(clients, delegates, k) == Holders(clients - {c}, delegates, k) + if clients[c].mLock == k then 1 else 0
    ensures d in delegates ==>
      Holders(clients, delegates, k) == Holders(clients, delegates - {d}, k) + if delegates[d].mLock == k then 1 else 0
  {
    assert ClientsOf(clients - {c}, k) == ClientsOf(clients, k) - {c};
    assert DelegatesOf(delegates - {d}, k) == DelegatesOf(delegates, k) - {d};
  }

  lemma ClientGone(clients: Clients, delegates: Delegates, locks: map<nat, int>, c: nat)
    requires Counted(clients, delegates, locks) && c in clients
    ensures OneTooMany(clients - {c}, delegates, locks, clients[c].mLock)
  {
    forall k | k in locks
      ensures locks[k] == Holders(clients - {c}, delegates, k) + (if k == clients[c].mLock then 1 else 0) > 0
    {
      HoldersWithout(clients, delegates, c, 0, k);
    }
  }

  lemma DelegateGone(clients: Clients, delegates: Delegates, locks: map<nat, int>, d: nat)
    requires Counted(clients, delegates, locks) && d in delegates
    ensures OneTooMany(clients, delegates - {d}, locks, delegates[d].mLock)
  {
    forall k | k in locks
      ensures locks[k] == Holders(clients, delegates - {d}, k) + (if k == delegates[d].mLock then 1 else 0) > 0
    {
      HoldersWithout(clients, delegates, 0, d, k);
    }
  }

  // ----- deleting a client -----

  lemma UnlinkClient(clients: Clients, delegates: Delegates, c: nat)
    requires Linked(clients, delegates) && c in clients && clients[c].mTimer.None?
    ensures Linked(clients - {c}, delegates)
  {}

  lemma RemoveClientInv(s: State, c: nat)
    requires Inv(s) && c in s.clients && s.clients[c].mTimer.None? && !UsedByExpiry(s.msg, c)
    ensures KeepsInv(DropLock(s.(clients := s.clients - {c}), s.clients[c].mLock))
  {
    UnlinkClient(s.clients, s.delegates, c);
    ClientGone(s.clients, s.delegates, s.locks, c);
    DropCounted(s.clients - {c}, s.delegates, s.locks, s.clients[c].mLock);
  }

  lemma DeleteClientInv(s: State, c: nat)
    requires Inv(s) && c in s.clients && !UsedByExpiry(s.msg, c)
    ensures KeepsInv(DestroyClient(s, c))
  {
    StopInv(s, c, false);
    var s' := StopTimer(s, c, false).state;
    RemoveClientInv(s', c);
  }
}
