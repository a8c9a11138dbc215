/** What every step of the timer service keeps.  Each part of the invariant
    speaks only of the parts of the state it depends on. */
module LocTimerInvariant {
  import opened Wrappers
  import opened HeapSpec
  import opened LocTimer

  type Clients = map<nat, Client>
  type Delegates = map<nat, Delegate>

  // ----- clients and delegates -----

  /** A client and its running delegate point at each other and share a lock; a
      delegate without client has also left its container. */
  ghost predicate Linked(clients: Clients, delegates: Delegates) {
    && (forall c <- clients :: clients[c].mTimer.Some? ==>
          && clients[c].mTimer.value in delegates
          && delegates[clients[c].mTimer.value].mClient == Some(c)
          && delegates[clients[c].mTimer.value].mLock == clients[c].mLock)
    && (forall d <- delegates :: delegates[d].mClient.Some? ==>
          && delegates[d].mClient.value in clients
          && clients[delegates[d].mClient.value].mTimer == Some(d))
    && (forall d <- delegates ::
          && delegates[d].mContainer == (if delegates[d].mClient.Some? then Some(delegates[d].wake) else None)
          && delegates[d].mFutureTime > 0)
  }

  // ----- locks -----

  ghost function ClientsOf(clients: Clients, l: nat): set<nat> {
    set c | c in clients && clients[c].mLock == l
  }

  ghost function DelegatesOf(delegates: Delegates, l: nat): set<nat> {
    set d | d in delegates && delegates[d].mLock == l
  }

  ghost function Holders(clients: Clients, delegates: Delegates, l: nat): nat {
    |ClientsOf(clients, l)| + |DelegatesOf(delegates, l)|
  }

  /** A lock lives as long as it has holders, and counts them; no two clients
      share one. */
  ghost predicate Counted(clients: Clients, delegates: Delegates, locks: map<nat, int>) {
    && (forall c <- clients :: clients[c].mLock in locks)
    && (forall d <- delegates :: delegates[d].mLock in locks)
    && (forall l <- locks :: locks[l] == Holders(clients, delegates, l) > 0)
    && (forall c, c' :: c in clients && c' in clients && clients[c].mLock == clients[c'].mLock ==> c == c')
  }

  // ----- messages -----

  /** The delegate whose remove message is being handled. */
  function BeingRemoved(m: MsgThread): Option<nat> {
    match m
    case AddPoll(_, _, del) => del
    case SetTime(_, _, del) => del
    case RemovePoll(_, del) => del
    case Disarm(_, del) => del
    case Delete(d) => Some(d)
    case _ => None
  }

  /** Every message names a live delegate of its own container, and no push or
      remove is queued twice; a delegate being removed was pushed before. */
  ghost predicate QueueSound(queue: seq<Msg>, delegates: Delegates) {
    && (forall m <- queue :: !m.MsgTimerExpire? ==>
          m.timer in delegates && delegates[m.timer].wake == m.wake)
    && (forall i, j :: 0 <= i < j < |queue| && queue[i] == queue[j] ==> queue[i].MsgTimerExpire?)
    && (forall i, j :: (0 <= i < j < |queue| && queue[i].MsgTimerRemove? && queue[j].MsgTimerPush?) ==>
          queue[i].timer != queue[j].timer)
  }

  /** A delegate has a remove message queued exactly when it has lost its client
      and is not the one being removed right now. */
  ghost predicate Awaited(queue: seq<Msg>, delegates: Delegates, beingRemoved: Option<nat>) {
    && (beingRemoved.Some? ==> beingRemoved.value in delegates && delegates[beingRemoved.value].mClient.None?)
    && (forall d <- delegates ::
          MsgTimerRemove(delegates[d].wake, d) in queue
          <==> delegates[d].mClient.None? && beingRemoved != Some(d))
  }

  // ----- heaps -----

  /** A heap holds each of its delegates once, under its deadline, and none whose
      push is still queued. */
  ghost predicate HeapSound(heap: Tree, wake: bool, queue: seq<Msg>, delegates: Delegates) {
    && IsHeap(heap)
    && (forall e <- Elems(heap) ::
          && Elems(heap)[e] == 1
          && e.id in delegates
          && delegates[e.id].wake == wake
          && delegates[e.id].mFutureTime == e.key
          && MsgTimerPush(wake, e.id) !in queue)
  }

  // ----- message thread -----

  function HeapOf(wake: bool, sw: Tree, hw: Tree): Tree { if wake then hw else sw }

  /** Alive, and out of its heap for good. */
  ghost predicate Loose(d: nat, queue: seq<Msg>, delegates: Delegates, sw: Tree, hw: Tree) {
    && d in delegates
    && LocRankable(d, delegates[d].mFutureTime) !in Elems(HeapOf(delegates[d].wake, sw, hw))
    && MsgTimerPush(delegates[d].wake, d) !in queue
  }

  /** The delegate the message thread holds outside the heap. */
  function Held(m: MsgThread): Option<nat> {
    if m.Popped? || m.Stopping? then Some(m.timer) else BeingRemoved(m)
  }

  ghost predicate HeldLoose(held: Option<nat>, queue: seq<Msg>, delegates: Delegates, sw: Tree, hw: Tree) {
    held.Some? ==> Loose(held.value, queue, delegates, sw, hw)
  }

  /** A client the expiry is about to use has not gone away. */
  ghost predicate ClientUsable(m: MsgThread, clients: Clients) {
    m.Stopping? || m.CallingBack? ==> m.client in clients
  }

  /** The time about to be written to the kernel is the soonest; the branch of
      updateSoonestTime for an emptied heap is never taken. */
  ghost predicate TimeIsSoonest(m: MsgThread, sw: Tree, hw: Tree) {
    && (m.AddPoll? || m.SetTime? ==>
          var heap := HeapOf(m.wake, sw, hw);
          heap.Node? && heap.data.key == m.time > 0)
    && !m.RemovePoll? && !m.Disarm?
  }

  // ----- expiries -----

  /** An expire of this container is on its way through the poll thread, the
      queue or the message thread. */
  ghost predicate ExpireInFlight(wake: bool, todo: seq<bool>, queue: seq<Msg>, m: MsgThread) {
    || wake in todo
    || MsgTimerExpire(wake) in queue
    || ((m.PopNext? || m.Popped? || m.Stopping? || m.CallingBack?) && m.wake == wake)
  }

  ghost predicate KernelReady(box: Container) {
    box.heap.Node? && box.polled && box.armed == Some(box.heap.data.key)
  }

  ghost predicate NothingLost(wake: bool, box: Container, todo: seq<bool>, queue: seq<Msg>, m: MsgThread) {
    && (box.heap.Node? ==>
          || ExpireInFlight(wake, todo, queue, m)
          || ((m.AddPoll? || m.SetTime?) && m.wake == wake)
          || KernelReady(box))
    && (m.SetTime? && m.wake == wake ==> box.polled || ExpireInFlight(wake, todo, queue, m))
  }

  // ----- history of starts -----

  ghost predicate Running(delegates: Delegates, i: nat) {
    exists d :: d in delegates && delegates[d].serial == i && delegates[d].mClient.Some?
  }

  /** The delegate has the deadline and the container its start asked for. */
  predicate AsAsked(timer: Delegate, start: StartRecord) { timer.mFutureTime == start.Due() && timer.wake == start.wake }

  /** The expiry has stopped it, and is about to call back. */
  predicate Uncalled(start: StartRecord) { start.stops == 1 && start.byExpiry && start.callbacks == 0 }

  ghost predicate HistorySound(starts: seq<StartRecord>, delegates: Delegates, m: MsgThread) {
    && (forall d <- delegates :: delegates[d].serial < |starts| && AsAsked(delegates[d], starts[delegates[d].serial]))
    && (forall d, d' :: d in delegates && d' in delegates && delegates[d].serial == delegates[d'].serial ==> d == d')
    && (forall i :: 0 <= i < |starts| ==>
          && starts[i].stops <= 1
          && starts[i].callbacks <= (if starts[i].byExpiry then starts[i].stops else 0)
          && (starts[i].stops == 0 <==> Running(delegates, i)))
    && (m.CallingBack? ==> m.serial < |starts| && Uncalled(starts[m.serial]))
  }

  ghost predicate Inv(s: State) {
    && s.now > 0
    && Linked(s.clients, s.delegates)
    && Counted(s.clients, s.delegates, s.locks)
    && QueueSound(s.queue, s.delegates)
    && Awaited(s.queue, s.delegates, BeingRemoved(s.msg))
    && HeapSound(s.containers.sw.heap, false, s.queue, s.delegates)
    && HeapSound(s.containers.hw.heap, true, s.queue, s.delegates)
    && HeldLoose(Held(s.msg), s.queue, s.delegates, s.containers.sw.heap, s.containers.hw.heap)
    && ClientUsable(s.msg, s.clients)
    && TimeIsSoonest(s.msg, s.containers.sw.heap, s.containers.hw.heap)
    && NothingLost(false, s.containers.sw, s.poll.todo, s.queue, s.msg)
    && NothingLost(true, s.containers.hw, s.poll.todo, s.queue, s.msg)
    && HistorySound(s.starts, s.delegates, s.msg)
  }

  /** Messages added at the end leave an expire on its way where it is. */
  lemma NothingLostAppend(wake: bool, box: Container, todo: seq<bool>, queue: seq<Msg>, m: MsgThread, more: seq<Msg>)
    requires NothingLost(wake, box, todo, queue, m)
    ensures NothingLost(wake, box, todo, queue + more, m)
  {}

  lemma InitInv(s: State)
    requires Init(s)
    ensures Inv(s)
  {}

  lemma TickInv(s: State, t: int)
    requires Inv(s) && s.now <= t
    ensures Inv(s.(now := t))
  {}
}
