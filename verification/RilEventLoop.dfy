/** libril/ril_event.cpp: one turn of the event loop. */
module RilEventLoop {
  import opened Timeval
  import opened RilEvent
  import opened RilEventLists
  import opened RilWatchTable
  import opened Wrappers

  /** The first `n` watched events whose descriptor is ready, in the order of their
      slots. */
  ghost function FirstReady(slots: seq<RilEvent?>, fds: seq<int>, rfds: set<int>, n: int): (ready: seq<RilEvent>)
    requires |slots| == |fds|
    ensures forall e <- ready :: e in slots
  {
    if slots == [] || n <= 0 then []
    else if slots[0] != null && fds[0] in rfds then [slots[0]] + FirstReady(slots[1..], fds[1..], rfds, n - 1)
    else FirstReady(slots[1..], fds[1..], rfds, n)
  }

  /** The table once these have been taken: those not persistent leave their slot. */
  ghost function AfterReady(slots: seq<RilEvent?>, fds: seq<int>, rfds: set<int>, n: int): (after: seq<RilEvent?>)
    requires |slots| == |fds|
    ensures |after| == |slots|
  {
    if slots == [] || n <= 0 then slots
    else if slots[0] != null && fds[0] in rfds
    then [if slots[0].persist then slots[0] else null] + AfterReady(slots[1..], fds[1..], rfds, n - 1)
    else [slots[0]] + AfterReady(slots[1..], fds[1..], rfds, n)
  }

  /** The slots of the events taken, when the first slot is number `from`. */
  ghost function ReadySlots(slots: seq<RilEvent?>, fds: seq<int>, rfds: set<int>, n: int, from: nat): (at: seq<nat>)
    requires |slots| == |fds|
    ensures forall k :: 0 <= k < |at| ==> from <= at[k] < from + |slots|
    ensures forall j, k :: 0 <= j < k < |at| ==> at[j] < at[k]
  {
    if slots == [] || n <= 0 then []
    else if slots[0] != null && fds[0] in rfds then [from] + ReadySlots(slots[1..], fds[1..], rfds, n - 1, from + 1)
    else ReadySlots(slots[1..], fds[1..], rfds, n, from + 1)
  }

  /** No descriptor being watched twice, a count no smaller than the number of
      ready descriptors leaves no ready slot out. */
  lemma {:induction false} NoReadySlotLeftOut(slots: seq<RilEvent?>, fds: seq<int>, rfds: set<int>, n: int, from: nat, i: nat)
    requires |slots| == |fds| && |rfds| <= n && i < |slots| && slots[i] != null && fds[i] in rfds
    requires forall j, k :: 0 <= j < k < |fds| && 0 <= fds[j] ==> fds[j] != fds[k]
    requires forall j :: 0 <= j < |fds| && slots[j] != null ==> 0 <= fds[j]
    ensures from + i in ReadySlots(slots, fds, rfds, n, from)
    decreases |slots|
  {
    if i > 0 {
      if slots[0] != null && fds[0] in rfds {
        var fewer := rfds - {fds[0]};
        NoReadySlotLeftOut(slots[1..], fds[1..], fewer, n - 1, from + 1, i - 1);
        SameReady(slots[1..], fds[1..], rfds, fewer, n - 1, from + 1);
      } else {
        NoReadySlotLeftOut(slots[1..], fds[1..], rfds, n, from + 1, i - 1);
      }
    }
  }

  /** There are no more than `n` of them. */
  lemma {:induction false} FirstReadyCount(slots: seq<RilEvent?>, fds: seq<int>, rfds: set<int>, n: int, from: nat)
    requires |slots| == |fds|
    ensures |ReadySlots(slots, fds, rfds, n, from)| == |FirstReady(slots, fds, rfds, n)|
    ensures |FirstReady(slots, fds, rfds, n)| <= if n < 0 then 0 else n
    decreases |slots|
  {
    if slots != [] && n > 0 {
      FirstReadyCount(slots[1..], fds[1..], rfds, if slots[0] != null && fds[0] in rfds then n - 1 else n, from + 1);
    }
  }

  /** The k-th event taken is the one in the k-th of those slots, and it is ready. */
  lemma {:induction false} FirstReadyInOrder(slots: seq<RilEvent?>, fds: seq<int>, rfds: set<int>, n: int, from: nat, k: nat)
    requires |slots| == |fds| && k < |ReadySlots(slots, fds, rfds, n, from)|
    requires k < |FirstReady(slots, fds, rfds, n)|
    ensures var i := ReadySlots(slots, fds, rfds, n, from)[k] - from;
            slots[i] == FirstReady(slots, fds, rfds, n)[k] && fds[i] in rfds
    decreases |slots|
  {
    if slots[0] != null && fds[0] in rfds {
      if k > 0 { FirstReadyInOrder(slots[1..], fds[1..], rfds, n - 1, from + 1, k - 1); }
    } else {
      FirstReadyInOrder(slots[1..], fds[1..], rfds, n, from + 1, k);
    }
  }

  /** Slots whose watched descriptor is ready, in order, and no more than `n` of them. */
  ghost predicate AreReady(slots: seq<RilEvent?>, fds: seq<int>, rfds: set<int>, n: int, at: seq<nat>)
    requires |slots| == |fds|
  {
    && (forall j, k :: 0 <= j < k < |at| ==> at[j] < at[k])
    && (forall k :: 0 <= k < |at| ==> at[k] < |slots| && slots[at[k]] != null && fds[at[k]] in rfds)
    && |at| <= (if n < 0 then 0 else n)
  }

  /** A ready slot that is not among them comes after all of them, and then there are `n`. */
  ghost predicate NoneSkipped(slots: seq<RilEvent?>, fds: seq<int>, rfds: set<int>, n: int, at: seq<nat>)
    requires |slots| == |fds|
  {
    forall i :: 0 <= i < |slots| && slots[i] != null && fds[i] in rfds && i !in at ==>
      n <= |at| && forall k :: 0 <= k < |at| ==> at[k] < i
  }

  /** The first `n` slots whose watched descriptor is ready. */
  ghost predicate AreFirstReady(slots: seq<RilEvent?>, fds: seq<int>, rfds: set<int>, n: int, at: seq<nat>)
    requires |slots| == |fds|
  { AreReady(slots, fds, rfds, n, at) && NoneSkipped(slots, fds, rfds, n, at) }

  /** Their events. */
  ghost predicate EventsOf(slots: seq<RilEvent?>, at: seq<nat>, events: seq<RilEvent>) {
    |events| == |at| && forall k :: 0 <= k < |at| ==> at[k] < |slots| && events[k] == slots[at[k]]
  }

  lemma {:induction false} SkipsNone(slots: seq<RilEvent?>, fds: seq<int>, rfds: set<int>, n: int, from: nat, i: nat)
    requires |slots| == |fds| && i < |slots| && slots[i] != null && fds[i] in rfds
    requires from + i !in ReadySlots(slots, fds, rfds, n, from)
    ensures var at := ReadySlots(slots, fds, rfds, n, from);
            n <= |at| && forall k :: 0 <= k < |at| ==> at[k] < from + i
    decreases |slots|
  {
    if n > 0 {
      if slots[0] != null && fds[0] in rfds {
        assert i > 0;
        assert ReadySlots(slots, fds, rfds, n, from) == [from] + ReadySlots(slots[1..], fds[1..], rfds, n - 1, from + 1);
        SkipsNone(slots[1..], fds[1..], rfds, n - 1, from + 1, i - 1);
      } else {
        SkipsNone(slots[1..], fds[1..], rfds, n, from + 1, i - 1);
      }
    }
  }

  lemma ReadySlotsAreReady(slots: seq<RilEvent?>, fds: seq<int>, rfds: set<int>, n: int)
    requires |slots| == |fds|
    ensures var at := ReadySlots(slots, fds, rfds, n, 0);
            AreReady(slots, fds, rfds, n, at) && EventsOf(slots, at, FirstReady(slots, fds, rfds, n))
  {
    var (at, events) := (ReadySlots(slots, fds, rfds, n, 0), FirstReady(slots, fds, rfds, n));
    FirstReadyCount(slots, fds, rfds, n, 0);
    forall k | 0 <= k < |at| ensures events[k] == slots[at[k]] && fds[at[k]] in rfds {
      FirstReadyInOrder(slots, fds, rfds, n, 0, k);
    }
  }

  lemma ReadySlotsAreFirst(slots: seq<RilEvent?>, fds: seq<int>, rfds: set<int>, n: int)
    requires |slots| == |fds|
    ensures var at := ReadySlots(slots, fds, rfds, n, 0);
            AreFirstReady(slots, fds, rfds, n, at) && EventsOf(slots, at, FirstReady(slots, fds, rfds, n))
  {
    ReadySlotsAreReady(slots, fds, rfds, n);
    var at := ReadySlots(slots, fds, rfds, n, 0);
    forall i | 0 <= i < |slots| && slots[i] != null && fds[i] in rfds && i !in at
      ensures n <= |at| && forall k :: 0 <= k < |at| ==> at[k] < i
    {
      SkipsNone(slots, fds, rfds, n, 0, i);
    }
  }

  /** The events taken leave their slots unless they are persistent; nothing else changes. */
  ghost predicate OnlyTheseLeft(slots: seq<RilEvent?>, after: seq<RilEvent?>, at: seq<nat>) {
    && |after| == |slots|
    && forall i :: 0 <= i < |slots| ==> after[i] == if slots[i] != null && i in at && !slots[i].persist then null else slots[i]
  }

  lemma {:induction false} AfterReadyAt(slots: seq<RilEvent?>, fds: seq<int>, rfds: set<int>, n: int, from: nat, i: nat)
    requires |slots| == |fds| && i < |slots|
    ensures AfterReady(slots, fds, rfds, n)[i]
            == if slots[i] != null && from + i in ReadySlots(slots, fds, rfds, n, from) && !slots[i].persist then null else slots[i]
    decreases |slots|
  {
    if n > 0 && i > 0 {
      AfterReadyAt(slots[1..], fds[1..], rfds, if slots[0] != null && fds[0] in rfds then n - 1 else n, from + 1, i - 1);
    }
  }

  lemma AfterReadyClears(slots: seq<RilEvent?>, fds: seq<int>, rfds: set<int>, n: int)
    requires |slots| == |fds|
    ensures OnlyTheseLeft(slots, AfterReady(slots, fds, rfds, n), ReadySlots(slots, fds, rfds, n, 0))
  {
    forall i | 0 <= i < |slots|
      ensures AfterReady(slots, fds, rfds, n)[i]
              == if slots[i] != null && i in ReadySlots(slots, fds, rfds, n, 0) && !slots[i].persist then null else slots[i]
    {
      AfterReadyAt(slots, fds, rfds, n, 0, i);
    }
  }

  lemma {:induction false} SameReady(slots: seq<RilEvent?>, fds: seq<int>, rfds: set<int>, rfds': set<int>, n: int, from: nat)
    requires |slots| == |fds|
    requires forall i :: 0 <= i < |fds| && slots[i] != null ==> (fds[i] in rfds <==> fds[i] in rfds')
    ensures ReadySlots(slots, fds, rfds, n, from) == ReadySlots(slots, fds, rfds', n, from)
    decreases |slots|
  {
    if slots != [] && n > 0 {
      SameReady(slots[1..], fds[1..], rfds, rfds', if slots[0] != null && fds[0] in rfds then n - 1 else n, from + 1);
    }
  }

  /** How far the walk over the slots has got: how many events may still be taken,
      the ones that were, and the table they leave. */
  datatype Walk = Walk(left: int, done: seq<RilEvent>, cur: seq<RilEvent?>)

  ghost function WalkStep(rfds: set<int>, fd: int, i: nat, w: Walk): Walk
    requires i < |w.cur|
  {
    if w.cur[i] != null && fd in rfds
    then Walk(w.left - 1, w.done + [w.cur[i]], w.cur[i := if w.cur[i].persist then w.cur[i] else null])
    else w
  }

  /** What is still to come is what the whole walk takes, less what it has taken. */
  ghost predicate DoneSoFar(slots: seq<RilEvent?>, fds: seq<int>, rfds: set<int>, n: int, i: nat, w: Walk) {
    && i <= |slots| == |fds|
    && w.done + FirstReady(slots[i..], fds[i..], rfds, w.left) == FirstReady(slots, fds, rfds, n)
  }

  /** The slots up to `i` are as the whole walk leaves them. */
  ghost predicate LeftSoFar(slots: seq<RilEvent?>, fds: seq<int>, rfds: set<int>, n: int, i: nat, w: Walk) {
    && i <= |slots| == |fds| == |w.cur|
    && w.cur[..i] + AfterReady(slots[i..], fds[i..], rfds, w.left) == AfterReady(slots, fds, rfds, n)
  }

  ghost predicate OnTheWay(slots: seq<RilEvent?>, fds: seq<int>, rfds: set<int>, n: int, i: nat, w: Walk) {
    && i <= |slots| == |w.cur| && w.cur[i..] == slots[i..]
    && DoneSoFar(slots, fds, rfds, n, i, w) && LeftSoFar(slots, fds, rfds, n, i, w)
  }

  lemma DoneOn(slots: seq<RilEvent?>, fds: seq<int>, rfds: set<int>, n: int, i: nat, w: Walk)
    requires i < |slots| == |w.cur| && 0 < w.left && w.cur[i] == slots[i] && DoneSoFar(slots, fds, rfds, n, i, w)
    ensures DoneSoFar(slots, fds, rfds, n, i + 1, WalkStep(rfds, fds[i], i, w))
  {
    assert slots[i..][1..] == slots[i + 1..] && fds[i..][1..] == fds[i + 1..];
    assert slots[i..][0] == slots[i] && fds[i..][0] == fds[i];
  }

  lemma AfterReadyHead(slots: seq<RilEvent?>, fds: seq<int>, rfds: set<int>, left: int, i: nat)
    requires i < |slots| == |fds| && 0 < left
    ensures AfterReady(slots[i..], fds[i..], rfds, left)
         == [if slots[i] != null && fds[i] in rfds && !slots[i].persist then null else slots[i]]
            + AfterReady(slots[i + 1..], fds[i + 1..], rfds, if slots[i] != null && fds[i] in rfds then left - 1 else left)
  {
    assert slots[i..][1..] == slots[i + 1..] && fds[i..][1..] == fds[i + 1..];
  }

  lemma LeftOn(slots: seq<RilEvent?>, fds: seq<int>, rfds: set<int>, n: int, i: nat, w: Walk)
    requires i < |slots| == |w.cur| && 0 < w.left && w.cur[i] == slots[i] && LeftSoFar(slots, fds, rfds, n, i, w)
    ensures LeftSoFar(slots, fds, rfds, n, i + 1, WalkStep(rfds, fds[i], i, w))
  {
    var w' := WalkStep(rfds, fds[i], i, w);
    var tail := AfterReady(slots[i + 1..], fds[i + 1..], rfds, w'.left);
    AfterReadyHead(slots, fds, rfds, w.left, i);
    OneSlotOn(w.cur, w'.cur, i, tail);
  }

  lemma OneSlotOn(cur: seq<RilEvent?>, cur': seq<RilEvent?>, i: nat, tail: seq<RilEvent?>)
    requires i < |cur| == |cur'| && cur'[..i] == cur[..i]
    ensures cur[..i] + ([cur'[i]] + tail) == cur'[..i + 1] + tail
  {}

  lemma StaysOnTheWay(slots: seq<RilEvent?>, fds: seq<int>, rfds: set<int>, n: int, i: nat, w: Walk)
    requires i < |slots| && 0 < w.left && OnTheWay(slots, fds, rfds, n, i, w)
    ensures OnTheWay(slots, fds, rfds, n, i + 1, WalkStep(rfds, fds[i], i, w))
  {
    assert w.cur[i] == w.cur[i..][0] == slots[i..][0];
    DoneOn(slots, fds, rfds, n, i, w);
    LeftOn(slots, fds, rfds, n, i, w);
    assert w.cur[i..][1..] == w.cur[i + 1..];
  }

  lemma EndOfTheWay(slots: seq<RilEvent?>, fds: seq<int>, rfds: set<int>, n: int, i: nat, w: Walk)
    requires (i == |slots| || w.left <= 0) && OnTheWay(slots, fds, rfds, n, i, w)
    ensures w.done == FirstReady(slots, fds, rfds, n) && w.cur == AfterReady(slots, fds, rfds, n)
  {
    assert w.cur == w.cur[..i] + w.cur[i..];
    assert AfterReady(slots[i..], fds[i..], rfds, w.left) == slots[i..];
  }

  /** What a callback may do to the event loop. */
  datatype Action =
    | NewTimer(tv: Timeval, now: Timeval)
    | NewWatch(fd: int, persist: bool)
    | Unwatch(ev: RilEvent)

  /** What has been done once the first `k` callbacks have been called as well. */
  ghost function DoneBy(before: seq<Action>, callbacks: seq<seq<Action>>, k: nat): seq<Action> {
    if k == 0 then before else DoneBy(before, callbacks, k - 1) + if k <= |callbacks| then callbacks[k - 1] else []
  }

  ghost predicate HasDone(acted: seq<Action>, before: seq<Action>, callbacks: seq<seq<Action>>, k: nat) {
    acted == DoneBy(before, callbacks, k)
  }

  lemma OneActionMore(before: seq<Action>, all: seq<Action>, k: nat)
    requires k < |all|
    ensures before + all[..k] + [all[k]] == before + all[..k + 1]
  {}

  class RilEventLoop {
    const lists: EventLists
    const watch: WatchTable
    /** What callbacks have done so far. */
    ghost var acted: seq<Action>

    /** The watched events from slot `i` on are in neither list. */
    ghost predicate FreeFrom(i: nat)
      reads watch`slots, lists
    { forall j :: i <= j < |watch.slots| && watch.slots[j] != null ==> lists.IsFree(watch.slots[j]) }

    /** What holds while callbacks are called, and whenever other threads get in. */
    ghost predicate Firing()
      reads lists, watch, lists.timerList, lists.pendingList, lists.timerNodes, lists.timers`timeout
      reads lists.pendingNodes, watch.watchTable, watch.slots`fd, watch.slots`index, watch.known`index
    {
      && lists.Valid() && watch.Valid() && watch.Indexed() && WatchedAreNoTimers()
      && lists.timerNodes <= watch.known && lists.pendingNodes <= watch.known
      && lists.timerList !in watch.known && lists.pendingList !in watch.known
    }

    /** No watched event is in the timer list. */
    ghost predicate WatchedAreNoTimers()
      reads watch`slots, lists`timerNodes
    { forall i :: 0 <= i < |watch.slots| && watch.slots[i] != null ==> watch.slots[i] !in lists.timerNodes }

    /** Between two turns of the loop nothing is pending besides. */
    ghost predicate Idle()
      reads lists, watch, lists.timerList, lists.pendingList, lists.timerNodes, lists.timers`timeout
      reads lists.pendingNodes, watch.watchTable, watch.slots`fd, watch.slots`index, watch.known`index
    { Firing() && lists.pending == [] && lists.pendingNodes == {} }

    /** ril_event_init */
    constructor ()
      ensures Idle() && lists.timers == [] && watch.readFds == {} && fresh(lists) && fresh(watch)
    {
      lists := new EventLists();
      watch := new WatchTable();
    }

    // What callbacks do during a turn, and other threads between turns: none of it
    // touches the pending list.

    method NewEvent(fd: int, persist: bool) returns (ev: RilEvent)
      requires Firing()
      modifies watch`known
      ensures Firing() && fresh(ev) && watch.known == old(watch.known) + {ev} && lists.IsFree(ev)
      ensures ev.fd == fd && ev.persist == persist && ev.index == -1
    {
      ev := watch.RilEventSet(fd, persist);
    }

    method AddTimer(ev: RilEvent, tv: Option<Timeval>, now: Timeval)
      requires Firing() && ev in watch.known && ev.index == -1 && lists.IsFree(ev)
      modifies lists`timers, lists`timerNodes, lists.timerList`next, lists.timerList`prev
      modifies ev`fd, ev`timeout, ev`next, ev`prev, lists.timerNodes`next, lists.timerNodes`prev
      ensures Firing() && watch.known == old(watch.known)
      ensures lists.timerNodes == old(lists.timerNodes) + if tv.Some? then {ev} else {}
      ensures tv.None? ==> lists.timers == old(lists.timers)
      ensures tv.Some? ==> var k := CountBefore(old(lists.timers), TimerAdd(now, tv.value));
                           lists.timers == old(lists.timers)[..k] + [ev] + old(lists.timers)[k..]
    {
      assert ev !in watch.slots;
      lists.RilTimerAdd(ev, tv, now);
    }

    method AddWatch(ev: RilEvent)
      requires Firing() && ev in watch.known && ev.index == -1 && ev !in lists.timerNodes
      requires 0 <= ev.fd && ev.fd !in watch.readFds
      modifies watch, watch.watchTable, ev`index
      ensures Firing() && watch.known == old(watch.known)
      ensures var i := FirstFree(old(watch.fds));
              watch.slots == if i < MAX_FD_EVENTS then old(watch.slots)[i := ev] else old(watch.slots)
    {
      watch.RilEventAdd(ev);
      assert lists.Valid();
      assert WatchedAreNoTimers();
    }

    method Delete(ev: RilEvent)
      requires Firing() && ev in watch.known
      modifies watch, watch.watchTable, ev`index
      ensures Firing() && watch.known == old(watch.known)
      ensures watch.slots == if old(ev.index) == -1 then old(watch.slots) else old(watch.slots)[old(ev.index) := null]
    {
      watch.RilEventDel(ev);
    }

    /** ril_event_set and ril_timer_add, as for a timed callback. */
    method StartTimer(tv: Timeval, now: Timeval) returns (ev: RilEvent)
      requires Firing()
      modifies watch`known, lists`timers, lists`timerNodes, lists.timerList`next, lists.timerList`prev
      modifies lists.timerNodes`next, lists.timerNodes`prev
      ensures Firing() && old(watch.known) <= watch.known && fresh(watch.known - old(watch.known))
      ensures fresh(lists.timerNodes - old(lists.timerNodes)) && fresh(ev)
      ensures var k := CountBefore(old(lists.timers), TimerAdd(now, tv));
              lists.timers == old(lists.timers)[..k] + [ev] + old(lists.timers)[k..]
    {
      ev := NewEvent(-1, false);
      ghost var known := watch.known;
      AddTimer(ev, Some(tv), now);
      assert watch.known == known;
    }

    /** ril_event_set and ril_event_add; a descriptor that is invalid or watched already is
        not watched again. */
    method StartWatch(fd: int, persist: bool) returns (ev: RilEvent?)
      requires Firing()
      modifies watch, watch.watchTable
      ensures Firing() && old(watch.known) <= watch.known && fresh(watch.known - old(watch.known))
      ensures ev != null <==> fd >= 0 && fd !in old(watch.readFds)
      ensures ev != null ==> fresh(ev) && ev.fd == fd && ev.persist == persist
      ensures var i := FirstFree(old(watch.fds));
              watch.slots == if ev != null && i < MAX_FD_EVENTS then old(watch.slots)[i := ev] else old(watch.slots)
    {
      ev := null;
      if fd >= 0 && fd !in watch.readFds {
        ev := WatchNew(fd, persist);
      }
    }

    method WatchNew(fd: int, persist: bool) returns (ev: RilEvent)
      requires Firing() && 0 <= fd && fd !in watch.readFds
      modifies watch, watch.watchTable
      ensures Firing() && fresh(ev) && ev.fd == fd && ev.persist == persist && watch.known == old(watch.known) + {ev}
      ensures var i := FirstFree(old(watch.fds));
              watch.slots == if i < MAX_FD_EVENTS then old(watch.slots)[i := ev] else old(watch.slots)
    {
      ev := NewEvent(fd, persist);
      AddWatch(ev);
    }

    /** Only new events have joined. */
    twostate predicate Grown(known: set<RilEvent>, timerNodes: set<RilEvent>)
      reads watch`known, lists`timerNodes
    { known <= watch.known && fresh(watch.known - known) && fresh(lists.timerNodes - timerNodes) }

    method Act(action: Action) returns (ev: RilEvent?)
      requires Firing() && (action.Unwatch? ==> action.ev in watch.known)
      modifies watch, watch.watchTable, watch.known`index
      modifies lists`timers, lists`timerNodes, lists.timerList`next, lists.timerList`prev
      modifies lists.timerNodes`next, lists.timerNodes`prev
      ensures Firing() && Grown(old(watch.known), old(lists.timerNodes))
      ensures ev != null ==> fresh(ev)
      ensures action.NewTimer? ==>
                var k := CountBefore(old(lists.timers), TimerAdd(action.now, action.tv));
                watch.slots == old(watch.slots) && ev != null
                && lists.timers == old(lists.timers)[..k] + [ev] + old(lists.timers)[k..]
      ensures action.NewWatch? ==>
                var i := FirstFree(old(watch.fds));
                lists.timers == old(lists.timers) && (ev != null <==> action.fd >= 0 && action.fd !in old(watch.readFds))
                && watch.slots == if ev != null && i < MAX_FD_EVENTS then old(watch.slots)[i := ev] else old(watch.slots)
      ensures action.Unwatch? ==>
                lists.timers == old(lists.timers)
                && watch.slots == if old(action.ev.index) == -1 then old(watch.slots)
                                  else old(watch.slots)[old(action.ev.index) := null]
    {
      ev := null;
      match action {
        case NewTimer(tv, now) => ev := StartTimer(tv, now);
        case NewWatch(fd, persist) => ev := StartWatch(fd, persist);
        case Unwatch(watched) => Delete(watched);
      }
    }

    /** Puts the ready event of a slot on the pending list, and takes it out of the
        table unless it is persistent. */
    method TakeReady(rev: RilEvent, i: nat)
      requires lists.Valid() && watch.Valid() && watch.Indexed()
      requires i < MAX_FD_EVENTS && watch.slots[i] == rev && lists.IsFree(rev)
      modifies lists`pending, lists`pendingNodes, lists.pendingList`next, lists.pendingList`prev
      modifies rev`next, rev`prev, lists.pendingNodes`next, lists.pendingNodes`prev
      modifies watch, watch.watchTable, rev`index
      ensures lists.Valid() && watch.Valid() && watch.Indexed() && watch.known == old(watch.known)
      ensures lists.pending == old(lists.pending) + [rev] && lists.pendingNodes == old(lists.pendingNodes) + {rev}
      ensures watch.slots == old(watch.slots)[i := if rev.persist then rev else null]
    {
      lists.LinkPending(rev);
      if !rev.persist {
        watch.RemoveWatch(rev, i);
      }
    }

    /** One slot of the walk. */
    method WalkSlot(rfds: set<int>, i: nat, left: int, ghost before: seq<RilEvent>, ghost w: Walk, ghost fd: int)
      returns (left': int, ghost w': Walk)
      requires lists.Valid() && watch.Valid() && watch.Indexed() && FreeFrom(i) && lists.pendingNodes <= watch.known
      requires i < MAX_FD_EVENTS && w.left == left && w.cur == watch.slots && lists.pending == before + w.done
      requires watch.slots[i] != null ==> watch.slots[i].fd == fd
      modifies lists`pending, lists`pendingNodes, lists.pendingList`next, lists.pendingList`prev
      modifies watch, watch.watchTable, watch.known`index, watch.known`next, watch.known`prev
      ensures lists.Valid() && watch.Valid() && watch.Indexed() && FreeFrom(i + 1)
      ensures watch.known == old(watch.known) && lists.pendingNodes <= watch.known
      ensures w' == WalkStep(rfds, fd, i, w) && w'.left == left' && w'.cur == watch.slots && lists.pending == before + w'.done
    {
      w', left' := w, left;
      var rev := watch.watchTable[i];
      if rev != null && rev.fd in rfds {
        TakeReady(rev, i);
        left' := left - 1;
        w' := WalkStep(rfds, fd, i, w);
      }
    }

    /** Collects what select found ready: `n` of the descriptors in `rfds`. */
    method ProcessReadReadies(rfds: set<int>, n: int)
      requires lists.Valid() && watch.Valid() && watch.Indexed() && FreeFrom(0) && lists.pendingNodes <= watch.known
      modifies lists`pending, lists`pendingNodes, lists.pendingList`next, lists.pendingList`prev
      modifies watch, watch.watchTable, watch.known`index, watch.known`next, watch.known`prev
      ensures lists.Valid() && watch.Valid() && watch.Indexed()
      ensures watch.known == old(watch.known) && lists.pendingNodes <= watch.known
      ensures lists.pending == old(lists.pending) + FirstReady(old(watch.slots), old(watch.fds), rfds, n)
      ensures watch.slots == AfterReady(old(watch.slots), old(watch.fds), rfds, n)
    {
      ghost var (slots, fds, before) := (watch.slots, watch.fds, lists.pending);
      ghost var w := Walk(n, [], slots);
      var (i, left) := (0, n);
      while i < MAX_FD_EVENTS && left > 0
        invariant 0 <= i <= MAX_FD_EVENTS
        invariant lists.Valid() && watch.Valid() && watch.Indexed() && FreeFrom(i)
        invariant watch.known == old(watch.known) && lists.pendingNodes <= watch.known
        invariant w.left == left && w.cur == watch.slots && lists.pending == before + w.done
        invariant OnTheWay(slots, fds, rfds, n, i, w)
      {
        assert watch.slots[i] == slots[i] by { assert watch.slots[i..][0] == slots[i..][0]; }
        StaysOnTheWay(slots, fds, rfds, n, i, w);
        left, w := WalkSlot(rfds, i, left, before, w, fds[i]);
        i := i + 1;
      }
      EndOfTheWay(slots, fds, rfds, n, i, w);
    }

    /** What a turn fires: the first `k` timers, then the ready events. */
    ghost function Batch(rfds: set<int>, n: int, k: nat): seq<RilEvent>
      requires watch.Valid() && k <= |lists.timers|
      reads lists`timers, watch, watch.watchTable, watch.slots`fd, watch.slots`index
    {
      lists.timers[..k] + FirstReady(watch.slots, watch.fds, rfds, n)
    }

    /** The first half of a turn: all that is to fire is put on the pending list. */
    method Collect(rfds: set<int>, n: int, now: Timeval)
      requires Idle()
      modifies lists`timers, lists`pending, lists`timerNodes, lists`pendingNodes
      modifies lists.pendingList`next, lists.pendingList`prev, lists.timerList`next, lists.timerList`prev
      modifies watch, watch.watchTable, watch.known`index, watch.known`next, watch.known`prev
      ensures Firing() && watch.known == old(watch.known)
      ensures var k := old(CountBefore(lists.timers, now));
              lists.timers == old(lists.timers)[k..] && lists.pending == old(Batch(rfds, n, k)) && Distinct(lists.pending)
      ensures watch.slots == AfterReady(old(watch.slots), old(watch.fds), rfds, n)
    {
      ghost var k := CountBefore(lists.timers, now);
      ghost var (due, left, ready) := (lists.timers[..k], lists.timers[k..], FirstReady(watch.slots, watch.fds, rfds, n));
      CollectTimers(now);
      assert lists.pending == due && lists.timers == left;
      CollectReady(rfds, n);
      assert lists.pending == due + ready && lists.timers == left;
    }

    /** processTimeouts leaves the watch table alone. */
    method CollectTimers(now: Timeval)
      requires Idle()
      modifies lists`timers, lists`pending, lists`timerNodes, lists`pendingNodes
      modifies lists.pendingList`next, lists.pendingList`prev, lists.timerList`next, lists.timerList`prev
      modifies watch.known`next, watch.known`prev
      ensures Firing() && FreeFrom(0)
      ensures var k := old(CountBefore(lists.timers, now));
              lists.timers == old(lists.timers)[k..] && lists.pending == old(lists.timers)[..k]
    {
      lists.ProcessTimeouts(now);
    }

    /** processReadReadies leaves the timers alone. */
    method CollectReady(rfds: set<int>, n: int)
      requires Firing() && FreeFrom(0)
      modifies lists`pending, lists`pendingNodes, lists.pendingList`next, lists.pendingList`prev
      modifies watch, watch.watchTable, watch.known`index, watch.known`next, watch.known`prev
      ensures Firing() && watch.known == old(watch.known)
      ensures lists.pending == old(lists.pending) + FirstReady(old(watch.slots), old(watch.fds), rfds, n)
      ensures watch.slots == AfterReady(old(watch.slots), old(watch.fds), rfds, n)
    {
      AfterReadyClears(watch.slots, watch.fds, rfds, n);
      ProcessReadReadies(rfds, n);
    }

    /** One action of a callback, put on record. */
    method Perform(action: Action)
      requires Firing() && (action.Unwatch? ==> action.ev in watch.known)
      modifies this`acted, watch, watch.watchTable, watch.known`index
      modifies lists`timers, lists`timerNodes, lists.timerList`next, lists.timerList`prev
      modifies lists.timerNodes`next, lists.timerNodes`prev
      ensures Firing() && Grown(old(watch.known), old(lists.timerNodes)) && acted == old(acted) + [action]
    {
      var _ := Act(action);
      acted := acted + [action];
    }

    /** What the callback of one event does. */
    method Callback(actions: seq<Action>)
      requires Firing() && AllKnown(actions)
      modifies this`acted, watch, watch.watchTable, watch.known`index
      modifies lists`timers, lists`timerNodes, lists.timerList`next, lists.timerList`prev
      modifies lists.timerNodes`next, lists.timerNodes`prev
      ensures Firing() && Grown(old(watch.known), old(lists.timerNodes)) && acted == old(acted) + actions
      ensures actions == [] ==> lists.timers == old(lists.timers) && watch.slots == old(watch.slots)
    {
      for i := 0 to |actions|
        invariant Firing() && Grown(old(watch.known), old(lists.timerNodes)) && acted == old(acted) + actions[..i]
        invariant i == 0 ==> lists.timers == old(lists.timers) && watch.slots == old(watch.slots)
      {
        OneActionMore(old(acted), actions, i);
        Perform(actions[i]);
      }
      assert actions[..|actions|] == actions;
    }

    ghost predicate AllKnown(actions: seq<Action>)
      reads watch`known
    { forall i :: 0 <= i < |actions| && actions[i].Unwatch? ==> actions[i].ev in watch.known }

    /** Takes the first pending event off the list and calls its callback. */
    method FireNext(ev: RilEvent, actions: seq<Action>)
      requires Firing() && lists.pending != [] && ev == lists.pending[0] && AllKnown(actions)
      modifies this`acted, lists, lists.timerList`next, lists.timerList`prev, lists.pendingList`next, lists.pendingList`prev
      modifies watch, watch.watchTable, watch.known`index, watch.known`next, watch.known`prev
      ensures Firing() && Grown(old(watch.known), old(lists.timerNodes))
      ensures lists.pending == old(lists.pending)[1..] && lists.fired == old(lists.fired) + [ev]
      ensures acted == old(acted) + actions
      ensures actions == [] ==> lists.timers == old(lists.timers) && watch.slots == old(watch.slots)
    {
      lists.FireFirst(ev);
      Callback(actions);
    }

    /** One turn of firePending's loop, the `k`-th of `all` that were pending. */
    method FireTurn(ev: RilEvent, callbacks: seq<seq<Action>>, k: nat,
                    ghost fired: seq<RilEvent>, ghost all: seq<RilEvent>, ghost log: seq<Action>)
      returns (next: RilEvent)
      requires Firing() && forall i :: 0 <= i < |callbacks| ==> AllKnown(callbacks[i])
      requires k < |all| && lists.fired == fired + all[..k] && lists.pending == all[k..] && HasDone(acted, log, callbacks, k)
      requires ev == all[k]
      modifies this`acted, lists, lists.timerList`next, lists.timerList`prev, lists.pendingList`next, lists.pendingList`prev
      modifies watch, watch.watchTable, watch.known`index, watch.known`next, watch.known`prev
      ensures Firing() && old(watch.known) <= watch.known && fresh(watch.known - old(watch.known))
      ensures lists.fired == fired + all[..k + 1] && lists.pending == all[k + 1..] && HasDone(acted, log, callbacks, k + 1)
      ensures next == NodeAt(lists.pendingList, lists.pending, 0)
      ensures callbacks == [] ==> lists.timers == old(lists.timers) && watch.slots == old(watch.slots)
    {
      next := ev.next;
      OneMore(fired, all, k);
      FireNext(ev, if k < |callbacks| then callbacks[k] else []);
    }

    /** Calls the callback of every pending event, in order; `callbacks` says what each of
        them does.  Whatever that is, it neither adds to what is fired nor takes from it. */
    method FirePending(callbacks: seq<seq<Action>>)
      requires Firing() && forall i :: 0 <= i < |callbacks| ==> AllKnown(callbacks[i])
      modifies this`acted, lists, lists.timerList`next, lists.timerList`prev, lists.pendingList`next, lists.pendingList`prev
      modifies watch, watch.watchTable, watch.known`index, watch.known`next, watch.known`prev
      ensures Idle() && old(watch.known) <= watch.known && fresh(watch.known - old(watch.known))
      ensures lists.fired == old(lists.fired) + old(lists.pending)
      ensures acted == DoneBy(old(acted), callbacks, |old(lists.pending)|)
      ensures callbacks == [] ==> lists.timers == old(lists.timers) && watch.slots == old(watch.slots)
    {
      ghost var (fired, all, log) := (lists.fired, lists.pending, acted);
      var (ev, k) := (lists.pendingList.next, 0);
      while ev != lists.pendingList
        invariant Firing() && old(watch.known) <= watch.known && fresh(watch.known - old(watch.known))
        invariant 0 <= k <= |all| && lists.fired == fired + all[..k] && lists.pending == all[k..]
        invariant ev == NodeAt(lists.pendingList, lists.pending, 0)
        invariant HasDone(acted, log, callbacks, k)
        invariant callbacks == [] ==> lists.timers == old(lists.timers) && watch.slots == old(watch.slots)
        decreases |lists.pending|
      {
        ev := FireTurn(ev, callbacks, k, fired, all, log);
        k := k + 1;
      }
      assert k == |all| && all[..k] == all;
      lists.NothingPending();
    }

    lemma NoneLeftOut(rfds: set<int>, n: int)
      requires watch.Valid() && |rfds| <= n
      ensures forall i :: 0 <= i < MAX_FD_EVENTS && watch.slots[i] != null && watch.fds[i] in rfds ==>
                i in ReadySlots(watch.slots, watch.fds, rfds, n, 0)
    {
      forall i | 0 <= i < MAX_FD_EVENTS && watch.slots[i] != null && watch.fds[i] in rfds
        ensures i in ReadySlots(watch.slots, watch.fds, rfds, n, 0)
      {
        NoReadySlotLeftOut(watch.slots, watch.fds, rfds, n, 0, i);
      }
    }

    /** All that is to fire is collected, and then fired. */
    method FireBatch(rfds: set<int>, n: nat, now: Timeval, callbacks: seq<seq<Action>>)
      requires Idle() && forall i :: 0 <= i < |callbacks| ==> AllKnown(callbacks[i])
      modifies this`acted, lists, lists.timerList`next, lists.timerList`prev, lists.pendingList`next, lists.pendingList`prev
      modifies watch, watch.watchTable, watch.known`index, watch.known`next, watch.known`prev
      ensures Idle() && old(watch.known) <= watch.known
      ensures var k := old(CountBefore(lists.timers, now));
              && lists.fired == old(lists.fired) + old(Batch(rfds, n, k)) && Distinct(old(Batch(rfds, n, k)))
              && (callbacks == [] ==> lists.timers == old(lists.timers)[k..]
                                      && watch.slots == AfterReady(old(watch.slots), old(watch.fds), rfds, n))
              && acted == DoneBy(old(acted), callbacks, |old(Batch(rfds, n, k))|)
    {
      ghost var batch := Batch(rfds, n, CountBefore(lists.timers, now));
      Collect(rfds, n, now);
      assert lists.pending == batch;
      FirePending(callbacks);
    }

    /** The part of a turn after a select that has not failed. */
    method CollectAndFire(rfds: set<int>, n: nat, now: Timeval, callbacks: seq<seq<Action>>) returns (ghost at: seq<nat>)
      requires Idle() && forall i :: 0 <= i < |callbacks| ==> AllKnown(callbacks[i])
      modifies this`acted, lists, lists.timerList`next, lists.timerList`prev, lists.pendingList`next, lists.pendingList`prev
      modifies watch, watch.watchTable, watch.known`index, watch.known`next, watch.known`prev
      ensures Idle() && old(watch.known) <= watch.known
      ensures at == old(ReadySlots(watch.slots, watch.fds, rfds, n, 0)) && AreFirstReady(old(watch.slots), old(watch.fds), rfds, n, at)
      ensures FiredInOrder(old(lists.fired), lists.fired, old(lists.timers)[..old(CountBefore(lists.timers, now))], old(watch.slots), at)
      ensures acted == DoneBy(old(acted), callbacks, |lists.fired| - |old(lists.fired)|)
      ensures callbacks == [] ==> lists.timers == old(lists.timers)[old(CountBefore(lists.timers, now))..]
                                  && OnlyTheseLeft(old(watch.slots), watch.slots, at)
    {
      ghost var (fired, slots, fds) := (lists.fired, watch.slots, watch.fds);
      ghost var due := lists.timers[..CountBefore(lists.timers, now)];
      ghost var ready := FirstReady(slots, fds, rfds, n);
      at := ReadySlots(slots, fds, rfds, n, 0);
      FireBatch(rfds, n, now, callbacks);
      ReadySlotsAreFirst(slots, fds, rfds, n);
      AfterReadyClears(slots, fds, rfds, n);
      FiresInOrder(fired, due, slots, ready, at);
    }

    /** What follows a select that found `n` of the descriptors in `rfds` ready.  A failed
        one (`n` negative) changes nothing.  Otherwise first every timer due before now, in
        the order they are due, then the events of the slots `at`, the first ready ones, have
        their callback called, each of them once, whatever the callbacks do; no ready event
        is left out if `n` covers the ready descriptors. */
    method Turn(rfds: set<int>, n: int, now: Timeval, callbacks: seq<seq<Action>>) returns (ghost at: seq<nat>)
      requires Idle() && forall i :: 0 <= i < |callbacks| ==> AllKnown(callbacks[i])
      modifies this`acted, lists, lists.timerList`next, lists.timerList`prev, lists.pendingList`next, lists.pendingList`prev
      modifies watch, watch.watchTable, watch.known`index, watch.known`next, watch.known`prev
      ensures Idle() && old(watch.known) <= watch.known
      ensures AreFirstReady(old(watch.slots), old(watch.fds), rfds, n, at)
      ensures n < 0 ==> lists.fired == old(lists.fired) && lists.timers == old(lists.timers) && watch.slots == old(watch.slots)
      ensures 0 <= n ==> FiredInOrder(old(lists.fired), lists.fired, old(lists.timers)[..old(CountBefore(lists.timers, now))],
                                      old(watch.slots), at)
      ensures acted == DoneBy(old(acted), callbacks, |lists.fired| - |old(lists.fired)|)
      ensures 0 <= n && callbacks == [] ==> lists.timers == old(lists.timers)[old(CountBefore(lists.timers, now))..]
                                            && OnlyTheseLeft(old(watch.slots), watch.slots, at)
      ensures |rfds| <= n ==> forall i :: 0 <= i < MAX_FD_EVENTS && old(watch.slots)[i] != null && old(watch.fds)[i] in rfds ==> i in at
    {
      if n < 0 {
        return [];
      }
      if |rfds| <= n { NoneLeftOut(rfds, n); }
      at := CollectAndFire(rfds, n, now, callbacks);
    }
  }

  /** What has been fired since: each of the timers due, then the event of each of the
      slots, once. */
  ghost predicate FiredInOrder(before: seq<RilEvent>, fired: seq<RilEvent>, due: seq<RilEvent>, slots: seq<RilEvent?>, at: seq<nat>) {
    && |fired| == |before| + |due| + |at| && fired[..|before|] == before
    && (forall i :: 0 <= i < |due| ==> fired[|before| + i] == due[i])
    && (forall j :: 0 <= j < |at| ==> at[j] < |slots| && fired[|before| + |due| + j] == slots[at[j]])
    && Distinct(fired[|before|..])
  }

  lemma FiresInOrder(before: seq<RilEvent>, due: seq<RilEvent>, slots: seq<RilEvent?>, ready: seq<RilEvent>, at: seq<nat>)
    requires EventsOf(slots, at, ready) && Distinct(due + ready)
    ensures FiredInOrder(before, before + (due + ready), due, slots, at)
  {
    assert (before + (due + ready))[|before|..] == due + ready;
  }
}
