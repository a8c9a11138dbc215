/** libril/ril_event.cpp: the list of timers, kept in the order they are due, and
    the list of events whose callback is to be called. */
module RilEventLists {
  import opened Timeval
  import opened Wrappers
  import opened RilEvent

  // The timer list.

  /** How many events from the front are due strictly before `t`. */
  ghost function CountBefore(s: seq<RilEvent>, t: Timeval): (k: nat)
    reads s`timeout
    ensures k <= |s| && (k < |s| ==> !s[k].timeout.Before(t))
    ensures forall i :: 0 <= i < k ==> s[i].timeout.Before(t)
  {
    if s == [] || !s[0].timeout.Before(t) then 0 else 1 + CountBefore(s[1..], t)
  }

  ghost predicate Sorted(s: seq<RilEvent>)
    reads s`timeout
  {
    forall i, j :: 0 <= i < j < |s| ==> !s[j].timeout.Before(s[i].timeout)
  }

  /** In a sorted list the events due strictly before `t` are just those at the front. */
  lemma SortedSplits(s: seq<RilEvent>, t: Timeval)
    requires Sorted(s)
    ensures forall i :: 0 <= i < |s| ==> (s[i].timeout.Before(t) <==> i < CountBefore(s, t))
  {
    var k := CountBefore(s, t);
    forall i | k < i < |s| ensures !s[i].timeout.Before(t) {
      assert !s[i].timeout.Before(s[k].timeout);
    }
  }

  lemma InsertKeepsSorted(s: seq<RilEvent>, ev: RilEvent)
    requires Sorted(s)
    ensures var k := CountBefore(s, ev.timeout); Sorted(s[..k] + [ev] + s[k..])
  {
    SortedSplits(s, ev.timeout);
  }

  lemma OneMore(before: seq<RilEvent>, all: seq<RilEvent>, k: nat)
    requires k < |all|
    ensures all[k..][0] == all[k] && all[k..][1..] == all[k + 1..]
    ensures before + all[..k] + [all[k]] == before + all[..k + 1]
  {}

  class EventLists {
    const timerList: RilEvent
    const pendingList: RilEvent
    /** What is linked into the two lists, in order. */
    ghost var timers: seq<RilEvent>
    ghost var pending: seq<RilEvent>
    ghost var timerNodes: set<RilEvent>
    ghost var pendingNodes: set<RilEvent>
    /** The events whose callback has been called, in order. */
    ghost var fired: seq<RilEvent>

    ghost predicate Linked()
      reads this`timers, this`pending, this`timerNodes, this`pendingNodes
      reads timerList`next, timerList`prev, pendingList`next, pendingList`prev
      reads timerNodes`next, timerNodes`prev, pendingNodes`next, pendingNodes`prev
    {
      && timerList != pendingList && timerList !in pendingNodes && pendingList !in timerNodes
      && timerNodes !! pendingNodes
      && Ring(timerList, timers, timerNodes) && Ring(pendingList, pending, pendingNodes)
    }

    /** In neither list. */
    ghost predicate IsFree(ev: RilEvent)
      reads this`timerNodes, this`pendingNodes
    { ev !in timerNodes && ev !in pendingNodes && ev != timerList && ev != pendingList }

    ghost predicate Valid()
      reads this`timers, this`pending, this`timerNodes, this`pendingNodes
      reads timerList, pendingList, timerNodes, pendingNodes, timers`timeout
    { Linked() && Sorted(timers) }

    /** init_list, for both */
    constructor ()
      ensures Valid() && timers == [] && pending == [] && fired == [] && timerNodes == {} && pendingNodes == {}
      ensures fresh(timerList) && fresh(pendingList)
    {
      timerList := new RilEvent.Head();
      pendingList := new RilEvent.Head();
      timers, pending, timerNodes, pendingNodes, fired := [], [], {}, {}, [];
    }

    /** The walk of ril_timer_add: the first node, or the head, not due before `t`. */
    method FindPlace(t: Timeval) returns (list: RilEvent, ghost k: nat)
      requires Linked()
      ensures k == CountBefore(timers, t) && list == NodeAt(timerList, timers, k)
    {
      list := timerList.next;
      k := 0;
      while list.timeout.Before(t) && list != timerList
        invariant 0 <= k <= |timers| && list == NodeAt(timerList, timers, k)
        invariant forall i :: 0 <= i < k ==> timers[i].timeout.Before(t)
        decreases |timers| - k
      {
        list := list.next;
        k := k + 1;
      }
    }

    method LinkTimer(ev: RilEvent, list: RilEvent, ghost k: nat)
      requires Linked() && IsFree(ev) && k <= |timers| && list == NodeAt(timerList, timers, k)
      modifies this`timers, this`timerNodes, timerList`next, timerList`prev
      modifies ev`next, ev`prev, timerNodes`next, timerNodes`prev
      ensures Linked() && timers == old(timers[..k] + [ev] + timers[k..]) && timerNodes == old(timerNodes) + {ev}
    {
      ghost var timers' := timers[..k] + [ev] + timers[k..];
      AddToList(ev, list, timerList, timers, timerNodes, k);
      timers, timerNodes := timers', timerNodes + {ev};
    }

    /** Puts the event where its time says. */
    method InsertTimer(ev: RilEvent)
      requires Valid() && IsFree(ev)
      modifies this`timers, this`timerNodes, timerList`next, timerList`prev
      modifies ev`next, ev`prev, timerNodes`next, timerNodes`prev
      ensures Valid() && timerNodes == old(timerNodes) + {ev}
      ensures var k := CountBefore(old(timers), ev.timeout); timers == old(timers)[..k] + [ev] + old(timers)[k..]
    {
      var list, k := FindPlace(ev.timeout);
      InsertKeepsSorted(timers, ev);
      ghost var timers' := timers[..k] + [ev] + timers[k..];
      assert Sorted(timers');
      LinkTimer(ev, list, k);
      assert timers == timers';
    }

    /** Adds the event to the timer list, ahead of those due at the same time; with
        no time given, does nothing. */
    method RilTimerAdd(ev: RilEvent, tv: Option<Timeval>, now: Timeval)
      requires Valid() && IsFree(ev)
      modifies this`timers, this`timerNodes, timerList`next, timerList`prev
      modifies ev`fd, ev`timeout, ev`next, ev`prev, timerNodes`next, timerNodes`prev
      ensures Valid() && timerNodes == old(timerNodes) + if tv.Some? then {ev} else {}
      ensures tv.None? ==> timers == old(timers) && ev.fd == old(ev.fd) && ev.timeout == old(ev.timeout)
      ensures tv.Some? ==> ev.fd == -1 && ev.timeout == TimerAdd(now, tv.value)
      ensures tv.Some? ==> var k := CountBefore(old(timers), ev.timeout);
                           timers == old(timers)[..k] + [ev] + old(timers)[k..]
    {
      if tv.Some? {
        ev.fd := -1;
        ev.timeout := TimerAdd(now, tv.value);
        InsertTimer(ev);
      }
    }

    method UnlinkFirstTimer(ev: RilEvent)
      requires Linked() && timers != [] && ev == timers[0]
      modifies this`timers, this`timerNodes, timerList`next, timerList`prev, timerNodes`next, timerNodes`prev
      ensures Linked() && timers == old(timers[1..]) && timerNodes == old(timerNodes) - {ev} && IsFree(ev)
    {
      RemoveFromList(ev, timerList, timers, timerNodes, 0);
      assert timers[..0] + timers[1..] == timers[1..];
      timers, timerNodes := timers[1..], timerNodes - {ev};
    }

    method UnlinkFirstPending(ev: RilEvent)
      requires Linked() && pending != [] && ev == pending[0]
      modifies this`pending, this`pendingNodes, pendingList`next, pendingList`prev, pendingNodes`next, pendingNodes`prev
      ensures Linked() && pending == old(pending[1..]) && pendingNodes == old(pendingNodes) - {ev} && IsFree(ev)
    {
      RemoveFromList(ev, pendingList, pending, pendingNodes, 0);
      assert pending[..0] + pending[1..] == pending[1..];
      pending, pendingNodes := pending[1..], pendingNodes - {ev};
    }

    method LinkPending(ev: RilEvent)
      requires Linked() && IsFree(ev)
      modifies this`pending, this`pendingNodes, pendingList`next, pendingList`prev
      modifies ev`next, ev`prev, pendingNodes`next, pendingNodes`prev
      ensures Linked() && pending == old(pending) + [ev] && pendingNodes == old(pendingNodes) + {ev}
    {
      AddToList(ev, pendingList, pendingList, pending, pendingNodes, |pending|);
      assert pending[..|pending|] + [ev] + pending[|pending|..] == pending + [ev];
      pending, pendingNodes := pending + [ev], pendingNodes + {ev};
    }

    /** Moves the first timer to the end of the pending list. */
    method Expire(ev: RilEvent)
      requires Linked() && timers != [] && ev == timers[0]
      modifies this`timers, this`pending, this`timerNodes, this`pendingNodes
      modifies timerList`next, timerList`prev, pendingList`next, pendingList`prev
      modifies timerNodes`next, timerNodes`prev, pendingNodes`next, pendingNodes`prev
      ensures Linked() && timers == old(timers[1..]) && pending == old(pending) + [ev]
      ensures timerNodes + pendingNodes == old(timerNodes + pendingNodes)
    {
      UnlinkFirstTimer(ev);
      LinkPending(ev);
    }

    /** Moves every timer due strictly before now to the pending list, in order. */
    method ProcessTimeouts(now: Timeval)
      requires Valid()
      modifies this`timers, this`pending, this`timerNodes, this`pendingNodes
      modifies timerList`next, timerList`prev, pendingList`next, pendingList`prev
      modifies timerNodes`next, timerNodes`prev, pendingNodes`next, pendingNodes`prev
      ensures Valid() && timerNodes + pendingNodes == old(timerNodes + pendingNodes)
      ensures var k := old(CountBefore(timers, now));
              timers == old(timers)[k..] && pending == old(pending) + old(timers)[..k]
    {
      ghost var (all, k, due) := (timers, 0, CountBefore(timers, now));
      var tev := timerList.next;
      while tev != timerList && tev.timeout.Before(now)
        invariant 0 <= k <= due && timers == all[k..] && pending == old(pending) + all[..k]
        invariant Linked() && timerNodes + pendingNodes == old(timerNodes + pendingNodes)
        invariant tev == NodeAt(timerList, timers, 0)
        decreases |timers|
      {
        var next := tev.next;
        OneMore(old(pending), all, k);
        Expire(tev);
        tev := next;
        k := k + 1;
      }
    }

    /** One turn of firePending's loop: the event is off the list before its callback
        is called. */
    method FireFirst(ev: RilEvent)
      requires Linked() && pending != [] && ev == pending[0]
      modifies this`pending, this`pendingNodes, this`fired
      modifies pendingList`next, pendingList`prev, pendingNodes`next, pendingNodes`prev
      ensures Linked() && pending == old(pending)[1..] && pendingNodes == old(pendingNodes) - {ev}
      ensures fired == old(fired) + [ev]
    {
      UnlinkFirstPending(ev);
      fired := fired + [ev];
    }

    /** An empty pending list has no nodes. */
    ghost method NothingPending()
      requires Linked() && pending == []
      modifies this`pendingNodes
      ensures Linked() && pendingNodes == {}
    {
      pendingNodes := {};
    }

    /** How long select may sleep: for ever with no timer, else until the first is
        due, or not at all when it already is. */
    method CalcNextTimeout(now: Timeval) returns (tv: Option<Timeval>)
      requires Valid()
      ensures tv.None? <==> timers == []
      ensures tv.Some? && now.Before(timers[0].timeout) ==> tv.value == TimerSub(timers[0].timeout, now)
      ensures tv.Some? && !now.Before(timers[0].timeout) ==> tv.value == Timeval(0, 0)
    {
      var tev := timerList.next;
      if tev == timerList {
        return None;
      }
      if now.Before(tev.timeout) {
        return Some(TimerSub(tev.timeout, now));
      }
      return Some(Timeval(0, 0));
    }
  }
}
