/** libril/ril_event.cpp: the events, and the circular lists they are linked into. */
module RilEvent {
  import opened Timeval

  class RilEvent {
    var next: RilEvent?
    var prev: RilEvent?
    var fd: int
    var index: int
    const persist: bool
    var timeout: Timeval

    /** ril_event_set */
    constructor (fd: int, persist: bool)
      ensures this.fd == fd && this.persist == persist && index == -1 && next == null && prev == null
    {
      next, prev := null, null;
      this.fd, this.persist, index, timeout := fd, persist, -1, Timeval(0, 0);
    }

    /** init_list: the head of an empty list. */
    constructor Head()
      ensures Ring(this, [], {})
    {
      next, prev := this, this;
      fd, persist, index, timeout := -1, false, 0, Timeval(0, 0);
    }
  }

  /** The node at a place of the list `s` headed by `list`; the head sits at both ends. */
  ghost function NodeAt(list: RilEvent, s: seq<RilEvent>, i: int): RilEvent {
    if 0 <= i < |s| then s[i] else list
  }

  /** No event is in it twice. */
  ghost predicate Distinct(s: seq<RilEvent>) {
    s == [] || (s[0] !in s[1..] && Distinct(s[1..]))
  }

  lemma {:induction false} DistinctMeans(s: seq<RilEvent>)
    ensures Distinct(s) <==> forall i, j :: 0 <= i < j < |s| ==> s[i] != s[j]
  {
    if s != [] {
      DistinctMeans(s[1..]);
      assert forall i :: 0 < i < |s| ==> s[i] == s[1..][i - 1];
    }
  }

  lemma OnlyAt(s: seq<RilEvent>, k: int)
    requires Distinct(s)
    ensures forall i :: 0 <= i < |s| && 0 <= k < |s| && i != k ==> s[i] != s[k]
  {
    DistinctMeans(s);
  }

  lemma DistinctWith(s: seq<RilEvent>, ev: RilEvent, k: nat)
    requires Distinct(s) && ev !in s && k <= |s|
    ensures Distinct(s[..k] + [ev] + s[k..])
  {
    DistinctMeans(s);
    DistinctMeans(s[..k] + [ev] + s[k..]);
  }

  lemma DistinctWithout(s: seq<RilEvent>, k: nat)
    requires Distinct(s) && k < |s|
    ensures Distinct(s[..k] + s[k + 1..])
  {
    DistinctMeans(s);
    DistinctMeans(s[..k] + s[k + 1..]);
  }

  /** `s` is what is linked into the list, in order and both ways round, and
      `nodes` the set of it. */
  ghost predicate Ring(list: RilEvent, s: seq<RilEvent>, nodes: set<RilEvent>)
    reads list`next, list`prev, nodes`next, nodes`prev
  {
    && list !in nodes
    && (forall i :: 0 <= i < |s| ==> s[i] in nodes)
    && Distinct(s)
    && (forall i {:trigger s[i].next} :: 0 <= i < |s| ==> s[i].next == NodeAt(list, s, i + 1))
    && (forall i {:trigger s[i].prev} :: 0 <= i < |s| ==> s[i].prev == NodeAt(list, s, i - 1))
    && list.next == NodeAt(list, s, 0)
    && list.prev == NodeAt(list, s, |s| - 1)
  }

  /** Links `ev` in just before `list`, which is the node at place `k`. */
  method AddToList(ev: RilEvent, list: RilEvent,
                   ghost head: RilEvent, ghost s: seq<RilEvent>, ghost nodes: set<RilEvent>, ghost k: nat)
    requires Ring(head, s, nodes) && k <= |s| && list == NodeAt(head, s, k)
    requires ev !in nodes && ev != head
    modifies ev`next, ev`prev, head`next, head`prev, nodes`next, nodes`prev
    ensures Ring(head, s[..k] + [ev] + s[k..], nodes + {ev})
  {
    OnlyAt(s, k - 1);
    OnlyAt(s, k);
    DistinctWith(s, ev, k);
    assert list.prev == NodeAt(head, s, k - 1);
    ev.next := list;
    ev.prev := list.prev;
    ev.prev.next := ev;
    list.prev := ev;
    ghost var s' := s[..k] + [ev] + s[k..];
    forall i | 0 <= i < |s'|
      ensures s'[i] in nodes + {ev}
      ensures s'[i].next == NodeAt(head, s', i + 1) && s'[i].prev == NodeAt(head, s', i - 1)
    {
      assert s'[i] == if i < k then s[i] else if i == k then ev else s[i - 1];
    }
  }

  /** Links the neighbours of `ev`, which is at place `k`, past it. */
  method Bypass(ev: RilEvent, ghost head: RilEvent, ghost s: seq<RilEvent>, ghost nodes: set<RilEvent>, ghost k: nat)
    requires Ring(head, s, nodes) && k < |s| && ev == s[k]
    modifies head`next, head`prev, nodes`next, nodes`prev
    ensures Ring(head, s[..k] + s[k + 1..], nodes - {ev})
  {
    OnlyAt(s, k - 1);
    OnlyAt(s, k);
    OnlyAt(s, k + 1);
    DistinctWithout(s, k);
    assert ev.next == NodeAt(head, s, k + 1) && ev.prev == NodeAt(head, s, k - 1);
    ev.next.prev := ev.prev;
    ev.prev.next := ev.next;
    ghost var s' := s[..k] + s[k + 1..];
    forall i | 0 <= i < |s'|
      ensures s'[i] in nodes && s'[i] != ev
      ensures s'[i].next == NodeAt(head, s', i + 1) && s'[i].prev == NodeAt(head, s', i - 1)
    {
      assert s'[i] == s[if i < k then i else i + 1];
    }
  }

  /** Unlinks `ev`, which is at place `k`. */
  method RemoveFromList(ev: RilEvent,
                        ghost head: RilEvent, ghost s: seq<RilEvent>, ghost nodes: set<RilEvent>, ghost k: nat)
    requires Ring(head, s, nodes) && k < |s| && ev == s[k]
    modifies head`next, head`prev, nodes`next, nodes`prev
    ensures Ring(head, s[..k] + s[k + 1..], nodes - {ev}) && ev.next == null && ev.prev == null
  {
    Bypass(ev, head, s, nodes, k);
    ev.next := null;
    ev.prev := null;
  }
}
