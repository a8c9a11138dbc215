/** gps/utils/linked_list.c: the doubly linked list under the message queue. */
module LinkedList {
  import opened Wrappers

  /** An opaque data pointer. */
  type Pointer = nat
  const NULL: Pointer := 0

  datatype LinkedListErr = Success | FailureGeneral | InvalidParameter | UnavailableResource

  /** What one element holds: the data, and whether a deallocator came with it. */
  datatype Item = Item(data: Pointer, dealloc: bool)

  class ListElement {
    var next: ListElement?
    var prev: ListElement?
    const data: Pointer
    const dealloc: bool

    constructor (data: Pointer, dealloc: bool)
      ensures next == null && prev == null && this.data == data && this.dealloc == dealloc
    { next, prev, this.data, this.dealloc := null, null, data, dealloc; }
  }

  /** Where the first item whose data is equal sits; past the end when there is none. */
  function FirstMatch(s: seq<Item>, equal: Pointer -> bool): (i: nat)
    ensures i <= |s| && (i < |s| ==> equal(s[i].data))
    ensures forall j :: 0 <= j < i ==> !equal(s[j].data)
  {
    if s == [] then 0
    else if equal(s[0].data) then 0
    else 1 + FirstMatch(s[1..], equal)
  }

  /** The data a flush hands to deallocators, in the order of the list. */
  function Deallocated(s: seq<Item>): seq<Pointer> {
    if s == [] then []
    else (if s[0].dealloc then [s[0].data] else []) + Deallocated(s[1..])
  }

  /** Each item that came with a deallocator is deallocated as often as it is in
      the list, and no other is. */
  lemma {:induction false} DeallocatedOnceEach(s: seq<Item>, data: Pointer)
    ensures multiset(Deallocated(s))[data] == multiset(s)[Item(data, true)]
  {
    if s != [] {
      DeallocatedOnceEach(s[1..], data);
      assert s == [s[0]] + s[1..];
    }
  }

  /** And in the order of the list: first those of its first part, then those of the rest. */
  lemma {:induction false} DeallocatedInOrder(a: seq<Item>, b: seq<Item>)
    ensures Deallocated(a + b) == Deallocated(a) + Deallocated(b)
    ensures forall x: Item :: Deallocated([x]) == if x.dealloc then [x.data] else []
  {
    if a == [] {
      assert a + b == b;
    } else {
      assert (a + b)[1..] == a[1..] + b;
      DeallocatedInOrder(a[1..], b);
    }
  }

  lemma DeallocatedStep(before: seq<Pointer>, s: seq<Item>, k: nat)
    requires k < |s|
    ensures before + Deallocated(s[k..])
            == (if s[k].dealloc then before + [s[k].data] else before) + Deallocated(s[k + 1..])
  {
    assert s[k..][0] == s[k] && s[k..][1..] == s[k + 1..];
  }

  function Last(s: seq<Item>): Item
    requires s != []
  { s[|s| - 1] }

  /** No element is in it twice. */
  ghost predicate Distinct(s: seq<ListElement>) {
    s == [] || (s[0] !in s[1..] && Distinct(s[1..]))
  }

  lemma {:induction false} DistinctMeans(s: seq<ListElement>)
    ensures Distinct(s) <==> forall i, j :: 0 <= i < j < |s| ==> s[i] != s[j]
  {
    if s != [] {
      DistinctMeans(s[1..]);
      assert forall i :: 0 < i < |s| ==> s[i] == s[1..][i - 1];
    }
  }

  lemma OnlyAt(s: seq<ListElement>, k: int)
    requires Distinct(s)
    ensures forall i :: 0 <= i < |s| && 0 <= k < |s| && i != k ==> s[i] != s[k]
  {
    DistinctMeans(s);
  }

  lemma NotLeft(s: seq<ListElement>, k: nat)
    requires Distinct(s) && k < |s|
    ensures s[k] !in s[..k] + s[k + 1..]
  {
    OnlyAt(s, k);
  }

  lemma DistinctWithout(s: seq<ListElement>, k: nat)
    requires Distinct(s) && k < |s|
    ensures Distinct(s[..k] + s[k + 1..])
  {
    DistinctMeans(s);
    DistinctMeans(s[..k] + s[k + 1..]);
  }

  class LinkedList {
    var head: ListElement?
    var tail: ListElement?
    /** The elements from head to tail. */
    ghost var elems: seq<ListElement>
    /** Every pointer handed to a deallocator so far. */
    ghost var freed: seq<Pointer>

    /** What they hold, in the same order. */
    ghost var contents: seq<Item>

    ghost predicate Valid()
      reads this, elems
    {
      && |elems| == |contents|
      && (forall i :: 0 <= i < |elems| ==> contents[i] == Item(elems[i].data, elems[i].dealloc))
      && Distinct(elems) && Forward(elems) && Backward(elems)
    }

    /** head and next lead through `s`. */
    ghost predicate Forward(s: seq<ListElement>)
      reads this`head, s`next
    { head == At(s, 0) && forall i {:trigger s[i].next} :: 0 <= i < |s| ==> s[i].next == At(s, i + 1) }

    /** tail and prev lead back through it. */
    ghost predicate Backward(s: seq<ListElement>)
      reads this`tail, s`prev
    { tail == At(s, |s| - 1) && forall i {:trigger s[i].prev} :: 0 <= i < |s| ==> s[i].prev == At(s, i - 1) }

    /** The element at a place; null outside the list. */
    static ghost function At(s: seq<ListElement>, i: int): ListElement? { if 0 <= i < |s| then s[i] else null }

    constructor ()
      ensures Valid() && contents == [] && elems == [] && freed == []
    {
      head, tail, elems, contents, freed := null, null, [], [], [];
    }

    /** Puts the data at the head.  `mallocOk` says whether malloc succeeded. */
    method Add(data: Pointer, dealloc: bool, mallocOk: bool) returns (err: LinkedListErr)
      requires Valid()
      modifies this, elems
      ensures Valid() && freed == old(freed)
      ensures forall e <- elems :: e in old(elems) || fresh(e)
      ensures err == if data == NULL then InvalidParameter else if !mallocOk then FailureGeneral else Success
      ensures contents == (if err.Success? then [Item(data, dealloc)] else []) + old(contents)
    {
      if data == NULL {
        return InvalidParameter;
      }
      if !mallocOk {
        return FailureGeneral;
      }
      var elem := new ListElement(data, dealloc);
      var tmp := head;
      head := elem;
      elem.next := tmp;
      if tmp != null {
        tmp.prev := elem;
      } else {
        tail := elem;
      }
      elems, contents := [elem] + elems, [Item(data, dealloc)] + contents;
      return Success;
    }

    /** Takes the data at the tail. */
    method Remove() returns (err: LinkedListErr, data: Pointer)
      requires Valid()
      modifies this, elems
      ensures Valid() && freed == old(freed)
      ensures forall e <- elems :: e in old(elems)
      ensures err == if old(contents) == [] then UnavailableResource else Success
      ensures err.Success? ==> data == Last(old(contents)).data && contents == old(contents)[..|old(contents)| - 1]
      ensures !err.Success? ==> contents == old(contents)
    {
      if tail == null {
        return UnavailableResource, NULL;
      }
      var tmp := tail;
      ghost var n := |elems| - 1;
      OnlyAt(elems, n);
      OnlyAt(elems, n - 1);
      DistinctWithout(elems, n);
      assert elems[..n] + elems[n + 1..] == elems[..n];
      tail := tmp.prev;
      if tail != null {
        tail.next := null;
      } else {
        head := tail;
      }
      elems, contents := elems[..|elems| - 1], contents[..|elems| - 1];
      return Success, tmp.data;
    }

    method Empty() returns (empty: bool)
      requires Valid()
      ensures empty <==> contents == []
    { empty := head == null; }

    /** Empties the list, calling each deallocator once, from head to tail. */
    method Flush()
      requires Valid()
      modifies this
      ensures Valid() && contents == [] && elems == []
      ensures freed == old(freed) + Deallocated(old(contents))
    {
      ghost var (k, all) := (0, contents);
      assert all[k..] == all;
      while head != null
        invariant 0 <= k <= |all| == |old(elems)|
        invariant head == if k < |all| then old(elems)[k] else null
        invariant freed + Deallocated(all[k..]) == old(freed) + Deallocated(all)
        decreases |all| - k
      {
        DeallocatedStep(freed, all, k);
        var tmp := head.next;
        if head.dealloc {
          freed := freed + [head.data];
        }
        head := tmp;
        k := k + 1;
      }
      assert Deallocated(all[k..]) == [];
      tail, elems, contents := null, [], [];
    }

    /** Looks for the first match from the head.  `copyOut` says whether the caller
        gave a place for the data; `copied` is what was written to that place, if
        anything was. */
    method Search(equal: Pointer -> bool, copyOut: bool, rmIfFound: bool)
      returns (err: LinkedListErr, copied: Option<Pointer>)
      requires Valid()
      modifies this, elems
      ensures Valid() && (forall e <- elems :: e in old(elems))
      ensures err == if old(contents) == [] then UnavailableResource else Success
      ensures var all, i := old(contents), FirstMatch(old(contents), equal);
              && copied == (if !copyOut || all == [] then None else if i < |all| then Some(all[i].data) else Some(NULL))
              && contents == (if rmIfFound && i < |all| then all[..i] + all[i + 1..] else all)
              && freed == old(freed) + (if rmIfFound && i < |all| && !copyOut && all[i].dealloc then [all[i].data] else [])
    {
      copied := None;
      if tail == null {
        return UnavailableResource, copied;
      }
      var tmp := head;
      if copyOut {
        copied := Some(NULL);
      }
      ghost var (k, all) := (0, contents);
      while tmp != null
        invariant 0 <= k <= |all| && Valid() && elems == old(elems) && contents == all && freed == old(freed)
        invariant tmp == At(elems, k)
        invariant forall j :: 0 <= j < k ==> !equal(all[j].data)
        invariant copied == if copyOut then Some(NULL) else None
        decreases |all| - k
      {
        if equal(tmp.data) {
          if copyOut {
            copied := Some(tmp.data);
          }
          if rmIfFound {
            Unlink(tmp, k);
            if !copyOut && tmp.dealloc {
              freed := freed + [tmp.data];
            }
          }
          return Success, copied;
        }
        tmp := tmp.next;
        k := k + 1;
      }
      return Success, copied;
    }

    /** Links the element before this one past it. */
    method BypassForward(elem: ListElement, ghost k: nat)
      requires Distinct(elems) && Forward(elems) && Backward(elems) && k < |elems| && elem == elems[k]
      modifies this`head, elems`next
      ensures Forward(elems[..k] + elems[k + 1..]) && elem.next == old(elem.next)
    {
      OnlyAt(elems, k - 1);
      OnlyAt(elems, k);
      if elem.prev == null {
        head := elem.next;
      } else {
        elem.prev.next := elem.next;
      }
      ghost var s := elems[..k] + elems[k + 1..];
      forall i | 0 <= i < |s| ensures s[i].next == At(s, i + 1) {
        assert s[i] == elems[if i < k then i else i + 1];
      }
    }

    /** Links the element after this one back past it. */
    method BypassBackward(elem: ListElement, ghost k: nat)
      requires Distinct(elems) && Backward(elems) && k < |elems| && elem == elems[k] && elem.next == At(elems, k + 1)
      modifies this`tail, elems`prev
      ensures Backward(elems[..k] + elems[k + 1..])
    {
      OnlyAt(elems, k);
      OnlyAt(elems, k + 1);
      if elem.next == null {
        tail := elem.prev;
      } else {
        elem.next.prev := elem.prev;
      }
      ghost var s := elems[..k] + elems[k + 1..];
      forall i | 0 <= i < |s| ensures s[i].prev == At(s, i - 1) {
        assert s[i] == elems[if i < k then i else i + 1];
      }
    }

    /** Takes one element out, wherever it is. */
    method Unlink(elem: ListElement, ghost k: nat)
      requires Valid() && k < |elems| && elem == elems[k]
      modifies this`head, this`tail, this`elems, this`contents, elems
      ensures Valid() && elems == old(elems[..k] + elems[k + 1..])
      ensures contents == old(contents[..k] + contents[k + 1..])
    {
      ghost var (rest, items) := (elems[..k] + elems[k + 1..], contents[..k] + contents[k + 1..]);
      DistinctWithout(elems, k);
      NotLeft(elems, k);
      BypassForward(elem, k);
      BypassBackward(elem, k);
      elem.prev, elem.next := null, null;
      assert Forward(rest) && Backward(rest);
      assert forall i :: 0 <= i < |rest| ==> rest[i] == elems[if i < k then i else i + 1];
      elems, contents := rest, items;
    }
  }
}
