/** The heap of gps/utils/LocHeap.cpp as a value: what push, pop and remove do to
    the shape of the tree, the recorded sizes and the rankables it holds.  The
    classes in LocHeap.dfy are proved to follow these functions node by node. */
module HeapSpec {

  /** An object that can be ranked.  `id` stands for its address; `key` is what
      its `ranks` method compares (a deadline for a timer), fixed at construction. */
  datatype LocRankable = LocRankable(id: nat, key: int) {
    function Ranks(other: LocRankable): int { other.key - key }
    predicate OutRanks(other: LocRankable) { Ranks(other) > 0 }
  }

  /** `size` is the field the code maintains, not the number of nodes. */
  datatype Tree = Leaf | Node(size: int, left: Tree, data: LocRankable, right: Tree)

  function SizeOf(t: Tree): int { if t.Leaf? then 0 else t.size }

  function Elems(t: Tree): multiset<LocRankable> {
    match t
    case Leaf => multiset{}
    case Node(_, l, d, r) => Elems(l) + multiset{d} + Elems(r)
  }

  function Height(t: Tree): nat {
    match t
    case Leaf => 0
    case Node(_, l, _, r) => 1 + if Height(l) < Height(r) then Height(r) else Height(l)
  }

  // ----- the three operations and the self-check, branch by branch -----

  /** Where push puts what: the new top, what goes down, and on which side. */
  function GoesUp(t: Tree, x: LocRankable): LocRankable
    requires t.Node?
  { if x.OutRanks(t.data) then x else t.data }

  function GoesDown(t: Tree, x: LocRankable): LocRankable
    requires t.Node?
  { if x.OutRanks(t.data) then t.data else x }

  predicate PushesLeft(t: Tree)
    requires t.Node?
  { t.left.Leaf? || (t.right.Node? && t.left.size <= t.right.size) }

  /** Drops `x` into the tree: the lower ranked of `x` and the top goes down,
      into the left subtree unless that one is recorded as larger. */
  function Push(t: Tree, x: LocRankable): Tree {
    if t.Leaf? then Node(1, Leaf, x, Leaf)
    else if PushesLeft(t)
    then Node(t.size + 1, Push(t.left, GoesDown(t, x)), GoesUp(t, x), t.right)
    else Node(t.size + 1, t.left, GoesUp(t, x), Push(t.right, GoesDown(t, x)))
  }

  /** The second half of push, when the top is already the higher ranked. */
  function Drop(t: Tree, x: LocRankable): Tree
    requires t.Node?
  {
    if PushesLeft(t) then Node(t.size + 1, Push(t.left, x), t.data, t.right)
    else Node(t.size + 1, t.left, t.data, Push(t.right, x))
  }

  /** Whether pop refills the top from its left subtree. */
  predicate RefillFromLeft(l: Tree, r: Tree) {
    l.Node? && (r.Leaf? || l.data.OutRanks(r.data))
  }

  /** What is left once the top rankable has sunk to a leaf and gone. */
  function Pop(t: Tree): Tree
    requires t.Node?
  {
    if t.left.Leaf? && t.right.Leaf? then Leaf
    else if RefillFromLeft(t.left, t.right)
    then Node(t.size - 1, Pop(t.left), t.left.data, t.right)
    else Node(t.size - 1, t.left, t.right.data, Pop(t.right))
  }

  /** Search from the top, skipping subtrees whose top `x` outranks. */
  function Remove(t: Tree, x: LocRankable): (res: (Tree, bool)) {
    match t
    case Leaf => (t, false)
    case Node(s, l, d, r) =>
      if x == d then (Pop(t), true)
      else if x.OutRanks(d) then (t, false)
      else
        var (l', inLeft) := Remove(l, x);
        if inLeft then (Node(s - 1, l', d, r), true)
        else
          var (r', inRight) := Remove(r, x);
          if inRight then (Node(s - 1, l, d, r'), true) else (t, false)
  }

  predicate CheckNodes(t: Tree) {
    match t
    case Leaf => true
    case Node(s, l, d, r) =>
      && (l.Node? ==> !l.data.OutRanks(d) && CheckNodes(l))
      && (r.Node? ==> !r.data.OutRanks(d) && CheckNodes(r))
      && s - SizeOf(l) - SizeOf(r) == 1
  }

  // ----- what a heap is, independently of how it is checked -----

  function Count(t: Tree): nat {
    match t
    case Leaf => 0
    case Node(_, l, _, r) => Count(l) + 1 + Count(r)
  }

  /** Nothing in the tree, however deep, outranks `d`. */
  ghost predicate NoneOutranks(t: Tree, d: LocRankable) {
    match t
    case Leaf => true
    case Node(_, l, e, r) => !e.OutRanks(d) && NoneOutranks(l, d) && NoneOutranks(r, d)
  }

  /** Nothing below a node outranks it. */
  ghost predicate Ordered(t: Tree) {
    match t
    case Leaf => true
    case Node(_, l, d, r) =>
      NoneOutranks(l, d) && NoneOutranks(r, d) && Ordered(l) && Ordered(r)
  }

  /** Every recorded size is the number of nodes at or below that node. */
  ghost predicate Sized(t: Tree) {
    match t
    case Leaf => true
    case Node(s, l, _, r) => s == Count(t) && Sized(l) && Sized(r)
  }

  ghost predicate IsHeap(t: Tree) { Ordered(t) && Sized(t) }

  lemma NoneOutranksTransitive(t: Tree, d: LocRankable, e: LocRankable)
    requires NoneOutranks(t, d) && !d.OutRanks(e)
    ensures NoneOutranks(t, e)
  {}

  lemma {:induction false} NoneOutranksMeans(t: Tree, d: LocRankable)
    ensures NoneOutranks(t, d) <==> forall e <- Elems(t) :: !e.OutRanks(d)
  {
    if t.Node? {
      NoneOutranksMeans(t.left, d);
      NoneOutranksMeans(t.right, d);
      forall e ensures e in Elems(t) <==> e in Elems(t.left) || e == t.data || e in Elems(t.right) {}
    }
  }

  lemma {:induction false} CountIsCardinality(t: Tree)
    ensures |Elems(t)| == Count(t)
  {
    if t.Node? {
      CountIsCardinality(t.left);
      CountIsCardinality(t.right);
    }
  }

  /** The recursive local check of the code decides the global property. */
  lemma {:induction false} CheckNodesIffHeap(t: Tree)
    ensures CheckNodes(t) <==> IsHeap(t)
  {
    if t.Node? {
      CheckNodesIffHeap(t.left);
      CheckNodesIffHeap(t.right);
      CheckSubtree(t.left, t.data);
      CheckSubtree(t.right, t.data);
    }
  }

  lemma CheckSubtree(t: Tree, d: LocRankable)
    ensures Sized(t) ==> SizeOf(t) == Count(t)
    ensures Ordered(t) ==> (NoneOutranks(t, d) <==> (t.Node? ==> !t.data.OutRanks(d)))
  {
    if t.Node? && Ordered(t) && !t.data.OutRanks(d) {
      NoneOutranksTransitive(t.left, t.data, d);
      NoneOutranksTransitive(t.right, t.data, d);
    }
  }

  /** In an ordered tree the top is of highest rank. */
  lemma TopOutranks(t: Tree)
    requires t.Node? && Ordered(t)
    ensures forall e <- Elems(t) :: !e.OutRanks(t.data)
  {
    NoneOutranksMeans(t, t.data);
  }

  // ----- push -----

  /** Multiset bookkeeping, kept away from the trees. */
  lemma Regroup<T>(a: multiset<T>, b: multiset<T>, up: T, down: T, d: T, x: T)
    requires (up == x && down == d) || (up == d && down == x)
    ensures (a + multiset{down}) + multiset{up} + b == a + multiset{d} + b + multiset{x}
    ensures a + multiset{up} + (b + multiset{down}) == a + multiset{d} + b + multiset{x}
  {}

  lemma RegroupRemoved<T>(a: multiset<T>, b: multiset<T>, d: T, x: multiset<T>)
    ensures (a + x) + multiset{d} + b == a + multiset{d} + b + x
    ensures a + multiset{d} + (b + x) == a + multiset{d} + b + x
  {}

  lemma {:induction false} PushAddsOne(t: Tree, x: LocRankable)
    ensures Elems(Push(t, x)) == Elems(t) + multiset{x}
    ensures Count(Push(t, x)) == Count(t) + 1
  {
    PushAddsOneNode(t, x);
    if t.Node? {
      var (l, r) := (t.left, t.right);
      var (up, down) := (GoesUp(t, x), GoesDown(t, x));
      Regroup(Elems(l), Elems(r), up, down, t.data, x);
      if PushesLeft(t) {
        PushAddsOne(l, down);
      } else {
        PushAddsOne(r, down);
      }
    }
  }

  lemma {:induction false} PushAddsOneNode(t: Tree, x: LocRankable)
    ensures Count(Push(t, x)) == Count(t) + 1
  {
    if t.Node? {
      if PushesLeft(t) { PushAddsOneNode(t.left, GoesDown(t, x)); } else { PushAddsOneNode(t.right, GoesDown(t, x)); }
    }
  }

  lemma {:induction false} PushNoneOutranks(t: Tree, x: LocRankable, d: LocRankable)
    requires NoneOutranks(t, d) && !x.OutRanks(d)
    ensures NoneOutranks(Push(t, x), d)
  {
    if t.Node? {
      if PushesLeft(t) {
        PushNoneOutranks(t.left, GoesDown(t, x), d);
      } else {
        PushNoneOutranks(t.right, GoesDown(t, x), d);
      }
    }
  }

  lemma {:induction false} PushKeepsHeap(t: Tree, x: LocRankable)
    requires IsHeap(t)
    ensures IsHeap(Push(t, x))
  {
    PushAddsOne(t, x);
    if t.Node? {
      var (up, down) := (GoesUp(t, x), GoesDown(t, x));
      NoneOutranksTransitive(t.left, t.data, up);
      NoneOutranksTransitive(t.right, t.data, up);
      if PushesLeft(t) {
        PushKeepsHeap(t.left, down);
        PushNoneOutranks(t.left, down, up);
      } else {
        PushKeepsHeap(t.right, down);
        PushNoneOutranks(t.right, down, up);
      }
    }
  }

  /** The top changes exactly when the newcomer strictly outranks it. */
  lemma PushTop(t: Tree, x: LocRankable)
    ensures Push(t, x).Node?
    ensures Push(t, x).data == if t.Node? && !x.OutRanks(t.data) then t.data else x
  {}

  // ----- pop -----

  lemma {:induction false} PopTakesTop(t: Tree)
    requires t.Node?
    ensures Elems(t) == Elems(Pop(t)) + multiset{t.data}
    ensures Count(t) == Count(Pop(t)) + 1
  {
    if t.left.Leaf? && t.right.Leaf? {
    } else if RefillFromLeft(t.left, t.right) {
      PopTakesTop(t.left);
    } else {
      PopTakesTop(t.right);
    }
  }

  lemma {:induction false} PopNoneOutranks(t: Tree, d: LocRankable)
    requires t.Node? && NoneOutranks(t, d)
    ensures NoneOutranks(Pop(t), d)
  {
    if t.left.Leaf? && t.right.Leaf? {
    } else if RefillFromLeft(t.left, t.right) {
      PopNoneOutranks(t.left, d);
    } else {
      PopNoneOutranks(t.right, d);
    }
  }

  lemma {:induction false} PopKeepsHeap(t: Tree)
    requires t.Node? && IsHeap(t)
    ensures IsHeap(Pop(t))
  {
    PopTakesTop(t);
    if t.left.Leaf? && t.right.Leaf? {
    } else if RefillFromLeft(t.left, t.right) {
      PopKeepsHeap(t.left);
      CheckSubtree(t.left, t.left.data);
      PopNoneOutranks(t.left, t.left.data);
      CheckSubtree(t.right, t.left.data);
    } else {
      PopKeepsHeap(t.right);
      CheckSubtree(t.right, t.right.data);
      PopNoneOutranks(t.right, t.right.data);
      CheckSubtree(t.left, t.right.data);
    }
  }

  // ----- remove -----

  lemma {:induction false} RemoveNoneOutranks(t: Tree, x: LocRankable, d: LocRankable)
    requires NoneOutranks(t, d)
    ensures NoneOutranks(Remove(t, x).0, d)
  {
    if t.Node? {
      if x == t.data {
        PopNoneOutranks(t, d);
      } else {
        RemoveNoneOutranks(t.left, x, d);
        RemoveNoneOutranks(t.right, x, d);
      }
    }
  }

  lemma {:induction false} RemoveKeepsHeap(t: Tree, x: LocRankable)
    requires IsHeap(t)
    ensures IsHeap(Remove(t, x).0)
    ensures Count(t) == Count(Remove(t, x).0) + if Remove(t, x).1 then 1 else 0
    ensures !Remove(t, x).1 ==> Remove(t, x).0 == t
  {
    if t.Node? {
      if x == t.data {
        PopKeepsHeap(t);
        PopTakesTop(t);
      } else {
        RemoveKeepsHeap(t.left, x);
        RemoveKeepsHeap(t.right, x);
        RemoveNoneOutranks(t.left, x, t.data);
        RemoveNoneOutranks(t.right, x, t.data);
      }
    }
  }

  /** Despite the pruning, remove finds exactly what the heap holds, takes out
      that one rankable and leaves a failed search without a trace. */
  lemma {:induction false} RemoveExact(t: Tree, x: LocRankable)
    requires IsHeap(t)
    ensures Remove(t, x).1 <==> x in Elems(t)
    ensures Remove(t, x).1 ==> Elems(t) == Elems(Remove(t, x).0) + multiset{x}
    ensures x !in Elems(t) ==> Remove(t, x).0 == t
  {
    RemoveKeepsHeap(t, x);
    if t.Node? {
      if x == t.data {
        PopTakesTop(t);
      } else if x.OutRanks(t.data) {
        TopOutranks(t);
      } else {
        RemoveExact(t.left, x);
        RemoveExact(t.right, x);
        RegroupRemoved(Elems(Remove(t.left, x).0), Elems(t.right), t.data, multiset{x});
        RegroupRemoved(Elems(t.left), Elems(Remove(t.right, x).0), t.data, multiset{x});
      }
    }
  }

  /** Only removing the top itself can change the top. */
  lemma RemoveKeepsTop(t: Tree, x: LocRankable)
    requires t.Node? && t.data != x
    ensures Remove(t, x).0.Node? && Remove(t, x).0.data == t.data
  {}

  // ----- any sequence of pushes -----

  function PushAll(t: Tree, xs: seq<LocRankable>): Tree {
    if xs == [] then t else Push(PushAll(t, xs[..|xs| - 1]), xs[|xs| - 1])
  }

  lemma {:induction false} PushAllIsHeap(t: Tree, xs: seq<LocRankable>)
    requires IsHeap(t)
    ensures IsHeap(PushAll(t, xs))
    ensures Count(PushAll(t, xs)) == Count(t) + |xs|
  {
    if xs != [] {
      var k := |xs| - 1;
      PushAllIsHeap(t, xs[..k]);
      PushKeepsHeap(PushAll(t, xs[..k]), xs[k]);
      PushAddsOne(PushAll(t, xs[..k]), xs[k]);
    }
  }

  lemma {:induction false} PushAllHolds(xs: seq<LocRankable>)
    ensures Elems(PushAll(Leaf, xs)) == multiset(xs)
  {
    if xs != [] {
      var k := |xs| - 1;
      PushAllHolds(xs[..k]);
      PushAddsOne(PushAll(Leaf, xs[..k]), xs[k]);
      assert xs == xs[..k] + [xs[k]];
    }
  }

  /** At every node the left subtree holds as many as the right, or one more. */
  ghost predicate Balanced(t: Tree) {
    match t
    case Leaf => true
    case Node(_, l, _, r) =>
      0 <= Count(l) - Count(r) <= 1 && Balanced(l) && Balanced(r)
  }

  lemma {:induction false} PushKeepsBalance(t: Tree, x: LocRankable)
    requires IsHeap(t) && Balanced(t)
    ensures Balanced(Push(t, x))
  {
    PushAddsOne(t, x);
    if t.Node? {
      var down := GoesDown(t, x);
      CheckSubtree(t.left, t.data);
      CheckSubtree(t.right, t.data);
      if PushesLeft(t) {
        PushKeepsBalance(t.left, down);
        PushAddsOne(t.left, down);
      } else {
        PushKeepsBalance(t.right, down);
        PushAddsOne(t.right, down);
      }
    }
  }

  lemma {:induction false} PushAllBalanced(xs: seq<LocRankable>)
    ensures Balanced(PushAll(Leaf, xs))
  {
    if xs != [] {
      var k := |xs| - 1;
      PushAllBalanced(xs[..k]);
      PushAllIsHeap(Leaf, xs[..k]);
      PushKeepsBalance(PushAll(Leaf, xs[..k]), xs[k]);
    }
  }

  function Pow2(n: nat): nat { if n == 0 then 1 else 2 * Pow2(n - 1) }

  lemma {:induction false} BalancedIsShallow(t: Tree)
    requires Balanced(t) && t.Node?
    ensures Pow2(Height(t) - 1) <= Count(t)
  {
    if t.left.Node? { BalancedIsShallow(t.left); }
    if t.right.Node? { BalancedIsShallow(t.right); }
  }

  /** A heap built by pushes alone has height at most 1 + log2 of what it holds. */
  lemma PushAllIsShallow(xs: seq<LocRankable>)
    requires xs != []
    ensures Pow2(Height(PushAll(Leaf, xs)) - 1) <= |xs|
  {
    PushAllBalanced(xs);
    PushAllIsHeap(Leaf, xs);
    BalancedIsShallow(PushAll(Leaf, xs));
  }

  // ----- heapsort: pop until nothing is left -----

  ghost function PopAll(t: Tree): seq<LocRankable>
    decreases Count(t)
  {
    if t.Leaf? then []
    else
      PopTakesTop(t);
      [t.data] + PopAll(Pop(t))
  }

  ghost predicate SortedByRank(s: seq<LocRankable>) {
    forall i, j :: 0 <= i < j < |s| ==> !s[j].OutRanks(s[i])
  }

  lemma {:induction false} PopAllHolds(t: Tree)
    ensures multiset(PopAll(t)) == Elems(t)
    decreases Count(t)
  {
    if t.Node? {
      PopTakesTop(t);
      PopAllHolds(Pop(t));
    }
  }

  lemma {:induction false} PopAllSorts(t: Tree)
    requires IsHeap(t)
    ensures SortedByRank(PopAll(t))
    decreases Count(t)
  {
    if t.Node? {
      PopTakesTop(t);
      PopKeepsHeap(t);
      var rest := PopAll(Pop(t));
      PopAllSorts(Pop(t));
      forall j | 0 <= j < |rest| ensures !rest[j].OutRanks(t.data) {
        PopAllHolds(Pop(t));
        assert rest[j] in multiset(rest);
        TopOutranks(t);
      }
    }
  }

  /** Pushing any rankables and popping until null sorts them by rank. */
  lemma HeapSort(xs: seq<LocRankable>)
    ensures multiset(PopAll(PushAll(Leaf, xs))) == multiset(xs)
    ensures SortedByRank(PopAll(PushAll(Leaf, xs)))
  {
    PushAllIsHeap(Leaf, xs);
    PushAllHolds(xs);
    PopAllHolds(PushAll(Leaf, xs));
    PopAllSorts(PushAll(Leaf, xs));
  }
}
