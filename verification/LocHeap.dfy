/** gps/utils/LocHeap.cpp: the pointer-based binary heap.  The ghost field
    `Shape` is the tree read off the pointers; every method is tied to the
    function of HeapSpec that says what it does to that tree. */
module LocHeap {
  import opened Wrappers
  import opened HeapSpec

  lemma TakenFrom<T>(top: T, mine: set<T>, others: set<T>, taken: set<T>)
    requires taken <= mine && top !in mine && mine !! others
    ensures {top} + (mine - taken) + others == {top} + mine + others - taken
    ensures {top} + others + (mine - taken) == {top} + others + mine - taken
    ensures taken <= {top} + mine + others - {top} && taken <= {top} + others + mine - {top} && top !in taken
  {}

  class LocHeapNode {
    var mSize: int
    var mLeft: LocHeapNode?
    var mRight: LocHeapNode?
    var mData: LocRankable
    ghost var Repr: set<LocHeapNode>
    ghost var Shape: Tree

    /** What holds of the two subtrees: well formed, apart, and without this node. */
    ghost predicate Below()
      reads this, mLeft, mRight, ReprOf(mLeft), ReprOf(mRight)
      decreases ReprOf(mLeft) + ReprOf(mRight), 2
    {
      && (mLeft != null ==> this !in mLeft.Repr && mLeft.Valid())
      && (mRight != null ==> this !in mRight.Repr && mRight.Valid())
      && ReprOf(mLeft) !! ReprOf(mRight)
    }

    ghost predicate Valid()
      reads this, Repr
      ensures Valid() ==> this in Repr && Shape.Node? && Shape.size == mSize && Shape.data == mData
      ensures Valid() ==> (mLeft != null <==> Shape.left.Node?) && (mRight != null <==> Shape.right.Node?)
      decreases Repr, 1
    {
      && this in Repr
      && (mLeft != null ==> mLeft in Repr && mLeft.Repr < Repr)
      && (mRight != null ==> mRight in Repr && mRight.Repr < Repr)
      && Repr == {this} + ReprOf(mLeft) + ReprOf(mRight)
      && this !in ReprOf(mLeft) + ReprOf(mRight)
      && Below()
      && Shape == Node(mSize, ShapeOf(mLeft), mData, ShapeOf(mRight))
    }

    /** Brings the ghost view up to date after a change in a subtree. */
    ghost method Refresh()
      requires Below()
      modifies this`Repr, this`Shape
      ensures Valid()
      ensures Repr == {this} + ReprOf(mLeft) + ReprOf(mRight)
      ensures Shape == Node(mSize, ShapeOf(mLeft), mData, ShapeOf(mRight))
    {
      Repr := {this} + ReprOf(mLeft) + ReprOf(mRight);
      Shape := Node(mSize, ShapeOf(mLeft), mData, ShapeOf(mRight));
    }

    static ghost function ReprOf(n: LocHeapNode?): set<LocHeapNode>
      reads n
    { if n == null then {} else n.Repr }

    static ghost function ShapeOf(n: LocHeapNode?): Tree
      reads n
    { if n == null then Leaf else n.Shape }

    constructor (data: LocRankable)
      ensures IsSingle() && mData == data
    {
      mSize, mLeft, mRight, mData := 1, null, null, data;
      Repr := {this};
      Shape := Node(1, Leaf, data, Leaf);
    }

    /** A node with nothing below it, as it is before push and after pop. */
    ghost predicate IsSingle()
      reads this
    { mSize == 1 && mLeft == null && mRight == null && Repr == {this} && Shape == Node(1, Leaf, mData, Leaf) }

    method Swap(node: LocHeapNode)
      modifies this`mData, node`mData
      ensures mData == old(node.mData) && node.mData == old(mData)
    {
      var tmpData := node.mData;
      node.mData := mData;
      mData := tmpData;
    }

    /** Swap with the top of a subtree, which stays well formed. */
    method SwapDown(sub: LocHeapNode)
      requires sub.Valid() && this !in sub.Repr
      modifies this`mData, sub`mData, sub`Shape, sub`Repr
      ensures sub.Valid() && sub.Repr == old(sub.Repr)
      ensures sub.Shape == old(sub.Shape).(data := old(mData)) && mData == old(sub.mData)
    {
      assert sub.Below();
      Swap(sub);
      sub.Refresh();
    }

    method Resize(delta: int)
      requires Valid()
      modifies this`mSize, this`Shape, this`Repr
      ensures Valid() && Repr == old(Repr)
      ensures Shape == old(Shape).(size := old(mSize) + delta)
    {
      mSize := mSize + delta;
      Refresh();
    }

    // Each of the following changes one subtree and brings the ghost view up to date.

    /** Swap data with the top of the left subtree. */
    method SwapLeft()
      requires Valid() && mLeft != null
      modifies this`mData, this`Shape, this`Repr, mLeft`mData, mLeft`Shape, mLeft`Repr
      ensures Valid() && Repr == old(Repr) && mLeft.Repr == old(mLeft.Repr)
      ensures Shape == old(Shape).(data := old(Shape).left.data, left := old(Shape).left.(data := old(mData)))
    {
      SwapDown(mLeft);
      assert mRight != null ==> mRight.Valid();
      Refresh();
    }

    /** Hangs a new node on the left: as the left child, or below it. */
    method PushLeft(node: LocHeapNode)
      requires Valid() && node.IsSingle() && node !in Repr
      modifies Repr, node`mData, node`Shape
      ensures Valid() && Repr == old(Repr) + {node} && mSize == old(mSize)
      ensures Shape == old(Shape).(left := HeapSpec.Push(old(Shape).left, old(node.mData)))
      decreases Repr, 0
    {
      ghost var (mine, others) := (ReprOf(mLeft), ReprOf(mRight));
      if mLeft == null {
        mLeft := node;
      } else {
        mLeft.Push(node);
      }
      assert ReprOf(mLeft) == mine + {node} && ReprOf(mRight) == others;
      Refresh();
    }

    method PopLeft() returns (popped: LocHeapNode)
      requires Valid() && mLeft != null
      modifies Repr
      ensures Valid() && popped in old(Repr) && popped != this && Repr == old(Repr) - {popped}
      ensures Shape == old(Shape).(left := HeapSpec.Pop(old(Shape).left))
      ensures popped.Detached(old(mLeft.mData))
      decreases Repr, 0
    {
      ghost var (mine, others) := (ReprOf(mLeft), ReprOf(mRight));
      var sub;
      sub, popped := Pop(mLeft);
      mLeft := sub;
      assert ReprOf(mLeft) == mine - {popped} && ReprOf(mRight) == others;
      Refresh();
    }

    method RemoveLeft(data: LocRankable) returns (removed: LocHeapNode?, ghost taken: set<LocHeapNode>)
      requires Valid() && mLeft != null
      modifies Repr
      ensures Valid() && mSize == old(mSize) && mRight == old(mRight)
      ensures Shape == old(Shape).(left := HeapSpec.Remove(old(Shape).left, data).0)
      ensures (removed != null) == HeapSpec.Remove(old(Shape).left, data).1
      ensures removed != null ==> removed.Detached(data)
      ensures taken == (if removed == null then {} else {removed}) && taken <= old(Repr) - {this} && Repr == old(Repr) - taken
      decreases Repr, 0
    {
      ghost var (mine, others) := (ReprOf(mLeft), ReprOf(mRight));
      var sub;
      sub, removed, taken := Remove(mLeft, data);
      mLeft := sub;
      assert mRight != null ==> mRight.Valid();
      TakenFrom(this, mine, others, taken);
      Refresh();
    }

    /** Swap data with the top of the right subtree. */
    method SwapRight()
      requires Valid() && mRight != null
      modifies this`mData, this`Shape, this`Repr, mRight`mData, mRight`Shape, mRight`Repr
      ensures Valid() && Repr == old(Repr) && mRight.Repr == old(mRight.Repr)
      ensures Shape == old(Shape).(data := old(Shape).right.data, right := old(Shape).right.(data := old(mData)))
    {
      SwapDown(mRight);
      assert mLeft != null ==> mLeft.Valid();
      Refresh();
    }

    /** Hangs a new node on the right: as the right child, or below it. */
    method PushRight(node: LocHeapNode)
      requires Valid() && node.IsSingle() && node !in Repr
      modifies Repr, node`mData, node`Shape
      ensures Valid() && Repr == old(Repr) + {node} && mSize == old(mSize)
      ensures Shape == old(Shape).(right := HeapSpec.Push(old(Shape).right, old(node.mData)))
      decreases Repr, 0
    {
      ghost var (mine, others) := (ReprOf(mRight), ReprOf(mLeft));
      if mRight == null {
        mRight := node;
      } else {
        mRight.Push(node);
      }
      assert ReprOf(mRight) == mine + {node} && ReprOf(mLeft) == others;
      Refresh();
    }

    method PopRight() returns (popped: LocHeapNode)
      requires Valid() && mRight != null
      modifies Repr
      ensures Valid() && popped in old(Repr) && popped != this && Repr == old(Repr) - {popped}
      ensures Shape == old(Shape).(right := HeapSpec.Pop(old(Shape).right))
      ensures popped.Detached(old(mRight.mData))
      decreases Repr, 0
    {
      ghost var (mine, others) := (ReprOf(mRight), ReprOf(mLeft));
      var sub;
      sub, popped := Pop(mRight);
      mRight := sub;
      assert ReprOf(mRight) == mine - {popped} && ReprOf(mLeft) == others;
      Refresh();
    }

    method RemoveRight(data: LocRankable) returns (removed: LocHeapNode?, ghost taken: set<LocHeapNode>)
      requires Valid() && mRight != null
      modifies Repr
      ensures Valid() && mSize == old(mSize) && mLeft == old(mLeft)
      ensures Shape == old(Shape).(right := HeapSpec.Remove(old(Shape).right, data).0)
      ensures (removed != null) == HeapSpec.Remove(old(Shape).right, data).1
      ensures removed != null ==> removed.Detached(data)
      ensures taken == (if removed == null then {} else {removed}) && taken <= old(Repr) - {this} && Repr == old(Repr) - taken
      decreases Repr, 0
    {
      ghost var (mine, others) := (ReprOf(mRight), ReprOf(mLeft));
      var sub;
      sub, removed, taken := Remove(mRight, data);
      mRight := sub;
      assert mLeft != null ==> mLeft.Valid();
      TakenFrom(this, mine, others, taken);
      Refresh();
    }

    method Push(node: LocHeapNode)
      requires Valid() && node.IsSingle() && node !in Repr
      modifies Repr, node`mData, node`Shape
      ensures Valid() && Repr == old(Repr) + {node}
      ensures Shape == HeapSpec.Push(old(Shape), old(node.mData))
      decreases Repr, 2
    {
      if node.mData.OutRanks(mData) {
        Swap(node);
        node.Shape := Node(1, Leaf, node.mData, Leaf);
        Refresh();
      }
      Drop(node);
    }

    /** Drops a node, by now ranked no higher than this one, into a subtree. */
    method Drop(node: LocHeapNode)
      requires Valid() && node.IsSingle() && node !in Repr
      modifies Repr, node`mData, node`Shape
      ensures Valid() && Repr == old(Repr) + {node}
      ensures Shape == HeapSpec.Drop(old(Shape), old(node.mData))
      decreases Repr, 1
    {
      if mLeft == null {
        PushLeft(node);
      } else if mRight == null {
        PushRight(node);
      } else if mLeft.mSize <= mRight.mSize {
        PushLeft(node);
      } else {
        PushRight(node);
      }
      Resize(1);
    }

    /** A popped node: it carries the data and heads no subtree, so deleting it
        deletes nothing else. */
    ghost predicate Detached(data: LocRankable)
      reads this
    { mData == data && mLeft == null && mRight == null }

    /** Sinks the top's data to a leaf, unlinks that leaf and returns it. */
    static method Pop(top: LocHeapNode) returns (rest: LocHeapNode?, popped: LocHeapNode)
      requires top.Valid()
      modifies top.Repr
      ensures rest == null || (rest == top && rest.Valid())
      ensures ShapeOf(rest) == HeapSpec.Pop(old(top.Shape))
      ensures popped in old(top.Repr) && ReprOf(rest) == old(top.Repr) - {popped}
      ensures popped.Detached(old(top.mData))
      decreases top.Repr, 1
    {
      top.Resize(-1);
      if top.mLeft != null || top.mRight != null {
        if top.mLeft != null && (top.mRight == null || top.mLeft.mData.OutRanks(top.mRight.mData)) {
          top.SwapLeft();
          popped := top.PopLeft();
        } else {
          top.SwapRight();
          popped := top.PopRight();
        }
        rest := top;
      } else {
        rest, popped := null, top;
      }
    }

    /** Depth-first search for the node holding `data`, skipping subtrees whose
        top it outranks; pops it where it is found. */
    static method Remove(top: LocHeapNode, data: LocRankable)
      returns (rest: LocHeapNode?, removed: LocHeapNode?, ghost taken: set<LocHeapNode>)
      requires top.Valid()
      modifies top.Repr
      ensures rest == null || (rest == top && rest.Valid())
      ensures ShapeOf(rest) == HeapSpec.Remove(old(top.Shape), data).0
      ensures (removed != null) == HeapSpec.Remove(old(top.Shape), data).1
      ensures removed != null ==> removed.Detached(data)
      ensures taken == (if removed == null then {} else {removed}) && taken <= old(top.Repr)
      ensures ReprOf(rest) == old(top.Repr) - taken
      decreases top.Repr, 2
    {
      rest, removed, taken := top, null, {};
      if data == top.mData {
        rest, removed := Pop(top);
        taken := {removed};
      } else if !data.OutRanks(top.mData) {
        if top.mLeft != null {
          removed, taken := top.RemoveLeft(data);
        }
        if removed == null && top.mRight != null {
          removed, taken := top.RemoveRight(data);
        }
        if removed != null {
          top.Resize(-1);
        }
      }
    }

    /** Only reads: recorded sizes add up and no child outranks its parent. */
    method CheckNodes() returns (ok: bool)
      requires Valid()
      ensures ok == HeapSpec.CheckNodes(Shape) == IsHeap(Shape)
      decreases Repr
    {
      CheckNodesIffHeap(Shape);
      var totalSize := mSize;
      if mLeft != null {
        var leftOk := mLeft.CheckNodes();
        if mLeft.mData.OutRanks(mData) || !leftOk { return false; }
        totalSize := totalSize - mLeft.mSize;
      }
      if mRight != null {
        var rightOk := mRight.CheckNodes();
        if mRight.mData.OutRanks(mData) || !rightOk { return false; }
        totalSize := totalSize - mRight.mSize;
      }
      return totalSize == 1;
    }
  }

  class LocHeap {
    var mTree: LocHeapNode?

    ghost function Nodes(): set<LocHeapNode>
      reads this, mTree
    { LocHeapNode.ReprOf(mTree) }

    ghost function Shape(): Tree
      reads this, mTree
    { LocHeapNode.ShapeOf(mTree) }

    /** What the heap holds. */
    ghost function Contents(): multiset<LocRankable>
      reads this, mTree
    { Elems(Shape()) }

    ghost predicate Valid()
      reads this, mTree, Nodes()
    { (mTree != null ==> mTree.Valid()) && IsHeap(Shape()) }

    constructor ()
      ensures Valid() && Contents() == multiset{} && Shape() == Leaf && Nodes() == {}
    { mTree := null; }

    method Push(data: LocRankable)
      requires Valid()
      modifies this, Nodes()
      ensures Valid() && fresh(Nodes() - old(Nodes()))
      ensures Shape() == HeapSpec.Push(old(Shape()), data)
      ensures Contents() == old(Contents()) + multiset{data}
    {
      PushKeepsHeap(Shape(), data);
      PushAddsOne(Shape(), data);
      var heapNode := new LocHeapNode(data);
      if mTree == null {
        mTree := heapNode;
      } else {
        mTree.Push(heapNode);
      }
    }

    /** The rankable nothing in the heap outranks, or null from an empty heap. */
    method Peek() returns (top: Option<LocRankable>)
      requires Valid()
      ensures top.None? <==> Contents() == multiset{}
      ensures top == if Shape().Node? then Some(Shape().data) else None
      ensures top.Some? ==> top.value in Contents()
      ensures top.Some? ==> forall e <- Contents() :: !e.OutRanks(top.value)
    {
      if mTree == null { return None; }
      TopOutranks(Shape());
      assert mTree.mData in Contents();
      return Some(mTree.mData);
    }

    method Pop() returns (top: Option<LocRankable>)
      requires Valid()
      modifies this, Nodes()
      ensures Valid() && Nodes() <= old(Nodes())
      ensures top.None? <==> old(Contents()) == multiset{}
      ensures top.None? ==> Shape() == old(Shape())
      ensures top.Some? ==> old(Shape()).Node? && Shape() == HeapSpec.Pop(old(Shape()))
      ensures top.Some? ==> top.value == old(Shape()).data
      ensures top.Some? ==> old(Contents()) == Contents() + multiset{top.value}
      ensures top.Some? ==> forall e <- Contents() :: !e.OutRanks(top.value)
    {
      if mTree == null { return None; }
      TopOutranks(Shape());
      PopTakesTop(Shape());
      PopKeepsHeap(Shape());
      var heapNode;
      mTree, heapNode := LocHeapNode.Pop(mTree);
      return Some(heapNode.mData);
    }

    /** The pointer work of remove: unlink the node found, if any. */
    method Unlink(data: LocRankable) returns (found: bool)
      requires mTree != null && mTree.Valid()
      modifies this, Nodes()
      ensures (mTree != null ==> mTree.Valid()) && Nodes() <= old(Nodes())
      ensures (Shape(), found) == HeapSpec.Remove(old(Shape()), data)
    {
      var heapNode;
      ghost var taken;
      mTree, heapNode, taken := LocHeapNode.Remove(mTree, data);
      found := heapNode != null;
    }

    /** Takes out exactly the given object; null exactly when it was not there. */
    method Remove(data: LocRankable) returns (found: Option<LocRankable>)
      requires Valid()
      modifies this, Nodes()
      ensures Valid() && Nodes() <= old(Nodes())
      ensures (Shape(), found.Some?) == HeapSpec.Remove(old(Shape()), data)
      ensures found == if data in old(Contents()) then Some(data) else None
      ensures found.Some? ==> old(Contents()) == Contents() + multiset{data}
      ensures found.None? ==> Shape() == old(Shape())
    {
      RemoveExact(Shape(), data);
      RemoveKeepsHeap(Shape(), data);
      if mTree == null { return None; }
      var unlinked := Unlink(data);
      found := if unlinked then Some(data) else None;
    }
  }
}
