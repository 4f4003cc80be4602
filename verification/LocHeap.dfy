/** The pointer-based heap, mutated in place. Every method is proved to leave the tree
    that the function of the same name in HeapTree computes. A parameter that the
    program passes as a reference to a pointer becomes an extra result. */
module LocHeap {
  import opened Wrappers
  import T = HeapTree
  type Rankable = T.Rankable

  /** Which node objects make up a tree, and how they hang together. */
  datatype Shape = Nil | Cell(node: LocHeapNode, left: Shape, right: Shape)

  ghost function Nodes(sh: Shape): set<LocHeapNode> {
    match sh
    case Nil => {}
    case Cell(n, l, r) => {n} + Nodes(l) + Nodes(r)
  }

  /** No node object occurs twice. */
  ghost predicate Distinct(sh: Shape) {
    match sh
    case Nil => true
    case Cell(n, l, r) =>
      && n !in Nodes(l) && n !in Nodes(r) && Nodes(l) !! Nodes(r)
      && Distinct(l) && Distinct(r)
  }

  /** The pointers below top follow the shape. */
  ghost predicate Linked(top: LocHeapNode?, sh: Shape)
    reads Nodes(sh)
  {
    match sh
    case Nil => top == null
    case Cell(n, l, r) => top == n && Linked(n.mLeft, l) && Linked(n.mRight, r)
  }

  /** The tree value the nodes of a shape hold. */
  ghost function Abs(sh: Shape): T.Tree
    reads Nodes(sh)
  {
    match sh
    case Nil => T.Leaf
    case Cell(n, l, r) => T.Node(n.mData, n.mSize, Abs(l), Abs(r))
  }

  class LocHeapNode {
    var mSize: int
    var mLeft: LocHeapNode?
    var mRight: LocHeapNode?
    var mData: Rankable

    constructor (data: Rankable)
      ensures mSize == 1 && mLeft == null && mRight == null && mData == data
    {
      mSize, mLeft, mRight, mData := 1, null, null, data;
    }

    /** Drops a fresh single node into this subtree; only data move, no link changes
        except the one that takes the new node. */
    method Push(node: LocHeapNode, ghost sh: Shape, ghost repr: set<LocHeapNode>) returns (ghost sh': Shape)
      requires sh.Cell? && Distinct(sh) && Linked(this, sh) && Nodes(sh) <= repr && node !in repr
      requires node.mSize == 1 && node.mLeft == null && node.mRight == null
      modifies Nodes(sh), node
      ensures Distinct(sh') && Linked(this, sh') && Nodes(sh') == Nodes(sh) + {node}
      ensures Abs(sh') == T.Push(old(Abs(sh)), old(node.mData))
      decreases sh, 1
    {
      if node.mData.OutRanks(mData) {
        mData, node.mData := node.mData, mData;
      }
      assert Linked(mLeft, sh.left) && Linked(mRight, sh.right);
      assert Abs(sh.left) == old(Abs(sh.left)) && Abs(sh.right) == old(Abs(sh.right));
      sh' := Sink(node, sh, repr);
    }

    /** Hands a node that does not outrank this one to the subtree that takes it. */
    method Sink(node: LocHeapNode, ghost sh: Shape, ghost repr: set<LocHeapNode>) returns (ghost sh': Shape)
      requires sh.Cell? && Distinct(sh) && Linked(this, sh) && Nodes(sh) <= repr && node !in repr
      requires node.mSize == 1 && node.mLeft == null && node.mRight == null
      modifies Nodes(sh), node
      ensures Distinct(sh') && Linked(this, sh') && Nodes(sh') == Nodes(sh) + {node}
      ensures Abs(sh') == SinkResult(old(Abs(sh)), old(node.mData))
      decreases sh, 0
    {
      ghost var l, r := sh.left, sh.right;
      ghost var tl, tr := Abs(l), Abs(r);
      if mLeft == null {
        mLeft := node;
        l := Cell(node, Nil, Nil);
        tl := T.Push(tl, node.mData);
      } else if mRight == null {
        mRight := node;
        r := Cell(node, Nil, Nil);
        tr := T.Push(tr, node.mData);
      } else if mLeft.mSize <= mRight.mSize {
        tl := T.Push(tl, node.mData);
        l := mLeft.Push(node, l, repr);
      } else {
        tr := T.Push(tr, node.mData);
        r := mRight.Push(node, r, repr);
      }
      assert Abs(l) == tl && Abs(r) == tr;
      assert Linked(mLeft, l) && Linked(mRight, r);
      assert T.Node(mData, mSize + 1, tl, tr) == SinkResult(old(Abs(sh)), old(node.mData));
      mSize := mSize + 1;
      assert Abs(l) == tl && Abs(r) == tr;
      assert Linked(mLeft, l) && Linked(mRight, r);
      sh' := Cell(this, l, r);
    }

    /** Swaps the data of this node and of the top of a subtree below it. */
    method Swap(node: LocHeapNode, ghost sh: Shape)
      requires sh.Cell? && Distinct(sh) && Linked(node, sh) && this !in Nodes(sh)
      modifies this`mData, node`mData
      ensures mData == old(node.mData) && node.mData == old(mData)
      ensures Linked(node, sh) && Abs(sh) == WithTop(old(Abs(sh)), old(mData))
    {
      mData, node.mData := node.mData, mData;
    }

    /** Swaps the top data all the way down to a leaf node and unlinks that node. The
        result is the new top, null if the only node went, and the unlinked node,
        which now holds the data the top held. */
    static method Pop(top: LocHeapNode, ghost sh: Shape, ghost repr: set<LocHeapNode>)
      returns (newTop: LocHeapNode?, popped: LocHeapNode, ghost sh': Shape)
      requires sh.Cell? && Distinct(sh) && Linked(top, sh) && Nodes(sh) <= repr
      modifies Nodes(sh)
      ensures Distinct(sh') && Linked(newTop, sh')
      ensures popped in Nodes(sh) && Nodes(sh') == Nodes(sh) - {popped}
      ensures Abs(sh') == T.Pop(old(Abs(sh)))
      ensures popped.HoldsAlone(old(top.mData))
      decreases sh, 0
    {
      ghost var l, r := sh.left, sh.right;
      ghost var tl, tr := Abs(l), Abs(r);
      assert T.Pop(Abs(sh)) ==
             if tl.Leaf? && tr.Leaf? then T.Leaf
             else if T.PopsLeft(Abs(sh)) then T.Node(tl.data, top.mSize - 1, T.Pop(tl), tr)
             else T.Node(tr.data, top.mSize - 1, tl, T.Pop(tr));
      hide T.Pop;
      top.mSize := top.mSize - 1;
      if top.mLeft != null || top.mRight != null {
        assert Linked(top.mLeft, l) && Linked(top.mRight, r) && Abs(l) == tl && Abs(r) == tr;
        var p;
        if top.mLeft != null && (top.mRight == null || top.mLeft.mData.OutRanks(top.mRight.mData)) {
          assert T.PopsLeft(old(Abs(sh)));
          p, popped, l := top.Promote(top.mLeft, l, repr - {top});
          top.mLeft := p;
          tl := T.Pop(tl);
          assert Abs(l) == tl && Abs(r) == tr && Linked(top.mLeft, l) && Linked(top.mRight, r);
        } else {
          assert !T.PopsLeft(old(Abs(sh)));
          p, popped, r := top.Promote(top.mRight, r, repr - {top});
          top.mRight := p;
          tr := T.Pop(tr);
          assert Abs(l) == tl && Abs(r) == tr && Linked(top.mLeft, l) && Linked(top.mRight, r);
        }
        newTop := top;
        sh' := Cell(top, l, r);
      } else {
        newTop, popped := null, top;
        sh' := Nil;
      }
    }

    /** Takes over the data of the top of a subtree and pops this node's old data out of
        that subtree. */
    method Promote(sub: LocHeapNode, ghost sh: Shape, ghost repr: set<LocHeapNode>)
      returns (newSub: LocHeapNode?, popped: LocHeapNode, ghost sh': Shape)
      requires sh.Cell? && Distinct(sh) && Linked(sub, sh) && Nodes(sh) <= repr && this !in repr
      modifies Nodes(sh), this`mData
      ensures Distinct(sh') && Linked(newSub, sh')
      ensures popped in Nodes(sh) && Nodes(sh') == Nodes(sh) - {popped}
      ensures Abs(sh') == T.Pop(old(Abs(sh)))
      ensures mData == old(sub.mData) && popped.HoldsAlone(old(mData))
      decreases sh, 1
    {
      Swap(sub, sh);
      PopIgnoresTopData(old(Abs(sh)), old(mData));
      newSub, popped, sh' := Pop(sub, sh, repr);
    }

    /** Recursive linear search for the node that holds the object data, pruned where
        data outranks the top. The result removed is null if data is not found, and
        otherwise the unlinked leaf node that now holds data. */
    static method Remove(top: LocHeapNode, data: Rankable, ghost sh: Shape, ghost repr: set<LocHeapNode>)
      returns (newTop: LocHeapNode?, removed: LocHeapNode?, ghost sh': Shape)
      requires sh.Cell? && Distinct(sh) && Linked(top, sh) && Nodes(sh) <= repr
      modifies Nodes(sh)
      ensures Distinct(sh') && Linked(newTop, sh') && Nodes(sh') == Nodes(sh) - {removed}
      ensures Abs(sh') == T.Remove(old(Abs(sh)), data).tree
      ensures removed != null <==> T.Remove(old(Abs(sh)), data).found
      ensures if removed == null then sh' == sh else removed in Nodes(sh) && removed.HoldsAlone(data)
      decreases sh, 2
    {
      if data == top.mData {
        newTop, removed, sh' := Pop(top, sh, repr);
      } else if !data.OutRanks(top.mData) {
        removed, sh' := top.RemoveBelow(data, sh, repr);
        newTop := top;
      } else {
        newTop, removed, sh' := top, null, sh;
      }
    }

    ghost predicate HoldsAlone(data: Rankable)
      reads this
    {
      mData == data && mLeft == null && mRight == null
    }

    /** Searches the left subtree, then, if that fails, the right one. */
    method RemoveBelow(data: Rankable, ghost sh: Shape, ghost repr: set<LocHeapNode>)
      returns (removed: LocHeapNode?, ghost sh': Shape)
      requires sh.Cell? && Distinct(sh) && Linked(this, sh) && Nodes(sh) <= repr
      requires data != mData && !data.OutRanks(mData)
      modifies Nodes(sh)
      ensures Distinct(sh') && Linked(this, sh') && Nodes(sh') == Nodes(sh) - {removed}
      ensures Abs(sh') == T.Remove(old(Abs(sh)), data).tree
      ensures removed != null <==> T.Remove(old(Abs(sh)), data).found
      ensures if removed == null then sh' == sh else removed in Nodes(sh) && removed.HoldsAlone(data)
      decreases sh, 1
    {
      hide T.Pop, T.Elems;
      ghost var l, r := sh.left, sh.right;
      ghost var tl, tr := Abs(l), Abs(r);
      var p;
      p, removed, l := RemoveFrom(mLeft, data, l, repr);
      mLeft := p;
      assert Linked(mLeft, l) && Linked(mRight, r);
      assert Abs(l) == T.Remove(tl, data).tree && Abs(r) == tr;
      sh' := Cell(this, l, r);
      if removed == null {
        T.RemoveElems(tl, data);
        removed, sh' := RemoveRight(data, sh, repr);
      } else {
        mSize := mSize - 1;
        assert Linked(mLeft, l) && Linked(mRight, r);
        assert Abs(l) == T.Remove(tl, data).tree && Abs(r) == tr;
      }
    }

    method RemoveRight(data: Rankable, ghost sh: Shape, ghost repr: set<LocHeapNode>)
      returns (removed: LocHeapNode?, ghost sh': Shape)
      requires sh.Cell? && Distinct(sh) && Linked(this, sh) && Nodes(sh) <= repr
      modifies Nodes(sh)
      ensures Distinct(sh') && Linked(this, sh') && Nodes(sh') == Nodes(sh) - {removed}
      ensures
        var t := old(Abs(sh));
        var rest := T.Remove(t.right, data);
        && (removed != null <==> rest.found)
        && Abs(sh') == T.Node(t.data, if rest.found then t.size - 1 else t.size, t.left, rest.tree)
      ensures if removed == null then sh' == sh else removed in Nodes(sh) && removed.HoldsAlone(data)
      decreases sh, 0
    {
      ghost var l, r := sh.left, sh.right;
      ghost var tl, tr := Abs(l), Abs(r);
      var p;
      p, removed, r := RemoveFrom(mRight, data, r, repr);
      mRight := p;
      if removed != null {
        mSize := mSize - 1;
      }
      assert Linked(mLeft, l) && Linked(mRight, r);
      assert Abs(l) == tl && Abs(r) == T.Remove(tr, data).tree;
      sh' := Cell(this, l, r);
    }

    static method RemoveFrom(sub: LocHeapNode?, data: Rankable, ghost sh: Shape, ghost repr: set<LocHeapNode>)
      returns (newSub: LocHeapNode?, removed: LocHeapNode?, ghost sh': Shape)
      requires Distinct(sh) && Linked(sub, sh) && Nodes(sh) <= repr
      modifies Nodes(sh)
      ensures Distinct(sh') && Linked(newSub, sh') && Nodes(sh') == Nodes(sh) - {removed}
      ensures Abs(sh') == T.Remove(old(Abs(sh)), data).tree
      ensures removed != null <==> T.Remove(old(Abs(sh)), data).found
      ensures if removed == null then sh' == sh else removed in Nodes(sh) && removed.HoldsAlone(data)
      decreases sh, 3
    {
      newSub, removed, sh' := sub, null, sh;
      if sub != null {
        newSub, removed, sh' := Remove(sub, data, sh, repr);
      }
    }

    /** The consistency check: sizes are exact and no child outranks its parent. */
    method CheckNodes(ghost sh: Shape, ghost repr: set<LocHeapNode>) returns (ok: bool)
      requires sh.Cell? && Linked(this, sh) && Nodes(sh) <= repr
      ensures ok <==> T.Ordered(Abs(sh)) && T.Sized(Abs(sh))
      decreases sh
    {
      ghost var tl, tr := Abs(sh.left), Abs(sh.right);
      assert Linked(mLeft, sh.left) && Linked(mRight, sh.right);
      var totalSize := mSize;
      if mLeft != null {
        var consistent := mLeft.CheckNodes(sh.left, repr);
        if mLeft.mData.OutRanks(mData) || !consistent {
          return false;
        }
        totalSize := totalSize - mLeft.mSize;
      }
      assert T.Sized(tl);
      if mRight != null {
        var consistent := mRight.CheckNodes(sh.right, repr);
        if mRight.mData.OutRanks(mData) || !consistent {
          return false;
        }
        totalSize := totalSize - mRight.mSize;
      }
      assert T.Sized(tr);
      T.SizedTop(T.Node(mData, mSize, tl, tr));
      return totalSize == 1;
    }
  }

  ghost function WithTop(t: T.Tree, d: Rankable): T.Tree {
    if t.Leaf? then t else t.(data := d)
  }

  lemma PopIgnoresTopData(t: T.Tree, d: Rankable)
    requires t.Node?
    ensures T.Pop(WithTop(t, d)) == T.Pop(t)
  {
  }

  ghost function SinkResult(t: T.Tree, lo: Rankable): T.Tree
    requires t.Node?
  {
    if T.PushesLeft(t) then T.Node(t.data, t.size + 1, T.Push(t.left, lo), t.right)
    else T.Node(t.data, t.size + 1, t.left, T.Push(t.right, lo))
  }

  /** The nodes hang together below top and hold this tree. */
  ghost predicate Holds(top: LocHeapNode?, sh: Shape, nodes: set<LocHeapNode>, t: T.Tree)
    reads nodes
  {
    Nodes(sh) == nodes && Distinct(sh) && Linked(top, sh) && Abs(sh) == t
  }

  lemma NullIsLeaf(top: LocHeapNode?, sh: Shape, nodes: set<LocHeapNode>, t: T.Tree)
    requires Holds(top, sh, nodes, t)
    ensures top == null <==> t.Leaf?
    ensures top == null <==> sh.Nil?
    ensures top != null ==> top in nodes && top.mData == t.data
  {
  }

  /** The pointer that remove returns. */
  ghost function Removed(t: T.Tree, x: Rankable): Option<Rankable> {
    if T.Remove(t, x).found then Some(x) else None
  }

  lemma RemoveIsStep(t: T.Tree, x: Rankable)
    requires T.Wf(t)
    ensures T.Wf(T.Remove(t, x).tree)
    ensures T.QueueStep(T.Elems(t), T.OpRemove(x), Removed(t, x), T.Elems(T.Remove(t, x).tree))
    ensures t.Leaf? ==> T.Remove(t, x) == T.Removal(false, t)
  {
    T.StepRefinesQueue(t, T.OpRemove(x));
  }

  lemma PopIsStep(t: T.Tree)
    requires T.Wf(t)
    ensures var (t', out) := T.Apply(t, T.OpPop);
            && T.Wf(t') && T.QueueStep(T.Elems(t), T.OpPop, out, T.Elems(t'))
            && (if t.Leaf? then t' == t && out == None else t' == T.Pop(t) && out == Some(t.data))
  {
    T.StepRefinesQueue(t, T.OpPop);
  }

  /** The methods of LocHeapNode, in terms of the tree that a set of nodes holds. */
  method PushInto(top: LocHeapNode, node: LocHeapNode, ghost sh: Shape, ghost nodes: set<LocHeapNode>, ghost t: T.Tree)
    returns (ghost sh': Shape)
    requires Holds(top, sh, nodes, t) && node !in nodes
    requires node.mSize == 1 && node.mLeft == null && node.mRight == null
    modifies nodes, node
    ensures Holds(top, sh', nodes + {node}, T.Push(t, old(node.mData)))
  {
    sh' := top.Push(node, sh, nodes);
  }

  method PopFrom(top: LocHeapNode, ghost sh: Shape, ghost nodes: set<LocHeapNode>, ghost t: T.Tree)
    returns (newTop: LocHeapNode?, popped: LocHeapNode, ghost sh': Shape)
    requires Holds(top, sh, nodes, t)
    modifies nodes
    ensures t.Node? && Holds(newTop, sh', nodes - {popped}, T.Pop(t)) && popped.mData == t.data
  {
    newTop, popped, sh' := LocHeapNode.Pop(top, sh, nodes);
  }

  method RemoveFrom(top: LocHeapNode, x: Rankable, ghost sh: Shape, ghost nodes: set<LocHeapNode>, ghost t: T.Tree)
    returns (newTop: LocHeapNode?, removed: LocHeapNode?, ghost sh': Shape)
    requires Holds(top, sh, nodes, t)
    modifies nodes
    ensures Holds(newTop, sh', nodes - {removed}, T.Remove(t, x).tree)
    ensures if T.Remove(t, x).found then removed != null && removed.mData == x else removed == null
  {
    newTop, removed, sh' := LocHeapNode.Remove(top, x, sh, nodes);
  }

  lemma SingleHolds(node: LocHeapNode)
    requires node.mSize == 1 && node.mLeft == null && node.mRight == null
    ensures Holds(node, Cell(node, Nil, Nil), {node}, T.Push(T.Leaf, node.mData))
  {
  }

  /** The heap a client sees: a priority queue over the objects it was given. */
  class LocHeap {
    var mTree: LocHeapNode?
    ghost var shape: Shape
    ghost var nodes: set<LocHeapNode>
    ghost var tree: T.Tree
    ghost var Repr: set<object>

    ghost predicate Valid()
      reads this, Repr
      ensures Valid() ==> this in Repr
    {
      this in Repr && nodes <= Repr && Holds(mTree, shape, nodes, tree) && T.Wf(tree)
    }

    /** The tree the nodes form. */
    ghost function Tree(): T.Tree
      reads this
    {
      tree
    }

    /** The multiset of objects in the heap. */
    ghost function Contents(): multiset<Rankable>
      reads this
    {
      T.Elems(tree)
    }

    constructor ()
      ensures Valid() && fresh(Repr) && Tree() == T.Leaf
    {
      mTree, shape, nodes, tree, Repr := null, Nil, {}, T.Leaf, {this};
    }

    /** The heap is what these nodes, which are among its own, hold. */
    method SetTree(top: LocHeapNode?, ghost sh: Shape, ghost nodes': set<LocHeapNode>, ghost t: T.Tree)
      requires this in Repr && nodes' <= Repr && Holds(top, sh, nodes', t) && T.Wf(t)
      modifies this
      ensures Valid() && Repr == old(Repr) && Tree() == t
    {
      hide Holds, T.Wf;
      mTree, shape, nodes, tree := top, sh, nodes', t;
    }

    method Push(x: Rankable)
      requires Valid()
      modifies Repr
      ensures Valid() && fresh(Repr - old(Repr))
      ensures Tree() == T.Push(old(Tree()), x)
      ensures Contents() == old(Contents()) + multiset{x}
    {
      T.PushKeeps(tree, x);
      NullIsLeaf(mTree, shape, nodes, tree);
      hide T.Wf, T.Elems, T.Push, Holds;
      var heapNode := new LocHeapNode(x);
      assert Holds(mTree, shape, nodes, tree);
      if mTree == null {
        SingleHolds(heapNode);
        mTree := heapNode;
        shape := Cell(heapNode, Nil, Nil);
      } else {
        ghost var sh := PushInto(mTree, heapNode, shape, nodes, tree);
        shape := sh;
      }
      Repr := Repr + {heapNode};
      SetTree(mTree, shape, nodes + {heapNode}, T.Push(tree, x));
    }

    /** The highest ranked object, without removing it. */
    method Peek() returns (top: Option<Rankable>)
      requires Valid()
      ensures top == if Tree().Leaf? then None else Some(Tree().data)
      ensures top == None <==> Contents() == multiset{}
      ensures top.Some? ==> top.value in Contents() && forall y :: y in Contents() ==> !y.OutRanks(top.value)
    {
      if mTree == null {
        top := None;
      } else {
        top := Some(mTree.mData);
        TopIsBest(Tree());
      }
    }

    method Pop() returns (out: Option<Rankable>)
      requires Valid()
      modifies Repr
      ensures Valid() && Repr == old(Repr)
      ensures Tree() == T.Apply(old(Tree()), T.OpPop).0 && out == T.Apply(old(Tree()), T.OpPop).1
      ensures T.QueueStep(old(Contents()), T.OpPop, out, Contents())
    {
      PopIsStep(tree);
      NullIsLeaf(mTree, shape, nodes, tree);
      hide T.Wf, T.Elems, T.Pop, T.QueueStep, T.Apply, Holds;
      if mTree == null {
        return None;
      }
      var newTree, heapNode;
      ghost var sh;
      newTree, heapNode, sh := PopFrom(mTree, shape, nodes, tree);
      out := Some(heapNode.mData);
      SetTree(newTree, sh, nodes - {heapNode}, T.Pop(tree));
    }

    method Remove(x: Rankable) returns (out: Option<Rankable>)
      requires Valid()
      modifies Repr
      ensures Valid() && Repr == old(Repr)
      ensures Tree() == T.Remove(old(Tree()), x).tree && out == Removed(old(Tree()), x)
      ensures T.QueueStep(old(Contents()), T.OpRemove(x), out, Contents())
    {
      RemoveIsStep(tree, x);
      NullIsLeaf(mTree, shape, nodes, tree);
      hide T.Wf, T.Elems, T.QueueStep, T.Remove, Holds;
      if mTree == null {
        return None;
      }
      var newTree, heapNode;
      ghost var sh;
      newTree, heapNode, sh := RemoveFrom(mTree, x, shape, nodes, tree);
      out := None;
      if heapNode != null {
        out := Some(heapNode.mData);
      }
      SetTree(newTree, sh, nodes - {heapNode}, T.Remove(tree, x).tree);
    }

    /** Never fails on a heap that only its own methods have touched. */
    method CheckTree() returns (ok: bool)
      requires Valid()
      ensures ok
    {
      ok := true;
      if mTree != null {
        ok := mTree.CheckNodes(shape, nodes);
      }
    }

    /** The number of objects in the heap. */
    method GetTreeSize() returns (n: int)
      requires Valid()
      ensures n == |Contents()|
    {
      CountIsCardinality(Tree());
      n := if mTree == null then 0 else mTree.mSize;
    }
  }

  lemma TopIsBest(t: T.Tree)
    requires t.Node? && T.Ordered(t)
    ensures t.data in T.Elems(t) && forall y :: y in T.Elems(t) ==> !y.OutRanks(t.data)
  {
    forall y | y in T.Elems(t) ensures !y.OutRanks(t.data) { T.TopRanksHighest(t, y); }
  }

  lemma {:induction false} CountIsCardinality(t: T.Tree)
    ensures |T.Elems(t)| == T.Count(t)
  {
    if t.Node? {
      CountIsCardinality(t.left);
      CountIsCardinality(t.right);
    }
  }
}
