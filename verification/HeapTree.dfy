/** The value of a LocHeap: the binary tree its nodes form, and the functions that
    push, pop and remove compute on that tree. The pointer structure that is mutated
    in place is in LocHeap.dfy; here are the properties of what it computes. */
module HeapTree {
  import opened Wrappers

  /** A client object stored in the heap by address. It never changes its rank while
      it is stored, so a rankable is identified with the pair of its address and its
      key, and a smaller key ranks higher. */
  datatype Rankable = Rankable(addr: int, key: int) {
    function Ranks(other: Rankable): int {
      other.key - key
    }

    predicate OutRanks(other: Rankable) {
      Ranks(other) > 0
    }
  }

  datatype Tree = Leaf | Node(data: Rankable, size: int, left: Tree, right: Tree)

  function Elems(t: Tree): multiset<Rankable> {
    match t
    case Leaf => multiset{}
    case Node(d, _, l, r) => multiset{d} + Elems(l) + Elems(r)
  }

  function Count(t: Tree): nat {
    match t
    case Leaf => 0
    case Node(_, _, l, r) => 1 + Count(l) + Count(r)
  }

  /** What mSize holds for the node a pointer leads to, 0 for a null pointer. */
  function Size(t: Tree): int {
    if t.Leaf? then 0 else t.size
  }

  /** No child outranks its parent. */
  predicate Ordered(t: Tree) {
    match t
    case Leaf => true
    case Node(d, _, l, r) =>
      && (l.Node? ==> !l.data.OutRanks(d)) && Ordered(l)
      && (r.Node? ==> !r.data.OutRanks(d)) && Ordered(r)
  }

  /** Every mSize is the number of nodes of its subtree. */
  predicate Sized(t: Tree) {
    match t
    case Leaf => true
    case Node(_, s, l, r) => s == Count(t) && Sized(l) && Sized(r)
  }

  /** With both subtrees sized, the top is sized when its size is one more than theirs. */
  lemma SizedTop(t: Tree)
    requires t.Node? && Sized(t.left) && Sized(t.right)
    ensures Sized(t) <==> t.size - Size(t.left) - Size(t.right) == 1
  {
    assert Size(t.left) == Count(t.left) && Size(t.right) == Count(t.right);
  }

  predicate Wf(t: Tree) {
    Ordered(t) && Sized(t)
  }

  // ---------- operations ----------

  /** Which subtree receives the lower ranked of the top and the pushed object: a
      missing left, then a missing right, then the smaller, the left on a tie. */
  predicate PushesLeft(t: Tree)
    requires t.Node?
  {
    t.left.Leaf? || (t.right.Node? && t.left.size <= t.right.size)
  }

  function Push(t: Tree, x: Rankable): Tree {
    if t.Leaf? then Node(x, 1, Leaf, Leaf)
    else
      var hi := if x.OutRanks(t.data) then x else t.data;
      var lo := if x.OutRanks(t.data) then t.data else x;
      if PushesLeft(t) then Node(hi, t.size + 1, Push(t.left, lo), t.right)
      else Node(hi, t.size + 1, t.left, Push(t.right, lo))
  }

  /** Which subtree gives up its top when the top of t is popped. */
  predicate PopsLeft(t: Tree)
    requires t.Node? && (t.left.Node? || t.right.Node?)
  {
    t.left.Node? && (t.right.Leaf? || t.left.data.OutRanks(t.right.data))
  }

  /** The tree that is left when the top is popped out. */
  function Pop(t: Tree): Tree
    requires t.Node?
  {
    if t.left.Leaf? && t.right.Leaf? then Leaf
    else if PopsLeft(t) then Node(t.left.data, t.size - 1, Pop(t.left), t.right)
    else Node(t.right.data, t.size - 1, t.left, Pop(t.right))
  }

  datatype Removal = Removal(found: bool, tree: Tree)

  /** The recursive linear search of LocHeapNode::remove, pruned by rank. */
  function Remove(t: Tree, x: Rankable): Removal {
    match t
    case Leaf => Removal(false, t)
    case Node(d, s, l, r) =>
      if x == d then Removal(true, Pop(t))
      else if x.OutRanks(d) then Removal(false, t)
      else
        var rl := Remove(l, x);
        if rl.found then Removal(true, Node(d, s - 1, rl.tree, r))
        else
          var rr := Remove(r, x);
          if rr.found then Removal(true, Node(d, s - 1, l, rr.tree))
          else Removal(false, t)
  }

  // ---------- what one operation keeps ----------

  /** Of two children the left one moves up if its key is smaller, and otherwise the right
      one; a lone child moves up. */
  lemma PopChooses(t: Tree)
    requires t.Node? && (t.left.Node? || t.right.Node?)
    ensures var fromLeft := t.left.Node? && (t.right.Node? ==> t.left.data.key < t.right.data.key);
            if fromLeft then Pop(t) == Node(t.left.data, t.size - 1, Pop(t.left), t.right)
            else Pop(t) == Node(t.right.data, t.size - 1, t.left, Pop(t.right))
  {
  }

  /** The subtree with fewer nodes grows, the left one if both have as many. */
  lemma PushGrows(t: Tree, x: Rankable)
    requires t.Node? && Sized(t)
    ensures if Count(t.left) <= Count(t.right) then Push(t, x).right == t.right else Push(t, x).left == t.left
  {
  }

  lemma NodeElems(d: Rankable, s: int, l: Tree, r: Tree)
    ensures Elems(Node(d, s, l, r)) == multiset{d} + Elems(l) + Elems(r)
  {
  }

  lemma {:induction false} PushElems(t: Tree, x: Rankable)
    ensures Elems(Push(t, x)) == Elems(t) + multiset{x}
  {
    if t.Leaf? {
      assert Elems(Push(t, x)) == multiset{x};
    } else {
      var hi := if x.OutRanks(t.data) then x else t.data;
      var lo := if x.OutRanks(t.data) then t.data else x;
      Exchange(hi, lo, t.data, x, Elems(t.left), Elems(t.right));
      if PushesLeft(t) {
        PushElems(t.left, lo);
        NodeElems(hi, t.size + 1, Push(t.left, lo), t.right);
      } else {
        PushElems(t.right, lo);
        NodeElems(hi, t.size + 1, t.left, Push(t.right, lo));
      }
    }
  }

  lemma Exchange(hi: Rankable, lo: Rankable, d: Rankable, x: Rankable, l: multiset<Rankable>, r: multiset<Rankable>)
    requires (hi == x && lo == d) || (hi == d && lo == x)
    ensures multiset{hi} + (l + multiset{lo}) + r == multiset{d} + l + r + multiset{x}
    ensures multiset{hi} + l + (r + multiset{lo}) == multiset{d} + l + r + multiset{x}
  {
  }

  lemma {:induction false} PushWf(t: Tree, x: Rankable)
    requires Wf(t)
    ensures Wf(Push(t, x)) && Count(Push(t, x)) == Count(t) + 1
    ensures Push(t, x).data == if t.Node? && !x.OutRanks(t.data) then t.data else x
  {
    if t.Node? {
      var lo := if x.OutRanks(t.data) then t.data else x;
      if PushesLeft(t) {
        PushWf(t.left, lo);
      } else {
        PushWf(t.right, lo);
      }
    }
  }

  /** Push keeps order and sizes and adds exactly the new object; it becomes the top
      if and only if it outranks the old one. */
  lemma PushKeeps(t: Tree, x: Rankable)
    requires Wf(t)
    ensures Wf(Push(t, x))
    ensures Elems(Push(t, x)) == Elems(t) + multiset{x}
    ensures Push(t, x).data == if t.Node? && !x.OutRanks(t.data) then t.data else x
    ensures Count(Push(t, x)) == Count(t) + 1
  {
    PushElems(t, x);
    PushWf(t, x);
  }

  lemma {:induction false} PopElems(t: Tree)
    requires t.Node?
    ensures Elems(t) == Elems(Pop(t)) + multiset{t.data}
  {
    NodeElems(t.data, t.size, t.left, t.right);
    if t.left.Node? || t.right.Node? {
      if PopsLeft(t) {
        PopElems(t.left);
        NodeElems(t.left.data, t.size - 1, Pop(t.left), t.right);
      } else {
        PopElems(t.right);
        NodeElems(t.right.data, t.size - 1, t.left, Pop(t.right));
      }
    }
  }

  lemma {:induction false} PopWf(t: Tree)
    requires t.Node? && Wf(t)
    ensures Wf(Pop(t)) && Count(Pop(t)) == Count(t) - 1
    ensures Pop(t).Node? ==> !Pop(t).data.OutRanks(t.data)
  {
    if t.left.Node? || t.right.Node? {
      if PopsLeft(t) { PopWf(t.left); } else { PopWf(t.right); }
    }
  }

  /** Pop keeps order and sizes and takes out exactly the top. */
  lemma PopKeeps(t: Tree)
    requires t.Node? && Wf(t)
    ensures Wf(Pop(t))
    ensures Elems(t) == Elems(Pop(t)) + multiset{t.data}
    ensures Count(Pop(t)) == Count(t) - 1
    ensures Pop(t).Node? ==> !Pop(t).data.OutRanks(t.data)
  {
    PopElems(t);
    PopWf(t);
  }

  /** Nothing stored in a heap-ordered tree outranks its top. */
  lemma {:induction false} TopRanksHighest(t: Tree, x: Rankable)
    requires Ordered(t) && x in Elems(t)
    ensures t.Node? && !x.OutRanks(t.data)
  {
    if x != t.data {
      if x in Elems(t.left) { TopRanksHighest(t.left, x); } else { TopRanksHighest(t.right, x); }
    }
  }

  lemma {:induction false} RemoveElems(t: Tree, x: Rankable)
    ensures Remove(t, x).found ==> Elems(t) == Elems(Remove(t, x).tree) + multiset{x}
    ensures !Remove(t, x).found ==> Remove(t, x).tree == t
  {
    if t.Node? {
      if x == t.data {
        PopElems(t);
      } else {
        RemoveElems(t.left, x);
        NodeElems(t.data, t.size - 1, Remove(t.left, x).tree, t.right);
        if !Remove(t.left, x).found {
          RemoveElems(t.right, x);
          NodeElems(t.data, t.size - 1, t.left, Remove(t.right, x).tree);
        }
      }
    }
  }

  lemma {:induction false} RemoveFinds(t: Tree, x: Rankable)
    requires Ordered(t) && x in Elems(t)
    ensures Remove(t, x).found
  {
    TopRanksHighest(t, x);
    if x != t.data {
      if x in Elems(t.left) { RemoveFinds(t.left, x); } else { RemoveFinds(t.right, x); }
    }
  }

  lemma {:induction false} RemoveWf(t: Tree, x: Rankable)
    requires Wf(t)
    ensures Wf(Remove(t, x).tree)
    ensures Count(Remove(t, x).tree) == Count(t) - if Remove(t, x).found then 1 else 0
    ensures Remove(t, x).tree.Node? ==> !Remove(t, x).tree.data.OutRanks(t.data)
    ensures t.Node? && x != t.data ==> Remove(t, x).tree.Node? && Remove(t, x).tree.data == t.data
  {
    if t.Node? {
      if x == t.data {
        PopWf(t);
      } else {
        RemoveWf(t.left, x);
        if !Remove(t.left, x).found { RemoveElems(t.left, x); RemoveWf(t.right, x); }
      }
    }
  }

  /** remove takes out exactly the object it is given when the heap holds it, and
      otherwise reports failure and changes nothing; pruning by rank never skips the
      subtree that holds the object, and order and ancestor sizes are repaired. */
  lemma RemoveExact(t: Tree, x: Rankable)
    requires Wf(t)
    ensures Remove(t, x).found <==> x in Elems(t)
    ensures x in Elems(t) ==> Elems(Remove(t, x).tree) == Elems(t) - multiset{x}
    ensures x !in Elems(t) ==> Remove(t, x).tree == t
    ensures Wf(Remove(t, x).tree)
    ensures Count(Remove(t, x).tree) == Count(t) - if x in Elems(t) then 1 else 0
    ensures t.Node? && x != t.data ==> Remove(t, x).tree.Node? && Remove(t, x).tree.data == t.data
  {
    RemoveElems(t, x);
    RemoveWf(t, x);
    if x in Elems(t) {
      RemoveFinds(t, x);
      assert Elems(t) == Elems(Remove(t, x).tree) + multiset{x};
    }
  }

  // ---------- draining ----------

  /** The data in the order in which popping until the heap is empty delivers them. */
  function Drain(t: Tree): seq<Rankable>
    requires Wf(t)
    decreases Count(t)
  {
    if t.Leaf? then []
    else
      PopKeeps(t);
      [t.data] + Drain(Pop(t))
  }

  predicate RankSorted(s: seq<Rankable>) {
    forall i, j :: 0 <= i < j < |s| ==> !s[j].OutRanks(s[i])
  }

  lemma RankCons(x: Rankable, s: seq<Rankable>)
    requires RankSorted(s) && forall y :: y in multiset(s) ==> !y.OutRanks(x)
    ensures RankSorted([x] + s) && multiset([x] + s) == multiset(s) + multiset{x}
  {
    forall j | 0 <= j < |s| ensures !s[j].OutRanks(x) { assert s[j] in multiset(s); }
  }

  /** Draining the heap delivers a rank-sorted permutation of what it held. */
  lemma {:induction false} DrainSorts(t: Tree)
    requires Wf(t)
    ensures multiset(Drain(t)) == Elems(t)
    ensures RankSorted(Drain(t))
    decreases Count(t)
  {
    hide Pop, Elems, RankSorted, Ordered, Sized;
    if t.Node? {
      PopKeeps(t);
      DrainSorts(Pop(t));
      forall y | y in Elems(Pop(t)) ensures !y.OutRanks(t.data) { TopRanksHighest(t, y); }
      RankCons(t.data, Drain(Pop(t)));
    } else {
      DrainLeaf();
    }
  }

  lemma DrainLeaf()
    ensures Elems(Leaf) == multiset{} && RankSorted([])
  {
  }

  // ---------- runs of operations against a multiset priority queue ----------

  datatype Op = OpPush(x: Rankable) | OpPop | OpRemove(x: Rankable)

  /** The heap after an operation, and the pointer the operation returns. */
  function Apply(t: Tree, op: Op): (Tree, Option<Rankable>) {
    match op
    case OpPush(x) => (Push(t, x), None)
    case OpPop => if t.Leaf? then (t, None) else (Pop(t), Some(t.data))
    case OpRemove(x) =>
      var r := Remove(t, x);
      (r.tree, if r.found then Some(x) else None)
  }

  /** The multiset priority queue: pop may return any element that no other element
      outranks, remove returns its argument if and only if it is present. */
  predicate QueueStep(m: multiset<Rankable>, op: Op, out: Option<Rankable>, m': multiset<Rankable>) {
    match op
    case OpPush(x) => out == None && m' == m + multiset{x}
    case OpPop =>
      if m == multiset{} then out == None && m' == m
      else
        && out.Some? && out.value in m && m' == m - multiset{out.value}
        && forall y :: y in m ==> !y.OutRanks(out.value)
    case OpRemove(x) =>
      if x in m then out == Some(x) && m' == m - multiset{x}
      else out == None && m' == m
  }

  function Run(ops: seq<Op>): Tree {
    if ops == [] then Leaf else Apply(Run(ops[..|ops| - 1]), ops[|ops| - 1]).0
  }

  lemma StepRefinesQueue(t: Tree, op: Op)
    requires Wf(t)
    ensures Wf(Apply(t, op).0)
    ensures QueueStep(Elems(t), op, Apply(t, op).1, Elems(Apply(t, op).0))
  {
    match op
    case OpPush(x) => PushKeeps(t, x);
    case OpRemove(x) => RemoveExact(t, x);
    case OpPop =>
      if t.Node? {
        PopKeeps(t);
        forall y | y in Elems(t) ensures !y.OutRanks(t.data) { TopRanksHighest(t, y); }
        assert t.data in Elems(t);
      }
  }

  /** Over every run from the empty heap: the heap stays ordered with exact sizes, and
      each operation is a step of the multiset priority queue. */
  lemma {:induction false} RunRefinesQueue(ops: seq<Op>)
    ensures Wf(Run(ops))
    ensures ops != [] ==>
      var before := Run(ops[..|ops| - 1]);
      var op := ops[|ops| - 1];
      QueueStep(Elems(before), op, Apply(before, op).1, Elems(Run(ops)))
  {
    if ops != [] {
      RunRefinesQueue(ops[..|ops| - 1]);
      StepRefinesQueue(Run(ops[..|ops| - 1]), ops[|ops| - 1]);
    }
  }

  // ---------- balance ----------

  /** At every node the left size equals the right size or exceeds it by one. */
  predicate Balanced(t: Tree) {
    match t
    case Leaf => true
    case Node(_, _, l, r) =>
      Count(r) <= Count(l) <= Count(r) + 1 && Balanced(l) && Balanced(r)
  }

  function Height(t: Tree): nat {
    match t
    case Leaf => 0
    case Node(_, _, l, r) => 1 + if Height(l) < Height(r) then Height(r) else Height(l)
  }

  function Pow2(n: nat): nat {
    if n == 0 then 1 else 2 * Pow2(n - 1)
  }

  function PushAll(xs: seq<Rankable>): Tree {
    if xs == [] then Leaf else Push(PushAll(xs[..|xs| - 1]), xs[|xs| - 1])
  }

  lemma {:induction false} PushBalances(t: Tree, x: Rankable)
    requires Wf(t) && Balanced(t)
    ensures Balanced(Push(t, x))
  {
    if t.Node? {
      var lo := if x.OutRanks(t.data) then t.data else x;
      assert Sized(t.left) && Sized(t.right);
      assert Size(t.left) == Count(t.left) && Size(t.right) == Count(t.right);
      if PushesLeft(t) {
        PushBalances(t.left, lo);
        PushWf(t.left, lo);
      } else {
        PushBalances(t.right, lo);
        PushWf(t.right, lo);
      }
    }
  }

  lemma {:induction false} Pow2Monotone(a: nat, b: nat)
    requires a <= b
    ensures Pow2(a) <= Pow2(b)
  {
    if a < b { Pow2Monotone(a, b - 1); }
  }

  /** A balanced tree of height h holds at least 2^(h-1) and fewer than 2^h elements. */
  lemma {:induction false} BalancedHeight(t: Tree)
    requires Balanced(t)
    ensures Count(t) < Pow2(Height(t))
    ensures t.Node? ==> Pow2(Height(t) - 1) <= Count(t)
  {
    if t.Node? {
      BalancedHeight(t.left);
      BalancedHeight(t.right);
      if Height(t.left) < Height(t.right) {
        Pow2Monotone(Height(t.left), Height(t.right) - 1);
        assert false;
      }
    }
  }

  lemma SnocMultiset(s: seq<Rankable>, x: Rankable)
    ensures multiset(s + [x]) == multiset(s) + multiset{x}
  {
  }

  lemma {:induction false} PushAllWf(xs: seq<Rankable>)
    ensures Wf(PushAll(xs)) && Balanced(PushAll(xs)) && Count(PushAll(xs)) == |xs|
  {
    if xs != [] {
      var init, x := xs[..|xs| - 1], xs[|xs| - 1];
      PushAllWf(init);
      PushBalances(PushAll(init), x);
      PushWf(PushAll(init), x);
    }
  }

  lemma {:induction false} PushAllElems(xs: seq<Rankable>)
    ensures Elems(PushAll(xs)) == multiset(xs)
  {
    if xs != [] {
      var init, x := xs[..|xs| - 1], xs[|xs| - 1];
      PushAllElems(init);
      assert PushAll(xs) == Push(PushAll(init), x);
      hide PushAll, Push, Elems;
      PushElems(PushAll(init), x);
      SnocMultiset(init, x);
      assert xs == init + [x];
    }
  }

  /** A heap built only by pushes is balanced, so its height is logarithmic. */
  lemma PushOnlyBalanced(xs: seq<Rankable>)
    requires xs != []
    ensures Balanced(PushAll(xs)) && Elems(PushAll(xs)) == multiset(xs)
    ensures Pow2(Height(PushAll(xs)) - 1) <= |xs| < Pow2(Height(PushAll(xs)))
  {
    PushAllWf(xs);
    PushAllElems(xs);
    BalancedHeight(PushAll(xs));
  }

  /** At each node on the way down, the subtree that gives up its top has the element to
      spare. */
  predicate SparesOnPop(t: Tree) {
    t.Node? && (t.left.Node? || t.right.Node?) ==>
      if PopsLeft(t) then Count(t.left) == Count(t.right) + 1 && SparesOnPop(t.left)
      else Count(t.left) == Count(t.right) && SparesOnPop(t.right)
  }

  /** A pop keeps a balanced heap balanced if and only if that is so. */
  lemma {:induction false} PopBalancedIff(t: Tree)
    requires t.Node? && Wf(t) && Balanced(t)
    ensures Balanced(Pop(t)) <==> SparesOnPop(t)
  {
    if t.left.Node? || t.right.Node? {
      if PopsLeft(t) {
        PopBalancedIff(t.left);
        PopWf(t.left);
      } else {
        PopBalancedIff(t.right);
        PopWf(t.right);
      }
    }
  }

  /** It need not be so even after pushes alone: after three pushes and a pop the right
      subtree can be the larger one. */
  lemma PopUnbalances()
    ensures exists xs: seq<Rankable> :: PushAll(xs).Node? && !Balanced(Pop(PushAll(xs)))
  {
    var a, b, c := Rankable(0, 0), Rankable(1, 1), Rankable(2, 2);
    assert PushAll([]) == Leaf;
    assert [a][..0] == [] && [a, b][..1] == [a] && [a, b, c][..2] == [a, b];
    assert PushAll([a]) == Push(Leaf, a);
    assert PushAll([a, b]) == Push(Push(Leaf, a), b);
    assert PushAll([a, b, c]) == Node(a, 3, Node(b, 1, Leaf, Leaf), Node(c, 1, Leaf, Leaf));
    assert Pop(PushAll([a, b, c])) == Node(b, 2, Leaf, Node(c, 1, Leaf, Leaf));
  }
}
