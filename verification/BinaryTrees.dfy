/** benchmarks/c/binary_trees.c: perfect binary trees on the heap, their check sum, and freeing
    them. */
module BinaryTrees {
  import opened Arithmetic

  /** The value of a tree: inner nodes hold 0 and only leaves hold a value that counts. */
  datatype Tree = Leaf(value: int) | Fork(left: Tree, right: Tree)

  function MakeTree(depth: nat, value: int): Tree {
    if depth == 0 then Leaf(value)
    else Fork(MakeTree(depth - 1, value * 2), MakeTree(depth - 1, value * 2 + 1))
  }

  function CheckTree(t: Tree): int {
    match t
    case Leaf(value) => value
    case Fork(left, right) => 1 + CheckTree(left) + CheckTree(right)
  }

  function Size(t: Tree): nat {
    match t
    case Leaf(_) => 1
    case Fork(left, right) => 1 + Size(left) + Size(right)
  }

  /** With p = 2^depth, the check is p - 1 + value * p^2 + p * (p - 1) / 2, and the tree has
      2 * p - 1 nodes. */
  lemma {:induction false} CheckClosedForm(depth: nat, value: int)
    ensures var p := Pow2(depth);
            2 * CheckTree(MakeTree(depth, value)) == 2 * (p - 1) + 2 * (value * (p * p)) + p * (p - 1)
    ensures Size(MakeTree(depth, value)) == 2 * Pow2(depth) - 1
  {
    if depth > 0 {
      CheckClosedForm(depth - 1, value * 2);
      CheckClosedForm(depth - 1, value * 2 + 1);
      var h := Pow2(depth - 1);
      Doubling(value, h, CheckTree(MakeTree(depth - 1, value * 2)), CheckTree(MakeTree(depth - 1, value * 2 + 1)));
    }
  }

  /** From two trees with h leaves each to one with 2 * h. */
  lemma Doubling(value: int, h: int, a: int, b: int)
    requires 2 * a == 2 * (h - 1) + 2 * (value * 2 * (h * h)) + h * (h - 1)
    requires 2 * b == 2 * (h - 1) + 2 * ((value * 2 + 1) * (h * h)) + h * (h - 1)
    ensures 2 * (1 + a + b) == 2 * (2 * h - 1) + 2 * (value * (2 * h * (2 * h))) + 2 * h * (2 * h - 1)
  {
    Squares(value, h, h * h);
  }

  lemma Squares(value: int, h: int, s: int)
    requires s == h * h
    ensures value * 2 * s == 2 * (value * s)
    ensures (value * 2 + 1) * s == 2 * (value * s) + s
    ensures value * (2 * h * (2 * h)) == 4 * (value * s)
    ensures h * (h - 1) == s - h
    ensures 2 * h * (2 * h - 1) == 4 * s - 2 * h
  {
    assert 2 * h * (2 * h) == 4 * s;
    assert value * (4 * s) == 4 * (value * s);
  }

  function Leaves(t: Tree): seq<int> {
    match t
    case Leaf(value) => [value]
    case Fork(left, right) => Leaves(left) + Leaves(right)
  }

  /** From left to right the leaves hold the 2^depth numbers from value * 2^depth on. */
  lemma {:induction false} LeavesInOrder(depth: nat, value: int, i: nat)
    requires i < Pow2(depth)
    ensures |Leaves(MakeTree(depth, value))| == Pow2(depth)
    ensures Leaves(MakeTree(depth, value))[i] == value * Pow2(depth) + i
  {
    if depth > 0 {
      var h := Pow2(depth - 1);
      var left, right := Leaves(MakeTree(depth - 1, value * 2)), Leaves(MakeTree(depth - 1, value * 2 + 1));
      LeavesInOrder(depth - 1, value * 2, if i < h then i else 0);
      LeavesInOrder(depth - 1, value * 2 + 1, if i < h then 0 else i - h);
      Halves(value, h);
      assert Leaves(MakeTree(depth, value)) == left + right;
      assert (left + right)[i] == if i < h then left[i] else right[i - h];
    }
  }

  lemma Halves(value: int, h: int)
    ensures value * 2 * h == value * (2 * h) && (value * 2 + 1) * h == value * (2 * h) + h
  {
  }

  // ---------- On the heap

  class Node {
    var left: Node?
    var right: Node?
    var value: int
    ghost var repr: set<Node>

    /** This node is the root of t, and no node is shared between subtrees. */
    ghost predicate Represents(t: Tree)
      reads this, repr
      decreases t
    {
      && this in repr
      && match t
         case Leaf(v) => left == null && right == null && value == v && repr == {this}
         case Fork(l, r) =>
           && left != null && right != null && value == 0
           && left in repr && right in repr && left.repr <= repr && right.repr <= repr
           && this !in left.repr && this !in right.repr && left.repr !! right.repr
           && repr == {this} + left.repr + right.repr
           && left.Represents(l) && right.Represents(r)
    }

    constructor Single(v: int)
      ensures Represents(Leaf(v)) && fresh(repr)
    {
      left, right, value := null, null, v;
      repr := {this};
    }

    constructor Inner(l: Node, r: Node, ghost tl: Tree, ghost tr: Tree)
      requires l.Represents(tl) && r.Represents(tr) && l.repr !! r.repr
      ensures Represents(Fork(tl, tr)) && repr == {this} + l.repr + r.repr
    {
      left, right, value := l, r, 0;
      repr := {this} + l.repr + r.repr;
    }
  }

  method Make(depth: nat, value: int) returns (n: Node)
    ensures n.Represents(MakeTree(depth, value)) && fresh(n.repr)
    decreases depth
  {
    if depth == 0 {
      n := new Node.Single(value);
    } else {
      var next := value * 2;
      var l := Make(depth - 1, next);
      var r := Make(depth - 1, next + 1);
      n := new Node.Inner(l, r, MakeTree(depth - 1, next), MakeTree(depth - 1, next + 1));
    }
  }

  method Check(n: Node, ghost t: Tree) returns (sum: int)
    requires n.Represents(t)
    ensures sum == CheckTree(t)
    decreases t
  {
    if n.left == null {
      return n.value;
    }
    var l := Check(n.left, t.left);
    var r := Check(n.right, t.right);
    return 1 + l + r;
  }

  /** A tree of shape t has as many nodes as t. */
  lemma {:induction false} NodeCount(n: Node, t: Tree)
    requires n.Represents(t)
    ensures |n.repr| == Size(t)
    decreases t
  {
    if t.Fork? {
      NodeCount(n.left, t.left);
      NodeCount(n.right, t.right);
    }
  }

  /** The allocator: which nodes have been freed. Neither freeing a node twice nor reading its
      fields afterwards is allowed. */
  class Arena {
    ghost var freed: set<Node>

    constructor ()
      ensures freed == {}
    {
      freed := {};
    }

    function Left(n: Node): Node?
      requires n !in freed
      reads this, n
    {
      n.left
    }

    function Right(n: Node): Node?
      requires n !in freed
      reads this, n
    {
      n.right
    }

    method Free(n: Node)
      requires n !in freed
      modifies this
      ensures freed == old(freed) + {n}
    {
      freed := freed + {n};
    }

    /** `free_tree`: every node of the tree, once, and none is looked at after it is freed. */
    method FreeTree(n: Node, ghost t: Tree)
      requires n.Represents(t) && n.repr !! freed
      modifies this
      ensures freed == old(freed) + n.repr
      decreases t
    {
      if Left(n) != null {
        FreeTree(Left(n), t.left);
        assert n !in freed;
        FreeTree(Right(n), t.right);
      }
      Free(n);
    }
  }

  /** One turn of the benchmark's loop: make, check, free. */
  method Turn(depth: nat, arena: Arena) returns (sum: int)
    modifies arena
    ensures var p := Pow2(depth); 2 * sum == 2 * (p - 1) + 2 * (p * p) + p * (p - 1)
    ensures |arena.freed - old(arena.freed)| == 2 * Pow2(depth) - 1
  {
    ghost var before := arena.freed;
    var n := Make(depth, 1);
    ghost var t := MakeTree(depth, 1);
    sum := Check(n, t);
    CheckClosedForm(depth, 1);
    NodeCount(n, t);
    assert n.repr !! before;
    arena.FreeTree(n, t);
    assert arena.freed - before == n.repr;
  }
}
