/** The pairing heap of include/nvalloc/internal/ph.h, as forests of nodes. */
module PhSpec {

  class Node {
    const key: int
    var prev: Node?
    var next: Node?
    var lchild: Node?

    constructor (k: int)
      ensures key == k && prev == next == lchild == null
    {
      key := k;
      prev, next, lchild := null, null, null;
    }
  }

  /** A list of siblings: the first with its children, and the rest. */
  datatype Forest = Nil | Cons(node: Node, kids: Forest, rest: Forest)

  /** One tree. */
  datatype Tree = Tree(node: Node, kids: Forest)

  // ---------------------------------------------------------------------------------------
  // Contents and order
  // ---------------------------------------------------------------------------------------

  function Bag(f: Forest): multiset<Node> {
    match f
    case Nil => multiset{}
    case Cons(n, k, r) => multiset{n} + Bag(k) + Bag(r)
  }

  function BagT(t: Tree): multiset<Node> {
    multiset{t.node} + Bag(t.kids)
  }

  function BagQ(q: seq<Tree>): multiset<Node> {
    if q == [] then multiset{} else BagT(q[0]) + BagQ(q[1..])
  }

  ghost predicate NoDup(b: multiset<Node>) {
    forall n :: n in b ==> b[n] == 1
  }

  /** Heap order below a node of key lo: no node is smaller than its parent. */
  predicate Under(f: Forest, lo: int) {
    f.Cons? ==> lo <= f.node.key && Under(f.kids, f.node.key) && Under(f.rest, lo)
  }

  predicate TreeOk(t: Tree) {
    Under(t.kids, t.node.key)
  }

  /** A list of roots is ordered below each root. */
  predicate RootsOk(f: Forest) {
    f.Cons? ==> Under(f.kids, f.node.key) && RootsOk(f.rest)
  }

  predicate QueueOk(q: seq<Tree>) {
    forall i :: 0 <= i < |q| ==> TreeOk(q[i])
  }

  lemma {:induction false} UnderIsAbove(f: Forest, lo: int, n: Node)
    requires Under(f, lo) && n in Bag(f)
    ensures lo <= n.key
  {
    if n != f.node {
      if n in Bag(f.kids) {
        UnderIsAbove(f.kids, f.node.key, n);
      } else {
        UnderIsAbove(f.rest, lo, n);
      }
    }
  }

  lemma {:induction false} UnderLower(f: Forest, lo: int, lo': int)
    requires Under(f, lo) && lo' <= lo
    ensures Under(f, lo')
  {
    if f.Cons? {
      UnderLower(f.rest, lo, lo');
    }
  }

  lemma {:induction false} UnderIsRoots(f: Forest, lo: int)
    requires Under(f, lo)
    ensures RootsOk(f)
  {
    if f.Cons? {
      UnderIsRoots(f.rest, lo);
    }
  }

  /** The root of an ordered tree is a lowest node. */
  lemma RootIsLowest(t: Tree, n: Node)
    requires TreeOk(t) && n in BagT(t)
    ensures t.node.key <= n.key
  {
    if n in Bag(t.kids) {
      UnderIsAbove(t.kids, t.node.key, n);
    }
  }

  // ---------------------------------------------------------------------------------------
  // Merging
  // ---------------------------------------------------------------------------------------

  /** phn_merge_ordered and phn_merge: the higher tree becomes the first child of the lower. */
  function Adopt(t: Tree, child: Tree): Tree {
    Tree(t.node, Cons(child.node, child.kids, t.kids))
  }

  function Merge(t0: Tree, t1: Tree): Tree {
    if t0.node.key < t1.node.key then Adopt(t0, t1) else Adopt(t1, t0)
  }

  lemma MergeOk(t0: Tree, t1: Tree)
    ensures BagT(Merge(t0, t1)) == BagT(t0) + BagT(t1)
    ensures TreeOk(t0) && TreeOk(t1) ==> TreeOk(Merge(t0, t1))
  {
  }

  /** The first pass of ph_merge_siblings: neighbours are merged in pairs. */
  function Pairs(f: Forest): seq<Tree> {
    match f
    case Nil => []
    case Cons(n, k, Nil) => [Tree(n, k)]
    case Cons(n, k, Cons(n1, k1, r)) => [Merge(Tree(n, k), Tree(n1, k1))] + Pairs(r)
  }

  /** The passes after it: the first two of a queue are merged and the result appended. */
  function Rounds(q: seq<Tree>): Tree
    requires |q| > 0
    decreases |q|
  {
    if |q| == 1 then q[0] else Rounds(q[2..] + [Merge(q[0], q[1])])
  }

  function MergeSiblings(f: Forest): Tree
    requires f.Cons?
  {
    if f.rest.Nil? then Tree(f.node, f.kids) else Rounds(Pairs(f))
  }

  lemma {:induction false} BagOfSum(a: seq<Tree>, b: seq<Tree>)
    ensures BagQ(a + b) == BagQ(a) + BagQ(b)
  {
    if a == [] {
      assert a + b == b;
    } else {
      assert (a + b)[1..] == a[1..] + b && (a + b)[0] == a[0];
      BagOfSum(a[1..], b);
    }
  }

  lemma BagOfOne(t: Tree)
    ensures BagQ([t]) == BagT(t)
  {
    assert [t][1..] == [];
  }

  lemma BagOfTwo(q: seq<Tree>)
    requires |q| >= 2
    ensures BagQ(q) == BagT(q[0]) + BagT(q[1]) + BagQ(q[2..])
  {
    assert q[1..][0] == q[1] && q[1..][1..] == q[2..];
  }

  lemma QueueOfSum(a: seq<Tree>, b: seq<Tree>)
    ensures QueueOk(a + b) <==> QueueOk(a) && QueueOk(b)
  {
    var t := a + b;
    assert forall i :: 0 <= i < |a| ==> t[i] == a[i];
    assert forall i :: 0 <= i < |b| ==> t[|a| + i] == b[i];
    assert forall i :: 0 <= i < |t| ==> t[i] == if i < |a| then a[i] else b[i - |a|];
  }

  lemma QueueOfOne(t: Tree)
    ensures QueueOk([t]) <==> TreeOk(t)
  {
    assert [t][0] == t;
  }

  lemma TwoRoots(n: Node, k: Forest, n1: Node, k1: Forest, r: Forest)
    ensures var f := Cons(n, k, Cons(n1, k1, r));
            && (RootsOk(f) ==> TreeOk(Tree(n, k)) && TreeOk(Tree(n1, k1)) && RootsOk(r))
            && Bag(f) == BagT(Tree(n, k)) + BagT(Tree(n1, k1)) + Bag(r)
  {
    var g := Cons(n1, k1, r);
    assert RootsOk(Cons(n, k, g)) ==> RootsOk(g);
    assert RootsOk(g) ==> Under(g.kids, g.node.key) && RootsOk(g.rest);
  }

  lemma {:induction false} PairsOk(f: Forest)
    ensures BagQ(Pairs(f)) == Bag(f) && (f.Cons? ==> |Pairs(f)| > 0)
    ensures RootsOk(f) ==> QueueOk(Pairs(f))
  {
    hide QueueOk, Merge, BagQ, TreeOk, BagT;
    match f {
      case Nil =>
        BagOfNone();
      case Cons(n, k, Nil) =>
        BagOfOne(Tree(n, k));
        QueueOfOne(Tree(n, k));
        OneRoot(n, k);
      case Cons(n, k, Cons(n1, k1, r)) =>
        var t := Merge(Tree(n, k), Tree(n1, k1));
        PairsOk(r);
        MergeOk(Tree(n, k), Tree(n1, k1));
        TwoRoots(n, k, n1, k1, r);
        BagOfSum([t], Pairs(r));
        BagOfOne(t);
        QueueOfSum([t], Pairs(r));
        QueueOfOne(t);
    }
  }

  lemma OneRoot(n: Node, k: Forest)
    ensures var f := Cons(n, k, Nil); (RootsOk(f) ==> TreeOk(Tree(n, k))) && Bag(f) == BagT(Tree(n, k))
  {
  }

  lemma BagOfNone()
    ensures BagQ([]) == multiset{} && QueueOk([])
  {
  }

  /** One round: two trees leave the queue, their merge joins it. */
  lemma RoundOk(q: seq<Tree>)
    requires |q| >= 2
    ensures var q' := q[2..] + [Merge(q[0], q[1])]; BagQ(q') == BagQ(q) && (QueueOk(q) ==> QueueOk(q'))
  {
    hide Merge, BagQ, BagT;
    var t := Merge(q[0], q[1]);
    MergeOk(q[0], q[1]);
    BagOfTwo(q);
    BagOfSum(q[2..], [t]);
    BagOfOne(t);
    QueueOfSum(q[2..], [t]);
    QueueOfOne(t);
    assert q == q[..2] + q[2..];
    QueueOfSum(q[..2], q[2..]);
  }

  lemma {:induction false} RoundsOk(q: seq<Tree>)
    requires |q| > 0
    ensures BagT(Rounds(q)) == BagQ(q) && (QueueOk(q) ==> TreeOk(Rounds(q)))
    decreases |q|
  {
    hide Merge, BagQ, BagT, TreeOk;
    if |q| == 1 {
      BagOfOne(q[0]);
      assert q == [q[0]];
    } else {
      RoundOk(q);
      RoundsOk(q[2..] + [Merge(q[0], q[1])]);
    }
  }

  /** Merging siblings loses and invents no node, and keeps the order. */
  lemma MergeSiblingsOk(f: Forest)
    requires f.Cons?
    ensures BagT(MergeSiblings(f)) == Bag(f) && (RootsOk(f) ==> TreeOk(MergeSiblings(f)))
  {
    if f.rest.Cons? {
      PairsOk(f);
      RoundsOk(Pairs(f));
    }
  }

  // ---------------------------------------------------------------------------------------
  // The operations on the list of roots
  // ---------------------------------------------------------------------------------------

  /** ph_merge_aux: all roots become one. */
  function MergeAux(f: Forest): Tree
    requires f.Cons?
  {
    if f.rest.Nil? then Tree(f.node, f.kids) else Merge(Tree(f.node, f.kids), MergeSiblings(f.rest))
  }

  lemma MergeAuxOk(f: Forest)
    requires f.Cons?
    ensures BagT(MergeAux(f)) == Bag(f) && (RootsOk(f) ==> TreeOk(MergeAux(f)))
  {
    if f.rest.Cons? {
      MergeSiblingsOk(f.rest);
      MergeOk(Tree(f.node, f.kids), MergeSiblings(f.rest));
    }
  }

  function AsForest(t: Tree): Forest {
    Cons(t.node, t.kids, Nil)
  }

  /** ph_merge_children, put in front of the siblings r. */
  function Replaced(kids: Forest, r: Forest): Forest {
    if kids.Nil? then r
    else
      var t := MergeSiblings(kids);
      Cons(t.node, t.kids, r)
  }

  lemma ReplacedOk(kids: Forest, r: Forest, lo: int)
    ensures Bag(Replaced(kids, r)) == Bag(kids) + Bag(r)
    ensures Under(kids, lo) && Under(r, lo) ==> Under(Replaced(kids, r), lo)
    ensures RootsOk(kids) && RootsOk(r) ==> RootsOk(Replaced(kids, r))
  {
    if kids.Cons? {
      MergeSiblingsOk(kids);
      var t := MergeSiblings(kids);
      if Under(kids, lo) {
        UnderIsRoots(kids, lo);
        assert t.node in BagT(t);
        UnderIsAbove(kids, lo, t.node);
      }
    }
  }

  // ---------------------------------------------------------------------------------------
  // A node inside a forest
  // ---------------------------------------------------------------------------------------

  /** The way to a list of siblings: InKids, they are all children of `node`; InRest, they follow
      `node`. */
  datatype Ctx =
    | Top
    | InKids(node: Node, rest: Forest, up: Ctx)
    | InRest(node: Node, kids: Forest, up: Ctx)

  function Plug(c: Ctx, f: Forest): Forest {
    match c
    case Top => f
    case InKids(n, r, up) => Plug(up, Cons(n, f, r))
    case InRest(n, k, up) => Plug(up, Cons(n, k, f))
  }

  function BagC(c: Ctx): multiset<Node> {
    match c
    case Top => multiset{}
    case InKids(n, r, up) => multiset{n} + Bag(r) + BagC(up)
    case InRest(n, k, up) => multiset{n} + Bag(k) + BagC(up)
  }

  lemma {:induction false} BagPlug(c: Ctx, f: Forest)
    ensures Bag(Plug(c, f)) == BagC(c) + Bag(f)
  {
    match c {
      case Top =>
      case InKids(n, r, up) => BagPlug(up, Cons(n, f, r));
      case InRest(n, k, up) => BagPlug(up, Cons(n, k, f));
    }
  }

  lemma {:induction false} Find(f: Forest, n: Node, up: Ctx) returns (c: Ctx, g: Forest)
    requires n in Bag(f)
    ensures Plug(c, g) == Plug(up, f) && g.Cons? && g.node == n
  {
    if f.node == n {
      c, g := up, f;
    } else if n in Bag(f.kids) {
      c, g := Find(f.kids, n, InKids(f.node, f.rest, up));
    } else {
      c, g := Find(f.rest, n, InRest(f.node, f.kids, up));
    }
  }

  /** Replacing a list of siblings by one that is ordered wherever the old one was. */
  ghost predicate NoLower(f: Forest, f': Forest) {
    && (RootsOk(f) ==> RootsOk(f'))
    && forall lo :: Under(f, lo) ==> Under(f', lo)
  }

  lemma {:induction false} PlugOk(c: Ctx, f: Forest, f': Forest)
    requires RootsOk(Plug(c, f)) && NoLower(f, f')
    ensures RootsOk(Plug(c, f'))
  {
    match c {
      case Top =>
      case InKids(n, r, up) =>
        PlugOk(up, Cons(n, f, r), Cons(n, f', r));
      case InRest(n, k, up) =>
        PlugOk(up, Cons(n, k, f), Cons(n, k, f'));
    }
  }

  /** Removing the first of a list of siblings. */
  lemma RemovedOk(c: Ctx, g: Forest)
    requires g.Cons? && RootsOk(Plug(c, g))
    ensures RootsOk(Plug(c, Replaced(g.kids, g.rest)))
    ensures Bag(Plug(c, Replaced(g.kids, g.rest))) == Bag(Plug(c, g)) - multiset{g.node}
  {
    hide NoLower, Replaced, Plug, BagC;
    RemovedLower(g);
    PlugOk(c, g, Replaced(g.kids, g.rest));
    ReplacedOk(g.kids, g.rest, 0);
    BagPlug(c, g);
    BagPlug(c, Replaced(g.kids, g.rest));
  }

  lemma RemovedLower(g: Forest)
    requires g.Cons?
    ensures NoLower(g, Replaced(g.kids, g.rest))
  {
    hide Replaced;
    forall lo | Under(g, lo) ensures Under(Replaced(g.kids, g.rest), lo) {
      UnderLower(g.kids, g.node.key, lo);
      ReplacedOk(g.kids, g.rest, lo);
    }
    if RootsOk(g) {
      UnderIsRoots(g.kids, g.node.key);
      ReplacedOk(g.kids, g.rest, 0);
    }
  }
}
