/** rb_gen's insert, remove and searches: wind down a path array, unwind along it. */
module RbOps {
  import opened RbSpec
  import opened RbTrees

  /** An entry of the path array; the comparison only matters by its sign. */
  datatype PathEntry = PathEntry(node: Node, goLeft: bool)

  function PathOf(c: Ctx): seq<PathEntry> {
    if c.Top? then [] else PathOf(c.up) + [PathEntry(c.node, c.InLeft?)]
  }

  ghost predicate Sorted(s: seq<Node>) {
    forall i, j :: 0 <= i < j < |s| ==> s[i].key < s[j].key
  }

  /** The whole key sequence while the subtree t sits in the hole of c. */
  function Whole(c: Ctx, t: Tree): seq<Node> {
    Before(c) + Inorder(t) + After(c)
  }

  // ---------------------------------------------------------------------------------------
  // Sorted sequences have no node twice
  // ---------------------------------------------------------------------------------------

  lemma {:induction false} NodesAreInorder(t: Tree, n: Node)
    ensures n in Nodes(t) <==> n in Inorder(t)
  {
    if t.T? {
      NodesAreInorder(t.left, n);
      NodesAreInorder(t.right, n);
    }
  }

  lemma {:induction false} CtxNodesAreAround(c: Ctx, n: Node)
    ensures n in CtxNodes(c) <==> n in Before(c) || n in After(c)
  {
    if !c.Top? {
      CtxNodesAreAround(c.up, n);
      NodesAreInorder(c.other, n);
    }
  }

  lemma SortedSplit(a: seq<Node>, b: seq<Node>)
    requires Sorted(a + b)
    ensures Sorted(a) && Sorted(b) && forall n :: !(n in a && n in b)
    ensures forall x, y :: x in a && y in b ==> x.key < y.key
  {
    var s := a + b;
    forall i, j | 0 <= i < j < |a| ensures a[i].key < a[j].key {
      assert s[i] == a[i] && s[j] == a[j];
    }
    forall i, j | 0 <= i < j < |b| ensures b[i].key < b[j].key {
      assert s[|a| + i] == b[i] && s[|a| + j] == b[j];
    }
    forall x, y | x in a && y in b ensures x.key < y.key {
      var i :| 0 <= i < |a| && a[i] == x;
      var j :| 0 <= j < |b| && b[j] == y;
      assert s[i] == x && s[|a| + j] == y;
    }
  }

  lemma DisjointTrees(l: Tree, r: Tree)
    requires forall n :: !(n in Inorder(l) && n in Inorder(r))
    ensures Nodes(l) !! Nodes(r)
  {
    forall n | n in Nodes(l) ensures n !in Nodes(r) {
      NodesAreInorder(l, n);
      NodesAreInorder(r, n);
    }
  }

  lemma {:induction false} SortedIsDistinct(t: Tree)
    requires Sorted(Inorder(t))
    ensures Distinct(t)
  {
    if t.T? {
      SortedSplit(Inorder(t.left) + [t.node], Inorder(t.right));
      SortedSplit(Inorder(t.left), [t.node]);
      SortedIsDistinct(t.left);
      SortedIsDistinct(t.right);
      assert t.node in Inorder(t.left) + [t.node];
      DisjointTrees(t.left, t.right);
      NodesAreInorder(t.left, t.node);
      NodesAreInorder(t.right, t.node);
    }
  }

  lemma HereNodes(c: Ctx, t: Tree)
    requires !c.Top?
    ensures Nodes(Here(c, t)) == {c.node} + Nodes(t) + Nodes(c.other)
    ensures Distinct(Here(c, t)) ==> Apart(c, t)
  {
  }

  /** In a sorted whole, the parts of the structure share no node. */
  lemma Separate(c: Ctx, t: Tree)
    requires !c.Top? && Sorted(Whole(c, t))
    ensures Apart(c, t)
    ensures CtxNodes(c.up) !! {c.node} + Nodes(t) + Nodes(c.other)
  {
    HereInorder(c, t);
    var h := Here(c, t);
    SortedSplit(Before(c.up) + Inorder(h), After(c.up));
    SortedSplit(Before(c.up), Inorder(h));
    SortedIsDistinct(h);
    HereNodes(c, t);
    CtxDisjoint(c.up, h);
  }

  lemma CtxDisjoint(c: Ctx, t: Tree)
    requires forall n :: !(n in Before(c) + Inorder(t) && n in After(c))
    requires forall n :: !(n in Before(c) && n in Inorder(t))
    ensures CtxNodes(c) !! Nodes(t)
  {
    forall n | n in Nodes(t) ensures n !in CtxNodes(c) {
      CtxNodesAreAround(c, n);
      NodesAreInorder(t, n);
      assert n in Before(c) + Inorder(t);
    }
  }

  // ---------------------------------------------------------------------------------------
  // Putting the subtree back
  // ---------------------------------------------------------------------------------------

  /** The path above the subtree is linked, except that the last pointer may be stale. */
  ghost predicate Pending(c: Ctx, nil: Node, root: Node?, m: Store) {
    HeadLinked(c, nil, m) && (!c.Top? ==> LinkedUp(c.up, nil, root, c.node, m))
  }

  lemma {:induction false} PlugLinked(c: Ctx, t: Tree, nil: Node, root: Node?, p: Node?, m: Store)
    requires Linked(t, nil, p, m) && LinkedUp(c, nil, root, p, m)
    ensures Linked(Plug(c, t), nil, root, m)
  {
    if !c.Top? {
      PlugLinked(c.up, Here(c, t), nil, root, c.node, m);
    }
  }

  lemma PendingFrame(c: Ctx, nil: Node, root: Node?, m: Store, m': Store, t: Tree)
    requires !c.Top? && Pending(c, nil, root, m) && Sorted(Whole(c, t))
    requires SameOutside(m, m', RoundNodes(c, t))
    ensures LinkedUp(c.up, nil, root, c.node, m')
    ensures Pending(c.up, nil, root, m')
  {
    Separate(c, t);
    FrameUp(c.up, nil, root, c.node, m, m');
  }

  /** The state between two rounds: subtree t at p belongs into the hole of c. */
  ghost predicate Unwinding(c: Ctx, t: Tree, nil: Node, root: Node?, p: Node?, m: Store) {
    && nil in m && !m[nil].red && nil !in Whole(c, t)
    && Linked(t, nil, p, m) && Pending(c, nil, root, m)
    && Sorted(Whole(c, t))
  }

  /** The state of the unwinding loop of insert, which is to build `final`. */
  ghost predicate Inserting(c: Ctx, t: Tree, final: Tree, path: seq<PathEntry>, nil: Node, root: Node?, p: Node, m: Store) {
    t.T? && PathOf(c) == path && Unwinding(c, t, nil, root, p, m) && InsertUnwind(c, t) == final
  }

  /** The tree after the first turn of the loop is the tree that the other turns build. */
  lemma NextInsert(c: Ctx, t: Tree, path: seq<PathEntry>)
    requires PathOf(c) == path && |path| > 0
    ensures !c.Top? && PathOf(c.up) == path[..|path| - 1] && path[|path| - 1] == PathEntry(c.node, c.InLeft?)
    ensures InsertUnwind(c, t)
         == var (t', done) := InsertStep(c, t); if done then Plug(c.up, t') else InsertUnwind(c.up, t')
    ensures t.T? ==> InsertStep(c, t).0.T?
  {
  }

  /** One round of the unwinding loop of insert. */
  method InsertRound(nil: Node, ghost root: Node, path: seq<PathEntry>, p: Node, ghost c: Ctx, ghost t: Tree,
                     ghost final: Tree, ghost m: Store)
    returns (sub: Node, done: bool, ghost t': Tree, ghost m': Store)
    requires Matches(m) && |path| > 0 && Inserting(c, t, final, path, nil, root, p, m)
    modifies m.Keys
    ensures Matches(m') && m'.Keys == m.Keys && m'[nil] == m[nil] && !c.Top?
    ensures done ==> Linked(final, nil, root, m')
    ensures !done ==> Inserting(c.up, t', final, path[..|path| - 1], nil, root, sub, m')
  {
    NextInsert(c, t, path);
    Separate(c, t);
    NotInRound(c, t, nil);
    InsertWhole(c, t);
    t' := InsertStep(c, t).0;
    var entry := path[|path| - 1];
    if entry.goLeft {
      sub, done, m' := InsertRoundLeft(nil, entry.node, p, c, t, m);
    } else {
      sub, done, m' := InsertRoundRight(nil, entry.node, p, c, t, m);
    }
    PendingFrame(c, nil, root, m, m', t);
    if done {
      PlugLinked(c.up, t', nil, root, sub, m');
    }
  }

  lemma RelinkedUp(c: Ctx, nil: Node, root: Node?, p: Node, m: Store)
    requires !c.Top? && Pending(c, nil, root, m)
    requires c.node !in Nodes(c.other) + CtxNodes(c.up)
    ensures LinkedUp(c, nil, root, p, Relinked(c, p, m))
  {
    var m' := Relinked(c, p, m);
    Frame(c.other, nil, if c.InLeft? then m[c.node].right else m[c.node].left, m, m');
    FrameUp(c.up, nil, root, c.node, m, m');
  }

  /** The state of the unwinding loop of remove, which is to build `final`. */
  ghost predicate Removing(c: Ctx, t: Tree, final: Tree, path: seq<PathEntry>, nil: Node, root: Node?, p: Node, m: Store) {
    && PathOf(c) == path && Unwinding(c, t, nil, root, p, m)
    && Ok(t) && !IsRed(t) && CtxOk(c, Bh(t) + 1) && RemoveUnwind(c, t) == final
  }

  lemma NextRemove(c: Ctx, t: Tree, path: seq<PathEntry>)
    requires PathOf(c) == path && |path| > 0
    requires Ok(t) && !IsRed(t) && CtxOk(c, Bh(t) + 1)
    ensures !c.Top? && PathOf(c.up) == path[..|path| - 1] && path[|path| - 1] == PathEntry(c.node, c.InLeft?)
    ensures var (t', done) := RemoveStep(c, t);
            && (!done ==> Ok(t') && !IsRed(t') && CtxOk(c.up, Bh(t') + 1))
            && RemoveUnwind(c, t) == if done then Plug(c.up, t') else RemoveUnwind(c.up, t')
  {
    RemoveStepOk(c, t);
  }

  /** One round of the unwinding loop of remove, with the return that follows when it restores
      the balance. */
  method RemoveRound(nil: Node, ghost root: Node, path: seq<PathEntry>, p: Node, ghost c: Ctx, ghost t: Tree,
                     ghost final: Tree, ghost m: Store)
    returns (sub: Node, done: bool, ghost t': Tree, ghost m': Store)
    requires Matches(m) && |path| > 0 && Removing(c, t, final, path, nil, root, p, m)
    modifies m.Keys
    ensures Matches(m') && m'.Keys == m.Keys && m'[nil] == m[nil] && !c.Top? && PathOf(c.up) == path[..|path| - 1]
    ensures done ==> Finishing(c.up, t', final, nil, root, sub, path[|path| - 1].node, m')
    ensures !done ==> Removing(c.up, t', final, path[..|path| - 1], nil, root, sub, m')
  {
    NextRemove(c, t, path);
    Separate(c, t);
    NotInRound(c, t, nil);
    RemoveWhole(c, t);
    SiblingShape(c, t);
    t' := RemoveStep(c, t).0;
    var entry := path[|path| - 1];
    if entry.goLeft {
      sub, done, m' := RemoveRoundLeft(nil, entry.node, p, c, t, m);
    } else {
      sub, done, m' := RemoveRoundRight(nil, entry.node, p, c, t, m);
    }
    PendingFrame(c, nil, root, m, m', t);
  }

  /** Balance is restored by subtree t at p, but the tree above still points to `was`. */
  ghost predicate Finishing(c: Ctx, t: Tree, final: Tree, nil: Node, root: Node?, p: Node, was: Node, m: Store) {
    Unwinding(c, t, nil, root, p, m) && LinkedUp(c, nil, root, was, m) && Plug(c, t) == final
  }

  lemma RemoveWhole(c: Ctx, t: Tree)
    requires !c.Top? && Ok(t) && !IsRed(t) && CtxOk(c, Bh(t) + 1)
    ensures Whole(c.up, RemoveStep(c, t).0) == Whole(c, t)
  {
    HereInorder(c, t);
    match c {
      case InLeft(n, red, r, _) => RemoveStepLeftInorder(n, red, r, t);
      case InRight(n, red, l, _) => RemoveStepRightInorder(n, red, l, t);
    }
  }

  lemma SiblingShape(c: Ctx, t: Tree)
    requires !c.Top? && Ok(t) && !IsRed(t) && CtxOk(c, Bh(t) + 1)
    ensures c.other.T?
    ensures c.InRight? && IsRed(c.other) ==> c.other.right.T? && !c.red
  {
    if c.InRight? {
      RemoveStepRightOk(c.node, c.red, c.other, t);
    }
  }

  // ---------------------------------------------------------------------------------------
  // Searching
  // ---------------------------------------------------------------------------------------

  /** Every node before the hole has a smaller key, every node after it a larger one. */
  ghost predicate Brackets(c: Ctx, key: int) {
    && (forall n :: n in Before(c) ==> n.key < key)
    && (forall n :: n in After(c) ==> key < n.key)
  }

  lemma DescendLeft(c: Ctx, t: Tree, key: int)
    requires t.T? && Brackets(c, key) && Sorted(Whole(c, t)) && key < t.node.key
    ensures var c' := InLeft(t.node, t.red, t.right, c);
            Brackets(c', key) && Whole(c', t.left) == Whole(c, t)
  {
    var c' := InLeft(t.node, t.red, t.right, c);
    HereInorder(c', t.left);
    SortedSplit(Before(c) + Inorder(t), After(c));
    SortedSplit(Before(c), Inorder(t));
    SortedSplit(Inorder(t.left) + [t.node], Inorder(t.right));
    assert t.node in Inorder(t.left) + [t.node];
  }

  lemma DescendRight(c: Ctx, t: Tree, key: int)
    requires t.T? && Brackets(c, key) && Sorted(Whole(c, t)) && key > t.node.key
    ensures var c' := InRight(t.node, t.red, t.left, c);
            Brackets(c', key) && Whole(c', t.right) == Whole(c, t)
  {
    var c' := InRight(t.node, t.red, t.left, c);
    HereInorder(c', t.right);
    SortedSplit(Before(c) + Inorder(t), After(c));
    SortedSplit(Before(c), Inorder(t));
    SortedSplit(Inorder(t.left) + [t.node], Inorder(t.right));
    SortedSplit(Inorder(t.left), [t.node]);
    assert t.node in [t.node];
  }

  /** The store consists of the sentinel and the nodes of the red-black tree t, linked from root. */
  ghost predicate Represents(t: Tree, nil: Node, root: Node?, m: Store) {
    && m.Keys == Nodes(t) + {nil} && nil !in Nodes(t) && !m[nil].red
    && Linked(t, nil, root, m)
    && Balanced(t) && Sorted(Inorder(t))
  }

  /** A red-black tree; `t` is the tree that the nodes represent and `store` their fields. */
  class RbTree {
    const nil: Node
    var root: Node
    ghost var t: Tree
    ghost var store: Store

    ghost predicate Valid()
      reads this, store.Keys
    {
      Matches(store) && Represents(t, nil, root, store)
    }

    /** The nodes in key order: the contents of the tree. */
    ghost function Contents(): seq<Node>
      reads this
    {
      Inorder(t)
    }

    /** rb_new. */
    constructor ()
      ensures Valid() && Contents() == [] && fresh(store.Keys)
    {
      var sentinel := new Node(0);
      nil := sentinel;
      root := sentinel;
      t := Leaf;
      store := map[sentinel := Cell(sentinel.left, sentinel.right, sentinel.red)];
      new;
      nil.left, nil.right, nil.red := nil, nil, false;
      store := map[nil := Cell(nil, nil, false)];
    }

    /** rb_search. */
    method Search(key: int) returns (ret: Node?)
      requires Valid()
      ensures ret != null ==> ret in Contents() && ret.key == key
      ensures ret == null ==> forall n :: n in Contents() ==> n.key != key
    {
      var p := root;
      ghost var c, cur := Top, t;
      assert Whole(c, cur) == Inorder(t);
      while p != nil && key != p.key
        invariant Linked(cur, nil, p, store) && Whole(c, cur) == Inorder(t) && Brackets(c, key)
        decreases cur
      {
        Open(cur, nil, p, store);
        if key < p.key {
          DescendLeft(c, cur, key);
          c, cur := InLeft(cur.node, cur.red, cur.right, c), cur.left;
          p := p.left;
        } else {
          DescendRight(c, cur, key);
          c, cur := InRight(cur.node, cur.red, cur.left, c), cur.right;
          p := p.right;
        }
      }
      FoundOrMissing(c, cur);
      ret := if p == nil then null else p;
    }

    // -------------------------------------------------------------------------------------
    // Insert
    // -------------------------------------------------------------------------------------

    /** The winding loop of insert: the path to the leaf where `key` belongs. */
    method WindInsert(key: int) returns (path: seq<PathEntry>, ghost c: Ctx)
      requires Valid() && forall n :: n in Contents() ==> n.key != key
      ensures PathOf(c) == path && Whole(c, Leaf) == Contents() && Plug(c, Leaf) == t
      ensures Brackets(c, key) && LinkedUp(c, nil, root, nil, store)
      ensures |path| <= Height(t)
    {
      var p := root;
      path := [];
      c := Top;
      ghost var cur := t;
      assert Whole(c, cur) == Inorder(t);
      while p != nil
        invariant Linked(cur, nil, p, store) && LinkedUp(c, nil, root, p, store)
        invariant Whole(c, cur) == Inorder(t) && Plug(c, cur) == t
        invariant Brackets(c, key) && PathOf(c) == path
        invariant |path| + Height(cur) <= Height(t)
        decreases cur
      {
        Open(cur, nil, p, store);
        FoundOrMissing(c, cur);
        if key < p.key {
          DescendLeft(c, cur, key);
          path := path + [PathEntry(p, true)];
          c, cur := InLeft(cur.node, cur.red, cur.right, c), cur.left;
          p := p.left;
        } else {
          DescendRight(c, cur, key);
          path := path + [PathEntry(p, false)];
          c, cur := InRight(cur.node, cur.red, cur.left, c), cur.right;
          p := p.right;
        }
      }
    }

    /** The unwinding loop of insert, from the new leaf `node`. */
    method UnwindInsert(path: seq<PathEntry>, node: Node, ghost c0: Ctx, ghost m0: Store) returns (ghost m: Store)
      requires Matches(m0) && PathOf(c0) == path && Unwinding(c0, NewLeaf(node), nil, root, node, m0)
      modifies this`root, m0.Keys
      ensures Matches(m) && m.Keys == m0.Keys && m[nil] == m0[nil]
      ensures Linked(InsertUnwind(c0, NewLeaf(node)), nil, root, m)
    {
      hide Linked, LinkedUp, Whole, Inorder, Plug, Sorted, Matches;
      var sub := node;
      var i := |path|;
      m := m0;
      ghost var c, s := c0, NewLeaf(node);
      ghost var final := InsertUnwind(c0, s);
      assert path[..i] == path;
      while i > 0
        invariant 0 <= i <= |path|
        invariant Matches(m) && m.Keys == m0.Keys && m[nil] == m0[nil]
        invariant Inserting(c, s, final, path[..i], nil, root, sub, m)
      {
        assert path[..i][..i - 1] == path[..i - 1];
        var done;
        sub, done, s, m := InsertRound(nil, root, path[..i], sub, c, s, final, m);
        i, c := i - 1, c.up;
        if done {
          return;
        }
      }
      m := SetBlackRoot(sub, c, s, m);
    }

    method SetBlackRoot(sub: Node, ghost c: Ctx, ghost s: Tree, ghost m: Store) returns (ghost m': Store)
      requires Matches(m) && s.T? && PathOf(c) == [] && Unwinding(c, s, nil, root, sub, m)
      modifies this`root, m.Keys
      ensures Matches(m') && m'.Keys == m.Keys && m'[nil] == m[nil]
      ensures Linked(InsertUnwind(c, s), nil, root, m')
    {
      Open(s, nil, sub, m);
      PaintedRoot(s, nil, root, sub, m, m[sub := m[sub].(red := false)]);
      root := sub;
      m' := SetRed(root, false, m);
    }

    /** rbt_node_new. */
    method InitNode(node: Node) returns (ghost m: Store)
      requires Matches(store) && node !in store
      modifies node
      ensures Matches(store) && Matches(m) && m == store[node := Cell(nil, nil, true)]
    {
      node.left, node.right, node.red := nil, nil, true;
      m := store[node := Cell(nil, nil, true)];
    }

    /** rb_insert up to the ghost state: winding, then unwinding. */
    method InsertLinks(node: Node) returns (ghost c: Ctx, ghost m: Store)
      requires Valid() && node !in store.Keys && forall n :: n in Contents() ==> n.key != node.key
      requires |Contents()| < Pow2(63)
      modifies this`root, store.Keys, node
      ensures Matches(m) && m.Keys == store.Keys + {node}
      ensures Represents(InsertUnwind(c, NewLeaf(node)), nil, root, m)
      ensures var k := |Before(c)|;
              k <= |Contents()| && Inorder(InsertUnwind(c, NewLeaf(node))) == Contents()[..k] + [node] + Contents()[k..]
    {
      hide Linked, LinkedUp, Inorder, Whole, Plug, PathOf, Unwinding, InsertUnwind, Brackets, Before, Sorted, Balanced;
      m := InitNode(node);
      var path: seq<PathEntry>;
      path, c := WindInsert(node.key);
      PathFits(t);
      assert |path| + 1 <= 128;
      InsertStart(c, t, nil, root, node, store, m);
      m := UnwindInsert(path, node, c, m);
      InsertEnd(c, t, node, nil, root, store, m);
    }

    /** rb_insert. */
    method Insert(node: Node)
      requires Valid() && node !in store.Keys && forall n :: n in Contents() ==> n.key != node.key
      requires |Contents()| < Pow2(63)
      modifies this, store.Keys, node
      ensures Valid() && store.Keys == old(store.Keys) + {node}
      ensures exists k :: 0 <= k <= |old(Contents())| &&
                          Contents() == old(Contents())[..k] + [node] + old(Contents())[k..]
    {
      hide Linked, Inorder, Represents, Matches, InsertUnwind, Before;
      ghost var c, m := InsertLinks(node);
      t := InsertUnwind(c, NewLeaf(node));
      store := m;
    }

    // -------------------------------------------------------------------------------------
    // Remove
    // -------------------------------------------------------------------------------------

    /** Makes p the child that the end of the path points to, or the root. */
    method ReplaceChild(path: seq<PathEntry>, p: Node, ghost c: Ctx, ghost t: Tree, ghost m: Store) returns (ghost m': Store)
      requires Matches(m) && PathOf(c) == path && Pending(c, nil, root, m) && Sorted(Whole(c, t))
      modifies this`root, m.Keys
      ensures Matches(m') && m'.Keys == m.Keys && LinkedUp(c, nil, root, p, m')
      ensures forall n :: n in m && n !in CtxNodes(c) ==> m'[n] == m[n]
      ensures m' == m || (!c.Top? && m' == Relinked(c, p, m))
    {
      m' := m;
      if |path| == 0 {
        root := p;
      } else {
        Separate(c, t);
        RelinkedUp(c, nil, root, p, m);
        var last := path[|path| - 1];
        if last.goLeft {
          m' := SetLeft(last.node, p, m);
        } else {
          m' := SetRight(last.node, p, m);
        }
      }
    }

    /** The unwinding loop of remove, from a pruned black leaf. */
    method UnwindRemove(path: seq<PathEntry>, ghost c0: Ctx, ghost m0: Store) returns (ghost m: Store)
      requires Matches(m0) && PathOf(c0) == path && Unwinding(c0, Leaf, nil, root, nil, m0)
      requires CtxOk(c0, 1)
      modifies this`root, m0.Keys
      ensures Matches(m) && m.Keys == m0.Keys && m[nil] == m0[nil]
      ensures Linked(RemoveUnwind(c0, Leaf), nil, root, m)
    {
      hide Linked, LinkedUp, Whole, Inorder, Sorted, Matches, Finishing;
      var sub := nil;
      var i := |path|;
      m := m0;
      ghost var c, s := c0, Leaf;
      ghost var final := RemoveUnwind(c0, Leaf);
      assert path[..i] == path;
      while i > 0
        invariant 0 <= i <= |path|
        invariant Matches(m) && m.Keys == m0.Keys && m[nil] == m0[nil]
        invariant Removing(c, s, final, path[..i], nil, root, sub, m)
      {
        assert path[..i][..i - 1] == path[..i - 1];
        var done;
        sub, done, s, m := RemoveRound(nil, root, path[..i], sub, c, s, final, m);
        i, c := i - 1, c.up;
        if done {
          m := FinishRemove(path[..i], path[i].node, sub, c, s, final, m);
          return;
        }
      }
      root := sub;
    }

    /** Balance is restored; a new subtree root is linked to the rest of the tree. */
    method FinishRemove(path: seq<PathEntry>, was: Node, sub: Node, ghost c: Ctx, ghost s: Tree, ghost final: Tree, ghost m: Store)
      returns (ghost m': Store)
      requires Matches(m) && PathOf(c) == path && Finishing(c, s, final, nil, root, sub, was, m)
      modifies this`root, m.Keys
      ensures Matches(m') && m'.Keys == m.Keys && m'[nil] == m[nil]
      ensures Linked(final, nil, root, m')
    {
      m' := m;
      if sub != was {
        m' := ReplaceChild(path, sub, c, s, m);
        Replaced(c, s, nil, sub, m, m');
      }
      PlugLinked(c, s, nil, root, sub, m');
    }

    /** The winding loop of remove down to the node itself. */
    method WindToNode(node: Node) returns (path: seq<PathEntry>, ghost c: Ctx, ghost cur: Tree)
      requires Valid() && node in Contents()
      ensures cur.T? && cur.node == node && Linked(cur, nil, node, store)
      ensures PathOf(c) == path && LinkedUp(c, nil, root, node, store)
      ensures Plug(c, cur) == t && Whole(c, cur) == Contents()
    {
      var p := root;
      path := [];
      c, cur := Top, t;
      assert Whole(c, cur) == Inorder(t);
      NotLost(c, cur, node);
      while p != node
        invariant Linked(cur, nil, p, store) && LinkedUp(c, nil, root, p, store)
        invariant Whole(c, cur) == Inorder(t) && Plug(c, cur) == t
        invariant Brackets(c, node.key) && PathOf(c) == path && cur.T?
        decreases cur
      {
        Open(cur, nil, p, store);
        KeysDiffer(c, cur, node);
        if node.key < p.key {
          DescendLeft(c, cur, node.key);
          path := path + [PathEntry(p, true)];
          c, cur := InLeft(cur.node, cur.red, cur.right, c), cur.left;
          p := p.left;
        } else {
          DescendRight(c, cur, node.key);
          path := path + [PathEntry(p, false)];
          c, cur := InRight(cur.node, cur.red, cur.left, c), cur.right;
          p := p.right;
        }
        NotLost(c, cur, node);
      }
    }

    /** Prunes a leaf of colour `red` out of the hole of c0. */
    method PruneLeaf(path: seq<PathEntry>, red: bool, ghost c0: Ctx, ghost m0: Store) returns (ghost m: Store)
      requires Matches(m0) && PathOf(c0) == path && Unwinding(c0, Leaf, nil, root, nil, m0)
      requires PruneOk(red, c0)
      modifies this`root, m0.Keys
      ensures Matches(m) && m.Keys == m0.Keys && m[nil] == m0[nil]
      ensures Linked(Pruned(red, c0), nil, root, m)
    {
      if red {
        m := ReplaceChild(path, nil, c0, Leaf, m0);
        Replaced(c0, Leaf, nil, nil, m0, m);
        PlugLinked(c0, Leaf, nil, root, nil, m);
      } else {
        m := UnwindRemove(path, c0, m0);
      }
    }

    /** The second half of the winding loop: right once, then left to the node's successor. */
    method WindToSuccessor(node: Node, path1: seq<PathEntry>, ghost c1: Ctx, ghost cur: Tree)
      returns (path: seq<PathEntry>, succ: Node, ghost c: Ctx, ghost s: Tree)
      requires Valid() && cur.T? && cur.right.T? && cur.node == node && Linked(cur, nil, node, store)
      requires PathOf(c1) == path1 && LinkedUp(c1, nil, root, node, store)
      requires Plug(c1, cur) == t && Whole(c1, cur) == Contents()
      ensures s.T? && s.left.Leaf? && s.node == succ && Linked(s, nil, succ, store)
      ensures LeftsBelow(c, Above(cur, c1)) && PathOf(c) == path && LinkedUp(c, nil, root, succ, store)
      ensures Plug(c, s) == t && Whole(c, s) == Contents()
    {
      hide Linked, LinkedUp, Inorder, Whole, Plug, PathOf, LeftsBelow, Represents, Above;
      GoRight(t, cur, c1, nil, root, node, store);
      succ := node.right;
      path := path1 + [PathEntry(node, false)];
      c, s := Above(cur, c1), cur.right;
      LeftChild(t, s, nil, root, succ, store);
      var next := succ.left;
      while next != nil
        invariant s.T? && s.node == succ && Linked(s, nil, succ, store) && succ in store && next == store[succ].left
        invariant next != nil <==> s.left.T?
        invariant LeftsBelow(c, Above(cur, c1)) && PathOf(c) == path && LinkedUp(c, nil, root, succ, store)
        invariant Plug(c, s) == t && Whole(c, s) == Contents()
        decreases s
      {
        GoLeft(t, s, c, Above(cur, c1), nil, root, succ, store);
        path := path + [PathEntry(succ, true)];
        succ := next;
        c, s := InLeft(s.node, s.red, s.right, c), s.left;
        LeftChild(t, s, nil, root, succ, store);
        next := succ.left;
      }
    }

    /** Swaps node with its successor: the successor takes the node's place on the path and its
        fields; what hangs at the end of the path then is the pruned leaf. */
    method SwapWithSuccessor(node: Node, succ: Node, path1: seq<PathEntry>, path: seq<PathEntry>,
                             ghost c1: Ctx, ghost cur: Tree, ghost c: Ctx, ghost s: Tree, ghost m0: Store)
      returns (path': seq<PathEntry>, ghost m: Store)
      requires Matches(m0) && nil in m0 && !m0[nil].red && nil !in Whole(c, s)
      requires cur.T? && cur.node == node && Linked(cur, nil, node, m0)
      requires PathOf(c1) == path1 && LinkedUp(c1, nil, root, node, m0)
      requires LeftsBelow(c, Above(cur, c1)) && PathOf(c) == path && LinkedUp(c, nil, root, succ, m0)
      requires s.T? && s.left.Leaf? && s.right.Leaf? && s.node == succ && Linked(s, nil, succ, m0)
      requires Sorted(Whole(c, s)) && Whole(c, s) == Whole(c1, cur)
      modifies this`root, m0.Keys
      ensures Matches(m) && m.Keys == m0.Keys && m[nil] == m0[nil]
      ensures PathOf(Graft(c, Above(cur, c1), succ)) == path'
      ensures Unwinding(Graft(c, Above(cur, c1), succ), Leaf, nil, root, nil, m)
    {
      hide Linked, LinkedUp, Inorder, PathOf, LeftsBelow, Graft, Plug, Matches, Sorted, Unwinding;
      SwapApart(c1, cur, c, s, nil);
      SwapNodes(cur, node, s, succ, nil, m0);
      SwapWhole(c1, cur, c, s);
      SortedWithout(Before(c1) + Inorder(cur.left), node, [succ] + After(c));
      GraftPath(c, Above(cur, c1), succ);
      path' := path[|path1| := PathEntry(succ, false)];
      ghost var m1 := TakeOver(node, succ, m0);
      FrameUp(c1, nil, root, node, m0, m1);
      ghost var root0 := root;
      m := ReplaceChild(path1, succ, c1, cur, m1);
      SwappedOutside(c1, node, succ, nil, m0, m1, m);
      GraftLinked(c, s, Above(cur, c1), succ, nil, root0, root, succ, m0, m);
      LeafUnwinding(Graft(c, Above(cur, c1), succ), nil, root, succ, m);
    }

    /** The successor gets the node's fields and the node the successor's colour. */
    method TakeOver(node: Node, succ: Node, ghost m: Store) returns (ghost m': Store)
      requires Matches(m) && node in m && succ in m && node != succ
      modifies node, succ
      ensures Matches(m') && m' == m[succ := m[node]][node := m[node].(red := m[succ].red)]
    {
      var tred := succ.red;
      m' := SetRed(succ, node.red, m);
      m' := SetLeft(succ, node.left, m');
      m' := SetRight(succ, node.right, m');
      m' := SetRed(node, tred, m');
      TakeOverStore(node, succ, m);
    }

    /** rb_remove for a node with a right child: its successor is pruned in its stead. */
    method RemoveInner(node: Node, path1: seq<PathEntry>, ghost c1: Ctx, ghost cur: Tree)
      returns (ghost t': Tree, ghost m: Store)
      requires Valid() && cur.T? && cur.right.T? && cur.node == node && Linked(cur, nil, node, store)
      requires PathOf(c1) == path1 && LinkedUp(c1, nil, root, node, store)
      requires Plug(c1, cur) == t && Whole(c1, cur) == Contents()
      modifies this`root, store.Keys
      ensures Matches(m) && m.Keys == store.Keys && Represents(t', nil, root, m - {node})
      ensures IsWithout(Contents(), Inorder(t'), node)
    {
      var path, succ;
      ghost var c, s;
      path, succ, c, s := WindToSuccessor(node, path1, c1, cur);
      OkPlugSplits(c, s);
      SuccessorShape(c, s);
      InnerWhole(c1, cur, c, s, t);
      m := PruneSuccessor(node, succ, path1, path, c1, cur, c, s);
      t' := Pruned(s.red, Graft(c, Above(cur, c1), succ));
      RemoveEnd(t, t', Before(c1) + Inorder(cur.left), node, [succ] + After(c), nil, root, m);
    }

    method PruneSuccessor(node: Node, succ: Node, path1: seq<PathEntry>, path: seq<PathEntry>,
                          ghost c1: Ctx, ghost cur: Tree, ghost c: Ctx, ghost s: Tree)
      returns (ghost m: Store)
      requires Valid() && cur.T? && cur.node == node && Linked(cur, nil, node, store)
      requires PathOf(c1) == path1 && LinkedUp(c1, nil, root, node, store)
      requires LeftsBelow(c, Above(cur, c1)) && PathOf(c) == path && LinkedUp(c, nil, root, succ, store)
      requires s.T? && s.left.Leaf? && s.right.Leaf? && s.node == succ && Linked(s, nil, succ, store)
      requires Whole(c, s) == Contents() && Whole(c1, cur) == Contents()
      requires PruneOk(s.red, Graft(c, Above(cur, c1), succ))
      modifies this`root, store.Keys
      ensures Matches(m) && m.Keys == store.Keys && m[nil] == store[nil]
      ensures Linked(Pruned(s.red, Graft(c, Above(cur, c1), succ)), nil, root, m)
    {
      hide Linked, LinkedUp, Inorder, Whole, Plug, PathOf, LeftsBelow, Graft, Unwinding, Pruned, PruneOk, Matches;
      PruneStart(t, s, nil, root, succ, store, c);
      var red := succ.red;
      var path';
      path', m := SwapWithSuccessor(node, succ, path1, path, c1, cur, c, s, store);
      m := PruneLeaf(path', red, Graft(c, Above(cur, c1), succ), m);
    }

    /** rb_remove for a node without a right child. */
    method RemoveOuter(node: Node, path: seq<PathEntry>, ghost c: Ctx, ghost cur: Tree)
      returns (ghost t': Tree, ghost m: Store)
      requires Valid() && cur.T? && cur.right.Leaf? && cur.node == node && Linked(cur, nil, node, store)
      requires PathOf(c) == path && LinkedUp(c, nil, root, node, store)
      requires Plug(c, cur) == t && Whole(c, cur) == Contents()
      modifies this`root, store.Keys
      ensures Matches(m) && m.Keys == store.Keys && Represents(t', nil, root, m - {node})
      ensures IsWithout(Contents(), Inorder(t'), node)
    {
      hide Linked, LinkedUp, Inorder, Whole, Plug, PathOf, Before, After, IsWithout, Sorted, Represents, Unwinding, Pruned, PruneOk, Ok, CtxOk;
      OuterStart(t, cur, c, nil, root, node, store);
      ghost var root0 := root;
      var left := node.left;
      if left != nil {
        t', m := SpliceOut(node, left, path, c, cur);
      } else if |path| == 0 {
        OnlyNode(c, cur, nil, store);
        root := nil;
        t', m := Leaf, store;
      } else {
        m := PruneLeaf(path, node.red, c, store);
        PrunedOk(cur.red, c);
        OuterPruned(c, cur);
        t' := Pruned(cur.red, c);
      }
      OuterEnd(t, t', c, cur, nil, root0, root, store, m);
    }

    /** The node's red left child is blackened and takes its place. */
    method SpliceOut(node: Node, left: Node, path: seq<PathEntry>, ghost c: Ctx, ghost cur: Tree)
      returns (ghost t': Tree, ghost m: Store)
      requires Valid() && cur.T? && cur.left.T? && cur.right.Leaf? && Linked(cur, nil, node, store) && left == cur.left.node
      requires PathOf(c) == path && LinkedUp(c, nil, root, node, store)
      requires Plug(c, cur) == t && Whole(c, cur) == Contents() && Ok(cur) && CtxOk(c, Bh(cur))
      modifies this`root, store.Keys
      ensures Matches(m) && m.Keys == store.Keys && m[nil] == store[nil] && Linked(t', nil, root, m)
      ensures Balanced(t') && Inorder(t') == (Before(c) + Inorder(cur.left)) + After(c)
    {
      ghost var s := Paint(cur.left, false);
      NodesAreInorder(t, nil);
      SpliceShape(c, cur);
      Blackened(c, cur, nil, root, node, store);
      m := SetRed(left, false, store);
      ghost var m1 := m;
      m := ReplaceChild(path, left, c, s, m1);
      Replaced(c, s, nil, left, m1, m);
      PlugLinked(c, s, nil, root, left, m);
      PlugOk(c, s);
      InorderPlug(c, s);
      t' := Plug(c, s);
    }

    /** rb_remove. */
    method Remove(node: Node)
      requires Valid() && node in Contents()
      modifies this, store.Keys
      ensures Valid() && store.Keys == old(store.Keys) - {node}
      ensures IsWithout(old(Contents()), Contents(), node)
    {
      hide Linked, LinkedUp, Inorder, Whole, Plug, PathOf, IsWithout, Represents, Matches;
      var path: seq<PathEntry>;
      ghost var c, cur, t', m;
      path, c, cur := WindToNode(node);
      RightChild(t, cur, nil, root, node, store);
      if node.right != nil {
        t', m := RemoveInner(node, path, c, cur);
      } else {
        t', m := RemoveOuter(node, path, c, cur);
      }
      t := t';
      store := m - {node};
      MatchesLess(m, node);
    }
  }

  /** The turns of the winding loop. */
  lemma GoRight(t: Tree, cur: Tree, c: Ctx, nil: Node, root: Node?, node: Node, m: Store)
    requires Represents(t, nil, root, m) && cur.T? && cur.right.T? && cur.node == node && Linked(cur, nil, node, m)
    requires LinkedUp(c, nil, root, node, m)
    ensures var c' := Above(cur, c);
            && node in m && m[node].right == cur.right.node && Linked(cur.right, nil, cur.right.node, m)
            && LinkedUp(c', nil, root, cur.right.node, m) && LeftsBelow(c', c') && PathOf(c') == PathOf(c) + [PathEntry(node, false)]
            && Plug(c', cur.right) == Plug(c, cur) && Whole(c', cur.right) == Whole(c, cur)
  {
    Open(cur, nil, node, m);
    HereInorder(Above(cur, c), cur.right);
  }

  lemma GoLeft(t: Tree, s: Tree, c: Ctx, base: Ctx, nil: Node, root: Node?, succ: Node, m: Store)
    requires Represents(t, nil, root, m) && s.T? && s.left.T? && s.node == succ && Linked(s, nil, succ, m)
    requires LinkedUp(c, nil, root, succ, m) && LeftsBelow(c, base)
    ensures var c' := InLeft(s.node, s.red, s.right, c);
            && succ in m && m[succ].left == s.left.node && Linked(s.left, nil, s.left.node, m)
            && LinkedUp(c', nil, root, s.left.node, m) && LeftsBelow(c', base) && PathOf(c') == PathOf(c) + [PathEntry(succ, true)]
            && Plug(c', s.left) == Plug(c, s) && Whole(c', s.left) == Whole(c, s)
  {
    Open(s, nil, succ, m);
    HereInorder(InLeft(s.node, s.red, s.right, c), s.left);
  }

  lemma LeftChild(t: Tree, s: Tree, nil: Node, root: Node?, succ: Node, m: Store)
    requires Represents(t, nil, root, m) && s.T? && s.node == succ && Linked(s, nil, succ, m)
    ensures succ in m && (m[succ].left != nil <==> s.left.T?)
  {
    Open(s, nil, succ, m);
  }

  lemma LeafUnwinding(c: Ctx, nil: Node, root: Node?, hole: Node?, m: Store)
    requires LinkedUp(c, nil, root, hole, m) && nil in m && !m[nil].red && nil !in Whole(c, Leaf) && Sorted(Whole(c, Leaf))
    ensures Unwinding(c, Leaf, nil, root, nil, m)
  {
    hide Whole, Sorted;
  }

  /** What the removal of a node without a right child starts from. */
  lemma OuterStart(t: Tree, cur: Tree, c: Ctx, nil: Node, root: Node?, node: Node, m: Store)
    requires Matches(m) && Represents(t, nil, root, m) && cur.T? && cur.right.Leaf? && cur.node == node && Linked(cur, nil, node, m)
    requires LinkedUp(c, nil, root, node, m) && Plug(c, cur) == t && Whole(c, cur) == Inorder(t)
    ensures Ok(cur) && CtxOk(c, Bh(cur)) && nil in m && !m[nil].red && node.red == cur.red
    ensures (node.left != nil <==> cur.left.T?) && (cur.left.T? ==> node.left == cur.left.node)
    ensures cur.left.Leaf? ==> PruneOk(cur.red, c) && Unwinding(c, Leaf, nil, root, nil, m)
  {
    hide LinkedUp, Plug, Whole, Unwinding, Sorted, PruneOk;
    OkPlugSplits(c, cur);
    Open(cur, nil, node, m);
    OuterWhole(c, cur);
    NodesAreInorder(t, nil);
    SortedWithout(Before(c) + Inorder(cur.left), node, After(c));
    if cur.left.Leaf? {
      OuterPruned(c, cur);
      LeafUnwinding(c, nil, root, node, m);
    }
  }

  /** Without children the node leaves nothing behind. */
  lemma OuterPruned(c: Ctx, cur: Tree)
    requires cur.T? && cur.right.Leaf?
    ensures cur.left.Leaf? ==> Whole(c, Leaf) == (Before(c) + Inorder(cur.left)) + After(c)
    ensures cur.left.Leaf? ==> forall n :: n in Whole(c, Leaf) ==> n in Whole(c, cur)
  {
    assert Inorder(Leaf) == [];
  }

  lemma OnlyNode(c: Ctx, cur: Tree, nil: Node, m: Store)
    requires PathOf(c) == [] && cur.T? && cur.left.Leaf?
    ensures Balanced(Leaf) && Inorder(Leaf) == (Before(c) + Inorder(cur.left)) + After(c) && Linked(Leaf, nil, nil, m)
  {
  }

  lemma OuterEnd(t: Tree, t': Tree, c: Ctx, cur: Tree, nil: Node, root: Node?, root': Node?, m: Store, m': Store)
    requires Represents(t, nil, root, m) && cur.T? && cur.right.Leaf? && Whole(c, cur) == Inorder(t) && Plug(c, cur) == t
    requires m'.Keys == m.Keys && m'[nil] == m[nil] && Linked(t', nil, root', m')
    requires Balanced(t') && Inorder(t') == (Before(c) + Inorder(cur.left)) + After(c)
    ensures Represents(t', nil, root', m' - {cur.node}) && IsWithout(Inorder(t), Inorder(t'), cur.node)
  {
    hide Linked, Plug, IsWithout, Sorted, Ok, CtxOk;
    OkPlugSplits(c, cur);
    OuterWhole(c, cur);
    RemoveEnd(t, t', Before(c) + Inorder(cur.left), cur.node, After(c), nil, root', m');
  }

  lemma SwapNodes(cur: Tree, node: Node, s: Tree, succ: Node, nil: Node, m: Store)
    requires cur.T? && cur.node == node && Linked(cur, nil, node, m) && s.T? && s.node == succ && Linked(s, nil, succ, m)
    ensures node in m && succ in m && Linked(Leaf, nil, nil, m)
  {
  }

  /** What the pruning of a successor starts from. */
  lemma PruneStart(t: Tree, s: Tree, nil: Node, root: Node?, succ: Node, m: Store, c: Ctx)
    requires Matches(m) && Represents(t, nil, root, m) && s.T? && s.node == succ && Linked(s, nil, succ, m) && Whole(c, s) == Inorder(t)
    ensures nil in m && !m[nil].red && nil !in Whole(c, s) && Sorted(Whole(c, s)) && succ.red == s.red
  {
    NodesAreInorder(t, nil);
    Open(s, nil, succ, m);
  }

  /** Whether the node has a right child. */
  lemma RightChild(t: Tree, cur: Tree, nil: Node, root: Node?, node: Node, m: Store)
    requires Matches(m) && Represents(t, nil, root, m) && cur.T? && Linked(cur, nil, node, m)
    ensures node.right != nil <==> cur.right.T?
  {
    Open(cur, nil, node, m);
  }

  lemma MatchesLess(m: Store, node: Node)
    requires Matches(m)
    ensures Matches(m - {node})
  {
  }

  lemma FoundOrMissing(c: Ctx, t: Tree)
    ensures t.T? ==> t.node in Whole(c, t)
    ensures t.Leaf? ==> forall n :: n in Whole(c, t) <==> n in Before(c) || n in After(c)
  {
    if t.T? {
      assert t.node in Inorder(t);
    }
  }

  function NewLeaf(node: Node): Tree {
    T(node, Leaf, Leaf, true)
  }

  lemma NotInRound(c: Ctx, t: Tree, n: Node)
    requires !c.Top? && n !in Whole(c, t)
    ensures n !in RoundNodes(c, t)
  {
    HereInorder(c, t);
    HereNodes(c, t);
    NodesAreInorder(Here(c, t), n);
  }

  lemma InsertWhole(c: Ctx, t: Tree)
    requires !c.Top?
    ensures Whole(c.up, InsertStep(c, t).0) == Whole(c, t)
  {
    HereInorder(c, t);
    InsertStepInorder(c, t);
  }

  lemma PaintedRoot(t: Tree, nil: Node, root: Node?, p: Node, m: Store, m': Store)
    requires t.T? && Unwinding(Top, t, nil, root, p, m)
    requires p in m && m' == m[p := m[p].(red := false)]
    ensures Linked(Paint(t, false), nil, p, m') && m'[nil] == m[nil]
  {
    assert Whole(Top, t) == Inorder(t);
    SortedIsDistinct(t);
    NodesAreInorder(t, nil);
    Frame(t.left, nil, m[p].left, m, m');
    Frame(t.right, nil, m[p].right, m, m');
  }

  /** The leaf is found, and the new node goes there. */
  lemma InsertStart(c: Ctx, t: Tree, nil: Node, root: Node, node: Node, m: Store, m': Store)
    requires Plug(c, Leaf) == t && Whole(c, Leaf) == Inorder(t) && Sorted(Inorder(t)) && Brackets(c, node.key)
    requires nil in m && !m[nil].red && m.Keys == Nodes(t) + {nil} && nil !in Nodes(t) && node !in m
    requires LinkedUp(c, nil, root, nil, m) && m' == m[node := Cell(nil, nil, true)]
    ensures Unwinding(c, NewLeaf(node), nil, root, node, m')
  {
    forall n | n in CtxNodes(c) ensures n != node {
      CtxNodesAreAround(c, n);
      NodesAreInorder(t, n);
    }
    FrameUp(c, nil, root, nil, m, m');
    NewLeafWhole(c, node);
    SortedInsert(Before(c), node, After(c));
    NodesAreInorder(t, nil);
  }

  lemma SortedInsert(a: seq<Node>, n: Node, b: seq<Node>)
    requires Sorted(a + b)
    requires (forall x :: x in a ==> x.key < n.key) && (forall x :: x in b ==> n.key < x.key)
    ensures Sorted(a + [n] + b)
  {
    var s, s' := a + b, a + [n] + b;
    forall i, j | 0 <= i < j < |s'| ensures s'[i].key < s'[j].key {
      if i != |a| && j != |a| {
        assert s'[i] == s[if i < |a| then i else i - 1] && s'[j] == s[if j < |a| then j else j - 1];
      }
    }
  }

  lemma NewLeafWhole(c: Ctx, node: Node)
    ensures Whole(c, Leaf) == Before(c) + After(c)
    ensures Whole(c, NewLeaf(node)) == Before(c) + [node] + After(c)
  {
    assert Inorder(NewLeaf(node)) == [node];
  }

  lemma InsertEnd(c: Ctx, t: Tree, node: Node, nil: Node, root: Node?, m: Store, m': Store)
    requires Plug(c, Leaf) == t && Balanced(t) && Sorted(Inorder(t)) && Brackets(c, node.key)
    requires m.Keys == Nodes(t) + {nil} && nil !in Nodes(t) && node !in m
    requires m'.Keys == m.Keys + {node} && !m'[nil].red
    requires Linked(InsertUnwind(c, NewLeaf(node)), nil, root, m')
    ensures var t' := InsertUnwind(c, NewLeaf(node));
            && Represents(t', nil, root, m')
            && var k := |Before(c)|;
               k <= |Inorder(t)| && Inorder(t') == Inorder(t)[..k] + [node] + Inorder(t)[k..]
  {
    var t' := InsertUnwind(c, NewLeaf(node));
    OkPlugSplits(c, Leaf);
    InsertUnwindBalanced(c, NewLeaf(node));
    InsertUnwindInorder(c, NewLeaf(node));
    InorderPlug(c, Leaf);
    NewLeafWhole(c, node);
    SortedInsert(Before(c), node, After(c));
    InsertedNodes(t, t', Before(c), node, After(c));
  }

  lemma InsertedNodes(t: Tree, t': Tree, a: seq<Node>, node: Node, b: seq<Node>)
    requires Inorder(t) == a + b && Inorder(t') == a + [node] + b
    ensures Nodes(t') == Nodes(t) + {node}
    ensures Inorder(t') == Inorder(t)[..|a|] + [node] + Inorder(t)[|a|..]
  {
    forall n | n in Nodes(t') ensures n in Nodes(t) + {node} {
      NodesAreInorder(t', n);
      NodesAreInorder(t, n);
      InMiddle(a, node, b, n);
    }
    forall n | n in Nodes(t) + {node} ensures n in Nodes(t') {
      NodesAreInorder(t', n);
      NodesAreInorder(t, n);
      InMiddle(a, node, b, n);
    }
  }

  lemma InMiddle(a: seq<Node>, node: Node, b: seq<Node>, n: Node)
    ensures n in a + [node] + b <==> n in a + b || n == node
  {
    assert n in a + b <==> n in a || n in b;
    assert n in a + [node] + b <==> n in a || n in [node] || n in b;
  }

  lemma Replaced(c: Ctx, t: Tree, nil: Node, p: Node, m: Store, m': Store)
    requires Linked(t, nil, p, m) && Sorted(Whole(c, t)) && nil !in Whole(c, t) && nil in m
    requires m' == m || (!c.Top? && c.node in m && m' == Relinked(c, p, m))
    ensures Linked(t, nil, p, m') && m'[nil] == m[nil]
  {
    if !c.Top? {
      Separate(c, t);
      NotInRound(c, t, nil);
      Frame(t, nil, p, m, m');
    }
  }

  lemma NotLost(c: Ctx, t: Tree, node: Node)
    requires node in Whole(c, t) && Brackets(c, node.key)
    ensures t.T?
  {
  }

  lemma KeysDiffer(c: Ctx, t: Tree, node: Node)
    requires t.T? && t.node != node && node in Whole(c, t) && Sorted(Whole(c, t))
    ensures t.node.key != node.key
  {
    var s := Whole(c, t);
    FoundOrMissing(c, t);
    var i :| 0 <= i < |s| && s[i] == t.node;
    var j :| 0 <= j < |s| && s[j] == node;
  }

  /** A leaf of the given colour fits the hole of c. */
  predicate PruneOk(red: bool, c: Ctx) {
    if red then MayBeRed(c) && CtxOk(c, 0) else CtxOk(c, 1)
  }

  /** The tree that remains after a leaf of the given colour is pruned out of the hole of c. */
  function Pruned(red: bool, c: Ctx): Tree
    requires PruneOk(red, c)
  {
    if red then Plug(c, Leaf) else RemoveUnwind(c, Leaf)
  }

  lemma PrunedOk(red: bool, c: Ctx)
    requires PruneOk(red, c)
    ensures Balanced(Pruned(red, c)) && Inorder(Pruned(red, c)) == Whole(c, Leaf)
  {
    if red {
      PlugOk(c, Leaf);
      InorderPlug(c, Leaf);
    } else {
      RemoveUnwindBalanced(c, Leaf);
      RemoveUnwindInorder(c, Leaf);
    }
  }

  // ---------------------------------------------------------------------------------------
  // Swapping a node with its successor
  // ---------------------------------------------------------------------------------------

  /** The path that goes right at the root of t. */
  function Above(t: Tree, c: Ctx): Ctx
    requires t.T?
  {
    InRight(t.node, t.red, t.left, c)
  }

  /** c continues base by going left only. */
  predicate LeftsBelow(c: Ctx, base: Ctx) {
    c == base || (c.InLeft? && LeftsBelow(c.up, base))
  }

  /** c with node n in the place of the last node of base. */
  function Graft(c: Ctx, base: Ctx, n: Node): Ctx
    requires base.InRight? && LeftsBelow(c, base)
  {
    if c == base then InRight(n, base.red, base.other, base.up)
    else InLeft(c.node, c.red, c.other, Graft(c.up, base, n))
  }

  lemma {:induction false} GraftShape(c: Ctx, base: Ctx, n: Node, h: nat)
    requires base.InRight? && LeftsBelow(c, base)
    ensures var c' := Graft(c, base, n);
            && Before(c) == Before(base) && Before(c') == Before(base.up) + Inorder(base.other) + [n]
            && After(c') == After(c)
            && (CtxOk(c', h) <==> CtxOk(c, h)) && MayBeRed(c') == MayBeRed(c)
    decreases c
  {
    if c != base {
      GraftShape(c.up, base, n, h + if c.red then 0 else 1);
    }
  }

  lemma {:induction false} GraftPath(c: Ctx, base: Ctx, n: Node)
    requires base.InRight? && LeftsBelow(c, base)
    ensures var k := |PathOf(base.up)|;
            k < |PathOf(c)| && PathOf(Graft(c, base, n)) == PathOf(c)[k := PathEntry(n, false)]
  {
    if c != base {
      GraftPath(c.up, base, n);
    }
  }

  /** After the swap, the path with succ in the node's place is linked. */
  lemma {:induction false} GraftLinked(c: Ctx, t: Tree, base: Ctx, succ: Node, nil: Node, root: Node?, root': Node?, hole: Node?, m: Store, m': Store)
    requires LeftsBelow(c, base) && base.InRight? && Sorted(Whole(c, t)) && succ in Nodes(t)
    requires LinkedUp(c, nil, root, hole, m) && m'.Keys == m.Keys && succ in m
    requires forall n :: n in m && n != succ && n != base.node && n !in CtxNodes(base.up) ==> m'[n] == m[n]
    requires base.node in m && m'[succ] == m[base.node]
    requires LinkedUp(base.up, nil, root', succ, m') && succ != nil
    ensures LinkedUp(Graft(c, base, succ), nil, root', hole, m')
    decreases c
  {
    Separate(c, t);
    if c == base {
      Frame(base.other, nil, m[base.node].left, m, m');
    } else {
      assert base.node in CtxNodes(c.up) && CtxNodes(base.up) <= CtxNodes(c.up) by { LeftsNodes(c.up, base); }
      Frame(c.other, nil, m[c.node].right, m, m');
      HereInorder(c, t);
      HereNodes(c, t);
      GraftLinked(c.up, Here(c, t), base, succ, nil, root, root', c.node, m, m');
    }
  }

  lemma {:induction false} LeftsNodes(c: Ctx, base: Ctx)
    requires LeftsBelow(c, base) && base.InRight?
    ensures base.node in CtxNodes(c) && CtxNodes(base.up) <= CtxNodes(c)
  {
    if c != base {
      LeftsNodes(c.up, base);
    }
  }

  /** The successor has no children, so its colour decides how it is pruned. */
  lemma SuccessorShape(c: Ctx, s: Tree)
    requires s.T? && s.left.Leaf? && Ok(s) && CtxOk(c, Bh(s)) && (IsRed(s) ==> MayBeRed(c))
    ensures s.right.Leaf? && PruneOk(s.red, c)
  {
  }

  /** The sequence without the node at position k. */
  ghost predicate IsWithout(s: seq<Node>, s': seq<Node>, node: Node) {
    exists k :: 0 <= k < |s| && s[k] == node && s' == s[..k] + s[k + 1..]
  }

  lemma Without(a: seq<Node>, node: Node, b: seq<Node>)
    ensures IsWithout(a + [node] + b, a + b, node)
  {
    var s := a + [node] + b;
    assert s[|a|] == node && a + b == s[..|a|] + s[|a| + 1..];
  }

  lemma SortedWithout(a: seq<Node>, node: Node, b: seq<Node>)
    requires Sorted(a + [node] + b)
    ensures Sorted(a + b) && node !in a + b
  {
    var s, s' := a + [node] + b, a + b;
    forall i, j | 0 <= i < j < |s'| ensures s'[i].key < s'[j].key {
      assert s'[i] == s[if i < |a| then i else i + 1] && s'[j] == s[if j < |a| then j else j + 1];
    }
    forall i | 0 <= i < |s'| ensures s'[i] != node {
      assert s[|a|] == node;
      assert s'[i] == s[if i < |a| then i else i + 1];
    }
  }

  lemma {:induction false} FrameWithout(t: Tree, nil: Node, p: Node?, m: Store, node: Node)
    requires Linked(t, nil, p, m) && node !in Nodes(t)
    ensures Linked(t, nil, p, m - {node})
  {
    if t.T? {
      FrameWithout(t.left, nil, m[t.node].left, m, node);
      FrameWithout(t.right, nil, m[t.node].right, m, node);
    }
  }

  /** The remaining tree is represented by the remaining store. */
  lemma RemoveEnd(t: Tree, t': Tree, a: seq<Node>, node: Node, b: seq<Node>, nil: Node, root: Node?, m: Store)
    requires Inorder(t) == a + [node] + b && Inorder(t') == a + b && Sorted(Inorder(t)) && Balanced(t')
    requires m.Keys == Nodes(t) + {nil} && nil !in Nodes(t) && !m[nil].red && Linked(t', nil, root, m)
    ensures Represents(t', nil, root, m - {node}) && IsWithout(Inorder(t), Inorder(t'), node)
  {
    SortedWithout(a, node, b);
    Without(a, node, b);
    InsertedNodes(t', t, a, node, b);
    NodesAreInorder(t', node);
    FrameWithout(t', nil, root, m, node);
    NodesAreInorder(t, node);
    assert node in [node];
  }

  lemma WholeApart(c: Ctx, t: Tree, n: Node)
    requires Sorted(Whole(c, t))
    ensures CtxNodes(c) !! Nodes(t)
    ensures n !in Whole(c, t) ==> n !in CtxNodes(c) && n !in Nodes(t)
  {
    SortedSplit(Before(c) + Inorder(t), After(c));
    SortedSplit(Before(c), Inorder(t));
    CtxDisjoint(c, t);
    CtxNodesAreAround(c, n);
    NodesAreInorder(t, n);
  }

  lemma SwapApart(c1: Ctx, cur: Tree, c: Ctx, s: Tree, nil: Node)
    requires cur.T? && s.T? && LeftsBelow(c, Above(cur, c1))
    requires Sorted(Whole(c, s)) && nil !in Whole(c, s) && Whole(c, s) == Whole(c1, cur)
    ensures s.node != cur.node && s.node !in CtxNodes(c1) && cur.node !in CtxNodes(c1)
    ensures s.node != nil && cur.node != nil && nil !in CtxNodes(c1)
  {
    WholeApart(c1, cur, nil);
    WholeApart(c, s, nil);
    LeftsNodes(c, Above(cur, c1));
  }

  lemma TakeOverStore(node: Node, succ: Node, m: Store)
    requires node in m && succ in m && node != succ
    ensures (var m1 := m[succ := m[succ].(red := m[node].red)];
             var m2 := m1[succ := m1[succ].(left := m[node].left)];
             var m3 := m2[succ := m2[succ].(right := m[node].right)];
             m3[node := m3[node].(red := m[succ].red)])
         == m[succ := m[node]][node := m[node].(red := m[succ].red)]
  {
  }

  lemma SwappedOutside(c1: Ctx, node: Node, succ: Node, nil: Node, m0: Store, m1: Store, m: Store)
    requires node in m0 && succ in m0 && nil in m0 && node != succ && nil != node && nil != succ
    requires succ !in CtxNodes(c1) && nil !in CtxNodes(c1)
    requires m1 == m0[succ := m0[node]][node := m0[node].(red := m0[succ].red)] && m.Keys == m1.Keys
    requires forall n :: n in m1 && n !in CtxNodes(c1) ==> m[n] == m1[n]
    ensures forall n :: n in m0 && n != succ && n != node && n !in CtxNodes(c1) ==> m[n] == m0[n]
    ensures m.Keys == m0.Keys && m[succ] == m0[node] && m[nil] == m0[nil]
  {
  }

  /** The key sequence after the swap lacks exactly the node. */
  lemma SwapWhole(c1: Ctx, cur: Tree, c: Ctx, s: Tree)
    requires cur.T? && s.T? && s.left.Leaf? && s.right.Leaf? && LeftsBelow(c, Above(cur, c1))
    ensures var p := Before(c1) + Inorder(cur.left);
            && Whole(c, s) == p + [cur.node] + ([s.node] + After(c))
            && Whole(Graft(c, Above(cur, c1), s.node), Leaf) == p + ([s.node] + After(c))
  {
    hide Graft, LeftsBelow, Before, After, Inorder;
    var p := Before(c1) + Inorder(cur.left);
    GraftShape(c, Above(cur, c1), s.node, 0);
    AboveBefore(cur, c1);
    OneNode(s);
    Regroup(p, [cur.node], [s.node], After(c));
    Regroup(p, [s.node], [], After(c));
  }

  lemma AboveBefore(cur: Tree, c1: Ctx)
    requires cur.T?
    ensures Before(Above(cur, c1)) == Before(c1) + Inorder(cur.left) + [cur.node]
  {
  }

  lemma OneNode(s: Tree)
    requires s.T? && s.left.Leaf? && s.right.Leaf?
    ensures Inorder(s) == [s.node] && Inorder(Leaf) == []
  {
  }

  lemma Regroup(a: seq<Node>, b: seq<Node>, c: seq<Node>, d: seq<Node>)
    ensures a + b + c + d == a + b + (c + d) && a + b + d == a + (b + d)
    ensures c == [] ==> a + b + c + d == a + (b + d)
  {
  }

  lemma OuterWhole(c: Ctx, cur: Tree)
    requires cur.T? && cur.right.Leaf? && Ok(cur) && CtxOk(c, Bh(cur)) && (IsRed(cur) ==> MayBeRed(c))
    ensures Whole(c, cur) == (Before(c) + Inorder(cur.left)) + [cur.node] + After(c)
    ensures cur.left.Leaf? ==> PruneOk(cur.red, c)
  {
  }

  lemma SpliceShape(c: Ctx, cur: Tree)
    requires cur.T? && cur.left.T? && cur.right.Leaf? && Ok(cur) && CtxOk(c, Bh(cur))
    ensures var s := Paint(cur.left, false);
            && Ok(s) && Bh(s) == Bh(cur) && Whole(c, s) == (Before(c) + Inorder(cur.left)) + After(c)
            && Whole(c, cur) == (Before(c) + Inorder(cur.left)) + [cur.node] + After(c)
  {
    BlackenOk(cur.left);
  }

  lemma Blackened(c: Ctx, cur: Tree, nil: Node, root: Node?, p: Node, m: Store)
    requires cur.T? && cur.left.T? && cur.right.Leaf? && Sorted(Whole(c, cur)) && nil !in Whole(c, cur)
    requires Whole(c, cur) == (Before(c) + Inorder(cur.left)) + [cur.node] + After(c)
    requires Linked(cur, nil, p, m) && LinkedUp(c, nil, root, p, m) && nil in m && !m[nil].red
    requires Whole(c, Paint(cur.left, false)) == (Before(c) + Inorder(cur.left)) + After(c)
    ensures var left := cur.left.node;
            && left in m
            && var m' := m[left := m[left].(red := false)];
               && Linked(Paint(cur.left, false), nil, left, m') && LinkedUp(c, nil, root, p, m')
               && m'[nil] == m[nil]
    ensures Sorted(Whole(c, Paint(cur.left, false))) && nil !in Whole(c, Paint(cur.left, false))
  {
    var l := cur.left;
    Open(cur, nil, p, m);
    Open(l, nil, l.node, m);
    var m' := m[l.node := m[l.node].(red := false)];
    SortedWithout(Before(c) + Inorder(l), cur.node, After(c));
    WholeApart(c, cur, nil);
    FrameUp(c, nil, root, p, m, m');
    WholeSubtree(c, cur);
    Frame(l.left, nil, m[l.node].left, m, m');
    Frame(l.right, nil, m[l.node].right, m, m');
  }

  lemma WholeSubtree(c: Ctx, t: Tree)
    requires Sorted(Whole(c, t))
    ensures Distinct(t)
  {
    SortedSplit(Before(c) + Inorder(t), After(c));
    SortedSplit(Before(c), Inorder(t));
    SortedIsDistinct(t);
  }

  lemma InnerWhole(c1: Ctx, cur: Tree, c: Ctx, s: Tree, t: Tree)
    requires cur.T? && s.T? && s.left.Leaf? && s.right.Leaf? && LeftsBelow(c, Above(cur, c1))
    requires Whole(c, s) == Inorder(t) && PruneOk(s.red, c)
    ensures var c' := Graft(c, Above(cur, c1), s.node);
            && PruneOk(s.red, c') && Balanced(Pruned(s.red, c'))
            && Inorder(t) == Before(c1) + Inorder(cur.left) + [cur.node] + ([s.node] + After(c))
            && Inorder(Pruned(s.red, c')) == Before(c1) + Inorder(cur.left) + ([s.node] + After(c))
  {
    GraftShape(c, Above(cur, c1), s.node, if s.red then 0 else 1);
    SwapWhole(c1, cur, c, s);
    PrunedOk(s.red, Graft(c, Above(cur, c1), s.node));
  }
}
