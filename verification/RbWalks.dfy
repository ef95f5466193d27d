/** The read-only walks of rb_gen in include/nvalloc/internal/rb.h: first, last, next, prev, and the
    searches for the nearest key. */
module RbWalks {
  import opened RbSpec
  import opened RbTrees
  import opened RbOps

  /** The first element of a sequence, or the sentinel. */
  function FirstOr(s: seq<Node>, nil: Node): Node {
    if s == [] then nil else s[0]
  }

  function LastOr(s: seq<Node>, nil: Node): Node {
    if s == [] then nil else s[|s| - 1]
  }

  lemma FirstOrOfSum(a: seq<Node>, b: seq<Node>, nil: Node)
    ensures FirstOr(a + b, nil) == FirstOr(a, FirstOr(b, nil))
    ensures LastOr(a + b, nil) == LastOr(b, LastOr(a, nil))
  {
  }

  /** rbtn_first: the leftmost node of the subtree at p. */
  method First(tree: RbTree, p: Node, ghost sub: Tree) returns (ret: Node)
    requires tree.Valid() && Linked(sub, tree.nil, p, tree.store)
    ensures ret == FirstOr(Inorder(sub), tree.nil)
  {
    ret := p;
    ghost var cur := sub;
    if ret != tree.nil {
      Open(cur, tree.nil, ret, tree.store);
      while ret.left != tree.nil
        invariant cur.T? && Linked(cur, tree.nil, ret, tree.store)
        invariant FirstOr(Inorder(cur), tree.nil) == FirstOr(Inorder(sub), tree.nil)
        invariant ret in tree.store && ret.left == tree.store[ret].left
        decreases cur
      {
        Open(cur, tree.nil, ret, tree.store);
        FirstOrOfSum(Inorder(cur.left), [cur.node] + Inorder(cur.right), tree.nil);
        assert Inorder(cur) == Inorder(cur.left) + ([cur.node] + Inorder(cur.right));
        ret := ret.left;
        cur := cur.left;
        Open(cur, tree.nil, ret, tree.store);
        Subtree(cur);
      }
      assert cur.left.Leaf?;
    }
  }

  lemma Subtree(t: Tree)
    requires t.T?
    ensures t.node in Inorder(t) && Inorder(t) != []
  {
    assert t.node in Inorder(t);
  }

  /** rbtn_last. */
  method Last(tree: RbTree, p: Node, ghost sub: Tree) returns (ret: Node)
    requires tree.Valid() && Linked(sub, tree.nil, p, tree.store)
    ensures ret == LastOr(Inorder(sub), tree.nil)
  {
    ret := p;
    ghost var cur := sub;
    if ret != tree.nil {
      Open(cur, tree.nil, ret, tree.store);
      while ret.right != tree.nil
        invariant cur.T? && Linked(cur, tree.nil, ret, tree.store)
        invariant LastOr(Inorder(cur), tree.nil) == LastOr(Inorder(sub), tree.nil)
        invariant ret in tree.store && ret.right == tree.store[ret].right
        decreases cur
      {
        Open(cur, tree.nil, ret, tree.store);
        FirstOrOfSum(Inorder(cur.left) + [cur.node], Inorder(cur.right), tree.nil);
        ret := ret.right;
        cur := cur.right;
        Open(cur, tree.nil, ret, tree.store);
        Subtree(cur);
      }
      assert cur.right.Leaf?;
    }
  }

  /** What next returns: the node after `node` in key order. */
  ghost predicate IsNext(s: seq<Node>, node: Node, ret: Node?) {
    exists i :: 0 <= i < |s| && s[i] == node && ret == if i + 1 < |s| then s[i + 1] else null
  }

  ghost predicate IsPrev(s: seq<Node>, node: Node, ret: Node?) {
    exists i :: 0 <= i < |s| && s[i] == node && ret == if i > 0 then s[i - 1] else null
  }

  lemma NextOf(a: seq<Node>, node: Node, b: seq<Node>, nil: Node)
    requires nil !in a + [node] + b
    ensures IsNext(a + [node] + b, node, if FirstOr(b, nil) == nil then null else FirstOr(b, nil))
    ensures IsPrev(a + [node] + b, node, if LastOr(a, nil) == nil then null else LastOr(a, nil))
  {
    var s := a + [node] + b;
    assert s[|a|] == node;
    assert b != [] ==> s[|a| + 1] == b[0] && b[0] in s;
    if a != [] {
      assert s[|a| - 1] == a[|a| - 1] && s[|a| - 1] in s;
      assert LastOr(a, nil) == s[|a| - 1];
    } else {
      assert s[0] == node && IsPrev(s, node, null);
    }
  }

  lemma AroundNode(c: Ctx, cur: Tree)
    requires cur.T?
    ensures Whole(c, cur) == (Before(c) + Inorder(cur.left)) + [cur.node] + (Inorder(cur.right) + After(c))
  {
  }

  /** The descent that next and prev share: the place of `node`, with the nodes on its two sides
      at which the path turned last. */
  method Locate(tree: RbTree, node: Node) returns (above: Node, below: Node, ghost c: Ctx, ghost cur: Tree)
    requires tree.Valid() && node in tree.Contents()
    ensures cur.T? && cur.node == node && Linked(cur, tree.nil, node, tree.store)
    ensures Whole(c, cur) == tree.Contents()
    ensures above == FirstOr(After(c), tree.nil) && below == LastOr(Before(c), tree.nil)
  {
    var tnode := tree.root;
    above, below := tree.nil, tree.nil;
    c, cur := Top, tree.t;
    assert Whole(c, cur) == Inorder(tree.t);
    NotLost(c, cur, node);
    while node.key != tnode.key
      invariant Linked(cur, tree.nil, tnode, tree.store)
      invariant Whole(c, cur) == tree.Contents() && Brackets(c, node.key) && cur.T?
      invariant above == FirstOr(After(c), tree.nil) && below == LastOr(Before(c), tree.nil)
      decreases cur
    {
      Open(cur, tree.nil, tnode, tree.store);
      if node.key < tnode.key {
        DescendLeft(c, cur, node.key);
        above := tnode;
        c, cur := InLeft(cur.node, cur.red, cur.right, c), cur.left;
        tnode := tnode.left;
      } else {
        DescendRight(c, cur, node.key);
        below := tnode;
        c, cur := InRight(cur.node, cur.red, cur.left, c), cur.right;
        tnode := tnode.right;
      }
      NotLost(c, cur, node);
    }
    if cur.node != node {
      KeysDiffer(c, cur, node);
    }
  }

  /** rb_next. */
  method Next(tree: RbTree, node: Node) returns (ret: Node?)
    requires tree.Valid() && node in tree.Contents()
    ensures IsNext(tree.Contents(), node, ret)
  {
    var above, below;
    ghost var c, cur;
    above, below, c, cur := Locate(tree, node);
    Open(cur, tree.nil, node, tree.store);
    NodesAreInorder(tree.t, tree.nil);
    AroundNode(c, cur);
    NextOf(Before(c) + Inorder(cur.left), node, Inorder(cur.right) + After(c), tree.nil);
    FirstOrOfSum(Inorder(cur.right), After(c), tree.nil);
    var found := above;
    if node.right != tree.nil {
      found := First(tree, node.right, cur.right);
      Subtree(cur.right);
    }
    ret := if found == tree.nil then null else found;
  }

  /** rb_prev. */
  method Prev(tree: RbTree, node: Node) returns (ret: Node?)
    requires tree.Valid() && node in tree.Contents()
    ensures IsPrev(tree.Contents(), node, ret)
  {
    var above, below;
    ghost var c, cur;
    above, below, c, cur := Locate(tree, node);
    Open(cur, tree.nil, node, tree.store);
    NodesAreInorder(tree.t, tree.nil);
    AroundNode(c, cur);
    NextOf(Before(c) + Inorder(cur.left), node, Inorder(cur.right) + After(c), tree.nil);
    FirstOrOfSum(Before(c), Inorder(cur.left), tree.nil);
    var found := below;
    if node.left != tree.nil {
      found := Last(tree, node.left, cur.left);
      Subtree(cur.left);
    }
    ret := if found == tree.nil then null else found;
  }

  /** The node with the least key that is at least `key`. */
  ghost predicate IsNearestAbove(s: seq<Node>, key: int, ret: Node?) {
    if ret == null then forall n :: n in s ==> n.key < key
    else ret in s && key <= ret.key && forall n :: n in s && key <= n.key ==> ret.key <= n.key
  }

  ghost predicate IsNearestBelow(s: seq<Node>, key: int, ret: Node?) {
    if ret == null then forall n :: n in s ==> key < n.key
    else ret in s && ret.key <= key && forall n :: n in s && n.key <= key ==> n.key <= ret.key
  }

  lemma NearestOfSplit(a: seq<Node>, b: seq<Node>, key: int, nil: Node)
    requires Sorted(a + b) && nil !in a + b
    requires (forall n :: n in a ==> n.key < key) && (forall n :: n in b ==> key < n.key)
    ensures IsNearestAbove(a + b, key, if FirstOr(b, nil) == nil then null else FirstOr(b, nil))
    ensures IsNearestBelow(a + b, key, if LastOr(a, nil) == nil then null else LastOr(a, nil))
  {
    SortedSplit(a, b);
    assert b != [] ==> b[0] in b;
    assert a != [] ==> a[|a| - 1] in a;
  }

  lemma NearestIsEqual(c: Ctx, cur: Tree, key: int)
    requires cur.T? && cur.node.key == key
    ensures IsNearestAbove(Whole(c, cur), key, cur.node) && IsNearestBelow(Whole(c, cur), key, cur.node)
  {
    FoundOrMissing(c, cur);
  }

  /** What a turn of the walk does to the nodes right before and right after the hole. */
  lemma TurnedRight(c: Ctx, t: Tree, nil: Node)
    requires t.T?
    ensures var c' := InRight(t.node, t.red, t.left, c); LastOr(Before(c'), nil) == t.node && FirstOr(After(c'), nil) == FirstOr(After(c), nil)
  {
  }

  lemma TurnedLeft(c: Ctx, t: Tree, nil: Node)
    requires t.T?
    ensures var c' := InLeft(t.node, t.red, t.right, c); FirstOr(After(c'), nil) == t.node && LastOr(Before(c'), nil) == LastOr(Before(c), nil)
  {
  }

  lemma WalkStart(t: Tree, nil: Node, root: Node?, m: Store, key: int)
    requires Represents(t, nil, root, m)
    ensures nil in m && !m[nil].red && nil !in Inorder(t) && Sorted(Inorder(t)) && Linked(t, nil, root, m)
    ensures Whole(Top, t) == Inorder(t) && Brackets(Top, key) && FirstOr(After(Top), nil) == nil && LastOr(Before(Top), nil) == nil
  {
    NodesAreInorder(t, nil);
  }

  /** Where the walk ends. */
  lemma WalkEnd(c: Ctx, cur: Tree, key: int, nil: Node, m: Store)
    requires Linked(cur, nil, nil, m) && Brackets(c, key) && Sorted(Whole(c, cur)) && nil !in Whole(c, cur)
    ensures var found := FirstOr(After(c), nil); IsNearestAbove(Whole(c, cur), key, if found == nil then null else found)
    ensures var found := LastOr(Before(c), nil); IsNearestBelow(Whole(c, cur), key, if found == nil then null else found)
  {
    assert Whole(c, cur) == Before(c) + After(c);
    NearestOfSplit(Before(c), After(c), key, nil);
  }

  /** rb_nsearch. */
  method Nsearch(tree: RbTree, key: int) returns (ret: Node?)
    requires tree.Valid()
    ensures IsNearestAbove(tree.Contents(), key, ret)
  {
    hide Inorder, Whole, Before, After, FirstOr, LastOr, Brackets, Sorted, IsNearestAbove, IsNearestBelow, Represents;
    var tnode := tree.root;
    var found := tree.nil;
    ghost var c, cur := Top, tree.t;
    WalkStart(tree.t, tree.nil, tree.root, tree.store, key);
    while tnode != tree.nil
      invariant Linked(cur, tree.nil, tnode, tree.store)
      invariant Whole(c, cur) == tree.Contents() && Brackets(c, key)
      invariant found == FirstOr(After(c), tree.nil)
      decreases cur
    {
      Open(cur, tree.nil, tnode, tree.store);
      if key < tnode.key {
        DescendLeft(c, cur, key);
        TurnedLeft(c, cur, tree.nil);
        found := tnode;
        c, cur := InLeft(cur.node, cur.red, cur.right, c), cur.left;
        tnode := tnode.left;
      } else if key > tnode.key {
        DescendRight(c, cur, key);
        TurnedRight(c, cur, tree.nil);
        c, cur := InRight(cur.node, cur.red, cur.left, c), cur.right;
        tnode := tnode.right;
      } else {
        NearestIsEqual(c, cur, key);
        return tnode;
      }
    }
    WalkEnd(c, cur, key, tree.nil, tree.store);
    ret := if found == tree.nil then null else found;
  }

  /** rb_psearch. */
  method Psearch(tree: RbTree, key: int) returns (ret: Node?)
    requires tree.Valid()
    ensures IsNearestBelow(tree.Contents(), key, ret)
  {
    hide Inorder, Whole, Before, After, FirstOr, LastOr, Brackets, Sorted, IsNearestAbove, IsNearestBelow, Represents;
    var tnode := tree.root;
    var found := tree.nil;
    ghost var c, cur := Top, tree.t;
    WalkStart(tree.t, tree.nil, tree.root, tree.store, key);
    while tnode != tree.nil
      invariant Linked(cur, tree.nil, tnode, tree.store)
      invariant Whole(c, cur) == tree.Contents() && Brackets(c, key)
      invariant found == LastOr(Before(c), tree.nil)
      decreases cur
    {
      Open(cur, tree.nil, tnode, tree.store);
      if key < tnode.key {
        DescendLeft(c, cur, key);
        TurnedLeft(c, cur, tree.nil);
        c, cur := InLeft(cur.node, cur.red, cur.right, c), cur.left;
        tnode := tnode.left;
      } else if key > tnode.key {
        DescendRight(c, cur, key);
        TurnedRight(c, cur, tree.nil);
        found := tnode;
        c, cur := InRight(cur.node, cur.red, cur.left, c), cur.right;
        tnode := tnode.right;
      } else {
        NearestIsEqual(c, cur, key);
        return tnode;
      }
    }
    WalkEnd(c, cur, key, tree.nil, tree.store);
    ret := if found == tree.nil then null else found;
  }
}
