/** The operations that rb_gen of include/nvalloc/internal/rb.h generates, on linked nodes with a
    sentinel leaf.  Each is proved against the trees of RbSpec. */
module RbTrees {
  import opened RbSpec

  function Nodes(t: Tree): set<Node> {
    match t
    case Leaf => {}
    case T(n, l, r, _) => {n} + Nodes(l) + Nodes(r)
  }

  /** The fields of a node, and a snapshot of the fields of several nodes. */
  datatype Cell = Cell(left: Node?, right: Node?, red: bool)

  type Store = map<Node, Cell>

  ghost predicate Matches(m: Store)
    reads m.Keys
  {
    forall n :: n in m ==> m[n] == Cell(n.left, n.right, n.red)
  }

  /** In the store m, the pointer p is the root of a structure that represents t. */
  ghost predicate Linked(t: Tree, nil: Node, p: Node?, m: Store) {
    match t
    case Leaf => p == nil
    case T(n, l, r, red) =>
      && p == n && n != nil && n in m && m[n].red == red
      && Linked(l, nil, m[n].left, m) && Linked(r, nil, m[n].right, m)
  }

  lemma Frame(t: Tree, nil: Node, p: Node?, m: Store, m': Store)
    requires Linked(t, nil, p, m) && m.Keys <= m'.Keys
    requires forall n :: n in Nodes(t) && n in m ==> m'[n] == m[n]
    ensures Linked(t, nil, p, m')
  {
  }

  /** What a pointer to a subtree points to. */
  ghost predicate PointsTo(t: Tree, nil: Node, p: Node?, m: Store) {
    p != null && p in m && m[p].red == IsRed(t) && (t.T? ==> p == t.node) && Linked(t, nil, p, m)
  }

  lemma Open(t: Tree, nil: Node, p: Node?, m: Store)
    requires Linked(t, nil, p, m) && nil in m && !m[nil].red
    ensures PointsTo(t, nil, p, m)
    ensures t.T? ==> PointsTo(t.left, nil, m[t.node].left, m) && PointsTo(t.right, nil, m[t.node].right, m)
  {
  }

  /** No node occurs twice. */
  ghost predicate Distinct(t: Tree) {
    t.T? ==>
      && t.node !in Nodes(t.left) + Nodes(t.right) && Nodes(t.left) !! Nodes(t.right)
      && Distinct(t.left) && Distinct(t.right)
  }

  function CtxNodes(c: Ctx): set<Node> {
    if c.Top? then {} else {c.node} + Nodes(c.other) + CtxNodes(c.up)
  }

  /** The last node of the path and its other subtree; the pointer into the hole may be stale. */
  ghost predicate HeadLinked(c: Ctx, nil: Node, m: Store) {
    match c
    case Top => true
    case InLeft(n, red, r, _) => n != nil && n in m && m[n].red == red && Linked(r, nil, m[n].right, m)
    case InRight(n, red, l, _) => n != nil && n in m && m[n].red == red && Linked(l, nil, m[n].left, m)
  }

  /** The nodes of c are linked as the path says and its hole holds the pointer `hole`. */
  ghost predicate LinkedUp(c: Ctx, nil: Node, root: Node?, hole: Node?, m: Store) {
    && HeadLinked(c, nil, m)
    && match c
       case Top => root == hole
       case InLeft(n, _, _, up) => m[n].left == hole && LinkedUp(up, nil, root, n, m)
       case InRight(n, _, _, up) => m[n].right == hole && LinkedUp(up, nil, root, n, m)
  }

  lemma FrameUp(c: Ctx, nil: Node, root: Node?, hole: Node?, m: Store, m': Store)
    requires LinkedUp(c, nil, root, hole, m) && m.Keys <= m'.Keys
    requires forall n :: n in CtxNodes(c) && n in m ==> m'[n] == m[n]
    ensures LinkedUp(c, nil, root, hole, m')
  {
    if !c.Top? {
      Frame(c.other, nil, if c.InLeft? then m[c.node].right else m[c.node].left, m, m');
      FrameUp(c.up, nil, root, c.node, m, m');
    }
  }

  /** The last node of the path, its other subtree and the subtree in the hole share no node. */
  ghost predicate Apart(c: Ctx, t: Tree) {
    !c.Top? ==>
      && c.node !in Nodes(t) + Nodes(c.other) && Nodes(t) !! Nodes(c.other)
      && Distinct(t) && Distinct(c.other)
  }

  /** m' differs from m on the nodes of s only. */
  ghost predicate SameOutside(m: Store, m': Store, s: set<Node>) {
    m'.Keys == m.Keys && forall n :: n in m && n !in s ==> m'[n] == m[n]
  }

  lemma Wider(m: Store, m': Store, s: set<Node>, s': set<Node>)
    requires SameOutside(m, m', s) && s <= s'
    ensures SameOutside(m, m', s')
  {
  }

  lemma FrameApart(t: Tree, nil: Node, p: Node?, m: Store, m': Store, s: set<Node>)
    requires Linked(t, nil, p, m) && SameOutside(m, m', s) && Nodes(t) !! s
    ensures Linked(t, nil, p, m')
  {
    Frame(t, nil, p, m, m');
  }

  // ---------------------------------------------------------------------------------------
  // Field writes and rotations
  // ---------------------------------------------------------------------------------------

  method SetLeft(a: Node, p: Node?, ghost m: Store) returns (ghost m': Store)
    requires Matches(m) && a in m
    modifies a
    ensures Matches(m') && m' == m[a := m[a].(left := p)]
  {
    a.left := p;
    m' := m[a := m[a].(left := p)];
  }

  method SetRight(a: Node, p: Node?, ghost m: Store) returns (ghost m': Store)
    requires Matches(m) && a in m
    modifies a
    ensures Matches(m') && m' == m[a := m[a].(right := p)]
  {
    a.right := p;
    m' := m[a := m[a].(right := p)];
  }

  method SetRed(a: Node, red: bool, ghost m: Store) returns (ghost m': Store)
    requires Matches(m) && a in m
    modifies a
    ensures Matches(m') && m' == m[a := m[a].(red := red)]
  {
    a.red := red;
    m' := m[a := m[a].(red := red)];
  }

  /** rbtn_rotate_left and rbtn_rotate_right. */
  method RotateLeftAt(a: Node, ghost m: Store) returns (r: Node, ghost m': Store)
    requires Matches(m) && a in m && m[a].right != null && m[a].right in m && m[a].right != a
    modifies a, a.right
    ensures Matches(m') && r == m[a].right
    ensures m' == m[a := m[a].(right := m[r].left)][r := m[r].(left := a)]
  {
    r := a.right;
    m' := SetRight(a, r.left, m);
    m' := SetLeft(r, a, m');
  }

  method RotateRightAt(a: Node, ghost m: Store) returns (r: Node, ghost m': Store)
    requires Matches(m) && a in m && m[a].left != null && m[a].left in m && m[a].left != a
    modifies a, a.left
    ensures Matches(m') && r == m[a].left
    ensures m' == m[a := m[a].(left := m[r].right)][r := m[r].(right := a)]
  {
    r := a.left;
    m' := SetLeft(a, r.right, m);
    m' := SetRight(r, a, m');
  }

  // ---------------------------------------------------------------------------------------
  // One round of insert
  // ---------------------------------------------------------------------------------------

  /** The state of a round: node `n` at the end of the path, its linked other subtree, and the
      subtree t at p that goes into the hole. */
  ghost predicate RoundOk(c: Ctx, t: Tree, nil: Node, p: Node, m: Store) {
    && nil in m && !m[nil].red
    && !c.Top? && HeadLinked(c, nil, m) && Apart(c, t) && Linked(t, nil, p, m)
  }

  /** The round at a node whose left child is the subtree `left`. */
  method InsertRoundLeft(nil: Node, cnode: Node, left: Node, ghost c: Ctx, ghost t: Tree, ghost m: Store)
    returns (sub: Node, done: bool, ghost m': Store)
    requires Matches(m) && RoundOk(c, t, nil, left, m) && c.InLeft? && c.node == cnode && t.T?
    modifies m.Keys
    ensures Matches(m') && SameOutside(m, m', {cnode} + Nodes(t))
    ensures done == InsertStep(c, t).1 && Linked(InsertStep(c, t).0, nil, sub, m') && (done ==> sub == cnode)
  {
    LinkedHere(c, t, nil, left, m);
    Open(t, nil, left, m);
    m' := SetLeft(cnode, left, m);
    sub, done := cnode, false;
    if left.red {
      var leftleft := left.left;
      if leftleft.red {
        m' := SetRed(leftleft, false, m');
        sub, m' := RotateRightAt(cnode, m');
        InsertRotated(c, t, nil, left, leftleft, m, m');
      }
    } else {
      done := true;
    }
  }

  /** The store after the child pointer has been set. */
  ghost function Relinked(c: Ctx, p: Node, m: Store): Store
    requires !c.Top? && c.node in m
  {
    if c.InLeft? then m[c.node := m[c.node].(left := p)] else m[c.node := m[c.node].(right := p)]
  }

  lemma LinkedHere(c: Ctx, t: Tree, nil: Node, p: Node, m: Store)
    requires RoundOk(c, t, nil, p, m)
    ensures c.node in m && Linked(Here(c, t), nil, c.node, Relinked(c, p, m))
    ensures SameOutside(m, Relinked(c, p, m), {c.node} + Nodes(t))
  {
    var m' := Relinked(c, p, m);
    Frame(t, nil, p, m, m');
    Frame(c.other, nil, if c.InLeft? then m[c.node].right else m[c.node].left, m, m');
  }

  lemma InsertRotated(c: Ctx, t: Tree, nil: Node, left: Node, leftleft: Node, m: Store, m': Store)
    requires RoundOk(c, t, nil, left, m) && c.InLeft? && t.T? && t.left.T?
    requires leftleft == t.left.node && left in m && leftleft in m && m[left].red && m[leftleft].red
    requires m' == (var m1 := m[c.node := m[c.node].(left := left)];
                    var m2 := m1[leftleft := m1[leftleft].(red := false)];
                    m2[c.node := m2[c.node].(left := m2[left].right)][left := m2[left].(right := c.node)])
    ensures Linked(InsertStep(c, t).0, nil, left, m') && SameOutside(m, m', {c.node} + Nodes(t))
  {
    var ll := t.left;
    Open(t, nil, left, m);
    Open(ll, nil, leftleft, m);
    assert Distinct(ll) && leftleft != left && leftleft !in Nodes(t.right);
    Frame(ll.left, nil, m[leftleft].left, m, m');
    Frame(ll.right, nil, m[leftleft].right, m, m');
    Frame(t.right, nil, m[left].right, m, m');
    Frame(c.other, nil, m[c.node].right, m, m');
  }

  method InsertRoundRight(nil: Node, cnode: Node, right: Node, ghost c: Ctx, ghost t: Tree, ghost m: Store)
    returns (sub: Node, done: bool, ghost m': Store)
    requires Matches(m) && RoundOk(c, t, nil, right, m) && c.InRight? && c.node == cnode && t.T?
    modifies m.Keys
    ensures Matches(m') && SameOutside(m, m', {cnode} + Nodes(t) + Nodes(c.other))
    ensures done == InsertStep(c, t).1 && Linked(InsertStep(c, t).0, nil, sub, m') && (done ==> sub == cnode)
  {
    LinkedHere(c, t, nil, right, m);
    Open(t, nil, right, m);
    Open(c.other, nil, m[cnode].left, m);
    m' := SetRight(cnode, right, m);
    sub, done := cnode, false;
    if right.red {
      var left := cnode.left;
      if left.red {
        m' := SetRed(left, false, m');
        m' := SetRed(right, false, m');
        m' := SetRed(cnode, true, m');
        InsertSplit(c, t, nil, left, right, m, m');
      } else {
        var tred := cnode.red;
        sub, m' := RotateLeftAt(cnode, m');
        m' := SetRed(sub, tred, m');
        m' := SetRed(cnode, true, m');
        InsertLeant(c, t, nil, right, m, m');
      }
    } else {
      done := true;
    }
  }

  lemma InsertSplit(c: Ctx, t: Tree, nil: Node, left: Node, right: Node, m: Store, m': Store)
    requires RoundOk(c, t, nil, right, m) && c.InRight? && t.T? && c.other.T?
    requires left == c.other.node && left in m && right in m && m[left].red && m[right].red
    requires m' == (var m1 := m[c.node := m[c.node].(right := right)];
                    var m2 := m1[left := m1[left].(red := false)];
                    var m3 := m2[right := m2[right].(red := false)];
                    m3[c.node := m3[c.node].(red := true)])
    ensures Linked(InsertStep(c, t).0, nil, c.node, m')
    ensures SameOutside(m, m', {c.node} + Nodes(t) + Nodes(c.other))
  {
    Open(t, nil, right, m);
    Open(c.other, nil, left, m);
    Frame(t.left, nil, m[right].left, m, m');
    Frame(t.right, nil, m[right].right, m, m');
    Frame(c.other.left, nil, m[left].left, m, m');
    Frame(c.other.right, nil, m[left].right, m, m');
  }

  lemma InsertLeant(c: Ctx, t: Tree, nil: Node, right: Node, m: Store, m': Store)
    requires RoundOk(c, t, nil, right, m) && c.InRight? && t.T?
    requires right in m && m[right].red && !IsRed(c.other)
    requires m' == (var m1 := m[c.node := m[c.node].(right := right)];
                    var m2 := m1[c.node := m1[c.node].(right := m1[right].left)][right := m1[right].(left := c.node)];
                    var m3 := m2[right := m2[right].(red := c.red)];
                    m3[c.node := m3[c.node].(red := true)])
    ensures Linked(InsertStep(c, t).0, nil, right, m')
    ensures SameOutside(m, m', {c.node} + Nodes(t) + Nodes(c.other))
  {
    Open(t, nil, right, m);
    Frame(t.left, nil, m[right].left, m, m');
    Frame(t.right, nil, m[right].right, m, m');
    Frame(c.other, nil, m[c.node].left, m, m');
  }

  // ---------------------------------------------------------------------------------------
  // One round of remove
  // ---------------------------------------------------------------------------------------

  /** The nodes that a round may write. */
  ghost function RoundNodes(c: Ctx, t: Tree): set<Node>
    requires !c.Top?
  {
    {c.node} + Nodes(t) + Nodes(c.other)
  }

  /** The round at a node whose left subtree t lost one from its black height. */
  method RemoveRoundLeft(nil: Node, n: Node, p: Node, ghost c: Ctx, ghost t: Tree, ghost m: Store)
    returns (sub: Node, done: bool, ghost m': Store)
    requires Matches(m) && RoundOk(c, t, nil, p, m) && c.InLeft? && c.node == n && c.other.T?
    modifies m.Keys
    ensures Matches(m') && SameOutside(m, m', RoundNodes(c, t))
    ensures var (t', d) := RemoveStepLeft(n, c.red, c.other, t); done == d && Linked(t', nil, sub, m')
  {
    Open(c.other, nil, m[n].right, m);
    assert c.other.left.T? ==> c.other.left.node != c.other.node && c.other.left.node in Nodes(c.other);
    m' := SetLeft(n, p, m);
    var right := n.right;
    var rightleft := right.left;
    if n.red {
      done := true;
      if rightleft.red {
        m' := SetRed(n, false, m');
        sub, m' := RotateTwice(n, right, rightleft, m');
        RemovedLeftDouble(c, t, nil, p, right, rightleft, n, m, m');
      } else {
        sub, m' := RotateLeftAt(n, m');
        RemovedLeftSingle(c, t, nil, p, right, m, m');
      }
    } else {
      if rightleft.red {
        done := true;
        m' := SetRed(rightleft, false, m');
        sub, m' := RotateTwice(n, right, rightleft, m');
        RemovedLeftDouble(c, t, nil, p, right, rightleft, rightleft, m, m');
      } else {
        done := false;
        m' := SetRed(n, true, m');
        sub, m' := RotateLeftAt(n, m');
        RemovedLeftSingle(c, t, nil, p, right, m, m');
      }
    }
  }

  /** Rotate right at the right child, then left at n. */
  method RotateTwice(n: Node, right: Node, ghost rightleft: Node, ghost m: Store) returns (sub: Node, ghost m': Store)
    requires Matches(m) && n in m && right in m && m[n].right == right && rightleft in m && m[right].left == rightleft
    requires n != right && right != rightleft && n != rightleft
    modifies n, right, rightleft
    ensures Matches(m') && sub == rightleft && m' == RotatedTwice(n, right, rightleft, m)
  {
    sub, m' := RotateRightAt(right, m);
    m' := SetRight(n, sub, m');
    sub, m' := RotateLeftAt(n, m');
  }

  ghost function RotatedTwice(n: Node, right: Node, rightleft: Node, m: Store): Store
    requires n in m && right in m && rightleft in m
  {
    var m3 := m[right := m[right].(left := m[rightleft].right)][rightleft := m[rightleft].(right := right)];
    var m4 := m3[n := m3[n].(right := rightleft)];
    m4[n := m4[n].(right := m4[rightleft].left)][rightleft := m4[rightleft].(left := n)]
  }

  /** Two rotations; `painted` is the node that was made black first. */
  lemma RemovedLeftDouble(c: Ctx, t: Tree, nil: Node, p: Node, right: Node, rightleft: Node, painted: Node, m: Store, m': Store)
    requires RoundOk(c, t, nil, p, m) && c.InLeft? && c.other.T? && c.other.left.T? && IsRed(c.other.left)
    requires right == c.other.node && rightleft == c.other.left.node && right in m && rightleft in m
    requires painted == if c.red then c.node else rightleft
    requires m' == (var n := c.node;
                    var m1 := m[n := m[n].(left := p)];
                    var m2 := m1[painted := m1[painted].(red := false)];
                    RotatedTwice(n, right, rightleft, m2))
    ensures Linked(RemoveStepLeft(c.node, c.red, c.other, t).0, nil, rightleft, m')
    ensures SameOutside(m, m', RoundNodes(c, t))
  {
    hide Nodes, Distinct, Apart, SameOutside, RoundNodes;
    var r, written := c.other, {c.node, right, rightleft};
    DoubleApart(c, t);
    Open(r, nil, right, m);
    Open(r.left, nil, rightleft, m);
    var x, y, z := Cell(p, m[rightleft].left, false), Cell(m[rightleft].right, m[right].right, m[right].red), Cell(c.node, right, c.red);
    assert m' == m[c.node := x][right := y][rightleft := z];
    FourWritten(m, c.node, x, right, y, right, y, rightleft, z);
    assert {c.node, right, right, rightleft} == written && m[c.node := x][right := y][right := y] == m[c.node := x][right := y];
    Wider(m, m', written, RoundNodes(c, t));
    FrameApart(t, nil, p, m, m', written);
    FrameApart(r.left.left, nil, m[rightleft].left, m, m', written);
    FrameApart(r.left.right, nil, m[rightleft].right, m, m', written);
    FrameApart(r.right, nil, m[right].right, m, m', written);
    assert Linked(T(c.node, t, r.left.left, false), nil, c.node, m');
    assert Linked(T(right, r.left.right, r.right, r.red), nil, right, m');
  }

  lemma DoubleApart(c: Ctx, t: Tree)
    requires c.InLeft? && Apart(c, t) && c.other.T? && c.other.left.T?
    ensures var r := c.other; var written := {c.node, r.node, r.left.node};
            && written <= RoundNodes(c, t)
            && c.node != r.node && c.node != r.left.node && r.node != r.left.node
            && Nodes(t) !! written && Nodes(r.left.left) !! written && Nodes(r.left.right) !! written && Nodes(r.right) !! written
  {
    hide Nodes, Distinct;
    InnerNodes(c.other);
    InnerNodes(c.other.left);
  }

  /** One rotation of a node that is red by now. */
  lemma RemovedLeftSingle(c: Ctx, t: Tree, nil: Node, p: Node, right: Node, m: Store, m': Store)
    requires RoundOk(c, t, nil, p, m) && c.InLeft? && c.other.T? && !IsRed(c.other.left)
    requires right == c.other.node && right in m
    requires m' == (var n := c.node;
                    var m1 := m[n := m[n].(left := p)];
                    var m2 := if c.red then m1 else m1[n := m1[n].(red := true)];
                    m2[n := m2[n].(right := m2[right].left)][right := m2[right].(left := n)])
    ensures Linked(RemoveStepLeft(c.node, c.red, c.other, t).0, nil, right, m')
    ensures SameOutside(m, m', RoundNodes(c, t))
  {
    var r := c.other;
    Open(r, nil, right, m);
    Frame(t, nil, p, m, m');
    Frame(r.left, nil, m[right].left, m, m');
    Frame(r.right, nil, m[right].right, m, m');
  }

  /** The round at a node whose right subtree t lost one from its black height. */
  method RemoveRoundRight(nil: Node, n: Node, p: Node, ghost c: Ctx, ghost t: Tree, ghost m: Store)
    returns (sub: Node, done: bool, ghost m': Store)
    requires Matches(m) && RoundOk(c, t, nil, p, m) && c.InRight? && c.node == n
    requires c.other.T? && (IsRed(c.other) ==> c.other.right.T? && !c.red)
    modifies m.Keys
    ensures Matches(m') && SameOutside(m, m', RoundNodes(c, t))
    ensures var (t', d) := RemoveStepRight(n, c.red, c.other, t); done == d && Linked(t', nil, sub, m')
  {
    Open(c.other, nil, m[n].left, m);
    m' := SetRight(n, p, m);
    var left := n.left;
    if left.red {
      done := true;
      sub, m' := BorrowRound(nil, n, left, c, t, p, m, m');
    } else if n.red {
      done := true;
      sub, m' := RedParentRound(nil, n, left, c, t, p, m, m');
    } else {
      var leftleft := left.left;
      if leftleft.red {
        done := true;
        m' := SetRed(leftleft, false, m');
        sub, m' := RotateRightAt(n, m');
        RotatedStore(m, n, left, leftleft, p);
        RemovedRightRotated(c, t, nil, p, left, leftleft, m, m');
      } else {
        sub, done := n, false;
        m' := SetRed(left, true, m');
        RemovedRightPainted(c, t, nil, p, left, m, m');
      }
    }
  }

  /** The two cases with a red left child. */
  method BorrowRound(nil: Node, n: Node, left: Node, ghost c: Ctx, ghost t: Tree, ghost p: Node, ghost m: Store, ghost m1: Store)
    returns (sub: Node, ghost m': Store)
    requires Matches(m1) && RoundOk(c, t, nil, p, m) && c.InRight? && c.node == n
    requires c.other.T? && IsRed(c.other) && c.other.right.T? && !c.red && left == c.other.node
    requires m1 == m[n := m[n].(right := p)]
    modifies m1.Keys
    ensures Matches(m') && SameOutside(m, m', RoundNodes(c, t))
    ensures Linked(BorrowFromRed(n, c.red, c.other, t), nil, sub, m')
  {
    hide BorrowFromRed, SameOutside, RoundNodes;
    Open(c.other, nil, m[n].left, m);
    Open(c.other.right, nil, m[left].right, m);
    BorrowNodes(c.other, n);
    var leftright := left.right;
    var leftrightleft := leftright.left;
    if leftrightleft.red {
      sub, m' := BorrowTwice(n, left, leftright, leftrightleft, m1);
      Borrow3Store(m, n, left, leftright, leftrightleft, p);
      Borrowed3(c, t, nil, p, left, leftright, leftrightleft, m, m');
    } else {
      sub, m' := BorrowOnce(n, left, leftright, m1);
      Borrow1Store(m, n, left, leftright, p);
      Borrowed1(c, t, nil, p, left, leftright, m, m');
    }
  }

  /** The writes of the first case. */
  method BorrowTwice(n: Node, left: Node, lr: Node, lrl: Node, ghost m1: Store) returns (sub: Node, ghost m': Store)
    requires Matches(m1) && n in m1 && left in m1 && lr in m1 && lrl in m1
    requires n != left && n != lr && n != lrl && left != lr && left != lrl && lr != lrl
    requires m1[n].left == left && m1[left].right == lr && m1[lr].left == lrl
    modifies n, left, lr, lrl
    ensures Matches(m') && sub == lr
    ensures m' == (var m2 := m1[lrl := m1[lrl].(red := false)];
                   var m3 := m2[n := m2[n].(left := m2[left].right)][left := m2[left].(right := n)];
                   var m4 := m3[n := m3[n].(left := m3[lr].right)][lr := m3[lr].(right := n)];
                   var m5 := m4[left := m4[left].(right := lr)];
                   m5[left := m5[left].(right := m5[lr].left)][lr := m5[lr].(left := left)])
  {
    hide Matches;
    m' := SetRed(lrl, false, m1);
    var unode: Node, tnode: Node;
    unode, m' := RotateRightAt(n, m');
    tnode, m' := RotateRightAt(n, m');
    m' := SetRight(unode, tnode, m');
    sub, m' := RotateLeftAt(unode, m');
  }

  /** The writes of the second case. */
  method BorrowOnce(n: Node, left: Node, lr: Node, ghost m1: Store) returns (sub: Node, ghost m': Store)
    requires Matches(m1) && n in m1 && left in m1 && lr in m1 && n != left && n != lr && left != lr
    requires m1[n].left == left && m1[left].right == lr
    modifies n, left, lr
    ensures Matches(m') && sub == left
    ensures m' == (var m2 := m1[lr := m1[lr].(red := true)];
                   var m3 := m2[n := m2[n].(left := m2[left].right)][left := m2[left].(right := n)];
                   m3[left := m3[left].(red := false)])
  {
    hide Matches;
    m' := SetRed(lr, true, m1);
    sub, m' := RotateRightAt(n, m');
    m' := SetRed(sub, false, m');
  }

  /** The writes of the third case. */
  method RotateRed(n: Node, left: Node, ll: Node, ghost m1: Store) returns (sub: Node, ghost m': Store)
    requires Matches(m1) && n in m1 && left in m1 && ll in m1 && n != left && n != ll && left != ll
    requires m1[n].left == left && m1[left].left == ll
    modifies n, left, ll
    ensures Matches(m') && sub == left
    ensures m' == (var m2 := m1[n := m1[n].(red := false)];
                   var m3 := m2[left := m2[left].(red := true)];
                   var m4 := m3[ll := m3[ll].(red := false)];
                   m4[n := m4[n].(left := m4[left].right)][left := m4[left].(right := n)])
  {
    hide Matches;
    m' := SetRed(n, false, m1);
    m' := SetRed(left, true, m');
    m' := SetRed(ll, false, m');
    sub, m' := RotateRightAt(n, m');
  }

  lemma LeftNodes(l: Tree, n: Node)
    requires l.T? && l.left.T? && Distinct(l) && n !in Nodes(l)
    ensures n != l.node && n != l.left.node && l.left.node != l.node
  {
  }

  lemma BorrowNodes(l: Tree, n: Node)
    requires l.T? && l.right.T? && Distinct(l) && n !in Nodes(l)
    ensures var lr := l.right.node; n != l.node && n != lr && lr != l.node && lr !in Nodes(l.left)
    ensures l.right.left.T? ==>
              var lrl := l.right.left.node; lrl != n && lrl != l.node && lrl != l.right.node && lrl in Nodes(l)
    ensures l.right.node in Nodes(l) && Distinct(l.right)
  {
  }

  lemma Borrowed3(c: Ctx, t: Tree, nil: Node, p: Node, left: Node, lr: Node, lrl: Node, m: Store, m': Store)
    requires RoundOk(c, t, nil, p, m) && c.InRight? && !c.red
    requires c.other.T? && c.other.right.T? && c.other.right.left.T? && IsRed(c.other.right.left)
    requires left == c.other.node && lr == c.other.right.node && lrl == c.other.right.left.node
    requires c.node in m && left in m && lr in m && lrl in m
    requires m' == m[c.node := Cell(m[lr].right, p, false)]
                    [left := Cell(m[left].left, m[lr].left, m[left].red)]
                    [lr := Cell(left, c.node, m[lr].red)]
                    [lrl := m[lrl].(red := false)]
    ensures Linked(BorrowFromRed(c.node, c.red, c.other, t), nil, lr, m')
    ensures SameOutside(m, m', RoundNodes(c, t))
  {
    hide Nodes, Distinct, Apart, SameOutside, RoundNodes;
    var l, written := c.other, {c.node, left, lr, lrl};
    BorrowFromRedShape(c.node, c.red, l, t);
    Borrow3Apart(c, t);
    Open(l, nil, left, m);
    Open(l.right, nil, lr, m);
    Open(l.right.left, nil, lrl, m);
    FourWritten(m, c.node, m'[c.node], left, m'[left], lr, m'[lr], lrl, m'[lrl]);
    Wider(m, m', written, RoundNodes(c, t));
    FrameApart(t, nil, p, m, m', written);
    FrameApart(l.left, nil, m[left].left, m, m', written);
    FrameApart(l.right.right, nil, m[lr].right, m, m', written);
    FrameApart(l.right.left.left, nil, m[lrl].left, m, m', written);
    FrameApart(l.right.left.right, nil, m[lrl].right, m, m', written);
    assert Linked(Paint(l.right.left, false), nil, lrl, m');
    assert Linked(T(left, l.left, Paint(l.right.left, false), l.red), nil, left, m');
    assert Linked(T(c.node, l.right.right, t, c.red), nil, c.node, m');
  }

  /** The nodes that are written are none of the subtrees that stay. */
  lemma Borrow3Apart(c: Ctx, t: Tree)
    requires c.InRight? && Apart(c, t) && c.other.T? && c.other.right.T? && c.other.right.left.T?
    ensures var l := c.other; var written := {c.node, l.node, l.right.node, l.right.left.node};
            && written <= RoundNodes(c, t)
            && c.node != l.node && c.node != l.right.node && c.node != l.right.left.node
            && l.node != l.right.node && l.node != l.right.left.node && l.right.node != l.right.left.node
            && Nodes(t) !! written && Nodes(l.left) !! written && Nodes(l.right.right) !! written
            && Nodes(l.right.left.left) !! written && Nodes(l.right.left.right) !! written
  {
    hide Nodes, Distinct;
    var l := c.other;
    InnerNodes(l);
    InnerNodes(l.right);
    InnerNodes(l.right.left);
  }

  lemma InnerNodes(t: Tree)
    requires t.T? && Distinct(t)
    ensures t.node in Nodes(t) && Nodes(t.left) <= Nodes(t) && Nodes(t.right) <= Nodes(t)
    ensures t.node !in Nodes(t.left) && t.node !in Nodes(t.right) && Nodes(t.left) !! Nodes(t.right) && Distinct(t.left) && Distinct(t.right)
  {
  }

  lemma FourWritten(m: Store, a: Node, x: Cell, b: Node, y: Cell, c: Node, z: Cell, d: Node, w: Cell)
    requires a in m && b in m && c in m && d in m
    ensures SameOutside(m, m[a := x][b := y][c := z][d := w], {a, b, c, d})
  {
  }

  lemma Borrowed1(c: Ctx, t: Tree, nil: Node, p: Node, left: Node, lr: Node, m: Store, m': Store)
    requires RoundOk(c, t, nil, p, m) && c.InRight? && !c.red
    requires c.other.T? && c.other.right.T? && !IsRed(c.other.right.left)
    requires left == c.other.node && lr == c.other.right.node && c.node in m && left in m && lr in m
    requires m' == m[c.node := Cell(lr, p, false)]
                    [left := Cell(m[left].left, c.node, false)]
                    [lr := m[lr].(red := true)]
    ensures Linked(BorrowFromRed(c.node, c.red, c.other, t), nil, left, m')
    ensures SameOutside(m, m', RoundNodes(c, t))
  {
    var l := c.other;
    BorrowNodes(l, c.node);
    Open(l, nil, left, m);
    Open(l.right, nil, lr, m);
    Frame(t, nil, p, m, m');
    Frame(l.left, nil, m[left].left, m, m');
    Frame(l.right.left, nil, m[lr].left, m, m');
    Frame(l.right.right, nil, m[lr].right, m, m');
  }

  /** The two cases with a red node over a black left child. */
  method RedParentRound(nil: Node, n: Node, left: Node, ghost c: Ctx, ghost t: Tree, ghost p: Node, ghost m: Store, ghost m1: Store)
    returns (sub: Node, ghost m': Store)
    requires Matches(m1) && RoundOk(c, t, nil, p, m) && c.InRight? && c.node == n
    requires c.other.T? && !IsRed(c.other) && c.red && left == c.other.node
    requires m1 == m[n := m[n].(right := p)]
    modifies m1.Keys
    ensures Matches(m') && SameOutside(m, m', RoundNodes(c, t))
    ensures Linked(RemoveStepRight(n, c.red, c.other, t).0, nil, sub, m')
  {
    hide RemoveStepRight, SameOutside, RoundNodes;
    Open(c.other, nil, m[n].left, m);
    var leftleft := left.left;
    if leftleft.red {
      LeftNodes(c.other, n);
      sub, m' := RotateRed(n, left, leftleft, m1);
      RotatedRedStore(m, n, left, leftleft, p);
      RemovedRightRotated(c, t, nil, p, left, leftleft, m, m');
    } else {
      m' := SetRed(left, true, m1);
      m' := SetRed(n, false, m');
      sub := n;
      RemovedRightPainted(c, t, nil, p, left, m, m');
    }
  }

  lemma RemovedRightRotated(c: Ctx, t: Tree, nil: Node, p: Node, left: Node, ll: Node, m: Store, m': Store)
    requires RoundOk(c, t, nil, p, m) && c.InRight?
    requires c.other.T? && !IsRed(c.other) && c.other.left.T? && IsRed(c.other.left)
    requires left == c.other.node && ll == c.other.left.node && c.node in m && left in m && ll in m
    requires m' == m[c.node := Cell(m[left].right, p, false)]
                    [ll := m[ll].(red := false)]
                    [left := Cell(ll, c.node, c.red)]
    ensures Linked(RemoveStepRight(c.node, c.red, c.other, t).0, nil, left, m')
    ensures SameOutside(m, m', RoundNodes(c, t))
  {
    var l := c.other;
    Open(l, nil, left, m);
    Open(l.left, nil, ll, m);
    assert Distinct(l.left) && ll != left && ll !in Nodes(l.right);
    Frame(t, nil, p, m, m');
    Frame(l.left.left, nil, m[ll].left, m, m');
    Frame(l.left.right, nil, m[ll].right, m, m');
    Frame(l.right, nil, m[left].right, m, m');
  }

  lemma RemovedRightPainted(c: Ctx, t: Tree, nil: Node, p: Node, left: Node, m: Store, m': Store)
    requires RoundOk(c, t, nil, p, m) && c.InRight?
    requires c.other.T? && !IsRed(c.other) && !IsRed(c.other.left)
    requires left == c.other.node && c.node in m && left in m
    requires m' == m[c.node := Cell(m[c.node].left, p, false)][left := m[left].(red := true)]
    ensures Linked(RemoveStepRight(c.node, c.red, c.other, t).0, nil, c.node, m')
    ensures SameOutside(m, m', RoundNodes(c, t))
  {
    var l := c.other;
    Open(l, nil, left, m);
    Frame(t, nil, p, m, m');
    Frame(l.left, nil, m[left].left, m, m');
    Frame(l.right, nil, m[left].right, m, m');
  }

  // What the sequences of field writes above amount to.

  lemma Borrow3Store(m: Store, n: Node, left: Node, lr: Node, lrl: Node, p: Node)
    requires n in m && left in m && lr in m && lrl in m
    requires n != left && n != lr && n != lrl && left != lr && left != lrl && lr != lrl
    requires m[n].left == left && m[left].right == lr && m[lr].left == lrl
    ensures (var m1 := m[n := m[n].(right := p)];
             var m2 := m1[lrl := m1[lrl].(red := false)];
             var m3 := m2[n := m2[n].(left := m2[left].right)][left := m2[left].(right := n)];
             var m4 := m3[n := m3[n].(left := m3[lr].right)][lr := m3[lr].(right := n)];
             var m5 := m4[left := m4[left].(right := lr)];
             m5[left := m5[left].(right := m5[lr].left)][lr := m5[lr].(left := left)])
         == m[n := Cell(m[lr].right, p, m[n].red)]
             [left := Cell(m[left].left, m[lr].left, m[left].red)]
             [lr := Cell(left, n, m[lr].red)]
             [lrl := m[lrl].(red := false)]
  {
  }

  lemma Borrow1Store(m: Store, n: Node, left: Node, lr: Node, p: Node)
    requires n in m && left in m && lr in m && n != left && n != lr && left != lr
    requires m[n].left == left && m[left].right == lr
    ensures (var m1 := m[n := m[n].(right := p)];
             var m2 := m1[lr := m1[lr].(red := true)];
             var m3 := m2[n := m2[n].(left := m2[left].right)][left := m2[left].(right := n)];
             m3[left := m3[left].(red := false)])
         == m[n := Cell(lr, p, m[n].red)][left := Cell(m[left].left, n, false)][lr := m[lr].(red := true)]
  {
  }

  lemma RotatedStore(m: Store, n: Node, left: Node, ll: Node, p: Node)
    requires n in m && left in m && ll in m && n != left && n != ll && left != ll
    requires m[n].left == left && m[left].left == ll
    ensures (var m1 := m[n := m[n].(right := p)];
             var m2 := m1[ll := m1[ll].(red := false)];
             m2[n := m2[n].(left := m2[left].right)][left := m2[left].(right := n)])
         == m[n := Cell(m[left].right, p, m[n].red)][ll := m[ll].(red := false)][left := Cell(ll, n, m[left].red)]
  {
  }

  lemma RotatedRedStore(m: Store, n: Node, left: Node, ll: Node, p: Node)
    requires n in m && left in m && ll in m && n != left && n != ll && left != ll
    requires m[n].left == left && m[left].left == ll
    ensures (var m1 := m[n := m[n].(right := p)];
             var m2 := m1[n := m1[n].(red := false)];
             var m3 := m2[left := m2[left].(red := true)];
             var m4 := m3[ll := m3[ll].(red := false)];
             m4[n := m4[n].(left := m4[left].right)][left := m4[left].(right := n)])
         == m[n := Cell(m[left].right, p, false)][ll := m[ll].(red := false)][left := Cell(ll, n, true)]
  {
  }
}
