/** The left-leaning 2-3 red-black tree of include/nvalloc/internal/rb.h, as trees of nodes: the
    balance rules, one unwinding step of insert and of remove, and what these steps preserve. */
module RbSpec {

  /** A tree node.  RB_COMPACT keeps the colour in the low bit of the right pointer; here it is a
      field of its own. */
  class Node {
    const key: int
    var left: Node?
    var right: Node?
    var red: bool

    constructor (k: int)
      ensures key == k
    {
      key := k;
      left, right, red := null, null, false;
    }
  }

  datatype Tree = Leaf | T(node: Node, left: Tree, right: Tree, red: bool)

  function Inorder(t: Tree): seq<Node> {
    match t
    case Leaf => []
    case T(n, l, r, _) => Inorder(l) + [n] + Inorder(r)
  }

  // ---------------------------------------------------------------------------------------
  // Balance
  // ---------------------------------------------------------------------------------------

  predicate IsRed(t: Tree) {
    t.T? && t.red
  }

  /** Black height along the left spine; in a balanced tree, along every path. */
  function Bh(t: Tree): nat {
    match t
    case Leaf => 0
    case T(_, l, _, red) => Bh(l) + if red then 0 else 1
  }

  /** No red right child, no two reds in a row, equal black height on all paths. */
  predicate Ok(t: Tree) {
    match t
    case Leaf => true
    case T(_, l, r, red) => Ok(l) && Ok(r) && Bh(l) == Bh(r) && !IsRed(r) && (red ==> !IsRed(l))
  }

  predicate Balanced(t: Tree) {
    Ok(t) && !IsRed(t)
  }

  function Height(t: Tree): nat {
    match t
    case Leaf => 0
    case T(_, l, r, _) => 1 + if Height(l) > Height(r) then Height(l) else Height(r)
  }

  function Pow2(n: nat): nat {
    if n == 0 then 1 else 2 * Pow2(n - 1)
  }

  lemma {:induction false} HeightAtMostTwiceBh(t: Tree)
    requires Ok(t)
    ensures Height(t) <= 2 * Bh(t) + if IsRed(t) then 1 else 0
  {
    if t.T? {
      HeightAtMostTwiceBh(t.left);
      HeightAtMostTwiceBh(t.right);
    }
  }

  lemma {:induction false} SizeAtLeastBh(t: Tree)
    requires Ok(t)
    ensures |Inorder(t)| + 1 >= Pow2(Bh(t))
  {
    if t.T? {
      SizeAtLeastBh(t.left);
      SizeAtLeastBh(t.right);
    }
  }

  lemma {:induction false} Pow2Increases(m: nat, n: nat)
    requires m < n
    ensures Pow2(m) < Pow2(n)
  {
    if m < n - 1 {
      Pow2Increases(m, n - 1);
    } else if m > 0 {
      Pow2Increases(m - 1, n - 1);
    }
  }

  /** The path arrays of insert and remove have 8 * 16 entries; the deepest path, with its end,
      uses at most that many while the tree has fewer than 2^63 nodes. */
  lemma PathFits(t: Tree)
    requires Balanced(t) && |Inorder(t)| < Pow2(63)
    ensures Height(t) + 1 <= 128
  {
    HeightAtMostTwiceBh(t);
    SizeAtLeastBh(t);
    if Bh(t) > 63 {
      Pow2Increases(63, Bh(t));
    }
  }

  // ---------------------------------------------------------------------------------------
  // Contexts: the path above a subtree
  // ---------------------------------------------------------------------------------------

  /** InLeft: the path went left at `node`, whose right subtree is `other`; InRight likewise. */
  datatype Ctx =
    | Top
    | InLeft(node: Node, red: bool, other: Tree, up: Ctx)
    | InRight(node: Node, red: bool, other: Tree, up: Ctx)

  function Plug(c: Ctx, t: Tree): Tree {
    match c
    case Top => t
    case InLeft(n, red, r, up) => Plug(up, T(n, t, r, red))
    case InRight(n, red, l, up) => Plug(up, T(n, l, t, red))
  }

  function Before(c: Ctx): seq<Node> {
    match c
    case Top => []
    case InLeft(_, _, _, up) => Before(up)
    case InRight(n, _, l, up) => Before(up) + Inorder(l) + [n]
  }

  function After(c: Ctx): seq<Node> {
    match c
    case Top => []
    case InLeft(n, _, r, up) => [n] + Inorder(r) + After(up)
    case InRight(_, _, _, up) => After(up)
  }

  lemma {:induction false} InorderPlug(c: Ctx, t: Tree)
    ensures Inorder(Plug(c, t)) == Before(c) + Inorder(t) + After(c)
  {
    match c {
      case Top =>
      case InLeft(n, red, r, up) => InorderPlug(up, T(n, t, r, red));
      case InRight(n, red, l, up) => InorderPlug(up, T(n, l, t, red));
    }
  }

  /** Only a left child of a black node may be red. */
  predicate MayBeRed(c: Ctx) {
    c.InLeft? && !c.red
  }

  /** Any balanced subtree of black height h, red only where allowed, completes c to a balanced
      tree. */
  predicate CtxOk(c: Ctx, h: nat) {
    match c
    case Top => true
    case InLeft(_, red, r, up) =>
      Ok(r) && Bh(r) == h && !IsRed(r) && (red ==> MayBeRed(up)) && CtxOk(up, h + if red then 0 else 1)
    case InRight(_, red, l, up) =>
      Ok(l) && Bh(l) == h && (red ==> !IsRed(l) && MayBeRed(up)) && CtxOk(up, h + if red then 0 else 1)
  }

  lemma {:induction false} PlugOk(c: Ctx, t: Tree)
    requires Ok(t) && CtxOk(c, Bh(t)) && (IsRed(t) ==> MayBeRed(c))
    ensures Balanced(Plug(c, t))
  {
    match c {
      case Top =>
      case InLeft(n, red, r, up) => PlugOk(up, T(n, t, r, red));
      case InRight(n, red, l, up) => PlugOk(up, T(n, l, t, red));
    }
  }

  /** Descending keeps the context's promise. */
  lemma {:induction false} OkPlugSplits(c: Ctx, t: Tree)
    requires Balanced(Plug(c, t))
    ensures Ok(t) && CtxOk(c, Bh(t)) && (IsRed(t) ==> MayBeRed(c))
  {
    match c {
      case Top =>
      case InLeft(n, red, r, up) => OkPlugSplits(up, T(n, t, r, red));
      case InRight(n, red, l, up) => OkPlugSplits(up, T(n, l, t, red));
    }
  }

  // ---------------------------------------------------------------------------------------
  // Insert
  // ---------------------------------------------------------------------------------------

  function Paint(t: Tree, red: bool): Tree {
    match t
    case Leaf => Leaf
    case T(n, l, r, _) => T(n, l, r, red)
  }

  /** rbtn_rotate_left and rbtn_rotate_right leave the colours with the nodes. */
  function RotateLeft(t: Tree): Tree
    requires t.T? && t.right.T?
  {
    var r := t.right;
    T(r.node, T(t.node, t.left, r.left, t.red), r.right, r.red)
  }

  function RotateRight(t: Tree): Tree
    requires t.T? && t.left.T?
  {
    var l := t.left;
    T(l.node, l.left, T(t.node, l.right, t.right, t.red), l.red)
  }

  /** One round of the unwinding loop of insert: the new subtree, and whether the loop returns. */
  function InsertStep(c: Ctx, t: Tree): (Tree, bool)
    requires !c.Top?
  {
    match c
    case InLeft(n, red, r, _) =>
      var here := T(n, t, r, red);
      if !IsRed(t) then (here, true)
      else if IsRed(t.left) then (RotateRight(T(n, T(t.node, Paint(t.left, false), t.right, true), r, red)), false)
      else (here, false)
    case InRight(n, red, l, _) =>
      var here := T(n, l, t, red);
      if !IsRed(t) then (here, true)
      else if IsRed(l) then (T(n, Paint(l, false), Paint(t, false), true), false)
      else
        var s := RotateLeft(here);
        (T(s.node, Paint(s.left, true), s.right, red), false)
  }

  function InsertUnwind(c: Ctx, t: Tree): Tree {
    if c.Top? then Paint(t, false)
    else
      var (t', done) := InsertStep(c, t);
      if done then Plug(c.up, t') else InsertUnwind(c.up, t')
  }

  /** The subtree with the last node of the path put back above it. */
  function Here(c: Ctx, t: Tree): Tree
    requires !c.Top?
  {
    match c
    case InLeft(n, red, r, _) => T(n, t, r, red)
    case InRight(n, red, l, _) => T(n, l, t, red)
  }

  lemma HereInorder(c: Ctx, t: Tree)
    requires !c.Top?
    ensures Before(c) + Inorder(t) + After(c) == Before(c.up) + Inorder(Here(c, t)) + After(c.up)
  {
    match c {
      case InLeft(n, red, r, up) =>
        assert Before(up) + Inorder(t) + ([n] + Inorder(r) + After(up))
            == Before(up) + (Inorder(t) + [n] + Inorder(r)) + After(up);
      case InRight(n, red, l, up) =>
        assert (Before(up) + Inorder(l) + [n]) + Inorder(t) + After(up)
            == Before(up) + (Inorder(l) + [n] + Inorder(t)) + After(up);
    }
  }

  lemma Regroup(a: seq<Node>, m: Node, b: seq<Node>, n: Node, c: seq<Node>)
    ensures (a + [m] + b) + [n] + c == a + [m] + (b + [n] + c)
  {
  }

  lemma RotateLeftInorder(t: Tree)
    requires t.T? && t.right.T?
    ensures Inorder(RotateLeft(t)) == Inorder(t)
  {
    Regroup(Inorder(t.left), t.node, Inorder(t.right.left), t.right.node, Inorder(t.right.right));
  }

  lemma RotateRightInorder(t: Tree)
    requires t.T? && t.left.T?
    ensures Inorder(RotateRight(t)) == Inorder(t)
  {
    Regroup(Inorder(t.left.left), t.left.node, Inorder(t.left.right), t.node, Inorder(t.right));
  }

  lemma InsertStepInorder(c: Ctx, t: Tree)
    requires !c.Top?
    ensures Inorder(InsertStep(c, t).0) == Inorder(Here(c, t))
  {
    match c {
      case InLeft(n, red, r, up) =>
        if IsRed(t) && IsRed(t.left) {
          var l := T(t.node, Paint(t.left, false), t.right, true);
          assert Inorder(l) == Inorder(t);
          RotateRightInorder(T(n, l, r, red));
        }
      case InRight(n, red, l, up) =>
        if IsRed(t) && !IsRed(l) {
          RotateLeftInorder(Here(c, t));
        }
    }
  }

  lemma {:induction false} InsertUnwindInorder(c: Ctx, t: Tree)
    ensures Inorder(InsertUnwind(c, t)) == Before(c) + Inorder(t) + After(c)
  {
    if !c.Top? {
      InsertStepInorder(c, t);
      HereInorder(c, t);
      var (t', done) := InsertStep(c, t);
      if done {
        InorderPlug(c.up, t');
      } else {
        InsertUnwindInorder(c.up, t');
      }
    }
  }

  /** The subtrees that occur while insert unwinds: balanced, except that a red root may have a
      red left child where the root was red before. */
  predicate Growing(t: Tree, mayBeRed: bool) {
    && t.T? && Ok(t.left) && Ok(t.right) && Bh(t.left) == Bh(t.right) && !IsRed(t.right)
    && (t.red && IsRed(t.left) ==> mayBeRed)
  }

  lemma InsertStepOk(c: Ctx, t: Tree)
    requires !c.Top? && Growing(t, MayBeRed(c)) && CtxOk(c, Bh(t))
    ensures var (t', done) := InsertStep(c, t);
            && Growing(t', MayBeRed(c.up)) && CtxOk(c.up, Bh(t'))
            && (done ==> Ok(t') && (IsRed(t') ==> MayBeRed(c.up)))
  {
  }

  lemma {:induction false} InsertUnwindBalanced(c: Ctx, t: Tree)
    requires Growing(t, MayBeRed(c)) && CtxOk(c, Bh(t))
    ensures Balanced(InsertUnwind(c, t))
  {
    if !c.Top? {
      InsertStepOk(c, t);
      var (t', done) := InsertStep(c, t);
      if done {
        PlugOk(c.up, t');
      } else {
        InsertUnwindBalanced(c.up, t');
      }
    }
  }

  // ---------------------------------------------------------------------------------------
  // Remove
  // ---------------------------------------------------------------------------------------

  /** One round of the unwinding loop of remove, for a subtree t whose black height is one short:
      the new subtree, and whether balance is restored. */
  function RemoveStep(c: Ctx, t: Tree): (Tree, bool)
    requires !c.Top? && Ok(t) && !IsRed(t) && CtxOk(c, Bh(t) + 1)
  {
    match c
    case InLeft(n, red, r, _) => RemoveStepLeft(n, red, r, t)
    case InRight(n, red, l, _) => RemoveStepRight(n, red, l, t)
  }

  function RemoveStepLeft(n: Node, red: bool, r: Tree, t: Tree): (Tree, bool)
    requires r.T?
  {
    var rl := r.left;
    if red then
      if IsRed(rl) then (RotateLeft(T(n, t, RotateRight(r), false)), true)
      else (RotateLeft(T(n, t, r, true)), true)
    else
      if IsRed(rl) then (RotateLeft(T(n, t, RotateRight(T(r.node, Paint(rl, false), r.right, r.red)), false)), true)
      else (RotateLeft(T(n, t, r, true)), false)
  }

  function RemoveStepRight(n: Node, red: bool, l: Tree, t: Tree): (Tree, bool)
    requires l.T? && (IsRed(l) ==> l.right.T?)
  {
    if IsRed(l) then (BorrowFromRed(n, red, l, t), true)
    else if red then
      if IsRed(l.left) then
        (RotateRight(T(n, T(l.node, Paint(l.left, false), l.right, true), t, false)), true)
      else
        (T(n, Paint(l, true), t, false), true)
    else
      if IsRed(l.left) then
        (RotateRight(T(n, T(l.node, Paint(l.left, false), l.right, l.red), t, red)), true)
      else
        (T(n, Paint(l, true), t, red), false)
  }

  function BorrowFromRed(n: Node, red: bool, l: Tree, t: Tree): Tree
    requires l.T? && l.right.T?
  {
    var lr := l.right;
    if IsRed(lr.left) then
      var u := RotateRight(T(n, T(l.node, l.left, T(lr.node, Paint(lr.left, false), lr.right, lr.red), l.red), t, red));
      RotateLeft(T(u.node, u.left, RotateRight(u.right), u.red))
    else
      Paint(RotateRight(T(n, T(l.node, l.left, Paint(lr, true), l.red), t, red)), false)
  }

  lemma RemoveStepLeftOk(n: Node, red: bool, r: Tree, t: Tree)
    requires Ok(t) && !IsRed(t) && Ok(r) && Bh(r) == Bh(t) + 1 && !IsRed(r)
    ensures var (t', done) := RemoveStepLeft(n, red, r, t);
            && Ok(t') && (IsRed(t') ==> red)
            && Bh(t') + (if done then 0 else 1) == Bh(t) + 1 + (if red then 0 else 1)
            && (!done ==> !IsRed(t'))
  {
  }

  /** Where the three rotations of the first case lead. */
  lemma BorrowFromRedShape(n: Node, red: bool, l: Tree, t: Tree)
    requires l.T? && l.right.T? && IsRed(l.right.left)
    ensures var lr := l.right;
            BorrowFromRed(n, red, l, t)
            == T(lr.node, T(l.node, l.left, Paint(lr.left, false), l.red), T(n, lr.right, t, red), lr.red)
  {
  }

  lemma BlackenOk(t: Tree)
    requires Ok(t) && IsRed(t)
    ensures Ok(Paint(t, false)) && Bh(Paint(t, false)) == Bh(t) + 1
  {
  }

  lemma BorrowFromRedOk(n: Node, l: Tree, t: Tree)
    requires Ok(t) && !IsRed(t) && Ok(l) && Bh(l) == Bh(t) + 1 && IsRed(l)
    ensures l.right.T?
    ensures var t' := BorrowFromRed(n, false, l, t); Ok(t') && !IsRed(t') && Bh(t') == Bh(t) + 2
  {
    var lr := l.right;
    if IsRed(lr.left) {
      BorrowFromRedShape(n, false, l, t);
      BlackenOk(lr.left);
      assert Ok(lr) && !IsRed(l.left);
    }
  }

  lemma RemoveStepRightOk(n: Node, red: bool, l: Tree, t: Tree)
    requires Ok(t) && !IsRed(t) && Ok(l) && Bh(l) == Bh(t) + 1 && (red ==> !IsRed(l))
    ensures l.T? && (IsRed(l) ==> l.right.T?)
    ensures var (t', done) := RemoveStepRight(n, red, l, t);
            && Ok(t') && (IsRed(t') ==> red)
            && Bh(t') + (if done then 0 else 1) == Bh(t) + 1 + (if red then 0 else 1)
            && (!done ==> !IsRed(t'))
  {
    if IsRed(l) {
      BorrowFromRedOk(n, l, t);
    }
  }

  function RemoveUnwind(c: Ctx, t: Tree): Tree
    requires Ok(t) && !IsRed(t) && CtxOk(c, Bh(t) + 1)
    decreases c
  {
    if c.Top? then t
    else
      RemoveStepOk(c, t);
      var (t', done) := RemoveStep(c, t);
      if done then Plug(c.up, t') else RemoveUnwind(c.up, t')
  }

  lemma RemoveStepOk(c: Ctx, t: Tree)
    requires !c.Top? && Ok(t) && !IsRed(t) && CtxOk(c, Bh(t) + 1)
    ensures var (t', done) := RemoveStep(c, t);
            && Ok(t') && (IsRed(t') ==> c.red)
            && CtxOk(c.up, Bh(t') + if done then 0 else 1)
            && (done && IsRed(t') ==> MayBeRed(c.up))
            && (!done ==> !IsRed(t'))
  {
    match c {
      case InLeft(n, red, r, _) => RemoveStepLeftOk(n, red, r, t);
      case InRight(n, red, l, _) => RemoveStepRightOk(n, red, l, t);
    }
  }

  lemma {:induction false} RemoveUnwindBalanced(c: Ctx, t: Tree)
    requires Ok(t) && !IsRed(t) && CtxOk(c, Bh(t) + 1)
    ensures Balanced(RemoveUnwind(c, t))
    decreases c
  {
    if !c.Top? {
      RemoveStepOk(c, t);
      var (t', done) := RemoveStep(c, t);
      if done {
        PlugOk(c.up, t');
      } else {
        RemoveUnwindBalanced(c.up, t');
      }
    }
  }

  lemma RemoveStepLeftInorder(n: Node, red: bool, r: Tree, t: Tree)
    requires r.T?
    ensures Inorder(RemoveStepLeft(n, red, r, t).0) == Inorder(t) + [n] + Inorder(r)
  {
    var rl := r.left;
    if IsRed(rl) {
      var r' := if red then r else T(r.node, Paint(rl, false), r.right, r.red);
      RotateRightInorder(r');
      RotateLeftInorder(T(n, t, RotateRight(r'), false));
    } else {
      RotateLeftInorder(T(n, t, r, true));
    }
  }

  lemma RemoveStepRightInorder(n: Node, red: bool, l: Tree, t: Tree)
    requires l.T? && (IsRed(l) ==> l.right.T?)
    ensures Inorder(RemoveStepRight(n, red, l, t).0) == Inorder(l) + [n] + Inorder(t)
  {
    if IsRed(l) {
      BorrowFromRedInorder(n, red, l, t);
    } else if IsRed(l.left) {
      RotateRightInorder(T(n, T(l.node, Paint(l.left, false), l.right, red), t, false));
    }
  }

  lemma BorrowFromRedInorder(n: Node, red: bool, l: Tree, t: Tree)
    requires l.T? && l.right.T?
    ensures Inorder(BorrowFromRed(n, red, l, t)) == Inorder(l) + [n] + Inorder(t)
  {
    var lr := l.right;
    if IsRed(lr.left) {
      BorrowFromRedShape(n, red, l, t);
      var a, b, c, d := Inorder(l.left), Inorder(lr.left), Inorder(lr.right), Inorder(t);
      Regroup(a, l.node, b, lr.node, c);
      Regroup(a + [l.node] + b, lr.node, c, n, d);
      assert Inorder(Paint(lr.left, false)) == b;
    } else {
      var l' := T(l.node, l.left, Paint(lr, true), l.red);
      assert Inorder(l') == Inorder(l);
      RotateRightInorder(T(n, l', t, red));
    }
  }

  lemma {:induction false} RemoveUnwindInorder(c: Ctx, t: Tree)
    requires Ok(t) && !IsRed(t) && CtxOk(c, Bh(t) + 1)
    ensures Inorder(RemoveUnwind(c, t)) == Before(c) + Inorder(t) + After(c)
    decreases c
  {
    if !c.Top? {
      RemoveStepOk(c, t);
      HereInorder(c, t);
      match c {
        case InLeft(n, red, r, _) => RemoveStepLeftInorder(n, red, r, t);
        case InRight(n, red, l, _) => RemoveStepRightInorder(n, red, l, t);
      }
      var (t', done) := RemoveStep(c, t);
      if done {
        InorderPlug(c.up, t');
      } else {
        RemoveUnwindInorder(c.up, t');
      }
    }
  }
}
