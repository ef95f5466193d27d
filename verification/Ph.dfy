/** The operations that ph_gen of include/nvalloc/internal/ph.h generates, on linked nodes.  Each is
    proved against the forests of PhSpec. */
module PairingHeap {
  import opened PhSpec

  datatype Cell = Cell(prev: Node?, next: Node?, lchild: Node?)

  /** A snapshot of the fields of several nodes. */
  type Store = map<Node, Cell>

  ghost predicate Matches(m: Store)
    reads m.Keys
  {
    forall n :: n in m ==> m[n] == Cell(n.prev, n.next, n.lchild)
  }

  /** In the store m, `first` is the head of a list of siblings that represents f, behind `prev`:
      the parent of a first child, the sibling before any other node. */
  ghost predicate Linked(f: Forest, first: Node?, prev: Node?, m: Store) {
    match f
    case Nil => first == null
    case Cons(n, k, r) =>
      first == n && n in m && m[n].prev == prev && Linked(k, m[n].lchild, n, m) && Linked(r, m[n].next, n, m)
  }

  /** The same, whatever the first node's prev. */
  ghost predicate Headed(f: Forest, first: Node?, m: Store) {
    match f
    case Nil => first == null
    case Cons(n, k, r) => first == n && n in m && Linked(k, m[n].lchild, n, m) && Linked(r, m[n].next, n, m)
  }

  /** The children of a tree are linked; its own prev and next may be anything. */
  ghost predicate Loose(t: Tree, m: Store) {
    t.node in m && Linked(t.kids, m[t.node].lchild, t.node, m)
  }

  /** A loose tree with neither prev nor next. */
  ghost predicate Detached(t: Tree, m: Store) {
    Loose(t, m) && m[t.node].prev == null && m[t.node].next == null
  }

  // ---------------------------------------------------------------------------------------
  // Nodes and frames
  // ---------------------------------------------------------------------------------------

  function Nodes(f: Forest): set<Node> {
    match f
    case Nil => {}
    case Cons(n, k, r) => {n} + Nodes(k) + Nodes(r)
  }

  function NodesT(t: Tree): set<Node> {
    {t.node} + Nodes(t.kids)
  }

  function NodesQ(q: seq<Tree>): set<Node> {
    if q == [] then {} else NodesT(q[0]) + NodesQ(q[1..])
  }

  /** No node occurs twice. */
  ghost predicate Distinct(f: Forest) {
    f.Cons? ==>
      && f.node !in Nodes(f.kids) + Nodes(f.rest) && Nodes(f.kids) !! Nodes(f.rest)
      && Distinct(f.kids) && Distinct(f.rest)
  }

  ghost predicate DistinctT(t: Tree) {
    t.node !in Nodes(t.kids) && Distinct(t.kids)
  }

  lemma {:induction false} NodesAreBag(f: Forest)
    ensures forall n :: n in Nodes(f) <==> n in Bag(f)
  {
    if f.Cons? {
      NodesAreBag(f.kids);
      NodesAreBag(f.rest);
    }
  }

  lemma NodesTAreBag(t: Tree)
    ensures forall n :: n in NodesT(t) <==> n in BagT(t)
  {
    NodesAreBag(t.kids);
  }

  lemma {:induction false} NodesQAreBag(q: seq<Tree>)
    ensures forall n :: n in NodesQ(q) <==> n in BagQ(q)
  {
    if q != [] {
      NodesTAreBag(q[0]);
      NodesQAreBag(q[1..]);
    }
  }

  /** The parts of a bag without duplicates share no node. */
  lemma Apart(a: multiset<Node>, b: multiset<Node>)
    requires NoDup(a + b)
    ensures NoDup(a) && NoDup(b) && forall n :: !(n in a && n in b)
  {
    forall n | n in a ensures a[n] == 1 && n !in b {
      assert n in a + b;
    }
    forall n | n in b ensures b[n] == 1 {
      assert n in a + b;
    }
  }

  lemma ApartSets(A: set<Node>, B: set<Node>, a: multiset<Node>, b: multiset<Node>)
    requires NoDup(a + b) && (forall n :: n in A <==> n in a) && (forall n :: n in B <==> n in b)
    ensures A !! B && NoDup(a) && NoDup(b)
  {
    Apart(a, b);
  }

  lemma {:induction false} NoDupIsDistinct(f: Forest)
    requires NoDup(Bag(f))
    ensures Distinct(f)
  {
    hide NoDup;
    if f.Cons? {
      NodesAreBag(f.kids);
      NodesAreBag(f.rest);
      ApartSets({f.node} + Nodes(f.kids), Nodes(f.rest), multiset{f.node} + Bag(f.kids), Bag(f.rest));
      ApartSets({f.node}, Nodes(f.kids), multiset{f.node}, Bag(f.kids));
      NoDupIsDistinct(f.kids);
      NoDupIsDistinct(f.rest);
    }
  }

  lemma NoDupTree(t: Tree)
    requires NoDup(BagT(t))
    ensures DistinctT(t)
  {
    hide NoDup;
    NodesAreBag(t.kids);
    ApartSets({t.node}, Nodes(t.kids), multiset{t.node}, Bag(t.kids));
    NoDupIsDistinct(t.kids);
  }

  /** m' differs from m on nodes of S only. */
  ghost predicate SameOutside(m: Store, m': Store, S: set<Node>) {
    m'.Keys == m.Keys && forall n :: n in m && n !in S ==> m'[n] == m[n]
  }

  lemma Frame(f: Forest, first: Node?, prev: Node?, m: Store, m': Store)
    requires Linked(f, first, prev, m) && m.Keys <= m'.Keys && forall n :: n in Nodes(f) && n in m ==> m'[n] == m[n]
    ensures Linked(f, first, prev, m')
  {
  }

  lemma HeadFrame(f: Forest, first: Node?, m: Store, m': Store)
    requires Headed(f, first, m) && m.Keys <= m'.Keys && forall n :: n in Nodes(f) && n in m ==> m'[n] == m[n]
    ensures Headed(f, first, m')
  {
    if f.Cons? {
      Frame(f.kids, m[f.node].lchild, f.node, m, m');
      Frame(f.rest, m[f.node].next, f.node, m, m');
    }
  }

  lemma LooseFrame(t: Tree, m: Store, m': Store)
    requires Loose(t, m) && m.Keys <= m'.Keys && forall n :: n in NodesT(t) && n in m ==> m'[n] == m[n]
    ensures Loose(t, m') && m'[t.node] == m[t.node]
  {
    Frame(t.kids, m[t.node].lchild, t.node, m, m');
  }

  lemma {:induction false} LinkedNodes(f: Forest, first: Node?, prev: Node?, m: Store)
    requires Linked(f, first, prev, m)
    ensures Nodes(f) <= m.Keys
  {
    if f.Cons? {
      LinkedNodes(f.kids, m[f.node].lchild, f.node, m);
      LinkedNodes(f.rest, m[f.node].next, f.node, m);
    }
  }

  // ---------------------------------------------------------------------------------------
  // Field writes
  // ---------------------------------------------------------------------------------------

  method SetPrev(a: Node, p: Node?, ghost m: Store) returns (ghost m': Store)
    requires Matches(m) && a in m
    modifies a
    ensures Matches(m') && m' == m[a := m[a].(prev := p)]
  {
    a.prev := p;
    m' := m[a := m[a].(prev := p)];
  }

  method SetNext(a: Node, p: Node?, ghost m: Store) returns (ghost m': Store)
    requires Matches(m) && a in m
    modifies a
    ensures Matches(m') && m' == m[a := m[a].(next := p)]
  {
    a.next := p;
    m' := m[a := m[a].(next := p)];
  }

  method SetLchild(a: Node, p: Node?, ghost m: Store) returns (ghost m': Store)
    requires Matches(m) && a in m
    modifies a
    ensures Matches(m') && m' == m[a := m[a].(lchild := p)]
  {
    a.lchild := p;
    m' := m[a := m[a].(lchild := p)];
  }

  // ---------------------------------------------------------------------------------------
  // phn_merge
  // ---------------------------------------------------------------------------------------

  /** The store after phn_merge_ordered makes b the first child of a. */
  function Adopted(a: Node, b: Node, m: Store): Store
    requires a in m && b in m
  {
    var child := m[a].lchild;
    var m1 := m[b := m[b].(prev := a)];
    var m2 := m1[b := m1[b].(next := child)];
    var m3 := if child != null && child in m2 then m2[child := m2[child].(prev := b)] else m2;
    m3[a := m3[a].(lchild := b)]
  }

  lemma AdoptedCells(a: Node, b: Node, m: Store)
    requires a in m && b in m && a != b
    requires var child := m[a].lchild; child != null ==> child in m && child != a && child != b
    ensures var m', child := Adopted(a, b, m), m[a].lchild;
            && m'.Keys == m.Keys && m'[a] == m[a].(lchild := b) && m'[b] == m[b].(prev := a, next := child)
            && (child != null ==> m'[child] == m[child].(prev := b))
            && forall n :: n in m && n != a && n != b && n != child ==> m'[n] == m[n]
  {
  }

  ghost predicate TwoLoose(t: Tree, s: Tree, m: Store) {
    Loose(t, m) && Loose(s, m) && DistinctT(t) && DistinctT(s) && NodesT(t) !! NodesT(s)
  }

  lemma AdoptLinked(t: Tree, s: Tree, m: Store)
    requires TwoLoose(t, s, m)
    ensures var m' := Adopted(t.node, s.node, m);
            && Loose(Adopt(t, s), m') && SameOutside(m, m', NodesT(t) + NodesT(s))
            && m'[t.node].prev == m[t.node].prev && m'[t.node].next == m[t.node].next
    ensures m[t.node].lchild != null ==> m[t.node].lchild in m && m[t.node].lchild != s.node && m[t.node].lchild != t.node
    ensures s.node != t.node
  {
    hide Adopted;
    var a, b, m' := t.node, s.node, Adopted(t.node, s.node, m);
    assert t.kids.Cons? ==> t.kids.node in Nodes(t.kids);
    AdoptedCells(a, b, m);
    Frame(s.kids, m[b].lchild, b, m, m');
    if t.kids.Cons? {
      var n := t.kids.node;
      Frame(t.kids.kids, m[n].lchild, n, m, m');
      Frame(t.kids.rest, m[n].next, n, m, m');
    }
    assert Linked(t.kids, m'[b].next, b, m');
    assert Linked(Cons(b, s.kids, t.kids), m'[a].lchild, a, m');
  }

  method MergeOrdered(a: Node, b: Node, ghost t: Tree, ghost s: Tree, ghost m: Store) returns (ghost m': Store)
    requires Matches(m) && TwoLoose(t, s, m) && a == t.node && b == s.node
    modifies m.Keys
    ensures Matches(m') && m' == Adopted(a, b, m)
  {
    hide DistinctT, NodesT, Linked;
    AdoptLinked(t, s, m);
    m' := SetPrev(b, a, m);
    var child := a.lchild;
    m' := SetNext(b, child, m');
    if child != null {
      m' := SetPrev(child, b, m');
    }
    m' := SetLchild(a, b, m');
  }

  /** phn_merge; no caller passes NULL. */
  method MergeTrees(a: Node, b: Node, ghost t: Tree, ghost s: Tree, ghost m: Store) returns (r: Node, ghost m': Store)
    requires Matches(m) && TwoLoose(t, s, m) && a == t.node && b == s.node
    modifies m.Keys
    ensures Matches(m') && r == Merge(t, s).node && Loose(Merge(t, s), m') && SameOutside(m, m', NodesT(t) + NodesT(s))
    ensures r in m && m'[r].prev == m[r].prev && m'[r].next == m[r].next
  {
    hide DistinctT, NodesT, Linked, Adopted;
    assert NodesT(s) + NodesT(t) == NodesT(t) + NodesT(s);
    if a.key < b.key {
      AdoptLinked(t, s, m);
      m' := MergeOrdered(a, b, t, s, m);
      r := a;
    } else {
      AdoptLinked(s, t, m);
      m' := MergeOrdered(b, a, s, t, m);
      r := b;
    }
  }

  // ---------------------------------------------------------------------------------------
  // ph_merge_siblings
  // ---------------------------------------------------------------------------------------

  function NextIn(q: seq<Tree>, i: nat): Node? {
    if i + 1 < |q| then q[i + 1].node else null
  }

  /** A singly linked queue of trees. */
  ghost predicate Queue(q: seq<Tree>, head: Node?, tail: Node?, m: Store) {
    && |q| > 0 && head == q[0].node && tail == q[|q| - 1].node
    && forall i :: 0 <= i < |q| ==> Loose(q[i], m) && m[q[i].node].prev == null && m[q[i].node].next == NextIn(q, i)
  }

  lemma {:induction false} InQueue(q: seq<Tree>, i: nat)
    requires i < |q|
    ensures NodesT(q[i]) <= NodesQ(q)
  {
    if i > 0 {
      InQueue(q[1..], i - 1);
    }
  }

  lemma QueueFrame(q: seq<Tree>, head: Node?, tail: Node?, m: Store, m': Store)
    requires Queue(q, head, tail, m) && m.Keys <= m'.Keys && forall n :: n in NodesQ(q) && n in m ==> m'[n] == m[n]
    ensures Queue(q, head, tail, m')
  {
    forall i | 0 <= i < |q| ensures Loose(q[i], m') && m'[q[i].node] == m[q[i].node] {
      InQueue(q, i);
      LooseFrame(q[i], m, m');
    }
  }

  /** The first two siblings are cut off from the rest, and the rest from them. */
  function Cut(a: Node, b: Node, rest: Node?, m: Store): Store
    requires a in m && b in m
  {
    var m1 := if rest != null && rest in m then m[rest := m[rest].(prev := null)] else m;
    var m2 := m1[a := m1[a].(prev := null)];
    var m3 := m2[a := m2[a].(next := null)];
    var m4 := m3[b := m3[b].(prev := null)];
    m4[b := m4[b].(next := null)]
  }

  lemma CutCells(a: Node, b: Node, rest: Node?, m: Store)
    requires a in m && b in m && a != b && rest != a && rest != b && (rest != null ==> rest in m)
    ensures var m' := Cut(a, b, rest, m);
            && m'.Keys == m.Keys && m'[a] == m[a].(prev := null, next := null) && m'[b] == m[b].(prev := null, next := null)
            && (rest != null ==> m'[rest] == m[rest].(prev := null))
            && forall n :: n in m && n != a && n != b && n != rest ==> m'[n] == m[n]
  {
  }

  /** The first two trees of a list of siblings, and the list behind them. */
  ghost predicate TwoAndRest(f: Forest, t: Tree, s: Tree, r: Forest) {
    f == Cons(t.node, t.kids, Cons(s.node, s.kids, r)) && Distinct(f)
  }

  lemma TwoApart(f: Forest, t: Tree, s: Tree, r: Forest)
    requires TwoAndRest(f, t, s, r)
    ensures DistinctT(t) && DistinctT(s) && NodesT(t) !! NodesT(s) && Distinct(r)
    ensures Nodes(f) == NodesT(t) + NodesT(s) + Nodes(r) && Nodes(r) !! NodesT(t) + NodesT(s)
  {
    var g := Cons(s.node, s.kids, r);
    assert Distinct(g) && Nodes(g) == NodesT(s) + Nodes(r);
  }

  lemma CutLinked(f: Forest, t: Tree, s: Tree, r: Forest, m: Store)
    requires TwoAndRest(f, t, s, r) && Headed(f, t.node, m)
    ensures t.node in m && s.node in m && m[t.node].next == s.node && t.node != s.node
    ensures var rest := m[s.node].next; var m' := Cut(t.node, s.node, rest, m);
            && (rest != null ==> rest in m) && rest != t.node && rest != s.node
            && Detached(t, m') && Detached(s, m') && Headed(r, rest, m')
            && (rest != null ==> m'[rest].prev == null) && SameOutside(m, m', Nodes(f))
  {
    hide Cut;
    TwoApart(f, t, s, r);
    var a, b := t.node, s.node;
    var g := Cons(b, s.kids, r);
    assert Linked(g, m[a].next, a, m);
    var rest := m[b].next;
    assert Linked(r, rest, b, m);
    assert r.Cons? ==> r.node in Nodes(r);
    var m' := Cut(a, b, rest, m);
    CutCells(a, b, rest, m);
    Frame(t.kids, m[a].lchild, a, m, m');
    Frame(s.kids, m[b].lchild, b, m, m');
    if r.Cons? {
      Frame(r.kids, m[r.node].lchild, r.node, m, m');
      Frame(r.rest, m[r.node].next, r.node, m, m');
    }
  }

  /** Two siblings are taken off the list and merged. */
  method TakePair(a: Node, b: Node, ghost f: Forest, ghost t: Tree, ghost s: Tree, ghost r: Forest, ghost m: Store)
    returns (top: Node, rest: Node?, ghost m': Store)
    requires Matches(m) && TwoAndRest(f, t, s, r) && Headed(f, a, m) && a == t.node && b == s.node
    modifies m.Keys
    ensures Matches(m') && top == Merge(t, s).node && Detached(Merge(t, s), m') && Headed(r, rest, m')
    ensures (rest != null ==> rest in m' && m'[rest].prev == null) && SameOutside(m, m', Nodes(f))
  {
    hide DistinctT, NodesT, Linked, Headed, TwoAndRest, Cut, SameOutside, Nodes;
    CutLinked(f, t, s, r, m);
    TwoApart(f, t, s, r);
    rest, m' := CutTwo(a, b, m);
    ghost var m1 := m';
    top, m' := MergeTrees(a, b, t, s, m1);
    PairOutside(f, t, s, r, rest, m, m1, m');
  }

  /** The first two nodes of a list are cut off from each other and from the rest. */
  method CutTwo(a: Node, b: Node, ghost m: Store) returns (rest: Node?, ghost m': Store)
    requires Matches(m) && a in m && b in m && (m[b].next != null ==> m[b].next in m)
    modifies m.Keys
    ensures Matches(m') && rest == m[b].next && m' == Cut(a, b, rest, m) && m'.Keys == m.Keys
    ensures rest != null ==> rest in m' && m'[rest].prev == null
  {
    hide Matches, Cut;
    NextCell(b, m);
    rest := b.next;
    m' := m;
    if rest != null {
      m' := SetPrev(rest, null, m');
    }
    m' := SetPrev(a, null, m');
    m' := SetNext(a, null, m');
    m' := SetPrev(b, null, m');
    m' := SetNext(b, null, m');
    CutIs(a, b, rest, m);
  }

  lemma CutIs(a: Node, b: Node, rest: Node?, m: Store)
    requires a in m && b in m && (rest != null ==> rest in m)
    ensures var m1 := if rest != null then m[rest := m[rest].(prev := null)] else m;
            var m2 := m1[a := m1[a].(prev := null)];
            var m3 := m2[a := m2[a].(next := null)];
            var m4 := m3[b := m3[b].(prev := null)];
            Cut(a, b, rest, m) == m4[b := m4[b].(next := null)]
    ensures Cut(a, b, rest, m).Keys == m.Keys && (rest != null ==> Cut(a, b, rest, m)[rest].prev == null)
  {
  }

  lemma NextCell(a: Node, m: Store)
    requires Matches(m) && a in m
    ensures a.next == m[a].next
  {
  }

  lemma PairOutside(f: Forest, t: Tree, s: Tree, r: Forest, rest: Node?, m: Store, m1: Store, m': Store)
    requires Nodes(f) == NodesT(t) + NodesT(s) + Nodes(r) && Nodes(r) !! NodesT(t) + NodesT(s)
    requires SameOutside(m, m1, Nodes(f)) && SameOutside(m1, m', NodesT(t) + NodesT(s)) && Headed(r, rest, m1)
    requires rest != null ==> rest in m1 && m1[rest].prev == null
    ensures SameOutside(m, m', Nodes(f)) && Headed(r, rest, m') && (rest != null ==> rest in m' && m'[rest].prev == null)
  {
    HeadFrame(r, rest, m1, m');
    assert rest != null ==> rest in Nodes(r);
  }

  /** The trees of a queue share no node. */
  ghost predicate DistinctQ(q: seq<Tree>) {
    && (forall i :: 0 <= i < |q| ==> DistinctT(q[i]))
    && (forall i, j :: 0 <= i < j < |q| ==> NodesT(q[i]) !! NodesT(q[j]))
  }

  lemma {:induction false} NoDupQueue(q: seq<Tree>)
    requires NoDup(BagQ(q))
    ensures DistinctQ(q)
  {
    hide NoDup, BagT, NodesT, DistinctT;
    if q != [] {
      NodesTAreBag(q[0]);
      NodesQAreBag(q[1..]);
      ApartSets(NodesT(q[0]), NodesQ(q[1..]), BagT(q[0]), BagQ(q[1..]));
      NoDupTree(q[0]);
      NoDupQueue(q[1..]);
      forall i, j | 0 <= i < j < |q| ensures NodesT(q[i]) !! NodesT(q[j]) {
        if i == 0 {
          InQueue(q[1..], j - 1);
        } else {
          assert q[i] == q[1..][i - 1] && q[j] == q[1..][j - 1];
        }
      }
      forall i | 0 <= i < |q| ensures DistinctT(q[i]) {
        assert i > 0 ==> q[i] == q[1..][i - 1];
      }
    }
  }

  /** The queue with one more tree behind its tail. */
  lemma Appended(q: seq<Tree>, t: Tree, head: Node?, tail: Node, m: Store)
    requires Queue(q, head, tail, m) && Detached(t, m) && DistinctQ(q + [t])
    ensures tail in m && Queue(q + [t], head, t.node, m[tail := m[tail].(next := t.node)])
    ensures tail in NodesQ(q) && NodesQ(q + [t]) == NodesQ(q) + NodesT(t)
  {
    var q', m' := q + [t], m[tail := m[tail].(next := t.node)];
    var last := |q| - 1;
    InQueue(q, last);
    NodesOfSum(q, t);
    forall i | 0 <= i < |q'| ensures Loose(q'[i], m') && m'[q'[i].node].prev == null && m'[q'[i].node].next == NextIn(q', i) {
      AppendedAt(q, t, head, tail, m, i);
    }
  }

  lemma AppendedAt(q: seq<Tree>, t: Tree, head: Node?, tail: Node, m: Store, i: nat)
    requires Queue(q, head, tail, m) && Detached(t, m) && DistinctQ(q + [t]) && i <= |q|
    ensures tail in m
    ensures var q', m' := q + [t], m[tail := m[tail].(next := t.node)];
            Loose(q'[i], m') && m'[q'[i].node].prev == null && m'[q'[i].node].next == NextIn(q', i)
  {
    var q', m', last := q + [t], m[tail := m[tail].(next := t.node)], |q| - 1;
    assert q'[last] == q[last] && q'[|q|] == t;
    assert DistinctT(q'[last]);
    if i < last {
      assert q'[i] == q[i] && NodesT(q'[i]) !! NodesT(q'[last]);
      LooseFrame(q[i], m, m');
    } else if i == last {
      Frame(q[last].kids, m[tail].lchild, tail, m, m');
    } else {
      assert NodesT(q'[last]) !! NodesT(q'[|q|]);
      LooseFrame(t, m, m');
    }
  }

  lemma {:induction false} NodesOfSum(q: seq<Tree>, t: Tree)
    ensures NodesQ(q + [t]) == NodesQ(q) + NodesT(t)
  {
    if q == [] {
      assert q + [t] == [t] && [t][1..] == [];
    } else {
      assert (q + [t])[1..] == q[1..] + [t] && (q + [t])[0] == q[0];
      NodesOfSum(q[1..], t);
    }
  }

  /** The first pass over the siblings f: q is the queue so far, `rest` the siblings to come. */
  ghost predicate Pairing(f: Forest, q: seq<Tree>, rest: Forest, head: Node?, tail: Node?, next: Node?, m: Store) {
    && Queue(q, head, tail, m) && Headed(rest, next, m) && (next != null ==> next in m && m[next].prev == null)
    && q + Pairs(rest) == Pairs(f) && BagQ(q) + Bag(rest) == Bag(f) && NoDup(Bag(f))
  }

  /** A detached tree made of the first siblings of `rest` joins the queue. */
  lemma PairingStep(f: Forest, q: seq<Tree>, rest: Forest, head: Node?, tail: Node, next: Node?, m: Store,
                    t: Tree, rest': Forest, next': Node?, m1: Store)
    requires Pairing(f, q, rest, head, tail, next, m) && SameOutside(m, m1, Nodes(rest))
    requires Detached(t, m1) && Headed(rest', next', m1) && (next' != null ==> next' in m1 && m1[next'].prev == null)
    requires Pairs(rest) == [t] + Pairs(rest') && BagT(t) + Bag(rest') == Bag(rest)
    ensures tail in m1 && m1.Keys == m.Keys
    ensures var m' := m1[tail := m1[tail].(next := t.node)];
            && Pairing(f, q + [t], rest', head, t.node, next', m')
            && SameOutside(m, m', Nodes(f)) && Nodes(rest) <= Nodes(f) && tail in Nodes(f)
  {
    hide NoDup, Nodes, NodesT, NodesQ, Pairs, DistinctT, Linked, BagT, DistinctQ, Queue, Headed, SameOutside, Detached;
    PairingBags(f, q, rest, t, rest');
    PairingSets(f, q, rest, t, rest');
    QueueOutside(q, head, tail, m, m1, Nodes(rest));
    NoDupQueue(q + [t]);
    Appended(q, t, head, tail, m1);
    HeadOutside(rest', next', m1, m1[tail := m1[tail].(next := t.node)], tail);
    TailOutside(m, m1, tail, t.node, Nodes(rest), Nodes(f));
    SumOfThree(q, [t], Pairs(rest'));
    HeadIn(rest', next', m1);
  }

  lemma QueueOutside(q: seq<Tree>, head: Node?, tail: Node?, m: Store, m': Store, S: set<Node>)
    requires Queue(q, head, tail, m) && SameOutside(m, m', S) && NodesQ(q) !! S
    ensures Queue(q, head, tail, m') && m'.Keys == m.Keys
  {
    QueueFrame(q, head, tail, m, m');
  }

  lemma HeadOutside(f: Forest, first: Node?, m: Store, m': Store, n: Node)
    requires Headed(f, first, m) && n !in Nodes(f) && n in m && m'.Keys == m.Keys && forall x :: x in m && x != n ==> m'[x] == m[x]
    requires first != null ==> first in m && m[first].prev == null
    ensures Headed(f, first, m') && (first != null ==> first in m' && m'[first].prev == null)
  {
    HeadFrame(f, first, m, m');
    HeadIn(f, first, m);
  }

  lemma TailOutside(m: Store, m1: Store, tail: Node, n: Node, S: set<Node>, S': set<Node>)
    requires SameOutside(m, m1, S) && S <= S' && tail in S' && tail in m1
    ensures SameOutside(m, m1[tail := m1[tail].(next := n)], S')
  {
  }

  lemma SumOfThree(a: seq<Tree>, b: seq<Tree>, c: seq<Tree>)
    ensures a + b + c == a + (b + c)
  {
  }

  lemma HeadIn(f: Forest, first: Node?, m: Store)
    requires Headed(f, first, m)
    ensures first != null ==> first in Nodes(f)
  {
  }

  lemma PairingBags(f: Forest, q: seq<Tree>, rest: Forest, t: Tree, rest': Forest)
    requires BagQ(q) + Bag(rest) == Bag(f) && NoDup(Bag(f)) && BagT(t) + Bag(rest') == Bag(rest)
    ensures BagQ(q + [t]) + Bag(rest') == Bag(f) && NoDup(BagQ(q + [t]))
  {
    hide NoDup, Bag, BagT, BagQ;
    BagOfSum(q, [t]);
    BagOfOne(t);
    assert BagQ(q + [t]) + Bag(rest') == BagQ(q) + (BagT(t) + Bag(rest'));
    Apart(BagQ(q + [t]), Bag(rest'));
  }

  lemma PairingSets(f: Forest, q: seq<Tree>, rest: Forest, t: Tree, rest': Forest)
    requires BagQ(q) + Bag(rest) == Bag(f) && NoDup(Bag(f)) && BagT(t) + Bag(rest') == Bag(rest)
    ensures NodesQ(q) !! Nodes(rest) && Nodes(f) == NodesQ(q) + Nodes(rest) && Nodes(rest) == NodesT(t) + Nodes(rest')
    ensures NodesT(t) !! Nodes(rest') && NodesQ(q) !! Nodes(rest')
  {
    hide NoDup, Bag, BagT, BagQ, Nodes, NodesT, NodesQ;
    NodesAreBag(f);
    NodesAreBag(rest);
    NodesAreBag(rest');
    NodesTAreBag(t);
    NodesQAreBag(q);
    Apart(BagQ(q), Bag(rest));
    ApartSets(NodesQ(q), Nodes(rest), BagQ(q), Bag(rest));
    ApartSets(NodesT(t), Nodes(rest'), BagT(t), Bag(rest'));
    SumSets(NodesQ(q), Nodes(rest), Nodes(f), BagQ(q), Bag(rest));
    SumSets(NodesT(t), Nodes(rest'), Nodes(rest), BagT(t), Bag(rest'));
  }

  lemma SumSets(A: set<Node>, B: set<Node>, C: set<Node>, a: multiset<Node>, b: multiset<Node>)
    requires (forall n :: n in A <==> n in a) && (forall n :: n in B <==> n in b) && (forall n :: n in C <==> n in a + b)
    ensures C == A + B
  {
    forall n | n in A + B ensures n in C {
      assert n in a || n in b;
      assert (a + b)[n] == a[n] + b[n];
    }
    forall n | n in C ensures n in A + B {
      assert (a + b)[n] == a[n] + b[n];
    }
  }

  /** The first two trees leave the queue. */
  lemma TakenTwo(q: seq<Tree>, head: Node, tail: Node, m: Store)
    requires Queue(q, head, tail, m) && |q| >= 2 && DistinctQ(q)
    ensures var a, b := q[0].node, q[1].node;
            && head == a && a in m && b in m && a != b && m[a].next == b
            && m[b].next == (if |q| > 2 then q[2].node else null)
            && var m' := m[a := m[a].(next := null)][b := m[b].(next := null)];
               && Detached(q[0], m') && Detached(q[1], m') && TwoLoose(q[0], q[1], m')
               && (|q| > 2 ==> Queue(q[2..], q[2].node, tail, m'))
  {
    var a, b := q[0].node, q[1].node;
    assert NodesT(q[0]) !! NodesT(q[1]) && DistinctT(q[0]) && DistinctT(q[1]);
    var m' := m[a := m[a].(next := null)][b := m[b].(next := null)];
    Frame(q[0].kids, m[a].lchild, a, m, m');
    Frame(q[1].kids, m[b].lchild, b, m, m');
    if |q| > 2 {
      TakenRest(q, head, tail, m, m');
    }
  }

  lemma TakenRest(q: seq<Tree>, head: Node, tail: Node, m: Store, m': Store)
    requires Queue(q, head, tail, m) && |q| > 2 && DistinctQ(q) && m'.Keys == m.Keys
    requires forall n :: n in m && n != q[0].node && n != q[1].node ==> m'[n] == m[n]
    ensures Queue(q[2..], q[2].node, tail, m')
  {
    var q' := q[2..];
    forall i | 0 <= i < |q'| ensures Loose(q'[i], m') && m'[q'[i].node].prev == null && m'[q'[i].node].next == NextIn(q', i) {
      assert q'[i] == q[i + 2] && NextIn(q', i) == NextIn(q, i + 2);
      assert NodesT(q[0]) !! NodesT(q[i + 2]) && NodesT(q[1]) !! NodesT(q[i + 2]);
      LooseFrame(q[i + 2], m, m');
    }
  }

  /** The rounds: `final` is what they lead to. */
  ghost predicate Merging(f: Forest, q: seq<Tree>, final: Tree, head: Node?, tail: Node?, m: Store) {
    && Queue(q, head, tail, m) && BagQ(q) == Bag(f) && NoDup(Bag(f)) && Rounds(q) == final
  }

  lemma SameSets(A: set<Node>, B: set<Node>, b: multiset<Node>)
    requires (forall n :: n in A <==> n in b) && (forall n :: n in B <==> n in b)
    ensures A == B
  {
    forall n | n in A ensures n in B {
      assert n in b;
    }
  }

  lemma MergingDistinct(f: Forest, q: seq<Tree>, final: Tree, head: Node?, tail: Node?, m: Store)
    requires Merging(f, q, final, head, tail, m)
    ensures DistinctQ(q) && NodesQ(q) == Nodes(f) && Queue(q, head, tail, m) && |q| > 0 && Rounds(q) == final
    ensures |q| >= 2 ==> NodesT(q[0]) + NodesT(q[1]) <= Nodes(f)
  {
    hide NoDup, BagT, NodesT, DistinctQ, Nodes, NodesQ, Bag, BagQ, Rounds;
    NoDupQueue(q);
    NodesQAreBag(q);
    NodesAreBag(f);
    SameSets(NodesQ(q), Nodes(f), BagQ(q));
    InQueue(q, 0);
    if |q| >= 2 {
      InQueue(q, 1);
    }
  }

  /** The merged tree joins the rest of the queue. */
  lemma MergedJoins(f: Forest, q: seq<Tree>, final: Tree, head: Node?, tail: Node, m: Store, m1: Store, m2: Store)
    requires Merging(f, q, final, head, tail, m) && |q| > 2 && DistinctQ(q)
    requires Queue(q[2..], q[2].node, tail, m1) && SameOutside(m1, m2, NodesT(q[0]) + NodesT(q[1]))
    requires Detached(Merge(q[0], q[1]), m2)
    ensures tail in m2 && tail in Nodes(f)
    ensures var t := Merge(q[0], q[1]);
            Merging(f, q[2..] + [t], final, q[2].node, t.node, m2[tail := m2[tail].(next := t.node)])
  {
    hide NoDup, BagT, BagQ, NodesT, NodesQ, Nodes, Queue, DistinctQ, Detached, Merge;
    var t, r := Merge(q[0], q[1]), q[2..];
    RoundOk(q);
    NoDupQueue(r + [t]);
    RestApart(q);
    QueueFrame(r, q[2].node, tail, m1, m2);
    Appended(r, t, q[2].node, tail, m2);
    NodesQAreBag(r + [t]);
    NodesAreBag(f);
  }

  /** The rest of a queue without its first two trees. */
  lemma RestApart(q: seq<Tree>)
    requires DistinctQ(q) && |q| >= 2
    ensures NodesQ(q[2..]) !! NodesT(q[0]) + NodesT(q[1])
  {
    forall n | n in NodesQ(q[2..]) ensures n !in NodesT(q[0]) + NodesT(q[1]) {
      var i := TreeOf(q[2..], n);
      assert q[2..][i] == q[i + 2];
      assert NodesT(q[0]) !! NodesT(q[i + 2]) && NodesT(q[1]) !! NodesT(q[i + 2]);
    }
  }

  lemma {:induction false} TreeOf(q: seq<Tree>, n: Node) returns (i: nat)
    requires n in NodesQ(q)
    ensures i < |q| && n in NodesT(q[i])
  {
    if n in NodesT(q[0]) {
      i := 0;
    } else {
      var j := TreeOf(q[1..], n);
      i := j + 1;
    }
  }

  /** The first pass of ph_merge_siblings, from a list of at least two. */
  method PairSiblings(first: Node, second: Node, ghost f: Forest, ghost m0: Store)
    returns (head: Node, tail: Node, ghost m: Store)
    requires Matches(m0) && Headed(f, first, m0) && f.Cons? && f.rest.Cons? && second == f.rest.node && NoDup(Bag(f))
    modifies m0.Keys
    ensures Matches(m) && SameOutside(m0, m, Nodes(f)) && Merging(f, Pairs(f), Rounds(Pairs(f)), head, tail, m)
  {
    hide NoDup, Nodes, Pairing, Queue, SameOutside, Rounds, Pairs, Merging, Bag, Headed, TwoAndRest;
    ghost var t, s, rest := Tree(f.node, f.kids), Tree(f.rest.node, f.rest.kids), f.rest.rest;
    var top, next;
    SplitTwo(f, t, s, rest);
    HeadIs(f, first, m0);
    top, next, m := TakePair(first, second, f, t, s, rest, m0);
    NothingChanged(m0, Nodes(f));
    StillOutside(m0, m0, m, Nodes(f));
    head, tail := top, top;
    ghost var q := [Merge(t, s)];
    PairingStart(f, t, s, rest, top, next, m0, m);
    while next != null
      invariant Matches(m) && m.Keys == m0.Keys && SameOutside(m0, m, Nodes(f)) && Pairing(f, q, rest, head, tail, next, m)
      decreases rest
    {
      NextOfRest(f, q, rest, head, tail, next, m);
      var second := next.next;
      ghost var m1, t, rest', next' := m, Tree(rest.node, rest.kids), Forest.Nil, null;
      var top := next;
      if second != null {
        ghost var s := Tree(rest.rest.node, rest.rest.kids);
        rest' := rest.rest.rest;
        SplitTwo(rest, t, s, rest');
        var after;
        top, after, m := TakePair(next, second, rest, t, s, rest', m);
        t := Merge(t, s);
        PairingStep(f, q, rest, head, tail, next, m1, t, rest', after, m);
        m := SetNext(tail, top, m);
        tail := top;
        next := after;
      } else {
        LastSibling(f, q, rest, head, tail, next, m);
        PairingStep(f, q, rest, head, tail, next, m1, t, rest', null, m);
        m := SetNext(tail, next, m);
        tail := next;
        next := null;
      }
      StillOutside(m0, m1, m, Nodes(f));
      q, rest := q + [t], rest';
    }
    PairingDone(f, q, rest, head, tail, m);
  }

  lemma HeadIs(f: Forest, first: Node?, m: Store)
    requires Headed(f, first, m) && f.Cons?
    ensures first == f.node
  {
  }

  lemma SplitTwo(f: Forest, t: Tree, s: Tree, r: Forest)
    requires f == Cons(t.node, t.kids, Cons(s.node, s.kids, r)) && NoDup(Bag(f))
    ensures TwoAndRest(f, t, s, r)
    ensures Pairs(f) == [Merge(t, s)] + Pairs(r) && BagT(Merge(t, s)) + Bag(r) == Bag(f)
  {
    NoDupIsDistinct(f);
    MergeOk(t, s);
  }

  lemma PairingStart(f: Forest, t: Tree, s: Tree, r: Forest, top: Node, next: Node?, m0: Store, m: Store)
    requires Detached(Merge(t, s), m) && top == Merge(t, s).node && Headed(r, next, m) && (next != null ==> next in m && m[next].prev == null)
    requires Pairs(f) == [Merge(t, s)] + Pairs(r) && BagT(Merge(t, s)) + Bag(r) == Bag(f) && NoDup(Bag(f))
    ensures Pairing(f, [Merge(t, s)], r, top, top, next, m)
  {
    hide Merge, NoDup, Bag, BagT, Linked, Headed, Pairs, BagQ;
    BagOfOne(Merge(t, s));
  }

  lemma NextOfRest(f: Forest, q: seq<Tree>, rest: Forest, head: Node?, tail: Node?, next: Node?, m: Store)
    requires Pairing(f, q, rest, head, tail, next, m) && next != null
    ensures rest.Cons? && next == rest.node && next in m && NoDup(Bag(rest)) && Headed(rest, next, m)
    ensures m[next].next == null ==> rest.rest.Nil?
    ensures m[next].next != null ==> rest.rest.Cons? && rest.rest.node == m[next].next
  {
    Apart(BagQ(q), Bag(rest));
  }

  lemma LastSibling(f: Forest, q: seq<Tree>, rest: Forest, head: Node?, tail: Node?, next: Node?, m: Store)
    requires Pairing(f, q, rest, head, tail, next, m) && next != null && rest.Cons? && rest.rest.Nil?
    ensures Detached(Tree(rest.node, rest.kids), m) && Headed(Nil, null, m) && SameOutside(m, m, Nodes(rest))
    ensures Pairs(rest) == [Tree(rest.node, rest.kids)] + Pairs(Nil) && BagT(Tree(rest.node, rest.kids)) + Bag(Nil) == Bag(rest)
  {
  }

  lemma StillOutside(m0: Store, m1: Store, m: Store, S: set<Node>)
    requires SameOutside(m0, m1, S) && SameOutside(m1, m, S)
    ensures SameOutside(m0, m, S) && m.Keys == m0.Keys
  {
  }

  lemma PairingDone(f: Forest, q: seq<Tree>, rest: Forest, head: Node?, tail: Node?, m: Store)
    requires Pairing(f, q, rest, head, tail, null, m)
    ensures Merging(f, Pairs(f), Rounds(Pairs(f)), head, tail, m) && |Pairs(f)| > 0
  {
    assert q + [] == q;
  }

  /** The later passes of ph_merge_siblings. */
  method MergeQueue(first: Node, last: Node, ghost f: Forest, ghost q0: seq<Tree>, ghost final: Tree, ghost m0: Store)
    returns (r: Node, ghost m: Store)
    requires Matches(m0) && Merging(f, q0, final, first, last, m0)
    modifies m0.Keys
    ensures Matches(m) && SameOutside(m0, m, Nodes(f)) && Detached(final, m) && r == final.node
  {
    hide NoDup, Nodes, Queue, SameOutside, Merging, Bag, DistinctQ, TwoLoose, Detached, Merge, NodesT;
    var phn0: Node, tail: Node := first, last;
    ghost var q := q0;
    m := m0;
    NothingChanged(m0, Nodes(f));
    MergingHead(f, q, final, phn0, tail, m);
    var phn1 := phn0.next;
    if phn1 != null {
      while true
        invariant Matches(m) && m.Keys == m0.Keys && SameOutside(m0, m, Nodes(f)) && Merging(f, q, final, phn0, tail, m)
        invariant |q| >= 2 && phn1 == q[1].node
        decreases |q|
      {
        ghost var m1 := m;
        var head, top;
        ghost var m2;
        top, head, m2, m := MergeFront(phn0, phn1, tail, f, q, final, m);
        StillOutside(m0, m1, m, Nodes(f));
        if head == null {
          phn0 := top;
          LastMerge(q, final);
          break;
        }
        MergedJoins(f, q, final, phn0, tail, m1, m2, m);
        ghost var m3 := m;
        m := SetNext(tail, top, m);
        OneMore(m0, m3, m, tail, Nodes(f));
        q := q[2..] + [Merge(q[0], q[1])];
        tail := top;
        phn0 := head;
        MergingHead(f, q, final, phn0, tail, m);
        phn1 := phn0.next;
      }
    }
    r := phn0;
  }

  /** The first two trees of the queue are taken off it and merged. */
  method MergeFront(phn0: Node, phn1: Node, tail: Node, ghost f: Forest, ghost q: seq<Tree>, ghost final: Tree, ghost m: Store)
    returns (top: Node, head: Node?, ghost m1: Store, ghost m': Store)
    requires Matches(m) && Merging(f, q, final, phn0, tail, m) && |q| >= 2 && phn1 == q[1].node
    modifies m.Keys
    ensures Matches(m') && SameOutside(m, m', Nodes(f)) && m'.Keys == m.Keys && top == Merge(q[0], q[1]).node
    ensures Detached(Merge(q[0], q[1]), m') && DistinctQ(q) && SameOutside(m1, m', NodesT(q[0]) + NodesT(q[1]))
    ensures Rounds(q) == final
    ensures if |q| > 2 then head == q[2].node && Queue(q[2..], head, tail, m1) else head == null
  {
    hide NoDup, Nodes, Queue, Merging, Bag, DistinctQ, TwoLoose, Detached, Merge, NodesT;
    MergingDistinct(f, q, final, phn0, tail, m);
    TakenTwo(q, phn0, tail, m);
    head := phn1.next;
    m1 := SetNext(phn0, null, m);
    m1 := SetNext(phn1, null, m1);
    top, m' := MergeTrees(phn0, phn1, q[0], q[1], m1);
    StillDetached(q[0], q[1], m, m1, m', Nodes(f));
  }

  lemma NothingChanged(m: Store, S: set<Node>)
    ensures SameOutside(m, m, S)
  {
  }

  lemma OneMore(m0: Store, m: Store, m': Store, n: Node, S: set<Node>)
    requires SameOutside(m0, m, S) && n in S && m'.Keys == m.Keys && forall x :: x in m && x != n ==> m'[x] == m[x]
    ensures SameOutside(m0, m', S)
  {
  }

  lemma MergingHead(f: Forest, q: seq<Tree>, final: Tree, head: Node, tail: Node?, m: Store)
    requires Merging(f, q, final, head, tail, m)
    ensures head in m && |q| > 0
    ensures if m[head].next == null then |q| == 1 && Detached(final, m) && head == final.node
            else |q| >= 2 && m[head].next == q[1].node
  {
    assert q[0].node == head && m[q[0].node].next == NextIn(q, 0);
  }

  lemma StillDetached(t: Tree, s: Tree, m: Store, m1: Store, m': Store, S: set<Node>)
    requires Detached(t, m1) && Detached(s, m1) && SameOutside(m1, m', NodesT(t) + NodesT(s)) && NodesT(t) + NodesT(s) <= S
    requires m1.Keys == m.Keys && forall n :: n in m && n != t.node && n != s.node ==> m1[n] == m[n]
    requires Loose(Merge(t, s), m') && Merge(t, s).node in m1
    requires m'[Merge(t, s).node].prev == m1[Merge(t, s).node].prev && m'[Merge(t, s).node].next == m1[Merge(t, s).node].next
    ensures Detached(Merge(t, s), m') && SameOutside(m, m', S)
  {
    assert t.node in NodesT(t) && s.node in NodesT(s);
  }

  lemma LastMerge(q: seq<Tree>, final: Tree)
    requires |q| >= 2 && Rounds(q) == final
    ensures |q| == 2 ==> final == Merge(q[0], q[1])
  {
    if |q| == 2 {
      assert q[2..] + [Merge(q[0], q[1])] == [Merge(q[0], q[1])];
    }
  }

  /** ph_merge_siblings.  A single tree keeps its prev. */
  method MergeList(first: Node, ghost f: Forest, ghost m0: Store) returns (r: Node, ghost m: Store)
    requires Matches(m0) && f.Cons? && Headed(f, first, m0) && NoDup(Bag(f))
    modifies m0.Keys
    ensures Matches(m) && m.Keys == m0.Keys && SameOutside(m0, m, Nodes(f))
    ensures Loose(MergeSiblings(f), m) && r == MergeSiblings(f).node && r in m && m[r].next == null
  {
    hide NoDup, Nodes, SameOutside, Pairs, Rounds, Merging, Linked;
    NothingChanged(m0, Nodes(f));
    NextOfList(f, first, m0);
    var second := first.next;
    if second != null {
      var head, tail;
      ghost var m1;
      head, tail, m1 := PairSiblings(first, second, f, m0);
      PairsOk(f);
      StillOutside(m0, m0, m1, Nodes(f));
      r, m := MergeQueue(head, tail, f, Pairs(f), Rounds(Pairs(f)), m1);
      StillOutside(m0, m1, m, Nodes(f));
    } else {
      r, m := first, m0;
    }
  }

  lemma NextOfList(f: Forest, first: Node, m: Store)
    requires f.Cons? && Headed(f, first, m)
    ensures first in m && first == f.node && Loose(Tree(f.node, f.kids), m)
    ensures if m[first].next == null then f.rest.Nil? else f.rest.Cons? && f.rest.node == m[first].next
  {
  }

  // ---------------------------------------------------------------------------------------
  // The heap
  // ---------------------------------------------------------------------------------------

  /** No node of the list has children. */
  predicate Childless(f: Forest) {
    f.Cons? ==> f.kids.Nil? && Childless(f.rest)
  }

  /** The store is exactly the nodes of the list of roots f, which is ordered; behind the root, no
      node on the auxiliary list has children. */
  ghost predicate Represents(f: Forest, root: Node?, m: Store) {
    && Headed(f, root, m) && m.Keys == Nodes(f) && NoDup(Bag(f)) && RootsOk(f)
    && (f.Cons? ==> Childless(f.rest))
  }

  /** A pairing heap: the root, and behind it the auxiliary list of nodes not merged yet. */
  class Heap {
    var root: Node?
    ghost var f: Forest
    ghost var store: Store

    ghost predicate Valid()
      reads this, store.Keys
    {
      Matches(store) && Represents(f, root, store)
    }

    /** The nodes of the heap. */
    ghost function Contents(): set<Node>
      reads this
    {
      Nodes(f)
    }

    /** ph_new. */
    constructor ()
      ensures Valid() && Contents() == {}
    {
      root, f, store := null, Nil, map[];
    }

    /** ph_empty. */
    method Empty() returns (r: bool)
      requires Valid()
      ensures r == (Contents() == {})
    {
      r := root == null;
      assert f.Cons? ==> f.node in Nodes(f);
    }

    /** ph_merge_aux: all roots become one tree. */
    method MergeAuxList()
      requires Valid() && root != null
      modifies this, store.Keys
      ensures Valid() && store.Keys == old(store.Keys) && root != null
      ensures old(f).Cons? && f == AsForest(MergeAux(old(f)))
    {
      hide Represents, Headed, Loose, TwoLoose, NoDup, Nodes, Bag, RootsOk, Merge, MergeSiblings, Linked;
      AuxStart(f, root, store);
      MergeAuxOk(f);
      var phn := root.next;
      if phn != null {
        root, store := MergeRest(root, phn, f, store);
      } else {
        AuxNone(f, root, store);
      }
      f := AsForest(MergeAux(f));
    }

    /** ph_first: a node with the lowest key. */
    method First() returns (r: Node?)
      requires Valid()
      modifies this, store.Keys
      ensures Valid() && store.Keys == old(store.Keys) && Contents() == old(Contents())
      ensures if Contents() == {} then r == null
              else r != null && r in Contents() && forall n :: n in Contents() ==> r.key <= n.key
    {
      hide Represents, NoDup, Bag, RootsOk, MergeAux, Linked;
      EmptyRoot(f, root, store);
      if root == null {
        return null;
      }
      ghost var f0 := f;
      MergeAuxList();
      MergeAuxOk(f0);
      FirstIsLowest(f0, f, root, store);
      return root;
    }

    /** ph_insert: the node becomes the first of the auxiliary list. */
    method Insert(node: Node)
      requires Valid() && node !in store.Keys
      modifies this, store.Keys, node
      ensures Valid() && store.Keys == old(store.Keys) + {node} && Contents() == old(Contents()) + {node}
    {
      hide Represents, NoDup, Bag, RootsOk, Linked, Nodes, InsertedStore;
      EmptyRoot(f, root, store);
      ghost var m := InitNode(node, store);
      if root == null {
        InsertFirst(f, node, store);
        NodesOfOne(node);
        root := node;
        f := Cons(node, Nil, Nil);
        store := m;
      } else {
        InsertAux(f, root, node, store);
        InsertedNodes(f, node);
        store := InsertBehind(root, node, store, m);
        f := Cons(f.node, f.kids, Cons(node, Nil, f.rest));
      }
    }

    /** The root, the only one, leaves: ph_merge_children. */
    method DropRoot()
      requires Valid() && f.Cons? && f.rest.Nil? && root == f.node
      modifies this, store.Keys
      ensures Valid() && store.Keys == old(store.Keys) - {old(root)} && f == Replaced(old(f).kids, Nil)
    {
      hide Represents, NoDup, Bag, RootsOk, Linked, Nodes, MergeSiblings, Loose;
      DropStart(f, root, store);
      var lchild := root.lchild;
      if lchild == null {
        root, store := null, store - {root};
      } else {
        ghost var m0 := store;
        var r;
        ghost var m;
        r, m := MergeList(lchild, f.kids, m0);
        DropDone(f, root, r, m0, m);
        root, store := r, m - {root};
      }
      f := Replaced(f.kids, Nil);
    }

    /** ph_remove_first: a node with the lowest key leaves. */
    method RemoveFirst() returns (ret: Node?)
      requires Valid()
      modifies this, store.Keys
      ensures Valid()
      ensures if old(Contents()) == {} then ret == null && Contents() == {} && store.Keys == old(store.Keys)
              else ret != null && ret in old(Contents()) && Contents() == old(Contents()) - {ret}
                   && store.Keys == old(store.Keys) - {ret} && forall n :: n in old(Contents()) ==> ret.key <= n.key
    {
      hide Represents, NoDup, Bag, RootsOk, MergeAux, Linked, Replaced;
      EmptyRoot(f, root, store);
      if root == null {
        return null;
      }
      ghost var f0 := f;
      MergeAuxList();
      MergeAuxOk(f0);
      FirstIsLowest(f0, f, root, store);
      ret := root;
      EmptyRoot(f, root, store);
      DroppedNodes(f, root, store);
      DropRoot();
    }

    /** ph_remove_any: the last inserted node, if it is still on the auxiliary list, or the root. */
    method RemoveAny() returns (ret: Node?)
      requires Valid()
      modifies this, store.Keys
      ensures Valid()
      ensures if old(Contents()) == {} then ret == null && Contents() == {} && store.Keys == old(store.Keys)
              else ret != null && ret in old(Contents()) && Contents() == old(Contents()) - {ret} && store.Keys == old(store.Keys) - {ret}
    {
      hide Represents, NoDup, Bag, RootsOk, MergeAux, Linked, Replaced, Nodes;
      EmptyRoot(f, root, store);
      if root == null {
        return null;
      }
      AuxStart(f, root, store);
      ret := root.next;
      if ret != null {
        ghost var m := store;
        AnyStart(f, root, ret, store);
        var aux := ret.next;
        m := SetNext(root, aux, m);
        if aux != null {
          m := SetPrev(aux, root, m);
        }
        AnyDone(f, root, ret, store, m);
        store := m - {ret};
        f := Cons(f.node, f.kids, f.rest.rest);
      } else {
        ret := root;
        DroppedNodes(f, root, store);
        DropRoot();
      }
    }
  }

  lemma DropStart(f: Forest, root: Node, m: Store)
    requires Represents(f, root, m) && f.Cons? && f.rest.Nil? && root == f.node
    ensures root in m && (m[root].lchild == null <==> f.kids.Nil?) && NoDup(Bag(f.kids)) && root !in Nodes(f.kids)
    ensures f.kids.Cons? ==> Headed(f.kids, m[root].lchild, m)
    ensures f.kids.Nil? ==> Represents(Nil, null, m - {root})
  {
    RootParts(f);
    Apart(multiset{root}, Bag(f.kids));
  }

  lemma DropDone(f: Forest, root: Node, r: Node, m0: Store, m: Store)
    requires Represents(f, root, m0) && f.Cons? && f.rest.Nil? && f.kids.Cons? && root == f.node
    requires m.Keys == m0.Keys && Loose(MergeSiblings(f.kids), m) && r == MergeSiblings(f.kids).node && r in m && m[r].next == null
    requires root !in Nodes(f.kids) && NoDup(Bag(f.kids))
    ensures Represents(Replaced(f.kids, Nil), r, m - {root})
  {
    hide NoDup, MergeSiblings, Bag, BagT, Linked, TreeOk, Under;
    var t := MergeSiblings(f.kids);
    MergeSiblingsOk(f.kids);
    SiblingsTree(f.kids);
    KidsAreRoots(f);
    LooseWithout(t, m, root);
    assert Nodes(f.rest) == {} && Nodes(f) == {root} + Nodes(f.kids);
    assert (m - {root}).Keys == Nodes(f.kids);
    RepresentsOne(f.kids, t, m - {root});
  }

  lemma KidsAreRoots(f: Forest)
    requires f.Cons? && RootsOk(f)
    ensures RootsOk(f.kids)
  {
    UnderIsRoots(f.kids, f.node.key);
  }

  lemma {:induction false} LinkedWithout(f: Forest, first: Node?, prev: Node?, m: Store, n: Node)
    requires Linked(f, first, prev, m) && n !in Nodes(f)
    ensures Linked(f, first, prev, m - {n})
  {
    if f.Cons? {
      LinkedWithout(f.kids, m[f.node].lchild, f.node, m, n);
      LinkedWithout(f.rest, m[f.node].next, f.node, m, n);
    }
  }

  lemma LooseWithout(t: Tree, m: Store, n: Node)
    requires Loose(t, m) && n !in NodesT(t)
    ensures Loose(t, m - {n})
  {
    LinkedWithout(t.kids, m[t.node].lchild, t.node, m, n);
  }

  lemma DroppedNodes(f: Forest, root: Node, m: Store)
    requires Represents(f, root, m) && f.Cons? && f.rest.Nil? && root == f.node
    ensures Nodes(Replaced(f.kids, Nil)) == Nodes(f) - {root} && root in Nodes(f)
  {
    hide Replaced;
    RootParts(f);
    ReplacedOk(f.kids, Nil, 0);
    NodesAreBag(Replaced(f.kids, Nil));
    NodesAreBag(f.kids);
    assert Bag(Replaced(f.kids, Nil)) == Bag(f.kids);
    SameSets(Nodes(Replaced(f.kids, Nil)), Nodes(f.kids), Bag(f.kids));
  }

  lemma AnyStart(f: Forest, root: Node, ret: Node, m: Store)
    requires Represents(f, root, m) && f.Cons? && f.rest.Cons? && root == f.node && ret == f.rest.node && ret in m
    ensures root in m && f.rest.kids.Nil? && ret != root && m[ret].next != root && m[ret].next != ret
    ensures if m[ret].next == null then f.rest.rest.Nil? else f.rest.rest.Cons? && m[ret].next == f.rest.rest.node && m[ret].next in m
  {
    hide NoDup, RootsOk;
    RootParts(f);
    var g := f.rest;
    assert Linked(g, m[root].next, root, m);
    assert g.rest.Cons? ==> g.rest.node in Nodes(g.rest);
  }

  lemma AnyDone(f: Forest, root: Node, ret: Node, m: Store, m': Store)
    requires Represents(f, root, m) && f.Cons? && f.rest.Cons? && root == f.node && ret == f.rest.node && ret in m && root in m
    requires m[ret].next != null ==> m[ret].next in m
    requires var aux := m[ret].next;
             && m'.Keys == m.Keys && m'[root] == m[root].(next := aux)
             && (aux != null ==> m'[aux] == m[aux].(prev := root))
             && forall n :: n in m && n != root && n != aux ==> m'[n] == m[n]
    ensures Represents(Cons(f.node, f.kids, f.rest.rest), root, m' - {ret})
    ensures Nodes(Cons(f.node, f.kids, f.rest.rest)) == Nodes(f) - {ret} && ret in Nodes(f)
  {
    hide NoDup, RootsOk, Bag;
    RootParts(f);
    AnyStart(f, root, ret, m);
    var g, aux := f.rest, m[ret].next;
    assert Linked(g, m[root].next, root, m) && Linked(g.rest, aux, ret, m);
    AnyNodes(f);
    Frame(f.kids, m[root].lchild, root, m, m');
    LinkedWithout(f.kids, m'[root].lchild, root, m', ret);
    if g.rest.Cons? {
      Frame(g.rest.kids, m[aux].lchild, aux, m, m');
      Frame(g.rest.rest, m[aux].next, aux, m, m');
    }
    assert Linked(g.rest, m'[root].next, root, m');
    LinkedWithout(g.rest, m'[root].next, root, m', ret);
  }

  lemma AnyNodes(f: Forest)
    requires f.Cons? && f.rest.Cons? && f.rest.kids.Nil? && NoDup(Bag(f)) && RootsOk(f) && Childless(f.rest)
    ensures var f' := Cons(f.node, f.kids, f.rest.rest);
            && Nodes(f') == Nodes(f) - {f.rest.node} && f.rest.node in Nodes(f)
            && NoDup(Bag(f')) && RootsOk(f') && Childless(f'.rest) && Distinct(f)
            && f.rest.node !in Nodes(f.kids) && f.rest.node !in Nodes(f.rest.rest) && f.node !in Nodes(f.rest.rest)
            && Nodes(f.kids) !! Nodes(f.rest.rest)
  {
    hide NoDup, Under, Bag;
    NoDupIsDistinct(f);
    var f', g := Cons(f.node, f.kids, f.rest.rest), f.rest;
    assert Distinct(g) && Nodes(g) == {g.node} + Nodes(g.rest);
    assert RootsOk(g);
    AnyBag(f);
    Apart(Bag(f'), multiset{g.node});
  }

  lemma AnyBag(f: Forest)
    requires f.Cons? && f.rest.Cons? && f.rest.kids.Nil?
    ensures Bag(f) == Bag(Cons(f.node, f.kids, f.rest.rest)) + multiset{f.rest.node}
  {
    assert Cons(f.node, f.kids, f.rest.rest).rest == f.rest.rest;
    BagMore(Cons(f.node, f.kids, f.rest.rest), f.rest.node);
    assert f == Cons(f.node, f.kids, Cons(f.rest.node, Nil, f.rest.rest));
  }

  /** Clears the links of a node that enters the heap. */
  method InitNode(node: Node, ghost m: Store) returns (ghost m': Store)
    requires Matches(m) && node !in m
    modifies node
    ensures Matches(m') && m' == m[node := Cell(null, null, null)] && Matches(m)
  {
    node.prev, node.next, node.lchild := null, null, null;
    m' := m[node := Cell(null, null, null)];
  }

  method InsertBehind(root: Node, node: Node, ghost m0: Store, ghost m1: Store) returns (ghost m: Store)
    requires Matches(m1) && m1 == m0[node := Cell(null, null, null)] && root in m0 && node !in m0
    requires m0[root].next != null ==> m0[root].next in m0
    modifies m1.Keys
    ensures Matches(m) && m == InsertedStore(root, node, m0)
  {
    InsertedIs(root, node, m0);
    m := m1;
    var next := root.next;
    m := SetNext(node, next, m);
    if next != null {
      m := SetPrev(next, node, m);
    }
    m := SetPrev(node, root, m);
    m := SetNext(root, node, m);
  }

  lemma NodesOfOne(node: Node)
    ensures Nodes(Cons(node, Nil, Nil)) == {node} && Nodes(Nil) == {}
  {
  }

  lemma InsertedNodes(f: Forest, node: Node)
    requires f.Cons?
    ensures Nodes(Cons(f.node, f.kids, Cons(node, Nil, f.rest))) == Nodes(f) + {node}
  {
    assert Cons(f.node, f.kids, Cons(node, Nil, f.rest)).rest.rest == f.rest;
  }

  lemma InsertedIs(root: Node, node: Node, m: Store)
    requires root in m && (m[root].next != null ==> m[root].next in m)
    ensures var next := m[root].next;
            var m0 := m[node := Cell(null, null, null)];
            var m1 := m0[node := m0[node].(next := next)];
            var m2 := if next != null then m1[next := m1[next].(prev := node)] else m1;
            var m3 := m2[node := m2[node].(prev := root)];
            InsertedStore(root, node, m) == m3[root := m3[root].(next := node)]
  {
    assert m[node := Cell(null, null, null)][node := Cell(null, m[root].next, null)] == m[node := Cell(null, m[root].next, null)];
  }

  /** The root is cut off from the list behind it, which becomes one tree; the two are merged. */
  method MergeRest(root: Node, phn: Node, ghost f: Forest, ghost m0: Store) returns (top: Node, ghost m: Store)
    requires Matches(m0) && Represents(f, root, m0) && f.Cons? && f.rest.Cons? && root == f.node && phn == f.rest.node
    requires root in m0 && phn in m0 && root != phn && NoDup(Bag(f))
    requires BagT(MergeAux(f)) == Bag(f) && (RootsOk(f) ==> TreeOk(MergeAux(f)))
    modifies m0.Keys
    ensures Matches(m) && m.Keys == m0.Keys && Represents(AsForest(MergeAux(f)), top, m)
  {
    hide Represents, Headed, Loose, TwoLoose, NoDup, Nodes, Bag, BagT, RootsOk, Merge, MergeSiblings, Linked, TreeOk;
    m := SetPrev(root, null, m0);
    m := SetNext(root, null, m);
    m := SetPrev(phn, null, m);
    ghost var m1 := m;
    AuxCut(f, root, phn, m0, m1);
    var r;
    r, m := MergeList(phn, f.rest, m1);
    AuxMerged(f, root, r, m1, m);
    ghost var m2 := m;
    top, m := MergeTrees(root, r, Tree(f.node, f.kids), MergeSiblings(f.rest), m2);
    AuxDone(f, root, r, m0, m2, m);
  }

  lemma EmptyRoot(f: Forest, root: Node?, m: Store)
    requires Represents(f, root, m)
    ensures (root == null <==> f.Nil?) && (f.Nil? <==> Nodes(f) == {}) && (root != null ==> root in m && root == f.node)
  {
    assert f.Cons? ==> f.node in Nodes(f);
  }

  /** The first root and the rest of the list. */
  lemma RootParts(f: Forest)
    requires f.Cons? && NoDup(Bag(f))
    ensures var t := Tree(f.node, f.kids);
            && DistinctT(t) && Distinct(f.rest) && NoDup(Bag(f.rest)) && NoDup(BagT(t))
            && NodesT(t) !! Nodes(f.rest) && Nodes(f) == NodesT(t) + Nodes(f.rest)
            && BagT(t) + Bag(f.rest) == Bag(f)
  {
    hide NoDup;
    NoDupIsDistinct(f);
    Apart(BagT(Tree(f.node, f.kids)), Bag(f.rest));
  }

  lemma AuxStart(f: Forest, root: Node, m: Store)
    requires Represents(f, root, m)
    ensures root in m && f.Cons? && root == f.node && NoDup(Bag(f)) && RootsOk(f)
    ensures if m[root].next == null then f.rest.Nil?
            else f.rest.Cons? && f.rest.node == m[root].next && m[root].next in m && m[root].next != root
  {
    hide NoDup;
    RootParts(f);
    assert f.rest.Cons? ==> f.rest.node in Nodes(f.rest);
  }

  /** One tree with the nodes of f stands for f. */
  lemma RepresentsOne(f: Forest, t: Tree, m: Store)
    requires BagT(t) == Bag(f) && NoDup(Bag(f)) && m.Keys == Nodes(f) && Loose(t, m) && m[t.node].next == null && TreeOk(t)
    ensures Represents(AsForest(t), t.node, m) && Nodes(AsForest(t)) == Nodes(f)
  {
    hide NoDup, Under;
    var g := AsForest(t);
    NodesAreBag(f);
    NodesAreBag(g);
    assert Bag(g) == BagT(t);
    SameSets(Nodes(g), Nodes(f), Bag(f));
    assert RootsOk(g) && Headed(g, t.node, m);
  }

  lemma AuxNone(f: Forest, root: Node, m: Store)
    requires Represents(f, root, m) && f.Cons? && f.rest.Nil? && root == f.node
    requires BagT(MergeAux(f)) == Bag(f) && (RootsOk(f) ==> TreeOk(MergeAux(f)))
    ensures Represents(AsForest(MergeAux(f)), root, m)
  {
    RepresentsOne(f, MergeAux(f), m);
  }

  lemma AuxCut(f: Forest, root: Node, phn: Node, m0: Store, m1: Store)
    requires Represents(f, root, m0) && f.Cons? && f.rest.Cons? && f.rest.node == phn && root == f.node && root in m0 && phn in m0
    requires m1.Keys == m0.Keys && m1[root] == m0[root].(prev := null, next := null) && m1[phn] == m0[phn].(prev := null)
    requires forall n :: n in m0 && n != root && n != phn ==> m1[n] == m0[n]
    ensures Headed(f.rest, phn, m1) && NoDup(Bag(f.rest)) && Loose(Tree(f.node, f.kids), m1)
  {
    hide NoDup, RootsOk, Bag;
    RootParts(f);
    var g := f.rest;
    assert Linked(g, m0[root].next, root, m0);
    assert phn in Nodes(g) && Nodes(g) == {phn} + Nodes(g.kids) + Nodes(g.rest);
    Frame(f.kids, m0[root].lchild, root, m0, m1);
    Frame(g.kids, m0[phn].lchild, phn, m0, m1);
    Frame(g.rest, m0[phn].next, phn, m0, m1);
  }

  lemma SiblingsTree(f: Forest)
    requires f.Cons? && NoDup(Bag(f))
    ensures DistinctT(MergeSiblings(f)) && NodesT(MergeSiblings(f)) == Nodes(f)
  {
    hide NoDup, MergeSiblings, Bag, BagT;
    MergeSiblingsOk(f);
    NoDupTree(MergeSiblings(f));
    NodesTAreBag(MergeSiblings(f));
    NodesAreBag(f);
    SameSets(NodesT(MergeSiblings(f)), Nodes(f), Bag(f));
  }

  lemma AuxMerged(f: Forest, root: Node, r: Node, m1: Store, m2: Store)
    requires f.Cons? && f.rest.Cons? && root == f.node && NoDup(Bag(f)) && Loose(Tree(f.node, f.kids), m1)
    requires Loose(MergeSiblings(f.rest), m2) && SameOutside(m1, m2, Nodes(f.rest))
    ensures TwoLoose(Tree(f.node, f.kids), MergeSiblings(f.rest), m2) && root in m1 && root in m2 && m2[root] == m1[root]
  {
    hide NoDup, MergeSiblings, Linked, Bag;
    RootParts(f);
    SiblingsTree(f.rest);
    LooseFrame(Tree(f.node, f.kids), m1, m2);
  }

  lemma AuxDone(f: Forest, root: Node, r: Node, m0: Store, m2: Store, m: Store)
    requires Represents(f, root, m0) && m.Keys == m0.Keys == m2.Keys && f.Cons? && f.rest.Cons?
    requires root == f.node && r == MergeSiblings(f.rest).node && root in m2 && r in m2
    requires m2[root].next == null && m2[r].next == null && Loose(MergeAux(f), m)
    requires MergeAux(f).node in m2 && m[MergeAux(f).node].next == m2[MergeAux(f).node].next
    requires BagT(MergeAux(f)) == Bag(f) && (RootsOk(f) ==> TreeOk(MergeAux(f)))
    ensures Represents(AsForest(MergeAux(f)), MergeAux(f).node, m) && Nodes(AsForest(MergeAux(f))) == Nodes(f)
  {
    hide NoDup, MergeSiblings, Linked, TreeOk, Bag, BagT;
    RepresentsOne(f, MergeAux(f), m);
  }

  lemma FirstIsLowest(f0: Forest, f: Forest, root: Node, m: Store)
    requires f0.Cons? && f == AsForest(MergeAux(f0)) && Represents(f, root, m)
    requires BagT(MergeAux(f0)) == Bag(f0)
    ensures Nodes(f) == Nodes(f0) && root in Nodes(f) && forall n :: n in Nodes(f) ==> root.key <= n.key
  {
    hide NoDup, MergeAux;
    var t := MergeAux(f0);
    NodesAreBag(f0);
    NodesAreBag(f);
    assert Bag(f) == BagT(t) && f.node in Nodes(f);
    SameSets(Nodes(f), Nodes(f0), Bag(f));
    forall n | n in Nodes(f) ensures root.key <= n.key {
      RootIsLowest(t, n);
    }
  }

  lemma InsertFirst(f: Forest, node: Node, m: Store)
    requires Represents(f, null, m) && f.Nil? && node !in m
    ensures Represents(Cons(node, Nil, Nil), node, m[node := Cell(null, null, null)])
  {
  }

  lemma InsertAux(f: Forest, root: Node, node: Node, m: Store)
    requires Represents(f, root, m) && f.Cons? && node !in m
    ensures root in m && root == f.node && m[root].next != root && (m[root].next != null ==> m[root].next in m)
    ensures Represents(Cons(f.node, f.kids, Cons(node, Nil, f.rest)), root, InsertedStore(root, node, m))
    ensures InsertedStore(root, node, m).Keys == m.Keys + {node}
  {
    hide NoDup, RootsOk, InsertedStore, Bag;
    RootParts(f);
    assert f.rest.Cons? ==> f.rest.node in Nodes(f.rest);
    assert Linked(f.rest, m[root].next, root, m);
    InsertedCells(root, node, m);
    InsertLinked(f, root, node, m, InsertedStore(root, node, m));
    InsertedBag(f, node);
  }

  lemma InsertLinked(f: Forest, root: Node, node: Node, m: Store, m': Store)
    requires f.Cons? && root == f.node && Headed(f, root, m) && m.Keys == Nodes(f) && Distinct(f) && node !in m
    requires m'.Keys == m.Keys + {node} && m'[node] == Cell(root, m[root].next, null) && m'[root] == m[root].(next := node)
    requires f.rest.Cons? && f.rest.node in m ==> m'[f.rest.node] == m[f.rest.node].(prev := node)
    requires forall n :: n in m && n != root && n != m[root].next ==> m'[n] == m[n]
    ensures Headed(Cons(f.node, f.kids, Cons(node, Nil, f.rest)), root, m')
  {
    assert f.rest.Cons? ==> f.rest.node in Nodes(f.rest);
    Frame(f.kids, m[root].lchild, root, m, m');
    if f.rest.Cons? {
      var n := f.rest.node;
      Frame(f.rest.kids, m[n].lchild, n, m, m');
      Frame(f.rest.rest, m[n].next, n, m, m');
    }
    assert Linked(f.rest, m'[node].next, node, m');
    assert Linked(Cons(node, Nil, f.rest), m'[root].next, root, m');
  }

  /** The store after the stores of ph_insert behind the root. */
  function InsertedStore(root: Node, node: Node, m: Store): Store
    requires root in m
  {
    var next := m[root].next;
    var m1 := m[node := Cell(null, next, null)];
    var m2 := if next != null && next in m1 then m1[next := m1[next].(prev := node)] else m1;
    var m3 := m2[node := m2[node].(prev := root)];
    m3[root := m3[root].(next := node)]
  }

  lemma InsertedCells(root: Node, node: Node, m: Store)
    requires root in m && node !in m && m[root].next != root && (m[root].next != null ==> m[root].next in m)
    ensures var next, m' := m[root].next, InsertedStore(root, node, m);
            && m'.Keys == m.Keys + {node} && m'[node] == Cell(root, next, null) && m'[root] == m[root].(next := node)
            && (next != null ==> m'[next] == m[next].(prev := node))
            && forall n :: n in m && n != root && n != next ==> m'[n] == m[n]
  {
  }

  lemma InsertedBag(f: Forest, node: Node)
    requires f.Cons? && NoDup(Bag(f)) && RootsOk(f) && node !in Nodes(f)
    ensures var f' := Cons(f.node, f.kids, Cons(node, Nil, f.rest));
            NoDup(Bag(f')) && Nodes(f') == Nodes(f) + {node} && RootsOk(f')
  {
    InsertedNodes(f, node);
    hide NoDup, Under;
    var f' := Cons(f.node, f.kids, Cons(node, Nil, f.rest));
    NodesAreBag(f);
    assert f'.rest.rest == f.rest;
    assert RootsOk(f'.rest);
    BagMore(f, node);
    NoDupMore(Bag(f), node);
  }

  lemma BagMore(f: Forest, node: Node)
    requires f.Cons?
    ensures Bag(Cons(f.node, f.kids, Cons(node, Nil, f.rest))) == Bag(f) + multiset{node}
  {
    var g := Cons(node, Nil, f.rest);
    assert Bag(Nil) == multiset{};
    assert Bag(g) == multiset{node} + multiset{} + Bag(f.rest);
    assert Bag(Cons(f.node, f.kids, g)) == multiset{f.node} + Bag(f.kids) + Bag(g);
    Regroup(multiset{f.node} + Bag(f.kids), multiset{node}, Bag(f.rest));
  }

  lemma Regroup(a: multiset<Node>, b: multiset<Node>, c: multiset<Node>)
    ensures a + (b + multiset{} + c) == (a + c) + b
  {
  }

  lemma NoDupMore(b: multiset<Node>, n: Node)
    requires NoDup(b) && n !in b
    ensures NoDup(b + multiset{n})
  {
  }
}
