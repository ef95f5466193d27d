/** ph_remove of include/nvalloc/internal/ph.h: removing an arbitrary node from a pairing heap. */
module PairingHeapRemove {
  import opened PhSpec
  import opened PairingHeap

  function NodesC(c: Ctx): set<Node> {
    match c
    case Top => {}
    case InKids(n, r, up) => {n} + Nodes(r) + NodesC(up)
    case InRest(n, k, up) => {n} + Nodes(k) + NodesC(up)
  }

  lemma {:induction false} NodesCAreBag(c: Ctx)
    ensures forall n :: n in NodesC(c) <==> n in BagC(c)
  {
    match c {
      case Top =>
      case InKids(n, r, up) =>
        NodesAreBag(r);
        NodesCAreBag(up);
      case InRest(n, k, up) =>
        NodesAreBag(k);
        NodesCAreBag(up);
    }
  }

  /** The nodes on the way to the list at `hole` are linked, and the pointer to the list is `hole`. */
  ghost predicate HoleLinked(c: Ctx, root: Node?, hole: Node?, m: Store) {
    match c
    case Top => root == hole
    case InKids(n, r, up) =>
      && n in m && m[n].lchild == hole && Linked(r, m[n].next, n, m) && (!up.Top? ==> m[n].prev == up.node)
      && HoleLinked(up, root, n, m)
    case InRest(n, k, up) =>
      && n in m && m[n].next == hole && Linked(k, m[n].lchild, n, m) && (!up.Top? ==> m[n].prev == up.node)
      && HoleLinked(up, root, n, m)
  }

  /** The last node of the way with the list g put back. */
  function Here(c: Ctx, g: Forest): Forest
    requires !c.Top?
  {
    if c.InKids? then Cons(c.node, g, c.rest) else Cons(c.node, c.kids, g)
  }

  lemma PlugHere(c: Ctx, g: Forest)
    requires !c.Top?
    ensures Plug(c, g) == Plug(c.up, Here(c, g))
    ensures c.up.Top? ==> Plug(c, g) == Here(c, g)
  {
  }

  lemma {:induction false} SplitLinks(c: Ctx, g: Forest, root: Node?, m: Store) returns (hole: Node?)
    requires Headed(Plug(c, g), root, m) && !c.Top?
    ensures HoleLinked(c, root, hole, m) && Linked(g, hole, c.node, m)
  {
    PlugHere(c, g);
    if !c.up.Top? {
      var up := SplitLinks(c.up, Here(c, g), root, m);
      assert Linked(Here(c, g), up, c.up.node, m);
    }
    hole := if c.InKids? then m[c.node].lchild else m[c.node].next;
  }

  lemma {:induction false} JoinLinks(c: Ctx, g: Forest, root: Node?, hole: Node?, m: Store)
    requires !c.Top? && HoleLinked(c, root, hole, m) && Linked(g, hole, c.node, m)
    ensures Headed(Plug(c, g), root, m)
  {
    PlugHere(c, g);
    if !c.up.Top? {
      assert Linked(Here(c, g), c.node, c.up.node, m);
      JoinLinks(c.up, Here(c, g), root, c.node, m);
    }
  }

  lemma {:induction false} HoleFrame(c: Ctx, root: Node?, hole: Node?, m: Store, m': Store)
    requires HoleLinked(c, root, hole, m) && m.Keys <= m'.Keys && forall n :: n in NodesC(c) && n in m ==> m'[n] == m[n]
    ensures HoleLinked(c, root, hole, m')
  {
    match c {
      case Top =>
      case InKids(n, r, up) =>
        Frame(r, m[n].next, n, m, m');
        HoleFrame(up, root, n, m, m');
      case InRest(n, k, up) =>
        Frame(k, m[n].lchild, n, m, m');
        HoleFrame(up, root, n, m, m');
    }
  }

  lemma {:induction false} HoleWithout(c: Ctx, root: Node?, hole: Node?, m: Store, x: Node)
    requires HoleLinked(c, root, hole, m) && x !in NodesC(c)
    ensures HoleLinked(c, root, hole, m - {x})
  {
    match c {
      case Top =>
      case InKids(n, r, up) =>
        LinkedWithout(r, m[n].next, n, m, x);
        HoleWithout(up, root, n, m, x);
      case InRest(n, k, up) =>
        LinkedWithout(k, m[n].lchild, n, m, x);
        HoleWithout(up, root, n, m, x);
    }
  }

  /** The hole's pointer is changed. */
  lemma HoleMoved(c: Ctx, root: Node?, hole: Node?, hole': Node?, m: Store, m': Store)
    requires !c.Top? && HoleLinked(c, root, hole, m) && m'.Keys == m.Keys && Once(c)
    requires c.node in m ==> m'[c.node] == if c.InKids? then m[c.node].(lchild := hole') else m[c.node].(next := hole')
    requires forall n :: n in NodesC(c) && n in m && n != c.node ==> m'[n] == m[n]
    ensures HoleLinked(c, root, hole', m')
  {
    match c {
      case InKids(n, r, up) =>
        Frame(r, m[n].next, n, m, m');
        HoleFrame(up, root, n, m, m');
      case InRest(n, k, up) =>
        Frame(k, m[n].lchild, n, m, m');
        HoleFrame(up, root, n, m, m');
    }
  }

  /** The last node of the way is not elsewhere on it. */
  ghost predicate Once(c: Ctx)
    requires !c.Top?
  {
    c.node !in NodesC(c.up) && c.node !in Nodes(if c.InKids? then c.rest else c.kids)
  }

  lemma OnceOf(c: Ctx, g: Forest)
    requires !c.Top? && NoDup(Bag(Plug(c, g)))
    ensures Once(c) && NodesC(c) !! Nodes(g) && NoDup(Bag(g))
  {
    hide NoDup;
    BagPlug(c, g);
    Apart(BagC(c), Bag(g));
    NodesCAreBag(c);
    NodesAreBag(g);
    ApartSets(NodesC(c), Nodes(g), BagC(c), Bag(g));
    var other := if c.InKids? then c.rest else c.kids;
    Apart(multiset{c.node} + Bag(other), BagC(c.up));
    Apart(multiset{c.node}, Bag(other));
    NodesCAreBag(c.up);
    NodesAreBag(other);
    assert c.node in multiset{c.node} + Bag(other);
  }

  /** The auxiliary list stays without children. */
  lemma {:induction false} ChildlessPlug(c: Ctx, g: Forest, g': Forest)
    requires g.Cons? && (Childless(g) ==> Childless(g')) && !c.Top?
    ensures Plug(c, g).Cons? && Plug(c, g').Cons? && Plug(c, g').node == Plug(c, g).node
    ensures Childless(Plug(c, g).rest) ==> Childless(Plug(c, g').rest)
  {
    if !c.up.Top? {
      match c {
        case InKids(n, r, up) => ChildlessPlug(up, Cons(n, g, r), Cons(n, g', r));
        case InRest(n, k, up) => ChildlessPlug(up, Cons(n, k, g), Cons(n, k, g'));
      }
    }
  }

  // ---------------------------------------------------------------------------------------
  // Splicing
  // ---------------------------------------------------------------------------------------

  /** The links after phn, between p and `next`, is replaced by r, or closed if r is null. */
  ghost predicate Spliced(c: Ctx, r: Node?, next: Node?, m: Store, m': Store)
    requires !c.Top?
  {
    var p, hole := c.node, if r != null then r else next;
    && m'.Keys == m.Keys && p in m
    && m'[p] == (if c.InKids? then m[p].(lchild := hole) else m[p].(next := hole))
    && (r != null ==> r in m && m'[r] == m[r].(prev := p, next := next))
    && (next != null ==> next in m && m'[next] == m[next].(prev := if r != null then r else p))
    && forall n :: n in m && n != p && n != r && n != next ==> m'[n] == m[n]
  }

  lemma SplicedIn(c: Ctx, r: Node, next: Node?, m: Store)
    requires !c.Top? && c.node in m && r in m && r != c.node && r != next
    requires next != null ==> next in m && next != c.node
    ensures var p := c.node;
            var m1 := m[r := m[r].(prev := p)];
            var m2 := if c.InKids? then m1[p := m1[p].(lchild := r)] else m1[p := m1[p].(next := r)];
            var m3 := m2[r := m2[r].(next := next)];
            Spliced(c, r, next, m, if next != null then m3[next := m3[next].(prev := r)] else m3)
  {
  }

  /** The stores of ph_remove if the children have been merged into r. */
  method SpliceIn(phn: Node, parent: Node?, r: Node, ghost c: Ctx, ghost m: Store) returns (ghost m': Store)
    requires Matches(m) && !c.Top? && phn in m && c.node in m && m[phn].prev == c.node
    requires parent == if c.InKids? then c.node else null
    requires var next := m[phn].next; next != null ==> next in m && next != c.node && next != phn
    requires c.node != phn && r in m && r != c.node && r != phn && r != m[phn].next
    modifies m.Keys
    ensures Matches(m') && Spliced(c, r, m[phn].next, m, m')
  {
    hide Spliced;
    var prev, next := phn.prev, phn.next;
    SplicedIn(c, r, next, m);
    if parent != null {
      m' := SetPrev(r, parent, m);
      m' := SetLchild(parent, r, m');
    } else {
      m' := SetPrev(r, prev, m);
      m' := SetNext(prev, r, m');
    }
    m' := SetNext(r, next, m');
    if next != null {
      m' := SetPrev(next, r, m');
    }
  }

  /** The stores of ph_remove if there are no children. */
  method SpliceOut(phn: Node, parent: Node?, ghost c: Ctx, ghost m: Store) returns (ghost m': Store)
    requires Matches(m) && !c.Top? && phn in m && c.node in m && m[phn].prev == c.node
    requires parent == if c.InKids? then c.node else null
    requires var next := m[phn].next; next != null ==> next in m && next != c.node && next != phn
    requires c.node != phn
    modifies m.Keys
    ensures Matches(m') && Spliced(c, null, m[phn].next, m, m')
  {
    var prev, next := phn.prev, phn.next;
    if parent != null {
      m' := SetLchild(parent, next, m);
      if next != null {
        m' := SetPrev(next, parent, m');
      }
    } else {
      m' := SetNext(prev, next, m);
    }
    if next != null {
      m' := SetPrev(next, prev, m');
    }
  }

  /** phn is gone, and what replaces it is linked. */
  lemma SplicedLinks(c: Ctx, g: Forest, t: Tree, hole: Node?, root: Node?, m: Store, m': Store)
    requires !c.Top? && g.Cons? && g.kids.Cons? && t == MergeSiblings(g.kids) && NodesT(t) == Nodes(g.kids)
    requires Once(c) && NodesC(c) !! Nodes(g) && Distinct(g)
    requires HoleLinked(c, root, hole, m) && Loose(t, m) && g.node in m && Linked(g.rest, m[g.node].next, g.node, m)
    requires DistinctT(t) && Spliced(c, t.node, m[g.node].next, m, m')
    ensures HoleLinked(c, root, t.node, m') && Linked(Cons(t.node, t.kids, g.rest), t.node, c.node, m')
  {
    var next := m[g.node].next;
    assert g.rest.Cons? ==> next == g.rest.node && next in Nodes(g.rest);
    assert t.node in NodesT(t);
    SplicedHole(c, g, t.node, next, hole, root, m, m');
    Frame(t.kids, m[t.node].lchild, t.node, m, m');
    if g.rest.Cons? {
      Frame(g.rest.kids, m[next].lchild, next, m, m');
      Frame(g.rest.rest, m[next].next, next, m, m');
    }
    assert Linked(g.rest, m'[t.node].next, t.node, m');
  }

  lemma SplicedHole(c: Ctx, g: Forest, r: Node?, next: Node?, hole: Node?, root: Node?, m: Store, m': Store)
    requires !c.Top? && g.Cons? && Once(c) && NodesC(c) !! Nodes(g) && HoleLinked(c, root, hole, m)
    requires Spliced(c, r, next, m, m') && (r != null ==> r in Nodes(g)) && (next != null ==> next in Nodes(g))
    ensures HoleLinked(c, root, if r != null then r else next, m')
  {
    HoleMoved(c, root, hole, if r != null then r else next, m, m');
  }

  lemma ClosedLinks(c: Ctx, g: Forest, hole: Node?, root: Node?, m: Store, m': Store)
    requires !c.Top? && g.Cons? && Once(c) && NodesC(c) !! Nodes(g) && Distinct(g)
    requires HoleLinked(c, root, hole, m) && g.node in m && Linked(g.rest, m[g.node].next, g.node, m)
    requires Spliced(c, null, m[g.node].next, m, m')
    ensures HoleLinked(c, root, m[g.node].next, m') && Linked(g.rest, m[g.node].next, c.node, m')
  {
    var next := m[g.node].next;
    assert g.rest.Cons? ==> next == g.rest.node && next in Nodes(g.rest);
    SplicedHole(c, g, null, next, hole, root, m, m');
    if g.rest.Cons? {
      Frame(g.rest.kids, m[next].lchild, next, m, m');
      Frame(g.rest.rest, m[next].next, next, m, m');
    }
  }

  // ---------------------------------------------------------------------------------------
  // ph_remove
  // ---------------------------------------------------------------------------------------

  /** Where phn stands: the list g that it heads is in the hole of c. */
  ghost predicate Placed(f: Forest, c: Ctx, g: Forest, phn: Node, root: Node?, m: Store) {
    && !c.Top? && Plug(c, g) == f && g.Cons? && g.node == phn
    && Once(c) && NodesC(c) !! Nodes(g) && Distinct(g) && NoDup(Bag(g))
    && HoleLinked(c, root, phn, m) && Linked(g, phn, c.node, m)
  }

  lemma Place(f: Forest, phn: Node, root: Node?, m: Store) returns (c: Ctx, g: Forest)
    requires Represents(f, root, m) && phn in Nodes(f) && root != phn
    ensures Placed(f, c, g, phn, root, m)
  {
    hide NoDup, RootsOk, Linked, HoleLinked, Once, Distinct;
    NodesAreBag(f);
    c, g := Find(f, phn, Top);
    assert !c.Top?;
    OnceOf(c, g);
    NoDupIsDistinct(g);
    var hole := SplitLinks(c, g, root, m);
    assert hole == phn by {
      HeadOf(g, hole, c.node, m);
    }
  }

  lemma HeadOf(g: Forest, hole: Node?, prev: Node?, m: Store)
    requires Linked(g, hole, prev, m) && g.Cons?
    ensures hole == g.node
  {
  }

  /** What ph_remove reads before it mutates. */
  lemma PlacedCells(f: Forest, c: Ctx, g: Forest, phn: Node, root: Node?, m: Store)
    requires Placed(f, c, g, phn, root, m)
    ensures !c.Top? && g.Cons? && g.node == phn
    ensures phn in m && c.node in m && c.node != phn && m[phn].prev == c.node
    ensures m[c.node].lchild == phn <==> c.InKids?
    ensures var next := m[phn].next; next != null ==> next in m && next != c.node && next != phn && next in Nodes(g.rest)
    ensures m[phn].lchild == null <==> g.kids.Nil?
    ensures g.kids.Cons? ==> Headed(g.kids, m[phn].lchild, m) && NoDup(Bag(g.kids))
    ensures Nodes(g.kids) !! Nodes(g.rest) && phn !in Nodes(g.kids) && Nodes(g.kids) !! NodesC(c)
  {
    assert c.node in NodesC(c) && phn in Nodes(g);
    assert Linked(g.rest, m[phn].next, phn, m) && Linked(g.kids, m[phn].lchild, phn, m);
    assert g.rest.Cons? ==> g.rest.node in Nodes(g.rest);
    assert c.InRest? && c.kids.Cons? ==> c.kids.node in NodesC(c);
    Apart(multiset{phn} + Bag(g.kids), Bag(g.rest));
    Apart(multiset{phn}, Bag(g.kids));
  }

  /** The children of phn, merged into one tree, and the rest of its siblings take its place. */
  lemma RemovedLinks(f: Forest, c: Ctx, g: Forest, phn: Node, root: Node?, m0: Store, m1: Store, m: Store)
    requires Represents(f, root, m0) && Placed(f, c, g, phn, root, m0) && phn in m0
    requires SameOutside(m0, m1, Nodes(g.kids)) && m1[phn] == m0[phn]
    requires g.kids.Cons? ==> Loose(MergeSiblings(g.kids), m1)
    requires Spliced(c, if g.kids.Cons? then MergeSiblings(g.kids).node else null, m0[phn].next, m1, m)
    ensures Represents(Plug(c, Replaced(g.kids, g.rest)), root, m - {phn})
    ensures Nodes(Plug(c, Replaced(g.kids, g.rest))) == Nodes(f) - {phn} && m.Keys == m0.Keys
  {
    hide NoDup, RootsOk, Linked, HoleLinked, Once, Distinct, MergeSiblings, Bag, Spliced, Childless, Headed, Loose, Replaced, Nodes;
    SplicedKeys(c, if g.kids.Cons? then MergeSiblings(g.kids).node else null, m0[phn].next, m1, m);
    NewLinks(f, c, g, phn, root, m0, m1, m);
    RemovedOk(c, g);
    ChildlessReplaced(c, g);
    RemovedBag(f, Plug(c, Replaced(g.kids, g.rest)), phn);
  }

  lemma SplicedKeys(c: Ctx, r: Node?, next: Node?, m: Store, m': Store)
    requires !c.Top? && Spliced(c, r, next, m, m')
    ensures m'.Keys == m.Keys
  {
  }

  lemma NewLinks(f: Forest, c: Ctx, g: Forest, phn: Node, root: Node?, m0: Store, m1: Store, m: Store)
    requires Placed(f, c, g, phn, root, m0) && phn in m0
    requires SameOutside(m0, m1, Nodes(g.kids)) && m1[phn] == m0[phn]
    requires g.kids.Cons? ==> Loose(MergeSiblings(g.kids), m1)
    requires Spliced(c, if g.kids.Cons? then MergeSiblings(g.kids).node else null, m0[phn].next, m1, m)
    ensures Headed(Plug(c, Replaced(g.kids, g.rest)), root, m - {phn})
  {
    hide NoDup, HoleLinked, Once, MergeSiblings, Bag, Spliced, Headed, Loose, Plug;
    PlacedCells(f, c, g, phn, root, m0);
    HoleFrame(c, root, phn, m0, m1);
    Frame(g.rest, m0[phn].next, phn, m0, m1);
    if g.kids.Cons? {
      var t := MergeSiblings(g.kids);
      SiblingsTree(g.kids);
      SplicedLinks(c, g, t, phn, root, m1, m);
      PutTogether(c, Cons(t.node, t.kids, g.rest), root, t.node, m, phn);
    } else {
      ClosedLinks(c, g, phn, root, m1, m);
      PutTogether(c, g.rest, root, m0[phn].next, m, phn);
    }
  }

  lemma PutTogether(c: Ctx, g: Forest, root: Node?, hole: Node?, m: Store, phn: Node)
    requires !c.Top? && HoleLinked(c, root, hole, m) && Linked(g, hole, c.node, m) && phn !in NodesC(c) && phn !in Nodes(g)
    ensures Headed(Plug(c, g), root, m - {phn})
  {
    HoleWithout(c, root, hole, m, phn);
    LinkedWithout(g, hole, c.node, m, phn);
    JoinLinks(c, g, root, hole, m - {phn});
  }

  lemma ChildlessReplaced(c: Ctx, g: Forest)
    requires !c.Top? && g.Cons?
    ensures Plug(c, g).Cons? && Plug(c, Replaced(g.kids, g.rest)).Cons?
    ensures Childless(Plug(c, g).rest) ==> Childless(Plug(c, Replaced(g.kids, g.rest)).rest)
  {
    ChildlessPlug(c, g, Replaced(g.kids, g.rest));
  }

  lemma RemovedBag(f: Forest, f': Forest, phn: Node)
    requires Bag(f') == Bag(f) - multiset{phn} && NoDup(Bag(f)) && phn in Nodes(f)
    ensures NoDup(Bag(f')) && Nodes(f') == Nodes(f) - {phn}
  {
    hide NoDup, Nodes, Bag;
    NodesAreBag(f);
    NodesAreBag(f');
    MinusPlus(Bag(f), phn);
    Apart(Bag(f'), multiset{phn});
    ApartSets(Nodes(f'), {phn}, Bag(f'), multiset{phn});
    SumSets(Nodes(f'), {phn}, Nodes(f), Bag(f'), multiset{phn});
  }

  lemma MinusPlus(b: multiset<Node>, n: Node)
    requires n in b
    ensures b - multiset{n} + multiset{n} == b
  {
  }

  /** ph_remove. */
  method Remove(heap: Heap, phn: Node)
    requires heap.Valid() && phn in heap.Contents()
    modifies heap, heap.store.Keys
    ensures heap.Valid() && heap.Contents() == old(heap.Contents()) - {phn} && heap.store.Keys == old(heap.store.Keys) - {phn}
  {
    hide Represents, NoDup, Bag, RootsOk, MergeAux, Linked, Replaced, Nodes;
    EmptyRoot(heap.f, heap.root, heap.store);
    KeysAreNodes(heap.f, heap.root, heap.store);
    if heap.root == phn {
      RootCells(heap.f, heap.root, heap.store);
      if phn.lchild == null {
        ghost var m := heap.store;
        heap.root := phn.next;
        if heap.root != null {
          m := SetPrev(heap.root, null, m);
        }
        BareRoot(heap.f, phn, heap.store, m);
        heap.store := m - {phn};
        heap.f := heap.f.rest;
        return;
      }
      ghost var f0 := heap.f;
      heap.MergeAuxList();
      MergeAuxOk(f0);
      FirstIsLowest(f0, heap.f, heap.root, heap.store);
      EmptyRoot(heap.f, heap.root, heap.store);
      if heap.root == phn {
        DroppedNodes(heap.f, phn, heap.store);
        heap.DropRoot();
        return;
      }
    }
    RemoveInner(heap, phn);
  }

  lemma KeysAreNodes(f: Forest, root: Node?, m: Store)
    requires Represents(f, root, m)
    ensures m.Keys == Nodes(f)
  {
  }

  lemma RootCells(f: Forest, root: Node, m: Store)
    requires Represents(f, root, m)
    ensures root in m && f.Cons? && root == f.node && (m[root].lchild == null <==> f.kids.Nil?)
    ensures if m[root].next == null then f.rest.Nil? else f.rest.Cons? && m[root].next == f.rest.node && m[root].next in m && m[root].next != root
  {
    AuxStart(f, root, m);
  }

  /** A root without children makes way for the first node behind it. */
  lemma BareRoot(f: Forest, phn: Node, m: Store, m': Store)
    requires Represents(f, phn, m) && f.Cons? && f.node == phn && f.kids.Nil? && phn in m
    requires m[phn].next != null ==> m[phn].next in m
    requires m' == if m[phn].next != null then m[m[phn].next := m[m[phn].next].(prev := null)] else m
    ensures Represents(f.rest, m[phn].next, m' - {phn}) && Nodes(f.rest) == Nodes(f) - {phn} && m'.Keys == m.Keys
  {
    hide NoDup, Bag, Under;
    RootParts(f);
    var g := f.rest;
    assert Linked(g, m[phn].next, phn, m);
    if g.Cons? {
      assert g.node in Nodes(g);
      Frame(g.kids, m[g.node].lchild, g.node, m, m');
      Frame(g.rest, m[g.node].next, g.node, m, m');
      LinkedWithout(g.kids, m'[g.node].lchild, g.node, m', phn);
      LinkedWithout(g.rest, m'[g.node].next, g.node, m', phn);
    }
    assert Nodes(f.kids) == {} && Nodes(f) == {phn} + Nodes(g);
  }

  /** The rest of ph_remove, for a node that is not the root. */
  method RemoveInner(heap: Heap, phn: Node)
    requires heap.Valid() && phn in heap.Contents() && heap.root != phn
    modifies heap, heap.store.Keys
    ensures heap.Valid() && heap.Contents() == old(heap.Contents()) - {phn} && heap.store.Keys == old(heap.store.Keys) - {phn}
  {
    hide Represents, NoDup, Bag, Linked, Nodes, Placed, Spliced, Loose, Plug, Replaced, MergeSiblings, Headed, SameOutside, Matches;
    ghost var m0 := heap.store;
    ghost var c, g := Place(heap.f, phn, heap.root, m0);
    PlacedCells(heap.f, c, g, phn, heap.root, m0);
    CellNow(phn, m0);
    CellNow(m0[phn].prev, m0);
    var parent := phn.prev;
    if parent.lchild != phn {
      parent := null;
    }
    var lchild := phn.lchild;
    ghost var m1, m := m0, m0;
    if lchild == null {
      NothingChanged(m0, Nodes(g.kids));
      m := SpliceOut(phn, parent, c, m0);
    } else {
      var r;
      r, m1 := MergeList(lchild, g.kids, m0);
      MergedApart(c, g, phn, r, m0, m1);
      m := SpliceIn(phn, parent, r, c, m1);
    }
    RemovedLinks(heap.f, c, g, phn, heap.root, m0, m1, m);
    heap.f := Plug(c, Replaced(g.kids, g.rest));
    heap.store := m - {phn};
    StillMatches(m, phn);
  }

  lemma StillMatches(m: Store, n: Node)
    requires Matches(m)
    ensures Matches(m - {n})
  {
  }

  lemma CellNow(n: Node, m: Store)
    requires Matches(m) && n in m
    ensures m[n] == Cell(n.prev, n.next, n.lchild)
  {
  }

  lemma MergedApart(c: Ctx, g: Forest, phn: Node, r: Node, m0: Store, m1: Store)
    requires !c.Top? && g.Cons? && g.kids.Cons? && SameOutside(m0, m1, Nodes(g.kids)) && NoDup(Bag(g.kids))
    requires r == MergeSiblings(g.kids).node && phn in m0 && c.node in m0
    requires Nodes(g.kids) !! Nodes(g.rest) && phn !in Nodes(g.kids) && Nodes(g.kids) !! NodesC(c)
    requires m0[phn].next != null ==> m0[phn].next in Nodes(g.rest)
    ensures m1[phn] == m0[phn] && r != c.node && r != phn && r != m0[phn].next
  {
    hide NoDup, MergeSiblings;
    SiblingsTree(g.kids);
    assert c.node in NodesC(c);
  }
}
