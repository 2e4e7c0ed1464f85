/** Blocknums: they stay distinct, and the recorded rightmost blocknum always names
    the rightmost leaf, which is never the root. While the sequential-insert score
    is positive, no message waits on the way to that leaf. */
module Rightmost {
  import opened Keys
  import opened Messages
  import opened Entries
  import opened Nodes
  import opened PutMsg
  import opened Leaves
  import opened LeafMerge
  import opened Paths
  import opened Halves
  import opened Parents
  import opened Edges
  import opened Reshape
  import opened Query
  import opened Protocol

  // --------------------------------------------------------------- blocknums

  function Bns(n: Node): multiset<BlockNum> {
    multiset{n.bn} + if n.Inner? then KidsBns(n.kids) else multiset{}
  }

  function KidsBns(kids: seq<Kid>): multiset<BlockNum> {
    if |kids| == 0 then multiset{} else KidsBns(kids[..|kids| - 1]) + Bns(kids[|kids| - 1].child)
  }

  lemma {:induction false} KidsBnsConcat(a: seq<Kid>, b: seq<Kid>)
    ensures KidsBns(a + b) == KidsBns(a) + KidsBns(b)
    decreases |b|
  {
    hide Bns;
    if |b| == 0 {
      assert a + b == a;
    } else {
      assert (a + b)[..|a + b| - 1] == a + b[..|b| - 1];
      KidsBnsConcat(a, b[..|b| - 1]);
    }
  }

  lemma KidsBnsOne(a: Kid)
    ensures KidsBns([a]) == Bns(a.child)
  {
  }

  lemma KidsBnsTwo(a: Kid, b: Kid)
    ensures KidsBns([a, b]) == Bns(a.child) + Bns(b.child)
  {
    KidsBnsConcat([a], [b]);
    assert [a] + [b] == [a, b];
    KidsBnsOne(a);
    KidsBnsOne(b);
  }

  lemma KidsBnsAt(kids: seq<Kid>, i: nat)
    requires i < |kids|
    ensures KidsBns(kids) == KidsBns(kids[..i]) + Bns(kids[i].child) + KidsBns(kids[i + 1..])
  {
    hide Bns, KidsBns;
    assert kids == kids[..i] + ([kids[i]] + kids[i + 1..]);
    KidsBnsConcat(kids[..i], [kids[i]] + kids[i + 1..]);
    KidsBnsConcat([kids[i]], kids[i + 1..]);
    KidsBnsOne(kids[i]);
  }

  lemma {:induction false} KidsBnsSame(a: seq<Kid>, b: seq<Kid>)
    requires |a| == |b| && forall i :: 0 <= i < |a| ==> Bns(a[i].child) == Bns(b[i].child)
    ensures KidsBns(a) == KidsBns(b)
    decreases |a|
  {
    hide Bns;
    if |a| > 0 {
      KidsBnsSame(a[..|a| - 1], b[..|b| - 1]);
    }
  }

  ghost predicate Distinct(m: multiset<BlockNum>) {
    forall b :: m[b] <= 1
  }

  lemma SetKidBns(n: Node, i: nat, kid: Kid)
    requires n.Inner? && i < |n.kids|
    ensures Bns(SetKid(n, i, kid)) + Bns(n.kids[i].child) == Bns(n) + Bns(kid.child)
  {
    hide KidsBns;
    KidsBnsAt(n.kids, i);
    var ks := n.kids[i := kid];
    KidsBnsAt(ks, i);
    assert ks[..i] == n.kids[..i] && ks[i + 1..] == n.kids[i + 1..];
  }

  lemma {:induction false} ReplaceBns(top: Kid, path: Path, e: Kid)
    requires ValidPath(top, path)
    ensures Bns(ReplaceAt(top, path, e).child) + Bns(EdgeAt(top, path).child) == Bns(top.child) + Bns(e.child)
    decreases path
  {
    hide Bns;
    if |path| > 0 {
      var kid := top.child.kids[path[0]];
      ReplaceBns(kid, path[1..], e);
      var kid' := ReplaceAt(kid, path[1..], e);
      SetKidBns(top.child, path[0], kid');
      var a, b, c, d, x, y := Bns(kid'.child), Bns(EdgeAt(kid, path[1..]).child), Bns(kid.child), Bns(e.child),
                              Bns(SetKid(top.child, path[0], kid')), Bns(top.child);
      Cancel(a, b, c, d, x, y);
    }
  }

  lemma Cancel(a: multiset<BlockNum>, b: multiset<BlockNum>, c: multiset<BlockNum>, d: multiset<BlockNum>,
               x: multiset<BlockNum>, y: multiset<BlockNum>)
    requires a + b == c + d && x + c == y + a
    ensures x + b == y + d
  {
    forall v ensures (x + b)[v] == (y + d)[v] {
      assert (a + b)[v] == (c + d)[v] && (x + c)[v] == (y + a)[v];
    }
  }

  lemma CancelSame(x: multiset<BlockNum>, y: multiset<BlockNum>, c: multiset<BlockNum>)
    requires x + c == y + c
    ensures x == y
  {
    forall v ensures x[v] == y[v] {
      assert (x + c)[v] == (y + c)[v];
    }
  }

  // ------------------------------------------------------------ the right edge

  /** The blocknum of the rightmost leaf below a node. */
  function RightBn(n: Node): BlockNum {
    if n.Leaf? || |n.kids| == 0 then n.bn else RightBn(n.kids[|n.kids| - 1].child)
  }

  /** No message is buffered or in flight on the way to the rightmost leaf. */
  predicate RightClear(e: Kid) {
    && |e.buf| == 0 && |Inflight(e)| == 0
    && (e.child.Inner? && |e.child.kids| > 0 ==> RightClear(e.child.kids[|e.child.kids| - 1]))
  }

  lemma {:induction false} RightReplace(top: Kid, path: Path, e: Kid)
    requires ValidPath(top, path)
    ensures AllLast(top, path) ==>
              && RightBn(ReplaceAt(top, path, e).child) == RightBn(e.child)
              && RightBn(top.child) == RightBn(EdgeAt(top, path).child)
              && (RightClear(top) ==> RightClear(EdgeAt(top, path)))
              && (RightClear(top) && RightClear(e) ==> RightClear(ReplaceAt(top, path, e)))
    ensures !AllLast(top, path) ==>
              && RightBn(ReplaceAt(top, path, e).child) == RightBn(top.child)
              && (RightClear(top) ==> RightClear(ReplaceAt(top, path, e)))
    decreases path
  {
    hide RightClear, RightBn;
    if |path| > 0 {
      RightReplace(top.child.kids[path[0]], path[1..], e);
      RightStep(top);
      RightStep(ReplaceAt(top, path, e));
    }
  }

  lemma RightStep(e: Kid)
    requires e.child.Inner? && |e.child.kids| > 0
    ensures
      var last := e.child.kids[|e.child.kids| - 1];
      && RightBn(e.child) == RightBn(last.child)
      && (RightClear(e) <==> |e.buf| == 0 && |Inflight(e)| == 0 && RightClear(last))
  {
  }

  /** A change of one edge that the right edge of the tree does not notice. */
  ghost predicate RightSame(e: Kid, e': Kid) {
    && RightBn(e'.child) == RightBn(e.child)
    && (RightClear(e) ==> RightClear(e'))
    && e'.child.Inner? == e.child.Inner?
  }

  lemma PutShape(n: Node, m: Message)
    ensures Bns(Put(n, m)) == Bns(n) && RightBn(Put(n, m)) == RightBn(n)
  {
    hide Bns, RightBn, BasementPut;
    var n' := Put(n, m);
    if n.Inner? {
      assert forall i :: 0 <= i < |n.kids| ==> n'.kids[i].child == n.kids[i].child;
      KidsBnsSame(n'.kids, n.kids);
      InnerBns(n);
      InnerBns(n');
      SameRight(n, n');
    } else {
      LeafBns(n);
      LeafBns(n');
    }
  }

  lemma SameRight(n: Node, n': Node)
    requires n.Inner? && n'.Inner? && |n'.kids| == |n.kids| && n'.bn == n.bn
    requires forall i :: 0 <= i < |n.kids| ==> n'.kids[i].child == n.kids[i].child
    ensures RightBn(n') == RightBn(n)
  {
  }

  lemma {:induction false} PutAllShape(n: Node, ms: seq<Message>)
    ensures Bns(PutAll(n, ms)) == Bns(n) && RightBn(PutAll(n, ms)) == RightBn(n)
  {
    hide Put, Bns, RightBn;
    if |ms| > 0 {
      PutAllShape(n, ms[..|ms| - 1]);
      PutShape(PutAll(n, ms[..|ms| - 1]), ms[|ms| - 1]);
    }
  }

  lemma ApplyShape(e: Kid)
    requires e.pin.Held?
    ensures Bns(Apply(e).child) == Bns(e.child) && RightSame(e, Apply(e))
  {
    PutAllShape(e.child, e.pin.inflight);
    if RightClear(e) {
      assert e.pin.inflight == [];
      assert PutAll(e.child, []) == e.child;
    }
  }

  lemma DetachShape(e: Kid, i: nat)
    requires e.pin.Held? && e.child.Inner? && i < |e.child.kids| && e.child.kids[i].pin.Free?
    ensures Bns(Detach(e, i).child) == Bns(e.child) && RightSame(e, Detach(e, i))
  {
    hide Bns, RightBn, RightClear, Detached;
    var kid' := Detached(e.child.kids[i], e.pin, e.child.maxMsn);
    DetachedShape(e.child.kids[i], e.pin, e.child.maxMsn);
    SetKidBns(e.child, i, kid');
    CancelSame(Bns(Detach(e, i).child), Bns(e.child), Bns(kid'.child));
    RightStep(e);
    RightStep(Detach(e, i));
  }

  lemma DetachedShape(kid: Kid, pin: Pin, maxMsn: nat)
    requires pin.Held? && kid.pin.Free?
    ensures
      var kid' := Detached(kid, pin, maxMsn);
      Bns(kid'.child) == Bns(kid.child) && RightBn(kid'.child) == RightBn(kid.child) && (RightClear(kid) ==> RightClear(kid'))
  {
  }

  // ------------------------------------------------------------ split and merge

  lemma InnerBns(n: Node)
    requires n.Inner?
    ensures Bns(n) == multiset{n.bn} + KidsBns(n.kids)
  {
  }

  lemma LeafBns(n: Node)
    requires n.Leaf?
    ensures Bns(n) == multiset{n.bn} && RightBn(n) == n.bn
  {
  }

  lemma HalfBns(n: Node, at: SplitLoc, bn: BlockNum, rm: Option<BlockNum>)
    requires CanSplit(n, at)
    ensures Bns(LeftHalf(n, at, bn, rm)) + Bns(RightHalf(n, at, bn, rm)) == Bns(n) + multiset{bn}
  {
    hide Bns, KidsBns, LeftLeaf, RightLeaf;
    var l, r := LeftHalf(n, at, bn, rm), RightHalf(n, at, bn, rm);
    if n.Inner? {
      KidsBnsConcat(n.kids[..Half(n)], n.kids[Half(n)..]);
      assert n.kids == n.kids[..Half(n)] + n.kids[Half(n)..];
      InnerBns(n);
      InnerBns(l);
      InnerBns(r);
      assert multiset{l.bn} + multiset{r.bn} == multiset{n.bn} + multiset{bn};
    } else {
      HalfLeaves(n, at, bn, rm);
      LeafBns(n);
      LeafBns(l);
      LeafBns(r);
    }
  }

  lemma HalfLeaves(n: Node, at: SplitLoc, bn: BlockNum, rm: Option<BlockNum>)
    requires n.Leaf? && CanSplit(n, at)
    ensures LeftHalf(n, at, bn, rm).Leaf? && RightHalf(n, at, bn, rm).Leaf?
  {
  }

  lemma SplitBns(e: Kid, i: nat, at: SplitLoc, bn: BlockNum, rm: Option<BlockNum>)
    requires e.child.Inner? && i < |e.child.kids| == |e.child.pivots| + 1 && CanSplit(e.child.kids[i].child, at)
    ensures Bns(SplitKid(e, i, at, bn, rm).child) == Bns(e.child) + multiset{bn}
  {
    hide KidsBns, CanSplit, LeftHalf, RightHalf, SplitPivot;
    var kids, n := e.child.kids, e.child.kids[i].child;
    var a, b := InPlaceOf(kids[i], LeftHalf(n, at, bn, rm)), InPlaceOf(kids[i], RightHalf(n, at, bn, rm));
    HalfBns(n, at, bn, rm);
    KidsBnsAt(kids, i);
    KidsBnsConcat(kids[..i] + [a, b], kids[i + 1..]);
    KidsBnsConcat(kids[..i], [a, b]);
    KidsBnsTwo(a, b);
  }

  lemma SplitRightEdge(e: Kid, i: nat, at: SplitLoc, bn: BlockNum, rm: Option<BlockNum>)
    requires e.child.Inner? && i < |e.child.kids| == |e.child.pivots| + 1 && CanSplit(e.child.kids[i].child, at)
    requires rm.Some? ==> rm.value == RightBn(e.child)
    requires e.child.kids[i].pin.Held? && |e.child.kids[i].pin.inflight| == 0
    ensures rm.Some? ==> RightBn(SplitKid(e, i, at, bn, rm).child) == RightBn(e.child)
    ensures RightClear(e) ==> RightClear(SplitKid(e, i, at, bn, rm))
  {
    hide SplitPivot, RightClear, RightBn, LeftLeaf, RightLeaf, SplitParent, CanSplit;
    var kid := e.child.kids[i];
    var n := kid.child;
    var l, r := LeftHalf(n, at, bn, rm), RightHalf(n, at, bn, rm);
    SplitParentShape(e.child, i, InPlaceOf(kid, l), InPlaceOf(kid, r), SplitPivot(n, at));
    RightStep(e);
    RightStep(SplitKid(e, i, at, bn, rm));
    HalfRightEdge(kid, at, bn, rm);
  }

  lemma HalfRightEdge(kid: Kid, at: SplitLoc, bn: BlockNum, rm: Option<BlockNum>)
    requires CanSplit(kid.child, at) && kid.pin.Held? && |kid.pin.inflight| == 0
    ensures rm == Some(RightBn(kid.child)) ==> RightBn(RightHalf(kid.child, at, bn, rm)) == RightBn(kid.child)
    ensures RightClear(kid) ==> RightClear(InPlaceOf(kid, RightHalf(kid.child, at, bn, rm)))
  {
    hide RightClear, RightBn, LeftLeaf, RightLeaf;
    var n, r := kid.child, RightHalf(kid.child, at, bn, rm);
    if n.Inner? {
      assert r.kids[|r.kids| - 1] == n.kids[|n.kids| - 1];
      RightStep(kid);
      RightStep(InPlaceOf(kid, r));
    } else {
      HalfLeaves(n, at, bn, rm);
      LeafBns(n);
      LeafBns(r);
      LeafClear(InPlaceOf(kid, r));
    }
  }

  lemma LeafClear(e: Kid)
    requires e.child.Leaf?
    ensures RightClear(e) <==> |e.buf| == 0 && |Inflight(e)| == 0
  {
  }

  lemma MergedBns(a: Node, b: Node, key: Key, rm: Option<BlockNum>)
    requires a.Leaf? == b.Leaf? && (a.Leaf? ==> |a.bases| > 0)
    ensures
      var m := MergedNode(a, b, key, rm);
      Bns(m) + multiset{if rm == Some(b.bn) then a.bn else b.bn} == Bns(a) + Bns(b)
  {
    hide Bns, KidsBns, MergeLeaves;
    var m := MergedNode(a, b, key, rm);
    if a.Inner? {
      KidsBnsConcat(a.kids, b.kids);
      InnerBns(a);
      InnerBns(b);
      InnerBns(m);
      assert multiset{m.bn} + multiset{if rm == Some(b.bn) then a.bn else b.bn} == multiset{a.bn} + multiset{b.bn};
    } else {
      MergedKind(a, b, key, rm);
      LeafBns(a);
      LeafBns(b);
      LeafBns(m);
    }
  }

  lemma MergedRightEdge(ka: Kid, kb: Kid, key: Key, rm: Option<BlockNum>)
    requires ka.child.Leaf? == kb.child.Leaf? && (kb.child.Inner? ==> |kb.child.kids| > 0)
    requires |Inflight(ka)| == 0
    ensures
      var m := MergedNode(ka.child, kb.child, key, rm);
      && (rm == Some(RightBn(kb.child)) ==> RightBn(m) == RightBn(kb.child))
      && (RightClear(kb) ==> RightClear(InPlaceOf(ka, m)))
  {
    hide RightClear, RightBn, MergeLeaves;
    var m := MergedNode(ka.child, kb.child, key, rm);
    if ka.child.Inner? {
      assert m.kids[|m.kids| - 1] == kb.child.kids[|kb.child.kids| - 1];
      RightStep(kb);
      RightStep(InPlaceOf(ka, m));
    } else {
      MergedKind(ka.child, kb.child, key, rm);
      LeafBns(kb.child);
      LeafBns(m);
      LeafClear(InPlaceOf(ka, m));
    }
  }

  lemma MergeBns(e: Kid, i: nat, rm: Option<BlockNum>)
    requires e.child.Inner? && i + 1 < |e.child.kids| == |e.child.pivots| + 1
    requires
      var a, b := e.child.kids[i].child, e.child.kids[i + 1].child;
      a.Leaf? == b.Leaf? && (a.Leaf? ==> |a.bases| > 0)
    ensures Bns(MergeKids(e, i, rm).child) <= Bns(e.child)
  {
    hide Bns, KidsBns, MergedNode;
    var kids := e.child.kids;
    var a, b := kids[i].child, kids[i + 1].child;
    var m := MergedNode(a, b, e.child.pivots[i], rm);
    var c := InPlaceOf(kids[i], m);
    MergedBns(a, b, e.child.pivots[i], rm);
    InnerBns(e.child);
    InnerBns(MergeKids(e, i, rm).child);
    assert kids == (kids[..i] + [kids[i], kids[i + 1]]) + kids[i + 2..];
    KidsBnsConcat(kids[..i] + [kids[i], kids[i + 1]], kids[i + 2..]);
    KidsBnsConcat(kids[..i], [kids[i], kids[i + 1]]);
    KidsBnsTwo(kids[i], kids[i + 1]);
    KidsBnsConcat(kids[..i] + [c], kids[i + 2..]);
    KidsBnsConcat(kids[..i], [c]);
    KidsBnsOne(c);
  }

  lemma MergeRightEdge(e: Kid, i: nat, rm: Option<BlockNum>)
    requires e.child.Inner? && i + 1 < |e.child.kids| == |e.child.pivots| + 1
    requires
      var a, b := e.child.kids[i].child, e.child.kids[i + 1].child;
      a.Leaf? == b.Leaf? && (b.Inner? ==> |b.kids| > 0)
    requires rm.Some? ==> rm.value == RightBn(e.child)
    requires |Inflight(e.child.kids[i])| == 0
    ensures rm.Some? ==> RightBn(MergeKids(e, i, rm).child) == RightBn(e.child)
    ensures RightClear(e) ==> RightClear(MergeKids(e, i, rm))
  {
    hide RightClear, RightBn, MergedNode, MergeParent;
    var kids, key := e.child.kids, e.child.pivots[i];
    MergedRightEdge(kids[i], kids[i + 1], key, rm);
    MergeParentShape(e.child, i, InPlaceOf(kids[i], MergedNode(kids[i].child, kids[i + 1].child, key, rm)));
    RightStep(e);
    RightStep(MergeKids(e, i, rm));
  }

  lemma MergedKind(a: Node, b: Node, key: Key, rm: Option<BlockNum>)
    ensures MergedNode(a, b, key, rm).Leaf? == a.Leaf?
  {
  }

  lemma RebalanceShape(e: Kid, i: nat, at: SplitLoc)
    requires RebalanceEnabled(e, i, at) && |e.child.kids[i].child.bases| > 0
    ensures Bns(RebalanceKids(e, i, at).child) == Bns(e.child) && RightSame(e, RebalanceKids(e, i, at))
  {
    hide SplitPivot, KidsBns, Bns, RightBn, RightClear, LeftLeaf, RightLeaf, MergeLeaves, CanSplit;
    var p, e' := e.child, RebalanceKids(e, i, at);
    var p' := e'.child;
    var ka, kb := p.kids[i], p.kids[i + 1];
    RebalanceLeaves(e, i, at);
    assert forall x :: 0 <= x < |p.kids| && x != i && x != i + 1 ==> p'.kids[x] == p.kids[x];
    LeafBns(ka.child);
    LeafBns(kb.child);
    LeafBns(p'.kids[i].child);
    LeafBns(p'.kids[i + 1].child);
    LeafClear(p'.kids[i + 1]);
    KidsBnsSame(p'.kids, p.kids);
    InnerBns(p);
    InnerBns(p');
    RightStep(e);
    RightStep(e');
  }

  lemma RebalanceLeaves(e: Kid, i: nat, at: SplitLoc)
    requires RebalanceEnabled(e, i, at) && |e.child.kids[i].child.bases| > 0
    ensures
      var p' := RebalanceKids(e, i, at).child;
      && p'.kids[i].child.Leaf? && p'.kids[i].child.bn == e.child.kids[i].child.bn
      && p'.kids[i + 1].child.Leaf? && p'.kids[i + 1].child.bn == e.child.kids[i + 1].child.bn
  {
  }

  // ------------------------------------------------------------- whole steps

  /** A blocknum handed out for a new node is not in use. */
  predicate Fresh(s: State, step: Step) {
    match step
    case SplitChild(_, _, _, bn) => bn !in Bns(s.top.child)
    case NewRoot(bn) => bn !in Bns(s.top.child)
    case _ => true
  }

  const SCORE_THRESHOLD: nat := 100

  /** seqinsert_score: counts injections into the rightmost leaf, and starts over
      with any other injection. */
  function NextScore(s: State, step: Step, score: nat): nat
    requires Enabled(s, step)
  {
    if !step.Inject? then score
    else if NewRightmost(s, step) == Some(EdgeAt(s.top, step.path).child.bn) then
      if score < SCORE_THRESHOLD then score + 1 else score
    else 0
  }

  ghost predicate RightOk(s: State, score: nat) {
    && Distinct(Bns(s.top.child))
    && (s.rightmost.Some? ==> s.top.child.Inner? && RightBn(s.top.child) == s.rightmost.value)
    && (score > 0 ==> s.rightmost.Some? && RightClear(s.top))
  }

  /** What each step does to the blocknums of the edge it works on. */
  lemma EdgeBns(s: State, step: Step)
    requires TreeOk(s) && Enabled(s, step) && !step.NewRoot?
    ensures
      var e, e' := EdgeAt(s.top, step.path), NewEdge(s, step);
      if step.SplitChild? then Bns(e'.child) == Bns(e.child) + multiset{step.bn} else Bns(e'.child) <= Bns(e.child)
  {
    hide Bns, EdgeOk, EdgeSettled, SplitKid, MergeKids, RebalanceKids, Apply, Detach, Put, QueryEdge, Evict,
         WriteLeaf;
    var e, h := EdgeAt(s.top, step.path), Height(s.top.child);
    AtOk(s.top, step.path, None, None, h);
    var lo, hi := LoAt(s.top, step.path, None), HiAt(s.top, step.path, None);
    match step
    case Inject(_, _, _) => PutShape(e.child, NextMessage(s, step));
    case DetachBuffer(_, i) => DetachShape(e, i);
    case ApplyBuffer(_) => ApplyShape(e);
    case SplitChild(_, i, at, bn) => SplitBns(e, i, at, bn, s.rightmost);
    case MergeChildren(_, i) =>
      PairKinds(e, i, lo, hi, h - |step.path|);
      MergeBns(e, i, s.rightmost);
    case RebalanceChildren(_, i, at) =>
      PairKinds(e, i, lo, hi, h - |step.path|);
      RebalanceShape(e, i, at);
    case QueryLeafNode(path, j) => SameLeaf(e, QueryEdge(s.top, path, j)) by { QueryEdgeLeaf(s.top, path, j); }
    case EvictBasement(_, j) => SameLeaf(e, Evict(e, j)) by { EvictLeaf(e, j); }
    case WriteLeafNode(_, limit) => SameLeaf(e, WriteLeaf(e, limit)) by { WriteLeafLeaf(e, limit); }
    case _ =>
  }

  /** Two edges to leaves with one blocknum. */
  ghost predicate LeafLike(e: Kid, e': Kid) {
    e.child.Leaf? && e'.child.Leaf? && e'.child.bn == e.child.bn && e'.buf == e.buf && Inflight(e') == Inflight(e)
  }

  lemma SameLeaf(e: Kid, e': Kid)
    requires LeafLike(e, e')
    ensures Bns(e'.child) == Bns(e.child) && RightSame(e, e')
  {
  }

  lemma QueryEdgeLeaf(top: Kid, path: Path, j: nat)
    requires ValidPath(top, path) && EdgeAt(top, path).child.Leaf?
    requires
      var n := EdgeAt(top, path).child;
      |n.bases| == |Used(n)| + 1 && j < |n.bases|
    ensures LeafLike(EdgeAt(top, path), QueryEdge(top, path, j))
  {
  }

  lemma EvictLeaf(e: Kid, j: nat)
    requires e.child.Leaf? && j < |e.child.bases|
    ensures LeafLike(e, Evict(e, j))
  {
  }

  lemma WriteLeafLeaf(e: Kid, limit: nat)
    requires e.child.Leaf?
    ensures LeafLike(e, WriteLeaf(e, limit))
  {
  }

  lemma PairKinds(e: Kid, i: nat, lo: Option<Key>, hi: Option<Key>, h: nat)
    requires EdgeOk(e, lo, hi, h) && e.child.Inner? && i + 1 < |e.child.kids|
    ensures
      var a, b := e.child.kids[i].child, e.child.kids[i + 1].child;
      a.Leaf? == b.Leaf? && (a.Leaf? ==> |a.bases| > 0) && (b.Inner? ==> |b.kids| > 0)
  {
    KidOk(e, i, lo, hi, h);
    KidOk(e, i + 1, lo, hi, h);
  }

  /** What each step but an injection does to the right edge below its edge, if
      the rightmost leaf is below that edge. */
  lemma EdgeRight(s: State, step: Step)
    requires TreeOk(s) && Enabled(s, step) && !step.NewRoot? && !step.Inject?
    requires s.rightmost.Some? ==> s.rightmost.value == RightBn(EdgeAt(s.top, step.path).child)
    ensures
      var e, e' := EdgeAt(s.top, step.path), NewEdge(s, step);
      && (s.rightmost.Some? ==> RightBn(e'.child) == RightBn(e.child))
      && (RightClear(e) ==> RightClear(e'))
      && e'.child.Inner? == e.child.Inner?
  {
    hide RightBn, RightClear, EdgeOk, EdgeSettled, Apply, Detach, QueryEdge, Evict, WriteLeaf;
    var e, h := EdgeAt(s.top, step.path), Height(s.top.child);
    AtOk(s.top, step.path, None, None, h);
    var lo, hi := LoAt(s.top, step.path, None), HiAt(s.top, step.path, None);
    match step
    case DetachBuffer(_, i) => DetachShape(e, i);
    case ApplyBuffer(_) => ApplyShape(e);
    case SplitChild(_, i, at, bn) => SplitRightEdge(e, i, at, bn, s.rightmost);
    case MergeChildren(_, i) =>
      PairKinds(e, i, lo, hi, h - |step.path|);
      MergeRightEdge(e, i, s.rightmost);
    case RebalanceChildren(_, i, at) =>
      PairKinds(e, i, lo, hi, h - |step.path|);
      RebalanceShape(e, i, at);
    case QueryLeafNode(path, j) => SameLeaf(e, QueryEdge(s.top, path, j)) by { QueryEdgeLeaf(s.top, path, j); }
    case EvictBasement(_, j) => SameLeaf(e, Evict(e, j)) by { EvictLeaf(e, j); }
    case WriteLeafNode(_, limit) => SameLeaf(e, WriteLeaf(e, limit)) by { WriteLeafLeaf(e, limit); }
    case LockTopDown(path) =>
      AtFree(s.top, path);
      Relocked(e, Held(s.maxMsn, true, []));
    case LockCleaner(_) => Relocked(e, Held(0, false, []));
    case Unlock(_) => Relocked(e, Free);
  }

  lemma Relocked(e: Kid, pin: Pin)
    requires |Inflight(e)| == 0 && (pin.Held? ==> |pin.inflight| == 0)
    ensures RightClear(e.(pin := pin)) == RightClear(e)
  {
  }

  // -------------------------------------------------------- the whole tree

  lemma {:induction false} KidBnsIn(n: Node, i: nat)
    requires n.Inner? && i < |n.kids|
    ensures Bns(n.kids[i].child) <= KidsBns(n.kids) && KidsBns(n.kids) <= Bns(n)
  {
    hide Bns;
    KidsBnsAt(n.kids, i);
    InnerBns(n);
  }

  lemma {:induction false} RightBnIn(n: Node)
    ensures RightBn(n) in Bns(n)
    decreases n
  {
    if n.Inner? && |n.kids| > 0 {
      RightBnIn(n.kids[|n.kids| - 1].child);
      KidBnsIn(n, |n.kids| - 1);
    }
  }

  lemma {:induction false} AtBnIn(top: Kid, path: Path)
    requires ValidPath(top, path)
    ensures EdgeAt(top, path).child.bn in Bns(top.child)
    decreases path
  {
    if |path| > 0 {
      AtBnIn(top.child.kids[path[0]], path[1..]);
      KidBnsIn(top.child, path[0]);
    }
  }

  lemma SubDistinct(a: multiset<BlockNum>, b: multiset<BlockNum>)
    requires a <= b && Distinct(b)
    ensures Distinct(a)
  {
  }

  /** Different children have different blocknums below them. */
  lemma KidsApart(n: Node, i: nat, j: nat, b: BlockNum)
    requires n.Inner? && Distinct(Bns(n)) && i < j < |n.kids|
    ensures b in Bns(n.kids[i].child) ==> b !in Bns(n.kids[j].child)
  {
    hide Bns, KidsBns;
    var kids := n.kids;
    KidsBnsAt(kids, j);
    KidsBnsAt(kids[..j], i);
    assert kids[..j][i] == kids[i];
    InnerBns(n);
    assert Bns(n)[b] >= KidsBns(kids)[b] >= KidsBns(kids[..j])[b] + Bns(kids[j].child)[b];
  }

  /** No nonleaf node carries the blocknum of the leaf below it. */
  lemma RootIsNotRight(n: Node)
    requires n.Inner? && |n.kids| > 0 && Distinct(Bns(n))
    ensures n.bn != RightBn(n)
  {
    hide Bns, KidsBns;
    var last := n.kids[|n.kids| - 1].child;
    RightBnIn(last);
    KidBnsIn(n, |n.kids| - 1);
    InnerBns(n);
    RightStep(Kid(0, [], Free, n));
    assert KidsBns(n.kids)[RightBn(n)] >= 1;
  }

  ghost predicate NoEmptyNode(n: Node) {
    n.Inner? ==> |n.kids| > 0 && forall i :: 0 <= i < |n.kids| ==> NoEmptyNode(n.kids[i].child)
  }

  lemma {:induction false} OkNoEmptyNode(n: Node, lo: Option<Key>, hi: Option<Key>)
    requires NodeOk(n, lo, hi)
    ensures NoEmptyNode(n)
    decreases n
  {
    if n.Inner? {
      forall i | 0 <= i < |n.kids| ensures NoEmptyNode(n.kids[i].child) {
        assert EdgeOk(n.kids[i], LowerOf(n.pivots, lo, i), UpperOf(n.pivots, hi, i), n.height - 1);
        OkNoEmptyNode(n.kids[i].child, LowerOf(n.pivots, lo, i), UpperOf(n.pivots, hi, i));
      }
    }
  }

  /** The rightmost blocknum leads to the rightmost leaf and nowhere else. */
  lemma {:induction false} OnlyRightLeaf(top: Kid, path: Path)
    requires ValidPath(top, path) && Distinct(Bns(top.child)) && NoEmptyNode(top.child)
    requires EdgeAt(top, path).child.bn == RightBn(top.child)
    ensures AllLast(top, path) && EdgeAt(top, path).child.Leaf?
    decreases path
  {
    hide Bns, RightBn;
    var n := top.child;
    if n.Inner? {
      RightStep(top);
      if |path| == 0 {
        RootIsNotRight(n);
      } else {
        var i, last := path[0], |n.kids| - 1;
        AtBnIn(n.kids[i], path[1..]);
        RightBnIn(n.kids[last].child);
        if i < last {
          KidsApart(n, i, last, RightBn(n));
          assert false;
        }
        KidBnsIn(n, last);
        SubDistinct(Bns(n.kids[last].child), Bns(n));
        OnlyRightLeaf(n.kids[i], path[1..]);
      }
    }
  }

  lemma {:induction false} EmptySpine(top: Kid, path: Path)
    requires ValidPath(top, path) && AllLast(top, path) && FreePath(top, path) && EmptyPath(top, path)
    requires EdgeAt(top, path).child.Leaf?
    ensures RightClear(top)
    decreases path
  {
    if |path| > 0 {
      EmptySpine(top.child.kids[path[0]], path[1..]);
    }
  }

  lemma StepDistinct(s: State, step: Step)
    requires TreeOk(s) && Enabled(s, step) && Fresh(s, step) && Distinct(Bns(s.top.child))
    ensures Distinct(Bns(Exec(s, step).top.child))
  {
    hide Bns, TreeOk, EnabledAt, NewEdge, NewRightmost, ReplaceAt, GrowRoot;
    if step.NewRoot? {
      GrowRootBns(s.top, step.bn);
    } else {
      var e, e' := EdgeAt(s.top, step.path), NewEdge(s, step);
      EdgeBns(s, step);
      ReplaceBns(s.top, step.path, e');
      AddedDistinct(Bns(Exec(s, step).top.child), Bns(e.child), Bns(s.top.child), Bns(e'.child),
                    if step.SplitChild? then multiset{step.bn} else multiset{});
    }
  }

  lemma GrowRootBns(top: Kid, bn: BlockNum)
    ensures Bns(GrowRoot(top, bn).child) == Bns(top.child) + multiset{bn}
  {
    var old', new' := WithBn(top.child, bn), GrowRoot(top, bn).child;
    KidsBnsOne(InPlaceOf(top.(bn := bn), old'));
    assert Bns(old') + multiset{top.child.bn} == Bns(top.child) + multiset{bn};
  }

  lemma AddedDistinct(x: multiset<BlockNum>, a: multiset<BlockNum>, y: multiset<BlockNum>, b: multiset<BlockNum>,
                      extra: multiset<BlockNum>)
    requires x + a == y + b && b <= a + extra && Distinct(y)
    requires forall v :: v in extra ==> extra[v] == 1 && v !in y
    ensures Distinct(x)
  {
    forall v ensures x[v] <= 1 {
      assert (x + a)[v] == (y + b)[v];
    }
  }

  lemma InjectRight(s: State, step: Step, score: nat)
    requires TreeOk(s) && Enabled(s, step) && step.Inject? && RightOk(s, score)
    ensures RightOk(Exec(s, step), NextScore(s, step, score))
  {
    hide Bns, RightBn, RightClear, Put, EdgeOk, EdgeSettled;
    var e := EdgeAt(s.top, step.path);
    var e' := e.(child := Put(e.child, NextMessage(s, step)));
    StepDistinct(s, step);
    PutShape(e.child, NextMessage(s, step));
    RightReplace(s.top, step.path, e');
    TopNoEmptyNode(s);
    if AllLast(s.top, step.path) && e.child.Leaf? {
      LeafBns(e.child);
    }
    if NewRightmost(s, step) == Some(e.child.bn) {
      if s.rightmost.Some? {
        OnlyRightLeaf(s.top, step.path);
      }
      LeafPutClear(e, NextMessage(s, step));
      EmptySpine(s.top, step.path);
      AtEmpty(s.top, step.path);
      LeafClear(e');
    }
    InnerStays(s.top, step.path, e');
  }

  lemma {:induction false} AtEmpty(top: Kid, path: Path)
    requires ValidPath(top, path) && EmptyPath(top, path) && FreePath(top, path)
    ensures |EdgeAt(top, path).buf| == 0 && EdgeAt(top, path).pin.Free?
    decreases path
  {
    if |path| > 0 {
      AtEmpty(top.child.kids[path[0]], path[1..]);
    }
  }

  lemma LeafPutClear(e: Kid, m: Message)
    requires e.child.Leaf?
    ensures Put(e.child, m).Leaf?
  {
  }

  lemma InnerStays(top: Kid, path: Path, e: Kid)
    requires ValidPath(top, path) && e.child.Inner? == EdgeAt(top, path).child.Inner?
    ensures ReplaceAt(top, path, e).child.Inner? == top.child.Inner?
  {
  }

  lemma TopNoEmptyNode(s: State)
    requires TreeOk(s)
    ensures NoEmptyNode(s.top.child)
  {
    OkNoEmptyNode(s.top.child, None, None);
  }

  /** One step keeps the rightmost blocknum right. */
  lemma RightStepOk(s: State, step: Step, score: nat)
    requires TreeOk(s) && Enabled(s, step) && Fresh(s, step) && RightOk(s, score)
    ensures RightOk(Exec(s, step), NextScore(s, step, score))
  {
    hide Bns, RightBn, RightClear, TreeOk, EnabledAt, NewEdge, NewRightmost, ReplaceAt, GrowRoot, EdgeAt;
    StepDistinct(s, step);
    if step.Inject? {
      InjectRight(s, step, score);
    } else if step.NewRoot? {
      TopNoEmptyNode(s);
      GrowRootRight(s.top, step.bn);
    } else {
      var e' := NewEdge(s, step);
      RightReplace(s.top, step.path, e');
      if AllLast(s.top, step.path) {
        EdgeRight(s, step);
        InnerStays(s.top, step.path, e');
      } else {
        DeepStays(s.top, step.path, e');
      }
    }
  }

  lemma DeepStays(top: Kid, path: Path, e: Kid)
    requires ValidPath(top, path) && |path| > 0
    ensures ReplaceAt(top, path, e).child.Inner? == top.child.Inner?
  {
  }

  lemma GrowRootRight(top: Kid, bn: BlockNum)
    requires top.pin.Held? && |top.pin.inflight| == 0
    ensures GrowRoot(top, bn).child.Inner?
    ensures top.child.Inner? && |top.child.kids| > 0 ==> RightBn(GrowRoot(top, bn).child) == RightBn(top.child)
    ensures RightClear(top) ==> RightClear(GrowRoot(top, bn))
  {
    var e := GrowRoot(top, bn);
    RightStep(e);
    if top.child.Inner? && |top.child.kids| > 0 {
      RightStep(top);
      RightStep(e.child.kids[0]);
    }
  }

  // -------------------------------------------------------------------- runs

  /** Every blocknum handed out during the run is unused. */
  predicate FreshRun(s: State, steps: seq<Step>)
    requires CanRun(s, steps)
    decreases steps
  {
    |steps| == 0 || (Fresh(s, steps[0]) && FreshRun(Exec(s, steps[0]), steps[1..]))
  }

  function RunScore(s: State, steps: seq<Step>, score: nat): nat
    requires CanRun(s, steps)
    decreases steps
  {
    if |steps| == 0 then score
    else RunScore(Exec(s, steps[0]), steps[1..], NextScore(s, steps[0], score))
  }

  lemma {:induction false} RightRunOk(s: State, steps: seq<Step>, score: nat)
    requires TreeOk(s) && Faithful(s) && CanRun(s, steps) && FreshRun(s, steps) && RightOk(s, score)
    ensures RightOk(Run(s, steps), RunScore(s, steps, score))
    decreases steps
  {
    hide TreeOk, Faithful, RightOk, Enabled, Exec, NextScore, Fresh;
    if |steps| > 0 {
      StepSafe(s, steps[0]);
      RightStepOk(s, steps[0], score);
      RightRunOk(Exec(s, steps[0]), steps[1..], NextScore(s, steps[0], score));
    }
  }

  /** In every reachable state blocknums are distinct; the rightmost blocknum, once
      set, names the rightmost leaf and not the root; and a positive score means
      that nothing is pending on the way to that leaf. */
  lemma RightmostNamesRightLeaf(bn: BlockNum, steps: seq<Step>)
    requires CanRun(Initial(bn), steps) && FreshRun(Initial(bn), steps)
    ensures
      var s := Run(Initial(bn), steps);
      && Distinct(Bns(s.top.child))
      && (s.rightmost.Some? ==> s.rightmost.value == RightBn(s.top.child) != s.top.child.bn)
      && (RunScore(Initial(bn), steps, 0) > 0 ==> s.rightmost.Some? && RightClear(s.top))
  {
    hide TreeOk, CanRun, FreshRun, Run, RunScore, RightClear;
    InitialOk(bn);
    InitialRight(bn);
    RunOk(Initial(bn), steps);
    RightRunOk(Initial(bn), steps, 0);
    var s := Run(Initial(bn), steps);
    if s.rightmost.Some? {
      TopNoEmptyNode(s);
      RootIsNotRight(s.top.child);
    }
  }

  lemma InitialRight(bn: BlockNum)
    ensures RightOk(Initial(bn), 0)
  {
  }

  /** Reaching a leaf with loc == RIGHT_EXTREME again meets the same blocknum: the
      check in ft_verify_or_set_rightmost_blocknum never fails. */
  lemma RightmostConfirmed(s: State, score: nat, path: Path)
    requires TreeOk(s) && RightOk(s, score) && s.rightmost.Some? && ValidPath(s.top, path)
    requires AllLast(s.top, path) && EdgeAt(s.top, path).child.Leaf?
    ensures EdgeAt(s.top, path).child.bn == s.rightmost.value
  {
    RightReplace(s.top, path, EdgeAt(s.top, path));
  }
}
