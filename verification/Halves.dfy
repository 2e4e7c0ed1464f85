/** Splitting a node of either kind in two, and merging two nonleaf nodes. */
module Halves {
  import opened Keys
  import opened Messages
  import opened Entries
  import opened Nodes
  import opened PutMsg
  import opened Leaves

  function WithBn(n: Node, bn: BlockNum): Node {
    match n
    case Leaf(_, maxMsn, dirty, pivots, bases) => Leaf(bn, maxMsn, dirty, pivots, bases)
    case Inner(_, height, maxMsn, pivots, kids) => Inner(bn, height, maxMsn, pivots, kids)
  }

  /** A nonleaf node gives its first half of children to the left node; the
      pivot between the halves moves up. */
  function Half(n: Node): nat
    requires n.Inner?
  {
    |n.kids| / 2
  }

  predicate CanSplit(n: Node, at: SplitLoc) {
    match n
    case Leaf(_, _, _, _, _) => CutOk(n, at)
    case Inner(_, _, _, pivots, kids) => 2 <= |kids| && |kids| == |pivots| + 1
  }

  function SplitLeft(n: Node, at: SplitLoc): Node
    requires CanSplit(n, at)
  {
    match n
    case Leaf(_, _, _, _, _) => LeftLeaf(n, at)
    case Inner(bn, height, maxMsn, pivots, kids) =>
      Inner(bn, height, maxMsn, pivots[..Half(n) - 1], kids[..Half(n)])
  }

  function SplitRight(n: Node, at: SplitLoc, bn: BlockNum): Node
    requires CanSplit(n, at)
  {
    match n
    case Leaf(_, _, _, _, _) => RightLeaf(n, at, bn)
    case Inner(_, height, maxMsn, pivots, kids) =>
      Inner(bn, height, maxMsn, pivots[Half(n)..], kids[Half(n)..])
  }

  function SplitPivot(n: Node, at: SplitLoc): Key
    requires CanSplit(n, at)
  {
    match n
    case Leaf(_, _, _, _, _) => SplitKey(n, at)
    case Inner(_, _, _, pivots, _) => pivots[Half(n) - 1]
  }

  /** The split that leaves an empty leaf on the right. */
  predicate Behind(n: Node, at: SplitLoc)
    requires CanSplit(n, at)
  {
    n.Leaf? && CutBehind(n, at)
  }

  lemma InnerLeftOk(n: Node, at: SplitLoc, lo: Option<Key>, hi: Option<Key>)
    requires n.Inner? && NodeOk(n, lo, hi) && CanSplit(n, at)
    ensures NodeOk(SplitLeft(n, at), lo, Some(SplitPivot(n, at)))
  {
  }

  lemma InnerRightOk(n: Node, at: SplitLoc, bn: BlockNum, lo: Option<Key>, hi: Option<Key>)
    requires n.Inner? && NodeOk(n, lo, hi) && CanSplit(n, at)
    ensures NodeOk(SplitRight(n, at, bn), Some(SplitPivot(n, at)), hi)
  {
  }

  /** Both halves are well-formed, on both sides of the pivot. */
  lemma SplitOk(n: Node, at: SplitLoc, bn: BlockNum, lo: Option<Key>, hi: Option<Key>)
    requires NodeOk(n, lo, hi) && CanSplit(n, at)
    ensures NodeOk(SplitLeft(n, at), lo, Some(SplitPivot(n, at)))
    ensures NodeOk(SplitRight(n, at, bn), Some(SplitPivot(n, at)), hi)
    ensures Behind(n, at) || Inside(lo, hi, SplitPivot(n, at))
    ensures InRange(lo, hi, SplitPivot(n, at))
  {
    if n.Leaf? {
      LeftLeafOk(n, at, lo, hi);
      RightLeafOk(n, at, lo, hi, bn);
      SplitKeyOk(n, at, lo, hi);
      if !Behind(n, at) {
        SplitKeyInside(n, at, lo, hi);
      }
    } else {
      InnerLeftOk(n, at, lo, hi);
      InnerRightOk(n, at, bn, lo, hi);
      assert Inside(lo, hi, n.pivots[Half(n) - 1]);
    }
  }

  lemma SplitUniform(n: Node, at: SplitLoc, bn: BlockNum, c: nat)
    requires n.Leaf? && CanSplit(n, at) && Uniform(n, c)
    ensures Uniform(SplitLeft(n, at), c) && Uniform(SplitRight(n, at, bn), c)
  {
    SplitMsns(n, at);
    var a, b := SplitLeft(n, at), SplitRight(n, at, bn);
    if forall i :: 0 <= i < |n.bases| ==> n.bases[i].msn < c {
      assert forall i :: 0 <= i < |a.bases| ==> a.bases[i].msn < c;
      assert !Behind(n, at) ==> forall i :: 0 <= i < |b.bases| ==> b.bases[i].msn < c;
    } else {
      assert forall i :: 0 <= i < |a.bases| ==> c <= a.bases[i].msn;
      assert !Behind(n, at) ==> forall i :: 0 <= i < |b.bases| ==> c <= b.bases[i].msn;
    }
  }

  /** Both halves suit every message above that suited the node. */
  lemma SplitAdmits(n: Node, at: SplitLoc, bn: BlockNum, c: nat)
    requires CanSplit(n, at) && Admits(n, c) && (n.Leaf? ==> Uniform(n, c))
    ensures Admits(SplitLeft(n, at), c) && Admits(SplitRight(n, at, bn), c)
    ensures n.Leaf? ==> Uniform(SplitLeft(n, at), c) && Uniform(SplitRight(n, at, bn), c)
  {
    if n.Leaf? {
      SplitUniform(n, at, bn, c);
    } else {
      var a, b := SplitLeft(n, at), SplitRight(n, at, bn);
      assert forall i :: 0 <= i < |b.kids| ==> b.kids[i] == n.kids[Half(n) + i];
    }
  }

  lemma InnerProbe(n: Node, k: Key, i: nat)
    requires n.Inner? && Route(n.pivots, k) == i < |n.kids|
    ensures Probe(n, k) == ProbeEdge(n.kids[i], k)
  {
  }

  lemma InnerSplitProbe(n: Node, at: SplitLoc, bn: BlockNum, lo: Option<Key>, hi: Option<Key>, k: Key)
    requires n.Inner? && NodeOk(n, lo, hi) && CanSplit(n, at) && InRange(lo, hi, k)
    ensures Probe(HalfFor(n, at, bn, k), k) == Probe(n, k)
  {
    hide NodeOk, Probe, ProbeEdge;
    InnerShape(n, lo, hi);
    RouteCut(n.pivots, Half(n), k);
    var i := Route(n.pivots, k);
    InnerProbe(n, k, i);
    if k <= SplitPivot(n, at) {
      InnerProbe(SplitLeft(n, at), k, i);
    } else {
      InnerProbe(SplitRight(n, at, bn), k, i - Half(n));
    }
  }

  /** The half a key belongs to. */
  function HalfFor(n: Node, at: SplitLoc, bn: BlockNum, k: Key): Node
    requires CanSplit(n, at)
  {
    if k <= SplitPivot(n, at) then SplitLeft(n, at) else SplitRight(n, at, bn)
  }

  lemma LeafProbeMsn(n: Node, lo: Option<Key>, hi: Option<Key>, k: Key)
    requires n.Leaf? && NodeOk(n, lo, hi)
    ensures exists i :: 0 <= i < |n.bases| && Probe(n, k).msn == n.bases[i].msn
    ensures Probe(n, k).pend == [] && Probe(n, k).dirty == n.dirty
  {
    assert Probe(n, k).msn == n.bases[Route(Used(n), k)].msn;
  }

  /** Every basement of either half is newer than `c` exactly if all the
      basements of the leaf were. */
  lemma SplitThreshold(n: Node, at: SplitLoc, bn: BlockNum, c: nat)
    requires n.Leaf? && CanSplit(n, at) && Uniform(n, c)
    requires Behind(n, at) ==> forall i :: 0 <= i < |n.bases| ==> n.bases[i].msn < c
    ensures forall i, j :: 0 <= i < |n.bases| && 0 <= j < |SplitLeft(n, at).bases| ==>
              (n.bases[i].msn < c <==> SplitLeft(n, at).bases[j].msn < c)
    ensures forall i, j :: 0 <= i < |n.bases| && 0 <= j < |SplitRight(n, at, bn).bases| ==>
              (n.bases[i].msn < c <==> SplitRight(n, at, bn).bases[j].msn < c)
  {
  }

  /** A leaf key keeps its value; its basement's MSN may be another one, but
      every message above counts as pending exactly if it did before. */
  lemma LeafSplitProbe(n: Node, at: SplitLoc, bn: BlockNum, lo: Option<Key>, hi: Option<Key>, k: Key, c: nat)
    requires n.Leaf? && NodeOk(n, lo, hi) && CanSplit(n, at) && InRange(lo, hi, k)
    requires Uniform(n, c) && (Behind(n, at) ==> forall i :: 0 <= i < |n.bases| ==> n.bases[i].msn < c)
    ensures
      var p, p' := Probe(n, k), Probe(HalfFor(n, at, bn, k), k);
      && p'.pend == p.pend == [] && p'.val == p.val && p'.dirty
      && (p.msn < c <==> p'.msn < c)
  {
    hide Probe, ProbeEdge, NodeOk;
    SplitKeepsValues(n, at, lo, hi, bn, k);
    SplitOk(n, at, bn, lo, hi);
    SplitThreshold(n, at, bn, c);
    var half := HalfFor(n, at, bn, k);
    LeafProbeMsn(n, lo, hi, k);
    if k <= SplitPivot(n, at) {
      LeafProbeMsn(half, lo, Some(SplitPivot(n, at)), k);
    } else {
      LeafProbeMsn(half, Some(SplitPivot(n, at)), hi, k);
    }
  }

  // ------------------------------------------------------ merging nonleaves

  function MergeInner(a: Node, b: Node, key: Key): Node
    requires a.Inner? && b.Inner?
  {
    Inner(a.bn, a.height, Max(a.maxMsn, b.maxMsn), a.pivots + [key] + b.pivots, a.kids + b.kids)
  }

  lemma AtMostWider(e: Kid, a: nat, b: nat)
    requires a <= b
    ensures BufferAtMost(e, a) ==> BufferAtMost(e, b)
  {
  }

  lemma InnerShape(n: Node, lo: Option<Key>, hi: Option<Key>)
    requires n.Inner? && NodeOk(n, lo, hi)
    ensures |n.kids| == |n.pivots| + 1 && PivotsOk(n.pivots, lo, hi)
  {
  }

  lemma JoinPivots(ps: seq<Key>, key: Key, qs: seq<Key>, lo: Option<Key>, hi: Option<Key>)
    requires Inside(lo, hi, key) && PivotsOk(ps, lo, Some(key)) && PivotsOk(qs, Some(key), hi)
    ensures PivotsOk(ps + [key] + qs, lo, hi)
  {
  }

  lemma MergeInnerOk(a: Node, b: Node, key: Key, lo: Option<Key>, hi: Option<Key>)
    requires a.Inner? && b.Inner? && a.height == b.height && Inside(lo, hi, key)
    requires NodeOk(a, lo, Some(key)) && NodeOk(b, Some(key), hi)
    ensures NodeOk(MergeInner(a, b, key), lo, hi)
  {
    hide EdgeOk, BufferAtMost;
    var m, d := MergeInner(a, b, key), |a.kids|;
    JoinPivots(a.pivots, key, b.pivots, lo, hi);
    forall i | 0 <= i < |m.kids|
      ensures EdgeOk(m.kids[i], LowerOf(m.pivots, lo, i), UpperOf(m.pivots, hi, i), m.height - 1)
      ensures BufferAtMost(m.kids[i], m.maxMsn)
    {
      AtMostWider(m.kids[i], if i < d then a.maxMsn else b.maxMsn, m.maxMsn);
      if i < d {
        assert EdgeOk(a.kids[i], LowerOf(a.pivots, lo, i), UpperOf(a.pivots, Some(key), i), a.height - 1);
      } else {
        assert EdgeOk(b.kids[i - d], LowerOf(b.pivots, Some(key), i - d), UpperOf(b.pivots, hi, i - d), b.height - 1);
      }
    }
  }

  lemma MergeInnerProbe(a: Node, b: Node, key: Key, lo: Option<Key>, hi: Option<Key>, k: Key)
    requires a.Inner? && b.Inner? && a.height == b.height && Inside(lo, hi, key) && InRange(lo, hi, k)
    requires NodeOk(a, lo, Some(key)) && NodeOk(b, Some(key), hi)
    ensures Probe(MergeInner(a, b, key), k) == if k <= key then Probe(a, k) else Probe(b, k)
  {
    hide NodeOk, ProbeEdge, Route;
    InnerShape(a, lo, Some(key));
    InnerShape(b, Some(key), hi);
    JoinPivots(a.pivots, key, b.pivots, lo, hi);
    JoinRoute(a.pivots, key, b.pivots, k);
  }

}
