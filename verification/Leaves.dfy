/** Splitting, merging and repacking leaf nodes. */
module Leaves {
  import opened Keys
  import opened Messages
  import opened Entries
  import opened Nodes

  // ------------------------------------------------ a leaf as one sequence

  function Flat(bs: seq<Basement>): seq<Entry> {
    if |bs| == 0 then [] else bs[0].entries + Flat(bs[1..])
  }

  /** Basements with pivots `ps` between them, covering (lo, hi]. */
  ghost predicate BasesOk(bs: seq<Basement>, ps: seq<Key>, lo: Option<Key>, hi: Option<Key>) {
    && |bs| == |ps| + 1 && PivotsOk(ps, lo, hi)
    && forall i :: 0 <= i < |bs| ==>
         Sorted(bs[i].entries) && Within(bs[i].entries, LowerOf(ps, lo, i), UpperOf(ps, hi, i))
  }

  lemma LeafBasesOk(n: Node, lo: Option<Key>, hi: Option<Key>)
    requires n.Leaf? && NodeOk(n, lo, hi)
    ensures BasesOk(n.bases, Used(n), lo, hi)
  {
  }

  lemma LookupConcat(a: seq<Entry>, b: seq<Entry>, p: Key, k: Key)
    requires Sorted(a) && Sorted(b)
    requires forall i :: 0 <= i < |a| ==> a[i].key <= p
    requires forall i :: 0 <= i < |b| ==> p < b[i].key
    ensures Sorted(a + b)
    ensures Lookup(a + b, k) == if k <= p then Lookup(a, k) else Lookup(b, k)
  {
    var ab := a + b;
    assert forall i :: 0 <= i < |a| ==> ab[i] == a[i];
    assert forall i :: 0 <= i < |b| ==> ab[|a| + i] == b[i];
    assert Sorted(ab);
    if k <= p {
      LookupSame(ab, a, k);
    } else {
      LookupSame(ab, b, k);
    }
  }

  lemma TailOk(bs: seq<Basement>, ps: seq<Key>, lo: Option<Key>, hi: Option<Key>)
    requires BasesOk(bs, ps, lo, hi) && |ps| > 0
    ensures BasesOk(bs[1..], ps[1..], Some(ps[0]), hi)
  {
  }

  /** The entry of a key is found in its basement exactly when the concatenation
      of all basements, which is sorted, has it. */
  lemma {:induction false} FlatLookup(bs: seq<Basement>, ps: seq<Key>, lo: Option<Key>, hi: Option<Key>, k: Key)
    requires BasesOk(bs, ps, lo, hi)
    ensures Sorted(Flat(bs)) && Within(Flat(bs), lo, hi)
    ensures Lookup(Flat(bs), k) == Lookup(bs[Route(ps, k)].entries, k)
  {
    hide Lookup;
    if |ps| == 0 {
      assert Flat(bs[1..]) == [];
      assert Flat(bs) == bs[0].entries;
    } else {
      TailOk(bs, ps, lo, hi);
      FlatLookup(bs[1..], ps[1..], Some(ps[0]), hi, k);
      LookupConcat(bs[0].entries, Flat(bs[1..]), ps[0], k);
      FlatWithin(bs[0].entries, Flat(bs[1..]), ps[0], lo, hi);
    }
  }

  lemma FlatWithin(a: seq<Entry>, b: seq<Entry>, p: Key, lo: Option<Key>, hi: Option<Key>)
    requires Within(a, lo, Some(p)) && Within(b, Some(p), hi) && Inside(lo, hi, p)
    ensures Within(a + b, lo, hi)
  {
  }

  lemma LeafFlat(n: Node, lo: Option<Key>, hi: Option<Key>, k: Key)
    requires n.Leaf? && NodeOk(n, lo, hi)
    ensures Sorted(Flat(n.bases)) && Within(Flat(n.bases), lo, hi)
    ensures Probe(n, k).val == Lookup(Flat(n.bases), k)
  {
    LeafBasesOk(n, lo, hi);
    FlatLookup(n.bases, Used(n), lo, hi, k);
  }

  lemma {:induction false} FlatConcat(a: seq<Basement>, b: seq<Basement>)
    ensures Flat(a + b) == Flat(a) + Flat(b)
  {
    if |a| == 0 {
      assert a + b == b;
    } else {
      assert (a + b)[1..] == a[1..] + b;
      FlatConcat(a[1..], b);
    }
  }

  lemma FlatOne(b: Basement)
    ensures Flat([b]) == b.entries
  {
  }

  // ------------------------------------------------------------- the split

  /** Where a leaf is cut: `bns` basements stay on the left, the last of them
      keeping its first `les` entries. */
  datatype SplitLoc = SplitLoc(bns: nat, les: nat)

  /** The cuts for which a split makes sense. */
  predicate CutOk(n: Node, at: SplitLoc)
    requires n.Leaf?
  {
    && 0 < at.bns <= |n.bases|
    && at.les <= |n.bases[at.bns - 1].entries|
    && (at.bns == |n.bases| ==> at.les > 0)
  }

  predicate OnBoundary(n: Node, at: SplitLoc)
    requires n.Leaf? && 0 < at.bns <= |n.bases|
  {
    at.les == 0 || at.les == |n.bases[at.bns - 1].entries|
  }

  const EMPTY_BASEMENT := Basement([], 0, [])

  function LeftBases(n: Node, at: SplitLoc): seq<Basement>
    requires n.Leaf? && 0 < at.bns <= |n.bases| && at.les <= |n.bases[at.bns - 1].entries|
  {
    if OnBoundary(n, at) then n.bases[..at.bns]
    else
      var b := n.bases[at.bns - 1];
      n.bases[..at.bns - 1] + [b.(entries := b.entries[..at.les])]
  }

  function RightBases(n: Node, at: SplitLoc): seq<Basement>
    requires n.Leaf? && 0 < at.bns <= |n.bases| && at.les <= |n.bases[at.bns - 1].entries|
  {
    if OnBoundary(n, at) then
      (if at.bns == |n.bases| then [EMPTY_BASEMENT] else n.bases[at.bns..])
    else
      var b := n.bases[at.bns - 1];
      [b.(entries := b.entries[at.les..])] + n.bases[at.bns..]
  }

  function SplitIndex(n: Node, at: SplitLoc): nat
    requires n.Leaf? && 0 < at.bns <= |n.bases|
  {
    if OnBoundary(n, at) then at.bns else at.bns - 1
  }

  function LeftLeaf(n: Node, at: SplitLoc): Node
    requires n.Leaf? && 0 < at.bns <= |n.bases| && at.les <= |n.bases[at.bns - 1].entries|
  {
    var i := SplitIndex(n, at);
    n.(dirty := true, bases := LeftBases(n, at),
       pivots := if i < |n.pivots| then n.pivots[..i] else n.pivots)
  }

  function RightLeaf(n: Node, at: SplitLoc, bn: BlockNum): Node
    requires n.Leaf? && 0 < at.bns <= |n.bases| && at.les <= |n.bases[at.bns - 1].entries|
  {
    var i := SplitIndex(n, at);
    Leaf(bn, n.maxMsn, true, if i < |n.pivots| then n.pivots[i..] else [], RightBases(n, at))
  }

  /** The pivot between the two halves. */
  function SplitKey(n: Node, at: SplitLoc): Key
    requires n.Leaf? && 0 < at.bns <= |n.bases| && at.les <= |n.bases[at.bns - 1].entries|
  {
    if OnBoundary(n, at) && at.bns < |n.bases| && at.bns <= |n.pivots| then n.pivots[at.bns - 1]
    else
      var b := LeftBases(n, at)[at.bns - 1];
      if |b.entries| == 0 then 0.0 else b.entries[|b.entries| - 1].key
  }

  lemma LeftUsed(n: Node, at: SplitLoc, lo: Option<Key>, hi: Option<Key>)
    requires n.Leaf? && NodeOk(n, lo, hi) && CutOk(n, at)
    ensures |LeftLeaf(n, at).bases| == at.bns
    ensures at.bns - 1 <= |LeftLeaf(n, at).pivots| <= at.bns
    ensures Used(LeftLeaf(n, at)) == Used(n)[..at.bns - 1]
  {
  }

  lemma RightUsed(n: Node, at: SplitLoc, lo: Option<Key>, hi: Option<Key>, bn: BlockNum)
    requires n.Leaf? && NodeOk(n, lo, hi) && CutOk(n, at)
    ensures |RightLeaf(n, at, bn).bases| > 0
    ensures |RightLeaf(n, at, bn).bases| - 1 <= |RightLeaf(n, at, bn).pivots| <= |RightLeaf(n, at, bn).bases|
    ensures Used(RightLeaf(n, at, bn))
         == if CutBehind(n, at) then [] else Used(n)[SplitIndex(n, at)..]
  {
    var r := RightLeaf(n, at, bn);
    if !CutBehind(n, at) {
      assert |r.bases| == |n.bases| - SplitIndex(n, at);
      assert Used(n) == n.pivots[..|n.bases| - 1];
    }
  }

  /** The cut behind the very last entry, that leaves the right half empty. */
  predicate CutBehind(n: Node, at: SplitLoc)
    requires n.Leaf? && 0 < at.bns <= |n.bases|
  {
    at.bns == |n.bases| && OnBoundary(n, at)
  }

  lemma SplitKeyInside(n: Node, at: SplitLoc, lo: Option<Key>, hi: Option<Key>)
    requires n.Leaf? && NodeOk(n, lo, hi) && CutOk(n, at) && !CutBehind(n, at)
    ensures Inside(LowerOf(Used(n), lo, at.bns - 1), hi, SplitKey(n, at))
    ensures Inside(lo, hi, SplitKey(n, at))
  {
    SplitKeyOk(n, at, lo, hi);
    if OnBoundary(n, at) {
      assert Inside(lo, hi, Used(n)[at.bns - 1]);
    } else {
      LeafBasesOk(n, lo, hi);
      var es := n.bases[at.bns - 1].entries;
      assert es[at.les - 1].key < es[at.les].key;
      assert InRange(LowerOf(Used(n), lo, at.bns - 1), UpperOf(Used(n), hi, at.bns - 1), es[at.les].key);
      ChildRange(Used(n), lo, hi, es[at.les].key, at.bns - 1);
    }
  }

  /** The split key separates: it is a key of the leaf's range, not below any
      key on the left, and below every key on the right. */
  lemma SplitKeyOk(n: Node, at: SplitLoc, lo: Option<Key>, hi: Option<Key>)
    requires n.Leaf? && NodeOk(n, lo, hi) && CutOk(n, at)
    ensures InRange(LowerOf(Used(n), lo, at.bns - 1), UpperOf(Used(n), hi, at.bns - 1), SplitKey(n, at))
    ensures InRange(lo, hi, SplitKey(n, at))
    ensures Within(LeftBases(n, at)[at.bns - 1].entries, LowerOf(Used(n), lo, at.bns - 1), Some(SplitKey(n, at)))
    ensures OnBoundary(n, at) && at.bns < |n.bases| ==> SplitKey(n, at) == Used(n)[at.bns - 1]
    ensures !OnBoundary(n, at) ==>
              Within(RightBases(n, at)[0].entries, Some(SplitKey(n, at)), UpperOf(Used(n), hi, at.bns - 1))
  {
    LeafBasesOk(n, lo, hi);
    var b := n.bases[at.bns - 1];
    var key := SplitKey(n, at);
    assert Within(b.entries, LowerOf(Used(n), lo, at.bns - 1), UpperOf(Used(n), hi, at.bns - 1));
    if OnBoundary(n, at) && at.bns < |n.bases| {
      assert key == Used(n)[at.bns - 1];
    } else {
      assert key == b.entries[at.les - 1].key;
    }
    ChildRange(Used(n), lo, hi, key, at.bns - 1);
  }

  lemma LeftPivotsOk(n: Node, at: SplitLoc, lo: Option<Key>, hi: Option<Key>)
    requires n.Leaf? && NodeOk(n, lo, hi) && CutOk(n, at)
    ensures PivotsOk(Used(n)[..at.bns - 1], lo, Some(SplitKey(n, at)))
  {
  }

  lemma LeftBaseOk(n: Node, at: SplitLoc, lo: Option<Key>, hi: Option<Key>, i: nat)
    requires n.Leaf? && NodeOk(n, lo, hi) && CutOk(n, at) && i < at.bns
    ensures |LeftBases(n, at)| == at.bns
    ensures
      var ps := Used(n)[..at.bns - 1];
      && Sorted(LeftBases(n, at)[i].entries)
      && Within(LeftBases(n, at)[i].entries, LowerOf(ps, lo, i), UpperOf(ps, Some(SplitKey(n, at)), i))
  {
    LeafBasesOk(n, lo, hi);
    SplitKeyOk(n, at, lo, hi);
    var ps := Used(n)[..at.bns - 1];
    assert LowerOf(ps, lo, i) == LowerOf(Used(n), lo, i);
    if i < at.bns - 1 {
      assert LeftBases(n, at)[i] == n.bases[i];
      assert UpperOf(ps, Some(SplitKey(n, at)), i) == UpperOf(Used(n), hi, i);
    }
  }

  lemma LeftLeafOk(n: Node, at: SplitLoc, lo: Option<Key>, hi: Option<Key>)
    requires n.Leaf? && NodeOk(n, lo, hi) && CutOk(n, at)
    ensures NodeOk(LeftLeaf(n, at), lo, Some(SplitKey(n, at)))
  {
    LeftUsed(n, at, lo, hi);
    LeftPivotsOk(n, at, lo, hi);
    var a := LeftLeaf(n, at);
    forall i | 0 <= i < at.bns
      ensures BasementOk(a, a.bases[i], LowerOf(Used(a), lo, i), UpperOf(Used(a), Some(SplitKey(n, at)), i))
    {
      LeftBaseOk(n, at, lo, hi, i);
    }
  }

  lemma RightPivotsOk(n: Node, at: SplitLoc, lo: Option<Key>, hi: Option<Key>)
    requires n.Leaf? && NodeOk(n, lo, hi) && CutOk(n, at)
    requires !CutBehind(n, at)
    ensures PivotsOk(Used(n)[SplitIndex(n, at)..], Some(SplitKey(n, at)), hi)
  {
    SplitKeyOk(n, at, lo, hi);
    var d, ps := SplitIndex(n, at), Used(n)[SplitIndex(n, at)..];
    assert PivotsOk(Used(n), lo, hi);
    if !OnBoundary(n, at) {
      assert RightBases(n, at)[0].entries[0] == n.bases[at.bns - 1].entries[at.les];
    }
    forall i | 0 <= i < |ps| ensures Inside(Some(SplitKey(n, at)), hi, ps[i]) {
      assert ps[i] == Used(n)[d + i] && Inside(lo, hi, Used(n)[d + i]);
      assert Used(n)[at.bns - 1] <= Used(n)[d + i];
    }
  }

  lemma RightBaseOk(n: Node, at: SplitLoc, lo: Option<Key>, hi: Option<Key>, i: nat)
    requires n.Leaf? && NodeOk(n, lo, hi) && CutOk(n, at)
    requires !CutBehind(n, at)
    requires i < |RightBases(n, at)|
    ensures i <= |Used(n)[SplitIndex(n, at)..]|
    ensures
      var ps := Used(n)[SplitIndex(n, at)..];
      && Sorted(RightBases(n, at)[i].entries)
      && Within(RightBases(n, at)[i].entries, LowerOf(ps, Some(SplitKey(n, at)), i), UpperOf(ps, hi, i))
  {
    SplitKeyOk(n, at, lo, hi);
    LeafBasesOk(n, lo, hi);
    var d, ps := SplitIndex(n, at), Used(n)[SplitIndex(n, at)..];
    assert UpperOf(ps, hi, i) == UpperOf(Used(n), hi, d + i);
    if i > 0 || OnBoundary(n, at) {
      assert RightBases(n, at)[i] == n.bases[d + i];
      assert LowerOf(ps, Some(SplitKey(n, at)), i) == LowerOf(Used(n), lo, d + i);
    }
  }

  lemma RightLeafOk(n: Node, at: SplitLoc, lo: Option<Key>, hi: Option<Key>, bn: BlockNum)
    requires n.Leaf? && NodeOk(n, lo, hi) && CutOk(n, at)
    ensures NodeOk(RightLeaf(n, at, bn), Some(SplitKey(n, at)), hi)
  {
    RightUsed(n, at, lo, hi, bn);
    var b := RightLeaf(n, at, bn);
    if !CutBehind(n, at) {
      RightPivotsOk(n, at, lo, hi);
      forall i | 0 <= i < |b.bases|
        ensures i <= |Used(b)|
        ensures BasementOk(b, b.bases[i], LowerOf(Used(b), Some(SplitKey(n, at)), i), UpperOf(Used(b), hi, i))
      {
        RightBaseOk(n, at, lo, hi, i);
      }
    }
  }

  lemma {:induction false} FlatCut(bs: seq<Basement>, j: nat, bl: Basement, br: Basement)
    requires j < |bs| && bs[j].entries == bl.entries + br.entries
    ensures Flat(bs[..j] + [bl]) + Flat([br] + bs[j + 1..]) == Flat(bs)
  {
    var right := [br] + bs[j + 1..];
    if j == 0 {
      assert bs[..0] + [bl] == [bl];
      FlatOne(bl);
      assert right[1..] == bs[1..];
    } else {
      FlatCut(bs[1..], j - 1, bl, br);
      assert (bs[..j] + [bl])[1..] == bs[1..][..j - 1] + [bl];
      assert bs[1..][j..] == bs[j + 1..];
    }
  }

  /** A split keeps the leaf's sequence of entries. */
  lemma SplitKeepsEntries(n: Node, at: SplitLoc)
    requires n.Leaf? && CutOk(n, at)
    ensures Flat(LeftBases(n, at)) + Flat(RightBases(n, at)) == Flat(n.bases)
  {
    if OnBoundary(n, at) {
      if at.bns == |n.bases| {
        assert n.bases[..at.bns] == n.bases;
        FlatOne(EMPTY_BASEMENT);
      } else {
        FlatConcat(n.bases[..at.bns], n.bases[at.bns..]);
        assert n.bases == n.bases[..at.bns] + n.bases[at.bns..];
      }
    } else {
      var b := n.bases[at.bns - 1];
      var bl, br := b.(entries := b.entries[..at.les]), b.(entries := b.entries[at.les..]);
      assert b.entries == bl.entries + br.entries;
      FlatCut(n.bases, at.bns - 1, bl, br);
    }
  }

  /** After a split a reader finds, in the half its key belongs to, the value it
      found before. */
  lemma SplitKeepsValues(n: Node, at: SplitLoc, lo: Option<Key>, hi: Option<Key>, bn: BlockNum, k: Key)
    requires n.Leaf? && NodeOk(n, lo, hi) && CutOk(n, at)
    ensures k <= SplitKey(n, at) ==> Probe(LeftLeaf(n, at), k).val == Probe(n, k).val
    ensures SplitKey(n, at) < k ==> Probe(RightLeaf(n, at, bn), k).val == Probe(n, k).val
  {
    hide Lookup, Probe, NodeOk, Flat;
    var key := SplitKey(n, at);
    LeftLeafOk(n, at, lo, hi);
    RightLeafOk(n, at, lo, hi, bn);
    LeafFlat(n, lo, hi, k);
    LeafFlat(LeftLeaf(n, at), lo, Some(key), k);
    LeafFlat(RightLeaf(n, at, bn), Some(key), hi, k);
    SplitKeepsEntries(n, at);
    LookupConcat(Flat(LeftBases(n, at)), Flat(RightBases(n, at)), key, k);
  }

  /** The halves hold basements of the old leaf, with their MSNs; a cut behind
      the last entry adds one empty basement. */
  lemma SplitMsns(n: Node, at: SplitLoc)
    requires n.Leaf? && CutOk(n, at)
    ensures forall i :: 0 <= i < |LeftBases(n, at)| ==>
              exists j :: 0 <= j < |n.bases| && LeftBases(n, at)[i].msn == n.bases[j].msn
    ensures !CutBehind(n, at) ==>
              forall i :: 0 <= i < |RightBases(n, at)| ==>
                exists j :: 0 <= j < |n.bases| && RightBases(n, at)[i].msn == n.bases[j].msn
  {
  }
}
