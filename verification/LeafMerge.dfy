/** Merging two neighbouring leaves, and repacking a leaf that is written out. */
module LeafMerge {
  import opened Keys
  import opened Messages
  import opened Entries
  import opened Nodes
  import opened PutMsg
  import opened Leaves

  // ------------------------------------------------------------------ merge

  function LastBase(n: Node): Basement
    requires n.Leaf? && |n.bases| > 0
  {
    n.bases[|n.bases| - 1]
  }

  predicate HasTail(n: Node)
    requires n.Leaf? && |n.bases| > 0
  {
    |LastBase(n).entries| > 0
  }

  /** pivotkeys.replace_at: overwrite a pivot, or append just behind the last. */
  function PivotReplace(ps: seq<Key>, i: nat, k: Key): seq<Key> {
    if i < |ps| then ps[i := k] else ps + [k]
  }

  function PivotDelete(ps: seq<Key>, i: nat): seq<Key> {
    if i < |ps| then ps[..i] + ps[i + 1..] else ps
  }

  /** The left leaf's basements that survive: an empty last basement has no key
      to become a pivot and is dropped. */
  function KeptBases(a: Node): seq<Basement>
    requires a.Leaf? && |a.bases| > 0
  {
    if HasTail(a) then a.bases else a.bases[..|a.bases| - 1]
  }

  function KeptPivots(a: Node): seq<Key>
    requires a.Leaf? && |a.bases| > 0
  {
    if HasTail(a) then
      PivotReplace(a.pivots, |a.bases| - 1, LastBase(a).entries[|LastBase(a).entries| - 1].key)
    else PivotDelete(a.pivots, |a.bases| - 1)
  }

  function MergeLeaves(a: Node, b: Node): Node
    requires a.Leaf? && b.Leaf? && |a.bases| > 0
  {
    a.(maxMsn := Max(a.maxMsn, b.maxMsn), dirty := true,
       pivots := KeptPivots(a) + b.pivots, bases := KeptBases(a) + b.bases)
  }

  lemma KeptPivotsAre(a: Node, lo: Option<Key>, p: Key)
    requires a.Leaf? && NodeOk(a, lo, Some(p))
    ensures |KeptPivots(a)| == |KeptBases(a)|
    ensures KeptPivots(a)
         == if HasTail(a) then Used(a) + [LastBase(a).entries[|LastBase(a).entries| - 1].key] else Used(a)
  {
  }

  lemma KeptPivotsOk(a: Node, lo: Option<Key>, p: Key)
    requires a.Leaf? && NodeOk(a, lo, Some(p))
    ensures Increasing(KeptPivots(a))
    ensures forall i :: 0 <= i < |KeptPivots(a)| ==> InRange(lo, Some(p), KeptPivots(a)[i])
  {
    hide NodeOk, KeptPivots;
    KeptPivotsAre(a, lo, p);
    LeafBasesOk(a, lo, Some(p));
    var ps := Used(a);
    assert forall i :: 0 <= i < |ps| ==> Inside(lo, Some(p), ps[i]);
    if HasTail(a) {
      var n, es := |a.bases|, LastBase(a).entries;
      var k := es[|es| - 1].key;
      assert Within(es, LowerOf(ps, lo, n - 1), Some(p));
      assert InRange(LowerOf(ps, lo, n - 1), Some(p), k);
      ChildRange(ps, lo, Some(p), k, n - 1);
      assert forall i :: 0 <= i < |ps| ==> ps[i] <= ps[|ps| - 1] < k;
    }
  }

  lemma KeptBaseOk(a: Node, lo: Option<Key>, p: Key, i: nat)
    requires a.Leaf? && NodeOk(a, lo, Some(p)) && i < |KeptBases(a)|
    ensures i < |KeptPivots(a)| && Sorted(KeptBases(a)[i].entries)
    ensures Within(KeptBases(a)[i].entries, LowerOf(KeptPivots(a), lo, i), Some(KeptPivots(a)[i]))
  {
    KeptPivotsAre(a, lo, p);
    LeafBasesOk(a, lo, Some(p));
    assert KeptBases(a)[i] == a.bases[i];
    assert Within(a.bases[i].entries, LowerOf(Used(a), lo, i), UpperOf(Used(a), Some(p), i));
    assert LowerOf(KeptPivots(a), lo, i) == LowerOf(Used(a), lo, i);
  }

  lemma JoinBases(as': seq<Basement>, ks: seq<Key>, bs: seq<Basement>, qs: seq<Key>,
                  lo: Option<Key>, p: Key, hi: Option<Key>)
    requires Inside(lo, hi, p) && |ks| == |as'| && Increasing(ks)
    requires forall i :: 0 <= i < |ks| ==> InRange(lo, Some(p), ks[i])
    requires forall i :: 0 <= i < |as'| ==>
               Sorted(as'[i].entries) && Within(as'[i].entries, LowerOf(ks, lo, i), Some(ks[i]))
    requires BasesOk(bs, qs, Some(p), hi)
    ensures BasesOk(as' + bs, ks + qs, lo, hi)
  {
    var d, ps := |as'|, ks + qs;
    forall i | 0 <= i < |ps| ensures Inside(lo, hi, ps[i]) {
      if i < d {
        assert InRange(lo, Some(p), ks[i]);
      } else {
        assert Inside(Some(p), hi, qs[i - d]);
      }
    }
    forall i, j | 0 <= i < j < |ps| ensures ps[i] < ps[j] {
      if i < d <= j {
        assert InRange(lo, Some(p), ks[i]) && Inside(Some(p), hi, qs[j - d]);
      }
    }
    forall i | 0 <= i < |as' + bs|
      ensures Sorted((as' + bs)[i].entries)
      ensures Within((as' + bs)[i].entries, LowerOf(ps, lo, i), UpperOf(ps, hi, i))
    {
      if i >= d {
        assert Within(bs[i - d].entries, LowerOf(qs, Some(p), i - d), UpperOf(qs, hi, i - d));
      }
    }
  }

  lemma BasesMakeLeaf(n: Node, lo: Option<Key>, hi: Option<Key>)
    requires n.Leaf? && n.dirty && BasesOk(n.bases, Used(n), lo, hi)
    requires |n.bases| - 1 <= |n.pivots| <= |n.bases|
    ensures NodeOk(n, lo, hi)
  {
  }

  lemma MergeOk(a: Node, b: Node, lo: Option<Key>, p: Key, hi: Option<Key>)
    requires a.Leaf? && b.Leaf? && Inside(lo, hi, p)
    requires NodeOk(a, lo, Some(p)) && NodeOk(b, Some(p), hi)
    ensures NodeOk(MergeLeaves(a, b), lo, hi)
  {
    KeptPivotsAre(a, lo, p);
    KeptPivotsOk(a, lo, p);
    forall i | 0 <= i < |KeptBases(a)|
      ensures Sorted(KeptBases(a)[i].entries)
      ensures Within(KeptBases(a)[i].entries, LowerOf(KeptPivots(a), lo, i), Some(KeptPivots(a)[i]))
    {
      KeptBaseOk(a, lo, p, i);
    }
    LeafBasesOk(b, Some(p), hi);
    JoinBases(KeptBases(a), KeptPivots(a), b.bases, Used(b), lo, p, hi);
    assert Used(MergeLeaves(a, b)) == KeptPivots(a) + Used(b);
    BasesMakeLeaf(MergeLeaves(a, b), lo, hi);
  }

  /** A merge keeps the concatenated entries. */
  lemma MergeKeepsEntries(a: Node, b: Node)
    requires a.Leaf? && b.Leaf? && |a.bases| > 0
    ensures Flat(MergeLeaves(a, b).bases) == Flat(a.bases) + Flat(b.bases)
  {
    FlatConcat(KeptBases(a), b.bases);
    if !HasTail(a) {
      var n := |a.bases|;
      assert a.bases == a.bases[..n - 1] + [a.bases[n - 1]];
      FlatConcat(a.bases[..n - 1], [a.bases[n - 1]]);
      FlatOne(a.bases[n - 1]);
    }
  }

  /** A merge keeps every reader's value. */
  lemma MergeKeepsValues(a: Node, b: Node, lo: Option<Key>, p: Key, hi: Option<Key>, k: Key)
    requires a.Leaf? && b.Leaf? && Inside(lo, hi, p)
    requires NodeOk(a, lo, Some(p)) && NodeOk(b, Some(p), hi)
    ensures Probe(MergeLeaves(a, b), k).val == if k <= p then Probe(a, k).val else Probe(b, k).val
  {
    var c := MergeLeaves(a, b);
    assert NodeOk(c, lo, hi) by { MergeOk(a, b, lo, p, hi); }
    MergeKeepsEntries(a, b);
    LeafFlat(a, lo, Some(p), k);
    LeafFlat(b, Some(p), hi, k);
    LeafFlat(c, lo, hi, k);
    LookupConcat(Flat(a.bases), Flat(b.bases), p, k);
  }

  // ----------------------------------------------------------------- repack

  function EntrySize(e: Entry): nat { e.le.diskSize }

  /** How many entries fill the basement that starts with `i` entries of `size`
      bytes: at least one, then as long as the limit is respected. */
  function FillUpTo(es: seq<Entry>, i: nat, size: nat, limit: nat): (r: nat)
    requires i <= |es|
    ensures i <= r <= |es| && (i == 0 < |es| ==> 0 < r)
    decreases |es| - i
  {
    if i == |es| || (i > 0 && size + EntrySize(es[i]) > limit) then i
    else FillUpTo(es, i + 1, size + EntrySize(es[i]), limit)
  }

  /** The new basements, all with the MSN `msn` and equal to their disk image. */
  function PackBases(es: seq<Entry>, msn: nat, limit: nat): (r: seq<Basement>)
    ensures |r| > 0
    decreases |es|
  {
    var n := FillUpTo(es, 0, 0, limit);
    var first := Basement(es[..n], msn, es[..n]);
    if n == |es| then [first] else [first] + PackBases(es[n..], msn, limit)
  }

  /** The last key of every new basement but the last. */
  function PackPivots(es: seq<Entry>, limit: nat): seq<Key>
    decreases |es|
  {
    var n := FillUpTo(es, 0, 0, limit);
    if n == |es| then [] else [es[n - 1].key] + PackPivots(es[n..], limit)
  }

  function MaxBaseMsn(bs: seq<Basement>): (r: nat)
    ensures forall i :: 0 <= i < |bs| ==> bs[i].msn <= r
    ensures r == 0 || exists i :: 0 <= i < |bs| && bs[i].msn == r
  {
    if |bs| == 0 then 0
    else
      var r := MaxBaseMsn(bs[..|bs| - 1]);
      assert forall i :: 0 <= i < |bs| - 1 ==> bs[..|bs| - 1][i] == bs[i];
      Max(r, bs[|bs| - 1].msn)
  }

  /** toku_ftnode_leaf_rebalance followed by writing the leaf out: entries are
      repacked, and one MSN, the largest, stands for all basements. */
  function WriteOut(n: Node, limit: nat): Node
    requires n.Leaf?
  {
    var es, msn := Flat(n.bases), MaxBaseMsn(n.bases);
    n.(maxMsn := msn, dirty := false, pivots := PackPivots(es, limit), bases := PackBases(es, msn, limit))
  }

  lemma {:induction false} PackKeepsEntries(es: seq<Entry>, msn: nat, limit: nat)
    ensures Flat(PackBases(es, msn, limit)) == es
    ensures forall i :: 0 <= i < |PackBases(es, msn, limit)| ==>
              var b := PackBases(es, msn, limit)[i]; b.msn == msn && b.disk == b.entries
    decreases |es|
  {
    var n := FillUpTo(es, 0, 0, limit);
    var first := Basement(es[..n], msn, es[..n]);
    FlatOne(first);
    if n == |es| {
      assert es[..n] == es;
    } else {
      PackKeepsEntries(es[n..], msn, limit);
      FlatConcat([first], PackBases(es[n..], msn, limit));
      assert es == es[..n] + es[n..];
    }
  }

  lemma {:induction false} PackOk(es: seq<Entry>, msn: nat, limit: nat, lo: Option<Key>, hi: Option<Key>)
    requires Sorted(es) && Within(es, lo, hi)
    ensures BasesOk(PackBases(es, msn, limit), PackPivots(es, limit), lo, hi)
    decreases |es|
  {
    var n := FillUpTo(es, 0, 0, limit);
    if n == |es| {
      assert es[..n] == es;
    } else {
      var first := Basement(es[..n], msn, es[..n]);
      var p, rest := es[n - 1].key, es[n..];
      CutEntries(es, n, lo, hi);
      PackOk(rest, msn, limit, Some(p), hi);
      JoinBases([first], [p], PackBases(rest, msn, limit), PackPivots(rest, limit), lo, p, hi);
    }
  }

  lemma CutEntries(es: seq<Entry>, n: nat, lo: Option<Key>, hi: Option<Key>)
    requires Sorted(es) && Within(es, lo, hi) && 0 < n < |es|
    ensures Sorted(es[..n]) && Within(es[..n], lo, Some(es[n - 1].key))
    ensures Sorted(es[n..]) && Within(es[n..], Some(es[n - 1].key), hi)
    ensures Inside(lo, hi, es[n - 1].key)
  {
    assert InRange(lo, hi, es[n - 1].key) && InRange(lo, hi, es[n].key);
    forall i | 0 <= i < |es| - n ensures InRange(Some(es[n - 1].key), hi, es[n..][i].key) {
      assert es[n..][i] == es[n + i] && InRange(lo, hi, es[n + i].key);
    }
  }

  lemma WriteOutOk(n: Node, limit: nat, lo: Option<Key>, hi: Option<Key>)
    requires n.Leaf? && NodeOk(n, lo, hi)
    ensures NodeOk(WriteOut(n, limit), lo, hi)
    ensures forall i :: 0 <= i < |WriteOut(n, limit).bases| ==>
              var b := WriteOut(n, limit).bases[i]; b.msn == MaxBaseMsn(n.bases) && b.disk == b.entries
  {
    LeafFlat(n, lo, hi, 0.0);
    var n' := WriteOut(n, limit);
    PackOk(Flat(n.bases), MaxBaseMsn(n.bases), limit, lo, hi);
    PackKeepsEntries(Flat(n.bases), MaxBaseMsn(n.bases), limit);
    assert Used(n') == n'.pivots;
    forall i | 0 <= i < |n'.bases|
      ensures BasementOk(n', n'.bases[i], LowerOf(n'.pivots, lo, i), UpperOf(n'.pivots, hi, i))
    {
    }
  }

  lemma WriteOutKeepsValues(n: Node, limit: nat, lo: Option<Key>, hi: Option<Key>, k: Key)
    requires n.Leaf? && NodeOk(n, lo, hi)
    ensures
      var p' := Probe(WriteOut(n, limit), k);
      && p'.val == Probe(n, k).val && p'.diskVal == p'.val
      && p'.msn == MaxBaseMsn(n.bases) && p'.diskMsn == p'.msn && !p'.dirty
  {
    WriteOutOk(n, limit, lo, hi);
    LeafFlat(n, lo, hi, k);
    LeafFlat(WriteOut(n, limit), lo, hi, k);
    PackKeepsEntries(Flat(n.bases), MaxBaseMsn(n.bases), limit);
    var n' := WriteOut(n, limit);
    assert Route(Used(n'), k) < |n'.bases|;
  }
}
