/** Where a leaf is cut: ftleaf_get_split_loc. */
module Splitting {
  import opened Keys
  import opened Messages
  import opened Entries
  import opened Nodes
  import opened Leaves
  import opened LeafMerge

  datatype SplitMode = Evenly | LeftHeavy | RightHeavy

  function SizeSum(es: seq<Entry>): nat {
    if |es| == 0 then 0 else SizeSum(es[..|es| - 1]) + EntrySize(es[|es| - 1])
  }

  lemma {:induction false} SizeSumConcat(a: seq<Entry>, b: seq<Entry>)
    ensures SizeSum(a + b) == SizeSum(a) + SizeSum(b)
  {
    if |b| == 0 {
      assert a + b == a;
    } else {
      assert (a + b)[..|a + b| - 1] == a + b[..|b| - 1];
      SizeSumConcat(a, b[..|b| - 1]);
    }
  }

  /** No single entry is larger than `c`. */
  ghost predicate EachAtMost(es: seq<Entry>, c: nat) {
    forall i :: 0 <= i < |es| ==> EntrySize(es[i]) <= c
  }

  /** The entries of a leaf in front of entry `j` of basement `i`. */
  ghost function Before(n: Node, i: nat, j: nat): seq<Entry>
    requires n.Leaf? && i < |n.bases| && j <= |n.bases[i].entries|
  {
    Flat(n.bases[..i]) + n.bases[i].entries[..j]
  }

  lemma BeforeNext(n: Node, i: nat, j: nat)
    requires n.Leaf? && i < |n.bases| && j < |n.bases[i].entries|
    ensures Before(n, i, j + 1) == Before(n, i, j) + [n.bases[i].entries[j]]
    ensures SizeSum(Before(n, i, j + 1)) == SizeSum(Before(n, i, j)) + EntrySize(n.bases[i].entries[j])
  {
  }

  lemma BeforeAll(n: Node, i: nat)
    requires n.Leaf? && i < |n.bases|
    ensures Before(n, i, |n.bases[i].entries|) == Flat(n.bases[..i + 1])
  {
    assert n.bases[..i + 1] == n.bases[..i] + [n.bases[i]];
    FlatConcat(n.bases[..i], [n.bases[i]]);
    FlatOne(n.bases[i]);
    assert n.bases[i].entries[..|n.bases[i].entries|] == n.bases[i].entries;
  }

  /** The front of a leaf is part of the whole. */
  lemma BeforePrefix(n: Node, i: nat, j: nat)
    requires n.Leaf? && i < |n.bases| && j <= |n.bases[i].entries|
    ensures Before(n, i, j) <= Flat(n.bases)
    ensures SizeSum(Before(n, i, j)) <= SizeSum(Flat(n.bases))
  {
    hide Flat, SizeSum;
    var es := n.bases[i].entries;
    BeforeAll(n, i);
    assert n.bases == n.bases[..i + 1] + n.bases[i + 1..];
    FlatConcat(n.bases[..i + 1], n.bases[i + 1..]);
    assert es[..|es|] == es[..j] + es[j..];
    var rest := es[j..] + Flat(n.bases[i + 1..]);
    assert Flat(n.bases) == Before(n, i, j) + rest;
    SizeSumConcat(Before(n, i, j), rest);
  }

  /** The entries that a cut leaves on the left. */
  lemma LeftEntries(n: Node, at: SplitLoc)
    requires n.Leaf? && CutOk(n, at)
    ensures at.les > 0 ==> Flat(LeftBases(n, at)) == Before(n, at.bns - 1, at.les)
    ensures at.les == 0 ==> Flat(LeftBases(n, at)) == Flat(n.bases[..at.bns])
  {
    var i := at.bns - 1;
    if OnBoundary(n, at) {
      BeforeAll(n, i);
    } else {
      var b := n.bases[i];
      var cut := b.(entries := b.entries[..at.les]);
      FlatConcat(n.bases[..i], [cut]);
      FlatOne(cut);
    }
  }

  /** What the evenly placed cut promises: entries on the left, entries on the
      right too unless the leaf ends with an empty basement, and neither side
      larger than half the leaf (rounded up) by more than one entry. */
  ghost predicate Balanced(n: Node, at: SplitLoc)
    requires n.Leaf? && CutOk(n, at)
  {
    var all, left := Flat(n.bases), Flat(LeftBases(n, at));
    && 0 < |left| && left <= all
    && (|LastBase(n).entries| > 0 ==> |left| < |all|)
    && forall c :: EachAtMost(all, c) ==>
         && SizeSum(left) <= (SizeSum(all) + 1) / 2 + c
         && SizeSum(all) - SizeSum(left) <= (SizeSum(all) + 1) / 2 + c
  }

  lemma Cut(n: Node, at: SplitLoc, i: nat, j: nat)
    requires n.Leaf? && CutOk(n, at)
    requires i < |n.bases| && j < |n.bases[i].entries|
    requires Flat(LeftBases(n, at)) == Before(n, i, j + 1) || (Flat(LeftBases(n, at)) == Before(n, i, j) && Before(n, i, j + 1) == Flat(n.bases))
    requires 0 < |Flat(LeftBases(n, at))| && (|LastBase(n).entries| > 0 ==> |Flat(LeftBases(n, at))| < |Flat(n.bases)|)
    requires SizeSum(Before(n, i, j)) < SizeSum(Flat(n.bases)) / 2 || |Before(n, i, j)| == 0
    requires SizeSum(Before(n, i, j + 1)) >= SizeSum(Flat(n.bases)) / 2
    ensures Balanced(n, at)
  {
    BeforeNext(n, i, j);
    BeforePrefix(n, i, j);
    BeforePrefix(n, i, j + 1);
    var all, le := Flat(n.bases), n.bases[i].entries[j];
    assert all[|Before(n, i, j)|] == le;
    forall c | EachAtMost(all, c)
      ensures SizeSum(Flat(LeftBases(n, at))) <= (SizeSum(all) + 1) / 2 + c
      ensures SizeSum(all) - SizeSum(Flat(LeftBases(n, at))) <= (SizeSum(all) + 1) / 2 + c
    {
      assert EntrySize(le) <= c;
    }
  }

  /** If the last basement has entries, only the very end is behind all of them. */
  lemma StrictlyBefore(n: Node, i: nat, j: nat)
    requires n.Leaf? && i < |n.bases| && j <= |n.bases[i].entries|
    requires |LastBase(n).entries| > 0 && (i + 1 < |n.bases| || j < |n.bases[i].entries|)
    ensures |Before(n, i, j)| < |Flat(n.bases)|
  {
    hide Flat;
    var z := |n.bases| - 1;
    if i < z {
      BeforePrefix(n, i, |n.bases[i].entries|);
      BeforeAll(n, i);
      BeforePrefix(n, z, 0);
      FrontOf(n, i, z);
      BeforeAll(n, z);
      assert n.bases[..z + 1] == n.bases;
    } else {
      BeforeAll(n, z);
      assert n.bases[..z + 1] == n.bases;
    }
  }

  lemma FrontOf(n: Node, i: nat, z: nat)
    requires n.Leaf? && i < z <= |n.bases|
    ensures |Flat(n.bases[..i + 1])| <= |Flat(n.bases[..z])|
  {
    FlatConcat(n.bases[..i + 1], n.bases[i + 1..z]);
    assert n.bases[..z] == n.bases[..i + 1] + n.bases[i + 1..z];
  }

  /** ftleaf_disk_size. */
  method DiskSize(n: Node) returns (r: nat)
    requires n.Leaf?
    ensures r == SizeSum(Flat(n.bases))
  {
    r := 0;
    for i := 0 to |n.bases|
      invariant r == SizeSum(Flat(n.bases[..i]))
    {
      BeforeAll(n, i);
      SizeSumConcat(Flat(n.bases[..i]), n.bases[i].entries);
      assert n.bases[i].entries[..|n.bases[i].entries|] == n.bases[i].entries;
      r := r + SizeSum(n.bases[i].entries);
    }
    assert n.bases[..|n.bases|] == n.bases;
  }

  /** Entry `j` of basement `i` is the one with which half of the leaf's size is reached. */
  ghost predicate FillsHalf(n: Node, i: nat, j: nat)
    requires n.Leaf? && i < |n.bases| && j < |n.bases[i].entries|
  {
    && (SizeSum(Before(n, i, j)) < SizeSum(Flat(n.bases)) / 2 || |Before(n, i, j)| == 0)
    && SizeSum(Before(n, i, j + 1)) >= SizeSum(Flat(n.bases)) / 2
  }

  /** The cut behind that entry, or in front of it if it is the last one. */
  function CutAt(n: Node, i: nat, j: nat): SplitLoc
    requires n.Leaf? && i < |n.bases| && j < |n.bases[i].entries|
  {
    if i + 1 < |n.bases| || j + 1 < |n.bases[i].entries| then SplitLoc(i + 1, j + 1)
    else if j > 0 then SplitLoc(i + 1, j)
    else if i > 0 then SplitLoc(i, |n.bases[i - 1].entries|)
    else SplitLoc(1, 1)
  }

  /** The cut of an even split. */
  ghost predicate EvenAt(n: Node, at: SplitLoc)
    requires n.Leaf?
  {
    exists i: nat, j: nat ::
      i < |n.bases| && j < |n.bases[i].entries| && FillsHalf(n, i, j) && at == CutAt(n, i, j)
  }

  /** The cut behind the last entry is moved in front of it. */
  method LastCut(n: Node) returns (r: Option<SplitLoc>)
    requires n.Leaf? && |n.bases| > 0 && |n.bases[|n.bases| - 1].entries| > 0
    ensures r.None? <==> |n.bases| == 1 && |n.bases[0].entries| == 1
    ensures r.Some? ==> CutOk(n, r.value) && !CutBehind(n, r.value)
    ensures r.Some? ==>
              Flat(LeftBases(n, r.value)) == Before(n, |n.bases| - 1, |n.bases[|n.bases| - 1].entries| - 1)
    ensures r.Some? ==> r.value == CutAt(n, |n.bases| - 1, |n.bases[|n.bases| - 1].entries| - 1)
  {
    var bns, les := |n.bases|, |n.bases[|n.bases| - 1].entries|;
    if les > 1 {
      les := les - 1;
    } else if bns > 1 {
      bns := bns - 1;
      les := |n.bases[bns - 1].entries|;
      assert n.bases[bns].entries[..0] == [];
      assert n.bases[..bns] + [] == n.bases[..bns];
      BeforeAll(n, bns - 1);
    } else {
      return None;
    }
    LeftEntries(n, SplitLoc(bns, les));
    r := Some(SplitLoc(bns, les));
  }

  /** The cut once entry `j` of basement `i` has filled the left half. */
  method CutAfter(n: Node, i: nat, j: nat) returns (r: Option<SplitLoc>)
    requires n.Leaf? && i < |n.bases| && j < |n.bases[i].entries|
    requires SizeSum(Before(n, i, j)) < SizeSum(Flat(n.bases)) / 2 || |Before(n, i, j)| == 0
    requires SizeSum(Before(n, i, j + 1)) >= SizeSum(Flat(n.bases)) / 2
    ensures |Flat(n.bases)| > 0
    ensures r.None? <==> |Flat(n.bases)| == 1 && |n.bases| == 1
    ensures r.Some? ==> CutOk(n, r.value) && !CutBehind(n, r.value) && r.value == CutAt(n, i, j)
    ensures |Flat(n.bases)| >= 2 ==> Balanced(n, r.value)
  {
    hide Balanced, SizeSum, Flat, LeftBases;
    BeforeNext(n, i, j);
    BeforePrefix(n, i, j + 1);
    if i + 1 == |n.bases| && j + 1 == |n.bases[i].entries| {
      BeforeAll(n, i);
      assert n.bases[..i + 1] == n.bases;
      r := LastCut(n);
      if |n.bases| == 1 {
        OneBasement(n);
      }
    } else {
      r := Some(SplitLoc(i + 1, j + 1));
      LeftEntries(n, r.value);
      if |LastBase(n).entries| > 0 {
        StrictlyBefore(n, i, j + 1);
      }
    }
    if |Flat(n.bases)| >= 2 {
      Cut(n, r.value, i, j);
    }
  }

  lemma FlatNothing()
    ensures Flat([]) == [] && SizeSum([]) == 0
  {
  }

  lemma OneBasement(n: Node)
    requires n.Leaf? && |n.bases| == 1
    ensures Flat(n.bases) == n.bases[0].entries
  {
  }

  /** SPLIT_EVENLY. `None` is abort(), reached exactly for a leaf without entries
      and for one basement with one entry. */
  method EvenCut(n: Node) returns (r: Option<SplitLoc>)
    requires n.Leaf? && |n.bases| > 0
    ensures r.None? <==> |Flat(n.bases)| == 0 || (|Flat(n.bases)| == 1 && |n.bases| == 1)
    ensures r.Some? ==> CutOk(n, r.value) && !CutBehind(n, r.value) && EvenAt(n, r.value)
    ensures |Flat(n.bases)| >= 2 ==> Balanced(n, r.value)
  {
    hide Balanced, SizeSum, Flat, LeftBases, CutAt;
    FlatNothing();
    var sum := DiskSize(n);
    var soFar := 0;
    var i := 0;
    while i < |n.bases|
      invariant i <= |n.bases| && soFar == SizeSum(Flat(n.bases[..i]))
      invariant soFar < sum / 2 || |Flat(n.bases[..i])| == 0
    {
      var j, es := 0, n.bases[i].entries;
      assert es[..0] == [] && Flat(n.bases[..i]) + [] == Flat(n.bases[..i]);
      while j < |es|
        invariant j <= |es| && soFar == SizeSum(Before(n, i, j))
        invariant soFar < sum / 2 || |Before(n, i, j)| == 0
      {
        BeforeNext(n, i, j);
        BeforePrefix(n, i, j + 1);
        soFar := soFar + EntrySize(es[j]);
        if soFar >= sum / 2 {
          assert FillsHalf(n, i, j);
          r := CutAfter(n, i, j);
          return;
        }
        j := j + 1;
      }
      BeforeAll(n, i);
      i := i + 1;
    }
    assert n.bases[..i] == n.bases;
    r := None;
  }

  /** SPLIT_LEFT_HEAVY: as much as possible to the left. */
  method LeftHeavyCut(n: Node) returns (at: SplitLoc)
    requires n.Leaf? && |n.bases| > 0 && (|n.bases| > 1 || |n.bases[0].entries| > 0)
    ensures CutOk(n, at)
    ensures CutBehind(n, at) <==> |LastBase(n).entries| > 0
    ensures Flat(LeftBases(n, at)) == Flat(n.bases)
  {
    at := SplitLoc(|n.bases|, |n.bases[|n.bases| - 1].entries|);
    if at.les == 0 {
      at := SplitLoc(|n.bases| - 1, |n.bases[|n.bases| - 2].entries|);
      BeforeAll(n, |n.bases| - 1);
      assert n.bases[..|n.bases|] == n.bases && n.bases[|n.bases| - 1].entries[..0] == [];
      BeforeAll(n, |n.bases| - 2);
    } else {
      BeforeAll(n, |n.bases| - 1);
      assert n.bases[..|n.bases|] == n.bases;
    }
    LeftEntries(n, at);
  }

  /** SPLIT_RIGHT_HEAVY: one entry to the left, or one empty basement. */
  method RightHeavyCut(n: Node) returns (at: SplitLoc)
    requires n.Leaf? && |n.bases| > 0 && (|n.bases| > 1 || |n.bases[0].entries| > 1)
    ensures CutOk(n, at) && !CutBehind(n, at)
    ensures |Flat(LeftBases(n, at))| == if |n.bases[0].entries| > 0 then 1 else 0
  {
    at := SplitLoc(1, if |n.bases[0].entries| > 0 then 1 else 0);
    LeftEntries(n, at);
    BeforeAll(n, 0);
    assert n.bases[..0] == [];
  }
}
