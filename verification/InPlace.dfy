/** Nodes as the code keeps them: arrays of partitions that are slid, moved and
    reallocated in place. Each method is tied to the value that the node stands for. */
module InPlace {
  import opened Keys
  import opened Messages
  import opened Entries
  import opened Nodes
  import opened PutMsg
  import opened Leaves
  import opened LeafMerge
  import opened Halves
  import opened Parents
  import opened Routing

  // ---------------------------------------------------------------- the loops

  method PutEach(bp: array<Basement>, m: Message)
    modifies bp
    ensures bp[..] == BasementsPut(old(bp[..]), m)
  {
    for i := 0 to bp.Length
      invariant forall j :: 0 <= j < bp.Length ==> bp[j] == if j < i then BasementPut(old(bp[j]), m) else old(bp[j])
    {
      bp[i] := BasementPut(bp[i], m);
    }
  }

  method AppendToEach(bp: array<Kid>, m: Message)
    modifies bp
    ensures bp[..] == AppendEach(old(bp[..]), m)
  {
    for i := 0 to bp.Length
      invariant forall j :: 0 <= j < bp.Length ==> bp[j] == if j < i then Append(old(bp[j]), m) else old(bp[j])
    {
      bp[i] := Append(bp[i], m);
    }
  }

  /** Slides the children behind child `i` over by one, from the right end on. */
  method Slide(bp: array<Kid>, i: nat, a: Kid, b: Kid) returns (grown: array<Kid>)
    requires i < bp.Length
    ensures fresh(grown) && grown[..] == bp[..][..i] + [a, b] + bp[..][i + 1..]
  {
    var m := bp.Length;
    grown := new Kid[m + 1](j reads bp => if 0 <= j < bp.Length then bp[j] else a);
    var c := m;
    while c > i + 1
      invariant i + 1 <= c <= m
      invariant forall j :: 0 <= j < c ==> grown[j] == bp[j]
      invariant forall j :: c < j <= m ==> grown[j] == bp[j - 1]
    {
      grown[c] := grown[c - 1];
      c := c - 1;
    }
    grown[i] := a;
    grown[i + 1] := b;
    Slid(bp[..], grown[..], i, a, b);
  }

  lemma Slid(old': seq<Kid>, new': seq<Kid>, i: nat, a: Kid, b: Kid)
    requires i < |old'| && |new'| == |old'| + 1 && new'[i] == a && new'[i + 1] == b
    requires forall j :: 0 <= j < i ==> new'[j] == old'[j]
    requires forall j :: i + 1 < j < |new'| ==> new'[j] == old'[j - 1]
    ensures new' == old'[..i] + [a, b] + old'[i + 1..]
  {
  }

  /** Closes the gap that child `i + 1` leaves. */
  method CloseGap(bp: array<Kid>, i: nat, a: Kid) returns (shrunk: array<Kid>)
    requires i + 1 < bp.Length
    ensures fresh(shrunk) && shrunk[..] == bp[..i] + [a] + bp[i + 2..]
  {
    var m := bp.Length - 1;
    shrunk := new Kid[m](j reads bp => if 0 <= j < bp.Length then bp[j] else a);
    for c := i + 1 to m
      invariant forall j :: 0 <= j < i + 1 ==> shrunk[j] == bp[j]
      invariant forall j :: i + 1 <= j < c ==> shrunk[j] == bp[j + 1]
    {
      shrunk[c] := bp[c + 1];
    }
    shrunk[i] := a;
  }

  method CopyKids(bp: array<Kid>, lo: nat, hi: nat) returns (part: array<Kid>)
    requires lo < hi <= bp.Length
    ensures fresh(part) && part.Length == hi - lo && forall j :: 0 <= j < hi - lo ==> part[j] == bp[lo + j]
  {
    var some := bp[lo];
    part := new Kid[hi - lo](_ => some);
    for i := lo to hi
      invariant forall j :: 0 <= j < i - lo ==> part[j] == bp[lo + j]
    {
      part[i - lo] := bp[i];
    }
  }

  /** The first `keep` basements of one leaf, then all of another. */
  method Join(a: array<Basement>, keep: nat, b: array<Basement>) returns (all: array<Basement>)
    requires keep <= a.Length
    ensures fresh(all) && all[..] == a[..keep] + b[..]
  {
    all := new Basement[keep + b.Length](_ => EMPTY_BASEMENT);
    for i := 0 to keep
      invariant forall j :: 0 <= j < i ==> all[j] == a[j]
    {
      all[i] := a[i];
    }
    for i := 0 to b.Length
      invariant forall j :: 0 <= j < keep ==> all[j] == a[j]
      invariant forall j :: 0 <= j < i ==> all[keep + j] == b[j]
    {
      all[keep + i] := b[i];
    }
  }

  /** The basements of the right half, filled from the one that is cut onwards. */
  method MoveRight(bp: array<Basement>, at: SplitLoc, ghost n: Node) returns (right: array<Basement>)
    requires n.Leaf? && n.bases == bp[..] && CutOk(n, at)
    ensures fresh(right) && right[..] == RightBases(n, at)
  {
    var cut := bp[at.bns - 1];
    var onBoundary := at.les == 0 || at.les == |cut.entries|;
    var inB := bp.Length - at.bns + (if onBoundary then 0 else 1);
    if inB == 0 {
      inB := 1;
    }
    right := new Basement[inB](_ => EMPTY_BASEMENT);
    var src, dest := at.bns - 1, 0;
    if !onBoundary {
      right[0] := cut.(entries := cut.entries[at.les..]);
      dest := 1;
    }
    src := src + 1;
    ghost var first := dest;
    while src < bp.Length
      invariant at.bns <= src <= bp.Length && dest == first + src - at.bns <= inB
      invariant first == 1 ==> right[0] == cut.(entries := cut.entries[at.les..])
      invariant forall j :: first <= j < dest ==> right[j] == bp[at.bns + j - first]
      invariant forall j :: dest <= j < inB ==> right[j] == EMPTY_BASEMENT
    {
      right[dest] := bp[src];
      src, dest := src + 1, dest + 1;
    }
  }

  /** The basements of the left half. */
  method KeepLeft(bp: array<Basement>, at: SplitLoc, ghost n: Node) returns (left: array<Basement>)
    requires n.Leaf? && n.bases == bp[..] && CutOk(n, at)
    ensures fresh(left) && left[..] == LeftBases(n, at)
  {
    var cut := bp[at.bns - 1];
    left := new Basement[at.bns](j reads bp => if 0 <= j < bp.Length then bp[j] else EMPTY_BASEMENT);
    if !(at.les == 0 || at.les == |cut.entries|) {
      left[at.bns - 1] := cut.(entries := cut.entries[..at.les]);
    }
  }

  // -------------------------------------------------------------------- leaves

  class LeafNode {
    var bn: BlockNum
    var maxMsn: nat
    var dirty: bool
    var pivots: seq<Key>
    var bp: array<Basement>

    function Value(): (n: Node)
      reads this, bp
      ensures n.Leaf?
    {
      Leaf(bn, maxMsn, dirty, pivots, bp[..])
    }

    constructor (bn: BlockNum)
      ensures Value() == Leaf(bn, 0, false, [], []) && fresh(bp)
    {
      this.bn, maxMsn, dirty, pivots := bn, 0, false, [];
      bp := new Basement[0](_ => EMPTY_BASEMENT);
    }

    /** toku_ft_leaf_apply_msg: one basement for a message with a key, every basement
        for a broadcast. */
    method PutMsg(m: Message)
      requires bp.Length == |Used(Value())| + 1 && Increasing(Used(Value()))
      modifies this, bp
      ensures Value() == LeafPut(old(Value()), m) && bp == old(bp)
    {
      hide BasementPut, Increasing;
      dirty := true;
      if m.msn > maxMsn {
        maxMsn := m.msn;
      }
      match m.scope
      case Once(k) =>
        assert pivots[..bp.Length - 1] == Used(old(Value()));
        var i := WhichChild(pivots, bp.Length, k);
        bp[i] := BasementPut(bp[i], m);
        assert bp[..] == old(bp[..])[i := BasementPut(old(bp[..])[i], m)];
      case All => PutEach(bp, m);
      case Nothing =>
    }

    /** toku_bnc_flush_to_child on a leaf: the whole buffer, oldest message first. */
    method FlushBuffer(ms: seq<Message>)
      requires bp.Length == |Used(Value())| + 1 && Increasing(Used(Value()))
      modifies this, bp
      ensures Value() == PutAll(old(Value()), ms) && bp == old(bp)
    {
      hide LeafPut, Increasing;
      ghost var n := Value();
      for i := 0 to |ms|
        invariant bp == old(bp) && Value() == PutAll(n, ms[..i])
        invariant bp.Length == |Used(Value())| + 1 && Increasing(Used(Value()))
      {
        assert ms[..i + 1][..i] == ms[..i];
        UsedKept(Value(), ms[i]);
        PutMsg(ms[i]);
      }
      assert ms[..|ms|] == ms;
    }

    /** ftleaf_split, for a cut that has been chosen: `b` takes the right part. */
    method Split(at: SplitLoc, b: LeafNode)
      requires CutOk(Value(), at) && b != this
      modifies this, b
      ensures Value() == LeftLeaf(old(Value()), at)
      ensures b.Value() == RightLeaf(old(Value()), at, old(b.bn))
    {
      hide LeftBases, RightBases;
      ghost var n := Value();
      var last := bp[at.bns - 1];
      var onBoundary := at.les == 0 || at.les == |last.entries|;
      var right := MoveRight(bp, at, n);
      var left := KeepLeft(bp, at, n);
      var splitIdx := at.bns - (if onBoundary then 0 else 1);
      b.pivots := if splitIdx < |pivots| then pivots[splitIdx..] else [];
      pivots := if splitIdx < |pivots| then pivots[..splitIdx] else pivots;
      bp := left;
      b.bp := right;
      b.maxMsn := maxMsn;
      dirty, b.dirty := true, true;
    }

    /** merge_leaf_nodes: all of `b` moves behind what is kept of this leaf. */
    method Merge(b: LeafNode)
      requires bp.Length > 0 && b != this
      modifies this, b
      ensures Value() == MergeLeaves(old(Value()), old(b.Value()))
      ensures b.pivots == [] && b.bp.Length == 0
    {
      ghost var n, nb := Value(), b.Value();
      dirty, b.dirty := true, true;
      var last := bp.Length - 1;
      var hasTail := |bp[last].entries| > 0;
      if !hasTail {
        if last < |pivots| {
          pivots := pivots[..last] + pivots[last + 1..];
        }
      } else {
        var es := bp[last].entries;
        pivots := PivotReplace(pivots, last, es[|es| - 1].key);
      }
      var all := Join(bp, if hasTail then bp.Length else last, b.bp);
      assert all[..] == KeptBases(n) + nb.bases;
      pivots := pivots + b.pivots;
      bp := all;
      b.bp := new Basement[0](_ => EMPTY_BASEMENT);
      b.pivots := [];
      if b.maxMsn > maxMsn {
        maxMsn := b.maxMsn;
      }
    }
  }

  lemma UsedKept(n: Node, m: Message)
    requires n.Leaf?
    ensures LeafPut(n, m).Leaf? && Used(LeafPut(n, m)) == Used(n) && |LeafPut(n, m).bases| == |n.bases|
  {
  }

  // ------------------------------------------------------------------ nonleaves

  class InnerNode {
    var bn: BlockNum
    var height: nat
    var maxMsn: nat
    var pivots: seq<Key>
    var bp: array<Kid>

    function Value(): (n: Node)
      reads this, bp
      ensures n.Inner?
    {
      Inner(bn, height, maxMsn, pivots, bp[..])
    }

    constructor (bn: BlockNum, height: nat, only: Kid)
      ensures Value() == Inner(bn, height, 0, [], [only]) && fresh(bp)
    {
      this.bn, this.height, maxMsn, pivots := bn, height, 0, [];
      bp := new Kid[1](_ => only);
    }

    /** ft_nonleaf_put_msg: into one buffer, or into all of them. */
    method PutMsg(m: Message)
      requires bp.Length == |pivots| + 1 && Increasing(pivots)
      modifies this, bp
      ensures Value() == InnerPut(old(Value()), m) && bp == old(bp)
    {
      hide Append, Increasing;
      maxMsn := m.msn;
      match m.scope
      case Once(k) =>
        assert pivots[..bp.Length - 1] == pivots;
        var i := WhichChild(pivots, bp.Length, k);
        bp[i] := Append(bp[i], m);
        assert bp[..] == old(bp[..])[i := Append(old(bp[..])[i], m)];
      case All => AppendToEach(bp, m);
      case Nothing =>
    }

    /** handle_split_of_child: the two halves stand where the child was. */
    method HandleSplitOfChild(i: nat, a: Kid, b: Kid, key: Key)
      requires i < bp.Length == |pivots| + 1
      modifies this
      ensures Value() == SplitParent(old(Value()), i, a, b, key) && fresh(bp)
    {
      var grown := Slide(bp, i, a, b);
      bp := grown;
      pivots := pivots[..i] + [key] + pivots[i..];
    }

    /** The end of ft_merge_child: child `i + 1` is removed, `a` stands for both. */
    method RemoveMergedChild(i: nat, a: Kid)
      requires i + 1 < bp.Length == |pivots| + 1
      modifies this
      ensures Value() == MergeParent(old(Value()), i, a) && fresh(bp)
    {
      ghost var n := Value();
      var shrunk := CloseGap(bp, i, a);
      assert bp[..i] == n.kids[..i] && bp[i + 2..] == n.kids[i + 2..];
      bp := shrunk;
      pivots := pivots[..i] + pivots[i + 1..];
    }

    /** ft_nonleaf_split: the right half of the children moves to `b`. */
    method Split(b: InnerNode) returns (key: Key)
      requires b != this && bp.Length == |pivots| + 1 && bp.Length >= 2
      modifies this, b
      ensures Value() == SplitLeft(old(Value()), SplitLoc(0, 0))
      ensures b.Value() == SplitRight(old(Value()), SplitLoc(0, 0), old(b.bn))
      ensures key == SplitPivot(old(Value()), SplitLoc(0, 0))
    {
      ghost var n := Value();
      var inA := bp.Length / 2;
      var right := CopyKids(bp, inA, bp.Length);
      var left := CopyKids(bp, 0, inA);
      assert |n.kids[inA..]| == right.Length && forall j :: 0 <= j < right.Length ==> n.kids[inA..][j] == right[j];
      assert right[..] == n.kids[inA..];
      assert left[..] == n.kids[..inA];
      key := pivots[inA - 1];
      b.pivots := pivots[inA..];
      pivots := pivots[..inA - 1];
      bp := left;
      b.bp, b.height, b.maxMsn := right, height, maxMsn;
    }

    /** maybe_merge_pinned_nonleaf_nodes: the children of `b`, behind a pivot that comes
        down from the parent. */
    method Merge(b: InnerNode, key: Key)
      requires b != this && bp.Length == |pivots| + 1 && b.bp.Length == |b.pivots| + 1
      modifies this, b
      ensures Value() == MergeInner(old(Value()), old(b.Value()), key)
    {
      ghost var n, nb := Value(), b.Value();
      var all := JoinKids(bp, b.bp);
      pivots := pivots[..bp.Length - 1] + [key] + pivots[bp.Length - 1..];
      pivots := pivots + b.pivots;
      assert pivots == n.pivots + [key] + nb.pivots;
      bp := all;
      if b.maxMsn > maxMsn {
        maxMsn := b.maxMsn;
      }
    }
  }

  method JoinKids(a: array<Kid>, b: array<Kid>) returns (all: array<Kid>)
    requires a.Length > 0
    ensures fresh(all) && all[..] == a[..] + b[..]
  {
    var some := a[0];
    all := new Kid[a.Length + b.Length](j reads a => if 0 <= j < a.Length then a[j] else some);
    for i := 0 to b.Length
      invariant forall j :: 0 <= j < a.Length ==> all[j] == a[j]
      invariant forall j :: 0 <= j < i ==> all[a.Length + j] == b[j]
    {
      all[a.Length + i] := b[i];
    }
  }
}
