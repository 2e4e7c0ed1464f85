/** How a nonleaf node takes in the split or the merge of its children. */
module Parents {
  import opened Keys
  import opened Messages
  import opened Nodes
  import opened Halves

  function InsertKey(ps: seq<Key>, i: nat, key: Key): seq<Key>
    requires i <= |ps|
  {
    ps[..i] + [key] + ps[i..]
  }

  function RemoveKey(ps: seq<Key>, i: nat): seq<Key>
    requires i < |ps|
  {
    ps[..i] + ps[i + 1..]
  }

  /** handle_split_of_child: child `i` gives way to `a` and `b`, with pivot `key`. */
  function SplitParent(n: Node, i: nat, a: Kid, b: Kid, key: Key): Node
    requires n.Inner? && i < |n.kids| == |n.pivots| + 1
  {
    n.(pivots := InsertKey(n.pivots, i, key), kids := n.kids[..i] + [a, b] + n.kids[i + 1..])
  }

  /** Children `i` and `i + 1` give way to `a`. */
  function MergeParent(n: Node, i: nat, a: Kid): Node
    requires n.Inner? && i + 1 < |n.kids| == |n.pivots| + 1
  {
    n.(pivots := RemoveKey(n.pivots, i), kids := n.kids[..i] + [a] + n.kids[i + 2..])
  }

  /** Children `i` and `i + 1` are replaced by `a` and `b`, with a new pivot. */
  function ShiftParent(n: Node, i: nat, a: Kid, b: Kid, key: Key): Node
    requires n.Inner? && i + 1 < |n.kids| == |n.pivots| + 1
  {
    n.(pivots := n.pivots[i := key], kids := n.kids[i := a][i + 1 := b])
  }

  lemma SplitParentShape(n: Node, i: nat, a: Kid, b: Kid, key: Key)
    requires n.Inner? && i < |n.kids| == |n.pivots| + 1
    ensures
      var n' := SplitParent(n, i, a, b, key);
      && n'.Inner? && n'.bn == n.bn && n'.height == n.height && n'.maxMsn == n.maxMsn
      && n'.pivots == InsertKey(n.pivots, i, key)
      && |n'.kids| == |n.kids| + 1 && n'.kids[i] == a && n'.kids[i + 1] == b
      && (forall j :: 0 <= j < i ==> n'.kids[j] == n.kids[j])
      && (forall j :: i + 1 < j < |n'.kids| ==> n'.kids[j] == n.kids[j - 1])
  {
  }

  lemma MergeParentShape(n: Node, i: nat, a: Kid)
    requires n.Inner? && i + 1 < |n.kids| == |n.pivots| + 1
    ensures
      var n' := MergeParent(n, i, a);
      && n'.Inner? && n'.bn == n.bn && n'.height == n.height && n'.maxMsn == n.maxMsn
      && n'.pivots == RemoveKey(n.pivots, i)
      && |n'.kids| == |n.kids| - 1 && n'.kids[i] == a
      && (forall j :: 0 <= j < i ==> n'.kids[j] == n.kids[j])
      && (forall j :: i < j < |n'.kids| ==> n'.kids[j] == n.kids[j + 1])
  {
  }

  // ---------------------------------------------------------- bounds of kids

  lemma InsertPivot(ps: seq<Key>, i: nat, key: Key, lo: Option<Key>, hi: Option<Key>)
    requires i <= |ps| && PivotsOk(ps, lo, hi) && Inside(LowerOf(ps, lo, i), UpperOf(ps, hi, i), key)
    ensures PivotsOk(InsertKey(ps, i, key), lo, hi)
  {
  }

  lemma InsertBounds(ps: seq<Key>, i: nat, key: Key, lo: Option<Key>, hi: Option<Key>, j: nat)
    requires i <= |ps| && j <= |ps| + 1
    ensures |InsertKey(ps, i, key)| == |ps| + 1
    ensures LowerOf(InsertKey(ps, i, key), lo, j)
         == if j <= i then LowerOf(ps, lo, j) else if j == i + 1 then Some(key) else LowerOf(ps, lo, j - 1)
    ensures UpperOf(InsertKey(ps, i, key), hi, j)
         == if j < i then UpperOf(ps, hi, j) else if j == i then Some(key) else UpperOf(ps, hi, j - 1)
  {
  }

  lemma RemoveBounds(ps: seq<Key>, i: nat, lo: Option<Key>, hi: Option<Key>, j: nat)
    requires i < |ps| && j <= |ps| - 1
    ensures |RemoveKey(ps, i)| == |ps| - 1
    ensures LowerOf(RemoveKey(ps, i), lo, j) == if j <= i then LowerOf(ps, lo, j) else LowerOf(ps, lo, j + 1)
    ensures UpperOf(RemoveKey(ps, i), hi, j) == if j < i then UpperOf(ps, hi, j) else UpperOf(ps, hi, j + 1)
  {
  }

  lemma RemovePivot(ps: seq<Key>, i: nat, lo: Option<Key>, hi: Option<Key>)
    requires i < |ps| && PivotsOk(ps, lo, hi)
    ensures PivotsOk(RemoveKey(ps, i), lo, hi)
  {
  }

  ghost predicate KidFits(e: Kid, lo: Option<Key>, hi: Option<Key>, h: nat, maxMsn: nat) {
    EdgeOk(e, lo, hi, h) && BufferAtMost(e, maxMsn)
  }

  lemma SplitParentOk(n: Node, i: nat, a: Kid, b: Kid, key: Key, lo: Option<Key>, hi: Option<Key>)
    requires n.Inner? && i < |n.kids| == |n.pivots| + 1 && NodeOk(n, lo, hi)
    requires Inside(LowerOf(n.pivots, lo, i), UpperOf(n.pivots, hi, i), key)
    requires KidFits(a, LowerOf(n.pivots, lo, i), Some(key), n.height - 1, n.maxMsn)
    requires KidFits(b, Some(key), UpperOf(n.pivots, hi, i), n.height - 1, n.maxMsn)
    ensures NodeOk(SplitParent(n, i, a, b, key), lo, hi)
  {
    hide EdgeOk, BufferAtMost, SplitParent, InsertKey;
    InsertPivot(n.pivots, i, key, lo, hi);
    SplitParentShape(n, i, a, b, key);
    var n' := SplitParent(n, i, a, b, key);
    InsertBounds(n.pivots, i, key, lo, hi, 0);
    forall j | 0 <= j < |n'.kids|
      ensures EdgeOk(n'.kids[j], LowerOf(n'.pivots, lo, j), UpperOf(n'.pivots, hi, j), n.height - 1)
      ensures BufferAtMost(n'.kids[j], n.maxMsn)
    {
      InsertBounds(n.pivots, i, key, lo, hi, j);
    }
  }

  lemma MergeParentOk(n: Node, i: nat, a: Kid, lo: Option<Key>, hi: Option<Key>)
    requires n.Inner? && i + 1 < |n.kids| == |n.pivots| + 1 && NodeOk(n, lo, hi)
    requires KidFits(a, LowerOf(n.pivots, lo, i), UpperOf(n.pivots, hi, i + 1), n.height - 1, n.maxMsn)
    ensures NodeOk(MergeParent(n, i, a), lo, hi)
  {
    hide EdgeOk, BufferAtMost, MergeParent, RemoveKey;
    RemovePivot(n.pivots, i, lo, hi);
    MergeParentShape(n, i, a);
    var n' := MergeParent(n, i, a);
    RemoveBounds(n.pivots, i, lo, hi, 0);
    forall j | 0 <= j < |n'.kids|
      ensures EdgeOk(n'.kids[j], LowerOf(n'.pivots, lo, j), UpperOf(n'.pivots, hi, j), n.height - 1)
      ensures BufferAtMost(n'.kids[j], n.maxMsn)
    {
      RemoveBounds(n.pivots, i, lo, hi, j);
    }
  }

  /** Replacing a pair of children is a merge followed by a split. */
  lemma ShiftIsMergeSplit(n: Node, i: nat, a: Kid, b: Kid, c: Kid, key: Key)
    requires n.Inner? && i + 1 < |n.kids| == |n.pivots| + 1
    ensures ShiftParent(n, i, a, b, key) == SplitParent(MergeParent(n, i, c), i, a, b, key)
  {
  }

  // --------------------------------------------------- messages above, locks

  lemma SplitParentAdmits(n: Node, i: nat, a: Kid, b: Kid, key: Key, c: nat)
    requires n.Inner? && i < |n.kids| == |n.pivots| + 1
    requires Admits(n, c) && EdgeAdmits(a, c) && EdgeAdmits(b, c)
    ensures Admits(SplitParent(n, i, a, b, key), c)
  {
  }

  lemma MergeParentAdmits(n: Node, i: nat, a: Kid, c: nat)
    requires n.Inner? && i + 1 < |n.kids| == |n.pivots| + 1
    requires Admits(n, c) && EdgeAdmits(a, c)
    ensures Admits(MergeParent(n, i, a), c)
  {
  }

  lemma SplitParentSettled(n: Node, i: nat, a: Kid, b: Kid, key: Key, x: nat)
    requires n.Inner? && i < |n.kids| == |n.pivots| + 1
    requires Settled(n, x) && EdgeSettled(a, x) && EdgeSettled(b, x)
    ensures Settled(SplitParent(n, i, a, b, key), x)
  {
  }

  lemma MergeParentSettled(n: Node, i: nat, a: Kid, x: nat)
    requires n.Inner? && i + 1 < |n.kids| == |n.pivots| + 1
    requires Settled(n, x) && EdgeSettled(a, x)
    ensures Settled(MergeParent(n, i, a), x)
  {
  }

  // ----------------------------------------------------------------- reading

  lemma InsertRoute(ps: seq<Key>, i: nat, key: Key, k: Key)
    requires i <= |ps| && Increasing(ps) && Increasing(InsertKey(ps, i, key))
    ensures
      var r := Route(ps, k);
      Route(InsertKey(ps, i, key), k) == if r < i || (r == i && k <= key) then r else r + 1
  {
    hide Route;
    var r, qs := Route(ps, k), InsertKey(ps, i, key);
    RouteUnique(qs, None, None, k, if r < i || (r == i && k <= key) then r else r + 1);
  }

  lemma RemoveRoute(ps: seq<Key>, i: nat, k: Key)
    requires i < |ps| && Increasing(ps) && Increasing(RemoveKey(ps, i))
    ensures
      var r := Route(ps, k);
      Route(RemoveKey(ps, i), k) == if r <= i then r else r - 1
  {
    hide Route;
    var r, qs := Route(ps, k), RemoveKey(ps, i);
    RouteUnique(qs, None, None, k, if r <= i then r else r - 1);
  }

  lemma SplitParentProbe(n: Node, i: nat, a: Kid, b: Kid, key: Key, lo: Option<Key>, hi: Option<Key>, k: Key)
    requires n.Inner? && i < |n.kids| == |n.pivots| + 1 && PivotsOk(n.pivots, lo, hi)
    requires Inside(LowerOf(n.pivots, lo, i), UpperOf(n.pivots, hi, i), key)
    ensures Probe(SplitParent(n, i, a, b, key), k)
         == if Route(n.pivots, k) != i then Probe(n, k)
            else if k <= key then ProbeEdge(a, k) else ProbeEdge(b, k)
  {
    hide Probe, ProbeEdge, Route, SplitParent, InsertKey;
    InsertPivot(n.pivots, i, key, lo, hi);
    InsertRoute(n.pivots, i, key, k);
    SplitParentShape(n, i, a, b, key);
    var n', r := SplitParent(n, i, a, b, key), Route(n.pivots, k);
    InnerProbe(n, k, r);
    if r < i {
      InnerProbe(n', k, r);
    } else if r > i {
      InnerProbe(n', k, r + 1);
    } else {
      InnerProbe(n', k, if k <= key then i else i + 1);
    }
  }

  lemma MergeParentProbe(n: Node, i: nat, a: Kid, lo: Option<Key>, hi: Option<Key>, k: Key)
    requires n.Inner? && i + 1 < |n.kids| == |n.pivots| + 1 && PivotsOk(n.pivots, lo, hi)
    ensures Probe(MergeParent(n, i, a), k)
         == if Route(n.pivots, k) == i || Route(n.pivots, k) == i + 1 then ProbeEdge(a, k) else Probe(n, k)
  {
    hide Probe, ProbeEdge, Route, MergeParent, RemoveKey;
    RemovePivot(n.pivots, i, lo, hi);
    RemoveRoute(n.pivots, i, k);
    MergeParentShape(n, i, a);
    var n', r := MergeParent(n, i, a), Route(n.pivots, k);
    InnerProbe(n, k, r);
    if r < i {
      InnerProbe(n', k, r);
    } else if r <= i + 1 {
      InnerProbe(n', k, i);
    } else {
      InnerProbe(n', k, r - 1);
    }
  }
}
