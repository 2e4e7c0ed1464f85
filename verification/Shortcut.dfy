/** Inserting directly into the rightmost leaf: ft_maybe_insert_into_rightmost_leaf. */
module Shortcut {
  import opened Keys
  import opened Messages
  import opened Entries
  import opened Nodes
  import opened PutMsg
  import opened Leaves
  import opened Splitting
  import opened Paths
  import opened Query
  import opened Reshape
  import opened Readings
  import opened Protocol
  import opened Pins
  import opened Routing
  import opened Rightmost

  // ------------------------------------------------- keys at the leaf's ends

  lemma FlatEnds(n: Node, i: nat)
    requires n.Leaf? && i < |n.bases| && |n.bases[i].entries| > 0
    requires forall x :: 0 <= x < i ==> |n.bases[x].entries| == 0
    ensures |Flat(n.bases)| > 0 && Flat(n.bases)[0] == n.bases[i].entries[0]
  {
    hide Flat;
    EmptyFront(n, i);
    BeforePrefix(n, i, 1);
    assert Before(n, i, 1) == [n.bases[i].entries[0]];
  }

  lemma {:induction false} EmptyFront(n: Node, i: nat)
    requires n.Leaf? && i <= |n.bases| && forall x :: 0 <= x < i ==> |n.bases[x].entries| == 0
    ensures Flat(n.bases[..i]) == []
  {
    if i > 0 {
      EmptyFront(n, i - 1);
      BeforeAll(n, i - 1);
    }
  }

  lemma {:induction false} EmptyBack(n: Node, i: nat)
    requires n.Leaf? && i <= |n.bases| && forall x :: i <= x < |n.bases| ==> |n.bases[x].entries| == 0
    ensures Flat(n.bases) == Flat(n.bases[..i])
    decreases |n.bases| - i
  {
    if i == |n.bases| {
      assert n.bases[..i] == n.bases;
    } else {
      EmptyBack(n, i + 1);
      BeforeAll(n, i);
      assert n.bases[i].entries == [];
    }
  }

  /** ft_leaf_leftmost_le_and_key. */
  method LeftmostEntry(n: Node) returns (r: Option<Entry>)
    requires n.Leaf?
    ensures r == if |Flat(n.bases)| == 0 then None else Some(Flat(n.bases)[0])
  {
    for i := 0 to |n.bases|
      invariant forall x :: 0 <= x < i ==> |n.bases[x].entries| == 0
    {
      if |n.bases[i].entries| > 0 {
        FlatEnds(n, i);
        return Some(n.bases[i].entries[0]);
      }
    }
    EmptyFront(n, |n.bases|);
    assert n.bases[..|n.bases|] == n.bases;
    return None;
  }

  /** ft_leaf_rightmost_le_and_key. */
  method RightmostEntry(n: Node) returns (r: Option<Entry>)
    requires n.Leaf?
    ensures r == if |Flat(n.bases)| == 0 then None else Some(Flat(n.bases)[|Flat(n.bases)| - 1])
  {
    var i := |n.bases|;
    while i > 0
      invariant 0 <= i <= |n.bases|
      invariant forall x :: i <= x < |n.bases| ==> |n.bases[x].entries| == 0
    {
      i := i - 1;
      var es := n.bases[i].entries;
      if |es| > 0 {
        EmptyBack(n, i + 1);
        BeforeAll(n, i);
        assert es[..|es|] == es;
        return Some(es[|es| - 1]);
      }
    }
    EmptyBack(n, 0);
    return None;
  }

  // ------------------------------------------------------- relative position

  function First(n: Node): Key
    requires n.Leaf? && |Flat(n.bases)| > 0
  {
    Flat(n.bases)[0].key
  }

  function Last(n: Node): Key
    requires n.Leaf? && |Flat(n.bases)| > 0
  {
    Flat(n.bases)[|Flat(n.bases)| - 1].key
  }

  /** Where the key lies: left of the leaf's entries or unknown, among them, or
      right of them. */
  function Position3(n: Node, key: Key): int
    requires n.Leaf?
  {
    if |Flat(n.bases)| == 0 || key < First(n) then -1 else if key <= Last(n) then 0 else 1
  }

  /** The basement the key is sent to; -1 leaves the choice to the leaf. */
  function Target(n: Node, key: Key, unique: bool): int
    requires n.Leaf? && |n.bases| > 0
  {
    if |Flat(n.bases)| == 0 || key < First(n) then -1
    else if key >= Last(n) then |n.bases| - 1
    else if key == First(n) then 0
    else if unique then Route(Used(n), key)
    else -1
  }

  predicate Live(v: Option<LeafEntry>) {
    v.Some? && !v.value.deleted
  }

  /** ft_leaf_get_relative_key_pos. */
  method RelativeKeyPos(n: Node, key: Key, unique: bool, lo: Option<Key>, hi: Option<Key>)
      returns (pos: int, found: bool, target: int)
    requires n.Leaf? && NodeOk(n, lo, hi)
    ensures pos == Position3(n, key) && target == Target(n, key, unique)
    ensures found <==> unique && pos >= 0 && Live(Lookup(Flat(n.bases), key))
  {
    hide Flat, Lookup, NodeOk;
    ghost var all := Flat(n.bases);
    LeafFlat(n, lo, hi, key);
    found, target := false, -1;
    var last := RightmostEntry(n);
    if last.None? {
      return -1, false, -1;
    }
    LookupAt(all, |all| - 1);
    LookupAt(all, 0);
    if key > last.value.key {
      pos, target := 1, |n.bases| - 1;
      assert forall i :: 0 <= i < |all| ==> all[i].key <= all[|all| - 1].key;
      LookupAbsent(all, key);
    } else if key == last.value.key {
      found := unique && !last.value.le.deleted;
      pos, target := 0, |n.bases| - 1;
    } else {
      var first := LeftmostEntry(n);
      if key > first.value.key {
        if unique {
          LeafRoute(n, lo, hi);
          var i := WhichChild(n.pivots, |n.bases|, key);
          target := i;
          LeafLookup(n, lo, hi, key);
          var es := n.bases[i].entries;
          var x, hit := FindZero(es, key);
          LookupIs(es, key);
          found := hit && !es[x].le.deleted;
        }
        pos := 0;
      } else if key == first.value.key {
        found := unique && !first.value.le.deleted;
        pos, target := 0, 0;
      } else {
        pos := -1;
      }
    }
  }

  lemma LookupIs(es: seq<Entry>, k: Key)
    ensures
      var i := Position(es, k);
      Lookup(es, k) == if i < |es| && es[i].key == k then Some(es[i].le) else None
  {
  }

  lemma LeafRoute(n: Node, lo: Option<Key>, hi: Option<Key>)
    requires n.Leaf? && NodeOk(n, lo, hi)
    ensures 0 < |n.bases| <= |n.pivots| + 1 && n.pivots[..|n.bases| - 1] == Used(n) && Increasing(Used(n))
    ensures |n.bases| == |Used(n)| + 1
  {
  }

  lemma LeafLookup(n: Node, lo: Option<Key>, hi: Option<Key>, key: Key)
    requires n.Leaf? && NodeOk(n, lo, hi)
    ensures Route(Used(n), key) < |n.bases|
    ensures Sorted(n.bases[Route(Used(n), key)].entries)
    ensures Lookup(Flat(n.bases), key) == Lookup(n.bases[Route(Used(n), key)].entries, key)
  {
    hide Flat, Lookup;
    LeafBasesOk(n, lo, hi);
    FlatLookup(n.bases, Used(n), lo, hi, key);
  }

  // ------------------------------------------------- is it the right basement?

  /** The shortcut puts the message into the leaf: the key is not left of the leaf's
      entries, and a unique insert does not find it live there. */
  predicate Inserts(n: Node, key: Key, unique: bool)
    requires n.Leaf?
  {
    Position3(n, key) >= 0 && !(unique && Live(Lookup(Flat(n.bases), key)))
  }

  /** Keys sent to the last basement belong there: it has entries, or the only key
      that does not belong there cannot be inserted. */
  predicate LastSafe(n: Node, unique: bool)
    requires n.Leaf? && |n.bases| > 0 && |Flat(n.bases)| > 0
  {
    || |n.bases[|n.bases| - 1].entries| > 0
    || (unique && Live(Lookup(Flat(n.bases), Last(n))) && |Used(n)| > 0 && Used(n)[|Used(n)| - 1] == Last(n))
  }

  /** The key sent to the first basement belongs there, or cannot be inserted. */
  predicate FirstSafe(n: Node, unique: bool)
    requires n.Leaf? && |n.bases| > 0 && |Flat(n.bases)| > 0
  {
    |n.bases[0].entries| > 0 || First(n) == Last(n) || (unique && Live(Lookup(Flat(n.bases), First(n))))
  }

  /** The leaves for which the chosen basement is always the one a reader of the
      key looks at. */
  predicate SafeFor(n: Node, unique: bool)
    requires n.Leaf? && |n.bases| > 0
  {
    |n.bases| == 1 || |Flat(n.bases)| == 0 || (LastSafe(n, unique) && FirstSafe(n, unique))
  }

  /** The key is sent to the basement that routing would choose. */
  predicate RightBasement(n: Node, key: Key, unique: bool)
    requires n.Leaf? && |n.bases| > 0
  {
    Target(n, key, unique) == -1 || Target(n, key, unique) == Route(Used(n), key)
  }

  lemma LastInLast(n: Node, lo: Option<Key>, hi: Option<Key>)
    requires n.Leaf? && NodeOk(n, lo, hi) && |Flat(n.bases)| > 0
    ensures |n.bases[|n.bases| - 1].entries| > 0 <==> Route(Used(n), Last(n)) == |n.bases| - 1
    ensures |n.bases[0].entries| > 0 <==> Route(Used(n), First(n)) == 0
  {
    hide Flat, Lookup;
    LeafRoute(n, lo, hi);
    LeafFlat(n, lo, hi, 0.0);
    var all := Flat(n.bases);
    LookupAt(all, 0);
    LookupAt(all, |all| - 1);
    LeafLookup(n, lo, hi, First(n));
    LeafLookup(n, lo, hi, Last(n));
    EndsInside(n, lo, hi);
    if |n.bases[|n.bases| - 1].entries| == 0 {
      LookupAbsent(n.bases[|n.bases| - 1].entries, Last(n));
    }
    if |n.bases[0].entries| == 0 {
      LookupAbsent(n.bases[0].entries, First(n));
    }
  }

  lemma EndsInside(n: Node, lo: Option<Key>, hi: Option<Key>)
    requires n.Leaf? && NodeOk(n, lo, hi) && |Flat(n.bases)| > 0
    ensures
      var z, es := |n.bases| - 1, n.bases[|n.bases| - 1].entries;
      |es| > 0 ==> Last(n) == es[|es| - 1].key && Route(Used(n), Last(n)) == z
    ensures |n.bases[0].entries| > 0 ==> First(n) == n.bases[0].entries[0].key && Route(Used(n), First(n)) == 0
  {
    hide Flat;
    LeafRoute(n, lo, hi);
    LeafBasesOk(n, lo, hi);
    var z := |n.bases| - 1;
    if |n.bases[z].entries| > 0 {
      var es := n.bases[z].entries;
      EmptyBack(n, z + 1);
      BeforeAll(n, z);
      assert es[..|es|] == es;
      RouteUnique(Used(n), lo, hi, es[|es| - 1].key, z);
    }
    if |n.bases[0].entries| > 0 {
      FlatEnds(n, 0);
      RouteUnique(Used(n), lo, hi, n.bases[0].entries[0].key, 0);
    }
  }

  /** A key between the leaf's last key and the last pivot is sent to the wrong
      basement, and so is the last key itself if the last basement is empty. */
  lemma LastBasement(n: Node, lo: Option<Key>, hi: Option<Key>, key: Key)
    requires n.Leaf? && NodeOk(n, lo, hi) && |n.bases| > 1 && |Flat(n.bases)| > 0 && Last(n) <= key
    ensures |Used(n)| == |n.bases| - 1
    ensures Route(Used(n), key) == |n.bases| - 1 <==> Used(n)[|n.bases| - 2] < key
    ensures |n.bases[|n.bases| - 1].entries| > 0 <==> Used(n)[|n.bases| - 2] < Last(n)
  {
    hide Flat, NodeOk, Lookup;
    LeafRoute(n, lo, hi);
    LastInLast(n, lo, hi);
    var z := |n.bases| - 1;
    if Used(n)[z - 1] < key {
      RouteUnique(Used(n), None, None, key, z);
    }
    if Used(n)[z - 1] < Last(n) {
      RouteUnique(Used(n), None, None, Last(n), z);
    }
  }

  lemma LastKeyFound(n: Node, lo: Option<Key>, hi: Option<Key>, key: Key)
    requires n.Leaf? && NodeOk(n, lo, hi) && |Flat(n.bases)| > 0 && Last(n) < key
    ensures First(n) <= Last(n) && !Live(Lookup(Flat(n.bases), key))
  {
    hide Flat, Lookup;
    LeafFlat(n, lo, hi, key);
    var all := Flat(n.bases);
    assert forall i :: 0 <= i < |all| ==> all[i].key <= all[|all| - 1].key;
    LookupAbsent(all, key);
  }

  lemma EndsOrdered(n: Node, lo: Option<Key>, hi: Option<Key>)
    requires n.Leaf? && NodeOk(n, lo, hi) && |Flat(n.bases)| > 0
    ensures First(n) <= Last(n)
  {
    hide Flat, Lookup;
    LeafFlat(n, lo, hi, 0.0);
  }

  lemma SafeRight(n: Node, lo: Option<Key>, hi: Option<Key>, key: Key, unique: bool)
    requires n.Leaf? && NodeOk(n, lo, hi) && SafeFor(n, unique) && Inserts(n, key, unique)
    ensures RightBasement(n, key, unique)
  {
    hide Flat, Lookup, NodeOk;
    LeafRoute(n, lo, hi);
    if |n.bases| > 1 {
      LastInLast(n, lo, hi);
      if key >= Last(n) {
        LastBasement(n, lo, hi, key);
      }
    }
  }

  /** A key that an unsafe leaf sends to the wrong basement. */
  lemma UnsafeWrong(n: Node, lo: Option<Key>, hi: Option<Key>, unique: bool) returns (key: Key)
    requires n.Leaf? && NodeOk(n, lo, hi) && !SafeFor(n, unique)
    ensures Inserts(n, key, unique) && !RightBasement(n, key, unique)
  {
    hide Flat, Lookup, NodeOk, Route;
    LeafRoute(n, lo, hi);
    LastInLast(n, lo, hi);
    EndsOrdered(n, lo, hi);
    if LastSafe(n, unique) {
      key := First(n);
    } else {
      var p := Used(n)[|n.bases| - 2];
      LastBasement(n, lo, hi, Last(n));
      if unique && Live(Lookup(Flat(n.bases), Last(n))) {
        key := p;
        LastKeyFound(n, lo, hi, p);
        LastBasement(n, lo, hi, p);
      } else {
        key := Last(n);
      }
    }
  }

  /** Every key that the shortcut inserts goes to the basement that routing would
      choose, exactly on safe leaves. */
  lemma ShortcutBasement(n: Node, lo: Option<Key>, hi: Option<Key>, unique: bool)
    requires n.Leaf? && NodeOk(n, lo, hi)
    ensures (forall key :: Inserts(n, key, unique) ==> RightBasement(n, key, unique)) <==> SafeFor(n, unique)
  {
    hide Flat, Inserts, RightBasement, SafeFor;
    LeafRoute(n, lo, hi);
    if SafeFor(n, unique) {
      forall key | Inserts(n, key, unique) ensures RightBasement(n, key, unique) {
        SafeRight(n, lo, hi, key, unique);
      }
    } else {
      var key := UnsafeWrong(n, lo, hi, unique);
    }
  }

  /** A leaf put with a given basement, as toku_ft_leaf_apply_msg does it when the
      caller names the target. */
  function PutInto(n: Node, i: nat, m: Message): Node
    requires n.Leaf? && i < |n.bases|
  {
    n.(dirty := true, maxMsn := Max(n.maxMsn, m.msn), bases := n.bases[i := BasementPut(n.bases[i], m)])
  }

  // ------------------------------------------------- the shortcut is promotion

  /** The path of last children. */
  function Spine(e: Kid): Path
    decreases e
  {
    if e.child.Inner? && |e.child.kids| > 0 then
      [|e.child.kids| - 1] + Spine(e.child.kids[|e.child.kids| - 1])
    else []
  }

  lemma {:induction false} SpineOk(top: Kid)
    requires NoEmptyNode(top.child)
    ensures ValidPath(top, Spine(top)) && AllLast(top, Spine(top)) && EdgeAt(top, Spine(top)).child.Leaf?
    ensures RightClear(top) ==> EmptyPath(top, Spine(top))
    decreases top
  {
    if top.child.Inner? {
      var i := |top.child.kids| - 1;
      SpineOk(top.child.kids[i]);
      assert Spine(top)[1..] == Spine(top.child.kids[i]);
    }
  }

  lemma {:induction false} SpineHi(top: Kid, path: Path, lo: Option<Key>, hi: Option<Key>, h: nat)
    requires ValidPath(top, path) && AllLast(top, path) && EdgeOk(top, lo, hi, h)
    ensures HiAt(top, path, hi) == hi
    decreases path
  {
    hide EdgeOk;
    if |path| > 0 {
      KidOk(top, path[0], lo, hi, h);
      SpineHi(top.child.kids[path[0]], path[1..], LowerOf(top.child.pivots, lo, path[0]),
              UpperOf(top.child.pivots, hi, path[0]), h - 1);
    }
  }

  /** With a positive score and a key not left of the leaf's entries, root routing
      leads to the leaf that the rightmost blocknum names, through empty buffers:
      inserting there is a promotion that the protocol allows. */
  lemma ShortcutIsPromotion(s: State, score: nat, key: Key, effect: (Key, Option<LeafEntry>) -> Option<LeafEntry>)
    requires TreeOk(s) && RightOk(s, score) && score > 0
    requires ValidPath(s.top, Spine(s.top)) && FreePath(s.top, Spine(s.top))
    requires EdgeAt(s.top, Spine(s.top)).child.Leaf? && Position3(EdgeAt(s.top, Spine(s.top)).child, key) >= 0
    ensures EdgeAt(s.top, Spine(s.top)).child.bn == s.rightmost.value
    ensures Routed(s.top, Spine(s.top), key)
    ensures Enabled(s, Inject(Spine(s.top), Once(key), effect))
  {
    hide EdgeOk, EdgeSettled, Spine, RightClear, RightBn, Bns, Flat;
    var path, h := Spine(s.top), Height(s.top.child);
    var n := EdgeAt(s.top, path).child;
    TopNoEmptyNode(s);
    SpineOk(s.top);
    RightmostConfirmed(s, score, path);
    AtOk(s.top, path, None, None, h);
    var lo, hi := LoAt(s.top, path, None), HiAt(s.top, path, None);
    LeafEdgeNode(EdgeAt(s.top, path), lo, hi, h - |path|);
    LeafFlat(n, lo, hi, key);
    SpineHi(s.top, path, None, None, h);
    assert InRange(lo, hi, Flat(n.bases)[0].key);
    InRangeRouted(s.top, path, None, None, h, key);
  }

  /** The uniqueness check on the leaf alone decides what a query would see. */
  lemma ShortcutSeesTheValue(s: State, score: nat, key: Key)
    requires TreeOk(s) && RightOk(s, score) && score > 0
    requires ValidPath(s.top, Spine(s.top)) && FreePath(s.top, Spine(s.top))
    requires EdgeAt(s.top, Spine(s.top)).child.Leaf? && Position3(EdgeAt(s.top, Spine(s.top)).child, key) >= 0
    ensures View(s, key) == Lookup(Flat(EdgeAt(s.top, Spine(s.top)).child.bases), key)
  {
    hide EdgeOk, EdgeSettled, Spine, RightClear, RightBn, Bns, Flat, Lookup, ProbeEdge, Probe, NodeOk;
    var path, h := Spine(s.top), Height(s.top.child);
    var e := EdgeAt(s.top, path);
    ShortcutIsPromotion(s, score, key, (k, v) => v);
    TopNoEmptyNode(s);
    SpineOk(s.top);
    ClearPath(s.top, path);
    ProbeAt(s.top, path, key);
    RelEmpty(key);
    LeafEdgeProbe(e, key);
    EmptyEdgeProbe(e, key);
    AtOk(s.top, path, None, None, h);
    LeafEdgeNode(e, LoAt(s.top, path, None), HiAt(s.top, path, None), h - |path|);
    LeafFlat(e.child, LoAt(s.top, path, None), HiAt(s.top, path, None), key);
    assert ProbeEdge(s.top, key).pend == [];
  }
}
