/** The keys a tree is made of. Reorganizing a tree never makes a new one: every
    pivot comes from a pivot, a leaf entry or a message that was there before. */
module Pool {
  import opened Keys
  import opened Messages
  import opened Entries
  import opened Nodes
  import opened PutMsg
  import opened Leaves
  import opened Paths
  import opened Halves
  import opened Parents
  import opened Edges
  import opened Reshape

  ghost predicate PivotsIn(ps: seq<Key>, pool: set<Key>) {
    forall i :: 0 <= i < |ps| ==> ps[i] in pool
  }

  ghost predicate EntriesIn(es: seq<Entry>, pool: set<Key>) {
    forall i :: 0 <= i < |es| ==> es[i].key in pool
  }

  ghost predicate BasementIn(b: Basement, pool: set<Key>) {
    EntriesIn(b.entries, pool) && EntriesIn(b.disk, pool)
  }

  ghost predicate MessageIn(m: Message, pool: set<Key>) {
    m.scope.Once? ==> m.scope.key in pool
  }

  ghost predicate MessagesIn(ms: seq<Message>, pool: set<Key>) {
    forall i :: 0 <= i < |ms| ==> MessageIn(ms[i], pool)
  }

  /** Every key anywhere in the node is in the pool. */
  ghost predicate NodeIn(n: Node, pool: set<Key>) {
    match n
    case Leaf(_, _, _, pivots, bases) =>
      PivotsIn(pivots, pool) && forall i :: 0 <= i < |bases| ==> BasementIn(bases[i], pool)
    case Inner(_, _, _, pivots, kids) =>
      PivotsIn(pivots, pool) && forall i :: 0 <= i < |kids| ==> EdgeIn(kids[i], pool)
  }

  ghost predicate EdgeIn(e: Kid, pool: set<Key>) {
    NodeIn(e.child, pool) && MessagesIn(e.buf, pool) && MessagesIn(Inflight(e), pool)
  }

  // ------------------------------------------------------ every tree has one

  ghost function MessageKeys(ms: seq<Message>): set<Key> {
    set i | 0 <= i < |ms| && ms[i].scope.Once? :: ms[i].scope.key
  }

  ghost function BasementKeys(b: Basement): set<Key> {
    (set i | 0 <= i < |b.entries| :: b.entries[i].key) + (set i | 0 <= i < |b.disk| :: b.disk[i].key)
  }

  ghost function BasementsKeys(bs: seq<Basement>): set<Key> {
    if |bs| == 0 then {} else BasementsKeys(bs[..|bs| - 1]) + BasementKeys(bs[|bs| - 1])
  }

  ghost function KidsKeys(kids: seq<Kid>): set<Key> {
    if |kids| == 0 then {} else KidsKeys(kids[..|kids| - 1]) + EdgeKeys(kids[|kids| - 1])
  }

  ghost function NodeKeys(n: Node): set<Key> {
    (set i | 0 <= i < |n.pivots| :: n.pivots[i])
    + if n.Leaf? then BasementsKeys(n.bases) else KidsKeys(n.kids)
  }

  ghost function EdgeKeys(e: Kid): set<Key> {
    NodeKeys(e.child) + MessageKeys(e.buf) + MessageKeys(Inflight(e))
  }

  lemma {:induction false} BasementsKeysIn(bs: seq<Basement>, pool: set<Key>)
    requires BasementsKeys(bs) <= pool
    ensures forall i :: 0 <= i < |bs| ==> BasementIn(bs[i], pool)
  {
    if |bs| > 0 {
      var b := bs[|bs| - 1];
      BasementsKeysIn(bs[..|bs| - 1], pool);
      assert forall i :: 0 <= i < |b.entries| ==> b.entries[i].key in BasementKeys(b);
      assert forall i :: 0 <= i < |b.disk| ==> b.disk[i].key in BasementKeys(b);
    }
  }

  lemma {:induction false} KidsKeysIn(kids: seq<Kid>, pool: set<Key>)
    requires KidsKeys(kids) <= pool
    ensures forall i :: 0 <= i < |kids| ==> EdgeIn(kids[i], pool)
    decreases kids
  {
    hide EdgeIn, EdgeKeys;
    if |kids| > 0 {
      KidsKeysIn(kids[..|kids| - 1], pool);
      EdgeKeysIn(kids[|kids| - 1], pool);
    }
  }

  /** The keys of a finite tree form a pool for it. */
  lemma {:induction false} EdgeKeysIn(e: Kid, pool: set<Key>)
    requires EdgeKeys(e) <= pool
    ensures EdgeIn(e, pool)
    decreases e
  {
    var n := e.child;
    assert forall i :: 0 <= i < |n.pivots| ==> n.pivots[i] in NodeKeys(n);
    if n.Leaf? {
      BasementsKeysIn(n.bases, pool);
    } else {
      KidsKeysIn(n.kids, pool);
    }
    assert forall i :: 0 <= i < |e.buf| && e.buf[i].scope.Once? ==> e.buf[i].scope.key in MessageKeys(e.buf);
    var fl := Inflight(e);
    assert forall i :: 0 <= i < |fl| && fl[i].scope.Once? ==> fl[i].scope.key in MessageKeys(fl);
  }

  lemma {:induction false} EdgeInMore(e: Kid, pool: set<Key>, more: set<Key>)
    requires EdgeIn(e, pool) && pool <= more
    ensures EdgeIn(e, more)
    decreases e
  {
    var n := e.child;
    if n.Leaf? {
      assert forall i :: 0 <= i < |n.bases| ==> BasementIn(n.bases[i], pool);
    } else {
      forall i | 0 <= i < |n.kids| ensures EdgeIn(n.kids[i], more) {
        EdgeInMore(n.kids[i], pool, more);
      }
    }
    assert forall i :: 0 <= i < |e.buf| ==> MessageIn(e.buf[i], pool);
    assert forall i :: 0 <= i < |Inflight(e)| ==> MessageIn(Inflight(e)[i], pool);
  }

  // ------------------------------------------------------------ putting down

  lemma StoreIn(es: seq<Entry>, k: Key, v: Option<LeafEntry>, pool: set<Key>)
    requires EntriesIn(es, pool) && k in pool
    ensures EntriesIn(Store(es, k, v), pool)
  {
  }

  lemma {:induction false} StoreEachIn(es: seq<Entry>, m: Message, pool: set<Key>)
    requires EntriesIn(es, pool)
    ensures EntriesIn(StoreEach(es, m), pool)
  {
    if |es| > 0 {
      StoreEachIn(es[..|es| - 1], m, pool);
    }
  }

  lemma BasementPutIn(b: Basement, m: Message, pool: set<Key>)
    requires BasementIn(b, pool) && MessageIn(m, pool)
    ensures BasementIn(BasementPut(b, m), pool)
  {
    match m.scope
    case Once(k) => StoreIn(b.entries, k, m.effect(k, Lookup(b.entries, k)), pool);
    case All => StoreEachIn(b.entries, m, pool);
    case Nothing =>
  }

  lemma PutIn(n: Node, m: Message, pool: set<Key>)
    requires NodeIn(n, pool) && MessageIn(m, pool)
    ensures NodeIn(Put(n, m), pool)
  {
    hide BasementIn, BasementPut;
    var n' := Put(n, m);
    if n.Leaf? {
      forall i | 0 <= i < |n'.bases| ensures BasementIn(n'.bases[i], pool) {
        LeafPutBase(n, m, i);
        BasementPutIn(n.bases[i], m, pool);
      }
    } else {
      forall i | 0 <= i < |n'.kids| ensures EdgeIn(n'.kids[i], pool) {
        assert EdgeIn(n.kids[i], pool);
      }
    }
  }

  lemma {:induction false} PutAllIn(n: Node, ms: seq<Message>, pool: set<Key>)
    requires NodeIn(n, pool) && MessagesIn(ms, pool)
    ensures NodeIn(PutAll(n, ms), pool)
  {
    hide NodeIn, Put, MessageIn;
    if |ms| > 0 {
      PutAllIn(n, ms[..|ms| - 1], pool);
      PutIn(PutAll(n, ms[..|ms| - 1]), ms[|ms| - 1], pool);
    }
  }

  lemma ApplyIn(e: Kid, pool: set<Key>)
    requires EdgeIn(e, pool) && e.pin.Held?
    ensures EdgeIn(Apply(e), pool)
  {
    PutAllIn(e.child, e.pin.inflight, pool);
    assert NodeIn(Flushed(e.child, e.pin.inflight), pool);
  }

  lemma DetachIn(e: Kid, i: nat, pool: set<Key>)
    requires EdgeIn(e, pool) && e.pin.Held? && e.child.Inner? && i < |e.child.kids|
    ensures EdgeIn(Detach(e, i), pool)
  {
    var kid := e.child.kids[i];
    assert EdgeIn(kid, pool);
    var kid' := Detached(kid, e.pin, e.child.maxMsn);
    DropAheadIn(kid.child, e.child.maxMsn, pool);
    assert Inflight(kid') == kid.buf;
    SetKidIn(e.child, i, kid', pool);
  }

  lemma DropAheadIn(n: Node, c: nat, pool: set<Key>)
    requires NodeIn(n, pool)
    ensures n.Leaf? ==> NodeIn(DropAhead(n, c), pool)
  {
    if n.Leaf? {
      var n' := DropAhead(n, c);
      forall i | 0 <= i < |n'.bases| ensures BasementIn(n'.bases[i], pool) {
        assert BasementIn(n.bases[i], pool);
      }
    }
  }

  lemma SetKidIn(n: Node, i: nat, kid: Kid, pool: set<Key>)
    requires n.Inner? && i < |n.kids| && NodeIn(n, pool) && EdgeIn(kid, pool)
    ensures NodeIn(SetKid(n, i, kid), pool)
  {
    hide EdgeIn;
  }

  // --------------------------------------------------------------- reshaping

  lemma SplitKeyIn(n: Node, at: SplitLoc, pool: set<Key>)
    requires n.Leaf? && NodeIn(n, pool) && CutOk(n, at) && |n.bases| - 1 <= |n.pivots|
    ensures SplitKey(n, at) in pool
  {
    assert BasementIn(n.bases[at.bns - 1], pool);
  }

  lemma LeafHalvesIn(n: Node, at: SplitLoc, bn: BlockNum, pool: set<Key>)
    requires n.Leaf? && NodeIn(n, pool) && CutOk(n, at)
    ensures NodeIn(LeftLeaf(n, at), pool) && NodeIn(RightLeaf(n, at, bn), pool)
  {
    hide BasementIn;
    CutBasementIn(n.bases[at.bns - 1], at.les, pool);
    assert BasementIn(EMPTY_BASEMENT, pool) by { EmptyIn(pool); }
  }

  lemma EmptyIn(pool: set<Key>)
    ensures BasementIn(EMPTY_BASEMENT, pool)
  {
  }

  lemma CutBasementIn(b: Basement, les: nat, pool: set<Key>)
    requires BasementIn(b, pool) && les <= |b.entries|
    ensures BasementIn(b.(entries := b.entries[..les]), pool) && BasementIn(b.(entries := b.entries[les..]), pool)
  {
  }

  lemma HalvesIn(n: Node, at: SplitLoc, bn: BlockNum, pool: set<Key>)
    requires NodeIn(n, pool) && CanSplit(n, at) && (n.Leaf? ==> |n.bases| - 1 <= |n.pivots|)
    ensures NodeIn(SplitLeft(n, at), pool) && NodeIn(SplitRight(n, at, bn), pool) && SplitPivot(n, at) in pool
  {
    hide EdgeIn, BasementIn, LeftLeaf, RightLeaf, SplitKey;
    if n.Leaf? {
      SplitKeyIn(n, at, pool);
      LeafHalvesIn(n, at, bn, pool);
    }
  }

  lemma WithBnIn(n: Node, bn: BlockNum, pool: set<Key>)
    requires NodeIn(n, pool)
    ensures NodeIn(WithBn(n, bn), pool)
  {
  }

  lemma SplitKidIn(e: Kid, i: nat, at: SplitLoc, bn: BlockNum, rm: Option<BlockNum>, pool: set<Key>)
    requires EdgeIn(e, pool) && e.child.Inner? && i < |e.child.kids| == |e.child.pivots| + 1
    requires
      var n := e.child.kids[i].child;
      CanSplit(n, at) && (n.Leaf? ==> |n.bases| - 1 <= |n.pivots|)
    ensures EdgeIn(SplitKid(e, i, at, bn, rm), pool)
  {
    hide CanSplit, SplitLeft, SplitRight, SplitPivot;
    var p, kid := e.child, e.child.kids[i];
    var n := kid.child;
    assert EdgeIn(kid, pool);
    HalvesIn(n, at, bn, pool);
    WithBnIn(SplitLeft(n, at), LeftHalf(n, at, bn, rm).bn, pool);
    WithBnIn(SplitRight(n, at, bn), RightHalf(n, at, bn, rm).bn, pool);
    var a, b := InPlaceOf(kid, LeftHalf(n, at, bn, rm)), InPlaceOf(kid, RightHalf(n, at, bn, rm));
    SplitParentIn(p, i, a, b, SplitPivot(n, at), pool);
  }

  lemma SplitParentIn(p: Node, i: nat, a: Kid, b: Kid, key: Key, pool: set<Key>)
    requires NodeIn(p, pool) && p.Inner? && i < |p.kids| == |p.pivots| + 1
    requires EdgeIn(a, pool) && EdgeIn(b, pool) && key in pool
    ensures NodeIn(SplitParent(p, i, a, b, key), pool)
  {
    hide EdgeIn;
  }

  lemma MergeParentIn(p: Node, i: nat, a: Kid, pool: set<Key>)
    requires NodeIn(p, pool) && p.Inner? && i + 1 < |p.kids| == |p.pivots| + 1 && EdgeIn(a, pool)
    ensures NodeIn(MergeParent(p, i, a), pool)
  {
    hide EdgeIn;
  }

  lemma MergedIn(a: Node, b: Node, key: Key, pool: set<Key>)
    requires NodeIn(a, pool) && NodeIn(b, pool) && key in pool
    ensures NodeIn(Merged(a, b, key), pool)
  {
    if a.Leaf? && b.Leaf? && |a.bases| > 0 {
      assert BasementIn(a.bases[|a.bases| - 1], pool);
    }
  }

  lemma MergeKidsIn(e: Kid, i: nat, rm: Option<BlockNum>, pool: set<Key>)
    requires EdgeIn(e, pool) && e.child.Inner? && i + 1 < |e.child.kids| == |e.child.pivots| + 1
    requires |Inflight(e.child.kids[i])| == 0
    ensures EdgeIn(MergeKids(e, i, rm), pool)
  {
    hide Merged;
    var p := e.child;
    var ka, kb := p.kids[i], p.kids[i + 1];
    assert EdgeIn(ka, pool) && EdgeIn(kb, pool);
    MergedIn(ka.child, kb.child, p.pivots[i], pool);
    var m := MergedNode(ka.child, kb.child, p.pivots[i], rm);
    WithBnIn(Merged(ka.child, kb.child, p.pivots[i]), m.bn, pool);
    MergeParentIn(p, i, InPlaceOf(ka, m), pool);
  }

  // ------------------------------------------------------- along a path

  lemma {:induction false} AtIn(top: Kid, path: Path, pool: set<Key>)
    requires ValidPath(top, path) && EdgeIn(top, pool)
    ensures EdgeIn(EdgeAt(top, path), pool)
    decreases path
  {
    if |path| > 0 {
      AtIn(top.child.kids[path[0]], path[1..], pool);
    }
  }

  lemma {:induction false} ReplaceIn(top: Kid, path: Path, e: Kid, pool: set<Key>)
    requires ValidPath(top, path) && EdgeIn(top, pool) && EdgeIn(e, pool)
    ensures EdgeIn(ReplaceAt(top, path, e), pool)
    decreases path
  {
    if |path| > 0 {
      ReplaceIn(top.child.kids[path[0]], path[1..], e, pool);
    }
  }

  /** The upper bound of any node below the root is a key of the pool. */
  lemma {:induction false} HiAtIn(top: Kid, path: Path, hi: Option<Key>, pool: set<Key>)
    requires ValidPath(top, path) && EdgeIn(top, pool) && (hi.Some? ==> hi.value in pool)
    ensures HiAt(top, path, hi).Some? ==> HiAt(top, path, hi).value in pool
    decreases path
  {
    if |path| > 0 {
      var n := top.child;
      HiAtIn(n.kids[path[0]], path[1..], if path[0] <= |n.pivots| then UpperOf(n.pivots, hi, path[0]) else hi, pool);
    }
  }
}
