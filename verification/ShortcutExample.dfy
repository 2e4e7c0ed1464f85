/** Runs after which the rightmost-leaf shortcut goes wrong. A root leaf is written out in
    several basements and split because it is too full; inserts at the right edge raise the
    score. If the only entry of the last basement was deleted, the shortcut loses an update;
    if not, it may still overtake a broadcast. */
module ShortcutExample {
  import opened Keys
  import opened Messages
  import opened Entries
  import opened Nodes
  import opened PutMsg
  import opened Leaves
  import opened LeafMerge
  import opened Paths
  import opened Query
  import opened Halves
  import opened Splitting
  import opened Flusher
  import opened Promotion
  import opened Parents
  import opened Edges
  import opened Reshape
  import opened Readings
  import opened Protocol
  import opened Rightmost
  import opened Shortcut
  import opened ShortcutTree
  import opened ShortcutRuns
  import opened CodeRuns

  /** A leaf is as large as its entries, a node may have a size of two, and a basement
      that of one entry. */
  function Small(): Sizes {
    Sizes(Tuning(2, 16, LeafSize, _ => 0, _ => false, _ => false), 1)
  }

  function LeafSize(n: Node): nat {
    if n.Leaf? then SizeSum(Flat(n.bases)) else 0
  }

  function Insert(): Effect {
    (q, v) => Some(SOME_ENTRY)
  }

  function Remove(): Effect {
    (q, v) => None
  }

  function At(k: Key): Entry {
    Entry(k, SOME_ENTRY)
  }

  // ------------------------------------------------------------- a leaf as root

  /** The root is one leaf with the given basements. */
  predicate LeafRoot(c: Config, pivots: seq<Key>, a: seq<seq<Entry>>) {
    && c.score == 0 && c.s.rightmost == None
    && c.s.top.bn == 0 && c.s.top.buf == [] && c.s.top.pin.Free?
    && c.s.top.child.Leaf? && c.s.top.child.bn == 0 && c.s.top.child.pivots == pivots
    && Holds(c.s.top.child, a, c.s.maxMsn)
  }

  predicate Holds(n: Node, a: seq<seq<Entry>>, maxMsn: nat)
    requires n.Leaf?
  {
    && |n.bases| == |a|
    && forall i :: 0 <= i < |a| ==> n.bases[i].entries == a[i] && n.bases[i].msn <= maxMsn
  }

  lemma StartRoot()
    ensures Reached(Small(), Start(0)) && LeafRoot(Start(0), [], [[]])
  {
    ReachedStart(Small());
  }

  /** Entries of the example have size one. */
  predicate Units(es: seq<Entry>) {
    forall i :: 0 <= i < |es| ==> es[i].le == SOME_ENTRY
  }

  lemma {:induction false} UnitSum(es: seq<Entry>)
    requires Units(es)
    ensures SizeSum(es) == |es|
  {
    if |es| > 0 {
      UnitSum(es[..|es| - 1]);
    }
  }

  /** What the sizes say of a leaf with that many entries. */
  lemma Reacts(n: Node)
    requires n.Leaf? && Units(Flat(n.bases))
    ensures ReactivityOf(Small().tuning, n)
         == if |Flat(n.bases)| > 2 then Fissible else if |Flat(n.bases)| == 0 then Fusible else Stable
  {
    UnitSum(Flat(n.bases));
  }

  lemma StoreBehind(es: seq<Entry>, k: Key)
    requires forall i :: 0 <= i < |es| ==> es[i].key < k
    ensures Store(es, k, Some(SOME_ENTRY)) == es + [At(k)]
  {
    assert Position(es, k) == |es|;
  }

  lemma FlatOf(n: Node, a: seq<seq<Entry>>, m: nat)
    requires n.Leaf? && Holds(n, a, m) && 0 < |a| <= 3
    ensures |a| == 1 ==> Flat(n.bases) == a[0]
    ensures |a| == 2 ==> Flat(n.bases) == a[0] + a[1]
    ensures |a| == 3 ==> Flat(n.bases) == a[0] + (a[1] + a[2])
  {
    var bs := n.bases;
    FlatOne(bs[|bs| - 1]);
    assert bs[|bs| - 1..] == [bs[|bs| - 1]];
    if |bs| == 3 {
      assert bs[1..][1..] == bs[2..];
    }
  }

  lemma InsertBehind(c: Config, es: seq<Entry>, k: Key) returns (d: Config)
    requires Reached(Small(), c) && LeafRoot(c, [], [es]) && Units(es) && |es| <= 2
    requires forall i :: 0 <= i < |es| ==> es[i].key < k
    ensures Reached(Small(), d) && LeafRoot(d, [], [es + [At(k)]]) && d.s.top.child.dirty
  {
    hide Reached, Store, Flat, ReactivityOf;
    FlatOf(c.s.top.child, [es], c.s.maxMsn);
    Reacts(c.s.top.child);
    d := ReachedMove(Small(), c, Inject([], Once(k), Insert()));
    StoreBehind(es, k);
    assert Used(c.s.top.child) == [];
  }

  lemma ThreeEntries() returns (d: Config)
    ensures Reached(Small(), d) && LeafRoot(d, [], [[At(1.0), At(2.0), At(3.0)]]) && d.s.top.child.dirty
  {
    hide Reached, LeafRoot;
    StartRoot();
    d := InsertBehind(Start(0), [], 1.0);
    assert [] + [At(1.0)] == [At(1.0)];
    d := InsertBehind(d, [At(1.0)], 2.0);
    assert [At(1.0)] + [At(2.0)] == [At(1.0), At(2.0)];
    d := InsertBehind(d, [At(1.0), At(2.0)], 3.0);
    assert [At(1.0), At(2.0)] + [At(3.0)] == [At(1.0), At(2.0), At(3.0)];
  }

  lemma PackOne(es: seq<Entry>, msn: nat)
    requires |es| > 0 && Units(es)
    ensures
      if |es| == 1 then PackBases(es, msn, 1) == [Basement(es, msn, es)] && PackPivots(es, 1) == []
      else
        && PackBases(es, msn, 1) == [Basement([es[0]], msn, [es[0]])] + PackBases(es[1..], msn, 1)
        && PackPivots(es, 1) == [es[0].key] + PackPivots(es[1..], 1)
  {
    hide PackBases, PackPivots;
    assert FillUpTo(es, 0, 0, 1) == 1 by {
      assert FillUpTo(es, 0, 0, 1) == FillUpTo(es, 1, 1, 1);
    }
    assert es[..1] == [es[0]] && (|es| == 1 ==> [es[0]] == es);
    PackUnfold(es, msn);
  }

  lemma PackUnfold(es: seq<Entry>, msn: nat)
    ensures
      var n := FillUpTo(es, 0, 0, 1);
      && PackBases(es, msn, 1)
         == [Basement(es[..n], msn, es[..n])] + (if n == |es| then [] else PackBases(es[n..], msn, 1))
      && PackPivots(es, 1) == if n == |es| then [] else [es[n - 1].key] + PackPivots(es[n..], 1)
  {
  }

  lemma PackThree(msn: nat)
    ensures
      var es := [At(1.0), At(2.0), At(3.0)];
      && PackPivots(es, 1) == [1.0, 2.0]
      && PackBases(es, msn, 1) == [Basement([At(1.0)], msn, [At(1.0)]), Basement([At(2.0)], msn, [At(2.0)]),
                                   Basement([At(3.0)], msn, [At(3.0)])]
  {
    hide PackBases, PackPivots;
    var es := [At(1.0), At(2.0), At(3.0)];
    PackOne(es, msn);
    assert es[1..] == [At(2.0), At(3.0)];
    PackOne([At(2.0), At(3.0)], msn);
    assert [At(2.0), At(3.0)][1..] == [At(3.0)];
    PackOne([At(3.0)], msn);
  }

  function ThreeBases(): seq<seq<Entry>> {
    [[At(1.0)], [At(2.0)], [At(3.0)]]
  }

  lemma ThreeBasements() returns (d: Config)
    ensures Reached(Small(), d) && LeafRoot(d, [1.0, 2.0], ThreeBases())
  {
    hide Reached, PackBases, PackPivots, MaxBaseMsn, Flat;
    var c := ThreeEntries();
    d := ReachedMove(Small(), c, WriteLeafNode([], 1));
    var n := c.s.top.child;
    FlatOf(n, [[At(1.0), At(2.0), At(3.0)]], c.s.maxMsn);
    assert MaxBaseMsn(n.bases) <= c.s.maxMsn;
    PackThree(MaxBaseMsn(n.bases));
  }

  // ------------------------------------------------------------------ the split

  /** The leaf is too full, and an even split cuts it behind its first entry. */
  lemma TooFull(n: Node, m: nat)
    requires n.Leaf? && Holds(n, ThreeBases(), m)
    ensures ReactivityOf(Small().tuning, n).Fissible? && EvenAt(n, SplitLoc(1, 1))
  {
    hide Flat, SizeSum, ReactivityOf;
    FlatOf(n, ThreeBases(), m);
    assert Flat(n.bases) == [At(1.0), At(2.0), At(3.0)];
    Reacts(n);
    UnitSum(Flat(n.bases));
    assert n.bases[..0] == [] && [At(1.0)][..1] == [At(1.0)];
    FlatNothing();
    assert Before(n, 0, 0) == [] && Before(n, 0, 1) == [At(1.0)];
    UnitSum([At(1.0)]);
    assert FillsHalf(n, 0, 0) && CutAt(n, 0, 0) == SplitLoc(1, 1);
  }

  /** A root with two leaves, the right one with the basements `a`. */
  ghost predicate TwoLeaves(c: Config, root: Pin, left: Pin, right: Pin, a: seq<seq<Entry>>) {
    && c.s.top.bn == 0 && c.s.top.buf == [] && c.s.top.pin == root
    && var r := c.s.top.child;
       && r.Inner? && r.bn == 0 && r.pivots == [1.0] && |r.kids| == 2
       && r.kids[0].bn == 1 && r.kids[0].buf == [] && r.kids[0].pin == left && r.kids[0].child.Leaf?
       && r.kids[1].bn == 2 && r.kids[1].buf == [] && r.kids[1].pin == right && r.kids[1].child.Leaf?
       && r.kids[1].child.bn == 2 && r.kids[1].child.pivots == [2.0]
       && Holds(r.kids[1].child, a, c.s.maxMsn)
  }

  lemma RootLocked() returns (d: Config)
    ensures Reached(Small(), d) && d.score == 0 && d.s.rightmost == None
    ensures
      var lock, r := Held(d.s.maxMsn, true, []), d.s.top.child;
      && d.s.top.bn == 0 && d.s.top.buf == [] && d.s.top.pin == lock
      && r.Inner? && r.bn == 0 && r.pivots == [] && |r.kids| == 1
      && r.kids[0].bn == 1 && r.kids[0].buf == [] && r.kids[0].pin == lock
      && r.kids[0].child.Leaf? && r.kids[0].child.bn == 1 && r.kids[0].child.pivots == [1.0, 2.0]
      && Holds(r.kids[0].child, ThreeBases(), d.s.maxMsn)
  {
    hide Reached, ReactivityOf, EvenAt;
    d := ThreeBasements();
    TooFull(d.s.top.child, d.s.maxMsn);
    d := ReachedMove(Small(), d, LockTopDown([]));
    assert 1 !in Bns(d.s.top.child);
    d := ReachedMove(Small(), d, NewRoot(1));
  }

  lemma SplitThree() returns (d: Config)
    ensures Reached(Small(), d) && d.score == 0 && d.s.rightmost == None
    ensures
      var lock := Held(d.s.maxMsn, true, []);
      TwoLeaves(d, lock, lock, lock, [[At(2.0)], [At(3.0)]])
  {
    hide Reached, ReactivityOf, EvenAt;
    var c := RootLocked();
    var r := c.s.top.child;
    KidsBnsOne(r.kids[0]);
    assert r.kids == [r.kids[0]];
    assert 2 !in Bns(r);
    TooFull(r.kids[0].child, c.s.maxMsn);
    d := ReachedMove(Small(), c, SplitChild([], 0, SplitLoc(1, 1), 2));
  }

  lemma TwoLeavesFree() returns (d: Config)
    ensures Reached(Small(), d) && d.score == 0 && d.s.rightmost == None
    ensures TwoLeaves(d, Free, Free, Free, [[At(2.0)], [At(3.0)]])
  {
    hide Reached;
    d := SplitThree();
    d := ReachedMove(Small(), d, Unlock([0]));
    d := ReachedMove(Small(), d, Unlock([1]));
    d := ReachedMove(Small(), d, Unlock([]));
  }

  // ------------------------------------------------------ puts at the right edge

  /** The last basement has its entry, or lost it. */
  function Tail(full: bool): seq<seq<Entry>> {
    [[At(2.0)], if full then [At(3.0)] else []]
  }

  /** A put with a key above the pivot goes to the right leaf. */
  lemma GoesRight(c: Config, full: bool, key: Key)
    requires TwoLeaves(c, Free, Free, Free, Tail(full)) && 1.0 < key
    ensures ValidPath(c.s.top, [1]) && Routed(c.s.top, [1], key)
    ensures PromotesTo(Small().tuning, c.s.top, Loc(true, true), [1])
    ensures !ReactivityOf(Small().tuning, c.s.top.child).Fissible?
    ensures ReactivityOf(Small().tuning, c.s.top.child.kids[1].child).Stable?
  {
    hide Flat;
    var n := c.s.top.child.kids[1].child;
    RouteUnique([1.0], None, None, key, 1);
    FlatOf(n, Tail(full), c.s.maxMsn);
    hide ReactivityOf;
    Reacts(n);
  }

  lemma InsertRight(c: Config, full: bool) returns (d: Config)
    requires Reached(Small(), c) && TwoLeaves(c, Free, Free, Free, Tail(full)) && c.score < SCORE_THRESHOLD
    requires c.s.rightmost in {None, Some(2)}
    ensures Reached(Small(), d) && TwoLeaves(d, Free, Free, Free, Tail(full))
    ensures d.s.rightmost == Some(2) && d.score == c.score + 1
  {
    hide Reached, ReactivityOf;
    GoesRight(c, full, 2.0);
    assert Used(c.s.top.child.kids[1].child) == [2.0];
    RouteUnique([2.0], None, None, 2.0, 0);
    d := ReachedMove(Small(), c, Inject([1], Once(2.0), Insert()));
    assert Position([At(2.0)], 2.0) == 0;
    assert Store([At(2.0)], 2.0, Some(SOME_ENTRY)) == [At(2.0)];
  }

  lemma RemoveRight(c: Config) returns (d: Config)
    requires Reached(Small(), c) && TwoLeaves(c, Free, Free, Free, Tail(true)) && c.score < SCORE_THRESHOLD
    requires c.s.rightmost in {None, Some(2)}
    ensures Reached(Small(), d) && TwoLeaves(d, Free, Free, Free, Tail(false))
    ensures d.s.rightmost == Some(2) && d.score == c.score + 1
  {
    hide Reached, ReactivityOf, Lookup;
    GoesRight(c, true, 3.0);
    assert Used(c.s.top.child.kids[1].child) == [2.0];
    RouteUnique([2.0], None, None, 3.0, 1);
    d := ReachedMove(Small(), c, Inject([1], Once(3.0), Remove()));
    assert Position([At(3.0)], 3.0) == 0;
    assert Store([At(3.0)], 3.0, None) == [];
  }

  lemma {:induction false} PutMany(full: bool, n: nat) returns (d: Config)
    requires 0 < n <= SCORE_THRESHOLD
    ensures Reached(Small(), d) && TwoLeaves(d, Free, Free, Free, Tail(full))
    ensures d.score == n && d.s.rightmost == Some(2)
  {
    hide Reached, TwoLeaves;
    if n == 1 {
      d := TwoLeavesFree();
      assert Tail(true) == [[At(2.0)], [At(3.0)]];
      if full {
        d := InsertRight(d, true);
      } else {
        d := RemoveRight(d);
      }
    } else {
      d := PutMany(full, n - 1);
      d := InsertRight(d, full);
    }
  }

  // -------------------------------------------------------------- what goes wrong

  lemma GoodParts(c: Config)
    requires Good(c)
    ensures TreeOk(c.s) && Faithful(c.s) && RightOk(c.s, c.score)
  {
  }

  lemma RightEnd(c: Config, full: bool)
    requires TwoLeaves(c, Free, Free, Free, Tail(full))
    ensures AtLeaf(c.s) && FreePath(c.s.top, Spine(c.s.top)) && LastLeaf(c.s) == c.s.top.child.kids[1].child
    ensures |Flat(LastLeaf(c.s).bases)| > 0 && (SafeFor(LastLeaf(c.s), false) <==> full)
    ensures ReactivityOf(Small().tuning, LastLeaf(c.s)).Stable?
  {
    hide ReactivityOf;
    var top := c.s.top;
    var e := top.child.kids[1];
    assert Spine(e) == [];
    assert Spine(top) == [1];
    assert ValidPath(top, [1]) && EdgeAt(top, [1]) == e && FreePath(top, [1]);
    FlatOf(e.child, Tail(full), c.s.maxMsn);
    GoesRight(c, full, 2.0);
  }

  /** A run of the code reaches a state, with the score at its threshold, in which the
      shortcut passes all its tests and the update never reaches the readers of its key. */
  lemma ShortcutLosesUpdate() returns (c: Config, key: Key)
    ensures Reached(Small(), c) && Good(c) && c.score >= SCORE_THRESHOLD
    ensures AtLeaf(c.s) && FreePath(c.s.top, Spine(c.s.top)) && ShortcutTaken(Small().tuning, c.s, key, false)
    ensures View(ShortcutState(c.s, key, false, Bump()), key)
         != Replay(ShortcutState(c.s, key, false, Bump()).log, key)
  {
    hide Reached, Good, View, ShortcutState, Replay, SafeFor, ReactivityOf, LastLeaf, AtLeaf, Flat;
    c := PutMany(false, SCORE_THRESHOLD);
    ReachedGood(Small(), c);
    RightEnd(c, false);
    GoodParts(c);
    LeafInTree(c.s);
    key := UnsafeWrong(LastLeaf(c.s), LoAt(c.s.top, Spine(c.s.top), None), None, false);
    WrongBasement(c.s, key, false);
  }

  /** A run of the code reaches a state in which a thread finds the score high enough and
      the shortcut is right; then another thread injects a broadcast at the root; then the
      first thread's insert passes all tests that are left, and hides the broadcast. */
  lemma RaceHappens() returns (c: Config, key: Key)
    ensures Reached(Small(), c) && Good(c) && c.score >= SCORE_THRESHOLD
    ensures AtLeaf(c.s) && SafeFor(LastLeaf(c.s), false) && FreePath(c.s.top, Spine(c.s.top))
    ensures CanMove(c, Ordinary(Broadcast())) && ByCode(Small(), c, Ordinary(Broadcast()))
    ensures
      var s := Exec(c.s, Broadcast());
      AtLeaf(s) && ShortcutTaken(Small().tuning, s, key, false) && !RightAfter(s, key, false)
  {
    hide Reached, Good, SafeFor, ReactivityOf, Flat, RightAfter, LastLeaf, AtLeaf, Exec;
    c := PutMany(true, SCORE_THRESHOLD);
    ReachedGood(Small(), c);
    RightEnd(c, true);
    GoodParts(c);
    GoesRight(c, true, 2.0);
    RaceHidesBroadcast(c.s, c.score);
    key := Last(LastLeaf(c.s));
  }
}
