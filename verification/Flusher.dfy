/** The recursive flusher: toku_ft_flush_some_child and what it calls. Each method
    performs steps of the protocol at and below a locked node, and leaves
    everything there unlocked. */
module Flusher {
  import opened Keys
  import opened Messages
  import opened Entries
  import opened Nodes
  import opened Leaves
  import opened Paths
  import opened Halves
  import opened Parents
  import opened Edges
  import opened Reshape
  import opened Readings
  import opened Query
  import opened Protocol
  import opened Pool
  import opened Pins
  import opened Routing

  // ------------------------------------------------------------------ tuning

  datatype Reactivity = Stable | Fissible | Fusible

  /** Sizes and thresholds. What a node's serialized size, a buffer's weight or
      a sequentially filled leaf is does not matter for what is proved. */
  datatype Tuning = Tuning(
    nodeSize: nat,
    fanout: nat,
    size: Node -> nat,
    weight: Kid -> nat,
    seqInsert: Node -> bool,
    gorged: Node -> bool)

  function ReactivityOf(t: Tuning, n: Node): Reactivity {
    match n
    case Leaf(_, _, _, _, bases) =>
      if t.size(n) > t.nodeSize && |Flat(bases)| > 1 then Fissible
      else if t.size(n) * 4 < t.nodeSize && !t.seqInsert(n) then Fusible
      else Stable
    case Inner(_, _, _, _, kids) =>
      if |kids| > t.fanout then Fissible
      else if |kids| * 4 < t.fanout then Fusible
      else Stable
  }

  predicate MayBeReactive(t: Tuning, n: Node) {
    n.Leaf? || !ReactivityOf(t, n).Stable?
  }

  /** Who is flushing. */
  datatype Advice = FlusherThread | Cleaner | CleanerMerge(target: Key, last: bool) | Hot

  predicate ShouldRecurse(t: Tuning, fa: Advice, n: Node) {
    match fa
    case FlusherThread => t.gorged(n)
    case Cleaner => t.gorged(n)
    case CleanerMerge(_, _) => true
    case Hot => true
  }

  /** The cleaner may start over once, as a leaf merge from the root. */
  function Rank(fa: Advice): nat {
    if fa.Cleaner? then 1 else 0
  }

  // ---------------------------------------------------------- hot's progress

  /** `highest` bounds what has been flushed so far, `maxCurrent` what this pass
      flushes; `None` is minus infinity for the former, plus infinity for the latter. */
  datatype HotKeys = HotKeys(highest: Option<Key>, maxCurrent: Option<Key>)

  predicate Rising(hot: HotKeys) {
    hot.highest.Some? && hot.maxCurrent.Some? ==> hot.highest.value < hot.maxCurrent.value
  }

  /** Hot's position on the way down: the buffers above are empty and the node
      begins at or before the key to continue from. */
  ghost predicate HotAt(top: Kid, path: Path, hot: HotKeys)
    requires ValidPath(top, path)
  {
    var e, lo := EdgeAt(top, path), LoAt(top, path, None);
    && EmptyPath(top, path) && Rising(hot)
    && (lo.Some? ==> hot.highest.Some? && lo.value <= hot.highest.value)
    && (hot.maxCurrent == HiAt(top, path, None)
        || (e.child.Inner? && hot.maxCurrent.Some? && hot.maxCurrent.value in e.child.pivots))
  }

  predicate Covered(hot: HotKeys, k: Key) {
    (hot.highest.Some? ==> hot.highest.value < k) && (hot.maxCurrent.Some? ==> k <= hot.maxCurrent.value)
  }

  /** The pass has brought every message of the keys it covers to the leaves. */
  ghost predicate HotDone(s: State, hot: HotKeys) {
    Rising(hot) && forall k: Key :: Covered(hot, k) ==> ProbeEdge(s.top, k).pend == []
  }

  ghost predicate InPool(hot: HotKeys, pool: set<Key>) {
    hot.maxCurrent.Some? ==> hot.maxCurrent.value in pool
  }

  /** hot_update_flusher_keys after picking child `c`. */
  function HotUpdate(n: Node, c: nat, hot: HotKeys): HotKeys
    requires n.Inner?
  {
    if c < |n.pivots| then hot.(maxCurrent := Some(n.pivots[c])) else hot
  }

  function HotPick(n: Node, hot: HotKeys): (c: nat)
    requires n.Inner?
    ensures c <= |n.pivots|
  {
    if hot.highest.None? then 0 else NextAbove(n.pivots, hot.highest.value)
  }

  /** Picking a child keeps hot's position. */
  lemma HotPicked(n: Node, lo: Option<Key>, hi: Option<Key>, hot: HotKeys)
    requires n.Inner? && Increasing(n.pivots) && Rising(hot)
    requires lo.Some? ==> hot.highest.Some? && lo.value <= hot.highest.value
    requires hot.maxCurrent == hi || (hot.maxCurrent.Some? && hot.maxCurrent.value in n.pivots)
    ensures
      var c := HotPick(n, hot);
      var hot' := HotUpdate(n, c, hot);
      && Rising(hot') && hot'.highest == hot.highest
      && hot'.maxCurrent == UpperOf(n.pivots, hi, c)
      && (LowerOf(n.pivots, lo, c).Some? ==> hot.highest.Some? && LowerOf(n.pivots, lo, c).value <= hot.highest.value)
  {
  }

  /** After the picked child was split, hot picks one of its halves. */
  lemma HotPickAfterSplit(ps: seq<Key>, i: nat, key: Key, k: Key)
    requires Increasing(ps) && NextAbove(ps, k) == i && Increasing(InsertKey(ps, i, key))
    ensures NextAbove(InsertKey(ps, i, key), k) == if k < key then i else i + 1
  {
    NextAboveUnique(InsertKey(ps, i, key), k, if k < key then i else i + 1);
  }

  // -------------------------------------------------- what reorganizing keeps

  /** From `s` to `s'` only by steps a reader cannot see: the same history, for
      every key no new pending messages, and no new keys in the tree. */
  ghost predicate Reorganized(s: State, s': State) {
    && s'.log == s.log && s'.maxMsn == s.maxMsn && s'.rightmost == s.rightmost
    && Height(s'.top.child) == Height(s.top.child)
    && (forall k: Key :: IsSuffix(ProbeEdge(s'.top, k).pend, ProbeEdge(s.top, k).pend))
    && (forall pool :: EdgeIn(s.top, pool) ==> EdgeIn(s'.top, pool))
  }

  lemma ReorganizedTrans(a: State, b: State, c: State)
    requires Reorganized(a, b) && Reorganized(b, c)
    ensures Reorganized(a, c)
  {
    hide ProbeEdge, EdgeIn, IsSuffix;
    forall k: Key ensures IsSuffix(ProbeEdge(c.top, k).pend, ProbeEdge(a.top, k).pend) {
      SuffixTrans(ProbeEdge(c.top, k).pend, ProbeEdge(b.top, k).pend, ProbeEdge(a.top, k).pend);
    }
  }

  lemma ReorganizedSame(s: State)
    ensures Reorganized(s, s)
  {
    hide ProbeEdge, EdgeIn;
  }

  lemma HotDoneKept(s: State, s': State, hot: HotKeys)
    requires HotDone(s, hot) && Reorganized(s, s')
    ensures HotDone(s', hot)
  {
    hide ProbeEdge, EdgeIn;
  }

  predicate FlushStep(step: Step) {
    Local(step) || step.LockTopDown? || step.RebalanceChildren?
  }

  predicate Reorganizing(step: Step) {
    FlushStep(step) && !step.EvictBasement? && !step.WriteLeafNode?
  }

  lemma NewEdgeIn(s: State, step: Step, pool: set<Key>)
    requires TreeOk(s) && Reorganizing(step) && Enabled(s, step) && EdgeIn(EdgeAt(s.top, step.path), pool)
    ensures EdgeIn(NewEdge(s, step), pool)
  {
    hide EdgeIn, EdgeOk, EdgeSettled, Detach, Apply, SplitKid, MergeKids, RebalanceKids, CanSplit, Behind, Merged;
    var e, h := EdgeAt(s.top, step.path), Height(s.top.child);
    AtOk(s.top, step.path, None, None, h);
    match step
    case LockTopDown(_) => RelockIn(e, Held(s.maxMsn, true, []), pool);
    case LockCleaner(_) => RelockIn(e, Held(0, false, []), pool);
    case Unlock(_) => RelockIn(e, Free, pool);
    case DetachBuffer(_, i) => DetachIn(e, i, pool);
    case ApplyBuffer(_) => ApplyIn(e, pool);
    case SplitChild(path, i, at, bn) =>
      LeafPivots(e, i, LoAt(s.top, path, None), HiAt(s.top, path, None), h - |path|);
      SplitKidIn(e, i, at, bn, s.rightmost, pool);
    case MergeChildren(_, i) => MergeKidsIn(e, i, s.rightmost, pool);
    case RebalanceChildren(path, i, at) =>
      RebalanceIn(e, i, at, LoAt(s.top, path, None), HiAt(s.top, path, None), h - |path|, pool);
  }

  lemma RelockIn(e: Kid, pin: Pin, pool: set<Key>)
    requires EdgeIn(e, pool) && (pin.Held? ==> |pin.inflight| == 0)
    ensures EdgeIn(e.(pin := pin), pool)
  {
  }

  lemma LeafPivots(e: Kid, i: nat, lo: Option<Key>, hi: Option<Key>, h: nat)
    requires EdgeOk(e, lo, hi, h) && e.child.Inner? && i < |e.child.kids|
    ensures
      var n := e.child.kids[i].child;
      n.Leaf? ==> 0 < |n.bases| && |n.bases| - 1 <= |n.pivots|
  {
    KidOk(e, i, lo, hi, h);
  }

  lemma RebalanceIn(e: Kid, i: nat, at: SplitLoc, lo: Option<Key>, hi: Option<Key>, h: nat, pool: set<Key>)
    requires EdgeOk(e, lo, hi, h) && RebalanceEnabled(e, i, at) && EdgeIn(e, pool)
    ensures EdgeIn(RebalanceKids(e, i, at), pool)
  {
    hide EdgeOk, EdgeIn, RebalanceKids, SplitKid, MergeKids, Merged, CanSplit, Behind, Suits;
    LeafPivots(e, i, lo, hi, h);
    RebalanceMiddle(e, i, at, hi);
    var f := MergeKids(e, i, None);
    MergeKidsOk(e, i, None, lo, hi, h);
    LeafPivots(f, i, lo, hi, h);
    MergeKidsIn(e, i, None, pool);
    SplitKidIn(f, i, at, e.child.kids[i + 1].child.bn, None, pool);
  }

  /** Every flusher step keeps the tree's meaning, its height and its keys. */
  lemma StepReorganizes(s: State, step: Step)
    requires TreeOk(s) && Faithful(s) && Enabled(s, step) && Reorganizing(step)
    ensures TreeOk(Exec(s, step)) && Faithful(Exec(s, step)) && Reorganized(s, Exec(s, step))
  {
    hide TreeOk, ProbeEdge, EdgeIn, DiskOk, NewEdge, EnabledAt, IsSuffix, ReplaceAt, Placed, View, Replay;
    var s' := Exec(s, step);
    StepSafe(s, step);
    ReorganizeOk(s, step);
    forall k: Key ensures IsSuffix(ProbeEdge(s'.top, k).pend, ProbeEdge(s.top, k).pend) {
      assert Keeps(ProbeEdge(s.top, k), ProbeEdge(s'.top, k), k);
    }
    forall pool | EdgeIn(s.top, pool) ensures EdgeIn(s'.top, pool) {
      AtIn(s.top, step.path, pool);
      NewEdgeIn(s, step, pool);
      ReplaceIn(s.top, step.path, NewEdge(s, step), pool);
    }
    StepHeight(s, step);
  }

  lemma StepHeight(s: State, step: Step)
    requires TreeOk(s) && Enabled(s, step) && Reorganizing(step)
    ensures Height(Exec(s, step).top.child) == Height(s.top.child)
  {
    hide EdgeSettled, NodeOk, QueueOk, Suits, SplitKid, MergeKids, RebalanceKids, Apply, Detach, CanSplit,
         Behind, Merged, EdgeAdmits;
    var e, path, h := EdgeAt(s.top, step.path), step.path, Height(s.top.child);
    if |path| == 0 {
      if Local(step) {
        LocalStepOk(s, step);
      } else if step.RebalanceChildren? {
        RebalanceEdge(e, step.i, step.at, None, None, h);
      }
    }
  }

  // ---------------------------------------------------- hot on its way down

  /** Hot has picked kid `i` of the node at `path`. */
  ghost predicate HotKid(top: Kid, path: Path, i: nat, hot: HotKeys)
    requires ValidPath(top, path)
  {
    var n, lo := EdgeAt(top, path).child, LoAt(top, path, None);
    && EmptyPath(top, path) && Rising(hot)
    && (lo.Some? ==> hot.highest.Some? && lo.value <= hot.highest.value)
    && n.Inner? && i <= |n.pivots| && i == HotPick(n, hot)
    && hot.maxCurrent == UpperOf(n.pivots, HiAt(top, path, None), i)
  }

  lemma HotPickedKid(top: Kid, top': Kid, path: Path, hot: HotKeys)
    requires ValidPath(top, path) && HotAt(top, path, hot) && SameOutside(top, top', path)
    requires
      var n, n' := EdgeAt(top, path).child, EdgeAt(top', path).child;
      n.Inner? && n'.Inner? && n'.pivots == n.pivots && Increasing(n.pivots)
    requires EdgeAt(top', path).buf == EdgeAt(top, path).buf
    ensures
      var n := EdgeAt(top, path).child;
      HotKid(top', path, HotPick(n, hot), HotUpdate(n, HotPick(n, hot), hot))
  {
    hide EmptyPath, LoAt, HiAt, EdgeAt, ValidPath, Around;
    var n := EdgeAt(top, path).child;
    HotPicked(n, LoAt(top, path, None), HiAt(top, path, None), hot);
  }

  lemma HotKidSame(top: Kid, top': Kid, path: Path, i: nat, hot: HotKeys)
    requires ValidPath(top, path) && HotKid(top, path, i, hot) && SameOutside(top, top', path)
    requires EdgeAt(top', path).child.Inner? && EdgeAt(top', path).child.pivots == EdgeAt(top, path).child.pivots
    requires EdgeAt(top', path).buf == EdgeAt(top, path).buf
    ensures HotKid(top', path, i, hot)
  {
    hide EmptyPath, LoAt, HiAt, EdgeAt, ValidPath, Around;
  }

  /** The kid of the node at `path` becomes the place to go on from. */
  lemma HotKidAt(top: Kid, path: Path, i: nat, hot: HotKeys)
    requires ValidPath(top, path) && HotKid(top, path, i, hot)
    requires
      var n := EdgeAt(top, path).child;
      |n.kids| == |n.pivots| + 1 && |n.kids[i].buf| == 0
    ensures ValidPath(top, path + [i]) && EdgeAt(top, path + [i]) == EdgeAt(top, path).child.kids[i]
    ensures HotAt(top, path + [i], hot)
  {
    hide EmptyPath, LoAt, HiAt, EdgeAt, ValidPath;
    KidPath(top, path, i, None, None);
  }

  /** If the kid is a leaf, the pass is complete. */
  lemma HotKidDone(s: State, path: Path, i: nat, hot: HotKeys, pool: set<Key>)
    requires TreeOk(s) && EdgeIn(s.top, pool) && ValidPath(s.top, path) && HotKid(s.top, path, i, hot) && Around(s.top, path)
    requires
      var e := EdgeAt(s.top, path);
      && |Inflight(e)| == 0 && |e.child.kids| == |e.child.pivots| + 1
      && |e.child.kids[i].buf| == 0 && |Inflight(e.child.kids[i])| == 0 && e.child.kids[i].child.Leaf?
    ensures HotDone(s, hot) && InPool(hot, pool)
  {
    hide EmptyPath, LoAt, HiAt, EdgeAt, ValidPath, Around, EdgeSettled, EdgeOk, ProbeEdge, Routed, EdgeIn;
    var e, p := EdgeAt(s.top, path), path + [i];
    var kid := e.child.kids[i];
    KidPath(s.top, path, i, None, None);
    NothingAbove(s.top, path);
    forall k: Key | Covered(hot, k) ensures ProbeEdge(s.top, k).pend == [] {
      InRangeRouted(s.top, path + [i], None, None, Height(s.top.child), k);
      RoutedKid(s.top, path, i, k);
      ProbeAt(s.top, path, k);
      RelEmpty(k);
      EmptyEdgeProbe(e, k);
      InnerProbe(e.child, k, i);
      EmptyEdgeProbe(kid, k);
      LeafEdgeProbe(kid, k);
    }
    HiAtIn(s.top, path + [i], None, pool);
  }

  lemma {:induction false} RoutedKid(top: Kid, path: Path, i: nat, k: Key)
    requires ValidPath(top, path) && EdgeAt(top, path).child.Inner? && i < |EdgeAt(top, path).child.kids|
    requires ValidPath(top, path + [i]) && Routed(top, path + [i], k)
    ensures Routed(top, path, k) && Route(EdgeAt(top, path).child.pivots, k) == i
    decreases path
  {
    if |path| > 0 {
      assert (path + [i])[1..] == path[1..] + [i];
      RoutedKid(top.child.kids[path[0]], path[1..], i, k);
    }
  }

  /** When the picked kid was split, hot picks one of the halves. */
  lemma HotSplit(top: Kid, top': Kid, path: Path, i: nat, key: Key, hot: HotKeys)
    requires ValidPath(top, path) && HotKid(top, path, i, hot) && SameOutside(top, top', path)
    requires
      var n, n' := EdgeAt(top, path).child, EdgeAt(top', path).child;
      && n'.Inner? && n'.pivots == InsertKey(n.pivots, i, key) && Increasing(n.pivots) && Increasing(n'.pivots)
    requires EdgeAt(top', path).buf == EdgeAt(top, path).buf
    ensures
      var n' := EdgeAt(top', path).child;
      var c := HotPick(n', hot);
      c in {i, i + 1} && HotKid(top', path, c, HotUpdate(n', c, hot))
  {
    hide EmptyPath, LoAt, HiAt, EdgeAt, ValidPath, Around;
    var n, n' := EdgeAt(top, path).child, EdgeAt(top', path).child;
    if hot.highest.Some? {
      HotPickAfterSplit(n.pivots, i, key, hot.highest.value);
    }
    var c := HotPick(n', hot);
    assert c < |n'.pivots| ==> hot.highest.Some? ==> hot.highest.value < n'.pivots[c];
  }

  /** When the picked kid was merged with a neighbour, hot goes on in the merged
      node, whose bounds may be wider than what hot covers. */
  lemma HotMerge(top: Kid, top': Kid, path: Path, i: nat, a: nat, hot: HotKeys)
    requires ValidPath(top, path) && HotKid(top, path, i, hot) && SameOutside(top, top', path)
    requires a == if i > 0 then i - 1 else 0
    requires
      var n, n' := EdgeAt(top, path).child, EdgeAt(top', path).child;
      && Increasing(n.pivots) && a < |n.pivots|
      && n'.Inner? && n'.pivots == RemoveKey(n.pivots, a) && |n'.kids| == |n'.pivots| + 1
      && |n'.kids[a].buf| == 0 && n'.kids[a].child.Inner? && n.pivots[a] in n'.kids[a].child.pivots
    requires EdgeAt(top', path).buf == EdgeAt(top, path).buf
    ensures ValidPath(top', path + [a]) && HotAt(top', path + [a], hot)
    ensures EdgeAt(top', path + [a]) == EdgeAt(top', path).child.kids[a]
  {
    hide EmptyPath, LoAt, HiAt, EdgeAt, ValidPath, Around;
    KidPath(top', path, a, None, None);
    var n := EdgeAt(top, path).child;
    var lo, hi := LoAt(top, path, None), HiAt(top, path, None);
    assert LowerOf(RemoveKey(n.pivots, a), lo, a) == LowerOf(n.pivots, lo, a);
    assert UpperOf(RemoveKey(n.pivots, a), hi, a) == UpperOf(n.pivots, hi, a + 1);
  }
}
