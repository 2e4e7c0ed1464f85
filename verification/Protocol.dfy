/** The tree as a state machine: threads inject messages, lock nodes, detach and
    apply buffers, split, merge and rebalance nodes, answer queries, evict and
    write out leaves, in any order. Every step is atomic; a step that the code
    performs under a lock names a locked edge. */
module Protocol {
  import opened Keys
  import opened Messages
  import opened Entries
  import opened Nodes
  import opened PutMsg
  import opened Leaves
  import opened LeafMerge
  import opened Paths
  import opened Halves
  import opened Parents
  import opened Edges
  import opened Reshape
  import opened Readings
  import opened Query

  /** `top` is the edge to the root, whose buffer is always empty; `maxMsn` is
      the highest MSN handed out; `log` is every message ever injected. */
  datatype State = State(top: Kid, maxMsn: nat, rightmost: Option<BlockNum>, log: seq<Message>)

  datatype Step =
    | Inject(path: Path, scope: Scope, effect: (Key, Option<LeafEntry>) -> Option<LeafEntry>)
    | LockTopDown(path: Path)
    | LockCleaner(path: Path)
    | Unlock(path: Path)
    | DetachBuffer(path: Path, i: nat)
    | ApplyBuffer(path: Path)
    | SplitChild(path: Path, i: nat, at: SplitLoc, bn: BlockNum)
    | MergeChildren(path: Path, i: nat)
    | RebalanceChildren(path: Path, i: nat, at: SplitLoc)
    | NewRoot(bn: BlockNum)
    | QueryLeafNode(path: Path, j: nat)
    | EvictBasement(path: Path, j: nat)
    | WriteLeafNode(path: Path, limit: nat)

  /** No message waits on any edge of the path, the last one included. */
  predicate EmptyPath(top: Kid, path: Path)
    requires ValidPath(top, path)
    decreases path
  {
    |top.buf| == 0 && (|path| == 0 || EmptyPath(top.child.kids[path[0]], path[1..]))
  }

  function NextMessage(s: State, step: Step): Message
    requires step.Inject?
  {
    Message(s.maxMsn + 1, step.scope, step.effect)
  }

  predicate Enabled(s: State, step: Step) {
    match step
    case NewRoot(bn) => s.top.pin.Held? && |s.top.pin.inflight| == 0 && s.top.pin.topDown
    case _ =>
      && ValidPath(s.top, step.path)
      && EnabledAt(s, step, EdgeAt(s.top, step.path))
  }

  /** When a step may happen on the edge `e` that its path leads to. */
  predicate EnabledAt(s: State, step: Step, e: Kid)
    requires !step.NewRoot? && ValidPath(s.top, step.path)
  {
    match step
    case Inject(path, scope, _) =>
      // Promotion goes down only through unlocked nodes and empty buffers; a
      // message for more than one key stays at the root.
      && FreePath(s.top, path) && EmptyPath(s.top, path)
      && (if scope.Once? then Routed(s.top, path, scope.key) else |path| == 0)
    case LockTopDown(path) => FreePath(s.top, path) && EmptyPath(s.top, path)
    case LockCleaner(_) => e.pin.Free? && e.child.Inner?
    case Unlock(_) => e.pin.Held? && |e.pin.inflight| == 0
    case DetachBuffer(_, i) =>
      && e.pin.Held? && |e.pin.inflight| == 0 && e.child.Inner?
      && i < |e.child.kids| && e.child.kids[i].pin.Free?
    case ApplyBuffer(_) => e.pin.Held?
    case SplitChild(path, i, at, _) => SplitEnabled(e, i, at, HiAt(s.top, path, None))
    case MergeChildren(_, i) => MergeEnabled(e, i)
    case RebalanceChildren(path, i, at) => RebalanceEnabled(e, i, at)
    case QueryLeafNode(path, j) =>
      && FreePath(s.top, path) && e.child.Leaf?
      && |e.child.bases| == |Used(e.child)| + 1 && j < |e.child.bases|
    case EvictBasement(_, j) => e.pin.Free? && e.child.Leaf? && !e.child.dirty && j < |e.child.bases|
    case WriteLeafNode(_, _) => e.child.Leaf? && e.child.dirty
  }

  /** The edge that takes the place of the one at the step's path. */
  function NewEdge(s: State, step: Step): Kid
    requires !step.NewRoot? && Enabled(s, step)
  {
    hide FreePath, EmptyPath, Routed, Drained, Put, EdgeAt, HiAt, ValidPath;
    var e := EdgeAt(s.top, step.path);
    match step
    case Inject(_, _, _) => e.(child := Put(e.child, NextMessage(s, step)))
    case LockTopDown(_) => PinTopDown(e, s.maxMsn)
    case LockCleaner(_) => PinCleaner(e)
    case Unlock(_) => Unpin(e)
    case DetachBuffer(_, i) => Detach(e, i)
    case ApplyBuffer(_) => Apply(e)
    case SplitChild(_, i, at, bn) => SplitKid(e, i, at, bn, s.rightmost)
    case MergeChildren(_, i) => MergeKids(e, i, s.rightmost)
    case RebalanceChildren(_, i, at) => RebalanceKids(e, i, at)
    case QueryLeafNode(path, j) => QueryEdge(s.top, path, j)
    case EvictBasement(_, j) => Evict(e, j)
    case WriteLeafNode(_, limit) => WriteLeaf(e, limit)
  }

  /** Whether the path follows the last child at every node. */
  predicate AllLast(top: Kid, path: Path)
    requires ValidPath(top, path)
    decreases path
  {
    |path| == 0
    || (path[0] == |top.child.kids| - 1 && AllLast(top.child.kids[path[0]], path[1..]))
  }

  /** Promotion names the rightmost leaf the first time it reaches a leaf with
      loc == RIGHT_EXTREME: through last children only, the first of which is
      not also the first child of the root. */
  function NewRightmost(s: State, step: Step): Option<BlockNum>
    requires Enabled(s, step)
  {
    if step.Inject? && s.rightmost.None? && |step.path| > 0
       && EdgeAt(s.top, step.path).child.Leaf?
       && AllLast(s.top, step.path) && step.path[0] > 0
    then Some(EdgeAt(s.top, step.path).child.bn)
    else s.rightmost
  }

  function Exec(s: State, step: Step): State
    requires Enabled(s, step)
  {
    hide EnabledAt, NewEdge, NewRightmost, GrowRoot, ReplaceAt, ValidPath;
    match step
    case NewRoot(bn) => s.(top := GrowRoot(s.top, bn))
    case Inject(path, _, _) =>
      State(ReplaceAt(s.top, path, NewEdge(s, step)), s.maxMsn + 1, NewRightmost(s, step),
            s.log + [NextMessage(s, step)])
    case _ => s.(top := ReplaceAt(s.top, step.path, NewEdge(s, step)))
  }

  // ------------------------------------------------------------- invariants

  ghost predicate TreeOk(s: State) {
    && EdgeOk(s.top, None, None, Height(s.top.child))
    && |s.top.buf| == 0
    && EdgeSettled(s.top, s.maxMsn)
  }

  /** What a query for `k` returns. */
  function View(s: State, k: Key): Option<LeafEntry> {
    ViewOf(ProbeEdge(s.top, k), k)
  }

  /** The pending messages of `k`, read from the leaf up to the root, are the
      most recent messages injected for `k`, each exactly once and in order. */
  ghost predicate Placed(s: State, k: Key) {
    IsSuffix(ProbeEdge(s.top, k).pend, Rel(s.log, k))
  }

  /** A reader cannot tell the step from `s` to `s'`. */
  ghost predicate Unseen(s: State, s': State) {
    forall k: Key :: Keeps(ProbeEdge(s.top, k), ProbeEdge(s'.top, k), k)
  }

  // ---------------------------------------------------- steps on one locked edge

  lemma LocalKeeps(top: Kid, path: Path, e: Kid, k: Key)
    requires ValidPath(top, path)
    requires Routed(top, path, k) ==>
               var up := Rel(AboveMsgs(top, path), k);
               Keeps(Extend(ProbeEdge(EdgeAt(top, path), k), up), Extend(ProbeEdge(e, k), up), k)
    ensures Keeps(ProbeEdge(top, k), ProbeEdge(ReplaceAt(top, path, e), k), k)
  {
    hide Keeps, Extend, ProbeEdge, Rel;
    ReplaceValid(top, path, e, k);
    if Routed(top, path, k) {
      ProbeAt(top, path, k);
      ProbeAt(ReplaceAt(top, path, e), path, k);
    } else {
      ProbeElsewhere(top, path, e, k);
      KeepsSame(ProbeEdge(top, k), k);
    }
  }

  lemma AboveAllAdmitted(top: Kid, path: Path, h: nat, k: Key)
    requires ValidPath(top, path) && EdgeOk(top, None, None, h)
    ensures AllAdmitted(EdgeAt(top, path), Rel(AboveMsgs(top, path), k))
  {
    hide EdgeOk, EdgeAdmits;
    AboveAdmitted(top, path, None, None, h);
    RelAdmitted(EdgeAt(top, path), AboveMsgs(top, path), k);
  }

  lemma LocalTreeOk(s: State, path: Path, e: Kid)
    requires TreeOk(s) && ValidPath(s.top, path) && |path| <= Height(s.top.child)
    requires EdgeOk(e, LoAt(s.top, path, None), HiAt(s.top, path, None), Height(s.top.child) - |path|)
    requires Suits(EdgeAt(s.top, path), e)
    ensures TreeOk(s.(top := ReplaceAt(s.top, path, e)))
  {
    hide EdgeSettled, Suits, NodeOk, QueueOk;
    SuitsReplaceOk(s.top, path, e, None, None, Height(s.top.child));
    SuitsSettled(s.top, path, e, s.maxMsn);
  }

  /** The steps on one edge that never need to know what is above it. */
  predicate Local(step: Step) {
    step.LockCleaner? || step.Unlock? || step.DetachBuffer? || step.ApplyBuffer? || step.SplitChild?
    || step.MergeChildren? || step.EvictBasement? || step.WriteLeafNode?
  }

  lemma LocalStepOk(s: State, step: Step)
    requires TreeOk(s) && Enabled(s, step) && Local(step)
    ensures |step.path| <= Height(s.top.child)
    ensures
      EdgeOk(NewEdge(s, step), LoAt(s.top, step.path, None), HiAt(s.top, step.path, None), Height(s.top.child) - |step.path|)
    ensures Suits(EdgeAt(s.top, step.path), NewEdge(s, step))
  {
    hide EdgeOk, EdgeSettled, Suits, Detach, Apply, SplitKid, MergeKids, Evict, WriteLeaf, Unpin, PinCleaner,
         SplitEnabled, MergeEnabled;
    var h := Height(s.top.child);
    AtOk(s.top, step.path, None, None, h);
    var e, lo, hi := EdgeAt(s.top, step.path), LoAt(s.top, step.path, None), HiAt(s.top, step.path, None);
    match step
    case LockCleaner(_) => PinCleanerOk(e, lo, hi, h - |step.path|);
    case Unlock(_) => UnpinOk(e, lo, hi, h - |step.path|);
    case DetachBuffer(_, i) => DetachOk(e, i, lo, hi, h - |step.path|);
    case ApplyBuffer(_) => ApplyOk(e, lo, hi, h - |step.path|);
    case SplitChild(_, i, at, bn) => SplitKidOk(e, i, at, bn, s.rightmost, lo, hi, h - |step.path|);
    case MergeChildren(_, i) => MergeKidsOk(e, i, s.rightmost, lo, hi, h - |step.path|);
    case EvictBasement(_, j) => EvictOk(e, j, lo, hi, h - |step.path|);
    case WriteLeafNode(_, limit) => WriteLeafOk(e, limit, lo, hi, h - |step.path|);
  }

  lemma LocalStepKeeps(s: State, step: Step, k: Key)
    requires TreeOk(s) && Enabled(s, step) && Local(step) && Routed(s.top, step.path, k)
    ensures
      var up := Rel(AboveMsgs(s.top, step.path), k);
      Keeps(Extend(ProbeEdge(EdgeAt(s.top, step.path), k), up), Extend(ProbeEdge(NewEdge(s, step), k), up), k)
  {
    hide EdgeOk, EdgeSettled, Keeps, Extend, ProbeEdge, Rel, AllAdmitted, Detach, Apply, SplitKid, MergeKids,
         Evict, WriteLeaf, SplitEnabled, MergeEnabled;
    var h := Height(s.top.child);
    AtOk(s.top, step.path, None, None, h);
    var e, lo, hi := EdgeAt(s.top, step.path), LoAt(s.top, step.path, None), HiAt(s.top, step.path, None);
    var up := Rel(AboveMsgs(s.top, step.path), k);
    AboveAllAdmitted(s.top, step.path, h, k);
    RoutedInRange(s.top, step.path, None, None, k);
    match step
    case LockCleaner(_) => RelockKeeps(e, Held(0, false, []), up, k);
    case Unlock(_) => RelockKeeps(e, Free, up, k);
    case DetachBuffer(_, i) => DetachKeeps(e, i, lo, hi, h - |step.path|, up, k);
    case ApplyBuffer(_) => ApplyKeeps(e, lo, hi, h - |step.path|, up, k);
    case SplitChild(_, i, at, bn) => SplitKidKeeps(e, i, at, bn, s.rightmost, lo, hi, h - |step.path|, up, k);
    case MergeChildren(_, i) => MergeKidsKeeps(e, i, s.rightmost, lo, hi, h - |step.path|, up, k);
    case EvictBasement(_, j) => EvictKeeps(e, j, up, k);
    case WriteLeafNode(_, limit) => WriteLeafKeeps(e, limit, lo, hi, h - |step.path|, up, k);
  }

  lemma RelockKeeps(e: Kid, pin: Pin, up: seq<Message>, k: Key)
    requires |Inflight(e)| == 0 && (pin.Held? ==> |pin.inflight| == 0)
    ensures Keeps(Extend(ProbeEdge(e, k), up), Extend(ProbeEdge(e.(pin := pin), k), up), k)
  {
    hide Keeps, Extend, Probe, Rel;
    assert Inflight(e) == Inflight(e.(pin := pin));
    KeepsSame(Extend(ProbeEdge(e, k), up), k);
  }

  // ------------------------------------------------------------ other steps

  lemma {:induction false} ClearPath(top: Kid, path: Path)
    requires ValidPath(top, path) && FreePath(top, path) && EmptyPath(top, path)
    ensures AboveMsgs(top, path) == [] && AsOfs(top, path) == []
    ensures EdgeAt(top, path).pin.Free? && |EdgeAt(top, path).buf| == 0
    decreases path
  {
    if |path| > 0 {
      ClearPath(top.child.kids[path[0]], path[1..]);
    }
  }

  /** Under a clear path any well-formed edge fits. */
  lemma ClearTreeOk(s: State, path: Path, e: Kid, maxMsn: nat, r: Option<BlockNum>, log: seq<Message>)
    requires TreeOk(s) && ValidPath(s.top, path) && FreePath(s.top, path) && EmptyPath(s.top, path)
    requires |path| <= Height(s.top.child) && |e.buf| == 0 && s.maxMsn <= maxMsn && EdgeSettled(e, maxMsn)
    requires EdgeOk(e, LoAt(s.top, path, None), HiAt(s.top, path, None), Height(s.top.child) - |path|)
    ensures TreeOk(State(ReplaceAt(s.top, path, e), maxMsn, r, log))
  {
    hide EdgeSettled, NodeOk, QueueOk;
    ClearPath(s.top, path);
    assert e.buf == [] && EdgeAt(s.top, path).buf == [];
    ReplaceOk(s.top, path, e, None, None, Height(s.top.child));
    SettledMore(s.top, s.maxMsn, maxMsn);
    ReplaceSettled(s.top, path, e, maxMsn);
  }

  lemma {:induction false} SettledMore(e: Kid, a: nat, b: nat)
    requires EdgeSettled(e, a) && a <= b
    ensures EdgeSettled(e, b)
    decreases e
  {
    NodeSettledMore(e.child, a, b);
  }

  lemma {:induction false} NodeSettledMore(n: Node, a: nat, b: nat)
    requires Settled(n, a) && a <= b
    ensures Settled(n, b)
    decreases n
  {
    if n.Inner? {
      forall i | 0 <= i < |n.kids| ensures EdgeSettled(n.kids[i], b) {
        SettledMore(n.kids[i], a, b);
      }
    }
  }

  /** A message newer than everything in a node may wait above it. */
  lemma {:induction false} SettledAdmits(n: Node, a: nat, c: nat)
    requires Settled(n, a) && a < c
    ensures Admits(n, c) && (n.Leaf? ==> Uniform(n, c))
    decreases n
  {
    if n.Inner? {
      forall i | 0 <= i < |n.kids| ensures EdgeAdmits(n.kids[i], c) {
        assert EdgeSettled(n.kids[i], a);
        SettledAdmits(n.kids[i].child, a, c);
      }
    }
  }

  lemma LockTopDownOk(s: State, step: Step)
    requires TreeOk(s) && Enabled(s, step) && step.LockTopDown?
    ensures TreeOk(Exec(s, step)) && Unseen(s, Exec(s, step))
  {
    hide EdgeOk, EdgeSettled, Keeps, ProbeEdge, PinTopDown;
    var h, path := Height(s.top.child), step.path;
    var e, e' := EdgeAt(s.top, path), PinTopDown(EdgeAt(s.top, path), s.maxMsn);
    AtOk(s.top, path, None, None, h);
    AtSettled(s.top, path, s.maxMsn);
    ClearPath(s.top, path);
    KidSettled(e, s.maxMsn);
    PinTopDownOk(e, s.maxMsn, LoAt(s.top, path, None), HiAt(s.top, path, None), h - |path|);
    PinTopDownBuf(e, s.maxMsn);
    ClearTreeOk(s, path, e', s.maxMsn, s.rightmost, s.log);
    forall k: Key ensures Keeps(ProbeEdge(s.top, k), ProbeEdge(Exec(s, step).top, k), k) {
      FreeInflight(e);
      RelockKeeps(e, Held(s.maxMsn, true, []), Rel(AboveMsgs(s.top, path), k), k);
      LocalKeeps(s.top, path, e', k);
    }
  }

  lemma PinTopDownBuf(e: Kid, a: nat)
    ensures PinTopDown(e, a) == e.(pin := Held(a, true, [])) && PinTopDown(e, a).buf == e.buf
  {
  }

  lemma FreeInflight(e: Kid)
    requires e.pin.Free?
    ensures |Inflight(e)| == 0
  {
  }

  lemma InjectTreeOk(s: State, step: Step)
    requires TreeOk(s) && Enabled(s, step) && step.Inject?
    ensures TreeOk(Exec(s, step))
  {
    hide EdgeOk, EdgeSettled, Put, NodeOk, Admits, Settled;
    var h, path, m := Height(s.top.child), step.path, NextMessage(s, step);
    var e := EdgeAt(s.top, path);
    var lo, hi := LoAt(s.top, path, None), HiAt(s.top, path, None);
    AtOk(s.top, path, None, None, h);
    AtSettled(s.top, path, s.maxMsn);
    ClearPath(s.top, path);
    KidSettled(e, s.maxMsn);
    SettledAdmits(e.child, s.maxMsn, m.msn);
    if m.scope.Once? {
      RoutedInRange(s.top, path, None, None, m.scope.key);
    }
    LeafEdgeNode(e, lo, hi, h - |path|);
    PutOk(e.child, m, s.maxMsn, lo, hi);
    InjectedEdgeOk(e, Put(e.child, m), m.msn, lo, hi, h - |path|);
    ClearTreeOk(s, path, e.(child := Put(e.child, m)), s.maxMsn + 1, NewRightmost(s, step), s.log + [m]);
  }

  lemma PutOk(n: Node, m: Message, a: nat, lo: Option<Key>, hi: Option<Key>)
    requires NodeOk(n, lo, hi) && Fits(m, lo, hi) && Admits(n, m.msn) && Settled(n, a) && a < m.msn
    ensures NodeOk(Put(n, m), lo, hi) && Settled(Put(n, m), m.msn)
  {
    NodeSettledMore(n, a, m.msn);
    if n.Leaf? {
      LeafPutOk(n, m, lo, hi);
      assert PutAll(n, [m]) == Put(n, m) by {
        assert [m][..0] == [];
        assert PutAll(n, []) == n;
      }
      LeafPutAllSettled(n, [m], m.msn);
    } else {
      InnerPutOk(n, m, lo, hi);
      InnerPutSettled(n, m, m.msn);
    }
  }

  lemma InjectedEdgeOk(e: Kid, n: Node, a: nat, lo: Option<Key>, hi: Option<Key>, h: nat)
    requires EdgeOk(e, lo, hi, h) && e.pin.Free? && |e.buf| == 0
    requires NodeOk(n, lo, hi) && Settled(n, a) && n.bn == e.child.bn && Height(n) == Height(e.child)
    ensures EdgeOk(e.(child := n), lo, hi, h) && EdgeSettled(e.(child := n), a)
  {
  }

  /** The state of key `k` after message `m` was injected. */
  ghost predicate Injected(p: KeyState, p': KeyState, m: Message, k: Key) {
    && (p' == Extend(p, Only(m, k)) || (p.pend == [] && p'.pend == [] && p'.dirty))
    && ViewOf(p', k) == ApplyOne(m, k, ViewOf(p, k))
  }

  lemma ExtendInjected(p: KeyState, m: Message, k: Key)
    requires p.msn < m.msn && (!p.dirty ==> p.diskMsn < m.msn)
    ensures Injected(p, Extend(p, Only(m, k)), m, k)
    ensures DiskOk(p, k) ==> DiskOk(Extend(p, Only(m, k)), k)
  {
    if Relevant(m, k) {
      assert (p.pend + [m])[..|p.pend|] == p.pend;
    } else {
      assert p.pend + [] == p.pend;
    }
  }

  lemma InjectSeen(s: State, step: Step, k: Key)
    requires TreeOk(s) && Enabled(s, step) && step.Inject?
    ensures
      var p, p' := ProbeEdge(s.top, k), ProbeEdge(Exec(s, step).top, k);
      Injected(p, p', NextMessage(s, step), k) && (DiskOk(p, k) ==> DiskOk(p', k))
  {
    hide EdgeOk, EdgeSettled, Put, NodeOk, ViewOf, Injected, DiskOk, Probe, ProbeEdge;
    var h, path, m := Height(s.top.child), step.path, NextMessage(s, step);
    var e := EdgeAt(s.top, path);
    var e' := e.(child := Put(e.child, m));
    ClearPath(s.top, path);
    AtOk(s.top, path, None, None, h);
    AtSettled(s.top, path, s.maxMsn);
    ReplaceValid(s.top, path, e', k);
    if Routed(s.top, path, k) {
      ProbeAt(s.top, path, k);
      ProbeAt(ReplaceAt(s.top, path, e'), path, k);
      RelEmpty(k);
      ExtendNothing(ProbeEdge(e, k));
      ExtendNothing(ProbeEdge(e', k));
      RoutedInRange(s.top, path, None, None, k);
      LeafEdgeNode(e, LoAt(s.top, path, None), HiAt(s.top, path, None), h - |path|);
      if m.scope.Once? {
        RoutedInRange(s.top, path, None, None, m.scope.key);
      }
      InjectHere(e, m, s.maxMsn, LoAt(s.top, path, None), HiAt(s.top, path, None), k);
    } else {
      ProbeElsewhere(s.top, path, e', k);
      NotRelevant(s, step, k);
      IrrelevantInjected(ProbeEdge(s.top, k), m, k);
    }
  }

  lemma ExtendNothing(p: KeyState)
    ensures Extend(p, []) == p
  {
    assert p.pend + [] == p.pend;
  }

  lemma NotRelevant(s: State, step: Step, k: Key)
    requires Enabled(s, step) && step.Inject? && !Routed(s.top, step.path, k)
    ensures !Relevant(NextMessage(s, step), k)
  {
  }

  lemma IrrelevantInjected(p: KeyState, m: Message, k: Key)
    requires !Relevant(m, k)
    ensures Injected(p, p, m, k)
  {
    assert p.pend + [] == p.pend;
  }

  lemma InjectHere(e: Kid, m: Message, a: nat, lo: Option<Key>, hi: Option<Key>, k: Key)
    requires NodeOk(e.child, lo, hi) && EdgeSettled(e, a) && a < m.msn && InRange(lo, hi, k)
    requires e.pin.Free? && |e.buf| == 0 && Fits(m, lo, hi)
    ensures
      var p, p' := ProbeEdge(e, k), ProbeEdge(e.(child := Put(e.child, m)), k);
      Injected(p, p', m, k) && (DiskOk(p, k) ==> DiskOk(p', k))
  {
    hide ViewOf, DiskOk, Injected, ProbeEdge, Probe, NodeOk, Settled, Put;
    var e' := e.(child := Put(e.child, m));
    FreeInflight(e);
    EmptyEdgeProbe(e, k);
    EmptyEdgeProbe(e', k);
    KidSettled(e, a);
    InjectNode(e.child, m, a, lo, hi, k);
  }

  lemma InjectNode(n: Node, m: Message, a: nat, lo: Option<Key>, hi: Option<Key>, k: Key)
    requires NodeOk(n, lo, hi) && Settled(n, a) && a < m.msn && InRange(lo, hi, k) && Fits(m, lo, hi)
    ensures
      var p, p' := Probe(n, k), Probe(Put(n, m), k);
      Injected(p, p', m, k) && (DiskOk(p, k) ==> DiskOk(p', k))
  {
    if n.Leaf? {
      LeafPutProbe(n, m, lo, hi, k);
      LeafProbeMsn(n, lo, hi, k);
    } else {
      hide ViewOf, DiskOk, Injected, NodeOk, Probe;
      InnerShape(n, lo, hi);
      InnerPutProbe(n, m, k);
      ProbeSettled(n, a, k);
      ExtendInjected(Probe(n, k), m, k);
    }
  }

  lemma {:induction false} ProbeSettled(n: Node, a: nat, k: Key)
    requires Settled(n, a)
    ensures Probe(n, k).msn <= a && Probe(n, k).diskMsn <= a
    decreases n
  {
    if n.Inner? {
      var i := Route(n.pivots, k);
      if i < |n.kids| {
        assert EdgeSettled(n.kids[i], a);
        ProbeSettled(n.kids[i].child, a, k);
      }
    }
  }

  lemma NewRootStepOk(s: State, step: Step)
    requires TreeOk(s) && Enabled(s, step) && step.NewRoot?
    ensures TreeOk(Exec(s, step)) && Unseen(s, Exec(s, step))
  {
    hide EdgeSettled, Keeps, ProbeEdge, NodeOk, QueueOk;
    GrowRootOk(s.top, step.bn, Height(s.top.child));
    GrowRootSettled(s.top, step.bn, s.maxMsn);
    forall k: Key ensures Keeps(ProbeEdge(s.top, k), ProbeEdge(Exec(s, step).top, k), k) {
      GrowRootProbe(s.top, step.bn, k);
      KeepsSame(ProbeEdge(s.top, k), k);
    }
  }

  lemma QueryStepOk(s: State, step: Step)
    requires TreeOk(s) && Enabled(s, step) && step.QueryLeafNode?
    ensures TreeOk(Exec(s, step)) && Unseen(s, Exec(s, step))
  {
    hide EdgeSettled, Keeps, ProbeEdge, NodeOk, QueueOk, QueryEdge;
    var h := Height(s.top.child);
    QueryOk(s.top, step.path, step.j, h);
    QuerySettled(s.top, step.path, step.j, h, s.maxMsn);
    forall k: Key ensures Keeps(ProbeEdge(s.top, k), ProbeEdge(Exec(s, step).top, k), k) {
      if Routed(s.top, step.path, k) {
        QueryKeeps(s.top, step.path, step.j, h, k);
      }
      LocalKeeps(s.top, step.path, QueryEdge(s.top, step.path, step.j), k);
    }
  }

  lemma LocalOk(s: State, step: Step)
    requires TreeOk(s) && Enabled(s, step) && Local(step)
    ensures TreeOk(Exec(s, step)) && Unseen(s, Exec(s, step))
  {
    hide TreeOk, Keeps, ProbeEdge, EdgeOk, Suits, NewEdge, EnabledAt;
    LocalStepOk(s, step);
    LocalTreeOk(s, step.path, NewEdge(s, step));
    forall k: Key ensures Keeps(ProbeEdge(s.top, k), ProbeEdge(Exec(s, step).top, k), k) {
      if Routed(s.top, step.path, k) {
        LocalStepKeeps(s, step, k);
      }
      LocalKeeps(s.top, step.path, NewEdge(s, step), k);
    }
  }

  // --------------------------------------------------------------- rebalance

  lemma SuitsTrans(e: Kid, f: Kid, g: Kid)
    requires Suits(e, f) && Suits(f, g)
    ensures Suits(e, g)
  {
    hide EdgeAdmits, EdgeSettled;
  }

  lemma KeepsTrans(p: KeyState, q: KeyState, r: KeyState, k: Key)
    requires Keeps(p, q, k) && Keeps(q, r, k)
    ensures Keeps(p, r, k)
  {
    hide ReplayNewer;
  }

  /** After the merge the merged leaf may be split: rebalancing is two steps
      that are known to be safe. */
  lemma RebalanceMiddle(e: Kid, i: nat, at: SplitLoc, hi: Option<Key>)
    requires RebalanceEnabled(e, i, at) && |e.child.kids[i].child.bases| > 0
    ensures
      var f := MergeKids(e, i, None);
      && SplitEnabled(f, i, at, hi)
      && RebalanceKids(e, i, at) == SplitKid(f, i, at, e.child.kids[i + 1].child.bn, None)
  {
    hide SplitLeft, SplitRight, SplitPivot, MergeParent, SplitParent, CanSplit, Behind, MergeLeaves, MergeInner;
    var p := e.child;
    var m := Merged(p.kids[i].child, p.kids[i + 1].child, p.pivots[i]);
    MergeLeavesBn(p.kids[i].child, p.kids[i + 1].child);
    assert m.bn == p.kids[i].child.bn;
    RebalanceIsMergeSplit(e, i, at);
    assert WithBn(m, m.bn) == m;
    MergeParentShape(p, i, InPlaceOf(p.kids[i], m));
  }

  lemma SomeBasement(n: Node, lo: Option<Key>, hi: Option<Key>)
    requires n.Leaf? && NodeOk(n, lo, hi)
    ensures |n.bases| > 0
  {
  }

  lemma MergeLeavesBn(a: Node, b: Node)
    requires a.Leaf? && b.Leaf? && |a.bases| > 0
    ensures MergeLeaves(a, b).bn == a.bn
  {
  }

  lemma RebalanceEdge(e: Kid, i: nat, at: SplitLoc, lo: Option<Key>, hi: Option<Key>, h: nat)
    requires EdgeOk(e, lo, hi, h)
    requires RebalanceEnabled(e, i, at)
    ensures EdgeOk(RebalanceKids(e, i, at), lo, hi, h) && Suits(e, RebalanceKids(e, i, at))
    ensures forall up, k :: InRange(lo, hi, k) && AllAdmitted(e, up) ==>
              Keeps(Extend(ProbeEdge(e, k), up), Extend(ProbeEdge(RebalanceKids(e, i, at), k), up), k)
  {
    hide EdgeOk, EdgeAdmits, EdgeSettled, Keeps, Extend, ProbeEdge, RebalanceKids, SplitKid, MergeKids, Merged,
         CanSplit, Behind, NodeOk, Settled;
    DrainedFacts(e, i, lo, hi, h);
    SomeBasement(e.child.kids[i].child, LowerOf(e.child.pivots, lo, i), UpperOf(e.child.pivots, hi, i));
    RebalanceMiddle(e, i, at, hi);
    var f, bn := MergeKids(e, i, None), e.child.kids[i + 1].child.bn;
    var g := SplitKid(f, i, at, bn, None);
    MergeKidsOk(e, i, None, lo, hi, h);
    SplitKidOk(f, i, at, bn, None, lo, hi, h);
    SuitsTrans(e, f, g);
    forall up, k | InRange(lo, hi, k) && AllAdmitted(e, up)
      ensures Keeps(Extend(ProbeEdge(e, k), up), Extend(ProbeEdge(g, k), up), k)
    {
      MergeKidsKeeps(e, i, None, lo, hi, h, up, k);
      SplitKidKeeps(f, i, at, bn, None, lo, hi, h, up, k);
      KeepsTrans(Extend(ProbeEdge(e, k), up), Extend(ProbeEdge(f, k), up), Extend(ProbeEdge(g, k), up), k);
    }
  }

  lemma RebalanceStepOk(s: State, step: Step)
    requires TreeOk(s) && Enabled(s, step) && step.RebalanceChildren?
    ensures TreeOk(Exec(s, step)) && Unseen(s, Exec(s, step))
  {
    hide EdgeOk, EdgeSettled, Keeps, Extend, ProbeEdge, RebalanceKids, Merged, CanSplit, Behind, Suits,
         AllAdmitted, Rel;
    var h, path := Height(s.top.child), step.path;
    AtOk(s.top, path, None, None, h);
    var e := EdgeAt(s.top, path);
    RebalanceEdge(e, step.i, step.at, LoAt(s.top, path, None), HiAt(s.top, path, None), h - |path|);
    var e' := RebalanceKids(e, step.i, step.at);
    LocalTreeOk(s, path, e');
    forall k: Key ensures Keeps(ProbeEdge(s.top, k), ProbeEdge(Exec(s, step).top, k), k) {
      if Routed(s.top, path, k) {
        RoutedInRange(s.top, path, None, None, k);
        AboveAllAdmitted(s.top, path, h, k);
      }
      LocalKeeps(s.top, path, e', k);
    }
  }

  // ------------------------------------------------------------ the theorems

  /** Every step but an injection leaves the tree well-formed and is invisible. */
  lemma ReorganizeOk(s: State, step: Step)
    requires TreeOk(s) && Enabled(s, step) && !step.Inject?
    ensures TreeOk(Exec(s, step)) && Unseen(s, Exec(s, step))
  {
    hide TreeOk, Unseen, Exec, EnabledAt;
    match step
    case LockTopDown(_) => LockTopDownOk(s, step);
    case RebalanceChildren(_, _, _) => RebalanceStepOk(s, step);
    case NewRoot(_) => NewRootStepOk(s, step);
    case QueryLeafNode(_, _) => QueryStepOk(s, step);
    case _ => LocalOk(s, step);
  }

  /** The state of the tree agrees with its history. */
  ghost predicate Faithful(s: State) {
    forall k: Key ::
      DiskOk(ProbeEdge(s.top, k), k) && Placed(s, k) && View(s, k) == Replay(s.log, k)
  }

  lemma SuffixTrans(a: seq<Message>, b: seq<Message>, c: seq<Message>)
    requires IsSuffix(a, b) && IsSuffix(b, c)
    ensures IsSuffix(a, c)
  {
  }

  lemma ReorganizeFaithful(s: State, s': State)
    requires Faithful(s) && Unseen(s, s') && s'.log == s.log
    ensures Faithful(s')
  {
    hide ViewOf, ProbeEdge, DiskOk, Rel, Replay, IsSuffix;
    forall k: Key ensures DiskOk(ProbeEdge(s'.top, k), k) && Placed(s', k) && View(s', k) == Replay(s'.log, k) {
      assert Keeps(ProbeEdge(s.top, k), ProbeEdge(s'.top, k), k);
      SuffixTrans(ProbeEdge(s'.top, k).pend, ProbeEdge(s.top, k).pend, Rel(s.log, k));
    }
  }

  lemma InjectFaithful(s: State, step: Step)
    requires TreeOk(s) && Enabled(s, step) && step.Inject? && Faithful(s)
    ensures Faithful(Exec(s, step))
  {
    hide TreeOk, ViewOf, ProbeEdge, DiskOk, EnabledAt, NewEdge, NewRightmost, Rel, ReplaceAt;
    var s', m := Exec(s, step), NextMessage(s, step);
    forall k: Key ensures DiskOk(ProbeEdge(s'.top, k), k) && Placed(s', k) && View(s', k) == Replay(s'.log, k) {
      InjectSeen(s, step, k);
      RelOne(s.log, m, k);
      assert s'.log[..|s.log|] == s.log;
      SuffixGrows(ProbeEdge(s.top, k).pend, Rel(s.log, k), Only(m, k));
    }
  }

  lemma SuffixGrows(a: seq<Message>, b: seq<Message>, c: seq<Message>)
    requires IsSuffix(a, b)
    ensures IsSuffix(a + c, b + c) && IsSuffix([], b + c)
  {
    assert (b + c)[|b| - |a|..] == a + c;
  }

  /** One step keeps everything; an injection acts on every reader exactly as
      its message says, any other step on none. */
  lemma StepSafe(s: State, step: Step)
    requires TreeOk(s) && Faithful(s) && Enabled(s, step)
    ensures TreeOk(Exec(s, step)) && Faithful(Exec(s, step))
    ensures forall k: Key ::
              View(Exec(s, step), k)
              == if step.Inject? then ApplyOne(NextMessage(s, step), k, View(s, k)) else View(s, k)
  {
    hide TreeOk, EnabledAt, NewEdge, NewRightmost, ProbeEdge, ViewOf, DiskOk, Placed, ReplaceAt, GrowRoot;
    if step.Inject? {
      InjectTreeOk(s, step);
      InjectFaithful(s, step);
      assert Exec(s, step).log[..|s.log|] == s.log;
    } else {
      ReorganizeOk(s, step);
      ReorganizeFaithful(s, Exec(s, step));
    }
  }

  // -------------------------------------------------------------------- runs

  /** A new tree: the root is an empty leaf. */
  function Initial(bn: BlockNum): State {
    State(Kid(bn, [], Free, Leaf(bn, 0, true, [], [EMPTY_BASEMENT])), 0, None, [])
  }

  predicate CanRun(s: State, steps: seq<Step>)
    decreases steps
  {
    |steps| == 0 || (Enabled(s, steps[0]) && CanRun(Exec(s, steps[0]), steps[1..]))
  }

  function Run(s: State, steps: seq<Step>): State
    requires CanRun(s, steps)
    decreases steps
  {
    if |steps| == 0 then s else Run(Exec(s, steps[0]), steps[1..])
  }

  lemma InitialOk(bn: BlockNum)
    ensures TreeOk(Initial(bn)) && Faithful(Initial(bn))
  {
    var n := Leaf(bn, 0, true, [], [EMPTY_BASEMENT]);
    assert NodeOk(n, None, None);
    forall k: Key ensures
      DiskOk(ProbeEdge(Initial(bn).top, k), k) && Placed(Initial(bn), k) && View(Initial(bn), k) == Replay([], k)
    {
      EmptyEdgeProbe(Initial(bn).top, k);
    }
  }

  lemma {:induction false} RunOk(s: State, steps: seq<Step>)
    requires TreeOk(s) && Faithful(s) && CanRun(s, steps)
    ensures TreeOk(Run(s, steps)) && Faithful(Run(s, steps))
    decreases steps
  {
    hide TreeOk, Faithful, Exec, Enabled;
    if |steps| > 0 {
      StepSafe(s, steps[0]);
      RunOk(Exec(s, steps[0]), steps[1..]);
    }
  }

  /** The central claim of the design. After every interleaving of injections,
      locks, background flushes, splits, merges, rebalances, root growth,
      queries, evictions and write-outs, reading a key gives what applying every
      injected message in order gives, and the messages still waiting for a key
      are its most recent ones, each in one place and in order. */
  lemma TreeMeansItsMessages(bn: BlockNum, steps: seq<Step>, k: Key)
    requires CanRun(Initial(bn), steps)
    ensures
      var s := Run(Initial(bn), steps);
      TreeOk(s) && View(s, k) == Replay(s.log, k) && Placed(s, k)
  {
    hide TreeOk, Replay, View, Placed, CanRun;
    InitialOk(bn);
    RunOk(Initial(bn), steps);
    assert Faithful(Run(Initial(bn), steps));
  }
}
