/** The rightmost-leaf shortcut in the whole tree: what readers see after it, exactly
    when that is what the message history says, and why it then is an injection. */
module ShortcutTree {
  import opened Keys
  import opened Messages
  import opened Entries
  import opened Nodes
  import opened PutMsg
  import opened Leaves
  import opened Paths
  import opened Query
  import opened Reshape
  import opened Readings
  import opened Protocol
  import opened Pins
  import opened Rightmost
  import opened Shortcut

  type Effect = (Key, Option<LeafEntry>) -> Option<LeafEntry>

  /** The rightmost leaf is not locked by another thread. */
  predicate AtLeaf(s: State) {
    && ValidPath(s.top, Spine(s.top))
    && var e := EdgeAt(s.top, Spine(s.top));
       e.child.Leaf? && |e.child.bases| > 0 && e.pin.Free?
  }

  function LastLeaf(s: State): Node
    requires AtLeaf(s)
  {
    EdgeAt(s.top, Spine(s.top)).child
  }

  /** ft_insert_directly_into_leaf: the put into the target basement that
      ft_leaf_get_relative_key_pos has chosen. */
  function ShortcutPut(n: Node, key: Key, unique: bool, m: Message): Node
    requires n.Leaf? && |n.bases| > 0
  {
    var i := Target(n, key, unique);
    if 0 <= i < |n.bases| then PutInto(n, i, m) else LeafPut(n, m)
  }

  function ShortcutMessage(s: State, key: Key, effect: Effect): Message {
    Message(s.maxMsn + 1, Once(key), effect)
  }

  function ShortcutState(s: State, key: Key, unique: bool, effect: Effect): State
    requires AtLeaf(s)
  {
    var e, m := EdgeAt(s.top, Spine(s.top)), ShortcutMessage(s, key, effect);
    State(ReplaceAt(s.top, Spine(s.top), e.(child := ShortcutPut(e.child, key, unique, m))), s.maxMsn + 1,
          s.rightmost, s.log + [m])
  }

  /** After the shortcut every reader sees what the history says, whatever the
      message does. */
  ghost predicate RightAfter(s: State, key: Key, unique: bool)
    requires AtLeaf(s)
  {
    forall effect: Effect, k: Key ::
      View(ShortcutState(s, key, unique, effect), k) == Replay(ShortcutState(s, key, unique, effect).log, k)
  }

  // ---------------------------------------------------- the basement that changes

  function Touched(n: Node, key: Key, unique: bool): int
    requires n.Leaf? && |n.bases| > 0
  {
    if Target(n, key, unique) == -1 then Route(Used(n), key) else Target(n, key, unique)
  }

  lemma LeafInTree(s: State)
    requires TreeOk(s) && AtLeaf(s)
    ensures
      var lo := LoAt(s.top, Spine(s.top), None);
      NodeOk(LastLeaf(s), lo, None) && HiAt(s.top, Spine(s.top), None) == None
    ensures |LastLeaf(s).bases| == |Used(LastLeaf(s))| + 1 && Settled(LastLeaf(s), s.maxMsn)
    ensures AllLast(s.top, Spine(s.top)) && (RightClear(s.top) ==> EmptyPath(s.top, Spine(s.top)))
  {
    hide EdgeOk, EdgeSettled, Spine, RightClear, Settled;
    var path, h := Spine(s.top), Height(s.top.child);
    TopNoEmptyNode(s);
    SpineOk(s.top);
    AtOk(s.top, path, None, None, h);
    AtSettled(s.top, path, s.maxMsn);
    SpineHi(s.top, path, None, None, h);
    LeafEdgeNode(EdgeAt(s.top, path), LoAt(s.top, path, None), None, h - |path|);
    LeafRoute(LastLeaf(s), LoAt(s.top, path, None), None);
    KidSettled(EdgeAt(s.top, path), s.maxMsn);
  }

  lemma ShortcutPutIs(n: Node, key: Key, unique: bool, m: Message)
    requires n.Leaf? && |n.bases| == |Used(n)| + 1 && m.scope == Once(key)
    ensures 0 <= Touched(n, key, unique) < |n.bases|
    ensures ShortcutPut(n, key, unique, m) == PutInto(n, Touched(n, key, unique), m)
  {
    hide Flat, BasementPut;
  }

  lemma PutIntoProbe(n: Node, i: nat, m: Message, lo: Option<Key>, hi: Option<Key>, k: Key)
    requires n.Leaf? && NodeOk(n, lo, hi) && i < |n.bases| == |Used(n)| + 1
    requires m.scope.Once? && InRange(lo, hi, m.scope.key) && n.bases[i].msn < m.msn
    ensures
      var p, p' := Probe(n, k), Probe(PutInto(n, i, m), k);
      && p.pend == p'.pend == []
      && (Route(Used(n), k) != i ==> p'.val == p.val && p'.msn == p.msn)
      && (Route(Used(n), k) == i ==> p'.msn == m.msn)
      && (Route(Used(n), k) == i == Route(Used(n), m.scope.key) ==> p'.val == ApplyOne(m, k, p.val))
  {
    hide ApplyToEntries, Lookup;
    assert Used(PutInto(n, i, m)) == Used(n);
    if Route(Used(n), m.scope.key) == i {
      RouteInRange(Used(n), lo, hi, m.scope.key);
      assert BasementOk(n, n.bases[i], LowerOf(Used(n), lo, i), UpperOf(Used(n), hi, i));
      ApplyToEntriesOk(n.bases[i].entries, m, LowerOf(Used(n), lo, i), UpperOf(Used(n), hi, i), k);
    }
  }

  lemma RelAtMost(ms: seq<Message>, a: nat, k: Key)
    requires forall i :: 0 <= i < |ms| ==> ms[i].msn <= a
    ensures forall i :: 0 <= i < |Rel(ms, k)| ==> Rel(ms, k)[i].msn <= a
  {
    RelIn(ms, k);
  }

  /** Whatever waits for a key has an MSN that was handed out. */
  lemma {:induction false} PendSettled(e: Kid, a: nat, k: Key)
    requires EdgeSettled(e, a)
    ensures forall i :: 0 <= i < |ProbeEdge(e, k).pend| ==> ProbeEdge(e, k).pend[i].msn <= a
    decreases e
  {
    RelAtMost(e.buf, a, k);
    RelAtMost(Inflight(e), a, k);
    if e.child.Inner? {
      var i := Route(e.child.pivots, k);
      if i < |e.child.kids| {
        assert EdgeSettled(e.child.kids[i], a);
        PendSettled(e.child.kids[i], a, k);
        assert Probe(e.child, k) == ProbeEdge(e.child.kids[i], k);
      }
    }
  }

  lemma SpineRouted(s: State, key: Key)
    requires TreeOk(s) && AtLeaf(s) && Position3(LastLeaf(s), key) >= 0
    ensures Routed(s.top, Spine(s.top), key) && InRange(LoAt(s.top, Spine(s.top), None), None, key)
  {
    hide EdgeOk, EdgeSettled, Spine, Flat, NodeOk;
    var path, n, lo := Spine(s.top), LastLeaf(s), LoAt(s.top, Spine(s.top), None);
    LeafInTree(s);
    LeafFlat(n, lo, None, key);
    assert InRange(lo, None, Flat(n.bases)[0].key);
    InRangeRouted(s.top, path, None, None, Height(s.top.child), key);
  }

  /** The key's readers look at the basement that the shortcut for `key` changes. */
  predicate Beside(s: State, key: Key, unique: bool, k: Key)
    requires AtLeaf(s)
  {
    Routed(s.top, Spine(s.top), k) && Route(Used(LastLeaf(s)), k) == Touched(LastLeaf(s), key, unique)
  }

  /** Readers after the shortcut: those of other basements see no change; those of
      the changed basement see it alone, without the messages waiting above. */
  lemma ShortcutView(s: State, key: Key, unique: bool, effect: Effect, k: Key)
    requires TreeOk(s) && AtLeaf(s) && Position3(LastLeaf(s), key) >= 0
    ensures
      var s', m, v := ShortcutState(s, key, unique, effect), ShortcutMessage(s, key, effect),
                      Lookup(Flat(LastLeaf(s).bases), k);
      && (!Beside(s, key, unique, k) ==> View(s', k) == View(s, k))
      && (Beside(s, key, unique, k) && RightBasement(LastLeaf(s), key, unique) ==> View(s', k) == ApplyOne(m, k, v))
  {
    hide EdgeOk, EdgeSettled, Spine, Flat, NodeOk, Lookup, Probe, ProbeEdge, ReplayNewer, PutInto, ShortcutPut, Settled,
         ApplyOne, Rel, Target;
    var path, n, lo := Spine(s.top), LastLeaf(s), LoAt(s.top, Spine(s.top), None);
    var e, m, i := EdgeAt(s.top, path), ShortcutMessage(s, key, effect), Touched(n, key, unique);
    LeafInTree(s);
    SpineRouted(s, key);
    ShortcutPutIs(n, key, unique, m);
    var e' := e.(child := ShortcutPut(n, key, unique, m));
    BaseSettled(n, i, s.maxMsn);
    PutIntoProbe(n, i, m, lo, None, k);
    LeafFlat(n, lo, None, k);
    ReplaceValid(s.top, path, e', k);
    if Routed(s.top, path, k) {
      ProbeAt(s.top, path, k);
      ProbeAt(ReplaceAt(s.top, path, e'), path, k);
      PutIntoLeaf(n, i, m);
      LeafEdgeProbe(e, k);
      LeafEdgeProbe(e', k);
      if Beside(s, key, unique, k) {
        PendSettled(s.top, s.maxMsn, k);
        ReplayNewerNone(ProbeEdge(s.top, k).pend, m.msn, k, Probe(e'.child, k).val);
      }
    } else {
      ProbeElsewhere(s.top, path, e', k);
    }
  }

  lemma BaseSettled(n: Node, i: nat, a: nat)
    requires n.Leaf? && i < |n.bases| && Settled(n, a)
    ensures n.bases[i].msn <= a
  {
  }

  lemma PutIntoLeaf(n: Node, i: nat, m: Message)
    requires n.Leaf? && i < |n.bases|
    ensures PutInto(n, i, m).Leaf?
  {
  }

  // ------------------------------------------------------------- exactly when

  /** No message that waits above the rightmost leaf would change a key of the
      basement that the shortcut changes. */
  ghost predicate NothingWaits(s: State, key: Key, unique: bool)
    requires AtLeaf(s)
  {
    forall k: Key :: Beside(s, key, unique, k) ==> View(s, k) == Lookup(Flat(LastLeaf(s).bases), k)
  }

  lemma LogGrows(s: State, key: Key, unique: bool, effect: Effect, k: Key)
    requires AtLeaf(s) && View(s, k) == Replay(s.log, k)
    ensures Replay(ShortcutState(s, key, unique, effect).log, k) == ApplyOne(ShortcutMessage(s, key, effect), k, View(s, k))
  {
    hide View, ReplaceAt, ShortcutPut, Spine;
    var log := ShortcutState(s, key, unique, effect).log;
    assert log[..|log| - 1] == s.log;
  }

  /** In every state, an insert through the shortcut gives every reader what the
      history says, whatever its effect, exactly if it goes to the key's own basement
      and no waiting message would change a key of that basement. */
  lemma ShortcutExact(s: State, key: Key, unique: bool)
    requires TreeOk(s) && Faithful(s) && AtLeaf(s) && Inserts(LastLeaf(s), key, unique)
    ensures RightAfter(s, key, unique) <==> RightBasement(LastLeaf(s), key, unique) && NothingWaits(s, key, unique)
  {
    hide TreeOk, Flat, Lookup, View, Replay, Spine, ReplaceAt, ShortcutState;
    assert Touched(LastLeaf(s), key, unique) == Route(Used(LastLeaf(s)), key)
           <==> RightBasement(LastLeaf(s), key, unique);
    if !RightBasement(LastLeaf(s), key, unique) {
      WrongBasement(s, key, unique);
    } else if NothingWaits(s, key, unique) {
      SpineRouted(s, key);
      forall effect: Effect, k: Key
        ensures View(ShortcutState(s, key, unique, effect), k) == Replay(ShortcutState(s, key, unique, effect).log, k)
      {
        ShortcutView(s, key, unique, effect, k);
        LogGrows(s, key, unique, effect, k);
      }
    } else {
      var k: Key :| Beside(s, key, unique, k) && View(s, k) != Lookup(Flat(LastLeaf(s).bases), k);
      var same: Effect := (q, v) => v;
      ShortcutView(s, key, unique, same, k);
      LogGrows(s, key, unique, same, k);
      assert View(ShortcutState(s, key, unique, same), k) != Replay(ShortcutState(s, key, unique, same).log, k);
    }
  }

  function Bump(): Effect {
    (q, v: Option<LeafEntry>) => Some(LeafEntry(false, 0, if v.Some? then v.value.payload + 1 else 0))
  }

  /** An update that goes to another basement than the key's own is lost. */
  lemma WrongBasement(s: State, key: Key, unique: bool)
    requires TreeOk(s) && Faithful(s) && AtLeaf(s) && Inserts(LastLeaf(s), key, unique)
    requires !RightBasement(LastLeaf(s), key, unique)
    ensures View(ShortcutState(s, key, unique, Bump()), key) == View(s, key)
         != Replay(ShortcutState(s, key, unique, Bump()).log, key)
    ensures !RightAfter(s, key, unique)
  {
    hide TreeOk, Flat, Lookup, View, Replay, Spine, ReplaceAt, ShortcutState;
    ShortcutView(s, key, unique, Bump(), key);
    LogGrows(s, key, unique, Bump(), key);
  }

  // ---------------------------------------------------------- with a good score

  lemma ClearSees(s: State, k: Key)
    requires TreeOk(s) && AtLeaf(s) && RightClear(s.top) && Routed(s.top, Spine(s.top), k)
    ensures View(s, k) == Lookup(Flat(LastLeaf(s).bases), k)
  {
    hide EdgeOk, EdgeSettled, Spine, Flat, NodeOk, Lookup, Probe, ProbeEdge, RightClear, Rel;
    var path, e := Spine(s.top), EdgeAt(s.top, Spine(s.top));
    LeafInTree(s);
    ClearAbove(s.top, path);
    ProbeAt(s.top, path, k);
    RelEmpty(k);
    LeafEdgeProbe(e, k);
    LeafFlat(e.child, LoAt(s.top, path, None), None, k);
    assert ProbeEdge(s.top, k).pend == [];
  }

  lemma {:induction false} ClearAbove(top: Kid, path: Path)
    requires ValidPath(top, path) && AllLast(top, path) && RightClear(top)
    ensures AboveMsgs(top, path) == [] && RightClear(EdgeAt(top, path))
    ensures |EdgeAt(top, path).buf| == 0 && |Inflight(EdgeAt(top, path))| == 0
    decreases path
  {
    if |path| > 0 {
      ClearAbove(top.child.kids[path[0]], path[1..]);
    }
  }

  /** With a positive score the shortcut is right for all keys it inserts and all
      effects exactly on safe leaves. */
  lemma ShortcutSafeIff(s: State, score: nat, unique: bool)
    requires TreeOk(s) && Faithful(s) && RightOk(s, score) && score > 0 && AtLeaf(s)
    ensures (forall key :: Inserts(LastLeaf(s), key, unique) ==> RightAfter(s, key, unique))
            <==> SafeFor(LastLeaf(s), unique)
  {
    hide TreeOk, Faithful, Flat, Lookup, View, Spine, RightAfter, SafeFor, Inserts, RightBasement, Touched,
         Bns, RightBn, RightClear, Routed, NodeOk;
    var n, lo := LastLeaf(s), LoAt(s.top, Spine(s.top), None);
    LeafInTree(s);
    if SafeFor(n, unique) {
      forall key | Inserts(n, key, unique) ensures RightAfter(s, key, unique) {
        SafeRight(n, lo, None, key, unique);
        forall k: Key | Beside(s, key, unique, k) ensures View(s, k) == Lookup(Flat(n.bases), k) {
          ClearSees(s, k);
        }
        ShortcutExact(s, key, unique);
      }
    } else {
      var key := UnsafeWrong(n, lo, None, unique);
      ShortcutExact(s, key, unique);
    }
  }

  function Raised(score: nat): nat {
    if score < SCORE_THRESHOLD then score + 1 else score
  }

  /** On a safe leaf the shortcut is an injection of the protocol. */
  lemma ShortcutIsInject(s: State, score: nat, key: Key, unique: bool, effect: Effect)
    requires TreeOk(s) && RightOk(s, score) && score > 0 && AtLeaf(s) && FreePath(s.top, Spine(s.top))
    requires SafeFor(LastLeaf(s), unique) && Inserts(LastLeaf(s), key, unique)
    ensures
      var step := Inject(Spine(s.top), Once(key), effect);
      && Enabled(s, step) && ShortcutState(s, key, unique, effect) == Exec(s, step)
      && NextScore(s, step, score) == Raised(score)
  {
    hide TreeOk, Flat, Lookup, Spine, SafeFor, Bns, RightBn, RightClear, Routed, NodeOk, ReplaceAt, Target, LeafPut,
         PutInto, Settled, EdgeAt;
    var n, lo := LastLeaf(s), LoAt(s.top, Spine(s.top), None);
    LeafInTree(s);
    SafeRight(n, lo, None, key, unique);
    ShortcutIsPromotion(s, score, key, effect);
    ShortcutPutIs(n, key, unique, ShortcutMessage(s, key, effect));
    PutIntoRoute(n, ShortcutMessage(s, key, effect));
  }

  lemma PutIntoRoute(n: Node, m: Message)
    requires n.Leaf? && |n.bases| == |Used(n)| + 1 && m.scope.Once?
    ensures PutInto(n, Route(Used(n), m.scope.key), m) == LeafPut(n, m) == Put(n, m)
  {
    hide BasementPut;
  }
}
