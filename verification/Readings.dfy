/** No step of a flush, no eviction, no write-out and no reorganization of the
    tree changes what a reader of any key sees. */
module Readings {
  import opened Keys
  import opened Messages
  import opened Entries
  import opened Nodes
  import opened PutMsg
  import opened Leaves
  import opened LeafMerge
  import opened Paths
  import opened Halves
  import opened Parents
  import opened Edges
  import opened Reshape

  /** A clean basement may be reloaded from disk without a reader noticing. */
  ghost predicate DiskOk(p: KeyState, k: Key) {
    !p.dirty ==> DiskViewOf(p, k) == ViewOf(p, k)
  }

  ghost predicate IsSuffix(a: seq<Message>, b: seq<Message>) {
    |a| <= |b| && a == b[|b| - |a|..]
  }

  /** A change from `p` to `p'` that a reader of `k` cannot notice; pending
      messages disappear only from the bottom, oldest first. */
  ghost predicate Keeps(p: KeyState, p': KeyState, k: Key) {
    DiskOk(p, k) ==>
      ViewOf(p', k) == ViewOf(p, k) && DiskOk(p', k) && IsSuffix(p'.pend, p.pend)
  }

  ghost predicate AllAdmitted(e: Kid, up: seq<Message>) {
    forall j :: 0 <= j < |up| ==> EdgeAdmits(e, up[j].msn)
  }

  lemma KeepsSame(p: KeyState, k: Key)
    ensures Keeps(p, p, k)
  {
  }

  // ------------------------------------------------ changes of one key state

  /** The basement's MSN changes without any pending message noticing. */
  lemma ShiftKeeps(p: KeyState, p': KeyState, up: seq<Message>, k: Key)
    requires p'.val == p.val && p'.pend == p.pend && p'.dirty
    requires forall j :: 0 <= j < |p.pend + up| ==> (p.msn < (p.pend + up)[j].msn <==> p'.msn < (p.pend + up)[j].msn)
    ensures Keeps(Extend(p, up), Extend(p', up), k)
  {
    hide ReplayNewer;
    ReplayNewerSameThreshold(p.pend + up, p.msn, p'.msn, k, p.val);
    KeepsSame(Extend(p, up), k);
  }

  /** A clean basement is replaced by its disk image. */
  lemma ReloadKeeps(p: KeyState, up: seq<Message>, k: Key)
    requires !p.dirty
    ensures Keeps(Extend(p, up), Extend(p.(val := p.diskVal, msn := p.diskMsn), up), k)
  {
  }

  /** The leaf takes the oldest pending messages. */
  lemma AbsorbKeeps(p: KeyState, p': KeyState, ms: seq<Message>, rest: seq<Message>, k: Key)
    requires p.pend == [] && Absorbed(p, p', ms, k) && p'.dirty
    requires forall i, j :: 0 <= i < |ms| && 0 <= j < |rest| ==> ms[i].msn < rest[j].msn
    ensures Keeps(Extend(p, Rel(ms, k) + rest), p'.(pend := rest), k)
  {
    hide ReplayNewer, Rel;
    ReplayNewerConcat(Rel(ms, k), rest, p.msn, k, p.val);
    ReplayNewerRel(ms, p.msn, k, p.val);
    ReplayNewerSameThreshold(rest, p.msn, p'.msn, k, p'.val);
    assert [] + (Rel(ms, k) + rest) == Rel(ms, k) + rest;
  }

  // ------------------------------------------------------- steps on one edge

  lemma RelAdmitted(e: Kid, ms: seq<Message>, k: Key)
    requires AllAdmitted(e, ms)
    ensures AllAdmitted(e, Rel(ms, k))
  {
    hide EdgeAdmits;
    RelIn(ms, k);
  }

  /** Applying the buffer in flight to the locked child. */
  lemma ApplyKeeps(e: Kid, lo: Option<Key>, hi: Option<Key>, h: nat, up: seq<Message>, k: Key)
    requires EdgeOk(e, lo, hi, h) && e.pin.Held? && InRange(lo, hi, k) && AllAdmitted(e, up)
    ensures Keeps(Extend(ProbeEdge(e, k), up), Extend(ProbeEdge(Apply(e), k), up), k)
  {
    if e.child.Inner? {
      InnerApplyKeeps(e, lo, hi, h, up, k);
    } else {
      LeafApplyKeeps(e, lo, hi, h, up, k);
    }
  }

  lemma InnerApplyKeeps(e: Kid, lo: Option<Key>, hi: Option<Key>, h: nat, up: seq<Message>, k: Key)
    requires EdgeOk(e, lo, hi, h) && e.pin.Held? && e.child.Inner?
    ensures Keeps(Extend(ProbeEdge(e, k), up), Extend(ProbeEdge(Apply(e), k), up), k)
  {
    hide Keeps, Extend, Rel, Probe, PutAll, NodeOk, QueueOk;
    InnerShape(e.child, lo, hi);
    InnerPutAllProbe(e.child, e.pin.inflight, k);
    InnerApplyProbe(e, k);
    KeepsSame(Extend(ProbeEdge(e, k), up), k);
  }

  lemma InnerApplyProbe(e: Kid, k: Key)
    requires e.pin.Held? && e.child.Inner?
    requires Probe(PutAll(e.child, e.pin.inflight), k) == Extend(Probe(e.child, k), Rel(e.pin.inflight, k))
    ensures ProbeEdge(Apply(e), k) == ProbeEdge(e, k)
  {
    hide Probe, PutAll;
    var p, fl, bf := Probe(e.child, k).pend, Rel(e.pin.inflight, k), Rel(e.buf, k);
    assert (p + fl) + ([] + bf) == p + (fl + bf);
  }

  lemma LeafApplyKeeps(e: Kid, lo: Option<Key>, hi: Option<Key>, h: nat, up: seq<Message>, k: Key)
    requires EdgeOk(e, lo, hi, h) && e.pin.Held? && e.child.Leaf? && InRange(lo, hi, k) && AllAdmitted(e, up)
    ensures Keeps(Extend(ProbeEdge(e, k), up), Extend(ProbeEdge(Apply(e), k), up), k)
  {
    hide Keeps, Rel, Probe, PutAll, NodeOk, ReplayNewer;
    var n, ms := e.child, e.pin.inflight;
    var rest := Rel(e.buf, k) + up;
    LeafPutAllProbe(n, ms, lo, hi, k);
    LeafEdgeProbe(e, k);
    LeafEdgeProbe(Apply(e), k);
    LeafPutAllCount(n, ms);
    LeafApplyProbe(n, ms, k);
    RelIn(e.buf, k);
    forall i, j | 0 <= i < |ms| && 0 <= j < |rest| ensures ms[i].msn < rest[j].msn {
      if j < |Rel(e.buf, k)| {
        assert rest[j] in e.buf;
        var x :| 0 <= x < |e.buf| && e.buf[x] == rest[j];
        assert EdgeAdmits(e, e.buf[x].msn);
      } else {
        assert EdgeAdmits(e, up[j - |Rel(e.buf, k)|].msn);
      }
    }
    var p, p' := Probe(n, k), Probe(Flushed(n, ms), k);
    AbsorbKeeps(p, p', ms, rest, k);
    assert ([] + (Rel(ms, k) + Rel(e.buf, k))) + up == [] + (Rel(ms, k) + rest);
    RelEmpty(k);
    assert ([] + (Rel([], k) + Rel(e.buf, k))) + up == rest;
  }

  lemma RelEmpty(k: Key)
    ensures Rel([], k) == []
  {
  }

  lemma LeafEdgeProbe(e: Kid, k: Key)
    requires e.child.Leaf?
    ensures Probe(e.child, k).pend == []
    ensures ProbeEdge(e, k) == Probe(e.child, k).(pend := [] + (Rel(Inflight(e), k) + Rel(e.buf, k)))
  {
  }

  lemma LeafApplyProbe(n: Node, ms: seq<Message>, k: Key)
    requires n.Leaf?
    ensures Probe(Flushed(n, ms), k) == Probe(PutAll(n, ms), k).(dirty := true)
  {
    hide PutAll;
    assert Used(Flushed(n, ms)) == Used(PutAll(n, ms));
  }

  /** Detaching a buffer, with the clean basements that are ahead dropped. */
  lemma DetachedKeeps(kid: Kid, pin: Pin, maxMsn: nat, lo: Option<Key>, hi: Option<Key>, h: nat, up: seq<Message>, k: Key)
    requires EdgeOk(kid, lo, hi, h) && kid.pin.Free? && pin.Held?
    ensures Keeps(Extend(ProbeEdge(kid, k), up), Extend(ProbeEdge(Detached(kid, pin, maxMsn), k), up), k)
  {
    hide Keeps, Extend, NodeOk, QueueOk, Rel;
    var kid' := Detached(kid, pin, maxMsn);
    var queue := Rel(kid.buf, k);
    RelEmpty(k);
    assert Rel(Inflight(kid), k) + Rel(kid.buf, k) == queue && Rel(Inflight(kid'), k) + Rel(kid'.buf, k) == queue;
    if kid'.child == kid.child {
      KeepsSame(Extend(ProbeEdge(kid, k), up), k);
    } else {
      DropAheadProbe(kid.child, maxMsn, k);
      if Probe(kid'.child, k) == Probe(kid.child, k) {
        KeepsSame(Extend(ProbeEdge(kid, k), up), k);
      } else {
        ReloadKeeps(ProbeEdge(kid, k), up, k);
      }
    }
  }

  lemma DropAheadProbe(n: Node, c: nat, k: Key)
    requires n.Leaf?
    ensures
      var p, p' := Probe(n, k), Probe(DropAhead(n, c), k);
      p' == p || (!p.dirty && p' == p.(val := p.diskVal, msn := p.diskMsn))
  {
    assert Used(DropAhead(n, c)) == Used(n);
  }

  lemma EvictKeeps(e: Kid, j: nat, up: seq<Message>, k: Key)
    requires e.child.Leaf? && !e.child.dirty && j < |e.child.bases|
    ensures Keeps(Extend(ProbeEdge(e, k), up), Extend(ProbeEdge(Evict(e, j), k), up), k)
  {
    hide Keeps, Extend, Rel;
    var n, n' := e.child, Evict(e, j).child;
    assert Used(n') == Used(n);
    LeafEdgeProbe(e, k);
    if Route(Used(n), k) == j {
      assert !Probe(n, k).dirty;
      ReloadKeeps(ProbeEdge(e, k), up, k);
    } else {
      KeepsSame(Extend(ProbeEdge(e, k), up), k);
    }
  }

  /** Writing a dirty leaf out with one MSN for all its basements. */
  lemma WriteLeafKeeps(e: Kid, limit: nat, lo: Option<Key>, hi: Option<Key>, h: nat, up: seq<Message>, k: Key)
    requires EdgeOk(e, lo, hi, h) && e.child.Leaf? && e.child.dirty
    requires InRange(lo, hi, k) && AllAdmitted(e, up)
    ensures Keeps(Extend(ProbeEdge(e, k), up), Extend(ProbeEdge(WriteLeaf(e, limit), k), up), k)
  {
    hide Rel, Probe, NodeOk, WriteOut, ReplayNewer, MaxBaseMsn;
    var n, p := e.child, ProbeEdge(e, k);
    WriteOutKeepsValues(n, limit, lo, hi, k);
    LeafProbeMsn(n, lo, hi, k);
    LeafEdgeProbe(e, k);
    WriteOutPend(n, limit, k);
    var all := p.pend + up;
    assert p.pend == Rel(Inflight(e), k) + Rel(e.buf, k);
    AllUniform(e, lo, hi, h, up, k);
    forall j | 0 <= j < |all| ensures p.msn < all[j].msn <==> MaxBaseMsn(n.bases) < all[j].msn {
      UniformMax(n, all[j].msn);
    }
    ReplayNewerSameThreshold(all, p.msn, MaxBaseMsn(n.bases), k, p.val);
    KeepsSame(Extend(p, up), k);
  }

  /** All basements of a dirty leaf are on one side of every pending message. */
  lemma AllUniform(e: Kid, lo: Option<Key>, hi: Option<Key>, h: nat, up: seq<Message>, k: Key)
    requires EdgeOk(e, lo, hi, h) && e.child.Leaf? && e.child.dirty && AllAdmitted(e, up)
    ensures
      var all := Rel(Inflight(e), k) + Rel(e.buf, k) + up;
      forall j :: 0 <= j < |all| ==> Uniform(e.child, all[j].msn)
  {
    hide Rel, NodeOk, Uniform;
    var fl, bf := Rel(Inflight(e), k), Rel(e.buf, k);
    RelIn(Inflight(e), k);
    RelIn(e.buf, k);
    forall j | 0 <= j < |fl| ensures Uniform(e.child, fl[j].msn) {
      assert fl[j] in Inflight(e);
      var x :| 0 <= x < |Inflight(e)| && Inflight(e)[x] == fl[j];
      assert Admits(e.child, e.pin.inflight[x].msn);
    }
    forall j | 0 <= j < |bf| ensures Uniform(e.child, bf[j].msn) {
      assert bf[j] in e.buf;
      var x :| 0 <= x < |e.buf| && e.buf[x] == bf[j];
      assert EdgeAdmits(e, e.buf[x].msn);
    }
    forall j | 0 <= j < |up| ensures Uniform(e.child, up[j].msn) {
      assert EdgeAdmits(e, up[j].msn);
    }
  }

  lemma WriteOutPend(n: Node, limit: nat, k: Key)
    requires n.Leaf?
    ensures Probe(WriteOut(n, limit), k).pend == []
  {
  }

  lemma UniformMax(n: Node, c: nat)
    requires n.Leaf? && Uniform(n, c) && |n.bases| > 0
    ensures forall i :: 0 <= i < |n.bases| ==> (n.bases[i].msn < c <==> MaxBaseMsn(n.bases) < c)
  {
  }

  // ----------------------------------------------------- reshaping a parent

  /** The messages a kid of `e` has above it, when `up` is above `e`. */
  function AboveKid(e: Kid, up: seq<Message>, k: Key): seq<Message> {
    Rel(Inflight(e) + e.buf, k) + up
  }

  lemma AboveKidAdmitted(e: Kid, i: nat, lo: Option<Key>, hi: Option<Key>, h: nat, up: seq<Message>, k: Key)
    requires EdgeOk(e, lo, hi, h) && e.child.Inner? && i < |e.child.kids| && AllAdmitted(e, up)
    ensures AllAdmitted(e.child.kids[i], AboveKid(e, up, k))
  {
    hide EdgeAdmits, EdgeOk, Rel;
    var kid, here := e.child.kids[i], Inflight(e) + e.buf;
    KidOk(e, i, lo, hi, h);
    assert AllAdmitted(kid, here);
    RelAdmitted(kid, here, k);
    forall j | 0 <= j < |up| ensures EdgeAdmits(kid, up[j].msn) {
      EdgeAdmitsKid(e, i, up[j].msn);
    }
  }

  lemma EdgeAdmitsKid(e: Kid, i: nat, c: nat)
    requires EdgeAdmits(e, c) && e.child.Inner? && i < |e.child.kids|
    ensures EdgeAdmits(e.child.kids[i], c)
  {
  }

  /** What a reader sees through `e`, in terms of the kid its key belongs to. */
  lemma ThroughKid(e: Kid, i: nat, up: seq<Message>, k: Key)
    requires e.child.Inner? && Route(e.child.pivots, k) == i < |e.child.kids|
    ensures Extend(ProbeEdge(e, k), up) == Extend(ProbeEdge(e.child.kids[i], k), AboveKid(e, up, k))
  {
    hide ProbeEdge, Rel, Route;
    ProbeEdgeExtends(e, k);
    InnerProbe(e.child, k, i);
    var p, q := ProbeEdge(e.child.kids[i], k), Rel(Inflight(e) + e.buf, k);
    assert (p.pend + q) + up == p.pend + (q + up);
  }

  lemma DetachKeeps(e: Kid, i: nat, lo: Option<Key>, hi: Option<Key>, h: nat, up: seq<Message>, k: Key)
    requires EdgeOk(e, lo, hi, h) && e.pin.Held? && e.child.Inner?
    requires i < |e.child.kids| && e.child.kids[i].pin.Free?
    ensures Keeps(Extend(ProbeEdge(e, k), up), Extend(ProbeEdge(Detach(e, i), k), up), k)
  {
    hide Keeps, Extend, ProbeEdge, EdgeOk, AboveKid, Detached, Route;
    KidOk(e, i, lo, hi, h);
    var n, e', r := e.child, Detach(e, i), Route(e.child.pivots, k);
    ThroughKid(e, r, up, k);
    ThroughKid(e', r, up, k);
    AboveKidSame(e, e', up, k);
    if r == i {
      DetachedKeeps(n.kids[i], e.pin, n.maxMsn, LowerOf(n.pivots, lo, i), UpperOf(n.pivots, hi, i), h - 1,
                    AboveKid(e, up, k), k);
    } else {
      KeepsSame(Extend(ProbeEdge(e, k), up), k);
    }
  }

  lemma AboveKidSame(e: Kid, e': Kid, up: seq<Message>, k: Key)
    requires e'.buf == e.buf && Inflight(e') == Inflight(e)
    ensures AboveKid(e', up, k) == AboveKid(e, up, k)
  {
  }

  lemma ThroughNode(e: Kid, up: seq<Message>, k: Key)
    ensures Extend(ProbeEdge(e, k), up) == Extend(Probe(e.child, k), AboveKid(e, up, k))
  {
    hide Probe, ProbeEdge, Rel;
    ProbeEdgeExtends(e, k);
    var p, q := Probe(e.child, k), Rel(Inflight(e) + e.buf, k);
    assert (p.pend + q) + up == p.pend + (q + up);
  }

  /** Splitting a child is invisible. */
  lemma SplitKidKeeps(e: Kid, i: nat, at: SplitLoc, bn: BlockNum, rm: Option<BlockNum>,
                      lo: Option<Key>, hi: Option<Key>, h: nat, up: seq<Message>, k: Key)
    requires EdgeOk(e, lo, hi, h) && SplitEnabled(e, i, at, hi) && InRange(lo, hi, k) && AllAdmitted(e, up)
    ensures Keeps(Extend(ProbeEdge(e, k), up), Extend(ProbeEdge(SplitKid(e, i, at, bn, rm), k), up), k)
  {
    hide Keeps, Extend, Probe, ProbeEdge, EdgeOk, AboveKid, SplitParent, CanSplit, AllAdmitted, Route, NodeOk,
         Settled;
    DrainedFacts(e, i, lo, hi, h);
    SplitNodeOk(e, i, at, bn, rm, lo, hi, h);
    var p, kid, r := e.child, e.child.kids[i], Route(e.child.pivots, k);
    var n, key, v := kid.child, SplitPivot(kid.child, at), AboveKid(e, up, k);
    var e' := SplitKid(e, i, at, bn, rm);
    SplitParentProbe(p, i, InPlaceOf(kid, LeftHalf(n, at, bn, rm)), InPlaceOf(kid, RightHalf(n, at, bn, rm)), key, lo, hi, k);
    ThroughNode(e, up, k);
    ThroughNode(e', up, k);
    AboveKidSame(e, e', up, k);
    if r != i {
      KeepsSame(Extend(ProbeEdge(e, k), up), k);
    } else {
      RouteInRange(p.pivots, lo, hi, k);
      InnerProbe(p, k, i);
      EmptyEdgeProbe(kid, k);
      AboveKidAdmitted(e, i, lo, hi, h, up, k);
      HalfProbe(kid, at, bn, rm, k);
      HalfKeeps(kid, at, bn, LowerOf(p.pivots, lo, i), UpperOf(p.pivots, hi, i), e.pin.topDown, v, k);
    }
  }

  lemma HalfProbe(kid: Kid, at: SplitLoc, bn: BlockNum, rm: Option<BlockNum>, k: Key)
    requires CanSplit(kid.child, at) && kid.pin.Held? && |kid.pin.inflight| == 0
    ensures k <= SplitPivot(kid.child, at) ==>
              ProbeEdge(InPlaceOf(kid, LeftHalf(kid.child, at, bn, rm)), k) == Probe(HalfFor(kid.child, at, bn, k), k)
    ensures SplitPivot(kid.child, at) < k ==>
              ProbeEdge(InPlaceOf(kid, RightHalf(kid.child, at, bn, rm)), k) == Probe(HalfFor(kid.child, at, bn, k), k)
  {
    hide Probe, ProbeEdge, SplitPivot, SplitLeft, SplitRight, CanSplit;
    var n := kid.child;
    WithBnSame(SplitLeft(n, at), if rm == Some(n.bn) then bn else n.bn, k);
    WithBnSame(SplitRight(n, at, bn), if rm == Some(n.bn) then n.bn else bn, k);
    EmptyEdgeProbe(InPlaceOf(kid, LeftHalf(n, at, bn, rm)), k);
    EmptyEdgeProbe(InPlaceOf(kid, RightHalf(n, at, bn, rm)), k);
  }

  lemma HalfKeeps(kid: Kid, at: SplitLoc, bn: BlockNum, lo: Option<Key>, hi: Option<Key>,
                  topDown: bool, v: seq<Message>, k: Key)
    requires NodeOk(kid.child, lo, hi) && CanSplit(kid.child, at) && InRange(lo, hi, k)
    requires kid.pin.Held? && AllAdmitted(kid, v) && kid.pin.topDown == topDown
    requires Behind(kid.child, at) ==> topDown && Settled(kid.child, kid.pin.asOf)
    ensures Keeps(Extend(Probe(kid.child, k), v), Extend(Probe(HalfFor(kid.child, at, bn, k), k), v), k)
  {
    hide Keeps, Probe, NodeOk, CanSplit, HalfFor;
    var n := kid.child;
    if n.Inner? {
      InnerSplitProbe(n, at, bn, lo, hi, k);
      KeepsSame(Extend(Probe(n, k), v), k);
    } else {
      var p, p' := Probe(n, k), Probe(HalfFor(n, at, bn, k), k);
      LeafSplitState(n, at, bn, lo, hi, k);
      forall j | 0 <= j < |v| ensures p.msn < v[j].msn <==> p'.msn < v[j].msn {
        assert EdgeAdmits(kid, v[j].msn);
        LeafSplitProbe(n, at, bn, lo, hi, k, v[j].msn);
      }
      assert p.pend + v == v;
      ShiftKeeps(p, p', v, k);
    }
  }

  lemma LeafSplitState(n: Node, at: SplitLoc, bn: BlockNum, lo: Option<Key>, hi: Option<Key>, k: Key)
    requires n.Leaf? && NodeOk(n, lo, hi) && CanSplit(n, at)
    ensures
      var p, p' := Probe(n, k), Probe(HalfFor(n, at, bn, k), k);
      p.pend == p'.pend == [] && p'.val == p.val && p'.dirty
  {
    SplitKeepsValues(n, at, lo, hi, bn, k);
  }

  /** Merging two children is invisible. */
  lemma MergeKidsKeeps(e: Kid, i: nat, rm: Option<BlockNum>,
                       lo: Option<Key>, hi: Option<Key>, h: nat, up: seq<Message>, k: Key)
    requires EdgeOk(e, lo, hi, h) && MergeEnabled(e, i) && InRange(lo, hi, k) && AllAdmitted(e, up)
    ensures Keeps(Extend(ProbeEdge(e, k), up), Extend(ProbeEdge(MergeKids(e, i, rm), k), up), k)
  {
    hide Keeps, Extend, Probe, ProbeEdge, EdgeOk, AboveKid, MergeParent, AllAdmitted, Route, NodeOk, Settled,
         MergedNode;
    DrainedFacts(e, i, lo, hi, h);
    DrainedFacts(e, i + 1, lo, hi, h);
    var p, r := e.child, Route(e.child.pivots, k);
    var ka, kb, v := p.kids[i], p.kids[i + 1], AboveKid(e, up, k);
    var m := MergedNode(ka.child, kb.child, p.pivots[i], rm);
    var e' := MergeKids(e, i, rm);
    MergeParentProbe(p, i, InPlaceOf(ka, m), lo, hi, k);
    ThroughNode(e, up, k);
    ThroughNode(e', up, k);
    AboveKidSame(e, e', up, k);
    if r == i || r == i + 1 {
      RouteInRange(p.pivots, lo, hi, k);
      InnerProbe(p, k, r);
      EmptyEdgeProbe(p.kids[r], k);
      EmptyEdgeProbe(InPlaceOf(ka, m), k);
      AboveKidAdmitted(e, r, lo, hi, h, up, k);
      RouteSide(p.pivots, lo, hi, i, k);
      MergedKeeps(ka, kb, p.pivots[i], rm, LowerOf(p.pivots, lo, i), UpperOf(p.pivots, hi, i + 1), v, k);
    } else {
      KeepsSame(Extend(ProbeEdge(e, k), up), k);
    }
  }

  lemma RouteSide(ps: seq<Key>, lo: Option<Key>, hi: Option<Key>, i: nat, k: Key)
    requires i < |ps| && PivotsOk(ps, lo, hi)
    ensures Route(ps, k) == i ==> k <= ps[i]
    ensures Route(ps, k) == i + 1 ==> ps[i] < k
    ensures Inside(LowerOf(ps, lo, i), UpperOf(ps, hi, i + 1), ps[i])
  {
  }

  lemma MergedKeeps(ka: Kid, kb: Kid, key: Key, rm: Option<BlockNum>, lo: Option<Key>, hi: Option<Key>, v: seq<Message>, k: Key)
    requires NodeOk(ka.child, lo, Some(key)) && NodeOk(kb.child, Some(key), hi) && Height(ka.child) == Height(kb.child)
    requires Inside(lo, hi, key) && InRange(lo, hi, k) && AllAdmitted(if k <= key then ka else kb, v)
    requires ka.pin.Held? && kb.pin.Held? && kb.pin.asOf == ka.pin.asOf && kb.pin.topDown == ka.pin.topDown
    requires ka.child.Leaf? ==> ka.pin.topDown
    requires ka.pin.topDown ==> Settled(ka.child, ka.pin.asOf) && Settled(kb.child, ka.pin.asOf)
    ensures Keeps(Extend(Probe(if k <= key then ka.child else kb.child, k), v),
                  Extend(Probe(MergedNode(ka.child, kb.child, key, rm), k), v), k)
  {
    hide Keeps, Probe, NodeOk, Merged;
    var a, b, old' := ka.child, kb.child, if k <= key then ka.child else kb.child;
    MergedOk(a, b, key, rm, lo, hi);
    WithBnSame(Merged(a, b, key), MergedNode(a, b, key, rm).bn, k);
    MergedProbe(a, b, key, lo, hi, k);
    if a.Inner? {
      KeepsSame(Extend(Probe(old', k), v), k);
    } else {
      var m := MergedNode(a, b, key, rm);
      var p, p' := Probe(old', k), Probe(m, k);
      MergedSettled(a, b, key, rm, ka.pin.asOf);
      LeafProbeMsn(m, lo, hi, k);
      if k <= key {
        LeafProbeMsn(a, lo, Some(key), k);
      } else {
        LeafProbeMsn(b, Some(key), hi, k);
      }
      assert p.msn <= ka.pin.asOf && p'.msn <= ka.pin.asOf;
      forall j | 0 <= j < |v| ensures p.msn < v[j].msn && p'.msn < v[j].msn {
        assert EdgeAdmits(if k <= key then ka else kb, v[j].msn);
      }
      assert p.pend + v == v;
      ShiftKeeps(p, p', v, k);
    }
  }

  lemma MergedProbe(a: Node, b: Node, key: Key, lo: Option<Key>, hi: Option<Key>, k: Key)
    requires NodeOk(a, lo, Some(key)) && NodeOk(b, Some(key), hi) && Height(a) == Height(b)
    requires Inside(lo, hi, key) && InRange(lo, hi, k)
    ensures
      var p, p' := Probe(if k <= key then a else b, k), Probe(Merged(a, b, key), k);
      && (a.Inner? ==> p' == p)
      && (a.Leaf? ==> p'.val == p.val && p'.dirty)
  {
    if a.Leaf? {
      assert b.Leaf?;
      MergeKeepsValues(a, b, lo, key, hi, k);
    } else {
      MergeInnerProbe(a, b, key, lo, hi, k);
    }
  }

  // ----------------------------------------------- merging without that lock

  const SOME_ENTRY := LeafEntry(false, 1, 1)

  /** A leaf whose last basement has become empty, and its right neighbour, which has
      seen newer messages. */
  function LeftExample(): Node {
    Leaf(1, 5, true, [1.0], [Basement([Entry(1.0, SOME_ENTRY)], 5, []), Basement([], 5, [])])
  }

  function RightExample(): Node {
    Leaf(2, 9, true, [], [Basement([Entry(4.0, SOME_ENTRY)], 9, [])])
  }

  function WaitingExample(): Message {
    Message(7, Once(2.0), (k, v) => Some(SOME_ENTRY))
  }

  lemma ExamplesOk()
    ensures NodeOk(LeftExample(), None, Some(3.0)) && NodeOk(RightExample(), Some(3.0), None)
    ensures Admits(LeftExample(), 7) && Admits(RightExample(), 7)
  {
    var a, b := LeftExample(), RightExample();
    assert Used(a) == [1.0] && Used(b) == [];
    assert BasementOk(a, a.bases[0], None, Some(1.0)) && BasementOk(a, a.bases[1], Some(1.0), Some(3.0));
    assert BasementOk(b, b.bases[0], Some(3.0), None);
  }

  lemma ExampleProbes()
    ensures Probe(LeftExample(), 2.0) == KeyState([], None, 5, true, None, 5)
    ensures Probe(MergeLeaves(LeftExample(), RightExample()), 2.0) == KeyState([], None, 9, true, None, 9)
  {
  }

  /** Why leaves are merged only under locks taken from the root down: the left leaf's
      empty last basement is dropped, so its keys come under the MSN of the right
      leaf's first basement, and a message between the two MSNs that still waits above
      is lost. */
  lemma MergeNeedsTopDown()
    ensures NodeOk(LeftExample(), None, Some(3.0)) && NodeOk(RightExample(), Some(3.0), None)
    ensures Admits(LeftExample(), 7) && Admits(RightExample(), 7)
    ensures ViewOf(Extend(Probe(LeftExample(), 2.0), [WaitingExample()]), 2.0) == Some(SOME_ENTRY)
    ensures ViewOf(Extend(Probe(MergeLeaves(LeftExample(), RightExample()), 2.0), [WaitingExample()]), 2.0) == None
  {
    hide Probe, NodeOk, MergeLeaves, Admits, ReplayNewer, LeftExample, RightExample;
    ExamplesOk();
    ExampleProbes();
    var m := WaitingExample();
    assert [] + [m] == [m];
    OneMessage(m, 5, 2.0, None);
    OneMessage(m, 9, 2.0, None);
  }

  lemma OneMessage(m: Message, c: nat, k: Key, v: Option<LeafEntry>)
    ensures ReplayNewer([m], c, k, v) == if m.msn > c then ApplyOne(m, k, v) else v
  {
  }
}
