/** Putting messages into a node: toku_ftnode_put_msg and toku_bnc_flush_to_child. */
module PutMsg {
  import opened Keys
  import opened Messages
  import opened Entries
  import opened Nodes

  function Max(a: nat, b: nat): nat { if a < b then b else a }

  /** A basement discards a message that is not newer than what it holds. */
  function BasementPut(b: Basement, m: Message): Basement {
    if m.msn > b.msn then b.(entries := ApplyToEntries(b.entries, m), msn := m.msn) else b
  }

  function BasementsPut(bs: seq<Basement>, m: Message): (r: seq<Basement>)
    ensures |r| == |bs|
    ensures forall i :: 0 <= i < |bs| ==> r[i] == BasementPut(bs[i], m)
  {
    seq(|bs|, i requires 0 <= i < |bs| => BasementPut(bs[i], m))
  }

  function LeafPut(n: Node, m: Message): Node
    requires n.Leaf?
  {
    var bases :=
      match m.scope
      case Once(k) =>
        var i := Route(Used(n), k);
        if i < |n.bases| then n.bases[i := BasementPut(n.bases[i], m)] else n.bases
      case All => BasementsPut(n.bases, m)
      case Nothing => n.bases;
    n.(dirty := true, maxMsn := Max(n.maxMsn, m.msn), bases := bases)
  }

  function Append(e: Kid, m: Message): Kid {
    e.(buf := e.buf + [m])
  }

  function AppendEach(kids: seq<Kid>, m: Message): (r: seq<Kid>)
    ensures |r| == |kids|
    ensures forall i :: 0 <= i < |kids| ==> r[i] == Append(kids[i], m)
  {
    seq(|kids|, i requires 0 <= i < |kids| => Append(kids[i], m))
  }

  function InnerPut(n: Node, m: Message): Node
    requires n.Inner?
  {
    var kids :=
      match m.scope
      case Once(k) =>
        var i := Route(n.pivots, k);
        if i < |n.kids| then n.kids[i := Append(n.kids[i], m)] else n.kids
      case All => AppendEach(n.kids, m)
      case Nothing => n.kids;
    n.(maxMsn := m.msn, kids := kids)
  }

  function Put(n: Node, m: Message): (r: Node)
    ensures r.Leaf? == n.Leaf? && r.bn == n.bn && Height(r) == Height(n) && r.pivots == n.pivots
    ensures n.Inner? ==> |r.kids| == |n.kids|
  {
    if n.Leaf? then LeafPut(n, m) else InnerPut(n, m)
  }

  /** Puts a whole buffer, oldest message first. */
  function PutAll(n: Node, ms: seq<Message>): (r: Node)
    ensures r.Leaf? == n.Leaf? && r.bn == n.bn && Height(r) == Height(n) && r.pivots == n.pivots
    ensures n.Inner? ==> |r.kids| == |n.kids|
  {
    if |ms| == 0 then n else Put(PutAll(n, ms[..|ms| - 1]), ms[|ms| - 1])
  }

  // ------------------------------------------------------------- nonleaf put

  lemma InnerPutOk(n: Node, m: Message, lo: Option<Key>, hi: Option<Key>)
    requires n.Inner? && NodeOk(n, lo, hi)
    requires Admits(n, m.msn) && Fits(m, lo, hi)
    ensures NodeOk(InnerPut(n, m), lo, hi)
  {
    var n' := InnerPut(n, m);
    forall i | 0 <= i < |n.kids|
      ensures EdgeOk(n'.kids[i], LowerOf(n.pivots, lo, i), UpperOf(n.pivots, hi, i), n.height - 1)
      ensures BufferAtMost(n'.kids[i], n'.maxMsn)
    {
      var e := n.kids[i];
      assert EdgeAdmits(e, m.msn) && BufferAtMost(e, n.maxMsn);
      if n'.kids[i] != e {
        assert n'.kids[i] == Append(e, m);
        if m.scope.Once? {
          RouteInRange(n.pivots, lo, hi, m.scope.key);
        }
        AppendOk(e, m, LowerOf(n.pivots, lo, i), UpperOf(n.pivots, hi, i), n.height - 1, n.maxMsn);
      }
    }
  }

  lemma AppendOk(e: Kid, m: Message, lo: Option<Key>, hi: Option<Key>, h: nat, a: nat)
    requires EdgeOk(e, lo, hi, h) && EdgeAdmits(e, m.msn) && Fits(m, lo, hi)
    requires BufferAtMost(e, a) && a < m.msn
    ensures EdgeOk(Append(e, m), lo, hi, h) && BufferAtMost(Append(e, m), m.msn)
  {
  }

  lemma InnerPutAdmits(n: Node, m: Message, c: nat)
    requires n.Inner? && Admits(n, c) && m.msn < c
    ensures Admits(InnerPut(n, m), c)
  {
  }

  lemma InnerPutSettled(n: Node, m: Message, a: nat)
    requires n.Inner? && Settled(n, a) && m.msn <= a
    ensures Settled(InnerPut(n, m), a)
  {
  }

  lemma RelOne(ms: seq<Message>, m: Message, k: Key)
    ensures Rel(ms + [m], k) == Rel(ms, k) + (if Relevant(m, k) then [m] else [])
  {
  }

  function Only(m: Message, k: Key): seq<Message> {
    if Relevant(m, k) then [m] else []
  }

  lemma AppendProbe(e: Kid, m: Message, k: Key)
    ensures ProbeEdge(Append(e, m), k) == Extend(ProbeEdge(e, k), Only(m, k))
  {
    var p, fl := Probe(e.child, k).pend, Rel(Inflight(e), k);
    RelOne(e.buf, m, k);
    assert p + (fl + (Rel(e.buf, k) + Only(m, k))) == (p + (fl + Rel(e.buf, k))) + Only(m, k);
  }

  lemma InnerPutProbe(n: Node, m: Message, k: Key)
    requires n.Inner? && |n.kids| == |n.pivots| + 1
    ensures Probe(InnerPut(n, m), k) == Extend(Probe(n, k), Only(m, k))
  {
    var i := Route(n.pivots, k);
    var p := ProbeEdge(n.kids[i], k);
    assert p.pend + [] == p.pend;
    AppendProbe(n.kids[i], m, k);
  }

  // ---------------------------------------------------------------- leaf put

  lemma BasementPutOk(n: Node, b: Basement, m: Message, lo: Option<Key>, hi: Option<Key>)
    requires n.Leaf? && BasementOk(n, b, lo, hi) && Fits(m, lo, hi)
    ensures BasementOk(LeafPut(n, m), BasementPut(b, m), lo, hi)
  {
    ApplyToEntriesOk(b.entries, m, lo, hi, 0.0);
  }

  lemma LeafPutOk(n: Node, m: Message, lo: Option<Key>, hi: Option<Key>)
    requires n.Leaf? && NodeOk(n, lo, hi) && Fits(m, lo, hi)
    ensures NodeOk(LeafPut(n, m), lo, hi)
  {
    var n' := LeafPut(n, m);
    assert Used(n') == Used(n);
    forall i | 0 <= i < |n.bases|
      ensures BasementOk(n', n'.bases[i], LowerOf(Used(n), lo, i), UpperOf(Used(n), hi, i))
    {
      assert BasementOk(n, n.bases[i], LowerOf(Used(n), lo, i), UpperOf(Used(n), hi, i));
      if n'.bases[i] != n.bases[i] {
        if m.scope.Once? {
          RouteInRange(Used(n), lo, hi, m.scope.key);
        }
        BasementPutOk(n, n.bases[i], m, LowerOf(Used(n), lo, i), UpperOf(Used(n), hi, i));
      }
    }
  }

  /** What one message does to one basement of a leaf. */
  lemma LeafPutBase(n: Node, m: Message, i: nat)
    requires n.Leaf? && i < |n.bases|
    ensures |LeafPut(n, m).bases| == |n.bases|
    ensures LeafPut(n, m).bases[i] in {n.bases[i], BasementPut(n.bases[i], m)}
    ensures forall k :: Route(Used(n), k) == i && Relevant(m, k) ==>
              LeafPut(n, m).bases[i] == BasementPut(n.bases[i], m)
  {
  }

  lemma LeafPutProbe(n: Node, m: Message, lo: Option<Key>, hi: Option<Key>, k: Key)
    requires n.Leaf? && NodeOk(n, lo, hi) && Fits(m, lo, hi) && InRange(lo, hi, k)
    ensures
      var p, p' := Probe(n, k), Probe(LeafPut(n, m), k);
      && p'.pend == [] && p'.dirty
      && p'.msn in {p.msn, Max(p.msn, m.msn)}
      && (Relevant(m, k) ==> m.msn <= p'.msn)
      && p'.val == if m.msn > p.msn then ApplyOne(m, k, p.val) else p.val
  {
    var i := Route(Used(n), k);
    assert Used(LeafPut(n, m)) == Used(n);
    LeafPutBase(n, m, i);
    var b := n.bases[i];
    assert BasementOk(n, b, LowerOf(Used(n), lo, i), UpperOf(Used(n), hi, i));
    if LeafPut(n, m).bases[i] != b {
      if m.scope.Once? {
        RouteInRange(Used(n), lo, hi, m.scope.key);
      }
      ApplyToEntriesOk(b.entries, m, LowerOf(Used(n), lo, i), UpperOf(Used(n), hi, i), k);
    }
  }

  /** `p'` is the state of key `k` once the leaf has taken the messages `ms`. */
  ghost predicate Absorbed(p: KeyState, p': KeyState, ms: seq<Message>, k: Key) {
    && p'.val == ReplayNewer(ms, p.msn, k, p.val)
    && p.msn <= p'.msn
    && (p'.msn == p.msn || exists i :: 0 <= i < |ms| && ms[i].msn == p'.msn)
  }

  lemma AbsorbedStep(p: KeyState, p1: KeyState, p': KeyState, ms: seq<Message>, m: Message, k: Key)
    requires MsnIncreasing(ms + [m]) && Absorbed(p, p1, ms, k)
    requires p'.msn in {p1.msn, Max(p1.msn, m.msn)}
    requires p'.val == if m.msn > p1.msn then ApplyOne(m, k, p1.val) else p1.val
    ensures Absorbed(p, p', ms + [m], k)
  {
  }

  lemma {:induction false} LeafPutAllOk(n: Node, ms: seq<Message>, lo: Option<Key>, hi: Option<Key>)
    requires n.Leaf? && NodeOk(n, lo, hi)
    requires forall i :: 0 <= i < |ms| ==> Fits(ms[i], lo, hi)
    ensures NodeOk(PutAll(n, ms), lo, hi)
  {
    if |ms| > 0 {
      LeafPutAllOk(n, ms[..|ms| - 1], lo, hi);
      LeafPutOk(PutAll(n, ms[..|ms| - 1]), ms[|ms| - 1], lo, hi);
    }
  }

  /** A whole flushed buffer changes a leaf, at every key, as if exactly the
      messages newer than the key's basement had been applied in order. */
  lemma {:induction false} LeafPutAllProbe(n: Node, ms: seq<Message>, lo: Option<Key>, hi: Option<Key>, k: Key)
    requires n.Leaf? && NodeOk(n, lo, hi) && InRange(lo, hi, k) && MsnIncreasing(ms)
    requires forall i :: 0 <= i < |ms| ==> Fits(ms[i], lo, hi)
    ensures Absorbed(Probe(n, k), Probe(PutAll(n, ms), k), ms, k)
  {
    hide Probe, NodeOk;
    if |ms| > 0 {
      var init, m := ms[..|ms| - 1], ms[|ms| - 1];
      var n1 := PutAll(n, init);
      assert Absorbed(Probe(n, k), Probe(n1, k), init, k) by { LeafPutAllProbe(n, init, lo, hi, k); }
      assert PutAll(n, ms) == LeafPut(n1, m);
      var p1, p2 := Probe(n1, k), Probe(LeafPut(n1, m), k);
      assert p2.msn in {p1.msn, Max(p1.msn, m.msn)}
          && p2.val == if m.msn > p1.msn then ApplyOne(m, k, p1.val) else p1.val by {
        LeafPutAllOk(n, init, lo, hi);
        LeafPutProbe(n1, m, lo, hi, k);
      }
      assert ms == init + [m];
      AbsorbedStep(Probe(n, k), p1, p2, init, m, k);
    }
  }

  /** Basement MSNs after a flush: unchanged, or the MSN of a flushed message. */
  lemma {:induction false} LeafPutAllMsn(n: Node, ms: seq<Message>, i: nat)
    requires n.Leaf? && i < |n.bases| && MsnIncreasing(ms)
    ensures |PutAll(n, ms).bases| == |n.bases|
    ensures
      var b, b' := n.bases[i], PutAll(n, ms).bases[i];
      b.msn <= b'.msn && (b'.msn == b.msn || exists j :: 0 <= j < |ms| && ms[j].msn == b'.msn)
  {
    if |ms| > 0 {
      var init := ms[..|ms| - 1];
      LeafPutAllMsn(n, init, i);
      LeafPutBase(PutAll(n, init), ms[|ms| - 1], i);
      assert forall j :: 0 <= j < |init| ==> init[j] == ms[j];
      var b', b1 := PutAll(n, ms).bases[i], PutAll(n, init).bases[i];
      if b'.msn != b1.msn {
        assert ms[|ms| - 1].msn == b'.msn;
      } else if b1.msn != n.bases[i].msn {
        var j :| 0 <= j < |init| && init[j].msn == b1.msn;
        assert ms[j].msn == b'.msn;
      }
    }
  }

  /** A message above that suited the leaf still suits it after older messages
      have been flushed into the leaf. */
  lemma LeafPutAllUniform(n: Node, ms: seq<Message>, c: nat)
    requires n.Leaf? && MsnIncreasing(ms) && Uniform(n, c)
    requires forall j :: 0 <= j < |ms| ==> ms[j].msn < c
    ensures Uniform(PutAll(n, ms), c)
  {
    var n' := PutAll(n, ms);
    if |n.bases| == 0 {
      LeafPutAllCount(n, ms);
    } else {
      LeafPutAllMsn(n, ms, 0);
      forall i | 0 <= i < |n.bases|
        ensures n.bases[i].msn < c ==> n'.bases[i].msn < c
        ensures c <= n.bases[i].msn ==> c <= n'.bases[i].msn
      {
        LeafPutAllMsn(n, ms, i);
      }
    }
  }

  lemma {:induction false} LeafPutAllCount(n: Node, ms: seq<Message>)
    requires n.Leaf?
    ensures |PutAll(n, ms).bases| == |n.bases|
    ensures |ms| > 0 ==> PutAll(n, ms).dirty
  {
    if |ms| > 0 {
      LeafPutAllCount(n, ms[..|ms| - 1]);
    }
  }

  lemma {:induction false} LeafPutAllSettled(n: Node, ms: seq<Message>, a: nat)
    requires n.Leaf? && Settled(n, a)
    requires forall j :: 0 <= j < |ms| ==> ms[j].msn <= a
    ensures Settled(PutAll(n, ms), a)
  {
    if |ms| > 0 {
      LeafPutAllSettled(n, ms[..|ms| - 1], a);
      var n1, n2 := PutAll(n, ms[..|ms| - 1]), PutAll(n, ms);
      forall i | 0 <= i < |n2.bases| ensures n2.bases[i].msn <= a {
        LeafPutBase(n1, ms[|ms| - 1], i);
      }
    }
  }

  // ------------------------------------------------- whole buffer, nonleaf

  /** A whole buffer flushed into a nonleaf node keeps it well-formed: every
      message lands behind the ones already there, in its key's range. */
  lemma {:induction false} InnerPutAllOk(n: Node, ms: seq<Message>, lo: Option<Key>, hi: Option<Key>)
    requires n.Inner? && NodeOk(n, lo, hi) && MsnIncreasing(ms)
    requires forall i :: 0 <= i < |ms| ==> Fits(ms[i], lo, hi) && Admits(n, ms[i].msn)
    ensures NodeOk(PutAll(n, ms), lo, hi)
  {
    if |ms| > 0 {
      var init, m := ms[..|ms| - 1], ms[|ms| - 1];
      InnerPutAllOk(n, init, lo, hi);
      InnerPutAllAdmits(n, init, m.msn);
      InnerPutOk(PutAll(n, init), m, lo, hi);
    }
  }

  /** A flush into a nonleaf node keeps the pending messages of every key. */
  lemma {:induction false} InnerPutAllProbe(n: Node, ms: seq<Message>, k: Key)
    requires n.Inner? && |n.kids| == |n.pivots| + 1
    ensures Probe(PutAll(n, ms), k) == Extend(Probe(n, k), Rel(ms, k))
  {
    hide Probe;
    var pend := Probe(n, k).pend;
    if |ms| == 0 {
      assert pend + Rel(ms, k) == pend;
    } else {
      var init, m := ms[..|ms| - 1], ms[|ms| - 1];
      InnerPutAllProbe(n, init, k);
      InnerPutProbe(PutAll(n, init), m, k);
      assert pend + Rel(ms, k) == (pend + Rel(init, k)) + Only(m, k);
    }
  }

  lemma {:induction false} InnerPutAllAdmits(n: Node, ms: seq<Message>, c: nat)
    requires n.Inner? && Admits(n, c)
    requires forall i :: 0 <= i < |ms| ==> ms[i].msn < c
    ensures Admits(PutAll(n, ms), c)
  {
    if |ms| > 0 {
      InnerPutAllAdmits(n, ms[..|ms| - 1], c);
      InnerPutAdmits(PutAll(n, ms[..|ms| - 1]), ms[|ms| - 1], c);
    }
  }

  lemma {:induction false} InnerPutAllSettled(n: Node, ms: seq<Message>, a: nat)
    requires n.Inner? && Settled(n, a)
    requires forall i :: 0 <= i < |ms| ==> ms[i].msn <= a
    ensures Settled(PutAll(n, ms), a)
  {
    if |ms| > 0 {
      InnerPutAllSettled(n, ms[..|ms| - 1], a);
      InnerPutSettled(PutAll(n, ms[..|ms| - 1]), ms[|ms| - 1], a);
    }
  }
}
