/** Changing one node inside a tree: what the rest of the tree needs from the
    change, and what a reader of any key sees of it. */
module Paths {
  import opened Keys
  import opened Messages
  import opened Entries
  import opened Nodes

  type Path = seq<nat>

  predicate ValidPath(top: Kid, path: Path)
    decreases path
  {
    |path| == 0
    || (top.child.Inner? && path[0] < |top.child.kids| && ValidPath(top.child.kids[path[0]], path[1..]))
  }

  function EdgeAt(top: Kid, path: Path): Kid
    requires ValidPath(top, path)
    decreases path
  {
    if |path| == 0 then top else EdgeAt(top.child.kids[path[0]], path[1..])
  }

  function SetKid(n: Node, i: nat, e: Kid): Node
    requires n.Inner? && i < |n.kids|
  {
    n.(kids := n.kids[i := e])
  }

  function ReplaceAt(top: Kid, path: Path, e: Kid): Kid
    requires ValidPath(top, path)
    decreases path
  {
    if |path| == 0 then e
    else top.(child := SetKid(top.child, path[0], ReplaceAt(top.child.kids[path[0]], path[1..], e)))
  }

  function LoAt(top: Kid, path: Path, lo: Option<Key>): Option<Key>
    requires ValidPath(top, path)
    decreases path
  {
    if |path| == 0 then lo
    else
      var n := top.child;
      LoAt(n.kids[path[0]], path[1..], if path[0] <= |n.pivots| then LowerOf(n.pivots, lo, path[0]) else lo)
  }

  function HiAt(top: Kid, path: Path, hi: Option<Key>): Option<Key>
    requires ValidPath(top, path)
    decreases path
  {
    if |path| == 0 then hi
    else
      var n := top.child;
      HiAt(n.kids[path[0]], path[1..], if path[0] <= |n.pivots| then UpperOf(n.pivots, hi, path[0]) else hi)
  }

  /** All messages on the edges strictly above the path's end, lowest edge first. */
  function AboveMsgs(top: Kid, path: Path): seq<Message>
    requires ValidPath(top, path)
    decreases path
  {
    if |path| == 0 then []
    else AboveMsgs(top.child.kids[path[0]], path[1..]) + (Inflight(top) + top.buf)
  }

  /** The `asOf` marks of the top-down locks held strictly above the path's end. */
  function AsOfs(top: Kid, path: Path): seq<nat>
    requires ValidPath(top, path)
    decreases path
  {
    if |path| == 0 then []
    else
      AsOfs(top.child.kids[path[0]], path[1..])
      + (if top.pin.Held? && top.pin.topDown then [top.pin.asOf] else [])
  }

  /** Whether key `k` is routed along the path. */
  predicate Routed(top: Kid, path: Path, k: Key)
    requires ValidPath(top, path)
    decreases path
  {
    |path| == 0
    || (Route(top.child.pivots, k) == path[0] && Routed(top.child.kids[path[0]], path[1..], k))
  }

  // ------------------------------------------------------------ going down

  lemma {:induction false} AtOk(top: Kid, path: Path, lo: Option<Key>, hi: Option<Key>, h: nat)
    requires ValidPath(top, path) && EdgeOk(top, lo, hi, h)
    ensures |path| <= h
    ensures EdgeOk(EdgeAt(top, path), LoAt(top, path, lo), HiAt(top, path, hi), h - |path|)
    decreases path
  {
    if |path| > 0 {
      var n, i := top.child, path[0];
      AtOk(n.kids[i], path[1..], LowerOf(n.pivots, lo, i), UpperOf(n.pivots, hi, i), h - 1);
    }
  }

  lemma {:induction false} AtAdmits(top: Kid, path: Path, c: nat)
    requires ValidPath(top, path) && EdgeAdmits(top, c)
    ensures EdgeAdmits(EdgeAt(top, path), c)
    decreases path
  {
    if |path| > 0 {
      AtAdmits(top.child.kids[path[0]], path[1..], c);
    }
  }

  lemma {:induction false} AtSettled(top: Kid, path: Path, a: nat)
    requires ValidPath(top, path) && EdgeSettled(top, a)
    ensures EdgeSettled(EdgeAt(top, path), a)
    decreases path
  {
    if |path| > 0 {
      AtSettled(top.child.kids[path[0]], path[1..], a);
    }
  }

  /** Every message above the path's end is newer than what is at and below it. */
  lemma {:induction false} AboveAdmitted(top: Kid, path: Path, lo: Option<Key>, hi: Option<Key>, h: nat)
    requires ValidPath(top, path) && EdgeOk(top, lo, hi, h)
    ensures forall j :: 0 <= j < |AboveMsgs(top, path)| ==>
              EdgeAdmits(EdgeAt(top, path), AboveMsgs(top, path)[j].msn)
    decreases path
  {
    if |path| > 0 {
      var n, i := top.child, path[0];
      AboveAdmitted(n.kids[i], path[1..], LowerOf(n.pivots, lo, i), UpperOf(n.pivots, hi, i), h - 1);
      forall c | Admits(n, c) ensures EdgeAdmits(EdgeAt(top, path), c) {
        AtAdmits(n.kids[i], path[1..], c);
      }
      var here := Inflight(top) + top.buf;
      assert forall j :: 0 <= j < |here| ==> Admits(n, here[j].msn);
    }
  }

  lemma {:induction false} AboveSettled(top: Kid, path: Path, lo: Option<Key>, hi: Option<Key>, h: nat)
    requires ValidPath(top, path) && EdgeOk(top, lo, hi, h)
    ensures forall j :: 0 <= j < |AsOfs(top, path)| ==> EdgeSettled(EdgeAt(top, path), AsOfs(top, path)[j])
    decreases path
  {
    if |path| > 0 {
      var n, i := top.child, path[0];
      AboveSettled(n.kids[i], path[1..], LowerOf(n.pivots, lo, i), UpperOf(n.pivots, hi, i), h - 1);
      if top.pin.Held? && top.pin.topDown {
        AtSettled(n.kids[i], path[1..], top.pin.asOf);
      }
    }
  }

  // -------------------------------------------------------------- replacing

  lemma {:induction false} ReplaceAdmits(top: Kid, path: Path, e: Kid, c: nat)
    requires ValidPath(top, path) && EdgeAdmits(top, c) && EdgeAdmits(e, c)
    ensures EdgeAdmits(ReplaceAt(top, path, e), c)
    decreases path
  {
    if |path| > 0 {
      ReplaceAdmits(top.child.kids[path[0]], path[1..], e, c);
    }
  }

  lemma {:induction false} ReplaceSettled(top: Kid, path: Path, e: Kid, a: nat)
    requires ValidPath(top, path) && EdgeSettled(top, a) && EdgeSettled(e, a)
    ensures EdgeSettled(ReplaceAt(top, path, e), a)
    decreases path
  {
    if |path| > 0 {
      ReplaceSettled(top.child.kids[path[0]], path[1..], e, a);
    }
  }

  /** A local change keeps the whole tree well-formed, if the new edge is
      well-formed and suits every message and every lock above it. */
  lemma {:induction false} ReplaceOk(top: Kid, path: Path, e: Kid, lo: Option<Key>, hi: Option<Key>, h: nat)
    requires ValidPath(top, path) && EdgeOk(top, lo, hi, h)
    requires |path| <= h && EdgeOk(e, LoAt(top, path, lo), HiAt(top, path, hi), h - |path|)
    requires e.buf == EdgeAt(top, path).buf
    requires forall j :: 0 <= j < |AboveMsgs(top, path)| ==> EdgeAdmits(e, AboveMsgs(top, path)[j].msn)
    requires forall j :: 0 <= j < |AsOfs(top, path)| ==> EdgeSettled(e, AsOfs(top, path)[j])
    ensures EdgeOk(ReplaceAt(top, path, e), lo, hi, h)
    ensures ReplaceAt(top, path, e).buf == top.buf
    decreases path
  {
    hide EdgeOk, EdgeAdmits, EdgeSettled;
    if |path| > 0 {
      var n, i := top.child, path[0];
      KidOk(top, i, lo, hi, h);
      var below, here := AboveMsgs(n.kids[i], path[1..]), Inflight(top) + top.buf;
      var marks := AsOfs(n.kids[i], path[1..]);
      assert forall j :: 0 <= j < |below| ==> AboveMsgs(top, path)[j] == below[j];
      assert forall j :: 0 <= j < |here| ==> AboveMsgs(top, path)[|below| + j] == here[j];
      assert forall j :: 0 <= j < |marks| ==> AsOfs(top, path)[j] == marks[j];
      ReplaceOk(n.kids[i], path[1..], e, LowerOf(n.pivots, lo, i), UpperOf(n.pivots, hi, i), h - 1);
      var kid := ReplaceAt(n.kids[i], path[1..], e);
      forall j | 0 <= j < |top.buf| ensures EdgeAdmits(kid, top.buf[j].msn) {
        assert here[|Inflight(top)| + j] == top.buf[j];
        ReplaceAdmits(n.kids[i], path[1..], e, top.buf[j].msn);
      }
      forall j | 0 <= j < |Inflight(top)| ensures EdgeAdmits(kid, Inflight(top)[j].msn) {
        assert here[j] == Inflight(top)[j];
        ReplaceAdmits(n.kids[i], path[1..], e, Inflight(top)[j].msn);
      }
      if top.pin.Held? && top.pin.topDown {
        assert AsOfs(top, path)[|marks|] == top.pin.asOf;
        ReplaceSettled(n.kids[i], path[1..], e, top.pin.asOf);
      }
      SetKidOk(top, i, kid, lo, hi, h);
    }
  }

  /** What a well-formed edge says about one child of its node. */
  lemma KidOk(top: Kid, i: nat, lo: Option<Key>, hi: Option<Key>, h: nat)
    requires EdgeOk(top, lo, hi, h) && top.child.Inner? && i < |top.child.kids|
    ensures 0 < h && h == top.child.height && |top.child.kids| == |top.child.pivots| + 1
    ensures PivotsOk(top.child.pivots, lo, hi)
    ensures EdgeOk(top.child.kids[i], LowerOf(top.child.pivots, lo, i), UpperOf(top.child.pivots, hi, i), h - 1)
    ensures BufferAtMost(top.child.kids[i], top.child.maxMsn)
    ensures forall j :: 0 <= j < |top.buf| ==> EdgeAdmits(top.child.kids[i], top.buf[j].msn)
    ensures forall j :: 0 <= j < |Inflight(top)| ==> EdgeAdmits(top.child.kids[i], Inflight(top)[j].msn)
    ensures top.pin.Held? && top.pin.topDown ==> EdgeSettled(top.child.kids[i], top.pin.asOf)
  {
    assert forall j :: 0 <= j < |top.buf| ==> Admits(top.child, top.buf[j].msn);
    assert forall j :: 0 <= j < |Inflight(top)| ==> Admits(top.child, Inflight(top)[j].msn);
  }

  lemma SetKidOk(top: Kid, i: nat, kid: Kid, lo: Option<Key>, hi: Option<Key>, h: nat)
    requires EdgeOk(top, lo, hi, h) && top.child.Inner? && 0 < h
    requires i < |top.child.kids| == |top.child.pivots| + 1
    requires EdgeOk(kid, LowerOf(top.child.pivots, lo, i), UpperOf(top.child.pivots, hi, i), h - 1)
    requires BufferAtMost(kid, top.child.maxMsn)
    requires forall j :: 0 <= j < |top.buf| ==> EdgeAdmits(kid, top.buf[j].msn)
    requires forall j :: 0 <= j < |Inflight(top)| ==> EdgeAdmits(kid, Inflight(top)[j].msn)
    requires top.pin.Held? && top.pin.topDown ==> EdgeSettled(kid, top.pin.asOf)
    ensures EdgeOk(top.(child := SetKid(top.child, i, kid)), lo, hi, h)
  {
    var n := top.child;
    var n' := SetKid(n, i, kid);
    var top' := top.(child := n');
    assert NodeOk(n', lo, hi);
    forall j | 0 <= j < |top.buf| ensures EdgeAdmits(top', top.buf[j].msn) {
      assert EdgeAdmits(top, top.buf[j].msn) && Admits(n, top.buf[j].msn);
    }
    if top.pin.Held? {
      forall j | 0 <= j < |top.pin.inflight| ensures Admits(n', top.pin.inflight[j].msn) {
        assert Inflight(top)[j] == top.pin.inflight[j];
        assert Admits(n, top.pin.inflight[j].msn);
      }
    }
  }

  // ----------------------------------------------------------------- reading

  lemma ProbeEdgeExtends(e: Kid, k: Key)
    ensures ProbeEdge(e, k) == Extend(Probe(e.child, k), Rel(Inflight(e) + e.buf, k))
  {
    RelConcat(Inflight(e), e.buf, k);
  }

  lemma ExtendTwice(p: KeyState, a: seq<Message>, b: seq<Message>, k: Key)
    ensures Extend(Extend(p, Rel(a, k)), Rel(b, k)) == Extend(p, Rel(a + b, k))
  {
    RelConcat(a, b, k);
    assert (p.pend + Rel(a, k)) + Rel(b, k) == p.pend + (Rel(a, k) + Rel(b, k));
  }

  /** A key routed along the path sees the end of the path, then the messages above. */
  lemma {:induction false} ProbeAt(top: Kid, path: Path, k: Key)
    requires ValidPath(top, path) && Routed(top, path, k)
    ensures ProbeEdge(top, k) == Extend(ProbeEdge(EdgeAt(top, path), k), Rel(AboveMsgs(top, path), k))
    decreases path
  {
    if |path| == 0 {
      var p := ProbeEdge(top, k);
      assert p.pend + Rel([], k) == p.pend;
    } else {
      var e := top.child.kids[path[0]];
      ProbeAt(e, path[1..], k);
      ProbeEdgeExtends(top, k);
      assert Probe(top.child, k) == ProbeEdge(e, k);
      ExtendTwice(ProbeEdge(EdgeAt(e, path[1..]), k), AboveMsgs(e, path[1..]), Inflight(top) + top.buf, k);
    }
  }

  lemma {:induction false} ReplaceValid(top: Kid, path: Path, e: Kid, k: Key)
    requires ValidPath(top, path)
    ensures ValidPath(ReplaceAt(top, path, e), path)
    ensures EdgeAt(ReplaceAt(top, path, e), path) == e
    ensures AboveMsgs(ReplaceAt(top, path, e), path) == AboveMsgs(top, path)
    ensures Routed(ReplaceAt(top, path, e), path, k) == Routed(top, path, k)
    decreases path
  {
    if |path| > 0 {
      ReplaceValid(top.child.kids[path[0]], path[1..], e, k);
    }
  }

  /** A key that is not routed along the path does not see the change. */
  lemma {:induction false} ProbeElsewhere(top: Kid, path: Path, e: Kid, k: Key)
    requires ValidPath(top, path) && !Routed(top, path, k)
    ensures ProbeEdge(ReplaceAt(top, path, e), k) == ProbeEdge(top, k)
    decreases path
  {
    var i := path[0];
    if Route(top.child.pivots, k) == i {
      ProbeElsewhere(top.child.kids[i], path[1..], e, k);
    }
  }

  /** A key routed along the path lies in the range of the path's end. */
  lemma {:induction false} RoutedInRange(top: Kid, path: Path, lo: Option<Key>, hi: Option<Key>, k: Key)
    requires ValidPath(top, path) && Routed(top, path, k) && InRange(lo, hi, k)
    ensures InRange(LoAt(top, path, lo), HiAt(top, path, hi), k)
    decreases path
  {
    if |path| > 0 {
      var n, i := top.child, path[0];
      RouteInRange(n.pivots, lo, hi, k);
      RoutedInRange(n.kids[i], path[1..], LowerOf(n.pivots, lo, i), UpperOf(n.pivots, hi, i), k);
    }
  }
}
