/** The steps of a flush on one edge of the tree: lock, detach, apply, unlock,
    and the eviction of basements. */
module Edges {
  import opened Keys
  import opened Messages
  import opened Entries
  import opened Nodes
  import opened PutMsg
  import opened Leaves
  import opened LeafMerge
  import opened Paths

  /** Edge `e'` may stand in for `e` whatever is above it. */
  ghost predicate Suits(e: Kid, e': Kid) {
    && e'.buf == e.buf && e'.bn == e.bn
    && (forall c :: EdgeAdmits(e, c) ==> EdgeAdmits(e', c))
    && (forall a :: EdgeSettled(e, a) ==> EdgeSettled(e', a))
  }

  /** Replacing an edge by one that suits keeps the whole tree well-formed. */
  lemma SuitsReplaceOk(top: Kid, path: Path, e: Kid, lo: Option<Key>, hi: Option<Key>, h: nat)
    requires ValidPath(top, path) && EdgeOk(top, lo, hi, h) && |path| <= h
    requires EdgeOk(e, LoAt(top, path, lo), HiAt(top, path, hi), h - |path|)
    requires Suits(EdgeAt(top, path), e)
    ensures EdgeOk(ReplaceAt(top, path, e), lo, hi, h)
    ensures ReplaceAt(top, path, e).buf == top.buf
  {
    hide EdgeOk, EdgeAdmits, EdgeSettled;
    AboveAdmitted(top, path, lo, hi, h);
    AboveSettled(top, path, lo, hi, h);
    ReplaceOk(top, path, e, lo, hi, h);
  }

  lemma SuitsSettled(top: Kid, path: Path, e: Kid, a: nat)
    requires ValidPath(top, path) && EdgeSettled(top, a) && Suits(EdgeAt(top, path), e)
    ensures EdgeSettled(ReplaceAt(top, path, e), a)
  {
    AtSettled(top, path, a);
    ReplaceSettled(top, path, e, a);
  }

  // ------------------------------------------------------------ lock, unlock

  function Unpin(e: Kid): Kid {
    e.(pin := Free)
  }

  lemma UnpinOk(e: Kid, lo: Option<Key>, hi: Option<Key>, h: nat)
    requires EdgeOk(e, lo, hi, h) && |Inflight(e)| == 0
    ensures EdgeOk(Unpin(e), lo, hi, h) && Suits(e, Unpin(e))
  {
  }

  /** The cleaner locks any nonleaf node. */
  function PinCleaner(e: Kid): Kid {
    e.(pin := Held(0, false, []))
  }

  lemma PinCleanerOk(e: Kid, lo: Option<Key>, hi: Option<Key>, h: nat)
    requires EdgeOk(e, lo, hi, h) && e.pin.Free? && e.child.Inner?
    ensures EdgeOk(PinCleaner(e), lo, hi, h) && Suits(e, PinCleaner(e))
  {
  }

  /** A top-down lock, taken when the highest MSN handed out is `asOf`. */
  function PinTopDown(e: Kid, asOf: nat): Kid {
    e.(pin := Held(asOf, true, []))
  }

  lemma PinTopDownOk(e: Kid, asOf: nat, lo: Option<Key>, hi: Option<Key>, h: nat)
    requires EdgeOk(e, lo, hi, h) && e.pin.Free? && |e.buf| == 0 && Settled(e.child, asOf)
    ensures EdgeOk(PinTopDown(e, asOf), lo, hi, h)
    ensures EdgeSettled(PinTopDown(e, asOf), asOf)
  {
  }

  // ----------------------------------------------------------------- detach

  /** Dropping a clean basement brings back its disk image and the node's MSN. */
  function Reload(n: Node, b: Basement): Basement
    requires n.Leaf?
  {
    b.(entries := b.disk, msn := n.maxMsn)
  }

  /** maybe_destroy_child_blbs: basements of a clean leaf that are ahead of the
      parent's MSN are dropped from memory. */
  function DropAhead(n: Node, c: nat): Node
    requires n.Leaf?
  {
    if n.dirty || |n.bases| <= 1 then n
    else n.(bases := seq(|n.bases|, i requires 0 <= i < |n.bases| =>
                           if n.bases[i].msn > c then Reload(n, n.bases[i]) else n.bases[i]))
  }

  /** The locked child with the parent's buffer detached and in flight. */
  function Detached(kid: Kid, pin: Pin, maxMsn: nat): Kid
    requires pin.Held?
  {
    Kid(kid.bn, [], Held(pin.asOf, pin.topDown, kid.buf),
        if pin.topDown || kid.child.Inner? then kid.child else DropAhead(kid.child, maxMsn))
  }

  function Detach(e: Kid, i: nat): Kid
    requires e.pin.Held? && e.child.Inner? && i < |e.child.kids|
  {
    e.(child := SetKid(e.child, i, Detached(e.child.kids[i], e.pin, e.child.maxMsn)))
  }

  lemma DropAheadOk(n: Node, c: nat, lo: Option<Key>, hi: Option<Key>)
    requires n.Leaf? && NodeOk(n, lo, hi)
    ensures NodeOk(DropAhead(n, c), lo, hi)
  {
  }

  /** Once the basements ahead of the parent are dropped, all basements are on
      the same side of every message above the parent. */
  lemma DropAheadUniform(n: Node, maxMsn: nat, c: nat, lo: Option<Key>, hi: Option<Key>)
    requires n.Leaf? && NodeOk(n, lo, hi) && Admits(n, c) && maxMsn < c
    ensures Uniform(DropAhead(n, maxMsn), c)
  {
  }

  lemma DetachedOk(kid: Kid, pin: Pin, maxMsn: nat, lo: Option<Key>, hi: Option<Key>, h: nat)
    requires EdgeOk(kid, lo, hi, h) && kid.pin.Free? && pin.Held?
    requires pin.topDown ==> EdgeSettled(kid, pin.asOf)
    ensures EdgeOk(Detached(kid, pin, maxMsn), lo, hi, h)
  {
    if !pin.topDown && kid.child.Leaf? {
      DropAheadOk(kid.child, maxMsn, lo, hi);
    }
    var kid' := Detached(kid, pin, maxMsn);
    forall j | 0 <= j < |kid.buf| ensures Admits(kid'.child, kid.buf[j].msn) {
      assert EdgeAdmits(kid, kid.buf[j].msn);
    }
  }

  lemma DetachedAdmits(kid: Kid, pin: Pin, maxMsn: nat, lo: Option<Key>, hi: Option<Key>, h: nat, c: nat)
    requires EdgeOk(kid, lo, hi, h) && kid.pin.Free? && pin.Held?
    requires pin.topDown ==> EdgeSettled(kid, pin.asOf) && pin.asOf < c
    requires EdgeAdmits(kid, c) && BufferAtMost(kid, maxMsn) && maxMsn < c
    ensures EdgeAdmits(Detached(kid, pin, maxMsn), c)
  {
  }

  lemma DetachedSettled(kid: Kid, pin: Pin, maxMsn: nat, a: nat)
    requires kid.pin.Free? && pin.Held? && EdgeSettled(kid, a) && (pin.topDown ==> pin.asOf <= a)
    ensures EdgeSettled(Detached(kid, pin, maxMsn), a)
  {
  }

  lemma SetKidAdmits(n: Node, i: nat, kid: Kid, c: nat)
    requires n.Inner? && i < |n.kids| && Admits(n, c) && EdgeAdmits(kid, c)
    ensures Admits(SetKid(n, i, kid), c)
  {
  }

  lemma SetKidSettled(n: Node, i: nat, kid: Kid, a: nat)
    requires n.Inner? && i < |n.kids| && Settled(n, a) && EdgeSettled(kid, a)
    ensures Settled(SetKid(n, i, kid), a)
  {
  }

  /** One level down of `EdgeAdmits` and `EdgeSettled`. */
  lemma AdmitsKid(n: Node, i: nat, c: nat)
    requires n.Inner? && i < |n.kids| && Admits(n, c)
    ensures EdgeAdmits(n.kids[i], c) && n.maxMsn < c
  {
  }

  lemma SettledKid(n: Node, i: nat, a: nat)
    requires n.Inner? && i < |n.kids| && Settled(n, a)
    ensures EdgeSettled(n.kids[i], a)
  {
  }

  /** A locked nonleaf node may be rewritten to `n`. */
  ghost predicate MayBecome(e: Kid, n: Node) {
    && n.Inner? && n.bn == e.child.bn
    && (forall c :: Admits(e.child, c) && (e.pin.Held? && e.pin.topDown ==> e.pin.asOf < c) ==> Admits(n, c))
    && (forall a :: Settled(e.child, a) && (e.pin.Held? && e.pin.topDown ==> e.pin.asOf <= a) ==> Settled(n, a))
  }

  lemma RewriteHeld(e: Kid, n: Node, lo: Option<Key>, hi: Option<Key>, h: nat)
    requires EdgeOk(e, lo, hi, h) && e.child.Inner?
    requires e.pin.Held? && |e.pin.inflight| == 0
    requires NodeOk(n, lo, hi) && Height(n) == h && MayBecome(e, n)
    ensures EdgeOk(e.(child := n), lo, hi, h) && Suits(e, e.(child := n))
  {
    hide NodeOk, Admits, Settled;
    var e' := e.(child := n);
    assert forall c :: EdgeAdmits(e, c) ==> EdgeAdmits(e', c);
    assert forall a :: EdgeSettled(e, a) ==> EdgeSettled(e', a);
    assert QueueOk(e', lo, hi);
  }

  lemma DetachMayBecome(e: Kid, i: nat, lo: Option<Key>, hi: Option<Key>, h: nat)
    requires EdgeOk(e, lo, hi, h) && e.pin.Held? && e.child.Inner?
    requires i < |e.child.kids| && e.child.kids[i].pin.Free?
    ensures MayBecome(e, Detach(e, i).child)
    ensures NodeOk(Detach(e, i).child, lo, hi)
  {
    hide EdgeOk, EdgeAdmits, EdgeSettled, Admits, Settled, NodeOk;
    var n := e.child;
    var kid, kid' := n.kids[i], Detached(n.kids[i], e.pin, n.maxMsn);
    KidOk(e, i, lo, hi, h);
    var klo, khi := LowerOf(n.pivots, lo, i), UpperOf(n.pivots, hi, i);
    DetachedOk(kid, e.pin, n.maxMsn, klo, khi, h - 1);
    forall c | Admits(n, c) && (e.pin.topDown ==> e.pin.asOf < c) ensures Admits(SetKid(n, i, kid'), c) {
      AdmitsKid(n, i, c);
      DetachedAdmits(kid, e.pin, n.maxMsn, klo, khi, h - 1, c);
      SetKidAdmits(n, i, kid', c);
    }
    forall a | Settled(n, a) && (e.pin.topDown ==> e.pin.asOf <= a) ensures Settled(SetKid(n, i, kid'), a) {
      SettledKid(n, i, a);
      DetachedSettled(kid, e.pin, n.maxMsn, a);
      SetKidSettled(n, i, kid', a);
    }
    SetKidNodeOk(e, i, kid', lo, hi, h);
  }

  lemma SetKidNodeOk(e: Kid, i: nat, kid: Kid, lo: Option<Key>, hi: Option<Key>, h: nat)
    requires EdgeOk(e, lo, hi, h) && e.child.Inner? && 0 < h && i < |e.child.kids| == |e.child.pivots| + 1
    requires EdgeOk(kid, LowerOf(e.child.pivots, lo, i), UpperOf(e.child.pivots, hi, i), h - 1)
    requires BufferAtMost(kid, e.child.maxMsn)
    ensures NodeOk(SetKid(e.child, i, kid), lo, hi)
  {
  }

  /** Detaching a buffer and locking the child keeps the tree well-formed. */
  lemma DetachOk(e: Kid, i: nat, lo: Option<Key>, hi: Option<Key>, h: nat)
    requires EdgeOk(e, lo, hi, h) && e.pin.Held? && |e.pin.inflight| == 0 && e.child.Inner?
    requires i < |e.child.kids| && e.child.kids[i].pin.Free?
    ensures EdgeOk(Detach(e, i), lo, hi, h) && Suits(e, Detach(e, i))
  {
    hide EdgeAdmits, EdgeSettled, Admits, Settled, NodeOk, Suits, MayBecome, QueueOk;
    DetachMayBecome(e, i, lo, hi, h);
    RewriteHeld(e, Detach(e, i).child, lo, hi, h);
  }

  // ------------------------------------------------------------------ apply

  /** Puts the buffer in flight into the locked node. A leaf becomes dirty even
      if the buffer is empty. */
  function Flushed(n: Node, ms: seq<Message>): Node {
    var n' := PutAll(n, ms);
    if n'.Leaf? then n'.(dirty := true) else n'
  }

  function Apply(e: Kid): Kid
    requires e.pin.Held?
  {
    e.(child := Flushed(e.child, e.pin.inflight), pin := e.pin.(inflight := []))
  }

  lemma FlushedOk(e: Kid, lo: Option<Key>, hi: Option<Key>, h: nat)
    requires EdgeOk(e, lo, hi, h) && e.pin.Held?
    ensures NodeOk(Flushed(e.child, e.pin.inflight), lo, hi)
  {
    var n, ms := e.child, e.pin.inflight;
    if n.Leaf? {
      LeafPutAllOk(n, ms, lo, hi);
      var n1 := PutAll(n, ms);
      var n2 := Flushed(n, ms);
      forall i | 0 <= i < |n2.bases|
        ensures BasementOk(n2, n2.bases[i], LowerOf(Used(n2), lo, i), UpperOf(Used(n2), hi, i))
      {
        assert BasementOk(n1, n1.bases[i], LowerOf(Used(n1), lo, i), UpperOf(Used(n1), hi, i));
      }
    } else {
      InnerPutAllOk(n, ms, lo, hi);
    }
  }

  lemma ApplyAdmits(e: Kid, lo: Option<Key>, hi: Option<Key>, h: nat, c: nat)
    requires EdgeOk(e, lo, hi, h) && e.pin.Held? && EdgeAdmits(e, c)
    ensures EdgeAdmits(Apply(e), c)
  {
    var n, ms := e.child, e.pin.inflight;
    if n.Leaf? {
      LeafPutAllUniform(n, ms, c);
    } else {
      InnerPutAllAdmits(n, ms, c);
    }
  }

  lemma ApplySettled(e: Kid, a: nat)
    requires e.pin.Held? && Settled(e.child, a)
    requires forall j :: 0 <= j < |e.pin.inflight| ==> e.pin.inflight[j].msn <= a
    ensures Settled(Apply(e).child, a)
  {
    if e.child.Leaf? {
      LeafPutAllSettled(e.child, e.pin.inflight, a);
    } else {
      InnerPutAllSettled(e.child, e.pin.inflight, a);
    }
  }

  /** Applying the buffer in flight keeps the tree well-formed. */
  lemma ApplyOk(e: Kid, lo: Option<Key>, hi: Option<Key>, h: nat)
    requires EdgeOk(e, lo, hi, h) && e.pin.Held?
    ensures EdgeOk(Apply(e), lo, hi, h) && Suits(e, Apply(e))
  {
    hide NodeOk, Admits, Settled, PutAll;
    var e' := Apply(e);
    FlushedOk(e, lo, hi, h);
    forall c | EdgeAdmits(e, c) ensures EdgeAdmits(e', c) {
      ApplyAdmits(e, lo, hi, h, c);
    }
    forall a | EdgeSettled(e, a) ensures EdgeSettled(e', a) {
      ApplySettled(e, a);
    }
    if e.pin.topDown {
      ApplySettled(e, e.pin.asOf);
    }
    assert QueueOk(e', lo, hi);
  }

  // ------------------------------------------------------ eviction, write-out

  /** Partial eviction of basement `j` of a clean leaf. */
  function Evict(e: Kid, j: nat): Kid
    requires e.child.Leaf? && j < |e.child.bases|
  {
    var n := e.child;
    e.(child := n.(bases := n.bases[j := Reload(n, n.bases[j])]))
  }

  lemma EvictOk(e: Kid, j: nat, lo: Option<Key>, hi: Option<Key>, h: nat)
    requires EdgeOk(e, lo, hi, h) && e.pin.Free? && e.child.Leaf? && !e.child.dirty && j < |e.child.bases|
    ensures EdgeOk(Evict(e, j), lo, hi, h) && Suits(e, Evict(e, j))
  {
    var n, n' := e.child, Evict(e, j).child;
    assert Used(n') == Used(n);
    forall i | 0 <= i < |n.bases|
      ensures BasementOk(n', n'.bases[i], LowerOf(Used(n), lo, i), UpperOf(Used(n), hi, i))
    {
      assert BasementOk(n, n.bases[i], LowerOf(Used(n), lo, i), UpperOf(Used(n), hi, i));
    }
    assert NodeOk(n', lo, hi);
    forall a | EdgeSettled(e, a) ensures EdgeSettled(Evict(e, j), a) {
      assert Settled(n, a) && Settled(n', a);
    }
  }

  function WriteLeaf(e: Kid, limit: nat): Kid
    requires e.child.Leaf?
  {
    e.(child := WriteOut(e.child, limit))
  }

  lemma WriteLeafOk(e: Kid, limit: nat, lo: Option<Key>, hi: Option<Key>, h: nat)
    requires EdgeOk(e, lo, hi, h) && e.child.Leaf?
    ensures EdgeOk(WriteLeaf(e, limit), lo, hi, h) && Suits(e, WriteLeaf(e, limit))
  {
    hide NodeOk, Flat, PackBases, PackPivots, MaxBaseMsn;
    WriteOutOk(e.child, limit, lo, hi);
    var n, e' := e.child, WriteLeaf(e, limit);
    forall c ensures Admits(e'.child, c) && Uniform(e'.child, c) {
    }
    forall a | Settled(n, a) ensures Settled(e'.child, a) {
      assert MaxBaseMsn(n.bases) <= a;
    }
    assert forall c :: EdgeAdmits(e, c) ==> EdgeAdmits(e', c);
    assert forall a :: EdgeSettled(e, a) ==> EdgeSettled(e', a);
    assert NodeOk(e'.child, lo, hi);
    assert QueueOk(e', lo, hi);
  }
}
