/** Splitting and merging the locked children of a locked node, and growing a
    new root. */
module Reshape {
  import opened Keys
  import opened Messages
  import opened Nodes
  import opened Leaves
  import opened LeafMerge
  import opened Paths
  import opened Halves
  import opened Parents
  import opened Edges

  lemma WithBnSame(n: Node, bn: BlockNum, k: Key)
    ensures Probe(WithBn(n, bn), k) == Probe(n, k)
    ensures Height(WithBn(n, bn)) == Height(n) && WithBn(n, bn).bn == bn
    ensures WithBn(n, bn).Leaf? == n.Leaf?
  {
  }

  lemma WithBnOk(n: Node, bn: BlockNum, lo: Option<Key>, hi: Option<Key>)
    requires NodeOk(n, lo, hi)
    ensures NodeOk(WithBn(n, bn), lo, hi)
  {
  }

  lemma WithBnAdmits(n: Node, bn: BlockNum, c: nat)
    ensures Admits(WithBn(n, bn), c) == Admits(n, c)
    ensures Settled(WithBn(n, bn), c) == Settled(n, c)
    ensures n.Leaf? ==> Uniform(WithBn(n, bn), c) == Uniform(n, c)
  {
  }

  /** A child whose lock was taken together with its parent's, with nothing
      left to apply. */
  predicate Drained(e: Kid, kid: Kid) {
    && e.pin.Held? && |e.pin.inflight| == 0
    && kid.pin.Held? && kid.pin.asOf == e.pin.asOf && kid.pin.topDown == e.pin.topDown
    && |kid.pin.inflight| == 0 && |kid.buf| == 0
  }

  /** A node `n` put in the place of (part of) a drained child. */
  function InPlaceOf(kid: Kid, n: Node): Kid {
    Kid(n.bn, [], kid.pin, n)
  }

  lemma InPlaceOk(kid: Kid, n: Node, lo: Option<Key>, hi: Option<Key>, h: nat)
    requires kid.pin.Held? && |kid.pin.inflight| == 0
    requires NodeOk(n, lo, hi) && Height(n) == h && (kid.pin.topDown ==> Settled(n, kid.pin.asOf))
    ensures EdgeOk(InPlaceOf(kid, n), lo, hi, h) && BufferAtMost(InPlaceOf(kid, n), 0)
  {
  }

  // ------------------------------------------------------------------- split

  /** If the split node is the rightmost leaf, the halves swap blocknums, so that
      the rightmost leaf keeps its blocknum. */
  function LeftHalf(n: Node, at: SplitLoc, bn: BlockNum, rightmost: Option<BlockNum>): Node
    requires CanSplit(n, at)
  {
    WithBn(SplitLeft(n, at), if rightmost == Some(n.bn) then bn else n.bn)
  }

  function RightHalf(n: Node, at: SplitLoc, bn: BlockNum, rightmost: Option<BlockNum>): Node
    requires CanSplit(n, at)
  {
    WithBn(SplitRight(n, at, bn), if rightmost == Some(n.bn) then n.bn else bn)
  }

  function SplitKid(e: Kid, i: nat, at: SplitLoc, bn: BlockNum, rightmost: Option<BlockNum>): Kid
    requires e.child.Inner? && i < |e.child.kids| == |e.child.pivots| + 1
    requires CanSplit(e.child.kids[i].child, at)
  {
    var kid := e.child.kids[i];
    var n := kid.child;
    e.(child := SplitParent(e.child, i,
                            InPlaceOf(kid, LeftHalf(n, at, bn, rightmost)),
                            InPlaceOf(kid, RightHalf(n, at, bn, rightmost)),
                            SplitPivot(n, at)))
  }

  /** When a split is allowed: a cut behind the last entry only at the right
      edge of the tree, and under a top-down lock. */
  predicate SplitEnabled(e: Kid, i: nat, at: SplitLoc, hi: Option<Key>) {
    && e.child.Inner? && i < |e.child.kids| == |e.child.pivots| + 1
    && Drained(e, e.child.kids[i])
    && CanSplit(e.child.kids[i].child, at)
    && (Behind(e.child.kids[i].child, at) ==> e.pin.topDown && UpperOf(e.child.pivots, hi, i) == None)
  }

  lemma HalvesOk(n: Node, at: SplitLoc, bn: BlockNum, rm: Option<BlockNum>, lo: Option<Key>, hi: Option<Key>)
    requires NodeOk(n, lo, hi) && CanSplit(n, at)
    ensures NodeOk(LeftHalf(n, at, bn, rm), lo, Some(SplitPivot(n, at)))
    ensures NodeOk(RightHalf(n, at, bn, rm), Some(SplitPivot(n, at)), hi)
    ensures Height(LeftHalf(n, at, bn, rm)) == Height(RightHalf(n, at, bn, rm)) == Height(n)
    ensures LeftHalf(n, at, bn, rm).Leaf? == RightHalf(n, at, bn, rm).Leaf? == n.Leaf?
  {
    SplitOk(n, at, bn, lo, hi);
    WithBnOk(SplitLeft(n, at), LeftHalf(n, at, bn, rm).bn, lo, Some(SplitPivot(n, at)));
    WithBnOk(SplitRight(n, at, bn), RightHalf(n, at, bn, rm).bn, Some(SplitPivot(n, at)), hi);
  }

  lemma HalvesAdmit(kid: Kid, at: SplitLoc, bn: BlockNum, rm: Option<BlockNum>, c: nat)
    requires kid.pin.Held? && |kid.pin.inflight| == 0 && CanSplit(kid.child, at) && EdgeAdmits(kid, c)
    ensures EdgeAdmits(InPlaceOf(kid, LeftHalf(kid.child, at, bn, rm)), c)
    ensures EdgeAdmits(InPlaceOf(kid, RightHalf(kid.child, at, bn, rm)), c)
  {
    var n := kid.child;
    SplitAdmits(n, at, bn, c);
    WithBnAdmits(SplitLeft(n, at), LeftHalf(n, at, bn, rm).bn, c);
    WithBnAdmits(SplitRight(n, at, bn), RightHalf(n, at, bn, rm).bn, c);
  }

  lemma HalvesSettled(kid: Kid, at: SplitLoc, bn: BlockNum, rm: Option<BlockNum>, a: nat)
    requires CanSplit(kid.child, at) && Settled(kid.child, a)
    ensures Settled(LeftHalf(kid.child, at, bn, rm), a) && Settled(RightHalf(kid.child, at, bn, rm), a)
  {
  }

  lemma DrainedFacts(e: Kid, i: nat, lo: Option<Key>, hi: Option<Key>, h: nat)
    requires EdgeOk(e, lo, hi, h) && e.child.Inner? && i < |e.child.kids| && Drained(e, e.child.kids[i])
    ensures 0 < h && h == e.child.height && |e.child.kids| == |e.child.pivots| + 1
    ensures PivotsOk(e.child.pivots, lo, hi) && NodeOk(e.child, lo, hi)
    ensures NodeOk(e.child.kids[i].child, LowerOf(e.child.pivots, lo, i), UpperOf(e.child.pivots, hi, i))
    ensures Height(e.child.kids[i].child) == h - 1
    ensures e.pin.topDown ==> Settled(e.child.kids[i].child, e.pin.asOf)
  {
    KidOk(e, i, lo, hi, h);
  }

  lemma SplitMayBecome(e: Kid, i: nat, at: SplitLoc, bn: BlockNum, rm: Option<BlockNum>,
                       lo: Option<Key>, hi: Option<Key>, h: nat)
    requires EdgeOk(e, lo, hi, h) && SplitEnabled(e, i, at, hi)
    ensures MayBecome(e, SplitKid(e, i, at, bn, rm).child)
  {
    hide EdgeOk, EdgeAdmits, EdgeSettled, Admits, Settled, NodeOk, LeftHalf, RightHalf, SplitParent, CanSplit;
    var p, kid := e.child, e.child.kids[i];
    var n := kid.child;
    var a, b := InPlaceOf(kid, LeftHalf(n, at, bn, rm)), InPlaceOf(kid, RightHalf(n, at, bn, rm));
    SplitParentShape(p, i, a, b, SplitPivot(n, at));
    var p' := SplitParent(p, i, a, b, SplitPivot(n, at));
    forall c | Admits(p, c) ensures Admits(p', c) {
      AdmitsKid(p, i, c);
      HalvesAdmit(kid, at, bn, rm, c);
      SplitParentAdmits(p, i, a, b, SplitPivot(n, at), c);
    }
    forall x | Settled(p, x) ensures Settled(p', x) {
      SettledKid(p, i, x);
      KidSettled(kid, x);
      HalvesSettled(kid, at, bn, rm, x);
      InPlaceSettled(kid, LeftHalf(n, at, bn, rm), x);
      InPlaceSettled(kid, RightHalf(n, at, bn, rm), x);
      SplitParentSettled(p, i, a, b, SplitPivot(n, at), x);
    }
  }

  lemma KidSettled(kid: Kid, a: nat)
    requires EdgeSettled(kid, a)
    ensures Settled(kid.child, a)
  {
  }

  lemma InPlaceSettled(kid: Kid, n: Node, a: nat)
    requires EdgeSettled(kid, a) && Settled(n, a)
    ensures EdgeSettled(InPlaceOf(kid, n), a)
  {
  }

  lemma SplitNodeOk(e: Kid, i: nat, at: SplitLoc, bn: BlockNum, rm: Option<BlockNum>,
                    lo: Option<Key>, hi: Option<Key>, h: nat)
    requires EdgeOk(e, lo, hi, h) && SplitEnabled(e, i, at, hi)
    ensures NodeOk(SplitKid(e, i, at, bn, rm).child, lo, hi)
    ensures Inside(LowerOf(e.child.pivots, lo, i), UpperOf(e.child.pivots, hi, i), SplitPivot(e.child.kids[i].child, at))
  {
    hide EdgeOk, Settled, NodeOk, LeftHalf, RightHalf, SplitParent, CanSplit, Behind, SplitPivot, BufferAtMost;
    var p, kid := e.child, e.child.kids[i];
    var n, key := kid.child, SplitPivot(kid.child, at);
    DrainedFacts(e, i, lo, hi, h);
    var klo, khi := LowerOf(p.pivots, lo, i), UpperOf(p.pivots, hi, i);
    SplitOk(n, at, bn, klo, khi);
    HalvesOk(n, at, bn, rm, klo, khi);
    if e.pin.topDown {
      HalvesSettled(kid, at, bn, rm, e.pin.asOf);
    }
    InPlaceOk(kid, LeftHalf(n, at, bn, rm), klo, Some(key), h - 1);
    InPlaceOk(kid, RightHalf(n, at, bn, rm), Some(key), khi, h - 1);
    AtMostWider(InPlaceOf(kid, LeftHalf(n, at, bn, rm)), 0, p.maxMsn);
    AtMostWider(InPlaceOf(kid, RightHalf(n, at, bn, rm)), 0, p.maxMsn);
    SplitParentOk(p, i, InPlaceOf(kid, LeftHalf(n, at, bn, rm)), InPlaceOf(kid, RightHalf(n, at, bn, rm)), key, lo, hi);
  }

  /** Splitting a child keeps the tree well-formed. */
  lemma SplitKidOk(e: Kid, i: nat, at: SplitLoc, bn: BlockNum, rm: Option<BlockNum>,
                   lo: Option<Key>, hi: Option<Key>, h: nat)
    requires EdgeOk(e, lo, hi, h) && SplitEnabled(e, i, at, hi)
    ensures EdgeOk(SplitKid(e, i, at, bn, rm), lo, hi, h) && Suits(e, SplitKid(e, i, at, bn, rm))
  {
    hide EdgeOk, EdgeAdmits, EdgeSettled, Admits, Settled, NodeOk, Suits, MayBecome, SplitParent, LeftHalf, RightHalf;
    DrainedFacts(e, i, lo, hi, h);
    SplitMayBecome(e, i, at, bn, rm, lo, hi, h);
    SplitNodeOk(e, i, at, bn, rm, lo, hi, h);
    var kid := e.child.kids[i];
    SplitParentShape(e.child, i, InPlaceOf(kid, LeftHalf(kid.child, at, bn, rm)),
                     InPlaceOf(kid, RightHalf(kid.child, at, bn, rm)), SplitPivot(kid.child, at));
    RewriteHeld(e, SplitKid(e, i, at, bn, rm).child, lo, hi, h);
  }

  // ------------------------------------------------------------------- merge

  function Merged(a: Node, b: Node, key: Key): Node {
    if a.Leaf? && b.Leaf? && |a.bases| > 0 then MergeLeaves(a, b)
    else if a.Inner? && b.Inner? then MergeInner(a, b, key)
    else a
  }

  /** The surviving node takes over the blocknum of a merged rightmost leaf. */
  function MergedNode(a: Node, b: Node, key: Key, rightmost: Option<BlockNum>): Node {
    WithBn(Merged(a, b, key), if rightmost == Some(b.bn) then b.bn else a.bn)
  }

  function MergeKids(e: Kid, i: nat, rightmost: Option<BlockNum>): Kid
    requires e.child.Inner? && i + 1 < |e.child.kids| == |e.child.pivots| + 1
  {
    var p := e.child;
    e.(child := MergeParent(p, i, InPlaceOf(p.kids[i],
                  MergedNode(p.kids[i].child, p.kids[i + 1].child, p.pivots[i], rightmost))))
  }

  /** Leaves are merged only under top-down locks. */
  predicate MergeEnabled(e: Kid, i: nat) {
    && e.child.Inner? && i + 1 < |e.child.kids| == |e.child.pivots| + 1
    && Drained(e, e.child.kids[i]) && Drained(e, e.child.kids[i + 1])
    && (e.child.kids[i].child.Leaf? ==> e.pin.topDown)
  }

  lemma MergedOk(a: Node, b: Node, key: Key, rm: Option<BlockNum>, lo: Option<Key>, hi: Option<Key>)
    requires NodeOk(a, lo, Some(key)) && NodeOk(b, Some(key), hi) && Height(a) == Height(b) && Inside(lo, hi, key)
    ensures NodeOk(MergedNode(a, b, key, rm), lo, hi) && Height(MergedNode(a, b, key, rm)) == Height(a)
    ensures MergedNode(a, b, key, rm).Leaf? == a.Leaf? == b.Leaf?
  {
    if a.Leaf? {
      assert b.Leaf?;
      MergeOk(a, b, lo, key, hi);
    } else {
      MergeInnerOk(a, b, key, lo, hi);
    }
    WithBnOk(Merged(a, b, key), MergedNode(a, b, key, rm).bn, lo, hi);
  }

  lemma MergedSettled(a: Node, b: Node, key: Key, rm: Option<BlockNum>, x: nat)
    requires Settled(a, x) && Settled(b, x)
    ensures Settled(MergedNode(a, b, key, rm), x)
  {
  }

  lemma MergedAdmits(ka: Kid, kb: Kid, key: Key, rm: Option<BlockNum>, c: nat)
    requires EdgeAdmits(ka, c) && EdgeAdmits(kb, c)
    requires ka.pin.Held? && |ka.pin.inflight| == 0 && ka.child.Leaf? == kb.child.Leaf?
    requires ka.child.Leaf? ==> Settled(ka.child, ka.pin.asOf) && Settled(kb.child, ka.pin.asOf) && ka.pin.topDown
    ensures EdgeAdmits(InPlaceOf(ka, MergedNode(ka.child, kb.child, key, rm)), c)
  {
  }

  lemma MergeMayBecome(e: Kid, i: nat, rm: Option<BlockNum>, lo: Option<Key>, hi: Option<Key>, h: nat)
    requires EdgeOk(e, lo, hi, h) && MergeEnabled(e, i)
    ensures MayBecome(e, MergeKids(e, i, rm).child)
  {
    hide EdgeOk, EdgeAdmits, EdgeSettled, Admits, Settled, NodeOk, MergedNode, MergeParent, InPlaceOf;
    var p := e.child;
    var ka, kb := p.kids[i], p.kids[i + 1];
    DrainedFacts(e, i, lo, hi, h);
    DrainedFacts(e, i + 1, lo, hi, h);
    var m := MergedNode(ka.child, kb.child, p.pivots[i], rm);
    MergeParentShape(p, i, InPlaceOf(ka, m));
    var p' := MergeParent(p, i, InPlaceOf(ka, m));
    forall c | Admits(p, c) ensures Admits(p', c) {
      AdmitsKid(p, i, c);
      AdmitsKid(p, i + 1, c);
      SameKind(ka.child, kb.child);
      MergedAdmits(ka, kb, p.pivots[i], rm, c);
      MergeParentAdmits(p, i, InPlaceOf(ka, m), c);
    }
    forall x | Settled(p, x) ensures Settled(p', x) {
      SettledKid(p, i, x);
      SettledKid(p, i + 1, x);
      KidSettled(ka, x);
      KidSettled(kb, x);
      MergedSettled(ka.child, kb.child, p.pivots[i], rm, x);
      InPlaceSettled(ka, m, x);
      MergeParentSettled(p, i, InPlaceOf(ka, m), x);
    }
  }

  lemma SameKind(a: Node, b: Node)
    requires Height(a) == Height(b)
    requires a.Inner? ==> a.height > 0
    requires b.Inner? ==> b.height > 0
    ensures a.Leaf? == b.Leaf?
  {
  }

  lemma MergeNodeOk(e: Kid, i: nat, rm: Option<BlockNum>, lo: Option<Key>, hi: Option<Key>, h: nat)
    requires EdgeOk(e, lo, hi, h) && MergeEnabled(e, i)
    ensures NodeOk(MergeKids(e, i, rm).child, lo, hi)
  {
    hide EdgeOk, Settled, NodeOk, MergedNode, MergeParent, BufferAtMost;
    var p := e.child;
    var ka, kb := p.kids[i], p.kids[i + 1];
    DrainedFacts(e, i, lo, hi, h);
    DrainedFacts(e, i + 1, lo, hi, h);
    var klo, khi := LowerOf(p.pivots, lo, i), UpperOf(p.pivots, hi, i + 1);
    var m := MergedNode(ka.child, kb.child, p.pivots[i], rm);
    MergedOk(ka.child, kb.child, p.pivots[i], rm, klo, khi);
    if e.pin.topDown {
      MergedSettled(ka.child, kb.child, p.pivots[i], rm, e.pin.asOf);
    }
    InPlaceOk(ka, m, klo, khi, h - 1);
    AtMostWider(InPlaceOf(ka, m), 0, p.maxMsn);
    MergeParentOk(p, i, InPlaceOf(ka, m), lo, hi);
  }

  /** Merging two children keeps the tree well-formed. */
  lemma MergeKidsOk(e: Kid, i: nat, rm: Option<BlockNum>, lo: Option<Key>, hi: Option<Key>, h: nat)
    requires EdgeOk(e, lo, hi, h) && MergeEnabled(e, i)
    ensures EdgeOk(MergeKids(e, i, rm), lo, hi, h) && Suits(e, MergeKids(e, i, rm))
  {
    hide EdgeOk, EdgeAdmits, EdgeSettled, Admits, Settled, NodeOk, Suits, MayBecome, MergeParent, MergedNode;
    DrainedFacts(e, i, lo, hi, h);
    MergeMayBecome(e, i, rm, lo, hi, h);
    MergeNodeOk(e, i, rm, lo, hi, h);
    var p := e.child;
    MergeParentShape(p, i, InPlaceOf(p.kids[i], MergedNode(p.kids[i].child, p.kids[i + 1].child, p.pivots[i], rm)));
    RewriteHeld(e, MergeKids(e, i, rm).child, lo, hi, h);
  }

  // --------------------------------------------------------------- rebalance

  /** balance_leaf_nodes: merge both leaves into the left one, then split again. */
  function RebalanceKids(e: Kid, i: nat, at: SplitLoc): Kid
    requires e.child.Inner? && i + 1 < |e.child.kids| == |e.child.pivots| + 1
    requires CanSplit(Merged(e.child.kids[i].child, e.child.kids[i + 1].child, e.child.pivots[i]), at)
  {
    var p := e.child;
    var ka, kb := p.kids[i], p.kids[i + 1];
    var m := Merged(ka.child, kb.child, p.pivots[i]);
    e.(child := ShiftParent(p, i,
                            InPlaceOf(ka, WithBn(SplitLeft(m, at), ka.child.bn)),
                            InPlaceOf(ka, WithBn(SplitRight(m, at, kb.child.bn), kb.child.bn)),
                            SplitPivot(m, at)))
  }

  predicate RebalanceEnabled(e: Kid, i: nat, at: SplitLoc) {
    && MergeEnabled(e, i) && e.child.kids[i].child.Leaf? && e.child.kids[i + 1].child.Leaf?
    && var m := Merged(e.child.kids[i].child, e.child.kids[i + 1].child, e.child.pivots[i]);
       CanSplit(m, at) && !Behind(m, at)
  }

  /** Rebalancing is a merge followed by a split. */
  lemma RebalanceIsMergeSplit(e: Kid, i: nat, at: SplitLoc)
    requires MergeEnabled(e, i)
    requires CanSplit(Merged(e.child.kids[i].child, e.child.kids[i + 1].child, e.child.pivots[i]), at)
    requires Merged(e.child.kids[i].child, e.child.kids[i + 1].child, e.child.pivots[i]).bn == e.child.kids[i].child.bn
    ensures
      var f := MergeKids(e, i, None);
      && f.child.Inner? && i < |f.child.kids| == |f.child.pivots| + 1
      && CanSplit(f.child.kids[i].child, at)
      && RebalanceKids(e, i, at) == SplitKid(f, i, at, e.child.kids[i + 1].child.bn, None)
  {
    hide SplitLeft, SplitRight, SplitPivot, CanSplit, MergeParent, SplitParent, Merged, ShiftParent;
    var p := e.child;
    var ka, kb := p.kids[i], p.kids[i + 1];
    var m := Merged(ka.child, kb.child, p.pivots[i]);
    assert WithBn(m, m.bn) == m;
    var c := InPlaceOf(ka, m);
    MergeParentShape(p, i, c);
    assert |RemoveKey(p.pivots, i)| == |p.pivots| - 1;
    ShiftIsMergeSplit(p, i, InPlaceOf(ka, WithBn(SplitLeft(m, at), ka.child.bn)),
                      InPlaceOf(ka, WithBn(SplitRight(m, at, kb.child.bn), kb.child.bn)), c, SplitPivot(m, at));
  }

  // -------------------------------------------------------------- a new root

  /** ft_init_new_root, up to the split: the new root takes over the root's
      blocknum and the old root, under a new blocknum, becomes its only child. */
  function GrowRoot(top: Kid, bn: BlockNum): Kid {
    var r := top.child;
    top.(child := Inner(r.bn, Height(r) + 1, r.maxMsn, [], [InPlaceOf(top.(bn := bn), WithBn(r, bn))]))
  }

  lemma GrowRootOk(top: Kid, bn: BlockNum, h: nat)
    requires EdgeOk(top, None, None, h) && top.pin.Held? && |top.pin.inflight| == 0 && |top.buf| == 0
    ensures EdgeOk(GrowRoot(top, bn), None, None, h + 1) && GrowRoot(top, bn).buf == top.buf
  {
    hide NodeOk, Settled, Admits, QueueOk, WithBn, EdgeSettled, EdgeAdmits;
    WithBnOk(top.child, bn, None, None);
    WithBnSame(top.child, bn, 0.0);
    var kid := InPlaceOf(top.(bn := bn), WithBn(top.child, bn));
    if top.pin.topDown {
      TopSettled(top, None, None, h);
      WithBnAdmits(top.child, bn, top.pin.asOf);
    }
    InPlaceOk(top.(bn := bn), WithBn(top.child, bn), None, None, h);
    NewRootOk(top, kid, h);
  }

  lemma GrowRootSettled(top: Kid, bn: BlockNum, a: nat)
    requires EdgeSettled(top, a) && top.pin.Held? && |top.pin.inflight| == 0
    ensures EdgeSettled(GrowRoot(top, bn), a)
  {
    WithBnAdmits(top.child, bn, a);
    NewRootSettled(top, InPlaceOf(top.(bn := bn), WithBn(top.child, bn)), a);
  }

  lemma TopSettled(top: Kid, lo: Option<Key>, hi: Option<Key>, h: nat)
    requires EdgeOk(top, lo, hi, h) && top.pin.Held? && top.pin.topDown
    ensures Settled(top.child, top.pin.asOf)
  {
  }

  lemma NewRootSettled(top: Kid, kid: Kid, a: nat)
    requires EdgeSettled(top, a) && EdgeSettled(kid, a)
    ensures Settled(Inner(top.child.bn, Height(top.child) + 1, top.child.maxMsn, [], [kid]), a)
  {
  }

  lemma NewRootOk(top: Kid, kid: Kid, h: nat)
    requires EdgeOk(top, None, None, h) && top.pin.Held? && |top.pin.inflight| == 0 && |top.buf| == 0
    requires EdgeOk(kid, None, None, h) && |kid.buf| == 0
    requires kid.pin == top.pin && (top.pin.topDown ==> Settled(kid.child, top.pin.asOf))
    ensures EdgeOk(top.(child := Inner(top.child.bn, h + 1, top.child.maxMsn, [], [kid])), None, None, h + 1)
  {
    var r := Inner(top.child.bn, h + 1, top.child.maxMsn, [], [kid]);
    assert NodeOk(r, None, None);
    if top.pin.topDown {
      assert EdgeSettled(kid, top.pin.asOf);
      assert top.child.maxMsn <= top.pin.asOf;
    }
  }

  lemma GrowRootProbe(top: Kid, bn: BlockNum, k: Key)
    requires |Inflight(top)| == 0 && |top.buf| == 0
    ensures ProbeEdge(GrowRoot(top, bn), k) == ProbeEdge(top, k)
  {
    WithBnSame(top.child, bn, k);
    var r := GrowRoot(top, bn).child;
    InnerProbe(r, k, 0);
    EmptyEdgeProbe(r.kids[0], k);
    EmptyEdgeProbe(top, k);
    EmptyEdgeProbe(GrowRoot(top, bn), k);
  }

  lemma EmptyEdgeProbe(e: Kid, k: Key)
    requires |Inflight(e)| == 0 && |e.buf| == 0
    ensures ProbeEdge(e, k) == Probe(e.child, k)
  {
  }
}
