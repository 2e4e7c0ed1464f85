/** Injecting a message: toku_ft_root_put_msg and push_something_in_subtree. */
module Promotion {
  import opened Keys
  import opened Messages
  import opened Entries
  import opened Nodes
  import opened PutMsg
  import opened Leaves
  import opened Splitting
  import opened Paths
  import opened Halves
  import opened Edges
  import opened Reshape
  import opened Query
  import opened Protocol
  import opened Pool
  import opened Pins
  import opened Routing
  import opened Flusher
  import opened FtTree

  /** The heuristics of promotion: whether the flow into a child asks for it,
      whether the child can be locked cheaply, and whether it is dirty. */
  datatype Birdie = Birdie(promote: Kid -> bool, cheap: Kid -> bool, dirty: Kid -> bool)

  /** On the left or the right edge of the tree; the root is on both. */
  datatype Loc = Loc(left: bool, right: bool)

  const NEITHER_EXTREME := Loc(false, false)

  function NextLoc(loc: Loc, n: Node, i: nat): Loc
    requires n.Inner?
  {
    if loc.left && i == 0 then Loc(true, false)
    else if loc.right && i == |n.kids| - 1 then Loc(false, true)
    else NEITHER_EXTREME
  }

  predicate ShouldInject(loc: Loc, height: nat, depth: nat) {
    height == 0 || (loc == NEITHER_EXTREME && (height <= 1 || depth >= 2))
  }

  /** What `loc` says about the path. */
  ghost predicate LocOk(top: Kid, path: Path, loc: Loc)
    requires ValidPath(top, path)
  {
    && (loc.right ==> AllLast(top, path) && HiAt(top, path, None).None?)
    && (loc == Loc(false, true) <==> |path| > 0 && path[0] > 0 && AllLast(top, path))
    && (|path| == 0 <==> loc == Loc(true, true))
  }

  lemma {:induction false} AllLastKid(top: Kid, path: Path, i: nat)
    requires ValidPath(top, path) && EdgeAt(top, path).child.Inner? && i < |EdgeAt(top, path).child.kids|
    ensures ValidPath(top, path + [i])
    ensures AllLast(top, path + [i]) <==> AllLast(top, path) && i == |EdgeAt(top, path).child.kids| - 1
    decreases path
  {
    if |path| > 0 {
      assert (path + [i])[1..] == path[1..] + [i];
      AllLastKid(top.child.kids[path[0]], path[1..], i);
    } else {
      assert (path + [i])[1..] == [];
    }
  }

  lemma LocDown(top: Kid, path: Path, i: nat, loc: Loc)
    requires ValidPath(top, path) && LocOk(top, path, loc) && EdgeAt(top, path).child.Inner?
    requires i < |EdgeAt(top, path).child.kids| == |EdgeAt(top, path).child.pivots| + 1
    ensures ValidPath(top, path + [i]) && LocOk(top, path + [i], NextLoc(loc, EdgeAt(top, path).child, i))
  {
    hide AllLast, ValidPath, EdgeAt, HiAt;
    AllLastKid(top, path, i);
    KidPath(top, path, i, None, None);
  }

  // ------------------------------------------------------------------ inject

  lemma InjectIn(s: State, step: Step, pool: set<Key>)
    requires Enabled(s, step) && step.Inject? && EdgeIn(s.top, pool) && MessageIn(NextMessage(s, step), pool)
    ensures EdgeIn(Exec(s, step).top, pool)
  {
    hide NodeIn, Put;
    var e := EdgeAt(s.top, step.path);
    AtIn(s.top, step.path, pool);
    PutIn(e.child, NextMessage(s, step), pool);
    ReplaceIn(s.top, step.path, e.(child := Put(e.child, NextMessage(s, step))), pool);
  }

  lemma PutQuiet(n: Node, m: Message)
    requires Quiet(n)
    ensures Quiet(Put(n, m))
  {
  }

  lemma InjectPins(s: State, step: Step)
    requires Enabled(s, step) && step.Inject? && QuietBelow(s.top, step.path)
    ensures QuietBelow(Exec(s, step).top, step.path) && SameOutside(s.top, Exec(s, step).top, step.path)
    ensures EdgeAt(Exec(s, step).top, step.path).buf == EdgeAt(s.top, step.path).buf
    ensures EdgeAt(Exec(s, step).top, step.path).child.Inner? == EdgeAt(s.top, step.path).child.Inner?
  {
    hide SameOutside, Put, NewRightmost;
    var e := EdgeAt(s.top, step.path);
    PutQuiet(e.child, NextMessage(s, step));
    var e' := e.(child := Put(e.child, NextMessage(s, step)));
    ReplacedOutside(s.top, step.path, e');
    StaysQuiet(s.top, ReplaceAt(s.top, step.path, e'), step.path);
  }

  /** Exactly the message was added to the history of the tree. */
  ghost predicate Appended(s: State, s': State, scope: Scope, effect: (Key, Option<LeafEntry>) -> Option<LeafEntry>) {
    s'.maxMsn == s.maxMsn + 1 && s'.log == s.log + [Message(s.maxMsn + 1, scope, effect)]
  }

  /** What an injection at or below the path's end leaves behind: nothing locked there, and
      nothing changed elsewhere. */
  ghost predicate Left(top: Kid, top': Kid, path: Path) {
    QuietBelow(top', path) && SameOutside(top, top', path) && EdgeAt(top', path).buf == EdgeAt(top, path).buf
  }

  lemma LeftTrans(a: Kid, b: Kid, c: Kid, path: Path)
    requires SameOutside(a, b, path) && EdgeAt(b, path).buf == EdgeAt(a, path).buf && Left(b, c, path)
    ensures Left(a, c, path)
  {
    SameOutsideTrans(a, b, c, path);
  }

  lemma LeftKid(a: Kid, b: Kid, path: Path, i: nat)
    requires QuietBelow(a, path) && EdgeAt(a, path).child.Inner? && i < |EdgeAt(a, path).child.kids|
    requires Left(a, b, path + [i])
    ensures Left(a, b, path)
  {
    hide SameOutside, OthersQuiet, EdgeAt, QuietEdge;
    QuietBelowKid(a, path, i);
    assert EdgeAt(a, path).pin.Free? by { assert QuietEdge(EdgeAt(a, path)); QuietFree(EdgeAt(a, path)); }
    KidOutside(a, b, path, i);
    StaysQuiet(a, b, path);
  }

  lemma QuietFree(e: Kid)
    requires QuietEdge(e)
    ensures e.pin.Free? && Quiet(e.child)
  {
  }

  /** inject_message_in_locked_node at the end of a path of empty buffers; a node
      that is then too full is flushed. Other threads may hold locks elsewhere. */
  method InjectAt(ft: Ft, path: Path, scope: Scope, effect: (Key, Option<LeafEntry>) -> Option<LeafEntry>, birdie: Birdie)
    requires ft.Inv() && QuietBelow(ft.st.top, path) && EmptyPath(ft.st.top, path)
    requires if scope.Once? then Routed(ft.st.top, path, scope.key) else |path| == 0
    modifies ft
    ensures ft.Inv() && Left(old(ft.st.top), ft.st.top, path) && Appended(old(ft.st), ft.st, scope, effect)
  {
    hide TreeOk, Faithful, Reorganized, Around, Quiet, QuietEdge, EmptyPath, LoAt, HiAt, ValidPath, EdgeAt,
         EdgeIn, ProbeEdge, Routed, ReplaceAt, NewEdge, NewRightmost, SameOutside, FreePath;
    var step := Inject(path, scope, effect);
    ghost var more := if scope.Once? then ft.pool + {scope.key} else ft.pool;
    EdgeInMore(ft.st.top, ft.pool, more);
    InjectIn(ft.st, step, more);
    InjectPins(ft.st, step);
    StepSafe(ft.st, step);
    ghost var s0 := ft.st;
    ft.st := Exec(ft.st, step);
    ft.pool := more;
    ghost var s1 := ft.st;
    var n := EdgeAt(ft.st.top, path).child;
    if n.Inner? && ft.t.gorged(n) {
      StaysEmpty(s0.top, s1.top, path);
      LockPath(ft, path);
      ghost var s2 := ft.st;
      OutsidePath(s1.top, s2.top, path);
      FlushInBackground(ft, path, birdie);
      ReorganizedTrans(s1, s2, ft.st);
      SameHistory(s1, ft.st);
      SameOutsideTrans(s1.top, s2.top, ft.st.top, path);
      StaysQuiet(s1.top, ft.st.top, path);
      SameOutsideTrans(s0.top, s1.top, ft.st.top, path);
    }
  }

  lemma SameHistory(s: State, s': State)
    requires Reorganized(s, s')
    ensures s'.log == s.log && s'.maxMsn == s.maxMsn && s'.rightmost == s.rightmost
  {
  }

  /** Takes a write lock on a node below empty buffers. */
  method LockPath(ft: Ft, path: Path)
    requires ft.Inv() && QuietBelow(ft.st.top, path) && EmptyPath(ft.st.top, path)
    requires EdgeAt(ft.st.top, path).child.Inner?
    modifies ft`st
    ensures ft.Inv() && Reorganized(old(ft.st), ft.st) && SameOutside(old(ft.st.top), ft.st.top, path)
    ensures ft.Locked(path) && EdgeAt(ft.st.top, path).pin.topDown
    ensures EdgeAt(ft.st.top, path).child == EdgeAt(old(ft.st.top), path).child
    ensures EdgeAt(ft.st.top, path).buf == EdgeAt(old(ft.st.top), path).buf
  {
    hide TreeOk, Faithful, Reorganized, Around, Quiet, EmptyPath, LoAt, HiAt, ValidPath, EdgeAt, EdgeIn,
         ProbeEdge, Routed;
    ft.StepHere(LockTopDown(path));
  }

  /** toku_ft_flush_node_on_background_thread, with the job it queues: the client
      thread detaches the buffer if the child is cheap to lock and stable. */
  method FlushInBackground(ft: Ft, path: Path, birdie: Birdie)
    requires ft.Inv() && ft.Locked(path) && EdgeAt(ft.st.top, path).pin.topDown
    modifies ft`st, ft`hot, ft`nextBn
    ensures ft.Inv() && Reorganized(old(ft.st), ft.st) && SameOutside(old(ft.st.top), ft.st.top, path)
    ensures QuietEdge(EdgeAt(ft.st.top, path)) && EdgeAt(ft.st.top, path).buf == EdgeAt(old(ft.st.top), path).buf
  {
    hide TreeOk, Faithful, Reorganized, Around, Quiet, QuietEdge, EmptyPath, LoAt, HiAt, ValidPath, EdgeAt,
         EdgeIn, ProbeEdge, Routed, ReactivityOf;
    ghost var s0 := ft.st;
    PathShape(ft.st, path);
    var n := EdgeAt(ft.st.top, path).child;
    var i := ft.FindHeaviestChild(n);
    if birdie.cheap(n.kids[i]) && !MayBeReactive(ft.t, n.kids[i].child) {
      DetachTopDown(EdgeAt(ft.st.top, path), i);
      var held := ft.FlushInto(path, i);
      assert !held;
      ghost var s1 := ft.st;
      ft.Descend(path, i, FlusherThread);
      ReorganizedTrans(s0, s1, ft.st);
      SameOutsideTrans(s0.top, s1.top, ft.st.top, path);
    } else {
      ft.FlushSomeChild(path, FlusherThread);
    }
  }

  // --------------------------------------------------------- reactive children

  /** Where a child is split during promotion: a leaf on the right edge keeps all
      it has, a leaf on the left edge gives away all but one entry. */
  method PromotionCut(ft: Ft, n: Node, loc: Loc, height: nat, first: bool, last: bool) returns (at: SplitLoc)
    requires ReactivityOf(ft.t, n).Fissible? && ft.t.fanout > 0
    requires if n.Leaf? then |n.bases| > 0 && height == 1 else |n.kids| == |n.pivots| + 1 && height > 1
    ensures CanSplit(n, at)
    ensures Behind(n, at) ==> loc.right && last
    ensures n.Leaf? && loc.left && first ==> |Flat(LeftBases(n, at))| <= 1
    ensures n.Leaf? && !(loc.left && first) && loc.right && last ==> Flat(LeftBases(n, at)) == Flat(n.bases)
    ensures n.Leaf? && !(loc.left && first) && !(loc.right && last) ==> Balanced(n, at)
  {
    if n.Leaf? && |n.bases| == 1 {
      OneBasement(n);
    }
    if height == 1 && loc.left && first {
      at := RightHeavyCut(n);
    } else if height == 1 && loc.right && last {
      at := LeftHeavyCut(n);
    } else {
      at := ft.EvenSplit(n);
    }
  }

  /** Two locked kids are unlocked, and with them the whole subtree. */
  method Release(ft: Ft, path: Path, i: nat, both: bool)
    requires ft.Inv() && ValidPath(ft.st.top, path)
    requires
      var e := EdgeAt(ft.st.top, path);
      && e.pin.Free? && AloneKid(e, i)
      && (if both then AloneKid(e, i + 1) && OthersQuiet(e.child, i, i + 1) else OthersQuiet(e.child, i, i))
    modifies ft`st
    ensures ft.Inv() && Reorganized(old(ft.st), ft.st) && SameOutside(old(ft.st.top), ft.st.top, path)
    ensures QuietEdge(EdgeAt(ft.st.top, path))
    ensures EdgeAt(ft.st.top, path).buf == EdgeAt(old(ft.st.top), path).buf && EdgeAt(ft.st.top, path).child.Inner?
    ensures EdgeAt(ft.st.top, path).child.pivots == EdgeAt(old(ft.st.top), path).child.pivots
  {
    hide TreeOk, Faithful, Reorganized, Around, Quiet, QuietEdge, EmptyPath, LoAt, HiAt, ValidPath, EdgeAt,
         EdgeIn, ProbeEdge, Routed, AllLast;
    ghost var s0 := ft.st;
    Reflexive(s0, path);
    if both {
      ft.UnlockKid(path, i + 1, i);
    }
    ghost var s1 := ft.st;
    ft.UnlockKid(path, i, i);
    ReorganizedTrans(s0, s1, ft.st);
    SameOutsideTrans(s0.top, s1.top, ft.st.top, path);
    AllQuiet(EdgeAt(ft.st.top, path).child, i);
    UnlockedHere(EdgeAt(ft.st.top, path));
  }

  method SplitReactive(ft: Ft, path: Path, i: nat, loc: Loc)
    requires ft.Inv() && QuietBelow(ft.st.top, path) && EmptyPath(ft.st.top, path)
    requires LocOk(ft.st.top, path, loc)
    requires EdgeAt(ft.st.top, path).child.Inner? && i < |EdgeAt(ft.st.top, path).child.kids|
    requires |EdgeAt(ft.st.top, path).child.kids[i].buf| == 0
    requires ReactivityOf(ft.t, EdgeAt(ft.st.top, path).child.kids[i].child).Fissible?
    modifies ft`st, ft`nextBn
    ensures ft.Inv() && Reorganized(old(ft.st), ft.st) && SameOutside(old(ft.st.top), ft.st.top, path)
    ensures QuietEdge(EdgeAt(ft.st.top, path))
    ensures EdgeAt(ft.st.top, path).buf == EdgeAt(old(ft.st.top), path).buf && EdgeAt(ft.st.top, path).child.Inner?
  {
    hide TreeOk, Faithful, Reorganized, Around, Quiet, QuietEdge, EmptyPath, LoAt, HiAt, ValidPath, EdgeAt,
         EdgeIn, ProbeEdge, Routed, ReactivityOf, CanSplit, Behind, AllLast, SplitKid, Balanced;
    ghost var s0 := ft.st;
    PathShape(ft.st, path);
    KidShape(ft.st, path, i);
    var n := EdgeAt(ft.st.top, path).child;
    var at := PromotionCut(ft, n.kids[i].child, loc, n.height, i == 0, i == |n.kids| - 1);
    LockPath(ft, path);
    ghost var s1 := ft.st;
    QuietKid(EdgeAt(ft.st.top, path).child, i);
    LockEmptyKid(ft, path, i);
    ghost var s2 := ft.st;
    ReorganizedTrans(s0, s1, s2);
    SameOutsideTrans(s0.top, s1.top, s2.top, path);
    OthersStayQuiet(n, EdgeAt(ft.st.top, path).child, i);
    ft.SplitLocked(path, i, at);
    ghost var s3 := ft.st;
    ReorganizedTrans(s0, s2, s3);
    SameOutsideTrans(s0.top, s2.top, s3.top, path);
    Release(ft, path, i, true);
    ReorganizedTrans(s0, s3, ft.st);
    SameOutsideTrans(s0.top, s3.top, ft.st.top, path);
  }

  /** Locks a kid with an empty buffer. */
  method LockEmptyKid(ft: Ft, path: Path, i: nat)
    requires ft.Inv() && ft.Locked(path) && i < |EdgeAt(ft.st.top, path).child.kids|
    requires |EdgeAt(ft.st.top, path).child.kids[i].buf| == 0 && EdgeAt(ft.st.top, path).pin.topDown
    modifies ft`st
    ensures ft.Inv() && Reorganized(old(ft.st), ft.st) && SameOutside(old(ft.st.top), ft.st.top, path)
    ensures
      var e, e' := EdgeAt(old(ft.st.top), path), EdgeAt(ft.st.top, path);
      && e'.pin == e.pin && e'.buf == e.buf && AloneKid(e', i) && Drained(e', e'.child.kids[i])
      && e'.child.pivots == e.child.pivots && |e'.child.kids| == |e.child.kids|
      && e'.child.kids[i].child == e.child.kids[i].child
      && (forall x :: 0 <= x < |e.child.kids| && x != i ==> e'.child.kids[x] == e.child.kids[x])
  {
    hide TreeOk, Faithful, Reorganized, Around, Quiet, QuietEdge, ReplaceAt, EmptyPath, LoAt, HiAt, ValidPath,
         EdgeAt, ProbeEdge, Detach, Routed, AllLast;
    QuietKid(EdgeAt(ft.st.top, path).child, i);
    DetachPins(EdgeAt(ft.st.top, path), i);
    DetachTopDown(EdgeAt(ft.st.top, path), i);
    ft.StepHere(DetachBuffer(path, i));
  }

  lemma DetachTopDown(e: Kid, i: nat)
    requires e.pin.Held? && e.pin.topDown && e.child.Inner? && i < |e.child.kids|
    ensures Detach(e, i).child.kids[i].child == e.child.kids[i].child
  {
  }

  method MergeReactive(ft: Ft, path: Path, i: nat)
    requires ft.Inv() && QuietBelow(ft.st.top, path) && EmptyPath(ft.st.top, path)
    requires EdgeAt(ft.st.top, path).child.Inner? && i < |EdgeAt(ft.st.top, path).child.kids|
    modifies ft`st, ft`nextBn
    ensures ft.Inv() && Reorganized(old(ft.st), ft.st) && SameOutside(old(ft.st.top), ft.st.top, path)
    ensures QuietEdge(EdgeAt(ft.st.top, path))
    ensures EdgeAt(ft.st.top, path).buf == EdgeAt(old(ft.st.top), path).buf && EdgeAt(ft.st.top, path).child.Inner?
  {
    hide TreeOk, Faithful, Reorganized, Around, Quiet, QuietEdge, EmptyPath, LoAt, HiAt, ValidPath, EdgeAt,
         EdgeIn, ProbeEdge, Routed, AllLast, Drained;
    ghost var s0 := ft.st;
    Reflexive(s0, path);
    if |EdgeAt(ft.st.top, path).child.kids| >= 2 {
      var a := if i > 0 then i - 1 else 0;
      LockPath(ft, path);
      ghost var s1 := ft.st;
      ft.DrainPair(path, a);
      ghost var s2 := ft.st;
      PathShape(ft.st, path);
      PairMergeable(EdgeAt(ft.st.top, path), a);
      var merged := ft.MergeOrBalance(path, a);
      ghost var s3 := ft.st;
      ft.StepHere(Unlock(path));
      ghost var s4 := ft.st;
      Release(ft, path, a, !merged);
      ReorganizedTrans(s0, s1, s2);
      ReorganizedTrans(s0, s2, s3);
      ReorganizedTrans(s0, s3, s4);
      ReorganizedTrans(s0, s4, ft.st);
      SameOutsideTrans(s0.top, s1.top, s2.top, path);
      SameOutsideTrans(s0.top, s2.top, s3.top, path);
      SameOutsideTrans(s0.top, s3.top, s4.top, path);
      SameOutsideTrans(s0.top, s4.top, ft.st.top, path);
    }
  }

  /** process_maybe_reactive_child: true if the child was split or merged, or the
      caller has to look at the parent again for another reason. */
  method ProcessMaybeReactiveChild(ft: Ft, path: Path, i: nat, loc: Loc) returns (again: bool)
    requires ft.Inv() && QuietBelow(ft.st.top, path) && EmptyPath(ft.st.top, path)
    requires LocOk(ft.st.top, path, loc)
    requires EdgeAt(ft.st.top, path).child.Inner? && i < |EdgeAt(ft.st.top, path).child.kids|
    requires |EdgeAt(ft.st.top, path).child.kids[i].buf| == 0
    modifies ft`st, ft`nextBn
    ensures ft.Inv() && Reorganized(old(ft.st), ft.st) && SameOutside(old(ft.st.top), ft.st.top, path)
    ensures QuietEdge(EdgeAt(ft.st.top, path)) && (!again ==> ft.st == old(ft.st))
    ensures EdgeAt(ft.st.top, path).buf == EdgeAt(old(ft.st.top), path).buf && EdgeAt(ft.st.top, path).child.Inner?
  {
    hide TreeOk, Faithful, Reorganized, Around, Quiet, QuietEdge, EmptyPath, LoAt, HiAt, ValidPath, EdgeAt,
         EdgeIn, ProbeEdge, Routed, ReactivityOf, AllLast;
    Reflexive(ft.st, path);
    var n := EdgeAt(ft.st.top, path).child;
    match ReactivityOf(ft.t, n.kids[i].child)
    case Stable => again := false;
    case Fissible =>
      SplitReactive(ft, path, i, loc);
      again := true;
    case Fusible =>
      if n.height == 1 && ((loc.left && i <= 1) || (loc.right && i >= |n.kids| - 2)) {
        again := false;
      } else {
        MergeReactive(ft, path, i);
        again := true;
      }
  }

  // -------------------------------------------------------------- descending

  /** push_something_in_subtree: goes down only through empty buffers, and injects
      the message exactly once. */
  method PushSomethingInSubtree(ft: Ft, path: Path, key: Key, effect: (Key, Option<LeafEntry>) -> Option<LeafEntry>,
                                depth: nat, loc: Loc, justDid: bool, birdie: Birdie)
    requires ft.Inv() && QuietBelow(ft.st.top, path) && EmptyPath(ft.st.top, path)
    requires Routed(ft.st.top, path, key) && LocOk(ft.st.top, path, loc)
    modifies ft
    ensures ft.Inv() && Left(old(ft.st.top), ft.st.top, path) && Appended(old(ft.st), ft.st, Once(key), effect)
    decreases Height(ft.st.top.child) - |path|, !justDid
  {
    hide TreeOk, Faithful, Reorganized, Around, Quiet, QuietEdge, EmptyPath, LoAt, HiAt, ValidPath, EdgeAt,
         EdgeIn, ProbeEdge, Routed, ReactivityOf, AllLast, SameOutside, LocOk;
    ghost var s0 := ft.st;
    PathHeight(ft.st, path);
    var n := EdgeAt(ft.st.top, path).child;
    if n.Leaf? || ShouldInject(loc, n.height, depth) {
      InjectAt(ft, path, Once(key), effect, birdie);
      return;
    }
    PathShape(ft.st, path);
    assert n.pivots[..|n.kids| - 1] == n.pivots;
    var i := WhichChild(n.pivots, |n.kids|, key);
    var kid, nextLoc := n.kids[i], NextLoc(loc, n, i);
    if |kid.buf| > 0 || (nextLoc == NEITHER_EXTREME && n.height <= 1)
       || (nextLoc == NEITHER_EXTREME && !(birdie.promote(kid) && depth <= 1) && !birdie.cheap(kid)) {
      InjectAt(ft, path, Once(key), effect, birdie);
      return;
    }
    if !justDid {
      var again := ProcessMaybeReactiveChild(ft, path, i, loc);
      if again {
        SameHistory(s0, ft.st);
        HeightKept(s0, ft.st);
        SameWay(s0.top, ft.st.top, path, loc, key);
        StaysQuiet(s0.top, ft.st.top, path);
        ghost var s1 := ft.st;
        PushSomethingInSubtree(ft, path, key, effect, depth, loc, true, birdie);
        LeftTrans(s0.top, s1.top, ft.st.top, path);
        return;
      }
    }
    if nextLoc != NEITHER_EXTREME || birdie.dirty(kid) || birdie.promote(kid) {
      DownWay(ft.st.top, path, i, loc, key);
      PathHeight(ft.st, path + [i]);
      QuietBelowKid(ft.st.top, path, i);
      PushSomethingInSubtree(ft, path + [i], key, effect, depth + 1, nextLoc, false, birdie);
      LeftKid(s0.top, ft.st.top, path, i);
    } else {
      InjectAt(ft, path, Once(key), effect, birdie);
    }
  }

  lemma SameWay(top: Kid, top': Kid, path: Path, loc: Loc, key: Key)
    requires SameOutside(top, top', path) && EdgeAt(top', path).buf == EdgeAt(top, path).buf
    requires LocOk(top, path, loc) && EmptyPath(top, path) && Routed(top, path, key)
    ensures ValidPath(top', path) && LocOk(top', path, loc) && EmptyPath(top', path) && Routed(top', path, key)
  {
  }

  lemma DownWay(top: Kid, path: Path, i: nat, loc: Loc, key: Key)
    requires ValidPath(top, path) && LocOk(top, path, loc) && EmptyPath(top, path) && Routed(top, path, key)
    requires EdgeAt(top, path).child.Inner? && i < |EdgeAt(top, path).child.kids| == |EdgeAt(top, path).child.pivots| + 1
    requires Route(EdgeAt(top, path).child.pivots, key) == i && |EdgeAt(top, path).child.kids[i].buf| == 0
    ensures ValidPath(top, path + [i]) && LocOk(top, path + [i], NextLoc(loc, EdgeAt(top, path).child, i))
    ensures EmptyPath(top, path + [i]) && Routed(top, path + [i], key)
  {
    hide ValidPath, LocOk, EmptyPath, Routed, EdgeAt;
    KidPath(top, path, i, None, None);
    RoutedDown(top, path, i, key);
    LocDown(top, path, i, loc);
  }

  lemma {:induction false} RoutedDown(top: Kid, path: Path, i: nat, k: Key)
    requires ValidPath(top, path) && Routed(top, path, k)
    requires EdgeAt(top, path).child.Inner? && i < |EdgeAt(top, path).child.kids| && Route(EdgeAt(top, path).child.pivots, k) == i
    ensures ValidPath(top, path + [i]) && Routed(top, path + [i], k)
    decreases path
  {
    if |path| > 0 {
      assert (path + [i])[1..] == path[1..] + [i];
      RoutedDown(top.child.kids[path[0]], path[1..], i, k);
    } else {
      assert (path + [i])[1..] == [];
    }
  }

  // ---------------------------------------------------------------- the root

  /** The rightmost blocknum is set when promotion reaches a leaf other than the root
      with loc at the right edge only. */
  lemma RightmostSetByPromotion(s: State, step: Step, loc: Loc)
    requires Enabled(s, step) && step.Inject? && LocOk(s.top, step.path, loc)
    ensures
      var n := EdgeAt(s.top, step.path).child;
      NewRightmost(s, step)
      == if s.rightmost.None? && n.Leaf? && loc == Loc(false, true) then Some(n.bn) else s.rightmost
  {
  }

  /** ft_init_new_root: a new root above the old one, which is then split. */
  method SplitRoot(ft: Ft)
    requires ft.Inv() && QuietEdge(ft.st.top) && ReactivityOf(ft.t, ft.st.top.child).Fissible?
    modifies ft`st, ft`nextBn
    ensures ft.Inv() && QuietEdge(ft.st.top)
    ensures ft.st.log == old(ft.st.log) && ft.st.maxMsn == old(ft.st.maxMsn) && ft.st.rightmost == old(ft.st.rightmost)
    ensures ft.st.top.child.Inner? && ft.st.top.child.height == old(Height(ft.st.top.child)) + 1
    ensures !ReactivityOf(ft.t, ft.st.top.child).Fissible?
  {
    hide TreeOk, Faithful, Reorganized, Around, Quiet, QuietEdge, EmptyPath, EdgeIn, ProbeEdge, Routed,
         ReactivityOf, AllLast, CanSplit, Behind, SplitKid, Balanced;
    RootLockable(ft.st);
    ghost var s0 := ft.st;
    ft.StepHere(LockTopDown([]));
    RootLocked(s0);
    ghost var s1 := ft.st;
    SameHistory(s0, s1);
    HeightKept(s0, s1);
    RootShape(ft.st);
    var at := ft.EvenSplit(ft.st.top.child);
    var step := NewRoot(ft.nextBn);
    ft.nextBn := ft.nextBn + 1;
    StepSafe(ft.st, step);
    GrowRootIn(ft.st.top, step.bn, ft.pool);
    GrowRootPins(ft.st.top, step.bn, at);
    ft.st := Exec(ft.st, step);
    RootPath(ft.st.top);
    ghost var s2 := ft.st;
    ft.SplitLocked([], 0, at);
    ghost var s3 := ft.st;
    SameHistory(s2, s3);
    HeightKept(s2, s3);
    RootPath(s3.top);
    RootShape(ft.st);
    Release(ft, [], 0, true);
    SameHistory(s3, ft.st);
    HeightKept(s3, ft.st);
    RootPath(ft.st.top);
    RootShape(ft.st);
    NotFissible(ft.t, ft.st.top.child);
  }

  lemma NotFissible(t: Tuning, n: Node)
    requires n.Inner? && |n.kids| <= t.fanout
    ensures !ReactivityOf(t, n).Fissible?
  {
  }

  lemma RootShape(s: State)
    requires TreeOk(s)
    ensures if s.top.child.Leaf? then |s.top.child.bases| > 0 else |s.top.child.kids| == |s.top.child.pivots| + 1
  {
    assert NodeOk(s.top.child, None, None);
  }

  lemma GrowRootIn(top: Kid, bn: BlockNum, pool: set<Key>)
    requires EdgeIn(top, pool)
    ensures EdgeIn(GrowRoot(top, bn), pool)
  {
    WithBnIn(top.child, bn, pool);
  }

  lemma GrowRootPins(top: Kid, bn: BlockNum, at: SplitLoc)
    requires top.pin.Held? && |top.pin.inflight| == 0 && Quiet(top.child) && CanSplit(top.child, at) && !Behind(top.child, at)
    ensures
      var e := GrowRoot(top, bn);
      && AloneKid(e, 0) && OthersQuiet(e.child, 0, 0) && SplitEnabled(e, 0, at, None)
      && Height(e.child) == Height(top.child) + 1 && |e.child.kids| == 1 && |e.child.pivots| == 0
  {
  }

  /** toku_ft_root_put_msg: whatever is split, merged or flushed on the way, the
      message is injected once, with the next MSN. */
  method RootPutMsg(ft: Ft, scope: Scope, effect: (Key, Option<LeafEntry>) -> Option<LeafEntry>, birdie: Birdie)
    requires ft.Inv() && QuietEdge(ft.st.top)
    modifies ft
    ensures ft.Inv() && QuietEdge(ft.st.top) && Appended(old(ft.st), ft.st, scope, effect)
  {
    hide TreeOk, Faithful, Reorganized, Around, Quiet, QuietEdge, EdgeIn, ProbeEdge, ReactivityOf;
    if ReactivityOf(ft.t, ft.st.top.child).Fissible? {
      SplitRoot(ft);
    }
    RootPath(ft.st.top);
    RootEmpty(ft.st);
    RootQuiet(ft.st.top);
    var n := ft.st.top.child;
    if n.Leaf? || !scope.Once? {
      InjectAt(ft, [], scope, effect, birdie);
    } else if n.height > 1 {
      PushSomethingInSubtree(ft, [], scope.key, effect, 0, Loc(true, true), false, birdie);
    } else {
      RootShape(ft.st);
      PathShape(ft.st, []);
      assert n.pivots[..|n.kids| - 1] == n.pivots;
      var i := WhichChild(n.pivots, |n.kids|, scope.key);
      if i == 0 || i == |n.kids| - 1 {
        PushSomethingInSubtree(ft, [], scope.key, effect, 0, Loc(true, true), false, birdie);
      } else {
        InjectAt(ft, [], scope, effect, birdie);
      }
    }
    RootQuiet(ft.st.top);
  }

  lemma RootQuiet(top: Kid)
    ensures QuietBelow(top, []) <==> QuietEdge(top)
  {
  }

  lemma RootEmpty(s: State)
    requires TreeOk(s)
    ensures EmptyPath(s.top, []) && AllLast(s.top, []) && forall k :: Routed(s.top, [], k)
  {
  }
}
