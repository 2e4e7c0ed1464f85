/** A tree with its flusher: locked nodes are flushed, split and merged in place. */
module FtTree {
  import opened Keys
  import opened Messages
  import opened Entries
  import opened Nodes
  import opened Leaves
  import opened LeafMerge
  import opened Splitting
  import opened Paths
  import opened Halves
  import opened Parents
  import opened Edges
  import opened Reshape
  import opened Query
  import opened Protocol
  import opened Pool
  import opened Pins
  import opened Routing
  import opened Flusher

  // ------------------------------------------------- locks around one flush

  lemma DetachPins(e: Kid, i: nat)
    requires e.pin.Held? && e.child.Inner? && i < |e.child.kids| && QuietEdge(e.child.kids[i])
    ensures
      var e' := Detach(e, i);
      && e'.pin == e.pin && e'.buf == e.buf && e'.child.Inner? && e'.child.pivots == e.child.pivots
      && e'.child.height == e.child.height && |e'.child.kids| == |e.child.kids|
      && (forall x :: 0 <= x < |e.child.kids| && x != i ==> e'.child.kids[x] == e.child.kids[x])
      && e'.child.kids[i].pin == Held(e.pin.asOf, e.pin.topDown, e.child.kids[i].buf)
      && |e'.child.kids[i].buf| == 0 && Quiet(e'.child.kids[i].child)
      && e'.child.kids[i].child.Leaf? == e.child.kids[i].child.Leaf?
  {
  }

  lemma ApplyPins(kid: Kid)
    requires kid.pin.Held? && Quiet(kid.child)
    ensures
      var kid' := Apply(kid);
      && kid'.pin == Held(kid.pin.asOf, kid.pin.topDown, []) && kid'.buf == kid.buf
      && Quiet(kid'.child) && kid'.child.Leaf? == kid.child.Leaf?
  {
    PutAllQuiet(kid.child, kid.pin.inflight);
  }

  class Ft {
    var st: State
    var nextBn: BlockNum
    var hot: HotKeys
    const t: Tuning
    /** A finite set that has every key of the tree. */
    ghost var pool: set<Key>

    constructor (t: Tuning, bn: BlockNum)
      requires t.fanout > 1
      ensures Inv() && st == Initial(bn) && this.t == t
    {
      this.t := t;
      st := Initial(bn);
      nextBn := bn + 1;
      hot := HotKeys(None, None);
      pool := {};
      new;
      InitialOk(bn);
    }

    ghost predicate Inv()
      reads this
    {
      TreeOk(st) && Faithful(st) && EdgeIn(st.top, pool) && t.fanout > 1
    }

    // ---------------------------------------------------------- single steps

    method StepHere(step: Step)
      requires Inv() && Reorganizing(step) && Enabled(st, step)
      modifies this`st
      ensures Inv() && Reorganized(old(st), st) && SameOutside(old(st.top), st.top, step.path)
      ensures EdgeAt(st.top, step.path) == NewEdge(old(st), step)
    {
      hide TreeOk, Faithful, SameOutside, EnabledAt, NewEdge, EdgeAt, ReplaceAt, ValidPath;
      StepReorganizes(st, step);
      ReplacedOutside(st.top, step.path, NewEdge(st, step));
      st := Exec(st, step);
    }

    /** A step on kid `i` of the edge at `path`. */
    method StepKid(path: Path, i: nat, step: Step)
      requires Inv() && Reorganizing(step) && step.path == path + [i]
      requires ValidPath(st.top, path)
      requires EdgeAt(st.top, path).child.Inner? && i < |EdgeAt(st.top, path).child.kids|
      requires Enabled(st, step)
      modifies this`st
      ensures Inv() && Reorganized(old(st), st) && SameOutside(old(st.top), st.top, path)
      ensures
        var e := EdgeAt(old(st.top), path);
        EdgeAt(st.top, path) == e.(child := SetKid(e.child, i, NewEdge(old(st), step)))
    {
      hide TreeOk, Faithful, SameOutside, EnabledAt, NewEdge, EdgeAt, ReplaceAt, ValidPath;
      StepReorganizes(st, step);
      var kid := NewEdge(st, step);
      ReplaceKid(st.top, path, i, kid);
      var e := EdgeAt(st.top, path);
      ReplacedOutside(st.top, path, e.(child := SetKid(e.child, i, kid)));
      st := Exec(st, step);
    }

    // -------------------------------------------------------- picking a child

    /** find_heaviest_child: the first child of greatest weight. */
    method FindHeaviestChild(n: Node) returns (i: nat)
      requires n.Inner? && |n.kids| > 0
      ensures i < |n.kids|
      ensures forall j :: 0 <= j < |n.kids| ==> t.weight(n.kids[j]) <= t.weight(n.kids[i])
      ensures forall j :: 0 <= j < i ==> t.weight(n.kids[j]) < t.weight(n.kids[i])
    {
      i := 0;
      var max := t.weight(n.kids[0]);
      for j := 1 to |n.kids|
        invariant i < j && max == t.weight(n.kids[i])
        invariant forall x :: 0 <= x < j ==> t.weight(n.kids[x]) <= max
        invariant forall x :: 0 <= x < i ==> t.weight(n.kids[x]) < max
      {
        if max < t.weight(n.kids[j]) {
          i, max := j, t.weight(n.kids[j]);
        }
      }
    }

    ghost predicate Locked(path: Path)
      reads this
    {
      ValidPath(st.top, path) && Alone(EdgeAt(st.top, path))
    }

    /** hot_just_pick_child. */
    method HotJustPick(n: Node) returns (c: nat)
      requires n.Inner? && Increasing(n.pivots)
      ensures c == HotPick(n, hot)
    {
      if hot.highest.None? {
        c := 0;
      } else {
        c := HotNextChild(n.pivots, hot.highest.value);
      }
    }

    method PickChild(path: Path, fa: Advice) returns (i: nat)
      requires Inv() && Locked(path)
      modifies this`hot
      ensures
        var n := EdgeAt(st.top, path).child;
        && i < |n.kids|
        && (fa.Hot? ==> i == HotPick(n, old(hot)) && hot == HotUpdate(n, i, old(hot)))
        && (fa.CleanerMerge? ==> i == if n.height == 1 && fa.last then |n.kids| - 1 else Route(n.pivots, fa.target))
        && (fa.FlusherThread? || fa.Cleaner? ==>
              forall j :: 0 <= j < |n.kids| ==> t.weight(n.kids[j]) <= t.weight(n.kids[i]))
      ensures !fa.Hot? ==> hot == old(hot)
    {
      hide Faithful, Around, EdgeOk, EdgeSettled;
      var n := EdgeAt(st.top, path).child;
      AtOk(st.top, path, None, None, Height(st.top.child));
      InnerEdge(EdgeAt(st.top, path), LoAt(st.top, path, None), HiAt(st.top, path, None), Height(st.top.child) - |path|);
      assert n.pivots[..|n.kids| - 1] == n.pivots;
      match fa
      case CleanerMerge(target, last) =>
        if n.height == 1 && last {
          i := |n.kids| - 1;
        } else {
          i := WhichChild(n.pivots, |n.kids|, target);
        }
      case Hot =>
        i := HotJustPick(n);
        hot := HotUpdate(n, i, hot);
      case _ =>
        i := FindHeaviestChild(n);
    }

    // ------------------------------------------------------------- the flush

    /** The edge at `path` has kid `i` locked, drained, and no other node below it;
        the edge itself may or may not be locked still. */
    ghost predicate LockedKid(path: Path, i: nat)
      reads this
    {
      && ValidPath(st.top, path)
      && var e := EdgeAt(st.top, path);
         AloneKid(e, i) && OthersQuiet(e.child, i, i)
    }

    /** Detaches the buffer of child `i`, locks the child, and puts the buffer into
        it. The parent is unlocked as soon as the child is known to be stable. */
    method FlushInto(path: Path, i: nat) returns (held: bool)
      requires Inv() && Locked(path) && i < |EdgeAt(st.top, path).child.kids|
      modifies this`st
      ensures Inv() && Reorganized(old(st), st) && SameOutside(old(st.top), st.top, path) && LockedKid(path, i)
      ensures
        var e, e' := EdgeAt(old(st.top), path), EdgeAt(st.top, path);
        && e'.buf == e.buf && e'.child.pivots == e.child.pivots && |e'.child.kids| == |e.child.kids|
        && e'.child.kids[i].pin == Held(e.pin.asOf, e.pin.topDown, [])
        && (if held then e'.pin == e.pin else e'.pin.Free?)
      ensures
        var e, e' := EdgeAt(old(st.top), path), EdgeAt(st.top, path);
        var kid := Detach(e, i).child.kids[i];
        && (held <==> MayBeReactive(t, kid.child) && !ReactivityOf(t, kid.child).Stable?)
        && e'.child.kids[i] == (if kid.pin.inflight != [] || e.child.height == 1 then Apply(kid) else kid)
        && forall x :: 0 <= x < |e.child.kids| && x != i ==> e'.child.kids[x] == e.child.kids[x]
    {
      hide TreeOk, Faithful, Reorganized, Around, Quiet, QuietEdge, ReplaceAt, EmptyPath, LoAt, HiAt, Detach,
           Apply, ValidPath, EdgeAt, SameOutside, EdgeIn, ReactivityOf;
      ghost var s0 := st;
      var e := EdgeAt(st.top, path);
      assert QuietEdge(e.child.kids[i]) && e.child.kids[i].pin.Free? by { QuietKid(e.child, i); }
      DetachPins(e, i);
      StepHere(DetachBuffer(path, i));
      ghost var s1 := st;
      OutsidePath(s0.top, s1.top, path);
      var child := EdgeAt(st.top, path).child.kids[i].child;
      var detached := EdgeAt(st.top, path).child.kids[i].pin.inflight != [] || e.child.height == 1;
      held := true;
      if !MayBeReactive(t, child) || ReactivityOf(t, child).Stable? {
        StepHere(Unlock(path));
        ReorganizedTrans(s0, s1, st);
        SameOutsideTrans(s0.top, s1.top, st.top, path);
        held := false;
      }
      ghost var s2 := st;
      OutsidePath(s0.top, s2.top, path);
      if detached {
        ApplyToKid(path, i);
        ReorganizedTrans(s0, s2, st);
        SameOutsideTrans(s0.top, s2.top, st.top, path);
        OutsidePath(s0.top, st.top, path);
      }
      OthersStayQuiet(e.child, EdgeAt(st.top, path).child, i);
    }

    /** Puts the buffer in flight into kid `i`. */
    method ApplyToKid(path: Path, i: nat)
      requires Inv() && ValidPath(st.top, path)
      requires
        var e := EdgeAt(st.top, path);
        && e.child.Inner? && i < |e.child.kids| && e.child.kids[i].pin.Held? && Quiet(e.child.kids[i].child)
      modifies this`st
      ensures Inv() && Reorganized(old(st), st) && SameOutside(old(st.top), st.top, path)
      ensures
        var e, e' := EdgeAt(old(st.top), path), EdgeAt(st.top, path);
        e' == e.(child := SetKid(e.child, i, Apply(e.child.kids[i])))
      ensures
        var e' := EdgeAt(st.top, path);
        var pin := EdgeAt(old(st.top), path).child.kids[i].pin;
        && e'.child.kids[i].pin == Held(pin.asOf, pin.topDown, []) && Quiet(e'.child.kids[i].child)
        && e'.child.kids[i].buf == EdgeAt(old(st.top), path).child.kids[i].buf
    {
      hide TreeOk, Faithful, Reorganized, Around, Quiet, QuietEdge, ReplaceAt, EmptyPath, LoAt, HiAt, Apply,
           ValidPath, EdgeAt, SameOutside, EdgeIn;
      var kid := EdgeAt(st.top, path).child.kids[i];
      KidAt(st.top, path, i);
      ApplyPins(kid);
      StepKid(path, i, ApplyBuffer(path + [i]));
    }

    /** Anyone but the cleaner has reached the locked node top-down. */
    ghost predicate TopDown(e: Kid, fa: Advice) {
      fa.Cleaner? || (e.pin.Held? && e.pin.topDown)
    }

    /** The cleaner, that may start over at the root, and a pass of hot run while no other
        thread has a lock outside the locked subtree; for the others it does not matter. */
    ghost predicate Clear(path: Path, fa: Advice)
      reads this
      requires ValidPath(st.top, path)
    {
      fa.Cleaner? || fa.Hot? ==> Around(st.top, path)
    }

    /** What a flush leaves behind: nothing locked that was not locked by others, nothing
        changed outside the subtree (unless the cleaner starts over at the root), and nothing
        that a reader could see. A pass of hot has flushed all it covers. */
    ghost predicate Finished(s: State, hot0: HotKeys, fa: Advice, path: Path)
      reads this
    {
      && Inv() && Reorganized(s, st)
      && (if fa.Cleaner? then QuietEdge(st.top)
          else SameOutside(s.top, st.top, path) && QuietEdge(EdgeAt(st.top, path))
               && EdgeAt(st.top, path).buf == EdgeAt(s.top, path).buf)
      && (if fa.Hot? then hot.highest == hot0.highest && HotDone(st, hot) && InPool(hot, pool)
          else hot == hot0)
    }

    /** Either goes on flushing from the node at `path` or unlocks it. */
    method Continue(path: Path, fa: Advice)
      requires Inv() && ValidPath(st.top, path) && Clear(path, fa)
      requires
        var e := EdgeAt(st.top, path);
        && e.pin.Held? && |e.pin.inflight| == 0 && Quiet(e.child) && TopDown(e, fa)
        && (fa.Hot? ==> if e.child.Leaf? then HotDone(st, hot) && InPool(hot, pool) else HotAt(st.top, path, hot))
      modifies this`st, this`hot, this`nextBn
      ensures Finished(old(st), old(hot), fa, path)
      decreases Rank(fa), Height(st.top.child) - |path|, 4
    {
      hide TreeOk, Faithful, Reorganized, Around, Quiet, QuietEdge, EmptyPath, LoAt, HiAt, ValidPath, EdgeAt,
           HotAt, HotDone, EdgeIn, ProbeEdge, ReactivityOf;
      PathHeight(st, path);
      var n := EdgeAt(st.top, path).child;
      if n.Inner? && ShouldRecurse(t, fa, n) {
        FlushSomeChild(path, fa);
      } else {
        ghost var s0 := st;
        StepHere(Unlock(path));
        UnlockedHere(EdgeAt(st.top, path));
        if fa.Cleaner? {
          OutsidePath(s0.top, st.top, path);
          UnlockedQuiet(st.top, path);
        }
        if fa.Hot? {
          HotDoneKept(s0, st, hot);
        }
      }
    }

    /** Goes on to kid `i`, once its parent is unlocked. */
    method Descend(path: Path, i: nat, fa: Advice)
      requires Inv() && LockedKid(path, i) && EdgeAt(st.top, path).pin.Free? && Clear(path, fa)
      requires TopDown(EdgeAt(st.top, path).child.kids[i], fa)
      requires fa.Hot? ==> HotKid(st.top, path, i, hot)
      modifies this`st, this`hot, this`nextBn
      ensures Finished(old(st), old(hot), fa, path)
      decreases Rank(fa), Height(st.top.child) - |path|, 0
    {
      hide TreeOk, Faithful, Reorganized, Around, Quiet, QuietEdge, EmptyPath, LoAt, HiAt, ValidPath, EdgeAt,
           HotAt, HotDone, EdgeIn, ProbeEdge, ReactivityOf, HotKid;
      ghost var s0 := st;
      PathShape(st, path);
      KidAt(st.top, path, i);
      if fa.Cleaner? || fa.Hot? {
        AroundKid(st.top, path, i);
      }
      PathHeight(st, path + [i]);
      if fa.Hot? {
        HotKidAt(st.top, path, i, hot);
        if EdgeAt(st.top, path).child.kids[i].child.Leaf? {
          HotKidDone(st, path, i, hot, pool);
        }
      }
      Continue(path + [i], fa);
      if !fa.Cleaner? {
        KidOutside(s0.top, st.top, path, i);
      }
    }

    /** toku_ft_flush_some_child: flushes one child of the locked node at `path`,
        splits or merges it if it needs that, and possibly goes on below. On
        return the whole subtree is unlocked; locks of other threads outside it are as
        they were. */
    method FlushSomeChild(path: Path, fa: Advice)
      requires Inv() && Locked(path) && Clear(path, fa) && TopDown(EdgeAt(st.top, path), fa)
      requires fa.Hot? ==> HotAt(st.top, path, hot)
      modifies this`st, this`hot, this`nextBn
      ensures Finished(old(st), old(hot), fa, path)
      decreases Rank(fa), Height(st.top.child) - |path|, 3
    {
      hide TreeOk, Faithful, Reorganized, Around, Quiet, QuietEdge, EmptyPath, LoAt, HiAt, ValidPath, EdgeAt,
           HotAt, HotDone, EdgeIn, ProbeEdge, ReactivityOf, HotKid, HotPick, HotUpdate;
      ghost var s0, hot0 := st, hot;
      PathShape(st, path);
      var i := PickChild(path, fa);
      var held := FlushInto(path, i);
      OutsidePath(s0.top, st.top, path);
      if fa.Hot? {
        HotPickedKid(s0.top, st.top, path, hot0);
        HotUpdateHighest(EdgeAt(s0.top, path).child, i, hot0);
      }
      ghost var s1, hot1 := st, hot;
      HeightKept(s0, s1);
      var n := EdgeAt(st.top, path).child;
      var re := ReactivityOf(t, n.kids[i].child);
      if !held || re.Stable? || (re.Fusible? && |n.kids| == 1) {
        if held {
          StepHere(Unlock(path));
          HeightKept(s1, st);
          ReorganizedTrans(s0, s1, st);
          SameOutsideTrans(s0.top, s1.top, st.top, path);
          OutsidePath(s1.top, st.top, path);
          if fa.Hot? {
            HotKidSame(s1.top, st.top, path, i, hot);
          }
        }
        s1 := st;
        Descend(path, i, fa);
      } else if re.Fissible? {
        SplitChild(path, i, fa);
      } else {
        MaybeMergeChild(path, i, fa);
      }
      ReorganizedTrans(s0, s1, st);
      if !fa.Cleaner? {
        SameOutsideTrans(s0.top, s1.top, st.top, path);
      }
    }

    /** Where to split a node that is to be split evenly. */
    method EvenSplit(n: Node) returns (at: SplitLoc)
      requires ReactivityOf(t, n).Fissible? && t.fanout > 0
      requires if n.Leaf? then |n.bases| > 0 else |n.kids| == |n.pivots| + 1
      ensures CanSplit(n, at) && !Behind(n, at) && (n.Leaf? ==> Balanced(n, at))
    {
      if n.Leaf? {
        var r := EvenCut(n);
        at := r.value;
      } else {
        at := SplitLoc(0, 0);
      }
    }

    method UnlockKid(path: Path, i: nat, j: nat)
      requires Inv() && ValidPath(st.top, path)
      requires AloneKid(EdgeAt(st.top, path), i) && OthersQuiet(EdgeAt(st.top, path).child, i, j)
      modifies this`st
      ensures Inv() && Reorganized(old(st), st) && SameOutside(old(st.top), st.top, path)
      ensures
        var e, e' := EdgeAt(old(st.top), path), EdgeAt(st.top, path);
        && e'.pin == e.pin && e'.buf == e.buf && e'.child == SetKid(e.child, i, Unpin(e.child.kids[i]))
        && OthersQuiet(e'.child, j, j)
    {
      hide TreeOk, Faithful, Reorganized, Around, Quiet, EmptyPath, LoAt, HiAt, ValidPath, EdgeAt, ProbeEdge;
      KidAt(st.top, path, i);
      StepKid(path, i, Unlock(path + [i]));
    }

    /** Splits the locked child `i` and unlocks its parent; the halves stay locked. */
    method SplitLocked(path: Path, i: nat, at: SplitLoc)
      requires Inv() && LockedKid(path, i) && SplitEnabled(EdgeAt(st.top, path), i, at, HiAt(st.top, path, None))
      modifies this`st, this`nextBn
      ensures Inv() && Reorganized(old(st), st) && SameOutside(old(st.top), st.top, path)
      ensures
        var e, e' := EdgeAt(old(st.top), path), EdgeAt(st.top, path);
        && e'.pin.Free? && e'.buf == e.buf && AloneKid(e', i) && AloneKid(e', i + 1)
        && OthersQuiet(e'.child, i, i + 1)
        && e'.child.pivots == InsertKey(e.child.pivots, i, SplitPivot(e.child.kids[i].child, at))
        && e'.child.kids[i].pin == e'.child.kids[i + 1].pin == e.child.kids[i].pin
        && e' == Unpin(SplitKid(e, i, at, old(nextBn), old(st.rightmost)))
    {
      hide TreeOk, Faithful, Reorganized, Around, Quiet, QuietEdge, EmptyPath, LoAt, HiAt, ValidPath, EdgeAt,
           EdgeIn, ProbeEdge, CanSplit, Behind, SplitKid, SplitPivot;
      ghost var s0 := st;
      var bn := nextBn;
      nextBn := nextBn + 1;
      SplitPins(EdgeAt(st.top, path), i, at, bn, st.rightmost);
      StepHere(Step.SplitChild(path, i, at, bn));
      ghost var s1 := st;
      StepHere(Unlock(path));
      ReorganizedTrans(s0, s1, st);
      SameOutsideTrans(s0.top, s1.top, st.top, path);
    }

    /** ft_split_child: splits the locked child `i` evenly, unlocks the node, and
        goes on with at most one of the halves. */
    method SplitChild(path: Path, i: nat, fa: Advice)
      requires Inv() && LockedKid(path, i) && Drained(EdgeAt(st.top, path), EdgeAt(st.top, path).child.kids[i])
      requires ReactivityOf(t, EdgeAt(st.top, path).child.kids[i].child).Fissible?
      requires TopDown(EdgeAt(st.top, path), fa) && Clear(path, fa)
      requires fa.Hot? ==> HotKid(st.top, path, i, hot)
      modifies this`st, this`hot, this`nextBn
      ensures Finished(old(st), old(hot), fa, path)
      decreases Rank(fa), Height(st.top.child) - |path|, 2
    {
      hide TreeOk, Faithful, Reorganized, Around, Quiet, QuietEdge, EmptyPath, LoAt, HiAt, ValidPath, EdgeAt,
           HotAt, HotDone, EdgeIn, ProbeEdge, ReactivityOf, HotKid, HotPick, HotUpdate, CanSplit, Behind,
           SplitPivot, SplitKid, Balanced;
      ghost var s0, hot0 := st, hot;
      PathShape(st, path);
      KidShape(st, path, i);
      var child := EdgeAt(st.top, path).child.kids[i].child;
      var at := EvenSplit(child);
      SplitLocked(path, i, at);
      ghost var s1 := st;
      OutsidePath(s0.top, s1.top, path);
      HeightKept(s0, s1);
      PathShape(st, path);
      var n := EdgeAt(st.top, path).child;
      var c := i;
      if fa.Hot? {
        HotSplit(s0.top, st.top, path, i, SplitPivot(child, at), hot);
        c := HotJustPick(n);
        hot := HotUpdate(n, c, hot);
        HotUpdateHighest(n, c, hot0);
      } else if n.kids[i].child.Inner? && ShouldRecurse(t, fa, n.kids[i].child) {
      } else if n.kids[i + 1].child.Inner? && ShouldRecurse(t, fa, n.kids[i + 1].child) {
        c := i + 1;
      }
      UnlockKid(path, i + i + 1 - c, c);
      ghost var s2 := st;
      OutsidePath(s1.top, s2.top, path);
      SameOutsideTrans(s0.top, s1.top, s2.top, path);
      HeightKept(s1, s2);
      ReorganizedTrans(s0, s1, s2);
      if fa.Hot? {
        HotKidSame(s1.top, s2.top, path, c, hot);
      }
      Descend(path, c, fa);
      ReorganizedTrans(s0, s2, st);
      if !fa.Cleaner? {
        SameOutsideTrans(s0.top, s2.top, st.top, path);
      }
    }

    // ------------------------------------------------------------------ merge

    /** Locks kid `j` and brings its buffer down, if there is one. */
    method DrainKid(path: Path, j: nat)
      requires Inv() && ValidPath(st.top, path)
      requires
        var e := EdgeAt(st.top, path);
        && e.pin.Held? && |e.pin.inflight| == 0 && e.child.Inner? && j < |e.child.kids|
        && QuietEdge(e.child.kids[j])
      modifies this`st
      ensures Inv() && Reorganized(old(st), st) && SameOutside(old(st.top), st.top, path)
      ensures
        var e, e' := EdgeAt(old(st.top), path), EdgeAt(st.top, path);
        && e'.pin == e.pin && e'.buf == e.buf && AloneKid(e', j) && Drained(e', e'.child.kids[j])
        && e'.child.pivots == e.child.pivots && |e'.child.kids| == |e.child.kids|
        && e'.child.kids[j].child.Leaf? == e.child.kids[j].child.Leaf?
        && (forall x :: 0 <= x < |e.child.kids| && x != j ==> e'.child.kids[x] == e.child.kids[x])
    {
      hide TreeOk, Faithful, Reorganized, Around, Quiet, ReplaceAt, EmptyPath, LoAt, HiAt, Detach, Apply,
           ValidPath, EdgeAt, ProbeEdge;
      ghost var s0 := st;
      DetachPins(EdgeAt(st.top, path), j);
      StepHere(DetachBuffer(path, j));
      var kid := EdgeAt(st.top, path).child.kids[j];
      if |kid.pin.inflight| > 0 {
        ghost var s1 := st;
        KidAt(st.top, path, j);
        ApplyPins(kid);
        StepKid(path, j, ApplyBuffer(path + [j]));
        ReorganizedTrans(s0, s1, st);
        SameOutsideTrans(s0.top, s1.top, st.top, path);
      }
    }

    /** Two leaves that are more than three quarters of a node together stay apart:
        as they are if both are more than a quarter, else with entries moved. All
        others, and nonleaf nodes always, become one. */
    ghost predicate MergeOutcome(s: State, s': State, path: Path, a: nat, merged: bool, na: Node, nb: Node)
      requires ValidPath(s.top, path) && ValidPath(s'.top, path) && MergeEnabled(EdgeAt(s.top, path), a)
    {
      var e, e' := EdgeAt(s.top, path), EdgeAt(s'.top, path);
      var apart := && na.Leaf? && nb.Leaf? && |Flat(na.bases)| + |Flat(nb.bases)| > 1
                   && (t.size(na) + t.size(nb)) * 4 > t.nodeSize * 3;
      if !apart then merged && e' == MergeKids(e, a, s.rightmost)
      else if t.size(na) * 4 > t.nodeSize && t.size(nb) * 4 > t.nodeSize then !merged && s' == s
      else !merged && exists at :: RebalanceEnabled(e, a, at) && e' == RebalanceKids(e, a, at)
    }

    /** maybe_merge_pinned_nodes: merges the drained kids `a` and `a + 1`, or moves
        entries between them, or leaves them alone. */
    method MergeOrBalance(path: Path, a: nat) returns (merged: bool)
      requires Inv() && ValidPath(st.top, path)
      requires
        var e := EdgeAt(st.top, path);
        && MergeEnabled(e, a) && AloneKid(e, a) && AloneKid(e, a + 1) && OthersQuiet(e.child, a, a + 1)
      modifies this`st
      ensures Inv() && Reorganized(old(st), st) && SameOutside(old(st.top), st.top, path)
      ensures
        var e, e' := EdgeAt(old(st.top), path), EdgeAt(st.top, path);
        && e'.pin == e.pin && e'.buf == e.buf && AloneKid(e', a)
        && e'.child.kids[a].pin == e.child.kids[a].pin
        && e'.child.kids[a].child.Leaf? == e.child.kids[a].child.Leaf?
        && (if merged then OthersQuiet(e'.child, a, a) else AloneKid(e', a + 1) && OthersQuiet(e'.child, a, a + 1))
        && (e.child.kids[a].child.Inner? ==>
              merged && e'.child.pivots == RemoveKey(e.child.pivots, a) && e.child.pivots[a] in e'.child.kids[a].child.pivots)
      ensures
        var e := EdgeAt(old(st.top), path);
        MergeOutcome(old(st), st, path, a, merged, e.child.kids[a].child, e.child.kids[a + 1].child)
    {
      hide TreeOk, Faithful, Reorganized, Around, Quiet, QuietEdge, EmptyPath, LoAt, HiAt, ValidPath, EdgeAt,
           ProbeEdge, CanSplit, Behind, Merged, MergeKids, RebalanceKids;
      var e := EdgeAt(st.top, path);
      var na, nb := e.child.kids[a].child, e.child.kids[a + 1].child;
      KidShape(st, path, a);
      KidShape(st, path, a + 1);
      if na.Leaf? && |Flat(na.bases)| + |Flat(nb.bases)| > 1 && (t.size(na) + t.size(nb)) * 4 > t.nodeSize * 3 {
        merged := false;
        if t.size(na) * 4 > t.nodeSize && t.size(nb) * 4 > t.nodeSize {
          Reflexive(st, path);
        } else {
          var at := BalancedCut(na, nb, e.child.pivots[a]);
          RebalancePins(e, a, at);
          StepHere(RebalanceChildren(path, a, at));
        }
      } else {
        merged := true;
        MergePins(e, a, st.rightmost);
        StepHere(MergeChildren(path, a));
      }
    }

    /** Where balance_leaf_nodes cuts the merged leaf. */
    method BalancedCut(a: Node, b: Node, key: Key) returns (at: SplitLoc)
      requires a.Leaf? && b.Leaf? && |a.bases| > 0 && |b.bases| > 0 && |Flat(a.bases)| + |Flat(b.bases)| > 1
      ensures CanSplit(Merged(a, b, key), at) && !Behind(Merged(a, b, key), at)
    {
      MergeKeepsEntries(a, b);
      var r := EvenCut(MergeLeaves(a, b));
      at := r.value;
    }

    /** ft_merge_child: merges or rebalances child `i` of the locked node with a
        neighbour, unlocks the node, and possibly goes on with the merged child. */
    method MergeChild(path: Path, i: nat, fa: Advice)
      requires Inv() && Locked(path) && Clear(path, fa) && TopDown(EdgeAt(st.top, path), fa)
      requires
        var n := EdgeAt(st.top, path).child;
        i < |n.kids| && |n.kids| > 1 && (fa.Cleaner? ==> n.height > 1)
      requires fa.Hot? ==> HotKid(st.top, path, i, hot)
      modifies this`st, this`hot, this`nextBn
      ensures Finished(old(st), old(hot), fa, path)
      decreases Rank(fa), Height(st.top.child) - |path|, 1
    {
      hide TreeOk, Faithful, Reorganized, Around, Quiet, QuietEdge, EmptyPath, LoAt, HiAt, ValidPath, EdgeAt,
           HotAt, HotDone, EdgeIn, ProbeEdge, ReactivityOf, HotKid, HotPick, HotUpdate, Drained;
      ghost var s0 := st;
      var a := if i > 0 then i - 1 else 0;
      PathShape(st, path);
      DrainPair(path, a);
      ghost var s1 := st;
      OutsidePath(s0.top, s1.top, path);
      HeightKept(s0, s1);
      PathShape(st, path);
      KidShape(st, path, a);
      KidShape(st, path, a + 1);
      var leaf := EdgeAt(st.top, path).child.kids[a].child.Leaf?;
      if fa.Hot? {
        HotKidSame(s0.top, s1.top, path, i, hot);
        if leaf {
          DrainedInflight(EdgeAt(st.top, path), i);
          HotKidDone(st, path, i, hot, pool);
        }
      }
      PairMergeable(EdgeAt(st.top, path), a);
      var merged := MergeOrBalance(path, a);
      ghost var s2 := st;
      OutsidePath(s1.top, s2.top, path);
      SameOutsideTrans(s0.top, s1.top, s2.top, path);
      HeightKept(s1, s2);
      PathShape(st, path);
      if fa.Hot? {
        if leaf {
          HotDoneKept(s1, s2, hot);
        } else {
          HotMerge(s1.top, s2.top, path, i, a, hot);
        }
      }
      MergeFinish(path, a, merged, fa);
      ReorganizedTrans(s0, s1, s2);
      ReorganizedTrans(s0, s2, st);
      if !fa.Cleaner? {
        SameOutsideTrans(s0.top, s2.top, st.top, path);
      }
    }

    method DrainPair(path: Path, a: nat)
      requires Inv() && Locked(path) && a + 1 < |EdgeAt(st.top, path).child.kids|
      modifies this`st
      ensures Inv() && Reorganized(old(st), st) && SameOutside(old(st.top), st.top, path)
      ensures
        var e, e' := EdgeAt(old(st.top), path), EdgeAt(st.top, path);
        && e'.pin == e.pin && e'.buf == e.buf && e'.child.Inner? && e'.child.pivots == e.child.pivots
        && |e'.child.kids| == |e.child.kids|
        && AloneKid(e', a) && AloneKid(e', a + 1) && OthersQuiet(e'.child, a, a + 1)
        && Drained(e', e'.child.kids[a]) && Drained(e', e'.child.kids[a + 1])
    {
      hide TreeOk, Faithful, Reorganized, Around, EmptyPath, LoAt, HiAt, ValidPath, EdgeAt, ProbeEdge;
      ghost var s0 := st;
      DrainKid(path, a);
      ghost var s1 := st;
      DrainKid(path, a + 1);
      ReorganizedTrans(s0, s1, st);
      SameOutsideTrans(s0.top, s1.top, st.top, path);
    }

    /** Unlocks the parent, and the right child if it is still there; then goes on
        with the left child or unlocks it. */
    method MergeFinish(path: Path, a: nat, merged: bool, fa: Advice)
      requires Inv() && ValidPath(st.top, path) && Clear(path, fa)
      requires
        var e := EdgeAt(st.top, path);
        && e.pin.Held? && |e.pin.inflight| == 0 && AloneKid(e, a) && TopDown(e.child.kids[a], fa)
        && (if merged then OthersQuiet(e.child, a, a) else AloneKid(e, a + 1) && OthersQuiet(e.child, a, a + 1))
        && (fa.Hot? ==>
              if e.child.kids[a].child.Leaf? then HotDone(st, hot) && InPool(hot, pool)
              else ValidPath(st.top, path + [a]) && HotAt(st.top, path + [a], hot))
      modifies this`st, this`hot, this`nextBn
      ensures Finished(old(st), old(hot), fa, path)
      decreases Rank(fa), Height(st.top.child) - |path|, 0
    {
      hide TreeOk, Faithful, Reorganized, Around, Quiet, QuietEdge, EmptyPath, LoAt, HiAt, ValidPath, EdgeAt,
           HotAt, HotDone, EdgeIn, ProbeEdge, ReactivityOf, HotKid, HotPick, HotUpdate;
      ghost var s0 := st;
      PathShape(st, path);
      ghost var shape := EdgeAt(st.top, path);
      StepHere(Unlock(path));
      ghost var s1 := st;
      if !merged {
        UnlockKid(path, a + 1, a);
        ReorganizedTrans(s0, s1, st);
        SameOutsideTrans(s0.top, s1.top, st.top, path);
      }
      OutsidePath(s0.top, st.top, path);
      HeightKept(s0, st);
      PathShape(st, path);
      if fa.Hot? {
        if EdgeAt(st.top, path).child.kids[a].child.Leaf? {
          HotDoneKept(s0, st, hot);
        } else {
          HotAtSame(s0.top, st.top, path, a, hot);
        }
      }
      KidAt(st.top, path, a);
      if fa.Cleaner? || fa.Hot? {
        AroundKid(st.top, path, a);
      }
      PathHeight(st, path + [a]);
      ghost var s2 := st;
      Continue(path + [a], fa);
      ReorganizedTrans(s0, s2, st);
      if !fa.Cleaner? {
        KidOutside(s2.top, st.top, path, a);
        SameOutsideTrans(s0.top, s2.top, st.top, path);
      }
    }

    /** What to do with a child that is too small: the cleaner merges leaves only
        from the root, everyone else merges right here. */
    method MaybeMergeChild(path: Path, i: nat, fa: Advice)
      requires Inv() && LockedKid(path, i) && |EdgeAt(st.top, path).child.kids| > 1
      requires Drained(EdgeAt(st.top, path), EdgeAt(st.top, path).child.kids[i])
      requires TopDown(EdgeAt(st.top, path), fa) && Clear(path, fa)
      requires fa.Hot? ==> HotKid(st.top, path, i, hot)
      modifies this`st, this`hot, this`nextBn
      ensures Finished(old(st), old(hot), fa, path)
      decreases Rank(fa), Height(st.top.child) - |path|, 2
    {
      hide TreeOk, Faithful, Reorganized, Around, Quiet, QuietEdge, EmptyPath, LoAt, HiAt, ValidPath, EdgeAt,
           HotAt, HotDone, EdgeIn, ProbeEdge, ReactivityOf, HotKid, HotPick, HotUpdate;
      ghost var s0 := st;
      PathShape(st, path);
      KidShape(st, path, i);
      var n := EdgeAt(st.top, path).child;
      UnlockKid(path, i, i);
      AllQuiet(EdgeAt(st.top, path).child, i);
      ghost var s1 := st;
      OutsidePath(s0.top, s1.top, path);
      HeightKept(s0, s1);
      if fa.Cleaner? && n.kids[i].child.Leaf? {
        CleanerRestart(path, i);
      } else {
        if fa.Hot? {
          HotKidSame(s0.top, s1.top, path, i, hot);
        }
        MergeChild(path, i, fa);
      }
      ReorganizedTrans(s0, s1, st);
      if !fa.Cleaner? {
        SameOutsideTrans(s0.top, s1.top, st.top, path);
      }
    }

    /** ct_maybe_merge_child on a leaf: remembers a pivot that leads to the leaf,
        gives up all locks, and starts over from the root. */
    method CleanerRestart(path: Path, i: nat)
      requires Inv() && Locked(path) && Around(st.top, path)
      requires
        var n := EdgeAt(st.top, path).child;
        i < |n.kids| && |n.kids| > 1
      modifies this`st, this`hot, this`nextBn
      ensures Finished(old(st), old(hot), Cleaner, path)
      decreases 0, Height(st.top.child), 5
    {
      hide TreeOk, Faithful, Reorganized, Around, Quiet, QuietEdge, EmptyPath, LoAt, HiAt, ValidPath, EdgeAt,
           HotAt, HotDone, EdgeIn, ProbeEdge, ReactivityOf, HotKid, HotPick, HotUpdate;
      ghost var s0 := st;
      PathShape(st, path);
      var n := EdgeAt(st.top, path).child;
      var last := i == |n.kids| - 1;
      var target := n.pivots[if last then i - 1 else i];
      StepHere(Unlock(path));
      ghost var s1 := st;
      HeightKept(s0, s1);
      OutsidePath(s0.top, s1.top, path);
      UnlockedQuiet(st.top, path);
      RootLockable(st);
      StepHere(LockTopDown([]));
      RootLocked(s1);
      RootPath(st.top);
      ghost var s2 := st;
      HeightKept(s1, s2);
      FlushSomeChild([], CleanerMerge(target, last));
      RootPath(st.top);
      ReorganizedTrans(s0, s1, s2);
      ReorganizedTrans(s0, s2, st);
    }
  }

  lemma AllQuiet(n: Node, i: nat)
    requires OthersQuiet(n, i, i) && i < |n.kids| && n.kids[i].pin.Free? && Quiet(n.kids[i].child)
    ensures Quiet(n)
  {
  }

  lemma DrainedInflight(e: Kid, i: nat)
    requires e.child.Inner? && i < |e.child.kids| && Drained(e, e.child.kids[i])
    ensures |Inflight(e)| == 0 && |Inflight(e.child.kids[i])| == 0 && |e.child.kids[i].buf| == 0
  {
  }

  lemma PairMergeable(e: Kid, a: nat)
    requires e.child.Inner? && a + 1 < |e.child.kids| == |e.child.pivots| + 1
    requires Drained(e, e.child.kids[a]) && Drained(e, e.child.kids[a + 1])
    requires e.child.kids[a].child.Leaf? ==> e.pin.topDown
    ensures MergeEnabled(e, a) && e.child.kids[a].pin.topDown == e.pin.topDown
  {
  }

  lemma SameOutsideTrans(a: Kid, b: Kid, c: Kid, path: Path)
    requires SameOutside(a, b, path) && SameOutside(b, c, path)
    ensures SameOutside(a, c, path)
  {
    hide ValidPath, EdgeAt, ReplaceAt, Around, LoAt, HiAt, EmptyPath, AllLast, Routed;
    ReplaceTwice(a, path, EdgeAt(b, path), EdgeAt(c, path));
    ReplacedOutside(a, path, EdgeAt(c, path));
  }

  /** What happens below kid `i` happens below the edge, and if the kid ends up unlocked so
      does the whole edge. */
  lemma KidOutside(top: Kid, top': Kid, path: Path, i: nat)
    requires ValidPath(top, path) && EdgeAt(top, path).child.Inner? && i < |EdgeAt(top, path).child.kids|
    requires SameOutside(top, top', path + [i])
    ensures SameOutside(top, top', path) && EdgeAt(top', path).buf == EdgeAt(top, path).buf
    ensures EdgeAt(top, path).pin.Free? && OthersQuiet(EdgeAt(top, path).child, i, i) && QuietEdge(EdgeAt(top', path + [i])) ==>
              QuietEdge(EdgeAt(top', path))
  {
    hide ValidPath, EdgeAt, ReplaceAt, Around, LoAt, HiAt, EmptyPath, AllLast, Routed;
    var e, kid := EdgeAt(top, path), EdgeAt(top', path + [i]);
    ReplaceKid(top, path, i, kid);
    ReplacedOutside(top, path, e.(child := SetKid(e.child, i, kid)));
    KidQuiet(e, i, kid);
  }

  lemma KidQuiet(e: Kid, i: nat, kid: Kid)
    requires e.child.Inner? && i < |e.child.kids|
    ensures e.pin.Free? && OthersQuiet(e.child, i, i) && QuietEdge(kid) ==> QuietEdge(e.(child := SetKid(e.child, i, kid)))
  {
  }

  lemma UnlockedHere(e: Kid)
    requires e.pin.Free? && Quiet(e.child)
    ensures QuietEdge(e)
  {
  }

  lemma HotAtSame(top: Kid, top': Kid, path: Path, a: nat, hot: HotKeys)
    requires SameOutside(top, top', path) && ValidPath(top, path + [a]) && HotAt(top, path + [a], hot)
    requires
      var e, e' := EdgeAt(top, path), EdgeAt(top', path);
      && e'.buf == e.buf && e.child.Inner? && e'.child.Inner? && e'.child.pivots == e.child.pivots
      && |e'.child.kids| == |e.child.kids| == |e.child.pivots| + 1 && a < |e.child.kids|
      && e'.child.kids[a] == e.child.kids[a]
    ensures ValidPath(top', path + [a]) && HotAt(top', path + [a], hot)
  {
    hide EmptyPath, LoAt, HiAt, EdgeAt, ValidPath, Around;
    KidPath(top, path, a, None, None);
    KidPath(top', path, a, None, None);
  }

  lemma RootLockable(s: State)
    requires TreeOk(s) && QuietEdge(s.top)
    ensures Enabled(s, LockTopDown([]))
  {
  }

  lemma RootLocked(s: State)
    requires QuietEdge(s.top) && Enabled(s, LockTopDown([]))
    ensures
      var e := NewEdge(s, LockTopDown([]));
      e.pin == Held(s.maxMsn, true, []) && e.child == s.top.child && e.buf == s.top.buf && Quiet(e.child)
  {
  }

  lemma RootPath(top: Kid)
    ensures ValidPath(top, []) && EdgeAt(top, []) == top && Around(top, [])
    ensures LoAt(top, [], None) == None && HiAt(top, [], None) == None && (EmptyPath(top, []) <==> |top.buf| == 0)
  {
  }

  lemma Reflexive(s: State, path: Path)
    requires ValidPath(s.top, path)
    ensures Reorganized(s, s) && SameOutside(s.top, s.top, path)
  {
    ReplaceSelf(s.top, path);
  }

  lemma MergePins(e: Kid, a: nat, rm: Option<BlockNum>)
    requires MergeEnabled(e, a) && AloneKid(e, a) && AloneKid(e, a + 1) && OthersQuiet(e.child, a, a + 1)
    requires e.child.kids[a].child.Leaf? == e.child.kids[a + 1].child.Leaf?
    ensures
      var e' := MergeKids(e, a, rm);
      && e'.pin == e.pin && e'.buf == e.buf && AloneKid(e', a) && OthersQuiet(e'.child, a, a)
      && e'.child.kids[a].pin == e.child.kids[a].pin
      && e'.child.kids[a].child.Leaf? == e.child.kids[a].child.Leaf?
      && e'.child.pivots == RemoveKey(e.child.pivots, a)
      && (e.child.kids[a].child.Inner? ==> e.child.pivots[a] in e'.child.kids[a].child.pivots)
  {
  }

  lemma RebalancePins(e: Kid, a: nat, at: SplitLoc)
    requires RebalanceEnabled(e, a, at) && AloneKid(e, a) && AloneKid(e, a + 1) && OthersQuiet(e.child, a, a + 1)
    ensures
      var e' := RebalanceKids(e, a, at);
      && e'.pin == e.pin && e'.buf == e.buf && AloneKid(e', a) && AloneKid(e', a + 1)
      && OthersQuiet(e'.child, a, a + 1)
      && e'.child.kids[a].pin == e.child.kids[a].pin && e'.child.kids[a].child.Leaf?
  {
  }

  lemma KidShape(s: State, path: Path, i: nat)
    requires TreeOk(s) && ValidPath(s.top, path) && EdgeAt(s.top, path).child.Inner?
    requires i < |EdgeAt(s.top, path).child.kids|
    ensures
      var e := EdgeAt(s.top, path);
      var n := e.child.kids[i].child;
      && |e.child.kids| == |e.child.pivots| + 1
      && Height(n) == e.child.height - 1
      && (if n.Leaf? then |n.bases| > 0 else |n.kids| == |n.pivots| + 1 && n.height > 0)
  {
    hide EdgeSettled, EdgeOk;
    var h := Height(s.top.child);
    AtOk(s.top, path, None, None, h);
    KidOkShape(EdgeAt(s.top, path), i, LoAt(s.top, path, None), HiAt(s.top, path, None), h - |path|);
  }

  lemma KidOkShape(e: Kid, i: nat, lo: Option<Key>, hi: Option<Key>, h: nat)
    requires EdgeOk(e, lo, hi, h) && e.child.Inner? && i < |e.child.kids|
    ensures
      var n := e.child.kids[i].child;
      && |e.child.kids| == |e.child.pivots| + 1 && Height(n) == e.child.height - 1
      && (if n.Leaf? then |n.bases| > 0 else |n.kids| == |n.pivots| + 1 && n.height > 0)
  {
    KidOk(e, i, lo, hi, h);
  }

  lemma SplitPins(e: Kid, i: nat, at: SplitLoc, bn: BlockNum, rm: Option<BlockNum>)
    requires AloneKid(e, i) && OthersQuiet(e.child, i, i) && |e.child.kids| == |e.child.pivots| + 1
    requires CanSplit(e.child.kids[i].child, at)
    ensures
      var e' := SplitKid(e, i, at, bn, rm);
      && e'.pin == e.pin && e'.buf == e.buf && AloneKid(e', i) && AloneKid(e', i + 1)
      && OthersQuiet(e'.child, i, i + 1)
      && e'.child.pivots == InsertKey(e.child.pivots, i, SplitPivot(e.child.kids[i].child, at))
      && e'.child.kids[i].pin == e'.child.kids[i + 1].pin == e.child.kids[i].pin
  {
  }

  /** Deeper paths lead to lower nodes. */
  lemma PathHeight(s: State, path: Path)
    requires TreeOk(s) && ValidPath(s.top, path)
    ensures |path| <= Height(s.top.child)
    ensures Height(EdgeAt(s.top, path).child) == Height(s.top.child) - |path|
  {
    hide EdgeSettled, QueueOk, NodeOk;
    AtOk(s.top, path, None, None, Height(s.top.child));
  }

  lemma PathShape(s: State, path: Path)
    requires TreeOk(s) && ValidPath(s.top, path) && EdgeAt(s.top, path).child.Inner?
    ensures |path| < Height(s.top.child)
    ensures
      var n := EdgeAt(s.top, path).child;
      |n.kids| == |n.pivots| + 1 && Increasing(n.pivots) && n.height == Height(s.top.child) - |path| > 0
  {
    hide EdgeSettled, EdgeOk;
    var h := Height(s.top.child);
    AtOk(s.top, path, None, None, h);
    InnerEdge(EdgeAt(s.top, path), LoAt(s.top, path, None), HiAt(s.top, path, None), h - |path|);
  }

  lemma HeightKept(s: State, s': State)
    requires Reorganized(s, s')
    ensures Height(s'.top.child) == Height(s.top.child)
  {
  }

  lemma HotUpdateHighest(n: Node, c: nat, hot: HotKeys)
    requires n.Inner?
    ensures HotUpdate(n, c, hot).highest == hot.highest
  {
  }

  lemma UnlockedQuiet(top: Kid, path: Path)
    requires ValidPath(top, path) && Around(top, path) && EdgeAt(top, path).pin.Free? && Quiet(EdgeAt(top, path).child)
    ensures QuietEdge(top)
  {
    AroundQuiet(top, path);
  }

  lemma OutsidePath(top: Kid, top': Kid, path: Path)
    requires SameOutside(top, top', path)
    ensures ValidPath(top, path) && ValidPath(top', path) && (Around(top', path) <==> Around(top, path))
  {
  }

  lemma QuietKid(n: Node, i: nat)
    requires Quiet(n) && n.Inner? && i < |n.kids|
    ensures QuietEdge(n.kids[i]) && n.kids[i].pin.Free?
  {
  }

  lemma OthersStayQuiet(n: Node, n': Node, i: nat)
    requires Quiet(n) && n.Inner? && n'.Inner? && |n'.kids| == |n.kids|
    requires forall x :: 0 <= x < |n.kids| && x != i ==> n'.kids[x] == n.kids[x]
    ensures OthersQuiet(n', i, i)
  {
  }

  lemma InnerEdge(e: Kid, lo: Option<Key>, hi: Option<Key>, h: nat)
    requires EdgeOk(e, lo, hi, h) && e.child.Inner?
    ensures |e.child.kids| == |e.child.pivots| + 1 && PivotsOk(e.child.pivots, lo, hi) && e.child.height == h > 0
  {
  }
}
