/** toku_ft_hot_optimize: one root-to-leaf flush after the other, from left to
    right, until nothing is buffered for the keys in the given range. */
module HotOptimizer {
  import opened Keys
  import opened Messages
  import opened Nodes
  import opened Paths
  import opened Readings
  import opened Protocol
  import opened Pool
  import opened Pins
  import opened Flusher
  import opened FtTree

  ghost function Above(pool: set<Key>, bound: Option<Key>): set<Key> {
    set x | x in pool && (bound.Some? ==> bound.value < x)
  }

  lemma AboveShrinks(pool: set<Key>, bound: Option<Key>, next: Key)
    requires next in pool && (bound.Some? ==> bound.value < next)
    ensures |Above(pool, Some(next))| < |Above(pool, bound)|
  {
    var a, b := Above(pool, Some(next)), Above(pool, bound);
    assert a <= b - {next};
    Subset(a, b - {next});
  }

  lemma {:induction false} Subset<T>(a: set<T>, b: set<T>)
    requires a <= b
    ensures |a| <= |b|
  {
    if |a| > 0 {
      var x :| x in a;
      Subset(a - {x}, b - {x});
    }
  }

  /** No message is pending for the keys in (left, right]. */
  ghost predicate NonePending(s: State, left: Option<Key>, right: Option<Key>) {
    forall k: Key :: InRange(left, right, k) ==> ProbeEdge(s.top, k).pend == []
  }

  lemma NonePendingKept(s: State, s': State, left: Option<Key>, right: Option<Key>)
    requires NonePending(s, left, right) && Reorganized(s, s')
    ensures NonePending(s', left, right)
  {
    hide ProbeEdge, EdgeIn;
  }

  /** One more pass extends the flushed range. */
  lemma PassExtends(s: State, left: Option<Key>, hot: HotKeys)
    requires HotDone(s, hot)
    requires hot.highest == left || (hot.highest.Some? && NonePending(s, left, hot.highest))
    ensures NonePending(s, left, hot.maxCurrent)
  {
    hide ProbeEdge;
  }

  lemma LeafRootNonePending(s: State)
    requires TreeOk(s) && s.top.child.Leaf? && QuietEdge(s.top)
    ensures NonePending(s, None, None)
  {
    forall k: Key ensures ProbeEdge(s.top, k).pend == [] {
      LeafEdgeProbe(s.top, k);
      RelEmpty(k);
      assert s.top.buf == [];
    }
  }

  /** One traversal: lock the root, flush down to a leaf. */
  method Pass(ft: Ft)
    requires ft.Inv() && QuietEdge(ft.st.top)
    modifies ft`st, ft`hot, ft`nextBn
    ensures ft.Inv() && Reorganized(old(ft.st), ft.st) && QuietEdge(ft.st.top)
    ensures ft.hot.highest == old(ft.hot.highest) && HotDone(ft.st, ft.hot) && InPool(ft.hot, ft.pool)
  {
    hide TreeOk, Faithful, Reorganized, Around, Quiet, QuietEdge, EmptyPath, LoAt, HiAt, ValidPath, EdgeAt,
         HotDone, EdgeIn, ProbeEdge;
    ghost var s0 := ft.st;
    ft.hot := ft.hot.(maxCurrent := None);
    RootLockable(ft.st);
    ft.StepHere(LockTopDown([]));
    RootLocked(s0);
    RootPath(ft.st.top);
    RootBuffer(s0);
    ghost var s1 := ft.st;
    if ft.st.top.child.Inner? {
      ft.FlushSomeChild([], Hot);
    } else {
      ft.StepHere(Unlock([]));
      RootPath(ft.st.top);
      UnlockedQuiet(ft.st.top, []);
      LeafRootNonePending(ft.st);
      RootDone(ft.st, ft.hot);
    }
    ReorganizedTrans(s0, s1, ft.st);
  }

  lemma RootBuffer(s: State)
    requires TreeOk(s)
    ensures |s.top.buf| == 0
  {
  }

  lemma RootDone(s: State, hot: HotKeys)
    requires NonePending(s, None, None) && hot.maxCurrent.None?
    ensures HotDone(s, hot)
  {
    hide ProbeEdge;
    forall k: Key ensures ProbeEdge(s.top, k).pend == [] {
      assert InRange(None, None, k);
    }
  }

  /** Ends after at most one pass more than the tree has keys. Unless the progress
      callback stopped it, every message for a key above `left` and up to `right`
      is then in a leaf. */
  method HotOptimize(ft: Ft, left: Option<Key>, right: Option<Key>, progress: nat -> int)
      returns (r: int, loops: nat)
    requires ft.Inv() && QuietEdge(ft.st.top)
    modifies ft
    ensures ft.Inv() && Reorganized(old(ft.st), ft.st) && QuietEdge(ft.st.top)
    ensures r == 0 ==> NonePending(ft.st, left, right)
    ensures loops <= |EdgeKeys(old(ft.st.top))| + 1
  {
    hide TreeOk, Faithful, Reorganized, Quiet, QuietEdge, HotDone, EdgeIn, ProbeEdge, EdgeKeys, NonePending;
    EdgeKeysIn(ft.st.top, EdgeKeys(ft.st.top));
    ft.pool := EdgeKeys(ft.st.top);
    ghost var s0, pool := ft.st, ft.pool;
    ReorganizedSame(s0);
    ft.hot := HotKeys(left, None);
    r, loops := 0, 0;
    var rightmostSeen := false;
    Subset(Above(pool, left), pool);
    while !rightmostSeen
      invariant ft.Inv() && Reorganized(s0, ft.st) && QuietEdge(ft.st.top) && ft.pool == pool
      invariant !rightmostSeen ==> loops + |Above(pool, ft.hot.highest)| <= |pool|
      invariant rightmostSeen ==> loops <= |pool| + 1
      invariant rightmostSeen && r == 0 ==> NonePending(ft.st, left, right)
      invariant !rightmostSeen && ft.hot.highest != left ==>
                  ft.hot.highest.Some? && NonePending(ft.st, left, ft.hot.highest)
      decreases !rightmostSeen, |Above(pool, ft.hot.highest)|
    {
      ghost var before, highest := ft.st, ft.hot.highest;
      Pass(ft);
      if highest != left {
        NonePendingKept(before, ft.st, left, highest);
      }
      PassExtends(ft.st, left, ft.hot);
      ReorganizedTrans(s0, before, ft.st);
      loops := loops + 1;
      ft.hot := ft.hot.(highest := ft.hot.maxCurrent);
      if ft.hot.maxCurrent.None? {
        rightmostSeen := true;
        NonePendingPart(ft.st, left, None, right);
      } else {
        HotRises(ft.st, ft.hot.(highest := highest));
        AboveShrinks(pool, highest, ft.hot.maxCurrent.value);
        if right.Some? && ft.hot.maxCurrent.value > right.value {
          rightmostSeen := true;
          NonePendingPart(ft.st, left, ft.hot.maxCurrent, right);
        }
      }
      r := progress(loops);
      if r != 0 {
        rightmostSeen := true;
      }
    }
  }

  lemma HotRises(s: State, hot: HotKeys)
    requires HotDone(s, hot)
    ensures Rising(hot)
  {
  }

  lemma NonePendingPart(s: State, left: Option<Key>, far: Option<Key>, right: Option<Key>)
    requires NonePending(s, left, far) && (far.Some? ==> right.Some? && right.value <= far.value)
    ensures NonePending(s, left, right)
  {
    hide ProbeEdge;
    forall k: Key | InRange(left, right, k) ensures ProbeEdge(s.top, k).pend == [] {
      assert InRange(left, far, k);
    }
  }
}
