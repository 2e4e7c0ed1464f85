/** Searching the tree: toku_ft_search, down to one basement at a time, with a saved
    pivot bound between attempts. */
module Searching {
  import opened Keys
  import opened Messages
  import opened Entries
  import opened Nodes
  import opened Paths
  import opened Readings
  import opened Query
  import opened Protocol
  import opened Pool
  import opened Pins
  import opened Flusher
  import opened FtTree
  import opened HotOptimizer

  datatype Direction = LeftToRight | RightToLeft

  /** A search: `test` is the cursor's compare function, `bound` the optional key
      beyond which a search to the right need not look. */
  datatype FtSearch = FtSearch(dir: Direction, test: Key -> bool, bound: Option<Key>, leafMode: bool)

  /** Searching to the right, the test holds from some key on; searching to the
      left, up to some key. */
  ghost predicate Monotone(q: FtSearch) {
    forall x, y :: x < y ==>
      if q.dir.LeftToRight? then q.test(x) ==> q.test(y) else q.test(y) ==> q.test(x)
  }

  predicate Visible(q: FtSearch, v: Option<LeafEntry>) {
    v.Some? && (q.leafMode || !v.value.deleted)
  }

  /** `k` answers the query, given the whole history of the tree. */
  ghost predicate Hit(q: FtSearch, log: seq<Message>, k: Key) {
    q.test(k) && Visible(q, Replay(log, k))
  }

  predicate InBound(q: FtSearch, k: Key) {
    q.dir.LeftToRight? && q.bound.Some? ==> k <= q.bound.value
  }

  /** Keys that have been passed when a search has reached `x`. */
  predicate Passed(q: FtSearch, x: Key, k: Key) {
    if q.dir.LeftToRight? then k <= x else x < k
  }

  predicate Further(q: FtSearch, x: Key, y: Key) {
    if q.dir.LeftToRight? then x < y else y < x
  }

  /** No answer is among the keys passed at `x`. */
  ghost predicate NoHitUpTo(q: FtSearch, log: seq<Message>, x: Option<Key>) {
    x.Some? ==> forall k :: Passed(q, x.value, k) ==> !Hit(q, log, k)
  }

  /** No answer within the bound is among the keys passed at `x`; everything is
      passed at the end of the tree. */
  ghost predicate NoHitInBound(q: FtSearch, log: seq<Message>, x: Option<Key>) {
    forall k :: (x.Some? ==> Passed(q, x.value, k)) && InBound(q, k) ==> !Hit(q, log, k)
  }

  /** The first answer in the direction of the search. */
  ghost predicate FirstHit(q: FtSearch, log: seq<Message>, k: Key) {
    Hit(q, log, k) && forall j :: Hit(q, log, j) ==> j == k || Further(q, k, j)
  }

  // ------------------------------------------------------ the child to search

  /** toku_ft_search_which_child: a binary search with the compare function, then
      past everything that the saved bound says was searched before. */
  method SearchWhichChild(ps: seq<Key>, q: FtSearch, pb: Option<Key>) returns (c: nat)
    requires Increasing(ps) && Monotone(q)
    ensures c <= |ps|
    ensures q.dir.LeftToRight? ==>
              && (c > 0 ==> !q.test(ps[c - 1]) || (pb.Some? && ps[c - 1] <= pb.value))
              && (c < |ps| && pb.Some? ==> pb.value < ps[c])
    ensures q.dir.RightToLeft? ==>
              && (c < |ps| ==> !q.test(ps[c]) || (pb.Some? && ps[c] >= pb.value))
              && (c > 0 && pb.Some? ==> ps[c - 1] < pb.value)
  {
    var lo, hi := 0, |ps|;
    while lo < hi
      invariant 0 <= lo <= hi <= |ps|
      invariant q.dir.LeftToRight? ==> (lo > 0 ==> !q.test(ps[lo - 1])) && (hi < |ps| ==> q.test(ps[hi]))
      invariant q.dir.RightToLeft? ==> (lo > 0 ==> q.test(ps[lo - 1])) && (hi < |ps| ==> !q.test(ps[hi]))
    {
      var mi := (lo + hi) / 2;
      if q.test(ps[mi]) == q.dir.LeftToRight? {
        hi := mi;
      } else {
        lo := mi + 1;
      }
    }
    c := lo;
    if pb.Some? {
      if q.dir.LeftToRight? {
        while c < |ps| && ps[c] <= pb.value
          invariant lo <= c <= |ps|
          invariant c > lo ==> ps[c - 1] <= pb.value
        {
          c := c + 1;
        }
      } else {
        while c > 0 && ps[c - 1] >= pb.value
          invariant 0 <= c <= lo
          invariant c < lo ==> ps[c] >= pb.value
        {
          c := c - 1;
        }
      }
    }
  }

  // ------------------------------------------------------------ one basement

  ghost predicate HitEntry(q: FtSearch, e: Entry) {
    q.test(e.key) && Visible(q, Some(e.le))
  }

  /** ft_search_basement_node: the first entry that passes the test, then over
      deleted entries; every 64 of them the bound is looked at. */
  method SearchBasement(es: seq<Entry>, q: FtSearch) returns (r: Option<nat>)
    requires Sorted(es) && Monotone(q)
    ensures r.Some? ==>
              && r.value < |es| && HitEntry(q, es[r.value])
              && forall i :: 0 <= i < |es| && HitEntry(q, es[i]) ==> i == r.value || Further(q, es[r.value].key, es[i].key)
    ensures r.None? ==> forall i :: 0 <= i < |es| && HitEntry(q, es[i]) ==> !InBound(q, es[i].key)
  {
    var start := Find(es, q);
    if start.None? {
      return None;
    }
    var idx := start.value;
    if Visible(q, Some(es[idx].le)) {
      return Some(idx);
    }
    var deleted := 1;
    while true
      invariant idx < |es| && q.test(es[idx].key)
      invariant q.dir.LeftToRight? ==> forall i :: 0 <= i <= idx ==> !HitEntry(q, es[i])
      invariant q.dir.RightToLeft? ==> forall i :: idx <= i < |es| ==> !HitEntry(q, es[i])
      decreases if q.dir.LeftToRight? then |es| - idx else idx
    {
      if q.dir.LeftToRight? {
        if idx + 1 >= |es| || (deleted % 64 == 0 && !InBound(q, es[idx].key)) {
          return None;
        }
        idx := idx + 1;
      } else {
        if idx == 0 {
          return None;
        }
        idx := idx - 1;
      }
      if Visible(q, Some(es[idx].le)) {
        return Some(idx);
      }
      deleted := deleted + 1;
    }
  }

  /** The heaviside search: first (or last) entry for which the test holds. */
  method Find(es: seq<Entry>, q: FtSearch) returns (r: Option<nat>)
    requires Sorted(es) && Monotone(q)
    ensures r.None? ==> forall i :: 0 <= i < |es| ==> !q.test(es[i].key)
    ensures r.Some? ==>
              && r.value < |es| && q.test(es[r.value].key)
              && forall i :: 0 <= i < |es| && q.test(es[i].key) ==> i == r.value || Further(q, es[r.value].key, es[i].key)
  {
    var lo, hi := 0, |es|;
    while lo < hi
      invariant 0 <= lo <= hi <= |es|
      invariant forall i :: 0 <= i < lo ==> q.test(es[i].key) != q.dir.LeftToRight?
      invariant forall i :: hi <= i < |es| ==> q.test(es[i].key) == q.dir.LeftToRight?
    {
      var mi := (lo + hi) / 2;
      if q.test(es[mi].key) == q.dir.LeftToRight? {
        hi := mi;
      } else {
        lo := mi + 1;
      }
    }
    if q.dir.LeftToRight? {
      r := if lo < |es| then Some(lo) else None;
    } else {
      r := if lo > 0 then Some(lo - 1) else None;
    }
  }

  // ----------------------------------------------- bringing a basement up to date

  lemma {:induction false} AbsorbIn(es: seq<Entry>, c: nat, lo: Option<Key>, hi: Option<Key>, ms: seq<Message>, pool: set<Key>)
    requires EntriesIn(es, pool) && MessagesIn(ms, pool)
    ensures EntriesIn(Absorb(es, c, lo, hi, ms), pool)
  {
    hide ApplyToEntries;
    if |ms| > 0 {
      var r, m := Absorb(es, c, lo, hi, ms[..|ms| - 1]), ms[|ms| - 1];
      AbsorbIn(es, c, lo, hi, ms[..|ms| - 1], pool);
      AppliedIn(r, m, pool);
    }
  }

  lemma AppliedIn(es: seq<Entry>, m: Message, pool: set<Key>)
    requires EntriesIn(es, pool) && MessageIn(m, pool)
    ensures EntriesIn(ApplyToEntries(es, m), pool)
  {
    match m.scope
    case Once(k) => StoreIn(es, k, m.effect(k, Lookup(es, k)), pool);
    case All => StoreEachIn(es, m, pool);
    case Nothing =>
  }

  lemma {:induction false} CatchUpIn(b: Basement, lo: Option<Key>, hi: Option<Key>, chain: seq<Ancestor>, pool: set<Key>)
    requires BasementIn(b, pool) && forall j :: 0 <= j < |chain| ==> MessagesIn(chain[j].buf, pool)
    ensures BasementIn(CatchUp(b, lo, hi, chain), pool)
  {
    hide Absorb;
    if |chain| > 0 {
      var b1, a := CatchUp(b, lo, hi, chain[..|chain| - 1]), chain[|chain| - 1];
      CatchUpIn(b, lo, hi, chain[..|chain| - 1], pool);
      AbsorbIn(b1.entries, b1.msn, lo, hi, a.buf, pool);
    }
  }

  lemma {:induction false} ChainIn(top: Kid, path: Path, pool: set<Key>)
    requires ValidPath(top, path) && EdgeIn(top, pool)
    ensures forall j :: 0 <= j < |Chain(top, path)| ==> MessagesIn(Chain(top, path)[j].buf, pool)
    decreases path
  {
    if |path| > 0 {
      ChainIn(top.child.kids[path[0]], path[1..], pool);
      assert EdgeIn(top.child.kids[path[0]], pool);
    }
  }

  lemma QueryIn(top: Kid, path: Path, j: nat, pool: set<Key>)
    requires ValidPath(top, path) && EdgeIn(top, pool) && EdgeAt(top, path).child.Leaf?
    requires
      var n := EdgeAt(top, path).child;
      |n.bases| == |Used(n)| + 1 && j < |n.bases|
    ensures EdgeIn(QueryEdge(top, path, j), pool)
  {
    hide CatchUp, Chain;
    AtIn(top, path, pool);
    ChainIn(top, path, pool);
    var n, n' := EdgeAt(top, path).child, QueryEdge(top, path, j).child;
    forall i | 0 <= i < |n'.bases| ensures BasementIn(n'.bases[i], pool) {
      assert BasementIn(n.bases[i], pool);
      CatchUpIn(n.bases[i], LowerOf(Used(n), LoAt(top, path, None), i), UpperOf(Used(n), HiAt(top, path, None), i),
                Chain(top, path), pool);
    }
  }

  /** What waits for a key on its path is what the ancestors hold for it. */
  lemma WaitingAbove(s: State, path: Path, k: Key)
    requires ValidPath(s.top, path) && FreePath(s.top, path) && |s.top.buf| == 0
    ensures Rel(EdgeAt(s.top, path).buf, k) + Rel(AboveMsgs(s.top, path), k) == Rel(ChainMsgs(Chain(s.top, path)), k)
  {
    hide EdgeAt, AboveMsgs, Chain, ChainMsgs, Rel, FreePath, ValidPath;
    var ms := ChainMsgs(Chain(s.top, path));
    ChainIsPending(s.top, path);
    RelConcat(EdgeAt(s.top, path).buf, AboveMsgs(s.top, path), k);
    assert s.top.buf == [] && ms + [] == ms;
  }

  /** Once a basement has caught up with its ancestors, it alone holds the value
      of every key it covers. */
  lemma CaughtUpExact(s: State, path: Path, j: nat, k: Key)
    requires TreeOk(s) && Enabled(s, QueryLeafNode(path, j)) && Routed(s.top, path, k)
    requires Route(Used(EdgeAt(s.top, path).child), k) == j
    ensures
      var n' := QueryEdge(s.top, path, j).child;
      View(Exec(s, QueryLeafNode(path, j)), k) == Lookup(n'.bases[j].entries, k)
  {
    hide EdgeOk, EdgeSettled, NodeOk, CatchUp, ChainOk, ChainMsgs, Rel, ReplayNewer, Lookup, Probe, ProbeEdge,
         Chain, Routed, ReplaceAt;
    var h := Height(s.top.child);
    var e, e' := EdgeAt(s.top, path), QueryEdge(s.top, path, j);
    var lo, hi, chain := LoAt(s.top, path, None), HiAt(s.top, path, None), Chain(s.top, path);
    var n := e.child;
    AtOk(s.top, path, None, None, h);
    ChainIsOk(s.top, path, None, None, h);
    AtFree(s.top, path);
    RoutedInRange(s.top, path, None, None, k);
    LeafEdgeNode(e, lo, hi, h - |path|);
    OneBasementOk(n, lo, hi, j);
    RouteInRange(Used(n), lo, hi, k);
    CatchUpOk(n.bases[j], LowerOf(Used(n), lo, j), UpperOf(Used(n), hi, j), chain, k);
    ReplaceValid(s.top, path, e', k);
    ProbeAt(ReplaceAt(s.top, path, e'), path, k);
    QueryProbe(e, e', j, k);
    WaitingAbove(s, path, k);
    ChainMsgsAtMost(chain, e'.child.bases[j].msn);
    ReplayNewerRel(ChainMsgs(chain), e'.child.bases[j].msn, k, Lookup(e'.child.bases[j].entries, k));
    ReplayNewerNone(ChainMsgs(chain), e'.child.bases[j].msn, k, Lookup(e'.child.bases[j].entries, k));
  }

  lemma OneBasementOk(n: Node, lo: Option<Key>, hi: Option<Key>, j: nat)
    requires n.Leaf? && NodeOk(n, lo, hi) && j < |n.bases|
    ensures j <= |Used(n)| && BasementOk(n, n.bases[j], LowerOf(Used(n), lo, j), UpperOf(Used(n), hi, j))
  {
  }

  lemma QueryProbe(e: Kid, e': Kid, j: nat, k: Key)
    requires e.child.Leaf? && e'.child.Leaf? && e'.buf == e.buf && e'.pin == e.pin && e.pin.Free?
    requires Used(e'.child) == Used(e.child) && Route(Used(e.child), k) == j < |e'.child.bases|
    ensures ProbeEdge(e', k).val == Lookup(e'.child.bases[j].entries, k)
    ensures ProbeEdge(e', k).msn == e'.child.bases[j].msn
    ensures ProbeEdge(e', k).pend == Rel(e.buf, k)
  {
  }

  lemma QueryBasementOk(s: State, path: Path, j: nat)
    requires TreeOk(s) && Enabled(s, QueryLeafNode(path, j))
    ensures
      var n, n' := EdgeAt(s.top, path).child, QueryEdge(s.top, path, j).child;
      var lo, hi := LoAt(s.top, path, None), HiAt(s.top, path, None);
      && Used(n') == Used(n) && |n'.bases| == |n.bases|
      && Sorted(n'.bases[j].entries) && Within(n'.bases[j].entries, LowerOf(Used(n), lo, j), UpperOf(Used(n), hi, j))
  {
    hide EdgeOk, EdgeSettled, CatchUp, ChainOk, Chain;
    var h := Height(s.top.child);
    var e, e' := EdgeAt(s.top, path), QueryEdge(s.top, path, j);
    var lo, hi, chain := LoAt(s.top, path, None), HiAt(s.top, path, None), Chain(s.top, path);
    AtOk(s.top, path, None, None, h);
    RangeNonempty(s.top, path, None, None, h);
    ChainIsOk(s.top, path, None, None, h);
    LeafEdgeNode(e, lo, hi, h - |path|);
    QueryLeafOk(e.child, lo, hi, chain, j);
    assert BasementOk(e'.child, e'.child.bases[j], LowerOf(Used(e.child), lo, j), UpperOf(Used(e.child), hi, j));
  }

  lemma LeafQuiet(e: Kid, e': Kid)
    requires QuietEdge(e) && e'.child.Leaf? && e'.pin == e.pin
    ensures QuietEdge(e')
  {
  }

  /** `es` is all that a reader can see among the keys in (lo, hi]. */
  ghost predicate Shows(es: seq<Entry>, log: seq<Message>, lo: Option<Key>, hi: Option<Key>) {
    && Sorted(es) && Within(es, lo, hi)
    && forall k :: InRange(lo, hi, k) ==> Replay(log, k) == Lookup(es, k)
  }

  /** toku_pin_ftnode_for_query on a leaf: the basement that will be searched is
      brought up to date. */
  method PinForQuery(ft: Ft, path: Path, j: nat) returns (es: seq<Entry>)
    requires ft.Inv() && QuietEdge(ft.st.top) && ValidPath(ft.st.top, path) && EdgeAt(ft.st.top, path).child.Leaf?
    requires j < |EdgeAt(ft.st.top, path).child.bases|
    modifies ft`st
    ensures ft.Inv() && QuietEdge(ft.st.top) && ft.st.log == old(ft.st.log)
    ensures Height(ft.st.top.child) == old(Height(ft.st.top.child))
    ensures
      var n := EdgeAt(old(ft.st.top), path).child;
      var lo, hi := LoAt(old(ft.st.top), path, None), HiAt(old(ft.st.top), path, None);
      j <= |Used(n)| && Shows(es, ft.st.log, LowerOf(Used(n), lo, j), UpperOf(Used(n), hi, j))
  {
    hide TreeOk, Faithful, QuietEdge, Around, EdgeIn, ProbeEdge, Probe, ValidPath, LoAt, HiAt, EdgeAt,
         QueryEdge, Lookup, Routed, ReplaceAt;
    ghost var s0 := ft.st;
    var step := QueryLeafNode(path, j);
    LeafAtShape(ft.st, path);
    QuietAround(ft.st.top, path);
    StepSafe(ft.st, step);
    QueryBasementOk(ft.st, path, j);
    QueryIn(ft.st.top, path, j, ft.pool);
    ReplaceIn(ft.st.top, path, QueryEdge(ft.st.top, path, j), ft.pool);
    ReplacedOutside(ft.st.top, path, QueryEdge(ft.st.top, path, j));
    QueryEdgeShape(ft.st.top, path, j);
    ft.st := Exec(ft.st, step);
    LeafQuiet(EdgeAt(s0.top, path), EdgeAt(ft.st.top, path));
    AroundQuiet(ft.st.top, path);
    SameTopHeight(s0.top, path, j);
    es := EdgeAt(ft.st.top, path).child.bases[j].entries;
    ghost var n := EdgeAt(s0.top, path).child;
    ghost var lo, hi := LowerOf(Used(n), LoAt(s0.top, path, None), j), UpperOf(Used(n), HiAt(s0.top, path, None), j);
    forall k | InRange(lo, hi, k) ensures Replay(ft.st.log, k) == Lookup(es, k) {
      KeyInBasement(s0, path, j, k);
      CaughtUpExact(s0, path, j, k);
      ViewIsReplay(ft.st, k);
    }
  }

  lemma ViewIsReplay(s: State, k: Key)
    requires Faithful(s)
    ensures View(s, k) == Replay(s.log, k)
  {
  }

  lemma LeafAtShape(s: State, path: Path)
    requires TreeOk(s) && ValidPath(s.top, path) && EdgeAt(s.top, path).child.Leaf?
    ensures
      var n := EdgeAt(s.top, path).child;
      |n.bases| == |Used(n)| + 1 && Increasing(Used(n))
  {
    hide EdgeOk, EdgeSettled;
    var h := Height(s.top.child);
    AtOk(s.top, path, None, None, h);
    LeafEdgeNode(EdgeAt(s.top, path), LoAt(s.top, path, None), HiAt(s.top, path, None), h - |path|);
  }

  lemma QueryEdgeShape(top: Kid, path: Path, j: nat)
    requires ValidPath(top, path) && EdgeAt(top, path).child.Leaf?
    requires
      var n := EdgeAt(top, path).child;
      |n.bases| == |Used(n)| + 1 && j < |n.bases|
    ensures QueryEdge(top, path, j).child.Leaf? && QueryEdge(top, path, j).pin == EdgeAt(top, path).pin
  {
  }

  lemma SameTopHeight(top: Kid, path: Path, j: nat)
    requires ValidPath(top, path) && EdgeAt(top, path).child.Leaf?
    requires
      var n := EdgeAt(top, path).child;
      |n.bases| == |Used(n)| + 1 && j < |n.bases|
    ensures Height(ReplaceAt(top, path, QueryEdge(top, path, j)).child) == Height(top.child)
  {
  }

  lemma KeyInBasement(s: State, path: Path, j: nat, k: Key)
    requires TreeOk(s) && ValidPath(s.top, path) && EdgeAt(s.top, path).child.Leaf?
    requires
      var n := EdgeAt(s.top, path).child;
      && j <= |Used(n)|
      && InRange(LowerOf(Used(n), LoAt(s.top, path, None), j), UpperOf(Used(n), HiAt(s.top, path, None), j), k)
    ensures Routed(s.top, path, k) && Route(Used(EdgeAt(s.top, path).child), k) == j
  {
    hide EdgeOk, EdgeSettled;
    var n, h := EdgeAt(s.top, path).child, Height(s.top.child);
    var lo, hi := LoAt(s.top, path, None), HiAt(s.top, path, None);
    AtOk(s.top, path, None, None, h);
    LeafEdgeNode(EdgeAt(s.top, path), lo, hi, h - |path|);
    RouteUnique(Used(n), lo, hi, k, j);
    ChildRange(Used(n), lo, hi, k, j);
    InRangeRouted(s.top, path, None, None, h, k);
  }

  // ------------------------------------------------------------- the descent

  datatype Outcome = Found(key: Key, le: LeafEntry) | NotFound | TryAgain

  /** The bound a search enters a range from, and the one it leaves it by. */
  function Near(q: FtSearch, lo: Option<Key>, hi: Option<Key>): Option<Key> {
    if q.dir.LeftToRight? then lo else hi
  }

  function Far(q: FtSearch, lo: Option<Key>, hi: Option<Key>): Option<Key> {
    if q.dir.LeftToRight? then hi else lo
  }

  /** The saved bound does not cover the whole range. */
  predicate Short(q: FtSearch, pb: Option<Key>, far: Option<Key>) {
    pb.Some? && far.Some? ==> Further(q, pb.value, far.value)
  }

  /** The chosen child leaves out only keys that cannot answer the query. */
  lemma ChildNear(ps: seq<Key>, lo: Option<Key>, hi: Option<Key>, q: FtSearch, log: seq<Message>, pb: Option<Key>, c: nat)
    requires c <= |ps| && Monotone(q) && NoHitUpTo(q, log, Near(q, lo, hi)) && NoHitUpTo(q, log, pb)
    requires q.dir.LeftToRight? && c > 0 ==> !q.test(ps[c - 1]) || (pb.Some? && ps[c - 1] <= pb.value)
    requires q.dir.RightToLeft? && c < |ps| ==> !q.test(ps[c]) || (pb.Some? && ps[c] >= pb.value)
    ensures NoHitUpTo(q, log, Near(q, LowerOf(ps, lo, c), UpperOf(ps, hi, c)))
  {
  }

  /** An answer found in a basement is the first one overall. */
  lemma FoundFirst(es: seq<Entry>, i: nat, lo: Option<Key>, hi: Option<Key>, q: FtSearch, log: seq<Message>)
    requires Shows(es, log, lo, hi) && NoHitUpTo(q, log, Near(q, lo, hi)) && i < |es| && HitEntry(q, es[i])
    requires forall x :: 0 <= x < |es| && HitEntry(q, es[x]) ==> x == i || Further(q, es[i].key, es[x].key)
    ensures FirstHit(q, log, es[i].key) && Replay(log, es[i].key) == Some(es[i].le)
  {
    hide Replay, Lookup;
    LookupAt(es, i);
    forall k | Hit(q, log, k) ensures k == es[i].key || Further(q, es[i].key, k) {
      if InRange(lo, hi, k) {
        LookupEntry(es, k);
      }
    }
  }

  lemma LookupEntry(es: seq<Entry>, k: Key)
    requires Lookup(es, k).Some?
    ensures exists x :: 0 <= x < |es| && es[x].key == k && Lookup(es, k) == Some(es[x].le)
  {
  }

  /** A basement without an answer extends what has been searched in vain. */
  lemma NoneInBasement(es: seq<Entry>, lo: Option<Key>, hi: Option<Key>, q: FtSearch, log: seq<Message>)
    requires Shows(es, log, lo, hi) && NoHitUpTo(q, log, Near(q, lo, hi))
    requires forall x :: 0 <= x < |es| && HitEntry(q, es[x]) ==> !InBound(q, es[x].key)
    ensures NoHitInBound(q, log, Far(q, lo, hi))
  {
  }

  /** What one level of the search says after its child had no answer:
      maybe_search_save_bound and search_try_again. */
  method AfterNotFound(ps: seq<Key>, c: nat, ghost lo: Option<Key>, ghost hi: Option<Key>, q: FtSearch, pb: Option<Key>,
                       ghost log: seq<Message>) returns (r: Outcome, pb': Option<Key>)
    requires c <= |ps| && NoHitInBound(q, log, Far(q, LowerOf(ps, lo, c), UpperOf(ps, hi, c)))
    ensures r.NotFound? || r.TryAgain?
    ensures r.NotFound? ==> NoHitInBound(q, log, Far(q, lo, hi))
    ensures r.TryAgain? ==>
              && pb'.Some? && NoHitUpTo(q, log, pb')
              && (if q.dir.LeftToRight? then c < |ps| && pb'.value == ps[c] else c > 0 && pb'.value == ps[c - 1])
  {
    hide Hit;
    pb' := pb;
    if q.dir.LeftToRight? && c < |ps| {
      pb' := Some(ps[c]);
      r := if q.bound.Some? && q.bound.value <= ps[c] then NotFound else TryAgain;
    } else if q.dir.RightToLeft? && c > 0 {
      pb' := Some(ps[c - 1]);
      r := TryAgain;
    } else {
      r := NotFound;
    }
  }

  lemma PivotsInPool(s: State, path: Path, pool: set<Key>)
    requires ValidPath(s.top, path) && EdgeIn(s.top, pool)
    ensures PivotsIn(EdgeAt(s.top, path).child.pivots, pool)
  {
    AtIn(s.top, path, pool);
  }

  /** ft_search_node and ft_search_child: one path down the tree. */
  method SearchNode(ft: Ft, path: Path, q: FtSearch, pb: Option<Key>) returns (r: Outcome, pb': Option<Key>)
    requires ft.Inv() && QuietEdge(ft.st.top) && ValidPath(ft.st.top, path) && Monotone(q)
    requires NoHitUpTo(q, ft.st.log, pb)
    requires
      var lo, hi := LoAt(ft.st.top, path, None), HiAt(ft.st.top, path, None);
      NoHitUpTo(q, ft.st.log, Near(q, lo, hi)) && Short(q, pb, Far(q, lo, hi))
    modifies ft`st
    ensures ft.Inv() && QuietEdge(ft.st.top) && ft.st.log == old(ft.st.log)
    ensures r.Found? ==> FirstHit(q, ft.st.log, r.key) && Replay(ft.st.log, r.key) == Some(r.le)
    ensures r.NotFound? ==>
              NoHitInBound(q, ft.st.log, Far(q, old(LoAt(ft.st.top, path, None)), old(HiAt(ft.st.top, path, None))))
    ensures r.TryAgain? ==>
              && pb'.Some? && NoHitUpTo(q, ft.st.log, pb') && pb'.value in ft.pool
              && (pb.Some? ==> Further(q, pb.value, pb'.value))
    decreases Height(ft.st.top.child) - |path|
  {
    hide TreeOk, Faithful, QuietEdge, EdgeIn, ValidPath, LoAt, HiAt, EdgeAt, Lookup, Hit, NoHitUpTo,
         NoHitInBound, FirstHit, Monotone, Replay, Shows, HitEntry;
    var n := EdgeAt(ft.st.top, path).child;
    ghost var lo, hi, log := LoAt(ft.st.top, path, None), HiAt(ft.st.top, path, None), ft.st.log;
    PathHeight(ft.st, path);
    PivotsInPool(ft.st, path, ft.pool);
    var ps := if n.Leaf? then Used(n) else n.pivots;
    if n.Leaf? {
      LeafAtShape(ft.st, path);
    } else {
      PathShape(ft.st, path);
    }
    var c := SearchWhichChild(ps, q, pb);
    ChildNear(ps, lo, hi, q, log, pb, c);
    if n.Leaf? {
      var es := PinForQuery(ft, path, c);
      var i := SearchHere(es, q, LowerOf(ps, lo, c), UpperOf(ps, hi, c), log);
      if i.Some? {
        return Found(es[i.value].key, es[i.value].le), pb;
      }
    } else {
      KidPath(ft.st.top, path, c, None, None);
      PathHeight(ft.st, path + [c]);
      r, pb' := SearchNode(ft, path + [c], q, pb);
      if !r.NotFound? {
        return;
      }
    }
    r, pb' := AfterNotFound(ps, c, lo, hi, q, pb, log);
  }

  /** Searches an up-to-date basement. */
  method SearchHere(es: seq<Entry>, q: FtSearch, ghost lo: Option<Key>, ghost hi: Option<Key>, ghost log: seq<Message>)
      returns (r: Option<nat>)
    requires Shows(es, log, lo, hi) && Monotone(q) && NoHitUpTo(q, log, Near(q, lo, hi))
    ensures r.Some? ==> r.value < |es| && FirstHit(q, log, es[r.value].key) && Replay(log, es[r.value].key) == Some(es[r.value].le)
    ensures r.None? ==> NoHitInBound(q, log, Far(q, lo, hi))
  {
    hide Replay, Lookup, Hit, NoHitUpTo, NoHitInBound, FirstHit;
    r := SearchBasement(es, q);
    if r.Some? {
      FoundFirst(es, r.value, lo, hi, q, log);
    } else {
      NoneInBasement(es, lo, hi, q, log);
    }
  }

  ghost function Rest(q: FtSearch, pool: set<Key>, pb: Option<Key>): set<Key> {
    set x | x in pool && (pb.Some? ==> Further(q, pb.value, x))
  }

  lemma RestShrinks(q: FtSearch, pool: set<Key>, pb: Option<Key>, next: Key)
    requires next in pool && (pb.Some? ==> Further(q, pb.value, next))
    ensures |Rest(q, pool, Some(next))| < |Rest(q, pool, pb)|
  {
    var a, b := Rest(q, pool, Some(next)), Rest(q, pool, pb);
    assert a <= b - {next};
    Subset(a, b - {next});
  }

  /** toku_ft_search: retries with the saved bound until an attempt ends. The answer
      is the first key, in the direction of the search, that passes the test and
      that a reader can see; without one, no such key lies within the bound. */
  method FtSearchAll(ft: Ft, q: FtSearch) returns (r: Outcome, tries: nat)
    requires ft.Inv() && QuietEdge(ft.st.top) && Monotone(q)
    modifies ft`st
    ensures ft.Inv() && QuietEdge(ft.st.top) && ft.st.log == old(ft.st.log)
    ensures r.Found? ==> FirstHit(q, ft.st.log, r.key) && View(ft.st, r.key) == Some(r.le)
    ensures !r.Found? ==> r.NotFound? && forall k :: InBound(q, k) ==> !Hit(q, ft.st.log, k)
    ensures 0 < tries <= |ft.pool| + 1
  {
    hide TreeOk, Faithful, QuietEdge, EdgeIn, EdgeAt, Hit, FirstHit, Monotone, Replay, View, Rest;
    var pb: Option<Key> := None;
    tries := 0;
    RestAll(q, ft.pool);
    while true
      invariant ft.Inv() && QuietEdge(ft.st.top) && ft.st.log == old(ft.st.log)
      invariant NoHitUpTo(q, ft.st.log, pb)
      invariant tries + |Rest(q, ft.pool, pb)| <= |ft.pool|
      decreases |Rest(q, ft.pool, pb)|
    {
      RootPath(ft.st.top);
      ghost var before := pb;
      r, pb := SearchNode(ft, [], q, pb);
      tries := tries + 1;
      if !r.TryAgain? {
        if r.Found? {
          ViewIsReplay(ft.st, r.key);
        }
        return;
      }
      RestShrinks(q, ft.pool, before, pb.value);
    }
  }

  lemma RestAll(q: FtSearch, pool: set<Key>)
    ensures |Rest(q, pool, None)| == |pool|
  {
    assert Rest(q, pool, None) == pool;
  }

  // ------------------------------------------------- the cursor's compare functions

  /** toku_ft_cursor_compare_one, ft_cursor_compare_set and _set_range, _next, _prev
      and _set_range_reverse. */
  datatype Compare = One | SetRange(k: Key) | Next(k: Key) | Prev(k: Key) | SetRangeReverse(k: Key)

  function Test(c: Compare, x: Key): bool {
    match c
    case One => true
    case SetRange(k) => k <= x
    case Next(k) => k < x
    case Prev(k) => k > x
    case SetRangeReverse(k) => k >= x
  }

  predicate Backwards(c: Compare) {
    c.Prev? || c.SetRangeReverse?
  }

  /** Every cursor operation searches in a direction that its compare function is
      monotone in; first and last both use the constant one. */
  lemma CursorSearchesMonotone(c: Compare, dir: Direction, bound: Option<Key>, leafMode: bool)
    requires c.One? || dir == (if Backwards(c) then RightToLeft else LeftToRight)
    ensures Monotone(FtSearch(dir, x => Test(c, x), bound, leafMode))
  {
  }

  // -------------------------------------------------------------- bulk fetch

  /** Entry `y` is the next visible one after entry `x`, in the direction of `q`. */
  ghost predicate NextVisible(es: seq<Entry>, q: FtSearch, x: nat, y: nat)
    requires x < |es| && y < |es|
  {
    && Further(q, es[x].key, es[y].key) && Visible(q, Some(es[y].le))
    && forall i :: 0 <= i < |es| && Further(q, es[x].key, es[i].key) && Further(q, es[i].key, es[y].key) ==>
         !Visible(q, Some(es[i].le))
  }

  /** Each fetched entry follows the one before it, the first one entry `idx`. */
  ghost predicate Chained(es: seq<Entry>, q: FtSearch, idx: nat, out: seq<nat>)
    requires idx < |es|
    decreases |out|
  {
    |out| > 0 ==>
      var init, y := out[..|out| - 1], out[|out| - 1];
      var x := LastOf(idx, init);
      Chained(es, q, idx, init) && x < |es| && y < |es| && NextVisible(es, q, x, y)
  }

  function LastOf(idx: nat, out: seq<nat>): nat {
    if |out| == 0 then idx else out[|out| - 1]
  }

  /** Nothing visible lies between entries `x` and `y`, nor at `y`. */
  ghost predicate NothingTo(es: seq<Entry>, q: FtSearch, x: nat, y: nat) {
    forall i :: 0 <= i < |es| && (if q.dir.LeftToRight? then x < i <= y else y <= i < x) ==> !Visible(q, Some(es[i].le))
  }

  lemma StepVisible(es: seq<Entry>, q: FtSearch, x: nat, y: nat, z: nat)
    requires Sorted(es) && x < |es| && z < |es| && Visible(q, Some(es[z].le)) && NothingTo(es, q, x, y)
    requires if q.dir.LeftToRight? then x <= y && z == y + 1 else y <= x && z + 1 == y
    ensures NextVisible(es, q, x, z)
  {
  }

  /** Why a bulk fetch stops: nothing visible is left in the basement, the next visible
      entry is out of range, or the callback has enough. */
  ghost predicate Stops(es: seq<Entry>, q: FtSearch, idx: nat, out: seq<nat>, more: nat -> bool, inRange: Key -> bool)
    requires LastOf(idx, out) < |es|
  {
    || NothingTo(es, q, LastOf(idx, out), if q.dir.LeftToRight? then |es| - 1 else 0)
    || (exists y: nat :: y < |es| && NextVisible(es, q, LastOf(idx, out), y) && !inRange(es[y].key))
    || (|out| > 0 && !more(|out|))
  }

  /** toku_ft_cursor_shortcut: goes on through the basement of the entry just found,
      as long as there are entries, the callback wants more and keys are in the cursor's range. */
  method CursorShortcut(es: seq<Entry>, idx: nat, q: FtSearch, more: nat -> bool, inRange: Key -> bool)
      returns (out: seq<nat>)
    requires idx < |es| && Sorted(es)
    ensures Chained(es, q, idx, out)
    ensures forall i :: 0 <= i < |out| ==> out[i] < |es| && inRange(es[out[i]].key)
    ensures forall i :: 0 < i < |out| ==> more(i)
    ensures LastOf(idx, out) < |es| && Stops(es, q, idx, out, more, inRange)
  {
    hide NextVisible, Visible, Sorted, NothingTo;
    out := [];
    var index := idx;
    var limit := if q.dir.LeftToRight? then |es| - 1 else 0;
    NothingYet(es, q, idx);
    while index != limit
      invariant 0 <= index < |es| && LastOf(idx, out) < |es|
      invariant if q.dir.LeftToRight? then LastOf(idx, out) <= index else index <= LastOf(idx, out)
      invariant NothingTo(es, q, LastOf(idx, out), index)
      invariant Chained(es, q, idx, out)
      invariant forall i :: 0 <= i < |out| ==> out[i] < |es| && inRange(es[out[i]].key)
      invariant forall i :: 0 < i <= |out| ==> more(i)
      decreases if q.dir.LeftToRight? then |es| - index else index
    {
      var before := index;
      index := if q.dir.LeftToRight? then index + 1 else index - 1;
      if Visible(q, Some(es[index].le)) {
        StepVisible(es, q, LastOf(idx, out), before, index);
        if !inRange(es[index].key) {
          return;
        }
        ghost var was := out;
        out := out + [index];
        assert out[..|out| - 1] == was;
        NothingYet(es, q, index);
        if !more(|out|) {
          return;
        }
      } else {
        NothingStill(es, q, LastOf(idx, out), before, index);
      }
    }
  }

  lemma NothingYet(es: seq<Entry>, q: FtSearch, x: nat)
    ensures NothingTo(es, q, x, x)
  {
  }

  lemma NothingStill(es: seq<Entry>, q: FtSearch, x: nat, y: nat, z: nat)
    requires NothingTo(es, q, x, y) && z < |es| && !Visible(q, Some(es[z].le))
    requires if q.dir.LeftToRight? then z == y + 1 else z + 1 == y
    ensures NothingTo(es, q, x, z)
  {
  }

  /** What a bulk fetch delivers is what repeated single searches would find. */
  lemma BulkFetchIsRepeatedSearch(es: seq<Entry>, x: nat, y: nat, q: FtSearch, lo: Option<Key>, hi: Option<Key>, log: seq<Message>)
    requires Shows(es, log, lo, hi) && x < |es| && y < |es| && NextVisible(es, q, x, y)
    ensures FirstHit(q.(test := k => Further(q, es[x].key, k)), log, es[y].key)
    ensures Replay(log, es[y].key) == Some(es[y].le)
  {
    hide Replay, Lookup;
    var next := q.(test := k => Further(q, es[x].key, k));
    LookupAt(es, y);
    forall k | Hit(next, log, k) ensures k == es[y].key || Further(next, es[y].key, k) {
      if Further(q, k, es[y].key) {
        assert InRange(lo, hi, es[x].key) && InRange(lo, hi, es[y].key) && InRange(lo, hi, k);
        LookupEntry(es, k);
      }
    }
  }
}
