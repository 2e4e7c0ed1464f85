/** Bringing a leaf up to date for a query: the messages of all ancestors are
    applied to the basement in memory, and stay where they are. */
module Query {
  import opened Keys
  import opened Messages
  import opened Entries
  import opened Nodes
  import opened PutMsg
  import opened Paths
  import opened Readings

  /** One ancestor on the way up from a leaf: its MSN and the buffer on the path. */
  datatype Ancestor = Ancestor(maxMsn: nat, buf: seq<Message>)

  /** A message is in the tree range or the broadcast list the basement looks at. */
  predicate Concerns(m: Message, lo: Option<Key>, hi: Option<Key>) {
    m.scope.All? || (m.scope.Once? && InRange(lo, hi, m.scope.key))
  }

  /** bnc_apply_messages_to_basement_node, in MSN order. */
  function Absorb(es: seq<Entry>, c: nat, lo: Option<Key>, hi: Option<Key>, ms: seq<Message>): seq<Entry> {
    if |ms| == 0 then es
    else
      var m := ms[|ms| - 1];
      var r := Absorb(es, c, lo, hi, ms[..|ms| - 1]);
      if m.msn > c && Concerns(m, lo, hi) then ApplyToEntries(r, m) else r
  }

  /** apply_ancestors_messages_to_bn: nearest ancestor first; an ancestor whose
      MSN the basement has reached is skipped. */
  function CatchUp(b: Basement, lo: Option<Key>, hi: Option<Key>, chain: seq<Ancestor>): Basement {
    if |chain| == 0 then b
    else CatchUpOne(CatchUp(b, lo, hi, chain[..|chain| - 1]), lo, hi, chain[|chain| - 1])
  }

  /** One more ancestor. */
  function CatchUpOne(b: Basement, lo: Option<Key>, hi: Option<Key>, a: Ancestor): Basement {
    if a.maxMsn > b.msn then b.(entries := Absorb(b.entries, b.msn, lo, hi, a.buf), msn := a.maxMsn) else b
  }

  function ChainMsgs(chain: seq<Ancestor>): seq<Message> {
    if |chain| == 0 then [] else ChainMsgs(chain[..|chain| - 1]) + chain[|chain| - 1].buf
  }

  /** Ancestors hold no message above their MSN, and newer messages than any
      ancestor below them. */
  ghost predicate ChainOk(chain: seq<Ancestor>) {
    && (forall j, x :: 0 <= j < |chain| && 0 <= x < |chain[j].buf| ==> chain[j].buf[x].msn <= chain[j].maxMsn)
    && (forall i, j, x :: 0 <= i < j < |chain| && 0 <= x < |chain[j].buf| ==> chain[i].maxMsn < chain[j].buf[x].msn)
  }

  lemma {:induction false} AbsorbOk(es: seq<Entry>, c: nat, lo: Option<Key>, hi: Option<Key>, ms: seq<Message>, k: Key)
    requires Sorted(es) && Within(es, lo, hi) && InRange(lo, hi, k)
    ensures Sorted(Absorb(es, c, lo, hi, ms)) && Within(Absorb(es, c, lo, hi, ms), lo, hi)
    ensures Lookup(Absorb(es, c, lo, hi, ms), k) == ReplayNewer(ms, c, k, Lookup(es, k))
  {
    hide Lookup, Sorted, Within, ApplyToEntries;
    if |ms| > 0 {
      AbsorbOk(es, c, lo, hi, ms[..|ms| - 1], k);
      var m := ms[|ms| - 1];
      if Concerns(m, lo, hi) {
        ApplyToEntriesOk(Absorb(es, c, lo, hi, ms[..|ms| - 1]), m, lo, hi, k);
      }
    }
  }

  /** `b'` has caught up with the first ancestors, whose messages are `ms`. */
  ghost predicate CaughtUp(b: Basement, b': Basement, chain: seq<Ancestor>, k: Key) {
    && b.msn <= b'.msn && b'.disk == b.disk
    && (forall j :: 0 <= j < |chain| ==> chain[j].maxMsn <= b'.msn)
    && (b'.msn == b.msn || exists j :: 0 <= j < |chain| && chain[j].maxMsn == b'.msn)
    && Lookup(b'.entries, k) == ReplayNewer(ChainMsgs(chain), b.msn, k, Lookup(b.entries, k))
  }

  lemma CatchUpStep(b: Basement, b1: Basement, lo: Option<Key>, hi: Option<Key>, init: seq<Ancestor>, a: Ancestor, k: Key)
    requires ChainOk(init + [a]) && Sorted(b1.entries) && Within(b1.entries, lo, hi) && InRange(lo, hi, k)
    requires CaughtUp(b, b1, init, k)
    ensures
      var b' := CatchUpOne(b1, lo, hi, a);
      Sorted(b'.entries) && Within(b'.entries, lo, hi) && CaughtUp(b, b', init + [a], k)
  {
    hide Lookup, Sorted, Within, Absorb, ReplayNewer, ChainOk;
    var chain, v := init + [a], Lookup(b.entries, k);
    assert chain[..|init|] == init && chain[|init|] == a;
    assert forall j :: 0 <= j < |init| ==> chain[j] == init[j];
    AncestorThreshold(b, b1, init, a);
    ReplayNewerConcat(ChainMsgs(init), a.buf, b.msn, k, v);
    if a.maxMsn > b1.msn {
      AbsorbOk(b1.entries, b1.msn, lo, hi, a.buf, k);
      ReplayNewerSameThreshold(a.buf, b.msn, b1.msn, k, Lookup(b1.entries, k));
    } else {
      ReplayNewerNone(a.buf, b.msn, k, Lookup(b1.entries, k));
    }
  }

  lemma ChainPrefix(chain: seq<Ancestor>)
    requires ChainOk(chain) && |chain| > 0
    ensures ChainOk(chain[..|chain| - 1])
  {
  }

  /** Catching up applies to every key exactly the ancestors' messages that are
      newer than the basement, once and in order. */
  lemma {:induction false} CatchUpOk(b: Basement, lo: Option<Key>, hi: Option<Key>, chain: seq<Ancestor>, k: Key)
    requires ChainOk(chain) && Sorted(b.entries) && Within(b.entries, lo, hi) && InRange(lo, hi, k)
    ensures
      var b' := CatchUp(b, lo, hi, chain);
      Sorted(b'.entries) && Within(b'.entries, lo, hi) && CaughtUp(b, b', chain, k)
  {
    hide Lookup, Sorted, Within, Absorb, ReplayNewer, ChainOk;
    if |chain| == 0 {
      ReplayNewerNone([], b.msn, k, Lookup(b.entries, k));
    } else {
      var init, a := chain[..|chain| - 1], chain[|chain| - 1];
      ChainPrefix(chain);
      CatchUpOk(b, lo, hi, init, k);
      assert chain == init + [a];
      CatchUpStep(b, CatchUp(b, lo, hi, init), lo, hi, init, a, k);
    }
  }

  /** Among one ancestor's messages, those newer than the basement caught up so
      far are those newer than the original basement. */
  lemma AncestorThreshold(b: Basement, b1: Basement, init: seq<Ancestor>, a: Ancestor)
    requires ChainOk(init + [a])
    requires b.msn <= b1.msn
    requires b1.msn == b.msn || exists j :: 0 <= j < |init| && init[j].maxMsn == b1.msn
    ensures forall x :: 0 <= x < |a.buf| ==> (b.msn < a.buf[x].msn <==> b1.msn < a.buf[x].msn)
    ensures a.maxMsn <= b1.msn ==> forall x :: 0 <= x < |a.buf| ==> a.buf[x].msn <= b.msn
  {
    var chain := init + [a];
    assert chain[|init|] == a && forall j :: 0 <= j < |init| ==> chain[j] == init[j];
    if b1.msn != b.msn {
      var j :| 0 <= j < |init| && init[j].maxMsn == b1.msn;
      assert forall x :: 0 <= x < |a.buf| ==> chain[j].maxMsn < chain[|init|].buf[x].msn;
    }
    assert forall x :: 0 <= x < |a.buf| ==> chain[|init|].buf[x].msn <= chain[|init|].maxMsn;
  }

  lemma {:induction false} ChainMsgsAtMost(chain: seq<Ancestor>, c: nat)
    requires ChainOk(chain) && forall j :: 0 <= j < |chain| ==> chain[j].maxMsn <= c
    ensures forall x :: 0 <= x < |ChainMsgs(chain)| ==> ChainMsgs(chain)[x].msn <= c
  {
    if |chain| > 0 {
      var init, a := chain[..|chain| - 1], chain[|chain| - 1];
      assert forall j :: 0 <= j < |init| ==> init[j] == chain[j];
      ChainMsgsAtMost(init, c);
      assert a == chain[|chain| - 1] && forall x :: 0 <= x < |a.buf| ==> a.buf[x].msn <= c;
    }
  }

  // ------------------------------------------ the check that avoids the work

  /** bn_needs_ancestors_messages. */
  predicate Needs(b: Basement, lo: Option<Key>, hi: Option<Key>, chain: seq<Ancestor>) {
    exists j :: 0 <= j < |chain| && chain[j].maxMsn > b.msn && AnyConcerns(chain[j].buf, lo, hi)
  }

  predicate AnyConcerns(ms: seq<Message>, lo: Option<Key>, hi: Option<Key>) {
    exists x :: 0 <= x < |ms| && Concerns(ms[x], lo, hi)
  }

  function MaxInPath(c: nat, chain: seq<Ancestor>): nat {
    if |chain| == 0 then c else Max(MaxInPath(c, chain[..|chain| - 1]), chain[|chain| - 1].maxMsn)
  }

  lemma {:induction false} AbsorbNothing(es: seq<Entry>, c: nat, lo: Option<Key>, hi: Option<Key>, ms: seq<Message>)
    requires !AnyConcerns(ms, lo, hi)
    ensures Absorb(es, c, lo, hi, ms) == es
  {
    if |ms| > 0 {
      var init := ms[..|ms| - 1];
      assert forall x :: 0 <= x < |init| ==> init[x] == ms[x];
      AbsorbNothing(es, c, lo, hi, init);
      assert !Concerns(ms[|ms| - 1], lo, hi);
    }
  }

  /** If no ancestor has anything for the basement, raising its MSN to the
      highest in the path (toku_ft_bn_update_max_msn) is all that catching up does. */
  lemma {:induction false} BumpIsCatchUp(b: Basement, lo: Option<Key>, hi: Option<Key>, chain: seq<Ancestor>)
    requires !Needs(b, lo, hi, chain)
    ensures CatchUp(b, lo, hi, chain) == b.(msn := MaxInPath(b.msn, chain))
    ensures b.msn <= MaxInPath(b.msn, chain)
  {
    hide Absorb, AnyConcerns;
    if |chain| > 0 {
      var init, a := chain[..|chain| - 1], chain[|chain| - 1];
      assert forall j :: 0 <= j < |init| ==> init[j] == chain[j];
      BumpIsCatchUp(b, lo, hi, init);
      if a.maxMsn > MaxInPath(b.msn, init) {
        assert !AnyConcerns(chain[|chain| - 1].buf, lo, hi);
        AbsorbNothing(b.entries, MaxInPath(b.msn, init), lo, hi, a.buf);
      }
    }
  }

  // --------------------------------------------------------- on a whole leaf

  /** A clean leaf is brought up to date in the basement that is read, a dirty
      leaf in all of them. */
  function QueryLeaf(n: Node, lo: Option<Key>, hi: Option<Key>, chain: seq<Ancestor>, j: nat): Node
    requires n.Leaf? && |n.bases| == |Used(n)| + 1 && j < |n.bases|
  {
    n.(bases := seq(|n.bases|, i requires 0 <= i < |n.bases| =>
         if n.dirty || i == j then CatchUp(n.bases[i], LowerOf(Used(n), lo, i), UpperOf(Used(n), hi, i), chain)
         else n.bases[i]))
  }

  lemma CatchUpBase(n: Node, lo: Option<Key>, hi: Option<Key>, chain: seq<Ancestor>, i: nat)
    requires n.Leaf? && NodeOk(n, lo, hi) && ChainOk(chain) && i < |n.bases|
    requires exists k :: InRange(LowerOf(Used(n), lo, i), UpperOf(Used(n), hi, i), k)
    ensures
      var b' := CatchUp(n.bases[i], LowerOf(Used(n), lo, i), UpperOf(Used(n), hi, i), chain);
      && BasementOk(n, b', LowerOf(Used(n), lo, i), UpperOf(Used(n), hi, i))
      && (forall j :: 0 <= j < |chain| ==> chain[j].maxMsn <= b'.msn)
      && n.bases[i].msn <= b'.msn
      && (b'.msn == n.bases[i].msn || exists j :: 0 <= j < |chain| && chain[j].maxMsn == b'.msn)
  {
    var k :| InRange(LowerOf(Used(n), lo, i), UpperOf(Used(n), hi, i), k);
    assert BasementOk(n, n.bases[i], LowerOf(Used(n), lo, i), UpperOf(Used(n), hi, i));
    CatchUpOk(n.bases[i], LowerOf(Used(n), lo, i), UpperOf(Used(n), hi, i), chain, k);
  }

  /** Every basement covers some key. */
  lemma SomeKey(lo: Option<Key>, hi: Option<Key>)
    requires lo.Some? && hi.Some? ==> lo.value < hi.value
    ensures exists k :: InRange(lo, hi, k)
  {
    if hi.Some? {
      assert InRange(lo, hi, hi.value);
    } else if lo.Some? {
      assert InRange(lo, hi, lo.value + 1.0);
    } else {
      assert InRange(lo, hi, 0.0);
    }
  }

  lemma SomeKeyInBase(n: Node, lo: Option<Key>, hi: Option<Key>, i: nat)
    requires n.Leaf? && NodeOk(n, lo, hi) && i < |n.bases| && (lo.Some? && hi.Some? ==> lo.value < hi.value)
    ensures exists k :: InRange(LowerOf(Used(n), lo, i), UpperOf(Used(n), hi, i), k)
  {
    var ps := Used(n);
    assert i < |ps| ==> Inside(lo, hi, ps[i]);
    assert i > 0 ==> Inside(lo, hi, ps[i - 1]);
    SomeKey(LowerOf(ps, lo, i), UpperOf(ps, hi, i));
  }

  lemma QueryLeafOk(n: Node, lo: Option<Key>, hi: Option<Key>, chain: seq<Ancestor>, j: nat)
    requires n.Leaf? && NodeOk(n, lo, hi) && ChainOk(chain) && (lo.Some? && hi.Some? ==> lo.value < hi.value)
    requires |n.bases| == |Used(n)| + 1 && j < |n.bases|
    ensures NodeOk(QueryLeaf(n, lo, hi, chain, j), lo, hi)
    ensures forall i :: 0 <= i < |n.bases| ==>
              var b' := QueryLeaf(n, lo, hi, chain, j).bases[i];
              && (n.dirty ==> forall x :: 0 <= x < |chain| ==> chain[x].maxMsn <= b'.msn)
              && (b'.msn == n.bases[i].msn || exists x :: 0 <= x < |chain| && chain[x].maxMsn == b'.msn)
  {
    hide CatchUp, ChainOk;
    var n' := QueryLeaf(n, lo, hi, chain, j);
    assert Used(n') == Used(n);
    forall i | 0 <= i < |n.bases|
      ensures BasementOk(n', n'.bases[i], LowerOf(Used(n), lo, i), UpperOf(Used(n), hi, i))
      ensures n.dirty ==> forall x :: 0 <= x < |chain| ==> chain[x].maxMsn <= n'.bases[i].msn
      ensures n'.bases[i].msn == n.bases[i].msn || exists x :: 0 <= x < |chain| && chain[x].maxMsn == n'.bases[i].msn
    {
      assert BasementOk(n, n.bases[i], LowerOf(Used(n), lo, i), UpperOf(Used(n), hi, i));
      SomeKeyInBase(n, lo, hi, i);
      CatchUpBase(n, lo, hi, chain, i);
    }
  }

  lemma QueryLeafProbe(n: Node, lo: Option<Key>, hi: Option<Key>, chain: seq<Ancestor>, j: nat, k: Key)
    requires n.Leaf? && NodeOk(n, lo, hi) && ChainOk(chain) && InRange(lo, hi, k)
    requires |n.bases| == |Used(n)| + 1 && j < |n.bases|
    ensures
      var p, p' := Probe(n, k), Probe(QueryLeaf(n, lo, hi, chain, j), k);
      || p' == p
      || (&& p'.val == ReplayNewer(ChainMsgs(chain), p.msn, k, p.val)
          && p' == p.(val := p'.val, msn := p'.msn)
          && forall x :: 0 <= x < |chain| ==> chain[x].maxMsn <= p'.msn)
  {
    hide CatchUp, ChainOk, ReplayNewer, Lookup;
    var i := Route(Used(n), k);
    assert Used(QueryLeaf(n, lo, hi, chain, j)) == Used(n);
    RouteInRange(Used(n), lo, hi, k);
    assert BasementOk(n, n.bases[i], LowerOf(Used(n), lo, i), UpperOf(Used(n), hi, i));
    CatchUpOk(n.bases[i], LowerOf(Used(n), lo, i), UpperOf(Used(n), hi, i), chain, k);
  }

  // ------------------------------------------------------------- on the tree

  predicate FreePath(top: Kid, path: Path)
    requires ValidPath(top, path)
    decreases path
  {
    top.pin.Free? && (|path| == 0 || FreePath(top.child.kids[path[0]], path[1..]))
  }

  /** The ancestors of the path's end, nearest first. */
  function Chain(top: Kid, path: Path): seq<Ancestor>
    requires ValidPath(top, path)
    decreases path
  {
    if |path| == 0 then []
    else
      var kid := top.child.kids[path[0]];
      Chain(kid, path[1..]) + [Ancestor(top.child.maxMsn, kid.buf)]
  }

  lemma {:induction false} ChainBelow(top: Kid, path: Path, c: nat)
    requires ValidPath(top, path) && EdgeAdmits(top, c)
    ensures forall j :: 0 <= j < |Chain(top, path)| ==> Chain(top, path)[j].maxMsn < c
    decreases path
  {
    if |path| > 0 {
      ChainBelow(top.child.kids[path[0]], path[1..], c);
    }
  }

  lemma {:induction false} ChainSettled(top: Kid, path: Path, a: nat)
    requires ValidPath(top, path) && EdgeSettled(top, a)
    ensures forall j :: 0 <= j < |Chain(top, path)| ==> Chain(top, path)[j].maxMsn <= a
    decreases path
  {
    if |path| > 0 {
      ChainSettled(top.child.kids[path[0]], path[1..], a);
    }
  }

  lemma {:induction false} ChainIsOk(top: Kid, path: Path, lo: Option<Key>, hi: Option<Key>, h: nat)
    requires ValidPath(top, path) && EdgeOk(top, lo, hi, h)
    ensures ChainOk(Chain(top, path))
    decreases path
  {
    hide EdgeAdmits, EdgeOk;
    if |path| > 0 {
      var i := path[0];
      var kid := top.child.kids[i];
      KidOk(top, i, lo, hi, h);
      ChainIsOk(kid, path[1..], LowerOf(top.child.pivots, lo, i), UpperOf(top.child.pivots, hi, i), h - 1);
      var rest := Chain(kid, path[1..]);
      forall x | 0 <= x < |kid.buf|
        ensures forall j :: 0 <= j < |rest| ==> rest[j].maxMsn < kid.buf[x].msn
      {
        BufAdmitted(kid, LowerOf(top.child.pivots, lo, i), UpperOf(top.child.pivots, hi, i), h - 1, x);
        ChainBelow(kid, path[1..], kid.buf[x].msn);
      }
    }
  }

  lemma BufAdmitted(e: Kid, lo: Option<Key>, hi: Option<Key>, h: nat, x: nat)
    requires EdgeOk(e, lo, hi, h) && x < |e.buf|
    ensures EdgeAdmits(e, e.buf[x].msn)
  {
  }

  lemma Regroup(a: seq<Message>, b: seq<Message>, c: seq<Message>)
    ensures a + (b + ([] + c)) == (a + b) + c
  {
  }

  lemma NoAncestors(top: Kid)
    ensures top.buf + AboveMsgs(top, []) == ChainMsgs([]) + top.buf
  {
  }

  lemma ChainMsgsNext(chain: seq<Ancestor>, a: Ancestor)
    ensures ChainMsgs(chain + [a]) == ChainMsgs(chain) + a.buf
  {
    assert (chain + [a])[..|chain|] == chain;
  }

  /** On a path without locks, the ancestors' messages are all pending messages. */
  lemma {:induction false} ChainIsPending(top: Kid, path: Path)
    requires ValidPath(top, path) && FreePath(top, path)
    ensures EdgeAt(top, path).buf + AboveMsgs(top, path) == ChainMsgs(Chain(top, path)) + top.buf
    ensures AsOfs(top, path) == []
    decreases path
  {
    if |path| > 0 {
      hide ChainMsgs;
      var kid := top.child.kids[path[0]];
      var e, up, cs := EdgeAt(kid, path[1..]), AboveMsgs(kid, path[1..]), Chain(kid, path[1..]);
      ChainIsPending(kid, path[1..]);
      ChainMsgsNext(cs, Ancestor(top.child.maxMsn, kid.buf));
      Regroup(e.buf, up, top.buf);
    } else {
      NoAncestors(top);
    }
  }

  function QueryEdge(top: Kid, path: Path, j: nat): Kid
    requires ValidPath(top, path) && EdgeAt(top, path).child.Leaf?
    requires
      var n := EdgeAt(top, path).child;
      |n.bases| == |Used(n)| + 1 && j < |n.bases|
  {
    var e := EdgeAt(top, path);
    e.(child := QueryLeaf(e.child, LoAt(top, path, None), HiAt(top, path, None), Chain(top, path), j))
  }

  lemma {:induction false} RangeNonempty(top: Kid, path: Path, lo: Option<Key>, hi: Option<Key>, h: nat)
    requires ValidPath(top, path) && EdgeOk(top, lo, hi, h) && (lo.Some? && hi.Some? ==> lo.value < hi.value)
    ensures
      var lo', hi' := LoAt(top, path, lo), HiAt(top, path, hi);
      lo'.Some? && hi'.Some? ==> lo'.value < hi'.value
    decreases path
  {
    hide EdgeOk;
    if |path| > 0 {
      var i, ps := path[0], top.child.pivots;
      KidOk(top, i, lo, hi, h);
      assert i < |ps| ==> Inside(lo, hi, ps[i]);
      assert i > 0 ==> Inside(lo, hi, ps[i - 1]);
      RangeNonempty(top.child.kids[i], path[1..], LowerOf(ps, lo, i), UpperOf(ps, hi, i), h - 1);
    }
  }

  /** A query leaves the tree well-formed, although the basement's MSN overtakes
      messages still in its ancestors. */
  lemma QueryOk(top: Kid, path: Path, j: nat, h: nat)
    requires ValidPath(top, path) && EdgeOk(top, None, None, h) && FreePath(top, path) && |top.buf| == 0
    requires EdgeAt(top, path).child.Leaf?
    requires
      var n := EdgeAt(top, path).child;
      |n.bases| == |Used(n)| + 1 && j < |n.bases|
    ensures EdgeOk(ReplaceAt(top, path, QueryEdge(top, path, j)), None, None, h)
    ensures ReplaceAt(top, path, QueryEdge(top, path, j)).buf == top.buf
  {
    hide EdgeOk, EdgeAdmits, EdgeSettled, NodeOk, QueryLeaf, ChainOk, ChainMsgs;
    AtOk(top, path, None, None, h);
    RangeNonempty(top, path, None, None, h);
    ChainIsOk(top, path, None, None, h);
    ChainIsPending(top, path);
    var e, e' := EdgeAt(top, path), QueryEdge(top, path, j);
    var lo, hi, chain := LoAt(top, path, None), HiAt(top, path, None), Chain(top, path);
    LeafEdgeNode(e, lo, hi, h - |path|);
    QueryLeafOk(e.child, lo, hi, chain, j);
    assert AboveMsgs(top, path) + [] == AboveMsgs(top, path);
    AtFree(top, path);
    QueryAdmits(e, lo, hi, h - |path|, chain, j, AboveMsgs(top, path));
    ReplaceOk(top, path, e', None, None, h);
  }

  lemma LeafEdgeNode(e: Kid, lo: Option<Key>, hi: Option<Key>, h: nat)
    requires EdgeOk(e, lo, hi, h)
    ensures NodeOk(e.child, lo, hi)
  {
  }

  lemma {:induction false} AtFree(top: Kid, path: Path)
    requires ValidPath(top, path) && FreePath(top, path)
    ensures EdgeAt(top, path).pin.Free?
    decreases path
  {
    if |path| > 0 {
      AtFree(top.child.kids[path[0]], path[1..]);
    }
  }

  lemma QueryAdmits(e: Kid, lo: Option<Key>, hi: Option<Key>, h: nat, chain: seq<Ancestor>, j: nat, up: seq<Message>)
    requires EdgeOk(e, lo, hi, h) && e.pin.Free? && e.child.Leaf? && ChainOk(chain)
    requires |e.child.bases| == |Used(e.child)| + 1 && j < |e.child.bases|
    requires e.buf + up == ChainMsgs(chain) && (lo.Some? && hi.Some? ==> lo.value < hi.value)
    ensures
      var e' := e.(child := QueryLeaf(e.child, lo, hi, chain, j));
      EdgeOk(e', lo, hi, h) && forall x :: 0 <= x < |up| ==> EdgeAdmits(e', up[x].msn)
  {
    hide QueryLeaf, ChainOk, ChainMsgs, NodeOk;
    var n, n' := e.child, QueryLeaf(e.child, lo, hi, chain, j);
    QueryLeafShape(n, lo, hi, chain, j);
    QueryLeafOk(n, lo, hi, chain, j);
    var all := ChainMsgs(chain);
    if n.dirty {
      forall i, x | 0 <= i < |n'.bases| && 0 <= x < |all| ensures all[x].msn <= n'.bases[i].msn {
        ChainMsgsAtMost(chain, n'.bases[i].msn);
      }
    }
    assert forall x :: 0 <= x < |all| ==> Admits(n', all[x].msn);
    assert forall x :: 0 <= x < |e.buf| ==> e.buf[x] == all[x];
    assert forall x :: 0 <= x < |up| ==> up[x] == all[|e.buf| + x];
  }

  lemma QueryLeafShape(n: Node, lo: Option<Key>, hi: Option<Key>, chain: seq<Ancestor>, j: nat)
    requires n.Leaf? && |n.bases| == |Used(n)| + 1 && j < |n.bases|
    ensures
      var n' := QueryLeaf(n, lo, hi, chain, j);
      n'.Leaf? && n'.bn == n.bn && n'.dirty == n.dirty && n'.maxMsn == n.maxMsn && |n'.bases| == |n.bases|
  {
  }

  lemma QuerySettled(top: Kid, path: Path, j: nat, h: nat, a: nat)
    requires ValidPath(top, path) && EdgeOk(top, None, None, h) && EdgeAt(top, path).child.Leaf?
    requires
      var n := EdgeAt(top, path).child;
      |n.bases| == |Used(n)| + 1 && j < |n.bases|
    requires EdgeSettled(top, a)
    ensures EdgeSettled(ReplaceAt(top, path, QueryEdge(top, path, j)), a)
  {
    hide EdgeOk, EdgeAdmits, NodeOk, QueryLeaf, ChainOk;
    AtOk(top, path, None, None, h);
    RangeNonempty(top, path, None, None, h);
    ChainIsOk(top, path, None, None, h);
    ChainSettled(top, path, a);
    AtSettled(top, path, a);
    var e := EdgeAt(top, path);
    var lo, hi, chain := LoAt(top, path, None), HiAt(top, path, None), Chain(top, path);
    LeafEdgeNode(e, lo, hi, h - |path|);
    QueryLeafShape(e.child, lo, hi, chain, j);
    QueryLeafOk(e.child, lo, hi, chain, j);
    ReplaceSettled(top, path, QueryEdge(top, path, j), a);
  }

  /** A query is invisible to every later reader. */
  lemma QueryKeeps(top: Kid, path: Path, j: nat, h: nat, k: Key)
    requires ValidPath(top, path) && EdgeOk(top, None, None, h) && FreePath(top, path) && |top.buf| == 0
    requires EdgeAt(top, path).child.Leaf? && Routed(top, path, k)
    requires
      var n := EdgeAt(top, path).child;
      |n.bases| == |Used(n)| + 1 && j < |n.bases|
    ensures
      var up := Rel(AboveMsgs(top, path), k);
      Keeps(Extend(ProbeEdge(EdgeAt(top, path), k), up), Extend(ProbeEdge(QueryEdge(top, path, j), k), up), k)
  {
    hide EdgeOk, NodeOk, QueryLeaf, ChainOk, ChainMsgs, Rel, ReplayNewer, Probe;
    var e, e' := EdgeAt(top, path), QueryEdge(top, path, j);
    var lo, hi, chain := LoAt(top, path, None), HiAt(top, path, None), Chain(top, path);
    AtOk(top, path, None, None, h);
    ChainIsOk(top, path, None, None, h);
    ChainIsPending(top, path);
    AtFree(top, path);
    RoutedInRange(top, path, None, None, k);
    LeafEdgeNode(e, lo, hi, h - |path|);
    QueryLeafProbe(e.child, lo, hi, chain, j, k);
    QueryLeafShape(e.child, lo, hi, chain, j);
    var up, ms := Rel(AboveMsgs(top, path), k), ChainMsgs(chain);
    LeafEdgeProbe(e, k);
    LeafEdgeProbe(e', k);
    RelConcat(e.buf, AboveMsgs(top, path), k);
    assert ms + [] == ms;
    RelEmpty(k);
    var p, p' := Probe(e.child, k), Probe(e'.child, k);
    assert ([] + ([] + Rel(e.buf, k))) + up == Rel(ms, k);
    QueryStateKeeps(p, p', chain, k);
  }

  lemma QueryStateKeeps(p: KeyState, p': KeyState, chain: seq<Ancestor>, k: Key)
    requires ChainOk(chain) && p.pend == [] && p'.pend == []
    requires
      || p' == p
      || (&& p'.val == ReplayNewer(ChainMsgs(chain), p.msn, k, p.val)
          && p' == p.(val := p'.val, msn := p'.msn)
          && forall x :: 0 <= x < |chain| ==> chain[x].maxMsn <= p'.msn)
    ensures Keeps(p.(pend := Rel(ChainMsgs(chain), k)), p'.(pend := Rel(ChainMsgs(chain), k)), k)
  {
    hide ReplayNewer, Rel, ChainMsgs, ChainOk;
    var ms := ChainMsgs(chain);
    KeepsSame(p.(pend := Rel(ms, k)), k);
    if p' != p {
      ReplayNewerRel(ms, p.msn, k, p.val);
      ReplayNewerRel(ms, p'.msn, k, p'.val);
      ChainMsgsAtMost(chain, p'.msn);
      ReplayNewerNone(ms, p'.msn, k, p'.val);
    }
  }

  /** The messages of all ancestors, nearest first, are in MSN order. */
  lemma {:induction false} ChainIncreasing(chain: seq<Ancestor>)
    requires ChainOk(chain) && forall x :: 0 <= x < |chain| ==> MsnIncreasing(chain[x].buf)
    ensures MsnIncreasing(ChainMsgs(chain))
  {
    hide ChainOk;
    if |chain| > 0 {
      var init, a := chain[..|chain| - 1], chain[|chain| - 1];
      ChainPrefix(chain);
      ChainIncreasing(init);
      forall i, y | 0 <= i < |ChainMsgs(init)| && 0 <= y < |a.buf| ensures ChainMsgs(init)[i].msn < a.buf[y].msn {
        BelowAncestor(chain, a.buf[y].msn - 1, y);
        ChainMsgsAtMost(init, a.buf[y].msn - 1);
      }
    }
  }

  lemma BelowAncestor(chain: seq<Ancestor>, c: int, y: nat)
    requires ChainOk(chain) && |chain| > 0 && y < |chain[|chain| - 1].buf| && c == chain[|chain| - 1].buf[y].msn - 1
    ensures forall x :: 0 <= x < |chain| - 1 ==> chain[x].maxMsn <= c
    ensures |chain| > 1 ==> c >= 0
  {
    if |chain| > 1 {
      assert chain[0].maxMsn <= c;
    }
  }

  lemma {:induction false} ChainFits(chain: seq<Ancestor>, lo: Option<Key>, hi: Option<Key>)
    requires forall x, y :: 0 <= x < |chain| && 0 <= y < |chain[x].buf| ==> Fits(chain[x].buf[y], lo, hi)
    ensures forall i :: 0 <= i < |ChainMsgs(chain)| ==> Fits(ChainMsgs(chain)[i], lo, hi)
  {
    hide Fits;
    if |chain| > 0 {
      ChainFits(chain[..|chain| - 1], lo, hi);
    }
  }

  /** A leaf that took the messages of all its ancestors for a query, and then has the
      same messages flushed into it, holds at every key what the flush alone gives: the
      basements' MSNs keep the messages from being applied twice. */
  lemma QueryThenFlush(n: Node, lo: Option<Key>, hi: Option<Key>, chain: seq<Ancestor>, j: nat, k: Key)
    requires n.Leaf? && NodeOk(n, lo, hi) && (lo.Some? && hi.Some? ==> lo.value < hi.value) && InRange(lo, hi, k)
    requires |n.bases| == |Used(n)| + 1 && j < |n.bases|
    requires ChainOk(chain) && forall x :: 0 <= x < |chain| ==> MsnIncreasing(chain[x].buf)
    requires forall x, y :: 0 <= x < |chain| && 0 <= y < |chain[x].buf| ==> Fits(chain[x].buf[y], lo, hi)
    ensures
      Probe(PutAll(QueryLeaf(n, lo, hi, chain, j), ChainMsgs(chain)), k).val == Probe(PutAll(n, ChainMsgs(chain)), k).val
  {
    hide NodeOk, QueryLeaf, ChainOk, ReplayNewer, Probe, PutAll, ChainMsgs, Fits, MsnIncreasing;
    var n', ms := QueryLeaf(n, lo, hi, chain, j), ChainMsgs(chain);
    ChainIncreasing(chain);
    ChainFits(chain, lo, hi);
    QueryLeafOk(n, lo, hi, chain, j);
    QueryLeafShape(n, lo, hi, chain, j);
    QueryLeafProbe(n, lo, hi, chain, j, k);
    LeafPutAllProbe(n, ms, lo, hi, k);
    LeafPutAllProbe(n', ms, lo, hi, k);
    var p, p' := Probe(n, k), Probe(n', k);
    if p' != p {
      ChainMsgsAtMost(chain, p'.msn);
      ReplayNewerNone(ms, p'.msn, k, p'.val);
    }
  }
}
