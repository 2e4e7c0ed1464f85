/** Counting keys in a range: toku_ft_keysrange. Its results are estimates, except the
    middle three numbers when both keys lead to one basement. */
module KeysRange {
  import opened Keys
  import opened Messages
  import opened Entries
  import opened Nodes
  import opened Leaves
  import opened Protocol
  import opened Routing

  // ------------------------------------------------------ what is to be counted

  /** All leaf entries below a node. */
  function AllEntries(n: Node): seq<Entry> {
    if n.Leaf? then Flat(n.bases) else KidsEntries(n.kids)
  }

  function KidsEntries(kids: seq<Kid>): seq<Entry> {
    if |kids| == 0 then [] else KidsEntries(kids[..|kids| - 1]) + AllEntries(kids[|kids| - 1].child)
  }

  function Count(es: seq<Entry>, p: Key -> bool): nat {
    if |es| == 0 then 0 else Count(es[..|es| - 1], p) + (if p(es[|es| - 1].key) then 1 else 0)
  }

  lemma {:induction false} CountConcat(a: seq<Entry>, b: seq<Entry>, p: Key -> bool)
    ensures Count(a + b, p) == Count(a, p) + Count(b, p)
  {
    if |b| == 0 {
      assert a + b == a;
    } else {
      assert (a + b)[..|a + b| - 1] == a + b[..|b| - 1];
      CountConcat(a, b[..|b| - 1], p);
    }
  }

  lemma {:induction false} CountNone(es: seq<Entry>, p: Key -> bool)
    requires forall i :: 0 <= i < |es| ==> !p(es[i].key)
    ensures Count(es, p) == 0
  {
    if |es| > 0 {
      CountNone(es[..|es| - 1], p);
    }
  }

  lemma {:induction false} CountAll(es: seq<Entry>, p: Key -> bool)
    requires forall i :: 0 <= i < |es| ==> p(es[i].key)
    ensures Count(es, p) == |es|
  {
    if |es| > 0 {
      CountAll(es[..|es| - 1], p);
    }
  }

  /** Entries that satisfy `p` are found between two positions of a sorted sequence. */
  lemma {:induction false} CountSlice(es: seq<Entry>, a: nat, b: nat, p: Key -> bool)
    requires a <= b <= |es|
    requires forall i :: 0 <= i < |es| ==> (p(es[i].key) <==> a <= i < b)
    ensures Count(es, p) == b - a
    decreases |es|
  {
    if |es| > 0 {
      var n := |es| - 1;
      CountSlice(es[..n], if a < n then a else n, if b < n then b else n, p);
    }
  }

  // ------------------------------------------------- one child has all of them

  /** `p` holds only between `l` and `r`. */
  ghost predicate Between(p: Key -> bool, l: Key, r: Option<Key>) {
    forall k :: p(k) ==> l <= k && (r.Some? ==> k <= r.value)
  }

  /** Where the right key leads; no right key leads to the last child. */
  function RightRoute(ps: seq<Key>, r: Option<Key>): nat {
    if r.Some? then Route(ps, r.value) else |ps|
  }

  lemma SameRoute(ps: seq<Key>, l: Key, r: Option<Key>, k: Key)
    requires Increasing(ps) && Route(ps, l) == RightRoute(ps, r)
    requires l <= k && (r.Some? ==> k <= r.value)
    ensures Route(ps, k) == Route(ps, l)
  {
  }

  lemma {:induction false} KidsCount(kids: seq<Kid>, c: nat, p: Key -> bool)
    requires c < |kids|
    requires forall j, i :: 0 <= j < |kids| && j != c && 0 <= i < |AllEntries(kids[j].child)| ==>
               !p(AllEntries(kids[j].child)[i].key)
    ensures Count(KidsEntries(kids), p) == Count(AllEntries(kids[c].child), p)
    decreases |kids|
  {
    hide AllEntries;
    var init, last := kids[..|kids| - 1], kids[|kids| - 1];
    CountConcat(KidsEntries(init), AllEntries(last.child), p);
    assert forall j :: 0 <= j < |init| ==> init[j] == kids[j];
    if c == |kids| - 1 {
      NoKidsCount(init, p);
    } else {
      KidsCount(init, c, p);
      CountNone(AllEntries(last.child), p);
    }
  }

  lemma {:induction false} NoKidsCount(kids: seq<Kid>, p: Key -> bool)
    requires forall j, i :: 0 <= j < |kids| && 0 <= i < |AllEntries(kids[j].child)| ==>
               !p(AllEntries(kids[j].child)[i].key)
    ensures Count(KidsEntries(kids), p) == 0
    decreases |kids|
  {
    hide AllEntries;
    if |kids| > 0 {
      var init, last := kids[..|kids| - 1], kids[|kids| - 1];
      CountConcat(KidsEntries(init), AllEntries(last.child), p);
      assert forall j :: 0 <= j < |init| ==> init[j] == kids[j];
      NoKidsCount(init, p);
      CountNone(AllEntries(last.child), p);
    }
  }

  lemma {:induction false} KidsWithin(kids: seq<Kid>, lo: Option<Key>, hi: Option<Key>)
    requires forall j :: 0 <= j < |kids| ==> Within(AllEntries(kids[j].child), lo, hi)
    ensures Within(KidsEntries(kids), lo, hi)
    decreases |kids|
  {
    hide AllEntries;
    if |kids| > 0 {
      var init := kids[..|kids| - 1];
      assert forall j :: 0 <= j < |init| ==> init[j] == kids[j];
      KidsWithin(init, lo, hi);
    }
  }

  lemma {:induction false} EntriesWithin(n: Node, lo: Option<Key>, hi: Option<Key>)
    requires NodeOk(n, lo, hi)
    ensures Within(AllEntries(n), lo, hi)
    decreases n
  {
    if n.Leaf? {
      LeafFlat(n, lo, hi, 0.0);
    } else {
      forall j | 0 <= j < |n.kids| ensures Within(AllEntries(n.kids[j].child), lo, hi) {
        var klo, khi := LowerOf(n.pivots, lo, j), UpperOf(n.pivots, hi, j);
        assert EdgeOk(n.kids[j], klo, khi, n.height - 1);
        EntriesWithin(n.kids[j].child, klo, khi);
        WithinParent(n.pivots, lo, hi, j, AllEntries(n.kids[j].child));
      }
      KidsWithin(n.kids, lo, hi);
    }
  }

  lemma WithinParent(ps: seq<Key>, lo: Option<Key>, hi: Option<Key>, j: nat, es: seq<Entry>)
    requires PivotsOk(ps, lo, hi) && j <= |ps| && Within(es, LowerOf(ps, lo, j), UpperOf(ps, hi, j))
    ensures Within(es, lo, hi)
  {
  }

  /** If both keys lead to child `c`, every counted entry is below child `c`. */
  lemma InnerCount(n: Node, lo: Option<Key>, hi: Option<Key>, l: Key, r: Option<Key>, p: Key -> bool)
    requires n.Inner? && NodeOk(n, lo, hi) && Between(p, l, r) && Route(n.pivots, l) == RightRoute(n.pivots, r)
    ensures Route(n.pivots, l) < |n.kids|
    ensures Count(AllEntries(n), p) == Count(AllEntries(n.kids[Route(n.pivots, l)].child), p)
  {
    hide AllEntries;
    var c := Route(n.pivots, l);
    forall j, i | 0 <= j < |n.kids| && j != c && 0 <= i < |AllEntries(n.kids[j].child)|
      ensures !p(AllEntries(n.kids[j].child)[i].key)
    {
      var klo, khi := LowerOf(n.pivots, lo, j), UpperOf(n.pivots, hi, j);
      var k := AllEntries(n.kids[j].child)[i].key;
      assert EdgeOk(n.kids[j], klo, khi, n.height - 1);
      EntriesWithin(n.kids[j].child, klo, khi);
      assert InRange(klo, khi, k);
      RouteUnique(n.pivots, lo, hi, k, j);
      if p(k) {
        SameRoute(n.pivots, l, r, k);
      }
    }
    KidsCount(n.kids, c, p);
    InnerEntries(n);
  }

  lemma InnerEntries(n: Node)
    requires n.Inner?
    ensures AllEntries(n) == KidsEntries(n.kids)
  {
  }

  /** The same within a leaf, for its basements. */
  lemma LeafCount(n: Node, lo: Option<Key>, hi: Option<Key>, l: Key, r: Option<Key>, p: Key -> bool)
    requires n.Leaf? && NodeOk(n, lo, hi) && Between(p, l, r) && Route(Used(n), l) == RightRoute(Used(n), r)
    ensures Route(Used(n), l) < |n.bases|
    ensures Count(AllEntries(n), p) == Count(n.bases[Route(Used(n), l)].entries, p)
  {
    hide Flat;
    var c, ps := Route(Used(n), l), Used(n);
    LeafBasesOk(n, lo, hi);
    forall j | 0 <= j < |n.bases| && j != c ensures forall i :: 0 <= i < |n.bases[j].entries| ==> !p(n.bases[j].entries[i].key) {
      forall i | 0 <= i < |n.bases[j].entries| ensures !p(n.bases[j].entries[i].key) {
        var k := n.bases[j].entries[i].key;
        assert InRange(LowerOf(ps, lo, j), UpperOf(ps, hi, j), k);
        RouteUnique(ps, lo, hi, k, j);
        if p(k) {
          SameRoute(ps, l, r, k);
        }
      }
    }
    FlatCount(n.bases, c, p);
  }

  lemma {:induction false} FlatCount(bs: seq<Basement>, c: nat, p: Key -> bool)
    requires c < |bs|
    requires forall j, i :: 0 <= j < |bs| && j != c && 0 <= i < |bs[j].entries| ==> !p(bs[j].entries[i].key)
    ensures Count(Flat(bs), p) == Count(bs[c].entries, p)
  {
    CountConcat(bs[0].entries, Flat(bs[1..]), p);
    if c == 0 {
      NoFlatCount(bs[1..], p);
    } else {
      CountNone(bs[0].entries, p);
      FlatCount(bs[1..], c - 1, p);
    }
  }

  lemma {:induction false} NoFlatCount(bs: seq<Basement>, p: Key -> bool)
    requires forall j, i :: 0 <= j < |bs| && 0 <= i < |bs[j].entries| ==> !p(bs[j].entries[i].key)
    ensures Count(Flat(bs), p) == 0
  {
    if |bs| > 0 {
      CountConcat(bs[0].entries, Flat(bs[1..]), p);
      CountNone(bs[0].entries, p);
      NoFlatCount(bs[1..], p);
    }
  }

  // ------------------------------------------------------------------ the search

  /** The five numbers and whether both keys led to one basement. */
  datatype Numbers = Numbers(less: nat, equalLeft: nat, middle: nat, equalRight: nat, greater: nat, single: bool)

  const UINT32_LIMIT: nat := 0x1_0000_0000

  /** Subtraction of unsigned 32-bit numbers: the indices into a basement. */
  function Sub32(a: nat, b: nat): nat
    requires b <= a + UINT32_LIMIT
  {
    if b <= a then a - b else a + UINT32_LIMIT - b
  }

  /** Subtraction of unsigned 64-bit numbers. */
  function Sub64(a: nat, b: nat): nat
    requires b <= a + 0x1_0000_0000_0000_0000
  {
    if b <= a then a - b else a + 0x1_0000_0000_0000_0000 - b
  }

  /** The estimated rows below each of `n` children. */
  function Share(rows: nat, n: nat): nat
    requires n > 0
  {
    rows / n
  }

  /** The estimated rows below `n` children. */
  function RowsOf(each: nat, n: nat): nat {
    each * n
  }

  function Equal(k: Key): Key -> bool {
    x => x == k
  }

  function StrictlyBetween(l: Key, r: Option<Key>): Key -> bool {
    x => l < x && (r.Some? ==> x < r.value)
  }

  function Closed(a: Key, b: Key): Key -> bool {
    x => a <= x <= b
  }

  function HalfOpen(a: Key, b: Key): Key -> bool {
    x => a <= x < b
  }

  function Below(k: Key): Key -> bool {
    x => x < k
  }

  /** What the middle three numbers are when both keys led to one basement. With the
      right key at or below the left one, the subtraction in the middle counts back
      over the entries between them. It wraps around if there are any: the difference of
      the two indices at 32 bits, the entry of the left key taken off that at 64 bits. */
  ghost predicate Told(m: Numbers, es: seq<Entry>, l: Key, r: Option<Key>) {
    && m.equalLeft == Count(es, Equal(l))
    && m.equalRight == (if r.Some? then Count(es, Equal(r.value)) else 0)
    && (r.None? || l < r.value ==> m.middle == Count(es, StrictlyBetween(l, r)))
    && (r.Some? && r.value <= l ==>
          var between := Count(es, Closed(r.value, l));
          && between < UINT32_LIMIT
          && m.middle == if Count(es, HalfOpen(r.value, l)) == 0 then Sub64(0, between) else UINT32_LIMIT - between)
  }

  /** The flag is right exactly if the keys are in order, or nothing lies between them. */
  lemma ToldExactly(m: Numbers, es: seq<Entry>, l: Key, r: Option<Key>)
    requires Told(m, es, l, r)
    ensures Exact(m, es, l, r) <==> r.None? || l < r.value || Count(es, Closed(r.value, l)) == 0
  {
    if r.Some? && r.value <= l {
      CountNone(es, StrictlyBetween(l, r));
      HalfOpenInClosed(es, r.value, l);
    }
  }

  lemma {:induction false} HalfOpenInClosed(es: seq<Entry>, a: Key, b: Key)
    ensures Count(es, HalfOpen(a, b)) <= Count(es, Closed(a, b))
  {
    if |es| > 0 {
      HalfOpenInClosed(es[..|es| - 1], a, b);
    }
  }

  /** The middle three numbers are the true counts. */
  ghost predicate Exact(m: Numbers, es: seq<Entry>, l: Key, r: Option<Key>) {
    && m.equalLeft == Count(es, Equal(l)) && m.middle == Count(es, StrictlyBetween(l, r))
    && m.equalRight == (if r.Some? then Count(es, Equal(r.value)) else 0)
  }

  /** keysrange_in_leaf_partition, for the basement that the left key leads to; `rows`
      is the estimate for a basement that is not in memory. */
  method LeafPartition(es: seq<Entry>, l: Option<Key>, r: Option<Key>, single: bool, inMemory: bool, rows: nat)
      returns (m: Numbers)
    requires Sorted(es) && (single ==> inMemory) && |es| < UINT32_LIMIT
    ensures m.single == single
    ensures single && l.Some? ==> Told(m, es, l.value, r) && m.less == Position(es, l.value)
    ensures !single ==> m.equalRight == 0 && m.greater == 0
  {
    hide Count, Position, Sorted;
    if inMemory {
      var left, isLeft := 0, false;
      if l.Some? {
        left, isLeft := FindZero(es, l.value);
      }
      var right, isRight := |es|, false;
      if single && r.Some? {
        right, isRight := FindZero(es, r.value);
      }
      var eqL, eqR := if isLeft then 1 else 0, if isRight then 1 else 0;
      m := Numbers(left, eqL, Sub64(Sub32(right, left), eqL), eqR, |es| - right - eqR, single);
      if single && l.Some? {
        CountEqual(es, l.value);
        if r.Some? {
          CountEqual(es, r.value);
        }
        if r.Some? && r.value <= l.value {
          CountClosed(es, r.value, l.value);
        } else {
          CountMiddle(es, l.value, r);
        }
      }
    } else {
      var left := if l.Some? then rows / 2 % UINT32_LIMIT else 0;
      m := Numbers(left, 0, rows - left, 0, 0, single);
    }
  }

  lemma CountEqual(es: seq<Entry>, k: Key)
    requires Sorted(es)
    ensures
      var i := Position(es, k);
      Count(es, Equal(k)) == if i < |es| && es[i].key == k then 1 else 0
  {
    var i := Position(es, k);
    var found := i < |es| && es[i].key == k;
    CountSlice(es, i, if found then i + 1 else i, Equal(k));
  }

  lemma CountMiddle(es: seq<Entry>, l: Key, r: Option<Key>)
    requires Sorted(es) && (r.Some? ==> l < r.value)
    ensures
      var i := Position(es, l);
      var a := if i < |es| && es[i].key == l then i + 1 else i;
      var b := if r.Some? then Position(es, r.value) else |es|;
      a <= b && Count(es, StrictlyBetween(l, r)) == b - a
  {
    hide Position, Count;
    var i := Position(es, l);
    var a := if i < |es| && es[i].key == l then i + 1 else i;
    var b := if r.Some? then Position(es, r.value) else |es|;
    assert a > 0 ==> es[a - 1].key <= l;
    assert a < |es| ==> l < es[a].key;
    assert b > 0 && r.Some? ==> es[b - 1].key < r.value;
    Slices(es, a, b, l, r);
    CountSlice(es, a, b, StrictlyBetween(l, r));
  }

  lemma Slices(es: seq<Entry>, a: nat, b: nat, l: Key, r: Option<Key>)
    requires Sorted(es) && a <= |es| && b <= |es| && (r.Some? ==> l < r.value)
    requires (a > 0 ==> es[a - 1].key <= l) && (a < |es| ==> l < es[a].key)
    requires if r.Some? then (b > 0 ==> es[b - 1].key < r.value) && (b < |es| ==> r.value <= es[b].key) else b == |es|
    ensures a <= b
    ensures forall i :: 0 <= i < |es| ==> (StrictlyBetween(l, r)(es[i].key) <==> a <= i < b)
  {
  }

  lemma CountClosed(es: seq<Entry>, a: Key, b: Key)
    requires Sorted(es) && a <= b
    ensures
      var i, j := Position(es, a), Position(es, b);
      var j' := if j < |es| && es[j].key == b then j + 1 else j;
      && i <= j <= j' && Count(es, Closed(a, b)) == j' - i
      && Count(es, HalfOpen(a, b)) == j - i
  {
    hide Position, Count;
    var i, j := Position(es, a), Position(es, b);
    var j' := if j < |es| && es[j].key == b then j + 1 else j;
    assert j' > 0 ==> es[j' - 1].key <= b;
    assert j' < |es| ==> b < es[j'].key;
    ClosedSlice(es, i, j', a, b);
    CountSlice(es, i, j', Closed(a, b));
    HalfOpenSlice(es, i, j, a, b);
    CountSlice(es, i, j, HalfOpen(a, b));
  }

  lemma ClosedSlice(es: seq<Entry>, i: nat, j: nat, a: Key, b: Key)
    requires Sorted(es) && a <= b && i <= |es| && j <= |es|
    requires (i > 0 ==> es[i - 1].key < a) && (i < |es| ==> a <= es[i].key)
    requires (j > 0 ==> es[j - 1].key <= b) && (j < |es| ==> b < es[j].key)
    ensures i <= j && forall x :: 0 <= x < |es| ==> (Closed(a, b)(es[x].key) <==> i <= x < j)
  {
  }

  lemma HalfOpenSlice(es: seq<Entry>, i: nat, j: nat, a: Key, b: Key)
    requires Sorted(es) && a <= b && i <= |es| && j <= |es|
    requires (i > 0 ==> es[i - 1].key < a) && (i < |es| ==> a <= es[i].key)
    requires (j > 0 ==> es[j - 1].key < b) && (j < |es| ==> b <= es[j].key)
    ensures i <= j && forall x :: 0 <= x < |es| ==> (HalfOpen(a, b)(es[x].key) <==> i <= x < j)
  {
  }

  lemma RangesBetween(l: Key, r: Option<Key>)
    requires r.Some? ==> l <= r.value
    ensures Between(Equal(l), l, r) && Between(StrictlyBetween(l, r), l, r)
    ensures r.Some? ==> Between(Equal(r.value), l, r) && Between(Closed(l, r.value), l, r)
                         && Between(HalfOpen(l, r.value), l, r)
  {
  }

  // ---------------------------------------------------------- left of the key

  /** Where the key is in its basement. */
  function IndexIn(n: Node, k: Key): nat {
    match n
    case Leaf(_, _, _, _, bases) =>
      var c := Route(Used(n), k);
      if c < |bases| then Position(bases[c].entries, k) else 0
    case Inner(_, _, _, pivots, kids) =>
      var c := Route(pivots, k);
      if c < |kids| then IndexIn(kids[c].child, k) else 0
  }

  /** The rows that are assumed left of the key's basement. */
  function Guess(n: Node, k: Key, rows: nat): nat {
    match n
    case Leaf(_, _, _, _, _) => RowsOf(Share(rows, |Used(n)| + 1), Route(Used(n), k))
    case Inner(_, _, _, pivots, kids) =>
      var c := Route(pivots, k);
      var each := Share(rows, |pivots| + 1);
      RowsOf(each, c) + (if c < |kids| then Guess(kids[c].child, k, each) else 0)
  }

  /** The entries that are left of the key's basement. */
  function EntriesBefore(n: Node, k: Key): nat {
    match n
    case Leaf(_, _, _, _, bases) =>
      var c := Route(Used(n), k);
      if c < |bases| then |Flat(bases[..c])| else 0
    case Inner(_, _, _, pivots, kids) =>
      var c := Route(pivots, k);
      if c < |kids| then |KidsEntries(kids[..c])| + EntriesBefore(kids[c].child, k) else 0
  }

  lemma FlatHead(bs: seq<Basement>)
    ensures Flat(bs) == if |bs| == 0 then [] else bs[0].entries + Flat(bs[1..])
  {
  }

  lemma Regroup(a: seq<Entry>, b: seq<Entry>, c: seq<Entry>)
    ensures a + (b + c) == (a + b) + c
  {
  }

  lemma {:induction false} FlatAround(bs: seq<Basement>, c: nat)
    requires c < |bs|
    ensures Flat(bs) == Flat(bs[..c]) + (bs[c].entries + Flat(bs[c + 1..]))
    decreases c
  {
    hide Flat;
    var front, tail := bs[..c], bs[1..];
    FlatHead(bs);
    FlatHead(front);
    if c > 0 {
      FlatAround(tail, c - 1);
      assert tail[..c - 1] == front[1..] && tail[c..] == bs[c + 1..] && tail[c - 1] == bs[c];
      Regroup(bs[0].entries, Flat(front[1..]), bs[c].entries + Flat(bs[c + 1..]));
    }
  }

  lemma BasesLeft(bs: seq<Basement>, ps: seq<Key>, lo: Option<Key>, hi: Option<Key>, k: Key)
    requires BasesOk(bs, ps, lo, hi)
    ensures
      var front := Flat(bs[..Route(ps, k)]);
      Count(front, Below(k)) == |front|
  {
    hide Flat, Count;
    var c := Route(ps, k);
    forall j | 0 <= j < c ensures Within(bs[j].entries, None, Some(ps[j])) && ps[j] < k {
      assert Within(bs[j].entries, LowerOf(ps, lo, j), UpperOf(ps, hi, j));
      assert ps[j] <= ps[c - 1];
    }
    FlatBelow(bs[..c], k);
  }

  lemma BasesRight(bs: seq<Basement>, ps: seq<Key>, lo: Option<Key>, hi: Option<Key>, k: Key)
    requires BasesOk(bs, ps, lo, hi)
    ensures Count(Flat(bs[Route(ps, k) + 1..]), Below(k)) == 0
  {
    hide Flat, Count;
    var c := Route(ps, k);
    var tail := bs[c + 1..];
    forall j, i | 0 <= j < |tail| && 0 <= i < |tail[j].entries| ensures !Below(k)(tail[j].entries[i].key) {
      assert tail[j] == bs[c + 1 + j];
      assert Within(bs[c + 1 + j].entries, LowerOf(ps, lo, c + 1 + j), UpperOf(ps, hi, c + 1 + j));
      assert ps[c] <= ps[c + j];
    }
    NoFlatCount(tail, Below(k));
  }

  lemma LeafBelow(n: Node, lo: Option<Key>, hi: Option<Key>, k: Key)
    requires n.Leaf? && NodeOk(n, lo, hi)
    ensures Count(AllEntries(n), Below(k)) == IndexIn(n, k) + EntriesBefore(n, k)
  {
    hide Flat, Count, Position, NodeOk, Below;
    Shape(n, lo, hi);
    LeafBasesOk(n, lo, hi);
    var c, bs := Route(Used(n), k), n.bases;
    FlatAround(bs, c);
    BasesLeft(bs, Used(n), lo, hi, k);
    BasesRight(bs, Used(n), lo, hi, k);
    CountConcat(Flat(bs[..c]), bs[c].entries + Flat(bs[c + 1..]), Below(k));
    CountConcat(bs[c].entries, Flat(bs[c + 1..]), Below(k));
    PositionCount(bs[c].entries, k);
  }

  lemma PositionCount(es: seq<Entry>, k: Key)
    requires Sorted(es)
    ensures Count(es, Below(k)) == Position(es, k)
  {
    hide Count;
    KeysAround(es, k);
    CountSlice(es, 0, Position(es, k), Below(k));
  }

  lemma {:induction false} FlatBelow(bs: seq<Basement>, k: Key)
    requires forall j, i :: 0 <= j < |bs| && 0 <= i < |bs[j].entries| ==> bs[j].entries[i].key < k
    ensures Count(Flat(bs), Below(k)) == |Flat(bs)|
  {
    if |bs| > 0 {
      CountConcat(bs[0].entries, Flat(bs[1..]), Below(k));
      CountAll(bs[0].entries, Below(k));
      FlatBelow(bs[1..], k);
    }
  }

  lemma {:induction false} KidsBelow(kids: seq<Kid>, k: Key)
    requires forall j, i :: 0 <= j < |kids| && 0 <= i < |AllEntries(kids[j].child)| ==> AllEntries(kids[j].child)[i].key < k
    ensures Count(KidsEntries(kids), Below(k)) == |KidsEntries(kids)|
    decreases |kids|
  {
    hide AllEntries;
    if |kids| > 0 {
      var init, last := kids[..|kids| - 1], kids[|kids| - 1];
      assert forall j :: 0 <= j < |init| ==> init[j] == kids[j];
      CountConcat(KidsEntries(init), AllEntries(last.child), Below(k));
      CountAll(AllEntries(last.child), Below(k));
      KidsBelow(init, k);
    }
  }

  lemma {:induction false} KidsEntriesConcat(a: seq<Kid>, b: seq<Kid>)
    ensures KidsEntries(a + b) == KidsEntries(a) + KidsEntries(b)
    decreases |b|
  {
    hide AllEntries;
    if |b| == 0 {
      assert a + b == a;
    } else {
      assert (a + b)[..|a + b| - 1] == a + b[..|b| - 1];
      KidsEntriesConcat(a, b[..|b| - 1]);
    }
  }

  lemma KidKeys(n: Node, lo: Option<Key>, hi: Option<Key>, k: Key, j: nat)
    requires n.Inner? && NodeOk(n, lo, hi) && j < |n.kids|
    ensures j < Route(n.pivots, k) ==> forall i :: 0 <= i < |AllEntries(n.kids[j].child)| ==> AllEntries(n.kids[j].child)[i].key < k
    ensures j > Route(n.pivots, k) ==> forall i :: 0 <= i < |AllEntries(n.kids[j].child)| ==> k < AllEntries(n.kids[j].child)[i].key
  {
    hide AllEntries;
    var c, klo, khi := Route(n.pivots, k), LowerOf(n.pivots, lo, j), UpperOf(n.pivots, hi, j);
    assert EdgeOk(n.kids[j], klo, khi, n.height - 1);
    EntriesWithin(n.kids[j].child, klo, khi);
    assert j < c ==> n.pivots[j] <= n.pivots[c - 1];
    assert j > c ==> n.pivots[c] <= n.pivots[j - 1];
  }

  /** The true number of entries below a key: those in earlier basements and those in
      front of it in its own. */
  lemma {:induction false} TrueLess(n: Node, lo: Option<Key>, hi: Option<Key>, k: Key)
    requires NodeOk(n, lo, hi)
    ensures Count(AllEntries(n), Below(k)) == IndexIn(n, k) + EntriesBefore(n, k)
    decreases n
  {
    hide Count, AllEntries, NodeOk;
    if n.Leaf? {
      LeafBelow(n, lo, hi, k);
    } else {
      Shape(n, lo, hi);
      var c := Route(n.pivots, k);
      TrueLess(n.kids[c].child, LowerOf(n.pivots, lo, c), UpperOf(n.pivots, hi, c), k);
      forall j | 0 <= j < |n.kids|
        ensures j < c ==> forall i :: 0 <= i < |AllEntries(n.kids[j].child)| ==> AllEntries(n.kids[j].child)[i].key < k
        ensures j > c ==> forall i :: 0 <= i < |AllEntries(n.kids[j].child)| ==> k < AllEntries(n.kids[j].child)[i].key
      {
        KidKeys(n, lo, hi, k, j);
      }
      KidsSplit(n.kids, c, k);
      InnerEntries(n);
    }
  }

  lemma KidsSplit(kids: seq<Kid>, c: nat, k: Key)
    requires c < |kids|
    requires forall j, i :: 0 <= j < c && 0 <= i < |AllEntries(kids[j].child)| ==> AllEntries(kids[j].child)[i].key < k
    requires forall j, i :: c < j < |kids| && 0 <= i < |AllEntries(kids[j].child)| ==> k < AllEntries(kids[j].child)[i].key
    ensures Count(KidsEntries(kids), Below(k)) == |KidsEntries(kids[..c])| + Count(AllEntries(kids[c].child), Below(k))
  {
    hide Count, AllEntries;
    var a, z := kids[..c], kids[c + 1..];
    assert kids == a + ([kids[c]] + z);
    KidsEntriesConcat(a, [kids[c]] + z);
    KidsEntriesConcat([kids[c]], z);
    OneKid(kids[c]);
    CountConcat(KidsEntries(a), AllEntries(kids[c].child) + KidsEntries(z), Below(k));
    CountConcat(AllEntries(kids[c].child), KidsEntries(z), Below(k));
    assert forall j :: 0 <= j < |a| ==> a[j] == kids[j];
    assert forall j :: 0 <= j < |z| ==> z[j] == kids[c + 1 + j];
    KidsBelow(a, k);
    NoKidsCount(z, Below(k));
  }

  lemma OneKid(e: Kid)
    ensures KidsEntries([e]) == AllEntries(e.child)
  {
    assert [e][..0] == [];
  }

  /** toku_ft_keysrange_internal: follows the left key; `mayRight` while the right key
      may still be in the same child. Estimates are added on the way back. */
  method Internal(n: Node, l: Option<Key>, r: Option<Key>, mayRight: bool, rows: nat, inMemory: Basement -> bool,
                  ghost lo: Option<Key>, ghost hi: Option<Key>) returns (m: Numbers)
    requires NodeOk(n, lo, hi) && SmallBasements(n)
    ensures m.single && l.Some? ==>
              Told(m, AllEntries(n), l.value, r) && m.less == IndexIn(n, l.value) + Guess(n, l.value, rows)
    ensures mayRight && l.Some? && r == l ==> m.single
    ensures !mayRight ==> !m.single
    ensures !m.single ==> m.equalRight == 0 && m.greater == 0
    decreases n
  {
    hide AllEntries, Count, NodeOk, Told, SmallBasements, Increasing, Sorted, Route, Share, RowsOf, Position;
    Shape(n, lo, hi);
    SmallParts(n);
    var ps := if n.Leaf? then Used(n) else n.pivots;
    var left, right := Children(ps, l, r, mayRight);
    var perChild := Share(rows, |ps| + 1);
    if n.Leaf? {
      var b := n.bases[left];
      m := LeafPartition(b.entries, l, r, left == right, left == right || inMemory(b), perChild);
      if m.single && l.Some? {
        LeafTold(n, lo, hi, l.value, r, m);
      }
    } else {
      m := Internal(n.kids[left].child, l, r, mayRight && left == right, perChild, inMemory,
                    LowerOf(ps, lo, left), UpperOf(ps, hi, left));
      if m.single && l.Some? {
        InnerTold(n, lo, hi, l.value, r, m);
      }
    }
    m := Extrapolate(m, perChild, left, |ps| - left, if l.Some? then l.value else 0.0, r, AllEntries(n));
  }

  /** Adds the estimates for the children left and right of the one that was searched:
      the middle three numbers change only if they were not exact. */
  method Extrapolate(m: Numbers, perChild: nat, before: nat, after: nat,
                     ghost l: Key, ghost r: Option<Key>, ghost es: seq<Entry>) returns (m': Numbers)
    ensures m'.single == m.single && m'.equalRight == m.equalRight
    ensures m.single && Told(m, es, l, r) ==> Told(m', es, l, r)
    ensures m'.less == m.less + RowsOf(perChild, before)
    ensures !m.single ==> m'.greater == m.greater
  {
    m' := m.(less := m.less + RowsOf(perChild, before));
    m' := if m.single then m'.(greater := m.greater + RowsOf(perChild, after))
          else m'.(middle := m.middle + RowsOf(perChild, after));
  }

  /** The children that the two keys lead to; one past the last child if the right key
      is known to be elsewhere. */
  method Children(ps: seq<Key>, l: Option<Key>, r: Option<Key>, mayRight: bool) returns (left: nat, right: nat)
    requires Increasing(ps)
    ensures left == (if l.Some? then Route(ps, l.value) else 0) && left <= |ps|
    ensures right == if mayRight then RightRoute(ps, r) else |ps| + 1
  {
    assert ps[..|ps|] == ps;
    left, right := 0, |ps| + 1;
    if l.Some? {
      left := WhichChild(ps, |ps| + 1, l.value);
    }
    if mayRight {
      if r.Some? {
        right := WhichChild(ps, |ps| + 1, r.value);
      } else {
        right := |ps|;
      }
    }
  }

  lemma Shape(n: Node, lo: Option<Key>, hi: Option<Key>)
    requires NodeOk(n, lo, hi)
    ensures n.Leaf? ==>
              && |n.bases| == |Used(n)| + 1 && Increasing(Used(n))
              && forall i :: 0 <= i < |n.bases| ==> Sorted(n.bases[i].entries)
    ensures n.Inner? ==>
              && |n.kids| == |n.pivots| + 1 && Increasing(n.pivots)
              && forall i :: 0 <= i < |n.kids| ==> NodeOk(n.kids[i].child, LowerOf(n.pivots, lo, i), UpperOf(n.pivots, hi, i))
  {
    if n.Leaf? {
      LeafBasesOk(n, lo, hi);
    } else {
      forall i | 0 <= i < |n.kids|
        ensures NodeOk(n.kids[i].child, LowerOf(n.pivots, lo, i), UpperOf(n.pivots, hi, i))
      {
        assert EdgeOk(n.kids[i], LowerOf(n.pivots, lo, i), UpperOf(n.pivots, hi, i), n.height - 1);
      }
    }
  }

  /** num_klpairs is an unsigned 32-bit number. */
  ghost predicate SmallBasements(n: Node) {
    match n
    case Leaf(_, _, _, _, bases) => forall i :: 0 <= i < |bases| ==> |bases[i].entries| < UINT32_LIMIT
    case Inner(_, _, _, _, kids) => forall i :: 0 <= i < |kids| ==> SmallBasements(kids[i].child)
  }

  lemma SmallParts(n: Node)
    requires SmallBasements(n)
    ensures n.Leaf? ==> forall i :: 0 <= i < |n.bases| ==> |n.bases[i].entries| < UINT32_LIMIT
    ensures n.Inner? ==> forall i :: 0 <= i < |n.kids| ==> SmallBasements(n.kids[i].child)
  {
  }

  lemma LeafTold(n: Node, lo: Option<Key>, hi: Option<Key>, l: Key, r: Option<Key>, m: Numbers)
    requires n.Leaf? && NodeOk(n, lo, hi) && Route(Used(n), l) == RightRoute(Used(n), r)
    requires Route(Used(n), l) < |n.bases| && Told(m, n.bases[Route(Used(n), l)].entries, l, r)
    ensures Told(m, AllEntries(n), l, r)
  {
    hide AllEntries, Count, NodeOk;
    var a, b := if r.Some? && r.value <= l then r.value else l, if r.Some? && r.value <= l then Some(l) else r;
    RangesBetween(a, b);
    LeafCount(n, lo, hi, a, b, Equal(a));
    LeafCount(n, lo, hi, a, b, StrictlyBetween(a, b));
    if b.Some? {
      LeafCount(n, lo, hi, a, b, Equal(b.value));
      LeafCount(n, lo, hi, a, b, Closed(a, b.value));
      LeafCount(n, lo, hi, a, b, HalfOpen(a, b.value));
    }
  }

  lemma InnerTold(n: Node, lo: Option<Key>, hi: Option<Key>, l: Key, r: Option<Key>, m: Numbers)
    requires n.Inner? && NodeOk(n, lo, hi) && Route(n.pivots, l) == RightRoute(n.pivots, r)
    requires Route(n.pivots, l) < |n.kids| && Told(m, AllEntries(n.kids[Route(n.pivots, l)].child), l, r)
    ensures Told(m, AllEntries(n), l, r)
  {
    hide AllEntries, Count, NodeOk;
    var a, b := if r.Some? && r.value <= l then r.value else l, if r.Some? && r.value <= l then Some(l) else r;
    RangesBetween(a, b);
    InnerCount(n, lo, hi, a, b, Equal(a));
    InnerCount(n, lo, hi, a, b, StrictlyBetween(a, b));
    if b.Some? {
      InnerCount(n, lo, hi, a, b, Equal(b.value));
      InnerCount(n, lo, hi, a, b, Closed(a, b.value));
      InnerCount(n, lo, hi, a, b, HalfOpen(a, b.value));
    }
  }

  /** toku_ft_keysrange; `single` is middle_3_exact. With a left key the flag means that
      the middle three numbers are the exact counts over the whole tree if and only if
      the right key is missing or above the left one, or no entry lies between the two.
      Two equal keys always set the flag. Without a left key, the flag is right if and
      only if the guess for the basements on the left is. */
  method KeysRange(s: State, l: Option<Key>, r: Option<Key>, rows: nat, inMemory: Basement -> bool) returns (m: Numbers)
    requires TreeOk(s) && SmallBasements(s.top.child)
    ensures m.single && l.Some? ==>
              && Told(m, AllEntries(s.top.child), l.value, r)
              && (Exact(m, AllEntries(s.top.child), l.value, r) <==>
                    r.None? || l.value < r.value || Count(AllEntries(s.top.child), Closed(r.value, l.value)) == 0)
    ensures l.Some? && r == l ==>
              && m.single
              && (Exact(m, AllEntries(s.top.child), l.value, r) <==> Count(AllEntries(s.top.child), Equal(l.value)) == 0)
              && (Count(AllEntries(s.top.child), Equal(l.value)) == 1 ==> m.middle == 0xFFFF_FFFF_FFFF_FFFF)
    ensures m.single && l.Some? ==> m.less == IndexIn(s.top.child, l.value) + Guess(s.top.child, l.value, rows)
    ensures m.single && l.None? && r.Some? ==>
              && m.equalLeft == 0 && m.equalRight == Count(AllEntries(s.top.child), Equal(r.value))
              && (m.middle == Count(AllEntries(s.top.child), Below(r.value)) <==>
                    Guess(s.top.child, r.value, rows) == EntriesBefore(s.top.child, r.value))
    decreases l.None? && r.Some?
  {
    hide Count, AllEntries, SmallBasements, EdgeSettled, QueueOk, NodeOk, Guess, IndexIn, EntriesBefore;
    if l.None? && r.Some? {
      var x := KeysRange(s, r, None, rows, inMemory);
      TrueLess(s.top.child, None, None, r.value);
      return Numbers(0, 0, x.less, x.equalLeft, x.middle, x.single);
    }
    m := Internal(s.top.child, l, r, true, rows, inMemory, None, None);
    if m.single && l.Some? {
      ToldExactly(m, AllEntries(s.top.child), l.value, r);
      if r == l {
        SameRange(AllEntries(s.top.child), l.value);
      }
    }
    if !m.single && r.Some? {
      var x := Internal(s.top.child, r, None, false, rows, inMemory, None, None);
      var above := x.equalLeft + x.middle;
      m := Numbers(m.less, m.equalLeft, if m.middle >= above then m.middle - above else 0, x.equalLeft, x.middle, false);
    }
  }

  lemma {:induction false} SameRange(es: seq<Entry>, k: Key)
    ensures Count(es, Closed(k, k)) == Count(es, Equal(k)) && Count(es, HalfOpen(k, k)) == 0
  {
    if |es| > 0 {
      SameRange(es[..|es| - 1], k);
    }
  }
}
