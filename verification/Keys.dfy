/** Keys, key ranges and the routing of a key among the children of a node.

    A key is a real number: only its order is used. `ByteKeys` shows that byte
    strings under the tree's default comparison embed into this order, so a
    statement about all keys is a statement about all byte-string keys; `Orders` does the
    same for any other comparison function. */
module Keys {

  type Key = real

  datatype Option<+T> = None | Some(value: T)

  /** A node covers the keys above `lo` (exclusive) and up to `hi` (inclusive);
      `None` is the infinite bound on either side. */
  predicate InRange(lo: Option<Key>, hi: Option<Key>, k: Key) {
    (lo.Some? ==> lo.value < k) && (hi.Some? ==> k <= hi.value)
  }

  /** Strictly between the bounds: what a pivot has to be. */
  predicate Inside(lo: Option<Key>, hi: Option<Key>, k: Key) {
    (lo.Some? ==> lo.value < k) && (hi.Some? ==> k < hi.value)
  }

  ghost predicate Increasing(ps: seq<Key>) {
    forall i, j :: 0 <= i < j < |ps| ==> ps[i] < ps[j]
  }

  /** The child a key belongs to: the first pivot not below the key, else the
      child after the last pivot. */
  function Route(ps: seq<Key>, k: Key): (r: nat)
    ensures r <= |ps|
    ensures r > 0 ==> ps[r - 1] < k
    ensures r < |ps| ==> k <= ps[r]
  {
    if |ps| == 0 || k <= ps[0] then 0 else 1 + Route(ps[1..], k)
  }

  /** Bounds of child `i` of a node with pivots `ps` and bounds `lo`, `hi`. */
  function LowerOf(ps: seq<Key>, lo: Option<Key>, i: nat): Option<Key>
    requires i <= |ps|
  {
    if i == 0 then lo else Some(ps[i - 1])
  }

  function UpperOf(ps: seq<Key>, hi: Option<Key>, i: nat): Option<Key>
    requires i <= |ps|
  {
    if i == |ps| then hi else Some(ps[i])
  }

  lemma RouteInRange(ps: seq<Key>, lo: Option<Key>, hi: Option<Key>, k: Key)
    requires InRange(lo, hi, k)
    ensures InRange(LowerOf(ps, lo, Route(ps, k)), UpperOf(ps, hi, Route(ps, k)), k)
  {
  }

  /** The children's ranges are disjoint: being in range `i` fixes the route. */
  lemma RouteUnique(ps: seq<Key>, lo: Option<Key>, hi: Option<Key>, k: Key, i: nat)
    requires Increasing(ps) && i <= |ps|
    requires InRange(LowerOf(ps, lo, i), UpperOf(ps, hi, i), k)
    ensures Route(ps, k) == i
  {
  }

  /** Routing among the pivots on either side of pivot `h - 1`. */
  lemma RouteCut(ps: seq<Key>, h: nat, k: Key)
    requires Increasing(ps) && 0 < h <= |ps|
    ensures k <= ps[h - 1] ==> Route(ps[..h - 1], k) == Route(ps, k) <= h - 1
    ensures ps[h - 1] < k ==> h <= Route(ps, k) && Route(ps[h..], k) == Route(ps, k) - h
  {
    var r := Route(ps, k);
    if k <= ps[h - 1] {
      RouteUnique(ps[..h - 1], None, None, k, r);
    } else {
      RouteUnique(ps[h..], None, None, k, r - h);
    }
  }

  lemma JoinRoute(ps: seq<Key>, key: Key, qs: seq<Key>, k: Key)
    requires Increasing(ps + [key] + qs)
    ensures Route(ps + [key] + qs, k) == if k <= key then Route(ps, k) else |ps| + 1 + Route(qs, k)
  {
    var all := ps + [key] + qs;
    RouteCut(all, |ps| + 1, k);
    assert all[..|ps|] == ps && all[|ps| + 1..] == qs && all[|ps|] == key;
  }

  /** A child's range lies inside its parent's range. */
  lemma ChildRange(ps: seq<Key>, lo: Option<Key>, hi: Option<Key>, k: Key, i: nat)
    requires Increasing(ps) && i <= |ps|
    requires forall j :: 0 <= j < |ps| ==> Inside(lo, hi, ps[j])
    requires InRange(LowerOf(ps, lo, i), UpperOf(ps, hi, i), k)
    ensures InRange(lo, hi, k)
  {
  }
}

/** Byte-string keys: toku_keycompare is a total order, and it embeds into the
    order of the reals that the rest of the project uses. */
module ByteKeys {
  import opened Bytes

  type ByteKey = Bytes

  /** memcmp over the first `n` bytes of both keys. */
  function MemCmp(a: ByteKey, b: ByteKey, n: nat): int
    requires n <= |a| && n <= |b|
  {
    if n == 0 then 0
    else if a[0] != b[0] then a[0] as int - b[0] as int
    else MemCmp(a[1..], b[1..], n - 1)
  }

  function KeyCompare(a: ByteKey, b: ByteKey): int {
    var n := if |a| < |b| then |a| else |b|;
    var c := MemCmp(a, b, n);
    if c != 0 then c
    else if |a| < |b| then -1
    else if |a| > |b| then 1
    else 0
  }

  /** Reads a key as the digits 1..256 of a base-257 fraction. */
  function Embed(a: ByteKey): (r: real)
    ensures 0.0 <= r < 1.0
  {
    if |a| == 0 then 0.0 else ((a[0] as int + 1) as real + Embed(a[1..])) / 257.0
  }

  lemma KeyCompareStep(a: ByteKey, b: ByteKey)
    requires |a| > 0 && |b| > 0
    ensures a[0] == b[0] ==> KeyCompare(a, b) == KeyCompare(a[1..], b[1..])
    ensures a[0] != b[0] ==> KeyCompare(a, b) == a[0] as int - b[0] as int
  {
  }

  /** Comparing keys is comparing their embeddings. */
  lemma {:induction false} KeyCompareIsRealOrder(a: ByteKey, b: ByteKey)
    ensures KeyCompare(a, b) < 0 <==> Embed(a) < Embed(b)
    ensures KeyCompare(a, b) > 0 <==> Embed(a) > Embed(b)
    ensures KeyCompare(a, b) == 0 <==> a == b
  {
    if |a| == 0 || |b| == 0 {
    } else {
      KeyCompareStep(a, b);
      if a[0] == b[0] {
        KeyCompareIsRealOrder(a[1..], b[1..]);
        assert a == [a[0]] + a[1..] && b == [b[0]] + b[1..];
      } else if a[0] < b[0] {
        assert (a[0] as int + 1) as real + 1.0 <= (b[0] as int + 1) as real;
      } else {
        assert (b[0] as int + 1) as real + 1.0 <= (a[0] as int + 1) as real;
      }
    }
  }

  /** toku_keycompare is a strict total order on byte strings. */
  lemma KeyCompareTotalOrder(a: ByteKey, b: ByteKey, c: ByteKey)
    ensures KeyCompare(a, b) < 0 <==> KeyCompare(b, a) > 0
    ensures KeyCompare(a, b) == 0 <==> a == b
    ensures KeyCompare(a, b) < 0 && KeyCompare(b, c) < 0 ==> KeyCompare(a, c) < 0
  {
    KeyCompareIsRealOrder(a, b);
    KeyCompareIsRealOrder(b, a);
    KeyCompareIsRealOrder(b, c);
    KeyCompareIsRealOrder(a, c);
  }
}
