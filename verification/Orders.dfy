/** Any comparison function will do: the keys that occur in a run are finitely many, and
    every strict total order on finitely many keys is the order of some real numbers. */
module Orders {
  import opened Keys

  ghost predicate StrictTotal<T(!new)>(less: (T, T) -> bool) {
    && (forall a :: !less(a, a))
    && (forall a, b, c :: less(a, b) && less(b, c) ==> less(a, c))
    && (forall a, b :: a == b || less(a, b) || less(b, a))
  }

  ghost function Smaller<T(!new)>(pool: set<T>, less: (T, T) -> bool, a: T): set<T> {
    set x | x in pool && less(x, a)
  }

  /** The key's place among the keys of the pool, as a key of the model. */
  ghost function Rank<T(!new)>(pool: set<T>, less: (T, T) -> bool, a: T): Key {
    |Smaller(pool, less, a)| as real
  }

  lemma SubsetSmaller<T>(a: set<T>, b: set<T>)
    requires a < b
    ensures |a| < |b|
  {
    var x :| x in b && x !in a;
    SubsetAtMost(a, b - {x});
  }

  lemma {:induction false} SubsetAtMost<T>(a: set<T>, b: set<T>)
    requires a <= b
    ensures |a| <= |b|
    decreases a
  {
    if a != {} {
      var x :| x in a;
      SubsetAtMost(a - {x}, b - {x});
    }
  }

  /** Comparing keys of the pool is comparing their ranks. */
  lemma RankIsOrder<T(!new)>(pool: set<T>, less: (T, T) -> bool, a: T, b: T)
    requires StrictTotal(less) && a in pool && b in pool
    ensures less(a, b) <==> Rank(pool, less, a) < Rank(pool, less, b)
    ensures a == b <==> Rank(pool, less, a) == Rank(pool, less, b)
  {
    if less(a, b) {
      RankLess(pool, less, a, b);
    } else if less(b, a) {
      RankLess(pool, less, b, a);
    }
  }

  lemma RankLess<T(!new)>(pool: set<T>, less: (T, T) -> bool, a: T, b: T)
    requires StrictTotal(less) && a in pool && b in pool && less(a, b)
    ensures Rank(pool, less, a) < Rank(pool, less, b)
  {
    var sa, sb := Smaller(pool, less, a), Smaller(pool, less, b);
    assert a in sb && a !in sa;
    assert forall x :: x in sa ==> x in sb;
    SubsetSmaller(sa, sb);
  }

  /** Routing as the code does it, with its comparison function. */
  function RouteBy<T(!new)>(ps: seq<T>, less: (T, T) -> bool, k: T): (r: nat)
    ensures r <= |ps|
    ensures r > 0 ==> less(ps[r - 1], k)
    ensures r < |ps| ==> !less(ps[r], k)
  {
    if |ps| == 0 || !less(ps[0], k) then 0 else 1 + RouteBy(ps[1..], less, k)
  }

  ghost function Ranks<T(!new)>(pool: set<T>, less: (T, T) -> bool, ps: seq<T>): (r: seq<Key>)
    ensures |r| == |ps| && forall i :: 0 <= i < |ps| ==> r[i] == Rank(pool, less, ps[i])
  {
    seq(|ps|, i requires 0 <= i < |ps| => Rank(pool, less, ps[i]))
  }

  /** The tree routes a key as the model routes its rank. */
  lemma {:induction false} RouteByRank<T(!new)>(pool: set<T>, less: (T, T) -> bool, ps: seq<T>, k: T)
    requires StrictTotal(less) && k in pool && forall i :: 0 <= i < |ps| ==> ps[i] in pool
    ensures RouteBy(ps, less, k) == Route(Ranks(pool, less, ps), Rank(pool, less, k))
  {
    hide Rank;
    if |ps| > 0 {
      RankIsOrder(pool, less, ps[0], k);
      RouteByRank(pool, less, ps[1..], k);
      assert Ranks(pool, less, ps)[1..] == Ranks(pool, less, ps[1..]);
    }
  }
}
