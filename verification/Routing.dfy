/** The binary searches: for a child of a node, and for an entry of a basement. */
module Routing {
  import opened Keys
  import opened Entries

  /** First pivot above the key, else the child after the last pivot. */
  function NextAbove(ps: seq<Key>, k: Key): (r: nat)
    ensures r <= |ps|
    ensures r > 0 ==> ps[r - 1] <= k
    ensures r < |ps| ==> k < ps[r]
  {
    if |ps| == 0 || k < ps[0] then 0 else 1 + NextAbove(ps[1..], k)
  }

  lemma NextAboveUnique(ps: seq<Key>, k: Key, i: nat)
    requires Increasing(ps) && i <= |ps|
    requires i > 0 ==> ps[i - 1] <= k
    requires i < |ps| ==> k < ps[i]
    ensures NextAbove(ps, k) == i
  {
  }

  /** toku_ftnode_which_child: the last pivot is tried first, then the rest are
      searched. */
  method WhichChild(ps: seq<Key>, n: nat, k: Key) returns (r: nat)
    requires 0 < n <= |ps| + 1 && Increasing(ps[..n - 1])
    ensures r == Route(ps[..n - 1], k)
  {
    var used := ps[..n - 1];
    if n <= 1 {
      return 0;
    }
    if k > ps[n - 2] {
      RouteUnique(used, None, None, k, n - 1);
      return n - 1;
    }
    var lo, hi := 0, n - 2;
    while lo < hi
      invariant 0 <= lo <= hi <= n - 2
      invariant lo > 0 ==> used[lo - 1] < k
      invariant k <= used[hi]
    {
      var mi := (lo + hi) / 2;
      if k > ps[mi] {
        lo := mi + 1;
      } else if k < ps[mi] {
        hi := mi;
      } else {
        RouteUnique(used, None, None, k, mi);
        return mi;
      }
    }
    RouteUnique(used, None, None, k, lo);
    return lo;
  }

  /** toku_ftnode_hot_next_child. */
  method HotNextChild(ps: seq<Key>, k: Key) returns (r: nat)
    requires Increasing(ps)
    ensures r == NextAbove(ps, k)
  {
    var low, hi := 0, |ps|;
    while low < hi
      invariant 0 <= low <= hi <= |ps|
      invariant low > 0 ==> ps[low - 1] <= k
      invariant hi < |ps| ==> k < ps[hi]
    {
      var mi := (low + hi) / 2;
      if k > ps[mi] {
        low := mi + 1;
      } else if k < ps[mi] {
        hi := mi;
      } else {
        NextAboveUnique(ps, k, mi + 1);
        return mi + 1;
      }
    }
    NextAboveUnique(ps, k, low);
    return low;
  }

  /** find_zero: the index of the key or of the first larger one. */
  method FindZero(es: seq<Entry>, k: Key) returns (i: nat, found: bool)
    requires Sorted(es)
    ensures i == Position(es, k) && (found <==> i < |es| && es[i].key == k)
  {
    var lo, hi := 0, |es|;
    while lo < hi
      invariant 0 <= lo <= hi <= |es|
      invariant lo > 0 ==> es[lo - 1].key < k
      invariant hi < |es| ==> k <= es[hi].key
    {
      var mi := (lo + hi) / 2;
      if es[mi].key < k {
        lo := mi + 1;
      } else {
        hi := mi;
      }
    }
    PositionUnique(es, k, lo);
    return lo, lo < |es| && es[lo].key == k;
  }
}
