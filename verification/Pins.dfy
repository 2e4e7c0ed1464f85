/** Which nodes are locked, and how a step at one place leaves the locks, the
    buffers and the bounds everywhere else alone. */
module Pins {
  import opened Keys
  import opened Messages
  import opened Nodes
  import opened PutMsg
  import opened Paths
  import opened Query
  import opened Protocol

  /** Nothing at or below this edge, respectively below this node, is locked. */
  predicate QuietEdge(e: Kid) {
    e.pin.Free? && Quiet(e.child)
  }

  predicate Quiet(n: Node) {
    n.Inner? ==> forall i :: 0 <= i < |n.kids| ==> QuietEdge(n.kids[i])
  }

  /** Nothing outside the edge that the path leads to is locked. */
  predicate Around(top: Kid, path: Path)
    requires ValidPath(top, path)
    decreases path
  {
    |path| == 0
    || (&& top.pin.Free?
        && (forall j :: 0 <= j < |top.child.kids| && j != path[0] ==> QuietEdge(top.child.kids[j]))
        && Around(top.child.kids[path[0]], path[1..]))
  }

  lemma {:induction false} AroundQuiet(top: Kid, path: Path)
    requires ValidPath(top, path) && Around(top, path) && QuietEdge(EdgeAt(top, path))
    ensures QuietEdge(top)
    decreases path
  {
    if |path| > 0 {
      AroundQuiet(top.child.kids[path[0]], path[1..]);
    }
  }

  lemma {:induction false} QuietAround(top: Kid, path: Path)
    requires ValidPath(top, path) && QuietEdge(top)
    ensures Around(top, path) && QuietEdge(EdgeAt(top, path)) && FreePath(top, path)
    decreases path
  {
    if |path| > 0 {
      QuietAround(top.child.kids[path[0]], path[1..]);
    }
  }

  /** Nothing is locked on the way to the path's end, nor at or below it. */
  predicate QuietBelow(top: Kid, path: Path) {
    ValidPath(top, path) && FreePath(top, path) && QuietEdge(EdgeAt(top, path))
  }

  lemma {:induction false} FreeReplaced(top: Kid, path: Path, e: Kid)
    requires ValidPath(top, path) && FreePath(top, path) && e.pin.Free?
    ensures ValidPath(ReplaceAt(top, path, e), path) && FreePath(ReplaceAt(top, path, e), path)
    decreases path
  {
    if |path| > 0 {
      FreeReplaced(top.child.kids[path[0]], path[1..], e);
    }
  }

  lemma {:induction false} QuietBelowKid(top: Kid, path: Path, i: nat)
    requires QuietBelow(top, path) && EdgeAt(top, path).child.Inner? && i < |EdgeAt(top, path).child.kids|
    ensures QuietBelow(top, path + [i]) && OthersQuiet(EdgeAt(top, path).child, i, i)
    decreases path
  {
    if |path| > 0 {
      assert (path + [i])[1..] == path[1..] + [i];
      QuietBelowKid(top.child.kids[path[0]], path[1..], i);
    } else {
      assert (path + [i])[1..] == [];
      assert Quiet(top.child) && QuietEdge(top.child.kids[i]);
    }
  }

  /** Once the edge is unlocked and only kid `i` is locked below it, nothing
      outside kid `i` is locked. */
  lemma {:induction false} AroundKid(top: Kid, path: Path, i: nat)
    requires ValidPath(top, path) && Around(top, path)
    requires
      var e := EdgeAt(top, path);
      && e.pin.Free? && e.child.Inner? && i < |e.child.kids|
      && (forall j :: 0 <= j < |e.child.kids| && j != i ==> QuietEdge(e.child.kids[j]))
    ensures ValidPath(top, path + [i]) && Around(top, path + [i])
    ensures EdgeAt(top, path + [i]) == EdgeAt(top, path).child.kids[i]
    decreases path
  {
    if |path| > 0 {
      assert (path + [i])[1..] == path[1..] + [i];
      AroundKid(top.child.kids[path[0]], path[1..], i);
    } else {
      assert (path + [i])[1..] == [];
    }
  }

  /** Descending one more step. */
  lemma {:induction false} KidPath(top: Kid, path: Path, i: nat, lo: Option<Key>, hi: Option<Key>)
    requires ValidPath(top, path)
    requires
      var e := EdgeAt(top, path);
      e.child.Inner? && i < |e.child.kids| == |e.child.pivots| + 1
    ensures ValidPath(top, path + [i])
    ensures
      var e := EdgeAt(top, path);
      && EdgeAt(top, path + [i]) == e.child.kids[i]
      && LoAt(top, path + [i], lo) == LowerOf(e.child.pivots, LoAt(top, path, lo), i)
      && HiAt(top, path + [i], hi) == UpperOf(e.child.pivots, HiAt(top, path, hi), i)
      && (EmptyPath(top, path + [i]) <==> EmptyPath(top, path) && |e.child.kids[i].buf| == 0)
    decreases path
  {
    if |path| > 0 {
      assert (path + [i])[1..] == path[1..] + [i];
      var n := top.child;
      KidPath(n.kids[path[0]], path[1..], i,
              if path[0] <= |n.pivots| then LowerOf(n.pivots, lo, path[0]) else lo,
              if path[0] <= |n.pivots| then UpperOf(n.pivots, hi, path[0]) else hi);
    } else {
      assert (path + [i])[1..] == [];
    }
  }

  /** Two trees that differ only at and below the path's end: all buffers, locks and
      nodes elsewhere are the same. */
  ghost predicate SameOutside(top: Kid, top': Kid, path: Path) {
    && ValidPath(top, path) && ValidPath(top', path)
    && top' == ReplaceAt(top, path, EdgeAt(top', path))
    && (Around(top', path) <==> Around(top, path))
    && LoAt(top', path, None) == LoAt(top, path, None)
    && HiAt(top', path, None) == HiAt(top, path, None)
    && (EdgeAt(top', path).buf == EdgeAt(top, path).buf ==> (EmptyPath(top', path) <==> EmptyPath(top, path)))
    && (AllLast(top', path) <==> AllLast(top, path))
    && (forall k :: Routed(top', path, k) <==> Routed(top, path, k))
  }

  lemma {:induction false} ReplaceTwice(top: Kid, path: Path, e: Kid, f: Kid)
    requires ValidPath(top, path)
    ensures ValidPath(ReplaceAt(top, path, e), path)
    ensures ReplaceAt(ReplaceAt(top, path, e), path, f) == ReplaceAt(top, path, f)
    decreases path
  {
    if |path| > 0 {
      var n, i := top.child, path[0];
      ReplaceTwice(n.kids[i], path[1..], e, f);
      var x, y := ReplaceAt(n.kids[i], path[1..], e), ReplaceAt(n.kids[i], path[1..], f);
      assert n.kids[i := x][i := y] == n.kids[i := y];
    }
  }

  lemma {:induction false} ReplaceSelf(top: Kid, path: Path)
    requires ValidPath(top, path)
    ensures ReplaceAt(top, path, EdgeAt(top, path)) == top
    decreases path
  {
    if |path| > 0 {
      var n, i := top.child, path[0];
      ReplaceSelf(n.kids[i], path[1..]);
      assert n.kids[i := n.kids[i]] == n.kids;
    }
  }

  lemma {:induction false} Replaced(top: Kid, path: Path, e: Kid, lo: Option<Key>, hi: Option<Key>)
    requires ValidPath(top, path)
    ensures
      var top' := ReplaceAt(top, path, e);
      && ValidPath(top', path) && EdgeAt(top', path) == e
      && (Around(top', path) <==> Around(top, path))
      && LoAt(top', path, lo) == LoAt(top, path, lo)
      && HiAt(top', path, hi) == HiAt(top, path, hi)
      && (e.buf == EdgeAt(top, path).buf ==> (EmptyPath(top', path) <==> EmptyPath(top, path)))
      && (AllLast(top', path) <==> AllLast(top, path))
    decreases path
  {
    hide QuietEdge;
    if |path| > 0 {
      var n := top.child;
      Replaced(n.kids[path[0]], path[1..], e,
               if path[0] <= |n.pivots| then LowerOf(n.pivots, lo, path[0]) else lo,
               if path[0] <= |n.pivots| then UpperOf(n.pivots, hi, path[0]) else hi);
      var kid' := ReplaceAt(n.kids[path[0]], path[1..], e);
      var n' := SetKid(n, path[0], kid');
      assert n'.kids[path[0]] == kid' && forall j :: 0 <= j < |n.kids| && j != path[0] ==> n'.kids[j] == n.kids[j];
    }
  }

  lemma ReplacedOutside(top: Kid, path: Path, e: Kid)
    requires ValidPath(top, path)
    ensures SameOutside(top, ReplaceAt(top, path, e), path)
    ensures EdgeAt(ReplaceAt(top, path, e), path) == e
  {
    hide Around, ReplaceAt, EdgeAt, LoAt, HiAt, EmptyPath, ValidPath, Routed, AllLast;
    Replaced(top, path, e, None, None);
    forall k ensures Routed(ReplaceAt(top, path, e), path, k) <==> Routed(top, path, k) {
      ReplaceValid(top, path, e, k);
    }
  }

  /** Changes at and below the path's end that leave nothing locked there. */
  lemma StaysQuiet(top: Kid, top': Kid, path: Path)
    requires QuietBelow(top, path) && SameOutside(top, top', path) && QuietEdge(EdgeAt(top', path))
    ensures QuietBelow(top', path)
  {
    FreeReplaced(top, path, EdgeAt(top', path));
  }

  lemma StaysEmpty(top: Kid, top': Kid, path: Path)
    requires SameOutside(top, top', path) && EdgeAt(top', path).buf == EdgeAt(top, path).buf && EmptyPath(top, path)
    ensures EmptyPath(top', path)
  {
  }

  lemma KidAt(top: Kid, path: Path, i: nat)
    requires ValidPath(top, path)
    requires EdgeAt(top, path).child.Inner? && i < |EdgeAt(top, path).child.kids|
    ensures ValidPath(top, path + [i]) && EdgeAt(top, path + [i]) == EdgeAt(top, path).child.kids[i]
  {
    ReplaceKid(top, path, i, top);
  }

  /** A step on kid `i` is a step on the edge above it. */
  lemma {:induction false} ReplaceKid(top: Kid, path: Path, i: nat, kid: Kid)
    requires ValidPath(top, path)
    requires EdgeAt(top, path).child.Inner? && i < |EdgeAt(top, path).child.kids|
    ensures ValidPath(top, path + [i]) && EdgeAt(top, path + [i]) == EdgeAt(top, path).child.kids[i]
    ensures
      var e := EdgeAt(top, path);
      ReplaceAt(top, path + [i], kid) == ReplaceAt(top, path, e.(child := SetKid(e.child, i, kid)))
    decreases path
  {
    if |path| > 0 {
      assert (path + [i])[1..] == path[1..] + [i];
      ReplaceKid(top.child.kids[path[0]], path[1..], i, kid);
    } else {
      assert (path + [i])[1..] == [];
    }
  }

  /** No message is above the end of an unlocked path with empty buffers. */
  lemma {:induction false} NothingAbove(top: Kid, path: Path)
    requires ValidPath(top, path) && Around(top, path) && EmptyPath(top, path)
    ensures AboveMsgs(top, path) == [] && |EdgeAt(top, path).buf| == 0
    decreases path
  {
    if |path| > 0 {
      NothingAbove(top.child.kids[path[0]], path[1..]);
    }
  }

  /** Every key in the range of the path's end is routed along the path. */
  lemma {:induction false} InRangeRouted(top: Kid, path: Path, lo: Option<Key>, hi: Option<Key>, h: nat, k: Key)
    requires ValidPath(top, path) && EdgeOk(top, lo, hi, h) && InRange(LoAt(top, path, lo), HiAt(top, path, hi), k)
    ensures Routed(top, path, k) && InRange(lo, hi, k)
    decreases path
  {
    hide EdgeOk;
    if |path| > 0 {
      var n, i := top.child, path[0];
      KidOk(top, i, lo, hi, h);
      InRangeRouted(n.kids[i], path[1..], LowerOf(n.pivots, lo, i), UpperOf(n.pivots, hi, i), h - 1, k);
      RouteUnique(n.pivots, lo, hi, k, i);
      ChildRange(n.pivots, lo, hi, k, i);
    }
  }

  // -------------------------------------------------- locks and node changes

  lemma {:induction false} PutAllQuiet(n: Node, ms: seq<Message>)
    requires Quiet(n)
    ensures Quiet(PutAll(n, ms))
  {
    if |ms| > 0 {
      PutAllQuiet(n, ms[..|ms| - 1]);
      var n1, n2 := PutAll(n, ms[..|ms| - 1]), PutAll(n, ms);
      if n.Inner? {
        forall i | 0 <= i < |n2.kids| ensures QuietEdge(n2.kids[i]) {
          assert QuietEdge(n1.kids[i]);
        }
      }
    }
  }

  /** The edge is locked and nothing else is. */
  predicate Alone(e: Kid) {
    e.pin.Held? && |e.pin.inflight| == 0 && e.child.Inner? && Quiet(e.child)
  }

  /** The kids other than `i`, and other than `j`, are unlocked all the way down. */
  predicate OthersQuiet(n: Node, i: nat, j: nat) {
    n.Inner? && forall x :: 0 <= x < |n.kids| && x != i && x != j ==> QuietEdge(n.kids[x])
  }

  /** A locked kid with nothing left in flight and nothing locked below it. */
  predicate AloneKid(e: Kid, i: nat) {
    && e.child.Inner? && i < |e.child.kids|
    && e.child.kids[i].pin.Held? && |e.child.kids[i].pin.inflight| == 0 && |e.child.kids[i].buf| == 0
    && Quiet(e.child.kids[i].child)
  }
}
