/** The tree verifier, toku_verify_ft, as it walks the tree: it accepts every tree
    that the protocol can reach. */
module Verify {
  import opened Keys
  import opened Messages
  import opened Entries
  import opened Nodes
  import opened Protocol

  predicate AboveLess(less: Option<Key>, k: Key) {
    less.Some? ==> less.value < k
  }

  predicate UpToGeq(geq: Option<Key>, k: Key) {
    geq.Some? ==> k <= geq.value
  }

  /** verify_msg_in_child_buffer. */
  predicate MessageInPlace(m: Message, less: Option<Key>, geq: Option<Key>) {
    m.msn != 0 && (m.scope.Once? ==> AboveLess(less, m.scope.key) && UpToGeq(geq, m.scope.key))
  }

  /** What the checks of one buffer amount to. */
  ghost predicate BufferVerified(ms: seq<Message>, less: Option<Key>, geq: Option<Key>, thisMsn: nat) {
    && MsnIncreasing(ms)
    && forall i :: 0 <= i < |ms| ==> MessageInPlace(ms[i], less, geq) && ms[i].msn <= thisMsn
  }

  /** verify_msg_fn over one buffer: keeps the MSN of the message before. */
  method VerifyBuffer(ms: seq<Message>, less: Option<Key>, geq: Option<Key>, thisMsn: nat) returns (ok: bool)
    ensures ok <==> BufferVerified(ms, less, geq, thisMsn)
  {
    var last := 0;
    for i := 0 to |ms|
      invariant BufferVerified(ms[..i], less, geq, thisMsn)
      invariant last == if i == 0 then 0 else ms[i - 1].msn
      invariant forall j :: 0 <= j < i ==> ms[j].msn <= last
    {
      var m := ms[i];
      if !MessageInPlace(m, less, geq) || !(m.msn > last) || !(m.msn <= thisMsn) {
        return false;
      }
      last := m.msn;
      assert ms[..i + 1] == ms[..i] + [m];
    }
    assert ms[..|ms|] == ms;
    return true;
  }

  /** What the checks of one basement amount to. */
  ghost predicate EntriesVerified(es: seq<Entry>, less: Option<Key>, geq: Option<Key>, rootMsn: nat, thisMsn: nat) {
    && Sorted(es) && Within(es, less, geq)
    && (|es| > 0 ==> thisMsn <= rootMsn)
  }

  /** The scan of one basement compares neighbours only. */
  method VerifyEntries(es: seq<Entry>, less: Option<Key>, geq: Option<Key>, rootMsn: nat, thisMsn: nat) returns (ok: bool)
    ensures ok <==> EntriesVerified(es, less, geq, rootMsn, thisMsn)
  {
    for j := 0 to |es|
      invariant Sorted(es[..j]) && Within(es[..j], less, geq)
      invariant j > 0 ==> thisMsn <= rootMsn
    {
      if !(rootMsn >= thisMsn) || !AboveLess(less, es[j].key) || !UpToGeq(geq, es[j].key) {
        assert !InRange(less, geq, es[j].key) || thisMsn > rootMsn;
        return false;
      }
      if 0 < j && !(es[j - 1].key < es[j].key) {
        return false;
      }
      assert j > 0 ==> es[..j][j - 1] == es[j - 1];
    }
    assert es[..|es|] == es;
    return true;
  }

  /** The order and the bounds of the pivots that are in use. */
  ghost predicate PivotsVerified(ps: seq<Key>, less: Option<Key>, geq: Option<Key>) {
    Increasing(ps) && forall i :: 0 <= i < |ps| ==> AboveLess(less, ps[i]) && UpToGeq(geq, ps[i])
  }

  method VerifyPivots(ps: seq<Key>, less: Option<Key>, geq: Option<Key>) returns (ok: bool)
    ensures ok <==> PivotsVerified(ps, less, geq)
  {
    var i := 0;
    while i + 1 < |ps|
      invariant 0 <= i <= |ps| && (|ps| > 0 ==> i < |ps|)
      invariant forall x, y :: 0 <= x < y <= i && y < |ps| ==> ps[x] < ps[y]
    {
      if !(ps[i] < ps[i + 1]) {
        return false;
      }
      i := i + 1;
    }
    for j := 0 to |ps|
      invariant forall x :: 0 <= x < j ==> AboveLess(less, ps[x]) && UpToGeq(geq, ps[x])
    {
      if !AboveLess(less, ps[j]) || !UpToGeq(geq, ps[j]) {
        return false;
      }
    }
    return true;
  }

  /** Everything toku_verify_ftnode checks of a node and, recursively, below it.
      `parentMsn` is the MSN of the nearest ancestor with messages on the path,
      `above` whether there is one. */
  ghost predicate NodeVerified(rootMsn: nat, parentMsn: nat, above: bool, n: Node, height: nat,
                               less: Option<Key>, geq: Option<Key>)
    decreases n
  {
    && Height(n) == height
    && (n.Inner? && above ==> n.maxMsn <= parentMsn)
    && match n
       case Leaf(_, maxMsn, _, _, bases) =>
         && PivotsVerified(Used(n), less, geq) && |bases| == |Used(n)| + 1
         && forall i :: 0 <= i < |bases| ==>
              EntriesVerified(bases[i].entries, LowerOf(Used(n), less, i), UpperOf(Used(n), geq, i), rootMsn, maxMsn)
       case Inner(_, _, maxMsn, pivots, kids) =>
         && PivotsVerified(pivots, less, geq) && |kids| == |pivots| + 1 && height > 0
         && (forall i :: 0 <= i < |kids| ==>
               BufferVerified(kids[i].buf, LowerOf(pivots, less, i), UpperOf(pivots, geq, i), maxMsn))
         && (forall i :: 0 <= i < |kids| ==>
               NodeVerified(rootMsn, if |kids[i].buf| > 0 then maxMsn else parentMsn, above || |kids[i].buf| > 0,
                            kids[i].child, height - 1, LowerOf(pivots, less, i), UpperOf(pivots, geq, i)))
  }

  /** The recursive walk. */
  method VerifyNode(rootMsn: nat, parentMsn: nat, above: bool, n: Node, height: nat, less: Option<Key>, geq: Option<Key>)
      returns (ok: bool)
    requires if n.Leaf? then |n.bases| == |Used(n)| + 1 else |n.kids| == |n.pivots| + 1
    requires WellShaped(n)
    ensures ok <==> NodeVerified(rootMsn, parentMsn, above, n, height, less, geq)
    decreases n
  {
    hide EntriesVerified, BufferVerified, PivotsVerified;
    if Height(n) != height || (n.Inner? && above && n.maxMsn > parentMsn) {
      return false;
    }
    var ps := if n.Leaf? then Used(n) else n.pivots;
    ok := VerifyPivots(ps, less, geq);
    if !ok {
      return;
    }
    if n.Leaf? {
      for i := 0 to |n.bases|
        invariant forall j :: 0 <= j < i ==>
                    EntriesVerified(n.bases[j].entries, LowerOf(ps, less, j), UpperOf(ps, geq, j), rootMsn, n.maxMsn)
      {
        ok := VerifyEntries(n.bases[i].entries, LowerOf(ps, less, i), UpperOf(ps, geq, i), rootMsn, n.maxMsn);
        if !ok {
          return;
        }
      }
    } else {
      if height == 0 {
        return false;
      }
      for i := 0 to |n.kids|
        invariant forall j :: 0 <= j < i ==>
                    BufferVerified(n.kids[j].buf, LowerOf(ps, less, j), UpperOf(ps, geq, j), n.maxMsn)
      {
        ok := VerifyBuffer(n.kids[i].buf, LowerOf(ps, less, i), UpperOf(ps, geq, i), n.maxMsn);
        if !ok {
          return;
        }
      }
      for i := 0 to |n.kids|
        invariant forall j :: 0 <= j < i ==>
                    NodeVerified(rootMsn, if |n.kids[j].buf| > 0 then n.maxMsn else parentMsn, above || |n.kids[j].buf| > 0,
                                 n.kids[j].child, height - 1, LowerOf(ps, less, j), UpperOf(ps, geq, j))
      {
        ok := VerifyNode(rootMsn, if |n.kids[i].buf| > 0 then n.maxMsn else parentMsn, above || |n.kids[i].buf| > 0,
                         n.kids[i].child, height - 1, LowerOf(ps, less, i), UpperOf(ps, geq, i));
        if !ok {
          return;
        }
      }
    }
    ok := true;
  }

  /** The arrays of a node have matching lengths, which the walk takes for granted. */
  ghost predicate WellShaped(n: Node) {
    match n
    case Leaf(_, _, _, _, bases) => |bases| == |Used(n)| + 1
    case Inner(_, _, _, pivots, kids) =>
      |kids| == |pivots| + 1 && forall i :: 0 <= i < |kids| ==> WellShaped(kids[i].child)
  }

  // ------------------------------------------------ reachable trees are accepted

  /** The nearest ancestor with messages on the path leaves a mark in the node's
      invariant: some admitted MSN not above the ancestor's. */
  ghost predicate Marked(n: Node, parentMsn: nat, above: bool) {
    above ==> exists c: nat :: c <= parentMsn && Admits(n, c)
  }

  lemma LeafVerified(n: Node, rootMsn: nat, parentMsn: nat, above: bool, less: Option<Key>, geq: Option<Key>)
    requires n.Leaf? && NodeOk(n, less, geq) && Settled(n, rootMsn)
    ensures NodeVerified(rootMsn, parentMsn, above, n, 0, less, geq) && WellShaped(n)
  {
  }

  lemma KidBufferVerified(e: Kid, less: Option<Key>, geq: Option<Key>, h: nat, maxMsn: nat)
    requires EdgeOk(e, less, geq, h) && BufferAtMost(e, maxMsn)
    ensures BufferVerified(e.buf, less, geq, maxMsn)
    ensures |e.buf| > 0 ==> Marked(e.child, maxMsn, true)
  {
    if |e.buf| > 0 {
      assert EdgeAdmits(e, e.buf[0].msn) && e.buf[0].msn <= maxMsn;
    }
  }

  lemma {:induction false} OkVerified(n: Node, rootMsn: nat, parentMsn: nat, above: bool, less: Option<Key>, geq: Option<Key>)
    requires NodeOk(n, less, geq) && Settled(n, rootMsn) && Marked(n, parentMsn, above)
    ensures NodeVerified(rootMsn, parentMsn, above, n, Height(n), less, geq) && WellShaped(n)
    decreases n, 1
  {
    hide BufferVerified, EdgeOk, Settled, Marked, NodeOk;
    if n.Leaf? {
      LeafVerified(n, rootMsn, parentMsn, above, less, geq);
    } else {
      InnerVerified(n, parentMsn, above, less, geq);
      forall i | 0 <= i < |n.kids|
        ensures KidOf(n, i, rootMsn, parentMsn, above, less, geq) && WellShaped(n.kids[i].child)
      {
        KidOkVerified(n, i, rootMsn, parentMsn, above, less, geq);
      }
    }
  }

  /** What the verifier demands of child `i`. */
  ghost predicate KidOf(n: Node, i: nat, rootMsn: nat, parentMsn: nat, above: bool, less: Option<Key>, geq: Option<Key>)
    requires n.Inner? && i < |n.kids| == |n.pivots| + 1 && 0 < n.height
  {
    && BufferVerified(n.kids[i].buf, LowerOf(n.pivots, less, i), UpperOf(n.pivots, geq, i), n.maxMsn)
    && NodeVerified(rootMsn, if |n.kids[i].buf| > 0 then n.maxMsn else parentMsn, above || |n.kids[i].buf| > 0,
                    n.kids[i].child, n.height - 1, LowerOf(n.pivots, less, i), UpperOf(n.pivots, geq, i))
  }

  lemma InnerVerified(n: Node, parentMsn: nat, above: bool, less: Option<Key>, geq: Option<Key>)
    requires n.Inner? && NodeOk(n, less, geq) && Marked(n, parentMsn, above)
    ensures above ==> n.maxMsn <= parentMsn
    ensures 0 < n.height && |n.kids| == |n.pivots| + 1 && Increasing(n.pivots)
    ensures forall i :: 0 <= i < |n.pivots| ==> Inside(less, geq, n.pivots[i])
  {
  }

  lemma KidOkVerified(n: Node, i: nat, rootMsn: nat, parentMsn: nat, above: bool, less: Option<Key>, geq: Option<Key>)
    requires NodeOk(n, less, geq) && Settled(n, rootMsn) && Marked(n, parentMsn, above)
    requires n.Inner? && i < |n.kids| == |n.pivots| + 1 && 0 < n.height
    ensures KidOf(n, i, rootMsn, parentMsn, above, less, geq) && WellShaped(n.kids[i].child)
    decreases n, 0
  {
    hide BufferVerified, EdgeOk, NodeVerified, WellShaped, Settled;
    var e, lo, hi := n.kids[i], LowerOf(n.pivots, less, i), UpperOf(n.pivots, geq, i);
    assert EdgeOk(e, lo, hi, n.height - 1) && BufferAtMost(e, n.maxMsn);
    KidBufferVerified(e, lo, hi, n.height - 1, n.maxMsn);
    KidVerified(n, i, rootMsn, parentMsn, above, lo, hi);
    OkVerified(e.child, rootMsn, if |e.buf| > 0 then n.maxMsn else parentMsn, above || |e.buf| > 0, lo, hi);
  }

  lemma KidVerified(n: Node, i: nat, rootMsn: nat, parentMsn: nat, above: bool, lo: Option<Key>, hi: Option<Key>)
    requires n.Inner? && 0 < n.height && i < |n.kids| && EdgeOk(n.kids[i], lo, hi, n.height - 1)
    requires Settled(n, rootMsn) && Marked(n, parentMsn, above)
    ensures NodeOk(n.kids[i].child, lo, hi) && Settled(n.kids[i].child, rootMsn) && Height(n.kids[i].child) == n.height - 1
    ensures Marked(n.kids[i].child, parentMsn, above)
  {
    assert EdgeSettled(n.kids[i], rootMsn);
    if above {
      var c: nat :| c <= parentMsn && Admits(n, c);
      assert EdgeAdmits(n.kids[i], c);
    }
  }

  /** toku_verify_ft on a state of the protocol. */
  method VerifyFt(s: State) returns (ok: bool)
    requires TreeOk(s)
    ensures ok
  {
    OkVerified(s.top.child, s.maxMsn, s.maxMsn, false, None, None);
    ok := VerifyNode(s.maxMsn, s.maxMsn, false, s.top.child, Height(s.top.child), None, None);
  }

  /** The verifier accepts every tree that any run can produce. */
  lemma ReachableTreesVerify(bn: BlockNum, steps: seq<Step>)
    requires CanRun(Initial(bn), steps)
    ensures
      var s := Run(Initial(bn), steps);
      NodeVerified(s.maxMsn, s.maxMsn, false, s.top.child, Height(s.top.child), None, None)
  {
    hide CanRun, Run, NodeVerified, EdgeSettled, NodeOk, QueueOk;
    TreeMeansItsMessages(bn, steps, 0.0);
    var s := Run(Initial(bn), steps);
    TopOk(s);
    OkVerified(s.top.child, s.maxMsn, s.maxMsn, false, None, None);
  }

  lemma TopOk(s: State)
    requires TreeOk(s)
    ensures NodeOk(s.top.child, None, None) && Settled(s.top.child, s.maxMsn)
  {
  }
}
