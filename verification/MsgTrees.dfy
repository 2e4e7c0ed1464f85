/** The index structures of a child's message buffer: fresh and stale messages in trees
    ordered by key and MSN, broadcasts in a list. A query finds in them the messages it
    has to apply to a basement, and applies them in MSN order or, if only one tree is
    concerned, in the order of that tree. */
module MsgTrees {
  import opened Keys
  import opened Messages
  import opened Entries
  import opened Nodes
  import opened Query

  // ------------------------------------------------- sequences in a common order

  lemma {:induction false} OrderedSame<T(!new)>(a: seq<T>, b: seq<T>, less: (T, T) -> bool)
    requires forall x, y :: less(x, y) ==> !less(y, x)
    requires forall i, j :: 0 <= i < j < |a| ==> less(a[i], a[j])
    requires forall i, j :: 0 <= i < j < |b| ==> less(b[i], b[j])
    requires forall x :: x in a <==> x in b
    ensures a == b
    decreases |a|
  {
    BothEmpty(a, b);
    if |a| > 0 {
      var m, n := |a| - 1, |b| - 1;
      SameLast(a, b, less);
      forall x ensures x in a[..m] <==> x in b[..n] {
        assert x in a[..m] ==> less(x, a[m]) && x in b;
        assert x in b[..n] ==> less(x, b[n]) && x in a;
      }
      OrderedSame(a[..m], b[..n], less);
      assert a == a[..m] + [a[m]] && b == b[..n] + [b[n]];
    }
  }

  lemma BothEmpty<T(!new)>(a: seq<T>, b: seq<T>)
    requires forall x :: x in a <==> x in b
    ensures |a| == 0 <==> |b| == 0
  {
    if |a| > 0 {
      assert a[0] in a;
    }
    if |b| > 0 {
      assert b[0] in b;
    }
  }

  lemma SameLast<T(!new)>(a: seq<T>, b: seq<T>, less: (T, T) -> bool)
    requires |a| > 0 && |b| > 0 && forall x, y :: less(x, y) ==> !less(y, x)
    requires forall i, j :: 0 <= i < j < |a| ==> less(a[i], a[j])
    requires forall i, j :: 0 <= i < j < |b| ==> less(b[i], b[j])
    requires forall x :: x in a <==> x in b
    ensures a[|a| - 1] == b[|b| - 1]
  {
    var m, n := |a| - 1, |b| - 1;
    assert a[m] in b && b[n] in a;
    var i :| 0 <= i < |b| && b[i] == a[m];
    var j :| 0 <= j < |a| && a[j] == b[n];
  }

  /** Sorted entries are determined by what each key of the range finds in them. */
  lemma SameEntries(es: seq<Entry>, fs: seq<Entry>, lo: Option<Key>, hi: Option<Key>)
    requires Sorted(es) && Sorted(fs) && Within(es, lo, hi) && Within(fs, lo, hi)
    requires forall k :: InRange(lo, hi, k) ==> Lookup(es, k) == Lookup(fs, k)
    ensures es == fs
  {
    hide Lookup;
    forall e ensures e in es <==> e in fs {
      EntryFound(es, fs, e);
      EntryFound(fs, es, e);
    }
    OrderedSame(es, fs, (a: Entry, b: Entry) => a.key < b.key);
  }

  lemma EntryFound(es: seq<Entry>, fs: seq<Entry>, e: Entry)
    requires Sorted(es) && e in es ==> Lookup(es, e.key) == Lookup(fs, e.key)
    requires Sorted(es)
    ensures e in es ==> e in fs
  {
    if e in es {
      var i :| 0 <= i < |es| && es[i] == e;
      LookupAt(es, i);
    }
  }

  // ------------------------------------------- the messages that matter for a key

  /** The messages for key `k` that are newer than `c`, in order. */
  function Newer(ms: seq<Message>, c: nat, k: Key): seq<Message> {
    if |ms| == 0 then []
    else
      var m := ms[|ms| - 1];
      Newer(ms[..|ms| - 1], c, k) + (if Relevant(m, k) && m.msn > c then [m] else [])
  }

  lemma {:induction false} NewerReplay(ms: seq<Message>, c: nat, k: Key, v: Option<LeafEntry>)
    ensures ReplayNewer(Newer(ms, c, k), c, k, v) == ReplayNewer(ms, c, k, v)
  {
    if |ms| > 0 {
      var init, m := ms[..|ms| - 1], ms[|ms| - 1];
      NewerReplay(init, c, k, v);
      ReplayNewerConcat(Newer(init, c, k), if Relevant(m, k) && m.msn > c then [m] else [], c, k, v);
    }
  }

  lemma {:induction false} NewerIn(ms: seq<Message>, c: nat, k: Key)
    ensures forall m :: m in Newer(ms, c, k) <==> m in ms && Relevant(m, k) && m.msn > c
  {
    if |ms| > 0 {
      NewerIn(ms[..|ms| - 1], c, k);
      assert ms == ms[..|ms| - 1] + [ms[|ms| - 1]];
    }
  }

  /** Messages for one key come in MSN order. */
  ghost predicate InOrder(ms: seq<Message>, k: Key) {
    forall i, j :: 0 <= i < j < |ms| && Relevant(ms[i], k) && Relevant(ms[j], k) ==> ms[i].msn < ms[j].msn
  }

  lemma {:induction false} NewerOrder(ms: seq<Message>, c: nat, k: Key)
    requires InOrder(ms, k)
    ensures MsnIncreasing(Newer(ms, c, k))
  {
    if |ms| > 0 {
      var init, m := ms[..|ms| - 1], ms[|ms| - 1];
      assert InOrder(init, k) by { InOrderPrefix(ms, k); }
      NewerOrder(init, c, k);
      NewerIn(init, c, k);
      if Relevant(m, k) {
        forall i | 0 <= i < |Newer(init, c, k)| ensures Newer(init, c, k)[i].msn < m.msn {
          assert Newer(init, c, k)[i] in Newer(init, c, k);
          LastIsNewest(ms, Newer(init, c, k)[i], k);
        }
      }
    }
  }

  lemma InOrderPrefix(ms: seq<Message>, k: Key)
    requires InOrder(ms, k) && |ms| > 0
    ensures InOrder(ms[..|ms| - 1], k)
  {
  }

  lemma LastIsNewest(ms: seq<Message>, x: Message, k: Key)
    requires InOrder(ms, k) && |ms| > 0 && x in ms[..|ms| - 1] && Relevant(x, k) && Relevant(ms[|ms| - 1], k)
    ensures x.msn < ms[|ms| - 1].msn
  {
    var i :| 0 <= i < |ms| - 1 && ms[i] == x;
  }

  /** Two sequences with the same newer messages for a key, each in MSN order for that
      key, do the same to it. */
  lemma SameReplay(a: seq<Message>, b: seq<Message>, c: nat, k: Key, v: Option<LeafEntry>)
    requires InOrder(a, k) && InOrder(b, k)
    requires forall m :: Relevant(m, k) && m.msn > c ==> (m in a <==> m in b)
    ensures ReplayNewer(a, c, k, v) == ReplayNewer(b, c, k, v)
  {
    NewerReplay(a, c, k, v);
    NewerReplay(b, c, k, v);
    NewerOrder(a, c, k);
    NewerOrder(b, c, k);
    NewerIn(a, c, k);
    NewerIn(b, c, k);
    OrderedSame(Newer(a, c, k), Newer(b, c, k), (x: Message, y: Message) => x.msn < y.msn);
  }

  // --------------------------------------------------- choosing from the buffer

  ghost predicate ValidOffsets(buf: seq<Message>, offs: seq<nat>) {
    forall p :: 0 <= p < |offs| ==> offs[p] < |buf|
  }

  function Pick(buf: seq<Message>, offs: seq<nat>): (ms: seq<Message>)
    requires ValidOffsets(buf, offs)
    ensures |ms| == |offs| && forall p :: 0 <= p < |offs| ==> ms[p] == buf[offs[p]]
  {
    seq(|offs|, p requires 0 <= p < |offs| => buf[offs[p]])
  }

  /** The choice `offs` has every newer message that concerns the range, and for every
      key in MSN order. */
  ghost predicate Selects(buf: seq<Message>, offs: seq<nat>, c: nat, lo: Option<Key>, hi: Option<Key>) {
    && ValidOffsets(buf, offs)
    && (forall i :: 0 <= i < |buf| && buf[i].msn > c && Concerns(buf[i], lo, hi) ==> i in offs)
    && (forall k :: InOrder(Pick(buf, offs), k))
  }

  /** Applying such a choice is applying the whole buffer in MSN order. */
  lemma SelectedSame(es: seq<Entry>, c: nat, lo: Option<Key>, hi: Option<Key>, buf: seq<Message>, offs: seq<nat>)
    requires Sorted(es) && Within(es, lo, hi) && MsnIncreasing(buf) && Selects(buf, offs, c, lo, hi)
    ensures Absorb(es, c, lo, hi, Pick(buf, offs)) == Absorb(es, c, lo, hi, buf)
  {
    hide Absorb, Lookup, Sorted, Within, ReplayNewer, Selects;
    assert ValidOffsets(buf, offs) by { SelectedValid(buf, offs, c, lo, hi); }
    var ms := Pick(buf, offs);
    forall k | InRange(lo, hi, k)
      ensures Lookup(Absorb(es, c, lo, hi, ms), k) == Lookup(Absorb(es, c, lo, hi, buf), k)
    {
      AbsorbOk(es, c, lo, hi, ms, k);
      AbsorbOk(es, c, lo, hi, buf, k);
      SelectedFor(buf, offs, c, lo, hi, k);
      SameReplay(ms, buf, c, k, Lookup(es, k));
    }
    AbsorbKeeps(es, c, lo, hi, ms);
    AbsorbKeeps(es, c, lo, hi, buf);
    SameEntries(Absorb(es, c, lo, hi, ms), Absorb(es, c, lo, hi, buf), lo, hi);
  }

  lemma SelectedValid(buf: seq<Message>, offs: seq<nat>, c: nat, lo: Option<Key>, hi: Option<Key>)
    requires Selects(buf, offs, c, lo, hi)
    ensures ValidOffsets(buf, offs)
  {
  }

  lemma SelectedFor(buf: seq<Message>, offs: seq<nat>, c: nat, lo: Option<Key>, hi: Option<Key>, k: Key)
    requires MsnIncreasing(buf) && Selects(buf, offs, c, lo, hi) && InRange(lo, hi, k)
    ensures ValidOffsets(buf, offs) && InOrder(Pick(buf, offs), k) && InOrder(buf, k)
    ensures forall m :: Relevant(m, k) && m.msn > c ==> (m in Pick(buf, offs) <==> m in buf)
  {
    var ms := Pick(buf, offs);
    forall m | Relevant(m, k) && m.msn > c && m in buf ensures m in ms {
      var i :| 0 <= i < |buf| && buf[i] == m;
      assert i in offs;
      var p :| 0 <= p < |offs| && offs[p] == i;
      assert ms[p] == m;
    }
    forall m | m in ms ensures m in buf {
      var p :| 0 <= p < |ms| && ms[p] == m;
      assert buf[offs[p]] == m;
    }
  }

  lemma {:induction false} AbsorbKeeps(es: seq<Entry>, c: nat, lo: Option<Key>, hi: Option<Key>, ms: seq<Message>)
    requires Sorted(es) && Within(es, lo, hi)
    ensures Sorted(Absorb(es, c, lo, hi, ms)) && Within(Absorb(es, c, lo, hi, ms), lo, hi)
  {
    if |ms| > 0 {
      AbsorbKeeps(es, c, lo, hi, ms[..|ms| - 1]);
      if Concerns(ms[|ms| - 1], lo, hi) {
        ApplyToEntriesOk(Absorb(es, c, lo, hi, ms[..|ms| - 1]), ms[|ms| - 1], lo, hi, 0.0);
      }
    }
  }

  // ------------------------------------------------------------------ the trees

  /** key_msn_cmp is negative. */
  predicate Earlier(a: Message, b: Message) {
    && a.scope.Once? && b.scope.Once?
    && (a.scope.key < b.scope.key || (a.scope.key == b.scope.key && a.msn < b.msn))
  }

  /** A message tree: offsets of single-key messages, ordered by key and MSN. */
  ghost predicate Indexed(buf: seq<Message>, tree: seq<nat>) {
    && ValidOffsets(buf, tree)
    && (forall p :: 0 <= p < |tree| ==> buf[tree[p]].scope.Once?)
    && (forall p, q :: 0 <= p < q < |tree| ==> Earlier(buf[tree[p]], buf[tree[q]]))
  }

  /** The broadcast list. */
  ghost predicate Listed(buf: seq<Message>, list: seq<nat>) {
    && ValidOffsets(buf, list)
    && (forall p :: 0 <= p < |list| ==> !buf[list[p]].scope.Once?)
    && (forall p, q :: 0 <= p < q < |list| ==> list[p] != list[q])
  }

  /** Every message is in one structure, the one of its kind. */
  ghost predicate Placed(buf: seq<Message>, young: seq<nat>, aged: seq<nat>, list: seq<nat>) {
    forall i :: 0 <= i < |buf| ==>
      if buf[i].scope.Once? then (i in young) != (i in aged) else i in list
  }

  ghost predicate Flagged(flags: seq<bool>, young: seq<nat>, aged: seq<nat>, marks: set<nat>) {
    && (forall i :: i in young && i < |flags| ==> (flags[i] <==> i !in marks))
    && (forall i :: i in aged && i < |flags| ==> !flags[i])
    && (forall i :: i in marks ==> i in young)
  }

  /** The first message of a tree with a key above the bound. */
  method FirstAbove(buf: seq<Message>, tree: seq<nat>, bound: Key) returns (p: nat)
    requires Indexed(buf, tree)
    ensures p <= |tree|
    ensures forall q :: 0 <= q < |tree| ==> (bound < buf[tree[q]].scope.key <==> p <= q)
  {
    var min, limit := 0, |tree|;
    while min != limit
      invariant 0 <= min <= limit <= |tree|
      invariant forall q :: 0 <= q < min ==> buf[tree[q]].scope.key <= bound
      invariant forall q :: limit <= q < |tree| ==> bound < buf[tree[q]].scope.key
      decreases limit - min
    {
      var mid := (min + limit) / 2;
      assert forall q :: 0 <= q < mid ==> Earlier(buf[tree[q]], buf[tree[mid]]);
      assert forall q :: mid < q < |tree| ==> Earlier(buf[tree[mid]], buf[tree[q]]);
      if buf[tree[mid]].scope.key <= bound {
        min := mid + 1;
      } else {
        limit := mid;
      }
    }
    p := min;
  }

  /** find_bounds_within_message_tree: the part of a tree with keys in the range. */
  method FindBounds(buf: seq<Message>, tree: seq<nat>, lo: Option<Key>, hi: Option<Key>) returns (lbi: nat, ube: nat)
    requires Indexed(buf, tree)
    ensures lbi <= ube <= |tree|
    ensures forall p :: 0 <= p < |tree| ==> (InRange(lo, hi, buf[tree[p]].scope.key) <==> lbi <= p < ube)
  {
    lbi := 0;
    if lo.Some? {
      lbi := FirstAbove(buf, tree, lo.value);
      if lbi == |tree| {
        return 0, 0;
      }
      if hi.Some? && buf[tree[lbi]].scope.key > hi.value {
        assert forall q :: lbi < q < |tree| ==> Earlier(buf[tree[lbi]], buf[tree[q]]);
        return 0, 0;
      }
    }
    ube := |tree|;
    if hi.Some? {
      ube := FirstAbove(buf, tree, hi.value);
    }
  }

  lemma PartInOrder(buf: seq<Message>, tree: seq<nat>, a: nat, b: nat, k: Key)
    requires Indexed(buf, tree) && a <= b <= |tree|
    ensures ValidOffsets(buf, tree[a..b]) && InOrder(Pick(buf, tree[a..b]), k)
  {
    var part := tree[a..b];
    assert forall p :: 0 <= p < |part| ==> part[p] == tree[a + p];
    var ms := Pick(buf, part);
    forall p, q | 0 <= p < q < |ms| && Relevant(ms[p], k) && Relevant(ms[q], k) ensures ms[p].msn < ms[q].msn {
      assert Earlier(buf[tree[a + p]], buf[tree[a + q]]);
    }
  }

  // -------------------------------------------------------------- sorting by MSN

  ghost predicate ByMsn(buf: seq<Message>, offs: seq<nat>) {
    ValidOffsets(buf, offs) && forall p, q :: 0 <= p < q < |offs| ==> buf[offs[p]].msn < buf[offs[q]].msn
  }

  function InsertByMsn(buf: seq<Message>, offs: seq<nat>, x: nat): (r: seq<nat>)
    requires ValidOffsets(buf, offs) && x < |buf|
    ensures ValidOffsets(buf, r) && |r| == |offs| + 1
  {
    if |offs| == 0 then [x]
    else
      var n := |offs| - 1;
      if buf[offs[n]].msn < buf[x].msn then offs + [x] else InsertByMsn(buf, offs[..n], x) + [offs[n]]
  }

  lemma {:induction false} InsertByMsnIn(buf: seq<Message>, offs: seq<nat>, x: nat)
    requires ValidOffsets(buf, offs) && x < |buf|
    ensures forall y :: y in InsertByMsn(buf, offs, x) <==> y == x || y in offs
  {
    if |offs| > 0 {
      var n := |offs| - 1;
      InsertByMsnIn(buf, offs[..n], x);
      assert offs == offs[..n] + [offs[n]];
    }
  }

  lemma AppendByMsn(buf: seq<Message>, offs: seq<nat>, x: nat)
    requires ByMsn(buf, offs) && x < |buf| && forall y :: y in offs ==> y < |buf| && buf[y].msn < buf[x].msn
    ensures ByMsn(buf, offs + [x])
  {
    assert forall p :: 0 <= p < |offs| ==> offs[p] in offs;
  }

  lemma {:induction false} InsertByMsnOk(buf: seq<Message>, offs: seq<nat>, x: nat)
    requires ByMsn(buf, offs) && x < |buf| && MsnIncreasing(buf) && x !in offs
    ensures ByMsn(buf, InsertByMsn(buf, offs, x))
  {
    if |offs| > 0 {
      var n := |offs| - 1;
      LastByMsn(buf, offs);
      if buf[offs[n]].msn < buf[x].msn {
        AppendByMsn(buf, offs, x);
      } else {
        hide ByMsn, MsnIncreasing;
        DifferentMsn(buf, offs[n], x);
        InsertByMsnOk(buf, offs[..n], x);
        InsertByMsnIn(buf, offs[..n], x);
        AppendByMsn(buf, InsertByMsn(buf, offs[..n], x), offs[n]);
      }
    }
  }

  lemma DifferentMsn(buf: seq<Message>, i: nat, j: nat)
    requires MsnIncreasing(buf) && i < |buf| && j < |buf| && i != j
    ensures buf[i].msn != buf[j].msn
  {
  }

  lemma LastByMsn(buf: seq<Message>, offs: seq<nat>)
    requires ByMsn(buf, offs) && |offs| > 0
    ensures
      var n := |offs| - 1;
      && ByMsn(buf, offs[..n]) && offs[n] in offs && offs[n] < |buf|
      && forall y :: y in offs[..n] ==> y < |buf| && buf[y].msn < buf[offs[n]].msn
    ensures forall y :: y in offs ==> y < |buf| && buf[y].msn <= buf[offs[|offs| - 1]].msn
  {
  }

  /** The sort of the collected offsets by MSN. */
  method SortByMsn(buf: seq<Message>, offs: seq<nat>) returns (r: seq<nat>)
    requires ValidOffsets(buf, offs) && MsnIncreasing(buf)
    requires forall p, q :: 0 <= p < q < |offs| ==> offs[p] != offs[q]
    ensures ByMsn(buf, r) && forall y :: y in r <==> y in offs
  {
    r := [];
    for p := 0 to |offs|
      invariant ByMsn(buf, r) && forall y :: y in r <==> y in offs[..p]
    {
      InsertByMsnOk(buf, r, offs[p]);
      InsertByMsnIn(buf, r, offs[p]);
      assert offs[..p + 1] == offs[..p] + [offs[p]];
      r := InsertByMsn(buf, r, offs[p]);
    }
    assert offs[..|offs|] == offs;
  }

  lemma ByMsnInOrder(buf: seq<Message>, offs: seq<nat>, k: Key)
    requires ByMsn(buf, offs)
    ensures InOrder(Pick(buf, offs), k)
  {
  }

  // ------------------------------------------------------------------ tree inserts

  /** Two messages of one buffer are in order one way or the other. */
  lemma EitherEarlier(buf: seq<Message>, i: nat, j: nat)
    requires MsnIncreasing(buf) && i < |buf| && j < |buf| && i != j && buf[i].scope.Once? && buf[j].scope.Once?
    ensures Earlier(buf[i], buf[j]) || Earlier(buf[j], buf[i])
  {
  }

  lemma SplicedIn(tree: seq<nat>, p: nat, x: nat)
    requires p <= |tree|
    ensures forall y :: y in tree[..p] + [x] + tree[p..] <==> y == x || y in tree
  {
    assert tree == tree[..p] + tree[p..];
  }

  lemma SplicedIndexed(buf: seq<Message>, tree: seq<nat>, p: nat, x: nat)
    requires Indexed(buf, tree) && p <= |tree| && x < |buf| && buf[x].scope.Once?
    requires forall q :: 0 <= q < p ==> Earlier(buf[tree[q]], buf[x])
    requires forall q :: p <= q < |tree| ==> Earlier(buf[x], buf[tree[q]])
    ensures Indexed(buf, tree[..p] + [x] + tree[p..])
  {
    hide Earlier;
    var r := tree[..p] + [x] + tree[p..];
    assert forall q :: 0 <= q < p ==> r[q] == tree[q];
    assert forall q :: p < q < |r| ==> r[q] == tree[q - 1];
    assert r[p] == x;
  }

  /** Insertion into a message tree by key and MSN. */
  method InsertOffset(buf: seq<Message>, tree: seq<nat>, x: nat) returns (r: seq<nat>)
    requires Indexed(buf, tree) && MsnIncreasing(buf) && x < |buf| && buf[x].scope.Once? && x !in tree
    ensures Indexed(buf, r) && forall y :: y in r <==> y == x || y in tree
  {
    hide Earlier;
    var min, limit := 0, |tree|;
    while min != limit
      invariant 0 <= min <= limit <= |tree|
      invariant forall q :: 0 <= q < min ==> Earlier(buf[tree[q]], buf[x])
      invariant forall q :: limit <= q < |tree| ==> Earlier(buf[x], buf[tree[q]])
      decreases limit - min
    {
      var mid := (min + limit) / 2;
      EitherEarlier(buf, tree[mid], x);
      if Earlier(buf[tree[mid]], buf[x]) {
        EarlierBelow(buf, tree, mid, x);
        min := mid + 1;
      } else {
        EarlierAbove(buf, tree, mid, x);
        limit := mid;
      }
    }
    SplicedIndexed(buf, tree, min, x);
    SplicedIn(tree, min, x);
    r := tree[..min] + [x] + tree[min..];
  }

  lemma EarlierBelow(buf: seq<Message>, tree: seq<nat>, p: nat, x: nat)
    requires Indexed(buf, tree) && p < |tree| && x < |buf| && Earlier(buf[tree[p]], buf[x])
    ensures forall q :: 0 <= q <= p ==> Earlier(buf[tree[q]], buf[x])
  {
    forall q | 0 <= q < p ensures Earlier(buf[tree[q]], buf[x]) {
      assert Earlier(buf[tree[q]], buf[tree[p]]);
    }
  }

  lemma EarlierAbove(buf: seq<Message>, tree: seq<nat>, p: nat, x: nat)
    requires Indexed(buf, tree) && p < |tree| && x < |buf| && Earlier(buf[x], buf[tree[p]])
    ensures forall q :: p <= q < |tree| ==> Earlier(buf[x], buf[tree[q]])
  {
    forall q | p < q < |tree| ensures Earlier(buf[x], buf[tree[q]]) {
      assert Earlier(buf[tree[p]], buf[tree[q]]);
    }
  }

  /** A longer buffer leaves the structures as they were. */
  lemma IndexedMore(buf: seq<Message>, m: Message, tree: seq<nat>)
    ensures Indexed(buf, tree) ==> Indexed(buf + [m], tree) && |buf| !in tree
    ensures Listed(buf, tree) ==> Listed(buf + [m], tree) && |buf| !in tree
  {
    hide Earlier;
    if ValidOffsets(buf, tree) {
      assert forall p :: 0 <= p < |tree| ==> (buf + [m])[tree[p]] == buf[tree[p]];
    }
  }

  // -------------------------------------------------------- collecting for a query

  lemma PartIn(buf: seq<Message>, tree: seq<nat>, a: nat, b: nat, lo: Option<Key>, hi: Option<Key>)
    requires Indexed(buf, tree) && a <= b <= |tree|
    requires forall p :: 0 <= p < |tree| ==> (InRange(lo, hi, buf[tree[p]].scope.key) <==> a <= p < b)
    ensures forall i :: i in tree[a..b] ==> i in tree && i < |buf| && Concerns(buf[i], lo, hi)
    ensures forall i :: i in tree && i < |buf| && Concerns(buf[i], lo, hi) ==> i in tree[a..b]
  {
    hide Earlier;
    forall i | i in tree && i < |buf| && Concerns(buf[i], lo, hi) ensures i in tree[a..b] {
      var p :| 0 <= p < |tree| && tree[p] == i;
      assert tree[a..b][p - a] == i;
    }
    forall i | i in tree[a..b] ensures i in tree && i < |buf| && Concerns(buf[i], lo, hi) {
      var p :| 0 <= p < |tree[a..b]| && tree[a..b][p] == i;
      assert tree[a + p] == i;
    }
  }

  ghost predicate NoRepeats(offs: seq<nat>) {
    forall p, q :: 0 <= p < q < |offs| ==> offs[p] != offs[q]
  }

  lemma PartOnce(buf: seq<Message>, tree: seq<nat>, a: nat, b: nat)
    requires Indexed(buf, tree) && a <= b <= |tree|
    ensures NoRepeats(tree[a..b]) && ValidOffsets(buf, tree[a..b])
  {
    var part := tree[a..b];
    forall p, q | 0 <= p < q < |part| ensures part[p] != part[q] {
      assert Earlier(buf[tree[a + p]], buf[tree[a + q]]);
    }
  }

  lemma ApartConcat(x: seq<nat>, y: seq<nat>)
    requires NoRepeats(x) && NoRepeats(y) && forall i :: i in x ==> i !in y
    ensures NoRepeats(x + y)
  {
    var xy := x + y;
    forall p, q | 0 <= p < q < |xy| ensures xy[p] != xy[q] {
      if p < |x| <= q {
        assert xy[p] in x && xy[q] in y;
      }
    }
  }

  /** `part` is the part of a tree that concerns the range, but for messages not above `c`. */
  ghost predicate PartOf(buf: seq<Message>, tree: seq<nat>, part: seq<nat>, c: int, lo: Option<Key>, hi: Option<Key>) {
    && ValidOffsets(buf, part) && NoRepeats(part)
    && (forall i :: i in part ==> i in tree && i < |buf| && Concerns(buf[i], lo, hi))
    && (forall i :: i in tree && i < |buf| && Concerns(buf[i], lo, hi) && buf[i].msn > c ==> i in part)
    && (forall k :: InOrder(Pick(buf, part), k))
  }

  lemma RangeIsPart(buf: seq<Message>, tree: seq<nat>, a: nat, b: nat, lo: Option<Key>, hi: Option<Key>)
    requires Indexed(buf, tree) && a <= b <= |tree|
    requires forall p :: 0 <= p < |tree| ==> (InRange(lo, hi, buf[tree[p]].scope.key) <==> a <= p < b)
    ensures PartOf(buf, tree, tree[a..b], -1, lo, hi)
  {
    hide Indexed, InOrder, Concerns;
    PartIn(buf, tree, a, b, lo, hi);
    PartOnce(buf, tree, a, b);
    forall k ensures InOrder(Pick(buf, tree[a..b]), k) {
      PartInOrder(buf, tree, a, b, k);
    }
  }

  /** Which messages are applied, and in which order. */
  method Collect(buf: seq<Message>, ghost young: seq<nat>, ghost aged: seq<nat>, list: seq<nat>,
                 youngPart: seq<nat>, agedPart: seq<nat>, ghost c: nat, ghost lo: Option<Key>, ghost hi: Option<Key>)
      returns (offs: seq<nat>)
    requires MsnIncreasing(buf) && Listed(buf, list) && Indexed(buf, young) && Indexed(buf, aged)
    requires Placed(buf, young, aged, list)
    requires PartOf(buf, young, youngPart, -1, lo, hi) && PartOf(buf, aged, agedPart, c, lo, hi)
    ensures Selects(buf, offs, c, lo, hi)
    ensures forall i :: i in offs ==> i < |buf| && (buf[i].scope.Nothing? || Concerns(buf[i], lo, hi))
    ensures forall i :: i in young ==> (i in offs <==> i in youngPart)
  {
    hide Indexed, InOrder, PartOf;
    PartFacts(buf, young, youngPart, -1, lo, hi);
    PartFacts(buf, aged, agedPart, c, lo, hi);
    TreeFacts(buf, young);
    TreeFacts(buf, aged);
    if |list| > 0 || (|agedPart| > 0 && |youngPart| > 0) {
      ApartConcat(agedPart, youngPart);
      ApartConcat(agedPart + youngPart, list);
      offs := SortByMsn(buf, agedPart + youngPart + list);
      forall k ensures InOrder(Pick(buf, offs), k) {
        ByMsnInOrder(buf, offs, k);
      }
    } else if |agedPart| == 0 {
      offs := youngPart;
    } else {
      offs := agedPart;
    }
  }

  lemma PartFacts(buf: seq<Message>, tree: seq<nat>, part: seq<nat>, c: int, lo: Option<Key>, hi: Option<Key>)
    requires PartOf(buf, tree, part, c, lo, hi)
    ensures ValidOffsets(buf, part) && NoRepeats(part)
    ensures forall i :: i in part ==> i in tree && i < |buf| && Concerns(buf[i], lo, hi)
    ensures forall i :: i in tree && i < |buf| && Concerns(buf[i], lo, hi) && buf[i].msn > c ==> i in part
    ensures forall k :: InOrder(Pick(buf, part), k)
  {
  }

  lemma TreeFacts(buf: seq<Message>, tree: seq<nat>)
    requires Indexed(buf, tree)
    ensures forall i :: i in tree ==> i < |buf| && buf[i].scope.Once?
  {
  }

  // ------------------------------------------------------------ the child's info

  /** What a query looks at in a basement besides its entries: the range of its keys, its
      MSN, and stale_ancestor_messages_applied. */
  datatype Reader = Reader(lo: Option<Key>, hi: Option<Key>, msn: nat, staleApplied: bool)

  ghost predicate Apart(a: Reader, b: Reader) {
    forall k :: InRange(a.lo, a.hi, k) ==> !InRange(b.lo, b.hi, k)
  }

  /** NONLEAF_CHILDINFO. `buf` is the message buffer, whose offsets are positions here;
      `marks` are the messages of the fresh tree that a query has applied. */
  class ChildInfo {
    var buf: seq<Message>
    var flags: seq<bool>
    var freshTree: seq<nat>
    var staleTree: seq<nat>
    var broadcasts: seq<nat>
    var marks: set<nat>

    ghost predicate Indices()
      reads this
    {
      && |flags| == |buf| && MsnIncreasing(buf)
      && Indexed(buf, freshTree) && Indexed(buf, staleTree) && Listed(buf, broadcasts)
      && Placed(buf, freshTree, staleTree, broadcasts)
    }

    ghost predicate Valid()
      reads this
    {
      Indices() && Flagged(flags, freshTree, staleTree, marks)
    }

    /** A basement that is said to have seen all stale messages has seen those of its range,
        and the marked ones, which are the next to become stale. */
    ghost predicate Seen(b: Reader)
      reads this
    {
      b.staleApplied ==>
        forall i :: (i in staleTree || i in marks) && i < |buf| && Concerns(buf[i], b.lo, b.hi) ==> buf[i].msn <= b.msn
    }

    constructor ()
      ensures Valid() && buf == [] && marks == {} && forall b :: Seen(b)
    {
      buf, flags, freshTree, staleTree, broadcasts, marks := [], [], [], [], [], {};
    }

    /** bnc_insert_msg. */
    method InsertMsg(m: Message, isFresh: bool)
      requires Valid() && forall i :: 0 <= i < |buf| ==> buf[i].msn < m.msn
      modifies this
      ensures Valid() && buf == old(buf) + [m] && flags == old(flags) + [isFresh] && marks == old(marks)
      ensures forall b: Reader ::
                && old(Seen(b))
                && (isFresh || !m.scope.Once? || (b.staleApplied && Concerns(m, b.lo, b.hi) ==> m.msn <= b.msn))
                ==> Seen(b)
    {
      hide Indexed, Listed, Earlier;
      var x := |buf|;
      IndexedMore(buf, m, freshTree);
      IndexedMore(buf, m, staleTree);
      IndexedMore(buf, m, broadcasts);
      buf, flags := buf + [m], flags + [isFresh];
      if m.scope.Once? {
        if isFresh {
          freshTree := InsertOffset(buf, freshTree, x);
        } else {
          staleTree := InsertOffset(buf, staleTree, x);
        }
      } else {
        ListedMore(buf, broadcasts, x);
        broadcasts := broadcasts + [x];
      }
    }

    /** do_bn_apply_msg for each of the offsets: filtered by the basement's MSN, and
        counted as seen from then on. */
    method ApplyOffsets(offs: seq<nat>, es: seq<Entry>, c: nat, ghost lo: Option<Key>, ghost hi: Option<Key>)
        returns (r: seq<Entry>)
      requires |flags| == |buf| && ValidOffsets(buf, offs)
      requires forall p :: 0 <= p < |offs| ==> buf[offs[p]].scope.Nothing? || Concerns(buf[offs[p]], lo, hi)
      modifies this`flags
      ensures r == Absorb(es, c, lo, hi, Pick(buf, offs))
      ensures |flags| == |buf| && forall i :: 0 <= i < |buf| ==> (flags[i] <==> old(flags[i]) && i !in offs)
    {
      r := es;
      var f := flags;
      ghost var ms := Pick(buf, offs);
      for p := 0 to |offs|
        invariant r == Absorb(es, c, lo, hi, ms[..p])
        invariant |f| == |buf| && forall i :: 0 <= i < |buf| ==> (f[i] <==> flags[i] && i !in offs[..p])
      {
        assert ms[..p + 1][..p] == ms[..p];
        assert offs[..p + 1] == offs[..p] + [offs[p]];
        if buf[offs[p]].msn > c {
          r := ApplyToEntries(r, buf[offs[p]]);
        }
        f := f[offs[p] := false];
      }
      assert ms[..|offs|] == ms && offs[..|offs|] == offs;
      flags := f;
    }

    /** bnc_apply_messages_to_basement_node: whichever structures it reads, in whichever
        order, the basement ends up as if the whole buffer had been applied in MSN order. */
    method ApplyTo(es: seq<Entry>, b: Reader) returns (r: seq<Entry>)
      requires Valid() && Seen(b) && Sorted(es) && Within(es, b.lo, b.hi)
      modifies this`flags, this`marks
      ensures Valid() && r == Absorb(es, b.msn, b.lo, b.hi, buf)
      ensures forall i :: i in marks <==> i in old(marks) || (i in freshTree && i < |buf| && Concerns(buf[i], b.lo, b.hi))
      ensures forall x: Reader :: old(Seen(x)) && Apart(b, x) ==> Seen(x)
    {
      hide Indexed, Listed, Earlier, Sorted, Within, Absorb, Selects, Concerns, MsnIncreasing, PartOf, Apart;
      var c, lo, hi, staleApplied := b.msn, b.lo, b.hi, b.staleApplied;
      var slo, shi := 0, 0;
      if !staleApplied {
        slo, shi := FindBounds(buf, staleTree, lo, hi);
      }
      var flo, fhi := FindBounds(buf, freshTree, lo, hi);
      var stalePart, freshPart := staleTree[slo..shi], freshTree[flo..fhi];
      RangeIsPart(buf, freshTree, flo, fhi, lo, hi);
      StalePart(buf, staleTree, slo, shi, c, lo, hi, staleApplied);
      var offs := Collect(buf, freshTree, staleTree, broadcasts, freshPart, stalePart, c, lo, hi);
      PartFacts(buf, freshTree, freshPart, -1, lo, hi);
      TreeFacts(buf, freshTree);
      SelectedSame(es, c, lo, hi, buf, offs);
      SelectedValid(buf, offs, c, lo, hi);
      forall x: Reader, i | Apart(b, x) && i in freshPart ensures !Concerns(buf[i], x.lo, x.hi) {
        NotConcerned(buf[i], b, x);
      }
      marks := marks + set i | i in freshPart;
      r := ApplyOffsets(offs, es, c, lo, hi);
    }

    /** toku_ft_bnc_move_messages_to_stale: the messages that queries have applied go from
        the fresh tree to the stale one. */
    method MoveToStale()
      requires Valid()
      modifies this`freshTree, this`staleTree, this`marks
      ensures Valid() && marks == {}
      ensures forall i :: i in staleTree <==> i in old(staleTree) || i in old(marks)
      ensures forall i :: i in freshTree <==> i in old(freshTree) && i !in old(marks)
      ensures forall b: Reader :: old(Seen(b)) ==> Seen(b)
    {
      hide Indexed, Listed, Earlier, MsnIncreasing;
      TreeFacts(buf, freshTree);
      freshTree, staleTree := SplitMarked(buf, freshTree, staleTree, marks);
      marks := {};
    }

    /** What the verifier wants to know about flags and marks. */
    ghost predicate FlagsVerified(moved: bool)
      reads this
      requires |flags| == |buf|
    {
      && (moved ==> marks == {} && forall i :: i in freshTree && i < |buf| ==> flags[i])
      && (forall i :: i in staleTree && i < |buf| ==> !flags[i])
      && (forall i :: i in marks && i < |buf| ==> !flags[i])
    }

    /** The checks of the tree verifier on the structures of one buffer, after marked
        messages have been moved or before. */
    method VerifyTrees(moved: bool) returns (ok: bool)
      requires |flags| == |buf| && MsnIncreasing(buf)
      requires ValidOffsets(buf, freshTree) && ValidOffsets(buf, staleTree) && ValidOffsets(buf, broadcasts)
      requires forall i :: i in marks ==> i in freshTree
      ensures ok <==> Indices() && FlagsVerified(moved)
      ensures Valid() && (moved ==> marks == {}) ==> ok
      ensures moved && ok ==> Valid()
    {
      hide Indexed, Earlier, MsnIncreasing, Listed, Placed;
      var freshSorted := VerifySorted(buf, freshTree);
      var staleSorted := VerifySorted(buf, staleTree);
      if !freshSorted || !staleSorted {
        return false;
      }
      var messages := VerifyMessages(buf, flags, freshTree, staleTree, broadcasts, moved);
      var freshFlags := !moved || AllFlagged(flags, freshTree, true);
      var staleFlags := AllFlagged(flags, staleTree, false);
      var list := AllBroadcast(buf, broadcasts);
      var marked := if moved then marks == {} else AllUnset(flags, marks);
      ok := messages && freshFlags && staleFlags && list && marked;
      FlagsOf(flags, freshTree, true);
      FlagsOf(flags, staleTree, false);
      TreeFacts(buf, freshTree);
      TreeFacts(buf, staleTree);
      if freshFlags && staleFlags {
        VerifiedIndices(buf, flags, freshTree, staleTree, broadcasts, moved);
      }
    }
  }

  // ----------------------------------------------------------- the verifier's checks

  /** verify_sorted_by_key_msn, and that the tree has single-key messages only. */
  method VerifySorted(buf: seq<Message>, tree: seq<nat>) returns (ok: bool)
    requires ValidOffsets(buf, tree)
    ensures ok <==> Indexed(buf, tree)
  {
    hide Earlier;
    for p := 0 to |tree|
      invariant Indexed(buf, tree[..p])
    {
      if !buf[tree[p]].scope.Once? || (p > 0 && !Earlier(buf[tree[p - 1]], buf[tree[p]])) {
        return false;
      }
      if p > 0 {
        assert tree[..p][p - 1] == tree[p - 1];
        EarlierBelow(buf, tree[..p], p - 1, tree[p]);
      }
      SplicedIndexed(buf, tree[..p], p, tree[p]);
      assert tree[..p][..p] + [tree[p]] + tree[..p][p..] == tree[..p + 1];
    }
    assert tree[..|tree|] == tree;
    return true;
  }

  /** count_eq_key_msn. */
  method CountKeyMsn(buf: seq<Message>, tree: seq<nat>, i: nat) returns (n: nat)
    requires Indexed(buf, tree) && MsnIncreasing(buf) && i < |buf| && buf[i].scope.Once?
    ensures n == if i in tree then 1 else 0
  {
    hide Earlier;
    var min, limit := 0, |tree|;
    while min != limit
      invariant 0 <= min <= limit <= |tree| && (i in tree ==> i in tree[min..limit])
      decreases limit - min
    {
      var mid := (min + limit) / 2;
      if tree[mid] == i {
        return 1;
      }
      EitherEarlier(buf, tree[mid], i);
      if Earlier(buf[tree[mid]], buf[i]) {
        EarlierBelow(buf, tree, mid, i);
        NarrowUp(buf, tree, min, mid, limit, i);
        min := mid + 1;
      } else {
        EarlierAbove(buf, tree, mid, i);
        NarrowDown(buf, tree, min, mid, limit, i);
        limit := mid;
      }
    }
    return 0;
  }

  lemma NarrowUp(buf: seq<Message>, tree: seq<nat>, min: nat, mid: nat, limit: nat, i: nat)
    requires ValidOffsets(buf, tree) && min <= mid < limit <= |tree| && i < |buf|
    requires forall q :: 0 <= q <= mid ==> Earlier(buf[tree[q]], buf[i])
    ensures i in tree[min..limit] ==> i in tree[mid + 1..limit]
  {
    if i in tree[min..limit] {
      var q :| min <= q < limit && tree[q] == i;
      assert q > mid;
      assert tree[mid + 1..limit][q - mid - 1] == i;
    }
  }

  lemma NarrowDown(buf: seq<Message>, tree: seq<nat>, min: nat, mid: nat, limit: nat, i: nat)
    requires ValidOffsets(buf, tree) && min <= mid < limit <= |tree| && i < |buf|
    requires forall q :: mid <= q < |tree| ==> Earlier(buf[i], buf[tree[q]])
    ensures i in tree[min..limit] ==> i in tree[min..mid]
  {
    if i in tree[min..limit] {
      var q :| min <= q < limit && tree[q] == i;
      assert q < mid;
      assert tree[min..mid][q - min] == i;
    }
  }

  /** count_msgs over the broadcast list. */
  method CountMsn(buf: seq<Message>, list: seq<nat>, i: nat) returns (n: nat)
    requires ValidOffsets(buf, list) && MsnIncreasing(buf) && i < |buf|
    ensures n == multiset(list)[i]
  {
    n := 0;
    for p := 0 to |list|
      invariant n == multiset(list[..p])[i]
    {
      assert list[..p + 1] == list[..p] + [list[p]];
      assert buf[list[p]].msn == buf[i].msn <==> list[p] == i;
      if buf[list[p]].msn == buf[i].msn {
        n := n + 1;
      }
    }
    assert list[..|list|] == list;
  }

  /** What the verifier checks of one message. */
  ghost predicate MessageOk(buf: seq<Message>, flags: seq<bool>, young: seq<nat>, aged: seq<nat>, list: seq<nat>,
                            moved: bool, i: nat)
    requires i < |buf| == |flags|
  {
    if buf[i].scope.Once? then
      && (i in young) != (i in aged)
      && (flags[i] ==> i in young)
      && (moved && !flags[i] ==> i in aged)
    else multiset(list)[i] == 1
  }

  method VerifyMessage(buf: seq<Message>, flags: seq<bool>, young: seq<nat>, aged: seq<nat>, list: seq<nat>,
                       moved: bool, i: nat) returns (ok: bool)
    requires i < |buf| == |flags| && MsnIncreasing(buf)
    requires Indexed(buf, young) && Indexed(buf, aged) && ValidOffsets(buf, list)
    ensures ok <==> MessageOk(buf, flags, young, aged, list, moved, i)
  {
    if buf[i].scope.Once? {
      var count := CountKeyMsn(buf, young, i);
      var total := count;
      if (flags[i] && count != 1) || (!flags[i] && moved && count != 0) || count > 1 {
        return false;
      }
      count := CountKeyMsn(buf, aged, i);
      total := total + count;
      if (flags[i] && count != 0) || (!flags[i] && moved && count != 1) || count > 1 {
        return false;
      }
      return total == 1;
    } else {
      var count := CountMsn(buf, list, i);
      return count == 1;
    }
  }

  method VerifyMessages(buf: seq<Message>, flags: seq<bool>, young: seq<nat>, aged: seq<nat>, list: seq<nat>,
                        moved: bool) returns (ok: bool)
    requires |buf| == |flags| && MsnIncreasing(buf)
    requires Indexed(buf, young) && Indexed(buf, aged) && ValidOffsets(buf, list)
    ensures ok <==> forall i :: 0 <= i < |buf| ==> MessageOk(buf, flags, young, aged, list, moved, i)
  {
    hide MessageOk, Indexed, MsnIncreasing, ValidOffsets;
    for i := 0 to |buf|
      invariant forall j :: 0 <= j < i ==> MessageOk(buf, flags, young, aged, list, moved, j)
    {
      var one := VerifyMessage(buf, flags, young, aged, list, moved, i);
      if !one {
        return false;
      }
    }
    return true;
  }

  predicate AllFlagged(flags: seq<bool>, offs: seq<nat>, isFresh: bool) {
    forall p :: 0 <= p < |offs| ==> offs[p] < |flags| && flags[offs[p]] == isFresh
  }

  predicate AllUnset(flags: seq<bool>, marks: set<nat>) {
    forall i :: i in marks ==> i < |flags| && !flags[i]
  }

  predicate AllBroadcast(buf: seq<Message>, list: seq<nat>) {
    forall p :: 0 <= p < |list| ==> list[p] < |buf| && !buf[list[p]].scope.Once?
  }

  lemma OnceInList(list: seq<nat>, i: nat)
    ensures i in list <==> multiset(list)[i] >= 1
    ensures NoRepeats(list) ==> multiset(list)[i] <= 1
    ensures multiset(list)[i] <= 1 ==> forall p, q :: 0 <= p < q < |list| && list[p] == i ==> list[q] != i
  {
    forall p, q | 0 <= p < q < |list| && list[p] == list[q] == i ensures multiset(list)[i] >= 2 {
      assert list == list[..p] + [i] + list[p + 1..q] + [i] + list[q + 1..];
    }
    if multiset(list)[i] >= 2 {
      Twice(list, i);
    }
  }

  lemma {:induction false} Twice(list: seq<nat>, i: nat)
    requires multiset(list)[i] >= 2
    ensures exists p, q :: 0 <= p < q < |list| && list[p] == list[q] == i
  {
    var n := |list| - 1;
    assert list == list[..n] + [list[n]];
    if list[n] != i {
      Twice(list[..n], i);
    } else {
      assert i in multiset(list[..n]);
      var p :| 0 <= p < n && list[p] == i;
    }
  }

  /** The checks together say exactly that the structures index the buffer. */
  lemma VerifiedIndices(buf: seq<Message>, flags: seq<bool>, young: seq<nat>, aged: seq<nat>, list: seq<nat>, moved: bool)
    requires |buf| == |flags| && Indexed(buf, young) && Indexed(buf, aged) && ValidOffsets(buf, list)
    requires AllFlagged(flags, aged, false) && (moved ==> AllFlagged(flags, young, true))
    ensures (forall i :: 0 <= i < |buf| ==> MessageOk(buf, flags, young, aged, list, moved, i)) && AllBroadcast(buf, list)
            <==> Listed(buf, list) && Placed(buf, young, aged, list)
  {
    hide Earlier, AllFlagged, Indexed;
    FlagsIn(flags, aged, false);
    if moved {
      FlagsIn(flags, young, true);
    }
    if Listed(buf, list) && Placed(buf, young, aged, list) {
      forall i | 0 <= i < |buf| ensures MessageOk(buf, flags, young, aged, list, moved, i) {
        OnceInList(list, i);
      }
    }
    if (forall i :: 0 <= i < |buf| ==> MessageOk(buf, flags, young, aged, list, moved, i)) && AllBroadcast(buf, list) {
      forall i | 0 <= i < |buf|
        ensures if buf[i].scope.Once? then (i in young) != (i in aged) else i in list
      {
        assert MessageOk(buf, flags, young, aged, list, moved, i);
        OnceInList(list, i);
      }
      forall p, q | 0 <= p < q < |list| ensures list[p] != list[q] {
        assert MessageOk(buf, flags, young, aged, list, moved, list[p]);
        OnceInList(list, list[p]);
      }
    }
  }

  lemma FlagsIn(flags: seq<bool>, offs: seq<nat>, isFresh: bool)
    requires AllFlagged(flags, offs, isFresh)
    ensures forall i :: i in offs ==> i < |flags| && flags[i] == isFresh
  {
  }

  lemma KeptIndexed(buf: seq<Message>, tree: seq<nat>, p: nat, kept: seq<nat>)
    requires Indexed(buf, tree) && p < |tree| && Indexed(buf, kept) && forall i :: i in kept ==> i in tree[..p]
    ensures Indexed(buf, kept + [tree[p]])
  {
    hide Earlier;
    forall q | 0 <= q < |kept| ensures Earlier(buf[kept[q]], buf[tree[p]]) {
      assert kept[q] in tree[..p];
      var x :| 0 <= x < p && tree[x] == kept[q];
    }
  }

  lemma NotBefore(buf: seq<Message>, tree: seq<nat>, p: nat)
    requires Indexed(buf, tree) && p < |tree|
    ensures tree[p] !in tree[..p] && tree[p] in tree && tree[p] < |buf| && buf[tree[p]].scope.Once?
    ensures forall i :: i in tree[..p + 1] <==> i in tree[..p] || i == tree[p]
    ensures forall i :: i in tree[..p + 1] ==> i in tree
  {
    assert tree[..p + 1] == tree[..p] + [tree[p]];
    forall q | 0 <= q < p ensures tree[q] != tree[p] {
      assert Earlier(buf[tree[q]], buf[tree[p]]);
    }
  }

  /** Takes the marked messages out of one tree and puts them into the other. */
  method SplitMarked(buf: seq<Message>, young: seq<nat>, aged: seq<nat>, marks: set<nat>)
      returns (kept: seq<nat>, more: seq<nat>)
    requires MsnIncreasing(buf) && Indexed(buf, young) && Indexed(buf, aged) && forall i :: i in young ==> i !in aged
    ensures Indexed(buf, kept) && Indexed(buf, more)
    ensures forall i :: i in kept <==> i in young && i !in marks
    ensures forall i :: i in more <==> i in aged || (i in young && i in marks)
  {
    hide Indexed, Earlier, MsnIncreasing;
    kept, more := [], aged;
    NothingIndexed(buf);
    for p := 0 to |young|
      invariant Indexed(buf, more) && Indexed(buf, kept)
      invariant forall i :: i in more <==> i in aged || (i in young[..p] && i in marks)
      invariant forall i :: i in kept <==> i in young[..p] && i !in marks
    {
      NotBefore(buf, young, p);
      if young[p] in marks {
        more := InsertOffset(buf, more, young[p]);
      } else {
        KeptIndexed(buf, young, p, kept);
        kept := kept + [young[p]];
      }
    }
    assert young[..|young|] == young;
  }

  lemma FlagsOf(flags: seq<bool>, offs: seq<nat>, isFresh: bool)
    requires forall p :: 0 <= p < |offs| ==> offs[p] < |flags|
    ensures AllFlagged(flags, offs, isFresh) <==> forall i :: i in offs ==> i < |flags| && flags[i] == isFresh
  {
    if !AllFlagged(flags, offs, isFresh) {
      var p :| 0 <= p < |offs| && flags[offs[p]] != isFresh;
      assert offs[p] in offs;
    }
  }

  lemma NothingIndexed(buf: seq<Message>)
    ensures Indexed(buf, [])
  {
  }

  /** What a query takes from the stale tree: its range, or nothing if the basement has
      all of it already. */
  lemma StalePart(buf: seq<Message>, tree: seq<nat>, a: nat, b: nat, c: nat, lo: Option<Key>, hi: Option<Key>, skip: bool)
    requires Indexed(buf, tree) && a <= b <= |tree|
    requires !skip ==> forall p :: 0 <= p < |tree| ==> (InRange(lo, hi, buf[tree[p]].scope.key) <==> a <= p < b)
    requires skip ==> a == b == 0 && forall i :: i in tree && i < |buf| && Concerns(buf[i], lo, hi) ==> buf[i].msn <= c
    ensures PartOf(buf, tree, tree[a..b], c, lo, hi)
  {
    hide Indexed, InOrder, Concerns;
    if skip {
      assert tree[a..b] == [];
      PartOnce(buf, tree, a, b);
      forall k ensures InOrder(Pick(buf, tree[a..b]), k) {
        PartInOrder(buf, tree, a, b, k);
      }
    } else {
      RangeIsPart(buf, tree, a, b, lo, hi);
    }
  }

  /** A flush takes a message to a buffer one level down, fresh or stale as it was: what
      basements have seen stays right. */
  method PassOn(upper: ChildInfo, i: nat, lower: ChildInfo)
    requires upper.Valid() && lower.Valid() && upper != lower && i < |upper.buf|
    requires forall j :: 0 <= j < |lower.buf| ==> lower.buf[j].msn < upper.buf[i].msn
    modifies lower
    ensures lower.Valid() && lower.buf == old(lower.buf) + [upper.buf[i]]
    ensures lower.flags == old(lower.flags) + [upper.flags[i]]
    ensures forall b: Reader :: upper.Seen(b) && old(lower.Seen(b)) ==> lower.Seen(b)
  {
    hide Indexed, Listed, Earlier, MsnIncreasing, Concerns;
    lower.InsertMsg(upper.buf[i], upper.flags[i]);
  }

  /** One ancestor: its messages are applied unless the basement has reached its MSN. */
  method ApplyAncestor(info: ChildInfo, maxMsn: nat, es: seq<Entry>, b: Reader) returns (r: seq<Entry>, b': Reader)
    requires info.Valid() && info.Seen(b) && Sorted(es) && Within(es, b.lo, b.hi)
    modifies info
    ensures info.Valid() && info.buf == old(info.buf) && Sorted(r) && Within(r, b.lo, b.hi)
    ensures Basement(r, b'.msn, []) == CatchUpOne(Basement(es, b.msn, []), b.lo, b.hi, Ancestor(maxMsn, info.buf))
    ensures b' == b.(msn := b'.msn) && b.msn <= b'.msn && maxMsn <= b'.msn
    ensures forall x: Reader :: old(info.Seen(x)) && Apart(b, x) ==> info.Seen(x)
  {
    hide Absorb, Concerns, Apart, Sorted, Within;
    r, b' := es, b;
    if maxMsn > b.msn {
      AbsorbKeeps(es, b.msn, b.lo, b.hi, info.buf);
      r := info.ApplyTo(es, b);
      b' := b.(msn := maxMsn);
    }
  }

  /** apply_ancestors_messages_to_bn: the basement catches up with all its ancestors,
      nearest first, and has then seen all that is stale or will be. */
  method ApplyAncestors(infos: seq<ChildInfo>, maxMsns: seq<nat>, es: seq<Entry>, b: Reader, ghost chain: seq<Ancestor>)
      returns (r: seq<Entry>, b': Reader)
    requires |infos| == |maxMsns| == |chain| && ChainOk(chain) && Sorted(es) && Within(es, b.lo, b.hi)
    requires forall i, j :: 0 <= i < j < |infos| ==> infos[i] != infos[j]
    requires forall i :: 0 <= i < |infos| ==>
               && infos[i].Valid() && infos[i].Seen(b)
               && chain[i].maxMsn == maxMsns[i] && chain[i].buf == infos[i].buf
    modifies infos
    ensures forall i :: 0 <= i < |infos| ==> infos[i].Valid() && infos[i].Seen(b') && infos[i].buf == chain[i].buf
    ensures
      var x := CatchUp(Basement(es, b.msn, []), b.lo, b.hi, chain);
      r == x.entries && b' == b.(msn := x.msn, staleApplied := true)
    ensures forall x: Reader, i :: 0 <= i < |infos| && old(infos[i].Seen(x)) && Apart(b, x) ==> infos[i].Seen(x)
  {
    hide Absorb, Concerns, Apart, CatchUp, CatchUpOne, Sorted, Within, ChainOk, Indexed, Listed, Placed, Flagged, MsnIncreasing;
    ghost var was := Basement(es, b.msn, []);
    r, b' := es, b;
    NoCatchUp(was, b.lo, b.hi, chain);
    for p := 0 to |infos|
      invariant forall i :: 0 <= i < |infos| ==> infos[i].Valid() && infos[i].buf == chain[i].buf
      invariant forall i :: p <= i < |infos| ==> infos[i].Seen(b)
      invariant forall i :: 0 <= i < p ==> maxMsns[i] <= b'.msn
      invariant b' == b.(msn := b'.msn) && b.msn <= b'.msn
      invariant CatchUp(was, b.lo, b.hi, chain[..p]) == was.(entries := r, msn := b'.msn)
      invariant Sorted(r) && Within(r, b.lo, b.hi)
      invariant forall x: Reader, i :: 0 <= i < |infos| && old(infos[i].Seen(x)) && Apart(b, x) ==> infos[i].Seen(x)
    {
      CatchUpNext(was, b.lo, b.hi, chain, p);
      SeenLonger(infos[p], b, b'.msn);
      SameApart(b, b');
      r, b' := ApplyAncestor(infos[p], maxMsns[p], r, b');
    }
    assert chain[..|infos|] == chain;
    b' := b'.(staleApplied := true);
    forall i | 0 <= i < |infos| ensures infos[i].Seen(b') {
      AtMostMax(chain, i);
    }
  }

  lemma SameApart(a: Reader, b: Reader)
    requires a.lo == b.lo && a.hi == b.hi
    ensures forall x :: Apart(a, x) <==> Apart(b, x)
  {
  }

  lemma NoCatchUp(b: Basement, lo: Option<Key>, hi: Option<Key>, chain: seq<Ancestor>)
    ensures CatchUp(b, lo, hi, chain[..0]) == b
  {
  }

  lemma CatchUpNext(b: Basement, lo: Option<Key>, hi: Option<Key>, chain: seq<Ancestor>, p: nat)
    requires p < |chain|
    ensures CatchUp(b, lo, hi, chain[..p + 1]) == CatchUpOne(CatchUp(b, lo, hi, chain[..p]), lo, hi, chain[p])
  {
    assert chain[..p + 1][..p] == chain[..p];
  }

  lemma AtMostMax(chain: seq<Ancestor>, i: nat)
    requires ChainOk(chain) && i < |chain|
    ensures forall x :: 0 <= x < |chain[i].buf| ==> chain[i].buf[x].msn <= chain[i].maxMsn
  {
  }

  lemma SeenLonger(info: ChildInfo, b: Reader, msn: nat)
    requires info.Seen(b) && b.msn <= msn
    ensures info.Seen(b.(msn := msn))
  {
  }

  /** Part of a basement, and a basement read again from disk, have seen what is said. */
  lemma SeenPart(info: ChildInfo, b: Reader, part: Reader)
    requires info.Seen(b) && (part.staleApplied ==> b.staleApplied && b.msn <= part.msn)
    requires forall k :: InRange(part.lo, part.hi, k) ==> InRange(b.lo, b.hi, k)
    ensures info.Seen(part)
  {
    forall i | part.staleApplied && (i in info.staleTree || i in info.marks) && i < |info.buf|
               && Concerns(info.buf[i], part.lo, part.hi)
      ensures info.buf[i].msn <= part.msn
    {
      assert Concerns(info.buf[i], b.lo, b.hi);
    }
  }

  lemma NotConcerned(m: Message, a: Reader, b: Reader)
    requires Apart(a, b) && m.scope.Once? && Concerns(m, a.lo, a.hi)
    ensures !Concerns(m, b.lo, b.hi)
  {
  }

  lemma ListedMore(buf: seq<Message>, list: seq<nat>, x: nat)
    requires Listed(buf, list) && x < |buf| && !buf[x].scope.Once? && x !in list
    ensures Listed(buf, list + [x])
  {
  }
}
