/** Messages, leaf entries, and the meaning of a sequence of messages. */
module Messages {
  import opened Keys

  /** What the tree itself looks at in a leaf entry: whether the entry reads as
      deleted and how many bytes it takes on disk. */
  datatype LeafEntry = LeafEntry(deleted: bool, diskSize: nat, payload: int)

  /** The three families of ft_msg types: those that apply once, to one key;
      broadcasts, that apply to every existing leaf entry; and FT_NONE. */
  datatype Scope = Once(key: Key) | All | Nothing

  /** `effect` is the unknown transformation of a leaf entry by this message. */
  datatype Message = Message(
    msn: nat,
    scope: Scope,
    effect: (Key, Option<LeafEntry>) -> Option<LeafEntry>)

  predicate Relevant(m: Message, k: Key) {
    m.scope.All? || (m.scope.Once? && m.scope.key == k)
  }

  /** Effect of one message on the entry of key `k`. A broadcast visits existing
      entries only. */
  function ApplyOne(m: Message, k: Key, v: Option<LeafEntry>): Option<LeafEntry> {
    if !Relevant(m, k) || (m.scope.All? && v.None?) then v else m.effect(k, v)
  }

  /** The messages of `ms` that concern key `k`, in order. */
  function Rel(ms: seq<Message>, k: Key): seq<Message> {
    if |ms| == 0 then []
    else
      var last := ms[|ms| - 1];
      Rel(ms[..|ms| - 1], k) + (if Relevant(last, k) then [last] else [])
  }

  /** Applies, in order, the messages of `ms` with an MSN above `c`. */
  function ReplayNewer(ms: seq<Message>, c: nat, k: Key, v: Option<LeafEntry>): Option<LeafEntry> {
    if |ms| == 0 then v
    else
      var last := ms[|ms| - 1];
      var w := ReplayNewer(ms[..|ms| - 1], c, k, v);
      if last.msn > c then ApplyOne(last, k, w) else w
  }

  /** The reference meaning of the whole tree: every message, in order. */
  function Replay(ms: seq<Message>, k: Key): Option<LeafEntry> {
    if |ms| == 0 then None
    else ApplyOne(ms[|ms| - 1], k, Replay(ms[..|ms| - 1], k))
  }

  ghost predicate MsnIncreasing(ms: seq<Message>) {
    forall i, j :: 0 <= i < j < |ms| ==> ms[i].msn < ms[j].msn
  }

  ghost predicate Fits(m: Message, lo: Option<Key>, hi: Option<Key>) {
    m.scope.Once? ==> InRange(lo, hi, m.scope.key)
  }

  lemma {:induction false} RelIn(ms: seq<Message>, k: Key)
    ensures forall i :: 0 <= i < |Rel(ms, k)| ==> Rel(ms, k)[i] in ms && Relevant(Rel(ms, k)[i], k)
  {
    if |ms| > 0 {
      RelIn(ms[..|ms| - 1], k);
    }
  }

  lemma {:induction false} RelConcat(a: seq<Message>, b: seq<Message>, k: Key)
    ensures Rel(a + b, k) == Rel(a, k) + Rel(b, k)
  {
    if |b| == 0 {
      assert a + b == a;
    } else {
      assert (a + b)[..|a + b| - 1] == a + b[..|b| - 1];
      RelConcat(a, b[..|b| - 1], k);
    }
  }

  lemma {:induction false} RelRel(ms: seq<Message>, k: Key)
    ensures Rel(Rel(ms, k), k) == Rel(ms, k)
  {
    if |ms| > 0 {
      var rest := ms[..|ms| - 1];
      RelRel(rest, k);
      RelConcat(Rel(rest, k), if Relevant(ms[|ms| - 1], k) then [ms[|ms| - 1]] else [], k);
    }
  }

  lemma {:induction false} ReplayNewerConcat(a: seq<Message>, b: seq<Message>, c: nat, k: Key, v: Option<LeafEntry>)
    ensures ReplayNewer(a + b, c, k, v) == ReplayNewer(b, c, k, ReplayNewer(a, c, k, v))
  {
    if |b| == 0 {
      assert a + b == a;
    } else {
      assert (a + b)[..|a + b| - 1] == a + b[..|b| - 1];
      ReplayNewerConcat(a, b[..|b| - 1], c, k, v);
    }
  }

  /** Messages that do not concern the key do nothing. */
  lemma {:induction false} ReplayNewerRel(ms: seq<Message>, c: nat, k: Key, v: Option<LeafEntry>)
    ensures ReplayNewer(Rel(ms, k), c, k, v) == ReplayNewer(ms, c, k, v)
  {
    if |ms| > 0 {
      var rest := ms[..|ms| - 1];
      ReplayNewerRel(rest, c, k, v);
      ReplayNewerConcat(Rel(rest, k), if Relevant(ms[|ms| - 1], k) then [ms[|ms| - 1]] else [], c, k, v);
    }
  }

  /** Two thresholds that keep the same messages give the same result. */
  lemma {:induction false} ReplayNewerSameThreshold(ms: seq<Message>, c: nat, d: nat, k: Key, v: Option<LeafEntry>)
    requires forall i :: 0 <= i < |ms| ==> (ms[i].msn > c <==> ms[i].msn > d)
    ensures ReplayNewer(ms, c, k, v) == ReplayNewer(ms, d, k, v)
  {
    if |ms| > 0 {
      ReplayNewerSameThreshold(ms[..|ms| - 1], c, d, k, v);
    }
  }

  lemma {:induction false} ReplayNewerNone(ms: seq<Message>, c: nat, k: Key, v: Option<LeafEntry>)
    requires forall i :: 0 <= i < |ms| ==> ms[i].msn <= c
    ensures ReplayNewer(ms, c, k, v) == v
  {
    if |ms| > 0 {
      ReplayNewerNone(ms[..|ms| - 1], c, k, v);
    }
  }
}
