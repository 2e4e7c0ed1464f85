/** The sorted leaf entries of a basement node and the effect of messages on them. */
module Entries {
  import opened Keys
  import opened Messages

  datatype Entry = Entry(key: Key, le: LeafEntry)

  ghost predicate Sorted(es: seq<Entry>) {
    forall i, j :: 0 <= i < j < |es| ==> es[i].key < es[j].key
  }

  ghost predicate Within(es: seq<Entry>, lo: Option<Key>, hi: Option<Key>) {
    forall i :: 0 <= i < |es| ==> InRange(lo, hi, es[i].key)
  }

  /** Number of leading entries below `k`: where `k` is, or would be inserted. */
  function Position(es: seq<Entry>, k: Key): (r: nat)
    ensures r <= |es|
    ensures r > 0 ==> es[r - 1].key < k
    ensures r < |es| ==> k <= es[r].key
  {
    if |es| == 0 || k <= es[0].key then 0 else 1 + Position(es[1..], k)
  }

  function Lookup(es: seq<Entry>, k: Key): Option<LeafEntry> {
    var i := Position(es, k);
    if i < |es| && es[i].key == k then Some(es[i].le) else None
  }

  /** The position behind the entry of `k`, if there is one. */
  function PastPosition(es: seq<Entry>, k: Key): (j: nat)
    ensures Position(es, k) <= j <= |es|
  {
    var i := Position(es, k);
    if i < |es| && es[i].key == k then i + 1 else i
  }

  /** Writes the entry of `k`: insert, overwrite, or (for `None`) delete. */
  function Store(es: seq<Entry>, k: Key, v: Option<LeafEntry>): seq<Entry> {
    es[..Position(es, k)] + (if v.Some? then [Entry(k, v.value)] else []) + es[PastPosition(es, k)..]
  }

  /** A broadcast message visits every entry, and may delete it. */
  function StoreEach(es: seq<Entry>, m: Message): seq<Entry> {
    if |es| == 0 then []
    else
      var last := es[|es| - 1];
      var v := m.effect(last.key, Some(last.le));
      StoreEach(es[..|es| - 1], m) + (if v.Some? then [Entry(last.key, v.value)] else [])
  }

  function ApplyToEntries(es: seq<Entry>, m: Message): seq<Entry> {
    match m.scope
    case Once(k) => Store(es, k, m.effect(k, Lookup(es, k)))
    case All => StoreEach(es, m)
    case Nothing => es
  }

  lemma PositionUnique(es: seq<Entry>, k: Key, i: nat)
    requires Sorted(es) && i <= |es|
    requires i > 0 ==> es[i - 1].key < k
    requires i < |es| ==> k <= es[i].key
    ensures Position(es, k) == i
  {
  }

  lemma LookupAt(es: seq<Entry>, i: nat)
    requires Sorted(es) && i < |es|
    ensures Lookup(es, es[i].key) == Some(es[i].le)
  {
  }

  lemma LookupAbsent(es: seq<Entry>, k: Key)
    requires forall i :: 0 <= i < |es| ==> es[i].key != k
    ensures Lookup(es, k) == None
  {
  }

  /** Two sorted sequences that hold the same entry at `k`, or both none, agree at `k`. */
  lemma LookupSame(es: seq<Entry>, fs: seq<Entry>, k: Key)
    requires Sorted(es) && Sorted(fs)
    requires forall i :: 0 <= i < |es| && es[i].key == k ==> es[i] in fs
    requires forall i :: 0 <= i < |fs| && fs[i].key == k ==> fs[i] in es
    ensures Lookup(es, k) == Lookup(fs, k)
  {
  }

  lemma LookupAppend(es: seq<Entry>, e: Entry, q: Key)
    requires Sorted(es + [e])
    ensures Lookup(es + [e], q) == if q == e.key then Some(e.le) else Lookup(es, q)
    ensures Lookup(es, e.key) == None
  {
    var fs := es + [e];
    assert fs[|es|] == e;
    assert forall i :: 0 <= i < |es| ==> fs[i] == es[i] && fs[i].key < fs[|es|].key;
    if q == e.key {
      LookupAt(fs, |es|);
    } else {
      LookupSame(fs, es, q);
    }
    LookupAbsent(es, e.key);
  }

  /** Smaller keys are in front of the entry of `k`, larger keys behind it. */
  lemma KeysAround(es: seq<Entry>, k: Key)
    requires Sorted(es)
    ensures forall x :: 0 <= x < Position(es, k) ==> es[x].key < k
    ensures forall x :: Position(es, k) <= x < PastPosition(es, k) ==> es[x].key == k
    ensures forall x :: PastPosition(es, k) <= x < |es| ==> k < es[x].key
  {
  }

  lemma StoreSorted(es: seq<Entry>, k: Key, v: Option<LeafEntry>)
    requires Sorted(es)
    ensures Sorted(Store(es, k, v))
    ensures forall lo, hi :: Within(es, lo, hi) && InRange(lo, hi, k) ==> Within(Store(es, k, v), lo, hi)
  {
    hide Position, PastPosition;
    KeysAround(es, k);
  }

  lemma StoreLookup(es: seq<Entry>, k: Key, v: Option<LeafEntry>, q: Key)
    requires Sorted(es)
    ensures Lookup(Store(es, k, v), q) == if q == k then v else Lookup(es, q)
  {
    hide Lookup, Sorted, Position, PastPosition;
    StoreSorted(es, k, v);
    KeysAround(es, k);
    var fs, i := Store(es, k, v), Position(es, k);
    if q != k {
      forall x | 0 <= x < |es| && es[x].key == q ensures es[x] in fs {
        assert es[x] in es[..i] || es[x] in es[PastPosition(es, k)..];
      }
      LookupSame(es, fs, q);
    } else if v.Some? {
      LookupAt(fs, i);
    } else {
      LookupAbsent(fs, k);
    }
  }

  lemma {:induction false} StoreEachKeys(es: seq<Entry>, m: Message, lo: Option<Key>, hi: Option<Key>)
    requires Within(es, lo, hi)
    ensures Within(StoreEach(es, m), lo, hi)
  {
    if |es| > 0 {
      StoreEachKeys(es[..|es| - 1], m, lo, hi);
    }
  }

  lemma {:induction false} StoreEachSorted(es: seq<Entry>, m: Message)
    requires Sorted(es)
    ensures Sorted(StoreEach(es, m))
    ensures |es| > 0 ==> forall i :: 0 <= i < |StoreEach(es, m)| ==> StoreEach(es, m)[i].key <= es[|es| - 1].key
  {
    if |es| > 0 {
      StoreEachSorted(es[..|es| - 1], m);
    }
  }

  lemma {:induction false} StoreEachLookup(es: seq<Entry>, m: Message, q: Key)
    requires Sorted(es)
    ensures Lookup(StoreEach(es, m), q)
         == if Lookup(es, q).None? then None else m.effect(q, Lookup(es, q))
  {
    hide Lookup;
    if |es| == 0 {
      LookupAbsent(es, q);
    } else {
      var n := |es| - 1;
      var last := es[n];
      StoreEachLookup(es[..n], m, q);
      StoreEachSorted(es, m);
      LookupAppend(es[..n], last, q);
      assert es == es[..n] + [last];
      var v := m.effect(last.key, Some(last.le));
      if v.Some? {
        LookupAppend(StoreEach(es[..n], m), Entry(last.key, v.value), q);
      } else {
        assert StoreEach(es, m) == StoreEach(es[..n], m);
      }
    }
  }

  /** A message changes the entries exactly as `ApplyOne` says, at every key. */
  lemma ApplyToEntriesOk(es: seq<Entry>, m: Message, lo: Option<Key>, hi: Option<Key>, q: Key)
    requires Sorted(es) && Within(es, lo, hi) && Fits(m, lo, hi)
    ensures Sorted(ApplyToEntries(es, m)) && Within(ApplyToEntries(es, m), lo, hi)
    ensures Lookup(ApplyToEntries(es, m), q) == ApplyOne(m, q, Lookup(es, q))
  {
    match m.scope
    case Once(k) =>
      var v := m.effect(k, Lookup(es, k));
      StoreSorted(es, k, v);
      StoreLookup(es, k, v, q);
    case All =>
      StoreEachSorted(es, m);
      StoreEachKeys(es, m, lo, hi);
      StoreEachLookup(es, m, q);
    case Nothing =>
  }

}
