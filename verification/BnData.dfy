/** bn_data: the leaf entries of a basement, as a sorted index of keys and offsets
    into one bump-allocated memory pool. */
module BnData {
  import opened Bytes
  import opened ByteKeys
  import opened Keys

  /** What a basement holds: a key and its leaf entry, as bytes. */
  datatype Pair = Pair(key: Bytes, le: Bytes)

  /** An index entry: the key and where its leaf entry is in the pool. The length
      is what leafentry_memsize reads from the entry itself. */
  datatype Slot = Slot(key: Bytes, off: nat, len: nat)

  function LeSum(ps: seq<Pair>): nat {
    if |ps| == 0 then 0 else LeSum(ps[..|ps| - 1]) + |ps[|ps| - 1].le|
  }

  /** m_disksize_of_keys: each key with its four-byte length. */
  function KeySum(ps: seq<Pair>): nat {
    if |ps| == 0 then 0 else KeySum(ps[..|ps| - 1]) + (4 + |ps[|ps| - 1].key|)
  }

  lemma {:induction false} SumConcat(a: seq<Pair>, b: seq<Pair>)
    ensures LeSum(a + b) == LeSum(a) + LeSum(b) && KeySum(a + b) == KeySum(a) + KeySum(b)
  {
    if |b| == 0 {
      assert a + b == a;
    } else {
      assert (a + b)[..|a + b| - 1] == a + b[..|b| - 1];
      SumConcat(a, b[..|b| - 1]);
    }
  }

  lemma SumOne(p: Pair)
    ensures LeSum([p]) == |p.le| && KeySum([p]) == 4 + |p.key|
  {
  }

  /** The sums with entry `i` taken out. */
  lemma SumAt(ps: seq<Pair>, i: nat)
    requires i < |ps|
    ensures LeSum(ps) == LeSum(ps[..i]) + |ps[i].le| + LeSum(ps[i + 1..])
    ensures KeySum(ps) == KeySum(ps[..i]) + (4 + |ps[i].key|) + KeySum(ps[i + 1..])
  {
    hide LeSum, KeySum;
    assert ps == ps[..i] + ([ps[i]] + ps[i + 1..]);
    SumConcat(ps[..i], [ps[i]] + ps[i + 1..]);
    SumConcat([ps[i]], ps[i + 1..]);
    SumOne(ps[i]);
  }

  // --------------------------------------------------------------- key order

  predicate Less(a: Bytes, b: Bytes) {
    KeyCompare(a, b) < 0
  }

  ghost predicate SortedPairs(ps: seq<Pair>) {
    forall i, j :: 0 <= i < j < |ps| ==> Less(ps[i].key, ps[j].key)
  }

  /** Position `i` is where an absent key belongs. */
  ghost predicate Belongs(ps: seq<Pair>, i: nat, key: Bytes) {
    && i <= |ps|
    && (i > 0 ==> Less(ps[i - 1].key, key))
    && (i < |ps| ==> Less(key, ps[i].key))
  }

  lemma LessTrans(a: Bytes, b: Bytes, c: Bytes)
    requires Less(a, b) && Less(b, c)
    ensures Less(a, c)
  {
    KeyCompareTotalOrder(a, b, c);
  }

  /** Comparing with one entry decides for all entries on its far side. */
  lemma Beyond(ps: seq<Pair>, i: nat, key: Bytes)
    requires SortedPairs(ps) && i < |ps|
    ensures Less(ps[i].key, key) ==> forall j :: 0 <= j <= i ==> Less(ps[j].key, key)
    ensures Less(key, ps[i].key) ==> forall j :: i <= j < |ps| ==> Less(key, ps[j].key)
    ensures Less(ps[i].key, key) || Less(key, ps[i].key) || ps[i].key == key
  {
    hide KeyCompare;
    if Less(ps[i].key, key) {
      forall j | 0 <= j < i ensures Less(ps[j].key, key) {
        LessTrans(ps[j].key, ps[i].key, key);
      }
    }
    if Less(key, ps[i].key) {
      forall j | i < j < |ps| ensures Less(key, ps[j].key) {
        LessTrans(key, ps[i].key, ps[j].key);
      }
    }
    KeyCompareTotalOrder(ps[i].key, key, key);
    KeyCompareTotalOrder(key, ps[i].key, key);
  }

  lemma InsertSorted(ps: seq<Pair>, i: nat, p: Pair)
    requires SortedPairs(ps) && Belongs(ps, i, p.key)
    ensures SortedPairs(ps[..i] + [p] + ps[i..])
  {
    hide Less;
    if i > 0 {
      Beyond(ps, i - 1, p.key);
    }
    if i < |ps| {
      Beyond(ps, i, p.key);
    }
  }

  lemma PartsSorted(ps: seq<Pair>, i: nat)
    requires SortedPairs(ps) && i <= |ps|
    ensures SortedPairs(ps[..i]) && SortedPairs(ps[i..])
    ensures i < |ps| ==> SortedPairs(ps[..i] + ps[i + 1..])
  {
    hide Less;
  }

  lemma OverwriteSorted(ps: seq<Pair>, i: nat, le: Bytes)
    requires SortedPairs(ps) && i < |ps|
    ensures SortedPairs(ps[i := Pair(ps[i].key, le)])
  {
    hide Less;
  }

  /** `qs` holds `le` for `key` (or nothing), and for other keys what `ps` holds. */
  ghost predicate Updated(ps: seq<Pair>, qs: seq<Pair>, key: Bytes, le: Option<Bytes>) {
    forall k, v :: Pair(k, v) in qs <==> if k == key then le == Some(v) else Pair(k, v) in ps
  }

  /** Where a search for the key ends: smaller keys are in front, larger ones behind. */
  ghost predicate Located(ps: seq<Pair>, key: Bytes, i: nat, found: bool) {
    && i <= |ps|
    && (forall j :: 0 <= j < i ==> Less(ps[j].key, key))
    && (found ==> i < |ps| && ps[i].key == key)
    && (forall j :: (if found then i + 1 else i) <= j < |ps| ==> Less(key, ps[j].key))
  }

  lemma NotLess(k: Bytes)
    ensures !Less(k, k)
  {
    KeyCompareTotalOrder(k, k, k);
  }

  lemma AbsentElsewhere(ps: seq<Pair>, key: Bytes, i: nat, found: bool, j: nat)
    requires Located(ps, key, i, found) && j < |ps| && (found ==> j != i)
    ensures ps[j].key != key
  {
    hide Less;
    NotLess(key);
  }

  lemma InsertUpdates(ps: seq<Pair>, i: nat, key: Bytes, le: Bytes)
    requires Located(ps, key, i, false)
    ensures Updated(ps, ps[..i] + [Pair(key, le)] + ps[i..], key, Some(le))
  {
    hide Located;
    assert i <= |ps| by { LocatedIn(ps, key, i, false); }
    var qs := ps[..i] + [Pair(key, le)] + ps[i..];
    forall k, v ensures Pair(k, v) in qs <==> if k == key then v == le else Pair(k, v) in ps {
      if k == key && Pair(k, v) in ps {
        var j :| 0 <= j < |ps| && ps[j] == Pair(k, v);
        AbsentElsewhere(ps, key, i, false, j);
        assert false;
      }
      assert ps == ps[..i] + ps[i..];
      assert qs[i] == Pair(key, le);
    }
  }

  lemma LocatedIn(ps: seq<Pair>, key: Bytes, i: nat, found: bool)
    requires Located(ps, key, i, found)
    ensures i <= |ps| && (found ==> i < |ps| && ps[i].key == key) && (!found ==> Belongs(ps, i, key))
  {
  }

  lemma OverwriteUpdates(ps: seq<Pair>, i: nat, key: Bytes, le: Bytes)
    requires Located(ps, key, i, true)
    ensures i < |ps| && Updated(ps, ps[i := Pair(key, le)], key, Some(le))
  {
    hide Located;
    LocatedIn(ps, key, i, true);
    var qs := ps[i := Pair(key, le)];
    forall k, v ensures Pair(k, v) in qs <==> if k == key then v == le else Pair(k, v) in ps {
      assert qs[i] == Pair(key, le);
      if k == key && Pair(k, v) in qs {
        var j :| 0 <= j < |qs| && qs[j] == Pair(k, v);
        if j != i {
          AbsentElsewhere(ps, key, i, true, j);
          assert false;
        }
      }
      if k != key && Pair(k, v) in ps {
        var j :| 0 <= j < |ps| && ps[j] == Pair(k, v);
        assert qs[j] == ps[j];
      }
    }
  }

  lemma DeleteUpdates(ps: seq<Pair>, i: nat, key: Bytes)
    requires Located(ps, key, i, true)
    ensures i < |ps| && Updated(ps, ps[..i] + ps[i + 1..], key, None)
  {
    hide Located;
    LocatedIn(ps, key, i, true);
    var qs := ps[..i] + ps[i + 1..];
    forall k, v ensures Pair(k, v) in qs <==> k != key && Pair(k, v) in ps {
      if Pair(k, v) in qs {
        var j :| 0 <= j < |qs| && qs[j] == Pair(k, v);
        AbsentElsewhere(ps, key, i, true, if j < i then j else j + 1);
      }
      if k != key && Pair(k, v) in ps {
        var j :| 0 <= j < |ps| && ps[j] == Pair(k, v);
        assert qs[if j < i then j else j - 1] == ps[j];
      }
    }
  }

  lemma AbsentUpdates(ps: seq<Pair>, i: nat, key: Bytes)
    requires Located(ps, key, i, false)
    ensures Updated(ps, ps, key, None)
  {
    hide Located;
    forall k, v | Pair(k, v) in ps ensures k != key {
      var j :| 0 <= j < |ps| && ps[j] == Pair(k, v);
      AbsentElsewhere(ps, key, i, false, j);
    }
  }

  // -------------------------------------------------------------- the layout

  /** Every slot names its key and finds its leaf entry, inside the used memory. */
  ghost predicate Stored(mem: Bytes, index: seq<Slot>, ps: seq<Pair>) {
    && |index| == |ps|
    && forall i :: 0 <= i < |ps| ==>
         index[i].key == ps[i].key && index[i].len == |ps[i].le| && At(mem, index[i].off, ps[i].le)
  }

  predicate Apart(a: Slot, b: Slot) {
    a.off + a.len <= b.off || b.off + b.len <= a.off
  }

  ghost predicate Disjoint(index: seq<Slot>) {
    forall i, j :: 0 <= i < j < |index| ==> Apart(index[i], index[j])
  }

  lemma StoredMore(mem: Bytes, more: Bytes, index: seq<Slot>, ps: seq<Pair>)
    requires Stored(mem, index, ps)
    ensures Stored(mem + more, index, ps)
  {
  }

  /** Writing a new entry behind the used memory, and pointing to it from a new or an
      existing slot, leaves all other entries intact and apart. */
  lemma InsertStored(mem: Bytes, index: seq<Slot>, ps: seq<Pair>, i: nat, p: Pair)
    requires Stored(mem, index, ps) && Disjoint(index) && i <= |ps|
    ensures
      var slot := Slot(p.key, |mem|, |p.le|);
      var index', ps' := index[..i] + [slot] + index[i..], ps[..i] + [p] + ps[i..];
      Stored(mem + p.le, index', ps') && Disjoint(index')
  {
    var slot := Slot(p.key, |mem|, |p.le|);
    var index', ps' := index[..i] + [slot] + index[i..], ps[..i] + [p] + ps[i..];
    StoredMore(mem, p.le, index, ps);
    forall j | 0 <= j < |ps'|
      ensures index'[j].key == ps'[j].key && index'[j].len == |ps'[j].le| && At(mem + p.le, index'[j].off, ps'[j].le)
    {
      if j < i {
        assert index'[j] == index[j] && ps'[j] == ps[j];
      } else if j > i {
        assert index'[j] == index[j - 1] && ps'[j] == ps[j - 1];
      }
    }
    BumpDisjoint(index, i, slot, |mem|);
  }

  lemma BumpDisjoint(index: seq<Slot>, i: nat, slot: Slot, limit: nat)
    requires Disjoint(index) && i <= |index| && slot.off >= limit
    requires forall j :: 0 <= j < |index| ==> index[j].off + index[j].len <= limit
    ensures Disjoint(index[..i] + [slot] + index[i..])
  {
  }

  lemma OverwriteStored(mem: Bytes, index: seq<Slot>, ps: seq<Pair>, i: nat, le: Bytes)
    requires Stored(mem, index, ps) && Disjoint(index) && i < |ps|
    ensures
      var slot := Slot(ps[i].key, |mem|, |le|);
      Stored(mem + le, index[i := slot], ps[i := Pair(ps[i].key, le)]) && Disjoint(index[i := slot])
  {
  }

  lemma DeleteStored(mem: Bytes, index: seq<Slot>, ps: seq<Pair>, i: nat)
    requires Stored(mem, index, ps) && Disjoint(index) && i < |ps|
    ensures Stored(mem, index[..i] + index[i + 1..], ps[..i] + ps[i + 1..])
    ensures Disjoint(index[..i] + index[i + 1..])
  {
  }

  /** The leaf entries one after the other, in key order. */
  function Compact(ps: seq<Pair>): (r: Bytes)
    ensures |r| == LeSum(ps)
  {
    if |ps| == 0 then [] else Compact(ps[..|ps| - 1]) + ps[|ps| - 1].le
  }

  /** The index of a compacted pool. */
  function CompactIndex(ps: seq<Pair>): (r: seq<Slot>)
    ensures |r| == |ps|
  {
    if |ps| == 0 then []
    else
      var init, p := ps[..|ps| - 1], ps[|ps| - 1];
      CompactIndex(init) + [Slot(p.key, LeSum(init), |p.le|)]
  }

  lemma {:induction false} CompactStored(ps: seq<Pair>)
    ensures Stored(Compact(ps), CompactIndex(ps), ps) && Disjoint(CompactIndex(ps))
  {
    hide At, Disjoint;
    if |ps| == 0 {
      NoSlots();
    } else {
      var init, p := ps[..|ps| - 1], ps[|ps| - 1];
      CompactStored(init);
      InsertStored(Compact(init), CompactIndex(init), init, |init|, p);
      assert init[..|init|] + [p] + init[|init|..] == ps;
      var ix, slot := CompactIndex(init), Slot(p.key, LeSum(init), |p.le|);
      assert ix[..|init|] + [slot] + ix[|init|..] == CompactIndex(ps);
    }
  }

  lemma NoSlots()
    ensures Disjoint([])
  {
  }

  // ---------------------------------------------------------------- the class

  /** toku_mempool_construct leaves a quarter of slack. */
  function PoolSize(n: nat): nat {
    n + n / 4
  }

  class Data {
    var index: seq<Slot>
    var pool: array<byte>
    var freeOffset: nat
    var frag: nat
    var keyBytes: nat
    /** The sorted sequence that this object stands for. */
    ghost var ps: seq<Pair>

    ghost predicate Valid()
      reads this, pool
    {
      && freeOffset <= pool.Length
      && Stored(pool[..freeOffset], index, ps) && Disjoint(index)
      && frag + LeSum(ps) == freeOffset
      && keyBytes == KeySum(ps)
      && SortedPairs(ps)
    }

    constructor ()
      ensures Valid() && ps == [] && fresh(pool)
    {
      pool := new byte[0];
      index, freeOffset, frag, keyBytes, ps := [], 0, 0, 0, [];
    }

    /** get_disk_size is exact. */
    method DiskSize() returns (n: nat)
      requires Valid()
      ensures n == KeySum(ps) + LeSum(ps)
    {
      n := keyBytes + (freeOffset - frag);
    }

    /** fetch_klpair; `None` for an index out of range. */
    method Fetch(i: nat) returns (r: Pair, found: bool)
      requires Valid()
      ensures found <==> i < |ps|
      ensures found ==> r == ps[i]
    {
      if i < |index| {
        var s := index[i];
        assert At(pool[..freeOffset], s.off, ps[i].le);
        assert pool[s.off..s.off + s.len] == pool[..freeOffset][s.off..s.off + s.len];
        return Pair(s.key, pool[s.off..s.off + s.len]), true;
      }
      return Pair([], []), false;
    }

    /** Copies the leaf entries from `lo` up to `hi`, in key order, into new memory. */
    method CopyRange(lo: nat, hi: nat, size: nat) returns (mem: array<byte>, ix: seq<Slot>, n: nat)
      requires Valid() && lo <= hi <= |index| && size >= LeSum(ps[lo..hi])
      ensures fresh(mem) && mem.Length == size && n == LeSum(ps[lo..hi])
      ensures mem[..n] == Compact(ps[lo..hi]) && ix == CompactIndex(ps[lo..hi])
    {
      hide Stored, Disjoint, SortedPairs, LeSum, Compact, CompactIndex;
      SameLength(pool[..freeOffset], index, ps);
      mem := new byte[size];
      ix, n := [], 0;
      CompactNothing();
      assert ps[lo..lo] == [];
      for i := lo to hi
        invariant n == LeSum(ps[lo..i]) && ix == CompactIndex(ps[lo..i])
        invariant n <= size && mem[..n] == Compact(ps[lo..i])
      {
        PrefixSum(ps, lo, i, hi);
        CompactNext(ps, lo, i);
        SlotOf(pool[..freeOffset], index, ps, i);
        CopyEntry(mem, n, i);
        ix := ix + [Slot(index[i].key, n, index[i].len)];
        n := n + index[i].len;
      }
    }

    method CopyEntry(mem: array<byte>, n: nat, i: nat)
      requires Valid() && i < |index| && n + index[i].len <= mem.Length && mem != pool
      modifies mem
      ensures i < |ps| && index[i].len == |ps[i].le| && mem[..n + index[i].len] == old(mem[..n]) + ps[i].le
    {
      hide Stored, Disjoint, SortedPairs;
      EntryBytes(pool[..freeOffset], index, ps, i);
      var off, len := index[i].off, index[i].len;
      forall j | 0 <= j < len {
        mem[n + j] := pool[off + j];
      }
      assert mem[..n] == old(mem[..n]);
      assert mem[n..n + len] == ps[i].le;
      assert mem[..n + len] == mem[..n] + mem[n..n + len];
    }

    /** Takes over a compact pool. */
    method Become(mem: array<byte>, ix: seq<Slot>, n: nat, keys: nat, ghost content: seq<Pair>)
      requires n <= mem.Length && mem[..n] == Compact(content) && ix == CompactIndex(content)
      requires n == LeSum(content) && keys == KeySum(content) && SortedPairs(content)
      modifies this
      ensures Valid() && ps == content && frag == 0 && pool == mem
    {
      hide Stored, Disjoint, SortedPairs, LeSum, KeySum, Compact, CompactIndex;
      CompactStored(content);
      index, pool, freeOffset, frag, keyBytes, ps := ix, mem, n, 0, keys, content;
    }

    /** dmt_compress_kvspace: afterwards `added` more bytes fit. */
    method Compress(added: nat, force: bool)
      requires Valid()
      modifies this`index, this`pool, this`freeOffset, this`frag
      ensures Valid() && fresh(pool) && freeOffset + added <= pool.Length
      ensures force ==> frag == 0 && pool[..freeOffset] == Compact(ps) && index == CompactIndex(ps)
    {
      hide Stored, Disjoint, SortedPairs, LeSum, KeySum, Compact, CompactIndex;
      ghost var before := pool[..freeOffset];
      var total := freeOffset - frag + added;
      if frag > 0 || force {
        var size := PoolSize(if force then total else total * 3 / 2);
        assert ps[0..|index|] == ps by { SameLength(pool[..freeOffset], index, ps); }
        var mem, ix, n := CopyRange(0, |index|, size);
        CompactStored(ps);
        index, pool, freeOffset, frag := ix, mem, n, 0;
      } else {
        var mem := new byte[PoolSize(total)];
        forall j | 0 <= j < freeOffset {
          mem[j] := pool[j];
        }
        pool := mem;
        assert pool[..freeOffset] == before;
      }
    }

    /** mempool_malloc_and_update_dmt, and writing the leaf entry into the space: if the
        pool is full it is compacted, and then there is room. */
    method Place(le: Bytes) returns (off: nat)
      requires Valid()
      modifies this`index, this`pool, this`freeOffset, this`frag, pool
      ensures pool == old(pool) || fresh(pool)
      ensures freeOffset == off + |le| <= pool.Length
      ensures pool[..freeOffset] == pool[..off] + le
      ensures Stored(pool[..off], index, ps) && Disjoint(index) && frag + LeSum(ps) == off
    {
      hide Stored, Disjoint, SortedPairs;
      if freeOffset + |le| > pool.Length {
        Compress(|le|, false);
      }
      off := freeOffset;
      WriteAt(pool, off, le);
      freeOffset := off + |le|;
    }

    /** get_space_for_insert. */
    method Insert(i: nat, key: Bytes, le: Bytes)
      requires Valid() && Belongs(ps, i, key)
      modifies this, pool
      ensures Valid() && ps == old(ps[..i]) + [Pair(key, le)] + old(ps[i..])
      ensures pool == old(pool) || fresh(pool)
    {
      hide Stored, Disjoint, SortedPairs;
      var p := Pair(key, le);
      var off := Place(le);
      keyBytes := keyBytes + (4 + |key|);
      SameLength(pool[..off], index, ps);
      InsertStored(pool[..off], index, ps, i, p);
      InsertSums(ps, i, p);
      InsertSorted(ps, i, p);
      index := index[..i] + [Slot(key, off, |le|)] + index[i..];
      ps := ps[..i] + [p] + ps[i..];
    }

    /** get_space_for_overwrite: the old entry's bytes become fragmentation. */
    method Overwrite(i: nat, le: Bytes)
      requires Valid() && i < |ps|
      modifies this, pool
      ensures Valid() && ps == old(ps)[i := Pair(old(ps)[i].key, le)]
      ensures pool == old(pool) || fresh(pool)
    {
      hide Stored, Disjoint, SortedPairs;
      SlotOf(pool[..freeOffset], index, ps, i);
      var oldLen, key := index[i].len, index[i].key;
      var off := Place(le);
      frag := frag + oldLen;
      SameLength(pool[..off], index, ps);
      OverwriteStored(pool[..off], index, ps, i, le);
      OverwriteSums(ps, i, le);
      OverwriteSorted(ps, i, le);
      index := index[i := Slot(key, off, |le|)];
      ps := ps[i := Pair(key, le)];
    }

    /** delete_leafentry. */
    method Delete(i: nat)
      requires Valid() && i < |ps|
      modifies this`index, this`frag, this`keyBytes, this`ps
      ensures Valid() && ps == old(ps[..i] + ps[i + 1..])
    {
      hide Stored, Disjoint, SortedPairs;
      SlotOf(pool[..freeOffset], index, ps, i);
      DeleteSums(ps, i);
      PartsSorted(ps, i);
      DeleteStored(pool[..freeOffset], index, ps, i);
      keyBytes := keyBytes - (4 + |index[i].key|);
      frag := frag + index[i].len;
      index := index[..i] + index[i + 1..];
      ps := ps[..i] + ps[i + 1..];
    }

    /** find_zero: the index of the key, or the one at which it belongs. */
    method FindZero(key: Bytes) returns (i: nat, found: bool)
      requires Valid()
      ensures Located(ps, key, i, found)
    {
      hide Stored, Disjoint, SortedPairs, Less;
      SameLength(pool[..freeOffset], index, ps);
      var min, limit := 0, |index|;
      i, found := |index|, false;
      while min != limit
        invariant 0 <= min <= limit <= |index| && i == limit
        invariant forall j :: 0 <= j < min ==> Less(ps[j].key, key)
        invariant found ==> limit < |ps| && ps[limit].key == key
        invariant forall j :: (if found then limit + 1 else limit) <= j < |ps| ==> Less(key, ps[j].key)
        decreases limit - min
      {
        var mid := (min + limit) / 2;
        SlotOf(pool[..freeOffset], index, ps, mid);
        Beyond(ps, mid, key);
        Probed(ps, mid, key);
        var hv := KeyCompare(index[mid].key, key);
        if hv < 0 {
          min := mid + 1;
        } else {
          i, found, limit := mid, hv == 0, mid;
        }
      }
    }

    /** The search of toku_ft_bn_apply_msg, which looks at the last key first while
        inserts come in order. */
    method Locate(key: Bytes, seqinsert: bool) returns (i: nat, found: bool)
      requires Valid()
      ensures Located(ps, key, i, found)
    {
      hide Stored, Disjoint, SortedPairs;
      if seqinsert && |index| > 0 {
        SameLength(pool[..freeOffset], index, ps);
        SlotOf(pool[..freeOffset], index, ps, |index| - 1);
        if KeyCompare(index[|index| - 1].key, key) < 0 {
          Beyond(ps, |index| - 1, key);
          return |index|, false;
        }
      }
      i, found := FindZero(key);
    }

    /** What toku_ft_bn_apply_msg_once does to the basement once the new leaf entry of
        the key, or its absence, is known. */
    method Apply(key: Bytes, le: Option<Bytes>, seqinsert: bool)
      requires Valid()
      modifies this, pool
      ensures Valid() && Updated(old(ps), ps, key, le)
      ensures pool == old(pool) || fresh(pool)
    {
      hide Stored, Disjoint, SortedPairs, Located, Updated, Belongs, LeSum, KeySum;
      var i, found := Locate(key, seqinsert);
      LocatedIn(ps, key, i, found);
      if le.None? {
        if found {
          DeleteUpdates(ps, i, key);
          Delete(i);
        } else {
          AbsentUpdates(ps, i, key);
        }
      } else if found {
        OverwriteUpdates(ps, i, key, le.value);
        Overwrite(i, le.value);
      } else {
        InsertUpdates(ps, i, key, le.value);
        Insert(i, key, le.value);
      }
    }

    method KeyBytesOf(lo: nat, hi: nat) returns (n: nat)
      requires Valid() && lo <= hi <= |index|
      ensures n == KeySum(ps[lo..hi])
    {
      hide Stored, Disjoint, SortedPairs;
      SameLength(pool[..freeOffset], index, ps);
      n := 0;
      assert ps[lo..lo] == [];
      for i := lo to hi
        invariant n == KeySum(ps[lo..i])
      {
        SlotOf(pool[..freeOffset], index, ps, i);
        assert ps[lo..i + 1][..i - lo] == ps[lo..i];
        n := n + (4 + |index[i].key|);
      }
    }

    /** split_klpairs: both halves end up compact, without fragmentation. */
    method Split(right: Data, at: nat)
      requires Valid() && at < |ps| && right != this
      modifies this, right
      ensures Valid() && right.Valid() && ps == old(ps[..at]) && right.ps == old(ps[at..])
      ensures frag == 0 && right.frag == 0 && fresh(pool) && fresh(right.pool) && pool != right.pool
    {
      hide Stored, Disjoint, SortedPairs, LeSum, KeySum, Compact, CompactIndex;
      SameLength(pool[..freeOffset], index, ps);
      SplitSums(ps, at);
      PartsSorted(ps, at);
      assert ps[0..at] == ps[..at] && ps[at..|index|] == ps[at..];
      var size := PoolSize(freeOffset - frag);
      var lmem, lix, ln := CopyRange(0, at, size);
      var rmem, rix, rn := CopyRange(at, |index|, size);
      var lkeys := KeyBytesOf(0, at);
      var rkeys := KeyBytesOf(at, |index|);
      ghost var all := ps;
      right.Become(rmem, rix, rn, rkeys, all[at..]);
      Become(lmem, lix, ln, lkeys, all[..at]);
    }
  }

  lemma CompactNothing()
    ensures Compact([]) == [] && CompactIndex([]) == [] && LeSum([]) == 0
  {
  }

  lemma CompactNext(ps: seq<Pair>, lo: nat, i: nat)
    requires lo <= i < |ps|
    ensures Compact(ps[lo..i + 1]) == Compact(ps[lo..i]) + ps[i].le
    ensures CompactIndex(ps[lo..i + 1]) == CompactIndex(ps[lo..i]) + [Slot(ps[i].key, LeSum(ps[lo..i]), |ps[i].le|)]
  {
    var part := ps[lo..i + 1];
    assert part[..|part| - 1] == ps[lo..i];
  }

  lemma SameLength(mem: Bytes, index: seq<Slot>, ps: seq<Pair>)
    requires Stored(mem, index, ps)
    ensures |index| == |ps|
  {
  }

  /** Entries behind a key that is not below the searched one are above it. */
  lemma Probed(ps: seq<Pair>, i: nat, key: Bytes)
    requires SortedPairs(ps) && i < |ps|
    ensures KeyCompare(ps[i].key, key) < 0 ==> Less(ps[i].key, key)
    ensures KeyCompare(ps[i].key, key) > 0 ==> Less(key, ps[i].key)
    ensures KeyCompare(ps[i].key, key) == 0 ==> ps[i].key == key && forall j :: i < j < |ps| ==> Less(key, ps[j].key)
  {
    KeyCompareTotalOrder(ps[i].key, key, key);
    KeyCompareTotalOrder(key, ps[i].key, key);
  }

  lemma SlotOf(mem: Bytes, index: seq<Slot>, ps: seq<Pair>, i: nat)
    requires Stored(mem, index, ps) && i < |ps|
    ensures |index| == |ps| && index[i].key == ps[i].key && index[i].len == |ps[i].le|
    ensures index[i].off + index[i].len <= |mem|
  {
  }

  lemma EntryBytes(mem: Bytes, index: seq<Slot>, ps: seq<Pair>, i: nat)
    requires Stored(mem, index, ps) && i < |index|
    ensures |index| == |ps| && index[i].key == ps[i].key && index[i].len == |ps[i].le|
    ensures index[i].off + index[i].len <= |mem|
    ensures forall j :: 0 <= j < |ps[i].le| ==> mem[index[i].off + j] == ps[i].le[j]
  {
  }

  lemma PrefixSum(ps: seq<Pair>, lo: nat, i: nat, hi: nat)
    requires lo <= i < hi <= |ps|
    ensures LeSum(ps[lo..i + 1]) == LeSum(ps[lo..i]) + |ps[i].le| <= LeSum(ps[lo..hi])
  {
    assert ps[lo..i + 1][..i - lo] == ps[lo..i];
    assert ps[lo..hi] == ps[lo..i + 1] + ps[i + 1..hi];
    SumConcat(ps[lo..i + 1], ps[i + 1..hi]);
  }

  lemma InsertSums(ps: seq<Pair>, i: nat, p: Pair)
    requires i <= |ps|
    ensures LeSum(ps[..i] + [p] + ps[i..]) == LeSum(ps) + |p.le|
    ensures KeySum(ps[..i] + [p] + ps[i..]) == KeySum(ps) + 4 + |p.key|
  {
    hide LeSum, KeySum;
    var all := ps[..i] + [p] + ps[i..];
    SumAt(all, i);
    assert all[..i] == ps[..i] && all[i + 1..] == ps[i..] && ps == ps[..i] + ps[i..];
    SumConcat(ps[..i], ps[i..]);
  }

  lemma OverwriteSums(ps: seq<Pair>, i: nat, le: Bytes)
    requires i < |ps|
    ensures LeSum(ps[i := Pair(ps[i].key, le)]) == LeSum(ps) - |ps[i].le| + |le|
    ensures KeySum(ps[i := Pair(ps[i].key, le)]) == KeySum(ps)
  {
    hide LeSum, KeySum;
    var qs := ps[i := Pair(ps[i].key, le)];
    SumAt(ps, i);
    SumAt(qs, i);
    assert qs[..i] == ps[..i] && qs[i + 1..] == ps[i + 1..];
  }

  lemma DeleteSums(ps: seq<Pair>, i: nat)
    requires i < |ps|
    ensures LeSum(ps[..i] + ps[i + 1..]) == LeSum(ps) - |ps[i].le|
    ensures KeySum(ps[..i] + ps[i + 1..]) == KeySum(ps) - (4 + |ps[i].key|)
  {
    hide LeSum, KeySum;
    SumAt(ps, i);
    SumConcat(ps[..i], ps[i + 1..]);
  }

  lemma SplitSums(ps: seq<Pair>, at: nat)
    requires at <= |ps|
    ensures LeSum(ps) == LeSum(ps[..at]) + LeSum(ps[at..])
  {
    assert ps == ps[..at] + ps[at..];
    SumConcat(ps[..at], ps[at..]);
  }
}
