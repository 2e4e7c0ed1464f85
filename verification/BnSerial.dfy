/** The serialized forms of a basement: keys and leaf entries apart when all keys have
    one length, interleaved otherwise. */
module BnSerial {
  import opened Bytes
  import opened BnData

  const CLEAN: byte := 0

  /** leafentry_rest_memsize: how long the records of an MVCC entry are, from their
      numbers and the bytes that follow. */
  type RestSize = (nat, byte, Bytes) -> nat

  /** The part of a leaf entry in front of its data. */
  function HeaderLen(typ: byte): nat {
    if typ == CLEAN then 5 else 6
  }

  /** The length that the header of a leaf entry announces for its data, when `data` is
      what follows in memory. */
  function DataLen(typ: byte, header: Bytes, data: Bytes, rest: RestSize): nat
    requires |header| == HeaderLen(typ) - 1
  {
    if typ == CLEAN then FromLE(header) else rest(FromLE(header[..4]), header[4], data)
  }

  /** A leaf entry says how long it is, whatever follows it. */
  ghost predicate ValidLe(le: Bytes, rest: RestSize) {
    && |le| >= 1 && |le| >= HeaderLen(le[0])
    && forall tail: Bytes :: DataLen(le[0], le[1..HeaderLen(le[0])], le[HeaderLen(le[0])..] + tail, rest)
                              == |le| - HeaderLen(le[0])
  }

  ghost predicate ValidPairs(ps: seq<Pair>, rest: RestSize) {
    forall i :: 0 <= i < |ps| ==> ValidLe(ps[i].le, rest) && |ps[i].key| < Pow(4)
  }

  // --------------------------------------------------------------- interleaved

  /** wbufwriteleafentry: the key goes between the entry's header and its data. */
  function Interleave(p: Pair): Bytes
    requires |p.le| >= 1 && |p.le| >= HeaderLen(p.le[0])
  {
    var h := HeaderLen(p.le[0]);
    [p.le[0]] + (LE(|p.key|, 4) + (p.le[1..h] + (p.key + p.le[h..])))
  }

  function ReadEntry(buf: Bytes, pos: nat, rest: RestSize): Read<Pair> {
    match ReadByte(buf, pos)
    case Short => Short
    case Got(typ, p0) =>
      match ReadLE(buf, p0, 4)
      case Short => Short
      case Got(keylen, p1) =>
        match ReadBytes(buf, p1, HeaderLen(typ) - 1)
        case Short => Short
        case Got(header, p2) =>
          match ReadBytes(buf, p2, keylen)
          case Short => Short
          case Got(key, p3) =>
            if p3 > |buf| || |header| != HeaderLen(typ) - 1 then Short
            else
              match ReadBytes(buf, p3, DataLen(typ, header, buf[p3..], rest))
              case Short => Short
              case Got(data, p4) => Got(Pair(key, [typ] + header + data), p4)
  }

  /** Type, key length and header of an interleaved entry. */
  lemma EntryFront(buf: Bytes, pos: nat, typ: byte, keylen: nat, header: Bytes, tail: Bytes)
    requires At(buf, pos, [typ] + (LE(keylen, 4) + (header + tail))) && keylen < Pow(4)
    ensures ReadByte(buf, pos) == Got(typ, pos + 1) && ReadLE(buf, pos + 1, 4) == Got(keylen, pos + 5)
    ensures ReadBytes(buf, pos + 5, |header|) == Got(header, pos + 5 + |header|)
    ensures At(buf, pos + 5 + |header|, tail)
  {
    hide Pow, LE, ReadLE, ReadByte, ReadBytes, At;
    AtSplit(buf, pos, [typ], LE(keylen, 4) + (header + tail));
    AtSplit(buf, pos + 1, LE(keylen, 4), header + tail);
    AtSplit(buf, pos + 5, header, tail);
    ReadByteAt(buf, pos, typ);
    ReadLEAt(buf, pos + 1, keylen, 4);
    ReadBytesAt(buf, pos + 5, header);
  }

  /** Its key, and the data that follow. */
  lemma EntryBack(buf: Bytes, pos: nat, key: Bytes, data: Bytes)
    requires At(buf, pos, key + data)
    ensures ReadBytes(buf, pos, |key|) == Got(key, pos + |key|)
    ensures
      var p := pos + |key|;
      && ReadBytes(buf, p, |data|) == Got(data, p + |data|)
      && p + |data| <= |buf| && buf[p..] == data + buf[p + |data|..]
  {
    hide ReadBytes, At;
    AtSplit(buf, pos, key, data);
    ReadBytesAt(buf, pos, key);
    ReadBytesAt(buf, pos + |key|, data);
    DataAt(buf, pos + |key|, data);
  }

  lemma ReadEntryAt(buf: Bytes, pos: nat, p: Pair, rest: RestSize)
    requires ValidLe(p.le, rest) && |p.key| < Pow(4) && At(buf, pos, Interleave(p))
    ensures ReadEntry(buf, pos, rest) == Got(p, pos + 4 + |p.key| + |p.le|)
  {
    hide Pow, LE, FromLE, ReadLE, ReadByte, ReadBytes, At, DataLen;
    var typ, h := p.le[0], HeaderLen(p.le[0]);
    var header, data := p.le[1..h], p.le[h..];
    var p3 := pos + 4 + h + |p.key|;
    EntryFront(buf, pos, typ, |p.key|, header, p.key + data);
    EntryBack(buf, pos + 4 + h, p.key, data);
    assert DataLen(typ, header, data + buf[p3 + |data|..], rest) == |data|;
    assert [typ] + header + data == p.le;
  }

  lemma DataAt(buf: Bytes, pos: nat, data: Bytes)
    requires At(buf, pos, data)
    ensures pos + |data| <= |buf| && buf[pos..] == data + buf[pos + |data|..]
  {
  }

  function InterleaveAll(ps: seq<Pair>): Bytes
    requires forall i :: 0 <= i < |ps| ==> |ps[i].le| >= 1 && |ps[i].le| >= HeaderLen(ps[i].le[0])
  {
    if |ps| == 0 then [] else InterleaveAll(ps[..|ps| - 1]) + Interleave(ps[|ps| - 1])
  }

  /** The bytes written are exactly get_disk_size many. */
  lemma {:induction false} InterleaveSize(ps: seq<Pair>, rest: RestSize)
    requires ValidPairs(ps, rest)
    ensures |InterleaveAll(ps)| == KeySum(ps) + LeSum(ps)
  {
    if |ps| > 0 {
      InterleaveSize(ps[..|ps| - 1], rest);
    }
  }

  function ReadEntries(buf: Bytes, pos: nat, n: nat, rest: RestSize): Read<seq<Pair>> {
    if n == 0 then Got([], pos)
    else
      match ReadEntries(buf, pos, n - 1, rest)
      case Short => Short
      case Got(ps, p) =>
        match ReadEntry(buf, p, rest)
        case Short => Short
        case Got(x, q) => Got(ps + [x], q)
  }

  lemma HeadersFit(ps: seq<Pair>, rest: RestSize)
    requires ValidPairs(ps, rest)
    ensures forall i :: 0 <= i < |ps| ==> |ps[i].le| >= 1 && |ps[i].le| >= HeaderLen(ps[i].le[0])
  {
  }

  lemma AtEnd(a: Bytes, b: Bytes)
    ensures At(a + b, |a|, b)
  {
  }

  lemma {:induction false} EntryIn(ps: seq<Pair>, i: nat, rest: RestSize)
    requires ValidPairs(ps, rest) && i < |ps|
    ensures At(InterleaveAll(ps), |InterleaveAll(ps[..i])|, Interleave(ps[i]))
  {
    hide Interleave, At, ValidLe;
    HeadersFit(ps, rest);
    var init, last := ps[..|ps| - 1], ps[|ps| - 1];
    if i == |ps| - 1 {
      assert ps[..i] == init;
      AtEnd(InterleaveAll(init), Interleave(last));
    } else {
      EntryIn(init, i, rest);
      assert init[..i] == ps[..i];
      assert [] + InterleaveAll(init) + Interleave(last) == InterleaveAll(ps);
      AtWider(InterleaveAll(init), |InterleaveAll(ps[..i])|, Interleave(ps[i]), [], Interleave(last));
    }
  }

  /** Interleaved round trip: the same entries, and exactly the bytes written. */
  lemma {:induction false} InterleavedRoundTrip(buf: Bytes, pos: nat, ps: seq<Pair>, n: nat, rest: RestSize)
    requires ValidPairs(ps, rest) && At(buf, pos, InterleaveAll(ps)) && n <= |ps|
    ensures ReadEntries(buf, pos, n, rest) == Got(ps[..n], pos + KeySum(ps[..n]) + LeSum(ps[..n]))
  {
    hide Interleave, InterleaveAll, ReadEntry, At, ValidLe, LeSum, KeySum;
    if n == 0 {
      SumNothing();
    } else {
      InterleavedRoundTrip(buf, pos, ps, n - 1, rest);
      EntryRead(buf, pos, ps, n - 1, rest);
      assert ps[..n - 1] + [ps[n - 1]] == ps[..n];
    }
  }

  // ------------------------------------------------------------ one key length

  /** The key area: offset and key of every entry of a compact pool. */
  function KeyArea(ps: seq<Pair>): Bytes {
    if |ps| == 0 then []
    else
      var init := ps[..|ps| - 1];
      KeyArea(init) + (LE(LeSum(init), 4) + ps[|ps| - 1].key)
  }

  /** serialize_header. */
  function Header(ps: seq<Pair>, fixedLen: nat, fixed: bool): Bytes {
    var f: byte := if fixed then 1 else 0;
    LE(KeySum(ps), 4) + (LE(LeSum(ps), 4) + (LE(fixedLen, 4) + ([f] + [f])))
  }

  ghost predicate KeysTake(ps: seq<Pair>, len: nat) {
    forall i :: 0 <= i < |ps| ==> |ps[i].key| + 4 == len
  }

  lemma {:induction false} KeyAreaSize(ps: seq<Pair>, len: nat)
    requires KeysTake(ps, len)
    ensures |KeyArea(ps)| == KeySum(ps) == |ps| * len
  {
    hide LE, LeSum;
    var n := |ps|;
    if n > 0 {
      var init := ps[..n - 1];
      assert |ps[n - 1].key| + 4 == len && KeysTake(init, len);
      KeyAreaSize(init, len);
      assert n * len == (n - 1) * len + len;
    }
  }

  lemma {:induction false} KeyAt(ps: seq<Pair>, i: nat, len: nat)
    requires KeysTake(ps, len) && i < |ps|
    ensures At(KeyArea(ps), i * len, LE(LeSum(ps[..i]), 4) + ps[i].key)
  {
    hide LE, LeSum;
    var init, last := ps[..|ps| - 1], ps[|ps| - 1];
    KeyAreaSize(init, len);
    if i == |ps| - 1 {
      assert ps[..i] == init;
    } else {
      KeyAt(init, i, len);
      assert init[..i] == ps[..i];
      var tail := LE(LeSum(init), 4) + last.key;
      assert [] + KeyArea(init) + tail == KeyArea(ps);
      AtWider(KeyArea(init), i * len, LE(LeSum(ps[..i]), 4) + ps[i].key, [], tail);
    }
  }

  lemma {:induction false} LeAt(ps: seq<Pair>, i: nat)
    requires i < |ps|
    ensures At(Compact(ps), LeSum(ps[..i]), ps[i].le)
  {
    CompactStored(ps);
    IndexOffset(ps, i);
  }

  lemma {:induction false} IndexOffset(ps: seq<Pair>, i: nat)
    requires i < |ps|
    ensures CompactIndex(ps)[i] == Slot(ps[i].key, LeSum(ps[..i]), |ps[i].le|)
  {
    var init := ps[..|ps| - 1];
    if i < |ps| - 1 {
      IndexOffset(init, i);
      assert init[..i] == ps[..i];
    } else {
      assert ps[..i] == init;
    }
  }

  /** Entry `i` of the separated form: the offset and the key from the key area, then
      the leaf entry from the values. */
  function ReadFixedEntry(keys: Bytes, vals: Bytes, i: nat, len: nat, rest: RestSize): Read<Pair> {
    match ReadLE(keys, i * len, 4)
    case Short => Short
    case Got(off, p) =>
      if len < 4 then Short
      else
        match ReadBytes(keys, p, len - 4)
        case Short => Short
        case Got(key, _) =>
          match ReadByte(vals, off)
          case Short => Short
          case Got(typ, q) =>
            match ReadBytes(vals, q, HeaderLen(typ) - 1)
            case Short => Short
            case Got(header, d) =>
              if d > |vals| || |header| != HeaderLen(typ) - 1 then Short
              else
                match ReadBytes(vals, d, DataLen(typ, header, vals[d..], rest))
                case Short => Short
                case Got(data, e) => Got(Pair(key, [typ] + header + data), e)
  }

  lemma LeParts(vals: Bytes, off: nat, le: Bytes, rest: RestSize)
    requires ValidLe(le, rest) && At(vals, off, le)
    ensures
      var h := HeaderLen(le[0]);
      && ReadByte(vals, off) == Got(le[0], off + 1)
      && ReadBytes(vals, off + 1, h - 1) == Got(le[1..h], off + h)
      && off + h <= |vals|
      && ReadBytes(vals, off + h, DataLen(le[0], le[1..h], vals[off + h..], rest)) == Got(le[h..], off + |le|)
      && [le[0]] + le[1..h] + le[h..] == le
  {
    hide At;
    var h := HeaderLen(le[0]);
    var header, data := le[1..h], le[h..];
    assert le == [le[0]] + (header + data);
    AtSplit(vals, off, [le[0]], header + data);
    AtSplit(vals, off + 1, header, data);
    ReadByteAt(vals, off, le[0]);
    ReadBytesAt(vals, off + 1, header);
    ReadBytesAt(vals, off + h, data);
    DataAt(vals, off + h, data);
    assert DataLen(le[0], header, data + vals[off + |le|..], rest) == |data|;
  }

  /** Every entry of the separated form reads back as it was. */
  lemma FixedRoundTrip(ps: seq<Pair>, len: nat, i: nat, rest: RestSize)
    requires ValidPairs(ps, rest) && KeysTake(ps, len) && i < |ps| && LeSum(ps) < Pow(4)
    ensures ReadFixedEntry(KeyArea(ps), Compact(ps), i, len, rest) == Got(ps[i], LeSum(ps[..i]) + |ps[i].le|)
  {
    hide Pow, LE, ReadLE, ReadByte, ReadBytes, At, KeyArea, Compact, LeSum;
    var keys, vals, off := KeyArea(ps), Compact(ps), LeSum(ps[..i]);
    KeyAt(ps, i, len);
    AtSplit(keys, i * len, LE(off, 4), ps[i].key);
    OffsetSmall(ps, i);
    ReadLEAt(keys, i * len, off, 4);
    ReadBytesAt(keys, i * len + 4, ps[i].key);
    LeAt(ps, i);
    LeParts(vals, off, ps[i].le, rest);
  }

  lemma OffsetSmall(ps: seq<Pair>, i: nat)
    requires i < |ps|
    ensures LeSum(ps[..i]) <= LeSum(ps)
  {
    SumAt(ps, i);
  }

  // ------------------------------------------------------------------- methods

  function FixedImage(ps: seq<Pair>, len: nat): Bytes {
    Header(ps, len, true) + KeyArea(ps) + Compact(ps)
  }

  /** serialize_to_wbuf for keys of one length: after a forced compaction the pool is
      written as it is. */
  method SerializeFixed(d: Data, len: nat) returns (bs: Bytes)
    requires d.Valid() && KeysTake(d.ps, len)
    modifies d`index, d`pool, d`freeOffset, d`frag
    ensures d.Valid() && fresh(d.pool) && bs == FixedImage(d.ps, len)
    ensures |bs| == 14 + KeySum(d.ps) + LeSum(d.ps)
  {
    hide Stored, Disjoint, SortedPairs, LE, Compact, CompactIndex, LeSum, KeySum;
    d.Compress(0, true);
    SameLength(d.pool[..d.freeOffset], d.index, d.ps);
    bs := LE(d.keyBytes, 4) + (LE(d.freeOffset - d.frag, 4) + (LE(len, 4) + ([1] + [1])));
    var keys := WriteKeys(d.index, d.ps);
    KeyAreaSize(d.ps, len);
    bs := bs + keys + d.pool[..d.freeOffset];
  }

  method WriteKeys(index: seq<Slot>, ghost ps: seq<Pair>) returns (keys: Bytes)
    requires index == CompactIndex(ps)
    ensures keys == KeyArea(ps)
  {
    hide LE, CompactIndex, LeSum;
    keys := [];
    for i := 0 to |index|
      invariant keys == KeyArea(ps[..i])
    {
      IndexOffset(ps, i);
      KeyAreaNext(ps, i);
      keys := keys + (LE(index[i].off, 4) + index[i].key);
    }
    assert ps[..|index|] == ps;
  }

  lemma KeyAreaNext(ps: seq<Pair>, i: nat)
    requires i < |ps|
    ensures KeyArea(ps[..i + 1]) == KeyArea(ps[..i]) + (LE(LeSum(ps[..i]), 4) + ps[i].key)
  {
    assert ps[..i + 1][..i] == ps[..i];
  }

  /** serialize_to_wbuf for keys of different lengths. */
  method SerializeInterleaved(d: Data, ghost rest: RestSize) returns (bs: Bytes)
    requires d.Valid() && ValidPairs(d.ps, rest)
    ensures bs == Header(d.ps, 0, false) + InterleaveAll(d.ps)
    ensures |bs| == 14 + KeySum(d.ps) + LeSum(d.ps)
  {
    hide Stored, Disjoint, SortedPairs, LE, LeSum, KeySum, Interleave;
    SameLength(d.pool[..d.freeOffset], d.index, d.ps);
    bs := LE(d.keyBytes, 4) + (LE(d.freeOffset - d.frag, 4) + (LE(0, 4) + ([0] + [0])));
    ghost var header := bs;
    for i := 0 to |d.index|
      invariant bs == header + InterleaveAll(d.ps[..i])
    {
      var p, _ := d.Fetch(i);
      assert d.ps[..i + 1][..i] == d.ps[..i];
      bs := bs + Interleave(p);
    }
    assert d.ps[..|d.index|] == d.ps;
    InterleaveSize(d.ps, rest);
  }

  /** deserialize_from_rbuf for the interleaved form, behind the header: rebuilds the
      basement entry by entry. */
  method LoadInterleaved(d: Data, buf: Bytes, pos: nat, n: nat, rest: RestSize, ghost ps: seq<Pair>) returns (next: nat)
    requires d.Valid() && d.ps == [] && n == |ps|
    requires ValidPairs(ps, rest) && SortedPairs(ps) && At(buf, pos, InterleaveAll(ps))
    modifies d, d.pool
    ensures d.Valid() && d.ps == ps && next == pos + KeySum(ps) + LeSum(ps)
  {
    hide Stored, Disjoint, SortedPairs, Interleave, InterleaveAll, ReadEntry, LeSum, KeySum, At, ValidLe;
    next := pos;
    d.Compress(0, true);
    SumNothing();
    for i := 0 to n
      invariant fresh(d.pool) && d.Valid() && d.ps == ps[..i] && next == pos + KeySum(ps[..i]) + LeSum(ps[..i])
    {
      EntryRead(buf, pos, ps, i, rest);
      var got := ReadEntry(buf, next, rest);
      BelongsNext(ps, i);
      d.Insert(i, got.value.key, got.value.le);
      next := got.next;
      assert ps[..i + 1] == ps[..i] + [ps[i]];
      assert ps[..i][..i] == ps[..i] && ps[..i][i..] == [];
    }
    assert ps[..n] == ps;
  }

  lemma BelongsNext(ps: seq<Pair>, i: nat)
    requires SortedPairs(ps) && i < |ps|
    ensures Belongs(ps[..i], i, ps[i].key)
  {
  }

  lemma SumNothing()
    ensures LeSum([]) == 0 && KeySum([]) == 0
  {
  }

  lemma EntryRead(buf: Bytes, pos: nat, ps: seq<Pair>, i: nat, rest: RestSize)
    requires ValidPairs(ps, rest) && At(buf, pos, InterleaveAll(ps)) && i < |ps|
    ensures ReadEntry(buf, pos + KeySum(ps[..i]) + LeSum(ps[..i]), rest)
         == Got(ps[i], pos + KeySum(ps[..i + 1]) + LeSum(ps[..i + 1]))
  {
    hide Interleave, InterleaveAll, ReadEntry, At, LeSum, KeySum, Pow, ValidLe, ValidPairs, HeaderLen;
    HeadersFit(ps, rest);
    PrefixValid(ps, i, rest);
    HeadersFit(ps[..i], rest);
    EntryIn(ps, i, rest);
    InterleaveSize(ps[..i], rest);
    var off := |InterleaveAll(ps[..i])|;
    AtInside(buf, pos, InterleaveAll(ps), off, Interleave(ps[i]));
    ReadEntryAt(buf, pos + off, ps[i], rest);
    SumNext(ps, i);
  }

  lemma PrefixValid(ps: seq<Pair>, i: nat, rest: RestSize)
    requires ValidPairs(ps, rest) && i < |ps|
    ensures ValidPairs(ps[..i], rest) && ValidLe(ps[i].le, rest) && |ps[i].key| < Pow(4)
  {
  }

  lemma SumNext(ps: seq<Pair>, i: nat)
    requires i < |ps|
    ensures LeSum(ps[..i + 1]) == LeSum(ps[..i]) + |ps[i].le|
    ensures KeySum(ps[..i + 1]) == KeySum(ps[..i]) + 4 + |ps[i].key|
  {
    assert ps[..i + 1][..i] == ps[..i];
  }

  // --------------------------------------------------------- either form

  datatype HeaderInfo = HeaderInfo(keySize: nat, valSize: nat, fixedLen: nat, separate: bool)

  function ReadHeader(buf: Bytes, pos: nat): Read<HeaderInfo> {
    match ReadLE(buf, pos, 4)
    case Short => Short
    case Got(keySize, p0) =>
      match ReadLE(buf, p0, 4)
      case Short => Short
      case Got(valSize, p1) =>
        match ReadLE(buf, p1, 4)
        case Short => Short
        case Got(fixedLen, p2) =>
          match ReadByte(buf, p2)
          case Short => Short
          case Got(same, p3) =>
            match ReadByte(buf, p3)
            case Short => Short
            case Got(separate, p4) =>
              // the two flags have to agree
              if same != separate then Short else Got(HeaderInfo(keySize, valSize, fixedLen, separate != 0), p4)
  }

  lemma ReadHeaderAt(buf: Bytes, pos: nat, ps: seq<Pair>, len: nat, fixed: bool)
    requires At(buf, pos, Header(ps, len, fixed)) && KeySum(ps) < Pow(4) && LeSum(ps) < Pow(4) && len < Pow(4)
    ensures ReadHeader(buf, pos) == Got(HeaderInfo(KeySum(ps), LeSum(ps), len, fixed), pos + 14)
  {
    hide At, Pow, LE, ReadLE, ReadByte, LeSum, KeySum;
    var f: byte := if fixed then 1 else 0;
    AtSplit(buf, pos, LE(KeySum(ps), 4), LE(LeSum(ps), 4) + (LE(len, 4) + ([f] + [f])));
    AtSplit(buf, pos + 4, LE(LeSum(ps), 4), LE(len, 4) + ([f] + [f]));
    AtSplit(buf, pos + 8, LE(len, 4), [f] + [f]);
    AtSplit(buf, pos + 12, [f], [f]);
    ReadLEAt(buf, pos, KeySum(ps), 4);
    ReadLEAt(buf, pos + 4, LeSum(ps), 4);
    ReadLEAt(buf, pos + 8, len, 4);
    ReadByteAt(buf, pos + 12, f);
    ReadByteAt(buf, pos + 13, f);
  }

  function ReadFixedAll(keys: Bytes, vals: Bytes, n: nat, len: nat, rest: RestSize): Read<seq<Pair>> {
    if n == 0 then Got([], 0)
    else
      match ReadFixedAll(keys, vals, n - 1, len, rest)
      case Short => Short
      case Got(ps, _) =>
        match ReadFixedEntry(keys, vals, n - 1, len, rest)
        case Short => Short
        case Got(p, _) => Got(ps + [p], 0)
  }

  lemma {:induction false} FixedAllRoundTrip(ps: seq<Pair>, len: nat, n: nat, rest: RestSize)
    requires ValidPairs(ps, rest) && KeysTake(ps, len) && n <= |ps| && LeSum(ps) < Pow(4)
    ensures ReadFixedAll(KeyArea(ps), Compact(ps), n, len, rest) == Got(ps[..n], 0)
  {
    hide ReadFixedEntry, KeyArea, Compact, LeSum, ValidPairs, KeysTake;
    if n > 0 {
      FixedAllRoundTrip(ps, len, n - 1, rest);
      FixedRoundTrip(ps, len, n - 1, rest);
      assert ps[..n - 1] + [ps[n - 1]] == ps[..n];
    }
  }

  /** deserialize_from_rbuf, for layout version 26 and later. */
  function ReadBasement(buf: Bytes, pos: nat, n: nat, rest: RestSize): Read<seq<Pair>> {
    match ReadHeader(buf, pos)
    case Short => Short
    case Got(h, p) =>
      if !h.separate then ReadEntries(buf, p, n, rest)
      else
        match ReadBytes(buf, p, h.keySize)
        case Short => Short
        case Got(keys, q) =>
          match ReadBytes(buf, q, h.valSize)
          case Short => Short
          case Got(vals, r) =>
            match ReadFixedAll(keys, vals, n, h.fixedLen, rest)
            case Short => Short
            case Got(ps, _) => Got(ps, r)
  }

  /** What serialize_to_wbuf writes for a basement. */
  function BasementImage(ps: seq<Pair>, len: nat, fixed: bool): Bytes
    requires forall i :: 0 <= i < |ps| ==> |ps[i].le| >= 1 && |ps[i].le| >= HeaderLen(ps[i].le[0])
  {
    if fixed then FixedImage(ps, len) else Header(ps, 0, false) + InterleaveAll(ps)
  }

  /** In both layouts, deserializing a serialized basement returns the same sequence of
      keys and leaf entries, and consumes exactly the bytes written. */
  lemma BasementRoundTrip(buf: Bytes, pos: nat, ps: seq<Pair>, len: nat, fixed: bool, rest: RestSize)
    requires ValidPairs(ps, rest) && (fixed ==> KeysTake(ps, len))
    requires KeySum(ps) < Pow(4) && LeSum(ps) < Pow(4) && len < Pow(4)
    requires At(buf, pos, BasementImage(ps, len, fixed))
    ensures ReadBasement(buf, pos, |ps|, rest) == Got(ps, pos + 14 + KeySum(ps) + LeSum(ps))
    ensures |BasementImage(ps, len, fixed)| == 14 + KeySum(ps) + LeSum(ps)
  {
    hide At, Header, ReadHeader, KeyArea, Compact, InterleaveAll, ReadEntries, ReadFixedAll, LeSum, KeySum,
         Pow, ReadBytes, ValidPairs, KeysTake;
    HeadersFit(ps, rest);
    assert ps[..|ps|] == ps;
    HeaderSize(ps, if fixed then len else 0, fixed);
    if fixed {
      FixedParts(buf, pos, ps, len);
      KeyAreaSize(ps, len);
      FixedAllRoundTrip(ps, len, |ps|, rest);
    } else {
      InterleavedParts(buf, pos, ps, rest);
      InterleaveSize(ps, rest);
      InterleavedRoundTrip(buf, pos + 14, ps, |ps|, rest);
    }
  }

  lemma FixedOffset(ps: seq<Pair>, len: nat, i: nat)
    requires KeysTake(ps, len) && i < |ps| && LeSum(ps) < Pow(4)
    ensures ReadLE(KeyArea(ps), i * len, 4) == Got(LeSum(ps[..i]), i * len + 4)
  {
    hide Pow, LE, ReadLE, At, KeyArea, LeSum, KeysTake;
    var keys, off, at := KeyArea(ps), LeSum(ps[..i]), i * len;
    KeyAt(ps, i, len);
    AtSplit(keys, at, LE(off, 4), ps[i].key);
    OffsetSmall(ps, i);
    ReadLEAt(keys, at, off, 4);
  }

  /** initialize_from_separate_keys_and_vals: the pool is the value area, and the index
      is the key area. */
  method LoadFixed(d: Data, keys: Bytes, vals: Bytes, n: nat, len: nat, rest: RestSize, ghost ps: seq<Pair>)
    requires keys == KeyArea(ps) && vals == Compact(ps) && n == |ps|
    requires ValidPairs(ps, rest) && KeysTake(ps, len) && LeSum(ps) < Pow(4) && SortedPairs(ps)
    modifies d
    ensures d.Valid() && d.ps == ps && d.frag == 0 && fresh(d.pool)
    ensures d.pool[..d.freeOffset] == vals && d.keyBytes == |keys|
  {
    hide KeyArea, Compact, CompactIndex, LeSum, KeySum, ValidPairs, KeysTake, Pow, Stored, Disjoint, SortedPairs,
         ReadFixedEntry, ReadLE;
    var ix: seq<Slot> := [];
    for i := 0 to n
      invariant ix == CompactIndex(ps)[..i]
    {
      FixedRoundTrip(ps, len, i, rest);
      FixedOffset(ps, len, i);
      IndexOffset(ps, i);
      var off, got := ReadLE(keys, i * len, 4), ReadFixedEntry(keys, vals, i, len, rest);
      ix := ix + [Slot(got.value.key, off.value, |got.value.le|)];
    }
    var mem := new byte[PoolSize(|vals|)];
    WriteAt(mem, 0, vals);
    KeyAreaSize(ps, len);
    assert mem[..|vals|] == vals;
    d.Become(mem, ix, |vals|, n * len, ps);
  }

  /** deserialize_from_rbuf, for layout version 26 and later: from the bytes that
      serialize_to_wbuf wrote in either layout the object is rebuilt, and exactly these
      bytes are consumed. */
  method Deserialize(d: Data, buf: Bytes, pos: nat, n: nat, rest: RestSize, ghost ps: seq<Pair>, ghost len: nat,
                     ghost fixed: bool) returns (next: nat)
    requires d.Valid() && d.ps == [] && n == |ps|
    requires ValidPairs(ps, rest) && SortedPairs(ps) && (fixed ==> KeysTake(ps, len))
    requires KeySum(ps) < Pow(4) && LeSum(ps) < Pow(4) && len < Pow(4)
    requires At(buf, pos, BasementImage(ps, len, fixed))
    modifies d, d.pool
    ensures d.Valid() && d.ps == ps && next == pos + 14 + KeySum(ps) + LeSum(ps)
  {
    hide At, Header, ReadHeader, KeyArea, Compact, InterleaveAll, LeSum, KeySum, Pow, ReadBytes, ValidPairs, KeysTake,
         Stored, Disjoint, SortedPairs, BasementImage;
    ImageIs(ps, len, fixed, rest);
    if fixed {
      FixedParts(buf, pos, ps, len);
    } else {
      InterleavedParts(buf, pos, ps, rest);
    }
    var header := ReadHeader(buf, pos);
    if header.value.separate {
      var keys := ReadBytes(buf, header.next, header.value.keySize);
      var vals := ReadBytes(buf, keys.next, header.value.valSize);
      LoadFixed(d, keys.value, vals.value, n, header.value.fixedLen, rest, ps);
      next := vals.next;
    } else {
      next := LoadInterleaved(d, buf, header.next, n, rest, ps);
    }
  }

  lemma FixedParts(buf: Bytes, pos: nat, ps: seq<Pair>, len: nat)
    requires KeysTake(ps, len) && KeySum(ps) < Pow(4) && LeSum(ps) < Pow(4) && len < Pow(4)
    requires At(buf, pos, FixedImage(ps, len))
    ensures ReadHeader(buf, pos) == Got(HeaderInfo(KeySum(ps), LeSum(ps), len, true), pos + 14)
    ensures ReadBytes(buf, pos + 14, KeySum(ps)) == Got(KeyArea(ps), pos + 14 + KeySum(ps))
    ensures ReadBytes(buf, pos + 14 + KeySum(ps), LeSum(ps)) == Got(Compact(ps), pos + 14 + KeySum(ps) + LeSum(ps))
  {
    hide At, Header, ReadHeader, KeyArea, Compact, LeSum, KeySum, Pow, ReadBytes, KeysTake;
    var header := Header(ps, len, true);
    HeaderSize(ps, len, true);
    assert FixedImage(ps, len) == header + (KeyArea(ps) + Compact(ps));
    AtSplit(buf, pos, header, KeyArea(ps) + Compact(ps));
    AtSplit(buf, pos + 14, KeyArea(ps), Compact(ps));
    KeyAreaSize(ps, len);
    ReadHeaderAt(buf, pos, ps, len, true);
    ReadBytesAt(buf, pos + 14, KeyArea(ps));
    ReadBytesAt(buf, pos + 14 + KeySum(ps), Compact(ps));
  }

  lemma InterleavedParts(buf: Bytes, pos: nat, ps: seq<Pair>, rest: RestSize)
    requires ValidPairs(ps, rest) && KeySum(ps) < Pow(4) && LeSum(ps) < Pow(4)
    requires At(buf, pos, BasementImage(ps, 0, false))
    ensures ReadHeader(buf, pos) == Got(HeaderInfo(KeySum(ps), LeSum(ps), 0, false), pos + 14)
    ensures At(buf, pos + 14, InterleaveAll(ps))
  {
    hide At, Header, ReadHeader, InterleaveAll, LeSum, KeySum, Pow, ValidPairs;
    Pows();
    HeadersFit(ps, rest);
    HeaderSize(ps, 0, false);
    AtSplit(buf, pos, Header(ps, 0, false), InterleaveAll(ps));
    ReadHeaderAt(buf, pos, ps, 0, false);
  }

  lemma ImageIs(ps: seq<Pair>, len: nat, fixed: bool, rest: RestSize)
    requires ValidPairs(ps, rest)
    ensures BasementImage(ps, len, fixed) == if fixed then FixedImage(ps, len) else BasementImage(ps, 0, false)
  {
  }

  lemma HeaderSize(ps: seq<Pair>, len: nat, fixed: bool)
    ensures |Header(ps, len, fixed)| == 14
  {
  }
}
