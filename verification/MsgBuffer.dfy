/** The packed message buffer: messages as bytes in one array, their offsets, and
    their serialized form. */
module MsgBuffer {
  import opened Bytes

  /** A message as the buffer stores it. */
  datatype Rec = Rec(typ: byte, isFresh: bool, msn: nat, xids: seq<nat>, key: Bytes, val: Bytes)

  /** What the fixed-width fields can hold. */
  ghost predicate ValidRec(r: Rec) {
    && r.msn < Pow(8) && |r.xids| < 256 && (forall i :: 0 <= i < |r.xids| ==> r.xids[i] < Pow(8))
    && |r.key| < Pow(4) && |r.val| < Pow(4) && r.typ in MESSAGE_TYPES
  }

  const MESSAGE_TYPES: set<byte> := {0, 1, 2, 4, 6, 8, 9, 10, 11, 12, 13, 14, 15}

  predicate AppliesOnce(t: byte) {
    t in {1, 2, 4, 6, 11, 14}
  }

  predicate AppliesAll(t: byte) {
    t in {8, 9, 10, 12, 13, 15}
  }

  /** The check made while loading: what does not apply once applies to all, or is FT_NONE. */
  lemma TypesCovered(t: byte)
    requires t in MESSAGE_TYPES
    ensures AppliesOnce(t) <==> !AppliesAll(t) && t != 0
  {
  }

  function Flag(b: bool): byte {
    if b then 1 else 0
  }

  // ------------------------------------------------------- packed in memory

  function PackXids(xids: seq<nat>): (r: Bytes)
    ensures |r| == 8 * |xids|
  {
    if |xids| == 0 then [] else LE(xids[0], 8) + PackXids(xids[1..])
  }

  /** struct buffer_entry followed by the key and the value. */
  function Pack(r: Rec): Bytes {
    LE(|r.key|, 4) + (LE(|r.val|, 4) + ([r.typ] + ([Flag(r.isFresh)] + (LE(r.msn, 8) + PackRest(r)))))
  }

  /** msg_memsize_in_buffer. */
  function MemSize(r: Rec): nat {
    19 + 8 * |r.xids| + |r.key| + |r.val|
  }

  lemma PackSize(r: Rec)
    ensures |Pack(r)| == MemSize(r) > 0
  {
  }

  function UnpackXids(buf: Bytes, pos: nat, n: nat): Read<seq<nat>>
    decreases n
  {
    if n == 0 then Got([], pos)
    else
      match ReadLE(buf, pos, 8)
      case Short => Short
      case Got(x, p) =>
        match UnpackXids(buf, p, n - 1)
        case Short => Short
        case Got(xs, q) => Got([x] + xs, q)
  }

  lemma {:induction false} UnpackXidsAt(buf: Bytes, pos: nat, xids: seq<nat>)
    requires At(buf, pos, PackXids(xids)) && forall i :: 0 <= i < |xids| ==> xids[i] < Pow(8)
    ensures UnpackXids(buf, pos, |xids|) == Got(xids, pos + 8 * |xids|)
    decreases |xids|
  {
    if |xids| > 0 {
      AtSplit(buf, pos, LE(xids[0], 8), PackXids(xids[1..]));
      ReadLEAt(buf, pos, xids[0], 8);
      UnpackXidsAt(buf, pos + 8, xids[1..]);
      assert xids == [xids[0]] + xids[1..];
    }
  }

  /** get_message and get_freshness at an offset; the result says where the next
      entry starts. */
  function Unpack(mem: Bytes, off: nat): Read<Rec> {
    match ReadLE(mem, off, 4)
    case Short => Short
    case Got(keylen, p0) =>
      match ReadLE(mem, p0, 4)
      case Short => Short
      case Got(vallen, p1) =>
        match ReadByte(mem, p1)
        case Short => Short
        case Got(typ, p2) =>
          match ReadByte(mem, p2)
          case Short => Short
          case Got(f, p3) =>
            match ReadLE(mem, p3, 8)
            case Short => Short
            case Got(msn, p4) => UnpackRest(mem, p4, keylen, vallen, typ, f, msn)
  }

  function UnpackRest(mem: Bytes, pos: nat, keylen: nat, vallen: nat, typ: byte, f: byte, msn: nat): Read<Rec> {
    match ReadByte(mem, pos)
    case Short => Short
    case Got(n, p0) =>
      match UnpackXids(mem, p0, n as nat)
      case Short => Short
      case Got(xids, p1) =>
        match ReadBytes(mem, p1, keylen)
        case Short => Short
        case Got(key, p2) =>
          match ReadBytes(mem, p2, vallen)
          case Short => Short
          case Got(val, p3) => Got(Rec(typ, f != 0, msn, xids, key, val), p3)
  }

  function PackRest(r: Rec): Bytes {
    [(|r.xids| % 256) as byte] + (PackXids(r.xids) + (r.key + r.val))
  }

  lemma UnpackRestAt(mem: Bytes, pos: nat, r: Rec)
    requires At(mem, pos, PackRest(r)) && ValidRec(r)
    ensures UnpackRest(mem, pos, |r.key|, |r.val|, r.typ, Flag(r.isFresh), r.msn)
         == Got(r, pos + 1 + 8 * |r.xids| + |r.key| + |r.val|)
  {
    hide At, Pow, PackXids, UnpackXids, ReadByte, ReadBytes;
    var p := pos + 1 + 8 * |r.xids|;
    AtSplit(mem, pos, [(|r.xids| % 256) as byte], PackXids(r.xids) + (r.key + r.val));
    AtSplit(mem, pos + 1, PackXids(r.xids), r.key + r.val);
    AtSplit(mem, p, r.key, r.val);
    ReadByteAt(mem, pos, (|r.xids| % 256) as byte);
    UnpackXidsAt(mem, pos + 1, r.xids);
    ReadBytesAt(mem, p, r.key);
    ReadBytesAt(mem, p + |r.key|, r.val);
  }

  /** An entry decodes to its message wherever it stands. */
  lemma UnpackAt(mem: Bytes, off: nat, r: Rec)
    requires At(mem, off, Pack(r)) && ValidRec(r)
    ensures Unpack(mem, off) == Got(r, off + MemSize(r))
  {
    hide At, Pow, LE, PackRest, UnpackRest, ReadByte, ReadLE;
    var t3 := LE(r.msn, 8) + PackRest(r);
    var t2 := [Flag(r.isFresh)] + t3;
    var t1 := [r.typ] + t2;
    AtSplit(mem, off, LE(|r.key|, 4), LE(|r.val|, 4) + t1);
    AtSplit(mem, off + 4, LE(|r.val|, 4), t1);
    AtSplit(mem, off + 8, [r.typ], t2);
    AtSplit(mem, off + 9, [Flag(r.isFresh)], t3);
    AtSplit(mem, off + 10, LE(r.msn, 8), PackRest(r));
    ReadLEAt(mem, off, |r.key|, 4);
    ReadLEAt(mem, off + 4, |r.val|, 4);
    ReadByteAt(mem, off + 8, r.typ);
    ReadByteAt(mem, off + 9, Flag(r.isFresh));
    ReadLEAt(mem, off + 10, r.msn, 8);
    UnpackRestAt(mem, off + 18, r);
  }

  // ---------------------------------------------------------- many messages

  function PackAll(rs: seq<Rec>): Bytes {
    if |rs| == 0 then [] else PackAll(rs[..|rs| - 1]) + Pack(rs[|rs| - 1])
  }

  /** The offset of entry `i`. */
  function Offset(rs: seq<Rec>, i: nat): nat
    requires i <= |rs|
  {
    |PackAll(rs[..i])|
  }

  lemma OffsetNext(rs: seq<Rec>, i: nat)
    requires i < |rs|
    ensures Offset(rs, i + 1) == Offset(rs, i) + MemSize(rs[i])
  {
    assert rs[..i + 1][..i] == rs[..i];
    PackSize(rs[i]);
  }

  lemma {:induction false} EntryAt(rs: seq<Rec>, i: nat)
    requires i < |rs|
    ensures At(PackAll(rs), Offset(rs, i), Pack(rs[i]))
    ensures Offset(rs, i) + MemSize(rs[i]) <= |PackAll(rs)|
  {
    hide Pack;
    PackSize(rs[i]);
    var init, last := rs[..|rs| - 1], rs[|rs| - 1];
    if i == |rs| - 1 {
      assert rs[..i] == init;
    } else {
      EntryAt(init, i);
      assert init[..i] == rs[..i];
      assert [] + PackAll(init) + Pack(last) == PackAll(rs);
      AtWider(PackAll(init), Offset(rs, i), Pack(rs[i]), [], Pack(last));
    }
  }

  lemma {:induction false} OffsetMonotone(rs: seq<Rec>, i: nat, j: nat)
    requires i < j <= |rs|
    ensures Offset(rs, i) < Offset(rs, j)
    decreases j - i
  {
    OffsetNext(rs, i);
    if i + 1 < j {
      OffsetMonotone(rs, i + 1, j);
    }
  }

  // --------------------------------------------------------- serialized form

  function WireXids(xids: seq<nat>): (r: Bytes)
    ensures |r| == 8 * |xids|
  {
    if |xids| == 0 then [] else U64(xids[0]) + WireXids(xids[1..])
  }

  function ReadXids(buf: Bytes, pos: nat, n: nat): Read<seq<nat>>
    decreases n
  {
    if n == 0 then Got([], pos)
    else
      match ReadU64(buf, pos)
      case Short => Short
      case Got(x, p) =>
        match ReadXids(buf, p, n - 1)
        case Short => Short
        case Got(xs, q) => Got([x] + xs, q)
  }

  lemma {:induction false} ReadXidsAt(buf: Bytes, pos: nat, xids: seq<nat>)
    requires At(buf, pos, WireXids(xids)) && forall i :: 0 <= i < |xids| ==> xids[i] < Pow(8)
    ensures ReadXids(buf, pos, |xids|) == Got(xids, pos + 8 * |xids|)
    decreases |xids|
  {
    if |xids| > 0 {
      AtSplit(buf, pos, U64(xids[0]), WireXids(xids[1..]));
      ReadU64At(buf, pos, xids[0]);
      ReadXidsAt(buf, pos + 8, xids[1..]);
      assert xids == [xids[0]] + xids[1..];
    }
  }

  /** The part that messages of every version have after type, freshness and MSN. */
  function WireTail(r: Rec): Bytes {
    [(|r.xids| % 256) as byte] + (WireXids(r.xids) + (LE(|r.key|, 4) + (r.key + (LE(|r.val|, 4) + r.val))))
  }

  datatype Tail = Tail(xids: seq<nat>, key: Bytes, val: Bytes)

  function ReadTail(buf: Bytes, pos: nat): Read<Tail> {
    match ReadByte(buf, pos)
    case Short => Short
    case Got(n, p0) =>
      match ReadXids(buf, p0, n as nat)
      case Short => Short
      case Got(xids, p1) =>
        match ReadLE(buf, p1, 4)
        case Short => Short
        case Got(keylen, p2) =>
          match ReadBytes(buf, p2, keylen)
          case Short => Short
          case Got(key, p3) =>
            match ReadLE(buf, p3, 4)
            case Short => Short
            case Got(vallen, p4) =>
              match ReadBytes(buf, p4, vallen)
              case Short => Short
              case Got(val, p5) => Got(Tail(xids, key, val), p5)
  }

  /** A length and so many bytes. */
  lemma SizedAt(buf: Bytes, pos: nat, bs: Bytes, rest: Bytes)
    requires At(buf, pos, LE(|bs|, 4) + (bs + rest)) && |bs| < Pow(4)
    ensures ReadLE(buf, pos, 4) == Got(|bs|, pos + 4)
    ensures ReadBytes(buf, pos + 4, |bs|) == Got(bs, pos + 4 + |bs|)
    ensures At(buf, pos + 4 + |bs|, rest)
  {
    hide At, Pow, LE, ReadLE, ReadBytes;
    AtSplit(buf, pos, LE(|bs|, 4), bs + rest);
    AtSplit(buf, pos + 4, bs, rest);
    ReadLEAt(buf, pos, |bs|, 4);
    ReadBytesAt(buf, pos + 4, bs);
  }

  lemma XidsAt(buf: Bytes, pos: nat, r: Rec, rest: Bytes)
    requires ValidRec(r) && At(buf, pos, [(|r.xids| % 256) as byte] + (WireXids(r.xids) + rest))
    ensures |r.xids| < 256 && ReadByte(buf, pos) == Got(|r.xids| as byte, pos + 1)
    ensures ReadXids(buf, pos + 1, |r.xids|) == Got(r.xids, pos + 1 + 8 * |r.xids|)
    ensures At(buf, pos + 1 + 8 * |r.xids|, rest)
  {
    hide At, Pow, WireXids, ReadXids, ReadByte;
    AtSplit(buf, pos, [(|r.xids| % 256) as byte], WireXids(r.xids) + rest);
    AtSplit(buf, pos + 1, WireXids(r.xids), rest);
    ReadByteAt(buf, pos, (|r.xids| % 256) as byte);
    ReadXidsAt(buf, pos + 1, r.xids);
  }

  lemma ReadTailAt(buf: Bytes, pos: nat, r: Rec)
    requires At(buf, pos, WireTail(r)) && ValidRec(r)
    ensures ReadTail(buf, pos) == Got(Tail(r.xids, r.key, r.val), pos + |WireTail(r)|)
  {
    hide At, Pow, LE, WireXids, ReadXids, ReadLE, ReadByte, ReadBytes;
    var tail := LE(|r.val|, 4) + r.val;
    var p1 := pos + 1 + 8 * |r.xids|;
    XidsAt(buf, pos, r, LE(|r.key|, 4) + (r.key + tail));
    SizedAt(buf, p1, r.key, tail);
    assert tail == LE(|r.val|, 4) + (r.val + []);
    SizedAt(buf, p1 + 4 + |r.key|, r.val, []);
  }

  /** ft_msg::serialize_to_wbuf. */
  function Wire(r: Rec): Bytes {
    [r.typ] + ([Flag(r.isFresh)] + (U64(r.msn) + WireTail(r)))
  }

  /** total_size: the exact number of bytes written. */
  lemma WireSize(r: Rec)
    ensures |Wire(r)| == 8 + (2 + 8) + (|r.key| + |r.val|) + (1 + 8 * |r.xids|)
  {
  }

  /** ft_msg::deserialize_from_rbuf. */
  function ReadWire(buf: Bytes, pos: nat): Read<Rec> {
    match ReadByte(buf, pos)
    case Short => Short
    case Got(typ, p0) =>
      match ReadByte(buf, p0)
      case Short => Short
      case Got(f, p1) =>
        match ReadU64(buf, p1)
        case Short => Short
        case Got(msn, p2) =>
          match ReadTail(buf, p2)
          case Short => Short
          case Got(t, p3) => Got(Rec(typ, f != 0, msn, t.xids, t.key, t.val), p3)
  }

  lemma ReadWireAt(buf: Bytes, pos: nat, r: Rec)
    requires At(buf, pos, Wire(r)) && ValidRec(r)
    ensures ReadWire(buf, pos) == Got(r, pos + |Wire(r)|)
  {
    hide U64, ReadU64, WireTail, ReadTail;
    AtSplit(buf, pos, [r.typ], [Flag(r.isFresh)] + (U64(r.msn) + WireTail(r)));
    AtSplit(buf, pos + 1, [Flag(r.isFresh)], U64(r.msn) + WireTail(r));
    AtSplit(buf, pos + 2, U64(r.msn), WireTail(r));
    ReadByteAt(buf, pos, r.typ);
    ReadByteAt(buf, pos + 1, Flag(r.isFresh));
    ReadU64At(buf, pos + 2, r.msn);
    ReadTailAt(buf, pos + 10, r);
  }

  function WireAll(rs: seq<Rec>): Bytes {
    if |rs| == 0 then [] else WireAll(rs[..|rs| - 1]) + Wire(rs[|rs| - 1])
  }

  lemma {:induction false} WireEntryAt(rs: seq<Rec>, i: nat)
    requires i < |rs|
    ensures At(WireAll(rs), |WireAll(rs[..i])|, Wire(rs[i]))
  {
    hide Wire;
    var init, last := rs[..|rs| - 1], rs[|rs| - 1];
    if i == |rs| - 1 {
      assert rs[..i] == init;
    } else {
      WireEntryAt(init, i);
      assert init[..i] == rs[..i];
      assert [] + WireAll(init) + Wire(last) == WireAll(rs);
      AtWider(WireAll(init), |WireAll(rs[..i])|, Wire(rs[i]), [], Wire(last));
    }
  }

  /** message_buffer::serialize_to_wbuf. */
  function Image(rs: seq<Rec>): Bytes {
    LE(|rs|, 4) + WireAll(rs)
  }

  /** Reading `n` messages one after the other. */
  function ReadMany(buf: Bytes, pos: nat, n: nat): Read<seq<Rec>> {
    if n == 0 then Got([], pos)
    else
      match ReadMany(buf, pos, n - 1)
      case Short => Short
      case Got(rs, p) =>
        match ReadWire(buf, p)
        case Short => Short
        case Got(r, q) => Got(rs + [r], q)
  }

  function ReadImage(buf: Bytes, pos: nat): Read<seq<Rec>> {
    match ReadLE(buf, pos, 4)
    case Short => Short
    case Got(n, p) => ReadMany(buf, p, n)
  }

  lemma {:induction false} ReadManyAt(buf: Bytes, pos: nat, rs: seq<Rec>, n: nat)
    requires At(buf, pos, WireAll(rs)) && n <= |rs| && forall i :: 0 <= i < |rs| ==> ValidRec(rs[i])
    ensures ReadMany(buf, pos, n) == Got(rs[..n], pos + |WireAll(rs[..n])|)
  {
    hide Wire, WireAll, ReadWire, At, ValidRec;
    if n == 0 {
      StartEmpty();
    } else {
      ReadManyAt(buf, pos, rs, n - 1);
      WireEntryAt(rs, n - 1);
      AtInside(buf, pos, WireAll(rs), |WireAll(rs[..n - 1])|, Wire(rs[n - 1]));
      ReadWireAt(buf, pos + |WireAll(rs[..n - 1])|, rs[n - 1]);
      WireNext(rs, n - 1);
      assert rs[..n - 1] + [rs[n - 1]] == rs[..n];
    }
  }

  /** Reading back a serialized buffer gives its messages, and consumes exactly the
      bytes that were written. */
  lemma ImageRoundTrip(buf: Bytes, pos: nat, rs: seq<Rec>)
    requires At(buf, pos, Image(rs)) && |rs| < Pow(4) && forall i :: 0 <= i < |rs| ==> ValidRec(rs[i])
    ensures ReadImage(buf, pos) == Got(rs, pos + |Image(rs)|)
  {
    hide WireAll, ReadMany, Pow;
    AtSplit(buf, pos, LE(|rs|, 4), WireAll(rs));
    ReadLEAt(buf, pos, |rs|, 4);
    ReadManyAt(buf, pos + 4, rs, |rs|);
    assert rs[..|rs|] == rs;
  }

  // ------------------------------------------------------ classes of offsets

  datatype Class = FreshOnce | StaleOnce | Broadcast

  function ClassOf(r: Rec): Class {
    if !AppliesOnce(r.typ) then Broadcast else if r.isFresh then FreshOnce else StaleOnce
  }

  /** The offsets of the messages of one class, in order. */
  function OffsetsOf(rs: seq<Rec>, c: Class): seq<nat> {
    if |rs| == 0 then []
    else
      var init := rs[..|rs| - 1];
      OffsetsOf(init, c) + (if ClassOf(rs[|rs| - 1]) == c then [|PackAll(init)|] else [])
  }

  lemma {:induction false} OffsetsBelow(rs: seq<Rec>, c: Class)
    ensures forall x :: x in OffsetsOf(rs, c) ==> x < |PackAll(rs)|
  {
    if |rs| > 0 {
      OffsetsBelow(rs[..|rs| - 1], c);
      PackSize(rs[|rs| - 1]);
    }
  }

  /** Every message's offset is in the list of its class and in no other. */
  lemma {:induction false} OffsetsPartition(rs: seq<Rec>, i: nat, c: Class)
    requires i < |rs|
    ensures Offset(rs, i) in OffsetsOf(rs, c) <==> c == ClassOf(rs[i])
  {
    hide Pack;
    var init := rs[..|rs| - 1];
    PackSize(rs[|rs| - 1]);
    if i == |rs| - 1 {
      assert rs[..i] == init;
      OffsetsBelow(init, c);
    } else {
      assert init[..i] == rs[..i];
      OffsetsPartition(init, i, c);
      OffsetMonotone(rs, i, |rs| - 1);
      assert rs[..|rs| - 1] == init;
    }
  }

  // ---------------------------------------------------------------- the buffer

  method NextPowerOfTwo(n: nat) returns (r: nat)
    ensures r >= n && r >= 4096
  {
    r := 4096;
    while r < n
      invariant r >= 4096
    {
      r := r * 2;
    }
  }

  class MessageBuffer {
    var memory: array<byte>
    var used: nat
    var count: nat
    /** The messages in the buffer. */
    ghost var recs: seq<Rec>

    ghost predicate Valid()
      reads this, memory
    {
      && used <= memory.Length && memory[..used] == PackAll(recs) && count == |recs|
      && forall i :: 0 <= i < |recs| ==> ValidRec(recs[i])
    }

    constructor ()
      ensures Valid() && recs == [] && fresh(memory)
    {
      memory := new byte[0];
      used, count, recs := 0, 0, [];
    }

    method Resize(size: nat)
      requires Valid() && size >= used
      modifies this`memory
      ensures Valid() && fresh(memory) && memory.Length == size
    {
      var bigger := new byte[size];
      forall i | 0 <= i < used {
        bigger[i] := memory[i];
      }
      assert bigger[..used] == memory[..used];
      memory := bigger;
    }

    /** Appends a message and hands out its offset. */
    method Enqueue(r: Rec) returns (off: nat)
      requires Valid() && ValidRec(r)
      modifies this, memory
      ensures Valid() && recs == old(recs) + [r] && off == Offset(recs, |old(recs)|)
      ensures memory == old(memory) || fresh(memory)
    {
      hide Pack, ValidRec;
      var bs := Pack(r);
      PackSize(r);
      var total := used + MemSize(r);
      if total > memory.Length {
        var size := NextPowerOfTwo(total);
        Resize(size);
      }
      WriteAt(memory, used, bs);
      off := used;
      used, count := total, count + 1;
      recs := recs + [r];
      assert recs[..|recs| - 1] == old(recs);
    }

    /** An offset handed out by `Enqueue` decodes to its message. */
    method GetMessage(off: nat, ghost i: nat) returns (r: Rec)
      requires Valid() && i < |recs| && off == Offset(recs, i)
      ensures r == recs[i]
    {
      EntryAt(recs, i);
      UnpackAt(memory[..used], off, recs[i]);
      r := Unpack(memory[..used], off).value;
    }

    /** Marks one message as fresh or stale, and changes nothing else. */
    method SetFreshness(off: nat, b: bool, ghost i: nat)
      requires Valid() && i < |recs| && off == Offset(recs, i)
      modifies this`recs, memory
      ensures Valid() && recs == old(recs)[i := old(recs)[i].(isFresh := b)]
    {
      hide Pack, ValidRec;
      PackSize(recs[i]);
      EntryAt(recs, i);
      MarkedFresh(recs, i, b);
      FreshnessValid(recs[i], b);
      ghost var before := memory[..used];
      memory[off + 9] := Flag(b);
      assert memory[..used] == before[off + 9 := Flag(b)];
      recs := recs[i := recs[i].(isFresh := b)];
    }

    /** The iterate loop: exactly the enqueued messages, in order. */
    method Iterate() returns (out: seq<Rec>, offs: seq<nat>)
      requires Valid()
      ensures out == recs && |offs| == |recs| && forall i :: 0 <= i < |recs| ==> offs[i] == Offset(recs, i)
    {
      hide Pack, Unpack, ValidRec;
      out, offs := [], [];
      var off := 0;
      while off < used
        invariant |out| <= |recs| && out == recs[..|out|] && off == Offset(recs, |out|) <= used
        invariant |offs| == |out| && forall i :: 0 <= i < |out| ==> offs[i] == Offset(recs, i)
        decreases used - off
      {
        ghost var i := |out|;
        assert recs[..|recs|] == recs;
        EntryAt(recs, i);
        UnpackAt(memory[..used], off, recs[i]);
        OffsetNext(recs, i);
        PackSize(recs[i]);
        var r := Unpack(memory[..used], off).value;
        out, offs := out + [r], offs + [off];
        off := off + MemSize(r);
        assert recs[..i + 1] == recs[..i] + [recs[i]];
      }
      assert recs[..|recs|] == recs;
      if |out| < |recs| {
        OffsetMonotone(recs, |out|, |recs|);
      }
    }

    method Serialize() returns (bs: Bytes)
      requires Valid()
      ensures bs == Image(recs)
    {
      hide Wire;
      var rs, _ := Iterate();
      bs := LE(count, 4);
      for i := 0 to |rs|
        invariant bs == LE(count, 4) + WireAll(rs[..i])
      {
        assert rs[..i + 1][..i] == rs[..i];
        bs := bs + Wire(rs[i]);
      }
      assert rs[..|rs|] == rs;
    }

    /** Loads a serialized buffer. The offsets of fresh, stale and broadcast
        messages are collected on the way. */
    method Deserialize(rb: Bytes, pos: nat, ghost rs: seq<Rec>)
        returns (next: nat, freshOffs: seq<nat>, staleOffs: seq<nat>, broadcastOffs: seq<nat>)
      requires Valid() && recs == []
      requires At(rb, pos, Image(rs)) && |rs| < Pow(4)
      requires forall i :: 0 <= i < |rs| ==> ValidRec(rs[i])
      modifies this, memory
      ensures Valid() && recs == rs && next == pos + |Image(rs)|
      ensures freshOffs == OffsetsOf(rs, FreshOnce)
      ensures staleOffs == OffsetsOf(rs, StaleOnce)
      ensures broadcastOffs == OffsetsOf(rs, Broadcast)
    {
      hide Wire, WireAll, ReadWire, Pack, PackAll, ValidRec, Pow;
      StartEmpty();
      AtSplit(rb, pos, LE(|rs|, 4), WireAll(rs));
      ReadLEAt(rb, pos, |rs|, 4);
      var n := ReadLE(rb, pos, 4).value;
      next := pos + 4;
      freshOffs, staleOffs, broadcastOffs := [], [], [];
      Resize(|rb| + 64 + used);
      for i := 0 to n
        invariant fresh(memory)
        invariant Valid() && recs == rs[..i] && next == pos + 4 + |WireAll(rs[..i])|
        invariant freshOffs == OffsetsOf(rs[..i], FreshOnce)
        invariant staleOffs == OffsetsOf(rs[..i], StaleOnce)
        invariant broadcastOffs == OffsetsOf(rs[..i], Broadcast)
      {
        var r;
        r, next := ReadNext(rb, pos + 4, next, rs, i);
        assert rs[..i + 1] == rs[..i] + [rs[i]] && rs[..i + 1][..i] == rs[..i];
        var off := Enqueue(r);
        match ClassOf(r)
        case FreshOnce => freshOffs := freshOffs + [off];
        case StaleOnce => staleOffs := staleOffs + [off];
        case Broadcast => broadcastOffs := broadcastOffs + [off];
      }
      assert rs[..n] == rs;
    }
  }

  lemma WireNext(rs: seq<Rec>, i: nat)
    requires i < |rs|
    ensures WireAll(rs[..i + 1]) == WireAll(rs[..i]) + Wire(rs[i])
  {
    hide Wire;
    assert rs[..i + 1][..i] == rs[..i];
  }

  lemma StartEmpty()
    ensures WireAll([]) == [] && PackAll([]) == [] && Wire13All([]) == []
  {
  }

  /** Reads message `i` of a serialized buffer. */
  method ReadNext(rb: Bytes, start: nat, pos: nat, ghost rs: seq<Rec>, ghost i: nat) returns (r: Rec, next: nat)
    requires At(rb, start, WireAll(rs)) && i < |rs| && ValidRec(rs[i]) && pos == start + |WireAll(rs[..i])|
    ensures r == rs[i] && next == start + |WireAll(rs[..i + 1])|
  {
    hide Wire, WireAll, ReadWire, At, ValidRec;
    WireEntryAt(rs, i);
    AtInside(rb, start, WireAll(rs), |WireAll(rs[..i])|, Wire(rs[i]));
    ReadWireAt(rb, pos, rs[i]);
    WireNext(rs, i);
    var got := ReadWire(rb, pos);
    return got.value, got.next;
  }

  lemma FreshnessValid(r: Rec, b: bool)
    requires ValidRec(r)
    ensures ValidRec(r.(isFresh := b))
  {
  }

  lemma PackFreshness(r: Rec, b: bool)
    ensures |Pack(r)| > 9 && Pack(r.(isFresh := b)) == Pack(r)[9 := Flag(b)]
  {
  }

  lemma {:induction false} MarkedFresh(rs: seq<Rec>, i: nat, b: bool)
    requires i < |rs|
    ensures Offset(rs, i) + 9 < |PackAll(rs)|
    ensures PackAll(rs[i := rs[i].(isFresh := b)]) == PackAll(rs)[Offset(rs, i) + 9 := Flag(b)]
  {
    hide Pack;
    var rs', init, last := rs[i := rs[i].(isFresh := b)], rs[..|rs| - 1], rs[|rs| - 1];
    EntryAt(rs, i);
    PackSize(rs[i]);
    PackFreshness(rs[i], b);
    if i == |rs| - 1 {
      assert rs'[..|rs| - 1] == init && rs[..i] == init;
    } else {
      MarkedFresh(init, i, b);
      assert rs'[..|rs| - 1] == init[i := init[i].(isFresh := b)] && init[..i] == rs[..i];
    }
  }

  // ------------------------------------------------------------- version 13

  /** A version-13 message has no freshness and no MSN. */
  function Wire13(r: Rec): Bytes {
    [r.typ] + WireTail(r)
  }

  function Wire13All(rs: seq<Rec>): Bytes {
    if |rs| == 0 then [] else Wire13All(rs[..|rs| - 1]) + Wire13(rs[|rs| - 1])
  }

  function ReadWire13(buf: Bytes, pos: nat, msn: nat): Read<Rec> {
    match ReadByte(buf, pos)
    case Short => Short
    case Got(typ, p) =>
      match ReadTail(buf, p)
      case Short => Short
      case Got(t, q) => Got(Rec(typ, true, msn, t.xids, t.key, t.val), q)
  }

  /** The messages of a buffer loaded when `highest` was the highest unused MSN. */
  function Upgraded(rs: seq<Rec>, highest: nat): (r: seq<Rec>)
    requires |rs| <= highest
    ensures |r| == |rs|
  {
    seq(|rs|, i requires 0 <= i < |rs| => rs[i].(isFresh := true, msn := highest - |rs| + i + 1))
  }

  lemma {:induction false} Wire13EntryAt(rs: seq<Rec>, i: nat)
    requires i < |rs|
    ensures At(Wire13All(rs), |Wire13All(rs[..i])|, Wire13(rs[i]))
  {
    hide Wire13;
    var init, last := rs[..|rs| - 1], rs[|rs| - 1];
    if i == |rs| - 1 {
      assert rs[..i] == init;
    } else {
      Wire13EntryAt(init, i);
      assert init[..i] == rs[..i];
      assert [] + Wire13All(init) + Wire13(last) == Wire13All(rs);
      AtWider(Wire13All(init), |Wire13All(rs[..i])|, Wire13(rs[i]), [], Wire13(last));
    }
  }

  lemma ReadWire13At(buf: Bytes, pos: nat, r: Rec, msn: nat)
    requires At(buf, pos, Wire13(r)) && ValidRec(r)
    ensures ReadWire13(buf, pos, msn) == Got(r.(isFresh := true, msn := msn), pos + |Wire13(r)|)
  {
    hide WireTail, ReadTail;
    AtSplit(buf, pos, [r.typ], WireTail(r));
    ReadByteAt(buf, pos, r.typ);
    ReadTailAt(buf, pos + 1, r);
  }

  method ReadNext13(rb: Bytes, start: nat, pos: nat, msn: nat, ghost rs: seq<Rec>, ghost i: nat) returns (r: Rec, next: nat)
    requires At(rb, start, Wire13All(rs)) && i < |rs| && ValidRec(rs[i]) && pos == start + |Wire13All(rs[..i])|
    requires msn < Pow(8)
    ensures r == rs[i].(isFresh := true, msn := msn) && ValidRec(r) && next == start + |Wire13All(rs[..i + 1])|
  {
    hide Wire13, ReadWire13;
    Wire13EntryAt(rs, i);
    AtInside(rb, start, Wire13All(rs), |Wire13All(rs[..i])|, Wire13(rs[i]));
    ReadWire13At(rb, pos, rs[i], msn);
    assert rs[..i + 1][..i] == rs[..i];
    var got := ReadWire13(rb, pos, msn);
    return got.value, got.next;
  }

  lemma UpgradedAt(rs: seq<Rec>, highest: nat, i: nat)
    requires i < |rs| <= highest
    ensures Upgraded(rs, highest)[i] == rs[i].(isFresh := true, msn := highest - |rs| + i + 1)
  {
  }

  /** One more message extends the list of its class. */
  lemma OffsetsNext(rs: seq<Rec>, i: nat, c: Class)
    requires i < |rs|
    ensures OffsetsOf(rs[..i + 1], c) == OffsetsOf(rs[..i], c) + (if ClassOf(rs[i]) == c then [|PackAll(rs[..i])|] else [])
  {
    assert rs[..i + 1][..i] == rs[..i];
  }

  /** deserialize_from_rbuf_v13: takes as many MSNs off the shared counter as there
      are messages, and gives them out in increasing order. All messages are fresh. */
  method Deserialize13(b: MessageBuffer, rb: Bytes, pos: nat, highestUnused: nat, ghost rs: seq<Rec>)
      returns (next: nat, unused: nat, highest: nat, freshOffs: seq<nat>, broadcastOffs: seq<nat>)
    requires b.Valid() && b.recs == []
    requires At(rb, pos, LE(|rs|, 4) + Wire13All(rs)) && |rs| < Pow(4) && |rs| <= highestUnused < Pow(8)
    requires forall i :: 0 <= i < |rs| ==> ValidRec(rs[i])
    modifies b, b.memory
    ensures b.Valid() && b.recs == Upgraded(rs, highestUnused) && next == pos + 4 + |Wire13All(rs)|
    ensures unused == highestUnused - |rs| && highest == highestUnused
    ensures freshOffs == OffsetsOf(b.recs, FreshOnce) && broadcastOffs == OffsetsOf(b.recs, Broadcast)
  {
    hide Wire13All, Pack, PackAll, ValidRec, Pow, At, LE, FromLE, Upgraded, OffsetsOf, AppliesOnce;
    StartEmpty();
    NoOffsets();
    AtSplit(rb, pos, LE(|rs|, 4), Wire13All(rs));
    ReadLEAt(rb, pos, |rs|, 4);
    var n := ReadLE(rb, pos, 4).value;
    next := pos + 4;
    unused := highestUnused - n;
    highest := unused;
    freshOffs, broadcastOffs := [], [];
    b.Resize(b.used);
    ghost var all := Upgraded(rs, highestUnused);
    for i := 0 to n
      invariant fresh(b.memory) && b.Valid() && b.recs == all[..i] && highest == unused + i
      invariant next == pos + 4 + |Wire13All(rs[..i])|
      invariant freshOffs == OffsetsOf(all[..i], FreshOnce) && broadcastOffs == OffsetsOf(all[..i], Broadcast)
    {
      highest := highest + 1;
      var r;
      r, next := ReadNext13(rb, pos + 4, next, highest, rs, i);
      UpgradedAt(rs, highestUnused, i);
      OffsetsNext(all, i, FreshOnce);
      OffsetsNext(all, i, Broadcast);
      assert all[..i + 1] == all[..i] + [all[i]] && all[..i + 1][..i] == all[..i];
      var off := b.Enqueue(r);
      if AppliesOnce(r.typ) {
        freshOffs := freshOffs + [off];
      } else {
        broadcastOffs := broadcastOffs + [off];
      }
    }
    assert rs[..n] == rs && all[..n] == all;
  }

  lemma NoOffsets()
    ensures forall c :: OffsetsOf([], c) == []
  {
  }

  /** MSNs increase within a buffer, and two buffers loaded one after the other share
      none: the second gets smaller ones. */
  lemma UpgradedMsnsDisjoint(a: seq<Rec>, b: seq<Rec>, highest: nat)
    requires |a| + |b| <= highest
    ensures
      var x, y := Upgraded(a, highest), Upgraded(b, highest - |a|);
      && (forall i, j :: 0 <= i < j < |x| ==> x[i].msn < x[j].msn)
      && (forall i, j :: 0 <= i < |x| && 0 <= j < |y| ==> y[j].msn < x[i].msn <= highest)
  {
  }
}
