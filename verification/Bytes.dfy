/** Numbers as bytes, and reading back at a position what was written there. */
module Bytes {

  newtype byte = x: int | 0 <= x < 256

  type Bytes = seq<byte>

  function Pow(w: nat): nat {
    if w == 0 then 1 else 256 * Pow(w - 1)
  }

  /** `w` bytes, least significant first. */
  function LE(n: nat, w: nat): (r: Bytes)
    ensures |r| == w
  {
    if w == 0 then [] else [(n % 256) as byte] + LE(n / 256, w - 1)
  }

  function FromLE(bs: Bytes): nat {
    if |bs| == 0 then 0 else bs[0] as int + 256 * FromLE(bs[1..])
  }

  lemma {:induction false} FromLEInverse(n: nat, w: nat)
    requires n < Pow(w)
    ensures FromLE(LE(n, w)) == n
  {
    if w > 0 {
      FromLEInverse(n / 256, w - 1);
      assert LE(n, w)[1..] == LE(n / 256, w - 1);
    }
  }

  lemma Pows()
    ensures Pow(4) == 0x1_0000_0000 && Pow(8) == 0x1_0000_0000 * 0x1_0000_0000
  {
  }

  /** The bytes `bs` stand at position `pos` of the buffer. */
  ghost predicate At(buf: Bytes, pos: nat, bs: Bytes) {
    pos + |bs| <= |buf| && buf[pos..pos + |bs|] == bs
  }

  lemma AtSplit(buf: Bytes, pos: nat, a: Bytes, b: Bytes)
    requires At(buf, pos, a + b)
    ensures At(buf, pos, a) && At(buf, pos + |a|, b)
  {
    var whole := buf[pos..pos + |a + b|];
    assert whole[..|a|] == a && whole[|a|..] == b;
    assert buf[pos..pos + |a|] == whole[..|a|] && buf[pos + |a|..pos + |a| + |b|] == whole[|a|..];
  }

  lemma AtWider(buf: Bytes, pos: nat, bs: Bytes, pre: Bytes, post: Bytes)
    requires At(buf, pos, bs)
    ensures At(pre + buf + post, |pre| + pos, bs)
  {
  }

  lemma AtInside(buf: Bytes, pos: nat, whole: Bytes, off: nat, part: Bytes)
    requires At(buf, pos, whole) && At(whole, off, part)
    ensures At(buf, pos + off, part)
  {
    var inner := buf[pos + off..pos + off + |part|];
    forall i | 0 <= i < |part| ensures inner[i] == part[i] {
      assert inner[i] == buf[pos + off + i] == buf[pos..pos + |whole|][off + i];
      assert whole[off..off + |part|][i] == whole[off + i];
    }
  }

  /** A value read, and the position behind it; or the end of the buffer came first,
      which trips an assertion in the reader. */
  datatype Read<T> = Got(value: T, next: nat) | Short

  function ReadLE(buf: Bytes, pos: nat, w: nat): Read<nat> {
    if pos + w <= |buf| then Got(FromLE(buf[pos..pos + w]), pos + w) else Short
  }

  lemma ReadLEAt(buf: Bytes, pos: nat, n: nat, w: nat)
    requires At(buf, pos, LE(n, w)) && n < Pow(w)
    ensures ReadLE(buf, pos, w) == Got(n, pos + w)
  {
    FromLEInverse(n, w);
  }

  function ReadByte(buf: Bytes, pos: nat): Read<byte> {
    if pos < |buf| then Got(buf[pos], pos + 1) else Short
  }

  lemma ReadByteAt(buf: Bytes, pos: nat, b: byte)
    requires At(buf, pos, [b])
    ensures ReadByte(buf, pos) == Got(b, pos + 1)
  {
  }

  function ReadBytes(buf: Bytes, pos: nat, n: nat): Read<Bytes> {
    if pos + n <= |buf| then Got(buf[pos..pos + n], pos + n) else Short
  }

  lemma ReadBytesAt(buf: Bytes, pos: nat, bs: Bytes)
    requires At(buf, pos, bs)
    ensures ReadBytes(buf, pos, |bs|) == Got(bs, pos + |bs|)
  {
  }

  /** wbuf_ulonglong: the high word first, each word least significant byte first. */
  function U64(n: nat): (r: Bytes)
    ensures |r| == 8
  {
    LE(n / 0x1_0000_0000, 4) + LE(n % 0x1_0000_0000, 4)
  }

  function ReadU64(buf: Bytes, pos: nat): Read<nat> {
    match ReadLE(buf, pos, 4)
    case Short => Short
    case Got(hi, p) =>
      match ReadLE(buf, p, 4)
      case Short => Short
      case Got(lo, q) => Got(hi * 0x1_0000_0000 + lo, q)
  }

  lemma ReadU64At(buf: Bytes, pos: nat, n: nat)
    requires At(buf, pos, U64(n)) && n < Pow(8)
    ensures ReadU64(buf, pos) == Got(n, pos + 8)
  {
    Pows();
    AtSplit(buf, pos, LE(n / 0x1_0000_0000, 4), LE(n % 0x1_0000_0000, 4));
    ReadLEAt(buf, pos, n / 0x1_0000_0000, 4);
    ReadLEAt(buf, pos + 4, n % 0x1_0000_0000, 4);
  }

  /** memcpy to an offset of an array. */
  method WriteAt(mem: array<byte>, off: nat, bs: Bytes)
    requires off + |bs| <= mem.Length
    modifies mem
    ensures mem[..off] == old(mem[..off]) && mem[..off + |bs|] == old(mem[..off]) + bs
  {
    forall j | 0 <= j < |bs| {
      mem[off + j] := bs[j];
    }
    assert mem[..off] == old(mem[..off]);
    var all := mem[..off + |bs|];
    assert |all| == off + |bs| && forall j :: 0 <= j < off ==> all[j] == old(mem[j]);
    assert forall j :: off <= j < off + |bs| ==> all[j] == bs[j - off];
  }
}
