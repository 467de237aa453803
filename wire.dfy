/** Byte-level encodings used on the wire and the message buffer that is
    written, encrypted in place and read back. Multi-byte integers are
    little-endian; a string is a 7-bit variable-length byte count followed
    by its (already UTF-8 encoded) bytes. */
module Wire {

  newtype byte = x: int | 0 <= x < 256
  type Bytes = seq<byte>
  type ushort = x: int | 0 <= x < 0x1_0000
  type Connection = nat

  datatype Option<T> = None | Some(value: T)

  const TwoTo31: nat := 0x8000_0000
  const TwoTo32: nat := 0x1_0000_0000

  /** Number of bytes needed to hold `bits` bits (NetUtility.BytesToHoldBits). */
  function BytesToHoldBits(bits: nat): (r: nat)
    ensures r * 8 >= bits && (r == 0 || (r - 1) * 8 < bits)
  {
    (bits + 7) / 8
  }

  /** Appending whole bytes to a byte-aligned length keeps it aligned. */
  lemma AlignedBits(bits: nat, n: nat)
    requires bits % 8 == 0
    ensures BytesToHoldBits(bits) == bits / 8 && BytesToHoldBits(bits + 8 * n) == bits / 8 + n
    ensures (bits + 8 * n) % 8 == 0
  {
    var k := bits / 8;
    assert bits == 8 * k;
    assert bits + 8 * n + 7 == 8 * (k + n) + 7;
  }

  function UInt16Bytes(v: ushort): (r: Bytes)
    ensures |r| == 2
  {
    [(v % 256) as byte, (v / 256) as byte]
  }

  function UInt16At(s: Bytes, p: nat): ushort
    requires p + 2 <= |s|
  {
    s[p] as int + 256 * s[p + 1] as int
  }

  lemma UInt16RoundTrip(v: ushort)
    ensures UInt16At(UInt16Bytes(v), 0) == v
  {
  }

  function UInt32Bytes(v: nat): (r: Bytes)
    requires v < TwoTo32
    ensures |r| == 4
  {
    var q1 := v / 256;
    var q2 := q1 / 256;
    [(v % 256) as byte, (q1 % 256) as byte, (q2 % 256) as byte, (q2 / 256) as byte]
  }

  function UInt32At(s: Bytes, p: nat): (r: nat)
    requires p + 4 <= |s|
    ensures r < TwoTo32
  {
    s[p] as int + 256 * s[p + 1] as int + 0x1_0000 * s[p + 2] as int + 0x100_0000 * s[p + 3] as int
  }

  lemma UInt32RoundTrip(v: nat)
    requires v < TwoTo32
    ensures UInt32At(UInt32Bytes(v), 0) == v
  {
    var q1 := v / 256;
    var q2 := q1 / 256;
    var r := UInt32Bytes(v);
    assert r[0] as int == v % 256 && r[1] as int == q1 % 256 && r[2] as int == q2 % 256 && r[3] as int == q2 / 256;
    assert q2 == q2 % 256 + 256 * (q2 / 256);
    assert q1 == q1 % 256 + 256 * q2;
    assert v == v % 256 + 256 * q1;
  }

  /** 7-bit variable-length encoding of a natural number, low group first. */
  function VarUInt(n: nat): (r: Bytes)
    ensures |r| >= 1
    decreases n
  {
    if n < 128 then [n as byte] else [(n % 128 + 128) as byte] + VarUInt(n / 128)
  }

  /** Decodes a variable-length number starting at `p` of `s`; `None` when
      `s` ends before the terminating byte. Yields the value and the next position. */
  function ReadVarUInt(s: Bytes, p: nat): (r: Option<(nat, nat)>)
    ensures r.Some? ==> p < r.value.1 <= |s|
    decreases |s| - p
  {
    if p >= |s| then None
    else if s[p] < 128 then Some((s[p] as nat, p + 1))
    else match ReadVarUInt(s, p + 1)
      case None => None
      case Some((v, q)) => Some(((s[p] as int - 128) + 128 * v, q))
  }

  lemma {:induction false} VarUIntRoundTrip(n: nat, s: Bytes, p: nat)
    requires p + |VarUInt(n)| <= |s| && s[p..p + |VarUInt(n)|] == VarUInt(n)
    ensures ReadVarUInt(s, p) == Some((n, p + |VarUInt(n)|))
    decreases n
  {
    var e := VarUInt(n);
    assert s[p] == e[0];
    if n >= 128 {
      var t := VarUInt(n / 128);
      assert e == [(n % 128 + 128) as byte] + t;
      assert s[p + 1..p + 1 + |t|] == t by {
        assert s[p + 1..p + 1 + |t|] == s[p..p + |e|][1..];
      }
      VarUIntRoundTrip(n / 128, s, p + 1);
    }
  }

  /** The bytes `Write(string)` appends: the byte count, then the bytes. */
  function StringBytes(str: Bytes): (r: Bytes)
    ensures |r| > |str| && r[|r| - |str|..] == str
  {
    VarUInt(|str|) + str
  }

  /** Reads a string at `p` of the readable bytes `s`: the count, and then that
      many bytes if they are all readable. */
  function StringAt(s: Bytes, p: nat): (r: Option<(Bytes, nat)>)
    ensures r.Some? ==> p + |r.value.0| < r.value.1 <= |s| && r.value.0 == s[r.value.1 - |r.value.0|..r.value.1]
  {
    match ReadVarUInt(s, p)
    case None => None
    case Some((len, q)) =>
      if q + len <= |s| then
        Some((s[q..q + len], q + len))
      else None
  }

  lemma StringRoundTrip(str: Bytes, s: Bytes, p: nat)
    requires p + |StringBytes(str)| <= |s| && s[p..p + |StringBytes(str)|] == StringBytes(str)
    ensures StringAt(s, p) == Some((str, p + |StringBytes(str)|))
  {
    var h := VarUInt(|str|);
    assert s[p..p + |h|] == h by {
      assert s[p..p + |h|] == s[p..p + |StringBytes(str)|][..|h|];
    }
    VarUIntRoundTrip(|str|, s, p);
    assert s[p + |h|..p + |h| + |str|] == str by {
      assert s[p + |h|..p + |h| + |str|] == s[p..p + |StringBytes(str)|][|h|..];
    }
  }

  /** A string written after `pre` is read back from position `|pre|`, whatever follows it. */
  lemma StringAfter(pre: Bytes, str: Bytes, post: Bytes)
    ensures StringAt(pre + StringBytes(str) + post, |pre|) == Some((str, |pre| + |StringBytes(str)|))
  {
    var s := pre + StringBytes(str) + post;
    assert s[|pre|..|pre| + |StringBytes(str)|] == StringBytes(str);
    StringRoundTrip(str, s, |pre|);
  }

  /** ASCII lower-casing of one byte. */
  function LowerByte(b: byte): (r: byte)
    ensures 'A' as int <= b as int <= 'Z' as int ==> r as int == b as int + 32
    ensures !('A' as int <= b as int <= 'Z' as int) ==> r == b
  {
    if 65 <= b <= 90 then b + 32 else b
  }

  function ToLower(s: Bytes): (r: Bytes)
    ensures |r| == |s| && forall i :: 0 <= i < |s| ==> r[i] == LowerByte(s[i])
  {
    seq(|s|, i requires 0 <= i < |s| => LowerByte(s[i]))
  }

  /** A message buffer (NetBuffer): the bytes, the length in bits and the
      read position. The read position counts whole bytes. */
  class NetMessage {
    var data: Bytes
    var bitLength: nat
    var readPos: nat
    const sender: Option<Connection>

    ghost predicate Valid()
      reads this
    {
      BytesToHoldBits(bitLength) <= |data|
    }

    /** `LengthBytes` bytes of payload. */
    function Content(): (r: Bytes)
      reads this
      requires Valid()
      ensures |r| == BytesToHoldBits(bitLength)
    {
      data[..BytesToHoldBits(bitLength)]
    }

    /** The bytes whose eight bits all lie within `bitLength`: what a read can reach. */
    function Readable(): (r: Bytes)
      reads this
      requires Valid()
      ensures |r| == bitLength / 8
    {
      data[..bitLength / 8]
    }

    constructor Outgoing()
      ensures Valid() && data == [] && bitLength == 0 && readPos == 0 && sender == None
    {
      data, bitLength, readPos, sender := [], 0, 0, None;
    }

    /** A received frame: the bytes and bit length that were sent, read from the start. */
    constructor Incoming(bytes: Bytes, bits: nat, from: Option<Connection>)
      requires BytesToHoldBits(bits) <= |bytes|
      ensures Valid() && data == bytes && bitLength == bits && readPos == 0 && sender == from
    {
      data, bitLength, readPos, sender := bytes, bits, 0, from;
    }

    method WriteBytes(b: Bytes)
      requires Valid() && bitLength % 8 == 0
      modifies this`data, this`bitLength
      ensures Valid() && bitLength % 8 == 0
      ensures Content() == old(Content()) + b && data == Content()
    {
      AlignedBits(bitLength, |b|);
      data := data[..BytesToHoldBits(bitLength)] + b;
      bitLength := bitLength + 8 * |b|;
    }

    method WriteByte(b: byte)
      requires Valid() && bitLength % 8 == 0
      modifies this`data, this`bitLength
      ensures Valid() && bitLength % 8 == 0
      ensures Content() == old(Content()) + [b] && data == Content()
    {
      WriteBytes([b]);
    }

    method WriteUInt16(v: ushort)
      requires Valid() && bitLength % 8 == 0
      modifies this`data, this`bitLength
      ensures Valid() && bitLength % 8 == 0
      ensures Content() == old(Content()) + UInt16Bytes(v) && data == Content()
    {
      WriteBytes(UInt16Bytes(v));
    }

    method WriteUInt32(v: nat)
      requires Valid() && bitLength % 8 == 0 && v < TwoTo32
      modifies this`data, this`bitLength
      ensures Valid() && bitLength % 8 == 0
      ensures Content() == old(Content()) + UInt32Bytes(v) && data == Content()
    {
      WriteBytes(UInt32Bytes(v));
    }

    method WriteString(str: Bytes)
      requires Valid() && bitLength % 8 == 0
      modifies this`data, this`bitLength
      ensures Valid() && bitLength % 8 == 0
      ensures Content() == old(Content()) + StringBytes(str) && data == Content()
    {
      WriteBytes(StringBytes(str));
    }

    method ReadByte() returns (r: Option<byte>)
      requires Valid()
      modifies this`readPos
      ensures r.Some? <==> old(readPos) + 1 <= |Readable()|
      ensures r.Some? ==> r.value == Readable()[old(readPos)] && readPos == old(readPos) + 1
      ensures r.None? ==> readPos == old(readPos)
    {
      if readPos + 1 <= bitLength / 8 {
        r := Some(data[readPos]);
        readPos := readPos + 1;
      } else {
        r := None;
      }
    }

    method ReadUInt16() returns (r: Option<ushort>)
      requires Valid()
      modifies this`readPos
      ensures r.Some? <==> old(readPos) + 2 <= |Readable()|
      ensures r.Some? ==> r.value == UInt16At(Readable(), old(readPos)) && readPos == old(readPos) + 2
      ensures r.None? ==> readPos == old(readPos)
    {
      if readPos + 2 <= bitLength / 8 {
        r := Some(UInt16At(data[..bitLength / 8], readPos));
        readPos := readPos + 2;
      } else {
        r := None;
      }
    }

    method ReadUInt32() returns (r: Option<nat>)
      requires Valid()
      modifies this`readPos
      ensures r.Some? <==> old(readPos) + 4 <= |Readable()|
      ensures r.Some? ==> r.value == UInt32At(Readable(), old(readPos)) && readPos == old(readPos) + 4
      ensures r.None? ==> readPos == old(readPos)
    {
      if readPos + 4 <= bitLength / 8 {
        r := Some(UInt32At(data[..bitLength / 8], readPos));
        readPos := readPos + 4;
      } else {
        r := None;
      }
    }

    method ReadString() returns (r: Option<Bytes>)
      requires Valid()
      modifies this`readPos
      ensures StringAt(Readable(), old(readPos)).None? ==> r.None? && readPos == old(readPos)
      ensures StringAt(Readable(), old(readPos)).Some? ==>
        r == Some(StringAt(Readable(), old(readPos)).value.0) && readPos == StringAt(Readable(), old(readPos)).value.1
    {
      match StringAt(data[..bitLength / 8], readPos)
      case None => r := None;
      case Some((str, q)) => r := Some(str); readPos := q;
    }
  }
}
