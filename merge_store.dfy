/** Byte-order helpers of the MergeStore micro-benchmark: packing 32- and
    64-bit integers and UTF-16 chars into a Java `byte[]`, big- and
    little-endian, and reading them back.

    Java's integral types are modelled by their two's-complement bit
    patterns: `byte` is `bv8`, `char` is `bv16`, `int` is `bv32` and `long`
    is `bv64`. The cast `(byte) x` keeps the low eight bits (`ToByte`), and
    `b & 0xff` zero-extends a byte (`b as JInt`). Java's `>>` is an
    arithmetic shift and bit-vector `>>` a logical one; they differ only in
    the bits above the shifted-in position, and every shift here (at most 24
    on an int, 56 on a long) is followed by a cast to `byte` that drops them.
 */
module MergeStore {

  type Byte = bv8
  type JChar = bv16
  type JInt = bv32
  type JLong = bv64

  /** The host's `ByteOrder.nativeOrder()`. */
  datatype ByteOrder = LittleEndian | BigEndian

  /** HI_BYTE_SHIFT as the static initialiser sets it for a host order. */
  function HiByteShift(native: ByteOrder): JInt
  {
    if native == LittleEndian then 8 else 0
  }

  /** LO_BYTE_SHIFT as the static initialiser sets it for a host order. */
  function LoByteShift(native: ByteOrder): JInt
  {
    if native == LittleEndian then 0 else 8
  }

  /** `(byte) x` on an int. */
  function ToByte(x: JInt): Byte
  {
    (x & 0xff) as Byte
  }

  /** `(byte) x` on a long. */
  function LongToByte(x: JLong): Byte
  {
    (x & 0xff) as Byte
  }

  /** The bytes of `s` in the opposite order. */
  function Reversed(s: seq<Byte>): (r: seq<Byte>)
    ensures |r| == |s|
    ensures forall i :: 0 <= i < |s| ==> r[i] == s[|s| - 1 - i]
  {
    seq(|s|, i requires 0 <= i < |s| => s[|s| - 1 - i])
  }

  /** `s` with the bytes `b` stored from index `offset` on: what a writer
      leaves in the array. */
  function Overwrite(s: seq<Byte>, offset: int, b: seq<Byte>): (r: seq<Byte>)
    requires 0 <= offset && offset + |b| <= |s|
    ensures |r| == |s|
    ensures forall i :: 0 <= i < |s| && offset <= i < offset + |b| ==> r[i] == b[i - offset]
    ensures forall i :: 0 <= i < |s| && !(offset <= i < offset + |b|) ==> r[i] == s[i]
  {
    s[..offset] + b + s[offset + |b|..]
  }

  // ---------------------------------------------------------------------
  // 32-bit values

  /** getIntB: the big-endian int in `bytes[offset .. offset + 3]`. */
  function GetIntB(bytes: seq<Byte>, offset: int): JInt
    requires 0 <= offset && offset + 4 <= |bytes|
  {
    ((bytes[offset] as JInt) << 24)
    | ((bytes[offset + 1] as JInt) << 16)
    | ((bytes[offset + 2] as JInt) << 8)
    | (bytes[offset + 3] as JInt)
  }

  /** getIntL: the little-endian int in `bytes[offset .. offset + 3]`. */
  function GetIntL(bytes: seq<Byte>, offset: int): JInt
    requires 0 <= offset && offset + 4 <= |bytes|
  {
    (bytes[offset] as JInt)
    | ((bytes[offset + 1] as JInt) << 8)
    | ((bytes[offset + 2] as JInt) << 16)
    | ((bytes[offset + 3] as JInt) << 24)
  }

  /** The four bytes setIntB stores, in array order. */
  function IntBytesB(value: JInt): (b: seq<Byte>)
    ensures |b| == 4
    ensures GetIntB(b, 0) == value
  {
    [ToByte(value >> 24), ToByte(value >> 16), ToByte(value >> 8), ToByte(value)]
  }

  /** The four bytes setIntL stores, in array order: the big-endian bytes
      reversed. */
  function IntBytesL(value: JInt): (b: seq<Byte>)
    ensures |b| == 4
    ensures GetIntL(b, 0) == value
  {
    [ToByte(value), ToByte(value >> 8), ToByte(value >> 16), ToByte(value >> 24)]
  }

  /** The little-endian bytes of a value are its big-endian bytes in
      reverse. */
  lemma IntBytesLReversesB(value: JInt)
    ensures IntBytesL(value) == Reversed(IntBytesB(value))
  {
    var l, r := IntBytesL(value), Reversed(IntBytesB(value));
    assert l[0] == r[0] && l[1] == r[1] && l[2] == r[2] && l[3] == r[3];
  }

  /** Integer.reverseBytes, as java.lang.Integer computes it: the value
      whose big-endian bytes are the little-endian bytes of `i`. */
  function ReverseBytes(i: JInt): (r: JInt)
    ensures IntBytesB(r) == IntBytesL(i)
  {
    (i << 24) | ((i & 0xff00) << 8) | ((i >> 8) & 0xff00) | (i >> 24)
  }

  /** getIntRB: the big-endian read, byte-reversed, is the little-endian
      read. */
  function GetIntRB(bytes: seq<Byte>, offset: int): (r: JInt)
    requires 0 <= offset && offset + 4 <= |bytes|
    ensures r == GetIntL(bytes, offset)
  {
    ReverseBytes(GetIntB(bytes, offset))
  }

  /** getIntRL: the little-endian read, byte-reversed, is the big-endian
      read. */
  function GetIntRL(bytes: seq<Byte>, offset: int): (r: JInt)
    requires 0 <= offset && offset + 4 <= |bytes|
    ensures r == GetIntB(bytes, offset)
  {
    ReverseBytes(GetIntL(bytes, offset))
  }

  lemma ReverseBytesInvolutive(i: JInt)
    ensures ReverseBytes(ReverseBytes(i)) == i
  {
  }

  /** A read sees only the four bytes it decodes. */
  lemma IntReadsWindow(bytes: seq<Byte>, offset: int)
    requires 0 <= offset && offset + 4 <= |bytes|
    ensures GetIntB(bytes, offset) == GetIntB(bytes[offset..offset + 4], 0)
    ensures GetIntL(bytes, offset) == GetIntL(bytes[offset..offset + 4], 0)
  {
  }

  /** Decoding is injective: the four bytes are the encoding of what they
      decode to, so encoder and decoder are mutual inverses. */
  lemma IntBytesOfRead(bytes: seq<Byte>, offset: int)
    requires 0 <= offset && offset + 4 <= |bytes|
    ensures IntBytesB(GetIntB(bytes, offset)) == bytes[offset..offset + 4]
    ensures IntBytesL(GetIntL(bytes, offset)) == bytes[offset..offset + 4]
  {
  }

  /** setIntB followed by getIntB at the same offset gives the value back. */
  lemma IntBRoundTrip(bytes: seq<Byte>, offset: int, value: JInt)
    requires 0 <= offset && offset + 4 <= |bytes|
    ensures GetIntB(Overwrite(bytes, offset, IntBytesB(value)), offset) == value
  {
    var w := Overwrite(bytes, offset, IntBytesB(value));
    assert w[offset..offset + 4] == IntBytesB(value);
    IntReadsWindow(w, offset);
  }

  /** setIntL followed by getIntL at the same offset gives the value back. */
  lemma IntLRoundTrip(bytes: seq<Byte>, offset: int, value: JInt)
    requires 0 <= offset && offset + 4 <= |bytes|
    ensures GetIntL(Overwrite(bytes, offset, IntBytesL(value)), offset) == value
  {
    var w := Overwrite(bytes, offset, IntBytesL(value));
    assert w[offset..offset + 4] == IntBytesL(value);
    IntReadsWindow(w, offset);
  }

  /** setIntB: stores `value` big-endian at `bytes[offset .. offset + 3]`. */
  method SetIntB(bytes: array<Byte>, offset: int, value: JInt)
    requires 0 <= offset && offset + 4 <= bytes.Length
    modifies bytes
    ensures bytes[..] == Overwrite(old(bytes[..]), offset, IntBytesB(value))
    ensures GetIntB(bytes[..], offset) == value
  {
    bytes[offset] := ToByte(value >> 24);
    bytes[offset + 1] := ToByte(value >> 16);
    bytes[offset + 2] := ToByte(value >> 8);
    bytes[offset + 3] := ToByte(value);
    IntBRoundTrip(old(bytes[..]), offset, value);
  }

  /** setIntL: stores `value` little-endian at `bytes[offset .. offset + 3]`. */
  method SetIntL(bytes: array<Byte>, offset: int, value: JInt)
    requires 0 <= offset && offset + 4 <= bytes.Length
    modifies bytes
    ensures bytes[..] == Overwrite(old(bytes[..]), offset, IntBytesL(value))
    ensures GetIntL(bytes[..], offset) == value
  {
    bytes[offset] := ToByte(value);
    bytes[offset + 1] := ToByte(value >> 8);
    bytes[offset + 2] := ToByte(value >> 16);
    bytes[offset + 3] := ToByte(value >> 24);
    IntLRoundTrip(old(bytes[..]), offset, value);
  }

  /** setIntRL: reversing the bytes and storing little-endian stores the
      original value big-endian, exactly as setIntB does. */
  method SetIntRL(bytes: array<Byte>, offset: int, value: JInt)
    requires 0 <= offset && offset + 4 <= bytes.Length
    modifies bytes
    ensures bytes[..] == Overwrite(old(bytes[..]), offset, IntBytesB(value))
  {
    var reversed := ReverseBytes(value);
    SetIntL(bytes, offset, reversed);
    ReversedLittleIsBig(value);
  }

  /** setIntRB: reversing the bytes and storing big-endian stores the
      original value little-endian, exactly as setIntL does. */
  method SetIntRB(bytes: array<Byte>, offset: int, value: JInt)
    requires 0 <= offset && offset + 4 <= bytes.Length
    modifies bytes
    ensures bytes[..] == Overwrite(old(bytes[..]), offset, IntBytesL(value))
  {
    var reversed := ReverseBytes(value);
    SetIntB(bytes, offset, reversed);
  }

  lemma ReversedLittleIsBig(value: JInt)
    ensures IntBytesL(ReverseBytes(value)) == IntBytesB(value)
    ensures IntBytesB(ReverseBytes(value)) == IntBytesL(value)
  {
  }

  /** The R readers undo the R writers: getIntRB reads back what setIntRB
      stored, getIntRL what setIntRL stored. */
  lemma IntReversedRoundTrip(bytes: seq<Byte>, offset: int, value: JInt)
    requires 0 <= offset && offset + 4 <= |bytes|
    ensures GetIntRB(Overwrite(bytes, offset, IntBytesL(value)), offset) == value
    ensures GetIntRL(Overwrite(bytes, offset, IntBytesB(value)), offset) == value
  {
    IntLRoundTrip(bytes, offset, value);
    IntBRoundTrip(bytes, offset, value);
  }

  // ---------------------------------------------------------------------
  // setIntBU, under the reading UNSAFE.putByte(bytes, BASE + i, b) ==
  // bytes[i] := b and UNSAFE.getByte(bytes, BASE + i) == bytes[i]

  /** The four bytes setIntBU stores as written: `value >> 8` before
      `value >> 16`. */
  function IntBytesBUAsWritten(value: JInt): (b: seq<Byte>)
    ensures |b| == 4
    ensures b[0] == IntBytesB(value)[0] && b[3] == IntBytesB(value)[3]
    ensures b[1] == IntBytesB(value)[2] && b[2] == IntBytesB(value)[1]
  {
    [ToByte(value >> 24), ToByte(value >> 8), ToByte(value >> 16), ToByte(value)]
  }

  /** setIntBU as written. */
  method SetIntBUAsWritten(bytes: array<Byte>, offset: int, value: JInt)
    requires 0 <= offset && offset + 4 <= bytes.Length
    modifies bytes
    ensures bytes[..] == Overwrite(old(bytes[..]), offset, IntBytesBUAsWritten(value))
  {
    bytes[offset] := ToByte(value >> 24);
    bytes[offset + 1] := ToByte(value >> 8);
    bytes[offset + 2] := ToByte(value >> 16);
    bytes[offset + 3] := ToByte(value);
  }

  /** The as-written setIntBU does not round-trip with the big-endian read
      (getIntBU reads exactly what getIntB reads): storing 0x00010200 reads
      back as 0x00020100. */
  lemma SetIntBUAsWrittenSwapsMiddleBytes()
    ensures GetIntB(IntBytesBUAsWritten(0x0001_0200), 0) == 0x0002_0100
    ensures exists v: JInt :: GetIntB(IntBytesBUAsWritten(v), 0) != v
  {
    assert GetIntB(IntBytesBUAsWritten(0x0001_0200), 0) != 0x0001_0200;
  }

  /** The as-written bytes are the big-endian ones exactly when the two
      middle bytes of the value are equal. */
  lemma SetIntBUAsWrittenAgreesIff(value: JInt)
    ensures IntBytesBUAsWritten(value) == IntBytesB(value) <==> ToByte(value >> 8) == ToByte(value >> 16)
  {
    var w, b := IntBytesBUAsWritten(value), IntBytesB(value);
    if ToByte(value >> 8) == ToByte(value >> 16) {
      assert w == b;
    } else {
      assert w[1] != b[1];
    }
  }

  /** setIntBU as evidently intended: the same bytes as setIntB. */
  method SetIntBU(bytes: array<Byte>, offset: int, value: JInt)
    requires 0 <= offset && offset + 4 <= bytes.Length
    modifies bytes
    ensures bytes[..] == Overwrite(old(bytes[..]), offset, IntBytesB(value))
    ensures GetIntB(bytes[..], offset) == value
  {
    bytes[offset] := ToByte(value >> 24);
    bytes[offset + 1] := ToByte(value >> 16);
    bytes[offset + 2] := ToByte(value >> 8);
    bytes[offset + 3] := ToByte(value);
    IntBRoundTrip(old(bytes[..]), offset, value);
  }

  // ---------------------------------------------------------------------
  // 64-bit values

  /** getLongB: the big-endian long in `bytes[offset .. offset + 7]`. */
  function GetLongB(bytes: seq<Byte>, offset: int): JLong
    requires 0 <= offset && offset + 8 <= |bytes|
  {
    ((bytes[offset] as JLong) << 56)
    | ((bytes[offset + 1] as JLong) << 48)
    | ((bytes[offset + 2] as JLong) << 40)
    | ((bytes[offset + 3] as JLong) << 32)
    | ((bytes[offset + 4] as JLong) << 24)
    | ((bytes[offset + 5] as JLong) << 16)
    | ((bytes[offset + 6] as JLong) << 8)
    | (bytes[offset + 7] as JLong)
  }

  /** getLongL: the little-endian long in `bytes[offset .. offset + 7]`. */
  function GetLongL(bytes: seq<Byte>, offset: int): JLong
    requires 0 <= offset && offset + 8 <= |bytes|
  {
    (bytes[offset] as JLong)
    | ((bytes[offset + 1] as JLong) << 8)
    | ((bytes[offset + 2] as JLong) << 16)
    | ((bytes[offset + 3] as JLong) << 24)
    | ((bytes[offset + 4] as JLong) << 32)
    | ((bytes[offset + 5] as JLong) << 40)
    | ((bytes[offset + 6] as JLong) << 48)
    | ((bytes[offset + 7] as JLong) << 56)
  }

  /** The eight bytes setLongB stores, in array order. */
  function LongBytesB(value: JLong): (b: seq<Byte>)
    ensures |b| == 8
    ensures GetLongB(b, 0) == value
  {
    [LongToByte(value >> 56), LongToByte(value >> 48), LongToByte(value >> 40), LongToByte(value >> 32),
     LongToByte(value >> 24), LongToByte(value >> 16), LongToByte(value >> 8), LongToByte(value)]
  }

  /** The eight bytes setLongL stores, in array order: the big-endian
      bytes reversed. */
  function LongBytesL(value: JLong): (b: seq<Byte>)
    ensures |b| == 8
    ensures GetLongL(b, 0) == value
  {
    [LongToByte(value), LongToByte(value >> 8), LongToByte(value >> 16), LongToByte(value >> 24),
     LongToByte(value >> 32), LongToByte(value >> 40), LongToByte(value >> 48), LongToByte(value >> 56)]
  }

  /** The little-endian bytes of a long are its big-endian bytes in
      reverse. */
  lemma LongBytesLReversesB(value: JLong)
    ensures LongBytesL(value) == Reversed(LongBytesB(value))
  {
    var l, r := LongBytesL(value), Reversed(LongBytesB(value));
    assert l[0] == r[0] && l[1] == r[1] && l[2] == r[2] && l[3] == r[3];
    assert l[4] == r[4] && l[5] == r[5] && l[6] == r[6] && l[7] == r[7];
  }

  /** Long.reverseBytes, as java.lang.Long computes it. */
  function ReverseBytesLong(i: JLong): (r: JLong)
  {
    var j := ((i & 0x00ff_00ff_00ff_00ff) << 8) | ((i >> 8) & 0x00ff_00ff_00ff_00ff);
    (j << 48) | ((j & 0xffff_0000) << 16) | ((j >> 16) & 0xffff_0000) | (j >> 48)
  }

  /** getLongRB: as written, it reverses nothing. */
  function GetLongRB(bytes: seq<Byte>, offset: int): JLong
    requires 0 <= offset && offset + 8 <= |bytes|
  {
    GetLongB(bytes, offset)
  }

  /** getLongRL: as written, it reverses nothing. */
  function GetLongRL(bytes: seq<Byte>, offset: int): JLong
    requires 0 <= offset && offset + 8 <= |bytes|
  {
    GetLongL(bytes, offset)
  }

  lemma ReverseBytesLongInvolutive(i: JLong)
    ensures ReverseBytesLong(ReverseBytesLong(i)) == i
  {
  }

  /** A read sees only the eight bytes it decodes. */
  lemma LongReadsWindow(bytes: seq<Byte>, offset: int)
    requires 0 <= offset && offset + 8 <= |bytes|
    ensures GetLongB(bytes, offset) == GetLongB(bytes[offset..offset + 8], 0)
    ensures GetLongL(bytes, offset) == GetLongL(bytes[offset..offset + 8], 0)
  {
  }

  /** Decoding is injective: the eight bytes are the encoding of what they
      decode to. */
  lemma LongBytesOfRead(bytes: seq<Byte>, offset: int)
    requires 0 <= offset && offset + 8 <= |bytes|
    ensures LongBytesB(GetLongB(bytes, offset)) == bytes[offset..offset + 8]
    ensures LongBytesL(GetLongL(bytes, offset)) == bytes[offset..offset + 8]
  {
  }

  /** setLongB followed by getLongB at the same offset gives the value back. */
  lemma LongBRoundTrip(bytes: seq<Byte>, offset: int, value: JLong)
    requires 0 <= offset && offset + 8 <= |bytes|
    ensures GetLongB(Overwrite(bytes, offset, LongBytesB(value)), offset) == value
  {
    var w := Overwrite(bytes, offset, LongBytesB(value));
    assert w[offset..offset + 8] == LongBytesB(value);
    LongReadsWindow(w, offset);
  }

  /** setLongL followed by getLongL at the same offset gives the value back. */
  lemma LongLRoundTrip(bytes: seq<Byte>, offset: int, value: JLong)
    requires 0 <= offset && offset + 8 <= |bytes|
    ensures GetLongL(Overwrite(bytes, offset, LongBytesL(value)), offset) == value
  {
    var w := Overwrite(bytes, offset, LongBytesL(value));
    assert w[offset..offset + 8] == LongBytesL(value);
    LongReadsWindow(w, offset);
  }

  /** The long R readers round-trip with the plain writers, and read back a
      byte-reversed value from the R writers: after setLongRB (which stores
      little-endian) getLongRB returns reverseBytes(value). */
  lemma LongReversedReadersDoNotReverse(bytes: seq<Byte>, offset: int, value: JLong)
    requires 0 <= offset && offset + 8 <= |bytes|
    ensures GetLongRB(Overwrite(bytes, offset, LongBytesB(value)), offset) == value
    ensures GetLongRL(Overwrite(bytes, offset, LongBytesL(value)), offset) == value
    ensures GetLongRB(Overwrite(bytes, offset, LongBytesL(value)), offset) == ReverseBytesLong(value)
    ensures GetLongRL(Overwrite(bytes, offset, LongBytesB(value)), offset) == ReverseBytesLong(value)
  {
    LongBRoundTrip(bytes, offset, value);
    LongLRoundTrip(bytes, offset, value);
    LongLRoundTrip(bytes, offset, ReverseBytesLong(value));
    LongBRoundTrip(bytes, offset, ReverseBytesLong(value));
    ReversedLongLittleIsBig(value);
  }

  /** So the R writers and R readers of longs do not round-trip: storing 1
      with setLongRB reads back as 1 << 56. */
  lemma LongReversedPairDoesNotRoundTrip()
    ensures GetLongRB(LongBytesL(1), 0) == 0x0100_0000_0000_0000
  {
  }

  /** getLongRB as the `R` (ReverseBytes) suffix intends: the big-endian
      read, byte-reversed, which is the little-endian read. */
  function GetLongRBIntended(bytes: seq<Byte>, offset: int): (r: JLong)
    requires 0 <= offset && offset + 8 <= |bytes|
    ensures r == GetLongL(bytes, offset)
  {
    var v := GetLongB(bytes, offset);
    LongBytesOfRead(bytes, offset);
    LongReadsWindow(bytes, offset);
    ReversedLongLittleIsBig(v);
    ReverseBytesLong(v)
  }

  /** getLongRL as the `R` suffix intends: the little-endian read,
      byte-reversed, which is the big-endian read. */
  function GetLongRLIntended(bytes: seq<Byte>, offset: int): (r: JLong)
    requires 0 <= offset && offset + 8 <= |bytes|
    ensures r == GetLongB(bytes, offset)
  {
    var v := GetLongL(bytes, offset);
    LongBytesOfRead(bytes, offset);
    LongReadsWindow(bytes, offset);
    ReversedLongLittleIsBig(v);
    ReverseBytesLong(v)
  }

  /** The intended R readers undo the R writers: getLongRB reads back what
      setLongRB (which stores little-endian) stored, and getLongRL what
      setLongRL (which stores big-endian) stored. */
  lemma LongReversedIntendedRoundTrip(bytes: seq<Byte>, offset: int, value: JLong)
    requires 0 <= offset && offset + 8 <= |bytes|
    ensures GetLongRBIntended(Overwrite(bytes, offset, LongBytesL(value)), offset) == value
    ensures GetLongRLIntended(Overwrite(bytes, offset, LongBytesB(value)), offset) == value
  {
    LongLRoundTrip(bytes, offset, value);
    LongBRoundTrip(bytes, offset, value);
  }

  /** setLongB: stores `value` big-endian at `bytes[offset .. offset + 7]`. */
  method SetLongB(bytes: array<Byte>, offset: int, value: JLong)
    requires 0 <= offset && offset + 8 <= bytes.Length
    modifies bytes
    ensures bytes[..] == Overwrite(old(bytes[..]), offset, LongBytesB(value))
    ensures GetLongB(bytes[..], offset) == value
  {
    bytes[offset] := LongToByte(value >> 56);
    bytes[offset + 1] := LongToByte(value >> 48);
    bytes[offset + 2] := LongToByte(value >> 40);
    bytes[offset + 3] := LongToByte(value >> 32);
    bytes[offset + 4] := LongToByte(value >> 24);
    bytes[offset + 5] := LongToByte(value >> 16);
    bytes[offset + 6] := LongToByte(value >> 8);
    bytes[offset + 7] := LongToByte(value);
    LongBRoundTrip(old(bytes[..]), offset, value);
  }

  /** setLongL: stores `value` little-endian at `bytes[offset .. offset + 7]`. */
  method SetLongL(bytes: array<Byte>, offset: int, value: JLong)
    requires 0 <= offset && offset + 8 <= bytes.Length
    modifies bytes
    ensures bytes[..] == Overwrite(old(bytes[..]), offset, LongBytesL(value))
    ensures GetLongL(bytes[..], offset) == value
  {
    bytes[offset] := LongToByte(value);
    bytes[offset + 1] := LongToByte(value >> 8);
    bytes[offset + 2] := LongToByte(value >> 16);
    bytes[offset + 3] := LongToByte(value >> 24);
    bytes[offset + 4] := LongToByte(value >> 32);
    bytes[offset + 5] := LongToByte(value >> 40);
    bytes[offset + 6] := LongToByte(value >> 48);
    bytes[offset + 7] := LongToByte(value >> 56);
    LongLRoundTrip(old(bytes[..]), offset, value);
  }

  lemma ReversedLongLittleIsBig(value: JLong)
    ensures LongBytesL(ReverseBytesLong(value)) == LongBytesB(value)
    ensures LongBytesB(ReverseBytesLong(value)) == LongBytesL(value)
  {
  }

  /** setLongRL: stores the original value big-endian, exactly as setLongB. */
  method SetLongRL(bytes: array<Byte>, offset: int, value: JLong)
    requires 0 <= offset && offset + 8 <= bytes.Length
    modifies bytes
    ensures bytes[..] == Overwrite(old(bytes[..]), offset, LongBytesB(value))
  {
    var reversed := ReverseBytesLong(value);
    SetLongL(bytes, offset, reversed);
    ReversedLongLittleIsBig(value);
  }

  /** setLongRB: stores the original value little-endian, exactly as
      setLongL. */
  method SetLongRB(bytes: array<Byte>, offset: int, value: JLong)
    requires 0 <= offset && offset + 8 <= bytes.Length
    modifies bytes
    ensures bytes[..] == Overwrite(old(bytes[..]), offset, LongBytesL(value))
  {
    var reversed := ReverseBytesLong(value);
    SetLongB(bytes, offset, reversed);
  }

  // ---------------------------------------------------------------------
  // UTF-16 chars

  /** The two bytes putCharUB stores: high byte first, whatever the host. */
  function CharBytesUB(c: JChar): (b: seq<Byte>)
    ensures |b| == 2
    ensures ((b[0] as JChar) << 8) | (b[1] as JChar) == c
  {
    [ToByte((c as JInt) >> 8), ToByte(c as JInt)]
  }

  /** The two bytes putChar stores on a host of the given order. */
  function CharBytes(c: JChar, native: ByteOrder): (b: seq<Byte>)
    ensures |b| == 2
  {
    [ToByte((c as JInt) >> HiByteShift(native)), ToByte((c as JInt) >> LoByteShift(native))]
  }

  /** With HI_BYTE_SHIFT 8 on a little-endian host, putChar stores the high
      byte first there (the bytes putCharUB stores), and the low byte first
      on a big-endian host. */
  lemma CharBytesOrder(c: JChar)
    ensures CharBytes(c, LittleEndian) == CharBytesUB(c)
    ensures CharBytes(c, BigEndian) == [CharBytesUB(c)[1], CharBytesUB(c)[0]]
  {
  }

  /** The bytes putChars4 stores for four chars: each char's pair, in char
      order. */
  function Chars4Bytes(c0: JChar, c1: JChar, c2: JChar, c3: JChar, native: ByteOrder): (b: seq<Byte>)
    ensures |b| == 8
    ensures forall k :: 0 <= k < 2 ==>
      b[k] == CharBytes(c0, native)[k] && b[2 + k] == CharBytes(c1, native)[k] &&
      b[4 + k] == CharBytes(c2, native)[k] && b[6 + k] == CharBytes(c3, native)[k]
  {
    CharBytes(c0, native) + CharBytes(c1, native) + CharBytes(c2, native) + CharBytes(c3, native)
  }

  /** Two writes to adjacent ranges leave what one write of both does. */
  lemma OverwriteAdjacent(s: seq<Byte>, offset: int, b1: seq<Byte>, b2: seq<Byte>)
    requires 0 <= offset && offset + |b1| + |b2| <= |s|
    ensures Overwrite(Overwrite(s, offset, b1), offset + |b1|, b2) == Overwrite(s, offset, b1 + b2)
  {
    var lhs, rhs := Overwrite(Overwrite(s, offset, b1), offset + |b1|, b2), Overwrite(s, offset, b1 + b2);
    assert |lhs| == |rhs|;
    forall i | 0 <= i < |s| ensures lhs[i] == rhs[i] {
      if offset + |b1| <= i < offset + |b1| + |b2| {
        assert (b1 + b2)[i - offset] == b2[i - offset - |b1|];
      } else if offset <= i < offset + |b1| {
        assert (b1 + b2)[i - offset] == b1[i - offset];
      }
    }
  }

  /** putChar: stores the char at `val[2 * index]` and `val[2 * index + 1]`. */
  method PutChar(val: array<Byte>, index: int, c: JChar, native: ByteOrder)
    requires 0 <= 2 * index && 2 * index + 2 <= val.Length
    modifies val
    ensures val[..] == Overwrite(old(val[..]), 2 * index, CharBytes(c, native))
  {
    var i := 2 * index;
    val[i] := ToByte((c as JInt) >> HiByteShift(native));
    val[i + 1] := ToByte((c as JInt) >> LoByteShift(native));
  }

  /** putCharUB: stores the char high byte first at `bytes[2 * offset]`. */
  method PutCharUB(bytes: array<Byte>, offset: int, c: JChar)
    requires 0 <= 2 * offset && 2 * offset + 2 <= bytes.Length
    modifies bytes
    ensures bytes[..] == Overwrite(old(bytes[..]), 2 * offset, CharBytesUB(c))
  {
    var address := 2 * offset;
    bytes[address] := ToByte((c as JInt) >> 8);
    bytes[address + 1] := ToByte(c as JInt);
  }

  /** putChars4: stores four chars at chars `offset .. offset + 3`, that is
      at bytes `2 * offset .. 2 * offset + 7`. */
  method PutChars4(bytes: array<Byte>, offset: int, c0: JChar, c1: JChar, c2: JChar, c3: JChar,
                   native: ByteOrder)
    requires 0 <= 2 * offset && 2 * offset + 8 <= bytes.Length
    modifies bytes
    ensures bytes[..] == Overwrite(old(bytes[..]), 2 * offset, Chars4Bytes(c0, c1, c2, c3, native))
  {
    ghost var s0 := bytes[..];
    PutChar(bytes, offset, c0, native);
    PutChar(bytes, offset + 1, c1, native);
    OverwriteAdjacent(s0, 2 * offset, CharBytes(c0, native), CharBytes(c1, native));
    PutChar(bytes, offset + 2, c2, native);
    OverwriteAdjacent(s0, 2 * offset, CharBytes(c0, native) + CharBytes(c1, native), CharBytes(c2, native));
    PutChar(bytes, offset + 3, c3, native);
    OverwriteAdjacent(s0, 2 * offset, CharBytes(c0, native) + CharBytes(c1, native) + CharBytes(c2, native),
                      CharBytes(c3, native));
  }
}
