/**
 The protobuf wire-format reader of src/protobuf.js. The specification functions work on the
 bytes still to be read; the reader class moves an offset through a fixed view, as the source does.
 A thrown range or length error is `None`.
 */
module Protobuf {
  import opened Wrappers

  type byte = x: int | 0 <= x < 256
  type bytes = seq<byte>

  const WIRE_VARINT := 0
  const WIRE_I64 := 1
  const WIRE_LEN := 2
  const WIRE_I32 := 5

  const TWO_32 := 0x1_0000_0000
  const TWO_63 := 0x8000_0000_0000_0000
  const TWO_64 := 0x1_0000_0000_0000_0000

  /** A value read and the bytes after it. */
  datatype Got<+T> = Got(value: T, rest: bytes)

  // ---------- arithmetic ----------

  function Pow2(k: nat): (p: nat)
    ensures p >= 1
  {
    if k == 0 then 1 else 2 * Pow2(k - 1)
  }

  lemma {:induction false} Pow2Add(a: nat, b: nat)
    ensures Pow2(a + b) == Pow2(a) * Pow2(b)
  {
    if a > 0 {
      Pow2Add(a - 1, b);
      assert 2 * Pow2(a - 1) * Pow2(b) == 2 * (Pow2(a - 1) * Pow2(b));
    }
  }

  /** `x << k`, equally `x * 2 ** k` */
  function ShiftLeft(x: nat, k: nat): nat {
    if k == 0 then x else 2 * ShiftLeft(x, k - 1)
  }

  lemma ShiftLeftSeven(y: nat)
    ensures ShiftLeft(y, 7) == 128 * y
  {
    assert ShiftLeft(y, 0) == y;
    assert ShiftLeft(y, 1) == 2 * y;
    assert ShiftLeft(y, 2) == 4 * y;
    assert ShiftLeft(y, 3) == 8 * y;
    assert ShiftLeft(y, 4) == 16 * y;
    assert ShiftLeft(y, 5) == 32 * y;
    assert ShiftLeft(y, 6) == 64 * y;
  }

  lemma {:induction false} ShiftLeftSum(x: nat, y: nat, k: nat)
    ensures ShiftLeft(x + 128 * y, k) == ShiftLeft(x, k) + ShiftLeft(y, k + 7)
    decreases k
  {
    if k == 0 {
      ShiftLeftSeven(y);
    } else {
      ShiftLeftSum(x, y, k - 1);
    }
  }

  /** Bitwise OR of two non-negative integers, bit by bit from the lowest. */
  function BitOr(a: nat, b: nat): nat
    decreases a + b
  {
    if a == 0 && b == 0 then 0
    else (if a % 2 == 1 || b % 2 == 1 then 1 else 0) + 2 * BitOr(a / 2, b / 2)
  }

  lemma {:induction false} BitOrZero(b: nat)
    ensures BitOr(0, b) == b
    decreases b
  {
    if b > 0 { BitOrZero(b / 2); }
  }

  /** OR of a number below 2^k with a multiple of 2^k is their sum. */
  lemma {:induction false} BitOrDisjoint(a: nat, b: nat, k: nat)
    requires a < Pow2(k)
    ensures BitOr(a, ShiftLeft(b, k)) == a + ShiftLeft(b, k)
    decreases k
  {
    if k == 0 {
      BitOrZero(b);
    } else {
      BitOrDisjoint(a / 2, b, k - 1);
    }
  }

  lemma {:induction false} ShiftLeftBound(x: nat, k: nat)
    requires x < 128
    ensures ShiftLeft(x, k) + Pow2(k) <= Pow2(k + 7)
    decreases k
  {
    if k == 0 {
      assert Pow2(7) == 128;
    } else {
      ShiftLeftBound(x, k - 1);
    }
  }

  // ---------- varints ----------

  /** Base-128, least significant group first; the high bit says that more bytes follow. */
  function Varint(s: bytes): (r: Option<Got<nat>>)
    ensures r.Some? ==> |r.value.rest| < |s|
    decreases |s|
  {
    if s == [] then None
    else if s[0] < 128 then Some(Got(s[0], s[1..]))
    else
      var more := Varint(s[1..]);
      if more.None? then None else Some(Got(s[0] - 128 + 128 * more.value.value, more.value.rest))
  }

  /** The shortest encoding of `n`. */
  function EncVarint(n: nat): (s: bytes)
    ensures |s| >= 1
    decreases n
  {
    if n < 128 then [n] else [128 + n % 128] + EncVarint(n / 128)
  }

  /** Reading inverts writing and stops right after the written bytes. */
  lemma {:induction false} VarintRoundTrip(n: nat, rest: bytes)
    ensures Varint(EncVarint(n) + rest) == Some(Got(n, rest))
    decreases n
  {
    var s := EncVarint(n) + rest;
    if n < 128 {
      assert s[1..] == rest;
    } else {
      VarintRoundTrip(n / 128, rest);
      assert s[1..] == EncVarint(n / 128) + rest;
    }
  }

  /** Signed 64-bit integers travel as their two's complement. */
  function EncInt64(v: int): bytes
    requires -TWO_63 <= v < TWO_63
  {
    EncVarint(if v < 0 then v + TWO_64 else v)
  }

  function ToInt64(n: nat): int {
    if n >= TWO_63 then n - TWO_64 else n
  }

  lemma Int64RoundTrip(v: int, rest: bytes)
    requires -TWO_63 <= v < TWO_63
    ensures Varint(EncInt64(v) + rest).Some?
    ensures ToInt64(Varint(EncInt64(v) + rest).value.value) == v && Varint(EncInt64(v) + rest).value.rest == rest
  {
    VarintRoundTrip(if v < 0 then v + TWO_64 else v, rest);
  }

  /** XOR with 0 or with -1 (all ones, which complements). */
  function XorSign(x: int, bit: nat): int
    requires bit < 2
  {
    if bit == 0 then x else -x - 1
  }

  /** The 32-bit decoder: `>>>` and `&` first reduce the operand modulo 2^32. */
  function ZigzagDecode(n: nat): int {
    XorSign(n % TWO_32 / 2, n % 2)
  }

  function ZigzagDecodeBigInt(n: nat): int {
    XorSign(n / 2, n % 2)
  }

  function ZigzagEncode(v: int): nat {
    if v >= 0 then 2 * v else -2 * v - 1
  }

  /** Zigzag decoding is a bijection from the naturals to the integers, and 32 bits to 32 bits. */
  lemma ZigzagBijection(n: nat, v: int)
    ensures ZigzagEncode(ZigzagDecodeBigInt(n)) == n && ZigzagDecodeBigInt(ZigzagEncode(v)) == v
    ensures n < TWO_32 ==> ZigzagDecode(n) == ZigzagDecodeBigInt(n) && -0x8000_0000 <= ZigzagDecode(n) < 0x8000_0000
    ensures -0x8000_0000 <= v < 0x8000_0000 ==> ZigzagEncode(v) < TWO_32
  {
  }

  // ---------- positions ----------

  function Power(base: nat, k: nat): nat {
    if k == 0 then 1 else base * Power(base, k - 1)
  }

  /** The number with these digits, least significant first: the sum of `digits[k]` times `base` to the `k`. */
  function Weighed(digits: seq<nat>, base: nat): nat {
    if digits == [] then 0
    else Weighed(digits[..|digits| - 1], base) + digits[|digits| - 1] * Power(base, |digits| - 1)
  }

  lemma Distributes(base: nat, x: nat, d: nat, p: nat)
    ensures base * (x + d * p) == base * x + d * (base * p)
  {
  }

  lemma {:induction false} WeighedFirst(digits: seq<nat>, base: nat)
    requires digits != []
    ensures Weighed(digits, base) == digits[0] + base * Weighed(digits[1..], base)
    decreases |digits|
  {
    var n := |digits| - 1;
    var front, tail := digits[..n], digits[1..];
    if n == 0 {
      assert front == [] && tail == [] && Power(base, 0) == 1;
    } else {
      WeighedFirst(front, base);
      assert front[1..] == tail[..n - 1] && tail[n - 1] == digits[n];
      Distributes(base, Weighed(front[1..], base), digits[n], Power(base, n - 1));
    }
  }

  /** Groups of seven bits, the high bit set on all but the last. */
  function Marked(groups: seq<nat>): seq<nat>
    requires groups != []
  {
    if |groups| == 1 then groups else [128 + groups[0]] + Marked(groups[1..])
  }

  /** A varint is the number its groups write in base 128, least significant first, however many groups it takes. */
  lemma {:induction false} VarintGroups(groups: seq<nat>, s: bytes, rest: bytes)
    requires groups != [] && (forall k :: 0 <= k < |groups| ==> groups[k] < 128) && s == Marked(groups)
    ensures Varint(s + rest) == Some(Got(Weighed(groups, 128), rest))
    decreases |groups|
  {
    WeighedFirst(groups, 128);
    var all := s + rest;
    if |groups| == 1 {
      assert groups[1..] == [] && all[1..] == rest;
    } else {
      var tail := s[1..];
      assert tail == Marked(groups[1..]) && all[1..] == tail + rest;
      VarintGroups(groups[1..], tail, rest);
    }
  }

  /** Fixed-width values are in base 256, least significant byte first. */
  lemma {:induction false} LittleEndianIs(s: bytes)
    ensures LittleEndian(s) == Weighed(s, 256)
  {
    if s != [] {
      WeighedFirst(s, 256);
      LittleEndianIs(s[1..]);
    }
  }

  // ---------- tags, fixed-width values, byte strings, skipping ----------

  datatype Tag = Tag(fieldNumber: nat, wireType: nat)

  /** `tag >>> 3` works modulo 2^32. */
  function ReadTag(s: bytes): (r: Option<Got<Tag>>)
    ensures r.Some? ==> |r.value.rest| < |s|
  {
    var t := Varint(s);
    if t.None? then None
    else Some(Got(Tag(t.value.value % TWO_32 / 8, t.value.value % 8), t.value.rest))
  }

  function EncTag(fieldNumber: nat, wireType: nat): bytes {
    EncVarint(8 * fieldNumber + wireType)
  }

  lemma TagBits(fieldNumber: nat, wireType: nat)
    requires fieldNumber < 0x2000_0000 && wireType < 8
    ensures var n := 8 * fieldNumber + wireType; n % TWO_32 / 8 == fieldNumber && n % 8 == wireType
  {
    var n := 8 * fieldNumber + wireType;
    assert n < TWO_32;
  }

  lemma TagRoundTrip(fieldNumber: nat, wireType: nat, rest: bytes)
    requires fieldNumber < 0x2000_0000 && wireType < 8
    ensures ReadTag(EncTag(fieldNumber, wireType) + rest) == Some(Got(Tag(fieldNumber, wireType), rest))
  {
    TagBits(fieldNumber, wireType);
    VarintRoundTrip(8 * fieldNumber + wireType, rest);
  }

  /** Little-endian value of a byte string. */
  function LittleEndian(s: bytes): nat {
    if s == [] then 0 else s[0] + 256 * LittleEndian(s[1..])
  }

  function EncLittleEndian(n: nat, width: nat): (s: bytes)
    ensures |s| == width
  {
    if width == 0 then [] else [n % 256] + EncLittleEndian(n / 256, width - 1)
  }

  lemma {:induction false} LittleEndianRoundTrip(n: nat, width: nat)
    requires n < Pow2(8 * width)
    ensures LittleEndian(EncLittleEndian(n, width)) == n
    decreases width
  {
    if width > 0 {
      Pow2Add(8, 8 * (width - 1));
      assert Pow2(8) == 256;
      LittleEndianRoundTrip(n / 256, width - 1);
      assert EncLittleEndian(n, width)[1..] == EncLittleEndian(n / 256, width - 1);
    }
  }

  function ReadFixed(s: bytes, width: nat): Option<Got<nat>> {
    if |s| < width then None else Some(Got(LittleEndian(s[..width]), s[width..]))
  }

  lemma FixedRoundTrip(n: nat, width: nat, rest: bytes)
    requires n < Pow2(8 * width)
    ensures ReadFixed(EncLittleEndian(n, width) + rest, width) == Some(Got(n, rest))
  {
    var s := EncLittleEndian(n, width) + rest;
    LittleEndianRoundTrip(n, width);
    assert s[..width] == EncLittleEndian(n, width) && s[width..] == rest;
  }

  function ReadBytes(s: bytes): (r: Option<Got<bytes>>)
    ensures r.Some? ==> |r.value.value| + |r.value.rest| < |s|
  {
    var n := Varint(s);
    if n.None? || n.value.value > |n.value.rest| then None
    else Some(Got(n.value.rest[..n.value.value], n.value.rest[n.value.value..]))
  }

  function EncBytes(b: bytes): bytes {
    EncVarint(|b|) + b
  }

  lemma BytesRoundTrip(b: bytes, rest: bytes)
    ensures ReadBytes(EncBytes(b) + rest) == Some(Got(b, rest))
  {
    VarintRoundTrip(|b|, b + rest);
    assert EncBytes(b) + rest == EncVarint(|b|) + (b + rest);
    assert (b + rest)[..|b|] == b && (b + rest)[|b|..] == rest;
  }

  /** Fixed-width fields are skipped without looking whether the bytes are there. */
  function Skip(s: bytes, wireType: nat): Option<bytes> {
    if wireType == WIRE_VARINT then
      var v := Varint(s); if v.None? then None else Some(v.value.rest)
    else if wireType == WIRE_I64 then Some(if |s| < 8 then [] else s[8..])
    else if wireType == WIRE_LEN then
      var b := ReadBytes(s); if b.None? then None else Some(b.value.rest)
    else if wireType == WIRE_I32 then Some(if |s| < 4 then [] else s[4..])
    else None
  }

  // ---------- the reader ----------

  class DataReader {
    const view: bytes
    var offset: nat

    constructor (view: bytes)
      ensures this.view == view && offset == 0 && Rest() == view
    {
      this.view := view;
      offset := 0;
    }

    /** The bytes still to be read; none when a skip ran past the end. */
    function Rest(): bytes
      reads this
    {
      if offset <= |view| then view[offset..] else []
    }

    /** `view.getUint8(offset++)` */
    method GetUint8() returns (b: Option<byte>)
      modifies this
      ensures offset == old(offset) + 1
      ensures b == if old(Rest()) == [] then None else Some(old(Rest())[0])
      ensures b.Some? ==> offset <= |view| && Rest() == old(Rest())[1..]
    {
      b := if offset < |view| then Some(view[offset]) else None;
      offset := offset + 1;
    }

    /** Groups below bit 28 are joined by a 32-bit OR, later ones by addition. */
    method ReadVarint() returns (r: Option<nat>)
      modifies this
      ensures r == if Varint(old(Rest())).None? then None else Some(Varint(old(Rest())).value.value)
      ensures r.Some? ==> offset <= |view| && Rest() == Varint(old(Rest())).value.rest
    {
      var result: nat, shift: nat := 0, 0;
      AccumulateIsVarint(0, 0, Rest());
      while true
        invariant result < Pow2(shift)
        invariant Accumulate(result, shift, Rest()) == Accumulate(0, 0, old(Rest()))
        decreases |Rest()|
      {
        var byte := GetUint8();
        if byte.None? { return None; }
        var group := byte.value % 128;
        AddGroup(result, group, shift);
        if shift < 28 {
          result := BitOr(result, ShiftLeft(group, shift));
        } else {
          result := result + ShiftLeft(group, shift);
        }
        if byte.value < 128 { return Some(result); }
        shift := shift + 7;
      }
    }

    /** The same without the 32-bit case: big integers only OR. */
    method ReadVarBigInt() returns (r: Option<nat>)
      modifies this
      ensures r == if Varint(old(Rest())).None? then None else Some(Varint(old(Rest())).value.value)
      ensures r.Some? ==> offset <= |view| && Rest() == Varint(old(Rest())).value.rest
    {
      var result: nat, shift: nat := 0, 0;
      AccumulateIsVarint(0, 0, Rest());
      while true
        invariant result < Pow2(shift)
        invariant Accumulate(result, shift, Rest()) == Accumulate(0, 0, old(Rest()))
        decreases |Rest()|
      {
        var byte := GetUint8();
        if byte.None? { return None; }
        var group := byte.value % 128;
        AddGroup(result, group, shift);
        result := BitOr(result, ShiftLeft(group, shift));
        if byte.value < 128 { return Some(result); }
        shift := shift + 7;
      }
    }

    method ReadVarInt64() returns (r: Option<int>)
      modifies this
      ensures r == if Varint(old(Rest())).None? then None else Some(ToInt64(Varint(old(Rest())).value.value))
      ensures r.Some? ==> offset <= |view| && Rest() == Varint(old(Rest())).value.rest
    {
      var value := ReadVarBigInt();
      r := if value.None? then None else Some(if value.value >= TWO_63 then value.value - TWO_64 else value.value);
    }

    method ReadFieldTag() returns (r: Option<Tag>)
      modifies this
      ensures r == if ReadTag(old(Rest())).None? then None else Some(ReadTag(old(Rest())).value.value)
      ensures r.Some? ==> Rest() == ReadTag(old(Rest())).value.rest
    {
      var tag := ReadVarint();
      r := if tag.None? then None else Some(Tag(tag.value % TWO_32 / 8, tag.value % 8));
    }

    /** `getUint32`, `getBigUint64`: little-endian, a range error past the end. */
    method ReadFixedWidth(width: nat) returns (r: Option<nat>)
      requires width > 0
      modifies this
      ensures r == if ReadFixed(old(Rest()), width).None? then None else Some(ReadFixed(old(Rest()), width).value.value)
      ensures r.Some? ==> Rest() == ReadFixed(old(Rest()), width).value.rest
    {
      if offset + width > |view| { return None; }
      assert view[offset..][..width] == view[offset..offset + width];
      r := Some(LittleEndian(view[offset..offset + width]));
      offset := offset + width;
    }

    method ReadLengthDelimited() returns (r: Option<bytes>)
      modifies this
      ensures r == if ReadBytes(old(Rest())).None? then None else Some(ReadBytes(old(Rest())).value.value)
      ensures r.Some? ==> Rest() == ReadBytes(old(Rest())).value.rest
    {
      var length := ReadVarint();
      if length.None? { return None; }
      if offset + length.value > |view| {
        return None;
      }
      assert view[offset..][..length.value] == view[offset..offset + length.value];
      r := Some(view[offset..offset + length.value]);
      offset := offset + length.value;
    }

    method SkipField(wireType: nat) returns (ok: bool)
      modifies this
      ensures ok <==> Skip(old(Rest()), wireType).Some?
      ensures ok ==> Rest() == Skip(old(Rest()), wireType).value
    {
      if wireType == WIRE_VARINT {
        while true
          invariant Varint(Rest()).None? <==> Varint(old(Rest())).None?
          invariant Varint(Rest()).Some? ==> Varint(Rest()).value.rest == Varint(old(Rest())).value.rest
          decreases |Rest()|
        {
          var byte := GetUint8();
          if byte.None? { return false; }
          if byte.value < 128 { return true; }
        }
      } else if wireType == WIRE_I64 {
        offset := offset + 8;
      } else if wireType == WIRE_LEN {
        var length := ReadVarint();
        if length.None? || offset + length.value > |view| { return false; }
        offset := offset + length.value;
      } else if wireType == WIRE_I32 {
        offset := offset + 4;
      } else {
        return false;
      }
      return true;
    }
  }

  /** The reading loop: groups of seven bits added at increasing shifts. */
  function Accumulate(result: nat, shift: nat, s: bytes): Option<Got<nat>>
    decreases |s|
  {
    if s == [] then None
    else
      var next: nat := result + ShiftLeft(s[0] % 128, shift);
      if s[0] < 128 then Some(Got(next, s[1..])) else Accumulate(next, shift + 7, s[1..])
  }

  /** One seven-bit group is added above `shift` bits, by OR and by addition alike. */
  lemma AddGroup(result: nat, group: nat, shift: nat)
    requires result < Pow2(shift) && group < 128
    ensures BitOr(result, ShiftLeft(group, shift)) == result + ShiftLeft(group, shift) < Pow2(shift + 7)
  {
    BitOrDisjoint(result, group, shift);
    ShiftLeftBound(group, shift);
  }

  lemma {:induction false} AccumulateIsVarint(result: nat, shift: nat, s: bytes)
    ensures Accumulate(result, shift, s).None? <==> Varint(s).None?
    ensures Varint(s).Some? ==>
              Accumulate(result, shift, s) ==
                Some(Got(result + ShiftLeft(Varint(s).value.value, shift), Varint(s).value.rest))
    decreases |s|
  {
    if s != [] && s[0] >= 128 {
      AccumulateIsVarint(result + ShiftLeft(s[0] % 128, shift), shift + 7, s[1..]);
      if Varint(s[1..]).Some? {
        ShiftLeftSum(s[0] - 128, Varint(s[1..]).value.value, shift);
      }
    }
  }
}
