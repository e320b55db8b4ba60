/** Bit fields, Exp-Golomb codes and emulation prevention (sections 7.4.1.1, 9.1 and 9.1.1 of
    ITU-T H.264): the readers, and the writers they invert. */
module Bits {
  import opened Bytes

  type bit = b: int | 0 <= b <= 1
  type bits = seq<bit>

  function Pow2(n: nat): (p: nat)
    ensures p > 0
  {
    if n == 0 then 1 else 2 * Pow2(n - 1)
  }

  // ---- Bytes as bits, the highest bit first ----

  function ByteBits(b: byte): bits {
    [b / 128, b / 64 % 2, b / 32 % 2, b / 16 % 2, b / 8 % 2, b / 4 % 2, b / 2 % 2, b % 2]
  }

  function BitsOf(data: bytes): (bs: bits)
    ensures |bs| == 8 * |data|
  {
    if data == [] then [] else ByteBits(data[0]) + BitsOf(data[1..])
  }

  lemma {:induction false} BitAt(data: bytes, offset: nat)
    requires offset < 8 * |data|
    ensures BitsOf(data)[offset] == data[offset / 8] / Pow2(7 - offset % 8) % 2
    decreases |data|
  {
    hide Pow2, ByteBits;
    if offset < 8 {
      ShiftedByte(data[0], offset);
    } else {
      BitAt(data[1..], offset - 8);
    }
  }

  lemma ShiftedByte(b: byte, k: nat)
    requires k < 8
    ensures ByteBits(b)[k] == b / Pow2(7 - k) % 2
  {
    assert Pow2(1) == 2 && Pow2(2) == 4 && Pow2(3) == 8;
    assert Pow2(4) == 16 && Pow2(5) == 32;
    assert Pow2(6) == 64 && Pow2(7) == 128;
  }

  function Byte(bs: bits): byte
    requires |bs| == 8
  {
    var (a: int, b: int, c: int, d: int) := (bs[0], bs[1], bs[2], bs[3]);
    var (e: int, f: int, g: int, h: int) := (bs[4], bs[5], bs[6], bs[7]);
    128 * a + 64 * b + 32 * c + 16 * d + 8 * e + 4 * f + 2 * g + h
  }

  lemma ByteBitsBack(bs: bits)
    requires |bs| == 8
    ensures ByteBits(Byte(bs)) == bs
  {
    var a: int, b: int, c: int, d: int := bs[0], bs[1], bs[2], bs[3];
    var e: int, f: int, g: int, h: int := bs[4], bs[5], bs[6], bs[7];
    var all := Byte(bs);
    assert all / 128 == a;
    assert all / 64 == 2 * a + b;
    assert all / 32 == 4 * a + 2 * b + c;
    assert all / 16 == 8 * a + 4 * b + 2 * c + d;
    assert all / 8 == 16 * a + 8 * b + 4 * c + 2 * d + e;
    assert all / 4 == 32 * a + 16 * b + 8 * c + 4 * d + 2 * e + f;
    assert all / 2 == 64 * a + 32 * b + 16 * c + 8 * d + 4 * e + 2 * f + g;
  }

  /** Whole bytes of bits. */
  function Pack(bs: bits): bytes
    requires |bs| % 8 == 0
  {
    if bs == [] then [] else [Byte(bs[..8])] + Pack(bs[8..])
  }

  lemma {:induction false} BitsOfPack(bs: bits)
    requires |bs| % 8 == 0
    ensures BitsOf(Pack(bs)) == bs
    decreases |bs|
  {
    if bs != [] {
      BitsOfPack(bs[8..]);
      ByteBitsBack(bs[..8]);
      assert Pack(bs)[1..] == Pack(bs[8..]);
      assert bs[..8] + bs[8..] == bs;
    }
  }

  // ---- Fields ----

  /** What a reader returns: the value and the bits that are left, or nothing on a truncated or
      invalid stream. */
  datatype Read<+T> = Bad | Got(value: T, rest: bits) {
    predicate IsFailure() { Bad? }
    function PropagateFailure<U>(): Read<U> requires Bad? { Bad }
    function Extract(): (T, bits) requires Got? { (value, rest) }
  }

  /** `value` followed by the first `count` bits, as a number. */
  function Value(value: nat, bs: bits, count: nat): nat
    requires count <= |bs|
    decreases count
  {
    if count == 0 then value else Value(2 * value + bs[0], bs[1..], count - 1)
  }

  lemma DropDrop(bs: bits, start: nat, count: nat)
    requires start + count <= |bs|
    ensures bs[start..][count..] == bs[start + count..] && |bs[start..]| >= count
  {
  }

  lemma ValueDone(value: nat, bs: bits)
    ensures Value(value, bs, 0) == value
  {
  }

  function Fixed(bs: bits, count: nat): Read<nat> {
    if count > |bs| then Bad else Got(Value(0, bs, count), bs[count..])
  }

  /** `value` in `count` bits in front of `rest`. */
  function PutFixed(count: nat, value: nat, rest: bits): bits {
    if count == 0 then rest else PutFixed(count - 1, value / 2, [value % 2] + rest)
  }

  lemma {:induction false} FixedLength(count: nat, value: nat, rest: bits)
    ensures |PutFixed(count, value, rest)| == count + |rest| && PutFixed(count, value, rest)[count..] == rest
    decreases count
  {
    if count > 0 {
      FixedLength(count - 1, value / 2, [value % 2] + rest);
      var all := PutFixed(count, value, rest);
      assert all[count..] == all[count - 1..][1..];
      assert ([value % 2] + rest)[1..] == rest;
    }
  }

  lemma {:induction false} ValueSnoc(value: nat, bs: bits, count: nat)
    requires count < |bs|
    ensures Value(value, bs, count + 1) == 2 * Value(value, bs, count) + bs[count]
    decreases count
  {
    if count > 0 {
      ValueSnoc(2 * value + bs[0], bs[1..], count - 1);
    }
  }

  lemma {:induction false} FixedRead(count: nat, value: nat, rest: bits)
    requires value < Pow2(count)
    ensures Fixed(PutFixed(count, value, rest), count) == Got(value, rest)
    decreases count
  {
    FixedLength(count, value, rest);
    if count > 0 {
      var tail: bits := [value % 2] + rest;
      FixedRead(count - 1, value / 2, tail);
      FixedLength(count - 1, value / 2, tail);
      var all := PutFixed(count, value, rest);
      ValueSnoc(0, all, count - 1);
      assert all[count - 1] == all[count - 1..][0] == value % 2;
    }
  }

  lemma FixedOne(bs: bits)
    ensures Fixed(bs, 1) == if bs == [] then Bad else Got(bs[0], bs[1..])
  {
    if bs != [] {
      assert Value(0, bs, 1) == Value(bs[0], bs[1..], 0);
    }
  }

  // ---- Exp-Golomb codes ----

  /** `ue`, after `zeros` leading zero bits. */
  function UeFrom(bs: bits, zeros: nat): Read<nat>
    decreases |bs|
  {
    if bs == [] then Bad
    else if bs[0] == 0 then (if zeros + 1 > 31 then Bad else UeFrom(bs[1..], zeros + 1))
    else
      match Fixed(bs[1..], zeros)
      case Bad => Bad
      case Got(tail, rest) => Got(Pow2(zeros) - 1 + tail, rest)
  }

  function Ue(bs: bits): Read<nat> {
    UeFrom(bs, 0)
  }

  /** The signed value that stands at position `code` of 0, 1, -1, 2, -2, ... (section 9.1.1). */
  function Signed(code: nat): int {
    if code % 2 == 0 then 0 - code / 2 else (code + 1) / 2
  }

  function Se(bs: bits): Read<int> {
    match Ue(bs)
    case Bad => Bad
    case Got(code, rest) => Got(Signed(code), rest)
  }

  /** The number of binary digits of `n` after the first. */
  function Log2(n: nat): nat
    requires n > 0
  {
    if n == 1 then 0 else 1 + Log2(n / 2)
  }

  lemma {:induction false} Log2Bounds(n: nat)
    requires n > 0
    ensures Pow2(Log2(n)) <= n < 2 * Pow2(Log2(n))
    decreases n
  {
    if n > 1 {
      Log2Bounds(n / 2);
    }
  }

  lemma {:induction false} Pow2Increases(a: nat, b: nat)
    requires a < b
    ensures 2 * Pow2(a) <= Pow2(b)
    decreases b
  {
    if a < b - 1 {
      Pow2Increases(a, b - 1);
    }
  }

  function Zeros(count: nat, rest: bits): bits {
    if count == 0 then rest else [0] + Zeros(count - 1, rest)
  }

  function PutUe(value: nat, rest: bits): bits {
    var digits := Log2(value + 1);
    Log2Bounds(value + 1);
    Zeros(digits, [1] + PutFixed(digits, value + 1 - Pow2(digits), rest))
  }

  function Code(value: int): nat {
    if value > 0 then 2 * value - 1 else 0 - 2 * value
  }

  function PutSe(value: int, rest: bits): bits {
    PutUe(Code(value), rest)
  }

  lemma {:induction false} UeThrough(count: nat, rest: bits, zeros: nat)
    requires zeros + count <= 31
    ensures UeFrom(Zeros(count, rest), zeros) == UeFrom(rest, zeros + count)
    decreases count
  {
    if count > 0 {
      assert Zeros(count, rest)[1..] == Zeros(count - 1, rest);
      UeThrough(count - 1, rest, zeros + 1);
    }
  }

  lemma UeTail(digits: nat, tail: nat, rest: bits)
    requires tail < Pow2(digits)
    ensures UeFrom([1] + PutFixed(digits, tail, rest), digits) == Got(Pow2(digits) - 1 + tail, rest)
  {
    var bs: bits := [1] + PutFixed(digits, tail, rest);
    assert bs[1..] == PutFixed(digits, tail, rest);
    FixedRead(digits, tail, rest);
  }

  /** Every value below 2^32 - 1 is read back from its code (section 9.1). */
  lemma UeRead(value: nat, rest: bits)
    requires value + 1 < 0x1_0000_0000
    ensures Ue(PutUe(value, rest)) == Got(value, rest)
  {
    var digits := Log2(value + 1);
    Log2Bounds(value + 1);
    if digits > 31 {
      PowerOf32();
      if digits > 32 {
        Pow2Increases(32, digits);
      }
    }
    UeThrough(digits, [1] + PutFixed(digits, value + 1 - Pow2(digits), rest), 0);
    UeTail(digits, value + 1 - Pow2(digits), rest);
  }

  lemma PowerOf32()
    ensures Pow2(32) == 0x1_0000_0000
  {
    assert Pow2(8) == 256;
    assert Pow2(16) == 0x1_0000;
    assert Pow2(24) == 0x100_0000;
  }

  /** Every signed value of at most 31 bits is read back (section 9.1.1). */
  lemma SeRead(value: int, rest: bits)
    requires -0x8000_0000 < value < 0x8000_0000
    ensures Se(PutSe(value, rest)) == Got(value, rest)
  {
    SignedCode(value);
    UeRead(Code(value), rest);
  }

  lemma SignedCode(value: int)
    requires -0x8000_0000 < value < 0x8000_0000
    ensures Code(value) + 1 < 0x1_0000_0000 && Signed(Code(value)) == value
  {
  }

  /** What is read as a fixed-width field is one, and a field is missing only when bits are. */
  lemma {:induction false} FixedOnly(bs: bits, count: nat)
    ensures Fixed(bs, count).Bad? <==> |bs| < count
    ensures Fixed(bs, count).Got? ==>
              var field := Fixed(bs, count);
              field.value < Pow2(count) && bs == PutFixed(count, field.value, field.rest)
    decreases count
  {
    if |bs| >= count > 0 {
      FixedOnly(bs, count - 1);
      ValueSnoc(0, bs, count - 1);
      assert [bs[count - 1]] + bs[count..] == bs[count - 1..];
    } else if count == 0 {
      assert bs[0..] == bs;
    }
  }

  lemma {:induction false} UeFromOnly(bs: bits, zeros: nat) returns (digits: nat)
    requires zeros <= 31 && UeFrom(bs, zeros).Got?
    ensures zeros <= digits <= 31 && CodeOf(UeFrom(bs, zeros), bs, zeros, digits)
    decreases |bs|
  {
    hide Pow2, PutFixed, Fixed;
    if bs[0] == 0 {
      hide Zeros;
      digits := UeFromOnly(bs[1..], zeros + 1);
      ZeroInFront(bs, UeFrom(bs, zeros), zeros, digits);
    } else {
      digits := zeros;
      FixedOnly(bs[1..], zeros);
      assert bs == [1] + bs[1..];
    }
  }

  lemma ZeroInFront(bs: bits, code: Read<nat>, zeros: nat, digits: nat)
    requires bs != [] && bs[0] == 0 && CodeOf(code, bs[1..], zeros + 1, digits)
    ensures CodeOf(code, bs, zeros, digits)
  {
    hide Pow2, PutFixed;
    assert bs == [0] + bs[1..];
  }

  /** The bits are a code with so many digits behind its first, the first `zeros` zeros of it missing. */
  ghost predicate CodeOf(code: Read<nat>, bs: bits, zeros: nat, digits: nat) {
    && code.Got? && zeros <= digits && Pow2(digits) <= code.value + 1 < 2 * Pow2(digits)
    && bs == Zeros(digits - zeros, [1] + PutFixed(digits, code.value + 1 - Pow2(digits), code.rest))
  }

  lemma {:induction false} Log2Is(n: nat, digits: nat)
    requires Pow2(digits) <= n < 2 * Pow2(digits)
    ensures Log2(n) == digits
    decreases digits
  {
    if digits > 0 {
      Log2Is(n / 2, digits - 1);
    }
  }

  /** What is read as an Exp-Golomb code is one, of a value below 2^32 - 1; what is refused does not begin
      with the code of any such value. */
  lemma UeOnly(bs: bits)
    ensures Ue(bs).Got? ==> Ue(bs).value + 1 < 0x1_0000_0000 && bs == PutUe(Ue(bs).value, Ue(bs).rest)
    ensures Ue(bs).Bad? ==> forall value: nat, rest | value + 1 < 0x1_0000_0000 :: bs != PutUe(value, rest)
  {
    if Ue(bs).Got? {
      var digits := UeFromOnly(bs, 0);
      Log2Is(Ue(bs).value + 1, digits);
      PowerOf32();
      if digits < 31 {
        Pow2Increases(digits, 31);
      }
    } else {
      forall value: nat, rest | value + 1 < 0x1_0000_0000
        ensures bs != PutUe(value, rest)
      {
        UeRead(value, rest);
      }
    }
  }

  /** The same for signed codes. */
  lemma SeOnly(bs: bits)
    ensures Se(bs).Got? <==> Ue(bs).Got?
    ensures Se(bs).Got? ==> bs == PutSe(Se(bs).value, Se(bs).rest)
  {
    UeOnly(bs);
    if Ue(bs).Got? {
      CodeSigned(Ue(bs).value);
    }
  }

  lemma CodeSigned(code: nat)
    ensures Code(Signed(code)) == code
  {
  }

  // ---- Emulation prevention ----

  /** The payload bytes: a 3 behind two zeros or more is dropped. */
  function Unescape(b: bytes, zeroes: nat): bytes
    decreases |b|
  {
    if b == [] then []
    else if zeroes >= 2 && b[0] == 3 then Unescape(b[1..], 0)
    else [b[0]] + Unescape(b[1..], if b[0] == 0 then zeroes + 1 else 0)
  }

  /** The escaper of section 7.4.1.1: a 3 goes in front of every byte up to 3 that follows two
      zeros, and behind two final zeros. */
  function Escape(b: bytes, zeroes: nat): bytes
    decreases |b|
  {
    if b == [] then (if zeroes == 2 then [3] else [])
    else if zeroes == 2 && b[0] <= 3 then [3, b[0]] + Escape(b[1..], if b[0] == 0 then 1 else 0)
    else [b[0]] + Escape(b[1..], if b[0] == 0 then zeroes + 1 else 0)
  }

  /** Removal inverts the escaper on every payload. */
  lemma {:induction false} UnescapeEscape(b: bytes, zeroes: nat)
    requires zeroes <= 2
    ensures Unescape(Escape(b, zeroes), zeroes) == b
    decreases |b|
  {
    if b != [] {
      var next := if b[0] == 0 then (if zeroes == 2 then 1 else zeroes + 1) else 0;
      var rest := Escape(b[1..], next);
      UnescapeEscape(b[1..], next);
      if zeroes == 2 && b[0] <= 3 {
        var all: bytes := [3, b[0]] + rest;
        assert all[1..] == [b[0]] + rest && all[1..][1..] == rest;
      } else {
        var all: bytes := [b[0]] + rest;
        assert all[1..] == rest;
      }
      assert [b[0]] + b[1..] == b;
    }
  }

  /** Byte `i` is a 3 directly behind two zeros. */
  predicate Prevents(b: bytes, i: nat)
    requires i < |b|
  {
    i >= 2 && b[i] == 3 && b[i - 1] == 0 && b[i - 2] == 0
  }

  /** The bytes from `i` on without every such 3. */
  function Kept(b: bytes, i: nat): bytes
    requires i <= |b|
    decreases |b| - i
  {
    if i == |b| then [] else (if Prevents(b, i) then [] else [b[i]]) + Kept(b, i + 1)
  }

  lemma {:induction false} UnescapeFrom(b: bytes, i: nat, zeroes: nat)
    requires i <= |b|
    requires zeroes >= 1 <==> i >= 1 && b[i - 1] == 0
    requires zeroes >= 2 <==> i >= 2 && b[i - 1] == 0 && b[i - 2] == 0
    ensures Unescape(b[i..], zeroes) == Kept(b, i)
    decreases |b| - i
  {
    if i < |b| {
      assert b[i..][1..] == b[i + 1..];
      UnescapeFrom(b, i + 1, if zeroes >= 2 && b[i] == 3 then 0 else if b[i] == 0 then zeroes + 1 else 0);
    }
  }

  /** From any bytes, well escaped or not, removal drops exactly every 3 directly behind two zeros. */
  lemma UnescapeDrops(b: bytes)
    ensures Unescape(b, 0) == Kept(b, 0)
  {
    UnescapeFrom(b, 0, 0);
    assert b[0..] == b;
  }

  /** The payload of a unit behind its one-byte header. */
  function Rbsp(nal: bytes): bytes {
    if nal == [] then [] else Unescape(nal[1..], 0)
  }

  /** A unit as an encoder writes it: a header, then the payload with emulation prevention. */
  function EscapedUnit(header: byte, payload: bytes): bytes {
    [header] + Escape(payload, 0)
  }

  lemma EscapedUnitPayload(header: byte, payload: bytes)
    ensures Rbsp(EscapedUnit(header, payload)) == payload
  {
    assert EscapedUnit(header, payload)[1..] == Escape(payload, 0);
    UnescapeEscape(payload, 0);
  }

  /** `_nal_rbsp`. */
  method NalRbsp(nal: bytes) returns (result: bytes)
    ensures result == Rbsp(nal)
  {
    result := [];
    if nal == [] {
      return;
    }
    var zeroes := 0;
    for i := 1 to |nal|
      invariant zeroes >= 0 && result + Unescape(nal[i..], zeroes) == Rbsp(nal)
    {
      var b := nal[i];
      assert nal[i..][1..] == nal[i + 1..];
      if zeroes >= 2 && b == 3 {
        zeroes := 0;
      } else {
        result := result + [b];
        zeroes := if b == 0 then zeroes + 1 else 0;
      }
    }
    assert nal[|nal|..] == [];
  }

  // ---- The reader object ----

  /** The bit at a position, read as the code reads it. */
  function BitOf(data: bytes, offset: nat): nat
    requires offset < 8 * |data|
  {
    data[offset / 8] / Pow2(7 - offset % 8) % 2
  }

  lemma ReadStep(data: bytes, offset: nat, value: nat, count: nat)
    requires count > 0 && offset + count <= 8 * |data|
    ensures Value(value, BitsOf(data)[offset..], count)
         == Value(2 * value + BitOf(data, offset), BitsOf(data)[offset + 1..], count - 1)
  {
    BitAt(data, offset);
    var left := BitsOf(data)[offset..];
    assert left[0] == BitsOf(data)[offset];
    assert left[1..] == BitsOf(data)[offset + 1..];
  }

  /** `_BitReader`. */
  class BitReader {
    const data: bytes
    var offset: nat

    constructor (payload: bytes)
      ensures data == payload && offset == 0
    {
      data := payload;
      offset := 0;
    }

    ghost predicate Valid()
      reads this
    {
      offset <= 8 * |data|
    }

    /** The bits that have not been read. */
    ghost function Left(): bits
      requires Valid()
      reads this
    {
      BitsOf(data)[offset..]
    }

    method Read(count: nat) returns (result: Option<nat>)
      requires Valid()
      modifies this
      ensures Valid()
      ensures match Fixed(old(Left()), count)
              case Bad => result.None? && offset == old(offset)
              case Got(value, rest) => result == Some(value) && Left() == rest
    {
      if offset + count > |data| * 8 {
        return None;
      }
      hide BitsOf, Pow2, ByteBits, Value, BitOf;
      var value: nat := 0;
      ghost var start := offset;
      for i := 0 to count
        invariant offset == start + i && start + count <= |data| * 8
        invariant Value(value, BitsOf(data)[offset..], count - i) == Value(0, BitsOf(data)[start..], count)
      {
        ReadStep(data, offset, value, count - i);
        value := 2 * value + BitOf(data, offset);
        offset := offset + 1;
      }
      ValueDone(value, BitsOf(data)[offset..]);
      DropDrop(BitsOf(data), start, count);
      return Some(value);
    }

    /** `ue`; what is left after an invalid code is not specified, as nothing is read after it. */
    method ReadUe() returns (result: Option<nat>)
      requires Valid()
      modifies this
      ensures Valid()
      ensures match Ue(old(Left()))
              case Bad => result.None?
              case Got(value, rest) => result == Some(value) && Left() == rest
    {
      hide Value, Pow2, BitsOf, ByteBits, PutUe;
      var zeros := 0;
      ghost var before := Left();
      FixedOne(before);
      var first := Read(1);
      while first == Some(0)
        invariant Valid() && zeros >= 0 && UeFrom(before, zeros) == Ue(old(Left()))
        invariant if before == [] then first.None? else first == Some(before[0]) && Left() == before[1..]
        decreases 32 - zeros
      {
        zeros := zeros + 1;
        if zeros > 31 {
          return None;
        }
        before := Left();
        FixedOne(before);
        first := Read(1);
      }
      if first.None? {
        return None;
      }
      var tail := Read(zeros);
      if tail.None? {
        return None;
      }
      return Some(Pow2(zeros) - 1 + tail.value);
    }

    method ReadSe() returns (result: Option<int>)
      requires Valid()
      modifies this
      ensures Valid()
      ensures match Se(old(Left()))
              case Bad => result.None?
              case Got(value, rest) => result == Some(value) && Left() == rest
    {
      var value := ReadUe();
      if value.None? {
        return None;
      }
      return Some(Signed(value.value));
    }
  }
}
