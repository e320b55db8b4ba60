/** Byte strings, big-endian fields and concatenation, shared by every other module. */
module Bytes {

  type byte = x: int | 0 <= x < 256
  type bytes = seq<byte>

  datatype Option<+T> = None | Some(value: T) {
    predicate IsFailure() { None? }
    function PropagateFailure<U>(): Option<U> requires None? { None }
    function Extract(): T requires Some? { value }
  }

  /** `int.to_bytes(2, "big")`. */
  function U16(n: nat): bytes
    requires n < 0x1_0000
  {
    [n / 256, n % 256]
  }

  function FromU16(hi: byte, lo: byte): nat {
    hi * 256 + lo
  }

  /** `int.to_bytes(4, "big")`. */
  function U32(n: nat): bytes
    requires n < 0x1_0000_0000
  {
    U16(n / 0x1_0000) + U16(n % 0x1_0000)
  }

  function FromU32(b: bytes): nat
    requires |b| == 4
  {
    FromU16(b[0], b[1]) * 0x1_0000 + FromU16(b[2], b[3])
  }

  /** All parts, one after the other. */
  function Concat<T>(parts: seq<seq<T>>): seq<T> {
    if parts == [] then [] else parts[0] + Concat(parts[1..])
  }

  lemma {:induction false} ConcatAppend<T>(front: seq<seq<T>>, back: seq<seq<T>>)
    ensures Concat(front + back) == Concat(front) + Concat(back)
  {
    if front == [] {
      assert front + back == back;
    } else {
      ConcatAppend(front[1..], back);
      assert (front + back)[1..] == front[1..] + back;
    }
  }

  lemma {:induction false} ConcatSnoc<T>(front: seq<seq<T>>, last: seq<T>)
    ensures Concat(front + [last]) == Concat(front) + last
  {
    ConcatAppend(front, [last]);
    assert Concat([last]) == last + Concat([last][1..]);
  }
}
