/** RTP packets for H.264 units: single-unit packets and FU-A fragments (RFC 6184), and the
    receiver that puts the units together again. */
module Rtp {
  import opened Bytes
  import opened AnnexB

  const PAYLOAD_TYPE := 96
  const MAX_PAYLOAD := 1400
  const FU_A := 28

  type u16 = n: nat | n < 0x1_0000
  type u32 = n: nat | n < 0x1_0000_0000

  datatype Stamp = Stamp(timestamp: u32, ssrc: u32)

  function Header(sequence: u16, marker: bool, stamp: Stamp): bytes {
    [0x80, (if marker then 128 else 0) + PAYLOAD_TYPE] + U16(sequence) + U32(stamp.timestamp) + U32(stamp.ssrc)
  }

  function Next(sequence: u16): u16 {
    (sequence + 1) % 0x1_0000
  }

  function Plus(sequence: u16, count: nat): u16 {
    (sequence + count) % 0x1_0000
  }

  // ---- Payloads ----

  function Fragment(n: nal, from: nat, end: nat): bytes
    requires 1 <= from <= end <= |n|
  {
    [n[0] / 32 * 32 + FU_A, n[0] % 32 + (if from == 1 then 128 else 0) + (if end == |n| then 64 else 0)] + n[from..end]
  }

  function FragmentEnd(n: nal, from: nat): nat {
    if from + MAX_PAYLOAD - 2 < |n| then from + MAX_PAYLOAD - 2 else |n|
  }

  function Fragments(n: nal, from: nat): seq<bytes>
    requires 1 <= from <= |n|
    decreases |n| - from
  {
    if from == |n| then []
    else [Fragment(n, from, FragmentEnd(n, from))] + Fragments(n, FragmentEnd(n, from))
  }

  /** The payloads that carry one unit. */
  function Payloads(n: nal): seq<bytes> {
    if |n| <= MAX_PAYLOAD then [n] else Fragments(n, 1)
  }

  predicate Opens(payload: bytes) {
    |payload| >= 2 && payload[1] >= 128
  }

  predicate Closes(payload: bytes) {
    |payload| >= 2 && payload[1] / 64 % 2 == 1
  }

  lemma {:induction false} FragmentsMarked(n: nal, from: nat, k: nat)
    requires 1 <= from <= |n| && k < |Fragments(n, from)|
    ensures var fs := Fragments(n, from);
            && 2 < |fs[k]| <= MAX_PAYLOAD
            && (Opens(fs[k]) <==> from == 1 && k == 0)
            && (Closes(fs[k]) <==> k == |fs| - 1)
    decreases |n| - from
  {
    var end := FragmentEnd(n, from);
    FragmentBits(n, from, end);
    assert end < |n| <==> Fragments(n, end) != [];
    if k > 0 {
      FragmentsMarked(n, end, k - 1);
    }
  }

  lemma FragmentBits(n: nal, from: nat, end: nat)
    requires 1 <= from < end <= |n|
    ensures Opens(Fragment(n, from, end)) <==> from == 1
    ensures Closes(Fragment(n, from, end)) <==> end == |n|
  {
  }

  /** Every payload fits; a unit that does not fit goes out as at least two fragments, the first
      alone with the start bit and the last alone with the end bit. */
  lemma PayloadShape(n: nal, k: nat)
    requires k < |Payloads(n)|
    ensures |Payloads(n)[k]| <= 1400 && (|n| <= 1400 ==> Payloads(n) == [n])
    ensures |n| > MAX_PAYLOAD ==> |Payloads(n)| >= 2
    ensures |n| > MAX_PAYLOAD ==> (Opens(Payloads(n)[k]) <==> k == 0) && (Closes(Payloads(n)[k]) <==> k == |Payloads(n)| - 1)
    ensures |n| > MAX_PAYLOAD ==> !(Opens(Payloads(n)[k]) && Closes(Payloads(n)[k]))
  {
    if |n| > MAX_PAYLOAD {
      FragmentsMarked(n, 1, k);
      var end := FragmentEnd(n, 1);
      assert Fragments(n, end) != [];
    }
  }

  // ---- The receiver ----

  /** What a receiver has put together, and the fragments of the unit it is in the middle of. */
  datatype Receiver = Receiver(units: seq<nal>, partial: Option<bytes>)

  function Take(r: Receiver, payload: bytes): Receiver {
    if payload == [] then r
    else if 1 <= payload[0] % 32 <= 23 then Receiver(r.units + [payload], r.partial)
    else if payload[0] % 32 != FU_A || |payload| < 2 then r
    else
      var sofar := if Opens(payload) then Some([payload[0] / 32 * 32 + payload[1] % 32]) else r.partial;
      match sofar
      case None => r
      case Some(front) =>
        var whole := front + payload[2..];
        if Closes(payload) then Receiver(r.units + [whole], None) else Receiver(r.units, Some(whole))
  }

  function TakeAll(r: Receiver, payloads: seq<bytes>): Receiver
    decreases |payloads|
  {
    if payloads == [] then r else TakeAll(Take(r, payloads[0]), payloads[1..])
  }

  lemma {:induction false} TakeAllAppend(r: Receiver, a: seq<bytes>, b: seq<bytes>)
    ensures TakeAll(r, a + b) == TakeAll(TakeAll(r, a), b)
    decreases |a|
  {
    if a == [] {
      assert a + b == b;
    } else {
      assert (a + b)[1..] == a[1..] + b;
      TakeAllAppend(Take(r, a[0]), a[1..], b);
    }
  }

  lemma TakeFragment(r: Receiver, n: nal, from: nat, end: nat)
    requires 1 <= from < end <= |n|
    requires from > 1 ==> r.partial == Some(n[..from])
    ensures Take(r, Fragment(n, from, end)) ==
            if end == |n| then Receiver(r.units + [n], None) else Receiver(r.units, Some(n[..end]))
  {
    var payload := Fragment(n, from, end);
    FragmentBits(n, from, end);
    assert payload[0] % 32 == FU_A && payload[0] / 32 == n[0] / 32 && payload[1] % 32 == n[0] % 32;
    assert payload[2..] == n[from..end];
    assert n[..1] == [n[0]];
    assert n[..from] + n[from..end] == n[..end];
    assert n[..|n|] == n;
  }

  lemma {:induction false} TakeFragments(r: Receiver, n: nal, from: nat)
    requires 1 <= from < |n|
    requires from > 1 ==> r.partial == Some(n[..from])
    ensures TakeAll(r, Fragments(n, from)) == Receiver(r.units + [n], None)
    decreases |n| - from
  {
    var end := FragmentEnd(n, from);
    TakeFragment(r, n, from, end);
    assert Fragments(n, from)[1..] == Fragments(n, end);
    if end < |n| {
      TakeFragments(Take(r, Fragment(n, from, end)), n, end);
    }
  }

  ghost predicate Carried(n: nal) {
    1 <= Kind(n) <= 23
  }

  /** The receiver gets back every unit of a type that packets may carry, whatever its length. */
  lemma UnitArrives(units: seq<nal>, n: nal)
    requires Carried(n)
    ensures TakeAll(Receiver(units, None), Payloads(n)) == Receiver(units + [n], None)
  {
    var r := Receiver(units, None);
    if |n| <= MAX_PAYLOAD {
      assert Payloads(n)[1..] == [];
    } else {
      TakeFragments(r, n, 1);
    }
  }

  function AllPayloads(ns: seq<nal>): seq<bytes> {
    if ns == [] then [] else Payloads(ns[0]) + AllPayloads(ns[1..])
  }

  lemma {:induction false} AllPayloadsAppend(a: seq<nal>, b: seq<nal>)
    ensures AllPayloads(a + b) == AllPayloads(a) + AllPayloads(b)
    decreases |a|
  {
    if a == [] {
      assert a + b == b;
    } else {
      assert (a + b)[1..] == a[1..] + b;
      AllPayloadsAppend(a[1..], b);
    }
  }

  lemma {:induction false} AllPayloadsFit(ns: seq<nal>, k: nat)
    requires k < |AllPayloads(ns)|
    ensures |AllPayloads(ns)[k]| <= MAX_PAYLOAD
    decreases |ns|
  {
    var first := Payloads(ns[0]);
    if k < |first| {
      PayloadShape(ns[0], k);
    } else {
      AllPayloadsFit(ns[1..], k - |first|);
    }
  }

  lemma {:induction false} UnitsArrive(units: seq<nal>, ns: seq<nal>)
    requires forall n :: n in ns ==> Carried(n)
    ensures TakeAll(Receiver(units, None), AllPayloads(ns)) == Receiver(units + ns, None)
    decreases |ns|
  {
    if ns == [] {
      assert units + ns == units;
    } else {
      assert units + ns == units + [ns[0]] + ns[1..];
      UnitsArrive(units + [ns[0]], ns[1..]);
      UnitArrives(units, ns[0]);
      TakeAllAppend(Receiver(units, None), Payloads(ns[0]), AllPayloads(ns[1..]));
    }
  }

  // ---- Packets ----

  /** Payloads behind consecutive sequence numbers; the marker goes on the last one, if at all. */
  function Packets(payloads: seq<bytes>, sequence: u16, stamp: Stamp, marker: bool): seq<bytes>
    decreases |payloads|
  {
    if payloads == [] then []
    else [Header(sequence, marker && |payloads| == 1, stamp) + payloads[0]]
         + Packets(payloads[1..], Next(sequence), stamp, marker)
  }

  lemma PlusNext(sequence: u16, count: nat)
    ensures Plus(Next(sequence), count) == Plus(sequence, count + 1)
  {
  }

  /** The fields of the k-th packet, read at their places in the header. */
  lemma {:induction false} PacketFields(payloads: seq<bytes>, sequence: u16, stamp: Stamp, marker: bool, k: nat)
    requires k < |payloads|
    ensures |Packets(payloads, sequence, stamp, marker)| == |payloads|
    ensures Packets(payloads, sequence, stamp, marker)[k]
         == Header(Plus(sequence, k), marker && k == |payloads| - 1, stamp) + payloads[k]
    decreases |payloads|
  {
    if |payloads| > 1 {
      PacketFields(payloads[1..], Next(sequence), stamp, marker, if k > 0 then k - 1 else 0);
      if k > 0 {
        PlusNext(sequence, k - 1);
      }
    } else {
      assert payloads[1..] == [];
    }
  }

  lemma {:induction false} PacketsAppend(a: seq<bytes>, b: seq<bytes>, sequence: u16, stamp: Stamp, marker: bool)
    requires b != []
    ensures Packets(a + b, sequence, stamp, marker)
         == Packets(a, sequence, stamp, false) + Packets(b, Plus(sequence, |a|), stamp, marker)
    decreases |a|
  {
    hide Header;
    if a == [] {
      assert a + b == b;
    } else {
      assert (a + b)[1..] == a[1..] + b;
      PacketsAppend(a[1..], b, Next(sequence), stamp, marker);
      PlusNext(sequence, |a| - 1);
    }
  }

  // ---- What a receiver reads off a packet ----

  function Payload(packet: bytes): bytes {
    if |packet| >= 12 then packet[12..] else []
  }

  function Sequence(packet: bytes): nat
    requires |packet| >= 12
  {
    FromU16(packet[2], packet[3])
  }

  function Timestamp(packet: bytes): nat
    requires |packet| >= 12
  {
    FromU32(packet[4..8])
  }

  predicate Marker(packet: bytes)
    requires |packet| >= 12
  {
    packet[1] >= 128
  }

  lemma HeaderRead(sequence: u16, marker: bool, stamp: Stamp, payload: bytes)
    ensures var packet := Header(sequence, marker, stamp) + payload;
            && |packet| == 12 + |payload| && Payload(packet) == payload
            && Sequence(packet) == sequence && Timestamp(packet) == stamp.timestamp
            && (Marker(packet) <==> marker)
            && FromU32(packet[8..12]) == stamp.ssrc && packet[0] == 0x80 && packet[1] % 128 == 96
  {
    var packet := Header(sequence, marker, stamp) + payload;
    assert packet[4..8] == U32(stamp.timestamp);
    assert packet[8..12] == U32(stamp.ssrc);
  }

  function PayloadsOf(packets: seq<bytes>): seq<bytes> {
    if packets == [] then [] else [Payload(packets[0])] + PayloadsOf(packets[1..])
  }

  /** What the receiver reads off the packets of an access unit: version 2 without padding, extension
      or contributing sources, payload type 96, one source, its payloads in order, one timestamp,
      sequence numbers that count on, and the marker on the last packet alone. */
  lemma PacketsRead(payloads: seq<bytes>, sequence: u16, stamp: Stamp, marker: bool, k: nat)
    requires k < |payloads|
    ensures var packets := Packets(payloads, sequence, stamp, marker);
            && |packets| == |payloads| && |packets[k]| >= 12
            && Payload(packets[k]) == payloads[k]
            && Sequence(packets[k]) == Plus(sequence, k)
            && Timestamp(packets[k]) == stamp.timestamp
            && (Marker(packets[k]) <==> marker && k == |payloads| - 1)
            && FromU32(packets[k][8..12]) == stamp.ssrc
            && packets[k][0] == 0x80 && packets[k][1] % 128 == 96
  {
    PacketFields(payloads, sequence, stamp, marker, k);
    HeaderRead(Plus(sequence, k), marker && k == |payloads| - 1, stamp, payloads[k]);
  }

  lemma {:induction false} PayloadsOfPackets(payloads: seq<bytes>, sequence: u16, stamp: Stamp, marker: bool)
    ensures PayloadsOf(Packets(payloads, sequence, stamp, marker)) == payloads
    decreases |payloads|
  {
    if payloads != [] {
      var last := marker && |payloads| == 1;
      HeaderRead(sequence, last, stamp, payloads[0]);
      PayloadsOfPackets(payloads[1..], Next(sequence), stamp, marker);
    }
  }

  lemma {:induction false} PayloadsOfAppend(a: seq<bytes>, b: seq<bytes>)
    ensures PayloadsOf(a + b) == PayloadsOf(a) + PayloadsOf(b)
    decreases |a|
  {
    if a == [] {
      assert a + b == b;
    } else {
      assert (a + b)[1..] == a[1..] + b;
      PayloadsOfAppend(a[1..], b);
    }
  }

  // ---- Packets on a TCP connection (section 10.12 of RFC 2326) ----

  predicate Short(packet: bytes) {
    |packet| < 0x1_0000
  }

  function Interleaved(channel: byte, packet: bytes): bytes
    requires Short(packet)
  {
    [0x24, channel] + U16(|packet|) + packet
  }

  function Wire(channel: byte, packets: seq<bytes>): bytes
    requires forall p :: p in packets ==> Short(p)
  {
    if packets == [] then [] else Interleaved(channel, packets[0]) + Wire(channel, packets[1..])
  }

  /** The packets of one channel that a client finds in the bytes of the connection, each behind a
      dollar sign, the channel and its length. */
  function Unwire(channel: byte, b: bytes): seq<bytes>
    decreases |b|
  {
    if |b| < 4 || b[0] != 0x24 then []
    else
      var end := 4 + FromU16(b[2], b[3]);
      if |b| < end then [] else (if b[1] == channel then [b[4..end]] else []) + Unwire(channel, b[end..])
  }

  lemma {:induction false} UnwireWire(channel: byte, packets: seq<bytes>)
    requires forall p :: p in packets ==> Short(p)
    ensures Unwire(channel, Wire(channel, packets)) == packets
    decreases |packets|
  {
    if packets != [] {
      var rest := Wire(channel, packets[1..]);
      UnwireFirst(channel, packets[0], rest);
      UnwireWire(channel, packets[1..]);
    }
  }

  lemma UnwireFirst(channel: byte, packet: bytes, rest: bytes)
    requires Short(packet)
    ensures Unwire(channel, Interleaved(channel, packet) + rest) == [packet] + Unwire(channel, rest)
  {
    var b := Interleaved(channel, packet) + rest;
    assert b[4..4 + |packet|] == packet && b[4 + |packet|..] == rest;
  }

  lemma {:induction false} WireAppend(channel: byte, a: seq<bytes>, b: seq<bytes>)
    requires forall p :: p in a + b ==> Short(p)
    ensures Wire(channel, a + b) == Wire(channel, a) + Wire(channel, b)
    decreases |a|
  {
    if a == [] {
      assert a + b == b;
    } else {
      assert (a + b)[1..] == a[1..] + b;
      WireAppend(channel, a[1..], b);
    }
  }

  // ---- The packetizer ----

  /** Each packet with the sequence number that follows it. */
  function Numbered(packets: seq<bytes>, sequence: u16): seq<(bytes, u16)> {
    if packets == [] then [] else [(packets[0], Next(sequence))] + Numbered(packets[1..], Next(sequence))
  }

  lemma {:induction false} NumberedAt(packets: seq<bytes>, sequence: u16, k: nat)
    requires k < |packets|
    ensures |Numbered(packets, sequence)| == |packets|
    ensures Numbered(packets, sequence)[k] == (packets[k], Plus(sequence, k + 1))
    decreases |packets|
  {
    if |packets| == 1 {
      assert packets[1..] == [];
    } else {
      NumberedAt(packets[1..], Next(sequence), if k > 0 then k - 1 else 0);
      if k > 0 {
        PlusNext(sequence, k);
      }
    }
  }

  lemma NumberedStep(n: nal, from: nat, sequence: u16, stamp: Stamp, marker: bool)
    requires 1 <= from < |n|
    ensures Numbered(Packets(Fragments(n, from), sequence, stamp, marker), sequence)
         == [(Header(sequence, marker && FragmentEnd(n, from) == |n|, stamp) + Fragment(n, from, FragmentEnd(n, from)), Next(sequence))]
          + Numbered(Packets(Fragments(n, FragmentEnd(n, from)), Next(sequence), stamp, marker), Next(sequence))
  {
    var end := FragmentEnd(n, from);
    var rest := Fragments(n, end);
    var packets := Packets(Fragments(n, from), sequence, stamp, marker);
    assert rest == [] <==> end == |n|;
    assert Fragments(n, from)[1..] == rest;
    assert packets[1..] == Packets(rest, Next(sequence), stamp, marker);
  }

  lemma SingleNumbered(n: nal, start: u16, stamp: Stamp, marker: bool)
    requires |n| <= MAX_PAYLOAD
    ensures Numbered(Packets(Payloads(n), start, stamp, marker), start) == [(Header(start, marker, stamp) + n, Next(start))]
  {
    assert [n][1..] == [];
  }

  lemma Regroup<T>(front: seq<T>, next: T, rest: seq<T>)
    ensures front + ([next] + rest) == front + [next] + rest
  {
  }

  lemma NoneNumbered(n: nal, from: nat, sequence: u16, stamp: Stamp, marker: bool)
    requires from == |n|
    ensures from >= 1 ==> Numbered(Packets(Fragments(n, from), sequence, stamp, marker), sequence) == []
  {
  }

  /** `_rtp_packets`. */
  method RtpPackets(n: nal, start: u16, stamp: Stamp, marker: bool) returns (result: seq<(bytes, u16)>)
    ensures result == Numbered(Packets(Payloads(n), start, stamp, marker), start)
  {
    if |n| <= MAX_PAYLOAD {
      SingleNumbered(n, start, stamp, marker);
      return [(Header(start, marker, stamp) + n, Next(start))];
    }
    hide Numbered, Packets, Fragments, Header;
    var indicator, kind := n[0] / 32 * 32 + FU_A, n[0] % 32;
    var offset, first, sequence := 1, true, start;
    result := [];
    while offset < |n|
      invariant 1 <= offset <= |n| && first == (offset == 1)
      invariant result + Numbered(Packets(Fragments(n, offset), sequence, stamp, marker), sequence)
             == Numbered(Packets(Fragments(n, 1), start, stamp, marker), start)
    {
      NumberedStep(n, offset, sequence, stamp, marker);
      var end := if offset + MAX_PAYLOAD - 2 < |n| then offset + MAX_PAYLOAD - 2 else |n|;
      var last := end == |n|;
      var fuHeader := kind + (if first then 0x80 else 0) + (if last then 0x40 else 0);
      var packet: bytes := Header(sequence, marker && last, stamp) + ([indicator, fuHeader] + n[offset..end]);
      Regroup(result, (packet, Next(sequence)), Numbered(Packets(Fragments(n, end), Next(sequence), stamp, marker), Next(sequence)));
      result := result + [(packet, Next(sequence))];
      sequence := Next(sequence);
      offset := end;
      first := false;
    }
    NoneNumbered(n, offset, sequence, stamp, marker);
  }
}
