/** One endpoint of the reliable transport on values: packet layouts, outgoing chunks,
    acknowledgements and retransmission. `Cs2Session` keeps the same state in fields. */
module Endpoint {
  import opened Bytes
  import opened Sequencing

  const CHANNELS := 8
  const MAX_RETRANSMITS := 20
  const RETRANSMIT_SECONDS := 0.5
  const MAX_ACKS := 512

  /** One entry of the `_pending` dictionary; the sequence of entries is the insertion order. */
  datatype Entry = Entry(channel: nat, sequence: nat, packet: bytes, sentAt: real, attempts: nat)

  datatype Endpoint = Endpoint(outgoing: seq<nat>, channels: seq<Channel>, pending: seq<Entry>)

  predicate Shaped(ep: Endpoint) {
    && |ep.outgoing| == CHANNELS && |ep.channels| == CHANNELS
    && forall c | 0 <= c < CHANNELS :: ep.outgoing[c] < MODULUS
  }

  /** One value for each of the eight channels. */
  function Eight<T>(value: T): seq<T> {
    [value, value, value, value, value, value, value, value]
  }

  const INITIAL := Endpoint(Eight(0), Eight(Channel(0, [], map[])), [])

  // ---- Packets ----

  function DataPacket(channel: nat, sequence: nat, chunk: bytes): bytes
    requires channel < CHANNELS && sequence < MODULUS && |chunk| <= CHUNK_BYTES
  {
    [0xF1, 0xD0] + U16(4 + |chunk|) + [0xD1, channel] + U16(sequence) + chunk
  }

  function AckPacket(channel: nat, sequence: nat): bytes
    requires channel < CHANNELS && sequence < MODULUS
  {
    [0xF1, 0xD1, 0, 6, 0xD1, channel, 0, 1] + U16(sequence)
  }

  datatype Data = Data(channel: nat, sequence: nat, chunk: bytes)

  /** The validation at the head of `_handle_data`. */
  function ParseData(packet: bytes): Option<Data> {
    if |packet| < 8 then None
    else if FromU16(packet[2], packet[3]) != |packet| - 4 then None
    else if packet[4] != 0xD1 || packet[5] >= CHANNELS then None
    else Some(Data(packet[5], FromU16(packet[6], packet[7]), packet[8..]))
  }

  datatype Acks = Acks(channel: nat, sequences: seq<nat>)

  /** The validation at the head of `_handle_ack`, and the list that follows it. */
  function ParseAck(packet: bytes): Option<Acks> {
    if |packet| < 8 || packet[4] != 0xD1 || packet[5] >= CHANNELS then None
    else
      var count := FromU16(packet[6], packet[7]);
      if count > MAX_ACKS || |packet| != 8 + count * 2 then None
      else Some(Acks(packet[5], seq(count, i requires 0 <= i < count => AckAt(packet, i))))
  }

  function AckAt(packet: bytes, i: nat): nat
    requires 10 + 2 * i <= |packet|
  {
    FromU16(packet[8 + 2 * i], packet[9 + 2 * i])
  }

  lemma ParseDataPacket(channel: nat, sequence: nat, chunk: bytes)
    requires channel < CHANNELS && sequence < MODULUS && |chunk| <= CHUNK_BYTES
    ensures ParseData(DataPacket(channel, sequence, chunk)) == Some(Data(channel, sequence, chunk))
  {
    var packet := DataPacket(channel, sequence, chunk);
    assert packet[8..] == chunk;
  }

  /** The numbers of an acknowledgement, two bytes each. */
  function Numbers(sequences: seq<nat>): bytes
    requires forall q | q in sequences :: q < MODULUS
  {
    if sequences == [] then []
    else
      assert sequences[0] in sequences && forall q | q in sequences[1..] :: q in sequences;
      U16(sequences[0]) + Numbers(sequences[1..])
  }

  lemma {:induction false} NumbersAt(sequences: seq<nat>)
    requires forall q | q in sequences :: q < MODULUS
    ensures |Numbers(sequences)| == 2 * |sequences|
    ensures forall i | 0 <= i < |sequences| ::
              FromU16(Numbers(sequences)[2 * i], Numbers(sequences)[2 * i + 1]) == sequences[i]
  {
    if sequences != [] {
      assert sequences[0] in sequences && forall q | q in sequences[1..] :: q in sequences;
      NumbersAt(sequences[1..]);
      var rest := Numbers(sequences[1..]);
      forall i | 0 <= i < |sequences|
        ensures FromU16(Numbers(sequences)[2 * i], Numbers(sequences)[2 * i + 1]) == sequences[i]
      {
        if i > 0 {
          assert FromU16(rest[2 * (i - 1)], rest[2 * (i - 1) + 1]) == sequences[1..][i - 1];
        }
      }
    }
  }

  lemma NumberBack(hi: byte, lo: byte)
    ensures FromU16(hi, lo) < MODULUS && U16(FromU16(hi, lo)) == [hi, lo]
  {
  }

  /** Every even number of bytes is a list of numbers. */
  lemma {:induction false} NumbersFrom(b: bytes, count: nat) returns (sequences: seq<nat>)
    requires |b| == 2 * count
    ensures |sequences| == count && (forall q | q in sequences :: q < MODULUS) && Numbers(sequences) == b
    ensures forall i | 0 <= i < count :: sequences[i] == FromU16(b[2 * i], b[2 * i + 1])
  {
    hide FromU16, U16;
    if count == 0 {
      sequences := [];
    } else {
      var tail := b[2..];
      var rest := NumbersFrom(tail, count - 1);
      NumberBack(b[0], b[1]);
      sequences := [FromU16(b[0], b[1])] + rest;
      assert sequences[1..] == rest && b == [b[0], b[1]] + tail;
      forall i | 0 <= i < count
        ensures sequences[i] == FromU16(b[2 * i], b[2 * i + 1])
      {
        if i > 0 {
          assert tail[2 * (i - 1)] == b[2 * i] && tail[2 * (i - 1) + 1] == b[2 * i + 1];
        }
      }
    }
  }

  /** The bytes behind the four of the header in an acknowledgement of a list of numbers. */
  function AckBody(channel: nat, sequences: seq<nat>): bytes
    requires channel < CHANNELS && |sequences| <= 512 && forall q | q in sequences :: q < 0x1_0000
  {
    [0xD1, channel] + U16(|sequences|) + Numbers(sequences)
  }

  /** An acknowledgement is read exactly when it lists at most 512 numbers on one of the eight
      channels, and then exactly those numbers are read, whatever stands in its header. */
  lemma ParseAckIff(packet: bytes, acks: Acks)
    ensures ParseAck(packet) == Some(acks) <==>
              && |packet| >= 4 && acks.channel < 8 && |acks.sequences| <= 512
              && (forall q | q in acks.sequences :: q < 0x1_0000)
              && packet[4..] == AckBody(acks.channel, acks.sequences)
  {
    hide ParseAck, AckBody;
    if ParseAck(packet) == Some(acks) {
      AckListOnly(packet, acks);
    } else if |packet| >= 4 && acks.channel < 8 && |acks.sequences| <= 512
              && (forall q | q in acks.sequences :: q < 0x1_0000) && packet[4..] == AckBody(acks.channel, acks.sequences) {
      AckListRead(packet, acks.channel, acks.sequences);
    }
  }

  lemma AckListOnly(packet: bytes, acks: Acks)
    requires ParseAck(packet) == Some(acks)
    ensures |packet| >= 4 && acks.channel < 8 && |acks.sequences| <= 512
    ensures forall q | q in acks.sequences :: q < 0x1_0000
    ensures packet[4..] == AckBody(acks.channel, acks.sequences)
  {
    hide FromU16, U16, Numbers;
    var n := |acks.sequences|;
    NumberBack(packet[6], packet[7]);
    var tail := packet[8..];
    var sequences := NumbersFrom(tail, n);
    forall i | 0 <= i < n
      ensures sequences[i] == acks.sequences[i]
    {
      assert acks.sequences[i] == AckAt(packet, i);
      assert tail[2 * i] == packet[8 + 2 * i] && tail[2 * i + 1] == packet[9 + 2 * i];
    }
    assert sequences == acks.sequences;
    assert packet[4..] == [packet[4], packet[5], packet[6], packet[7]] + tail;
  }

  lemma AckListRead(packet: bytes, channel: nat, sequences: seq<nat>)
    requires |packet| >= 4 && channel < 8 && |sequences| <= 512 && forall q | q in sequences :: q < 0x1_0000
    requires packet[4..] == AckBody(channel, sequences)
    ensures ParseAck(packet) == Some(Acks(channel, sequences))
  {
    var n, body := |sequences|, AckBody(channel, sequences);
    NumbersAt(sequences);
    assert |packet| == 8 + 2 * n;
    assert packet[4] == body[0] && packet[5] == body[1] && packet[6] == body[2] && packet[7] == body[3];
    forall i | 0 <= i < n
      ensures AckAt(packet, i) == sequences[i]
    {
      assert packet[8 + 2 * i] == body[4 + 2 * i] && packet[9 + 2 * i] == body[5 + 2 * i];
    }
    assert seq(n, i requires 0 <= i < n => AckAt(packet, i)) == sequences;
  }

  /** What an acknowledgement of any list of numbers leaves pending: every entry but those of its
      channel whose number is listed, as they were. */
  lemma AckedExactly(ep: Endpoint, packet: bytes, channel: nat, sequences: seq<nat>)
    requires |packet| >= 4 && channel < 8 && |sequences| <= 512 && forall q | q in sequences :: q < 0x1_0000
    requires packet[4..] == AckBody(channel, sequences)
    ensures forall e :: e in AfterAck(ep, packet).pending
                    <==> e in ep.pending && !(e.channel == channel && e.sequence in sequences)
    ensures AfterAck(ep, packet) == ep.(pending := AfterAck(ep, packet).pending)
  {
    AckListRead(packet, channel, sequences);
    DiscardMembers(ep.pending, channel, sequences);
  }

  /** Anything else is ignored. */
  lemma OtherAckIgnored(ep: Endpoint, packet: bytes)
    requires ParseAck(packet).None?
    ensures AfterAck(ep, packet) == ep
  {
  }

  /** A data packet is read exactly when its declared length is true and its channel one of eight,
      and then its number and everything behind it are read. */
  lemma ParseDataIff(packet: bytes, data: Data)
    ensures ParseData(packet) == Some(data) <==>
              && |packet| >= 2 && data.channel < 8 && data.sequence < 0x1_0000 && 4 + |data.chunk| < 0x1_0000
              && packet[2..] == U16(4 + |data.chunk|) + [0xD1, data.channel] + U16(data.sequence) + data.chunk
  {
    if |packet| >= 2 && data.channel < 8 && data.sequence < 0x1_0000 && 4 + |data.chunk| < 0x1_0000
       && packet[2..] == U16(4 + |data.chunk|) + [0xD1, data.channel] + U16(data.sequence) + data.chunk {
      var body := U16(4 + |data.chunk|) + [0xD1, data.channel] + U16(data.sequence) + data.chunk;
      assert |packet| == 8 + |data.chunk|;
      assert forall i | 0 <= i < 6 :: packet[i + 2] == body[i];
      assert packet[2] == body[0] && packet[3] == body[1] && packet[4] == body[2] && packet[5] == body[3];
      assert packet[6] == body[4] && packet[7] == body[5];
      assert packet[8..] == body[6..] == data.chunk;
    }
    if ParseData(packet) == Some(data) {
      assert packet[2..] == packet[2..8] + packet[8..];
      assert packet[2..8] == U16(4 + |data.chunk|) + [0xD1, data.channel] + U16(data.sequence);
    }
  }

  lemma ParseAckPacket(channel: nat, sequence: nat)
    requires channel < CHANNELS && sequence < MODULUS
    ensures ParseAck(AckPacket(channel, sequence)) == Some(Acks(channel, [sequence]))
  {
    var packet := AckPacket(channel, sequence);
    assert AckAt(packet, 0) == sequence;
    assert seq(1, i requires 0 <= i < 1 => AckAt(packet, i)) == [sequence];
  }

  // ---- The pending dictionary ----

  ghost predicate Awaits(pending: seq<Entry>, channel: nat, sequence: nat) {
    exists e :: e in pending && e.channel == channel && e.sequence == sequence
  }

  /** Dictionary assignment: an existing key keeps its place, a new key goes to the end. */
  function Put(pending: seq<Entry>, entry: Entry): seq<Entry> {
    if pending == [] then [entry]
    else if pending[0].channel == entry.channel && pending[0].sequence == entry.sequence then [entry] + pending[1..]
    else [pending[0]] + Put(pending[1..], entry)
  }

  /** `pop` of every listed key. */
  function Discard(pending: seq<Entry>, channel: nat, sequences: seq<nat>): seq<Entry> {
    if pending == [] then []
    else
      var rest := Discard(pending[1..], channel, sequences);
      if pending[0].channel == channel && pending[0].sequence in sequences then rest else [pending[0]] + rest
  }

  lemma {:induction false} PutMembers(pending: seq<Entry>, entry: Entry)
    ensures entry in Put(pending, entry)
    ensures forall e :: e in Put(pending, entry) ==> e == entry || e in pending
    ensures forall e :: e in pending && !(e.channel == entry.channel && e.sequence == entry.sequence) ==> e in Put(pending, entry)
  {
    if pending != [] {
      PutMembers(pending[1..], entry);
      assert pending == [pending[0]] + pending[1..];
    }
  }

  lemma {:induction false} DiscardMembers(pending: seq<Entry>, channel: nat, sequences: seq<nat>)
    ensures forall e :: e in Discard(pending, channel, sequences)
                    <==> e in pending && !(e.channel == channel && e.sequence in sequences)
  {
    if pending != [] {
      DiscardMembers(pending[1..], channel, sequences);
      assert pending == [pending[0]] + pending[1..];
    }
  }

  /** The loop of `_handle_ack` pops one key at a time. */
  lemma {:induction false} DiscardOneMore(pending: seq<Entry>, channel: nat, sequences: seq<nat>, last: nat)
    ensures Discard(Discard(pending, channel, sequences), channel, [last])
         == Discard(pending, channel, sequences + [last])
  {
    if pending != [] {
      DiscardOneMore(pending[1..], channel, sequences, last);
      var kept := Discard(pending[1..], channel, sequences);
      if !(pending[0].channel == channel && pending[0].sequence in sequences) {
        assert ([pending[0]] + kept)[1..] == kept;
      }
    }
  }

  // ---- Steps ----

  /** One turn of the sending loop of `write`. */
  function SendChunk(ep: Endpoint, channel: nat, chunk: bytes, now: real): (Endpoint, bytes)
    requires Shaped(ep) && channel < CHANNELS && |chunk| <= CHUNK_BYTES
  {
    var sequence := ep.outgoing[channel];
    var packet := DataPacket(channel, sequence, chunk);
    (ep.(outgoing := ep.outgoing[channel := (sequence + 1) % MODULUS],
         pending := Put(ep.pending, Entry(channel, sequence, packet, now, 1))),
     packet)
  }

  function AfterAck(ep: Endpoint, packet: bytes): Endpoint {
    match ParseAck(packet)
    case None => ep
    case Some(acks) => ep.(pending := Discard(ep.pending, acks.channel, acks.sequences))
  }

  /** `_handle_data`: the acknowledgement is sent before the chunk is looked at. */
  function AfterData(ep: Endpoint, packet: bytes): (Endpoint, Option<bytes>)
    requires Shaped(ep)
  {
    match ParseData(packet)
    case None => (ep, None)
    case Some(data) =>
      (ep.(channels := ep.channels[data.channel := Accept(ep.channels[data.channel], data.sequence, data.chunk)]),
       Some(AckPacket(data.channel, data.sequence)))
  }

  /** The entries after one pass of `_retransmit`, the entries it sent again, and whether it
      finished without giving up on one. */
  datatype Pass = Pass(pending: seq<Entry>, resent: seq<Entry>, ok: bool)

  function Resend(pending: seq<Entry>, now: real): Pass {
    if pending == [] then Pass([], [], true)
    else
      var entry := pending[0];
      if now - entry.sentAt < RETRANSMIT_SECONDS then
        var rest := Resend(pending[1..], now);
        Pass([entry] + rest.pending, rest.resent, rest.ok)
      else if entry.attempts >= MAX_RETRANSMITS then
        Pass(pending[1..], [], false)
      else
        var rest := Resend(pending[1..], now);
        Pass([entry.(sentAt := now, attempts := entry.attempts + 1)] + rest.pending, [entry] + rest.resent, rest.ok)
  }

  /** The entry is to be sent again: nothing was heard of it for half a second. */
  predicate Due(e: Entry, now: real) {
    now - e.sentAt >= 0.5
  }

  /** A pass sends again exactly the entries that are due, in their order, counts each of them and
      marks it with the time, and leaves the others alone; it gives up at the first entry that is
      due and has been sent twenty times, and forgets it. */
  lemma {:induction false} PassExactly(pending: seq<Entry>, now: real)
    returns (k: nat)
    ensures var pass := Resend(pending, now);
            && k <= |pending|
            && (forall i | 0 <= i < k && Due(pending[i], now) :: pending[i].attempts < 20)
            && (pass.ok <==> k == |pending|)
            && (k < |pending| ==> Due(pending[k], now) && pending[k].attempts >= 20)
            && pass.resent == DueOnes(pending[..k], now)
            && |pass.pending| == (if k == |pending| then k else |pending| - 1)
            && (forall i | 0 <= i < k ::
                  pass.pending[i] == if Due(pending[i], now)
                                     then pending[i].(sentAt := now, attempts := pending[i].attempts + 1) else pending[i])
            && (k < |pending| ==> pass.pending[k..] == pending[k + 1..])
  {
    k := 0;
    if pending != [] && !(Due(pending[0], now) && pending[0].attempts >= MAX_RETRANSMITS) {
      var rest := Resend(pending[1..], now);
      var before := PassExactly(pending[1..], now);
      k := before + 1;
      assert pending[..k][1..] == pending[1..][..before];
    }
  }

  function DueOnes(entries: seq<Entry>, now: real): seq<Entry> {
    if entries == [] then []
    else (if Due(entries[0], now) then [entries[0]] else []) + DueOnes(entries[1..], now)
  }

  ghost predicate SameKey(a: Entry, b: Entry) {
    a.channel == b.channel && a.sequence == b.sequence && a.packet == b.packet
  }

  /** A pass resends only entries that were pending and not yet exhausted. */
  lemma {:induction false} ResentWerePending(pending: seq<Entry>, now: real)
    ensures forall e :: e in Resend(pending, now).resent ==> e in pending && e.attempts < MAX_RETRANSMITS
  {
    if pending != [] {
      ResentWerePending(pending[1..], now);
      assert pending == [pending[0]] + pending[1..];
    }
  }

  /** A pass invents no entry. */
  lemma {:induction false} ResendInventsNothing(pending: seq<Entry>, now: real)
    ensures forall e :: e in Resend(pending, now).pending ==> exists o :: o in pending && SameKey(o, e)
  {
    if pending != [] {
      ResendInventsNothing(pending[1..], now);
      var pass, rest := Resend(pending, now), Resend(pending[1..], now);
      forall e | e in pass.pending
        ensures exists o :: o in pending && SameKey(o, e)
      {
        if pass.pending == pending[1..] && e in pending[1..] {
          assert e in pending && SameKey(e, e);
        } else if e == pass.pending[0] {
          assert pending[0] in pending && SameKey(pending[0], e);
        } else {
          var o :| o in pending[1..] && SameKey(o, e);
          assert o in pending;
        }
      }
    }
  }

  /** A pass that does not fail keeps every entry in its place. */
  lemma {:induction false} ResendKeepsAll(pending: seq<Entry>, now: real)
    requires Resend(pending, now).ok
    ensures |Resend(pending, now).pending| == |pending|
    ensures forall i :: 0 <= i < |pending| ==> SameKey(pending[i], Resend(pending, now).pending[i])
  {
    if pending != [] {
      ResendKeepsAll(pending[1..], now);
    }
  }

  /** No packet is transmitted more than twenty times before the session gives up on it. */
  lemma {:induction false} AttemptsBounded(pending: seq<Entry>, now: real)
    requires forall e :: e in pending ==> 1 <= e.attempts <= MAX_RETRANSMITS
    ensures forall e :: e in Resend(pending, now).pending ==> 1 <= e.attempts <= MAX_RETRANSMITS
  {
    if pending != [] {
      assert forall e :: e in pending[1..] ==> e in pending;
      AttemptsBounded(pending[1..], now);
    }
  }

  // ---- Runs of the pending dictionary ----

  /** What happens to the dictionary: a pass, an acknowledgement, another packet sent. */
  datatype Event = Passed(now: real) | Acked(channel: nat, sequences: seq<nat>) | Added(entry: Entry)

  predicate KeyOf(e: Entry, channel: nat, sequence: nat) {
    e.channel == channel && e.sequence == sequence
  }

  /** How often entries with the key occur. */
  function Times(entries: seq<Entry>, channel: nat, sequence: nat): nat {
    if entries == [] then 0
    else (if KeyOf(entries[0], channel, sequence) then 1 else 0) + Times(entries[1..], channel, sequence)
  }

  /** How often the entries with the key can still be sent again. */
  function Budget(pending: seq<Entry>, channel: nat, sequence: nat): nat {
    if pending == [] then 0
    else
      (if KeyOf(pending[0], channel, sequence) && pending[0].attempts <= MAX_RETRANSMITS
       then MAX_RETRANSMITS - pending[0].attempts else 0)
      + Budget(pending[1..], channel, sequence)
  }

  function After(pending: seq<Entry>, event: Event): seq<Entry> {
    match event
    case Passed(now) => Resend(pending, now).pending
    case Acked(channel, sequences) => Discard(pending, channel, sequences)
    case Added(entry) => Put(pending, entry)
  }

  /** How often packets with the key are sent again in a run. */
  function Resends(pending: seq<Entry>, events: seq<Event>, channel: nat, sequence: nat): nat
    decreases |events|
  {
    if events == [] then 0
    else
      (match events[0]
       case Passed(now) => Times(Resend(pending, now).resent, channel, sequence)
       case Acked(_, _) => 0
       case Added(_) => 0)
      + Resends(After(pending, events[0]), events[1..], channel, sequence)
  }

  lemma {:induction false} PassSpends(pending: seq<Entry>, now: real, channel: nat, sequence: nat)
    ensures Times(Resend(pending, now).resent, channel, sequence) + Budget(Resend(pending, now).pending, channel, sequence)
         <= Budget(pending, channel, sequence)
  {
    if pending != [] {
      PassSpends(pending[1..], now, channel, sequence);
      var rest := Resend(pending[1..], now);
      var again := pending[0].(sentAt := now, attempts := pending[0].attempts + 1);
      assert ([pending[0]] + rest.pending)[1..] == rest.pending && ([again] + rest.pending)[1..] == rest.pending;
      assert ([pending[0]] + rest.resent)[1..] == rest.resent;
    }
  }

  lemma {:induction false} AckSpends(pending: seq<Entry>, to: nat, sequences: seq<nat>, channel: nat, sequence: nat)
    ensures Budget(Discard(pending, to, sequences), channel, sequence) <= Budget(pending, channel, sequence)
  {
    if pending != [] {
      AckSpends(pending[1..], to, sequences, channel, sequence);
    }
  }

  lemma {:induction false} PutSpends(pending: seq<Entry>, entry: Entry, channel: nat, sequence: nat)
    requires !KeyOf(entry, channel, sequence)
    ensures Budget(Put(pending, entry), channel, sequence) == Budget(pending, channel, sequence)
  {
    if pending != [] {
      PutSpends(pending[1..], entry, channel, sequence);
    }
  }

  lemma {:induction false} ResendsSpend(pending: seq<Entry>, events: seq<Event>, channel: nat, sequence: nat)
    requires forall e | e in events && e.Added? :: !KeyOf(e.entry, channel, sequence)
    ensures Resends(pending, events, channel, sequence) <= Budget(pending, channel, sequence)
    decreases |events|
  {
    if events != [] {
      assert events[0] in events && forall e | e in events[1..] :: e in events;
      ResendsSpend(After(pending, events[0]), events[1..], channel, sequence);
      match events[0]
      case Passed(now) => PassSpends(pending, now, channel, sequence);
      case Acked(to, sequences) => AckSpends(pending, to, sequences, channel, sequence);
      case Added(entry) => PutSpends(pending, entry, channel, sequence);
    }
  }

  lemma {:induction false} FirstBudget(pending: seq<Entry>, entry: Entry)
    requires entry.attempts == 1 && forall e | e in pending :: !KeyOf(e, entry.channel, entry.sequence)
    ensures Budget(Put(pending, entry), entry.channel, entry.sequence) == MAX_RETRANSMITS - 1
  {
    if pending != [] {
      assert pending[0] in pending && forall e | e in pending[1..] :: e in pending;
      FirstBudget(pending[1..], entry);
    }
  }

  /** In every run of passes, acknowledgements and other sends, a packet is transmitted at most twenty
      times: once when it is sent, and nineteen times again. */
  lemma TransmittedTwentyTimes(pending: seq<Entry>, entry: Entry, events: seq<Event>)
    requires entry.attempts == 1 && !Awaits(pending, entry.channel, entry.sequence)
    requires forall e | e in events && e.Added? :: !KeyOf(e.entry, entry.channel, entry.sequence)
    ensures 1 + Resends(Put(pending, entry), events, entry.channel, entry.sequence) <= MAX_RETRANSMITS
  {
    FirstBudget(pending, entry);
    ResendsSpend(Put(pending, entry), events, entry.channel, entry.sequence);
  }

  /** A chunk that is sent is pending, dated and counted once. */
  lemma SentIsPending(ep: Endpoint, channel: nat, chunk: bytes, now: real)
    requires Shaped(ep) && channel < CHANNELS && |chunk| <= CHUNK_BYTES
    ensures var (after, packet) := SendChunk(ep, channel, chunk, now);
            exists e :: && e in after.pending && KeyOf(e, channel, ep.outgoing[channel])
                        && e.packet == packet && e.sentAt == now && e.attempts == 1
  {
    PutMembers(ep.pending, Entry(channel, ep.outgoing[channel], SendChunk(ep, channel, chunk, now).1, now, 1));
  }

  /** So a chunk is transmitted at most twenty times after it was sent, whatever happens then. */
  lemma ChunkTwentyTimes(ep: Endpoint, channel: nat, chunk: bytes, now: real, events: seq<Event>)
    requires Shaped(ep) && channel < CHANNELS && |chunk| <= CHUNK_BYTES && !Awaits(ep.pending, channel, ep.outgoing[channel])
    requires forall e | e in events && e.Added? :: !KeyOf(e.entry, channel, ep.outgoing[channel])
    ensures 1 + Resends(SendChunk(ep, channel, chunk, now).0.pending, events, channel, ep.outgoing[channel]) <= 20
  {
    TransmittedTwentyTimes(ep.pending, Entry(channel, ep.outgoing[channel], SendChunk(ep, channel, chunk, now).1, now, 1), events);
  }

  function Kind(packet: bytes): bytes {
    if |packet| < 2 then packet else packet[..2]
  }

  /** The packet dispatch of `_pump` as far as the reliable channels are concerned. */
  function Receive(ep: Endpoint, packet: bytes): (Endpoint, Option<bytes>)
    requires Shaped(ep)
  {
    if Kind(packet) == [0xF1, 0xD1] then (AfterAck(ep, packet), None)
    else if Kind(packet) == [0xF1, 0xD0] then AfterData(ep, packet)
    else (ep, None)
  }

  /** A data packet that the receiver files under this channel. */
  predicate IsDataFor(packet: bytes, channel: nat) {
    |packet| >= 8 && packet[0] == 0xF1 && packet[1] == 0xD0
    && ParseData(packet).Some? && ParseData(packet).value.channel == channel
  }

  /** An acknowledgement that the receiver files under this channel. */
  predicate IsAckFor(packet: bytes, channel: nat) {
    |packet| >= 8 && packet[0] == 0xF1 && packet[1] == 0xD1
    && ParseAck(packet).Some? && ParseAck(packet).value.channel == channel
  }

  lemma DataPacketKind(channel: nat, sequence: nat, chunk: bytes)
    requires channel < CHANNELS && sequence < MODULUS && |chunk| <= CHUNK_BYTES
    ensures IsDataFor(DataPacket(channel, sequence, chunk), channel)
  {
    ParseDataPacket(channel, sequence, chunk);
  }

  lemma AckPacketKind(channel: nat, sequence: nat)
    requires channel < CHANNELS && sequence < MODULUS
    ensures IsAckFor(AckPacket(channel, sequence), channel)
  {
    ParseAckPacket(channel, sequence);
  }

  /** A data packet changes its own channel, and is acknowledged there. */
  lemma ReceiveData(ep: Endpoint, packet: bytes, channel: nat)
    requires Shaped(ep) && IsDataFor(packet, channel)
    ensures channel < CHANNELS
    ensures var data := ParseData(packet).value;
            && Receive(ep, packet).0 == ep.(channels := ep.channels[channel := Accept(ep.channels[channel], data.sequence, data.chunk)])
            && Receive(ep, packet).1 == Some(AckPacket(channel, data.sequence))
            && IsAckFor(AckPacket(channel, data.sequence), channel)
  {
    assert Kind(packet)[1] == 0xD0;
    AckPacketKind(channel, ParseData(packet).value.sequence);
  }

  /** An acknowledgement removes pending entries of its own channel, and is not answered. */
  lemma ReceiveAck(ep: Endpoint, packet: bytes, channel: nat)
    requires Shaped(ep) && IsAckFor(packet, channel)
    ensures Receive(ep, packet) == (ep.(pending := Discard(ep.pending, channel, ParseAck(packet).value.sequences)), None)
  {
    assert Kind(packet)[1] == 0xD1;
  }

  /** `read_exact` once enough bytes are buffered. */
  function TakeBytes(ep: Endpoint, channel: nat, size: nat): (Endpoint, bytes)
    requires Shaped(ep) && channel < CHANNELS && size <= |ep.channels[channel].buffer|
  {
    var ch := ep.channels[channel];
    (ep.(channels := ep.channels[channel := ch.(buffer := ch.buffer[size..])]), ch.buffer[..size])
  }

  /** The chunks that `write` cuts a payload into. */
  function Chunks(payload: bytes): (chunks: seq<bytes>)
    ensures forall c :: c in chunks ==> 0 < |c| <= CHUNK_BYTES
  {
    if payload == [] then []
    else if |payload| <= CHUNK_BYTES then [payload]
    else [payload[..CHUNK_BYTES]] + Chunks(payload[CHUNK_BYTES..])
  }

  lemma {:induction false} ChunksWhole(payload: bytes)
    ensures Concat(Chunks(payload)) == payload
    ensures |Chunks(payload)| == (|payload| + 1023) / 1024
  {
    if |payload| > CHUNK_BYTES {
      ChunksWhole(payload[CHUNK_BYTES..]);
      assert payload == payload[..CHUNK_BYTES] + payload[CHUNK_BYTES..];
    } else if payload != [] {
      ConcatSnoc([], payload);
      assert [] + [payload] == [payload];
    }
  }
}
