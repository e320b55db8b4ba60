/** `CS2Session` in its own form: fields updated in place by `_handle_ack`, `_handle_data`,
    `_retransmit`, `_pump`, `write`, `read_exact` and `close`. */
module Cs2Session {
  import opened Bytes
  import opened Sequencing
  import opened Endpoint

  datatype Address = Address(host: bytes, port: nat)

  datatype Datagram = Datagram(packet: bytes, address: Address)

  /** One turn of a waiting loop: the clock, and what `_receive_clear` returned. */
  datatype Tick = Tick(now: real, arrival: Option<Datagram>)

  datatype Outcome = Returned | Invalid | TimedOut | GaveUp | PeerClosed | Waiting

  const MAX_FRAME_BYTES := 8 * 1024 * 1024

  // ---- What one pump does, on values ----

  datatype State = State(ep: Endpoint, peer: Option<Address>, closed: bool)

  /** A packet counts only when it comes from the peer's host; the port may have drifted. */
  predicate FromPeer(peer: Option<Address>, address: Address) {
    peer.Some? && peer.value.host == address.host
  }

  /** The answer of `_pump` to a control packet, if it has one. */
  function ControlReply(uid: bytes, packet: bytes): Option<bytes> {
    if Kind(packet) == [0xF1, 0xE0] then Some([0xF1, 0xE1, 0, 0])
    else if Kind(packet) == [0xF1, 0x41] then Some([0xF1, 0x42, 0, 0x14] + uid)
    else if Kind(packet) == [0xF1, 0x42] then Some([0xF1, 0x43, 0, 0])
    else None
  }

  function PumpEndpoint(s: State, tick: Tick): (Endpoint, Outcome)
    requires Shaped(s.ep)
  {
    var pass := if s.peer.None? then Pass(s.ep.pending, [], true) else Resend(s.ep.pending, tick.now);
    var ep := s.ep.(pending := pass.pending);
    if !pass.ok then (ep, GaveUp)
    else if tick.arrival.None? || !FromPeer(s.peer, tick.arrival.value.address) then (ep, Returned)
    else if Kind(tick.arrival.value.packet) == [0xF1, 0xF0] then (ep, PeerClosed)
    else (Receive(ep, tick.arrival.value.packet).0, Returned)
  }

  /** The endpoint after a number of pumps that all returned normally. */
  function PumpAll(s: State, ticks: seq<Tick>): (ep: Endpoint)
    requires Shaped(s.ep)
    ensures Shaped(ep)
  {
    if ticks == [] then s.ep
    else
      var last := |ticks| - 1;
      PumpShaped(s.(ep := PumpAll(s, ticks[..last])), ticks[last]);
      PumpEndpoint(s.(ep := PumpAll(s, ticks[..last])), ticks[last]).0
  }

  lemma PumpShaped(s: State, tick: Tick)
    requires Shaped(s.ep)
    ensures Shaped(PumpEndpoint(s, tick).0)
  {
  }

  /** How turn `k` ends. */
  function Turned(s: State, ticks: seq<Tick>, k: nat): Outcome
    requires Shaped(s.ep) && k < |ticks|
  {
    PumpEndpoint(s.(ep := PumpAll(s, ticks[..k])), ticks[k]).1
  }

  lemma PumpNone(s: State, ticks: seq<Tick>)
    requires Shaped(s.ep)
    ensures PumpAll(s, ticks[..0]) == s.ep
  {
  }

  /** One more turn. */
  lemma PumpMore(s: State, ticks: seq<Tick>, k: nat)
    requires Shaped(s.ep) && k < |ticks|
    ensures var (after, outcome) := PumpEndpoint(s.(ep := PumpAll(s, ticks[..k])), ticks[k]);
            PumpAll(s, ticks[..k + 1]) == after && outcome in {Returned, GaveUp, PeerClosed}
  {
    assert ticks[..k + 1][..k] == ticks[..k];
  }

  lemma CountOn(start: nat, k: nat)
    ensures ((start + k) % MODULUS + 1) % MODULUS == (start + (k + 1)) % MODULUS
  {
  }

  /** The endpoint after the first `k` turns of the sending loop of `write`. */
  function SendAll(ep: Endpoint, channel: nat, chunks: seq<bytes>, clock: nat -> real, k: nat): (after: Endpoint)
    requires Shaped(ep) && channel < CHANNELS && k <= |chunks|
    requires forall c :: c in chunks ==> |c| <= CHUNK_BYTES
    ensures Shaped(after)
    ensures after.outgoing[channel] == (ep.outgoing[channel] + k) % MODULUS
  {
    if k == 0 then ep
    else
      assert chunks[k - 1] in chunks;
      CountOn(ep.outgoing[channel], k - 1);
      SendChunk(SendAll(ep, channel, chunks, clock, k - 1), channel, chunks[k - 1], clock(k - 1)).0
  }

  lemma {:induction false} ChunkCount(payload: bytes, k: nat)
    ensures CHUNK_BYTES * k < |payload| <==> k < |Chunks(payload)|
  {
    if k > 0 && |payload| > CHUNK_BYTES {
      ChunkCount(payload[CHUNK_BYTES..], k - 1);
    }
  }

  lemma {:induction false} ChunkAt(payload: bytes, k: nat)
    requires CHUNK_BYTES * k < |payload| && k < |Chunks(payload)|
    ensures var end := if CHUNK_BYTES * (k + 1) < |payload| then CHUNK_BYTES * (k + 1) else |payload|;
            Chunks(payload)[k] == payload[CHUNK_BYTES * k..end]
  {
    if k > 0 {
      ChunkAt(payload[CHUNK_BYTES..], k - 1);
    }
  }

  function Sequences(start: nat, n: nat): seq<nat> {
    seq(n, k requires k >= 0 => (start + k) % MODULUS)
  }

  function ChunkEnd(payload: bytes, k: nat): nat {
    if CHUNK_BYTES * (k + 1) < |payload| then CHUNK_BYTES * (k + 1) else |payload|
  }

  /** One turn of the sending loop, told at its offset in the payload. */
  lemma SendStep(start: Endpoint, channel: nat, payload: bytes, clock: nat -> real, k: nat)
    requires Shaped(start) && channel < CHANNELS && CHUNK_BYTES * k < |payload|
    ensures k < |Chunks(payload)| && |payload[CHUNK_BYTES * k..ChunkEnd(payload, k)]| <= CHUNK_BYTES
    ensures SendAll(start, channel, Chunks(payload), clock, k + 1)
         == SendChunk(SendAll(start, channel, Chunks(payload), clock, k), channel,
                      payload[CHUNK_BYTES * k..ChunkEnd(payload, k)], clock(k)).0
    ensures Sequences(start.outgoing[channel], k + 1)
         == Sequences(start.outgoing[channel], k) + [SendAll(start, channel, Chunks(payload), clock, k).outgoing[channel]]
  {
    ChunkCount(payload, k);
    ChunkAt(payload, k);
    assert Chunks(payload)[k] in Chunks(payload);
    SequencesSnoc(start.outgoing[channel], k, SendAll(start, channel, Chunks(payload), clock, k).outgoing[channel]);
  }

  lemma SequencesSnoc(start: nat, k: nat, next: nat)
    requires next == (start + k) % MODULUS
    ensures Sequences(start, k + 1) == Sequences(start, k) + [next]
  {
  }

  /** Some chunk of the write is still unacknowledged. */
  predicate Unacknowledged(pending: seq<Entry>, channel: nat, sequences: seq<nat>) {
    exists e | e in pending :: e.channel == channel && e.sequence in sequences
  }

  lemma KindAt(packet: bytes, kind: byte)
    ensures Kind(packet) == [0xF1, kind] <==> |packet| >= 2 && packet[0] == 0xF1 && packet[1] == kind
  {
    assert |packet| >= 2 ==> packet[..2] == [packet[0], packet[1]];
  }

  /** The answer to a packet, by its second byte. */
  function AnswerTo(uid: bytes, peer: Address, packet: bytes, from: Address): seq<Datagram> {
    if |packet| < 2 || packet[0] != 0xF1 then []
    else if packet[1] == 0xE0 then [Datagram([0xF1, 0xE1, 0, 0], from)]
    else if packet[1] == 0x41 then [Datagram([0xF1, 0x42, 0, 20] + uid, from)]
    else if packet[1] == 0x42 then [Datagram([0xF1, 0x43, 0, 0], from)]
    else if packet[1] == 0xD0 && ParseData(packet).Some? then
      [Datagram([0xF1, 0xD1, 0, 6, 0xD1, packet[5], 0, 1, packet[6], packet[7]], peer)]
    else []
  }

  lemma ReplyIs(uid: bytes, s: State, arrival: Datagram)
    requires Shaped(s.ep) && s.peer.Some?
    ensures Reply(uid, s, arrival) == AnswerTo(uid, s.peer.value, arrival.packet, arrival.address)
  {
    hide Accept;
    KindAt(arrival.packet, 0xE0);
    KindAt(arrival.packet, 0x41);
    KindAt(arrival.packet, 0x42);
    KindAt(arrival.packet, 0xD0);
    KindAt(arrival.packet, 0xD1);
    if ParseData(arrival.packet).Some? {
      U16Back(arrival.packet[6], arrival.packet[7]);
      assert [0xF1, 0xD1, 0, 6, 0xD1, arrival.packet[5], 0, 1] + [arrival.packet[6], arrival.packet[7]]
          == [0xF1, 0xD1, 0, 6, 0xD1, arrival.packet[5], 0, 1, arrival.packet[6], arrival.packet[7]];
    }
  }

  lemma U16Back(hi: byte, lo: byte)
    ensures U16(FromU16(hi, lo)) == [hi, lo]
  {
  }

  /** What a packet from the peer's host, at whatever port, is answered with: an alive request with an
      alive answer, a punch with readiness and the own identifier, readiness with its acknowledgement,
      each to where it came from; valid data with an acknowledgement of its channel and number, to the
      peer; and nothing else at all. */
  lemma PumpAnswers(uid: bytes, s: State, tick: Tick, peer: Address, packet: bytes, from: Address)
    requires Shaped(s.ep) && s.peer == Some(peer) && tick.arrival == Some(Datagram(packet, from))
    requires Resend(s.ep.pending, tick.now).ok
    ensures PumpSends(uid, s, tick)
         == Addressed(Resend(s.ep.pending, tick.now).resent, peer)
          + if from.host == peer.host then AnswerTo(uid, peer, packet, from) else []
  {
    hide Resend, Addressed, Reply, AnswerTo;
    ReplyIs(uid, s.(ep := s.ep.(pending := Resend(s.ep.pending, tick.now).pending)), tick.arrival.value);
  }

  /** The peer's close, from its host at whatever port, ends the session, and nothing else that arrives
      does; a packet of another host changes nothing. */
  lemma PumpCloses(s: State, tick: Tick)
    requires Shaped(s.ep) && s.peer.Some?
    ensures PumpEndpoint(s, tick).1 == PeerClosed <==>
              && Resend(s.ep.pending, tick.now).ok && tick.arrival.Some?
              && tick.arrival.value.address.host == s.peer.value.host
              && |tick.arrival.value.packet| >= 2 && tick.arrival.value.packet[0] == 0xF1 && tick.arrival.value.packet[1] == 0xF0
    ensures PumpEndpoint(s, tick).1 == GaveUp <==> !Resend(s.ep.pending, tick.now).ok
    ensures tick.arrival.Some? && tick.arrival.value.address.host != s.peer.value.host ==>
              PumpEndpoint(s, tick).0 == s.ep.(pending := Resend(s.ep.pending, tick.now).pending)
  {
    hide Resend;
    if tick.arrival.Some? {
      KindAt(tick.arrival.value.packet, 0xF0);
    }
  }

  /** Only data and acknowledgements change what is pending or received. */
  lemma PumpIgnores(s: State, tick: Tick)
    requires Shaped(s.ep) && s.peer.Some? && tick.arrival.Some?
    requires var packet := tick.arrival.value.packet;
             |packet| < 2 || packet[0] != 0xF1 || (packet[1] != 0xD0 && packet[1] != 0xD1)
    ensures PumpEndpoint(s, tick).0 == s.ep.(pending := Resend(s.ep.pending, tick.now).pending)
  {
    hide Resend;
    KindAt(tick.arrival.value.packet, 0xD0);
    KindAt(tick.arrival.value.packet, 0xD1);
  }

  const FAREWELL: bytes := [0xF1, 0xF0, 0, 0]

  /** One close packet to each address. */
  function Farewells(order: seq<Address>): seq<Datagram> {
    seq(|order|, i requires 0 <= i < |order| => Datagram(FAREWELL, order[i]))
  }

  ghost predicate Distinct<T>(s: seq<T>) {
    forall i, j | 0 <= i < j < |s| :: s[i] != s[j]
  }

  lemma NobodyTold()
    ensures Farewells([]) == [] && Distinct<Address>([])
  {
  }

  lemma DistinctSnoc<T>(s: seq<T>, last: T)
    requires Distinct(s) && last !in s
    ensures Distinct(s + [last])
  {
  }

  lemma FarewellsSnoc(order: seq<Address>, last: Address)
    ensures Farewells(order + [last]) == Farewells(order) + [Datagram(FAREWELL, last)]
  {
  }

  /** The data packets of a write: the chunks in order, under consecutive sequence numbers. */
  function DataSends(channel: nat, start: nat, chunks: seq<bytes>, peer: Address): seq<Datagram>
    requires channel < CHANNELS && forall c :: c in chunks ==> |c| <= CHUNK_BYTES
  {
    seq(|chunks|, k requires 0 <= k < |chunks| => Datagram(DataPacket(channel, (start + k) % MODULUS, chunks[k]), peer))
  }

  lemma DataSendsSnoc(channel: nat, start: nat, chunks: seq<bytes>, k: nat, peer: Address)
    requires channel < CHANNELS && k < |chunks| && forall c :: c in chunks ==> |c| <= CHUNK_BYTES
    ensures (forall c :: c in chunks[..k] ==> c in chunks) && (forall c :: c in chunks[..k + 1] ==> c in chunks)
    ensures chunks[k] in chunks
    ensures DataSends(channel, start, chunks[..k + 1], peer)
         == DataSends(channel, start, chunks[..k], peer) + [Datagram(DataPacket(channel, (start + k) % MODULUS, chunks[k]), peer)]
  {
  }

  lemma NothingSent(start: Endpoint, channel: nat, payload: bytes, clock: nat -> real, peer: Address)
    requires Shaped(start) && channel < CHANNELS
    ensures SendAll(start, channel, Chunks(payload), clock, 0) == start
    ensures Chunks(payload)[..0] == [] && DataSends(channel, start.outgoing[channel], [], peer) == []
  {
  }

  lemma PacketOf(ep: Endpoint, channel: nat, chunk: bytes, now: real)
    requires Shaped(ep) && channel < CHANNELS && |chunk| <= CHUNK_BYTES
    ensures SendChunk(ep, channel, chunk, now).1 == DataPacket(channel, ep.outgoing[channel], chunk)
  {
  }

  /** What one pump sends: what is retransmitted, and the answer to the packet that arrived. */
  function PumpSends(uid: bytes, s: State, tick: Tick): seq<Datagram>
    requires Shaped(s.ep)
  {
    if s.peer.None? then []
    else
      var pass := Resend(s.ep.pending, tick.now);
      Addressed(pass.resent, s.peer.value)
      + if !pass.ok || tick.arrival.None? || !FromPeer(s.peer, tick.arrival.value.address) then []
        else Reply(uid, s.(ep := s.ep.(pending := pass.pending)), tick.arrival.value)
  }

  function Reply(uid: bytes, s: State, arrival: Datagram): seq<Datagram>
    requires Shaped(s.ep) && s.peer.Some?
  {
    if ControlReply(uid, arrival.packet).Some? then
      [Datagram(ControlReply(uid, arrival.packet).value, arrival.address)]
    else
      match Receive(s.ep, arrival.packet).1
      case None => []
      case Some(ack) => [Datagram(ack, s.peer.value)]
  }

  class CS2Session {
    const uid: bytes
    var outgoing: seq<nat>
    var incoming: seq<nat>
    var buffers: seq<bytes>
    var outOfOrder: seq<map<nat, bytes>>
    var pending: seq<Entry>
    var peer: Option<Address>
    var closed: bool
    var closeTargets: set<Address>
    /** Everything handed to `_send_clear`, oldest first. */
    var sends: seq<Datagram>
    /** The bytes that readers took off each channel. */
    ghost var consumed: seq<bytes>

    ghost predicate Valid()
      reads this
    {
      && |outgoing| == |incoming| == |buffers| == |outOfOrder| == |consumed| == CHANNELS
      && forall c | 0 <= c < CHANNELS :: outgoing[c] < MODULUS
    }

    ghost function View(): (ep: Endpoint)
      requires Valid()
      reads this
      ensures Shaped(ep)
    {
      Endpoint(outgoing,
               seq(CHANNELS, c requires 0 <= c < CHANNELS && Valid() reads this => Channel(incoming[c], buffers[c], outOfOrder[c])),
               pending)
    }

    constructor (uid: bytes)
      ensures Valid() && View() == INITIAL && consumed == Eight([])
      ensures this.uid == uid && peer == None && !closed && closeTargets == {} && sends == []
    {
      this.uid := uid;
      outgoing, incoming, buffers, outOfOrder := Eight(0), Eight(0), Eight([]), Eight(map[]);
      pending, peer, closed, closeTargets, sends := [], None, false, {}, [];
      consumed := Eight([]);
    }

    method HandleAck(packet: bytes)
      requires Valid()
      modifies this`pending
      ensures Valid() && View() == AfterAck(old(View()), packet)
      ensures match ParseAck(packet)
              case None => pending == old(pending)
              case Some(acks) =>
                forall e :: e in pending <==> e in old(pending) && !(e.channel == acks.channel && e.sequence in acks.sequences)
    {
      if |packet| < 8 || packet[4] != 0xD1 || packet[5] >= CHANNELS {
        return;
      }
      var channel := packet[5];
      var count := FromU16(packet[6], packet[7]);
      if count > MAX_ACKS || |packet| != 8 + count * 2 {
        return;
      }
      ghost var sequences := seq(count, i requires 0 <= i < count => AckAt(packet, i));
      DiscardNothing(pending, channel);
      for offset := 0 to count
        invariant Valid()
        invariant pending == Discard(old(pending), channel, sequences[..offset])
      {
        var sequence := FromU16(packet[8 + 2 * offset], packet[9 + 2 * offset]);
        DiscardOneMore(old(pending), channel, sequences[..offset], sequence);
        assert sequences[..offset + 1] == sequences[..offset] + [sequence];
        pending := Discard(pending, channel, [sequence]);
      }
      assert sequences[..count] == sequences;
      DiscardMembers(old(pending), channel, sequences);
    }

    /** Append the expected chunk and everything consecutive that waited for it. */
    method Deliver(channel: nat, chunk: bytes)
      requires Valid() && channel < CHANNELS
      modifies this`incoming, this`buffers, this`outOfOrder
      ensures Valid()
      ensures View() == old(View()).(channels := old(View()).channels[
                channel := Accept(old(View()).channels[channel], old(incoming)[channel], chunk)])
    {
      ghost var before := View().channels;
      var buffer: bytes, expected: nat := buffers[channel] + chunk, (incoming[channel] + 1) % MODULUS;
      var waiting: map<nat, bytes> := outOfOrder[channel];
      while expected in waiting
        invariant Drain(Channel(expected, buffer, waiting)) == Accept(before[channel], old(incoming)[channel], chunk)
        decreases |waiting|
      {
        buffer := buffer + waiting[expected];
        waiting := waiting - {expected};
        expected := (expected + 1) % MODULUS;
      }
      buffers := buffers[channel := buffer];
      outOfOrder := outOfOrder[channel := waiting];
      incoming := incoming[channel := expected];
      assert View().channels == before[channel := Channel(expected, buffer, waiting)];
    }

    method HandleData(packet: bytes)
      requires Valid() && peer.Some?
      modifies this`incoming, this`buffers, this`outOfOrder, this`sends
      ensures Valid() && View() == AfterData(old(View()), packet).0
      ensures var reply := AfterData(old(View()), packet).1;
              sends == old(sends) + if reply.Some? then [Datagram(reply.value, peer.value)] else []
    {
      var declared := if |packet| >= 4 then FromU16(packet[2], packet[3]) else -1;
      if |packet| < 8 || declared != |packet| - 4 || packet[4] != 0xD1 || packet[5] >= CHANNELS {
        return;
      }
      var channel: nat, sequence: nat, chunk := packet[5], FromU16(packet[6], packet[7]), packet[8..];
      assert ParseData(packet) == Some(Data(channel, sequence, chunk));
      sends := sends + [Datagram(AckPacket(channel, sequence), peer.value)];
      var expected: nat := incoming[channel];
      if sequence == expected {
        Deliver(channel, chunk);
      } else {
        ghost var before := View().channels;
        var waiting: map<nat, bytes> := outOfOrder[channel];
        var distance := (sequence - expected) % MODULUS;
        if sequence !in waiting && |waiting| < REORDER_LIMIT && 0 < distance < HALF {
          waiting := waiting[sequence := chunk];
        }
        outOfOrder := outOfOrder[channel := waiting];
        assert View().channels == before[channel := before[channel].(reorder := waiting)];
      }
    }

    method Retransmit(now: real) returns (ok: bool)
      requires Valid()
      modifies this`pending, this`sends
      ensures Valid()
      ensures peer.None? ==> ok && pending == old(pending) && sends == old(sends)
      ensures peer.Some? ==>
                var pass := Resend(old(pending), now);
                && ok == pass.ok && pending == pass.pending
                && sends == old(sends) + Addressed(pass.resent, peer.value)
    {
      hide Passing, Resend, Addressed;
      if peer.None? {
        return true;
      }
      var items := pending;
      var done: seq<Entry>, i := [], 0;
      ghost var resent: seq<Entry> := [];
      ghost var whole := Resend(items, now);
      FirstOf(items, now, whole);
      NobodyAddressed(peer.value);
      while i < |items|
        invariant 0 <= i <= |items| && Passing(whole, items, i, now, done, resent)
        invariant pending == done + items[i..]
        invariant sends == old(sends) + Addressed(resent, peer.value)
      {
        var entry := items[i];
        StepPass(whole, items, i, now, done, resent);
        if now - entry.sentAt < RETRANSMIT_SECONDS {
          done := done + [entry];
        } else if entry.attempts >= MAX_RETRANSMITS {
          pending := done + items[i + 1..];
          return false;
        } else {
          AddressedSnoc(resent, entry, peer.value);
          sends := sends + [Datagram(entry.packet, peer.value)];
          resent := resent + [entry];
          done := done + [entry.(sentAt := now, attempts := entry.attempts + 1)];
        }
        i := i + 1;
        pending := done + items[i..];
      }
      LastOf(whole, items, now, done, resent);
      return true;
    }

    /** Notify every endpoint this session touched, then forget the peer. `order` tells in which
        order the set was gone through. */
    method Close() returns (sent: bool, ghost order: seq<Address>)
      requires Valid()
      modifies this`sends, this`closed, this`peer
      ensures Valid() && View() == old(View()) && closed
      ensures old(closed) ==> sent && sends == old(sends) && peer == old(peer)
      ensures !old(closed) ==>
                && peer == None && (sent <==> order != [])
                && Distinct(order) && (forall t :: t in order <==> t in closeTargets || old(peer) == Some(t))
                && sends == old(sends) + Farewells(order)
    {
      order := [];
      if closed {
        return true, order;
      }
      hide Farewells, Distinct;
      NobodyTold();
      var targets := closeTargets + if peer.Some? then {peer.value} else {};
      ghost var all := targets;
      sent := false;
      while targets != {}
        invariant targets <= all && sent == (order != []) && Distinct(order)
        invariant forall t :: t in order <==> t in all - targets
        invariant sends == old(sends) + Farewells(order)
        decreases |targets|
      {
        var target :| target in targets;
        FarewellsSnoc(order, target);
        DistinctSnoc(order, target);
        sends := sends + [Datagram(FAREWELL, target)];
        order := order + [target];
        targets, sent := targets - {target}, true;
      }
      closed, peer := true, None;
    }

    /** One retransmission pass, then at most one arriving packet. */
    method Pump(tick: Tick) returns (outcome: Outcome)
      requires Valid()
      modifies this`outgoing, this`incoming, this`buffers, this`outOfOrder, this`pending, this`sends, this`closed, this`peer
      ensures Valid()
      ensures (View(), outcome) == old(PumpEndpoint(State(View(), peer, closed), tick))
      ensures outcome != PeerClosed ==> peer == old(peer) && closed == old(closed)
      ensures outcome == PeerClosed ==> closed && (old(closed) || peer == None)
      ensures outcome != PeerClosed ==> sends == old(sends) + old(PumpSends(uid, State(View(), peer, closed), tick))
      ensures outcome == PeerClosed ==> old(sends) + old(PumpSends(uid, State(View(), peer, closed), tick)) <= sends
    {
      hide AfterAck, AfterData, Resend, Addressed, Farewells;
      ghost var before := State(View(), peer, closed);
      var ok := Retransmit(tick.now);
      ghost var pass := if peer.None? then Pass(before.ep.pending, [], true) else Resend(before.ep.pending, tick.now);
      assert View() == before.ep.(pending := pass.pending) && ok == pass.ok;
      if !ok {
        return GaveUp;
      }
      if tick.arrival.None? || !FromPeer(peer, tick.arrival.value.address) {
        return Returned;
      }
      var packet, address := tick.arrival.value.packet, tick.arrival.value.address;
      var reply := ControlReply(uid, packet);
      outcome := Returned;
      if reply.Some? {
        ControlKinds(uid, packet);
        sends := sends + [Datagram(reply.value, address)];
        assert View() == before.ep.(pending := pass.pending);
      } else if Kind(packet) == [0xF1, 0xD1] {
        HandleAck(packet);
      } else if Kind(packet) == [0xF1, 0xD0] {
        HandleData(packet);
      } else if Kind(packet) == [0xF1, 0xF0] {
        assert Kind(packet)[1] == 0xF0;
        var _, _ := Close();
        outcome := PeerClosed;
      }
    }

    /** `write`: cut the payload into chunks, send them, then pump until none is pending. `clock`
        gives the readings of the clock while sending, `ticks` the turns of the waiting loop;
        `used` is the number of turns taken, and `Waiting` says the call has not returned yet. */
    method Write(channel: nat, payload: bytes, timeout: real, clock: nat -> real, ticks: seq<Tick>)
      returns (outcome: Outcome, used: nat)
      requires Valid()
      modifies this`outgoing, this`incoming, this`buffers, this`outOfOrder, this`pending, this`sends, this`closed, this`peer
      ensures Valid() && used <= |ticks|
      ensures outcome == Invalid <==> old(peer.None? || closed) || channel >= CHANNELS
      ensures outcome == Invalid ==> View() == old(View())
      ensures outcome == Invalid ==> sends == old(sends) && peer == old(peer) && closed == old(closed)
      ensures outcome != Invalid ==>
                && old(peer).Some?
                && old(sends) + DataSends(channel, old(outgoing)[channel], Chunks(payload), old(peer).value) <= sends
                && (var sent := old(State(SendAll(View(), channel, Chunks(payload), clock, |Chunks(payload)|), peer, closed));
                    && View() == PumpAll(sent, ticks[..used]) && Ends(sent, ticks, used, outcome)
                    && forall k: nat | k < used ::
                         && ticks[k].now < clock(|Chunks(payload)|) + timeout
                         && Unacknowledged(PumpAll(sent, ticks[..k]).pending, channel,
                                           Sequences(old(outgoing)[channel], |Chunks(payload)|)))
      ensures outcome == Returned ==>
                !Unacknowledged(pending, channel, Sequences(old(outgoing)[channel], |Chunks(payload)|))
      ensures outcome == TimedOut ==> used < |ticks| && ticks[used].now >= clock(|Chunks(payload)|) + timeout
      ensures outcome == Waiting ==> used == |ticks|
    {
      if peer.None? || closed || channel >= CHANNELS {
        return Invalid, 0;
      }
      var sequences := SendChunks(channel, payload, clock);
      outcome, used := AwaitAcks(channel, sequences, clock(|sequences|) + timeout, ticks);
    }

    /** How the turns taken by a waiting loop ended: every one but the last returned normally, and the
        last one did so too unless the loop ended because of it. */
    ghost predicate Ends(start: State, ticks: seq<Tick>, used: nat, outcome: Outcome)
      requires Shaped(start.ep) && used <= |ticks|
      reads this
    {
      && (forall k: nat | k + 1 < used :: Turned(start, ticks, k) == Returned)
      && (used > 0 ==> Turned(start, ticks, used - 1) == if outcome == GaveUp || outcome == PeerClosed then outcome else Returned)
      && (outcome == GaveUp || outcome == PeerClosed ==> used > 0)
      && (if outcome == PeerClosed then closed else peer == start.peer && closed == start.closed)
    }

    /** The sending loop has used the numbers `sequences`, and nothing else happened. */
    ghost predicate SentSoFar(start: Endpoint, channel: nat, payload: bytes, clock: nat -> real, sequences: seq<nat>)
      requires Shaped(start) && channel < CHANNELS
      reads this
    {
      && Valid() && |sequences| <= |Chunks(payload)|
      && View() == SendAll(start, channel, Chunks(payload), clock, |sequences|)
      && sequences == Sequences(start.outgoing[channel], |sequences|)
    }

    /** And the data packets under those numbers were sent, behind what was sent before. */
    ghost predicate PacketsSent(start: Endpoint, before: seq<Datagram>, channel: nat, payload: bytes, k: nat)
      requires Shaped(start) && channel < CHANNELS && k <= |Chunks(payload)|
      reads this
    {
      && (forall c :: c in Chunks(payload)[..k] ==> c in Chunks(payload))
      && peer.Some?
      && sends == before + DataSends(channel, start.outgoing[channel], Chunks(payload)[..k], peer.value)
    }

    method SendChunks(channel: nat, payload: bytes, clock: nat -> real) returns (sequences: seq<nat>)
      requires Valid() && peer.Some? && channel < CHANNELS
      modifies this`outgoing, this`pending, this`sends
      ensures Valid()
      ensures View() == SendAll(old(View()), channel, Chunks(payload), clock, |Chunks(payload)|)
      ensures sequences == Sequences(old(outgoing)[channel], |Chunks(payload)|)
      ensures sends == old(sends) + DataSends(channel, old(outgoing)[channel], Chunks(payload), peer.value)
    {
      hide SendAll, DataSends, Chunks;
      ghost var start := View();
      NothingSent(start, channel, payload, clock, peer.value);
      sequences := [];
      var offset := 0;
      ChunkCount(payload, 0);
      while offset < |payload|
        invariant offset == CHUNK_BYTES * |sequences|
        invariant SentSoFar(start, channel, payload, clock, sequences)
        invariant PacketsSent(start, old(sends), channel, payload, |sequences|)
        invariant offset < |payload| <==> |sequences| < |Chunks(payload)|
      {
        ChunkCount(payload, |sequences| + 1);
        var chunk := payload[offset..if offset + CHUNK_BYTES < |payload| then offset + CHUNK_BYTES else |payload|];
        var sequence := SendNext(channel, chunk, clock(|sequences|), start, payload, clock, sequences, old(sends));
        sequences := sequences + [sequence];
        offset := offset + CHUNK_BYTES;
      }
      assert Chunks(payload)[..|sequences|] == Chunks(payload);
    }

    method SendNext(channel: nat, chunk: bytes, now: real,
                    ghost start: Endpoint, ghost payload: bytes, ghost clock: nat -> real, ghost sequences: seq<nat>, ghost before: seq<Datagram>)
      returns (sequence: nat)
      requires peer.Some? && channel < CHANNELS && Shaped(start)
      requires SentSoFar(start, channel, payload, clock, sequences) && CHUNK_BYTES * |sequences| < |payload|
      requires PacketsSent(start, before, channel, payload, |sequences|)
      requires now == clock(|sequences|)
      requires chunk == payload[CHUNK_BYTES * |sequences|..ChunkEnd(payload, |sequences|)]
      modifies this`outgoing, this`pending, this`sends
      ensures SentSoFar(start, channel, payload, clock, sequences + [sequence])
      ensures PacketsSent(start, before, channel, payload, |sequences| + 1) && peer == old(peer)
    {
      hide SendAll, DataSends, Sequences, Chunks, SendChunk;
      SendStep(start, channel, payload, clock, |sequences|);
      DataSendsSnoc(channel, start.outgoing[channel], Chunks(payload), |sequences|, peer.value);
      ChunkAt(payload, |sequences|);
      sequence := outgoing[channel];
      PacketOf(View(), channel, chunk, now);
      SendOne(channel, sequence, chunk, now);
    }

    method SendOne(channel: nat, sequence: nat, chunk: bytes, now: real)
      requires Valid() && peer.Some? && channel < CHANNELS && |chunk| <= CHUNK_BYTES && sequence == outgoing[channel]
      modifies this`outgoing, this`pending, this`sends
      ensures Valid()
      ensures View() == SendChunk(old(View()), channel, chunk, now).0
      ensures sends == old(sends) + [Datagram(SendChunk(old(View()), channel, chunk, now).1, peer.value)]
    {
      outgoing := outgoing[channel := (sequence + 1) % MODULUS];
      var packet := DataPacket(channel, sequence, chunk);
      sends := sends + [Datagram(packet, peer.value)];
      pending := Put(pending, Entry(channel, sequence, packet, now, 1));
    }

    method AwaitAcks(channel: nat, sequences: seq<nat>, deadline: real, ticks: seq<Tick>)
      returns (outcome: Outcome, used: nat)
      requires Valid()
      modifies this`outgoing, this`incoming, this`buffers, this`outOfOrder, this`pending, this`sends, this`closed, this`peer
      ensures Valid() && used <= |ticks| && outcome != Invalid && old(sends) <= sends
      ensures var start := old(State(View(), peer, closed));
              && View() == PumpAll(start, ticks[..used]) && Ends(start, ticks, used, outcome)
              && forall k: nat | k < used ::
                   ticks[k].now < deadline && Unacknowledged(PumpAll(start, ticks[..k]).pending, channel, sequences)
      ensures outcome == Returned ==> !Unacknowledged(pending, channel, sequences)
      ensures outcome == TimedOut ==> used < |ticks| && ticks[used].now >= deadline
      ensures outcome == Waiting ==> used == |ticks|
    {
      hide PumpAll, PumpEndpoint, PumpSends;
      used := 0;
      ghost var start := State(View(), peer, closed);
      PumpNone(start, ticks);
      while Unacknowledged(pending, channel, sequences)
        invariant Valid() && used <= |ticks|
        invariant peer == start.peer && closed == start.closed && old(sends) <= sends
        invariant View() == PumpAll(start, ticks[..used])
        invariant forall k: nat | k < used :: Turned(start, ticks, k) == Returned
        invariant forall k: nat | k < used ::
                    ticks[k].now < deadline && Unacknowledged(PumpAll(start, ticks[..k]).pending, channel, sequences)
        decreases |ticks| - used
      {
        if used == |ticks| {
          return Waiting, used;
        }
        if ticks[used].now >= deadline {
          return TimedOut, used;
        }
        outcome := Pump(ticks[used]);
        PumpMore(start, ticks, used);
        used := used + 1;
        if outcome != Returned {
          return;
        }
      }
      outcome := Returned;
    }

    /** `read_exact`: pump until enough bytes of the channel are buffered, then take them. */
    method ReadExact(channel: nat, size: nat, deadline: real, ticks: seq<Tick>)
      returns (outcome: Outcome, data: bytes, used: nat)
      requires Valid()
      modifies this
      ensures Valid() && used <= |ticks|
      ensures outcome == Invalid <==> old(peer.None? || closed) || channel >= CHANNELS || size > 8 * 1024 * 1024
      ensures outcome == Invalid ==> used == 0 && View() == old(View()) && sends == old(sends)
      ensures outcome != Returned ==> data == [] && consumed == old(consumed)
      ensures outcome == Returned ==>
                && |data| == size && (used == 0 ==> |buffers[channel]| + size == |old(buffers)[channel]|)
                && peer == old(peer) && closed == old(closed)
                && consumed == old(consumed)[channel := old(consumed)[channel] + data]
                && (var before := old(PumpAll(State(View(), peer, closed), ticks[..used]));
                    && data <= before.channels[channel].buffer
                    && View() == TakeBytes(before, channel, size).0)
      ensures outcome == TimedOut ==>
                && used < |ticks| && ticks[used].now >= deadline && |buffers[channel]| < size
                && View() == old(PumpAll(State(View(), peer, closed), ticks[..used]))
      ensures outcome == Waiting ==> used == |ticks|
      ensures outcome != Invalid ==>
                var start := old(State(View(), peer, closed));
                && Ends(start, ticks, used, outcome)
                && (outcome != Returned ==> View() == PumpAll(start, ticks[..used]))
                && forall k: nat | k < used ::
                     ticks[k].now < deadline && |PumpAll(start, ticks[..k]).channels[channel].buffer| < size
    {
      hide PumpAll, PumpEndpoint, PumpSends;
      data, used := [], 0;
      if peer.None? || closed || channel >= CHANNELS || size > MAX_FRAME_BYTES {
        return Invalid, [], 0;
      }
      ghost var start := State(View(), peer, closed);
      PumpNone(start, ticks);
      while |buffers[channel]| < size
        invariant Valid() && used <= |ticks| && consumed == old(consumed)
        invariant peer == start.peer && closed == start.closed
        invariant View() == PumpAll(start, ticks[..used]) && (used == 0 ==> buffers == old(buffers))
        invariant forall k: nat | k < used :: Turned(start, ticks, k) == Returned
        invariant forall k: nat | k < used ::
                    ticks[k].now < deadline && |PumpAll(start, ticks[..k]).channels[channel].buffer| < size
        decreases |ticks| - used
      {
        if used == |ticks| {
          return Waiting, [], used;
        }
        if ticks[used].now >= deadline {
          return TimedOut, [], used;
        }
        outcome := Pump(ticks[used]);
        PumpMore(start, ticks, used);
        used := used + 1;
        if outcome != Returned {
          return;
        }
      }
      data := buffers[channel][..size];
      ghost var before := View();
      buffers := buffers[channel := buffers[channel][size..]];
      consumed := consumed[channel := consumed[channel] + data];
      assert View() == TakeBytes(before, channel, size).0;
      outcome := Returned;
    }
  }

  lemma ControlKinds(uid: bytes, packet: bytes)
    requires ControlReply(uid, packet).Some?
    ensures Kind(packet) != [0xF1, 0xF0]
    ensures Kind(packet) != [0xF1, 0xD0]
    ensures Kind(packet) != [0xF1, 0xD1]
  {
    assert Kind(packet)[1] == 0xE0 || Kind(packet)[1] == 0x41 || Kind(packet)[1] == 0x42;
  }

  /** The whole pass, when `rest` is what remains of it after `done` and `resent`. */
  function Continue(done: seq<Entry>, resent: seq<Entry>, rest: Pass): Pass {
    Pass(done + rest.pending, resent + rest.resent, rest.ok)
  }

  /** The pass over all of `items`, seen after `i` of them. */
  ghost predicate Passing(whole: Pass, items: seq<Entry>, i: nat, now: real, done: seq<Entry>, resent: seq<Entry>) {
    i <= |items| && whole == Continue(done, resent, Resend(items[i..], now))
  }

  lemma FirstOf(items: seq<Entry>, now: real, whole: Pass)
    requires whole == Resend(items, now)
    ensures Passing(whole, items, 0, now, [], [])
  {
    assert items[0..] == items;
    assert [] + whole.pending == whole.pending && [] + whole.resent == whole.resent;
  }

  lemma LastOf(whole: Pass, items: seq<Entry>, now: real, done: seq<Entry>, resent: seq<Entry>)
    requires Passing(whole, items, |items|, now, done, resent)
    ensures whole == Pass(done, resent, true) && done + items[|items|..] == done
  {
  }

  lemma StepPass(whole: Pass, items: seq<Entry>, i: nat, now: real, done: seq<Entry>, resent: seq<Entry>)
    requires i < |items| && Passing(whole, items, i, now, done, resent)
    ensures var entry := items[i];
            if now - entry.sentAt < RETRANSMIT_SECONDS then
              Passing(whole, items, i + 1, now, done + [entry], resent)
            else if entry.attempts >= MAX_RETRANSMITS then
              whole == Pass(done + items[i + 1..], resent, false)
            else
              Passing(whole, items, i + 1, now, done + [entry.(sentAt := now, attempts := entry.attempts + 1)], resent + [entry])
  {
    assert items[i..][1..] == items[i + 1..];
  }

  /** The datagrams of a retransmission pass. */
  function Addressed(entries: seq<Entry>, peer: Address): seq<Datagram> {
    seq(|entries|, i requires 0 <= i < |entries| => Datagram(entries[i].packet, peer))
  }

  lemma NobodyAddressed(peer: Address)
    ensures Addressed([], peer) == []
  {
  }

  lemma AddressedSnoc(entries: seq<Entry>, last: Entry, peer: Address)
    ensures Addressed(entries + [last], peer) == Addressed(entries, peer) + [Datagram(last.packet, peer)]
  {
  }

  lemma {:induction false} DiscardNothing(pending: seq<Entry>, channel: nat)
    ensures Discard(pending, channel, []) == pending
  {
    if pending != [] {
      DiscardNothing(pending[1..], channel);
    }
  }
}
