/** The receiving half of one reliable channel: 16-bit sequence numbers, in-order delivery
    and a bounded reorder buffer. Absolute (unwrapped) chunk indices are bookkeeping only. */
module Sequencing {
  import opened Bytes

  const MODULUS := 0x1_0000
  const HALF := 0x8000
  const REORDER_LIMIT := 64
  const CHUNK_BYTES := 1024

  /** The sequence number that chunk `index` carries on the wire. */
  function Wire(index: nat): nat {
    index % MODULUS
  }

  /** How far `sequence` lies ahead of `expected`, modulo 2^16. */
  function Distance(sequence: nat, expected: nat): nat {
    (sequence - expected) % MODULUS
  }

  /** Receive state of one channel. */
  datatype Channel = Channel(expected: nat, buffer: bytes, reorder: map<nat, bytes>)

  /** One turn of the drain loop: the expected chunk moves from the reorder buffer to the stream. */
  function DrainOne(ch: Channel): Channel
    requires ch.expected in ch.reorder
  {
    Channel((ch.expected + 1) % MODULUS, ch.buffer + ch.reorder[ch.expected], ch.reorder - {ch.expected})
  }

  /** The inner loop of `_handle_data`: move consecutive chunks out of the reorder buffer. */
  function Drain(ch: Channel): Channel
    decreases |ch.reorder|
  {
    if ch.expected in ch.reorder then
      Drain(DrainOne(ch))
    else
      ch
  }

  /** What `_handle_data` does with a valid packet, after it has acknowledged it. */
  function Accept(ch: Channel, sequence: nat, chunk: bytes): Channel {
    if sequence == ch.expected then
      Drain(Channel((sequence + 1) % MODULUS, ch.buffer + chunk, ch.reorder))
    else if sequence !in ch.reorder && |ch.reorder| < REORDER_LIMIT
            && 0 < Distance(sequence, ch.expected) < HALF then
      ch.(reorder := ch.reorder[sequence := chunk])
    else
      ch
  }

  /** Any packet: the expected number is delivered with what waits behind it; another is kept, the first
      chunk under its number, while fewer than 64 wait and it lies less than 2^15 ahead; anything else
      changes nothing. */
  lemma AcceptIs(ch: Channel, sequence: nat, chunk: bytes)
    ensures sequence == ch.expected ==>
              Accept(ch, sequence, chunk) == Drain(Channel((sequence + 1) % 0x1_0000, ch.buffer + chunk, ch.reorder))
    ensures sequence != ch.expected ==>
              var ahead := (sequence - ch.expected) % 0x1_0000;
              Accept(ch, sequence, chunk)
              == if sequence !in ch.reorder && |ch.reorder| < 64 && 0 < ahead < 0x8000
                 then Channel(ch.expected, ch.buffer, ch.reorder[sequence := chunk]) else ch
  {
  }

  /** The absolute index that a buffered sequence number stands for. */
  function Index(delivered: nat, sequence: nat): nat {
    delivered + Distance(sequence, Wire(delivered))
  }

  /** Every buffered chunk is the right one, at a distance of at least `low` and below 2^15. */
  ghost predicate Buffered(sent: seq<bytes>, delivered: nat, ch: Channel, low: nat) {
    forall key | key in ch.reorder ::
      && key < MODULUS
      && low <= Distance(key, ch.expected) < HALF
      && Index(delivered, key) < |sent|
      && ch.reorder[key] == sent[Index(delivered, key)]
  }

  ghost predicate InOrder(sent: seq<bytes>, delivered: nat, consumed: bytes, ch: Channel) {
    && delivered <= |sent|
    && ch.expected == Wire(delivered)
    && consumed + ch.buffer == Concat(sent[..delivered])
    && |ch.reorder| <= REORDER_LIMIT
  }

  /** The channel invariant: what was consumed plus what is buffered is exactly the first
      `delivered` chunks, and the reorder buffer holds only later chunks of the same stream. */
  ghost predicate Tracks(sent: seq<bytes>, delivered: nat, consumed: bytes, ch: Channel) {
    InOrder(sent, delivered, consumed, ch) && Buffered(sent, delivered, ch, 1)
  }

  /** A copy of chunk `index` that arrives while `delivered` is expected is not ambiguous. */
  predicate InWindow(index: nat, delivered: nat) {
    delivered <= index + HALF && index <= delivered + HALF
  }

  /** Chunk `index` has reached the peer: delivered, or waiting in the reorder buffer. */
  ghost predicate Held(delivered: nat, ch: Channel, index: nat) {
    index < delivered || (Wire(index) in ch.reorder && Index(delivered, Wire(index)) == index)
  }

  lemma WireStep(delivered: nat)
    ensures Wire(delivered + 1) == (Wire(delivered) + 1) % MODULUS
  {
  }

  lemma DistanceStep(key: nat, expected: nat)
    requires 0 < Distance(key, expected)
    ensures Distance(key, (expected + 1) % MODULUS) == Distance(key, expected) - 1
  {
  }

  lemma IndexStep(key: nat, delivered: nat)
    requires 0 < Distance(key, Wire(delivered))
    ensures Index(delivered + 1, key) == Index(delivered, key)
  {
    WireStep(delivered);
    DistanceStep(key, Wire(delivered));
  }

  lemma DrainOneInOrder(sent: seq<bytes>, delivered: nat, consumed: bytes, ch: Channel)
    requires InOrder(sent, delivered, consumed, ch) && Buffered(sent, delivered, ch, 0)
    requires ch.expected in ch.reorder
    ensures InOrder(sent, delivered + 1, consumed, DrainOne(ch))
  {
    var chunk := ch.reorder[ch.expected];
    WireStep(delivered);
    assert Index(delivered, ch.expected) == delivered;
    assert sent[..delivered + 1] == sent[..delivered] + [chunk];
    ConcatSnoc(sent[..delivered], chunk);
    assert consumed + DrainOne(ch).buffer == (consumed + ch.buffer) + chunk;
  }

  lemma NothingAtZero(sent: seq<bytes>, delivered: nat, ch: Channel)
    requires ch.expected == Wire(delivered) && ch.expected !in ch.reorder
    requires Buffered(sent, delivered, ch, 0)
    ensures Buffered(sent, delivered, ch, 1)
  {
    forall key | key in ch.reorder
      ensures 1 <= Distance(key, ch.expected)
    {
      assert Distance(key, ch.expected) == 0 ==> key == ch.expected;
    }
  }

  lemma DrainOneKey(delivered: nat, expected: nat, key: nat)
    requires expected == Wire(delivered) && key < MODULUS && key != expected
    requires Distance(key, expected) < HALF
    ensures 0 <= Distance(key, Wire(delivered + 1)) < HALF
    ensures Index(delivered + 1, key) == Index(delivered, key)
  {
    IndexStep(key, delivered);
    WireStep(delivered);
    DistanceStep(key, expected);
  }

  lemma DrainOneBuffered(sent: seq<bytes>, delivered: nat, ch: Channel, next: Channel)
    requires ch.expected == Wire(delivered) && next.expected == Wire(delivered + 1)
    requires Buffered(sent, delivered, ch, 0)
    requires next.reorder == ch.reorder - {ch.expected}
    ensures Buffered(sent, delivered + 1, next, 0)
  {
    forall key | key in next.reorder
      ensures Index(delivered + 1, key) == Index(delivered, key)
      ensures 0 <= Distance(key, next.expected) < HALF
    {
      DrainOneKey(delivered, ch.expected, key);
    }
  }

  lemma DrainOneHeld(delivered: nat, ch: Channel, next: Channel, i: nat)
    requires ch.expected == Wire(delivered)
    requires next.reorder == ch.reorder - {ch.expected}
    requires Held(delivered, ch, i)
    ensures Held(delivered + 1, next, i)
  {
    if i > delivered {
      IndexStep(Wire(i), delivered);
    }
  }

  /** Draining keeps the channel invariant and never loses a held chunk. */
  lemma {:induction false} DrainTracks(sent: seq<bytes>, delivered: nat, consumed: bytes, ch: Channel)
    returns (after: nat)
    requires InOrder(sent, delivered, consumed, ch) && Buffered(sent, delivered, ch, 0)
    ensures delivered <= after <= delivered + |ch.reorder|
    ensures Tracks(sent, after, consumed, Drain(ch))
    ensures forall i :: Held(delivered, ch, i) ==> Held(after, Drain(ch), i)
    decreases |ch.reorder|
  {
    if ch.expected in ch.reorder {
      var next := DrainOne(ch);
      DrainOneInOrder(sent, delivered, consumed, ch);
      DrainOneBuffered(sent, delivered, ch, next);
      forall i | Held(delivered, ch, i)
        ensures Held(delivered + 1, next, i)
      {
        DrainOneHeld(delivered, ch, next, i);
      }
      after := DrainTracks(sent, delivered + 1, consumed, next);
    } else {
      after := delivered;
      NothingAtZero(sent, delivered, ch);
    }
  }

  /** Inside the window the wire distance is the true distance, or at least 2^15 for old copies. */
  lemma WindowDistance(i: nat, delivered: nat)
    requires InWindow(i, delivered)
    ensures Distance(Wire(i), Wire(delivered)) == if delivered <= i then i - delivered else MODULUS - (delivered - i)
  {
  }

  /** The next expected index after `Accept`, read off the new expected sequence number. */
  function Advanced(delivered: nat, ch: Channel): nat {
    Index(delivered, ch.expected)
  }

  lemma AdvancedIs(delivered: nat, after: nat, ch: Channel)
    requires delivered <= after < delivered + MODULUS && ch.expected == Wire(after)
    ensures Advanced(delivered, ch) == after
  {
  }

  /** A copy of the expected chunk: it is appended and the reorder buffer drained. */
  lemma AcceptExpected(sent: seq<bytes>, delivered: nat, consumed: bytes, ch: Channel)
    requires Tracks(sent, delivered, consumed, ch) && delivered < |sent|
    ensures var next := Accept(ch, Wire(delivered), sent[delivered]);
            var after := Advanced(delivered, next);
            && delivered < after <= delivered + 1 + |ch.reorder|
            && Tracks(sent, after, consumed, next)
            && forall i :: Held(delivered, ch, i) ==> Held(after, next, i)
  {
    var chunk := sent[delivered];
    var middle := ch.(expected := (ch.expected + 1) % MODULUS, buffer := ch.buffer + chunk);
    WireStep(delivered);
    assert InOrder(sent, delivered + 1, consumed, middle) by {
      assert sent[..delivered + 1] == sent[..delivered] + [chunk];
      ConcatSnoc(sent[..delivered], chunk);
      assert consumed + middle.buffer == (consumed + ch.buffer) + chunk;
    }
    assert ch.expected !in ch.reorder;
    assert middle.reorder == ch.reorder - {ch.expected};
    DrainOneBuffered(sent, delivered, ch, middle);
    forall i | Held(delivered, ch, i)
      ensures Held(delivered + 1, middle, i)
    {
      DrainOneHeld(delivered, ch, middle, i);
    }
    var after := DrainTracks(sent, delivered + 1, consumed, middle);
    AdvancedIs(delivered, after, Accept(ch, Wire(delivered), chunk));
  }

  lemma AcceptStores(ch: Channel, delivered: nat, index: nat, chunk: bytes)
    requires ch.expected == Wire(delivered) && index != delivered && InWindow(index, delivered)
    requires Accept(ch, Wire(index), chunk) != ch
    ensures delivered < index < delivered + HALF && Wire(index) !in ch.reorder && |ch.reorder| < REORDER_LIMIT
    ensures Accept(ch, Wire(index), chunk) == ch.(reorder := ch.reorder[Wire(index) := chunk])
  {
    WindowDistance(index, delivered);
  }

  lemma StoredTracks(sent: seq<bytes>, delivered: nat, consumed: bytes, ch: Channel, index: nat)
    requires Tracks(sent, delivered, consumed, ch) && delivered < index < |sent| && index < delivered + HALF
    requires Wire(index) !in ch.reorder && |ch.reorder| < REORDER_LIMIT
    ensures var next := ch.(reorder := ch.reorder[Wire(index) := sent[index]]);
            Tracks(sent, delivered, consumed, next) && forall i :: Held(delivered, ch, i) ==> Held(delivered, next, i)
  {
    WindowDistance(index, delivered);
    assert Index(delivered, Wire(index)) == index;
  }

  /** A copy of another chunk: it is stored for later or ignored, and nothing is delivered. */
  lemma AcceptOther(sent: seq<bytes>, delivered: nat, consumed: bytes, ch: Channel, index: nat)
    requires Tracks(sent, delivered, consumed, ch) && index < |sent|
    requires index != delivered && InWindow(index, delivered)
    ensures var next := Accept(ch, Wire(index), sent[index]);
            && next.expected == ch.expected && next.buffer == ch.buffer
            && Tracks(sent, delivered, consumed, next)
            && forall i :: Held(delivered, ch, i) ==> Held(delivered, next, i)
  {
    if Accept(ch, Wire(index), sent[index]) != ch {
      AcceptStores(ch, delivered, index, sent[index]);
      StoredTracks(sent, delivered, consumed, ch, index);
    }
  }

  /** Any copy inside the window keeps the channel invariant and every held chunk. */
  lemma AcceptTracks(sent: seq<bytes>, delivered: nat, consumed: bytes, ch: Channel, index: nat)
    requires Tracks(sent, delivered, consumed, ch) && index < |sent| && InWindow(index, delivered)
    ensures var next := Accept(ch, Wire(index), sent[index]);
            var after := Advanced(delivered, next);
            && delivered <= after
            && Tracks(sent, after, consumed, next)
            && forall i :: Held(delivered, ch, i) ==> Held(after, next, i)
  {
    if index == delivered {
      AcceptExpected(sent, delivered, consumed, ch);
    } else {
      AcceptOther(sent, delivered, consumed, ch, index);
      AdvancedIs(delivered, delivered, Accept(ch, Wire(index), sent[index]));
    }
  }

  /** The acknowledged chunk is held afterwards, provided the reorder buffer has room for it. */
  lemma AcceptHolds(sent: seq<bytes>, delivered: nat, consumed: bytes, ch: Channel, index: nat)
    requires Tracks(sent, delivered, consumed, ch) && index < |sent|
    requires InWindow(index, delivered) && index < delivered + HALF
    requires Wire(index) in ch.reorder || |ch.reorder| < REORDER_LIMIT || index <= delivered
    ensures var next := Accept(ch, Wire(index), sent[index]);
            Held(Advanced(delivered, next), next, index)
  {
    if index == delivered {
      AcceptExpected(sent, delivered, consumed, ch);
    } else {
      AcceptOther(sent, delivered, consumed, ch, index);
      WindowDistance(index, delivered);
      AdvancedIs(delivered, delivered, Accept(ch, Wire(index), sent[index]));
    }
  }

  /** The sequence numbers of the chunks `low..high`. */
  ghost function WireRange(low: nat, high: nat): set<nat>
    requires low <= high
    decreases high - low
  {
    if low == high then {} else {Wire(low)} + WireRange(low + 1, high)
  }

  lemma {:induction false} WireRangeHas(low: nat, high: nat, i: nat)
    requires low <= i < high
    ensures Wire(i) in WireRange(low, high)
    decreases high - low
  {
    if low < i {
      WireRangeHas(low + 1, high, i);
    }
  }

  lemma {:induction false} WireRangeSize(low: nat, high: nat)
    requires low <= high
    ensures |WireRange(low, high)| <= high - low
    decreases high - low
  {
    if low < high {
      WireRangeSize(low + 1, high);
    }
  }

  lemma SubsetSize<T>(small: set<T>, large: set<T>)
    requires small <= large
    ensures |small| <= |large|
  {
    assert large == small + (large - small);
  }

  /** With at most 65 chunks outstanding, a missing later chunk always finds room. */
  lemma RoomForMissing(sent: seq<bytes>, delivered: nat, consumed: bytes, ch: Channel, index: nat)
    requires Tracks(sent, delivered, consumed, ch)
    requires delivered < index < |sent| <= delivered + REORDER_LIMIT + 1
    requires Wire(index) !in ch.reorder
    ensures |ch.reorder| < REORDER_LIMIT
  {
    var range := WireRange(delivered + 1, |sent|);
    forall key | key in ch.reorder
      ensures key in range - {Wire(index)}
    {
      var i := Index(delivered, key);
      assert Wire(i) == key by { IndexWire(delivered, key); }
      WireRangeHas(delivered + 1, |sent|, i);
    }
    WireRangeHas(delivered + 1, |sent|, index);
    WireRangeSize(delivered + 1, |sent|);
    SubsetSize(ch.reorder.Keys, range - {Wire(index)});
  }

  lemma IndexWire(delivered: nat, key: nat)
    requires key < MODULUS
    ensures Wire(Index(delivered, key)) == key
  {
  }

  /** The expected chunk is never waiting in the reorder buffer. */
  lemma NextNotHeld(sent: seq<bytes>, delivered: nat, consumed: bytes, ch: Channel)
    requires Tracks(sent, delivered, consumed, ch)
    ensures !Held(delivered, ch, delivered)
  {
    assert Distance(Wire(delivered), ch.expected) == 0;
  }

  lemma OldDistance(delivered: nat, index: nat)
    requires index < delivered < index + MODULUS
    ensures Distance(Wire(index), Wire(delivered)) == MODULUS - (delivered - index)
    ensures Wire(index) != Wire(delivered)
  {
  }

  /** An old copy is ignored exactly when it is at most 2^15 chunks old: beyond that it is
      mistaken for a chunk of the future and takes a place in the reorder buffer. */
  lemma OldCopyIgnoredIff(delivered: nat, ch: Channel, index: nat, chunk: bytes)
    requires ch.expected == Wire(delivered) && index < delivered < index + MODULUS
    requires Wire(index) !in ch.reorder && |ch.reorder| < REORDER_LIMIT
    ensures Accept(ch, Wire(index), chunk) == ch <==> delivered <= index + HALF
  {
    OldDistance(delivered, index);
    assert Wire(index) != ch.expected;
    assert delivered > index + HALF ==> Wire(index) in Accept(ch, Wire(index), chunk).reorder;
  }

  // ---- Runs of one channel ----

  /** What can happen to the receiving half: a copy of some chunk arrives, or a reader takes bytes. */
  datatype Event = Arrive(index: nat) | Take(size: nat)

  datatype Reader = Reader(delivered: nat, consumed: bytes, channel: Channel)

  predicate Possible(sent: seq<bytes>, r: Reader, e: Event) {
    match e
    case Arrive(index) => index < |sent| && InWindow(index, r.delivered)
    case Take(size) => size <= |r.channel.buffer|
  }

  function Happen(sent: seq<bytes>, r: Reader, e: Event): Reader
    requires Possible(sent, r, e)
  {
    match e
    case Arrive(index) =>
      var next := Accept(r.channel, Wire(index), sent[index]);
      Reader(Advanced(r.delivered, next), r.consumed, next)
    case Take(size) =>
      r.(consumed := r.consumed + r.channel.buffer[..size],
         channel := r.channel.(buffer := r.channel.buffer[size..]))
  }

  /** `r` is what a fresh channel becomes after `events`, every one of them possible when it happened. */
  ghost predicate Reaches(sent: seq<bytes>, events: seq<Event>, r: Reader) {
    if events == [] then
      r == Reader(0, [], Channel(0, [], map[]))
    else
      var last := |events| - 1;
      exists before :: Reaches(sent, events[..last], before)
                    && Possible(sent, before, events[last]) && r == Happen(sent, before, events[last])
  }

  /** In every reachable state the consumed bytes followed by the buffered bytes are the first
      `delivered` chunks of what was sent, and the reorder buffer is as `Tracks` says. */
  lemma {:induction false} DeliveredIsPrefix(sent: seq<bytes>, events: seq<Event>, r: Reader)
    requires Reaches(sent, events, r)
    ensures Tracks(sent, r.delivered, r.consumed, r.channel)
    ensures r.consumed + r.channel.buffer <= Concat(sent)
    ensures r.channel.expected !in r.channel.reorder
  {
    if events == [] {
      assert sent[..0] == [];
    } else {
      var last := |events| - 1;
      var before :| Reaches(sent, events[..last], before)
                    && Possible(sent, before, events[last]) && r == Happen(sent, before, events[last]);
      DeliveredIsPrefix(sent, events[..last], before);
      match events[last]
      case Arrive(index) => AcceptTracks(sent, before.delivered, before.consumed, before.channel, index);
      case Take(size) => TakeTracks(sent, before.delivered, before.consumed, before.channel, size);
    }
    assert sent == sent[..r.delivered] + sent[r.delivered..];
    ConcatAppend(sent[..r.delivered], sent[r.delivered..]);
  }

  lemma TakeTracks(sent: seq<bytes>, delivered: nat, consumed: bytes, ch: Channel, size: nat)
    requires Tracks(sent, delivered, consumed, ch) && size <= |ch.buffer|
    ensures Tracks(sent, delivered, consumed + ch.buffer[..size], ch.(buffer := ch.buffer[size..]))
  {
    assert (consumed + ch.buffer[..size]) + ch.buffer[size..] == consumed + ch.buffer;
  }
}
