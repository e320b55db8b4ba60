/** Two endpoints that send whatever they like: writes of any size, also after writes that failed.
    What a channel delivers is still a prefix of what was sent on it. */
module AnyWrites {
  import opened Bytes
  import opened Sequencing
  import opened Endpoint
  import opened TwoParty

  /** An endpoint with its bookkeeping, one item a channel: all chunks ever sent, the number of
      chunks delivered here, the bytes consumed here. */
  datatype Party = Party(ep: Endpoint, sent: seq<seq<bytes>>, delivered: seq<nat>, consumed: seq<bytes>)

  datatype Flight = Flight(to: Side, packet: bytes)

  datatype Net = Net(near: Party, far: Party, flying: set<Flight>)

  function Of(w: Net, x: Side): Party {
    if x == Near then w.near else w.far
  }

  function Set(w: Net, x: Side, p: Party): Net {
    if x == Near then w.(near := p) else w.(far := p)
  }

  const OPENING := Party(INITIAL, Eight([]), Eight(0), Eight([]))

  ghost predicate PartyShaped(p: Party) {
    Shaped(p.ep) && |p.sent| == |p.delivered| == |p.consumed| == CHANNELS
  }

  datatype Move =
    | Emit(x: Side, channel: nat, chunk: bytes, now: real)
    | Again(x: Side, now: real)
    | Arrive(y: Side, packet: bytes, channel: nat, index: nat, keep: bool)
    | Drop(flight: Flight)
    | Consume(x: Side, channel: nat, size: nat)

  /** The packet carries chunk `index` of a channel. */
  predicate Carries(p: Party, packet: bytes, channel: nat, index: nat) {
    channel < CHANNELS && channel < |p.sent| && index < |p.sent[channel]| && |p.sent[channel][index]| <= CHUNK_BYTES
    && packet == DataPacket(channel, Wire(index), p.sent[channel][index])
  }

  predicate IsData(packet: bytes) {
    Kind(packet) == [0xF1, 0xD0]
  }

  /** A data packet may arrive while the chunk it carries is within 2^15 of the expected one. */
  predicate Possible(w: Net, m: Move) {
    match m
    case Emit(x, channel, chunk, _) => channel < CHANNELS && |chunk| <= CHUNK_BYTES
    case Again(_, _) => true
    case Arrive(y, packet, channel, index, _) =>
      && Flight(y, packet) in w.flying && channel < CHANNELS
      && (IsData(packet) ==>
            Carries(Of(w, Other(y)), packet, channel, index) && channel < |Of(w, y).delivered|
            && InWindow(index, Of(w, y).delivered[channel]))
    case Drop(flight) => flight in w.flying
    case Consume(x, channel, size) =>
      channel < CHANNELS && channel < |Of(w, x).ep.channels| && size <= |Of(w, x).ep.channels[channel].buffer|
  }

  function DoEmit(w: Net, x: Side, channel: nat, chunk: bytes, now: real): Net
    requires PartyShaped(Of(w, x)) && channel < CHANNELS && |chunk| <= CHUNK_BYTES
  {
    var p := Of(w, x);
    var (ep, packet) := SendChunk(p.ep, channel, chunk, now);
    Set(w, x, p.(ep := ep, sent := p.sent[channel := p.sent[channel] + [chunk]]))
      .(flying := w.flying + {Flight(Other(x), packet)})
  }

  function DoAgain(w: Net, x: Side, now: real): Net {
    var p := Of(w, x);
    var pass := Resend(p.ep.pending, now);
    Set(w, x, p.(ep := p.ep.(pending := pass.pending)))
      .(flying := w.flying + set e | e in pass.resent :: Flight(Other(x), e.packet))
  }

  function DoArrive(w: Net, m: Move): Net
    requires m.Arrive? && PartyShaped(Of(w, m.y)) && m.channel < CHANNELS
  {
    var p := Of(w, m.y);
    var (ep, reply) := Receive(p.ep, m.packet);
    var flying := if m.keep then w.flying else w.flying - {Flight(m.y, m.packet)};
    var delivered := if IsData(m.packet) then p.delivered[m.channel := Advanced(p.delivered[m.channel], ep.channels[m.channel])]
                     else p.delivered;
    Set(w, m.y, p.(ep := ep, delivered := delivered))
      .(flying := if reply.None? then flying else flying + {Flight(Other(m.y), reply.value)})
  }

  function DoConsume(w: Net, x: Side, channel: nat, size: nat): Net
    requires PartyShaped(Of(w, x)) && channel < CHANNELS && size <= |Of(w, x).ep.channels[channel].buffer|
  {
    var p := Of(w, x);
    var (ep, data) := TakeBytes(p.ep, channel, size);
    Set(w, x, p.(ep := ep, consumed := p.consumed[channel := p.consumed[channel] + data]))
  }

  ghost predicate NetShaped(w: Net) {
    PartyShaped(w.near) && PartyShaped(w.far)
  }

  function Next(w: Net, m: Move): Net
    requires PartyShaped(w.near) && PartyShaped(w.far) && Possible(w, m)
  {
    match m
    case Emit(x, channel, chunk, now) => DoEmit(w, x, channel, chunk, now)
    case Again(x, now) => DoAgain(w, x, now)
    case Arrive(_, _, _, _, _) => DoArrive(w, m)
    case Drop(flight) => w.(flying := w.flying - {flight})
    case Consume(x, channel, size) => DoConsume(w, x, channel, size)
  }

  // ---- What every move keeps ----

  ghost predicate Flow(s: Party, r: Party, c: nat)
    requires PartyShaped(s) && PartyShaped(r) && c < CHANNELS
  {
    s.ep.outgoing[c] == Wire(|s.sent[c]|) && Tracks(s.sent[c], r.delivered[c], r.consumed[c], r.ep.channels[c])
  }

  ghost predicate Flows(w: Net)
    requires NetShaped(w)
  {
    forall x, c: nat | c < CHANNELS :: Flow(Of(w, x), Of(w, Other(x)), c)
  }

  /** The packet carries some chunk that was sent. */
  ghost predicate Genuine(p: Party, packet: bytes) {
    exists c: nat, i: nat :: Carries(p, packet, c, i)
  }

  /** Every pending packet and every data packet in flight is genuine. */
  ghost predicate AllGenuine(w: Net) {
    && (forall x, e | e in Of(w, x).ep.pending :: Genuine(Of(w, x), e.packet))
    && (forall f | f in w.flying && IsData(f.packet) :: Genuine(Of(w, Other(f.to)), f.packet))
  }

  /** A stream whose sender's log and whose receiver did not change. */
  lemma SameFlow(s: Party, r: Party, t: Party, u: Party, c: nat)
    requires PartyShaped(s) && PartyShaped(r) && PartyShaped(t) && PartyShaped(u) && c < CHANNELS && Flow(s, r, c)
    requires t.ep.outgoing[c] == s.ep.outgoing[c] && t.sent[c] == s.sent[c]
    requires u.delivered[c] == r.delivered[c] && u.consumed[c] == r.consumed[c] && u.ep.channels[c] == r.ep.channels[c]
    ensures Flow(t, u, c)
  {
  }

  lemma EmitFlow(s: Party, r: Party, c: nat, chunk: bytes, now: real)
    requires PartyShaped(s) && PartyShaped(r) && c < CHANNELS && |chunk| <= CHUNK_BYTES && Flow(s, r, c)
    ensures var t := s.(ep := SendChunk(s.ep, c, chunk, now).0, sent := s.sent[c := s.sent[c] + [chunk]]);
            PartyShaped(t) && Flow(t, r, c)
  {
    TracksAppend(s.sent[c], chunk, r.delivered[c], r.consumed[c], r.ep.channels[c]);
    WireStep(|s.sent[c]|);
  }

  lemma EmitKeeps(w: Net, x: Side, channel: nat, chunk: bytes, now: real)
    requires NetShaped(w) && Flows(w) && channel < CHANNELS && |chunk| <= CHUNK_BYTES
    ensures NetShaped(DoEmit(w, x, channel, chunk, now)) && Flows(DoEmit(w, x, channel, chunk, now))
  {
    var v := DoEmit(w, x, channel, chunk, now);
    EmitFlow(Of(w, x), Of(w, Other(x)), channel, chunk, now);
    forall z, c: nat | c < CHANNELS
      ensures Flow(Of(v, z), Of(v, Other(z)), c)
    {
      assert Flow(Of(w, z), Of(w, Other(z)), c);
      if !(z == x && c == channel) {
        SameFlow(Of(w, z), Of(w, Other(z)), Of(v, z), Of(v, Other(z)), c);
      }
    }
  }

  lemma AgainKeeps(w: Net, x: Side, now: real)
    requires NetShaped(w) && Flows(w)
    ensures NetShaped(DoAgain(w, x, now)) && Flows(DoAgain(w, x, now))
  {
    var v := DoAgain(w, x, now);
    forall z, c: nat | c < CHANNELS
      ensures Flow(Of(v, z), Of(v, Other(z)), c)
    {
      assert Flow(Of(w, z), Of(w, Other(z)), c);
      SameFlow(Of(w, z), Of(w, Other(z)), Of(v, z), Of(v, Other(z)), c);
    }
  }

  lemma ConsumeKeeps(w: Net, x: Side, channel: nat, size: nat)
    requires NetShaped(w) && Flows(w) && Possible(w, Consume(x, channel, size))
    ensures NetShaped(DoConsume(w, x, channel, size)) && Flows(DoConsume(w, x, channel, size))
  {
    var v, r := DoConsume(w, x, channel, size), Of(w, x);
    forall z, c: nat | c < CHANNELS
      ensures Flow(Of(v, z), Of(v, Other(z)), c)
    {
      var s := Of(w, z);
      assert Flow(s, Of(w, Other(z)), c);
      if Other(z) == x && c == channel {
        TakeTracks(s.sent[c], r.delivered[c], r.consumed[c], r.ep.channels[c], size);
      } else {
        SameFlow(s, Of(w, Other(z)), Of(v, z), Of(v, Other(z)), c);
      }
    }
  }

  lemma DataReceived(ep: Endpoint, c: nat, sequence: nat, chunk: bytes)
    requires Shaped(ep) && c < CHANNELS && sequence < MODULUS && |chunk| <= CHUNK_BYTES
    ensures IsData(DataPacket(c, sequence, chunk))
    ensures Receive(ep, DataPacket(c, sequence, chunk)).0
         == ep.(channels := ep.channels[c := Accept(ep.channels[c], sequence, chunk)])
  {
    ParseDataPacket(c, sequence, chunk);
    DataKind(DataPacket(c, sequence, chunk));
  }

  lemma DataKind(packet: bytes)
    requires |packet| >= 2 && packet[0] == 0xF1 && packet[1] == 0xD0
    ensures IsData(packet) && Kind(packet) != [0xF1, 0xD1]
  {
    assert Kind(packet)[1] == 0xD0;
  }

  /** What a data packet does to its receiver. */
  lemma DataArrives(s: Party, r: Party, packet: bytes, c: nat, index: nat)
    requires PartyShaped(s) && PartyShaped(r) && c < CHANNELS && Flow(s, r, c)
    requires Carries(s, packet, c, index) && InWindow(index, r.delivered[c])
    ensures IsData(packet)
    ensures var ep := Receive(r.ep, packet).0;
            && ep.outgoing == r.ep.outgoing && |ep.channels| == CHANNELS
            && (forall d | 0 <= d < CHANNELS && d != c :: ep.channels[d] == r.ep.channels[d])
            && Tracks(s.sent[c], Advanced(r.delivered[c], ep.channels[c]), r.consumed[c], ep.channels[c])
  {
    DataReceived(r.ep, c, Wire(index), s.sent[c][index]);
    AcceptTracks(s.sent[c], r.delivered[c], r.consumed[c], r.ep.channels[c], index);
  }

  lemma OtherArrives(ep: Endpoint, packet: bytes)
    requires Shaped(ep) && !IsData(packet)
    ensures Receive(ep, packet).0.outgoing == ep.outgoing && Receive(ep, packet).0.channels == ep.channels
  {
  }

  lemma ArriveKeeps(w: Net, m: Move)
    requires NetShaped(w) && Flows(w) && m.Arrive? && Possible(w, m)
    ensures NetShaped(DoArrive(w, m)) && Flows(DoArrive(w, m))
  {
    hide Tracks, Carries, Receive;
    var v, y, r := DoArrive(w, m), m.y, Of(w, m.y);
    assert Flow(Of(w, Other(y)), Of(w, Other(Other(y))), m.channel);
    if IsData(m.packet) {
      DataArrives(Of(w, Other(y)), r, m.packet, m.channel, m.index);
    } else {
      OtherArrives(r.ep, m.packet);
    }
    forall z, c: nat | c < CHANNELS
      ensures Flow(Of(v, z), Of(v, Other(z)), c)
    {
      assert Flow(Of(w, z), Of(w, Other(z)), c);
      if !(IsData(m.packet) && Other(z) == y && c == m.channel) {
        SameFlow(Of(w, z), Of(w, Other(z)), Of(v, z), Of(v, Other(z)), c);
      }
    }
  }

  lemma DropKeeps(w: Net, flight: Flight)
    requires NetShaped(w) && Flows(w)
    ensures NetShaped(w.(flying := w.flying - {flight})) && Flows(w.(flying := w.flying - {flight}))
  {
    var v := w.(flying := w.flying - {flight});
    forall z, c: nat | c < CHANNELS
      ensures Flow(Of(v, z), Of(v, Other(z)), c)
    {
      assert Flow(Of(w, z), Of(w, Other(z)), c);
    }
  }

  lemma NextKeeps(w: Net, m: Move)
    requires NetShaped(w) && Flows(w) && Possible(w, m)
    ensures NetShaped(Next(w, m)) && Flows(Next(w, m))
  {
    match m
    case Emit(x, channel, chunk, now) => EmitKeeps(w, x, channel, chunk, now);
    case Again(x, now) => AgainKeeps(w, x, now);
    case Arrive(_, _, _, _, _) => ArriveKeeps(w, m);
    case Drop(flight) => DropKeeps(w, flight);
    case Consume(x, channel, size) => ConsumeKeeps(w, x, channel, size);
  }

  /** The one stream end that a move may change. */
  predicate Touches(m: Move, z: Side, c: nat) {
    match m
    case Emit(x, channel, _, _) => z == x && c == channel
    case Again(_, _) => false
    case Arrive(y, packet, channel, _, _) => IsData(packet) && z == y && c == channel
    case Drop(_) => false
    case Consume(x, channel, _) => z == x && c == channel
  }

  /** The ends of all other streams stay as they were. */
  lemma OthersStay(w: Net, m: Move, z: Side, c: nat)
    requires NetShaped(w) && Flows(w) && Possible(w, m) && c < CHANNELS && !Touches(m, z, c)
    ensures NetShaped(Next(w, m))
    ensures var p, q := Of(w, z), Of(Next(w, m), z);
            && q.ep.outgoing[c] == p.ep.outgoing[c] && q.ep.channels[c] == p.ep.channels[c]
            && q.sent[c] == p.sent[c] && q.delivered[c] == p.delivered[c] && q.consumed[c] == p.consumed[c]
  {
    hide Tracks, Carries, Receive;
    NextKeeps(w, m);
    if m.Arrive? {
      var r := Of(w, m.y);
      assert Flow(Of(w, Other(m.y)), Of(w, Other(Other(m.y))), m.channel);
      if IsData(m.packet) {
        DataArrives(Of(w, Other(m.y)), r, m.packet, m.channel, m.index);
      } else {
        OtherArrives(r.ep, m.packet);
      }
    }
  }

  // ---- Nothing but sent chunks is ever in flight ----

  /** The log of an endpoint only grows. */
  ghost predicate Grows(p: Party, q: Party) {
    |p.sent| == |q.sent| && forall c | 0 <= c < |p.sent| :: p.sent[c] <= q.sent[c]
  }

  lemma StaysGenuine(p: Party, q: Party, packet: bytes)
    requires Grows(p, q) && Genuine(p, packet)
    ensures Genuine(q, packet)
  {
    var c: nat, i: nat :| Carries(p, packet, c, i);
    assert q.sent[c][i] == p.sent[c][i];
    assert Carries(q, packet, c, i);
  }

  lemma EmitGenuine(p: Party, channel: nat, chunk: bytes, now: real)
    requires PartyShaped(p) && channel < CHANNELS && |chunk| <= CHUNK_BYTES && p.ep.outgoing[channel] == Wire(|p.sent[channel]|)
    ensures var q := p.(ep := SendChunk(p.ep, channel, chunk, now).0, sent := p.sent[channel := p.sent[channel] + [chunk]]);
            Grows(p, q) && Genuine(q, SendChunk(p.ep, channel, chunk, now).1)
  {
    var q := p.(ep := SendChunk(p.ep, channel, chunk, now).0, sent := p.sent[channel := p.sent[channel] + [chunk]]);
    assert Carries(q, SendChunk(p.ep, channel, chunk, now).1, channel, |p.sent[channel]|);
  }

  lemma EmitAllGenuine(w: Net, x: Side, channel: nat, chunk: bytes, now: real)
    requires NetShaped(w) && Flows(w) && AllGenuine(w) && channel < CHANNELS && |chunk| <= CHUNK_BYTES
    ensures AllGenuine(DoEmit(w, x, channel, chunk, now))
  {
    var v, p := DoEmit(w, x, channel, chunk, now), Of(w, x);
    assert Flow(p, Of(w, Other(x)), channel);
    EmitGenuine(p, channel, chunk, now);
    var packet := SendChunk(p.ep, channel, chunk, now).1;
    PutMembers(p.ep.pending, Entry(channel, p.ep.outgoing[channel], packet, now, 1));
    forall z, e | e in Of(v, z).ep.pending
      ensures Genuine(Of(v, z), e.packet)
    {
      if e in Of(w, z).ep.pending {
        StaysGenuine(Of(w, z), Of(v, z), e.packet);
      }
    }
    forall f | f in v.flying && IsData(f.packet)
      ensures Genuine(Of(v, Other(f.to)), f.packet)
    {
      if f in w.flying {
        StaysGenuine(Of(w, Other(f.to)), Of(v, Other(f.to)), f.packet);
      }
    }
  }

  lemma AgainAllGenuine(w: Net, x: Side, now: real)
    requires NetShaped(w) && AllGenuine(w)
    ensures AllGenuine(DoAgain(w, x, now))
  {
    var v, p := DoAgain(w, x, now), Of(w, x);
    ResendInventsNothing(p.ep.pending, now);
    ResentWerePending(p.ep.pending, now);
    forall z, e | e in Of(v, z).ep.pending
      ensures Genuine(Of(v, z), e.packet)
    {
      if z == x {
        var o :| o in p.ep.pending && SameKey(o, e);
        StaysGenuine(p, Of(v, x), o.packet);
      } else {
        StaysGenuine(Of(w, z), Of(v, z), e.packet);
      }
    }
    forall f | f in v.flying && IsData(f.packet)
      ensures Genuine(Of(v, Other(f.to)), f.packet)
    {
      if f !in w.flying {
        var e :| e in Resend(p.ep.pending, now).resent && f == Flight(Other(x), e.packet);
        StaysGenuine(p, Of(v, x), e.packet);
      } else {
        StaysGenuine(Of(w, Other(f.to)), Of(v, Other(f.to)), f.packet);
      }
    }
  }

  /** A packet changes only the entries it acknowledges; its answer is no data packet. */
  lemma ReceivedPending(ep: Endpoint, packet: bytes)
    requires Shaped(ep)
    ensures var (after, reply) := Receive(ep, packet);
            && (forall e :: e in after.pending ==> e in ep.pending)
            && (reply.Some? ==> !IsData(reply.value))
  {
    if ParseAck(packet).Some? {
      DiscardMembers(ep.pending, ParseAck(packet).value.channel, ParseAck(packet).value.sequences);
    }
    if ParseData(packet).Some? {
      var ack := AckPacket(ParseData(packet).value.channel, ParseData(packet).value.sequence);
      assert ack[..2][1] == 0xD1;
      assert [0xF1, 0xD0][1] == 0xD0;
    }
  }

  lemma ArriveAllGenuine(w: Net, m: Move)
    requires NetShaped(w) && AllGenuine(w) && m.Arrive? && Possible(w, m)
    ensures AllGenuine(DoArrive(w, m))
  {
    var v := DoArrive(w, m);
    ReceivedPending(Of(w, m.y).ep, m.packet);
    forall z, e | e in Of(v, z).ep.pending
      ensures Genuine(Of(v, z), e.packet)
    {
      StaysGenuine(Of(w, z), Of(v, z), e.packet);
    }
    forall f | f in v.flying && IsData(f.packet)
      ensures Genuine(Of(v, Other(f.to)), f.packet)
    {
      StaysGenuine(Of(w, Other(f.to)), Of(v, Other(f.to)), f.packet);
    }
  }

  lemma ConsumeAllGenuine(w: Net, x: Side, channel: nat, size: nat)
    requires NetShaped(w) && AllGenuine(w) && Possible(w, Consume(x, channel, size))
    ensures AllGenuine(DoConsume(w, x, channel, size))
  {
    var v := DoConsume(w, x, channel, size);
    forall z, e | e in Of(v, z).ep.pending
      ensures Genuine(Of(v, z), e.packet)
    {
      StaysGenuine(Of(w, z), Of(v, z), e.packet);
    }
    forall f | f in v.flying && IsData(f.packet)
      ensures Genuine(Of(v, Other(f.to)), f.packet)
    {
      StaysGenuine(Of(w, Other(f.to)), Of(v, Other(f.to)), f.packet);
    }
  }

  lemma DropAllGenuine(w: Net, flight: Flight)
    requires AllGenuine(w)
    ensures AllGenuine(w.(flying := w.flying - {flight}))
  {
    var v := w.(flying := w.flying - {flight});
    assert forall z :: Of(v, z) == Of(w, z);
  }

  lemma NextGenuine(w: Net, m: Move)
    requires NetShaped(w) && Flows(w) && AllGenuine(w) && Possible(w, m)
    ensures AllGenuine(Next(w, m))
  {
    match m
    case Emit(x, channel, chunk, now) => EmitAllGenuine(w, x, channel, chunk, now);
    case Again(x, now) => AgainAllGenuine(w, x, now);
    case Arrive(_, _, _, _, _) => ArriveAllGenuine(w, m);
    case Drop(flight) => DropAllGenuine(w, flight);
    case Consume(x, channel, size) => ConsumeAllGenuine(w, x, channel, size);
  }

  // ---- Runs ----

  /** `w` is what two fresh endpoints become after some moves. */
  ghost predicate Comes(moves: seq<Move>, w: Net)
    decreases |moves|
  {
    if moves == [] then w == Net(OPENING, OPENING, {})
    else
      var last := |moves| - 1;
      exists v :: Comes(moves[..last], v) && NetShaped(v) && Possible(v, moves[last]) && w == Next(v, moves[last])
  }

  lemma OpeningFlows()
    ensures NetShaped(Net(OPENING, OPENING, {})) && Flows(Net(OPENING, OPENING, {})) && AllGenuine(Net(OPENING, OPENING, {}))
  {
    var w := Net(OPENING, OPENING, {});
    forall x, c: nat | c < CHANNELS
      ensures Flow(Of(w, x), Of(w, Other(x)), c)
    {
      var empty: seq<bytes> := [];
      assert empty[..0] == [];
      assert Tracks(empty, 0, [], Channel(0, [], map[]));
    }
  }

  lemma {:induction false} ComesFlows(moves: seq<Move>, w: Net)
    requires Comes(moves, w)
    ensures NetShaped(w) && Flows(w) && AllGenuine(w)
    decreases |moves|
  {
    if moves == [] {
      OpeningFlows();
    } else {
      var last := |moves| - 1;
      var v :| Comes(moves[..last], v) && NetShaped(v) && Possible(v, moves[last]) && w == Next(v, moves[last]);
      ComesFlows(moves[..last], v);
      NextKeeps(v, moves[last]);
      NextGenuine(v, moves[last]);
    }
  }

  /** In every run, of writes of any size and also after failed ones, what the peer consumed and
      buffered on a channel is a prefix of what was sent on it, its reorder buffer holds at most 64
      chunks, all of them right, and every data packet in flight is one that was sent. */
  lemma AnyRunIsPrefix(moves: seq<Move>, w: Net, x: Side, c: nat)
    requires Comes(moves, w) && c < CHANNELS
    ensures NetShaped(w)
    ensures var s, r := Of(w, x), Of(w, Other(x));
            && r.consumed[c] + r.ep.channels[c].buffer <= Concat(s.sent[c])
            && |r.ep.channels[c].reorder| <= REORDER_LIMIT
            && r.ep.channels[c].expected !in r.ep.channels[c].reorder
            && forall key :: key in r.ep.channels[c].reorder ==> 0 < Distance(key, r.ep.channels[c].expected) < HALF
    ensures forall f :: f in w.flying && IsData(f.packet) ==> Genuine(Of(w, Other(f.to)), f.packet)
  {
    hide Carries, Genuine;
    ComesFlows(moves, w);
    var s, r := Of(w, x), Of(w, Other(x));
    assert Flow(s, r, c);
    var sent, d, ch := s.sent[c], r.delivered[c], r.ep.channels[c];
    assert sent == sent[..d] + sent[d..];
    ConcatAppend(sent[..d], sent[d..]);
    assert ch.expected in ch.reorder ==> Distance(ch.expected, ch.expected) == 0;
  }
}
