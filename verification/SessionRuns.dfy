/** The methods of the session object as steps of the two-party world: what `write` and `_pump` do to
    the fields is what the steps do to an endpoint, so the theorems about runs speak of the object. */
module SessionRuns {
  import opened Bytes
  import opened Sequencing
  import opened Endpoint
  import opened TwoParty
  import opened Cs2Session

  // ---- The sending loop of `write` ----

  /** The copy of chunk `i` of a payload whose first chunk has index `base`. */
  function ChunkCopy(x: Side, c: nat, base: nat, chunks: seq<bytes>, i: nat): Copy
    requires c < CHANNELS && i < |chunks| && forall d :: d in chunks ==> |d| <= CHUNK_BYTES
  {
    assert chunks[i] in chunks;
    Copy(Other(x), false, c, base + i, DataPacket(c, Wire(base + i), chunks[i]))
  }

  /** The first `k` chunks of the write were sent, and nothing else happened at this endpoint. */
  ghost predicate Sending(w: World, v: World, x: Side, c: nat, payload: bytes, clock: nat -> real, k: nat)
    requires WorldShaped(w) && c < CHANNELS && k <= |Chunks(payload)|
  {
    var s, t, all := At(w, x), At(v, x), Chunks(payload);
    && WorldShaped(v) && At(v, Other(x)) == At(w, Other(x))
    && t.ep == SendAll(s.ep, c, all, clock, k)
    && t.job == Writing(c, payload, all[k..])
    && t.base[c] == |s.sent[c]| && t.sent[c] == s.sent[c] + all[..k]
    && w.net <= v.net && forall i: nat | i < k :: ChunkCopy(x, c, |s.sent[c]|, all, i) in v.net
  }

  lemma SendingStarts(w: World, x: Side, c: nat, payload: bytes, clock: nat -> real)
    requires WorldShaped(w) && At(w, x).job.Idle? && c < CHANNELS
    ensures Enabled(w, Begin(x, c, payload)) && Sending(w, Step(w, Begin(x, c, payload)), x, c, payload, clock, 0)
  {
    var all := Chunks(payload);
    assert all[0..] == all && At(w, x).sent[c] + all[..0] == At(w, x).sent[c];
  }

  lemma Numbered(start: nat, i: nat)
    ensures (Wire(start) + i) % MODULUS == Wire(start + i)
  {
  }

  lemma SendingMore(w: World, v: World, x: Side, c: nat, payload: bytes, clock: nat -> real, k: nat)
    requires WorldShaped(w) && c < CHANNELS && k < |Chunks(payload)| && Sending(w, v, x, c, payload, clock, k)
    requires At(w, x).ep.outgoing[c] == Wire(|At(w, x).sent[c]|)
    ensures Enabled(v, Send(x, clock(k))) && Sending(w, Step(v, Send(x, clock(k))), x, c, payload, clock, k + 1)
  {
    hide Chunks, Put, DataPacket, ParseData;
    var s, all, u := At(w, x), Chunks(payload), DoSend(v, x, clock(k));
    SendEffect(v, x, clock(k));
    assert all[k..][0] == all[k] && all[k..][1..] == all[k + 1..] && all[k] in all;
    assert all[..k] + [all[k]] == all[..k + 1];
    assert s.sent[c] + all[..k] + [all[k]] == s.sent[c] + (all[..k] + [all[k]]);
    Numbered(|s.sent[c]|, k);
    assert ChunkCopy(x, c, |s.sent[c]|, all, k) in u.net;
  }

  /** The sending loop of `write` on the object is a begin and one send for each chunk. */
  lemma {:induction false} WriteIsSteps(w: World, x: Side, c: nat, payload: bytes, clock: nat -> real, k: nat)
    returns (labels: seq<Label>, v: World)
    requires WorldShaped(w) && At(w, x).job.Idle? && c < CHANNELS && k <= |Chunks(payload)|
    requires At(w, x).ep.outgoing[c] == Wire(|At(w, x).sent[c]|)
    ensures Becomes(w, labels, v) && Sending(w, v, x, c, payload, clock, k)
    decreases k
  {
    hide Sending, Step, Enabled, Chunks;
    if k == 0 {
      SendingStarts(w, x, c, payload, clock);
      labels, v := Longer(w, [], w, Begin(x, c, payload));
    } else {
      labels, v := WriteIsSteps(w, x, c, payload, clock, k - 1);
      SendingShape(w, v, x, c, payload, clock, k - 1);
      SendingMore(w, v, x, c, payload, clock, k - 1);
      labels, v := Longer(w, labels, v, Send(x, clock(k - 1)));
    }
  }

  lemma SendingShape(w: World, v: World, x: Side, c: nat, payload: bytes, clock: nat -> real, k: nat)
    requires WorldShaped(w) && c < CHANNELS && k <= |Chunks(payload)| && Sending(w, v, x, c, payload, clock, k)
    ensures WorldShaped(v)
  {
  }

  lemma Longer(w: World, labels: seq<Label>, v: World, l: Label) returns (more: seq<Label>, u: World)
    requires Becomes(w, labels, v) && WorldShaped(v) && Enabled(v, l)
    ensures more == labels + [l] && u == Step(v, l) && Becomes(w, more, u)
  {
    more, u := labels + [l], Step(v, l);
    assert more[..|more| - 1] == labels;
  }

  // ---- One turn of a waiting loop ----

  /** A pump in which a packet of the peer arrives is a retransmission pass and a delivery; when the
      pass gives up the packet is not looked at. */
  lemma PumpIsSteps(w: World, x: Side, s: State, tick: Tick, copy: Copy, keep: bool)
    requires WorldShaped(w) && Plain(w) && (At(w, x).job.Writing? ==> At(w, x).job.todo == [])
    requires s.ep == At(w, x).ep && s.peer.Some? && copy in w.net && copy.to == x
    requires tick.arrival.Some? && tick.arrival.value.packet == copy.packet && FromPeer(s.peer, tick.arrival.value.address)
    ensures Enabled(w, Repeat(x, tick.now))
    ensures var v := Step(w, Repeat(x, tick.now));
            var (ep, outcome) := PumpEndpoint(s, tick);
            && WorldShaped(v) && Plain(v)
            && (if outcome == Returned then
                  && Enabled(v, Deliver(copy, keep)) && At(Step(v, Deliver(copy, keep)), x).ep == ep
                  && At(Step(v, Deliver(copy, keep)), x).job == At(w, x).job
                else outcome == GaveUp && At(v, x) == Fail(At(w, x).(ep := ep)))
  {
    StepPlain(w, Repeat(x, tick.now));
    PlainKinds(copy);
  }

  lemma PlainKinds(copy: Copy)
    requires if copy.ack then IsAckFor(copy.packet, copy.channel) else IsDataFor(copy.packet, copy.channel)
    ensures Kind(copy.packet) != [0xF1, 0xF0]
  {
    assert Kind(copy.packet)[1] == if copy.ack then 0xD1 else 0xD0;
  }

  /** A pump in which nothing of the peer arrives is a retransmission pass. */
  lemma QuietPumpIsStep(w: World, x: Side, s: State, tick: Tick)
    requires WorldShaped(w) && Plain(w) && (At(w, x).job.Writing? ==> At(w, x).job.todo == [])
    requires s.ep == At(w, x).ep && s.peer.Some?
    requires tick.arrival.Some? ==> !FromPeer(s.peer, tick.arrival.value.address)
    ensures Enabled(w, Repeat(x, tick.now))
    ensures var v := Step(w, Repeat(x, tick.now));
            var (ep, outcome) := PumpEndpoint(s, tick);
            && At(v, x).ep == ep
            && At(v, x) == if outcome == Returned then At(w, x).(ep := ep) else Fail(At(w, x).(ep := ep))
  {
  }

  // ---- The end of `write` ----

  /** The condition of the waiting loop of `write` is the one under which the world lets it return. */
  lemma ReturnTest(n: Node, c: nat, payload: bytes)
    requires NodeShaped(n) && c < CHANNELS && n.job == Writing(c, payload, [])
    requires n.base[c] + |Chunks(payload)| == |n.sent[c]|
    ensures MayReturn(n) <==> !Unacknowledged(n.ep.pending, c, Sequences(Wire(n.base[c]), |Chunks(payload)|))
  {
    hide Chunks;
    var start, count := n.base[c], |Chunks(payload)|;
    forall k: nat | k < count
      ensures Sequences(Wire(start), count)[k] == Wire(start + k)
    {
      Numbered(start, k);
    }
    if !MayReturn(n) {
      var i: nat :| start <= i < |n.sent[c]| && Awaits(n.ep.pending, c, Wire(i));
      assert Sequences(Wire(start), count)[i - start] == Wire(i);
      assert Wire(i) in Sequences(Wire(start), count);
    }
    if Unacknowledged(n.ep.pending, c, Sequences(Wire(start), count)) {
      var e :| e in n.ep.pending && e.channel == c && e.sequence in Sequences(Wire(start), count);
      var k: nat :| k < count && Sequences(Wire(start), count)[k] == e.sequence;
      assert Awaits(n.ep.pending, c, Wire(start + k));
    }
  }

  /** When the object's `write` returns normally, that is when none of its numbers is pending, the
      peer has everything, in every run within the limits of the stream. */
  lemma ObjectReturnDelivers(f: Focus, labels: seq<Label>, w: World, payload: bytes)
    requires f.c < CHANNELS && f.limit <= REORDER_LIMIT + 1 && f.age <= HALF && Reached(f, labels, w) && WorldShaped(w)
    requires At(w, f.x).job == Writing(f.c, payload, [])
    requires !Unacknowledged(At(w, f.x).ep.pending, f.c, Sequences(Wire(At(w, f.x).base[f.c]), |Chunks(payload)|))
    ensures var s, r := At(w, f.x), At(w, Other(f.x));
            && s.base[f.c] <= |s.sent[f.c]|
            && r.consumed[f.c] + r.ep.channels[f.c].buffer == Concat(s.sent[f.c][..s.base[f.c]]) + payload
  {
    ReachedInv(f, labels, w);
    var s := At(w, f.x);
    assert s.sent[f.c][s.base[f.c]..] + [] == s.sent[f.c][s.base[f.c]..];
    ReturnTest(s, f.c, payload);
    ReturnMeansDelivered(f, labels, w);
  }
}
