/** What becomes of the channel after a write of 66 chunks or more has failed in silence: no byte is
    delivered on it any more, whatever is written, until sequence number 65 is used again. */
module Stall {
  import opened Bytes
  import opened Sequencing
  import opened Endpoint
  import opened TwoParty
  import opened Exchange
  import opened TightBound

  /** A data packet with the number that the receiver is waiting for. */
  predicate HasMissing(packet: bytes) {
    ParseData(packet).Some? && ParseData(packet).value.sequence == STUCK
  }

  /** The receiver waits for number 65 on channel 0, and nothing with that number will come. */
  ghost predicate Stalled(w: World) {
    && WorldShaped(w) && Plain(w) && Stuck(w.far.ep.channels[0])
    && w.near.ep.outgoing[0] == Wire(|w.near.sent[0]|) && STUCK < |w.near.sent[0]|
    && (forall e | e in w.near.ep.pending && e.channel == 0 :: !HasMissing(e.packet))
    && (forall m | m in w.net && m.to == Far && !m.ack && m.channel == 0 :: !HasMissing(m.packet))
  }

  lemma SendStalled(w: World, x: Side, now: real)
    requires Stalled(w) && Enabled(w, Send(x, now)) && WorldShaped(DoSend(w, x, now)) && Plain(DoSend(w, x, now))
    requires |DoSend(w, x, now).near.sent[0]| <= STUCK + MODULUS
    ensures Stalled(DoSend(w, x, now)) && Got(DoSend(w, x, now)) == Got(w)
  {
    hide Plain;
    SendEffect(w, x, now);
    var v := DoSend(w, x, now);
    var entry :| Sends(w, v, x, entry);
    PutMembers(At(w, x).ep.pending, entry);
    ParseDataPacket(entry.channel, entry.sequence, At(w, x).job.todo[0]);
    WireStep(|w.near.sent[0]|);
    if x == Near && entry.channel == 0 {
      NotStuck(|w.near.sent[0]|);
    }
  }

  lemma RepeatStalled(w: World, x: Side, now: real)
    requires Stalled(w) && WorldShaped(DoRepeat(w, x, now)) && Plain(DoRepeat(w, x, now))
    ensures Stalled(DoRepeat(w, x, now)) && Got(DoRepeat(w, x, now)) == Got(w)
  {
    ResentWerePending(At(w, x).ep.pending, now);
    ResendInventsNothing(At(w, x).ep.pending, now);
  }

  lemma DeliverStalled(w: World, copy: Copy, keep: bool)
    requires Stalled(w) && copy in w.net && WorldShaped(DoDeliver(w, copy, keep)) && Plain(DoDeliver(w, copy, keep))
    ensures Stalled(DoDeliver(w, copy, keep)) && Got(DoDeliver(w, copy, keep)) == Got(w)
  {
    var n := At(w, copy.to);
    if copy.ack {
      ReceiveAck(n.ep, copy.packet, copy.channel);
      DiscardMembers(n.ep.pending, copy.channel, ParseAck(copy.packet).value.sequences);
    } else {
      ReceiveData(n.ep, copy.packet, copy.channel);
      var data := ParseData(copy.packet).value;
      if copy.to == Far && copy.channel == 0 {
        AcceptStuck(n.ep.channels[0], data.sequence, data.chunk);
      }
    }
  }

  lemma ReadStalled(w: World, x: Side, channel: nat, size: nat)
    requires Stalled(w) && Enabled(w, Read(x, channel, size)) && Plain(DoRead(w, x, channel, size))
    ensures Stalled(DoRead(w, x, channel, size)) && Got(DoRead(w, x, channel, size)) == Got(w)
  {
    hide Plain;
    var ch := At(w, x).ep.channels[channel];
    assert ch.buffer[..size] + ch.buffer[size..] == ch.buffer;
  }

  /** Every step of any kind leaves the receiver where it is, new writes on the channel included. */
  lemma StalledStep(w: World, l: Label)
    requires Stalled(w) && Enabled(w, l) && |Step(w, l).near.sent| == CHANNELS
    requires |Step(w, l).near.sent[0]| <= STUCK + MODULUS
    ensures Stalled(Step(w, l)) && Got(Step(w, l)) == Got(w)
  {
    StepPlain(w, l);
    match l
    case Begin(_, _, _) =>
    case Send(x, now) => SendStalled(w, x, now);
    case Repeat(x, now) => RepeatStalled(w, x, now);
    case Deliver(copy, keep) => DeliverStalled(w, copy, keep);
    case Lose(_) =>
    case Read(x, channel, size) => ReadStalled(w, x, channel, size);
    case Return(_) =>
    case TimeOut(_) =>
  }

  lemma SentGrows(w: World, l: Label)
    requires WorldShaped(w) && Enabled(w, l) && WorldShaped(Step(w, l))
    ensures |w.near.sent[0]| <= |Step(w, l).near.sent[0]|
  {
  }

  /** In every run from there, of writes of any size, the receiver gets nothing more on the channel
      before chunk 65 + 2^16 has been sent. */
  lemma {:induction false} StalledForGood(w: World, labels: seq<Label>, v: World)
    requires Stalled(w) && Becomes(w, labels, v) && WorldShaped(v) && |v.near.sent[0]| <= STUCK + MODULUS
    ensures Stalled(v) && Got(v) == Got(w)
    decreases |labels|
  {
    hide Stalled, Got, Step, Enabled;
    if labels != [] {
      var last := |labels| - 1;
      var before :| Becomes(w, labels[..last], before) && WorldShaped(before) && Enabled(before, labels[last]) && v == Step(before, labels[last]);
      SentGrows(before, labels[last]);
      StalledForGood(w, labels[..last], before);
      StalledStep(before, labels[last]);
    }
  }

  /** The channel is stalled after each of the runs of `LongWriteCanFail` with at most 2^16 + 65 chunks. */
  lemma FailedWriteStalls(f: Focus, payload: bytes) returns (labels: seq<Label>, w: World)
    requires STUCK < |Chunks(payload)| <= STUCK + MODULUS && Wide(f, Chunks(payload))
    ensures Reached(f, labels, w) && Stalled(w) && MayReturn(w.near) && w.near.job == Writing(0, payload, [])
    ensures Got(w) == Concat(Chunks(payload)[..STUCK])
  {
    hide Chunks, Concat, MayReturn, Got;
    labels, w := LongWriteCanFail(f, payload);
    ReachedPlain(f, labels, w);
  }

  lemma {:induction false} DrainGrows(ch: Channel)
    ensures ch.buffer <= Drain(ch).buffer
    decreases |ch.reorder|
  {
    if ch.expected in ch.reorder {
      DrainGrows(DrainOne(ch));
    }
  }

  /** A stuck channel takes a packet in if and only if it has number 65. */
  lemma StuckUntil(ch: Channel, sequence: nat, chunk: bytes)
    requires Stuck(ch) && chunk != []
    ensures Accept(ch, sequence, chunk).buffer == ch.buffer <==> sequence != STUCK
  {
    if sequence == STUCK {
      DrainGrows(Channel((sequence + 1) % MODULUS, ch.buffer + chunk, ch.reorder));
    } else {
      AcceptStuck(ch, sequence, chunk);
    }
  }

  lemma LinkMore(all: seq<bytes>, w: World, v: World, next: bytes)
    requires Link(all, w, |all|, {}, {}) && |next| <= CHUNK_BYTES && w.near.ep.pending == [] && 0 !in w.near.failed
    requires v == With(w, Near, w.near.(job := Idle))
    ensures Rest(all + [next], v, |all|, {})
  {
    assert (all + [next])[..|all|] == all[..|all|];
  }

  lemma GotBuffered(all: seq<bytes>, w: World, k: nat)
    requires Link(all, w, k, {}, {})
    ensures Got(w) == w.far.ep.channels[0].buffer
  {
    assert [] + w.far.ep.channels[0].buffer == w.far.ep.channels[0].buffer;
  }

  lemma StuckIgnores(all: seq<bytes>, ch: Channel, next: bytes)
    requires Stuck(ch) && STUCK < |all| < STUCK + MODULUS
    ensures Accept(ch, Wire(|all|), next).buffer == ch.buffer
  {
    NotStuck(|all|);
    AcceptStuck(ch, Wire(|all|), next);
  }

  /** A later write may return normally although nothing of it is delivered. */
  lemma LaterWriteReturns(f: Focus, payload: bytes, next: bytes) returns (labels: seq<Label>, w: World)
    requires STUCK < |Chunks(payload)| < STUCK + MODULUS && Wide(f, Chunks(payload)) && 0 < |next| <= CHUNK_BYTES
    ensures Reached(f, labels, w) && WorldShaped(w) && MayReturn(w.near) && w.near.job == Writing(0, next, [])
    ensures Got(w) == Concat(Chunks(payload)[..STUCK])
  {
    hide Chunks, Concat, Reached, Link, Got, Accept, InFlight;
    var all := Chunks(payload);
    labels, w := LongWriteCanFail(f, payload);
    GotBuffered(all, w, |all|);
    var v := With(w, Near, w.near.(job := Idle));
    LinkMore(all, w, v, next);
    YoungIsFresh(f, all + [next], v, |all|, {}, {});
    Extend(f, labels, w, Return(Near));
    labels := labels + [Return(Near)];
    StuckIgnores(all, v.far.ep.channels[0], next);
    labels, w := WriteOne(f, all + [next], labels, v, |all|, {}, false);
    EndingReturns(all + [next], w, |all| + 1, {});
    GotBuffered(all + [next], w, |all| + 1);
  }
}
