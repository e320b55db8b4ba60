/** Single moves of one stream of the two-party world, from which the runs of `TightBound`, `Stall`,
    `OldCopy` and `AfterFailure` are built: chunks of channel 0 go from the near endpoint to the far one. */
module Exchange {
  import opened Bytes
  import opened Sequencing
  import opened Endpoint
  import opened TwoParty

  ghost predicate Sendable(all: seq<bytes>) {
    forall i: nat | i < |all| :: |all[i]| <= CHUNK_BYTES
  }

  ghost function DataCopy(all: seq<bytes>, i: nat): Copy {
    Copy(Far, false, 0, i, if i < |all| && |all[i]| <= CHUNK_BYTES then DataPacket(0, Wire(i), all[i]) else [])
  }

  function AckCopy(i: nat): Copy {
    Copy(Near, true, 0, i, AckPacket(0, Wire(i)))
  }

  function Plus(s: set<nat>, i: nat): set<nat> {
    s + {i}
  }

  /** In flight are exactly the data copies `data` and the acknowledgements `acks`. */
  ghost predicate InFlight(all: seq<bytes>, net: set<Copy>, data: set<nat>, acks: set<nat>) {
    && (forall i | i in data :: DataCopy(all, i) in net)
    && (forall i | i in acks :: AckCopy(i) in net)
    && (forall m | m in net ::
          if m.ack then m.index in acks && m == AckCopy(m.index) else m.index in data && m == DataCopy(all, m.index))
  }

  /** The first `k` chunks were sent on channel 0, and nothing else is going on in the world. */
  ghost predicate Link(all: seq<bytes>, w: World, k: nat, data: set<nat>, acks: set<nat>) {
    && k <= |all| && Sendable(all) && WorldShaped(w)
    && w.near.sent[0] == all[..k] && w.near.ep.outgoing[0] == Wire(k)
    && (forall e | e in w.near.ep.pending :: e.channel == 0)
    && w.far.job.Idle? && w.far.ep.pending == [] && w.far.consumed[0] == []
    && (forall i | i in data :: i < k) && (forall i | i in acks :: i < k)
    && InFlight(all, w.net, data, acks)
  }

  /** The copies in flight are young enough for the stream in focus. */
  ghost predicate Young(f: Focus, k: nat, data: set<nat>, acks: set<nat>) {
    f.x == Near && f.c == 0 && (forall i | i in data :: k <= i + f.age) && (forall i | i in acks :: k <= i + MODULUS)
  }

  lemma YoungIsFresh(f: Focus, all: seq<bytes>, w: World, k: nat, data: set<nat>, acks: set<nat>)
    requires Link(all, w, k, data, acks) && Young(f, k, data, acks)
    ensures NoStaleCopies(f, w)
  {
  }

  lemma Extend(f: Focus, labels: seq<Label>, w: World, l: Label)
    requires f.c < CHANNELS && Reached(f, labels, w) && WorldShaped(w) && Enabled(w, l) && Allowed(f, w, l)
    requires WorldShaped(Step(w, l)) && NoStaleCopies(f, Step(w, l))
    ensures Reached(f, labels + [l], Step(w, l))
  {
    assert (labels + [l])[..|labels|] == labels;
    assert Leads(f, w, l, Step(w, l));
  }

  // ---- A chunk leaves ----

  lemma NextOf(all: seq<bytes>, k: nat)
    requires k < |all|
    ensures all[..k] + [all[k]] == all[..k + 1] && all[k..][1..] == all[k + 1..] && all[k..][0] == all[k]
  {
  }

  lemma EmitLink(all: seq<bytes>, w: World, v: World, k: nat, data: set<nat>, acks: set<nat>, entry: Entry)
    requires Link(all, w, k, data, acks) && k < |all| && WorldShaped(v) && Sends(w, v, Near, entry)
    requires w.near.job.channel == 0 && w.near.job.todo[0] == all[k]
    ensures Link(all, v, k + 1, Plus(data, k), acks) && entry.sequence == Wire(k)
  {
    NextOf(all, k);
    WireStep(k);
    PutMembers(w.near.ep.pending, entry);
    assert v.net == w.net + {DataCopy(all, k)};
  }

  /** The next chunk of the write is sent. */
  lemma Emit(f: Focus, all: seq<bytes>, labels: seq<Label>, w: World, k: nat, data: set<nat>, acks: set<nat>) returns (v: World, entry: Entry)
    requires Reached(f, labels, w) && Link(all, w, k, data, acks) && k < |all|
    requires w.near.job.Writing? && w.near.job.channel == 0 && w.near.job.todo != [] && w.near.job.todo[0] == all[k]
    requires Young(f, k + 1, Plus(data, k), acks)
    ensures Reached(f, labels + [Send(Near, 0.0)], v) && Link(all, v, k + 1, Plus(data, k), acks)
    ensures v.near.job == w.near.job.(todo := w.near.job.todo[1..]) && v.near.base == w.near.base && v.far == w.far
    ensures v.near.failed == w.near.failed && v.near.ep.pending == Put(w.near.ep.pending, entry) && entry.channel == 0 && entry.sequence == Wire(k)
  {
    v := DoSend(w, Near, 0.0);
    SendEffect(w, Near, 0.0);
    entry :| Sends(w, v, Near, entry);
    EmitLink(all, w, v, k, data, acks, entry);
    YoungIsFresh(f, all, v, k + 1, Plus(data, k), acks);
    Extend(f, labels, w, Send(Near, 0.0));
  }

  // ---- A chunk arrives ----

  lemma ReceivesLink(all: seq<bytes>, w: World, v: World, k: nat, data: set<nat>, acks: set<nat>, i: nat, keep: bool)
    requires Link(all, w, k, data, acks) && i in data && WorldShaped(v) && Stores(w, v, DataCopy(all, i))
    requires v.net == (if keep then w.net else w.net - {DataCopy(all, i)}) + {AckCopy(i)}
    ensures Link(all, v, k, if keep then data else data - {i}, Plus(acks, i))
  {
  }

  lemma CopyIsData(all: seq<bytes>, w: World, k: nat, data: set<nat>, acks: set<nat>, i: nat)
    requires Link(all, w, k, data, acks) && i in data
    ensures DataOk(w.near, DataCopy(all, i)) && w.near.sent[0][i] == all[i]
  {
  }

  /** A data copy arrives; the network may keep a copy of it. */
  lemma Receives(f: Focus, all: seq<bytes>, labels: seq<Label>, w: World, k: nat, data: set<nat>, acks: set<nat>, i: nat, keep: bool)
    returns (v: World)
    requires Reached(f, labels, w) && Link(all, w, k, data, acks) && i in data && i < |all|
    requires Young(f, k, data, Plus(acks, i))
    ensures Reached(f, labels + [Deliver(DataCopy(all, i), keep)], v)
    ensures Link(all, v, k, if keep then data else data - {i}, Plus(acks, i)) && v.near == w.near
    ensures v.far.ep.channels[0] == Accept(w.far.ep.channels[0], Wire(i), all[i])
    ensures v.far.delivered[0] == Advanced(w.far.delivered[0], v.far.ep.channels[0])
  {
    var copy := DataCopy(all, i);
    CopyIsData(all, w, k, data, acks, i);
    StoreEffect(w, copy, keep);
    v := DoDeliver(w, copy, keep);
    ReceivesLink(all, w, v, k, data, acks, i, keep);
    YoungIsFresh(f, all, v, k, if keep then data else data - {i}, Plus(acks, i));
    Extend(f, labels, w, Deliver(copy, keep));
  }

  // ---- An acknowledgement arrives or is lost ----

  lemma SettleLink(all: seq<bytes>, w: World, v: World, k: nat, data: set<nat>, acks: set<nat>, i: nat)
    requires Link(all, w, k, data, acks) && i in acks && WorldShaped(v) && Settles(w, v, AckCopy(i))
    requires v.net == w.net - {AckCopy(i)}
    ensures Link(all, v, k, data, acks - {i})
  {
    DiscardMembers(w.near.ep.pending, 0, [Wire(i)]);
  }

  lemma Settle(f: Focus, all: seq<bytes>, labels: seq<Label>, w: World, k: nat, data: set<nat>, acks: set<nat>, i: nat)
    returns (v: World)
    requires Reached(f, labels, w) && Link(all, w, k, data, acks) && i in acks && Young(f, k, data, acks)
    requires w.near.job.Writing? ==> w.near.job.todo == []
    ensures Reached(f, labels + [Deliver(AckCopy(i), false)], v) && Link(all, v, k, data, acks - {i})
    ensures v.near.job == w.near.job && v.near.base == w.near.base && v.near.failed == w.near.failed && v.far == w.far
    ensures v.near.ep.pending == Discard(w.near.ep.pending, 0, [Wire(i)])
  {
    SettleEffect(w, AckCopy(i), false);
    v := DoDeliver(w, AckCopy(i), false);
    SettleLink(all, w, v, k, data, acks, i);
    YoungIsFresh(f, all, v, k, data, acks - {i});
    Extend(f, labels, w, Deliver(AckCopy(i), false));
  }

  lemma LoseAck(f: Focus, all: seq<bytes>, labels: seq<Label>, w: World, k: nat, data: set<nat>, acks: set<nat>, i: nat)
    returns (v: World)
    requires Reached(f, labels, w) && Link(all, w, k, data, acks) && i in acks && Young(f, k, data, acks)
    ensures Reached(f, labels + [Lose(AckCopy(i))], v) && Link(all, v, k, data, acks - {i})
    ensures v.near == w.near && v.far == w.far
  {
    v := w.(net := w.net - {AckCopy(i)});
    YoungIsFresh(f, all, v, k, data, acks - {i});
    Extend(f, labels, w, Lose(AckCopy(i)));
  }

  // ---- A write of one chunk, from beginning to end ----

  /** No write is under way and nothing is pending. */
  ghost predicate Rest(all: seq<bytes>, w: World, k: nat, data: set<nat>) {
    Link(all, w, k, data, {}) && w.near.job == Idle && w.near.ep.pending == [] && 0 !in w.near.failed
  }

  /** The write of the chunk before `k` has nothing left to wait for. */
  ghost predicate Ending(all: seq<bytes>, w: World, k: nat, data: set<nat>) {
    && Link(all, w, k, data, {}) && w.near.ep.pending == [] && 0 !in w.near.failed
    && 0 < k && w.near.job == Writing(0, all[k - 1], []) && w.near.base[0] == k - 1
  }

  lemma EndingReturns(all: seq<bytes>, w: World, k: nat, data: set<nat>)
    requires Ending(all, w, k, data)
    ensures WorldShaped(w) && MayReturn(w.near)
  {
  }

  lemma OneChunk(chunk: bytes)
    requires 0 < |chunk| <= CHUNK_BYTES
    ensures Chunks(chunk) == [chunk]
  {
  }

  lemma StartOne(f: Focus, all: seq<bytes>, labels: seq<Label>, w: World, k: nat, data: set<nat>) returns (v: World)
    requires Reached(f, labels, w) && Rest(all, w, k, data) && k < |all| && all[k] != [] && f.limit >= 1 && Young(f, k, data, {})
    ensures Reached(f, labels + [Begin(Near, 0, all[k])], v) && Link(all, v, k, data, {}) && v.far == w.far
    ensures v.near.job == Writing(0, all[k], [all[k]]) && v.near.base[0] == k && v.near.ep.pending == [] && 0 !in v.near.failed
  {
    v := DoBegin(w, Near, 0, all[k]);
    OneChunk(all[k]);
    YoungIsFresh(f, all, v, k, data, {});
    Extend(f, labels, w, Begin(Near, 0, all[k]));
  }

  lemma OnlyPending(entry: Entry, sequence: nat)
    requires entry.channel == 0 && entry.sequence == sequence
    ensures Discard(Put([], entry), 0, [sequence]) == []
  {
  }

  /** Begin, send, deliver, acknowledge: the far channel takes the chunk and the write may return. */
  lemma WriteOne(f: Focus, all: seq<bytes>, labels: seq<Label>, w: World, k: nat, data: set<nat>, keep: bool)
    returns (more: seq<Label>, v: World)
    requires Reached(f, labels, w) && Rest(all, w, k, data) && k < |all| && all[k] != [] && f.limit >= 1
    requires Young(f, k + 1, Plus(data, k), {k})
    ensures Reached(f, more, v) && Ending(all, v, k + 1, if keep then Plus(data, k) else data)
    ensures v.far.ep.channels[0] == Accept(w.far.ep.channels[0], Wire(k), all[k])
  {
    hide Reached, InFlight, WorldShaped;
    v := StartOne(f, all, labels, w, k, data);
    var entry;
    v, entry := Emit(f, all, labels + [Begin(Near, 0, all[k])], v, k, data, {});
    more := labels + [Begin(Near, 0, all[k])] + [Send(Near, 0.0)];
    v := Receives(f, all, more, v, k + 1, Plus(data, k), {}, k, keep);
    more := more + [Deliver(DataCopy(all, k), keep)];
    v := Settle(f, all, more, v, k + 1, if keep then Plus(data, k) else Plus(data, k) - {k}, Plus({}, k), k);
    more := more + [Deliver(AckCopy(k), false)];
    OnlyPending(entry, Wire(k));
    assert Plus({}, k) - {k} == {};
    assert Plus(data, k) - {k} == data;
  }

  lemma Finish(f: Focus, all: seq<bytes>, labels: seq<Label>, w: World, k: nat, data: set<nat>) returns (v: World)
    requires Reached(f, labels, w) && Ending(all, w, k, data) && Young(f, k, data, {})
    ensures Reached(f, labels + [Return(Near)], v) && Rest(all, v, k, data) && v.far == w.far
  {
    v := With(w, Near, w.near.(job := Idle));
    EndingReturns(all, w, k, data);
    YoungIsFresh(f, all, v, k, data, {});
    Extend(f, labels, w, Return(Near));
  }
}
