/** A write on a channel on which an earlier one has raised can return normally although nothing of it
    is ever delivered: the chunk that was given up is still missing in front of it. */
module AfterFailure {
  import opened Bytes
  import opened Sequencing
  import opened Endpoint
  import opened TwoParty
  import opened Exchange
  import opened SessionRuns

  /** The world so far, and nothing has been received. */
  ghost predicate Nothing(all: seq<bytes>, labels: seq<Label>, w: World, k: nat, data: set<nat>) {
    && Becomes(BEGINNING, labels, w) && Link(all, w, k, data, {})
    && w.far.ep.channels[0] == Channel(0, [], map[])
  }

  lemma Begins(all: seq<bytes>, labels: seq<Label>, w: World, k: nat) returns (more: seq<Label>, v: World)
    requires Nothing(all, labels, w, k, {}) && w.near.job.Idle? && k < |all| && 0 < |all[k]| <= CHUNK_BYTES
    ensures Nothing(all, more, v, k, {}) && v.near.failed == w.near.failed && v.near.ep == w.near.ep
    ensures v.near.job == Writing(0, all[k], [all[k]]) && v.near.base[0] == k
  {
    hide InFlight, Becomes;
    OneChunk(all[k]);
    more, v := Longer(BEGINNING, labels, w, Begin(Near, 0, all[k]));
  }

  lemma SendsOne(all: seq<bytes>, labels: seq<Label>, w: World, k: nat) returns (more: seq<Label>, v: World, entry: Entry)
    requires Nothing(all, labels, w, k, {}) && k < |all| && w.near.job == Writing(0, all[k], [all[k]])
    ensures Nothing(all, more, v, k + 1, {k}) && v.near.failed == w.near.failed && v.near.base == w.near.base
    ensures v.near.job == Writing(0, all[k], [])
    ensures v.near.ep.pending == Put(w.near.ep.pending, entry)
  {
    hide InFlight, Becomes;
    SendEffect(w, Near, 0.0);
    more, v := Longer(BEGINNING, labels, w, Send(Near, 0.0));
    entry :| Sends(w, v, Near, entry);
    EmitLink(all, w, v, k, {}, {}, entry);
    assert Plus({}, k) == {k};
  }

  /** The only copy is lost, and the write times out. */
  lemma GivesUp(all: seq<bytes>, labels: seq<Label>, w: World) returns (more: seq<Label>, v: World)
    requires Nothing(all, labels, w, 1, {0}) && w.near.job.Writing? && w.near.job.channel == 0 && w.near.job.todo == []
    ensures Nothing(all, more, v, 1, {}) && v.near.job.Idle? && 0 in v.near.failed
  {
    hide Becomes;
    more, v := Longer(BEGINNING, labels, w, Lose(DataCopy(all, 0)));
    more, v := Longer(BEGINNING, more, v, TimeOut(Near));
  }

  /** The chunk behind the missing one is stored and acknowledged. */
  lemma StoredBehind(all: seq<bytes>, labels: seq<Label>, w: World) returns (more: seq<Label>, v: World)
    requires Nothing(all, labels, w, 2, {1}) && |all| == 2
    ensures Becomes(BEGINNING, more, v) && Link(all, v, 2, {}, {1}) && v.near == w.near
    ensures v.far.ep.channels[0] == Channel(0, [], map[1 := all[1]])
  {
    hide Becomes;
    var copy := DataCopy(all, 1);
    CopyIsData(all, w, 2, {1}, {}, 1);
    StoreEffect(w, copy, false);
    more, v := Longer(BEGINNING, labels, w, Deliver(copy, false));
    ReceivesLink(all, w, v, 2, {1}, {}, 1, false);
    assert {1} - {1} == {} && Plus({}, 1) == {1};
    assert Accept(Channel(0, [], map[]), 1, all[1]) == Channel(0, [], map[][1 := all[1]]);
  }

  /** For any two payloads of one chunk there is a run in which the first write raises, the second
      may return normally, nothing is left in flight, and the peer has got no byte at all. */
  lemma FailureSpoils(first: bytes, second: bytes) returns (labels: seq<Label>, w: World)
    requires 0 < |first| <= CHUNK_BYTES && 0 < |second| <= CHUNK_BYTES
    ensures Becomes(BEGINNING, labels, w) && WorldShaped(w) && 0 in w.near.failed
    ensures MayReturn(w.near) && w.near.job == Writing(0, second, []) && w.net == {}
    ensures w.far.consumed[0] == [] && w.far.ep.channels[0].buffer == []
  {
    hide InFlight, Becomes, Chunks;
    var all := [first, second];
    labels, w := [], BEGINNING;
    AtBeginning(all);
    labels, w := Begins(all, labels, w, 0);
    var entry;
    labels, w, entry := SendsOne(all, labels, w, 0);
    labels, w := GivesUp(all, labels, w);
    labels, w := Begins(all, labels, w, 1);
    labels, w, entry := SendsOne(all, labels, w, 1);
    labels, w := StoredBehind(all, labels, w);
    labels, w := Acknowledged(all, labels, w);
  }

  lemma AtBeginning(all: seq<bytes>)
    requires |all| == 2 && |all[0]| <= CHUNK_BYTES && |all[1]| <= CHUNK_BYTES
    ensures Nothing(all, [], BEGINNING, 0, {})
  {
    assert all[..0] == [];
  }

  lemma Acknowledged(all: seq<bytes>, labels: seq<Label>, w: World) returns (more: seq<Label>, v: World)
    requires Becomes(BEGINNING, labels, w) && Link(all, w, 2, {}, {1}) && |all| == 2
    requires w.near.job == Writing(0, all[1], []) && w.near.base[0] == 1
    ensures Becomes(BEGINNING, more, v) && Link(all, v, 2, {}, {}) && MayReturn(v.near) && v.net == {} && v.far == w.far
    ensures v.near.job == w.near.job && v.near.failed == w.near.failed
  {
    hide Becomes, Discard;
    SettleEffect(w, AckCopy(1), false);
    more, v := Longer(BEGINNING, labels, w, Deliver(AckCopy(1), false));
    SettleLink(all, w, v, 2, {}, {1}, 1);
    DiscardMembers(w.near.ep.pending, 0, [Wire(1)]);
    assert {1} - {1} == {};
  }
}
