/** Sixty-five chunks a write is the exact bound: for every payload of sixty-six chunks or more
    there is a run in which the write returns normally although the peer has not got the payload,
    and after it the channel is stalled. */
module TightBound {
  import opened Bytes
  import opened Sequencing
  import opened Endpoint
  import opened TwoParty
  import opened Exchange

  /** The sequence number on which the channel gets stuck. */
  const STUCK := REORDER_LIMIT + 1

  // ---- The receiving channel ----

  /** At most `count` chunks are delivered or wait, and none is longer than a chunk may be. */
  ghost predicate Light(ch: Channel, delivered: nat, count: nat) {
    && ch.expected == Wire(delivered) && |ch.reorder| <= REORDER_LIMIT
    && delivered + |ch.reorder| <= count
    && |ch.buffer| <= CHUNK_BYTES * delivered
    && forall key | key in ch.reorder :: |ch.reorder[key]| <= CHUNK_BYTES
  }

  lemma {:induction false} DrainLight(ch: Channel, delivered: nat, count: nat) returns (after: nat)
    requires Light(ch, delivered, count)
    ensures delivered <= after <= delivered + |ch.reorder| && Light(Drain(ch), after, count)
    decreases |ch.reorder|
  {
    if ch.expected in ch.reorder {
      WireStep(delivered);
      after := DrainLight(DrainOne(ch), delivered + 1, count);
    } else {
      after := delivered;
    }
  }

  /** A packet adds at most one chunk, wherever it ends up. */
  lemma AcceptLight(ch: Channel, delivered: nat, count: nat, sequence: nat, chunk: bytes)
    requires Light(ch, delivered, count) && |chunk| <= CHUNK_BYTES
    ensures Light(Accept(ch, sequence, chunk), Advanced(delivered, Accept(ch, sequence, chunk)), count + 1)
  {
    if sequence == ch.expected {
      WireStep(delivered);
      var after := DrainLight(Channel((sequence + 1) % MODULUS, ch.buffer + chunk, ch.reorder), delivered + 1, count + 1);
      AdvancedIs(delivered, after, Accept(ch, sequence, chunk));
    } else {
      AdvancedIs(delivered, delivered, Accept(ch, sequence, chunk));
    }
  }

  ghost predicate Stuck(ch: Channel) {
    ch.expected == STUCK && STUCK !in ch.reorder
  }

  lemma AcceptStuck(ch: Channel, sequence: nat, chunk: bytes)
    requires Stuck(ch) && sequence != STUCK
    ensures Stuck(Accept(ch, sequence, chunk)) && Accept(ch, sequence, chunk).buffer == ch.buffer
  {
  }

  /** Chunks 1..j have arrived and wait for chunk 0. */
  ghost predicate Waiting(all: seq<bytes>, ch: Channel, j: nat) {
    Tracks(all, 0, [], ch) && Light(ch, 0, j) && |ch.reorder| == j && forall i: nat :: i in ch.reorder <==> 1 <= i <= j
  }

  lemma SmallWire(k: nat)
    requires k < MODULUS
    ensures Wire(k) == k
  {
  }

  lemma WaitOne(all: seq<bytes>, ch: Channel, j: nat)
    requires Sendable(all) && j < REORDER_LIMIT && j + 1 < |all| && Waiting(all, ch, j)
    ensures Waiting(all, Accept(ch, Wire(j + 1), all[j + 1]), j + 1)
    ensures Advanced(0, Accept(ch, Wire(j + 1), all[j + 1])) == 0
  {
    SmallWire(0);
    SmallWire(j + 1);
    AcceptOther(all, 0, [], ch, j + 1);
    assert Distance(j + 1, 0) == j + 1;
    assert Accept(ch, j + 1, all[j + 1]) == ch.(reorder := ch.reorder[j + 1 := all[j + 1]]);
  }

  /** With the reorder buffer full, chunk 65 is acknowledged and thrown away. */
  lemma DropOne(all: seq<bytes>, ch: Channel)
    requires STUCK < |all| && Waiting(all, ch, REORDER_LIMIT)
    ensures Accept(ch, Wire(STUCK), all[STUCK]) == ch && Advanced(0, ch) == 0
  {
    SmallWire(0);
    SmallWire(STUCK);
  }

  /** When chunk 0 arrives at last, chunks 0..64 are delivered and nothing more. */
  lemma FirstDrains(all: seq<bytes>, ch: Channel)
    requires Sendable(all) && STUCK < |all| && Waiting(all, ch, REORDER_LIMIT)
    ensures var next := Accept(ch, Wire(0), all[0]);
            && Advanced(0, next) == STUCK && Light(next, STUCK, STUCK) && Stuck(next)
            && next.buffer == Concat(all[..STUCK])
  {
    var next := Accept(ch, Wire(0), all[0]);
    AcceptExpected(all, 0, [], ch);
    AcceptLight(ch, 0, REORDER_LIMIT, Wire(0), all[0]);
    DrainsAll(all, ch, next, Advanced(0, next));
    SmallWire(STUCK);
    assert [] + next.buffer == next.buffer;
  }

  lemma DrainsAll(all: seq<bytes>, ch: Channel, next: Channel, after: nat)
    requires Waiting(all, ch, REORDER_LIMIT) && Tracks(all, after, [], next) && 0 < after <= STUCK
    requires forall i :: Held(0, ch, i) ==> Held(after, next, i)
    ensures after == STUCK
  {
    NextNotHeld(all, after, [], next);
    SmallWire(0);
    SmallWire(after);
  }

  // ---- The write as it is sent ----

  ghost function Between(a: nat, b: nat): (s: set<nat>)
    ensures forall i: nat :: i in s <==> a <= i < b
  {
    if a >= b then {} else Between(a, b - 1) + {b - 1}
  }

  lemma BetweenNext(a: nat, k: nat)
    requires a <= k
    ensures Plus(Between(a, k), k) == Between(a, k + 1)
  {
  }

  lemma BetweenFirst(a: nat, k: nat)
    requires a < k
    ensures Between(a, k) - {a} == Between(a + 1, k)
    ensures Plus(Between(a + 1, k), a) == Between(a, k)
  {
  }

  /** The first acknowledgement that is young enough once `k` chunks are sent. */
  function Oldest(k: nat): nat {
    if k < MODULUS then 0 else k - MODULUS
  }

  /** The focus leaves the writes of the stream as long as they are, and its copies young. */
  ghost predicate Wide(f: Focus, all: seq<bytes>) {
    f.x == Near && f.c == 0 && f.limit >= |all| && f.age >= STUCK + 1
  }

  /** The first `k` chunks of the write were sent; `data` and `acks` are in flight. */
  ghost predicate InWrite(all: seq<bytes>, payload: bytes, w: World, k: nat, data: set<nat>, acks: set<nat>) {
    && all == Chunks(payload) && STUCK < |all|
    && Link(all, w, k, data, acks) && 0 !in w.near.failed
    && w.near.job == Writing(0, payload, all[k..]) && w.near.base[0] == 0
    && forall e | e in w.near.ep.pending :: e.sequence < MODULUS && e.sequence < k
  }

  lemma InWriteShape(all: seq<bytes>, payload: bytes, w: World, k: nat, data: set<nat>, acks: set<nat>)
    requires InWrite(all, payload, w, k, data, acks)
    ensures Sendable(all) && STUCK < |all| && |w.far.ep.channels| == CHANNELS && |w.far.delivered| == CHANNELS
    ensures (forall i | i in data :: i < k) && forall i | i in acks :: i < k
  {
  }

  lemma Opening(f: Focus, payload: bytes) returns (labels: seq<Label>, w: World)
    requires Wide(f, Chunks(payload)) && STUCK < |Chunks(payload)|
    ensures Reached(f, labels, w) && InWrite(Chunks(payload), payload, w, 0, {}, {})
    ensures w.far == START
  {
    hide Chunks, InFlight;
    var l := Begin(Near, 0, payload);
    BeginningOk(f);
    labels, w := [] + [l], DoBegin(BEGINNING, Near, 0, payload);
    Opened(payload, w);
    YoungIsFresh(f, Chunks(payload), w, 0, {}, {});
    Extend(f, [], BEGINNING, l);
  }

  lemma Opened(payload: bytes, w: World)
    requires w == DoBegin(BEGINNING, Near, 0, payload) && STUCK < |Chunks(payload)|
    ensures InWrite(Chunks(payload), payload, w, 0, {}, {})
  {
    var all := Chunks(payload);
    assert forall i: nat | i < |all| :: all[i] in all;
    assert all[0..] == all && all[..0] == [];
  }

  /** Chunk `k` leaves. */
  lemma SendNext(f: Focus, all: seq<bytes>, payload: bytes, labels: seq<Label>, w: World, k: nat, data: set<nat>, acks: set<nat>)
    returns (more: seq<Label>, v: World)
    requires Reached(f, labels, w) && InWrite(all, payload, w, k, data, acks) && k < |all|
    requires Young(f, k + 1, Plus(data, k), acks)
    ensures Reached(f, more, v) && InWrite(all, payload, v, k + 1, Plus(data, k), acks) && v.far == w.far
  {
    var entry;
    NextOf(all, k);
    v, entry := Emit(f, all, labels, w, k, data, acks);
    more := labels + [Send(Near, 0.0)];
    PutMembers(w.near.ep.pending, entry);
    WireBelow(k);
  }

  lemma WireBelow(k: nat)
    ensures Wire(k) < MODULUS && Wire(k) <= k
  {
  }

  /** Chunk `i` arrives, and no copy of it is kept. */
  lemma TakeIn(f: Focus, all: seq<bytes>, payload: bytes, labels: seq<Label>, w: World, k: nat, data: set<nat>, acks: set<nat>, i: nat)
    returns (more: seq<Label>, v: World)
    requires Reached(f, labels, w) && InWrite(all, payload, w, k, data, acks) && i in data && i < |all|
    requires Young(f, k, data, Plus(acks, i))
    ensures Reached(f, more, v) && InWrite(all, payload, v, k, data - {i}, Plus(acks, i))
    ensures v.far.ep.channels[0] == Accept(w.far.ep.channels[0], Wire(i), all[i])
    ensures v.far.delivered[0] == Advanced(w.far.delivered[0], v.far.ep.channels[0])
  {
    v := Receives(f, all, labels, w, k, data, acks, i, false);
    more := labels + [Deliver(DataCopy(all, i), false)];
  }

  // ---- Chunk 0 is held back until 64 chunks wait for it ----

  ghost predicate Held0(all: seq<bytes>, payload: bytes, w: World, k: nat) {
    && 1 <= k <= STUCK + 1 && InWrite(all, payload, w, k, {0}, Between(1, k))
    && w.far.delivered[0] == 0
    && Waiting(all, w.far.ep.channels[0], Waits(k))
  }

  lemma HoldFirst(f: Focus, payload: bytes) returns (labels: seq<Label>, w: World)
    requires Wide(f, Chunks(payload)) && STUCK < |Chunks(payload)|
    ensures Reached(f, labels, w) && Held0(Chunks(payload), payload, w, 1)
  {
    hide Link, InWrite, Reached, WorldShaped, Chunks;
    var all := Chunks(payload);
    labels, w := Opening(f, payload);
    labels, w := SendNext(f, all, payload, labels, w, 0, {}, {});
    assert Plus({}, 0) == {0} && Between(1, 1) == {};
    InWriteShape(all, payload, w, 1, {0}, Between(1, 1));
    NoneWaits(all);
  }

  lemma NoneWaits(all: seq<bytes>)
    ensures Waiting(all, Channel(0, [], map[]), 0)
  {
    assert all[..0] == [];
    SmallWire(0);
  }

  lemma HoldNext(f: Focus, all: seq<bytes>, payload: bytes, labels: seq<Label>, w: World, k: nat)
    returns (more: seq<Label>, v: World)
    requires Wide(f, all) && Reached(f, labels, w) && Held0(all, payload, w, k) && k <= STUCK
    ensures Reached(f, more, v) && Held0(all, payload, v, k + 1)
  {
    hide Link, InWrite, Reached, WorldShaped, Waiting;
    InWriteShape(all, payload, w, k, {0}, Between(1, k));
    more, v := SendNext(f, all, payload, labels, w, k, {0}, Between(1, k));
    InWriteShape(all, payload, v, k + 1, Plus({0}, k), Between(1, k));
    HoldChannel(all, v.far.ep.channels[0], k);
    more, v := TakeIn(f, all, payload, more, v, k + 1, Plus({0}, k), Between(1, k), k);
    BetweenNext(1, k);
    assert Plus({0}, k) - {k} == {0};
    InWriteShape(all, payload, v, k + 1, {0}, Between(1, k + 1));
  }

  /** How many chunks wait for chunk 0 once `k` were sent. */
  function Waits(k: nat): nat {
    if k == 0 then 0 else if k <= STUCK then k - 1 else REORDER_LIMIT
  }

  lemma HoldChannel(all: seq<bytes>, ch: Channel, k: nat)
    requires Sendable(all) && 1 <= k <= STUCK < |all| && Waiting(all, ch, Waits(k))
    ensures var next := Accept(ch, Wire(k), all[k]); Waiting(all, next, Waits(k + 1)) && Advanced(0, next) == 0
  {
    if k < STUCK {
      WaitOne(all, ch, k - 1);
    } else {
      DropOne(all, ch);
    }
  }

  lemma {:induction false} HoldAll(f: Focus, payload: bytes, k: nat) returns (labels: seq<Label>, w: World)
    requires Wide(f, Chunks(payload)) && STUCK < |Chunks(payload)| && 1 <= k <= STUCK + 1
    ensures Reached(f, labels, w) && Held0(Chunks(payload), payload, w, k)
    decreases k
  {
    hide Held0, Reached, Wide;
    if k == 1 {
      labels, w := HoldFirst(f, payload);
    } else {
      labels, w := HoldAll(f, payload, k - 1);
      labels, w := HoldNext(f, Chunks(payload), payload, labels, w, k - 1);
    }
  }

  // ---- The rest of the write: every chunk arrives at once ----

  /** One of the first `k` chunks was dropped. Until number 65 comes round again the channel is stuck. */
  ghost predicate OneLost(all: seq<bytes>, payload: bytes, w: World, k: nat) {
    && STUCK < k && InWrite(all, payload, w, k, {}, Between(Oldest(k), k))
    && Light(w.far.ep.channels[0], w.far.delivered[0], k - 1)
    && (k <= STUCK + MODULUS ==> Stuck(w.far.ep.channels[0]) && w.far.ep.channels[0].buffer == Concat(all[..STUCK]))
  }

  lemma YoungRelease(f: Focus, all: seq<bytes>, k: nat)
    requires Wide(f, all) && k == STUCK + 1
    ensures Young(f, k, {0}, Plus(Between(1, k), 0))
  {
    hide Between;
  }

  lemma ReleaseFirst(f: Focus, all: seq<bytes>, payload: bytes, labels: seq<Label>, w: World, k: nat)
    returns (more: seq<Label>, v: World)
    requires Wide(f, all) && Reached(f, labels, w) && Held0(all, payload, w, k) && k == STUCK + 1
    ensures Reached(f, more, v) && OneLost(all, payload, v, k)
  {
    hide Link, InWrite, Reached, WorldShaped, Waiting, Light, Stuck, Accept, Advanced, Between, Young, Concat, Wide;
    InWriteShape(all, payload, w, k, {0}, Between(1, k));
    FirstDrains(all, w.far.ep.channels[0]);
    YoungRelease(f, all, k);
    more, v := TakeIn(f, all, payload, labels, w, k, {0}, Between(1, k), 0);
    AllReleased(all, payload, v, k);
  }

  lemma AllReleased(all: seq<bytes>, payload: bytes, v: World, k: nat)
    requires InWrite(all, payload, v, k, {0} - {0}, Plus(Between(1, k), 0)) && STUCK < k < MODULUS
    ensures InWrite(all, payload, v, k, {}, Between(Oldest(k), k)) && |v.far.ep.channels| == CHANNELS && |v.far.delivered| == CHANNELS
  {
    hide InWrite, Between;
    BetweenFirst(0, k);
    assert {0} - {0} == {};
    InWriteShape(all, payload, v, k, {}, Between(0, k));
  }

  /** Chunk `k` leaves and arrives; an acknowledgement that would outlive its number is lost first. */
  lemma LoseOldest(f: Focus, all: seq<bytes>, payload: bytes, labels: seq<Label>, w: World, k: nat)
    returns (more: seq<Label>, v: World)
    requires Reached(f, labels, w) && OneLost(all, payload, w, k) && f.x == Near && f.c == 0
    ensures Reached(f, more, v) && InWrite(all, payload, v, k, {}, Between(Oldest(k + 1), k)) && v.far == w.far
  {
    hide Reached, Light;
    if k < MODULUS {
      more, v := labels, w;
    } else {
      v := LoseAck(f, all, labels, w, k, {}, Between(Oldest(k), k), Oldest(k));
      more := labels + [Lose(AckCopy(Oldest(k)))];
      BetweenFirst(Oldest(k), k);
    }
  }

  lemma LostNext(f: Focus, all: seq<bytes>, payload: bytes, labels: seq<Label>, w: World, k: nat)
    returns (more: seq<Label>, v: World)
    requires Wide(f, all) && Reached(f, labels, w) && OneLost(all, payload, w, k) && k < |all|
    ensures Reached(f, more, v) && OneLost(all, payload, v, k + 1)
  {
    hide Link, InWrite, Reached, WorldShaped;
    more, v := LoseOldest(f, all, payload, labels, w, k);
    InWriteShape(all, payload, v, k, {}, Between(Oldest(k + 1), k));
    more, v := SendNext(f, all, payload, more, v, k, {}, Between(Oldest(k + 1), k));
    LostChannel(all, v.far.ep.channels[0], v.far.delivered[0], k);
    more, v := TakeIn(f, all, payload, more, v, k + 1, Plus({}, k), Between(Oldest(k + 1), k), k);
    BetweenNext(Oldest(k + 1), k);
    assert Plus({}, k) - {k} == {};
    InWriteShape(all, payload, v, k + 1, {}, Between(Oldest(k + 1), k + 1));
  }

  lemma LostChannel(all: seq<bytes>, ch: Channel, delivered: nat, k: nat)
    requires Sendable(all) && STUCK < k < |all| && Light(ch, delivered, k - 1)
    ensures var next := Accept(ch, Wire(k), all[k]);
            && Light(next, Advanced(delivered, next), k)
            && (k < STUCK + MODULUS && Stuck(ch) ==> Stuck(next) && next.buffer == ch.buffer)
  {
    AcceptLight(ch, delivered, k - 1, Wire(k), all[k]);
    if k < STUCK + MODULUS && Stuck(ch) {
      NotStuck(k);
      AcceptStuck(ch, Wire(k), all[k]);
    }
  }

  lemma NotStuck(k: nat)
    requires STUCK < k < STUCK + MODULUS
    ensures Wire(k) != STUCK
  {
  }

  lemma {:induction false} LostAll(f: Focus, payload: bytes, k: nat) returns (labels: seq<Label>, w: World)
    requires Wide(f, Chunks(payload)) && STUCK < k <= |Chunks(payload)|
    ensures Reached(f, labels, w) && OneLost(Chunks(payload), payload, w, k)
    decreases k
  {
    hide OneLost, Held0, Reached, Wide;
    if k == STUCK + 1 {
      labels, w := HoldAll(f, payload, k);
      labels, w := ReleaseFirst(f, Chunks(payload), payload, labels, w, k);
    } else {
      labels, w := LostAll(f, payload, k - 1);
      labels, w := LostNext(f, Chunks(payload), payload, labels, w, k - 1);
    }
  }

  // ---- Every acknowledgement arrives ----

  /** All chunks were sent, and the acknowledgements before number `j` have arrived. */
  ghost predicate Settling(all: seq<bytes>, payload: bytes, w: World, j: nat) {
    && Oldest(|all|) <= j <= |all| && InWrite(all, payload, w, |all|, {}, Between(j, |all|))
    && forall e, i: nat | e in w.near.ep.pending && Oldest(|all|) <= i < j :: e.sequence != Wire(i)
  }

  lemma TakeAck(f: Focus, all: seq<bytes>, payload: bytes, labels: seq<Label>, w: World, data: set<nat>, acks: set<nat>, i: nat)
    returns (more: seq<Label>, v: World)
    requires Reached(f, labels, w) && InWrite(all, payload, w, |all|, data, acks) && i in acks && Young(f, |all|, data, acks)
    ensures Reached(f, more, v) && InWrite(all, payload, v, |all|, data, acks - {i}) && v.far == w.far
    ensures forall e :: e in v.near.ep.pending ==> e in w.near.ep.pending && e.sequence != Wire(i)
  {
    hide Reached;
    assert all[|all|..] == [];
    v := Settle(f, all, labels, w, |all|, data, acks, i);
    more := labels + [Deliver(AckCopy(i), false)];
    InWriteChannel(all, payload, w, |all|, data, acks);
    DiscardMembers(w.near.ep.pending, 0, [Wire(i)]);
  }

  lemma InWriteChannel(all: seq<bytes>, payload: bytes, w: World, k: nat, data: set<nat>, acks: set<nat>)
    requires InWrite(all, payload, w, k, data, acks)
    ensures forall e | e in w.near.ep.pending :: e.channel == 0
  {
  }

  lemma SettleNext(f: Focus, all: seq<bytes>, payload: bytes, labels: seq<Label>, w: World, j: nat)
    returns (more: seq<Label>, v: World)
    requires Reached(f, labels, w) && Settling(all, payload, w, j) && j < |all| && f.x == Near && f.c == 0
    ensures Reached(f, more, v) && Settling(all, payload, v, j + 1) && v.far == w.far
  {
    hide Link, InWrite, Reached, WorldShaped;
    more, v := TakeAck(f, all, payload, labels, w, {}, Between(j, |all|), j);
    BetweenFirst(j, |all|);
  }

  lemma {:induction false} SettleAll(f: Focus, all: seq<bytes>, payload: bytes, labels: seq<Label>, w: World, j: nat)
    returns (more: seq<Label>, v: World)
    requires Reached(f, labels, w) && Settling(all, payload, w, j) && f.x == Near && f.c == 0
    ensures Reached(f, more, v) && Settling(all, payload, v, |all|) && v.far == w.far
    decreases |all| - j
  {
    if j == |all| {
      more, v := labels, w;
    } else {
      more, v := SettleNext(f, all, payload, labels, w, j);
      more, v := SettleAll(f, all, payload, more, v, j + 1);
    }
  }

  /** Every number of a pending chunk has been acknowledged. */
  lemma NonePending(all: seq<bytes>, payload: bytes, w: World)
    requires Settling(all, payload, w, |all|)
    ensures w.near.ep.pending == []
  {
    if w.near.ep.pending != [] {
      var e := w.near.ep.pending[0];
      assert e in w.near.ep.pending;
      InWindowAgain(|all|, e.sequence);
    }
  }

  /** Every sequence number in use is that of one of the youngest 2^16 chunks. */
  lemma InWindowAgain(n: nat, sequence: nat)
    requires sequence < n && sequence < MODULUS
    ensures exists i: nat :: Oldest(n) <= i < n && Wire(i) == sequence
  {
    var i := if n < MODULUS then sequence else Index(n - MODULUS, sequence);
    if n >= MODULUS {
      IndexWire(n - MODULUS, sequence);
    } else {
      SmallWire(sequence);
    }
    assert Oldest(n) <= i < n && Wire(i) == sequence;
  }

  /** The bytes the far endpoint has got on channel 0. */
  function Got(w: World): bytes
    requires |w.far.consumed| == CHANNELS && |w.far.ep.channels| == CHANNELS
  {
    w.far.consumed[0] + w.far.ep.channels[0].buffer
  }

  /** What the world is like when every acknowledgement has arrived. */
  lemma AllSettled(all: seq<bytes>, payload: bytes, w: World)
    requires Settling(all, payload, w, |all|)
    ensures Link(all, w, |all|, {}, {}) && MayReturn(w.near) && Got(w) == w.far.ep.channels[0].buffer
    ensures w.near.job == Writing(0, payload, []) && w.near.base[0] == 0 && w.near.sent[0] == all && w.near.ep.pending == []
    ensures w.net == {} && 0 !in w.near.failed
  {
    hide Chunks;
    NonePending(all, payload, w);
    assert Between(|all|, |all|) == {} && all[|all|..] == [] && all[..|all|] == all;
    assert [] + w.far.ep.channels[0].buffer == w.far.ep.channels[0].buffer;
  }

  /** The receiver can hold no more than all chunks but one. */
  lemma OneMissing(payload: bytes, ch: Channel, delivered: nat)
    requires |Chunks(payload)| > 0 && Light(ch, delivered, |Chunks(payload)| - 1)
    ensures |ch.buffer| < |payload|
  {
    ChunksWhole(payload);
  }

  /** For every payload of 66 chunks or more there is a run, with all copies young, in which the
      write may return normally and the peer has got fewer bytes than were written. */
  lemma LongWriteCanFail(f: Focus, payload: bytes) returns (labels: seq<Label>, w: World)
    requires |Chunks(payload)| > STUCK && Wide(f, Chunks(payload))
    ensures Reached(f, labels, w) && WorldShaped(w) && MayReturn(w.near)
    ensures w.near.job == Writing(0, payload, []) && w.near.base[0] == 0 && w.near.sent[0] == Chunks(payload)
    ensures 0 !in w.near.failed && w.near.ep.pending == [] && w.net == {} && w.far.job.Idle? && w.far.ep.pending == []
    ensures |Got(w)| < |payload| && Link(Chunks(payload), w, |Chunks(payload)|, {}, {})
    ensures |Chunks(payload)| <= STUCK + MODULUS ==>
              Stuck(w.far.ep.channels[0]) && Got(w) == Concat(Chunks(payload)[..STUCK])
  {
    hide Chunks, Concat, Reached, MayReturn, InFlight;
    var all := Chunks(payload);
    labels, w := LostAll(f, payload, |all|);
    OneMissing(payload, w.far.ep.channels[0], w.far.delivered[0]);
    StartSettling(all, payload, w);
    labels, w := SettleAll(f, all, payload, labels, w, Oldest(|all|));
    AllSettled(all, payload, w);
  }

  lemma StartSettling(all: seq<bytes>, payload: bytes, w: World)
    requires OneLost(all, payload, w, |all|)
    ensures Settling(all, payload, w, Oldest(|all|))
  {
    hide InWrite;
  }
}
