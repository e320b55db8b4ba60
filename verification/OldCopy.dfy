/** 2^15 later chunks is the exact age a data copy may reach: a copy one chunk older is taken for a
    chunk of the future, and half the numbers later it is delivered in place of another. */
module OldCopy {
  import opened Bytes
  import opened Sequencing
  import opened Endpoint
  import opened TwoParty
  import opened Exchange

  /** All chunks of the run: one a write, and one more than there are sequence numbers. */
  ghost predicate OneTooMany(all: seq<bytes>) {
    |all| == MODULUS + 1 && forall i: nat | i < |all| :: 0 < |all[i]| <= CHUNK_BYTES
  }

  ghost predicate Slow(f: Focus) {
    f.x == Near && f.c == 0 && f.limit >= 1 && f.age >= HALF + 1
  }

  // ---- The far channel ----

  /** The first `k` chunks are delivered; a copy of chunk 0 waits if it has come back. */
  function InLine(all: seq<bytes>, k: nat, waits: bool): Channel
    requires 0 < k <= |all|
  {
    Channel(Wire(k), Concat(all[..k]), if waits then map[0 := all[0]] else map[])
  }

  lemma FrontGrows(all: seq<bytes>, k: nat)
    requires k < |all|
    ensures Concat(all[..k + 1]) == Concat(all[..k]) + all[k]
  {
    assert all[..k + 1] == all[..k] + [all[k]];
    ConcatSnoc(all[..k], all[k]);
  }

  lemma FirstInLine(all: seq<bytes>)
    requires all != []
    ensures Accept(Channel(0, [], map[]), Wire(0), all[0]) == InLine(all, 1, false)
  {
    FrontGrows(all, 0);
    assert all[..0] == [];
    assert [] + all[0] == all[0];
  }

  lemma NextInLine(all: seq<bytes>, k: nat, waits: bool)
    requires 0 < k < MODULUS - 1 && k < |all|
    ensures Accept(InLine(all, k, waits), Wire(k), all[k]) == InLine(all, k + 1, waits)
  {
    hide Concat;
    FrontGrows(all, k);
    WireStep(k);
  }

  /** More than 2^15 chunks behind, a copy of chunk 0 is stored for later. */
  lemma OldCopyStored(all: seq<bytes>, k: nat)
    requires HALF < k < MODULUS && k < |all|
    ensures Accept(InLine(all, k, false), Wire(0), all[0]) == InLine(all, k, true)
  {
    hide Concat;
    assert Distance(0, k) == MODULUS - k;
  }

  /** When the numbers wrap round, it is delivered a second time, in place of chunk 2^16. */
  lemma OldCopyDelivered(all: seq<bytes>, k: nat)
    requires k == MODULUS - 1 && k < |all|
    ensures Accept(InLine(all, k, true), Wire(k), all[k]) == Channel(1, Concat(all[..k + 1]) + all[0], map[])
  {
    hide Concat;
    FrontGrows(all, k);
    var ch := InLine(all, k, true);
    var middle := Channel(0, ch.buffer + all[k], ch.reorder);
    assert Accept(ch, Wire(k), all[k]) == Drain(middle);
    assert DrainOne(middle) == Channel(1, middle.buffer + all[0], map[]);
  }

  /** And chunk 2^16 is acknowledged and ignored. */
  lemma RightOneIgnored(all: seq<bytes>, ch: Channel)
    requires |all| == MODULUS + 1 && ch.expected == 1
    ensures Accept(ch, Wire(MODULUS), all[MODULUS]) == ch
  {
    assert Distance(0, 1) == MODULUS - 1;
  }

  // ---- The run ----

  /** `k` writes of one chunk have returned; the copy of chunk 0 is in flight or waits. */
  ghost predicate Written(all: seq<bytes>, w: World, k: nat, waits: bool) {
    && 0 < k <= |all| && Rest(all, w, k, if waits then {} else {0})
    && w.far.ep.channels[0] == InLine(all, k, waits)
  }

  lemma FirstWrite(f: Focus, all: seq<bytes>) returns (labels: seq<Label>, w: World)
    requires OneTooMany(all) && Slow(f)
    ensures Reached(f, labels, w) && Written(all, w, 1, false)
  {
    hide Reached, Concat;
    labels, w := [], BEGINNING;
    AtRest(f, all);
    ChunkAt(all, 0);
    labels, w := WriteOne(f, all, labels, w, 0, {}, true);
    w := Finish(f, all, labels, w, 1, Plus({}, 0));
    labels := labels + [Return(Near)];
    FirstInLine(all);
    assert Plus({}, 0) == {0};
  }

  lemma AtRest(f: Focus, all: seq<bytes>)
    requires OneTooMany(all) && f.c < CHANNELS
    ensures Reached(f, [], BEGINNING) && Rest(all, BEGINNING, 0, {})
    ensures BEGINNING.far.ep.channels[0] == Channel(0, [], map[])
  {
    assert all[..0] == [];
    BeginningOk(f);
  }

  lemma ChunkAt(all: seq<bytes>, k: nat)
    requires OneTooMany(all) && k < |all|
    ensures 0 < |all[k]| <= CHUNK_BYTES && |all| == MODULUS + 1
  {
  }

  lemma NextWrite(f: Focus, all: seq<bytes>, labels: seq<Label>, w: World, k: nat, waits: bool)
    returns (more: seq<Label>, v: World)
    requires Reached(f, labels, w) && Written(all, w, k, waits) && OneTooMany(all) && Slow(f)
    requires k < MODULUS - 1 && (waits || k <= HALF)
    ensures Reached(f, more, v) && Written(all, v, k + 1, waits)
  {
    hide Reached, Concat;
    ChunkAt(all, k);
    var data := if waits then {} else {0};
    assert !waits ==> Plus(data, k) - {k} == data;
    more, v := WriteOne(f, all, labels, w, k, data, false);
    v := Finish(f, all, more, v, k + 1, data);
    more := more + [Return(Near)];
    NextInLine(all, k, waits);
  }

  lemma {:induction false} WritesUntil(f: Focus, all: seq<bytes>, k: nat) returns (labels: seq<Label>, w: World)
    requires OneTooMany(all) && Slow(f) && 0 < k <= HALF + 1
    ensures Reached(f, labels, w) && Written(all, w, k, false)
    decreases k
  {
    hide Reached, Written, OneTooMany, Slow;
    if k == 1 {
      labels, w := FirstWrite(f, all);
    } else {
      labels, w := WritesUntil(f, all, k - 1);
      labels, w := NextWrite(f, all, labels, w, k - 1, false);
    }
  }

  /** The copy of chunk 0 arrives when 2^15 + 1 chunks are delivered. */
  lemma CopyComesBack(f: Focus, all: seq<bytes>, labels: seq<Label>, w: World, k: nat)
    returns (more: seq<Label>, v: World)
    requires Reached(f, labels, w) && Written(all, w, k, false) && OneTooMany(all) && Slow(f) && k == HALF + 1
    ensures Reached(f, more, v) && Written(all, v, k, true)
  {
    hide Reached, Concat;
    ChunkAt(all, k);
    v := Receives(f, all, labels, w, k, {0}, {}, 0, false);
    more := labels + [Deliver(DataCopy(all, 0), false)];
    assert {0} - {0} == {} && Plus({}, 0) - {0} == {};
    v := Settle(f, all, more, v, k, {}, Plus({}, 0), 0);
    more := more + [Deliver(AckCopy(0), false)];
    OldCopyStored(all, k);
  }

  lemma {:induction false} WritesBehind(f: Focus, all: seq<bytes>, k: nat) returns (labels: seq<Label>, w: World)
    requires OneTooMany(all) && Slow(f) && HALF + 1 <= k < MODULUS
    ensures Reached(f, labels, w) && Written(all, w, k, true)
    decreases k
  {
    hide Reached, Written, OneTooMany, Slow;
    if k == HALF + 1 {
      labels, w := WritesUntil(f, all, k);
      labels, w := CopyComesBack(f, all, labels, w, k);
    } else {
      labels, w := WritesBehind(f, all, k - 1);
      labels, w := NextWrite(f, all, labels, w, k - 1, true);
    }
  }

  lemma Doubled(f: Focus, all: seq<bytes>, labels: seq<Label>, w: World, k: nat) returns (more: seq<Label>, v: World)
    requires Reached(f, labels, w) && Written(all, w, k, true) && OneTooMany(all) && Slow(f) && k == MODULUS - 1
    ensures Reached(f, more, v) && Rest(all, v, MODULUS, {})
    ensures v.far.ep.channels[0] == Channel(1, Concat(all[..MODULUS]) + all[0], map[])
  {
    hide Reached, Concat;
    more, v := WriteOne(f, all, labels, w, k, {}, false);
    v := Finish(f, all, more, v, MODULUS, {});
    more := more + [Return(Near)];
    OldCopyDelivered(all, k);
  }

  /** For all chunks of 2^16 + 1 writes of one chunk there is a run in which every write returns and
      only one data copy ever grows old, by 2^15 + 1 chunks: the peer then gets chunk 0 again in
      place of the last chunk. */
  lemma OldCopyMisleads(f: Focus, all: seq<bytes>) returns (labels: seq<Label>, w: World)
    requires OneTooMany(all) && Slow(f)
    ensures Reached(f, labels, w) && WorldShaped(w) && MayReturn(w.near)
    ensures w.near.job == Writing(0, all[MODULUS], []) && w.near.base[0] == MODULUS && w.near.sent[0] == all
    ensures 0 !in w.near.failed && w.net == {}
    ensures w.far.consumed[0] == [] && w.far.ep.channels[0].buffer == Concat(all[..MODULUS]) + all[0]
  {
    hide Reached, Concat;
    var k := MODULUS - 1;
    labels, w := WritesBehind(f, all, k);
    labels, w := Doubled(f, all, labels, w, k);
    labels, w := WriteOne(f, all, labels, w, MODULUS, {}, false);
    RightOneIgnored(all, w.far.ep.channels[0]);
    assert all[..MODULUS + 1] == all;
    EndingReturns(all, w, MODULUS + 1, {});
  }
}
