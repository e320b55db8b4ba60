/** The loop that turns the chunks of a subscription into RTP packets on one RTSP connection. */
module RtspStream {
  import opened Bytes
  import opened AnnexB
  import opened AccessUnits
  import opened Rtp
  import opened Bits
  import Sps

  const FRAME_TICKS := 3_000

  // ---- What is sent ----

  /** An access unit with the sequence number of its first packet and its timestamp. */
  datatype Sent = Sent(units: accessUnit, sequence: u16, timestamp: u32)

  function PacketsOf(s: Sent, ssrc: u32): seq<bytes> {
    Packets(AllPayloads(s.units), s.sequence, Stamp(s.timestamp, ssrc), true)
  }

  function AllPackets(log: seq<Sent>, ssrc: u32): seq<bytes> {
    if log == [] then [] else PacketsOf(log[0], ssrc) + AllPackets(log[1..], ssrc)
  }

  function SentUnits(log: seq<Sent>): seq<accessUnit> {
    if log == [] then [] else [log[0].units] + SentUnits(log[1..])
  }

  datatype Player = Player(assembly: Assembly, ticks: nat, sequence: u16, timestamp: u32, log: seq<Sent>)

  function Start(sequence: u16, timestamp: u32): Player {
    Player(EMPTY, FRAME_TICKS, sequence, timestamp, [])
  }

  function Later(timestamp: u32, ticks: nat): u32 {
    (timestamp + ticks) % 0x1_0000_0000
  }

  function Send(p: Player, units: accessUnit): Player {
    p.(log := p.log + [Sent(units, p.sequence, p.timestamp)],
       sequence := Plus(p.sequence, |AllPayloads(units)|),
       timestamp := Later(p.timestamp, p.ticks))
  }

  function SendAll(p: Player, ready: seq<accessUnit>): Player
    decreases |ready|
  {
    if ready == [] then p else SendAll(Send(p, ready[0]), ready[1..])
  }

  /** The frame duration in force once a unit has been seen. */
  function TicksAfter(ticks: nat, n: nal): nat {
    match Sps.FrameTicks(n)
    case None => ticks
    case Some(announced) => announced
  }

  /** One unit of the stream. */
  function Play(p: Player, n: nal): Player {
    var (ready, assembly) := Pushed(p.assembly, n);
    SendAll(p.(assembly := assembly, ticks := TicksAfter(p.ticks, n)), ready)
  }

  function PlayAll(p: Player, ns: seq<nal>): Player
    decreases |ns|
  {
    if ns == [] then p else PlayAll(Play(p, ns[0]), ns[1..])
  }

  /** The end of the subscription. */
  function Finish(p: Player): Player {
    var (ready, assembly) := Flushed(p.assembly);
    SendAll(p.(assembly := assembly), ready)
  }

  lemma {:induction false} PlayAllAppend(p: Player, a: seq<nal>, b: seq<nal>)
    ensures PlayAll(p, a + b) == PlayAll(PlayAll(p, a), b)
    decreases |a|
  {
    if a == [] {
      assert a + b == b;
    } else {
      assert (a + b)[1..] == a[1..] + b;
      PlayAllAppend(Play(p, a[0]), a[1..], b);
    }
  }

  // ---- The access units that are sent ----

  lemma {:induction false} SendAllLog(p: Player, ready: seq<accessUnit>)
    ensures SentUnits(SendAll(p, ready).log) == SentUnits(p.log) + ready
    ensures SendAll(p, ready).assembly == p.assembly
    decreases |ready|
  {
    if ready == [] {
      assert SentUnits(p.log) + [] == SentUnits(p.log);
    } else {
      SendAllLog(Send(p, ready[0]), ready[1..]);
      SentUnitsSnoc(p.log, Sent(ready[0], p.sequence, p.timestamp));
      assert SentUnits(p.log) + [ready[0]] + ready[1..] == SentUnits(p.log) + ready;
    }
  }

  lemma {:induction false} SentUnitsSnoc(log: seq<Sent>, s: Sent)
    ensures SentUnits(log + [s]) == SentUnits(log) + [s.units]
  {
    if log == [] {
      assert (log + [s])[1..] == [];
    } else {
      assert (log + [s])[1..] == log[1..] + [s];
      SentUnitsSnoc(log[1..], s);
    }
  }

  lemma PlayLog(p: Player, n: nal)
    ensures SentUnits(Play(p, n).log) == SentUnits(p.log) + Pushed(p.assembly, n).0
    ensures Play(p, n).assembly == Pushed(p.assembly, n).1
  {
    var (ready, next) := Pushed(p.assembly, n);
    SendAllLog(p.(assembly := next, ticks := TicksAfter(p.ticks, n)), ready);
  }

  lemma {:induction false} PlayAllLog(p: Player, ns: seq<nal>)
    ensures SentUnits(PlayAll(p, ns).log) == SentUnits(p.log) + Assemble(p.assembly, ns).0
    ensures PlayAll(p, ns).assembly == Assemble(p.assembly, ns).1
    decreases |ns|
  {
    if ns == [] {
      assert SentUnits(p.log) + [] == SentUnits(p.log);
    } else {
      var (ready, next) := Pushed(p.assembly, ns[0]);
      PlayLog(p, ns[0]);
      PlayAllLog(Play(p, ns[0]), ns[1..]);
      Together(SentUnits(p.log), ready, Assemble(next, ns[1..]).0);
    }
  }

  lemma Together<T>(a: seq<T>, b: seq<T>, c: seq<T>)
    ensures a + b + c == a + (b + c)
  {
  }

  /** The whole run over the units of a stream: everything sent, then what the end leaves over. */
  function Run(sequence: u16, timestamp: u32, ns: seq<nal>): Player {
    Finish(PlayAll(Start(sequence, timestamp), ns))
  }

  /** What is sent by the end is the units of the stream in order, except for a rest that holds
      no slice. */
  lemma RunSendsUnits(sequence: u16, timestamp: u32, ns: seq<nal>)
    ensures var last := Run(sequence, timestamp, ns);
            && Concat(SentUnits(last.log)) + last.assembly.units == ns
            && !HasSlice(last.assembly.units)
  {
    var start := Start(sequence, timestamp);
    var p := PlayAll(start, ns);
    var (groups, held) := Assemble(EMPTY, ns);
    PlayAllLog(start, ns);
    assert SentUnits(start.log) + groups == groups;
    AssembleKeeps(EMPTY, ns);
    assert EMPTY.units + ns == ns;
    var (ready, rest) := Flushed(held);
    FlushKeeps(held);
    SendAllLog(p.(assembly := rest), ready);
    ConcatAppend(groups, ready);
    assert Concat(groups) + Concat(ready) + rest.units == Concat(groups) + (Concat(ready) + rest.units);
  }

  // ---- Time ----

  /** The frame duration after a run of units: the newest valid announcement among them. */
  function Newest(ticks: nat, ns: seq<nal>): nat
    decreases |ns|
  {
    if ns == [] then ticks
    else if Sps.FrameTicks(ns[|ns| - 1]).Some? then Sps.FrameTicks(ns[|ns| - 1]).value
    else Newest(ticks, ns[..|ns| - 1])
  }

  lemma SendAllTicks(p: Player, ready: seq<accessUnit>)
    requires |ready| <= 1
    ensures SendAll(p, ready) == if ready == [] then p else Send(p, ready[0])
  {
  }

  lemma PlayOnce(p: Player, n: nal)
    ensures Play(p, n).ticks == TicksAfter(p.ticks, n)
    ensures if p.assembly.hasVcl && Boundary(n) then
              && Play(p, n).log == p.log + [Sent(p.assembly.units, p.sequence, p.timestamp)]
              && Play(p, n).timestamp == Later(p.timestamp, TicksAfter(p.ticks, n))
            else
              Play(p, n).log == p.log && Play(p, n).timestamp == p.timestamp
  {
    var (ready, next) := Pushed(p.assembly, n);
    SendAllTicks(p.(assembly := next, ticks := TicksAfter(p.ticks, n)), ready);
  }

  lemma PlayLast(p: Player, ns: seq<nal>, n: nal)
    ensures PlayAll(p, ns + [n]) == Play(PlayAll(p, ns), n)
  {
    var one: seq<nal> := [n];
    PlayAllAppend(p, ns, one);
    assert one[1..] == [];
  }

  lemma NewestSnoc(ticks: nat, ns: seq<nal>, n: nal)
    ensures Newest(ticks, ns + [n]) == TicksAfter(Newest(ticks, ns), n)
  {
    assert (ns + [n])[..|ns|] == ns;
  }

  lemma {:induction false} TicksInForce(p: Player, ns: seq<nal>)
    ensures PlayAll(p, ns).ticks == Newest(p.ticks, ns)
    decreases |ns|
  {
    if ns != [] {
      var front, n := ns[..|ns| - 1], ns[|ns| - 1];
      assert ns == front + [n];
      TicksInForce(p, front);
      PlayedTicks(p, front, n);
      NewestSnoc(p.ticks, front, n);
    }
  }

  lemma PlayedTicks(p: Player, ns: seq<nal>, n: nal)
    ensures PlayAll(p, ns + [n]).ticks == TicksAfter(PlayAll(p, ns).ticks, n)
  {
    PlayLast(p, ns, n);
    PlayOnce(PlayAll(p, ns), n);
  }

  /** One more unit either sends nothing and leaves the clock alone, or sends the held access unit
      under the current timestamp and moves the clock by the newest announced duration, the new
      unit's own announcement included. */
  lemma ClockMoves(start: Player, ns: seq<nal>, n: nal)
    ensures var before, after := PlayAll(start, ns), PlayAll(start, ns + [n]);
            if before.assembly.hasVcl && Boundary(n) then
              && after.log == before.log + [Sent(before.assembly.units, before.sequence, before.timestamp)]
              && after.timestamp == Later(before.timestamp, Newest(start.ticks, ns + [n]))
            else
              after.log == before.log && after.timestamp == before.timestamp
  {
    PlayLast(start, ns, n);
    TicksInForce(start, ns);
    NewestSnoc(start.ticks, ns, n);
    PlayOnce(PlayAll(start, ns), n);
  }

  /** From access unit number `from` on, each one is `t` ticks after the one before. */
  ghost predicate Paced(log: seq<Sent>, from: nat, t: nat) {
    forall i: nat | from <= i && i + 1 < |log| :: log[i + 1].timestamp == (log[i].timestamp + t) % 0x1_0000_0000
  }

  /** And the next one will be. */
  ghost predicate Pacing(p: Player, from: nat, t: nat) {
    && Paced(p.log, from, t) && from <= |p.log| && p.ticks == t
    && (from < |p.log| ==> p.timestamp == (p.log[|p.log| - 1].timestamp + t) % 0x1_0000_0000)
  }

  lemma {:induction false} SendAllPacing(p: Player, ready: seq<accessUnit>, from: nat, t: nat)
    requires Pacing(p, from, t)
    ensures Pacing(SendAll(p, ready), from, t)
    decreases |ready|
  {
    if ready != [] {
      SendAllPacing(Send(p, ready[0]), ready[1..], from, t);
    }
  }

  /** A unit that announces nothing leaves the pace alone. */
  lemma SilentPacing(p: Player, n: nal, from: nat, t: nat)
    requires Pacing(p, from, t) && Sps.FrameTicks(n).None?
    ensures Pacing(Play(p, n), from, t)
  {
    hide SendAll, Pushed, Sps.FrameTicks, Paced;
    var (ready, next) := Pushed(p.assembly, n);
    SendAllPacing(p.(assembly := next), ready, from, t);
  }

  lemma {:induction false} SilentsPacing(p: Player, ns: seq<nal>, from: nat, t: nat)
    requires Pacing(p, from, t) && forall n | n in ns :: Sps.FrameTicks(n).None?
    ensures Pacing(PlayAll(p, ns), from, t)
    decreases |ns|
  {
    if ns != [] {
      assert ns[0] in ns && forall n | n in ns[1..] :: n in ns;
      SilentPacing(p, ns[0], from, t);
      SilentsPacing(Play(p, ns[0]), ns[1..], from, t);
    }
  }

  /** A unit that announces a duration sets the pace, for the access unit it completes already. */
  lemma AnnouncedPacing(p: Player, n: nal, t: nat)
    requires Sps.FrameTicks(n) == Some(t)
    ensures Pacing(Play(p, n), |p.log|, t)
  {
    hide SendAll, Pushed, Sps.FrameTicks;
    var (ready, next) := Pushed(p.assembly, n);
    SendAllPacing(p.(assembly := next, ticks := t), ready, |p.log|, t);
  }

  lemma FinishPacing(p: Player, from: nat, t: nat)
    requires Pacing(p, from, t)
    ensures Paced(Finish(p).log, from, t)
  {
    hide SendAll, Flushed;
    var (ready, next) := Flushed(p.assembly);
    SendAllPacing(p.(assembly := next), ready, from, t);
  }

  /** In every run in which `announcing` is the last unit with a frame duration, the access units from
      the one that was held when it came on are sent at that distance, up to the end of the run. */
  lemma PacedByLast(sequence: u16, timestamp: u32, before: seq<nal>, announcing: nal, behind: seq<nal>, t: nat)
    requires Sps.FrameTicks(announcing) == Some(t) && forall n | n in behind :: Sps.FrameTicks(n).None?
    ensures var held := |PlayAll(Start(sequence, timestamp), before).log|;
            Paced(Run(sequence, timestamp, before + [announcing] + behind).log, held, t)
  {
    var start := Start(sequence, timestamp);
    var p := PlayAll(start, before);
    PlayAllAppend(start, before + [announcing], behind);
    PlayLast(start, before, announcing);
    AnnouncedPacing(p, announcing, t);
    SilentsPacing(Play(p, announcing), behind, |p.log|, t);
    FinishPacing(PlayAll(start, before + [announcing] + behind), |p.log|, t);
  }

  /** In every run in which no unit announces a frame duration, it is 3000 ticks throughout. */
  lemma PacedByDefault(sequence: u16, timestamp: u32, ns: seq<nal>)
    requires forall n | n in ns :: Sps.FrameTicks(n).None?
    ensures Paced(Run(sequence, timestamp, ns).log, 0, 3000)
  {
    var start := Start(sequence, timestamp);
    SilentsPacing(start, ns, 0, 3000);
    FinishPacing(PlayAll(start, ns), 0, 3000);
  }

  lemma {:induction false} SendAllFirst(p: Player, ready: seq<accessUnit>)
    ensures var q := SendAll(p, ready);
            && |q.log| >= |p.log| && q.log[..|p.log|] == p.log
            && (|q.log| == |p.log| ==> q.timestamp == p.timestamp)
            && (|q.log| > |p.log| ==> q.log[|p.log|].timestamp == p.timestamp)
    decreases |ready|
  {
    if ready != [] {
      var sent := Send(p, ready[0]);
      SendAllFirst(sent, ready[1..]);
      var q := SendAll(sent, ready[1..]);
      assert q.log[|p.log|] == q.log[..|sent.log|][|p.log|];
      assert q.log[..|p.log|] == q.log[..|sent.log|][..|p.log|];
    }
  }

  lemma {:induction false} PlayAllFirst(p: Player, ns: seq<nal>)
    requires p.log == []
    ensures var q := PlayAll(p, ns);
            if q.log == [] then q.timestamp == p.timestamp else q.log[0].timestamp == p.timestamp
    decreases |ns|
  {
    if ns != [] {
      var (ready, next) := Pushed(p.assembly, ns[0]);
      var q := Play(p, ns[0]);
      SendAllFirst(p.(assembly := next, ticks := TicksAfter(p.ticks, ns[0])), ready);
      if q.log == [] {
        PlayAllFirst(q, ns[1..]);
      } else {
        PlayAllGrows(q, ns[1..]);
      }
    }
  }

  lemma {:induction false} PlayAllGrows(p: Player, ns: seq<nal>)
    ensures |PlayAll(p, ns).log| >= |p.log| && PlayAll(p, ns).log[..|p.log|] == p.log
    decreases |ns|
  {
    if ns != [] {
      var (ready, next) := Pushed(p.assembly, ns[0]);
      SendAllFirst(p.(assembly := next, ticks := TicksAfter(p.ticks, ns[0])), ready);
      PlayAllGrows(Play(p, ns[0]), ns[1..]);
      var q, r := Play(p, ns[0]), PlayAll(p, ns);
      assert r.log[..|p.log|] == r.log[..|q.log|][..|p.log|];
    }
  }

  /** The first access unit of a run carries the first timestamp. */
  lemma FirstTimestamp(sequence: u16, timestamp: u32, ns: seq<nal>)
    ensures var log := Run(sequence, timestamp, ns).log;
            log != [] ==> log[0].timestamp == timestamp
  {
    var p := PlayAll(Start(sequence, timestamp), ns);
    PlayAllFirst(Start(sequence, timestamp), ns);
    var (ready, next) := Flushed(p.assembly);
    var q := SendAll(p.(assembly := next), ready);
    SendAllFirst(p.(assembly := next), ready);
    assert p.log != [] ==> q.log[0] == q.log[..|p.log|][0];
  }

  /** A camera that writes a parameter set with timing `t`, escaped and packed, is streamed at `t`
      from there until another one comes. */
  lemma PacedByParameterSet(sequence: u16, timestamp: u32, before: seq<nal>, header: byte, s: Sps.Set, rest: bits,
                            behind: seq<nal>, t: nat)
    requires header % 32 == 7 && |s.Put(rest)| % 8 == 0 && s.Good() && (s.usability.Some? ==> s.usability.value.signal.None?)
    requires Sps.Announced(s) == Some(t) && forall n | n in behind :: Sps.FrameTicks(n).None?
    ensures var held := |PlayAll(Start(sequence, timestamp), before).log|;
            Paced(Run(sequence, timestamp, before + [EscapedUnit(header, Pack(s.Put(rest)))] + behind).log, held, t)
  {
    Sps.TicksReadBack(header, s, rest);
    PacedByLast(sequence, timestamp, before, EscapedUnit(header, Pack(s.Put(rest))), behind, t);
  }

  // ---- Sequence numbers ----

  /** The access units of a log number their packets from `sequence` up to, not including, `next`. */
  ghost predicate Numbers(log: seq<Sent>, sequence: u16, next: u16)
    decreases |log|
  {
    if log == [] then next == sequence
    else log[0].sequence == sequence && Numbers(log[1..], Plus(sequence, |AllPayloads(log[0].units)|), next)
  }

  lemma {:induction false} NumbersSnoc(log: seq<Sent>, sequence: u16, s: Sent)
    requires Numbers(log, sequence, s.sequence)
    ensures Numbers(log + [s], sequence, Plus(s.sequence, |AllPayloads(s.units)|))
    decreases |log|
  {
    if log == [] {
      assert (log + [s])[1..] == [];
    } else {
      assert (log + [s])[1..] == log[1..] + [s];
      NumbersSnoc(log[1..], Plus(sequence, |AllPayloads(log[0].units)|), s);
    }
  }

  lemma {:induction false} SendAllNumbers(p: Player, ready: seq<accessUnit>, sequence: u16)
    requires Numbers(p.log, sequence, p.sequence)
    ensures Numbers(SendAll(p, ready).log, sequence, SendAll(p, ready).sequence)
    decreases |ready|
  {
    if ready != [] {
      NumbersSnoc(p.log, sequence, Sent(ready[0], p.sequence, p.timestamp));
      SendAllNumbers(Send(p, ready[0]), ready[1..], sequence);
    }
  }

  lemma {:induction false} PlayAllNumbers(p: Player, ns: seq<nal>, sequence: u16)
    requires Numbers(p.log, sequence, p.sequence)
    ensures Numbers(PlayAll(p, ns).log, sequence, PlayAll(p, ns).sequence)
    decreases |ns|
  {
    if ns != [] {
      var (ready, next) := Pushed(p.assembly, ns[0]);
      SendAllNumbers(p.(assembly := next, ticks := TicksAfter(p.ticks, ns[0])), ready, sequence);
      PlayAllNumbers(Play(p, ns[0]), ns[1..], sequence);
    }
  }

  lemma PlusPlus(sequence: u16, a: nat, b: nat)
    ensures Plus(Plus(sequence, a), b) == Plus(sequence, a + b)
  {
  }

  lemma {:induction false} PacketNumbered(log: seq<Sent>, ssrc: u32, sequence: u16, next: u16, k: nat)
    requires Numbers(log, sequence, next) && k < |AllPackets(log, ssrc)|
    ensures |AllPackets(log, ssrc)[k]| >= 12 && Sequence(AllPackets(log, ssrc)[k]) == Plus(sequence, k)
    decreases |log|
  {
    var payloads := AllPayloads(log[0].units);
    var packets := PacketsOf(log[0], ssrc);
    PacketCount(payloads, sequence, Stamp(log[0].timestamp, ssrc), true);
    if k < |packets| {
      PacketsRead(payloads, sequence, Stamp(log[0].timestamp, ssrc), true, k);
    } else {
      PacketNumbered(log[1..], ssrc, Plus(sequence, |payloads|), next, k - |payloads|);
      PlusPlus(sequence, |payloads|, k - |payloads|);
    }
  }

  lemma PacketCount(payloads: seq<bytes>, sequence: u16, stamp: Stamp, marker: bool)
    ensures |Packets(payloads, sequence, stamp, marker)| == |payloads|
  {
    if payloads != [] {
      PacketFields(payloads, sequence, stamp, marker, 0);
    }
  }

  // ---- From the chunks of the subscription to the units of the client ----

  lemma {:induction false} AllPacketsPayloads(log: seq<Sent>, ssrc: u32)
    ensures PayloadsOf(AllPackets(log, ssrc)) == AllPayloads(Concat(SentUnits(log)))
    decreases |log|
  {
    if log != [] {
      AllPacketsPayloads(log[1..], ssrc);
      PayloadsOfAppend(PacketsOf(log[0], ssrc), AllPackets(log[1..], ssrc));
      PayloadsOfPackets(AllPayloads(log[0].units), log[0].sequence, Stamp(log[0].timestamp, ssrc), true);
      AllPayloadsAppend(log[0].units, Concat(SentUnits(log[1..])));
    }
  }

  lemma AllShort(ns: seq<nal>, sequence: u16, stamp: Stamp, marker: bool)
    ensures forall p :: p in Packets(AllPayloads(ns), sequence, stamp, marker) ==> Short(p)
  {
    var payloads := AllPayloads(ns);
    var packets := Packets(payloads, sequence, stamp, marker);
    forall p | p in packets
      ensures Short(p)
    {
      var k: nat :| k < |packets| && packets[k] == p;
      PacketCount(payloads, sequence, stamp, marker);
      PacketFields(payloads, sequence, stamp, marker, k);
      AllPayloadsFit(ns, k);
    }
  }

  lemma {:induction false} AllPacketsShort(log: seq<Sent>, ssrc: u32)
    ensures forall p :: p in AllPackets(log, ssrc) ==> Short(p)
    decreases |log|
  {
    if log != [] {
      AllShort(log[0].units, log[0].sequence, Stamp(log[0].timestamp, ssrc), true);
      AllPacketsShort(log[1..], ssrc);
    }
  }

  /** The bytes a connection carries for a log of access units. */
  function Sending(channel: byte, log: seq<Sent>, ssrc: u32): bytes {
    AllPacketsShort(log, ssrc);
    Wire(channel, AllPackets(log, ssrc))
  }

  /** What a client puts together from the bytes of the connection. */
  function ClientUnits(channel: byte, b: bytes): seq<nal> {
    TakeAll(Receiver([], None), PayloadsOf(Unwire(channel, b))).units
  }

  /** End to end: whatever chunks the subscription yields until it ends, the client puts together
      the units of the whole stream, in order, up to a rest without a slice; and the packets count
      on from the first sequence number. */
  lemma ClientReceives(channel: byte, ssrc: u32, sequence: u16, timestamp: u32, chunks: seq<bytes>)
    requires forall n :: n in Split(Concat(chunks)).units ==> Carried(n)
    ensures var run := Run(sequence, timestamp, Feed([], chunks).units);
            var b := Sending(channel, run.log, ssrc);
            && ClientUnits(channel, b) + run.assembly.units == Split(Concat(chunks)).units
            && !HasSlice(run.assembly.units)
            && forall k: nat :: k < |Unwire(channel, b)| ==> |Unwire(channel, b)[k]| >= 12 && Sequence(Unwire(channel, b)[k]) == Plus(sequence, k)
  {
    FeedOfStream(chunks);
    var ns := Split(Concat(chunks)).units;
    var run := Run(sequence, timestamp, ns);
    RunSendsUnits(sequence, timestamp, ns);
    CarriedFront(Concat(SentUnits(run.log)), run.assembly.units, ns);
    ClientOf(channel, run.log, ssrc);
    RunNumbers(sequence, timestamp, ns, ssrc);
  }

  lemma FeedOfStream(chunks: seq<bytes>)
    ensures Feed([], chunks) == Split(Concat(chunks))
  {
    FeedIsSplit([], chunks);
    assert [] + Concat(chunks) == Concat(chunks);
  }

  lemma CarriedFront(front: seq<nal>, back: seq<nal>, ns: seq<nal>)
    requires front + back == ns && forall n :: n in ns ==> Carried(n)
    ensures forall n :: n in front ==> Carried(n)
  {
    assert forall n :: n in front ==> n in front + back;
  }

  lemma ClientOf(channel: byte, log: seq<Sent>, ssrc: u32)
    requires forall n :: n in Concat(SentUnits(log)) ==> Carried(n)
    ensures Unwire(channel, Sending(channel, log, ssrc)) == AllPackets(log, ssrc)
    ensures ClientUnits(channel, Sending(channel, log, ssrc)) == Concat(SentUnits(log))
  {
    var units := Concat(SentUnits(log));
    AllPacketsShort(log, ssrc);
    UnwireWire(channel, AllPackets(log, ssrc));
    AllPacketsPayloads(log, ssrc);
    UnitsArrive([], units);
    assert [] + units == units;
  }

  lemma RunNumbers(sequence: u16, timestamp: u32, ns: seq<nal>, ssrc: u32)
    ensures var packets := AllPackets(Run(sequence, timestamp, ns).log, ssrc);
            forall k: nat :: k < |packets| ==> |packets[k]| >= 12 && Sequence(packets[k]) == Plus(sequence, k)
  {
    var p := PlayAll(Start(sequence, timestamp), ns);
    PlayAllNumbers(Start(sequence, timestamp), ns, sequence);
    var (ready, assembly) := Flushed(p.assembly);
    SendAllNumbers(p.(assembly := assembly), ready, sequence);
    var last := Run(sequence, timestamp, ns);
    forall k: nat | k < |AllPackets(last.log, ssrc)|
      ensures |AllPackets(last.log, ssrc)[k]| >= 12 && Sequence(AllPackets(last.log, ssrc)[k]) == Plus(sequence, k)
    {
      PacketNumbered(last.log, ssrc, sequence, last.sequence, k);
    }
  }

  /** The same for a stream that was written unit by unit: the client gets a prefix of its units,
      without the last one, which no start code closes, and without a tail that holds no slice. */
  lemma ClientReadsStream(channel: byte, ssrc: u32, sequence: u16, timestamp: u32, us: seq<Coded>, chunks: seq<bytes>)
    requires us != [] && Clean(us[|us| - 1].unit) && Concat(chunks) == Serialize(us)
    requires forall k :: 0 <= k < |us| - 1 ==> Closable(us[k].unit) && Carried(us[k].unit)
    ensures var run := Run(sequence, timestamp, Feed([], chunks).units);
            && ClientUnits(channel, Sending(channel, run.log, ssrc)) + run.assembly.units == Units(us[..|us| - 1])
            && !HasSlice(run.assembly.units)
  {
    SplitSerialize(us);
    UnitsOf(us[..|us| - 1]);
    ClientReceives(channel, ssrc, sequence, timestamp, chunks);
  }

  lemma {:induction false} UnitsOf(us: seq<Coded>)
    ensures forall n :: n in Units(us) ==> exists k :: 0 <= k < |us| && us[k].unit == n
  {
    if us != [] {
      UnitsOf(us[1..]);
      forall n | n in Units(us)
        ensures exists k :: 0 <= k < |us| && us[k].unit == n
      {
        if n in Units(us[1..]) {
          var k :| 0 <= k < |us[1..]| && us[1..][k].unit == n;
          assert us[k + 1].unit == n;
        } else {
          assert us[0].unit == n;
        }
      }
    }
  }

  // ---- The loop ----

  /** The packets of the first units of an access unit, none of which is marked. */
  function Unmarked(units: accessUnit, sequence: u16, stamp: Stamp): seq<bytes> {
    Packets(AllPayloads(units), sequence, stamp, false)
  }

  lemma OneMoreUnit(units: accessUnit, i: nat, sequence: u16, stamp: Stamp, marker: bool)
    requires i < |units|
    ensures Packets(AllPayloads(units[..i + 1]), sequence, stamp, marker)
         == Unmarked(units[..i], sequence, stamp)
          + Packets(Payloads(units[i]), Plus(sequence, |AllPayloads(units[..i])|), stamp, marker)
    ensures |AllPayloads(units[..i + 1])| == |AllPayloads(units[..i])| + |Payloads(units[i])|
  {
    var one: seq<nal> := [units[i]];
    assert units[..i + 1] == units[..i] + one && one[1..] == [];
    AllPayloadsAppend(units[..i], one);
    assert AllPayloads(one) == Payloads(units[i]) + [] == Payloads(units[i]);
    PacketsAppend(AllPayloads(units[..i]), Payloads(units[i]), sequence, stamp, marker);
  }

  lemma WireSnoc(channel: byte, packets: seq<bytes>, i: nat)
    requires i < |packets| && forall p :: p in packets ==> Short(p)
    ensures Wire(channel, packets[..i + 1]) == Wire(channel, packets[..i]) + Interleaved(channel, packets[i])
  {
    var one: seq<bytes> := [packets[i]];
    assert packets[..i + 1] == packets[..i] + one;
    WireAppend(channel, packets[..i], one);
    assert one[1..] == [];
  }

  /** The bytes that carry some units on the connection. */
  function Framed(channel: byte, ns: seq<nal>, sequence: u16, stamp: Stamp, marker: bool): bytes {
    AllShort(ns, sequence, stamp, marker);
    Wire(channel, Packets(AllPayloads(ns), sequence, stamp, marker))
  }

  lemma UnitFits(n: nal, sequence: u16, stamp: Stamp, marker: bool)
    ensures forall p :: p in Packets(Payloads(n), sequence, stamp, marker) ==> Short(p)
  {
    var one: seq<nal> := [n];
    AllShort(one, sequence, stamp, marker);
    assert one[1..] == [];
    assert AllPayloads(one) == Payloads(n) + [] == Payloads(n);
  }

  function UnitFramed(channel: byte, n: nal, sequence: u16, stamp: Stamp, marker: bool): bytes {
    UnitFits(n, sequence, stamp, marker);
    Wire(channel, Packets(Payloads(n), sequence, stamp, marker))
  }

  lemma FramedOneMore(channel: byte, units: accessUnit, i: nat, sequence: u16, stamp: Stamp, marker: bool)
    requires i < |units|
    ensures var next := Plus(sequence, |AllPayloads(units[..i])|);
            && Framed(channel, units[..i + 1], sequence, stamp, marker)
               == Framed(channel, units[..i], sequence, stamp, false) + UnitFramed(channel, units[i], next, stamp, marker)
            && Plus(sequence, |AllPayloads(units[..i + 1])|) == Plus(next, |Payloads(units[i])|)
  {
    var next := Plus(sequence, |AllPayloads(units[..i])|);
    OneMoreUnit(units, i, sequence, stamp, marker);
    PlusPlus(sequence, |AllPayloads(units[..i])|, |Payloads(units[i])|);
    AllShort(units[..i], sequence, stamp, false);
    AllShort(units[..i + 1], sequence, stamp, marker);
    UnitFits(units[i], next, stamp, marker);
    WireAppend(channel, Unmarked(units[..i], sequence, stamp), Packets(Payloads(units[i]), next, stamp, marker));
  }

  function NextAfter(units: accessUnit, index: nat, start: u16): u16
    requires index <= |units|
  {
    Plus(start, |AllPayloads(units[..index])|)
  }

  /** The bytes once `index` units of an access unit are sent. */
  function FramedUpTo(channel: byte, units: accessUnit, index: nat, start: u16, stamp: Stamp): bytes
    requires index <= |units|
  {
    Framed(channel, units[..index], start, stamp, index == |units|)
  }

  lemma FramedStep(channel: byte, units: accessUnit, index: nat, start: u16, stamp: Stamp)
    requires index < |units|
    ensures FramedUpTo(channel, units, index + 1, start, stamp)
         == FramedUpTo(channel, units, index, start, stamp)
          + UnitFramed(channel, units[index], NextAfter(units, index, start), stamp, index == |units| - 1)
    ensures NextAfter(units, index + 1, start) == Plus(NextAfter(units, index, start), |Payloads(units[index])|)
  {
    FramedOneMore(channel, units, index, start, stamp, index == |units| - 1);
  }

  lemma {:induction false} AllPacketsSnoc(log: seq<Sent>, s: Sent, ssrc: u32)
    ensures AllPackets(log + [s], ssrc) == AllPackets(log, ssrc) + PacketsOf(s, ssrc)
    decreases |log|
  {
    if log == [] {
      assert (log + [s])[1..] == [];
      assert [] + PacketsOf(s, ssrc) == PacketsOf(s, ssrc) == PacketsOf(s, ssrc) + [];
    } else {
      assert (log + [s])[1..] == log[1..] + [s];
      AllPacketsSnoc(log[1..], s, ssrc);
      Together(PacketsOf(log[0], ssrc), AllPackets(log[1..], ssrc), PacketsOf(s, ssrc));
    }
  }

  lemma SendingSnoc(channel: byte, log: seq<Sent>, s: Sent, ssrc: u32)
    ensures Sending(channel, log + [s], ssrc)
         == Sending(channel, log, ssrc) + Framed(channel, s.units, s.sequence, Stamp(s.timestamp, ssrc), true)
  {
    AllPacketsSnoc(log, s, ssrc);
    AllPacketsShort(log, ssrc);
    AllShort(s.units, s.sequence, Stamp(s.timestamp, ssrc), true);
    WireAppend(channel, AllPackets(log, ssrc), PacketsOf(s, ssrc));
  }

  /** One client connection while it streams: the variables of `_stream`, the bytes sent, and the
      log of the access units behind them. */
  class Client {
    const channel: byte
    const ssrc: u32
    const splitter: Splitter
    const assembler: Assembler
    var sequence: u16
    var timestamp: u32
    var ticks: nat
    var wire: bytes
    ghost var log: seq<Sent>

    constructor (channel: byte, ssrc: u32, sequence: u16, timestamp: u32)
      ensures Valid() && View() == Start(sequence, timestamp) && splitter.carry == [] && wire == []
      ensures this.channel == channel && this.ssrc == ssrc
      ensures fresh(splitter) && fresh(assembler)
    {
      this.channel, this.ssrc := channel, ssrc;
      this.sequence, this.timestamp := sequence, timestamp;
      splitter := new Splitter();
      assembler := new Assembler();
      ticks := FRAME_TICKS;
      wire := [];
      log := [];
    }

    ghost predicate Valid()
      reads this, assembler
    {
      assembler.View().Good() && wire == Sending(channel, log, ssrc)
    }

    ghost function View(): Player
      reads this, assembler
    {
      Player(assembler.View(), ticks, sequence, timestamp, log)
    }

    method SendPackets(numbered: seq<(bytes, u16)>, start: u16, ghost packets: seq<bytes>) returns (next: u16)
      requires numbered == Numbered(packets, start) && forall p :: p in packets ==> Short(p)
      modifies `wire
      ensures wire == old(wire) + Wire(channel, packets)
      ensures next == Plus(start, |packets|)
    {
      next := start;
      assert packets != [] ==> |numbered| == |packets| by {
        if packets != [] {
          NumberedAt(packets, start, 0);
        }
      }
      for i := 0 to |numbered|
        invariant wire == old(wire) + Wire(channel, packets[..i])
        invariant next == Plus(start, i)
      {
        NumberedAt(packets, start, i);
        WireSnoc(channel, packets, i);
        var packet := numbered[i].0;
        wire := wire + Interleaved(channel, packet);
        next := numbered[i].1;
      }
      assert packets[..|packets|] == packets;
    }

    method SendUnit(n: nal, start: u16, stamp: Stamp, marker: bool) returns (next: u16)
      modifies `wire
      ensures wire == old(wire) + UnitFramed(channel, n, start, stamp, marker)
      ensures next == Plus(start, |Payloads(n)|)
    {
      UnitFits(n, start, stamp, marker);
      PacketCount(Payloads(n), start, stamp, marker);
      var numbered := RtpPackets(n, start, stamp, marker);
      next := SendPackets(numbered, start, Packets(Payloads(n), start, stamp, marker));
    }

    /** `_send_access_unit`. */
    method SendAccessUnit(units: accessUnit, start: u16, timestamp: u32) returns (next: u16)
      modifies `wire
      ensures wire == old(wire) + Framed(channel, units, start, Stamp(timestamp, ssrc), true)
      ensures next == Plus(start, |AllPayloads(units)|)
    {
      var stamp := Stamp(timestamp, ssrc);
      next := start;
      for index := 0 to |units|
        invariant wire == old(wire) + FramedUpTo(channel, units, index, start, stamp)
        invariant next == NextAfter(units, index, start)
      {
        FramedStep(channel, units, index, start, stamp);
        Together(old(wire), FramedUpTo(channel, units, index, start, stamp),
                 UnitFramed(channel, units[index], next, stamp, index == |units| - 1));
        next := SendUnit(units[index], next, stamp, index == |units| - 1);
      }
      assert units[..|units|] == units;
    }

    /** The access units that one push or the flush makes ready, under the current clock. */
    method SendReady(ready: seq<accessUnit>)
      requires Valid()
      modifies this
      ensures Valid()
      ensures View() == SendAll(old(View()), ready)
    {
      ghost var start := View();
      for i := 0 to |ready|
        invariant Valid() && assembler.View() == start.assembly
        invariant SendAll(View(), ready[i..]) == SendAll(start, ready)
      {
        ghost var sent := Sent(ready[i], sequence, timestamp);
        SendingSnoc(channel, log, sent, ssrc);
        sequence := SendAccessUnit(ready[i], sequence, timestamp);
        timestamp := Later(timestamp, ticks);
        log := log + [sent];
        assert ready[i..][1..] == ready[i + 1..];
      }
    }

    /** The loop body of `_stream` for one unit. */
    method PlayUnit(n: nal)
      requires Valid()
      modifies this, assembler
      ensures Valid()
      ensures View() == Play(old(View()), n)
    {
      if Kind(n) == 7 {
        var announced := Sps.FrameTicksFromSps(n);
        ticks := if announced.Some? then announced.value else ticks;
      }
      var ready := assembler.Push(n);
      SendReady(ready);
    }

    method PlayUnits(ns: seq<nal>)
      requires Valid()
      modifies this, assembler
      ensures Valid()
      ensures View() == PlayAll(old(View()), ns)
    {
      ghost var start := View();
      for j := 0 to |ns|
        invariant Valid() && PlayAll(View(), ns[j..]) == PlayAll(start, ns)
      {
        assert ns[j..][1..] == ns[j + 1..];
        PlayUnit(ns[j]);
      }
    }

    /** `_stream`, up to the normal end of the subscription. */
    method Stream(chunks: seq<bytes>)
      requires Valid() && splitter.carry == [] && View() == Start(sequence, timestamp)
      modifies this, assembler, splitter
      ensures Valid()
      ensures View() == Run(old(sequence), old(timestamp), Feed([], chunks).units)
      ensures wire == Sending(channel, Run(old(sequence), old(timestamp), Feed([], chunks).units).log, ssrc)
    {
      ghost var start := View();
      ghost var played: seq<nal> := [];
      AfterNothing(Feed([], chunks));
      for i := 0 to |chunks|
        invariant Valid() && View() == PlayAll(start, played)
        invariant Feed(splitter.carry, chunks[i..]).After(played) == Feed([], chunks)
      {
        FeedStep(splitter.carry, chunks, i, played);
        var units := splitter.NalUnits(chunks[i]);
        PlayAllAppend(start, played, units);
        played := played + units;
        PlayUnits(units);
      }
      assert played + [] == played;
      var ready := assembler.Flush();
      SendReady(ready);
    }
  }

  lemma FeedStep(carry: bytes, chunks: seq<bytes>, i: nat, played: seq<nal>)
    requires i < |chunks|
    ensures var first := Split(carry + chunks[i]);
            Feed(carry, chunks[i..]).After(played) == Feed(first.carry, chunks[i + 1..]).After(played + first.units)
  {
    var first := Split(carry + chunks[i]);
    assert chunks[i..][1..] == chunks[i + 1..];
    AfterAfter(Feed(first.carry, chunks[i + 1..]), played, first.units);
  }
}
