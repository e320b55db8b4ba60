/** Two endpoints and the network between them. Copies in the network may be lost, delivered
    more than once and delivered in any order; each carries the bytes an endpoint emitted. */
module TwoParty {
  import opened Bytes
  import opened Sequencing
  import opened Endpoint

  datatype Side = Near | Far

  function Other(x: Side): Side {
    if x == Near then Far else Near
  }

  /** A packet in flight. `index` is bookkeeping: the absolute index of the chunk it is about. */
  datatype Copy = Copy(to: Side, ack: bool, channel: nat, index: nat, packet: bytes)

  /** The program counter of `write`. */
  datatype Job = Idle | Writing(channel: nat, payload: bytes, todo: seq<bytes>)

  /** An endpoint with its bookkeeping, one item a channel: all chunks ever sent, the number of
      chunks sent before the current write, the chunks delivered here, the bytes consumed here.
      A channel has failed once a `write` on it has raised. */
  datatype Node = Node(ep: Endpoint, job: Job, failed: set<nat>,
                       sent: seq<seq<bytes>>, base: seq<nat>, delivered: seq<nat>, consumed: seq<bytes>)

  datatype World = World(near: Node, far: Node, net: set<Copy>)

  function At(w: World, x: Side): Node {
    if x == Near then w.near else w.far
  }

  function With(w: World, x: Side, node: Node): World {
    if x == Near then w.(near := node) else w.(far := node)
  }

  const START := Node(INITIAL, Idle, {}, Eight([]), Eight(0), Eight(0), Eight([]))

  const BEGINNING := World(START, START, {})

  ghost predicate NodeShaped(n: Node) {
    && Shaped(n.ep)
    && |n.sent| == |n.base| == |n.delivered| == |n.consumed| == CHANNELS
    && (forall e :: e in n.ep.pending ==> e.channel < CHANNELS)
    && (n.job.Writing? ==> n.job.channel < CHANNELS && forall c :: c in n.job.todo ==> |c| <= CHUNK_BYTES)
  }

  ghost predicate WorldShaped(w: World) {
    && NodeShaped(w.near) && NodeShaped(w.far)
    && forall m | m in w.net :: m.channel < CHANNELS
  }

  // ---- Steps ----

  datatype Label =
    | Begin(x: Side, channel: nat, payload: bytes)
    | Send(x: Side, now: real)
    | Repeat(x: Side, now: real)
    | Deliver(copy: Copy, keep: bool)
    | Lose(copy: Copy)
    | Read(x: Side, channel: nat, size: nat)
    | Return(x: Side)
    | TimeOut(x: Side)

  /** The absolute index of a pending entry: the one in the current write with its sequence number. */
  function EntryIndex(n: Node, e: Entry): nat
    requires e.channel < |n.base|
  {
    Index(n.base[e.channel], e.sequence)
  }

  function CopyOf(x: Side, n: Node, e: Entry): Copy {
    Copy(Other(x), false, e.channel, if e.channel < |n.base| then EntryIndex(n, e) else 0, e.packet)
  }

  /** `write` may return: every chunk was sent and none of its sequence numbers is pending. */
  ghost predicate MayReturn(n: Node)
    requires NodeShaped(n)
  {
    && n.job.Writing? && n.job.todo == []
    && forall i | n.base[n.job.channel] <= i < |n.sent[n.job.channel]| ::
         !Awaits(n.ep.pending, n.job.channel, Wire(i))
  }

  /** When a step can be taken. */
  ghost predicate Enabled(w: World, l: Label)
    requires WorldShaped(w)
  {
    match l
    case Begin(x, channel, payload) => At(w, x).job.Idle? && channel < CHANNELS
    case Send(x, now) => At(w, x).job.Writing? && At(w, x).job.todo != []
    case Repeat(x, now) => At(w, x).job.Writing? ==> At(w, x).job.todo == []
    case Deliver(copy, keep) =>
      copy in w.net && (At(w, copy.to).job.Writing? ==> At(w, copy.to).job.todo == [])
    case Lose(copy) => copy in w.net
    case Read(x, channel, size) =>
      At(w, x).job.Idle? && channel < CHANNELS && size <= |At(w, x).ep.channels[channel].buffer|
    case Return(x) => MayReturn(At(w, x))
    case TimeOut(x) => At(w, x).job.Writing? && At(w, x).job.todo == []
  }

  ghost function Step(w: World, l: Label): World
    requires WorldShaped(w) && Enabled(w, l)
  {
    match l
    case Begin(x, channel, payload) => DoBegin(w, x, channel, payload)
    case Send(x, now) => DoSend(w, x, now)
    case Repeat(x, now) => DoRepeat(w, x, now)
    case Deliver(copy, keep) => DoDeliver(w, copy, keep)
    case Lose(copy) => w.(net := w.net - {copy})
    case Read(x, channel, size) => DoRead(w, x, channel, size)
    case Return(x) => With(w, x, At(w, x).(job := Idle))
    case TimeOut(x) => With(w, x, Fail(At(w, x)))
  }

  function Fail(n: Node): Node {
    if n.job.Writing? then n.(job := Idle, failed := n.failed + {n.job.channel}) else n
  }

  function DoBegin(w: World, x: Side, channel: nat, payload: bytes): World
    requires |At(w, x).sent| == |At(w, x).base| == CHANNELS && channel < CHANNELS
  {
    var n := At(w, x);
    With(w, x, n.(job := Writing(channel, payload, Chunks(payload)),
                  base := n.base[channel := |n.sent[channel]|]))
  }

  ghost function DoSend(w: World, x: Side, now: real): World
    requires WorldShaped(w) && At(w, x).job.Writing? && At(w, x).job.todo != []
  {
    var n := At(w, x);
    var c, chunk := n.job.channel, n.job.todo[0];
    assert chunk in n.job.todo;
    var (ep, packet) := SendChunk(n.ep, c, chunk, now);
    With(w, x, n.(ep := ep, job := n.job.(todo := n.job.todo[1..]),
                  sent := n.sent[c := n.sent[c] + [chunk]]))
      .(net := w.net + {Copy(Other(x), false, c, |n.sent[c]|, packet)})
  }

  ghost function DoRepeat(w: World, x: Side, now: real): World {
    var n := At(w, x);
    var pass := Resend(n.ep.pending, now);
    var next := n.(ep := n.ep.(pending := pass.pending));
    With(w, x, if pass.ok then next else Fail(next))
      .(net := w.net + set e | e in pass.resent :: CopyOf(x, n, e))
  }

  /** `_pump` hands one arriving packet to the endpoint; an acknowledgement may leave. */
  ghost function DoDeliver(w: World, copy: Copy, keep: bool): World
    requires WorldShaped(w) && copy in w.net
  {
    var y, c := copy.to, copy.channel;
    var n := At(w, y);
    var (ep, reply) := Receive(n.ep, copy.packet);
    var net := if keep then w.net else w.net - {copy};
    var next := n.(ep := ep, delivered := if copy.ack || |ep.channels| != CHANNELS then n.delivered
                                          else n.delivered[c := Advanced(n.delivered[c], ep.channels[c])]);
    With(w, y, next)
      .(net := if reply.None? then net else net + {Copy(Other(y), true, c, copy.index, reply.value)})
  }

  function DoRead(w: World, x: Side, channel: nat, size: nat): World
    requires |At(w, x).consumed| == CHANNELS && Shaped(At(w, x).ep) && channel < CHANNELS
    requires size <= |At(w, x).ep.channels[channel].buffer|
  {
    var n := At(w, x);
    var (ep, data) := TakeBytes(n.ep, channel, size);
    With(w, x, n.(ep := ep, consumed := n.consumed[channel := n.consumed[channel] + data]))
  }

  // ---- Invariant ----

  /** A pending entry of channel `c` holds exactly one packet of the current write. */
  ghost predicate EntryOk(n: Node, c: nat, e: Entry)
    requires NodeShaped(n) && c < CHANNELS
  {
    && e.sequence < MODULUS
    && Index(n.base[c], e.sequence) < |n.sent[c]|
    && |n.sent[c][Index(n.base[c], e.sequence)]| <= CHUNK_BYTES
    && e.packet == DataPacket(c, e.sequence, n.sent[c][Index(n.base[c], e.sequence)])
  }

  ghost predicate EntriesOk(n: Node, c: nat)
    requires NodeShaped(n) && c < CHANNELS
  {
    forall e | e in n.ep.pending && e.channel == c :: EntryOk(n, c, e)
  }

  /** A data copy from `x` carries the chunk it is about. */
  ghost predicate DataOk(n: Node, m: Copy)
    requires NodeShaped(n) && m.channel < CHANNELS
  {
    && m.index < |n.sent[m.channel]|
    && |n.sent[m.channel][m.index]| <= CHUNK_BYTES
    && m.packet == DataPacket(m.channel, Wire(m.index), n.sent[m.channel][m.index])
  }

  /** An acknowledgement on its way to `s` is about a chunk that its peer `r` holds. */
  ghost predicate AckOk(s: Node, r: Node, m: Copy)
    requires NodeShaped(s) && NodeShaped(r) && m.channel < CHANNELS
  {
    && m.index < |s.sent[m.channel]|
    && m.packet == AckPacket(m.channel, Wire(m.index))
    && Held(r.delivered[m.channel], r.ep.channels[m.channel], m.index)
  }

  ghost predicate NetOk(w: World, x: Side, c: nat)
    requires WorldShaped(w) && c < CHANNELS
  {
    forall m | m in w.net && m.channel == c ::
      && (!m.ack && m.to == Other(x) ==> DataOk(At(w, x), m))
      && (m.ack && m.to == x ==> AckOk(At(w, x), At(w, Other(x)), m))
  }

  /** The stream from `s` to `r` on channel `c`, whatever became of the writes on it. */
  ghost predicate Stream(s: Node, r: Node, c: nat)
    requires NodeShaped(s) && NodeShaped(r) && c < CHANNELS
  {
    && s.ep.outgoing[c] == Wire(|s.sent[c]|)
    && Tracks(s.sent[c], r.delivered[c], r.consumed[c], r.ep.channels[c])
    && s.base[c] <= r.delivered[c]
  }

  ghost predicate Progress(limit: nat, s: Node, c: nat)
    requires NodeShaped(s) && c < CHANNELS
  {
    if s.job.Writing? && s.job.channel == c then
      && c !in s.failed
      && |s.sent[c]| + |s.job.todo| <= s.base[c] + limit
      && s.base[c] <= |s.sent[c]|
      && s.sent[c][s.base[c]..] + s.job.todo == Chunks(s.job.payload)
    else
      s.base[c] <= |s.sent[c]| <= s.base[c] + limit
  }

  /** A chunk of the current write is still pending or is held by the peer. */
  ghost predicate Covered(s: Node, r: Node, c: nat, i: nat)
    requires NodeShaped(s) && NodeShaped(r) && c < CHANNELS
  {
    Awaits(s.ep.pending, c, Wire(i)) || Held(r.delivered[c], r.ep.channels[c], i)
  }

  /** While no write on the channel has raised: chunks of the current write are covered, and
      between writes everything is delivered and nothing is pending. */
  ghost predicate Live(s: Node, r: Node, c: nat)
    requires NodeShaped(s) && NodeShaped(r) && c < CHANNELS
  {
    c !in s.failed ==>
      && (forall i | s.base[c] <= i < |s.sent[c]| :: Covered(s, r, c, i))
      && (!(s.job.Writing? && s.job.channel == c) ==>
            r.delivered[c] == |s.sent[c]| && forall e | e in s.ep.pending :: e.channel != c)
  }

  ghost predicate FlowOk(limit: nat, w: World, x: Side, c: nat)
    requires WorldShaped(w) && c < CHANNELS
  {
    && Stream(At(w, x), At(w, Other(x)), c)
    && Progress(limit, At(w, x), c)
    && EntriesOk(At(w, x), c)
    && NetOk(w, x, c)
    && Live(At(w, x), At(w, Other(x)), c)
  }

  /** The copies that matter to the stream from `x` on channel `c`. */
  ghost predicate Concerns(m: Copy, x: Side, c: nat) {
    m.channel == c && m.to == if m.ack then x else Other(x)
  }

  /** The one stream a theorem is about: who sends it and on which channel, the most chunks a write
      on it may have, and how many later chunks of it a data copy may outlive. */
  datatype Focus = Focus(x: Side, c: nat, limit: nat, age: nat)

  ghost predicate Inv(f: Focus, w: World) {
    WorldShaped(w) && f.c < CHANNELS && FlowOk(f.limit, w, f.x, f.c)
  }

  /** What is asked of the stream in focus, and of no other: writes within the limit, and none
      after one that raised. */
  ghost predicate Allowed(f: Focus, w: World, l: Label) {
    l.Begin? && l.x == f.x && l.channel == f.c ==> f.c !in At(w, f.x).failed && |Chunks(l.payload)| <= f.limit
  }

  /** No data copy of the stream outlives more than `age` later chunks, and no acknowledgement the
      reuse of its sequence number. */
  ghost predicate NoStaleCopies(f: Focus, w: World)
    requires WorldShaped(w) && f.c < CHANNELS
  {
    forall m | m in w.net && Concerns(m, f.x, f.c) ::
      |At(w, f.x).sent[f.c]| <= m.index + if m.ack then MODULUS else f.age
  }

  /** Every packet that is pending or in flight belongs to the channel it is booked under. */
  ghost predicate Plain(w: World) {
    && (forall e | e in w.near.ep.pending :: IsDataFor(e.packet, e.channel))
    && (forall e | e in w.far.ep.pending :: IsDataFor(e.packet, e.channel))
    && (forall m | m in w.net :: if m.ack then IsAckFor(m.packet, m.channel) else IsDataFor(m.packet, m.channel))
  }

  lemma BeginningOk(f: Focus)
    requires f.c < CHANNELS
    ensures Inv(f, BEGINNING) && NoStaleCopies(f, BEGINNING) && Plain(BEGINNING)
  {
    var empty: seq<bytes> := [];
    assert empty[..0] == [];
    assert Tracks(empty, 0, [], Channel(0, [], map[]));
  }

  // ---- Frames ----

  ghost predicate SameEntries(a: Node, b: Node, c: nat) {
    forall e: Entry | e.channel == c :: e in a.ep.pending <==> e in b.ep.pending
  }

  ghost predicate SameWriter(a: Node, b: Node, c: nat)
    requires NodeShaped(a) && NodeShaped(b) && c < CHANNELS
  {
    && a.ep.outgoing[c] == b.ep.outgoing[c] && a.sent[c] == b.sent[c] && a.base[c] == b.base[c]
    && (c in a.failed <==> c in b.failed)
    && ((a.job.Writing? && a.job.channel == c) || (b.job.Writing? && b.job.channel == c) ==> a.job == b.job)
  }

  ghost predicate SameReader(a: Node, b: Node, c: nat)
    requires NodeShaped(a) && NodeShaped(b) && c < CHANNELS
  {
    a.delivered[c] == b.delivered[c] && a.consumed[c] == b.consumed[c] && a.ep.channels[c] == b.ep.channels[c]
  }

  /** A stream none of whose parts changed keeps its invariant; copies may disappear. */
  lemma FlowFrame(limit: nat, w: World, v: World, x: Side, c: nat)
    requires WorldShaped(w) && WorldShaped(v) && c < CHANNELS && FlowOk(limit, w, x, c)
    requires SameWriter(At(w, x), At(v, x), c) && SameEntries(At(w, x), At(v, x), c)
    requires SameReader(At(w, Other(x)), At(v, Other(x)), c)
    requires forall m | m in v.net && Concerns(m, x, c) :: m in w.net
    ensures FlowOk(limit, v, x, c)
  {
    var s, t := At(w, x), At(v, x);
    assert EntriesOk(t, c) by {
      forall e | e in t.ep.pending && e.channel == c
        ensures EntryOk(t, c, e)
      {
        assert EntryOk(s, c, e);
      }
    }
    assert NetOk(v, x, c) by {
      forall m | m in v.net && Concerns(m, x, c)
        ensures m.ack ==> AckOk(t, At(v, Other(x)), m)
        ensures !m.ack ==> DataOk(t, m)
      {
        assert m in w.net;
      }
    }
    LiveFrame(s, t, At(w, Other(x)), At(v, Other(x)), c);
  }

  lemma LiveFrame(s: Node, t: Node, r: Node, u: Node, c: nat)
    requires NodeShaped(s) && NodeShaped(t) && NodeShaped(r) && NodeShaped(u) && c < CHANNELS
    requires Live(s, r, c) && SameWriter(s, t, c) && SameEntries(s, t, c) && SameReader(r, u, c)
    ensures Live(t, u, c)
  {
    if c !in t.failed {
      forall i | t.base[c] <= i < |t.sent[c]|
        ensures Covered(t, u, c, i)
      {
        assert Covered(s, r, c, i);
      }
    }
  }

  // ---- Losing, reading ----

  lemma LoseKeeps(f: Focus, w: World, copy: Copy)
    requires Inv(f, w) && copy in w.net
    ensures Inv(f, w.(net := w.net - {copy}))
  {
    FlowFrame(f.limit, w, w.(net := w.net - {copy}), f.x, f.c);
  }

  lemma ReadFlow(limit: nat, w: World, x: Side, channel: nat, size: nat)
    requires WorldShaped(w) && Enabled(w, Read(x, channel, size)) && FlowOk(limit, w, Other(x), channel)
    ensures WorldShaped(DoRead(w, x, channel, size))
    ensures FlowOk(limit, DoRead(w, x, channel, size), Other(x), channel)
  {
    var v, y := DoRead(w, x, channel, size), Other(x);
    var s, r, u := At(w, y), At(w, x), At(v, x);
    assert FlowOk(limit, w, y, channel) && Other(y) == x;
    TakeTracks(s.sent[channel], r.delivered[channel], r.consumed[channel], r.ep.channels[channel], size);
    assert At(v, y) == s;
    assert NetOk(v, y, channel) by {
      forall m | m in v.net && Concerns(m, y, channel)
        ensures m.ack ==> AckOk(s, u, m)
        ensures !m.ack ==> DataOk(s, m)
      {
        assert m in w.net;
      }
    }
    assert Live(s, u, channel) by {
      if channel !in s.failed {
        forall i | s.base[channel] <= i < |s.sent[channel]|
          ensures Covered(s, u, channel, i)
        {
          assert Covered(s, r, channel, i);
        }
      }
    }
  }

  lemma ReadKeeps(f: Focus, w: World, x: Side, channel: nat, size: nat)
    requires Inv(f, w) && Enabled(w, Read(x, channel, size))
    ensures Inv(f, DoRead(w, x, channel, size))
  {
    if f.x == Other(x) && f.c == channel {
      ReadFlow(f.limit, w, x, channel, size);
    } else {
      FlowFrame(f.limit, w, DoRead(w, x, channel, size), f.x, f.c);
    }
  }

  // ---- Starting and ending a write ----

  /** The heart of the matter: `write` waits until nothing it sent is pending, every chunk that
      is not pending is held by the peer, and the peer never holds the chunk it is waiting for
      in its reorder buffer. So nothing is missing. */
  lemma ReturnDelivered(limit: nat, w: World, x: Side)
    requires WorldShaped(w) && MayReturn(At(w, x)) && FlowOk(limit, w, x, At(w, x).job.channel)
    ensures var c := At(w, x).job.channel;
            At(w, Other(x)).delivered[c] == |At(w, x).sent[c]|
    ensures forall e | e in At(w, x).ep.pending :: e.channel != At(w, x).job.channel
  {
    var s, r := At(w, x), At(w, Other(x));
    var c := s.job.channel;
    assert FlowOk(limit, w, x, c);
    forall i | s.base[c] <= i < |s.sent[c]|
      ensures Held(r.delivered[c], r.ep.channels[c], i)
    {
      assert Covered(s, r, c, i);
    }
    NextNotHeld(s.sent[c], r.delivered[c], r.consumed[c], r.ep.channels[c]);
    forall e | e in s.ep.pending
      ensures e.channel != c
    {
      if e.channel == c {
        assert EntryOk(s, c, e);
        var i := Index(s.base[c], e.sequence);
        IndexWire(s.base[c], e.sequence);
        assert Awaits(s.ep.pending, c, Wire(i));
      }
    }
  }

  lemma NetUnchanged(w: World, v: World, x: Side, c: nat)
    requires WorldShaped(w) && WorldShaped(v) && c < CHANNELS && NetOk(w, x, c)
    requires At(w, x).sent == At(v, x).sent && SameReader(At(w, Other(x)), At(v, Other(x)), c)
    requires forall m | m in v.net && Concerns(m, x, c) :: m in w.net
    ensures NetOk(v, x, c)
  {
    forall m | m in v.net && Concerns(m, x, c)
      ensures m.ack ==> AckOk(At(v, x), At(v, Other(x)), m)
      ensures !m.ack ==> DataOk(At(v, x), m)
    {
      assert m in w.net;
    }
  }

  lemma EntriesUnchanged(s: Node, t: Node, c: nat)
    requires NodeShaped(s) && NodeShaped(t) && c < CHANNELS && EntriesOk(s, c)
    requires s.sent[c] == t.sent[c] && s.base[c] == t.base[c] && s.ep.pending == t.ep.pending
    ensures EntriesOk(t, c)
  {
    forall e | e in t.ep.pending && e.channel == c
      ensures EntryOk(t, c, e)
    {
      assert EntryOk(s, c, e);
    }
  }

  lemma EndFlow(limit: nat, w: World, x: Side, failed: bool)
    requires WorldShaped(w) && At(w, x).job.Writing? && At(w, x).job.todo == []
    requires FlowOk(limit, w, x, At(w, x).job.channel)
    requires failed || MayReturn(At(w, x))
    ensures var s := At(w, x);
            FlowOk(limit, With(w, x, if failed then Fail(s) else s.(job := Idle)), x, s.job.channel)
  {
    var s, r := At(w, x), At(w, Other(x));
    var c := s.job.channel;
    var t := if failed then Fail(s) else s.(job := Idle);
    var v := With(w, x, t);
    assert FlowOk(limit, w, x, c);
    EntriesUnchanged(s, t, c);
    NetUnchanged(w, v, x, c);
    assert Live(t, r, c) by {
      if !failed {
        ReturnDelivered(limit, w, x);
      }
    }
  }

  lemma EndKeeps(f: Focus, w: World, x: Side, failed: bool)
    requires Inv(f, w) && At(w, x).job.Writing? && At(w, x).job.todo == []
    requires failed || MayReturn(At(w, x))
    ensures Inv(f, With(w, x, if failed then Fail(At(w, x)) else At(w, x).(job := Idle)))
  {
    hide FlowOk, Chunks;
    if f.x == x && f.c == At(w, x).job.channel {
      EndFlow(f.limit, w, x, failed);
    } else {
      FlowFrame(f.limit, w, With(w, x, if failed then Fail(At(w, x)) else At(w, x).(job := Idle)), f.x, f.c);
    }
  }

  lemma BeginFlow(limit: nat, w: World, x: Side, channel: nat, payload: bytes)
    requires WorldShaped(w) && Enabled(w, Begin(x, channel, payload)) && FlowOk(limit, w, x, channel)
    requires channel !in At(w, x).failed && |Chunks(payload)| <= limit
    ensures FlowOk(limit, DoBegin(w, x, channel, payload), x, channel)
  {
    var v := DoBegin(w, x, channel, payload);
    var s, t, r := At(w, x), At(v, x), At(w, Other(x));
    assert FlowOk(limit, w, x, channel);
    assert t.sent[channel][t.base[channel]..] == [];
    assert Live(s, r, channel);
    assert t.ep.pending == s.ep.pending;
    NetUnchanged(w, v, x, channel);
  }

  lemma BeginKeeps(f: Focus, w: World, x: Side, channel: nat, payload: bytes)
    requires Inv(f, w) && Enabled(w, Begin(x, channel, payload)) && Allowed(f, w, Begin(x, channel, payload))
    ensures Inv(f, DoBegin(w, x, channel, payload))
  {
    if f.x == x && f.c == channel {
      BeginFlow(f.limit, w, x, channel, payload);
    } else {
      FlowFrame(f.limit, w, DoBegin(w, x, channel, payload), f.x, f.c);
    }
  }

  // ---- Sending a chunk ----

  const MAX_LIMIT := 1000

  lemma TracksAppend(sent: seq<bytes>, chunk: bytes, delivered: nat, consumed: bytes, ch: Channel)
    requires Tracks(sent, delivered, consumed, ch)
    ensures Tracks(sent + [chunk], delivered, consumed, ch)
  {
    assert (sent + [chunk])[..delivered] == sent[..delivered];
  }

  lemma NearIndex(base: nat, i: nat)
    requires base <= i < base + MODULUS
    ensures Index(base, Wire(i)) == i
  {
  }

  lemma SendEntries(s: Node, t: Node, c: nat, entry: Entry)
    requires NodeShaped(s) && NodeShaped(t) && c < CHANNELS && EntriesOk(s, c)
    requires s.base[c] == t.base[c] <= |s.sent[c]| < s.base[c] + MODULUS
    requires |s.sent[c]| < |t.sent[c]| && t.sent[c][..|s.sent[c]|] == s.sent[c]
    requires entry.channel == c && entry.sequence == Wire(|s.sent[c]|)
    requires |t.sent[c][|s.sent[c]|]| <= CHUNK_BYTES
    requires entry.packet == DataPacket(c, entry.sequence, t.sent[c][|s.sent[c]|])
    requires t.ep.pending == Put(s.ep.pending, entry)
    ensures EntriesOk(t, c)
  {
    PutMembers(s.ep.pending, entry);
    NearIndex(s.base[c], |s.sent[c]|);
    forall e | e in t.ep.pending && e.channel == c
      ensures EntryOk(t, c, e)
    {
      if e != entry {
        assert EntryOk(s, c, e);
        assert t.sent[c][Index(s.base[c], e.sequence)] == s.sent[c][Index(s.base[c], e.sequence)];
      }
    }
  }

  lemma SendCovered(s: Node, t: Node, r: Node, c: nat, entry: Entry)
    requires NodeShaped(s) && NodeShaped(t) && NodeShaped(r) && c < CHANNELS
    requires s.base[c] == t.base[c] <= |s.sent[c]| < s.base[c] + MODULUS
    requires |t.sent[c]| == |s.sent[c]| + 1
    requires entry.channel == c && entry.sequence == Wire(|s.sent[c]|)
    requires t.ep.pending == Put(s.ep.pending, entry)
    requires forall i | s.base[c] <= i < |s.sent[c]| :: Covered(s, r, c, i)
    ensures forall i | t.base[c] <= i < |t.sent[c]| :: Covered(t, r, c, i)
  {
    PutMembers(s.ep.pending, entry);
    forall i | t.base[c] <= i < |t.sent[c]|
      ensures Covered(t, r, c, i)
    {
      if i < |s.sent[c]| {
        assert Covered(s, r, c, i);
        NearIndex(s.base[c], i);
        NearIndex(s.base[c], |s.sent[c]|);
      }
    }
  }

  lemma SendNet(w: World, v: World, x: Side, c: nat, added: Copy)
    requires WorldShaped(w) && WorldShaped(v) && c < CHANNELS && NetOk(w, x, c)
    requires |At(w, x).sent[c]| <= |At(v, x).sent[c]|
    requires At(v, x).sent[c][..|At(w, x).sent[c]|] == At(w, x).sent[c]
    requires SameReader(At(w, Other(x)), At(v, Other(x)), c)
    requires v.net == w.net + {added} && !added.ack && (added.channel == c && added.to == Other(x) ==> DataOk(At(v, x), added))
    ensures NetOk(v, x, c)
  {
    var s, t := At(w, x), At(v, x);
    forall m | m in v.net && Concerns(m, x, c)
      ensures m.ack ==> AckOk(t, At(v, Other(x)), m)
      ensures !m.ack ==> DataOk(t, m)
    {
      if m != added {
        assert m in w.net;
        assert m.index < |s.sent[c]|;
        assert t.sent[c][m.index] == s.sent[c][m.index];
      }
    }
  }

  /** What sending the chunk behind `entry` changes. */
  ghost predicate Sends(w: World, v: World, x: Side, entry: Entry)
    requires WorldShaped(w) && WorldShaped(v)
  {
    var s, t := At(w, x), At(v, x);
    && s.job.Writing? && s.job.todo != [] && entry.channel == s.job.channel
    && entry.sequence == s.ep.outgoing[entry.channel] && |s.job.todo[0]| <= CHUNK_BYTES
    && entry.packet == DataPacket(entry.channel, entry.sequence, s.job.todo[0])
    && t.job == s.job.(todo := s.job.todo[1..]) && t.failed == s.failed && t.base == s.base
    && t.sent == s.sent[entry.channel := s.sent[entry.channel] + [s.job.todo[0]]]
    && t.delivered == s.delivered && t.consumed == s.consumed && t.ep.channels == s.ep.channels
    && t.ep.outgoing == s.ep.outgoing[entry.channel := (entry.sequence + 1) % MODULUS]
    && t.ep.pending == Put(s.ep.pending, entry)
    && At(v, Other(x)) == At(w, Other(x))
    && v.net == w.net + {Copy(Other(x), false, entry.channel, |s.sent[entry.channel]|, entry.packet)}
  }

  lemma SendEffect(w: World, x: Side, now: real)
    requires WorldShaped(w) && At(w, x).job.Writing? && At(w, x).job.todo != []
    ensures var v := DoSend(w, x, now);
            && WorldShaped(v)
            && exists entry :: Sends(w, v, x, entry)
  {
    hide DataPacket, Put;
    var s := At(w, x);
    var c, chunk := s.job.channel, s.job.todo[0];
    assert chunk in s.job.todo;
    assert forall d :: d in s.job.todo[1..] ==> d in s.job.todo;
    var entry := Entry(c, s.ep.outgoing[c], DataPacket(c, s.ep.outgoing[c], chunk), now, 1);
    PutMembers(s.ep.pending, entry);
    assert Sends(w, DoSend(w, x, now), x, entry);
  }

  lemma SendProgress(limit: nat, s: Node, t: Node, c: nat)
    requires NodeShaped(s) && NodeShaped(t) && c < CHANNELS && Progress(limit, s, c)
    requires s.job.Writing? && s.job.channel == c && s.job.todo != []
    requires t.job == s.job.(todo := s.job.todo[1..]) && t.failed == s.failed && t.base[c] == s.base[c]
    requires t.sent[c] == s.sent[c] + [s.job.todo[0]]
    ensures Progress(limit, t, c)
  {
    var before := s.sent[c][s.base[c]..];
    assert t.sent[c][s.base[c]..] == before + [s.job.todo[0]];
    assert (before + [s.job.todo[0]]) + s.job.todo[1..] == before + s.job.todo;
  }

  lemma SendStream(s: Node, t: Node, r: Node, c: nat, chunk: bytes)
    requires NodeShaped(s) && NodeShaped(t) && NodeShaped(r) && c < CHANNELS && Stream(s, r, c)
    requires t.sent[c] == s.sent[c] + [chunk] && t.base[c] == s.base[c]
    requires t.ep.outgoing[c] == (s.ep.outgoing[c] + 1) % MODULUS
    ensures Stream(t, r, c)
  {
    TracksAppend(s.sent[c], chunk, r.delivered[c], r.consumed[c], r.ep.channels[c]);
    WireStep(|s.sent[c]|);
  }

  lemma SendFlow(limit: nat, w: World, v: World, x: Side, entry: Entry)
    requires limit <= MAX_LIMIT && WorldShaped(w) && WorldShaped(v) && Sends(w, v, x, entry)
    requires FlowOk(limit, w, x, entry.channel)
    ensures FlowOk(limit, v, x, entry.channel)
  {
    var s, t, r := At(w, x), At(v, x), At(w, Other(x));
    var c, n := entry.channel, |s.sent[entry.channel]|;
    assert t.sent[c] == s.sent[c] + [s.job.todo[0]];
    SendProgress(limit, s, t, c);
    SendStream(s, t, r, c, s.job.todo[0]);
    SendEntries(s, t, c, entry);
    SendCovered(s, t, r, c, entry);
    SendNet(w, v, x, c, Copy(Other(x), false, c, n, entry.packet));
  }

  lemma SendElsewhere(limit: nat, w: World, v: World, x: Side, entry: Entry, z: Side, c: nat)
    requires WorldShaped(w) && WorldShaped(v) && Sends(w, v, x, entry)
    requires c < CHANNELS && FlowOk(limit, w, z, c) && !(z == x && c == entry.channel)
    ensures FlowOk(limit, v, z, c)
  {
    PutMembers(At(w, x).ep.pending, entry);
    assert SameEntries(At(w, z), At(v, z), c);
    FlowFrame(limit, w, v, z, c);
  }

  lemma SendKeeps(f: Focus, w: World, x: Side, now: real)
    requires f.limit <= MAX_LIMIT && Inv(f, w) && Enabled(w, Send(x, now))
    ensures Inv(f, DoSend(w, x, now))
  {
    SendEffect(w, x, now);
    var v := DoSend(w, x, now);
    var entry :| Sends(w, v, x, entry);
    if f.x == x && f.c == entry.channel {
      SendFlow(f.limit, w, v, x, entry);
    } else {
      SendElsewhere(f.limit, w, v, x, entry, f.x, f.c);
    }
  }

  // ---- Retransmission ----

  /** What one pass of `_retransmit` changes. */
  ghost predicate Repeats(w: World, v: World, x: Side, pass: Pass)
    requires WorldShaped(w) && WorldShaped(v)
  {
    var s, t := At(w, x), At(v, x);
    && t.ep == s.ep.(pending := pass.pending)
    && (if pass.ok then t == s.(ep := t.ep) else t == Fail(s.(ep := t.ep)))
    && At(v, Other(x)) == At(w, Other(x))
    && forall m | m in v.net && m !in w.net :: exists e :: e in pass.resent && m == CopyOf(x, s, e)
  }

  lemma EntriesInherited(s: Node, t: Node, c: nat)
    requires NodeShaped(s) && NodeShaped(t) && c < CHANNELS && EntriesOk(s, c)
    requires s.sent[c] == t.sent[c] && s.base[c] == t.base[c]
    requires forall e | e in t.ep.pending :: exists o :: o in s.ep.pending && SameKey(o, e)
    ensures EntriesOk(t, c)
  {
    forall e | e in t.ep.pending && e.channel == c
      ensures EntryOk(t, c, e)
    {
      var o :| o in s.ep.pending && SameKey(o, e);
      assert EntryOk(s, c, o);
    }
  }

  lemma RepeatNet(w: World, v: World, x: Side, c: nat, pass: Pass)
    requires WorldShaped(w) && WorldShaped(v) && c < CHANNELS && Repeats(w, v, x, pass)
    requires NetOk(w, x, c) && EntriesOk(At(w, x), c)
    requires forall e | e in pass.resent :: e in At(w, x).ep.pending
    ensures NetOk(v, x, c)
  {
    var s, t := At(w, x), At(v, x);
    forall m | m in v.net && Concerns(m, x, c)
      ensures m.ack ==> AckOk(t, At(v, Other(x)), m)
      ensures !m.ack ==> DataOk(t, m)
    {
      if m !in w.net {
        var e :| e in pass.resent && m == CopyOf(x, s, e);
        assert EntryOk(s, c, e);
        IndexWire(s.base[c], e.sequence);
      }
    }
  }

  lemma RepeatCovered(s: Node, t: Node, r: Node, c: nat, now: real)
    requires NodeShaped(s) && NodeShaped(t) && NodeShaped(r) && c < CHANNELS
    requires Resend(s.ep.pending, now).ok && t.ep.pending == Resend(s.ep.pending, now).pending
    requires s.sent[c] == t.sent[c] && s.base[c] == t.base[c]
    requires forall i | s.base[c] <= i < |s.sent[c]| :: Covered(s, r, c, i)
    ensures forall i | t.base[c] <= i < |t.sent[c]| :: Covered(t, r, c, i)
  {
    ResendKeepsAll(s.ep.pending, now);
    forall i | t.base[c] <= i < |t.sent[c]|
      ensures Covered(t, r, c, i)
    {
      assert Covered(s, r, c, i);
      if Awaits(s.ep.pending, c, Wire(i)) {
        var e :| e in s.ep.pending && e.channel == c && e.sequence == Wire(i);
        var k :| 0 <= k < |s.ep.pending| && s.ep.pending[k] == e;
        assert t.ep.pending[k] in t.ep.pending;
      }
    }
  }

  lemma RepeatLive(s: Node, t: Node, r: Node, c: nat, now: real)
    requires NodeShaped(s) && NodeShaped(t) && NodeShaped(r) && c < CHANNELS
    requires Live(s, r, c) && Stream(s, r, c)
    requires var pass := Resend(s.ep.pending, now);
             && t.ep == s.ep.(pending := pass.pending)
             && (if pass.ok then t == s.(ep := t.ep) else t == Fail(s.(ep := t.ep)))
    ensures Live(t, r, c)
  {
    ResendInventsNothing(s.ep.pending, now);
    if c !in t.failed {
      if Resend(s.ep.pending, now).ok {
        RepeatCovered(s, t, r, c, now);
      }
    }
  }

  lemma RepeatFlow(limit: nat, w: World, v: World, x: Side, c: nat, now: real)
    requires WorldShaped(w) && WorldShaped(v) && c < CHANNELS && FlowOk(limit, w, x, c)
    requires Repeats(w, v, x, Resend(At(w, x).ep.pending, now))
    requires At(w, x).job.Writing? ==> At(w, x).job.todo == []
    ensures FlowOk(limit, v, x, c)
  {
    var s, t, r := At(w, x), At(v, x), At(w, Other(x));
    ResendInventsNothing(s.ep.pending, now);
    ResentWerePending(s.ep.pending, now);
    EntriesInherited(s, t, c);
    RepeatNet(w, v, x, c, Resend(s.ep.pending, now));
    RepeatLive(s, t, r, c, now);
  }

  lemma RepeatEffect(w: World, x: Side, now: real)
    requires WorldShaped(w)
    ensures WorldShaped(DoRepeat(w, x, now))
    ensures Repeats(w, DoRepeat(w, x, now), x, Resend(At(w, x).ep.pending, now))
  {
    ResentWerePending(At(w, x).ep.pending, now);
    ResendInventsNothing(At(w, x).ep.pending, now);
  }

  lemma RepeatKeeps(f: Focus, w: World, x: Side, now: real)
    requires Inv(f, w) && Enabled(w, Repeat(x, now))
    ensures Inv(f, DoRepeat(w, x, now))
  {
    var v := DoRepeat(w, x, now);
    RepeatEffect(w, x, now);
    if f.x == x {
      RepeatFlow(f.limit, w, v, x, f.c, now);
    } else {
      FlowFrame(f.limit, w, v, f.x, f.c);
    }
  }

  // ---- Delivery ----

  /** What the arrival of a data copy at `y` changes. */
  ghost predicate Stores(w: World, v: World, copy: Copy)
    requires WorldShaped(w) && WorldShaped(v) && copy.channel < CHANNELS
  {
    var y, c := copy.to, copy.channel;
    var n, t, x := At(w, y), At(v, y), Other(copy.to);
    && DataOk(At(w, x), copy) && !copy.ack
    && At(v, x) == At(w, x)
    && t == n.(ep := t.ep, delivered := t.delivered)
    && t.ep == n.ep.(channels := t.ep.channels)
    && t.ep.channels == n.ep.channels[c := Accept(n.ep.channels[c], Wire(copy.index), At(w, x).sent[c][copy.index])]
    && t.delivered == n.delivered[c := Advanced(n.delivered[c], t.ep.channels[c])]
    && v.net <= w.net + {Copy(x, true, c, copy.index, AckPacket(c, Wire(copy.index)))}
  }

  lemma StoreEffect(w: World, copy: Copy, keep: bool)
    requires WorldShaped(w) && copy in w.net && !copy.ack && DataOk(At(w, Other(copy.to)), copy)
    ensures WorldShaped(DoDeliver(w, copy, keep))
    ensures Stores(w, DoDeliver(w, copy, keep), copy)
    ensures DoDeliver(w, copy, keep).net
         == (if keep then w.net else w.net - {copy})
          + {Copy(Other(copy.to), true, copy.channel, copy.index, AckPacket(copy.channel, Wire(copy.index)))}
  {
    var chunk := At(w, Other(copy.to)).sent[copy.channel][copy.index];
    ParseDataPacket(copy.channel, Wire(copy.index), chunk);
    assert copy.packet[..2] == [0xF1, 0xD0];
  }

  /** The acknowledgement that leaves is about a chunk that is now held: the reorder buffer has
      room, because at most 65 chunks can be outstanding. */
  lemma StoreHolds(limit: nat, s: Node, r: Node, c: nat, index: nat)
    requires limit <= REORDER_LIMIT + 1 && NodeShaped(s) && NodeShaped(r) && c < CHANNELS
    requires Stream(s, r, c) && |s.sent[c]| <= s.base[c] + limit
    requires index < |s.sent[c]| <= index + HALF
    ensures InWindow(index, r.delivered[c])
    ensures var next := Accept(r.ep.channels[c], Wire(index), s.sent[c][index]);
            Held(Advanced(r.delivered[c], next), next, index)
  {
    var ch := r.ep.channels[c];
    if r.delivered[c] < index && Wire(index) !in ch.reorder {
      RoomForMissing(s.sent[c], r.delivered[c], r.consumed[c], ch, index);
    }
    AcceptHolds(s.sent[c], r.delivered[c], r.consumed[c], ch, index);
  }

  lemma StoreNet(w: World, v: World, copy: Copy)
    requires WorldShaped(w) && WorldShaped(v) && copy.channel < CHANNELS && Stores(w, v, copy)
    requires NetOk(w, Other(copy.to), copy.channel)
    requires var n, t := At(w, copy.to), At(v, copy.to);
             && (forall i :: Held(n.delivered[copy.channel], n.ep.channels[copy.channel], i)
                         ==> Held(t.delivered[copy.channel], t.ep.channels[copy.channel], i))
             && Held(t.delivered[copy.channel], t.ep.channels[copy.channel], copy.index)
    ensures NetOk(v, Other(copy.to), copy.channel)
  {
    var x, c := Other(copy.to), copy.channel;
    forall m | m in v.net && Concerns(m, x, c)
      ensures m.ack ==> AckOk(At(v, x), At(v, copy.to), m)
      ensures !m.ack ==> DataOk(At(v, x), m)
    {
      if m in w.net {
        assert m.ack ==> AckOk(At(w, x), At(w, copy.to), m);
      }
    }
  }

  lemma StoreLive(s: Node, n: Node, t: Node, c: nat)
    requires NodeShaped(s) && NodeShaped(n) && NodeShaped(t) && c < CHANNELS && Live(s, n, c)
    requires n.delivered[c] <= t.delivered[c] <= |s.sent[c]|
    requires forall i :: Held(n.delivered[c], n.ep.channels[c], i) ==> Held(t.delivered[c], t.ep.channels[c], i)
    ensures Live(s, t, c)
  {
    if c !in s.failed {
      forall i | s.base[c] <= i < |s.sent[c]|
        ensures Covered(s, t, c, i)
      {
        assert Covered(s, n, c, i);
      }
    }
  }

  lemma StoreFlow(limit: nat, w: World, v: World, copy: Copy)
    requires limit <= REORDER_LIMIT + 1 && WorldShaped(w) && WorldShaped(v) && copy.channel < CHANNELS
    requires Stores(w, v, copy) && FlowOk(limit, w, Other(copy.to), copy.channel)
    requires |At(w, Other(copy.to)).sent[copy.channel]| <= copy.index + HALF
    ensures FlowOk(limit, v, Other(copy.to), copy.channel)
  {
    var x, c := Other(copy.to), copy.channel;
    var s, n, t := At(w, x), At(w, copy.to), At(v, copy.to);
    StoreHolds(limit, s, n, c, copy.index);
    AcceptTracks(s.sent[c], n.delivered[c], n.consumed[c], n.ep.channels[c], copy.index);
    StoreNet(w, v, copy);
    StoreLive(s, n, t, c);
  }

  /** What the arrival of an acknowledgement at `y` changes. */
  ghost predicate Settles(w: World, v: World, copy: Copy)
    requires WorldShaped(w) && WorldShaped(v) && copy.channel < CHANNELS
  {
    var n, t := At(w, copy.to), At(v, copy.to);
    && copy.ack
    && t == n.(ep := n.ep.(pending := Discard(n.ep.pending, copy.channel, [Wire(copy.index)])))
    && At(v, Other(copy.to)) == At(w, Other(copy.to))
    && v.net <= w.net
  }

  lemma SettleEffect(w: World, copy: Copy, keep: bool)
    requires WorldShaped(w) && copy in w.net && copy.ack
    requires copy.packet == AckPacket(copy.channel, Wire(copy.index))
    ensures WorldShaped(DoDeliver(w, copy, keep))
    ensures Settles(w, DoDeliver(w, copy, keep), copy)
    ensures DoDeliver(w, copy, keep).net == if keep then w.net else w.net - {copy}
  {
    ParseAckPacket(copy.channel, Wire(copy.index));
    assert copy.packet[..2] == [0xF1, 0xD1];
    DiscardMembers(At(w, copy.to).ep.pending, copy.channel, [Wire(copy.index)]);
  }

  lemma SettleCovered(s: Node, t: Node, r: Node, c: nat, index: nat)
    requires NodeShaped(s) && NodeShaped(t) && NodeShaped(r) && c < CHANNELS
    requires t.ep.pending == Discard(s.ep.pending, c, [Wire(index)])
    requires t.base[c] == s.base[c] && t.sent[c] == s.sent[c]
    requires Held(r.delivered[c], r.ep.channels[c], index)
    requires index < |s.sent[c]| <= index + MODULUS && |s.sent[c]| <= s.base[c] + MAX_LIMIT
    requires forall i | s.base[c] <= i < |s.sent[c]| :: Covered(s, r, c, i)
    ensures forall i | t.base[c] <= i < |t.sent[c]| :: Covered(t, r, c, i)
  {
    DiscardMembers(s.ep.pending, c, [Wire(index)]);
    forall i | t.base[c] <= i < |t.sent[c]|
      ensures Covered(t, r, c, i)
    {
      assert Covered(s, r, c, i);
      if Wire(i) == Wire(index) {
        assert i == index;
      }
    }
  }

  lemma SettleFlow(limit: nat, w: World, v: World, copy: Copy)
    requires limit <= MAX_LIMIT && WorldShaped(w) && WorldShaped(v) && copy.channel < CHANNELS
    requires Settles(w, v, copy) && FlowOk(limit, w, copy.to, copy.channel) && copy in w.net
    requires |At(w, copy.to).sent[copy.channel]| <= copy.index + MODULUS
    ensures FlowOk(limit, v, copy.to, copy.channel)
  {
    var x, c := copy.to, copy.channel;
    var s, t, r := At(w, x), At(v, x), At(w, Other(x));
    DiscardMembers(s.ep.pending, c, [Wire(copy.index)]);
    assert EntriesOk(t, c) by {
      forall e | e in t.ep.pending
        ensures exists o :: o in s.ep.pending && SameKey(o, e)
      {
        assert SameKey(e, e);
      }
      EntriesInherited(s, t, c);
    }
    NetUnchanged(w, v, x, c);
    if c !in s.failed {
      assert AckOk(s, r, copy);
      SettleCovered(s, t, r, c, copy.index);
    }
  }

  /** A packet of another stream changes nothing of this one. */
  lemma AckElsewhere(f: Focus, w: World, copy: Copy, keep: bool)
    requires Inv(f, w) && copy in w.net && copy.ack && !Concerns(copy, f.x, f.c) && IsAckFor(copy.packet, copy.channel)
    ensures Inv(f, DoDeliver(w, copy, keep))
  {
    hide FlowOk, ParseAck, Receive, Discard;
    var n := At(w, copy.to);
    ReceiveAck(n.ep, copy.packet, copy.channel);
    DiscardMembers(n.ep.pending, copy.channel, ParseAck(copy.packet).value.sequences);
    FlowFrame(f.limit, w, DoDeliver(w, copy, keep), f.x, f.c);
  }

  lemma DataElsewhere(f: Focus, w: World, copy: Copy, keep: bool)
    requires Inv(f, w) && copy in w.net && !copy.ack && !Concerns(copy, f.x, f.c) && IsDataFor(copy.packet, copy.channel)
    ensures Inv(f, DoDeliver(w, copy, keep))
  {
    hide FlowOk, Accept, ParseData, Receive;
    ReceiveData(At(w, copy.to).ep, copy.packet, copy.channel);
    FlowFrame(f.limit, w, DoDeliver(w, copy, keep), f.x, f.c);
  }

  lemma DeliverKeeps(f: Focus, w: World, copy: Copy, keep: bool)
    requires f.limit <= REORDER_LIMIT + 1 && f.age <= HALF
    requires Inv(f, w) && Plain(w) && NoStaleCopies(f, w) && copy in w.net
    ensures Inv(f, DoDeliver(w, copy, keep))
  {
    var v := DoDeliver(w, copy, keep);
    if !Concerns(copy, f.x, f.c) {
      if copy.ack {
        AckElsewhere(f, w, copy, keep);
      } else {
        DataElsewhere(f, w, copy, keep);
      }
    } else if copy.ack {
      SettleEffect(w, copy, keep);
      SettleFlow(f.limit, w, v, copy);
    } else {
      StoreEffect(w, copy, keep);
      StoreFlow(f.limit, w, v, copy);
    }
  }

  // ---- Packets stay on their channels ----

  lemma SendPlain(w: World, x: Side, now: real)
    requires WorldShaped(w) && Plain(w) && Enabled(w, Send(x, now))
    ensures Plain(DoSend(w, x, now))
  {
    var s := At(w, x);
    var c, chunk := s.job.channel, s.job.todo[0];
    assert chunk in s.job.todo;
    DataPacketKind(c, s.ep.outgoing[c], chunk);
    PutMembers(s.ep.pending, Entry(c, s.ep.outgoing[c], DataPacket(c, s.ep.outgoing[c], chunk), now, 1));
  }

  lemma RepeatPlain(w: World, x: Side, now: real)
    requires WorldShaped(w) && Plain(w)
    ensures Plain(DoRepeat(w, x, now))
  {
    ResentWerePending(At(w, x).ep.pending, now);
    ResendInventsNothing(At(w, x).ep.pending, now);
  }

  lemma DeliverPlain(w: World, copy: Copy, keep: bool)
    requires WorldShaped(w) && Plain(w) && copy in w.net
    ensures WorldShaped(DoDeliver(w, copy, keep)) && Plain(DoDeliver(w, copy, keep))
  {
    var n := At(w, copy.to);
    if copy.ack {
      ReceiveAck(n.ep, copy.packet, copy.channel);
      DiscardMembers(n.ep.pending, copy.channel, ParseAck(copy.packet).value.sequences);
    } else {
      ReceiveData(n.ep, copy.packet, copy.channel);
    }
  }

  /** Every step keeps the shape of the world and every packet on its channel. */
  lemma StepPlain(w: World, l: Label)
    requires WorldShaped(w) && Plain(w) && Enabled(w, l)
    ensures WorldShaped(Step(w, l)) && Plain(Step(w, l))
  {
    match l
    case Begin(_, _, _) =>
    case Send(x, now) =>
      SendEffect(w, x, now);
      SendPlain(w, x, now);
    case Repeat(x, now) =>
      RepeatEffect(w, x, now);
      RepeatPlain(w, x, now);
    case Deliver(copy, keep) => DeliverPlain(w, copy, keep);
    case Lose(_) =>
    case Read(_, _, _) =>
    case Return(_) =>
    case TimeOut(_) =>
  }

  // ---- Runs ----

  /** A stream whose writes have at most 65 chunks and whose data copies outlive at most 2^15 later
      chunks keeps its invariant in every step, whatever happens on the other streams. */
  lemma StepKeeps(f: Focus, w: World, l: Label)
    requires f.limit <= REORDER_LIMIT + 1 && f.age <= HALF
    requires Inv(f, w) && Plain(w) && NoStaleCopies(f, w) && Enabled(w, l) && Allowed(f, w, l)
    ensures Inv(f, Step(w, l))
  {
    match l
    case Begin(x, channel, payload) => BeginKeeps(f, w, x, channel, payload);
    case Send(x, now) => SendKeeps(f, w, x, now);
    case Repeat(x, now) => RepeatKeeps(f, w, x, now);
    case Deliver(copy, keep) => DeliverKeeps(f, w, copy, keep);
    case Lose(copy) => LoseKeeps(f, w, copy);
    case Read(x, channel, size) => ReadKeeps(f, w, x, channel, size);
    case Return(x) => EndKeeps(f, w, x, false);
    case TimeOut(x) => EndKeeps(f, w, x, true);
  }

  ghost predicate Leads(f: Focus, before: World, l: Label, after: World) {
    && WorldShaped(before) && Enabled(before, l) && Allowed(f, before, l) && after == Step(before, l)
    && WorldShaped(after) && f.c < CHANNELS && NoStaleCopies(f, after)
  }

  /** `w` is what the beginning becomes after `labels`, every step possible when it was taken. Only
      the stream in focus is held to limits; the other fifteen may carry anything. */
  ghost predicate Reached(f: Focus, labels: seq<Label>, w: World) {
    if labels == [] then
      w == BEGINNING
    else
      var last := |labels| - 1;
      exists before :: Reached(f, labels[..last], before) && Leads(f, before, labels[last], w)
  }

  lemma {:induction false} ReachedPlain(f: Focus, labels: seq<Label>, w: World)
    requires f.c < CHANNELS && Reached(f, labels, w)
    ensures WorldShaped(w) && Plain(w) && NoStaleCopies(f, w)
  {
    if labels == [] {
      BeginningOk(f);
    } else {
      var last := |labels| - 1;
      var before :| Reached(f, labels[..last], before) && Leads(f, before, labels[last], w);
      ReachedPlain(f, labels[..last], before);
      StepPlain(before, labels[last]);
    }
  }

  lemma {:induction false} ReachedInv(f: Focus, labels: seq<Label>, w: World)
    requires f.c < CHANNELS && f.limit <= REORDER_LIMIT + 1 && f.age <= HALF && Reached(f, labels, w)
    ensures Inv(f, w)
  {
    if labels == [] {
      BeginningOk(f);
    } else {
      var last := |labels| - 1;
      var before :| Reached(f, labels[..last], before) && Leads(f, before, labels[last], w);
      ReachedInv(f, labels[..last], before);
      ReachedPlain(f, labels[..last], before);
      StepKeeps(f, before, labels[last]);
    }
  }

  /** `v` is what `w` becomes by `labels`; nothing is asked of lengths, ages or earlier failures. */
  ghost predicate Becomes(w: World, labels: seq<Label>, v: World) {
    if labels == [] then
      v == w
    else
      var last := |labels| - 1;
      exists before :: Becomes(w, labels[..last], before) && WorldShaped(before) && Enabled(before, labels[last]) && v == Step(before, labels[last])
  }

  lemma WholeStream(sent: seq<bytes>, base: nat, payload: bytes)
    requires base <= |sent| && sent[base..] == Chunks(payload)
    ensures Concat(sent[..|sent|]) == Concat(sent[..base]) + payload
  {
    assert sent[..|sent|] == sent[..base] + sent[base..];
    ConcatAppend(sent[..base], sent[base..]);
    ChunksWhole(payload);
  }

  /** When a `write` may return normally on a stream whose writes have at most 65 chunks, the peer
      has delivered, in order and complete, everything ever sent on it, this payload last. */
  lemma ReturnMeansDelivered(f: Focus, labels: seq<Label>, w: World)
    requires f.c < CHANNELS && f.limit <= REORDER_LIMIT + 1 && f.age <= HALF && Reached(f, labels, w)
    requires WorldShaped(w) && MayReturn(At(w, f.x)) && At(w, f.x).job.channel == f.c
    ensures var s, r := At(w, f.x), At(w, Other(f.x));
            && s.base[f.c] <= |s.sent[f.c]|
            && r.consumed[f.c] + r.ep.channels[f.c].buffer
               == Concat(s.sent[f.c][..s.base[f.c]]) + s.job.payload
  {
    ReachedInv(f, labels, w);
    ReturnDelivered(f.limit, w, f.x);
    var s, r := At(w, f.x), At(w, Other(f.x));
    assert s.sent[f.c][s.base[f.c]..] + [] == s.sent[f.c][s.base[f.c]..];
    WholeStream(s.sent[f.c], s.base[f.c], s.job.payload);
  }
}
