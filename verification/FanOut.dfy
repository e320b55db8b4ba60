/** The queues of the viewers of a shared session. Puts happen after the lock is released, one
    queue at a time, so viewers may join, read, leave or be dropped between any two of them. */
module FanOut {
  import opened Bytes
  import opened SharedSession
  import MediaCache

  const QUEUE_LIMIT := 32

  datatype Item = Chunk(data: bytes) | End

  /** How far a viewer takes part in what the pump publishes. */
  datatype Until = Watching | Left(count: nat) | Dropped(count: nat)

  /** A queue with its history: what was put and what was got, and whether a put ever found it full. */
  datatype Line = Line(queue: seq<Item>, put: seq<Item>, got: seq<Item>, full: bool)

  /** One subscription: the items it began with, how many chunks had been published before it
      joined, how long it takes part, and its queue. */
  datatype Viewer = Viewer(passive: bool, first: seq<Item>, since: nat, until: Until, closed: bool, line: Line)

  /** `published` are all chunks in order; the newest still has to reach the queues of `targets`,
      and the end mark those of `ending`. */
  datatype World = World(session: Session, viewers: map<nat, Viewer>, published: seq<bytes>, targets: set<nat>, ending: set<nat>)

  datatype Label =
    | Join(id: nat, passive: bool, exited: bool, outcome: Outcome)
    | Leave(id: nat, timer: nat)
    | Note(chunk: bytes)
    | Deliver(id: nat)
    | Clean(standby: cache)
    | DeliverEnd(id: nat)
    | StandbyFrame(id: nat, frame: bytes)
    | Get(id: nat)
    | CloseViewer(id: nat)
    | CloseSession(exited: bool)
    | Idle(exited: bool)

  // ---- One queue ----

  /** `_put_chunk`, taken as one step: a full queue loses its oldest item. */
  function Put(queue: seq<Item>, item: Item): (after: seq<Item>)
    ensures |queue| <= QUEUE_LIMIT ==> |after| <= QUEUE_LIMIT
  {
    if |queue| < QUEUE_LIMIT then queue + [item] else queue[1..] + [item]
  }

  /** A bounded queue object of the standard library, as far as the session uses it. */
  class ChunkQueue {
    var items: seq<Item>

    constructor ()
      ensures items == []
    {
      items := [];
    }

    /** `put_nowait`, false when the queue is full. */
    method PutNowait(item: Item) returns (ok: bool)
      modifies this
      ensures ok == (|old(items)| < QUEUE_LIMIT)
      ensures items == if ok then old(items) + [item] else old(items)
    {
      ok := |items| < QUEUE_LIMIT;
      if ok {
        items := items + [item];
      }
    }

    /** `_put_chunk` without interference between its attempts. */
    method PutChunk(item: Item)
      requires |items| <= QUEUE_LIMIT
      modifies this
      ensures items == Put(old(items), item)
    {
      var ok := PutNowait(item);
      if !ok {
        items := items[1..];
        var _ := PutNowait(item);
      }
    }
  }

  function PutTo(v: Line, item: Item): Line {
    Line(Put(v.queue, item), v.put + [item], v.got, v.full || |v.queue| >= QUEUE_LIMIT)
  }

  function GetFrom(v: Line): Line
    requires v.queue != []
  {
    v.(queue := v.queue[1..], got := v.got + [v.queue[0]])
  }

  ghost predicate Suffix(s: seq<Item>, all: seq<Item>) {
    |s| <= |all| && s == all[|all| - |s|..]
  }

  /** The queue holds the newest items put into it; without an overflow nothing got lost. */
  ghost predicate LineGood(v: Line) {
    && |v.queue| <= QUEUE_LIMIT
    && Suffix(v.queue, v.put)
    && (!v.full ==> v.got + v.queue == v.put)
  }

  lemma PutGood(v: Line, item: Item)
    requires LineGood(v)
    ensures LineGood(PutTo(v, item))
  {
    var u := PutTo(v, item);
    assert u.queue == u.put[|u.put| - |u.queue|..];
    assert !u.full ==> v.got + (v.queue + [item]) == v.got + v.queue + [item];
  }

  lemma GetGood(v: Line)
    requires LineGood(v) && v.queue != []
    ensures LineGood(GetFrom(v))
  {
    assert v.got + [v.queue[0]] + v.queue[1..] == v.got + v.queue;
  }

  // ---- Steps ----

  function Items(chunks: seq<bytes>): seq<Item> {
    seq(|chunks|, i requires 0 <= i < |chunks| => Chunk(chunks[i]))
  }

  function NewViewer(passive: bool, preamble: bytes, since: nat): Viewer {
    var first := if preamble == [] then [] else [Chunk(preamble)];
    Viewer(passive, first, since, Watching, false, Line(first, first, [], false))
  }

  predicate Enabled(w: World, l: Label) {
    match l
    case Join(id, _, _, _) => id !in w.viewers
    case Note(_) => w.session.process.Some? && w.targets == {}
    case Deliver(id) => id in w.targets && id in w.viewers
    case Clean(_) => w.session.process.Some? && w.targets == {}
    case DeliverEnd(id) => id in w.ending && id in w.viewers
    case StandbyFrame(id, _) => id in w.viewers && w.viewers[id].passive
    case Get(id) => id in w.viewers && w.viewers[id].line.queue != []
    case CloseViewer(id) => id in w.viewers && !w.viewers[id].closed
    case _ => true
  }

  function DoJoin(w: World, l: Label): World
    requires l.Join?
  {
    var (next, answer) := Acquired(w.session, l.id, l.passive, l.exited, l.outcome);
    match answer
    case Joined(preamble) =>
      w.(session := next, viewers := w.viewers[l.id := NewViewer(l.passive, preamble, |w.published|)])
    case _ => w.(session := next)
  }

  /** Everyone of `ids` that still watches stops doing so. */
  function Stopped(viewers: map<nat, Viewer>, ids: set<nat>, until: Until): map<nat, Viewer> {
    map id | id in viewers :: if id in ids && viewers[id].until.Watching? then viewers[id].(until := until) else viewers[id]
  }

  function ActiveIds(s: Session): set<nat> {
    set id | id in s.subscribers && !s.subscribers[id]
  }

  function With(w: World, id: nat, line: Line): World
    requires id in w.viewers
  {
    w.(viewers := w.viewers[id := w.viewers[id].(line := line)])
  }

  function Last(published: seq<bytes>): bytes {
    if published == [] then [] else published[|published| - 1]
  }

  function Step(w: World, l: Label): World
    requires Enabled(w, l)
  {
    match l
    case Join(_, _, _, _) => DoJoin(w, l)
    case Leave(id, timer) =>
      w.(session := Released(w.session, id, timer), viewers := Stopped(w.viewers, {id}, Left(|w.published|)))
    case Note(chunk) =>
      w.(session := Noted(w.session, chunk), published := w.published + [chunk], targets := w.session.subscribers.Keys)
    case Deliver(id) =>
      With(w, id, PutTo(w.viewers[id].line, Chunk(Last(w.published)))).(targets := w.targets - {id})
    case Clean(standby) =>
      w.(session := Cleaned(w.session, w.session.process.value, standby), ending := w.ending + ActiveIds(w.session),
         viewers := Stopped(w.viewers, ActiveIds(w.session), Dropped(|w.published|)))
    case DeliverEnd(id) => With(w, id, PutTo(w.viewers[id].line, End)).(ending := w.ending - {id})
    case StandbyFrame(id, frame) => With(w, id, PutTo(w.viewers[id].line, Chunk(frame)))
    case Get(id) => With(w, id, GetFrom(w.viewers[id].line))
    case CloseViewer(id) =>
      w.(viewers := w.viewers[id := w.viewers[id].(line := PutTo(w.viewers[id].line, End), closed := true)])
    case CloseSession(exited) =>
      w.(session := Shut(w.session, exited), ending := w.ending + w.session.subscribers.Keys,
         viewers := Stopped(w.viewers, w.session.subscribers.Keys, Left(|w.published|)))
    case Idle(exited) => w.(session := Idled(w.session, exited).0)
  }

  /** Who joins begins with the preamble of the cache, if there is one, waiting in the queue, and takes
      part in everything published from then on. */
  lemma JoinBegins(w: World, l: Label)
    requires l.Join? && Enabled(w, l)
    ensures var (next, answer) := Acquired(w.session, l.id, l.passive, l.exited, l.outcome);
            var viewers := Step(w, l).viewers;
            if answer.Joined? then
              && l.id in viewers && viewers == w.viewers[l.id := viewers[l.id]]
              && var v, preamble := viewers[l.id], MediaCache.Preamble(next.media);
                 && v.first == (if preamble == [] then [] else [Chunk(preamble)])
                 && v.line.queue == v.first && v.line.put == v.first && v.line.got == []
                 && v.since == |w.published| && v.until.Watching? && v.passive == l.passive && !v.closed
            else viewers == w.viewers
  {
  }

  /** What a viewer began with is never changed. */
  lemma BeginningStays(w: World, l: Label, id: nat)
    requires Enabled(w, l) && id in w.viewers
    ensures id in Step(w, l).viewers
    ensures var v, u := w.viewers[id], Step(w, l).viewers[id];
            u.first == v.first && u.since == v.since && u.passive == v.passive
  {
    hide MediaCache.Note, Acquired, Released, Cleaned, Shut, Idled;
  }

  // ---- What every step keeps ----

  function Part(published: seq<bytes>, from: nat, to: nat): seq<Item> {
    if from <= to <= |published| then Items(published[from..to]) else []
  }

  /** What a viewer is owed: what it began with, every chunk published while it watched, and the
      end mark once it was dropped with its helper. */
  function Owed(v: Viewer, published: seq<bytes>): seq<Item> {
    match v.until
    case Watching => v.first + Part(published, v.since, |published|)
    case Left(count) => v.first + Part(published, v.since, count)
    case Dropped(count) => v.first + Part(published, v.since, count) + [End]
  }

  /** What is on its way to a viewer. */
  function Pending(w: World, id: nat): seq<Item> {
    (if id in w.targets then [Chunk(Last(w.published))] else [])
    + (if id in w.ending then [End] else [])
  }

  ghost predicate Counts(w: World, v: Viewer) {
    && v.since <= |w.published|
    && match v.until
       case Watching => true
       case Left(count) => v.since <= count <= |w.published|
       case Dropped(count) => v.since <= count <= |w.published|
  }

  ghost predicate Shape(w: World) {
    && (forall id | id in w.session.subscribers :: id in w.viewers && w.viewers[id].passive == w.session.subscribers[id])
    && (forall id | id in w.targets :: id in w.viewers && w.published != [])
    && (forall id | id in w.ending :: id in w.viewers)
    && (forall id | id in w.viewers :: Counts(w, w.viewers[id]) && LineGood(w.viewers[id].line))
  }

  /** The owed items of an active viewer are exactly what was put into its queue and what is on
      its way, unless it has closed itself. */
  ghost predicate Fair(w: World, id: nat)
    requires Shape(w) && id in w.viewers
  {
    var v := w.viewers[id];
    v.passive || v.closed || v.line.put + Pending(w, id) == Owed(v, w.published)
  }

  ghost predicate Tables(w: World) {
    && (forall id | id in w.viewers :: id in w.session.subscribers <==> w.viewers[id].until.Watching?)
    && (forall id | id in w.ending :: id !in w.session.subscribers && id !in w.targets)
  }

  ghost predicate Served(w: World)
    requires Shape(w)
  {
    !w.session.closed ==> Tables(w) && forall id | id in w.viewers :: Fair(w, id)
  }

  /** One viewer's queue changes, and nothing else that matters for the shape. */
  lemma LineShape(w: World, id: nat, u: World)
    requires Shape(w) && id in w.viewers && id in u.viewers && LineGood(u.viewers[id].line)
    requires u.viewers == w.viewers[id := u.viewers[id]] && u.published == w.published && u.session == w.session
    requires var v, n := w.viewers[id], u.viewers[id]; n.passive == v.passive && n.since == v.since && n.until == v.until
    requires u.targets <= w.targets && u.ending <= w.ending
    ensures Shape(u)
  {
  }

  lemma KeepsShape(w: World, l: Label)
    requires Shape(w) && Enabled(w, l)
    ensures Shape(Step(w, l))
  {
    match l
    case Deliver(id) =>
      PutGood(w.viewers[id].line, Chunk(Last(w.published)));
      LineShape(w, id, Step(w, l));
    case DeliverEnd(id) =>
      PutGood(w.viewers[id].line, End);
      LineShape(w, id, Step(w, l));
    case StandbyFrame(id, frame) =>
      PutGood(w.viewers[id].line, Chunk(frame));
      LineShape(w, id, Step(w, l));
    case Get(id) =>
      GetGood(w.viewers[id].line);
      LineShape(w, id, Step(w, l));
    case CloseViewer(id) =>
      PutGood(w.viewers[id].line, End);
      LineShape(w, id, Step(w, l));
    case Join(_, _, _, _) => JoinShape(w, l);
    case Note(chunk) => NoteShape(w, Step(w, l), chunk);
    case _ => TableShape(w, Step(w, l));
  }

  lemma NewLine(first: seq<Item>)
    requires |first| <= 1
    ensures LineGood(Line(first, first, [], false))
  {
    assert [] + first == first;
  }

  /** One viewer comes. */
  lemma JoinedShape(w: World, u: World, id: nat, v: Viewer)
    requires Shape(w) && id !in w.viewers && u.viewers == w.viewers[id := v] && LineGood(v.line)
    requires v.since == |w.published| && v.until == Watching && u.published == w.published
    requires u.session.subscribers == w.session.subscribers[id := v.passive]
    requires u.targets == w.targets && u.ending == w.ending
    ensures Shape(u)
  {
  }

  lemma SameShape(w: World, u: World)
    requires Shape(w) && u.viewers == w.viewers && u.session.subscribers == w.session.subscribers
    requires u.published == w.published && u.targets == w.targets && u.ending == w.ending
    ensures Shape(u)
  {
  }

  lemma JoinShape(w: World, l: Label)
    requires Shape(w) && Enabled(w, l) && l.Join?
    ensures Shape(DoJoin(w, l))
  {
    AcquiredTable(w.session, l.id, l.passive, l.exited, l.outcome);
    var answer := Acquired(w.session, l.id, l.passive, l.exited, l.outcome).1;
    if answer.Joined? {
      var v := NewViewer(l.passive, answer.preamble, |w.published|);
      NewLine(v.first);
      JoinedShape(w, DoJoin(w, l), l.id, v);
    } else {
      SameShape(w, DoJoin(w, l));
    }
  }

  /** Viewers leave the table or stop watching, and no new ones come. */
  lemma TableShape(w: World, u: World)
    requires Shape(w) && u.published == w.published && u.targets == w.targets
    requires u.session.subscribers.Keys <= w.session.subscribers.Keys
    requires forall id | id in u.session.subscribers :: u.session.subscribers[id] == w.session.subscribers[id]
    requires u.ending <= w.ending + w.session.subscribers.Keys
    requires u.viewers.Keys == w.viewers.Keys
    requires forall id | id in w.viewers :: StopsAt(w.viewers[id], u.viewers[id], |w.published|)
    ensures Shape(u)
  {
  }

  ghost predicate StopsAt(v: Viewer, u: Viewer, count: nat) {
    u == v || u == v.(until := Left(count)) || u == v.(until := Dropped(count))
  }

  lemma NoteShape(w: World, u: World, chunk: bytes)
    requires Shape(w) && u.viewers == w.viewers && u.published == w.published + [chunk]
    requires u.session.subscribers == w.session.subscribers
    requires u.targets == w.session.subscribers.Keys && u.ending == w.ending
    ensures Shape(u)
  {
  }

  // ---- Nothing is lost on the way to a queue ----

  /** The same viewers watch, and no more is on its way to the dropped ones. */
  lemma SameTables(w: World, u: World)
    requires Tables(w) && u.session.subscribers == w.session.subscribers && u.viewers.Keys == w.viewers.Keys
    requires forall id | id in w.viewers :: u.viewers[id].until == w.viewers[id].until
    requires u.ending <= w.ending && u.targets <= w.targets + w.session.subscribers.Keys
    ensures Tables(u)
  {
  }

  lemma JoinedTables(w: World, u: World, id: nat, v: Viewer)
    requires Shape(w) && Tables(w) && id !in w.viewers && u.viewers == w.viewers[id := v] && v.until == Watching
    requires u.session.subscribers == w.session.subscribers[id := v.passive]
    requires u.targets == w.targets && u.ending == w.ending
    ensures Tables(u)
  {
  }

  lemma JoinTables(w: World, l: Label)
    requires Shape(w) && Tables(w) && Enabled(w, l) && l.Join?
    ensures Tables(DoJoin(w, l))
  {
    AcquiredTable(w.session, l.id, l.passive, l.exited, l.outcome);
    var answer := Acquired(w.session, l.id, l.passive, l.exited, l.outcome).1;
    if answer.Joined? {
      JoinedTables(w, DoJoin(w, l), l.id, NewViewer(l.passive, answer.preamble, |w.published|));
    } else {
      SameTables(w, DoJoin(w, l));
    }
  }

  /** Those of `ids` leave the table and stop watching. */
  lemma StopTables(w: World, u: World, ids: set<nat>, until: Until)
    requires Tables(w) && !until.Watching? && u.viewers == Stopped(w.viewers, ids, until)
    requires u.session.subscribers.Keys == w.session.subscribers.Keys - ids
    requires u.ending <= w.ending + ids && (u.ending == w.ending || w.targets == {}) && u.targets == w.targets
    ensures Tables(u)
  {
  }

  lemma QueueTables(w: World, l: Label)
    requires Shape(w) && Enabled(w, l) && Tables(w)
    requires l.Deliver? || l.DeliverEnd? || l.StandbyFrame? || l.Get? || l.CloseViewer?
    ensures Tables(Step(w, l))
  {
    hide Shape, Tables, PutTo, GetFrom, Acquired, Released, Noted, Cleaned, Shut, Idled, Stopped, Last;
    SameTables(w, Step(w, l));
  }

  lemma KeepsTables(w: World, l: Label)
    requires Shape(w) && Enabled(w, l) && !Step(w, l).session.closed && Tables(w)
    ensures Tables(Step(w, l))
  {
    var u := Step(w, l);
    match l
    case Join(_, _, _, _) => JoinTables(w, l);
    case Leave(id, _) => StopTables(w, u, {id}, Left(|w.published|));
    case Clean(_) => StopTables(w, u, ActiveIds(w.session), Dropped(|w.published|));
    case CloseSession(_) =>
    case Note(_) => SameTables(w, u);
    case Idle(_) => SameTables(w, u);
    case _ => QueueTables(w, l);
  }

  lemma PartSnoc(published: seq<bytes>, chunk: bytes, from: nat)
    requires from <= |published|
    ensures Part(published + [chunk], from, |published| + 1) == Part(published, from, |published|) + [Chunk(chunk)]
  {
  }

  lemma PartKept(published: seq<bytes>, more: seq<bytes>, from: nat, to: nat)
    requires published <= more && from <= to <= |published|
    ensures Part(more, from, to) == Part(published, from, to)
  {
    assert more[from..to] == published[from..to];
  }

  /** What is on its way to a viewer reaches its queue; every other queue is as it was. */
  lemma PutFair(w: World, u: World, id: nat)
    requires Shape(w) && Shape(u) && id in w.viewers && Fair(w, id) && id in u.viewers
    requires u.published == w.published && u.viewers[id] == w.viewers[id].(line := u.viewers[id].line)
    requires u.viewers[id].line.put + Pending(u, id) == w.viewers[id].line.put + Pending(w, id)
    ensures Fair(u, id)
  {
  }

  lemma DeliverFair(w: World, who: nat, id: nat)
    requires Shape(w) && Tables(w) && Enabled(w, Deliver(who)) && Shape(Step(w, Deliver(who)))
    requires id in w.viewers && Fair(w, id)
    ensures Fair(Step(w, Deliver(who)), id)
  {
    var u := Step(w, Deliver(who));
    if id == who {
      assert u.viewers[id].line.put == w.viewers[id].line.put + [Chunk(Last(w.published))];
      assert Pending(w, id) == [Chunk(Last(w.published))] && Pending(u, id) == [];
    } else {
      assert u.viewers[id] == w.viewers[id] && Pending(u, id) == Pending(w, id);
    }
    PutFair(w, u, id);
  }

  lemma DeliverEndFair(w: World, who: nat, id: nat)
    requires Shape(w) && Tables(w) && Enabled(w, DeliverEnd(who)) && Shape(Step(w, DeliverEnd(who)))
    requires id in w.viewers && Fair(w, id)
    ensures Fair(Step(w, DeliverEnd(who)), id)
  {
    var u := Step(w, DeliverEnd(who));
    if id == who {
      assert u.viewers[id].line.put == w.viewers[id].line.put + [End];
      assert Pending(w, id) == [End] && Pending(u, id) == [];
    } else {
      assert u.viewers[id] == w.viewers[id] && Pending(u, id) == Pending(w, id);
    }
    PutFair(w, u, id);
  }

  /** Frames for passive viewers, reading and closing touch no item that an active viewer is owed. */
  lemma OtherFair(w: World, l: Label, id: nat)
    requires Shape(w) && Enabled(w, l) && (l.StandbyFrame? || l.Get? || l.CloseViewer?) && Shape(Step(w, l))
    requires id in w.viewers && Fair(w, id)
    ensures Fair(Step(w, l), id)
  {
    assert Pending(Step(w, l), id) == Pending(w, id);
  }

  lemma NoteFair(w: World, chunk: bytes, id: nat)
    requires Shape(w) && Tables(w) && Enabled(w, Note(chunk)) && Shape(Step(w, Note(chunk)))
    requires id in w.viewers && Fair(w, id)
    ensures Fair(Step(w, Note(chunk)), id)
  {
    var u, v := Step(w, Note(chunk)), w.viewers[id];
    assert Last(u.published) == chunk;
    match v.until
    case Watching =>
      assert Pending(w, id) == [] && Pending(u, id) == [Chunk(chunk)];
      OwedMore(v, w.published, chunk);
    case Left(count) => PartKept(w.published, u.published, v.since, count);
    case Dropped(count) => PartKept(w.published, u.published, v.since, count);
  }

  lemma OwedMore(v: Viewer, published: seq<bytes>, chunk: bytes)
    requires v.until == Watching && v.since <= |published|
    ensures Owed(v, published + [chunk]) == Owed(v, published) + [Chunk(chunk)]
  {
    PartSnoc(published, chunk, v.since);
    assert v.first + (Part(published, v.since, |published|) + [Chunk(chunk)])
        == v.first + Part(published, v.since, |published|) + [Chunk(chunk)];
  }

  lemma CleanFair(w: World, standby: cache, id: nat)
    requires Shape(w) && Tables(w) && Enabled(w, Clean(standby)) && Shape(Step(w, Clean(standby)))
    requires id in w.viewers && Fair(w, id)
    ensures Fair(Step(w, Clean(standby)), id)
  {
    var u, v := Step(w, Clean(standby)), w.viewers[id];
    if id in ActiveIds(w.session) {
      assert Pending(w, id) == [] && Pending(u, id) == [End];
    } else {
      assert u.viewers[id] == v && Pending(u, id) == Pending(w, id);
    }
  }

  lemma LeaveFair(w: World, who: nat, timer: nat, id: nat)
    requires Shape(w) && Tables(w) && Shape(Step(w, Leave(who, timer)))
    requires id in w.viewers && Fair(w, id)
    ensures Fair(Step(w, Leave(who, timer)), id)
  {
  }

  lemma JoinFair(w: World, l: Label, id: nat)
    requires Shape(w) && Enabled(w, l) && l.Join? && Shape(DoJoin(w, l))
    requires id in w.viewers ==> Fair(w, id)
    requires id in DoJoin(w, l).viewers
    ensures Fair(DoJoin(w, l), id)
  {
    var u := DoJoin(w, l);
    if id in w.viewers {
      PutFair(w, u, id);
    } else {
      NewFair(u, id, u.viewers[id]);
    }
  }

  lemma NewFair(u: World, id: nat, v: Viewer)
    requires Shape(u) && id in u.viewers && u.viewers[id] == v && id !in u.targets && id !in u.ending
    requires v.until == Watching && v.since == |u.published| && v.line.put == v.first
    ensures Fair(u, id)
  {
    assert Pending(u, id) == [] && v.line.put + [] == v.first;
    assert Part(u.published, v.since, |u.published|) == [] && v.first + [] == v.first;
  }

  lemma KeepsServed(w: World, l: Label)
    requires Shape(w) && Served(w) && Enabled(w, l)
    ensures Shape(Step(w, l)) && Served(Step(w, l))
  {
    KeepsShape(w, l);
    var u := Step(w, l);
    if !u.session.closed {
      StaysOpen(w, l);
      KeepsTables(w, l);
      forall id | id in u.viewers
        ensures Fair(u, id)
      {
        match l
        case Join(_, _, _, _) => JoinFair(w, l, id);
        case Leave(who, timer) => LeaveFair(w, who, timer, id);
        case Note(chunk) => NoteFair(w, chunk, id);
        case Clean(standby) => CleanFair(w, standby, id);
        case CloseSession(_) =>
        case Idle(_) => assert Fair(w, id);
        case Deliver(who) => DeliverFair(w, who, id);
        case DeliverEnd(who) => DeliverEndFair(w, who, id);
        case _ => OtherFair(w, l, id);
      }
    }
  }

  lemma StaysOpen(w: World, l: Label)
    requires Enabled(w, l) && !Step(w, l).session.closed
    ensures !w.session.closed
  {
  }

  // ---- Runs ----

  /** A session before anyone has joined; the rest of its fields are as they may be. */
  ghost predicate Begins(w: World) {
    w.session.subscribers == map[] && w.viewers == map[] && w.published == [] && w.targets == {} && w.ending == {}
  }

  /** `w` is what some session becomes after some steps. */
  ghost predicate Reached(labels: seq<Label>, w: World)
    decreases |labels|
  {
    if labels == [] then Begins(w)
    else
      var last := |labels| - 1;
      exists v :: Reached(labels[..last], v) && Enabled(v, labels[last]) && w == Step(v, labels[last])
  }

  lemma {:induction false} ReachedServed(labels: seq<Label>, w: World)
    requires Reached(labels, w)
    ensures Shape(w) && Served(w)
    decreases |labels|
  {
    if labels != [] {
      var last := |labels| - 1;
      var v :| Reached(labels[..last], v) && Enabled(v, labels[last]) && w == Step(v, labels[last]);
      ReachedServed(labels[..last], v);
      KeepsServed(v, labels[last]);
    }
  }

  /** No queue ever holds more than 32 items, and each holds the newest ones put into it. While the
      session is open, what an active viewer was given so far is exactly what it is owed, short of
      what is on its way; if its queue never overflowed, it has read all of it but what waits. */
  lemma ViewerIsServed(labels: seq<Label>, w: World, id: nat)
    requires Reached(labels, w) && id in w.viewers
    ensures var v := w.viewers[id];
            && |v.line.queue| <= 32 && Suffix(v.line.queue, v.line.put)
            && v.since <= |w.published|
            && (!w.session.closed && !v.passive && !v.closed ==>
                  && v.line.put + Pending(w, id) == Owed(v, w.published)
                  && (!v.line.full ==> v.line.got + v.line.queue + Pending(w, id) == Owed(v, w.published)))
  {
    ReachedServed(labels, w);
    assert Fair(w, id) || w.session.closed;
  }

  /** When a helper is cleaned up, its active viewers are owed the end mark and nothing after it,
      and the passive ones go on watching. */
  lemma CleanEnds(labels: seq<Label>, w: World, standby: cache, id: nat)
    requires Reached(labels, w) && Enabled(w, Clean(standby)) && !w.session.closed && id in w.session.subscribers
    ensures id in w.viewers
    ensures var u := Step(w, Clean(standby));
            if w.session.subscribers[id] then id in u.session.subscribers && u.viewers[id] == w.viewers[id]
            else
              && id !in u.session.subscribers && id in u.ending
              && Owed(w.viewers[id], w.published) + [End] == Owed(u.viewers[id], u.published)
  {
    ReachedServed(labels, w);
  }

  /** What a viewer is owed is settled once it no longer watches. */
  lemma OwedIsFinal(labels: seq<Label>, w: World, l: Label, id: nat)
    requires Reached(labels, w) && Enabled(w, l) && id in w.viewers && !w.viewers[id].until.Watching?
    ensures Step(w, l).viewers[id].since == w.viewers[id].since <= |w.published| <= |Step(w, l).published|
    ensures Owed(Step(w, l).viewers[id], Step(w, l).published) == Owed(w.viewers[id], w.published)
  {
    ReachedServed(labels, w);
    var u, v := Step(w, l), w.viewers[id];
    assert u.viewers[id].until == v.until && u.viewers[id].since == v.since && u.viewers[id].first == v.first;
    assert w.published <= u.published;
    PartKept(w.published, u.published, v.since, v.until.count);
  }
}
