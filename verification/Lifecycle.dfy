/** The shared session among its helpers, timers and threads. Every section under the lock is one
    step; helpers exit, timers expire and chunks arrive at any time. `close` and `_stop_if_idle` ask
    their helper to stop once they have left the section; the step notes the request with the
    section. No property counts on a helper that was asked to stop having heard of it. */
module Lifecycle {
  import opened Bytes
  import opened SharedSession
  import MediaCache
  import opened TrimmedCache

  /** Where the pump thread of a helper is: reading, back from `wait`, past the first section of
      its clean-up, at its end. */
  datatype Pump = Reading | Waited | Detached | Done

  datatype Helper = Helper(exited: bool, pump: Pump)

  /** `alive` are the timers that may still be cancelled, `due` those whose callback will run,
      `stops` the generations that were asked to stop, `read` the bytes of the newest generation,
      `failed` whether the last start failed. */
  datatype World = World(session: Session, helpers: map<nat, Helper>, alive: set<nat>, due: set<nat>, timers: nat,
                         stops: set<nat>, read: bytes, failed: bool, standby: cache)

  datatype Label =
    | Acquire(id: nat, passive: bool, outcome: Outcome)
    | Release(id: nat)
    | Close
    | Expire(timer: nat)
    | Idle(timer: nat)
    | Exit(generation: nat)
    | Chunk(generation: nat, chunk: bytes)
    | Wait(generation: nat)
    | Clean(generation: nat)
    | Finish(generation: nat)

  predicate Running(w: World, g: nat) {
    g in w.helpers && !w.helpers[g].exited
  }

  /** What `poll` says about the attached helper. */
  predicate Exited(w: World) {
    w.session.process.Some? && !Running(w, w.session.process.value)
  }

  predicate At(w: World, g: nat, pump: Pump) {
    g in w.helpers && w.helpers[g].pump == pump
  }

  predicate Enabled(w: World, l: Label) {
    match l
    case Acquire(id, _, _) => id !in w.session.subscribers
    case Release(_) => true
    case Close => true
    case Expire(timer) => timer in w.alive
    case Idle(timer) => timer in w.due
    case Exit(g) => Running(w, g)
    case Chunk(g, chunk) => At(w, g, Reading) && 0 < |chunk| <= READ_BYTES
    case Wait(g) => At(w, g, Reading) && !Running(w, g)
    case Clean(g) => At(w, g, Waited)
    case Finish(g) => At(w, g, Detached)
  }

  function Cancelled(alive: set<nat>, timer: Option<nat>): set<nat> {
    if timer.Some? then alive - {timer.value} else alive
  }

  function With(s: set<nat>, g: nat): set<nat> {
    s + {g}
  }

  /** The step runs the starter. */
  predicate RunsStarter(w: World, l: Label) {
    l.Acquire? && !w.session.closed && w.session.process.None? && !l.passive
  }

  function DoAcquire(w: World, l: Label): World
    requires l.Acquire?
  {
    var next := Acquired(w.session, l.id, l.passive, Exited(w), l.outcome).0;
    var alive := if w.session.closed || Exited(w) then w.alive else Cancelled(w.alive, w.session.idleTimer);
    if RunsStarter(w, l) then
      w.(session := next, alive := alive, read := [], failed := l.outcome != Starts,
         helpers := if l.outcome == Starts then w.helpers[next.generation := Helper(false, Reading)] else w.helpers)
    else w.(session := next, alive := alive)
  }

  function DoRelease(w: World, id: nat): World {
    var next := Released(w.session, id, w.timers);
    if next.idleTimer == Some(w.timers) then
      w.(session := next, alive := With(Cancelled(w.alive, w.session.idleTimer), w.timers), timers := w.timers + 1)
    else w.(session := next)
  }

  function DoClose(w: World): World {
    w.(session := Shut(w.session, Exited(w)), alive := Cancelled(w.alive, w.session.idleTimer),
       stops := if w.session.process.Some? && !Exited(w) then With(w.stops, w.session.process.value) else w.stops)
  }

  function DoIdle(w: World, timer: nat): World {
    var (next, stop) := Idled(w.session, Exited(w));
    w.(session := next, due := w.due - {timer},
       stops := if stop then With(w.stops, w.session.process.value) else w.stops)
  }

  function DoChunk(w: World, chunk: bytes): World {
    w.(session := Noted(w.session, chunk), read := w.read + chunk)
  }

  function Moved(w: World, g: nat, pump: Pump): World
    requires g in w.helpers
  {
    w.(helpers := w.helpers[g := w.helpers[g].(pump := pump)])
  }

  function Step(w: World, l: Label): World
    requires Enabled(w, l)
  {
    match l
    case Acquire(_, _, _) => DoAcquire(w, l)
    case Release(id) => DoRelease(w, id)
    case Close => DoClose(w)
    case Expire(timer) => w.(alive := w.alive - {timer}, due := With(w.due, timer))
    case Idle(timer) => DoIdle(w, timer)
    case Exit(g) => w.(helpers := w.helpers[g := w.helpers[g].(exited := true)])
    case Chunk(_, chunk) => DoChunk(w, chunk)
    case Wait(g) => Moved(w, g, Waited)
    case Clean(g) => Moved(w, g, Detached).(session := Cleaned(w.session, g, w.standby), failed := false)
    case Finish(g) => Moved(w, g, Done)
  }

  // ---- What every step keeps ----

  /** A helper is attached from its start until its pump has waited for it and cleaned up. */
  ghost predicate Attachment(w: World) {
    && (w.session.process.Some? ==> w.session.process.value in w.helpers)
    && forall g | g in w.helpers ::
         && g <= w.session.generation
         && (w.helpers[g].pump in {Reading, Waited} <==> w.session.process == Some(g))
         && (w.helpers[g].pump != Reading ==> w.helpers[g].exited)
  }

  ghost predicate Table(w: World) {
    && (Active(w.session.subscribers) ==> w.session.process.Some?)
    && (w.session.closed ==> w.session.subscribers == map[])
  }

  /** A helper nobody watches has a timer, or was asked to stop, or is gone already. */
  ghost predicate Timers(w: World) {
    && (w.session.idleTimer.Some? ==> w.session.idleTimer.value in w.alive + w.due)
    && (forall t | t in w.alive :: t < w.timers)
    && (forall t | t in w.due :: t < w.timers)
    && (w.session.process.Some? && !Exited(w) && w.session.process.value !in w.stops ==>
          !w.session.closed && (w.session.subscribers == map[] ==> w.session.idleTimer.Some?))
  }

  /** The reported phase tells whether a helper is attached. */
  ghost predicate Phases(w: World) {
    && (w.session.phase in {Connected, Streaming, Stopping} <==> w.session.process.Some?)
    && (w.session.mediaReady ==> w.session.process.Some? && w.read != [])
  }

  ghost predicate Media(w: World) {
    if w.session.process.Some? then
      !w.failed && Remembers(w.session.media, w.read)
    else
      w.session.media.(scan := []) == if w.failed then MediaCache.NOTHING else w.standby.(scan := [])
  }

  ghost predicate Inv(w: World) {
    Attachment(w) && Table(w) && Timers(w) && Phases(w) && Media(w)
  }

  lemma KeepsAttachment(w: World, l: Label)
    requires Attachment(w) && Enabled(w, l)
    ensures Attachment(Step(w, l))
  {
    hide MediaCache.Note, MediaCache.Preamble, Active, Passive, PassiveOnly, Cancelled;
  }

  lemma KeepsTable(w: World, l: Label)
    requires Attachment(w) && Table(w) && Enabled(w, l)
    ensures Table(Step(w, l))
  {
    match l
    case Release(id) => ActiveLess(w.session.subscribers, id);
    case Clean(g) => OnlyPassive(w.session, g, w.standby);
    case _ =>
  }

  lemma ActiveLess(subscribers: map<nat, bool>, id: nat)
    ensures Active(subscribers - {id}) ==> Active(subscribers)
  {
    if Active(subscribers - {id}) {
      var a :| a in subscribers - {id} && !(subscribers - {id})[a];
      assert !subscribers[a];
    }
  }

  lemma OnlyPassive(s: Session, g: nat, standby: cache)
    ensures !Active(Cleaned(s, g, standby).subscribers)
    ensures s.subscribers == map[] ==> Cleaned(s, g, standby).subscribers == map[]
  {
  }

  lemma KeepsTimers(w: World, l: Label)
    requires Attachment(w) && Table(w) && Timers(w) && Enabled(w, l)
    ensures Timers(Step(w, l))
  {
    if l.Acquire? {
      assert l.id in w.session.subscribers[l.id := l.passive];
    }
  }

  lemma KeepsPhases(w: World, l: Label)
    requires Attachment(w) && Phases(w) && Enabled(w, l)
    ensures Phases(Step(w, l))
  {
  }

  lemma KeepsMedia(w: World, l: Label)
    requires Attachment(w) && Media(w) && Enabled(w, l)
    ensures Media(Step(w, l))
  {
    hide Remembers, MediaCache.Note, MediaCache.Preamble, Active, Passive, PassiveOnly, Cancelled;
    RemembersNothing();
    if l.Chunk? {
      NoteRemembersAlways(w.session.media, w.read, l.chunk);
    }
  }

  // ---- Runs ----

  /** A new session; `media` is what its standby frame left in the cache. */
  function New(media: cache): World {
    World(Session(None, 0, map[], None, false, SharedSession.Idle, false, media), map[], {}, {}, 0, {}, [], false, media)
  }

  /** `v` is what `w` becomes after some steps. */
  ghost predicate Path(w: World, labels: seq<Label>, v: World)
    decreases |labels|
  {
    if labels == [] then v == w
    else
      var last := |labels| - 1;
      exists u :: Path(w, labels[..last], u) && Enabled(u, labels[last]) && v == Step(u, labels[last])
  }

  ghost predicate Reached(media: cache, labels: seq<Label>, w: World) {
    Path(New(media), labels, w)
  }

  lemma {:induction false} PathInv(w: World, labels: seq<Label>, v: World)
    requires Inv(w) && Path(w, labels, v)
    ensures Inv(v) && v.standby == w.standby
    decreases |labels|
  {
    if labels != [] {
      var last := |labels| - 1;
      var u :| Path(w, labels[..last], u) && Enabled(u, labels[last]) && v == Step(u, labels[last]);
      PathInv(w, labels[..last], u);
      StepInv(u, labels[last]);
    }
  }

  lemma ReachedInv(media: cache, labels: seq<Label>, w: World)
    requires Reached(media, labels, w)
    ensures Inv(w) && w.standby == media
  {
    assert Inv(New(media));
    PathInv(New(media), labels, w);
  }

  lemma StepInv(w: World, l: Label)
    requires Inv(w) && Enabled(w, l)
    ensures Inv(Step(w, l)) && Step(w, l).standby == w.standby
  {
    KeepsAttachment(w, l);
    KeepsTable(w, l);
    KeepsTimers(w, l);
    KeepsPhases(w, l);
    KeepsMedia(w, l);
  }

  /** At most one helper is ever running, and it is the attached one. */
  lemma OneHelper(media: cache, labels: seq<Label>, w: World, g: nat)
    requires Reached(media, labels, w) && Running(w, g)
    ensures w.session.process == Some(g)
  {
    ReachedInv(media, labels, w);
  }

  /** The starter runs only while no helper is running, and a helper is let go only after its pump
      has waited for its exit. */
  lemma StartsAlone(media: cache, labels: seq<Label>, w: World, l: Label)
    requires Reached(media, labels, w) && Enabled(w, l)
    ensures Step(w, l).session.generation > w.session.generation ==> forall g :: !Running(w, g)
    ensures w.session.process.Some? && Step(w, l).session.process != w.session.process ==>
              At(w, w.session.process.value, Waited) && !Running(w, w.session.process.value)
              && Step(w, l).session.process == None
  {
    hide Reached, Media, Timers, Phases, MediaCache.Note, MediaCache.Preamble, Active, Passive, PassiveOnly, Cancelled;
    ReachedInv(media, labels, w);
    StepInv(w, l);
  }

  /** An active viewer has a helper; and a helper without any viewer has a live timer, or was asked
      to stop, or has exited, while the session is open. */
  lemma ViewersAndTimers(media: cache, labels: seq<Label>, w: World)
    requires Reached(media, labels, w)
    ensures Active(w.session.subscribers) ==> w.session.process.Some?
    ensures w.session.process.Some? && !w.session.closed && w.session.subscribers == map[] ==>
              || (w.session.idleTimer.Some? && w.session.idleTimer.value in w.alive + w.due)
              || w.session.process.value in w.stops || Exited(w)
    ensures w.session.process.Some? && w.session.closed ==> w.session.process.value in w.stops || Exited(w)
  {
    ReachedInv(media, labels, w);
  }

  /** Only passive viewers watch. */
  ghost predicate NobodyActive(w: World) {
    forall id | id in w.session.subscribers :: w.session.subscribers[id]
  }

  /** In every run a helper is asked to stop if and only if it is the attached one and running, and
      either the session is closed, or an idle timer comes up while no viewer is active and the
      session is open. A viewer who joined after the timer expired keeps its helper. */
  lemma StopsOnlyIdle(media: cache, labels: seq<Label>, w: World, l: Label, g: nat)
    requires Reached(media, labels, w) && Enabled(w, l)
    ensures g in Step(w, l).stops <==>
              || g in w.stops
              || (w.session.process == Some(g) && Running(w, g)
                  && (l.Close? || (l.Idle? && !w.session.closed && NobodyActive(w))))
  {
    hide MediaCache.Note, MediaCache.Preamble;
    ReachedInv(media, labels, w);
  }

  /** In every run the starter is run if and only if an active viewer comes to an open session without
      a helper; its generation is a new one, and it becomes the attached helper if it starts. */
  lemma StartsOnlyForViewers(media: cache, labels: seq<Label>, w: World, l: Label)
    requires Reached(media, labels, w) && Enabled(w, l)
    ensures var v := Step(w, l);
            var starts := l.Acquire? && !l.passive && !w.session.closed && w.session.process.None?;
            && v.session.generation == w.session.generation + (if starts then 1 else 0)
            && v.helpers.Keys == w.helpers.Keys + (if starts && l.outcome == Starts then {v.session.generation} else {})
            && (starts && l.outcome == Starts ==>
                  v.session.process == Some(v.session.generation) && Running(v, v.session.generation))
  {
    hide MediaCache.Note, MediaCache.Preamble;
    ReachedInv(media, labels, w);
  }

  /** Who watches after a step: a caller joins an open session unless an exited helper is still being
      cleaned up or no helper could be started for it; who is released leaves; a close drops everyone
      and the clean-up every active viewer. */
  lemma WatchersAfter(media: cache, labels: seq<Label>, w: World, l: Label, id: nat)
    requires Reached(media, labels, w) && Enabled(w, l)
    ensures var s, t := w.session, Step(w, l).session;
            id in t.subscribers <==>
              match l
              case Acquire(i, passive, outcome) =>
                || id in s.subscribers
                || (id == i && !s.closed && !Exited(w) && (passive || s.process.Some? || outcome == Starts))
              case Release(i) => id in s.subscribers && id != i
              case Close => false
              case Clean(_) => id in s.subscribers && s.subscribers[id]
              case _ => id in s.subscribers
    ensures l.Acquire? && l.id == id && id in Step(w, l).session.subscribers ==>
              Step(w, l).session.subscribers[id] == l.passive && Step(w, l).session.idleTimer.None?
  {
    hide MediaCache.Note, MediaCache.Preamble;
    ReachedInv(media, labels, w);
  }

  /** A timer is started if and only if a release leaves a helper without an active viewer. */
  lemma TimersOnlyForIdle(media: cache, labels: seq<Label>, w: World, l: Label)
    requires Reached(media, labels, w) && Enabled(w, l)
    ensures Step(w, l).timers != w.timers <==>
              l.Release? && w.session.process.Some? && !w.session.closed
              && forall id | id in w.session.subscribers && id != l.id :: w.session.subscribers[id]
    ensures Step(w, l).timers != w.timers ==> Step(w, l).session.idleTimer == Some(w.timers)
  {
    hide MediaCache.Note, MediaCache.Preamble;
    ReachedInv(media, labels, w);
    if l.Release? {
      ActiveLeft(w.session.subscribers, l.id);
    }
  }

  lemma ActiveLeft(subscribers: map<nat, bool>, gone: nat)
    ensures Active(subscribers - {gone}) <==> exists id :: id in subscribers && id != gone && !subscribers[id]
  {
    var left := subscribers - {gone};
    if id :| id in subscribers && id != gone && !subscribers[id] {
      assert id in left && !left[id];
    }
    if Active(left) {
      var id :| id in left && !left[id];
      assert id in subscribers && id != gone && !subscribers[id];
    }
  }

  /** A session is closed by `close` and by nothing else, and then has neither viewer nor timer. */
  lemma OnlyCloseCloses(w: World, l: Label)
    requires Enabled(w, l)
    ensures Step(w, l).session.closed <==> w.session.closed || l.Close?
    ensures l.Close? ==> Step(w, l).session.subscribers == map[] && Step(w, l).session.idleTimer.None?
  {
    hide MediaCache.Note, MediaCache.Preamble;
  }

  /** The phase that is reported after a step. */
  lemma PhaseAfter(media: cache, labels: seq<Label>, w: World, l: Label)
    requires Reached(media, labels, w) && Enabled(w, l)
    ensures var s, t := w.session, Step(w, l).session;
            t.phase == match l
              case Acquire(_, passive, outcome) =>
                if s.closed || Exited(w) || s.process.Some? then s.phase
                else if passive then Standby else if outcome == Starts then Connected else Failed
              case Close => if s.process.Some? && !Exited(w) then Stopping else s.phase
              case Idle(_) => if s.process.Some? && !Exited(w) && !s.closed && NobodyActive(w) then Stopping else s.phase
              case Chunk(_, _) => if s.phase == Connected then Streaming else s.phase
              case Clean(_) => if exists id | id in s.subscribers :: s.subscribers[id] then Standby else SharedSession.Idle
              case _ => s.phase
    ensures l.Chunk? ==> Step(w, l).session.mediaReady
  {
    hide MediaCache.Note, MediaCache.Preamble;
    ReachedInv(media, labels, w);
    if l.Clean? && (exists id | id in w.session.subscribers :: w.session.subscribers[id]) {
      var id :| id in w.session.subscribers && w.session.subscribers[id];
      assert id in PassiveOnly(w.session.subscribers);
    }
  }

  lemma ClosedStep(w: World, l: Label)
    requires Inv(w) && w.session.closed && Enabled(w, l)
    ensures var v := Step(w, l).session;
            && v.closed && v.subscribers == map[] && v.generation == w.session.generation
            && (v.process.Some? ==> v.process == w.session.process)
  {
    StepInv(w, l);
  }

  /** A closed session stays closed: no viewers, no further generation, no helper but the old one. */
  lemma {:induction false} ClosedStays(media: cache, before: seq<Label>, w: World, labels: seq<Label>, v: World)
    requires Reached(media, before, w) && w.session.closed && Path(w, labels, v)
    ensures v.session.closed && v.session.subscribers == map[] && v.session.generation == w.session.generation
    ensures v.session.process.Some? ==> v.session.process == w.session.process
    decreases |labels|
  {
    ReachedInv(media, before, w);
    if labels != [] {
      var last := |labels| - 1;
      var u :| Path(w, labels[..last], u) && Enabled(u, labels[last]) && v == Step(u, labels[last]);
      PathInv(w, labels[..last], u);
      ClosedStays(media, before, w, labels[..last], u);
      ClosedStep(u, labels[last]);
    }
  }

  /** What an active viewer gets to start with are the newest units its own helper has sent, never
      standby media and never media of an earlier helper. */
  lemma LivePreamble(media: cache, labels: seq<Label>, w: World, id: nat, outcome: Outcome)
    requires Reached(media, labels, w) && Enabled(w, Acquire(id, false, outcome))
    ensures var (next, answer) := Acquired(w.session, id, false, Exited(w), outcome);
            var v := Step(w, Acquire(id, false, outcome));
            answer.Joined? ==>
              answer.preamble == MediaCache.Preamble(MediaCache.Remembered(v.read))
  {
    ReachedInv(media, labels, w);
    StepInv(w, Acquire(id, false, outcome));
  }

  /** While a helper is attached the cache holds its newest units; without one it holds the standby
      media, or nothing once a start has failed. */
  lemma MediaOfGeneration(media: cache, labels: seq<Label>, w: World)
    requires Reached(media, labels, w)
    ensures w.session.process.Some? ==>
              w.session.media.(scan := []) == MediaCache.Remembered(w.read).(scan := [])
    ensures w.session.process.None? ==>
              w.session.media.(scan := []) == if w.failed then MediaCache.NOTHING else media.(scan := [])
    ensures w.session.process.Some? <==> w.session.phase in {Connected, Streaming, Stopping}
    ensures w.session.mediaReady ==> w.session.process.Some? && w.read != []
  {
    ReachedInv(media, labels, w);
  }

  lemma KeepsGood(w: World, l: Label)
    requires Enabled(w, l) && MediaCache.Good(w.session.media) && MediaCache.Good(w.standby)
    ensures MediaCache.Good(Step(w, l).session.media) && Step(w, l).standby == w.standby
  {
    hide MediaCache.Note, MediaCache.Kept, MediaCache.Preamble, Active, Passive, PassiveOnly, Cancelled;
    MediaCache.NothingGood();
    if l.Chunk? {
      MediaCache.NoteGood(w.session.media, l.chunk);
    }
  }

  lemma {:induction false} PathGood(w: World, labels: seq<Label>, v: World)
    requires Path(w, labels, v) && MediaCache.Good(w.session.media) && MediaCache.Good(w.standby)
    ensures MediaCache.Good(v.session.media) && v.standby == w.standby
    decreases |labels|
  {
    if labels != [] {
      var last := |labels| - 1;
      var u :| Path(w, labels[..last], u) && Enabled(u, labels[last]) && v == Step(u, labels[last]);
      PathGood(w, labels[..last], u);
      KeepsGood(u, labels[last]);
    }
  }

  /** In every run, trimming included, the preamble of any viewer is empty or reads, up to the next
      start code, as one sequence parameter set, one picture parameter set and at most one key
      frame, each whole. */
  lemma PreambleDecodes(media: cache, labels: seq<Label>, w: World, id: nat, passive: bool, outcome: Outcome)
    requires MediaCache.Good(media) && Reached(media, labels, w) && Enabled(w, Acquire(id, passive, outcome))
    ensures var answer := Acquired(w.session, id, passive, Exited(w), outcome).1;
            answer.Joined? && answer.preamble != [] ==>
              exists c :: && MediaCache.Good(c) && c.sps != [] && c.pps != []
                          && MediaCache.Units(answer.preamble + MediaCache.CODE) == MediaCache.Cut(MediaCache.Entries(c), MediaCache.CODE)
    ensures var answer := Acquired(w.session, id, passive, Exited(w), outcome).1;
            answer.Joined? ==>
              answer.preamble == MediaCache.Preamble(Step(w, Acquire(id, passive, outcome)).session.media)
  {
    PathGood(New(media), labels, w);
    KeepsGood(w, Acquire(id, passive, outcome));
    MediaCache.PreambleReadBack(Acquired(w.session, id, passive, Exited(w), outcome).0.media);
  }

  /** The clean-up of a helper drops its active viewers and keeps every passive one. */
  lemma PassiveSurvive(w: World, g: nat)
    requires Inv(w) && Enabled(w, Clean(g))
    ensures var v := Step(w, Clean(g));
            && v.session.process == None
            && forall id :: id in v.session.subscribers <==> id in w.session.subscribers && w.session.subscribers[id]
  {
  }
}
