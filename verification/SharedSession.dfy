/** `NativeStreamSession`: what each section under the lock does, on values and on the object. */
module SharedSession {
  import opened Bytes
  import MediaCache

  type cache = MediaCache.Cache

  datatype Phase = Idle | Standby | Connected | Streaming | Stopping | Failed

  /** The fields that the sections under the lock share. A helper process is named by the
      generation it was started in; subscribers map their id to whether they are passive. */
  datatype Session = Session(process: Option<nat>, generation: nat, subscribers: map<nat, bool>, idleTimer: Option<nat>,
                             closed: bool, phase: Phase, mediaReady: bool, media: cache)

  /** How the starter ends: it raises, returns a helper without pipes, or returns a helper. */
  datatype Outcome = Raises | NoPipes | Starts

  datatype Answer = Refused | MustWait | StartFailed | Joined(preamble: bytes)

  predicate Active(subscribers: map<nat, bool>) {
    exists id | id in subscribers :: !subscribers[id]
  }

  predicate Passive(subscribers: map<nat, bool>) {
    exists id | id in subscribers :: subscribers[id]
  }

  /** `_start_locked`. */
  function Started(s: Session, outcome: Outcome): Session {
    var renewed := s.(generation := s.generation + 1, mediaReady := false, media := MediaCache.NOTHING);
    if outcome == Starts then renewed.(process := Some(s.generation + 1), phase := Connected)
    else renewed.(phase := Failed)
  }

  /** The section of `acquire`; `exited` is what `poll` says about the attached helper. */
  function Acquired(s: Session, id: nat, passive: bool, exited: bool, outcome: Outcome): (Session, Answer) {
    if s.closed then (s, Refused)
    else if s.process.Some? && exited then (s, MustWait)
    else
      var quiet := s.(idleTimer := None);
      var ready := if !passive && s.process.None? then Started(quiet, outcome) else quiet;
      if !passive && ready.process.None? then (ready, StartFailed)
      else
        var joined := ready.(subscribers := ready.subscribers[id := passive]);
        (if passive && ready.process.None? then joined.(phase := Standby) else joined,
         Joined(MediaCache.Preamble(ready.media)))
  }

  /** Only a caller who joins is entered in the table, and a closed session admits nobody. */
  lemma AcquiredTable(s: Session, id: nat, passive: bool, exited: bool, outcome: Outcome)
    ensures var (next, answer) := Acquired(s, id, passive, exited, outcome);
            && next.subscribers == (if answer.Joined? then s.subscribers[id := passive] else s.subscribers)
            && next.closed == s.closed && (answer.Joined? ==> !s.closed)
            && (answer.Joined? && !passive ==> next.process.Some?)
  {
  }

  /** The section of `release`; a timer that is needed gets the name `timer`. */
  function Released(s: Session, id: nat, timer: nat): Session {
    var left := s.(subscribers := s.subscribers - {id});
    if !Active(left.subscribers) && s.process.Some? && !s.closed then left.(idleTimer := Some(timer)) else left
  }

  /** The section of `close`. */
  function Shut(s: Session, exited: bool): Session {
    s.(closed := true, idleTimer := None, subscribers := map[],
       phase := if s.process.Some? && !exited then Stopping else s.phase)
  }

  /** The section of `_stop_if_idle`, and whether it goes on to terminate the attached helper. */
  function Idled(s: Session, exited: bool): (Session, bool) {
    var quiet := s.(idleTimer := None);
    if Active(s.subscribers) || s.closed || s.process.None? || exited then (quiet, false)
    else (quiet.(phase := Stopping), true)
  }

  /** The section of `_pump` for one chunk. */
  function Noted(s: Session, chunk: bytes): Session {
    Live(s, MediaCache.Note(s.media, chunk))
  }

  function Live(s: Session, media: cache): Session {
    s.(mediaReady := true, phase := if s.phase == Connected then Streaming else s.phase, media := media)
  }

  function PassiveOnly(subscribers: map<nat, bool>): map<nat, bool> {
    map id | id in subscribers && subscribers[id] :: true
  }

  /** The first section of the clean-up of the pump of a generation. */
  function Cleaned(s: Session, generation: nat, standby: cache): Session {
    var left := PassiveOnly(s.subscribers);
    s.(subscribers := left, process := if s.process == Some(generation) then None else s.process,
       media := standby.(scan := []), mediaReady := false, phase := if Passive(left) then Standby else Idle)
  }
}
