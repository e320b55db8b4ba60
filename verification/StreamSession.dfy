/** `NativeStreamSession` in its own form: the sections under the lock as methods that update the
    fields, each tied to the function on values that `Lifecycle` and `FanOut` reason about. */
module StreamSession {
  import opened Bytes
  import opened SharedSession
  import opened MediaCache

  class NativeStreamSession {
    var process: Option<nat>
    var generation: nat
    var subscribers: map<nat, bool>
    var idleTimer: Option<nat>
    var closed: bool
    var phase: Phase
    var mediaReady: bool
    var scan: bytes
    var sps: bytes
    var pps: bytes
    var keyframe: bytes
    var standbyMedia: (bytes, bytes, bytes)

    ghost function Media(): Cache
      reads this
    {
      Cache(scan, sps, pps, keyframe)
    }

    ghost function View(): Session
      reads this
    {
      Session(process, generation, subscribers, idleTimer, closed, phase, mediaReady, Media())
    }

    /** The cache that `_restore_standby_media_locked` puts back. */
    ghost function StandbyCache(): Cache
      reads this
    {
      Cache([], standbyMedia.0, standbyMedia.1, standbyMedia.2)
    }

    constructor (standbyFrame: bytes)
      ensures View() == Session(None, 0, map[], None, false, Phase.Idle, false,
                                if standbyFrame == [] then NOTHING else Note(NOTHING, standbyFrame + [0, 0, 1]))
      ensures StandbyCache() == Media().(scan := []) && Good(Media()) && Good(StandbyCache())
    {
      hide Note, Kept;
      process, generation, subscribers, idleTimer := None, 0, map[], None;
      closed, phase, mediaReady := false, Phase.Idle, false;
      scan, sps, pps, keyframe := [], [], [], [];
      standbyMedia := ([], [], []);
      new;
      NothingGood();
      NoteGood(NOTHING, standbyFrame + [0, 0, 1]);
      if standbyFrame != [] {
        NoteMedia(standbyFrame + [0, 0, 1]);
        standbyMedia := (sps, pps, keyframe);
      }
    }

    method RecordUnit(unit: bytes)
      requires |unit| >= 3 && unit[..3] == [0, 0, 1]
      modifies this`sps, this`pps, this`keyframe
      ensures Media() == Record(old(Media()), unit)
    {
      if |unit| <= 3 || |unit| > MAX_PREAMBLE_BYTES {
        return;
      }
      assert unit[2] == unit[..3][2] == 1;
      var prefix := if |unit| >= 4 && unit[..4] == [0, 0, 0, 1] then 4 else 3;
      assert unit[..4][2] == 1;
      if |unit| <= prefix {
        return;
      }
      var kind := unit[prefix] % 32;
      if kind == 7 {
        sps := unit;
      } else if kind == 8 {
        pps := unit;
      } else if kind == 5 {
        keyframe := unit;
      }
    }

    /** The search loop of `_note_media`. */
    method FindStarts() returns (starts: seq<nat>)
      ensures starts == MediaCache.Starts(scan, 0)
    {
      starts := [];
      var position := Find(scan, 0);
      ghost var all := From(scan, position);
      while position < |scan|
        invariant starts + From(scan, position) == all
        decreases |scan| - position
      {
        FromNext(scan, starts, position);
        starts := starts + [position];
        position := Find(scan, position + 3);
      }
      FromEnds(scan, starts, position);
    }

    /** The recording loop of `_note_media`. */
    method RecordUnits(starts: seq<nat>)
      requires starts == MediaCache.Starts(scan, 0) && |starts| >= 2
      modifies this`sps, this`pps, this`keyframe
      ensures starts[|starts| - 1] < |scan|
      ensures Media() == RecordAll(old(Media()), Units(scan).units)
      ensures Units(scan).rest == scan[starts[|starts| - 1]..]
    {
      ghost var d, before := scan, Media();
      RecordBegin(before, d, starts);
      for k := 0 to |starts| - 1
        invariant RecordedFrom(Media(), d, starts, k) == RecordAll(before, Units(d).units)
      {
        RecordStep(Media(), d, starts, k);
        RecordUnit(scan[starts[k]..starts[k + 1]]);
      }
      RecordEnd(Media(), d, starts);
    }

    /** `_note_media`. */
    method NoteMedia(chunk: bytes)
      modifies this`scan, this`sps, this`pps, this`keyframe
      ensures Media() == Note(old(Media()), chunk)
    {
      ghost var before := Media();
      scan := scan + chunk;
      if |scan| > MAX_SCAN_BYTES {
        scan := scan[|scan| - MAX_SCAN_BYTES..];
      }
      ghost var d := scan;
      assert d == Trim(before.scan + chunk);
      var starts := FindStarts();
      if |starts| < 2 {
        UnitsBegin(d);
        return;
      }
      RecordAllScan(before, Units(d).units, d);
      RecordUnits(starts);
      scan := scan[starts[|starts| - 1]..];
    }

    method GetPreamble() returns (preamble: bytes)
      ensures preamble == Preamble(Media())
      ensures Good(Media()) && preamble != [] ==> Units(preamble + CODE) == Cut(Entries(Media()), CODE)
    {
      if Good(Media()) {
        PreambleReadBack(Media());
      }
      if sps == [] || pps == [] {
        return [];
      }
      preamble := sps + pps + keyframe;
      return if |preamble| <= MAX_PREAMBLE_BYTES then preamble else [];
    }

    /** `_start_locked`. */
    method StartLocked(outcome: Outcome)
      modifies this`generation, this`process, this`phase, this`mediaReady, this`scan, this`sps, this`pps, this`keyframe
      ensures View() == Started(old(View()), outcome)
    {
      generation := generation + 1;
      mediaReady := false;
      scan, sps, pps, keyframe := [], [], [], [];
      if outcome != Starts {
        phase := Failed;
        return;
      }
      process := Some(generation);
      phase := Connected;
    }

    /** One pass of the loop of `acquire`; `exited` is what `poll` says about the helper. */
    method Acquire(id: nat, passive: bool, exited: bool, outcome: Outcome) returns (answer: Answer)
      modifies this
      ensures (View(), answer) == Acquired(old(View()), id, passive, exited, outcome)
      ensures standbyMedia == old(standbyMedia)
    {
      if closed {
        return Refused;
      }
      if process.Some? && exited {
        return MustWait;
      }
      idleTimer := None;
      if !passive && process.None? {
        StartLocked(outcome);
        if outcome != Starts {
          return StartFailed;
        }
      }
      var preamble := GetPreamble();
      subscribers := subscribers[id := passive];
      if passive && process.None? {
        phase := Phase.Standby;
      }
      return Joined(preamble);
    }

    /** `release`; a timer that is needed gets the name `timer`. */
    method Release(id: nat, timer: nat)
      modifies this`subscribers, this`idleTimer
      ensures View() == Released(old(View()), id, timer)
    {
      subscribers := subscribers - {id};
      if !Active(subscribers) && process.Some? && !closed {
        idleTimer := Some(timer);
      }
    }

    /** The locked section of `close`. */
    method Close(exited: bool) returns (queues: set<nat>)
      modifies this`closed, this`idleTimer, this`phase, this`subscribers
      ensures View() == Shut(old(View()), exited) && queues == old(subscribers).Keys
    {
      closed := true;
      idleTimer := None;
      if process.Some? && !exited {
        phase := Stopping;
      }
      queues := subscribers.Keys;
      subscribers := map[];
    }

    /** The locked section of `_stop_if_idle`, and whether a helper is to be terminated after it. */
    method StopIfIdle(exited: bool) returns (stop: bool)
      modifies this`idleTimer, this`phase
      ensures (View(), stop) == Idled(old(View()), exited)
    {
      idleTimer := None;
      if Active(subscribers) || closed {
        return false;
      }
      stop := process.Some? && !exited;
      if stop {
        phase := Stopping;
      }
    }

    /** The locked section of `_pump` for one chunk, and the queues that will get the chunk. */
    method PumpChunk(chunk: bytes) returns (queues: set<nat>)
      modifies this`mediaReady, this`phase, this`scan, this`sps, this`pps, this`keyframe
      ensures View() == Noted(old(View()), chunk) && queues == subscribers.Keys
    {
      ghost var before := View();
      mediaReady := true;
      if phase == Connected {
        phase := Streaming;
      }
      assert Media() == before.media;
      NoteMedia(chunk);
      assert View() == Live(before, Media());
      queues := subscribers.Keys;
    }

    /** Remove the active subscribers one after the other. */
    method DropActive(ids: set<nat>)
      requires ids == set id | id in subscribers && !subscribers[id]
      modifies this`subscribers
      ensures subscribers == PassiveOnly(old(subscribers))
    {
      var todo := ids;
      while todo != {}
        invariant todo <= ids
        invariant subscribers == old(subscribers) - (ids - todo)
        decreases |todo|
      {
        var id :| id in todo;
        subscribers, todo := subscribers - {id}, todo - {id};
      }
    }

    /** The first locked section of the clean-up of `_pump`, and the queues that will get the end mark. */
    method PumpCleanup(helper: nat) returns (queues: set<nat>)
      modifies this
      ensures View() == Cleaned(old(View()), helper, StandbyCache()) && standbyMedia == old(standbyMedia)
      ensures queues == set id | id in old(subscribers) && !old(subscribers)[id]
    {
      queues := set id | id in subscribers && !subscribers[id];
      DropActive(queues);
      if process == Some(helper) {
        process := None;
      }
      RestoreStandbyMedia();
      phase := if Passive(subscribers) then Phase.Standby else Phase.Idle;
    }

    method RestoreStandbyMedia()
      modifies this`scan, this`sps, this`pps, this`keyframe, this`mediaReady
      ensures Media() == StandbyCache() && !mediaReady
    {
      scan := [];
      sps, pps, keyframe := standbyMedia.0, standbyMedia.1, standbyMedia.2;
      mediaReady := false;
    }
  }
}
