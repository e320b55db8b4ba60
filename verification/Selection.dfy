/** `CameraAuthenticator.authenticate_resource`: attempts in order, at most one open session. */
module Selection {
  import opened Bytes
  import opened Auth

  /** What the native cycle reports about one attempt. */
  datatype Verdict = Verdict(connected: bool, loginSent: bool, responseReceived: bool, authenticated: bool,
                             loginResult: Option<int>) {
    /** The camera itself refused the credential. */
    predicate Explicit() {
      connected && loginSent && responseReceived && !authenticated && loginResult.Some? && loginResult.value != 0
    }
  }

  /** One attempt: it raises, or it answers and may leave a native session open. */
  datatype Attempt = Raises | Answers(verdict: Verdict, resource: Option<nat>)

  /** How attempts end, by their number and candidate. */
  type Camera = (nat, Candidate) -> Attempt

  datatype Entry = Entry(source: Source, sourceUid: Option<string>)

  type cache = map<string, Entry>

  datatype Ending =
    | Selected(candidate: Candidate, verdict: Verdict, resource: Option<nat>)
    | Rejected(results: seq<Option<int>>)
    | TransportError
    | Failed

  datatype Event = Try(candidate: Candidate) | Open(resource: nat) | Discard(resource: nat)

  // ---- The order of the attempts ----

  /** `_matches_cached`. */
  predicate Matches(c: Candidate, entry: Option<Entry>) {
    entry.Some? && c.source == entry.value.source
    && (entry.value.sourceUid.None? || c.sourceUid == entry.value.sourceUid)
  }

  /** The first candidate that the cache entry stands for; the number of candidates if none. */
  function CachedAt(available: seq<Candidate>, entry: Option<Entry>): (k: nat)
    ensures k <= |available|
    ensures k < |available| ==> Matches(available[k], entry)
  {
    if available == [] || Matches(available[0], entry) then 0 else 1 + CachedAt(available[1..], entry)
  }

  /** An attempt to make: a candidate, and whether it is the cached one. */
  datatype Turn = Turn(candidate: Candidate, cached: bool)

  function Turns(cs: seq<Candidate>): seq<Turn> {
    seq(|cs|, i requires 0 <= i < |cs| => Turn(cs[i], false))
  }

  /** The cached candidate first, then the others as they come. */
  function Ordered(available: seq<Candidate>, entry: Option<Entry>): seq<Turn> {
    var k := CachedAt(available, entry);
    if k == |available| then Turns(available)
    else [Turn(available[k], true)] + Turns(available[..k] + available[k + 1..])
  }

  function Candidates(ts: seq<Turn>): seq<Candidate> {
    seq(|ts|, i requires 0 <= i < |ts| => ts[i].candidate)
  }

  lemma TurnsCandidates(cs: seq<Candidate>)
    ensures Candidates(Turns(cs)) == cs
  {
  }

  /** Every candidate gets exactly one turn; only the first turn may be the cached one, and it is so
      exactly when some candidate matches the cache. */
  lemma OrderedPermutes(available: seq<Candidate>, entry: Option<Entry>)
    ensures multiset(Candidates(Ordered(available, entry))) == multiset(available)
    ensures forall i :: 0 < i < |Ordered(available, entry)| ==> !Ordered(available, entry)[i].cached
    ensures available != [] ==>
              (Ordered(available, entry)[0].cached <==> CachedAt(available, entry) < |available|)
    ensures available != [] && Ordered(available, entry)[0].cached ==> Matches(Ordered(available, entry)[0].candidate, entry)
  {
    var k := CachedAt(available, entry);
    if k == |available| {
      TurnsCandidates(available);
    } else {
      var rest := available[..k] + available[k + 1..];
      TurnsCandidates(rest);
      assert Candidates(Ordered(available, entry)) == [available[k]] + rest;
      assert available == available[..k] + [available[k]] + available[k + 1..];
    }
  }

  lemma OrderedLength(available: seq<Candidate>, entry: Option<Entry>)
    ensures |Ordered(available, entry)| == |available|
  {
  }

  // ---- A selection on values ----

  datatype Outcome = Outcome(ending: Ending, values: cache, events: seq<Event>)

  function Opened(resource: Option<nat>): seq<Event> {
    if resource.Some? then [Open(resource.value)] else []
  }

  function Discarded(resource: Option<nat>, discards: bool): seq<Event> {
    if resource.Some? && discards then [Discard(resource.value)] else []
  }

  function Stored(values: cache, uid: string, c: Candidate): cache {
    if c.source == Manual then values else values[uid := Entry(c.source, c.sourceUid)]
  }

  function Forgotten(values: cache, uid: string, cached: bool): cache {
    if cached then values - {uid} else values
  }

  /** The turns from attempt number `number` on. */
  function Go(uid: string, ts: seq<Turn>, number: nat, camera: Camera, discards: bool, values: cache,
              results: seq<Option<int>>): Outcome
    decreases |ts|
  {
    if ts == [] then Outcome(Rejected(results), values, [])
    else
      var c := ts[0].candidate;
      match camera(number, c)
      case Raises => Outcome(Failed, values, [Try(c)])
      case Answers(verdict, resource) =>
        var begun := [Try(c)] + Opened(resource);
        if verdict.authenticated then
          Outcome(Selected(c, verdict, resource), Stored(values, uid, c), begun)
        else
          var closed := begun + Discarded(resource, discards);
          if !verdict.Explicit() then Outcome(TransportError, values, closed)
          else
            var rest := Go(uid, ts[1..], number + 1, camera, discards, Forgotten(values, uid, ts[0].cached),
                           results + [verdict.loginResult]);
            rest.(events := closed + rest.events)
  }

  function Entered(values: cache, uid: string): Option<Entry> {
    if uid in values then Some(values[uid]) else None
  }

  function Authenticated(uid: string, available: seq<Candidate>, camera: Camera, discards: bool, values: cache): Outcome {
    Go(uid, Ordered(available, Entered(values, uid)), 1, camera, discards, values, [])
  }

  // ---- What holds of every selection ----

  /** The candidates tried, in order. */
  function Tried(events: seq<Event>): seq<Candidate> {
    if events == [] then []
    else (if events[0].Try? then [events[0].candidate] else []) + Tried(events[1..])
  }

  /** The sessions open after some events; nothing when one was closed that was not open. */
  function Live(events: seq<Event>, open: multiset<nat>): Option<multiset<nat>>
    decreases |events|
  {
    if events == [] then Some(open)
    else
      match events[0]
      case Try(_) => if open == multiset{} then Live(events[1..], open) else None
      case Open(r) => Live(events[1..], open + multiset{r})
      case Discard(r) => if r in open then Live(events[1..], open - multiset{r}) else None
  }

  lemma {:induction false} LiveAppend(a: seq<Event>, b: seq<Event>, open: multiset<nat>)
    ensures Live(a + b, open) == match Live(a, open) case None => None case Some(left) => Live(b, left)
    decreases |a|
  {
    if a == [] {
      assert a + b == b;
    } else {
      assert (a + b)[1..] == a[1..] + b;
      match a[0]
      case Try(_) => LiveAppend(a[1..], b, open);
      case Open(r) => LiveAppend(a[1..], b, open + multiset{r});
      case Discard(r) => LiveAppend(a[1..], b, open - multiset{r});
    }
  }

  lemma {:induction false} TriedAppend(a: seq<Event>, b: seq<Event>)
    ensures Tried(a + b) == Tried(a) + Tried(b)
    decreases |a|
  {
    if a == [] {
      assert a + b == b;
    } else {
      var first: seq<Event> := [a[0]];
      assert a == first + a[1..] && (a + b)[1..] == a[1..] + b;
      TriedAppend(a[1..], b);
    }
  }

  function Held(resource: Option<nat>): multiset<nat> {
    if resource.Some? then multiset{resource.value} else multiset{}
  }

  lemma LiveBegun(c: Candidate, resource: Option<nat>)
    ensures Live([Try(c)] + Opened(resource), multiset{}) == Some(Held(resource))
  {
    var begun := [Try(c)] + Opened(resource);
    assert begun[1..] == Opened(resource);
    if resource.Some? {
      var last := Opened(resource);
      assert last[1..] == [];
      assert multiset{} + multiset{resource.value} == multiset{resource.value};
      assert Live(last, multiset{}) == Live(last[1..], multiset{resource.value});
    }
  }

  lemma LiveClosed(c: Candidate, resource: Option<nat>)
    ensures Live([Try(c)] + Opened(resource) + Discarded(resource, true), multiset{}) == Some(multiset{})
  {
    LiveBegun(c, resource);
    LiveAppend([Try(c)] + Opened(resource), Discarded(resource, true), multiset{});
    if resource.Some? {
      assert Discarded(resource, true)[1..] == [];
      assert multiset{resource.value} - multiset{resource.value} == multiset{};
    }
  }

  lemma TriedOnce(c: Candidate, resource: Option<nat>, discards: bool)
    ensures Tried([Try(c)]) == [c] && Tried([Try(c)] + Opened(resource)) == [c]
    ensures Tried([Try(c)] + Opened(resource) + Discarded(resource, discards)) == [c]
  {
    var one: seq<Event> := [Try(c)];
    assert one[1..] == [];
    TriedAppend(one, Opened(resource));
    TriedAppend(one + Opened(resource), Discarded(resource, discards));
    assert resource.Some? ==> Opened(resource)[1..] == [];
    assert resource.Some? && discards ==> Discarded(resource, discards)[1..] == [];
  }

  /** No attempt begins while a session is open, and in the end none is open but the one that is
      handed to the caller. */
  lemma {:induction false} GoLive(uid: string, ts: seq<Turn>, number: nat, camera: Camera, values: cache, results: seq<Option<int>>)
    ensures var o := Go(uid, ts, number, camera, true, values, results);
            Live(o.events, multiset{}) == Some(if o.ending.Selected? then Held(o.ending.resource) else multiset{})
    decreases |ts|
  {
    if ts != [] {
      var c := ts[0].candidate;
      match camera(number, c)
      case Raises =>
        var one: seq<Event> := [Try(c)];
        assert one[1..] == [];
      case Answers(verdict, resource) =>
        LiveBegun(c, resource);
        LiveClosed(c, resource);
        if verdict.Explicit() {
          var later := Forgotten(values, uid, ts[0].cached);
          var rest := Go(uid, ts[1..], number + 1, camera, true, later, results + [verdict.loginResult]);
          GoLive(uid, ts[1..], number + 1, camera, later, results + [verdict.loginResult]);
          LiveAppend([Try(c)] + Opened(resource) + Discarded(resource, true), rest.events, multiset{});
        }
    }
  }

  /** Without a way to discard, nothing is discarded. */
  lemma {:induction false} GoKeeps(uid: string, ts: seq<Turn>, number: nat, camera: Camera, values: cache, results: seq<Option<int>>)
    ensures forall e | e in Go(uid, ts, number, camera, false, values, results).events :: !e.Discard?
    decreases |ts|
  {
    if ts != [] {
      match camera(number, ts[0].candidate)
      case Raises =>
      case Answers(verdict, resource) =>
        GoKeeps(uid, ts[1..], number + 1, camera, Forgotten(values, uid, ts[0].cached), results + [verdict.loginResult]);
    }
  }

  /** The camera refuses the candidate of an attempt. */
  predicate Refused(a: Attempt) {
    a.Answers? && a.verdict.Explicit()
  }

  /** How many attempts from number `number` on the camera refuses before one ends otherwise. */
  function Refusals(ts: seq<Turn>, number: nat, camera: Camera): (k: nat)
    ensures k <= |ts|
    decreases |ts|
  {
    if ts == [] || !Refused(camera(number, ts[0].candidate)) then 0 else 1 + Refusals(ts[1..], number + 1, camera)
  }

  lemma {:induction false} RefusalsAt(ts: seq<Turn>, number: nat, camera: Camera, i: nat)
    requires i <= Refusals(ts, number, camera) && i < |ts|
    ensures Refused(camera(number + i, ts[i].candidate)) <==> i < Refusals(ts, number, camera)
    decreases |ts|
  {
    if i > 0 {
      RefusalsAt(ts[1..], number + 1, camera, i - 1);
    }
  }

  /** The attempt that ended the selection ended it as reported. */
  predicate EndsWith(ending: Ending, c: Candidate, a: Attempt) {
    match ending
    case Selected(candidate, verdict, resource) => c == candidate && a == Answers(verdict, resource) && verdict.authenticated
    case TransportError => a.Answers? && !a.verdict.authenticated && !a.verdict.Explicit()
    case Failed => a.Raises?
    case Rejected(_) => false
  }

  /** One refused attempt, and the selection goes on. */
  lemma GoRefused(uid: string, ts: seq<Turn>, number: nat, camera: Camera, discards: bool, values: cache, results: seq<Option<int>>)
    returns (rest: Outcome, later: cache, more: seq<Option<int>>)
    requires ts != [] && Refused(camera(number, ts[0].candidate))
    ensures rest == Go(uid, ts[1..], number + 1, camera, discards, later, more)
    ensures var o := Go(uid, ts, number, camera, discards, values, results);
            o.ending == rest.ending && o.values == rest.values
            && Tried(o.events) == [ts[0].candidate] + Tried(rest.events)
    ensures later == Forgotten(values, uid, ts[0].cached)
  {
    var a := camera(number, ts[0].candidate);
    later, more := Forgotten(values, uid, ts[0].cached), results + [a.verdict.loginResult];
    rest := Go(uid, ts[1..], number + 1, camera, discards, later, more);
    TriedOnce(ts[0].candidate, a.resource, discards);
    TriedAppend([Try(ts[0].candidate)] + Opened(a.resource) + Discarded(a.resource, discards), rest.events);
  }

  lemma GoEnds(uid: string, ts: seq<Turn>, number: nat, camera: Camera, discards: bool, values: cache, results: seq<Option<int>>)
    requires ts != [] && !Refused(camera(number, ts[0].candidate))
    ensures var o := Go(uid, ts, number, camera, discards, values, results);
            EndsWith(o.ending, ts[0].candidate, camera(number, ts[0].candidate)) && Tried(o.events) == [ts[0].candidate]
  {
    var a := camera(number, ts[0].candidate);
    TriedOnce(ts[0].candidate, if a.Answers? then a.resource else None, discards);
  }

  /** The selection tries the candidates in order up to the first that the camera does not refuse,
      and ends as that attempt ended; it is rejected exactly when the camera refuses all of them. */
  lemma {:induction false} GoStops(uid: string, ts: seq<Turn>, number: nat, camera: Camera, discards: bool, values: cache,
                                   results: seq<Option<int>>)
    ensures var o, k := Go(uid, ts, number, camera, discards, values, results), Refusals(ts, number, camera);
            && (o.ending.Rejected? <==> k == |ts|)
            && Tried(o.events) == Candidates(ts[..if k < |ts| then k + 1 else k])
            && (k < |ts| ==> EndsWith(o.ending, ts[k].candidate, camera(number + k, ts[k].candidate)))
    decreases |ts|
  {
    if ts == [] {
    } else if Refused(camera(number, ts[0].candidate)) {
      var rest, later, more := GoRefused(uid, ts, number, camera, discards, values, results);
      GoStops(uid, ts[1..], number + 1, camera, discards, later, more);
      CandidatesFirst(ts, Refusals(ts[1..], number + 1, camera));
    } else {
      GoEnds(uid, ts, number, camera, discards, values, results);
      assert Candidates(ts[..1]) == [ts[0].candidate];
    }
  }

  /** What the camera answered to each candidate, in order. */
  function Codes(ts: seq<Turn>, number: nat, camera: Camera): seq<Option<int>>
    decreases |ts|
  {
    if ts == [] then []
    else
      var a := camera(number, ts[0].candidate);
      [if a.Answers? then a.verdict.loginResult else None] + Codes(ts[1..], number + 1, camera)
  }

  /** A rejection reports what the camera answered to every candidate. */
  lemma {:induction false} GoReports(uid: string, ts: seq<Turn>, number: nat, camera: Camera, discards: bool, values: cache,
                                     results: seq<Option<int>>)
    ensures var o := Go(uid, ts, number, camera, discards, values, results);
            o.ending.Rejected? ==> o.ending.results == results + Codes(ts, number, camera)
    decreases |ts|
  {
    if ts == [] {
      assert results + [] == results;
    } else if Refused(camera(number, ts[0].candidate)) {
      var code := camera(number, ts[0].candidate).verdict.loginResult;
      GoReports(uid, ts[1..], number + 1, camera, discards, Forgotten(values, uid, ts[0].cached), results + [code]);
      assert results + [code] + Codes(ts[1..], number + 1, camera) == results + ([code] + Codes(ts[1..], number + 1, camera));
    }
  }

  lemma CandidatesFirst(ts: seq<Turn>, k: nat)
    requires k < |ts|
    ensures Candidates(ts[..k + 1]) == [ts[0].candidate] + Candidates(ts[1..][..k])
    ensures k + 1 < |ts| ==> Candidates(ts[..k + 2]) == [ts[0].candidate] + Candidates(ts[1..][..k + 1])
  {
  }

  /** The cache afterwards: a refused cached entry is forgotten, an accepted candidate is stored,
      unless it is the manual one. */
  lemma {:induction false} GoCache(uid: string, ts: seq<Turn>, number: nat, camera: Camera, discards: bool, values: cache,
                                   results: seq<Option<int>>)
    requires forall i :: 0 < i < |ts| ==> !ts[i].cached
    ensures var o := Go(uid, ts, number, camera, discards, values, results);
            var kept := Forgotten(values, uid, Refusals(ts, number, camera) > 0 && ts[0].cached);
            o.values == if o.ending.Selected? then Stored(kept, uid, o.ending.candidate) else kept
    decreases |ts|
  {
    if ts != [] && Refused(camera(number, ts[0].candidate)) {
      var rest, later, more := GoRefused(uid, ts, number, camera, discards, values, results);
      assert forall i :: 0 < i < |ts| ==> ts[i] == ts[1..][i - 1];
      assert |ts| > 1 ==> !ts[1..][0].cached;
      GoCache(uid, ts[1..], number + 1, camera, discards, later, more);
    }
  }

  /** A selection for one camera changes no other camera's entry. */
  lemma OthersKept(uid: string, available: seq<Candidate>, camera: Camera, discards: bool, values: cache, other: string)
    requires other != uid
    ensures Entered(Authenticated(uid, available, camera, discards, values).values, other) == Entered(values, other)
  {
    var ts := Ordered(available, Entered(values, uid));
    OrderedPermutes(available, Entered(values, uid));
    GoCache(uid, ts, 1, camera, discards, values, []);
  }

  /** What becomes of the camera's own entry. */
  lemma OwnEntry(uid: string, available: seq<Candidate>, camera: Camera, discards: bool, values: cache)
    ensures var o := Authenticated(uid, available, camera, discards, values);
            var ts := Ordered(available, Entered(values, uid));
            && (o.ending.Selected? && o.ending.candidate.source != Manual ==>
                  Entered(o.values, uid) == Some(Entry(o.ending.candidate.source, o.ending.candidate.sourceUid)))
            && (!o.ending.Selected? ==>
                  Entered(o.values, uid) == if Refusals(ts, 1, camera) > 0 && ts[0].cached then None else Entered(values, uid))
  {
    var ts := Ordered(available, Entered(values, uid));
    OrderedPermutes(available, Entered(values, uid));
    GoCache(uid, ts, 1, camera, discards, values, []);
  }

  /** The whole selection: a prefix of the cache-first order is tried, up to the first candidate
      that the camera does not refuse; it ends in a rejection exactly when the camera refuses all;
      and with a way to discard, sessions never overlap and none is left but the selected one. */
  lemma SelectionIsSound(uid: string, available: seq<Candidate>, camera: Camera, discards: bool, values: cache)
    ensures var o := Authenticated(uid, available, camera, discards, values);
            var ts := Ordered(available, Entered(values, uid));
            var k := Refusals(ts, 1, camera);
            && Tried(o.events) == Candidates(ts[..if k < |ts| then k + 1 else k])
            && (o.ending.Rejected? <==> k == |available|)
            && (k < |available| ==> EndsWith(o.ending, ts[k].candidate, camera(1 + k, ts[k].candidate)))
            && (discards ==> Live(o.events, multiset{}) == Some(if o.ending.Selected? then Held(o.ending.resource) else multiset{}))
            && (!discards ==> forall e | e in o.events :: !e.Discard?)
  {
    var ts := Ordered(available, Entered(values, uid));
    OrderedLength(available, Entered(values, uid));
    GoStops(uid, ts, 1, camera, discards, values, []);
    if discards {
      GoLive(uid, ts, 1, camera, values, []);
    } else {
      GoKeeps(uid, ts, 1, camera, values, []);
    }
  }

  // ---- The whole outcome, told by the facts of the answers ----

  /** The camera was reached, was asked, answered, did not let us in and gave a code other than 0. */
  ghost predicate Declines(a: Attempt) {
    match a
    case Raises => false
    case Answers(v, _) =>
      && v.connected && v.loginSent && v.responseReceived && !v.authenticated
      && v.loginResult != None && v.loginResult != Some(0)
  }

  lemma {:induction false} CodesAt(ts: seq<Turn>, number: nat, camera: Camera)
    ensures |Codes(ts, number, camera)| == |ts|
    ensures forall i | 0 <= i < |ts| && camera(number + i, ts[i].candidate).Answers? ::
              Codes(ts, number, camera)[i] == camera(number + i, ts[i].candidate).verdict.loginResult
    decreases |ts|
  {
    if ts != [] {
      CodesAt(ts[1..], number + 1, camera);
      forall i | 0 <= i < |ts| && camera(number + i, ts[i].candidate).Answers?
        ensures Codes(ts, number, camera)[i] == camera(number + i, ts[i].candidate).verdict.loginResult
      {
        if i > 0 {
          assert ts[1..][i - 1] == ts[i] && number + 1 + (i - 1) == number + i;
        }
      }
    }
  }

  /** The camera declines attempts 0..k, and not attempt k. */
  ghost predicate DeclinesFirst(ts: seq<Turn>, camera: Camera, k: nat) {
    && k <= |ts| && (forall i | 0 <= i < k :: Declines(camera(1 + i, ts[i].candidate)))
    && (k < |ts| ==> !Declines(camera(1 + k, ts[k].candidate)))
  }

  /** What the camera said to each candidate, in order. */
  ghost predicate Said(results: seq<Option<int>>, ts: seq<Turn>, camera: Camera) {
    && |results| == |ts|
    && forall i | 0 <= i < |ts| ::
         var a := camera(1 + i, ts[i].candidate); a.Answers? && results[i] == a.verdict.loginResult
  }

  /** How a selection ends with the first attempt that the camera does not decline. */
  function Decided(c: Candidate, a: Attempt): Ending {
    match a
    case Raises => Failed
    case Answers(verdict, resource) => if verdict.authenticated then Selected(c, verdict, resource) else TransportError
  }

  /** The outcome of a selection. Attempts go on while the camera declines. The first it does not
      decline decides: it raised, or let us in, or is a transport error, and there is no later one.
      The entry of the camera is forgotten when the first attempt was the cached one and was declined,
      and set when a candidate other than the manual one is let in; nothing else happens to it. */
  lemma SelectionOutcome(uid: string, available: seq<Candidate>, camera: Camera, discards: bool, values: cache)
    returns (k: nat)
    ensures var o := Authenticated(uid, available, camera, discards, values);
            var ts := Ordered(available, Entered(values, uid));
            var kept := if k > 0 && ts != [] && ts[0].cached then values - {uid} else values;
            && |ts| == |available| && DeclinesFirst(ts, camera, k)
            && Tried(o.events) == Candidates(ts[..if k < |ts| then k + 1 else k])
            && (k == |ts| ==> o.ending.Rejected? && Said(o.ending.results, ts, camera))
            && (k < |ts| ==> o.ending == Decided(ts[k].candidate, camera(1 + k, ts[k].candidate)))
            && o.values == (if o.ending.Selected? && o.ending.candidate.source != Manual
                            then kept[uid := Entry(o.ending.candidate.source, o.ending.candidate.sourceUid)] else kept)
  {
    hide Go, Refusals, Ordered, Tried, Candidates, Codes, DeclinesFirst, Said;
    var ts := Ordered(available, Entered(values, uid));
    k := Refusals(ts, 1, camera);
    OrderedLength(available, Entered(values, uid));
    OrderedPermutes(available, Entered(values, uid));
    DeclinedUpTo(ts, camera);
    GoStops(uid, ts, 1, camera, discards, values, []);
    GoCache(uid, ts, 1, camera, discards, values, []);
    if k == |ts| {
      GoReports(uid, ts, 1, camera, discards, values, []);
      DeclinedCodes(ts, camera);
    } else {
      NotDeclined(ts, camera, k);
    }
  }

  lemma DeclinedUpTo(ts: seq<Turn>, camera: Camera)
    ensures DeclinesFirst(ts, camera, Refusals(ts, 1, camera))
  {
    forall i | 0 <= i <= Refusals(ts, 1, camera) && i < |ts|
      ensures Refused(camera(1 + i, ts[i].candidate)) <==> i < Refusals(ts, 1, camera)
    {
      RefusalsAt(ts, 1, camera, i);
    }
  }

  lemma NotDeclined(ts: seq<Turn>, camera: Camera, k: nat)
    requires k < |ts| && DeclinesFirst(ts, camera, k)
    ensures !Declines(camera(1 + k, ts[k].candidate))
  {
  }

  lemma DeclinedCodes(ts: seq<Turn>, camera: Camera)
    requires DeclinesFirst(ts, camera, |ts|)
    ensures Said([] + Codes(ts, 1, camera), ts, camera)
  {
    CodesAt(ts, 1, camera);
    assert [] + Codes(ts, 1, camera) == Codes(ts, 1, camera);
  }

  /** Rejected if and only if every candidate was tried over a working connection and refused. */
  lemma RejectedIff(uid: string, available: seq<Candidate>, camera: Camera, discards: bool, values: cache)
    ensures var ts := Ordered(available, Entered(values, uid));
            Authenticated(uid, available, camera, discards, values).ending.Rejected? <==>
              forall i | 0 <= i < |ts| ::
                var a := camera(1 + i, ts[i].candidate);
                && a.Answers? && a.verdict.connected && a.verdict.loginSent && a.verdict.responseReceived
                && !a.verdict.authenticated && a.verdict.loginResult.Some? && a.verdict.loginResult.value != 0
  {
    var k := SelectionOutcome(uid, available, camera, discards, values);
    var ts := Ordered(available, Entered(values, uid));
    if k < |ts| {
      NotDeclined(ts, camera, k);
    }
  }

  /** The cached candidate is the first of the same source and, if the entry names a device, of that
      device; it is tried first and the others follow as they come. */
  lemma OrderedIs(available: seq<Candidate>, entry: Option<Entry>) returns (k: nat)
    ensures k <= |available|
    ensures forall i | 0 <= i < k ::
              || entry == None || available[i].source != entry.value.source
              || (entry.value.sourceUid != None && available[i].sourceUid != entry.value.sourceUid)
    ensures k < |available| ==>
              && entry != None && available[k].source == entry.value.source
              && (entry.value.sourceUid == None || available[k].sourceUid == entry.value.sourceUid)
    ensures Ordered(available, entry)
         == (if k < |available| then [Turn(available[k], true)] + Turns(available[..k] + available[k + 1..]) else Turns(available))
  {
    k := CachedAt(available, entry);
    NoneBefore(available, entry);
  }

  lemma {:induction false} NoneBefore(available: seq<Candidate>, entry: Option<Entry>)
    ensures forall i | 0 <= i < CachedAt(available, entry) :: !Matches(available[i], entry)
  {
    if available != [] && !Matches(available[0], entry) {
      NoneBefore(available[1..], entry);
      forall i | 0 <= i < CachedAt(available, entry)
        ensures !Matches(available[i], entry)
      {
        assert i > 0 ==> available[i] == available[1..][i - 1];
      }
    }
  }

  // ---- The authenticator object ----

  /** The first `i` candidates but for number `k`. */
  function Without(available: seq<Candidate>, k: nat, i: nat): seq<Candidate>
    requires i <= |available|
  {
    if i <= k then available[..i] else available[..k] + available[k + 1..i]
  }

  lemma NoneYet(available: seq<Candidate>, k: nat)
    ensures Turns(Without(available, k, 0)) == []
  {
  }

  lemma WithoutNext(available: seq<Candidate>, k: nat, i: nat)
    requires i < |available|
    ensures Without(available, k, i + 1) == if i == k then Without(available, k, i) else Without(available, k, i) + [available[i]]
  {
  }

  lemma WithoutAll(available: seq<Candidate>, k: nat, entry: Option<Entry>)
    requires k == CachedAt(available, entry)
    ensures Ordered(available, entry)
         == (if k < |available| then [Turn(available[k], true)] else []) + Turns(Without(available, k, |available|))
  {
    assert available[..|available|] == available;
    assert k < |available| ==> available[k + 1..|available|] == available[k + 1..];
  }

  lemma TurnsSnoc(cs: seq<Candidate>, c: Candidate)
    ensures Turns(cs + [c]) == Turns(cs) + [Turn(c, false)]
  {
  }

  function Later(done: seq<Event>, o: Outcome): Outcome {
    o.(events := done + o.events)
  }

  /** What one attempt does to the camera. */
  function Performed(c: Candidate, a: Attempt, discards: bool): seq<Event> {
    if a.Raises? then [Try(c)]
    else if a.verdict.authenticated then [Try(c)] + Opened(a.resource)
    else [Try(c)] + Opened(a.resource) + Discarded(a.resource, discards)
  }

  /** The selection from turn `i` on, told by the answer `a` to that turn. */
  function AtTurn(done: seq<Event>, uid: string, ordered: seq<Turn>, i: nat, a: Attempt, camera: Camera, discards: bool,
                  values: cache, results: seq<Option<int>>): Outcome
    requires i < |ordered|
  {
    var c := ordered[i].candidate;
    var more := done + Performed(c, a, discards);
    if a.Raises? then Outcome(Failed, values, more)
    else if a.verdict.authenticated then Outcome(Selected(c, a.verdict, a.resource), Stored(values, uid, c), more)
    else if !a.verdict.Explicit() then Outcome(TransportError, values, more)
    else
      Later(more, Go(uid, ordered[i + 1..], 1 + (i + 1), camera, discards, Forgotten(values, uid, ordered[i].cached),
                     results + [a.verdict.loginResult]))
  }

  lemma GoStep(done: seq<Event>, uid: string, ordered: seq<Turn>, i: nat, camera: Camera, discards: bool, values: cache,
               results: seq<Option<int>>)
    requires i < |ordered|
    ensures Later(done, Go(uid, ordered[i..], 1 + i, camera, discards, values, results))
         == AtTurn(done, uid, ordered, i, camera(1 + i, ordered[i].candidate), camera, discards, values, results)
  {
    assert ordered[i..][1..] == ordered[i + 1..];
  }

  /** `CameraAuthenticator` with the in-memory values of its `CredentialSourceCache`. */
  class CameraAuthenticator {
    var values: cache
    /** Everything done to the camera, oldest first. */
    var events: seq<Event>

    constructor (values: cache)
      ensures this.values == values && events == []
    {
      this.values, events := values, [];
    }

    /** The first candidate that the cache entry stands for. */
    method FindCached(available: seq<Candidate>, entry: Option<Entry>) returns (k: nat)
      ensures k == CachedAt(available, entry)
    {
      k := 0;
      while k < |available| && !Matches(available[k], entry)
        invariant k <= |available| && k + CachedAt(available[k..], entry) == CachedAt(available, entry)
      {
        assert available[k..][1..] == available[k + 1..];
        k := k + 1;
      }
    }

    /** The cached candidate in front of the others. */
    method Arrange(uid: string, available: seq<Candidate>) returns (ordered: seq<Turn>)
      ensures ordered == Ordered(available, Entered(values, uid))
    {
      hide Ordered, Turns, Without, CachedAt;
      var k := FindCached(available, Entered(values, uid));
      NoneYet(available, k);
      ordered := if k < |available| then [Turn(available[k], true)] else [];
      ghost var first := ordered;
      for i := 0 to |available|
        invariant ordered == first + Turns(Without(available, k, i))
      {
        TurnsSnoc(Without(available, k, i), available[i]);
        WithoutNext(available, k, i);
        if i != k {
          ordered := ordered + [Turn(available[i], false)];
        }
      }
      WithoutAll(available, k, Entered(values, uid));
    }

    /** One attempt: open, and discard unless the candidate was accepted. */
    method Perform(candidate: Candidate, number: nat, camera: Camera, discards: bool) returns (answer: Attempt)
      modifies this`events
      ensures answer == camera(number, candidate) && events == old(events) + Performed(candidate, answer, discards)
    {
      answer := camera(number, candidate);
      events := events + [Try(candidate)];
      if answer.Answers? && answer.resource.Some? {
        events := events + [Open(answer.resource.value)];
        if !answer.verdict.authenticated && discards {
          events := events + [Discard(answer.resource.value)];
        }
      }
    }

    /** `authenticate_resource`, with `camera` for the attempts and `discards` telling whether the
        caller gave a way to discard a session. */
    method AuthenticateResource(uid: string, available: seq<Candidate>, camera: Camera, discards: bool) returns (ending: Ending)
      modifies this
      ensures var o := Authenticated(uid, available, camera, discards, old(values));
              ending == o.ending && values == o.values && events == old(events) + o.events
    {
      var ordered := Arrange(uid, available);
      var results: seq<Option<int>> := [];
      ghost var o := Go(uid, ordered, 1, camera, discards, values, []);
      ghost var done: seq<Event> := [];
      NothingDone(o);
      assert ordered[0..] == ordered;
      for i := 0 to |ordered|
        invariant events == old(events) + done
        invariant o == Later(done, Go(uid, ordered[i..], 1 + i, camera, discards, values, results))
      {
        var candidate := ordered[i].candidate;
        GoStep(done, uid, ordered, i, camera, discards, values, results);
        var answer := Perform(candidate, 1 + i, camera, discards);
        Together(old(events), done, Performed(candidate, answer, discards));
        done := done + Performed(candidate, answer, discards);
        if answer.Raises? {
          return Failed;
        }
        if answer.verdict.authenticated {
          if candidate.source != Manual {
            values := values[uid := Entry(candidate.source, candidate.sourceUid)];
          }
          return Selected(candidate, answer.verdict, answer.resource);
        }
        if !answer.verdict.Explicit() {
          return TransportError;
        }
        results := results + [answer.verdict.loginResult];
        if ordered[i].cached {
          values := values - {uid};
        }
      }
      NothingLeft(done, uid, ordered, camera, discards, values, results);
      return Rejected(results);
    }
  }

  lemma NothingDone(o: Outcome)
    ensures Later([], o) == o
  {
    assert [] + o.events == o.events;
  }

  lemma NothingLeft(done: seq<Event>, uid: string, ordered: seq<Turn>, camera: Camera, discards: bool, values: cache,
                    results: seq<Option<int>>)
    ensures Later(done, Go(uid, ordered[|ordered|..], 1 + |ordered|, camera, discards, values, results))
         == Outcome(Rejected(results), values, done)
  {
    assert done + [] == done;
  }

  lemma Together(a: seq<Event>, b: seq<Event>, c: seq<Event>)
    ensures a + b + c == a + (b + c)
  {
  }
}
