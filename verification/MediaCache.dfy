/** The units a shared session remembers for viewers that join late. */
module MediaCache {
  import opened Bytes

  const MAX_PREAMBLE_BYTES := 1024 * 1024
  const MAX_SCAN_BYTES := 4 * 1024 * 1024

  /** `find` of the three-byte start code from position `i` on; the length of the data if none. */
  function Find(d: bytes, i: nat): (j: nat)
    ensures i <= |d| ==> i <= j <= |d|
    ensures j < |d| ==> i <= j && j + 3 <= |d| && d[j] == 0 && d[j + 1] == 0 && d[j + 2] == 1
    decreases |d| - i
  {
    if i + 3 > |d| then |d|
    else if d[i] == 0 && d[i + 1] == 0 && d[i + 2] == 1 then i
    else Find(d, i + 1)
  }

  datatype Span = Span(from: nat, to: nat)

  /** The first unit that a second start code closes, from start code to start code. */
  function Closed(d: bytes): (r: Option<Span>)
    ensures r.Some? ==> r.value.from + 3 <= r.value.to < |d|
  {
    var p := Find(d, 0);
    if p == |d| then None
    else
      var q := Find(d, p + 3);
      if q == |d| then None else Some(Span(p, q))
  }

  datatype Cut = Cut(units: seq<bytes>, rest: bytes) {
    function After(front: seq<bytes>): Cut {
      Cut(front + units, rest)
    }
  }

  /** The complete units of a buffer, start codes included, and the bytes that stay in it. */
  function Units(d: bytes): Cut
    decreases |d|
  {
    match Closed(d)
    case None => Cut([], d)
    case Some(span) => Units(d[span.to..]).After([d[span.from..span.to]])
  }

  // ---- Chunks do not matter ----

  lemma {:induction false} FindStable(a: bytes, b: bytes, i: nat)
    requires Find(a, i) < |a|
    ensures Find(a + b, i) == Find(a, i)
    decreases |a| - i
  {
    if Find(a, i) != i {
      FindStable(a, b, i + 1);
    }
  }

  lemma ClosedStable(a: bytes, b: bytes)
    requires Closed(a).Some?
    ensures Closed(a + b) == Closed(a)
  {
    FindStable(a, b, 0);
    FindStable(a, b, Find(a, 0) + 3);
  }

  lemma AfterNothing(c: Cut)
    ensures c.After([]) == c
  {
    assert [] + c.units == c.units;
  }

  lemma AfterAfter(c: Cut, front: seq<bytes>, middle: seq<bytes>)
    ensures c.After(middle).After(front) == c.After(front + middle)
  {
    assert front + (middle + c.units) == front + middle + c.units;
  }

  lemma {:induction false} UnitsAppend(a: bytes, b: bytes)
    ensures Units(a + b) == Units(Units(a).rest + b).After(Units(a).units)
    decreases |a|
  {
    match Closed(a)
    case None =>
      AfterNothing(Units(a + b));
    case Some(span) =>
      var first, tail := [a[span.from..span.to]], a[span.to..];
      ClosedStable(a, b);
      assert (a + b)[span.to..] == tail + b;
      assert (a + b)[span.from..span.to] == a[span.from..span.to];
      UnitsAppend(tail, b);
      AfterAfter(Units(Units(tail).rest + b), first, Units(tail).units);
  }

  // ---- The cache ----

  datatype Cache = Cache(scan: bytes, sps: bytes, pps: bytes, keyframe: bytes)

  const NOTHING := Cache([], [], [], [])

  function Kind(unit: bytes): nat {
    if |unit| <= 3 || |unit| > MAX_PREAMBLE_BYTES then 0 else unit[3] % 32
  }

  /** `_record_unit` for a unit that begins with its start code. */
  function Record(c: Cache, unit: bytes): Cache {
    if Kind(unit) == 7 then c.(sps := unit)
    else if Kind(unit) == 8 then c.(pps := unit)
    else if Kind(unit) == 5 then c.(keyframe := unit)
    else c
  }

  function RecordAll(c: Cache, units: seq<bytes>): Cache
    decreases |units|
  {
    if units == [] then c else RecordAll(Record(c, units[0]), units[1..])
  }

  function Trim(scan: bytes): bytes {
    if |scan| > MAX_SCAN_BYTES then scan[|scan| - MAX_SCAN_BYTES..] else scan
  }

  /** `_note_media`. */
  function Note(c: Cache, chunk: bytes): Cache {
    var cut := Units(Trim(c.scan + chunk));
    RecordAll(c, cut.units).(scan := cut.rest)
  }

  function Preamble(c: Cache): bytes {
    if c.sps == [] || c.pps == [] then []
    else
      var preamble := c.sps + c.pps + c.keyframe;
      if |preamble| <= MAX_PREAMBLE_BYTES then preamble else []
  }

  /** The unit has something behind its start code, is not over 1 MiB, and its header is of a kind. */
  predicate IsKind(unit: bytes, kind: nat) {
    3 < |unit| <= 1024 * 1024 && unit[3] % 32 == kind
  }

  /** The last unit of a kind; nothing when there is none. */
  function Newest(units: seq<bytes>, kind: nat): bytes {
    if units == [] then []
    else
      var last := |units| - 1;
      if IsKind(units[last], kind) then units[last] else Newest(units[..last], kind)
  }

  /** The cache a generation should hold after reading some bytes. */
  function Remembered(read: bytes): Cache {
    var cut := Units(read);
    Cache(cut.rest, Newest(cut.units, 7), Newest(cut.units, 8), Newest(cut.units, 5))
  }

  lemma {:induction false} RecordAllNewest(c: Cache, units: seq<bytes>, more: seq<bytes>)
    requires c.sps == Newest(units, 7) && c.pps == Newest(units, 8) && c.keyframe == Newest(units, 5)
    ensures var d := RecordAll(c, more);
            d.sps == Newest(units + more, 7) && d.pps == Newest(units + more, 8) && d.keyframe == Newest(units + more, 5)
    decreases |more|
  {
    if more == [] {
      assert units + more == units;
    } else {
      assert (units + [more[0]])[..|units|] == units;
      RecordAllNewest(Record(c, more[0]), units + [more[0]], more[1..]);
      assert units + [more[0]] + more[1..] == units + more;
    }
  }

  // ---- What a late viewer gets ----

  predicate CodeAt(d: bytes, i: nat) {
    i + 3 <= |d| && d[i] == 0 && d[i + 1] == 0 && d[i + 2] == 1
  }

  /** A unit behind its start code, with no other start code in it. */
  ghost predicate Whole(unit: bytes) {
    CodeAt(unit, 0) && forall k: nat :: 3 <= k ==> !CodeAt(unit, k)
  }

  lemma {:induction false} FindNone(d: bytes, i: nat, k: nat)
    requires i <= k < Find(d, i)
    ensures !CodeAt(d, k)
    decreases |d| - i
  {
    if i < k && i + 3 <= |d| {
      FindNone(d, i + 1, k);
    }
  }

  lemma {:induction false} FindIs(d: bytes, i: nat, j: nat)
    requires i <= j && CodeAt(d, j) && forall k: nat | i <= k < j :: !CodeAt(d, k)
    ensures Find(d, i) == j
    decreases j - i
  {
    if i < j {
      assert !CodeAt(d, i);
      FindIs(d, i + 1, j);
    }
  }

  lemma ClosedWhole(d: bytes)
    requires Closed(d).Some?
    ensures var span := Closed(d).value; Whole(d[span.from..span.to])
  {
    var span := Closed(d).value;
    var unit := d[span.from..span.to];
    forall k: nat | 3 <= k
      ensures !CodeAt(unit, k)
    {
      if k + 3 <= |unit| {
        FindNone(d, span.from + 3, span.from + k);
      }
    }
  }

  lemma {:induction false} UnitsWhole(d: bytes)
    ensures forall u | u in Units(d).units :: Whole(u)
    decreases |d|
  {
    match Closed(d)
    case None =>
    case Some(span) =>
      ClosedWhole(d);
      UnitsWhole(d[span.to..]);
  }

  /** Each unit of the cache is whole and of its kind, or not there yet. */
  ghost predicate Kept(unit: bytes, kind: nat) {
    unit == [] || (Whole(unit) && IsKind(unit, kind))
  }

  ghost predicate Good(c: Cache) {
    Kept(c.sps, 7) && Kept(c.pps, 8) && Kept(c.keyframe, 5)
  }

  lemma NothingGood()
    ensures Good(NOTHING)
  {
  }

  lemma {:induction false} RecordAllGood(c: Cache, units: seq<bytes>)
    requires Good(c) && forall u | u in units :: Whole(u)
    ensures Good(RecordAll(c, units))
    decreases |units|
  {
    if units != [] {
      assert units[0] in units && forall u | u in units[1..] :: u in units;
      RecordAllGood(Record(c, units[0]), units[1..]);
    }
  }

  /** Whatever is read, trimming included, the cache keeps whole units of the right kinds. */
  lemma NoteGood(c: Cache, chunk: bytes)
    requires Good(c)
    ensures Good(Note(c, chunk))
  {
    UnitsWhole(Trim(c.scan + chunk));
    RecordAllGood(c, Units(Trim(c.scan + chunk)).units);
  }

  lemma WholeInFront(unit: bytes, rest: bytes)
    requires Whole(unit) && CodeAt(rest, 0)
    ensures Units(unit + rest) == Units(rest).After([unit])
  {
    var d := unit + rest;
    forall k: nat | k < |unit| && 3 <= k
      ensures !CodeAt(d, k)
    {
      if k + 3 <= |unit| {
        assert !CodeAt(unit, k);
      } else {
        assert d[k + 2] == rest[k + 2 - |unit|];
      }
    }
    assert CodeAt(d, |unit|);
    FindIs(d, 0, 0);
    FindIs(d, 3, |unit|);
    assert Closed(d) == Some(Span(0, |unit|));
    assert d[|unit|..] == rest && d[0..|unit|] == unit;
  }

  const CODE: bytes := [0, 0, 1]

  lemma OnlyCode()
    ensures Units(CODE) == Cut([], CODE) && CodeAt(CODE, 0)
  {
  }

  function Entries(c: Cache): seq<bytes> {
    [c.sps, c.pps] + if c.keyframe == [] then [] else [c.keyframe]
  }

  /** The preamble is there exactly when both parameter sets are and the whole fits; a reader of it
      finds the two sets and the key frame, in this order and nothing else, once the next start code
      arrives, and would remember the same units. */
  lemma PreambleReadBack(c: Cache)
    requires Good(c)
    ensures Preamble(c) != [] <==>
              c.sps != [] && c.pps != [] && |c.sps| + |c.pps| + |c.keyframe| <= 1024 * 1024
    ensures Preamble(c) != [] ==>
              && Units(Preamble(c) + CODE) == Cut(Entries(c), CODE)
              && Remembered(Preamble(c) + CODE) == c.(scan := CODE)
  {
    if Preamble(c) != [] {
      PreambleUnits(c);
      EntriesNewest(c);
    }
  }

  lemma PreambleUnits(c: Cache)
    requires Good(c) && Preamble(c) != []
    ensures Units(Preamble(c) + CODE) == Cut(Entries(c), CODE)
  {
    hide Units, Whole;
    OnlyCode();
    var p3 := c.keyframe + CODE;
    var p2 := c.pps + p3;
    if c.keyframe == [] {
      assert p3 == CODE;
    } else {
      WholeInFront(c.keyframe, CODE);
      WholeStarts(c.keyframe, CODE);
    }
    WholeInFront(c.pps, p3);
    WholeStarts(c.pps, p3);
    WholeInFront(c.sps, p2);
    assert Preamble(c) + CODE == c.sps + p2;
  }

  lemma WholeStarts(unit: bytes, rest: bytes)
    requires Whole(unit)
    ensures CodeAt(unit + rest, 0)
  {
  }

  lemma EntriesNewest(c: Cache)
    requires Good(c) && c.sps != [] && c.pps != []
    ensures Newest(Entries(c), 7) == c.sps && Newest(Entries(c), 8) == c.pps && Newest(Entries(c), 5) == c.keyframe
  {
    RecordAllNewest(NOTHING, [], Entries(c));
    assert [] + Entries(c) == Entries(c);
    var r1 := Record(NOTHING, c.sps);
    var r2 := Record(r1, c.pps);
    assert Entries(c)[1..][0] == c.pps;
    assert RecordAll(NOTHING, Entries(c)) == RecordAll(r2, Entries(c)[1..][1..]);
    if c.keyframe != [] {
      assert Entries(c)[1..][1..] == [c.keyframe];
      assert RecordAll(r2, [c.keyframe]) == RecordAll(Record(r2, c.keyframe), [c.keyframe][1..]);
    }
  }

  // ---- The loops of `_note_media` ----

  function Starts(d: bytes, i: nat): seq<nat>
    decreases |d| - i
  {
    var j := Find(d, i);
    if j >= |d| then [] else [j] + Starts(d, j + 3)
  }

  /** The start codes from one of them on, or from the end of the data. */
  function From(d: bytes, p: nat): seq<nat> {
    if p >= |d| then [] else [p] + Starts(d, p + 3)
  }

  lemma FromNext(d: bytes, starts: seq<nat>, p: nat)
    requires p < |d|
    ensures starts + From(d, p) == starts + [p] + From(d, Find(d, p + 3))
  {
    assert From(d, p) == [p] + Starts(d, p + 3);
  }

  lemma FromEnds(d: bytes, starts: seq<nat>, p: nat)
    requires p >= |d|
    ensures starts + From(d, p) == starts
  {
  }

  lemma {:induction false} FindShift(d: bytes, k: nat, i: nat)
    requires k <= |d|
    ensures i <= |d| - k ==> Find(d[k..], i) + k == Find(d, k + i)
    decreases |d| - i
  {
    if k + i + 3 <= |d| {
      FindShift(d, k, i + 1);
    }
  }

  lemma ClosedAt(d: bytes, p: nat)
    requires p == Find(d, p) < |d|
    ensures Closed(d[p..]) == if Find(d, p + 3) == |d| then None else Some(Span(0, Find(d, p + 3) - p))
  {
    FindShift(d, p, 0);
    FindShift(d, p, 3);
  }

  lemma DropDrop(d: bytes, p: nat, q: nat)
    requires p <= q <= |d|
    ensures d[p..][q - p..] == d[q..] && d[p..][0..q - p] == d[p..q]
  {
  }

  lemma UnitsClosed(d: bytes, p: nat, q: nat)
    requires p <= q < |d| && Closed(d[p..]) == Some(Span(0, q - p))
    ensures Units(d[p..]) == Units(d[q..]).After([d[p..q]])
  {
    UnitsSome(d[p..], Span(0, q - p));
    DropDrop(d, p, q);
  }

  lemma UnitsSome(d: bytes, span: Span)
    requires Closed(d) == Some(span)
    ensures Units(d) == Units(d[span.to..]).After([d[span.from..span.to]])
  {
  }

  lemma UnitsAt(d: bytes, p: nat)
    requires p == Find(d, p) < |d|
    ensures Units(d[p..]) == if Find(d, p + 3) == |d| then Cut([], d[p..])
                             else Units(d[Find(d, p + 3)..]).After([d[p..Find(d, p + 3)]])
  {
    ClosedAt(d, p);
    if Find(d, p + 3) < |d| {
      UnitsClosed(d, p, Find(d, p + 3));
    }
  }

  lemma FindAgain(d: bytes, i: nat)
    requires i <= |d|
    ensures Find(d, Find(d, i)) == Find(d, i)
    decreases |d| - i
  {
    if Find(d, i) != i && Find(d, i) < |d| {
      FindAgain(d, i + 1);
    }
  }

  /** Neighbouring positions in the list of start codes. */
  lemma StartsNext(d: bytes, i: nat, k: nat)
    requires i <= |d| && k < |Starts(d, i)|
    ensures var s := Starts(d, i);
            && s[k] == Find(d, s[k]) && s[k] + 3 <= |d| && Starts(d, s[k] + 3) == s[k + 1..]
            && Find(d, s[k] + 3) == (if k + 1 < |s| then s[k + 1] else |d|)
    decreases k
  {
    var j := Find(d, i);
    FindAgain(d, i);
    var rest := Starts(d, j + 3);
    assert Starts(d, i)[1..] == rest;
    if k > 0 {
      StartsNext(d, j + 3, k - 1);
      assert rest[k..] == Starts(d, i)[k + 1..];
    } else {
      assert rest != [] ==> rest[0] == Starts(d, i)[1];
    }
  }

  lemma UnitsBegin(d: bytes)
    ensures |Starts(d, 0)| < 2 ==> Units(d) == Cut([], d)
    ensures |Starts(d, 0)| >= 2 ==> Starts(d, 0)[0] < |d| && Units(d) == Units(d[Starts(d, 0)[0]..])
  {
    var s := Starts(d, 0);
    if s != [] {
      StartsNext(d, 0, 0);
      UnitsAt(d, s[0]);
    }
  }

  /** The cache once the units from start code number `k` on are recorded. */
  function RecordedFrom(c: Cache, d: bytes, s: seq<nat>, k: nat): Cache {
    if k < |s| && s[k] <= |d| then RecordAll(c, Units(d[s[k]..]).units) else c
  }

  /** Recording the unit between two neighbouring start codes is one turn of the second loop. */
  lemma RecordStep(c: Cache, d: bytes, s: seq<nat>, k: nat)
    requires s == Starts(d, 0) && k + 1 < |s|
    ensures s[k] + 3 <= s[k + 1] < |d| && d[s[k]..s[k + 1]][..3] == [0, 0, 1]
    ensures RecordedFrom(c, d, s, k) == RecordedFrom(Record(c, d[s[k]..s[k + 1]]), d, s, k + 1)
    ensures Units(d[s[k]..]).rest == Units(d[s[k + 1]..]).rest
  {
    StartsNext(d, 0, k);
    UnitsAt(d, s[k]);
    RecordFirst(c, d[s[k]..s[k + 1]], Units(d[s[k + 1]..]));
    BeginsWithCode(d, s[k], s[k + 1]);
  }

  lemma RecordFirst(c: Cache, unit: bytes, tail: Cut)
    ensures RecordAll(c, tail.After([unit]).units) == RecordAll(Record(c, unit), tail.units)
  {
    assert ([unit] + tail.units)[1..] == tail.units;
  }

  lemma BeginsWithCode(d: bytes, p: nat, q: nat)
    requires p == Find(d, p) && p + 3 <= q <= |d|
    ensures d[p..q][..3] == [0, 0, 1]
  {
  }

  lemma {:induction false} RecordAllScan(c: Cache, units: seq<bytes>, scan: bytes)
    ensures RecordAll(c.(scan := scan), units) == RecordAll(c, units).(scan := scan)
    decreases |units|
  {
    if units != [] {
      assert Record(c.(scan := scan), units[0]) == Record(c, units[0]).(scan := scan);
      RecordAllScan(Record(c, units[0]), units[1..], scan);
    }
  }

  lemma UnitsEnd(d: bytes, s: seq<nat>, last: nat)
    requires s == Starts(d, 0) && last + 1 == |s|
    ensures s[last] < |d| && Units(d[s[last]..]) == Cut([], d[s[last]..])
  {
    StartsNext(d, 0, last);
    UnitsAt(d, s[last]);
  }

  /** What stays in the buffer begins at the last start code. */
  lemma {:induction false} RestAt(d: bytes, s: seq<nat>, k: nat)
    requires s == Starts(d, 0) && k < |s|
    ensures s[k] < |d| && s[|s| - 1] < |d| && Units(d[s[k]..]).rest == d[s[|s| - 1]..]
    decreases |s| - k
  {
    if k + 1 == |s| {
      UnitsEnd(d, s, k);
    } else {
      RecordStep(NOTHING, d, s, k);
      RestAt(d, s, k + 1);
    }
  }

  lemma RecordBegin(c: Cache, d: bytes, s: seq<nat>)
    requires s == Starts(d, 0) && |s| >= 2
    ensures RecordedFrom(c, d, s, 0) == RecordAll(c, Units(d).units)
    ensures s[|s| - 1] < |d| && Units(d).rest == d[s[|s| - 1]..]
  {
    UnitsBegin(d);
    RestAt(d, s, 0);
  }

  lemma RecordEnd(c: Cache, d: bytes, s: seq<nat>)
    requires s == Starts(d, 0) && s != []
    ensures RecordedFrom(c, d, s, |s| - 1) == c
  {
    UnitsEnd(d, s, |s| - 1);
  }
}
