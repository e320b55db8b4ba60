/** Trimming the scan buffer loses nothing that the cache could hold: chunks are small, so what is cut
    off belongs to a unit that is too large to be kept. */
module TrimmedCache {
  import opened Bytes
  import opened MediaCache

  /** What the pump reads at once. */
  const READ_BYTES := 64 * 1024

  function First(d: bytes): nat {
    Find(d, 0)
  }

  /** From the first start code on, both are the same. */
  ghost predicate Same(x: bytes, d: bytes) {
    First(x) < |x| && First(d) < |d| && x[First(x)..] == d[First(d)..]
  }

  /** The buffer is as good as the bytes that an untrimmed one would hold: it has the same start code
      and what follows it, or it is the tail of a unit that is already too large. */
  ghost predicate Covers(scan: bytes, rest: bytes) {
    || Same(scan, rest)
    || (First(scan) == |scan| && Tail(scan, rest))
  }

  ghost predicate Tail(scan: bytes, rest: bytes) {
    scan == rest || (|scan| > MAX_PREAMBLE_BYTES + 2 && |scan| <= |rest| && rest[|rest| - |scan|..] == scan)
  }

  lemma CoversSelf(d: bytes)
    ensures Covers(d, d)
  {
  }

  // ---- Where start codes are ----

  lemma {:induction false} FindSkip(d: bytes, i: nat, k: nat)
    requires i <= k <= Find(d, i)
    ensures Find(d, k) == Find(d, i)
    decreases k - i
  {
    if i < k && i + 3 <= |d| {
      FindSkip(d, i + 1, k);
    }
  }

  /** Start codes do not overlap. */
  lemma FindPast(d: bytes, p: nat, k: nat)
    requires p == Find(d, p) < |d| && p < k <= Find(d, p + 3)
    ensures Find(d, k) == Find(d, p + 3)
  {
    if k < p + 3 {
      assert Find(d, p + 2) == Find(d, p + 3);
      assert Find(d, p + 1) == Find(d, p + 2);
    } else {
      FindSkip(d, p + 3, k);
    }
  }

  /** A code that more data completes begins at most two bytes before the end of the data. */
  lemma {:induction false} FindLate(a: bytes, b: bytes, i: nat)
    requires i <= |a| && Find(a, i) == |a|
    ensures Find(a + b, i) + 2 >= |a|
    decreases |a| - i
  {
    if i + 3 <= |a| {
      assert !CodeAt(a + b, i);
      FindLate(a, b, i + 1);
    }
  }

  lemma FirstOfTail(d: bytes, k: nat)
    requires k <= |d|
    ensures First(d[k..]) + k == Find(d, k)
  {
    FindShift(d, k, 0);
  }

  // ---- The same first code, the same units ----

  lemma UnitsFromFirst(d: bytes)
    requires First(d) < |d| && Closed(d).Some?
    ensures Units(d) == Units(d[First(d)..])
  {
    FindAgain(d, 0);
    UnitsAt(d, First(d));
  }

  lemma ClosedSame(x: bytes, d: bytes)
    requires Same(x, d)
    ensures Closed(x).Some? <==> Closed(d).Some?
  {
    var p, q := First(x), First(d);
    FindAgain(x, 0);
    FindAgain(d, 0);
    ClosedAt(x, p);
    ClosedAt(d, q);
  }

  lemma SameUnits(x: bytes, d: bytes)
    requires Same(x, d)
    ensures Units(x).units == Units(d).units && Covers(Units(x).rest, Units(d).rest)
  {
    ClosedSame(x, d);
    if Closed(x).Some? {
      UnitsFromFirst(x);
      UnitsFromFirst(d);
      CoversSelf(Units(x).rest);
    }
  }

  /** Nothing is lost by cutting in front of the first start code. */
  lemma CutEarly(d: bytes, k: nat)
    requires k <= |d| && k <= First(d) && (k == 0 || |d| - k > MAX_PREAMBLE_BYTES + 2)
    ensures Units(d[k..]).units == Units(d).units && Covers(Units(d[k..]).rest, Units(d).rest)
  {
    FindSkip(d, 0, k);
    FirstOfTail(d, k);
    if First(d) < |d| {
      assert d[k..][First(d) - k..] == d[First(d)..];
      SameUnits(d[k..], d);
    }
  }

  lemma RecordLarge(c: Cache, unit: bytes, units: seq<bytes>)
    requires |unit| > MAX_PREAMBLE_BYTES
    ensures RecordAll(c, [unit] + units) == RecordAll(c, units)
  {
    assert ([unit] + units)[1..] == units;
  }

  /** Nor by cutting inside a first unit that is too large. */
  lemma CutInside(c: Cache, d: bytes, p: nat, q: nat, k: nat)
    requires p == First(d) && p < k <= q <= |d| && q == Find(d, p + 3)
    requires q - p > MAX_PREAMBLE_BYTES && |d| - k > MAX_PREAMBLE_BYTES + 2
    ensures RecordAll(c, Units(d[k..]).units) == RecordAll(c, Units(d).units)
    ensures Covers(Units(d[k..]).rest, Units(d).rest)
  {
    hide Units, RecordAll, Covers, Find;
    FindAgain(d, 0);
    FindPast(d, p, k);
    FirstOfTail(d, k);
    if q < |d| {
      UnitClosed(d, p, q);
      FindAgain(d, p + 3);
      FirstOfTail(d, q);
      DropDrop(d, k, q);
      assert d[q..][0..] == d[q..];
      SameUnits(d[k..], d[q..]);
      RecordLarge(c, d[p..q], Units(d[q..]).units);
    } else {
      UnitsOpen(d);
      UnitsOpen(d[k..]);
      CoversTail(d[k..], d);
    }
  }

  lemma UnitClosed(d: bytes, p: nat, q: nat)
    requires p == First(d) < |d| && q == Find(d, p + 3) < |d|
    ensures Units(d) == Units(d[q..]).After([d[p..q]])
  {
  }

  lemma UnitsOpen(d: bytes)
    requires First(d) == |d| || Find(d, First(d) + 3) == |d|
    ensures Units(d) == Cut([], d)
  {
  }

  lemma CoversTail(t: bytes, d: bytes)
    requires First(t) == |t| > MAX_PREAMBLE_BYTES + 2 && |t| <= |d| && d[|d| - |t|..] == t
    ensures Covers(t, d)
  {
  }

  // ---- One chunk ----

  /** The chunk is one that the pump reads, or nothing is trimmed because of it. */
  predicate LittleOrNothing(scan: bytes, chunk: bytes) {
    |chunk| <= READ_BYTES || |scan + chunk| <= MAX_SCAN_BYTES
  }

  /** The outcome of scanning `t` is that of scanning `d`. */
  ghost predicate AsGood(c: Cache, t: bytes, d: bytes) {
    RecordAll(c, Units(t).units) == RecordAll(c, Units(d).units) && Covers(Units(t).rest, Units(d).rest)
  }

  lemma SameGrows(scan: bytes, rest: bytes, chunk: bytes)
    requires Same(scan, rest)
    ensures Same(scan + chunk, rest + chunk) && First(scan + chunk) == First(scan) && First(rest + chunk) == First(rest)
  {
    FindStable(scan, chunk, 0);
    FindStable(rest, chunk, 0);
    var p, q := First(scan), First(rest);
    assert (scan + chunk)[p..] == scan[p..] + chunk;
    assert (rest + chunk)[q..] == rest[q..] + chunk;
  }

  /** The only start code of the rest is cut off: then its unit has grown too large. */
  lemma TrimmedUnit(c: Cache, scan: bytes, rest: bytes, chunk: bytes, m: nat)
    requires Same(scan, rest) && Closed(rest).None? && |chunk| <= READ_BYTES
    requires First(scan) < m && |scan + chunk| == m + MAX_SCAN_BYTES
    ensures AsGood(c, (scan + chunk)[m..], rest + chunk)
  {
    hide Units, RecordAll, Covers;
    SameGrows(scan, rest, chunk);
    var x, d, p, q := scan + chunk, rest + chunk, First(scan), First(rest);
    var k := q + (m - p);
    assert |scan[p..]| == |rest[q..]|;
    FindLate(rest, chunk, q + 3);
    assert d[q..][m - p..] == d[k..] && x[p..][m - p..] == x[m..];
    CutInside(c, d, q, Find(d, q + 3), k);
  }

  lemma SameTrimmed(c: Cache, scan: bytes, rest: bytes, chunk: bytes)
    requires Same(scan, rest) && Closed(rest).None? && LittleOrNothing(scan, chunk)
    ensures AsGood(c, Trim(scan + chunk), rest + chunk)
  {
    hide Units, RecordAll, Covers, Find;
    SameGrows(scan, rest, chunk);
    var x, d, p := scan + chunk, rest + chunk, First(scan);
    var m := |x| - |Trim(x)|;
    if m <= p {
      FindSkip(x, 0, m);
      FirstOfTail(x, m);
      assert x[m..] == Trim(x) && x[m..][p - m..] == x[p..];
      SameUnits(Trim(x), d);
    } else {
      TrimmedUnit(c, scan, rest, chunk, m);
    }
  }

  /** No start code is in the buffer: it is the rest itself, or the tail of a unit too large. */
  lemma TailTrimmed(c: Cache, scan: bytes, rest: bytes, chunk: bytes)
    requires First(scan) == |scan| && Tail(scan, rest) && Closed(rest).None? && LittleOrNothing(scan, chunk)
    ensures AsGood(c, Trim(scan + chunk), rest + chunk)
  {
    hide Units, RecordAll, Covers, Find, Trim;
    var d, t := rest + chunk, Trim(scan + chunk);
    var k := |d| - |t|;
    TailOf(scan, rest, chunk);
    assert d[k..] == t;
    if First(rest) == |rest| {
      FindLate(rest, chunk, 0);
      CutEarly(d, k);
    } else {
      var p := First(rest);
      CodeBefore(scan, rest);
      FindStable(rest, chunk, 0);
      FindLate(rest, chunk, p + 3);
      CutInside(c, d, p, Find(d, p + 3), k);
    }
  }

  lemma TailOf(scan: bytes, rest: bytes, chunk: bytes)
    requires Tail(scan, rest) && LittleOrNothing(scan, chunk)
    ensures var t := Trim(scan + chunk);
            && |t| <= |scan + chunk| <= |rest + chunk| && (rest + chunk)[|rest + chunk| - |t|..] == t
            && (t == rest + chunk || |t| - |chunk| > MAX_PREAMBLE_BYTES + 2)
  {
    var x, d, t := scan + chunk, rest + chunk, Trim(scan + chunk);
    assert d[|d| - |x|..] == x;
    assert x[|x| - |t|..] == t;
    assert d[|d| - |x|..][|x| - |t|..] == d[|d| - |t|..];
  }

  lemma CodeBefore(scan: bytes, rest: bytes)
    requires First(scan) == |scan| && Tail(scan, rest) && First(rest) < |rest|
    ensures |scan| <= |rest| && First(rest) + |scan| < |rest| && |scan| > MAX_PREAMBLE_BYTES + 2
  {
    var k, p := |rest| - |scan|, First(rest);
    if p >= k {
      FirstOfTail(rest, k);
      FindSkip(rest, 0, k);
    }
  }

  lemma ChunkCovered(c: Cache, scan: bytes, rest: bytes, chunk: bytes)
    requires Covers(scan, rest) && Closed(rest).None? && LittleOrNothing(scan, chunk)
    ensures AsGood(c, Trim(scan + chunk), rest + chunk)
  {
    if Same(scan, rest) {
      SameTrimmed(c, scan, rest, chunk);
    } else {
      TailTrimmed(c, scan, rest, chunk);
    }
  }

  lemma {:induction false} RestIsOpen(d: bytes)
    ensures Closed(Units(d).rest).None?
    decreases |d|
  {
    if Closed(d).Some? {
      RestIsOpen(d[Closed(d).value.to..]);
    }
  }

  // ---- The cache of a generation ----

  /** The cache holds the newest complete units of everything read, whatever was trimmed. */
  ghost predicate Remembers(c: Cache, read: bytes) {
    && Covers(c.scan, Units(read).rest)
    && c.(scan := []) == Remembered(read).(scan := [])
  }

  lemma RemembersNothing()
    ensures Remembers(NOTHING, [])
  {
    CoversSelf([]);
  }

  /** Whatever the chunk boundaries, and however much is trimmed, the cache holds the newest complete
      units of everything the generation has read. */
  lemma NoteRemembersAlways(c: Cache, read: bytes, chunk: bytes)
    requires Remembers(c, read) && LittleOrNothing(c.scan, chunk)
    ensures Remembers(Note(c, chunk), read + chunk)
  {
    hide Covers, Closed;
    var before, d := Units(read), Units(read).rest + chunk;
    RestIsOpen(read);
    ChunkCovered(c, c.scan, before.rest, chunk);
    UnitsAppend(read, chunk);
    RecordAllNewest(c, before.units, Units(d).units);
  }
}
