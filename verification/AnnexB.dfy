/** Cutting an Annex-B byte stream into NAL units (Annex B of ITU-T H.264), chunk by chunk. */
module AnnexB {
  import opened Bytes
  import Bits

  type nal = bytes

  /** `nal_unit_type`, the low five bits of the header. */
  function Kind(n: nal): nat {
    if n == [] then 0 else n[0] % 32
  }

  /** The length of the start code at position `i`, 0 when there is none. */
  function StartLength(d: bytes, i: nat): nat {
    if i + 3 <= |d| && d[i] == 0 && d[i + 1] == 0 && d[i + 2] == 1 then 3
    else if i + 4 <= |d| && d[i] == 0 && d[i + 1] == 0 && d[i + 2] == 0 && d[i + 3] == 1 then 4
    else 0
  }

  /** The first start code from position `i` on; the length of the data when there is none. */
  function NextStart(d: bytes, i: nat): (j: nat)
    ensures i <= |d| ==> i <= j <= |d|
    ensures j < |d| ==> i <= j && StartLength(d, j) > 0
    decreases |d| - i
  {
    if i + 3 > |d| then |d|
    else if StartLength(d, i) > 0 then i
    else NextStart(d, i + 1)
  }

  datatype Span = Span(from: nat, to: nat)

  /** The unit between the first two start codes: it ends where the second code begins. */
  function Closed(d: bytes): (r: Option<Span>)
    ensures r.Some? ==> 0 < r.value.from <= r.value.to < |d|
  {
    var p := NextStart(d, 0);
    if p == |d| then None
    else
      var q := NextStart(d, p + StartLength(d, p));
      if q == |d| then None else Some(Span(p + StartLength(d, p), q))
  }

  datatype Cut = Cut(units: seq<nal>, carry: bytes) {
    function After(front: seq<nal>): Cut {
      Cut(front + units, carry)
    }
  }

  function Unit(n: nal): seq<nal> {
    if n == [] then [] else [n]
  }

  /** What one look at the buffer yields: every unit that a second start code closes, and the
      bytes from the last start code on. */
  function Split(d: bytes): Cut
    decreases |d|
  {
    match Closed(d)
    case None => Cut([], d)
    case Some(span) => Split(d[span.to..]).After(Unit(d[span.from..span.to]))
  }

  // ---- Chunks do not matter ----

  /** A start code that has been found stays the next one when more data arrives. */
  lemma {:induction false} NextStartStable(a: bytes, b: bytes, i: nat)
    requires NextStart(a, i) < |a|
    ensures NextStart(a + b, i) == NextStart(a, i)
    ensures StartLength(a + b, NextStart(a, i)) == StartLength(a, NextStart(a, i))
    decreases |a| - i
  {
    if StartLength(a, i) == 0 {
      assert i + 4 <= |a|;
      NextStartStable(a, b, i + 1);
    }
  }

  lemma ClosedStable(a: bytes, b: bytes)
    requires Closed(a).Some?
    ensures Closed(a + b) == Closed(a)
  {
    var p := NextStart(a, 0);
    NextStartStable(a, b, 0);
    NextStartStable(a, b, p + StartLength(a, p));
  }

  lemma AfterAfter(c: Cut, front: seq<nal>, middle: seq<nal>)
    ensures c.After(middle).After(front) == c.After(front + middle)
  {
    assert front + (middle + c.units) == front + middle + c.units;
  }

  /** Looking at the data in two pieces yields the same units and leaves the same carry as
      looking at it once. */
  lemma {:induction false} SplitAppend(a: bytes, b: bytes)
    ensures Split(a + b) == Split(Split(a).carry + b).After(Split(a).units)
    decreases |a|
  {
    match Closed(a)
    case None =>
      assert Split(a) == Cut([], a);
      AfterNothing(Split(a + b));
    case Some(span) =>
      var first, tail := Unit(a[span.from..span.to]), a[span.to..];
      ClosedStable(a, b);
      assert (a + b)[span.to..] == tail + b;
      assert (a + b)[span.from..span.to] == a[span.from..span.to];
      SplitAppend(tail, b);
      AfterAfter(Split(Split(tail).carry + b), first, Split(tail).units);
  }

  lemma AfterNothing(c: Cut)
    ensures c.After([]) == c
  {
    assert [] + c.units == c.units;
  }

  /** The units and the carry after a run of chunks. */
  function Feed(carry: bytes, chunks: seq<bytes>): Cut
    decreases |chunks|
  {
    if chunks == [] then Cut([], carry)
    else
      var first := Split(carry + chunks[0]);
      Feed(first.carry, chunks[1..]).After(first.units)
  }

  /** Nothing is left to cut in a carry. */
  lemma {:induction false} CarryIsCut(d: bytes)
    ensures Closed(Split(d).carry).None?
    decreases |d|
  {
    if Closed(d).Some? {
      CarryIsCut(d[Closed(d).value.to..]);
    }
  }

  lemma SplitInTwo(carry: bytes, chunk: bytes, rest: bytes)
    ensures Closed(Split(carry + chunk).carry).None?
    ensures Split(carry + (chunk + rest)) == Split(Split(carry + chunk).carry + rest).After(Split(carry + chunk).units)
  {
    hide Split, Closed;
    var whole := carry + chunk;
    CarryIsCut(whole);
    calc {
      Split(carry + (chunk + rest));
      == { assert carry + (chunk + rest) == whole + rest; }
      Split(whole + rest);
      == { SplitAppend(whole, rest); }
      Split(Split(whole).carry + rest).After(Split(whole).units);
    }
  }

  /** Every chunking of a stream yields what one look at the whole stream yields. */
  lemma {:induction false} FeedIsSplit(carry: bytes, chunks: seq<bytes>)
    requires Closed(carry).None?
    ensures Feed(carry, chunks) == Split(carry + Concat(chunks))
    decreases |chunks|
  {
    if chunks == [] {
      assert carry + Concat(chunks) == carry;
    } else {
      SplitInTwo(carry, chunks[0], Concat(chunks[1..]));
      FeedIsSplit(Split(carry + chunks[0]).carry, chunks[1..]);
    }
  }

  lemma {:induction false} NextStartShift(d: bytes, k: nat, i: nat)
    requires k <= |d|
    ensures i <= |d| - k ==> NextStart(d[k..], i) + k == NextStart(d, k + i)
    decreases |d| - i
  {
    if k + i + 3 <= |d| {
      assert StartLength(d[k..], i) == StartLength(d, k + i);
      NextStartShift(d, k, i + 1);
    }
  }

  // ---- The inverse of writing a stream ----

  /** A unit as it is written, behind a start code of four bytes or of three. */
  datatype Coded = Coded(long: bool, unit: nal)

  function Code(long: bool): bytes {
    if long then [0, 0, 0, 1] else [0, 0, 1]
  }

  function Serialize(us: seq<Coded>): bytes {
    if us == [] then [] else Code(us[0].long) + us[0].unit + Serialize(us[1..])
  }

  function Units(us: seq<Coded>): (ns: seq<nal>)
    ensures |ns| == |us|
  {
    if us == [] then [] else [us[0].unit] + Units(us[1..])
  }

  /** Holds no start code: not even the three bytes of the short one. */
  ghost predicate Clean(n: nal) {
    forall i: nat :: i + 2 < |n| ==> !(n[i] == 0 && n[i + 1] == 0 && n[i + 2] == 1)
  }

  ghost predicate Startless(n: nal) {
    forall i: nat :: i < |n| ==> StartLength(n, i) == 0
  }

  lemma CleanIs(n: nal)
    ensures Startless(n) <==> Clean(n)
  {
    if Startless(n) {
      forall i: nat | i + 2 < |n|
        ensures !(n[i] == 0 && n[i + 1] == 0 && n[i + 2] == 1)
      {
        assert StartLength(n, i) == 0;
      }
    }
    if Clean(n) {
      forall i: nat | i < |n|
        ensures StartLength(n, i) == 0
      {
        assert i + 3 < |n| ==> !(n[i + 1] == 0 && n[i + 2] == 0 && n[i + 3] == 1);
        assert i + 2 < |n| ==> !(n[i] == 0 && n[i + 1] == 0 && n[i + 2] == 1);
      }
    }
  }

  /** What may be followed by a start code: section 7.4.1 of H.264 promises both. */
  ghost predicate Closable(n: nal) {
    n != [] && n[|n| - 1] != 0 && Clean(n)
  }

  function ZeroBytes(count: nat): bytes {
    if count == 0 then [] else [0] + ZeroBytes(count - 1)
  }

  lemma CleanBehind(front: bytes, n: nal)
    requires Startless(n)
    requires forall k: nat :: k < |front| ==> StartLength(front + n, k) == 0
    ensures Startless(front + n)
  {
    forall i: nat | i < |front + n|
      ensures StartLength(front + n, i) == 0
    {
      if i >= |front| {
        assert StartLength(n, i - |front|) == 0;
        assert forall k: nat :: k < |n| ==> (front + n)[|front| + k] == n[k];
      }
    }
  }

  /** Behind two zeros the escaper never writes a byte that would complete a start code. */
  lemma {:induction false} EscapedClean(payload: bytes, zeroes: nat)
    requires zeroes <= 2
    ensures Startless(ZeroBytes(zeroes) + Bits.Escape(payload, zeroes))
    decreases |payload|
  {
    var front, whole := ZeroBytes(zeroes), Bits.Escape(payload, zeroes);
    if payload != [] {
      var escaped := zeroes == 2 && payload[0] <= 3;
      var next := if payload[0] != 0 then 0 else if escaped then 1 else zeroes + 1;
      var rest := Bits.Escape(payload[1..], next);
      EscapedClean(payload[1..], next);
      if payload[0] == 0 {
        ZeroAhead(front, escaped, rest);
      } else {
        assert ZeroBytes(0) + rest == rest;
        NonZeroAhead(front, payload[0], escaped, rest);
      }
      assert whole == (if escaped then [3] else []) + [payload[0]] + rest;
    }
  }

  lemma NonZeroAhead(front: bytes, b: byte, escaped: bool, rest: bytes)
    requires |front| <= 2 && b != 0 && escaped == (|front| == 2 && b <= 3)
    requires Startless(rest)
    ensures Startless(front + ((if escaped then [3] else []) + [b] + rest))
  {
    var ahead: bytes := if escaped then front + [3, b] else front + [b];
    assert front + ((if escaped then [3] else []) + [b] + rest) == ahead + rest;
    CleanBehind(ahead, rest);
  }

  lemma EscapeAhead(rest: bytes)
    requires Startless([0] + rest)
    ensures Startless([0, 0, 3] + ([0] + rest))
  {
    var ahead: bytes := [0, 0, 3];
    assert forall k: nat :: k < |ahead| ==> StartLength(ahead + ([0] + rest), k) == 0;
    CleanBehind(ahead, [0] + rest);
  }

  lemma SameAhead(front: bytes, rest: bytes)
    requires |front| <= 1 && front == ZeroBytes(|front|)
    ensures front + ([] + [0] + rest) == ZeroBytes(|front| + 1) + rest
  {
    assert front + [0] == ZeroBytes(|front| + 1);
  }

  lemma ZeroAhead(front: bytes, escaped: bool, rest: bytes)
    requires |front| <= 2 && front == ZeroBytes(|front|) && escaped == (|front| == 2)
    requires Startless(ZeroBytes(if escaped then 1 else |front| + 1) + rest)
    ensures Startless(front + ((if escaped then [3] else []) + [0] + rest))
  {
    assert ZeroBytes(0) == [] && ZeroBytes(1) == [0] && ZeroBytes(2) == [0, 0];
    if escaped {
      EscapeAhead(rest);
      assert front + ([3] + [0] + rest) == [0, 0, 3] + ([0] + rest);
    } else {
      hide Startless;
      SameAhead(front, rest);
    }
  }

  /** Every unit with a non-zero header around a payload that does not end in a zero byte may
      stand in a stream: the escaper takes care of the rest. */
  lemma EscapedIsClosable(header: byte, payload: bytes)
    requires header != 0 && payload != [] && payload[|payload| - 1] != 0
    ensures Closable(Bits.EscapedUnit(header, payload))
  {
    var body := Bits.Escape(payload, 0);
    EscapedClean(payload, 0);
    assert ZeroBytes(0) + body == body;
    CleanIs(Bits.EscapedUnit(header, payload));
    EscapedEnd(payload, 0);
    CleanBehind([header], body);
  }

  lemma {:induction false} EscapedEnd(payload: bytes, zeroes: nat)
    requires zeroes <= 2 && payload != [] && payload[|payload| - 1] != 0
    ensures var e := Bits.Escape(payload, zeroes); e != [] && e[|e| - 1] != 0
    decreases |payload|
  {
    var escaped := zeroes == 2 && payload[0] <= 3;
    var next := if payload[0] != 0 then 0 else if escaped then 1 else zeroes + 1;
    var rest := Bits.Escape(payload[1..], next);
    assert Bits.Escape(payload, zeroes) == (if escaped then [3] else []) + [payload[0]] + rest;
    if |payload| > 1 {
      hide Bits.Escape;
      EscapedEnd(payload[1..], next);
    } else {
      assert rest == [];
    }
  }

  lemma NoCodeInside(code: bytes, n: nal, rest: bytes, i: nat)
    requires Clean(n) && (rest != [] ==> Closable(n))
    requires |code| <= i < |code| + |n|
    ensures StartLength(code + n + rest, i) == 0
  {
    var d, at := code + n + rest, i - |code|;
    assert StartLength(n, at) == 0;
    assert forall k: nat :: k < |n| ==> d[|code| + k] == n[k];
  }

  lemma {:induction false} NextAfterUnit(code: bytes, n: nal, rest: bytes, i: nat)
    requires Clean(n) && (rest != [] ==> Closable(n) && StartLength(rest, 0) > 0)
    requires |code| <= i <= |code| + |n|
    ensures NextStart(code + n + rest, i) == |code| + |n|
    decreases |code| + |n| - i
  {
    if i < |code| + |n| {
      NoCodeInside(code, n, rest, i);
      NextAfterUnit(code, n, rest, i + 1);
    } else if rest != [] {
      assert (code + n + rest)[i..] == rest;
      NextStartShift(code + n + rest, i, 0);
    }
  }

  lemma CodeAhead(long: bool, n: nal, rest: bytes)
    ensures StartLength(Code(long) + n + rest, 0) == |Code(long)|
  {
  }

  lemma ClosedByCode(code: bytes, n: nal, rest: bytes)
    requires Clean(n) && (rest != [] ==> Closable(n) && StartLength(rest, 0) > 0)
    requires StartLength(code + n + rest, 0) == |code| >= 3
    ensures Closed(code + n + rest) == if rest == [] then None else Some(Span(|code|, |code| + |n|))
  {
    NextAfterUnit(code, n, rest, |code|);
  }

  lemma SplitByCode(code: bytes, n: nal, rest: bytes)
    requires Clean(n) && (rest != [] ==> Closable(n) && StartLength(rest, 0) > 0)
    requires StartLength(code + n + rest, 0) == |code| >= 3
    ensures rest == [] ==> Split(code + n + rest) == Cut([], code + n)
    ensures rest != [] ==> Split(code + n + rest) == Split(rest).After(Unit(n))
  {
    var d := code + n + rest;
    ClosedByCode(code, n, rest);
    assert rest == [] ==> d == code + n;
    assert d[|code| + |n|..] == rest && d[|code|..|code| + |n|] == n;
  }

  /** A stream that mixes long and short start codes is read back, but for its last unit, which
      stays in the carry until another start code closes it. */
  lemma {:induction false} SplitSerialize(us: seq<Coded>)
    requires us != [] && Clean(us[|us| - 1].unit)
    requires forall k :: 0 <= k < |us| - 1 ==> Closable(us[k].unit)
    ensures Split(Serialize(us)) == Cut(Units(us[..|us| - 1]), Serialize(us[|us| - 1..]))
    ensures StartLength(Serialize(us), 0) > 0
    decreases |us|
  {
    var code, n, rest := Code(us[0].long), us[0].unit, us[1..];
    CodeAhead(us[0].long, n, Serialize(rest));
    if rest == [] {
      SplitByCode(code, n, []);
      assert us[0..] == us;
    } else {
      SplitSerialize(rest);
      SplitByCode(code, n, Serialize(rest));
      SplitFirst(us);
    }
  }

  lemma SplitFirst(us: seq<Coded>)
    requires |us| > 1
    ensures us[|us| - 1..] == us[1..][|us| - 2..]
    ensures Units(us[..|us| - 1]) == [us[0].unit] + Units(us[1..][..|us| - 2])
  {
    assert us[..|us| - 1][1..] == us[1..][..|us| - 2];
  }

  /** However a well-formed stream is chunked, the units come out whole and in order, all but
      the last, which waits in the carry. */
  lemma ChunkedStream(us: seq<Coded>, chunks: seq<bytes>)
    requires us != [] && Clean(us[|us| - 1].unit)
    requires forall k :: 0 <= k < |us| - 1 ==> Closable(us[k].unit)
    requires Concat(chunks) == Serialize(us)
    ensures Feed([], chunks) == Cut(Units(us[..|us| - 1]), Serialize(us[|us| - 1..]))
  {
    FeedIsSplit([], chunks);
    assert [] + Concat(chunks) == Concat(chunks);
    SplitSerialize(us);
  }

  // ---- The two loops ----

  function Starts(d: bytes, i: nat): seq<nat>
    decreases |d| - i
  {
    var j := NextStart(d, i);
    if j >= |d| then [] else [j] + Starts(d, j + StartLength(d, j))
  }

  /** The unit that begins at a start code, told from the next start code in the whole buffer. */
  lemma ClosedAt(d: bytes, p: nat)
    requires p < |d| && StartLength(d, p) > 0
    ensures var body := p + StartLength(d, p);
            var q := NextStart(d, body);
            Closed(d[p..]) == if q == |d| then None else Some(Span(body - p, q - p))
  {
    assert StartLength(d[p..], 0) == StartLength(d, p);
    NextStartShift(d, p, StartLength(d, p));
  }

  lemma SplitAt(d: bytes, p: nat)
    requires p < |d| && StartLength(d, p) > 0
    ensures var body := p + StartLength(d, p);
            var q := NextStart(d, body);
            Split(d[p..]) == if q == |d| then Cut([], d[p..]) else Split(d[q..]).After(Unit(d[body..q]))
  {
    hide Split, Closed, StartLength;
    var body := p + StartLength(d, p);
    var q := NextStart(d, body);
    ClosedAt(d, p);
    if q < |d| {
      SplitClosed(d, p, body, q);
    } else {
      SplitOpen(d[p..]);
    }
  }

  lemma SplitOpen(d: bytes)
    requires Closed(d).None?
    ensures Split(d) == Cut([], d)
  {
    hide Closed;
  }

  lemma SplitClosed(d: bytes, p: nat, body: nat, q: nat)
    requires p < body <= q < |d|
    requires Closed(d[p..]) == Some(Span(body - p, q - p))
    ensures Split(d[p..]) == Split(d[q..]).After(Unit(d[body..q]))
  {
    hide Closed;
    DropDrop(d, p, body, q);
  }

  lemma DropDrop(d: bytes, p: nat, body: nat, q: nat)
    requires p < body <= q < |d|
    ensures d[p..][q - p..] == d[q..]
    ensures d[p..][body - p..q - p] == d[body..q]
  {
  }

  lemma StartsNext(d: bytes, i: nat, k: nat)
    requires k < |Starts(d, i)|
    ensures var p := Starts(d, i)[k];
            p < |d| && StartLength(d, p) > 0 && Starts(d, p + StartLength(d, p)) == Starts(d, i)[k + 1..]
    decreases k
  {
    var j := NextStart(d, i);
    if k > 0 {
      var next := j + StartLength(d, j);
      StartsNext(d, next, k - 1);
      assert Starts(d, next)[k..] == Starts(d, i)[k + 1..];
    } else {
      assert Starts(d, i)[1..] == Starts(d, j + StartLength(d, j));
    }
  }

  /** The bytes before the first start code belong to no unit. */
  lemma CutBegin(d: bytes)
    ensures |Starts(d, 0)| < 2 ==> Split(d) == Cut([], d)
    ensures |Starts(d, 0)| >= 2 ==> Starts(d, 0)[0] <= |d| && Split(d) == Split(d[Starts(d, 0)[0]..])
  {
    var s := Starts(d, 0);
    if s != [] {
      StartsNext(d, 0, 0);
      var p := s[0];
      SplitAt(d, p);
      var body := p + StartLength(d, p);
      assert NextStart(d, body) < |d| <==> Starts(d, body) != [];
      if |s| >= 2 {
        assert Closed(d) == Some(Span(body, NextStart(d, body)));
      }
    }
  }

  lemma NeighbourStarts(d: bytes, s: seq<nat>, k: nat)
    requires s == Starts(d, 0) && k + 1 < |s|
    ensures s[k] < |d| && StartLength(d, s[k]) > 0
    ensures s[k + 1] == NextStart(d, s[k] + StartLength(d, s[k])) < |d|
  {
    hide Starts, StartLength, NextStart;
    StartsNext(d, 0, k);
    assert s[k + 1..][0] == s[k + 1];
    StartsHead(d, s[k] + StartLength(d, s[k]));
  }

  lemma StartsHead(d: bytes, i: nat)
    requires Starts(d, i) != []
    ensures Starts(d, i)[0] == NextStart(d, i) < |d|
  {
  }

  lemma CutStep(d: bytes, s: seq<nat>, k: nat, result: seq<nal>)
    requires s == Starts(d, 0) && k + 1 < |s|
    ensures s[k] < |d| && s[k] + StartLength(d, s[k]) <= s[k + 1] < |d|
    ensures var n := d[s[k] + StartLength(d, s[k])..s[k + 1]];
            Split(d[s[k]..]).After(result) == Split(d[s[k + 1]..]).After(if n != [] then result + [n] else result)
  {
    hide Starts, Split, StartLength;
    NeighbourStarts(d, s, k);
    var body := s[k] + StartLength(d, s[k]);
    SplitAt(d, s[k]);
    var n := d[body..s[k + 1]];
    AfterAfter(Split(d[s[k + 1]..]), result, Unit(n));
    assert result + Unit(n) == if n != [] then result + [n] else result;
  }

  lemma CutEnd(d: bytes, s: seq<nat>, last: nat, result: seq<nal>)
    requires s == Starts(d, 0) && last + 1 == |s|
    ensures s[last] < |d| && Split(d[s[last]..]).After(result) == Cut(result, d[s[last]..])
  {
    StartsNext(d, 0, last);
    assert Starts(d, s[last] + StartLength(d, s[last])) == [];
    SplitAt(d, s[last]);
    assert result + [] == result;
  }

  class Splitter {
    var carry: bytes

    constructor ()
      ensures carry == []
    {
      carry := [];
    }

    /** The first loop of `_nal_units`: the positions of the start codes. */
    method Scan() returns (starts: seq<nat>)
      ensures starts == Starts(carry, 0)
    {
      starts := [];
      var i := 0;
      while i + 3 <= |carry|
        invariant starts + Starts(carry, i) == Starts(carry, 0)
        decreases |carry| - i
      {
        var code := StartLength(carry, i);
        if code > 0 {
          starts := starts + [i];
          i := i + code;
        } else {
          assert NextStart(carry, i) == NextStart(carry, i + 1);
          i := i + 1;
        }
      }
    }

    /** The second loop: the units between neighbouring start codes. */
    method Collect(starts: seq<nat>) returns (result: seq<nal>)
      requires starts == Starts(carry, 0) && |starts| >= 2
      ensures starts[|starts| - 1] < |carry|
      ensures Split(carry) == Cut(result, carry[starts[|starts| - 1]..])
    {
      hide Starts, Split, StartLength;
      ghost var d := carry;
      CutBegin(d);
      result := [];
      AfterNothing(Split(d));
      for k := 0 to |starts| - 1
        invariant carry == d
        invariant starts[k] <= |d| && Split(d[starts[k]..]).After(result) == Split(d)
      {
        CutStep(d, starts, k, result);
        var n := carry[starts[k] + StartLength(carry, starts[k])..starts[k + 1]];
        if n != [] {
          result := result + [n];
        }
      }
      CutEnd(d, starts, |starts| - 1, result);
    }

    /** `_nal_units`, with the carry it trims in place. */
    method NalUnits(data: bytes) returns (result: seq<nal>)
      modifies this
      ensures Cut(result, carry) == Split(old(carry) + data)
    {
      carry := carry + data;
      var starts := Scan();
      if |starts| < 2 {
        CutBegin(carry);
        return [];
      }
      result := Collect(starts);
      carry := carry[starts[|starts| - 1]..];
    }
  }
}
