/** Length-framed camera commands on channel 0: `parse_result`, `read_command`, `_read_response`. */
module Commands {
  import opened Bytes
  import opened Endpoint
  import opened Cs2Session

  // ---- Frames ----

  datatype Command = Command(id: nat, reserved: nat, payload: bytes)

  predicate Framable(c: Command) {
    c.id < 0x1_0000 && c.reserved < 0x1_0000 && |c.payload| < 0x1_0000
  }

  /** `struct.pack("<H", n)`. */
  function LE16(n: nat): bytes
    requires n < 0x1_0000
  {
    [n % 256, n / 256]
  }

  function Frame(c: Command): bytes
    requires Framable(c)
  {
    [0x01, 0x0A] + LE16(c.id) + LE16(|c.payload|) + LE16(c.reserved) + c.payload
  }

  ghost function Frames(cs: seq<Command>): bytes
    requires forall c :: c in cs ==> Framable(c)
  {
    if cs == [] then [] else Frame(cs[0]) + Frames(cs[1..])
  }

  ghost predicate AllFramable(cs: seq<Command>) {
    forall c :: c in cs ==> Framable(c)
  }

  lemma {:induction false} FramesAppend(a: seq<Command>, b: seq<Command>)
    requires AllFramable(a) && AllFramable(b)
    ensures AllFramable(a + b) && Frames(a + b) == Frames(a) + Frames(b)
  {
    hide Frame;
    if a == [] {
      assert a + b == b;
    } else {
      FramesAppend(a[1..], b);
      assert (a + b)[1..] == a[1..] + b;
    }
  }

  lemma FramesSnoc(cs: seq<Command>, last: Command)
    requires Framable(last) && AllFramable(cs)
    ensures AllFramable(cs + [last]) && Frames(cs + [last]) == Frames(cs) + Frame(last)
  {
    hide Frame;
    FramesAppend(cs, [last]);
    assert Frames([last]) == Frame(last) + Frames([last][1..]);
  }

  /** A frame says where it ends: two streams that start with one frame each agree on it. */
  lemma FrameUnique(a: Command, b: Command, x: bytes, y: bytes)
    requires Framable(a) && Framable(b) && Frame(a) + x == Frame(b) + y
    ensures a == b && x == y
  {
    var s, t := Frame(a) + x, Frame(b) + y;
    assert forall i | 2 <= i < 8 :: s[i] == t[i];
    assert s[2] == a.id % 256 && s[3] == a.id / 256 && t[2] == b.id % 256 && t[3] == b.id / 256;
    assert s[4] == |a.payload| % 256 && s[5] == |a.payload| / 256;
    assert t[4] == |b.payload| % 256 && t[5] == |b.payload| / 256;
    assert s[6] == a.reserved % 256 && s[7] == a.reserved / 256;
    assert t[6] == b.reserved % 256 && t[7] == b.reserved / 256;
    assert a.payload == s[8..8 + |a.payload|] && b.payload == t[8..8 + |b.payload|];
    assert x == s[8 + |a.payload|..] && y == t[8 + |b.payload|..];
  }

  /** Frames read off the front of a framed stream are the commands it was framed from. */
  lemma {:induction false} FramesPrefix(read: seq<Command>, written: seq<Command>, rest: bytes)
    requires forall c :: c in read ==> Framable(c)
    requires forall c :: c in written ==> Framable(c)
    requires Frames(read) + rest == Frames(written)
    ensures |read| <= |written| && read == written[..|read|]
    ensures forall c :: c in written[|read|..] ==> Framable(c)
    ensures rest == Frames(written[|read|..])
  {
    if read == [] {
      assert written[0..] == written && Frames(read) + rest == rest;
    } else {
      assert Frames(read) + rest == Frame(read[0]) + (Frames(read[1..]) + rest);
      assert |Frames(read) + rest| >= 8;
      FrameUnique(read[0], written[0], Frames(read[1..]) + rest, Frames(written[1..]));
      FramesPrefix(read[1..], written[1..], rest);
      assert written[..|read|] == [written[0]] + written[1..][..|read| - 1];
      assert written[|read|..] == written[1..][|read| - 1..];
    }
  }

  // ---- make_cgi_request ----

  predicate Printable(text: string, limit: nat) {
    |text| <= limit && forall c :: c in text ==> c as int >= 0x20
  }

  predicate Ascii(text: string) {
    forall c :: c in text ==> c as int < 128
  }

  /** `encode("ascii")`. */
  function Encode(text: string): bytes
    requires Ascii(text)
  {
    if text == "" then []
    else
      assert text[0] in text && forall c :: c in text[1..] ==> c in text;
      [text[0] as int] + Encode(text[1..])
  }

  lemma {:induction false} EncodeAt(text: string)
    requires Ascii(text)
    ensures |Encode(text)| == |text| && forall i | 0 <= i < |text| :: Encode(text)[i] == text[i] as int
  {
    if text != "" {
      assert text[0] in text && forall c :: c in text[1..] ==> c in text;
      EncodeAt(text[1..]);
      forall i | 0 <= i < |text|
        ensures Encode(text)[i] == text[i] as int
      {
        assert i > 0 ==> text[i] == text[1..][i - 1];
      }
    }
  }

  function CgiText(path: string, user: string, password: string): string {
    "GET /" + path + "loginuse=" + user + "&loginpas=" + password + "&user=admin&pwd=888888&"
  }

  /** `make_cgi_request`. */
  function MakeCgiRequest(path: string, user: string, password: string): Option<bytes> {
    var request := CgiText(path, user, password);
    if path == "" || !Printable(path, 2048) || user == "" || !Printable(user, 512) || !Printable(password, 512) then None
    else if !Ascii(request) || |request| > 65535 then None
    else Some([0x01, 0x0A] + LE16(0) + LE16(|request|) + LE16(0) + Encode(request))
  }

  /** A request is made exactly for printable ASCII fields within their limits, never refused for
      its size, and is one frame of command 0, so a reader of the channel gets it back whole. */
  lemma CgiRequestIsFrame(path: string, user: string, password: string)
    ensures MakeCgiRequest(path, user, password).Some? <==>
              && path != "" && Printable(path, 2048) && user != "" && Printable(user, 512) && Printable(password, 512)
              && Ascii(CgiText(path, user, password))
    ensures MakeCgiRequest(path, user, password).Some? ==>
              var text := "GET /" + path + "loginuse=" + user + "&loginpas=" + password + "&user=admin&pwd=888888&";
              var request := MakeCgiRequest(path, user, password).value;
              exists c :: && Framable(c) && c.id == 0 && c.reserved == 0 && request == Frame(c)
                          && |c.payload| == |text| && forall i | 0 <= i < |text| :: c.payload[i] == text[i] as int
  {
    if MakeCgiRequest(path, user, password).Some? {
      var text := CgiText(path, user, password);
      var c := Command(0, 0, Encode(text));
      EncodeAt(text);
      assert MakeCgiRequest(path, user, password) == Some(Frame(c));
    }
    if Ascii(CgiText(path, user, password)) {
      EncodeAt(CgiText(path, user, password));
    }
    assert |CgiText(path, user, password)| == 5 + |path| + 9 + |user| + 10 + |password| + 23;
  }

  // ---- parse_result ----

  const RESULT: bytes := [0x72, 0x65, 0x73, 0x75, 0x6C, 0x74]

  predicate Blank(b: byte) { b == 0x20 || b == 0x09 }

  predicate BlankOrQuote(b: byte) { Blank(b) || b == 0x22 || b == 0x27 }

  predicate Digit(b: byte) { 0x30 <= b <= 0x39 }

  /** The first position from `i` on whose byte is not of the given kind. */
  function Skip(payload: bytes, i: nat, kind: byte -> bool): (j: nat)
    requires i <= |payload|
    ensures i <= j <= |payload|
    decreases |payload| - i
  {
    if i < |payload| && kind(payload[i]) then Skip(payload, i + 1, kind) else i
  }

  /** `int` of a non-empty run of decimal digits. */
  function Number(digits: bytes): int {
    if digits == [] then 0 else Number(digits[..|digits| - 1]) * 10 - 0x30 + digits[|digits| - 1]
  }

  /** The number behind the marker that starts at `marker`, if one follows an equals sign. */
  function ResultAt(payload: bytes, marker: nat): Option<int>
    requires marker + |RESULT| <= |payload|
  {
    var equals := Skip(payload, marker + |RESULT|, Blank);
    if equals == |payload| || payload[equals] != 0x3D then None
    else
      var value := Skip(payload, equals + 1, BlankOrQuote);
      var negative := value < |payload| && payload[value] == 0x2D;
      var start := if negative then value + 1 else value;
      var end := Skip(payload, start, Digit);
      if end == start then None
      else Some(Signed(negative, Number(payload[start..end])))
  }

  function Signed(negative: bool, n: int): int {
    if negative then -n else n
  }

  predicate MarkerAt(payload: bytes, i: nat) {
    i + |RESULT| <= |payload| && payload[i..i + |RESULT|] == RESULT
  }

  /** What the first marker from `i` on that has a number says. */
  function Result(payload: bytes, i: nat): Option<int>
    decreases |payload| - i
  {
    if i + |RESULT| > |payload| then None
    else if MarkerAt(payload, i) && ResultAt(payload, i).Some? then ResultAt(payload, i)
    else Result(payload, i + 1)
  }

  method SkipKind(payload: bytes, i: nat, kind: byte -> bool) returns (j: nat)
    requires i <= |payload|
    ensures j == Skip(payload, i, kind)
  {
    j := i;
    while j < |payload| && kind(payload[j])
      invariant i <= j <= |payload|
      invariant Skip(payload, j, kind) == Skip(payload, i, kind)
    {
      j := j + 1;
    }
  }

  /** `payload.find(b"result", from)`, with the length of the payload for "not found". */
  method Find(payload: bytes, from: nat) returns (marker: nat)
    requires from <= |payload|
    ensures from <= marker <= |payload|
    ensures marker < |payload| ==> MarkerAt(payload, marker)
    ensures Result(payload, from) == if marker < |payload| then Result(payload, marker) else None
  {
    marker := from;
    while marker < |payload| && !MarkerAt(payload, marker)
      invariant from <= marker <= |payload|
      invariant Result(payload, from) == Result(payload, marker)
    {
      marker := marker + 1;
    }
  }

  method NumberAfter(payload: bytes, marker: nat) returns (result: Option<int>)
    requires marker + |RESULT| <= |payload|
    ensures result == ResultAt(payload, marker)
  {
    var cursor := SkipKind(payload, marker + |RESULT|, Blank);
    if cursor == |payload| || payload[cursor] != 0x3D {
      return None;
    }
    cursor := SkipKind(payload, cursor + 1, BlankOrQuote);
    var sign := 1;
    if cursor < |payload| && payload[cursor] == 0x2D {
      sign, cursor := -1, cursor + 1;
    }
    var start := cursor;
    cursor := SkipKind(payload, start, Digit);
    if cursor == start {
      return None;
    }
    return Some(sign * Number(payload[start..cursor]));
  }

  method ParseResult(payload: bytes) returns (result: Option<int>)
    ensures result == Result(payload, 0)
  {
    var marker := Find(payload, 0);
    while marker < |payload|
      invariant marker <= |payload|
      invariant marker < |payload| ==> MarkerAt(payload, marker)
      invariant Result(payload, 0) == if marker < |payload| then Result(payload, marker) else None
      decreases |payload| - marker
    {
      result := NumberAfter(payload, marker);
      if result.Some? {
        return;
      }
      marker := Find(payload, marker + 1);
    }
    return None;
  }

  /** The decimal digits of a number. */
  function Decimal(n: nat): (digits: bytes)
    ensures digits != [] && forall d :: d in digits ==> Digit(d)
  {
    if n < 10 then [0x30 + n] else Decimal(n / 10) + [0x30 + n % 10]
  }

  lemma {:induction false} NumberDecimal(n: nat)
    ensures Number(Decimal(n)) == n
  {
    if n >= 10 {
      NumberDecimal(n / 10);
      assert Decimal(n)[..|Decimal(n)| - 1] == Decimal(n / 10);
    }
  }

  lemma {:induction false} SkipAll(payload: bytes, i: nat, j: nat, kind: byte -> bool)
    requires i <= j <= |payload| && forall k | i <= k < j :: kind(payload[k])
    requires j == |payload| || !kind(payload[j])
    ensures Skip(payload, i, kind) == j
    decreases j - i
  {
    if i < j {
      SkipAll(payload, i + 1, j, kind);
    }
  }

  lemma DigitsRead(payload: bytes, start: nat, n: nat)
    requires start + |Decimal(n)| <= |payload| && payload[start..start + |Decimal(n)|] == Decimal(n)
    requires var end := start + |Decimal(n)|; end == |payload| || !Digit(payload[end])
    ensures Skip(payload, start, Digit) == start + |Decimal(n)|
    ensures Digit(payload[start])
  {
    var digits := Decimal(n);
    forall k | start <= k < start + |digits|
      ensures Digit(payload[k])
    {
      assert payload[k] == digits[k - start] && digits[k - start] in digits;
    }
    SkipAll(payload, start, start + |digits|, Digit);
  }

  /** A marker with blanks before the equals sign, and blanks and quotes behind it. */
  lemma NumberFound(payload: bytes, marker: nat, equals: nat, value: nat, negative: bool, n: nat)
    requires marker + |RESULT| <= equals < value < |payload| && payload[equals] == 0x3D
    requires forall k | marker + |RESULT| <= k < equals :: Blank(payload[k])
    requires forall k | equals < k < value :: BlankOrQuote(payload[k])
    requires negative ==> payload[value] == 0x2D
    requires var start := if negative then value + 1 else value;
             && start + |Decimal(n)| <= |payload| && payload[start..start + |Decimal(n)|] == Decimal(n)
             && (start + |Decimal(n)| == |payload| || !Digit(payload[start + |Decimal(n)|]))
    ensures ResultAt(payload, marker) == Some(Signed(negative, n))
  {
    hide Decimal, Number, Skip;
    var start := if negative then value + 1 else value;
    DigitsRead(payload, start, n);
    SkipAll(payload, marker + |RESULT|, equals, Blank);
    SkipAll(payload, equals + 1, value, BlankOrQuote);
    NumberDecimal(n);
  }

  lemma {:induction false} SkippedAre(payload: bytes, i: nat, kind: byte -> bool)
    requires i <= |payload|
    ensures var j := Skip(payload, i, kind);
            (forall k | i <= k < j :: kind(payload[k])) && (j < |payload| ==> !kind(payload[j]))
    decreases |payload| - i
  {
    if i < |payload| && kind(payload[i]) {
      SkippedAre(payload, i + 1, kind);
    }
  }

  /** A number found behind a marker has that shape: blanks, an equals sign, blanks and quotes, a minus
      sign if it is negative, and all the digits that follow, of which there is one at least. */
  lemma NumberShape(payload: bytes, marker: nat)
    returns (equals: nat, value: nat, start: nat, end: nat)
    requires marker + |RESULT| <= |payload| && ResultAt(payload, marker).Some?
    ensures marker + 6 <= equals < value <= start < end <= |payload|
    ensures (forall k | marker + 6 <= k < equals :: payload[k] == 0x20 || payload[k] == 0x09) && payload[equals] == 0x3D
    ensures forall k | equals < k < value ::
              payload[k] == 0x20 || payload[k] == 0x09 || payload[k] == 0x22 || payload[k] == 0x27
    ensures if payload[value] == 0x2D then start == value + 1 else start == value
    ensures forall k | start <= k < end :: 0x30 <= payload[k] <= 0x39
    ensures end < |payload| ==> !(0x30 <= payload[end] <= 0x39)
    ensures ResultAt(payload, marker)
         == Some(if payload[value] == 0x2D then -Number(payload[start..end]) else Number(payload[start..end]))
  {
    hide Number, Skip;
    equals := Skip(payload, marker + |RESULT|, Blank);
    value := Skip(payload, equals + 1, BlankOrQuote);
    start := if value < |payload| && payload[value] == 0x2D then value + 1 else value;
    end := Skip(payload, start, Digit);
    SkippedAre(payload, marker + |RESULT|, Blank);
    SkippedAre(payload, equals + 1, BlankOrQuote);
    SkippedAre(payload, start, Digit);
  }

  /** What `parse_result` returns stands behind some marker, and behind no earlier one. */
  lemma {:induction false} ResultIsFirst(payload: bytes, i: nat) returns (marker: nat)
    ensures Result(payload, i) == None ==> forall k: nat | i <= k && MarkerAt(payload, k) :: ResultAt(payload, k).None?
    ensures Result(payload, i) != None ==>
              && i <= marker && MarkerAt(payload, marker) && Result(payload, i) == ResultAt(payload, marker)
              && forall k: nat | i <= k < marker && MarkerAt(payload, k) :: ResultAt(payload, k).None?
    decreases |payload| - i
  {
    hide ResultAt;
    marker := i;
    if i + |RESULT| <= |payload| && !(MarkerAt(payload, i) && ResultAt(payload, i).Some?) {
      marker := ResultIsFirst(payload, i + 1);
    }
  }

  /** Markers without a number are passed over. */
  lemma {:induction false} FirstNumber(payload: bytes, i: nat, marker: nat)
    requires i <= marker && MarkerAt(payload, marker) && ResultAt(payload, marker).Some?
    requires forall k: nat | i <= k < marker && MarkerAt(payload, k) :: ResultAt(payload, k).None?
    ensures Result(payload, i) == ResultAt(payload, marker)
    decreases marker - i
  {
    if i < marker {
      FirstNumber(payload, i + 1, marker);
    }
  }

  /** The text of a result: the marker, blanks, an equals sign, blanks and quotes, and the number. */
  function ResultText(blanks: bytes, quotes: bytes, negative: bool, n: nat): bytes {
    RESULT + blanks + [0x3D] + quotes + (if negative then [0x2D] else []) + Decimal(n)
  }

  lemma TextPlaces(front: bytes, blanks: bytes, quotes: bytes, negative: bool, n: nat, tail: bytes)
    ensures var payload := front + ResultText(blanks, quotes, negative, n) + tail;
            var equals := |front| + |RESULT| + |blanks|;
            var value := equals + 1 + |quotes|;
            var start := if negative then value + 1 else value;
            && |payload| == start + |Decimal(n)| + |tail|
            && MarkerAt(payload, |front|) && payload[equals] == 0x3D
            && payload[|front| + |RESULT|..equals] == blanks && payload[equals + 1..value] == quotes
            && (negative ==> payload[value] == 0x2D)
            && payload[start..start + |Decimal(n)|] == Decimal(n) && payload[start + |Decimal(n)|..] == tail
  {
    hide Decimal;
  }

  /** A number written behind the first marker that has one is read back, wherever the marker stands
      and whatever blanks and quotes stand around the equals sign. */
  lemma ResultReadBack(front: bytes, blanks: bytes, quotes: bytes, negative: bool, n: nat, tail: bytes)
    requires (forall b | b in blanks :: Blank(b)) && (forall b | b in quotes :: BlankOrQuote(b))
    requires tail == [] || !Digit(tail[0])
    requires var payload := front + ResultText(blanks, quotes, negative, n) + tail;
             forall k: nat | k < |front| && MarkerAt(payload, k) :: ResultAt(payload, k).None?
    ensures Result(front + ResultText(blanks, quotes, negative, n) + tail, 0) == Some(Signed(negative, n))
  {
    var payload := front + ResultText(blanks, quotes, negative, n) + tail;
    TextPlaces(front, blanks, quotes, negative, n, tail);
    TextFound(payload, front, blanks, quotes, negative, n, tail);
    FirstNumber(payload, 0, |front|);
  }

  lemma TextFound(payload: bytes, front: bytes, blanks: bytes, quotes: bytes, negative: bool, n: nat, tail: bytes)
    requires payload == front + ResultText(blanks, quotes, negative, n) + tail
    requires (forall b | b in blanks :: Blank(b)) && (forall b | b in quotes :: BlankOrQuote(b))
    requires tail == [] || !Digit(tail[0])
    ensures |front| + |RESULT| <= |payload| && ResultAt(payload, |front|) == Some(Signed(negative, n))
  {
    hide ResultAt, ResultText, Decimal;
    TextPlaces(front, blanks, quotes, negative, n, tail);
    var equals := |front| + |RESULT| + |blanks|;
    var value := equals + 1 + |quotes|;
    forall k | |front| + |RESULT| <= k < equals
      ensures Blank(payload[k])
    {
      assert payload[k] == blanks[k - |front| - |RESULT|];
    }
    forall k | equals < k < value
      ensures BlankOrQuote(payload[k])
    {
      assert payload[k] == quotes[k - equals - 1];
    }
    NumberFound(payload, |front|, equals, value, negative, n);
  }

  // ---- read_command and _read_response ----

  datatype Reading = Got(id: nat, payload: bytes) | SoftTimeout | Fatal | Unfinished

  /** What `struct.unpack` finds in a header is what `Frame` put there. */
  lemma HeaderFrame(header: bytes, body: bytes)
    requires |header| == 8 && header[0] == 0x01 && header[1] == 0x0A
    requires |body| == FromU16(header[5], header[4])
    ensures var c := Command(FromU16(header[3], header[2]), FromU16(header[7], header[6]), body);
            Framable(c) && header + body == Frame(c)
  {
  }

  /** Why `read_command` fails for good: the session is not connected; a pump gives up or meets the
      peer's close before the header or the body is there; the header, taken after some turns, is none;
      or the body does not come in time. */
  datatype Trouble = NotConnected | BrokenHeader | BadHeader(taken: nat, header: bytes) | BrokenBody(taken: nat) | NoBody(taken: nat)

  predicate Breaks(outcome: Outcome) {
    outcome == GaveUp || outcome == PeerClosed
  }

  /** The session once the header was taken off after so many turns. */
  function BehindHeader(s: State, ticks: seq<Tick>, taken: nat): (after: State)
    requires Shaped(s.ep) && taken <= |ticks|
    ensures Shaped(after.ep)
  {
    var ep := PumpAll(s, ticks[..taken]);
    s.(ep := if 8 <= |ep.channels[0].buffer| then TakeBytes(ep, 0, 8).0 else ep)
  }

  ghost predicate Explains(t: Trouble, s: State, deadline: real, ticks: seq<Tick>, used: nat)
    requires Shaped(s.ep) && used <= |ticks|
  {
    match t
    case NotConnected => used == 0 && (s.peer.None? || s.closed)
    case BrokenHeader => used > 0 && Breaks(Turned(s, ticks, used - 1))
    case BadHeader(taken, header) =>
      && used == taken && header <= PumpAll(s, ticks[..taken]).channels[0].buffer
      && |header| == 8 && (header[0] != 0x01 || header[1] != 0x0A)
    case BrokenBody(taken) =>
      taken < used && Breaks(Turned(BehindHeader(s, ticks, taken), ticks[taken..], used - taken - 1))
    case NoBody(taken) => taken <= used < |ticks| && ticks[used].now >= deadline
  }

  /** `read_command`. A header that does not arrive is a soft timeout and takes nothing off the
      channel; once the header is taken, a body that does not arrive is fatal. */
  method ReadCommand(session: CS2Session, deadline: real, ticks: seq<Tick>)
    returns (reading: Reading, used: nat, ghost reserved: nat, ghost trouble: Trouble)
    requires session.Valid()
    modifies session
    ensures session.Valid() && used <= |ticks|
    ensures reading.Got? ==>
              var command := Command(reading.id, reserved, reading.payload);
              && Framable(command)
              && session.consumed == old(session.consumed)[0 := old(session.consumed)[0] + Frame(command)]
              && (used == 0 ==> |session.buffers[0]| < |old(session.buffers)[0]|)
    ensures reading == SoftTimeout ==> session.consumed == old(session.consumed)
    ensures reading == SoftTimeout ==> used < |ticks| && ticks[used].now >= deadline && |session.buffers[0]| < 8
    ensures reading == Unfinished ==> used == |ticks|
    ensures reading == Fatal ==> Explains(trouble, old(State(session.View(), session.peer, session.closed)), deadline, ticks, used)
  {
    hide PumpAll, PumpEndpoint, Frame;
    reserved, trouble := 0, NotConnected;
    ghost var start := State(session.View(), session.peer, session.closed);
    var outcome, header, taken := session.ReadExact(0, 8, deadline, ticks);
    used := taken;
    if outcome != Returned {
      reading := if outcome == TimedOut then SoftTimeout else if outcome == Waiting then Unfinished else Fatal;
      trouble := if outcome == Invalid then NotConnected else BrokenHeader;
      return;
    }
    if header[0] != 0x01 || header[1] != 0x0A {
      return Fatal, used, 0, BadHeader(taken, header);
    }
    var id, length := FromU16(header[3], header[2]), FromU16(header[5], header[4]);
    reserved := FromU16(header[7], header[6]);
    ghost var behind := State(session.View(), session.peer, session.closed);
    assert behind == BehindHeader(start, ticks, taken);
    var body, more;
    outcome, body, more := session.ReadExact(0, length, deadline, ticks[used..]);
    used := used + more;
    if outcome != Returned {
      reading := if outcome == Waiting then Unfinished else Fatal;
      trouble := if outcome == TimedOut then NoBody(taken) else BrokenBody(taken);
      return;
    }
    HeaderFrame(header, body);
    assert old(session.consumed)[0] + header + body == old(session.consumed)[0] + (header + body);
    reading := Got(id, body);
  }

  datatype Response = Answer(id: nat, result: int) | NoAnswer | Broken | Pending

  /** The command answers one of the requested identifiers with a number. */
  ghost predicate Answers(ids: seq<nat>, c: Command) {
    c.id in ids && Result(c.payload, 0).Some?
  }

  ghost predicate NoneAnswers(ids: seq<nat>, cs: seq<Command>) {
    forall c :: c in cs ==> !Answers(ids, c)
  }

  /** `_read_response`: read commands until one answers, the time is up or the session breaks.
      `clock` gives the readings of the clock at the head of the loop. */
  method ReadResponse(session: CS2Session, ids: seq<nat>, deadline: real, clock: nat -> real, ticks: seq<Tick>)
    returns (response: Response, used: nat, ghost read: seq<Command>, ghost trouble: Trouble, ghost last: State, ghost from: nat)
    requires session.Valid()
    modifies session
    ensures session.Valid() && used <= |ticks| && AllFramable(read)
    ensures response.Answer? || response == NoAnswer ==>
              session.consumed == old(session.consumed)[0 := old(session.consumed)[0] + Frames(read)]
    ensures response.Answer? ==>
              && read != [] && NoneAnswers(ids, read[..|read| - 1])
              && Answers(ids, read[|read| - 1]) && read[|read| - 1].id == response.id
              && Result(read[|read| - 1].payload, 0) == Some(response.result)
    ensures response == NoAnswer ==> NoneAnswers(ids, read)
    ensures response == NoAnswer ==>
              clock(|read|) >= deadline || (used < |ticks| && ticks[used].now >= deadline && |session.buffers[0]| < 8)
    ensures response == Pending ==> used == |ticks|
    ensures response == Broken ==>
              && from <= used && Shaped(last.ep) && Explains(trouble, last, deadline, ticks[from..], used - from)
              && (read == [] ==> last == old(State(session.View(), session.peer, session.closed)) && from == 0)
  {
    hide Frame, Result, Explains;
    used, read, trouble := 0, [], NotConnected;
    last, from := State(session.View(), session.peer, session.closed), 0;
    var turn := 0;
    assert session.consumed[0] + Frames(read) == session.consumed[0];
    while true
      invariant session.Valid() && used <= |ticks| && AllFramable(read) && NoneAnswers(ids, read) && turn == |read|
      invariant read == [] ==> used == 0 && State(session.View(), session.peer, session.closed) == old(State(session.View(), session.peer, session.closed))
      invariant session.consumed == old(session.consumed)[0 := old(session.consumed)[0] + Frames(read)]
      decreases |ticks| - used, |session.buffers[0]|
    {
      if clock(turn) >= deadline {
        response := NoAnswer;
        return;
      }
      last, from := State(session.View(), session.peer, session.closed), used;
      var reading, taken, reserved, why := ReadCommand(session, deadline, ticks[used..]);
      used, turn, trouble := used + taken, turn + 1, why;
      match reading
      case SoftTimeout => response := NoAnswer; return;
      case Fatal => response := Broken; return;
      case Unfinished => response := Pending; return;
      case Got(id, payload) =>
        ghost var command := Command(id, reserved, payload);
        FramesSnoc(read, command);
        assert old(session.consumed)[0] + Frames(read) + Frame(command) == old(session.consumed)[0] + Frames(read + [command]);
        read := read + [command];
        assert read[..|read| - 1] + [command] == read;
        if id in ids {
          var result := ParseResult(payload);
          if result.Some? {
            response := Answer(id, result.value);
            return;
          }
        }
    }
  }

  /** When the peer wrote `written`, an answer is the first command of it that answers, and
      exactly the commands up to it are taken off the channel. */
  lemma AnswerIsFirst(ids: seq<nat>, read: seq<Command>, written: seq<Command>, rest: bytes)
    requires AllFramable(read) && AllFramable(written) && Frames(read) + rest == Frames(written)
    requires read != [] && NoneAnswers(ids, read[..|read| - 1]) && Answers(ids, read[|read| - 1])
    ensures |read| <= |written| && AllFramable(written[|read|..]) && rest == Frames(written[|read|..])
    ensures NoneAnswers(ids, written[..|read| - 1]) && Answers(ids, written[|read| - 1])
  {
    FramesPrefix(read, written, rest);
    SameFront(read, written);
  }

  lemma SameFront<T>(read: seq<T>, written: seq<T>)
    requires 0 < |read| <= |written| && read == written[..|read|]
    ensures read[..|read| - 1] == written[..|read| - 1] && read[|read| - 1] == written[|read| - 1]
  {
  }
}
