/** The official directory list: pairs of letters that carry a chained exclusive-or, then a key. */
module ServiceParameter {
  import opened Bytes
  import opened Xors

  /** Characters as code points: the parameter is a text, not yet known to be ASCII. */
  type text = seq<nat>

  const MAX_FIELD_BYTES := 4096
  const FIRST_CHAIN := 57

  /** `_DECODE_LOOKUP`, repeated for ever. */
  function Lookup(index: nat): byte {
    var table: bytes := [
      0x49, 0x59, 0x43, 0x3D, 0xB5, 0xBF, 0x6D, 0xA3, 0x47, 0x53, 0x4F, 0x61, 0x65, 0xE3, 0x71, 0xE9, 0x67, 0x7F, 0x02, 0x03, 0x0B, 0xAD, 0xB3, 0x89, 0x2B, 0x2F, 0x35, 0xC1, 0x6B, 0x8B, 0x95, 0x97, 0x11, 0xE5, 0xA7, 0x0D, 0xEF, 0xF1, 0x05, 0x07, 0x83, 0xFB, 0x9D, 0x3B, 0xC5, 0xC7, 0x13, 0x17, 0x1D, 0x1F, 0x25, 0x29, 0xD3, 0xDF];
    table[index % 54]
  }

  // ---- The chained letters ----

  function Letters(value: byte): text {
    [0x41 + value / 16, 0x41 + value % 16]
  }

  predicate IsLetter(c: nat) { 0x41 <= c <= 0x50 }

  /** The exclusive-or and the table, kept abstract in the proofs about the chain. */
  datatype Scheme = Scheme(xor: (byte, byte) -> byte, lookup: nat -> byte) {
    ghost predicate Sound() {
      forall a: byte, b: byte :: xor(xor(a, b), b) == a && xor(a, b) == xor(b, a)
    }

    function Masked(chain: byte, index: nat, value: byte): byte {
      xor(xor(chain, lookup(index)), value)
    }
  }

  function Official(): Scheme {
    Scheme(Xor, Lookup)
  }

  lemma OfficialSound()
    ensures Official().Sound()
  {
    forall a: byte, b: byte
      ensures Xor(Xor(a, b), b) == a && Xor(a, b) == Xor(b, a)
    {
      XorTwice(a, b);
      XorCommutative(a, b);
    }
  }

  /** One pass with a running chain, from letter pair `index` on. */
  function DecodeFrom(s: Scheme, letters: text, index: nat, chain: byte): Option<bytes>
    requires |letters| % 2 == 0
    decreases |letters|
  {
    if letters == [] then Some([])
    else if !IsLetter(letters[0]) || !IsLetter(letters[1]) then None
    else
      var value := s.Masked(chain, index, 16 * (letters[0] - 0x41) + (letters[1] - 0x41));
      Prepend([value], DecodeFrom(s, letters[2..], index + 1, s.xor(chain, value)))
  }

  function EncodeFrom(s: Scheme, decoded: bytes, index: nat, chain: byte): text
    decreases |decoded|
  {
    if decoded == [] then []
    else Letters(s.Masked(chain, index, decoded[0])) + EncodeFrom(s, decoded[1..], index + 1, s.xor(chain, decoded[0]))
  }

  function Prepend(front: bytes, rest: Option<bytes>): Option<bytes> {
    match rest
    case None => None
    case Some(back) => Some(front + back)
  }

  lemma PrependSnoc(front: bytes, value: byte, rest: Option<bytes>)
    ensures Prepend(front, Prepend([value], rest)) == Prepend(front + [value], rest)
  {
    if rest.Some? {
      assert front + ([value] + rest.value) == (front + [value]) + rest.value;
    }
  }

  lemma MaskedTwice(s: Scheme, chain: byte, index: nat, value: byte)
    requires s.Sound()
    ensures s.Masked(chain, index, s.Masked(chain, index, value)) == value
  {
    var mask := s.xor(chain, s.lookup(index));
    assert s.xor(mask, s.xor(mask, value)) == s.xor(s.xor(value, mask), mask);
  }

  lemma LettersRead(value: byte, rest: text)
    ensures var whole := Letters(value) + rest;
            && whole[2..] == rest && IsLetter(whole[0]) && IsLetter(whole[1])
            && 16 * (whole[0] - 0x41) + (whole[1] - 0x41) == value
  {
  }

  /** The letters decode back to the bytes they were made from. */
  lemma {:induction false} DecodeEncode(s: Scheme, decoded: bytes, index: nat, chain: byte)
    requires s.Sound()
    ensures |EncodeFrom(s, decoded, index, chain)| == 2 * |decoded|
    ensures DecodeFrom(s, EncodeFrom(s, decoded, index, chain), index, chain) == Some(decoded)
    decreases |decoded|
  {
    if decoded != [] {
      var next := s.xor(chain, decoded[0]);
      DecodeEncode(s, decoded[1..], index + 1, next);
      MaskedTwice(s, chain, index, decoded[0]);
      LettersRead(s.Masked(chain, index, decoded[0]), EncodeFrom(s, decoded[1..], index + 1, next));
      assert [decoded[0]] + decoded[1..] == decoded;
    }
  }

  /** The exclusive or of a start and the first `k` bytes. */
  function FoldFrom(start: byte, decoded: bytes, k: nat): byte
    requires k <= |decoded|
    decreases k
  {
    if k == 0 then start else FoldFrom(Xor(start, decoded[0]), decoded[1..], k - 1)
  }

  lemma {:induction false} DecodedAt(letters: text, index: nat, chain: byte)
    requires |letters| % 2 == 0
    ensures var d := DecodeFrom(Official(), letters, index, chain);
            && (d.Some? <==> forall i | 0 <= i < |letters| :: IsLetter(letters[i]))
            && (d.Some? ==>
                  && 2 * |d.value| == |letters|
                  && forall k | 0 <= k < |d.value| :: PairIs(letters, index, chain, d.value, k))
    decreases |letters|
  {
    hide Lookup, Xor, PairIs;
    if letters != [] && IsLetter(letters[0]) && IsLetter(letters[1]) {
      var pair := 16 * (letters[0] - 0x41) + (letters[1] - 0x41);
      var value := Xor(Xor(chain, Lookup(index)), pair);
      var rest := DecodeFrom(Official(), letters[2..], index + 1, Xor(chain, value));
      DecodedAt(letters[2..], index + 1, Xor(chain, value));
      LettersBehind(letters);
      if rest.Some? {
        forall k | 0 <= k < |rest.value| + 1
          ensures PairIs(letters, index, chain, [value] + rest.value, k)
        {
          PairBehind(letters, index, chain, value, rest.value, k);
        }
      }
    }
  }

  lemma LettersBehind(letters: text)
    requires |letters| >= 2 && IsLetter(letters[0]) && IsLetter(letters[1])
    ensures (forall i | 0 <= i < |letters| :: IsLetter(letters[i]))
       <==> (forall i | 0 <= i < |letters[2..]| :: IsLetter(letters[2..][i]))
  {
    if forall i | 0 <= i < |letters[2..]| :: IsLetter(letters[2..][i]) {
      forall i | 0 <= i < |letters|
        ensures IsLetter(letters[i])
      {
        assert i >= 2 ==> letters[i] == letters[2..][i - 2];
      }
    }
  }

  /** Byte `k` is the pair of letters at its place, under the table and everything decoded before. */
  ghost predicate PairIs(letters: text, index: nat, chain: byte, decoded: bytes, k: nat) {
    && 2 * k + 1 < |letters| && k < |decoded| && IsLetter(letters[2 * k]) && IsLetter(letters[2 * k + 1])
    && decoded[k] == Xor(Xor(FoldFrom(chain, decoded, k), Lookup(index + k)),
                         16 * (letters[2 * k] - 0x41) + (letters[2 * k + 1] - 0x41))
  }

  lemma PairBehind(letters: text, index: nat, chain: byte, value: byte, rest: bytes, k: nat)
    requires |letters| >= 2 && IsLetter(letters[0]) && IsLetter(letters[1]) && k <= |rest|
    requires value == Xor(Xor(chain, Lookup(index)), 16 * (letters[0] - 0x41) + (letters[1] - 0x41))
    requires k > 0 ==> PairIs(letters[2..], index + 1, Xor(chain, value), rest, k - 1)
    ensures PairIs(letters, index, chain, [value] + rest, k)
  {
    hide Lookup;
    if k > 0 {
      assert letters[2..][2 * (k - 1)] == letters[2 * k] && letters[2..][2 * (k - 1) + 1] == letters[2 * k + 1];
      assert ([value] + rest)[1..] == rest && index + 1 + (k - 1) == index + k;
    }
  }

  /** The official decoding, byte by byte: it works exactly when all letters are A to P, and byte `k` is
      its pair of letters under 57, the bytes before it and the table. */
  lemma DecodedBytes(letters: text)
    requires |letters| % 2 == 0
    ensures var d := DecodeFrom(Official(), letters, 0, FIRST_CHAIN);
            && (d.Some? <==> forall i | 0 <= i < |letters| :: 0x41 <= letters[i] <= 0x50)
            && (d.Some? ==>
                  && 2 * |d.value| == |letters|
                  && forall k | 0 <= k < |d.value| :: PairIs(letters, 0, 57, d.value, k))
  {
    DecodedAt(letters, 0, 57);
  }

  /** The chain in front of a byte: 57 folded with every byte decoded before it. */
  function Chain(s: Scheme, decoded: bytes): byte {
    if decoded == [] then FIRST_CHAIN else s.xor(Chain(s, decoded[..|decoded| - 1]), decoded[|decoded| - 1])
  }

  /** The decoding loop as it is written, which folds the chain afresh for every byte, computes
      the single pass with a running chain. */
  method Decode(s: Scheme, letters: text) returns (result: Option<bytes>)
    requires |letters| % 2 == 0
    ensures result == DecodeFrom(s, letters, 0, FIRST_CHAIN)
  {
    var decoded: bytes := [];
    assert letters[0..] == letters;
    PrependNothing(DecodeFrom(s, letters, 0, FIRST_CHAIN));
    for index := 0 to |letters| / 2
      invariant |decoded| == index
      invariant DecodeFrom(s, letters, 0, FIRST_CHAIN)
             == Prepend(decoded, DecodeFrom(s, letters[2 * index..], index, Chain(s, decoded)))
    {
      var high, low := letters[2 * index], letters[2 * index + 1];
      assert letters[2 * index..][2..] == letters[2 * (index + 1)..];
      if !IsLetter(high) || !IsLetter(low) {
        return None;
      }
      var chained := FoldChain(s, decoded);
      var value := s.Masked(chained, index, 16 * (high - 0x41) + (low - 0x41));
      PrependSnoc(decoded, value, DecodeFrom(s, letters[2 * (index + 1)..], index + 1, s.xor(chained, value)));
      assert (decoded + [value])[..index] == decoded;
      decoded := decoded + [value];
    }
    assert letters[2 * (|letters| / 2)..] == [];
    assert decoded + [] == decoded;
    return Some(decoded);
  }

  lemma PrependNothing(rest: Option<bytes>)
    ensures Prepend([], rest) == rest
  {
    assert rest.Some? ==> [] + rest.value == rest.value;
  }

  method FoldChain(s: Scheme, decoded: bytes) returns (chained: byte)
    ensures chained == Chain(s, decoded)
  {
    chained := FIRST_CHAIN;
    for i := 0 to |decoded|
      invariant chained == Chain(s, decoded[..i])
    {
      assert decoded[..i + 1][..i] == decoded[..i];
      chained := s.xor(chained, decoded[i]);
    }
    assert decoded[..|decoded|] == decoded;
  }

  // ---- The directory list ----

  const COMMA := 0x2C
  const COLON := 0x3A

  predicate Ascii(t: seq<nat>) {
    forall c :: c in t ==> c < 128
  }

  /** `rstrip(b"\0")`. */
  function Strip(b: bytes): bytes {
    if b != [] && b[|b| - 1] == 0 then Strip(b[..|b| - 1]) else b
  }

  /** The non-empty items of `split(",")`; `item` is the part of an item read so far. */
  function Items(b: bytes, item: bytes): seq<bytes>
    decreases |b|
  {
    if b == [] then (if item == [] then [] else [item])
    else if b[0] == COMMA then (if item == [] then [] else [item]) + Items(b[1..], [])
    else Items(b[1..], item + [b[0]])
  }

  function Join(servers: seq<bytes>): bytes {
    if servers == [] then []
    else if |servers| == 1 then servers[0]
    else servers[0] + [COMMA] + Join(servers[1..])
  }

  lemma {:induction false} ItemsThrough(server: bytes, rest: bytes, item: bytes)
    requires COMMA !in server
    ensures Items(server + rest, item) == Items(rest, item + server)
    decreases |server|
  {
    if server == [] {
      assert server + rest == rest && item + server == item;
    } else {
      assert server[0] in server;
      assert (server + rest)[1..] == server[1..] + rest;
      ItemsThrough(server[1..], rest, item + [server[0]]);
      assert item + [server[0]] + server[1..] == item + server;
    }
  }

  ghost predicate ServerName(server: bytes) {
    server != [] && COMMA !in server && 0 !in server && forall c :: c in server ==> c < 128
  }

  lemma {:induction false} ItemsJoin(servers: seq<bytes>)
    requires forall s :: s in servers ==> ServerName(s)
    ensures Items(Join(servers), []) == servers
  {
    assert servers != [] ==> ServerName(servers[0]);
    if |servers| == 1 {
      ItemsThrough(servers[0], [], []);
      assert servers[0] + [] == servers[0] && [] + servers[0] == servers[0];
    } else if |servers| > 1 {
      ItemsJoin(servers[1..]);
      var rest := [COMMA] + Join(servers[1..]);
      ItemsThrough(servers[0], rest, []);
      assert Join(servers) == servers[0] + rest && [] + servers[0] == servers[0];
      assert rest[1..] == Join(servers[1..]);
    }
  }

  /** The parts that are not empty. */
  function NotEmpty(parts: seq<bytes>): seq<bytes> {
    if parts == [] then [] else (if parts[0] == [] then [] else [parts[0]]) + NotEmpty(parts[1..])
  }

  /** Every text is some parts joined by commas, and its items are those that are not empty. */
  lemma {:induction false} ItemsOfParts(parts: seq<bytes>)
    requires parts != [] && forall part :: part in parts ==> COMMA !in part
    ensures Items(Join(parts), []) == NotEmpty(parts)
  {
    assert parts[0] in parts;
    if |parts| == 1 {
      ItemsThrough(parts[0], [], []);
      assert parts[0] + [] == parts[0] && [] + parts[0] == parts[0] && parts[1..] == [];
    } else {
      assert forall part :: part in parts[1..] ==> part in parts;
      ItemsOfParts(parts[1..]);
      var rest := [COMMA] + Join(parts[1..]);
      ItemsThrough(parts[0], rest, []);
      assert Join(parts) == parts[0] + rest && [] + parts[0] == parts[0];
      assert rest[1..] == Join(parts[1..]);
    }
  }

  /** Stripping takes off exactly the zero bytes at the end. */
  lemma {:induction false} StripZeros(b: bytes)
    ensures Strip(b) <= b && (Strip(b) != [] ==> Strip(b)[|Strip(b)| - 1] != 0)
    ensures forall i | |Strip(b)| <= i < |b| :: b[i] == 0
  {
    if b != [] && b[|b| - 1] == 0 {
      StripZeros(b[..|b| - 1]);
    }
  }

  lemma {:induction false} JoinBytes(servers: seq<bytes>)
    requires forall s :: s in servers ==> ServerName(s)
    ensures forall c :: c in Join(servers) ==> 0 < c < 128
    ensures servers != [] ==> Join(servers) != []
  {
    assert servers != [] ==> ServerName(servers[0]);
    if |servers| > 1 {
      JoinBytes(servers[1..]);
    }
  }

  // ---- The whole parameter ----

  /** `partition(":")`: the position of the first colon, or the length of the text. */
  function ColonAt(value: text): (i: nat)
    ensures i <= |value|
  {
    if value == [] || value[0] == COLON then 0 else 1 + ColonAt(value[1..])
  }

  datatype Parameter = Parameter(servers: seq<bytes>, key: text)

  /** `decode_service_parameter`. `address` is the validity test of `inet_aton`. */
  function DecodeParameter(s: Scheme, value: text, address: bytes -> bool): Option<Parameter> {
    var colon := ColonAt(value);
    var encoded, key := value[..colon], if colon < |value| then value[colon + 1..] else [];
    if key == [] || |key| > 128 || encoded == [] || |encoded| % 2 != 0 || |encoded| > MAX_FIELD_BYTES || !Ascii(key) then None
    else
      match DecodeFrom(s, encoded, 0, FIRST_CHAIN)
      case None => None
      case Some(decoded) =>
        var list := Strip(decoded);
        var servers := Items(list, []);
        if !Ascii(list) || servers == [] || |servers| > 16 || exists server | server in servers :: !address(server) then None
        else Some(Parameter(servers, key))
  }

  lemma {:induction false} ColonIs(value: text)
    ensures COLON !in value[..ColonAt(value)]
    ensures ColonAt(value) < |value| ==> value[ColonAt(value)] == COLON
  {
    if value != [] && value[0] != COLON {
      ColonIs(value[1..]);
      assert value[..ColonAt(value)] == [value[0]] + value[1..][..ColonAt(value[1..])];
    }
  }

  /** 2 to 4096 letters in pairs that decode, without the zeros at the end, to an ASCII list of 1 to 16
      addresses, and a key of 1 to 128 ASCII characters. */
  ghost predicate Stands(s: Scheme, letters: text, address: bytes -> bool, p: Parameter) {
    && 0 < |p.key| <= 128 && (forall c | c in p.key :: c < 128)
    && 0 < |letters| <= 4096 && |letters| % 2 == 0
    && var decoded := DecodeFrom(s, letters, 0, 57);
       && decoded.Some?
       && (forall c | c in Strip(decoded.value) :: c < 128)
       && p.servers == Items(Strip(decoded.value), []) && 1 <= |p.servers| <= 16
       && forall server | server in p.servers :: address(server)
  }

  lemma ReadWhole(s: Scheme, letters: text, key: text, address: bytes -> bool, p: Parameter)
    requires COLON !in letters
    ensures DecodeParameter(s, letters + [COLON] + key, address) == Some(p) <==> p.key == key && Stands(s, letters, address, p)
  {
    hide DecodeFrom, Strip, Items;
    var value := letters + [COLON] + key;
    ColonAfter(letters, key);
    assert value[..|letters|] == letters && value[|letters| + 1..] == key;
  }

  /** A parameter is accepted exactly when it is such letters, a colon and such a key. */
  lemma AcceptedIff(s: Scheme, value: text, address: bytes -> bool, p: Parameter)
    ensures DecodeParameter(s, value, address) == Some(p) <==>
              exists letters: text ::
                value == letters + [0x3A] + p.key && 0x3A !in letters && Stands(s, letters, address, p)
  {
    hide DecodeFrom, Strip, Items, Stands;
    ColonIs(value);
    var colon := ColonAt(value);
    if DecodeParameter(s, value, address) == Some(p) {
      assert value == value[..colon] + [0x3A] + value[colon + 1..];
      ReadWhole(s, value[..colon], value[colon + 1..], address, p);
    }
    if letters: text :| value == letters + [0x3A] + p.key && 0x3A !in letters && Stands(s, letters, address, p) {
      ReadWhole(s, letters, p.key, address, p);
    }
  }

  /** How a parameter for these servers and this key is made. */
  function EncodeParameter(s: Scheme, p: Parameter): text {
    EncodeFrom(s, Join(p.servers), 0, FIRST_CHAIN) + [COLON] + p.key
  }

  lemma {:induction false} ColonAfter(letters: text, rest: text)
    requires COLON !in letters
    ensures ColonAt(letters + [COLON] + rest) == |letters|
  {
    if letters != [] {
      assert letters[0] in letters;
      assert (letters + [COLON] + rest)[1..] == letters[1..] + [COLON] + rest;
      ColonAfter(letters[1..], rest);
    }
  }

  lemma {:induction false} OnlyLetters(s: Scheme, decoded: bytes, index: nat, chain: byte)
    ensures forall c :: c in EncodeFrom(s, decoded, index, chain) ==> IsLetter(c)
    decreases |decoded|
  {
    if decoded != [] {
      OnlyLetters(s, decoded[1..], index + 1, s.xor(chain, decoded[0]));
    }
  }

  /** What the decoding of the letters must give for the whole parameter to be read back. */
  lemma ListReadBack(servers: seq<bytes>)
    requires servers != [] && forall server :: server in servers ==> ServerName(server)
    ensures var list := Join(servers); list != [] && Strip(list) == list && Ascii(list) && Items(list, []) == servers
  {
    JoinBytes(servers);
    ItemsJoin(servers);
    var list := Join(servers);
    assert list[|list| - 1] in list;
  }

  lemma DecodedParameter(s: Scheme, letters: text, p: Parameter, list: bytes, address: bytes -> bool)
    requires 0 < |p.servers| <= 16 && 0 < |p.key| <= 128 && Ascii(p.key)
    requires 0 < |letters| <= MAX_FIELD_BYTES && |letters| % 2 == 0 && COLON !in letters
    requires DecodeFrom(s, letters, 0, FIRST_CHAIN) == Some(list)
    requires Strip(list) == list && Ascii(list) && Items(list, []) == p.servers
    requires forall server :: server in p.servers ==> address(server)
    ensures DecodeParameter(s, letters + [COLON] + p.key, address) == Some(p)
  {
    var value := letters + [COLON] + p.key;
    ColonAfter(letters, p.key);
    assert value[..|letters|] == letters && value[|letters| + 1..] == p.key;
  }

  /** Every valid list of servers and every key survive the round trip. */
  lemma ParameterRoundTrip(s: Scheme, p: Parameter, address: bytes -> bool)
    requires s.Sound()
    requires 0 < |p.servers| <= 16 && 0 < |p.key| <= 128 && Ascii(p.key)
    requires forall server :: server in p.servers ==> ServerName(server) && address(server)
    requires 2 * |Join(p.servers)| <= MAX_FIELD_BYTES
    ensures DecodeParameter(s, EncodeParameter(s, p), address) == Some(p)
  {
    var list := Join(p.servers);
    var letters := EncodeFrom(s, list, 0, FIRST_CHAIN);
    ListReadBack(p.servers);
    DecodeEncode(s, list, 0, FIRST_CHAIN);
    OnlyLetters(s, list, 0, FIRST_CHAIN);
    DecodedParameter(s, letters, p, list, address);
  }

  /** The same for the scheme the vendor uses. */
  lemma OfficialRoundTrip(p: Parameter, address: bytes -> bool)
    requires 0 < |p.servers| <= 16 && 0 < |p.key| <= 128 && Ascii(p.key)
    requires forall server :: server in p.servers ==> ServerName(server) && address(server)
    requires 2 * |Join(p.servers)| <= MAX_FIELD_BYTES
    ensures DecodeParameter(Official(), EncodeParameter(Official(), p), address) == Some(p)
  {
    OfficialSound();
    ParameterRoundTrip(Official(), p, address);
  }
}
