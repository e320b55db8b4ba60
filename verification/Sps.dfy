/** Frame timing from a sequence parameter set (sections 7.3.2.1.1 and E.1.1 of ITU-T H.264). */
module Sps {
  import opened Bytes
  import opened Bits

  const CLOCK := 90_000
  const HIGH_PROFILES: set<nat> := {44, 83, 86, 100, 110, 118, 122, 128, 134, 138, 139, 244}

  // ---- The parser, one group of fields after the other ----

  function ScalingSize(index: nat): nat {
    if index < 6 then 16 else 64
  }

  function ReadScaling(bs: bits, count: nat, last: int, next: int): Read<()>
    decreases count
  {
    if count == 0 then Got((), bs)
    else if next == 0 then ReadScaling(bs, count - 1, last, 0)
    else
      var (delta, rest) :- Se(bs);
      var scale := (last + delta) % 256;
      ReadScaling(rest, count - 1, if scale != 0 then scale else last, scale)
  }

  function ReadLists(bs: bits, index: nat, count: nat): Read<()>
    requires index <= count
    decreases count - index
  {
    if index == count then Got((), bs)
    else
      var (present, rest) :- Fixed(bs, 1);
      if present == 0 then ReadLists(rest, index + 1, count)
      else
        var (_, after) :- ReadScaling(rest, ScalingSize(index), 8, 8);
        ReadLists(after, index + 1, count)
  }

  function Lists(chroma: nat): nat {
    if chroma != 3 then 8 else 12
  }

  function ReadMatrix(bs: bits, chroma: nat): Read<()> {
    var (scaling, rest) :- Fixed(bs, 1);
    if scaling == 0 then Got((), rest) else ReadLists(rest, 0, Lists(chroma))
  }

  function ReadHigh(bs: bits): Read<()> {
    var (chroma, b1) :- Ue(bs);
    var (_, b2) :- Fixed(b1, if chroma == 3 then 1 else 0);
    var (_, b3) :- Ue(b2);
    var (_, b4) :- Ue(b3);
    var (_, b5) :- Fixed(b4, 1);
    ReadMatrix(b5, chroma)
  }

  function ReadOffsets(bs: bits, count: nat): Read<()>
    decreases count
  {
    if count == 0 then Got((), bs)
    else
      var (_, rest) :- Se(bs);
      ReadOffsets(rest, count - 1)
  }

  function ReadOrder(bs: bits): Read<()> {
    var (kind, b1) :- Ue(bs);
    if kind == 0 then
      var (_, b2) :- Ue(b1);
      Got((), b2)
    else if kind == 1 then
      var (_, b2) :- Fixed(b1, 1);
      var (_, b3) :- Se(b2);
      var (_, b4) :- Se(b3);
      var (count, b5) :- Ue(b4);
      ReadOffsets(b5, count)
    else Got((), b1)
  }

  function ReadCrop(bs: bits): Read<()> {
    var (present, b0) :- Fixed(bs, 1);
    if present == 0 then Got((), b0)
    else
      var (_, b1) :- Ue(b0);
      var (_, b2) :- Ue(b1);
      var (_, b3) :- Ue(b2);
      var (_, b4) :- Ue(b3);
      Got((), b4)
  }

  function ReadPicture(bs: bits): Read<()> {
    var (_, b1) :- Ue(bs);
    var (_, b2) :- Fixed(b1, 1);
    var (_, b3) :- Ue(b2);
    var (_, b4) :- Ue(b3);
    var (framesOnly, b5) :- Fixed(b4, 1);
    var (_, b6) :- Fixed(b5, if framesOnly == 0 then 1 else 0);
    var (_, b7) :- Fixed(b6, 1);
    ReadCrop(b7)
  }

  function ReadAspect(bs: bits): Read<()> {
    var (present, b0) :- Fixed(bs, 1);
    if present == 0 then Got((), b0)
    else
      var (idc, b1) :- Fixed(b0, 8);
      var (_, b2) :- Fixed(b1, if idc == 255 then 32 else 0);
      Got((), b2)
  }

  function ReadOverscan(bs: bits): Read<()> {
    var (present, b0) :- Fixed(bs, 1);
    var (_, b1) :- Fixed(b0, if present == 0 then 0 else 1);
    Got((), b1)
  }

  /** The code takes the full-range flag for the colour-description flag. */
  function ReadSignal(bs: bits): Read<()> {
    var (present, b0) :- Fixed(bs, 1);
    if present == 0 then Got((), b0)
    else
      var (_, b1) :- Fixed(b0, 3);
      var (colour, b2) :- Fixed(b1, 1);
      var (_, b3) :- Fixed(b2, if colour == 0 then 0 else 24);
      Got((), b3)
  }

  function ReadChroma(bs: bits): Read<()> {
    var (present, b0) :- Fixed(bs, 1);
    if present == 0 then Got((), b0)
    else
      var (_, b1) :- Ue(b0);
      var (_, b2) :- Ue(b1);
      Got((), b2)
  }

  function TicksOf(units: nat, scale: nat, fixed: nat): Option<nat> {
    if fixed == 0 || units == 0 || scale == 0 then None
    else
      var ticks := (CLOCK * 2 * units + scale / 2) / scale;
      if 1 <= ticks <= CLOCK * 10 then Some(ticks) else None
  }

  function ReadTiming(bs: bits): Read<Option<nat>> {
    var (present, b0) :- Fixed(bs, 1);
    if present == 0 then Got(None, b0)
    else
      var (units, b1) :- Fixed(b0, 32);
      var (scale, b2) :- Fixed(b1, 32);
      var (fixed, b3) :- Fixed(b2, 1);
      Got(TicksOf(units, scale, fixed), b3)
  }

  /** The usability sections in front of the timing. */
  function ReadSections(bs: bits): Read<()> {
    var (_, b1) :- ReadAspect(bs);
    var (_, b2) :- ReadOverscan(b1);
    var (_, b3) :- ReadSignal(b2);
    ReadChroma(b3)
  }

  function ReadUsability(bs: bits): Read<Option<nat>> {
    var (present, b0) :- Fixed(bs, 1);
    if present == 0 then Got(None, b0)
    else
      var (_, b1) :- ReadSections(b0);
      ReadTiming(b1)
  }

  function ReadHead(bs: bits): Read<()> {
    var (profile, b1) :- Fixed(bs, 8);
    var (_, b2) :- Fixed(b1, 8);
    var (_, b3) :- Fixed(b2, 8);
    var (_, b4) :- Ue(b3);
    if profile in HIGH_PROFILES then ReadHigh(b4) else Got((), b4)
  }

  function ReadBody(bs: bits): Read<()> {
    var (_, b1) :- Ue(bs);
    var (_, b2) :- ReadOrder(b1);
    ReadPicture(b2)
  }

  function ReadSps(bs: bits): Read<Option<nat>> {
    var (_, b1) :- ReadHead(bs);
    var (_, b2) :- ReadBody(b1);
    ReadUsability(b2)
  }

  function Found(ticks: Read<Option<nat>>): Option<nat> {
    match ticks
    case Bad => None
    case Got(value, _) => value
  }

  /** What the parser returns for a unit: nothing for a bad unit and nothing for one without a
      fixed frame rate. */
  function FrameTicks(nal: bytes): Option<nat> {
    if nal == [] || nal[0] % 32 != 7 then None else Found(ReadSps(BitsOf(Rbsp(nal))))
  }

  /** Only a unit of type 7 announces anything. */
  lemma OnlySets(nal: bytes)
    ensures FrameTicks(nal).Some? ==> nal != [] && nal[0] % 32 == 7 && 1 <= FrameTicks(nal).value <= 900_000
  {
    hide ReadHead, ReadBody, ReadSections, Rbsp;
  }

  // ---- The writer, section by section of the standard ----

  predicate InUe(value: nat) { value + 1 < 0x1_0000_0000 }

  predicate InSe(value: int) { -0x8000_0000 < value < 0x8000_0000 }

  predicate Fits(value: nat, count: nat) { value < Pow2(count) }

  /** Section 7.3.2.1.1.1: deltas are written until one makes the next scale zero. */
  ghost predicate GoodDeltas(deltas: seq<int>, count: nat, last: int, next: int)
    decreases count
  {
    if count == 0 then deltas == []
    else if next == 0 then GoodDeltas(deltas, count - 1, last, 0)
    else
      && deltas != [] && InSe(deltas[0])
      && var scale := (last + deltas[0]) % 256;
         GoodDeltas(deltas[1..], count - 1, if scale != 0 then scale else last, scale)
  }

  function PutDeltas(deltas: seq<int>, rest: bits): bits {
    if deltas == [] then rest else PutSe(deltas[0], PutDeltas(deltas[1..], rest))
  }

  function PutLists(lists: seq<Option<seq<int>>>, rest: bits): bits {
    if lists == [] then rest
    else
      match lists[0]
      case None => PutFixed(1, 0, PutLists(lists[1..], rest))
      case Some(deltas) => PutFixed(1, 1, PutDeltas(deltas, PutLists(lists[1..], rest)))
  }

  ghost predicate GoodLists(lists: seq<Option<seq<int>>>, index: nat) {
    forall k: nat :: k < |lists| && lists[k].Some? ==> GoodDeltas(lists[k].value, if index + k < 6 then 16 else 64, 8, 8)
  }

  datatype High = High(chroma: nat, separate: bit, luma: nat, depth: nat, bypass: bit,
                       lists: Option<seq<Option<seq<int>>>>) {
    ghost predicate Good() {
      && InUe(chroma) && InUe(luma) && InUe(depth)
      && (lists.Some? ==> |lists.value| == (if chroma == 3 then 12 else 8) && GoodLists(lists.value, 0))
    }

    function Put(rest: bits): bits {
      PutUe(chroma, PutFixed(if chroma == 3 then 1 else 0, separate, PutUe(luma, PutUe(depth, PutFixed(1, bypass, PutMatrix(rest))))))
    }

    function PutMatrix(rest: bits): bits {
      match lists
      case None => PutFixed(1, 0, rest)
      case Some(ls) => PutFixed(1, 1, PutLists(ls, rest))
    }
  }

  lemma {:induction false} ScalingRead(deltas: seq<int>, count: nat, last: int, next: int, rest: bits)
    requires GoodDeltas(deltas, count, last, next)
    ensures ReadScaling(PutDeltas(deltas, rest), count, last, next) == Got((), rest)
    decreases count
  {
    if count > 0 {
      if next == 0 {
        ScalingRead(deltas, count - 1, last, 0, rest);
      } else {
        var scale := (last + deltas[0]) % 256;
        SeRead(deltas[0], PutDeltas(deltas[1..], rest));
        ScalingRead(deltas[1..], count - 1, if scale != 0 then scale else last, scale, rest);
      }
    }
  }

  lemma {:induction false} ListsRead(lists: seq<Option<seq<int>>>, index: nat, rest: bits)
    requires GoodLists(lists, index)
    ensures ReadLists(PutLists(lists, rest), index, index + |lists|) == Got((), rest)
    decreases |lists|
  {
    if lists != [] {
      var tail := PutLists(lists[1..], rest);
      assert forall k: nat :: k < |lists[1..]| ==> lists[1..][k] == lists[k + 1];
      ListsRead(lists[1..], index + 1, rest);
      match lists[0]
      case None =>
        FixedRead(1, 0, tail);
      case Some(deltas) =>
        FixedRead(1, 1, PutDeltas(deltas, tail));
        ScalingRead(deltas, ScalingSize(index), 8, 8, tail);
    }
  }

  lemma MatrixRead(h: High, rest: bits)
    requires h.Good()
    ensures ReadMatrix(h.PutMatrix(rest), h.chroma) == Got((), rest)
  {
    match h.lists
    case None => FixedRead(1, 0, rest);
    case Some(ls) =>
      FixedRead(1, 1, PutLists(ls, rest));
      ListsRead(ls, 0, rest);
  }

  lemma FlagRead(present: bool, value: nat, rest: bits)
    requires value < 2
    ensures var count := if present then 1 else 0;
            Fixed(PutFixed(count, value, rest), count).Got? && Fixed(PutFixed(count, value, rest), count).rest == rest
  {
    if present {
      FixedRead(1, value, rest);
    } else {
      FixedRead(0, 0, rest);
    }
  }

  lemma HighRead(h: High, rest: bits)
    requires h.Good()
    ensures ReadHigh(h.Put(rest)) == Got((), rest)
  {
    var p6 := h.PutMatrix(rest);
    var p5 := PutFixed(1, h.bypass, p6);
    var p4 := PutUe(h.depth, p5);
    var p3 := PutUe(h.luma, p4);
    var p2 := PutFixed(if h.chroma == 3 then 1 else 0, h.separate, p3);
    UeRead(h.chroma, p2);
    FlagRead(h.chroma == 3, h.separate, p3);
    UeRead(h.luma, p4);
    UeRead(h.depth, p5);
    FixedRead(1, h.bypass, p6);
    MatrixRead(h, rest);
  }

  datatype Order = Type0(log: nat) | Type1(zero: bit, nonRef: int, topBottom: int, offsets: seq<int>) | Other(kind: nat) {
    ghost predicate Good() {
      match this
      case Type0(log) => InUe(log)
      case Type1(_, nonRef, topBottom, offsets) =>
        InSe(nonRef) && InSe(topBottom) && InUe(|offsets|) && forall o :: o in offsets ==> InSe(o)
      case Other(kind) => InUe(kind) && kind >= 2
    }

    function Put(rest: bits): bits {
      match this
      case Type0(log) => PutUe(0, PutUe(log, rest))
      case Type1(zero, nonRef, topBottom, offsets) =>
        PutUe(1, PutFixed(1, zero, PutSe(nonRef, PutSe(topBottom, PutUe(|offsets|, PutDeltas(offsets, rest))))))
      case Other(kind) => PutUe(kind, rest)
    }
  }

  lemma {:induction false} OffsetsRead(offsets: seq<int>, rest: bits)
    requires forall o :: o in offsets ==> InSe(o)
    ensures ReadOffsets(PutDeltas(offsets, rest), |offsets|) == Got((), rest)
    decreases |offsets|
  {
    if offsets != [] {
      assert offsets[0] in offsets;
      SeRead(offsets[0], PutDeltas(offsets[1..], rest));
      OffsetsRead(offsets[1..], rest);
    }
  }

  lemma OrderRead(o: Order, rest: bits)
    requires o.Good()
    ensures ReadOrder(o.Put(rest)) == Got((), rest)
  {
    match o
    case Type0(log) =>
      UeRead(0, PutUe(log, rest));
      UeRead(log, rest);
    case Type1(zero, nonRef, topBottom, offsets) =>
      var p5 := PutDeltas(offsets, rest);
      var p4 := PutUe(|offsets|, p5);
      var p3 := PutSe(topBottom, p4);
      var p2 := PutSe(nonRef, p3);
      UeRead(1, PutFixed(1, zero, p2));
      FixedRead(1, zero, p2);
      SeRead(nonRef, p3);
      SeRead(topBottom, p4);
      UeRead(|offsets|, p5);
      OffsetsRead(offsets, rest);
    case Other(kind) => UeRead(kind, rest);
  }

  datatype Crop = Crop(left: nat, right: nat, top: nat, bottom: nat)

  datatype Picture = Picture(refs: nat, gaps: bit, width: nat, height: nat, framesOnly: bit, adaptive: bit, direct: bit, crop: Option<Crop>) {
    ghost predicate Good() {
      && InUe(refs) && InUe(width) && InUe(height)
      && (crop.Some? ==> InUe(crop.value.left) && InUe(crop.value.right) && InUe(crop.value.top) && InUe(crop.value.bottom))
    }

    function Put(rest: bits): bits {
      PutUe(refs, PutFixed(1, gaps, PutUe(width, PutUe(height, PutFixed(1, framesOnly,
        PutFixed(if framesOnly == 0 then 1 else 0, adaptive, PutFixed(1, direct, PutCrop(rest))))))))
    }

    function PutCrop(rest: bits): bits {
      match crop
      case None => PutFixed(1, 0, rest)
      case Some(c) => PutFixed(1, 1, PutUe(c.left, PutUe(c.right, PutUe(c.top, PutUe(c.bottom, rest)))))
    }
  }

  lemma CropRead(p: Picture, rest: bits)
    requires p.Good()
    ensures ReadCrop(p.PutCrop(rest)) == Got((), rest)
  {
    match p.crop
    case None => FixedRead(1, 0, rest);
    case Some(c) =>
      var p4 := PutUe(c.bottom, rest);
      var p3 := PutUe(c.top, p4);
      var p2 := PutUe(c.right, p3);
      FixedRead(1, 1, PutUe(c.left, p2));
      UeRead(c.left, p2);
      UeRead(c.right, p3);
      UeRead(c.top, p4);
      UeRead(c.bottom, rest);
  }

  lemma PictureRead(p: Picture, rest: bits)
    requires p.Good()
    ensures ReadPicture(p.Put(rest)) == Got((), rest)
  {
    var p7 := p.PutCrop(rest);
    var p6 := PutFixed(1, p.direct, p7);
    var p5 := PutFixed(if p.framesOnly == 0 then 1 else 0, p.adaptive, p6);
    var p4 := PutFixed(1, p.framesOnly, p5);
    var p3 := PutUe(p.height, p4);
    var p2 := PutUe(p.width, p3);
    UeRead(p.refs, PutFixed(1, p.gaps, p2));
    FixedRead(1, p.gaps, p2);
    UeRead(p.width, p3);
    UeRead(p.height, p4);
    FixedRead(1, p.framesOnly, p5);
    FlagRead(p.framesOnly == 0, p.adaptive, p6);
    FixedRead(1, p.direct, p7);
    CropRead(p, rest);
  }

  datatype Aspect = Aspect(idc: nat, ratio: nat)

  /** Section E.1.1: the full-range flag stands in front of the colour-description flag. */
  datatype Signal = Signal(format: nat, fullRange: bit, colour: Option<nat>)

  datatype Timing = Timing(units: nat, scale: nat, fixed: bit)

  datatype Usability = Usability(aspect: Option<Aspect>, overscan: Option<bit>, signal: Option<Signal>,
                                 chroma: Option<(nat, nat)>, timing: Option<Timing>) {
    ghost predicate Good() {
      && (aspect.Some? ==> Fits(aspect.value.idc, 8) && Fits(aspect.value.ratio, 32))
      && (signal.Some? ==> Fits(signal.value.format, 3) && (signal.value.colour.Some? ==> Fits(signal.value.colour.value, 24)))
      && (chroma.Some? ==> InUe(chroma.value.0) && InUe(chroma.value.1))
      && (timing.Some? ==> Fits(timing.value.units, 32) && Fits(timing.value.scale, 32))
    }

    function PutAspect(rest: bits): bits {
      match aspect
      case None => PutFixed(1, 0, rest)
      case Some(a) => PutFixed(1, 1, PutFixed(8, a.idc, PutFixed(if a.idc == 255 then 32 else 0, a.ratio, rest)))
    }

    function PutOverscan(rest: bits): bits {
      match overscan
      case None => PutFixed(1, 0, rest)
      case Some(appropriate) => PutFixed(1, 1, PutFixed(1, appropriate, rest))
    }

    function PutSignal(rest: bits): bits {
      match signal
      case None => PutFixed(1, 0, rest)
      case Some(s) => PutFixed(1, 1, PutFixed(3, s.format, PutFixed(1, s.fullRange, PutColour(s, rest))))
    }

    function PutColour(s: Signal, rest: bits): bits {
      match s.colour
      case None => PutFixed(1, 0, rest)
      case Some(c) => PutFixed(1, 1, PutFixed(24, c, rest))
    }

    function PutChroma(rest: bits): bits {
      match chroma
      case None => PutFixed(1, 0, rest)
      case Some(c) => PutFixed(1, 1, PutUe(c.0, PutUe(c.1, rest)))
    }

    function PutTiming(rest: bits): bits {
      match timing
      case None => PutFixed(1, 0, rest)
      case Some(t) => PutFixed(1, 1, PutFixed(32, t.units, PutFixed(32, t.scale, PutFixed(1, t.fixed, rest))))
    }

    function Put(rest: bits): bits {
      PutAspect(PutOverscan(PutSignal(PutChroma(PutTiming(rest)))))
    }

    function Ticks(): Option<nat> {
      match timing
      case None => None
      case Some(t) => TicksOf(t.units, t.scale, t.fixed)
    }
  }

  lemma AspectRead(u: Usability, rest: bits)
    requires u.Good()
    ensures ReadAspect(u.PutAspect(rest)) == Got((), rest)
  {
    match u.aspect
    case None => FixedRead(1, 0, rest);
    case Some(a) =>
      var count := if a.idc == 255 then 32 else 0;
      var tail := PutFixed(count, a.ratio, rest);
      FixedRead(1, 1, PutFixed(8, a.idc, tail));
      FixedRead(8, a.idc, tail);
      SkipRead(count, a.ratio, rest);
  }

  /** Skipping a field needs only its width. */
  lemma SkipRead(count: nat, value: nat, rest: bits)
    ensures Fixed(PutFixed(count, value, rest), count).Got? && Fixed(PutFixed(count, value, rest), count).rest == rest
  {
    FixedLength(count, value, rest);
  }

  lemma OverscanRead(u: Usability, rest: bits)
    ensures ReadOverscan(u.PutOverscan(rest)) == Got((), rest)
  {
    match u.overscan
    case None => FixedRead(1, 0, rest); FixedRead(0, 0, rest);
    case Some(appropriate) =>
      FixedRead(1, 1, PutFixed(1, appropriate, rest));
      FixedRead(1, appropriate, rest);
  }

  lemma ChromaRead(u: Usability, rest: bits)
    requires u.Good()
    ensures ReadChroma(u.PutChroma(rest)) == Got((), rest)
  {
    match u.chroma
    case None => FixedRead(1, 0, rest);
    case Some(c) =>
      FixedRead(1, 1, PutUe(c.0, PutUe(c.1, rest)));
      UeRead(c.0, PutUe(c.1, rest));
      UeRead(c.1, rest);
  }

  lemma TimingRead(u: Usability, rest: bits)
    requires u.Good()
    ensures ReadTiming(u.PutTiming(rest)) == Got(u.Ticks(), rest)
  {
    match u.timing
    case None => FixedRead(1, 0, rest);
    case Some(t) =>
      var p3 := PutFixed(1, t.fixed, rest);
      var p2 := PutFixed(32, t.scale, p3);
      FixedRead(1, 1, PutFixed(32, t.units, p2));
      FixedRead(32, t.units, p2);
      FixedRead(32, t.scale, p3);
      FixedRead(1, t.fixed, rest);
  }

  lemma UsabilityRead(u: Usability, rest: bits)
    requires u.Good() && u.signal.None?
    ensures ReadUsability(PutFixed(1, 1, u.Put(rest))) == Got(u.Ticks(), rest)
  {
    var p4 := u.PutTiming(rest);
    var p3 := u.PutChroma(p4);
    var p2 := u.PutSignal(p3);
    var p1 := u.PutOverscan(p2);
    FixedRead(1, 1, u.PutAspect(p1));
    AspectRead(u, p1);
    OverscanRead(u, p2);
    FixedRead(1, 0, p3);
    ChromaRead(u, p4);
    TimingRead(u, rest);
  }

  // ---- What becomes of a video signal section ----

  function ReadLate(bs: bits): Read<Option<nat>> {
    var (_, rest) :- ReadChroma(bs);
    ReadTiming(rest)
  }

  /** The full-range flag is taken for the colour flag: the chroma and timing flags are looked for at
      the colour flag itself, or 24 bits behind it. */
  function Astray(u: Usability, rest: bits): Read<Option<nat>>
    requires u.signal.Some?
  {
    var s := u.signal.value;
    var (_, late) :- Fixed(u.PutColour(s, u.PutChroma(u.PutTiming(rest))), if s.fullRange == 0 then 0 else 24);
    ReadLate(late)
  }

  lemma SignalRead(u: Usability, s: Signal, rest: bits)
    requires u.Good() && u.signal == Some(s)
    ensures ReadSignal(u.PutSignal(rest))
         == match Fixed(u.PutColour(s, rest), if s.fullRange == 0 then 0 else 24)
            case Bad => Bad
            case Got(_, late) => Got((), late)
  {
    var p2 := u.PutColour(s, rest);
    var p1 := PutFixed(1, s.fullRange, p2);
    FixedRead(1, 1, PutFixed(3, s.format, p1));
    FixedRead(3, s.format, p1);
    FixedRead(1, s.fullRange, p2);
  }

  lemma UsabilityAstray(u: Usability, rest: bits)
    requires u.Good() && u.signal.Some?
    ensures ReadUsability(PutFixed(1, 1, u.Put(rest))) == Astray(u, rest)
  {
    hide Fixed, PutFixed, ReadChroma, ReadTiming;
    var p3 := u.PutChroma(u.PutTiming(rest));
    var p2 := u.PutSignal(p3);
    var p1 := u.PutOverscan(p2);
    FixedRead(1, 1, u.PutAspect(p1));
    AspectRead(u, p1);
    OverscanRead(u, p2);
    SignalRead(u, u.signal.value, p3);
  }

  /** What the parser finds behind a signal section without full range and without colours, or with
      full range and colours of which the last byte is even: the chroma flag is right there. */
  ghost predicate OneBitShort(s: Signal) {
    if s.fullRange == 0 then s.colour.None? else s.colour.Some? && s.colour.value % 2 == 0
  }

  lemma ShortIsLate(u: Usability, s: Signal, rest: bits)
    requires u.Good() && u.signal == Some(s) && OneBitShort(s)
    ensures var count := if s.fullRange == 0 then 0 else 24;
            var late := Fixed(u.PutColour(s, rest), count);
            late.Got? && late.rest == PutFixed(1, 0, rest)
  {
    if s.fullRange == 1 {
      var c := s.colour.value;
      var tail: bits := [0] + rest;
      assert PutFixed(24, c, rest) == PutFixed(23, c / 2, tail);
      FixedLength(23, c / 2, tail);
      assert PutFixed(1, 1, PutFixed(23, c / 2, tail)) == [1] + PutFixed(23, c / 2, tail);
      assert ([1] + PutFixed(23, c / 2, tail))[24..] == PutFixed(23, c / 2, tail)[23..];
    } else {
      assert PutFixed(1, 0, rest)[0..] == PutFixed(1, 0, rest);
    }
  }

  /** Without a chroma location the flag that says so is taken for the timing flag. */
  lemma NothingFound(u: Usability, rest: bits)
    requires u.Good() && u.signal.Some? && OneBitShort(u.signal.value) && u.chroma.None?
    ensures Astray(u, rest) == Got(None, u.PutTiming(rest))
  {
    var p4 := u.PutTiming(rest);
    var p3 := u.PutChroma(p4);
    ShortIsLate(u, u.signal.value, p3);
    FixedRead(1, 0, p3);
    FixedRead(1, 0, p4);
  }

  /** The profiles whose sets hold the fields on chroma format, bit depths and scaling. */
  predicate HasHigh(profile: nat) {
    || profile == 100 || profile == 110 || profile == 122 || profile == 244 || profile == 44 || profile == 83
    || profile == 86 || profile == 118 || profile == 128 || profile == 138 || profile == 139 || profile == 134
  }

  datatype Set = Set(profile: nat, constraints: nat, level: nat, id: nat, high: High, frameNum: nat, order: Order,
                     picture: Picture, usability: Option<Usability>) {
    ghost predicate Good() {
      && Fits(profile, 8) && Fits(constraints, 8) && Fits(level, 8) && InUe(id) && InUe(frameNum)
      && high.Good() && order.Good() && picture.Good()
      && (usability.Some? ==> usability.value.Good())
    }

    function PutHigh(rest: bits): bits {
      if HasHigh(profile) then high.Put(rest) else rest
    }

    function PutUsability(rest: bits): bits {
      match usability
      case None => PutFixed(1, 0, rest)
      case Some(u) => PutFixed(1, 1, u.Put(rest))
    }

    function Put(rest: bits): bits {
      PutFixed(8, profile, PutFixed(8, constraints, PutFixed(8, level, PutUe(id,
        PutHigh(PutUe(frameNum, order.Put(picture.Put(PutUsability(rest)))))))))
    }
  }

  lemma ProfileIs(profile: nat)
    ensures profile in HIGH_PROFILES <==> HasHigh(profile)
  {
  }

  lemma SetRead(s: Set, rest: bits)
    requires s.Good()
    ensures ReadSps(s.Put(rest)) == ReadUsability(s.PutUsability(rest))
  {
    hide HasHigh, HIGH_PROFILES;
    ProfileIs(s.profile);
    var p8 := s.PutUsability(rest);
    var p7 := s.picture.Put(p8);
    var p6 := s.order.Put(p7);
    var p5 := PutUe(s.frameNum, p6);
    var p4 := s.PutHigh(p5);
    var p3 := PutUe(s.id, p4);
    var p2 := PutFixed(8, s.level, p3);
    FixedRead(8, s.profile, PutFixed(8, s.constraints, p2));
    FixedRead(8, s.constraints, p2);
    FixedRead(8, s.level, p3);
    UeRead(s.id, p4);
    HighRead(s.high, p5);
    UeRead(s.frameNum, p6);
    OrderRead(s.order, p7);
    PictureRead(s.picture, p8);
  }

  // ---- The unit that carries the set ----

  /** The timing a parameter set announces, as the RTP clock needs it. */
  function Announced(s: Set): Option<nat> {
    if s.usability.None? then None else s.usability.value.Ticks()
  }

  lemma SetTicks(s: Set, rest: bits)
    requires s.Good() && (s.usability.Some? ==> s.usability.value.signal.None?)
    ensures ReadSps(s.Put(rest)).Got? && ReadSps(s.Put(rest)).value == Announced(s)
  {
    SetRead(s, rest);
    match s.usability
    case None => FixedRead(1, 0, rest);
    case Some(u) => UsabilityRead(u, rest);
  }

  /** The parser finds the timing of every parameter set without a video signal section, behind
      emulation prevention and in front of any trailing bits that fill the last byte. */
  lemma TicksReadBack(header: byte, s: Set, rest: bits)
    requires header % 32 == 7 && |s.Put(rest)| % 8 == 0
    requires s.Good() && (s.usability.Some? ==> s.usability.value.signal.None?)
    ensures FrameTicks(EscapedUnit(header, Pack(s.Put(rest)))) == Announced(s)
  {
    EscapedUnitPayload(header, Pack(s.Put(rest)));
    BitsOfPack(s.Put(rest));
    SetTicks(s, rest);
  }

  /** For every parameter set with a video signal section the parser returns what it finds where it
      went astray, so it is right if and only if that happens to be the timing announced. */
  lemma SignalMisread(header: byte, s: Set, rest: bits)
    requires header % 32 == 7 && |s.Put(rest)| % 8 == 0
    requires s.Good() && s.usability.Some? && s.usability.value.signal.Some?
    ensures FrameTicks(EscapedUnit(header, Pack(s.Put(rest)))) == Found(Astray(s.usability.value, rest))
  {
    EscapedUnitPayload(header, Pack(s.Put(rest)));
    BitsOfPack(s.Put(rest));
    SetRead(s, rest);
    UsabilityAstray(s.usability.value, rest);
  }

  /** In two exact classes of signal sections, without a chroma location, the timing is never found:
      the parser is right if and only if no usable timing was announced. */
  lemma SignalHidesTiming(header: byte, s: Set, rest: bits)
    requires header % 32 == 7 && |s.Put(rest)| % 8 == 0
    requires s.Good() && s.usability.Some? && s.usability.value.signal.Some?
    requires OneBitShort(s.usability.value.signal.value) && s.usability.value.chroma.None?
    ensures FrameTicks(EscapedUnit(header, Pack(s.Put(rest)))) == None
    ensures FrameTicks(EscapedUnit(header, Pack(s.Put(rest)))) == Announced(s) <==> Announced(s) == None
  {
    SignalMisread(header, s, rest);
    NothingFound(s.usability.value, rest);
  }

  /** The tick count is the duration of two field ticks on the 90 kHz clock, to the nearest; there is
      none without a fixed rate, without a clock, or outside one tick to ten seconds. */
  lemma TicksRounded(units: nat, scale: nat, fixed: nat)
    ensures var exact := 180_000 * units;
            match TicksOf(units, scale, fixed)
            case Some(ticks) =>
              && units > 0 && scale > 0 && fixed != 0
              && 0 - scale <= 2 * (ticks * scale - exact) <= scale && 1 <= ticks <= 900_000
            case None =>
              fixed == 0 || units == 0 || scale == 0 || 2 * exact < scale || 2 * exact >= 1_800_001 * scale
  {
    if units > 0 && scale > 0 && fixed != 0 {
      RoundedTicks(units, scale, fixed);
    }
  }

  lemma RoundedTicks(units: nat, scale: nat, fixed: nat)
    requires units > 0 && scale > 0 && fixed != 0
    ensures var exact := 180_000 * units;
            match TicksOf(units, scale, fixed)
            case Some(ticks) => 0 - scale <= 2 * (ticks * scale - exact) <= scale && 1 <= ticks <= 900_000
            case None => 2 * exact < scale || 2 * exact >= 1_800_001 * scale
  {
    var sum := 180_000 * units + scale / 2;
    var ticks := sum / scale;
    Quotient(sum, scale);
    if ticks > 900_000 {
      Times(900_001, ticks, scale);
    }
  }

  lemma Quotient(sum: nat, scale: nat)
    requires scale > 0
    ensures sum / scale * scale <= sum < sum / scale * scale + scale
  {
  }

  lemma Times(a: nat, b: nat, c: nat)
    requires a <= b
    ensures a * c <= b * c
  {
  }

  // ---- The parser as it is written, on the reader object ----

  /** The outcome of reading from `before`, seen on the reader object afterwards. */
  ghost predicate Agrees<T>(spec: Read<T>, result: Option<T>, left: bits) {
    match spec
    case Bad => result.None?
    case Got(value, rest) => result == Some(value) && left == rest
  }

  method ScalingList(reader: BitReader, size: nat) returns (result: Option<()>)
    requires reader.Valid()
    modifies reader
    ensures reader.Valid()
    ensures Agrees(ReadScaling(old(reader.Left()), size, 8, 8), result, reader.Left())
  {
    var last, next := 8, 8;
    for i := 0 to size
      invariant reader.Valid()
      invariant ReadScaling(reader.Left(), size - i, last, next) == ReadScaling(old(reader.Left()), size, 8, 8)
    {
      if next != 0 {
        var delta :- reader.ReadSe();
        next := (last + delta) % 256;
      }
      last := if next != 0 then next else last;
    }
    return Some(());
  }

  method ScalingMatrix(reader: BitReader, chroma: nat) returns (result: Option<()>)
    requires reader.Valid()
    modifies reader
    ensures reader.Valid()
    ensures Agrees(ReadMatrix(old(reader.Left()), chroma), result, reader.Left())
  {
    var scaling :- reader.Read(1);
    if scaling != 0 {
      for index := 0 to Lists(chroma)
        invariant reader.Valid()
        invariant ReadLists(reader.Left(), index, Lists(chroma)) == ReadMatrix(old(reader.Left()), chroma)
      {
        var present :- reader.Read(1);
        if present != 0 {
          var _ :- ScalingList(reader, ScalingSize(index));
        }
      }
    }
    return Some(());
  }

  method HighFields(reader: BitReader) returns (result: Option<()>)
    requires reader.Valid()
    modifies reader
    ensures reader.Valid()
    ensures Agrees(ReadHigh(old(reader.Left())), result, reader.Left())
  {
    var chroma :- reader.ReadUe();
    if chroma == 3 {
      var _ :- reader.Read(1);
    }
    var _ :- reader.ReadUe();
    var _ :- reader.ReadUe();
    var _ :- reader.Read(1);
    result := ScalingMatrix(reader, chroma);
  }

  method OrderFields(reader: BitReader) returns (result: Option<()>)
    requires reader.Valid()
    modifies reader
    ensures reader.Valid()
    ensures Agrees(ReadOrder(old(reader.Left())), result, reader.Left())
  {
    var kind :- reader.ReadUe();
    if kind == 0 {
      var _ :- reader.ReadUe();
    } else if kind == 1 {
      var _ :- reader.Read(1);
      var _ :- reader.ReadSe();
      var _ :- reader.ReadSe();
      var count :- reader.ReadUe();
      ghost var start := reader.Left();
      for i := 0 to count
        invariant reader.Valid() && ReadOffsets(reader.Left(), count - i) == ReadOffsets(start, count)
      {
        var _ :- reader.ReadSe();
      }
    }
    return Some(());
  }

  method PictureFields(reader: BitReader) returns (result: Option<()>)
    requires reader.Valid()
    modifies reader
    ensures reader.Valid()
    ensures Agrees(ReadPicture(old(reader.Left())), result, reader.Left())
  {
    var _ :- reader.ReadUe();
    var _ :- reader.Read(1);
    var _ :- reader.ReadUe();
    var _ :- reader.ReadUe();
    var framesOnly :- reader.Read(1);
    if framesOnly == 0 {
      var _ :- reader.Read(1);
    }
    var _ :- reader.Read(1);
    result := CropFields(reader);
  }

  method CropFields(reader: BitReader) returns (result: Option<()>)
    requires reader.Valid()
    modifies reader
    ensures reader.Valid()
    ensures Agrees(ReadCrop(old(reader.Left())), result, reader.Left())
  {
    var present :- reader.Read(1);
    if present != 0 {
      var _ :- reader.ReadUe();
      var _ :- reader.ReadUe();
      var _ :- reader.ReadUe();
      var _ :- reader.ReadUe();
    }
    return Some(());
  }

  method AspectFields(reader: BitReader) returns (result: Option<()>)
    requires reader.Valid()
    modifies reader
    ensures reader.Valid()
    ensures Agrees(ReadAspect(old(reader.Left())), result, reader.Left())
  {
    var present :- reader.Read(1);
    if present != 0 {
      var idc :- reader.Read(8);
      if idc == 255 {
        var _ :- reader.Read(32);
      }
    }
    return Some(());
  }

  method OverscanFields(reader: BitReader) returns (result: Option<()>)
    requires reader.Valid()
    modifies reader
    ensures reader.Valid()
    ensures Agrees(ReadOverscan(old(reader.Left())), result, reader.Left())
  {
    var present :- reader.Read(1);
    if present != 0 {
      var _ :- reader.Read(1);
    }
    return Some(());
  }

  method SignalFields(reader: BitReader) returns (result: Option<()>)
    requires reader.Valid()
    modifies reader
    ensures reader.Valid()
    ensures Agrees(ReadSignal(old(reader.Left())), result, reader.Left())
  {
    var present :- reader.Read(1);
    if present != 0 {
      var _ :- reader.Read(3);
      var colour :- reader.Read(1);
      if colour != 0 {
        var _ :- reader.Read(24);
      }
    }
    return Some(());
  }

  method ChromaFields(reader: BitReader) returns (result: Option<()>)
    requires reader.Valid()
    modifies reader
    ensures reader.Valid()
    ensures Agrees(ReadChroma(old(reader.Left())), result, reader.Left())
  {
    var present :- reader.Read(1);
    if present != 0 {
      var _ :- reader.ReadUe();
      var _ :- reader.ReadUe();
    }
    return Some(());
  }

  method TimingFields(reader: BitReader) returns (result: Option<nat>)
    requires reader.Valid()
    modifies reader
    ensures reader.Valid()
    ensures result == Found(ReadTiming(old(reader.Left())))
  {
    var present :- reader.Read(1);
    if present == 0 {
      return None;
    }
    var units :- reader.Read(32);
    var scale :- reader.Read(32);
    var fixed :- reader.Read(1);
    return TicksOf(units, scale, fixed);
  }

  method UsabilityFields(reader: BitReader) returns (result: Option<nat>)
    requires reader.Valid()
    modifies reader
    ensures reader.Valid()
    ensures result == Found(ReadUsability(old(reader.Left())))
  {
    var present :- reader.Read(1);
    if present == 0 {
      return None;
    }
    var _ :- AspectFields(reader);
    var _ :- OverscanFields(reader);
    var _ :- SignalFields(reader);
    var _ :- ChromaFields(reader);
    result := TimingFields(reader);
  }

  method HeadFields(reader: BitReader) returns (result: Option<()>)
    requires reader.Valid()
    modifies reader
    ensures reader.Valid()
    ensures Agrees(ReadHead(old(reader.Left())), result, reader.Left())
  {
    var profile :- reader.Read(8);
    var _ :- reader.Read(8);
    var _ :- reader.Read(8);
    var _ :- reader.ReadUe();
    if profile in HIGH_PROFILES {
      var _ :- HighFields(reader);
    }
    return Some(());
  }

  method BodyFields(reader: BitReader) returns (result: Option<()>)
    requires reader.Valid()
    modifies reader
    ensures reader.Valid()
    ensures Agrees(ReadBody(old(reader.Left())), result, reader.Left())
  {
    var _ :- reader.ReadUe();
    var _ :- OrderFields(reader);
    result := PictureFields(reader);
  }

  /** `_frame_ticks_from_sps`. */
  method FrameTicksFromSps(nal: bytes) returns (result: Option<nat>)
    ensures result == FrameTicks(nal)
  {
    var payload: bytes := [];
    if nal != [] && nal[0] % 32 == 7 {
      payload := NalRbsp(nal);
    }
    var reader := new BitReader(payload);
    assert reader.Left() == BitsOf(payload);
    var _ :- HeadFields(reader);
    var _ :- BodyFields(reader);
    result := UsabilityFields(reader);
  }

  // ---- The first field of a slice ----

  /** Whether a slice starts a picture; nothing when the unit is no slice or does not parse. */
  function StartsPicture(nal: bytes): Option<bool> {
    if nal == [] || nal[0] % 32 !in {1, 5} then None
    else
      match Ue(BitsOf(Rbsp(nal)))
      case Bad => None
      case Got(first, _) => Some(first == 0)
  }

  /** `_vcl_starts_new_picture`. */
  method VclStartsNewPicture(nal: bytes) returns (result: Option<bool>)
    ensures result == StartsPicture(nal)
  {
    if nal == [] || nal[0] % 32 !in {1, 5} {
      return None;
    }
    var payload := NalRbsp(nal);
    var reader := new BitReader(payload);
    var first :- reader.ReadUe();
    return Some(first == 0);
  }

  /** A slice unit tells its first macroblock whatever bits follow it. */
  lemma SliceReadBack(header: byte, first: nat, rest: bits)
    requires header % 32 in {1, 5} && InUe(first) && |PutUe(first, rest)| % 8 == 0
    ensures StartsPicture(EscapedUnit(header, Pack(PutUe(first, rest)))) == Some(first == 0)
  {
    EscapedUnitPayload(header, Pack(PutUe(first, rest)));
    BitsOfPack(PutUe(first, rest));
    UeRead(first, rest);
  }
}