/** Grouping units into access units, so that every packet of a picture shares a timestamp. */
module AccessUnits {
  import opened Bytes
  import opened AnnexB
  import Bits
  import Sps

  type accessUnit = seq<nal>

  /** A coded slice: a unit of type 1 or 5. */
  predicate Slice(n: nal) {
    Kind(n) in {1, 5}
  }

  /** A unit that ends the picture before it: a delimiter, a parameter set, or a slice that does
      not parse as the continuation of a picture. */
  predicate Boundary(n: nal) {
    Kind(n) in {7, 8, 9} || (Slice(n) && Sps.StartsPicture(n) != Some(false))
  }

  /** Boundaries by their first byte, and slices by the first number of their header: one that begins a
      picture, or cannot be read, is a boundary, one that continues a picture is not. */
  lemma BoundaryIff(n: nal)
    ensures Boundary(n) <==>
              n != []
              && (|| n[0] % 32 == 7 || n[0] % 32 == 8 || n[0] % 32 == 9
                  || ((n[0] % 32 == 1 || n[0] % 32 == 5)
                      && match Bits.Ue(Bits.BitsOf(Bits.Rbsp(n)))
                         case Bad => true
                         case Got(first, _) => first == 0))
    ensures Slice(n) <==> n != [] && (n[0] % 32 == 1 || n[0] % 32 == 5)
  {
  }

  /** A slice that was written with its first macroblock is a boundary exactly when that is 0. */
  lemma SliceBoundary(header: byte, first: nat, rest: Bits.bits)
    requires header % 32 in {1, 5} && Sps.InUe(first) && |Bits.PutUe(first, rest)| % 8 == 0
    ensures var n := Bits.EscapedUnit(header, Bits.Pack(Bits.PutUe(first, rest)));
            Slice(n) && (Boundary(n) <==> first == 0)
  {
    Sps.SliceReadBack(header, first, rest);
  }

  predicate HasSlice(us: accessUnit) {
    exists k :: 0 <= k < |us| && Slice(us[k])
  }

  /** Nothing behind the first slice may start another access unit. */
  predicate Whole(us: accessUnit) {
    forall j, k :: 0 <= j < k < |us| && Slice(us[j]) ==> !Boundary(us[k])
  }

  datatype Assembly = Assembly(units: accessUnit, hasVcl: bool) {
    ghost predicate Good() {
      Whole(units) && (hasVcl <==> HasSlice(units))
    }
  }

  /** The access units that a new unit completes, and what is held afterwards. */
  function Pushed(a: Assembly, n: nal): (seq<accessUnit>, Assembly) {
    if a.hasVcl && Boundary(n) then ([a.units], Assembly([n], Slice(n)))
    else ([], Assembly(a.units + [n], a.hasVcl || Slice(n)))
  }

  function Flushed(a: Assembly): (seq<accessUnit>, Assembly) {
    if a.hasVcl then ([a.units], Assembly([], false)) else ([], a)
  }

  /** One push keeps the state good, loses nothing and reorders nothing; what it emits holds a
      slice and is whole, and what it keeps then begins with the boundary. */
  lemma PushKeeps(a: Assembly, n: nal)
    requires a.Good()
    ensures Pushed(a, n).1.Good()
    ensures Concat(Pushed(a, n).0) + Pushed(a, n).1.units == a.units + [n]
    ensures Pushed(a, n).0 != [] ==> Pushed(a, n).0 == [a.units] && HasSlice(a.units) && Whole(a.units) && Boundary(n) && Pushed(a, n).1.units == [n]
  {
    var b := Pushed(a, n).1;
    if a.hasVcl && Boundary(n) {
      assert Concat([a.units]) == a.units + Concat([a.units][1..]);
      assert Slice(n) ==> Slice(b.units[0]);
    } else {
      assert a.hasVcl ==> !Boundary(n);
      SliceAdded(a.units, n);
      WholeAdded(a.units, n);
    }
  }

  lemma SliceAdded(us: accessUnit, n: nal)
    ensures HasSlice(us + [n]) <==> HasSlice(us) || Slice(n)
  {
    var all := us + [n];
    assert all[|us|] == n;
    if HasSlice(us) {
      var k :| 0 <= k < |us| && Slice(us[k]);
      assert Slice(all[k]);
    }
    if HasSlice(all) {
      var k :| 0 <= k < |all| && Slice(all[k]);
      assert k < |us| ==> Slice(us[k]);
    }
  }

  lemma WholeAdded(us: accessUnit, n: nal)
    requires Whole(us) && (HasSlice(us) ==> !Boundary(n))
    ensures Whole(us + [n])
  {
    var all := us + [n];
    forall j, k | 0 <= j < k < |all| && Slice(all[j])
      ensures !Boundary(all[k])
    {
      assert Slice(us[j]);
      if k == |us| {
        assert HasSlice(us);
      }
    }
  }

  // ---- Runs ----

  /** Everything that was emitted, and what is held, after a run of pushes. */
  function Assemble(a: Assembly, ns: seq<nal>): (seq<accessUnit>, Assembly)
    decreases |ns|
  {
    if ns == [] then ([], a)
    else
      var (ready, next) := Pushed(a, ns[0]);
      var (later, last) := Assemble(next, ns[1..]);
      (ready + later, last)
  }

  const EMPTY := Assembly([], false)

  function First(groups: seq<accessUnit>, rest: accessUnit): accessUnit {
    if groups == [] then rest else groups[0]
  }

  /** Each group holds a slice and is whole, and each next one, or the rest, begins at a boundary. */
  ghost predicate Cuts(groups: seq<accessUnit>, rest: accessUnit)
    decreases |groups|
  {
    groups == [] ||
    (&& HasSlice(groups[0]) && Whole(groups[0])
     && First(groups[1..], rest) != [] && Boundary(First(groups[1..], rest)[0])
     && Cuts(groups[1..], rest))
  }

  /** Nothing is lost or reordered. */
  lemma {:induction false} AssembleKeeps(a: Assembly, ns: seq<nal>)
    requires a.Good()
    ensures Assemble(a, ns).1.Good()
    ensures Concat(Assemble(a, ns).0) + Assemble(a, ns).1.units == a.units + ns
    decreases |ns|
  {
    if ns == [] {
      assert a.units + ns == a.units;
    } else {
      var (ready, next) := Pushed(a, ns[0]);
      var (later, last) := Assemble(next, ns[1..]);
      PushKeeps(a, ns[0]);
      AssembleKeeps(next, ns[1..]);
      ConcatAppend(ready, later);
      KeptTogether(Concat(ready), Concat(later), last.units, next.units, ns[1..]);
      assert a.units + ns == a.units + [ns[0]] + ns[1..];
    }
  }

  lemma KeptTogether(ready: accessUnit, later: accessUnit, last: accessUnit, next: accessUnit, rest: seq<nal>)
    requires later + last == next + rest
    ensures ready + later + last == ready + next + rest
  {
    assert ready + later + last == ready + (later + last);
    assert ready + next + rest == ready + (next + rest);
  }

  lemma {:induction false} AssembleBegins(a: Assembly, ns: seq<nal>)
    requires a.Good() && a.units != []
    ensures var first := First(Assemble(a, ns).0, Assemble(a, ns).1.units);
            first != [] && first[0] == a.units[0]
    decreases |ns|
  {
    if ns != [] {
      var (ready, next) := Pushed(a, ns[0]);
      PushKeeps(a, ns[0]);
      if ready == [] {
        AssembleBegins(next, ns[1..]);
        assert [] + Assemble(next, ns[1..]).0 == Assemble(next, ns[1..]).0;
      }
    }
  }

  /** The groups are cut exactly at the boundaries that follow a slice. */
  lemma {:induction false} AssembleCuts(a: Assembly, ns: seq<nal>)
    requires a.Good()
    ensures Cuts(Assemble(a, ns).0, Assemble(a, ns).1.units)
    decreases |ns|
  {
    if ns != [] {
      var (ready, next) := Pushed(a, ns[0]);
      var (later, last) := Assemble(next, ns[1..]);
      PushKeeps(a, ns[0]);
      AssembleCuts(next, ns[1..]);
      if ready == [] {
        assert [] + later == later;
      } else {
        AssembleBegins(next, ns[1..]);
        assert (ready + later)[1..] == later;
      }
    }
  }

  /** What the flush leaves over holds no slice; together with it nothing is lost. */
  lemma FlushKeeps(a: Assembly)
    requires a.Good()
    ensures var (ready, last) := Flushed(a);
            && Concat(ready) + last.units == a.units
            && last.Good() && !HasSlice(last.units)
            && (ready != [] ==> ready == [a.units] && HasSlice(a.units) && Whole(a.units))
  {
    assert Concat([a.units]) == a.units + Concat([a.units][1..]);
  }

  lemma {:induction false} AssembleAppend(a: Assembly, x: seq<nal>, y: seq<nal>)
    ensures var (first, middle) := Assemble(a, x);
            Assemble(a, x + y) == (first + Assemble(middle, y).0, Assemble(middle, y).1)
    decreases |x|
  {
    if x == [] {
      assert x + y == y && [] + Assemble(a, y).0 == Assemble(a, y).0;
    } else {
      var (ready, next) := Pushed(a, x[0]);
      assert (x + y)[1..] == x[1..] + y;
      AssembleAppend(next, x[1..], y);
      var (first, middle) := Assemble(next, x[1..]);
      assert ready + (first + Assemble(middle, y).0) == ready + first + Assemble(middle, y).0;
    }
  }

  lemma FirstOfRest(groups: seq<accessUnit>, rest: accessUnit)
    requires First(groups, rest) != []
    ensures Concat(groups) + rest != [] && (Concat(groups) + rest)[0] == First(groups, rest)[0]
  {
  }

  lemma BoundaryInside(all: accessUnit, front: accessUnit)
    requires HasSlice(front) && |front| < |all| && all[..|front|] == front && Boundary(all[|front|])
    ensures !Whole(all)
  {
    var k :| 0 <= k < |front| && Slice(front[k]);
    assert Slice(all[k]);
  }

  lemma LongerNotWhole(front: accessUnit, other: accessUnit, tail: accessUnit)
    requires HasSlice(front) && |front| < |other|
    requires (other + tail)[..|front|] == front && Boundary((other + tail)[|front|])
    ensures !Whole(other)
  {
    assert other[..|front|] == (other + tail)[..|front|];
    BoundaryInside(other, front);
  }

  lemma ConcatFirst(groups: seq<accessUnit>, rest: accessUnit)
    requires groups != []
    ensures Concat(groups) + rest == groups[0] + (Concat(groups[1..]) + rest)
  {
  }

  /** Where the first group of a stream ends: no whole group can be longer. */
  lemma FirstGroupEnds(groups: seq<accessUnit>, rest: accessUnit, other: accessUnit, tail: accessUnit)
    requires groups != [] && Cuts(groups, rest) && Whole(other)
    requires Concat(groups) + rest == other + tail
    ensures |other| <= |groups[0]|
  {
    var all, front := other + tail, groups[0];
    ConcatFirst(groups, rest);
    FirstOfRest(groups[1..], rest);
    assert all[..|front|] == front && Boundary(all[|front|]);
    if |other| > |front| {
      LongerNotWhole(front, other, tail);
    }
  }

  /** There is one such partition only: two groupings of the same units into whole groups with
      slices, cut at boundaries, with a whole rest behind them, are the same. */
  lemma {:induction false} CutsUnique(g1: seq<accessUnit>, r1: accessUnit, g2: seq<accessUnit>, r2: accessUnit)
    requires Cuts(g1, r1) && Cuts(g2, r2) && Whole(r1) && Whole(r2)
    requires Concat(g1) + r1 == Concat(g2) + r2
    ensures g1 == g2 && r1 == r2
    decreases |g1|
  {
    if g1 != [] && g2 != [] {
      var t1, t2 := Concat(g1[1..]) + r1, Concat(g2[1..]) + r2;
      ConcatFirst(g1, r1);
      ConcatFirst(g2, r2);
      FirstGroupEnds(g1, r1, g2[0], t2);
      FirstGroupEnds(g2, r2, g1[0], t1);
      SameSplit(g1[0], t1, g2[0], t2);
      CutsUnique(g1[1..], r1, g2[1..], r2);
      assert g1 == [g1[0]] + g1[1..] && g2 == [g2[0]] + g2[1..];
    } else {
      NoGroupsLeft(g1, r1, g2, r2);
    }
  }

  lemma SameSplit(x: accessUnit, tx: accessUnit, y: accessUnit, ty: accessUnit)
    requires x + tx == y + ty && |x| == |y|
    ensures x == y && tx == ty
  {
    assert x == (x + tx)[..|x|] && y == (y + ty)[..|y|];
    assert tx == (x + tx)[|x|..] && ty == (y + ty)[|y|..];
  }

  lemma NoGroupsLeft(g1: seq<accessUnit>, r1: accessUnit, g2: seq<accessUnit>, r2: accessUnit)
    requires g1 == [] || g2 == []
    requires Cuts(g1, r1) && Cuts(g2, r2) && Whole(r1) && Whole(r2)
    requires Concat(g1) + r1 == Concat(g2) + r2
    ensures g1 == g2 && r1 == r2
  {
    if g1 != [] {
      RestNotWhole(g1, r1, r2);
    } else if g2 != [] {
      RestNotWhole(g2, r2, r1);
    } else {
      assert [] + r1 == r1 && [] + r2 == r2;
    }
  }

  lemma RestNotWhole(groups: seq<accessUnit>, rest: accessUnit, all: accessUnit)
    requires groups != [] && Cuts(groups, rest)
    requires Concat(groups) + rest == [] + all
    ensures !Whole(all)
  {
    assert [] + all == all;
    ConcatFirst(groups, rest);
    FirstOfRest(groups[1..], rest);
    BoundaryInside(all, groups[0]);
  }

  // ---- The assembler object ----

  /** `_AccessUnitAssembler`. */
  class Assembler {
    var units: accessUnit
    var hasVcl: bool

    ghost function View(): Assembly
      reads this
    {
      Assembly(units, hasVcl)
    }

    constructor ()
      ensures View() == EMPTY
    {
      units := [];
      hasVcl := false;
    }

    method Push(n: nal) returns (ready: seq<accessUnit>)
      requires View().Good()
      modifies this
      ensures View().Good()
      ensures (ready, View()) == Pushed(old(View()), n)
    {
      PushKeeps(View(), n);
      assert [] + [n] == [n];
      var kind := Kind(n);
      ready := [];
      if kind == 9 {
        if units != [] && hasVcl {
          ready := [units];
          units := [];
        }
        units := units + [n];
        hasVcl := false;
        return;
      }
      if kind in {1, 5} {
        var startsPicture := Sps.VclStartsNewPicture(n);
        if hasVcl && startsPicture != Some(false) {
          ready := [units];
          units := [];
        }
        hasVcl := true;
      } else if kind in {7, 8} && hasVcl {
        ready := [units];
        units := [];
        hasVcl := false;
      }
      units := units + [n];
    }

    method Flush() returns (ready: seq<accessUnit>)
      requires View().Good()
      modifies this
      ensures View().Good()
      ensures (ready, View()) == Flushed(old(View()))
    {
      if units != [] && hasVcl {
        ready := [units];
        units := [];
        hasVcl := false;
      } else {
        ready := [];
      }
    }
  }
}
