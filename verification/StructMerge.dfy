/**
  Merging and diffing of updates without integrating them.  For one client an update is a
  list of structs; a struct stands for its units, each at its own clock.  Merging is the
  union of units, diffing their restriction to the clocks a peer is missing.
*/
module StructMerge {
  import opened Base

  /**
    Values of consecutive clocks; the first has the origin, each other one its predecessor.
    A struct with an origin or a right origin may leave its parent out.
  */
  datatype Struct = Struct(
    clock: nat, values: seq<string>, origin: Option<Id>, right: Option<Id>,
    parent: Option<Parent>, sub: Option<string>)

  datatype Unit = Unit(value: string, origin: Option<Id>, right: Option<Id>)

  function End(s: Struct): nat {
    s.clock + |s.values|
  }

  predicate Covers(s: Struct, c: nat) {
    s.clock <= c < End(s)
  }

  function UnitAt(client: nat, s: Struct, c: nat): Unit
    requires Covers(s, c)
  {
    Unit(s.values[c - s.clock], if c == s.clock then s.origin else Some(Id(client, c - 1)), s.right)
  }

  predicate Has(client: nat, s: Struct, c: nat, u: Unit) {
    Covers(s, c) && UnitAt(client, s, c) == u
  }

  /** The update carries unit `u` at clock `c`. */
  predicate Holds(client: nat, list: seq<Struct>, c: nat, u: Unit) {
    exists k :: 0 <= k < |list| && Has(client, list[k], c, u)
  }

  predicate Covered(list: seq<Struct>, c: nat) {
    exists k :: 0 <= k < |list| && Covers(list[k], c)
  }

  /** Two structs that cover one clock agree on its unit. */
  ghost predicate Consistent(client: nat, list: seq<Struct>) {
    forall c, u, v :: Holds(client, list, c, u) && Holds(client, list, c, v) ==> u == v
  }

  /** The same units at the same clocks. */
  ghost predicate Same(client: nat, x: seq<Struct>, y: seq<Struct>) {
    forall c, u {:trigger Holds(client, x, c, u)} {:trigger Holds(client, y, c, u)} ::
      Holds(client, x, c, u) == Holds(client, y, c, u)
  }

  lemma HoldsConcat(client: nat, x: seq<Struct>, y: seq<Struct>, c: nat, u: Unit)
    ensures Holds(client, x + y, c, u) <==> Holds(client, x, c, u) || Holds(client, y, c, u)
  {
    var s := x + y;
    if Holds(client, s, c, u) {
      var k :| 0 <= k < |s| && Has(client, s[k], c, u);
      assert k < |x| ==> s[k] == x[k];
      assert k >= |x| ==> s[k] == y[k - |x|];
    }
    if Holds(client, x, c, u) {
      var k :| 0 <= k < |x| && Has(client, x[k], c, u);
      assert s[k] == x[k];
    }
    if Holds(client, y, c, u) {
      var k :| 0 <= k < |y| && Has(client, y[k], c, u);
      assert s[k + |x|] == y[k];
    }
  }

  lemma HoldsOne(client: nat, s: Struct, c: nat, u: Unit)
    ensures Holds(client, [s], c, u) <==> Has(client, s, c, u)
  {
    assert Has(client, s, c, u) ==> Has(client, [s][0], c, u);
  }

  lemma HoldsCovered(client: nat, list: seq<Struct>, c: nat)
    ensures Covered(list, c) <==> exists u :: Holds(client, list, c, u)
  {
    if Covered(list, c) {
      var k :| 0 <= k < |list| && Covers(list[k], c);
      assert Has(client, list[k], c, UnitAt(client, list[k], c));
      assert Holds(client, list, c, UnitAt(client, list[k], c));
    }
    if u :| Holds(client, list, c, u) {
      var k :| 0 <= k < |list| && Has(client, list[k], c, u);
      assert Covers(list[k], c);
    }
  }

  // --------------------------------------------------------------------- slicing

  /** The struct without its first `n` units. */
  function Slice(client: nat, s: Struct, n: nat): Struct
    requires n <= |s.values|
  {
    if n == 0 then s
    else s.(clock := s.clock + n, values := s.values[n..], origin := Some(Id(client, s.clock + n - 1)))
  }

  /** A slice has the units from its clock on, unchanged. */
  lemma SliceHas(client: nat, s: Struct, n: nat, c: nat, u: Unit)
    requires n <= |s.values|
    ensures Has(client, Slice(client, s, n), c, u) <==> Has(client, s, c, u) && c >= s.clock + n
  {
  }

  predicate Anchored(s: Struct) {
    s.origin.Some? || s.parent.Some?
  }

  /** Slicing before the parents are known: a struct with neither origin nor parent gets no origin. */
  function SliceFront(client: nat, s: Struct, n: nat): Struct
    requires n <= |s.values|
  {
    if n == 0 || Anchored(s) then Slice(client, s, n) else Slice(client, s, n).(origin := None)
  }

  /** It loses the order of the units exactly of a struct that has a right origin and nothing else. */
  lemma SliceFrontLoses(client: nat, s: Struct, n: nat)
    requires n < |s.values|
    ensures Has(client, SliceFront(client, s, n), s.clock + n, UnitAt(client, s, s.clock + n)) <==>
              n == 0 || Anchored(s)
  {
  }

  // ---------------------------------------------------------------- deduplication

  predicate NonEmpty(list: seq<Struct>) {
    forall k :: 0 <= k < |list| ==> |list[k].values| > 0
  }

  predicate ByClock(list: seq<Struct>) {
    forall i, j :: 0 <= i < j < |list| ==> list[i].clock <= list[j].clock
  }

  /** Ascending, and no two structs overlap. */
  predicate Disjoint(list: seq<Struct>) {
    forall i, j :: 0 <= i < j < |list| ==> End(list[i]) <= list[j].clock
  }

  /** By clock, the longer one first. */
  predicate Before(s: Struct, t: Struct) {
    s.clock < t.clock || (s.clock == t.clock && |s.values| >= |t.values|)
  }

  function Insert(s: Struct, list: seq<Struct>): seq<Struct> {
    if list == [] || Before(s, list[0]) then [s] + list else [list[0]] + Insert(s, list[1..])
  }

  /** Sorted by clock, and the longer one first. */
  predicate InOrder(list: seq<Struct>) {
    forall i, j :: 0 <= i < j < |list| ==> Before(list[i], list[j])
  }

  lemma {:induction false} InsertElems(s: Struct, list: seq<Struct>)
    ensures forall x :: x in Insert(s, list) <==> x == s || x in list
  {
    if list != [] && !Before(s, list[0]) {
      InsertElems(s, list[1..]);
      assert list == [list[0]] + list[1..];
    }
  }

  lemma {:induction false} InsertOk(s: Struct, list: seq<Struct>)
    requires InOrder(list)
    ensures InOrder(Insert(s, list))
  {
    if list == [] || Before(s, list[0]) {
      var r := [s] + list;
      forall i, j | 0 <= i < j < |r|
        ensures Before(r[i], r[j])
      {
        if i == 0 && j > 1 { assert Before(list[0], list[j - 1]); }
        if i > 0 { assert Before(list[i - 1], list[j - 1]); }
      }
    } else {
      var h, t := list[0], list[1..];
      var rest := Insert(s, t);
      InsertOk(s, t);
      InsertElems(s, t);
      var r := [h] + rest;
      forall i, j | 0 <= i < j < |r|
        ensures Before(r[i], r[j])
      {
        if i > 0 {
          assert Before(rest[i - 1], rest[j - 1]);
        } else {
          assert r[j] in rest;
          if r[j] in t {
            var k :| 0 <= k < |t| && t[k] == r[j];
            assert Before(list[0], list[k + 1]);
          }
        }
      }
    }
  }

  lemma {:induction false} InsertSame(client: nat, s: Struct, list: seq<Struct>)
    ensures Same(client, [s] + list, Insert(s, list))
  {
    if list != [] && !Before(s, list[0]) {
      var h, t := list[0], list[1..];
      var rest := Insert(s, t);
      InsertSame(client, s, t);
      assert list == [h] + t;
      forall c, u
        ensures Holds(client, [s] + list, c, u) == Holds(client, [h] + rest, c, u)
      {
        hide Holds;
        HoldsConcat(client, [s], list, c, u);
        HoldsConcat(client, [h], t, c, u);
        HoldsConcat(client, [h], rest, c, u);
        HoldsConcat(client, [s], t, c, u);
        assert Holds(client, [s] + t, c, u) == Holds(client, rest, c, u);
      }
    }
  }

  method Sort(client: nat, list: seq<Struct>) returns (r: seq<Struct>)
    requires NonEmpty(list)
    ensures InOrder(r) && Same(client, list, r) && forall x :: x in r <==> x in list
  {
    r := [];
    var i := |list|;
    assert list[i..] == [];
    while i > 0
      invariant 0 <= i <= |list| && InOrder(r) && Same(client, list[i..], r) && forall x :: x in r <==> x in list[i..]
    {
      i := i - 1;
      InsertOk(list[i], r);
      InsertSame(client, list[i], r);
      InsertElems(list[i], r);
      assert list[i..] == [list[i]] + list[i + 1..];
      hide InOrder, Same, Insert;
      SamePush(client, list[i], list[i + 1..], r, Insert(list[i], r));
      r := Insert(list[i], r);
    }
    assert list[0..] == list;
  }

  lemma SamePush(client: nat, s: Struct, x: seq<Struct>, y: seq<Struct>, z: seq<Struct>)
    requires Same(client, x, y) && Same(client, [s] + y, z)
    ensures Same(client, [s] + x, z)
  {
    hide Holds;
    forall c, u
      ensures Holds(client, [s] + x, c, u) == Holds(client, z, c, u)
    {
      HoldsConcat(client, [s], x, c, u);
      HoldsConcat(client, [s], y, c, u);
      assert Holds(client, x, c, u) == Holds(client, y, c, u);
      assert Holds(client, [s] + y, c, u) == Holds(client, z, c, u);
    }
  }

  /** Everything from `from` up to `end` is covered. */
  predicate Filled(list: seq<Struct>, from: nat, end: nat) {
    forall c: nat {:trigger Covered(list, c)} :: from <= c < end ==> Covered(list, c)
  }

  /**
    Sorts the structs and drops or slices what an earlier one covers: the result is
    ascending without overlaps and carries exactly the units of the input.
  */
  method Dedup(client: nat, list: seq<Struct>) returns (out: seq<Struct>)
    requires NonEmpty(list) && Consistent(client, list)
    ensures Disjoint(out) && NonEmpty(out) && Same(client, list, out)
    ensures forall k :: 0 <= k < |out| ==> SomeSlice(client, list, out[k])
  {
    var s := Sort(client, list);
    SortedOk(list, s);
    out := [];
    var covEnd, hasCov := 0, false;
    var i := 0;
    assert Deduped(client, list, s, 0, out, 0, false);
    hide Deduped;
    while i < |s|
      invariant 0 <= i <= |s| && Deduped(client, list, s, i, out, covEnd, hasCov)
    {
      out, covEnd, hasCov := DedupStep(client, list, s, i, out, covEnd, hasCov);
      i := i + 1;
    }
    DedupEnd(client, list, s, out, covEnd, hasCov);
  }

  /** The first `i` structs are dealt with. */
  ghost predicate Deduped(client: nat, list: seq<Struct>, s: seq<Struct>, i: nat, out: seq<Struct>, covEnd: nat,
                          hasCov: bool) {
    && i <= |s| && Disjoint(out) && NonEmpty(out) && Same(client, s[..i], out)
    && (if i > 0 then hasCov else !hasCov && out == [] && covEnd == 0)
    && (i > 0 ==> out != [] && covEnd == End(out[|out| - 1]) && Filled(out, s[i - 1].clock, covEnd))
    && (forall k :: 0 <= k < i ==> End(s[k]) <= covEnd)
    && (forall k :: 0 <= k < |out| ==> SomeSlice(client, list, out[k]))
  }

  method DedupStep(client: nat, ghost list: seq<Struct>, s: seq<Struct>, i: nat, out: seq<Struct>, covEnd: nat,
                   hasCov: bool)
    returns (out': seq<Struct>, covEnd': nat, hasCov': bool)
    requires i < |s| && Deduped(client, list, s, i, out, covEnd, hasCov)
    requires Consistent(client, list) && Same(client, list, s) && InOrder(s) && ByClock(s) && NonEmpty(s)
    requires s[i] in list
    ensures Deduped(client, list, s, i + 1, out', covEnd', hasCov')
  {
    hide Consistent, Disjoint, Filled, Covered, Same, InOrder, ByClock, SomeSlice, Slice;
    out', covEnd', hasCov' := out, covEnd, hasCov;
    var it := s[i];
    assert s[..i + 1] == s[..i] + [it];
    if hasCov && End(it) <= covEnd {
      CoveredAdds(client, list, s, i, out, it, covEnd);
      return;
    }
    var piece := if hasCov && it.clock < covEnd then SliceFront(client, it, covEnd - it.clock) else it;
    if hasCov && it.clock < covEnd {
      SlicedIsAnchored(client, list, s, i, out, covEnd);
    }
    PieceIs(client, list, it, piece);
    SliceAdds(client, list, s, i, out, it, piece, if hasCov then covEnd else 0);
    PieceEnd(client, it, piece);
    out', covEnd', hasCov' := out + [piece], End(it), true;
  }

  lemma PieceEnd(client: nat, it: Struct, piece: Struct)
    requires piece == it || exists n: nat :: n < |it.values| && piece == Slice(client, it, n)
    ensures End(piece) == End(it)
  {
  }

  lemma DedupEnd(client: nat, list: seq<Struct>, s: seq<Struct>, out: seq<Struct>, covEnd: nat, hasCov: bool)
    requires Deduped(client, list, s, |s|, out, covEnd, hasCov) && Same(client, list, s)
    ensures Disjoint(out) && NonEmpty(out) && Same(client, list, out)
    ensures forall k :: 0 <= k < |out| ==> SomeSlice(client, list, out[k])
  {
    assert s[..|s|] == s;
    SameTrans(client, list, s, out);
  }

  /** A struct of the result is one of the input, or what is left of it. */
  predicate SomeSlice(client: nat, list: seq<Struct>, x: Struct) {
    exists s, n: nat :: s in list && n < |s.values| && x == Slice(client, s, n)
  }

  lemma PieceIs(client: nat, list: seq<Struct>, it: Struct, piece: Struct)
    requires it in list && |it.values| > 0
    requires piece == it || exists n: nat :: n < |it.values| && piece == Slice(client, it, n)
    ensures SomeSlice(client, list, piece)
  {
    if piece == it { assert piece == Slice(client, it, 0); }
  }

  lemma SortedOk(list: seq<Struct>, s: seq<Struct>)
    requires NonEmpty(list) && InOrder(s) && forall x :: x in s <==> x in list
    ensures ByClock(s) && NonEmpty(s)
  {
    forall k | 0 <= k < |s|
      ensures |s[k].values| > 0
    {
      assert s[k] in list;
    }
  }

  /** Only a struct that starts inside another is sliced, and then it has an origin. */
  lemma SlicedIsAnchored(client: nat, list: seq<Struct>, s: seq<Struct>, i: nat, out: seq<Struct>, covEnd: nat)
    requires Consistent(client, list) && Same(client, list, s) && InOrder(s) && NonEmpty(s) && 0 < i < |s|
    requires Same(client, s[..i], out) && Filled(out, s[i - 1].clock, covEnd)
    requires s[i].clock < covEnd < End(s[i]) && forall k :: 0 <= k < i ==> End(s[k]) <= covEnd
    ensures s[i].origin.Some?
  {
    var it := s[i];
    assert Before(s[i - 1], it) && Covered(out, it.clock);
    HoldsCovered(client, out, it.clock);
    var u :| Holds(client, out, it.clock, u);
    assert Holds(client, s[..i], it.clock, u);
    var k :| 0 <= k < |s[..i]| && Has(client, s[..i][k], it.clock, u);
    assert Before(s[k], it);
    ConsistentSame(client, list, s);
    assert Has(client, s[k], it.clock, u) && Has(client, it, it.clock, UnitAt(client, it, it.clock));
    assert Holds(client, s, it.clock, u) && Holds(client, s, it.clock, UnitAt(client, it, it.clock));
  }

  lemma SameTrans(client: nat, x: seq<Struct>, y: seq<Struct>, z: seq<Struct>)
    requires Same(client, x, y) && Same(client, y, z)
    ensures Same(client, x, z)
  {
    forall c, u
      ensures Holds(client, x, c, u) == Holds(client, z, c, u)
    {
      assert Holds(client, x, c, u) == Holds(client, y, c, u);
    }
  }

  /** Where the list has something, a consistent struct adds nothing. */
  lemma NothingNew(client: nat, s: seq<Struct>, i: nat, out: seq<Struct>, it: Struct, c: nat, u: Unit)
    requires Consistent(client, s) && i < |s| && it == s[i] && Same(client, s[..i], out)
    requires Covered(out, c) && Has(client, it, c, u)
    ensures Holds(client, out, c, u)
  {
    HoldsCovered(client, out, c);
    var v :| Holds(client, out, c, v);
    assert Holds(client, s[..i], c, v);
    assert s == s[..i] + s[i..];
    HoldsConcat(client, s[..i], s[i..], c, v);
    assert Holds(client, s, c, u);
  }

  lemma ConsistentSame(client: nat, x: seq<Struct>, y: seq<Struct>)
    requires Consistent(client, x) && Same(client, x, y)
    ensures Consistent(client, y)
  {
    forall c, u, v | Holds(client, y, c, u) && Holds(client, y, c, v)
      ensures u == v
    {
      assert Holds(client, x, c, u) && Holds(client, x, c, v);
    }
  }

  lemma CoveredAdds(client: nat, list: seq<Struct>, s: seq<Struct>, i: nat, out: seq<Struct>, it: Struct, covEnd: nat)
    requires Consistent(client, list) && Same(client, list, s) && ByClock(s) && 0 < i < |s| && it == s[i]
    requires Same(client, s[..i], out) && Filled(out, s[i - 1].clock, covEnd) && End(it) <= covEnd
    ensures Same(client, s[..i] + [it], out) && Filled(out, it.clock, covEnd)
  {
    ConsistentSame(client, list, s);
    forall c, u
      ensures Holds(client, s[..i] + [it], c, u) == Holds(client, out, c, u)
    {
      HoldsConcat(client, s[..i], [it], c, u);
      HoldsOne(client, it, c, u);
      if Has(client, it, c, u) {
        assert Covered(out, c);
        NothingNew(client, s, i, out, it, c, u);
      }
    }
  }

  lemma SliceAdds(client: nat, list: seq<Struct>, s: seq<Struct>, i: nat, out: seq<Struct>, it: Struct, piece: Struct,
                  covEnd: nat)
    requires Consistent(client, list) && Same(client, list, s) && ByClock(s) && NonEmpty(s) && i < |s| && it == s[i]
    requires Same(client, s[..i], out) && Disjoint(out) && NonEmpty(out)
    requires i > 0 ==>
               out != [] && covEnd == End(out[|out| - 1]) && Filled(out, s[i - 1].clock, covEnd) && End(it) > covEnd
    requires i == 0 ==> out == [] && covEnd == 0
    requires piece == if i > 0 && it.clock < covEnd then Slice(client, it, covEnd - it.clock) else it
    ensures Same(client, s[..i] + [it], out + [piece]) && Disjoint(out + [piece]) && NonEmpty(out + [piece])
    ensures Filled(out + [piece], it.clock, End(it))
  {
    var out' := out + [piece];
    ConsistentSame(client, list, s);
    assert End(piece) == End(it);
    forall c: nat, u
      ensures Holds(client, s[..i] + [it], c, u) == Holds(client, out', c, u)
    {
      HoldsConcat(client, s[..i], [it], c, u);
      HoldsConcat(client, out, [piece], c, u);
      HoldsOne(client, it, c, u);
      HoldsOne(client, piece, c, u);
      if i > 0 && it.clock < covEnd {
        SliceHas(client, it, covEnd - it.clock, c, u);
        if Has(client, it, c, u) && c < covEnd {
          assert Covered(out, c);
          NothingNew(client, s, i, out, it, c, u);
        }
      }
    }
    DisjointPush(out, piece);
    forall c: nat | it.clock <= c < End(it)
      ensures Covered(out', c)
    {
      if c < piece.clock {
        assert Covered(out, c);
        var k :| 0 <= k < |out| && Covers(out[k], c);
        assert Covers(out'[k], c);
      } else {
        assert Covers(out'[|out|], c);
      }
    }
  }

  lemma DisjointPush(out: seq<Struct>, s: Struct)
    requires Disjoint(out) && (out != [] ==> End(out[|out| - 1]) <= s.clock)
    ensures Disjoint(out + [s])
  {
    var out' := out + [s];
    forall i, j | 0 <= i < j < |out'|
      ensures End(out'[i]) <= out'[j].clock
    {
      assert i < |out| - 1 ==> End(out[i]) <= out[|out| - 1].clock;
    }
  }

  // -------------------------------------------------------------------- encoding

  /** What is written for a client: clocks left out, and structs without their first `offset` units. */
  datatype Entry = Skip(len: nat) | Piece(struct: Struct, offset: nat)

  predicate EntryOk(e: Entry) {
    e.Piece? ==> e.offset < |e.struct.values|
  }

  predicate EntriesOk(entries: seq<Entry>) {
    forall k :: 0 <= k < |entries| ==> EntryOk(entries[k])
  }

  /** The clock after the entries have been read from `clock` on. */
  function Reach(clock: nat, entries: seq<Entry>): nat
    requires EntriesOk(entries)
    decreases |entries|
  {
    if entries == [] then clock
    else
      var e := entries[0];
      assert EntryOk(e);
      Reach(clock + (if e.Skip? then e.len else |e.struct.values| - e.offset), entries[1..])
  }

  /** Reading: only the lengths are on the wire, so each struct is placed where the reader stands. */
  function Decode(client: nat, clock: nat, entries: seq<Entry>): seq<Struct>
    requires EntriesOk(entries)
    decreases |entries|
  {
    if entries == [] then []
    else
      var e := entries[0];
      assert EntryOk(e);
      if e.Skip? then Decode(client, clock + e.len, entries[1..])
      else [Slice(client, e.struct, e.offset).(clock := clock)]
           + Decode(client, clock + |e.struct.values| - e.offset, entries[1..])
  }

  lemma {:induction false} DecodePush(client: nat, clock: nat, entries: seq<Entry>, e: Entry)
    requires EntriesOk(entries) && EntryOk(e)
    ensures EntriesOk(entries + [e])
    ensures Decode(client, clock, entries + [e]) ==
            Decode(client, clock, entries)
            + (if e.Skip? then [] else [Slice(client, e.struct, e.offset).(clock := Reach(clock, entries))])
    ensures Reach(clock, entries + [e]) ==
            Reach(clock, entries) + (if e.Skip? then e.len else |e.struct.values| - e.offset)
    decreases |entries|
  {
    hide Slice, Decode, Reach, EntriesOk, EntryOk;
    MoreEntries(entries, e);
    DecodeHead(client, clock, entries + [e]);
    if entries == [] {
      assert (entries + [e])[1..] == [] && (entries + [e])[0] == e;
      EmptyDecode(client, clock);
      EmptyDecode(client, clock + (if e.Skip? then e.len else |e.struct.values| - e.offset));
    } else {
      var h, t := entries[0], entries[1..];
      assert (entries + [e])[1..] == t + [e] && (entries + [e])[0] == h;
      var next := clock + (if h.Skip? then h.len else |h.struct.values| - h.offset);
      DecodeHead(client, clock, entries);
      DecodePush(client, next, t, e);
      Regroup(if h.Skip? then [] else [Slice(client, h.struct, h.offset).(clock := clock)],
        Decode(client, next, t),
        if e.Skip? then [] else [Slice(client, e.struct, e.offset).(clock := Reach(next, t))]);
    }
  }

  lemma Regroup(x: seq<Struct>, y: seq<Struct>, z: seq<Struct>)
    ensures x + (y + z) == x + y + z
  {
  }

  lemma MoreEntries(entries: seq<Entry>, e: Entry)
    requires EntriesOk(entries) && EntryOk(e)
    ensures EntriesOk(entries + [e])
    ensures e.Piece? ==> e.offset < |e.struct.values|
  {
  }

  lemma DecodeHead(client: nat, clock: nat, entries: seq<Entry>)
    requires EntriesOk(entries) && entries != []
    ensures EntryOk(entries[0]) && EntriesOk(entries[1..])
    ensures entries[0].Piece? ==> entries[0].offset < |entries[0].struct.values|
    ensures var h := entries[0];
            var next := clock + (if h.Skip? then h.len else |h.struct.values| - h.offset);
            && Decode(client, clock, entries) ==
               (if h.Skip? then [] else [Slice(client, h.struct, h.offset).(clock := clock)])
               + Decode(client, next, entries[1..])
            && Reach(clock, entries) == Reach(next, entries[1..])
  {
    assert EntryOk(entries[0]);
  }

  /** The part of a list at or above `sv`. */
  function Above(client: nat, list: seq<Struct>, sv: nat): seq<Struct> {
    if list == [] then []
    else
      var s := list[|list| - 1];
      Above(client, list[..|list| - 1], sv)
      + (if End(s) <= sv then [] else [Slice(client, s, if s.clock < sv then sv - s.clock else 0)])
  }

  lemma {:induction false} AboveHolds(client: nat, list: seq<Struct>, sv: nat, c: nat, u: Unit)
    ensures Holds(client, Above(client, list, sv), c, u) <==> Holds(client, list, c, u) && c >= sv
    decreases |list|
  {
    if list != [] {
      var init, s := list[..|list| - 1], list[|list| - 1];
      AboveHolds(client, init, sv, c, u);
      assert list == init + [s];
      HoldsConcat(client, init, [s], c, u);
      HoldsOne(client, s, c, u);
      if End(s) > sv {
        var n := if s.clock < sv then sv - s.clock else 0;
        SliceHas(client, s, n, c, u);
        HoldsConcat(client, Above(client, init, sv), [Slice(client, s, n)], c, u);
        HoldsOne(client, Slice(client, s, n), c, u);
      } else {
        assert Above(client, list, sv) == Above(client, init, sv);
      }
    }
  }

  /**
    The entries for a client: what the receiver knows is left out, a gap becomes a skip.
    Reading them puts every struct back at its own clock.
  */
  method Encode(client: nat, list: seq<Struct>, sv: nat) returns (start: nat, entries: seq<Entry>)
    requires Disjoint(list) && NonEmpty(list)
    ensures EntriesOk(entries) && Decode(client, start, entries) == Above(client, list, sv)
  {
    start, entries := 0, [];
    var started, expected := false, 0;
    var i := 0;
    assert list[..0] == [];
    while i < |list|
      invariant 0 <= i <= |list| && EntriesOk(entries) && Decode(client, start, entries) == Above(client, list[..i], sv)
      invariant Reach(start, entries) == (if started then expected else start) && (!started ==> entries == [])
      invariant started ==> i > 0 && expected == End(list[i - 1]) > sv
    {
      hide Decode, Reach, Above;
      AboveNext(client, list, i, sv);
      assert started ==> expected <= list[i].clock;
      if End(list[i]) > sv {
        var clk, offset := list[i].clock, 0;
        if clk < sv {
          clk, offset := sv, sv - clk;
        }
        if !started {
          start, expected, started := clk, clk, true;
          EmptyDecode(client, start);
        }
        entries := Emit(client, start, entries, expected, clk, list[i], offset);
        expected := End(list[i]);
      }
      i := i + 1;
    }
    assert list[..i] == list;
  }

  /** Writes a skip if the struct does not follow at once, then the struct. */
  method Emit(ghost client: nat, ghost start: nat, entries: seq<Entry>, expected: nat, clk: nat, it: Struct,
              offset: nat)
    returns (entries': seq<Entry>)
    requires EntriesOk(entries) && Reach(start, entries) == expected <= clk == it.clock + offset && offset < |it.values|
    ensures EntriesOk(entries') && Reach(start, entries') == End(it)
    ensures Decode(client, start, entries') == Decode(client, start, entries) + [Slice(client, it, offset)]
  {
    hide Decode, Reach;
    entries' := entries;
    if clk > expected {
      DecodePush(client, start, entries, Skip(clk - expected));
      entries' := entries + [Skip(clk - expected)];
    }
    DecodePush(client, start, entries', Piece(it, offset));
    entries' := entries' + [Piece(it, offset)];
  }

  lemma EmptyDecode(client: nat, clock: nat)
    ensures Decode(client, clock, []) == [] && Reach(clock, []) == clock
  {
  }

  lemma AboveNext(client: nat, list: seq<Struct>, i: nat, sv: nat)
    requires i < |list|
    ensures var s := list[i];
            Above(client, list[..i + 1], sv) == Above(client, list[..i], sv)
            + (if End(s) <= sv then [] else [Slice(client, s, if s.clock < sv then sv - s.clock else 0)])
  {
    assert list[..i + 1][..i] == list[..i];
  }

  // -------------------------------------------------------------- merge and diff

  /** `m` carries exactly the units that some list carries. */
  ghost predicate IsUnion(client: nat, m: seq<Struct>, lists: seq<seq<Struct>>) {
    forall c, u {:trigger Holds(client, m, c, u)} ::
      Holds(client, m, c, u) <==> exists k :: 0 <= k < |lists| && Holds(client, lists[k], c, u)
  }

  function Flat(lists: seq<seq<Struct>>): seq<Struct> {
    if lists == [] then [] else Flat(lists[..|lists| - 1]) + lists[|lists| - 1]
  }

  lemma {:induction false} FlatHolds(client: nat, lists: seq<seq<Struct>>, c: nat, u: Unit)
    ensures Holds(client, Flat(lists), c, u) <==> exists k :: 0 <= k < |lists| && Holds(client, lists[k], c, u)
    decreases |lists|
  {
    if lists != [] {
      var init, last := lists[..|lists| - 1], lists[|lists| - 1];
      FlatHolds(client, init, c, u);
      HoldsConcat(client, Flat(init), last, c, u);
      if k :| 0 <= k < |lists| && Holds(client, lists[k], c, u) {
        assert k < |init| ==> init[k] == lists[k];
      }
      if k :| 0 <= k < |init| && Holds(client, init[k], c, u) {
        assert lists[k] == init[k];
      }
    }
  }

  /** Merging updates, written out and read back, is the union of their units. */
  method MergeUpdates(client: nat, updates: seq<seq<Struct>>) returns (start: nat, entries: seq<Entry>)
    requires NonEmpty(Flat(updates)) && Consistent(client, Flat(updates))
    ensures EntriesOk(entries) && IsUnion(client, Decode(client, start, entries), updates)
  {
    var all := Concat(updates);
    var list := Dedup(client, all);
    start, entries := Encode(client, list, 0);
    forall c, u
      ensures Holds(client, Decode(client, start, entries), c, u) <==>
                exists k :: 0 <= k < |updates| && Holds(client, updates[k], c, u)
    {
      AboveHolds(client, list, 0, c, u);
      FlatHolds(client, updates, c, u);
      assert Holds(client, all, c, u) == Holds(client, list, c, u);
    }
  }

  method Concat(lists: seq<seq<Struct>>) returns (all: seq<Struct>)
    ensures all == Flat(lists)
  {
    all := [];
    var i := 0;
    assert lists[..0] == [];
    while i < |lists|
      invariant 0 <= i <= |lists| && all == Flat(lists[..i])
    {
      assert lists[..i + 1][..i] == lists[..i];
      all := all + lists[i];
      i := i + 1;
    }
    assert lists[..i] == lists;
  }

  /** A diff is the restriction to the clocks the peer is missing. */
  method DiffUpdate(client: nat, update: seq<Struct>, sv: nat) returns (start: nat, entries: seq<Entry>)
    requires NonEmpty(update) && Consistent(client, update)
    ensures EntriesOk(entries)
    ensures forall c: nat, u :: Holds(client, Decode(client, start, entries), c, u) <==>
              Holds(client, update, c, u) && c >= sv
  {
    var list := Dedup(client, update);
    start, entries := Encode(client, list, sv);
    forall c: nat, u
      ensures Holds(client, Decode(client, start, entries), c, u) <==> Holds(client, update, c, u) && c >= sv
    {
      AboveHolds(client, list, sv, c, u);
      assert Holds(client, update, c, u) == Holds(client, list, c, u);
    }
  }

  lemma UnionOfTwo(client: nat, m: seq<Struct>, a: seq<Struct>, b: seq<Struct>, c: nat, u: Unit)
    requires IsUnion(client, m, [a, b])
    ensures Holds(client, m, c, u) <==> Holds(client, a, c, u) || Holds(client, b, c, u)
  {
    assert [a, b][0] == a && [a, b][1] == b;
  }

  /** The order of the updates does not matter. */
  lemma MergeCommutes(client: nat, a: seq<Struct>, b: seq<Struct>, m: seq<Struct>, n: seq<Struct>)
    requires IsUnion(client, m, [a, b]) && IsUnion(client, n, [b, a])
    ensures Same(client, m, n)
  {
    forall c: nat, u
      ensures Holds(client, m, c, u) == Holds(client, n, c, u)
    {
      UnionOfTwo(client, m, a, b, c, u);
      UnionOfTwo(client, n, b, a, c, u);
    }
  }

  /** Neither does the order in which merges are made. */
  lemma MergeAssociates(client: nat, a: seq<Struct>, b: seq<Struct>, d: seq<Struct>,
                        ab: seq<Struct>, bd: seq<Struct>, m: seq<Struct>, n: seq<Struct>)
    requires IsUnion(client, ab, [a, b]) && IsUnion(client, m, [ab, d])
    requires IsUnion(client, bd, [b, d]) && IsUnion(client, n, [a, bd])
    ensures Same(client, m, n)
  {
    forall c: nat, u
      ensures Holds(client, m, c, u) == Holds(client, n, c, u)
    {
      UnionOfTwo(client, ab, a, b, c, u);
      UnionOfTwo(client, m, ab, d, c, u);
      UnionOfTwo(client, bd, b, d, c, u);
      UnionOfTwo(client, n, a, bd, c, u);
    }
  }

  /** Merging an update with itself adds nothing. */
  lemma MergeIdempotent(client: nat, a: seq<Struct>, m: seq<Struct>)
    requires IsUnion(client, m, [a, a])
    ensures Same(client, m, a)
  {
    forall c: nat, u
      ensures Holds(client, m, c, u) == Holds(client, a, c, u)
    {
      UnionOfTwo(client, m, a, a, c, u);
    }
  }
}
