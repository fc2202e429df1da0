/**
  The steps of a transaction on the face of a list, and what each of them does to what the
  list shows.
*/
module ListSteps {
  import opened Base
  import opened Faces
  import opened ListItems
  import opened SearchMarkers
  import Moves

  /** What a transaction may do to a list; places are counted in units, moves and markers. */
  datatype Step =
    | Element(at: nat, x: Item)
    | MoveHere(at: nat, m: Item)
    | Divide(at: nat)
    | Erase(from: nat, to: nat)

  /** What can be told of a list without looking at its items: its face and the clocks expected next. */
  datatype State = State(spots: seq<Spot>, clocks: map<nat, nat>)

  predicate SpotCovers(s: Spot, id: Id) {
    s.id.client == id.client && s.id.clock <= id.clock < s.id.clock + s.len
  }

  /** The place exists and the item is new; a move does not concern a move. */
  predicate Fits(state: State, step: Step) {
    var spots := state.spots;
    match step
    case Element(at, x) =>
      && at <= |spots| && ItemOk(x) && x.movedBy.None? && x.content.Plain?
      && x.id.clock >= Moves.Next(state.clocks, x.id.client)
    case MoveHere(at, m) =>
      && at <= |spots| && ItemOk(m) && m.movedBy.None? && m.content.Move?
      && m.id.clock >= Moves.Next(state.clocks, m.id.client) && !Covers(m, m.content.target)
      && (forall i :: 0 <= i < |spots| && SpotCovers(spots[i], m.content.target) ==> spots[i].content.Plain?)
      && (forall i :: 0 <= i < |spots| && spots[i].content.Move? ==> !Covers(m, spots[i].content.target))
    case Divide(at) => at <= |spots|
    case Erase(from, to) => from <= to <= |spots| && forall i :: from <= i < to ==> !spots[i].content.Mark?
  }

  /** A new item comes at its place, a range is deleted, and a cut changes nothing. */
  function Stepped(state: State, step: Step): State {
    if !Fits(state, step) then state
    else match step
      case Element(at, x) => Placed(state, at, x)
      case MoveHere(at, m) => Placed(state, at, m)
      case Divide(_) => state
      case Erase(from, to) => state.(spots := Erased(state.spots, from, to))
  }

  function Placed(state: State, at: nat, x: Item): State
    requires at <= |state.spots|
  {
    State(state.spots[..at] + SpotsOf(x) + state.spots[at..], state.clocks[x.id.client := x.id.clock + x.len])
  }

  function SteppedAll(state: State, steps: seq<Step>): State {
    if steps == [] then state else Stepped(SteppedAll(state, steps[..|steps| - 1]), steps[|steps| - 1])
  }

  lemma SteppedNext(state: State, steps: seq<Step>, i: nat)
    requires i < |steps|
    ensures SteppedAll(state, steps[..i + 1]) == Stepped(SteppedAll(state, steps[..i]), steps[i])
  {
    assert steps[..i + 1][..i] == steps[..i];
  }

  lemma SteppedUnfit(state: State, step: Step)
    ensures !Fits(state, step) ==> Stepped(state, step) == state
  {
  }

  // ------------------------------------------------------------- what a step shows

  function Without(s: seq<Id>, gone: set<Id>): seq<Id> {
    if s == [] then [] else (if s[0] in gone then [] else [s[0]]) + Without(s[1..], gone)
  }

  lemma {:induction false} WithoutConcat(a: seq<Id>, b: seq<Id>, gone: set<Id>)
    ensures Without(a + b, gone) == Without(a, gone) + Without(b, gone)
    decreases |a|
  {
    if a == [] {
      assert a + b == b;
    } else {
      assert (a + b)[0] == a[0] && (a + b)[1..] == a[1..] + b;
      WithoutConcat(a[1..], b, gone);
    }
  }

  /** The live moves of a unit are all that matters for who shows it. */
  lemma MovesDecide(spots: seq<Spot>, t: seq<Spot>, id: Id)
    requires forall s {:trigger LiveMove(s, id)} :: LiveMove(s, id) ==> (s in t <==> s in spots)
    ensures Moved(t, id) <==> Moved(spots, id)
    ensures forall m: Spot :: m.content == Move(id) ==> (Chosen(t, m) <==> Chosen(spots, m))
  {
    InPlace(spots, id);
    InPlace(t, id);
  }

  /** Moves by membership. */
  lemma InPlace(spots: seq<Spot>, id: Id)
    ensures Moved(spots, id) <==> exists s :: s in spots && LiveMove(s, id)
    ensures forall m: Spot :: m.content == Move(id) ==>
              (Chosen(spots, m) <==> forall s :: s in spots && LiveMove(s, id) ==> NoWorse(m.id, s.id))
  {
  }

  /** A lower client, or the same client and not earlier. */
  predicate NoWorse(a: Id, b: Id) {
    a.client < b.client || (a.client == b.client && a.clock >= b.clock)
  }

  predicate LiveElement(s: Spot, id: Id) {
    s.content.Plain? && !s.deleted && s.id == id
  }

  lemma UnitsDecide(spots: seq<Spot>, t: seq<Spot>, id: Id)
    requires forall s {:trigger LiveElement(s, id)} :: LiveElement(s, id) ==> (s in t <==> s in spots)
    ensures LiveHere(t, id) <==> LiveHere(spots, id)
  {
    if j :| 0 <= j < |t| && t[j].content.Plain? && !t[j].deleted && t[j].id == id {
      assert LiveElement(t[j], id) && t[j] in spots;
    }
    if j :| 0 <= j < |spots| && spots[j].content.Plain? && !spots[j].deleted && spots[j].id == id {
      assert LiveElement(spots[j], id) && spots[j] in t;
    }
  }

  lemma {:induction false} SamePart(spots: seq<Spot>, t: seq<Spot>, part: seq<Spot>)
    requires forall s :: s in part ==> ShowAt(t, s) == ShowAt(spots, s)
    ensures ShowPart(t, part) == ShowPart(spots, part)
    decreases |part|
  {
    hide ShowAt;
    if part != [] {
      SamePart(spots, t, part[1..]);
    }
  }

  lemma {:induction false} PartWithout(spots: seq<Spot>, t: seq<Spot>, part: seq<Spot>, id: Id)
    requires forall s :: s in part ==> ShowAt(t, s) == Without(ShowAt(spots, s), {id})
    ensures ShowPart(t, part) == Without(ShowPart(spots, part), {id})
    decreases |part|
  {
    hide ShowAt;
    if part != [] {
      PartWithout(spots, t, part[1..], id);
      WithoutConcat(ShowAt(spots, part[0]), ShowPart(spots, part[1..]), {id});
    }
  }

  /** A list in three parts. */
  lemma ShowThree(t: seq<Spot>, a: seq<Spot>, b: seq<Spot>, c: seq<Spot>)
    ensures ShowPart(t, a + b + c) == ShowPart(t, a) + ShowPart(t, b) + ShowPart(t, c)
  {
    ShowConcat(t, a + b, c);
    ShowConcat(t, a, b);
  }

  /** What other spots show when a move of `id` is added. */
  lemma OtherSpot(spots: seq<Spot>, t: seq<Spot>, m: Spot, s: Spot)
    requires m.content.Move? && !m.deleted && s in spots && m !in spots && forall o :: o in spots ==> o.id != m.id
    requires forall o :: o in t <==> o in spots || o == m
    ensures var id := m.content.target;
            ShowAt(t, s) == if Chosen(spots, m) then Without(ShowAt(spots, s), {id}) else ShowAt(spots, s)
  {
    hide Chosen, Moved, LiveHere;
    var id := m.content.target;
    var named := if s.content.Move? then s.content.target else s.id;
    UnitsDecide(spots, t, named);
    if named != id {
      MovesDecide(spots, t, named);
    } else {
      InPlace(spots, id);
      InPlace(t, id);
      assert LiveMove(m, id);
    }
  }

  /**
    A new live move.  If it is the chosen one for a live unit, the unit shows where the move
    stands and no longer where it showed before; otherwise nothing shows.
  */
  lemma MoveStepShows(state: State, at: nat, m: Item)
    requires at <= |state.spots| && ItemOk(m) && m.movedBy.None? && m.content.Move? && !m.deleted
    requires m.id.clock >= Moves.Next(state.clocks, m.id.client) && !Covers(m, m.content.target)
    requires forall s :: s in state.spots ==> && s.id != m.id
                                              && (SpotCovers(s, m.content.target) ==> s.content.Plain?)
                                              && (s.content.Move? ==> !Covers(m, s.content.target))
    ensures var spots, id := state.spots, m.content.target;
            var a, b := ShowPart(spots, spots[..at]), ShowPart(spots, spots[at..]);
            Show(Stepped(state, MoveHere(at, m)).spots) ==
            if LiveHere(spots, id) && Chosen(spots, SpotsOf(m)[0]) then Without(a, {id}) + [id] + Without(b, {id})
            else a + b
  {
    hide ShowPart, Chosen, LiveHere, Without;
    MoveAdded(state.spots, at, SpotsOf(m)[0]);
    assert SpotsOf(m) == [SpotsOf(m)[0]];
  }

  lemma MoveAdded(spots: seq<Spot>, at: nat, s: Spot)
    requires at <= |spots| && s.content.Move? && !s.deleted && forall o :: o in spots ==> o.id != s.id
    ensures var id := s.content.target;
            var a, b := ShowPart(spots, spots[..at]), ShowPart(spots, spots[at..]);
            Show(spots[..at] + [s] + spots[at..]) ==
            if LiveHere(spots, id) && Chosen(spots, s) then Without(a, {id}) + [id] + Without(b, {id}) else a + b
  {
    hide ShowAt, Chosen, LiveHere, ShowPart, Without;
    var id := s.content.target;
    var a, b := spots[..at], spots[at..];
    var t := a + [s] + b;
    Members(spots, at, s);
    UnitsDecide(spots, t, id);
    OwnSpot(spots, t, s);
    ShowThree(t, a, [s], b);
    forall o | o in spots
      ensures ShowAt(t, o) == if Chosen(spots, s) then Without(ShowAt(spots, o), {id}) else ShowAt(spots, o)
    {
      OtherSpot(spots, t, s, o);
    }
    if Chosen(spots, s) {
      PartWithout(spots, t, a, id);
      PartWithout(spots, t, b, id);
      if !LiveHere(spots, id) {
        NobodyShows(spots, a, id);
        NobodyShows(spots, b, id);
        Nothing(ShowPart(spots, a), ShowPart(spots, b));
      }
    } else {
      SamePart(spots, t, a);
      SamePart(spots, t, b);
      Nothing(ShowPart(spots, a), ShowPart(spots, b));
    }
  }

  lemma Nothing(a: seq<Id>, b: seq<Id>)
    ensures a + [] + b == a + b
  {
  }

  lemma Members(spots: seq<Spot>, at: nat, s: Spot)
    requires at <= |spots|
    ensures forall o :: o in spots[..at] + [s] + spots[at..] <==> o in spots || o == s
    ensures (forall o :: o in spots[..at] ==> o in spots) && (forall o :: o in spots[at..] ==> o in spots)
  {
    assert spots == spots[..at] + spots[at..];
  }

  lemma OwnSpot(spots: seq<Spot>, t: seq<Spot>, m: Spot)
    requires m.content.Move? && !m.deleted && forall o :: o in t <==> o in spots || o == m
    requires LiveHere(t, m.content.target) <==> LiveHere(spots, m.content.target)
    ensures ShowPart(t, [m]) ==
            if LiveHere(spots, m.content.target) && Chosen(spots, m) then [m.content.target] else []
  {
    hide Chosen, LiveHere;
    InPlace(spots, m.content.target);
    InPlace(t, m.content.target);
    assert ShowPart(t, []) == [] && [m][1..] == [];
  }

  /** A unit that is not live shows nowhere. */
  lemma {:induction false} NobodyShows(spots: seq<Spot>, part: seq<Spot>, id: Id)
    requires !LiveHere(spots, id) && forall s :: s in part ==> s in spots
    ensures Without(ShowPart(spots, part), {id}) == ShowPart(spots, part)
    decreases |part|
  {
    if part != [] {
      NobodyShows(spots, part[1..], id);
      assert part[0] in spots;
      WithoutConcat(ShowAt(spots, part[0]), ShowPart(spots, part[1..]), {id});
    }
  }

  /** A new element shows its units where it comes, and nothing else changes, if no live move waits for them. */
  lemma ElementStepShows(state: State, at: nat, x: Item)
    requires at <= |state.spots| && ItemOk(x) && x.movedBy.None? && x.content.Plain?
    requires x.id.clock >= Moves.Next(state.clocks, x.id.client)
    requires forall s :: s in state.spots && s.content.Move? && !s.deleted ==> !Covers(x, s.content.target)
    ensures var spots := state.spots;
            Show(Stepped(state, Element(at, x)).spots) ==
            ShowPart(spots, spots[..at]) + (if x.deleted then [] else UnitIds(x.id, x.len))
            + ShowPart(spots, spots[at..])
  {
    hide ShowAt, Chosen, LiveHere, ShowPart, Moved;
    var spots := state.spots;
    var a, b := spots[..at], spots[at..];
    var t := a + SpotsOf(x) + b;
    assert forall o :: o in t <==> o in spots || o in SpotsOf(x) by { assert spots == a + b; }
    ShowThree(t, a, SpotsOf(x), b);
    forall o | o in spots
      ensures ShowAt(t, o) == ShowAt(spots, o)
    {
      BesideElement(spots, t, x, o);
    }
    SamePart(spots, t, a);
    SamePart(spots, t, b);
    NewElement(spots, t, x);
  }

  lemma BesideElement(spots: seq<Spot>, t: seq<Spot>, x: Item, s: Spot)
    requires x.content.Plain? && s in spots && forall o :: o in t <==> o in spots || o in SpotsOf(x)
    requires forall o :: o in spots && o.content.Move? && !o.deleted ==> !Covers(x, o.content.target)
    ensures ShowAt(t, s) == ShowAt(spots, s)
  {
    hide Chosen, Moved, LiveHere;
    var named := if s.content.Move? then s.content.target else s.id;
    MovesDecide(spots, t, named);
    if s.content.Move? && !s.deleted { UnitsDecide(spots, t, named); }
  }

  lemma NewElement(spots: seq<Spot>, t: seq<Spot>, x: Item)
    requires x.content.Plain? && forall o :: o in t <==> o in spots || o in SpotsOf(x)
    requires forall o :: o in spots && o.content.Move? && !o.deleted ==> !Covers(x, o.content.target)
    ensures ShowPart(t, SpotsOf(x)) == if x.deleted then [] else UnitIds(x.id, x.len)
  {
    hide ShowPart;
    if x.deleted {
      AllDeadShowNothing(t, SpotsOf(x));
    } else {
      UnmovedShow(t, SpotsOf(x));
    }
  }

  /** The units of a range. */
  function Range(spots: seq<Spot>, from: nat, to: nat): set<Id>
    requires to <= |spots|
  {
    set i | from <= i < to :: spots[i].id
  }

  /** Deleting a range of elements takes exactly their units off what shows, wherever they show. */
  lemma EraseStepShows(state: State, from: nat, to: nat)
    requires from <= to <= |state.spots| && forall i :: from <= i < to ==> state.spots[i].content.Plain?
    requires forall i, j :: 0 <= i < j < |state.spots| && state.spots[i].content.Plain? && state.spots[j].content.Plain?
               ==> state.spots[i].id != state.spots[j].id
    ensures Show(Stepped(state, Erase(from, to)).spots) ==
            Without(Show(state.spots), Range(state.spots, from, to))
  {
    EraseFrom(state.spots, from, to, 0);
    assert state.spots[0..] == state.spots && Erased(state.spots, from, to)[0..] == Erased(state.spots, from, to);
  }

  lemma {:induction false} EraseFrom(spots: seq<Spot>, from: nat, to: nat, i: nat)
    requires from <= to <= |spots| && i <= |spots| && forall i :: from <= i < to ==> spots[i].content.Plain?
    requires forall i, j :: 0 <= i < j < |spots| && spots[i].content.Plain? && spots[j].content.Plain?
               ==> spots[i].id != spots[j].id
    ensures var t := Erased(spots, from, to);
            ShowPart(t, t[i..]) == Without(ShowPart(spots, spots[i..]), Range(spots, from, to))
    decreases |spots| - i
  {
    hide ShowAt, Range, Erased;
    var t, gone := Erased(spots, from, to), Range(spots, from, to);
    if i < |spots| {
      EraseFrom(spots, from, to, i + 1);
      ErasedSpot(spots, from, to, i);
      assert t[i..][0] == t[i] && t[i..][1..] == t[i + 1..];
      assert spots[i..][0] == spots[i] && spots[i..][1..] == spots[i + 1..];
      WithoutConcat(ShowAt(spots, spots[i]), ShowPart(spots, spots[i + 1..]), gone);
    }
  }

  lemma ErasedSpot(spots: seq<Spot>, from: nat, to: nat, i: nat)
    requires from <= to <= |spots| && i < |spots| && forall i :: from <= i < to ==> spots[i].content.Plain?
    requires forall i, j :: 0 <= i < j < |spots| && spots[i].content.Plain? && spots[j].content.Plain?
               ==> spots[i].id != spots[j].id
    ensures var t := Erased(spots, from, to);
            ShowAt(t, t[i]) == Without(ShowAt(spots, spots[i]), Range(spots, from, to))
  {
    var t, s := Erased(spots, from, to), spots[i];
    if i < from || to <= i {
      ErasedMoves(spots, from, to, if s.content.Move? then s.content.target else s.id);
    }
    if s.content.Move? { ErasedLive(spots, from, to, s.content.target); }
    hide Erased, Moved, Chosen, LiveHere;
  }

  lemma ErasedMoves(spots: seq<Spot>, from: nat, to: nat, id: Id)
    requires from <= to <= |spots| && forall i :: from <= i < to ==> spots[i].content.Plain?
    ensures var t := Erased(spots, from, to);
            && (Moved(t, id) <==> Moved(spots, id))
            && forall m: Spot :: m.content == Move(id) ==> (Chosen(t, m) <==> Chosen(spots, m))
  {
    var t := Erased(spots, from, to);
    assert forall i :: 0 <= i < |t| ==> (LiveMove(t[i], id) <==> LiveMove(spots[i], id)) && t[i].id == spots[i].id;
    hide Erased, LiveMove;
    assert Moved(t, id) ==> Moved(spots, id);
    assert Moved(spots, id) ==> Moved(t, id) by {
      if j :| 0 <= j < |spots| && LiveMove(spots[j], id) { assert LiveMove(t[j], id); }
    }
  }

  lemma ErasedLive(spots: seq<Spot>, from: nat, to: nat, id: Id)
    requires from <= to <= |spots| && forall i :: from <= i < to ==> spots[i].content.Plain?
    requires forall i, j :: 0 <= i < j < |spots| && spots[i].content.Plain? && spots[j].content.Plain?
               ==> spots[i].id != spots[j].id
    ensures LiveHere(Erased(spots, from, to), id) <==> LiveHere(spots, id) && id !in Range(spots, from, to)
  {
    var t := Erased(spots, from, to);
    if j :| 0 <= j < |t| && t[j].content.Plain? && !t[j].deleted && t[j].id == id {
      assert spots[j] == t[j];
    }
    if j :| 0 <= j < |spots| && spots[j].content.Plain? && !spots[j].deleted && spots[j].id == id {
      assert id !in Range(spots, from, to) ==> t[j] == spots[j];
    }
  }
}
