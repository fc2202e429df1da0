/**
  What a settled list shows is what its face says: every live unit once, in its own place
  or in the place of the chosen one of its live moves.
*/
module Showing {
  import opened Base
  import opened Faces
  import opened Moves
  import opened ListItems
  import opened SearchMarkers
  import opened Transactions

  /** The live moves of a list and those of its face. */
  lemma MoveSpot(items: seq<Item>, k: nat, target: Id)
    requires k < |items| && Claims(items[k], target)
    ensures Moved(Spots(items), target)
    ensures exists j ::
              0 <= j < |Spots(items)| && LiveMove(Spots(items)[j], target) && Spots(items)[j].id == items[k].id
  {
    hide Spots;
    var x := items[k];
    var s := Spot(x.id, x.len, x.content, x.deleted);
    assert SpotsOf(x)[0] == s;
    var i := ItemSpot(items, k, s);
    assert LiveMove(Spots(items)[i], target);
  }

  lemma SpotMove(items: seq<Item>, j: nat, target: Id) returns (k: nat)
    requires j < |Spots(items)| && LiveMove(Spots(items)[j], target)
    ensures k < |items| && Claims(items[k], target) && items[k].id == Spots(items)[j].id
  {
    hide Spots;
    k := SpotItem(items, j);
  }

  lemma LiveSpot(items: seq<Item>, id: Id)
    ensures LiveHere(Spots(items), id) <==> LiveUnit(items, id)
  {
    hide Spots;
    if LiveHere(Spots(items), id) {
      var j :| 0 <= j < |Spots(items)| && Spots(items)[j].content.Plain? && !Spots(items)[j].deleted
               && Spots(items)[j].id == id;
      var k := SpotItem(items, j);
      assert Covers(items[k], id);
    }
    if LiveUnit(items, id) {
      var k :| 0 <= k < |items| && items[k].content.Plain? && !items[k].deleted && Covers(items[k], id);
      var s := Spot(id, 1, Plain, false);
      assert SpotsOf(items[k])[id.clock - items[k].id.clock] == s;
      var i := ItemSpot(items, k, s);
    }
  }

  /** A unit that a live move names and that is there is an item of its own, and has a mover. */
  lemma NamedUnit(items: seq<Item>, pending: Pending, k: nat, i: nat, id: Id)
    requires Inv(items, pending, {}, {}) && k < |items| && Covers(items[k], id)
    requires i < |items| && Claims(items[i], id)
    ensures items[k].id == id && items[k].len == 1 && items[k].content.Plain? && items[k].movedBy.Some?
    ensures items[i].id == items[k].movedBy.value || Better(items[k].movedBy.value, items[i].id)
  {
    assert MoveOk(items, pending, {}, {}, items[i]);
    assert Present(items, id);
    var j :| 0 <= j < |items| && AnsweredBy(items[j], items[i], {});
    assert Covers(items[j], id);
    TargetUnique(items, j, k, id);
  }

  /** An element shows in its place unless a live move names it. */
  lemma ElementShows(items: seq<Item>, pending: Pending, k: nat)
    requires Inv(items, pending, {}, {}) && k < |items| && items[k].content.Plain?
    ensures Shown(items, items[k]) == ShowPart(Spots(items), SpotsOf(items[k]))
  {
    hide Spots, ShowPart;
    var x, part := items[k], SpotsOf(items[k]);
    assert ItemOk(x) && MoverOk(items, x);
    if x.deleted {
      AllDeadShowNothing(Spots(items), part);
    } else if x.movedBy.Some? {
      var i :| 0 <= i < |items| && items[i].id == x.movedBy.value && Claims(items[i], x.id);
      MoveSpot(items, i, x.id);
      assert part == [Spot(x.id, 1, Plain, false)];
      ShowOne(Spots(items), part[0]);
    } else {
      forall n | 0 <= n < |part|
        ensures !Moved(Spots(items), part[n].id)
      {
        if Moved(Spots(items), part[n].id) {
          var j :| 0 <= j < |Spots(items)| && LiveMove(Spots(items)[j], part[n].id);
          var i := SpotMove(items, j, part[n].id);
          NamedUnit(items, pending, k, i, part[n].id);
        }
      }
      UnmovedShow(Spots(items), part);
    }
  }

  /** A live move shows its target exactly if the target is live and the move is the chosen one. */
  lemma MoveShows(items: seq<Item>, pending: Pending, k: nat)
    requires Inv(items, pending, {}, {}) && k < |items| && items[k].content.Move? && !items[k].deleted
    ensures var m := items[k];
            Wins(items, m) <==>
              Chosen(Spots(items), SpotsOf(m)[0]) && LiveHere(Spots(items), m.content.target)
  {
    hide Spots, Chosen, LiveHere, Inv;
    var m := items[k];
    LiveSpot(items, m.content.target);
    if Wins(items, m) {
      var j :| 0 <= j < |items| && ShownBy(items[j], m);
      WinnerChosen(items, pending, k, j);
    }
    if Chosen(Spots(items), SpotsOf(m)[0]) && LiveHere(Spots(items), m.content.target) {
      ChosenWins(items, pending, k);
    }
  }

  lemma WinnerChosen(items: seq<Item>, pending: Pending, k: nat, j: nat)
    requires Inv(items, pending, {}, {}) && k < |items| && items[k].content.Move? && !items[k].deleted
    requires j < |items| && ShownBy(items[j], items[k])
    ensures Chosen(Spots(items), SpotsOf(items[k])[0]) && LiveUnit(items, items[k].content.target)
  {
    var m, t := items[k], items[j];
    assert ItemOk(t);
    hide Spots;
    forall i | 0 <= i < |Spots(items)| && LiveMove(Spots(items)[i], m.content.target)
      ensures var o := Spots(items)[i].id;
              m.id.client < o.client || (m.id.client == o.client && m.id.clock >= o.clock)
    {
      var h := SpotMove(items, i, m.content.target);
      NamedUnit(items, pending, j, h, m.content.target);
    }
  }

  lemma ChosenWins(items: seq<Item>, pending: Pending, k: nat)
    requires Inv(items, pending, {}, {}) && k < |items| && items[k].content.Move? && !items[k].deleted
    requires Chosen(Spots(items), SpotsOf(items[k])[0]) && LiveUnit(items, items[k].content.target)
    ensures Wins(items, items[k])
  {
    hide Spots;
    var m := items[k];
    var j :| 0 <= j < |items| && items[j].content.Plain? && !items[j].deleted && Covers(items[j], m.content.target);
    NamedUnit(items, pending, j, k, m.content.target);
    var t := items[j];
    assert MoverOk(items, t);
    var h :| 0 <= h < |items| && items[h].id == t.movedBy.value && Claims(items[h], t.id);
    MoveSpot(items, h, t.id);
    assert ShownBy(t, m);
  }

  lemma ItemShows(items: seq<Item>, pending: Pending, k: nat)
    requires Inv(items, pending, {}, {}) && k < |items|
    ensures Shown(items, items[k]) == ShowPart(Spots(items), SpotsOf(items[k]))
  {
    hide Spots, ShowPart, Inv, Wins, Chosen, LiveHere;
    var x := items[k];
    if x.content.Plain? {
      ElementShows(items, pending, k);
    } else {
      assert SpotsOf(x) == [Spot(x.id, x.len, x.content, x.deleted)];
      ShowOne(Spots(items), SpotsOf(x)[0]);
      if x.content.Move? && !x.deleted { MoveShows(items, pending, k); }
    }
  }

  lemma {:induction false} ItemsShow(items: seq<Item>, pending: Pending, p: nat)
    requires Inv(items, pending, {}, {}) && p <= |items|
    ensures Rendered(items, p, |items|) == ShowPart(Spots(items), Spots(items[p..]))
    decreases |items| - p
  {
    hide Inv, Shown, ShowAt, SpotsOf;
    if p < |items| {
      ItemsShow(items, pending, p + 1);
      ItemShows(items, pending, p);
      assert items[p..][0] == items[p] && items[p..][1..] == items[p + 1..];
      ShowConcat(Spots(items), SpotsOf(items[p]), Spots(items[p + 1..]));
    }
  }

  /** A list in which every live move has been heard or waits shows what its face says. */
  lemma ShowsFace(items: seq<Item>, pending: Pending)
    requires Inv(items, pending, {}, {})
    ensures All(items) == Show(Spots(items))
  {
    hide Inv, Spots, Rendered, ShowPart;
    ItemsShow(items, pending, 0);
    assert items[0..] == items;
  }
}
