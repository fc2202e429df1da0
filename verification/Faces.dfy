/**
  The face of a list: its units and moves in order, each live or deleted.  It does not tell
  how units are grouped into items, nor which move has won; what the list shows follows
  from it.
*/
module Faces {
  import opened Base
  import opened ListItems

  /** A unit of an element, or a whole item of another kind. */
  datatype Spot = Spot(id: Id, len: nat, content: Content, deleted: bool)

  function SpotsOf(x: Item): (r: seq<Spot>)
    ensures |r| == if x.content.Plain? then x.len else 1
  {
    if x.content.Plain? then
      seq(x.len, i requires 0 <= i < x.len => Spot(Id(x.id.client, x.id.clock + i), 1, Plain, x.deleted))
    else [Spot(x.id, x.len, x.content, x.deleted)]
  }

  function Spots(items: seq<Item>): seq<Spot> {
    if items == [] then [] else SpotsOf(items[0]) + Spots(items[1..])
  }

  // ------------------------------------------------------------------- what shows

  predicate LiveMove(s: Spot, target: Id) {
    s.content.Move? && !s.deleted && s.content.target == target
  }

  predicate Moved(spots: seq<Spot>, target: Id) {
    exists j :: 0 <= j < |spots| && LiveMove(spots[j], target)
  }

  predicate LiveHere(spots: seq<Spot>, id: Id) {
    exists j :: 0 <= j < |spots| && spots[j].content.Plain? && !spots[j].deleted && spots[j].id == id
  }

  /** Of the live moves of its target `m` is one of the lowest client, and of that client the latest. */
  predicate Chosen(spots: seq<Spot>, m: Spot)
    requires m.content.Move?
  {
    forall j :: 0 <= j < |spots| && LiveMove(spots[j], m.content.target) ==>
      m.id.client < spots[j].id.client || (m.id.client == spots[j].id.client && m.id.clock >= spots[j].id.clock)
  }

  /** A live unit shows in its place unless a live move names it; then it shows in the place of the chosen one. */
  function ShowAt(spots: seq<Spot>, s: Spot): seq<Id> {
    if s.deleted then []
    else match s.content
      case Mark => []
      case Plain => if Moved(spots, s.id) then [] else [s.id]
      case Move(target) => if Chosen(spots, s) && LiveHere(spots, target) then [target] else []
  }

  function ShowPart(spots: seq<Spot>, part: seq<Spot>): seq<Id> {
    if part == [] then [] else ShowAt(spots, part[0]) + ShowPart(spots, part[1..])
  }

  function Show(spots: seq<Spot>): seq<Id> {
    ShowPart(spots, spots)
  }

  lemma {:induction false} ShowConcat(spots: seq<Spot>, a: seq<Spot>, b: seq<Spot>)
    ensures ShowPart(spots, a + b) == ShowPart(spots, a) + ShowPart(spots, b)
    decreases |a|
  {
    hide ShowAt;
    if a == [] {
      assert a + b == b;
    } else {
      assert (a + b)[1..] == a[1..] + b;
      ShowConcat(spots, a[1..], b);
    }
  }

  lemma {:induction false} AllDeadShowNothing(spots: seq<Spot>, part: seq<Spot>)
    requires forall i :: 0 <= i < |part| ==> part[i].deleted
    ensures ShowPart(spots, part) == []
    decreases |part|
  {
    if part != [] {
      AllDeadShowNothing(spots, part[1..]);
    }
  }

  lemma {:induction false} UnmovedShow(spots: seq<Spot>, part: seq<Spot>)
    requires forall i :: 0 <= i < |part| ==> part[i].content.Plain? && !part[i].deleted && !Moved(spots, part[i].id)
    ensures ShowPart(spots, part) == seq(|part|, i requires 0 <= i < |part| => part[i].id)
    decreases |part|
  {
    hide Moved;
    if part != [] {
      UnmovedShow(spots, part[1..]);
    }
  }

  lemma ShowOne(spots: seq<Spot>, s: Spot)
    ensures ShowPart(spots, [s]) == ShowAt(spots, s)
  {
    hide ShowAt;
    assert ShowPart(spots, []) == [];
  }

  // ------------------------------------------------------------ items and their spots

  lemma {:induction false} SpotsConcat(x: seq<Item>, y: seq<Item>)
    ensures Spots(x + y) == Spots(x) + Spots(y)
    decreases |x|
  {
    hide SpotsOf;
    if x == [] {
      assert x + y == y;
    } else {
      assert (x + y)[1..] == x[1..] + y;
      SpotsConcat(x[1..], y);
    }
  }

  lemma SpotsOne(x: Item)
    ensures Spots([x]) == SpotsOf(x)
  {
    hide SpotsOf;
    assert Spots([]) == [];
  }

  lemma AroundAt(items: seq<Item>, k: nat)
    requires k < |items|
    ensures items == items[..k + 1] + items[k + 1..] && items[..k + 1] == items[..k] + [items[k]]
  {
  }

  /** The spots of a list around one of its items. */
  lemma SpotsAround(items: seq<Item>, k: nat)
    requires k < |items|
    ensures Spots(items) == Spots(items[..k]) + SpotsOf(items[k]) + Spots(items[k + 1..])
    ensures Spots(items[..k + 1]) == Spots(items[..k]) + SpotsOf(items[k])
  {
    hide Spots, SpotsOf;
    AroundAt(items, k);
    SpotsConcat(items[..k + 1], items[k + 1..]);
    SpotsConcat(items[..k], [items[k]]);
    SpotsOne(items[k]);
  }

  lemma SpotsCut(items: seq<Item>, q: nat)
    requires q <= |items|
    ensures Spots(items) == Spots(items[..q]) + Spots(items[q..]) && |Spots(items[..q])| <= |Spots(items)|
  {
    hide Spots;
    assert items == items[..q] + items[q..];
    SpotsConcat(items[..q], items[q..]);
  }

  lemma InsertSpots(items: seq<Item>, q: nat, x: Item)
    requires q <= |items|
    ensures Spots(Inserted(items, q, x)) == Spots(items[..q]) + SpotsOf(x) + Spots(items[q..])
  {
    hide Spots, SpotsOf;
    SpotsConcat(items[..q] + [x], items[q..]);
    SpotsConcat(items[..q], [x]);
    SpotsOne(x);
  }

  lemma {:induction false} SameSpots(items: seq<Item>, items': seq<Item>)
    requires |items'| == |items| && forall k :: 0 <= k < |items| ==> SpotsOf(items'[k]) == SpotsOf(items[k])
    ensures Spots(items') == Spots(items)
    decreases |items|
  {
    hide SpotsOf;
    if items != [] {
      SameSpots(items[1..], items'[1..]);
    }
  }

  lemma SplitSpots(items: seq<Item>, p: nat, n: nat)
    requires p < |items| && 0 < n < items[p].len && items[p].content.Plain?
    ensures Spots(SplitOf(items, p, n)) == Spots(items)
    ensures |Spots(SplitOf(items, p, n)[..p + 1])| == |Spots(items[..p])| + n
  {
    hide Spots, SpotsOf, SplitOf;
    var x := items[p];
    var a, b := x.(len := n), x.(id := Id(x.id.client, x.id.clock + n), len := x.len - n);
    HalvesSpots(x, n, a, b);
    Regroup(Spots(items[..p]), SpotsOf(a), SpotsOf(b), Spots(items[p + 1..]));
    SplitParts(items, p, n, a, b);
    SpotsConcat(items[..p] + [a] + [b], items[p + 1..]);
    SpotsConcat(items[..p] + [a], [b]);
    SpotsConcat(items[..p], [a]);
    SpotsOne(a);
    SpotsOne(b);
    SpotsAround(items, p);
  }

  lemma HalvesSpots(x: Item, n: nat, a: Item, b: Item)
    requires x.content.Plain? && 0 < n < x.len && a == x.(len := n)
    requires b == x.(id := Id(x.id.client, x.id.clock + n), len := x.len - n)
    ensures SpotsOf(a) + SpotsOf(b) == SpotsOf(x) && |SpotsOf(a)| == n
  {
  }

  lemma Regroup(a: seq<Spot>, b: seq<Spot>, c: seq<Spot>, d: seq<Spot>)
    ensures a + b + c + d == a + (b + c) + d
  {
  }

  lemma SplitParts(items: seq<Item>, p: nat, n: nat, a: Item, b: Item)
    requires p < |items| && 0 < n < items[p].len && a == items[p].(len := n)
    requires b == items[p].(id := Id(items[p].id.client, items[p].id.clock + n), len := items[p].len - n)
    ensures SplitOf(items, p, n) == items[..p] + [a] + [b] + items[p + 1..]
    ensures SplitOf(items, p, n)[..p + 1] == items[..p] + [a]
  {
  }

  // ---------------------------------------------------------------------- deletion

  /** The spots from `p` to `q` deleted. */
  function Erased(spots: seq<Spot>, p: nat, q: nat): (r: seq<Spot>)
    ensures |r| == |spots|
  {
    seq(|spots|, i requires 0 <= i < |spots| => if p <= i < q then spots[i].(deleted := true) else spots[i])
  }

  /** Deleting an item, whatever becomes of the movers, deletes its spots. */
  lemma EraseSpots(items: seq<Item>, items': seq<Item>, k: nat)
    requires k < |items| == |items'|
    requires forall i :: 0 <= i < |items| && i != k ==> SpotsOf(items'[i]) == SpotsOf(items[i])
    requires SpotsOf(items'[k]) == SpotsOf(items[k].(deleted := true))
    ensures var p := |Spots(items[..k])|; Spots(items') == Erased(Spots(items), p, p + |SpotsOf(items[k])|)
    ensures Spots(items'[..k]) == Spots(items[..k]) && Spots(items'[k + 1..]) == Spots(items[k + 1..])
  {
    hide Spots;
    SpotsAround(items, k);
    SpotsAround(items', k);
    SameSpots(items[..k], items'[..k]);
    SameSpots(items[k + 1..], items'[k + 1..]);
    ErasedMiddle(Spots(items[..k]), items[k], Spots(items[k + 1..]));
  }

  lemma ErasedMiddle(a: seq<Spot>, x: Item, b: seq<Spot>)
    ensures Erased(a + SpotsOf(x) + b, |a|, |a| + |SpotsOf(x)|) == a + SpotsOf(x.(deleted := true)) + b
  {
  }

  lemma ErasedMore(spots: seq<Spot>, p: nat, q: nat, r: nat)
    requires p <= q <= r
    ensures Erased(Erased(spots, p, q), q, r) == Erased(spots, p, r) && Erased(spots, p, p) == spots
  {
  }

  /** The units of `gone` deleted. */
  function Marked(spots: seq<Spot>, gone: set<Id>): (r: seq<Spot>)
    ensures |r| == |spots|
  {
    seq(|spots|, i requires 0 <= i < |spots| =>
      if spots[i].content.Plain? && spots[i].id in gone then spots[i].(deleted := true) else spots[i])
  }

  lemma MarkedMore(spots: seq<Spot>, a: set<Id>, b: set<Id>)
    ensures Marked(Marked(spots, a), b) == Marked(spots, a + b) && Marked(spots, {}) == spots
  {
  }

  lemma MarkedConcat(a: seq<Spot>, b: seq<Spot>, c: seq<Spot>, gone: set<Id>)
    ensures Marked(a + b + c, gone) == Marked(a, gone) + Marked(b, gone) + Marked(c, gone)
  {
  }

  /** Deleting an element deletes exactly its units. */
  lemma MarkSpots(items: seq<Item>, k: nat)
    requires ListOk(items) && k < |items| && items[k].content.Plain?
    ensures Spots(items[k := items[k].(deleted := true)]) ==
            Marked(Spots(items), set id | id in UnitIds(items[k].id, items[k].len))
  {
    hide Spots, Marked, ListOk;
    var x, gone := items[k], set id | id in UnitIds(items[k].id, items[k].len);
    var items' := items[k := x.(deleted := true)];
    SpotsAround(items, k);
    SpotsAround(items', k);
    assert items'[..k] == items[..k] && items'[k + 1..] == items[k + 1..];
    MarkedConcat(Spots(items[..k]), SpotsOf(x), Spots(items[k + 1..]), gone);
    OthersUnmarked(items, k, items[..k], gone);
    OthersUnmarked(items, k, items[k + 1..], gone);
    OwnMarked(x, gone);
  }

  lemma OwnMarked(x: Item, gone: set<Id>)
    requires x.content.Plain? && gone == set id | id in UnitIds(x.id, x.len)
    ensures Marked(SpotsOf(x), gone) == SpotsOf(x.(deleted := true))
  {
    forall i | 0 <= i < x.len
      ensures SpotsOf(x)[i].id in gone
    {
      assert UnitIds(x.id, x.len)[i] == SpotsOf(x)[i].id;
    }
  }

  lemma OthersUnmarked(items: seq<Item>, k: nat, part: seq<Item>, gone: set<Id>)
    requires ListOk(items) && k < |items| && gone == set id | id in UnitIds(items[k].id, items[k].len)
    requires part == items[..k] || part == items[k + 1..]
    ensures Marked(Spots(part), gone) == Spots(part)
  {
    hide Spots;
    forall i | 0 <= i < |Spots(part)| && Spots(part)[i].content.Plain?
      ensures Spots(part)[i].id !in gone
    {
      var j := SpotItem(part, i);
      assert Covers(part[j], Spots(part)[i].id);
      if part == items[..k] {
        assert Apart(items[j], items[k]);
      } else {
        assert Apart(items[k], items[k + 1 + j]);
      }
    }
  }

  // ---------------------------------------------------------------- finding a spot

  /** Every spot belongs to an item. */
  lemma {:induction false} SpotItem(items: seq<Item>, i: nat) returns (k: nat)
    requires i < |Spots(items)|
    ensures k < |items| && Spots(items)[i] in SpotsOf(items[k])
    decreases |items|
  {
    hide SpotsOf;
    if i < |SpotsOf(items[0])| {
      k := 0;
    } else {
      k := SpotItem(items[1..], i - |SpotsOf(items[0])|);
      k := k + 1;
    }
  }

  lemma ItemSpot(items: seq<Item>, k: nat, s: Spot) returns (i: nat)
    requires k < |items| && s in SpotsOf(items[k])
    ensures i < |Spots(items)| && Spots(items)[i] == s
  {
    hide Spots, SpotsOf;
    SpotsAround(items, k);
    var j :| 0 <= j < |SpotsOf(items[k])| && SpotsOf(items[k])[j] == s;
    i := |Spots(items[..k])| + j;
  }
}
