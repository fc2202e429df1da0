/**
  Moves of list elements.  A move names its target; of several live moves one wins, and the
  target is shown in its place.  Moves, targets and deletes of moves may arrive in any
  order; after each commit the best live move has won, and every live element is shown
  exactly once.
*/
module Moves {
  import opened Base
  import opened Faces
  import opened ListItems
  import opened SearchMarkers
  import opened Transactions

  /** The lowest client wins, and of one client the latest move. */
  predicate Better(m: Id, w: Id) {
    if m.client != w.client then m.client < w.client else m.clock > w.clock
  }

  predicate Beats(m: Id, w: Option<Id>) {
    w.None? || Better(m, w.value)
  }

  /** Of two different moves exactly one is better. */
  lemma BetterIsTotal(a: Id, b: Id)
    ensures a != b ==> (Better(a, b) <==> !Better(b, a))
    ensures !Better(a, a)
  {
  }

  /** `m` is a live move of the unit `target`. */
  predicate Claims(m: Item, target: Id) {
    m.content.Move? && !m.deleted && m.content.target == target
  }

  /** Some live move of the list with id `w` claims `target`. */
  predicate Held(items: seq<Item>, target: Id, w: Id) {
    exists k :: 0 <= k < |items| && items[k].id == w && Claims(items[k], target)
  }

  /** The target's mover is a live move of it, and no live move of it is better. */
  ghost predicate BestMover(items: seq<Item>, t: Item) {
    && (t.movedBy.Some? ==> Held(items, t.id, t.movedBy.value))
    && forall k :: 0 <= k < |items| && Claims(items[k], t.id) ==>
         t.movedBy.Some? && (items[k].id == t.movedBy.value || Better(t.movedBy.value, items[k].id))
  }

  /** There is one best mover: whatever the order of events, the same move has won. */
  lemma OneBestMover(items: seq<Item>, items': seq<Item>, t: Item, t': Item)
    requires t.id == t'.id && BestMover(items, t) && BestMover(items', t')
    requires forall w :: Held(items, t.id, w) <==> Held(items', t.id, w)
    ensures t.movedBy == t'.movedBy
  {
    if t.movedBy.Some? {
      assert Held(items', t.id, t.movedBy.value);
      var k :| 0 <= k < |items'| && items'[k].id == t.movedBy.value && Claims(items'[k], t.id);
    }
    if t'.movedBy.Some? {
      assert Held(items, t.id, t'.movedBy.value);
      var k :| 0 <= k < |items| && items[k].id == t'.movedBy.value && Claims(items[k], t.id);
    }
  }

  /** The winner is a live move of the target, of the lowest client, and of that client the latest. */
  lemma WinnerIs(items: seq<Item>, t: Item, w: Id)
    requires BestMover(items, t) && t.movedBy == Some(w)
    ensures Held(items, t.id, w)
    ensures forall v :: Held(items, t.id, v) ==> w.client < v.client || (w.client == v.client && v.clock <= w.clock)
  {
    forall v | Held(items, t.id, v)
      ensures w.client < v.client || (w.client == v.client && v.clock <= w.clock)
    {
      var k :| 0 <= k < |items| && items[k].id == v && Claims(items[k], t.id);
    }
  }

  // --------------------------------------------------- every element is shown once

  /** What holds of a list after each commit. */
  ghost predicate Settled(items: seq<Item>) {
    ListOk(items) && forall k :: 0 <= k < |items| && items[k].content.Plain? ==> BestMover(items, items[k])
  }

  predicate LiveUnit(items: seq<Item>, id: Id) {
    exists k :: 0 <= k < |items| && items[k].content.Plain? && !items[k].deleted && Covers(items[k], id)
  }

  lemma UnitIdsCover(x: Item, id: Id)
    ensures id in UnitIds(x.id, x.len) <==> Covers(x, id)
  {
    if Covers(x, id) {
      assert UnitIds(x.id, x.len)[id.clock - x.id.clock] == id;
    }
  }

  /** What a slot shows are units of live elements. */
  lemma ShownIsLive(items: seq<Item>, i: nat, id: Id)
    requires ListOk(items) && i < |items| && id in Shown(items, items[i])
    ensures LiveUnit(items, id)
  {
    var x := items[i];
    if x.content.Move? {
      var j :| 0 <= j < |items| && ShownBy(items[j], x);
      assert ItemOk(items[j]);
    } else {
      UnitIdsCover(x, id);
    }
  }

  /** Two slots never show the same unit. */
  lemma ShownOnce(items: seq<Item>, i: nat, j: nat, id: Id)
    requires ListOk(items) && i < |items| && j < |items| && id in Shown(items, items[i]) && id in Shown(items, items[j])
    ensures i == j
  {
    var a := Shower(items, i, id);
    var b := Shower(items, j, id);
    TargetUnique(items, a, b, id);
    if items[i].content.Move? && items[j].content.Move? {
      SameIdSameItem(items, i, j);
    }
  }

  /** The element a slot shows: itself, or what it moved here. */
  lemma Shower(items: seq<Item>, i: nat, id: Id) returns (k: nat)
    requires ListOk(items) && i < |items| && id in Shown(items, items[i])
    ensures k < |items| && items[k].content.Plain? && Covers(items[k], id)
    ensures items[k].movedBy == (if items[i].content.Move? then Some(items[i].id) else None)
    ensures !items[i].content.Move? ==> k == i
  {
    var x := items[i];
    if x.content.Move? {
      var j :| 0 <= j < |items| && ShownBy(items[j], x);
      k := j;
      assert ItemOk(items[j]);
    } else {
      UnitIdsCover(x, id);
      k := i;
    }
  }

  /** Every unit of a live element is shown somewhere. */
  lemma LiveIsShown(items: seq<Item>, id: Id) returns (i: nat)
    requires Settled(items) && LiveUnit(items, id)
    ensures i < |items| && id in Shown(items, items[i])
  {
    var k :| 0 <= k < |items| && items[k].content.Plain? && !items[k].deleted && Covers(items[k], id);
    var t := items[k];
    assert ItemOk(t) && BestMover(items, t);
    if t.movedBy.None? {
      UnitIdsCover(t, id);
      i := k;
    } else {
      var m :| 0 <= m < |items| && items[m].id == t.movedBy.value && Claims(items[m], t.id);
      assert t.id == id;
      assert ShownBy(items[k], items[m]);
      i := m;
    }
  }

  lemma ShownDistinct(items: seq<Item>, x: Item)
    ensures forall i, j :: 0 <= i < j < |Shown(items, x)| ==> Shown(items, x)[i] != Shown(items, x)[j]
  {
  }

  /** What is shown from `p` on is shown by one slot, once. */
  lemma {:induction false} RenderedFrom(items: seq<Item>, p: nat, id: Id) returns (i: nat)
    requires ListOk(items) && p <= |items|
    ensures id in Rendered(items, p, |items|) ==> p <= i < |items| && id in Shown(items, items[i])
    ensures id !in Rendered(items, p, |items|) ==> forall k :: p <= k < |items| ==> id !in Shown(items, items[k])
    decreases |items| - p
  {
    i := p;
    if p < |items| {
      var rest := RenderedFrom(items, p + 1, id);
      RenderedHead(items, p);
      if id !in Shown(items, items[p]) {
        i := rest;
      }
    }
  }

  ghost predicate NoRepeats(s: seq<Id>) {
    forall i, j :: 0 <= i < j < |s| ==> s[i] != s[j]
  }

  lemma {:induction false} RenderedNoRepeats(items: seq<Item>, p: nat)
    requires ListOk(items) && p <= |items|
    ensures NoRepeats(Rendered(items, p, |items|))
    decreases |items| - p
  {
    hide Shown, Rendered, ListOk;
    if p == |items| { RenderedNone(items); }
    if p < |items| {
      RenderedNoRepeats(items, p + 1);
      RenderedHead(items, p);
      ShownDistinct(items, items[p]);
      var a, b := Shown(items, items[p]), Rendered(items, p + 1, |items|);
      forall id | id in a
        ensures id !in b
      {
        if id in b {
          var k := RenderedFrom(items, p + 1, id);
          ShownOnce(items, p, k, id);
          assert false;
        }
      }
      NoRepeatsConcat(a, b);
    }
  }

  lemma NoRepeatsConcat(a: seq<Id>, b: seq<Id>)
    requires NoRepeats(a) && NoRepeats(b) && forall id :: id in a ==> id !in b
    ensures NoRepeats(a + b)
  {
    var s := a + b;
    forall i, j | 0 <= i < j < |s|
      ensures s[i] != s[j]
    {
      assert i < |a| ==> s[i] in a;
      assert j >= |a| ==> s[j] in b;
    }
  }

  /** After a commit the list shows exactly the units of its live elements, each once. */
  lemma EveryElementOnce(items: seq<Item>)
    requires Settled(items)
    ensures NoRepeats(Rendered(items, 0, |items|))
    ensures forall id :: id in Rendered(items, 0, |items|) <==> LiveUnit(items, id)
  {
    RenderedNoRepeats(items, 0);
    forall id
      ensures id in Rendered(items, 0, |items|) <==> LiveUnit(items, id)
    {
      var i := RenderedFrom(items, 0, id);
      if id in Rendered(items, 0, |items|) {
        ShownIsLive(items, i, id);
      }
      if LiveUnit(items, id) {
        var k := LiveIsShown(items, id);
      }
    }
  }

  /** The length of a list: the units of its live elements. */
  function LiveLength(items: seq<Item>): nat {
    if items == [] then 0
    else
      var x := items[|items| - 1];
      LiveLength(items[..|items| - 1]) + (if x.content.Plain? && !x.deleted then x.len else 0)
  }

  ghost function LiveSet(items: seq<Item>): set<Id> {
    if items == [] then {}
    else
      var x := items[|items| - 1];
      LiveSet(items[..|items| - 1])
      + (if x.content.Plain? && !x.deleted then set id | id in UnitIds(x.id, x.len) else {})
  }

  lemma {:induction false} LiveSetIs(items: seq<Item>, id: Id)
    ensures id in LiveSet(items) <==> LiveUnit(items, id)
    decreases |items|
  {
    if items != [] {
      var init, x := items[..|items| - 1], items[|items| - 1];
      LiveSetIs(init, id);
      UnitIdsCover(x, id);
      if LiveUnit(items, id) {
        var k :| 0 <= k < |items| && items[k].content.Plain? && !items[k].deleted && Covers(items[k], id);
        assert k < |init| ==> init[k] == items[k];
      }
      if LiveUnit(init, id) {
        var k :| 0 <= k < |init| && init[k].content.Plain? && !init[k].deleted && Covers(init[k], id);
        assert items[k] == init[k];
      }
    }
  }

  lemma {:induction false} SizeOf(s: seq<Id>)
    requires NoRepeats(s)
    ensures |set id | id in s| == |s|
    decreases |s|
  {
    if s != [] {
      var t, x := s[..|s| - 1], s[|s| - 1];
      SizeOf(t);
      assert s == t + [x] && x !in t;
      assert (set id | id in s) == (set id | id in t) + {x};
    }
  }

  lemma FreshUnits(items: seq<Item>, n: nat, id: Id)
    requires ListOk(items) && n < |items| && id in LiveSet(items[..n])
    ensures id !in UnitIds(items[n].id, items[n].len)
  {
    LiveSetIs(items[..n], id);
    var k :| 0 <= k < n && items[..n][k].content.Plain? && !items[..n][k].deleted && Covers(items[..n][k], id);
    UnitIdsCover(items[n], id);
    assert Apart(items[k], items[n]);
  }

  lemma LiveOneMore(items: seq<Item>, n: nat)
    requires n < |items|
    ensures var live := items[n].content.Plain? && !items[n].deleted;
            && LiveSet(items[..n + 1]) ==
               LiveSet(items[..n]) + (if live then set id | id in UnitIds(items[n].id, items[n].len) else {})
            && LiveLength(items[..n + 1]) == LiveLength(items[..n]) + (if live then items[n].len else 0)
  {
    assert items[..n + 1][..n] == items[..n] && items[..n + 1][n] == items[n];
  }

  lemma {:induction false} LiveSetSize(items: seq<Item>, n: nat)
    requires ListOk(items) && n <= |items|
    ensures |LiveSet(items[..n])| == LiveLength(items[..n])
    decreases n
  {
    if n == 0 {
      assert items[..0] == [];
    } else {
      hide LiveSet, LiveLength, ListOk;
      var m, x := n - 1, items[n - 1];
      LiveSetSize(items, m);
      LiveOneMore(items, m);
      SizeOf(UnitIds(x.id, x.len));
      hide UnitIds;
      var units := set id | id in UnitIds(x.id, x.len);
      forall id | id in LiveSet(items[..m])
        ensures id !in units
      {
        FreshUnits(items, m, id);
      }
      SizeOfUnion(LiveSet(items[..m]), units);
      SizeOfUnion(LiveSet(items[..m]), {});
    }
  }

  lemma SizeOfUnion(a: set<Id>, b: set<Id>)
    requires forall id :: id in a ==> id !in b
    ensures |a + b| == |a| + |b|
  {
  }

  /** The rendered length is the length. */
  lemma RenderedLengthIsLength(items: seq<Item>)
    requires Settled(items)
    ensures |Rendered(items, 0, |items|)| == LiveLength(items)
  {
    var r := Rendered(items, 0, |items|);
    EveryElementOnce(items);
    SizeOf(r);
    LiveSetSize(items, |items|);
    assert items[..|items|] == items;
    forall id
      ensures id in r <==> id in LiveSet(items)
    {
      LiveSetIs(items, id);
    }
    assert (set id | id in r) == LiveSet(items);
  }

  // --------------------------------------------------------------------- arbitration

  type Pending = map<nat, seq<Id>>

  ghost predicate MoverOk(items: seq<Item>, t: Item) {
    t.movedBy.Some? ==> Held(items, t.id, t.movedBy.value)
  }

  /** `t` is the target of `m` and has a mover at least as good, or waits for the commit to choose one. */
  ghost predicate AnsweredBy(t: Item, m: Item, queued: set<Id>) {
    && m.content.Move? && t.id == m.content.target && t.len == 1 && t.content.Plain?
    && (t.id in queued || (t.movedBy.Some? && (m.id == t.movedBy.value || Better(t.movedBy.value, m.id))))
  }

  ghost predicate Answered(items: seq<Item>, m: Item, queued: set<Id>) {
    exists j :: 0 <= j < |items| && AnsweredBy(items[j], m, queued)
  }

  predicate Present(items: seq<Item>, id: Id) {
    exists j :: 0 <= j < |items| && Covers(items[j], id)
  }

  /** `m` waits for its target, which is not there. */
  ghost predicate Waits(items: seq<Item>, m: Item, pending: Pending) {
    m.content.Move? && m.id in Of(pending, m.content.target.client) && !Present(items, m.content.target)
  }

  /** A live move has been heard, waits for its target, or is still to be looked at. */
  ghost predicate MoveOk(items: seq<Item>, pending: Pending, queued: set<Id>, todo: set<Id>, m: Item) {
    m.content.Move? && !m.deleted ==> m.id in todo || Answered(items, m, queued) || Waits(items, m, pending)
  }

  /** Targets are elements. */
  predicate TargetOk(items: seq<Item>, m: Item) {
    m.content.Move? ==> forall j :: 0 <= j < |items| && Covers(items[j], m.content.target) ==> items[j].content.Plain?
  }

  /** Every mover is a live move, and every live move has been heard or waits for its target. */
  ghost predicate Inv(items: seq<Item>, pending: Pending, queued: set<Id>, todo: set<Id>) {
    && ListOk(items)
    && (forall k :: 0 <= k < |items| ==> MoverOk(items, items[k]))
    && (forall k :: 0 <= k < |items| ==> MoveOk(items, pending, queued, todo, items[k]))
    && (forall k :: 0 <= k < |items| ==> TargetOk(items, items[k]))
  }

  /** With nothing queued and nothing to look at the best moves have won. */
  lemma InvSettles(items: seq<Item>, pending: Pending)
    requires Inv(items, pending, {}, {})
    ensures Settled(items)
  {
    forall k | 0 <= k < |items| && items[k].content.Plain?
      ensures BestMover(items, items[k])
    {
      var t := items[k];
      assert MoverOk(items, t) && ItemOk(t);
      forall i | 0 <= i < |items| && Claims(items[i], t.id)
        ensures t.movedBy.Some? && (items[i].id == t.movedBy.value || Better(t.movedBy.value, items[i].id))
      {
        var m := items[i];
        assert MoveOk(items, pending, {}, {}, m);
        assert Covers(t, t.id) && Present(items, t.id);
        var j :| 0 <= j < |items| && AnsweredBy(items[j], m, {});
        SameIdSameItem(items, j, k);
      }
    }
  }

  /** The same live units. */
  ghost predicate SameLive(items: seq<Item>, items': seq<Item>) {
    forall id {:trigger LiveUnit(items', id)} :: LiveUnit(items', id) <==> LiveUnit(items, id)
  }

  lemma SplitLive(items: seq<Item>, p: nat, n: nat)
    requires p < |items| && 0 < n < items[p].len && items[p].content.Plain?
    ensures SameLive(items, SplitOf(items, p, n))
  {
    var items' := SplitOf(items, p, n);
    forall id
      ensures LiveUnit(items', id) <==> LiveUnit(items, id)
    {
      if LiveUnit(items, id) {
        var k :| 0 <= k < |items| && items[k].content.Plain? && !items[k].deleted && Covers(items[k], id);
        var k' := if k < p then k else if k > p then k + 1 else if id.clock < items[p].id.clock + n then p else p + 1;
        assert k != p ==> items'[k'] == items[k];
        assert items'[k'].content.Plain? && !items'[k'].deleted && Covers(items'[k'], id);
      }
      if LiveUnit(items', id) {
        var k :| 0 <= k < |items'| && items'[k].content.Plain? && !items'[k].deleted && Covers(items'[k], id);
        var k' := if k <= p then k else k - 1;
        assert k != p && k != p + 1 ==> items'[k] == items[k'];
        assert items[k'].content.Plain? && !items[k'].deleted && Covers(items[k'], id);
      }
    }
  }

  /** The ids of all units in list order, shown or not. */
  function Slots(items: seq<Item>): seq<Id> {
    if items == [] then [] else UnitIds(items[0].id, items[0].len) + Slots(items[1..])
  }

  lemma {:induction false} SlotsConcat(x: seq<Item>, y: seq<Item>)
    ensures Slots(x + y) == Slots(x) + Slots(y)
    decreases |x|
  {
    hide UnitIds;
    if x == [] {
      assert x + y == y;
    } else {
      assert (x + y)[1..] == x[1..] + y;
      SlotsConcat(x[1..], y);
    }
  }

  lemma SlotsOne(x: Item)
    ensures Slots([x]) == UnitIds(x.id, x.len)
  {
    assert Slots([]) == [];
  }

  lemma InsertSlots(items: seq<Item>, q: nat, x: Item)
    requires q <= |items|
    ensures Slots(Inserted(items, q, x)) == Slots(items[..q]) + UnitIds(x.id, x.len) + Slots(items[q..])
  {
    hide Slots;
    SlotsConcat(items[..q] + [x], items[q..]);
    SlotsConcat(items[..q], [x]);
    SlotsOne(x);
  }

  lemma {:induction false} ShapeSlots(items: seq<Item>, items': seq<Item>)
    requires SameShape(items, items')
    ensures Slots(items') == Slots(items)
    decreases |items|
  {
    if items != [] {
      ShapeSlots(items[1..], items'[1..]);
    }
  }

  /** The same live units, the same units in the same order, and the same moves. */
  ghost predicate Steady(items: seq<Item>, items': seq<Item>) {
    && SameLive(items, items') && Slots(items') == Slots(items) && Spots(items') == Spots(items)
    && forall m :: m in items && m.content.Move? ==> m in items'
  }

  lemma SteadyTrans(items: seq<Item>, items': seq<Item>, items'': seq<Item>)
    requires Steady(items, items') && Steady(items', items'')
    ensures Steady(items, items'')
  {
  }

  lemma SteadyAll(items: seq<Item>, items': seq<Item>)
    requires Steady(items, items')
    ensures SameLive(items, items') && Slots(items') == Slots(items) && Spots(items') == Spots(items)
    ensures forall m :: m in items && m.content.Move? ==> m in items'
  {
  }

  lemma SteadyMoves(items: seq<Item>, items': seq<Item>)
    requires Steady(items, items')
    ensures forall m :: m in items && m.content.Move? ==> m in items'
  {
  }

  lemma SteadySelf(items: seq<Item>)
    ensures Steady(items, items)
  {
  }

  lemma SplitSteady(items: seq<Item>, p: nat, n: nat)
    requires p < |items| && 0 < n < items[p].len && items[p].content.Plain?
    ensures Steady(items, SplitOf(items, p, n))
  {
    hide Slots, Spots, SameLive, SplitOf;
    SplitLive(items, p, n);
    SplitMoves(items, p, n);
    SplitSpots(items, p, n);
    SplitSlots(items, p, n);
  }

  lemma SplitSlots(items: seq<Item>, p: nat, n: nat)
    requires p < |items| && 0 < n < items[p].len && items[p].content.Plain?
    ensures Slots(SplitOf(items, p, n)) == Slots(items)
  {
    hide Slots, SplitOf, UnitIds;
    var x := items[p];
    var a, b := x.(len := n), x.(id := Id(x.id.client, x.id.clock + n), len := x.len - n);
    SplitParts(items, p, n, a, b);
    AroundAt(items, p);
    SlotsConcat(items[..p] + [a] + [b], items[p + 1..]);
    SlotsConcat(items[..p] + [a], [b]);
    SlotsConcat(items[..p], [a]);
    SlotsConcat(items[..p + 1], items[p + 1..]);
    SlotsConcat(items[..p], [x]);
    SlotsOne(a);
    SlotsOne(b);
    SlotsOne(x);
    HalvesIds(x, n);
    AssocIds(Slots(items[..p]), UnitIds(a.id, a.len), UnitIds(b.id, b.len), Slots(items[p + 1..]));
  }

  lemma HalvesIds(x: Item, n: nat)
    requires n <= x.len
    ensures UnitIds(x.id, n) + UnitIds(Id(x.id.client, x.id.clock + n), x.len - n) == UnitIds(x.id, x.len)
  {
  }

  lemma AssocIds(a: seq<Id>, b: seq<Id>, c: seq<Id>, d: seq<Id>)
    ensures a + b + c + d == a + (b + c) + d
  {
  }

  lemma ShapeLive(items: seq<Item>, items': seq<Item>)
    requires SameShape(items, items') && forall k :: 0 <= k < |items| && items[k].content.Plain? ==>
               items'[k].deleted == items[k].deleted
    ensures SameLive(items, items')
  {
    forall id
      ensures LiveUnit(items', id) <==> LiveUnit(items, id)
    {
      if LiveUnit(items, id) {
        var k :| 0 <= k < |items| && items[k].content.Plain? && !items[k].deleted && Covers(items[k], id);
        assert items'[k].content.Plain? && !items'[k].deleted && Covers(items'[k], id);
      }
      if LiveUnit(items', id) {
        var k :| 0 <= k < |items'| && items'[k].content.Plain? && !items'[k].deleted && Covers(items'[k], id);
        assert items[k].content.Plain? && !items[k].deleted && Covers(items[k], id);
      }
    }
  }

  lemma InsertLive(items: seq<Item>, q: nat, x: Item)
    requires q <= |items|
    ensures forall id :: LiveUnit(Inserted(items, q, x), id) <==>
              LiveUnit(items, id) || (x.content.Plain? && !x.deleted && Covers(x, id))
  {
    var items' := Inserted(items, q, x);
    forall id
      ensures LiveUnit(items', id) <==> LiveUnit(items, id) || (x.content.Plain? && !x.deleted && Covers(x, id))
    {
      assert items'[q] == x;
      if LiveUnit(items, id) {
        var k :| 0 <= k < |items| && items[k].content.Plain? && !items[k].deleted && Covers(items[k], id);
        InsertedAt(items, q, x, k);
      }
      if LiveUnit(items', id) {
        var k :| 0 <= k < |items'| && items'[k].content.Plain? && !items'[k].deleted && Covers(items'[k], id);
        InsertedAt(items, q, x, k);
      }
    }
  }

  // ------------------------------------------------------------------ single steps

  /** The movers changed at `j` only, to one at least as good. */
  lemma TakeTarget(items: seq<Item>, pending: Pending, queued: set<Id>, todo: set<Id>, j: nat, w: Id)
    requires Inv(items, pending, queued, todo) && j < |items| && items[j].content.Plain? && items[j].len == 1
    requires Held(items, items[j].id, w) && Beats(w, items[j].movedBy)
    ensures Inv(items[j := items[j].(movedBy := Some(w))], pending, queued, todo)
  {
    var items' := items[j := items[j].(movedBy := Some(w))];
    RemarkListOk(items, j, Some(w));
    forall k | 0 <= k < |items'|
      ensures MoverOk(items', items'[k])
      ensures MoveOk(items', pending, queued, todo, items'[k])
      ensures TargetOk(items', items'[k])
    {
      assert MoverOk(items, items[k]) && MoveOk(items, pending, queued, todo, items[k]) && TargetOk(items, items[k]);
      HeldRemark(items, j, Some(w));
      RemarkMoveOk(items, pending, queued, todo, j, w, items[k]);
      RemarkTargetOk(items, items', items[k]);
    }
  }

  lemma HeldRemark(items: seq<Item>, j: nat, w: Option<Id>)
    requires j < |items| && items[j].content.Plain?
    ensures forall id, v :: Held(items, id, v) ==> Held(items[j := items[j].(movedBy := w)], id, v)
  {
    var items' := items[j := items[j].(movedBy := w)];
    forall id, v | Held(items, id, v)
      ensures Held(items', id, v)
    {
      var k :| 0 <= k < |items| && items[k].id == v && Claims(items[k], id);
      assert items'[k] == items[k];
    }
  }

  lemma RemarkListOk(items: seq<Item>, j: nat, w: Option<Id>)
    requires ListOk(items) && j < |items| && items[j].content.Plain? && items[j].len == 1
    ensures ListOk(items[j := items[j].(movedBy := w)])
  {
    var items' := items[j := items[j].(movedBy := w)];
    forall a, b | 0 <= a < b < |items'|
      ensures Apart(items'[a], items'[b])
    {
      assert Apart(items[a], items[b]);
    }
  }

  ghost predicate SameShape(items: seq<Item>, items': seq<Item>) {
    && |items'| == |items|
    && forall k :: 0 <= k < |items| ==>
         items'[k].id == items[k].id && items'[k].len == items[k].len && items'[k].content == items[k].content
  }

  lemma RemarkTargetOk(items: seq<Item>, items': seq<Item>, m: Item)
    requires SameShape(items, items') && TargetOk(items, m)
    ensures TargetOk(items', m)
  {
    if m.content.Move? {
      forall j | 0 <= j < |items'| && Covers(items'[j], m.content.target)
        ensures items'[j].content.Plain?
      {
        assert Covers(items[j], m.content.target);
      }
    }
  }

  lemma PresentSame(items: seq<Item>, items': seq<Item>, id: Id)
    requires SameShape(items, items')
    ensures Present(items', id) <==> Present(items, id)
  {
    if Present(items, id) {
      var j :| 0 <= j < |items| && Covers(items[j], id);
      assert Covers(items'[j], id);
    }
    if Present(items', id) {
      var j :| 0 <= j < |items'| && Covers(items'[j], id);
      assert Covers(items[j], id);
    }
  }

  lemma RemarkMoveOk(items: seq<Item>, pending: Pending, queued: set<Id>, todo: set<Id>, j: nat, w: Id, m: Item)
    requires j < |items| && items[j].content.Plain? && items[j].len == 1 && Beats(w, items[j].movedBy)
    requires MoveOk(items, pending, queued, todo, m)
    ensures MoveOk(items[j := items[j].(movedBy := Some(w))], pending, queued, todo, m)
  {
    var items' := items[j := items[j].(movedBy := Some(w))];
    if m.content.Move? {
      PresentSame(items, items', m.content.target);
      if Answered(items, m, queued) {
        var i :| 0 <= i < |items| && AnsweredBy(items[i], m, queued);
        assert AnsweredBy(items'[i], m, queued);
      }
    }
  }

  /** A live move that is answered or waits needs no further look. */
  lemma LookedAt(items: seq<Item>, pending: Pending, queued: set<Id>, todo: set<Id>, k: nat)
    requires Inv(items, pending, queued, todo) && k < |items|
    requires items[k].deleted
             || !items[k].content.Move? || Answered(items, items[k], queued) || Waits(items, items[k], pending)
    ensures Inv(items, pending, queued, todo - {items[k].id})
  {
    forall i | 0 <= i < |items|
      ensures MoveOk(items, pending, queued, todo - {items[k].id}, items[i])
    {
      assert MoveOk(items, pending, queued, todo, items[i]);
      if items[i].id == items[k].id {
        SameIdSameItem(items, i, k);
      }
    }
  }

  /** Where each item of a list is after a split. */
  function After(i: nat, p: nat): nat {
    if i < p then i else i + 1
  }

  /** Cutting an element that nobody has moved changes nothing for moves. */
  lemma SplitInv(items: seq<Item>, pending: Pending, queued: set<Id>, todo: set<Id>, p: nat, n: nat)
    requires Inv(items, pending, queued, todo) && p < |items| && 0 < n < items[p].len && items[p].content.Plain?
    ensures items[p].movedBy.None? && Inv(SplitOf(items, p, n), pending, queued, todo)
  {
    var items' := SplitOf(items, p, n);
    assert ItemOk(items[p]);
    SplitListOk(items, p, n);
    assert forall i :: 0 <= i < |items| && i != p ==> items'[After(i, p)] == items[i];
    forall k | 0 <= k < |items'|
      ensures MoverOk(items', items'[k])
      ensures MoveOk(items', pending, queued, todo, items'[k])
      ensures TargetOk(items', items'[k])
    {
      var i := if k <= p then k else k - 1;
      assert i != p ==> items'[k] == items[i];
      assert MoverOk(items, items[i]) && MoveOk(items, pending, queued, todo, items[i]) && TargetOk(items, items[i]);
      SplitItemOk(items, pending, queued, todo, p, n, items[i]);
    }
  }

  lemma SplitItemOk(items: seq<Item>, pending: Pending, queued: set<Id>, todo: set<Id>, p: nat, n: nat, x: Item)
    requires ListOk(items) && p < |items| && 0 < n < items[p].len && items[p].content.Plain? && items[p].movedBy.None?
    requires MoverOk(items, x) && MoveOk(items, pending, queued, todo, x) && TargetOk(items, x)
    ensures MoverOk(SplitOf(items, p, n), x) && MoveOk(SplitOf(items, p, n), pending, queued, todo, x)
    ensures TargetOk(SplitOf(items, p, n), x)
  {
    var items' := SplitOf(items, p, n);
    if x.movedBy.Some? {
      var k :| 0 <= k < |items| && items[k].id == x.movedBy.value && Claims(items[k], x.id);
      assert items'[After(k, p)] == items[k];
    }
    if x.content.Move? {
      forall j | 0 <= j < |items'| && Covers(items'[j], x.content.target)
        ensures Present(items, x.content.target) && items'[j].content.Plain?
      {
        var i := if j <= p then j else j - 1;
        assert i != p ==> items'[j] == items[i];
        assert Covers(items[i], x.content.target);
      }
      if Answered(items, x, queued) {
        var j :| 0 <= j < |items| && AnsweredBy(items[j], x, queued);
        assert items'[After(j, p)] == items[j];
      }
    }
  }

  lemma InsertedAt(items: seq<Item>, q: nat, x: Item, k: nat)
    requires q <= |items| && k <= |items|
    ensures k != q ==> Inserted(items, q, x)[k] == items[if k < q then k else k - 1]
    ensures k < |items| ==> Inserted(items, q, x)[if k < q then k else k + 1] == items[k]
  {
  }

  /** A new item leaves the others as they were, as far as it does not bring a target. */
  lemma InsertItemOk(items: seq<Item>, pending: Pending, queued: set<Id>, todo: set<Id>, q: nat, x: Item, y: Item)
    requires ListOk(items) && q <= |items| && x.movedBy.None?
    requires MoverOk(items, y) && MoveOk(items, pending, queued, todo, y) && TargetOk(items, y)
    requires y.content.Move? && Covers(x, y.content.target) ==> x.content.Plain? && (y.deleted || y.id in todo)
    ensures MoverOk(Inserted(items, q, x), y) && MoveOk(Inserted(items, q, x), pending, queued, todo, y)
    ensures TargetOk(Inserted(items, q, x), y)
  {
    var items' := Inserted(items, q, x);
    if y.movedBy.Some? {
      var k :| 0 <= k < |items| && items[k].id == y.movedBy.value && Claims(items[k], y.id);
      InsertedAt(items, q, x, k);
    }
    if y.content.Move? {
      forall j | 0 <= j < |items'| && Covers(items'[j], y.content.target)
        ensures items'[j].content.Plain? && (j == q || Present(items, y.content.target))
      {
        InsertedAt(items, q, x, j);
        assert j != q ==> Covers(items[if j < q then j else j - 1], y.content.target);
      }
      if Answered(items, y, queued) {
        var j :| 0 <= j < |items| && AnsweredBy(items[j], y, queued);
        InsertedAt(items, q, x, j);
      }
    }
  }

  /** The moves that wait for a unit of an item have to be looked at again. */
  lemma InsertInv(items: seq<Item>, pending: Pending, queued: set<Id>, todo: set<Id>, q: nat, x: Item)
    requires Inv(items, pending, queued, todo) && q <= |items| && ItemOk(x) && x.movedBy.None?
    requires forall i :: 0 <= i < |items| ==> Apart(items[i], x)
    requires forall i :: 0 <= i < |items| && items[i].content.Move? && Covers(x, items[i].content.target) ==>
               x.content.Plain?
    requires TargetOk(items, x) && (x.content.Move? ==> !Covers(x, x.content.target))
    ensures Inv(Inserted(items, q, x), pending, queued, todo + {x.id} + set id | id in Of(pending, x.id.client))
  {
    var items' := Inserted(items, q, x);
    var todo' := todo + {x.id} + set id | id in Of(pending, x.id.client);
    ListOkInsert(items, q, x);
    forall k | 0 <= k < |items'|
      ensures MoverOk(items', items'[k])
      ensures MoveOk(items', pending, queued, todo', items'[k])
      ensures TargetOk(items', items'[k])
    {
      InsertedAt(items, q, x, k);
      if k == q {
        InsertItemOk(items, pending, queued, todo', q, x, x);
      } else {
        var i := if k < q then k else k - 1;
        var y := items[i];
        assert MoverOk(items, y) && MoveOk(items, pending, queued, todo, y) && TargetOk(items, y);
        NotCovered(items, pending, queued, todo, i, x);
        InsertItemOk(items, pending, queued, todo', q, x, y);
      }
    }
  }

  /** A live move whose target is in a new item was waiting for it, or is still to be looked at. */
  lemma NotCovered(items: seq<Item>, pending: Pending, queued: set<Id>, todo: set<Id>, i: nat, x: Item)
    requires Inv(items, pending, queued, todo) && i < |items| && forall k :: 0 <= k < |items| ==> Apart(items[k], x)
    requires ItemOk(x)
    ensures var y := items[i];
            y.content.Move? && !y.deleted && Covers(x, y.content.target) ==>
              y.id in todo || y.id in Of(pending, x.id.client)
  {
    var y := items[i];
    assert MoveOk(items, pending, queued, todo, y);
  }

  lemma FinishPending(items: seq<Item>, pending: Pending, queued: set<Id>, client: nat)
    requires Inv(items, pending, queued, {}) && PendingOk(items, pending) && Of(pending, client) == []
    ensures Inv(items, pending - {client}, queued, {}) && PendingOk(items, pending - {client})
  {
    forall c, i | 0 <= i < |Of(pending - {client}, c)|
      ensures Listed(items, Of(pending - {client}, c)[i], c)
    {
      assert Of(pending - {client}, c) == Of(pending, c);
    }
    forall k | 0 <= k < |items|
      ensures MoveOk(items, pending - {client}, queued, {}, items[k])
    {
      assert MoveOk(items, pending, queued, {}, items[k]);
    }
  }

  /** The moves that wait for a client are taken out to be looked at. */
  lemma StartPending(items: seq<Item>, pending: Pending, queued: set<Id>, todo: set<Id>, client: nat)
    requires Inv(items, pending, queued, todo)
    ensures Inv(items, pending[client := []], queued, todo + set id | id in Of(pending, client))
  {
    var todo' := todo + set id | id in Of(pending, client);
    forall k | 0 <= k < |items|
      ensures MoveOk(items, pending[client := []], queued, todo', items[k])
    {
      assert MoveOk(items, pending, queued, todo, items[k]);
    }
  }

  lemma AddPending(items: seq<Item>, pending: Pending, queued: set<Id>, todo: set<Id>, client: nat, id: Id)
    requires Inv(items, pending, queued, todo)
    ensures Inv(items, pending[client := Of(pending, client) + [id]], queued, todo)
  {
    var pending' := pending[client := Of(pending, client) + [id]];
    forall k | 0 <= k < |items|
      ensures MoveOk(items, pending', queued, todo, items[k])
    {
      assert MoveOk(items, pending, queued, todo, items[k]);
    }
  }

  /** A move with this id and a target of client `c` is in the list. */
  ghost predicate Listed(items: seq<Item>, id: Id, c: nat) {
    exists k :: 0 <= k < |items| && items[k].id == id && items[k].content.Move? && items[k].content.target.client == c
  }

  /** Moves wait under the client of their target. */
  ghost predicate PendingOk(items: seq<Item>, pending: Pending) {
    forall c, i :: 0 <= i < |Of(pending, c)| ==> Listed(items, Of(pending, c)[i], c)
  }

  /** Every move on the waiting list, save those that wait for `clients`, is deleted or its target is not there. */
  ghost predicate Awaited(items: seq<Item>, pending: Pending, clients: set<nat>) {
    forall c, i {:trigger Of(pending, c)[i]} :: 0 <= i < |Of(pending, c)| && c !in clients ==>
      Idles(items, Of(pending, c)[i])
  }

  ghost predicate Idles(items: seq<Item>, id: Id) {
    forall k {:trigger items[k]} :: 0 <= k < |items| && items[k].id == id && items[k].content.Move? ==>
      items[k].deleted || !Present(items, items[k].content.target)
  }

  /** The same units and the same moves. */
  lemma AwaitedSteady(items: seq<Item>, items': seq<Item>, pending: Pending, clients: set<nat>)
    requires Awaited(items, pending, clients) && PendingOk(items, pending) && Steady(items, items') && ListOk(items')
    ensures Awaited(items', pending, clients)
  {
    hide Steady, Idles;
    SteadyAll(items, items');
    forall c, i | 0 <= i < |Of(pending, c)| && c !in clients
      ensures Idles(items', Of(pending, c)[i])
    {
      assert Listed(items, Of(pending, c)[i], c);
      IdlesSteady(items, items', Of(pending, c)[i], c);
    }
  }

  lemma IdlesSteady(items: seq<Item>, items': seq<Item>, id: Id, c: nat)
    requires Listed(items, id, c) && Idles(items, id) && Slots(items') == Slots(items) && ListOk(items')
    requires forall m :: m in items && m.content.Move? ==> m in items'
    ensures Idles(items', id)
  {
    hide Slots, ListOk;
    var j :| 0 <= j < |items| && items[j].id == id && items[j].content.Move? && items[j].content.target.client == c;
    assert items[j] in items';
    var j' :| 0 <= j' < |items'| && items'[j'] == items[j];
    SlotsPresent(items, items[j].content.target);
    SlotsPresent(items', items[j].content.target);
    forall k | 0 <= k < |items'| && items'[k].id == id && items'[k].content.Move?
      ensures items'[k].deleted || !Present(items', items'[k].content.target)
    {
      SameIdSameItem(items', j', k);
    }
  }

  /** The same items, of which more may be deleted. */
  lemma AwaitedShape(items: seq<Item>, items': seq<Item>, pending: Pending, clients: set<nat>)
    requires Awaited(items, pending, clients) && SameShape(items, items')
    requires forall i :: 0 <= i < |items| && items[i].deleted ==> items'[i].deleted
    ensures Awaited(items', pending, clients)
  {
    forall c, i | 0 <= i < |Of(pending, c)| && c !in clients
      ensures Idles(items', Of(pending, c)[i])
    {
      assert Idles(items, Of(pending, c)[i]);
      forall k | 0 <= k < |items'| && items'[k].id == Of(pending, c)[i] && items'[k].content.Move?
        ensures items'[k].deleted || !Present(items', items'[k].content.target)
      {
        PresentSame(items, items', items[k].content.target);
      }
    }
  }

  /** A new item may be what the moves under its client wait for. */
  lemma AwaitedInsert(items: seq<Item>, pending: Pending, q: nat, x: Item)
    requires Awaited(items, pending, {}) && PendingOk(items, pending) && ListOk(items) && q <= |items| && ItemOk(x)
    requires forall i :: 0 <= i < |items| ==> Apart(items[i], x)
    ensures Awaited(Inserted(items, q, x), pending, {x.id.client})
  {
    var items' := Inserted(items, q, x);
    forall c, i | 0 <= i < |Of(pending, c)| && c != x.id.client
      ensures Idles(items', Of(pending, c)[i])
    {
      IdlesInsert(items, pending, q, x, c, i);
    }
  }

  lemma IdlesInsert(items: seq<Item>, pending: Pending, q: nat, x: Item, c: nat, i: nat)
    requires Awaited(items, pending, {}) && PendingOk(items, pending) && ListOk(items) && q <= |items| && ItemOk(x)
    requires forall i :: 0 <= i < |items| ==> Apart(items[i], x)
    requires i < |Of(pending, c)| && c != x.id.client
    ensures Idles(Inserted(items, q, x), Of(pending, c)[i])
  {
    var items', id := Inserted(items, q, x), Of(pending, c)[i];
    assert Idles(items, id) && Listed(items, id, c);
    var j :| 0 <= j < |items| && items[j].id == id && items[j].content.Move? && items[j].content.target.client == c;
    assert Apart(items[j], x) && ItemOk(items[j]);
    assert items'[q] == x && x.id != id;
    forall k | 0 <= k < |items'| && items'[k].id == id && items'[k].content.Move?
      ensures items'[k].deleted || !Present(items', items'[k].content.target)
    {
      InsertedAt(items, q, x, k);
      SameIdSameItem(items, if k < q then k else k - 1, j);
      if Present(items', items[j].content.target) {
        var h :| 0 <= h < |items'| && Covers(items'[h], items[j].content.target);
        InsertedAt(items, q, x, h);
      }
    }
  }

  lemma AwaitedTaken(items: seq<Item>, pending: Pending, client: nat)
    requires Awaited(items, pending, {client})
    ensures Awaited(items, pending[client := []], {})
  {
    var pending' := pending[client := []];
    forall c, i | 0 <= i < |Of(pending', c)|
      ensures Idles(items, Of(pending', c)[i])
    {
      assert Of(pending', c)[i] == Of(pending, c)[i];
    }
  }

  lemma AwaitedDone(items: seq<Item>, pending: Pending, client: nat)
    requires Awaited(items, pending, {}) && Of(pending, client) == []
    ensures Awaited(items, pending - {client}, {})
  {
    var pending' := pending - {client};
    forall c, i | 0 <= i < |Of(pending', c)|
      ensures Idles(items, Of(pending', c)[i])
    {
      assert Of(pending', c)[i] == Of(pending, c)[i];
    }
  }

  lemma AwaitedAdd(items: seq<Item>, pending: Pending, clients: set<nat>, client: nat, k: nat)
    requires Awaited(items, pending, clients) && ListOk(items) && k < |items| && items[k].content.Move?
    requires !Present(items, items[k].content.target)
    ensures Awaited(items, pending[client := Of(pending, client) + [items[k].id]], clients)
  {
    var pending' := pending[client := Of(pending, client) + [items[k].id]];
    forall h | 0 <= h < |items| && items[h].id == items[k].id
      ensures h == k
    {
      SameIdSameItem(items, h, k);
    }
    assert Idles(items, items[k].id);
    forall c, i | 0 <= i < |Of(pending', c)| && c !in clients
      ensures Idles(items, Of(pending', c)[i])
    {
      if i < |Of(pending, c)| { assert Of(pending', c)[i] == Of(pending, c)[i]; }
    }
  }

  lemma PendingKept(items: seq<Item>, items': seq<Item>, pending: Pending)
    requires PendingOk(items, pending) && forall m :: m in items && m.content.Move? ==> m in items'
    ensures PendingOk(items', pending)
  {
    forall c, i | 0 <= i < |Of(pending, c)|
      ensures Listed(items', Of(pending, c)[i], c)
    {
      assert Listed(items, Of(pending, c)[i], c);
      var k :| 0 <= k < |items|
          && items[k].id == Of(pending, c)[i] && items[k].content.Move? && items[k].content.target.client == c;
      assert items[k] in items';
    }
  }

  lemma PendingAdd(items: seq<Item>, pending: Pending, client: nat, id: Id)
    requires PendingOk(items, pending) && Listed(items, id, client)
    ensures PendingOk(items, pending[client := Of(pending, client) + [id]])
    ensures id in Of(pending[client := Of(pending, client) + [id]], client)
  {
    var pending' := pending[client := Of(pending, client) + [id]];
    forall c, i | 0 <= i < |Of(pending', c)|
      ensures Listed(items, Of(pending', c)[i], c)
    {
      assert i < |Of(pending, c)| ==> Of(pending', c)[i] == Of(pending, c)[i];
    }
    assert Of(pending', client)[|Of(pending, client)|] == id;
  }

  method FindItem(items: seq<Item>, id: Id) returns (k: int)
    ensures k < 0 ==> forall i :: 0 <= i < |items| ==> items[i].id != id
    ensures k >= 0 ==> k < |items| && items[k].id == id
  {
    k := 0;
    while k < |items| && items[k].id != id
      invariant 0 <= k <= |items| && forall i :: 0 <= i < k ==> items[i].id != id
    {
      k := k + 1;
    }
    if k == |items| {
      k := -1;
    }
  }

  /** The clock expected next of a client. */
  function Next(clocks: map<nat, nat>, client: nat): nat {
    if client in clocks then clocks[client] else 0
  }

  /** All units are below the clocks, and so is what the transaction found. */
  ghost predicate Clocked(clocks: map<nat, nat>, txn: Txn, items: seq<Item>) {
    && (forall u :: u in Slots(items) ==> u.clock < Next(clocks, u.client))
    && (forall c :: c in txn.before ==> txn.before[c] <= Next(clocks, c))
  }

  /** A list of elements and moves, and the transaction that changes it. */
  class Arbiter {
    var items: seq<Item>
    var pending: Pending
    var queued: set<Id>
    var clocks: map<nat, nat>
    var length: nat
    var txn: Txn
    /** The right halves of items cut in this transaction. */
    var halves: seq<Id>
    /** The list when the transaction began. */
    ghost var start: seq<Item>

    /** Holds after every step of a transaction. */
    ghost predicate Valid()
      reads this
    {
      Inv(items, pending, queued, {}) && PendingOk(items, pending) && Awaited(items, pending, {}) && Logged()
    }

    /** The length counts the live elements, and the records tell what the list showed when the transaction began. */
    ghost predicate Logged()
      reads this
    {
      TxnOk(txn, halves, items, start) && Clocked(clocks, txn, items) && length == LiveLength(items)
    }

    /** An empty list. */
    constructor ()
      ensures Valid() && items == [] && queued == {}
    {
      items, pending, queued, clocks, length, txn, halves := [], map[], {}, map[], 0, Txn(map[], {}, map[]), [];
      start := [];
    }

    /** A transaction begins. */
    method Begin()
      requires Valid()
      modifies `txn, `halves, `start
      ensures Valid() && start == items
    {
      hide Awaited, Inv, PendingOk, LiveLength, TxnOk;
      BeginOk(clocks, txn, items, pending, queued);
      txn, halves := Txn(clocks, {}, map[]), [];
      start := items;
    }

    /** Gives a target another mover. */
    method SetMovedBy(j: nat, w: Option<Id>)
      requires ListOk(items) && j < |items| && items[j].len == 1 && items[j].content.Plain? && Logged()
      modifies `items, `txn
      ensures items == old(items)[j := old(items)[j].(movedBy := w)] && Logged()
    {
      hide Awaited, TxnOk, LiveLength, Slots, Spots;
      TxnRemark(txn, halves, items, start, j, w);
      RemarkListOk(items, j, w);
      RemarkSteady(items, j, w);
      SteadyLog(items, items[j := items[j].(movedBy := w)], clocks, txn);
      if items[j].id !in txn.movedBefore {
        txn := txn.(movedBefore := txn.movedBefore[items[j].id := items[j].movedBy]);
      }
      items := items[j := items[j].(movedBy := w)];
    }

    /** Cuts an element that is not moved. */
    method Split(p: nat, n: nat)
      requires ListOk(items) && p < |items| && 0 < n < items[p].len && items[p].content.Plain? && Logged()
      modifies `items, `halves
      ensures items == SplitOf(old(items), p, n) && Logged() && Steady(old(items), items)
    {
      hide Awaited, TxnOk, Clocked, LiveLength, Slots, Spots, SplitOf, Steady;
      assert ItemOk(items[p]);
      TxnSplit(txn, halves, items, start, p, n);
      SplitListOk(items, p, n);
      SplitSteady(items, p, n);
      SteadyLog(items, SplitOf(items, p, n), clocks, txn);
      halves := halves + [Back(items[p], n).id];
      items := SplitOf(items, p, n);
    }

    /** Cuts an element, so that a part of it can be deleted. */
    method CutElement(p: nat, n: nat)
      requires Valid() && p < |items| && 0 < n < items[p].len && items[p].content.Plain?
      modifies `items, `halves
      ensures Valid() && items == SplitOf(old(items), p, n) && Steady(old(items), items)
    {
      hide Awaited, TxnOk, Clocked, LiveLength, Slots, Spots, PendingOk, Steady;
      SplitInv(items, pending, queued, {}, p, n);
      SplitMoves(items, p, n);
      PendingKept(items, SplitOf(items, p, n), pending);
      ghost var before := items;
      Split(p, n);
      InvListOk(items, pending, queued, {});
      AwaitedSteady(before, items, pending, {});
    }

    /** The element `target`, cut out of a longer item if need be; -1 if it is not there. */
    method ResolveTarget(target: Id, ghost todo: set<Id>) returns (j: int)
      requires Inv(items, pending, queued, todo) && Logged()
      requires forall i :: 0 <= i < |items| && Covers(items[i], target) ==> items[i].content.Plain?
      modifies `items, `halves
      ensures Inv(items, pending, queued, todo) && Logged()
      ensures j < 0 ==> items == old(items) && !Present(items, target)
      ensures j >= 0 ==> j < |items| && items[j].id == target && items[j].len == 1 && items[j].content.Plain?
      ensures Steady(old(items), items)
    {
      hide Awaited, TxnOk, Clocked, LiveLength, Slots, Spots;
      j := 0;
      while j < |items| && !Covers(items[j], target)
        invariant 0 <= j <= |items| && forall i :: 0 <= i < j ==> !Covers(items[i], target)
        invariant items == old(items) && halves == old(halves)
      {
        j := j + 1;
      }
      SteadySelf(items);
      if j == |items| {
        return -1;
      }
      if items[j].id.clock < target.clock {
        var n := target.clock - items[j].id.clock;
        SplitInv(items, pending, queued, todo, j, n);
        SplitMoves(items, j, n);
        Split(j, n);
        j := j + 1;
      }
      if items[j].len > 1 {
        SplitInv(items, pending, queued, todo, j, 1);
        SplitMoves(items, j, 1);
        ghost var before := items;
        Split(j, 1);
        SteadyTrans(old(items), before, items);
      }
    }

    /** A move that has been looked up either takes its target or leaves it to a better one. */
    method Arbitrate(j: nat, m: Id, ghost k: nat, ghost todo: set<Id>)
      requires Inv(items, pending, queued, todo) && j < |items| && items[j].content.Plain? && items[j].len == 1
      requires k < |items| && items[k].id == m && Claims(items[k], items[j].id) && Logged()
      modifies `items, `txn
      ensures Inv(items, pending, queued, todo - {m}) && Logged()
      ensures Steady(old(items), items)
    {
      SteadySelf(items);
      hide Awaited, TxnOk, Clocked, LiveLength, Slots, Spots, Steady;
      if Beats(m, items[j].movedBy) {
        TakeTarget(items, pending, queued, todo, j, m);
        RemarkSteady(items, j, Some(m));
        SetMovedBy(j, Some(m));
      } else {
        BetterIsTotal(m, items[j].movedBy.value);
      }
      assert AnsweredBy(items[j], items[k], queued);
      LookedAt(items, pending, queued, todo, k);
    }

    /**
      A move takes its target if it is there and nobody better has it; otherwise it waits
      under the target's client.
    */
    method HearMove(id: Id, client: nat, ghost todo: set<Id>, ghost cs: set<nat>)
      requires Awaited(items, pending, cs)
      requires Inv(items, pending, queued, todo) && PendingOk(items, pending) && Listed(items, id, client) && Logged()
      modifies `items, `pending, `txn, `halves
      ensures Inv(items, pending, queued, todo - {id}) && PendingOk(items, pending) && Logged()
      ensures Awaited(items, pending, cs)
      ensures forall c :: c != client ==> Of(pending, c) == Of(old(pending), c)
      ensures forall i :: i in Of(old(pending), client) ==> i in Of(pending, client)
      ensures Steady(old(items), items)
    {
      hide Awaited, TxnOk, Clocked, LiveLength, Slots, Spots, Inv, PendingOk, Steady, Listed, ListOk, Covers;
      var k := FindItem(items, id);
      ListedItem(items, pending, queued, todo, id, client, k);
      SteadySelf(items);
      if items[k].deleted {
        LookedAt(items, pending, queued, todo, k);
        return;
      }
      var m := items[k];
      ghost var before := items;
      var j := ResolveTarget(m.content.target, todo);
      SteadyMoves(before, items);
      InvListOk(items, pending, queued, todo);
      AwaitedSteady(before, items, pending, cs);
      PendingKept(before, items, pending);
      assert m in items;
      ghost var k' :| 0 <= k' < |items| && items[k'] == m;
      ListedKept(before, items, id, client);
      if j < 0 {
        AddPending(items, pending, queued, todo, client, id);
        PendingAdd(items, pending, client, id);
        AwaitedAdd(items, pending, cs, client, k');
        pending := pending[client := Of(pending, client) + [id]];
        LookedAt(items, pending, queued, todo, k');
      } else {
        ghost var cut := items;
        Arbitrate(j, id, k', todo);
        SteadyMoves(cut, items);
        SteadyTrans(before, cut, items);
        InvListOk(items, pending, queued, todo - {id});
        AwaitedSteady(cut, items, pending, cs);
        PendingKept(cut, items, pending);
      }
    }

    /** Tries the moves again that wait for an element of `client`. */
    method ResolvePending(client: nat)
      requires Inv(items, pending, queued, IdSet(Of(pending, client))) && PendingOk(items, pending) && Logged()
      requires Awaited(items, pending, {client})
      modifies `items, `pending, `txn, `halves
      ensures Valid()
      ensures Steady(old(items), items)
    {
      hide Awaited, TxnOk, Clocked, LiveLength, Slots, Spots;
      var moves := Of(pending, client);
      ghost var todo := IdSet(moves);
      StartPending(items, pending, queued, todo, client);
      PendingTaken(items, pending, client);
      AwaitedTaken(items, pending, client);
      pending := pending[client := []];
      assert todo + (set id | id in moves) == todo;
      SteadySelf(items);
      var i := 0;
      while i < |moves|
        invariant 0 <= i <= |moves| && PendingOk(items, pending) && Awaited(items, pending, {})
        invariant Inv(items, pending, queued, todo) && forall id :: id in todo ==> id in moves[i..]
        invariant forall k :: i <= k < |moves| ==> Listed(items, moves[k], client)
        invariant Steady(old(items), items) && Logged()
      {
        hide Inv, PendingOk, SameLive, Listed, Steady;
        ghost var before := items;
        assert moves[i..] == [moves[i]] + moves[i + 1..];
        HearMove(moves[i], client, todo, {});
        SteadyTrans(old(items), before, items);
        SteadyMoves(before, items);
        todo := todo - {moves[i]};
        forall k | i < k < |moves|
          ensures Listed(items, moves[k], client)
        {
          ListedKept(before, items, moves[k], client);
        }
        i := i + 1;
      }
      assert todo == {};
      if Of(pending, client) == [] {
        FinishPending(items, pending, queued, client);
        AwaitedDone(items, pending, client);
        pending := pending - {client};
      }
    }

    /** A new element arrives; moves that waited for it are heard. */
    method IntegrateElement(q: nat, x: Item)
      requires Valid() && q <= |items| && ItemOk(x) && x.movedBy.None? && x.content.Plain?
      requires x.id.clock >= Next(clocks, x.id.client)
      modifies `items, `pending, `clocks, `length, `txn, `halves
      ensures Valid() && forall y :: y in old(items) && y.content.Move? ==> y in items
      ensures forall id :: LiveUnit(items, id) <==> LiveUnit(old(items), id) || (!x.deleted && Covers(x, id))
      ensures Slots(items) == Slots(old(items)[..q]) + UnitIds(x.id, x.len) + Slots(old(items)[q..])
      ensures Spots(items) == Spots(old(items)[..q]) + SpotsOf(x) + Spots(old(items)[q..])
      ensures clocks == old(clocks)[x.id.client := x.id.clock + x.len]
    {
      hide Awaited, TxnOk, Clocked, LiveLength, Slots, Spots;
      ClockedApart(clocks, txn, items, x);
      InsertLive(items, q, x);
      InsertSlots(items, q, x);
      InsertSpots(items, q, x);
      InsertLog(clocks, length, txn, halves, items, start, q, x);
      InsertInv(items, pending, queued, {}, q, x);
      InsertKeeps(items, q, x);
      PendingKept(items, Inserted(items, q, x), pending);
      AwaitedInsert(items, pending, q, x);
      ghost var todo := {} + {x.id} + set id | id in Of(pending, x.id.client);
      items, clocks := Inserted(items, q, x), clocks[x.id.client := x.id.clock + x.len];
      if !x.deleted {
        length := length + x.len;
      }
      LookedAt(items, pending, queued, todo, q);
      InvMore(items, pending, queued, todo - {x.id}, IdSet(Of(pending, x.id.client)));
      ResolvePending(x.id.client);
    }

    /** A move arrives: it takes its target if it is there and nobody better has it, or waits for it. */
    method IntegrateMove(q: nat, m: Item)
      requires Valid() && q <= |items| && ItemOk(m) && m.content.Move? && m.movedBy.None?
      requires m.id.clock >= Next(clocks, m.id.client)
      requires TargetOk(items, m) && !Covers(m, m.content.target)
      requires forall i :: 0 <= i < |items| && items[i].content.Move? ==> !Covers(m, items[i].content.target)
      modifies `items, `pending, `clocks, `txn, `halves
      ensures Valid() && m in items && forall y :: y in old(items) && y.content.Move? ==> y in items
      ensures SameLive(old(items), items)
      ensures Slots(items) == Slots(old(items)[..q]) + UnitIds(m.id, m.len) + Slots(old(items)[q..])
      ensures Spots(items) == Spots(old(items)[..q]) + SpotsOf(m) + Spots(old(items)[q..])
      ensures clocks == old(clocks)[m.id.client := m.id.clock + m.len]
    {
      hide Awaited, TxnOk, Clocked, LiveLength, Slots, Spots;
      ClockedApart(clocks, txn, items, m);
      InsertLive(items, q, m);
      InsertSlots(items, q, m);
      InsertSpots(items, q, m);
      InsertLog(clocks, length, txn, halves, items, start, q, m);
      InsertInv(items, pending, queued, {}, q, m);
      InsertKeeps(items, q, m);
      PendingKept(items, Inserted(items, q, m), pending);
      AwaitedInsert(items, pending, q, m);
      ghost var todo := {} + {m.id} + set id | id in Of(pending, m.id.client);
      items, clocks := Inserted(items, q, m), clocks[m.id.client := m.id.clock + m.len];
      ghost var inserted := items;
      hide Inv, PendingOk, Steady, UnitIds;
      HearMove(m.id, m.content.target.client, todo, {m.id.client});
      InvMore(items, pending, queued, todo - {m.id}, IdSet(Of(pending, m.id.client)));
      ghost var heard := items;
      ResolvePending(m.id.client);
      SteadyTrans(inserted, heard, items);
      SteadyAll(inserted, items);
    }

    /** An element is deleted; moves are not concerned. */
    method DeleteElement(k: nat)
      requires Valid() && k < |items| && items[k].content.Plain?
      modifies `items, `length, `txn
      ensures Valid() && items == old(items)[k := old(items)[k].(deleted := true)]
    {
      hide Awaited, TxnOk, Clocked, LiveLength, Slots, Spots;
      if !items[k].deleted {
        DeleteElementInv(items, pending, queued, k);
        AwaitedShape(items, items[k := items[k].(deleted := true)], pending, {});
        DeleteLog(clocks, length, txn, halves, items, start, k);
        length := length - items[k].len;
        txn := Recorded(txn, items[k]);
        items := items[k := items[k].(deleted := true)];
      }
    }

    /** A move is deleted; a target it had won is released until the commit. */
    method DeleteMove(k: nat)
      requires Valid() && k < |items| && items[k].content.Move?
      modifies `items, `queued, `txn
      ensures Valid() && |items| == |old(items)|
      ensures forall i :: 0 <= i < |items| ==> items[i] == Released(old(items)[i], i == k, old(items)[k].id)
      ensures forall id :: id in queued <==> id in old(queued) || HadMover(old(items), id, old(items)[k].id)
    {
      hide Awaited, TxnOk, Clocked, LiveLength, Slots, Spots, Inv, PendingOk, Present, ListOk;
      if items[k].deleted {
        NoTarget(items, pending, queued, k);
        return;
      }
      var j := FindCover(items, items[k].content.target);
      DeleteMoveInv(items, pending, queued, k, j);
      forall i | 0 <= i < |items| && items[i].movedBy == Some(items[k].id)
        ensures i == j && items[j].content.Plain? && items[j].len == 1
      {
        MoverTarget(items, pending, queued, k, j, i);
        MovedOk(items, pending, queued, i);
      }
      InvListOk(items, pending, queued, {});
      DeleteLog(clocks, length, txn, halves, items, start, k);
      AwaitedShape(items, items[k := items[k].(deleted := true)], pending, {});
      var m := items[k];
      txn := Recorded(txn, m);
      items := items[k := m.(deleted := true)];
      if j >= 0 && items[j].movedBy == Some(m.id) {
        queued := queued + {items[j].id};
        AwaitedShape(items, items[j := items[j].(movedBy := None)], pending, {});
        SetMovedBy(j, None);
      }
    }

    /** The commit: every released target goes to the best of its live moves. */
    method Commit()
      requires Valid()
      modifies `items, `queued, `txn
      ensures Valid() && queued == {} && Settled(items) && length == |All(items)|
      ensures SameShape(old(items), items) && forall i :: 0 <= i < |items| ==> items[i].deleted == old(items)[i].deleted
    {
      hide Awaited, TxnOk, Clocked, LiveLength, Slots, Spots;
      ReleaseAll();
      var k := 0;
      while k < |items|
        invariant 0 <= k <= |items| && Valid() && queued == old(queued)
        invariant SameShape(old(items), items) && forall i :: 0 <= i < |items| ==>
                    items[i].deleted == old(items)[i].deleted
        invariant forall i :: 0 <= i < k ==> HeardOk(items, pending, items[i])
      {
        k := CommitStep(k);
      }
      CommitInv(items, pending, queued);
      queued := {};
      InvSettles(items, pending);
      RenderedLengthIsLength(items);
    }

    /** The end of a transaction: halves that are still in the same state are merged again. */
    method MergeHalves()
      requires Valid() && queued == {}
      modifies `items, `halves
      ensures Valid() && Settled(items) && halves == [] && length == |All(items)|
      ensures All(items) == All(old(items)) && Slots(items) == Slots(old(items)) && SameLive(old(items), items)
      ensures Spots(items) == Spots(old(items))
      ensures forall h :: h in old(halves) ==> Parted(items, h)
    {
      hide Awaited, TxnOk, Clocked, LiveLength, Slots, Spots, Steady, Parted, Inv, PendingOk, Rendered, Settled;
      var i := 0;
      SteadySelf(items);
      while i < |halves|
        invariant 0 <= i <= |halves| && Valid() && halves == old(halves)
        invariant forall k :: 0 <= k < i ==> Parted(items, halves[k])
        invariant All(items) == All(old(items)) && Steady(old(items), items)
      {
        ghost var before := items;
        MergeHalf(halves[i]);
        SteadyTrans(old(items), before, items);
        i := i + 1;
      }
      NoHalves(txn, halves, items, start);
      halves := [];
      SteadyAll(old(items), items);
      InvSettles(items, pending);
      RenderedLengthIsLength(items);
    }

    /** Merges a half with the item before it, if the two are in the same state and neither is moved. */
    method MergeHalf(h: Id)
      requires Valid() && queued == {} && h in halves
      modifies `items
      ensures Valid() && All(items) == All(old(items)) && Steady(old(items), items)
      ensures Parted(items, h) && forall g :: Parted(old(items), g) ==> Parted(items, g)
    {
      hide Awaited, Parted, TxnOk, Clocked, LiveLength, Slots, Spots, Steady, PendingOk, All, ListOk, Continues;
      SteadySelf(items);
      var p := FindItem(items, h);
      PartedUnless(items, pending, p, h);
      if p > 0 && Continues(items[p - 1], items[p]) {
        MergeInv(items, pending, p);
        MergeSteady(items, p);
        SteadyMoves(items, Merged(items, p));
        PendingKept(items, Merged(items, p), pending);
        MergeAll(items, p);
        SteadyLog(items, Merged(items, p), clocks, txn);
        TxnMerge(txn, halves, items, start, p);
        MergedParts(items, pending, p);
        AwaitedSteady(items, Merged(items, p), pending, {});
        items := Merged(items, p);
      }
    }

    /** Takes every released target back to its own place. */
    method ReleaseAll()
      requires Valid()
      modifies `items, `txn
      ensures Valid()
      ensures SameShape(old(items), items) && forall i :: 0 <= i < |items| ==> items[i].deleted == old(items)[i].deleted
    {
      hide Awaited, TxnOk, Clocked, LiveLength, Slots, Spots;
      var j := 0;
      while j < |items|
        invariant 0 <= j <= |items| && Valid()
        invariant SameShape(old(items), items) && forall i :: 0 <= i < |items| ==>
                    items[i].deleted == old(items)[i].deleted
      {
        if items[j].id in queued && items[j].content.Plain? && items[j].len == 1 {
          ReleaseInv(items, pending, queued, j);
          AwaitedShape(items, items[j := items[j].(movedBy := None)], pending, {});
          SetMovedBy(j, None);
        }
        j := j + 1;
      }
    }

    /** Lets the item at `k` claim its target if it is a live move of a released one. */
    method CommitStep(k: nat) returns (k': nat)
      requires Valid() && k < |items| && forall i :: 0 <= i < k ==> HeardOk(items, pending, items[i])
      modifies `items, `txn
      ensures k' == k + 1 && Valid()
      ensures SameShape(old(items), items) && forall i :: 0 <= i < |items| ==> items[i].deleted == old(items)[i].deleted
      ensures forall i :: 0 <= i < k' ==> HeardOk(items, pending, items[i])
    {
      hide Awaited, TxnOk, Clocked, LiveLength, Slots, Spots, PendingOk, ListOk, HeardOk;
      k' := k + 1;
      var m := items[k];
      if !m.content.Move? || m.deleted {
        NotAMove(items, pending, m);
        return;
      }
      var j := FindCover(items, m.content.target);
      if j < 0 || items[j].id !in queued {
        NotQueued(items, pending, queued, k, j);
        return;
      }
      Exact(items, pending, queued, k, j);
      Reclaim(j, k);
    }

    /** The move at `k` takes its released target unless a better one has it by now. */
    method Reclaim(j: nat, k: nat)
      requires Valid() && k < |items| && forall i :: 0 <= i < k ==> HeardOk(items, pending, items[i])
      requires j < |items| && items[j].content.Plain? && items[j].len == 1
      requires Claims(items[k], items[j].id) && Held(items, items[j].id, items[k].id)
      modifies `items, `txn
      ensures Valid() && forall i :: 0 <= i < |items| && i <= k ==> HeardOk(items, pending, items[i])
      ensures SameShape(old(items), items) && forall i :: 0 <= i < |items| ==> items[i].deleted == old(items)[i].deleted
    {
      hide Awaited, TxnOk, Clocked, LiveLength, Slots, Spots, PendingOk, ListOk, HeardOk;
      InvListOk(items, pending, queued, {});
      hide Inv;
      var m := items[k].id;
      if Beats(m, items[j].movedBy) {
        TakeTarget(items, pending, queued, {}, j, m);
        HeardKept(items, pending, j, m, k);
        TakePending(items, pending, j, m);
        AwaitedShape(items, items[j := items[j].(movedBy := Some(m))], pending, {});
        SetMovedBy(j, Some(m));
      } else {
        BetterIsTotal(m, items[j].movedBy.value);
      }
      AnsweredIsHeard(items, pending, j, k);
    }
  }

  lemma MovedOk(items: seq<Item>, pending: Pending, queued: set<Id>, i: nat)
    requires Inv(items, pending, queued, {}) && i < |items| && items[i].movedBy.Some?
    ensures items[i].content.Plain? && items[i].len == 1
  {
    assert ItemOk(items[i]);
  }

  lemma NotAMove(items: seq<Item>, pending: Pending, m: Item)
    requires !m.content.Move? || m.deleted
    ensures HeardOk(items, pending, m)
  {
  }

  lemma ListedItem(items: seq<Item>, pending: Pending, queued: set<Id>, todo: set<Id>, id: Id, client: nat, k: int)
    requires Inv(items, pending, queued, todo) && Listed(items, id, client)
    requires if k < 0 then forall i :: 0 <= i < |items| ==> items[i].id != id else k < |items| && items[k].id == id
    ensures 0 <= k < |items| && items[k].content.Move? && items[k].content.target.client == client
    ensures TargetOk(items, items[k])
  {
    var at :| 0 <= at < |items| && items[at].id == id && items[at].content.Move?
              && items[at].content.target.client == client;
    SameIdSameItem(items, k, at);
  }

  lemma InvListOk(items: seq<Item>, pending: Pending, queued: set<Id>, todo: set<Id>)
    requires Inv(items, pending, queued, todo)
    ensures ListOk(items)
  {
  }

  lemma AnsweredIsHeard(items: seq<Item>, pending: Pending, j: nat, k: nat)
    requires j < |items| && k < |items| && AnsweredBy(items[j], items[k], {})
    ensures HeardOk(items, pending, items[k])
  {
  }

  // ------------------------------------------------------------- what a step leaves alone

  lemma {:induction false} SlotsPresent(items: seq<Item>, u: Id)
    ensures u in Slots(items) <==> Present(items, u)
    decreases |items|
  {
    if items != [] {
      SlotsPresent(items[1..], u);
      UnitIdsCover(items[0], u);
      if Present(items, u) {
        var j :| 0 <= j < |items| && Covers(items[j], u);
        assert j > 0 ==> Covers(items[1..][j - 1], u);
      }
      if Present(items[1..], u) {
        var j :| 0 <= j < |items[1..]| && Covers(items[1..][j], u);
        assert Covers(items[j + 1], u);
      }
    }
  }

  lemma BeginOk(clocks: map<nat, nat>, txn: Txn, items: seq<Item>, pending: Pending, queued: set<Id>)
    requires Inv(items, pending, queued, {}) && Clocked(clocks, txn, items)
    ensures TxnOk(Txn(clocks, {}, map[]), [], items, items) && Clocked(clocks, Txn(clocks, {}, map[]), items)
  {
    var txn' := Txn(clocks, {}, map[]);
    forall i, u | 0 <= i < |items| && Covers(items[i], u)
      ensures Old(txn', u)
    {
      SlotsPresent(items, u);
    }
    TxnBegin(clocks, items);
  }

  lemma SteadyLog(items: seq<Item>, items': seq<Item>, clocks: map<nat, nat>, txn: Txn)
    requires ListOk(items) && ListOk(items') && Steady(items, items') && Clocked(clocks, txn, items)
    ensures Clocked(clocks, txn, items') && LiveLength(items') == LiveLength(items)
  {
    forall id
      ensures id in LiveSet(items) <==> id in LiveSet(items')
    {
      LiveSetIs(items, id);
      LiveSetIs(items', id);
    }
    assert LiveSet(items) == LiveSet(items');
    LiveSetSize(items, |items|);
    LiveSetSize(items', |items'|);
    assert items[..|items|] == items && items'[..|items'|] == items';
  }

  lemma RemarkSteady(items: seq<Item>, j: nat, w: Option<Id>)
    requires j < |items| && items[j].content.Plain?
    ensures Steady(items, items[j := items[j].(movedBy := w)])
  {
    var items' := items[j := items[j].(movedBy := w)];
    ShapeLive(items, items');
    ShapeSlots(items, items');
    SameSpots(items, items');
    hide Slots, Spots;
    forall x | x in items && x.content.Move?
      ensures x in items'
    {
      var i :| 0 <= i < |items| && items[i] == x;
      assert items'[i] == x;
    }
  }

  /** A new item has units nobody has. */
  lemma ClockedApart(clocks: map<nat, nat>, txn: Txn, items: seq<Item>, x: Item)
    requires ListOk(items) && Clocked(clocks, txn, items) && x.id.clock >= Next(clocks, x.id.client)
    ensures !WasThere(txn, x) && forall i :: 0 <= i < |items| ==> Apart(items[i], x)
  {
    forall i | 0 <= i < |items|
      ensures Apart(items[i], x)
    {
      assert ItemOk(items[i]);
      var last := Id(items[i].id.client, items[i].id.clock + items[i].len - 1);
      assert Covers(items[i], last);
      SlotsPresent(items, last);
    }
  }

  function Counted(x: Item): nat {
    if x.content.Plain? && !x.deleted then x.len else 0
  }

  lemma {:induction false} LiveLengthConcat(a: seq<Item>, b: seq<Item>)
    ensures LiveLength(a + b) == LiveLength(a) + LiveLength(b)
    decreases |b|
  {
    if b == [] {
      assert a + b == a;
    } else {
      LiveLengthConcat(a, b[..|b| - 1]);
      assert (a + b)[..|a + b| - 1] == a + b[..|b| - 1];
    }
  }

  lemma LiveLengthOne(x: Item)
    ensures LiveLength([x]) == Counted(x)
  {
    assert LiveLength([]) == 0;
  }

  /** A new item: its units are added to the clocks and to the length. */
  lemma InsertLog(clocks: map<nat, nat>, length: nat, txn: Txn, halves: seq<Id>, items: seq<Item>, start: seq<Item>,
                  q: nat, x: Item)
    requires TxnOk(txn, halves, items, start) && Clocked(clocks, txn, items) && length == LiveLength(items)
    requires q <= |items| && x.id.clock >= Next(clocks, x.id.client) && !WasThere(txn, x)
    ensures TxnOk(txn, halves, Inserted(items, q, x), start)
    ensures Clocked(clocks[x.id.client := x.id.clock + x.len], txn, Inserted(items, q, x))
    ensures LiveLength(Inserted(items, q, x)) == length + Counted(x)
  {
    hide TxnOk, LiveLength, Slots, Spots;
    TxnInsert(txn, halves, items, start, q, x);
    InsertSlots(items, q, x);
    assert items == items[..q] + items[q..];
    SlotsConcat(items[..q], items[q..]);
    LiveLengthConcat(items[..q] + [x], items[q..]);
    LiveLengthConcat(items[..q], [x]);
    LiveLengthConcat(items[..q], items[q..]);
    LiveLengthOne(x);
  }

  /** A deleted item: its units are recorded and taken off the length. */
  lemma DeleteLog(clocks: map<nat, nat>, length: nat, txn: Txn, halves: seq<Id>, items: seq<Item>, start: seq<Item>,
                  k: nat)
    requires TxnOk(txn, halves, items, start) && Clocked(clocks, txn, items) && length == LiveLength(items)
    requires ListOk(items)
    requires k < |items| && !items[k].deleted
    ensures var items' := items[k := items[k].(deleted := true)];
            && TxnOk(Recorded(txn, items[k]), halves, items', start) && Clocked(clocks, Recorded(txn, items[k]), items')
            && LiveLength(items') == length - Counted(items[k]) && ListOk(items')
  {
    hide TxnOk, LiveLength, Slots, Spots;
    var items', x := items[k := items[k].(deleted := true)], items[k];
    TxnDelete(txn, halves, items, start, k);
    ShapeSlots(items, items');
    assert items == items[..k] + [x] + items[k + 1..];
    assert items' == items[..k] + [x.(deleted := true)] + items[k + 1..];
    LiveLengthConcat(items[..k] + [x], items[k + 1..]);
    LiveLengthConcat(items[..k], [x]);
    LiveLengthConcat(items[..k] + [x.(deleted := true)], items[k + 1..]);
    LiveLengthConcat(items[..k], [x.(deleted := true)]);
    LiveLengthOne(x);
    LiveLengthOne(x.(deleted := true));
    assert forall i, j :: 0 <= i < j < |items| ==> Apart(items[i], items[j]);
  }

  lemma NoHalves(txn: Txn, halves: seq<Id>, items: seq<Item>, start: seq<Item>)
    requires TxnOk(txn, halves, items, start)
    ensures TxnOk(txn, [], items, start)
  {
  }

  /** A dead move has no target. */
  lemma NoTarget(items: seq<Item>, pending: Pending, queued: set<Id>, k: nat)
    requires Inv(items, pending, queued, {}) && k < |items| && items[k].deleted
    ensures forall i :: 0 <= i < |items| ==> items[i].movedBy != Some(items[k].id)
  {
    forall i | 0 <= i < |items|
      ensures items[i].movedBy != Some(items[k].id)
    {
      assert MoverOk(items, items[i]);
      if items[i].movedBy == Some(items[k].id) {
        var h :| 0 <= h < |items| && items[h].id == items[k].id && Claims(items[h], items[i].id);
        SameIdSameItem(items, h, k);
      }
    }
  }

  lemma MergedAt(items: seq<Item>, p: nat, i: nat)
    requires 0 < p < |items| && i < |items| && i != p - 1 && i != p
    ensures Merged(items, p)[if i < p then i else i - 1] == items[i] && |Merged(items, p)| == |items| - 1
  {
  }

  /** Two items that are merged are not moved, so no move has either for its target. */
  lemma MergeItemOk(items: seq<Item>, pending: Pending, p: nat, x: Item)
    requires ListOk(items) && 0 < p < |items| && Continues(items[p - 1], items[p])
    requires MoverOk(items, x) && MoveOk(items, pending, {}, {}, x) && TargetOk(items, x)
    ensures MoverOk(Merged(items, p), x) && MoveOk(Merged(items, p), pending, {}, {}, x)
    ensures TargetOk(Merged(items, p), x)
  {
    var whole := Merged(items, p);
    if x.movedBy.Some? {
      var k :| 0 <= k < |items| && items[k].id == x.movedBy.value && Claims(items[k], x.id);
      MergedAt(items, p, k);
    }
    if x.content.Move? {
      forall j | 0 <= j < |whole| && Covers(whole[j], x.content.target)
        ensures Present(items, x.content.target) && whole[j].content.Plain?
      {
        var i := if j < p - 1 then j else if j >= p then j + 1
                 else if Covers(items[p], x.content.target) then p else p - 1;
        if j != p - 1 { MergedAt(items, p, i); }
        assert Covers(items[i], x.content.target);
      }
      if Answered(items, x, {}) {
        var j :| 0 <= j < |items| && AnsweredBy(items[j], x, {});
        MergedAt(items, p, j);
      }
    }
  }

  lemma MergeInv(items: seq<Item>, pending: Pending, p: nat)
    requires Inv(items, pending, {}, {}) && 0 < p < |items| && Continues(items[p - 1], items[p])
    ensures Inv(Merged(items, p), pending, {}, {})
  {
    var whole := Merged(items, p);
    MergeKeeps(items, p);
    forall k | 0 <= k < |whole|
      ensures MoverOk(whole, whole[k]) && MoveOk(whole, pending, {}, {}, whole[k]) && TargetOk(whole, whole[k])
    {
      if k != p - 1 {
        var i := if k < p - 1 then k else k + 1;
        MergedAt(items, p, i);
        assert MoverOk(items, items[i]) && MoveOk(items, pending, {}, {}, items[i]) && TargetOk(items, items[i]);
        MergeItemOk(items, pending, p, items[i]);
      }
    }
  }

  lemma MergeSteady(items: seq<Item>, p: nat)
    requires ListOk(items) && 0 < p < |items| && Continues(items[p - 1], items[p])
    ensures Steady(items, Merged(items, p))
  {
    var whole := Merged(items, p);
    assert ItemOk(items[p - 1]) && ItemOk(items[p]);
    SplitOfMerged(items, p);
    SplitSteady(whole, p - 1, items[p - 1].len);
    forall m | m in items && m.content.Move?
      ensures m in whole
    {
      var k :| 0 <= k < |items| && items[k] == m;
      MergedAt(items, p, k);
    }
  }

  /** The item that starts at `h` does not continue the one before it. */
  ghost predicate Parted(items: seq<Item>, h: Id) {
    forall p {:trigger items[p]} :: 0 < p < |items| && items[p].id == h ==> !Continues(items[p - 1], items[p])
  }

  lemma PartedUnless(items: seq<Item>, pending: Pending, p: int, h: Id)
    requires Inv(items, pending, {}, {}) && p < |items|
    requires if p < 0 then forall i :: 0 <= i < |items| ==> items[i].id != h else items[p].id == h
    ensures !(p > 0 && Continues(items[p - 1], items[p])) ==> Parted(items, h)
  {
    forall q | 0 < q < |items| && items[q].id == h
      ensures q == p
    {
      SameIdSameItem(items, p, q);
    }
  }

  /** A merge leaves no item at its place, and cuts and joins nothing elsewhere. */
  lemma MergedParts(items: seq<Item>, pending: Pending, p: nat)
    requires Inv(items, pending, {}, {}) && 0 < p < |items| && Continues(items[p - 1], items[p])
    ensures Parted(Merged(items, p), items[p].id)
    ensures forall g :: Parted(items, g) ==> Parted(Merged(items, p), g)
  {
    hide Inv, Continues, Merged;
    var whole := Merged(items, p);
    forall q {:trigger whole[q]} | 0 < q < |whole| && Continues(whole[q - 1], whole[q])
      ensures whole[q].id != items[p].id && !Parted(items, whole[q].id)
    {
      MergedPair(items, pending, p, q);
    }
  }

  lemma MergedPair(items: seq<Item>, pending: Pending, p: nat, q: nat)
    requires Inv(items, pending, {}, {}) && 0 < p < |items| && Continues(items[p - 1], items[p])
    requires 0 < q < |Merged(items, p)| && Continues(Merged(items, p)[q - 1], Merged(items, p)[q])
    ensures Merged(items, p)[q].id != items[p].id && !Parted(items, Merged(items, p)[q].id)
  {
    var q' := if q < p then q else q + 1;
    PairIs(items, p, q);
    DistinctIds(items, pending, p, q');
  }

  lemma PairIs(items: seq<Item>, p: nat, q: nat)
    requires 0 < p < |items| && Continues(items[p - 1], items[p])
    requires 0 < q < |Merged(items, p)| && Continues(Merged(items, p)[q - 1], Merged(items, p)[q])
    ensures var q' := if q < p then q else q + 1;
            && 0 < q' < |items| && q' != p && items[q'].id == Merged(items, p)[q].id
            && Continues(items[q' - 1], items[q'])
  {
  }

  lemma DistinctIds(items: seq<Item>, pending: Pending, p: nat, q: nat)
    requires Inv(items, pending, {}, {}) && p < |items| && q < |items| && p != q
    ensures items[p].id != items[q].id
  {
    assert ItemOk(items[p]) && ItemOk(items[q]);
    if p < q { assert Apart(items[p], items[q]); } else { assert Apart(items[q], items[p]); }
  }

  lemma MergeAll(items: seq<Item>, p: nat)
    requires ListOk(items) && 0 < p < |items| && Continues(items[p - 1], items[p])
    ensures ListOk(Merged(items, p)) && All(Merged(items, p)) == All(items)
  {
    MergeKeeps(items, p);
  }

  /** An item after the deletion of a move: the move is dead, and what it had won is free. */
  function Released(x: Item, isMove: bool, move: Id): Item {
    var y := if isMove then x.(deleted := true) else x;
    if y.movedBy == Some(move) then y.(movedBy := None) else y
  }

  predicate HadMover(items: seq<Item>, id: Id, move: Id) {
    exists i :: 0 <= i < |items| && items[i].id == id && items[i].movedBy == Some(move)
  }

  lemma MoverTarget(items: seq<Item>, pending: Pending, queued: set<Id>, k: nat, j: int, i: nat)
    requires Inv(items, pending, queued, {}) && k < |items| && items[k].content.Move? && i < |items| && j < |items|
    requires if j < 0 then !Present(items, items[k].content.target) else Covers(items[j], items[k].content.target)
    requires items[i].movedBy == Some(items[k].id)
    ensures i == j
  {
    assert MoverOk(items, items[i]);
    var h :| 0 <= h < |items| && items[h].id == items[k].id && Claims(items[h], items[i].id);
    SameIdSameItem(items, h, k);
    OnlyTarget(items, k, j, i, h);
  }

  method FindCover(items: seq<Item>, id: Id) returns (j: int)
    ensures j < 0 ==> !Present(items, id)
    ensures j >= 0 ==> j < |items| && Covers(items[j], id)
  {
    j := 0;
    while j < |items| && !Covers(items[j], id)
      invariant 0 <= j <= |items| && forall i :: 0 <= i < j ==> !Covers(items[i], id)
    {
      j := j + 1;
    }
    if j == |items| {
      j := -1;
    }
  }

  /** A live move has been heard for good, or waits. */
  ghost predicate HeardOk(items: seq<Item>, pending: Pending, m: Item) {
    MoveOk(items, pending, {}, {}, m)
  }

  lemma InvMore(items: seq<Item>, pending: Pending, queued: set<Id>, todo: set<Id>, more: set<Id>)
    requires Inv(items, pending, queued, todo) && todo <= more
    ensures Inv(items, pending, queued, more)
  {
    forall k | 0 <= k < |items|
      ensures MoveOk(items, pending, queued, more, items[k])
    {
      assert MoveOk(items, pending, queued, todo, items[k]);
    }
  }

  lemma InsertKeeps(items: seq<Item>, q: nat, x: Item)
    requires q <= |items|
    ensures Inserted(items, q, x)[q] == x && x in Inserted(items, q, x)
    ensures forall y :: y in items ==> y in Inserted(items, q, x)
  {
    assert Inserted(items, q, x)[q] == x;
    forall y | y in items
      ensures y in Inserted(items, q, x)
    {
      var k :| 0 <= k < |items| && items[k] == y;
      InsertedAt(items, q, x, k);
    }
  }

  ghost function IdSet(s: seq<Id>): set<Id> {
    set id | id in s
  }

  lemma ListedKept(items: seq<Item>, items': seq<Item>, id: Id, c: nat)
    requires Listed(items, id, c) && forall m :: m in items && m.content.Move? ==> m in items'
    ensures Listed(items', id, c)
  {
    var k :| 0 <= k < |items| && items[k].id == id && items[k].content.Move? && items[k].content.target.client == c;
    assert items[k] in items';
  }

  lemma PendingTaken(items: seq<Item>, pending: Pending, client: nat)
    requires PendingOk(items, pending)
    ensures PendingOk(items, pending[client := []])
    ensures forall k :: 0 <= k < |Of(pending, client)| ==> Listed(items, Of(pending, client)[k], client)
  {
    var pending' := pending[client := []];
    forall c, i | 0 <= i < |Of(pending', c)|
      ensures Listed(items, Of(pending', c)[i], c)
    {
      assert Of(pending', c) == Of(pending, c);
    }
  }

  lemma SplitMoves(items: seq<Item>, p: nat, n: nat)
    requires p < |items| && 0 < n < items[p].len && items[p].content.Plain?
    ensures forall m :: m in items && m.content.Move? ==> m in SplitOf(items, p, n)
    ensures var items' := SplitOf(items, p, n);
            items'[p] == items[p].(len := n) && items'[p + 1].id == Id(items[p].id.client, items[p].id.clock + n)
            && items'[p + 1].len == items[p].len - n && items'[p + 1].content == items[p].content
  {
    var items' := SplitOf(items, p, n);
    forall m | m in items && m.content.Move?
      ensures m in items'
    {
      var i :| 0 <= i < |items| && items[i] == m;
      assert items'[After(i, p)] == m;
    }
  }

  /** Only movers of queued targets changed, and only moves and elements were deleted. */
  lemma Reshape(items: seq<Item>, items': seq<Item>, pending: Pending, queued: set<Id>, queued': set<Id>)
    requires Inv(items, pending, queued, {}) && PendingOk(items, pending) && SameShape(items, items') && ListOk(items')
    requires queued <= queued' && forall k :: 0 <= k < |items'| ==> MoverOk(items', items'[k])
    requires forall k :: 0 <= k < |items'| && items[k].deleted ==> items'[k].deleted
    requires forall k :: 0 <= k < |items'| ==> items'[k].movedBy == items[k].movedBy || items'[k].id in queued'
    ensures Inv(items', pending, queued', {}) && PendingOk(items', pending)
  {
    forall i | 0 <= i < |items'|
      ensures MoveOk(items', pending, queued', {}, items'[i]) && TargetOk(items', items'[i])
    {
      var y := items[i];
      assert MoveOk(items, pending, queued, {}, y) && TargetOk(items, y);
      if y.content.Move? {
        PresentSame(items, items', y.content.target);
        RemarkTargetOk(items, items', y);
        if !items'[i].deleted && Answered(items, y, queued) {
          var j :| 0 <= j < |items| && AnsweredBy(items[j], y, queued);
          assert AnsweredBy(items'[j], items'[i], queued');
        }
      }
    }
    forall c, i | 0 <= i < |Of(pending, c)|
      ensures Listed(items', Of(pending, c)[i], c)
    {
      assert Listed(items, Of(pending, c)[i], c);
      var k :| 0 <= k < |items|
          && items[k].id == Of(pending, c)[i] && items[k].content.Move? && items[k].content.target.client == c;
      assert items'[k].id == items[k].id && items'[k].content == items[k].content;
    }
  }

  lemma DeleteElementInv(items: seq<Item>, pending: Pending, queued: set<Id>, k: nat)
    requires Inv(items, pending, queued, {}) && PendingOk(items, pending) && k < |items| && items[k].content.Plain?
    ensures Inv(items[k := items[k].(deleted := true)], pending, queued, {})
    ensures PendingOk(items[k := items[k].(deleted := true)], pending)
  {
    var items' := items[k := items[k].(deleted := true)];
    DeleteListOk(items, k);
    forall i | 0 <= i < |items'|
      ensures MoverOk(items', items'[i])
    {
      assert MoverOk(items, items[i]);
      if items[i].movedBy.Some? {
        var h :| 0 <= h < |items| && items[h].id == items[i].movedBy.value && Claims(items[h], items[i].id);
        assert items'[h] == items[h];
      }
    }
    Reshape(items, items', pending, queued, queued);
  }

  /** Only the target of a move can have it as its mover. */
  lemma OnlyTarget(items: seq<Item>, k: nat, j: int, i: nat, h: nat)
    requires ListOk(items) && k < |items| && items[k].content.Move? && i < |items| && h < |items| && j < |items|
    requires if j < 0 then !Present(items, items[k].content.target) else Covers(items[j], items[k].content.target)
    requires items[i].movedBy == Some(items[h].id) && Claims(items[h], items[i].id)
    ensures h == k ==> j == i
  {
    var y := items[i];
    assert ItemOk(y) && Covers(y, y.id);
    if h == k {
      assert Present(items, y.id);
      TargetUnique(items, i, j, y.id);
    }
  }

  lemma DeleteMoveInv(items: seq<Item>, pending: Pending, queued: set<Id>, k: nat, j: int)
    requires Inv(items, pending, queued, {}) && PendingOk(items, pending) && k < |items| && items[k].content.Move?
    requires j < |items|
    requires (if j < 0 then !Present(items, items[k].content.target) else Covers(items[j], items[k].content.target))
    ensures var m := items[k];
            var items1 := items[k := m.(deleted := true)];
            if j >= 0 && items1[j].movedBy == Some(m.id) then
              var items2 := items1[j := items1[j].(movedBy := None)];
              Inv(items2, pending, queued + {items1[j].id}, {}) && PendingOk(items2, pending)
            else Inv(items1, pending, queued, {}) && PendingOk(items1, pending)
  {
    var m := items[k];
    var items1 := items[k := m.(deleted := true)];
    var won := j >= 0 && items1[j].movedBy == Some(m.id);
    var items2 := if won then items1[j := items1[j].(movedBy := None)] else items1;
    DeleteListOk(items, k);
    if won {
      assert ItemOk(items1[j]);
      RemarkListOk(items1, j, None);
    }
    forall i | 0 <= i < |items2|
      ensures MoverOk(items2, items2[i])
    {
      var y := items[i];
      assert MoverOk(items, y) && ItemOk(y);
      if y.movedBy.Some? && !(won && i == j) {
        var h :| 0 <= h < |items| && items[h].id == y.movedBy.value && Claims(items[h], y.id);
        OnlyTarget(items, k, j, i, h);
        assert items2[h].id == items[h].id && Claims(items2[h], y.id);
      }
    }
    Reshape(items, items2, pending, queued, if won then queued + {items1[j].id} else queued);
  }

  lemma ReleaseInv(items: seq<Item>, pending: Pending, queued: set<Id>, j: nat)
    requires Inv(items, pending, queued, {}) && PendingOk(items, pending)
    requires j < |items| && items[j].id in queued && items[j].content.Plain? && items[j].len == 1
    ensures var items' := items[j := items[j].(movedBy := None)];
            Inv(items', pending, queued, {}) && PendingOk(items', pending)
  {
    var items' := items[j := items[j].(movedBy := None)];
    RemarkListOk(items, j, None);
    HeldRemark(items, j, None);
    forall i | 0 <= i < |items'|
      ensures MoverOk(items', items'[i])
    {
      assert MoverOk(items, items[i]);
    }
    Reshape(items, items', pending, queued, queued);
  }

  /** A live move whose target is not released has been heard. */
  lemma NotQueued(items: seq<Item>, pending: Pending, queued: set<Id>, k: nat, j: int)
    requires Inv(items, pending, queued, {}) && k < |items| && items[k].content.Move? && !items[k].deleted
    requires j < |items|
    requires if j < 0 then !Present(items, items[k].content.target)
             else Covers(items[j], items[k].content.target) && items[j].id !in queued
    ensures HeardOk(items, pending, items[k])
  {
    var m := items[k];
    assert MoveOk(items, pending, queued, {}, m);
    if Answered(items, m, queued) {
      var i :| 0 <= i < |items| && AnsweredBy(items[i], m, queued);
      assert Covers(items[i], m.content.target) && Present(items, m.content.target);
      TargetUnique(items, i, j, m.content.target);
      assert AnsweredBy(items[i], m, {});
    }
  }

  /** A released target of a live move is one unit wide. */
  lemma Exact(items: seq<Item>, pending: Pending, queued: set<Id>, k: nat, j: nat)
    requires Inv(items, pending, queued, {}) && k < |items| && items[k].content.Move? && !items[k].deleted
    requires j < |items| && Covers(items[j], items[k].content.target)
    ensures items[j].id == items[k].content.target && items[j].len == 1 && items[j].content.Plain?
    ensures Held(items, items[j].id, items[k].id)
  {
    var m := items[k];
    assert MoveOk(items, pending, queued, {}, m);
    assert Present(items, m.content.target);
    var i :| 0 <= i < |items| && AnsweredBy(items[i], m, queued);
    TargetUnique(items, i, j, m.content.target);
    assert Claims(items[k], items[j].id);
  }

  lemma HeardKept(items: seq<Item>, pending: Pending, j: nat, w: Id, k: nat)
    requires j < |items| && items[j].content.Plain? && items[j].len == 1 && Beats(w, items[j].movedBy) && k <= |items|
    requires forall i :: 0 <= i < k ==> HeardOk(items, pending, items[i])
    ensures var items' := items[j := items[j].(movedBy := Some(w))];
            forall i :: 0 <= i < k ==> HeardOk(items', pending, items'[i])
  {
    var items' := items[j := items[j].(movedBy := Some(w))];
    forall i | 0 <= i < k
      ensures HeardOk(items', pending, items'[i])
    {
      assert HeardOk(items, pending, items[i]);
      RemarkMoveOk(items, pending, {}, {}, j, w, items[i]);
    }
  }

  lemma TakePending(items: seq<Item>, pending: Pending, j: nat, w: Id)
    requires PendingOk(items, pending) && j < |items| && items[j].content.Plain?
    ensures PendingOk(items[j := items[j].(movedBy := Some(w))], pending)
  {
    var items' := items[j := items[j].(movedBy := Some(w))];
    forall m | m in items && m.content.Move?
      ensures m in items'
    {
      var i :| 0 <= i < |items| && items[i] == m;
      assert items'[i] == m;
    }
    PendingKept(items, items', pending);
  }

  lemma CommitInv(items: seq<Item>, pending: Pending, queued: set<Id>)
    requires Inv(items, pending, queued, {}) && forall i :: 0 <= i < |items| ==> HeardOk(items, pending, items[i])
    ensures Inv(items, pending, {}, {})
  {
    forall i | 0 <= i < |items|
      ensures MoveOk(items, pending, {}, {}, items[i])
    {
      assert HeardOk(items, pending, items[i]);
    }
  }
}
