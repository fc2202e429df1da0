/**
  Positions in a list type.  An item occupies as many rendered positions as it shows
  units.  Search markers remember where some items start, so that a lookup need not
  walk from the head; every lookup gives what the walk from the head gives.
*/
module SearchMarkers {
  import opened Base
  import opened Faces
  import opened ListItems

  /** The live item `t` is shown by the move `m`. */
  predicate ShownBy(t: Item, m: Item) {
    m.content.Move? && Covers(t, m.content.target) && !t.deleted && t.movedBy == Some(m.id)
  }

  predicate Wins(items: seq<Item>, m: Item) {
    exists j :: 0 <= j < |items| && ShownBy(items[j], m)
  }

  /** The rendered positions of an item. */
  function Width(items: seq<Item>, x: Item): nat {
    if x.deleted then 0
    else match x.content
      case Move(_) => if Wins(items, x) then 1 else 0
      case Mark => 0
      case Plain => if x.movedBy.Some? then 0 else x.len
  }

  function Widths(items: seq<Item>): (ws: seq<nat>)
    ensures |ws| == |items|
  {
    seq(|items|, i requires 0 <= i < |items| => Width(items, items[i]))
  }

  /** The rendered position where the item at `p` starts. */
  function Prefix(ws: seq<nat>, p: nat): nat
    requires p <= |ws|
  {
    if p == 0 then 0 else Prefix(ws, p - 1) + ws[p - 1]
  }

  lemma {:induction false} PrefixAscends(ws: seq<nat>, p: nat, q: nat)
    requires p <= q <= |ws|
    ensures Prefix(ws, p) <= Prefix(ws, q)
    ensures p < q ==> Prefix(ws, p) + ws[p] <= Prefix(ws, q)
    decreases q - p
  {
    if p < q { PrefixAscends(ws, p, q - 1); }
  }

  // ------------------------------------------------------------------- lookups

  /** What the walk from the head finds: the first item that reaches `index`, and where it starts. */
  function Cold(ws: seq<nat>, from: nat, counted: nat, index: int): (int, nat)
    requires from <= |ws|
    decreases |ws| - from
  {
    if from == |ws| then (-1, counted)
    else if ws[from] > 0 && counted + ws[from] >= index then (from, counted)
    else Cold(ws, from + 1, counted + ws[from], index)
  }

  /** Position `index` lies in the item at `p` or at its end. */
  ghost predicate Brackets(ws: seq<nat>, p: int, index: int) {
    0 <= p < |ws| && Prefix(ws, p) < index <= Prefix(ws, p) + ws[p]
  }

  lemma {:induction false} ColdFrom(ws: seq<nat>, from: nat, index: int)
    requires from <= |ws| && index > Prefix(ws, from)
    ensures var (p, s) := Cold(ws, from, Prefix(ws, from), index);
            if p < 0 then p == -1 && s == Prefix(ws, |ws|) < index else Brackets(ws, p, index) && s == Prefix(ws, p)
    decreases |ws| - from
  {
    if from < |ws| && !(ws[from] > 0 && Prefix(ws, from) + ws[from] >= index) {
      ColdFrom(ws, from + 1, index);
    }
  }

  /** At most one item brackets a position, and it is the one the cold walk finds. */
  lemma BracketIsCold(ws: seq<nat>, p: nat, index: int)
    requires Brackets(ws, p, index)
    ensures Cold(ws, 0, 0, index) == (p, Prefix(ws, p))
  {
    ColdFrom(ws, 0, index);
    var (q, s) := Cold(ws, 0, 0, index);
    PrefixAscends(ws, p, |ws|);
    if q >= 0 {
      if q < p { PrefixAscends(ws, q, p); }
      if p < q { PrefixAscends(ws, p, q); }
    }
  }

  /** The cold walk may start after items that do not reach the position. */
  lemma ColdResumes(ws: seq<nat>, from: nat, index: int)
    requires from <= |ws| && index > Prefix(ws, from)
    ensures Cold(ws, from, Prefix(ws, from), index) == Cold(ws, 0, 0, index)
  {
    ColdFrom(ws, from, index);
    ColdFrom(ws, 0, index);
    var (p, s) := Cold(ws, from, Prefix(ws, from), index);
    if p >= 0 {
      BracketIsCold(ws, p, index);
    } else {
      var (q, t) := Cold(ws, 0, 0, index);
      if q >= 0 { PrefixAscends(ws, q, |ws|); }
    }
  }

  const MAX_MARKERS := 80

  datatype Marker = Marker(id: Id, index: int, stamp: nat)

  /** The marker's item is at `p` and starts at the marker's index. */
  ghost predicate MarksAt(items: seq<Item>, m: Marker, p: nat) {
    p < |items| && items[p].id == m.id && Prefix(Widths(items), p) == m.index
  }

  ghost predicate Right(items: seq<Item>, m: Marker) {
    exists p: nat :: MarksAt(items, m, p)
  }

  /** Every marker tells where its item starts. */
  ghost predicate Accurate(items: seq<Item>, markers: seq<Marker>) {
    forall k :: 0 <= k < |markers| ==> Right(items, markers[k])
  }

  lemma TakeOne(ms: seq<Marker>, i: nat, rest: seq<Marker>)
    requires i < |ms|
    ensures var t := ms[..i + 1] + rest;
            t[i] == ms[i] && t[..i] + t[i + 1..] == ms[..i] + ([] + rest) && t == ms[..i] + ([ms[i]] + rest)
  {
    assert [] + rest == rest;
  }

  /** One marker further: it is dropped or stays. */
  lemma DropOne(items: seq<Item>, ms: seq<Marker>, index: int, i: nat)
    requires i < |ms|
    ensures var now := ms[..i + 1] + Counted(items, ms[i + 1..], index);
            && now[i] == ms[i]
            && ms[..i] + Counted(items, ms[i..], index) ==
               if ms[i].index == index && Uncounted(items, ms[i]) then now[..i] + now[i + 1..] else now
  {
    hide Counted, Uncounted;
    CountedHead(items, ms, index, i);
    TakeOne(ms, i, Counted(items, ms[i + 1..], index));
  }

  method FindOldest(markers: seq<Marker>) returns (oldest: nat)
    requires markers != []
    ensures oldest < |markers| && Oldest(markers, oldest)
  {
    oldest := 0;
    var i := 1;
    while i < |markers|
      invariant 1 <= i <= |markers| && 0 <= oldest < i
      invariant forall k :: 0 <= k < i ==> markers[oldest].stamp <= markers[k].stamp
    {
      if markers[i].stamp < markers[oldest].stamp {
        oldest := i;
      }
      i := i + 1;
    }
  }

  lemma AccurateSet(items: seq<Item>, markers: seq<Marker>, k: nat, m: Marker, p: nat)
    requires Accurate(items, markers) && MarksAt(items, m, p)
    ensures k < |markers| ==> Accurate(items, markers[k := m])
    ensures Accurate(items, markers + [m])
  {
    assert Right(items, m);
  }

  predicate Oldest(markers: seq<Marker>, k: nat) {
    k < |markers| && forall i :: 0 <= i < |markers| ==> markers[k].stamp <= markers[i].stamp
  }

  lemma SameIdSameItem(items: seq<Item>, p: nat, q: nat)
    requires ListOk(items) && p < |items| && q < |items| && items[p].id == items[q].id
    ensures p == q
  {
    var x, y := items[p], items[q];
    assert ItemOk(x) && ItemOk(y);
    assert p < q ==> Apart(x, y);
    assert q < p ==> Apart(y, x);
  }

  function Dist(a: int, b: int): nat {
    if a < b then b - a else a - b
  }

  // ------------------------------------------------------------ marker updates

  /** The item of a marker is gone or deleted. */
  predicate Dead(items: seq<Item>, m: Marker) {
    forall p :: 0 <= p < |items| && items[p].id == m.id ==> items[p].deleted
  }

  function Shift(m: Marker, index: int, delta: int): Marker {
    if index <= m.index then m.(index := if m.index + delta < index then index else m.index + delta) else m
  }

  /** Markers of deleted items are dropped, markers from `index` on are shifted. */
  function Updated(items: seq<Item>, ms: seq<Marker>, index: int, delta: int): seq<Marker> {
    if ms == [] then []
    else (if Dead(items, ms[0]) then [] else [Shift(ms[0], index, delta)]) + Updated(items, ms[1..], index, delta)
  }

  lemma {:induction false} UpdatedFrom(items: seq<Item>, ms: seq<Marker>, index: int, delta: int, k: nat)
    requires k < |Updated(items, ms, index, delta)|
    ensures exists j ::
              0 <= j < |ms| && !Dead(items, ms[j]) && Updated(items, ms, index, delta)[k] == Shift(ms[j], index, delta)
    decreases |ms|
  {
    var head := if Dead(items, ms[0]) then [] else [Shift(ms[0], index, delta)];
    if k < |head| {
      assert !Dead(items, ms[0]);
    } else {
      UpdatedFrom(items, ms[1..], index, delta, k - |head|);
      var j :| 0 <= j < |ms[1..]| && !Dead(items, ms[1..][j])
               && Updated(items, ms[1..], index, delta)[k - |head|] == Shift(ms[1..][j], index, delta);
      assert ms[j + 1] == ms[1..][j];
    }
  }

  /** Markers of items without positions that lie at `index` are dropped. */
  function Counted(items: seq<Item>, ms: seq<Marker>, index: int): seq<Marker> {
    if ms == [] then []
    else (if ms[0].index == index && Uncounted(items, ms[0]) then [] else [ms[0]]) + Counted(items, ms[1..], index)
  }

  predicate Uncounted(items: seq<Item>, m: Marker) {
    forall p :: 0 <= p < |items| && items[p].id == m.id ==> !items[p].content.Plain?
  }

  lemma {:induction false} CountedFrom(items: seq<Item>, ms: seq<Marker>, index: int, k: nat)
    requires k < |Counted(items, ms, index)|
    ensures var m := Counted(items, ms, index)[k]; m in ms && !(m.index == index && Uncounted(items, m))
    decreases |ms|
  {
    var head := if ms[0].index == index && Uncounted(items, ms[0]) then [] else [ms[0]];
    if k >= |head| {
      CountedFrom(items, ms[1..], index, k - |head|);
    }
  }

  lemma UpdatedHead(items: seq<Item>, ms: seq<Marker>, index: int, delta: int, i: nat)
    requires i < |ms|
    ensures Updated(items, ms[i..], index, delta) ==
            (if Dead(items, ms[i]) then [] else [Shift(ms[i], index, delta)])
            + Updated(items, ms[i + 1..], index, delta)
  {
    assert ms[i..][1..] == ms[i + 1..];
  }

  lemma CountedHead(items: seq<Item>, ms: seq<Marker>, index: int, i: nat)
    requires i < |ms|
    ensures Counted(items, ms[i..], index) ==
            (if ms[i].index == index && Uncounted(items, ms[i]) then [] else [ms[i]])
            + Counted(items, ms[i + 1..], index)
  {
    assert ms[i..][1..] == ms[i + 1..];
  }

  lemma {:induction false} Fewer(items: seq<Item>, ms: seq<Marker>, index: int, delta: int)
    ensures |Counted(items, ms, index)| <= |ms| && |Updated(items, ms, index, delta)| <= |ms|
  {
    if ms != [] { Fewer(items, ms[1..], index, delta); }
  }

  // -------------------------------------------------------------------- inserts

  /** An item that is not moved shows no move. */
  lemma InsertWins(items: seq<Item>, q: nat, x: Item, m: Item)
    requires q <= |items| && x.movedBy.None?
    ensures Wins(Inserted(items, q, x), m) == Wins(items, m)
  {
    var items' := Inserted(items, q, x);
    if Wins(items, m) {
      var j :| 0 <= j < |items| && ShownBy(items[j], m);
      assert items'[if j < q then j else j + 1] == items[j];
    }
    if Wins(items', m) {
      var j :| 0 <= j < |items'| && ShownBy(items'[j], m);
      assert j != q && items'[j] == items[if j < q then j else j - 1];
    }
  }

  /** Nothing is moved by `x`. */
  predicate NotMover(items: seq<Item>, x: Item) {
    x.content.Move? ==> forall i :: 0 <= i < |items| ==> items[i].movedBy != Some(x.id)
  }

  /** A new item adds to the length if it is an element and live. */
  lemma InsertCounts(items: seq<Item>, q: nat, x: Item)
    requires q <= |items| && x.movedBy.None? && NotMover(items, x)
    ensures var items' := Inserted(items, q, x);
            |Rendered(items', 0, |items'|)| ==
            |Rendered(items, 0, |items|)| + if x.deleted || !x.content.Plain? then 0 else x.len
  {
    hide Widths, Rendered;
    var items', w := Inserted(items, q, x), if x.deleted || !x.content.Plain? then 0 else x.len;
    RenderedLength(items, |items|);
    RenderedLength(items', |items'|);
    WidthsInsert(items, q, x);
    PrefixInsert(Widths(items), q, w, |items'|);
  }

  lemma WidthsInsert(items: seq<Item>, q: nat, x: Item)
    requires q <= |items| && x.movedBy.None? && NotMover(items, x)
    ensures Widths(Inserted(items, q, x)) ==
            Inserted(Widths(items), q, if x.deleted || !x.content.Plain? then 0 else x.len)
  {
    var items' := Inserted(items, q, x);
    forall m: Item
      ensures Width(items', m) == Width(items, m)
    {
      InsertWins(items, q, x, m);
    }
  }

  lemma {:induction false} PrefixInsert(ws: seq<nat>, q: nat, n: nat, p: nat)
    requires q <= |ws| && p <= |ws| + 1
    ensures Prefix(Inserted(ws, q, n), p) == if p <= q then Prefix(ws, p) else n + Prefix(ws, p - 1)
    decreases p
  {
    if p > 0 { PrefixInsert(ws, q, n, p - 1); }
  }

  lemma ListOkInsert(items: seq<Item>, q: nat, x: Item)
    requires ListOk(items) && q <= |items| && ItemOk(x) && forall i :: 0 <= i < |items| ==> Apart(items[i], x)
    ensures ListOk(Inserted(items, q, x))
  {
    var items' := Inserted(items, q, x);
    forall i, j | 0 <= i < j < |items'|
      ensures Apart(items'[i], items'[j])
    {
      assert i != q ==> items'[i] == items[if i < q then i else i - 1];
      assert j != q ==> items'[j] == items[if j < q then j else j - 1];
    }
  }

  /** Between the items that end at `q`'s position and `q` lie only tombstones and markers. */
  ghost predicate AnchorOk(items: seq<Item>, q: nat) {
    q <= |items| && forall p: nat {:trigger Skipped(items, q, p)} :: p < q ==> Skipped(items, q, p)
  }

  ghost predicate Skipped(items: seq<Item>, q: nat, p: nat)
    requires p < q <= |items|
  {
    Prefix(Widths(items), p) == Prefix(Widths(items), q) ==> items[p].deleted || !items[p].content.Plain?
  }

  /** A marker that survives an insert tells the new start of its item. */
  lemma InsertedKeeps(items: seq<Item>, q: nat, x: Item, p: nat)
    requires q <= |items| && p < |items|
    ensures |Inserted(items, q, x)| == |items| + 1
    ensures Inserted(items, q, x)[if p < q then p else p + 1] == items[p]
  {
  }

  lemma InsertKeepsMarker(items: seq<Item>, q: nat, x: Item, m: Marker, p: nat)
    requires ListOk(items) && q <= |items| && x.movedBy.None? && x.content.Plain? && !x.deleted && AnchorOk(items, q)
    requires ItemOk(x) && forall i :: 0 <= i < |items| ==> Apart(items[i], x)
    requires MarksAt(items, m, p) && !Dead(Inserted(items, q, x), m)
    requires p < q && m.index == Prefix(Widths(items), q) ==> items[p].content.Plain?
    ensures Right(Inserted(items, q, x), Shift(m, Prefix(Widths(items), q), x.len))
  {
    hide Widths, Width, ListOk, Apart, ItemOk, Dead, Prefix;
    var items', ws := Inserted(items, q, x), Widths(items);
    var p' := if p < q then p else p + 1;
    StartAfter(items, q, x, p);
    InsertedKeeps(items, q, x, p);
    if p < q {
      assert Skipped(items, q, p);
      PrefixAscends(ws, p, q);
      NotDead(items, q, x, m, p);
    } else {
      PrefixAscends(ws, q, p);
    }
    hide Inserted;
    assert MarksAt(items', Shift(m, Prefix(ws, q), x.len), p');
  }

  /** Where an item starts after an insert. */
  lemma StartAfter(items: seq<Item>, q: nat, x: Item, p: nat)
    requires q <= |items| && p < |items| && x.movedBy.None? && x.content.Plain? && !x.deleted
    ensures var p' := if p < q then p else p + 1;
            && p' < |Inserted(items, q, x)|
            && Prefix(Widths(Inserted(items, q, x)), p') ==
               Prefix(Widths(items), p) + if p < q then 0 else x.len
  {
    hide Widths, Prefix;
    WidthsInsert(items, q, x);
    PrefixInsert(Widths(items), q, x.len, if p < q then p else p + 1);
  }

  lemma NotDead(items: seq<Item>, q: nat, x: Item, m: Marker, p: nat)
    requires ListOk(items) && q <= |items| && ItemOk(x) && forall i :: 0 <= i < |items| ==> Apart(items[i], x)
    requires p < |items| && items[p].id == m.id && !Dead(Inserted(items, q, x), m)
    ensures !items[p].deleted
  {
    var items' := Inserted(items, q, x);
    var r :| 0 <= r < |items'| && items'[r].id == m.id && !items'[r].deleted;
    ListSame(items, q, x, p, r);
  }

  lemma ListSame(items: seq<Item>, q: nat, x: Item, p: nat, r: nat)
    requires ListOk(items) && q <= |items| && p < |items| && r <= |items| && ItemOk(x)
    requires forall i :: 0 <= i < |items| ==> Apart(items[i], x)
    requires Inserted(items, q, x)[r].id == items[p].id
    ensures Inserted(items, q, x)[r] == items[p]
  {
    var items' := Inserted(items, q, x);
    assert ItemOk(items[p]) && Apart(items[p], x);
    if r != q {
      var r0 := if r < q then r else r - 1;
      assert items'[r] == items[r0];
      SameIdSameItem(items, p, r0);
    }
  }

  // -------------------------------------------------------------- rendered units

  /** The units shown at an item's positions. */
  function Shown(items: seq<Item>, x: Item): seq<Id> {
    if Width(items, x) == 0 then []
    else if x.content.Move? then [x.content.target]
    else UnitIds(x.id, x.len)
  }

  /** The units shown by the items from `p` to `q`. */
  function Rendered(items: seq<Item>, p: nat, q: nat): seq<Id>
    requires p <= q <= |items|
    decreases q - p
  {
    if p == q then [] else Shown(items, items[p]) + Rendered(items, p + 1, q)
  }

  lemma {:induction false} RenderedConcat(items: seq<Item>, p: nat, m: nat, q: nat)
    requires p <= m <= q <= |items|
    ensures Rendered(items, p, q) == Rendered(items, p, m) + Rendered(items, m, q)
    decreases m - p
  {
    if p < m { RenderedConcat(items, p + 1, m, q); }
  }

  lemma ShownWidth(items: seq<Item>, x: Item)
    ensures |Shown(items, x)| == Width(items, x)
  {
  }

  /** Positions are indexes into the rendered units. */
  lemma {:induction false} RenderedLength(items: seq<Item>, p: nat)
    requires p <= |items|
    ensures |Rendered(items, 0, p)| == Prefix(Widths(items), p)
    decreases p
  {
    if p > 0 {
      RenderedLength(items, p - 1);
      RenderedConcat(items, 0, p - 1, p);
      ShownWidth(items, items[p - 1]);
      assert Rendered(items, p - 1, p) == Shown(items, items[p - 1]) + Rendered(items, p, p);
    }
  }

  // -------------------------------------------------------------------- deletes

  /** The item at `p` shows nothing any more, nothing else has changed its place or its units. */
  ghost predicate Hidden(items: seq<Item>, items': seq<Item>, p: nat) {
    && p < |items| == |items'| && ListOk(items') && Shown(items', items'[p]) == []
    && (forall i :: 0 <= i < |items| ==> items'[i].id == items[i].id)
    && (forall i :: 0 <= i < |items| && i != p ==> Shown(items', items'[i]) == Shown(items, items[i]))
    && (forall i :: 0 <= i < |items| && items[i].deleted ==> items'[i].deleted)
  }

  lemma {:induction false} RenderedSame(items: seq<Item>, items': seq<Item>, p: nat, q: nat)
    requires p <= q <= |items| == |items'|
    requires forall i :: p <= i < q ==> Shown(items', items'[i]) == Shown(items, items[i])
    ensures Rendered(items', p, q) == Rendered(items, p, q)
    decreases q - p
  {
    hide Shown;
    if p < q { RenderedSame(items, items', p + 1, q); }
  }

  lemma HiddenRendered(items: seq<Item>, items': seq<Item>, p: nat)
    requires Hidden(items, items', p)
    ensures p < |items| == |items'|
    ensures Rendered(items', 0, p + 1) == Rendered(items, 0, p)
    ensures Rendered(items', p + 1, |items'|) == Rendered(items, p + 1, |items|)
  {
    RenderedSame(items, items', 0, p);
    RenderedSame(items, items', p + 1, |items|);
    RenderedConcat(items', 0, p, p + 1);
    assert Rendered(items', p, p + 1) == Shown(items', items'[p]) + Rendered(items', p + 1, p + 1);
  }

  lemma DeletePlain(items: seq<Item>, p: nat)
    requires ListOk(items) && p < |items| && items[p].content.Plain? && items[p].movedBy.None?
    ensures Hidden(items, items[p := items[p].(deleted := true)], p)
  {
    var items' := items[p := items[p].(deleted := true)];
    forall m: Item
      ensures Wins(items', m) == Wins(items, m)
    {
      if Wins(items, m) {
        var j :| 0 <= j < |items| && ShownBy(items[j], m);
        assert items'[j] == items[j];
      }
      if Wins(items', m) {
        var j :| 0 <= j < |items'| && ShownBy(items'[j], m);
        assert items'[j] == items[j];
      }
    }
    assert forall i :: 0 <= i < |items| && i != p ==> Width(items', items'[i]) == Width(items, items[i]);
    DeleteListOk(items, p);
  }

  lemma DeleteListOk(items: seq<Item>, p: nat)
    requires ListOk(items) && p < |items|
    ensures ListOk(items[p := items[p].(deleted := true)])
  {
    var items' := items[p := items[p].(deleted := true)];
    forall i, j | 0 <= i < j < |items'|
      ensures Apart(items'[i], items'[j])
    {
      assert Apart(items[i], items[j]);
    }
  }

  /** Deleting the target of a winning move hides the move and nothing else. */
  lemma DeleteTarget(items: seq<Item>, p: nat, j: nat)
    requires ListOk(items) && p < |items| && j < |items| && !items[p].deleted && ShownBy(items[j], items[p])
    ensures Hidden(items, items[j := items[j].(deleted := true)], p)
  {
    var items' := items[j := items[j].(deleted := true)];
    DeleteListOk(items, j);
    assert ItemOk(items[j]);
    assert !Wins(items', items[p]) by {
      forall k | 0 <= k < |items'|
        ensures !ShownBy(items'[k], items[p])
      {
        if k != j && ShownBy(items[k], items[p]) {
          TargetUnique(items, j, k, items[p].content.target);
          assert false;
        }
      }
    }
    forall i | 0 <= i < |items| && i != p
      ensures Shown(items', items'[i]) == Shown(items, items[i])
    {
      if items[i].content.Move? && items[i].id == items[p].id {
        SameIdSameItem(items, i, p);
        assert false;
      }
      assert items[i].content.Move? ==> Wins(items', items[i]) == Wins(items, items[i]) by {
        if items[i].content.Move? { OtherMove(items, j, items[p].id, items[i]); }
      }
    }
  }

  lemma TargetUnique(items: seq<Item>, j: nat, k: nat, id: Id)
    requires ListOk(items) && j < |items| && k < |items| && Covers(items[j], id) && Covers(items[k], id)
    ensures j == k
  {
    var x, y := items[j], items[k];
    assert j < k ==> Apart(x, y);
    assert k < j ==> Apart(y, x);
  }

  lemma OtherMove(items: seq<Item>, j: nat, winner: Id, m: Item)
    requires j < |items| && items[j].movedBy == Some(winner) && m.id != winner
    ensures Wins(items[j := items[j].(deleted := true)], m) == Wins(items, m)
  {
    var items' := items[j := items[j].(deleted := true)];
    if Wins(items, m) {
      var k :| 0 <= k < |items| && ShownBy(items[k], m);
      assert items'[k] == items[k];
    }
    if Wins(items', m) {
      var k :| 0 <= k < |items'| && ShownBy(items'[k], m);
      assert items'[k] == items[k];
    }
  }

  lemma SplitListOk(items: seq<Item>, p: nat, k: nat)
    requires ListOk(items) && p < |items| && 0 < k < items[p].len && items[p].movedBy.None?
    ensures ListOk(SplitOf(items, p, k))
  {
    var items' := SplitOf(items, p, k);
    assert ItemOk(items[p]);
    forall i, j | 0 <= i < j < |items'|
      ensures Apart(items'[i], items'[j])
    {
      var a, b := if i <= p then i else i - 1, if j <= p then j else j - 1;
      assert a != b ==> Apart(items[a], items[b]);
    }
  }

  ghost predicate SameHead(items: seq<Item>, items': seq<Item>, p: nat) {
    p <= |items| && p <= |items'| && forall i :: 0 <= i < p ==> Shown(items', items'[i]) == Shown(items, items[i])
  }

  ghost predicate SameTail(items: seq<Item>, items': seq<Item>, p: nat, d: nat) {
    && p <= |items| && |items'| == |items| + d
    && forall i {:trigger items[i]} :: p <= i < |items| ==> Shown(items', items'[i + d]) == Shown(items, items[i])
  }

  /** A split shows nothing: the halves have the units of the whole. */
  lemma SplitRendered(items: seq<Item>, p: nat, k: nat)
    requires ListOk(items) && p < |items| && 0 < k < items[p].len && items[p].content.Plain? && items[p].movedBy.None?
    ensures var items' := SplitOf(items, p, k);
            && SameHead(items, items', p) && SameTail(items, items', p + 1, 1)
            && Shown(items', items'[p]) + Shown(items', items'[p + 1]) == Shown(items, items[p])
  {
    var items' := SplitOf(items, p, k);
    forall x: Item
      ensures Shown(items', x) == Shown(items, x)
    {
      SplitWins(items, p, k, x);
    }
    assert Shown(items', items'[p]) + Shown(items', items'[p + 1]) == Shown(items, items[p]);
    hide Shown, Wins;
    assert forall i :: 0 <= i < p ==> items'[i] == items[i];
    assert forall i :: p < i < |items| ==> items'[i + 1] == items[i];
  }

  lemma SplitWins(items: seq<Item>, p: nat, k: nat, m: Item)
    requires p < |items| && 0 < k < items[p].len && items[p].movedBy.None?
    ensures Wins(SplitOf(items, p, k), m) == Wins(items, m)
  {
    var items' := SplitOf(items, p, k);
    if Wins(items, m) {
      var j :| 0 <= j < |items| && ShownBy(items[j], m);
      assert items'[if j < p then j else j + 1] == items[j];
    }
    if Wins(items', m) {
      var j :| 0 <= j < |items'| && ShownBy(items'[j], m);
      assert items'[j] == items[if j < p then j else j - 1];
    }
  }

  lemma {:induction false} RenderedShifted(items: seq<Item>, items': seq<Item>, p: nat, d: nat)
    requires SameTail(items, items', p, d)
    ensures Rendered(items', p + d, |items'|) == Rendered(items, p, |items|)
    decreases |items| - p
  {
    hide Shown;
    if p < |items| { RenderedShifted(items, items', p + 1, d); }
  }

  lemma Regroup(x: seq<Id>, y: seq<Id>, z: seq<Id>)
    ensures x + (y + z) == x + y + z
  {
  }

  lemma SplitKeeps(items: seq<Item>, p: nat, k: nat)
    requires ListOk(items) && p < |items| && 0 < k < items[p].len && items[p].content.Plain? && items[p].movedBy.None?
    ensures var items' := SplitOf(items, p, k);
            && Rendered(items', 0, p) == Rendered(items, 0, p)
            && Rendered(items', p, |items'|) == Rendered(items, p, |items|)
            && Rendered(items', p + 1, |items'|) == Shown(items', items'[p + 1]) + Rendered(items, p + 1, |items|)
  {
    var items' := SplitOf(items, p, k);
    assert |items'| == |items| + 1;
    hide Shown, Rendered, SplitOf, Wins, SameHead, SameTail, ListOk;
    SplitRendered(items, p, k);
    RenderedSplitHead(items, items', p);
    RenderedShifted(items, items', p + 1, 1);
    RenderedHead(items, p);
    RenderedHead(items', p);
    RenderedHead(items', p + 1);
    Regroup(Shown(items', items'[p]), Shown(items', items'[p + 1]), Rendered(items, p + 1, |items|));
  }

  lemma RenderedHead(items: seq<Item>, p: nat)
    requires p < |items|
    ensures Rendered(items, p, |items|) == Shown(items, items[p]) + Rendered(items, p + 1, |items|)
  {
  }

  lemma {:induction false} RenderedSplitHead(items: seq<Item>, items': seq<Item>, p: nat)
    requires SameHead(items, items', p)
    ensures Rendered(items', 0, p) == Rendered(items, 0, p)
    decreases p
  {
    hide Shown;
    if p > 0 {
      RenderedSplitHead(items, items', p - 1);
      RenderedConcat(items, 0, p - 1, p);
      RenderedConcat(items', 0, p - 1, p);
      assert Rendered(items, p - 1, p) == Shown(items, items[p - 1]) + Rendered(items, p, p);
      assert Rendered(items', p - 1, p) == Shown(items', items'[p - 1]) + Rendered(items', p, p);
    }
  }

  /** `y` goes on where `x` ends and they can be one item. */
  predicate Continues(x: Item, y: Item) {
    && x.content.Plain? && y.content.Plain? && x.movedBy.None? && y.movedBy.None? && x.deleted == y.deleted
    && x.id.client == y.id.client && x.id.clock + x.len == y.id.clock
  }

  function Merged(items: seq<Item>, p: nat): seq<Item>
    requires 0 < p < |items|
  {
    items[..p - 1] + [items[p - 1].(len := items[p - 1].len + items[p].len)] + items[p + 1..]
  }

  /** A merge undoes a split. */
  lemma MergeKeeps(items: seq<Item>, p: nat)
    requires ListOk(items) && 0 < p < |items| && Continues(items[p - 1], items[p])
    ensures ListOk(Merged(items, p)) && |Merged(items, p)| == |items| - 1
    ensures Rendered(Merged(items, p), 0, |items| - 1) == Rendered(items, 0, |items|)
  {
    hide Rendered, SplitOf, ListOk, ItemOk, Apart, Merged;
    var whole, k := Merged(items, p), items[p - 1].len;
    MergeListOk(items, p);
    SplitOfMerged(items, p);
    SplitKeeps(whole, p - 1, k);
    RenderedConcat(whole, 0, p - 1, |whole|);
    RenderedConcat(items, 0, p - 1, |items|);
  }

  lemma SplitOfMerged(items: seq<Item>, p: nat)
    requires 0 < p < |items| && Continues(items[p - 1], items[p]) && items[p - 1].len > 0 && items[p].len > 0
    ensures SplitOf(Merged(items, p), p - 1, items[p - 1].len) == items
  {
    var whole := Merged(items, p);
    assert whole[..p - 1] == items[..p - 1] && whole[p..] == items[p + 1..];
    assert items == items[..p - 1] + [items[p - 1], items[p]] + items[p + 1..];
  }

  lemma MergeListOk(items: seq<Item>, p: nat)
    requires ListOk(items) && 0 < p < |items| && Continues(items[p - 1], items[p])
    ensures ListOk(Merged(items, p)) && |Merged(items, p)| == |items| - 1
    ensures Merged(items, p)[p - 1] == items[p - 1].(len := items[p - 1].len + items[p].len)
    ensures items[p - 1].len > 0 && items[p].len > 0
  {
    var whole := Merged(items, p);
    assert ItemOk(items[p - 1]) && ItemOk(items[p]);
    forall i, j | 0 <= i < j < |whole|
      ensures Apart(whole[i], whole[j])
    {
      var a, b := if i < p then i else i + 1, if j < p then j else j + 1;
      assert Apart(items[a], items[b]);
      assert i == p - 1 ==> Apart(items[p], items[b]);
      assert j == p - 1 ==> Apart(items[a], items[p]);
    }
  }

  /** Where a start is after `n` positions from `index` on were removed. */
  function CutAt(s: nat, index: nat, n: nat): nat {
    if s <= index then s else if s <= index + n then index else s - n
  }

  /** Every start has moved as a removal of `n` positions from `index` on moves it. */
  ghost predicate StartsCut(ws: seq<nat>, ws': seq<nat>, index: nat, n: nat) {
    |ws'| == |ws| && forall x: nat {:trigger Prefix(ws', x)} :: x <= |ws| ==>
      Prefix(ws', x) == CutAt(Prefix(ws, x), index, n)
  }

  lemma {:induction false} PrefixZero(ws: seq<nat>, ws': seq<nat>, p: nat, x: nat)
    requires p < |ws| == |ws'| && ws' == ws[p := 0] && x <= |ws|
    ensures Prefix(ws', x) == if x <= p then Prefix(ws, x) else Prefix(ws, x) - ws[p]
    ensures x > p ==> Prefix(ws, x) >= Prefix(ws, p) + ws[p]
    decreases x
  {
    if x > 0 { PrefixZero(ws, ws', p, x - 1); }
  }

  lemma CutMore(ws0: seq<nat>, ws: seq<nat>, p: nat, index: nat, n: nat)
    requires StartsCut(ws0, ws, index, n) && p < |ws| && Prefix(ws, p) == index && Prefix(ws0, p) == index + n
    requires ws[p] == ws0[p]
    ensures StartsCut(ws0, ws[p := 0], index, n + ws[p])
  {
    var ws' := ws[p := 0];
    forall x: nat | x <= |ws0|
      ensures Prefix(ws', x) == CutAt(Prefix(ws0, x), index, n + ws[p])
    {
      PrefixZero(ws, ws', p, x);
      assert Prefix(ws, x) == CutAt(Prefix(ws0, x), index, n);
      if x <= p { PrefixAscends(ws0, x, p); } else { PrefixAscends(ws0, p, x); }
    }
  }

  /** As far as markers are kept, items kept their places and the starts moved as they should. */
  ghost predicate Tracks(items0: seq<Item>, items: seq<Item>, index: nat, n: nat) {
    && |items| == |items0| && (forall i :: 0 <= i < |items| ==> items[i].id == items0[i].id)
    && StartsCut(Widths(items0), Widths(items), index, n)
  }

  /**
    A delete has reached `p`, which starts at `counted`: `n` units from `index` on are gone,
    all others are shown as before.
  */
  ghost predicate Reached(r: seq<Id>, items: seq<Item>, p: nat, counted: nat, index: nat, n: nat) {
    && ListOk(items) && p <= |items| && counted <= index && counted + n <= |r| && (counted < index ==> n == 0)
    && Rendered(items, 0, p) == r[..counted] && Rendered(items, p, |items|) == r[counted + n..]
  }

  lemma HiddenKind(items: seq<Item>, items': seq<Item>, p: nat)
    requires Hidden(items, items', p) && Width(items, items[p]) > 0
    ensures |items'| == |items| && !items[p].content.Mark?
  {
  }

  /** The rendered position `index` is in the item at `t`, at its start, or behind all. */
  ghost predicate Around(items: seq<Item>, t: nat, index: nat) {
    && t < |items| && Prefix(Widths(items), t) <= index
    && (t + 1 == |items| || Prefix(Widths(items), t) == index || index < Prefix(Widths(items), t + 1))
  }

  predicate Adjoins(x: Item, y: Item) {
    x.id.client == y.id.client && x.id.clock + x.len == y.id.clock
  }

  /** The front of the run in which a position lies: a merge does not take it away. */
  ghost predicate Canonical(items: seq<Item>, p: nat, index: nat) {
    && p < |items| && (p == 0 || !Adjoins(items[p - 1], items[p]))
    && exists t :: && p <= t < |items| && Around(items, t, index)
                   && forall i :: p < i <= t ==> Adjoins(items[i - 1], items[i])
  }

  /**
    What a lookup does to the markers.  The newest one, at `k`, is at the front of the run in which
    the position lies; the nearest one is used and moved there if the way was short.
  */
  ghost predicate Refreshed(items: seq<Item>, ms: seq<Marker>, ms': seq<Marker>, stamp: nat, stamp': nat, length: int,
                            index: nat, at: nat, k: nat, near: int) {
    && Canonical(items, at, index) && k < |ms'|
    && ms'[k] == Marker(items[at].id, Prefix(Widths(items), at), stamp') && stamp' > stamp
    && |ms| <= |ms'| <= |ms| + 1 && -1 <= near < |ms| && (near == -1 <==> ms == [])
    && (near >= 0 ==>
          && ms'[near].stamp > stamp
          && (forall i :: 0 <= i < |ms| ==> Dist(ms[near].index, index) <= Dist(ms[i].index, index))
          && (Dist(ms[near].index, Prefix(Widths(items), at)) * MAX_MARKERS < length ==> k == near && |ms'| == |ms|))
  }

  lemma WidthAt(items: seq<Item>, p: nat)
    requires p < |items|
    ensures Prefix(Widths(items), p + 1) == Prefix(Widths(items), p) + Width(items, items[p])
  {
  }

  lemma MarksThere(items: seq<Item>, m: Marker, p: nat)
    requires p < |items| && m.id == items[p].id && m.index == Prefix(Widths(items), p)
    ensures MarksAt(items, m, p)
  {
  }

  lemma MarkedWhere(ms: seq<Marker>, ms': seq<Marker>, m: Marker) returns (k: nat)
    requires ms' == ms + [m] || exists j :: 0 <= j < |ms| && Oldest(ms, j) && ms' == ms[j := m]
    ensures k < |ms'| && ms'[k] == m && |ms| <= |ms'| <= |ms| + 1
    ensures forall i :: 0 <= i < |ms| ==> ms'[i] == ms[i] || ms'[i] == m
  {
    if ms' == ms + [m] {
      k := |ms|;
    } else {
      var j :| 0 <= j < |ms| && Oldest(ms, j) && ms' == ms[j := m];
      k := j;
    }
  }

  lemma ReachedList(r: seq<Id>, items: seq<Item>, p: nat, counted: nat, index: nat, n: nat)
    requires Reached(r, items, p, counted, index, n)
    ensures ListOk(items)
  {
  }

  lemma ReachedFacts(r: seq<Id>, items: seq<Item>, p: nat, counted: nat, index: nat, n: nat)
    requires Reached(r, items, p, counted, index, n)
    ensures p <= |items| && counted <= index && (counted < index ==> n == 0)
  {
  }

  lemma ReachedStart(r: seq<Id>, items: seq<Item>, p: nat, counted: nat, index: nat, n: nat)
    requires Reached(r, items, p, counted, index, n)
    ensures p <= |items| && Prefix(Widths(items), p) == counted <= index
  {
    RenderedLength(items, p);
  }

  /** Passing an item that shows nothing or ends before the range. */
  lemma ReachedPast(r: seq<Id>, items: seq<Item>, p: nat, counted: nat, index: nat, n: nat)
    requires Reached(r, items, p, counted, index, n) && p < |items|
    requires var w := Width(items, items[p]); w == 0 || counted + w <= index
    ensures Reached(r, items, p + 1, counted + Width(items, items[p]), index, n)
  {
    hide Rendered, Shown, Width, ListOk;
    var x, rest := Shown(items, items[p]), Rendered(items, p + 1, |items|);
    ShownWidth(items, items[p]);
    RenderedHead(items, p);
    RenderedConcat(items, 0, p, p + 1);
    RenderedOne(items, p);
    SlicePast(r, counted, n, Rendered(items, 0, p), x, rest);
  }

  lemma RenderedOne(items: seq<Item>, p: nat)
    requires p < |items|
    ensures Rendered(items, p, p + 1) == Shown(items, items[p])
  {
    assert Rendered(items, p + 1, p + 1) == [];
  }

  lemma SlicePast(r: seq<Id>, counted: nat, n: nat, head: seq<Id>, x: seq<Id>, rest: seq<Id>)
    requires counted + n <= |r| && head == r[..counted] && r[counted + n..] == x + rest && (x == [] || n == 0)
    ensures counted + |x| + n <= |r| && head + x == r[..counted + |x|] && rest == r[counted + |x| + n..]
  {
    assert |r| == counted + n + |x| + |rest|;
    assert rest == r[counted + n..][|x|..];
    assert x != [] ==> x == r[counted..][..|x|];
  }

  /** Hiding an item of the range. */
  lemma ReachedHidden(r: seq<Id>, items: seq<Item>, items': seq<Item>, p: nat, index: nat, n: nat)
    requires Reached(r, items, p, index, index, n) && Hidden(items, items', p)
    ensures Reached(r, items', p + 1, index, index, n + Width(items, items[p]))
  {
    assert ListOk(items') && p + 1 <= |items'|;
    hide Rendered, Shown, Width, Hidden, ListOk;
    RenderedHead(items, p);
    ShownWidth(items, items[p]);
    HiddenRendered(items, items', p);
    SliceOff(r, index + n, Shown(items, items[p]), Rendered(items, p + 1, |items|));
  }

  lemma SliceOff(r: seq<Id>, n: nat, x: seq<Id>, rest: seq<Id>)
    requires n <= |r| && r[n..] == x + rest
    ensures n + |x| <= |r| && rest == r[n + |x|..]
  {
    assert rest == r[n..][|x|..];
  }

  lemma ReachedSplit(r: seq<Id>, items: seq<Item>, p: nat, counted: nat, index: nat, n: nat, k: nat)
    requires Reached(r, items, p, counted, index, n) && p < |items| && 0 < k < items[p].len
    requires items[p].content.Plain? && items[p].movedBy.None?
    ensures Reached(r, SplitOf(items, p, k), p, counted, index, n)
  {
    SplitKeeps(items, p, k);
    SplitListOk(items, p, k);
  }

  lemma TracksHidden(items0: seq<Item>, items: seq<Item>, items': seq<Item>, p: nat, index: nat, n: nat)
    requires Tracks(items0, items, index, n) && Hidden(items, items', p) && Prefix(Widths(items), p) == index
    requires Width(items, items[p]) == Width(items0, items0[p]) && Prefix(Widths(items0), p) == index + n
    ensures Tracks(items0, items', index, n + Width(items, items[p]))
  {
    var ws, ws' := Widths(items), Widths(items');
    forall i | 0 <= i < |items|
      ensures ws'[i] == if i == p then 0 else ws[i]
    {
      ShownWidth(items, items[i]);
      ShownWidth(items', items'[i]);
    }
    assert ws' == ws[p := 0];
    CutMore(Widths(items0), ws, p, index, n);
  }

  /** Up to `p` the delete has done its work, from `p` on nothing has changed. */
  ghost predicate Ahead(items0: seq<Item>, items: seq<Item>, p: nat, counted: nat, index: nat, n: nat) {
    && Tracks(items0, items, index, n) && p <= |items| && Prefix(Widths(items0), p) == counted + n
    && (forall i :: p <= i < |items| ==> items[i] == items0[i] && Width(items, items[i]) == Width(items0, items0[i]))
    && (forall i {:trigger Swept(items0, items, index, i)} :: 0 <= i < p ==> Swept(items0, items, index, i))
  }

  /** Of the items passed exactly those that show in the range were deleted; none of them is a move. */
  ghost predicate Swept(items0: seq<Item>, items: seq<Item>, index: nat, i: nat)
    requires i < |items0| == |items|
  {
    var hit := Prefix(Widths(items0), i) >= index && Width(items0, items0[i]) > 0;
    items[i].deleted == (items0[i].deleted || hit) && (hit ==> items0[i].content.Plain?)
  }

  lemma AheadTracks(items0: seq<Item>, items: seq<Item>, p: nat, counted: nat, index: nat, n: nat)
    requires Ahead(items0, items, p, counted, index, n)
    ensures Tracks(items0, items, index, n)
  {
  }

  lemma AheadStart(items: seq<Item>, p: nat, counted: nat, index: nat)
    requires p <= |items| && Prefix(Widths(items), p) == counted <= index
    ensures Ahead(items, items, p, counted, index, 0)
  {
    forall i | 0 <= i < p
      ensures Swept(items, items, index, i)
    {
      PrefixAscends(Widths(items), i + 1, p);
    }
  }

  lemma AheadPast(items0: seq<Item>, items: seq<Item>, p: nat, counted: nat, index: nat, n: nat)
    requires Ahead(items0, items, p, counted, index, n) && p < |items| && (counted < index ==> n == 0)
    requires Width(items, items[p]) == 0 || counted + Width(items, items[p]) <= index
    ensures Ahead(items0, items, p + 1, counted + Width(items, items[p]), index, n)
  {
    assert Swept(items0, items, index, p);
  }

  lemma AheadHidden(items0: seq<Item>, items: seq<Item>, items': seq<Item>, p: nat, index: nat, n: nat)
    requires Ahead(items0, items, p, index, index, n) && Hidden(items, items', p) && Prefix(Widths(items), p) == index
    requires items[p].content.Plain? && Width(items, items[p]) > 0 && items' == items[p := items[p].(deleted := true)]
    ensures Ahead(items0, items', p + 1, index, index, n + Width(items, items[p]))
  {
    TracksHidden(items0, items, items', p, index, n);
    forall i | p < i < |items'|
      ensures Width(items', items'[i]) == Width(items0, items0[i])
    {
      ShownWidth(items, items[i]);
      ShownWidth(items', items'[i]);
    }
    forall i | 0 <= i < p + 1
      ensures Swept(items0, items', index, i)
    {
      if i < p { assert Swept(items0, items, index, i); }
    }
  }

  /** In the first `n` positions no move shows, and no item shows beyond them as well. */
  ghost predicate Whole(items: seq<Item>, n: nat) {
    forall p :: 0 <= p < |items| && Width(items, items[p]) > 0 && Prefix(Widths(items), p) < n ==>
      items[p].content.Plain? && Prefix(Widths(items), p + 1) <= n
  }

  /** An item in the way makes the delete drop all markers. */
  lemma InTheWay(items0: seq<Item>, items: seq<Item>, p: nat, n: nat, total: nat)
    requires Ahead(items0, items, p, 0, 0, n) && p < |items| && n < total && Width(items, items[p]) > 0
    requires items[p].content.Move? || n + Width(items, items[p]) > total
    ensures !Whole(items0, total)
  {
    var ws := Widths(items0);
    assert Width(items0, items0[p]) > 0 && Prefix(ws, p) == n && items0[p] == items[p];
    assert Prefix(ws, p + 1) == Prefix(ws, p) + ws[p];
  }

  lemma KeptIsWhole(items0: seq<Item>, items: seq<Item>, p: nat, n: nat)
    requires Ahead(items0, items, p, 0, 0, n)
    ensures Whole(items0, n)
    ensures forall i :: 0 <= i < |items0| && Prefix(Widths(items0), i) < n ==>
              items[i].deleted == (items0[i].deleted || Width(items0, items0[i]) > 0)
  {
    hide Width;
    forall i | 0 <= i < |items0| && Prefix(Widths(items0), i) < n
      ensures i < p && Swept(items0, items, 0, i) && Prefix(Widths(items0), i + 1) <= n
    {
      if i >= p { PrefixAscends(Widths(items0), p, i); }
      PrefixAscends(Widths(items0), i + 1, p);
    }
  }

  /** After the shift the markers that are left are accurate. */
  lemma DeleteKeepsMarkers(items0: seq<Item>, items: seq<Item>, ms: seq<Marker>, index: nat, n: nat)
    requires Accurate(items0, ms) && Tracks(items0, items, index, n)
    ensures Accurate(items, Updated(items, ms, index, 0 - n)) && |Updated(items, ms, index, 0 - n)| <= |ms|
    ensures n == 0 ==> Accurate(items, ms)
  {
    var ms' := Updated(items, ms, index, 0 - n);
    Fewer(items, ms, index, 0 - n);
    forall j | 0 <= j < |ms|
      ensures Right(items, Shift(ms[j], index, 0 - n))
    {
      assert Right(items0, ms[j]);
      var p: nat :| MarksAt(items0, ms[j], p);
      assert Prefix(Widths(items), p) == CutAt(Prefix(Widths(items0), p), index, n);
      assert MarksAt(items, Shift(ms[j], index, 0 - n), p);
    }
    assert n == 0 ==> forall j :: 0 <= j < |ms| ==> Shift(ms[j], index, 0 - n) == ms[j];
    forall k | 0 <= k < |ms'|
      ensures Right(items, ms'[k])
    {
      UpdatedFrom(items, ms, index, 0 - n, k);
    }
  }

  class ListType {
    var items: seq<Item>
    var markers: seq<Marker>
    var stamp: nat
    var length: int

    ghost predicate Valid()
      reads this
    {
      Shaped() && Accurate(items, markers)
    }

    /** What holds whatever the markers say; the length is the number of units shown. */
    ghost predicate Shaped()
      reads this
    {
      ListOk(items) && |markers| <= MAX_MARKERS && length == |Rendered(items, 0, |items|)|
    }

    constructor ()
      ensures Valid() && items == [] && markers == []
    {
      items, markers, stamp, length := [], [], 0, 0;
    }

    /** Walks right from `from`, which starts at `counted`, to the item that reaches `index`. */
    method WalkCold(from: nat, counted: nat, index: int) returns (p: int, s: nat)
      requires from <= |items|
      ensures (p, s) == Cold(Widths(items), from, counted, index)
    {
      p, s := from, counted;
      while p < |items|
        invariant from <= p <= |items| && Cold(Widths(items), from, counted, index) == Cold(Widths(items), p, s, index)
      {
        var n := Width(items, items[p]);
        if n > 0 && s + n >= index {
          return;
        }
        p, s := p + 1, s + n;
      }
      p := -1;
    }

    /** The nearest item with a position before `p`, -1 if there is none. */
    method Previous(p: nat) returns (q: int)
      requires p < |items|
      ensures -1 <= q < p && (q >= 0 ==> Width(items, items[q]) > 0)
      ensures var ws := Widths(items); Prefix(ws, p) == if q < 0 then 0 else Prefix(ws, q) + ws[q]
    {
      ghost var ws := Widths(items);
      q := p - 1;
      while q >= 0
        invariant -1 <= q < p && Prefix(ws, p) == Prefix(ws, q + 1)
      {
        if Width(items, items[q]) > 0 {
          return;
        }
        q := q - 1;
      }
    }

    /** Walks left from an item that ends at or after `index`. */
    method WalkLeft(cur: nat, curS: nat, index: nat) returns (p: int, s: nat)
      requires 0 < index && cur < |items| && Width(items, items[cur]) > 0
      requires curS == Prefix(Widths(items), cur) && curS + Width(items, items[cur]) >= index
      ensures (p, s) == Cold(Widths(items), 0, 0, index)
    {
      ghost var ws := Widths(items);
      p, s := cur, curS;
      while s >= index
        invariant 0 <= p <= cur && ws[p] > 0 && s == Prefix(ws, p) && s + ws[p] >= index
        decreases p
      {
        var q := Previous(p);
        if q < 0 {
          break;
        }
        p, s := q, s - Width(items, items[q]);
      }
      BracketIsCold(ws, p, index);
    }

    /** The place of a marker's item. */
    method Locate(m: Marker) returns (p: nat)
      requires Valid() && m in markers
      ensures MarksAt(items, m, p)
    {
      p := 0;
      ghost var k :| 0 <= k < |markers| && markers[k] == m;
      assert Right(items, markers[k]);
      ghost var q: nat :| MarksAt(items, m, q);
      while items[p].id != m.id
        invariant p <= q && q < |items|
        decreases q - p
      {
        p := p + 1;
      }
      SameIdSameItem(items, p, q);
    }

    /** The marker with the smallest distance to `index`, -1 if there is none. */
    method Nearest(index: nat) returns (best: int)
      ensures -1 <= best < |markers| && (best == -1 <==> markers == [])
      ensures best >= 0 ==> forall k :: 0 <= k < |markers| ==>
                Dist(markers[best].index, index) <= Dist(markers[k].index, index)
    {
      best := -1;
      var i := 0;
      while i < |markers|
        invariant 0 <= i <= |markers| && -1 <= best < i && (best == -1 <==> i == 0)
        invariant best >= 0 ==> forall k :: 0 <= k < i ==>
                    Dist(markers[best].index, index) <= Dist(markers[k].index, index)
      {
        if best == -1 || Dist(markers[i].index, index) < Dist(markers[best].index, index) {
          best := i;
        }
        i := i + 1;
      }
    }

    /** Gives exactly what the walk from the head gives. */
    method FindRO(index: int) returns (p: int, s: nat)
      requires Valid()
      ensures (p, s) == if index <= 0 then (-1, 0) else Cold(Widths(items), 0, 0, index)
    {
      if index <= 0 {
        return -1, 0;
      }
      var best := Nearest(index);
      if best == -1 {
        p, s := WalkCold(0, 0, index);
        return;
      }
      var m := markers[best];
      var at := Locate(m);
      var n := Width(items, items[at]);
      if n == 0 {
        p, s := WalkCold(0, 0, index);
        return;
      }
      if m.index + n >= index {
        p, s := WalkLeft(at, m.index, index);
      } else {
        ColdResumes(Widths(items), at + 1, index);
        p, s := WalkCold(at + 1, m.index + n, index);
      }
    }

    /** Adds a marker, in place of the oldest one when there are as many as allowed. */
    method MarkPosition(p: nat, index: nat)
      requires Valid() && p < |items| && index == Prefix(Widths(items), p)
      modifies `markers, `stamp
      ensures Valid() && stamp == old(stamp) + 1
      ensures |old(markers)| < MAX_MARKERS ==> markers == old(markers) + [Marker(items[p].id, index, stamp)]
      ensures |old(markers)| >= MAX_MARKERS ==> exists k :: 0 <= k < |old(markers)| && Oldest(old(markers), k)
                                                            && markers ==
                                                               old(markers)[k := Marker(items[p].id, index, stamp)]
    {
      stamp := stamp + 1;
      var m := Marker(items[p].id, index, stamp);
      assert MarksAt(items, m, p);
      hide ListOk, Rendered, Widths, Prefix, Accurate, MarksAt, Oldest;
      AccurateSet(items, markers, 0, m, p);
      if |markers| < MAX_MARKERS {
        markers := markers + [m];
        return;
      }
      var oldest := FindOldest(markers);
      AccurateSet(items, markers, oldest, m, p);
      markers := markers[oldest := m];
    }

    /** Walks from `p` to the first item of the run that holds position `index`. */
    method WalkTo(p0: nat, index0: nat, index: nat) returns (p: nat, pindex: int)
      requires p0 < |items| && index0 == Prefix(Widths(items), p0)
      ensures p < |items| && pindex == Prefix(Widths(items), p) && Canonical(items, p, index)
    {
      p, pindex := p0, index0;
      ghost var ws := Widths(items);
      hide Widths;
      while p + 1 < |items| && pindex < index
        invariant p < |items| && pindex == Prefix(ws, p)
        decreases |items| - p
      {
        var n := Width(items, items[p]);
        WidthAt(items, p);
        if n > 0 && index < pindex + n {
          break;
        }
        p, pindex := p + 1, pindex + n;
      }
      WidthAt(items, p);
      while p > 0 && pindex > index
        invariant p < |items| && pindex == Prefix(ws, p)
        invariant pindex > index || Around(items, p, index)
        decreases p
      {
        p := p - 1;
        WidthAt(items, p);
        pindex := pindex - Width(items, items[p]);
      }
      ghost var t := p;
      while p > 0 && items[p - 1].id.client == items[p].id.client
            && items[p - 1].id.clock + items[p - 1].len == items[p].id.clock
        invariant p <= t < |items| && pindex == Prefix(ws, p) && Around(items, t, index)
        invariant forall i :: p < i <= t ==> Adjoins(items[i - 1], items[i])
        decreases p
      {
        p := p - 1;
        WidthAt(items, p);
        pindex := pindex - Width(items, items[p]);
      }
      assert Canonical(items, p, index);
    }

    /** Refreshes the nearest marker after a short walk, otherwise adds one. */
    method MarkPositionAt(index: nat) returns (ghost at: nat, ghost k: nat, ghost near: int)
      requires Valid() && items != []
      modifies `markers, `stamp
      ensures Valid() && Refreshed(items, old(markers), markers, old(stamp), stamp, length, index, at, k, near)
    {
      var best := Nearest(index);
      near := best;
      var p: nat, pindex: nat := 0, 0;
      if best >= 0 {
        p := Locate(markers[best]);
        pindex := markers[best].index;
        stamp := stamp + 1;
        AccurateSet(items, markers, best, markers[best].(stamp := stamp), p);
        markers := markers[best := markers[best].(stamp := stamp)];
      }
      hide ListOk, Rendered, Widths, Prefix, Accurate, Canonical;
      var to;
      p, to := WalkTo(p, pindex, index);
      at := p;
      if best >= 0 && Dist(markers[best].index, to) * MAX_MARKERS < length {
        stamp := stamp + 1;
        var m := Marker(items[p].id, to, stamp);
        MarksThere(items, m, p);
        AccurateSet(items, markers, best, m, p);
        markers := markers[best := m];
        k := best;
        return;
      }
      ghost var before := markers;
      MarkPosition(p, to);
      k := MarkedWhere(before, markers, Marker(items[p].id, to, stamp));
    }

    /** A lookup that may also move markers gives the same answer. */
    method FindMut(index: int) returns (p: int, s: nat)
      requires Valid()
      modifies `markers, `stamp
      ensures Valid()
      ensures (p, s) == if index <= 0 then (-1, 0) else Cold(Widths(items), 0, 0, index)
      ensures if index > 0 && items != [] then exists at, k, near ::
                Refreshed(items, old(markers), markers, old(stamp), stamp, length, index, at, k, near)
              else markers == old(markers) && stamp == old(stamp)
    {
      hide Refreshed;
      if index > 0 && items != [] {
        ghost var at, k, near := MarkPositionAt(index);
      }
      p, s := FindRO(index);
    }

    /** The last item with a position, -1 if there is none. */
    method LastShown() returns (p: int)
      ensures -1 <= p < |items| && (p >= 0 ==> Width(items, items[p]) > 0)
      ensures Prefix(Widths(items), p + 1) == Prefix(Widths(items), |items|)
    {
      ghost var ws := Widths(items);
      p := -1;
      var i := 0;
      while i < |items|
        invariant 0 <= i <= |items| && -1 <= p < i && (p >= 0 ==> ws[p] > 0)
        invariant Prefix(ws, p + 1) == Prefix(ws, i)
      {
        if Width(items, items[i]) > 0 {
          p := i;
        }
        i := i + 1;
      }
    }

    /**
      The item an insert at `index` goes after, -1 for the head, and how far into it: the
      insertion point is at rendered position `index`, or at the end if there is none.
    */
    method LeftNeighbourAt(index: int) returns (p: int, offset: nat)
      requires Valid()
      modifies `markers, `stamp
      ensures Valid() && -1 <= p < |items|
      ensures p >= 0 ==> Width(items, items[p]) > 0 && offset < Width(items, items[p])
      ensures p < 0 ==> offset == 0
      ensures var ws := Widths(items);
              && (0 <= index <= Prefix(ws, |ws|) ==>
                    index == if p < 0 then 0 else if offset > 0 then Prefix(ws, p) + offset else Prefix(ws, p + 1))
              && (index < 0 || index > Prefix(ws, |ws|) ==> offset == 0 && Prefix(ws, p + 1) == Prefix(ws, |ws|))
    {
      if index == 0 {
        return -1, 0;
      }
      ghost var ws := Widths(items);
      var start;
      p, start := FindMut(index);
      if index > 0 {
        ColdFrom(ws, 0, index);
      }
      if p < 0 {
        p := LastShown();
        return p, 0;
      }
      PrefixAscends(ws, p, |ws|);
      offset := index - start;
      if offset >= Width(items, items[p]) {
        offset := 0;
      }
    }

    method ClearMarkers()
      modifies `markers
      ensures markers == []
    {
      markers := [];
    }

    method UpdateMarkerChanges(index: int, delta: int)
      modifies `markers
      ensures markers == Updated(items, old(markers), index, delta)
    {
      var i := |markers|;
      ghost var ms := markers;
      assert ms[i..] == [] && ms[..i] == ms;
      while i > 0
        invariant 0 <= i <= |ms| && markers == ms[..i] + Updated(items, ms[i..], index, delta)
      {
        hide Updated, Dead;
        i := i - 1;
        UpdatedHead(items, ms, index, delta, i);
        var m := markers[i];
        if Dead(items, m) {
          markers := markers[..i] + markers[i + 1..];
        } else {
          markers := markers[..i] + [Shift(m, index, delta)] + markers[i + 1..];
        }
      }
      assert ms[0..] == ms;
    }

    method DropUncountedMarkersAt(index: nat)
      modifies `markers
      ensures markers == Counted(items, old(markers), index)
    {
      var i := |markers|;
      ghost var ms := markers;
      assert ms[i..] == [] && ms[..i] == ms;
      while i > 0
        invariant 0 <= i <= |ms| && markers == ms[..i] + Counted(items, ms[i..], index)
      {
        hide Counted, Uncounted;
        i := i - 1;
        DropOne(items, ms, index, i);
        var m := markers[i];
        if m.index == index && Uncounted(items, m) {
          markers := markers[..i] + markers[i + 1..];
        }
      }
      assert ms[0..] == ms;
    }

    /**
      Puts an item at place `q`.  A local insert knows its rendered position and shifts the
      markers behind it; otherwise all markers are dropped, unless the item is the last.
    */
    method Integrate(q: nat, x: Item, hint: nat)
      requires Valid() && q <= |items| && ItemOk(x) && x.movedBy.None? && NotMover(items, x)
      requires forall i :: 0 <= i < |items| ==> Apart(items[i], x)
      requires hint > 0 ==> AnchorOk(items, q) && (hint == Prefix(Widths(items), q) || Beyond(items, q, hint))
      modifies this
      ensures Shaped() && items == Inserted(old(items), q, x)
      ensures Valid() <==> !(x.content.Plain? && !x.deleted && Beyond(old(items), q, hint)
                             && LiveBehind(old(items), old(markers), q))
      ensures length == old(length) + (if x.content.Plain? && !x.deleted then x.len else 0)
      ensures markers == if !(x.content.Plain? && !x.deleted && q < |old(items)|)
                         then (if x.content.Move? then [] else old(markers))
                         else if hint == 0 then []
                         else Updated(items, if q > 0 && (items[q - 1].deleted || !items[q - 1].content.Plain?)
                                             then Counted(items, old(markers), hint) else old(markers), hint, x.len)
    {
      ghost var before, ms := items, markers;
      ListOkInsert(items, q, x);
      InsertCounts(items, q, x);
      var last := q == |items|;
      items := Inserted(items, q, x);
      if x.content.Plain? && !x.deleted {
        length := length + x.len;
        if !last {
          if hint > 0 {
            if q > 0 && (items[q - 1].deleted || !items[q - 1].content.Plain?) {
              DropUncountedMarkersAt(hint);
            }
            ghost var kept := markers;
            UpdateMarkerChanges(hint, x.len);
            if hint == Prefix(Widths(before), q) {
              HintKeepsMarkers(before, ms, kept, q, x);
            } else {
              BeyondEnd(before, ms, kept, q, x, hint);
            }
          } else {
            ClearMarkers();
          }
          return;
        }
      }
      AppendKeepsMarkers(before, ms, q, x);
      if x.content.Move? {
        ClearMarkers();
      }
    }

    /** Cuts an item in two; all markers are dropped. */
    method SplitItem(p: nat, k: nat)
      requires ListOk(items) && p < |items| && 0 < k < items[p].len && items[p].movedBy.None?
      modifies `items, `markers
      ensures ListOk(items) && items == SplitOf(old(items), p, k) && markers == []
    {
      SplitListOk(items, p, k);
      items := SplitOf(items, p, k);
      ClearMarkers();
    }

    /** Makes room at rendered position `index`: the place where an item shows its units there. */
    method InsertionPoint(index: int, ghost x: Item) returns (q: nat)
      requires Valid() && forall i :: 0 <= i < |items| ==> Apart(items[i], x)
      modifies `items, `markers, `stamp
      ensures Valid() && q <= |items| && AnchorOk(items, q)
      ensures Prefix(Widths(items), q) == OrEnd(index, |Rendered(items, 0, |items|)|)
      ensures forall i :: 0 <= i < |items| ==> Apart(items[i], x)
      ensures Rendered(items, 0, |items|) == old(Rendered(items, 0, |items|)) && Spots(items) == old(Spots(items))
      ensures index > |Rendered(items, 0, |items|)| ==> items == old(items)
    {
      RenderedLength(items, |items|);
      var p, offset := LeftNeighbourAt(index);
      hide Spots, Rendered, Apart, Widths, Width, ListOk, Accurate;
      if offset > 0 {
        CutAtPoint(p, offset, x);
      }
      q := p + 1;
      AnchorAfter(items, q);
    }

    /** Cuts an item for an insert inside it. */
    method CutAtPoint(p: nat, offset: nat, ghost x: Item)
      requires Valid() && p < |items| && 0 < offset < Width(items, items[p])
      requires forall i :: 0 <= i < |items| ==> Apart(items[i], x)
      modifies `items, `markers
      ensures Valid() && p < |items| && Width(items, items[p]) > 0
      ensures Prefix(Widths(items), p + 1) == old(Prefix(Widths(items), p)) + offset
      ensures forall i :: 0 <= i < |items| ==> Apart(items[i], x)
      ensures Rendered(items, 0, |items|) == old(Rendered(items, 0, |items|)) && Spots(items) == old(Spots(items))
    {
      ghost var before := items;
      hide Rendered, Apart, Widths, ListOk, Spots;
      SplitPlain(items, p);
      SplitSpots(items, p, offset);
      SplitKeeps(items, p, offset);
      SplitApart(items, p, offset, x);
      RenderedConcat(items, 0, p, |items|);
      SplitItem(p, offset);
      RenderedConcat(items, 0, p, |items|);
      SplitStart(before, items, p, offset);
    }

    /** Joins an item with the one before it, which it continues; nothing shows and all markers are dropped. */
    method MergeWithLeft(p: nat)
      requires Valid() && 0 < p < |items| && Continues(items[p - 1], items[p])
      modifies `items, `markers
      ensures Valid() && items == Merged(old(items), p) && markers == []
      ensures Rendered(items, 0, |items|) == old(Rendered(items, 0, |items|))
    {
      MergeKeeps(items, p);
      items := Merged(items, p);
      ClearMarkers();
    }

    /**
      Inserts a run at a rendered position, or at the end if there is no such position: exactly
      there the list shows the new units.  The markers stay accurate for every position that
      exists; beyond the end they do if no live item follows the last one that shows.
    */
    method Insert(index: int, id: Id, len: nat) returns (ghost k: nat)
      requires Valid() && 0 < len
      requires forall i :: 0 <= i < |items| ==> Apart(items[i], Item(id, len, Plain, false, None))
      modifies this
      ensures Shaped() && length == old(length) + len
      ensures index <= |old(Rendered(items, 0, |items|))| || TailDeleted(old(items)) ==> Valid()
      ensures var r := old(Rendered(items, 0, |items|));
              var at := OrEnd(index, |r|);
              Rendered(items, 0, |items|) == r[..at] + UnitIds(id, len) + r[at..]
      ensures k <= |old(Spots(items))|
      ensures var spots := old(Spots(items));
              Spots(items) == spots[..k] + SpotsOf(Item(id, len, Plain, false, None)) + spots[k..]
    {
      hide Spots, SpotsOf, Rendered, Apart, UnitIds, Accurate, ListOk, AnchorOk, Widths, Inserted, TailDeleted;
      var x := Item(id, len, Plain, false, None);
      ghost var r := Rendered(items, 0, |items|);
      ghost var at := OrEnd(index, |r|);
      var q := InsertionPoint(index, x);
      ghost var before := items;
      InsertRendered(items, q, x);
      InsertSpots(items, q, x);
      SpotsCut(items, q);
      k := |Spots(items[..q])|;
      RenderedLength(items, |items|);
      if TailDeleted(items) {
        NoneBehind(items, markers, q);
      }
      Integrate(q, x, if index > 0 then index else 0);
      assert Rendered(before, 0, q) == r[..at] && Rendered(before, q, |before|) == r[at..];
    }

    /** Hides one item of the range: its own units, or the unit a move shows. */
    method DeleteShown(p: nat)
      requires ListOk(items) && p < |items| && Width(items, items[p]) > 0
      modifies this
      ensures Hidden(old(items), items, p) && (markers == old(markers) || markers == [])
      ensures length == old(length) - old(Width(items, items[p]))
      ensures markers != [] ==> markers == old(markers) && old(items)[p].content.Plain?
                                && items == old(items)[p := old(items)[p].(deleted := true)]
      ensures old(items)[p].content.Plain? ==> markers == old(markers)
      ensures Spots(items) == Marked(old(Spots(items)), set id | id in old(Shown(items, items[p])))
    {
      hide Spots, Marked;
      if items[p].content.Move? {
        var j := 0;
        ghost var t :| 0 <= t < |items| && ShownBy(items[t], items[p]);
        while !ShownBy(items[j], items[p])
          invariant 0 <= j <= t
          decreases t - j
        {
          j := j + 1;
        }
        DeleteTarget(items, p, j);
        MarkTarget(items, p, j);
        length := length - 1;
        items := items[j := items[j].(deleted := true)];
        ClearMarkers();
      } else {
        DeletePlain(items, p);
        MarkSpots(items, p);
        length := length - items[p].len;
        items := items[p := items[p].(deleted := true)];
      }
    }

    /**
      There are no markers, at the start or because something was in the way, or they and
      the places they mark are those before the delete.  `total` is how much will be deleted.
    */
    ghost predicate MarkersTrack(items0: seq<Item>, ms: seq<Marker>, p: nat, counted: nat, index: nat, n: nat,
                                 total: nat)
      reads this
    {
      if markers == [] then ms == [] || index > 0 || !Whole(items0, total)
      else markers == ms && Ahead(items0, items, p, counted, index, n)
    }

    /** The first item that is not deleted. */
    method FirstLive() returns (p: nat)
      requires ListOk(items)
      ensures p <= |items| && Reached(Rendered(items, 0, |items|), items, p, 0, 0, 0)
    {
      p := 0;
      ghost var r := Rendered(items, 0, |items|);
      assert Rendered(items, 0, 0) == [] && r[0..] == r;
      while p < |items| && items[p].deleted
        invariant p <= |items| && Reached(r, items, p, 0, 0, 0)
      {
        hide Reached, Rendered;
        ReachedPast(r, items, p, 0, 0, 0);
        p := p + 1;
      }
    }

    /** Where a delete at `index` starts. */
    method DeleteStart(index: int) returns (p: nat, counted: nat)
      requires Valid()
      modifies `markers, `stamp
      ensures Valid() && p <= |items|
      ensures index <= |Rendered(items, 0, |items|)| ==>
                Reached(Rendered(items, 0, |items|), items, p, counted, if index < 0 then 0 else index, 0)
      ensures index > |Rendered(items, 0, |items|)| ==> p == |items|
      ensures index <= 0 ==> markers == old(markers)
    {
      if index <= 0 {
        counted := 0;
        p := FirstLive();
        return;
      }
      hide Rendered;
      ghost var ws := Widths(items);
      ColdFrom(ws, 0, index);
      RenderedLength(items, |items|);
      var q;
      q, counted := FindMut(index);
      if q < 0 {
        p := |items|;
        return;
      }
      p := q;
      RenderedLength(items, p);
      RenderedConcat(items, 0, p, |items|);
    }

    /** Passes an item that shows nothing or ends before the range. */
    ghost method Pass(p: nat, counted: nat, index: nat, r: seq<Id>, items0: seq<Item>, ms: seq<Marker>, n: nat,
                      total: nat)
      requires Reached(r, items, p, counted, index, n) && p < |items|
      requires MarkersTrack(items0, ms, p, counted, index, n, total)
      requires Width(items, items[p]) == 0 || counted + Width(items, items[p]) <= index
      ensures Reached(r, items, p + 1, counted + Width(items, items[p]), index, n)
      ensures MarkersTrack(items0, ms, p + 1, counted + Width(items, items[p]), index, n, total)
    {
      ReachedPast(r, items, p, counted, index, n);
      if markers != [] {
        AheadPast(items0, items, p, counted, index, n);
      }
    }

    /** Deletes what the item at `p` shows; it lies in the range as a whole. */
    method DeleteStep(p: nat, ghost index: nat, ghost r: seq<Id>, ghost items0: seq<Item>, ghost ms: seq<Marker>,
                      ghost n: nat, ghost total: nat)
      requires Reached(r, items, p, index, index, n) && p < |items| && Width(items, items[p]) > 0
      requires MarkersTrack(items0, ms, p, index, index, n, total) && n < total
      modifies this
      ensures Reached(r, items, p + 1, index, index, n + old(Width(items, items[p])))
      ensures MarkersTrack(items0, ms, p + 1, index, index, n + old(Width(items, items[p])), total)
      ensures |items| == |old(items)| && length == old(length) - old(Width(items, items[p]))
      ensures Cleared(old(Spots(items)), r, index + n, index + n + old(Width(items, items[p])), Spots(items))
    {
      hide Rendered, Reached, Ahead, Whole, ListOk, Widths, Hidden, Width, Spots, Cleared, Marked, Shown, Span, Prefix;
      ReachedList(r, items, p, index, index, n);
      ghost var before, kept := items, markers;
      ReachedUnits(r, items, p, index, n);
      DeleteShown(p);
      ClearedBy(Spots(before), r, index + n, index + n + Width(before, before[p]), Spots(items));
      HiddenKind(before, items, p);
      ReachedHidden(r, before, items, p, index, n);
      if markers != [] {
        ReachedStart(r, before, p, index, index, n);
        AheadHidden(items0, before, items, p, index, n);
      } else if kept != [] && index == 0 {
        InTheWay(items0, before, p, n, total);
      }
    }

    /** Cuts the item at `p` at the start of the range and moves into it. */
    method EnterRange(p: nat, counted: nat, index: nat, ghost r: seq<Id>)
      requires Reached(r, items, p, counted, index, 0) && p < |items| && !items[p].content.Move?
      requires counted < index < counted + Width(items, items[p])
      modifies `items, `markers
      ensures Reached(r, items, p + 1, index, index, 0) && markers == [] && p + 1 < |items| == |old(items)| + 1
      ensures Width(items, items[p + 1]) > 0 && !items[p + 1].content.Move? && Spots(items) == old(Spots(items))
    {
      SplitPlain(items, p);
      var k := index - counted;
      SplitSpots(items, p, k);
      hide Spots;
      ReachedSplit(r, items, p, counted, index, 0, k);
      SplitItem(p, k);
      assert Width(items, items[p]) == k;
      ReachedPast(r, items, p, counted, index, 0);
    }

    /** Cuts the item at `p` so that `left` units of it lie in the range. */
    method LeaveRange(p: nat, ghost index: nat, left: nat, ghost r: seq<Id>, ghost n: nat)
      requires Reached(r, items, p, index, index, n) && p < |items| && 0 < left < Width(items, items[p])
      modifies `items, `markers
      ensures Reached(r, items, p, index, index, n) && markers == [] && p < |items| == |old(items)| + 1
      ensures Width(items, items[p]) == left && Spots(items) == old(Spots(items))
    {
      SplitPlain(items, p);
      SplitSpots(items, p, left);
      hide Spots;
      ReachedSplit(r, items, p, index, index, n, left);
      SplitItem(p, left);
    }

    /**
      Deletes the units at rendered positions `index` to `index + length`, as far as they
      exist; every other unit stays shown, in the same order.  A negative start is the first
      position.  The markers stay accurate unless the start is negative and one of them was, in
      a stretch that goes as a whole, on a live item that shows nothing.
    */
    method DeleteRange(index: int, length0: int)
      requires Valid()
      modifies this
      ensures Shaped()
      ensures var n := Clamp(length0, |old(Rendered(items, 0, |items|))|);
              Valid() <==> !(index < 0 && Whole(old(items), n) && HiddenWithin(old(items), old(markers), n))
      ensures var r := old(Rendered(items, 0, |items|));
              Rendered(items, 0, |items|) == Without(r, index, length0)
      ensures Cleared(old(Spots(items)), old(Rendered(items, 0, |items|)), if index < 0 then 0 else index,
                    (if index < 0 then 0 else index) + (if length0 < 0 then 0 else length0), Spots(items))
    {
      hide Rendered, Width, Widths, ListOk, Accurate, Ahead, Reached, Whole, HiddenWithin, Without, Spots, Cleared;
      ghost var r := Rendered(items, 0, |items|);
      NoneHidden(items, markers);
      if length0 <= 0 {
        WithoutNone(r, index, length0);
        ClearedNone(Spots(items), r, if index < 0 then 0 else index);
        return;
      }
      var p: nat, counted: nat := DeleteStart(index);
      if p == |items| {
        NothingToDelete(r, items, p, counted, index, length0);
        ClearedNothing(r, items, p, counted, index, length0);
        return;
      }
      DeleteFrom(p, counted, index, length0, r);
    }

    method DeleteFrom(p0: nat, counted0: nat, index: int, length0: nat, ghost r: seq<Id>)
      requires Valid() && p0 < |items| && r == Rendered(items, 0, |items|) && index <= |r|
      requires Reached(r, items, p0, counted0, if index < 0 then 0 else index, 0)
      modifies this
      ensures Shaped()
      ensures Valid() <==> !(index < 0 && Whole(old(items), Min(length0, |r|))
                             && HiddenWithin(old(items), old(markers), Min(length0, |r|)))
      ensures Rendered(items, 0, |items|) == Without(r, index, length0)
      ensures var at := if index < 0 then 0 else index; Cleared(old(Spots(items)), r, at, at + length0, Spots(items))
    {
      hide Rendered, Width, Widths, ListOk, Accurate, Ahead, Reached, Without, Whole, HiddenWithin, Spots, Cleared;
      var p: nat, counted: nat, at: nat := p0, counted0, if index < 0 then 0 else index;
      ghost var items0, ms := items, markers;
      var left: nat := length0;
      ReachedStart(r, items, p, counted, at, 0);
      ClearedNone(Spots(items), r, at);
      AheadStart(items, p, counted, at);
      while p < |items| && left > 0
        invariant left <= length0 && p <= |items|
        invariant Reached(r, items, p, counted, at, length0 - left)
        invariant MarkersTrack(items0, ms, p, counted, at, length0 - left, Min(length0, |r|))
        invariant length == old(length) - (length0 - left)
        invariant Cleared(old(Spots(items)), r, at, at + length0 - left, Spots(items))
        decreases |items| - p + 2 * left
      {
        ghost var before, left0 := Spots(items), left;
        p, counted, left := DeleteAt(p, counted, at, length0, left, r, items0, ms);
        ClearedMore(old(Spots(items)), r, at, at + length0 - left0, at + length0 - left, before, Spots(items));
      }
      if left > 0 {
        ClearedAll(old(Spots(items)), r, items, p, counted, at, length0, left, Spots(items));
      }
      FinishDelete(index, length0 - left, p, counted, length0, r, items0, ms);
    }

    /** One step of a delete: passes the item at `p`, or deletes what of it lies in the range. */
    method DeleteAt(p: nat, counted: nat, index: nat, ghost length0: nat, left: nat,
                    ghost r: seq<Id>, ghost items0: seq<Item>, ghost ms: seq<Marker>)
      returns (p': nat, counted': nat, left': nat)
      requires p < |items| && 0 < left <= length0
      requires Reached(r, items, p, counted, index, length0 - left)
      requires MarkersTrack(items0, ms, p, counted, index, length0 - left, Min(length0, |r|))
      modifies this
      ensures p' <= |items| && left' <= left
      ensures Reached(r, items, p', counted', index, length0 - left')
      ensures MarkersTrack(items0, ms, p', counted', index, length0 - left', Min(length0, |r|))
      ensures |items| - p' + 2 * left' < |old(items)| - p + 2 * left && length == old(length) - (left - left')
      ensures Cleared(old(Spots(items)), r, index + length0 - left, index + length0 - left', Spots(items))
    {
      hide Rendered, Reached, Width, ListOk, Ahead, Whole, Shown, Widths, Prefix, Wins, Spots, Cleared;
      ClearedNone(Spots(items), r, index + length0 - left);
      p', counted', left' := p, counted, left;
      var n := Width(items, items[p]);
      ReachedFacts(r, items, p, counted, index, length0 - left);
      if n == 0 || counted + n <= index {
        Pass(p, counted, index, r, items0, ms, length0 - left, Min(length0, |r|));
        p', counted' := p + 1, counted + n;
        return;
      }
      if counted < index {
        OneWide(items, p);
        EnterRange(p, counted, index, r);
        p', counted' := p + 1, index;
      }
      left' := DeleteHere(p', index, length0, left, r, items0, ms);
      p' := p' + 1;
    }

    /** Deletes what of the item at `p` lies in the range, which starts at or before it. */
    method DeleteHere(p: nat, ghost index: nat, ghost length0: nat, left: nat,
                      ghost r: seq<Id>, ghost items0: seq<Item>, ghost ms: seq<Marker>)
      returns (left': nat)
      requires p < |items| && 0 < left <= length0 && Width(items, items[p]) > 0
      requires Reached(r, items, p, index, index, length0 - left)
      requires MarkersTrack(items0, ms, p, index, index, length0 - left, Min(length0, |r|))
      modifies this
      ensures p < |items| <= |old(items)| + 1 && left' < left && (|items| > |old(items)| ==> left' == 0)
      ensures Reached(r, items, p + 1, index, index, length0 - left')
      ensures MarkersTrack(items0, ms, p + 1, index, index, length0 - left', Min(length0, |r|))
      ensures length == old(length) - (left - left')
      ensures Cleared(old(Spots(items)), r, index + length0 - left, index + length0 - left', Spots(items))
    {
      hide Rendered, Reached, Width, ListOk, Ahead, Whole, Shown, Widths, Prefix, Wins, Spots, Cleared;
      var n := Width(items, items[p]);
      ReachedMore(r, items, p, index, length0 - left);
      if n > left {
        if markers != [] && index == 0 {
          InTheWay(items0, items, p, length0 - left, Min(length0, |r|));
        }
        LeaveRange(p, index, left, r, length0 - left);
        n := left;
      }
      DeleteStep(p, index, r, items0, ms, length0 - left, Min(length0, |r|));
      left' := left - n;
    }

    /** Shifts the markers by what was deleted. */
    method FinishDelete(index: int, n: nat, ghost p: nat, ghost counted: nat, ghost length0: nat,
                        ghost r: seq<Id>, ghost items0: seq<Item>, ghost ms: seq<Marker>)
      requires var at := if index < 0 then 0 else index;
               && Reached(r, items, p, counted, at, n) && MarkersTrack(items0, ms, p, counted, at, n, Min(length0, |r|))
               && at <= |r|
      requires n <= length0 && (p == |items| || n == length0)
      requires ListOk(items0) && Accurate(items0, ms) && |ms| <= MAX_MARKERS && length == |r| - n
      modifies `markers
      ensures Shaped()
      ensures Valid() <==>
                !(index < 0 && Whole(items0, Min(length0, |r|)) && HiddenWithin(items0, ms, Min(length0, |r|)))
      ensures Rendered(items, 0, |items|) == Without(r, index, length0)
    {
      hide Rendered, Reached, Updated, Accurate, HiddenWithin, ListOk, Ahead, Tracks, Whole;
      ghost var at := if index < 0 then 0 else index;
      ReachedEnd(r, items, p, counted, at, n, length0);
      if markers == [] {
        NoMarkers(items0, items, index, n, Min(length0, |r|));
      } else {
        AheadTracks(items0, items, p, counted, at, n);
        DeleteKeepsMarkers(items0, items, ms, at, n);
        if index < 0 {
          ReachedAll(r, items, p, counted, n, length0);
          KeptIsWhole(items0, items, p, n);
          NegativeDelete(items0, items, ms, index, n);
        }
      }
      if n > 0 {
        UpdateMarkerChanges(index, 0 - n);
      }
    }
  }

  /** What is left of a list without the elements of a range, as far as they exist. */
  function Without<T>(r: seq<T>, index: int, length: int): seq<T> {
    var at := Clamp(index, |r|);
    r[..at] + r[Clamp(at + Clamp(length, |r|), |r|)..]
  }

  /** A position beyond the end, used for an insert at the end. */
  ghost predicate Beyond(items: seq<Item>, q: nat, hint: nat) {
    q <= |items| && hint > Prefix(Widths(items), q) == Prefix(Widths(items), |items|)
  }

  /** A marker is on a live item from `q` on. */
  ghost predicate LiveBehind(items: seq<Item>, ms: seq<Marker>, q: nat) {
    exists k, p :: 0 <= k < |ms| && q <= p < |items| && items[p].id == ms[k].id && !items[p].deleted
  }

  /**
    A marker with a position before `n` is on a live item that shows nothing: a mark, or an
    element shown elsewhere.
  */
  ghost predicate HiddenWithin(items: seq<Item>, ms: seq<Marker>, n: nat) {
    exists k, p :: 0 <= k < |ms| && 0 <= p < |items| && items[p].id == ms[k].id && ms[k].index < n
                   && !items[p].deleted && Width(items, items[p]) == 0
  }

  /** Whatever follows the last item that shows is deleted. */
  ghost predicate TailDeleted(items: seq<Item>) {
    forall p :: 0 <= p < |items| && Prefix(Widths(items), p) == Prefix(Widths(items), |items|) ==> items[p].deleted
  }

  lemma NoneBehind(items: seq<Item>, ms: seq<Marker>, q: nat)
    requires TailDeleted(items) && q <= |items|
    ensures Prefix(Widths(items), q) == Prefix(Widths(items), |items|) ==> !LiveBehind(items, ms, q)
  {
    hide Widths;
    forall p | q <= p < |items|
      ensures Prefix(Widths(items), q) <= Prefix(Widths(items), p) <= Prefix(Widths(items), |items|)
    {
      PrefixAscends(Widths(items), q, p);
      PrefixAscends(Widths(items), p, |items|);
    }
  }

  lemma {:induction false} CountedAll(items: seq<Item>, ms: seq<Marker>, index: int)
    requires forall k :: 0 <= k < |ms| ==> ms[k].index != index
    ensures Counted(items, ms, index) == ms
    decreases |ms|
  {
    if ms != [] { CountedAll(items, ms[1..], index); }
  }

  lemma {:induction false} UpdatedHas(items: seq<Item>, ms: seq<Marker>, index: int, delta: int, j: nat)
    requires j < |ms| && !Dead(items, ms[j])
    ensures Shift(ms[j], index, delta) in Updated(items, ms, index, delta)
    decreases |ms|
  {
    if j > 0 { UpdatedHas(items, ms[1..], index, delta, j - 1); }
  }

  lemma IndexInside(items: seq<Item>, ms: seq<Marker>, k: nat)
    requires Accurate(items, ms) && k < |ms|
    ensures 0 <= ms[k].index <= Prefix(Widths(items), |items|)
  {
    assert Right(items, ms[k]);
    var p: nat :| MarksAt(items, ms[k], p);
    PrefixAscends(Widths(items), p, |items|);
  }

  /**
    An insert beyond the end does not move markers.  Those that are left are accurate exactly
    if none is on a live item behind the new one.
  */
  lemma BeyondEnd(items: seq<Item>, ms: seq<Marker>, kept: seq<Marker>, q: nat, x: Item, hint: nat)
    requires ListOk(items) && Accurate(items, ms) && Beyond(items, q, hint) && ItemOk(x)
    requires x.movedBy.None? && x.content.Plain? && !x.deleted && forall i :: 0 <= i < |items| ==> Apart(items[i], x)
    requires kept == ms || kept == Counted(Inserted(items, q, x), ms, hint)
    ensures var ms' := Updated(Inserted(items, q, x), kept, hint, x.len);
            (Accurate(Inserted(items, q, x), ms') <==> !LiveBehind(items, ms, q)) && |ms'| <= |ms|
  {
    hide Widths, Width, ListOk, Apart, ItemOk, Dead, Updated, Counted;
    var items' := Inserted(items, q, x);
    var ms' := Updated(items', ms, hint, x.len);
    forall k | 0 <= k < |ms| ensures 0 <= ms[k].index < hint {
      IndexInside(items, ms, k);
    }
    CountedAll(items', ms, hint);
    Fewer(items', ms, hint, x.len);
    if LiveBehind(items, ms, q) {
      var k, p :| 0 <= k < |ms| && q <= p < |items| && items[p].id == ms[k].id && !items[p].deleted;
      LeftBehind(items, ms[k], q, x, p, ms, k);
      UpdatedHas(items', ms, hint, x.len, k);
    } else {
      forall k | 0 <= k < |ms'|
        ensures Right(items', ms'[k])
      {
        UpdatedFrom(items', ms, hint, x.len, k);
        var j :| 0 <= j < |ms| && !Dead(items', ms[j]) && ms'[k] == Shift(ms[j], hint, x.len);
        assert Right(items, ms[j]);
        var p: nat :| MarksAt(items, ms[j], p);
        NotDead(items, q, x, ms[j], p);
        assert p < q;
        BeforeInsert(items, ms[j], q, x, p);
      }
    }
  }

  /** A marker before an insert stays accurate. */
  lemma BeforeInsert(items: seq<Item>, m: Marker, q: nat, x: Item, p: nat)
    requires MarksAt(items, m, p) && p < q <= |items| && x.movedBy.None? && x.content.Plain? && !x.deleted
    ensures Right(Inserted(items, q, x), m)
  {
    WidthsInsert(items, q, x);
    PrefixInsert(Widths(items), q, x.len, p);
    assert MarksAt(Inserted(items, q, x), m, p);
  }

  /** A marker on a live item behind an insert is wrong unless it is moved. */
  lemma LeftBehind(items: seq<Item>, m: Marker, q: nat, x: Item, p: nat, ms: seq<Marker>, k: nat)
    requires ListOk(items) && Accurate(items, ms) && k < |ms| && ms[k] == m && ItemOk(x)
    requires forall i :: 0 <= i < |items| ==> Apart(items[i], x)
    requires q <= p < |items| && items[p].id == m.id && !items[p].deleted && x.movedBy.None? && x.content.Plain?
    requires !x.deleted
    ensures !Dead(Inserted(items, q, x), m) && !Right(Inserted(items, q, x), m)
  {
    var items' := Inserted(items, q, x);
    hide Widths, Width, ListOk, Apart;
    assert items'[p + 1] == items[p];
    assert Right(items, m);
    var p0: nat :| MarksAt(items, m, p0);
    SameIdSameItem(items, p0, p);
    WidthsInsert(items, q, x);
    PrefixInsert(Widths(items), q, x.len, p + 1);
    forall r: nat
      ensures !MarksAt(items', m, r)
    {
      if r < |items'| && items'[r].id == m.id {
        ListSame(items, q, x, p, r);
        SamePlace(items, q, x, p, r);
      }
    }
  }

  lemma SamePlace(items: seq<Item>, q: nat, x: Item, p: nat, r: nat)
    requires ListOk(items) && ItemOk(x) && q <= p < |items| && r <= |items|
    requires Inserted(items, q, x)[r].id == items[p].id
    requires forall i :: 0 <= i < |items| ==> Apart(items[i], x)
    ensures r == p + 1
  {
    var items' := Inserted(items, q, x);
    assert ItemOk(items[p]) && Apart(items[p], x);
    if r != q {
      var r0 := if r < q then r else r - 1;
      assert items'[r] == items[r0];
      SameIdSameItem(items, p, r0);
    }
  }

  /**
    A list of two elements, the second moved to the front, with a marker on its old place: an
    insert at position 5 leaves that marker behind.
  */
  lemma BeyondEndExample()
    ensures var items, ms, x := ExampleItems(), [Marker(Id(3, 0), 2, 1)], Item(Id(4, 0), 1, Plain, false, None);
            && ListOk(items) && Accurate(items, ms) && Beyond(items, 2, 5)
            && !Accurate(Inserted(items, 2, x), Updated(Inserted(items, 2, x), ms, 5, 1))
  {
    var items, ms, x := ExampleItems(), [Marker(Id(3, 0), 2, 1)], Item(Id(4, 0), 1, Plain, false, None);
    assert ShownBy(items[2], items[0]);
    assert Widths(items) == [1, 1, 0];
    assert Prefix([1, 1, 0], 0) == 0
           && Prefix([1, 1, 0], 1) == 1 && Prefix([1, 1, 0], 2) == 2 && Prefix([1, 1, 0], 3) == 2;
    assert MarksAt(items, ms[0], 2);
    BeyondEnd(items, ms, ms, 2, x, 5);
  }

  function ExampleItems(): seq<Item> {
    [Item(Id(2, 0), 1, Move(Id(3, 0)), false, None), Item(Id(1, 0), 1, Plain, false, None),
     Item(Id(3, 0), 1, Plain, false, Some(Id(2, 0)))]
  }

  /**
    After a delete of `n` positions with a negative start the markers that are left are accurate
    exactly if before it none was, within these positions, on a live item that shows nothing.
  */
  lemma NegativeDelete(items0: seq<Item>, items: seq<Item>, ms: seq<Marker>, index: int, n: nat)
    requires index < 0 && ListOk(items0) && Accurate(items0, ms) && Tracks(items0, items, 0, n)
    requires forall i :: 0 <= i < |items0| && Prefix(Widths(items0), i) < n ==>
               items[i].deleted == (items0[i].deleted || Width(items0, items0[i]) > 0)
    ensures Accurate(items, Updated(items, ms, index, 0 - n)) <==> !HiddenWithin(items0, ms, n)
    ensures n == 0 ==> !HiddenWithin(items0, ms, n)
    ensures |Updated(items, ms, index, 0 - n)| <= |ms|
  {
    hide Widths, Updated, Width, ListOk;
    var ms' := Updated(items, ms, index, 0 - n);
    Fewer(items, ms, index, 0 - n);
    forall k | 0 <= k < |ms| ensures 0 <= ms[k].index {
      IndexInside(items0, ms, k);
    }
    if HiddenWithin(items0, ms, n) {
      var k, p :| 0 <= k < |ms| && 0 <= p < |items0| && items0[p].id == ms[k].id && ms[k].index < n
                  && !items0[p].deleted && Width(items0, items0[p]) == 0;
      MarkedThere(items0, ms, k, p);
      assert items[p].id == ms[k].id && !items[p].deleted;
      UpdatedHas(items, ms, index, 0 - n, k);
      assert Shift(ms[k], index, 0 - n).index < 0;
      assert !Right(items, Shift(ms[k], index, 0 - n));
    } else {
      forall k | 0 <= k < |ms'|
        ensures Right(items, ms'[k])
      {
        UpdatedFrom(items, ms, index, 0 - n, k);
        var j :| 0 <= j < |ms| && !Dead(items, ms[j]) && ms'[k] == Shift(ms[j], index, 0 - n);
        SurvivorRight(items0, items, ms, index, n, j);
      }
    }
  }

  lemma MarkedThere(items: seq<Item>, ms: seq<Marker>, k: nat, p: nat)
    requires ListOk(items) && Accurate(items, ms) && k < |ms| && p < |items| && items[p].id == ms[k].id
    ensures MarksAt(items, ms[k], p)
  {
    assert Right(items, ms[k]);
    var q: nat :| MarksAt(items, ms[k], q);
    SameIdSameItem(items, p, q);
  }

  lemma SurvivorRight(items0: seq<Item>, items: seq<Item>, ms: seq<Marker>, index: int, n: nat, j: nat)
    requires index < 0 && ListOk(items0) && Accurate(items0, ms) && Tracks(items0, items, 0, n)
    requires forall i :: 0 <= i < |items0| && Prefix(Widths(items0), i) < n ==>
               items[i].deleted == (items0[i].deleted || Width(items0, items0[i]) > 0)
    requires j < |ms| && !Dead(items, ms[j]) && !HiddenWithin(items0, ms, n)
    ensures Right(items, Shift(ms[j], index, 0 - n))
  {
    hide Widths, Width, ListOk;
    assert Right(items0, ms[j]);
    var p: nat :| MarksAt(items0, ms[j], p);
    var q :| 0 <= q < |items| && items[q].id == ms[j].id && !items[q].deleted;
    SameIdSameItem(items0, p, q);
    assert Prefix(Widths(items), p) == CutAt(Prefix(Widths(items0), p), 0, n);
    assert MarksAt(items, Shift(ms[j], index, 0 - n), p);
  }

  /**
    A format marker and one unit, with a search marker on the format marker: deleting the
    unit from position -1 breaks it.
  */
  lemma NegativeDeleteExample()
    ensures var f, a := Item(Id(1, 0), 1, Mark, false, None), Item(Id(1, 1), 1, Plain, false, None);
            var ms := [Marker(Id(1, 0), 0, 1)];
            && ListOk([f, a]) && Accurate([f, a], ms) && Whole([f, a], 1) && HiddenWithin([f, a], ms, 1)
            && !Accurate([f, a.(deleted := true)], Updated([f, a.(deleted := true)], ms, -1, -1))
  {
    var f, a := Item(Id(1, 0), 1, Mark, false, None), Item(Id(1, 1), 1, Plain, false, None);
    var ms := [Marker(Id(1, 0), 0, 1)];
    var items0, items := [f, a], [f, a.(deleted := true)];
    assert Widths(items0) == [0, 1] && Widths(items) == [0, 0];
    hide Widths;
    assert MarksAt(items0, ms[0], 0);
    assert Prefix([0, 1], 0) == 0 && Prefix([0, 1], 1) == 0 && Prefix([0, 1], 2) == 1;
    assert Prefix([0, 0], 0) == 0 && Prefix([0, 0], 1) == 0 && Prefix([0, 0], 2) == 0;
    assert Tracks(items0, items, 0, 1);
    assert items0[0].id == ms[0].id;
    NegativeDelete(items0, items, ms, -1, 1);
  }

  lemma NoMarkers(items0: seq<Item>, items: seq<Item>, index: int, n: nat, total: nat)
    ensures Accurate(items, []) && !HiddenWithin(items0, [], total) && Updated(items, [], index, 0 - n) == []
  {
  }

  lemma WithoutNone(r: seq<Id>, index: int, length0: int)
    requires length0 <= 0
    ensures Without(r, index, length0) == r
  {
  }

  lemma NoneHidden(items: seq<Item>, ms: seq<Marker>)
    requires Accurate(items, ms)
    ensures !HiddenWithin(items, ms, 0)
  {
    forall k | 0 <= k < |ms| ensures 0 <= ms[k].index {
      IndexInside(items, ms, k);
    }
  }

  /** A delete that starts at or beyond the end changes nothing. */
  /** The units at positions `from` to `to`. */
  function Span(r: seq<Id>, from: nat, to: nat): set<Id> {
    set i | from <= i < to && i < |r| :: r[i]
  }

  /** Exactly these units have been deleted; nothing has been added, removed or moved. */
  ghost predicate Cleared(spots: seq<Spot>, r: seq<Id>, from: nat, to: nat, spots': seq<Spot>) {
    spots' == Marked(spots, Span(r, from, to))
  }

  lemma ClearedBy(spots: seq<Spot>, r: seq<Id>, from: nat, to: nat, spots': seq<Spot>)
    requires spots' == Marked(spots, Span(r, from, to))
    ensures Cleared(spots, r, from, to, spots')
  {
  }

  lemma ClearedNone(spots: seq<Spot>, r: seq<Id>, k: nat)
    ensures Cleared(spots, r, k, k, spots)
  {
    MarkedMore(spots, {}, {});
    assert Span(r, k, k) == {};
  }

  lemma ClearedMore(spots: seq<Spot>, r: seq<Id>, a: nat, b: nat, c: nat, spots0: seq<Spot>, spots': seq<Spot>)
    requires a <= b <= c && Cleared(spots, r, a, b, spots0) && Cleared(spots0, r, b, c, spots')
    ensures Cleared(spots, r, a, c, spots')
  {
    MarkedMore(spots, Span(r, a, b), Span(r, b, c));
    assert Span(r, a, b) + Span(r, b, c) == Span(r, a, c);
  }

  /** A range that goes beyond the end is no longer than what is there. */
  lemma ClearedAll(spots: seq<Spot>, r: seq<Id>, items: seq<Item>, p: nat, counted: nat, at: nat, length0: nat,
                   left: nat, spots': seq<Spot>)
    requires p == |items| && left <= length0 && Reached(r, items, p, counted, at, length0 - left)
    requires Cleared(spots, r, at, at + length0 - left, spots')
    ensures Cleared(spots, r, at, at + length0, spots')
  {
    assert Rendered(items, p, |items|) == [];
    assert Span(r, at, at + length0 - left) == Span(r, at, at + length0);
  }

  lemma ClearedNothing(r: seq<Id>, items: seq<Item>, p: nat, counted: nat, index: int, length0: nat)
    requires p == |items| && r == Rendered(items, 0, |items|)
    requires index <= |r| ==> Reached(r, items, p, counted, if index < 0 then 0 else index, 0)
    ensures var at := if index < 0 then 0 else index; Cleared(Spots(items), r, at, at + length0, Spots(items))
  {
    hide Spots, Marked;
    if index <= |r| {
      assert Rendered(items, p, |items|) == [];
    }
    MarkedMore(Spots(items), {}, {});
    assert Span(r, if index < 0 then 0 else index, (if index < 0 then 0 else index) + length0) == {};
  }

  /** What the next item of the range shows. */
  lemma ReachedUnits(r: seq<Id>, items: seq<Item>, p: nat, index: nat, n: nat)
    requires Reached(r, items, p, index, index, n) && p < |items|
    ensures (set id | id in Shown(items, items[p])) == Span(r, index + n, index + n + Width(items, items[p]))
  {
    hide Rendered, Shown, Width, ListOk;
    var s, w := Shown(items, items[p]), Width(items, items[p]);
    RenderedHead(items, p);
    ShownWidth(items, items[p]);
    assert forall i :: 0 <= i < w ==> r[index + n..][i] == s[i];
    forall id | id in s
      ensures id in Span(r, index + n, index + n + w)
    {
      var i :| 0 <= i < w && s[i] == id;
      assert r[index + n + i] == id;
    }
    forall id | id in Span(r, index + n, index + n + w)
      ensures id in s
    {
      var i :| index + n <= i < index + n + w && i < |r| && r[i] == id;
      assert s[i - index - n] == id;
    }
  }

  /** Deleting what a move shows deletes that unit. */
  lemma MarkTarget(items: seq<Item>, p: nat, j: nat)
    requires ListOk(items) && p < |items| && j < |items| && !items[p].deleted && ShownBy(items[j], items[p])
    ensures Spots(items[j := items[j].(deleted := true)]) ==
            Marked(Spots(items), set id | id in Shown(items, items[p]))
  {
    hide Spots, Marked;
    assert ItemOk(items[j]);
    MarkSpots(items, j);
    assert UnitIds(items[j].id, 1) == [items[p].content.target];
  }

  lemma NothingToDelete(r: seq<Id>, items: seq<Item>, p: nat, counted: nat, index: int, length0: int)
    requires p == |items| && r == Rendered(items, 0, |items|)
    requires index <= |r| ==> Reached(r, items, p, counted, if index < 0 then 0 else index, 0)
    ensures r == Without(r, index, length0) && (index < 0 ==> r == [])
  {
    if index <= |r| {
      assert Rendered(items, p, |items|) == [];
    }
  }

  /** The markers left after a hinted insert are accurate. */
  lemma HintKeepsMarkers(items: seq<Item>, ms: seq<Marker>, kept: seq<Marker>, q: nat, x: Item)
    requires ListOk(items) && Accurate(items, ms) && AnchorOk(items, q) && ItemOk(x)
    requires x.movedBy.None? && x.content.Plain? && !x.deleted && forall i :: 0 <= i < |items| ==> Apart(items[i], x)
    requires kept == if q > 0 && (items[q - 1].deleted || !items[q - 1].content.Plain?)
                     then Counted(Inserted(items, q, x), ms, Prefix(Widths(items), q)) else ms
    ensures var ms' := Updated(Inserted(items, q, x), kept, Prefix(Widths(items), q), x.len);
            Accurate(Inserted(items, q, x), ms') && |ms'| <= |ms|
  {
    var items', hint := Inserted(items, q, x), Prefix(Widths(items), q);
    var ms' := Updated(items', kept, hint, x.len);
    Fewer(items', ms, hint, x.len);
    Fewer(items', kept, hint, x.len);
    forall k | 0 <= k < |ms'|
      ensures Right(items', ms'[k])
    {
      UpdatedFrom(items', kept, hint, x.len, k);
      var j :| 0 <= j < |kept| && !Dead(items', kept[j]) && ms'[k] == Shift(kept[j], hint, x.len);
      KeptMarker(items, ms, kept, q, x, j);
    }
  }

  lemma KeptMarker(items: seq<Item>, ms: seq<Marker>, kept: seq<Marker>, q: nat, x: Item, j: nat)
    requires ListOk(items) && Accurate(items, ms) && AnchorOk(items, q) && ItemOk(x)
    requires x.movedBy.None? && x.content.Plain? && !x.deleted && forall i :: 0 <= i < |items| ==> Apart(items[i], x)
    requires kept == if q > 0 && (items[q - 1].deleted || !items[q - 1].content.Plain?)
                     then Counted(Inserted(items, q, x), ms, Prefix(Widths(items), q)) else ms
    requires j < |kept| && !Dead(Inserted(items, q, x), kept[j])
    ensures Right(Inserted(items, q, x), Shift(kept[j], Prefix(Widths(items), q), x.len))
  {
    var items', ws := Inserted(items, q, x), Widths(items);
    var hint, m := Prefix(ws, q), kept[j];
    if q > 0 && (items[q - 1].deleted || !items[q - 1].content.Plain?) {
      CountedFrom(items', ms, hint, j);
    }
    assert m in ms && Right(items, m);
    var p: nat :| MarksAt(items, m, p);
    assert p < q && m.index == hint ==> items[p].content.Plain? by {
      if p < q && m.index == hint && !items[p].content.Plain? {
        UncountedMarker(items, q, x, m, p);
        assert false;
      }
    }
    InsertKeepsMarker(items, q, x, m, p);
  }

  /** A marker on an item without positions right before the insert is dropped. */
  lemma UncountedMarker(items: seq<Item>, q: nat, x: Item, m: Marker, p: nat)
    requires ListOk(items) && AnchorOk(items, q) && ItemOk(x) && forall i :: 0 <= i < |items| ==> Apart(items[i], x)
    requires MarksAt(items, m, p) && p < q && m.index == Prefix(Widths(items), q) && !items[p].content.Plain?
    ensures items[q - 1].deleted || !items[q - 1].content.Plain?
    ensures Uncounted(Inserted(items, q, x), m)
  {
    var items', ws := Inserted(items, q, x), Widths(items);
    hide Widths, Width, Apart, ItemOk, ListOk;
    PrefixAscends(ws, p, q - 1);
    PrefixAscends(ws, q - 1, q);
    assert Skipped(items, q, q - 1);
    forall r | 0 <= r < |items'| && items'[r].id == m.id
      ensures !items'[r].content.Plain?
    {
      ListSame(items, q, x, p, r);
    }
  }

  /** An item without positions, or at the end, moves no start. */
  lemma AppendKeepsMarkers(items: seq<Item>, ms: seq<Marker>, q: nat, x: Item)
    requires ListOk(items) && Accurate(items, ms) && q <= |items| && x.movedBy.None? && NotMover(items, x)
    requires x.deleted || !x.content.Plain? || q == |items|
    ensures Accurate(Inserted(items, q, x), ms)
  {
    var items', ws := Inserted(items, q, x), Widths(items);
    WidthsInsert(items, q, x);
    forall k | 0 <= k < |ms|
      ensures Right(items', ms[k])
    {
      assert Right(items, ms[k]);
      var p: nat :| MarksAt(items, ms[k], p);
      var p' := if p < q then p else p + 1;
      PrefixInsert(ws, q, if x.deleted || !x.content.Plain? then 0 else x.len, p');
      assert items'[p'] == items[p];
      assert MarksAt(items', ms[k], p');
    }
  }

  lemma SplitPlain(items: seq<Item>, p: nat)
    requires p < |items| && Width(items, items[p]) > 1
    ensures items[p].content.Plain? && items[p].movedBy.None? && !items[p].deleted
    ensures Width(items, items[p]) == items[p].len
  {
  }

  lemma SplitApart(items: seq<Item>, p: nat, k: nat, x: Item)
    requires p < |items| && 0 < k < items[p].len && forall i :: 0 <= i < |items| ==> Apart(items[i], x)
    ensures forall i :: 0 <= i <= |items| ==> Apart(SplitOf(items, p, k)[i], x)
  {
    var items' := SplitOf(items, p, k);
    forall i | 0 <= i < |items'|
      ensures Apart(items'[i], x)
    {
      assert Apart(items[if i <= p then i else i - 1], x);
    }
  }

  lemma SplitStart(items: seq<Item>, items': seq<Item>, p: nat, k: nat)
    requires ListOk(items) && p < |items| && 0 < k < items[p].len && items' == SplitOf(items, p, k)
    requires items[p].content.Plain? && items[p].movedBy.None? && !items[p].deleted
    requires Rendered(items', 0, p) == Rendered(items, 0, p)
    ensures Prefix(Widths(items'), p + 1) == Prefix(Widths(items), p) + k && Width(items', items'[p]) == k
  {
    RenderedLength(items, p);
    RenderedLength(items', p);
    assert items'[p] == items[p].(len := k);
  }

  /** A new item changes nothing of what the others show. */
  lemma InsertShown(items: seq<Item>, q: nat, x: Item)
    requires q <= |items| && x.content.Plain? && x.movedBy.None? && !x.deleted && x.len > 0
    ensures var items' := Inserted(items, q, x);
            SameHead(items, items', q) && SameTail(items, items', q, 1) && Shown(items', x) == UnitIds(x.id, x.len)
  {
    var items' := Inserted(items, q, x);
    forall m: Item
      ensures Shown(items', m) == Shown(items, m)
    {
      InsertWins(items, q, x, m);
    }
    assert Shown(items', x) == UnitIds(x.id, x.len);
    hide Shown, Wins, UnitIds;
    assert forall i :: 0 <= i < q ==> items'[i] == items[i];
    assert forall i :: q <= i < |items| ==> items'[i + 1] == items[i];
  }

  lemma InsertRendered(items: seq<Item>, q: nat, x: Item)
    requires q <= |items| && x.content.Plain? && x.movedBy.None? && !x.deleted && x.len > 0
    ensures var items' := Inserted(items, q, x);
            Rendered(items', 0, |items'|) == Rendered(items, 0, q) + UnitIds(x.id, x.len) + Rendered(items, q, |items|)
    ensures Rendered(items, 0, |items|) == Rendered(items, 0, q) + Rendered(items, q, |items|)
    ensures |Rendered(items, 0, q)| == Prefix(Widths(items), q)
  {
    hide Shown, Rendered, Wins, UnitIds, SameHead, SameTail, Widths;
    var items' := Inserted(items, q, x);
    InsertShown(items, q, x);
    RenderedSplitHead(items, items', q);
    RenderedShifted(items, items', q, 1);
    RenderedConcat(items', 0, q, |items'|);
    RenderedConcat(items, 0, q, |items|);
    RenderedHead(items', q);
    RenderedLength(items, q);
  }

  /** Right after an item with positions, or at the head, nothing lies in between. */
  lemma AnchorAfter(items: seq<Item>, q: nat)
    requires q <= |items| && (q > 0 ==> Width(items, items[q - 1]) > 0)
    ensures AnchorOk(items, q)
  {
    var ws := Widths(items);
    forall p: nat | p < q
      ensures Skipped(items, q, p)
    {
      PrefixAscends(ws, p, q - 1);
      assert Prefix(ws, p) < Prefix(ws, q);
    }
  }

  lemma OneWide(items: seq<Item>, p: nat)
    requires p < |items|
    ensures items[p].content.Move? ==> Width(items, items[p]) <= 1
  {
  }

  lemma ReachedEnd(r: seq<Id>, items: seq<Item>, p: nat, counted: nat, index: nat, n: nat, length0: nat)
    requires Reached(r, items, p, counted, index, n) && index <= |r| && n <= length0 && (p == |items| || n == length0)
    ensures ListOk(items) && |Rendered(items, 0, |items|)| == |r| - n
    ensures Rendered(items, 0, |items|) == r[..index] + r[if index + length0 <= |r| then index + length0 else |r|..]
  {
    hide Rendered, ListOk;
    RenderedConcat(items, 0, p, |items|);
    RenderedNone(items);
    SliceEnd(r, Rendered(items, p, |items|), counted, index, n, length0);
  }

  /** An item that shows something is part of what is left. */
  lemma ReachedMore(r: seq<Id>, items: seq<Item>, p: nat, index: nat, n: nat)
    requires Reached(r, items, p, index, index, n) && p < |items|
    ensures n + Width(items, items[p]) <= |r|
  {
    hide Rendered, Shown, Width, ListOk;
    RenderedHead(items, p);
    ShownWidth(items, items[p]);
  }

  /** All was deleted that there was to delete. */
  lemma ReachedAll(r: seq<Id>, items: seq<Item>, p: nat, counted: nat, n: nat, length0: nat)
    requires Reached(r, items, p, counted, 0, n) && n <= length0 && (p == |items| || n == length0)
    ensures n == Min(length0, |r|) && counted == 0
  {
    RenderedNone(items);
  }

  lemma RenderedNone(items: seq<Item>)
    ensures Rendered(items, |items|, |items|) == []
  {
  }

  lemma SliceEnd(r: seq<Id>, rest: seq<Id>, counted: nat, index: nat, n: nat, length0: nat)
    requires counted + n <= |r| && counted <= index <= |r| && n <= length0 && (counted < index ==> n == 0)
    requires rest == r[counted + n..] && (rest == [] || n == length0)
    ensures r[..counted] + rest == r[..index] + r[if index + length0 <= |r| then index + length0 else |r|..]
  {
    assert counted < index && rest != [] ==> length0 == 0 && rest == r[counted..];
    assert rest == [] ==> counted + n == |r|;
  }
}
