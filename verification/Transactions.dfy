/**
  What a transaction records about a list while it changes it: the clocks before, the
  deletions, and the mover a target had when it was first given another one.  The records
  and the list as it is now tell what the list showed when the transaction began.
*/
module Transactions {
  import opened Base
  import opened ListItems
  import opened SearchMarkers

  /** The clocks known before, the items deleted since and the movers that were replaced. */
  datatype Txn = Txn(before: map<nat, nat>, deletes: set<Id>, movedBefore: map<Id, Option<Id>>)

  predicate Old(txn: Txn, id: Id) {
    id.client in txn.before && id.clock < txn.before[id.client]
  }

  predicate WasThere(txn: Txn, x: Item) {
    Old(txn, x.id)
  }

  predicate LiveBefore(txn: Txn, x: Item) {
    WasThere(txn, x) && (!x.deleted || x.id in txn.deletes)
  }

  function MovedByBefore(txn: Txn, x: Item): Option<Id> {
    if x.id in txn.movedBefore then txn.movedBefore[x.id] else x.movedBy
  }

  /** An item as it was before the transaction. */
  function Before(txn: Txn, x: Item): Item {
    x.(deleted := x.deleted && x.id !in txn.deletes, movedBy := MovedByBefore(txn, x))
  }

  /** The list as it was before: the items that were there, in the same order. */
  function Earlier(txn: Txn, items: seq<Item>): seq<Item> {
    if items == [] then []
    else (if WasThere(txn, items[0]) then [Before(txn, items[0])] else []) + Earlier(txn, items[1..])
  }

  lemma {:induction false} EarlierHas(txn: Txn, items: seq<Item>, y: Item)
    ensures y in Earlier(txn, items) <==>
              exists k :: 0 <= k < |items| && WasThere(txn, items[k]) && y == Before(txn, items[k])
    decreases |items|
  {
    if items != [] {
      EarlierHas(txn, items[1..], y);
      if k :| 0 <= k < |items| && WasThere(txn, items[k]) && y == Before(txn, items[k]) {
        assert k > 0 ==> items[1..][k - 1] == items[k];
      }
      if k :| 0 <= k < |items[1..]| && WasThere(txn, items[1..][k]) && y == Before(txn, items[1..][k]) {
        assert items[k + 1] == items[1..][k];
      }
    }
  }

  lemma {:induction false} EarlierConcat(txn: Txn, x: seq<Item>, y: seq<Item>)
    ensures Earlier(txn, x + y) == Earlier(txn, x) + Earlier(txn, y)
    decreases |x|
  {
    if x == [] {
      assert x + y == y;
    } else {
      assert (x + y)[1..] == x[1..] + y;
      EarlierConcat(txn, x[1..], y);
    }
  }

  lemma EarlierOne(txn: Txn, x: Item)
    ensures Earlier(txn, [x]) == if WasThere(txn, x) then [Before(txn, x)] else []
  {
    assert Earlier(txn, []) == [];
  }

  lemma {:induction false} EarlierSame(txn: Txn, items: seq<Item>, txn': Txn, items': seq<Item>)
    requires |items'| == |items|
    requires forall k :: 0 <= k < |items| ==> SameBefore(txn, items[k], txn', items'[k])
    ensures Earlier(txn', items') == Earlier(txn, items)
    decreases |items|
  {
    hide Before;
    if items != [] {
      assert SameBefore(txn, items[0], txn', items'[0]);
      forall k | 0 <= k < |items[1..]| ensures SameBefore(txn, items[1..][k], txn', items'[1..][k]) {
        assert SameBefore(txn, items[k + 1], txn', items'[k + 1]);
      }
      EarlierSame(txn, items[1..], txn', items'[1..]);
    }
  }

  predicate SameBefore(txn: Txn, x: Item, txn': Txn, x': Item) {
    WasThere(txn', x') == WasThere(txn, x) && (WasThere(txn, x) ==> Before(txn', x') == Before(txn, x))
  }

  // ------------------------------------------------------------------ the records are right

  /** `x` is a piece of `s`, the item it was cut from since the transaction began. */
  predicate Piece(txn: Txn, x: Item, s: Item) {
    && s.id.client == x.id.client && s.id.clock <= x.id.clock && x.id.clock + x.len <= s.id.clock + s.len
    && Before(txn, x) == s.(id := x.id, len := x.len)
  }

  ghost predicate FromStart(txn: Txn, start: seq<Item>, x: Item) {
    exists i :: 0 <= i < |start| && Piece(txn, x, start[i])
  }

  /** An item is deleted as a whole, and only an item of one unit is moved. */
  ghost predicate PieceOk(txn: Txn, start: seq<Item>, x: Item) {
    WasThere(txn, x) ==>
      && FromStart(txn, start, x)
      && (forall u {:trigger u in txn.deletes} :: Covers(x, u) ==> (u in txn.deletes <==> x.id in txn.deletes))
      && (forall u {:trigger u in txn.movedBefore} ::
            Covers(x, u) && u != x.id && u in txn.movedBefore ==> txn.movedBefore[u].None?)
      && (x.id in txn.deletes ==> x.deleted)
  }

  /** A half was cut off inside an item of the start, or off a new item. */
  ghost predicate HalfOk(txn: Txn, start: seq<Item>, h: Id) {
    && h.clock > 0
    && if Old(txn, h) then exists i :: 0 <= i < |start| && Covers(start[i], h) && start[i].id != h
       else !Old(txn, Id(h.client, h.clock - 1))
  }

  ghost predicate StartOk(txn: Txn, start: seq<Item>) {
    && ListOk(start)
    && forall i, u {:trigger Covers(start[i], u)} :: 0 <= i < |start| && Covers(start[i], u) ==> Old(txn, u)
  }

  /** Holds all through a transaction that began with the list `start`. */
  ghost predicate TxnOk(txn: Txn, halves: seq<Id>, items: seq<Item>, start: seq<Item>) {
    && StartOk(txn, start)
    && (forall k :: 0 <= k < |items| ==> PieceOk(txn, start, items[k]))
    && (forall k :: 0 <= k < |halves| ==> HalfOk(txn, start, halves[k]))
    && All(Earlier(txn, items)) == All(start)
  }

  /** All that a list shows. */
  function All(items: seq<Item>): seq<Id> {
    Rendered(items, 0, |items|)
  }

  /** What the records tell of a list is a list. */
  lemma {:induction false} EarlierOk(txn: Txn, start: seq<Item>, items: seq<Item>)
    requires ListOk(items) && ListOk(start) && forall k :: 0 <= k < |items| ==> PieceOk(txn, start, items[k])
    ensures ListOk(Earlier(txn, items))
    decreases |items|
  {
    if items != [] {
      var x, rest, pre := items[0], items[1..], Earlier(txn, items[1..]);
      assert forall k :: 0 <= k < |rest| ==> rest[k] == items[k + 1];
      EarlierOk(txn, start, rest);
      forall k | 0 <= k < |pre| ensures Apart(Before(txn, x), pre[k]) {
        EarlierHas(txn, rest, pre[k]);
        var i :| 0 <= i < |rest| && WasThere(txn, rest[i]) && pre[k] == Before(txn, rest[i]);
        assert Apart(items[0], items[i + 1]);
      }
      assert ItemOk(x) && PieceOk(txn, start, x);
      if WasThere(txn, x) {
        var i :| 0 <= i < |start| && Piece(txn, x, start[i]);
        assert ItemOk(start[i]) && ItemOk(Before(txn, x));
        ConsOk(Before(txn, x), pre);
        assert Earlier(txn, items) == [Before(txn, x)] + pre;
      } else {
        assert Earlier(txn, items) == pre;
      }
    }
  }

  lemma ConsOk(x: Item, s: seq<Item>)
    requires ItemOk(x) && ListOk(s) && forall k :: 0 <= k < |s| ==> Apart(x, s[k])
    ensures ListOk([x] + s)
  {
    var t := [x] + s;
    forall i, j | 0 <= i < j < |t| ensures Apart(t[i], t[j]) {
      assert t[j] == s[j - 1];
      if i > 0 { assert t[i] == s[i - 1] && Apart(s[i - 1], s[j - 1]); }
    }
  }

  // ----------------------------------------------------------------------- the steps

  lemma {:induction false} EarlierAll(txn: Txn, items: seq<Item>)
    requires forall k :: 0 <= k < |items| ==> WasThere(txn, items[k]) && Before(txn, items[k]) == items[k]
    ensures Earlier(txn, items) == items
    decreases |items|
  {
    if items != [] {
      assert forall k :: 0 <= k < |items[1..]| ==> items[1..][k] == items[k + 1];
      EarlierAll(txn, items[1..]);
    }
  }

  /** A transaction begins: the list is as it was. */
  lemma TxnBegin(clocks: map<nat, nat>, items: seq<Item>)
    requires StartOk(Txn(clocks, {}, map[]), items)
    ensures TxnOk(Txn(clocks, {}, map[]), [], items, items)
  {
    var txn := Txn(clocks, {}, map[]);
    forall k | 0 <= k < |items|
      ensures WasThere(txn, items[k]) && Before(txn, items[k]) == items[k] && PieceOk(txn, items, items[k])
    {
      assert ItemOk(items[k]) && Covers(items[k], items[k].id);
      assert Piece(txn, items[k], items[k]);
    }
    EarlierAll(txn, items);
  }

  /** A new item was not there before. */
  lemma TxnInsert(txn: Txn, halves: seq<Id>, items: seq<Item>, start: seq<Item>, q: nat, x: Item)
    requires TxnOk(txn, halves, items, start) && q <= |items| && !WasThere(txn, x)
    ensures TxnOk(txn, halves, Inserted(items, q, x), start)
  {
    hide StartOk, PieceOk, HalfOk, All, Earlier;
    var items' := Inserted(items, q, x);
    EarlierInsert(txn, items, q, x);
    forall k | 0 <= k < |items'| ensures PieceOk(txn, start, items'[k]) {
      if k == q {
        NewPiece(txn, start, x);
      } else {
        assert items'[k] == items[if k < q then k else k - 1];
      }
    }
  }

  lemma NewPiece(txn: Txn, start: seq<Item>, x: Item)
    requires !WasThere(txn, x)
    ensures PieceOk(txn, start, x)
  {
  }

  lemma EarlierInsert(txn: Txn, items: seq<Item>, q: nat, x: Item)
    requires q <= |items| && !WasThere(txn, x)
    ensures Earlier(txn, Inserted(items, q, x)) == Earlier(txn, items)
  {
    EarlierOne(txn, x);
    hide Earlier, WasThere;
    var a, b := items[..q], items[q..];
    assert items == a + b;
    EarlierConcat(txn, a + [x], b);
    EarlierConcat(txn, a, [x]);
    EarlierConcat(txn, a, b);
    assert Earlier(txn, a) + [] == Earlier(txn, a);
  }

  /** The transaction remembers a mover the first time it is replaced. */
  function Remembered(txn: Txn, x: Item): Txn {
    if x.id in txn.movedBefore then txn else txn.(movedBefore := txn.movedBefore[x.id := x.movedBy])
  }

  /** Giving a target another mover leaves what was before alone. */
  lemma TxnRemark(txn: Txn, halves: seq<Id>, items: seq<Item>, start: seq<Item>, j: nat, w: Option<Id>)
    requires TxnOk(txn, halves, items, start) && ListOk(items) && j < |items|
    ensures TxnOk(Remembered(txn, items[j]), halves, items[j := items[j].(movedBy := w)], start)
  {
    var txn', items' := Remembered(txn, items[j]), items[j := items[j].(movedBy := w)];
    forall k | 0 <= k < |items|
      ensures SameBefore(txn, items[k], txn', items'[k]) && PieceOk(txn', start, items'[k])
    {
      assert PieceOk(txn, start, items[k]) && ItemOk(items[k]) && ItemOk(items[j]);
      if k != j { assert Apart(items[k], items[j]) || Apart(items[j], items[k]); }
      if WasThere(txn, items[k]) { PieceSame(txn, items[k], txn', items'[k], start); }
    }
    EarlierSame(txn, items, txn', items');
  }

  lemma PieceSame(txn: Txn, x: Item, txn': Txn, x': Item, start: seq<Item>)
    requires x'.id == x.id && x'.len == x.len && Before(txn', x') == Before(txn, x)
    ensures FromStart(txn', start, x') == FromStart(txn, start, x)
  {
    if FromStart(txn, start, x) {
      var i :| 0 <= i < |start| && Piece(txn, x, start[i]);
      assert Piece(txn', x', start[i]);
    }
    if FromStart(txn', start, x') {
      var i :| 0 <= i < |start| && Piece(txn', x', start[i]);
      assert Piece(txn, x, start[i]);
    }
  }

  /** The transaction records the units of an item it deletes. */
  function Recorded(txn: Txn, x: Item): Txn {
    txn.(deletes := txn.deletes + set u | u in UnitIds(x.id, x.len))
  }

  lemma UnitIdsAre(x: Item, u: Id)
    ensures u in UnitIds(x.id, x.len) <==> Covers(x, u)
  {
    if Covers(x, u) { assert UnitIds(x.id, x.len)[u.clock - x.id.clock] == u; }
  }

  /** Deleting a live item leaves what was before alone. */
  lemma TxnDelete(txn: Txn, halves: seq<Id>, items: seq<Item>, start: seq<Item>, j: nat)
    requires TxnOk(txn, halves, items, start) && ListOk(items) && j < |items| && !items[j].deleted
    ensures TxnOk(Recorded(txn, items[j]), halves, items[j := items[j].(deleted := true)], start)
  {
    var txn', items' := Recorded(txn, items[j]), items[j := items[j].(deleted := true)];
    forall u ensures u in txn'.deletes <==> u in txn.deletes || Covers(items[j], u) { UnitIdsAre(items[j], u); }
    hide UnitIds, Recorded;
    forall k | 0 <= k < |items|
      ensures SameBefore(txn, items[k], txn', items'[k]) && PieceOk(txn', start, items'[k])
    {
      assert PieceOk(txn, start, items[k]) && ItemOk(items[k]) && ItemOk(items[j]);
      if k != j { assert Apart(items[k], items[j]) || Apart(items[j], items[k]); }
      if WasThere(txn, items[k]) { PieceSame(txn, items[k], txn', items'[k], start); }
    }
    EarlierSame(txn, items, txn', items');
  }

  /** The two parts of an item that is cut. */
  function Front(x: Item, n: nat): Item {
    x.(len := n)
  }

  function Back(x: Item, n: nat): Item
    requires n <= x.len
  {
    x.(id := Id(x.id.client, x.id.clock + n), len := x.len - n)
  }

  lemma CutBefore(txn: Txn, start: seq<Item>, x: Item, n: nat)
    requires StartOk(txn, start) && PieceOk(txn, start, x) && 0 < n < x.len && x.movedBy.None?
    ensures WasThere(txn, Front(x, n)) == WasThere(txn, x) == WasThere(txn, Back(x, n))
    ensures WasThere(txn, x) ==> Before(txn, Front(x, n)) == Front(Before(txn, x), n)
                                 && Before(txn, Back(x, n)) == Back(Before(txn, x), n) && Before(txn, x).movedBy.None?
    ensures PieceOk(txn, start, Front(x, n)) && PieceOk(txn, start, Back(x, n)) && HalfOk(txn, start, Back(x, n).id)
  {
    var a, b := Front(x, n), Back(x, n);
    if WasThere(txn, x) {
      var i :| 0 <= i < |start| && Piece(txn, x, start[i]);
      assert ItemOk(start[i]) && Covers(start[i], b.id) && Covers(x, b.id);
      assert (b.id in txn.movedBefore ==> txn.movedBefore[b.id].None?)
             && (b.id in txn.deletes <==> x.id in txn.deletes);
      assert Piece(txn, a, start[i]) && Piece(txn, b, start[i]);
    }
  }

  /** Cutting an item cuts the item it was. */
  lemma EarlierSplit(txn: Txn, start: seq<Item>, items: seq<Item>, p: nat, n: nat)
    requires StartOk(txn, start) && p < |items| && PieceOk(txn, start, items[p])
    requires 0 < n < items[p].len && items[p].movedBy.None?
    ensures var pre, pre' := Earlier(txn, items), Earlier(txn, SplitOf(items, p, n));
            if WasThere(txn, items[p]) then
              var q := |Earlier(txn, items[..p])|;
              q < |pre| && pre[q] == Before(txn, items[p]) && pre' == SplitOf(pre, q, n)
            else pre' == pre
  {
    var x := items[p];
    var a, b := Front(x, n), Back(x, n);
    CutBefore(txn, start, x, n);
    hide Before, WasThere, PieceOk, Earlier, SplitOf;
    assert items == items[..p] + [x] + items[p + 1..];
    SplitOfConcat(items[..p], x, items[p + 1..], n);
    var front, rest := Earlier(txn, items[..p]), Earlier(txn, items[p + 1..]);
    EarlierConcat(txn, items[..p] + [x], items[p + 1..]);
    EarlierConcat(txn, items[..p], [x]);
    EarlierConcat(txn, items[..p] + ([a] + [b]), items[p + 1..]);
    EarlierConcat(txn, items[..p], [a] + [b]);
    EarlierConcat(txn, [a], [b]);
    EarlierOne(txn, x);
    EarlierOne(txn, a);
    EarlierOne(txn, b);
    if WasThere(txn, x) {
      SplitOfConcat(front, Before(txn, x), rest, n);
    } else {
      assert front + ([] + []) + rest == front + [] + rest;
    }
  }

  lemma SplitOfConcat(front: seq<Item>, x: Item, rest: seq<Item>, n: nat)
    requires 0 < n < x.len
    ensures SplitOf(front + [x] + rest, |front|, n) == front + ([Front(x, n)] + [Back(x, n)]) + rest
  {
    var s := front + [x] + rest;
    assert s[..|front|] == front && s[|front|] == x && s[|front| + 1..] == rest;
  }

  lemma SplitAll(items: seq<Item>, p: nat, n: nat)
    requires ListOk(items) && p < |items| && 0 < n < items[p].len && items[p].content.Plain? && items[p].movedBy.None?
    ensures All(SplitOf(items, p, n)) == All(items)
  {
    hide ListOk, Rendered, SplitOf;
    SplitKeeps(items, p, n);
    assert |SplitOf(items, p, n)| == |items| + 1 by { SplitLength(items, p, n); }
    RenderedConcat(items, 0, p, |items|);
    RenderedConcat(SplitOf(items, p, n), 0, p, |items| + 1);
  }

  lemma SplitLength(items: seq<Item>, p: nat, n: nat)
    requires p < |items| && 0 < n < items[p].len
    ensures |SplitOf(items, p, n)| == |items| + 1
  {
  }

  /** What a list showed before is the same, however its items are cut. */
  lemma CutShows(txn: Txn, start: seq<Item>, items: seq<Item>, p: nat, n: nat)
    requires StartOk(txn, start) && ListOk(items) && forall k :: 0 <= k < |items| ==> PieceOk(txn, start, items[k])
    requires p < |items| && 0 < n < items[p].len && items[p].content.Plain? && items[p].movedBy.None?
    ensures All(Earlier(txn, SplitOf(items, p, n))) == All(Earlier(txn, items))
  {
    assert PieceOk(txn, start, items[p]);
    EarlierSplit(txn, start, items, p, n);
    EarlierOk(txn, start, items);
    CutBefore(txn, start, items[p], n);
    if WasThere(txn, items[p]) {
      var pre, q := Earlier(txn, items), |Earlier(txn, items[..p])|;
      hide Earlier, ListOk, All, PieceOk;
      SplitAll(pre, q, n);
    }
  }

  /** Cutting an item that is not moved; the right half is remembered. */
  lemma TxnSplit(txn: Txn, halves: seq<Id>, items: seq<Item>, start: seq<Item>, p: nat, n: nat)
    requires TxnOk(txn, halves, items, start) && ListOk(items) && p < |items|
    requires 0 < n < items[p].len && items[p].content.Plain? && items[p].movedBy.None?
    ensures TxnOk(txn, halves + [Back(items[p], n).id], SplitOf(items, p, n), start)
  {
    var items' := SplitOf(items, p, n);
    assert PieceOk(txn, start, items[p]);
    CutBefore(txn, start, items[p], n);
    CutShows(txn, start, items, p, n);
    hide PieceOk, StartOk, All, Earlier, HalfOk;
    forall k | 0 <= k < |items'| ensures PieceOk(txn, start, items'[k]) {
      assert items'[p] == Front(items[p], n) && items'[p + 1] == Back(items[p], n);
      if k < p { assert items'[k] == items[k]; }
      if k > p + 1 { assert items'[k] == items[k - 1]; }
    }
  }

  /** A half and the item before it were one item. */
  lemma SameStart(txn: Txn, start: seq<Item>, x: Item, y: Item) returns (i: nat)
    requires StartOk(txn, start) && FromStart(txn, start, x) && FromStart(txn, start, y) && HalfOk(txn, start, y.id)
    requires Continues(x, y) && x.len > 0 && y.len > 0 && WasThere(txn, y)
    ensures i < |start| && Piece(txn, x, start[i]) && Piece(txn, y, start[i])
  {
    i :| 0 <= i < |start| && Piece(txn, x, start[i]);
    var j :| 0 <= j < |start| && Piece(txn, y, start[j]);
    var h :| 0 <= h < |start| && Covers(start[h], y.id) && start[h].id != y.id;
    hide Piece, HalfOk;
    assert Covers(start[j], y.id) by { PieceCovers(txn, y, start[j], y.id); }
    OneCovers(start, h, j, y.id);
    var last := Id(x.id.client, x.id.clock + x.len - 1);
    assert Covers(start[i], last) by { PieceCovers(txn, x, start[i], last); }
    OneCovers(start, h, i, last);
  }

  lemma PieceCovers(txn: Txn, x: Item, s: Item, u: Id)
    requires Piece(txn, x, s) && Covers(x, u)
    ensures Covers(s, u)
  {
  }

  lemma OneCovers(items: seq<Item>, i: nat, j: nat, u: Id)
    requires ListOk(items) && i < |items| && j < |items| && Covers(items[i], u) && Covers(items[j], u)
    ensures i == j
  {
  }

  lemma JoinBefore(txn: Txn, start: seq<Item>, x: Item, y: Item)
    requires StartOk(txn, start) && PieceOk(txn, start, x) && PieceOk(txn, start, y) && HalfOk(txn, start, y.id)
    requires Continues(x, y) && x.len > 0 && y.len > 0
    ensures PieceOk(txn, start, x.(len := x.len + y.len))
  {
    var m := x.(len := x.len + y.len);
    if WasThere(txn, x) {
      assert Old(txn, Id(y.id.client, y.id.clock - 1)) by { LastOld(txn, start, x); }
      assert WasThere(txn, y);
      var i := SameStart(txn, start, x, y);
      assert ItemOk(start[i]) && start[i].movedBy.None?;
      assert Piece(txn, m, start[i]);
      assert x.id in txn.deletes <==> y.id in txn.deletes;
      assert Before(txn, y).movedBy.None?;
      forall u | Covers(m, u)
        ensures Covers(x, u) || Covers(y, u)
      {
      }
    }
  }

  lemma LastOld(txn: Txn, start: seq<Item>, x: Item)
    requires StartOk(txn, start) && FromStart(txn, start, x) && x.len > 0
    ensures Old(txn, Id(x.id.client, x.id.clock + x.len - 1))
  {
    var i :| 0 <= i < |start| && Piece(txn, x, start[i]);
    PieceCovers(txn, x, start[i], Id(x.id.client, x.id.clock + x.len - 1));
  }

  /** Merging a half with the item before it. */
  lemma TxnMerge(txn: Txn, halves: seq<Id>, items: seq<Item>, start: seq<Item>, p: nat)
    requires TxnOk(txn, halves, items, start) && ListOk(items) && 0 < p < |items|
    requires Continues(items[p - 1], items[p]) && items[p].id in halves
    ensures TxnOk(txn, halves, Merged(items, p), start)
  {
    var whole, n := Merged(items, p), items[p - 1].len;
    assert ItemOk(items[p - 1]) && ItemOk(items[p]);
    hide PieceOk, HalfOk, StartOk, All, Earlier, SplitOf, ListOk, Merged;
    var h :| 0 <= h < |halves| && halves[h] == items[p].id;
    assert HalfOk(txn, start, halves[h]) && PieceOk(txn, start, items[p - 1]) && PieceOk(txn, start, items[p]);
    JoinBefore(txn, start, items[p - 1], items[p]);
    MergeListOk(items, p);
    SplitOfMerged(items, p);
    MergedItems(items, p, p - 1);
    forall k | 0 <= k < |whole| ensures PieceOk(txn, start, whole[k]) {
      MergedItems(items, p, k);
    }
    CutShows(txn, start, whole, p - 1, n);
  }

  lemma MergedItems(items: seq<Item>, p: nat, k: nat)
    requires 0 < p < |items| && k < |items| - 1
    ensures |Merged(items, p)| == |items| - 1
    ensures Merged(items, p)[k] == if k < p - 1 then items[k] else if k >= p then items[k + 1]
                                   else items[p - 1].(len := items[p - 1].len + items[p].len)
  {
  }
}
