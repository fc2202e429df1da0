/**
  Items: runs of consecutive clock units stored as one list node.

  The cell view of a list of items lists every unit with its deleted flag and
  value.  Splitting and merging items leaves the view unchanged, and integrating
  an item is integrating its units one after the other.
*/
module Items {
  import opened Base
  import opened Yata

  type Value = string

  /** Kinds of content.  Only the first four hold several values and can be cut or joined. */
  datatype Kind = Text | Any | Json | Tombstone | Single

  datatype Item = Item(
    id: Id, origin: Option<Id>, right: Option<Id>, key: Option<string>, parent: Parent,
    deleted: bool, kind: Kind, content: seq<Value>)

  datatype Cell = Cell(unit: Unit, deleted: bool, kind: Kind, value: Value)

  /** The `n`-th identifier of an item. */
  function IdAt(it: Item, n: nat): Id {
    Id(it.id.client, it.id.clock + n)
  }

  /** All units of an item share its right origin; each but the first follows the one before. */
  function UnitAt(it: Item, n: nat): Unit {
    Unit(IdAt(it, n), if n == 0 then it.origin else Some(IdAt(it, n - 1)), it.right, it.key, it.parent)
  }

  function Cells(it: Item): (r: seq<Cell>)
    ensures |r| == |it.content|
  {
    seq(|it.content|, n requires 0 <= n < |it.content| =>
      Cell(UnitAt(it, n), it.deleted, it.kind, it.content[n]))
  }

  /** The cell view of a list of items. */
  function View(items: seq<Item>): (r: seq<Cell>) {
    if items == [] then [] else View(items[..|items| - 1]) + Cells(items[|items| - 1])
  }

  function Units(cells: seq<Cell>): (r: seq<Unit>)
    ensures |r| == |cells|
  {
    seq(|cells|, n requires 0 <= n < |cells| => cells[n].unit)
  }

  lemma {:induction false} ViewConcat(a: seq<Item>, b: seq<Item>)
    ensures View(a + b) == View(a) + View(b)
  {
    if b == [] {
      assert a + b == a;
    } else {
      var b', z := b[..|b| - 1], Cells(b[|b| - 1]);
      ViewConcat(a, b');
      assert (a + b)[..|a + b| - 1] == a + b';
      assert View(a) + View(b') + z == View(a) + (View(b') + z);
    }
  }

  lemma ViewOne(it: Item)
    ensures View([it]) == Cells(it)
  {
    assert View([it]) == View([]) + Cells(it);
  }

  /** Replacing a stretch of items by one with the same view changes nothing. */
  lemma ViewReplace(a: seq<Item>, b: seq<Item>, c: seq<Item>, d: seq<Item>)
    requires View(b) == View(c)
    ensures View(a + b + d) == View(a + c + d)
  {
    ViewConcat(a + b, d);
    ViewConcat(a, b);
    ViewConcat(a + c, d);
    ViewConcat(a, c);
  }

  // ------------------------------------------------------------ split and merge

  function LeftHalf(it: Item, offset: nat): Item
    requires 0 < offset < |it.content|
  {
    it.(content := it.content[..offset])
  }

  function RightHalf(it: Item, offset: nat): Item
    requires 0 < offset < |it.content|
  {
    it.(id := IdAt(it, offset), origin := Some(IdAt(it, offset - 1)), content := it.content[offset..])
  }

  lemma SplitView(it: Item, offset: nat)
    requires 0 < offset < |it.content|
    ensures Cells(LeftHalf(it, offset)) + Cells(RightHalf(it, offset)) == Cells(it)
  {
  }

  /** The conditions under which an item is absorbed by its left neighbour. */
  predicate Mergeable(left: Item, it: Item) {
    && left.content != [] && left.kind == it.kind && left.kind != Single
    && left.id.client == it.id.client
    && left.id.clock + |left.content| == it.id.clock
    && left.deleted == it.deleted
    && left.key == it.key
    && left.parent == it.parent
    && it.origin == Some(Id(left.id.client, left.id.clock + |left.content| - 1))
    && left.right == it.right
  }

  function Merged(left: Item, it: Item): Item {
    left.(content := left.content + it.content)
  }

  lemma MergeView(left: Item, it: Item)
    requires Mergeable(left, it)
    ensures Cells(Merged(left, it)) == Cells(left) + Cells(it)
  {
  }

  /** Merging undoes splitting, and a split item is always mergeable again. */
  lemma SplitThenMerge(it: Item, offset: nat)
    requires 0 < offset < |it.content| && it.kind != Single
    ensures Mergeable(LeftHalf(it, offset), RightHalf(it, offset))
    ensures Merged(LeftHalf(it, offset), RightHalf(it, offset)) == it
  {
    assert it.content[..offset] + it.content[offset..] == it.content;
  }

  function Cut(s: seq<Item>, i: nat, offset: nat): (r: seq<Item>)
    requires i < |s| && 0 < offset < |s[i].content|
    ensures |r| == |s| + 1
  {
    s[..i] + [LeftHalf(s[i], offset), RightHalf(s[i], offset)] + s[i + 1..]
  }

  function Join(s: seq<Item>, i: nat): (r: seq<Item>)
    requires 0 < i < |s|
    ensures |r| == |s| - 1
  {
    s[..i - 1] + [Merged(s[i - 1], s[i])] + s[i + 1..]
  }

  function Put(s: seq<Item>, q: nat, x: Item): (r: seq<Item>)
    requires q <= |s|
    ensures |r| == |s| + 1
  {
    s[..q] + [x] + s[q..]
  }

  function Flag(s: seq<Item>, i: nat): (r: seq<Item>)
    requires i < |s|
    ensures |r| == |s|
  {
    s[i := s[i].(deleted := true)]
  }

  // ------------------------------------------------------------------- offsets

  /** Index in the view of the first unit of item `i`. */
  function Off(items: seq<Item>, i: int): (n: nat)
    requires 0 <= i <= |items|
  {
    if i == 0 then 0 else Off(items, i - 1) + |items[i - 1].content|
  }

  lemma {:induction false} OffPrefix(a: seq<Item>, b: seq<Item>, i: int)
    requires 0 <= i <= |a| && a <= b
    ensures Off(a, i) == Off(b, i)
  {
    if i > 0 { OffPrefix(a, b, i - 1); }
  }

  lemma {:induction false} ViewLength(items: seq<Item>)
    ensures |View(items)| == Off(items, |items|)
  {
    if items != [] {
      ViewLength(items[..|items| - 1]);
      OffPrefix(items[..|items| - 1], items, |items| - 1);
    }
  }

  lemma ViewSplit(items: seq<Item>, i: int)
    requires 0 <= i <= |items|
    ensures View(items) == View(items[..i]) + View(items[i..])
    ensures |View(items[..i])| == Off(items, i) <= |View(items)|
  {
    assert items == items[..i] + items[i..];
    ViewConcat(items[..i], items[i..]);
    ViewLength(items[..i]);
    OffPrefix(items[..i], items, i);
  }

  lemma ViewAt(items: seq<Item>, i: int, n: nat)
    requires 0 <= i < |items| && n < |items[i].content|
    ensures Off(items, i) + n < |View(items)|
    ensures View(items)[Off(items, i) + n] == Cells(items[i])[n]
    ensures Units(View(items))[Off(items, i) + n] == UnitAt(items[i], n)
  {
    hide View, Off;
    ViewSplit(items, i);
    assert items[i..] == [items[i]] + items[i + 1..];
    ViewConcat([items[i]], items[i + 1..]);
    ViewOne(items[i]);
    InMiddle(View(items[..i]), Cells(items[i]), View(items[i + 1..]), n);
  }

  lemma InMiddle(a: seq<Cell>, b: seq<Cell>, c: seq<Cell>, n: nat)
    requires n < |b|
    ensures |a| + n < |a + (b + c)| && (a + (b + c))[|a| + n] == b[n]
  {
  }

  lemma {:induction false} OffMonotone(items: seq<Item>, i: int, j: int)
    requires NoneEmpty(items) && 0 <= i <= j <= |items|
    ensures i < j ==> Off(items, i) + |items[i].content| <= Off(items, j)
    ensures Off(items, i) <= Off(items, j) && (i < j <==> Off(items, i) < Off(items, j))
    decreases j
  {
    if i < j {
      assert items[j - 1].content != [];
      OffMonotone(items, i, j - 1);
    }
  }

  predicate NoneEmpty(items: seq<Item>) {
    forall i :: 0 <= i < |items| ==> items[i].content != []
  }

  predicate Holds(it: Item, id: Id) {
    it.id.client == id.client && it.id.clock <= id.clock < it.id.clock + |it.content|
  }

  /** The item that contains `id` tells where the unit is. */
  lemma {:induction false} HoldsAt(items: seq<Item>, i: int, id: Id)
    requires 0 <= i < |items| && Holds(items[i], id) && Distinct(Units(View(items)))
    ensures Pos(Units(View(items)), id) == Off(items, i) + (id.clock - items[i].id.clock)
    ensures Has(Units(View(items)), id)
  {
    ViewAt(items, i, id.clock - items[i].id.clock);
    PosAt(Units(View(items)), Off(items, i) + (id.clock - items[i].id.clock));
  }

  // ------------------------------------------------- the scan, item by item

  /** Index of the item that contains `id`, or the number of items. */
  ghost function ItemOf(items: seq<Item>, id: Id): (q: nat)
    ensures q <= |items| && (q < |items| ==> Holds(items[q], id))
  {
    if exists q :: 0 <= q < |items| && Holds(items[q], id) then
      var q :| 0 <= q < |items| && Holds(items[q], id); q
    else |items|
  }

  /** The conflict scan as the code runs it: `l` is the item of the left origin. */
  ghost function ItemExamine(items: seq<Item>, x: Item, l: int, left: int, o: int): Step
    requires 0 <= o < |items|
  {
    if items[o].key != x.key then Pass
    else if items[o].origin == x.origin then
      if items[o].id.client < x.id.client then Take
      else if items[o].right == x.right then Stop
      else Pass
    else if items[o].origin.Some? && l < ItemOf(items, items[o].origin.value) < o then
      if ItemOf(items, items[o].origin.value) <= left then Take else Pass
    else Stop
  }

  ghost function ItemScan(items: seq<Item>, x: Item, l: int, r: int, left: int, o: int): (p: int)
    requires -1 <= left < o <= r <= |items|
    ensures left <= p < r
    decreases r - o
  {
    if o == r then left
    else match ItemExamine(items, x, l, left, o)
      case Stop => left
      case Take => ItemScan(items, x, l, r, o, o + 1)
      case Pass => ItemScan(items, x, l, r, left, o + 1)
  }

  lemma ItemUnfold(items: seq<Item>, x: Item, l: int, r: int, left: int, o: int)
    requires -1 <= left < o < r <= |items|
    ensures ItemExamine(items, x, l, left, o) == Stop ==> ItemScan(items, x, l, r, left, o) == left
    ensures ItemExamine(items, x, l, left, o) == Take ==>
              ItemScan(items, x, l, r, left, o) == ItemScan(items, x, l, r, o, o + 1)
    ensures ItemExamine(items, x, l, left, o) == Pass ==>
              ItemScan(items, x, l, r, left, o) == ItemScan(items, x, l, r, left, o + 1)
  {
  }

  lemma ItemScanEnd(items: seq<Item>, x: Item, l: int, r: int, left: int)
    requires -1 <= left < r <= |items|
    ensures ItemScan(items, x, l, r, left, r) == left
  {
  }

  /** Origins are present, earlier in the list, and of the same key. */
  ghost predicate Grounded(s: seq<Unit>) {
    && Distinct(s)
    && forall j {:trigger GroundedAt(s, j)} :: 0 <= j < |s| ==> GroundedAt(s, j)
  }

  ghost predicate GroundedAt(s: seq<Unit>, j: int)
    requires 0 <= j < |s|
  {
    s[j].origin.Some? ==> 0 <= L(s, s[j]) < j && s[L(s, s[j])].key == s[j].key && s[L(s, s[j])].id == s[j].origin.value
  }

  /** `l` and `r` are the items of the origins of `x`, cut so that they end and start there. */
  ghost predicate Bracketed(items: seq<Item>, x: Item, l: int, r: int) {
    && NoneEmpty(items) && Grounded(Units(View(items)))
    && -1 <= l < r <= |items|
    && L(Units(View(items)), UnitAt(x, 0)) == Off(items, l + 1) - 1
    && R(Units(View(items)), UnitAt(x, 0)) == Off(items, r)
    && (x.origin.None? <==> l == -1)
  }

  /** Last unit of item `i`, -1 for the head of the list. */
  function Last(items: seq<Item>, i: int): int
    requires -1 <= i < |items|
  {
    Off(items, i + 1) - 1
  }

  lemma {:induction false} NextUnitOfItem(items: seq<Item>, x: Item, l: int, r: int, left: int, o: int, n: nat)
    requires Bracketed(items, x, l, r) && l < o < r && 0 < n < |items[o].content|
    requires Last(items, l) <= left < Off(items, o) + n
    ensures Off(items, o) + n < R(Units(View(items)), UnitAt(x, 0))
    ensures var e := Examine(Units(View(items)), UnitAt(x, 0), left, Off(items, o) + n);
            && (items[o].key != x.key ==> e == Pass)
            && (items[o].key == x.key ==> e == if Off(items, o) + n - 1 <= left then Take else Pass)
  {
    assert Distinct(Units(View(items))) && NoneEmpty(items);
    hide View, Units, Grounded, NoneEmpty, Distinct, Off, Cells, L, R, Examine;
    ViewAt(items, o, n);
    ViewAt(items, o, n - 1);
    OffMonotone(items, l + 1, o);
    OffMonotone(items, o, r);
    ExamineFollower(Units(View(items)), UnitAt(x, 0), left, Off(items, o) + n);
  }

  /** A unit that follows the one before it, both behind the left origin, is treated as that one was. */
  lemma ExamineFollower(s: seq<Unit>, x: Unit, left: int, k: int)
    requires Distinct(s) && 0 < k < |s| && s[k].origin == Some(s[k - 1].id) && L(s, x) < k - 1
    ensures var e := Examine(s, x, left, k);
            && (s[k].key != x.key ==> e == Pass)
            && (s[k].key == x.key ==> e == if k - 1 <= left then Take else Pass)
  {
    PosAt(s, k - 1);
  }

  /** Once an item's first unit is taken so are the rest; once passed over, so are the rest. */
  lemma {:induction false} RestOfItem(items: seq<Item>, x: Item, l: int, r: int, left: int, o: int, n: nat)
    requires Bracketed(items, x, l, r) && l < o < r && 0 < n <= |items[o].content|
    requires Last(items, l) <= left
    requires left < Off(items, o) || (left == Off(items, o) + n - 1 && items[o].key == x.key)
    ensures Scan(Units(View(items)), UnitAt(x, 0), left, Off(items, o) + n) ==
            var left' := if left < Off(items, o) then left else Last(items, o);
            Scan(Units(View(items)), UnitAt(x, 0), left', Off(items, o + 1))
    decreases |items[o].content| - n
  {
    hide Scan, Examine, View, Units, Grounded, NoneEmpty, L, R;
    if n < |items[o].content| {
      NextUnitOfItem(items, x, l, r, left, o, n);
      Unfold(Units(View(items)), UnitAt(x, 0), left, Off(items, o) + n);
      RestOfItem(items, x, l, r, if left < Off(items, o) then left else left + 1, o, n + 1);
    }
  }

  /** The first unit of an item is treated as the code treats the item. */
  lemma {:induction false} FirstUnitOfItem(items: seq<Item>, x: Item, l: int, r: int, left: int, o: int)
    requires Bracketed(items, x, l, r) && l <= left < o < r
    ensures Off(items, o) < R(Units(View(items)), UnitAt(x, 0))
    ensures Examine(Units(View(items)), UnitAt(x, 0), Last(items, left), Off(items, o)) ==
            ItemExamine(items, x, l, left, o)
    ensures ItemExamine(items, x, l, left, o) == Take ==> items[o].key == x.key
  {
    var s, u := Units(View(items)), items[o];
    ViewAt(items, o, 0);
    OffMonotone(items, o, r);
    if u.origin.Some? {
      assert GroundedAt(s, Off(items, o));
      var j := L(s, UnitAt(u, 0));
      var q, n := Locate(items, j);
      assert Holds(items[q], u.origin.value);
      SameItem(items, q, ItemOf(items, u.origin.value), u.origin.value);
      OffOrder(items, q, n, l);
      OffOrder(items, q, n, left);
      OffOrder(items, q, n, o - 1);
    }
  }

  /** The item and the place in it of a unit of the view. */
  lemma {:induction false} Locate(items: seq<Item>, j: int) returns (q: int, n: nat)
    requires 0 <= j < |View(items)|
    ensures 0 <= q < |items| && n < |items[q].content| && j == Off(items, q) + n
    ensures Units(View(items))[j] == UnitAt(items[q], n)
    ensures Holds(items[q], Units(View(items))[j].id)
  {
    var m := |items| - 1;
    ViewSplit(items, m);
    if j < Off(items, m) {
      q, n := Locate(items[..m], j);
      OffPrefix(items[..m], items, q);
      ViewAt(items, q, n);
    } else {
      q, n := m, j - Off(items, m);
      ViewLength(items);
      ViewAt(items, q, n);
    }
  }

  lemma {:induction false} SameItem(items: seq<Item>, q: int, q': int, id: Id)
    requires 0 <= q < |items| && 0 <= q' < |items| && Holds(items[q], id) && Holds(items[q'], id)
    requires NoneEmpty(items) && Distinct(Units(View(items)))
    ensures q == q'
  {
    HoldsAt(items, q, id);
    HoldsAt(items, q', id);
    if q < q' { OffMonotone(items, q, q'); }
    if q' < q { OffMonotone(items, q', q); }
  }

  lemma {:induction false} OffOrder(items: seq<Item>, q: int, n: nat, i: int)
    requires NoneEmpty(items) && 0 <= q < |items| && n < |items[q].content| && -1 <= i < |items|
    ensures q <= i <==> Off(items, q) + n <= Last(items, i)
  {
    if q <= i { OffMonotone(items, q, i + 1); } else { OffMonotone(items, i + 1, q); }
  }

  /** Scanning items is scanning their units. */
  lemma {:induction false} ScanItems(items: seq<Item>, x: Item, l: int, r: int, left: int, o: int)
    requires Bracketed(items, x, l, r) && l <= left < o <= r
    ensures Last(items, left) < Off(items, o)
    ensures Scan(Units(View(items)), UnitAt(x, 0), Last(items, left), Off(items, o)) ==
            Last(items, ItemScan(items, x, l, r, left, o))
    decreases r - o
  {
    hide Scan, Examine, ItemExamine, View, Units, Grounded, L, R, NoneEmpty, UnitAt, ItemScan, Off, Bracketed;
    BracketFacts(items, x, l, r);
    OffMonotone(items, left + 1, o);
    Unfold(Units(View(items)), UnitAt(x, 0), Last(items, left), Off(items, o));
    if o == r {
      ItemScanEnd(items, x, l, r, left);
    } else {
      ItemUnfold(items, x, l, r, left, o);
      FirstUnitOfItem(items, x, l, r, left, o);
      OffMonotone(items, l + 1, left + 1);
      match ItemExamine(items, x, l, left, o) {
        case Stop =>
        case Take =>
          OffMonotone(items, l + 1, o);
          ItemNotEmpty(items, o);
          RestOfItem(items, x, l, r, Off(items, o), o, 1);
          ScanItems(items, x, l, r, o, o + 1);
        case Pass =>
          ItemNotEmpty(items, o);
          RestOfItem(items, x, l, r, Last(items, left), o, 1);
          ScanItems(items, x, l, r, left, o + 1);
      }
    }
  }

  lemma BracketFacts(items: seq<Item>, x: Item, l: int, r: int)
    requires Bracketed(items, x, l, r)
    ensures NoneEmpty(items) && -1 <= l < r <= |items| && R(Units(View(items)), UnitAt(x, 0)) == Off(items, r)
  {
  }

  lemma ItemNotEmpty(items: seq<Item>, o: int)
    requires NoneEmpty(items) && 0 <= o < |items|
    ensures |items[o].content| > 0 && Off(items, o + 1) == Off(items, o) + |items[o].content|
  {
  }

  // -------------------------------------------------------- integrating an item

  /** Integrating units one after the other, each into the list the previous ones left. */
  ghost function IntegrateAll(s: seq<Unit>, us: seq<Unit>): seq<Unit>
    decreases |us|
  {
    if us == [] || !Anchors(s, us[0]) then s else IntegrateAll(Integrate(s, us[0]), us[1..])
  }

  /** The list does not know the units of `x`. */
  ghost predicate Unknown(s: seq<Unit>, x: Item) {
    forall j, n: nat :: 0 <= j < |s| && n < |x.content| ==> s[j].id != IdAt(x, n) && s[j].origin != Some(IdAt(x, n))
  }

  /** The units of `x` from the `n`-th on. */
  function TailUnits(x: Item, n: nat): (r: seq<Unit>)
    requires n <= |x.content|
    ensures |r| == |x.content| - n
  {
    Units(Cells(x))[n..]
  }

  /** The list with the first `n` units of `x` put in at `p`. */
  function WithUnits(s: seq<Unit>, p: nat, x: Item, n: nat): (r: seq<Unit>)
    requires p <= |s| && n <= |x.content|
    ensures |r| == |s| + n
    ensures forall j :: 0 <= j < |r| ==>
              r[j] == if j < p then s[j] else if j < p + n then UnitAt(x, j - p) else s[j - n]
  {
    s[..p] + Units(Cells(x))[..n] + s[p..]
  }

  lemma GroundedFrom(s: seq<Unit>, j: int)
    requires Grounded(s) && 0 <= j < |s|
    ensures s[j].origin.Some? ==> 0 <= L(s, s[j]) < j && s[L(s, s[j])].key == s[j].key
  {
    assert GroundedAt(s, j);
  }

  /** Nothing after the unit just written can claim to stand between it and its continuation. */
  lemma {:induction false} ContinuationScan(s: seq<Unit>, p: nat, x: Item, n: nat, o: int)
    requires Grounded(s) && Unknown(s, x) && p <= |s| && 0 < n < |x.content|
    requires var t := WithUnits(s, p, x, n);
             && Grounded(t) && L(t, UnitAt(x, n)) == p + n - 1
             && p + n <= o <= |t|
             && (forall j :: p + n <= j < o ==> t[j].key != x.key)
    ensures Scan(WithUnits(s, p, x, n), UnitAt(x, n), p + n - 1, o) == p + n - 1
    decreases |s| + n - o
  {
    hide Scan, Grounded, L, R, Distinct;
    var t := WithUnits(s, p, x, n);
    var u := UnitAt(x, n);
    Unfold(t, u, p + n - 1, o);
    if o < R(t, u) {
      GroundedFrom(t, o);
      assert t[o] == s[o - n];
      if t[o].key != x.key {
        ContinuationScan(s, p, x, n, o + 1);
      } else {
        assert s[o - n].origin != Some(IdAt(x, n - 1));
      }
    }
  }

  lemma {:induction false} GroundedInsert(s: seq<Unit>, p: nat, u: Unit)
    requires Grounded(s) && p <= |s| && !Has(s, u.id)
    requires u.origin.Some? ==> Has(s, u.origin.value) && L(s, u) < p && s[L(s, u)].key == u.key
    ensures Grounded(InsertAt(s, p, u))
  {
    var t := InsertAt(s, p, u);
    PosInsert(s, p, u, u.id);
    forall j | 0 <= j < |t|
      ensures GroundedAt(t, j)
    {
      var j' := if j < p then j else j - 1;
      if t[j].origin.Some? {
        if j != p {
          assert t[j] == s[j'];
          assert GroundedAt(s, j');
        }
        PosInsert(s, p, u, t[j].origin.value);
        var k := L(t, t[j]);
        assert t[k] == if k < p then s[k] else s[k - 1];
      }
    }
  }

  /** The state in the middle of writing out an item: `n` units are in, from `p` on. */
  ghost predicate Midway(s: seq<Unit>, p: nat, x: Item, n: nat) {
    && p <= |s| && 0 < n <= |x.content| && Grounded(s) && Unknown(s, x)
    && (x.right.Some? ==> Has(s, x.right.value) && p <= Pos(s, x.right.value))
    && Grounded(WithUnits(s, p, x, n))
  }

  lemma {:induction false} MidwayPositions(s: seq<Unit>, p: nat, x: Item, n: nat)
    requires Midway(s, p, x, n) && n < |x.content|
    ensures var t, u := WithUnits(s, p, x, n), UnitAt(x, n);
            Anchors(t, u) && L(t, u) == p + n - 1 && p + n <= R(t, u) && !Has(t, u.id)
  {
    var t, u := WithUnits(s, p, x, n), UnitAt(x, n);
    PosAt(t, p + n - 1);
    if x.right.Some? { PosAt(t, Pos(s, x.right.value) + n); }
  }

  lemma {:induction false} Continuation(s: seq<Unit>, p: nat, x: Item, n: nat)
    requires Midway(s, p, x, n) && n < |x.content|
    ensures Anchors(WithUnits(s, p, x, n), UnitAt(x, n))
    ensures Integrate(WithUnits(s, p, x, n), UnitAt(x, n)) == WithUnits(s, p, x, n + 1)
    ensures Midway(s, p, x, n + 1)
  {
    hide Scan, Grounded, L, R, Distinct, WithUnits, InsertAt, Unknown, Has, Pos;
    var t, u := WithUnits(s, p, x, n), UnitAt(x, n);
    MidwayPositions(s, p, x, n);
    OneMoreUnit(s, p, x, n);
    ContinuationScan(s, p, x, n, p + n);
    OriginAt(t, u);
    GroundedInsert(t, p + n, u);
  }

  lemma OneMoreUnit(s: seq<Unit>, p: nat, x: Item, n: nat)
    requires p <= |s| && 0 < n < |x.content|
    ensures |WithUnits(s, p, x, n)| == |s| + n && WithUnits(s, p, x, n)[p + n - 1].key == x.key
    ensures InsertAt(WithUnits(s, p, x, n), p + n, UnitAt(x, n)) == WithUnits(s, p, x, n + 1)
  {
  }

  lemma OriginAt(t: seq<Unit>, u: Unit)
    requires u.origin.Some? && Has(t, u.origin.value)
    ensures L(t, u) == Pos(t, u.origin.value) && t[L(t, u)].id == u.origin.value
  {
  }

  lemma MidwayGrounded(s: seq<Unit>, p: nat, x: Item)
    requires Midway(s, p, x, |x.content|)
    ensures Grounded(WithUnits(s, p, x, |x.content|))
  {
  }

  lemma {:induction false} WriteOut(s: seq<Unit>, p: nat, x: Item, n: nat)
    requires Midway(s, p, x, n)
    ensures IntegrateAll(WithUnits(s, p, x, n), TailUnits(x, n)) == WithUnits(s, p, x, |x.content|)
    ensures Midway(s, p, x, |x.content|)
    decreases |x.content| - n
  {
    hide Midway, Integrate, Anchors, WithUnits;
    if n < |x.content| {
      Continuation(s, p, x, n);
      WriteOut(s, p, x, n + 1);
      assert TailUnits(x, n)[0] == UnitAt(x, n);
      assert TailUnits(x, n)[1..] == TailUnits(x, n + 1);
    }
  }

  /** An item that may be integrated into a list of units. */
  ghost predicate Placeable(s: seq<Unit>, x: Item) {
    && x.content != [] && Grounded(s) && Unknown(s, x)
    && Anchors(s, UnitAt(x, 0))
    && (x.origin.Some? ==> s[L(s, UnitAt(x, 0))].key == x.key)
  }

  /** Where the first unit goes, all go. */
  lemma {:induction false} UnitsStayTogether(s: seq<Unit>, x: Item)
    requires Placeable(s, x)
    ensures var u := UnitAt(x, 0);
            IntegrateAll(s, Units(Cells(x))) == WithUnits(s, Scan(s, u, L(s, u), L(s, u) + 1) + 1, x, |x.content|)
    ensures Grounded(IntegrateAll(s, Units(Cells(x))))
  {
    hide Scan, Midway, Grounded, Unknown, WithUnits, L, R;
    var u := UnitAt(x, 0);
    var p := Scan(s, u, L(s, u), L(s, u) + 1) + 1;
    FirstUnit(s, x, p);
    WriteOut(s, p, x, 1);
    MidwayGrounded(s, p, x);
    var us := Units(Cells(x));
    assert us[0] == u && us[1..] == TailUnits(x, 1);
    assert IntegrateAll(s, us) == IntegrateAll(Integrate(s, u), us[1..]);
  }

  lemma {:induction false} FirstUnit(s: seq<Unit>, x: Item, p: nat)
    requires Placeable(s, x) && L(s, UnitAt(x, 0)) < p <= R(s, UnitAt(x, 0))
    ensures InsertAt(s, p, UnitAt(x, 0)) == WithUnits(s, p, x, 1)
    ensures Midway(s, p, x, 1)
  {
    var u := UnitAt(x, 0);
    assert !Has(s, u.id);
    GroundedInsert(s, p, u);
    assert InsertAt(s, p, u) == WithUnits(s, p, x, 1);
  }

  /**
    The item algorithm refines the unit algorithm: putting an item where the item
    scan says gives the view that integrating its units one by one gives.
  */
  lemma {:induction false} ItemIsItsUnits(items: seq<Item>, x: Item, l: int, r: int)
    requires Bracketed(items, x, l, r) && Placeable(Units(View(items)), x)
    ensures var q := ItemScan(items, x, l, r, l, l + 1) + 1;
            Units(View(Put(items, q, x))) == IntegrateAll(Units(View(items)), Units(Cells(x)))
    ensures Grounded(IntegrateAll(Units(View(items)), Units(Cells(x))))
  {
    hide Scan, ItemScan, View, Units, WithUnits, IntegrateAll, Grounded, NoneEmpty, Unknown, L, R, Off, Cells,
      Placeable, UnitAt;
    ScanItems(items, x, l, r, l, l + 1);
    UnitsStayTogether(Units(View(items)), x);
    InsertView(items, x, ItemScan(items, x, l, r, l, l + 1) + 1);
  }

  lemma {:induction false} InsertView(items: seq<Item>, x: Item, q: nat)
    requires q <= |items|
    ensures Off(items, q) <= |View(items)|
    ensures View(Put(items, q, x)) == View(items)[..Off(items, q)] + Cells(x) + View(items)[Off(items, q)..]
    ensures Units(View(Put(items, q, x))) == WithUnits(Units(View(items)), Off(items, q), x, |x.content|)
  {
    hide View, Cells;
    ViewSplit(items, q);
    ViewConcat(items[..q] + [x], items[q..]);
    ViewConcat(items[..q], [x]);
    ViewOne(x);
  }
}
