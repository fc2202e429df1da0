/**
  Where items are stored: one list of items per shared type and, for every client,
  the slice of its items in clock order.  Both hold the same items.
*/
module ItemStore {
  import opened Base
  import opened Yata
  import opened Items

  /** A client's items cover the clocks from 0 without gap or overlap, in order. */
  predicate Contiguous(slice: seq<Item>, c: nat) {
    && NoneEmpty(slice)
    && forall j {:trigger Seated(slice, c, j)} :: 0 <= j < |slice| ==> Seated(slice, c, j)
  }

  predicate Seated(slice: seq<Item>, c: nat, j: int)
    requires 0 <= j < |slice|
  {
    slice[j].id == Id(c, Off(slice, j))
  }

  ghost predicate SameItems(lists: map<Parent, seq<Item>>, clients: map<nat, seq<Item>>) {
    && (forall p, it :: p in lists && it in lists[p] ==>
          it.parent == p && it.id.client in clients && it in clients[it.id.client])
    && (forall c, it :: c in clients && it in clients[c] ==>
          it.id.client == c && it.parent in lists && it in lists[it.parent])
  }

  /** Cutting an item in two leaves the view of any list that holds it unchanged. */
  lemma CutView(s: seq<Item>, i: nat, offset: nat)
    requires i < |s| && 0 < offset < |s[i].content|
    ensures View(Cut(s, i, offset)) == View(s)
  {
    var a, b, d := s[..i], [s[i]], s[i + 1..];
    var h := [LeftHalf(s[i], offset), RightHalf(s[i], offset)];
    assert h == [LeftHalf(s[i], offset)] + [RightHalf(s[i], offset)];
    ViewConcat([LeftHalf(s[i], offset)], [RightHalf(s[i], offset)]);
    ViewOne(LeftHalf(s[i], offset));
    ViewOne(RightHalf(s[i], offset));
    ViewOne(s[i]);
    SplitView(s[i], offset);
    ViewReplace(a, b, h, d);
    assert s == a + b + d;
  }

  lemma {:induction false} CutOff(s: seq<Item>, i: nat, offset: nat, j: nat)
    requires i < |s| && 0 < offset < |s[i].content| && j <= |s| + 1
    ensures Off(Cut(s, i, offset), j) ==
            if j <= i then Off(s, j) else if j == i + 1 then Off(s, i) + offset else Off(s, j - 1)
  {
    if j > 0 { CutOff(s, i, offset, j - 1); }
  }

  lemma CutContiguous(s: seq<Item>, c: nat, i: nat, offset: nat)
    requires Contiguous(s, c) && i < |s| && 0 < offset < |s[i].content|
    ensures Contiguous(Cut(s, i, offset), c)
  {
    var t := Cut(s, i, offset);
    forall j | 0 <= j < |t|
      ensures Seated(t, c, j) && t[j].content != []
    {
      assert Seated(s, c, i);
      if j < i { assert Seated(s, c, j); }
      if j > i + 1 { assert Seated(s, c, j - 1); }
      CutOff(s, i, offset, j);
      if j > i + 1 { assert t[j] == s[j - 1]; }
    }
  }

  lemma CutElements(s: seq<Item>, i: nat, offset: nat, it: Item)
    requires i < |s| && 0 < offset < |s[i].content|
    requires forall j :: 0 <= j < |s| && j != i ==> s[j] != s[i]
    ensures it in Cut(s, i, offset) <==>
              it == LeftHalf(s[i], offset) || it == RightHalf(s[i], offset) || (it in s && it != s[i])
  {
    assert s == s[..i] + [s[i]] + s[i + 1..];
  }

  /** Items of a slice are distinct, and one of them holds any clock below the end. */
  lemma {:induction false} SliceDistinct(s: seq<Item>, c: nat, i: nat, j: nat)
    requires Contiguous(s, c) && i < |s| && j < |s| && i != j
    ensures s[i] != s[j] && s[i].id != s[j].id
    ensures forall id :: Holds(s[i], id) ==> !Holds(s[j], id)
  {
    assert Seated(s, c, i) && Seated(s, c, j);
    if i < j { OffMonotone(s, i, j); } else { OffMonotone(s, j, i); }
  }

  lemma {:induction false} SliceSorted(s: seq<Item>, c: nat, i: nat, j: nat)
    requires Contiguous(s, c) && i <= j < |s|
    ensures s[i].id.clock <= s[j].id.clock
  {
    assert Seated(s, c, i) && Seated(s, c, j);
    OffMonotone(s, i, j);
  }

  lemma {:induction false} SliceGap(s: seq<Item>, c: nat, i: nat, j: nat)
    requires Contiguous(s, c) && i < j < |s|
    ensures s[i].id.clock + |s[i].content| <= s[j].id.clock
  {
    assert Seated(s, c, i) && Seated(s, c, j);
    OffMonotone(s, i, j);
  }

  /** First index whose item starts after `clock`. */
  method SearchAfter(s: seq<Item>, ghost c: nat, clock: nat) returns (k: nat)
    requires Contiguous(s, c)
    ensures k <= |s|
    ensures forall j :: 0 <= j < k ==> s[j].id.clock <= clock
    ensures forall j :: k <= j < |s| ==> clock < s[j].id.clock
  {
    var hi := |s|;
    k := 0;
    while k < hi
      invariant k <= hi <= |s|
      invariant forall j :: 0 <= j < k ==> s[j].id.clock <= clock
      invariant forall j :: hi <= j < |s| ==> clock < s[j].id.clock
    {
      var mid := (k + hi) / 2;
      forall j | 0 <= j <= mid ensures s[j].id.clock <= s[mid].id.clock { SliceSorted(s, c, j, mid); }
      forall j | mid <= j < |s| ensures s[mid].id.clock <= s[j].id.clock { SliceSorted(s, c, mid, j); }
      if s[mid].id.clock > clock { hi := mid; } else { k := mid + 1; }
    }
  }

  /** Only the last item that starts at or before a clock can hold it. */
  lemma {:induction false} Candidate(s: seq<Item>, c: nat, k: nat, clock: nat)
    requires Contiguous(s, c) && k <= |s|
    requires forall j :: 0 <= j < k ==> s[j].id.clock <= clock
    requires forall j :: k <= j < |s| ==> clock < s[j].id.clock
    ensures forall j :: 0 <= j < |s| && Holds(s[j], Id(c, clock)) ==> j == k - 1
    ensures clock < Off(s, |s|) <==> k > 0 && Holds(s[k - 1], Id(c, clock))
  {
    if |s| > 0 { assert Seated(s, c, 0); }
    if 0 < k < |s| {
      assert Seated(s, c, k);
      OffMonotone(s, k, |s|);
    }
    if k > 0 {
      assert Seated(s, c, k - 1);
      forall j | 0 <= j < k - 1
        ensures !Holds(s[j], Id(c, clock))
      {
        assert Seated(s, c, j);
        OffMonotone(s, j, k - 1);
      }
    }
  }

  /** The item holding a clock below the end of a slice, by binary search on start clocks. */
  method FindIn(s: seq<Item>, ghost c: nat, clock: nat) returns (found: bool, i: nat)
    requires Contiguous(s, c)
    ensures found ==> i < |s| && Holds(s[i], Id(c, clock))
    ensures !found ==> forall j :: 0 <= j < |s| ==> !Holds(s[j], Id(c, clock))
    ensures found <==> clock < Off(s, |s|)
  {
    var k := SearchAfter(s, c, clock);
    Candidate(s, c, k, clock);
    found, i := false, 0;
    if k > 0 {
      i := k - 1;
      assert Seated(s, c, i);
      found := clock < s[i].id.clock + |s[i].content|;
    }
  }

  /** Cutting one item in its list and in its slice keeps the two in agreement. */
  lemma CutAgrees(lists: map<Parent, seq<Item>>, clients: map<nat, seq<Item>>, p: Parent, i: nat, c: nat, j: nat,
                  offset: nat)
    requires SameItems(lists, clients) && p in lists && c in clients && i < |lists[p]| && j < |clients[c]|
    requires lists[p][i] == clients[c][j] && 0 < offset < |lists[p][i].content|
    requires lists[p][i].id.client == c && lists[p][i].parent == p
    requires forall k :: 0 <= k < |lists[p]| && k != i ==> lists[p][k] != lists[p][i]
    requires forall k :: 0 <= k < |clients[c]| && k != j ==> clients[c][k] != clients[c][j]
    ensures SameItems(lists[p := Cut(lists[p], i, offset)], clients[c := Cut(clients[c], j, offset)])
  {
    var lists', clients' := lists[p := Cut(lists[p], i, offset)], clients[c := Cut(clients[c], j, offset)];
    forall q: Parent, it: Item | q in lists' && it in lists'[q]
      ensures it.parent == q && it.id.client in clients' && it in clients'[it.id.client]
    {
      CutElements(lists[p], i, offset, it);
      CutElements(clients[c], j, offset, it);
      if it in lists[q] { assert it.parent == q; }
    }
    forall d: nat, it: Item | d in clients' && it in clients'[d]
      ensures it.id.client == d && it.parent in lists' && it in lists'[it.parent]
    {
      CutElements(lists[p], i, offset, it);
      CutElements(clients[c], j, offset, it);
      if it in clients[d] { assert it in lists[it.parent]; }
    }
  }

  type Lists = map<Parent, seq<Item>>
  type Slices = map<nat, seq<Item>>

  ghost predicate Ok(lists: Lists, clients: Slices) {
    && SameItems(lists, clients)
    && (forall c :: c in clients ==> Contiguous(clients[c], c))
    && (forall p :: p in lists ==>
          NoneEmpty(lists[p]) && Distinct(Units(View(lists[p]))) && Grounded(Units(View(lists[p]))))
  }

  /** Every list and every slice shows the cells it showed before. */
  ghost predicate SameViews(lists: Lists, clients: Slices, lists': Lists, clients': Slices) {
    && lists.Keys == lists'.Keys && clients.Keys == clients'.Keys
    && (forall p :: p in lists ==> View(lists[p]) == View(lists'[p]))
    && (forall c :: c in clients ==> View(clients[c]) == View(clients'[c]))
  }

  /** Splitting is invisible: it keeps the agreement of lists and slices and every view. */
  lemma SplitKeeps(lists: Lists, clients: Slices, p: Parent, i: nat, c: nat, j: nat, offset: nat)
    requires Ok(lists, clients) && p in lists && i < |lists[p]| && 0 < offset < |lists[p][i].content|
    requires c in clients && j < |clients[c]| && c == lists[p][i].id.client && Holds(clients[c][j], lists[p][i].id)
    ensures clients[c][j] == lists[p][i]
    ensures var lists', clients' := lists[p := Cut(lists[p], i, offset)], clients[c := Cut(clients[c], j, offset)];
            Ok(lists', clients') && SameViews(lists, clients, lists', clients')
  {
    hide View, Units, Distinct;
    var it := lists[p][i];
    assert it in lists[p];
    ListItemsDistinct(lists[p], i);
    InSlice(clients[c], c, it, j);
    CutAgrees(lists, clients, p, i, c, j, offset);
    CutView(lists[p], i, offset);
    CutView(clients[c], j, offset);
    CutContiguous(clients[c], c, j, offset);
  }

  lemma SameViewsRefl(lists: Lists, clients: Slices)
    ensures SameViews(lists, clients, lists, clients)
  {
  }

  lemma SameViewsTrans(lists: Lists, clients: Slices, lists0: Lists, clients0: Slices, lists': Lists, clients': Slices)
    requires SameViews(lists, clients, lists0, clients0) && SameViews(lists0, clients0, lists', clients')
    ensures SameViews(lists, clients, lists', clients')
  {
  }

  lemma ItemInSlice(lists: Lists, clients: Slices, p: Parent, i: nat)
    requires Ok(lists, clients) && p in lists && i < |lists[p]|
    ensures lists[p][i].id.client in clients && lists[p][i] in clients[lists[p][i].id.client]
  {
    assert lists[p][i] in lists[p];
  }

  lemma SliceItemInList(lists: Lists, clients: Slices, c: nat, j: nat)
    requires Ok(lists, clients) && c in clients && j < |clients[c]|
    ensures clients[c][j].parent in lists && clients[c][j] in lists[clients[c][j].parent]
    ensures clients[c][j].id.client == c
  {
    assert clients[c][j] in clients[c];
  }

  lemma {:induction false} JoinView(s: seq<Item>, i: nat)
    requires 0 < i < |s| && Mergeable(s[i - 1], s[i])
    ensures View(Join(s, i)) == View(s)
  {
    var a, d := s[..i - 1], s[i + 1..];
    var m := Merged(s[i - 1], s[i]);
    assert s == a + [s[i - 1], s[i]] + d;
    assert [s[i - 1], s[i]] == [s[i - 1]] + [s[i]];
    ViewConcat([s[i - 1]], [s[i]]);
    ViewOne(s[i - 1]);
    ViewOne(s[i]);
    ViewOne(m);
    MergeView(s[i - 1], s[i]);
    ViewReplace(a, [s[i - 1], s[i]], [m], d);
  }

  lemma {:induction false} JoinOff(s: seq<Item>, i: nat, j: nat)
    requires 0 < i < |s| && j < |s|
    ensures Off(Join(s, i), j) == if j < i then Off(s, j) else Off(s, j + 1)
  {
    if j > 0 { JoinOff(s, i, j - 1); }
  }

  lemma {:induction false} JoinContiguous(s: seq<Item>, c: nat, i: nat)
    requires Contiguous(s, c) && 0 < i < |s|
    ensures Contiguous(Join(s, i), c)
  {
    var t := Join(s, i);
    forall j | 0 <= j < |t|
      ensures Seated(t, c, j) && t[j].content != []
    {
      JoinOff(s, i, j);
      assert Seated(s, c, if j < i then j else j + 1);
    }
  }

  lemma JoinElements(s: seq<Item>, i: nat, it: Item)
    requires 0 < i < |s|
    requires forall k :: 0 <= k < |s| && k != i ==> s[k] != s[i]
    requires forall k :: 0 <= k < |s| && k != i - 1 ==> s[k] != s[i - 1]
    ensures it in Join(s, i) <==> it == Merged(s[i - 1], s[i]) || (it in s && it != s[i] && it != s[i - 1])
    ensures NoneEmpty(s) ==> NoneEmpty(Join(s, i))
  {
    assert s == s[..i - 1] + [s[i - 1], s[i]] + s[i + 1..];
  }

  /** In the slice of its client, the left neighbour an item continues is the item before it. */
  lemma {:induction false} LeftInSlice(slice: seq<Item>, c: nat, left: Item, it: Item, j: nat)
    requires Contiguous(slice, c) && left in slice && j < |slice| && slice[j] == it && Mergeable(left, it)
    ensures 0 < j && slice[j - 1] == left
  {
    var m :| 0 <= m < |slice| && slice[m] == left;
    assert Seated(slice, c, m) && Seated(slice, c, j);
    if m < j - 1 {
      OffMonotone(slice, m, j - 1);
      OffMonotone(slice, j - 1, j);
    } else if j <= m {
      OffMonotone(slice, j, m);
    }
  }

  /** Merging is invisible: it keeps the agreement of lists and slices and every view. */
  lemma {:induction false} JoinKeeps(lists: Lists, clients: Slices, p: Parent, i: nat, c: nat, j: nat)
    requires Ok(lists, clients) && p in lists && 0 < i < |lists[p]| && Mergeable(lists[p][i - 1], lists[p][i])
    requires c in clients && c == lists[p][i].id.client && j < |clients[c]| && clients[c][j] == lists[p][i]
    ensures 0 < j && clients[c][j - 1] == lists[p][i - 1]
    ensures var lists', clients' := lists[p := Join(lists[p], i)], clients[c := Join(clients[c], j)];
            Ok(lists', clients') && SameViews(lists, clients, lists', clients')
  {
    hide View, Units, Distinct;
    var left, it := lists[p][i - 1], lists[p][i];
    assert left in lists[p] && it in lists[p];
    LeftInSlice(clients[c], c, left, it, j);
    ListItemsDistinct(lists[p], i);
    ListItemsDistinct(lists[p], i - 1);
    InSlice(clients[c], c, it, j);
    InSlice(clients[c], c, left, j - 1);
    JoinAgrees(lists, clients, p, i, c, j);
    JoinView(lists[p], i);
    JoinView(clients[c], j);
    JoinContiguous(clients[c], c, j);
    JoinElements(lists[p], i, it);
  }

  lemma JoinAgrees(lists: Lists, clients: Slices, p: Parent, i: nat, c: nat, j: nat)
    requires SameItems(lists, clients) && p in lists && c in clients && 0 < i < |lists[p]| && 0 < j < |clients[c]|
    requires lists[p][i] == clients[c][j] && lists[p][i - 1] == clients[c][j - 1]
    requires Mergeable(lists[p][i - 1], lists[p][i]) && lists[p][i].id.client == c && lists[p][i].parent == p
    requires forall k :: 0 <= k < |lists[p]| && k != i ==> lists[p][k] != lists[p][i]
    requires forall k :: 0 <= k < |lists[p]| && k != i - 1 ==> lists[p][k] != lists[p][i - 1]
    requires forall k :: 0 <= k < |clients[c]| && k != j ==> clients[c][k] != clients[c][j]
    requires forall k :: 0 <= k < |clients[c]| && k != j - 1 ==> clients[c][k] != clients[c][j - 1]
    ensures SameItems(lists[p := Join(lists[p], i)], clients[c := Join(clients[c], j)])
  {
    hide Join;
    var lists', clients' := lists[p := Join(lists[p], i)], clients[c := Join(clients[c], j)];
    forall q: Parent, it: Item | q in lists' && it in lists'[q]
      ensures it.parent == q && it.id.client in clients' && it in clients'[it.id.client]
    {
      JoinElements(lists[p], i, it);
      JoinElements(clients[c], j, it);
      if it in lists[q] { assert it.parent == q; }
    }
    forall d: nat, it: Item | d in clients' && it in clients'[d]
      ensures it.id.client == d && it.parent in lists' && it in lists'[it.parent]
    {
      JoinElements(lists[p], i, it);
      JoinElements(clients[c], j, it);
      if it in clients[d] { assert it in lists[it.parent]; }
    }
  }

  function SliceOf(clients: Slices, c: nat): seq<Item> {
    if c in clients then clients[c] else []
  }

  /** The next clock expected of a client: the end of its slice. */
  function NextClock(clients: Slices, c: nat): nat {
    Off(SliceOf(clients, c), |SliceOf(clients, c)|)
  }

  /** The cells of `x` went in at `at` of its list and at the end of its client's slice, and nowhere else. */
  ghost predicate Added(lists: Lists, clients: Slices, lists': Lists, clients': Slices, x: Item, at: nat) {
    && lists'.Keys == lists.Keys && x.parent in lists && at <= |View(lists[x.parent])|
    && View(lists'[x.parent]) == View(lists[x.parent])[..at] + Cells(x) + View(lists[x.parent])[at..]
    && (forall p :: p in lists && p != x.parent ==> View(lists'[p]) == View(lists[p]))
    && (forall c :: View(SliceOf(clients', c)) == View(SliceOf(clients, c)) + if c == x.id.client then Cells(x) else [])
  }

  lemma ScanBounds(items: seq<Item>, x: Item, l: int, r: int)
    requires Bracketed(items, x, l, r)
    ensures -1 <= l <= ItemScan(items, x, l, r, l, l + 1) < |items|
  {
  }

  lemma SameEnds(clients: Slices, clients': Slices, c: nat)
    requires clients.Keys == clients'.Keys
    requires forall d :: d in clients ==> View(clients[d]) == View(clients'[d])
    ensures NextClock(clients, c) == NextClock(clients', c)
  {
    ViewLength(SliceOf(clients, c));
    ViewLength(SliceOf(clients', c));
  }

  lemma Unchanged(lists: Lists, clients: Slices, lists': Lists, clients': Slices, x: Item)
    requires SameViews(lists, clients, lists', clients') && x.parent in lists
    requires Placeable(Units(View(lists[x.parent])), x)
    ensures x.parent in lists' && View(lists'[x.parent]) == View(lists[x.parent])
    ensures x.content != [] && Unknown(Units(View(lists'[x.parent])), x)
    ensures NextClock(clients, x.id.client) == NextClock(clients', x.id.client)
  {
    hide View, Units;
    SameEnds(clients, clients', x.id.client);
  }

  lemma AddedFrom(lists: Lists, clients: Slices, lists0: Lists, clients0: Slices, lists': Lists, clients': Slices,
                  x: Item, at: nat)
    requires SameViews(lists, clients, lists0, clients0) && Added(lists0, clients0, lists', clients', x, at)
    ensures Added(lists, clients, lists', clients', x, at)
  {
    hide View;
    forall c
      ensures View(SliceOf(clients0, c)) == View(SliceOf(clients, c))
    {
    }
  }

  lemma {:induction false} WithUnitsDistinct(s: seq<Unit>, p: nat, x: Item)
    requires Distinct(s) && Unknown(s, x) && p <= |s|
    ensures Distinct(WithUnits(s, p, x, |x.content|))
  {
  }

  lemma {:induction false} AppendContiguous(s: seq<Item>, c: nat, x: Item)
    requires Contiguous(s, c) && x.id == Id(c, Off(s, |s|)) && x.content != []
    ensures Contiguous(s + [x], c)
  {
    forall j | 0 <= j < |s| + 1
      ensures Seated(s + [x], c, j)
    {
      OffPrefix(s, s + [x], if j < |s| then j else |s|);
      if j < |s| { assert Seated(s, c, j); }
    }
  }

  lemma AddAgrees(lists: Lists, clients: Slices, x: Item, q: nat)
    requires SameItems(lists, clients) && x.parent in lists && q <= |lists[x.parent]|
    ensures SameItems(lists[x.parent := Put(lists[x.parent], q, x)],
                      clients[x.id.client := SliceOf(clients, x.id.client) + [x]])
  {
    hide Put;
    AddElements(lists[x.parent], q, x);
  }

  /** Adding an item keeps lists and slices in agreement. */
  lemma {:induction false} AddKeeps(lists: Lists, clients: Slices, x: Item, q: nat)
    requires Ok(lists, clients) && x.parent in lists && q <= |lists[x.parent]| && x.content != []
    requires Unknown(Units(View(lists[x.parent])), x) && x.id.clock == NextClock(clients, x.id.client)
    requires Grounded(Units(View(Put(lists[x.parent], q, x))))
    ensures var lists' := lists[x.parent := Put(lists[x.parent], q, x)];
            var clients' := clients[x.id.client := SliceOf(clients, x.id.client) + [x]];
            Ok(lists', clients') && Added(lists, clients, lists', clients', x, Off(lists[x.parent], q))
  {
    hide View, Units, Distinct, Grounded, Unknown, Contiguous, SameItems, Put;
    var p, c := x.parent, x.id.client;
    var slice := SliceOf(clients, c);
    InsertView(lists[p], x, q);
    WithUnitsDistinct(Units(View(lists[p])), Off(lists[p], q), x);
    EmptyContiguous(c);
    AppendContiguous(slice, c, x);
    ViewConcat(slice, [x]);
    ViewOne(x);
    AddElements(lists[p], q, x);
    AddAgrees(lists, clients, x, q);
    assert forall c' :: View(SliceOf(clients, c')) + [] == View(SliceOf(clients, c'));
  }

  lemma EmptyContiguous(c: nat)
    ensures Contiguous([], c)
  {
  }

  lemma AddElements(s: seq<Item>, q: nat, x: Item)
    requires q <= |s|
    ensures forall it :: it in Put(s, q, x) <==> it in s || it == x
    ensures NoneEmpty(s) && x.content != [] ==> NoneEmpty(Put(s, q, x))
  {
    assert s == s[..q] + s[q..];
  }

  lemma {:induction false} ItemIds(items: seq<Item>, o: nat)
    requires o < |items| && NoneEmpty(items) && Grounded(Units(View(items)))
    ensures forall q :: 0 <= q < |items| && q != o ==> items[q].id != items[o].id
  {
    forall q | 0 <= q < |items| && q != o
      ensures items[q].id != items[o].id
    {
      if items[q].id == items[o].id {
        SameItem(items, q, o, items[o].id);
      }
    }
  }

  lemma {:induction false} OriginPresent(items: seq<Item>, o: nat)
    requires o < |items| && NoneEmpty(items) && Grounded(Units(View(items))) && items[o].origin.Some?
    ensures Has(Units(View(items)), items[o].origin.value)
  {
    ViewAt(items, o, 0);
    assert GroundedAt(Units(View(items)), Off(items, o));
  }

  /** The item of an origin comes earlier and has the same key. */
  lemma {:induction false} OriginItem(items: seq<Item>, o: nat, q: nat)
    requires o < |items| && q < |items| && NoneEmpty(items) && Grounded(Units(View(items)))
    requires items[o].origin.Some? && Holds(items[q], items[o].origin.value)
    ensures q == ItemOf(items, items[o].origin.value) && q < o && items[q].key == items[o].key
  {
    var s := Units(View(items));
    ViewAt(items, o, 0);
    assert GroundedAt(s, Off(items, o));
    HoldsAt(items, q, items[o].origin.value);
    SameItem(items, q, ItemOf(items, items[o].origin.value), items[o].origin.value);
    ViewAt(items, q, items[o].origin.value.clock - items[q].id.clock);
    if o < q { OffMonotone(items, o, q); }
  }

  method IndexIn(s: seq<Item>, it: Item) returns (i: nat)
    requires it in s
    ensures i < |s| && s[i] == it
  {
    i := 0;
    while s[i] != it
      invariant i < |s| && it in s[i..]
      decreases |s| - i
    {
      i := i + 1;
    }
  }

  /** A unit of a list belongs to an item of the list, which is in its client's slice. */
  lemma {:induction false} HolderInSlice(lists: Lists, clients: Slices, p: Parent, id: Id)
    requires Ok(lists, clients) && p in lists && Has(Units(View(lists[p])), id)
    ensures id.client in clients
    ensures exists j ::
              0 <= j < |clients[id.client]| && Holds(clients[id.client][j], id) && clients[id.client][j] in lists[p]
  {
    var q, n := Locate(lists[p], Pos(Units(View(lists[p])), id));
    var it := lists[p][q];
    assert it in lists[p];
    var j :| 0 <= j < |clients[id.client]| && clients[id.client][j] == it;
  }

  lemma {:induction false} HolderUnique(lists: Lists, clients: Slices, p: Parent, id: Id, j: nat)
    requires Ok(lists, clients) && p in lists && Has(Units(View(lists[p])), id)
    requires id.client in clients && j < |clients[id.client]| && Holds(clients[id.client][j], id)
    ensures clients[id.client][j] in lists[p]
  {
    hide View, Units, Distinct;
    HolderInSlice(lists, clients, p, id);
    var slice := clients[id.client];
    var m :| 0 <= m < |slice| && Holds(slice[m], id) && slice[m] in lists[p];
    if m != j { SliceDistinct(slice, id.client, m, j); }
  }

  lemma HoldsItself(slice: seq<Item>, it: Item)
    requires it in slice && NoneEmpty(slice)
    ensures exists j :: 0 <= j < |slice| && Holds(slice[j], it.id)
  {
    var j :| 0 <= j < |slice| && slice[j] == it;
    assert Holds(slice[j], it.id);
  }

  lemma CutIsReplace(s: seq<Item>, i: nat, offset: nat)
    requires i < |s| && 0 < offset < |s[i].content|
    ensures s[..i] + [LeftHalf(s[i], offset), RightHalf(s[i], offset)] + s[i + 1..] == Cut(s, i, offset)
  {
  }

  lemma CutIsInsert(s: seq<Item>, j: nat, offset: nat)
    requires j < |s| && 0 < offset < |s[j].content|
    ensures var t := s[j := LeftHalf(s[j], offset)];
            t[..j + 1] + [RightHalf(s[j], offset)] + t[j + 1..] == Cut(s, j, offset)
  {
  }

  lemma {:induction false} ListItemsDistinct(s: seq<Item>, i: nat)
    requires i < |s| && NoneEmpty(s) && Distinct(Units(View(s)))
    ensures forall k :: 0 <= k < |s| && k != i ==> s[k] != s[i]
  {
    forall k | 0 <= k < |s| && k != i
      ensures s[k] != s[i]
    {
      ViewAt(s, i, 0);
      ViewAt(s, k, 0);
      if k < i { OffMonotone(s, k, i); } else { OffMonotone(s, i, k); }
    }
  }

  lemma {:induction false} InSlice(slice: seq<Item>, c: nat, it: Item, j: nat)
    requires Contiguous(slice, c) && it in slice && j < |slice| && Holds(slice[j], it.id)
    ensures slice[j] == it
    ensures forall k :: 0 <= k < |slice| && k != j ==> slice[k] != slice[j]
  {
    var m :| 0 <= m < |slice| && slice[m] == it;
    if m != j { SliceDistinct(slice, c, m, j); }
    forall k | 0 <= k < |slice| && k != j
      ensures slice[k] != slice[j]
    {
      SliceDistinct(slice, c, k, j);
    }
  }

  /** Where a new right half is registered: before the first item that starts at or after it. */
  method InsertionPoint(ghost slice: seq<Item>, trimmed: seq<Item>, ghost c: nat, ghost j: nat, clock: nat)
    returns (pos: nat)
    requires Contiguous(slice, c) && j < |slice| && |trimmed| == |slice|
    requires forall k :: 0 <= k < |slice| ==> trimmed[k].id == slice[k].id
    requires slice[j].id.clock < clock < slice[j].id.clock + |slice[j].content|
    ensures pos == j + 1
  {
    pos := 0;
    var hi := |trimmed|;
    forall k | 0 <= k < |slice| ensures slice[k].id.clock < clock <==> k <= j {
      if k <= j { SliceSorted(slice, c, k, j); } else { SliceGap(slice, c, j, k); }
    }
    while pos < hi
      invariant pos <= j + 1 <= hi <= |trimmed|
    {
      var mid := (pos + hi) / 2;
      if trimmed[mid].id.clock >= clock { hi := mid; } else { pos := mid + 1; }
    }
  }

  // ----------------------------------------------------------------- deletions

  lemma {:induction false} UnitsConcat(a: seq<Cell>, b: seq<Cell>)
    ensures Units(a + b) == Units(a) + Units(b)
  {
  }

  /** Deleting an item changes its flag and no unit. */
  lemma {:induction false} FlagView(s: seq<Item>, i: nat)
    requires i < |s|
    ensures Units(View(Flag(s, i))) == Units(View(s))
  {
    hide View, Units, Cells;
    var it, a, b := s[i], s[..i], s[i + 1..];
    var it' := it.(deleted := true);
    assert s == a + [it] + b && Flag(s, i) == a + [it'] + b;
    ViewConcat(a + [it], b);
    ViewConcat(a, [it]);
    ViewConcat(a + [it'], b);
    ViewConcat(a, [it']);
    ViewOne(it);
    ViewOne(it');
    FlagCells(it);
    UnitsConcat(View(a) + Cells(it), View(b));
    UnitsConcat(View(a), Cells(it));
    UnitsConcat(View(a) + Cells(it'), View(b));
    UnitsConcat(View(a), Cells(it'));
  }

  lemma FlagCells(it: Item)
    ensures Units(Cells(it.(deleted := true))) == Units(Cells(it))
  {
  }

  lemma {:induction false} FlagOff(s: seq<Item>, i: nat, j: nat)
    requires i < |s| && j <= |s|
    ensures Off(Flag(s, i), j) == Off(s, j)
  {
    if j > 0 { FlagOff(s, i, j - 1); }
  }

  lemma FlagContiguous(s: seq<Item>, c: nat, i: nat)
    requires Contiguous(s, c) && i < |s|
    ensures Contiguous(Flag(s, i), c)
  {
    var t := Flag(s, i);
    forall j | 0 <= j < |t|
      ensures Seated(t, c, j) && t[j].content != []
    {
      FlagOff(s, i, j);
      assert Seated(s, c, j);
    }
  }

  lemma FlagElements(s: seq<Item>, i: nat, it: Item)
    requires i < |s| && forall k :: 0 <= k < |s| && k != i ==> s[k] != s[i]
    ensures it in Flag(s, i) <==> it == s[i].(deleted := true) || (it in s && it != s[i])
  {
    var t := Flag(s, i);
    if it in s && it != s[i] {
      var k :| 0 <= k < |s| && s[k] == it;
      assert t[k] == it;
    }
    assert t[i] == s[i].(deleted := true);
  }

  lemma FlagAgrees(lists: Lists, clients: Slices, p: Parent, i: nat, c: nat, j: nat)
    requires SameItems(lists, clients) && p in lists && c in clients && i < |lists[p]| && j < |clients[c]|
    requires lists[p][i] == clients[c][j] && lists[p][i].id.client == c && lists[p][i].parent == p
    requires forall k :: 0 <= k < |lists[p]| && k != i ==> lists[p][k] != lists[p][i]
    requires forall k :: 0 <= k < |clients[c]| && k != j ==> clients[c][k] != clients[c][j]
    ensures SameItems(lists[p := Flag(lists[p], i)], clients[c := Flag(clients[c], j)])
  {
    hide Flag;
    var lists', clients' := lists[p := Flag(lists[p], i)], clients[c := Flag(clients[c], j)];
    forall q: Parent, it: Item | q in lists' && it in lists'[q]
      ensures it.parent == q && it.id.client in clients' && it in clients'[it.id.client]
    {
      FlagElements(lists[p], i, it);
      FlagElements(clients[c], j, it);
      if it in lists[q] { assert it.parent == q; }
    }
    forall d: nat, it: Item | d in clients' && it in clients'[d]
      ensures it.id.client == d && it.parent in lists' && it in lists'[it.parent]
    {
      FlagElements(lists[p], i, it);
      FlagElements(clients[c], j, it);
      if it in clients[d] { assert it in lists[it.parent]; }
    }
  }

  /** Deleting an item in list and slice keeps the two in agreement and every unit. */
  lemma FlagKeeps(lists: Lists, clients: Slices, p: Parent, i: nat, c: nat, j: nat)
    requires Ok(lists, clients) && p in lists && i < |lists[p]|
    requires c in clients && c == lists[p][i].id.client && j < |clients[c]| && Holds(clients[c][j], lists[p][i].id)
    ensures clients[c][j] == lists[p][i]
    ensures var lists', clients' := lists[p := Flag(lists[p], i)], clients[c := Flag(clients[c], j)];
            && Ok(lists', clients')
            && (forall q :: q in lists ==> Units(View(lists'[q])) == Units(View(lists[q])))
            && (forall d :: NextClock(clients', d) == NextClock(clients, d))
  {
    hide View, Units, Distinct, Grounded;
    var it := lists[p][i];
    assert it in lists[p];
    ListItemsDistinct(lists[p], i);
    InSlice(clients[c], c, it, j);
    FlagAgrees(lists, clients, p, i, c, j);
    FlagView(lists[p], i);
    FlagContiguous(clients[c], c, j);
    FlagOff(clients[c], j, |clients[c]|);
  }
}
