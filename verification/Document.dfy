/**
  The document: the lists of its shared types, the slices of its clients and, for
  every map type, the table of the item that holds each key.
*/
module Document {
  import opened Base
  import opened Yata
  import opened Items
  import opened ItemStore
  import opened KeyTable
  import opened MapEntries

  class Document {
    var lists: Lists
    var clients: Slices
    var itemMap: Table
    /** The text items integrated in this transaction, by their first ids. */
    var newItems: set<Id>
    /** Where items have been cut, and the units whose deletion was asked for. */
    ghost var cuts: set<Id>
    ghost var asked: set<Id>

    ghost function Records(): Books
      reads this
    {
      Books(itemMap, newItems, cuts, asked)
    }

    ghost predicate Valid()
      reads this
    {
      Ok(lists, clients) && BooksOk(lists, clients, Records())
    }

    constructor ()
      ensures Valid() && lists == map[] && clients == map[] && asked == {}
    {
      lists, clients, itemMap, newItems, cuts, asked := map[], map[], map[], {}, {}, {};
    }

    /** Makes sure a shared type exists. */
    method Open(p: Parent)
      requires Valid()
      modifies this
      ensures Valid() && clients == old(clients) && asked == old(asked)
      ensures lists == if p in old(lists) then old(lists) else old(lists)[p := []]
    {
      hide Ok, BooksOk;
      if p !in lists {
        OpenKeeps(lists, clients, Records(), p);
        lists, itemMap := lists[p := []], itemMap[p := map[]];
      }
    }

    /** A new transaction starts. */
    method Begin()
      requires Valid()
      modifies this`newItems
      ensures Valid() && newItems == {}
    {
      newItems := {};
    }

    /** Cuts item `i` of a list in two, in the list and in its client's slice. */
    method SplitItem(p: Parent, i: nat, offset: nat)
      requires Valid() && p in lists && i < |lists[p]| && 0 < offset < |lists[p][i].content|
      modifies this
      ensures Valid() && SameViews(old(lists), old(clients), lists, clients)
      ensures lists == old(lists)[p := Cut(old(lists[p]), i, offset)]
      ensures Records() == CutBooks(old(Records()), old(lists[p])[i], offset)
    {
      hide View, Units, Ok, SameViews, Contiguous, Cut, CutBooks, BooksOk, NextClock, Holds;
      var it := lists[p][i];
      ItemInSlice(lists, clients, p, i);
      OneParent(lists, clients, p, i);
      var c := it.id.client;
      SliceOk(lists, clients, c);
      var slice := clients[c];
      var found, j := FindIn(slice, c, it.id.clock);
      HoldsItself(slice, it);
      SplitKeeps(lists, clients, p, i, c, j, offset);
      var left, right := LeftHalf(it, offset), RightHalf(it, offset);
      var trimmed := slice[j := left];
      var pos := InsertionPoint(slice, trimmed, c, j, right.id.clock);
      CutIsInsert(slice, j, offset);
      CutIsReplace(lists[p], i, offset);
      lists := lists[p := lists[p][..i] + [left, right] + lists[p][i + 1..]];
      clients := clients[c := trimmed[..pos] + [right] + trimmed[pos..]];
      if it.key.Some? && Entry(itemMap, p, it.key.value) == Some(it.id) {
        itemMap := WithEntry(itemMap, p, it.key.value, right.id);
      }
      cuts := cuts + {right.id};
      SameViewsEnds(old(lists), old(clients), lists, clients);
      CutRecords(old(Records()), it, offset, Records());
      CutKeepsBooks(old(lists), old(clients), old(Records()), p, i, offset, clients);
    }

    /** The item of a list that holds `id`, looked up in the slice of its client. */
    method Find(p: Parent, id: Id) returns (i: nat)
      requires Ok(lists, clients) && p in lists && Has(Units(View(lists[p])), id)
      ensures i < |lists[p]| && Holds(lists[p][i], id)
    {
      hide View, Units, Distinct;
      HolderInSlice(lists, clients, p, id);
      var _, j := FindIn(clients[id.client], id.client, id.clock);
      var it := clients[id.client][j];
      HolderUnique(lists, clients, p, id, j);
      i := IndexIn(lists[p], it);
    }

    /** The item ending exactly at `id`, cut there if needed. */
    method CleanEnd(p: Parent, id: Id) returns (i: nat)
      requires Valid() && p in lists && Has(Units(View(lists[p])), id)
      modifies this
      ensures Valid() && SameViews(old(lists), old(clients), lists, clients)
      ensures newItems == old(newItems) && asked == old(asked)
      ensures i < |lists[p]| && Last(lists[p], i) == Pos(Units(View(lists[p])), id)
    {
      hide View, Units, Distinct, BooksOk, Cut, SameItems, Contiguous;
      i := Find(p, id);
      var it := lists[p][i];
      HoldsAt(lists[p], i, id);
      if id.clock != it.id.clock + |it.content| - 1 {
        SplitItem(p, i, id.clock - it.id.clock + 1);
        CutOff(old(lists[p]), i, id.clock - it.id.clock + 1, i + 1);
      }
    }

    /** The item starting exactly at `id`, cut there if needed; earlier item boundaries stay. */
    method CleanStart(p: Parent, id: Id) returns (i: nat)
      requires Valid() && p in lists && Has(Units(View(lists[p])), id)
      modifies this
      ensures Valid() && SameViews(old(lists), old(clients), lists, clients)
      ensures newItems == old(newItems) && asked == old(asked)
      ensures i < |lists[p]| && Off(lists[p], i) == Pos(Units(View(lists[p])), id)
      ensures forall k :: 0 <= k <= |old(lists[p])| && Off(old(lists[p]), k) <= Off(lists[p], i) ==>
                k <= i && Off(lists[p], k) == Off(old(lists[p]), k)
    {
      hide View, Units, Distinct, BooksOk, Cut, Off, SameItems, Contiguous;
      i := Find(p, id);
      var it := lists[p][i];
      HoldsAt(lists[p], i, id);
      ghost var before := lists[p];
      if it.id.clock != id.clock {
        var offset := id.clock - it.id.clock;
        SplitItem(p, i, offset);
        forall k | 0 <= k <= |before| && Off(before, k) <= Off(before, i) + offset
          ensures k <= i && Off(lists[p], k) == Off(before, k)
        {
          CutOff(before, i, offset, k);
          if i < k { OffMonotone(before, i, k); }
        }
        CutOff(before, i, offset, i + 1);
        i := i + 1;
      } else {
        forall k | 0 <= k <= |before| && Off(before, k) <= Off(before, i)
          ensures k <= i
        {
          if i < k { OffMonotone(before, i, k); }
        }
      }
    }

    /**
      The conflict scan: `before` collects the items examined, `conflicting` those
      examined since the new item last moved right.  Both know items by their first id.
    */
    method ScanConflicts(x: Item, l: int, r: int) returns (left: int)
      requires Valid() && x.parent in lists && Bracketed(lists[x.parent], x, l, r)
      ensures left == ItemScan(lists[x.parent], x, l, r, l, l + 1)
    {
      hide View, Units, Distinct, BooksOk, Grounded, ItemOf, ItemScan, SameItems, Contiguous, L, R;
      var items := lists[x.parent];
      var o := l + 1;
      left := l;
      var before, conflicting: set<Id> := {}, {};
      while o < r
        invariant l <= left < o <= r
        invariant ItemScan(items, x, l, r, left, o) == ItemScan(items, x, l, r, l, l + 1)
        invariant forall q :: 0 <= q < |items| ==> (items[q].id in before <==> l < q < o && items[q].key == x.key)
        invariant forall q :: 0 <= q < |items| ==>
                    (items[q].id in conflicting <==> left < q < o && items[q].key == x.key)
      {
        var it := items[o];
        ItemIds(items, o);
        ItemUnfold(items, x, l, r, left, o);
        if it.key != x.key {
          o := o + 1;
          continue;
        }
        before, conflicting := before + {it.id}, conflicting + {it.id};
        if it.origin == x.origin {
          if it.id.client < x.id.client {
            left, conflicting := o, {};
          } else if it.right == x.right {
            return;
          }
        } else if it.origin.Some? {
          OriginPresent(items, o);
          var q := Find(x.parent, it.origin.value);
          OriginItem(items, o, q);
          if items[q].id in before {
            if items[q].id !in conflicting {
              left, conflicting := o, {};
            }
          } else {
            return;
          }
        } else {
          return;
        }
        o := o + 1;
      }
      ItemScanEnd(items, x, l, r, left);
    }

    /** Cuts the list so that the origins of `x` end and start an item, and finds these items. */
    method Bracket(x: Item) returns (l: int, r: int)
      requires Valid() && x.parent in lists && Placeable(Units(View(lists[x.parent])), x)
      modifies this
      ensures Valid() && SameViews(old(lists), old(clients), lists, clients)
      ensures newItems == old(newItems) && asked == old(asked)
      ensures Bracketed(lists[x.parent], x, l, r)
    {
      hide View, Units, Distinct, BooksOk, Grounded, Unknown, SameItems, Contiguous;
      var p := x.parent;
      l := -1;
      if x.origin.Some? {
        l := CleanEnd(p, x.origin.value);
      }
      r := |lists[p]|;
      ViewLength(lists[p]);
      OffMonotone(lists[p], l + 1, r);
      if x.right.Some? {
        r := CleanStart(p, x.right.value);
      }
    }

    /**
      Where a new item goes, given the items of its origins.  No scan is needed for an
      item that directly follows the holder of its key, or is the first of its key.
    */
    method Place(x: Item, l: int, r: int) returns (q: nat)
      requires Valid() && x.parent in lists && Bracketed(lists[x.parent], x, l, r)
      ensures q == ItemScan(lists[x.parent], x, l, r, l, l + 1) + 1 && q <= |lists[x.parent]|
    {
      hide View, Units, Ok, ItemScan, Grounded, L, R, Off, UnitAt, Top;
      var p := x.parent;
      var uncontested := x.key.Some? && Entry(itemMap, p, x.key.value) == if l < 0 then None else Some(lists[p][l].id);
      ScanBounds(lists[p], x, l, r);
      if uncontested {
        NoneAfterHolder(lists, clients, itemMap, p, l, x.key.value);
        UncontestedStays(lists[p], x, l, r, l + 1);
        q := l + 1;
      } else {
        var left := ScanConflicts(x, l, r);
        q := left + 1;
      }
    }

    /** The holder of a key, and whether it stands before `q`.  The walk is skipped as in `Place`. */
    method IsRightmost(p: Parent, key: string, q: nat) returns (previous: Option<Id>, rightmost: bool)
      requires Valid() && p in lists && q <= |lists[p]|
      ensures previous == IdOf(lists[p], Top(lists[p], key)) && rightmost == (Top(lists[p], key) < q)
    {
      hide View, Units, Ok, Top;
      rightmost := true;
      previous := Entry(itemMap, p, key);
      if previous.Some? && (q == 0 || previous != Some(lists[p][q - 1].id)) {
        var r := q;
        while r < |lists[p]| && lists[p][r].key != Some(key)
          invariant q <= r <= |lists[p]| && forall i :: q <= i < r ==> lists[p][i].key != Some(key)
        {
          r := r + 1;
        }
        rightmost := r == |lists[p]|;
      } else {
        NoneAfterHolder(lists, clients, itemMap, p, if previous.Some? then q - 1 else -1, key);
      }
    }

    /** Sets the flag of item `i`, in the list and in its client's slice. */
    method Mark(p: Parent, i: nat)
      requires Ok(lists, clients) && p in lists && i < |lists[p]|
      modifies this`lists, this`clients
      ensures Ok(lists, clients) && lists == old(lists)[p := Flag(old(lists[p]), i)]
      ensures forall d :: NextClock(clients, d) == NextClock(old(clients), d)
      ensures forall q :: q in lists ==> Units(View(lists[q])) == Units(View(old(lists)[q]))
    {
      hide View, Units, Distinct, Grounded, NextClock;
      var it := lists[p][i];
      assert it in lists[p];
      var c := it.id.client;
      var found, j := FindIn(clients[c], c, it.id.clock);
      HoldsItself(clients[c], it);
      FlagKeeps(lists, clients, p, i, c, j);
      lists := lists[p := lists[p][i := it.(deleted := true)]];
      clients := clients[c := clients[c][j := it.(deleted := true)]];
    }

    /** The last writer wins: deletes the new item if it is not the last of its key, the former holder otherwise. */
    method Overwrite(ghost s: seq<Item>, x: Item, q: nat, previous: Option<Id>, rightmost: bool)
      requires Ok(lists, clients) && x.parent in lists && q <= |s| && lists[x.parent] == Put(s, q, x) && x.key.Some?
      requires rightmost == (Top(s, x.key.value) < q) && previous == IdOf(s, Top(s, x.key.value))
      modifies this`lists, this`clients
      ensures Ok(lists, clients)
      ensures lists == old(lists)[x.parent := Settled(old(lists[x.parent]), Loser(s, q, x))]
      ensures forall d :: NextClock(clients, d) == NextClock(old(clients), d)
      ensures Units(View(lists[x.parent])) == Units(View(old(lists[x.parent])))
    {
      hide View, Units, Ok, Top, Put, NextClock;
      var p := x.parent;
      if !rightmost {
        PutAt(s, q, x, q);
        Mark(p, q);
      } else if previous.Some? {
        HolderPlace(lists, clients, s, q, x);
        var i := Find(p, previous.value);
        SameHolder(lists, clients, p, i, Top(s, x.key.value), previous.value);
        if !lists[p][i].deleted {
          Mark(p, i);
        } else {
          assert Flag(lists[p], i) == lists[p];
        }
      }
    }

    /**
      Puts a new item into its list, between its origins and past the items that win over
      it, and at the end of its client's slice.  `at` is where its cells go and `s` its
      list, cut at the origins.  Of the items of its key, only the last one stays.
    */
    method Integrate(x: Item)
      returns (q: nat, ghost at: nat, ghost s: seq<Item>, ghost put: Lists, ghost slices: Slices)
      requires Valid() && x.parent in lists && Placeable(Units(View(lists[x.parent])), x)
      requires x.id.clock == NextClock(clients, x.id.client)
      modifies this
      ensures Valid() && x.parent in lists
      ensures Units(View(lists[x.parent])) == IntegrateAll(Units(View(old(lists[x.parent]))), Units(Cells(x)))
      ensures Added(old(lists), old(clients), put, slices, x, at)
      ensures q <= |s| && put[x.parent] == Put(s, q, x) && View(s) == View(old(lists[x.parent]))
      ensures lists == put[x.parent := Settled(put[x.parent], Loser(s, q, x))]
      ensures Extended(old(clients), clients, x)
      ensures asked == old(asked) + if x.deleted then IdsOf(x) else {}
      ensures newItems == old(newItems) + if x.kind == Text then {x.id} else {}
    {
      hide View, Units, Cells, Ok, SameViews, Placeable, ItemScan, Bracketed, Added, IntegrateAll, BooksOk, NextClock,
        Top, Put, Loser, Settled;
      var l, r := Bracket(x);
      ghost var lists0, clients0 := lists, clients;
      Unchanged(old(lists), old(clients), lists, clients, x);
      SameViewsEnds(old(lists), old(clients), lists, clients);
      q := Place(x, l, r);
      ItemIsItsUnits(lists[x.parent], x, l, r);
      s := lists[x.parent];
      at, put, slices := PutIn(x, q);
      AddedFrom(old(lists), old(clients), lists0, clients0, put, slices, x, at);
    }

    /** Links a new item in at `q`, and settles which item holds its key. */
    method PutIn(x: Item, q: nat) returns (ghost at: nat, ghost put: Lists, ghost slices: Slices)
      requires Valid() && x.parent in lists && q <= |lists[x.parent]| && x.content != []
      requires Unknown(Units(View(lists[x.parent])), x) && x.id.clock == NextClock(clients, x.id.client)
      requires Grounded(Units(View(Put(lists[x.parent], q, x))))
      modifies this
      ensures Valid() && Added(old(lists), old(clients), put, slices, x, at)
      ensures put == old(lists)[x.parent := Put(old(lists[x.parent]), q, x)]
      ensures lists == put[x.parent := Settled(put[x.parent], Loser(old(lists[x.parent]), q, x))]
      ensures Units(View(lists[x.parent])) == Units(View(put[x.parent]))
      ensures Extended(old(clients), clients, x)
      ensures asked == old(asked) + if x.deleted then IdsOf(x) else {}
      ensures newItems == old(newItems) + if x.kind == Text then {x.id} else {}
    {
      hide View, Units, Cells, Ok, Added, Grounded, Unknown, BooksOk, NextClock, Top, Put, Off, Loser, Settled, IdOf,
        WithEntry, IdsOf, SliceOf, Extended;
      var p := x.parent;
      AddKeeps(lists, clients, x, q);
      ghost var s, b := lists[p], Records();
      at := Off(s, q);
      var previous, rightmost := None, true;
      if x.key.Some? {
        previous, rightmost := IsRightmost(p, x.key.value, q);
      }
      lists := lists[p := Put(lists[p], q, x)];
      clients := clients[x.id.client := SliceOf(clients, x.id.client) + [x]];
      put, slices := lists, clients;
      if x.kind == Text {
        newItems := newItems + {x.id};
      }
      if x.key.Some? {
        Overwrite(s, x, q, previous, rightmost);
        if rightmost {
          itemMap := WithEntry(itemMap, p, x.key.value, x.id);
        }
      } else {
        UnkeyedSettles(s, q, x);
      }
      asked := asked + if x.deleted then IdsOf(x) else {};
      assert lists == old(lists)[p := Settled(Put(s, q, x), Loser(s, q, x))];
      IntegrateBooks(old(lists), old(clients), b, q, x, slices, clients, Records(), rightmost);
      GrewBy(old(clients), slices, clients, x);
    }

    /**
      Integrates what is new of an item of which `offset` units are there already, and
      deletes it if the type it is in has been deleted.
    */
    method Arrive(x: Item, offset: nat) returns (q: nat, ghost at: nat, ghost s: seq<Item>)
      requires Valid() && x.parent in lists && offset < |x.content|
      requires Placeable(Units(View(lists[x.parent])), Rest(x, offset))
      requires Rest(x, offset).id.clock == NextClock(clients, x.id.client)
      modifies this
      ensures Valid() && lists.Keys == old(lists).Keys
      ensures Units(View(lists[x.parent])) ==
              IntegrateAll(Units(View(old(lists[x.parent]))), Units(Cells(Rest(x, offset))))
      ensures forall p :: p in lists && p != x.parent ==> View(lists[p]) == View(old(lists)[p])
      ensures Extended(old(clients), clients, Rest(x, offset))
      ensures View(s) == View(old(lists[x.parent])) && TookIn(View(s), x, offset, at, View(lists[x.parent]))
      ensures Arrived(s, q, Rest(x, offset), Dead(old(clients), x.parent), lists[x.parent])
      ensures x.key.Some? ==> (Lost(s, q, Rest(x, offset)) <==>
                               LastOf(Units(View(lists[x.parent])), x.key) != Some(IdAt(x, |x.content| - 1)))
      ensures asked == old(asked) + if x.deleted || (Dead(old(clients), x.parent) && !Lost(s, q, Rest(x, offset)))
                                    then IdsOf(Rest(x, offset)) else {}
      ensures newItems == old(newItems) + if x.kind == Text then {Rest(x, offset).id} else {}
    {
      hide View, Units, Cells, Ok, Placeable, IntegrateAll, BooksOk, NextClock, Top, Loser, Contiguous, Arrived, Lost,
        Settled, Put, Added, Flag, Dead, Unflagged, LastOf, IdsOf, Off;
      var dead := InDeleted(x.parent);
      var rest := if offset > 0 then RightHalf(x, offset) else x;
      ghost var put, slices;
      q, at, s, put, slices := Integrate(rest);
      AddedElsewhere(old(lists), old(clients), put, slices, rest, at);
      at := Off(s, q);
      ghost var t := lists[x.parent];
      TailCells(x, offset);
      InsertView(s, rest, q);
      SettledArrives(s, q, rest);
      ArrivedAt(s, q, rest, false, t);
      WinnerIsLast(lists, clients, s, q, rest);
      SettledUnflagged(put[x.parent], Loser(s, q, rest));
      if dead && !lists[x.parent][q].deleted {
        DeleteItem(x.parent, q);
        FlagUnflagged(t, q);
      }
      ArrivedDead(s, q, rest, t, dead, lists[x.parent]);
    }

    /** Whether the item that carries a nested type is deleted. */
    method InDeleted(p: Parent) returns (dead: bool)
      requires Ok(lists, clients)
      ensures dead == Dead(clients, p)
    {
      hide View, Units, Distinct, Grounded, SameItems, Contiguous;
      dead := false;
      if p.Nested? && p.container.client in clients {
        var found, i := FindIn(clients[p.container.client], p.container.client, p.container.clock);
        if found {
          dead := clients[p.container.client][i].deleted;
          OneHolds(clients[p.container.client], p.container, i);
        }
      }
    }

    /** A deletion that was asked for: all of item `i`. */
    method DeleteItem(p: Parent, i: nat)
      requires Valid() && p in lists && i < |lists[p]|
      modifies this
      ensures Valid() && lists == old(lists)[p := Flag(old(lists[p]), i)]
      ensures itemMap == old(itemMap) && newItems == old(newItems)
      ensures asked == old(asked) + IdsOf(old(lists[p])[i])
      ensures Units(View(lists[p])) == Units(View(old(lists[p])))
      ensures forall c :: NextClock(clients, c) == NextClock(old(clients), c)
    {
      hide View, Units, Ok, BooksOk, NextClock, Flag;
      Mark(p, i);
      asked := asked + IdsOf(old(lists[p])[i]);
      AskKeepsBooks(old(lists), old(clients), old(Records()), p, i, clients);
    }

    /** Deletes the value of a key. */
    method DeleteKey(p: Parent, key: string)
      requires Valid() && p in lists
      modifies this
      ensures Valid() && p in lists && Units(View(lists[p])) == Units(View(old(lists[p])))
      ensures LastOf(Units(View(lists[p])), Some(key)).Some? ==> LastOf(Units(View(lists[p])), Some(key)).value in asked
      ensures old(asked) <= asked
      ensures forall id :: id in asked - old(asked) ==>
                exists it :: it in old(lists[p]) && it.key == Some(key) && !it.deleted && Holds(it, id)
      ensures lists == old(lists)[p := lists[p]]
      ensures (lists == old(lists) && asked == old(asked))
              || exists i :: DropsKey(old(lists[p]), key, i, lists[p], old(asked), asked)
      ensures itemMap == old(itemMap) && newItems == old(newItems)
    {
      hide View, Units, Ok, BooksOk, NextClock, Flag, LastOf;
      var entry := Entry(itemMap, p, key);
      HolderIs(lists, clients, Records(), p, key);
      if entry.Some? {
        var i := Find(p, entry.value);
        SameHolder(lists, clients, p, i, Top(lists[p], key), entry.value);
        HolderAsked(lists, clients, Records(), p, i);
        if !lists[p][i].deleted {
          DeleteItem(p, i);
          assert DropsKey(old(lists[p]), key, i, lists[p], old(asked), asked);
        }
      }
    }

    /** The value of a key: that of its last unit, unless its deletion was asked for. */
    method Get(p: Parent, key: string) returns (value: Option<Value>)
      requires Valid() && p in lists
      ensures var units := Units(View(lists[p]));
              var last := LastOf(units, Some(key));
              && (value.Some? <==> last.Some? && last.value !in asked)
              && (value.Some? ==> Has(units, last.value) && value == Some(View(lists[p])[Pos(units, last.value)].value))
    {
      hide View, Units, Ok, BooksOk, NextClock, LastOf;
      value := None;
      var entry := Entry(itemMap, p, key);
      HolderIs(lists, clients, Records(), p, key);
      if entry.Some? {
        var i := Find(p, entry.value);
        SameHolder(lists, clients, p, i, Top(lists[p], key), entry.value);
        HolderAsked(lists, clients, Records(), p, i);
        var it := lists[p][i];
        if !it.deleted {
          value := Some(it.content[|it.content| - 1]);
        }
      }
    }

    /** Absorbs item `i` of a list into its left neighbour when the two form one run. */
    method TryMergeWithLeft(p: Parent, i: nat) returns (merged: bool, ghost j: nat)
      requires Valid() && p in lists && i < |lists[p]|
      modifies this
      ensures Valid() && SameViews(old(lists), old(clients), lists, clients)
      ensures merged == (0 < i && Mergeable(old(lists[p])[i - 1], old(lists[p])[i]))
      ensures lists == if merged then old(lists)[p := Join(old(lists[p]), i)] else old(lists)
      ensures Records() == if merged then JoinBooks(old(Records()), old(lists[p])[i - 1], old(lists[p])[i])
                           else old(Records())
      ensures !merged ==> clients == old(clients)
      ensures merged ==> var c := old(lists[p])[i].id.client;
                         && c in old(clients) && 0 < j < |old(clients)[c]| && old(clients)[c][j] == old(lists[p])[i]
                         && clients == old(clients)[c := Join(old(clients)[c], j)]
    {
      hide View, Units, Distinct, Grounded, SameItems, Contiguous, BooksOk, NextClock;
      merged, j := 0 < i && Mergeable(lists[p][i - 1], lists[p][i]), 0;
      if merged {
        var left, it := lists[p][i - 1], lists[p][i];
        var c := it.id.client;
        ItemInSlice(lists, clients, p, i);
        OneParent(lists, clients, p, i);
        var slice := clients[c];
        var k := IndexIn(slice, it);
        j := k;
        JoinKeeps(lists, clients, p, i, c, k);
        lists := lists[p := Join(lists[p], i)];
        clients := clients[c := slice[..k - 1] + [Merged(left, it)] + slice[k + 1..]];
        if it.key.Some? && Entry(itemMap, p, it.key.value) == Some(it.id) {
          itemMap := WithEntry(itemMap, p, it.key.value, left.id);
        }
        newItems := newItems - {it.id};
        SameEndsAll(old(clients), clients);
        JoinKeepsBooks(old(lists), old(clients), old(Records()), p, i, clients);
      }
    }

    /** The end of a transaction: merges the runs of new live text of a client. */
    method SquashRuns(c: nat)
      requires Valid() && c in clients
      modifies this
      ensures Valid() && SameViews(old(lists), old(clients), lists, clients)
      ensures NoneLeft(lists, c, Squash(old(newItems)), NextClock(clients, c))
      ensures Kept(old(clients)[c], clients[c], Squash(old(newItems)))
      ensures forall p, i :: p in lists && 0 < i < |lists[p]| && lists[p][i].id.client == c ==>
                !(&& Follows(lists[p][i - 1], lists[p][i])
                  && NewText(lists[p][i - 1], old(newItems)) && NewText(lists[p][i], old(newItems)))
      ensures forall it :: it in old(clients)[c] && (!NewText(it, old(newItems)) || it.key.Some?) ==> it in clients[c]
      ensures itemMap == old(itemMap) && asked == old(asked)
      ensures forall d :: d in clients && d != c ==> d in old(clients) && clients[d] == old(clients)[d]
    {
      hide Ok, BooksOk, SameViews, NoneLeft, Kept, NextClock, Follows, NewText, Spared;
      SquashOk(lists, clients, Records());
      MergeRuns(c, Squash(newItems));
      forall p, i | p in lists && 0 < i < |lists[p]| && Follows(lists[p][i - 1], lists[p][i])
                    && NewText(lists[p][i - 1], old(newItems)) && NewText(lists[p][i], old(newItems))
        ensures lists[p][i].id.client != c
      {
        NoTextLeft(lists, clients, Records(), p, i, c, old(newItems));
      }
      TextKept(old(clients)[c], clients[c], old(newItems));
    }

    /** Garbage collection: merges the runs of tombstones of a client, and never the item that holds a key. */
    method CollectRuns(c: nat)
      requires Valid() && c in clients
      modifies this
      ensures Valid() && SameViews(old(lists), old(clients), lists, clients)
      ensures NoneLeft(lists, c, Collect(itemMap), NextClock(clients, c))
      ensures Kept(old(clients)[c], clients[c], Collect(itemMap))
      ensures forall p, i :: p in lists && 0 < i < |lists[p]| && lists[p][i].id.client == c ==>
                !(&& Follows(lists[p][i - 1], lists[p][i]) && Buried(lists[p][i - 1]) && Buried(lists[p][i])
                  && lists[p][i - 1].key == lists[p][i].key && !IsEntry(itemMap, lists[p][i]))
      ensures forall it :: it in old(clients)[c] && !Buried(it) ==> it in clients[c]
      ensures itemMap == old(itemMap) && asked == old(asked)
      ensures forall d :: d in clients && d != c ==> d in old(clients) && clients[d] == old(clients)[d]
    {
      hide Ok, BooksOk, SameViews, NoneLeft, Kept, NextClock, Follows, Buried, Spared, IsEntry;
      MergeRuns(c, Collect(itemMap));
      forall p, i | p in lists && 0 < i < |lists[p]| && Follows(lists[p][i - 1], lists[p][i])
                    && Buried(lists[p][i - 1]) && Buried(lists[p][i]) && lists[p][i - 1].key == lists[p][i].key
                    && !IsEntry(itemMap, lists[p][i])
        ensures lists[p][i].id.client != c
      {
        NoTombLeft(lists, clients, Records(), p, i, c);
      }
      TombKept(old(clients)[c], clients[c], itemMap);
    }

    /**
      Merges runs over a client's slice: new live text at the end of a transaction,
      tombstones during garbage collection.  No run is left in parts, nothing else is
      touched, and every key is held by the item that held it.
    */
    method MergeRuns(c: nat, rule: Rule)
      requires Valid() && c in clients && RuleOk(rule, Records())
      modifies this
      ensures Valid() && SameViews(old(lists), old(clients), lists, clients)
      ensures NoneLeft(lists, c, rule, NextClock(clients, c))
      ensures c in clients && Kept(old(clients)[c], clients[c], rule) && RuleOk(rule, Records())
      ensures itemMap == old(itemMap) && asked == old(asked)
      ensures forall d :: d in clients && d != c ==> d in old(clients) && clients[d] == old(clients)[d]
    {
      hide View, Units, Distinct, Ok, Join, NoneLeft, Kept, Off, Upto, NextClock, SameViews, BooksOk;
      var j := 1;
      SameViewsRefl(lists, clients);
      KeptRefl(clients[c], rule);
      NoneLeftStart(lists, clients, c, rule);
      while j < |clients[c]|
        invariant Valid() && c in clients && 1 <= j && RuleOk(rule, Records())
        invariant SameViews(old(lists), old(clients), lists, clients)
        invariant NoneLeft(lists, c, rule, Upto(clients[c], j))
        invariant Kept(old(clients)[c], clients[c], rule)
        invariant itemMap == old(itemMap) && asked == old(asked)
        invariant forall d :: d in clients && d != c ==> d in old(clients) && clients[d] == old(clients)[d]
        decreases |clients[c]| - j
      {
        ghost var lists0, clients0 := lists, clients;
        var merged := MergeAt(c, rule, j);
        SameViewsTrans(old(lists), old(clients), lists0, clients0, lists, clients);
        KeptTrans(old(clients)[c], clients0[c], clients[c], rule);
        if !merged { j := j + 1; }
      }
      UptoEnd(clients, c, j);
    }

    /** One step of the merge: item `j` of the slice is absorbed or stays. */
    method MergeAt(c: nat, rule: Rule, j: nat) returns (merged: bool)
      requires Valid() && c in clients && 1 <= j < |clients[c]| && RuleOk(rule, Records())
      requires NoneLeft(lists, c, rule, Upto(clients[c], j))
      modifies this
      ensures Valid() && SameViews(old(lists), old(clients), lists, clients) && c in clients
      ensures RuleOk(rule, Records()) && itemMap == old(itemMap) && asked == old(asked)
      ensures NoneLeft(lists, c, rule, Upto(clients[c], if merged then j else j + 1))
      ensures Kept(old(clients)[c], clients[c], rule)
      ensures |clients[c]| == |old(clients)[c]| - (if merged then 1 else 0)
      ensures forall d :: d in clients && d != c ==> d in old(clients) && clients[d] == old(clients)[d]
    {
      hide View, Units, Distinct, Grounded, SameItems, Contiguous, Join, NoneLeft, Kept, Off, Upto, SameViews, BooksOk,
        NextClock, Follows, Allows, Mergeable;
      var it := clients[c][j];
      SliceItemInList(lists, clients, c, j);
      var i := IndexIn(lists[it.parent], it);
      merged := false;
      ghost var lists0, clients0, k := lists, clients, j;
      SameViewsRefl(lists, clients);
      KeptRefl(clients[c], rule);
      FollowsIsContinues(lists, clients, Records(), it.parent, i, rule);
      if i > 0 && Follows(lists[it.parent][i - 1], it) && Allows(rule, lists[it.parent][i - 1], it) {
        merged, k := TryMergeWithLeft(it.parent, i);
      }
      if merged {
        SameSlot(clients0[c], c, j, k);
        NoneLeftJoin(lists0, clients0, it.parent, i, c, j, rule);
        KeptJoin(clients0[c], j, rule);
      } else {
        NoneLeftNext(lists, clients, i, c, j, rule);
      }
    }
  }

  lemma OpenKeeps(lists: Lists, clients: Slices, b: Books, p: Parent)
    requires Ok(lists, clients) && BooksOk(lists, clients, b) && p !in lists
    ensures Ok(lists[p := []], clients)
    ensures BooksOk(lists[p := []], clients, b.(table := b.table[p := map[]]))
  {
    hide Ok, NextClock, Sound, Top;
    var lists': Lists, b' := lists[p := []], b.(table := b.table[p := map[]]);
    OpenAgrees(lists, clients, p);
    forall q, it | q in lists' && it in lists'[q]
      ensures Sound(it, b')
    {
      InOwnList(lists, clients, q, it);
      SoundStill(it, b, b');
    }
    forall q, k | q in lists'
      ensures Entry(b'.table, q, k) == IdOf(lists'[q], Top(lists'[q], k))
    {
      if q != p { assert Entry(b'.table, q, k) == Entry(b.table, q, k); }
    }
  }

  lemma OpenAgrees(lists: Lists, clients: Slices, p: Parent)
    requires Ok(lists, clients) && p !in lists
    ensures Ok(lists[p := []], clients)
  {
    hide Contiguous;
  }

  lemma SliceOk(lists: Lists, clients: Slices, c: nat)
    requires Ok(lists, clients) && c in clients
    ensures Contiguous(clients[c], c) && NoneEmpty(clients[c])
  {
  }

  lemma CutRecords(b: Books, it: Item, offset: nat, b': Books)
    requires b' == Books(if it.key.Some? && Entry(b.table, it.parent, it.key.value) == Some(it.id)
                         then WithEntry(b.table, it.parent, it.key.value, IdAt(it, offset)) else b.table,
                         b.recent, b.cuts + {IdAt(it, offset)}, b.asked)
    ensures b' == CutBooks(b, it, offset)
  {
  }

  /** What is new of an item whose first `offset` units are there. */
  function Rest(x: Item, offset: nat): Item
    requires offset < |x.content|
  {
    if offset > 0 then RightHalf(x, offset) else x
  }

  function Unflagged(cells: seq<Cell>): (r: seq<Cell>)
    ensures |r| == |cells|
  {
    seq(|cells|, n requires 0 <= n < |cells| => cells[n].(deleted := false))
  }

  /** The cells of an item from `offset` on are new at `at`; flags aside, the others are as they were. */
  predicate TookIn(v: seq<Cell>, x: Item, offset: nat, at: nat, v': seq<Cell>) {
    at <= |v| && offset <= |x.content| && Unflagged(v') == Unflagged(v[..at] + Cells(x)[offset..] + v[at..])
  }

  /** A new item at `q` does not get its key: an item of the key follows. */
  predicate Lost(s: seq<Item>, q: nat, x: Item) {
    x.key.Some? && exists i :: q <= i < |s| && s[i].key == x.key
  }

  /** Item `i` had the key that the new item at `q` gets. */
  predicate Beaten(s: seq<Item>, q: nat, x: Item, i: nat)
    requires i < |s|
  {
    x.key.Some? && s[i].key == x.key && i < q && forall j :: i < j < |s| ==> s[j].key != x.key
  }

  /**
    The list with a new item at `q`.  The item is deleted if it came deleted, is in a deleted
    type or does not get its key; of the others only the one that loses the key to it is.
  */
  ghost predicate Arrived(s: seq<Item>, q: nat, x: Item, dead: bool, t: seq<Item>) {
    && q <= |s| && |t| == |s| + 1
    && t[q] == x.(deleted := x.deleted || dead || Lost(s, q, x))
    && forall i: nat {:trigger s[i]} :: i < |s| ==>
         t[if i < q then i else i + 1] == s[i].(deleted := s[i].deleted || Beaten(s, q, x, i))
  }

  lemma SettledArrives(s: seq<Item>, q: nat, x: Item)
    requires q <= |s|
    ensures Arrived(s, q, x, false, Settled(Put(s, q, x), Loser(s, q, x)))
  {
    hide Top;
  }

  lemma ArrivedAt(s: seq<Item>, q: nat, x: Item, dead: bool, t: seq<Item>)
    requires Arrived(s, q, x, dead, t)
    ensures q < |t| && t[q] == x.(deleted := x.deleted || dead || Lost(s, q, x))
  {
  }

  lemma ArrivedDead(s: seq<Item>, q: nat, x: Item, t: seq<Item>, dead: bool, t': seq<Item>)
    requires Arrived(s, q, x, false, t)
    requires q < |t| && t' == if dead && !t[q].deleted then Flag(t, q) else t
    ensures Arrived(s, q, x, dead, t')
  {
    hide Lost, Beaten;
  }

  /** A new item does not get its key exactly if the last unit of the key is not its own. */
  lemma WinnerIsLast(lists: Lists, clients: Slices, s: seq<Item>, q: nat, x: Item)
    requires Ok(lists, clients) && x.parent in lists && Arrived(s, q, x, false, lists[x.parent])
    requires x.content != []
    ensures x.key.Some? ==> (Lost(s, q, x) <==> LastOf(Units(View(lists[x.parent])), x.key) != Some(LastId(x)))
  {
    hide View, Units, Distinct, Grounded, SameItems, Contiguous, LastOf, Top, Beaten;
    if x.key.None? { return; }
    var t, k := lists[x.parent], x.key.value;
    TopIsLast(t, k);
    var w := Top(t, k);
    assert t[q] in t && t[w] in t;
    if w > q {
      assert s[w - 1].key == x.key;
      ListItemsDistinct(t, q);
      if LastId(t[w]) == LastId(x) {
        InOwnList(lists, clients, x.parent, t[w]);
        InOwnList(lists, clients, x.parent, t[q]);
        Apart(lists, clients, t[w], t[q], LastId(x));
      }
    } else {
      assert forall i :: q <= i < |s| ==> t[i + 1].key == s[i].key;
    }
  }

  /** What is new of an item are its last units, as they are. */
  lemma TailCells(x: Item, offset: nat)
    requires offset < |x.content|
    ensures Cells(Rest(x, offset)) == Cells(x)[offset..]
    ensures Rest(x, offset).content != [] && LastId(Rest(x, offset)) == IdAt(x, |x.content| - 1)
  {
  }

  lemma FlagUnflagged(t: seq<Item>, i: nat)
    requires i < |t|
    ensures Unflagged(View(Flag(t, i))) == Unflagged(View(t))
  {
    hide View, Cells, Unflagged, Flag;
    var it, a, b := t[i], t[..i], t[i + 1..];
    var it' := it.(deleted := true);
    FlagParts(t, i);
    AroundOne(a, it, b);
    AroundOne(a, it', b);
    SameUnflagged(View(a), it, View(b));
  }

  lemma FlagParts(t: seq<Item>, i: nat)
    requires i < |t|
    ensures t == t[..i] + [t[i]] + t[i + 1..] && Flag(t, i) == t[..i] + [t[i].(deleted := true)] + t[i + 1..]
  {
  }

  lemma AroundOne(a: seq<Item>, it: Item, b: seq<Item>)
    ensures View(a + [it] + b) == View(a) + Cells(it) + View(b)
  {
    hide View, Cells;
    ViewConcat(a + [it], b);
    ViewConcat(a, [it]);
    ViewOne(it);
  }

  lemma SameUnflagged(x: seq<Cell>, it: Item, y: seq<Cell>)
    ensures Unflagged(x + Cells(it.(deleted := true)) + y) == Unflagged(x + Cells(it) + y)
  {
    assert |Cells(it.(deleted := true))| == |Cells(it)|;
    assert forall n :: 0 <= n < |Cells(it)| ==> Cells(it.(deleted := true))[n] == Cells(it)[n].(deleted := true);
  }

  lemma SettledUnflagged(t: seq<Item>, loser: int)
    requires loser < |t|
    ensures Unflagged(View(Settled(t, loser))) == Unflagged(View(t))
  {
    hide View, Unflagged, Flag;
    if loser >= 0 { FlagUnflagged(t, loser); }
  }

  /** The clocks grew by the units of `x`. */
  ghost predicate Extended(clients: Slices, clients': Slices, x: Item) {
    forall c :: NextClock(clients', c) == NextClock(clients, c) + if c == x.id.client then |x.content| else 0
  }

  lemma GrewBy(clients: Slices, slices: Slices, clients': Slices, x: Item)
    requires slices == clients[x.id.client := SliceOf(clients, x.id.client) + [x]]
    requires forall c :: NextClock(clients', c) == NextClock(slices, c)
    ensures Extended(clients, clients', x)
  {
    AddEnds(clients, x);
  }

  /** The item that carries a nested type is deleted. */
  ghost predicate Dead(clients: Slices, p: Parent) {
    && p.Nested? && p.container.client in clients
    && exists it :: it in clients[p.container.client] && Holds(it, p.container) && it.deleted
  }

  lemma OneHolds(slice: seq<Item>, id: Id, i: nat)
    requires Contiguous(slice, id.client) && i < |slice| && Holds(slice[i], id)
    ensures forall it :: it in slice && Holds(it, id) ==> it == slice[i]
  {
    forall it | it in slice && Holds(it, id)
      ensures it == slice[i]
    {
      var j :| 0 <= j < |slice| && slice[j] == it;
      if j != i { SliceDistinct(slice, id.client, i, j); }
    }
  }

  lemma AddedElsewhere(lists: Lists, clients: Slices, lists': Lists, clients': Slices, x: Item, at: nat)
    requires Added(lists, clients, lists', clients', x, at)
    ensures lists'.Keys == lists.Keys && forall p :: p in lists && p != x.parent ==> View(lists'[p]) == View(lists[p])
  {
  }

  lemma SameViewsEnds(lists: Lists, clients: Slices, lists': Lists, clients': Slices)
    requires SameViews(lists, clients, lists', clients')
    ensures forall c :: NextClock(clients', c) == NextClock(clients, c)
  {
    SameEndsAll(clients, clients');
  }

  lemma SameEndsAll(clients: Slices, clients': Slices)
    requires clients.Keys == clients'.Keys
    requires forall d :: d in clients ==> View(clients[d]) == View(clients'[d])
    ensures forall c :: NextClock(clients', c) == NextClock(clients, c)
  {
    hide View, NextClock;
    forall c: nat ensures NextClock(clients', c) == NextClock(clients, c) { SameEnds(clients, clients', c); }
  }

  lemma {:induction false} UncontestedStays(items: seq<Item>, x: Item, l: int, r: int, o: int)
    requires -1 <= l < o <= r <= |items| && forall i :: l < i < |items| ==> items[i].key != x.key
    ensures ItemScan(items, x, l, r, l, o) == l
    decreases r - o
  {
    hide ItemScan;
    if o < r {
      ItemUnfold(items, x, l, r, l, o);
      UncontestedStays(items, x, l, r, o + 1);
    } else {
      ItemScanEnd(items, x, l, r, l);
    }
  }

  /** Nothing of a key comes after its holder. */
  lemma NoneAfterHolder(lists: Lists, clients: Slices, table: Table, p: Parent, l: int, k: string)
    requires Ok(lists, clients) && TableOk(lists, table) && p in lists && -1 <= l < |lists[p]|
    requires Entry(table, p, k) == if l < 0 then None else Some(lists[p][l].id)
    ensures Top(lists[p], k) == l
  {
    hide Ok, Top;
    assert Entry(table, p, k) == IdOf(lists[p], Top(lists[p], k));
    if l >= 0 { SameHolder(lists, clients, p, l, Top(lists[p], k), lists[p][l].id); }
  }

  /** An id is held once in a list. */
  lemma SameHolder(lists: Lists, clients: Slices, p: Parent, i: int, j: int, id: Id)
    requires Ok(lists, clients) && p in lists && 0 <= i < |lists[p]| && 0 <= j < |lists[p]|
    requires (Holds(lists[p][i], id) || lists[p][i].id == id) && lists[p][j].id == id
    ensures i == j
  {
    hide View, Units, Distinct, Grounded, SameItems, Contiguous;
    InOwnList(lists, clients, p, lists[p][i]);
    InOwnList(lists, clients, p, lists[p][j]);
    Apart(lists, clients, lists[p][i], lists[p][j], id);
    if i != j { ListItemsDistinct(lists[p], i); }
  }

  /** The first clock of item `j` of a slice, or the end. */
  ghost function Upto(slice: seq<Item>, j: nat): nat {
    Off(slice, if j <= |slice| then j else |slice|)
  }

  lemma UptoEnd(clients: Slices, c: nat, j: nat)
    requires c in clients && j >= |clients[c]|
    ensures Upto(clients[c], j) == NextClock(clients, c)
  {
  }

  lemma SameSlot(s: seq<Item>, c: nat, j: nat, k: nat)
    requires Contiguous(s, c) && j < |s| && k < |s| && s[j] == s[k]
    ensures j == k
  {
    if j != k { SliceDistinct(s, c, j, k); }
  }

  lemma KeptRefl(s: seq<Item>, rule: Rule)
    ensures Kept(s, s, rule)
  {
  }

  lemma KeptTrans(s: seq<Item>, t: seq<Item>, u: seq<Item>, rule: Rule)
    requires Kept(s, t, rule) && Kept(t, u, rule)
    ensures Kept(s, u, rule)
  {
    forall it | it in s && rule.Collect? && IsEntry(rule.table, it)
      ensures Stands(u, it)
    {
      var k :| 0 <= k < |t| && t[k].id == it.id && t[k].key == it.key && t[k].parent == it.parent;
      assert t[k] in t && Stands(u, t[k]);
    }
  }

  lemma KeptJoin(s: seq<Item>, j: nat, rule: Rule)
    requires Continues(s, j, rule) && (rule.Squash? ==> s[j].key.None?)
    ensures Kept(s, Join(s, j), rule)
  {
    var t := Join(s, j);
    forall it | it in s && Spared(rule, it)
      ensures it in t
    {
      var k :| 0 <= k < |s| && s[k] == it;
      assert t[if k < j then k else k - 1] == it;
    }
    forall it | it in s && rule.Collect? && IsEntry(rule.table, it)
      ensures Stands(t, it)
    {
      var k :| 0 <= k < |s| && s[k] == it;
      assert t[if k < j then k else k - 1].id == it.id;
    }
  }

  lemma SliceBelow(s: seq<Item>, c: nat, m: nat, j: nat)
    requires Contiguous(s, c) && m < |s| && j < |s| && s[m].id.clock < Off(s, j + 1)
    ensures m == j || s[m].id.clock < Off(s, j)
  {
    assert Seated(s, c, m);
    if m < j {
      SliceGap(s, c, m, j);
      assert Seated(s, c, j) && s[m].content != [];
    } else if m > j {
      OffMonotone(s, j + 1, m);
    }
  }

  /** An item of client `c` with a clock below `Upto(slice, j + 1)` is item `j` of the slice or lies below it. */
  lemma BelowNext(lists: Lists, clients: Slices, p: Parent, k: nat, c: nat, j: nat)
    requires Ok(lists, clients) && p in lists && k < |lists[p]| && c in clients && j < |clients[c]|
    requires lists[p][k].id.client == c && lists[p][k].id.clock < Upto(clients[c], j + 1)
    ensures lists[p][k] == clients[c][j] || lists[p][k].id.clock < Upto(clients[c], j)
  {
    hide View, Units, Distinct, SameItems, Contiguous, Off;
    var y := lists[p][k];
    ItemInSlice(lists, clients, p, k);
    var m: nat :| m < |clients[c]| && clients[c][m] == y;
    SliceBelow(clients[c], c, m, j);
  }

  lemma NoneLeftStart(lists: Lists, clients: Slices, c: nat, rule: Rule)
    requires Ok(lists, clients) && c in clients
    ensures NoneLeft(lists, c, rule, Upto(clients[c], 1))
  {
    hide View, Units, Distinct, SameItems;
    forall p, i | p in lists
        && 0 <= i < |lists[p]| && lists[p][i].id.client == c && lists[p][i].id.clock < Upto(clients[c], 1)
      ensures !Continues(lists[p], i, rule)
    {
      if clients[c] != [] {
        BelowNext(lists, clients, p, i, c, 0);
        assert Seated(clients[c], c, 0);
      }
    }
  }

  /** An item that may not be absorbed has been dealt with. */
  lemma NoneLeftNext(lists: Lists, clients: Slices, i: nat, c: nat, j: nat, rule: Rule)
    requires Ok(lists, clients) && c in clients && j < |clients[c]|
    requires var p := clients[c][j].parent;
             p in lists && i < |lists[p]| && lists[p][i] == clients[c][j] && !Continues(lists[p], i, rule)
    requires NoneLeft(lists, c, rule, Upto(clients[c], j))
    ensures NoneLeft(lists, c, rule, Upto(clients[c], j + 1))
  {
    hide View, Units, Distinct, Off, Upto, Continues;
    var it := clients[c][j];
    forall p, k | p in lists
        && 0 <= k < |lists[p]| && lists[p][k].id.client == c && lists[p][k].id.clock < Upto(clients[c], j + 1)
      ensures !Continues(lists[p], k, rule)
    {
      BelowNext(lists, clients, p, k, c, j);
      if lists[p][k] == it {
        assert it in lists[p];
        ListItemsDistinct(lists[p], i);
      }
    }
  }

  /** Absorbing an item leaves nothing to absorb below the next one. */
  lemma NoneLeftJoin(lists: Lists, clients: Slices, p: Parent, i: nat, c: nat, j: nat, rule: Rule)
    requires Ok(lists, clients) && c in clients && 0 < j < |clients[c]| && p in lists && 0 < i < |lists[p]|
    requires lists[p][i] == clients[c][j] && Continues(lists[p], i, rule)
    requires NoneLeft(lists, c, rule, Upto(clients[c], j))
    ensures Continues(clients[c], j, rule)
    ensures NoneLeft(lists[p := Join(lists[p], i)], c, rule, Upto(Join(clients[c], j), j))
  {
    hide View, Units, Distinct, Off, SameItems, Contiguous;
    var lists': Lists, slice := lists[p := Join(lists[p], i)], clients[c];
    SliceItemInList(lists, clients, c, j);
    JoinKeeps(lists, clients, p, i, c, j);
    JoinOff(slice, j, j);
    forall q, k | q in lists'
        && 0 <= k < |lists'[q]| && lists'[q][k].id.client == c && lists'[q][k].id.clock < Upto(slice, j + 1)
      ensures !Continues(lists'[q], k, rule)
    {
      if q != p {
        BelowNext(lists, clients, q, k, c, j);
        assert lists[q][k] != clients[c][j] by { OneParent(lists, clients, q, k); OneParent(lists, clients, p, i); }
        assert !Continues(lists[q], k, rule);
      } else {
        NoneLeftInJoin(lists, clients, p, i, c, j, rule, k);
      }
    }
  }

  lemma OneParent(lists: Lists, clients: Slices, p: Parent, i: nat)
    requires Ok(lists, clients) && p in lists && i < |lists[p]|
    ensures lists[p][i].parent == p
  {
    assert lists[p][i] in lists[p];
  }

  lemma StartOf(slice: seq<Item>, c: nat, j: nat)
    requires Contiguous(slice, c) && j < |slice|
    ensures slice[j].id.clock == Upto(slice, j) && Upto(slice, j + 1) == Upto(slice, j) + |slice[j].content|
    ensures j > 0 ==> slice[j - 1].id.clock < Upto(slice, j)
  {
    assert Seated(slice, c, j);
    if j > 0 { assert Seated(slice, c, j - 1); }
  }

  lemma NoneLeftInJoin(lists: Lists, clients: Slices, p: Parent, i: nat, c: nat, j: nat, rule: Rule, k: nat)
    requires Ok(lists, clients) && c in clients && 0 < j < |clients[c]| && p in lists && 0 < i < |lists[p]|
    requires lists[p][i] == clients[c][j] && lists[p][i - 1] == clients[c][j - 1] && Continues(lists[p], i, rule)
    requires NoneLeft(lists, c, rule, Upto(clients[c], j))
    requires var t := Join(lists[p], i); k < |t| && t[k].id.client == c && t[k].id.clock < Upto(clients[c], j + 1)
    ensures !Continues(Join(lists[p], i), k, rule)
  {
    hide View, Units, Distinct, Off, SameItems, Upto, Contiguous;
    var s, t := lists[p], Join(lists[p], i);
    StartOf(clients[c], c, j);
    if k == i - 1 {
      assert !Continues(s, i - 1, rule);
    } else if k != i {
      var m := if k < i then k else k + 1;
      assert t[k] == s[m] && (k > 0 ==> t[k - 1] == s[m - 1]);
      BelowNext(lists, clients, p, m, c, j);
      ListItemsDistinct(s, i);
      assert !Continues(s, m, rule);
    }
  }

  /** Which runs are merged: text items of this transaction, or tombstones that hold no key. */
  datatype Rule = Squash(recent: set<Id>) | Collect(table: Table)

  ghost predicate RuleOk(rule: Rule, b: Books) {
    match rule
    case Squash(recent) => recent !! b.cuts
    case Collect(table) => table == b.table
  }

  predicate Allows(rule: Rule, left: Item, it: Item) {
    match rule
    case Squash(recent) =>
      left.kind == Text && it.kind == Text && !left.deleted && !it.deleted && left.id in recent && it.id in recent
    case Collect(table) =>
      left.kind == Tombstone
      && it.kind == Tombstone && left.deleted && it.deleted && left.key == it.key && !IsEntry(table, it)
  }

  /** `it` was typed directly after `left`, toward the same right neighbour. */
  predicate Follows(left: Item, it: Item) {
    && left.content != [] && left.id.client == it.id.client && left.id.clock + |left.content| == it.id.clock
    && it.origin == Some(Id(left.id.client, left.id.clock + |left.content| - 1)) && left.right == it.right
  }

  /** Item `i` of a list continues the item before it and may be absorbed. */
  predicate Continues(s: seq<Item>, i: int, rule: Rule) {
    0 < i < |s| && Mergeable(s[i - 1], s[i]) && Allows(rule, s[i - 1], s[i])
  }

  /** The item after an item it was typed after has the same key. */
  lemma SameKey(lists: Lists, clients: Slices, p: Parent, i: nat)
    requires Ok(lists, clients) && p in lists && 0 < i < |lists[p]| && Follows(lists[p][i - 1], lists[p][i])
    ensures lists[p][i - 1].key == lists[p][i].key
  {
    hide SameItems, Contiguous, View, Units, Grounded, Distinct;
    OriginItem(lists[p], i, i - 1);
  }

  /** Text typed after text of the same transaction has no key: its predecessor would have been overwritten. */
  lemma SquashedIsUnkeyed(lists: Lists, clients: Slices, b: Books, p: Parent, i: nat, rule: Rule)
    requires Ok(lists, clients) && BooksOk(lists, clients, b) && RuleOk(rule, b) && rule.Squash?
    requires p in lists && 0 < i < |lists[p]| && Follows(lists[p][i - 1], lists[p][i])
    requires Allows(rule, lists[p][i - 1], lists[p][i])
    ensures lists[p][i - 1].key.None? && lists[p][i].key.None?
  {
    hide Ok, Top, NextClock;
    var left, it := lists[p][i - 1], lists[p][i];
    SameKey(lists, clients, p, i);
    assert left in lists[p] && Sound(left, b);
    if it.key.Some? { EntryIsTop(lists, clients, b.table, p, i - 1); }
  }

  /** The tests made before a merge, which do not look at everything `Mergeable` asks, are enough. */
  lemma FollowsIsContinues(lists: Lists, clients: Slices, b: Books, p: Parent, i: nat, rule: Rule)
    requires Ok(lists, clients) && BooksOk(lists, clients, b) && RuleOk(rule, b) && p in lists && i < |lists[p]|
    ensures i > 0 && Follows(lists[p][i - 1], lists[p][i]) && Allows(rule, lists[p][i - 1], lists[p][i])
            <==> Continues(lists[p], i, rule)
    ensures Continues(lists[p], i, rule) ==> !IsEntry(b.table, lists[p][i])
    ensures Continues(lists[p], i, rule) && rule.Squash? ==> lists[p][i].key.None?
  {
    hide Ok, BooksOk;
    if i > 0 && Follows(lists[p][i - 1], lists[p][i]) && Allows(rule, lists[p][i - 1], lists[p][i]) {
      OneParent(lists, clients, p, i);
      OneParent(lists, clients, p, i - 1);
      if rule.Squash? { SquashedIsUnkeyed(lists, clients, b, p, i, rule); }
    }
  }

  /** No item of client `c` below a clock could still be absorbed. */
  ghost predicate NoneLeft(lists: Lists, c: nat, rule: Rule, bound: nat) {
    forall p, i {:trigger Continues(lists[p], i, rule)} ::
      p in lists && 0 <= i < |lists[p]| && lists[p][i].id.client == c && lists[p][i].id.clock < bound ==>
        !Continues(lists[p], i, rule)
  }

  /** Live text of this transaction. */
  predicate NewText(it: Item, recent: set<Id>) {
    it.kind == Text && !it.deleted && it.id in recent
  }

  /** Deleted content that has been forgotten. */
  predicate Buried(it: Item) {
    it.kind == Tombstone && it.deleted
  }

  lemma SquashOk(lists: Lists, clients: Slices, b: Books)
    requires BooksOk(lists, clients, b)
    ensures RuleOk(Squash(b.recent), b)
  {
  }

  /** No text of the transaction that was typed after text of the transaction is left on its own. */
  lemma NoTextLeft(lists: Lists, clients: Slices, b: Books, p: Parent, i: nat, c: nat, recent: set<Id>)
    requires Ok(lists, clients) && BooksOk(lists, clients, b) && RuleOk(Squash(recent), b)
    requires NoneLeft(lists, c, Squash(recent), NextClock(clients, c))
    requires p in lists && 0 < i < |lists[p]| && Follows(lists[p][i - 1], lists[p][i])
    requires NewText(lists[p][i - 1], recent) && NewText(lists[p][i], recent)
    ensures lists[p][i].id.client != c
  {
    hide Ok, BooksOk, NextClock, Continues, Follows;
    FollowsIsContinues(lists, clients, b, p, i, Squash(recent));
    InListBelow(lists, clients, p, i);
  }

  lemma NoTombLeft(lists: Lists, clients: Slices, b: Books, p: Parent, i: nat, c: nat)
    requires Ok(lists, clients) && BooksOk(lists, clients, b)
    requires NoneLeft(lists, c, Collect(b.table), NextClock(clients, c))
    requires p in lists && 0 < i < |lists[p]| && Follows(lists[p][i - 1], lists[p][i])
    requires Buried(lists[p][i - 1]) && Buried(lists[p][i]) && lists[p][i - 1].key == lists[p][i].key
    requires !IsEntry(b.table, lists[p][i])
    ensures lists[p][i].id.client != c
  {
    hide Ok, BooksOk, NextClock, Continues, Follows, IsEntry;
    FollowsIsContinues(lists, clients, b, p, i, Collect(b.table));
    InListBelow(lists, clients, p, i);
  }

  lemma InListBelow(lists: Lists, clients: Slices, p: Parent, i: nat)
    requires Ok(lists, clients) && p in lists && i < |lists[p]|
    ensures lists[p][i].id.clock < NextClock(clients, lists[p][i].id.client)
  {
    hide NextClock, View, Units, Distinct, Grounded, Contiguous;
    var it := lists[p][i];
    assert it in lists[p];
    KnownHeld(lists, clients, it, it.id);
  }

  lemma TextKept(s: seq<Item>, t: seq<Item>, recent: set<Id>)
    requires Kept(s, t, Squash(recent))
    ensures forall it :: it in s && (!NewText(it, recent) || it.key.Some?) ==> it in t
  {
  }

  lemma TombKept(s: seq<Item>, t: seq<Item>, table: Table)
    requires Kept(s, t, Collect(table))
    ensures forall it :: it in s && !Buried(it) ==> it in t
  {
  }

  ghost predicate Stands(s: seq<Item>, it: Item) {
    exists k :: 0 <= k < |s| && s[k].id == it.id && s[k].key == it.key && s[k].parent == it.parent
  }

  predicate Spared(rule: Rule, it: Item) {
    match rule
    case Squash(recent) => it.kind != Text || it.deleted || it.id !in recent || it.key.Some?
    case Collect(table) => it.kind != Tombstone || !it.deleted
  }

  /** Items the rule does not concern are as they were, and an item that holds a key is still there. */
  ghost predicate Kept(s: seq<Item>, t: seq<Item>, rule: Rule) {
    && (forall it :: it in s && Spared(rule, it) ==> it in t)
    && (forall it :: it in s && rule.Collect? && IsEntry(rule.table, it) ==> Stands(t, it))
  }

  // --------------------------------------------------------------- map entries

  /** Exactly the item that ends in the last unit of a key is deleted, all of it. */
  ghost predicate DropsKey(s: seq<Item>, key: string, i: nat, t: seq<Item>, asked: set<Id>, asked': set<Id>) {
    && i < |s| && s[i].content != [] && LastOf(Units(View(s)), Some(key)) == Some(LastId(s[i]))
    && t == Flag(s, i) && asked' == asked + IdsOf(s[i])
  }

  /** The table names the last item of a key, which ends in the last unit of the key. */
  lemma HolderIs(lists: Lists, clients: Slices, b: Books, p: Parent, k: string)
    requires Ok(lists, clients) && BooksOk(lists, clients, b) && p in lists
    ensures Entry(b.table, p, k) == IdOf(lists[p], Top(lists[p], k))
    ensures var w := Top(lists[p], k);
            if w < 0 then LastOf(Units(View(lists[p])), Some(k)).None?
            else && lists[p][w].content != [] && Has(Units(View(lists[p])), lists[p][w].id)
                 && LastOf(Units(View(lists[p])), Some(k)) == Some(LastId(lists[p][w]))
  {
    hide View, Units, Distinct, Grounded, SameItems, Contiguous, LastOf, Top;
    TopIsLast(lists[p], k);
    var w := Top(lists[p], k);
    if w >= 0 { HoldsAt(lists[p], w, lists[p][w].id); }
  }

  /** The holder of a key is deleted exactly if the deletion of the key's last unit was asked for. */
  lemma HolderAsked(lists: Lists, clients: Slices, b: Books, p: Parent, i: nat)
    requires Ok(lists, clients) && BooksOk(lists, clients, b) && p in lists && i < |lists[p]|
    requires lists[p][i].key.Some? && Top(lists[p], lists[p][i].key.value) == i
    ensures var it := lists[p][i];
            && it.content != [] && (it.deleted <==> LastId(it) in b.asked) && Has(Units(View(lists[p])), LastId(it))
            && View(lists[p])[Pos(Units(View(lists[p])), LastId(it))].value == it.content[|it.content| - 1]
  {
    hide View, Units, Distinct, Grounded, SameItems, Contiguous, Top, Cells;
    var it := lists[p][i];
    EntryIsTop(lists, clients, b.table, p, i);
    assert it in lists[p] && Sound(it, b);
    HoldsAt(lists[p], i, LastId(it));
    ViewAt(lists[p], i, |it.content| - 1);
    CellValue(it, |it.content| - 1);
  }

  lemma CellValue(it: Item, n: nat)
    requires n < |it.content|
    ensures Cells(it)[n].value == it.content[n]
  {
  }

  /** The former holder of a key stands before the new item. */
  lemma HolderPlace(lists: Lists, clients: Slices, s: seq<Item>, q: nat, x: Item)
    requires Ok(lists, clients) && x.parent in lists && q <= |s| && lists[x.parent] == Put(s, q, x) && x.key.Some?
    requires 0 <= Top(s, x.key.value) < q
    ensures var w := Top(s, x.key.value);
            lists[x.parent][w] == s[w] && Has(Units(View(lists[x.parent])), s[w].id) && w == Loser(s, q, x)
  {
    hide View, Units, Distinct, Grounded, SameItems, Contiguous, Top, Put;
    var w := Top(s, x.key.value);
    PutAt(s, q, x, w);
    HoldsAt(lists[x.parent], w, s[w].id);
  }

  lemma AddEnds(clients: Slices, x: Item)
    ensures forall c :: NextClock(clients[x.id.client := SliceOf(clients, x.id.client) + [x]], c) ==
                        NextClock(clients, c) + if c == x.id.client then |x.content| else 0
  {
    var slice := SliceOf(clients, x.id.client);
    OffPrefix(slice, slice + [x], |slice|);
  }

  lemma UnkeyedSettles(s: seq<Item>, q: nat, x: Item)
    requires q <= |s| && x.key.None?
    ensures Settled(Put(s, q, x), Loser(s, q, x)) == Put(s, q, x)
  {
  }

  lemma IntegrateBooks(lists: Lists, clients: Slices, b: Books, q: nat, x: Item, slices: Slices, clients': Slices,
                       b': Books, rightmost: bool)
    requires Ok(lists, clients) && BooksOk(lists, clients, b) && x.parent in lists && q <= |lists[x.parent]|
    requires x.id.clock == NextClock(clients, x.id.client) && x.content != []
    requires slices == clients[x.id.client := SliceOf(clients, x.id.client) + [x]]
    requires forall d :: NextClock(clients', d) == NextClock(slices, d)
    requires x.key.Some? ==> rightmost == (Top(lists[x.parent], x.key.value) < q)
    requires b' == Books(if x.key.Some? && rightmost then WithEntry(b.table, x.parent, x.key.value, x.id) else b.table,
                         b.recent + if x.kind == Text then {x.id} else {}, b.cuts,
                         b.asked + if x.deleted then IdsOf(x) else {})
    ensures var s := lists[x.parent];
            BooksOk(lists[x.parent := Settled(Put(s, q, x), Loser(s, q, x))], clients', b')
  {
    hide Ok, BooksOk, NextClock, Top, Put;
    AddEnds(clients, x);
    PutKeepsBooks(lists, clients, b, q, x, clients');
  }
}
