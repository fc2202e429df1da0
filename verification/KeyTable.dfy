/**
  The table of a map type: for every key the item that holds it, which is the last
  item of that key in the list.  Items are cut, joined, put in and deleted; the
  table follows, and the value of a key is always its last unit.
*/
module KeyTable {
  import opened Base
  import opened Yata
  import opened Items
  import opened ItemStore
  import opened MapEntries

  type Table = map<Parent, map<string, Id>>

  /** The item that holds a key, known by its first id. */
  function Entry(table: Table, p: Parent, k: string): Option<Id> {
    if p in table && k in table[p] then Some(table[p][k]) else None
  }

  function WithEntry(table: Table, p: Parent, k: string, id: Id): (r: Table)
    ensures forall p', k' :: Entry(r, p', k') == if p' == p && k' == k then Some(id) else Entry(table, p', k')
  {
    table[p := (if p in table then table[p] else map[])[k := id]]
  }

  predicate IsEntry(table: Table, it: Item) {
    it.key.Some? && Entry(table, it.parent, it.key.value) == Some(it.id)
  }

  /** Index of the last item of a key, -1 if there is none. */
  ghost function Top(s: seq<Item>, k: string): (r: int)
    ensures -1 <= r < |s|
    ensures r >= 0 ==> s[r].key == Some(k)
    ensures forall i :: r < i < |s| ==> s[i].key != Some(k)
  {
    if s == [] then -1
    else if s[|s| - 1].key == Some(k) then |s| - 1
    else Top(s[..|s| - 1], k)
  }

  ghost function IdOf(s: seq<Item>, i: int): Option<Id>
    requires i < |s|
  {
    if i < 0 then None else Some(s[i].id)
  }

  ghost predicate TableOk(lists: Lists, table: Table) {
    forall p, k {:trigger Entry(table, p, k)} ::
      p in lists ==> Entry(table, p, k) == IdOf(lists[p], Top(lists[p], k))
  }

  function LastId(it: Item): Id
    requires it.content != []
  {
    IdAt(it, |it.content| - 1)
  }

  lemma {:induction false} LastOfCells(it: Item, k: string)
    requires it.content != []
    ensures LastOf(Units(Cells(it)), Some(k)) == if it.key == Some(k) then Some(LastId(it)) else None
  {
    var us := Units(Cells(it));
    if it.key == Some(k) {
      assert us[|us| - 1] == UnitAt(it, |us| - 1);
    } else {
      LastOfNone(us, Some(k));
    }
  }

  /** The last item of a key ends in the last unit of the key. */
  lemma {:induction false} TopIsLast(s: seq<Item>, k: string)
    requires NoneEmpty(s)
    ensures LastOf(Units(View(s)), Some(k)) == if Top(s, k) < 0 then None else Some(LastId(s[Top(s, k)]))
  {
    hide LastOf, Units, Cells;
    if s == [] {
      LastOfNone([], Some(k));
      assert Units(View(s)) == [];
    } else {
      var s', it := s[..|s| - 1], s[|s| - 1];
      TopIsLast(s', k);
      UnitsConcat(View(s'), Cells(it));
      LastOfConcat(Units(View(s')), Units(Cells(it)), Some(k));
      LastOfCells(it, k);
    }
  }

  /**
    What a document knows besides its items: the table, the text items of the current
    transaction, where items have been cut (first ids of right halves), and the units
    whose deletion was asked for, as opposed to values overwritten.
  */
  datatype Books = Books(table: Table, recent: set<Id>, cuts: set<Id>, asked: set<Id>)

  /**
    The books are right about one item.  A unit asked to be deleted is deleted, and
    the holder of a key is deleted only if that was asked.  Of the other items of a
    key only the front parts of cut items are live.
  */
  ghost predicate Sound(it: Item, b: Books) {
    && (forall id {:trigger id in b.recent} :: Holds(it, id) && id != it.id ==> id !in b.recent)
    && (forall id {:trigger id in b.asked} :: Holds(it, id) && id in b.asked ==> it.deleted)
    && (it.key.Some? && !it.deleted && !IsEntry(b.table, it) ==> IdAt(it, |it.content|) in b.cuts)
    && (it.deleted && IsEntry(b.table, it) ==> it.content != [] && LastId(it) in b.asked)
  }

  predicate Known(clients: Slices, id: Id) {
    id.clock < NextClock(clients, id.client)
  }

  ghost predicate BooksOk(lists: Lists, clients: Slices, b: Books) {
    && TableOk(lists, b.table)
    && b.recent !! b.cuts
    && (forall id :: id in b.recent || id in b.cuts || id in b.asked ==> Known(clients, id))
    && (forall p, it {:trigger it in lists[p]} :: p in lists && it in lists[p] ==> Sound(it, b))
  }

  /** No two items share a unit. */
  lemma Apart(lists: Lists, clients: Slices, a: Item, b: Item, id: Id)
    requires Ok(lists, clients) && a.parent in lists && b.parent in lists
    requires a in lists[a.parent] && b in lists[b.parent] && Holds(a, id) && Holds(b, id)
    ensures a == b
  {
    hide View, Units, Distinct, Grounded, Contiguous;
    var slice := clients[id.client];
    var i :| 0 <= i < |slice| && slice[i] == a;
    var j :| 0 <= j < |slice| && slice[j] == b;
    if i != j { SliceDistinct(slice, id.client, i, j); }
  }

  lemma InOwnList(lists: Lists, clients: Slices, p: Parent, it: Item)
    requires Ok(lists, clients) && p in lists && it in lists[p]
    ensures it.parent == p && it.content != [] && Holds(it, it.id)
  {
    hide View, Units, Distinct, Grounded, Contiguous;
  }

  /** Only the item in the table is known under the id in the table. */
  lemma EntryIsTop(lists: Lists, clients: Slices, table: Table, p: Parent, i: nat)
    requires Ok(lists, clients) && TableOk(lists, table) && p in lists && i < |lists[p]| && lists[p][i].key.Some?
    ensures lists[p][i].parent == p
    ensures IsEntry(table, lists[p][i]) <==> Top(lists[p], lists[p][i].key.value) == i
  {
    hide View, Units, Distinct, Grounded, Contiguous, SameItems, Top;
    var it := lists[p][i];
    InOwnList(lists, clients, p, it);
    var r := Top(lists[p], it.key.value);
    assert Entry(table, p, it.key.value) == IdOf(lists[p], r);
    if r >= 0 && lists[p][r].id == it.id {
      InOwnList(lists, clients, p, lists[p][r]);
      Apart(lists, clients, it, lists[p][r], it.id);
      if r != i { ListItemsDistinct(lists[p], i); }
    }
  }

  // --------------------------------------------------------------------- cuts

  function CutBooks(b: Books, it: Item, offset: nat): Books {
    b.(table := if IsEntry(b.table, it) then WithEntry(b.table, it.parent, it.key.value, IdAt(it, offset)) else b.table,
       cuts := b.cuts + {IdAt(it, offset)})
  }

  lemma TopCut(s: seq<Item>, i: nat, offset: nat, k: string)
    requires i < |s| && 0 < offset < |s[i].content|
    ensures Top(Cut(s, i, offset), k) == if Top(s, k) < i then Top(s, k) else Top(s, k) + 1
  {
    hide Top;
    var t := Cut(s, i, offset);
    assert forall j :: 0 <= j < i ==> t[j] == s[j];
    assert forall j :: i < j < |s| ==> t[j + 1] == s[j];
    assert forall j :: i + 1 < j < |t| ==> t[j] == s[j - 1];
    assert t[i].key == s[i].key && t[i + 1].key == s[i].key;
  }

  lemma CutTable(lists: Lists, clients: Slices, b: Books, p: Parent, i: nat, offset: nat)
    requires Ok(lists, clients) && TableOk(lists, b.table) && p in lists && i < |lists[p]|
    requires 0 < offset < |lists[p][i].content|
    ensures TableOk(lists[p := Cut(lists[p], i, offset)], CutBooks(b, lists[p][i], offset).table)
  {
    hide Ok, Top;
    var s, it := lists[p], lists[p][i];
    var t := Cut(s, i, offset);
    if it.key.Some? { EntryIsTop(lists, clients, b.table, p, i); }
    forall k
      ensures Entry(CutBooks(b, it, offset).table, p, k) == IdOf(t, Top(t, k))
    {
      TopCut(s, i, offset, k);
      assert Entry(b.table, p, k) == IdOf(s, Top(s, k));
    }
  }

  /** An item a step leaves alone stays right if the step changes nothing the books say about it. */
  lemma SoundStill(o: Item, b: Books, b': Books)
    requires Sound(o, b) && IsEntry(b'.table, o) == IsEntry(b.table, o)
    requires forall id :: Holds(o, id) && id in b'.recent ==> id in b.recent
    requires forall id :: Holds(o, id) && id in b'.asked ==> id in b.asked
    requires b.cuts <= b'.cuts && b.asked <= b'.asked
    ensures Sound(o, b')
  {
  }

  /** When an entry moves from `it` to a new id, all other items are entries or not as before. */
  lemma EntryMoves(lists: Lists, clients: Slices, table: Table, it: Item, id: Id, o: Item)
    requires Ok(lists, clients) && it.parent in lists && it in lists[it.parent] && o.parent in lists
    requires o in lists[o.parent]
    requires IsEntry(table, it) && o != it && o.id != id
    ensures IsEntry(WithEntry(table, it.parent, it.key.value, id), o) == IsEntry(table, o)
  {
    hide Ok;
    InOwnList(lists, clients, it.parent, it);
    InOwnList(lists, clients, o.parent, o);
    if o.id == it.id { Apart(lists, clients, it, o, o.id); }
  }

  lemma NotEntry(lists: Lists, clients: Slices, table: Table, p: Parent, it: Item, id: Id, k: string)
    requires Ok(lists, clients) && TableOk(lists, table) && p in lists && it in lists[p] && Holds(it, id) && id != it.id
    ensures Entry(table, p, k) != Some(id)
  {
    hide Ok, Top;
    InOwnList(lists, clients, p, it);
    if Entry(table, p, k) == Some(id) {
      var o := lists[p][Top(lists[p], k)];
      InOwnList(lists, clients, p, o);
      Apart(lists, clients, it, o, id);
    }
  }

  lemma KnownHeld(lists: Lists, clients: Slices, it: Item, id: Id)
    requires Ok(lists, clients) && it.parent in lists && it in lists[it.parent] && Holds(it, id)
    ensures Known(clients, id)
  {
    hide View, Units, Distinct, Grounded;
    var slice := clients[id.client];
    var j :| 0 <= j < |slice| && slice[j] == it;
    assert Seated(slice, id.client, j);
    OffMonotone(slice, j, |slice|);
  }

  lemma CutMembers(lists: Lists, clients: Slices, p: Parent, i: nat, offset: nat, q: Parent, o: Item)
    requires Ok(lists, clients) && p in lists && i < |lists[p]| && 0 < offset < |lists[p][i].content|
    requires q in lists && o in lists[p := Cut(lists[p], i, offset)][q]
    ensures o == LeftHalf(lists[p][i], offset) || o == RightHalf(lists[p][i], offset)
            || (o in lists[q] && o != lists[p][i])
  {
    hide View, Units, Distinct, Grounded, Contiguous, Cut;
    ListItemsDistinct(lists[p], i);
    CutElements(lists[p], i, offset, o);
    assert lists[p][i] in lists[p];
  }

  lemma CutSoundHalves(b: Books, it: Item, offset: nat)
    requires Sound(it, b) && 0 < offset < |it.content|
    requires it.key.Some? ==> Entry(b.table, it.parent, it.key.value) != Some(IdAt(it, offset))
    ensures Sound(LeftHalf(it, offset), CutBooks(b, it, offset))
    ensures Sound(RightHalf(it, offset), CutBooks(b, it, offset))
  {
    var l, r := LeftHalf(it, offset), RightHalf(it, offset);
    assert forall id :: Holds(l, id) || Holds(r, id) ==> Holds(it, id);
    assert LastId(r) == LastId(it);
  }

  lemma CutSoundOther(lists: Lists, clients: Slices, b: Books, it: Item, offset: nat, o: Item)
    requires Ok(lists, clients) && it.parent in lists && it in lists[it.parent] && 0 < offset < |it.content|
    requires o.parent in lists && o in lists[o.parent] && o != it && Sound(o, b)
    ensures Sound(o, CutBooks(b, it, offset))
  {
    hide Ok, Sound;
    InOwnList(lists, clients, o.parent, o);
    if o.id == IdAt(it, offset) { Apart(lists, clients, it, o, o.id); }
    if IsEntry(b.table, it) { EntryMoves(lists, clients, b.table, it, IdAt(it, offset), o); }
    SoundStill(o, b, CutBooks(b, it, offset));
  }

  /** Cutting an item: an entry moves to the right half. */
  lemma CutKeepsBooks(lists: Lists, clients: Slices, b: Books, p: Parent, i: nat, offset: nat, clients': Slices)
    requires Ok(lists, clients) && BooksOk(lists, clients, b) && p in lists && i < |lists[p]|
    requires 0 < offset < |lists[p][i].content|
    requires forall c :: NextClock(clients', c) == NextClock(clients, c)
    ensures BooksOk(lists[p := Cut(lists[p], i, offset)], clients', CutBooks(b, lists[p][i], offset))
  {
    hide Ok, Top, TableOk, NextClock, Cut, Sound;
    var it, lists': Lists, b' := lists[p][i], lists[p := Cut(lists[p], i, offset)], CutBooks(b, lists[p][i], offset);
    InOwnList(lists, clients, p, it);
    CutTable(lists, clients, b, p, i, offset);
    KnownHeld(lists, clients, it, IdAt(it, offset));
    if it.key.Some? { NotEntry(lists, clients, b.table, p, it, IdAt(it, offset), it.key.value); }
    CutSoundHalves(b, it, offset);
    assert IdAt(it, offset) !in b.recent by { InteriorOld(it, b, IdAt(it, offset)); }
    forall q, o | q in lists' && o in lists'[q]
      ensures Sound(o, b')
    {
      CutMembers(lists, clients, p, i, offset, q, o);
      if o in lists[q] && o != it {
        InOwnList(lists, clients, q, o);
        CutSoundOther(lists, clients, b, it, offset, o);
      }
    }
  }

  lemma InteriorOld(it: Item, b: Books, id: Id)
    requires Sound(it, b) && Holds(it, id) && id != it.id
    ensures id !in b.recent
  {
  }

  // --------------------------------------------------------------------- joins

  function JoinBooks(b: Books, left: Item, it: Item): Books {
    b.(table := if IsEntry(b.table, it) then WithEntry(b.table, it.parent, it.key.value, left.id) else b.table,
       recent := b.recent - {it.id})
  }

  lemma TopJoin(s: seq<Item>, i: nat, k: string)
    requires 0 < i < |s| && s[i - 1].key == s[i].key
    ensures Top(Join(s, i), k) == if Top(s, k) < i then Top(s, k) else Top(s, k) - 1
  {
    hide Top;
    var t := Join(s, i);
    assert forall j :: 0 <= j < i - 1 ==> t[j] == s[j];
    assert forall j :: i < j < |s| ==> t[j - 1] == s[j];
    assert forall j :: i <= j < |t| ==> t[j] == s[j + 1];
    assert t[i - 1].key == s[i].key;
  }

  lemma JoinTable(lists: Lists, clients: Slices, b: Books, p: Parent, i: nat)
    requires Ok(lists, clients) && TableOk(lists, b.table) && p in lists && 0 < i < |lists[p]|
    requires Mergeable(lists[p][i - 1], lists[p][i])
    ensures TableOk(lists[p := Join(lists[p], i)], JoinBooks(b, lists[p][i - 1], lists[p][i]).table)
  {
    hide Ok, Top;
    var s, left, it := lists[p], lists[p][i - 1], lists[p][i];
    var t := Join(s, i);
    if it.key.Some? { EntryIsTop(lists, clients, b.table, p, i); }
    forall k
      ensures Entry(JoinBooks(b, left, it).table, p, k) == IdOf(t, Top(t, k))
    {
      TopJoin(s, i, k);
      assert Entry(b.table, p, k) == IdOf(s, Top(s, k));
    }
  }

  lemma JoinMembers(lists: Lists, clients: Slices, p: Parent, i: nat, q: Parent, o: Item)
    requires Ok(lists, clients) && p in lists && 0 < i < |lists[p]|
    requires q in lists && o in lists[p := Join(lists[p], i)][q]
    ensures o == Merged(lists[p][i - 1], lists[p][i])
            || (o in lists[q] && o != lists[p][i] && o != lists[p][i - 1])
  {
    hide View, Units, Distinct, Grounded, Contiguous, Join;
    ListItemsDistinct(lists[p], i);
    ListItemsDistinct(lists[p], i - 1);
    JoinElements(lists[p], i, o);
    assert lists[p][i] in lists[p] && lists[p][i - 1] in lists[p];
  }

  lemma JoinSound(b: Books, left: Item, it: Item)
    requires Sound(left, b) && Sound(it, b) && Mergeable(left, it) && it.content != []
    requires left.key.Some? ==> !IsEntry(b.table, left)
    ensures Sound(Merged(left, it), JoinBooks(b, left, it))
  {
    var m := Merged(left, it);
    assert forall id :: Holds(m, id) ==> Holds(left, id) || Holds(it, id);
    assert LastId(m) == LastId(it);
  }

  lemma JoinSoundOther(lists: Lists, clients: Slices, b: Books, left: Item, it: Item, o: Item)
    requires Ok(lists, clients) && it.parent in lists && it in lists[it.parent]
    requires left.parent in lists && left in lists[left.parent]
    requires o.parent in lists && o in lists[o.parent] && o != it && o != left && Sound(o, b)
    ensures Sound(o, JoinBooks(b, left, it))
  {
    hide Ok, Sound;
    InOwnList(lists, clients, o.parent, o);
    InOwnList(lists, clients, left.parent, left);
    if o.id == left.id { Apart(lists, clients, left, o, o.id); }
    if IsEntry(b.table, it) { EntryMoves(lists, clients, b.table, it, left.id, o); }
    SoundStill(o, b, JoinBooks(b, left, it));
  }

  /** Joining two items: an entry moves to the left one. */
  lemma JoinKeepsBooks(lists: Lists, clients: Slices, b: Books, p: Parent, i: nat, clients': Slices)
    requires Ok(lists, clients) && BooksOk(lists, clients, b) && p in lists && 0 < i < |lists[p]|
    requires Mergeable(lists[p][i - 1], lists[p][i])
    requires forall c :: NextClock(clients', c) == NextClock(clients, c)
    ensures BooksOk(lists[p := Join(lists[p], i)], clients', JoinBooks(b, lists[p][i - 1], lists[p][i]))
  {
    hide Ok, Top, TableOk, NextClock, Join, Sound;
    var left, it, lists': Lists := lists[p][i - 1], lists[p][i], lists[p := Join(lists[p], i)];
    InOwnList(lists, clients, p, it);
    InOwnList(lists, clients, p, left);
    JoinTable(lists, clients, b, p, i);
    if left.key.Some? { EntryIsTop(lists, clients, b.table, p, i - 1); }
    JoinSound(b, left, it);
    forall q, o | q in lists' && o in lists'[q]
      ensures Sound(o, JoinBooks(b, left, it))
    {
      JoinMembers(lists, clients, p, i, q, o);
      if o in lists[q] && o != it && o != left {
        InOwnList(lists, clients, q, o);
        JoinSoundOther(lists, clients, b, left, it, o);
      }
    }
  }

  // ------------------------------------------------------------------ deletions

  ghost function IdsOf(it: Item): (r: set<Id>)
    ensures forall id :: id in r <==> Holds(it, id)
  {
    var r := set n {:trigger IdAt(it, n)} | 0 <= n < |it.content| :: IdAt(it, n);
    assert forall id :: Holds(it, id) ==> IdAt(it, id.clock - it.id.clock) == id;
    r
  }

  lemma TopFlag(s: seq<Item>, i: nat, k: string)
    requires i < |s|
    ensures Top(Flag(s, i), k) == Top(s, k) && IdOf(Flag(s, i), Top(s, k)) == IdOf(s, Top(s, k))
  {
    hide Top;
    assert forall j :: 0 <= j < |s| ==> Flag(s, i)[j].key == s[j].key && Flag(s, i)[j].id == s[j].id;
  }

  lemma FlagTable(lists: Lists, table: Table, p: Parent, i: nat)
    requires TableOk(lists, table) && p in lists && i < |lists[p]|
    ensures TableOk(lists[p := Flag(lists[p], i)], table)
  {
    hide Top, Flag;
    forall k
      ensures Entry(table, p, k) == IdOf(Flag(lists[p], i), Top(Flag(lists[p], i), k))
    {
      TopFlag(lists[p], i, k);
    }
  }

  lemma FlagMembers(lists: Lists, clients: Slices, p: Parent, i: nat, q: Parent, o: Item)
    requires Ok(lists, clients) && p in lists && i < |lists[p]|
    requires q in lists && o in lists[p := Flag(lists[p], i)][q]
    ensures o == lists[p][i].(deleted := true) || (o in lists[q] && o != lists[p][i])
  {
    hide View, Units, Distinct, Grounded, Contiguous, Flag;
    ListItemsDistinct(lists[p], i);
    FlagElements(lists[p], i, o);
    assert lists[p][i] in lists[p];
  }

  /** A deletion that was asked for. */
  lemma AskKeepsBooks(lists: Lists, clients: Slices, b: Books, p: Parent, i: nat, clients': Slices)
    requires Ok(lists, clients) && BooksOk(lists, clients, b) && p in lists && i < |lists[p]|
    requires forall c :: NextClock(clients', c) == NextClock(clients, c)
    ensures BooksOk(lists[p := Flag(lists[p], i)], clients', b.(asked := b.asked + IdsOf(lists[p][i])))
  {
    hide Ok, Top, TableOk, NextClock, Flag;
    var it, lists': Lists := lists[p][i], lists[p := Flag(lists[p], i)];
    var b' := b.(asked := b.asked + IdsOf(it));
    InOwnList(lists, clients, p, it);
    FlagTable(lists, b.table, p, i);
    forall id | id in IdsOf(it) ensures Known(clients, id) { KnownHeld(lists, clients, it, id); }
    forall q, o | q in lists' && o in lists'[q]
      ensures Sound(o, b')
    {
      FlagMembers(lists, clients, p, i, q, o);
      if o in lists[q] && o != it {
        InOwnList(lists, clients, q, o);
        forall id | Holds(o, id) ensures !Holds(it, id) { if Holds(it, id) { Apart(lists, clients, it, o, id); } }
        SoundStill(o, b, b');
      }
    }
  }

  // ----------------------------------------------------------------- new items

  /** The item of the new list that a new item `x` overwrites: the former winner, `x` itself, or none. */
  ghost function Loser(s: seq<Item>, q: nat, x: Item): (r: int)
    requires q <= |s|
    ensures -1 <= r <= q
  {
    if x.key.None? then -1 else if Top(s, x.key.value) >= q then q else Top(s, x.key.value)
  }

  ghost function Settled(t: seq<Item>, loser: int): seq<Item>
    requires loser < |t|
  {
    if loser < 0 then t else Flag(t, loser)
  }

  ghost function PutBooks(b: Books, s: seq<Item>, q: nat, x: Item): Books {
    Books(if x.key.Some? && Top(s, x.key.value) < q then WithEntry(b.table, x.parent, x.key.value, x.id) else b.table,
          b.recent + if x.kind == Text then {x.id} else {},
          b.cuts,
          b.asked + if x.deleted then IdsOf(x) else {})
  }

  lemma PutAt(s: seq<Item>, q: nat, x: Item, j: nat)
    requires q <= |s| && j <= |s|
    ensures Put(s, q, x)[j] == if j < q then s[j] else if j == q then x else s[j - 1]
  {
  }

  lemma TopPut(s: seq<Item>, q: nat, x: Item, k: string)
    requires q <= |s|
    ensures Top(Put(s, q, x), k) == if x.key == Some(k) && Top(s, k) < q then q
                                    else if Top(s, k) < q then Top(s, k) else Top(s, k) + 1
  {
    hide Top, Put;
    var t, r := Put(s, q, x), Top(s, k);
    var r' := if x.key == Some(k) && r < q then q else if r < q then r else r + 1;
    forall j | r' < j < |t|
      ensures t[j].key != Some(k)
    {
      PutAt(s, q, x, j);
    }
    if r' >= 0 { PutAt(s, q, x, r'); }
  }

  lemma PutTable(lists: Lists, b: Books, q: nat, x: Item)
    requires x.parent in lists && q <= |lists[x.parent]| && TableOk(lists, b.table)
    ensures TableOk(lists[x.parent := Put(lists[x.parent], q, x)], PutBooks(b, lists[x.parent], q, x).table)
  {
    hide Top;
    var p, s := x.parent, lists[x.parent];
    forall k
      ensures Entry(PutBooks(b, s, q, x).table, p, k) == IdOf(Put(s, q, x), Top(Put(s, q, x), k))
    {
      TopPut(s, q, x, k);
      assert Entry(b.table, p, k) == IdOf(s, Top(s, k));
    }
  }

  lemma SettledTable(lists: Lists, table: Table, p: Parent, loser: int)
    requires TableOk(lists, table) && p in lists && loser < |lists[p]|
    ensures TableOk(lists[p := Settled(lists[p], loser)], table)
  {
    hide TableOk;
    if loser >= 0 { FlagTable(lists, table, p, loser); } else { assert lists[p := lists[p]] == lists; }
  }

  lemma SettledMembers(s: seq<Item>, q: nat, x: Item, o: Item)
    requires q <= |s| && o in Settled(Put(s, q, x), Loser(s, q, x))
    requires forall k, k' :: 0 <= k < k' < |s| ==> s[k] != s[k']
    requires x !in s
    ensures var w := Loser(s, q, x);
            || (o == x && w != q)
            || (w == q && o == x.(deleted := true))
            || (0 <= w < q && o == s[w].(deleted := true))
            || (o in s && (0 <= w < q ==> o != s[w]))
  {
    hide Top, Loser;
    var t, w := Put(s, q, x), Loser(s, q, x);
    var j :| 0 <= j < |t| && Settled(t, w)[j] == o;
    if j != w && j != q {
      assert o == s[if j < q then j else j - 1];
    }
  }

  lemma EntryKnown(lists: Lists, clients: Slices, table: Table, p: Parent, k: string)
    requires Ok(lists, clients) && TableOk(lists, table) && p in lists
    ensures Entry(table, p, k).Some? ==> Known(clients, Entry(table, p, k).value)
  {
    hide Ok, Top, NextClock;
    assert Entry(table, p, k) == IdOf(lists[p], Top(lists[p], k));
    if Top(lists[p], k) >= 0 {
      var o := lists[p][Top(lists[p], k)];
      InOwnList(lists, clients, p, o);
      KnownHeld(lists, clients, o, o.id);
    }
  }

  /** The new item itself. */
  lemma PutSoundNew(lists: Lists, clients: Slices, b: Books, q: nat, x: Item)
    requires Ok(lists, clients) && BooksOk(lists, clients, b) && x.parent in lists && q <= |lists[x.parent]|
    requires x.id.clock == NextClock(clients, x.id.client) && x.content != []
    ensures var w := Loser(lists[x.parent], q, x);
            Sound(if w == q then x.(deleted := true) else x, PutBooks(b, lists[x.parent], q, x))
  {
    hide Ok, Top, NextClock, TableOk;
    var s := lists[x.parent];
    assert forall id :: Holds(x, id) ==> !Known(clients, id);
    if x.key.Some? { EntryKnown(lists, clients, b.table, x.parent, x.key.value); }
  }

  lemma SoundFlagged(it: Item, b: Books, b': Books)
    requires Sound(it, b) && !IsEntry(b'.table, it)
    requires forall id :: Holds(it, id) && id in b'.recent ==> id in b.recent
    ensures Sound(it.(deleted := true), b')
  {
    assert forall id :: Holds(it.(deleted := true), id) == Holds(it, id);
  }

  /** The item that held the key before. */
  lemma PutSoundFormer(lists: Lists, clients: Slices, b: Books, q: nat, x: Item)
    requires Ok(lists, clients) && BooksOk(lists, clients, b) && x.parent in lists && q <= |lists[x.parent]|
    requires x.id.clock == NextClock(clients, x.id.client)
    requires 0 <= Loser(lists[x.parent], q, x) < q
    ensures Sound(lists[x.parent][Loser(lists[x.parent], q, x)].(deleted := true), PutBooks(b, lists[x.parent], q, x))
  {
    hide Ok, Top, NextClock, TableOk;
    var it := lists[x.parent][Loser(lists[x.parent], q, x)];
    assert it in lists[x.parent] && Sound(it, b);
    InOwnList(lists, clients, x.parent, it);
    forall id | Holds(it, id) ensures Known(clients, id) { KnownHeld(lists, clients, it, id); }
    assert it.id != x.id by { assert Known(clients, it.id); }
    var b' := PutBooks(b, lists[x.parent], q, x);
    assert it.key == x.key && it.parent == x.parent && !IsEntry(b'.table, it);
    SoundFlagged(it, b, b');
  }

  /** Every other item. */
  lemma PutSoundOther(lists: Lists, clients: Slices, b: Books, q: nat, x: Item, o: Item)
    requires Ok(lists, clients) && BooksOk(lists, clients, b) && x.parent in lists && q <= |lists[x.parent]|
    requires x.id.clock == NextClock(clients, x.id.client)
    requires o.parent in lists && o in lists[o.parent]
    requires var w := Loser(lists[x.parent], q, x); 0 <= w < q ==> o != lists[x.parent][w]
    ensures Sound(o, PutBooks(b, lists[x.parent], q, x))
  {
    hide Ok, Top, NextClock, Sound;
    InOwnList(lists, clients, o.parent, o);
    forall id | Holds(o, id) ensures Known(clients, id) { KnownHeld(lists, clients, o, id); }
    var b' := PutBooks(b, lists[x.parent], q, x);
    if o.key.Some? && o.parent == x.parent {
      var i :| 0 <= i < |lists[o.parent]| && lists[o.parent][i] == o;
      EntryIsTop(lists, clients, b.table, o.parent, i);
    }
    SoundStill(o, b, b');
  }

  /** A new item: the last item of its key holds it, and the one that held it before is deleted. */
  lemma PutKeepsBooks(lists: Lists, clients: Slices, b: Books, q: nat, x: Item, clients': Slices)
    requires Ok(lists, clients) && BooksOk(lists, clients, b) && x.parent in lists && q <= |lists[x.parent]|
    requires x.id.clock == NextClock(clients, x.id.client) && x.content != []
    requires forall c :: NextClock(clients', c) == NextClock(clients, c) + if c == x.id.client then |x.content| else 0
    ensures var s := lists[x.parent];
            BooksOk(lists[x.parent := Settled(Put(s, q, x), Loser(s, q, x))], clients', PutBooks(b, s, q, x))
  {
    hide Ok, Top, NextClock, TableOk, Sound, Put, Settled, Loser;
    var p, s := x.parent, lists[x.parent];
    var w, b' := Loser(s, q, x), PutBooks(b, s, q, x);
    var put: Lists, lists': Lists := lists[p := Put(s, q, x)], lists[p := Settled(Put(s, q, x), w)];
    PutTable(lists, b, q, x);
    SettledTable(put, b'.table, p, w);
    assert put[p := Settled(put[p], w)] == lists';
    PutSoundNew(lists, clients, b, q, x);
    if 0 <= w < q {
      PutSoundFormer(lists, clients, b, q, x);
      InOwnList(lists, clients, p, s[w]);
    }
    NewToAll(lists, clients, x);
    forall o, a | a in lists' && o in lists'[a]
      ensures Sound(o, b')
    {
      if a == p { SettledMembers(s, q, x, o); }
      if o in lists[a] {
        InOwnList(lists, clients, a, o);
        if a != p || (0 <= w < q ==> o != s[w]) {
          PutSoundOther(lists, clients, b, q, x, o);
        }
      }
    }
  }

  lemma NewToAll(lists: Lists, clients: Slices, x: Item)
    requires Ok(lists, clients) && x.parent in lists && x.id.clock == NextClock(clients, x.id.client)
    ensures x !in lists[x.parent]
    ensures forall k, k' :: 0 <= k < k' < |lists[x.parent]| ==> lists[x.parent][k] != lists[x.parent][k']
  {
    hide View, Units, Distinct, Grounded, SameItems, Contiguous, NextClock;
    var s := lists[x.parent];
    if x in s {
      InOwnList(lists, clients, x.parent, x);
      KnownHeld(lists, clients, x, x.id);
    }
    forall k | 0 <= k < |s| ensures forall k' :: k < k' < |s| ==> s[k] != s[k'] { ListItemsDistinct(s, k); }
  }
}
