/**
  Where the walk over a list starts: the first item that is not deleted.  The last
  answer is kept and the next walk starts there, so that leading tombstones are passed
  once.  The kept item is known by an id; it may be cut, merged or deleted meanwhile.
*/
module FirstLive {
  import opened Base
  import opened ListItems
  import opened SearchMarkers

  /** Nothing live comes before the item that holds `id`; if it is live itself, it starts there. */
  ghost predicate NothingBefore(items: seq<Item>, id: Id) {
    exists c :: 0 <= c < |items| && HeldAt(items, id, c)
  }

  ghost predicate HeldAt(items: seq<Item>, id: Id, c: int)
    requires 0 <= c < |items|
  {
    Covers(items[c], id) && (items[c].deleted || items[c].id == id) && forall i :: 0 <= i < c ==> items[i].deleted
  }

  class Head {
    var items: seq<Item>
    var first: Option<Id>

    ghost predicate Valid()
      reads this
    {
      ListOk(items) && (first.Some? ==> NothingBefore(items, first.value))
    }

    constructor ()
      ensures Valid() && items == []
    {
      items, first := [], None;
    }

    /** The index of the first live item, or the end of the list. */
    method FirstLive() returns (k: nat)
      requires Valid()
      modifies `first
      ensures Valid() && k <= |items| && (k < |items| ==> !items[k].deleted) && forall i :: 0 <= i < k ==>
                items[i].deleted
    {
      k := 0;
      if first.Some? {
        ghost var c :| 0 <= c < |items| && HeldAt(items, first.value, c);
        while !Covers(items[k], first.value)
          invariant 0 <= k <= c
          decreases c - k
        {
          k := k + 1;
        }
      }
      while k < |items| && items[k].deleted
        invariant 0 <= k <= |items| && forall i :: 0 <= i < k ==> items[i].deleted
      {
        k := k + 1;
      }
      first := None;
      if k < |items| {
        assert ItemOk(items[k]) && Covers(items[k], items[k].id);
        assert HeldAt(items, items[k].id, k);
        first := Some(items[k].id);
      }
    }

    /** A new item resets the walk if it is the head of the list or follows a deleted item. */
    method Integrate(q: nat, x: Item)
      requires Valid() && q <= |items| && ItemOk(x) && forall i :: 0 <= i < |items| ==> Apart(items[i], x)
      modifies this
      ensures Valid() && items == Inserted(old(items), q, x)
    {
      ListOkInsert(items, q, x);
      if q == 0 || items[q - 1].deleted {
        first := None;
      } else if first.Some? {
        ghost var c :| 0 <= c < |items| && HeldAt(items, first.value, c);
        assert c < q;
        assert forall i :: 0 <= i < q ==> Inserted(items, q, x)[i] == items[i];
        assert HeldAt(Inserted(items, q, x), first.value, c);
      }
      items := Inserted(items, q, x);
    }

    method Delete(k: nat)
      requires Valid() && k < |items|
      modifies `items
      ensures Valid() && items == old(items)[k := old(items)[k].(deleted := true)]
    {
      ghost var before := items;
      items := items[k := items[k].(deleted := true)];
      assert forall i, j :: 0 <= i < j < |items| ==> Apart(before[i], before[j]);
      if first.Some? {
        ghost var c :| 0 <= c < |before| && HeldAt(before, first.value, c);
        assert HeldAt(items, first.value, c);
      }
    }

    method Split(p: nat, n: nat)
      requires Valid() && p < |items| && 0 < n < items[p].len && items[p].movedBy.None?
      modifies `items
      ensures Valid() && items == SplitOf(old(items), p, n)
    {
      SplitListOk(items, p, n);
      if first.Some? { SplitHead(items, p, n, first.value); }
      items := SplitOf(items, p, n);
    }

    method Merge(p: nat)
      requires Valid() && 0 < p < |items| && Continues(items[p - 1], items[p])
      modifies `items
      ensures Valid() && items == Merged(old(items), p)
    {
      MergeKeeps(items, p);
      if first.Some? { MergeHead(items, p, first.value); }
      items := Merged(items, p);
    }
  }

  lemma SplitHead(items: seq<Item>, p: nat, n: nat, id: Id)
    requires NothingBefore(items, id) && ListOk(items) && p < |items| && 0 < n < items[p].len
    ensures NothingBefore(SplitOf(items, p, n), id)
  {
    var cut := SplitOf(items, p, n);
    var c :| 0 <= c < |items| && HeldAt(items, id, c);
    var c' := if c < p then c else if c > p then c + 1 else if id.clock < items[p].id.clock + n then p else p + 1;
    assert forall i :: 0 <= i < c' ==> cut[i].deleted == items[if i <= p then i else i - 1].deleted;
    assert c != p ==> cut[c'] == items[c];
    assert HeldAt(cut, id, c');
  }

  lemma MergeHead(items: seq<Item>, p: nat, id: Id)
    requires NothingBefore(items, id) && ListOk(items) && 0 < p < |items| && Continues(items[p - 1], items[p])
    ensures NothingBefore(Merged(items, p), id)
  {
    var whole := Merged(items, p);
    var c :| 0 <= c < |items| && HeldAt(items, id, c);
    var c' := if c < p then c else c - 1;
    assert forall i :: 0 <= i < c' ==> whole[i].deleted == items[i].deleted;
    assert HeldAt(whole, id, c');
  }
}
