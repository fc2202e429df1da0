/**
  Deletes from other peers.  A delete names ranges of clocks; what is integrated is marked
  at once, the rest is parked until it arrives.  No delete is lost and none is kept longer
  than it has to.
*/
module DeleteSets {
  import opened Base
  import opened AttrRanges
  import opened IdSets

  /** A stored item as far as deletes see it. */
  datatype Span = Span(clock: nat, len: nat, dead: bool)

  /** The items of one client cover its clocks from 0 on without gaps. */
  ghost predicate Gapless(items: seq<Span>) {
    && (forall k :: 0 <= k < |items| ==> items[k].len > 0)
    && (items != [] ==> items[0].clock == 0)
    && forall j, k {:trigger items[j], items[k]} :: 0 <= j < |items| && k == j + 1 && k < |items| ==>
         items[k].clock == items[j].clock + items[j].len
  }

  function Next(items: seq<Span>): nat {
    if items == [] then 0 else items[|items| - 1].clock + items[|items| - 1].len
  }

  predicate Inside(s: Span, c: nat) {
    s.clock <= c < s.clock + s.len
  }

  predicate DeadAt(items: seq<Span>, c: nat) {
    exists k :: 0 <= k < |items| && Inside(items[k], c) && items[k].dead
  }

  lemma {:induction false} Ascending(items: seq<Span>, i: nat, j: nat)
    requires Gapless(items) && i < j < |items|
    ensures items[i].clock + items[i].len <= items[j].clock
    decreases j
  {
    if i < j - 1 { Ascending(items, i, j - 1); }
  }

  // ------------------------------------------------------------------- splitting

  /** The first item that ends after `c`, by bisection. */
  method Search(items: seq<Span>, c: nat) returns (lo: nat)
    requires Gapless(items)
    ensures lo <= |items| && (forall k :: 0 <= k < lo ==> items[k].clock + items[k].len <= c)
    ensures forall k :: lo <= k < |items| ==> items[k].clock + items[k].len > c
  {
    lo := 0;
    var hi := |items|;
    while lo < hi
      invariant 0 <= lo <= hi <= |items|
      invariant forall k :: 0 <= k < lo ==> items[k].clock + items[k].len <= c
      invariant forall k :: hi <= k < |items| ==> items[k].clock + items[k].len > c
    {
      var mid := (lo + hi) / 2;
      if items[mid].clock + items[mid].len > c {
        forall k | mid < k < |items|
          ensures items[k].clock + items[k].len > c
        {
          Ascending(items, mid, k);
        }
        hi := mid;
      } else {
        forall k | 0 <= k < mid
          ensures items[k].clock + items[k].len <= c
        {
          Ascending(items, k, mid);
        }
        lo := mid + 1;
      }
    }
  }

  /** The same clocks, dead where they were dead. */
  ghost predicate SameUnits(x: seq<Span>, y: seq<Span>) {
    Next(x) == Next(y) && forall c: nat {:trigger DeadAt(x, c)} {:trigger DeadAt(y, c)} :: DeadAt(x, c) <==>
      DeadAt(y, c)
  }

  /** An item starts at `c`, or `c` is not integrated. */
  ghost predicate CleanAt(items: seq<Span>, c: nat) {
    forall k :: 0 <= k < |items| ==> !(items[k].clock < c < items[k].clock + items[k].len)
  }

  function Split(items: seq<Span>, p: nat, n: nat): seq<Span>
    requires p < |items| && 0 < n < items[p].len
  {
    var s := items[p];
    items[..p] + [s.(len := n), Span(s.clock + n, s.len - n, s.dead)] + items[p + 1..]
  }

  lemma SplitKeeps(items: seq<Span>, p: nat, n: nat)
    requires Gapless(items) && p < |items| && 0 < n < items[p].len
    ensures Gapless(Split(items, p, n)) && SameUnits(items, Split(items, p, n))
  {
    var items' := Split(items, p, n);
    SplitGapless(items, p, n);
    forall c: nat
      ensures DeadAt(items, c) <==> DeadAt(items', c)
    {
      SplitDead(items, p, n, c);
    }
  }

  lemma SplitGapless(items: seq<Span>, p: nat, n: nat)
    requires Gapless(items) && p < |items| && 0 < n < items[p].len
    ensures Gapless(Split(items, p, n)) && Next(Split(items, p, n)) == Next(items)
  {
    var items' := Split(items, p, n);
    forall j, k | 0 <= j < |items'| && k == j + 1 && k < |items'|
      ensures items'[k].clock == items'[j].clock + items'[j].len
    {
      SplitLink(items, p, n, j);
    }
    assert |items'| - 1 > p + 1 ==> items'[|items'| - 1] == items[|items| - 1];
  }

  lemma SplitLink(items: seq<Span>, p: nat, n: nat, j: nat)
    requires Gapless(items) && p < |items| && 0 < n < items[p].len && j < |items|
    ensures var items' := Split(items, p, n); items'[j + 1].clock == items'[j].clock + items'[j].len
  {
    var items' := Split(items, p, n);
    var k := j + 1;
    if k <= p {
      assert items'[j] == items[j] && items'[k].clock == items[k].clock;
      assert items[k].clock == items[j].clock + items[j].len;
    } else if j > p {
      assert items'[k] == items[k - 1] && items'[j].clock + items'[j].len == items[j - 1].clock + items[j - 1].len;
      assert items[k - 1].clock == items[j - 1].clock + items[j - 1].len;
    }
  }

  lemma SplitDead(items: seq<Span>, p: nat, n: nat, c: nat)
    requires p < |items| && 0 < n < items[p].len
    ensures DeadAt(items, c) <==> DeadAt(Split(items, p, n), c)
  {
    var items' := Split(items, p, n);
    if DeadAt(items, c) {
      var k :| 0 <= k < |items| && Inside(items[k], c) && items[k].dead;
      var k' := if k < p then k else if k > p then k + 1 else if c < items[p].clock + n then p else p + 1;
      assert k != p ==> items'[k'] == items[k];
      assert Inside(items'[k'], c) && items'[k'].dead;
    }
    if DeadAt(items', c) {
      var k :| 0 <= k < |items'| && Inside(items'[k], c) && items'[k].dead;
      var k' := if k <= p then k else k - 1;
      assert k != p && k != p + 1 ==> items'[k] == items[k'];
      assert Inside(items[k'], c) && items[k'].dead;
    }
  }

  /** Splits the item that contains `c`, if one does and does not start there. */
  method CleanStart(items: seq<Span>, c: nat) returns (items': seq<Span>)
    requires Gapless(items)
    ensures Gapless(items') && SameUnits(items, items') && CleanAt(items', c)
    ensures forall d: nat :: CleanAt(items, d) ==> CleanAt(items', d)
  {
    var p := Search(items, c);
    if p == |items| || items[p].clock >= c {
      forall k | 0 <= k < |items|
        ensures !(items[k].clock < c < items[k].clock + items[k].len)
      {
        if k > p { Ascending(items, p, k); }
      }
      return items;
    }
    var n := c - items[p].clock;
    SplitKeeps(items, p, n);
    items' := Split(items, p, n);
    SplitClean(items, p, n);
  }

  /** A cut makes a boundary and keeps the others. */
  lemma SplitClean(items: seq<Span>, p: nat, n: nat)
    requires Gapless(items) && p < |items| && 0 < n < items[p].len
    ensures CleanAt(Split(items, p, n), items[p].clock + n)
    ensures forall d: nat :: CleanAt(items, d) ==> CleanAt(Split(items, p, n), d)
  {
    var items', c := Split(items, p, n), items[p].clock + n;
    forall k | 0 <= k < |items'|
      ensures !(items'[k].clock < c < items'[k].clock + items'[k].len)
      ensures forall d: nat :: CleanAt(items, d) ==> !(items'[k].clock < d < items'[k].clock + items'[k].len)
    {
      var j := if k <= p then k else k - 1;
      assert k != p && k != p + 1 ==> items'[k] == items[j];
      if j > p { Ascending(items, p, j); }
      if j < p { Ascending(items, j, p); }
    }
  }

  // ------------------------------------------------------------------ applying

  /** What a range of deletes does: its integrated clocks are dead, nothing else changes. */
  ghost predicate Deletes(items: seq<Span>, items': seq<Span>, r: Range) {
    && Gapless(items') && Next(items') == Next(items)
    && forall c: nat {:trigger DeadAt(items', c)} :: DeadAt(items', c) <==>
      DeadAt(items, c) || (Covers(r, c) && c < Next(items))
  }

  /** The part of a range that is not integrated. */
  function Beyond(r: Range, next: nat): seq<Range> {
    if r.clock + r.len <= next then []
    else if r.clock >= next then [r]
    else [Range(next, r.clock + r.len - next, r.attrs)]
  }

  /** Marks the items of a range whose ends are clean, from `lo` on. */
  method MarkDead(items: seq<Span>, r: Range, lo: nat) returns (items': seq<Span>, applied: nat)
    requires Gapless(items) && r.len > 0 && CleanAt(items, r.clock) && CleanAt(items, r.clock + r.len)
    requires lo <= |items| && (forall k :: 0 <= k < lo ==> items[k].clock + items[k].len <= r.clock)
    requires forall k :: lo <= k < |items| ==> items[k].clock + items[k].len > r.clock
    ensures Deletes(items, items', r)
    ensures r.clock + applied == if Next(items) <= r.clock then r.clock else Min(Next(items), r.clock + r.len)
  {
    items' := items;
    applied := 0;
    var i := lo;
    while i < |items| && items[i].clock < r.clock + r.len
      invariant lo <= i <= |items| == |items'|
      invariant forall k :: 0 <= k < |items| ==>
                  items'[k] == if lo <= k < i then items[k].(dead := true) else items[k]
      invariant forall k :: lo <= k < i ==>
                  r.clock <= items[k].clock && items[k].clock + items[k].len <= r.clock + r.len
      invariant applied == if i == lo then 0 else items[i - 1].clock + items[i - 1].len - r.clock
    {
      assert r.clock <= items[i].clock && items[i].clock + items[i].len <= r.clock + r.len;
      items' := items'[i := items[i].(dead := true)];
      applied := items[i].clock + items[i].len - r.clock;
      i := i + 1;
    }
    forall k | i <= k < |items|
      ensures items[k].clock >= r.clock + r.len
    {
      if k > i { Ascending(items, i, k); }
    }
    MarkedDead(items, items', r, lo, i);
    MarkedEnd(items, r, lo, i);
  }

  /** The marking stops at the end of the range, or where nothing is integrated. */
  lemma MarkedEnd(items: seq<Span>, r: Range, lo: nat, i: nat)
    requires Gapless(items) && r.len > 0 && lo <= i <= |items| && CleanAt(items, r.clock + r.len)
    requires forall k :: 0 <= k < lo ==> items[k].clock + items[k].len <= r.clock
    requires forall k :: lo <= k < |items| ==> items[k].clock + items[k].len > r.clock
    requires forall k :: lo <= k < i ==> r.clock <= items[k].clock && items[k].clock + items[k].len <= r.clock + r.len
    requires i < |items| ==> items[i].clock >= r.clock + r.len
    ensures (if i == lo then r.clock else items[i - 1].clock + items[i - 1].len) ==
            if Next(items) <= r.clock then r.clock else Min(Next(items), r.clock + r.len)
  {
    if i < |items| {
      assert i > 0 ==> items[i].clock == items[i - 1].clock + items[i - 1].len;
      if i + 1 < |items| { Ascending(items, i, |items| - 1); }
    }
  }

  lemma MarkedDead(items: seq<Span>, items': seq<Span>, r: Range, lo: nat, i: nat)
    requires Gapless(items) && |items'| == |items| && lo <= i <= |items|
    requires forall k :: 0 <= k < |items| ==> items'[k] == if lo <= k < i then items[k].(dead := true) else items[k]
    requires forall k :: 0 <= k < lo ==> items[k].clock + items[k].len <= r.clock
    requires forall k :: lo <= k < i ==> r.clock <= items[k].clock && items[k].clock + items[k].len <= r.clock + r.len
    requires forall k :: i <= k < |items| ==> items[k].clock >= r.clock + r.len
    ensures Deletes(items, items', r)
  {
    assert Gapless(items') by {
      hide DeadAt, Inside;
      assert forall k :: 0 <= k < |items| ==> items'[k].clock == items[k].clock && items'[k].len == items[k].len;
    }
    forall c: nat
      ensures DeadAt(items', c) <==> DeadAt(items, c) || (Covers(r, c) && c < Next(items))
    {
      MarkedAt(items, items', r, lo, i, c);
    }
  }

  lemma MarkedAt(items: seq<Span>, items': seq<Span>, r: Range, lo: nat, i: nat, c: nat)
    requires Gapless(items) && |items'| == |items| && lo <= i <= |items|
    requires forall k :: 0 <= k < |items| ==> items'[k] == if lo <= k < i then items[k].(dead := true) else items[k]
    requires forall k :: 0 <= k < lo ==> items[k].clock + items[k].len <= r.clock
    requires forall k :: lo <= k < i ==> r.clock <= items[k].clock && items[k].clock + items[k].len <= r.clock + r.len
    requires forall k :: i <= k < |items| ==> items[k].clock >= r.clock + r.len
    ensures DeadAt(items', c) <==> DeadAt(items, c) || (Covers(r, c) && c < Next(items))
  {
    if DeadAt(items', c) {
      var k :| 0 <= k < |items'| && Inside(items'[k], c) && items'[k].dead;
      if k < |items| - 1 { Ascending(items, k, |items| - 1); }
      assert Inside(items[k], c) && (k < lo || k >= i ==> items[k].dead);
    }
    if DeadAt(items, c) {
      var k :| 0 <= k < |items| && Inside(items[k], c) && items[k].dead;
      assert Inside(items'[k], c) && items'[k].dead;
    }
    if Covers(r, c) && c < Next(items) {
      var k := ItemAt(items, c);
      assert Inside(items'[k], c) && items'[k].dead;
    }
  }

  lemma {:induction false} ItemAt(items: seq<Span>, c: nat) returns (k: nat)
    requires Gapless(items) && c < Next(items)
    ensures k < |items| && Inside(items[k], c)
    decreases |items|
  {
    var n := |items| - 1;
    if items[n].clock <= c {
      k := n;
    } else {
      assert n > 0 && items[n].clock == items[n - 1].clock + items[n - 1].len;
      var init := items[..n];
      k := ItemAt(init, c);
    }
  }

  /** Applies one range: the integrated part is marked, the rest comes back to be parked. */
  method ApplyRange(items: seq<Span>, r: Range) returns (items': seq<Span>, parked: seq<Range>)
    requires Gapless(items)
    ensures Deletes(items, items', r)
    ensures parked == if r.len == 0 then [] else Beyond(r, Next(items))
  {
    if r.len == 0 {
      return items, [];
    }
    if items == [] {
      return items, [r];
    }
    var s := CleanStart(items, r.clock);
    var t := CleanStart(s, r.clock + r.len);
    var lo := Search(t, r.clock);
    var applied;
    items', applied := MarkDead(t, r, lo);
    assert Deletes(items, items', r) by {
      forall c: nat
        ensures DeadAt(items', c) <==> DeadAt(items, c) || (Covers(r, c) && c < Next(items))
      {
        assert DeadAt(items, c) <==> DeadAt(s, c);
        assert DeadAt(s, c) <==> DeadAt(t, c);
      }
    }
    parked := if applied < r.len then [Range(r.clock + applied, r.len - applied, r.attrs)] else [];
  }

  /** Applies the ranges of one client in turn. */
  method ApplyRanges(items: seq<Span>, ranges: seq<Range>) returns (items': seq<Span>, parked: seq<Range>)
    requires Gapless(items)
    ensures Gapless(items') && Next(items') == Next(items)
    ensures forall c: nat :: DeadAt(items', c) <==> DeadAt(items, c) || (In(ranges, c) && c < Next(items))
    ensures forall c: nat :: In(parked, c) <==> In(ranges, c) && c >= Next(items)
    ensures forall k :: 0 <= k < |parked| ==> parked[k].len > 0
    ensures (forall k :: 0 <= k < |ranges| ==> ranges[k].attrs == []) ==> forall k :: 0 <= k < |parked| ==>
              parked[k].attrs == []
  {
    items', parked := items, [];
    var i := 0;
    while i < |ranges|
      invariant 0 <= i <= |ranges| && Gapless(items') && Next(items') == Next(items)
      invariant forall c: nat :: DeadAt(items', c) <==> DeadAt(items, c) || (In(ranges[..i], c) && c < Next(items))
      invariant forall c: nat :: In(parked, c) <==> In(ranges[..i], c) && c >= Next(items)
      invariant forall k :: 0 <= k < |parked| ==> parked[k].len > 0
      invariant (forall k :: 0 <= k < |ranges| ==> ranges[k].attrs == []) ==> forall k :: 0 <= k < |parked| ==>
                  parked[k].attrs == []
    {
      hide Gapless, DeadAt, In;
      var r := ranges[i];
      ghost var before, kept := items', parked;
      var rest;
      items', rest := ApplyRange(items', r);
      parked := parked + rest;
      assert ranges[..i + 1] == ranges[..i] + [r];
      forall c: nat
        ensures In(ranges[..i + 1], c) <==> In(ranges[..i], c) || Covers(r, c)
        ensures In(parked, c) <==> In(kept, c) || (Covers(r, c) && c >= Next(items))
      {
        InPush(ranges[..i], r, c);
        InConcat(kept, rest, c);
        BeyondIn(r, Next(items), c);
        InNil(c);
      }
      i := i + 1;
    }
    assert ranges[..i] == ranges;
  }

  lemma BeyondIn(r: Range, next: nat, c: nat)
    ensures In(Beyond(r, next), c) <==> Covers(r, c) && c >= next
  {
    InNil(c);
    AtOne(r, c, None);
    if r.clock < next < r.clock + r.len {
      AtOne(Range(next, r.clock + r.len - next, r.attrs), c, None);
    }
  }

  // ------------------------------------------------------------------- the store

  type Ranges = map<nat, seq<Range>>

  /** Every range is a real one. */
  predicate Plain(ds: Ranges) {
    forall c :: c in ds ==> AllOk(ds[c]) && forall k :: 0 <= k < |ds[c]| ==> ds[c][k].attrs == []
  }

  /** Sorts ranges and merges those that touch or overlap. */
  method SortAndCompact(ranges: seq<Range>) returns (out: seq<Range>)
    requires AllOk(ranges) && forall k :: 0 <= k < |ranges| ==> ranges[k].attrs == []
    ensures Gapped(out) && forall c: nat :: In(out, c) <==> In(ranges, c)
  {
    var s := SortByClock(ranges);
    out := MergeSorted(s);
    forall c: nat
      ensures In(out, c) <==> In(ranges, c)
    {
      assert In(s, c) <==> In(out, c);
      assert At(ranges, c, None) == At(s, c, None);
    }
  }

  type Slices = map<nat, seq<Span>>

  /** A new item; it may arrive deleted. */
  datatype New = New(client: nat, len: nat, dead: bool)

  function ItemsOf(clients: Slices, client: nat): seq<Span> {
    if client in clients then clients[client] else []
  }

  /** What applying the ranges `r` does to the items of a client. */
  ghost predicate Applied(items: seq<Span>, items': seq<Span>, r: seq<Range>) {
    && Next(items') == Next(items)
    && forall c: nat {:trigger DeadAt(items', c)} :: DeadAt(items', c) <==>
      DeadAt(items, c) || (In(r, c) && c < Next(items))
  }

  ghost predicate AppliedAt(before: Slices, after: Slices, ds: Ranges, client: nat) {
    Applied(ItemsOf(before, client), ItemsOf(after, client), Of(ds, client))
  }

  /** What was not integrated of a client's ranges. */
  ghost predicate RestAt(clients: Slices, ds: Ranges, rest: Ranges, client: nat) {
    forall c: nat {:trigger In(Of(rest, client), c)} ::
      In(Of(rest, client), c) <==> In(Of(ds, client), c) && c >= Next(ItemsOf(clients, client))
  }

  lemma NothingToApply(before: Slices, after: Slices, ds: Ranges, rest: Ranges, client: nat)
    requires client !in ds && client !in rest && ItemsOf(before, client) == ItemsOf(after, client)
    ensures AppliedAt(before, after, ds, client) && RestAt(after, ds, rest, client)
  {
    forall c: nat
      ensures !In(Of(ds, client), c) && !In(Of(rest, client), c)
    {
      InNil(c);
    }
  }

  method Enumerate(keys: set<nat>) returns (order: seq<nat>)
    ensures (forall c :: c in order <==> c in keys) && forall i, j :: 0 <= i < j < |order| ==> order[i] != order[j]
  {
    order := [];
    var todo := keys;
    while todo != {}
      invariant todo <= keys && (forall c :: c in order <==> c in keys - todo)
      invariant forall i, j :: 0 <= i < j < |order| ==> order[i] != order[j]
      decreases |todo|
    {
      var c :| c in todo;
      order := order + [c];
      todo := todo - {c};
    }
  }

  /** Every client's ranges sorted and compacted, and the clients in some order. */
  method SortAll(ds: Ranges) returns (sorted: Ranges, order: seq<nat>)
    requires Plain(ds)
    ensures Plain(sorted) && (forall c :: c in sorted <==> c in order) && sorted.Keys == ds.Keys
    ensures forall i, j :: 0 <= i < j < |order| ==> order[i] != order[j]
    ensures forall c: nat, k: nat {:trigger In(Of(sorted, c), k)} :: c in ds ==>
              (In(Of(sorted, c), k) <==> In(Of(ds, c), k))
  {
    order := Enumerate(ds.Keys);
    sorted := map[];
    var i := 0;
    while i < |order|
      invariant 0 <= i <= |order| && Plain(sorted)
      invariant forall c :: c in sorted <==> c in order[..i]
      invariant forall c: nat, k: nat {:trigger In(Of(sorted, c), k)} :: c in order[..i] ==>
                  (In(Of(sorted, c), k) <==> In(Of(ds, c), k))
    {
      var client := order[i];
      assert order[..i + 1] == order[..i] + [client];
      var out := SortAndCompact(ds[client]);
      ghost var before := sorted;
      sorted := sorted[client := out];
      forall c: nat, k: nat | c in order[..i + 1]
        ensures In(Of(sorted, c), k) <==> In(Of(ds, c), k)
      {
        assert c != client ==> Of(sorted, c) == Of(before, c);
      }
      i := i + 1;
    }
    assert order[..i] == order;
  }

  /** A delete that was in effect or parked still is after a retry. */
  lemma Retried(before: Slices, after: Slices, start: Ranges, sorted: Ranges, rest: Ranges, id: Id)
    requires AppliedAt(before, after, sorted, id.client) && RestAt(after, sorted, rest, id.client)
    requires id.client in start ==> (In(Of(sorted, id.client), id.clock) <==> In(Of(start, id.client), id.clock))
    requires id.client in sorted <==> id.client in start
    ensures DeadAt(ItemsOf(before, id.client), id.clock) || In(Of(start, id.client), id.clock) <==>
              DeadAt(ItemsOf(after, id.client), id.clock) || In(Of(rest, id.client), id.clock)
    ensures In(Of(rest, id.client), id.clock) ==> id.clock >= Next(ItemsOf(after, id.client))
  {
    InNil(id.clock);
    assert DeadAt(ItemsOf(after, id.client), id.clock) || !DeadAt(ItemsOf(after, id.client), id.clock);
  }

  class Store {
    var clients: Slices
    var pending: Ranges
    /** Every delete that ever arrived. */
    ghost var received: iset<Id>
    /** Units deleted here, or that arrived deleted. */
    ghost var own: iset<Id>

    ghost predicate Stored()
      reads this
    {
      (forall c :: c in clients ==> Gapless(clients[c])) && Plain(pending)
    }

    predicate Effective(id: Id)
      reads this
    {
      DeadAt(ItemsOf(clients, id.client), id.clock)
    }

    predicate Parked(id: Id)
      reads this
    {
      In(Of(pending, id.client), id.clock)
    }

    /** Every delete that arrived is in effect or still parked, and nothing else is, save what was deleted here. */
    ghost predicate Valid()
      reads this
    {
      Stored() && forall id: Id :: Accounted(id)
    }

    ghost predicate Accounted(id: Id)
      reads this
    {
      && (id in received || id in own <==> Effective(id) || Parked(id))
      && (Parked(id) ==> id in received) && (id in own ==> Effective(id))
    }

    /** Nothing parked could be applied. */
    ghost predicate NothingDue()
      reads this
    {
      forall id :: Parked(id) ==> id.clock >= Next(ItemsOf(clients, id.client))
    }

    constructor ()
      ensures Valid() && NothingDue() && clients == map[] && received == iset{} && own == iset{}
    {
      clients, pending, received, own := map[], map[], iset{}, iset{};
      new;
      forall id: Id
        ensures !Parked(id)
      {
        InNil(id.clock);
      }
    }

    /** Applies what is integrated and returns the rest. */
    method ApplyToPartial(ds: Ranges, order: seq<nat>) returns (rest: Ranges)
      requires forall c :: c in clients ==> Gapless(clients[c])
      requires (forall c :: c in ds <==> c in order) && forall i, j :: 0 <= i < j < |order| ==> order[i] != order[j]
      requires forall c :: c in ds ==> forall k :: 0 <= k < |ds[c]| ==> ds[c][k].attrs == []
      modifies `clients
      ensures (forall c :: c in clients ==> Gapless(clients[c])) && Plain(rest)
      ensures forall c: nat {:trigger AppliedAt(old(clients), clients, ds, c)} ::
                AppliedAt(old(clients), clients, ds, c)
      ensures forall c: nat {:trigger RestAt(clients, ds, rest, c)} :: RestAt(clients, ds, rest, c)
    {
      rest := map[];
      var i := 0;
      ghost var start := clients;
      while i < |order|
        invariant 0 <= i <= |order| && (forall c :: c in clients ==> Gapless(clients[c])) && Plain(rest)
        invariant forall c :: c in rest ==> c in order[..i]
        invariant forall c: nat {:trigger ItemsOf(clients, c)} :: c !in order[..i] ==>
                    ItemsOf(clients, c) == ItemsOf(start, c)
        invariant forall c: nat {:trigger AppliedAt(start, clients, ds, c)} :: c in order[..i] ==>
                    AppliedAt(start, clients, ds, c)
        invariant forall c: nat {:trigger RestAt(clients, ds, rest, c)} :: c in order[..i] ==>
                    RestAt(clients, ds, rest, c)
      {
        var client := order[i];
        assert client !in order[..i] && order[..i + 1] == order[..i] + [client];
        ghost var before, rest0 := clients, rest;
        var items, parked := ApplyRanges(ItemsOf(clients, client), ds[client]);
        clients := clients[client := items];
        if parked != [] {
          rest := rest[client := parked];
        }
        assert Of(rest, client) == parked;
        forall c: nat
          ensures c in order[..i + 1] ==> AppliedAt(start, clients, ds, c) && RestAt(clients, ds, rest, c)
          ensures c !in order[..i + 1] ==> ItemsOf(clients, c) == ItemsOf(start, c)
        {
          if c != client {
            assert ItemsOf(clients, c) == ItemsOf(before, c) && Of(rest, c) == Of(rest0, c);
            assert c in order[..i] ==> AppliedAt(start, before, ds, c) && RestAt(before, ds, rest0, c);
          }
        }
        i := i + 1;
      }
      assert order[..i] == order;
      forall c: nat
        ensures AppliedAt(start, clients, ds, c) && RestAt(clients, ds, rest, c)
      {
        if c !in order { NothingToApply(start, clients, ds, rest, c); }
      }
    }

    /** Parks what could not be applied with what is parked already. */
    method MergePending(other: Ranges)
      requires Plain(pending) && Plain(other)
      modifies `pending
      ensures Plain(pending)
      ensures forall c: nat, k: nat {:trigger In(Of(pending, c), k)} ::
                In(Of(pending, c), k) <==> In(Of(old(pending), c), k) || In(Of(other, c), k)
    {
      var todo := other.Keys;
      ghost var start := pending;
      while todo != {}
        invariant todo <= other.Keys && Plain(pending)
        invariant forall c: nat, k: nat {:trigger In(Of(pending, c), k)} ::
                    In(Of(pending, c), k) <==> In(Of(start, c), k) || (c !in todo && In(Of(other, c), k))
        decreases |todo|
      {
        var client :| client in todo;
        ghost var before := pending;
        var all := Of(pending, client) + other[client];
        var out := SortAndCompact(all);
        pending := pending[client := out];
        todo := todo - {client};
        forall c: nat, k: nat
          ensures In(Of(pending, c), k) <==> In(Of(start, c), k) || (c !in todo && In(Of(other, c), k))
        {
          assert In(Of(before, c), k) <==> In(Of(start, c), k) || (c !in todo + {client} && In(Of(other, c), k));
          if c == client {
            InConcat(Of(before, c), other[c], k);
            assert In(out, k) <==> In(all, k);
          }
        }
      }
      forall c: nat, k: nat
        ensures In(Of(pending, c), k) <==> In(Of(start, c), k) || In(Of(other, c), k)
      {
        if c !in other { InNil(k); }
      }
    }

    /** Tries the parked deletes again. */
    method RetryPending()
      requires Valid()
      modifies `clients, `pending
      ensures Valid() && NothingDue()
      ensures forall c: nat {:trigger ItemsOf(clients, c)} ::
                Next(ItemsOf(clients, c)) == Next(old(ItemsOf(clients, c)))
    {
      ghost var start, slices := pending, clients;
      var sorted, order := SortAll(pending);
      pending := ApplyToPartial(sorted, order);
      forall c: nat
        ensures Next(ItemsOf(clients, c)) == Next(ItemsOf(slices, c))
      {
        assert AppliedAt(slices, clients, sorted, c);
      }
      forall id: Id
        ensures Accounted(id)
        ensures Parked(id) ==> id.clock >= Next(ItemsOf(clients, id.client))
      {
        assert old(Accounted(id));
        assert AppliedAt(slices, clients, sorted, id.client) && RestAt(clients, sorted, pending, id.client);
        Retried(slices, clients, start, sorted, pending, id);
      }
    }

    /** A new item of a client arrives. */
    method Integrate(x: New)
      requires Valid() && x.len > 0
      modifies `clients, `own
      ensures Valid() && Grown(old(clients), clients, x.client, x.len)
      ensures forall c: nat {:trigger ItemsOf(clients, c)} :: c != x.client ==>
                ItemsOf(clients, c) == ItemsOf(old(clients), c)
      ensures own == old(own) + if x.dead then Units(x.client, Next(old(ItemsOf(clients, x.client))), x.len) else iset{}
    {
      hide DeadAt, Units, In, Gapless, Plain;
      var items := ItemsOf(clients, x.client);
      var start := Next(items);
      var items' := items + [Span(start, x.len, x.dead)];
      EmptyGapless();
      PushDead(items, items', start, x);
      ghost var before := clients;
      clients := clients[x.client := items'];
      if x.dead {
        own := own + Units(x.client, start, x.len);
      }
      hide Next;
      forall id: Id
        ensures Accounted(id)
      {
        assert old(Accounted(id));
        PushEffect(before, x, id);
      }
    }

    /** Units are deleted here: by an edit, or because a newer entry of their key came. */
    method DeleteHere(client: nat, clock: nat, len: nat)
      requires Valid() && clock + len <= Next(ItemsOf(clients, client))
      modifies `clients, `own
      ensures Valid() && own == old(own) + Units(client, clock, len)
      ensures forall c: nat {:trigger ItemsOf(clients, c)} ::
                Next(ItemsOf(clients, c)) == Next(old(ItemsOf(clients, c)))
    {
      var items, parked := ApplyRange(ItemsOf(clients, client), Range(clock, len, []));
      ghost var before := clients;
      clients := clients[client := items];
      own := own + Units(client, clock, len);
      forall id: Id
        ensures Accounted(id)
      {
        assert old(Accounted(id));
        assert id.client != client ==> ItemsOf(clients, id.client) == ItemsOf(before, id.client);
      }
    }

    method IntegrateAll(new_: seq<New>)
      requires Valid() && forall k :: 0 <= k < |new_| ==> new_[k].len > 0
      modifies `clients, `own
      ensures Valid() && (new_ == [] ==> clients == old(clients))
      ensures GrownBy(old(clients), clients, new_) && own == old(own) + DeadUnits(old(clients), new_)
    {
      var i := 0;
      assert new_[..0] == [];
      GrownNone(clients);
      DeadNone(clients);
      while i < |new_|
        invariant 0 <= i <= |new_| && Valid() && (i == 0 ==> clients == old(clients))
        invariant GrownBy(old(clients), clients, new_[..i]) && own == old(own) + DeadUnits(old(clients), new_[..i])
      {
        hide GrownBy, Stored, Effective, Parked, DeadUnits, Units;
        ghost var before := clients;
        Integrate(new_[i]);
        DeadNext(old(clients), before, new_, i);
        GrownNext(old(clients), before, clients, new_, i);
        i := i + 1;
      }
      assert new_[..i] == new_;
    }

    /**
      One update: its items are integrated, its deletes applied or parked, and the parked
      items are drained in passes.  Afterwards nothing parked is due, and deleted are exactly
      the units that were deleted here or arrived deleted, and the integrated ones of all
      deletes that ever arrived.
    */
    method Apply(first: seq<New>, ds: Ranges, order: seq<nat>, passes: seq<seq<New>>)
      requires Valid() && (forall k :: 0 <= k < |first| ==> first[k].len > 0)
      requires forall p :: 0 <= p < |passes| ==> forall k :: 0 <= k < |passes[p]| ==> passes[p][k].len > 0
      requires (forall c :: c in ds <==> c in order) && forall i, j :: 0 <= i < j < |order| ==> order[i] != order[j]
      requires forall c :: c in ds ==> forall k :: 0 <= k < |ds[c]| ==> ds[c][k].attrs == []
      modifies this
      ensures Valid() && NothingDue()
      ensures received == old(received) + iset id: Id | In(Of(ds, id.client), id.clock)
      ensures GrownBy(old(clients), clients, first + Flat(passes))
      ensures own == old(own) + DeadUnits(old(clients), first + Flat(passes))
      ensures forall id: Id {:trigger Effective(id)} ::
                Effective(id) <==> id in own || (id in received && id.clock < Next(ItemsOf(clients, id.client)))
    {
      hide GrownBy, Stored, Effective, Parked, AppliedAt, RestAt, Flat, DeadUnits;
      IntegrateAll(first);
      ghost var integrated := clients;
      ghost var all := received + iset id: Id | In(Of(ds, id.client), id.clock);
      Receive(ds, order);
      RetryPending();
      GrownSame(old(clients), integrated, clients, first);
      var p := 0;
      assert passes[..0] == [] && first + Flat([]) == first by { FlatNone(); }
      while p < |passes|
        invariant 0 <= p <= |passes| && Valid() && NothingDue() && received == all
        invariant GrownBy(old(clients), clients, first + Flat(passes[..p]))
        invariant own == old(own) + DeadUnits(old(clients), first + Flat(passes[..p]))
      {
        ghost var before := clients;
        DrainPass(passes[p]);
        DeadConcat(old(clients), before, first + Flat(passes[..p]), passes[p]);
        GrownMore(old(clients), before, clients, first + Flat(passes[..p]), passes[p]);
        FlatNext(first, passes, p);
        p := p + 1;
      }
      assert passes[..p] == passes;
      AllInEffect();
    }

    /** With nothing due, what is in effect is told by the accounts. */
    lemma AllInEffect()
      requires Valid() && NothingDue()
      ensures forall id: Id {:trigger Effective(id)} ::
                Effective(id) <==> id in own || (id in received && id.clock < Next(ItemsOf(clients, id.client)))
    {
      forall id: Id
        ensures Effective(id) <==> id in own || (id in received && id.clock < Next(ItemsOf(clients, id.client)))
      {
        hide DeadAt, In;
        assert Accounted(id);
        if Effective(id) { DeadBelow(ItemsOf(clients, id.client), id.clock); }
      }
    }

    /** One pass over the parked items. */
    method DrainPass(pass: seq<New>)
      requires Valid() && NothingDue() && forall k :: 0 <= k < |pass| ==> pass[k].len > 0
      modifies `clients, `pending, `own
      ensures Valid() && NothingDue() && GrownBy(old(clients), clients, pass)
      ensures own == old(own) + DeadUnits(old(clients), pass)
    {
      hide GrownBy, Stored, Effective, DeadUnits;
      IntegrateAll(pass);
      ghost var middle := clients;
      if pass != [] {
        RetryPending();
        GrownSame(old(clients), middle, clients, pass);
      }
    }

    /** Deletes that arrive: the integrated ones take effect, the others are parked. */
    method Receive(ds: Ranges, order: seq<nat>)
      requires Valid()
      requires (forall c :: c in ds <==> c in order) && forall i, j :: 0 <= i < j < |order| ==> order[i] != order[j]
      requires forall c :: c in ds ==> forall k :: 0 <= k < |ds[c]| ==> ds[c][k].attrs == []
      modifies this
      ensures Valid() && received == old(received) + (iset id: Id | In(Of(ds, id.client), id.clock)) && own == old(own)
      ensures forall c: nat {:trigger ItemsOf(clients, c)} ::
                Next(ItemsOf(clients, c)) == Next(old(ItemsOf(clients, c)))
    {
      ghost var slices, parked := clients, pending;
      var rest := ApplyToPartial(ds, order);
      MergePending(rest);
      received := received + iset id: Id | In(Of(ds, id.client), id.clock);
      forall id: Id
        ensures Accounted(id)
      {
        assert old(Accounted(id));
        assert AppliedAt(slices, clients, ds, id.client) && RestAt(clients, ds, rest, id.client);
        assert Parked(id) <==> In(Of(parked, id.client), id.clock) || In(Of(rest, id.client), id.clock);
        assert Effective(id) || !Effective(id);
      }
      forall c: nat
        ensures Next(ItemsOf(clients, c)) == Next(ItemsOf(slices, c))
      {
        assert AppliedAt(slices, clients, ds, c);
      }
    }
  }

  /** The units of a stretch of clocks. */
  ghost function Units(client: nat, clock: nat, len: nat): iset<Id> {
    iset id: Id | id.client == client && clock <= id.clock < clock + len
  }

  lemma EmptyGapless()
    ensures Gapless([])
  {
  }

  lemma PushEffect(before: Slices, x: New, id: Id)
    requires Gapless(ItemsOf(before, x.client)) && x.len > 0
    ensures var items := ItemsOf(before, x.client);
            var after := before[x.client := items + [Span(Next(items), x.len, x.dead)]];
            DeadAt(ItemsOf(after, id.client), id.clock) <==>
              DeadAt(ItemsOf(before, id.client), id.clock) || (x.dead && id in Units(x.client, Next(items), x.len))
  {
    var items := ItemsOf(before, x.client);
    PushDead(items, items + [Span(Next(items), x.len, x.dead)], Next(items), x);
  }

  lemma PushDead(items: seq<Span>, items': seq<Span>, start: nat, x: New)
    requires Gapless(items) && start == Next(items) && x.len > 0 && items' == items + [Span(start, x.len, x.dead)]
    ensures Gapless(items') && Next(items') == start + x.len
    ensures forall c: nat :: DeadAt(items', c) <==> DeadAt(items, c) || (x.dead && start <= c < start + x.len)
  {
    assert forall k :: 0 <= k < |items| ==> items'[k] == items[k];
    forall c: nat
      ensures DeadAt(items', c) <==> DeadAt(items, c) || (x.dead && start <= c < start + x.len)
    {
      if DeadAt(items, c) {
        var k :| 0 <= k < |items| && Inside(items[k], c) && items[k].dead;
        assert Inside(items'[k], c) && items'[k].dead;
      }
      if x.dead && start <= c < start + x.len {
        assert Inside(items'[|items|], c) && items'[|items|].dead;
      }
    }
  }

  /** How many clocks of a client are among new items. */
  function Total(new_: seq<New>, c: nat): nat {
    if new_ == [] then 0
    else var x := new_[|new_| - 1]; Total(new_[..|new_| - 1], c) + (if x.client == c then x.len else 0)
  }

  lemma {:induction false} TotalConcat(x: seq<New>, y: seq<New>, c: nat)
    ensures Total(x + y, c) == Total(x, c) + Total(y, c)
    decreases |y|
  {
    if y == [] {
      assert x + y == x;
    } else {
      assert (x + y)[..|x + y| - 1] == x + y[..|y| - 1];
      TotalConcat(x, y[..|y| - 1], c);
    }
  }

  /** Item `k` of the new ones arrives dead, and `id` is a unit of it. */
  ghost predicate DeadAs(before: Slices, new_: seq<New>, k: nat, id: Id)
    requires k < |new_|
  {
    var x := new_[k];
    var start := Next(ItemsOf(before, x.client)) + Total(new_[..k], x.client);
    x.dead && id.client == x.client && start <= id.clock < start + x.len
  }

  /** The units of the new items that arrive dead, at the clocks they are given. */
  ghost function DeadUnits(before: Slices, new_: seq<New>): iset<Id> {
    iset id: Id | OneDead(before, new_, id)
  }

  ghost predicate OneDead(before: Slices, new_: seq<New>, id: Id) {
    exists k :: 0 <= k < |new_| && DeadAs(before, new_, k, id)
  }

  lemma DeadNone(before: Slices)
    ensures DeadUnits(before, []) == iset{}
  {
  }

  lemma DeadConcat(before: Slices, middle: Slices, x: seq<New>, y: seq<New>)
    requires GrownBy(before, middle, x)
    ensures DeadUnits(before, x + y) == DeadUnits(before, x) + DeadUnits(middle, y)
  {
    hide DeadUnits;
    forall id
      ensures id in DeadUnits(before, x + y) <==> id in DeadUnits(before, x) || id in DeadUnits(middle, y)
    {
      DeadEither(before, middle, x, y, id);
    }
  }

  lemma DeadEither(before: Slices, middle: Slices, x: seq<New>, y: seq<New>, id: Id)
    requires GrownBy(before, middle, x)
    ensures id in DeadUnits(before, x + y) <==> id in DeadUnits(before, x) || id in DeadUnits(middle, y)
  {
    hide DeadAs, GrownBy;
    if k :| 0 <= k < |x + y| && DeadAs(before, x + y, k, id) {
      if k < |x| {
        DeadFront(before, x, y, k, id);
      } else {
        DeadBehind(before, middle, x, y, k - |x|, id);
      }
    }
    if k :| 0 <= k < |x| && DeadAs(before, x, k, id) {
      DeadFront(before, x, y, k, id);
    }
    if k :| 0 <= k < |y| && DeadAs(middle, y, k, id) {
      DeadBehind(before, middle, x, y, k, id);
    }
  }

  lemma DeadFront(before: Slices, x: seq<New>, y: seq<New>, k: nat, id: Id)
    requires k < |x|
    ensures DeadAs(before, x + y, k, id) <==> DeadAs(before, x, k, id)
  {
    assert (x + y)[..k] == x[..k];
  }

  lemma DeadBehind(before: Slices, middle: Slices, x: seq<New>, y: seq<New>, k: nat, id: Id)
    requires GrownBy(before, middle, x) && k < |y|
    ensures DeadAs(before, x + y, |x| + k, id) <==> DeadAs(middle, y, k, id)
  {
    hide Next, ItemsOf, Total;
    var c := y[k].client;
    assert (x + y)[..|x| + k] == x + y[..k] && (x + y)[|x| + k] == y[k];
    TotalConcat(x, y[..k], c);
    assert Next(ItemsOf(middle, c)) == Next(ItemsOf(before, c)) + Total(x, c);
  }

  lemma DeadNext(before: Slices, middle: Slices, new_: seq<New>, i: nat)
    requires i < |new_| && GrownBy(before, middle, new_[..i])
    ensures DeadUnits(before, new_[..i + 1]) == DeadUnits(before, new_[..i]) +
              if new_[i].dead then Units(new_[i].client, Next(ItemsOf(middle, new_[i].client)), new_[i].len) else iset{}
  {
    assert new_[..i + 1] == new_[..i] + [new_[i]];
    DeadConcat(before, middle, new_[..i], [new_[i]]);
    DeadOne(middle, new_[i]);
  }

  lemma DeadOne(before: Slices, x: New)
    ensures DeadUnits(before, [x]) == if x.dead then Units(x.client, Next(ItemsOf(before, x.client)), x.len) else iset{}
  {
    assert [x][..0] == [];
    forall id
      ensures id in DeadUnits(before, [x]) <==> DeadAs(before, [x], 0, id)
    {
    }
  }

  lemma DeadBelow(items: seq<Span>, c: nat)
    requires Gapless(items) && DeadAt(items, c)
    ensures c < Next(items)
  {
    var k :| 0 <= k < |items| && Inside(items[k], c) && items[k].dead;
    if k < |items| - 1 { Ascending(items, k, |items| - 1); }
  }

  function Flat(passes: seq<seq<New>>): seq<New> {
    if passes == [] then [] else Flat(passes[..|passes| - 1]) + passes[|passes| - 1]
  }

  lemma FlatNone()
    ensures Flat([]) == []
  {
  }

  lemma FlatNext(first: seq<New>, passes: seq<seq<New>>, p: nat)
    requires p < |passes|
    ensures first + Flat(passes[..p + 1]) == first + Flat(passes[..p]) + passes[p]
  {
    assert passes[..p + 1][..p] == passes[..p];
  }

  /** Every client's clocks grew by what `new_` has of them. */
  ghost predicate GrownBy(before: Slices, after: Slices, new_: seq<New>) {
    forall c: nat {:trigger ItemsOf(after, c)} :: Grown(before, after, c, Total(new_, c))
  }

  lemma GrownNone(clients: Slices)
    ensures GrownBy(clients, clients, [])
  {
    forall c: nat
      ensures Grown(clients, clients, c, Total([], c))
    {
      assert Total([], c) == 0;
    }
  }

  lemma GrownMore(before: Slices, middle: Slices, after: Slices, x: seq<New>, y: seq<New>)
    requires GrownBy(before, middle, x) && GrownBy(middle, after, y)
    ensures GrownBy(before, after, x + y)
  {
    hide Total, ItemsOf, Next;
    forall c: nat
      ensures Grown(before, after, c, Total(x + y, c))
    {
      assert Grown(before, middle, c, Total(x, c)) && Grown(middle, after, c, Total(y, c));
      TotalConcat(x, y, c);
    }
  }

  lemma GrownSame(before: Slices, middle: Slices, after: Slices, x: seq<New>)
    requires GrownBy(before, middle, x) && forall c: nat {:trigger ItemsOf(after, c)} ::
               Next(ItemsOf(after, c)) == Next(ItemsOf(middle, c))
    ensures GrownBy(before, after, x)
  {
    hide Total, ItemsOf, Next;
    forall c: nat
      ensures Grown(before, after, c, Total(x, c))
    {
      assert Grown(before, middle, c, Total(x, c)) && Next(ItemsOf(after, c)) == Next(ItemsOf(middle, c));
    }
  }

  lemma GrownNext(before: Slices, middle: Slices, after: Slices, new_: seq<New>, i: nat)
    requires i < |new_| && GrownBy(before, middle, new_[..i]) && Grown(middle, after, new_[i].client, new_[i].len)
    requires forall c: nat {:trigger ItemsOf(after, c)} :: c != new_[i].client ==>
               ItemsOf(after, c) == ItemsOf(middle, c)
    ensures GrownBy(before, after, new_[..i + 1])
  {
    hide ItemsOf, Next;
    assert new_[..i + 1] == new_[..i] + [new_[i]];
    forall c: nat
      ensures Grown(middle, after, c, Total([new_[i]], c))
    {
      assert Total([new_[i]], c) == if new_[i].client == c then new_[i].len else 0 by { assert Total([], c) == 0; }
      assert c != new_[i].client ==> ItemsOf(after, c) == ItemsOf(middle, c);
    }
    GrownMore(before, middle, after, new_[..i], [new_[i]]);
  }

  /** The clocks of a client grew by `n`. */
  ghost predicate Grown(before: Slices, after: Slices, c: nat, n: nat) {
    Next(ItemsOf(after, c)) == Next(ItemsOf(before, c)) + n
  }
}
