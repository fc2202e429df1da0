/**
  The event of a list: a delta of retains, deletes and inserts computed from the list after
  a transaction and from what the transaction has recorded.  Applied to what the list
  showed before, it gives what the list shows now.
*/
module ArrayDelta {
  import opened Base
  import opened Faces
  import opened ListSteps
  import opened Moves
  import opened ListItems
  import opened SearchMarkers
  import opened Showing
  import opened Transactions

  datatype Op = Retain(n: nat) | Delete(n: nat) | Insert(units: seq<Id>)

  /** Applies a delta; what follows the last operation is kept. */
  function Apply(ops: seq<Op>, s: seq<Id>): seq<Id>
    decreases |ops|
  {
    if ops == [] then s
    else match ops[0]
      case Retain(n) => if n <= |s| then s[..n] + Apply(ops[1..], s[n..]) else s
      case Delete(n) => Apply(ops[1..], if n <= |s| then s[n..] else [])
      case Insert(units) => units + Apply(ops[1..], s)
  }

  /** What an operation takes and gives. */
  predicate OpTurns(op: Op, x: seq<Id>, y: seq<Id>) {
    match op
    case Retain(n) => n == |x| && x == y
    case Delete(n) => n == |x| && y == []
    case Insert(units) => x == [] && units == y
  }

  /** The operations take exactly `a` and give exactly `b`. */
  predicate Runs(ops: seq<Op>, a: seq<Id>, b: seq<Id>)
    decreases |ops|
  {
    if ops == [] then a == [] && b == []
    else match ops[0]
      case Retain(n) => n <= |a| && n <= |b| && a[..n] == b[..n] && Runs(ops[1..], a[n..], b[n..])
      case Delete(n) => n <= |a| && Runs(ops[1..], a[n..], b)
      case Insert(units) => |units| <= |b| && b[..|units|] == units && Runs(ops[1..], a, b[|units|..])
  }

  /** What the first operation takes of `a` and gives of `b`. */
  lemma FirstOp(ops: seq<Op>, a: seq<Id>, b: seq<Id>) returns (x: seq<Id>, y: seq<Id>, a': seq<Id>, b': seq<Id>)
    requires Runs(ops, a, b) && ops != []
    ensures OpTurns(ops[0], x, y) && a == x + a' && b == y + b' && Runs(ops[1..], a', b')
  {
    match ops[0]
    case Retain(n) => x, y, a', b' := a[..n], b[..n], a[n..], b[n..];
    case Delete(n) => x, y, a', b' := a[..n], [], a[n..], b;
    case Insert(units) => x, y, a', b' := [], units, a, b[|units|..];
  }

  /** An operation turns what it takes and leaves the rest to the others. */
  lemma ApplyFirst(ops: seq<Op>, x: seq<Id>, y: seq<Id>, s: seq<Id>)
    requires ops != [] && OpTurns(ops[0], x, y)
    ensures Apply(ops, x + s) == y + Apply(ops[1..], s)
  {
    assert (x + s)[..|x|] == x && (x + s)[|x|..] == s;
    if ops[0].Delete? { assert y + Apply(ops[1..], s) == Apply(ops[1..], s); }
    if ops[0].Insert? { assert x + s == s; }
  }

  /** An exact run leaves what follows alone. */
  lemma {:induction false} RunsApply(ops: seq<Op>, a: seq<Id>, b: seq<Id>, rest: seq<Id>)
    requires Runs(ops, a, b)
    ensures Apply(ops, a + rest) == b + rest
    decreases |ops|
  {
    if ops == [] {
      assert a + rest == rest && b + rest == rest;
    } else {
      var x, y, a', b' := FirstOp(ops, a, b);
      hide Runs, Apply, OpTurns;
      RunsApply(ops[1..], a', b', rest);
      ApplyFirst(ops, x, y, a' + rest);
      Regrouped(x, a', rest);
      Regrouped(y, b', rest);
    }
  }

  lemma Regrouped(x: seq<Id>, y: seq<Id>, z: seq<Id>)
    ensures x + (y + z) == x + y + z
  {
  }

  lemma PutFirst(op: Op, ops: seq<Op>, x: seq<Id>, y: seq<Id>, a: seq<Id>, b: seq<Id>)
    requires OpTurns(op, x, y) && Runs(ops, a, b)
    ensures Runs([op] + ops, x + a, y + b)
  {
    assert ([op] + ops)[1..] == ops;
    assert (x + a)[|x|..] == a && (y + b)[|y|..] == b && (x + a)[..|x|] == x && (y + b)[..|y|] == y;
    match op
    case Retain(n) =>
    case Delete(n) => assert y + b == b;
    case Insert(units) => assert x + a == a;
  }

  lemma RunsNil(a: seq<Id>, b: seq<Id>)
    ensures Runs([], a, b) <==> a == [] && b == []
  {
  }

  lemma {:induction false} RunsPush(ops: seq<Op>, op: Op, a: seq<Id>, b: seq<Id>, x: seq<Id>, y: seq<Id>)
    requires Runs(ops, a, b) && OpTurns(op, x, y)
    ensures Runs(ops + [op], a + x, b + y)
    decreases |ops|
  {
    hide Runs;
    if ops == [] {
      RunsNil(a, b);
      PutFirst(op, [], x, y, [], []);
      assert ops + [op] == [op] + [] && a + x == x + [] && b + y == y + [];
    } else {
      var x0, y0, a', b' := FirstOp(ops, a, b);
      RunsPush(ops[1..], op, a', b', x, y);
      PutFirst(ops[0], ops[1..] + [op], x0, y0, a' + x, b' + y);
      assert [ops[0]] + (ops[1..] + [op]) == ops + [op];
      assert x0 + (a' + x) == a + x && y0 + (b' + y) == b + y;
    }
  }

  /** Whether a slot showed something before the transaction. */
  predicate RenderedBefore(txn: Txn, items: seq<Item>, x: Item) {
    match x.content
    case Mark => false
    case Plain => LiveBefore(txn, x) && MovedByBefore(txn, x).None?
    case Move(target) =>
      LiveBefore(txn, x) && exists j :: 0 <= j < |items| && Covers(items[j], target) && LiveBefore(txn, items[j])
                                          && items[j].content.Plain? && MovedByBefore(txn, items[j]) == Some(x.id)
  }

  /** The units an item has to show. */
  function Units(x: Item): seq<Id> {
    if x.content.Move? then [x.content.target] else UnitIds(x.id, x.len)
  }

  /** Before and after, a moved item is one unit wide. */
  ghost predicate Sane(txn: Txn, items: seq<Item>) {
    ListOk(items) && forall k :: 0 <= k < |items| && WasThere(txn, items[k]) ==> ItemOk(Before(txn, items[k]))
  }

  /** A slot showed its units before the transaction exactly if the records say so. */
  lemma ShownBefore(txn: Txn, items: seq<Item>, k: nat)
    requires Sane(txn, items) && k < |items| && WasThere(txn, items[k])
    ensures Shown(Earlier(txn, items), Before(txn, items[k])) ==
            if RenderedBefore(txn, items, items[k]) then Units(items[k]) else []
  {
    var pre, x := Earlier(txn, items), items[k];
    var y := Before(txn, x);
    if x.content.Move? && LiveBefore(txn, x) {
      assert Wins(pre, y) <==> RenderedBefore(txn, items, x) by {
        if Wins(pre, y) {
          var j :| 0 <= j < |pre| && ShownBy(pre[j], y);
          EarlierHas(txn, items, pre[j]);
          var i :| 0 <= i < |items| && WasThere(txn, items[i]) && pre[j] == Before(txn, items[i]);
          assert ItemOk(Before(txn, items[i])) && Covers(items[i], x.content.target);
        }
        if RenderedBefore(txn, items, x) {
          var i :| 0 <= i < |items| && Covers(items[i], x.content.target) && LiveBefore(txn, items[i])
                   && items[i].content.Plain? && MovedByBefore(txn, items[i]) == Some(x.id);
          EarlierHas(txn, items, Before(txn, items[i]));
          var j :| 0 <= j < |pre| && pre[j] == Before(txn, items[i]);
          assert ShownBy(pre[j], y);
        }
      }
    }
  }

  /** What the slots of a list showed before. */
  function OldUnits(txn: Txn, items: seq<Item>, k: nat): seq<Id>
    requires k <= |items|
  {
    if k == 0 then []
    else OldUnits(txn, items, k - 1) + (if RenderedBefore(txn, items, items[k - 1]) then Units(items[k - 1]) else [])
  }

  /** What the items of `list` show in `all`. */
  function ShownAll(all: seq<Item>, list: seq<Item>): seq<Id> {
    if list == [] then [] else Shown(all, list[0]) + ShownAll(all, list[1..])
  }

  lemma {:induction false} ShownAllConcat(all: seq<Item>, x: seq<Item>, y: seq<Item>)
    ensures ShownAll(all, x + y) == ShownAll(all, x) + ShownAll(all, y)
    decreases |x|
  {
    hide Shown;
    if x == [] {
      assert x + y == y;
    } else {
      assert (x + y)[1..] == x[1..] + y;
      ShownAllConcat(all, x[1..], y);
    }
  }

  lemma {:induction false} ShownAllRendered(all: seq<Item>, p: nat)
    requires p <= |all|
    ensures ShownAll(all, all[p..]) == Rendered(all, p, |all|)
    decreases |all| - p
  {
    hide Shown;
    if p < |all| {
      ShownAllRendered(all, p + 1);
      RenderedHead(all, p);
      assert all[p..][1..] == all[p + 1..];
    }
  }

  /** The list before the transaction showed what the records say. */
  lemma {:induction false} OldUnitsRight(txn: Txn, items: seq<Item>, k: nat)
    requires Sane(txn, items) && k <= |items|
    ensures ShownAll(Earlier(txn, items), Earlier(txn, items[..k])) == OldUnits(txn, items, k)
    decreases k
  {
    hide Sane, Shown, RenderedBefore, Earlier;
    var pre := Earlier(txn, items);
    if k == 0 {
      EarlierNone(txn);
    } else {
      var x := items[k - 1];
      OldUnitsRight(txn, items, k - 1);
      assert items[..k] == items[..k - 1] + [x];
      EarlierConcat(txn, items[..k - 1], [x]);
      ShownAllConcat(pre, Earlier(txn, items[..k - 1]), Earlier(txn, [x]));
      OldSlot(txn, items, k - 1);
    }
  }

  /** One slot: what it showed is what the records say. */
  lemma OldSlot(txn: Txn, items: seq<Item>, k: nat)
    requires Sane(txn, items) && k < |items|
    ensures ShownAll(Earlier(txn, items), Earlier(txn, [items[k]])) ==
            if RenderedBefore(txn, items, items[k]) then Units(items[k]) else []
  {
    hide Sane, Shown, Earlier;
    var x := items[k];
    EarlierOne(txn, x);
    if WasThere(txn, x) {
      ShownBefore(txn, items, k);
      ShownOne(Earlier(txn, items), Before(txn, x));
    }
  }

  lemma EarlierNone(txn: Txn)
    ensures Earlier(txn, []) == []
  {
  }

  lemma ShownOne(all: seq<Item>, x: Item)
    ensures ShownAll(all, [x]) == Shown(all, x)
  {
    assert ShownAll(all, []) == [];
  }

  // ---------------------------------------------------------------------- the delta

  /** What has been worked off: `kept` units are retained but not written yet. */
  ghost predicate Progress(ops: seq<Op>, old_: seq<Id>, new_: seq<Id>, kept: seq<Id>) {
    exists a, b :: old_ == a + kept && new_ == b + kept && Runs(ops, a, b)
  }

  lemma KeepMore(ops: seq<Op>, old_: seq<Id>, new_: seq<Id>, kept: seq<Id>, u: seq<Id>)
    requires Progress(ops, old_, new_, kept)
    ensures Progress(ops, old_ + u, new_ + u, kept + u)
  {
    var a, b :| old_ == a + kept && new_ == b + kept && Runs(ops, a, b);
    assert old_ + u == a + (kept + u) && new_ + u == b + (kept + u);
  }

  /** Writes what is retained, then one more operation. */
  lemma WriteOp(ops: seq<Op>, old_: seq<Id>, new_: seq<Id>, kept: seq<Id>, op: Op, x: seq<Id>, y: seq<Id>)
    requires Progress(ops, old_, new_, kept) && OpTurns(op, x, y)
    ensures Progress((if |kept| > 0 then ops + [Retain(|kept|)] else ops) + [op], old_ + x, new_ + y, [])
  {
    var a, b :| old_ == a + kept && new_ == b + kept && Runs(ops, a, b);
    hide Runs;
    var flushed := if |kept| > 0 then ops + [Retain(|kept|)] else ops;
    assert Runs(flushed, old_, new_) by {
      if |kept| > 0 { RunsPush(ops, Retain(|kept|), a, b, kept, kept); } else { assert old_ == a && new_ == b; }
    }
    RunsPush(flushed, op, old_, new_, x, y);
    assert old_ + x == (old_ + x) + [] && new_ + y == (new_ + y) + [];
  }

  /** How many units a delta deletes. */
  function Taken(ops: seq<Op>): nat {
    if ops == [] then 0
    else var op := ops[|ops| - 1]; Taken(ops[..|ops| - 1]) + (if op.Delete? then op.n else 0)
  }

  /** The units a delta inserts. */
  function Given(ops: seq<Op>): seq<Id> {
    if ops == [] then []
    else var op := ops[|ops| - 1]; Given(ops[..|ops| - 1]) + (if op.Insert? then op.units else [])
  }

  /** How many units were in slots that show nothing any more. */
  function Gone(txn: Txn, items: seq<Item>, k: nat): nat
    requires k <= |items|
  {
    if k == 0 then 0
    else
      var x := items[k - 1];
      Gone(txn, items, k - 1) + (if RenderedBefore(txn, items, x) && Width(items, x) == 0 then |Units(x)| else 0)
  }

  /** The units of slots that showed nothing before. */
  function Came(txn: Txn, items: seq<Item>, k: nat): seq<Id>
    requires k <= |items|
  {
    if k == 0 then []
    else
      var x := items[k - 1];
      Came(txn, items, k - 1) + (if !RenderedBefore(txn, items, x) && Width(items, x) > 0 then Units(x) else [])
  }

  /** Retains are not empty, are not split in two, and do not come last. */
  predicate Tidy(ops: seq<Op>) {
    forall i :: 0 <= i < |ops| && ops[i].Retain? ==> ops[i].n > 0 && i + 1 < |ops| && !ops[i + 1].Retain?
  }

  lemma WriteTidy(ops: seq<Op>, retain: nat, op: Op)
    requires Tidy(ops) && !op.Retain?
    ensures var ops' := (if retain > 0 then ops + [Retain(retain)] else ops) + [op];
            && Tidy(ops') && Taken(ops') == Taken(ops) + (if op.Delete? then op.n else 0)
            && Given(ops') == Given(ops) + (if op.Insert? then op.units else [])
  {
    var flushed := if retain > 0 then ops + [Retain(retain)] else ops;
    assert (flushed + [op])[..|flushed|] == flushed;
    assert retain > 0 ==> flushed[..|ops|] == ops;
    assert Given(ops) + [] == Given(ops);
  }

  /**
    The delta of a transaction, applied to what was shown before, gives what is shown now.
    It touches only slots that changed: it deletes the units of those that stopped showing
    and inserts the units of those that started to.
  */
  method ComputeDelta(txn: Txn, items: seq<Item>) returns (ops: seq<Op>)
    requires Sane(txn, items)
    ensures var pre := Earlier(txn, items);
            Apply(ops, Rendered(pre, 0, |pre|)) == Rendered(items, 0, |items|)
    ensures Taken(ops) == Gone(txn, items, |items|) && Given(ops) == Came(txn, items, |items|) && Tidy(ops)
  {
    ops := [];
    var retain := 0;
    ghost var kept: seq<Id> := [];
    var k := 0;
    DeltaStart(txn, items);
    hide Worked;
    while k < |items|
      invariant 0 <= k <= |items| && retain == |kept| && Worked(txn, items, k, ops, kept)
    {
      ops, retain, kept := DeltaStep(txn, items, k, ops, retain, kept);
      k := k + 1;
    }
    Finish(txn, items, ops, kept);
  }

  /** The slots before `k` are worked off. */
  ghost predicate Worked(txn: Txn, items: seq<Item>, k: nat, ops: seq<Op>, kept: seq<Id>)
    requires k <= |items|
  {
    && Progress(ops, OldUnits(txn, items, k), ShownAll(items, items[..k]), kept)
    && Taken(ops) == Gone(txn, items, k) && Given(ops) == Came(txn, items, k) && Tidy(ops)
  }

  lemma DeltaStart(txn: Txn, items: seq<Item>)
    ensures Worked(txn, items, 0, [], [])
  {
    assert Runs([], [], []);
    var none: seq<Id> := [];
    assert Progress([], [], [], []) by { assert none == none + []; }
    assert OldUnits(txn, items, 0) == [] && ShownAll(items, items[..0]) == [];
  }

  /** One slot. */
  method DeltaStep(txn: Txn, items: seq<Item>, k: nat, ops: seq<Op>, retain: nat, ghost kept: seq<Id>)
    returns (ops': seq<Op>, retain': nat, ghost kept': seq<Id>)
    requires k < |items| && retain == |kept| && Worked(txn, items, k, ops, kept)
    ensures retain' == |kept'| && Worked(txn, items, k + 1, ops', kept')
  {
    hide Progress, OldUnits, ShownAll, Runs, Taken, Given, Gone, Came, Tidy, Width, RenderedBefore;
    ops', retain', kept' := ops, retain, kept;
    var x := items[k];
    var before, after := RenderedBefore(txn, items, x), Width(items, x) > 0;
    ghost var old_, new_ := OldUnits(txn, items, k), ShownAll(items, items[..k]);
    Next(txn, items, k, ops);
    if before && after {
      KeepMore(ops, old_, new_, kept, Units(x));
      kept' := kept + Units(x);
      retain' := retain + |Units(x)|;
    } else if before {
      WriteOp(ops, old_, new_, kept, Delete(|Units(x)|), Units(x), []);
      WriteTidy(ops, retain, Delete(|Units(x)|));
      ops' := (if retain > 0 then ops + [Retain(retain)] else ops) + [Delete(|Units(x)|)];
      kept', retain' := [], 0;
    } else if after {
      WriteOp(ops, old_, new_, kept, Insert(Units(x)), [], Units(x));
      WriteTidy(ops, retain, Insert(Units(x)));
      ops' := (if retain > 0 then ops + [Retain(retain)] else ops) + [Insert(Units(x))];
      kept', retain' := [], 0;
    }
  }

  lemma Next(txn: Txn, items: seq<Item>, k: nat, ops: seq<Op>)
    requires k < |items|
    ensures var x := items[k];
            && OldUnits(txn, items, k + 1) ==
               OldUnits(txn, items, k) + (if RenderedBefore(txn, items, x) then Units(x) else [])
            && ShownAll(items, items[..k + 1]) ==
               ShownAll(items, items[..k]) + (if Width(items, x) > 0 then Units(x) else [])
            && OldUnits(txn, items, k) + [] == OldUnits(txn, items, k)
            && ShownAll(items, items[..k]) + [] == ShownAll(items, items[..k])
            && Given(ops) + [] == Given(ops)
            && Gone(txn, items, k + 1) == Gone(txn, items, k)
                 + (if RenderedBefore(txn, items, x) && Width(items, x) == 0 then |Units(x)| else 0)
            && Came(txn, items, k + 1) == Came(txn, items, k)
                 + (if !RenderedBefore(txn, items, x) && Width(items, x) > 0 then Units(x) else [])
  {
    assert items[..k + 1] == items[..k] + [items[k]];
    ShownAllConcat(items, items[..k], [items[k]]);
    ShownOne(items, items[k]);
  }

  lemma Finish(txn: Txn, items: seq<Item>, ops: seq<Op>, kept: seq<Id>)
    requires Sane(txn, items)
    requires Worked(txn, items, |items|, ops, kept)
    ensures var pre := Earlier(txn, items); Apply(ops, Rendered(pre, 0, |pre|)) == Rendered(items, 0, |items|)
    ensures Taken(ops) == Gone(txn, items, |items|) && Given(ops) == Came(txn, items, |items|) && Tidy(ops)
  {
    var pre := Earlier(txn, items);
    var a, b :| OldUnits(txn, items, |items|) == a + kept
        && ShownAll(items, items[..|items|]) == b + kept && Runs(ops, a, b);
    RunsApply(ops, a, b, kept);
    OldUnitsRight(txn, items, |items|);
    ShownAllRendered(pre, 0);
    ShownAllRendered(items, 0);
    assert items[..|items|] == items == items[0..] && pre[0..] == pre;
  }

  // -------------------------------------------------------------- whole transactions

  lemma RecordsSane(txn: Txn, halves: seq<Id>, items: seq<Item>, start: seq<Item>)
    requires ListOk(items) && TxnOk(txn, halves, items, start)
    ensures Sane(txn, items) && All(Earlier(txn, items)) == All(start)
  {
    forall k | 0 <= k < |items| && WasThere(txn, items[k])
      ensures ItemOk(Before(txn, items[k]))
    {
      assert PieceOk(txn, start, items[k]) && ItemOk(items[k]);
      var i :| 0 <= i < |start| && Piece(txn, items[k], start[i]);
      assert ItemOk(start[i]);
    }
  }

  /** At any moment of a transaction, the delta turns what the list showed when it began into what it shows now. */
  method Event(list: Arbiter) returns (ops: seq<Op>)
    requires list.Valid()
    ensures Apply(ops, All(list.start)) == All(list.items)
    ensures Taken(ops) == Gone(list.txn, list.items, |list.items|)
    ensures Given(ops) == Came(list.txn, list.items, |list.items|) && Tidy(ops)
  {
    RecordsSane(list.txn, list.halves, list.items, list.start);
    hide Sane, TxnOk, Inv, PendingOk;
    ops := ComputeDelta(list.txn, list.items);
  }

  function Now(list: Arbiter): State
    reads list
  {
    State(Spots(list.items), list.clocks)
  }

  /** Makes an item start at a place, the end of the list included. */
  method CutAt(list: Arbiter, at: nat) returns (q: nat)
    requires list.Valid() && at <= |Spots(list.items)|
    modifies list`items, list`halves
    ensures list.Valid() && Now(list) == old(Now(list))
    ensures q <= |list.items| && |Spots(list.items[..q])| == at
  {
    hide Inv, PendingOk, TxnOk, Clocked, LiveLength, Slots, Spots, Steady, SplitOf;
    q := 0;
    var before := 0;
    NoSpots(list.items);
    while before < at
      invariant q <= |list.items| && before == |Spots(list.items[..q])| <= at
      invariant list.items == old(list.items) && list.halves == old(list.halves)
      decreases at - before
    {
      SpotsEnd(list.items, q);
      SpotsAround(list.items, q);
      var x := list.items[q];
      if before + |SpotsOf(x)| > at {
        CutHere(list, q, at - before);
        return q + 1;
      }
      NotEmpty(list, q);
      before := before + |SpotsOf(x)|;
      q := q + 1;
    }
  }

  method CutHere(list: Arbiter, q: nat, n: nat)
    requires list.Valid() && q < |list.items| && 0 < n < |SpotsOf(list.items[q])|
    modifies list`items, list`halves
    ensures list.Valid() && Now(list) == old(Now(list))
    ensures q < |list.items| && |Spots(list.items[..q + 1])| == |Spots(old(list.items)[..q])| + n
    ensures list.items[..q] == old(list.items)[..q] && |SpotsOf(list.items[q])| == n
  {
    hide Inv, PendingOk, TxnOk, Clocked, LiveLength, Slots, Spots, Steady;
    SplitSpots(list.items, q, n);
    list.CutElement(q, n);
  }

  /** Deletes what lies between two places, item by item. */
  method EraseRange(list: Arbiter, from: nat, to: nat)
    requires list.Valid() && Fits(Now(list), Erase(from, to))
    modifies list
    ensures list.Valid() && list.start == old(list.start) && Now(list) == Stepped(old(Now(list)), Erase(from, to))
  {
    hide Inv, PendingOk, TxnOk, Clocked, LiveLength, Slots, Spots, SpotsOf, Erased;
    ghost var spots := Spots(list.items);
    var q: nat := CutAt(list, from);
    var pos: nat := from;
    ErasedMore(spots, from, from, from);
    while pos < to
      invariant from <= pos <= to && list.Valid() && list.start == old(list.start)
      invariant q <= |list.items| && |Spots(list.items[..q])| == pos
      invariant Now(list) == State(Erased(spots, from, pos), old(list.clocks))
    {
      SpotsEnd(list.items, q);
      if pos + |SpotsOf(list.items[q])| > to {
        CutHere(list, q, to - pos);
      }
      var n := |SpotsOf(list.items[q])|;
      SpotsAround(list.items, q);
      NotEmpty(list, q);
      ErasedAt(spots, from, pos, list.items, q);
      EraseItem(list, q);
      ErasedMore(spots, from, pos, pos + n);
      pos, q := pos + n, q + 1;
    }
  }

  method EraseItem(list: Arbiter, k: nat)
    requires list.Valid() && k < |list.items| && !list.items[k].content.Mark?
    modifies list
    ensures list.Valid() && list.start == old(list.start) && k < |list.items| && list.clocks == old(list.clocks)
    ensures var p := |Spots(old(list.items)[..k])|;
            && Spots(list.items) == Erased(old(Spots(list.items)), p, p + |SpotsOf(old(list.items)[k])|)
            && |Spots(list.items[..k + 1])| == p + |SpotsOf(old(list.items)[k])|
  {
    hide Inv, PendingOk, TxnOk, Clocked, LiveLength, Slots, Spots, Erased;
    if list.items[k].content.Move? {
      list.DeleteMove(k);
    } else {
      list.DeleteElement(k);
    }
    EraseSpots(old(list.items), list.items, k);
    SpotsAround(list.items, k);
  }

  /** One step, if it fits. */
  method Do(list: Arbiter, step: Step)
    requires list.Valid() && Fits(Now(list), step)
    modifies list
    ensures list.Valid() && list.start == old(list.start) && Now(list) == Stepped(old(Now(list)), step)
  {
    hide Inv, PendingOk, TxnOk, Clocked, LiveLength, Slots, Spots, SpotsOf, LiveUnit, UnitIds, Erased;
    match step
    case Element(at, x) =>
      var q := CutAt(list, at);
      SpotsCut(list.items, q);
      list.IntegrateElement(q, x);
    case MoveHere(at, m) =>
      var q := CutAt(list, at);
      SpotsCut(list.items, q);
      FitsItems(list.items, m);
      list.IntegrateMove(q, m);
    case Divide(at) =>
      var q := CutAt(list, at);
    case Erase(from, to) => EraseRange(list, from, to);
  }

  /**
    A whole transaction, with its steps in any order: elements and moves arrive, items are
    cut and deleted, movers change, and the commit settles and merges.  The list then has the
    face that the steps give it and shows what the face says, and the event turns what the
    list showed before into that.
  */
  method Transact(list: Arbiter, steps: seq<Step>) returns (ops: seq<Op>)
    requires list.Valid()
    modifies list
    ensures list.Valid() && Settled(list.items) && list.length == |All(list.items)|
    ensures Now(list) == SteppedAll(old(Now(list)), steps) && All(list.items) == Show(Spots(list.items))
    ensures Apply(ops, All(old(list.items))) == All(list.items) && Tidy(ops)
  {
    hide Inv, PendingOk, TxnOk, Clocked, LiveLength, Slots, Settled, All, Fits, Spots, Stepped, Show, SameLive;
    list.Begin();
    var i := 0;
    assert steps[..0] == [] && SteppedAll(Now(list), []) == Now(list);
    while i < |steps|
      invariant 0 <= i <= |steps| && list.Valid() && list.start == old(list.items)
      invariant Now(list) == SteppedAll(old(Now(list)), steps[..i])
    {
      hide SteppedAll;
      SteppedNext(old(Now(list)), steps, i);
      SteppedUnfit(Now(list), steps[i]);
      if Fits(Now(list), steps[i]) {
        Do(list, steps[i]);
      }
      i := i + 1;
    }
    assert steps[..i] == steps;
    ghost var items := list.items;
    list.Commit();
    CommitSpots(items, list.items);
    list.MergeHalves();
    ShowsFace(list.items, list.pending);
    ops := Event(list);
  }

  lemma CommitSpots(items: seq<Item>, items': seq<Item>)
    requires SameShape(items, items') && forall i :: 0 <= i < |items| ==> items'[i].deleted == items[i].deleted
    ensures Spots(items') == Spots(items)
  {
    hide Spots;
    SameSpots(items, items');
  }

  lemma NoSpots(items: seq<Item>)
    ensures |Spots(items[..0])| == 0
  {
    assert items[..0] == [];
  }

  lemma SpotsEnd(items: seq<Item>, q: nat)
    requires q <= |items| && |Spots(items[..q])| < |Spots(items)|
    ensures q < |items|
  {
    hide Spots;
    assert items[..|items|] == items;
  }

  lemma NotEmpty(list: Arbiter, q: nat)
    requires list.Valid() && q < |list.items|
    ensures |SpotsOf(list.items[q])| > 0
  {
    hide PendingOk, TxnOk, Clocked;
    assert ItemOk(list.items[q]);
  }

  /** The first spot of an item is of its kind. */
  lemma ErasedAt(spots: seq<Spot>, from: nat, pos: nat, items: seq<Item>, q: nat)
    requires q < |items| && Spots(items) == Erased(spots, from, pos) && |Spots(items[..q])| == pos
    requires |SpotsOf(items[q])| > 0
    ensures pos < |spots| && spots[pos].content == items[q].content
  {
    hide Spots;
    SpotsAround(items, q);
    assert SpotsOf(items[q])[0].content == items[q].content;
    assert Spots(items)[pos] == SpotsOf(items[q])[0];
  }

  /** What fits the face fits the items. */
  lemma FitsItems(items: seq<Item>, m: Item)
    requires m.content.Move?
    requires forall i :: 0 <= i < |Spots(items)| && SpotCovers(Spots(items)[i], m.content.target) ==>
               Spots(items)[i].content.Plain?
    requires forall i :: 0 <= i < |Spots(items)| && Spots(items)[i].content.Move? ==>
               !Covers(m, Spots(items)[i].content.target)
    ensures TargetOk(items, m)
    ensures forall i :: 0 <= i < |items| && items[i].content.Move? ==> !Covers(m, items[i].content.target)
  {
    hide Spots;
    forall k | 0 <= k < |items|
      ensures Covers(items[k], m.content.target) ==> items[k].content.Plain?
      ensures items[k].content.Move? ==> !Covers(m, items[k].content.target)
    {
      if !items[k].content.Plain? {
        var s := SpotsOf(items[k])[0];
        var i := ItemSpot(items, k, s);
      }
    }
  }
}
