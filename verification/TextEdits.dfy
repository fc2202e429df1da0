/**
  The edits of a rich text and the cleanups that remove redundant markers.  A cleanup
  deletes markers only; no live unit changes its attributes.
*/
module TextEdits {
  import opened Base
  import opened RichText

  function Live(nodes: seq<Node>): seq<Char> {
    View(nodes, map[])
  }

  predicate IsLiveRun(n: Node) {
    !n.deleted && n.content.Run?
  }

  predicate IsLiveMark(n: Node, key: Key) {
    !n.deleted && n.content.Mark? && n.content.key == key
  }

  // ---------------------------------------------------------- redundant markers

  /** No unit reads the value of `key` before it is set again. */
  predicate Unread(nodes: seq<Node>, key: Key) {
    nodes == [] || IsLiveMark(nodes[0], key) || (!IsLiveRun(nodes[0]) && Unread(nodes[1..], key))
  }

  lemma {:induction false} UnreadShowsNothing(nodes: seq<Node>, key: Key, a: Attrs, val: Option<Value>)
    requires Unread(nodes, key)
    ensures View(nodes, Put(a, key, val)) == View(nodes, a)
    decreases |nodes|
  {
    if nodes != [] {
      var n, b := nodes[0], Put(a, key, val);
      if IsLiveMark(n, key) {
        SameAttrs(Pass(b, n), Pass(a, n));
      } else {
        if !n.deleted {
          SameAttrs(Pass(b, n), Put(Pass(a, n), key, val));
        }
        UnreadShowsNothing(nodes[1..], key, Pass(a, n), val);
      }
    }
  }

  /** Deleting a marker does not show if its value is in effect anyway or is not read. */
  lemma DeleteMark(nodes: seq<Node>, i: nat)
    requires i < |nodes| && !nodes[i].deleted && nodes[i].content.Mark?
    requires Get(After(nodes[..i], map[]), nodes[i].content.key) == nodes[i].content.val
             || Unread(nodes[i + 1..], nodes[i].content.key)
    ensures Live(nodes[i := nodes[i].(deleted := true)]) == Live(nodes)
  {
    var n, d := nodes[i], nodes[i].(deleted := true);
    var a := After(nodes[..i], map[]);
    assert nodes == nodes[..i] + ([n] + nodes[i + 1..]);
    assert nodes[i := d] == nodes[..i] + ([d] + nodes[i + 1..]);
    ViewConcat(nodes[..i], [n] + nodes[i + 1..], map[]);
    ViewConcat(nodes[..i], [d] + nodes[i + 1..], map[]);
    ViewHead([n] + nodes[i + 1..], a);
    ViewHead([d] + nodes[i + 1..], a);
    if Unread(nodes[i + 1..], n.content.key) {
      UnreadShowsNothing(nodes[i + 1..], n.content.key, a, n.content.val);
    } else {
      SameAttrs(Put(a, n.content.key, n.content.val), a);
    }
  }

  /** Only markers were deleted, and nothing shows it. */
  ghost predicate Cleaned(nodes: seq<Node>, nodes': seq<Node>) {
    && |nodes'| == |nodes| && Live(nodes') == Live(nodes)
    && forall i :: 0 <= i < |nodes| ==>
         nodes'[i] == nodes[i] || (nodes[i].content.Mark? && nodes'[i] == nodes[i].(deleted := true))
  }

  lemma CleanedStep(nodes: seq<Node>, nodes': seq<Node>, i: nat)
    requires Cleaned(nodes, nodes') && i < |nodes'| && nodes'[i].content.Mark?
    requires Live(nodes'[i := nodes'[i].(deleted := true)]) == Live(nodes')
    ensures Cleaned(nodes, nodes'[i := nodes'[i].(deleted := true)])
  {
  }

  lemma UnreadCons(nodes: seq<Node>, i: nat, key: Key)
    requires i < |nodes| && !IsLiveRun(nodes[i]) && (IsLiveMark(nodes[i], key) || Unread(nodes[i + 1..], key))
    ensures Unread(nodes[i..], key)
  {
    assert nodes[i..][1..] == nodes[i + 1..];
  }

  /** Deleting markers leaves all units where they are. */
  lemma {:induction false} CleanedStock(nodes: seq<Node>, nodes': seq<Node>)
    requires Cleaned(nodes, nodes')
    ensures Stock(nodes') == Stock(nodes)
  {
    SameStock(nodes, nodes');
  }

  lemma {:induction false} SameStock(nodes: seq<Node>, nodes': seq<Node>)
    requires |nodes'| == |nodes| && forall i :: 0 <= i < |nodes| ==> UnitsOf(nodes'[i]) == UnitsOf(nodes[i])
    ensures Stock(nodes') == Stock(nodes)
    decreases |nodes|
  {
    hide UnitsOf;
    if nodes != [] {
      SameStock(nodes[1..], nodes'[1..]);
    }
  }

  lemma NoStock(nodes: seq<Node>)
    ensures Stock([]) + Stock(nodes) == Stock(nodes)
  {
  }

  lemma StockPassed(done: seq<Node>, rest: seq<Node>, n: Node)
    requires rest != [] && UnitsOf(n) == UnitsOf(rest[0])
    ensures Stock(done + [n]) + Stock(rest[1..]) == Stock(done) + Stock(rest)
  {
    var right := [n] + rest[1..];
    assert right[0] == n && right[1..] == rest[1..];
    StockForward(done, right);
  }

  lemma StockCut(done: seq<Node>, rest: seq<Node>, n: nat, cut: Node, y: Node)
    requires rest != [] && rest[0].content.Run? && n <= |rest[0].content.units|
    requires cut.content == Run(rest[0].content.units[..n]) && y == Node(Run(rest[0].content.units[n..]), false)
    ensures Stock(done + [cut] + ([y] + rest[1..])) == Stock(done) + Stock(rest)
  {
    var a, back := Node(cut.content, false), [y] + rest[1..];
    StockSplit(rest[0], n, rest[1..]);
    assert [rest[0]] + rest[1..] == rest && [a, y] + rest[1..] == [a] + back;
    StockConcat(done + [cut], back);
    StockPassed(done, [a] + back, cut);
    assert ([a] + back)[1..] == back;
  }

  lemma StockSkip(left: seq<Node>, right: seq<Node>, k: nat, units: seq<Unit>) returns (at: nat)
    requires k <= |right|
    ensures PutIn(Stock(left) + Stock(right), at, units,
                  Stock(left + right[..k] + [Node(Run(units), false)] + right[k..]))
    ensures at == |Stock(left + right[..k])|
  {
    hide Stock, UnitsOf, PutIn;
    var l, r, n := left + right[..k], right[k..], Node(Run(units), false);
    CutParts(right, k, n);
    StockConcat(left, right[..k]);
    StockConcat(right[..k], r);
    StockConcat(l + [n], r);
    StockPassed(l, [n] + r, n);
    StockInsert(l, units, r);
    at := |Stock(l)|;
    Rejoin(Stock(left), Stock(right[..k]), Stock(r));
    PutThere(Stock(l), Stock(r), units);
  }

  lemma CutParts(right: seq<Node>, k: nat, n: Node)
    requires k <= |right|
    ensures right == right[..k] + right[k..] && ([n] + right[k..])[1..] == right[k..] && ([n] + right[k..])[0] == n
  {
  }

  lemma Rejoin(a: seq<Unit>, b: seq<Unit>, c: seq<Unit>)
    ensures a + (b + c) == (a + b) + c
  {
  }

  lemma PutThere(a: seq<Unit>, b: seq<Unit>, units: seq<Unit>)
    ensures PutIn(a + b, |a|, units, (a + b)[..|a|] + units + (a + b)[|a|..])
  {
  }

  lemma PutNothing(s: seq<Unit>)
    ensures s == s[..0] + [] + s[0..]
  {
  }

  lemma CleanedSame(nodes: seq<Node>)
    ensures Cleaned(nodes, nodes)
  {
  }

  // -------------------------------------------------------------- dangling markers

  /** Whether the nearest live marker of `key` before `i` sets a value. */
  method HasOpener(nodes: seq<Node>, i: nat, key: Key) returns (r: bool)
    requires i < |nodes|
    ensures r <==> Get(After(nodes[..i], map[]), key).Some?
  {
    var p := i;
    while p > 0
      invariant 0 <= p <= i
      invariant Get(After(nodes[..i], map[]), key) == Get(After(nodes[..p], map[]), key)
    {
      var n := nodes[p - 1];
      assert nodes[..p] == nodes[..p - 1] + [n];
      ViewOne(nodes[..p - 1], n, map[]);
      p := p - 1;
      if IsLiveMark(n, key) {
        return n.content.val.Some?;
      }
    }
    assert nodes[..0] == [];
    return false;
  }

  /** Whether a live unit follows `i` before the next live marker of `key`. */
  method HasContent(nodes: seq<Node>, i: nat, key: Key) returns (r: bool)
    requires i < |nodes|
    ensures r <==> !Unread(nodes[i + 1..], key)
  {
    var n := i + 1;
    while n < |nodes|
      invariant i < n <= |nodes|
      invariant Unread(nodes[i + 1..], key) == Unread(nodes[n..], key)
    {
      assert nodes[n..][1..] == nodes[n + 1..];
      if IsLiveMark(nodes[n], key) {
        return false;
      }
      if IsLiveRun(nodes[n]) {
        return true;
      }
      n := n + 1;
    }
    return false;
  }

  /** A marker that sets a value some unit reads, or clears one that is set. */
  ghost predicate Useful(nodes: seq<Node>, i: nat)
    requires i < |nodes|
  {
    !nodes[i].deleted && nodes[i].content.Mark? ==>
      if nodes[i].content.val.None? then Get(After(nodes[..i], map[]), nodes[i].content.key).Some?
      else !Unread(nodes[i + 1..], nodes[i].content.key)
  }

  lemma {:induction false} DeleteUnread(nodes: seq<Node>, j: nat, key: Key)
    requires j < |nodes| && nodes[j].content.Mark? && Unread(nodes[j := nodes[j].(deleted := true)], key)
    ensures Unread(nodes, key)
    decreases |nodes|
  {
    var nodes' := nodes[j := nodes[j].(deleted := true)];
    if j == 0 {
      assert nodes'[1..] == nodes[1..];
    } else if !IsLiveMark(nodes[0], key) {
      assert nodes'[1..] == nodes[1..][j - 1 := nodes[j].(deleted := true)];
      DeleteUnread(nodes[1..], j - 1, key);
    }
  }

  /** Deleting a later marker leaves a useful one useful. */
  lemma StaysUseful(nodes: seq<Node>, i: nat, k: nat)
    requires k < i < |nodes| && nodes[i].content.Mark? && Useful(nodes, k)
    ensures Useful(nodes[i := nodes[i].(deleted := true)], k)
  {
    var nodes' := nodes[i := nodes[i].(deleted := true)];
    assert nodes'[..k] == nodes[..k];
    assert nodes'[k + 1..] == nodes[k + 1..][i - k - 1 := nodes[i].(deleted := true)];
    if nodes[k].content.Mark? && Unread(nodes'[k + 1..], nodes[k].content.key) {
      DeleteUnread(nodes[k + 1..], i - k - 1, nodes[k].content.key);
    }
  }

  /**
    Deletes markers from `start` on that set a value nobody reads or clear a value that
    is not set; stops at the second live run.  Only useful markers are left behind.
  */
  method CleanDangling(nodes: seq<Node>, start: nat) returns (nodes': seq<Node>, stop: nat)
    requires start <= |nodes|
    ensures start <= stop <= |nodes| == |nodes'| && (stop < |nodes| ==> IsLiveRun(nodes[stop]))
    ensures Cleaned(nodes, nodes') && nodes'[..start] == nodes[..start] && nodes'[stop..] == nodes[stop..]
    ensures forall k: nat {:trigger Useful(nodes', k)} :: start <= k < stop ==> Useful(nodes', k)
    ensures forall i, j :: start <= i < j < stop ==> !(IsLiveRun(nodes[i]) && IsLiveRun(nodes[j]))
    ensures stop < |nodes| ==> exists i :: start <= i < stop && IsLiveRun(nodes[i])
  {
    hide Cleaned, Useful, DangleLoop;
    nodes' := nodes;
    stop := start;
    var seen := false;
    ghost var run := start;
    DangleStart(nodes, start);
    while stop < |nodes'| && !(seen && IsLiveRun(nodes'[stop]))
      invariant DangleLoop(nodes, nodes', start, stop) && start <= stop <= |nodes| == |nodes'|
      invariant seen ==> start <= run < stop && IsLiveRun(nodes[run])
      invariant forall i :: start <= i < stop && IsLiveRun(nodes[i]) ==> seen && i == run
    {
      ghost var before := nodes';
      DangleHere(nodes, nodes', start, stop);
      if IsLiveRun(nodes'[stop]) {
        seen := true;
        run := stop;
        RunUseful(nodes', stop);
      } else {
        nodes' := CleanOne(nodes, nodes', stop);
      }
      DangleNext(nodes, before, nodes', start, stop);
      stop := stop + 1;
    }
    DangleEnd(nodes, nodes', start, stop);
  }

  /** The markers from `start` to `stop` are useful, and nothing else has been touched. */
  ghost predicate DangleLoop(nodes: seq<Node>, now: seq<Node>, start: nat, stop: nat) {
    && start <= stop <= |now| == |nodes| && Cleaned(nodes, now)
    && (forall j :: 0 <= j < |nodes| && (j < start || j >= stop) ==> now[j] == nodes[j])
    && (forall k: nat {:trigger Useful(now, k)} :: start <= k < stop ==> Useful(now, k))
  }

  lemma DangleStart(nodes: seq<Node>, start: nat)
    requires start <= |nodes|
    ensures DangleLoop(nodes, nodes, start, start)
  {
    CleanedSame(nodes);
  }

  lemma DangleHere(nodes: seq<Node>, now: seq<Node>, start: nat, stop: nat)
    requires DangleLoop(nodes, now, start, stop) && stop < |now|
    ensures |now| == |nodes| && now[stop] == nodes[stop] && Cleaned(nodes, now)
  {
  }

  lemma DangleNext(nodes: seq<Node>, before: seq<Node>, now: seq<Node>, start: nat, stop: nat)
    requires DangleLoop(nodes, before, start, stop) && stop < |before| && Cleaned(nodes, now) && Useful(now, stop)
    requires now == before || (before[stop].content.Mark? && now == before[stop := before[stop].(deleted := true)])
    ensures DangleLoop(nodes, now, start, stop + 1)
  {
    hide Cleaned, Useful;
    forall k: nat | start <= k < stop
      ensures Useful(now, k)
    {
      assert Useful(before, k);
      if now != before { StaysUseful(before, stop, k); }
    }
  }

  lemma DangleEnd(nodes: seq<Node>, now: seq<Node>, start: nat, stop: nat)
    requires DangleLoop(nodes, now, start, stop)
    ensures |now| == |nodes| && now[..start] == nodes[..start] && now[stop..] == nodes[stop..] && Cleaned(nodes, now)
    ensures forall j :: stop <= j < |nodes| ==> now[j] == nodes[j]
    ensures forall k: nat {:trigger Useful(now, k)} :: start <= k < stop ==> Useful(now, k)
  {
  }

  lemma RunUseful(nodes: seq<Node>, i: nat)
    requires i < |nodes| && (nodes[i].deleted || nodes[i].content.Run?)
    ensures Useful(nodes, i)
  {
  }

  /** Deletes the marker at `i` if it is not useful. */
  method CleanOne(ghost start: seq<Node>, nodes: seq<Node>, i: nat) returns (nodes': seq<Node>)
    requires i < |nodes| && Cleaned(start, nodes) && !IsLiveRun(nodes[i])
    ensures Cleaned(start, nodes') && |nodes'| == |nodes| && Useful(nodes', i)
    ensures nodes' == nodes || (nodes[i].content.Mark? && nodes' == nodes[i := nodes[i].(deleted := true)])
  {
    nodes' := nodes;
    var n := nodes[i];
    if n.deleted {
      return;
    }
    var redundant;
    if n.content.val.None? {
      var opener := HasOpener(nodes, i, n.content.key);
      redundant := !opener;
    } else {
      var content := HasContent(nodes, i, n.content.key);
      redundant := !content;
    }
    if redundant {
      DeleteMark(nodes, i);
      CleanedStep(start, nodes, i);
      nodes' := nodes[i := n.(deleted := true)];
    }
  }

  // ------------------------------------------------------------ overwritten markers

  /** A live marker of `key` lies in `nodes[j + 1..hi]`. */
  ghost predicate Later(nodes: seq<Node>, j: int, hi: int, key: Key) {
    exists m :: j < m < hi && 0 <= m < |nodes| && IsLiveMark(nodes[m], key)
  }

  lemma LaterStep(nodes: seq<Node>, j: int, hi: int, key: Key)
    requires 0 <= j < hi <= |nodes|
    ensures Later(nodes, j - 1, hi, key) <==> IsLiveMark(nodes[j], key) || Later(nodes, j, hi, key)
  {
    if Later(nodes, j - 1, hi, key) {
      var m :| j - 1 < m < hi && 0 <= m < |nodes| && IsLiveMark(nodes[m], key);
      assert m == j || (j < m < hi && IsLiveMark(nodes[m], key));
    }
  }

  method GapEnd(nodes: seq<Node>, item: nat) returns (hi: nat)
    requires item < |nodes| && !IsLiveRun(nodes[item])
    ensures item < hi <= |nodes| && (hi < |nodes| ==> IsLiveRun(nodes[hi]))
    ensures forall j :: item <= j < hi ==> !IsLiveRun(nodes[j])
  {
    hi := item + 1;
    while hi < |nodes| && !IsLiveRun(nodes[hi])
      invariant item < hi <= |nodes| && forall j :: item <= j < hi ==> !IsLiveRun(nodes[j])
    {
      hi := hi + 1;
    }
  }

  /** A marker of the gap is live afterwards exactly if it was and no later one has its key. */
  ghost predicate LastKept(nodes: seq<Node>, nodes': seq<Node>, hi: int, j: nat)
    requires j < |nodes| == |nodes'|
  {
    nodes[j].content.Mark? ==>
      (nodes'[j].deleted <==> nodes[j].deleted || Later(nodes, j, hi, nodes[j].content.key))
  }

  lemma KeptStep(nodes: seq<Node>, before: seq<Node>, nodes': seq<Node>, hi: int, i: nat)
    requires i < hi <= |nodes| == |before| == |nodes'| && before[i] == nodes[i] && !IsLiveRun(nodes[i])
    requires nodes' == before[i := nodes'[i]] && nodes'[i] == nodes[i].(deleted := nodes'[i].deleted)
    requires nodes[i].content.Mark? ==>
               (nodes'[i].deleted <==> nodes[i].deleted || Later(nodes, i, hi, nodes[i].content.key))
    requires forall j: nat {:trigger LastKept(nodes, before, hi, j)} :: i < j < hi ==> LastKept(nodes, before, hi, j)
    ensures forall j: nat {:trigger LastKept(nodes, nodes', hi, j)} :: i <= j < hi ==> LastKept(nodes, nodes', hi, j)
    ensures nodes'[i + 1..] == before[i + 1..]
  {
    forall j: nat | i <= j < hi
      ensures LastKept(nodes, nodes', hi, j)
    {
      assert j > i ==> LastKept(nodes, before, hi, j);
    }
  }

  lemma SeenStep(nodes: seq<Node>, nodes': seq<Node>, seen: set<Key>, hi: int, i: nat)
    requires i < hi <= |nodes| == |nodes'| && !IsLiveRun(nodes[i]) && (nodes'[i] == nodes[i] || nodes'[i].deleted)
    requires nodes'[i].deleted && !nodes[i].deleted ==> nodes[i].content.key in seen
    requires forall k :: k in seen ==> Unread(nodes'[i + 1..], k)
    requires forall k :: k in seen <==> Later(nodes, i, hi, k)
    ensures var seen' := if nodes[i].deleted then seen else seen + {nodes[i].content.key};
            && (forall k :: k in seen' ==> Unread(nodes'[i..], k))
            && (forall k :: k in seen' <==> Later(nodes, i - 1, hi, k))
  {
    var seen' := if nodes[i].deleted then seen else seen + {nodes[i].content.key};
    hide Later, Unread;
    forall k
      ensures k in seen' <==> Later(nodes, i - 1, hi, k)
      ensures k in seen' ==> Unread(nodes'[i..], k)
    {
      LaterStep(nodes, i, hi, k);
      if k in seen' { UnreadCons(nodes', i, k); }
    }
  }

  /** The gap is cleaned behind `i`; `seen` holds the keys that have a live marker there. */
  ghost predicate GapState(nodes: seq<Node>, nodes': seq<Node>, seen: set<Key>, hi: nat, i: int) {
    && -1 <= i < hi <= |nodes| == |nodes'| && Cleaned(nodes, nodes')
    && (forall j :: i < j < hi ==> !IsLiveRun(nodes[j]))
    && (forall j :: 0 <= j < |nodes| && (j <= i || j >= hi) ==> nodes'[j] == nodes[j])
    && (forall k :: k in seen ==> Unread(nodes'[i + 1..], k))
    && (forall k :: k in seen <==> Later(nodes, i, hi, k))
    && (forall j: nat {:trigger LastKept(nodes, nodes', hi, j)} :: i < j < hi ==> LastKept(nodes, nodes', hi, j))
  }

  method GapStep(ghost nodes: seq<Node>, cleaned: seq<Node>, seen: set<Key>, ghost hi: nat, i: nat)
    returns (nodes': seq<Node>, seen': set<Key>)
    requires GapState(nodes, cleaned, seen, hi, i) && i < |cleaned| && !IsLiveRun(cleaned[i])
    ensures GapState(nodes, nodes', seen', hi, i - 1)
  {
    var n := cleaned[i];
    nodes', seen' := cleaned, seen;
    assert n == nodes[i];
    if !n.deleted {
      if n.content.key in seen {
        DeleteMark(cleaned, i);
        CleanedStep(nodes, cleaned, i);
        nodes' := cleaned[i := n.(deleted := true)];
        assert seen + {n.content.key} == seen;
      } else {
        seen' := seen + {n.content.key};
      }
    }
    hide Cleaned, Unread, Later, LastKept, Live;
    KeptStep(nodes, cleaned, nodes', hi, i) by {
      assert n.content.Mark? ==> (n.content.key in seen <==> Later(nodes, i, hi, n.content.key));
    }
    SeenStep(nodes, nodes', seen, hi, i);
  }

  /**
    Keeps exactly the last live marker of each key in the gap around `item`, the stretch
    of deleted items and markers between two live runs.
  */
  method CleanGapAround(nodes: seq<Node>, item: nat) returns (nodes': seq<Node>, lo: nat, hi: nat)
    requires item < |nodes| && !IsLiveRun(nodes[item])
    ensures |nodes'| == |nodes| && Cleaned(nodes, nodes')
    ensures lo <= item < hi <= |nodes| && forall j :: lo <= j < hi ==> !IsLiveRun(nodes[j])
    ensures (lo > 0 ==> IsLiveRun(nodes[lo - 1])) && (hi < |nodes| ==> IsLiveRun(nodes[hi]))
    ensures forall j :: 0 <= j < |nodes| && (j < lo || j >= hi) ==> nodes'[j] == nodes[j]
    ensures forall j: nat {:trigger LastKept(nodes, nodes', hi, j)} :: lo <= j < hi ==> LastKept(nodes, nodes', hi, j)
  {
    hi := GapEnd(nodes, item);
    var i: int := hi - 1;
    nodes' := nodes;
    var seen: set<Key> := {};
    CleanedSame(nodes);
    assert forall k :: !Later(nodes, i, hi, k);
    assert GapState(nodes, nodes', seen, hi, i);
    hide Cleaned, Unread, Later, LastKept, Live;
    while i >= 0 && !IsLiveRun(nodes'[i])
      invariant GapState(nodes, nodes', seen, hi, i)
    {
      nodes', seen := GapStep(nodes, nodes', seen, hi, i);
      i := i - 1;
    }
    lo := i + 1;
    assert lo > 0 ==> nodes'[i] == nodes[i];
  }

  /** Each attribute with the marker that set it. */
  type Setters = map<Key, nat>

  function SetBy(nodes: seq<Node>, s: Setters, key: Key): Option<Value> {
    if key in s && s[key] < |nodes| && nodes[s[key]].content.Mark? then nodes[s[key]].content.val else None
  }

  /** Equality by identity: scalars by value, a composite only with its own marker. */
  predicate Identical(nodes: seq<Node>, s: Setters, i: nat)
    requires i < |nodes| && nodes[i].content.Mark?
  {
    var key := nodes[i].content.key;
    var a, b := SetBy(nodes, s, key), nodes[i].content.val;
    if key in s && s[key] == i then true
    else if a.None? || b.None? then a == b
    else a == b && a.value.Scalar?
  }

  function Update(s: Setters, nodes: seq<Node>, i: nat): Setters
    requires i < |nodes| && nodes[i].content.Mark?
  {
    if nodes[i].content.val.None? then s - {nodes[i].content.key} else s[nodes[i].content.key := i]
  }

  /** The last live marker of each key between `start` and the next live run. */
  method EndFormats(nodes: seq<Node>, start: nat) returns (end: nat, last: Setters)
    requires start < |nodes|
    ensures start <= end <= |nodes| && forall j :: start <= j < end ==> !IsLiveRun(nodes[j])
    ensures end < |nodes| ==> IsLiveRun(nodes[end])
    ensures forall k :: k in last ==> start <= last[k] < end && IsLiveMark(nodes[last[k]], k)
    ensures forall j :: start <= j < end && !nodes[j].deleted ==>
              nodes[j].content.Mark? && nodes[j].content.key in last && j <= last[nodes[j].content.key]
  {
    end, last := start, map[];
    while end < |nodes| && !IsLiveRun(nodes[end])
      invariant start <= end <= |nodes| && forall j :: start <= j < end ==> !IsLiveRun(nodes[j])
      invariant forall k :: k in last ==> start <= last[k] < end && IsLiveMark(nodes[last[k]], k)
      invariant forall j :: start <= j < end && !nodes[j].deleted ==>
              nodes[j].content.Mark? && nodes[j].content.key in last && j <= last[nodes[j].content.key]
    {
      if !nodes[end].deleted {
        last := last[nodes[end].content.key := end];
      }
      end := end + 1;
    }
  }

  lemma {:induction false} UnreadUpTo(nodes: seq<Node>, i: nat, m: nat, key: Key)
    requires i <= m < |nodes| && IsLiveMark(nodes[m], key) && forall j :: i <= j < m ==> !IsLiveRun(nodes[j])
    ensures Unread(nodes[i..], key)
    decreases m - i
  {
    if i < m {
      assert nodes[i..][1..] == nodes[i + 1..];
      UnreadUpTo(nodes, i + 1, m, key);
    }
  }

  /** Before the last marker of a key is reached, the key has its value from the start of the gap. */
  ghost predicate Waiting(nodes: seq<Node>, start: nat, i: nat, last: Setters) {
    start <= i <= |nodes| &&
    forall k :: k in last && last[k] >= i ==> Get(After(nodes[..i], map[]), k) == Get(After(nodes[..start], map[]), k)
  }

  /**
    Deletes the markers of the gap at `start` that are overwritten within it or restate
    what is in effect there.  A gap that starts at a live run is left alone.
  */
  method CleanGap(nodes: seq<Node>, start: nat, curr: nat, startAttrs: Setters, curAttrs: Setters)
    returns (nodes': seq<Node>, curAttrs': Setters, end: nat)
    requires start < |nodes|
    requires IsLiveRun(nodes[start]) || forall k :: Get(After(nodes[..start], map[]), k) == SetBy(nodes, startAttrs, k)
    ensures start <= end <= |nodes| && (end < |nodes| ==> IsLiveRun(nodes[end]))
    ensures forall j :: start <= j < end ==> !IsLiveRun(nodes[j])
    ensures |nodes'| == |nodes| && Cleaned(nodes, nodes') && nodes'[..start] == nodes[..start]
    ensures nodes'[end..] == nodes[end..]
    ensures forall j: nat {:trigger GapExact(nodes, nodes', startAttrs, end, j)} :: start <= j < end ==>
              GapExact(nodes, nodes', startAttrs, end, j)
    ensures end == start ==> curAttrs' == curAttrs
    ensures start <= curr <= end && startAttrs == SettersAt(nodes, start) && curAttrs == SettersAt(nodes, curr) ==>
              forall k :: SetBy(nodes', curAttrs', k) == Get(After(nodes'[..curr], map[]), k)
  {
    hide GapLoop, Identical, Update, Cleaned, AllFit, SettersAt, After, SetBy, GapExact;
    nodes', curAttrs' := nodes, curAttrs;
    var last;
    end, last := EndFormats(nodes, start);
    ghost var told :=
      start <= curr <= end && startAttrs == SettersAt(nodes, start) && curAttrs == SettersAt(nodes, curr);
    if told { AllFitStart(nodes, start, curr); }
    var i, reached := start, false;
    GapLoopStart(nodes, startAttrs, last, start, end);
    while i < end
      invariant start <= i <= end && |nodes'| == |nodes| && GapLoop(nodes, nodes', startAttrs, last, start, i, end)
      invariant i == start ==> curAttrs' == curAttrs
      invariant reached <==> start <= curr < i
      invariant told ==> AllFit(nodes, nodes', startAttrs, curAttrs', i, curr)
    {
      if curr == i {
        reached := true;
      }
      nodes', curAttrs' := CleanTurn(nodes, nodes', start, i, end, last, reached, startAttrs, curAttrs', curr, told);
      i := i + 1;
    }
    if told { AllFitEnd(nodes, nodes', startAttrs, last, curAttrs', start, end, curr); }
    GapLoopEnd(nodes, nodes', startAttrs, last, start, end);
  }

  /** The gap is clean up to `i`. */
  ghost predicate GapLoop(nodes: seq<Node>, nodes': seq<Node>, startAttrs: Setters, last: Setters, start: nat, i: nat,
                          end: nat) {
    && start <= i <= end <= |nodes| == |nodes'| && Cleaned(nodes, nodes')
    && (forall j :: 0 <= j < |nodes| && (j < start || j >= i) ==> nodes'[j] == nodes[j])
    && Waiting(nodes', start, i, last)
    && (forall j: nat {:trigger GapExact(nodes, nodes', startAttrs, end, j)} :: start <= j < i ==>
          GapExact(nodes, nodes', startAttrs, end, j))
  }

  lemma GapLoopStart(nodes: seq<Node>, startAttrs: Setters, last: Setters, start: nat, end: nat)
    requires start <= end <= |nodes|
    ensures GapLoop(nodes, nodes, startAttrs, last, start, start, end)
  {
    WaitingStart(nodes, start, last);
    CleanedSame(nodes);
    hide Cleaned, Waiting;
  }

  lemma GapLoopEnd(nodes: seq<Node>, nodes': seq<Node>, startAttrs: Setters, last: Setters, start: nat, end: nat)
    requires GapLoop(nodes, nodes', startAttrs, last, start, end, end)
    ensures |nodes'| == |nodes| && Cleaned(nodes, nodes') && nodes'[..start] == nodes[..start]
    ensures nodes'[end..] == nodes[end..]
    ensures forall j: nat {:trigger GapExact(nodes, nodes', startAttrs, end, j)} :: start <= j < end ==>
              GapExact(nodes, nodes', startAttrs, end, j)
  {
  }

  /** One item of the gap. */
  /** Item `i` of the gap; `told` says that the current attributes were right at `curr` before. */
  method CleanTurn(ghost nodes: seq<Node>, now: seq<Node>, ghost start: nat, i: nat, ghost end: nat, last: Setters,
                   reached: bool, startAttrs: Setters, curAttrs: Setters, ghost curr: nat, ghost told: bool)
    returns (nodes': seq<Node>, curAttrs': Setters)
    requires i < end && GapLoop(nodes, now, startAttrs, last, start, i, end)
    requires forall j :: start <= j < end ==> !IsLiveRun(nodes[j])
    requires forall k :: Get(After(nodes[..start], map[]), k) == SetBy(nodes, startAttrs, k)
    requires forall k :: k in last ==> start <= last[k] < end && IsLiveMark(nodes[last[k]], k)
    requires forall j :: start <= j < end && !nodes[j].deleted ==>
               nodes[j].content.Mark? && nodes[j].content.key in last && j <= last[nodes[j].content.key]
    requires told ==> start <= curr <= end && AllFit(nodes, now, startAttrs, curAttrs, i, curr)
    requires reached <==> start <= curr <= i
    ensures |nodes'| == |nodes| && GapLoop(nodes, nodes', startAttrs, last, start, i + 1, end)
    ensures told ==> AllFit(nodes, nodes', startAttrs, curAttrs', i + 1, curr)
  {
    hide GapLoop, AllFit, CurNext, After, SetBy;
    nodes', curAttrs' := CleanNext(nodes, now, start, i, end, last, reached, startAttrs, curAttrs);
    if told { AllFitNext(nodes, now, nodes', startAttrs, last, curAttrs, curAttrs', start, i, end, curr); }
  }

  method CleanNext(ghost nodes: seq<Node>, now: seq<Node>, ghost start: nat, i: nat, ghost end: nat, last: Setters,
                   reached: bool, startAttrs: Setters, curAttrs: Setters)
    returns (nodes': seq<Node>, curAttrs': Setters)
    requires i < end && GapLoop(nodes, now, startAttrs, last, start, i, end)
    requires forall j :: start <= j < end ==> !IsLiveRun(nodes[j])
    requires forall k :: Get(After(nodes[..start], map[]), k) == SetBy(nodes, startAttrs, k)
    requires forall k :: k in last ==> start <= last[k] < end && IsLiveMark(nodes[last[k]], k)
    requires forall j :: start <= j < end && !nodes[j].deleted ==>
               nodes[j].content.Mark? && nodes[j].content.key in last && j <= last[nodes[j].content.key]
    ensures |nodes'| == |nodes| && GapLoop(nodes, nodes', startAttrs, last, start, i + 1, end)
    ensures nodes' == now || nodes' == now[i := now[i].(deleted := true)]
    ensures CurNext(nodes, nodes', startAttrs, i, reached, curAttrs, curAttrs')
  {
    hide After, View, Waiting, Unread, Cleaned, SetBy, Identical, Update, Live;
    nodes', curAttrs' := now, curAttrs;
    if !now[i].deleted {
      LastIsLater(nodes, start, i, end, last);
      nodes', curAttrs' := CleanMark(nodes, now, start, i, end, last, reached, startAttrs, curAttrs);
    }
    WaitingStep(now, nodes', start, i, last);
    ExactStep(nodes, now, nodes', startAttrs, start, end, i);
  }

  /** One marker of the gap. */
  method CleanMark(ghost nodes0: seq<Node>, nodes: seq<Node>, ghost start: nat, i: nat, ghost end: nat, last: Setters,
                   reached: bool, startAttrs: Setters, curAttrs: Setters)
    returns (nodes': seq<Node>, curAttrs': Setters)
    requires start <= i < end <= |nodes0| == |nodes| && Cleaned(nodes0, nodes) && Waiting(nodes, start, i, last)
    requires forall j :: 0 <= j < |nodes0| && (j < start || j >= i) ==> nodes[j] == nodes0[j]
    requires forall j :: start <= j < end ==> !IsLiveRun(nodes0[j])
    requires forall k :: Get(After(nodes0[..start], map[]), k) == SetBy(nodes0, startAttrs, k)
    requires !nodes[i].deleted && nodes[i].content.Mark? && nodes[i].content.key in last
    requires i <= last[nodes[i].content.key] < end
    requires IsLiveMark(nodes0[last[nodes[i].content.key]], nodes[i].content.key)
    ensures Cleaned(nodes0, nodes') && (nodes' == nodes || nodes' == nodes[i := nodes[i].(deleted := true)])
    ensures nodes'[i].deleted <==> last[nodes[i].content.key] != i || Identical(nodes0, startAttrs, i)
    ensures CurNext(nodes0, nodes', startAttrs, i, reached, curAttrs, curAttrs')
  {
    SameSetters(nodes0, nodes, startAttrs, i);
    SameSetters(nodes0, nodes, curAttrs, i);
    nodes', curAttrs' := nodes, curAttrs;
    var key := nodes[i].content.key;
    hide After, View, Waiting, Unread, Cleaned, Live;
    if last[key] != i || Identical(nodes, startAttrs, i) {
      GapMark(nodes0, nodes, start, i, end, last, startAttrs);
      CleanedStep(nodes0, nodes, i);
      nodes' := nodes[i := nodes[i].(deleted := true)];
      if !reached && Identical(nodes', curAttrs, i) && !Identical(nodes', startAttrs, i) {
        curAttrs' := if key in startAttrs then curAttrs[key := startAttrs[key]] else curAttrs - {key};
      }
    }
    if !reached && !nodes'[i].deleted {
      curAttrs' := Update(curAttrs', nodes', i);
    }
  }

  /** The markers that set the attributes in effect before item `i`. */
  function SettersAt(nodes: seq<Node>, i: nat): Setters
    requires i <= |nodes|
  {
    if i == 0 then map[]
    else
      var s, n := SettersAt(nodes, i - 1), nodes[i - 1];
      if n.deleted || n.content.Run? then s else Update(s, nodes, i - 1)
  }

  /** What becomes of the current attributes by the cleaning of item `i`. */
  ghost predicate CurNext(nodes: seq<Node>, nodes': seq<Node>, startAttrs: Setters, i: nat, reached: bool, cur: Setters,
                          cur': Setters)
    requires i < |nodes| == |nodes'|
  {
    if reached || nodes[i].deleted || nodes[i].content.Run? then cur' == cur
    else if !nodes'[i].deleted then cur' == Update(cur, nodes, i)
    else if !Identical(nodes, cur, i) || Identical(nodes, startAttrs, i) then cur' == cur
    else
      var key := nodes[i].content.key;
      cur' == if key in startAttrs then cur[key := startAttrs[key]] else cur - {key}
  }

  /** A marker of the key lies from `i` on before `curr`, in the list as it was. */
  predicate Ahead(nodes: seq<Node>, i: nat, curr: nat, key: Key)
    requires curr <= |nodes|
  {
    exists j :: i <= j < curr && IsLiveMark(nodes[j], key)
  }

  /**
    The current attributes at `curr`, while the markers before item `i` have been cleaned: right for a
    key without markers ahead; for any other they are those of the last marker ahead or of the
    start of the gap.
  */
  ghost predicate CurFits(nodes: seq<Node>, now: seq<Node>, startAttrs: Setters, cur: Setters, i: nat, curr: nat,
                          k: Key)
    requires curr <= |nodes| == |now|
  {
    if Ahead(nodes, i, curr, k) then
      || SetBy(nodes, cur, k) == SetBy(nodes, startAttrs, k)
      || forall j :: i <= j < curr && IsLiveMark(nodes[j], k) && !Ahead(nodes, j + 1, curr, k) ==>
           Identical(nodes, cur, j)
    else SetBy(nodes, cur, k) == Get(After(now[..Min(i, curr)], map[]), k)
  }

  ghost predicate AllFit(nodes: seq<Node>, now: seq<Node>, startAttrs: Setters, cur: Setters, i: nat, curr: nat) {
    && curr <= |nodes| == |now|
    && forall k {:trigger CurFits(nodes, now, startAttrs, cur, i, curr, k)} ::
         CurFits(nodes, now, startAttrs, cur, i, curr, k)
  }

  lemma {:induction false} SettersTell(nodes: seq<Node>, i: nat, k: Key)
    requires i <= |nodes|
    ensures SetBy(nodes, SettersAt(nodes, i), k) == Get(After(nodes[..i], map[]), k)
    decreases i
  {
    if i == 0 {
      assert nodes[..0] == [];
    } else {
      SettersTell(nodes, i - 1, k);
      PassedOne(nodes, nodes, i - 1);
      hide After;
    }
  }

  /** The last marker before `curr` is the one that set its key. */
  lemma {:induction false} SettersLast(nodes: seq<Node>, j: nat, curr: nat)
    requires j < curr <= |nodes| && !nodes[j].deleted && nodes[j].content.Mark?
    requires !Ahead(nodes, j + 1, curr, nodes[j].content.key)
    ensures Identical(nodes, SettersAt(nodes, curr), j)
    decreases curr
  {
    if j < curr - 1 {
      assert !IsLiveMark(nodes[curr - 1], nodes[j].content.key);
      SettersLast(nodes, j, curr - 1);
    }
  }

  lemma {:induction false} SettersSame(nodes: seq<Node>, i: nat, curr: nat, k: Key)
    requires i <= curr <= |nodes| && !Ahead(nodes, i, curr, k)
    ensures SetBy(nodes, SettersAt(nodes, curr), k) == SetBy(nodes, SettersAt(nodes, i), k)
    decreases curr
  {
    if i < curr {
      assert !IsLiveMark(nodes[curr - 1], k);
      SettersSame(nodes, i, curr - 1, k);
    }
  }

  lemma AllFitStart(nodes: seq<Node>, start: nat, curr: nat)
    requires start <= curr <= |nodes|
    ensures AllFit(nodes, nodes, SettersAt(nodes, start), SettersAt(nodes, curr), start, curr)
  {
    hide SetBy, Identical, SettersAt, After;
    forall k
      ensures CurFits(nodes, nodes, SettersAt(nodes, start), SettersAt(nodes, curr), start, curr, k)
    {
      if Ahead(nodes, start, curr, k) {
        forall j | start <= j < curr && IsLiveMark(nodes[j], k) && !Ahead(nodes, j + 1, curr, k)
          ensures Identical(nodes, SettersAt(nodes, curr), j)
        {
          SettersLast(nodes, j, curr);
        }
      } else {
        SettersSame(nodes, start, curr, k);
        SettersTell(nodes, start, k);
      }
    }
  }

  lemma PassedOne(now: seq<Node>, now': seq<Node>, i: nat)
    requires i < |now| == |now'| && now'[..i] == now[..i]
    ensures After(now'[..i + 1], map[]) == Pass(After(now[..i], map[]), now'[i])
  {
    assert now'[..i + 1] == now'[..i] + [now'[i]];
    hide View;
    ViewOne(now'[..i], now'[i], map[]);
  }

  /** Item `i` is not a live marker of the key. */
  lemma FitOther(nodes: seq<Node>, now: seq<Node>, now': seq<Node>, startAttrs: Setters, cur: Setters, cur': Setters,
                 i: nat, curr: nat, k: Key)
    requires i < curr <= |nodes| == |now| == |now'| && now'[..i] == now[..i] && now'[i].content == nodes[i].content
    requires nodes[i].deleted ==> now'[i].deleted
    requires !IsLiveMark(nodes[i], k) && !IsLiveRun(nodes[i])
    requires CurNext(nodes, now', startAttrs, i, false, cur, cur')
    requires CurFits(nodes, now, startAttrs, cur, i, curr, k)
    ensures CurFits(nodes, now', startAttrs, cur', i + 1, curr, k)
  {
    hide After, CurNext;
    PassedOne(now, now', i);
    PassedOther(After(now[..i], map[]), now'[i], k);
    CurOther(nodes, now', startAttrs, cur, cur', i, k);
    AheadOther(nodes, i, curr, k);
    hide Ahead;
    assert Min(i, curr) == i && Min(i + 1, curr) == i + 1;
  }

  lemma PassedOther(a: Attrs, n: Node, k: Key)
    requires !IsLiveMark(n, k)
    ensures Get(Pass(a, n), k) == Get(a, k)
  {
  }

  lemma CurOther(nodes: seq<Node>, now': seq<Node>, startAttrs: Setters, cur: Setters, cur': Setters, i: nat, k: Key)
    requires i < |nodes| == |now'| && !IsLiveMark(nodes[i], k)
    requires CurNext(nodes, now', startAttrs, i, false, cur, cur')
    ensures k in cur' <==> k in cur
    ensures k in cur ==> cur'[k] == cur[k]
  {
    hide Identical;
  }

  lemma AheadOther(nodes: seq<Node>, i: nat, curr: nat, k: Key)
    requires i < curr <= |nodes| && !IsLiveMark(nodes[i], k)
    ensures Ahead(nodes, i + 1, curr, k) <==> Ahead(nodes, i, curr, k)
  {
  }

  /** Item `i` is a marker of the key, and another one follows before `curr`. */
  lemma FitAhead(nodes: seq<Node>, now: seq<Node>, now': seq<Node>, startAttrs: Setters, cur: Setters, cur': Setters,
                 i: nat, curr: nat)
    requires i < curr <= |nodes| == |now| == |now'| && nodes[i].content.Mark? && !nodes[i].deleted && now'[i].deleted
    requires Ahead(nodes, i + 1, curr, nodes[i].content.key)
    requires CurNext(nodes, now', startAttrs, i, false, cur, cur')
    requires CurFits(nodes, now, startAttrs, cur, i, curr, nodes[i].content.key)
    ensures CurFits(nodes, now', startAttrs, cur', i + 1, curr, nodes[i].content.key)
  {
    hide After;
    var k := nodes[i].content.key;
    assert Ahead(nodes, i, curr, k) by { assert IsLiveMark(nodes[i], k); }
  }

  /** Item `i` is the last marker of the key before `curr`. */
  lemma FitLast(nodes: seq<Node>, now: seq<Node>, now': seq<Node>, startAttrs: Setters, cur: Setters, cur': Setters,
                i: nat, curr: nat)
    requires i < curr <= |nodes| == |now| == |now'| && nodes[i].content.Mark? && !nodes[i].deleted
    requires now'[..i] == now[..i] && now'[i].content == nodes[i].content
    requires !Ahead(nodes, i + 1, curr, nodes[i].content.key)
    requires Get(After(now[..i], map[]), nodes[i].content.key) == SetBy(nodes, startAttrs, nodes[i].content.key)
    requires CurNext(nodes, now', startAttrs, i, false, cur, cur')
    requires CurFits(nodes, now, startAttrs, cur, i, curr, nodes[i].content.key)
    ensures CurFits(nodes, now', startAttrs, cur', i + 1, curr, nodes[i].content.key)
  {
    var k := nodes[i].content.key;
    PassedOne(now, now', i);
    hide After;
    assert Ahead(nodes, i, curr, k) by { assert IsLiveMark(nodes[i], k); }
    assert Min(i + 1, curr) == i + 1;
  }

  lemma AllFitNext(nodes: seq<Node>, now: seq<Node>, now': seq<Node>, startAttrs: Setters, last: Setters, cur: Setters,
                   cur': Setters, start: nat, i: nat, end: nat, curr: nat)
    requires GapLoop(nodes, now, startAttrs, last, start, i, end) && i < end && start <= curr <= end
    requires now' == now || now' == now[i := now[i].(deleted := true)]
    requires GapLoop(nodes, now', startAttrs, last, start, i + 1, end)
    requires forall j :: start <= j < end ==> !IsLiveRun(nodes[j])
    requires forall j :: start <= j < end && !nodes[j].deleted ==>
               nodes[j].content.Mark? && nodes[j].content.key in last && j <= last[nodes[j].content.key]
    requires forall k :: Get(After(nodes[..start], map[]), k) == SetBy(nodes, startAttrs, k)
    requires CurNext(nodes, now', startAttrs, i, curr <= i, cur, cur')
    requires AllFit(nodes, now, startAttrs, cur, i, curr)
    ensures AllFit(nodes, now', startAttrs, cur', i + 1, curr)
  {
    hide After, SetBy, Identical, Update, Cleaned, CurFits, CurNext;
    var i' := i + 1;
    forall k
      ensures CurFits(nodes, now', startAttrs, cur', i', curr, k)
    {
      assert CurFits(nodes, now, startAttrs, cur, i, curr, k);
      if curr <= i {
        FitBehind(nodes, now, now', startAttrs, cur, cur', i, curr, k);
      } else if !IsLiveMark(nodes[i], k) {
        FitOther(nodes, now, now', startAttrs, cur, cur', i, curr, k);
      } else if Ahead(nodes, i + 1, curr, k) {
        assert GapExact(nodes, now', startAttrs, end, i);
        assert Later(nodes, i, end, k);
        FitAhead(nodes, now, now', startAttrs, cur, cur', i, curr);
      } else {
        assert now[..start] == nodes[..start];
        FitLast(nodes, now, now', startAttrs, cur, cur', i, curr);
      }
    }
  }

  lemma FitBehind(nodes: seq<Node>, now: seq<Node>, now': seq<Node>, startAttrs: Setters, cur: Setters, cur': Setters,
                  i: nat, curr: nat, k: Key)
    requires curr <= i < |nodes| == |now| == |now'|
    requires now' == now || now' == now[i := now[i].(deleted := true)]
    requires CurNext(nodes, now', startAttrs, i, true, cur, cur') && CurFits(nodes, now, startAttrs, cur, i, curr, k)
    ensures CurFits(nodes, now', startAttrs, cur', i + 1, curr, k)
  {
    assert now'[..curr] == now[..curr];
  }

  lemma AllFitEnd(nodes: seq<Node>, now: seq<Node>, startAttrs: Setters, last: Setters, cur: Setters, start: nat,
                  end: nat, curr: nat)
    requires AllFit(nodes, now, startAttrs, cur, end, curr) && curr <= end
    requires GapLoop(nodes, now, startAttrs, last, start, end, end)
    ensures forall k :: SetBy(now, cur, k) == Get(After(now[..curr], map[]), k)
  {
    assert forall j :: 0 <= j < |nodes| ==> now[j].content == nodes[j].content;
    hide After, GapLoop;
    forall k
      ensures SetBy(now, cur, k) == Get(After(now[..curr], map[]), k)
    {
      assert CurFits(nodes, now, startAttrs, cur, end, curr, k);
    }
  }

  /** A marker is live afterwards exactly if it was, is the last of its key in the gap and says something new. */
  ghost predicate GapExact(nodes: seq<Node>, nodes': seq<Node>, startAttrs: Setters, end: nat, j: nat)
    requires j < |nodes| == |nodes'|
  {
    nodes[j].content.Mark? ==>
      (nodes'[j].deleted <==>
         nodes[j].deleted || Later(nodes, j, end, nodes[j].content.key) || Identical(nodes, startAttrs, j))
  }

  lemma ExactStep(nodes: seq<Node>, before: seq<Node>, nodes': seq<Node>, startAttrs: Setters, start: nat, end: nat,
                  i: nat)
    requires |nodes| == |before| == |nodes'| && start <= i < end <= |nodes| && before[i] == nodes[i]
    requires nodes' == before || nodes' == before[i := before[i].(deleted := true)]
    requires forall j: nat {:trigger GapExact(nodes, before, startAttrs, end, j)} :: start <= j < i ==>
               GapExact(nodes, before, startAttrs, end, j)
    requires GapExact(nodes, nodes', startAttrs, end, i)
    ensures forall j: nat {:trigger GapExact(nodes, nodes', startAttrs, end, j)} :: start <= j <= i ==>
              GapExact(nodes, nodes', startAttrs, end, j)
  {
    forall j: nat | start <= j <= i
      ensures GapExact(nodes, nodes', startAttrs, end, j)
    {
      assert j < i ==> GapExact(nodes, before, startAttrs, end, j);
    }
  }

  lemma LastIsLater(nodes: seq<Node>, start: nat, i: nat, end: nat, last: Setters)
    requires start <= i < end <= |nodes| && !nodes[i].deleted && nodes[i].content.Mark? && nodes[i].content.key in last
    requires forall k :: k in last ==> start <= last[k] < end && IsLiveMark(nodes[last[k]], k)
    requires forall j :: start <= j < end && !nodes[j].deleted ==>
               nodes[j].content.Mark? && nodes[j].content.key in last && j <= last[nodes[j].content.key]
    ensures last[nodes[i].content.key] != i <==> Later(nodes, i, end, nodes[i].content.key)
  {
    var m := last[nodes[i].content.key];
    assert IsLiveMark(nodes[m], nodes[i].content.key);
  }

  lemma SameSetters(nodes0: seq<Node>, nodes: seq<Node>, s: Setters, i: nat)
    requires Cleaned(nodes0, nodes) && i < |nodes| && nodes[i].content.Mark?
    ensures |nodes0| == |nodes| && nodes0[i].content == nodes[i].content
    ensures Identical(nodes0, s, i) == Identical(nodes, s, i)
  {
    assert forall j :: 0 <= j < |nodes| ==> nodes[j].content == nodes0[j].content;
  }

  lemma WaitingStart(nodes: seq<Node>, start: nat, last: Setters)
    requires start <= |nodes|
    ensures Waiting(nodes, start, start, last)
  {
  }

  /** A marker that is overwritten in its gap or restates the value at the start of the gap does not show. */
  lemma GapMark(nodes: seq<Node>, nodes': seq<Node>, start: nat, i: nat, end: nat, last: Setters, startAttrs: Setters)
    requires start <= i < end <= |nodes| == |nodes'| && Cleaned(nodes, nodes') && Waiting(nodes', start, i, last)
    requires forall j :: 0 <= j < |nodes| && (j < start || j >= i) ==> nodes'[j] == nodes[j]
    requires forall j :: start <= j < end ==> !IsLiveRun(nodes[j])
    requires forall k :: Get(After(nodes[..start], map[]), k) == SetBy(nodes, startAttrs, k)
    requires !nodes'[i].deleted && nodes'[i].content.Mark? && nodes'[i].content.key in last
    requires i <= last[nodes'[i].content.key] < end
    requires IsLiveMark(nodes[last[nodes'[i].content.key]], nodes'[i].content.key)
    requires last[nodes'[i].content.key] != i || Identical(nodes', startAttrs, i)
    ensures Live(nodes'[i := nodes'[i].(deleted := true)]) == Live(nodes')
  {
    var key := nodes'[i].content.key;
    assert nodes'[..start] == nodes[..start];
    if last[key] != i {
      UnreadUpTo(nodes', i + 1, last[key], key);
    } else {
      assert SetBy(nodes', startAttrs, key) == SetBy(nodes, startAttrs, key);
    }
    DeleteMark(nodes', i);
  }

  lemma WaitingStep(nodes: seq<Node>, nodes': seq<Node>, start: nat, i: nat, last: Setters)
    requires i < |nodes| == |nodes'| && start <= i && Waiting(nodes, start, i, last)
    requires forall j :: 0 <= j < |nodes| && j != i ==> nodes'[j] == nodes[j]
    requires !nodes'[i].deleted && nodes'[i].content.Mark? && nodes'[i].content.key in last ==>
               last[nodes'[i].content.key] == i
    ensures Waiting(nodes', start, i + 1, last)
  {
    assert nodes'[..i] == nodes[..i] && nodes'[..start] == nodes[..start];
    assert nodes'[..i + 1] == nodes'[..i] + [nodes'[i]];
    ViewOne(nodes'[..i], nodes'[i], map[]);
  }

  /** One call of the gap cleanup: only the first one has a gap to clean. */
  method CleanBefore(ghost nodes: seq<Node>, now: seq<Node>, start: nat, end: nat, startAttrs: Setters, cur: Setters,
                     ghost first: bool)
    returns (nodes': seq<Node>, cur': Setters)
    requires start <= end < |nodes| == |now| && Cleaned(nodes, now) && IsLiveRun(nodes[end])
    requires if first then IsLiveRun(nodes[start])
             else start == 0 && startAttrs == map[] && now == nodes && forall r :: 0 <= r < end ==> !IsLiveRun(nodes[r])
    requires CurTells(nodes, now, end, cur, first)
    ensures |nodes'| == |nodes| && Cleaned(nodes, nodes') && CurTells(nodes, nodes', end, cur', true)
    ensures first ==> nodes' == now
    ensures !first ==> nodes'[end..] == nodes[end..] && FirstGapClean(nodes, nodes', end)
  {
    assert !first ==> now[..0] == [];
    assert first ==> now[start] == nodes[start];
    var gapEnd;
    nodes', cur', gapEnd := CleanGap(now, start, end, startAttrs, cur);
    if first {
      assert gapEnd == start;
      assert nodes' == nodes'[..start] + nodes'[start..] && now == now[..start] + now[start..];
    } else {
      assert gapEnd == end;
      forall j: nat | j < end
        ensures MarkClean(nodes, nodes', end, j)
      {
        assert GapExact(now, nodes', startAttrs, end, j);
      }
    }
  }

  /** Before the first run a marker stays exactly if it is the last of its key and sets a value. */
  ghost predicate MarkClean(nodes: seq<Node>, nodes': seq<Node>, end: nat, j: nat)
    requires j < |nodes| == |nodes'|
  {
    nodes[j].content.Mark? ==>
      (nodes'[j].deleted <==>
         nodes[j].deleted || Later(nodes, j, end, nodes[j].content.key) || nodes[j].content.val.None?)
  }

  ghost predicate FirstGapClean(nodes: seq<Node>, nodes': seq<Node>, end: nat)
    requires end <= |nodes| == |nodes'|
  {
    forall j: nat {:trigger MarkClean(nodes, nodes', end, j)} :: j < end ==> MarkClean(nodes, nodes', end, j)
  }

  /**
    The full cleanup: it only ever changes the markers before the first live run, where it
    keeps the last marker of each key that sets a value.
  */
  method CleanFormatting(nodes: seq<Node>) returns (nodes': seq<Node>)
    ensures |nodes'| == |nodes| && Cleaned(nodes, nodes')
    ensures (forall r :: 0 <= r < |nodes| ==> !IsLiveRun(nodes[r])) ==> nodes' == nodes
    ensures forall r: nat :: r < |nodes| && IsLiveRun(nodes[r]) && (forall j :: 0 <= j < r ==> !IsLiveRun(nodes[j])) ==>
              nodes'[r..] == nodes[r..] && FirstGapClean(nodes, nodes', r)
  {
    nodes' := nodes;
    var start, end: nat := 0, 0;
    var startAttrs, cur: Setters := map[], map[];
    ghost var first, run: nat := false, 0;
    CleanedSame(nodes);
    assert CleanLoop(nodes, nodes', start, end, startAttrs, first, run);
    hide CleanLoop, CurTells;
    TellsStart(nodes);
    while end < |nodes|
      invariant 0 <= end <= |nodes| == |nodes'| && CleanLoop(nodes, nodes', start, end, startAttrs, first, run)
      invariant CurTells(nodes, nodes', end, cur, first)
    {
      nodes', start, startAttrs, cur, first, run :=
        CleanStep(nodes, nodes', start, end, startAttrs, cur, first, run);
      end := end + 1;
    }
    CleanEnd(nodes, nodes', start, end, startAttrs, first, run);
  }

  /** Items before `end` are dealt with; `run` is the first live run if there is one. */
  ghost predicate CleanLoop(nodes: seq<Node>, now: seq<Node>, start: nat, end: nat, startAttrs: Setters, first: bool,
                            run: nat) {
    && start <= end <= |nodes| == |now| && Cleaned(nodes, now)
    && if first then
         && run <= start < |nodes| && IsLiveRun(nodes[start]) && IsLiveRun(nodes[run])
         && (forall j :: 0 <= j < run ==> !IsLiveRun(nodes[j]))
         && now[run..] == nodes[run..] && FirstGapClean(nodes, now, run)
       else start == 0 && startAttrs == map[] && now == nodes && forall r :: 0 <= r < end ==> !IsLiveRun(nodes[r])
  }

  /** The current attributes are those in effect at `end`; before the first run their markers are known, too. */
  ghost predicate CurTells(nodes: seq<Node>, now: seq<Node>, end: nat, cur: Setters, first: bool) {
    && end <= |nodes| == |now|
    && if first then forall k :: SetBy(now, cur, k) == Get(After(now[..end], map[]), k)
       else cur == SettersAt(nodes, end)
  }

  lemma TellsStart(nodes: seq<Node>)
    ensures CurTells(nodes, nodes, 0, map[], false)
  {
  }

  lemma CleanedRun(nodes: seq<Node>, nodes': seq<Node>, i: nat)
    requires Cleaned(nodes, nodes') && i < |nodes| && nodes[i].content.Run?
    ensures |nodes'| == |nodes| && nodes'[i] == nodes[i]
  {
  }

  /** An item that is no live marker tells nothing. */
  lemma TellsPast(nodes: seq<Node>, now: seq<Node>, end: nat, cur: Setters, first: bool)
    requires CurTells(nodes, now, end, cur, first) && end < |now| && (now[end].deleted || now[end].content.Run?)
    requires !first ==> now[end] == nodes[end]
    ensures CurTells(nodes, now, end + 1, cur, first)
  {
    PassedOne(now, now, end);
    hide After, SetBy;
  }

  lemma TellsMark(nodes: seq<Node>, now: seq<Node>, end: nat, cur: Setters, first: bool)
    requires CurTells(nodes, now, end, cur, first) && end < |now| && !now[end].deleted && now[end].content.Mark?
    requires !first ==> now == nodes
    ensures CurTells(nodes, now, end + 1, Update(cur, now, end), first)
  {
    PassedOne(now, now, end);
    hide After;
    if first {
      var a, n := After(now[..end], map[]), now[end];
      forall k
        ensures SetBy(now, Update(cur, now, end), k) == Get(After(now[..end + 1], map[]), k)
      {
        GetPut(a, n.content.key, n.content.val, k);
        assert SetBy(now, cur, k) == Get(a, k);
      }
    }
  }

  method CleanStep(ghost nodes: seq<Node>, now: seq<Node>, start: nat, end: nat, startAttrs: Setters, cur: Setters,
                   ghost first: bool, ghost run: nat)
    returns (nodes': seq<Node>, start': nat, startAttrs': Setters, cur': Setters, ghost first': bool, ghost run': nat)
    requires end < |nodes| && CleanLoop(nodes, now, start, end, startAttrs, first, run)
    requires CurTells(nodes, now, end, cur, first)
    ensures |nodes'| == |nodes| && CleanLoop(nodes, nodes', start', end + 1, startAttrs', first', run')
    ensures CurTells(nodes, nodes', end + 1, cur', first')
  {
    hide Cleaned, FirstGapClean, CurTells, Update;
    nodes', start', startAttrs', cur', first', run' := now, start, startAttrs, cur, first, run;
    var n := now[end];
    assert n == nodes[end] by {
      if first { assert now[run..][end - run] == nodes[run..][end - run]; }
    }
    if n.deleted {
      TellsPast(nodes, now, end, cur, first);
    } else {
      if n.content.Mark? {
        TellsMark(nodes, now, end, cur, first);
        cur' := Update(cur, now, end);
      } else {
        nodes', cur' := CleanBefore(nodes, now, start, end, startAttrs, cur, first);
        startAttrs', start' := cur', end;
        run' := if first then run else end;
        first' := true;
        CleanedRun(nodes, nodes', end);
        TellsPast(nodes, nodes', end, cur', true);
      }
    }
  }

  lemma CleanEnd(nodes: seq<Node>, now: seq<Node>, start: nat, end: nat, startAttrs: Setters, first: bool, run: nat)
    requires end == |nodes| && CleanLoop(nodes, now, start, end, startAttrs, first, run)
    ensures |now| == |nodes| && Cleaned(nodes, now)
    ensures (forall r :: 0 <= r < |nodes| ==> !IsLiveRun(nodes[r])) ==> now == nodes
    ensures forall r: nat :: r < |nodes| && IsLiveRun(nodes[r]) && (forall j :: 0 <= j < r ==> !IsLiveRun(nodes[j])) ==>
              now[r..] == nodes[r..] && FirstGapClean(nodes, now, r)
  {
    hide Cleaned, FirstGapClean;
    forall r: nat | r < |nodes| && IsLiveRun(nodes[r]) && forall j :: 0 <= j < r ==> !IsLiveRun(nodes[j])
      ensures first && r == run
    {
    }
  }

  // --------------------------------------------------------------------- edits

  /** Skips deleted items and markers that restate what is in effect, so that an insert lands behind them. */
  method SkipRestated(left: seq<Node>, right: seq<Node>) returns (k: nat)
    ensures k <= |right|
    ensures View(right[..k], After(left, map[])) == [] && After(right[..k], After(left, map[])) == After(left, map[])
    ensures k == Skip(right, AsChange(After(left, map[])))
  {
    ghost var a := After(left, map[]);
    ghost var c := AsChange(a);
    var attrs := FoldMarks(left);
    hide View, After, Skip, AsChange, Passing, Going, Idle;
    k := 0;
    PassingStart(right, a);
    GoingStart(right, 0, c);
    while k < |right|
      invariant 0 <= k <= |right| && Passing(right, k, a) && Going(right, 0, k, c)
    {
      var n := right[k];
      IdleMeans(n, a);
      if !n.deleted {
        if n.content.Run? || Get(attrs, n.content.key) != n.content.val {
          break;
        }
      }
      PassingNext(right, k, a);
      GoingOn(right, 0, k, c);
      k := k + 1;
    }
    PassedAll(right, k, a, c);
  }

  /** The first `k` items show nothing and change no attribute. */
  ghost predicate Passing(right: seq<Node>, k: nat, a: Attrs) {
    k <= |right| && View(right[..k], a) == [] && After(right[..k], a) == a
  }

  lemma PassingStart(right: seq<Node>, a: Attrs)
    ensures Passing(right, 0, a)
  {
    assert right[..0] == [];
    ViewEmpty(a);
    assert After([], a) == a;
  }

  lemma IdleMeans(n: Node, a: Attrs)
    ensures Idle(n, AsChange(a)) <==> n.deleted || (n.content.Mark? && Get(a, n.content.key) == n.content.val)
  {
  }

  lemma PassingNext(right: seq<Node>, k: nat, a: Attrs)
    requires Passing(right, k, a) && k < |right| && Idle(right[k], AsChange(a))
    ensures Passing(right, k + 1, a)
  {
    var n := right[k];
    IdleMeans(n, a);
    if !n.deleted { SameAttrs(Put(a, n.content.key, n.content.val), a); }
    hide View, After, AsChange;
    assert right[..k + 1] == right[..k] + [n];
    ViewOne(right[..k], n, a);
  }

  lemma PassedAll(right: seq<Node>, k: nat, a: Attrs, c: Change)
    requires Passing(right, k, a) && Going(right, 0, k, c) && (k == |right| || !Idle(right[k], c))
    ensures View(right[..k], a) == [] && After(right[..k], a) == a && k == Skip(right, c)
  {
    hide View, After, Skip, Idle;
    SkipFrom(right, k, c);
    assert right[0..] == right;
  }

  ghost predicate Going(nodes: seq<Node>, p: nat, q: nat, c: Change) {
    p <= q <= |nodes| && Skip(nodes[p..], c) == q - p + Skip(nodes[q..], c)
  }

  lemma GoingStart(nodes: seq<Node>, p: nat, c: Change)
    requires p <= |nodes|
    ensures Going(nodes, p, p, c)
  {
  }

  lemma GoingOn(nodes: seq<Node>, p: nat, q: nat, c: Change)
    requires Going(nodes, p, q, c) && q < |nodes| && Idle(nodes[q], c)
    ensures Going(nodes, p, q + 1, c)
  {
    hide Skip, Idle;
    SkipFrom(nodes, q, c);
  }

  /** The attributes after a list, by a walk from the start. */
  method FoldMarks(nodes: seq<Node>) returns (a: Attrs)
    ensures a == After(nodes, map[])
  {
    a := map[];
    var i := 0;
    while i < |nodes|
      invariant 0 <= i <= |nodes| && a == After(nodes[..i], map[])
    {
      assert nodes[..i + 1] == nodes[..i] + [nodes[i]];
      ViewOne(nodes[..i], nodes[i], map[]);
      if !nodes[i].deleted && nodes[i].content.Mark? {
        a := Put(a, nodes[i].content.key, nodes[i].content.val);
      }
      i := i + 1;
    }
    assert nodes[..i] == nodes;
  }

  /** Inserting a run shows as its units with the attributes in effect there. */
  lemma InsertRun(x: seq<Node>, units: seq<Unit>, y: seq<Node>)
    ensures Live(x + [Node(Run(units), false)] + y) ==
            Live(x) + Styled(units, After(x, map[])) + View(y, After(x, map[]))
  {
    var n := Node(Run(units), false);
    ViewConcat(x + [n], y, map[]);
    ViewOne(x, n, map[]);
  }

  /** The number of live units. */
  method LiveLength(nodes: seq<Node>) returns (n: nat)
    ensures n == |Live(nodes)|
  {
    n := 0;
    var i := 0;
    ViewEmpty(map[]);
    assert nodes[..0] == [];
    hide View, After;
    while i < |nodes|
      invariant 0 <= i <= |nodes| && n == |View(nodes[..i], map[])|
    {
      assert nodes[..i + 1] == nodes[..i] + [nodes[i]];
      ViewOne(nodes[..i], nodes[i], map[]);
      if IsLiveRun(nodes[i]) {
        n := n + |nodes[i].content.units|;
      }
      i := i + 1;
    }
    assert nodes[..i] == nodes;
  }

  /** A cursor after `index` live units, before any marker that follows them. */
  method FindPos(nodes: seq<Node>, index: int) returns (pos: Cursor)
    ensures fresh(pos) && pos.Valid() && (pos.left, pos.right) == Advanced([], nodes, index)
    ensures var v, at := Live(nodes), Clamp(index, |Live(nodes)|);
            && pos.Text() == v[..at] && View(pos.right, pos.Here()) == v[at..]
            && (index <= |v| ==> pos.Here() == if at == 0 then map[] else v[at - 1].attrs)
    ensures pos.All() == Stock(nodes)
  {
    hide View, After, Stock, AttrState.Holds, Folded, Advanced;
    pos := new Cursor(nodes);
    ghost var v, at := Live(nodes), Clamp(index, |Live(nodes)|);
    ViewEmpty(map[]);
    AfterEmpty();
    NoStock(nodes);
    pos.Advance(index);
    assert v == pos.Text() + View(pos.right, pos.Here());
    CutAt(v, pos.Text(), View(pos.right, pos.Here()), at);
  }

  lemma CutAt(v: seq<Char>, x: seq<Char>, y: seq<Char>, at: nat)
    requires v == x + y && |x| == at
    ensures x == v[..at] && y == v[at..]
  {
  }

  lemma InsertAfterSkip(left: seq<Node>, right: seq<Node>, k: nat, units: seq<Unit>)
    requires k <= |right| && View(right[..k], After(left, map[])) == []
    requires After(right[..k], After(left, map[])) == After(left, map[])
    ensures Live(left + right[..k] + [Node(Run(units), false)] + right[k..]) ==
            Live(left) + Styled(units, After(left, map[])) + View(right, After(left, map[]))
  {
    var a := After(left, map[]);
    hide View, After;
    assert right == right[..k] + right[k..];
    ViewConcat(right[..k], right[k..], a);
    ViewConcat(left, right[..k], map[]);
    InsertRun(left + right[..k], units, right[k..]);
  }

  /** An operation of a delta: text with exactly these attributes, a deletion, or a stretch kept with a change. */
  datatype Op =
    | Insert(units: seq<Unit>, keys: seq<Key>, c: Change)
    | Delete(n: int)
    | Retain(n: int, keys: seq<Key>, c: Change)

  ghost predicate OpOk(op: Op) {
    op.Delete? || forall k :: k in op.keys <==> k in op.c
  }

  /** How many units lie before text typed at a position: deleted ones and markers that restate are passed. */
  ghost function Anchor(nodes: seq<Node>, at: nat): nat {
    var (l, r) := Advanced([], nodes, at);
    |Stock(l + r[..Skip(r, AsChange(After(l, map[])))])|
  }

  lemma AnchorIs(nodes: seq<Node>, at: nat, l: seq<Node>, r: seq<Node>, k: nat)
    requires (l, r) == Advanced([], nodes, at) && k == Skip(r, AsChange(After(l, map[])))
    ensures Anchor(nodes, at) == |Stock(l + r[..k])|
  {
    hide Stock, Skip, After, Advanced;
  }

  /** The units an operation brings. */
  function Brought(op: Op): seq<Unit> {
    if op.Insert? then op.units else []
  }

  /** Step by step, each operation puts its units together somewhere; no unit is removed or moved. */
  ghost predicate Woven(ops: seq<Op>, stocks: seq<seq<Unit>>, n: nat) {
    n <= |ops| && |stocks| == n + 1 && forall i :: 0 <= i < n ==> GrownBy(stocks[i], Brought(ops[i]), stocks[i + 1])
  }

  ghost predicate GrownBy(s: seq<Unit>, units: seq<Unit>, t: seq<Unit>) {
    exists k: nat :: PutIn(s, k, units, t)
  }

  ghost predicate PutIn(s: seq<Unit>, k: nat, units: seq<Unit>, t: seq<Unit>) {
    k <= |s| && t == s[..k] + units + s[k..]
  }

  lemma WovenNext(ops: seq<Op>, stocks: seq<seq<Unit>>, i: nat, k: nat, t: seq<Unit>)
    requires i < |ops| && Woven(ops, stocks, i) && PutIn(stocks[i], k, Brought(ops[i]), t)
    ensures Woven(ops, stocks + [t], i + 1) && (stocks + [t])[0] == stocks[0] && (stocks + [t])[i + 1] == t
  {
    hide PutIn, Brought;
    assert GrownBy(stocks[i], Brought(ops[i]), t);
    hide GrownBy;
  }

  /** What an operation makes of the text in front of it. */
  function Made(op: Op, v: seq<Char>): seq<Char> {
    if op.Insert? then Styled(op.units, Overridden(map[], op.c))
    else if op.Delete? then []
    else Restyled(v[..Clamp(op.n, |v|)], op.n, op.c)
  }

  /** The text behind an operation. */
  function Behind(op: Op, v: seq<Char>): seq<Char> {
    if op.Insert? then v else v[Clamp(op.n, |v|)..]
  }

  /** A delta applied to what a text shows; what follows the last operation stays. */
  function Applied(ops: seq<Op>, v: seq<Char>): seq<Char> {
    if ops == [] then v else Made(ops[0], v) + Applied(ops[1..], Behind(ops[0], v))
  }

  /** One operation at the cursor. */
  method ApplyOp(pos: Cursor, op: Op) returns (ghost k: nat)
    requires pos.Valid() && OpOk(op)
    modifies pos
    ensures pos.Valid()
    ensures var v := View(old(pos.right), old(pos.Here()));
            pos.Text() == old(pos.Text()) + Made(op, v) && View(pos.right, pos.Here()) == Behind(op, v)
    ensures k <= |old(pos.All())| && pos.All() == old(pos.All())[..k] + Brought(op) + old(pos.All())[k..]
  {
    k := 0;
    PutNothing(pos.All());
    ghost var text, v := pos.Text(), View(pos.right, pos.Here());
    hide View, After, Stock, Styled, Restyled, Overridden, AttrState.Holds;
    assert text + [] == text;
    if op.Insert? {
      if op.units == [] {
        StyledNone(Overridden(map[], op.c));
      } else {
        k := pos.InsertText(op.units, op.keys, op.c);
      }
    } else if op.Delete? {
      pos.DeleteNext(op.n);
    } else if op.c != map[] {
      pos.ApplyFormat(op.n, op.keys, op.c);
    } else {
      pos.Advance(op.n);
      NoChange(v[..Clamp(op.n, |v|)], op.n, op.c);
      SplitText(text, v, pos.Text(), View(pos.right, pos.Here()), Clamp(op.n, |v|));
    }
  }

  lemma StyledNone(a: Attrs)
    ensures Styled([], a) == []
  {
  }

  lemma SplitText(text: seq<Char>, v: seq<Char>, text': seq<Char>, v': seq<Char>, k: nat)
    requires text + v == text' + v' && k <= |v| && |text'| == |text| + k
    ensures text' == text + v[..k] && v' == v[k..]
  {
    assert text' == (text' + v')[..|text'|] && v' == (text' + v')[|text'|..];
  }

  class YText {
    var nodes: seq<Node>

    /** The text shows what the delta makes of what it showed. */
    method ApplyDelta(ops: seq<Op>) returns (ghost stocks: seq<seq<Unit>>)
      requires forall i :: 0 <= i < |ops| ==> OpOk(ops[i])
      modifies this
      ensures Live(nodes) == Applied(ops, old(Live(nodes)))
      ensures Woven(ops, stocks, |ops|) && stocks[0] == old(Stock(nodes)) && stocks[|ops|] == Stock(nodes)
    {
      ghost var v := Live(nodes);
      var pos := new Cursor(nodes);
      assert pos.All() == Stock(nodes);
      stocks := [Stock(nodes)];
      hide View, After, Stock, Applied, Made, Behind, AttrState.Holds;
      ViewEmpty(map[]);
      assert ops[0..] == ops && [] + v == v && pos.left == [];
      AfterEmpty();
      var i := 0;
      while i < |ops|
        invariant 0 <= i <= |ops| && pos.Valid() && fresh(pos) && nodes == old(nodes)
        invariant pos.Text() + Applied(ops[i..], View(pos.right, pos.Here())) == Applied(ops, v)
        invariant Woven(ops, stocks, i) && stocks[0] == old(Stock(nodes)) && stocks[i] == pos.All()
      {
        ghost var text, v0 := pos.Text(), View(pos.right, pos.Here());
        AppliedNext(ops, i, v0);
        ghost var k := ApplyOp(pos, ops[i]);
        WovenNext(ops, stocks, i, k, pos.All());
        stocks := stocks + [pos.All()];
        Assoc(text, Made(ops[i], v0), Applied(ops[i + 1..], Behind(ops[i], v0)));
        i := i + 1;
      }
      assert ops[i..] == [];
      AppliedNone(View(pos.right, pos.Here()));
      ViewConcat(pos.left, pos.right, map[]);
      StockConcat(pos.left, pos.right);
      nodes := pos.left + pos.right;
    }

    /** Exactly the units of the range take the change; outside the text there is nothing to change. */
    method Format(index: int, length: int, keys: seq<Key>, c: Change)
      requires forall k :: k in keys <==> k in c
      modifies this
      ensures var v, at := old(Live(nodes)), Clamp(index, |old(Live(nodes))|);
              Live(nodes) == v[..at] + Restyled(v[at..], length, c)
      ensures Stock(nodes) == old(Stock(nodes))
    {
      hide View, After, Stock, Advanced;
      var pos := FindPos(nodes, index);
      pos.ApplyFormat(length, keys, c);
      StockConcat(pos.left, pos.right);
      nodes := pos.left + pos.right;
    }

    /** The new units carry exactly the attributes asked for; the others keep theirs. */
    method InsertAttributed(index: int, units: seq<Unit>, keys: seq<Key>, c: Change) returns (ghost k: nat)
      requires forall k :: k in keys <==> k in c
      modifies this
      ensures var v, at := old(Live(nodes)), Clamp(index, |old(Live(nodes))|);
              Live(nodes) == v[..at] + Styled(units, Overridden(map[], c)) + v[at..]
      ensures PutIn(old(Stock(nodes)), k, units, Stock(nodes))
    {
      hide View, After, Stock, Advanced;
      var pos := FindPos(nodes, index);
      k := pos.InsertText(units, keys, c);
      StockConcat(pos.left, pos.right);
      nodes := pos.left + pos.right;
    }

    /** The new units take the attributes of the unit before them. */
    method InsertInheriting(index: int, units: seq<Unit>) returns (ghost at: nat)
      modifies this
      ensures var v, at := old(Live(nodes)), OrEnd(index, |old(Live(nodes))|);
              Live(nodes) == v[..at] + Styled(units, if at == 0 then map[] else v[at - 1].attrs) + v[at..]
      ensures PutIn(old(Stock(nodes)), at, units, Stock(nodes))
      ensures at == Anchor(old(nodes), OrEnd(index, |old(Live(nodes))|))
    {
      hide View, After, Stock, Styled, AttrState.Holds, Skip, Advanced, AsChange, Anchor, PutIn;
      var n := LiveLength(nodes);
      var pos := FindPos(nodes, OrEnd(index, n));
      var left, right := pos.left, pos.right;
      var k := SkipRestated(left, right);
      InsertAfterSkip(left, right, k, units);
      at := StockSkip(left, right, k, units);
      AnchorIs(nodes, OrEnd(index, n), left, right, k);
      nodes := left + right[..k] + [Node(Run(units), false)] + right[k..];
    }

    /** Removes exactly the units of the range; cleaning up dangling markers does not show. */
    method Delete(index: int, length: int)
      modifies this
      ensures var v, at := old(Live(nodes)), Clamp(index, |old(Live(nodes))|);
              Live(nodes) == v[..at] + v[Clamp(at + Clamp(length, |v|), |v|)..]
      ensures Stock(nodes) == old(Stock(nodes))
    {
      ghost var all := Live(nodes);
      hide View, After, Stock, Advanced, Folded, AttrState.Holds;
      var n := LiveLength(nodes);
      var pos := FindPos(nodes, Clamp(index, n));
      ghost var at := Clamp(index, n);
      var left := pos.left;
      var right := DeleteFirst(pos.right, if length < 0 then 0 else length, pos.Here());
      assert Live(left + right) == Live(left) + View(right, After(left, map[])) by { ViewConcat(left, right, map[]); }
      assert all[at..][Min(if length < 0 then 0 else length, n - at)..] == all[Clamp(at + Clamp(length, n), n)..];
      StockConcat(left, right);
      var stop;
      nodes, stop := CleanDangling(left + right, |left|);
      CleanedStock(left + right, nodes);
    }
  }

  lemma AfterNothing(a: Attrs)
    ensures After([], a) == a
  {
  }

  lemma AfterEmpty()
    ensures After([], map[]) == map[]
  {
  }

  lemma AppliedNext(ops: seq<Op>, i: nat, v: seq<Char>)
    requires i < |ops|
    ensures Applied(ops[i..], v) == Made(ops[i], v) + Applied(ops[i + 1..], Behind(ops[i], v))
  {
    assert ops[i..][0] == ops[i] && ops[i..][1..] == ops[i + 1..];
  }

  lemma AppliedNone(v: seq<Char>)
    ensures Applied([], v) == v
  {
  }

  /** Marks the first `length` live units as deleted, cutting the run at the end of the range. */
  method DeleteFirst(nodes: seq<Node>, length: nat, ghost a: Attrs) returns (nodes': seq<Node>)
    ensures View(nodes', a) == View(nodes, a)[Min(length, |View(nodes, a)|)..] && Stock(nodes') == Stock(nodes)
  {
    var done, rest, left: nat := [], nodes, length;
    ghost var passed := [];
    hide View, After, Stock;
    ViewEmpty(a);
    AfterNothing(a);
    NoStock(nodes);
    while rest != [] && left > 0 && !(IsLiveRun(rest[0]) && |rest[0].content.units| > left)
      invariant View(done, a) == [] && |passed| + left == length
      invariant View(nodes, a) == passed + View(rest, After(done, a))
      invariant Stock(done) + Stock(rest) == Stock(nodes)
      decreases |rest|
    {
      done, rest, left, passed := PassDeleted(done, rest, left, passed, View(nodes, a), a);
    }
    if rest != [] && left > 0 {
      nodes' := CutRun(done, rest, left, a);
      DropPassed(View(nodes, a), passed, View(rest, After(done, a)), left);
    } else {
      ViewConcat(done, rest, a);
      StockConcat(done, rest);
      ViewEmpty(After(done, a));
      nodes' := done + rest;
      DropPassed(View(nodes, a), passed, View(rest, After(done, a)), 0);
    }
  }

  /** Passes one item of the range, deleting it if it is a live run. */
  method PassDeleted(done: seq<Node>, rest: seq<Node>, left: nat, ghost passed: seq<Char>, ghost total: seq<Char>,
                     ghost a: Attrs)
    returns (done': seq<Node>, rest': seq<Node>, left': nat, ghost passed': seq<Char>)
    requires rest != [] && !(IsLiveRun(rest[0]) && |rest[0].content.units| > left)
    requires View(done, a) == [] && total == passed + View(rest, After(done, a))
    ensures View(done', a) == [] && total == passed' + View(rest', After(done', a)) && rest' == rest[1..]
    ensures |passed'| + left' == |passed| + left && Stock(done') + Stock(rest') == Stock(done) + Stock(rest)
  {
    hide View, After, Stock;
    var n := rest[0];
    ghost var b := After(done, a);
    ViewHead(rest, b);
    left', passed' := left, passed;
    if IsLiveRun(n) {
      left' := left - |n.content.units|;
      Assoc(passed, Styled(n.content.units, b), View(rest[1..], b));
      passed' := passed + Styled(n.content.units, b);
      n := n.(deleted := true);
    }
    ViewOne(done, n, a);
    StockPassed(done, rest, n);
    done', rest' := done + [n], rest[1..];
  }

  lemma DropPassed(total: seq<Char>, passed: seq<Char>, rest: seq<Char>, n: nat)
    requires total == passed + rest && n <= |rest|
    ensures total[|passed| + n..] == rest[n..]
  {
  }

  /** The run at the end of the range is cut and its first part deleted. */
  method CutRun(done: seq<Node>, rest: seq<Node>, left: nat, ghost a: Attrs) returns (nodes': seq<Node>)
    requires View(done, a) == [] && rest != [] && IsLiveRun(rest[0]) && left < |rest[0].content.units|
    ensures left <= |View(rest, After(done, a))| && View(nodes', a) == View(rest, After(done, a))[left..]
    ensures Stock(nodes') == Stock(done) + Stock(rest)
  {
    hide View, After, Stock;
    var n, b := rest[0], After(done, a);
    var units := n.content.units;
    var x, y := Node(Run(units[..left]), false), Node(Run(units[left..]), false);
    SplitShown(n, x, y, rest[1..], b);
    assert [n] + rest[1..] == rest;
    var cut := x.(deleted := true);
    ViewOne(done, cut, a);
    ViewConcat(done + [cut], [y] + rest[1..], a);
    StockCut(done, rest, left, cut, y);
    nodes' := done + [cut] + ([y] + rest[1..]);
  }
}
