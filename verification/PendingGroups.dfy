/**
  Resolution of a whole update before it is integrated.  Each client of the update has
  one group of structs.  A group runs until its current struct is blocked; a group that
  misses a clock of another group waits in the heap of that group.
*/
module PendingGroups {
  import opened Base
  import opened Delivery
  import H = PairingHeap

  /** A skip stands for clocks the update does not carry. */
  datatype Entry = Entry(skip: bool, len: nat, deps: seq<Id>)

  datatype Group = Group(client: nat, start: nat, entries: seq<Entry>)

  /** Where a group stands: its current entry, that entry's clocks, and whether it has run out. */
  datatype Cursor = Cursor(at: nat, clock: nat, end: nat, done: bool)

  function StartOf(g: Group, k: nat): nat
    requires k <= |g.entries|
  {
    if k == 0 then g.start else StartOf(g, k - 1) + g.entries[k - 1].len
  }

  function StructAt(g: Group, k: nat): Struct
    requires k < |g.entries|
  {
    Struct(Id(g.client, StartOf(g, k)), g.entries[k].len, g.entries[k].deps)
  }

  /** The structs an update carries. */
  ghost function Carried(groups: seq<Group>): set<Struct> {
    set i: nat, k: nat | i < |groups| && k < |groups[i].entries| && !groups[i].entries[k].skip :: StructAt(groups[i], k)
  }

  /** One group for each client, in ascending order. */
  ghost predicate ByClient(groups: seq<Group>) {
    forall i, j :: 0 <= i < j < |groups| ==> groups[i].client < groups[j].client
  }

  lemma {:induction false} StartsAscend(g: Group, j: nat, k: nat)
    requires j <= k <= |g.entries|
    ensures StartOf(g, j) <= StartOf(g, k)
    decreases k - j
  {
    if j < k { StartsAscend(g, j, k - 1); }
  }

  // ----------------------------------------------------------- a group's cursor

  ghost predicate Passed(g: Group, c: Cursor, v: State, k: nat)
    requires k < |g.entries|
  {
    (k < c.at || c.done) && !g.entries[k].skip ==> Covered(v, StructAt(g, k))
  }

  /** The cursor stands on a struct and everything before it is integrated. */
  ghost predicate CursorOk(g: Group, c: Cursor, v: State) {
    && c.at < |g.entries| && c.clock == StartOf(g, c.at) && c.end == StartOf(g, c.at + 1)
    && (c.done || !g.entries[c.at].skip)
    && forall k: nat {:trigger Passed(g, c, v, k)} :: k < |g.entries| ==> Passed(g, c, v, k)
  }

  function Left(g: Group, c: Cursor): int {
    if c.done then 0 else |g.entries| - c.at
  }

  lemma CursorStays(g: Group, c: Cursor, v: State, w: State)
    requires CursorOk(g, c, v) && AtMost(v, w)
    ensures CursorOk(g, c, w)
  {
    forall k: nat | k < |g.entries|
      ensures Passed(g, c, w, k)
    {
      assert Passed(g, c, v, k);
    }
  }

  /** Moves past an integrated struct, over skips, to the next struct. */
  method Next(g: Group, c: Cursor, ghost v: State) returns (c': Cursor)
    requires CursorOk(g, c, v) && !c.done && Covered(v, StructAt(g, c.at))
    ensures CursorOk(g, c', v) && Left(g, c') < Left(g, c)
  {
    c' := c;
    while c'.at + 1 < |g.entries|
      invariant c.at <= c'.at < |g.entries| && !c'.done
      invariant c'.clock == StartOf(g, c'.at) && c'.end == StartOf(g, c'.at + 1)
      invariant c'.at == c.at || g.entries[c'.at].skip
      invariant forall k: nat {:trigger Passed(g, c', v, k)} :: k < |g.entries| ==> Passed(g, c', v, k)
    {
      var next := Cursor(c'.at + 1, c'.end, c'.end + g.entries[c'.at + 1].len, false);
      forall k: nat | k < |g.entries|
        ensures Passed(g, next, v, k)
      {
        assert Passed(g, c', v, k);
      }
      c' := next;
      if !g.entries[c'.at].skip {
        return;
      }
    }
    var last := c'.(done := true);
    forall k: nat | k < |g.entries|
      ensures Passed(g, last, v, k)
    {
      assert Passed(g, c', v, k);
    }
    c' := last;
  }

  /** A dependency of the current struct that is not integrated. */
  method Missing(e: Entry, v: State) returns (dep: Option<Id>)
    ensures dep.None? ==> forall d :: d in e.deps ==> Below(v, d)
    ensures dep.Some? ==> dep.value in e.deps && !Below(v, dep.value)
  {
    var i := 0;
    while i < |e.deps|
      invariant i <= |e.deps| && forall j :: 0 <= j < i ==> Below(v, e.deps[j])
    {
      if e.deps[i].clock >= Clock(v, e.deps[i].client) {
        return Some(e.deps[i]);
      }
      i := i + 1;
    }
    return None;
  }

  /** The index of the group of a client, -1 if it has none. */
  method Find(groups: seq<Group>, client: nat) returns (r: int)
    requires ByClient(groups)
    ensures r == -1 ==> forall i :: 0 <= i < |groups| ==> groups[i].client != client
    ensures r != -1 ==> 0 <= r < |groups| && groups[r].client == client
  {
    var lo, hi := 0, |groups|;
    while lo < hi
      invariant 0 <= lo <= hi <= |groups|
      invariant forall i :: 0 <= i < lo ==> groups[i].client < client
      invariant forall i :: hi <= i < |groups| ==> groups[i].client > client
    {
      var mid := (lo + hi) / 2;
      if groups[mid].client < client {
        lo := mid + 1;
      } else if groups[mid].client > client {
        hi := mid;
      } else {
        return mid;
      }
    }
    return -1;
  }

  // ------------------------------------------------------------- blocked groups

  /** The current struct of group `i` needs the clock `wake` of group `t`. */
  predicate Awaits(groups: seq<Group>, cur: seq<Cursor>, wake: nat, v: State, i: nat, t: nat)
    requires |cur| == |groups| && i < |groups| && t < |groups|
  {
    && i != t && !cur[i].done && cur[i].at < |groups[i].entries|
    && cur[i].end > Clock(v, groups[i].client)
    && Id(groups[t].client, wake) in groups[i].entries[cur[i].at].deps
  }

  /** The current struct of group `i` needs a clock that no other group carries. */
  ghost predicate Stuck(groups: seq<Group>, c: Cursor, v: State, i: nat)
    requires i < |groups|
  {
    && !c.done && c.at < |groups[i].entries| && c.end > Clock(v, groups[i].client)
    && (c.clock > Clock(v, groups[i].client)
        || exists d :: d in groups[i].entries[c.at].deps && !Below(v, d) && NoneOther(groups, d.client, i))
  }

  ghost predicate NoneOther(groups: seq<Group>, client: nat, i: nat)
    requires i < |groups|
  {
    client == groups[i].client || forall j :: 0 <= j < |groups| ==> groups[j].client != client
  }

  /** A blocked struct blocks the rest of its group. */
  lemma BlockedGroup(g: Group, c: Cursor, v: State, k: nat)
    requires CursorOk(g, c, v) && !c.done && c.end > Clock(v, g.client) && k < |g.entries| && !g.entries[k].skip
    requires !Ready(v, StructAt(g, c.at))
    ensures Ready(v, StructAt(g, k)) ==> Covered(v, StructAt(g, k))
  {
    assert Passed(g, c, v, k);
    if k > c.at {
      StartsAscend(g, c.at + 1, k);
    }
  }

  // ------------------------------------------------------------ who waits where

  datatype Place = Queued | Running | Watching(group: nat) | Idle

  /** The queue is threaded through the sibling links. */
  ghost predicate Linked(table: seq<H.Links>, top: int, queue: seq<nat>)
    decreases |queue|
  {
    if queue == [] then top == -1
    else top == queue[0] && queue[0] < |table| && Linked(table, table[queue[0]].sibling, queue[1..])
  }

  lemma {:induction false} LinkedFrame(table: seq<H.Links>, table': seq<H.Links>, top: int, queue: seq<nat>)
    requires Linked(table, top, queue) && |table'| == |table|
    requires forall i :: i in queue && i < |table| ==> table'[i].sibling == table[i].sibling
    ensures Linked(table', top, queue)
    decreases |queue|
  {
    if queue != [] {
      assert queue[0] in queue;
      assert forall i :: i in queue[1..] ==> i in queue;
      LinkedFrame(table, table', table[queue[0]].sibling, queue[1..]);
    }
  }

  ghost predicate Distinct(queue: seq<nat>) {
    forall i, j :: 0 <= i < j < |queue| ==> queue[i] != queue[j]
  }

  lemma Prepend(table: seq<H.Links>, i: nat, queue: seq<nat>)
    requires i < |table| && i !in queue && Distinct(queue) && Linked(table, table[i].sibling, queue)
    ensures Distinct([i] + queue) && Linked(table, i, [i] + queue)
    ensures forall k :: k in [i] + queue <==> k == i || k in queue
  {
    var q := [i] + queue;
    assert q[1..] == queue;
    forall a, b | 0 <= a < b < |q|
      ensures q[a] != q[b]
    {
      assert q[b] == queue[b - 1];
      assert a > 0 ==> q[a] == queue[a - 1];
    }
  }

  ghost predicate QueueOk(table: seq<H.Links>, top: int, queue: seq<nat>, places: seq<Place>) {
    && Linked(table, top, queue) && Distinct(queue) && |places| == |table|
    && (forall i: nat :: i in queue <==> i < |places| && places[i].Queued?)
    && forall i: nat {:trigger places[i]} :: i < |places| ==> Free(table[i], places[i])
  }

  /** The links of a group outside the heaps are free for the queue. */
  predicate Free(l: H.Links, p: Place) {
    (p.Queued? ==> l.child == -1) && (p.Running? ==> l.child == -1 && l.sibling == -1)
  }

  /** Group `t` has one heap, of exactly the groups that wait for it. */
  ghost predicate WatchersOf(table: seq<H.Links>, watchers: seq<int>, trees: seq<H.Forest>, places: seq<Place>, t: nat)
    requires t < |watchers| == |trees|
  {
    && H.Holds(table, watchers[t], trees[t], 0) && H.IsHeap(trees[t])
    && forall i: nat :: i in H.Elems(trees[t]) <==> i < |places| && places[i] == Watching(t)
  }

  ghost predicate HeapsOk(table: seq<H.Links>, watchers: seq<int>, trees: seq<H.Forest>, places: seq<Place>) {
    && |watchers| == |trees| == |places| == |table|
    && forall t: nat {:trigger WatchersOf(table, watchers, trees, places, t)} ::
         t < |trees| ==> WatchersOf(table, watchers, trees, places, t)
  }

  /** Group `i` is queued or blocked.  The clock it waits for was missing at `u` and is not looked up since. */
  ghost predicate PlaceOk(groups: seq<Group>, cur: seq<Cursor>, table: seq<H.Links>, places: seq<Place>, v: State,
                          u: State, i: nat)
    requires |cur| == |table| == |places| == |groups| && i < |groups|
  {
    match places[i]
    case Queued => true
    case Running => true
    case Idle => cur[i].done || Stuck(groups, cur[i], v, i)
    case Watching(t) =>
      t < |groups| && Awaits(groups, cur, table[i].wake, v, i, t) && table[i].wake >= Clock(u, groups[t].client)
  }

  /**
    When only one client has advanced and nobody waits for what it has now, the places are
    right for the new clocks.
  */
  lemma Woken(groups: seq<Group>, cur: seq<Cursor>, table: seq<H.Links>, places: seq<Place>, v: State, u: State,
              index: nat)
    requires ByClient(groups) && PlacesOk(groups, cur, table, places, v, u) && index < |groups|
    requires forall c :: c != groups[index].client ==> Clock(v, c) == Clock(u, c)
    requires forall i :: 0 <= i < |groups| && places[i] == Watching(index) ==>
               table[i].wake >= Clock(v, groups[index].client)
               || Clock(v, groups[index].client) == Clock(u, groups[index].client)
    ensures PlacesOk(groups, cur, table, places, v, v)
    ensures forall i :: 0 <= i < |groups| && places[i] == Watching(index) ==>
              table[i].wake >= Clock(v, groups[index].client)
  {
    forall i: nat | i < |groups|
      ensures PlaceOk(groups, cur, table, places, v, v, i)
      ensures places[i] == Watching(index) ==> table[i].wake >= Clock(v, groups[index].client)
    {
      assert PlaceOk(groups, cur, table, places, v, u, i);
      assert places[i].Watching? && places[i].group != index ==> groups[places[i].group].client != groups[index].client;
    }
  }

  ghost predicate PlacesOk(groups: seq<Group>, cur: seq<Cursor>, table: seq<H.Links>, places: seq<Place>, v: State,
                           u: State)
  {
    && |cur| == |table| == |places| == |groups|
    && forall i: nat {:trigger PlaceOk(groups, cur, table, places, v, u, i)} ::
         i < |groups| ==> PlaceOk(groups, cur, table, places, v, u, i)
  }

  ghost predicate CursorsOk(groups: seq<Group>, cur: seq<Cursor>, v: State) {
    |cur| == |groups| && forall i: nat {:trigger cur[i]} :: i < |groups| ==> CursorOk(groups[i], cur[i], v)
  }

  ghost function TotalLeft(groups: seq<Group>, cur: seq<Cursor>): int
    requires |cur| == |groups|
  {
    if groups == [] then 0 else Left(groups[0], cur[0]) + TotalLeft(groups[1..], cur[1..])
  }

  lemma {:induction false} TotalLeftOf(groups: seq<Group>, cur: seq<Cursor>, i: nat, c: Cursor)
    requires |cur| == |groups| && i < |cur|
    ensures TotalLeft(groups, cur[i := c]) == TotalLeft(groups, cur) - Left(groups[i], cur[i]) + Left(groups[i], c)
    decreases |cur|
  {
    if i == 0 {
      assert cur[i := c][1..] == cur[1..];
    } else {
      assert cur[i := c][1..] == cur[1..][i - 1 := c];
      TotalLeftOf(groups[1..], cur[1..], i - 1, c);
    }
  }

  lemma {:induction false} TotalLeftNat(groups: seq<Group>, cur: seq<Cursor>, v: State)
    requires CursorsOk(groups, cur, v)
    ensures TotalLeft(groups, cur) >= 0
    decreases |cur|
  {
    if groups != [] {
      assert CursorOk(groups[0], cur[0], v);
      forall i: nat | i < |groups[1..]|
        ensures CursorOk(groups[1..][i], cur[1..][i], v)
      {
        assert cur[1..][i] == cur[i + 1];
      }
      TotalLeftNat(groups[1..], cur[1..], v);
    }
  }

  /** When nothing is queued or running, no struct of the update can be integrated. */
  lemma NothingRunnable(groups: seq<Group>, cur: seq<Cursor>, table: seq<H.Links>, places: seq<Place>, v: State)
    requires CursorsOk(groups, cur, v) && PlacesOk(groups, cur, table, places, v, v)
    requires forall i :: 0 <= i < |places| ==> !places[i].Queued? && !places[i].Running?
    ensures Closed(Carried(groups), v)
  {
    forall s | s in Carried(groups) && Ready(v, s)
      ensures Covered(v, s)
    {
      var i: nat, k: nat :|
        i < |groups| && k < |groups[i].entries| && !groups[i].entries[k].skip && s == StructAt(groups[i], k);
      var g, c := groups[i], cur[i];
      assert PlaceOk(groups, cur, table, places, v, v, i);
      if c.done {
        assert Passed(g, c, v, k);
      } else {
        assert !Ready(v, StructAt(g, c.at)) by {
          if places[i].Watching? {
            assert !Below(v, Id(groups[places[i].group].client, table[i].wake));
          }
        }
        BlockedGroup(g, c, v, k);
      }
    }
  }

  /** Progress of a running group leaves the other groups where they are. */
  lemma ProgressKeepsPlace(groups: seq<Group>, cur: seq<Cursor>, cur': seq<Cursor>, table: seq<H.Links>,
                           places: seq<Place>,
                           v: State, v': State, u: State, index: nat, i: nat)
    requires |cur'| == |cur| == |table| == |places| == |groups| && i < |groups| && index < |groups| && i != index
    requires ByClient(groups) && PlaceOk(groups, cur, table, places, v, u, i) && cur'[i] == cur[i]
    requires forall c :: c != groups[index].client ==> Clock(v', c) == Clock(v, c)
    ensures PlaceOk(groups, cur', table, places, v', u, i)
  {
    assert groups[i].client != groups[index].client;
    if places[i].Idle? && !cur[i].done && !(cur[i].clock > Clock(v, groups[i].client)) {
      var d :| d in groups[i].entries[cur[i].at].deps && !Below(v, d) && NoneOther(groups, d.client, i);
      assert !Below(v', d);
    }
  }

  /** Group `index` joins the heap of `target`; the other heaps stay. */
  lemma JoinHeaps(table: seq<H.Links>, table': seq<H.Links>, watchers: seq<int>, trees: seq<H.Forest>,
                  places: seq<Place>,
                  index: nat, target: nat, r: int, t: H.Forest)
    requires HeapsOk(table, watchers, trees, places) && |table'| == |table| && index < |table| && target < |table|
    requires places[index].Running?
    requires H.Holds(table', r, t, 0) && H.IsHeap(t) && H.Elems(t) == H.Elems(trees[target]) + {index}
    requires forall k :: 0 <= k < |table| && k !in H.Elems(trees[target]) + {index} ==> table'[k] == table[k]
    ensures HeapsOk(table', watchers[target := r], trees[target := t], places[index := Watching(target)])
  {
    var w', trees', places' := watchers[target := r], trees[target := t], places[index := Watching(target)];
    assert WatchersOf(table, watchers, trees, places, target);
    forall u: nat | u < |trees|
      ensures WatchersOf(table', w', trees', places', u)
    {
      assert WatchersOf(table, watchers, trees, places, u);
      if u != target {
        hide H.Holds, H.Elems;
        H.Frame(table, table', watchers[u], trees[u], 0);
      }
    }
  }

  lemma JoinQueue(table: seq<H.Links>, table': seq<H.Links>, top: int, queue: seq<nat>, places: seq<Place>,
                  index: nat, target: nat)
    requires QueueOk(table, top, queue, places) && |table'| == |table| && index < |table| && target < |table|
    requires places[index].Running?
    requires forall k :: 0 <= k < |table| && (places[k].Queued? || (places[k].Running? && k != index)) ==>
               table'[k] == table[k]
    ensures QueueOk(table', top, queue, places[index := Watching(target)])
  {
    LinkedFrame(table, table', top, queue);
  }

  /** The group at the root of a heap has the least awaited clock of all that wait there. */
  lemma HeapRoot(table: seq<H.Links>, watchers: seq<int>, trees: seq<H.Forest>, places: seq<Place>, t: nat)
    requires HeapsOk(table, watchers, trees, places) && t < |table|
    ensures |watchers| == |trees| == |places| == |table|
    ensures var w := watchers[t];
            && (w >= 0 <==> trees[t].Node?)
            && (w >= 0 ==> w < |table| && w in H.Elems(trees[t]) && places[w] == Watching(t))
            && forall i :: 0 <= i < |places| && places[i] == Watching(t) ==>
              w >= 0 && w < |table| && table[w].wake <= table[i].wake
  {
    assert WatchersOf(table, watchers, trees, places, t);
    H.NodeAt(table, watchers[t], trees[t], 0);
    if trees[t].Node? {
      var w := watchers[t];
      H.Parts(table, w, trees[t], 0);
      H.ElemsNil();
      H.LeastFirst(table, trees[t].children, table[w].wake);
    }
  }

  /** The first group of the heap of `index` becomes the first of the queue. */
  lemma WakeFirst(table: seq<H.Links>, popped: seq<H.Links>, watchers: seq<int>, trees: seq<H.Forest>,
                  places: seq<Place>,
                  top: int, queue: seq<nat>, index: nat, w: nat, r: int, t: H.Forest)
    requires HeapsOk(table, watchers, trees, places) && QueueOk(table, top, queue, places)
    requires |popped| == |table| && index < |table| && w < |table| && w in H.Elems(trees[index])
    requires H.Holds(popped, r, t, 0) && H.IsHeap(t) && H.Elems(t) == H.Elems(trees[index]) - {w}
    requires popped[w].child == -1
    requires forall k :: 0 <= k < |table| && k !in H.Elems(trees[index]) ==> popped[k] == table[k]
    ensures var table' := popped[w := popped[w].(sibling := top)];
            && HeapsOk(table', watchers[index := r], trees[index := t], places[w := Queued])
            && QueueOk(table', w, [w] + queue, places[w := Queued])
  {
    var table' := popped[w := popped[w].(sibling := top)];
    var w', trees', places' := watchers[index := r], trees[index := t], places[w := Queued];
    assert WatchersOf(table, watchers, trees, places, index);
    hide H.Holds, H.Elems;
    forall u: nat | u < |trees|
      ensures WatchersOf(table', w', trees', places', u)
    {
      assert WatchersOf(table, watchers, trees, places, u);
      if u != index {
        H.Frame(table, table', watchers[u], trees[u], 0);
      } else {
        H.Frame(popped, table', r, t, 0);
      }
    }
    assert QueueOk(table', w, [w] + queue, places') by {
      hide WatchersOf;
      LinkedFrame(table, table', top, queue);
      Prepend(table', w, queue);
    }
  }

  /** Empty heaps are right when nobody waits. */
  lemma NoWatchers(table: seq<H.Links>, watchers: seq<int>, trees: seq<H.Forest>, places: seq<Place>)
    requires |watchers| == |trees| == |places| == |table|
    requires forall t :: 0 <= t < |table| ==> watchers[t] == -1 && trees[t] == H.Nil && !places[t].Watching?
    ensures HeapsOk(table, watchers, trees, places)
  {
    forall t: nat | t < |trees|
      ensures WatchersOf(table, watchers, trees, places, t)
    {
      assert H.Holds(table, -1, H.Nil, 0) && H.Elems(H.Nil) == {};
    }
  }

  /** The first group of the queue starts to run. */
  lemma TakeFirst(table: seq<H.Links>, watchers: seq<int>, trees: seq<H.Forest>, places: seq<Place>, top: int,
                  queue: seq<nat>)
    requires HeapsOk(table, watchers, trees, places) && QueueOk(table, top, queue, places) && top >= 0
    ensures top < |table| && queue != [] && places[top].Queued?
    ensures var table', places' := table[top := table[top].(sibling := -1)], places[top := Running];
            HeapsOk(table', watchers, trees, places') && QueueOk(table', table[top].sibling, queue[1..], places')
  {
    assert queue != [] && top == queue[0] && top in queue;
    var table', places' := table[top := table[top].(sibling := -1)], places[top := Running];
    assert Free(table[top], places[top]);
    assert queue == [top] + queue[1..];
    assert forall i: nat :: i in queue <==> i == top || i in queue[1..];
    LinkedFrame(table, table', table[top].sibling, queue[1..]);
    forall t: nat | t < |trees|
      ensures WatchersOf(table', watchers, trees, places', t)
    {
      assert WatchersOf(table, watchers, trees, places, t);
      hide H.Holds, H.Elems;
      H.Frame(table, table', watchers[t], trees[t], 0);
    }
  }

  class Resolver {
    const groups: seq<Group>
    var cur: seq<Cursor>
    var table: seq<H.Links>
    var watchers: seq<int>
    var top: int
    var known: State
    ghost var base: State
    ghost var queue: seq<nat>
    ghost var trees: seq<H.Forest>
    ghost var places: seq<Place>

    /** Every group is in its place; clocks waited for are missing at `u`. */
    ghost predicate Inv(u: State)
      reads this
    {
      && ByClient(groups) && CursorsOk(groups, cur, known)
      && HeapsOk(table, watchers, trees, places) && QueueOk(table, top, queue, places)
      && PlacesOk(groups, cur, table, places, known, u)
      && Sound(Carried(groups), base, known)
    }

    /** The running group waits for clock `wake` of group `target`. */
    method Watch(index: nat, target: nat, wake: nat)
      requires index < |groups| && target < |groups| && |places| == |groups| && places[index].Running?
      requires HeapsOk(table, watchers, trees, places) && QueueOk(table, top, queue, places)
      modifies `table, `watchers, `trees, `places
      ensures places == old(places)[index := Watching(target)]
      ensures HeapsOk(table, watchers, trees, places) && QueueOk(table, top, queue, places)
      ensures table[index].wake == wake
      ensures forall k :: 0 <= k < |table| && k != index ==> table[k].wake == old(table)[k].wake
    {
      assert WatchersOf(table, watchers, trees, places, target);
      assert Free(table[index], places[index]);
      ghost var before := table;
      table := table[index := table[index].(wake := wake)];
      ghost var one := H.Node(index, H.Nil, H.Nil);
      H.Single(table, index);
      H.Frame(before, table, watchers[target], trees[target], 0);
      hide H.Holds, H.Elems;
      var t', r;
      ghost var t;
      t', r, t := H.Meld(table, watchers[target], index, trees[target], one, 0);
      table := t';
      JoinHeaps(before, table, watchers, trees, places, index, target, r, t);
      JoinQueue(before, table, top, queue, places, index, target);
      watchers := watchers[target := r];
      trees := trees[target := t];
      places := places[index := Watching(target)];
    }

    /** The running group stops, exhausted or blocked for good. */
    ghost method Rest(index: nat)
      requires index < |groups| && |places| == |groups| && places[index].Running?
      requires HeapsOk(table, watchers, trees, places) && QueueOk(table, top, queue, places)
      modifies `places
      ensures places == old(places)[index := Idle]
      ensures HeapsOk(table, watchers, trees, places) && QueueOk(table, top, queue, places)
    {
      ghost var before := places;
      places := places[index := Idle];
      forall t: nat | t < |trees|
        ensures WatchersOf(table, watchers, trees, places, t)
      {
        assert WatchersOf(table, watchers, trees, before, t);
      }
      assert Free(table[index], before[index]);
    }

    /** Integrates the current struct of the running group unless it is covered, and moves on. */
    method Step(index: nat)
      requires CursorsOk(groups, cur, known) && Sound(Carried(groups), base, known)
      requires index < |groups| && !cur[index].done
      requires Covered(known, StructAt(groups[index], cur[index].at))
               || Ready(known, StructAt(groups[index], cur[index].at))
      modifies `cur, `known
      ensures CursorsOk(groups, cur, known) && Sound(Carried(groups), base, known)
      ensures AtMost(old(known), known)
      ensures forall c :: c != groups[index].client ==> Clock(known, c) == Clock(old(known), c)
      ensures forall i :: 0 <= i < |cur| && i != index ==> cur[i] == old(cur)[i]
      ensures TotalLeft(groups, cur) < TotalLeft(groups, old(cur))
    {
      var g, v := groups[index], known;
      var s := StructAt(g, cur[index].at);
      assert s in Carried(groups);
      AttemptSound(Carried(groups), base, known, s);
      if cur[index].end > Clock(known, g.client) {
        known := known[g.client := cur[index].end];
      }
      assert known == Attempt(v, s);
      forall i: nat | i < |groups|
        ensures CursorOk(groups[i], cur[i], known)
      {
        CursorStays(groups[i], cur[i], v, known);
      }
      var c := Next(g, cur[index], known);
      TotalLeftOf(groups, cur, index, c);
      cur := cur[index := c];
    }

    /** Runs a group until it is exhausted or blocked. */
    method Run(index: nat)
      requires index < |groups| && Inv(known) && places[index].Running?
      modifies `cur, `known, `table, `watchers, `trees, `places
      ensures Inv(old(known)) && AtMost(old(known), known)
      ensures forall c :: c != groups[index].client ==> Clock(known, c) == Clock(old(known), c)
      ensures !places[index].Running? && !places[index].Queued?
      ensures forall i :: 0 <= i < |places| && i != index ==>
                places[i] == old(places)[i] && table[i].wake == old(table)[i].wake
      ensures TotalLeft(groups, cur) <= TotalLeft(groups, old(cur))
      ensures Clock(known, groups[index].client) > Clock(old(known), groups[index].client) ==>
                TotalLeft(groups, cur) < TotalLeft(groups, old(cur))
    {
      var g := groups[index];
      ghost var u := known;
      hide HeapsOk, QueueOk, PlaceOk, Sound, TotalLeft;
      while !cur[index].done
        invariant Inv(u) && places == old(places) && table == old(table)
        invariant AtMost(u, known)
        invariant forall c :: c != g.client ==> Clock(known, c) == Clock(u, c)
        invariant TotalLeft(groups, cur) <= TotalLeft(groups, old(cur))
        invariant TotalLeft(groups, cur) == TotalLeft(groups, old(cur)) ==> known == u
        decreases TotalLeft(groups, cur)
      {
        assert CursorOk(g, cur[index], known);
        if cur[index].end > Clock(known, g.client) {
          if cur[index].clock > Clock(known, g.client) {
            Stop(index, u);
            return;
          }
          var dep := Missing(g.entries[cur[index].at], known);
          if dep.Some? {
            Block(index, dep.value, u);
            return;
          }
        }
        TotalLeftNat(groups, cur, known);
        Advance(index, u);
      }
      Stop(index, u);
    }

    /** The running group stops for good. */
    ghost method Stop(index: nat, u: State)
      requires index < |groups| && Inv(u) && places[index].Running?
      requires cur[index].done || Stuck(groups, cur[index], known, index)
      modifies `places
      ensures Inv(u) && places == old(places)[index := Idle]
    {
      ghost var before := places;
      Rest(index);
      forall i: nat | i < |groups|
        ensures PlaceOk(groups, cur, table, places, known, u, i)
      {
        assert PlaceOk(groups, cur, table, before, known, u, i);
      }
    }

    /** The running group is blocked by `dep`: it waits for the group of that client, if there is one. */
    method Block(index: nat, dep: Id, ghost u: State)
      requires index < |groups| && Inv(u) && AtMost(u, known) && places[index].Running? && !cur[index].done
      requires cur[index].end > Clock(known, groups[index].client)
      requires cur[index].at < |groups[index].entries| && dep in groups[index].entries[cur[index].at].deps
      requires !Below(known, dep)
      modifies `table, `watchers, `trees, `places
      ensures Inv(u) && !places[index].Running? && !places[index].Queued?
      ensures forall i :: 0 <= i < |places| && i != index ==>
                places[i] == old(places)[i] && table[i].wake == old(table)[i].wake
    {
      var target := Find(groups, dep.client);
      ghost var places0, table0 := places, table;
      if target >= 0 && target != index {
        Watch(index, target, dep.clock);
        assert Id(groups[target].client, dep.clock) == dep;
        forall i: nat | i < |groups|
          ensures PlaceOk(groups, cur, table, places, known, u, i)
        {
          assert PlaceOk(groups, cur, table0, places0, known, u, i);
          assert i != index ==> table[i].wake == table0[i].wake && places[i] == places0[i];
        }
      } else {
        assert NoneOther(groups, dep.client, index);
        Stop(index, u);
      }
    }

    /** One struct further. */
    method Advance(index: nat, ghost u: State)
      requires index < |groups| && Inv(u) && places[index].Running? && !cur[index].done
      requires Covered(known, StructAt(groups[index], cur[index].at))
               || Ready(known, StructAt(groups[index], cur[index].at))
      requires AtMost(u, known) && forall c :: c != groups[index].client ==> Clock(known, c) == Clock(u, c)
      modifies `cur, `known
      ensures Inv(u) && AtMost(u, known) && forall c :: c != groups[index].client ==> Clock(known, c) == Clock(u, c)
      ensures TotalLeft(groups, cur) < TotalLeft(groups, old(cur))
    {
      ghost var v, cur0 := known, cur;
      Step(index);
      AtMostTrans(u, v, known);
      forall i: nat | i < |groups|
        ensures PlaceOk(groups, cur, table, places, known, u, i)
      {
        assert PlaceOk(groups, cur0, table, places, v, u, i);
        if i != index {
          ProgressKeepsPlace(groups, cur0, cur, table, places, v, known, u, index, i);
        }
      }
    }

    /**
      Wakes exactly the watchers of `index` whose clock is now there.  Only they are put
      on the queue; the others stay where they are.
    */
    method Wake(index: nat, start: nat, ghost u: State)
      requires index < |groups| && Inv(u) && AtMost(u, known) && start == Clock(u, groups[index].client)
      requires forall c :: c != groups[index].client ==> Clock(known, c) == Clock(u, c)
      modifies `table, `watchers, `top, `queue, `trees, `places
      ensures Inv(known)
      ensures forall i :: 0 <= i < |places| ==> table[i].wake == old(table)[i].wake
      ensures forall i :: 0 <= i < |places| ==>
                places[i] == if old(places)[i] == Watching(index) && table[i].wake < Clock(known, groups[index].client)
                             then Queued else old(places)[i]
      ensures Clock(known, groups[index].client) == start ==> queue == old(queue)
    {
      var frontier := Clock(known, groups[index].client);
      var w := watchers[index];
      hide HeapsOk, QueueOk, CursorsOk, PlaceOk, Sound, H.Elems;
      HeapRoot(table, watchers, trees, places, index);
      while frontier > start && w >= 0 && table[w].wake < frontier
        invariant Inv(u) && w == watchers[index] && (w >= 0 ==> w < |table|)
        invariant forall i :: 0 <= i < |places| ==> table[i].wake == old(table)[i].wake
        invariant forall i :: 0 <= i < |places| && places[i] != old(places)[i] ==>
                    old(places)[i] == Watching(index) && table[i].wake < frontier && places[i] == Queued
        invariant frontier == start ==> queue == old(queue)
        decreases H.Elems(trees[index])
      {
        WakeOne(index, w, u);
        w := watchers[index];
        HeapRoot(table, watchers, trees, places, index);
      }
      HeapRoot(table, watchers, trees, places, index);
      Woken(groups, cur, table, places, known, u, index);
    }

    /** Wakes the first group of the heap of `index`. */
    method WakeOne(index: nat, w: nat, ghost u: State)
      requires index < |groups| && Inv(u) && w == watchers[index]
      modifies `table, `watchers, `top, `queue, `trees, `places
      ensures Inv(u) && w < |groups|
      ensures old(places)[w] == Watching(index) && places == old(places)[w := Queued]
      ensures forall i :: 0 <= i < |places| ==> table[i].wake == old(table)[i].wake
      ensures H.Elems(trees[index]) < H.Elems(old(trees[index])) && queue == [w] + old(queue)
    {
      HeapRoot(table, watchers, trees, places, index);
      assert WatchersOf(table, watchers, trees, places, index);
      ghost var places0, table0 := places, table;
      hide H.Holds, H.Elems;
      var popped, r;
      ghost var t;
      popped, r, t := H.Pop(table, w, trees[index], 0);
      WakeFirst(table, popped, watchers, trees, places, top, queue, index, w, r, t);
      table := popped[w := popped[w].(sibling := top)];
      watchers := watchers[index := r];
      trees := trees[index := t];
      places := places[w := Queued];
      queue := [w] + queue;
      top := w;
      forall i: nat | i < |groups|
        ensures PlaceOk(groups, cur, table, places, known, u, i)
      {
        assert PlaceOk(groups, cur, table0, places0, known, u, i);
        assert table[i].wake == table0[i].wake;
      }
    }

    /** Every group of the update starts at its first struct. */
    constructor (groups: seq<Group>, known: State)
      requires ByClient(groups)
      requires forall i :: 0 <= i < |groups| ==> |groups[i].entries| > 0 && !groups[i].entries[0].skip
      ensures this.groups == groups && this.known == known && Fresh()
    {
      this.groups := groups;
      this.known := known;
      base := known;
      cur := seq(|groups|, i requires 0 <= i < |groups| && |groups[i].entries| > 0 =>
                   Cursor(0, groups[i].start, groups[i].start + groups[i].entries[0].len, false));
      table := seq(|groups|, _ => H.Links(0, -1, -1));
      watchers := seq(|groups|, _ => -1);
      trees := seq(|groups|, _ => H.Nil);
      places := seq(|groups|, _ => Idle);
      top := -1;
      queue := [];
      new;
      forall i: nat | i < |groups|
        ensures CursorOk(groups[i], cur[i], known)
      {
        assert StartOf(groups[i], 1) == StartOf(groups[i], 0) + groups[i].entries[0].len;
      }
    }

    ghost predicate Fresh()
      reads this
    {
      && ByClient(groups) && base == known && CursorsOk(groups, cur, known)
      && |table| == |watchers| == |groups|
    }

    /** Clears the links and queues every group, the last one first. */
    method QueueAll()
      requires Fresh()
      modifies `table, `watchers, `top, `queue, `trees, `places
      ensures Inv(known) && forall i :: 0 <= i < |places| ==> places[i].Queued?
    {
      trees := seq(|groups|, _ => H.Nil);
      places := seq(|groups|, _ => Idle);
      queue, top := [], -1;
      var i := 0;
      while i < |groups|
        invariant 0 <= i <= |groups| == |table| == |watchers|
        invariant |places| == |trees| == |groups|
        invariant forall t :: 0 <= t < |groups| ==> trees[t] == H.Nil
        invariant forall t :: 0 <= t < i ==> watchers[t] == -1 && table[t].child == -1
        invariant forall t :: 0 <= t < |groups| ==> places[t] == if t < i then Queued else Idle
        invariant Linked(table, top, queue) && Distinct(queue)
        invariant forall k: nat :: k in queue <==> k < i
      {
        hide CursorsOk, Sound, HeapsOk, Carried, ByClient;
        ghost var before := table;
        table := table[i := table[i].(child := -1, sibling := top)];
        watchers := watchers[i := -1];
        LinkedFrame(before, table, top, queue);
        Prepend(table, i, queue);
        queue := [i] + queue;
        places := places[i := Queued];
        top := i;
        i := i + 1;
      }
      NoWatchers(table, watchers, trees, places);
    }

    /** The known clocks end at the least fixpoint of the structs of the update. */
    method Resolve()
      requires Fresh()
      modifies this
      ensures Least(Carried(groups), old(known), known)
      ensures HeapsOk(table, watchers, trees, places) && PlacesOk(groups, cur, table, places, known, known)
    {
      QueueAll();
      while top >= 0
        invariant Inv(known) && base == old(known)
        invariant forall i :: 0 <= i < |places| ==> !places[i].Running?
        decreases TotalLeft(groups, cur), |queue|
      {
        TotalLeftNat(groups, cur, known);
        var index := Dequeue();
        var start := Clock(known, groups[index].client);
        ghost var u := known;
        Run(index);
        Wake(index, start, u);
      }
      NothingRunnable(groups, cur, table, places, known);
    }

    /** Takes the first group off the queue. */
    method Dequeue() returns (index: nat)
      requires Inv(known) && top >= 0
      modifies `table, `top, `queue, `places
      ensures Inv(known) && index < |groups| && places[index].Running? && |queue| == |old(queue)| - 1
      ensures places == old(places)[index := Running]
    {
      index := top;
      ghost var places0, table0 := places, table;
      TakeFirst(table, watchers, trees, places, top, queue);
      top := table[index].sibling;
      table := table[index := table[index].(sibling := -1)];
      queue := queue[1..];
      places := places[index := Running];
      hide HeapsOk, QueueOk, CursorsOk, Sound;
      forall i: nat | i < |groups|
        ensures PlaceOk(groups, cur, table, places, known, known, i)
      {
        assert PlaceOk(groups, cur, table0, places0, known, known, i);
      }
    }
  }
}
