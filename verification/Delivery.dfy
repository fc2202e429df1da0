/**
  Delivery of structs.  A struct is a run of clocks of one client that needs some
  identifiers to be integrated first.  Structs arrive in any order and any grouping;
  those that cannot be integrated yet are parked.  Integration is monotone, so there
  is one least set of clocks that leaves nothing integrable, and the code reaches it.
*/
module Delivery {
  import opened Base

  /** `deps` lists the origin, the right origin and the container, as far as they exist. */
  datatype Struct = Struct(id: Id, len: nat, deps: seq<Id>)

  /** The next clock of every client. */
  type State = map<nat, nat>

  function Clock(v: State, c: nat): nat {
    if c in v then v[c] else 0
  }

  predicate Below(v: State, id: Id) {
    id.clock < Clock(v, id.client)
  }

  function End(s: Struct): nat {
    s.id.clock + s.len
  }

  /** No gap before the struct and every dependency integrated. */
  predicate Ready(v: State, s: Struct) {
    s.id.clock <= Clock(v, s.id.client) && forall d :: d in s.deps ==> Below(v, d)
  }

  predicate Covered(v: State, s: Struct) {
    End(s) <= Clock(v, s.id.client)
  }

  /** The clocks after an attempt to integrate `s`. */
  function Attempt(v: State, s: Struct): State {
    if !Covered(v, s) && Ready(v, s) then v[s.id.client := End(s)] else v
  }

  /** Every client is at most as far in `v` as in `w`. */
  ghost predicate AtMost(v: State, w: State) {
    forall c :: Clock(v, c) <= Clock(w, c)
  }

  /** Nothing of `all` can advance `v`. */
  ghost predicate Closed(all: set<Struct>, v: State) {
    forall s :: s in all && Ready(v, s) ==> Covered(v, s)
  }

  /** Any clocks that leave nothing of `all` integrable are at least as far as `v`. */
  ghost predicate Sound(all: set<Struct>, base: State, v: State) {
    AtMost(base, v) && forall w :: Closed(all, w) && AtMost(base, w) ==> AtMost(v, w)
  }

  /** `v` is the least fixpoint of integrating `all` from `base`. */
  ghost predicate Least(all: set<Struct>, base: State, v: State) {
    Sound(all, base, v) && Closed(all, v)
  }

  /** The fixpoint does not depend on how it was reached. */
  lemma LeastIsUnique(all: set<Struct>, base: State, v: State, w: State)
    requires Least(all, base, v) && Least(all, base, w)
    ensures forall c :: Clock(v, c) == Clock(w, c)
  {
    assert AtMost(v, w) && AtMost(w, v);
  }

  lemma AttemptSound(all: set<Struct>, base: State, v: State, s: Struct)
    requires Sound(all, base, v) && s in all
    ensures Sound(all, base, Attempt(v, s)) && AtMost(v, Attempt(v, s))
  {
    var v' := Attempt(v, s);
    forall w | Closed(all, w) && AtMost(base, w)
      ensures AtMost(v', w)
    {
      assert AtMost(v, w);
      if Ready(v, s) {
        assert Ready(w, s);
      }
    }
  }

  /** More structs never take anything back. */
  lemma SoundForMore(all: set<Struct>, more: set<Struct>, base: State, v: State)
    requires Sound(all, base, v) && all <= more
    ensures Sound(more, base, v)
  {
  }

  lemma AtMostTrans(u: State, v: State, w: State)
    requires AtMost(u, v) && AtMost(v, w)
    ensures AtMost(u, w)
  {
  }

  lemma CoveredStays(v: State, w: State, s: Struct)
    requires AtMost(v, w) && Covered(v, s)
    ensures Covered(w, s)
  {
  }

  // -------------------------------------------------------- overlapping structs

  /**
    Two structs that cover one clock agree on what it needs: a struct that starts
    inside another needs nothing more than the other and its client's earlier clocks.
  */
  ghost predicate Consistent(all: set<Struct>) {
    && (forall s :: s in all ==> s.len > 0)
    && (forall a, b, d ::
          a in all && b in all && a.id.client == b.id.client && a.id.clock <= b.id.clock < End(a) && d in b.deps ==>
            d in a.deps || (d.client == b.id.client && d.clock < b.id.clock))
  }

  /** `a` accounts for `id`: it covers it and has all it needs. */
  ghost predicate Accounts(all: set<Struct>, v: State, id: Id, a: Struct) {
    && a in all && a.id.client == id.client && a.id.clock <= id.clock < End(a)
    && forall d :: d in a.deps ==> Below(v, d)
  }

  /** The clocks after attempts at the structs of a log, one after the other, from nothing. */
  function Fed(log: seq<Struct>): State {
    if log == [] then map[] else Attempt(Fed(log[..|log| - 1]), log[|log| - 1])
  }

  ghost predicate Feeds(all: set<Struct>, log: seq<Struct>, v: State) {
    v == Fed(log) && forall s :: s in log ==> s in all
  }

  /**
    The clocks were reached by integrating structs one at a time, and every integrated
    clock came with a struct whose dependencies are integrated.
  */
  ghost predicate Grounded(all: set<Struct>, v: State) {
    && (exists log :: Feeds(all, log, v))
    && (forall id :: Below(v, id) ==> exists a :: Accounts(all, v, id, a))
  }

  lemma NothingGrounded(all: set<Struct>)
    ensures Grounded(all, map[])
  {
    assert Feeds(all, [], map[]);
  }

  lemma AttemptGrounded(all: set<Struct>, v: State, s: Struct)
    requires Grounded(all, v) && s in all
    ensures Grounded(all, Attempt(v, s))
  {
    var v' := Attempt(v, s);
    var log :| Feeds(all, log, v);
    assert (log + [s])[..|log|] == log;
    assert Feeds(all, log + [s], v');
    forall id | Below(v', id)
      ensures exists a :: Accounts(all, v', id, a)
    {
      if Below(v, id) {
        var a :| Accounts(all, v, id, a);
        assert Accounts(all, v', id, a);
      } else {
        assert Accounts(all, v', id, s);
      }
    }
  }

  /** A struct whose first clock is integrated has all its dependencies integrated. */
  lemma PartialIsReady(all: set<Struct>, v: State, s: Struct)
    requires Consistent(all) && Grounded(all, v) && s in all && s.id.clock < Clock(v, s.id.client)
    ensures Ready(v, s)
  {
    assert Below(v, s.id);
    var a :| Accounts(all, v, s.id, a);
    forall d | d in s.deps
      ensures Below(v, d)
    {
      assert d in a.deps || (d.client == s.id.client && d.clock < s.id.clock);
    }
  }

  lemma GroundedForMore(all: set<Struct>, more: set<Struct>, v: State)
    requires Grounded(all, v) && all <= more
    ensures Grounded(more, v)
  {
    var log :| Feeds(all, log, v);
    assert Feeds(more, log, v);
    forall id | Below(v, id)
      ensures exists a :: Accounts(more, v, id, a)
    {
      var a :| Accounts(all, v, id, a);
      assert Accounts(more, v, id, a);
    }
  }

  // ------------------------------------------------------------------ the waiter heap

  datatype Waiter = Waiter(clock: nat, index: nat)

  /** No entry is smaller than its parent. */
  predicate IsHeap(h: seq<Waiter>) {
    forall i :: 0 < i < |h| ==> Ordered(h, i)
  }

  predicate Ordered(h: seq<Waiter>, i: int)
    requires 0 < i < |h|
  {
    h[(i - 1) / 2].clock <= h[i].clock
  }

  lemma {:induction false} MinimumAtRoot(h: seq<Waiter>, i: nat)
    requires IsHeap(h) && i < |h|
    ensures h[0].clock <= h[i].clock
  {
    if i > 0 {
      assert Ordered(h, i);
      MinimumAtRoot(h, (i - 1) / 2);
    }
  }

  function Swap(h: seq<Waiter>, i: nat, j: nat): (r: seq<Waiter>)
    requires i < |h| && j < |h|
    ensures |r| == |h| && multiset(r) == multiset(h)
  {
    var r := h[i := h[j]][j := h[i]];
    assert multiset(h[i := h[j]]) == multiset(h) - multiset{h[i]} + multiset{h[j]};
    r
  }

  /** The children of `i` are not smaller than the parent of `i`. */
  predicate Bridged(h: seq<Waiter>, i: nat)
    requires i < |h|
  {
    i > 0 ==>
      && (2 * i + 1 < |h| ==> h[(i - 1) / 2].clock <= h[2 * i + 1].clock)
      && (2 * i + 2 < |h| ==> h[(i - 1) / 2].clock <= h[2 * i + 2].clock)
  }

  /** A heap but for entry `i`, which may be too small. */
  predicate Rising(h: seq<Waiter>, i: nat) {
    && i < |h| && Bridged(h, i)
    && forall k :: 0 < k < |h| && k != i ==> Ordered(h, k)
  }

  /** A heap but for entry `i`, which may be too large. */
  predicate Sinking(h: seq<Waiter>, i: nat) {
    && i < |h| && Bridged(h, i)
    && forall k :: 0 < k < |h| && (k - 1) / 2 != i ==> Ordered(h, k)
  }

  lemma RiseOnce(h: seq<Waiter>, i: nat)
    requires Rising(h, i) && i > 0 && h[i].clock < h[(i - 1) / 2].clock
    ensures Rising(Swap(h, (i - 1) / 2, i), (i - 1) / 2)
  {
    var p := (i - 1) / 2;
    var r := Swap(h, p, i);
    if p > 0 { assert Ordered(h, p); }
    forall k | 0 < k < |h| && k != p
      ensures Ordered(r, k)
    {
      if k != i { assert Ordered(h, k); }
      assert (k - 1) / 2 == i ==> k == 2 * i + 1 || k == 2 * i + 2;
    }
    forall k | (k == 2 * p + 1 || k == 2 * p + 2) && k < |h| && k != i
      ensures h[p].clock <= h[k].clock
    {
      assert Ordered(h, k);
    }
  }

  /** The smaller child of `i` and `i` itself: where a sinking entry belongs. */
  predicate IsLeast(h: seq<Waiter>, i: nat, least: nat) {
    && i < |h| && least < |h| && least in {i, 2 * i + 1, 2 * i + 2} && h[least].clock <= h[i].clock
    && (2 * i + 1 < |h| ==> h[least].clock <= h[2 * i + 1].clock)
    && (2 * i + 2 < |h| ==> h[least].clock <= h[2 * i + 2].clock)
  }

  lemma SinkOnce(h: seq<Waiter>, i: nat, least: nat)
    requires Sinking(h, i) && IsLeast(h, i, least) && least != i
    ensures Sinking(Swap(h, i, least), least)
  {
    var r := Swap(h, i, least);
    assert (least - 1) / 2 == i;
    forall k | 0 < k < |h| && (k - 1) / 2 != least
      ensures Ordered(r, k)
    {
      assert (k - 1) / 2 == i ==> k == 2 * i + 1 || k == 2 * i + 2;
      if (k - 1) / 2 != i { assert Ordered(h, k); }
    }
    forall k | (k == 2 * least + 1 || k == 2 * least + 2) && k < |h|
      ensures h[least].clock <= h[k].clock
    {
      assert Ordered(h, k);
    }
  }

  /** The heap with one more entry, sifted up from the end. */
  method Push(h: seq<Waiter>, w: Waiter) returns (r: seq<Waiter>)
    requires IsHeap(h)
    ensures IsHeap(r) && multiset(r) == multiset(h) + multiset{w}
  {
    hide Swap;
    r := h + [w];
    var i: nat := |r| - 1;
    forall k | 0 < k < |r| && k != i ensures Ordered(r, k) { assert Ordered(h, k); }
    while i > 0
      invariant Rising(r, i) && multiset(r) == multiset(h) + multiset{w}
    {
      var parent := (i - 1) / 2;
      if r[parent].clock <= r[i].clock {
        assert Ordered(r, i);
        break;
      }
      RiseOnce(r, i);
      r := Swap(r, parent, i);
      i := parent;
    }
  }

  /** The heap without its root: the last entry takes its place and sinks. */
  method Pop(h: seq<Waiter>) returns (r: seq<Waiter>)
    requires IsHeap(h) && h != []
    ensures IsHeap(r) && multiset(r) == multiset(h) - multiset{h[0]}
  {
    hide Swap;
    var last := |h| - 1;
    DropRoot(h);
    r := h[0 := h[last]][..last];
    if r == [] { return; }
    var i: nat := 0;
    forall k | 0 < k < |r| && (k - 1) / 2 != 0 ensures Ordered(r, k) { assert Ordered(h, k); }
    while true
      invariant Sinking(r, i) && multiset(r) == multiset(h) - multiset{h[0]}
      decreases |r| - i
    {
      var least, left, right := i, 2 * i + 1, 2 * i + 2;
      if left < |r| && r[left].clock < r[least].clock { least := left; }
      if right < |r| && r[right].clock < r[least].clock { least := right; }
      if least == i {
        forall k | 0 < k < |r| && (k - 1) / 2 == i ensures Ordered(r, k) { assert k == left || k == right; }
        return;
      }
      SinkOnce(r, i, least);
      r := Swap(r, i, least);
      i := least;
    }
  }

  lemma DropRoot(h: seq<Waiter>)
    requires h != []
    ensures var last := |h| - 1; multiset(h[0 := h[last]][..last]) == multiset(h) - multiset{h[0]}
  {
    var last := |h| - 1;
    if last > 0 {
      assert h[0 := h[last]][..last] == [h[last]] + h[1..last];
      assert h == [h[0]] + h[1..last] + [h[last]];
    } else {
      assert h == [h[0]];
    }
  }

  // ------------------------------------------------------- the waiter worklist

  /** Whether an attempt is over: a struct that is covered is finished even when blocked. */
  predicate Finished(v: State, s: Struct) {
    s.id.clock <= Clock(v, s.id.client) && (Covered(v, s) || Ready(v, s))
  }

  /** As long as client `c` has not passed `clock`, the struct cannot be integrated. */
  predicate Blocks(s: Struct, c: nat, clock: nat) {
    (c == s.id.client && clock + 1 == s.id.clock) || Id(c, clock) in s.deps
  }

  /** The first unmet dependency of a struct that cannot be integrated. */
  method Blocker(v: State, s: Struct) returns (c: nat, clock: nat)
    requires !Ready(v, s)
    ensures Blocks(s, c, clock) && Clock(v, c) <= clock
  {
    if s.id.clock > Clock(v, s.id.client) {
      return s.id.client, s.id.clock - 1;
    }
    var i := 0;
    while Below(v, s.deps[i])
      invariant 0 <= i < |s.deps| && exists k :: i <= k < |s.deps| && !Below(v, s.deps[k])
      decreases |s.deps| - i
    {
      i := i + 1;
    }
    return s.deps[i].client, s.deps[i].clock;
  }

  lemma BlockedNotReady(v: State, s: Struct, c: nat, clock: nat)
    requires Blocks(s, c, clock) && Clock(v, c) <= clock
    ensures !Ready(v, s)
  {
  }

  /** Where an index of the queue is. */
  datatype Place = Done | Stacked | Waiting(client: nat)

  ghost predicate EntryOk(items: seq<Struct>, place: seq<Place>, c: nat, w: Waiter) {
    && w.index < |items| && w.index < |place| && place[w.index] == Waiting(c)
    && Blocks(items[w.index], c, w.clock)
  }

  /** The entries of the heap of client `c`: each index waiting there once, for a clock that blocks it. */
  ghost predicate HeapOk(items: seq<Struct>, place: seq<Place>, c: nat, h: seq<Waiter>) {
    && IsHeap(h)
    && (forall w :: w in multiset(h) ==> EntryOk(items, place, c, w) && multiset(h)[w] == 1)
    && (forall a, b :: a in multiset(h) && b in multiset(h) && a.index == b.index ==> a == b)
    && Complete(place, c, h)
  }

  ghost predicate Complete(place: seq<Place>, c: nat, h: seq<Waiter>) {
    forall i :: 0 <= i < |place| && place[i] == Waiting(c) ==> exists w :: w in multiset(h) && w.index == i
  }

  /** The clocks the heap waits for have not been reached. */
  ghost predicate Unmet(v: State, c: nat, h: seq<Waiter>) {
    forall w :: w in multiset(h) ==> Clock(v, c) <= w.clock
  }

  function HeapOf(waiters: map<nat, seq<Waiter>>, c: nat): seq<Waiter> {
    if c in waiters then waiters[c] else []
  }

  ghost predicate WaitersOk(items: seq<Struct>, place: seq<Place>, waiters: map<nat, seq<Waiter>>) {
    forall c :: HeapOk(items, place, c, HeapOf(waiters, c))
  }

  ghost predicate StackOk(place: seq<Place>, stack: seq<nat>) {
    && (forall k :: 0 <= k < |stack| ==> stack[k] < |place| && place[stack[k]] == Stacked)
    && (forall j, k :: 0 <= j < k < |stack| ==> stack[j] != stack[k])
    && (forall i: nat :: i < |place| && place[i] == Stacked ==> i in stack)
  }

  ghost predicate DoneOk(items: seq<Struct>, v: State, place: seq<Place>, done: seq<bool>) {
    && |place| == |done| == |items|
    && (forall i :: 0 <= i < |items| ==> (done[i] <==> place[i] == Done))
    && (forall i :: 0 <= i < |items| && done[i] ==> Covered(v, items[i]))
  }

  ghost function Unfinished(done: seq<bool>): set<nat> {
    set i: nat | i < |done| && !done[i]
  }

  lemma FinishOne(done: seq<bool>, i: nat)
    requires i < |done| && !done[i]
    ensures |Unfinished(done[i := true])| < |Unfinished(done)|
  {
    assert Unfinished(done[i := true]) == Unfinished(done) - {i};
  }

  /** Moving an index that is not in the heap of `d`, and not into it, leaves that heap alone. */
  lemma OtherHeap(items: seq<Struct>, place: seq<Place>, d: nat, h: seq<Waiter>, i: nat, p: Place)
    requires HeapOk(items, place, d, h) && i < |place| && place[i] != Waiting(d) && p != Waiting(d)
    ensures HeapOk(items, place[i := p], d, h)
  {
    forall w | w in multiset(h)
      ensures EntryOk(items, place[i := p], d, w)
    {
      assert EntryOk(items, place, d, w);
    }
  }

  lemma HeapGains(items: seq<Struct>, place: seq<Place>, c: nat, h: seq<Waiter>, i: nat, clock: nat, h': seq<Waiter>)
    requires HeapOk(items, place, c, h) && i < |place| == |items| && place[i] == Stacked && Blocks(items[i], c, clock)
    requires IsHeap(h') && multiset(h') == multiset(h) + multiset{Waiter(clock, i)}
    ensures HeapOk(items, place[i := Waiting(c)], c, h')
  {
    hide IsHeap, EntryOk, Complete;
    var place' := place[i := Waiting(c)];
    forall w | w in multiset(h)
      ensures EntryOk(items, place', c, w) && w.index != i
    {
      EntryKeeps(items, place, c, w, i);
    }
    NewEntry(items, place, c, i, clock);
    assert forall w :: w in multiset(h') <==> w in multiset(h) || w == Waiter(clock, i);
    Gained(place, c, h, i, clock, h');
  }

  lemma NewEntry(items: seq<Struct>, place: seq<Place>, c: nat, i: nat, clock: nat)
    requires i < |place| == |items| && Blocks(items[i], c, clock)
    ensures EntryOk(items, place[i := Waiting(c)], c, Waiter(clock, i))
  {
  }

  lemma EntryKeeps(items: seq<Struct>, place: seq<Place>, c: nat, w: Waiter, i: nat)
    requires EntryOk(items, place, c, w) && i < |place| && place[i] == Stacked
    ensures EntryOk(items, place[i := Waiting(c)], c, w) && w.index != i
  {
  }

  lemma Gained(place: seq<Place>, c: nat, h: seq<Waiter>, i: nat, clock: nat, h': seq<Waiter>)
    requires Complete(place, c, h) && i < |place|
    requires multiset(h') == multiset(h) + multiset{Waiter(clock, i)}
    ensures Complete(place[i := Waiting(c)], c, h')
  {
    var place' := place[i := Waiting(c)];
    forall j | 0 <= j < |place'| && place'[j] == Waiting(c)
      ensures exists w :: w in multiset(h') && w.index == j
    {
      if j == i {
        assert Waiter(clock, i) in multiset(h');
      } else {
        assert place[j] == Waiting(c);
        var w: Waiter :| w in multiset(h) && w.index == j;
        assert w in multiset(h');
      }
    }
  }

  lemma HeapLoses(items: seq<Struct>, place: seq<Place>, c: nat, h: seq<Waiter>, w: Waiter, h': seq<Waiter>)
    requires HeapOk(items, place, c, h) && |place| == |items| && w in multiset(h)
    requires IsHeap(h') && multiset(h') == multiset(h) - multiset{w}
    ensures w.index < |place| && place[w.index] == Waiting(c)
    ensures HeapOk(items, place[w.index := Stacked], c, h')
  {
    hide IsHeap, EntryOk, Complete;
    EntryFacts(items, place, c, w);
    var place' := place[w.index := Stacked];
    assert forall x :: x in multiset(h') ==> x in multiset(h) && multiset(h')[x] == 1;
    forall x | x in multiset(h')
      ensures EntryOk(items, place', c, x)
    {
      EntryStays(items, place, c, x, w.index);
    }
    Remaining(place, c, h, w, h');
  }

  lemma EntryFacts(items: seq<Struct>, place: seq<Place>, c: nat, w: Waiter)
    requires EntryOk(items, place, c, w)
    ensures w.index < |place| && place[w.index] == Waiting(c)
  {
  }

  lemma EntryStays(items: seq<Struct>, place: seq<Place>, c: nat, x: Waiter, i: nat)
    requires EntryOk(items, place, c, x) && i < |place| && x.index != i
    ensures EntryOk(items, place[i := Stacked], c, x)
  {
  }

  lemma Remaining(place: seq<Place>, c: nat, h: seq<Waiter>, w: Waiter, h': seq<Waiter>)
    requires Complete(place, c, h) && w in multiset(h) && w.index < |place|
    requires multiset(h') == multiset(h) - multiset{w}
    ensures Complete(place[w.index := Stacked], c, h')
  {
    var place' := place[w.index := Stacked];
    forall j | 0 <= j < |place'| && place'[j] == Waiting(c)
      ensures exists x :: x in multiset(h') && x.index == j
    {
      assert place[j] == Waiting(c);
      var x: Waiter :| x in multiset(h) && x.index == j;
      assert x in multiset(h');
    }
  }

  /** An index leaves the stack for a heap. */
  lemma ParkKeeps(items: seq<Struct>, place: seq<Place>, waiters: map<nat, seq<Waiter>>, i: nat, c: nat, clock: nat,
                  h: seq<Waiter>)
    requires WaitersOk(items, place, waiters) && i < |place| == |items| && place[i] == Stacked
    requires Blocks(items[i], c, clock)
    requires IsHeap(h) && multiset(h) == multiset(HeapOf(waiters, c)) + multiset{Waiter(clock, i)}
    ensures WaitersOk(items, place[i := Waiting(c)], waiters[c := h])
  {
    hide HeapOk, IsHeap, Blocks;
    var waiters' := waiters[c := h];
    forall d: nat
      ensures HeapOk(items, place[i := Waiting(c)], d, HeapOf(waiters', d))
    {
      assert HeapOk(items, place, d, HeapOf(waiters, d));
      if d == c {
        HeapGains(items, place, c, HeapOf(waiters, c), i, clock, h);
      } else {
        OtherHeap(items, place, d, HeapOf(waiters, d), i, Waiting(c));
      }
    }
  }

  /** An index leaves a heap for the stack. */
  lemma WakeKeeps(items: seq<Struct>, place: seq<Place>, waiters: map<nat, seq<Waiter>>, c: nat, w: Waiter,
                  h: seq<Waiter>)
    requires WaitersOk(items, place, waiters) && |place| == |items|
    requires w in multiset(HeapOf(waiters, c)) && IsHeap(h) && multiset(h) == multiset(HeapOf(waiters, c)) - multiset{w}
    ensures w.index < |place| && place[w.index] == Waiting(c)
    ensures WaitersOk(items, place[w.index := Stacked], waiters[c := h])
  {
    hide HeapOk, IsHeap, Blocks;
    assert HeapOk(items, place, c, HeapOf(waiters, c));
    HeapLoses(items, place, c, HeapOf(waiters, c), w, h);
    var waiters' := waiters[c := h];
    forall d: nat
      ensures HeapOk(items, place[w.index := Stacked], d, HeapOf(waiters', d))
    {
      if d != c {
        assert HeapOk(items, place, d, HeapOf(waiters, d));
        OtherHeap(items, place, d, HeapOf(waiters, d), w.index, Stacked);
      }
    }
  }

  ghost function All(items: seq<Struct>): set<Struct> {
    set s | s in items
  }

  /** Every heap waits for clocks not reached yet. */
  ghost predicate AllUnmet(v: State, waiters: map<nat, seq<Waiter>>) {
    forall c :: Unmet(v, c, HeapOf(waiters, c))
  }

  /** All but client `c` wait for clocks not reached yet. */
  ghost predicate UnmetBut(v: State, waiters: map<nat, seq<Waiter>>, c: nat) {
    forall d :: d != c ==> Unmet(v, d, HeapOf(waiters, d))
  }

  /**
    Wakes every waiter of client `c` whose clock is now integrated, in heap order.
  */
  method Wake(items: seq<Struct>, v: State, ghost place: seq<Place>, waiters: map<nat, seq<Waiter>>, stack: seq<nat>,
              c: nat)
    returns (waiters': map<nat, seq<Waiter>>, stack': seq<nat>, ghost place': seq<Place>)
    requires |place| == |items| && WaitersOk(items, place, waiters) && StackOk(place, stack) && UnmetBut(v, waiters, c)
    ensures |place'| == |items| && WaitersOk(items, place', waiters') && StackOk(place', stack')
    ensures AllUnmet(v, waiters')
    ensures forall i :: 0 <= i < |place| ==> (place'[i] == Done <==> place[i] == Done)
  {
    hide IsHeap, StackOk, Unmet, EntryOk;
    waiters', stack', place' := waiters, stack, place;
    var end := Clock(v, c);
    var heap := HeapOf(waiters, c);
    assert HeapOk(items, place, c, heap);
    while heap != [] && heap[0].clock < end
      invariant |place'| == |items| && WaitersOk(items, place', waiters') && StackOk(place', stack')
      invariant UnmetBut(v, waiters', c) && heap == HeapOf(waiters', c) && IsHeap(heap)
      invariant forall i :: 0 <= i < |place| ==> (place'[i] == Done <==> place[i] == Done)
      decreases |heap|
    {
      var w := heap[0];
      assert w in multiset(heap);
      var rest := Pop(heap);
      assert |multiset(rest)| == |multiset(heap)| - 1;
      WakeKeeps(items, place', waiters', c, w, rest);
      StackPush(place', stack', w.index);
      UnmetButUpdate(v, waiters', c, rest);
      stack', place', waiters' := stack' + [w.index], place'[w.index := Stacked], waiters'[c := rest];
      heap := rest;
    }
    RootUnmet(v, c, heap);
    assert forall d: nat {:trigger HeapOf(waiters', d)} :: Unmet(v, d, HeapOf(waiters', d));
  }

  lemma UnmetButUpdate(v: State, waiters: map<nat, seq<Waiter>>, c: nat, h: seq<Waiter>)
    requires UnmetBut(v, waiters, c)
    ensures UnmetBut(v, waiters[c := h], c)
  {
    var waiters' := waiters[c := h];
    forall d: nat | d != c
      ensures Unmet(v, d, HeapOf(waiters', d))
    {
      assert Unmet(v, d, HeapOf(waiters, d));
    }
  }

  lemma StackPush(place: seq<Place>, stack: seq<nat>, i: nat)
    requires StackOk(place, stack) && i < |place| && place[i] != Stacked
    ensures StackOk(place[i := Stacked], stack + [i])
  {
    assert i !in stack;
  }

  lemma StackPop(place: seq<Place>, stack: seq<nat>, p: Place)
    requires StackOk(place, stack) && stack != [] && p != Stacked
    ensures stack[|stack| - 1] < |place| && place[stack[|stack| - 1]] == Stacked
    ensures StackOk(place[stack[|stack| - 1] := p], stack[..|stack| - 1])
  {
    var top := stack[|stack| - 1];
    assert stack == stack[..|stack| - 1] + [top];
  }

  lemma RootUnmet(v: State, c: nat, h: seq<Waiter>)
    requires IsHeap(h) && (h == [] || Clock(v, c) <= h[0].clock)
    ensures Unmet(v, c, h)
  {
    forall w | w in multiset(h)
      ensures Clock(v, c) <= w.clock
    {
      assert w in h;
      var i :| 0 <= i < |h| && h[i] == w;
      MinimumAtRoot(h, i);
    }
  }

  /** Marking the top of the stack done touches no heap. */
  lemma DoneKeeps(items: seq<Struct>, place: seq<Place>, waiters: map<nat, seq<Waiter>>, i: nat)
    requires WaitersOk(items, place, waiters) && i < |place| && place[i] == Stacked
    ensures WaitersOk(items, place[i := Done], waiters)
  {
    hide HeapOk;
    forall d: nat
      ensures HeapOk(items, place[i := Done], d, HeapOf(waiters, d))
    {
      assert HeapOk(items, place, d, HeapOf(waiters, d));
      OtherHeap(items, place, d, HeapOf(waiters, d), i, Done);
    }
  }

  /** When the stack is empty every index is done or blocked. */
  lemma NothingLeft(items: seq<Struct>, v: State, place: seq<Place>, waiters: map<nat, seq<Waiter>>, i: nat)
    requires |place| == |items| && WaitersOk(items, place, waiters) && StackOk(place, []) && AllUnmet(v, waiters)
    requires i < |items|
    ensures place[i] == Done || !Ready(v, items[i])
  {
    if place[i].Waiting? {
      var c := place[i].client;
      assert HeapOk(items, place, c, HeapOf(waiters, c));
      var w: Waiter :| w in multiset(HeapOf(waiters, c)) && w.index == i;
      assert EntryOk(items, place, c, w) && Unmet(v, c, HeapOf(waiters, c));
      BlockedNotReady(v, items[i], c, w.clock);
    }
  }

  /**
    Integrates a queue in dependency order.  A rejected struct waits for the clock
    that blocks it and is retried only once that clock is integrated.  The clocks
    reached are the least fixpoint, the one that retrying until nothing moves reaches.
  */
  method IntegratePending(v0: State, items: seq<Struct>, ghost all: set<Struct>) returns (v: State, done: seq<bool>)
    requires All(items) <= all && Grounded(all, v0)
    ensures Least(All(items), v0, v) && Grounded(all, v)
    ensures |done| == |items|
    ensures forall i :: 0 <= i < |items| && done[i] ==> Covered(v, items[i])
    ensures forall i :: 0 <= i < |items| && !done[i] ==> !Ready(v, items[i])
  {
    hide IsHeap, HeapOk, WaitersOk, StackOk, AllUnmet, UnmetBut, Sound, Closed, Blocks, Attempt, AtMost, Unfinished,
      Grounded;
    v := v0;
    done := seq(|items|, _ => false);
    var stack: seq<nat> := seq(|items|, i requires 0 <= i < |items| => |items| - 1 - i);
    var waiters: map<nat, seq<Waiter>> := map[];
    ghost var place := seq(|items|, _ => Stacked);
    StartOk(items, v, place, stack, waiters);
    while stack != []
      invariant Sound(All(items), v0, v) && Grounded(all, v)
      invariant DoneOk(items, v, place, done)
      invariant WaitersOk(items, place, waiters) && StackOk(place, stack) && AllUnmet(v, waiters)
      decreases |Unfinished(done)|, |stack|
    {
      StackPop(place, stack, Done);
      var index := stack[|stack| - 1];
      var item := items[index];
      if !Finished(v, item) {
        var c, clock := Blocker(v, item);
        HeapAt(items, place, waiters, c);
        var h := Push(HeapOf(waiters, c), Waiter(clock, index));
        StackPop(place, stack, Waiting(c));
        ParkKeeps(items, place, waiters, index, c, clock, h);
        ParkUnmet(v, waiters, c, Waiter(clock, index), h);
        waiters, stack, place := waiters[c := h], stack[..|stack| - 1], place[index := Waiting(c)];
        continue;
      }
      ghost var before := v;
      AttemptSound(All(items), v0, v, item);
      AttemptGrounded(all, v, item);
      v := Attempt(v, item);
      FinishOne(done, index);
      DoneKeeps(items, place, waiters, index);
      AdvanceUnmet(before, v, item, waiters);
      DoneAdvances(items, before, v, place, done, index);
      done, stack, place := done[index := true], stack[..|stack| - 1], place[index := Done];
      waiters, stack, place := Wake(items, v, place, waiters, stack, item.id.client);
    }
    forall i | 0 <= i < |items| && !done[i]
      ensures !Ready(v, items[i])
    {
      NothingLeft(items, v, place, waiters, i);
    }
    ClosedAtEnd(items, v, done);
  }

  lemma HeapAt(items: seq<Struct>, place: seq<Place>, waiters: map<nat, seq<Waiter>>, c: nat)
    requires WaitersOk(items, place, waiters)
    ensures IsHeap(HeapOf(waiters, c))
  {
    assert HeapOk(items, place, c, HeapOf(waiters, c));
  }

  lemma DoneAdvances(items: seq<Struct>, v: State, v': State, place: seq<Place>, done: seq<bool>, i: nat)
    requires DoneOk(items, v, place, done) && i < |items| && v' == Attempt(v, items[i]) && Finished(v, items[i])
    ensures DoneOk(items, v', place[i := Done], done[i := true])
  {
  }

  lemma ClosedAtEnd(items: seq<Struct>, v: State, done: seq<bool>)
    requires |done| == |items|
    requires forall i :: 0 <= i < |items| && done[i] ==> Covered(v, items[i])
    requires forall i :: 0 <= i < |items| && !done[i] ==> !Ready(v, items[i])
    ensures Closed(All(items), v)
  {
    forall s | s in All(items) && Ready(v, s)
      ensures Covered(v, s)
    {
      var i :| 0 <= i < |items| && items[i] == s;
    }
  }

  lemma StartOk(items: seq<Struct>, v: State, place: seq<Place>, stack: seq<nat>, waiters: map<nat, seq<Waiter>>)
    requires |place| == |stack| == |items| && waiters == map[]
    requires forall i :: 0 <= i < |items| ==> place[i] == Stacked && stack[i] == |items| - 1 - i
    ensures WaitersOk(items, place, waiters) && StackOk(place, stack) && AllUnmet(v, waiters)
    ensures Sound(All(items), v, v)
  {
    forall i: nat | i < |items|
      ensures i in stack
    {
      assert stack[|items| - 1 - i] == i;
    }
  }

  lemma ParkUnmet(v: State, waiters: map<nat, seq<Waiter>>, c: nat, w: Waiter, h: seq<Waiter>)
    requires AllUnmet(v, waiters) && Clock(v, c) <= w.clock
    requires multiset(h) == multiset(HeapOf(waiters, c)) + multiset{w}
    ensures AllUnmet(v, waiters[c := h])
  {
    var waiters' := waiters[c := h];
    forall d: nat
      ensures Unmet(v, d, HeapOf(waiters', d))
    {
      assert Unmet(v, d, HeapOf(waiters, d));
    }
  }

  lemma AdvanceUnmet(v: State, v': State, s: Struct, waiters: map<nat, seq<Waiter>>)
    requires AllUnmet(v, waiters) && v' == Attempt(v, s)
    ensures UnmetBut(v', waiters, s.id.client)
  {
    forall d | d != s.id.client
      ensures Unmet(v', d, HeapOf(waiters, d))
    {
      assert Unmet(v, d, HeapOf(waiters, d));
    }
  }
}
