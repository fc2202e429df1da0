/**
  The pending queue of a document: structs parked across updates, the watermark
  that decides when a retry is worth while, and the application of an update.
*/
module PendingQueue {
  import opened Base
  import opened Delivery

  /** One client's structs in an update. */
  datatype Group = Group(client: nat, structs: seq<Struct>)

  const NOTHING: State := map[]

  ghost function Received(update: seq<Group>): set<Struct> {
    set g, s | g in update && s in g.structs :: s
  }

  /** One group per client, and every struct in its client's group. */
  ghost predicate WellGrouped(update: seq<Group>) {
    && (forall i, j :: 0 <= i < j < |update| ==> update[i].client != update[j].client)
    && (forall g, s :: g in update && s in g.structs ==> s.id.client == g.client)
  }

  /** While no clock of `missing` has advanced, the struct stays blocked. */
  ghost predicate Gated(missing: State, s: Struct) {
    || (s.id.client in missing && missing[s.id.client] < s.id.clock)
    || (exists d :: d in s.deps && d.client in missing && missing[d.client] <= d.clock)
  }

  /** Whether some client has advanced past the clock recorded for it. */
  ghost predicate Retryable(v: State, missing: State) {
    exists c :: c in missing && missing[c] < Clock(v, c)
  }

  /** The watermark never blocks a possible retry. */
  lemma GateIsSafe(v: State, missing: State, s: Struct)
    requires Gated(missing, s) && !Retryable(v, missing)
    ensures !Ready(v, s)
  {
    if s.id.client in missing && missing[s.id.client] < s.id.clock {
      assert Clock(v, s.id.client) <= missing[s.id.client];
    } else {
      var d :| d in s.deps && d.client in missing && missing[d.client] <= d.clock;
      assert !Below(v, d);
    }
  }

  function SetMin(missing: State, c: nat, clock: nat): State {
    if c in missing && missing[c] <= clock then missing else missing[c := clock]
  }

  lemma SetMinKeeps(missing: State, c: nat, clock: nat, s: Struct)
    requires Gated(missing, s)
    ensures Gated(SetMin(missing, c, clock), s)
  {
    if !(s.id.client in missing && missing[s.id.client] < s.id.clock) {
      var d :| d in s.deps && d.client in missing && missing[d.client] <= d.clock;
    }
  }

  /** The client a struct waits for: that of the first dependency that is missing, or its own. */
  function WaitsFor(v: State, s: Struct, i: nat): nat
    requires i <= |s.deps|
    decreases |s.deps| - i
  {
    if i == |s.deps| then s.id.client
    else if !Below(v, s.deps[i]) then s.deps[i].client
    else WaitsFor(v, s, i + 1)
  }

  /** The watermark to record for a struct that cannot be integrated. */
  method Watermark(v: State, s: Struct, missing: State) returns (missing': State)
    requires !Ready(v, s)
    ensures missing' == SetMin(missing, WaitsFor(v, s, 0), Clock(v, WaitsFor(v, s, 0)))
    ensures Gated(missing', s)
  {
    var i := 0;
    while i < |s.deps| && Below(v, s.deps[i])
      invariant 0 <= i <= |s.deps| && forall k :: 0 <= k < i ==> Below(v, s.deps[k])
      invariant WaitsFor(v, s, i) == WaitsFor(v, s, 0)
    {
      i := i + 1;
    }
    if i < |s.deps| {
      var d := s.deps[i];
      missing' := SetMin(missing, d.client, Clock(v, d.client));
      assert d in s.deps && d.client in missing' && missing'[d.client] <= d.clock;
    } else {
      missing' := SetMin(missing, s.id.client, Clock(v, s.id.client));
    }
  }

  /** Below this many structs a queue is retried directly. */
  const SCHEDULE_THRESHOLD := 32

  /** What holds in the middle of applying an update, `extra` being neither integrated nor parked. */
  ghost predicate Midway(all: set<Struct>, next: State, pending: seq<Struct>, missing: State, extra: seq<Struct>) {
    && Sound(all, NOTHING, next) && Grounded(all, next)
    && (forall s :: s in all ==> Covered(next, s) || s in pending || s in extra)
    && (forall s :: s in pending ==> s in all && Gated(missing, s))
    && (forall s :: s in extra ==> s in all)
  }

  lemma AttemptMidway(all: set<Struct>, next: State, pending: seq<Struct>, missing: State,
                      extra: seq<Struct>, s: Struct, extra': seq<Struct>)
    requires Midway(all, next, pending, missing, extra) && s in all
    requires forall x :: x in extra ==> x in extra' || x == s
    requires forall x :: x in extra' ==> x in extra
    requires s in extra' || s in pending || Finished(next, s)
    ensures Midway(all, Attempt(next, s), pending, missing, extra')
  {
    AttemptSound(all, NOTHING, next, s);
    AttemptGrounded(all, next, s);
  }

  class Queue {
    var next: State
    var pending: seq<Struct>
    var missing: State
    ghost var received: set<Struct>

    /** At rest everything received is integrated or parked, and nothing parked is integrable. */
    ghost predicate Valid()
      reads this
    {
      && Midway(received, next, pending, missing, [])
      && Consistent(received)
      && (forall s :: s in pending ==> !Ready(next, s))
    }

    constructor ()
      ensures Valid() && received == {} && next == NOTHING
    {
      next, pending, missing, received := NOTHING, [], map[], {};
      NothingGrounded({});
    }

    /** One attempt at a struct; `ok` tells that nothing of it remains to be integrated. */
    method TryIntegrate(s: Struct) returns (ok: bool)
      modifies this`next
      ensures next == Attempt(old(next), s)
      ensures ok == Finished(old(next), s)
    {
      var existingEnd := Clock(next, s.id.client);
      if s.id.clock > existingEnd {
        return false;
      }
      if End(s) <= existingEnd {
        return true;
      }
      var i := 0;
      while i < |s.deps|
        invariant 0 <= i <= |s.deps| && forall k :: 0 <= k < i ==> Below(next, s.deps[k])
      {
        if !Below(next, s.deps[i]) {
          return false;
        }
        i := i + 1;
      }
      next := next[s.id.client := End(s)];
      return true;
    }

    /** Tries every struct of a list once, in order, and keeps those that are blocked. */
    method RetryPass(items: seq<Struct>) returns (remaining: seq<Struct>)
      requires Midway(received, next, pending, missing, items)
      modifies this`next
      ensures Midway(received, next, pending, missing, remaining)
      ensures |remaining| <= |items|
      ensures |remaining| == |items| ==> remaining == items && forall s :: s in remaining ==> !Ready(next, s)
    {
      hide Midway, Attempt;
      remaining := [];
      var i := 0;
      MidwayFacts(received, next, pending, missing, items);
      assert items[0..] == items;
      while i < |items|
        invariant 0 <= i <= |items| && |remaining| <= i
        invariant Midway(received, next, pending, missing, remaining + items[i..])
        invariant |remaining| == i ==> remaining == items[..i] && next == old(next)
        invariant |remaining| == i ==> forall s :: s in remaining ==> !Ready(next, s)
      {
        ghost var before := next;
        var s := items[i];
        var ok := TryIntegrate(s);
        var remaining' := if ok then remaining else remaining + [s];
        assert items[i..] == [s] + items[i + 1..];
        AttemptMidway(received, before, pending, missing, remaining + items[i..], s, remaining' + items[i + 1..]);
        AttemptBlocked(before, s);
        remaining := remaining';
        i := i + 1;
      }
      assert items[..|items|] == items && remaining + items[|items|..] == remaining;
    }

    /**
      Decodes an update: integrates what can be integrated in wire order and defers
      the rest.  `existingEnd` follows the client of the group; a struct the store
      already has a part of is integrated without looking at its dependencies.
    */
    method FirstPass(update: seq<Group>) returns (deferred: seq<Struct>)
      requires WellGrouped(update) && Received(update) <= received && Consistent(received)
      requires Sound(received, NOTHING, next) && Grounded(received, next)
      requires forall s :: s in received ==> Covered(next, s) || s in pending || s in Received(update)
      requires forall s :: s in pending ==> s in received && Gated(missing, s)
      modifies this`next
      ensures Midway(received, next, pending, missing, deferred)
    {
      hide Sound, Grounded, Consistent, Gated, Attempt;
      var sv := next;
      deferred := [];
      var i := 0;
      while i < |update|
        invariant 0 <= i <= |update|
        invariant Sound(received, NOTHING, next) && Grounded(received, next)
        invariant forall s :: s in deferred ==> s in received
        invariant forall s :: s in received ==>
                    Covered(next, s) || s in pending || s in deferred || s in Received(update[i..])
        invariant forall j :: i <= j < |update| ==> Clock(next, update[j].client) == Clock(sv, update[j].client)
      {
        deferred := DecodeGroup(update, i, sv, deferred);
        i := i + 1;
      }
    }

    method DecodeGroup(update: seq<Group>, i: nat, sv: State, deferred0: seq<Struct>) returns (deferred: seq<Struct>)
      requires WellGrouped(update) && i < |update| && Received(update) <= received && Consistent(received)
      requires Sound(received, NOTHING, next) && Grounded(received, next)
      requires forall s :: s in deferred0 ==> s in received
      requires forall s :: s in received ==>
                 Covered(next, s) || s in pending || s in deferred0 || s in Received(update[i..])
      requires forall j :: i <= j < |update| ==> Clock(next, update[j].client) == Clock(sv, update[j].client)
      modifies this`next
      ensures Sound(received, NOTHING, next) && Grounded(received, next)
      ensures forall s :: s in deferred ==> s in received
      ensures forall s :: s in received ==>
                Covered(next, s) || s in pending || s in deferred || s in Received(update[i + 1..])
      ensures forall j :: i < j < |update| ==> Clock(next, update[j].client) == Clock(sv, update[j].client)
    {
      hide Sound, Grounded, Consistent, Attempt;
      var g := update[i];
      deferred := deferred0;
      var existingEnd := Clock(sv, g.client);
      var j := 0;
      GroupStart(update, i);
      while j < |g.structs|
        invariant 0 <= j <= |g.structs| && existingEnd == Clock(next, g.client)
        invariant Sound(received, NOTHING, next) && Grounded(received, next)
        invariant forall s :: s in deferred ==> s in received
        invariant forall s :: s in received ==>
                    Covered(next, s)
                    || s in pending || s in deferred || s in g.structs[j..] || s in Received(update[i + 1..])
        invariant forall k :: i < k < |update| ==> Clock(next, update[k].client) == Clock(sv, update[k].client)
      {
        var s := g.structs[j];
        assert s in g.structs && g in update;
        assert s in Received(update) && s.id.client == g.client;
        assert g.structs[j..] == [s] + g.structs[j + 1..];
        if End(s) <= existingEnd {
          assert Covered(next, s);
        } else {
          var offset := existingEnd - s.id.clock;
          var blocked := s.id.clock > existingEnd;
          if !blocked && offset == 0 {
            var met := DepsMet(next, s);
            blocked := !met;
          }
          if blocked {
            deferred := deferred + [s];
          } else {
            if offset > 0 { PartialIsReady(received, next, s); }
            AttemptSound(received, NOTHING, next, s);
            AttemptGrounded(received, next, s);
            AttemptIs(next, s);
            next := next[g.client := End(s)];
            existingEnd := End(s);
          }
        }
        j := j + 1;
      }
    }

    /**
      Walks producers before their dependents.  The index that suggests a producer or a
      successor is left open: whatever it answers, the walk ends and loses nothing.
    */
    method ResolveDependencies(items: seq<Struct>) returns (remaining: seq<Struct>)
      requires Midway(received, next, pending, missing, items)
      modifies this`next
      ensures Midway(received, next, pending, missing, remaining)
      ensures |remaining| <= |items|
    {
      hide Midway, Attempt;
      var state := seq(|items|, _ => 0);
      var start := 0;
      MidwayFacts(received, next, pending, missing, items);
      while start < |items|
        invariant 0 <= start <= |items| && |state| == |items|
        invariant Midway(received, next, pending, missing, items)
        invariant forall k :: 0 <= k < |items| && state[k] == 2 ==> Covered(next, items[k])
      {
        var stack: seq<nat> := if state[start] == 0 then [start] else [];
        while stack != []
          invariant |state| == |items|
          invariant forall k :: 0 <= k < |stack| ==> stack[k] < |items| && (k < |stack| - 1 ==> state[stack[k]] != 0)
          invariant Midway(received, next, pending, missing, items)
          invariant forall k :: 0 <= k < |items| && state[k] == 2 ==> Covered(next, items[k])
          decreases |Fresh(state)|, |stack| - FreshTop(state, stack), 1 - FreshTop(state, stack)
        {
          var index := stack[|stack| - 1];
          FreshShrinks(state, index, 1);
          state := state[index := 1];
          ghost var before := next;
          var ok := TryIntegrate(items[index]);
          AttemptMidway(received, before, pending, missing, items, items[index], items);
          AttemptAdvances(before, items[index]);
          var suggestion :| 0 <= suggestion <= |items|;
          if ok {
            FreshShrinks(state, index, 2);
            state := state[index := 2];
            stack := stack[..|stack| - 1];
            if suggestion < |items| && state[suggestion] == 0 {
              stack := stack + [suggestion];
            }
          } else if suggestion < |items| && state[suggestion] == 0 {
            stack := stack + [suggestion];
          } else {
            FreshShrinks(state, index, 3);
            state := state[index := 3];
            stack := stack[..|stack| - 1];
          }
        }
        start := start + 1;
      }
      var done := seq(|items|, k requires 0 <= k < |items| => state[k] == 2);
      remaining := Unresolved(items, done);
      KeepUnresolved(received, next, pending, missing, items, done);
    }

    /** Runs the waiter worklist over a queue and keeps what it leaves blocked. */
    method ResolveWaiters(items: seq<Struct>) returns (remaining: seq<Struct>)
      requires Midway(received, next, pending, missing, items)
      modifies this`next
      ensures Midway(received, next, pending, missing, remaining)
      ensures |remaining| <= |items|
      ensures forall s :: s in remaining ==> !Ready(next, s)
      ensures |remaining| == |items| ==> remaining == items
    {
      ghost var before := next;
      MidwayFacts(received, next, pending, missing, items);
      var v, done := IntegratePending(next, items, received);
      LeastMidway(received, before, v, pending, missing, items, done);
      next := v;
      remaining := Unresolved(items, done);
    }

    /** Retries what an update deferred until nothing more resolves, then parks the rest. */
    method ResolveWithinUpdate(deferred: seq<Struct>)
      requires Midway(received, next, pending, missing, deferred)
      modifies this`next, this`pending, this`missing
      ensures Midway(received, next, pending, missing, [])
    {
      hide Midway;
      var items := deferred;
      if |items| >= SCHEDULE_THRESHOLD {
        var remaining := RetryPass(items);
        if |remaining| == |items| {
          Park(remaining);
          return;
        }
        items := remaining;
      }
      if |items| >= SCHEDULE_THRESHOLD {
        items := ResolveDependencies(items);
      }
      if |items| >= SCHEDULE_THRESHOLD {
        items := ResolveWaiters(items);
      }
      while items != []
        invariant Midway(received, next, pending, missing, items)
        decreases |items|
      {
        var remaining := RetryPass(items);
        if |remaining| == |items| {
          Park(remaining);
          return;
        }
        items := remaining;
      }
    }

    /** Parks blocked structs, recording for each the clock that must advance first. */
    method Park(items: seq<Struct>)
      requires Midway(received, next, pending, missing, items)
      requires forall s :: s in items ==> !Ready(next, s)
      modifies this`pending, this`missing
      ensures Midway(received, next, pending, missing, [])
      ensures pending == old(pending) + items
    {
      hide Gated, Sound, Grounded;
      var i := 0;
      assert items[0..] == items;
      while i < |items|
        invariant 0 <= i <= |items|
        invariant Midway(received, next, pending, missing, items[i..])
        invariant pending == old(pending) + items[..i]
      {
        var s := items[i];
        assert items[i..] == [s] + items[i + 1..];
        ghost var missing0 := missing;
        missing := Watermark(next, s, missing);
        ghost var c, clock := WaitsFor(next, s, 0), Clock(next, WaitsFor(next, s, 0));
        forall x | x in pending ensures Gated(missing, x) { SetMinKeeps(missing0, c, clock, x); }
        pending := pending + [s];
        i := i + 1;
      }
      assert items[|items|..] == [] && items[..|items|] == items;
    }

    /** Retries the parked structs as long as the watermark promises progress and there is some. */
    method Drain()
      requires Midway(received, next, pending, missing, []) && Consistent(received)
      modifies this
      ensures Valid() && received == old(received)
    {
      hide Sound, Grounded, Consistent, Gated;
      while pending != []
        invariant Midway(received, next, pending, missing, []) && Consistent(received) && received == old(received)
        decreases |pending|
      {
        var retry := Retry(next, missing);
        if !retry {
          forall s | s in pending ensures !Ready(next, s) { GateIsSafe(next, missing, s); }
          return;
        }
        var items := pending;
        Unpark(received, next, pending, missing);
        pending, missing := [], map[];
        var remaining := ResolveWaiters(items);
        var progressed := |remaining| < |items|;
        Park(remaining);
        if !progressed {
          return;
        }
      }
    }

    /**
      Applies an update.  Whatever was received before and in whatever order, the
      clocks afterwards are the least fixpoint of everything received, and exactly the
      structs not integrated are parked.
    */
    method Apply(update: seq<Group>)
      requires Valid() && WellGrouped(update) && Consistent(received + Received(update))
      modifies this
      ensures Valid() && received == old(received) + Received(update)
      ensures Least(received, NOTHING, next)
      ensures forall s :: s in received ==> (s in pending <==> !Covered(next, s))
    {
      SoundForMore(received, received + Received(update), NOTHING, next);
      GroundedForMore(received, received + Received(update), next);
      received := received + Received(update);
      var deferred := FirstPass(update);
      ResolveWithinUpdate(deferred);
      Drain();
      AtRest(received, next, pending, missing);
    }
  }

  /** At rest the clocks are the least fixpoint and the parked structs are those not integrated. */
  lemma AtRest(all: set<Struct>, next: State, pending: seq<Struct>, missing: State)
    requires Midway(all, next, pending, missing, []) && Consistent(all)
    requires forall s :: s in pending ==> !Ready(next, s)
    ensures Least(all, NOTHING, next)
    ensures forall s :: s in all ==> (s in pending <==> !Covered(next, s))
  {
    hide Sound, Grounded, Gated;
    forall s | s in all && Covered(next, s)
      ensures s !in pending
    {
      assert s.len > 0;
      PartialIsReady(all, next, s);
    }
  }

  /**
    Delivery order does not matter: two replicas at rest that received the same
    structs, in any order, grouping or multiplicity, have integrated the same clocks
    and park the same structs.
  */
  lemma OrderDoesNotMatter(all: set<Struct>, v: State, p: seq<Struct>, m: State, w: State, q: seq<Struct>, n: State)
    requires Consistent(all)
    requires Midway(all, v, p, m, []) && (forall s :: s in p ==> !Ready(v, s))
    requires Midway(all, w, q, n, []) && (forall s :: s in q ==> !Ready(w, s))
    ensures forall c :: Clock(v, c) == Clock(w, c)
    ensures forall s :: s in p <==> s in q
  {
    AtRest(all, v, p, m);
    AtRest(all, w, q, n);
    LeastIsUnique(all, NOTHING, v, w);
  }

  /** Whether a retry is worth attempting. */
  method Retry(v: State, missing: State) returns (retry: bool)
    ensures retry <==> Retryable(v, missing)
  {
    var rest := missing.Keys;
    while rest != {}
      invariant rest <= missing.Keys
      invariant forall c :: c in missing && missing[c] < Clock(v, c) ==> c in rest
      decreases rest
    {
      var c :| c in rest;
      if missing[c] < Clock(v, c) {
        return true;
      }
      rest := rest - {c};
    }
    return false;
  }

  lemma Unpark(all: set<Struct>, next: State, pending: seq<Struct>, missing: State)
    requires Midway(all, next, pending, missing, [])
    ensures Midway(all, next, [], map[], pending)
  {
  }

  /** Running the worklist from the clocks reached so far is sound for everything received. */
  lemma LeastMidway(all: set<Struct>, v: State, v': State, pending: seq<Struct>, missing: State, items: seq<Struct>,
                    done: seq<bool>)
    requires Midway(all, v, pending, missing, items) && Least(All(items), v, v') && Grounded(all, v')
    requires |done| == |items| && forall i :: 0 <= i < |items| && done[i] ==> Covered(v', items[i])
    ensures Midway(all, v', pending, missing, Unresolved(items, done))
  {
    hide Gated, Grounded;
    forall w | Closed(all, w) && AtMost(NOTHING, w)
      ensures AtMost(v', w)
    {
      assert Closed(All(items), w);
    }
    AtMostTrans(NOTHING, v, v');
    forall s | s in all
      ensures Covered(v', s) || s in pending || s in Unresolved(items, done)
    {
      if Covered(v, s) { CoveredStays(v, v', s); }
    }
  }

  ghost function Fresh(state: seq<int>): set<nat> {
    set i: nat | i < |state| && state[i] == 0
  }

  ghost function FreshTop(state: seq<int>, stack: seq<nat>): nat {
    if stack != [] && stack[|stack| - 1] < |state| && state[stack[|stack| - 1]] == 0 then 1 else 0
  }

  lemma FreshShrinks(state: seq<int>, i: nat, x: int)
    requires i < |state| && x != 0
    ensures |Fresh(state[i := x])| <= |Fresh(state)|
    ensures state[i] == 0 ==> |Fresh(state[i := x])| < |Fresh(state)|
    ensures state[i] != 0 ==> Fresh(state[i := x]) == Fresh(state)
  {
    if state[i] == 0 {
      assert Fresh(state[i := x]) == Fresh(state) - {i};
    } else {
      assert Fresh(state[i := x]) == Fresh(state);
    }
  }

  lemma AttemptAdvances(v: State, s: Struct)
    ensures AtMost(v, Attempt(v, s)) && (Finished(v, s) ==> Covered(Attempt(v, s), s))
    ensures forall x :: Covered(v, x) ==> Covered(Attempt(v, s), x)
  {
  }

  lemma AttemptIs(v: State, s: Struct)
    requires Ready(v, s) && !Covered(v, s)
    ensures Attempt(v, s) == v[s.id.client := End(s)]
    ensures forall x :: Covered(v, x) ==> Covered(Attempt(v, s), x)
    ensures Covered(Attempt(v, s), s)
  {
  }

  method DepsMet(v: State, s: Struct) returns (met: bool)
    ensures met <==> forall d :: d in s.deps ==> Below(v, d)
  {
    var i := 0;
    while i < |s.deps|
      invariant 0 <= i <= |s.deps| && forall k :: 0 <= k < i ==> Below(v, s.deps[k])
    {
      if !Below(v, s.deps[i]) {
        assert s.deps[i] in s.deps;
        return false;
      }
      i := i + 1;
    }
    return true;
  }

  lemma GroupStart(update: seq<Group>, i: nat)
    requires i < |update|
    ensures forall s :: s in Received(update[i..]) <==> s in update[i].structs[0..] || s in Received(update[i + 1..])
  {
    assert update[i..] == [update[i]] + update[i + 1..];
    assert update[i].structs[0..] == update[i].structs;
  }

  /** The structs not marked done, in queue order. */
  function Unresolved(items: seq<Struct>, done: seq<bool>): (r: seq<Struct>)
    requires |done| == |items|
    ensures |r| <= |items|
    ensures forall s :: s in r ==> exists i :: 0 <= i < |items| && !done[i] && items[i] == s
    ensures forall i :: 0 <= i < |items| && !done[i] ==> items[i] in r
    ensures (exists i :: 0 <= i < |items| && done[i]) ==> |r| < |items|
    ensures (forall i :: 0 <= i < |items| ==> !done[i]) ==> r == items
  {
    if items == [] then []
    else
      var n := |items| - 1;
      var rest := Unresolved(items[..n], done[..n]);
      assert items == items[..n] + [items[n]];
      assert forall i :: 0 <= i < n ==> items[..n][i] == items[i] && done[..n][i] == done[i];
      if done[n] then rest else rest + [items[n]]
  }

  lemma KeepUnresolved(all: set<Struct>, next: State, pending: seq<Struct>, missing: State, items: seq<Struct>,
                       done: seq<bool>)
    requires Midway(all, next, pending, missing, items) && |done| == |items|
    requires forall k :: 0 <= k < |items| && done[k] ==> Covered(next, items[k])
    ensures Midway(all, next, pending, missing, Unresolved(items, done))
  {
  }

  lemma MidwayFacts(all: set<Struct>, next: State, pending: seq<Struct>, missing: State, extra: seq<Struct>)
    requires Midway(all, next, pending, missing, extra)
    ensures Midway(all, next, pending, missing, [] + extra[0..])
    ensures forall s :: s in extra ==> s in all
  {
    assert [] + extra[0..] == extra;
  }

  lemma AttemptBlocked(v: State, s: Struct)
    ensures !Finished(v, s) ==> Attempt(v, s) == v && !Ready(v, s)
  {
  }
}
