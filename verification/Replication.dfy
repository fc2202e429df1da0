/**
  Any number of replicas writing and exchanging units.

  Every client is a replica.  It writes units between two neighbours of its own
  list, and integrates the units of others in any order that respects their
  dependencies.  In every state of every run, replicas that hold the same units
  hold the same lists.
*/
module Replication {
  import opened Base
  import opened Yata
  import opened KeyedLists

  /** The integrated units, one mixed list per shared type, and the next clock of every client. */
  datatype Doc = Doc(lists: map<Parent, seq<Unit>>, next: map<nat, nat>)

  const EMPTY := Doc(map[], map[])

  function ListOf(d: Doc, p: Parent): seq<Unit> {
    if p in d.lists then d.lists[p] else []
  }

  function Part(d: Doc, p: Parent, k: Option<string>): seq<Unit> {
    Proj(ListOf(d, p), k)
  }

  function NextClock(d: Doc, c: nat): nat {
    if c in d.next then d.next[c] else 0
  }

  /** The unit has been integrated. */
  predicate Below(d: Doc, id: Id) {
    id.clock < NextClock(d, id.client)
  }

  /** What must be integrated before `u`: its origins, its container, its client's previous unit. */
  function Deps(u: Unit): set<Id> {
    (if u.origin.Some? then {u.origin.value} else {}) +
    (if u.right.Some? then {u.right.value} else {}) +
    (if u.parent.Nested? then {u.parent.container} else {}) +
    (if u.id.clock > 0 then {Id(u.id.client, u.id.clock - 1)} else {})
  }

  predicate Deliverable(d: Doc, u: Unit) {
    u.id.clock == NextClock(d, u.id.client) && forall x :: x in Deps(u) ==> Below(d, x)
  }

  ghost function Integrated(d: Doc, u: Unit): Doc {
    var s := ListOf(d, u.parent);
    Doc(d.lists[u.parent := if Anchors(s, u) then Integrate(s, u) else s], d.next[u.id.client := u.id.clock + 1])
  }

  /** Every unit written so far, what its writer had seen of it, and the replicas. */
  datatype Sys = Sys(pool: map<Id, Unit>, past: Past, docs: map<nat, Doc>)

  const START := Sys(map[], map[], map[])

  function DocOf(y: Sys, c: nat): Doc {
    if c in y.docs then y.docs[c] else EMPTY
  }

  function Closure(past: Past, deps: set<Id>): set<Id> {
    deps + set x, z | x in deps && z in Seen(past, x) :: z
  }

  datatype Event =
    | Write(client: nat, parent: Parent, key: Option<string>, at: nat)
    | Deliver(client: nat, id: Id)

  /** The unit a client writes at index `at` of the list of a key. */
  function Written(d: Doc, c: nat, p: Parent, k: Option<string>, at: nat): Unit
    requires at <= |Part(d, p, k)|
  {
    var s := Part(d, p, k);
    Unit(Id(c, NextClock(d, c)),
         if at == 0 then None else Some(s[at - 1].id),
         if at == |s| then None else Some(s[at].id),
         k, p)
  }

  predicate Enabled(y: Sys, e: Event) {
    var d := DocOf(y, e.client);
    match e
    case Write(c, p, k, at) => at <= |Part(d, p, k)| && (p.Nested? ==> Below(d, p.container))
    case Deliver(c, id) => id in y.pool && Deliverable(d, y.pool[id])
  }

  ghost function Happen(y: Sys, e: Event): Sys
    requires Enabled(y, e)
  {
    var d := DocOf(y, e.client);
    match e
    case Write(c, p, k, at) =>
      var u := Written(d, c, p, k, at);
      Sys(y.pool[u.id := u], y.past[u.id := Closure(y.past, Deps(u))], y.docs[c := Integrated(d, u)])
    case Deliver(c, id) =>
      Sys(y.pool, y.past, y.docs[c := Integrated(d, y.pool[id])])
  }

  /** `run` is a finite run of the system, one event at a time. */
  ghost predicate IsRun(run: seq<Sys>, events: seq<Event>) {
    && |run| == |events| + 1 && run[0] == START
    && forall i :: 0 <= i < |events| ==> Enabled(run[i], events[i]) && run[i + 1] == Happen(run[i], events[i])
  }

  // ---------------------------------------------------------------- invariant

  /** What is known of a unit from its history alone. */
  ghost predicate UnitOk(y: Sys, id: Id)
    requires id in y.pool
  {
    var u := y.pool[id];
    && u.id == id && id in y.past
    && id !in y.past[id] && y.past[id] == Closure(y.past, Deps(u))
    && (forall z :: z in y.past[id] ==> z in y.pool && z in y.past && y.past[z] <= y.past[id] && z !in y.past[z])
    && (forall n: nat :: n < id.clock ==> Id(id.client, n) in y.past[id])
    && (u.origin.Some? ==> u.origin.value in y.pool && Sibling(u, y.pool[u.origin.value]))
    && (u.right.Some? ==> u.right.value in y.pool && Sibling(u, y.pool[u.right.value]))
  }

  predicate Sibling(u: Unit, v: Unit) {
    u.parent == v.parent && u.key == v.key
  }

  ghost predicate PoolOk(y: Sys) {
    && (forall id {:trigger UnitOk(y, id)} :: id in y.pool ==> UnitOk(y, id))
    && (forall id :: id in y.past ==> id in y.pool)
  }

  /** What is known of a unit from being in a list. */
  ghost predicate Listed(y: Sys, d: Doc, p: Parent, u: Unit) {
    u.parent == p && u.id in y.pool && y.pool[u.id] == u && Below(d, u.id)
  }

  /** What is known of a unit from being integrated. */
  ghost predicate Held(y: Sys, d: Doc, id: Id) {
    && id in y.pool && y.pool[id] in ListOf(d, y.pool[id].parent)
    && (forall z :: z in Seen(y.past, id) ==> Below(d, z))
  }

  ghost predicate DocOk(y: Sys, d: Doc) {
    && (forall p, u {:trigger Listed(y, d, p, u)} :: u in ListOf(d, p) ==> Listed(y, d, p, u))
    && (forall id {:trigger Held(y, d, id)} :: Below(d, id) ==> Held(y, d, id))
    && (forall p :: Distinct(ListOf(d, p)))
    && (forall p, k {:trigger Part(d, p, k)} :: Inv(Part(d, p, k), y.past))
  }

  ghost predicate SysOk(y: Sys) {
    && PoolOk(y)
    && (forall c :: DocOk(y, DocOf(y, c)))
    && (forall id :: id in y.pool ==> Below(DocOf(y, id.client), id))
  }

  // ------------------------------------------------- the lists of one document

  /** The list of a key holds exactly the integrated units of that key. */
  lemma PartMembers(y: Sys, d: Doc, p: Parent, k: Option<string>, u: Unit)
    requires DocOk(y, d)
    ensures u in Part(d, p, k) ==> Held(y, d, u.id)
    ensures u in Part(d, p, k) <==>
              u.parent == p && u.key == k && u.id in y.pool && y.pool[u.id] == u && Below(d, u.id)
  {
    hide Inv;
    ProjElements(ListOf(d, p), k);
    assert u in ListOf(d, p) ==> Listed(y, d, p, u);
    assert Below(d, u.id) ==> Held(y, d, u.id);
  }

  lemma MemberIn(y: Sys, d: Doc, id: Id)
    requires DocOk(y, d) && Below(d, id)
    ensures Held(y, d, id)
    ensures var u := y.pool[id]; u.id == id ==> In(Part(d, u.parent, u.key), u)
  {
    assert Held(y, d, id);
    var u := y.pool[id];
    if u.id == id {
      var s := Part(d, u.parent, u.key);
      PartMembers(y, d, u.parent, u.key, u);
      assert Inv(s, y.past);
      var i := Yata.Find(s, u);
      PosAt(s, i);
    }
  }

  /** Two documents agree on the order of the units they share. */
  lemma SharedOrder(y: Sys, d: Doc, e: Doc, a: Unit, b: Unit)
    requires DocOk(y, d) && DocOk(y, e) && Sibling(a, b)
    requires a.id in y.pool && y.pool[a.id] == a && Below(d, a.id) && Below(e, a.id)
    requires b.id in y.pool && y.pool[b.id] == b && Below(d, b.id) && Below(e, b.id)
    ensures Pos(Part(d, a.parent, a.key), a.id) < Pos(Part(d, a.parent, a.key), b.id) <==>
            Pos(Part(e, a.parent, a.key), a.id) < Pos(Part(e, a.parent, a.key), b.id)
  {
    var s, t := Part(d, a.parent, a.key), Part(e, a.parent, a.key);
    assert Inv(s, y.past) && Inv(t, y.past);
    MemberIn(y, d, a.id);
    MemberIn(y, d, b.id);
    MemberIn(y, e, a.id);
    MemberIn(y, e, b.id);
    forall u, v | u in s && v in t && u.id == v.id
      ensures u == v
    {
      PartMembers(y, d, a.parent, a.key, u);
      PartMembers(y, e, a.parent, a.key, v);
    }
    if Pos(s, a.id) < Pos(s, b.id) {
      AgreeOnOrder(s, t, y.past, a, b);
    } else if Pos(t, a.id) < Pos(t, b.id) {
      AgreeOnOrder(t, s, y.past, a, b);
    }
  }

  // ------------------------------------------------------------------ delivery

  lemma DepsBelow(y: Sys, d: Doc, x: Unit)
    requires PoolOk(y) && DocOk(y, d) && x.id in y.pool && y.pool[x.id] == x && Deliverable(d, x)
    ensures forall z :: z in Seen(y.past, x.id) ==> Below(d, z)
  {
    assert UnitOk(y, x.id);
    forall v | v in Deps(x)
      ensures Held(y, d, v)
    {
      assert Below(d, v);
    }
  }

  lemma CausalUnit(y: Sys, x: Unit)
    requires PoolOk(y) && x.id in y.pool && y.pool[x.id] == x
    ensures Causal(y.past, x)
    ensures x.origin.Some? ==> x.origin.value in Seen(y.past, x.id)
    ensures x.right.Some? ==> x.right.value in Seen(y.past, x.id)
  {
    assert UnitOk(y, x.id);
    assert Deps(x) <= y.past[x.id];
  }

  /** `x` is in the document `e` of its writer and may be delivered to `d`. */
  ghost predicate Arriving(y: Sys, d: Doc, e: Doc, x: Unit) {
    && PoolOk(y) && DocOk(y, d) && DocOk(y, e)
    && x.id in y.pool && y.pool[x.id] == x && Below(e, x.id) && Deliverable(d, x)
  }

  /** `o` is a unit beside `x` that both documents hold. */
  ghost predicate Shared(y: Sys, d: Doc, e: Doc, x: Unit, o: Id) {
    && o in y.pool && y.pool[o].id == o && Sibling(x, y.pool[o])
    && Below(d, o) && Below(e, o)
    && In(Part(d, x.parent, x.key), y.pool[o]) && In(Part(e, x.parent, x.key), y.pool[o])
  }

  lemma OriginsShared(y: Sys, d: Doc, e: Doc, x: Unit, o: Id)
    requires Arriving(y, d, e, x)
    requires x.origin == Some(o) || x.right == Some(o)
    ensures Shared(y, d, e, x, o)
  {
    hide Inv, Proj, Closure;
    CausalUnit(y, x);
    assert UnitOk(y, x.id);
    assert UnitOk(y, o);
    assert Held(y, e, x.id);
    MemberIn(y, d, o);
    MemberIn(y, e, o);
  }

  lemma SeenShared(y: Sys, d: Doc, e: Doc, x: Unit, z: Unit)
    requires Arriving(y, d, e, x)
    requires z in Part(d, x.parent, x.key) && z.id in Seen(y.past, x.id)
    ensures Shared(y, d, e, x, z.id) && y.pool[z.id] == z
  {
    hide Inv, Proj, Closure;
    PartMembers(y, d, x.parent, x.key, z);
    assert Held(y, e, x.id);
    MemberIn(y, d, z.id);
    MemberIn(y, e, z.id);
  }

  /** The writer's own list holds `x` between its origins. */
  lemma WriterPlaced(y: Sys, d: Doc, e: Doc, x: Unit)
    requires Arriving(y, d, e, x)
    ensures var t := Part(e, x.parent, x.key);
            Inv(t, y.past) && Anchors(t, x) && Honest(t, y.past, x)
  {
    hide Proj;
    var t := Part(e, x.parent, x.key);
    MemberIn(y, e, x.id);
    assert Inv(t, y.past);
    At(t, y.past, Pos(t, x.id));
  }

  /** A delivered unit finds both its origins, in the order its writer saw them. */
  lemma DeliveredAnchors(y: Sys, d: Doc, e: Doc, x: Unit)
    requires Arriving(y, d, e, x)
    ensures Anchors(Part(d, x.parent, x.key), x)
  {
    hide Inv, Proj, UnitOk, DocOk, PoolOk, Deliverable;
    WriterPlaced(y, d, e, x);
    if x.origin.Some? { OriginsShared(y, d, e, x, x.origin.value); }
    if x.right.Some? { OriginsShared(y, d, e, x, x.right.value); }
    if x.origin.Some? && x.right.Some? {
      SharedOrder(y, e, d, y.pool[x.origin.value], y.pool[x.right.value]);
    }
  }

  /** What the writer had seen lies outside the gap in every replica. */
  lemma DeliveredHonest(y: Sys, d: Doc, e: Doc, x: Unit)
    requires Arriving(y, d, e, x)
    ensures Honest(Part(d, x.parent, x.key), y.past, x)
  {
    hide Proj, Part, PoolOk, UnitOk, Deliverable;
    var s := Part(d, x.parent, x.key);
    assert Inv(s, y.past);
    forall j | 0 <= j < |s| && s[j].id in Seen(y.past, x.id)
      ensures Outside(s, x, j)
    {
      PosAt(s, j);
      SeenShared(y, d, e, x, s[j]);
      SeenOutside(y, d, e, x, s[j]);
    }
  }

  lemma SeenOutside(y: Sys, d: Doc, e: Doc, x: Unit, z: Unit)
    requires Arriving(y, d, e, x)
    requires z.id in Seen(y.past, x.id) && Shared(y, d, e, x, z.id) && y.pool[z.id] == z
    ensures Outside(Part(d, x.parent, x.key), x, Pos(Part(d, x.parent, x.key), z.id))
  {
    hide Inv, Proj, UnitOk, DocOk, PoolOk, Deliverable;
    var t := Part(e, x.parent, x.key);
    WriterPlaced(y, d, e, x);
    assert Outside(t, x, Pos(t, z.id));
    if x.origin.Some? {
      OriginsShared(y, d, e, x, x.origin.value);
      SharedOrder(y, e, d, y.pool[x.origin.value], z);
    }
    if x.right.Some? {
      OriginsShared(y, d, e, x, x.right.value);
      SharedOrder(y, e, d, z, y.pool[x.right.value]);
    }
  }

  lemma DeliveredReady(y: Sys, d: Doc, e: Doc, x: Unit)
    requires Arriving(y, d, e, x)
    ensures Ready(Part(d, x.parent, x.key), y.past, x)
  {
    hide Proj, Anchors, Honest, Causal, Inv, Closure;
    var s := Part(d, x.parent, x.key);
    CausalUnit(y, x);
    DeliveredAnchors(y, d, e, x);
    DeliveredHonest(y, d, e, x);
    assert UnitOk(y, x.id);
    forall u | u in s
      ensures u.id != x.id && u.key == x.key && x.id !in Seen(y.past, u.id)
      ensures u.id.client == x.id.client ==> u.id in Seen(y.past, x.id)
    {
      PartMembers(y, d, x.parent, x.key, u);
    }
  }

  // --------------------------------------------------------------- integration

  lemma PartKeyClosed(y: Sys, d: Doc, p: Parent, k: Option<string>)
    requires DocOk(y, d)
    ensures KeyClosed(ListOf(d, p), k, Part(d, p, k))
  {
    var s, r := ListOf(d, p), Part(d, p, k);
    ProjElements(s, k);
    assert Inv(r, y.past);
    forall i | 0 <= i < |s|
      ensures ClosedAt(s, k, r, i)
    {
      if s[i].key == k {
        assert s[i] in r;
        var j := Yata.Find(r, s[i]);
        At(r, y.past, j);
      }
    }
  }

  /** Integration adds the unit to the list of its key and touches no other list. */
  lemma IntegratedLists(y: Sys, d: Doc, x: Unit, p: Parent, k: Option<string>)
    requires DocOk(y, d) && Ready(Part(d, x.parent, x.key), y.past, x)
    ensures Anchors(ListOf(d, x.parent), x)
    ensures Part(Integrated(d, x), p, k) ==
              if p == x.parent && k == x.key then Integrate(Part(d, p, k), x) else Part(d, p, k)
  {
    hide Inv, Integrate;
    PartKeyClosed(y, d, x.parent, x.key);
    IntegrateProj(ListOf(d, x.parent), x, k);
    IntegrateProj(ListOf(d, x.parent), x, x.key);
  }

  lemma IntegratedMembers(y: Sys, d: Doc, x: Unit, p: Parent)
    requires DocOk(y, d) && Ready(Part(d, x.parent, x.key), y.past, x)
    requires x.id.clock == NextClock(d, x.id.client)
    ensures forall u :: u in ListOf(Integrated(d, x), p) <==> u in ListOf(d, p) || (p == x.parent && u == x)
    ensures Distinct(ListOf(Integrated(d, x), p))
  {
    hide Inv, Part, Ready, Integrate, Distinct;
    IntegratedLists(y, d, x, p, x.key);
    var s := ListOf(d, x.parent);
    forall u | u in s
      ensures u.id != x.id
    {
      assert Listed(y, d, x.parent, u);
    }
    IntegrateElements(s, x);
    IntegrateDistinct(s, x);
  }

  lemma IntegratedInv(y: Sys, d: Doc, x: Unit, p: Parent, k: Option<string>)
    requires DocOk(y, d) && Ready(Part(d, x.parent, x.key), y.past, x)
    ensures Inv(Part(Integrated(d, x), p, k), y.past)
  {
    hide Ready, Integrate, Proj;
    IntegratedLists(y, d, x, p, k);
    assert Inv(Part(d, p, k), y.past);
    if p == x.parent && k == x.key {
      IntegrateKeeps(Part(d, p, k), y.past, x);
    }
  }

  lemma IntegratedOk(y: Sys, d: Doc, x: Unit)
    requires DocOk(y, d) && Ready(Part(d, x.parent, x.key), y.past, x)
    requires x.id in y.pool && y.pool[x.id] == x && x.id.clock == NextClock(d, x.id.client)
    requires forall z :: z in Seen(y.past, x.id) ==> Below(d, z)
    ensures DocOk(y, Integrated(d, x))
  {
    hide Ready, Inv, Part, Integrate, Distinct;
    var d' := Integrated(d, x);
    assert forall id :: Below(d', id) <==> Below(d, id) || id == x.id;
    forall p
      ensures forall u :: u in ListOf(d', p) <==> u in ListOf(d, p) || (p == x.parent && u == x)
      ensures Distinct(ListOf(d', p))
    {
      IntegratedMembers(y, d, x, p);
    }
    forall p, u | u in ListOf(d', p)
      ensures Listed(y, d', p, u)
    {
      assert u in ListOf(d, p) ==> Listed(y, d, p, u);
    }
    forall id | Below(d', id)
      ensures Held(y, d', id)
    {
      assert Below(d, id) ==> Held(y, d, id);
    }
    forall p, k
      ensures Inv(Part(d', p, k), y.past)
    {
      IntegratedInv(y, d, x, p, k);
    }
  }

  // ------------------------------------------------------------------- writing

  /** Writing a unit leaves the known past of every other unit as it was. */
  lemma InvExtends(s: seq<Unit>, past: Past, past': Past)
    requires Inv(s, past)
    requires forall u :: u in s ==> Seen(past', u.id) == Seen(past, u.id)
    ensures Inv(s, past')
  {
    forall i | 0 <= i < |s|
      ensures Sane(s, past', i)
    {
      At(s, past, i);
      assert s[i] in s;
      if s[i].origin.Some? { assert s[L(s, s[i])] in s; }
      if s[i].right.Some? { assert s[R(s, s[i])] in s; }
      forall j | 0 <= j < |s| && s[j].id in Seen(past', s[i].id)
        ensures Outside(s, s[i], j)
      {
        assert Outside(s, s[i], j);
      }
    }
  }

  ghost function WithUnit(y: Sys, u: Unit): Sys {
    Sys(y.pool[u.id := u], y.past[u.id := Closure(y.past, Deps(u))], y.docs)
  }

  lemma DocExtends(y: Sys, d: Doc, u: Unit)
    requires PoolOk(y) && DocOk(y, d) && u.id !in y.pool
    ensures DocOk(WithUnit(y, u), d)
  {
    hide UnitOk, Closure, Deps, Proj;
    var y' := WithUnit(y, u);
    forall p, v | v in ListOf(d, p)
      ensures Listed(y', d, p, v)
    {
      assert Listed(y, d, p, v);
    }
    forall id | Below(d, id)
      ensures Held(y', d, id)
    {
      assert Held(y, d, id);
    }
    forall p, k
      ensures Inv(Part(d, p, k), y'.past)
    {
      assert Inv(Part(d, p, k), y.past);
      forall v | v in Part(d, p, k)
        ensures Seen(y'.past, v.id) == Seen(y.past, v.id)
      {
        PartMembers(y, d, p, k, v);
      }
      InvExtends(Part(d, p, k), y.past, y'.past);
    }
  }

  /** The neighbours a client names when it writes are in its own list. */
  lemma WrittenNeighbours(y: Sys, d: Doc, c: nat, p: Parent, k: Option<string>, at: nat, o: Id)
    requires DocOk(y, d) && at <= |Part(d, p, k)|
    requires var u := Written(d, c, p, k, at); u.origin == Some(o) || u.right == Some(o)
    ensures o in y.pool && Below(d, o) && y.pool[o].parent == p && y.pool[o].key == k
  {
    hide Inv, Proj;
    var s := Part(d, p, k);
    if at > 0 { PartMembers(y, d, p, k, s[at - 1]); }
    if at < |s| { PartMembers(y, d, p, k, s[at]); }
  }

  lemma WrittenDeps(y: Sys, d: Doc, c: nat, p: Parent, k: Option<string>, at: nat)
    requires PoolOk(y) && DocOk(y, d) && at <= |Part(d, p, k)| && (p.Nested? ==> Below(d, p.container))
    ensures var u := Written(d, c, p, k, at);
            && Deliverable(d, u)
            && (forall z :: z in Closure(y.past, Deps(u)) ==> Below(d, z))
  {
    hide Inv, Proj;
    var u := Written(d, c, p, k, at);
    if u.origin.Some? { WrittenNeighbours(y, d, c, p, k, at, u.origin.value); }
    if u.right.Some? { WrittenNeighbours(y, d, c, p, k, at, u.right.value); }
    forall x | x in Deps(u)
      ensures Below(d, x) && Held(y, d, x)
    {
    }
  }

  /** The past of a unit written now is closed. */
  lemma ClosureClosed(y: Sys, d: Doc, deps: set<Id>, z: Id)
    requires PoolOk(y) && DocOk(y, d) && (forall x :: x in deps ==> Below(d, x))
    requires z in Closure(y.past, deps)
    ensures Held(y, d, z) && UnitOk(y, z) && y.past[z] <= Closure(y.past, deps)
  {
    hide Inv, Proj;
    var x :| x in deps && (z == x || z in Seen(y.past, x));
    assert Held(y, d, x);
    assert UnitOk(y, x);
    assert Held(y, d, z);
    assert UnitOk(y, z);
    assert y.past[z] <= Seen(y.past, x) <= Closure(y.past, deps);
  }

  lemma WrittenUnitOk(y: Sys, d: Doc, c: nat, p: Parent, k: Option<string>, at: nat)
    requires PoolOk(y) && DocOk(y, d) && at <= |Part(d, p, k)| && (p.Nested? ==> Below(d, p.container))
    requires Id(c, NextClock(d, c)) !in y.pool
    ensures var u := Written(d, c, p, k, at); UnitOk(WithUnit(y, u), u.id)
  {
    hide Inv, Proj, Closure;
    var u := Written(d, c, p, k, at);
    var y' := WithUnit(y, u);
    WrittenDeps(y, d, c, p, k, at);
    if u.origin.Some? { WrittenNeighbours(y, d, c, p, k, at, u.origin.value); }
    if u.right.Some? { WrittenNeighbours(y, d, c, p, k, at, u.right.value); }
    ClosureExtends(y.past, Deps(u), u.id, Closure(y.past, Deps(u)));
    forall z | z in y'.past[u.id]
      ensures z in y'.pool && z in y'.past && y'.past[z] <= y'.past[u.id] && z !in y'.past[z]
    {
      ClosureClosed(y, d, Deps(u), z);
    }
    if u.id.clock > 0 {
      var prev := Id(c, u.id.clock - 1);
      DepsInClosure(y.past, Deps(u));
      ClosureClosed(y, d, Deps(u), prev);
    }
  }

  lemma DepsInClosure(past: Past, deps: set<Id>)
    ensures deps <= Closure(past, deps)
  {
  }

  lemma ClosureExtends(past: Past, deps: set<Id>, id: Id, seen: set<Id>)
    requires id !in deps
    ensures Closure(past[id := seen], deps) == Closure(past, deps)
  {
    assert forall x :: x in deps ==> Seen(past[id := seen], x) == Seen(past, x);
  }

  lemma PoolExtends(y: Sys, u: Unit, id: Id)
    requires PoolOk(y) && u.id !in y.pool && id in y.pool
    ensures UnitOk(WithUnit(y, u), id)
  {
    assert UnitOk(y, id);
    var deps := Deps(y.pool[id]);
    assert deps <= y.past[id];
    ClosureExtends(y.past, deps, u.id, Closure(y.past, Deps(u)));
  }

  /** A unit written between two neighbours may be integrated, and no scan moves it away from them. */
  lemma WrittenReady(y: Sys, d: Doc, c: nat, p: Parent, k: Option<string>, at: nat)
    requires PoolOk(y) && DocOk(y, d) && at <= |Part(d, p, k)|
    requires var u := Written(d, c, p, k, at);
             u.id in y.pool && y.pool[u.id] == u && Deliverable(d, u)
    ensures Ready(Part(d, p, k), y.past, Written(d, c, p, k, at))
    ensures Integrate(Part(d, p, k), Written(d, c, p, k, at)) == InsertAt(Part(d, p, k), at, Written(d, c, p, k, at))
  {
    hide Proj, Closure;
    var u := Written(d, c, p, k, at);
    var s := Part(d, p, k);
    assert Inv(s, y.past);
    CausalUnit(y, u);
    if at > 0 { PosAt(s, at - 1); }
    if at < |s| { PosAt(s, at); }
    assert L(s, u) == at - 1 && R(s, u) == at;
    assert UnitOk(y, u.id);
    forall v | v in s
      ensures v.id != u.id && v.key == u.key && u.id !in Seen(y.past, v.id)
      ensures v.id.client == u.id.client ==> v.id in Seen(y.past, u.id)
    {
      PartMembers(y, d, p, k, v);
    }
  }

  // ---------------------------------------------------------------- every run

  lemma WriteKeeps(y: Sys, c: nat, p: Parent, k: Option<string>, at: nat)
    requires SysOk(y) && Enabled(y, Write(c, p, k, at))
    ensures SysOk(Happen(y, Write(c, p, k, at)))
  {
    hide Inv, Proj, UnitOk, Deps, Closure, Integrate, Ready, Deliverable;
    var d := DocOf(y, c);
    var u := Written(d, c, p, k, at);
    var y1, y2 := WithUnit(y, u), Happen(y, Write(c, p, k, at));
    WrittenUnitOk(y, d, c, p, k, at);
    forall id | id in y.pool
      ensures UnitOk(y1, id)
    {
      PoolExtends(y, u, id);
    }
    forall b
      ensures DocOk(y1, DocOf(y, b))
    {
      DocExtends(y, DocOf(y, b), u);
    }
    WrittenDeps(y, d, c, p, k, at);
    WrittenReady(y1, d, c, p, k, at);
    IntegratedOk(y1, d, u);
    SameStore(y1, y2);
    KeepsAll(y, c, d, u, y2);
  }

  /** Replacing one document by one that holds more keeps the invariant. */
  lemma KeepsAll(y: Sys, c: nat, d: Doc, u: Unit, z: Sys)
    requires PoolOk(z) && z.docs == y.docs[c := Integrated(d, u)] && d == DocOf(y, c)
    requires u.id.clock == NextClock(d, u.id.client)
    requires forall b :: b != c ==> DocOk(z, DocOf(y, b))
    requires DocOk(z, Integrated(d, u))
    requires forall id :: id in z.pool ==> Below(DocOf(y, id.client), id) || (id == u.id && id.client == c)
    ensures SysOk(z)
  {
    hide PoolOk, DocOk;
    forall b
      ensures DocOk(z, DocOf(z, b))
    {
      assert DocOf(z, b) == if b == c then Integrated(d, u) else DocOf(y, b);
    }
    forall id | id in z.pool
      ensures Below(DocOf(z, id.client), id)
    {
      assert DocOf(z, id.client) == if id.client == c then Integrated(d, u) else DocOf(y, id.client);
    }
  }

  /** The invariant of the units and of one document does not look at the other documents. */
  lemma SameStore(y: Sys, z: Sys)
    requires y.pool == z.pool && y.past == z.past
    ensures PoolOk(y) ==> PoolOk(z)
    ensures forall d :: DocOk(y, d) ==> DocOk(z, d)
  {
    hide Inv, Proj, Deps, Closure;
    forall id | id in y.pool
      ensures UnitOk(y, id) <==> UnitOk(z, id)
    {
    }
    forall d | DocOk(y, d)
      ensures DocOk(z, d)
    {
      forall p, u
        ensures Listed(y, d, p, u) <==> Listed(z, d, p, u)
      {
      }
      forall id
        ensures Held(y, d, id) <==> Held(z, d, id)
      {
      }
    }
  }

  lemma DeliverKeeps(y: Sys, c: nat, id: Id)
    requires SysOk(y) && Enabled(y, Deliver(c, id))
    ensures SysOk(Happen(y, Deliver(c, id)))
  {
    hide Inv, Proj, Deps, Closure, Integrate, Ready;
    var d, x := DocOf(y, c), y.pool[id];
    assert UnitOk(y, id);
    DeliveredReady(y, d, DocOf(y, id.client), x);
    DepsBelow(y, d, x);
    IntegratedOk(y, d, x);
    SameStore(y, Happen(y, Deliver(c, id)));
    KeepsAll(y, c, d, x, Happen(y, Deliver(c, id)));
  }

  lemma {:induction false} EveryStateOk(run: seq<Sys>, events: seq<Event>, i: nat)
    requires IsRun(run, events) && i < |run|
    ensures SysOk(run[i])
  {
    if i == 0 {
      assert forall p, k :: Part(EMPTY, p, k) == [];
    } else {
      EveryStateOk(run, events, i - 1);
      match events[i - 1] {
        case Write(c, p, k, at) => WriteKeeps(run[i - 1], c, p, k, at);
        case Deliver(c, id) => DeliverKeeps(run[i - 1], c, id);
      }
    }
  }

  /**
    Strong eventual consistency: in every state of every run, two replicas that
    have integrated the same clocks hold the same list for every shared type and key.
  */
  lemma Convergence(run: seq<Sys>, events: seq<Event>, i: nat, a: nat, b: nat, p: Parent, k: Option<string>)
    requires IsRun(run, events) && i < |run|
    requires forall c :: NextClock(DocOf(run[i], a), c) == NextClock(DocOf(run[i], b), c)
    ensures Part(DocOf(run[i], a), p, k) == Part(DocOf(run[i], b), p, k)
  {
    hide Proj;
    EveryStateOk(run, events, i);
    var y := run[i];
    var d, e := DocOf(y, a), DocOf(y, b);
    var s, t := Part(d, p, k), Part(e, p, k);
    assert Inv(s, y.past) && Inv(t, y.past);
    forall u
      ensures u in s <==> u in t
    {
      PartMembers(y, d, p, k, u);
      PartMembers(y, e, p, k, u);
    }
    UniqueArrangement(s, t, y.past);
  }

  /** Nothing that is known of a document is lost when the run goes on. */
  lemma {:induction false} OldDocOk(run: seq<Sys>, events: seq<Event>, i: nat, j: nat, c: nat)
    requires IsRun(run, events) && i <= j < |run|
    ensures DocOk(run[j], DocOf(run[i], c))
    decreases j
  {
    hide SysOk, DocOk, Happen, Enabled;
    StateDocOk(run, events, i, c);
    if i < j {
      OldDocOk(run, events, i, j - 1, c);
      EveryStateOk(run, events, j - 1);
      StepDocOk(run[j - 1], events[j - 1], DocOf(run[i], c));
    }
  }

  lemma StateDocOk(run: seq<Sys>, events: seq<Event>, i: nat, c: nat)
    requires IsRun(run, events) && i < |run|
    ensures DocOk(run[i], DocOf(run[i], c))
  {
    hide IsRun, DocOk, PoolOk;
    EveryStateOk(run, events, i);
  }

  lemma StepDocOk(y: Sys, e: Event, d: Doc)
    requires SysOk(y) && Enabled(y, e) && DocOk(y, d)
    ensures DocOk(Happen(y, e), d)
  {
    hide DocOk, PoolOk, Closure, Deps, Integrated, Part;
    if e.Write? {
      var u := Written(DocOf(y, e.client), e.client, e.parent, e.key, e.at);
      DocExtends(y, d, u);
      SameStore(WithUnit(y, u), Happen(y, e));
    } else {
      SameStore(y, Happen(y, e));
    }
  }

  /**
    Two replicas agree on the order of the units they share, also if they are looked at
    at different times: no unit ever moves past another.
  */
  lemma NoReordering(run: seq<Sys>, events: seq<Event>, i: nat, j: nat, a: nat, b: nat, p: Parent, k: Option<string>,
                     u: Unit, v: Unit)
    requires IsRun(run, events) && i <= j < |run|
    requires u in Part(DocOf(run[i], a), p, k) && v in Part(DocOf(run[i], a), p, k)
    requires u in Part(DocOf(run[j], b), p, k) && v in Part(DocOf(run[j], b), p, k)
    ensures Pos(Part(DocOf(run[i], a), p, k), u.id) < Pos(Part(DocOf(run[i], a), p, k), v.id) <==>
            Pos(Part(DocOf(run[j], b), p, k), u.id) < Pos(Part(DocOf(run[j], b), p, k), v.id)
  {
    hide Proj, Inv;
    OldDocOk(run, events, i, j, a);
    EveryStateOk(run, events, j);
    var y := run[j];
    var d, e := DocOf(run[i], a), DocOf(y, b);
    PartMembers(y, d, p, k, u);
    PartMembers(y, d, p, k, v);
    PartMembers(y, e, p, k, u);
    PartMembers(y, e, p, k, v);
    SharedOrder(y, d, e, u, v);
  }

  /** `u` is new in the list of its key at index `at`; every other list and every other clock is as before. */
  ghost predicate AddedAt(d: Doc, u: Unit, at: nat, d': Doc) {
    && (forall p, k {:trigger Part(d', p, k)} ::
          Part(d', p, k) == if p == u.parent && k == u.key && at <= |Part(d, p, k)|
                            then Part(d, p, k)[..at] + [u] + Part(d, p, k)[at..] else Part(d, p, k))
    && (forall c :: NextClock(d', c) == if c == u.id.client then u.id.clock + 1 else NextClock(d, c))
    && at <= |Part(d, u.parent, u.key)|
  }

  ghost predicate OthersSame(y: Sys, c: nat, z: Sys) {
    forall b :: b != c ==> DocOf(z, b) == DocOf(y, b)
  }

  lemma IntegratedAt(y: Sys, d: Doc, x: Unit, at: nat)
    requires DocOk(y, d) && Ready(Part(d, x.parent, x.key), y.past, x) && at <= |Part(d, x.parent, x.key)|
    requires Integrate(Part(d, x.parent, x.key), x) == InsertAt(Part(d, x.parent, x.key), at, x)
    ensures AddedAt(d, x, at, Integrated(d, x))
  {
    hide Ready, Integrate, Part, DocOk, Anchors;
    forall p, k
      ensures Part(Integrated(d, x), p, k) ==
              if p == x.parent && k == x.key then Part(d, p, k)[..at] + [x] + Part(d, p, k)[at..] else Part(d, p, k)
    {
      IntegratedLists(y, d, x, p, k);
    }
  }

  /**
    A write at an index of the writer's list puts a new unit exactly there, named after the
    writer's next clock, and changes nothing else anywhere.
  */
  lemma WriteGoesThere(run: seq<Sys>, events: seq<Event>, i: nat) returns (u: Unit)
    requires IsRun(run, events) && i < |events| && events[i].Write?
    ensures var y, z, e := run[i], run[i + 1], events[i];
            && u.id == Id(e.client, NextClock(DocOf(y, e.client), e.client)) && u.parent == e.parent && u.key == e.key
            && u.id !in y.pool && z.pool == y.pool[u.id := u]
            && AddedAt(DocOf(y, e.client), u, e.at, DocOf(z, e.client)) && OthersSame(y, e.client, z)
    ensures var s, at := Part(DocOf(run[i], events[i].client), u.parent, u.key), events[i].at;
            && (if at == 0 then u.origin.None? else u.origin == Some(s[at - 1].id))
            && (if at == |s| then u.right.None? else u.right == Some(s[at].id))
  {
    hide SysOk, Part, OthersSame, AddedAt;
    EveryStateOk(run, events, i);
    u := WriteStep(run[i], events[i]);
  }

  lemma WriteStep(y: Sys, e: Event) returns (u: Unit)
    requires SysOk(y) && Enabled(y, e) && e.Write?
    ensures var d, z := DocOf(y, e.client), Happen(y, e);
            && u.id == Id(e.client, NextClock(d, e.client)) && u.parent == e.parent && u.key == e.key
            && u.id !in y.pool && z.pool == y.pool[u.id := u]
            && AddedAt(d, u, e.at, DocOf(z, e.client)) && OthersSame(y, e.client, z)
    ensures var s := Part(DocOf(y, e.client), u.parent, u.key);
            && (if e.at == 0 then u.origin.None? else u.origin == Some(s[e.at - 1].id))
            && (if e.at == |s| then u.right.None? else u.right == Some(s[e.at].id))
  {
    hide PoolOk, DocOk, Part, Deps, Closure, Ready, Integrate, Integrated, AddedAt;
    var d := DocOf(y, e.client);
    u := Written(d, e.client, e.parent, e.key, e.at);
    WriteReady(y, d, e, u);
    IntegratedAt(WithUnit(y, u), d, u, e.at);
  }

  lemma WriteReady(y: Sys, d: Doc, e: Event, u: Unit)
    requires SysOk(y) && Enabled(y, e) && e.Write? && d == DocOf(y, e.client)
    requires u == Written(d, e.client, e.parent, e.key, e.at)
    ensures DocOk(WithUnit(y, u), d) && Ready(Part(d, u.parent, u.key), WithUnit(y, u).past, u)
    ensures Integrate(Part(d, u.parent, u.key), u) == InsertAt(Part(d, u.parent, u.key), e.at, u)
  {
    hide DocOk, Part, Deps, Closure, Ready, Integrate, UnitOk, Deliverable;
    WriteKeeps(y, e.client, e.parent, e.key, e.at);
    SameStore(Happen(y, e), WithUnit(y, u));
    WrittenDeps(y, d, e.client, e.parent, e.key, e.at);
    DocExtends(y, d, u);
    WrittenReady(WithUnit(y, u), d, e.client, e.parent, e.key, e.at);
  }

  /** A delivery puts the unit somewhere into the list of its key and changes nothing else anywhere. */
  lemma DeliveryAddsOne(run: seq<Sys>, events: seq<Event>, i: nat) returns (at: nat)
    requires IsRun(run, events) && i < |events| && events[i].Deliver?
    ensures var y, z, e := run[i], run[i + 1], events[i];
            && e.id in y.pool && y.pool[e.id].id == e.id && z.pool == y.pool
            && AddedAt(DocOf(y, e.client), y.pool[e.id], at, DocOf(z, e.client)) && OthersSame(y, e.client, z)
  {
    EveryStateOk(run, events, i);
    var y, e := run[i], events[i];
    var d, x := DocOf(y, e.client), y.pool[e.id];
    hide IsRun, DocOk, Part, Deps, Closure, Ready, Integrate, Integrated, AddedAt;
    assert UnitOk(y, e.id);
    DeliveredReady(y, d, DocOf(y, e.id.client), x);
    at := IntegratePlace(Part(d, x.parent, x.key), y.past, x);
    IntegratedAt(y, d, x, at);
  }

  lemma IntegratePlace(s: seq<Unit>, past: Past, x: Unit) returns (at: nat)
    requires Ready(s, past, x)
    ensures at <= |s| && Integrate(s, x) == InsertAt(s, at, x)
  {
    at := Scan(s, x, L(s, x), L(s, x) + 1) + 1;
  }

  /**
    What a writer saw before the place it wrote at stays before the new unit, and what it saw
    behind it stays behind, in every replica at every later time.
  */
  lemma IntentKept(run: seq<Sys>, events: seq<Event>, i: nat, j: nat, b: nat, u: Unit, n: nat)
    requires IsRun(run, events) && i < j < |run| && events[i].Write?
    requires var y, e := run[i], events[i];
             var s := Part(DocOf(y, e.client), e.parent, e.key); var t := Part(DocOf(run[j], b), e.parent, e.key);
             && u.id == Id(e.client, NextClock(DocOf(y, e.client), e.client)) && u in t
             && n < |s| && s[n] in t
    ensures var y, e := run[i], events[i];
            var s := Part(DocOf(y, e.client), e.parent, e.key); var t := Part(DocOf(run[j], b), e.parent, e.key);
            Pos(t, s[n].id) < Pos(t, u.id) <==> n < e.at
  {
    hide IsRun, SysOk, Part, DocOf, AddedAt, OthersSame;
    RunLength(run, events);
    var y, e := run[i], events[i];
    var s, t := Part(DocOf(y, e.client), e.parent, e.key), Part(DocOf(run[j], b), e.parent, e.key);
    var w := WriteGoesThere(run, events, i);
    WriteSplits(run, events, i, w, n);
    SameUnit(run, events, i + 1, j, e.client, b, e.parent, e.key, w, u);
    NoReordering(run, events, i + 1, j, e.client, b, e.parent, e.key, s[n], u);
  }

  lemma WriteSplits(run: seq<Sys>, events: seq<Event>, i: nat, u: Unit, n: nat)
    requires IsRun(run, events) && i < |events| && events[i].Write?
    requires var d, e := DocOf(run[i], events[i].client), events[i];
             && u.parent == e.parent && u.key == e.key && n < |Part(d, e.parent, e.key)|
             && AddedAt(d, u, e.at, DocOf(run[i + 1], e.client))
    ensures var e := events[i];
            var s := Part(DocOf(run[i], e.client), e.parent, e.key);
            var s' := Part(DocOf(run[i + 1], e.client), e.parent, e.key);
            u in s' && s[n] in s' && (Pos(s', s[n].id) < Pos(s', u.id) <==> n < e.at)
  {
    var e := events[i];
    var s, s' := Part(DocOf(run[i], e.client), e.parent, e.key), Part(DocOf(run[i + 1], e.client), e.parent, e.key);
    hide IsRun, Part, PoolOk;
    EveryStateOk(run, events, i + 1);
    assert Inv(s', run[i + 1].past);
    Sides(s, e.at, u, n);
  }

  lemma Sides(s: seq<Unit>, at: nat, u: Unit, n: nat)
    requires at <= |s| && n < |s| && Distinct(s[..at] + [u] + s[at..])
    ensures var t := s[..at] + [u] + s[at..]; u in t && s[n] in t && (Pos(t, s[n].id) < Pos(t, u.id) <==> n < at)
  {
    var t, m := s[..at] + [u] + s[at..], if n < at then n else n + 1;
    assert t[at] == u && t[m] == s[n];
    PosAt(t, at);
    PosAt(t, m);
  }

  /** A unit is the same in every replica at every time. */
  lemma SameUnit(run: seq<Sys>, events: seq<Event>, i: nat, j: nat, a: nat, b: nat, p: Parent, k: Option<string>,
                 u: Unit, v: Unit)
    requires IsRun(run, events) && i <= j < |run| && u.id == v.id
    requires u in Part(DocOf(run[i], a), p, k) && v in Part(DocOf(run[j], b), p, k)
    ensures u == v
  {
    hide DocOk, Part;
    OldDocOk(run, events, i, j, a);
    EveryStateOk(run, events, j);
    PartMembers(run[j], DocOf(run[i], a), p, k, u);
    PartMembers(run[j], DocOf(run[j], b), p, k, v);
  }

  /** A replica that lacks a unit can always integrate something it lacks. */
  lemma {:induction false} NeverStuck(run: seq<Sys>, events: seq<Event>, i: nat, c: nat, id: Id) returns (e: Event)
    requires IsRun(run, events) && i < |run|
    requires id in run[i].pool && !Below(DocOf(run[i], c), id)
    ensures Enabled(run[i], e) && e.Deliver? && e.client == c && !Below(DocOf(run[i], c), e.id)
    decreases |Seen(run[i].past, id)|
  {
    hide Inv, Part, DocOk, IsRun, DocOf, Closure;
    EveryStateOk(run, events, i);
    var y, d := run[i], DocOf(run[i], c);
    assert UnitOk(y, id);
    DepsInClosure(y.past, Deps(y.pool[id]));
    if z :| z in Deps(y.pool[id]) && !Below(d, z) {
      assert z in y.past[id];
      assert Precedes(y.past, z, id);
      PastGrows(y.past, z, id);
      e := NeverStuck(run, events, i, c, z);
    } else {
      e := Deliver(c, id);
    }
  }

  /** Two clients write into an empty list without knowing of each other and exchange their units. */
  lemma Exchange(p: Parent, u: Unit, v: Unit) returns (run: seq<Sys>, events: seq<Event>)
    requires p.Root? && u == Unit(Id(1, 0), None, None, None, p) && v == Unit(Id(2, 0), None, None, None, p)
    ensures IsRun(run, events) && |events| == 4 && run[4].pool == map[u.id := u, v.id := v]
    ensures forall c ::
              NextClock(DocOf(run[4], 1), c) == NextClock(DocOf(run[4], 2), c) == if c == 1 || c == 2 then 1 else 0
  {
    hide Integrate, Anchors, Closure;
    events := [Write(1, p, None, 0), Write(2, p, None, 0), Deliver(1, v.id), Deliver(2, u.id)];
    assert Part(EMPTY, p, None) == [];
    assert Deps(u) == {} && Deps(v) == {};
    hide Deps, Part;
    var y1 := Happen(START, events[0]);
    var y2 := Happen(y1, events[1]);
    var y3 := Happen(y2, events[2]);
    var y4 := Happen(y3, events[3]);
    run := [START, y1, y2, y3, y4];
  }

  /** Both then hold both units, in one order. */
  lemma TwoWriters(p: Parent) returns (run: seq<Sys>, events: seq<Event>)
    requires p.Root?
    ensures IsRun(run, events) && |events| == 4
    ensures forall c :: NextClock(DocOf(run[4], 1), c) == NextClock(DocOf(run[4], 2), c)
    ensures var u, v := Unit(Id(1, 0), None, None, None, p), Unit(Id(2, 0), None, None, None, p);
            u in Part(DocOf(run[4], 1), p, None) && v in Part(DocOf(run[4], 1), p, None)
    ensures Part(DocOf(run[4], 1), p, None) == Part(DocOf(run[4], 2), p, None)
  {
    hide IsRun, DocOk, Part, PoolOk;
    var u, v := Unit(Id(1, 0), None, None, None, p), Unit(Id(2, 0), None, None, None, p);
    run, events := Exchange(p, u, v);
    assert |run| == 5 by { RunLength(run, events); }
    EveryStateOk(run, events, 4);
    var d := DocOf(run[4], 1);
    PartMembers(run[4], d, p, None, u);
    PartMembers(run[4], d, p, None, v);
    Convergence(run, events, 4, 1, 2, p, None);
  }

  lemma RunLength(run: seq<Sys>, events: seq<Event>)
    requires IsRun(run, events)
    ensures |run| == |events| + 1
  {
  }
}
