/**
  A document is a replica.  What a run of the system delivers to a client, unit by unit,
  the client's document takes in item by item, and both hold the same lists.
*/
module Replica {
  import opened Base
  import opened Yata
  import opened Items
  import opened Replication
  import opened Arrival
  import opened KeyedLists
  import K = KeyTable
  import S = ItemStore
  import M = Document

  /** The units of every list and the clocks are those of the replica. */
  ghost predicate Shows(lists: S.Lists, clients: S.Slices, d: Doc) {
    && (forall p {:trigger ListOf(d, p)} :: Units(View(Of(lists, p))) == ListOf(d, p))
    && (forall c :: S.NextClock(clients, c) == NextClock(d, c))
  }

  /** The units of an item have been written. */
  ghost predicate Written(y: Sys, x: Item) {
    forall n: nat {:trigger IdAt(x, n)} :: n < |x.content| ==>
      IdAt(x, n) in y.pool && y.pool[IdAt(x, n)] == UnitAt(x, n)
  }

  /** What the first of the units needs is there, and they come next. */
  ghost predicate Due(d: Doc, x: Item, n: nat) {
    && x.id.clock + n == NextClock(d, x.id.client)
    && forall z :: z in Deps(UnitAt(x, 0)) ==> Below(d, z)
  }

  lemma UnitDue(y: Sys, d: Doc, x: Item, n: nat)
    requires Written(y, x) && Due(d, x, n) && n < |x.content|
    ensures IdAt(x, n) in y.pool && y.pool[IdAt(x, n)] == UnitAt(x, n) && Deliverable(d, UnitAt(x, n))
  {
    assert IdAt(x, n) in y.pool;
    forall z | z in Deps(UnitAt(x, n))
      ensures Below(d, z)
    {
      if n > 0 && z != IdAt(x, n - 1) { assert z in Deps(UnitAt(x, 0)); }
    }
  }

  lemma IsArriving(y: Sys, c: nat, id: Id)
    requires SysOk(y) && id in y.pool && Deliverable(DocOf(y, c), y.pool[id])
    ensures Arriving(y, DocOf(y, c), DocOf(y, id.client), y.pool[id]) && y.pool[id].id == id
  {
    hide DocOk, Deliverable, DocOf, Closure;
    assert UnitOk(y, id);
  }

  /** The origins of a unit that arrives are in the list of its parent, and so is nothing that is new. */
  lemma OriginsInList(y: Sys, d: Doc, e: Doc, u: Unit)
    requires Arriving(y, d, e, u)
    ensures Anchors(ListOf(d, u.parent), u)
    ensures forall v :: v in ListOf(d, u.parent) ==> Below(d, v.id) && v.id in y.pool && y.pool[v.id] == v
    ensures u.origin.Some? ==> u.origin.value in y.pool && y.pool[u.origin.value].key == u.key
  {
    hide Inv, Part, Closure, Integrate, Ready, Anchors, Distinct, Deliverable, Integrated;
    DeliveredReady(y, d, e, u);
    IntegratedLists(y, d, u, u.parent, u.key);
    forall v | v in ListOf(d, u.parent)
      ensures Below(d, v.id) && v.id in y.pool && y.pool[v.id] == v
    {
      assert Listed(y, d, u.parent, v);
    }
    assert UnitOk(y, u.id);
  }

  lemma ListsAfter(y: Sys, c: nat, id: Id)
    requires Enabled(y, Deliver(c, id)) && Anchors(ListOf(DocOf(y, c), y.pool[id].parent), y.pool[id])
    ensures var d, z, u := DocOf(y, c), DocOf(Happen(y, Deliver(c, id)), c), y.pool[id];
            forall p :: ListOf(z, p) == if p == u.parent then Integrate(ListOf(d, p), u) else ListOf(d, p)
  {
    hide Integrate, Anchors, Deliverable;
  }

  lemma {:induction false} DeliverItem(run: seq<Sys>, events: seq<Event>, c: nat, x: Item, n: nat)
    returns (run': seq<Sys>, events': seq<Event>)
    requires IsRun(run, events) && Written(Now(run), x) && Due(DocOf(Now(run), c), x, n) && n <= |x.content|
    ensures IsRun(run', events') && Further(Now(run), Now(run'), c)
    ensures Took(DocOf(Now(run), c), x, n, DocOf(Now(run'), c))
    decreases |x.content| - n
  {
    SomeState(run, events);
    hide IsRun, Took, TookUnit, Written, Due, Further, DocOf;
    if n == |x.content| {
      run', events' := run, events;
      TookNone(DocOf(Now(run), c), x);
      FurtherSame(Now(run), c);
    } else {
      var run0, events0 := DeliverNext(run, events, c, x, n);
      SomeState(run0, events0);
      run', events' := DeliverItem(run0, events0, c, x, n + 1);
      SomeState(run', events');
      TookOne(DocOf(Now(run), c), x, n, DocOf(Now(run0), c), DocOf(Now(run'), c));
      FurtherTrans(Now(run), Now(run0), Now(run'), c);
    }
  }

  lemma SomeState(run: seq<Sys>, events: seq<Event>)
    requires IsRun(run, events)
    ensures run != []
  {
  }

  lemma FurtherSame(y: Sys, c: nat)
    ensures Further(y, y, c)
  {
  }

  lemma FurtherTrans(y: Sys, z: Sys, w: Sys, c: nat)
    requires Further(y, z, c) && Further(z, w, c)
    ensures Further(y, w, c)
  {
    hide DocOf;
  }

  lemma WrittenStill(y: Sys, z: Sys, x: Item, c: nat)
    requires Written(y, x) && Further(y, z, c)
    ensures Written(z, x)
  {
  }

  /** The document has taken the units of an item from the `n`-th on. */
  ghost predicate Took(d: Doc, x: Item, n: nat, d': Doc) {
    && n <= |x.content|
    && (forall p {:trigger ListOf(d', p)} ::
          ListOf(d', p) == if p == x.parent then IntegrateAll(ListOf(d, p), TailUnits(x, n)) else ListOf(d, p))
    && (forall k :: NextClock(d', k) == NextClock(d, k) + if k == x.id.client then |x.content| - n else 0)
  }

  /** The document has taken the `n`-th unit of an item. */
  ghost predicate TookUnit(d: Doc, x: Item, n: nat, d': Doc) {
    && Anchors(ListOf(d, x.parent), UnitAt(x, n))
    && (forall p {:trigger ListOf(d', p)} ::
          ListOf(d', p) == if p == x.parent then Integrate(ListOf(d, p), UnitAt(x, n)) else ListOf(d, p))
    && (forall k :: NextClock(d', k) == NextClock(d, k) + if k == x.id.client then 1 else 0)
  }

  lemma TookNone(d: Doc, x: Item)
    ensures Took(d, x, |x.content|, d)
  {
    assert TailUnits(x, |x.content|) == [];
  }

  lemma AllNext(s: seq<Unit>, x: Item, n: nat)
    requires n < |x.content| && Anchors(s, UnitAt(x, n))
    ensures IntegrateAll(s, TailUnits(x, n)) == IntegrateAll(Integrate(s, UnitAt(x, n)), TailUnits(x, n + 1))
  {
    var us := TailUnits(x, n);
    assert us[0] == UnitAt(x, n) && us[1..] == TailUnits(x, n + 1);
  }

  lemma TookOne(d: Doc, x: Item, n: nat, d0: Doc, d': Doc)
    requires n < |x.content| && TookUnit(d, x, n, d0) && Took(d0, x, n + 1, d')
    ensures Took(d, x, n, d')
  {
    AllNext(ListOf(d, x.parent), x, n);
    hide Anchors, Integrate, IntegrateAll, TailUnits, UnitAt, ListOf, NextClock;
    forall p
      ensures ListOf(d', p) == if p == x.parent then IntegrateAll(ListOf(d, p), TailUnits(x, n)) else ListOf(d, p)
    {
      assert ListOf(d0, p) == if p == x.parent then Integrate(ListOf(d, p), UnitAt(x, n)) else ListOf(d, p);
    }
    forall k
      ensures NextClock(d', k) == NextClock(d, k) + if k == x.id.client then |x.content| - n else 0
    {
      assert NextClock(d0, k) == NextClock(d, k) + if k == x.id.client then 1 else 0;
    }
  }

  lemma UnitTaken(y: Sys, c: nat, x: Item, n: nat)
    requires SysOk(y) && n < |x.content| && IdAt(x, n) in y.pool && y.pool[IdAt(x, n)] == UnitAt(x, n)
    requires Deliverable(DocOf(y, c), UnitAt(x, n))
    ensures Enabled(y, Deliver(c, IdAt(x, n))) && Further(y, Happen(y, Deliver(c, IdAt(x, n))), c)
    ensures TookUnit(DocOf(y, c), x, n, DocOf(Happen(y, Deliver(c, IdAt(x, n))), c))
  {
    var id := IdAt(x, n);
    IsArriving(y, c, id);
    assert NextClock(DocOf(y, c), id.client) == id.clock;
    assert Enabled(y, Deliver(c, id));
    hide SysOk, Deliverable, Happen, Integrate, Anchors, ListOf, NextClock, Arriving, DocOf, Enabled;
    OriginsInList(y, DocOf(y, c), DocOf(y, id.client), UnitAt(x, n));
    ListsAfter(y, c, id);
    Delivered(y, c, id);
  }

  lemma StillDue(d: Doc, x: Item, n: nat, d': Doc)
    requires Due(d, x, n) && TookUnit(d, x, n, d')
    ensures Due(d', x, n + 1)
  {
    hide Deps, Integrate, Anchors, ListOf, NextClock;
  }

  lemma LastOk(run: seq<Sys>, events: seq<Event>)
    requires IsRun(run, events)
    ensures SysOk(Now(run))
  {
    EveryStateOk(run, events, |run| - 1);
  }

  lemma DeliverNext(run: seq<Sys>, events: seq<Event>, c: nat, x: Item, n: nat)
    returns (run': seq<Sys>, events': seq<Event>)
    requires IsRun(run, events) && Written(Now(run), x) && Due(DocOf(Now(run), c), x, n) && n < |x.content|
    ensures IsRun(run', events') && Further(Now(run), Now(run'), c)
    ensures TookUnit(DocOf(Now(run), c), x, n, DocOf(Now(run'), c))
    ensures Written(Now(run'), x) && Due(DocOf(Now(run'), c), x, n + 1)
  {
    SomeState(run, events);
    hide IsRun, SysOk, Deliverable, Happen, TookUnit, Due, Enabled, DocOf, Written, Further, UnitAt;
    var y, e := Now(run), Deliver(c, IdAt(x, n));
    UnitDue(y, DocOf(y, c), x, n);
    LastOk(run, events);
    UnitTaken(y, c, x, n);
    RunOn(run, events, e);
    run', events' := run + [Happen(y, e)], events + [e];
    WrittenStill(y, Happen(y, e), x, c);
    StillDue(DocOf(y, c), x, n, DocOf(Happen(y, e), c));
  }

  /** An item that is due meets what the document demands. */
  lemma DuePlaceable(run: seq<Sys>, events: seq<Event>, c: nat, x: Item, s: seq<Unit>)
    requires IsRun(run, events) && Written(Now(run), x) && Due(DocOf(Now(run), c), x, 0) && x.content != []
    requires s == ListOf(DocOf(Now(run), c), x.parent) && Grounded(s)
    ensures Placeable(s, x)
  {
    SomeState(run, events);
    hide IsRun, SysOk, Deliverable, Arriving, Anchors, ListOf, Written;
    var y, d := Now(run), DocOf(Now(run), c);
    UnitDue(y, d, x, 0);
    LastOk(run, events);
    IsArriving(y, c, IdAt(x, 0));
    OriginsInList(y, d, DocOf(y, x.id.client), UnitAt(x, 0));
    AllNew(y, d, x, s);
    if x.origin.Some? {
      HasOrigin(s, UnitAt(x, 0));
      assert s[L(s, UnitAt(x, 0))] in s;
    }
  }

  lemma HasOrigin(s: seq<Unit>, u: Unit)
    requires Anchors(s, u) && u.origin.Some?
    ensures 0 <= L(s, u) < |s| && s[L(s, u)].id == u.origin.value
  {
  }

  lemma AllNew(y: Sys, d: Doc, x: Item, s: seq<Unit>)
    requires Grounded(s) && x.id.clock == NextClock(d, x.id.client) && forall v :: v in s ==> Below(d, v.id)
    ensures Unknown(s, x)
  {
    forall j, n: nat | 0 <= j < |s| && n < |x.content|
      ensures s[j].id != IdAt(x, n) && s[j].origin != Some(IdAt(x, n))
    {
      assert s[j] in s && Below(d, s[j].id);
      GroundedFrom(s, j);
      if s[j].origin.Some? { assert s[L(s, s[j])] in s && Below(d, s[L(s, s[j])].id); }
    }
  }

  lemma RestOf(y: Sys, d: Doc, x: Item, n: nat)
    requires Written(y, x) && Due(d, x, n) && n < |x.content|
    ensures Written(y, M.Rest(x, n)) && Due(d, M.Rest(x, n), 0) && M.Rest(x, n).content != []
    ensures M.Rest(x, n).parent == x.parent
  {
    var r := M.Rest(x, n);
    forall k: nat | k < |r.content|
      ensures IdAt(r, k) in y.pool && y.pool[IdAt(r, k)] == UnitAt(r, k)
    {
      assert IdAt(r, k) == IdAt(x, n + k) && UnitAt(r, k) == UnitAt(x, n + k);
    }
    UnitDue(y, d, x, n);
  }

  lemma TailIsAll(x: Item)
    ensures TailUnits(x, 0) == Units(Cells(x))
  {
  }

  lemma ShownGrounded(lists: S.Lists, clients: S.Slices, p: Parent)
    requires S.Ok(lists, clients) && p in lists
    ensures Grounded(Units(View(lists[p])))
  {
  }

  /**
    An item arrives whose units the system may deliver; the first `offset` of them are
    there.  The document takes it in, the run goes on, and the two hold the same lists.
  */
  method TakeIn(doc: M.Document, x: Item, offset: nat, ghost run: seq<Sys>, ghost events: seq<Event>, ghost c: nat)
    returns (ghost run': seq<Sys>, ghost events': seq<Event>, ghost at: nat, ghost s: seq<Item>, q: nat)
    requires doc.Valid() && IsRun(run, events) && Shows(doc.lists, doc.clients, DocOf(Now(run), c))
    requires Written(Now(run), x) && offset < |x.content| && Due(DocOf(Now(run), c), x, offset)
    modifies doc
    ensures doc.Valid() && IsRun(run', events') && Further(Now(run), Now(run'), c)
    ensures Shows(doc.lists, doc.clients, DocOf(Now(run'), c))
    ensures View(s) == View(Of(old(doc.lists), x.parent)) && x.parent in doc.lists
    ensures M.TookIn(View(s), x, offset, at, View(doc.lists[x.parent]))
    ensures M.Arrived(s, q, M.Rest(x, offset), M.Dead(old(doc.clients), x.parent), doc.lists[x.parent])
    ensures Elsewhere(old(doc.lists), x.parent, doc.lists)
  {
    SomeState(run, events);
    hide IsRun, View, Units, Cells, Placeable, IntegrateAll, Grounded, S.Ok, S.NextClock, NextClock, K.BooksOk, Shows,
      Took, Due, Written, M.Rest, M.Extended, DocOf, ListOf, M.Dead, M.Arrived,
      M.TookIn, K.IdsOf, M.Lost, Elsewhere;
    ghost var d, rest := DocOf(Now(run), c), M.Rest(x, offset);
    doc.Open(x.parent);
    OpenShows(old(doc.lists), doc.lists, doc.clients, x.parent, d);
    ghost var lists, clients := doc.lists, doc.clients;
    RestOf(Now(run), d, x, offset);
    ShownGrounded(doc.lists, doc.clients, x.parent);
    ShownList(doc.lists, doc.clients, d, x.parent);
    ShownNext(doc.clients, doc.lists, d, x, offset);
    DuePlaceable(run, events, c, rest, Units(View(doc.lists[x.parent])));
    q, at, s := doc.Arrive(x, offset);
    OpenElsewhere(old(doc.lists), lists, doc.lists, x.parent);
    run', events' := DeliverItem(run, events, c, rest, 0);
    BothTook(lists, clients, d, rest, doc.lists, doc.clients, DocOf(Now(run'), c));
  }

  /** Every other list shows the cells it showed before. */
  ghost predicate Elsewhere(lists: S.Lists, p: Parent, lists': S.Lists) {
    forall o {:trigger Of(lists', o)} :: o != p ==> View(Of(lists', o)) == View(Of(lists, o))
  }

  lemma OpenElsewhere(lists: S.Lists, before: S.Lists, lists': S.Lists, p: Parent)
    requires before == if p in lists then lists else lists[p := []]
    requires lists'.Keys == before.Keys && forall o :: o in lists' && o != p ==> View(lists'[o]) == View(before[o])
    ensures Elsewhere(lists, p, lists') && View(Of(lists, p)) == View(before[p])
  {
    hide View;
  }

  lemma OpenShows(lists: S.Lists, lists': S.Lists, clients: S.Slices, p: Parent, d: Doc)
    requires Shows(lists, clients, d) && lists' == if p in lists then lists else lists[p := []]
    ensures Shows(lists', clients, d)
  {
    hide ListOf, NextClock, S.NextClock;
    assert forall q :: Of(lists', q) == Of(lists, q);
  }

  lemma ShownList(lists: S.Lists, clients: S.Slices, d: Doc, p: Parent)
    requires Shows(lists, clients, d) && p in lists
    ensures Units(View(lists[p])) == ListOf(d, p)
  {
    hide ListOf, NextClock, S.NextClock;
    assert ListOf(d, p) == Units(View(Of(lists, p)));
  }

  lemma ShownNext(clients: S.Slices, lists: S.Lists, d: Doc, x: Item, n: nat)
    requires Shows(lists, clients, d) && Due(d, x, n) && n < |x.content|
    ensures M.Rest(x, n).id.clock == S.NextClock(clients, x.id.client)
  {
    hide ListOf, NextClock, S.NextClock;
  }

  /** What the document did is what the run did. */
  lemma BothTook(lists: S.Lists, clients: S.Slices, d: Doc, x: Item, lists': S.Lists, clients': S.Slices, d': Doc)
    requires Shows(lists, clients, d) && Took(d, x, 0, d') && x.parent in lists && lists'.Keys == lists.Keys
    requires Units(View(lists'[x.parent])) == IntegrateAll(Units(View(lists[x.parent])), Units(Cells(x)))
    requires forall p :: p in lists' && p != x.parent ==> View(lists'[p]) == View(lists[p])
    requires M.Extended(clients, clients', x)
    ensures Shows(lists', clients', d')
  {
    hide ListOf, NextClock, S.NextClock, View, Units, Cells, IntegrateAll;
    TailIsAll(x);
    forall p
      ensures Units(View(Of(lists', p))) == ListOf(d', p)
    {
      assert ListOf(d, p) == Units(View(Of(lists, p)));
    }
  }
}
