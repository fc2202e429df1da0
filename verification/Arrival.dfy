/**
  Updates in any order.  A pending queue integrates structs one at a time, each when
  its dependencies are there, so a replica fed through it takes part in a run of the
  system, and replicas that received the same structs show the same lists.
*/
module Arrival {
  import opened Base
  import opened Yata
  import opened Replication
  import D = Delivery
  import Q = PendingQueue

  /** The struct carries units of the pool and names what they need, save earlier units of the client. */
  ghost predicate Carries(y: Sys, s: D.Struct) {
    forall n {:trigger UnitOf(s, n)} :: 0 <= n < s.len ==>
      UnitOf(s, n) in y.pool && forall x :: x in Deps(y.pool[UnitOf(s, n)]) ==>
        x in s.deps || (x.client == s.id.client && x.clock < s.id.clock + n)
  }

  function UnitOf(s: D.Struct, n: nat): Id {
    Id(s.id.client, s.id.clock + n)
  }

  /** The document has integrated exactly what is below the clocks. */
  ghost predicate At(d: Doc, v: D.State) {
    forall c :: NextClock(d, c) == D.Clock(v, c)
  }

  function Now(run: seq<Sys>): Sys
    requires run != []
  {
    run[|run| - 1]
  }

  /** `z` is `y` with more delivered to replica `c`. */
  ghost predicate Further(y: Sys, z: Sys, c: nat) {
    z.pool == y.pool && forall d :: d != c ==> DocOf(z, d) == DocOf(y, d)
  }

  lemma OwnId(run: seq<Sys>, events: seq<Event>, id: Id)
    requires IsRun(run, events) && id in Now(run).pool
    ensures Now(run).pool[id].id == id
  {
    EveryStateOk(run, events, |run| - 1);
    assert UnitOk(Now(run), id);
  }

  lemma RunOn(run: seq<Sys>, events: seq<Event>, e: Event)
    requires IsRun(run, events) && Enabled(Now(run), e)
    ensures IsRun(run + [Happen(Now(run), e)], events + [e])
  {
    hide Enabled, Happen;
    var run', events' := run + [Happen(Now(run), e)], events + [e];
    forall i | 0 <= i < |events'|
      ensures Enabled(run'[i], events'[i]) && run'[i + 1] == Happen(run'[i], events'[i])
    {
      if i < |events| { assert run'[i] == run[i] && run'[i + 1] == run[i + 1] && events'[i] == events[i]; }
    }
  }

  lemma Delivered(y: Sys, c: nat, id: Id)
    requires id in y.pool && y.pool[id].id == id && Enabled(y, Deliver(c, id))
    ensures var z := Happen(y, Deliver(c, id));
            && Further(y, z, c)
            && forall d ::
              NextClock(DocOf(z, c), d) == if d == id.client then id.clock + 1 else NextClock(DocOf(y, c), d)
  {
    hide Integrate, Anchors;
  }

  /** One unit. */
  lemma FeedUnit(run: seq<Sys>, events: seq<Event>, c: nat, id: Id) returns (run': seq<Sys>, events': seq<Event>)
    requires IsRun(run, events) && id in Now(run).pool && Deliverable(DocOf(Now(run), c), Now(run).pool[id])
    ensures IsRun(run', events') && Further(Now(run), Now(run'), c)
    ensures forall d :: NextClock(DocOf(Now(run'), c), d) ==
                        if d == id.client then id.clock + 1 else NextClock(DocOf(Now(run), c), d)
  {
    var e := Deliver(c, id);
    OwnId(run, events, id);
    assert Enabled(Now(run), e);
    hide IsRun, Happen, Enabled, Further, Deliverable, NextClock;
    Delivered(Now(run), c, id);
    RunOn(run, events, e);
    run', events' := run + [Happen(Now(run), e)], events + [e];
  }

  /** What a struct needs is in the document, up to its own units. */
  predicate Fits(d: Doc, s: D.Struct) {
    s.id.clock <= NextClock(d, s.id.client) && forall x :: x in s.deps ==> Below(d, x)
  }

  /** The next unit of a struct that is ready can be delivered. */
  lemma NextUnit(y: Sys, d: Doc, s: D.Struct)
    requires Carries(y, s) && Fits(d, s) && NextClock(d, s.id.client) < D.End(s)
    requires var id := Id(s.id.client, NextClock(d, s.id.client)); id in y.pool && y.pool[id].id == id
    ensures Deliverable(d, y.pool[Id(s.id.client, NextClock(d, s.id.client))])
  {
    assert UnitOf(s, NextClock(d, s.id.client) - s.id.clock) in y.pool;
  }

  /** The document is as far as `d`, and has the struct. */
  ghost predicate Through(d: Doc, s: D.Struct, d': Doc) {
    forall c :: NextClock(d', c) == if c == s.id.client then Max(NextClock(d, c), D.End(s)) else NextClock(d, c)
  }

  function Max(a: nat, b: nat): nat {
    if a < b then b else a
  }

  /** The rest of a struct that is ready, unit by unit. */
  lemma {:induction false} FeedUnits(run: seq<Sys>, events: seq<Event>, c: nat, s: D.Struct)
    returns (run': seq<Sys>, events': seq<Event>)
    requires IsRun(run, events) && Carries(Now(run), s) && Fits(DocOf(Now(run), c), s)
    ensures IsRun(run', events') && Further(Now(run), Now(run'), c)
    ensures Through(DocOf(Now(run), c), s, DocOf(Now(run'), c))
    decreases D.End(s) - NextClock(DocOf(Now(run), c), s.id.client)
  {
    assert run != [];
    hide IsRun, NextClock, Deliverable;
    var d := DocOf(Now(run), c);
    if NextClock(d, s.id.client) >= D.End(s) {
      run', events' := run, events;
    } else {
      var id := UnitOf(s, NextClock(d, s.id.client) - s.id.clock);
      assert id in Now(run).pool;
      OwnId(run, events, id);
      NextUnit(Now(run), d, s);
      var run0, events0 := FeedUnit(run, events, c, id);
      run', events' := FeedUnits(run0, events0, c, s);
    }
  }

  /** The document has what `d` had and what is below the clocks. */
  ghost predicate Both(d: Doc, v: D.State, d': Doc) {
    forall c :: NextClock(d', c) == Max(NextClock(d, c), D.Clock(v, c))
  }

  /** A log of structs, in whatever order the queue tried them, for a document that may have some of them. */
  lemma {:induction false} FeedLog(run: seq<Sys>, events: seq<Event>, c: nat, log: seq<D.Struct>)
    returns (run': seq<Sys>, events': seq<Event>)
    requires IsRun(run, events) && forall s :: s in log ==> Carries(Now(run), s)
    ensures IsRun(run', events') && Further(Now(run), Now(run'), c)
    ensures Both(DocOf(Now(run), c), D.Fed(log), DocOf(Now(run'), c))
  {
    if log == [] {
      run', events' := run, events;
    } else {
      var s, v := log[|log| - 1], D.Fed(log[..|log| - 1]);
      run', events' := FeedLog(run, events, c, log[..|log| - 1]);
      if !D.Covered(v, s) && D.Ready(v, s) {
        assert Carries(Now(run), s) && Carries(Now(run'), s);
        var run0, events0 := FeedUnits(run', events', c, s);
        run', events' := run0, events0;
      }
    }
  }

  /**
    A replica that has applied what its queue integrated before applies what the queue
    has integrated since.
  */
  lemma CatchUp(run: seq<Sys>, events: seq<Event>, c: nat, v: D.State, q: Q.Queue)
    returns (run': seq<Sys>, events': seq<Event>)
    requires IsRun(run, events) && At(DocOf(Now(run), c), v) && D.AtMost(v, q.next)
    requires q.Valid() && forall s :: s in q.received ==> Carries(Now(run), s)
    ensures IsRun(run', events') && Further(Now(run), Now(run'), c) && At(DocOf(Now(run'), c), q.next)
  {
    var log :| D.Feeds(q.received, log, q.next);
    run', events' := FeedLog(run, events, c, log);
    forall d
      ensures NextClock(DocOf(Now(run'), c), d) == D.Clock(q.next, d)
    {
      assert D.Clock(v, d) <= D.Clock(q.next, d);
    }
  }

  /** An update takes no clock back, so that the replica behind a queue can always catch up. */
  lemma NothingTakenBack(before: set<D.Struct>, v: D.State, q: Q.Queue)
    requires D.Sound(before, Q.NOTHING, v) && q.Valid() && before <= q.received
    ensures D.AtMost(v, q.next)
  {
    Q.AtRest(q.received, q.next, q.pending, q.missing);
    D.SoundForMore(before, q.received, Q.NOTHING, v);
  }

  /**
    Two replicas whose queues received the same structs, each in its own order, grouping
    and multiplicity, and that stand wherever earlier updates left them, show the same
    lists once they have caught up.
  */
  lemma ArrivalOrderDoesNotMatter(run: seq<Sys>, events: seq<Event>, a: nat, b: nat, v: D.State, w: D.State,
                                  x: Q.Queue, y: Q.Queue)
    returns (run': seq<Sys>, events': seq<Event>)
    requires IsRun(run, events) && a != b
    requires At(DocOf(Now(run), a), v) && D.AtMost(v, x.next) && At(DocOf(Now(run), b), w) && D.AtMost(w, y.next)
    requires x.Valid() && y.Valid() && x.received == y.received
    requires forall s :: s in x.received ==> Carries(Now(run), s)
    ensures IsRun(run', events') && Now(run').pool == Now(run).pool
    ensures At(DocOf(Now(run'), a), x.next) && At(DocOf(Now(run'), b), y.next)
    ensures forall p, k :: Part(DocOf(Now(run'), a), p, k) == Part(DocOf(Now(run'), b), p, k)
  {
    Q.AtRest(x.received, x.next, x.pending, x.missing);
    Q.AtRest(y.received, y.next, y.pending, y.missing);
    D.LeastIsUnique(x.received, Q.NOTHING, x.next, y.next);
    var run0, events0 := CatchUp(run, events, a, v, x);
    forall s | s in y.received ensures Carries(Now(run0), s) { assert Carries(Now(run), s); }
    run', events' := CatchUp(run0, events0, b, w, y);
    forall p, k
      ensures Part(DocOf(Now(run'), a), p, k) == Part(DocOf(Now(run'), b), p, k)
    {
      Convergence(run', events', |run'| - 1, a, b, p, k);
    }
  }
}
