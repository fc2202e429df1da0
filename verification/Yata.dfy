/**
  The YATA sequence algorithm on clock units.

  A list holds one element per clock unit.  Each unit names the unit that stood
  to its left and to its right when it was written.  `Scan` is the conflict scan
  of the integration algorithm; `Inv` is the invariant that makes every list
  reachable by integration the unique arrangement of its units.
*/
module Yata {
  import opened Base

  datatype Unit = Unit(id: Id, origin: Option<Id>, right: Option<Id>, key: Option<string>, parent: Parent)

  /** Index of the unit named `id`, or |s| when there is none. */
  ghost function Pos(s: seq<Unit>, id: Id): (p: nat)
    ensures p <= |s|
  {
    if exists k :: 0 <= k < |s| && s[k].id == id then
      var k :| 0 <= k < |s| && s[k].id == id; k
    else |s|
  }

  ghost predicate Has(s: seq<Unit>, id: Id) {
    Pos(s, id) < |s|
  }

  /** Index of the left origin, -1 standing for the head of the list. */
  ghost function L(s: seq<Unit>, u: Unit): (l: int)
    ensures -1 <= l <= |s|
  {
    if u.origin.None? then -1 else Pos(s, u.origin.value)
  }

  /** Index of the right origin, |s| standing for the end of the list. */
  ghost function R(s: seq<Unit>, u: Unit): (r: int)
    ensures 0 <= r <= |s|
  {
    if u.right.None? then |s| else Pos(s, u.right.value)
  }

  function InsertAt(s: seq<Unit>, p: nat, x: Unit): (r: seq<Unit>)
    requires p <= |s|
  {
    s[..p] + [x] + s[p..]
  }

  /** What the scan does with a unit: place the new one before it, after it, or decide later. */
  datatype Step = Stop | Take | Pass

  /**
    One step of the conflict scan.  `left` is the index of the unit the new one is
    to follow and `o` the unit under examination.  Scanned units up to `left` are
    the ones whose conflict set has been cleared; those above it still conflict.
  */
  ghost function Examine(s: seq<Unit>, x: Unit, left: int, o: int): Step
    requires 0 <= o < |s|
  {
    if s[o].key != x.key then Pass
    else if s[o].origin == x.origin then
      if s[o].id.client < x.id.client then Take
      else if s[o].right == x.right then Stop
      else Pass
    else if s[o].origin.Some? && L(s, x) < L(s, s[o]) < o then
      if L(s, s[o]) <= left then Take else Pass
    else Stop
  }

  /** The index of the unit that `x` is to follow, -1 for the head. */
  ghost function Scan(s: seq<Unit>, x: Unit, left: int, o: int): (p: int)
    requires -1 <= left < o
    ensures left <= p && (p == left || (o <= p < R(s, x)))
    decreases |s| - o
  {
    if o >= R(s, x) then left
    else match Examine(s, x, left, o)
      case Stop => left
      case Take => Scan(s, x, o, o + 1)
      case Pass => Scan(s, x, left, o + 1)
  }

  /** One step of the scan, for proofs that keep the rest of it folded. */
  lemma Unfold(s: seq<Unit>, x: Unit, left: int, o: int)
    requires -1 <= left < o
    ensures o >= R(s, x) ==> Scan(s, x, left, o) == left
    ensures o < R(s, x) && Examine(s, x, left, o) == Stop ==> Scan(s, x, left, o) == left
    ensures o < R(s, x) && Examine(s, x, left, o) == Take ==> Scan(s, x, left, o) == Scan(s, x, o, o + 1)
    ensures o < R(s, x) && Examine(s, x, left, o) == Pass ==> Scan(s, x, left, o) == Scan(s, x, left, o + 1)
  {
  }

  /** The list after integrating `x`. */
  ghost function Integrate(s: seq<Unit>, x: Unit): (r: seq<Unit>)
    requires Anchors(s, x)
  {
    InsertAt(s, Scan(s, x, L(s, x), L(s, x) + 1) + 1, x)
  }

  /** Both origins of `u` are present, in this order. */
  ghost predicate Anchors(s: seq<Unit>, u: Unit) {
    && (u.origin.Some? ==> Has(s, u.origin.value))
    && (u.right.Some? ==> Has(s, u.right.value))
    && L(s, u) < R(s, u)
  }

  // ---------------------------------------------------------------- invariant

  predicate Distinct(s: seq<Unit>) {
    forall i, j :: 0 <= i < j < |s| ==> s[i].id != s[j].id
  }

  /** The unit at `i` lies strictly between its two origins. */
  ghost predicate Placed(s: seq<Unit>, i: int)
    requires 0 <= i < |s|
  {
    Anchors(s, s[i]) && L(s, s[i]) < i < R(s, s[i])
  }

  ghost predicate Anchored(s: seq<Unit>) {
    forall i {:trigger Placed(s, i)} :: 0 <= i < |s| ==> Placed(s, i)
  }

  /**
    Conflicting units are ordered by the rule of the algorithm: two units are in
    conflict when each lies between the origins of the other, and then the one
    with the later left origin comes first, ties being broken by client.
  */
  ghost predicate Ordered(s: seq<Unit>) {
    forall i, j {:trigger Wins(s, i, j)} ::
      0 <= i < j < |s| && L(s, s[j]) < i && j < R(s, s[i]) ==> Wins(s, i, j)
  }

  ghost predicate Wins(s: seq<Unit>, i: int, j: int)
    requires 0 <= i < |s| && 0 <= j < |s|
  {
    || L(s, s[j]) < L(s, s[i])
    || (L(s, s[j]) == L(s, s[i]) && s[i].id.client < s[j].id.client)
  }

  /** What the writer of a unit had seen, through origins and its own earlier units. */
  type Past = map<Id, set<Id>>

  function Seen(past: Past, id: Id): set<Id> {
    if id in past then past[id] else {}
  }

  ghost predicate Precedes(past: Past, a: Id, b: Id) {
    a in Seen(past, b) && Seen(past, a) <= Seen(past, b) && a !in Seen(past, a)
  }

  /** The units a writer names are in its past, and so is their past. */
  ghost predicate Causal(past: Past, u: Unit) {
    && u.id !in Seen(past, u.id)
    && (u.origin.Some? ==> Precedes(past, u.origin.value, u.id))
    && (u.right.Some? ==> Precedes(past, u.right.value, u.id))
  }

  /** Nothing the writer had seen lies strictly between the two origins it named. */
  ghost predicate Honest(s: seq<Unit>, past: Past, u: Unit) {
    forall j {:trigger Outside(s, u, j)} ::
      0 <= j < |s| && s[j].id in Seen(past, u.id) ==> Outside(s, u, j)
  }

  ghost predicate Outside(s: seq<Unit>, u: Unit, j: int) {
    j <= L(s, u) || R(s, u) <= j
  }

  ghost predicate Sane(s: seq<Unit>, past: Past, i: int)
    requires 0 <= i < |s|
  {
    Causal(past, s[i]) && Honest(s, past, s[i])
  }

  ghost predicate Inv(s: seq<Unit>, past: Past) {
    && Distinct(s) && Anchored(s) && Ordered(s)
    && (forall i {:trigger Sane(s, past, i)} :: 0 <= i < |s| ==> Sane(s, past, i))
  }

  /** A unit that may be integrated now. */
  ghost predicate Ready(s: seq<Unit>, past: Past, x: Unit) {
    && !Has(s, x.id)
    && Anchors(s, x)
    && Causal(past, x)
    && Honest(s, past, x)
    && (forall u :: u in s ==> u.key == x.key)
    && (forall u :: u in s ==> x.id !in Seen(past, u.id))
    && (forall u :: u in s && u.id.client == x.id.client ==> u.id in Seen(past, x.id))
  }

  /** Everything the invariant says about the unit at `i`. */
  lemma At(s: seq<Unit>, past: Past, i: int)
    requires Inv(s, past) && 0 <= i < |s|
    ensures Placed(s, i) && Causal(past, s[i]) && Honest(s, past, s[i])
    ensures s[i].origin.Some? ==> 0 <= L(s, s[i]) < i && s[L(s, s[i])].id == s[i].origin.value
    ensures s[i].right.Some? ==> i < R(s, s[i]) < |s| && s[R(s, s[i])].id == s[i].right.value
  {
    assert Placed(s, i) && Sane(s, past, i);
  }

  // ------------------------------------------------------- positions, insertion

  lemma PosAt(s: seq<Unit>, i: int)
    requires Distinct(s) && 0 <= i < |s|
    ensures Pos(s, s[i].id) == i
  {
  }

  lemma PosInsert(s: seq<Unit>, p: nat, x: Unit, id: Id)
    requires p <= |s| && Distinct(s) && !Has(s, x.id)
    ensures Distinct(InsertAt(s, p, x))
    ensures id == x.id ==> Pos(InsertAt(s, p, x), id) == p
    ensures Has(s, id) ==> Pos(InsertAt(s, p, x), id) == if Pos(s, id) < p then Pos(s, id) else Pos(s, id) + 1
    ensures !Has(s, id) && id != x.id ==> !Has(InsertAt(s, p, x), id)
  {
    var t := InsertAt(s, p, x);
    assert forall k :: 0 <= k < |t| ==> t[k] == if k < p then s[k] else if k == p then x else s[k - 1];
    if id == x.id {
      PosAt(t, p);
    } else if Has(s, id) {
      PosAt(t, if Pos(s, id) < p then Pos(s, id) else Pos(s, id) + 1);
    }
  }

  /** Where the origins of a unit end up after an insertion at `p`. */
  lemma AnchorsInsert(s: seq<Unit>, p: nat, x: Unit, u: Unit)
    requires p <= |s| && Distinct(s) && !Has(s, x.id) && Anchors(s, u)
    ensures var t := InsertAt(s, p, x);
            && Anchors(t, u)
            && L(t, u) == (if L(s, u) < p then L(s, u) else L(s, u) + 1)
            && R(t, u) == (if R(s, u) < p then R(s, u) else R(s, u) + 1)
  {
    if u.origin.Some? { PosInsert(s, p, x, u.origin.value); }
    if u.right.Some? { PosInsert(s, p, x, u.right.value); }
  }

  /** Two units name the same origin exactly when it has one index. */
  lemma SameOrigin(s: seq<Unit>, u: Unit, v: Unit)
    requires Anchors(s, u) && Anchors(s, v)
    ensures u.origin == v.origin <==> L(s, u) == L(s, v)
  {
  }

  // ------------------------------------------------------------- preservation

  /** The unit at `i` may precede one that hangs from `l` and is placed after `left`. */
  ghost predicate MayPrecede(s: seq<Unit>, x: Unit, left: int, i: int)
    requires 0 <= i < |s|
  {
    left < R(s, s[i]) ==>
      || L(s, x) < L(s, s[i])
      || (L(s, x) == L(s, s[i]) && s[i].id.client < x.id.client)
  }

  ghost predicate MayFollow(s: seq<Unit>, x: Unit, left: int, j: int)
    requires 0 <= j < |s|
  {
    L(s, s[j]) <= left ==>
      || L(s, s[j]) < L(s, x)
      || (L(s, s[j]) == L(s, x) && x.id.client < s[j].id.client)
  }

  /** A scanned unit above `left` hangs from another of them, or loses the tie to `x`. */
  ghost predicate Waits(s: seq<Unit>, x: Unit, left: int, j: int)
    requires 0 <= j < |s|
  {
    || left < L(s, s[j])
    || (L(s, s[j]) == L(s, x) && x.id.client < s[j].id.client)
  }

  ghost predicate BeforeOk(s: seq<Unit>, x: Unit, left: int) {
    forall i {:trigger MayPrecede(s, x, left, i)} ::
      0 <= i < |s| && L(s, x) < i <= left ==> MayPrecede(s, x, left, i)
  }

  ghost predicate AfterOk(s: seq<Unit>, x: Unit, left: int) {
    forall j {:trigger MayFollow(s, x, left, j)} ::
      0 <= j < |s| && left < j < R(s, x) ==> MayFollow(s, x, left, j)
  }

  ghost predicate Conflicting(s: seq<Unit>, x: Unit, left: int, o: int) {
    forall j {:trigger Waits(s, x, left, j)} ::
      0 <= j < |s| && left < j < o ==> Waits(s, x, left, j)
  }

  /**
    A unit inside the gap of `x` whose origin lies before the gap shuts out every
    later unit hanging from the gap's left part: its writer had not seen the left
    origin of `x`, and neither had the writers of its chain of right origins.
  */
  lemma {:induction false} Barrier(s: seq<Unit>, past: Past, x: Unit, w: int, j: int)
    requires Inv(s, past) && Anchors(s, x) && x.origin.Some?
    requires L(s, x) < w <= j < R(s, x)
    requires L(s, s[w]) < L(s, x) && x.origin.value !in Seen(past, s[w].id)
    requires L(s, s[j]) < w
    ensures L(s, s[j]) < L(s, x)
    decreases |s| - w
  {
    At(s, past, w);
    if w < j {
      if R(s, s[w]) <= j {
        var w' := R(s, s[w]);
        At(s, past, w');
        assert Precedes(past, s[w'].id, s[w].id);
        if s[w'].origin.Some? {
          assert s[L(s, s[w'])].id in Seen(past, s[w].id);
          assert Outside(s, s[w], L(s, s[w']));
        }
        SameOrigin(s, x, s[w']);
        Barrier(s, past, x, w', j);
      } else {
        assert Wins(s, w, j);
      }
    }
  }

  /** Moving `left` to a unit that may come first keeps the invariants of the scan. */
  lemma Advance(s: seq<Unit>, past: Past, x: Unit, left: int, o: int)
    requires Inv(s, past) && Anchors(s, x)
    requires L(s, x) <= left < o < R(s, x)
    requires BeforeOk(s, x, left) && Conflicting(s, x, left, o)
    requires || (L(s, s[o]) == L(s, x) && s[o].id.client < x.id.client)
             || L(s, x) < L(s, s[o]) <= left
    ensures BeforeOk(s, x, o) && Conflicting(s, x, o, o + 1)
  {
    forall i | 0 <= i < |s| && L(s, x) < i <= o
      ensures MayPrecede(s, x, o, i)
    {
      if i <= left {
        assert MayPrecede(s, x, left, i);
      } else if i < o && o < R(s, s[i]) {
        assert Waits(s, x, left, i);
        assert Wins(s, i, o);
      }
    }
  }

  lemma Skip(s: seq<Unit>, x: Unit, left: int, o: int)
    requires 0 <= o < |s| && Conflicting(s, x, left, o) && Waits(s, x, left, o)
    ensures Conflicting(s, x, left, o + 1)
  {
  }

  /** Stopping at a tie with equal right origins leaves every later unit in place. */
  lemma StopAtTie(s: seq<Unit>, past: Past, x: Unit, left: int, o: int)
    requires Inv(s, past) && Anchors(s, x)
    requires L(s, x) <= left < o < R(s, x) && Conflicting(s, x, left, o)
    requires s[o].origin == x.origin && s[o].right == x.right && x.id.client < s[o].id.client
    ensures AfterOk(s, x, left)
  {
    forall j | 0 <= j < |s| && left < j < R(s, x)
      ensures MayFollow(s, x, left, j)
    {
      if j < o {
        assert Waits(s, x, left, j);
      } else if o < j && L(s, s[j]) <= left {
        assert Wins(s, o, j);
      }
    }
  }

  lemma StopAtBarrier(s: seq<Unit>, past: Past, x: Unit, left: int, o: int)
    requires Inv(s, past) && Anchors(s, x)
    requires L(s, x) <= left < o < R(s, x) && Conflicting(s, x, left, o)
    requires L(s, s[o]) < L(s, x)
    ensures AfterOk(s, x, left)
  {
    At(s, past, o);
    assert s[L(s, x)].id == x.origin.value;
    assert !Outside(s, s[o], L(s, x));
    forall j | 0 <= j < |s| && left < j < R(s, x)
      ensures MayFollow(s, x, left, j)
    {
      if j < o {
        assert Waits(s, x, left, j);
      } else if L(s, s[j]) <= left {
        Barrier(s, past, x, o, j);
      }
    }
  }

  /** No unit of the gap was written by the client of `x`. */
  lemma GapHasOtherClients(s: seq<Unit>, past: Past, x: Unit, o: int)
    requires Ready(s, past, x) && 0 <= o < |s| && L(s, x) < o < R(s, x)
    ensures s[o].id.client != x.id.client && s[o].key == x.key
  {
    assert s[o] in s;
    assert !Outside(s, x, o);
  }

  /** Running into the right origin leaves every scanned unit in place. */
  lemma StopAtEnd(s: seq<Unit>, x: Unit, left: int)
    requires L(s, x) <= left && Conflicting(s, x, left, R(s, x))
    ensures AfterOk(s, x, left)
  {
    forall j | 0 <= j < |s| && left < j < R(s, x)
      ensures MayFollow(s, x, left, j)
    {
      assert Waits(s, x, left, j);
    }
  }

  /** The cases of one step of the scan, told by the index of the left origin. */
  lemma ExamineCases(s: seq<Unit>, past: Past, x: Unit, left: int, o: int)
    requires Inv(s, past) && Ready(s, past, x)
    requires L(s, x) <= left < o < R(s, x)
    ensures var lo, c, e := L(s, s[o]), s[o].id.client, Examine(s, x, left, o);
            && (lo < L(s, x) ==> e == Stop)
            && ((lo == L(s, x) && c < x.id.client) || L(s, x) < lo <= left ==> e == Take)
            && (lo == L(s, x) && c >= x.id.client ==> s[o].origin == x.origin && c > x.id.client)
            && (lo == L(s, x) && c > x.id.client ==> e == if s[o].right == x.right then Stop else Pass)
            && (left < lo ==> e == Pass)
  {
    At(s, past, o);
    SameOrigin(s, s[o], x);
    GapHasOtherClients(s, past, x, o);
  }

  lemma {:induction false} ScanSound(s: seq<Unit>, past: Past, x: Unit, left: int, o: int)
    requires Inv(s, past) && Ready(s, past, x)
    requires L(s, x) <= left < o <= R(s, x)
    requires BeforeOk(s, x, left) && Conflicting(s, x, left, o)
    ensures var p := Scan(s, x, left, o);
            L(s, x) <= p < R(s, x) && BeforeOk(s, x, p) && AfterOk(s, x, p)
    decreases |s| - o
  {
    hide Inv, Examine, BeforeOk, AfterOk, Conflicting, Honest, Causal;
    if o == R(s, x) {
      StopAtEnd(s, x, left);
    } else {
      ExamineCases(s, past, x, left, o);
      var lo := L(s, s[o]);
      if lo < L(s, x) {
        StopAtBarrier(s, past, x, left, o);
      } else if (lo == L(s, x) && s[o].id.client < x.id.client) || L(s, x) < lo <= left {
        Advance(s, past, x, left, o);
        ScanSound(s, past, x, o, o + 1);
      } else if lo == L(s, x) && s[o].right == x.right {
        StopAtTie(s, past, x, left, o);
      } else {
        Skip(s, x, left, o);
        ScanSound(s, past, x, left, o + 1);
      }
    }
  }

  lemma IntegrateKeeps(s: seq<Unit>, past: Past, x: Unit)
    requires Inv(s, past) && Ready(s, past, x)
    ensures Inv(Integrate(s, x), past)
  {
    hide Inv, Scan;
    ScanSound(s, past, x, L(s, x), L(s, x) + 1);
    InsertKeeps(s, past, x, Scan(s, x, L(s, x), L(s, x) + 1) + 1);
  }

  lemma InsertKeeps(s: seq<Unit>, past: Past, x: Unit, p: nat)
    requires Inv(s, past) && Ready(s, past, x)
    requires L(s, x) < p <= R(s, x) && BeforeOk(s, x, p - 1) && AfterOk(s, x, p - 1)
    ensures Inv(InsertAt(s, p, x), past)
  {
    var t := InsertAt(s, p, x);
    PosInsert(s, p, x, x.id);
    InsertOrdered(s, past, x, p);
    forall i | 0 <= i < |t|
      ensures Placed(t, i) && Sane(t, past, i)
    {
      var i' := if i < p then i else i - 1;
      if i != p {
        assert t[i] == s[i'];
        At(s, past, i');
      }
      AnchorsInsert(s, p, x, t[i]);
      HonestInsert(s, past, x, p, t[i]);
    }
  }

  lemma HonestInsert(s: seq<Unit>, past: Past, x: Unit, p: nat, u: Unit)
    requires p <= |s| && Distinct(s) && !Has(s, x.id) && Anchors(s, u) && Honest(s, past, u)
    requires x.id !in Seen(past, u.id)
    ensures Honest(InsertAt(s, p, x), past, u)
  {
    var t := InsertAt(s, p, x);
    AnchorsInsert(s, p, x, u);
    forall j | 0 <= j < |t| && t[j].id in Seen(past, u.id)
      ensures Outside(t, u, j)
    {
      var j' := if j < p then j else j - 1;
      assert t[j] == s[j'];
      assert Outside(s, u, j');
    }
  }

  lemma InsertOrdered(s: seq<Unit>, past: Past, x: Unit, p: nat)
    requires Inv(s, past) && !Has(s, x.id) && Anchors(s, x)
    requires L(s, x) < p <= R(s, x) && BeforeOk(s, x, p - 1) && AfterOk(s, x, p - 1)
    ensures Ordered(InsertAt(s, p, x))
  {
    var t := InsertAt(s, p, x);
    hide Honest, Causal, Has, Pos;
    forall i, j | 0 <= i < j < |t| && L(t, t[j]) < i && j < R(t, t[i])
      ensures Wins(t, i, j)
    {
      var i' := if i < p then i else i - 1;
      var j' := if j < p then j else j - 1;
      if i != p {
        assert t[i] == s[i'];
        At(s, past, i');
      }
      if j != p {
        assert t[j] == s[j'];
        At(s, past, j');
      }
      AnchorsInsert(s, p, x, t[i]);
      AnchorsInsert(s, p, x, t[j]);
      if i == p {
        assert MayFollow(s, x, p - 1, j');
      } else if j == p {
        assert MayPrecede(s, x, p - 1, i');
      } else {
        assert Wins(s, i', j');
      }
    }
  }

  // --------------------------------------------------------------- uniqueness

  /** `u` is an element of `s`. */
  ghost predicate In(s: seq<Unit>, u: Unit) {
    Has(s, u.id) && s[Pos(s, u.id)] == u
  }

  /** Units with one identifier are the same unit. */
  ghost predicate Compatible(s: seq<Unit>, t: seq<Unit>) {
    forall u, v :: u in s && v in t && u.id == v.id ==> u == v
  }

  lemma PastGrows(past: Past, a: Id, b: Id)
    requires Precedes(past, a, b)
    ensures |Seen(past, a)| < |Seen(past, b)|
  {
    var extra := Seen(past, b) - Seen(past, a);
    assert a in extra;
    assert Seen(past, b) == Seen(past, a) + extra;
  }

  /** The left origin of a shared unit is shared, and older than the unit. */
  lemma OriginOf(s: seq<Unit>, t: seq<Unit>, past: Past, u: Unit) returns (o: Unit)
    requires Inv(s, past) && Inv(t, past) && Compatible(s, t)
    requires In(s, u) && In(t, u) && u.origin.Some?
    ensures o.id == u.origin.value && In(s, o) && In(t, o)
    ensures |Seen(past, o.id)| < |Seen(past, u.id)|
  {
    At(s, past, Pos(s, u.id));
    At(t, past, Pos(t, u.id));
    o := s[L(s, u)];
    assert t[L(t, u)] in t;
    PastGrows(past, o.id, u.id);
  }

  lemma RightOf(s: seq<Unit>, t: seq<Unit>, past: Past, u: Unit) returns (o: Unit)
    requires Inv(s, past) && Inv(t, past) && Compatible(s, t)
    requires In(s, u) && In(t, u) && u.right.Some?
    ensures o.id == u.right.value && In(s, o) && In(t, o)
    ensures |Seen(past, o.id)| < |Seen(past, u.id)|
  {
    At(s, past, Pos(s, u.id));
    At(t, past, Pos(t, u.id));
    o := s[R(s, u)];
    assert t[R(t, u)] in t;
    PastGrows(past, o.id, u.id);
  }

  /** Two lists agree on the order of any two units they share. */
  lemma {:induction false} AgreeOnOrder(s: seq<Unit>, t: seq<Unit>, past: Past, a: Unit, b: Unit)
    requires Inv(s, past) && Inv(t, past) && Compatible(s, t) && Compatible(t, s)
    requires In(s, a) && In(t, a) && In(s, b) && In(t, b)
    requires Pos(s, a.id) < Pos(s, b.id)
    ensures Pos(t, a.id) < Pos(t, b.id)
    decreases |Seen(past, a.id)| + |Seen(past, b.id)|
  {
    var i, j := Pos(s, a.id), Pos(s, b.id);
    var i2, j2 := Pos(t, a.id), Pos(t, b.id);
    At(s, past, i);
    At(s, past, j);
    At(t, past, i2);
    At(t, past, j2);
    if j2 < i2 {
      if i < L(s, b) {
        var lb := OriginOf(s, t, past, b);
        AgreeOnOrder(s, t, past, a, lb);
      } else if R(s, a) < j {
        var ra := RightOf(s, t, past, a);
        AgreeOnOrder(s, t, past, ra, b);
      } else if R(t, b) < i2 {
        var rb := RightOf(t, s, past, b);
        AgreeOnOrder(t, s, past, rb, a);
      } else if j2 < L(t, a) {
        var la := OriginOf(t, s, past, a);
        AgreeOnOrder(t, s, past, b, la);
      } else {
        AgreeOnConflict(s, t, a, b);
        var la := OriginOf(s, t, past, a);
        var lb := OriginOf(s, t, past, b);
        AgreeOnOrder(s, t, past, lb, la);
      }
    }
  }

  /** In a conflict the lists can only differ on the order of the left origins. */
  lemma AgreeOnConflict(s: seq<Unit>, t: seq<Unit>, a: Unit, b: Unit)
    requires Ordered(s) && Ordered(t) && In(s, a) && In(t, a) && In(s, b) && In(t, b)
    requires Placed(s, Pos(s, a.id)) && Placed(s, Pos(s, b.id))
    requires Placed(t, Pos(t, a.id)) && Placed(t, Pos(t, b.id))
    requires L(s, b) <= Pos(s, a.id) < Pos(s, b.id) <= R(s, a)
    requires L(t, a) <= Pos(t, b.id) < Pos(t, a.id) <= R(t, b)
    ensures a.origin.Some? && b.origin.Some?
    ensures L(s, b) < L(s, a) && L(t, a) < L(t, b)
  {
    var i, j := Pos(s, a.id), Pos(s, b.id);
    var i2, j2 := Pos(t, a.id), Pos(t, b.id);
    assert L(s, b) != i && R(s, a) != j;
    assert L(t, a) != j2 && R(t, b) != i2;
    assert Wins(s, i, j) && Wins(t, j2, i2);
    SameOrigin(s, a, b);
    SameOrigin(t, a, b);
  }

  /**
    Convergence of lists: the invariant leaves one arrangement, so two lists over
    the same units are equal.
  */
  lemma {:induction false} UniqueArrangement(s: seq<Unit>, t: seq<Unit>, past: Past)
    requires Inv(s, past) && Inv(t, past)
    requires forall u :: u in s <==> u in t
    ensures s == t
  {
    var n := if |s| <= |t| then |s| else |t|;
    SamePrefix(s, t, past, n);
    if |s| < |t| {
      Longer(s, t);
    } else if |t| < |s| {
      Longer(t, s);
    }
  }

  lemma Longer(s: seq<Unit>, t: seq<Unit>)
    requires Distinct(t) && |s| < |t| && s == t[..|s|]
    ensures exists u :: u in t && u !in s
  {
    var u := t[|s|];
    assert u in t;
    assert forall k :: 0 <= k < |s| ==> s[k] == t[k];
  }

  lemma {:induction false} SamePrefix(s: seq<Unit>, t: seq<Unit>, past: Past, n: nat)
    requires Inv(s, past) && Inv(t, past)
    requires forall u :: u in s <==> u in t
    requires n <= |s| && n <= |t|
    ensures s[..n] == t[..n]
  {
    if n > 0 {
      var k := n - 1;
      SamePrefix(s, t, past, k);
      var a, b := s[k], t[k];
      var ta := Find(t, a);
      var sb := Find(s, b);
      assert forall m :: 0 <= m < k ==> s[m] == s[..k][m] == t[..k][m] == t[m];
      if a != b {
        PosAt(s, k);
        PosAt(t, k);
        PosAt(s, sb);
        PosAt(t, ta);
        SameIds(s, t);
        AgreeOnOrder(s, t, past, a, b);
      }
      assert s[..n] == s[..k] + [a] && t[..n] == t[..k] + [b];
    }
  }

  lemma Find(s: seq<Unit>, u: Unit) returns (k: int)
    requires u in s
    ensures 0 <= k < |s| && s[k] == u
  {
    k :| 0 <= k < |s| && s[k] == u;
  }

  lemma SameIds(s: seq<Unit>, t: seq<Unit>)
    requires Distinct(s) && (forall u :: u in s <==> u in t)
    ensures Compatible(s, t) && Compatible(t, s)
  {
  }

  /** Any two concurrent units that may be integrated now commute. */
  lemma ConcurrentUnitsCommute(s: seq<Unit>, past: Past, x: Unit, y: Unit)
    requires Inv(s, past) && Ready(s, past, x) && Ready(s, past, y)
    requires x.id.client != y.id.client && x.key == y.key
    requires x.id !in Seen(past, y.id) && y.id !in Seen(past, x.id)
    ensures Anchors(Integrate(s, x), y) && Anchors(Integrate(s, y), x)
    ensures Integrate(Integrate(s, x), y) == Integrate(Integrate(s, y), x)
  {
    ReadyAfter(s, past, x, y);
    ReadyAfter(s, past, y, x);
    var sx, sy := Integrate(s, x), Integrate(s, y);
    IntegrateKeeps(s, past, x);
    IntegrateKeeps(s, past, y);
    IntegrateKeeps(sx, past, y);
    IntegrateKeeps(sy, past, x);
    IntegrateElements(s, x);
    IntegrateElements(s, y);
    IntegrateElements(sx, y);
    IntegrateElements(sy, x);
    UniqueArrangement(Integrate(sx, y), Integrate(sy, x), past);
  }

  lemma IntegrateElements(s: seq<Unit>, x: Unit)
    requires Anchors(s, x)
    ensures forall u :: u in Integrate(s, x) <==> u in s || u == x
  {
    hide Scan;
    var p := Scan(s, x, L(s, x), L(s, x) + 1) + 1;
    assert s == s[..p] + s[p..];
  }

  lemma IntegrateDistinct(s: seq<Unit>, x: Unit)
    requires Distinct(s) && Anchors(s, x) && forall u :: u in s ==> u.id != x.id
    ensures Distinct(Integrate(s, x))
  {
    hide Scan;
    PosInsert(s, Scan(s, x, L(s, x), L(s, x) + 1) + 1, x, x.id);
  }

  lemma ReadyAfter(s: seq<Unit>, past: Past, x: Unit, y: Unit)
    requires Distinct(s) && Ready(s, past, x) && Ready(s, past, y)
    requires x.id.client != y.id.client && x.key == y.key
    requires x.id !in Seen(past, y.id) && y.id !in Seen(past, x.id)
    ensures Ready(Integrate(s, x), past, y)
  {
    hide Scan;
    var p := Scan(s, x, L(s, x), L(s, x) + 1) + 1;
    PosInsert(s, p, x, y.id);
    AnchorsInsert(s, p, x, y);
    HonestInsert(s, past, x, p, y);
    IntegrateElements(s, x);
  }

  // ------------------------------------------------------ concurrent typing runs

  /** Units typed one after the other from the same gap. */
  ghost predicate Typed(s: seq<Unit>, run: seq<Unit>, origin: Option<Id>, right: Option<Id>, client: nat) {
    && (forall i :: 0 <= i < |run| ==> In(s, run[i]) && run[i].right == right && run[i].id.client == client)
    && (forall i :: 0 <= i < |run| ==> Chained(run, origin, i))
  }

  predicate Chained(run: seq<Unit>, origin: Option<Id>, i: int)
    requires 0 <= i < |run|
  {
    run[i].origin == if i == 0 then origin else Some(run[i - 1].id)
  }

  /**
    Runs typed concurrently into one gap are ordered by client and never
    interleave: every unit of the lower client precedes every unit of the other.
  */
  lemma {:induction false} RunsDoNotInterleave(
    s: seq<Unit>, past: Past, a: seq<Unit>, b: seq<Unit>, origin: Option<Id>, right: Option<Id>,
    ca: nat, cb: nat, i: nat, j: nat)
    requires Inv(s, past) && ca < cb && i < |a| && j < |b|
    requires Typed(s, a, origin, right, ca) && Typed(s, b, origin, right, cb)
    ensures Pos(s, a[i].id) < Pos(s, b[j].id)
    decreases i, j
  {
    var pa, pb := Pos(s, a[i].id), Pos(s, b[j].id);
    assert Chained(a, origin, i) && Chained(b, origin, j);
    At(s, past, pa);
    At(s, past, pb);
    if j > 0 {
      RunsDoNotInterleave(s, past, a, b, origin, right, ca, cb, i, j - 1);
    } else {
      if i > 0 {
        RunsDoNotInterleave(s, past, a, b, origin, right, ca, cb, i - 1, j);
        At(s, past, Pos(s, a[0].id));
        RunAfterFirst(s, past, a, origin, right, ca, i - 1);
      }
      assert In(s, a[0]) && In(s, a[i]) && In(s, b[0]);
      assert Chained(a, origin, 0) && Chained(a, origin, i) && Chained(b, origin, 0);
      assert R(s, a[i]) == R(s, b[0]) && L(s, a[0]) == L(s, b[0]);
      if i > 0 { assert L(s, a[i]) == Pos(s, a[i - 1].id); }
      assert pb < pa ==> Wins(s, pb, pa);
    }
  }

  lemma {:induction false} RunAfterFirst(
    s: seq<Unit>, past: Past, a: seq<Unit>, origin: Option<Id>, right: Option<Id>, c: nat, i: nat)
    requires Inv(s, past) && i < |a| && Typed(s, a, origin, right, c)
    ensures Pos(s, a[0].id) <= Pos(s, a[i].id)
  {
    if i > 0 {
      RunAfterFirst(s, past, a, origin, right, c, i - 1);
      assert Chained(a, origin, i);
      At(s, past, Pos(s, a[i].id));
    }
  }
}
