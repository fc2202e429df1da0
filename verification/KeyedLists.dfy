/**
  One linked list per shared type holds the children (no key) and the entries of
  every key.  Integration compares a unit only with units of its own key, so the
  list restricted to one key evolves exactly as a list of its own.
*/
module KeyedLists {
  import opened Base
  import opened Yata

  /** The units of key `k`, in list order. */
  function Proj(s: seq<Unit>, k: Option<string>): (r: seq<Unit>) {
    if s == [] then []
    else Proj(s[..|s| - 1], k) + if s[|s| - 1].key == k then [s[|s| - 1]] else []
  }

  lemma {:induction false} ProjConcat(a: seq<Unit>, b: seq<Unit>, k: Option<string>)
    ensures Proj(a + b, k) == Proj(a, k) + Proj(b, k)
  {
    if b == [] {
      assert a + b == a;
    } else {
      var b' := b[..|b| - 1];
      ProjConcat(a, b', k);
      assert (a + b)[..|a + b| - 1] == a + b';
      assert (a + b)[|a + b| - 1] == b[|b| - 1];
    }
  }

  lemma {:induction false} ProjElements(s: seq<Unit>, k: Option<string>)
    ensures forall u :: u in Proj(s, k) <==> u in s && u.key == k
  {
    if s != [] {
      ProjElements(s[..|s| - 1], k);
      assert s == s[..|s| - 1] + [s[|s| - 1]];
    }
  }

  lemma {:induction false} ProjDistinct(s: seq<Unit>, k: Option<string>)
    requires Distinct(s)
    ensures Distinct(Proj(s, k))
  {
    if s != [] {
      var t := s[..|s| - 1];
      ProjDistinct(t, k);
      ProjElements(t, k);
      forall u | u in t
        ensures u.id != s[|s| - 1].id
      {
        var i := Yata.Find(t, u);
      }
    }
  }

  /** How many of the first `i` units have key `k`. */
  ghost function Rank(s: seq<Unit>, k: Option<string>, i: int): (n: nat)
    requires 0 <= i <= |s|
  {
    if i == 0 then 0 else Rank(s, k, i - 1) + if s[i - 1].key == k then 1 else 0
  }

  lemma {:induction false} RankMonotone(s: seq<Unit>, k: Option<string>, i: int, j: int)
    requires 0 <= i <= j <= |s|
    ensures Rank(s, k, i) <= Rank(s, k, j)
    ensures i < j && s[i].key == k ==> Rank(s, k, i) < Rank(s, k, j)
    decreases j
  {
    if i < j { RankMonotone(s, k, i, j - 1); }
  }

  lemma OrderRank(s: seq<Unit>, k: Option<string>, i: int, j: int)
    requires 0 <= i < |s| && 0 <= j < |s| && s[i].key == k && s[j].key == k
    ensures i < j <==> Rank(s, k, i) < Rank(s, k, j)
  {
    if i < j { RankMonotone(s, k, i, j); } else { RankMonotone(s, k, j, i); }
  }

  lemma {:induction false} RankPrefix(s: seq<Unit>, t: seq<Unit>, k: Option<string>, i: int)
    requires 0 <= i <= |s| && s <= t
    ensures Rank(s, k, i) == Rank(t, k, i)
  {
    if i > 0 { RankPrefix(s, t, k, i - 1); }
  }

  // ------------------------------------------------------------- the embedding

  ghost predicate Found(s: seq<Unit>, k: Option<string>, r: seq<Unit>, i: int)
    requires 0 <= i < |s|
  {
    s[i].key == k ==> Rank(s, k, i) < |r| && r[Rank(s, k, i)] == s[i]
  }

  /** `r` is the part of `s` with key `k`: units keep their order, found at their rank. */
  ghost predicate Embeds(s: seq<Unit>, k: Option<string>, r: seq<Unit>) {
    && Distinct(s) && Distinct(r)
    && |r| == Rank(s, k, |s|)
    && (forall i {:trigger Found(s, k, r, i)} :: 0 <= i < |s| ==> Found(s, k, r, i))
    && (forall u :: u in r <==> u in s && u.key == k)
  }

  lemma {:induction false} ProjLength(s: seq<Unit>, k: Option<string>)
    ensures |Proj(s, k)| == Rank(s, k, |s|)
  {
    if s != [] {
      ProjLength(s[..|s| - 1], k);
      RankPrefix(s[..|s| - 1], s, k, |s| - 1);
    }
  }

  lemma ProjEmbeds(s: seq<Unit>, k: Option<string>)
    requires Distinct(s)
    ensures Embeds(s, k, Proj(s, k))
  {
    ProjElements(s, k);
    ProjDistinct(s, k);
    ProjLength(s, k);
    forall i | 0 <= i < |s|
      ensures Found(s, k, Proj(s, k), i)
    {
      ProjFound(s, k, i);
    }
  }

  lemma ProjFound(s: seq<Unit>, k: Option<string>, i: int)
    requires 0 <= i < |s|
    ensures Found(s, k, Proj(s, k), i)
  {
    var a, b := s[..i], s[i + 1..];
    assert s == a + ([s[i]] + b);
    ProjConcat(a, [s[i]] + b, k);
    ProjConcat([s[i]], b, k);
    assert Proj([s[i]], k) == if s[i].key == k then [s[i]] else [];
    ProjLength(a, k);
    RankPrefix(a, s, k, i);
  }

  /** A unit of key `k` keeps its place: its index in the part is its rank. */
  lemma PosEmbeds(s: seq<Unit>, k: Option<string>, r: seq<Unit>, id: Id)
    requires Embeds(s, k, r) && Has(r, id)
    ensures Has(s, id) && s[Pos(s, id)].key == k && Pos(r, id) == Rank(s, k, Pos(s, id))
  {
    var u := r[Pos(r, id)];
    assert u in r;
    var i := Yata.Find(s, u);
    PosAt(s, i);
    assert Found(s, k, r, i);
    PosAt(r, Rank(s, k, i));
  }

  lemma AnchorsEmbeds(s: seq<Unit>, k: Option<string>, r: seq<Unit>, u: Unit)
    requires Embeds(s, k, r) && Anchors(r, u)
    ensures Anchors(s, u)
    ensures u.origin.Some? ==> 0 <= L(s, u) < |s| && s[L(s, u)].key == k && L(r, u) == Rank(s, k, L(s, u))
    ensures R(r, u) == Rank(s, k, R(s, u))
    ensures u.right.Some? ==> s[R(s, u)].key == k
  {
    if u.origin.Some? { PosEmbeds(s, k, r, u.origin.value); }
    if u.right.Some? { PosEmbeds(s, k, r, u.right.value); }
    if u.origin.Some? && R(s, u) <= L(s, u) {
      RankMonotone(s, k, R(s, u), L(s, u));
    }
  }

  // ------------------------------------------------------------------ the scan

  ghost predicate ClosedAt(s: seq<Unit>, k: Option<string>, r: seq<Unit>, i: int)
    requires 0 <= i < |s|
  {
    s[i].key == k ==> Anchors(r, s[i])
  }

  /** The units of key `k` are anchored among themselves. */
  ghost predicate KeyClosed(s: seq<Unit>, k: Option<string>, r: seq<Unit>) {
    forall i {:trigger ClosedAt(s, k, r, i)} :: 0 <= i < |s| ==> ClosedAt(s, k, r, i)
  }

  /** `left` is the head of the list or a unit of key `k`. */
  predicate OnKey(s: seq<Unit>, k: Option<string>, left: int) {
    left == -1 || (0 <= left < |s| && s[left].key == k)
  }

  lemma LeftRank(s: seq<Unit>, k: Option<string>, left: int, i: int)
    requires OnKey(s, k, left) && 0 <= i < |s| && s[i].key == k
    ensures i <= left <==> Rank(s, k, i) <= Rank(s, k, left + 1) - 1
  {
    if i <= left {
      RankMonotone(s, k, i, left);
    } else {
      RankMonotone(s, k, left + 1, i);
    }
  }

  /** The scan treats a unit of its key as it does in the part. */
  lemma ExamineEmbeds(s: seq<Unit>, r: seq<Unit>, x: Unit, left: int, o: int)
    requires Embeds(s, x.key, r) && KeyClosed(s, x.key, r) && Anchors(r, x) && Anchors(s, x)
    requires -1 <= left < o < R(s, x) && OnKey(s, x.key, left) && s[o].key == x.key
    ensures Rank(s, x.key, o) < R(r, x)
    ensures Examine(r, x, Rank(s, x.key, left + 1) - 1, Rank(s, x.key, o)) == Examine(s, x, left, o)
  {
    var k := x.key;
    assert Found(s, k, r, o) && ClosedAt(s, k, r, o);
    RankMonotone(s, k, o, R(s, x));
    AnchorsEmbeds(s, k, r, x);
    AnchorsEmbeds(s, k, r, s[o]);
    if s[o].origin.Some? {
      var l := L(s, s[o]);
      LeftRank(s, k, left, l);
      OrderRank(s, k, l, o);
      if x.origin.Some? { OrderRank(s, k, L(s, x), l); }
    }
  }

  lemma OtherKey(s: seq<Unit>, x: Unit, left: int, o: int)
    requires 0 <= o < |s| && s[o].key != x.key
    ensures Examine(s, x, left, o) == Pass && Rank(s, x.key, o + 1) == Rank(s, x.key, o)
  {
  }

  lemma RankStep(s: seq<Unit>, k: Option<string>, i: int)
    requires 0 <= i < |s|
    ensures Rank(s, k, i + 1) == Rank(s, k, i) + if s[i].key == k then 1 else 0
  {
  }

  lemma {:induction false} ScanOnKey(s: seq<Unit>, x: Unit, left: int, o: int)
    requires -1 <= left < o <= |s| && OnKey(s, x.key, left)
    ensures OnKey(s, x.key, Scan(s, x, left, o))
    decreases |s| - o
  {
    hide Anchors, Pos;
    if o < R(s, x) {
      match Examine(s, x, left, o) {
        case Stop =>
        case Take => ScanOnKey(s, x, o, o + 1);
        case Pass => ScanOnKey(s, x, left, o + 1);
      }
    }
  }

  /** The scan of the mixed list is the scan of the part. */
  lemma {:induction false} ScanEmbeds(s: seq<Unit>, r: seq<Unit>, x: Unit, left: int, o: int)
    requires Embeds(s, x.key, r) && KeyClosed(s, x.key, r) && Anchors(r, x) && Anchors(s, x)
    requires -1 <= left < o <= |s| && OnKey(s, x.key, left)
    ensures Rank(s, x.key, left + 1) <= Rank(s, x.key, o)
    ensures Rank(s, x.key, Scan(s, x, left, o) + 1) - 1
         == Scan(r, x, Rank(s, x.key, left + 1) - 1, Rank(s, x.key, o))
    decreases |s| - o
  {
    hide Scan, Examine, Embeds, KeyClosed, Rank, Anchors, L, R;
    var k := x.key;
    RankMonotone(s, k, left + 1, o);
    AnchorsEmbeds(s, k, r, x);
    Unfold(s, x, left, o);
    Unfold(r, x, Rank(s, k, left + 1) - 1, Rank(s, k, o));
    if o >= R(s, x) {
      RankMonotone(s, k, R(s, x), o);
    } else if s[o].key != k {
      OtherKey(s, x, left, o);
      ScanEmbeds(s, r, x, left, o + 1);
    } else {
      RankStep(s, k, o);
      ExamineEmbeds(s, r, x, left, o);
      match Examine(s, x, left, o) {
        case Stop =>
        case Take => ScanEmbeds(s, r, x, o, o + 1);
        case Pass => ScanEmbeds(s, r, x, left, o + 1);
      }
    }
  }

  lemma SingletonProj(x: Unit, k: Option<string>)
    ensures Proj([x], k) == if x.key == k then [x] else []
  {
  }

  lemma InsertProj(s: seq<Unit>, p: nat, x: Unit, k: Option<string>)
    requires p <= |s|
    ensures Rank(s, k, p) <= |Proj(s, k)|
    ensures Proj(InsertAt(s, p, x), k) == if k == x.key then InsertAt(Proj(s, k), Rank(s, k, p), x) else Proj(s, k)
  {
    hide Proj, Rank;
    var a, b := s[..p], s[p..];
    ProjConcat(a + [x], b, k);
    ProjConcat(a, [x], k);
    ProjConcat(a, b, k);
    assert s == a + b;
    ProjLength(a, k);
    RankPrefix(a, s, k, p);
    SingletonProj(x, k);
    var pa, pb, r := Proj(a, k), Proj(b, k), Proj(s, k);
    assert r == pa + pb && r[..|pa|] == pa && r[|pa|..] == pb;
  }

  lemma OriginRank(s: seq<Unit>, r: seq<Unit>, x: Unit)
    requires Embeds(s, x.key, r) && Anchors(r, x)
    ensures Anchors(s, x) && Rank(s, x.key, L(s, x) + 1) == L(r, x) + 1
  {
    AnchorsEmbeds(s, x.key, r, x);
  }

  /** Integrating into the mixed list integrates into the list of the key and leaves the others alone. */
  lemma IntegrateProj(s: seq<Unit>, x: Unit, k: Option<string>)
    requires Distinct(s) && KeyClosed(s, x.key, Proj(s, x.key)) && Anchors(Proj(s, x.key), x)
    ensures Anchors(s, x)
    ensures Proj(Integrate(s, x), k) == if k == x.key then Integrate(Proj(s, k), x) else Proj(s, k)
  {
    hide Scan, Embeds, KeyClosed, Proj, Distinct, Rank, Pos;
    var r := Proj(s, x.key);
    ProjEmbeds(s, x.key);
    AnchorsEmbeds(s, x.key, r, x);
    OriginRank(s, r, x);
    ScanEmbeds(s, r, x, L(s, x), L(s, x) + 1);
    InsertProj(s, Scan(s, x, L(s, x), L(s, x) + 1) + 1, x, k);
  }
}
