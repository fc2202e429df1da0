/**
  Attributed ranges of one client's clocks.  Ranges are collected in any order and may
  overlap; normalizing them sorts, splits and joins until they are disjoint.
*/
module AttrRanges {
  import opened Base

  /** Attributes are interned, so equal ones are one. */
  datatype Attr = Attr(name: string, value: string)

  datatype Range = Range(clock: nat, len: nat, attrs: seq<Attr>)

  predicate Covers(r: Range, c: nat) {
    r.clock <= c < r.clock + r.len
  }

  /** `None` asks only whether the clock is covered. */
  predicate Gives(r: Range, c: nat, a: Option<Attr>) {
    Covers(r, c) && (a.None? || a.value in r.attrs)
  }

  /** Some range that covers the clock carries the attribute. */
  predicate At(ids: seq<Range>, c: nat, a: Option<Attr>) {
    exists k :: 0 <= k < |ids| && Gives(ids[k], c, a)
  }

  /** The lists cover the same clocks with the same attributes. */
  ghost predicate Same(x: seq<Range>, y: seq<Range>) {
    forall c, a {:trigger At(x, c, a)} {:trigger At(y, c, a)} :: At(x, c, a) == At(y, c, a)
  }

  lemma AtConcat(x: seq<Range>, y: seq<Range>, c: nat, a: Option<Attr>)
    ensures At(x + y, c, a) <==> At(x, c, a) || At(y, c, a)
  {
    var s := x + y;
    if At(s, c, a) {
      var k :| 0 <= k < |s| && Gives(s[k], c, a);
      assert k < |x| ==> s[k] == x[k];
      assert k >= |x| ==> s[k] == y[k - |x|];
    }
    if At(x, c, a) {
      var k :| 0 <= k < |x| && Gives(x[k], c, a);
      assert s[k] == x[k];
    }
    if At(y, c, a) {
      var k :| 0 <= k < |y| && Gives(y[k], c, a);
      assert s[k + |x|] == y[k];
    }
  }

  lemma AtOne(r: Range, c: nat, a: Option<Attr>)
    ensures At([r], c, a) <==> Gives(r, c, a)
  {
    assert Gives(r, c, a) ==> Gives([r][0], c, a);
  }

  lemma AtTwo(r: Range, q: Range, c: nat, a: Option<Attr>)
    ensures At([r, q], c, a) <==> Gives(r, c, a) || Gives(q, c, a)
  {
    assert [r, q] == [r] + [q];
    AtConcat([r], [q], c, a);
    AtOne(r, c, a);
    AtOne(q, c, a);
  }

  /** Replacing a middle part by one that covers the same keeps all. */
  lemma SameMiddle(x: seq<Range>, m: seq<Range>, m': seq<Range>, y: seq<Range>)
    requires Same(m, m')
    ensures Same(x + m + y, x + m' + y)
  {
    forall c, a
      ensures At(x + m + y, c, a) == At(x + m' + y, c, a)
    {
      AtConcat(x + m, y, c, a);
      AtConcat(x, m, c, a);
      AtConcat(x + m', y, c, a);
      AtConcat(x, m', c, a);
    }
  }

  lemma SameTrans(x: seq<Range>, y: seq<Range>, z: seq<Range>)
    requires Same(x, y) && Same(y, z)
    ensures Same(x, z)
  {
    forall c, a
      ensures At(x, c, a) == At(z, c, a)
    {
      assert At(x, c, a) == At(y, c, a);
    }
  }

  // ---------------------------------------------------------------------- shape

  predicate Distinct(attrs: seq<Attr>) {
    forall i, j :: 0 <= i < j < |attrs| ==> attrs[i] != attrs[j]
  }

  predicate RangeOk(r: Range) {
    r.len > 0
  }

  /** No range lists an attribute twice. */
  predicate AllDistinct(ids: seq<Range>) {
    forall k :: 0 <= k < |ids| ==> Distinct(ids[k].attrs)
  }

  predicate AllOk(ids: seq<Range>) {
    forall k :: 0 <= k < |ids| ==> RangeOk(ids[k])
  }

  predicate ByClock(ids: seq<Range>) {
    forall i, j :: 0 <= i < j < |ids| ==> ids[i].clock <= ids[j].clock
  }

  /** Sorted, and no two ranges overlap. */
  predicate Apart(ids: seq<Range>) {
    forall i, j :: 0 <= i < j < |ids| ==> ids[i].clock + ids[i].len <= ids[j].clock
  }

  function Length(ids: seq<Range>): nat {
    if ids == [] then 0 else ids[0].len + Length(ids[1..])
  }

  lemma {:induction false} LengthConcat(x: seq<Range>, y: seq<Range>)
    ensures Length(x + y) == Length(x) + Length(y)
  {
    if x == [] {
      assert x + y == y;
    } else {
      assert (x + y)[1..] == x[1..] + y;
      LengthConcat(x[1..], y);
    }
  }

  // ------------------------------------------------------------- attribute lists

  /** The attributes of `a`, then those of `b` that `a` does not have. */
  method Join(a: seq<Attr>, b: seq<Attr>) returns (r: seq<Attr>)
    ensures forall x :: x in r <==> x in a || x in b
    ensures Distinct(a) && Distinct(b) ==> Distinct(r)
  {
    r := a;
    var i := 0;
    while i < |b|
      invariant 0 <= i <= |b| && (Distinct(a) && Distinct(b) ==> Distinct(r))
      invariant forall x :: x in r <==> x in a || x in b[..i]
    {
      assert b[..i + 1] == b[..i] + [b[i]];
      if b[i] !in a {
        r := r + [b[i]];
      }
      i := i + 1;
    }
    assert b[..i] == b;
  }

  /** The test for equal attributes: the same length, and every member of `a` is in `b`. */
  predicate Alike(a: seq<Attr>, b: seq<Attr>) {
    |a| == |b| && forall x :: x in a ==> x in b
  }

  ghost predicate SameSet(a: seq<Attr>, b: seq<Attr>) {
    forall x :: x in a <==> x in b
  }

  method SameAttrs(a: seq<Attr>, b: seq<Attr>) returns (same: bool)
    ensures same == Alike(a, b)
  {
    if |a| != |b| {
      return false;
    }
    var i := 0;
    while i < |a|
      invariant 0 <= i <= |a| && forall k :: 0 <= k < i ==> a[k] in b
    {
      if a[i] !in b {
        return false;
      }
      i := i + 1;
    }
    return true;
  }

  /** Without repetitions the test is exact. */
  lemma AlikeExact(a: seq<Attr>, b: seq<Attr>)
    requires Distinct(a) && Distinct(b)
    ensures Alike(a, b) <==> SameSet(a, b)
  {
    var x, y := set e | e in a, set e | e in b;
    DistinctSize(a);
    DistinctSize(b);
    assert forall e :: (e in a <==> e in x) && (e in b <==> e in y);
    if SameSet(a, b) {
      assert x == y;
    }
    if Alike(a, b) {
      assert x <= y;
      SubsetSameSize(x, y);
    }
  }

  lemma {:induction false} DistinctSize(a: seq<Attr>)
    requires Distinct(a)
    ensures |set e | e in a| == |a|
  {
    if a != [] {
      var rest := a[1..];
      DistinctSize(rest);
      assert a[0] !in rest;
      assert (set e | e in a) == {a[0]} + (set e | e in rest);
    }
  }

  lemma SubsetSameSize(x: set<Attr>, y: set<Attr>)
    requires x <= y && |x| == |y|
    ensures x == y
  {
    assert |y - x| == |y| - |x|;
  }

  // -------------------------------------------------------------------- sorting

  /** Puts `r` before the first range that does not start earlier. */
  function InsertByClock(r: Range, ids: seq<Range>): seq<Range> {
    if ids == [] || r.clock <= ids[0].clock then [r] + ids else [ids[0]] + InsertByClock(r, ids[1..])
  }

  lemma InsertByClockOk(r: Range, ids: seq<Range>)
    requires ByClock(ids)
    ensures var s := InsertByClock(r, ids);
            && ByClock(s) && (AllOk(ids) && RangeOk(r) ==> AllOk(s)) && Length(s) == r.len + Length(ids)
            && (forall k :: 0 <= k < |s| ==> s[k] == r || s[k] in ids)
  {
    hide InsertByClock, RangeOk, Length;
    InsertByClockOrder(r, ids);
  }

  lemma {:induction false} InsertByClockOrder(r: Range, ids: seq<Range>)
    requires ByClock(ids)
    ensures var s := InsertByClock(r, ids);
            && ByClock(s) && Length(s) == r.len + Length(ids)
            && (forall k :: 0 <= k < |s| ==> s[k] == r || s[k] in ids)
  {
    var s := InsertByClock(r, ids);
    if ids == [] || r.clock <= ids[0].clock {
      assert s[1..] == ids;
    } else {
      var h, t := ids[0], ids[1..];
      var rest := InsertByClock(r, t);
      InsertByClockOrder(r, t);
      assert s == [h] + rest && s[1..] == rest && ids == [h] + t;
      hide InsertByClock, Length;
      forall i, j | 0 <= i < j < |s|
        ensures s[i].clock <= s[j].clock
      {
        assert s[j] == rest[j - 1] && (rest[j - 1] == r || rest[j - 1] in t);
        assert i > 0 ==> s[i] == rest[i - 1];
      }
    }
  }

  lemma {:induction false} InsertByClockDistinct(r: Range, ids: seq<Range>)
    requires Distinct(r.attrs) && AllDistinct(ids)
    ensures AllDistinct(InsertByClock(r, ids))
    decreases |ids|
  {
    hide Distinct;
    if ids != [] && r.clock > ids[0].clock {
      InsertByClockDistinct(r, ids[1..]);
    }
  }

  lemma {:induction false} InsertByClockSame(r: Range, ids: seq<Range>)
    ensures Same([r] + ids, InsertByClock(r, ids))
  {
    if ids != [] && r.clock > ids[0].clock {
      var h, t := ids[0], ids[1..];
      var rest := InsertByClock(r, t);
      InsertByClockSame(r, t);
      assert ids == [h] + t;
      forall c, a
        ensures At([r] + ids, c, a) == At([h] + rest, c, a)
      {
        hide At;
        AtConcat([r], ids, c, a);
        AtConcat([h], t, c, a);
        AtConcat([h], rest, c, a);
        AtConcat([r], t, c, a);
        assert At([r] + t, c, a) == At(rest, c, a);
      }
    }
  }

  /** Sorts by clock. */
  method SortByClock(ids: seq<Range>) returns (s: seq<Range>)
    ensures ByClock(s) && (AllOk(ids) ==> AllOk(s)) && Same(ids, s) && forall k :: 0 <= k < |s| ==> s[k] in ids
    ensures ByClock(ids) ==> s == ids
  {
    s := [];
    var i := |ids|;
    assert ids[i..] == [];
    hide InsertByClock, At;
    while i > 0
      invariant 0 <= i <= |ids| && ByClock(s) && Same(ids[i..], s)
      invariant (forall k :: 0 <= k < |s| ==> s[k] in ids) && (ByClock(ids) ==> s == ids[i..])
    {
      i := i - 1;
      SortStep(ids, i, s);
      s := InsertByClock(ids[i], s);
    }
  }

  lemma SortStep(ids: seq<Range>, i: nat, s: seq<Range>)
    requires i < |ids| && ByClock(s) && Same(ids[i + 1..], s)
    requires (forall k :: 0 <= k < |s| ==> s[k] in ids) && (ByClock(ids) ==> s == ids[i + 1..])
    ensures var s' := InsertByClock(ids[i], s);
            && ByClock(s') && Same(ids[i..], s')
            && (forall k :: 0 <= k < |s'| ==> s'[k] in ids) && (ByClock(ids) ==> s' == ids[i..])
  {
    InsertByClockOk(ids[i], s);
    InsertByClockSame(ids[i], s);
    if ByClock(ids) {
      InsertStop(ids[i], s);
    }
    hide Same, At, InsertByClock, ByClock;
    assert ids[i..] == [ids[i]] + ids[i + 1..] + [];
    assert [ids[i]] + s == [ids[i]] + s + [];
    SameMiddle([ids[i]], ids[i + 1..], s, []);
    SameTrans(ids[i..], [ids[i]] + s, InsertByClock(ids[i], s));
  }

  // ------------------------------------------------------------ splitting overlaps

  /** Sorted, and the first `i` ranges overlap nothing. */
  ghost predicate Front(ids: seq<Range>, i: nat) {
    && i <= |ids| && ByClock(ids) && AllOk(ids)
    && forall a, b :: 0 <= a < b < |ids| && a < i ==> ids[a].clock + ids[a].len <= ids[b].clock
  }

  lemma SuffixLength(ids: seq<Range>, i: nat)
    requires i < |ids|
    ensures Length(ids[i..]) == ids[i].len + Length(ids[i + 1..])
  {
    assert ids[i..][1..] == ids[i + 1..];
  }

  /** Cuts the `i`-th range where the next one starts, if it reaches that far. */
  method SplitStep(ids: seq<Range>, i: nat) returns (ids': seq<Range>)
    requires Front(ids, i) && i + 1 < |ids| && ids[i].clock < ids[i + 1].clock
    ensures Front(ids', i + 1) && Same(ids, ids') && Length(ids'[i + 1..]) < Length(ids[i..])
    ensures (AllDistinct(ids) ==> AllDistinct(ids')) && (Apart(ids) ==> ids' == ids)
  {
    var rng, next := ids[i], ids[i + 1];
    SuffixLength(ids, i);
    if rng.clock + rng.len <= next.clock {
      return ids;
    }
    var diff := next.clock - rng.clock;
    var head, rest := Range(rng.clock, diff, rng.attrs), Range(next.clock, rng.len - diff, rng.attrs);
    ids' := ids[..i] + [head, rest] + ids[i + 1..];
    assert RangeOk(rng);
    SplitOk(ids, ids', i, head, rest);
    CutSame(rng, head, rest);
    hide At, Same, Length, Front;
    assert ids == ids[..i] + [rng] + ids[i + 1..];
    SameMiddle(ids[..i], [rng], [head, rest], ids[i + 1..]);
    assert ids'[i + 1..] == [rest] + ids[i + 1..];
    LengthConcat([rest], ids[i + 1..]);
    LengthOne(rest);
  }

  lemma CutSame(rng: Range, head: Range, rest: Range)
    requires head.attrs == rest.attrs == rng.attrs && head.clock == rng.clock && head.clock + head.len == rest.clock
    requires head.len + rest.len == rng.len
    ensures Same([rng], [head, rest])
  {
    forall c, a
      ensures At([rng], c, a) == At([head, rest], c, a)
    {
      AtOne(rng, c, a);
      AtTwo(head, rest, c, a);
    }
  }

  lemma LengthOne(x: Range)
    ensures Length([x]) == x.len
  {
    assert [x][1..] == [];
  }

  lemma SplitOk(ids: seq<Range>, ids': seq<Range>, i: nat, head: Range, rest: Range)
    requires Front(ids, i) && i + 1 < |ids| && ids' == ids[..i] + [head, rest] + ids[i + 1..]
    requires RangeOk(head) && RangeOk(rest) && head.clock == ids[i].clock
    requires head.clock + head.len == rest.clock == ids[i + 1].clock
    ensures Front(ids', i + 1)
  {
    forall a, b | 0 <= a < b < |ids'|
      ensures ids'[a].clock <= ids'[b].clock
      ensures a < i + 1 ==> ids'[a].clock + ids'[a].len <= ids'[b].clock
    {
      var x, y := if a <= i then a else a - 1, if b <= i then b else b - 1;
      assert a != i && a != i + 1 ==> ids'[a] == ids[x];
      assert b != i && b != i + 1 ==> ids'[b] == ids[y];
      assert x < y ==> ids[x].clock <= ids[y].clock;
      assert y > i ==> ids[i + 1].clock <= ids[y].clock;
    }
  }

  /** Moves the `k`-th range right to its place. */
  method Bubble(ids: seq<Range>, k: nat) returns (ids': seq<Range>)
    requires k < |ids|
    ensures ids' == ids[..k] + InsertByClock(ids[k], ids[k + 1..])
  {
    ids' := ids;
    var j := k;
    hide InsertByClock;
    while j + 1 < |ids'| && ids'[j].clock > ids'[j + 1].clock
      invariant k <= j < |ids'| == |ids| && ids'[j] == ids[k]
      invariant ids[..k] + InsertByClock(ids[k], ids[k + 1..]) == ids'[..j] + InsertByClock(ids[k], ids'[j + 1..])
      invariant ids'[j + 1..] == ids[j + 1..]
    {
      ghost var r, next, tail := ids[k], ids'[j + 1], ids'[j + 2..];
      assert ids'[j + 1..] == [next] + tail;
      InsertStep(r, next, tail);
      ghost var pre := ids'[..j];
      ids' := ids'[j := ids'[j + 1]][j + 1 := ids'[j]];
      assert ids'[..j + 1] == pre + [next] && ids'[j + 2..] == tail;
      j := j + 1;
    }
    InsertStop(ids[k], ids'[j + 1..]);
    assert ids' == ids'[..j] + ([ids[k]] + ids'[j + 1..]);
  }

  lemma InsertStep(r: Range, next: Range, tail: seq<Range>)
    requires r.clock > next.clock
    ensures InsertByClock(r, [next] + tail) == [next] + InsertByClock(r, tail)
  {
    assert ([next] + tail)[1..] == tail;
  }

  lemma InsertStop(r: Range, ids: seq<Range>)
    requires ids == [] || r.clock <= ids[0].clock
    ensures InsertByClock(r, ids) == [r] + ids
  {
  }

  /** The common part of two ranges with one start, with both attributes, and what is left of the longer. */
  method Overlap(rng: Range, next: Range) returns (m: Range, l: Range)
    requires RangeOk(rng) && RangeOk(next) && rng.clock == next.clock
    ensures RangeOk(m) && m.clock == rng.clock && l.clock == m.clock + m.len
    ensures m.len + l.len < rng.len + next.len && (l.len == 0 <==> rng.len == next.len)
    ensures Distinct(rng.attrs) && Distinct(next.attrs) ==> Distinct(m.attrs) && Distinct(l.attrs)
    ensures Same([rng, next], if rng.len == next.len then [m] else [m, l])
  {
    var larger := if next.len > rng.len then next else rng;
    var smaller := if next.len < rng.len then next.len else rng.len;
    var attrs := Join(rng.attrs, next.attrs);
    m := Range(rng.clock, smaller, attrs);
    l := Range(rng.clock + smaller, larger.len - smaller, larger.attrs);
    OverlapSame(rng, next, m, l, if rng.len == next.len then [m] else [m, l]);
  }

  /** Two ranges with one start are replaced by their common part and what is left of the longer. */
  method MergeStep(ids: seq<Range>, i: nat) returns (ids': seq<Range>)
    requires Front(ids, i) && i + 1 < |ids| && ids[i].clock == ids[i + 1].clock
    ensures Front(ids', i) && i < |ids'| && Same(ids, ids') && Length(ids'[i..]) < Length(ids[i..])
    ensures AllDistinct(ids) ==> AllDistinct(ids')
  {
    assert RangeOk(ids[i]) && RangeOk(ids[i + 1]);
    hide Same, Front, Distinct, Length, InsertByClock;
    var m, l := Overlap(ids[i], ids[i + 1]);
    if ids[i].len == ids[i + 1].len {
      ids' := ids[..i] + [m] + ids[i + 2..];
      MergeEqual(ids, i, m);
    } else {
      ids' := Bubble(ids[..i] + [m, l] + ids[i + 2..], i + 1);
      MergeLonger(ids, i, m, l);
      if AllDistinct(ids) {
        InsertByClockDistinct(l, ids[i + 2..]);
        MergedDistinct(ids, i, m, l);
      }
    }
  }

  lemma MergedDistinct(ids: seq<Range>, i: nat, m: Range, l: Range)
    requires AllDistinct(ids) && i + 1 < |ids| && Distinct(m.attrs) && AllDistinct(InsertByClock(l, ids[i + 2..]))
    ensures var s := ids[..i] + [m, l] + ids[i + 2..];
            AllDistinct(s[..i + 1] + InsertByClock(s[i + 1], s[i + 2..]))
  {
    var s := ids[..i] + [m, l] + ids[i + 2..];
    assert s[..i + 1] == ids[..i] + [m] && s[i + 2..] == ids[i + 2..];
  }

  lemma TailOk(ids: seq<Range>, i: nat)
    requires Front(ids, i) && i + 1 < |ids|
    ensures var tail := ids[i + 2..];
            && ByClock(tail) && AllOk(tail) && (forall k :: 0 <= k < |tail| ==> ids[i].clock <= tail[k].clock)
            && Length(ids[i..]) == ids[i].len + ids[i + 1].len + Length(tail)
            && ids == ids[..i] + [ids[i], ids[i + 1]] + tail
  {
    SuffixLength(ids, i);
    SuffixLength(ids, i + 1);
  }

  lemma MergeEqual(ids: seq<Range>, i: nat, m: Range)
    requires Front(ids, i) && i + 1 < |ids| && ids[i].clock == ids[i + 1].clock
    requires RangeOk(m) && m.clock == ids[i].clock && m.len < ids[i].len + ids[i + 1].len
    requires Same([ids[i], ids[i + 1]], [m])
    ensures var ids' := ids[..i] + [m] + ids[i + 2..];
            Front(ids', i) && Same(ids, ids') && Length(ids'[i..]) < Length(ids[i..])
  {
    hide Same, Length;
    TailOk(ids, i);
    SameMiddle(ids[..i], [ids[i], ids[i + 1]], [m], ids[i + 2..]);
    MergedOk(ids, ids[..i] + [m] + ids[i + 2..], i, m, ids[i + 2..]);
  }

  lemma MergeLonger(ids: seq<Range>, i: nat, m: Range, l: Range)
    requires Front(ids, i) && i + 1 < |ids| && ids[i].clock == ids[i + 1].clock
    requires RangeOk(m) && RangeOk(l) && m.clock == ids[i].clock <= l.clock
    requires m.len + l.len < ids[i].len + ids[i + 1].len
    requires Same([ids[i], ids[i + 1]], [m, l])
    ensures var ids1 := ids[..i] + [m, l] + ids[i + 2..];
            var ids' := ids1[..i + 1] + InsertByClock(ids1[i + 1], ids1[i + 2..]);
            Front(ids', i) && Same(ids, ids') && Length(ids'[i..]) < Length(ids[i..])
  {
    var tail := ids[i + 2..];
    var ids1 := ids[..i] + [m, l] + tail;
    var rest := InsertByClock(l, tail);
    assert ids1[..i + 1] == ids[..i] + [m] && ids1[i + 2..] == tail && ids1[i + 1] == l;
    hide Same, Length, InsertByClock;
    TailOk(ids, i);
    InsertByClockOk(l, tail);
    LongerSame(ids[..i], [ids[i], ids[i + 1]], m, l, tail);
    MergedOk(ids, ids[..i] + [m] + rest, i, m, rest);
  }

  lemma LongerSame(pre: seq<Range>, two: seq<Range>, m: Range, l: Range, tail: seq<Range>)
    requires Same(two, [m, l])
    ensures Same(pre + two + tail, pre + [m] + InsertByClock(l, tail))
  {
    var rest := InsertByClock(l, tail);
    InsertByClockSame(l, tail);
    hide At, InsertByClock;
    assert [m, l] == [m] + [l];
    forall c, a
      ensures At(pre + two + tail, c, a) == At(pre + [m] + rest, c, a)
    {
      AtConcat(pre + two, tail, c, a);
      AtConcat(pre, two, c, a);
      AtConcat(pre + [m], rest, c, a);
      AtConcat(pre, [m], c, a);
      AtConcat([m], [l], c, a);
      AtConcat([l], tail, c, a);
      assert At([l] + tail, c, a) == At(rest, c, a);
      assert At(two, c, a) == At([m] + [l], c, a);
    }
  }

  lemma OverlapSame(rng: Range, next: Range, m: Range, l: Range, out: seq<Range>)
    requires rng.clock == next.clock == m.clock && rng.len > 0 && next.len > 0
    requires m.len == (if next.len < rng.len then next.len else rng.len)
    requires forall x :: x in m.attrs <==> x in rng.attrs || x in next.attrs
    requires var longer := if next.len > rng.len then next else rng;
             l == Range(rng.clock + m.len, longer.len - m.len, longer.attrs)
    requires out == if rng.len == next.len then [m] else [m, l]
    ensures Same([rng, next], out)
  {
    forall c, a
      ensures At([rng, next], c, a) == At(out, c, a)
    {
      AtTwo(rng, next, c, a);
      AtTwo(m, l, c, a);
      AtOne(m, c, a);
    }
  }

  lemma MergedOk(ids: seq<Range>, ids': seq<Range>, i: nat, m: Range, rest: seq<Range>)
    requires Front(ids, i) && i + 1 < |ids| && ids[i].clock == ids[i + 1].clock
    requires ids' == ids[..i] + [m] + rest && RangeOk(m) && m.clock == ids[i].clock && ByClock(rest) && AllOk(rest)
    requires forall k :: 0 <= k < |rest| ==> m.clock <= rest[k].clock
    requires Length(rest) + m.len < Length(ids[i..])
    ensures Front(ids', i) && Length(ids'[i..]) < Length(ids[i..])
  {
    assert ids'[i..] == [m] + rest;
    LengthConcat([m], rest);
    assert Length([m]) == m.len + Length([m][1..]);
    MergedFront(ids, ids', i, m, rest);
  }

  lemma MergedFront(ids: seq<Range>, ids': seq<Range>, i: nat, m: Range, rest: seq<Range>)
    requires Front(ids, i) && i < |ids|
    requires ids' == ids[..i] + [m] + rest && RangeOk(m) && m.clock == ids[i].clock && ByClock(rest) && AllOk(rest)
    requires forall k :: 0 <= k < |rest| ==> m.clock <= rest[k].clock
    ensures Front(ids', i)
  {
    hide Distinct, Length;
    assert forall a :: 0 <= a < i ==> ids'[a] == ids[a] && ids[a].clock + ids[a].len <= m.clock;
    assert forall b :: i < b < |ids'| ==> ids'[b] == rest[b - i - 1];
    assert ids'[i] == m;
  }

  /** Splits and joins until no two ranges overlap. */
  method SplitOverlaps(ids: seq<Range>) returns (ids': seq<Range>)
    requires ByClock(ids) && AllOk(ids)
    ensures ByClock(ids') && AllOk(ids') && Apart(ids') && Same(ids, ids')
    ensures (AllDistinct(ids) ==> AllDistinct(ids')) && (Apart(ids) ==> ids' == ids)
  {
    ids' := ids;
    var i := 0;
    while i + 1 < |ids'|
      invariant Front(ids', i) && Same(ids, ids')
      invariant (AllDistinct(ids) ==> AllDistinct(ids')) && (Apart(ids) ==> ids' == ids)
      decreases Length(ids'[i..])
    {
      ApartAscends(ids', i);
      hide Front, Same, Length, AllDistinct, Apart;
      ghost var before := ids';
      if ids'[i].clock < ids'[i + 1].clock {
        ids' := SplitStep(ids', i);
        i := i + 1;
      } else {
        ids' := MergeStep(ids', i);
      }
      SameTrans(ids, before, ids');
    }
  }

  // --------------------------------------------------------------- joining neighbours

  lemma ApartAscends(ids: seq<Range>, i: nat)
    requires Front(ids, i) && i + 1 < |ids|
    ensures Apart(ids) ==> ids[i].clock < ids[i + 1].clock
  {
    assert RangeOk(ids[i]);
  }

  /** The ranges touch and pass for equal. */
  predicate Joins(l: Range, r: Range) {
    l.clock + l.len == r.clock && Alike(l.attrs, r.attrs)
  }

  /** Sorted, disjoint, not empty, and neighbours that touch do not pass for equal. */
  ghost predicate Normal(ids: seq<Range>) {
    && AllOk(ids) && Apart(ids)
    && forall k :: 0 <= k < |ids| - 1 ==> !Joins(ids[k], ids[k + 1])
  }

  /** Neighbours that are joined have the same attributes. */
  ghost predicate Lossless(ids: seq<Range>) {
    forall k :: !LossAt(ids, k)
  }

  /** The ranges at `k` and behind it are joined though their attributes differ. */
  ghost predicate LossAt(ids: seq<Range>, k: int) {
    0 <= k < |ids| - 1 && Joins(ids[k], ids[k + 1]) && !SameSet(ids[k].attrs, ids[k + 1].attrs)
  }

  lemma DistinctLossless(ids: seq<Range>)
    requires AllDistinct(ids)
    ensures Lossless(ids)
  {
    forall k
      ensures !LossAt(ids, k)
    {
      if 0 <= k < |ids| - 1 { AlikeExact(ids[k].attrs, ids[k + 1].attrs); }
    }
  }

  /** Joins each range with the ones after it that touch it and pass for equal; the first one's attributes stay. */
  function Joined(ids: seq<Range>): seq<Range>
    decreases |ids|
  {
    if |ids| <= 1 then ids
    else if Joins(ids[0], ids[1]) then Joined([Absorbed(ids[0], ids[1])] + ids[2..])
    else [ids[0]] + Joined(ids[1..])
  }

  function Absorbed(l: Range, r: Range): Range {
    l.(len := l.len + r.len)
  }

  /** The loop that joins neighbours, reading ahead of where it writes. */
  method JoinNeighbours(ids: seq<Range>) returns (out: seq<Range>)
    requires AllOk(ids) && Apart(ids)
    ensures out == Joined(ids)
  {
    if ids == [] {
      return [];
    }
    var last, i := ids[0], 1;
    out := [];
    assert [last] + ids[1..] == ids;
    while i < |ids|
      invariant 1 <= i <= |ids| && out + Joined([last] + ids[i..]) == Joined(ids)
    {
      hide Joined;
      var right := ids[i];
      var same := SameAttrs(last.attrs, right.attrs);
      JoinedStep(last, right, ids[i + 1..]);
      assert [last] + ids[i..] == [last, right] + ids[i + 1..];
      if last.clock + last.len == right.clock && same {
        last := Absorbed(last, right);
      } else {
        Regroup(out, last, Joined([right] + ids[i + 1..]));
        out, last := out + [last], right;
      }
      i := i + 1;
    }
    assert [last] + ids[i..] == [last];
    out := out + [last];
  }

  lemma Regroup(x: seq<Range>, r: Range, y: seq<Range>)
    ensures x + ([r] + y) == x + [r] + y
  {
  }

  lemma JoinedStep(left: Range, right: Range, rest: seq<Range>)
    ensures Joined([left, right] + rest) ==
            if Joins(left, right) then Joined([Absorbed(left, right)] + rest) else [left] + Joined([right] + rest)
  {
    var ids := [left, right] + rest;
    assert ids[2..] == rest && ids[1..] == [right] + rest;
  }

  /** Joining gives the normal form of disjoint ranges.  It covers the same clocks and adds no attribute. */
  lemma {:induction false} JoinedNormal(ids: seq<Range>)
    requires AllOk(ids) && Apart(ids)
    ensures Normal(Joined(ids)) && (ids != [] ==> Joined(ids) != [] && Starts(Joined(ids)[0], ids[0]))
    ensures forall c, a :: At(Joined(ids), c, a) ==> At(ids, c, a)
    ensures forall c :: At(Joined(ids), c, None) <==> At(ids, c, None)
    decreases |ids|
  {
    if |ids| > 1 {
      var l, r := ids[0], ids[1];
      if Joins(l, r) {
        var rest := [Absorbed(l, r)] + ids[2..];
        AbsorbedApart(ids, rest);
        JoinedNormal(rest);
        forall c, a
          ensures At(rest, c, a) ==> At(ids, c, a)
          ensures At(rest, c, None) <==> At(ids, c, None)
        {
          AtAbsorbed(ids, rest, c, a);
          AtAbsorbed(ids, rest, c, None);
        }
      } else {
        JoinedNormal(ids[1..]);
        var out := Joined(ids[1..]);
        PutNormal(l, ids[1..], out);
        assert ids == [l] + ids[1..];
        forall c, a
          ensures At([l] + out, c, a) ==> At(ids, c, a)
          ensures At([l] + out, c, None) <==> At(ids, c, None)
        {
          AtConcat([l], out, c, a);
          AtConcat([l], ids[1..], c, a);
          AtConcat([l], out, c, None);
          AtConcat([l], ids[1..], c, None);
        }
      }
    }
  }

  /** The same start and attributes, and at least as long. */
  predicate Starts(x: Range, y: Range) {
    x.clock == y.clock && x.attrs == y.attrs && x.len >= y.len
  }

  lemma AbsorbedApart(ids: seq<Range>, rest: seq<Range>)
    requires AllOk(ids) && Apart(ids) && |ids| > 1 && Joins(ids[0], ids[1])
    requires rest == [Absorbed(ids[0], ids[1])] + ids[2..]
    ensures AllOk(rest) && Apart(rest)
  {
    assert forall k :: 0 < k < |rest| ==> rest[k] == ids[k + 1];
    assert RangeOk(ids[0]) && RangeOk(ids[1]);
  }

  /** What the grown range gives at a clock: what the first one gives, and its attributes where the second one is. */
  lemma AtAbsorbed(ids: seq<Range>, rest: seq<Range>, c: nat, a: Option<Attr>)
    requires |ids| > 1 && Joins(ids[0], ids[1]) && rest == [Absorbed(ids[0], ids[1])] + ids[2..]
    ensures At(rest, c, a) <==> At(ids[2..], c, a) || Gives(ids[0], c, a)
                                || (Covers(ids[1], c) && (a.None? || a.value in ids[0].attrs))
    ensures At(ids, c, a) <==> At(ids[2..], c, a) || Gives(ids[0], c, a) || Gives(ids[1], c, a)
    ensures At(rest, c, a) ==> At(ids, c, a)
  {
    var l, r := ids[0], ids[1];
    AtConcat([Absorbed(l, r)], ids[2..], c, a);
    AtOne(Absorbed(l, r), c, a);
    assert ids == [l, r] + ids[2..];
    AtConcat([l, r], ids[2..], c, a);
    AtTwo(l, r, c, a);
  }

  lemma PutNormal(l: Range, ids: seq<Range>, out: seq<Range>)
    requires RangeOk(l) && ids != [] && Apart([l] + ids) && !Joins(l, ids[0])
    requires Normal(out) && out != [] && Starts(out[0], ids[0])
    ensures Normal([l] + out)
  {
    var s := [l] + out;
    assert ([l] + ids)[0] == l && ([l] + ids)[1] == ids[0];
    forall i, j | 0 <= i < j < |s|
      ensures s[i].clock + s[i].len <= s[j].clock
    {
      assert j > 1 ==> out[0].clock <= out[j - 1].clock;
    }
    forall k | 0 <= k < |s| - 1
      ensures !Joins(s[k], s[k + 1])
    {
      if k > 0 { assert s[k] == out[k - 1] && s[k + 1] == out[k]; }
    }
  }

  /** Of disjoint ranges, only one is at a clock. */
  lemma OnlyOne(ids: seq<Range>, k: nat, c: nat, a: Option<Attr>)
    requires Apart(ids) && AllOk(ids) && k < |ids| && Covers(ids[k], c)
    ensures At(ids, c, a) <==> Gives(ids[k], c, a)
  {
    if At(ids, c, a) {
      var j :| 0 <= j < |ids| && Gives(ids[j], c, a);
      var x, y := ids[j], ids[k];
      assert j < k ==> x.clock + x.len <= y.clock;
      assert k < j ==> y.clock + y.len <= x.clock;
    }
  }

  /** Joining keeps every attribute if and only if the ranges that are joined have the same ones. */
  lemma {:induction false} JoinedSame(ids: seq<Range>)
    requires AllOk(ids) && Apart(ids)
    ensures Same(ids, Joined(ids)) <==> Lossless(ids)
    decreases |ids|
  {
    if |ids| > 1 {
      var l, r := ids[0], ids[1];
      if Joins(l, r) {
        var rest := [Absorbed(l, r)] + ids[2..];
        AbsorbedApart(ids, rest);
        JoinedSame(rest);
        if SameSet(l.attrs, r.attrs) {
          AbsorbedSame(ids, rest);
          AbsorbedLossless(ids, rest);
          SameSteps(ids, rest, Joined(rest));
        } else {
          AbsorbedLoses(ids, rest);
        }
      } else {
        JoinedSame(ids[1..]);
        JoinedNormal(ids[1..]);
        PutLossless(ids);
        PutSame(ids, Joined(ids[1..]));
      }
    }
  }

  lemma SameSteps(x: seq<Range>, y: seq<Range>, z: seq<Range>)
    requires Same(x, y)
    ensures Same(x, z) <==> Same(y, z)
  {
    hide At;
    if Same(x, z) {
      forall c, a
        ensures At(y, c, a) == At(z, c, a)
      {
        assert At(x, c, a) == At(y, c, a) && At(x, c, a) == At(z, c, a);
      }
    }
    if Same(y, z) {
      SameTrans(x, y, z);
    }
  }

  lemma AbsorbedSame(ids: seq<Range>, rest: seq<Range>)
    requires |ids| > 1 && Joins(ids[0], ids[1]) && rest == [Absorbed(ids[0], ids[1])] + ids[2..]
    requires SameSet(ids[0].attrs, ids[1].attrs)
    ensures Same(ids, rest)
  {
    forall c, a
      ensures At(ids, c, a) == At(rest, c, a)
    {
      AtAbsorbed(ids, rest, c, a);
    }
  }

  lemma AbsorbedLossless(ids: seq<Range>, rest: seq<Range>)
    requires |ids| > 1 && Joins(ids[0], ids[1]) && rest == [Absorbed(ids[0], ids[1])] + ids[2..]
    requires SameSet(ids[0].attrs, ids[1].attrs)
    ensures Lossless(ids) <==> Lossless(rest)
  {
    assert forall k :: 0 < k < |rest| ==> rest[k] == ids[k + 1];
    if |ids| > 2 {
      assert Joins(rest[0], rest[1]) == Joins(ids[1], ids[2]);
      assert SameSet(rest[0].attrs, rest[1].attrs) == SameSet(ids[1].attrs, ids[2].attrs);
    }
    forall k
      ensures LossAt(rest, k) <==> k >= 0 && LossAt(ids, k + 1)
    {
    }
    if Lossless(rest) {
      forall k ensures !LossAt(ids, k) {
        assert !LossAt(rest, k - 1);
      }
    }
  }

  /** An attribute that only the second range has is gone, for good. */
  lemma AbsorbedLoses(ids: seq<Range>, rest: seq<Range>)
    requires AllOk(ids) && Apart(ids) && |ids| > 1 && Joins(ids[0], ids[1])
    requires rest == [Absorbed(ids[0], ids[1])] + ids[2..]
    requires !SameSet(ids[0].attrs, ids[1].attrs)
    ensures !Lossless(ids) && !Same(ids, Joined(rest))
  {
    var l, r := ids[0], ids[1];
    var x :| x in r.attrs && x !in l.attrs;
    assert LossAt(ids, 0);
    AbsorbedApart(ids, rest);
    JoinedNormal(rest);
    OnlyOne(ids, 1, r.clock, Some(x));
    assert RangeOk(r);
    assert rest[0] == Absorbed(l, r) && Covers(rest[0], r.clock);
    OnlyOne(rest, 0, r.clock, Some(x));
    assert At(ids, r.clock, Some(x)) && !At(Joined(rest), r.clock, Some(x));
  }

  lemma PutLossless(ids: seq<Range>)
    requires |ids| > 1 && !Joins(ids[0], ids[1])
    ensures Lossless(ids) <==> Lossless(ids[1..])
  {
    var t := ids[1..];
    forall k
      ensures LossAt(t, k) <==> k >= 0 && LossAt(ids, k + 1)
    {
    }
    if Lossless(t) {
      forall k ensures !LossAt(ids, k) {
        assert !LossAt(t, k - 1);
      }
    }
  }

  lemma PutSame(ids: seq<Range>, out: seq<Range>)
    requires AllOk(ids) && Apart(ids) && |ids| > 1 && forall c, a :: At(out, c, a) ==> At(ids[1..], c, a)
    ensures Same(ids[1..], out) <==> Same(ids, [ids[0]] + out)
  {
    var l, t := ids[0], ids[1..];
    assert ids == [l] + t;
    forall c, a
      ensures At(ids, c, a) <==> Gives(l, c, a) || At(t, c, a)
      ensures At([l] + out, c, a) <==> Gives(l, c, a) || At(out, c, a)
      ensures At(t, c, a) ==> !Gives(l, c, a)
    {
      AtConcat([l], t, c, a);
      AtConcat([l], out, c, a);
      AtOne(l, c, a);
      if At(t, c, a) {
        var j :| 0 <= j < |t| && Gives(t[j], c, a);
        assert ids[0].clock + ids[0].len <= ids[j + 1].clock;
      }
    }
    hide At;
    if Same(ids, [l] + out) {
      forall c, a ensures At(t, c, a) == At(out, c, a) {
        assert At(ids, c, a) == At([l] + out, c, a);
      }
    }
    if Same(t, out) {
      forall c, a ensures At(ids, c, a) == At([l] + out, c, a) {
        assert At(t, c, a) == At(out, c, a);
      }
    }
  }

  /** Ranges of one client: added in any order, normalized when they are read. */
  class Ranges {
    var sorted: bool
    var ids: seq<Range>

    ghost predicate Valid()
      reads this
    {
      AllOk(ids) && (sorted ==> Normal(ids))
    }

    constructor ()
      ensures Valid() && ids == []
    {
      sorted, ids := false, [];
    }

    method Add(clock: nat, len: nat, attrs: seq<Attr>)
      requires Valid()
      modifies this
      ensures Valid() && ids == if len == 0 then old(ids) else old(ids) + [Range(clock, len, attrs)]
      ensures forall c, a :: At(ids, c, a) <==> At(old(ids), c, a) || Gives(Range(clock, len, attrs), c, a)
    {
      if len == 0 {
        return;
      }
      var r := Range(clock, len, attrs);
      forall c, a
        ensures At(ids + [r], c, a) <==> At(ids, c, a) || Gives(r, c, a)
      {
        AtConcat(ids, [r], c, a);
        AtOne(r, c, a);
      }
      sorted := false;
      ids := ids + [r];
    }

    /**
      The disjoint ranges in order.  `parts` is the list before neighbours are joined; at each
      clock it has the union of what was added there.  The answer has it too if and only if the
      parts that are joined have the same attributes, as they do when no attribute was repeated.
    */
    method GetIDs() returns (r: seq<Range>, ghost parts: seq<Range>)
      requires Valid()
      modifies this
      ensures Valid() && sorted && ids == r && Normal(r)
      ensures AllOk(parts) && Apart(parts) && Same(old(ids), parts) && (Apart(old(ids)) ==> parts == old(ids))
      ensures r == Joined(parts) && (Same(old(ids), r) <==> Lossless(parts))
      ensures AllDistinct(old(ids)) ==> Same(old(ids), r)
      ensures forall c, a :: At(r, c, a) ==> At(old(ids), c, a)
      ensures forall c :: At(r, c, None) <==> At(old(ids), c, None)
    {
      if sorted {
        NormalJoined(ids);
        return ids, ids;
      }
      sorted := true;
      var s := SortByClock(ids);
      var t := SplitOverlaps(s);
      r := JoinNeighbours(t);
      parts := t;
      JoinedNormal(t);
      JoinedSame(t);
      if AllDistinct(ids) {
        DistinctLossless(t);
      }
      hide Normal, At;
      SameTrans(ids, s, t);
      SameSteps(ids, t, r);
      forall c, a ensures At(t, c, a) == At(ids, c, a) {
        assert At(ids, c, a) == At(t, c, a);
      }
      ids := r;
    }
  }

  lemma {:induction false} NormalJoined(ids: seq<Range>)
    requires Normal(ids)
    ensures Joined(ids) == ids && Lossless(ids)
    decreases |ids|
  {
    if |ids| > 1 {
      assert !Joins(ids[0], ids[1]);
      forall k | 0 <= k < |ids| - 2
        ensures !Joins(ids[1..][k], ids[1..][k + 1])
      {
        assert !Joins(ids[k + 1], ids[k + 2]);
      }
      NormalJoined(ids[1..]);
    }
  }
}
