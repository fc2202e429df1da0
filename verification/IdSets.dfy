/**
  Sets and attributed maps of clocks as lists of ranges, for one client.  The operations
  work range by range; clock by clock they are the set operations.
*/
module IdSets {
  import opened Base
  import opened AttrRanges

  /** The clock is in some range. */
  predicate In(ids: seq<Range>, c: nat) {
    At(ids, c, None)
  }

  lemma InConcat(x: seq<Range>, y: seq<Range>, c: nat)
    ensures In(x + y, c) <==> In(x, c) || In(y, c)
  {
    AtConcat(x, y, c, None);
  }

  /** Sorted, not empty, with a gap between any two ranges. */
  ghost predicate Gapped(ids: seq<Range>) {
    && (forall k :: 0 <= k < |ids| ==> ids[k].len > 0 && ids[k].attrs == [])
    && forall i, j :: 0 <= i < j < |ids| ==> ids[i].clock + ids[i].len < ids[j].clock
  }

  /** The lists have the same clocks. */
  ghost predicate Equal(x: seq<Range>, y: seq<Range>) {
    forall c: nat {:trigger In(x, c)} {:trigger In(y, c)} :: In(x, c) <==> In(y, c)
  }

  lemma EqualPush(x: seq<Range>, y: seq<Range>, r: Range, out: seq<Range>)
    requires Equal(x, y) && Equal(y + [r], out)
    ensures Equal(x + [r], out)
  {
    hide In;
    forall c: nat
      ensures In(x + [r], c) == In(out, c)
    {
      InConcat(x, [r], c);
      InConcat(y, [r], c);
      assert In(x, c) == In(y, c);
      assert In(y + [r], c) == In(out, c);
    }
  }

  // ------------------------------------------------------------- sets of clocks

  /** Sorted with gaps; only the last range may be empty. */
  ghost predicate Loose(ids: seq<Range>) {
    && (forall k :: 0 <= k < |ids| ==> ids[k].attrs == [] && (k < |ids| - 1 ==> ids[k].len > 0))
    && forall i, j :: 0 <= i < j < |ids| ==> ids[i].clock + ids[i].len < ids[j].clock
  }

  /** Merges ranges that touch or overlap and drops empty ones, reading ahead of where it writes. */
  method MergeSorted(ids: seq<Range>) returns (out: seq<Range>)
    requires ByClock(ids) && forall k :: 0 <= k < |ids| ==> ids[k].attrs == []
    ensures Gapped(out) && Equal(ids, out)
  {
    if ids == [] {
      return [];
    }
    out := ids[..1];
    var i := 1;
    while i < |ids|
      invariant 1 <= i <= |ids| && out != [] && Loose(out) && out[|out| - 1].clock <= ids[i - 1].clock
      invariant Equal(ids[..i], out)
    {
      hide Equal, In, At, Loose;
      assert ids[i - 1].clock <= ids[i].clock;
      ghost var before := out;
      out := MergeOne(out, ids[i]);
      assert ids[..i + 1] == ids[..i] + [ids[i]];
      EqualPush(ids[..i], before, ids[i], out);
      i := i + 1;
    }
    assert ids[..i] == ids;
    if out[|out| - 1].len == 0 {
      DropLast(out);
      out := out[..|out| - 1];
    }
  }

  lemma DropLast(out: seq<Range>)
    requires Loose(out) && out != [] && out[|out| - 1].len == 0
    ensures Gapped(out[..|out| - 1]) && Equal(out, out[..|out| - 1])
  {
    var n := |out| - 1;
    assert out == out[..n] + [out[n]];
    forall c: nat
      ensures In(out, c) <==> In(out[..n], c)
    {
      InConcat(out[..n], [out[n]], c);
      AtOne(out[n], c, None);
    }
  }

  /** Extends the last range, takes its place if it is empty, or appends. */
  method MergeOne(out: seq<Range>, right: Range) returns (out': seq<Range>)
    requires Loose(out) && out != [] && right.attrs == [] && out[|out| - 1].clock <= right.clock
    ensures Loose(out') && out' != [] && out'[|out'| - 1].clock <= right.clock && Equal(out + [right], out')
  {
    var left := out[|out| - 1];
    out' := out;
    if left.clock + left.len >= right.clock {
      Absorb(out, right);
      if right.clock + right.len > left.clock + left.len {
        out' := out[|out| - 1 := Range(left.clock, right.clock + right.len - left.clock, [])];
      }
    } else if left.len == 0 {
      TakeOver(out, right);
      out' := out[|out| - 1 := right];
    } else {
      AppendLoose(out, right);
      out' := out + [right];
    }
  }

  lemma AppendLoose(out: seq<Range>, r: Range)
    requires Loose(out) && r.attrs == []
    requires out != [] ==> out[|out| - 1].len > 0 && out[|out| - 1].clock + out[|out| - 1].len < r.clock
    ensures Loose(out + [r])
  {
    var out' := out + [r];
    forall i, j | 0 <= i < j < |out'|
      ensures out'[i].clock + out'[i].len < out'[j].clock
    {
      assert i < |out| - 1 ==> out[i].clock + out[i].len < out[|out| - 1].clock;
    }
  }

  /** An empty range gives way to the next one. */
  lemma TakeOver(out: seq<Range>, r: Range)
    requires Loose(out) && out != [] && out[|out| - 1].len == 0 && r.attrs == [] && out[|out| - 1].clock <= r.clock
    ensures Loose(out[|out| - 1 := r]) && Equal(out + [r], out[|out| - 1 := r])
  {
    var n := |out| - 1;
    var l := out[n];
    assert out == out[..n] + [l] && out[n := r] == out[..n] + [r];
    forall c: nat
      ensures In(out[n := r], c) <==> In(out + [r], c)
    {
      InConcat(out[..n], [r], c);
      InConcat(out, [r], c);
      InConcat(out[..n], [l], c);
      AtOne(l, c, None);
    }
  }

  /** The last range takes in one that starts within it or at its end. */
  lemma Absorb(out: seq<Range>, r: Range)
    requires Loose(out) && out != []
    requires var l := out[|out| - 1]; l.clock <= r.clock <= l.clock + l.len
    ensures var l := out[|out| - 1];
            var out' := if r.clock + r.len <= l.clock + l.len then out
                        else out[|out| - 1 := Range(l.clock, r.clock + r.len - l.clock, [])];
            Loose(out') && out'[|out'| - 1].clock == l.clock && Equal(out + [r], out')
  {
    var n := |out| - 1;
    var l := out[n];
    var m := if r.clock + r.len > l.clock + l.len then Range(l.clock, r.clock + r.len - l.clock, []) else l;
    var out' := if r.clock + r.len > l.clock + l.len then out[n := m] else out;
    assert out == out[..n] + [l] && out' == out[..n] + [m];
    forall c: nat
      ensures In(out', c) <==> In(out + [r], c)
    {
      InConcat(out[..n], [m], c);
      InConcat(out, [r], c);
      InConcat(out[..n], [l], c);
      AtOne(m, c, None);
      AtOne(l, c, None);
      AtOne(r, c, None);
    }
  }

  /** Appends a range; one that starts where the last one ends extends it. */
  function Added(ids: seq<Range>, clock: nat, len: nat): seq<Range> {
    var n := |ids|;
    if n > 0 && ids[n - 1].clock + ids[n - 1].len == clock then ids[n - 1 := ids[n - 1].(len := ids[n - 1].len + len)]
    else ids + [Range(clock, len, [])]
  }

  lemma AddedIn(ids: seq<Range>, clock: nat, len: nat, c: nat)
    ensures In(Added(ids, clock, len), c) <==> In(ids, c) || clock <= c < clock + len
  {
    var n, r := |ids|, Range(clock, len, []);
    AtOne(r, c, None);
    InConcat(ids, [r], c);
    if n > 0 && ids[n - 1].clock + ids[n - 1].len == clock {
      var l := ids[n - 1];
      var m := l.(len := l.len + len);
      assert ids == ids[..n - 1] + [l] && ids[n - 1 := m] == ids[..n - 1] + [m];
      InConcat(ids[..n - 1], [l], c);
      InConcat(ids[..n - 1], [m], c);
      AtOne(l, c, None);
      AtOne(m, c, None);
    }
  }

  class IdRanges {
    var sorted: bool
    var ids: seq<Range>

    ghost predicate Valid()
      reads this
    {
      (forall k :: 0 <= k < |ids| ==> ids[k].attrs == []) && (sorted ==> Gapped(ids))
    }

    method Add(clock: nat, len: nat)
      requires Valid()
      modifies this
      ensures Valid() && forall c: nat :: In(ids, c) <==> In(old(ids), c) || clock <= c < clock + len
    {
      forall c: nat
        ensures In(Added(ids, clock, len), c) <==> In(ids, c) || clock <= c < clock + len
      {
        AddedIn(ids, clock, len, c);
      }
      var n := |ids|;
      if !(n > 0 && ids[n - 1].clock + ids[n - 1].len == clock) {
        sorted := false;
      }
      ids := Added(ids, clock, len);
    }

    /** The ranges in order, none empty, with a gap between any two. */
    method GetIDs() returns (r: seq<Range>)
      requires Valid()
      modifies this
      ensures Valid() && sorted && ids == r && Gapped(r) && forall c: nat :: In(r, c) <==> In(old(ids), c)
    {
      if sorted {
        return ids;
      }
      sorted := true;
      var s := SortByClock(ids);
      assert forall k :: 0 <= k < |s| ==> s[k].attrs == [];
      r := MergeSorted(s);
      assert forall c :: At(ids, c, None) == At(s, c, None);
      ids := r;
    }
  }

  // ---------------------------------------------------------------- difference

  /** The wanted clocks are those found and those pending that are not excluded. */
  ghost predicate Balanced(want: iset<nat>, out: seq<Range>, pend: seq<Range>, ex: seq<Range>) {
    forall c: nat {:trigger In(out, c)} :: c in want <==> In(out, c) || (In(pend, c) && !In(ex, c))
  }

  ghost predicate Ordered(ids: seq<Range>) {
    Apart(ids) && forall k :: 0 <= k < |ids| ==> ids[k].len > 0
  }

  lemma InHead(ids: seq<Range>, c: nat)
    requires ids != []
    ensures In(ids, c) <==> Covers(ids[0], c) || In(ids[1..], c)
  {
    assert ids == [ids[0]] + ids[1..];
    InConcat([ids[0]], ids[1..], c);
    AtOne(ids[0], c, None);
  }

  /** Nothing lies before the start of the first range, and the later ranges lie after its end. */
  lemma InLater(ids: seq<Range>, c: nat)
    requires Ordered(ids) && ids != [] && In(ids, c)
    ensures ids[0].clock <= c && (In(ids[1..], c) ==> ids[0].clock + ids[0].len <= c)
  {
    var k :| 0 <= k < |ids| && Gives(ids[k], c, None);
    if In(ids[1..], c) {
      var m :| 0 <= m < |ids[1..]| && Gives(ids[1..][m], c, None);
      assert ids[1..][m] == ids[m + 1];
    }
  }

  lemma InPush(out: seq<Range>, r: Range, c: nat)
    ensures In(out + [r], c) <==> In(out, c) || Covers(r, c)
  {
    InConcat(out, [r], c);
    AtOne(r, c, None);
  }

  /** The facts about one clock that every step uses. */
  lemma Facts(out: seq<Range>, pend: seq<Range>, ex: seq<Range>, c: nat)
    requires Ordered(pend) && Ordered(ex) && pend != [] && ex != []
    ensures In(pend, c) <==> Covers(pend[0], c) || In(pend[1..], c)
    ensures In(ex, c) <==> Covers(ex[0], c) || In(ex[1..], c)
    ensures In(pend[1..], c) ==> pend[0].clock + pend[0].len <= c
    ensures In(ex[1..], c) ==> ex[0].clock + ex[0].len <= c
  {
    InHead(pend, c);
    InHead(ex, c);
    if In(pend, c) { InLater(pend, c); }
    if In(ex, c) { InLater(ex, c); }
  }

  /** The first pending range lies before all excluded ones. */
  lemma KeepFirst(want: iset<nat>, out: seq<Range>, pend: seq<Range>, ex: seq<Range>)
    requires Ordered(pend) && Ordered(ex) && pend != [] && ex != [] && Balanced(want, out, pend, ex)
    requires pend[0].clock + pend[0].len <= ex[0].clock
    ensures Balanced(want, out + [pend[0]], pend[1..], ex)
  {
    hide In;
    forall c: nat
      ensures c in want <==> In(out + [pend[0]], c) || (In(pend[1..], c) && !In(ex, c))
    {
      Facts(out, pend, ex, c);
      InPush(out, pend[0], c);
      assert In(out, c) || !In(out, c);
    }
  }

  /** The first excluded range lies before all pending ones. */
  lemma DropExcluded(want: iset<nat>, out: seq<Range>, pend: seq<Range>, ex: seq<Range>)
    requires Ordered(pend) && Ordered(ex) && pend != [] && ex != [] && Balanced(want, out, pend, ex)
    requires ex[0].clock + ex[0].len <= pend[0].clock
    ensures Balanced(want, out, pend, ex[1..])
  {
    hide In;
    forall c: nat
      ensures c in want <==> In(out, c) || (In(pend, c) && !In(ex[1..], c))
    {
      Facts(out, pend, ex, c);
      assert In(out, c) || !In(out, c);
    }
  }

  /** The first excluded range covers the first pending one. */
  lemma CoverFirst(want: iset<nat>, out: seq<Range>, pend: seq<Range>, ex: seq<Range>)
    requires Ordered(pend) && Ordered(ex) && pend != [] && ex != [] && Balanced(want, out, pend, ex)
    requires ex[0].clock <= pend[0].clock && pend[0].clock + pend[0].len <= ex[0].clock + ex[0].len
    ensures Balanced(want, out, pend[1..], ex)
  {
    hide In;
    forall c: nat
      ensures c in want <==> In(out, c) || (In(pend[1..], c) && !In(ex, c))
    {
      Facts(out, pend, ex, c);
      assert In(out, c) || !In(out, c);
    }
  }

  /** The first excluded range takes away the beginning of the first pending one. */
  lemma CutFirst(want: iset<nat>, out: seq<Range>, pend: seq<Range>, ex: seq<Range>, tail: Range)
    requires Ordered(pend) && Ordered(ex) && pend != [] && ex != [] && Balanced(want, out, pend, ex)
    requires ex[0].clock <= pend[0].clock < ex[0].clock + ex[0].len == tail.clock
    requires tail.clock + tail.len == pend[0].clock + pend[0].len
    ensures Balanced(want, out, [tail] + pend[1..], ex[1..])
  {
    hide In;
    var rest := [tail] + pend[1..];
    assert rest[1..] == pend[1..];
    forall c: nat
      ensures c in want <==> In(out, c) || (In(rest, c) && !In(ex[1..], c))
    {
      Facts(out, pend, ex, c);
      InHead(rest, c);
      assert In(out, c) || !In(out, c);
    }
  }

  lemma ReplaceFirst(pend: seq<Range>, r: Range)
    requires Ordered(pend) && pend != [] && r.len > 0 && r.clock + r.len == pend[0].clock + pend[0].len
    ensures Ordered([r] + pend[1..]) && ([r] + pend[1..])[1..] == pend[1..] && Ordered(pend[1..])
  {
    var rest := [r] + pend[1..];
    forall i, j | 0 <= i < j < |rest|
      ensures rest[i].clock + rest[i].len <= rest[j].clock
    {
      assert pend[i].clock + pend[i].len <= pend[j].clock;
    }
  }

  /** The part of the first pending range before the first excluded one is kept. */
  lemma KeepHead(want: iset<nat>, out: seq<Range>, pend: seq<Range>, ex: seq<Range>, head: Range, tail: Range)
    requires Ordered(pend) && Ordered(ex) && pend != [] && ex != [] && Balanced(want, out, pend, ex)
    requires head.clock == pend[0].clock && head.clock + head.len == ex[0].clock == tail.clock
    requires tail.clock + tail.len == pend[0].clock + pend[0].len && head.len > 0
    ensures Balanced(want, out + [head], [tail] + pend[1..], ex)
  {
    hide In;
    var rest := [tail] + pend[1..];
    assert rest[1..] == pend[1..];
    forall c: nat
      ensures c in want <==> In(out + [head], c) || (In(rest, c) && !In(ex, c))
    {
      Facts(out, pend, ex, c);
      InHead(rest, c);
      InPush(out, head, c);
      assert In(out, c) || !In(out, c);
    }
  }

  /** The clocks of `a` that are not in `b`. */
  method Exclude(a: seq<Range>, b: seq<Range>) returns (out: seq<Range>)
    requires Ordered(a) && Ordered(b)
    ensures forall c: nat :: In(out, c) <==> In(a, c) && !In(b, c)
  {
    out := [];
    ghost var want := iset c: nat | In(a, c) && !In(b, c);
    var pend, ex := a, b;
    assert Balanced(want, out, pend, ex);
    hide In;
    while pend != [] && ex != []
      invariant Ordered(pend) && Ordered(ex) && Balanced(want, out, pend, ex)
      decreases |pend| + |ex|
    {
      hide Balanced, Ordered;
      pend, ex, out := ExcludeStep(pend, ex, out, want);
    }
    forall c: nat
      ensures In(out + pend, c) <==> In(a, c) && !In(b, c)
    {
      InConcat(out, pend, c);
      InNil(c);
      assert c in want <==> In(out, c) || (In(pend, c) && !In(ex, c));
    }
    out := out + pend;
  }

  lemma InNil(c: nat)
    ensures !In([], c)
  {
  }

  /** Compares the first pending range, what is left of it, with the first excluded one. */
  method ExcludeStep(pend: seq<Range>, ex: seq<Range>, out: seq<Range>, ghost want: iset<nat>)
    returns (pend': seq<Range>, ex': seq<Range>, out': seq<Range>)
    requires Ordered(pend) && Ordered(ex) && pend != [] && ex != [] && Balanced(want, out, pend, ex)
    ensures Ordered(pend') && Ordered(ex') && Balanced(want, out', pend', ex')
    ensures |pend'| + |ex'| < |pend| + |ex|
  {
    pend', ex', out' := pend, ex, out;
    var curr, e := pend[0], ex[0];
    var end, exEnd := curr.clock + curr.len, e.clock + e.len;
    assert curr.len > 0 && e.len > 0;
    ReplaceFirst(pend, curr);
    ReplaceFirst(ex, e);
    hide Balanced, Ordered;
    if end <= e.clock {
      KeepFirst(want, out, pend, ex);
      pend', out' := pend[1..], out + [curr];
    } else if exEnd <= curr.clock {
      DropExcluded(want, out, pend, ex);
      ex' := ex[1..];
    } else if e.clock <= curr.clock {
      if end > exEnd {
        var tail := Range(exEnd, end - exEnd, []);
        CutFirst(want, out, pend, ex, tail);
        ReplaceFirst(pend, tail);
        pend', ex' := [tail] + pend[1..], ex[1..];
      } else {
        CoverFirst(want, out, pend, ex);
        pend' := pend[1..];
      }
    } else {
      var head, rest := Range(curr.clock, e.clock - curr.clock, []), Range(e.clock, end - e.clock, []);
      KeepHead(want, out, pend, ex, head, rest);
      ReplaceFirst(pend, rest);
      out' := out + [head];
      if end > exEnd {
        var tail := Range(exEnd, end - exEnd, []);
        CutFirst(want, out', [rest] + pend[1..], ex, tail);
        ReplaceFirst([rest] + pend[1..], tail);
        pend', ex' := [tail] + pend[1..], ex[1..];
      } else {
        CoverFirst(want, out', [rest] + pend[1..], ex);
        pend' := pend[1..];
      }
    }
  }

  // -------------------------------------------------------------- intersection

  /** What both cursors still have in common. */
  ghost predicate Common(a: seq<Range>, b: seq<Range>, c: nat, x: Option<Attr>) {
    In(a, c) && In(b, c) && (At(a, c, x) || At(b, c, x))
  }

  /** The part two ranges have in common, with the attributes of the first and then those of the second. */
  function CommonPart(ra: Range, rb: Range): seq<Range> {
    var clock := if ra.clock > rb.clock then ra.clock else rb.clock;
    var end := Min(ra.clock + ra.len, rb.clock + rb.len);
    if end > clock then [Range(clock, end - clock, ra.attrs + rb.attrs)] else []
  }

  /** The common parts in order. */
  function Crossed(p: seq<Range>, q: seq<Range>): seq<Range>
    decreases |p| + |q|
  {
    if p == [] || q == [] then []
    else CommonPart(p[0], q[0])
         + if p[0].clock + p[0].len < q[0].clock + q[0].len then Crossed(p[1..], q) else Crossed(p, q[1..])
  }

  lemma CrossedStep(p: seq<Range>, q: seq<Range>)
    requires p != [] && q != []
    ensures Crossed(p, q) == CommonPart(p[0], q[0])
                             + if p[0].clock + p[0].len < q[0].clock + q[0].len then Crossed(p[1..], q)
                             else Crossed(p, q[1..])
  {
  }

  /** The common parts are in order, not empty and disjoint. */
  lemma {:induction false} CrossedApart(p: seq<Range>, q: seq<Range>)
    requires Ordered(p) && Ordered(q)
    ensures var s := Crossed(p, q);
            && AllOk(s) && Apart(s)
            && (forall k :: 0 <= k < |s| ==> p != [] && q != [] && p[0].clock <= s[k].clock && q[0].clock <= s[k].clock)
    decreases |p| + |q|
  {
    if p != [] && q != [] {
      var shorter := p[0].clock + p[0].len < q[0].clock + q[0].len;
      var p', q' := if shorter then p[1..] else p, if shorter then q else q[1..];
      assert Ordered(p') && Ordered(q');
      CrossedApart(p', q');
      CrossedStep(p, q);
      hide Crossed;
      PutCommon(p, q, p', q', Crossed(p', q'));
    }
  }

  lemma PutCommon(p: seq<Range>, q: seq<Range>, p': seq<Range>, q': seq<Range>, rest: seq<Range>)
    requires Ordered(p) && Ordered(q) && p != [] && q != []
    requires var shorter := p[0].clock + p[0].len < q[0].clock + q[0].len;
             p' == (if shorter then p[1..] else p) && q' == (if shorter then q else q[1..])
    requires AllOk(rest) && Apart(rest)
    requires forall k :: 0 <= k < |rest| ==>
               p' != [] && q' != [] && p'[0].clock <= rest[k].clock && q'[0].clock <= rest[k].clock
    ensures var s := CommonPart(p[0], q[0]) + rest;
            && AllOk(s) && Apart(s)
            && (forall k :: 0 <= k < |s| ==> p[0].clock <= s[k].clock && q[0].clock <= s[k].clock)
  {
    var one := CommonPart(p[0], q[0]);
    forall k | 0 <= k < |rest|
      ensures p[0].clock <= rest[k].clock && q[0].clock <= rest[k].clock
      ensures one != [] ==> one[0].clock + one[0].len <= rest[k].clock
    {
      assert |p| > 1 && p' == p[1..] ==> p[0].clock + p[0].len <= p[1].clock;
      assert |q| > 1 && q' == q[1..] ==> q[0].clock + q[0].len <= q[1].clock;
    }
    var s := one + rest;
    forall i, j | 0 <= i < j < |s|
      ensures s[i].clock + s[i].len <= s[j].clock
    {
      if one != [] {
        assert i > 0 ==> s[i] == rest[i - 1];
        assert s[j] == rest[j - 1];
      }
    }
  }

  /** The intersection as a map of its own: each common part is added. */
  method IntersectMaps(a: seq<Range>, b: seq<Range>) returns (m: Ranges)
    requires Ordered(a) && Ordered(b)
    ensures fresh(m) && m.Valid() && m.ids == Crossed(a, b)
    ensures forall c: nat, x :: At(m.ids, c, x) <==> Common(a, b, c, x)
  {
    hide At, Common, Crossed, In, Apart;
    var out := Intersect(a, b);
    CrossedApart(a, b);
    m := new Ranges();
    var i := 0;
    while i < |out|
      invariant 0 <= i <= |out| && fresh(m) && m.Valid() && m.ids == out[..i]
    {
      assert RangeOk(out[i]) && out[..i + 1] == out[..i] + [out[i]];
      m.Add(out[i].clock, out[i].len, out[i].attrs);
      i := i + 1;
    }
    assert out[..i] == out;
  }

  /**
    Reading an intersection back gives the clocks of both with the attributes of both if and
    only if common parts that touch and pass for equal have the same attributes.
  */
  method ReadIntersection(a: seq<Range>, b: seq<Range>) returns (r: seq<Range>)
    requires Ordered(a) && Ordered(b)
    ensures r == Joined(Crossed(a, b))
    ensures (forall c: nat, x :: At(r, c, x) <==> Common(a, b, c, x)) <==> Lossless(Crossed(a, b))
  {
    var m := IntersectMaps(a, b);
    CrossedApart(a, b);
    ghost var out := m.ids;
    ghost var parts;
    r, parts := m.GetIDs();
    assert Same(out, r) <==> (forall c: nat, x :: At(r, c, x) <==> Common(a, b, c, x)) by {
      hide At, Common;
    }
  }

  /** Attributes get lost: the second map has `y` at clock 1, what is read back has not. */
  lemma IntersectLoses(x: Attr, y: Attr)
    requires x != y
    ensures var a, b := [Range(0, 2, [x])], [Range(0, 1, [x]), Range(1, 1, [y])];
            && Ordered(a) && Ordered(b) && Common(a, b, 1, Some(y)) && !At(Joined(Crossed(a, b)), 1, Some(y))
  {
    var a, b := [Range(0, 2, [x])], [Range(0, 1, [x]), Range(1, 1, [y])];
    var r0, r1 := Range(0, 1, [x, x]), Range(1, 1, [x, y]);
    assert [x] + [x] == [x, x] && [x] + [y] == [x, y];
    assert CommonPart(a[0], b[0]) == [r0] && CommonPart(a[0], b[1]) == [r1];
    assert b[1..] == [b[1]] && [b[1]][1..] == [];
    assert Crossed(a, []) == [] && Crossed(a, [b[1]]) == [r1] + [] && Crossed(a, b) == [r0] + [r1];
    assert [r0] + [r1] == [r0, r1] + [];
    JoinedStep(r0, r1, []);
    assert Joins(r0, r1);
    var g := Absorbed(r0, r1);
    assert [g] + [] == [g] && Joined([g]) == [g];
    AtOne(g, 1, Some(y));
    assert Gives(a[0], 1, None) && Gives(b[1], 1, None) && Gives(b[1], 1, Some(y));
  }

  /**
    The clocks both lists cover, with the attributes of both.  For sets, which carry no
    attributes, this is the intersection.
  */
  method Intersect(a: seq<Range>, b: seq<Range>) returns (out: seq<Range>)
    requires Ordered(a) && Ordered(b)
    ensures out == Crossed(a, b)
    ensures forall c: nat, x :: At(out, c, x) <==> Common(a, b, c, x)
  {
    hide At, Common, Ordered, In;
    out := [];
    var p, q := a, b;
    while p != [] && q != []
      invariant out + Crossed(p, q) == Crossed(a, b)
      decreases |p| + |q|
    {
      hide Crossed;
      var ra, rb := p[0], q[0];
      var clock := if ra.clock > rb.clock then ra.clock else rb.clock;
      var endA, endB := ra.clock + ra.len, rb.clock + rb.len;
      var end := if endA < endB then endA else endB;
      CrossedStep(p, q);
      Regroup(out, CommonPart(ra, rb), if endA < endB then Crossed(p[1..], q) else Crossed(p, q[1..]));
      if end > clock {
        out := out + [Range(clock, end - clock, ra.attrs + rb.attrs)];
      }
      if endA < endB {
        p := p[1..];
      } else {
        q := q[1..];
      }
    }
    assert Crossed(p, q) == [] && out == Crossed(a, b);
    forall c: nat, x
      ensures At(out, c, x) <==> Common(a, b, c, x)
    {
      CrossedCommon(a, b, c, x);
    }
  }

  lemma Regroup(x: seq<Range>, y: seq<Range>, z: seq<Range>)
    ensures x + (y + z) == x + y + z && x + [] == x
  {
  }

  /** At each clock the common parts have what both lists have. */
  lemma {:induction false} CrossedCommon(p: seq<Range>, q: seq<Range>, c: nat, x: Option<Attr>)
    requires Ordered(p) && Ordered(q)
    ensures At(Crossed(p, q), c, x) <==> Common(p, q, c, x)
    decreases |p| + |q|
  {
    if p != [] && q != [] {
      var shorter := p[0].clock + p[0].len < q[0].clock + q[0].len;
      var p', q' := if shorter then p[1..] else p, if shorter then q else q[1..];
      assert Ordered(p') && Ordered(q');
      CrossedCommon(p', q', c, x);
      CrossedStep(p, q);
      hide Crossed;
      AtConcat(CommonPart(p[0], q[0]), Crossed(p', q'), c, x);
      IntersectStep(p, q, p', q', c, x);
    }
  }

  lemma IntersectStep(p: seq<Range>, q: seq<Range>, p': seq<Range>, q': seq<Range>, c: nat, x: Option<Attr>)
    requires Ordered(p) && Ordered(q) && p != [] && q != []
    requires var shorter := p[0].clock + p[0].len < q[0].clock + q[0].len;
             p' == (if shorter then p[1..] else p) && q' == (if shorter then q else q[1..])
    ensures Common(p, q, c, x) <==> At(CommonPart(p[0], q[0]), c, x) || Common(p', q', c, x)
  {
    var part := CommonPart(p[0], q[0]);
    if part != [] {
      AtOne(part[0], c, x);
      assert part == [part[0]];
    }
    Facts(part, p, q, c);
    AtHead(p, c, x);
    AtHead(q, c, x);
    AtIn(p[1..], c, x);
    AtIn(q[1..], c, x);
  }

  lemma AtIn(ids: seq<Range>, c: nat, x: Option<Attr>)
    ensures At(ids, c, x) ==> In(ids, c)
  {
    if At(ids, c, x) {
      var k :| 0 <= k < |ids| && Gives(ids[k], c, x);
      assert Gives(ids[k], c, None);
    }
  }

  lemma AtHead(ids: seq<Range>, c: nat, x: Option<Attr>)
    requires ids != []
    ensures At(ids, c, x) <==> Gives(ids[0], c, x) || At(ids[1..], c, x)
  {
    assert ids == [ids[0]] + ids[1..];
    AtConcat([ids[0]], ids[1..], c, x);
    AtOne(ids[0], c, x);
  }

  // ------------------------------------------------------------------------ slices

  /** A stretch of clocks with the attributes of its range; `None` is a gap. */
  datatype Tile = Tile(clock: nat, len: nat, attrs: Option<seq<Attr>>)

  /** The tiles follow each other without gap or overlap from `clock` to `end`. */
  ghost predicate Tiled(tiles: seq<Tile>, clock: nat, end: nat) {
    if tiles == [] then clock == end
    else tiles[0].clock == clock && Tiled(tiles[1..], clock + tiles[0].len, end)
  }

  lemma {:induction false} TiledPush(tiles: seq<Tile>, clock: nat, end: nat, t: Tile)
    requires Tiled(tiles, clock, end) && t.clock == end
    ensures Tiled(tiles + [t], clock, end + t.len)
    decreases |tiles|
  {
    var s := tiles + [t];
    if tiles == [] {
      assert s[1..] == [];
    } else {
      TiledPush(tiles[1..], clock + tiles[0].len, end, t);
      assert s[1..] == tiles[1..] + [t];
    }
  }

  /** What the tile says is what the ranges have at each of its clocks. */
  ghost predicate TileTells(ids: seq<Range>, t: Tile) {
    forall c: nat :: t.clock <= c < t.clock + t.len ==>
      if t.attrs.None? then !In(ids, c) else exists k ::
        0 <= k < |ids| && Covers(ids[k], c) && ids[k].attrs == t.attrs.value
  }

  /** Nothing lies between the end of range `k - 1` and the start of range `k`. */
  lemma GapTells(ids: seq<Range>, k: nat, clock: nat, end: nat)
    requires Ordered(ids) && k <= |ids| && clock <= end
    requires clock == end
             || ((k > 0 ==> ids[k - 1].clock + ids[k - 1].len <= clock) && (k < |ids| ==> end <= ids[k].clock))
    ensures TileTells(ids, Tile(clock, end - clock, None))
  {
  }

  /** The attribution of a whole span: the ranges clipped to it, and the gaps between them. */
  method Slice(ids: seq<Range>, clock: nat, length: nat) returns (res: seq<Tile>)
    requires Ordered(ids)
    ensures Tiled(res, clock, clock + length) && res != []
    ensures forall k :: 0 <= k < |res| ==> TileTells(ids, res[k])
  {
    res := [];
    var end, prevEnd, i := clock + length, clock, 0;
    while i < |ids|
      invariant 0 <= i <= |ids| && clock <= prevEnd && (prevEnd <= end)
      invariant Tiled(res, clock, prevEnd) && forall k :: 0 <= k < |res| ==> TileTells(ids, res[k])
      invariant i > 0 ==> ids[i - 1].clock + ids[i - 1].len <= prevEnd || prevEnd == end
      invariant prevEnd > clock ==> i > 0 && prevEnd <= ids[i - 1].clock + ids[i - 1].len
    {
      hide TileTells, Tiled;
      var rg := ids[i];
      assert rg.len > 0 && (i > 0 ==> ids[i - 1].clock + ids[i - 1].len <= rg.clock);
      if rg.clock + rg.len <= clock {
        i := i + 1;
        continue;
      }
      if rg.clock >= end {
        break;
      }
      var cl := if rg.clock < clock then clock else rg.clock;
      var ln := Min(rg.clock + rg.len, end) - cl;
      if ln == 0 {
        break;
      }
      if prevEnd < cl {
        GapTells(ids, i, prevEnd, cl);
        TiledPush(res, clock, prevEnd, Tile(prevEnd, cl - prevEnd, None));
        res := res + [Tile(prevEnd, cl - prevEnd, None)];
      }
      PartTells(ids, i, cl, ln);
      TiledPush(res, clock, cl, Tile(cl, ln, Some(rg.attrs)));
      res := res + [Tile(cl, ln, Some(rg.attrs))];
      prevEnd := cl + ln;
      i := i + 1;
    }
    if res == [] || prevEnd < end {
      GapTells(ids, i, prevEnd, end);
      TiledPush(res, clock, prevEnd, Tile(prevEnd, end - prevEnd, None));
      res := res + [Tile(prevEnd, end - prevEnd, None)];
    }
  }

  lemma PartTells(ids: seq<Range>, k: nat, clock: nat, len: nat)
    requires k < |ids| && ids[k].clock <= clock && clock + len <= ids[k].clock + ids[k].len
    ensures TileTells(ids, Tile(clock, len, Some(ids[k].attrs)))
  {
    assert forall c: nat :: clock <= c < clock + len ==> Covers(ids[k], c);
  }

  // ------------------------------------------------- difference of attributed ranges

  /** The attributed ranges without the excluded clocks. */
  method ExcludeFrom(m: seq<Range>, ex: seq<Range>) returns (out: seq<Range>)
    requires Ordered(ex)
    ensures forall c: nat, x :: At(out, c, x) <==> At(m, c, x) && !In(ex, c)
  {
    out := [];
    var i := 0;
    while i < |m|
      invariant 0 <= i <= |m|
      invariant forall c: nat, x :: At(out, c, x) <==> At(m[..i], c, x) && !In(ex, c)
    {
      var pieces := ExcludeOne(m[i], ex);
      assert m[..i + 1] == m[..i] + [m[i]];
      forall c: nat, x
        ensures At(out + pieces, c, x) <==> At(m[..i + 1], c, x) && !In(ex, c)
      {
        AtConcat(out, pieces, c, x);
        AtConcat(m[..i], [m[i]], c, x);
        AtOne(m[i], c, x);
      }
      out := out + pieces;
      i := i + 1;
    }
    assert m[..i] == m;
  }

  /** What is left of one attributed range. */
  method ExcludeOne(r: Range, ex: seq<Range>) returns (out: seq<Range>)
    requires Ordered(ex)
    ensures forall c: nat, x :: At(out, c, x) <==> Gives(r, c, x) && !In(ex, c)
  {
    out := [];
    var clock, remaining := r.clock, r.len;
    var j := 0;
    assert ex[0..] == ex;
    while j < |ex|
      invariant 0 <= j <= |ex| && 0 <= remaining && r.clock <= clock
      invariant remaining > 0 ==> clock + remaining == r.clock + r.len
      invariant forall c: nat, x {:trigger At(out, c, x)} ::
                  Gives(r, c, x) && !In(ex, c) <==>
                    At(out, c, x) || (Gives(Range(clock, remaining, r.attrs), c, x) && !In(ex[j..], c))
    {
      var e := ex[j];
      if remaining == 0 {
        break;
      }
      assert Ordered(ex[j..]);
      ghost var before := out;
      ghost var here := Range(clock, remaining, r.attrs);
      if e.clock + e.len <= clock {
        forall c: nat, x
          ensures Gives(here, c, x) && !In(ex[j..], c) <==> Gives(here, c, x) && !In(ex[j + 1..], c)
        {
          InTail(ex, j, c);
        }
        j := j + 1;
        continue;
      }
      if e.clock >= clock + remaining {
        break;
      }
      if e.clock > clock {
        out := out + [Range(clock, e.clock - clock, r.attrs)];
      }
      var covered := if clock + remaining < e.clock + e.len then clock + remaining else e.clock + e.len;
      remaining := clock + remaining - covered;
      forall c: nat, x
        ensures At(before, c, x) || (Gives(here, c, x) && !In(ex[j..], c))
                <==> At(out, c, x) || (Gives(Range(covered, remaining, r.attrs), c, x) && !In(ex[j + 1..], c))
      {
        InTail(ex, j, c);
        if e.clock > clock {
          AtConcat(before, [Range(clock, e.clock - clock, r.attrs)], c, x);
          AtOne(Range(clock, e.clock - clock, r.attrs), c, x);
        }
      }
      clock := covered;
      j := j + 1;
    }
    ghost var before := out;
    if remaining > 0 {
      out := out + [Range(clock, remaining, r.attrs)];
    }
    ghost var here := Range(clock, remaining, r.attrs);
    forall c: nat, x
      ensures At(out, c, x) <==> Gives(r, c, x) && !In(ex, c)
    {
      assert Gives(r, c, x) && !In(ex, c) <==> At(before, c, x) || (Gives(here, c, x) && !In(ex[j..], c));
      if j < |ex| { InTail(ex, j, c); } else { InNil(c); }
      AtConcat(before, [here], c, x);
      AtOne(here, c, x);
    }
  }

  lemma InTail(ex: seq<Range>, j: nat, c: nat)
    requires Ordered(ex) && j < |ex|
    ensures In(ex[j..], c) <==> Covers(ex[j], c) || In(ex[j + 1..], c)
    ensures In(ex[j + 1..], c) ==> ex[j].clock + ex[j].len <= c
  {
    assert ex[j..][1..] == ex[j + 1..] && Ordered(ex[j..]);
    InHead(ex[j..], c);
    if In(ex[j..], c) { InLater(ex[j..], c); }
  }

  /** Every range of every list. */
  method Merge(lists: seq<seq<Range>>) returns (out: seq<Range>)
    ensures forall c: nat, x :: At(out, c, x) <==> exists k :: 0 <= k < |lists| && At(lists[k], c, x)
  {
    out := [];
    var i := 0;
    while i < |lists|
      invariant 0 <= i <= |lists|
      invariant forall c: nat, x :: At(out, c, x) <==> exists k :: 0 <= k < i && At(lists[k], c, x)
    {
      forall c: nat, x
        ensures At(out + lists[i], c, x) <==> At(out, c, x) || At(lists[i], c, x)
      {
        AtConcat(out, lists[i], c, x);
      }
      out := out + lists[i];
      i := i + 1;
    }
  }
}
