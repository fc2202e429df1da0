/**
  Pairing heaps threaded through the records of a shared table.  A record holds the
  index of its first child and of its next sibling; -1 ends a list.  `wake` is the key.
*/
module PairingHeap {

  datatype Links = Links(wake: nat, child: int, sibling: int)

  /** A list of heaps, as the links spell it out: first heap, its children, the rest. */
  datatype Forest = Nil | Node(index: nat, children: Forest, rest: Forest)

  function Elems(t: Forest): set<nat> {
    match t
    case Nil => {}
    case Node(j, c, s) => {j} + Elems(c) + Elems(s)
  }

  /** No record is in two places. */
  predicate Separate(t: Forest) {
    match t
    case Nil => true
    case Node(j, c, s) =>
      j !in Elems(c) && j !in Elems(s) && Elems(c) !! Elems(s) && Separate(c) && Separate(s)
  }

  /** The links starting at `i` spell out `t`. */
  predicate Spells(table: seq<Links>, i: int, t: Forest)
    decreases t
  {
    match t
    case Nil => i == -1
    case Node(j, c, s) => i == j
                          && j < |table| && Spells(table, table[j].child, c) && Spells(table, table[j].sibling, s)
  }

  /** Every key is at least `lo` and at least that of the record above it. */
  predicate HeapOrdered(table: seq<Links>, t: Forest, lo: nat) {
    match t
    case Nil => true
    case Node(j, c, s) =>
      j < |table| && lo <= table[j].wake && HeapOrdered(table, c, table[j].wake) && HeapOrdered(table, s, lo)
  }

  predicate IsHeap(t: Forest) {
    t.Node? ==> t.rest == Nil
  }

  /** The table holds the heap `t` from `i` on. */
  ghost predicate Holds(table: seq<Links>, i: int, t: Forest, lo: nat) {
    Spells(table, i, t) && Separate(t) && HeapOrdered(table, t, lo)
  }

  lemma {:induction false} Frame(table: seq<Links>, table': seq<Links>, i: int, t: Forest, lo: nat)
    requires Holds(table, i, t, lo) && |table'| == |table|
    requires forall k :: k in Elems(t) && k < |table| ==> table'[k] == table[k]
    ensures Holds(table', i, t, lo)
    decreases t
  {
    if t.Node? {
      Frame(table, table', table[t.index].child, t.children, table[t.index].wake);
      Frame(table, table', table[t.index].sibling, t.rest, lo);
    }
  }

  lemma {:induction false} InTable(table: seq<Links>, i: int, t: Forest)
    requires Spells(table, i, t)
    ensures forall k :: k in Elems(t) ==> k < |table|
    decreases t
  {
    if t.Node? {
      InTable(table, table[t.index].child, t.children);
      InTable(table, table[t.index].sibling, t.rest);
    }
  }

  lemma {:induction false} Lower(table: seq<Links>, t: Forest, lo: nat, lo': nat)
    requires HeapOrdered(table, t, lo) && lo' <= lo
    ensures HeapOrdered(table, t, lo')
  {
    if t.Node? { Lower(table, t.rest, lo, lo'); }
  }

  /** The first record of a heap has the least key. */
  lemma {:induction false} LeastFirst(table: seq<Links>, t: Forest, lo: nat)
    requires HeapOrdered(table, t, lo)
    ensures forall k :: k in Elems(t) ==> k < |table| && lo <= table[k].wake
  {
    if t.Node? {
      LeastFirst(table, t.children, table[t.index].wake);
      LeastFirst(table, t.rest, lo);
    }
  }

  /** Record `j` with children spelled from `c` and the rest from `s`. */
  lemma Build(table: seq<Links>, j: nat, c: Forest, s: Forest, lo: nat)
    requires j < |table| && lo <= table[j].wake
    requires Holds(table, table[j].child, c, table[j].wake) && Holds(table, table[j].sibling, s, lo)
    requires j !in Elems(c) && j !in Elems(s) && Elems(c) !! Elems(s)
    ensures Holds(table, j, Node(j, c, s), lo)
  {
  }

  lemma Parts(table: seq<Links>, i: int, t: Forest, lo: nat)
    requires Holds(table, i, t, lo) && t.Node?
    ensures i == t.index && i < |table| && lo <= table[i].wake
    ensures Holds(table, table[i].child, t.children, table[i].wake) && Holds(table, table[i].sibling, t.rest, lo)
    ensures t.index !in Elems(t.children) && t.index !in Elems(t.rest) && Elems(t.children) !! Elems(t.rest)
    ensures Elems(t) == {t.index} + Elems(t.children) + Elems(t.rest)
  {
  }

  lemma Single(table: seq<Links>, i: nat)
    requires i < |table| && table[i].child == -1 && table[i].sibling == -1
    ensures Holds(table, i, Node(i, Nil, Nil), 0) && Elems(Node(i, Nil, Nil)) == {i}
  {
    assert Holds(table, -1, Nil, table[i].wake) && Holds(table, -1, Nil, 0);
    Build(table, i, Nil, Nil, 0);
  }

  /** `b` becomes the first child of `a`. */
  lemma LinkUnder(table: seq<Links>, a: Forest, b: Forest, lo: nat)
    requires a.Node? && b.Node? && a.rest == Nil && b.rest == Nil && Elems(a) !! Elems(b)
    requires Holds(table, a.index, a, lo) && Holds(table, b.index, b, lo)
    requires a.index < |table| && b.index < |table| && table[a.index].wake <= table[b.index].wake
    ensures var table' := table[b.index := table[b.index].(sibling := table[a.index].child)];
            var table'' := table'[a.index := table'[a.index].(child := b.index)];
            Holds(table'', a.index, Node(a.index, Node(b.index, b.children, a.children), Nil), lo)
    ensures Elems(Node(a.index, Node(b.index, b.children, a.children), Nil)) == Elems(a) + Elems(b)
  {
    Parts(table, a.index, a, lo);
    Parts(table, b.index, b, lo);
    var under := Node(b.index, b.children, a.children);
    assert Elems(under) == {b.index} + Elems(b.children) + Elems(a.children);
    assert Elems(Node(a.index, under, Nil)) == Elems(a) + Elems(b);
    hide Holds, Elems;
    var table' := table[b.index := table[b.index].(sibling := table[a.index].child)];
    var table'' := table'[a.index := table'[a.index].(child := b.index)];
    var wa, wb := table[a.index].wake, table[b.index].wake;
    Frame(table, table'', table[a.index].child, a.children, wa);
    Frame(table, table'', table[b.index].child, b.children, wb);
    Build(table'', b.index, b.children, a.children, wa);
    Frame(table, table'', table[a.index].sibling, Nil, lo) by { assert Elems(Nil) == {} by { ElemsNil(); } }
    Build(table'', a.index, under, Nil, lo) by { ElemsNil(); }
  }

  lemma ElemsNil()
    ensures Elems(Nil) == {}
  {
  }

  /** Joins the heaps at `a` and `b`. */
  method Meld(table: seq<Links>, a: int, b: int, ghost ta: Forest, ghost tb: Forest, ghost lo: nat)
    returns (table': seq<Links>, r: int, ghost t: Forest)
    requires Holds(table, a, ta, lo) && Holds(table, b, tb, lo) && IsHeap(ta) && IsHeap(tb) && Elems(ta) !! Elems(tb)
    ensures |table'| == |table| && Holds(table', r, t, lo) && IsHeap(t)
    ensures Elems(t) == Elems(ta) + Elems(tb)
    ensures forall k :: 0 <= k < |table| ==> table'[k].wake == table[k].wake
    ensures forall k :: 0 <= k < |table| && k !in Elems(ta) + Elems(tb) ==> table'[k] == table[k]
  {
    if a < 0 {
      return table, b, tb;
    }
    if b < 0 {
      return table, a, ta;
    }
    var x, y := a, b;
    ghost var tx, ty := ta, tb;
    if table[b].wake < table[a].wake {
      x, y := b, a;
      tx, ty := tb, ta;
    }
    LinkUnder(table, tx, ty, lo);
    table' := table[y := table[y].(sibling := table[x].child)];
    table' := table'[x := table'[x].(child := y)];
    r, t := x, Node(tx.index, Node(ty.index, ty.children, tx.children), Nil);
  }

  /** The first heap of a list is followed by another list from now on. */
  lemma Relink(table: seq<Links>, i: nat, t: Forest, next: int, rest: Forest, lo: nat)
    requires t.Node? && Holds(table, i, t, lo) && Holds(table, next, rest, lo) && i < |table|
    requires Elems(rest) !! {t.index} + Elems(t.children)
    ensures var table' := table[i := table[i].(sibling := next)];
            Holds(table', i, Node(t.index, t.children, rest), lo) && Holds(table', next, rest, lo)
    ensures Elems(Node(t.index, t.children, rest)) == {t.index} + Elems(t.children) + Elems(rest)
  {
    Parts(table, i, t, lo);
    assert Elems(Node(t.index, t.children, rest)) == {t.index} + Elems(t.children) + Elems(rest);
    hide Holds, Elems;
    var table' := table[i := table[i].(sibling := next)];
    Frame(table, table', table[i].child, t.children, table[i].wake);
    Frame(table, table', next, rest, lo);
    Build(table', t.index, t.children, rest, lo);
  }

  /** Cuts the first heap off a list. */
  method Cut(table: seq<Links>, i: nat, ghost t: Forest, ghost lo: nat)
    returns (table': seq<Links>, next: int, ghost first: Forest)
    requires t.Node? && Holds(table, i, t, lo) && i < |table|
    ensures |table'| == |table| && IsHeap(first) && first.Node? && Elems(first) !! Elems(t.rest)
    ensures Holds(table', i, first, lo) && Holds(table', next, t.rest, lo)
    ensures Elems(first) + Elems(t.rest) == Elems(t)
    ensures table' == table[i := table[i].(sibling := -1)]
  {
    Parts(table, i, t, lo);
    ElemsNil();
    assert Holds(table, -1, Nil, lo);
    next := table[i].sibling;
    first := Node(t.index, t.children, Nil);
    Relink(table, i, t, -1, Nil, lo);
    table' := table[i := table[i].(sibling := -1)];
    hide Holds, Elems;
    Frame(table, table', next, t.rest, lo);
  }

  /** Melds the heaps of a list two by two into a list of half the length. */
  method PairUp(table: seq<Links>, first: int, ghost t: Forest, ghost lo: nat)
    returns (table': seq<Links>, pairs: int, ghost tp: Forest)
    requires Holds(table, first, t, lo)
    ensures |table'| == |table| && Holds(table', pairs, tp, lo) && Elems(tp) == Elems(t)
    ensures forall k :: 0 <= k < |table| ==> table'[k].wake == table[k].wake
    ensures forall k :: 0 <= k < |table| && k !in Elems(t) ==> table'[k] == table[k]
  {
    var c := first;
    ghost var tc := t;
    table', pairs, tp := table, -1, Nil;
    while c >= 0
      invariant |table'| == |table| && Holds(table', c, tc, lo) && Holds(table', pairs, tp, lo)
      invariant Elems(tc) !! Elems(tp) && Elems(tc) + Elems(tp) == Elems(t)
      invariant forall k :: 0 <= k < |table| ==> table'[k].wake == table[k].wake
      invariant forall k :: 0 <= k < |table| && k !in Elems(t) ==> table'[k] == table[k]
      decreases tc
    {
      table', c, pairs, tc, tp := PairStep(table', c, pairs, tc, tp, lo);
    }
  }

  /** Cuts the first heap off a list and the second too if there is one. */
  method CutTwo(table: seq<Links>, c: nat, ghost tc: Forest, ghost lo: nat)
    returns (table': seq<Links>, b: int, c': int, ghost one: Forest, ghost two: Forest, ghost tc': Forest)
    requires Holds(table, c, tc, lo)
    ensures |table'| == |table| && IsHeap(one) && IsHeap(two) && one.Node?
    ensures Holds(table', c, one, lo) && Holds(table', b, two, lo) && Holds(table', c', tc', lo)
    ensures Elems(one) !! Elems(two) !! Elems(tc') && Elems(one) + Elems(two) + Elems(tc') == Elems(tc)
    ensures forall k :: 0 <= k < |table| ==> table'[k].wake == table[k].wake
    ensures forall k :: 0 <= k < |table| && k !in Elems(tc) ==> table'[k] == table[k]
    ensures tc decreases to tc'
  {
    NodeAt(table, c, tc, lo);
    Parts(table, c, tc, lo);
    hide Holds, Elems;
    table', b, one := Cut(table, c, tc, lo);
    c', two, tc' := b, Nil, tc.rest;
    NodeAt(table', b, tc', lo);
    if b >= 0 {
      ghost var before := table';
      Parts(table', b, tc', lo);
      table', c', two := Cut(table', b, tc', lo);
      tc' := tc'.rest;
      Frame(before, table', c, one, lo);
    }
  }

  /** One step: the first two heaps of the list at `c` become one heap of `pairs`. */
  method PairStep(table: seq<Links>, c: nat, pairs: int, ghost tc: Forest, ghost tp: Forest, ghost lo: nat)
    returns (table': seq<Links>, c': int, pairs': int, ghost tc': Forest, ghost tp': Forest)
    requires Holds(table, c, tc, lo) && Holds(table, pairs, tp, lo) && Elems(tc) !! Elems(tp)
    ensures |table'| == |table| && Holds(table', c', tc', lo) && Holds(table', pairs', tp', lo)
    ensures Elems(tc') !! Elems(tp') && Elems(tc') + Elems(tp') == Elems(tc) + Elems(tp)
    ensures forall k :: 0 <= k < |table| ==> table'[k].wake == table[k].wake
    ensures forall k :: 0 <= k < |table| && k !in Elems(tc) + Elems(tp) ==> table'[k] == table[k]
    ensures tc decreases to tc'
  {
    hide Holds, Elems;
    ghost var one, two, both;
    var b, p;
    table', b, c', one, two, tc' := CutTwo(table, c, tc, lo);
    Frame(table, table', pairs, tp, lo);
    ghost var cut := table';
    table', p, both := Meld(table', c, b, one, two, lo);
    Frame(cut, table', pairs, tp, lo);
    Frame(cut, table', c', tc', lo);
    NodeAt(cut, c, one, lo);
    NodeAt(table', p, both, lo);
    ghost var melded := table';
    table', tp' := Push(table', p, pairs, both, tp, lo);
    pairs' := p;
    Frame(melded, table', c', tc', lo);
  }

  /** Puts the heap at `p` in front of the list `pairs`. */
  method Push(table: seq<Links>, p: nat, pairs: int, ghost t: Forest, ghost tp: Forest, ghost lo: nat)
    returns (table': seq<Links>, ghost tp': Forest)
    requires t.Node? && IsHeap(t) && p < |table|
    requires Holds(table, p, t, lo) && Holds(table, pairs, tp, lo) && Elems(t) !! Elems(tp)
    ensures Holds(table', p, tp', lo) && Elems(tp') == Elems(t) + Elems(tp)
    ensures table' == table[p := table[p].(sibling := pairs)]
  {
    Parts(table, p, t, lo);
    ElemsNil();
    hide Holds, Elems;
    Relink(table, p, t, pairs, tp, lo);
    table' := table[p := table[p].(sibling := pairs)];
    tp' := Node(t.index, t.children, tp);
  }

  lemma NodeAt(table: seq<Links>, i: int, t: Forest, lo: nat)
    requires Holds(table, i, t, lo)
    ensures t.Node? <==> i >= 0
    ensures t.Node? ==> i == t.index < |table| && t.index in Elems(t)
    ensures t.Nil? ==> i == -1 && Elems(t) == {}
  {
  }

  /** Melds all heaps of a list into one. */
  method MeldAll(table: seq<Links>, first: int, ghost t: Forest, ghost lo: nat)
    returns (table': seq<Links>, merged: int, ghost tm: Forest)
    requires Holds(table, first, t, lo)
    ensures |table'| == |table| && Holds(table', merged, tm, lo) && IsHeap(tm) && Elems(tm) == Elems(t)
    ensures forall k :: 0 <= k < |table| ==> table'[k].wake == table[k].wake
    ensures forall k :: 0 <= k < |table| && k !in Elems(t) ==> table'[k] == table[k]
  {
    var pairs := first;
    ghost var tp := t;
    table', merged, tm := table, -1, Nil;
    ElemsNil();
    hide Elems;
    while pairs >= 0
      invariant |table'| == |table| && Holds(table', pairs, tp, lo) && Holds(table', merged, tm, lo) && IsHeap(tm)
      invariant Elems(tp) !! Elems(tm) && Elems(tp) + Elems(tm) == Elems(t)
      invariant forall k :: 0 <= k < |table| ==> table'[k].wake == table[k].wake
      invariant forall k :: 0 <= k < |table| && k !in Elems(t) ==> table'[k] == table[k]
      decreases tp
    {
      hide Holds;
      ghost var before := table';
      NodeAt(table', pairs, tp, lo);
      ghost var one;
      var next;
      table', next, one := Cut(table', pairs, tp, lo);
      NodeAt(table', pairs, one, lo);
      Frame(before, table', merged, tm, lo);
      before := table';
      table', merged, tm := Meld(table', merged, pairs, tm, one, lo);
      Frame(before, table', next, tp.rest, lo);
      pairs, tp := next, tp.rest;
    }
    NodeAt(table', pairs, tp, lo);
  }

  /** Removes the root of a heap: the rest is a heap of all other records. */
  method Pop(table: seq<Links>, root: nat, ghost t: Forest, ghost lo: nat)
    returns (table': seq<Links>, r: int, ghost t': Forest)
    requires t.Node? && IsHeap(t) && Holds(table, root, t, lo) && root < |table|
    ensures |table'| == |table| && Holds(table', r, t', lo) && IsHeap(t') && Elems(t') == Elems(t) - {root}
    ensures table'[root] == table[root].(child := -1)
    ensures forall k :: 0 <= k < |table| ==> table'[k].wake == table[k].wake
    ensures forall k :: 0 <= k < |table| && k !in Elems(t) ==> table'[k] == table[k]
    ensures forall k :: k in Elems(t) && k < |table| ==> table[root].wake <= table[k].wake
  {
    Parts(table, root, t, lo);
    ElemsNil();
    var w := table[root].wake;
    LeastFirst(table, t.children, w);
    LowerHolds(table, table[root].child, t.children, w, lo);
    hide Holds, Elems;
    var pairs;
    ghost var tp;
    table', pairs, tp := PairUp(table, table[root].child, t.children, lo);
    ghost var paired := table';
    table' := table'[root := table'[root].(child := -1)];
    Frame(paired, table', pairs, tp, lo);
    table', r, t' := MeldAll(table', pairs, tp, lo);
  }

  lemma LowerHolds(table: seq<Links>, i: int, t: Forest, lo: nat, lo': nat)
    requires Holds(table, i, t, lo) && lo' <= lo
    ensures Holds(table, i, t, lo')
  {
    Lower(table, t, lo, lo');
  }
}
