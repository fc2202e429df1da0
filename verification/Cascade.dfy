/**
  Deleting an item deletes everything inside it.  The walk moves through links to the
  next sibling, the first child and the container, without a stack, and does what a
  recursive walk would do: it marks the live items below the root, each before its
  children and each before its later siblings.
*/
module Cascade {

  /** The links of an item: next sibling, first item inside and container; -1 for none. */
  datatype Links = Links(right: int, child: int, up: int)

  /** An item with what is inside it, and its later siblings. */
  datatype Forest = Nil | Node(at: nat, inside: Forest, later: Forest)

  /** The links from `head` on spell the forest, all inside `up`. */
  predicate Spells(links: seq<Links>, head: int, up: int, f: Forest)
    decreases f
  {
    match f
    case Nil => head < 0
    case Node(i, inside, later) =>
      && head == i < |links| && links[i].up == up
      && Spells(links, links[i].child, i, inside) && Spells(links, links[i].right, up, later)
  }

  function Elems(f: Forest): set<nat> {
    match f
    case Nil => {}
    case Node(i, inside, later) => {i} + Elems(inside) + Elems(later)
  }

  /** No item is in two places. */
  predicate Apart(f: Forest) {
    match f
    case Nil => true
    case Node(i, inside, later) =>
      && i !in Elems(inside) && i !in Elems(later) && Elems(inside) !! Elems(later)
      && Apart(inside) && Apart(later)
  }

  /** What a recursive walk marks, in order: a deleted item and all inside it are passed over. */
  function Order(f: Forest, dead: set<nat>): seq<nat>
    decreases f, 0
  {
    match f
    case Nil => []
    case Node(i, inside, later) => Below(i, inside, dead) + Order(later, dead)
  }

  /** The same for one item. */
  function Below(i: nat, inside: Forest, dead: set<nat>): seq<nat>
    decreases inside, 1
  {
    if i in dead then [] else [i] + Order(inside, dead)
  }

  /** What is inside a deleted item is deleted. */
  predicate Sunk(f: Forest, dead: set<nat>) {
    match f
    case Nil => true
    case Node(i, inside, later) => (i in dead ==> Elems(inside) <= dead) && Sunk(inside, dead) && Sunk(later, dead)
  }

  predicate Distinct(s: seq<nat>) {
    forall i, j :: 0 <= i < j < |s| ==> s[i] != s[j]
  }

  lemma DistinctConcat(a: seq<nat>, b: seq<nat>)
    requires Distinct(a) && Distinct(b) && forall x :: x in a ==> x !in b
    ensures Distinct(a + b)
  {
    var s := a + b;
    forall i, j | 0 <= i < j < |s|
      ensures s[i] != s[j]
    {
      if i < |a| <= j { assert s[i] in a && s[j] in b; }
    }
  }

  /** The walk marks live items of the forest, none twice. */
  lemma {:induction false} OrderOk(f: Forest, dead: set<nat>)
    requires Apart(f)
    ensures Distinct(Order(f, dead)) && forall x :: x in Order(f, dead) ==> x in Elems(f) && x !in dead
  {
    match f
    case Nil =>
    case Node(i, inside, later) =>
      OrderOk(inside, dead);
      OrderOk(later, dead);
      DistinctConcat([i], Order(inside, dead));
      DistinctConcat(Below(i, inside, dead), Order(later, dead));
  }

  /** Where everything inside a deleted item is deleted, the walk marks all live items, and keeps it so. */
  lemma {:induction false} OrderIsAll(f: Forest, dead: set<nat>)
    requires Sunk(f, dead)
    ensures forall x :: x in Order(f, dead) <==> x in Elems(f) && x !in dead
  {
    match f
    case Nil =>
    case Node(i, inside, later) =>
      OrderIsAll(inside, dead);
      OrderIsAll(later, dead);
  }

  // ------------------------------------------------------------------- the walk

  /**
    A place on the way down from a root: for each level below it, the item on the way
    with its later siblings.
  */
  predicate On(links: seq<Links>, root: nat, path: seq<Forest>) {
    path != [] ==>
      var f := path[|path| - 1];
      && f.Node? && f.at != root && On(links, root, path[..|path| - 1])
      && Spells(links, f.at, Here(root, path[..|path| - 1]), f)
  }

  /** The item at a place. */
  function Here(root: nat, path: seq<Forest>): nat {
    if path != [] && path[|path| - 1].Node? then path[|path| - 1].at else root
  }

  /** What a recursive walk has still to do when it is done with what is inside the item at a place. */
  function Waiting(path: seq<Forest>, dead: set<nat>): seq<nat> {
    if path == [] || path[|path| - 1].Nil? then []
    else Order(path[|path| - 1].later, dead) + Waiting(path[..|path| - 1], dead)
  }

  lemma WaitingPush(path: seq<Forest>, f: Forest, dead: set<nat>)
    requires f.Node?
    ensures Waiting(path + [f], dead) == Order(f.later, dead) + Waiting(path, dead)
    ensures (path + [f])[..|path|] == path
  {
    assert (path + [f])[..|path|] == path;
  }

  lemma OnPush(links: seq<Links>, root: nat, path: seq<Forest>, f: Forest)
    requires On(links, root, path) && f.Node? && f.at != root && Spells(links, f.at, Here(root, path), f)
    ensures On(links, root, path + [f]) && Here(root, path + [f]) == f.at
  {
    assert (path + [f])[..|path|] == path;
  }

  class Items {
    const links: seq<Links>
    var deleted: set<nat>
    /** The items deleted in this transaction, in order. */
    var record: seq<nat>

    constructor (links: seq<Links>, deleted: set<nat>)
      ensures this.links == links && this.deleted == deleted && record == []
    {
      this.links, this.deleted, this.record := links, deleted, [];
    }

    /** The first live one of an item and its later siblings. */
    method FirstLive(head: int, ghost up: int, ghost f: Forest, ghost walk: Walk, ghost after: seq<nat>)
      returns (i: int, ghost g: Forest)
      requires Spells(links, head, up, f) && walk.Leaves(deleted, record, Order(f, walk.dead) + after)
      ensures (i < 0 <==> g.Nil?) && Spells(links, i, up, g)
      ensures walk.Leaves(deleted, record, Order(g, walk.dead) + after)
      ensures g.Node? ==> i == g.at && i !in deleted && i !in walk.dead && i !in record
    {
      i, g := head, f;
      while i >= 0 && i in deleted
        invariant (i < 0 <==> g.Nil?) && Spells(links, i, up, g)
        invariant walk.Leaves(deleted, record, Order(g, walk.dead) + after)
        decreases g
      {
        walk.NextIs(deleted, record, g, after);
        i, g := links[i].right, g.later;
      }
      if g.Node? { walk.NextIs(deleted, record, g, after); }
    }

    /** The next live item of the walk after `current` and all inside it, -1 if the walk is done. */
    method NextItem(current: nat, root: nat, ghost path: seq<Forest>, ghost walk: Walk)
      returns (next: int, ghost path': seq<Forest>)
      requires On(links, root, path) && current == Here(root, path) && (path != [] ==> root in record)
      requires walk.Leaves(deleted, record, Waiting(path, walk.dead))
      ensures On(links, root, path') && (path' != [] ==> root in record)
      ensures next < 0 ==> walk.Leaves(deleted, record, [])
      ensures next >= 0 ==> next == Here(root, path') && next !in deleted
                            && forall inside :: walk.Leaves(deleted, record, Todo(root, inside, path', walk.dead))
    {
      var at := current;
      path' := path;
      while at != root
        invariant On(links, root, path') && at == Here(root, path') && (path' != [] ==> root in record)
        invariant walk.Leaves(deleted, record, Waiting(path', walk.dead))
        decreases |path'|
      {
        ghost var up, f := path'[..|path'| - 1], path'[|path'| - 1];
        ghost var g;
        next, g := FirstLive(links[at].right, Here(root, up), f.later, walk, Waiting(up, walk.dead));
        if next >= 0 {
          OnPush(links, root, up, g);
          path' := up + [g];
          WaitingPush(up, g, walk.dead);
          return;
        }
        assert Order(g, walk.dead) + Waiting(up, walk.dead) == Waiting(up, walk.dead);
        at, path' := links[at].up, up;
      }
      next := -1;
    }

    /** Marks the item at a place if it is live, and goes on to the next one. */
    method Visit(current: nat, root: nat, ghost inside: Forest, ghost path: seq<Forest>, ghost walk: Walk)
      returns (next: int, ghost path': seq<Forest>)
      requires root < |links| && Spells(links, links[root].child, root, inside)
      requires On(links, root, path) && current == Here(root, path) && (path != [] ==> root in record)
      requires walk.Leaves(deleted, record, Todo(root, inside, path, walk.dead))
      modifies this
      ensures On(links, root, path') && (path' != [] ==> root in record) && |record| >= |old(record)|
      ensures next < 0 ==> walk.Leaves(deleted, record, [])
      ensures next >= 0 ==> next == Here(root, path') && next !in deleted
                            && walk.Leaves(deleted, record, Todo(root, inside, path', walk.dead))
      ensures current !in old(deleted) ==> |old(record)| < |record| <= |walk.base| + |walk.total|
    {
      hide Order;
      ghost var f := Item(root, inside, path);
      ItemAt(links, root, inside, path, walk.dead);
      ghost var up := Waiting(if path == [] then [] else path[..|path| - 1], walk.dead);
      walk.NextIs(deleted, record, f, up);
      if current in deleted {
        next, path' := NextItem(current, root, path, walk);
        return;
      }
      deleted := deleted + {current};
      record := record + [current];
      ghost var g;
      next, g := FirstLive(links[current].child, current, f.inside, walk, Waiting(path, walk.dead));
      if next >= 0 {
        OnPush(links, root, path, g);
        WaitingPush(path, g, walk.dead);
        path' := path + [g];
      } else {
        OrderNil(walk.dead, Waiting(path, walk.dead));
        next, path' := NextItem(current, root, path, walk);
      }
    }

    /**
      Deletes an item and what is inside it.  `inside` is the forest the links spell.  Marked
      are exactly the items a recursive walk marks, in its order.
    */
    method Delete(root: nat, ghost inside: Forest)
      requires root < |links| && Spells(links, links[root].child, root, inside)
      requires Apart(inside) && root !in Elems(inside) && forall i :: i in record ==> i in deleted
      modifies this
      ensures record == old(record) + Below(root, inside, old(deleted))
      ensures deleted == old(deleted) + set i | i in record
      ensures Sunk(inside, old(deleted)) && (root in old(deleted) ==> Elems(inside) <= old(deleted)) ==>
                deleted == old(deleted) + {root} + Elems(inside)
    {
      ghost var walk := Walk(deleted, record, Below(root, inside, deleted));
      ghost var path: seq<Forest> := [];
      BelowOk(root, inside, deleted);
      TodoStart(root, inside, deleted);
      var current: int := root;
      hide Below, Order, Todo, Waiting, Spells;
      assert walk.Leaves(deleted, record, walk.total);
      while current >= 0
        invariant On(links, root, path) && (path != [] ==> root in record)
        invariant current < 0 ==> walk.Leaves(deleted, record, [])
        invariant current >= 0 ==> current == Here(root, path)
                                   && walk.Leaves(deleted, record, Todo(root, inside, path, walk.dead))
        decreases |walk.base| + |walk.total| - |record|, if current < 0 then 0 else if current in deleted then 2 else 1
      {
        current, path := Visit(current, root, inside, path, walk);
      }
      OrderIsAllBelow(root, inside, old(deleted));
    }
  }

  /** The item at a place with its later siblings; those of the root do not count. */
  function Item(root: nat, inside: Forest, path: seq<Forest>): Forest {
    if path == [] then Node(root, inside, Nil) else path[|path| - 1]
  }

  /** What remains at a place that is still to be looked at. */
  function Todo(root: nat, inside: Forest, path: seq<Forest>, dead: set<nat>): seq<nat> {
    Order(Item(root, inside, path), dead) + Waiting(if path == [] then [] else path[..|path| - 1], dead)
  }

  lemma ItemAt(links: seq<Links>, root: nat, inside: Forest, path: seq<Forest>, dead: set<nat>)
    requires root < |links| && Spells(links, links[root].child, root, inside) && On(links, root, path)
    ensures var f := Item(root, inside, path);
            && f.Node? && f.at == Here(root, path) < |links|
            && Spells(links, links[f.at].child, f.at, f.inside)
            && Waiting(path, dead) ==
               Order(f.later, dead) + Waiting(if path == [] then [] else path[..|path| - 1], dead)
  {
  }

  lemma TodoStart(root: nat, inside: Forest, dead: set<nat>)
    ensures Todo(root, inside, [], dead) == Below(root, inside, dead)
  {
    assert Order(Nil, dead) == [] && Waiting([], dead) == [];
    assert Order(Node(root, inside, Nil), dead) == Below(root, inside, dead) + Order(Nil, dead);
  }

  lemma OrderNil(dead: set<nat>, after: seq<nat>)
    ensures Order(Nil, dead) + after == after
  {
  }

  /** The items deleted before a walk and those on record, and what a recursive walk would mark. */
  datatype Walk = Walk(dead: set<nat>, base: seq<nat>, total: seq<nat>) {

    /** Of the walk, `rest` is left to do. */
    ghost predicate Leaves(deleted: set<nat>, record: seq<nat>, rest: seq<nat>) {
      && record + rest == base + total && |base| <= |record|
      && Distinct(total) && (forall x :: x in total ==> x !in dead) && (forall x :: x in base ==> x in dead)
      && deleted == dead + set x | x in record
    }

    /** An item of the rest is deleted exactly if it was before; what is left after it. */
    lemma NextIs(deleted: set<nat>, record: seq<nat>, g: Forest, after: seq<nat>)
      requires Leaves(deleted, record, Order(g, dead) + after) && g.Node?
      ensures g.at in deleted <==> g.at in dead
      ensures g.at in deleted ==> Leaves(deleted, record, Order(g.later, dead) + after)
      ensures g.at !in deleted ==> g.at !in record && |record| < |base| + |total|
      ensures g.at !in deleted ==>
                Leaves(deleted + {g.at}, record + [g.at], Order(g.inside, dead) + (Order(g.later, dead) + after))
    {
      OrderSplit(g, dead, after);
      hide Order, Leaves;
      if g.at in dead {
        DeadStays(deleted, record, Order(g.later, dead) + after, g.at);
      } else {
        HeadIs(deleted, record, g.at, Order(g.inside, dead) + (Order(g.later, dead) + after));
      }
    }

    lemma DeadStays(deleted: set<nat>, record: seq<nat>, rest: seq<nat>, x: nat)
      requires Leaves(deleted, record, rest) && x in dead
      ensures x in deleted
    {
    }

    /** The first of the rest was never marked; marking it leaves the others. */
    lemma HeadIs(deleted: set<nat>, record: seq<nat>, x: nat, rest: seq<nat>)
      requires Leaves(deleted, record, [x] + rest)
      ensures x !in dead && x !in record && x !in deleted && |record| < |base| + |total|
      ensures Leaves(deleted + {x}, record + [x], rest)
    {
      var all := base + total;
      assert all == record + ([x] + rest) == record + [x] + rest;
      assert all[|record|] == x == total[|record| - |base|];
      forall i | 0 <= i < |record| ensures record[i] != x {
        assert all[i] == record[i];
        if i < |base| { assert base[i] in dead; } else { assert total[i - |base|] == record[i]; }
      }
    }
  }

  lemma OrderSplit(g: Forest, dead: set<nat>, after: seq<nat>)
    requires g.Node?
    ensures Order(g, dead) + after == if g.at in dead then Order(g.later, dead) + after
                                      else [g.at] + (Order(g.inside, dead) + (Order(g.later, dead) + after))
  {
    var x, y := Order(g.inside, dead), Order(g.later, dead);
    if g.at in dead {
      assert [] + y == y;
    } else {
      assert ([g.at] + x) + y + after == [g.at] + (x + (y + after));
    }
  }

  lemma BelowOk(root: nat, inside: Forest, dead: set<nat>)
    requires Apart(inside) && root !in Elems(inside)
    ensures Distinct(Below(root, inside, dead)) && forall x :: x in Below(root, inside, dead) ==> x !in dead
  {
    OrderOk(inside, dead);
    DistinctConcat([root], Order(inside, dead));
  }

  lemma OrderIsAllBelow(root: nat, inside: Forest, dead: set<nat>)
    ensures Sunk(inside, dead) && (root in dead ==> Elems(inside) <= dead) ==>
              forall x :: x in Below(root, inside, dead) <==> (x == root || x in Elems(inside)) && x !in dead
  {
    if Sunk(inside, dead) { OrderIsAll(inside, dead); }
  }
}
