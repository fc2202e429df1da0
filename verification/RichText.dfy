/**
  Rich text.  The text is a list of items: runs of units and markers that set or clear
  one attribute.  A unit's attributes are the left fold of the live markers before it.
*/
module RichText {
  import opened Base

  /** A composite value equals another only through itself when compared by identity. */
  datatype Value = Scalar(text: string) | Composite(text: string)

  /** The name of an attribute. */
  datatype Key = Key(name: string)

  datatype Unit = Unit(id: Id, code: char)

  datatype Content = Run(units: seq<Unit>) | Mark(key: Key, val: Option<Value>)

  datatype Node = Node(content: Content, deleted: bool)

  type Attrs = map<Key, Value>

  /** Attributes to set; `None` clears. */
  type Change = map<Key, Option<Value>>

  /** A live unit as a reader sees it. */
  datatype Char = Char(unit: Unit, attrs: Attrs)

  function Get(a: Attrs, key: Key): Option<Value> {
    if key in a then Some(a[key]) else None
  }

  function Put(a: Attrs, key: Key, val: Option<Value>): Attrs {
    if val.None? then a - {key} else a[key := val.value]
  }

  function Want(c: Change, key: Key): Option<Value> {
    if key in c then c[key] else None
  }

  /** The attributes after passing one item. */
  function Pass(a: Attrs, n: Node): Attrs {
    if n.deleted || n.content.Run? then a else Put(a, n.content.key, n.content.val)
  }

  function After(nodes: seq<Node>, a: Attrs): Attrs {
    if nodes == [] then a else After(nodes[1..], Pass(a, nodes[0]))
  }

  function Styled(units: seq<Unit>, a: Attrs): seq<Char> {
    seq(|units|, i requires 0 <= i < |units| => Char(units[i], a))
  }

  function Shown(n: Node, a: Attrs): seq<Char> {
    if n.deleted || n.content.Mark? then [] else Styled(n.content.units, a)
  }

  /** The live units in order, each with its attributes. */
  function View(nodes: seq<Node>, a: Attrs): seq<Char> {
    if nodes == [] then [] else Shown(nodes[0], a) + View(nodes[1..], Pass(a, nodes[0]))
  }

  lemma {:induction false} ViewConcat(x: seq<Node>, y: seq<Node>, a: Attrs)
    ensures After(x + y, a) == After(y, After(x, a))
    ensures View(x + y, a) == View(x, a) + View(y, After(x, a))
    decreases |x|
  {
    if x == [] {
      assert x + y == y;
    } else {
      assert (x + y)[1..] == x[1..] + y;
      ViewConcat(x[1..], y, Pass(a, x[0]));
    }
  }

  lemma ViewOne(x: seq<Node>, n: Node, a: Attrs)
    ensures After(x + [n], a) == Pass(After(x, a), n)
    ensures View(x + [n], a) == View(x, a) + Shown(n, After(x, a))
  {
    ViewConcat(x, [n], a);
    assert [n][1..] == [];
  }

  lemma ViewHead(nodes: seq<Node>, a: Attrs)
    requires nodes != []
    ensures View(nodes, a) == Shown(nodes[0], a) + View(nodes[1..], Pass(a, nodes[0]))
  {
  }

  lemma SameAttrs(a: Attrs, b: Attrs)
    requires forall k :: Get(a, k) == Get(b, k)
    ensures a == b
  {
    forall k
      ensures k in a <==> k in b
      ensures k in a ==> a[k] == b[k]
    {
      assert Get(a, k) == Get(b, k);
    }
  }

  // ------------------------------------------------------------- changed ranges

  function Overridden(a: Attrs, c: Change): Attrs {
    (map k | k in a && k !in c :: a[k]) + (map k | k in c && c[k].Some? :: c[k].value)
  }

  lemma OverriddenAt(a: Attrs, c: Change)
    ensures forall k :: Get(Overridden(a, c), k) == if k in c then c[k] else Get(a, k)
  {
  }

  /** The first `n` units take the change, the others stay. */
  function Restyled(v: seq<Char>, n: int, c: Change): seq<Char> {
    seq(|v|, i requires 0 <= i < |v| => if i < n then Char(v[i].unit, Overridden(v[i].attrs, c)) else v[i])
  }

  lemma RestyledConcat(x: seq<Char>, y: seq<Char>, n: int, c: Change)
    ensures Restyled(x + y, n, c) == Restyled(x, n, c) + Restyled(y, n - |x|, c)
  {
  }

  lemma RestyledNone(x: seq<Char>, n: int, c: Change)
    requires n <= 0
    ensures Restyled(x, n, c) == x
  {
  }

  lemma RestyledRun(units: seq<Unit>, a: Attrs, n: int, c: Change)
    requires |units| <= n
    ensures Restyled(Styled(units, a), n, c) == Styled(units, Overridden(a, c))
  {
  }

  // ------------------------------------------------------- ordered attribute maps

  /** An attribute map that lists its keys in the order they were first set. */
  datatype AttrState = AttrState(keys: seq<Key>, vals: Change) {
    ghost predicate Valid() {
      && (forall i, j :: 0 <= i < j < |keys| ==> keys[i] != keys[j])
      && (forall k :: k in keys <==> k in vals)
    }

    function Set(key: Key, val: Option<Value>): (r: AttrState)
      requires Valid()
      ensures r.Valid() && r.vals == vals[key := val] && keys <= r.keys
    {
      if key in vals then AttrState(keys, vals[key := val])
      else AttrState(keys + [key], vals[key := val])
    }

    function Del(key: Key): (r: AttrState)
      requires Valid()
      ensures r.Valid() && r.vals == vals - {key}
    {
      if key !in vals then this
      else
        RemoveKeeps(keys, key);
        AttrState(Without(keys, key), vals - {key})
    }

    function Apply(key: Key, val: Option<Value>): (r: AttrState)
      requires Valid()
      ensures r.Valid() && r.vals == if val.None? then vals - {key} else vals[key := val]
    {
      if val.None? then Del(key) else Set(key, val)
    }

    /** The state holds the attributes `a`. */
    ghost predicate Holds(a: Attrs) {
      Valid() && forall k :: (k in vals ==> vals[k].Some?) && Want(vals, k) == Get(a, k)
    }
  }

  lemma TailKeys(keys: seq<Key>, i: nat)
    requires i < |keys| && forall a, b :: 0 <= a < b < |keys| ==> keys[a] != keys[b]
    ensures keys[i] !in keys[i + 1..] && forall k :: k in keys[i..] <==> k == keys[i] || k in keys[i + 1..]
  {
    var rest := keys[i + 1..];
    assert keys[i..] == [keys[i]] + rest;
    forall j | 0 <= j < |rest|
      ensures rest[j] != keys[i]
    {
      assert rest[j] == keys[i + 1 + j];
    }
  }

  function Without(keys: seq<Key>, key: Key): seq<Key> {
    if keys == [] then []
    else if keys[0] == key then keys[1..]
    else [keys[0]] + Without(keys[1..], key)
  }

  lemma {:induction false} RemoveKeeps(keys: seq<Key>, key: Key)
    requires forall i, j :: 0 <= i < j < |keys| ==> keys[i] != keys[j]
    ensures var r := Without(keys, key);
            && (forall i, j :: 0 <= i < j < |r| ==> r[i] != r[j])
            && (forall k :: k in r <==> k in keys && k != key)
  {
    if keys != [] && keys[0] != key {
      RemoveKeeps(keys[1..], key);
      var r := Without(keys[1..], key);
      assert keys == [keys[0]] + keys[1..];
      assert keys[0] !in keys[1..] by {
        forall i | 0 <= i < |keys[1..]|
          ensures keys[1..][i] != keys[0]
        {
          assert keys[1..][i] == keys[i + 1];
        }
      }
      assert Without(keys, key) == [keys[0]] + r;
    } else if keys != [] {
      assert keys == [key] + keys[1..];
    }
  }

  lemma HoldsApply(s: AttrState, a: Attrs, key: Key, val: Option<Value>)
    requires s.Holds(a)
    ensures s.Apply(key, val).Holds(Put(a, key, val))
  {
  }

  /** The state after passing one item: a live marker is applied, in the order of the list. */
  function Fold(s: AttrState, n: Node): (r: AttrState)
    requires s.Valid()
    ensures r.Valid()
  {
    if n.deleted || n.content.Run? then s else s.Apply(n.content.key, n.content.val)
  }

  function Folded(nodes: seq<Node>): (r: AttrState)
    ensures r.Valid()
  {
    if nodes == [] then AttrState([], map[]) else Fold(Folded(nodes[..|nodes| - 1]), nodes[|nodes| - 1])
  }

  lemma FoldedNext(nodes: seq<Node>, n: Node)
    ensures Folded(nodes + [n]) == Fold(Folded(nodes), n)
  {
    assert (nodes + [n])[..|nodes|] == nodes;
  }

  lemma {:induction false} FoldedHolds(nodes: seq<Node>)
    ensures Folded(nodes).Holds(After(nodes, map[]))
  {
    if nodes != [] {
      var init, n := nodes[..|nodes| - 1], nodes[|nodes| - 1];
      FoldedHolds(init);
      assert nodes == init + [n];
      ViewOne(init, n, map[]);
      hide After, View, AttrState.Holds;
      HoldsAfter(Folded(init), After(init, map[]), n);
    }
  }

  /** Where a cursor stands after passing `count` more units: right behind the last of them, a run cut there. */
  function Advanced(left: seq<Node>, right: seq<Node>, count: int): (r: (seq<Node>, seq<Node>))
    decreases |right|
  {
    if right == [] || count <= 0 then (left, right)
    else
      var n, rest := right[0], right[1..];
      if n.deleted || n.content.Mark? then Advanced(left + [n], rest, count)
      else if count < |n.content.units| then
        (left + [Node(Run(n.content.units[..count]), false)], [Node(Run(n.content.units[count..]), false)] + rest)
      else Advanced(left + [n], rest, count - |n.content.units|)
  }

  function UnitsOf(n: Node): seq<Unit> {
    if n.content.Run? then n.content.units else []
  }

  /** The units of a list in order, shown or deleted. */
  function Stock(nodes: seq<Node>): seq<Unit> {
    if nodes == [] then [] else UnitsOf(nodes[0]) + Stock(nodes[1..])
  }

  lemma {:induction false} StockConcat(x: seq<Node>, y: seq<Node>)
    ensures Stock(x + y) == Stock(x) + Stock(y)
    decreases |x|
  {
    hide UnitsOf;
    if x == [] {
      assert x + y == y;
    } else {
      assert (x + y)[1..] == x[1..] + y;
      StockConcat(x[1..], y);
    }
  }

  lemma StockHead(nodes: seq<Node>)
    requires nodes != []
    ensures Stock(nodes) == UnitsOf(nodes[0]) + Stock(nodes[1..])
  {
  }

  lemma FrontAndRest(n: Node, rest: seq<Node>)
    ensures ([n] + rest)[0] == n && ([n] + rest)[1..] == rest
  {
  }

  lemma StockForward(left: seq<Node>, right: seq<Node>)
    requires right != []
    ensures Stock(left + [right[0]]) + Stock(right[1..]) == Stock(left) + Stock(right)
  {
    hide UnitsOf;
    StockConcat(left, [right[0]]);
    assert Stock([right[0]]) == UnitsOf(right[0]) + Stock([]) && Stock([]) == [];
  }

  lemma Shifted(left: seq<Node>, right: seq<Node>)
    requires right != []
    ensures (left + [right[0]]) + right[1..] == left + right
  {
  }

  lemma PutMiddle(a: seq<Unit>, units: seq<Unit>, b: seq<Unit>)
    ensures a + (units + b) == (a + b)[..|a|] + units + (a + b)[|a|..]
  {
  }

  lemma StockInsert(left: seq<Node>, units: seq<Unit>, right: seq<Node>)
    ensures var s, k := Stock(left) + Stock(right), |Stock(left)|;
            Stock(left) + Stock([Node(Run(units), false)] + right) == s[..k] + units + s[k..]
  {
    hide Stock;
    StockHead([Node(Run(units), false)] + right);
    assert ([Node(Run(units), false)] + right)[1..] == right;
    PutMiddle(Stock(left), units, Stock(right));
  }

  /** Cutting a run keeps its units. */
  lemma StockSplit(m: Node, n: nat, rest: seq<Node>)
    requires m.content.Run? && n <= |m.content.units|
    ensures Stock([Node(Run(m.content.units[..n]), false), Node(Run(m.content.units[n..]), false)] + rest) ==
            Stock([m] + rest)
  {
    var a, b := Node(Run(m.content.units[..n]), false), Node(Run(m.content.units[n..]), false);
    assert m.content.units == m.content.units[..n] + m.content.units[n..];
    hide Stock;
    FrontAndRest(m, rest);
    FrontAndRest(b, rest);
    FrontAndRest(a, [b] + rest);
    assert [a, b] + rest == [a] + ([b] + rest);
    StockHead([m] + rest);
    StockHead([a, b] + rest);
    StockHead([b] + rest);
  }

  lemma StockDelete(right: seq<Node>)
    requires right != []
    ensures Stock([right[0].(deleted := true)] + right[1..]) == Stock(right)
  {
    var t := [right[0].(deleted := true)] + right[1..];
    assert t[0] == right[0].(deleted := true) && t[1..] == right[1..];
  }

  /** How many items at the front are deleted or markers that set what is wanted. */
  function Skip(nodes: seq<Node>, c: Change): (k: nat)
    ensures k <= |nodes|
  {
    if nodes == [] || !Idle(nodes[0], c) then 0 else 1 + Skip(nodes[1..], c)
  }

  predicate Idle(n: Node, c: Change) {
    n.deleted || (n.content.Mark? && Want(c, n.content.key) == n.content.val)
  }

  /** Attributes as a wish to keep them. */
  function AsChange(a: Attrs): (c: Change)
    ensures forall k :: Want(c, k) == Get(a, k)
  {
    map k | k in a :: Some(a[k])
  }

  lemma {:induction false} SkipSame(nodes: seq<Node>, c: Change, c': Change)
    requires forall k :: Want(c, k) == Want(c', k)
    ensures Skip(nodes, c) == Skip(nodes, c')
    decreases |nodes|
  {
    hide Want;
    if nodes != [] { SkipSame(nodes[1..], c, c'); }
  }

  lemma SkipFrom(nodes: seq<Node>, k: nat, c: Change)
    requires k <= |nodes|
    ensures if k < |nodes| && Idle(nodes[k], c) then Skip(nodes[k..], c) == 1 + Skip(nodes[k + 1..], c)
            else Skip(nodes[k..], c) == 0
  {
    if k < |nodes| {
      assert nodes[k..][0] == nodes[k] && nodes[k..][1..] == nodes[k + 1..];
    }
  }

  /** The cursor has passed `m` items. */
  ghost predicate Further(left: seq<Node>, right: seq<Node>, m: nat, left': seq<Node>, right': seq<Node>) {
    m <= |right| && left' == left + right[..m] && right' == right[m..]
  }

  lemma FurtherNone(left: seq<Node>, right: seq<Node>)
    ensures Further(left, right, 0, left, right)
  {
  }

  lemma FurtherNext(left: seq<Node>, right: seq<Node>, m: nat, left': seq<Node>, right': seq<Node>)
    requires Further(left, right, m, left', right') && right' != []
    ensures Further(left, right, m + 1, left' + [right'[0]], right'[1..])
  {
    assert right[..m + 1] == right[..m] + [right[m]];
  }

  lemma FurtherMeans(left: seq<Node>, right: seq<Node>, m: nat, left': seq<Node>, right': seq<Node>)
    requires Further(left, right, m, left', right')
    ensures left' + right' == left + right && left <= left'
  {
  }

  lemma PrefixOf(a: seq<Node>, b: seq<Node>)
    ensures a <= a + b
  {
  }

  lemma TowardsSelf(a: Attrs, c: Change)
    ensures Towards(a, a, c)
  {
  }

  lemma SkipHead(nodes: seq<Node>, c: Change)
    requires nodes != []
    ensures Skip(nodes, c) == if Idle(nodes[0], c) then 1 + Skip(nodes[1..], c) else 0
  {
  }

  lemma SkipEnd(nodes: seq<Node>, c: Change)
    ensures nodes == [] || !Idle(nodes[0], c) ==> Skip(nodes, c) == 0
  {
  }

  /**
    How many items at the front are deleted or markers that restore a remembered value, and
    what is to be restored behind them.
  */
  function Closed(nodes: seq<Node>, negated: AttrState): (r: (nat, AttrState))
    requires negated.Valid()
    ensures r.0 <= |nodes| && r.1.Valid()
  {
    if nodes == [] then (0, negated)
    else
      var n := nodes[0];
      if n.deleted then
        var r := Closed(nodes[1..], negated); (r.0 + 1, r.1)
      else if n.content.Mark? && n.content.key in negated.vals && negated.vals[n.content.key] == n.content.val then
        var r := Closed(nodes[1..], negated.Del(n.content.key)); (r.0 + 1, r.1)
      else (0, negated)
  }

  lemma ClosedHead(nodes: seq<Node>, negated: AttrState)
    requires nodes != [] && negated.Valid()
    ensures var n := nodes[0];
            if n.deleted then Closed(nodes, negated) ==
              (Closed(nodes[1..], negated).0 + 1, Closed(nodes[1..], negated).1)
            else if n.content.Mark? && n.content.key in negated.vals && negated.vals[n.content.key] == n.content.val
            then Closed(nodes, negated) ==
              (Closed(nodes[1..], negated.Del(n.content.key)).0 + 1, Closed(nodes[1..], negated.Del(n.content.key)).1)
            else Closed(nodes, negated) == (0, negated)
  {
  }

  lemma ClosedEnd(negated: AttrState)
    requires negated.Valid()
    ensures Closed([], negated) == (0, negated)
  {
  }

  /** A marker for every remembered value, in order. */
  function Marks(s: AttrState, n: nat): (r: seq<Node>)
    requires s.Valid() && n <= |s.keys|
    ensures |r| == n
  {
    seq(n, i requires 0 <= i < n => Node(Mark(s.keys[i], s.vals[s.keys[i]]), false))
  }

  lemma AssocNodes(a: seq<Node>, b: seq<Node>, c: seq<Node>)
    ensures (a + b) + c == a + (b + c)
  {
  }

  lemma NoMarks(left: seq<Node>, s: AttrState)
    requires s.Valid()
    ensures left == left + Marks(s, 0)
  {
  }

  lemma MarksNext(s: AttrState, i: nat)
    requires s.Valid() && i < |s.keys|
    ensures Marks(s, i + 1) == Marks(s, i) + [Node(Mark(s.keys[i], s.vals[s.keys[i]]), false)]
  {
  }

  // ------------------------------------------------------------------ the cursor

  /**
    Between the old text and the new one at the cursor: the new attributes are `n`, the
    old ones `o`.  They differ only where `negated` remembers the old value.
  */
  ghost predicate Remembers(o: Attrs, n: Attrs, negated: Change) {
    forall k :: Get(o, k) == if k in negated then negated[k] else Get(n, k)
  }

  /** Every attribute of `n` is the one of `o` or the wanted one. */
  ghost predicate Towards(o: Attrs, n: Attrs, c: Change) {
    forall k :: Get(n, k) == Get(o, k) || Get(n, k) == Want(c, k)
  }

  /** All attributes named by `keys` are as wanted and only they are remembered. */
  ghost predicate Opened(n: Attrs, negated: Change, keys: set<Key>, c: Change) {
    (forall k :: k in negated ==> k in keys) && forall k :: k in keys ==> Get(n, k) == Want(c, k)
  }

  function KeySet(keys: seq<Key>): set<Key> {
    set k | k in keys
  }

  lemma GetPut(a: Attrs, key: Key, val: Option<Value>, k: Key)
    ensures Get(Put(a, key, val), k) == if k == key then val else Get(a, k)
  {
  }

  lemma TowardsPut(o: Attrs, n: Attrs, c: Change, key: Key)
    requires Towards(o, n, c)
    ensures Towards(o, Put(n, key, Want(c, key)), c)
  {
  }

  lemma OpenKey(o: Attrs, n: Attrs, negated: Change, keys: set<Key>, c: Change, key: Key)
    requires Remembers(o, n, negated) && Opened(n, negated, keys, c) && Get(n, key) != Want(c, key)
    ensures Remembers(o, Put(n, key, Want(c, key)), negated[key := Get(n, key)])
    ensures Opened(Put(n, key, Want(c, key)), negated[key := Get(n, key)], keys + {key}, c)
  {
  }

  lemma RememberSame(o: Attrs, n: Attrs, negated: Change, key: Key)
    requires Remembers(o, n, negated) && key in negated
    ensures Remembers(Put(o, key, negated[key]), Put(n, key, negated[key]), negated - {key})
  {
  }

  /** The keys before the `i`-th have their old value again. */
  ghost predicate Restored(o: Attrs, n: Attrs, s: AttrState, i: nat) {
    i <= |s.keys| && forall k :: Get(o, k) == if k in s.keys[i..] then Want(s.vals, k) else Get(n, k)
  }

  lemma RestoredNone(o: Attrs, n: Attrs, s: AttrState)
    requires s.Valid() && Remembers(o, n, s.vals)
    ensures Restored(o, n, s, 0)
  {
    assert s.keys[0..] == s.keys;
  }

  lemma KeyThere(s: AttrState, i: nat)
    requires s.Valid() && i < |s.keys|
    ensures s.keys[i] in s.vals
  {
    assert s.keys[i] in s.keys;
  }

  lemma RestoreKey(o: Attrs, n: Attrs, s: AttrState, i: nat)
    requires s.Valid() && i < |s.keys| && s.keys[i] in s.vals && Restored(o, n, s, i)
    ensures Restored(o, Put(n, s.keys[i], s.vals[s.keys[i]]), s, i + 1)
  {
    TailKeys(s.keys, i);
    hide AttrState.Valid;
    var key, n' := s.keys[i], Put(n, s.keys[i], s.vals[s.keys[i]]);
    forall k
      ensures Get(o, k) == if k in s.keys[i + 1..] then Want(s.vals, k) else Get(n', k)
    {
      GetPut(n, key, s.vals[key], k);
    }
  }

  lemma RestoredAll(o: Attrs, n: Attrs, s: AttrState)
    requires Restored(o, n, s, |s.keys|)
    ensures o == n
  {
    SameAttrs(o, n);
  }

  /** Passing a marker whose key is not remembered and not touched. */
  lemma RememberOther(o: Attrs, n: Attrs, negated: Change, c: Change, key: Key, val: Option<Value>)
    requires Remembers(o, n, negated) && Opened(n, negated, c.Keys, c) && key !in c
    ensures Remembers(Put(o, key, val), Put(n, key, val), negated) && Opened(Put(n, key, val), negated, c.Keys, c)
  {
  }

  /** Removing a marker of a touched key. */
  lemma RememberRemoved(o: Attrs, n: Attrs, negated: Change, c: Change, key: Key, val: Option<Value>)
    requires Remembers(o, n, negated) && Opened(n, negated, c.Keys, c) && key in c
    ensures c[key] == val ==> Remembers(Put(o, key, val), n, negated - {key}) && Opened(n, negated - {key}, c.Keys, c)
    ensures Remembers(Put(o, key, val), n, negated[key := val]) && Opened(n, negated[key := val], c.Keys, c)
  {
  }

  /** Within the range the new attributes are the old ones with the change applied. */
  lemma InRange(o: Attrs, n: Attrs, negated: Change, c: Change)
    requires Remembers(o, n, negated) && Opened(n, negated, c.Keys, c)
    ensures n == Overridden(o, c)
  {
    OverriddenAt(o, c);
    SameAttrs(n, Overridden(o, c));
  }

  /** A position in the list: the items before it, the items after it and the attributes there. */
  class Cursor {
    var left: seq<Node>
    var right: seq<Node>
    var index: nat
    var cur: AttrState

    /** Attributes and position agree with the items passed. */
    ghost predicate Valid()
      reads this
    {
      cur.Holds(After(left, map[])) && cur == Folded(left) && index == |View(left, map[])|
    }

    method Forward()
      requires Valid()
      modifies this
      ensures Valid() && left + right == old(left) + old(right)
      ensures old(right) == [] ==> left == old(left) && right == [] && cur == old(cur)
      ensures old(right) != [] ==> left == old(left) + [old(right)[0]] && right == old(right)[1..]
      ensures old(right) != [] && (old(right)[0].deleted || old(right)[0].content.Run?) ==> cur == old(cur)
      ensures old(right) != [] && !old(right)[0].deleted && old(right)[0].content.Mark? ==>
                cur == old(cur).Apply(old(right)[0].content.key, old(right)[0].content.val)
      ensures All() == old(All()) && old(left) <= left
    {
      hide View, After, Stock, Folded, AttrState.Holds;
      if right == [] {
        return;
      }
      var n := right[0];
      ViewOne(left, n, map[]);
      HoldsAfter(cur, After(left, map[]), n);
      FoldedNext(left, n);
      if n.content.Mark? {
        if !n.deleted {
          cur := cur.Apply(n.content.key, n.content.val);
        }
      } else if !n.deleted {
        index := index + |n.content.units|;
      }
      Shifted(left, right);
      StockForward(left, right);
      left, right := left + [n], right[1..];
    }

    /** Puts a marker at the cursor and moves past it. */
    method InsertMark(key: Key, val: Option<Value>)
      requires Valid()
      modifies this
      ensures Valid() && right == old(right) && left == old(left) + [Node(Mark(key, val), false)]
      ensures cur == old(cur).Apply(key, val)
      ensures View(left, map[]) == View(old(left), map[])
      ensures After(left, map[]) == Put(After(old(left), map[]), key, val)
      ensures All() == old(All()) && old(left) <= left
    {
      hide View, After, Stock, Folded, Put, AttrState.Holds, AttrState.Valid, AttrState.Apply;
      var n := Node(Mark(key, val), false);
      ViewOne(left, n, map[]);
      StockHead([n] + right);
      FrontAndRest(n, right);
      right := [n] + right;
      Forward();
    }

    /** Before the first item of a list. */
    constructor (nodes: seq<Node>)
      ensures Valid() && left == [] && right == nodes
    {
      left, right, index, cur := [], nodes, 0, AttrState([], map[]);
    }

    /** At a place whose position and attributes are known. */
    constructor At(left: seq<Node>, right: seq<Node>, index: nat, cur: AttrState)
      requires cur == Folded(left) && index == |View(left, map[])|
      ensures Valid() && this.left == left && this.right == right
    {
      this.left, this.right, this.index, this.cur := left, right, index, cur;
      new;
      FoldedHolds(left);
    }

    /** All units of the text, shown or deleted. */
    ghost function All(): seq<Unit>
      reads this
    {
      Stock(left) + Stock(right)
    }

    ghost function Here(): Attrs
      reads this
    {
      After(left, map[])
    }

    ghost function Text(): seq<Char>
      reads this
    {
      View(left, map[])
    }

    /** Skips deleted items and markers that already set what is wanted. */
    method Minimize(c: Change)
      requires Valid()
      modifies this
      ensures Valid() && left + right == old(left) + old(right)
      ensures Text() == old(Text()) && View(right, Here()) == View(old(right), old(Here()))
      ensures Towards(old(Here()), Here(), c)
      ensures Further(old(left), old(right), Skip(old(right), c), left, right)
      ensures All() == old(All()) && old(left) <= left
    {
      hide View, After, Stock, Folded, Towards, AttrState.Holds, Skip, Further, Idle;
      TowardsSelf(Here(), c);
      ghost var m := 0;
      FurtherNone(left, right);
      while right != [] && Idle(right[0], c)
        invariant Valid() && All() == old(All())
        invariant Further(old(left), old(right), m, left, right)
        invariant Skip(old(right), c) == m + Skip(right, c)
        invariant Text() == old(Text()) && View(right, Here()) == View(old(right), old(Here()))
        invariant Towards(old(Here()), Here(), c)
        decreases |right|
      {
        SkipHead(right, c);
        FurtherNext(old(left), old(right), m, left, right);
        PassIdle(c, old(Here()));
        m := m + 1;
      }
      SkipEnd(right, c);
      FurtherMeans(old(left), old(right), m, left, right);
    }

    /** Passes a deleted item or a marker that sets what is wanted. */
    method PassIdle(c: Change, ghost o: Attrs)
      requires Valid() && right != [] && Idle(right[0], c) && Towards(o, Here(), c)
      modifies this
      ensures Valid() && left == old(left) + [old(right)[0]] && right == old(right)[1..]
      ensures Text() == old(Text()) && View(right, Here()) == View(old(right), old(Here()))
      ensures Towards(o, Here(), c) && All() == old(All())
    {
      hide View, After, Stock, Folded, Towards, Put, Get, AttrState.Holds, AttrState.Valid;
      var n := right[0];
      ViewOne(left, n, map[]);
      ViewHead(right, Here());
      if !n.deleted {
        TowardsPut(o, Here(), c, n.content.key);
      }
      Forward();
    }

    /** Opens a marker for one key if its value differs. */
    method OpenMark(key: Key, c: Change, negated: AttrState, ghost keys: set<Key>, ghost o: Attrs)
      returns (negated': AttrState)
      requires Valid() && negated.Valid() && Remembers(o, Here(), negated.vals) && Opened(Here(), negated.vals, keys, c)
      modifies this
      ensures Valid() && right == old(right) && negated'.Valid() && Text() == old(Text())
      ensures Remembers(o, Here(), negated'.vals) && Opened(Here(), negated'.vals, keys + {key}, c)
      ensures |left| - |negated'.keys| == |old(left)| - |negated.keys|
      ensures (forall k :: k in negated.vals ==> negated.vals[k] != Want(c, k)) ==>
                forall k :: k in negated'.vals ==> negated'.vals[k] != Want(c, k)
      ensures All() == old(All()) && old(left) <= left
    {
      hide View, After, Stock, Folded;
      negated' := negated;
      var curVal := Want(cur.vals, key);
      assert curVal == Get(Here(), key);
      if curVal != Want(c, key) {
        assert key !in negated.vals;
        OpenKey(o, Here(), negated.vals, keys, c, key);
        hide Remembers, Opened, AttrState.Holds;
        negated' := negated.Set(key, curVal);
        InsertMark(key, Want(c, key));
      }
    }

    /** Opens a marker for each key whose value differs; `negated` holds the values before. */
    method InsertAttributes(keys: seq<Key>, c: Change) returns (negated: AttrState)
      requires Valid()
      modifies this
      ensures Valid() && right == old(right) && negated.Valid() && Text() == old(Text())
      ensures Remembers(old(Here()), Here(), negated.vals)
      ensures Opened(Here(), negated.vals, KeySet(keys), c)
      ensures |left| == |old(left)| + |negated.keys| && forall k :: k in negated.vals ==> negated.vals[k] != Want(c, k)
      ensures All() == old(All()) && old(left) <= left
    {
      negated := AttrState([], map[]);
      var i := 0;
      hide View, After, Stock, Folded;
      while i < |keys|
        invariant All() == old(All()) && old(left) <= left
        invariant 0 <= i <= |keys|
        invariant Valid() && right == old(right) && negated.Valid() && Text() == old(Text())
        invariant Remembers(old(Here()), Here(), negated.vals)
        invariant Opened(Here(), negated.vals, KeySet(keys[..i]), c)
        invariant |left| == |old(left)| + |negated.keys| && forall k :: k in negated.vals ==>
                    negated.vals[k] != Want(c, k)
      {
        assert KeySet(keys[..i + 1]) == KeySet(keys[..i]) + {keys[i]} by {
          assert keys[..i + 1] == keys[..i] + [keys[i]];
        }
        hide Remembers, Opened, AttrState.Holds;
        negated := OpenMark(keys[i], c, negated, KeySet(keys[..i]), old(Here()));
        i := i + 1;
      }
      assert keys[..i] == keys;
    }

    /** Restores the remembered values: what follows reads as if `o` were in effect at the cursor. */
    method InsertNegated(negated0: AttrState, ghost o: Attrs)
      requires Valid() && negated0.Valid() && Remembers(o, Here(), negated0.vals)
      modifies this
      ensures Valid() && Text() == old(Text()) && View(right, Here()) == View(old(right), o)
      ensures View(left + right, map[]) == old(Text()) + View(old(right), o)
      ensures var (m, rest) := Closed(old(right), negated0);
              exists l :: Further(old(left), old(right), m, l, right) && left == l + Marks(rest, |rest.keys|)
      ensures All() == old(All()) && old(left) <= left
    {
      var negated := negated0;
      ghost var o', m := o, 0;
      hide View, After, Stock, Folded, Remembers, Put, Get, AttrState.Holds, AttrState.Valid, Closed, Marks,
        Further;
      FurtherNone(left, right);
      while right != []
        invariant Further(old(left), old(right), m, left, right)
        invariant negated.Valid()
        invariant Closed(old(right), negated0) == (m + Closed(right, negated).0, Closed(right, negated).1)
        invariant All() == old(All())
        invariant Valid() && negated.Valid() && Remembers(o', Here(), negated.vals)
        invariant Text() == old(Text()) && View(right, o') == View(old(right), o)
        decreases |right|
      {
        var n := right[0];
        ViewOne(left, n, map[]);
        ViewHead(right, o');
        ClosedHead(right, negated);
        FurtherNext(old(left), old(right), m, left, right);
        if n.deleted {
          Forward();
          m := m + 1;
          continue;
        }
        if n.content.Mark? {
          var key := n.content.key;
          if key in negated.vals && negated.vals[key] == n.content.val {
            RememberSame(o', Here(), negated.vals, key);
            o' := Put(o', key, n.content.val);
            negated := negated.Del(key);
            Forward();
            m := m + 1;
            continue;
          }
        }
        break;
      }
      if right == [] { ClosedEnd(negated); }
      FurtherMeans(old(left), old(right), m, left, right);
      RestoreAll(negated, o');
      ViewConcat(left, right, map[]);
    }

    /** Inserts a marker for every remembered value. */
    method RestoreAll(negated: AttrState, ghost o: Attrs)
      requires Valid() && negated.Valid() && Remembers(o, Here(), negated.vals)
      modifies this
      ensures Valid() && right == old(right) && Text() == old(Text()) && Here() == o
      ensures left == old(left) + Marks(negated, |negated.keys|)
      ensures All() == old(All()) && old(left) <= left
    {
      hide View, After, Stock, Folded, Restored, Put, Get, AttrState.Holds, Marks, AttrState.Valid, AttrState.Apply,
        Remembers;
      var i := 0;
      RestoredNone(o, Here(), negated);
      NoMarks(left, negated);
      while i < |negated.keys|
        invariant All() == old(All())
        invariant 0 <= i <= |negated.keys|
        invariant Valid() && right == old(right) && Text() == old(Text())
        invariant Restored(o, Here(), negated, i) && left == old(left) + Marks(negated, i)
      {
        var key := negated.keys[i];
        KeyThere(negated, i);
        RestoreKey(o, Here(), negated, i);
        MarksNext(negated, i);
        AssocNodes(old(left), Marks(negated, i), [Node(Mark(key, negated.vals[key]), false)]);
        InsertMark(key, negated.vals[key]);
        i := i + 1;
      }
      RestoredAll(o, Here(), negated);
      PrefixOf(old(left), Marks(negated, i));
    }

    /**
      Formats the next `length` units: exactly they take the change, every other unit
      keeps its attributes and no unit is added, removed or moved.  The cursor ends behind
      them, unless there is nothing to do.
    */
    method ApplyFormat(length: int, keys: seq<Key>, c: Change)
      requires Valid() && forall k :: k in keys <==> k in c
      modifies this
      ensures Valid()
      ensures var v := View(old(right), old(Here()));
              var n := if c == map[] then 0 else Clamp(length, |v|);
              Text() == old(Text()) + Restyled(v[..n], length, c) && View(right, Here()) == v[n..]
      ensures c != map[] && length > 0 ==> old(left) + old(right)[..Skip(old(right), c)] <= left
      ensures View(left + right, map[]) == old(Text()) + Restyled(View(old(right), old(Here())), length, c)
      ensures All() == old(All()) && old(left) <= left
    {
      ghost var text, v := Text(), View(right, Here());
      hide View, After, Stock, Folded, Remembers, Opened, Put, Get, Restyled, Styled, Overridden, AttrState.Holds,
        AttrState.Valid;
      if c == map[] || length <= 0 {
        ViewConcat(left, right, map[]);
        NoChange(v, length, c);
        RestyledEmpty(length, c);
        assert v[..0] == [] && v[0..] == v && text + [] == text;
        return;
      }
      Minimize(c);
      ghost var o := Here();
      var negated := InsertAttributes(keys, c);
      assert KeySet(keys) == c.Keys;
      ghost var passed;
      negated, o, passed := FormatRange(length, negated, c, o);
      ghost var rest := View(right, o);
      RestyledConcat(passed, rest, length, c);
      ViewEmpty(o);
      assert Restyled(rest, length - |passed|, c) == rest by {
        if |passed| < length { RestyledEmpty(length - |passed|, c); } else { RestyledNone(rest, length - |passed|, c); }
      }
      assert |passed| == Clamp(length, |v|) && v[..|passed|] == passed && v[|passed|..] == rest;
      InsertNegated(negated, o);
      Assoc(text, Restyled(passed, length, c), rest);
    }

    /**
      Inserts units that carry exactly the attributes asked for.  Every attribute in effect
      at the cursor that is not asked for is cleared for them and restored after them.
    */
    method InsertText(units: seq<Unit>, keys0: seq<Key>, c: Change) returns (ghost k: nat)
      requires Valid() && forall k :: k in keys0 <==> k in c
      modifies this
      ensures Valid() && Text() == old(Text()) + Styled(units, Overridden(map[], c))
      ensures View(right, Here()) == View(old(right), old(Here()))
      ensures View(left + right, map[]) ==
              old(Text()) + Styled(units, Overridden(map[], c)) + View(old(right), old(Here()))
      ensures k <= |old(All())| && All() == old(All())[..k] + units + old(All())[k..]
      ensures var skipped := old(left) + old(right)[..Skip(old(right), c)]; skipped <= left && k == |Stock(skipped)|
    {
      var keys := AllKeys(keys0, c);
      ghost var text, a := Text(), Here();
      hide View, After, Stock, Folded;
      Minimize(c);
      ghost var o := Here();
      var negated := InsertAttributes(keys, c);
      ExactlyWanted(a, o, Here(), negated.vals, KeySet(keys), c);
      hide Remembers, Opened, Put, Get, Styled, Overridden, AttrState.Holds, AttrState.Valid;
      ViewOne(left, Node(Run(units), false), map[]);
      k := |Stock(left)|;
      StockInsert(left, units, right);
      right := [Node(Run(units), false)] + right;
      Forward();
      InsertNegated(negated, o);
    }

    /** Deletes the next `length` units; markers are passed and the cursor keeps its position. */
    method DeleteNext(length: int)
      requires Valid()
      modifies this
      ensures Valid() && Text() == old(Text())
      ensures var v := View(old(right), old(Here())); View(right, Here()) == v[Clamp(length, |v|)..]
      ensures All() == old(All()) && old(left) <= left
    {
      var count := length;
      ghost var v, passed := View(right, Here()), 0;
      hide View, After, Stock, Folded, AttrState.Holds, AttrState.Valid;
      while right != [] && count > 0
        invariant All() == old(All()) && old(left) <= left
        invariant Valid() && Text() == old(Text()) && passed <= |v| && View(right, Here()) == v[passed..]
        invariant if length <= 0 then count == length && passed == 0 else count >= 0 && passed == length - count
        decreases |right| + (if count > 0 then 1 else 0)
      {
        ghost var before := View(right, Here());
        ghost var gone;
        count, gone := DeleteOne(count);
        assert before[gone..] == v[passed + gone..];
        passed := passed + gone;
      }
      ViewEmpty(Here());
    }

    /** Deletes one item, or the part of a run that is still in the range; passes anything else. */
    method DeleteOne(count: nat) returns (count': nat, ghost gone: nat)
      requires Valid() && right != [] && count > 0
      modifies this
      ensures Valid() && Text() == old(Text()) && count' + gone == count
      ensures var v := View(old(right), old(Here())); gone <= |v| && View(right, Here()) == v[gone..]
      ensures |right| + (if count' > 0 then 1 else 0) < |old(right)| + 1
      ensures All() == old(All()) && old(left) <= left
    {
      hide View, After, Stock, Folded, AttrState.Holds, AttrState.Valid;
      ViewHead(right, Here());
      var m := right[0];
      count', gone := count, 0;
      if !m.deleted && m.content.Run? {
        var units := m.content.units;
        if count < |units| {
          var a, b := Node(Run(units[..count]), false), Node(Run(units[count..]), false);
          SplitShown(m, a, b, right[1..], Here());
          StockSplit(m, count, right[1..]);
          assert [m] + right[1..] == right;
          right := [a, b] + right[1..];
          ViewHead(right, Here());
        }
        m := right[0];
        gone := |m.content.units|;
        count' := count - |m.content.units|;
        StockDelete(right);
        right := [m.(deleted := true)] + right[1..];
      }
      ViewOne(left, right[0], map[]);
      Forward();
    }

    /** The keys asked for, then the other keys in effect at the cursor. */
    method AllKeys(keys0: seq<Key>, c: Change) returns (keys: seq<Key>)
      requires Valid() && forall k :: k in keys0 <==> k in c
      ensures forall k :: k in keys <==> k in c || k in Here()
    {
      keys := keys0;
      var i := 0;
      while i < |cur.keys|
        invariant 0 <= i <= |cur.keys|
        invariant forall k :: k in keys <==> k in c || k in cur.keys[..i]
      {
        assert cur.keys[..i + 1] == cur.keys[..i] + [cur.keys[i]];
        if cur.keys[i] !in c {
          keys := keys + [cur.keys[i]];
        }
        i := i + 1;
      }
      assert cur.keys[..i] == cur.keys;
      forall k
        ensures k in keys <==> k in c || k in Here()
      {
        assert Want(cur.vals, k) == Get(Here(), k);
      }
    }

    /** Moves forward by `n` units, or to the end. */
    method Advance(n: int)
      requires Valid()
      modifies this
      ensures Valid()
      ensures old(Text()) + View(old(right), old(Here())) == Text() + View(right, Here())
      ensures |Text()| == |old(Text())| + (if n <= 0 then 0 else Min(n, |View(old(right), old(Here()))|))
      ensures n <= 0 ==> left == old(left)
      ensures (left, right) == Advanced(old(left), old(right), n)
      ensures 0 < n <= |View(old(right), old(Here()))| ==> Text()[|Text()| - 1].attrs == Here()
      ensures All() == old(All()) && old(left) <= left
    {
      var count := n;
      ghost var total := Text() + View(right, Here());
      ghost var before := |Text()|;
      hide View, After, Stock, AttrState.Holds, AttrState.Valid, Advanced, Folded;
      while right != [] && count > 0
        invariant All() == old(All()) && old(left) <= left
        invariant Valid() && total == Text() + View(right, Here())
        invariant Advanced(left, right, count) == Advanced(old(left), old(right), n)
        invariant n <= 0 ==> count == n && |Text()| == before
        invariant n > 0 ==> count >= 0 && |Text()| == before + n - count
        invariant n <= 0 ==> left == old(left)
        invariant 0 == count < n ==> |Text()| > 0 && Text()[|Text()| - 1].attrs == Here()
        decreases |right| + (if count > 0 then 1 else 0)
      {
        count := AdvanceOne(count);
      }
      AdvancedDone(left, right, count);
      ViewEmpty(Here());
    }

    /** Passes one item, or the part of a run that is still to be passed. */
    method AdvanceOne(count: nat) returns (count': nat)
      requires Valid() && right != [] && count > 0
      modifies this
      ensures Valid() && Text() + View(right, Here()) == old(Text()) + View(old(right), old(Here()))
      ensures count' <= count && |Text()| == |old(Text())| + count - count'
      ensures Advanced(left, right, count') == Advanced(old(left), old(right), count)
      ensures count' == 0 ==> |Text()| > 0 && Text()[|Text()| - 1].attrs == Here()
      ensures |right| + (if count' > 0 then 1 else 0) < |old(right)| + 1
      ensures All() == old(All()) && old(left) <= left
    {
      hide View, After, Stock, AttrState.Holds, AttrState.Valid, Advanced, Folded;
      AdvancedOne(left, right, count);
      ViewHead(right, Here());
      var m := right[0];
      count' := count;
      if !m.deleted && m.content.Run? {
        var units := m.content.units;
        if count < |units| {
          var a, b := Node(Run(units[..count]), false), Node(Run(units[count..]), false);
          SplitShown(m, a, b, right[1..], Here());
          StockSplit(m, count, right[1..]);
          assert [m] + right[1..] == right;
          ghost var rest := right[1..];
          right := [a, b] + right[1..];
          assert right[1..] == [b] + rest;
          ViewHead(right, Here());
        }
        count' := count - |right[0].content.units|;
      }
      ViewOne(left, right[0], map[]);
      Assoc(Text(), Shown(right[0], Here()), View(right[1..], Pass(Here(), right[0])));
      Forward();
    }

    /** Passes the items of the range. */
    method FormatRange(length: nat, negated0: AttrState, c: Change, ghost o0: Attrs)
      returns (negated: AttrState, ghost o: Attrs, ghost passed: seq<Char>)
      requires Valid() && negated0.Valid() && Remembers(o0, Here(), negated0.vals)
      requires Opened(Here(), negated0.vals, c.Keys, c)
      modifies this
      ensures Valid() && negated.Valid() && Remembers(o, Here(), negated.vals)
      ensures View(old(right), o0) == passed + View(right, o)
      ensures Text() == old(Text()) + Restyled(passed, length, c)
      ensures |passed| == length || (|passed| < length && right == [])
      ensures All() == old(All()) && old(left) <= left
    {
      var remaining := length;
      negated, o, passed := negated0, o0, [];
      ghost var text, v := Text(), View(right, o);
      RestyledEmpty(length, c);
      hide View, After, Stock, Folded, Remembers, Opened, Put, Get, Restyled, Styled, Overridden, AttrState.Holds,
        AttrState.Valid;
      while right != [] && (remaining > 0 || (negated.keys != [] && (right[0].deleted || right[0].content.Mark?)))
        invariant All() == old(All()) && old(left) <= left
        invariant Valid() && negated.Valid() && Remembers(o, Here(), negated.vals)
        invariant Opened(Here(), negated.vals, c.Keys, c)
        invariant |passed| + remaining == length
        invariant v == passed + View(right, o)
        invariant Text() == text + Restyled(passed, length, c)
        decreases |right| + (if remaining > 0 then 1 else 0)
      {
        var stop;
        ghost var shown;
        remaining, negated, stop, o, shown := FormatStep(remaining, negated, c, o);
        RestyledConcat(passed, shown, length, c);
        Assoc(text, Restyled(passed, length, c), Restyled(shown, length - |passed|, c));
        Assoc(passed, shown, View(right, o));
        passed := passed + shown;
        if stop {
          break;
        }
      }
    }

    /** Passes the next item of the range, or stops at a marker beyond it. */
    method FormatStep(remaining: nat, negated: AttrState, c: Change, ghost o: Attrs)
      returns (remaining': nat, negated': AttrState, stop: bool, ghost o': Attrs, ghost shown: seq<Char>)
      requires Valid() && negated.Valid() && Remembers(o, Here(), negated.vals)
      requires Opened(Here(), negated.vals, c.Keys, c)
      requires right != [] && (remaining > 0 || right[0].deleted || right[0].content.Mark?)
      modifies this
      ensures Valid() && negated'.Valid() && Remembers(o', Here(), negated'.vals)
      ensures Opened(Here(), negated'.vals, c.Keys, c)
      ensures |shown| + remaining' == remaining && (stop ==> remaining' == 0)
      ensures View(old(right), o) == shown + View(right, o')
      ensures Text() == old(Text()) + Restyled(shown, remaining, c)
      ensures !stop ==> |right| + (if remaining' > 0 then 1 else 0) < |old(right)| + (if remaining > 0 then 1 else 0)
      ensures All() == old(All()) && old(left) <= left
    {
      hide View, After, Stock, Folded, Remembers, Opened, Restyled, AttrState.Holds, AttrState.Valid;
      var n := right[0];
      stop := false;
      if n.deleted {
        ViewHead(right, o);
        ViewOne(left, n, map[]);
        RestyledEmpty(remaining, c);
        remaining', negated', o', shown := remaining, negated, o, [];
        Forward();
      } else if n.content.Mark? {
        negated', stop, o' := PassMark(remaining, negated, c, o);
        remaining', shown := remaining, [];
        RestyledEmpty(remaining, c);
      } else {
        remaining', shown := PassRun(remaining, negated, c, o);
        negated', o' := negated, o;
      }
    }

    /** A marker of a touched key is removed, its value remembered if it is another than wanted. */
    method PassMark(remaining: nat, negated: AttrState, c: Change, ghost o: Attrs)
      returns (negated': AttrState, stop: bool, ghost o': Attrs)
      requires Valid() && negated.Valid() && Remembers(o, Here(), negated.vals)
      requires Opened(Here(), negated.vals, c.Keys, c)
      requires right != [] && !right[0].deleted && right[0].content.Mark?
      modifies this
      ensures Valid() && negated'.Valid() && Remembers(o', Here(), negated'.vals)
      ensures Opened(Here(), negated'.vals, c.Keys, c)
      ensures View(old(right), o) == View(right, o') && Text() == old(Text())
      ensures if stop then remaining == 0 else |right| < |old(right)|
      ensures stop <==> old(right)[0].content.key in c && c[old(right)[0].content.key] != old(right)[0].content.val
                        && remaining == 0
      ensures stop ==> left == old(left) && right == old(right) && negated' == negated
      ensures !stop ==> var n := old(right)[0];
                        && right == old(right)[1..]
                        && left == old(left) + [if n.content.key in c then n.(deleted := true) else n]
                        && negated' == if n.content.key !in c then negated
                                       else if c[n.content.key] == n.content.val then negated.Del(n.content.key)
                                       else negated.Set(n.content.key, n.content.val)
      ensures All() == old(All()) && old(left) <= left
    {
      hide View, After, Stock, Folded, Remembers, Opened, Put, Get, Shown, Pass, AttrState.Holds, AttrState.Valid;
      var key, val := right[0].content.key, right[0].content.val;
      MarkPassed(left, right, o);
      stop, negated', o' := false, negated, Put(o, key, val);
      if key !in c {
        RememberOther(o, Here(), negated.vals, c, key, val);
        KeepMark();
        return;
      }
      RememberRemoved(o, Here(), negated.vals, c, key, val);
      if c[key] == val {
        negated' := negated.Del(key);
      } else if remaining == 0 {
        stop, o' := true, o;
        return;
      } else {
        negated' := negated.Set(key, val);
      }
      DropMark();
    }

    /** Passes a marker, whose value is then in effect. */
    method KeepMark()
      requires Valid() && right != [] && !right[0].deleted && right[0].content.Mark?
      modifies this
      ensures Valid() && right == old(right)[1..] && Text() == old(Text())
      ensures Here() == Put(old(Here()), old(right)[0].content.key, old(right)[0].content.val)
      ensures left == old(left) + [old(right)[0]]
      ensures All() == old(All()) && old(left) <= left
    {
      MarkPassed(left, right, Here());
      hide View, After, Stock, Folded, Put, AttrState.Holds, AttrState.Valid;
      Forward();
    }

    /** Deletes a marker and passes it. */
    method DropMark()
      requires Valid() && right != [] && !right[0].deleted && right[0].content.Mark?
      modifies this
      ensures Valid() && right == old(right)[1..] && Text() == old(Text()) && Here() == old(Here())
      ensures left == old(left) + [old(right)[0].(deleted := true)]
      ensures All() == old(All()) && old(left) <= left
    {
      MarkPassed(left, right, Here());
      hide View, After, Stock, Folded, Put, AttrState.Holds, AttrState.Valid;
      StockDelete(right);
      right := [right[0].(deleted := true)] + right[1..];
      Forward();
    }

    /** A run is passed up to the end of the range, where it is cut. */
    method PassRun(remaining: nat, negated: AttrState, c: Change, ghost o: Attrs)
      returns (remaining': nat, ghost shown: seq<Char>)
      requires Valid() && Remembers(o, Here(), negated.vals) && Opened(Here(), negated.vals, c.Keys, c)
      requires right != [] && !right[0].deleted && right[0].content.Run? && remaining > 0
      modifies this
      ensures Valid() && Here() == old(Here())
      ensures |shown| + remaining' == remaining
      ensures View(old(right), o) == shown + View(right, o)
      ensures Text() == old(Text()) + Restyled(shown, remaining, c)
      ensures |right| < |old(right)| || (|right| == |old(right)| && remaining' == 0)
      ensures All() == old(All()) && old(left) <= left
    {
      InRange(o, Here(), negated.vals, c);
      hide View, After, Stock, Folded, Remembers, Opened, Get, Put, AttrState.Holds, AttrState.Valid, Restyled,
        Overridden;
      ViewHead(right, o);
      var units := right[0].content.units;
      if remaining < |units| {
        var a, b := Node(Run(units[..remaining]), false), Node(Run(units[remaining..]), false);
        SplitShown(right[0], a, b, right[1..], o);
        StockSplit(right[0], remaining, right[1..]);
        assert [right[0]] + right[1..] == right;
        right := [a, b] + right[1..];
        ViewHead(right, o);
      }
      shown := Styled(right[0].content.units, o);
      RestyledRun(right[0].content.units, o, remaining, c);
      ViewOne(left, right[0], map[]);
      remaining' := remaining - |right[0].content.units|;
      Forward();
    }
  }

  /** A marker, or one that is deleted, shows nothing; what is in effect behind it. */
  lemma MarkPassed(left: seq<Node>, right: seq<Node>, o: Attrs)
    requires right != [] && !right[0].deleted && right[0].content.Mark?
    ensures var n, a := right[0], After(left, map[]);
            var key, val := n.content.key, n.content.val;
            && View(right, o) == View(right[1..], Put(o, key, val))
            && View(left + [n], map[]) == View(left, map[]) && After(left + [n], map[]) == Put(a, key, val)
            && View(left + [n.(deleted := true)], map[]) == View(left, map[])
            && After(left + [n.(deleted := true)], map[]) == a
  {
    ViewHead(right, o);
    ViewOne(left, right[0], map[]);
    ViewOne(left, right[0].(deleted := true), map[]);
  }

  lemma AdvancedDone(left: seq<Node>, right: seq<Node>, count: int)
    requires right == [] || count <= 0
    ensures Advanced(left, right, count) == (left, right)
  {
  }

  lemma AdvancedOne(left: seq<Node>, right: seq<Node>, count: nat)
    requires right != [] && count > 0
    ensures var n, rest := right[0], right[1..];
            && (n.deleted || n.content.Mark? ==> Advanced(left, right, count) == Advanced(left + [n], rest, count))
            && (!n.deleted && n.content.Run? ==>
                  if count < |n.content.units| then
                    var a, b := Node(Run(n.content.units[..count]), false), Node(Run(n.content.units[count..]), false);
                    Advanced(left, right, count) == Advanced(left + [a], [b] + rest, 0)
                  else Advanced(left, right, count) == Advanced(left + [n], rest, count - |n.content.units|))
  {
  }

  lemma HoldsAfter(s: AttrState, a: Attrs, n: Node)
    requires s.Holds(a)
    ensures n.deleted || n.content.Run? ==> s.Holds(Pass(a, n))
    ensures !n.deleted && n.content.Mark? ==> s.Apply(n.content.key, n.content.val).Holds(Pass(a, n))
  {
    if !n.deleted && n.content.Mark? {
      HoldsApply(s, a, n.content.key, n.content.val);
    }
  }

  lemma NoChange(v: seq<Char>, length: int, c: Change)
    requires c == map[] || length <= 0
    ensures Restyled(v, length, c) == v
  {
    forall i | 0 <= i < |v|
      ensures Restyled(v, length, c)[i] == v[i]
    {
      if i < length {
        OverriddenAt(v[i].attrs, c);
        SameAttrs(Overridden(v[i].attrs, c), v[i].attrs);
      }
    }
  }

  lemma ViewEmpty(a: Attrs)
    ensures View([], a) == []
  {
  }

  /** Cutting a run in two does not show. */
  lemma SplitShown(n: Node, a: Node, b: Node, rest: seq<Node>, o: Attrs)
    requires !n.deleted && !a.deleted && !b.deleted && n.content.Run? && a.content.Run? && b.content.Run?
    requires n.content.units == a.content.units + b.content.units
    ensures View([n] + rest, o) == Styled(a.content.units, o) + View([b] + rest, o) == View([a, b] + rest, o)
  {
    assert ([n] + rest)[1..] == rest && ([b] + rest)[1..] == rest && ([a, b] + rest)[1..] == [b] + rest;
    assert Styled(n.content.units, o) == Styled(a.content.units, o) + Styled(b.content.units, o);
  }

  /** After the opening markers exactly the wanted attributes are in effect. */
  lemma ExactlyWanted(a: Attrs, o: Attrs, n: Attrs, negated: Change, keys: set<Key>, c: Change)
    requires forall k :: k in keys <==> k in c || k in a
    requires Towards(a, o, c) && Remembers(o, n, negated) && Opened(n, negated, keys, c)
    ensures n == Overridden(map[], c)
  {
    OverriddenAt(map[], c);
    forall k
      ensures Get(n, k) == Want(c, k) == Get(Overridden(map[], c), k)
    {
      assert Get(o, k) == Get(a, k) || Get(o, k) == Want(c, k);
    }
    SameAttrs(n, Overridden(map[], c));
  }

  lemma RestyledEmpty(n: int, c: Change)
    ensures Restyled([], n, c) == []
  {
  }

  lemma Assoc(x: seq<Char>, y: seq<Char>, z: seq<Char>)
    ensures (x + y) + z == x + (y + z)
  {
  }
}
