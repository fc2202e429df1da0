/**
  The attributes in effect after an item of a formatted text, kept for the next
  keystroke.  The kept state names a unit and the generation of the text's markers; it
  is used again for whatever item holds that unit, as long as no marker has come or gone.
*/
module StyleCache {
  import opened Base
  import opened RichText
  import opened TextEdits

  datatype Kept = Kept(id: Id, gen: nat, attrs: AttrState)

  predicate HasUnit(n: Node, id: Id) {
    n.content.Run? && exists i :: 0 <= i < |n.content.units| && n.content.units[i].id == id
  }

  predicate SomeHas(nodes: seq<Node>, id: Id) {
    exists k :: 0 <= k < |nodes| && HasUnit(nodes[k], id)
  }

  /** The attributes in effect just before item `k`, in the order they took effect; a run does not change them. */
  function Upto(nodes: seq<Node>, k: nat): (r: AttrState)
    requires k <= |nodes|
    ensures r.Valid()
  {
    Folded(nodes[..k])
  }

  lemma UptoIs(nodes: seq<Node>, k: nat)
    requires k <= |nodes|
    ensures Upto(nodes, k) == Folded(nodes[..k])
  {
  }

  lemma UptoNext(nodes: seq<Node>, k: nat)
    requires k < |nodes|
    ensures Upto(nodes, k + 1) == Fold(Upto(nodes, k), nodes[k])
  {
    assert nodes[..k + 1] == nodes[..k] + [nodes[k]];
    FoldedNext(nodes[..k], nodes[k]);
  }

  /** Every item that holds the unit has these attributes after it. */
  ghost predicate Right(nodes: seq<Node>, id: Id, attrs: AttrState) {
    SomeHas(nodes, id) && forall k :: 0 <= k < |nodes| && HasUnit(nodes[k], id) ==> attrs == Upto(nodes, k)
  }

  /** No unit is in two items or twice in one. */
  ghost predicate Unique(nodes: seq<Node>) {
    && (forall k {:trigger nodes[k]} :: 0 <= k < |nodes| ==> UniqueIn(nodes[k]))
    && (forall j, k, id {:trigger HasUnit(nodes[j], id), HasUnit(nodes[k], id)} ::
          0 <= j < |nodes| && 0 <= k < |nodes| && HasUnit(nodes[j], id) && HasUnit(nodes[k], id) ==> j == k)
  }

  ghost predicate UniqueIn(n: Node) {
    n.content.Run? ==> forall a, b :: 0 <= a < b < |n.content.units| ==> n.content.units[a].id != n.content.units[b].id
  }

  function Replaced(nodes: seq<Node>, p: nat, q: nat, mid: seq<Node>): (r: seq<Node>)
    requires p <= q <= |nodes|
    ensures |r| == |nodes| - (q - p) + |mid|
  {
    nodes[..p] + mid + nodes[q..]
  }

  /** Where an item of the new list comes from. */
  lemma ReplacedAt(nodes: seq<Node>, p: nat, q: nat, mid: seq<Node>, k: nat)
    requires p <= q <= |nodes| && k < |nodes| - (q - p) + |mid|
    ensures Replaced(nodes, p, q, mid)[k] ==
            if k < p then nodes[k] else if k < p + |mid| then mid[k - p] else nodes[k - |mid| - p + q]
  {
  }

  ghost predicate AllRuns(nodes: seq<Node>) {
    forall k :: 0 <= k < |nodes| ==> nodes[k].content.Run?
  }

  /** The same attributes are in effect in the new list, whatever runs have taken the place of whatever runs. */
  lemma {:induction false} UptoReplaced(nodes: seq<Node>, p: nat, q: nat, mid: seq<Node>, k: nat)
    requires p <= q <= |nodes| && AllRuns(mid) && AllRuns(nodes[p..q]) && k <= |nodes| - (q - p) + |mid|
    ensures Upto(Replaced(nodes, p, q, mid), k) ==
            if k < p then Upto(nodes, k) else if k <= p + |mid| then Upto(nodes, p)
            else Upto(nodes, k - |mid| - p + q)
    decreases k
  {
    hide Replaced, Upto;
    var t := Replaced(nodes, p, q, mid);
    if k <= p {
      ReplacedPrefix(nodes, p, q, mid, k);
      UptoSame(nodes, t, k);
    } else {
      UptoReplaced(nodes, p, q, mid, k - 1);
      UptoNext(t, k - 1);
      ReplacedAt(nodes, p, q, mid, k - 1);
      if k > p + |mid| {
        if k - 1 == p + |mid| { UptoRuns(nodes, p, q); }
        UptoNext(nodes, k - 1 - |mid| - p + q);
      }
    }
  }

  lemma ReplacedPrefix(nodes: seq<Node>, p: nat, q: nat, mid: seq<Node>, k: nat)
    requires k <= p <= q <= |nodes|
    ensures Replaced(nodes, p, q, mid)[..k] == nodes[..k]
  {
  }

  lemma UptoSame(nodes: seq<Node>, t: seq<Node>, k: nat)
    requires k <= |nodes| && k <= |t| && t[..k] == nodes[..k]
    ensures Upto(t, k) == Upto(nodes, k)
  {
  }

  lemma {:induction false} UptoRuns(nodes: seq<Node>, p: nat, q: nat)
    requires p <= q <= |nodes| && AllRuns(nodes[p..q])
    ensures Upto(nodes, q) == Upto(nodes, p)
    decreases q
  {
    if p < q {
      assert nodes[p..q][q - 1 - p] == nodes[q - 1];
      FewerRuns(nodes, p, q, q - 1);
      UptoRuns(nodes, p, q - 1);
      UptoNext(nodes, q - 1);
    }
  }

  lemma FewerRuns(nodes: seq<Node>, p: nat, q: nat, r: nat)
    requires p <= r <= q <= |nodes| && AllRuns(nodes[p..q])
    ensures AllRuns(nodes[p..r])
  {
    assert nodes[p..r] == nodes[p..q][..r - p];
  }

  /**
    Replacing runs by runs keeps what is known after a unit, if the new runs hold it only
    where the old ones did.
  */
  lemma ReplacedRight(nodes: seq<Node>, p: nat, q: nat, mid: seq<Node>, id: Id, attrs: AttrState)
    requires p <= q <= |nodes| && AllRuns(mid) && AllRuns(nodes[p..q]) && Right(nodes, id, attrs)
    requires SomeHas(mid, id) ==> SomeHas(nodes[p..q], id)
    requires SomeHas(nodes[p..q], id) ==> SomeHas(mid, id)
    ensures Right(Replaced(nodes, p, q, mid), id, attrs)
  {
    hide Upto, HasUnit, Replaced;
    var t := Replaced(nodes, p, q, mid);
    forall k | 0 <= k < |t| && HasUnit(t[k], id)
      ensures attrs == Upto(t, k)
    {
      UptoReplaced(nodes, p, q, mid, k);
      ReplacedAt(nodes, p, q, mid, k);
      if p <= k < p + |mid| {
        assert HasUnit(mid[k - p], id);
        var i :| 0 <= i < |nodes[p..q]| && HasUnit(nodes[p..q][i], id);
        FewerRuns(nodes, p, q, p + i);
        UptoRuns(nodes, p, p + i);
      } else if k == p + |mid| {
        UptoRuns(nodes, p, q);
      }
    }
    StillHas(nodes, p, q, mid, id);
  }

  lemma StillHas(nodes: seq<Node>, p: nat, q: nat, mid: seq<Node>, id: Id)
    requires p <= q <= |nodes| && SomeHas(nodes, id) && (SomeHas(nodes[p..q], id) ==> SomeHas(mid, id))
    ensures SomeHas(Replaced(nodes, p, q, mid), id)
  {
    hide HasUnit, Replaced;
    var t := Replaced(nodes, p, q, mid);
    var k :| 0 <= k < |nodes| && HasUnit(nodes[k], id);
    var k' := k;
    if p <= k < q {
      assert nodes[p..q][k - p] == nodes[k];
      var i :| 0 <= i < |mid| && HasUnit(mid[i], id);
      k' := p + i;
    } else if q <= k {
      k' := k - q + p + |mid|;
    }
    ReplacedAt(nodes, p, q, mid, k');
    assert HasUnit(t[k'], id);
  }

  class Styles {
    var nodes: seq<Node>
    /** Counts the markers that came and went. */
    var gen: nat
    var cache: Option<Kept>

    ghost predicate Valid()
      reads this
    {
      && Unique(nodes)
      && (cache.Some? ==> cache.value.gen <= gen && SomeHas(nodes, cache.value.id)
                          && (cache.value.gen == gen ==> Right(nodes, cache.value.id, cache.value.attrs)))
    }

    constructor ()
      ensures Valid() && nodes == []
    {
      nodes, gen, cache := [], 0, None;
    }

    /** The attributes in effect after item `k`, found by a walk only if they are not known. */
    method AttrsAfter(k: nat) returns (attrs: AttrState)
      requires Valid() && k < |nodes| && nodes[k].content.Run? && nodes[k].content.units != []
      modifies `cache
      ensures Valid() && attrs == Upto(nodes, k) == Upto(nodes, k + 1)
      ensures cache.Some? && cache.value.gen == gen && HasUnit(nodes[k], cache.value.id) && cache.value.attrs == attrs
    {
      UptoNext(nodes, k);
      if cache.Some? && cache.value.gen == gen && HasUnit(nodes[k], cache.value.id) {
        return cache.value.attrs;
      }
      attrs := WalkTo(k);
      Keep(k, attrs);
    }

    /** Keeps the attributes of item `k`. */
    method Keep(k: nat, attrs: AttrState)
      requires Unique(nodes) && k < |nodes| && nodes[k].content.Run? && nodes[k].content.units != []
      requires attrs == Upto(nodes, k)
      modifies `cache
      ensures Valid() && cache.Some? && cache.value.gen == gen && cache.value.attrs == attrs
      ensures HasUnit(nodes[k], cache.value.id)
    {
      var id := nodes[k].content.units[0].id;
      assert HasUnit(nodes[k], id);
      hide Upto;
      cache := Some(Kept(id, gen, attrs));
    }

    /** New text leaves the markers alone.  Its attributes are kept if they are known. */
    method InsertRun(q: nat, units: seq<Unit>, attrs: Option<AttrState>)
      requires Valid() && q <= |nodes| && units != [] && NewTo(nodes, units)
      requires attrs.Some? ==> attrs.value == Upto(nodes, q)
      modifies `nodes, `cache
      ensures Valid() && nodes == Replaced(old(nodes), q, q, [Node(Run(units), false)]) && gen == old(gen)
      ensures attrs.Some? ==> cache.Some? && cache.value.gen == gen && cache.value.attrs == attrs.value
    {
      var n := Node(Run(units), false);
      if cache.Some? {
        NewHasNot(nodes, q, n, cache.value.id);
        StillHas(nodes, q, q, [n], cache.value.id);
        if cache.value.gen == gen { ReplacedRight(nodes, q, q, [n], cache.value.id, cache.value.attrs); }
      }
      UniqueInsert(nodes, q, n);
      UptoReplaced(nodes, q, q, [n], q);
      ReplacedAt(nodes, q, q, [n], q);
      assert Replaced(nodes, q, q, [n]) == nodes[..q] + [n] + nodes[q..];
      hide Replaced, Upto, HasUnit, SomeHas, Unique, Right, UniqueIn;
      nodes := nodes[..q] + [n] + nodes[q..];
      if attrs.Some? {
        Keep(q, attrs.value);
      }
    }

    /** A new marker makes the kept value out of date. */
    method InsertMark(q: nat, n: Node)
      requires Valid() && q <= |nodes| && n.content.Mark?
      modifies `nodes, `gen
      ensures Valid() && nodes == Replaced(old(nodes), q, q, [n]) && gen == old(gen) + 1
    {
      if cache.Some? { StillHas(nodes, q, q, [n], cache.value.id); }
      UniqueInsert(nodes, q, n);
      nodes, gen := nodes[..q] + [n] + nodes[q..], gen + 1;
    }

    method Delete(k: nat)
      requires Valid() && k < |nodes| && !nodes[k].deleted
      modifies `nodes, `gen
      ensures Valid() && nodes == Replaced(old(nodes), k, k + 1, [old(nodes)[k].(deleted := true)])
      ensures gen == old(gen) + if old(nodes)[k].content.Mark? then 1 else 0
    {
      var n := nodes[k].(deleted := true);
      assert nodes[k..k + 1] == [nodes[k]];
      if cache.Some? {
        SameHolders(nodes[k..k + 1], [n], cache.value.id);
        StillHas(nodes, k, k + 1, [n], cache.value.id);
        if cache.value.gen == gen && nodes[k].content.Run? {
          ReplacedRight(nodes, k, k + 1, [n], cache.value.id, cache.value.attrs);
        }
      }
      UniqueDelete(nodes, k);
      if nodes[k].content.Mark? {
        gen := gen + 1;
      }
      nodes := nodes[..k] + [n] + nodes[k + 1..];
    }

    /** Cutting a run, or merging two, moves no marker. */
    method Regroup(p: nat, q: nat, mid: seq<Node>)
      requires Valid() && p <= q <= |nodes| && AllRuns(nodes[p..q]) && AllRuns(mid)
      requires forall id :: SomeHas(mid, id) <==> SomeHas(nodes[p..q], id)
      requires Unique(Replaced(nodes, p, q, mid))
      modifies `nodes
      ensures Valid() && nodes == Replaced(old(nodes), p, q, mid) && gen == old(gen)
    {
      if cache.Some? {
        StillHas(nodes, p, q, mid, cache.value.id);
        if cache.value.gen == gen { ReplacedRight(nodes, p, q, mid, cache.value.id, cache.value.attrs); }
      }
      assert Replaced(nodes, p, q, mid) == nodes[..p] + mid + nodes[q..];
      hide Replaced, Unique, SomeHas, Right;
      nodes := nodes[..p] + mid + nodes[q..];
    }

    /** Cuts a live run; nothing shows. */
    method Split(p: nat, n: nat)
      requires Valid() && p < |nodes| && IsLiveRun(nodes[p]) && 0 < n < |nodes[p].content.units|
      modifies `nodes
      ensures Valid() && gen == old(gen) && Live(nodes) == Live(old(nodes))
      ensures nodes == old(nodes)[..p] + [Front(old(nodes)[p], n), Back(old(nodes)[p], n)] + old(nodes)[p + 1..]
    {
      var a, b := Front(nodes[p], n), Back(nodes[p], n);
      assert nodes[p..p + 1] == [nodes[p]] && AllRuns([a, b]);
      CutHolders(nodes, p, n);
      CutUnique(nodes, p, n);
      CutLive(nodes, p, n);
      hide Unique, SomeHas, Right, Live;
      Regroup(p, p + 1, [a, b]);
    }

    /** The live item that reaches position `index`, and how many of its units lie before it. */
    method Neighbour(index: nat) returns (k: nat, n: nat)
      requires 0 < index <= |Live(nodes)|
      ensures k < |nodes| && Reaches(nodes, k, index) && n == index - |Live(nodes[..k])|
    {
      k := 0;
      var before := 0;
      assert nodes[..0] == [] && nodes[..|nodes|] == nodes;
      ViewEmpty(map[]);
      hide View, After;
      while true
        invariant 0 <= k <= |nodes| && before == |Live(nodes[..k])| < index
        decreases |nodes| - k
      {
        LiveNext(nodes, k);
        if IsLiveRun(nodes[k]) {
          if index <= before + |nodes[k].content.units| {
            n := index - before;
            return;
          }
          before := before + |nodes[k].content.units|;
        }
        k := k + 1;
      }
    }

    /**
      A cursor at a position.  With the attributes kept for the item that reaches it no walk
      over the markers is needed; the cursor is the one a walk from the start reaches.
    */
    method FindPos(index: int) returns (pos: Cursor)
      requires Valid()
      modifies `nodes
      ensures Valid() && gen == old(gen) && Live(nodes) == Live(old(nodes))
      ensures fresh(pos) && pos.Valid() && nodes == pos.left + pos.right
      ensures (pos.left, pos.right) == Advanced([], old(nodes), index)
    {
      hide View, After, Advanced, Unique, Right, Folded, AttrState.Holds, SomeHas, Live;
      var length := LiveLength(nodes);
      if 0 < index <= length {
        pos := FindInside(index);
        return;
      }
      AdvancedOutside(nodes, index);
      pos := TextEdits.FindPos(nodes, index);
    }

    method FindInside(index: nat) returns (pos: Cursor)
      requires Valid() && 0 < index <= |Live(nodes)|
      modifies `nodes
      ensures Valid() && gen == old(gen) && Live(nodes) == Live(old(nodes))
      ensures fresh(pos) && pos.Valid() && nodes == pos.left + pos.right
      ensures (pos.left, pos.right) == Advanced([], old(nodes), index)
    {
      hide View, After, Advanced, Unique, Right, Folded, AttrState.Holds, SomeHas, HasUnit, Upto, Live, CutIn, Reaches;
      var k, n := Neighbour(index);
      ReachesLive(nodes, k, index);
      AdvancedFromStart(nodes, k, index);
      var kept := cache.Some? && cache.value.gen == gen && HasUnit(nodes[k], cache.value.id);
      if kept {
        RightAt(nodes, cache.value.id, cache.value.attrs, k);
      }
      CutAfter(k, n);
      var attrs;
      if kept {
        attrs := cache.value.attrs;
      } else {
        attrs := WalkTo(k + 1);
      }
      pos := CursorAt(k + 1, index, attrs);
    }

    method CursorAt(k: nat, index: nat, attrs: AttrState) returns (pos: Cursor)
      requires k <= |nodes| && index == |Live(nodes[..k])| && attrs == Upto(nodes, k)
      ensures fresh(pos) && pos.Valid() && pos.left == nodes[..k] && pos.right == nodes[k..]
      ensures nodes == pos.left + pos.right
    {
      assert nodes == nodes[..k] + nodes[k..];
      pos := new Cursor.At(nodes[..k], nodes[k..], index, attrs);
    }

    /** Cuts a live item after `n` of its units, if it has more. */
    method CutAfter(k: nat, n: nat)
      requires Valid() && k < |nodes| && IsLiveRun(nodes[k]) && 0 < n <= |nodes[k].content.units|
      modifies `nodes
      ensures Valid() && gen == old(gen) && Live(nodes) == Live(old(nodes)) && k < |nodes|
      ensures |Live(nodes[..k + 1])| == |Live(old(nodes)[..k])| + n && Upto(nodes, k + 1) == Upto(old(nodes), k)
      ensures IsLiveRun(nodes[k]) && nodes[k].content.units != []
      ensures (nodes[..k + 1], nodes[k + 1..]) == CutIn(old(nodes), k, n)
      ensures forall id :: SomeHas(nodes, id) ==> SomeHas(old(nodes), id)
      ensures Stock(nodes) == Stock(old(nodes))
    {
      ghost var before := nodes;
      UptoNext(nodes, k);
      LiveNext(nodes, k);
      hide View, After, Unique, Right, Folded, SomeHas, HasUnit, Upto, Live, Stock;
      if n < |nodes[k].content.units| {
        LiveCut(nodes, k, n);
        CutStock(nodes, k, n);
        NoNewUnits(nodes, k, n);
        Split(k, n);
        CutUpto(before, nodes, k, n);
      }
    }

    /**
      Types text that takes over the attributes at a position.  It goes behind deleted items
      and markers that restate what is in effect; the attributes that had to be looked up
      for that are kept for the next keystroke.
    */
    method InsertInheriting(index: int, units: seq<Unit>) returns (ghost k: nat)
      requires Valid() && NewTo(nodes, units)
      modifies this
      ensures Valid() && gen == old(gen)
      ensures var v, at := old(Live(nodes)), OrEnd(index, |old(Live(nodes))|);
              Live(nodes) == v[..at] + Styled(units, if at == 0 then map[] else v[at - 1].attrs) + v[at..]
      ensures PutIn(old(Stock(nodes)), k, units, Stock(nodes))
      ensures units != [] ==> k == Anchor(old(nodes), OrEnd(index, |old(Live(nodes))|))
    {
      hide Live, View, After, Unique, Right, Folded, HasUnit, SomeHas, UniqueIn, Skipped, Replaced, Upto, NewTo;
      hide EndsAt, Styled, Stock, PutIn, Halts, WalkedTo, Anchor;
      NothingTyped(Live(nodes), index);
      k := 0;
      if units == [] {
        NothingPut(Stock(nodes));
        return;
      }
      var length := LiveLength(nodes);
      var at := OrEnd(index, length);
      var anchor := CutHere(at);
      NewStill(old(nodes), nodes, units);
      var q, attrs := SkipRestated(anchor + 1);
      SkippedSame(nodes, anchor + 1, q);
      InsertShows(old(Live(nodes)), nodes, anchor + 1, q, at, units);
      k := StockPut(nodes, q, units);
      AnchorHere(old(nodes), at, nodes, anchor + 1, q);
      InsertRun(q, units, attrs);
    }

    /** Makes an item end at position `at` and returns it, -1 for the head of the list. */
    method CutHere(at: nat) returns (anchor: int)
      requires Valid() && at <= |Live(nodes)|
      modifies `nodes
      ensures Valid() && gen == old(gen) && -1 <= anchor < |nodes|
      ensures anchor >= 0 ==> IsLiveRun(nodes[anchor]) && nodes[anchor].content.units != []
      ensures EndsAt(Live(old(nodes)), nodes, anchor + 1, at) && Stock(nodes) == Stock(old(nodes))
      ensures WalkedTo(old(nodes), at, nodes, anchor + 1)
      ensures forall id :: SomeHas(nodes, id) ==> SomeHas(old(nodes), id)
    {
      hide View, After, Unique, Right, SomeHas, Stock, Live, EndsAt, CutIn, Reaches, Upto, Advanced, WalkedTo;
      if at == 0 {
        EndsAtHead(nodes);
        WalkedNowhere(nodes);
        return -1;
      }
      var n;
      anchor, n := Neighbour(at);
      ReachesLive(nodes, anchor, at);
      AdvancedFromStart(nodes, anchor, at);
      CutAfter(anchor, n);
      WalkedBy(old(nodes), at, nodes, anchor + 1);
      EndsBehind(nodes, anchor, at);
    }

    /**
      Skips what stands between the items before `p`, which end in a run, and where text that
      follows them goes.  The attributes are looked up at the first live marker.
    */
    method SkipRestated(p: nat) returns (q: nat, attrs: Option<AttrState>)
      requires Valid() && p <= |nodes|
      requires p > 0 ==> nodes[p - 1].content.Run? && nodes[p - 1].content.units != []
      modifies `cache
      ensures Valid() && Skipped(nodes, p, q) && (attrs.Some? ==> attrs.value == Upto(nodes, q))
      ensures Halts(nodes, p, q)
    {
      q, attrs := p, None;
      SkippedNone(nodes, p);
      hide Unique, Right, Folded, Upto, SomeHas, HasUnit, Skipped, Want, Skip, Idle, Going, Halts;
      ghost var c := Upto(nodes, p).vals;
      GoingStart(nodes, p, c);
      var stop := false;
      while q < |nodes| && !stop
        invariant p <= q <= |nodes| && Valid() && Skipped(nodes, p, q)
        invariant attrs.Some? ==> attrs.value == Upto(nodes, p)
        invariant Going(nodes, p, q, c)
        invariant stop ==> q < |nodes| && !Idle(nodes[q], c)
        decreases |nodes| - q, !stop
      {
        stop, attrs := Stops(p, q, attrs);
        if !stop {
          GoingOn(nodes, p, q, c);
          SkipOne(nodes, p, q);
          q := q + 1;
        }
      }
      HaltsHere(nodes, p, q, c);
      SkippedSame(nodes, p, q);
    }

    /** Whether text goes before item `q`: a live run, or a marker that changes something. */
    method Stops(p: nat, q: nat, attrs0: Option<AttrState>) returns (stop: bool, attrs: Option<AttrState>)
      requires Valid() && p <= q < |nodes| && (attrs0.Some? ==> attrs0.value == Upto(nodes, p))
      requires p > 0 ==> nodes[p - 1].content.Run? && nodes[p - 1].content.units != []
      modifies `cache
      ensures Valid() && (attrs.Some? ==> attrs.value == Upto(nodes, p))
      ensures stop <==> !Idle(nodes[q], Upto(nodes, p).vals)
    {
      hide Unique, Right, Folded, Upto, SomeHas, HasUnit, Want;
      attrs, stop := attrs0, false;
      var n := nodes[q];
      if n.deleted {
        return;
      }
      if n.content.Run? {
        return true, attrs;
      }
      if attrs.None? {
        var found := Before(p - 1);
        attrs := Some(found);
      }
      stop := Want(attrs.value.vals, n.content.key) != n.content.val;
    }

    /** The attributes after an item, or at the head of the list. */
    method Before(anchor: int) returns (attrs: AttrState)
      requires Valid() && -1 <= anchor < |nodes|
      requires anchor >= 0 ==> nodes[anchor].content.Run? && nodes[anchor].content.units != []
      modifies `cache
      ensures Valid() && attrs == Upto(nodes, anchor + 1)
    {
      if anchor < 0 {
        assert nodes[..0] == [];
        return AttrState([], map[]);
      }
      attrs := AttrsAfter(anchor);
    }

    /** The attributes in effect before item `k`, by a walk from the start. */
    method WalkTo(k: nat) returns (attrs: AttrState)
      requires k <= |nodes|
      ensures attrs == Upto(nodes, k)
    {
      attrs := AttrState([], map[]);
      var i := 0;
      assert nodes[..0] == [];
      while i < k
        invariant 0 <= i <= k && attrs == Upto(nodes, i)
      {
        UptoNext(nodes, i);
        if nodes[i].content.Mark? && !nodes[i].deleted {
          attrs := attrs.Apply(nodes[i].content.key, nodes[i].content.val);
        }
        i := i + 1;
      }
    }
  }

  /** Units that are not in a list, none of them twice. */
  ghost predicate NewTo(nodes: seq<Node>, units: seq<Unit>) {
    && UniqueIn(Node(Run(units), false))
    && forall id :: HasUnit(Node(Run(units), false), id) ==> !SomeHas(nodes, id)
  }

  lemma NewStill(nodes: seq<Node>, nodes': seq<Node>, units: seq<Unit>)
    requires NewTo(nodes, units) && forall id :: SomeHas(nodes', id) ==> SomeHas(nodes, id)
    ensures NewTo(nodes', units)
  {
  }

  lemma NothingPut(s: seq<Unit>)
    ensures PutIn(s, 0, [], s)
  {
  }

  lemma StockPut(nodes: seq<Node>, q: nat, units: seq<Unit>) returns (k: nat)
    requires q <= |nodes|
    ensures PutIn(Stock(nodes), k, units, Stock(Replaced(nodes, q, q, [Node(Run(units), false)])))
    ensures k == |Stock(nodes[..q])|
  {
    hide Stock, PutIn;
    k := StockSkip(nodes[..q], nodes[q..], 0, units);
    StockConcat(nodes[..q], nodes[q..]);
    assert nodes[q..][..0] == [] && nodes[q..][0..] == nodes[q..] && nodes[..q] + [] == nodes[..q];
    assert nodes == nodes[..q] + nodes[q..];
  }

  /** A walk to a position cuts the list like this. */
  ghost predicate WalkedTo(before: seq<Node>, at: nat, nodes: seq<Node>, p: nat) {
    p <= |nodes| && (nodes[..p], nodes[p..]) == Advanced([], before, at)
  }

  lemma WalkedNowhere(nodes: seq<Node>)
    ensures WalkedTo(nodes, 0, nodes, 0)
  {
    AdvancedDone([], nodes, 0);
    assert nodes[..0] == [] && nodes[0..] == nodes;
  }

  lemma WalkedBy(before: seq<Node>, at: nat, nodes: seq<Node>, p: nat)
    requires p <= |nodes| && (nodes[..p], nodes[p..]) == Advanced([], before, at)
    ensures WalkedTo(before, at, nodes, p)
  {
  }

  /** Item `q` is the first from `p` on that is neither deleted nor restates what is in effect. */
  ghost predicate Halts(nodes: seq<Node>, p: nat, q: nat) {
    p <= |nodes| && q == p + Skip(nodes[p..], Upto(nodes, p).vals)
  }

  lemma HaltsHere(nodes: seq<Node>, p: nat, q: nat, c: Change)
    requires Going(nodes, p, q, c) && (q == |nodes| || !Idle(nodes[q], c)) && c == Upto(nodes, p).vals
    ensures Halts(nodes, p, q)
  {
    hide Skip, Idle, Upto;
    SkipFrom(nodes, q, c);
  }

  lemma AnchorHere(before: seq<Node>, at: nat, nodes: seq<Node>, p: nat, q: nat)
    requires WalkedTo(before, at, nodes, p) && Halts(nodes, p, q)
    ensures q <= |nodes| && Anchor(before, at) == |Stock(nodes[..q])|
  {
    var l, r := nodes[..p], nodes[p..];
    FoldedHolds(l);
    hide Stock, Skip, Advanced, After, Folded;
    SkipSame(r, Upto(nodes, p).vals, AsChange(After(l, map[])));
    AnchorIs(before, at, l, r, q - p);
    assert l + r[..q - p] == nodes[..q];
  }

  lemma CutStock(nodes: seq<Node>, p: nat, n: nat)
    requires p < |nodes| && IsLiveRun(nodes[p]) && n <= |nodes[p].content.units|
    ensures Stock(nodes[..p] + [Front(nodes[p], n), Back(nodes[p], n)] + nodes[p + 1..]) == Stock(nodes)
  {
    var x, rest, mid := nodes[..p], nodes[p + 1..], [Front(nodes[p], n), Back(nodes[p], n)];
    hide Stock;
    StockSplit(nodes[p], n, rest);
    StockConcat(x, mid + rest);
    StockConcat(x, [nodes[p]] + rest);
    MidParts(nodes, p, mid);
  }

  lemma MidParts(nodes: seq<Node>, p: nat, mid: seq<Node>)
    requires p < |nodes|
    ensures nodes[..p] + mid + nodes[p + 1..] == nodes[..p] + (mid + nodes[p + 1..])
    ensures nodes == nodes[..p] + ([nodes[p]] + nodes[p + 1..])
  {
  }

  lemma NothingTyped(v: seq<Char>, index: int)
    ensures forall a :: v == v[..OrEnd(index, |v|)] + Styled([], a) + v[OrEnd(index, |v|)..]
  {
  }

  /** The items from `p` to `q` show nothing and change no attribute. */
  ghost predicate Skipped(nodes: seq<Node>, p: nat, q: nat) {
    && p <= q <= |nodes| && Upto(nodes, q) == Upto(nodes, p)
    && var a := After(nodes[..p], map[]);
       View(nodes[p..q], a) == [] && After(nodes[p..q], a) == a
  }

  /** The items before `p` show what `v` has before position `at`, the others the rest of it. */
  ghost predicate EndsAt(v: seq<Char>, nodes: seq<Node>, p: nat, at: nat) {
    && p <= |nodes| && at <= |v|
    && var left, right := nodes[..p], nodes[p..];
       && Live(left) == v[..at] && View(right, After(left, map[])) == v[at..]
       && After(left, map[]) == if at == 0 then map[] else v[at - 1].attrs
  }

  lemma SkippedNone(nodes: seq<Node>, p: nat)
    requires p <= |nodes|
    ensures Skipped(nodes, p, p)
  {
    var a := After(nodes[..p], map[]);
    assert nodes[p..p] == [] && After([], a) == a && View([], a) == [];
  }

  lemma SkippedSame(nodes: seq<Node>, p: nat, q: nat)
    requires Skipped(nodes, p, q)
    ensures p <= q <= |nodes| && Upto(nodes, q) == Upto(nodes, p)
  {
  }

  lemma SkipOne(nodes: seq<Node>, p: nat, q: nat)
    requires Skipped(nodes, p, q) && q < |nodes|
    requires Idle(nodes[q], Upto(nodes, p).vals)
    ensures Skipped(nodes, p, q + 1)
  {
    hide View, After, Folded, AttrState.Holds, Upto, Fold, Pass, Shown;
    var a, n := After(nodes[..p], map[]), nodes[q];
    FoldedHolds(nodes[..p]);
    UptoIs(nodes, p);
    SliceNext(nodes, p, q);
    ViewOne(nodes[p..q], n, a);
    UptoNext(nodes, q);
    if n.deleted { DeadPasses(Upto(nodes, p), a, n); } else { Restates(Upto(nodes, p), a, n); }
    ShowsNothing(n, a);
  }

  lemma SliceNext(nodes: seq<Node>, p: nat, q: nat)
    requires p <= q < |nodes|
    ensures nodes[p..q + 1] == nodes[p..q] + [nodes[q]]
  {
  }

  lemma DeadPasses(s: AttrState, a: Attrs, n: Node)
    requires n.deleted && s.Valid()
    ensures Fold(s, n) == s && Pass(a, n) == a
  {
  }

  lemma ShowsNothing(n: Node, a: Attrs)
    requires n.deleted || n.content.Mark?
    ensures Shown(n, a) == []
  {
  }

  lemma InsertShows(v: seq<Char>, nodes: seq<Node>, p: nat, q: nat, at: nat, units: seq<Unit>)
    requires EndsAt(v, nodes, p, at) && Skipped(nodes, p, q)
    ensures at <= |v| && Live(Replaced(nodes, q, q, [Node(Run(units), false)])) ==
            v[..at] + Styled(units, if at == 0 then map[] else v[at - 1].attrs) + v[at..]
  {
    hide Live, View, After, Styled, Upto;
    var left, right := nodes[..p], nodes[p..];
    assert right[..q - p] == nodes[p..q] && left + right[..q - p] == nodes[..q] && right[q - p..] == nodes[q..];
    InsertAfterSkip(left, right, q - p, units);
  }

  /** A marker that restates what is in effect changes nothing, not even the order of the attributes. */
  lemma Restates(s: AttrState, a: Attrs, n: Node)
    requires s.Holds(a) && !n.deleted && n.content.Mark? && Want(s.vals, n.content.key) == n.content.val
    ensures Fold(s, n) == s && Pass(a, n) == a
  {
    SameAttrs(Put(a, n.content.key, n.content.val), a);
    assert n.content.val.Some? ==> s.vals[n.content.key := n.content.val] == s.vals;
  }

  lemma NoNewUnits(nodes: seq<Node>, p: nat, n: nat)
    requires p < |nodes| && IsLiveRun(nodes[p]) && n <= |nodes[p].content.units|
    ensures forall id :: SomeHas(nodes[..p] + [Front(nodes[p], n), Back(nodes[p], n)] + nodes[p + 1..], id) ==>
              SomeHas(nodes, id)
  {
    var t := nodes[..p] + [Front(nodes[p], n), Back(nodes[p], n)] + nodes[p + 1..];
    hide HasUnit;
    forall id | SomeHas(t, id)
      ensures SomeHas(nodes, id)
    {
      var k :| 0 <= k < |t| && HasUnit(t[k], id);
      CutHas(nodes[p], n, id);
      assert HasUnit(nodes[if k <= p then k else k - 1], id);
    }
  }

  /** A live item that ends at a position cuts what shows there, and its attributes are in effect. */
  lemma Ends(nodes: seq<Node>, k: nat, at: nat)
    requires k < |nodes| && IsLiveRun(nodes[k]) && nodes[k].content.units != [] && |Live(nodes[..k + 1])| == at
    ensures 0 < at <= |Live(nodes)| && Live(nodes[..k + 1]) == Live(nodes)[..at]
    ensures View(nodes[k + 1..], After(nodes[..k + 1], map[])) == Live(nodes)[at..]
    ensures After(nodes[..k + 1], map[]) == Live(nodes)[at - 1].attrs
  {
    assert nodes == nodes[..k + 1] + nodes[k + 1..] && nodes[..k + 1] == nodes[..k] + [nodes[k]];
    hide View, After;
    ViewConcat(nodes[..k + 1], nodes[k + 1..], map[]);
    ViewOne(nodes[..k], nodes[k], map[]);
  }

  lemma EndsAtHead(nodes: seq<Node>)
    ensures EndsAt(Live(nodes), nodes, 0, 0)
  {
    ViewEmpty(map[]);
    AfterEmpty();
    assert nodes[..0] == [] && nodes[0..] == nodes;
    hide View, After;
  }

  lemma EndsBehind(nodes: seq<Node>, k: nat, at: nat)
    requires k < |nodes| && IsLiveRun(nodes[k]) && nodes[k].content.units != [] && |Live(nodes[..k + 1])| == at
    ensures EndsAt(Live(nodes), nodes, k + 1, at)
  {
    hide View, After, Live;
    Ends(nodes, k, at);
  }

  function Front(m: Node, n: nat): Node
    requires m.content.Run? && n <= |m.content.units|
  {
    m.(content := Run(m.content.units[..n]))
  }

  function Back(m: Node, n: nat): Node
    requires m.content.Run? && n <= |m.content.units|
  {
    m.(content := Run(m.content.units[n..]))
  }

  /** Item `k` is live and reaches position `index`. */
  predicate Reaches(nodes: seq<Node>, k: nat, index: nat) {
    && k < |nodes| && IsLiveRun(nodes[k])
    && |Live(nodes[..k])| < index <= |Live(nodes[..k])| + |nodes[k].content.units|
  }

  lemma LiveNext(nodes: seq<Node>, k: nat)
    requires k <= |nodes|
    ensures k < |nodes| ==> |Live(nodes[..k + 1])| ==
                            |Live(nodes[..k])| + if IsLiveRun(nodes[k]) then |nodes[k].content.units| else 0
    ensures k == |nodes| ==> nodes[..k] == nodes
  {
    if k < |nodes| {
      assert nodes[..k + 1] == nodes[..k] + [nodes[k]];
      ViewOne(nodes[..k], nodes[k], map[]);
    }
  }

  lemma CutHas(m: Node, n: nat, id: Id)
    requires m.content.Run? && n <= |m.content.units|
    ensures HasUnit(m, id) <==> HasUnit(Front(m, n), id) || HasUnit(Back(m, n), id)
    ensures UniqueIn(m) ==> !(HasUnit(Front(m, n), id) && HasUnit(Back(m, n), id))
  {
    var us := m.content.units;
    if HasUnit(m, id) {
      var i :| 0 <= i < |us| && us[i].id == id;
      assert if i < n then us[..n][i].id == id else us[n..][i - n].id == id;
    }
    if HasUnit(Front(m, n), id) {
      var i :| 0 <= i < n && us[..n][i].id == id;
      assert us[i].id == id;
    }
    if HasUnit(Back(m, n), id) {
      var i :| 0 <= i < |us| - n && us[n..][i].id == id;
      assert us[i + n].id == id;
    }
  }

  lemma CutHolders(nodes: seq<Node>, p: nat, n: nat)
    requires p < |nodes| && nodes[p].content.Run? && n <= |nodes[p].content.units|
    ensures forall id :: SomeHas([Front(nodes[p], n), Back(nodes[p], n)], id) <==> SomeHas(nodes[p..p + 1], id)
  {
    var m, mid := nodes[p], [Front(nodes[p], n), Back(nodes[p], n)];
    assert nodes[p..p + 1] == [m];
    hide HasUnit;
    forall id
      ensures SomeHas(mid, id) <==> SomeHas([m], id)
    {
      CutHas(m, n, id);
      assert SomeHas([m], id) <==> HasUnit(m, id) by { assert [m][0] == m; }
      assert SomeHas(mid, id) <==> HasUnit(mid[0], id) || HasUnit(mid[1], id);
    }
  }

  lemma CutUnique(nodes: seq<Node>, p: nat, n: nat)
    requires Unique(nodes) && p < |nodes| && nodes[p].content.Run? && n <= |nodes[p].content.units|
    ensures Unique(Replaced(nodes, p, p + 1, [Front(nodes[p], n), Back(nodes[p], n)]))
  {
    var m, mid := nodes[p], [Front(nodes[p], n), Back(nodes[p], n)];
    var t := Replaced(nodes, p, p + 1, mid);
    assert UniqueIn(m);
    assert UniqueIn(mid[0]) && UniqueIn(mid[1]);
    hide HasUnit, UniqueIn, Replaced;
    forall k | 0 <= k < |t| ensures UniqueIn(t[k]) {
      ReplacedAt(nodes, p, p + 1, mid, k);
      if k > p + 1 { assert UniqueIn(nodes[k - 1]); }
      if k < p { assert UniqueIn(nodes[k]); }
    }
    forall j, k, id | 0 <= j < |t| && 0 <= k < |t| && HasUnit(t[j], id) && HasUnit(t[k], id)
      ensures j == k
    {
      ReplacedAt(nodes, p, p + 1, mid, j);
      ReplacedAt(nodes, p, p + 1, mid, k);
      CutHas(m, n, id);
      var j', k' := if j <= p then j else j - 1, if k <= p then k else k - 1;
      assert HasUnit(nodes[j'], id) && HasUnit(nodes[k'], id);
    }
  }

  lemma CutLive(nodes: seq<Node>, p: nat, n: nat)
    requires p < |nodes| && IsLiveRun(nodes[p]) && n <= |nodes[p].content.units|
    ensures Live(nodes[..p] + [Front(nodes[p], n), Back(nodes[p], n)] + nodes[p + 1..]) == Live(nodes)
  {
    var m, a, b, x, rest := nodes[p], Front(nodes[p], n), Back(nodes[p], n), nodes[..p], nodes[p + 1..];
    assert nodes == x + ([m] + rest) && x + [a, b] + rest == x + ([a, b] + rest);
    assert m.content.units == a.content.units + b.content.units;
    hide View, After;
    ViewConcat(x, [m] + rest, map[]);
    ViewConcat(x, [a, b] + rest, map[]);
    SplitShown(m, a, b, rest, After(x, map[]));
  }

  /** Up to the cut, a cut list shows the units before it. */
  lemma LiveCut(nodes: seq<Node>, k: nat, n: nat)
    requires k < |nodes| && IsLiveRun(nodes[k]) && n <= |nodes[k].content.units|
    ensures |Live(nodes[..k] + [Front(nodes[k], n)])| == |Live(nodes[..k])| + n
  {
    ViewOne(nodes[..k], Front(nodes[k], n), map[]);
  }

  lemma CutUpto(nodes: seq<Node>, t: seq<Node>, k: nat, n: nat)
    requires k < |nodes| && IsLiveRun(nodes[k]) && n <= |nodes[k].content.units|
    requires t == nodes[..k] + [Front(nodes[k], n), Back(nodes[k], n)] + nodes[k + 1..]
    ensures Upto(t, k + 1) == Upto(nodes, k) && t[..k + 1] == nodes[..k] + [Front(nodes[k], n)]
    ensures t[k + 1..] == [Back(nodes[k], n)] + nodes[k + 1..]
  {
    assert t[..k] == nodes[..k] && t[k] == Front(nodes[k], n);
    UptoNext(t, k);
  }

  /** A list in two parts: up to the `n`-th unit of item `k`, and from there on. */
  function CutIn(nodes: seq<Node>, k: nat, n: nat): (seq<Node>, seq<Node>)
    requires k < |nodes| && nodes[k].content.Run? && n <= |nodes[k].content.units|
  {
    if n < |nodes[k].content.units| then (nodes[..k] + [Front(nodes[k], n)], [Back(nodes[k], n)] + nodes[k + 1..])
    else (nodes[..k + 1], nodes[k + 1..])
  }

  /** A walk from any item before stops right behind the units that were asked for. */
  lemma {:induction false} AdvancedAt(nodes: seq<Node>, j: nat, k: nat, index: nat)
    requires j <= k && Reaches(nodes, k, index)
    ensures var n := index - |Live(nodes[..k])|;
            Advanced(nodes[..j], nodes[j..], index - |Live(nodes[..j])|) == CutIn(nodes, k, n)
    decreases k - j
  {
    var n, count := index - |Live(nodes[..k])|, index - |Live(nodes[..j])|;
    LiveGrows(nodes, j, k);
    assert nodes[j..][0] == nodes[j] && nodes[j..][1..] == nodes[j + 1..] && nodes[..j + 1] == nodes[..j] + [nodes[j]];
    LiveNext(nodes, j);
    hide Live, Advanced;
    AdvancedOne(nodes[..j], nodes[j..], count);
    if j == k {
      if n < |nodes[k].content.units| {
        AdvancedDone(nodes[..k] + [Front(nodes[k], n)], [Back(nodes[k], n)] + nodes[k + 1..], 0);
      } else {
        AdvancedDone(nodes[..k + 1], nodes[k + 1..], 0);
      }
    } else {
      LiveGrows(nodes, j + 1, k);
      AdvancedAt(nodes, j + 1, k, index);
    }
  }

  lemma AdvancedFromStart(nodes: seq<Node>, k: nat, index: nat)
    requires Reaches(nodes, k, index)
    ensures Advanced([], nodes, index) == CutIn(nodes, k, index - |Live(nodes[..k])|)
  {
    AdvancedAt(nodes, 0, k, index);
    assert nodes[..0] == [] && nodes[0..] == nodes;
    ViewEmpty(map[]);
  }

  /** A walk to a position that is not inside the text cuts nothing. */
  lemma AdvancedOutside(nodes: seq<Node>, index: int)
    requires index <= 0 || |Live(nodes)| < index
    ensures Advanced([], nodes, index) == if index <= 0 then ([], nodes) else (nodes, [])
    ensures [] + nodes == nodes + [] == nodes
  {
    if index > 0 {
      AdvancedPast(nodes, 0, index);
      assert nodes[..0] == [] && nodes[0..] == nodes;
      ViewEmpty(map[]);
    }
  }

  lemma {:induction false} AdvancedPast(nodes: seq<Node>, j: nat, index: nat)
    requires j <= |nodes| && |Live(nodes)| < index
    ensures Advanced(nodes[..j], nodes[j..], index - |Live(nodes[..j])|) == (nodes, [])
    decreases |nodes| - j
  {
    hide Live, Advanced;
    LiveNext(nodes, j);
    if j == |nodes| {
      assert nodes[j..] == [];
      AdvancedDone(nodes, [], index - |Live(nodes[..j])|);
    } else {
      assert nodes[j..][0] == nodes[j] && nodes[j..][1..] == nodes[j + 1..];
      assert nodes[..j + 1] == nodes[..j] + [nodes[j]];
      assert nodes[..|nodes|] == nodes;
      LiveGrows(nodes, j, |nodes|);
      LiveGrows(nodes, j + 1, |nodes|);
      AdvancedOne(nodes[..j], nodes[j..], index - |Live(nodes[..j])|);
      AdvancedPast(nodes, j + 1, index);
    }
  }

  lemma ReachesLive(nodes: seq<Node>, k: nat, index: nat)
    requires Reaches(nodes, k, index)
    ensures k < |nodes| && IsLiveRun(nodes[k]) && 0 < index - |Live(nodes[..k])| <= |nodes[k].content.units|
  {
  }

  lemma RightAt(nodes: seq<Node>, id: Id, attrs: AttrState, k: nat)
    requires Right(nodes, id, attrs) && k < |nodes| && HasUnit(nodes[k], id)
    ensures attrs == Upto(nodes, k)
  {
  }

  lemma {:induction false} LiveGrows(nodes: seq<Node>, j: nat, k: nat)
    requires j <= k <= |nodes|
    ensures |Live(nodes[..j])| <= |Live(nodes[..k])|
    decreases k
  {
    if j < k {
      LiveGrows(nodes, j, k - 1);
      LiveNext(nodes, k - 1);
    }
  }

  lemma SameHolders(x: seq<Node>, y: seq<Node>, id: Id)
    requires |x| == |y| == 1 && HasUnit(x[0], id) == HasUnit(y[0], id)
    ensures SomeHas(x, id) == SomeHas(y, id)
  {
  }

  lemma NewHasNot(nodes: seq<Node>, q: nat, n: Node, id: Id)
    requires q <= |nodes| && SomeHas(nodes, id) && forall i :: HasUnit(n, i) ==> !SomeHas(nodes, i)
    ensures !SomeHas([n], id) && !SomeHas(nodes[q..q], id)
  {
  }

  lemma UniqueInsert(nodes: seq<Node>, q: nat, n: Node)
    requires Unique(nodes) && q <= |nodes| && UniqueIn(n) && forall id :: HasUnit(n, id) ==> !SomeHas(nodes, id)
    ensures Unique(Replaced(nodes, q, q, [n]))
  {
    var t := Replaced(nodes, q, q, [n]);
    hide HasUnit, UniqueIn, Replaced;
    forall k | 0 <= k < |t| ensures UniqueIn(t[k]) { ReplacedAt(nodes, q, q, [n], k); }
    forall j, k, id | 0 <= j < |t| && 0 <= k < |t| && HasUnit(t[j], id) && HasUnit(t[k], id)
      ensures j == k
    {
      ReplacedAt(nodes, q, q, [n], j);
      ReplacedAt(nodes, q, q, [n], k);
      if j != q && k != q {
        var j', k' := if j < q then j else j - 1, if k < q then k else k - 1;
        assert HasUnit(nodes[j'], id) && HasUnit(nodes[k'], id);
      }
    }
  }

  lemma UniqueDelete(nodes: seq<Node>, k: nat)
    requires Unique(nodes) && k < |nodes|
    ensures Unique(Replaced(nodes, k, k + 1, [nodes[k].(deleted := true)]))
  {
    var t := Replaced(nodes, k, k + 1, [nodes[k].(deleted := true)]);
    forall i | 0 <= i < |t|
      ensures UniqueIn(t[i]) && forall id :: HasUnit(t[i], id) == HasUnit(nodes[i], id)
    {
      assert UniqueIn(nodes[i]);
    }
  }
}
