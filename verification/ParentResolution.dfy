/**
  Parents of merged structs.  A struct without a parent inherits it along its origin
  chain.  Origins come from the wire, so a chain may end, leave the merged set or run in
  a circle; circles are found with Brent's algorithm.
*/
module ParentResolution {
  import opened Base

  datatype Node = Node(parent: Option<Parent>, sub: Option<string>)

  /** The struct each struct refers to: its origin's, else its right origin's. */
  type Refs = seq<Option<nat>>

  predicate RefsOk(refs: Refs) {
    forall i :: 0 <= i < |refs| && refs[i].Some? ==> refs[i].value < |refs|
  }

  function Inherit(x: Node, from: Node): Node {
    Node(from.parent, if x.sub.None? then from.sub else x.sub)
  }

  /** What struct `i` inherits if a struct with a parent is at most `k` steps away. */
  function Lookup(nodes: seq<Node>, refs: Refs, i: nat, k: nat): Option<Node>
    requires RefsOk(refs) && i < |refs| == |nodes|
    decreases k
  {
    if nodes[i].parent.Some? then Some(nodes[i])
    else if k == 0 || refs[i].None? then None
    else
      match Lookup(nodes, refs, refs[i].value, k - 1)
      case None => None
      case Some(from) => Some(Inherit(nodes[i], from))
  }

  lemma {:induction false} LookupFurther(nodes: seq<Node>, refs: Refs, i: nat, k: nat, m: nat)
    requires RefsOk(refs) && i < |refs| == |nodes| && k <= m && Lookup(nodes, refs, i, k).Some?
    ensures Lookup(nodes, refs, i, m) == Lookup(nodes, refs, i, k)
    decreases k
  {
    if nodes[i].parent.None? {
      LookupFurther(nodes, refs, refs[i].value, k - 1, m - 1);
    }
  }

  ghost predicate Finds(nodes: seq<Node>, refs: Refs, i: nat, x: Node)
    requires RefsOk(refs) && i < |refs| == |nodes|
  {
    exists k: nat :: Lookup(nodes, refs, i, k) == Some(x)
  }

  /** No struct on the chain has a parent. */
  ghost predicate Hopeless(nodes: seq<Node>, refs: Refs, i: nat)
    requires RefsOk(refs) && i < |refs| == |nodes|
  {
    forall k: nat :: Lookup(nodes, refs, i, k).None?
  }

  /** What the struct should be at the end. */
  ghost predicate Settled(nodes: seq<Node>, refs: Refs, i: nat, x: Node)
    requires RefsOk(refs) && i < |refs| == |nodes|
  {
    Finds(nodes, refs, i, x) || (Hopeless(nodes, refs, i) && x == nodes[i])
  }

  /** There is one outcome, whatever the order of visits. */
  lemma OneOutcome(nodes: seq<Node>, refs: Refs, i: nat, x: Node, y: Node)
    requires RefsOk(refs) && i < |refs| == |nodes| && Settled(nodes, refs, i, x) && Settled(nodes, refs, i, y)
    ensures x == y
  {
    if Finds(nodes, refs, i, x) && Finds(nodes, refs, i, y) {
      var k: nat :| Lookup(nodes, refs, i, k) == Some(x);
      var m: nat :| Lookup(nodes, refs, i, m) == Some(y);
      if k <= m { LookupFurther(nodes, refs, i, k, m); } else { LookupFurther(nodes, refs, i, m, k); }
    }
  }

  /**
    What a struct ends up with, told by the struct it refers to.  Its own parent and its own
    key stay; a missing parent is the other one's, and with it a missing key.
  */
  ghost predicate HandedOn(nodes: seq<Node>, refs: Refs, now: seq<Node>, i: nat)
    requires RefsOk(refs) && i < |refs| == |nodes| == |now|
  {
    var x, y := nodes[i], now[i];
    if x.parent.Some? || refs[i].None? || now[refs[i].value].parent.None? then y == x
    else
      var z := now[refs[i].value];
      y.parent == z.parent && y.sub == if x.sub.Some? then x.sub else z.sub
  }

  lemma {:induction false} FoundHasParent(nodes: seq<Node>, refs: Refs, i: nat, k: nat)
    requires RefsOk(refs) && i < |refs| == |nodes|
    ensures Lookup(nodes, refs, i, k).Some? ==> Lookup(nodes, refs, i, k).value.parent.Some?
    decreases k
  {
    if nodes[i].parent.None? && k > 0 && refs[i].Some? {
      FoundHasParent(nodes, refs, refs[i].value, k - 1);
    }
  }

  lemma SettledHandsOn(nodes: seq<Node>, refs: Refs, now: seq<Node>, i: nat)
    requires RefsOk(refs) && i < |refs| == |nodes| == |now| && Settled(nodes, refs, i, now[i])
    requires refs[i].Some? ==> Settled(nodes, refs, refs[i].value, now[refs[i].value])
    ensures HandedOn(nodes, refs, now, i)
  {
    if nodes[i].parent.Some? {
      assert Lookup(nodes, refs, i, 0) == Some(nodes[i]);
      OneOutcome(nodes, refs, i, now[i], nodes[i]);
    } else if refs[i].None? {
      assert forall k: nat :: Lookup(nodes, refs, i, k).None?;
    } else {
      var j := refs[i].value;
      if Hopeless(nodes, refs, j) {
        forall k: nat
          ensures Lookup(nodes, refs, i, k).None?
        {
          if k > 0 { assert Lookup(nodes, refs, j, k - 1).None?; }
        }
        assert Lookup(nodes, refs, j, 0).None?;
      } else {
        var k: nat :| Lookup(nodes, refs, j, k) == Some(now[j]);
        FoundHasParent(nodes, refs, j, k);
        FindsThrough(nodes, refs, i, now[j]);
        OneOutcome(nodes, refs, i, now[i], Inherit(nodes[i], now[j]));
      }
    }
  }

  lemma FindsThrough(nodes: seq<Node>, refs: Refs, i: nat, x: Node)
    requires RefsOk(refs) && i < |refs| == |nodes| && nodes[i].parent.None? && refs[i].Some?
    requires Finds(nodes, refs, refs[i].value, x)
    ensures Finds(nodes, refs, i, Inherit(nodes[i], x))
  {
    var k: nat :| Lookup(nodes, refs, refs[i].value, k) == Some(x);
    assert Lookup(nodes, refs, i, k + 1) == Some(Inherit(nodes[i], x));
  }

  // ------------------------------------------------------------------------ chains

  /** Structs without a parent, each referring to the next. */
  ghost predicate IsChain(nodes: seq<Node>, refs: Refs, chain: seq<nat>) {
    && |refs| == |nodes| && chain != []
    && (forall k :: 0 <= k < |chain| ==> chain[k] < |nodes| && nodes[chain[k]].parent.None?)
    && (forall k :: 0 <= k < |chain| - 1 ==> refs[chain[k]] == Some(chain[k + 1]))
  }

  /** A set of structs without parents that refer only to each other or to hopeless ones. */
  ghost predicate DeadEnd(nodes: seq<Node>, refs: Refs, s: set<nat>)
    requires RefsOk(refs) && |refs| == |nodes|
  {
    forall i :: i in s ==>
      && i < |nodes| && nodes[i].parent.None?
      && (refs[i].None? || refs[i].value in s || Hopeless(nodes, refs, refs[i].value))
  }

  lemma {:induction false} DeadEndFindsNothing(nodes: seq<Node>, refs: Refs, s: set<nat>, i: nat, k: nat)
    requires RefsOk(refs) && |refs| == |nodes| && DeadEnd(nodes, refs, s) && i in s
    ensures Lookup(nodes, refs, i, k).None?
    decreases k
  {
    if k > 0 && refs[i].Some? {
      var j := refs[i].value;
      if j in s {
        DeadEndFindsNothing(nodes, refs, s, j, k - 1);
      } else {
        assert Lookup(nodes, refs, j, k - 1).None?;
      }
    }
  }

  /** A chain that ends, meets a hopeless struct or comes back to itself is hopeless. */
  lemma ChainHopeless(nodes: seq<Node>, refs: Refs, chain: seq<nat>)
    requires RefsOk(refs) && IsChain(nodes, refs, chain)
    requires var r := refs[chain[|chain| - 1]]; r.None? || r.value in chain || Hopeless(nodes, refs, r.value)
    ensures forall k :: 0 <= k < |chain| ==> Hopeless(nodes, refs, chain[k])
  {
    var s := set i | i in chain;
    assert DeadEnd(nodes, refs, s) by {
      forall i | i in s
        ensures refs[i].None? || refs[i].value in s || Hopeless(nodes, refs, refs[i].value)
      {
        var k :| 0 <= k < |chain| && chain[k] == i;
        assert k < |chain| - 1 ==> refs[i] == Some(chain[k + 1]) && chain[k + 1] in s;
      }
    }
    forall j, k: nat | 0 <= j < |chain|
      ensures Lookup(nodes, refs, chain[j], k).None?
    {
      DeadEndFindsNothing(nodes, refs, s, chain[j], k);
    }
  }

  /** More than `n` numbers below `n` repeat. */
  lemma {:induction false} Repeats(s: seq<nat>, n: nat) returns (a: nat, b: nat)
    requires |s| > n && forall k :: 0 <= k < |s| ==> s[k] < n
    ensures a < b <= n && s[a] == s[b]
    decreases n
  {
    if exists a :: 0 <= a < n && s[a] == s[n] {
      a :| 0 <= a < n && s[a] == s[n];
      b := n;
    } else {
      var t := seq(n, k requires 0 <= k < n => if s[k] == n - 1 then s[n] else s[k]);
      assert n > 0;
      assert s[n] < n - 1 || forall k :: 0 <= k < n ==> t[k] < n - 1;
      a, b := Repeats(t, n - 1);
      assert s[a] != s[n] && s[b] != s[n];
    }
  }

  lemma {:induction false} Periodic(nodes: seq<Node>, refs: Refs, chain: seq<nat>, a: nat, b: nat, t: nat)
    requires IsChain(nodes, refs, chain) && a < b && b + t < |chain| && chain[a] == chain[b]
    ensures chain[a + t] == chain[b + t]
    decreases t
  {
    if t > 0 {
      Periodic(nodes, refs, chain, a, b, t - 1);
      assert refs[chain[a + t - 1]] == Some(chain[a + t]) && refs[chain[b + t - 1]] == Some(chain[b + t]);
    }
  }

  /** The mark was set at place `m - 1` and has not been met since. */
  ghost predicate Brent(chain: seq<nat>, m: nat, n: nat) {
    && 1 <= m <= |chain| < 2 * m && (m == 1 || m <= 2 * n)
    && forall k :: m <= k < |chain| ==> chain[k] != chain[m - 1]
  }

  /** Once the chain is longer than the number of structs, it comes back to the mark within that number. */
  lemma BrentBound(nodes: seq<Node>, refs: Refs, chain: seq<nat>, m: nat)
    requires IsChain(nodes, refs, chain) && 1 <= m <= |chain|
    requires forall k :: m <= k < |chain| ==> chain[k] != chain[m - 1]
    ensures m > |nodes| ==> |chain| < m + |nodes|
  {
    var n := |nodes|;
    if m > n {
      var a, b := Repeats(chain, n);
      if |chain| >= m + n {
        Periodic(nodes, refs, chain, a, b, m - 1 - a);
        assert false;
      }
    }
  }

  lemma BrentStep(nodes: seq<Node>, refs: Refs, chain: seq<nat>, m: nat, x: nat)
    requires IsChain(nodes, refs, chain) && Brent(chain, m, |nodes|) && x != chain[m - 1]
    requires x < |nodes| && nodes[x].parent.None? && refs[chain[|chain| - 1]] == Some(x)
    ensures IsChain(nodes, refs, chain + [x])
    ensures var m' := if |chain| + 1 == 2 * m then 2 * m else m;
            Brent(chain + [x], m', |nodes|) && |chain| < 3 * |nodes|
  {
    var chain' := chain + [x];
    assert IsChain(nodes, refs, chain');
    BrentBound(nodes, refs, chain', m);
    BrentBound(nodes, refs, chain, m);
  }

  // -------------------------------------------------------------------- resolution

  /** What has been found so far is right. */
  ghost predicate Sound(nodes: seq<Node>, refs: Refs, now: seq<Node>, unresolved: set<nat>)
    requires RefsOk(refs) && |refs| == |nodes|
  {
    && |now| == |nodes|
    && (forall i: nat :: i < |now| ==> if now[i].parent.Some? then Finds(nodes, refs, i, now[i])
       else now[i] == nodes[i])
    && (forall i: nat :: i in unresolved ==> i < |nodes| && Hopeless(nodes, refs, i))
  }

  /** Follows the chain of `it` to a struct that has a parent; `None` if there is none. */
  method Follow(nodes: seq<Node>, refs: Refs, now: seq<Node>, unresolved: set<nat>, it: nat)
    returns (chain: seq<nat>, ref: Option<nat>)
    requires RefsOk(refs) && |refs| == |nodes| && Sound(nodes, refs, now, unresolved)
    requires it < |nodes| && now[it].parent.None?
    ensures IsChain(nodes, refs, chain) && chain[0] == it
    ensures forall k :: 0 <= k < |chain| ==> now[chain[k]].parent.None?
    ensures ref.Some? ==> refs[chain[|chain| - 1]] == ref && now[ref.value].parent.Some?
    ensures ref.None? ==> forall k :: 0 <= k < |chain| ==> Hopeless(nodes, refs, chain[k])
  {
    chain := [it];
    var mark, next := it, 2;
    ref := refs[it];
    ghost var m: nat := 1;
    while ref.Some? && now[ref.value].parent.None?
      invariant IsChain(nodes, refs, chain) && chain[0] == it && ref == refs[chain[|chain| - 1]]
      invariant forall k :: 0 <= k < |chain| ==> now[chain[k]].parent.None?
      invariant Brent(chain, m, |nodes|) && mark == chain[m - 1] && next == 2 * m
      decreases 3 * |nodes| - |chain|
    {
      if ref.value == mark || ref.value in unresolved {
        ChainHopeless(nodes, refs, chain);
        ref := None;
        return;
      }
      BrentStep(nodes, refs, chain, m, ref.value);
      chain := chain + [ref.value];
      if |chain| == next {
        mark, next := ref.value, 2 * next;
        m := 2 * m;
      }
      ref := refs[ref.value];
    }
    if ref.None? {
      ChainHopeless(nodes, refs, chain);
    }
  }

  /** Hands the parent down the chain, last struct first. */
  method HandDown(nodes: seq<Node>, refs: Refs, now0: seq<Node>, unresolved: set<nat>, chain: seq<nat>, ref0: nat)
    returns (now: seq<Node>)
    requires RefsOk(refs) && |refs| == |nodes| && Sound(nodes, refs, now0, unresolved) && IsChain(nodes, refs, chain)
    requires refs[chain[|chain| - 1]] == Some(ref0) && now0[ref0].parent.Some?
    ensures Sound(nodes, refs, now, unresolved)
    ensures forall i :: 0 <= i < |now| && now0[i].parent.Some? ==> now[i].parent.Some?
    ensures now[chain[0]].parent.Some?
  {
    now := now0;
    var ref: nat, i: int := ref0, |chain| - 1;
    while i >= 0
      invariant -1 <= i < |chain| && Sound(nodes, refs, now, unresolved)
      invariant ref < |now| && now[ref].parent.Some? && ref == if i == |chain| - 1 then ref0 else chain[i + 1]
      invariant forall j :: 0 <= j < |now| && now0[j].parent.Some? ==> now[j].parent.Some?
    {
      var x := chain[i];
      assert refs[x] == Some(ref);
      FindsThrough(nodes, refs, x, now[ref]);
      InheritRight(nodes, refs, now, unresolved, x, ref);
      now := now[x := Inherit(now[x], now[ref])];
      ref := x;
      i := i - 1;
    }
  }

  /** Inheriting again changes nothing that was right. */
  lemma InheritRight(nodes: seq<Node>, refs: Refs, now: seq<Node>, unresolved: set<nat>, x: nat, ref: nat)
    requires RefsOk(refs) && |refs| == |nodes| && Sound(nodes, refs, now, unresolved)
    requires x < |now| && ref < |now| && refs[x] == Some(ref) && now[ref].parent.Some? && nodes[x].parent.None?
    ensures Sound(nodes, refs, now[x := Inherit(now[x], now[ref])], unresolved)
  {
    FindsThrough(nodes, refs, x, now[ref]);
    if now[x].parent.Some? {
      OneOutcome(nodes, refs, x, now[x], Inherit(nodes[x], now[ref]));
    }
  }

  /**
    Gives every struct the parent of the first struct with a parent on its chain.  It ends
    on every graph, and the outcome does not depend on the order of visits.
  */
  method ResolveParents(nodes: seq<Node>, refs: Refs, order: seq<nat>) returns (now: seq<Node>)
    requires RefsOk(refs) && |refs| == |nodes| && forall k :: 0 <= k < |order| ==> order[k] < |nodes|
    ensures |now| == |nodes|
    ensures forall i :: 0 <= i < |nodes| && i in order ==> Settled(nodes, refs, i, now[i])
    ensures forall i {:trigger HandedOn(nodes, refs, now, i)} ::
              0 <= i < |nodes| && i in order && (refs[i].Some? ==> refs[i].value in order) ==>
                HandedOn(nodes, refs, now, i)
  {
    now := nodes;
    var unresolved: set<nat> := {};
    forall i: nat | i < |nodes| && nodes[i].parent.Some?
      ensures Finds(nodes, refs, i, nodes[i])
    {
      assert Lookup(nodes, refs, i, 0) == Some(nodes[i]);
    }
    var k := 0;
    while k < |order|
      invariant 0 <= k <= |order| && Sound(nodes, refs, now, unresolved)
      invariant forall j :: 0 <= j < k ==> now[order[j]].parent.Some? || Hopeless(nodes, refs, order[j])
    {
      var it := order[k];
      if now[it].parent.None? {
        var chain, ref := Follow(nodes, refs, now, unresolved, it);
        if ref.None? {
          unresolved := unresolved + set i | i in chain;
        } else {
          now := HandDown(nodes, refs, now, unresolved, chain, ref.value);
        }
      }
      k := k + 1;
    }
    forall i | 0 <= i < |nodes| && i in order && (refs[i].Some? ==> refs[i].value in order)
      ensures HandedOn(nodes, refs, now, i)
    {
      SettledHandsOn(nodes, refs, now, i);
    }
  }
}
