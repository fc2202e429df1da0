/**
  The structs of a merge with their parents.  The structs of every client are
  deduplicated; a struct without a parent refers to the struct that holds its origin, or
  else its right origin, and takes the parent over from there.
*/
module MergeStore {
  import opened Base
  import opened StructMerge
  import P = ParentResolution

  /** A struct of a client. */
  datatype Placed = Placed(client: nat, struct: Struct)

  type Store = map<nat, seq<Struct>>

  predicate HasId(x: Placed, id: Id) {
    x.client == id.client && Covers(x.struct, id.clock)
  }

  /** The unit whose struct a struct takes its parent from. */
  function RefId(s: Struct): Option<Id> {
    if s.origin.Some? then s.origin else s.right
  }

  /** The structs of the clients, one client after the other. */
  function Lay(clients: seq<nat>, store: Store): seq<Placed> {
    if clients == [] then []
    else
      var c := clients[|clients| - 1];
      Lay(clients[..|clients| - 1], store) + OfClient(c, Of(store, c))
  }

  function OfClient(c: nat, list: seq<Struct>): (r: seq<Placed>)
    ensures |r| == |list|
  {
    seq(|list|, k requires 0 <= k < |list| => Placed(c, list[k]))
  }

  /** The structs of a client lie side by side from `start` on. */
  ghost predicate Block(all: seq<Placed>, start: nat, c: nat, list: seq<Struct>) {
    start + |list| <= |all| && forall k {:trigger list[k]} :: 0 <= k < |list| ==> all[start + k] == Placed(c, list[k])
  }

  ghost predicate InBlock(store: Store, starts: map<nat, nat>, x: Placed, i: nat) {
    x.client in starts && starts[x.client] <= i < starts[x.client] + |Of(store, x.client)|
  }

  /** Where the structs of each client start. */
  ghost predicate StartsOk(store: Store, all: seq<Placed>, starts: map<nat, nat>) {
    && (forall c {:trigger c in starts} :: c in starts ==> Block(all, starts[c], c, Of(store, c)))
    && (forall i: nat {:trigger all[i]} :: i < |all| ==> InBlock(store, starts, all[i], i))
  }

  ghost predicate SlicesOk(store: Store, starts: map<nat, nat>) {
    forall c :: c in starts ==> Disjoint(Of(store, c)) && NonEmpty(Of(store, c))
  }

  /** Every reference leads to the struct that holds the unit; there is none exactly if no struct does. */
  ghost predicate RefsRight(all: seq<Placed>, refs: P.Refs) {
    |refs| == |all| && forall i {:trigger refs[i]} :: 0 <= i < |all| ==> RefRight(all, all[i].struct, refs[i])
  }

  ghost predicate RefRight(all: seq<Placed>, s: Struct, ref: Option<nat>) {
    match ref
    case Some(j) => j < |all| && RefId(s).Some? && HasId(all[j], RefId(s).value)
    case None => RefId(s).None? || forall j :: 0 <= j < |all| ==> !HasId(all[j], RefId(s).value)
  }

  /** No unit is in two structs, so there is one right reference. */
  ghost predicate OneHolder(all: seq<Placed>) {
    forall i, j, id :: 0 <= i < |all| && 0 <= j < |all| && HasId(all[i], id) && HasId(all[j], id) ==> i == j
  }

  lemma RefsAreOne(all: seq<Placed>, refs: P.Refs, refs': P.Refs)
    requires OneHolder(all) && RefsRight(all, refs) && RefsRight(all, refs')
    ensures refs == refs'
  {
    forall i | 0 <= i < |all|
      ensures refs[i] == refs'[i]
    {
      assert RefRight(all, all[i].struct, refs[i]) && RefRight(all, all[i].struct, refs'[i]);
    }
  }

  /** The struct of a client that holds a clock, by bisection on where structs start. */
  method Find(list: seq<Struct>, clock: nat) returns (k: Option<nat>)
    requires Disjoint(list) && NonEmpty(list)
    ensures k.Some? ==> k.value < |list| && Covers(list[k.value], clock)
    ensures k.None? ==> forall i :: 0 <= i < |list| ==> !Covers(list[i], clock)
  {
    var lo, hi := 0, |list|;
    while lo < hi
      invariant 0 <= lo <= hi <= |list|
      invariant forall i :: 0 <= i < lo ==> list[i].clock <= clock
      invariant forall i :: hi <= i < |list| ==> clock < list[i].clock
    {
      var mid := (lo + hi) / 2;
      assert forall i :: 0 <= i < mid ==> End(list[i]) <= list[mid].clock;
      assert forall i :: mid < i < |list| ==> End(list[mid]) <= list[i].clock;
      if list[mid].clock > clock { hi := mid; } else { lo := mid + 1; }
    }
    k := None;
    if lo > 0 {
      assert forall i :: 0 <= i < lo - 1 ==> End(list[i]) <= list[lo - 1].clock;
      if clock < End(list[lo - 1]) {
        k := Some(lo - 1);
      }
    }
  }

  /** The struct that holds a unit. */
  method Lookup(store: Store, ghost all: seq<Placed>, starts: map<nat, nat>, id: Id)
    returns (j: Option<nat>)
    requires StartsOk(store, all, starts)
    requires SlicesOk(store, starts)
    ensures j.Some? ==> j.value < |all| && HasId(all[j.value], id)
    ensures j.None? ==> forall i :: 0 <= i < |all| ==> !HasId(all[i], id)
  {
    hide StartsOk, Covers, Disjoint, NonEmpty;
    j := None;
    if id.client in starts {
      var k := Find(Of(store, id.client), id.clock);
      if k.Some? {
        StructAt(store, all, starts, id.client, k.value);
        return Some(starts[id.client] + k.value);
      }
    }
    forall i | 0 <= i < |all|
      ensures !HasId(all[i], id)
    {
      ClientAt(store, all, starts, i);
    }
  }

  lemma StructAt(store: Store, all: seq<Placed>, starts: map<nat, nat>, c: nat, k: nat)
    requires StartsOk(store, all, starts) && c in starts && k < |Of(store, c)|
    ensures starts[c] + k < |all| && all[starts[c] + k] == Placed(c, Of(store, c)[k])
  {
    assert c in starts && Block(all, starts[c], c, Of(store, c));
    var x := Of(store, c)[k];
  }

  lemma ClientAt(store: Store, all: seq<Placed>, starts: map<nat, nat>, i: nat)
    requires StartsOk(store, all, starts) && i < |all|
    ensures var c := all[i].client;
            c in starts && starts[c] <= i < starts[c] + |Of(store, c)|
            && all[i].struct == Of(store, c)[i - starts[c]]
  {
    assert InBlock(store, starts, all[i], i);
    StructAt(store, all, starts, all[i].client, i - starts[all[i].client]);
  }

  lemma StartsHolder(store: Store, all: seq<Placed>, starts: map<nat, nat>)
    requires StartsOk(store, all, starts)
    requires SlicesOk(store, starts)
    ensures OneHolder(all)
  {
    hide StartsOk, Disjoint, Covers;
    forall i, j, id | 0 <= i < |all| && 0 <= j < |all| && HasId(all[i], id) && HasId(all[j], id)
      ensures i == j
    {
      ClientAt(store, all, starts, i);
      ClientAt(store, all, starts, j);
      OneCovers(Of(store, id.client), i - starts[id.client], j - starts[id.client], id.clock);
    }
  }

  lemma OneCovers(list: seq<Struct>, i: nat, j: nat, c: nat)
    requires Disjoint(list) && i < |list| && j < |list| && Covers(list[i], c) && Covers(list[j], c)
    ensures i == j
  {
  }

  /** The references of all structs. */
  method ParentRefs(store: Store, all: seq<Placed>, starts: map<nat, nat>) returns (refs: P.Refs)
    requires StartsOk(store, all, starts)
    requires SlicesOk(store, starts)
    ensures RefsRight(all, refs) && P.RefsOk(refs)
  {
    hide StartsOk, Disjoint, NonEmpty;
    refs := [];
    var i := 0;
    while i < |all|
      invariant 0 <= i <= |all| && |refs| == i
      invariant forall k {:trigger refs[k]} :: 0 <= k < i ==> RefRight(all, all[k].struct, refs[k])
    {
      var s := all[i].struct;
      var ref := None;
      if s.origin.Some? {
        ref := Lookup(store, all, starts, s.origin.value);
      } else if s.right.Some? {
        ref := Lookup(store, all, starts, s.right.value);
      }
      assert RefRight(all, s, ref);
      refs := refs + [ref];
      i := i + 1;
    }
  }

  function Nodes(all: seq<Placed>): (r: seq<P.Node>)
    ensures |r| == |all|
  {
    seq(|all|, i requires 0 <= i < |all| => P.Node(all[i].struct.parent, all[i].struct.sub))
  }

  /** The first `i` clients have been laid out, and no other. */
  ghost predicate Started(clients: seq<nat>, i: nat, starts: map<nat, nat>) {
    forall k {:trigger clients[k]} :: 0 <= k < |clients| ==> (clients[k] in starts <==> k < i)
  }

  ghost predicate MergedUpto(clients: seq<nat>, i: nat, structs: Store, store: Store) {
    forall k {:trigger clients[k]} :: 0 <= k < i <= |clients| ==>
      Merged(clients[k], Of(structs, clients[k]), Of(store, clients[k]))
  }

  /** Deduplicates the structs of every client and lays them out. */
  method Collect(clients: seq<nat>, structs: Store) returns (store: Store, all: seq<Placed>, starts: map<nat, nat>)
    requires forall i, j :: 0 <= i < j < |clients| ==> clients[i] != clients[j]
    requires forall c :: c in clients ==> NonEmpty(Of(structs, c)) && Consistent(c, Of(structs, c))
    ensures all == Lay(clients, store) && StartsOk(store, all, starts) && SlicesOk(store, starts)
    ensures MergedUpto(clients, |clients|, structs, store)
  {
    store, all, starts := map[], [], map[];
    var i := 0;
    assert clients[..0] == [];
    while i < |clients|
      invariant 0 <= i <= |clients| && all == Lay(clients[..i], store)
      invariant StartsOk(store, all, starts) && SlicesOk(store, starts)
      invariant Started(clients, i, starts) && MergedUpto(clients, i, structs, store)
    {
      var c := clients[i];
      hide Of;
      assert c in clients && c !in starts;
      hide NonEmpty, Consistent, StartsOk, SlicesOk, Lay, Merged, Started, MergedUpto, Disjoint, Same, SomeSlice;
      var list := Dedup(c, Of(structs, c));
      LayOne(clients, i, store, all, list);
      StartMore(store, all, starts, c, list);
      MergeMore(clients, i, structs, store, starts, list, |all|);
      store, starts, all := store[c := list], starts[c := |all|], all + OfClient(c, list);
      i := i + 1;
    }
    assert clients[..i] == clients;
  }

  lemma MergeMore(clients: seq<nat>, i: nat, structs: Store, store: Store, starts: map<nat, nat>, list: seq<Struct>,
                  at: nat)
    requires forall i, j :: 0 <= i < j < |clients| ==> clients[i] != clients[j]
    requires i < |clients| && Started(clients, i, starts) && MergedUpto(clients, i, structs, store)
    requires SlicesOk(store, starts) && Disjoint(list) && NonEmpty(list)
    requires Same(clients[i], Of(structs, clients[i]), list)
    requires forall k :: 0 <= k < |list| ==> SomeSlice(clients[i], Of(structs, clients[i]), list[k])
    ensures Started(clients, i + 1, starts[clients[i] := at])
    ensures MergedUpto(clients, i + 1, structs, store[clients[i] := list])
    ensures SlicesOk(store[clients[i] := list], starts[clients[i] := at])
  {
    hide Disjoint, NonEmpty, Same, SomeSlice;
  }

  /** Without overlaps, the same units, and each struct one of the input or what is left of it. */
  ghost predicate Merged(c: nat, list: seq<Struct>, out: seq<Struct>) {
    && Disjoint(out) && NonEmpty(out) && Same(c, list, out)
    && forall k :: 0 <= k < |out| ==> SomeSlice(c, list, out[k])
  }

  lemma {:induction false} LaySame(clients: seq<nat>, i: nat, store: Store, c: nat, list: seq<Struct>)
    requires i <= |clients| && forall k :: 0 <= k < i ==> clients[k] != c
    ensures Lay(clients[..i], store[c := list]) == Lay(clients[..i], store)
  {
    if i > 0 {
      LaySame(clients, i - 1, store, c, list);
      assert clients[..i][..i - 1] == clients[..i - 1];
    }
  }

  lemma LayOne(clients: seq<nat>, i: nat, store: Store, all: seq<Placed>, list: seq<Struct>)
    requires forall i, j :: 0 <= i < j < |clients| ==> clients[i] != clients[j]
    requires i < |clients| && all == Lay(clients[..i], store)
    ensures all + OfClient(clients[i], list) == Lay(clients[..i + 1], store[clients[i] := list])
  {
    LaySame(clients, i, store, clients[i], list);
    assert clients[..i + 1][..i] == clients[..i] && clients[..i + 1][i] == clients[i];
  }

  lemma StartMore(store: Store, all: seq<Placed>, starts: map<nat, nat>, c: nat, list: seq<Struct>)
    requires StartsOk(store, all, starts) && c !in starts
    ensures StartsOk(store[c := list], all + OfClient(c, list), starts[c := |all|])
  {
    var store', all', starts' := store[c := list], all + OfClient(c, list), starts[c := |all|];
    forall d | d in starts'
      ensures Block(all', starts'[d], d, Of(store', d))
    {
      if d != c {
        assert Block(all, starts[d], d, Of(store, d));
        BlockMore(all, OfClient(c, list), starts[d], d, Of(store, d));
      }
    }
    forall k: nat | k < |all'|
      ensures InBlock(store', starts', all'[k], k)
    {
      if k < |all| {
        assert all'[k] == all[k] && InBlock(store, starts, all[k], k);
      } else {
        assert all'[k] == OfClient(c, list)[k - |all|];
      }
    }
  }

  lemma BlockMore(all: seq<Placed>, more: seq<Placed>, start: nat, c: nat, list: seq<Struct>)
    requires Block(all, start, c, list)
    ensures Block(all + more, start, c, list)
  {
  }

  /**
    Merges the structs of all clients and gives each the parent of the first struct with
    a parent on its chain of origins.
  */
  method BuildMergeStore(clients: seq<nat>, structs: Store)
    returns (store: Store, all: seq<Placed>, now: seq<P.Node>, ghost refs: P.Refs)
    requires forall i, j :: 0 <= i < j < |clients| ==> clients[i] != clients[j]
    requires forall c :: c in clients ==> NonEmpty(Of(structs, c)) && Consistent(c, Of(structs, c))
    ensures MergedUpto(clients, |clients|, structs, store)
    ensures all == Lay(clients, store) && OneHolder(all) && RefsRight(all, refs) && P.RefsOk(refs) && |now| == |all|
    ensures forall i :: 0 <= i < |all| ==> P.Settled(Nodes(all), refs, i, now[i])
    ensures forall i :: 0 <= i < |all| ==> P.HandedOn(Nodes(all), refs, now, i)
  {
    hide NonEmpty, Consistent, StartsOk, SlicesOk, Lay, Nodes, P.Settled, P.HandedOn, OneHolder, RefsRight, MergedUpto;
    var starts;
    store, all, starts := Collect(clients, structs);
    StartsHolder(store, all, starts);
    var r := ParentRefs(store, all, starts);
    refs := r;
    RefsLength(all, r);
    var visits := Count(|all|);
    now := P.ResolveParents(Nodes(all), r, visits);
  }

  method Count(n: nat) returns (r: seq<nat>)
    ensures forall i: nat {:trigger i in r} :: i in r <==> i < n
    ensures forall k :: 0 <= k < |r| ==> r[k] < n
  {
    r := [];
    var i := 0;
    while i < n
      invariant 0 <= i <= n && forall j: nat {:trigger j in r} :: j in r <==> j < i
    {
      r := r + [i];
      i := i + 1;
    }
    forall k | 0 <= k < |r| ensures r[k] < n { assert r[k] in r; }
  }

  lemma RefsLength(all: seq<Placed>, refs: P.Refs)
    requires RefsRight(all, refs)
    ensures |refs| == |all|
  {
  }
}
