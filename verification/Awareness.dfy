/**
  Awareness: who is present and with what state.  A last-writer-wins map with tombstones,
  bounded in bytes and in clients; removed clients are kept for a while and reclaimed
  oldest first.
*/
module Awareness {
  import opened Base

  datatype Value = Value(json: string)

  /** `None` stands for a removed client whose clock is kept. */
  datatype ClientState = ClientState(clock: nat, state: Option<Value>)

  /**
    One entry of an update.  `isNull` says that it spells a removal; `decoded` is the state,
    `None` also when it cannot be decoded or is too deep or too wide.
  */
  datatype Entry = Entry(client: nat, clock: nat, size: nat, isNull: bool, decoded: Option<Value>)

  predicate EntryOk(e: Entry) {
    (e.isNull ==> e.decoded.None?) && (!e.isNull ==> e.size > 0)
  }

  datatype TombRef = TombRef(id: nat, seq_: nat)

  // ------------------------------------------------------------------ byte counts

  ghost function Sum(m: map<nat, nat>): nat
    decreases |m|
  {
    if m == map[] then 0
    else
      var k :| k in m;
      assert |m - {k}| < |m| by { assert (m - {k}).Keys == m.Keys - {k}; }
      m[k] + Sum(m - {k})
  }

  lemma {:induction false} SumWithout(m: map<nat, nat>, k: nat)
    requires k in m
    ensures Sum(m) == m[k] + Sum(m - {k})
    decreases |m|
  {
    var j :| j in m && Sum(m) == m[j] + Sum(m - {j});
    if j != k {
      var a, b := m - {j}, m - {k};
      assert |a| < |m| && |b| < |m| by {
        assert a.Keys == m.Keys - {j} && b.Keys == m.Keys - {k};
      }
      SumWithout(a, k);
      SumWithout(b, j);
      assert a - {k} == b - {j};
    }
  }

  lemma SumSet(m: map<nat, nat>, k: nat, v: nat)
    ensures Sum(m[k := v]) == Sum(m) + v - (if k in m then m[k] else 0)
    ensures k in m ==> Sum(m - {k}) == Sum(m) - m[k]
  {
    var m' := m[k := v];
    SumWithout(m', k);
    assert m' - {k} == m - {k};
    if k in m {
      SumWithout(m, k);
    } else {
      assert m - {k} == m;
    }
  }

  // ------------------------------------------------------------- the tombstone queue

  /** Ascending sequence numbers, and one entry for every tombstone. */
  ghost predicate QueueOk(q: seq<TombRef>, seqs: map<nat, nat>, next: nat) {
    && (forall i, j :: 0 <= i < j < |q| ==> q[i].seq_ < q[j].seq_)
    && (forall i :: 0 <= i < |q| ==> q[i].seq_ <= next)
    && (forall id :: id in seqs ==> TombRef(id, seqs[id]) in q)
  }

  predicate Current(t: TombRef, seqs: map<nat, nat>) {
    t.id in seqs && seqs[t.id] == t.seq_
  }

  /** Entries that are all up to date are of different tombstones. */
  lemma {:induction false} CurrentAreFew(kept: seq<TombRef>, seqs: map<nat, nat>)
    requires forall k :: 0 <= k < |kept| ==> Current(kept[k], seqs)
    requires forall j, k :: 0 <= j < k < |kept| ==> kept[j].seq_ < kept[k].seq_
    ensures |kept| <= |seqs|
    decreases |kept|
  {
    if kept != [] {
      var last := kept[|kept| - 1];
      var seqs' := seqs - {last.id};
      assert seqs'.Keys == seqs.Keys - {last.id};
      CurrentAreFew(kept[..|kept| - 1], seqs');
    }
  }

  /** Drops the entries that are out of date; the rest is no longer than the tombstones are many. */
  method Compact(q: seq<TombRef>, seqs: map<nat, nat>, ghost next: nat) returns (kept: seq<TombRef>)
    requires QueueOk(q, seqs, next)
    ensures QueueOk(kept, seqs, next) && |kept| <= |q| && |kept| <= |seqs|
  {
    kept := [];
    var i := 0;
    while i < |q|
      invariant 0 <= i <= |q| && |kept| <= i
      invariant forall k :: 0 <= k < |kept| ==> Current(kept[k], seqs) && kept[k].seq_ <= next
      invariant i < |q| ==> forall k :: 0 <= k < |kept| ==> kept[k].seq_ < q[i].seq_
      invariant forall j, k :: 0 <= j < k < |kept| ==> kept[j].seq_ < kept[k].seq_
      invariant forall k :: 0 <= k < i && Current(q[k], seqs) ==> q[k] in kept
    {
      if Current(q[i], seqs) {
        kept := kept + [q[i]];
      }
      i := i + 1;
    }
    forall id | id in seqs
      ensures TombRef(id, seqs[id]) in kept
    {
      var t := TombRef(id, seqs[id]);
      var k :| 0 <= k < |q| && q[k] == t;
      assert Current(q[k], seqs);
    }
    CurrentAreFew(kept, seqs);
  }

  /** The oldest tombstone and the queue behind it. */
  method PopOldest(q: seq<TombRef>, seqs: map<nat, nat>, ghost next: nat) returns (id: nat, rest: seq<TombRef>)
    requires QueueOk(q, seqs, next) && seqs != map[]
    ensures id in seqs && (forall j :: j in seqs ==> seqs[id] <= seqs[j])
    ensures QueueOk(rest, seqs - {id}, next)
  {
    rest := q;
    ghost var some :| some in seqs;
    while !Current(rest[0], seqs)
      invariant QueueOk(rest, seqs, next) && rest != []
      decreases |rest|
    {
      rest := Tail(rest, seqs, next);
      assert TombRef(some, seqs[some]) in rest;
    }
    var first := rest[0];
    id := first.id;
    forall j | j in seqs
      ensures seqs[id] <= seqs[j]
      ensures j != id ==> TombRef(j, seqs[j]) in rest[1..]
    {
      var t := TombRef(j, seqs[j]);
      var k :| 0 <= k < |rest| && rest[k] == t;
      assert j != id ==> k > 0 && rest[1..][k - 1] == t;
    }
    rest := rest[1..];
  }

  method Tail(q: seq<TombRef>, seqs: map<nat, nat>, ghost next: nat) returns (rest: seq<TombRef>)
    requires QueueOk(q, seqs, next) && q != [] && !Current(q[0], seqs)
    ensures rest == q[1..] && QueueOk(rest, seqs, next)
  {
    rest := q[1..];
    forall id | id in seqs
      ensures TombRef(id, seqs[id]) in rest
    {
      var t := TombRef(id, seqs[id]);
      var k :| 0 <= k < |q| && q[k] == t;
      assert Current(t, seqs);
      assert k > 0 && rest[k - 1] == t;
    }
  }

  lemma QueuePush(q: seq<TombRef>, seqs: map<nat, nat>, next: nat, id: nat)
    requires QueueOk(q, seqs, next)
    ensures QueueOk(q + [TombRef(id, next + 1)], seqs[id := next + 1], next + 1)
  {
    var q', seqs' := q + [TombRef(id, next + 1)], seqs[id := next + 1];
    assert q'[|q|] == TombRef(id, next + 1);
    forall j | j in seqs'
      ensures TombRef(j, seqs'[j]) in q'
    {
      if j != id {
        var k :| 0 <= k < |q| && q[k] == TombRef(j, seqs[j]);
        assert q'[k] == q[k];
      }
    }
  }

  lemma QueueDrop(q: seq<TombRef>, seqs: map<nat, nat>, next: nat, id: nat)
    requires QueueOk(q, seqs, next)
    ensures QueueOk(q, seqs - {id}, next)
  {
  }

  /** The queue grew by one at most, and is within a constant factor of the tombstones there were. */
  ghost predicate Short(q: seq<TombRef>, before: seq<TombRef>, seqs: map<nat, nat>) {
    |q| <= |before| + 1 && |q| <= 2 * |seqs| + 16
  }

  // --------------------------------------------------------------------- the tables

  predicate LiveIn(states: map<nat, ClientState>, id: nat) {
    id in states && states[id].state.Some?
  }

  predicate DeadIn(states: map<nat, ClientState>, id: nat) {
    id in states && states[id].state.None?
  }

  /** The side tables agree with the states. */
  ghost predicate TablesOk(me: nat, states: map<nat, ClientState>, meta: map<nat, int>, removedAt: map<nat, int>,
                           tombSeq: map<nat, nat>, wireBytes: map<nat, nat>) {
    && (forall id :: id in meta <==> LiveIn(states, id))
    && (forall id :: id in removedAt <==> DeadIn(states, id) && id != me)
    && tombSeq.Keys == removedAt.Keys
    && (forall id :: id in wireBytes ==> wireBytes[id] > 0)
    && (forall id :: id != me ==> (id in wireBytes <==> LiveIn(states, id)))
  }

  /** Every size on account is that of the entry that gave the client its state. */
  ghost predicate Accounts(me: nat, states: map<nat, ClientState>, wireBytes: map<nat, nat>, heard: map<nat, Entry>) {
    && wireBytes == Sizes(heard)
    && (forall id :: id in heard ==> heard[id].client == id)
    && (forall id :: id in heard && id != me ==>
          id in states && states[id] == ClientState(heard[id].clock, heard[id].decoded))
  }

  function Sizes(heard: map<nat, Entry>): (r: map<nat, nat>)
    ensures r.Keys == heard.Keys
  {
    map id | id in heard :: heard[id].size
  }

  lemma AccountsAccept(me: nat, states: map<nat, ClientState>, wireBytes: map<nat, nat>, heard: map<nat, Entry>,
                       e: Entry)
    requires Accounts(me, states, wireBytes, heard)
    ensures Accounts(me, states[e.client := ClientState(e.clock, e.decoded)], wireBytes[e.client := e.size],
                     heard[e.client := e])
  {
  }

  lemma AccountsRetire(me: nat, states: map<nat, ClientState>, wireBytes: map<nat, nat>, heard: map<nat, Entry>,
                       id: nat, s: ClientState)
    requires Accounts(me, states, wireBytes, heard)
    ensures Accounts(me, states[id := s], wireBytes - {id}, heard - {id})
  {
  }

  /** The own state and what is not on account may change. */
  lemma AccountsSame(me: nat, states: map<nat, ClientState>, wireBytes: map<nat, nat>, heard: map<nat, Entry>,
                     states': map<nat, ClientState>)
    requires Accounts(me, states, wireBytes, heard)
    requires forall id :: id in wireBytes && id != me && id in states ==> id in states' && states'[id] == states[id]
    ensures Accounts(me, states', wireBytes, heard)
  {
    assert wireBytes.Keys == heard.Keys;
  }

  /** Other peers' clients that were silent for `timeout`, without those still to be looked at. */
  ghost function Silent(me: nat, seen: map<nat, int>, todo: set<nat>, timeout: int, now: int): set<nat> {
    set id | id in seen && id !in todo && id != me && now - seen[id] >= timeout
  }

  lemma SilentNone(me: nat, seen: map<nat, int>, timeout: int, now: int)
    ensures Silent(me, seen, seen.Keys, timeout, now) == {}
  {
  }

  lemma SilentStep(me: nat, seen: map<nat, int>, todo: set<nat>, timeout: int, now: int, id: nat)
    requires id in todo && id in seen
    ensures id !in Silent(me, seen, todo, timeout, now)
    ensures Silent(me, seen, todo - {id}, timeout, now) ==
            if id != me && now - seen[id] >= timeout then Silent(me, seen, todo, timeout, now) + {id}
            else Silent(me, seen, todo, timeout, now)
  {
  }

  lemma MetaLive(me: nat, states: map<nat, ClientState>, meta: map<nat, int>, removedAt: map<nat, int>,
                 tombSeq: map<nat, nat>, wireBytes: map<nat, nat>, id: nat)
    requires TablesOk(me, states, meta, removedAt, tombSeq, wireBytes) && id in meta
    ensures LiveIn(states, id) && id in states
  {
  }

  ghost predicate BytesOk(wireBytes: map<nat, nat>, activeBytes: int, maxBytes: nat) {
    activeBytes == Sum(wireBytes) && (maxBytes > 0 ==> activeBytes <= maxBytes)
  }

  ghost function Remote(states: map<nat, ClientState>, me: nat): set<nat> {
    states.Keys - {me}
  }

  ghost predicate ClientsOk(states: map<nat, ClientState>, me: nat, maxClients: nat) {
    maxClients > 0 ==> |Remote(states, me)| <= maxClients
  }

  lemma ClientsAdd(states: map<nat, ClientState>, me: nat, maxClients: nat, id: nat, s: ClientState)
    requires ClientsOk(states, me, maxClients)
    requires maxClients > 0 && id != me && id !in states ==> |Remote(states, me)| < maxClients
    ensures ClientsOk(states[id := s], me, maxClients)
  {
    hide Remote;
    RemoteAdd(states, me, id, s);
  }

  lemma BytesSet(wireBytes: map<nat, nat>, activeBytes: int, maxBytes: nat, id: nat, size: nat)
    requires BytesOk(wireBytes, activeBytes, maxBytes)
    ensures maxBytes == 0 || activeBytes + size - Old(wireBytes, id) <= maxBytes ==>
              BytesOk(wireBytes[id := size], activeBytes + size - Old(wireBytes, id), maxBytes)
    ensures BytesOk(wireBytes - {id}, activeBytes - Old(wireBytes, id), maxBytes)
  {
    hide Sum;
    SumSet(wireBytes, id, size);
    if id !in wireBytes { assert wireBytes - {id} == wireBytes; }
  }

  /** Of all tombstones, `id` became one first. */
  ghost predicate Oldest(tombSeq: map<nat, nat>, id: nat) {
    id in tombSeq && forall j :: j in tombSeq ==> tombSeq[id] <= tombSeq[j]
  }

  /** The client has come in the place of the oldest tombstone. */
  ghost predicate Replaces(states: map<nat, ClientState>, tombSeq: map<nat, nat>, client: nat, s: ClientState,
                           states': map<nat, ClientState>) {
    exists id: nat :: Oldest(tombSeq, id) && states' == (states - {id})[client := s]
  }

  /** What a room may hold; 0 means no limit. */
  datatype Limits = Limits(me: nat, maxBytes: nat, maxClients: nat, maxForeign: nat)

  /** What a room knows: the states and the own clock, who was heard when, sizes, ages and order of tombstones. */
  datatype Room = Room(
    states: map<nat, ClientState>, clock: nat, meta: map<nat, int>, wireBytes: map<nat, nat>, activeBytes: int,
    removedAt: map<nat, int>, tombSeq: map<nat, nat>, heard: map<nat, Entry>)

  /** As many other peers' clients are tracked as may be. */
  ghost predicate Full(l: Limits, r: Room) {
    l.maxClients > 0 && |Remote(r.states, l.me)| >= l.maxClients
  }

  /** The room has as much relayed presence as it may. */
  predicate ForeignFull(l: Limits, meta: map<nat, int>) {
    l.maxForeign > 0 && |meta| - (if l.me in meta then 1 else 0) >= l.maxForeign
  }

  /** The entry has a state, and the byte limit has room for it. */
  predicate Lives(l: Limits, r: Room, e: Entry) {
    e.decoded.Some? && (l.maxBytes > 0 ==> r.activeBytes + e.size - Old(r.wireBytes, e.client) <= l.maxBytes)
  }

  /**
    The entry leaves no trace: it is old news, or nobody may be added for it, or the caller
    says no.  A client that is not tracked may take the place of a tombstone, but only to live.
  */
  ghost predicate Refused(l: Limits, r: Room, e: Entry, foreign: bool, admit: bool) {
    || !Passes(r.states, e)
    || (!(e.client == l.me && e.isNull)
        && (|| (e.client !in r.states && Full(l, r) && (!Lives(l, r, e) || r.tombSeq == map[]))
            || (foreign && e.client != l.me && !LiveIn(r.states, e.client) && ForeignFull(l, r.meta))
            || !admit))
  }

  /** The client has the state of the entry, was heard now, and is accounted for with the size of the entry. */
  ghost predicate Entered(l: Limits, r: Room, e: Entry, now: int, r': Room) {
    && (var s := ClientState(e.clock, e.decoded);
        if e.client !in r.states && Full(l, r) then Replaces(r.states, r.tombSeq, e.client, s, r'.states)
        else r'.states == r.states[e.client := s])
    && r'.clock == r.clock && r'.meta == r.meta[e.client := now]
    && r'.wireBytes == r.wireBytes[e.client := e.size] && r'.heard == r.heard[e.client := e]
    && r'.activeBytes == r.activeBytes + e.size - Old(r.wireBytes, e.client)
    && (forall id :: id in r'.removedAt ==> id in r.removedAt && r'.removedAt[id] == r.removedAt[id])
    && (forall id :: id in r'.tombSeq ==> id in r.tombSeq && r'.tombSeq[id] == r.tombSeq[id])
  }

  /** The room with a new state of a client. */
  ghost function Updated(r: Room, e: Entry, now: int): Room {
    Room(r.states[e.client := ClientState(e.clock, e.decoded)], r.clock, r.meta[e.client := now],
         r.wireBytes[e.client := e.size], r.activeBytes + e.size - Old(r.wireBytes, e.client),
         r.removedAt - {e.client}, r.tombSeq - {e.client}, r.heard[e.client := e])
  }

  lemma UpdatedEnters(l: Limits, r: Room, e: Entry, now: int, reclaim: bool, id: nat)
    requires reclaim <==> e.client !in r.states && Full(l, r)
    requires reclaim ==> Oldest(r.tombSeq, id)
    ensures Entered(l, r, e, now, Updated(if reclaim then Purged(r, {id}) else r, e, now))
  {
    hide Full, Oldest;
  }

  lemma TakenBy(l: Limits, r: Room, e: Entry, now: int, foreign: bool, admit: bool, r': Room)
    requires Refused(l, r, e, foreign, admit) ==> r' == r
    requires !Refused(l, r, e, foreign, admit) ==>
               if e.client == l.me && e.isNull then Answered(l, r, e.clock, r')
               else if Lives(l, r, e) then Entered(l, r, e, now, r') else Left(l, r, e.client, e.clock, now, r')
    ensures Taken(l, r, e, now, foreign, admit, r')
    ensures forall id :: id in r'.states && id in r.states ==> r'.states[id].clock >= r.states[id].clock
    ensures e.client == l.me && e.isNull ==>
              forall id :: id in r.states ==> id in r'.states && r'.states[id].state == r.states[id].state
    ensures e.client != l.me && l.maxBytes == 0 && l.maxClients == 0 && !foreign && admit ==>
              r'.states == Merged(r.states, e)
  {
    hide Refused, Answered, Entered, Left, Lives, Merged;
    TakenKeeps(l, r, e, now, foreign, admit, r');
  }

  lemma OldNews(l: Limits, r: Room, e: Entry, foreign: bool, admit: bool)
    requires !Passes(r.states, e)
    ensures Refused(l, r, e, foreign, admit)
  {
  }

  lemma OwnRemoval(l: Limits, r: Room, e: Entry, foreign: bool, admit: bool)
    requires Passes(r.states, e) && e.client == l.me && e.isNull
    ensures !Refused(l, r, e, foreign, admit)
  {
  }

  /** The tests that are made one after the other decide whether an entry is refused. */
  lemma Judged(l: Limits, r: Room, e: Entry, foreign: bool, admit: bool, refuse: bool, reclaim: bool)
    requires Passes(r.states, e) && !(e.client == l.me && e.isNull) && EntryOk(e)
    requires e.client in r.states || !Full(l, r) ==> !refuse && !reclaim
    requires e.client !in r.states && Full(l, r) ==> refuse == (e.isNull || r.tombSeq == map[]) && reclaim == !refuse
    ensures Refused(l, r, e, foreign, admit) <==>
              || refuse || (foreign && e.client != l.me && !LiveIn(r.states, e.client) && ForeignFull(l, r.meta))
              || (reclaim && !Lives(l, r, e)) || !admit
    ensures !refuse ==> (reclaim <==> e.client !in r.states && Full(l, r))
    ensures Lives(l, r, e) ==> e.size > 0
  {
    hide Full, ForeignFull, Passes;
  }

  /** What an entry never does: set a clock back, or touch the own state if it removes it. */
  lemma TakenKeeps(l: Limits, r: Room, e: Entry, now: int, foreign: bool, admit: bool, r': Room)
    requires Taken(l, r, e, now, foreign, admit, r')
    ensures forall id :: id in r'.states && id in r.states ==> r'.states[id].clock >= r.states[id].clock
    ensures e.client == l.me && e.isNull ==>
              forall id :: id in r.states ==> id in r'.states && r'.states[id].state == r.states[id].state
    ensures e.client != l.me && l.maxBytes == 0 && l.maxClients == 0 && !foreign && admit ==>
              r'.states == Merged(r.states, e)
  {
    hide Oldest, Remote, ForeignFull;
  }

  /** The client has no state; another peer's client is from now on the youngest tombstone. */
  ghost predicate Left(l: Limits, r: Room, id: nat, clock: nat, now: int, r': Room) {
    && r'.states == r.states[id := ClientState(clock, None)] && r'.clock == r.clock && r'.meta == r.meta - {id}
    && r'.wireBytes == r.wireBytes - {id} && r'.heard == r.heard - {id}
    && r'.activeBytes == r.activeBytes - Old(r.wireBytes, id)
    && r'.removedAt == (if id == l.me then r.removedAt else r.removedAt[id := now])
    && (if id == l.me then r'.tombSeq == r.tombSeq
        else id in r'.tombSeq && r'.tombSeq == r.tombSeq[id := r'.tombSeq[id]]
             && forall j :: j in r.tombSeq ==> r.tombSeq[j] < r'.tombSeq[id])
  }

  lemma LeftBy(l: Limits, r: Room, id: nat, clock: nat, now: int, n: nat, r': Room)
    requires forall j :: j in r.tombSeq ==> r.tombSeq[j] < n || id == l.me
    requires r' == Room(r.states[id := ClientState(clock, None)], r.clock, r.meta - {id}, r.wireBytes - {id},
                        r.activeBytes - Old(r.wireBytes, id),
                        if id == l.me then r.removedAt else r.removedAt[id := now],
                        if id == l.me then r.tombSeq else r.tombSeq[id := n], r.heard - {id})
    ensures Left(l, r, id, clock, now, r')
  {
  }

  /** Someone else's removal of the own client is answered with the own state at a later clock. */
  ghost predicate Answered(l: Limits, r: Room, clock: nat, r': Room) {
    var clock' := if clock >= r.clock then clock + 1 else r.clock;
    r' == r.(clock := clock', states := if LiveIn(r.states, l.me)
                                        then r.states[l.me := ClientState(clock', r.states[l.me].state)] else r.states)
  }

  /** What becomes of a room by one entry of an update. */
  ghost predicate Taken(l: Limits, r: Room, e: Entry, now: int, foreign: bool, admit: bool, r': Room) {
    if Refused(l, r, e, foreign, admit) then r' == r
    else if e.client == l.me && e.isNull then Answered(l, r, e.clock, r')
    else if Lives(l, r, e) then Entered(l, r, e, now, r')
    else Left(l, r, e.client, e.clock, now, r')
  }

  /** Some clients have no state any more, from now on, and take up no bytes; all others are as they were. */
  ghost predicate Expired(r: Room, gone: set<nat>, now: int, r': Room) {
    && r'.states.Keys == r.states.Keys && r'.clock == r.clock
    && (forall id :: id in r.states ==>
          r'.states[id] == if id in gone then ClientState(r.states[id].clock, None) else r.states[id])
    && r'.meta == r.meta - gone && r'.wireBytes == r.wireBytes - gone && r'.heard == r.heard - gone
    && r'.removedAt.Keys == r.removedAt.Keys + gone
    && (forall id :: id in r'.removedAt ==> r'.removedAt[id] == if id in gone then now else r.removedAt[id])
  }

  lemma ExpiredNone(r: Room, now: int)
    ensures Expired(r, {}, now, r)
  {
  }

  lemma ExpiredMeta(r: Room, gone: set<nat>, now: int, r': Room, id: nat)
    requires Expired(r, gone, now, r') && id in r.meta && id !in gone
    ensures id in r'.meta && r'.meta[id] == r.meta[id]
  {
  }

  lemma ExpiredOne(l: Limits, r: Room, gone: set<nat>, now: int, r0: Room, id: nat, r': Room)
    requires Expired(r, gone, now, r0) && id in r0.states && id != l.me && id !in gone
    requires Left(l, r0, id, r0.states[id].clock, now, r')
    ensures Expired(r, gone + {id}, now, r')
  {
    assert r'.states.Keys == r0.states.Keys;
    assert r.meta - gone - {id} == r.meta - (gone + {id});
    assert r.wireBytes - gone - {id} == r.wireBytes - (gone + {id});
    assert r.heard - gone - {id} == r.heard - (gone + {id});
  }

  /** The rooms an update leads through, entry by entry. */
  ghost predicate IsCourse(l: Limits, rooms: seq<Room>, entries: seq<Entry>, now: int, foreign: bool, admit: seq<bool>,
                           n: nat) {
    && |rooms| == n + 1 && n <= |entries| == |admit|
    && forall k :: 0 <= k < n ==> Taken(l, rooms[k], entries[k], now, foreign, admit[k], rooms[k + 1])
  }

  lemma CourseNone(l: Limits, r: Room, entries: seq<Entry>, now: int, foreign: bool, admit: seq<bool>)
    requires |admit| == |entries|
    ensures IsCourse(l, [r], entries, now, foreign, admit, 0)
  {
  }

  lemma CourseNext(l: Limits, rooms: seq<Room>, r: Room, entries: seq<Entry>, now: int, foreign: bool, admit: seq<bool>,
                   i: nat)
    requires |admit| == |entries| && i < |entries| && IsCourse(l, rooms, entries, now, foreign, admit, i)
    requires Taken(l, rooms[i], entries[i], now, foreign, admit[i], r)
    ensures IsCourse(l, rooms + [r], entries, now, foreign, admit, i + 1)
    ensures (rooms + [r])[0] == rooms[0] && (rooms + [r])[i + 1] == r
  {
    hide Taken;
  }

  class Awareness {
    const me: nat
    const maxBytes: nat
    const maxClients: nat
    const maxForeign: nat
    var states: map<nat, ClientState>
    var meta: map<nat, int>
    var clock: nat
    var wireBytes: map<nat, nat>
    var activeBytes: int
    var removedAt: map<nat, int>
    var tombQ: seq<TombRef>
    var tombSeq: map<nat, nat>
    var nextSeq: nat
    /** The entry that gave each client the state it has. */
    ghost var heard: map<nat, Entry>

    function Rules(): Limits {
      Limits(me, maxBytes, maxClients, maxForeign)
    }

    ghost function Here(): Room
      reads this
    {
      Room(states, clock, meta, wireBytes, activeBytes, removedAt, tombSeq, heard)
    }

    /** Holds after every operation. */
    ghost predicate Valid()
      reads this
    {
      && Accounts(me, states, wireBytes, heard)
      && TablesOk(me, states, meta, removedAt, tombSeq, wireBytes)
      && BytesOk(wireBytes, activeBytes, maxBytes)
      && ClientsOk(states, me, maxClients)
      && QueueOk(tombQ, tombSeq, nextSeq)
    }

    /** A value of 0 means no limit. */
    constructor (me: nat, maxBytes: nat, maxClients: nat, maxForeign: nat)
      ensures Valid() && states == map[] && this.me == me
      ensures this.maxBytes == maxBytes && this.maxClients == maxClients && this.maxForeign == maxForeign
    {
      this.me, this.maxBytes, this.maxClients, this.maxForeign := me, maxBytes, maxClients, maxForeign;
      states, meta, clock := map[], map[], 0;
      wireBytes, activeBytes, removedAt, heard := map[], 0, map[], map[];
      tombQ, tombSeq, nextSeq := [], map[], 0;
    }

    /** Queues a tombstone as the youngest; the queue is compacted when too much of it is out of date. */
    method MarkTombstone(id: nat, now: int)
      requires QueueOk(tombQ, tombSeq, nextSeq)
      modifies `removedAt, `tombQ, `tombSeq, `nextSeq
      ensures QueueOk(tombQ, tombSeq, nextSeq) && removedAt == old(removedAt)[id := now]
      ensures tombSeq == old(tombSeq)[id := nextSeq]
      ensures nextSeq == old(nextSeq) + 1 && Short(tombQ, old(tombQ), old(tombSeq))
    {
      hide QueueOk;
      removedAt := removedAt[id := now];
      if |tombQ| >= 2 * |tombSeq| + 16 {
        tombQ := Compact(tombQ, tombSeq, nextSeq);
      }
      QueuePush(tombQ, tombSeq, nextSeq, id);
      nextSeq := nextSeq + 1;
      tombSeq := tombSeq[id := nextSeq];
      tombQ := tombQ + [TombRef(id, nextSeq)];
    }

    /** Forgets a tombstone. */
    method ForgetTombstone(id: nat)
      requires id in removedAt && TablesOk(me, states, meta, removedAt, tombSeq, wireBytes)
      modifies `states, `removedAt, `tombSeq, `meta, `wireBytes
      ensures TablesOk(me, states, meta, removedAt, tombSeq, wireBytes)
      ensures states == old(states) - {id} && wireBytes == old(wireBytes) && tombSeq == old(tombSeq) - {id}
      ensures removedAt == old(removedAt) - {id} && meta == old(meta)
    {
      assert id !in wireBytes && id !in meta;
      states := states - {id};
      removedAt := removedAt - {id};
      tombSeq := tombSeq - {id};
      meta := meta - {id};
      wireBytes := wireBytes - {id};
      assert wireBytes == old(wireBytes) && meta == old(meta);
    }

    /** Forgets the tombstone that has been one for longest. */
    method ReclaimOldest() returns (ghost id: nat)
      requires Valid() && tombSeq != map[]
      modifies `states, `removedAt, `tombSeq, `meta, `wireBytes, `tombQ
      ensures Valid() && Oldest(old(tombSeq), id)
      ensures Here() == Purged(old(Here()), {id}) && DeadIn(old(states), id) && id != me
      ensures |Remote(states, me)| == |Remote(old(states), me)| - 1
      ensures maxClients > 0 ==> |Remote(states, me)| < maxClients
    {
      hide TablesOk, QueueOk, BytesOk, Remote, DeadIn, Accounts;
      var oldest, rest := PopOldest(tombQ, tombSeq, nextSeq);
      id := oldest;
      TombstoneIn(me, states, meta, removedAt, tombSeq, wireBytes, oldest);
      RemoteDrop(states, me, oldest);
      ForgetAccount(me, states, meta, removedAt, tombSeq, wireBytes, heard, oldest);
      ForgetTombstone(oldest);
      tombQ := rest;
    }

    /** The client is removed; its clock and, for another peer's client, a tombstone stay. */
    method Retire(id: nat, clock: nat, now: int)
      requires Valid() && (maxClients > 0 && id != me && id !in states ==> |Remote(states, me)| < maxClients)
      modifies `states, `meta, `removedAt, `tombQ, `tombSeq, `nextSeq, `wireBytes, `activeBytes, `heard
      ensures Valid() && Left(Rules(), old(Here()), id, clock, now, Here())
    {
      hide TablesOk, QueueOk, Remote, Short, Accounts, BytesOk, ClientsOk, Left, Old;
      ghost var r := Here();
      AccountsRetire(me, states, wireBytes, heard, id, ClientState(clock, None));
      QueueBound(tombQ, tombSeq, nextSeq);
      ClientsAdd(states, me, maxClients, id, ClientState(clock, None));
      BytesSet(wireBytes, activeBytes, maxBytes, id, 0);
      TablesRetire(me, states, meta, removedAt, tombSeq, wireBytes, id, clock, now, nextSeq + 1);
      states := states[id := ClientState(clock, None)];
      meta := meta - {id};
      if id != me {
        MarkTombstone(id, now);
      }
      Release(id);
      LeftBy(Rules(), r, id, clock, now, nextSeq, Here());
    }

    /** Gives back the bytes of a client. */
    method Release(id: nat)
      modifies `wireBytes, `activeBytes, `heard
      ensures wireBytes == old(wireBytes) - {id} && activeBytes == old(activeBytes) - Old(old(wireBytes), id)
      ensures heard == old(heard) - {id}
    {
      if id in wireBytes {
        activeBytes := activeBytes - wireBytes[id];
        wireBytes := wireBytes - {id};
      }
      heard := heard - {id};
      assert wireBytes == old(wireBytes) - {id};
    }

    /** The client has a new state. */
    method Accept(e: Entry, now: int)
      requires Valid() && e.decoded.Some? && e.size > 0
      requires maxClients > 0 && e.client != me && e.client !in states ==> |Remote(states, me)| < maxClients
      requires maxBytes > 0 ==> activeBytes + e.size - Old(wireBytes, e.client) <= maxBytes
      modifies `states, `meta, `removedAt, `tombSeq, `wireBytes, `activeBytes, `heard
      ensures Valid() && Here() == Updated(old(Here()), e, now)
    {
      hide TablesOk, QueueOk, Remote, Accounts, BytesOk, ClientsOk;
      AccountsAccept(me, states, wireBytes, heard, e);
      ClientsAdd(states, me, maxClients, e.client, ClientState(e.clock, e.decoded));
      BytesSet(wireBytes, activeBytes, maxBytes, e.client, e.size);
      QueueDrop(tombQ, tombSeq, nextSeq, e.client);
      TablesAccept(me, states, meta, removedAt, tombSeq, wireBytes, e, now);
      states := states[e.client := ClientState(e.clock, e.decoded)];
      meta := meta[e.client := now];
      removedAt := removedAt - {e.client};
      tombSeq := tombSeq - {e.client};
      activeBytes := activeBytes + e.size - Old(wireBytes, e.client);
      wireBytes := wireBytes[e.client := e.size];
      heard := heard[e.client := e];
    }

    /** A removal of the own client by someone else is not honoured: the state is announced again. */
    method ProtectSelf(e: Entry)
      requires Valid() && e.client == me && e.isNull && Passes(states, e)
      modifies `clock, `states
      ensures Valid() && Answered(Rules(), old(Here()), e.clock, Here())
    {
      hide TablesOk, QueueOk, BytesOk, Remote, Accounts;
      if e.clock >= clock {
        clock := e.clock + 1;
      }
      if LiveIn(states, me) {
        TablesReset(me, states, meta, removedAt, tombSeq, wireBytes, clock);
        AccountsSame(me, states, wireBytes, heard, states[me := ClientState(clock, states[me].state)]);
        RemoteAdd(states, me, me, ClientState(clock, states[me].state));
        states := states[me := ClientState(clock, states[me].state)];
      }
    }

    /** Whether a client that is not tracked yet must be refused, or needs a slot. */
    method CheckRoom(e: Entry) returns (refuse: bool, reclaim: bool)
      requires Valid()
      ensures !refuse && !reclaim && maxClients > 0 && e.client !in states ==> |Remote(states, me)| < maxClients
      ensures reclaim ==> !refuse && tombSeq != map[] && e.client !in states && maxClients > 0
      ensures e.client in states || !Full(Rules(), Here()) ==> !refuse && !reclaim
      ensures e.client !in states && Full(Rules(), Here()) ==>
                refuse == (e.isNull || tombSeq == map[]) && reclaim == !refuse
    {
      refuse, reclaim := false, false;
      if e.client !in states && maxClients > 0 {
        var remote := |states| - (if me in states then 1 else 0);
        assert remote == |Remote(states, me)| by {
          if me in states { assert states.Keys == Remote(states, me) + {me}; }
          else { assert states.Keys == Remote(states, me); }
        }
        if remote >= maxClients {
          refuse := e.isNull || |tombSeq| == 0;
          reclaim := !refuse;
        }
      }
    }

    /** One entry of an update; `admit` is the answer of the caller's own check. */
    method ApplyEntry(e: Entry, now: int, foreign: bool, admit: bool)
      requires Valid() && EntryOk(e)
      modifies this
      ensures Valid() && Taken(Rules(), old(Here()), e, now, foreign, admit, Here())
      ensures forall id :: id in states && id in old(states) ==> states[id].clock >= old(states)[id].clock
      ensures e.client != me && maxBytes == 0 && maxClients == 0 && !foreign && admit ==>
                states == Merged(old(states), e)
      ensures e.client == me && e.isNull ==> forall id :: id in old(states) ==>
                id in states && states[id].state == old(states)[id].state
    {
      hide TablesOk, QueueOk, Sum, Remote, BytesOk, Accounts, Entered, Left, Answered, Merged, Updated, Purged,
        Passes, Refused, Full, EntryOk, ForeignFull, LiveIn, Oldest, ClientsOk, Old, Taken;
      ghost var r := Here();
      if !Passes(states, e) {
        OldNews(Rules(), r, e, foreign, admit);
        TakenBy(Rules(), r, e, now, foreign, admit, Here());
        return;
      }
      if e.client == me && e.isNull {
        OwnRemoval(Rules(), r, e, foreign, admit);
        ProtectSelf(e);
        TakenBy(Rules(), r, e, now, foreign, admit, Here());
        return;
      }
      var refuse, reclaim := CheckRoom(e);
      Judged(Rules(), r, e, foreign, admit, refuse, reclaim);
      if refuse || (foreign && e.client != me && !LiveIn(states, e.client) && ForeignFull(Rules(), meta)) {
        TakenBy(Rules(), r, e, now, foreign, admit, Here());
        return;
      }
      var live := e.decoded.Some?
                  && !(maxBytes > 0 && activeBytes + e.size - Old(wireBytes, e.client) > maxBytes);
      if (reclaim && !live) || !admit {
        TakenBy(Rules(), r, e, now, foreign, admit, Here());
        return;
      }
      if live {
        Enter(e, now, reclaim);
      } else {
        Retire(e.client, e.clock, now);
      }
      TakenBy(Rules(), r, e, now, foreign, admit, Here());
    }

    /** Lets a client in, in the place of a tombstone if there is no other. */
    method Enter(e: Entry, now: int, reclaim: bool)
      requires Valid() && e.size > 0 && Lives(Rules(), Here(), e) && (reclaim ==> tombSeq != map[])
      requires reclaim <==> e.client !in states && Full(Rules(), Here())
      modifies this
      ensures Valid() && Entered(Rules(), old(Here()), e, now, Here())
    {
      hide TablesOk, QueueOk, Remote, BytesOk, Accounts, Entered, Updated, Purged, Oldest, Old;
      ghost var r, id := Here(), 0;
      if reclaim {
        id := ReclaimOldest();
        PurgedTable(r, id, e.client);
      }
      Accept(e, now);
      UpdatedEnters(Rules(), r, e, now, reclaim, id);
    }

    /** A whole update; one that is too large is refused before anything changes. */
    method ApplyUpdate(entries: seq<Entry>, now: int, foreign: bool, admit: seq<bool>)
      returns (ok: bool, ghost rooms: seq<Room>)
      requires Valid() && |admit| == |entries| && forall k :: 0 <= k < |entries| ==> EntryOk(entries[k])
      modifies this
      ensures Valid() && activeBytes == Sum(Sizes(heard)) && (maxBytes > 0 ==> activeBytes <= maxBytes)
      ensures ok <==> |entries| <= MAX_CLIENTS && forall k :: 0 <= k < |entries| ==> entries[k].size <= MAX_STATE_BYTES
      ensures !ok ==> Here() == old(Here())
      ensures ok ==> IsCourse(Rules(), rooms, entries, now, foreign, admit, |entries|) && rooms[0] == old(Here())
                     && rooms[|entries|] == Here()
      ensures ok && Unlimited(entries, foreign, admit) ==> states == MergeAll(old(states), entries)
    {
      ok := CheckSize(entries);
      rooms := [];
      if !ok {
        BytesInEffect();
        return;
      }
      rooms := [Here()];
      var i := 0;
      hide TablesOk, QueueOk, BytesOk, ClientsOk, Merged, MergeAll, Accounts, Taken, IsCourse, Unlimited, EntryOk;
      CourseNone(Rules(), Here(), entries, now, foreign, admit);
      MergeNone(states, entries);
      while i < |entries|
        invariant 0 <= i <= |entries| && Valid() && |rooms| == i + 1
        invariant rooms[0] == old(Here()) && rooms[i] == Here()
        invariant IsCourse(Rules(), rooms, entries, now, foreign, admit, i)
        invariant Unlimited(entries, foreign, admit) ==> states == MergeAll(old(states), entries[..i])
      {
        UnlimitedAt(entries, foreign, admit, i);
        ApplyEntry(entries[i], now, foreign, admit[i]);
        CourseNext(Rules(), rooms, Here(), entries, now, foreign, admit, i);
        rooms := rooms + [Here()];
        MergeNext(old(states), entries, i);
        i := i + 1;
      }
      assert entries[..i] == entries;
      BytesInEffect();
    }

    /** The bytes on account are those of the entries in effect, and within the limit. */
    lemma BytesInEffect()
      requires Valid()
      ensures activeBytes == Sum(Sizes(heard)) && (maxBytes > 0 ==> activeBytes <= maxBytes)
    {
      hide Sum;
    }

    lemma UnlimitedAt(entries: seq<Entry>, foreign: bool, admit: seq<bool>, i: nat)
      requires |admit| == |entries| && i < |entries|
      ensures Unlimited(entries, foreign, admit) ==>
                maxBytes == 0 && maxClients == 0 && !foreign && admit[i] && entries[i].client != me
    {
    }

    /** No limit is set and every entry is about another peer's client. */
    ghost predicate Unlimited(entries: seq<Entry>, foreign: bool, admit: seq<bool>)
      requires |admit| == |entries|
    {
      && maxBytes == 0 && maxClients == 0 && !foreign
      && forall k :: 0 <= k < |entries| ==> admit[k] && entries[k].client != me
    }

    /** Sets or removes the own state at a clock nobody has seen. */
    method SetLocalState(state: Option<Value>, now: int)
      requires Valid()
      modifies `states, `meta, `clock
      ensures Valid() && states == old(states)[me := ClientState(clock, state)]
      ensures clock > old(clock) && (me in old(states) ==> clock > old(states)[me].clock)
      ensures clock == old(clock) + 1 || (me in old(states) && clock == old(states)[me].clock + 1)
      ensures meta == if state.None? then old(meta) - {me} else old(meta)[me := now]
    {
      hide TablesOk, QueueOk, BytesOk, Remote, Accounts;
      if me in states && states[me].clock > clock {
        clock := states[me].clock;
      }
      clock := clock + 1;
      TablesLocal(me, states, meta, removedAt, tombSeq, wireBytes, ClientState(clock, state), now);
      RemoteAdd(states, me, me, ClientState(clock, state));
      AccountsSame(me, states, wireBytes, heard, states[me := ClientState(clock, state)]);
      states := states[me := ClientState(clock, state)];
      meta := if state.None? then meta - {me} else meta[me := now];
    }

    /** Other peers' clients that were silent for `timeout` become tombstones now; nobody else does. */
    method RemoveExpired(timeout: int, now: int)
      requires Valid()
      modifies this
      ensures Valid() && Expired(old(Here()), Silent(me, old(meta), {}, timeout, now), now, Here())
    {
      hide TablesOk, BytesOk, ClientsOk, QueueOk, Accounts, Silent, Expired;
      ghost var start := Here();
      var todo := meta.Keys;
      SilentNone(me, meta, timeout, now);
      ExpiredNone(start, now);
      while todo != {}
        invariant Valid() && Expired(start, Silent(me, start.meta, todo, timeout, now), now, Here())
        invariant todo <= start.meta.Keys
        decreases |todo|
      {
        var id :| id in todo;
        Expire(id, timeout, now, start, todo);
        todo := todo - {id};
      }
    }

    method Expire(id: nat, timeout: int, now: int, ghost start: Room, ghost todo: set<nat>)
      requires Valid() && Expired(start, Silent(me, start.meta, todo, timeout, now), now, Here())
      requires id in todo && id in start.meta
      modifies this
      ensures Valid() && Expired(start, Silent(me, start.meta, todo - {id}, timeout, now), now, Here())
    {
      hide TablesOk, BytesOk, ClientsOk, QueueOk, LiveIn, Accounts, Silent, Expired, Left, Remote, Old;
      ghost var gone, r := Silent(me, start.meta, todo, timeout, now), Here();
      SilentStep(me, start.meta, todo, timeout, now, id);
      ExpiredMeta(start, gone, now, r, id);
      MetaLive(me, states, meta, removedAt, tombSeq, wireBytes, id);
      if id != me && now - meta[id] >= timeout {
        Retire(id, states[id].clock, now);
        ExpiredOne(Rules(), start, gone, now, r, id, Here());
      }
    }

    /** Forgets the tombstones that are older than `grace` and counts them; a grace of 0 forgets none. */
    method PurgeTombstones(grace: int, now: int) returns (purged: nat)
      requires Valid()
      modifies this
      ensures Valid()
      ensures grace <= 0 ==> Here() == old(Here()) && purged == 0
      ensures grace > 0 ==> Here() == Purged(old(Here()), Aged(old(removedAt), {}, now, grace))
                            && purged == |Aged(old(removedAt), {}, now, grace)|
    {
      purged := 0;
      if grace <= 0 {
        return;
      }
      hide TablesOk, QueueOk, BytesOk, ClientsOk, Aged, Accounts, Purged;
      ghost var start := Here();
      var todo := removedAt.Keys;
      AgedNone(start, now, grace);
      while todo != {}
        invariant Valid() && todo <= start.removedAt.Keys
        invariant Here() == Purged(start, Aged(start.removedAt, todo, now, grace))
        invariant purged == |Aged(start.removedAt, todo, now, grace)|
        decreases |todo|
      {
        var id :| id in todo;
        var aged := PurgeOne(id, grace, now, start, todo);
        todo := todo - {id};
        if aged {
          purged := purged + 1;
        }
      }
    }

    method PurgeOne(id: nat, grace: int, now: int, ghost start: Room, ghost todo: set<nat>) returns (aged: bool)
      requires Valid() && Here() == Purged(start, Aged(start.removedAt, todo, now, grace))
      requires id in todo && id in start.removedAt
      modifies this
      ensures Valid() && Here() == Purged(start, Aged(start.removedAt, todo - {id}, now, grace))
      ensures |Aged(start.removedAt, todo - {id}, now, grace)| ==
              |Aged(start.removedAt, todo, now, grace)| + if aged then 1 else 0
    {
      hide TablesOk, QueueOk, BytesOk, ClientsOk, Aged, Accounts, Purged;
      AgedStep(start.removedAt, todo, now, grace, id);
      PurgedMore(start, Aged(start.removedAt, todo, now, grace), id);
      PurgedAt(start, Aged(start.removedAt, todo, now, grace), id);
      aged := now - removedAt[id] >= grace;
      if aged {
        Forget(id);
      }
    }

    method Forget(id: nat)
      requires Valid() && id in removedAt
      modifies this
      ensures Valid() && Here() == Purged(old(Here()), {id})
    {
      hide TablesOk, QueueOk, BytesOk, Accounts, Remote;
      QueueDrop(tombQ, tombSeq, nextSeq, id);
      ForgetAccount(me, states, meta, removedAt, tombSeq, wireBytes, heard, id);
      RemoteDrop(states, me, id);
      ForgetTombstone(id);
    }
  }

  /**
    A live state of the own client is refused: the room may track one client, tracks one of
    another peer, and has no tombstone to reclaim.
  */
  method OwnClientRefused(me: nat, other: nat, mine: Entry, theirs: Entry) returns (room: Awareness)
    requires me != other && mine.client == me && theirs.client == other && EntryOk(mine) && EntryOk(theirs)
    requires mine.decoded.Some? && theirs.decoded.Some?
    ensures room.me == me && room.maxClients == 1 && room.Valid()
    ensures Refused(room.Rules(), room.Here(), mine, false, true)
    ensures room.states == map[other := ClientState(theirs.clock, theirs.decoded)]
  {
    hide TablesOk, QueueOk, BytesOk, Accounts, Taken, Refused;
    room := new Awareness(me, 0, 1, 0);
    ghost var empty := room.Here();
    room.ApplyEntry(theirs, 0, false, true);
    FirstIn(room.Rules(), empty, theirs, room.Here());
    ghost var one := room.Here();
    NoTombstone(me, other, one);
    room.ApplyEntry(mine, 0, false, true);
    SecondOut(room.Rules(), one, other, mine, room.Here());
  }

  /** The first entry is let in. */
  lemma FirstIn(l: Limits, r: Room, e: Entry, r': Room)
    requires r.states == map[] && l.maxBytes == 0 && l.maxClients == 1 && e.client != l.me && e.decoded.Some?
    requires Taken(l, r, e, 0, false, true, r')
    ensures r'.states == map[e.client := ClientState(e.clock, e.decoded)]
  {
    assert Remote(r.states, l.me) == {};
  }

  lemma NoTombstone(me: nat, other: nat, r: Room)
    requires TablesOk(me, r.states, r.meta, r.removedAt, r.tombSeq, r.wireBytes)
    requires r.states.Keys == {other} && r.states[other].state.Some?
    ensures r.tombSeq == map[]
  {
    assert forall id :: id !in r.removedAt;
    assert r.tombSeq.Keys == {};
  }

  /** A room with one client and no tombstone lets nobody else in. */
  lemma SecondOut(l: Limits, r: Room, other: nat, e: Entry, r': Room)
    requires l.maxClients == 1 && r.tombSeq == map[] && r.states.Keys == {other} && other != l.me && e.client == l.me
    requires e.decoded.Some? && EntryOk(e) && Taken(l, r, e, 0, false, true, r')
    ensures r' == r && Refused(l, r, e, false, true)
  {
    assert Remote(r.states, l.me) == {other};
  }

  method CheckSize(entries: seq<Entry>) returns (ok: bool)
    ensures ok <==> |entries| <= MAX_CLIENTS && forall k :: 0 <= k < |entries| ==> entries[k].size <= MAX_STATE_BYTES
  {
    if |entries| > MAX_CLIENTS {
      return false;
    }
    var i := 0;
    while i < |entries|
      invariant 0 <= i <= |entries| && forall k :: 0 <= k < i ==> entries[k].size <= MAX_STATE_BYTES
    {
      if entries[i].size > MAX_STATE_BYTES {
        return false;
      }
      i := i + 1;
    }
    return true;
  }

  const MAX_CLIENTS := 100_000

  const MAX_STATE_BYTES := 0x10_0000

  /** The clock gate: news, or a removal of a live client at its own clock. */
  predicate Passes(states: map<nat, ClientState>, e: Entry) {
    e.client !in states
    || e.clock > states[e.client].clock
    || (e.clock == states[e.client].clock && e.isNull && states[e.client].state.Some?)
  }

  /** The states after an entry for another peer's client, without any limits. */
  function Merged(states: map<nat, ClientState>, e: Entry): map<nat, ClientState> {
    if Passes(states, e) then states[e.client := ClientState(e.clock, e.decoded)] else states
  }

  function Old(wireBytes: map<nat, nat>, id: nat): nat {
    if id in wireBytes then wireBytes[id] else 0
  }

  lemma RemoteAdd(states: map<nat, ClientState>, me: nat, id: nat, s: ClientState)
    ensures var states' := states[id := s];
            |Remote(states', me)| == |Remote(states, me)| + (if id == me || id in states then 0 else 1)
  {
    var states' := states[id := s];
    if id == me || id in states {
      assert Remote(states', me) == Remote(states, me);
    } else {
      assert Remote(states', me) == Remote(states, me) + {id};
    }
  }

  lemma TablesRetire(me: nat, states: map<nat, ClientState>, meta: map<nat, int>, removedAt: map<nat, int>,
                     tombSeq: map<nat, nat>, wireBytes: map<nat, nat>, id: nat, clock: nat, now: int, n: nat)
    requires TablesOk(me, states, meta, removedAt, tombSeq, wireBytes)
    ensures TablesOk(me, states[id := ClientState(clock, None)], meta - {id},
                     if id == me then removedAt else removedAt[id := now],
                     if id == me then tombSeq else tombSeq[id := n],
                     wireBytes - {id})
  {
    var states' := states[id := ClientState(clock, None)];
    var meta' := meta - {id};
    var removedAt' := if id == me then removedAt else removedAt[id := now];
    forall j
      ensures j in meta' <==> LiveIn(states', j)
      ensures j in removedAt' <==> DeadIn(states', j) && j != me
    {
      assert j != id ==> (LiveIn(states', j) <==> LiveIn(states, j)) && (DeadIn(states', j) <==> DeadIn(states, j));
    }
  }

  lemma TablesAccept(me: nat, states: map<nat, ClientState>, meta: map<nat, int>, removedAt: map<nat, int>,
                     tombSeq: map<nat, nat>, wireBytes: map<nat, nat>, e: Entry, now: int)
    requires TablesOk(me, states, meta, removedAt, tombSeq, wireBytes) && e.decoded.Some? && e.size > 0
    ensures TablesOk(me, states[e.client := ClientState(e.clock, e.decoded)], meta[e.client := now],
                     removedAt - {e.client}, tombSeq - {e.client}, wireBytes[e.client := e.size])
  {
    var states' := states[e.client := ClientState(e.clock, e.decoded)];
    var meta', removedAt' := meta[e.client := now], removedAt - {e.client};
    forall j
      ensures j in meta' <==> LiveIn(states', j)
      ensures j in removedAt' <==> DeadIn(states', j) && j != me
    {
      assert j != e.client ==>
               (LiveIn(states', j) <==> LiveIn(states, j)) && (DeadIn(states', j) <==> DeadIn(states, j));
    }
  }

  lemma TablesReset(me: nat, states: map<nat, ClientState>, meta: map<nat, int>, removedAt: map<nat, int>,
                    tombSeq: map<nat, nat>, wireBytes: map<nat, nat>, clock: nat)
    requires TablesOk(me, states, meta, removedAt, tombSeq, wireBytes) && LiveIn(states, me)
    ensures TablesOk(me, states[me := ClientState(clock, states[me].state)], meta, removedAt, tombSeq, wireBytes)
  {
    var states' := states[me := ClientState(clock, states[me].state)];
    assert forall id :: (LiveIn(states', id) <==> LiveIn(states, id)) && (DeadIn(states', id) <==> DeadIn(states, id));
  }

  lemma ForgetAccount(me: nat, states: map<nat, ClientState>, meta: map<nat, int>, removedAt: map<nat, int>,
                      tombSeq: map<nat, nat>, wireBytes: map<nat, nat>, heard: map<nat, Entry>, id: nat)
    requires TablesOk(me, states, meta, removedAt, tombSeq, wireBytes) && Accounts(me, states, wireBytes, heard)
    requires id in removedAt
    ensures Accounts(me, states - {id}, wireBytes, heard)
  {
    assert id !in wireBytes;
    AccountsSame(me, states, wireBytes, heard, states - {id});
  }

  lemma QueueBound(q: seq<TombRef>, seqs: map<nat, nat>, next: nat)
    requires QueueOk(q, seqs, next)
    ensures forall id :: id in seqs ==> seqs[id] <= next
  {
    forall id | id in seqs
      ensures seqs[id] <= next
    {
      var k :| 0 <= k < |q| && q[k] == TombRef(id, seqs[id]);
    }
  }

  lemma RemoteDrop(states: map<nat, ClientState>, me: nat, id: nat)
    ensures |Remote(states - {id}, me)| <= |Remote(states, me)|
    ensures id in states && id != me ==> |Remote(states - {id}, me)| == |Remote(states, me)| - 1
  {
    assert Remote(states - {id}, me) == Remote(states, me) - {id};
  }

  lemma TombstoneIn(me: nat, states: map<nat, ClientState>, meta: map<nat, int>, removedAt: map<nat, int>,
                    tombSeq: map<nat, nat>, wireBytes: map<nat, nat>, id: nat)
    requires TablesOk(me, states, meta, removedAt, tombSeq, wireBytes) && id in tombSeq
    ensures id in removedAt && DeadIn(states, id) && id in states && id != me
  {
    assert id in removedAt.Keys;
  }

  lemma TablesLocal(me: nat, states: map<nat, ClientState>, meta: map<nat, int>, removedAt: map<nat, int>,
                    tombSeq: map<nat, nat>, wireBytes: map<nat, nat>, s: ClientState, now: int)
    requires TablesOk(me, states, meta, removedAt, tombSeq, wireBytes)
    ensures var meta' := if s.state.None? then meta - {me} else meta[me := now];
            TablesOk(me, states[me := s], meta', removedAt, tombSeq, wireBytes)
  {
    var states' := states[me := s];
    assert forall id :: id != me ==>
             (LiveIn(states', id) <==> LiveIn(states, id)) && (DeadIn(states', id) <==> DeadIn(states, id));
  }

  // --------------------------------------------------------------------- convergence

  function MergeAll(states: map<nat, ClientState>, entries: seq<Entry>): map<nat, ClientState> {
    if entries == [] then states
    else Merged(MergeAll(states, entries[..|entries| - 1]), entries[|entries| - 1])
  }

  lemma MergeNone(states: map<nat, ClientState>, entries: seq<Entry>)
    ensures MergeAll(states, entries[..0]) == states
  {
    assert entries[..0] == [];
  }

  lemma MergeNext(states: map<nat, ClientState>, entries: seq<Entry>, i: nat)
    requires i < |entries|
    ensures MergeAll(states, entries[..i + 1]) == Merged(MergeAll(states, entries[..i]), entries[i])
  {
    assert entries[..i + 1][..i] == entries[..i];
  }

  /** At one clock a client has announced one state. */
  ghost predicate OneStatePerClock(entries: set<Entry>) {
    forall e, f ::
      e in entries && f in entries && e.client == f.client && e.clock == f.clock && !e.isNull && !f.isNull ==>
      e.decoded == f.decoded
  }

  /** Each client has its latest clock, and a state unless an entry of that clock has none. */
  ghost predicate Describes(states: map<nat, ClientState>, entries: set<Entry>) {
    && (forall e :: e in entries ==> e.client in states && e.clock <= states[e.client].clock)
    && (forall id :: id in states ==> Attained(entries, id, states[id]))
    && (forall e :: e in entries && e.clock == states[e.client].clock && e.decoded.None? ==>
          states[e.client].state.None?)
  }

  ghost predicate Attained(entries: set<Entry>, id: nat, s: ClientState) {
    exists e :: e in entries && e.client == id && e.clock == s.clock && e.decoded == s.state
  }

  lemma DescribesStep(states: map<nat, ClientState>, entries: set<Entry>, e: Entry)
    requires Describes(states, entries) && EntryOk(e) && OneStatePerClock(entries + {e})
    requires forall f :: f in entries ==> EntryOk(f)
    ensures Describes(Merged(states, e), entries + {e})
  {
    var states', all := Merged(states, e), entries + {e};
    forall id | id in states'
      ensures Attained(all, id, states'[id])
    {
      if Passes(states, e) && id == e.client {
        assert e in all;
      } else {
        assert Attained(entries, id, states[id]);
        var f :| f in entries && f.client == id && f.clock == states[id].clock && f.decoded == states[id].state;
        assert f in all;
      }
    }
    forall f | f in all && f.client in states' && f.clock == states'[f.client].clock && f.decoded.None?
      ensures states'[f.client].state.None?
    {
      if f.client == e.client && e.client in states && !Passes(states, e) && f == e {
        assert Attained(entries, e.client, states[e.client]);
        var g :| g in entries && g.client == e.client && g.clock == e.clock && g.decoded == states[e.client].state;
        assert g in all && e in all;
      }
    }
  }

  lemma {:induction false} MergeAllDescribes(states: map<nat, ClientState>, base: set<Entry>, entries: seq<Entry>)
    requires Describes(states, base) && OneStatePerClock(base + set e | e in entries)
    requires (forall e :: e in base ==> EntryOk(e)) && forall k :: 0 <= k < |entries| ==> EntryOk(entries[k])
    ensures Describes(MergeAll(states, entries), base + set e | e in entries)
    decreases |entries|
  {
    if entries == [] {
      assert base + (set e | e in entries) == base;
    } else {
      var init, last := entries[..|entries| - 1], entries[|entries| - 1];
      assert entries == init + [last];
      assert base + (set e | e in entries) == base + (set e | e in init) + {last};
      MergeAllDescribes(states, base, init);
      DescribesStep(MergeAll(states, init), base + (set e | e in init), last);
    }
  }

  lemma DescribesOne(states: map<nat, ClientState>, states': map<nat, ClientState>, entries: set<Entry>)
    requires Describes(states, entries) && Describes(states', entries) && OneStatePerClock(entries)
    requires forall e :: e in entries ==> EntryOk(e)
    ensures states == states'
  {
    forall id
      ensures id in states <==> id in states'
      ensures id in states ==> states[id] == states'[id]
    {
      if id in states {
        assert Attained(entries, id, states[id]);
        var e :| e in entries && e.client == id && e.clock == states[id].clock && e.decoded == states[id].state;
        assert Attained(entries, id, states'[id]);
        var f :| f in entries && f.client == id && f.clock == states'[id].clock && f.decoded == states'[id].state;
      }
      if id in states' {
        assert Attained(entries, id, states'[id]);
      }
    }
  }

  /** No entry tells another state at a clock than the one known there. */
  ghost predicate Consistent(states: map<nat, ClientState>, entries: set<Entry>) {
    forall e :: e in entries && !e.isNull && LiveIn(states, e.client) && e.clock == states[e.client].clock ==>
      e.decoded == states[e.client].state
  }

  /** Entries that lead to the given states. */
  ghost function Told(states: map<nat, ClientState>): set<Entry> {
    set id | id in states :: Entry(id, states[id].clock, 1, states[id].state.None?, states[id].state)
  }

  lemma ToldDescribes(states: map<nat, ClientState>, entries: set<Entry>)
    requires Consistent(states, entries) && OneStatePerClock(entries)
    ensures Describes(states, Told(states)) && OneStatePerClock(Told(states) + entries)
    ensures forall e :: e in Told(states) ==> EntryOk(e)
  {
    forall id | id in states
      ensures Attained(Told(states), id, states[id])
    {
      var e := Entry(id, states[id].clock, 1, states[id].state.None?, states[id].state);
      assert e in Told(states);
    }
  }

  /** From any states, any order, and any repetition, of the same entries gives the same states. */
  lemma OrderDoesNotMatter(states: map<nat, ClientState>, xs: seq<Entry>, ys: seq<Entry>)
    requires (set e | e in xs) == (set e | e in ys) && OneStatePerClock(set e | e in xs)
    requires Consistent(states, set e | e in xs)
    requires forall k :: 0 <= k < |xs| ==> EntryOk(xs[k])
    requires forall k :: 0 <= k < |ys| ==> EntryOk(ys[k])
    ensures MergeAll(states, xs) == MergeAll(states, ys)
  {
    hide Describes, MergeAll, Told;
    var all := set e | e in xs;
    ToldDescribes(states, all);
    MergeAllDescribes(states, Told(states), xs);
    MergeAllDescribes(states, Told(states), ys);
    DescribesOne(MergeAll(states, xs), MergeAll(states, ys), Told(states) + all);
  }

  /** The tombstones older than `grace`, without those still to be looked at. */
  ghost function Aged(ages: map<nat, int>, todo: set<nat>, now: int, grace: int): set<nat> {
    set id | id in ages && id !in todo && now - ages[id] >= grace
  }

  /** The room without some tombstones. */
  ghost function Purged(r: Room, gone: set<nat>): Room {
    r.(states := r.states - gone, removedAt := r.removedAt - gone, tombSeq := r.tombSeq - gone)
  }

  lemma PurgedAt(r: Room, gone: set<nat>, id: nat)
    requires id in r.removedAt && id !in gone
    ensures id in Purged(r, gone).removedAt && Purged(r, gone).removedAt[id] == r.removedAt[id]
  {
  }

  lemma PurgedTable(r: Room, id: nat, client: nat)
    requires client !in r.states
    ensures var r' := Purged(r, {id});
            client !in r'.states && r'.wireBytes == r.wireBytes && r'.activeBytes == r.activeBytes
  {
  }

  lemma PurgedMore(r: Room, gone: set<nat>, id: nat)
    ensures Purged(Purged(r, gone), {id}) == Purged(r, gone + {id})
  {
    assert (r.states - gone) - {id} == r.states - (gone + {id});
    assert (r.removedAt - gone) - {id} == r.removedAt - (gone + {id});
    assert (r.tombSeq - gone) - {id} == r.tombSeq - (gone + {id});
  }

  lemma AgedNone(r: Room, now: int, grace: int)
    ensures Aged(r.removedAt, r.removedAt.Keys, now, grace) == {} && Purged(r, {}) == r
  {
    assert r.states - {} == r.states && r.removedAt - {} == r.removedAt && r.tombSeq - {} == r.tombSeq;
  }

  lemma AgedStep(ages: map<nat, int>, todo: set<nat>, now: int, grace: int, id: nat)
    requires id in todo && id in ages
    ensures var aged, aged' := Aged(ages, todo, now, grace), Aged(ages, todo - {id}, now, grace);
            && id !in aged
            && if now - ages[id] >= grace then aged' == aged + {id} && |aged'| == |aged| + 1 else aged' == aged
  {
    var aged, aged' := Aged(ages, todo, now, grace), Aged(ages, todo - {id}, now, grace);
    if now - ages[id] >= grace { assert aged' == aged + {id}; } else { assert aged' == aged; }
  }
}
