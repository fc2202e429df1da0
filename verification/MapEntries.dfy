/**
  Entries of a map type.  The value of a key is the rightmost unit of that key, and
  every replica finds the same one.
*/
module MapEntries {
  import opened Base
  import opened Yata
  import opened KeyedLists
  import opened Replication

  /** The rightmost unit of key `k`. */
  ghost function LastOf(s: seq<Unit>, k: Option<string>): Option<Id> {
    if s == [] then None
    else if s[|s| - 1].key == k then Some(s[|s| - 1].id)
    else LastOf(s[..|s| - 1], k)
  }

  lemma {:induction false} LastOfConcat(a: seq<Unit>, b: seq<Unit>, k: Option<string>)
    ensures LastOf(a + b, k) == if LastOf(b, k).Some? then LastOf(b, k) else LastOf(a, k)
  {
    if b == [] {
      assert a + b == a;
    } else {
      assert (a + b)[..|a + b| - 1] == a + b[..|b| - 1];
      LastOfConcat(a, b[..|b| - 1], k);
    }
  }

  lemma {:induction false} LastOfNone(s: seq<Unit>, k: Option<string>)
    ensures LastOf(s, k).None? <==> forall i :: 0 <= i < |s| ==> s[i].key != k
    ensures LastOf(s, k).Some? ==> exists i :: 0 <= i < |s| && s[i].key == k && LastOf(s, k) == Some(s[i].id)
  {
    if s != [] {
      LastOfNone(s[..|s| - 1], k);
      assert forall i :: 0 <= i < |s| - 1 ==> s[..|s| - 1][i] == s[i];
      if s[|s| - 1].key != k && LastOf(s[..|s| - 1], k).Some? {
        var i :| 0 <= i < |s| - 1 && s[i].key == k && LastOf(s[..|s| - 1], k) == Some(s[i].id);
      }
    }
  }

  /** The winner of a key is the end of the list of that key. */
  lemma {:induction false} LastOfProj(s: seq<Unit>, k: Option<string>)
    ensures LastOf(s, k) == LastOf(Proj(s, k), k)
    ensures Proj(s, k) != [] ==> LastOf(s, k) == Some(Proj(s, k)[|Proj(s, k)| - 1].id)
  {
    if s != [] {
      var s', last := s[..|s| - 1], s[|s| - 1];
      LastOfProj(s', k);
      if last.key == k {
        assert Proj(s, k) == Proj(s', k) + [last];
      } else {
        assert Proj(s, k) == Proj(s', k);
      }
    }
  }

  /** Replicas that received the same units have the same winner for every key, in every run. */
  lemma SameWinners(run: seq<Sys>, events: seq<Event>, i: nat, a: nat, b: nat, p: Parent, k: Option<string>)
    requires IsRun(run, events) && i < |run|
    requires forall c :: NextClock(DocOf(run[i], a), c) == NextClock(DocOf(run[i], b), c)
    ensures LastOf(ListOf(DocOf(run[i], a), p), k) == LastOf(ListOf(DocOf(run[i], b), p), k)
  {
    Convergence(run, events, i, a, b, p, k);
    LastOfProj(ListOf(DocOf(run[i], a), p), k);
    LastOfProj(ListOf(DocOf(run[i], b), p), k);
  }

  /** Following left origins from unit `m` leads to unit `j`. */
  ghost predicate Leads(s: seq<Unit>, m: int, j: int)
    requires 0 <= m < |s|
    decreases m
  {
    m == j || (0 <= L(s, s[m]) < m && Leads(s, L(s, s[m]), j))
  }

  lemma InConflict(s: seq<Unit>, i: int, j: int)
    requires Ordered(s) && 0 <= i < j < |s| && L(s, s[j]) < i && j < R(s, s[i])
    ensures Wins(s, i, j)
  {
  }

  /** Siblings of a unit, written over the same value, stand before it if it leads to a later unit. */
  lemma {:induction false} SiblingsBefore(s: seq<Unit>, past: Past, m: int, j: int, i: int)
    requires Inv(s, past) && 0 <= i <= m < |s| && 0 <= j < |s| && Leads(s, m, j)
    requires s[i].right.None? && s[i].origin == s[j].origin
    ensures i <= j
    decreases m
  {
    if j < i {
      LeadsDown(s, m, j);
      var o := L(s, s[m]);
      assert L(s, s[i]) == L(s, s[j]);
      At(s, past, j);
      if m != j {
        LeadsDown(s, o, j);
        if o < i && i < m { InConflict(s, i, m); }
        if i <= o { SiblingsBefore(s, past, o, j, i); }
      }
    }
  }

  lemma {:induction false} LeadsDown(s: seq<Unit>, m: int, j: int)
    requires 0 <= m < |s| && Leads(s, m, j)
    ensures j <= m
    decreases m
  {
    if m != j { LeadsDown(s, L(s, s[m]), j); }
  }

  /**
    The winner of a key is found from the first writes on: of the units written over the
    same value, the one of the highest client leads to the winner.  No order of arrival
    enters.
  */
  lemma HighestClientWins(s: seq<Unit>, past: Past, j: nat, i: nat)
    requires Inv(s, past) && i < |s| && j < |s| && Leads(s, |s| - 1, j)
    requires s[i].right.None? && s[i].origin == s[j].origin
    ensures s[i].id.client <= s[j].id.client
  {
    SiblingsBefore(s, past, |s| - 1, j, i);
    if i < j {
      At(s, past, i);
      At(s, past, j);
      InConflict(s, i, j);
    }
  }

  /** In every state of every run, at every replica. */
  lemma WinnerInRun(run: seq<Sys>, events: seq<Event>, n: nat, a: nat, p: Parent, k: Option<string>, j: nat, i: nat)
    requires IsRun(run, events) && n < |run|
    requires var s := Part(DocOf(run[n], a), p, k);
             && i < |s| && j < |s| && Leads(s, |s| - 1, j) && s[i].right.None? && s[i].origin == s[j].origin
    ensures var s := Part(DocOf(run[n], a), p, k);
            LastOf(ListOf(DocOf(run[n], a), p), k) == Some(s[|s| - 1].id) && s[i].id.client <= s[j].id.client
  {
    hide Proj, LastOf, Leads;
    EveryStateOk(run, events, n);
    var s := Part(DocOf(run[n], a), p, k);
    LastOfProj(ListOf(DocOf(run[n], a), p), k);
    HighestClientWins(s, run[n].past, j, i);
  }
}
