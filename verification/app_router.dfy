/** The root router's own query: the recent activity of one card. */
module AppRouter {
  import opened Wrappers
  import opened Session
  import opened AuditLog

  /** The `where` of the activity query. */
  predicate Matches(e: Entry, org: string, cardId: string) {
    e.orgId == org && e.entityId == cardId && e.entityType == CardEntity
  }

  /** The entries the query's filter admits, in log order. */
  function Matching(logs: seq<Entry>, org: string, cardId: string): (m: seq<Entry>)
    ensures forall e :: e in multiset(m) ==> Matches(e, org, cardId)
    ensures forall e :: Matches(e, org, cardId) ==> multiset(m)[e] == multiset(logs)[e]
    decreases |logs|
  {
    if |logs| == 0 then []
    else
      var rest := Matching(logs[1..], org, cardId);
      assert logs == [logs[0]] + logs[1..];
      if Matches(logs[0], org, cardId) then [logs[0]] + rest else rest
  }

  /** The position of a newest entry. */
  method Newest(pool: seq<Entry>) returns (k: nat)
    requires |pool| > 0
    ensures k < |pool|
    ensures forall i :: 0 <= i < |pool| ==> pool[i].createdAt <= pool[k].createdAt
  {
    k := 0;
    var i := 1;
    while i < |pool|
      invariant 1 <= i <= |pool|
      invariant k < i
      invariant forall j :: 0 <= j < i ==> pool[j].createdAt <= pool[k].createdAt
    {
      if pool[i].createdAt > pool[k].createdAt {
        k := i;
      }
      i := i + 1;
    }
  }

  lemma RemoveAt(pool: seq<Entry>, k: nat)
    requires k < |pool|
    ensures multiset(pool[..k] + pool[k+1..]) + multiset{pool[k]} == multiset(pool)
    ensures forall e :: e in pool[..k] + pool[k+1..] ==> e in pool
  {
    assert pool == pool[..k] + [pool[k]] + pool[k+1..];
  }

  /** One round of the selection keeps its invariants. */
  lemma PickStep(picked: seq<Entry>, pool: seq<Entry>, k: nat, all: seq<Entry>)
    requires k < |pool|
    requires forall i :: 0 <= i < |pool| ==> pool[i].createdAt <= pool[k].createdAt
    requires multiset(picked) + multiset(pool) == multiset(all)
    requires NewestFirst(picked)
    requires |picked| > 0 ==> NoneNewer(pool, picked[|picked| - 1].createdAt)
    ensures multiset(picked + [pool[k]]) + multiset(pool[..k] + pool[k+1..]) == multiset(all)
    ensures NewestFirst(picked + [pool[k]])
    ensures NoneNewer(pool[..k] + pool[k+1..], pool[k].createdAt)
  {
    RemoveAt(pool, k);
    assert pool[k] in pool;
  }

  /** When the selection stops, the entries left in the pool are the ones left out. */
  lemma Leftover(picked: seq<Entry>, pool: seq<Entry>, all: seq<Entry>)
    requires multiset(picked) + multiset(pool) == multiset(all)
    requires NewestFirst(picked)
    requires |picked| > 0 ==> NoneNewer(pool, picked[|picked| - 1].createdAt)
    ensures |picked| + |pool| == |all|
    ensures multiset(picked) <= multiset(all)
    ensures forall e :: e in multiset(all) - multiset(picked) ==>
      forall i :: 0 <= i < |picked| ==> e.createdAt <= picked[i].createdAt
  {
    assert |multiset(picked) + multiset(pool)| == |multiset(all)|;
    assert multiset(all) - multiset(picked) == multiset(pool);
  }

  /** Newest first. */
  predicate NewestFirst(s: seq<Entry>) {
    forall i, j :: 0 <= i < j < |s| ==> s[i].createdAt >= s[j].createdAt
  }

  /**
    `picked` is what `orderBy: { createdAt: 'desc' }, take: n` may return from
    `all`: `n` of its entries (all of them, when fewer), newest first, and no
    left-out entry newer than a returned one.
   */
  predicate TopNewest(picked: seq<Entry>, all: seq<Entry>, n: nat) {
    && |picked| == (if |all| < n then |all| else n)
    && multiset(picked) <= multiset(all)
    && NewestFirst(picked)
    && forall e :: e in multiset(all) - multiset(picked) ==>
         forall i :: 0 <= i < |picked| ==> e.createdAt <= picked[i].createdAt
  }

  /** No entry of `pool` is newer than `t`. */
  predicate NoneNewer(pool: seq<Entry>, t: int) {
    forall e :: e in pool ==> e.createdAt <= t
  }

  /**
    `orderBy: { createdAt: 'desc' }, take: n`: a newest-first selection of
    `n` entries (or all of them, when fewer) that no left-out entry is newer
    than. Entries with equal timestamps may come in either order.
   */
  method TakeNewest(all: seq<Entry>, n: nat) returns (picked: seq<Entry>)
    ensures TopNewest(picked, all, n)
  {
    var pool := all;
    picked := [];
    while |picked| < n && |pool| > 0
      invariant multiset(picked) + multiset(pool) == multiset(all)
      invariant |picked| <= n
      invariant NewestFirst(picked)
      invariant |picked| > 0 ==> NoneNewer(pool, picked[|picked| - 1].createdAt)
      decreases |pool|
    {
      var k := Newest(pool);
      PickStep(picked, pool, k, all);
      picked, pool := picked + [pool[k]], pool[..k] + pool[k+1..];
    }
    Leftover(picked, pool, all);
  }

  /**
    `getLogs`: the caller's organization's entries about card `cardId`,
    newest first, at most three of them.
   */
  method GetLogs(ctx: Ctx, logs: seq<Entry>, cardId: string) returns (r: Result<seq<Entry>, Code>)
    ensures r.Err? <==> !SignedIn(ctx)
    ensures r.Err? ==> r.error == Unauthorized
    ensures r.Ok? ==> TopNewest(r.value, Matching(logs, Org(ctx), cardId), 3)
  {
    if !SignedIn(ctx) {
      return Err(Unauthorized);
    }
    var picked := TakeNewest(Matching(logs, Org(ctx), cardId), 3);
    r := Ok(picked);
  }

  /**
    What `getLogs` returns, stated against the whole log: every entry is the
    caller's organization's, about that card; each comes from the log; and
    no matching entry that was left out is newer than a returned one.
   */
  lemma TopOfMatching(picked: seq<Entry>, logs: seq<Entry>, org: string, cardId: string, n: nat)
    requires TopNewest(picked, Matching(logs, org, cardId), n)
    ensures forall i :: 0 <= i < |picked| ==> Matches(picked[i], org, cardId)
    ensures multiset(picked) <= multiset(logs)
    ensures forall e :: Matches(e, org, cardId) && multiset(picked)[e] < multiset(logs)[e] ==>
      forall i :: 0 <= i < |picked| ==> e.createdAt <= picked[i].createdAt
  {
    var all := Matching(logs, org, cardId);
    assert forall e :: e in multiset(picked) ==> e in multiset(all);
    assert forall i :: 0 <= i < |picked| ==> picked[i] in multiset(picked);
    assert multiset(picked) <= multiset(logs) by {
      forall e | e in multiset(picked)
        ensures multiset(picked)[e] <= multiset(logs)[e]
      {
        assert multiset(picked)[e] <= multiset(all)[e];
      }
    }
    forall e | Matches(e, org, cardId) && multiset(picked)[e] < multiset(logs)[e]
      ensures e in multiset(all) - multiset(picked)
    {
    }
  }
}
