/**
  The per-organization free-board counter: a map from organization id to the
  number of boards counted against the free plan. `MAX_FREE_BOARDS` is a
  parameter (`maxFree`).
 */
module OrgLimit {
  import opened Wrappers
  import opened Session

  type Limits = map<string, int>

  /** The count an organization is charged with; an organization without a record has 0. */
  function Count(limits: Limits, org: string): int {
    if org in limits then limits[org] else 0
  }

  /** `incrementAvailableCount` */
  function Increment(ctx: Ctx, limits: Limits): (r: Result<Limits, Code>)
    ensures r.Err? <==> !SignedIn(ctx)
    ensures r.Err? ==> r.error == Unauthorized
    ensures r.Ok? ==> r.value.Keys == limits.Keys + {Org(ctx)}
    ensures r.Ok? ==> Count(r.value, Org(ctx)) == Count(limits, Org(ctx)) + 1
    ensures r.Ok? ==> forall o :: o != Org(ctx) ==> Count(r.value, o) == Count(limits, o)
  {
    if !SignedIn(ctx) then Err(Unauthorized)
    else
      var org := Org(ctx);
      if org in limits then Ok(limits[org := limits[org] + 1])
      else Ok(limits[org := 1])
  }

  /** `decreaseAvailableCount`: saturates at 0, and creates a missing record with count 1. */
  function Decrease(ctx: Ctx, limits: Limits): (r: Result<Limits, Code>)
    ensures r.Err? <==> !SignedIn(ctx)
    ensures r.Err? ==> r.error == Unauthorized
    ensures r.Ok? ==> r.value.Keys == limits.Keys + {Org(ctx)}
    ensures r.Ok? ==> r.value[Org(ctx)] >= 0
    ensures r.Ok? && Org(ctx) in limits ==> r.value[Org(ctx)] == (if limits[Org(ctx)] > 0 then limits[Org(ctx)] - 1 else 0)
    ensures r.Ok? && Org(ctx) !in limits ==> r.value[Org(ctx)] == 1
    ensures r.Ok? ==> forall o :: o != Org(ctx) ==> Count(r.value, o) == Count(limits, o)
  {
    if !SignedIn(ctx) then Err(Unauthorized)
    else
      var org := Org(ctx);
      if org in limits then Ok(limits[org := if limits[org] > 0 then limits[org] - 1 else 0])
      else Ok(limits[org := 1])
  }

  /** `hasAvailableCount` */
  function HasAvailable(ctx: Ctx, limits: Limits, maxFree: int): (r: Result<bool, Code>)
    ensures r.Err? <==> !SignedIn(ctx)
    ensures r.Err? ==> r.error == Unauthorized
    ensures r.Ok? ==> (r.value <==> Org(ctx) !in limits || limits[Org(ctx)] < maxFree)
  {
    if !SignedIn(ctx) then Err(Unauthorized)
    else Ok(Org(ctx) !in limits || limits[Org(ctx)] < maxFree)
  }

  /** `getAvailableCount`: never fails; 0 for an anonymous caller or a missing record. */
  function Available(ctx: Ctx, limits: Limits): (n: int)
    ensures !SignedIn(ctx) ==> n == 0
    ensures SignedIn(ctx) ==> n == Count(limits, Org(ctx))
  {
    if !SignedIn(ctx) then 0
    else if Org(ctx) !in limits then 0
    else limits[Org(ctx)]
  }

  /** With a positive limit, the gate is exactly "the reported count is below the limit". */
  lemma HasAvailableMatchesCount(ctx: Ctx, limits: Limits, maxFree: int)
    requires SignedIn(ctx) && maxFree > 0
    ensures HasAvailable(ctx, limits, maxFree) == Ok(Available(ctx, limits) < maxFree)
  {
  }

  /** Decreasing undoes an increment of an existing, non-negative count. */
  lemma DecreaseUndoesIncrement(ctx: Ctx, limits: Limits)
    requires SignedIn(ctx) && Org(ctx) in limits && limits[Org(ctx)] >= 0
    ensures Increment(ctx, limits).Ok?
    ensures Decrease(ctx, Increment(ctx, limits).value) == Ok(limits)
  {
    var org := Org(ctx);
    var up := Increment(ctx, limits).value;
    assert up[org := limits[org]] == limits;
  }

  /** An organization's count stays within the free limit while every increment passes the gate first. */
  predicate WithinLimit(limits: Limits, org: string, maxFree: int) {
    0 <= Count(limits, org) <= maxFree
  }

  lemma GatedIncrementStaysWithin(ctx: Ctx, limits: Limits, maxFree: int)
    requires SignedIn(ctx) && maxFree >= 1
    requires WithinLimit(limits, Org(ctx), maxFree)
    requires HasAvailable(ctx, limits, maxFree) == Ok(true)
    ensures WithinLimit(Increment(ctx, limits).value, Org(ctx), maxFree)
  {
  }

  lemma DecreaseStaysWithin(ctx: Ctx, limits: Limits, maxFree: int)
    requires SignedIn(ctx) && maxFree >= 1
    requires WithinLimit(limits, Org(ctx), maxFree)
    ensures WithinLimit(Decrease(ctx, limits).value, Org(ctx), maxFree)
  {
  }
}
