/**
  The caller, as the identity provider reports it: `auth()` yields an optional
  user id and organization id, `currentUser()` an optional profile. The
  provider itself is not modelled; every procedure receives its answers as a
  `Ctx` value.
 */
module Session {
  import opened Wrappers

  /** A profile as returned by `currentUser()`. */
  datatype User = User(
    id: string,
    username: Option<string>,
    firstName: Option<string>,
    lastName: Option<string>,
    imageUrl: string)

  /** What one request knows about its caller. */
  datatype Ctx = Ctx(userId: Option<string>, orgId: Option<string>, user: Option<User>)

  /** The tRPC error codes the procedures raise. */
  datatype Code = Unauthorized | BadRequest | NotFound | Forbidden

  /** JavaScript truthiness of an optional string: absent and "" are both falsy. */
  predicate Present(s: Option<string>) {
    s.Some? && s.value != ""
  }

  /** The guard `!userId || !orgId` at the top of every procedure, negated. */
  predicate SignedIn(ctx: Ctx) {
    Present(ctx.userId) && Present(ctx.orgId)
  }

  /** The acting organization (tenant) of a signed-in caller. */
  function Org(ctx: Ctx): string
    requires SignedIn(ctx)
  {
    ctx.orgId.value
  }
}
