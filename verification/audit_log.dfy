/**
  The audit log: one entry per successful mutation, written best-effort.
  Writing never fails the caller; without a profile or an organization it
  writes nothing.
 */
module AuditLog {
  import opened Wrappers
  import opened Session

  datatype EntityType = BoardEntity | ListEntity | CardEntity
  datatype Action = Create | Update | Delete

  /** A row of the audit-log table; `createdAt` is the clock reading passed in as `now`. */
  datatype Entry = Entry(
    orgId: string,
    entityId: string,
    entityType: EntityType,
    entityTitle: string,
    action: Action,
    userId: string,
    userImage: string,
    userName: string,
    createdAt: int)

  /**
    The name shown for the acting user: the username, else "first last"
    when both are set, else whichever of the two is set, else the user id.
    Empty strings count as unset.
   */
  function DisplayName(u: User): (name: string)
    ensures Present(u.username) ==> name == u.username.value
    ensures !Present(u.username) && Present(u.firstName) && Present(u.lastName) ==>
      name == u.firstName.value + " " + u.lastName.value
    ensures !Present(u.username) && Present(u.firstName) && !Present(u.lastName) ==> name == u.firstName.value
    ensures !Present(u.username) && !Present(u.firstName) && Present(u.lastName) ==> name == u.lastName.value
    ensures !Present(u.username) && !Present(u.firstName) && !Present(u.lastName) ==> name == u.id
  {
    if Present(u.username) then u.username.value
    else if Present(u.firstName) && Present(u.lastName) then u.firstName.value + " " + u.lastName.value
    else if Present(u.firstName) then u.firstName.value
    else if Present(u.lastName) then u.lastName.value
    else u.id
  }

  /** The fallback chain always yields a name when the user id is non-empty. */
  lemma DisplayNameNonEmpty(u: User)
    requires u.id != ""
    ensures DisplayName(u) != ""
  {
  }

  /** Whether a write can happen at all: `currentUser()` and the organization are known. */
  predicate CanWrite(ctx: Ctx) {
    ctx.user.Some? && Present(ctx.orgId)
  }

  /** `createAuditLog`: the log after the attempt; a failed attempt leaves it as it was. */
  function CreateAuditLog(ctx: Ctx, logs: seq<Entry>, entityId: string, entityType: EntityType,
                          entityTitle: string, action: Action, now: int): (r: seq<Entry>)
    ensures !CanWrite(ctx) ==> r == logs
    ensures CanWrite(ctx) ==> |r| == |logs| + 1 && r[..|logs|] == logs
    ensures CanWrite(ctx) ==>
      var e := r[|logs|];
      && e.orgId == ctx.orgId.value
      && e.userId == ctx.user.value.id
      && e.entityId == entityId && e.entityType == entityType
      && e.entityTitle == entityTitle && e.action == action
      && e.userImage == ctx.user.value.imageUrl
      && e.userName == DisplayName(ctx.user.value)
      && e.createdAt == now
  {
    if ctx.user.None? || !Present(ctx.orgId) then logs
    else
      var u := ctx.user.value;
      logs + [Entry(ctx.orgId.value, entityId, entityType, entityTitle, action,
                    u.id, u.imageUrl, DisplayName(u), now)]
  }
}
