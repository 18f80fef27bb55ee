/**
  The board procedures. Board creation is gated by the free-board counter
  unless the organization is subscribed (`isPro`, the answer of the
  subscription check, which is not modelled); `maxFree` is the free-plan limit.
 */
module BoardRoutes {
  import opened Wrappers
  import opened Session
  import opened Db
  import opened AuditLog
  import ImageField
  import OrgLimit

  /** `getBoardById`: the board when it belongs to the caller's organization, else null. */
  function GetBoardById(ctx: Ctx, s: Store, id: string): (r: Result<Option<Row<Board>>, Code>)
    ensures r.Err? <==> !SignedIn(ctx)
    ensures r.Err? ==> r.error == Unauthorized
    ensures r.Ok? ==> (r.value.Some? <==> BoardInOrg(s, id, Org(ctx)))
    ensures r.Ok? && r.value.Some? ==> r.value.value == Row(id, s.boards[id])
  {
    if !SignedIn(ctx) then Err(Unauthorized)
    else if BoardInOrg(s, id, Org(ctx)) then Ok(Some(Row(id, s.boards[id])))
    else Ok(None)
  }

  /** The free plan has no room left for the caller's organization. */
  predicate AtFreeLimit(ctx: Ctx, s: Store, maxFree: int)
    requires SignedIn(ctx)
  {
    Org(ctx) in s.limits && s.limits[Org(ctx)] >= maxFree
  }

  /**
    `createBoard`: FORBIDDEN at the free limit without a subscription;
    BAD_REQUEST when the image value lacks one of its five fields; otherwise
    a board of the caller's organization, counted against the free plan
    unless subscribed.
   */
  function CreateBoard(ctx: Ctx, s: Store, title: string, image: string, newId: string,
                       isPro: bool, maxFree: int, now: int): (r: Result<Reply<Row<Board>>, Code>)
    ensures !SignedIn(ctx) ==> r == Err(Unauthorized)
    ensures SignedIn(ctx) ==> (r == Err(Forbidden) <==> !isPro && AtFreeLimit(ctx, s, maxFree))
    ensures SignedIn(ctx) && (isPro || !AtFreeLimit(ctx, s, maxFree)) && ImageField.Parse(image).Err? ==>
      r == Err(BadRequest)
    ensures r.Err? ==> r.error == Unauthorized || r.error == Forbidden || r.error == BadRequest
    ensures r == Err(Unauthorized) ==> !SignedIn(ctx)
    ensures r.Ok? <==> SignedIn(ctx) && (isPro || !AtFreeLimit(ctx, s, maxFree))
                       && ImageField.Parse(image).Ok? && newId !in s.boards
    ensures r.Ok? ==>
      var s', b := r.value.store, r.value.out;
      && b == Row(newId, Board(title, Org(ctx), ImageField.Parse(image).value))
      && s'.boards == s.boards[newId := b.val]
      && s'.lists == s.lists && s'.cards == s.cards
      && (isPro ==> s'.limits == s.limits)
      && (!isPro ==> s'.limits == OrgLimit.Increment(ctx, s.limits).value)
      && s'.logs == CreateAuditLog(ctx, s.logs, newId, BoardEntity, title, Create, now)
  {
    if !SignedIn(ctx) then Err(Unauthorized)
    else
      var canCreate := OrgLimit.HasAvailable(ctx, s.limits, maxFree).value;
      if !canCreate && !isPro then Err(Forbidden)
      else match ImageField.Parse(image)
        case Err(e) => Err(e)
        case Ok(img) =>
          Catch(
            if newId in s.boards then Err(UniqueViolation)
            else
              var board := Board(title, Org(ctx), img);
              var limits := if isPro then s.limits else OrgLimit.Increment(ctx, s.limits).value;
              Ok(Reply(s.(boards := s.boards[newId := board], limits := limits,
                          logs := CreateAuditLog(ctx, s.logs, newId, BoardEntity, title, Create, now)),
                       Row(newId, board))))
  }

  /** `updateBoard`: renames a board of the caller's organization. */
  function UpdateBoard(ctx: Ctx, s: Store, id: string, title: string, now: int): (r: Result<Reply<Row<Board>>, Code>)
    ensures !ValidTitle(title) ==> r == Err(BadRequest)
    ensures ValidTitle(title) && !SignedIn(ctx) ==> r == Err(Unauthorized)
    ensures r.Err? ==> r.error == Unauthorized || r.error == BadRequest
    ensures r == Err(Unauthorized) ==> !SignedIn(ctx)
    ensures r.Ok? <==> ValidTitle(title) && SignedIn(ctx) && id != "" && BoardInOrg(s, id, Org(ctx))
    ensures r.Ok? ==>
      var s' := r.value.store;
      && r.value.out == Row(id, s.boards[id].(title := title))
      && s'.boards == s.boards[id := s.boards[id].(title := title)]
      && s'.lists == s.lists && s'.cards == s.cards && s'.limits == s.limits
      && s'.logs == CreateAuditLog(ctx, s.logs, id, BoardEntity, title, Update, now)
  {
    if !ValidTitle(title) then Err(BadRequest)
    else if !SignedIn(ctx) then Err(Unauthorized)
    else if title == "" || id == "" then Err(BadRequest)
    else Catch(
      if !BoardInOrg(s, id, Org(ctx)) then Err(RecordNotFound)
      else
        var b := s.boards[id].(title := title);
        Ok(Reply(s.(boards := s.boards[id := b],
                    logs := CreateAuditLog(ctx, s.logs, id, BoardEntity, title, Update, now)),
                 Row(id, b))))
  }

  /** `deleteBoard`: removes a board of the caller's organization and, unless subscribed, gives back its free slot. */
  function DeleteBoard(ctx: Ctx, s: Store, id: string, isPro: bool, now: int): (r: Result<Reply<string>, Code>)
    ensures !SignedIn(ctx) ==> r == Err(Unauthorized)
    ensures r.Err? ==> r.error == Unauthorized || r.error == BadRequest
    ensures r == Err(Unauthorized) ==> !SignedIn(ctx)
    ensures r.Ok? <==> SignedIn(ctx) && BoardInOrg(s, id, Org(ctx))
    ensures r.Ok? ==>
      var s' := r.value.store;
      && r.value.out == Org(ctx)
      && s'.boards.Keys == s.boards.Keys - {id}
      && (forall k :: k in s'.boards ==> s'.boards[k] == s.boards[k])
      && (isPro ==> s'.limits == s.limits)
      && (!isPro ==> s'.limits == OrgLimit.Decrease(ctx, s.limits).value)
      && s'.logs == CreateAuditLog(ctx, s.logs, id, BoardEntity, s.boards[id].title, Delete, now)
  {
    if !SignedIn(ctx) then Err(Unauthorized)
    else Catch(
      if !BoardInOrg(s, id, Org(ctx)) then Err(RecordNotFound)
      else
        var limits := if isPro then s.limits else OrgLimit.Decrease(ctx, s.limits).value;
        Ok(Reply(s.(boards := s.boards - {id}, limits := limits,
                    logs := CreateAuditLog(ctx, s.logs, id, BoardEntity, s.boards[id].title, Delete, now)),
                 Org(ctx))))
  }

  /**
    The free-plan counter of an organization stays between 0 and the limit
    across board creation and deletion, whether subscribed or not.
   */
  lemma CreateBoardKeepsLimit(ctx: Ctx, s: Store, title: string, image: string, newId: string,
                              isPro: bool, maxFree: int, now: int)
    requires maxFree >= 1
    requires CreateBoard(ctx, s, title, image, newId, isPro, maxFree, now).Ok?
    requires OrgLimit.WithinLimit(s.limits, Org(ctx), maxFree)
    ensures OrgLimit.WithinLimit(CreateBoard(ctx, s, title, image, newId, isPro, maxFree, now).value.store.limits, Org(ctx), maxFree)
  {
    if !isPro {
      OrgLimit.GatedIncrementStaysWithin(ctx, s.limits, maxFree);
    }
  }

  lemma DeleteBoardKeepsLimit(ctx: Ctx, s: Store, id: string, isPro: bool, maxFree: int, now: int)
    requires maxFree >= 1
    requires DeleteBoard(ctx, s, id, isPro, now).Ok?
    requires OrgLimit.WithinLimit(s.limits, Org(ctx), maxFree)
    ensures OrgLimit.WithinLimit(DeleteBoard(ctx, s, id, isPro, now).value.store.limits, Org(ctx), maxFree)
  {
    if !isPro {
      OrgLimit.DecreaseStaysWithin(ctx, s.limits, maxFree);
    }
  }

  /** A board created without a subscription and then deleted leaves an existing non-negative counter as it was. */
  lemma CreateThenDeleteRestoresCount(ctx: Ctx, s: Store, title: string, image: string, newId: string,
                                      maxFree: int, now: int, later: int)
    requires CreateBoard(ctx, s, title, image, newId, false, maxFree, now).Ok?
    requires Org(ctx) in s.limits && s.limits[Org(ctx)] >= 0
    ensures var s1 := CreateBoard(ctx, s, title, image, newId, false, maxFree, now).value.store;
      DeleteBoard(ctx, s1, newId, false, later).Ok?
      && DeleteBoard(ctx, s1, newId, false, later).value.store.limits == s.limits
  {
    OrgLimit.DecreaseUndoesIncrement(ctx, s.limits);
  }
}
