/** The card procedures: each a transition of the store that returns a value or an error code. */
module CardRoutes {
  import opened Wrappers
  import opened Session
  import opened Ordering
  import opened Db
  import opened AuditLog

  /** `getCard`'s result: the card with the title of its list. */
  datatype CardWithList = CardWithList(id: string, card: Card, listTitle: string)

  /** One element of `updateCardOrder`'s `items`; its `title` is not written. */
  datatype CardMove = CardMove(id: string, title: string, order: int, listId: string)

  /** `getCard`: the card when it lies in a list of a board of the caller's organization, else null. */
  function GetCard(ctx: Ctx, s: Store, id: string): (r: Result<Option<CardWithList>, Code>)
    ensures r.Err? <==> !SignedIn(ctx)
    ensures r.Err? ==> r.error == Unauthorized
    ensures r.Ok? ==> (r.value.Some? <==> CardInOrg(s, id, Org(ctx)))
    ensures r.Ok? && r.value.Some? ==>
      r.value.value == CardWithList(id, s.cards[id], s.lists[s.cards[id].listId].title)
  {
    if !SignedIn(ctx) then Err(Unauthorized)
    else if CardInOrg(s, id, Org(ctx)) then
      Ok(Some(CardWithList(id, s.cards[id], s.lists[s.cards[id].listId].title)))
    else Ok(None)
  }

  /**
    `createCard`: a new card at the end of list `listId`. A list outside the
    board or the organization raises NOT_FOUND inside the `try`, which the
    `catch` turns into BAD_REQUEST.
   */
  function CreateCard(ctx: Ctx, s: Store, title: string, boardId: string, listId: string,
                      newId: string, now: int): (r: Result<Reply<Row<Card>>, Code>)
    ensures !SignedIn(ctx) ==> r == Err(Unauthorized)
    ensures SignedIn(ctx) && !ListInBoard(s, listId, boardId, Org(ctx)) ==> r == Err(BadRequest)
    ensures r.Err? ==> r.error == Unauthorized || r.error == BadRequest
    ensures r == Err(Unauthorized) ==> !SignedIn(ctx)
    ensures r.Ok? <==> SignedIn(ctx) && ListInBoard(s, listId, boardId, Org(ctx)) && newId !in s.cards
    ensures r.Ok? ==>
      var s', c := r.value.store, r.value.out;
      && c.id == newId
      && c.val.title == title && c.val.description == None && c.val.listId == listId
      && IsNextOrder(c.val.order, CardOrders(s, listId))
      && s'.cards == s.cards[newId := c.val]
      && s'.boards == s.boards && s'.lists == s.lists && s'.limits == s.limits
      && s'.logs == CreateAuditLog(ctx, s.logs, newId, CardEntity, title, Create, now)
  {
    if !SignedIn(ctx) then Err(Unauthorized)
    else Catch(
      if !ListInBoard(s, listId, boardId, Org(ctx)) then Err(Raised(NotFound))
      else if newId in s.cards then Err(UniqueViolation)
      else
        var card := Card(title, None, NextOrder(CardOrders(s, listId)), listId);
        Ok(Reply(s.(cards := s.cards[newId := card],
                    logs := CreateAuditLog(ctx, s.logs, newId, CardEntity, title, Create, now)),
                 Row(newId, card))))
  }

  /** The input rules of `updateCard`: a title or description, when given, has at least 3 characters. */
  predicate ValidCardUpdate(title: Option<string>, description: Option<string>) {
    (title.None? || ValidTitle(title.value)) && (description.None? || ValidTitle(description.value))
  }

  /** `updateCard`: sets the given title and/or description of a card in scope; an omitted field is kept. */
  function UpdateCard(ctx: Ctx, s: Store, id: string, boardId: string, title: Option<string>,
                      description: Option<string>, now: int): (r: Result<Reply<Row<Card>>, Code>)
    ensures !ValidCardUpdate(title, description) ==> r == Err(BadRequest)
    ensures ValidCardUpdate(title, description) && !SignedIn(ctx) ==> r == Err(Unauthorized)
    ensures r.Err? ==> r.error == Unauthorized || r.error == BadRequest
    ensures r == Err(Unauthorized) ==> !SignedIn(ctx)
    ensures r.Ok? <==> ValidCardUpdate(title, description) && SignedIn(ctx) && CardInBoard(s, id, boardId, Org(ctx))
    ensures r.Ok? ==>
      var s', c, before := r.value.store, r.value.out, s.cards[id];
      && c.id == id
      && c.val.title == (if title.Some? then title.value else before.title)
      && c.val.description == (if description.Some? then description else before.description)
      && c.val.order == before.order && c.val.listId == before.listId
      && s'.cards == s.cards[id := c.val]
      && s'.boards == s.boards && s'.lists == s.lists && s'.limits == s.limits
      && s'.logs == CreateAuditLog(ctx, s.logs, id, CardEntity, c.val.title, Update, now)
  {
    if !ValidCardUpdate(title, description) then Err(BadRequest)
    else if !SignedIn(ctx) then Err(Unauthorized)
    else Catch(
      if !CardInBoard(s, id, boardId, Org(ctx)) then Err(RecordNotFound)
      else
        var c := s.cards[id];
        var c' := c.(title := if title.Some? then title.value else c.title,
                     description := if description.Some? then description else c.description);
        Ok(Reply(s.(cards := s.cards[id := c'],
                    logs := CreateAuditLog(ctx, s.logs, id, CardEntity, c'.title, Update, now)),
                 Row(id, c'))))
  }

  /** `deleteCard`: removes the card in scope and leaves the order keys of the other cards as they were. */
  function DeleteCard(ctx: Ctx, s: Store, id: string, boardId: string, now: int): (r: Result<Reply<Row<Card>>, Code>)
    ensures !SignedIn(ctx) ==> r == Err(Unauthorized)
    ensures r.Err? ==> r.error == Unauthorized || r.error == BadRequest
    ensures r == Err(Unauthorized) ==> !SignedIn(ctx)
    ensures r.Ok? <==> SignedIn(ctx) && CardInBoard(s, id, boardId, Org(ctx))
    ensures r.Ok? ==>
      var s' := r.value.store;
      && r.value.out == Row(id, s.cards[id])
      && s'.cards.Keys == s.cards.Keys - {id}
      && (forall k :: k in s'.cards ==> s'.cards[k] == s.cards[k])
      && s'.boards == s.boards && s'.lists == s.lists && s'.limits == s.limits
      && s'.logs == CreateAuditLog(ctx, s.logs, id, CardEntity, s.cards[id].title, Delete, now)
  {
    if !SignedIn(ctx) then Err(Unauthorized)
    else Catch(
      if !CardInBoard(s, id, boardId, Org(ctx)) then Err(RecordNotFound)
      else
        var c := s.cards[id];
        Ok(Reply(s.(cards := s.cards - {id},
                    logs := CreateAuditLog(ctx, s.logs, id, CardEntity, c.title, Delete, now)),
                 Row(id, c))))
  }

  /**
    The updates of `updateCardOrder`'s transaction, run in sequence: each
    checks the card's CURRENT list against the board and organization, then
    writes the item's order and list id. The first failure aborts the whole
    batch and nothing is written.
   */
  function MoveCards(s: Store, boardId: string, org: string, items: seq<CardMove>): (r: Result<Reply<seq<Row<Card>>>, Thrown>)
    ensures r.Err? ==> r.error == RecordNotFound
    ensures r.Ok? ==> |r.value.out| == |items| && forall i :: 0 <= i < |items| ==> r.value.out[i].id == items[i].id
    ensures r.Ok? ==> r.value.store.cards.Keys == s.cards.Keys
    ensures r.Ok? ==>
      var s' := r.value.store;
      s'.boards == s.boards && s'.lists == s.lists && s'.limits == s.limits && s'.logs == s.logs
    decreases |items|
  {
    if |items| == 0 then Ok(Reply(s, []))
    else
      var it := items[0];
      if !CardInBoard(s, it.id, boardId, org) then Err(RecordNotFound)
      else
        var moved := s.cards[it.id].(order := it.order, listId := it.listId);
        match MoveCards(s.(cards := s.cards[it.id := moved]), boardId, org, items[1..])
        case Err(e) => Err(e)
        case Ok(rest) => Ok(Reply(rest.store, [Row(it.id, moved)] + rest.out))
  }

  /** `updateCardOrder`: all of `items` applied in one transaction, or none. */
  function UpdateCardOrder(ctx: Ctx, s: Store, boardId: string, items: seq<CardMove>): (r: Result<Reply<seq<Row<Card>>>, Code>)
    ensures !SignedIn(ctx) ==> r == Err(Unauthorized)
    ensures r.Err? ==> r.error == Unauthorized || r.error == BadRequest
    ensures r == Err(Unauthorized) ==> !SignedIn(ctx)
    ensures r.Ok? ==> r.value.store.cards.Keys == s.cards.Keys
    ensures r.Ok? ==>
      var s' := r.value.store;
      s'.boards == s.boards && s'.lists == s.lists && s'.limits == s.limits && s'.logs == s.logs
  {
    if !SignedIn(ctx) then Err(Unauthorized)
    else Catch(MoveCards(s, boardId, Org(ctx), items))
  }

  /** The position of the last item that names card `id`, or -1. */
  function LastMoveOf(items: seq<CardMove>, id: string): int {
    Ordering.LastIndex(items, (m: CardMove) => m.id, id)
  }

  /** Reference result: card `c` (id `id`) carries the order and list of the last item naming it, if any. */
  function AfterMoves(items: seq<CardMove>, id: string, c: Card): Card {
    var k := LastMoveOf(items, id);
    if k < 0 then c else c.(order := items[k].order, listId := items[k].listId)
  }

  lemma AfterMovesStep(items: seq<CardMove>, id: string, c: Card)
    requires |items| > 0
    ensures AfterMoves(items, id, c) ==
      AfterMoves(items[1..], id, if items[0].id == id then c.(order := items[0].order, listId := items[0].listId) else c)
  {
    var k, j := LastMoveOf(items, id), LastMoveOf(items[1..], id);
    if j >= 0 {
      assert items[j + 1].id == id;
      assert k == j + 1;
    } else if items[0].id == id {
      assert k == 0;
    } else {
      assert k < 0;
    }
  }

  lemma {:induction false} MoveCardsResult(s: Store, boardId: string, org: string, items: seq<CardMove>)
    requires MoveCards(s, boardId, org, items).Ok?
    ensures forall id :: id in s.cards ==>
      MoveCards(s, boardId, org, items).value.store.cards[id] == AfterMoves(items, id, s.cards[id])
    ensures forall k :: 0 <= k < |items| ==> CardInBoard(s, items[k].id, boardId, org)
    decreases |items|
  {
    if |items| > 0 {
      var it := items[0];
      var moved := s.cards[it.id].(order := it.order, listId := it.listId);
      var s1 := s.(cards := s.cards[it.id := moved]);
      MoveCardsResult(s1, boardId, org, items[1..]);
      forall id | id in s.cards
        ensures MoveCards(s, boardId, org, items).value.store.cards[id] == AfterMoves(items, id, s.cards[id])
      {
        AfterMovesStep(items, id, s.cards[id]);
      }
      forall k | 0 <= k < |items|
        ensures CardInBoard(s, items[k].id, boardId, org)
      {
        if k > 0 && items[k].id != it.id {
          assert items[k] == items[1..][k - 1];
        }
      }
    }
  }

  /**
    On success every card keeps its place in the table and ends with the
    order and list id of the last item naming it; a card no item names is
    unchanged. And success means every named card was in a list of
    `boardId` under the caller's organization beforehand.
   */
  lemma CardOrderResult(ctx: Ctx, s: Store, boardId: string, items: seq<CardMove>)
    requires UpdateCardOrder(ctx, s, boardId, items).Ok?
    ensures SignedIn(ctx)
    ensures forall id :: id in s.cards ==>
      UpdateCardOrder(ctx, s, boardId, items).value.store.cards[id] == AfterMoves(items, id, s.cards[id])
    ensures forall k :: 0 <= k < |items| ==> CardInBoard(s, items[k].id, boardId, Org(ctx))
  {
    MoveCardsResult(s, boardId, Org(ctx), items);
  }

  /** A batch that names some card outside the board or organization writes nothing and fails with BAD_REQUEST. */
  lemma CardOrderAllOrNothing(ctx: Ctx, s: Store, boardId: string, items: seq<CardMove>, k: nat)
    requires SignedIn(ctx)
    requires k < |items| && !CardInBoard(s, items[k].id, boardId, Org(ctx))
    ensures UpdateCardOrder(ctx, s, boardId, items) == Err(BadRequest)
  {
    if UpdateCardOrder(ctx, s, boardId, items).Ok? {
      CardOrderResult(ctx, s, boardId, items);
    }
  }

  lemma {:induction false} MoveCardsSucceedsDistinct(s: Store, boardId: string, org: string, items: seq<CardMove>)
    requires forall i, j :: 0 <= i < j < |items| ==> items[i].id != items[j].id
    requires forall k :: 0 <= k < |items| ==> CardInBoard(s, items[k].id, boardId, org)
    ensures MoveCards(s, boardId, org, items).Ok?
    decreases |items|
  {
    if |items| > 0 {
      var it := items[0];
      var s1 := s.(cards := s.cards[it.id := s.cards[it.id].(order := it.order, listId := it.listId)]);
      forall k | 0 <= k < |items[1..]|
        ensures CardInBoard(s1, items[1..][k].id, boardId, org)
      {
        assert items[1..][k] == items[k + 1];
      }
      MoveCardsSucceedsDistinct(s1, boardId, org, items[1..]);
    }
  }

  /** A batch naming distinct cards, all in scope, succeeds wherever it moves them. */
  lemma CardOrderSucceedsDistinct(ctx: Ctx, s: Store, boardId: string, items: seq<CardMove>)
    requires SignedIn(ctx)
    requires forall i, j :: 0 <= i < j < |items| ==> items[i].id != items[j].id
    requires forall k :: 0 <= k < |items| ==> CardInBoard(s, items[k].id, boardId, Org(ctx))
    ensures UpdateCardOrder(ctx, s, boardId, items).Ok?
  {
    MoveCardsSucceedsDistinct(s, boardId, Org(ctx), items);
  }

  lemma {:induction false} MoveCardsSucceedsWithin(s: Store, boardId: string, org: string, items: seq<CardMove>)
    requires forall k :: 0 <= k < |items| ==> CardInBoard(s, items[k].id, boardId, org)
    requires forall k :: 0 <= k < |items| ==> ListInBoard(s, items[k].listId, boardId, org)
    ensures MoveCards(s, boardId, org, items).Ok?
    decreases |items|
  {
    if |items| > 0 {
      var it := items[0];
      var s1 := s.(cards := s.cards[it.id := s.cards[it.id].(order := it.order, listId := it.listId)]);
      forall k | 0 <= k < |items[1..]|
        ensures CardInBoard(s1, items[1..][k].id, boardId, org)
        ensures ListInBoard(s1, items[1..][k].listId, boardId, org)
      {
        assert items[1..][k] == items[k + 1];
      }
      MoveCardsSucceedsWithin(s1, boardId, org, items[1..]);
    }
  }

  /**
    Applying the same batch a second time changes nothing, provided every
    destination list lies in the board: the second run checks the cards'
    new lists.
   */
  lemma CardOrderIdempotent(ctx: Ctx, s: Store, boardId: string, items: seq<CardMove>)
    requires UpdateCardOrder(ctx, s, boardId, items).Ok?
    requires forall k :: 0 <= k < |items| ==> ListInBoard(s, items[k].listId, boardId, Org(ctx))
    ensures var s1 := UpdateCardOrder(ctx, s, boardId, items).value.store;
      UpdateCardOrder(ctx, s1, boardId, items).Ok?
      && UpdateCardOrder(ctx, s1, boardId, items).value.store == s1
  {
    var org := Org(ctx);
    var s1 := UpdateCardOrder(ctx, s, boardId, items).value.store;
    CardOrderResult(ctx, s, boardId, items);
    forall k | 0 <= k < |items|
      ensures CardInBoard(s1, items[k].id, boardId, org)
      ensures ListInBoard(s1, items[k].listId, boardId, org)
    {
      var id := items[k].id;
      var last := LastMoveOf(items, id);
      assert s1.cards[id].listId == items[last].listId;
    }
    MoveCardsSucceedsWithin(s1, boardId, org, items);
    CardOrderResult(ctx, s1, boardId, items);
    var s2 := UpdateCardOrder(ctx, s1, boardId, items).value.store;
    assert s2.cards == s1.cards;
  }

  /** The destination list is written unchecked: any list id, even one of another board or none at all. */
  lemma CardOrderDestinationUnchecked(ctx: Ctx, s: Store, boardId: string, id: string, order: int, dest: string, title: string)
    requires SignedIn(ctx) && CardInBoard(s, id, boardId, Org(ctx))
    ensures UpdateCardOrder(ctx, s, boardId, [CardMove(id, title, order, dest)]).Ok?
    ensures UpdateCardOrder(ctx, s, boardId, [CardMove(id, title, order, dest)]).value.store.cards[id].listId == dest
  {
    var items := [CardMove(id, title, order, dest)];
    var s1 := s.(cards := s.cards[id := s.cards[id].(order := order, listId := dest)]);
    assert items[1..] == [];
    assert MoveCards(s1, boardId, Org(ctx), []) == Ok(Reply(s1, []));
    assert items[0] == CardMove(id, title, order, dest);
    assert MoveCards(s, boardId, Org(ctx), items).Ok?;
    assert MoveCards(s, boardId, Org(ctx), items).value.store == s1;
  }

  /**
    Without the destination condition, a repeat can fail: a card moved to a
    list of another board is out of scope for the second run.
   */
  lemma CardOrderRepeatCanFail()
    ensures var ctx := Ctx(Some("u"), Some("o"), None);
      var img := ImageField.Image("i", "t", "f", "h", "n");
      var s := Store(map["b" := Board("B", "o", img), "b2" := Board("B2", "o", img)],
                     map["l" := List("L", 1, "b"), "l2" := List("L2", 1, "b2")],
                     map["c" := Card("C", None, 1, "l")], map[], []);
      var items := [CardMove("c", "C", 1, "l2")];
      && UpdateCardOrder(ctx, s, "b", items).Ok?
      && UpdateCardOrder(ctx, UpdateCardOrder(ctx, s, "b", items).value.store, "b", items) == Err(BadRequest)
  {
  }

  /**
    `copyCard`: one new card titled "<title> - Copy", with the source's
    description, in the source's list, after that list's last card.
   */
  function CopyCard(ctx: Ctx, s: Store, id: string, boardId: string, newId: string, now: int): (r: Result<Reply<Row<Card>>, Code>)
    ensures !SignedIn(ctx) ==> r == Err(Unauthorized)
    ensures SignedIn(ctx) && !CardInBoard(s, id, boardId, Org(ctx)) ==> r == Err(BadRequest)
    ensures r.Err? ==> r.error == Unauthorized || r.error == BadRequest
    ensures r == Err(Unauthorized) ==> !SignedIn(ctx)
    ensures r.Ok? <==> SignedIn(ctx) && CardInBoard(s, id, boardId, Org(ctx)) && newId !in s.cards
    ensures r.Ok? ==>
      var s', c, src := r.value.store, r.value.out, s.cards[id];
      && c.id == newId && newId != id
      && c.val.title == src.title + " - Copy" && c.val.description == src.description
      && c.val.listId == src.listId
      && IsNextOrder(c.val.order, CardOrders(s, src.listId))
      && s'.cards == s.cards[newId := c.val]
      && s'.boards == s.boards && s'.lists == s.lists && s'.limits == s.limits
      && s'.logs == CreateAuditLog(ctx, s.logs, newId, CardEntity, c.val.title, Create, now)
  {
    if !SignedIn(ctx) then Err(Unauthorized)
    else Catch(
      if !CardInBoard(s, id, boardId, Org(ctx)) then Err(Raised(NotFound))
      else if newId in s.cards then Err(UniqueViolation)
      else
        var src := s.cards[id];
        var copy := Card(src.title + " - Copy", src.description, NextOrder(CardOrders(s, src.listId)), src.listId);
        Ok(Reply(s.(cards := s.cards[newId := copy],
                    logs := CreateAuditLog(ctx, s.logs, newId, CardEntity, copy.title, Create, now)),
                 Row(newId, copy))))
  }
}
