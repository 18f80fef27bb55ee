/** The list procedures: each a transition of the store that returns a value or an error code. */
module ListRoutes {
  import opened Wrappers
  import opened Session
  import opened Ordering
  import opened Db
  import opened AuditLog

  /** `getLists`' element: a list with its cards. */
  datatype ListWithCards = ListWithCards(id: string, list: List, cards: seq<Row<Card>>)

  /** One element of `updateListOrder`'s `items`; its `title` is not written. */
  datatype ListMove = ListMove(id: string, title: string, order: int)

  /** `cards` is every card of list `listId`, once each, ascending by order. */
  ghost predicate CardsOfList(s: Store, listId: string, cards: seq<Row<Card>>) {
    && (forall i :: 0 <= i < |cards| ==>
          cards[i].id in s.cards && cards[i].val == s.cards[cards[i].id] && cards[i].val.listId == listId)
    && (forall k :: k in s.cards && s.cards[k].listId == listId ==> exists i :: 0 <= i < |cards| && cards[i].id == k)
    && (forall i, j :: 0 <= i < j < |cards| ==> cards[i].id != cards[j].id)
    && (forall i, j :: 0 <= i < j < |cards| ==> cards[i].val.order <= cards[j].val.order)
  }

  /** `lists` is every list of board `boardId` under organization `org`, once each, ascending by order, each with its cards. */
  ghost predicate ListsOfBoard(s: Store, boardId: string, org: string, lists: seq<ListWithCards>) {
    && (forall i :: 0 <= i < |lists| ==>
          ListInBoard(s, lists[i].id, boardId, org) && lists[i].list == s.lists[lists[i].id]
          && CardsOfList(s, lists[i].id, lists[i].cards))
    && (forall k :: ListInBoard(s, k, boardId, org) ==> exists i :: 0 <= i < |lists| && lists[i].id == k)
    && (forall i, j :: 0 <= i < j < |lists| ==> lists[i].id != lists[j].id)
    && (forall i, j :: 0 <= i < j < |lists| ==> lists[i].list.order <= lists[j].list.order)
  }

  method CardsOf(s: Store, listId: string) returns (cards: seq<Row<Card>>)
    ensures CardsOfList(s, listId, cards)
  {
    var orders := CardOrders(s, listId);
    var keys := SortByOrder(orders);
    cards := seq(|keys|, i requires 0 <= i < |keys| => Row(keys[i], s.cards[keys[i]]));
    forall k | k in s.cards && s.cards[k].listId == listId
      ensures exists i :: 0 <= i < |cards| && cards[i].id == k
    {
      assert k in orders;
      var i :| 0 <= i < |keys| && keys[i] == k;
      assert cards[i].id == k;
    }
  }

  /** `getLists` */
  method GetLists(ctx: Ctx, s: Store, boardId: string) returns (r: Result<seq<ListWithCards>, Code>)
    ensures r.Err? <==> !SignedIn(ctx)
    ensures r.Err? ==> r.error == Unauthorized
    ensures r.Ok? ==> ListsOfBoard(s, boardId, Org(ctx), r.value)
  {
    if !SignedIn(ctx) {
      return Err(Unauthorized);
    }
    var org := Org(ctx);
    var orders := map k | k in s.lists && ListInBoard(s, k, boardId, org) :: s.lists[k].order;
    var keys := SortByOrder(orders);
    var views: seq<ListWithCards> := [];
    for i := 0 to |keys|
      invariant |views| == i
      invariant forall j :: 0 <= j < i ==>
        views[j].id == keys[j] && views[j].list == s.lists[keys[j]] && CardsOfList(s, keys[j], views[j].cards)
    {
      var cards := CardsOf(s, keys[i]);
      views := views + [ListWithCards(keys[i], s.lists[keys[i]], cards)];
    }
    forall k | ListInBoard(s, k, boardId, org)
      ensures exists i :: 0 <= i < |views| && views[i].id == k
    {
      assert k in orders;
      var i :| 0 <= i < |keys| && keys[i] == k;
      assert views[i].id == k;
    }
    r := Ok(views);
  }

  /** `createList`: a new list at the end of a board of the caller's organization. */
  function CreateList(ctx: Ctx, s: Store, boardId: string, title: string, newId: string, now: int): (r: Result<Reply<Row<List>>, Code>)
    ensures !ValidTitle(title) ==> r == Err(BadRequest)
    ensures ValidTitle(title) && !SignedIn(ctx) ==> r == Err(Unauthorized)
    ensures ValidTitle(title) && SignedIn(ctx) && !BoardInOrg(s, boardId, Org(ctx)) ==> r == Err(BadRequest)
    ensures r.Err? ==> r.error == Unauthorized || r.error == BadRequest
    ensures r == Err(Unauthorized) ==> !SignedIn(ctx)
    ensures r.Ok? <==> ValidTitle(title) && SignedIn(ctx) && BoardInOrg(s, boardId, Org(ctx)) && newId !in s.lists
    ensures r.Ok? ==>
      var s', l := r.value.store, r.value.out;
      && l.id == newId && l.val.title == title && l.val.boardId == boardId
      && IsNextOrder(l.val.order, ListOrders(s, boardId))
      && s'.lists == s.lists[newId := l.val]
      && s'.boards == s.boards && s'.cards == s.cards && s'.limits == s.limits
      && s'.logs == CreateAuditLog(ctx, s.logs, newId, ListEntity, title, Create, now)
  {
    if !ValidTitle(title) then Err(BadRequest)
    else if !SignedIn(ctx) then Err(Unauthorized)
    else Catch(
      if !BoardInOrg(s, boardId, Org(ctx)) then Err(Raised(NotFound))
      else if newId in s.lists then Err(UniqueViolation)
      else
        var list := List(title, NextOrder(ListOrders(s, boardId)), boardId);
        Ok(Reply(s.(lists := s.lists[newId := list],
                    logs := CreateAuditLog(ctx, s.logs, newId, ListEntity, title, Create, now)),
                 Row(newId, list))))
  }

  /** `updateList`: renames a list in scope. */
  function UpdateList(ctx: Ctx, s: Store, boardId: string, id: string, title: string, now: int): (r: Result<Reply<Row<List>>, Code>)
    ensures !ValidTitle(title) ==> r == Err(BadRequest)
    ensures ValidTitle(title) && !SignedIn(ctx) ==> r == Err(Unauthorized)
    ensures r.Err? ==> r.error == Unauthorized || r.error == BadRequest
    ensures r == Err(Unauthorized) ==> !SignedIn(ctx)
    ensures r.Ok? <==> ValidTitle(title) && SignedIn(ctx) && ListInBoard(s, id, boardId, Org(ctx))
    ensures r.Ok? ==>
      var s' := r.value.store;
      && r.value.out == Row(id, s.lists[id].(title := title))
      && s'.lists == s.lists[id := s.lists[id].(title := title)]
      && s'.boards == s.boards && s'.cards == s.cards && s'.limits == s.limits
      && s'.logs == CreateAuditLog(ctx, s.logs, id, ListEntity, title, Update, now)
  {
    if !ValidTitle(title) then Err(BadRequest)
    else if !SignedIn(ctx) then Err(Unauthorized)
    else Catch(
      if !ListInBoard(s, id, boardId, Org(ctx)) then Err(RecordNotFound)
      else
        var l := s.lists[id].(title := title);
        Ok(Reply(s.(lists := s.lists[id := l],
                    logs := CreateAuditLog(ctx, s.logs, id, ListEntity, title, Update, now)),
                 Row(id, l))))
  }

  /** `deleteList`: removes the list in scope; the other lists keep their order keys. */
  function DeleteList(ctx: Ctx, s: Store, id: string, boardId: string, now: int): (r: Result<Reply<Row<List>>, Code>)
    ensures !SignedIn(ctx) ==> r == Err(Unauthorized)
    ensures r.Err? ==> r.error == Unauthorized || r.error == BadRequest
    ensures r == Err(Unauthorized) ==> !SignedIn(ctx)
    ensures r.Ok? <==> SignedIn(ctx) && ListInBoard(s, id, boardId, Org(ctx))
    ensures r.Ok? ==>
      var s' := r.value.store;
      && r.value.out == Row(id, s.lists[id])
      && s'.lists.Keys == s.lists.Keys - {id}
      && (forall k :: k in s'.lists ==> s'.lists[k] == s.lists[k])
      && s'.boards == s.boards && s'.limits == s.limits
      && s'.logs == CreateAuditLog(ctx, s.logs, id, ListEntity, s.lists[id].title, Delete, now)
  {
    if !SignedIn(ctx) then Err(Unauthorized)
    else Catch(
      if !ListInBoard(s, id, boardId, Org(ctx)) then Err(RecordNotFound)
      else
        var l := s.lists[id];
        Ok(Reply(s.(lists := s.lists - {id},
                    logs := CreateAuditLog(ctx, s.logs, id, ListEntity, l.title, Delete, now)),
                 Row(id, l))))
  }

  /** The ids of the cards of list `listId`. */
  function CardsIn(s: Store, listId: string): set<string> {
    set k | k in s.cards && s.cards[k].listId == listId
  }

  /** The ids the database assigns to the copies are distinct and not yet taken. */
  predicate FreshCopyIds(s: Store, src: set<string>, newCardId: string -> string) {
    && (forall a, b :: a in src && b in src && a != b ==> newCardId(a) != newCardId(b))
    && (forall a :: a in src ==> newCardId(a) !in s.cards)
  }

  /** The copies of the cards `src`, moved to list `listId`, under their new ids. */
  function Copies(s: Store, src: set<string>, newCardId: string -> string, listId: string): (m: map<string, Card>)
    requires src <= s.cards.Keys
    requires FreshCopyIds(s, src, newCardId)
    ensures forall a :: a in src ==> newCardId(a) in m && m[newCardId(a)] == s.cards[a].(listId := listId)
    ensures forall k :: k in m ==> exists a :: a in src && k == newCardId(a)
  {
    map a | a in src :: newCardId(a) := s.cards[a].(listId := listId)
  }

  /**
    `copyList`: a new list titled "<title> - Copy" at the end of the board,
    holding one card per card of the source list with the same title,
    description and order. `newListId` and `newCardId` stand for the ids the
    database generates; a clash with an existing id aborts the copy.
   */
  function CopyList(ctx: Ctx, s: Store, id: string, boardId: string, newListId: string,
                    newCardId: string -> string, now: int): (r: Result<Reply<Row<List>>, Code>)
    ensures !SignedIn(ctx) ==> r == Err(Unauthorized)
    ensures SignedIn(ctx) && !ListInBoard(s, id, boardId, Org(ctx)) ==> r == Err(BadRequest)
    ensures r.Err? ==> r.error == Unauthorized || r.error == BadRequest
    ensures r == Err(Unauthorized) ==> !SignedIn(ctx)
    ensures r.Ok? <==> SignedIn(ctx) && ListInBoard(s, id, boardId, Org(ctx)) && newListId !in s.lists
                       && FreshCopyIds(s, CardsIn(s, id), newCardId)
    ensures r.Ok? ==>
      var s', l, src := r.value.store, r.value.out, s.lists[id];
      && l.id == newListId
      && l.val == List(src.title + " - Copy", l.val.order, boardId)
      && IsNextOrder(l.val.order, ListOrders(s, boardId))
      && s'.lists == s.lists[newListId := l.val]
      && (forall k :: k in s.cards ==> k in s'.cards && s'.cards[k] == s.cards[k])
      && (forall k :: k in CardsIn(s, id) ==>
            newCardId(k) in s'.cards && s'.cards[newCardId(k)] == s.cards[k].(listId := newListId))
      && (forall k :: k in s'.cards && k !in s.cards ==> exists a :: a in CardsIn(s, id) && k == newCardId(a))
      && s'.boards == s.boards && s'.limits == s.limits
      && s'.logs == CreateAuditLog(ctx, s.logs, newListId, ListEntity, l.val.title, Create, now)
  {
    if !SignedIn(ctx) then Err(Unauthorized)
    else Catch(
      if !ListInBoard(s, id, boardId, Org(ctx)) then Err(Raised(NotFound))
      else if newListId in s.lists || !FreshCopyIds(s, CardsIn(s, id), newCardId) then Err(UniqueViolation)
      else
        var src := s.lists[id];
        var list := List(src.title + " - Copy", NextOrder(ListOrders(s, boardId)), src.boardId);
        var copies := Copies(s, CardsIn(s, id), newCardId, newListId);
        Ok(Reply(s.(lists := s.lists[newListId := list], cards := s.cards + copies,
                    logs := CreateAuditLog(ctx, s.logs, newListId, ListEntity, list.title, Create, now)),
                 Row(newListId, list))))
  }

  /** The updates of `updateListOrder`'s transaction, run in sequence; the first failure aborts them all. */
  function MoveLists(s: Store, boardId: string, org: string, items: seq<ListMove>): (r: Result<Reply<seq<Row<List>>>, Thrown>)
    ensures r.Err? ==> r.error == RecordNotFound
    ensures r.Ok? ==> |r.value.out| == |items| && forall i :: 0 <= i < |items| ==> r.value.out[i].id == items[i].id
    ensures r.Ok? ==> r.value.store.lists.Keys == s.lists.Keys
    ensures r.Ok? ==>
      var s' := r.value.store;
      s'.boards == s.boards && s'.cards == s.cards && s'.limits == s.limits && s'.logs == s.logs
    decreases |items|
  {
    if |items| == 0 then Ok(Reply(s, []))
    else
      var it := items[0];
      if !ListInBoard(s, it.id, boardId, org) then Err(RecordNotFound)
      else
        var moved := s.lists[it.id].(order := it.order);
        match MoveLists(s.(lists := s.lists[it.id := moved]), boardId, org, items[1..])
        case Err(e) => Err(e)
        case Ok(rest) => Ok(Reply(rest.store, [Row(it.id, moved)] + rest.out))
  }

  /** `updateListOrder`: all of `items` applied in one transaction, or none. */
  function UpdateListOrder(ctx: Ctx, s: Store, boardId: string, items: seq<ListMove>): (r: Result<Reply<seq<Row<List>>>, Code>)
    ensures !SignedIn(ctx) ==> r == Err(Unauthorized)
    ensures r.Err? ==> r.error == Unauthorized || r.error == BadRequest
    ensures r == Err(Unauthorized) ==> !SignedIn(ctx)
    ensures r.Ok? ==> r.value.store.lists.Keys == s.lists.Keys
    ensures r.Ok? ==>
      var s' := r.value.store;
      s'.boards == s.boards && s'.cards == s.cards && s'.limits == s.limits && s'.logs == s.logs
  {
    if !SignedIn(ctx) then Err(Unauthorized)
    else Catch(MoveLists(s, boardId, Org(ctx), items))
  }

  /** The position of the last item that names list `id`, or -1. */
  function LastMoveOf(items: seq<ListMove>, id: string): int {
    Ordering.LastIndex(items, (m: ListMove) => m.id, id)
  }

  /** Reference result: list `l` (id `id`) carries the order of the last item naming it, if any. */
  function AfterMoves(items: seq<ListMove>, id: string, l: List): List {
    var k := LastMoveOf(items, id);
    if k < 0 then l else l.(order := items[k].order)
  }

  lemma AfterMovesStep(items: seq<ListMove>, id: string, l: List)
    requires |items| > 0
    ensures AfterMoves(items, id, l) ==
      AfterMoves(items[1..], id, if items[0].id == id then l.(order := items[0].order) else l)
  {
    var k, j := LastMoveOf(items, id), LastMoveOf(items[1..], id);
    if j >= 0 {
      assert items[j + 1].id == id;
      assert k == j + 1;
    } else if items[0].id == id {
      assert k == 0;
    } else {
      assert k < 0;
    }
  }

  lemma {:induction false} MoveListsResult(s: Store, boardId: string, org: string, items: seq<ListMove>)
    requires MoveLists(s, boardId, org, items).Ok?
    ensures forall id :: id in s.lists ==>
      MoveLists(s, boardId, org, items).value.store.lists[id] == AfterMoves(items, id, s.lists[id])
    decreases |items|
  {
    if |items| > 0 {
      var it := items[0];
      var s1 := s.(lists := s.lists[it.id := s.lists[it.id].(order := it.order)]);
      MoveListsResult(s1, boardId, org, items[1..]);
      forall id | id in s.lists
        ensures MoveLists(s, boardId, org, items).value.store.lists[id] == AfterMoves(items, id, s.lists[id])
      {
        AfterMovesStep(items, id, s.lists[id]);
      }
    }
  }

  /** Changing order keys never moves a list in or out of scope. */
  lemma {:induction false} MoveListsSucceedsIff(s: Store, boardId: string, org: string, items: seq<ListMove>)
    ensures MoveLists(s, boardId, org, items).Ok? <==>
      forall k :: 0 <= k < |items| ==> ListInBoard(s, items[k].id, boardId, org)
    decreases |items|
  {
    if |items| > 0 {
      var it := items[0];
      if ListInBoard(s, it.id, boardId, org) {
        var s1 := s.(lists := s.lists[it.id := s.lists[it.id].(order := it.order)]);
        MoveListsSucceedsIff(s1, boardId, org, items[1..]);
        assert forall id :: ListInBoard(s1, id, boardId, org) <==> ListInBoard(s, id, boardId, org);
        assert forall k :: 1 <= k < |items| ==> items[k] == items[1..][k - 1];
      }
    }
  }

  /** `updateListOrder` succeeds exactly when every item names a list of the board under the caller's organization. */
  lemma ListOrderSucceedsIff(ctx: Ctx, s: Store, boardId: string, items: seq<ListMove>)
    requires SignedIn(ctx)
    ensures UpdateListOrder(ctx, s, boardId, items).Ok? <==>
      forall k :: 0 <= k < |items| ==> ListInBoard(s, items[k].id, boardId, Org(ctx))
    ensures UpdateListOrder(ctx, s, boardId, items).Err? ==> UpdateListOrder(ctx, s, boardId, items).error == BadRequest
  {
    MoveListsSucceedsIff(s, boardId, Org(ctx), items);
  }

  /**
    On success each list keeps its row and ends with the order of the last
    item naming it (title and board untouched); a list no item names is
    unchanged.
   */
  lemma ListOrderResult(ctx: Ctx, s: Store, boardId: string, items: seq<ListMove>)
    requires UpdateListOrder(ctx, s, boardId, items).Ok?
    ensures SignedIn(ctx)
    ensures forall id :: id in s.lists ==>
      UpdateListOrder(ctx, s, boardId, items).value.store.lists[id] == AfterMoves(items, id, s.lists[id])
  {
    MoveListsResult(s, boardId, Org(ctx), items);
  }

  /** Applying the same batch twice yields the store of applying it once. */
  lemma ListOrderIdempotent(ctx: Ctx, s: Store, boardId: string, items: seq<ListMove>)
    requires UpdateListOrder(ctx, s, boardId, items).Ok?
    ensures var s1 := UpdateListOrder(ctx, s, boardId, items).value.store;
      UpdateListOrder(ctx, s1, boardId, items).Ok?
      && UpdateListOrder(ctx, s1, boardId, items).value.store == s1
  {
    var s1 := UpdateListOrder(ctx, s, boardId, items).value.store;
    ListOrderSucceedsIff(ctx, s, boardId, items);
    ListOrderResult(ctx, s, boardId, items);
    assert forall id :: ListInBoard(s1, id, boardId, Org(ctx)) <==> ListInBoard(s, id, boardId, Org(ctx));
    ListOrderSucceedsIff(ctx, s1, boardId, items);
    ListOrderResult(ctx, s1, boardId, items);
    var s2 := UpdateListOrder(ctx, s1, boardId, items).value.store;
    assert s2.lists == s1.lists;
  }
}
