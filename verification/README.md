# Kanban board store: a Dafny model

This project models the server side of a kanban application. Boards belong
to an organization (the tenant), lists belong to a board, and cards belong to
a list. Lists and cards carry an integer `order` key. The application exposes
tRPC procedures for reading, creating, renaming, copying, deleting and
reordering these rows. It also keeps a per-organization counter of free-plan
boards and an audit log.

The database is modelled as an immutable `Db.Store`. It holds one map per
table (row id to row), the org-limit map and the audit-log sequence. Each
procedure is a pure function from a caller context (`Session.Ctx`, the
answers of `auth()` and `currentUser()`) and a store to a
`Result<Reply<T>, Code>`. A `Reply` is the new store plus the procedure's
return value. An `Err` carries no store, so a failed call leaves the store as
it was. This covers the all-or-nothing `$transaction` of the two reorder
procedures: their updates run one after another on a private copy, and the
copy is dropped at the first failure.

How the code behaves, stated in the model:

- Every tenant-scoping `where` (one that filters through `board.orgId`) is
  one of the scope predicates in `Db`: `BoardInOrg`, `ListInBoard`,
  `CardInBoard` and `CardInOrg`. The other filters are the order scopes
  `Db.CardOrders` and `Db.ListOrders`, the activity filter
  `AppRouter.Matches`, and the org-limit lookup by organization id.
- Each procedure does its main work inside `try … catch`. Anything thrown
  inside the `try` is rethrown as BAD_REQUEST; this includes the
  procedure's own NOT_FOUND. `Db.Catch` models this step.
- `createBoard` has two checks that run before its `try` and keep their
  codes: the free-board limit gate (FORBIDDEN) and the missing-image-field
  check (BAD_REQUEST).
- zod input checks (`.min(3)` on titles and descriptions) run before the
  procedure body. A short title is therefore refused with BAD_REQUEST even
  when the caller is not signed in. The length is JavaScript's, counted in
  UTF-16 code units (`Db.Utf16Length`).
- A new row gets `order = max + 1` in its scope, or 1 when the scope is
  empty (`Ordering.NextOrder`).
- Deletes do not renumber the rows that remain.
- `updateCardOrder` checks the board and organization of the card's
  *current* list. The destination `listId` it writes is not checked.
- `decreaseAvailableCount` on an organization without a record creates the
  record with count 1.

Environment inputs become parameters:

- Ids that the database would generate: `newId`, plus `newCardId` for the
  cards of a copied list. A clash with an existing id is a unique-key
  violation and surfaces as BAD_REQUEST.
- The clock: `now`, which becomes the audit entry's `createdAt`.
- The subscription check: `isPro`.
- The free-board limit: `maxFree`.

The two reorder procedures write the `order` values the client sends,
without renumbering. A scope mismatch surfaces as BAD_REQUEST. Neither
writes an audit entry.

## Model

| member | source | states |
|---|---|---|
| `Ordering.NextOrder` | src/trpc/routes/card.ts:83-95 | the new order key is one past the largest key in the scope, or 1 when the scope is empty |
| `Ordering.SortByOrder` | src/trpc/routes/list.ts:28-37 | `orderBy: { order: 'asc' }`: every row of the scope once, ascending by order; ties in any order |
| `ImageField.Split` | src/trpc/routes/board.ts:55 | the pieces of `split('\|')` contain no separator, there is at least one, and joining them gives the input back |
| `ImageField.Parse` | src/trpc/routes/board.ts:54-64 | succeeds exactly when the first five pieces are all present and non-empty, else BAD_REQUEST; on success the image's fields are those five pieces and pieces after the fifth are dropped |
| `ImageField.EncodeIsJoin` | src/components/form/form-picker.tsx:45 | the picker's value is `id\|thumb\|full\|html\|userName`, the five fields joined by `\|` in that order |
| `ImageField.SplitJoin` | src/trpc/routes/board.ts:55 | splitting a join of separator-free pieces gives back exactly those pieces |
| `ImageField.SplitAppend` | src/trpc/routes/board.ts:55 | the pieces of `a\|b` are the pieces of `a` followed by the pieces of `b` |
| `ImageField.ParseEncode` | src/components/form/form-picker.tsx:44-46 | an image with non-empty, `\|`-free fields passes the missing-field check, and board creation reads back exactly that image |
| `ImageField.ParseIgnoresExtra` | src/trpc/routes/board.ts:55-64 | appending more pieces to a value that has five already does not change the parse |
| `ImageField.SeparatorInFieldBreaksRoundTrip` | src/components/form/form-picker.tsx:45 | an id of the form `a\|b` comes back as id `a` and thumbnail `b`, every later field shifted by one and the user name dropped, so the round trip needs `\|`-free fields |
| `FormPicker.OnPick` | src/components/form/form-picker.tsx:42-46 | a click records exactly the clicked image's id as selected and emits its encoding, which parses back to the image when the image is well formed |
| `OrgLimit.Increment` | src/lib/org-limit.ts:6-36 | Unauthorized with no change when signed out; otherwise the caller's count becomes the old count + 1 (a missing record counts as 0) and other organizations keep theirs |
| `OrgLimit.Decrease` | src/lib/org-limit.ts:38-68 | Unauthorized when signed out; otherwise count − 1 saturating at 0, never negative, and a missing record is created with count 1; others unchanged |
| `OrgLimit.HasAvailable` | src/lib/org-limit.ts:70-88 | Unauthorized when signed out; otherwise true exactly when there is no record or the count is below the limit |
| `OrgLimit.Available` | src/lib/org-limit.ts:90-108 | 0 when signed out or without a record, else the stored count |
| `OrgLimit.HasAvailableMatchesCount` | src/lib/org-limit.ts:77-107 | with a positive limit, the gate is "reported count below the limit" |
| `OrgLimit.DecreaseUndoesIncrement` | src/lib/org-limit.ts:19-59 | decrementing after incrementing an existing non-negative count restores the map |
| `OrgLimit.GatedIncrementStaysWithin` | src/lib/org-limit.ts:19-87 | an increment made after the gate said yes keeps the count within 0..limit |
| `OrgLimit.DecreaseStaysWithin` | src/lib/org-limit.ts:51-66 | a decrement keeps the count within 0..limit (limit at least 1) |
| `AuditLog.DisplayName` | src/lib/create-audit-log.ts:24-35 | the user name is the username if non-empty, else "first last" when both are set, else first name, else last name, else the user id |
| `AuditLog.DisplayNameNonEmpty` | src/lib/create-audit-log.ts:24-35 | the name is non-empty whenever the user id is |
| `AuditLog.CreateAuditLog` | src/lib/create-audit-log.ts:13-52 | never fails; without a profile or organization the log is unchanged; otherwise exactly one entry is appended, carrying the given entity id, type, title and action, the caller's organization and user id, the profile's image URL, the derived name and the time |
| `AppRouter.Matching` | src/trpc/index.ts:34-39 | the filter keeps exactly the entries of the caller's organization, type CARD and the given card id, each as often as it occurs in the log |
| `AppRouter.TakeNewest` | src/trpc/index.ts:40-43 | `orderBy createdAt desc, take n`: min(n, total) of the entries, each drawn from the input, newest first, and no left-out entry newer than a returned one |
| `AppRouter.GetLogs` | src/trpc/index.ts:18-50 | Unauthorized exactly when signed out; otherwise the newest three (or fewer) of the entries the filter admits, newest first |
| `AppRouter.TopOfMatching` | src/trpc/index.ts:34-43 | measured against the whole log, the result holds only entries of the caller's organization about that card, each drawn from the log, and no matching entry left out is newer than a returned one |
| `Db.Catch` | src/trpc/routes/card.ts:113-115 | the `catch` turns every error thrown in the `try` into BAD_REQUEST and passes success through |
| `Db.Utf16Length` | src/trpc/routes/list.ts:112 | the length `.min(3)` compares: at least the number of characters and at most twice it, and equal to it exactly when no character lies outside the Basic Multilingual Plane |
| `Db.Utf16LengthAppend` | src/trpc/routes/list.ts:112 | code-unit lengths add up over concatenation |
| `Db.ValidTitleCountsCodeUnits` | src/trpc/routes/list.ts:112 | a letter followed by an emoji passes `.min(3)` although it is two characters long, while "ab" does not |
| `CardRoutes.GetCard` | src/trpc/routes/card.ts:11-49 | Unauthorized when signed out; otherwise the card with its list's title exactly when it lies in a list of a board of the caller's organization, else null |
| `CardRoutes.CreateCard` | src/trpc/routes/card.ts:51-116 | Unauthorized when signed out; a list outside the board or organization gives BAD_REQUEST (NOT_FOUND re-coded) and adds no card; on success exactly one card is added (given title, no description, that list, order max+1 or 1) and nothing else but the log changes; a signed-in caller's failure is never UNAUTHORIZED |
| `CardRoutes.UpdateCard` | src/trpc/routes/card.ts:118-176 | a title or description shorter than 3 gives BAD_REQUEST; succeeds exactly for a signed-in caller and a card in scope, and a signed-in caller's failure is BAD_REQUEST; only the given fields change |
| `CardRoutes.DeleteCard` | src/trpc/routes/card.ts:178-213 | Unauthorized when signed out; succeeds exactly for a card in scope, else BAD_REQUEST; removes that card only and leaves every other card's order as it was |
| `CardRoutes.MoveCards` | src/trpc/routes/card.ts:239-257 | the transaction's updates in sequence: one updated row per item, no card added or removed, other tables untouched, the only failure a missing record |
| `CardRoutes.UpdateCardOrder` | src/trpc/routes/card.ts:215-263 | Unauthorized when signed out; every failure of a signed-in caller is BAD_REQUEST; success adds or removes no card and touches no other table |
| `CardRoutes.CardOrderResult` | src/trpc/routes/card.ts:239-257 | on success each card ends with the order and list id of the last item naming it, a card no item names is unchanged, and every named card was in scope beforehand |
| `CardRoutes.CardOrderAllOrNothing` | src/trpc/routes/card.ts:239-261 | if any item names a card outside the board or organization, the whole batch fails with BAD_REQUEST and no card changes |
| `CardRoutes.CardOrderSucceedsDistinct` | src/trpc/routes/card.ts:239-257 | a batch of distinct cards, all in scope, succeeds whatever destinations it names |
| `CardRoutes.CardOrderIdempotent` | src/trpc/routes/card.ts:239-257 | when every destination list is in the board, applying the same batch again succeeds and changes nothing |
| `CardRoutes.CardOrderDestinationUnchecked` | src/trpc/routes/card.ts:241-253 | only the card's current list is checked: any destination list id, even one of another board or none, is written |
| `CardRoutes.CardOrderRepeatCanFail` | src/trpc/routes/card.ts:241-253 | a batch that moves a card to a list of another board succeeds once and fails with BAD_REQUEST when repeated |
| `CardRoutes.CopyCard` | src/trpc/routes/card.ts:265-333 | a card outside the scope gives BAD_REQUEST, and so does every other failure of a signed-in caller; on success exactly one card is added titled "<title> - Copy" with the same description and list and order max+1 in that list, and the original is unchanged |
| `ListRoutes.CardsOf` | src/trpc/routes/list.ts:28-34 | every card of the list, once each, ascending by order |
| `ListRoutes.GetLists` | src/trpc/routes/list.ts:11-44 | Unauthorized when signed out; otherwise exactly the lists of the board whose board belongs to the caller's organization, once each, ascending by order, each with all its cards ascending by order |
| `ListRoutes.CreateList` | src/trpc/routes/list.ts:46-105 | a title shorter than 3 gives BAD_REQUEST; a board outside the organization gives BAD_REQUEST and creates nothing, and a signed-in caller's failure is never UNAUTHORIZED; on success one list is added with order max+1 on the board, or 1 |
| `ListRoutes.UpdateList` | src/trpc/routes/list.ts:107-149 | a title shorter than 3 gives BAD_REQUEST; succeeds exactly for a list in scope, a signed-in caller's failure being BAD_REQUEST, and changes only its title |
| `ListRoutes.DeleteList` | src/trpc/routes/list.ts:151-189 | Unauthorized when signed out; succeeds exactly for a list in scope, else BAD_REQUEST; removes that list only and does not renumber the others |
| `ListRoutes.Copies` | src/trpc/routes/list.ts:242-250 | one copy per source card under its new id, same title, description and order, in the new list, and nothing else |
| `ListRoutes.CopyList` | src/trpc/routes/list.ts:191-268 | a list outside the scope gives BAD_REQUEST, and so does every other failure of a signed-in caller; on success one list titled "<title> - Copy" is added at order max+1 on the board, with one copy of each source card; every existing card, the source's included, is unchanged |
| `ListRoutes.MoveLists` | src/trpc/routes/list.ts:293-308 | the transaction's updates in sequence: one updated row per item, no list added or removed, other tables untouched |
| `ListRoutes.UpdateListOrder` | src/trpc/routes/list.ts:270-314 | Unauthorized when signed out; failures surface as BAD_REQUEST; success adds or removes no list and touches no other table |
| `ListRoutes.ListOrderSucceedsIff` | src/trpc/routes/list.ts:293-312 | the batch succeeds exactly when every item names a list of the board under the caller's organization; otherwise BAD_REQUEST and nothing changes |
| `ListRoutes.ListOrderResult` | src/trpc/routes/list.ts:293-308 | on success each list ends with the order of the last item naming it (its title is ignored); a list no item names is unchanged |
| `ListRoutes.ListOrderIdempotent` | src/trpc/routes/list.ts:293-308 | applying the same batch twice yields the store of applying it once |
| `BoardRoutes.GetBoardById` | src/trpc/routes/board.ts:14-35 | Unauthorized when signed out; the board exactly when it belongs to the caller's organization, else null |
| `BoardRoutes.CreateBoard` | src/trpc/routes/board.ts:37-94 | FORBIDDEN exactly when not subscribed and at the free limit; BAD_REQUEST for a malformed image value and for any other failure of a signed-in caller; on success the board is stored under the caller's organization with the parsed image, and the counter is incremented only when not subscribed |
| `BoardRoutes.UpdateBoard` | src/trpc/routes/board.ts:96-141 | a title shorter than 3 gives BAD_REQUEST; succeeds exactly for a non-empty id of a board of the caller's organization, a signed-in caller's failure being BAD_REQUEST, and changes only its title |
| `BoardRoutes.DeleteBoard` | src/trpc/routes/board.ts:143-177 | Unauthorized when signed out; succeeds exactly for a board of the caller's organization, else BAD_REQUEST; removes only it, and decrements the counter only when not subscribed |
| `BoardRoutes.CreateBoardKeepsLimit` | src/trpc/routes/board.ts:44-81 | board creation keeps the organization's counter within 0..limit |
| `BoardRoutes.DeleteBoardKeepsLimit` | src/trpc/routes/board.ts:150-164 | board deletion keeps the organization's counter within 0..limit |
| `BoardRoutes.CreateThenDeleteRestoresCount` | src/trpc/routes/board.ts:79-164 | creating and then deleting a board without a subscription restores an existing non-negative counter |
| `CardModal.Initial` | src/hooks/use-card-modal.ts:13-15 | the store starts closed, with no card id and no callback |
| `CardModal.SetRefetchLists` | src/hooks/use-card-modal.ts:16 | only the callback changes |
| `CardModal.OnOpen` | src/hooks/use-card-modal.ts:17 | open, showing the given card; the callback is kept |
| `CardModal.OnClose` | src/hooks/use-card-modal.ts:18 | closed, no card id; the callback is kept |
| `CardModal.TransitionsKeepInStep` | src/hooks/use-card-modal.ts:13-18 | every transition keeps "open exactly when a card id is set" |
| `CardModal.CloseUndoesOpen` | src/hooks/use-card-modal.ts:17-18 | closing after opening is the same as closing alone |
| `CardModal.RefetchCommutes` | src/hooks/use-card-modal.ts:16-18 | setting the callback commutes with opening and closing |

## Left out

- The database client and the identity provider are not modelled. Tables are maps, `auth()` and `currentUser()` are the `Ctx` input, and generated ids and the clock are parameters.
- The schema is not part of the model. Cascading deletes are therefore not stated: deleting a list or board says nothing about its children.
- Foreign-key enforcement is not modelled either. A destination list id is written as given.
- Storage failures other than a missing row or a taken id are not modelled. The model never produces the BAD_REQUEST a failing query would give.
- Because of this, the audit log's error swallowing is modelled only for a missing profile or organization. A failing insert is not modelled.
- The subscription check and the value of `MAX_FREE_BOARDS` are parameters (`isPro`, `maxFree`), because their sources are not part of this model.
- The board-creation validator is not part of this model. Only the visible `.min(3)` rules of the other procedures are modelled.
- `order` is an unbounded integer. zod's `z.number()` also admits fractions, which are not modelled.
- Timestamps of boards, lists and cards are not modelled. Only the audit entry's `createdAt` is.
- `copyList` returns the new list row without its cards. The cards are in the returned store.
- `CardRoutes.CardOrderIdempotent`: stated only when every destination list is in the board. Without that premise a repeat can fail, as `CardRoutes.CardOrderRepeatCanFail` shows.
- The Stripe checkout and billing-portal procedure is not modelled: it calls a foreign network API.
- All presentational components are not modelled: the card dialog, the pro dialog, the form popover and the picker's rendering and loading effect.
- The client-side drag-and-drop reducer and its optimistic state are not modelled. The model stops at what the server persists.
- Transaction isolation and concurrent reorders are not modelled. A transaction is sequential, all-or-nothing application.
- Each procedure is modelled as one atomic step; concurrent requests are not. `createBoard` reads the gate, creates the board and then increments the counter in separate queries, and the increment is itself a read followed by a write. Two concurrent creations can therefore both pass the gate, and one of two concurrent increments can be lost.
- `BoardRoutes.CreateBoardKeepsLimit`: holds for one request at a time only, for the reason above.
- `OrgLimit.GatedIncrementStaysWithin`: holds for one request at a time only, for the reason above.
