/**
  The persisted state: boards owned by an organization, lists owned by a
  board, cards owned by a list, the free-board counters and the audit log.
  Each table maps a row id to the row; rows do not repeat their id. The
  database client is not modelled: a `where` clause becomes one of the scope
  predicates below, and a procedure's writes become a new `Store`.
 */
module Db {
  import opened Wrappers
  import opened Session
  import ImageField
  import AuditLog

  datatype Board = Board(title: string, orgId: string, image: ImageField.Image)
  datatype List = List(title: string, order: int, boardId: string)
  datatype Card = Card(title: string, description: Option<string>, order: int, listId: string)

  /** A row together with its id, as the database returns it. */
  datatype Row<T> = Row(id: string, val: T)

  datatype Store = Store(
    boards: map<string, Board>,
    lists: map<string, List>,
    cards: map<string, Card>,
    limits: map<string, int>,
    logs: seq<AuditLog.Entry>)

  /** A successful procedure's new store and its return value. */
  datatype Reply<T> = Reply(store: Store, out: T)

  /**
    What a procedure's `try` block can throw: a tRPC error of its own, the
    client's "record to update/delete not found", or a unique-key violation
    when a new row's id is already taken.
   */
  datatype Thrown = Raised(code: Code) | RecordNotFound | UniqueViolation

  /** The `catch` that every procedure wraps its body in: whatever was thrown surfaces as BAD_REQUEST. */
  function Catch<T>(r: Result<T, Thrown>): (c: Result<T, Code>)
    ensures c.Ok? <==> r.Ok?
    ensures r.Ok? ==> c.value == r.value
    ensures c.Err? ==> c.error == BadRequest
  {
    match r
    case Ok(v) => Ok(v)
    case Err(_) => Err(BadRequest)
  }

  /** `where: { id: boardId, orgId }` */
  predicate BoardInOrg(s: Store, boardId: string, org: string) {
    boardId in s.boards && s.boards[boardId].orgId == org
  }

  /** `where: { id: listId, boardId, board: { orgId } }` */
  predicate ListInBoard(s: Store, listId: string, boardId: string, org: string) {
    listId in s.lists && s.lists[listId].boardId == boardId && BoardInOrg(s, boardId, org)
  }

  /** `where: { id: cardId, list: { boardId, board: { orgId } } }` */
  predicate CardInBoard(s: Store, cardId: string, boardId: string, org: string) {
    cardId in s.cards && ListInBoard(s, s.cards[cardId].listId, boardId, org)
  }

  /** `where: { id: cardId, list: { board: { orgId } } }` */
  predicate CardInOrg(s: Store, cardId: string, org: string) {
    && cardId in s.cards
    && s.cards[cardId].listId in s.lists
    && BoardInOrg(s, s.lists[s.cards[cardId].listId].boardId, org)
  }

  /** The order keys of the cards of one list, by card id. */
  function CardOrders(s: Store, listId: string): map<string, int> {
    map k | k in s.cards && s.cards[k].listId == listId :: s.cards[k].order
  }

  /** The order keys of the lists of one board, by list id. */
  function ListOrders(s: Store, boardId: string): map<string, int> {
    map k | k in s.lists && s.lists[k].boardId == boardId :: s.lists[k].order
  }

  /**
    JavaScript's `.length` of a string: the number of UTF-16 code units,
    where a character outside the Basic Multilingual Plane takes two.
   */
  function Utf16Length(t: string): (n: nat)
    ensures |t| <= n <= 2 * |t|
    ensures n == |t| <==> forall i :: 0 <= i < |t| ==> t[i] as int <= 0xFFFF
    decreases |t|
  {
    if |t| == 0 then 0
    else
      var rest := Utf16Length(t[1..]);
      assert forall i :: 1 <= i < |t| ==> t[i] == t[1..][i - 1];
      (if t[0] as int > 0xFFFF then 2 else 1) + rest
  }

  /** Code units add up over concatenation. */
  lemma {:induction false} Utf16LengthAppend(a: string, b: string)
    ensures Utf16Length(a + b) == Utf16Length(a) + Utf16Length(b)
    decreases |a|
  {
    if |a| == 0 {
      assert a + b == b;
    } else {
      assert (a + b)[0] == a[0];
      assert (a + b)[1..] == a[1..] + b;
      Utf16LengthAppend(a[1..], b);
    }
  }

  /**
    The `.min(3)` input rule on titles and descriptions: at least three
    UTF-16 code units. A failing input is refused with BAD_REQUEST before
    the procedure runs.
   */
  predicate ValidTitle(t: string) {
    Utf16Length(t) >= 3
  }

  /** One letter and one emoji are three code units, so `.min(3)` admits a two-character title. */
  lemma ValidTitleCountsCodeUnits()
    ensures ValidTitle("a\U{1F600}") && |"a\U{1F600}"| == 2
    ensures !ValidTitle("ab")
  {
    var t := "a\U{1F600}";
    assert t[1..] == "\U{1F600}";
    assert t[1..][1..] == "";
    var u := "ab";
    assert u[1..] == "b" && u[1..][1..] == "";
  }
}
