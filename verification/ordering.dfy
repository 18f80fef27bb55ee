/**
  Order keys. Lists within a board and cards within a list carry an integer
  `order`; a new row goes after the last one (`max + 1`, or 1 in an empty
  scope), and queries return rows sorted by that key.
 */
module Ordering {

  /**
    `n` is the key a new row gets in a scope whose rows have the keys
    `orderOf` (row id to order): one past the largest, or 1 when the scope
    is empty.
   */
  ghost predicate IsNextOrder(n: int, orderOf: map<string, int>) {
    if orderOf == map[] then n == 1
    else (exists k :: k in orderOf && orderOf[k] == n - 1) && forall k :: k in orderOf ==> orderOf[k] < n
  }

  lemma {:induction false} MaxExists(rest: set<string>, orderOf: map<string, int>)
    requires rest != {} && rest <= orderOf.Keys
    ensures exists k :: k in rest && forall j :: j in rest ==> orderOf[j] <= orderOf[k]
    decreases |rest|
  {
    var x :| x in rest;
    if rest != {x} {
      var smaller := rest - {x};
      MaxExists(smaller, orderOf);
      var k :| k in smaller && forall j :: j in smaller ==> orderOf[j] <= orderOf[k];
      if orderOf[k] <= orderOf[x] {
        assert forall j :: j in rest ==> orderOf[j] <= orderOf[x];
      } else {
        assert forall j :: j in rest ==> orderOf[j] <= orderOf[k];
      }
    } else {
      assert forall j :: j in rest ==> orderOf[j] <= orderOf[x];
    }
  }

  /** The largest key of a non-empty scope (what `findFirst ... orderBy: { order: 'desc' }` reads). */
  function MaxOrder(orderOf: map<string, int>): (m: int)
    requires orderOf != map[]
    ensures exists k :: k in orderOf && orderOf[k] == m
    ensures forall k :: k in orderOf ==> orderOf[k] <= m
  {
    assert orderOf.Keys != {} by {
      var k :| k in orderOf;
    }
    MaxExists(orderOf.Keys, orderOf);
    var top :| top in orderOf && forall j :: j in orderOf ==> orderOf[j] <= orderOf[top];
    assert orderOf[top] in orderOf.Values;
    var m :| m in orderOf.Values && forall k :: k in orderOf ==> orderOf[k] <= m;
    m
  }

  /** `lastRow ? lastRow.order + 1 : 1` */
  function NextOrder(orderOf: map<string, int>): (n: int)
    ensures IsNextOrder(n, orderOf)
  {
    if orderOf == map[] then 1 else MaxOrder(orderOf) + 1
  }

  /** `keys` lists every key of `orderOf` exactly once, ascending by its order. */
  ghost predicate SortedKeys(keys: seq<string>, orderOf: map<string, int>) {
    && (forall i :: 0 <= i < |keys| ==> keys[i] in orderOf)
    && (forall k :: k in orderOf ==> k in keys)
    && (forall i, j :: 0 <= i < j < |keys| ==> keys[i] != keys[j])
    && (forall i, j :: 0 <= i < j < |keys| ==> orderOf[keys[i]] <= orderOf[keys[j]])
  }

  lemma {:induction false} MinExists(rest: set<string>, orderOf: map<string, int>)
    requires rest != {} && rest <= orderOf.Keys
    ensures exists k :: k in rest && forall j :: j in rest ==> orderOf[k] <= orderOf[j]
    decreases |rest|
  {
    var x :| x in rest;
    if rest != {x} {
      var smaller := rest - {x};
      MinExists(smaller, orderOf);
      var k :| k in smaller && forall j :: j in smaller ==> orderOf[k] <= orderOf[j];
      if orderOf[x] <= orderOf[k] {
        assert forall j :: j in rest ==> orderOf[x] <= orderOf[j];
      } else {
        assert forall j :: j in rest ==> orderOf[k] <= orderOf[j];
      }
    } else {
      assert forall j :: j in rest ==> orderOf[x] <= orderOf[j];
    }
  }

  /**
    `orderBy: { order: 'asc' }`: the keys of `orderOf` ascending by their
    order. Rows with equal keys come back in an order the database leaves
    open, so the method chooses among them freely.
   */
  method SortByOrder(orderOf: map<string, int>) returns (keys: seq<string>)
    ensures SortedKeys(keys, orderOf)
  {
    var rest := orderOf.Keys;
    keys := [];
    while rest != {}
      invariant rest <= orderOf.Keys
      invariant forall i :: 0 <= i < |keys| ==> keys[i] in orderOf && keys[i] !in rest
      invariant forall k :: k in orderOf && k !in rest ==> k in keys
      invariant forall i, j :: 0 <= i < j < |keys| ==> keys[i] != keys[j]
      invariant forall i, j :: 0 <= i < j < |keys| ==> orderOf[keys[i]] <= orderOf[keys[j]]
      invariant forall i, k :: 0 <= i < |keys| && k in rest ==> orderOf[keys[i]] <= orderOf[k]
      decreases rest
    {
      MinExists(rest, orderOf);
      var k :| k in rest && forall j :: j in rest ==> orderOf[k] <= orderOf[j];
      keys := keys + [k];
      rest := rest - {k};
    }
  }

  /**
    The position of the last item whose key is `id`, or -1 when there is
    none: the update that wins when a transaction writes the same row twice.
   */
  function LastIndex<T>(items: seq<T>, key: T -> string, id: string): (k: int)
    ensures -1 <= k < |items|
    ensures k >= 0 ==> key(items[k]) == id && forall j :: k < j < |items| ==> key(items[j]) != id
    ensures k < 0 ==> forall j :: 0 <= j < |items| ==> key(items[j]) != id
    decreases |items|
  {
    if |items| == 0 then -1
    else if key(items[|items| - 1]) == id then |items| - 1
    else LastIndex(items[..|items| - 1], key, id)
  }
}
