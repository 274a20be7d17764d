/** The keys of a sorted map, one after another. */
module KeyOrders {
  import opened Prelude
  import opened Sorting
  import opened PrimaryKeys
  import opened RowLocator

  predicate KeyLe(a: PrimaryKey, b: PrimaryKey) {
    a == b || KeyLt(a, b)
  }

  lemma {:induction false} BytesTotal(a: seq<Byte>, b: seq<Byte>)
    ensures a == b || BytesLt(a, b) || BytesLt(b, a)
    ensures !(BytesLt(a, b) && BytesLt(b, a)) && !BytesLt(a, a)
  {
    if a != [] && b != [] && a[0] == b[0] {
      BytesTotal(a[1..], b[1..]);
      assert a == [a[0]] + a[1..] && b == [b[0]] + b[1..];
    }
    if a != [] { BytesTotal(a[1..], a[1..]); }
  }

  lemma {:induction false} BytesTransitive(a: seq<Byte>, b: seq<Byte>, c: seq<Byte>)
    requires BytesLt(a, b) && BytesLt(b, c)
    ensures BytesLt(a, c)
  {
    if a != [] && a[0] == b[0] == c[0] { BytesTransitive(a[1..], b[1..], c[1..]); }
  }

  lemma KeyOrderTotal()
    ensures TotalPreorder(KeyLe)
  {
    forall a, b ensures KeyLe(a, b) || KeyLe(b, a) {
      if a.Uuid? && b.Uuid? { BytesTotal(a.bytes, b.bytes); }
      if a.Str? && b.Str? { BytesTotal(a.utf8, b.utf8); }
    }
    forall a, b, c | KeyLe(a, b) && KeyLe(b, c) ensures KeyLe(a, c) {
      if KeyLt(a, b) && KeyLt(b, c) {
        if a.Uuid? && b.Uuid? && c.Uuid? { BytesTransitive(a.bytes, b.bytes, c.bytes); }
        if a.Str? && b.Str? && c.Str? { BytesTransitive(a.utf8, b.utf8, c.utf8); }
      }
    }
  }

  /** `order` is `keys`, each once. */
  ghost predicate Lists(order: seq<PrimaryKey>, keys: set<PrimaryKey>) {
    Distinct(order) && forall k :: k in keys <==> k in order
  }

  /** `order` is `keys`, ascending: how a sorted map yields them. */
  ghost predicate InKeyOrder(order: seq<PrimaryKey>, keys: set<PrimaryKey>) {
    Lists(order, keys) && forall i, j :: 0 <= i < j < |order| ==> KeyLt(order[i], order[j])
  }

  method SortKeys(keys: set<PrimaryKey>) returns (order: seq<PrimaryKey>)
    ensures InKeyOrder(order, keys)
  {
    order := [];
    var todo := keys;
    while todo != {}
      invariant todo <= keys && Distinct(order) && forall k :: k in keys - todo <==> k in order
      decreases todo
    {
      var key :| key in todo;
      assert key !in keys - todo && key !in order;
      order, todo := order + [key], todo - {key};
    }
    KeyOrderTotal();
    SortSorts(KeyLe, order);
    SortedIsOrder(order, Sort(KeyLe, order), keys);
    order := Sort(KeyLe, order);
  }

  lemma SortedIsOrder(order: seq<PrimaryKey>, sorted: seq<PrimaryKey>, keys: set<PrimaryKey>)
    requires SortedBy(KeyLe, sorted) && multiset(sorted) == multiset(order) && Distinct(order)
    requires forall k :: k in keys <==> k in order
    ensures InKeyOrder(sorted, keys)
  {
    DistinctPermutation(order, sorted);
    forall k ensures k in keys <==> k in sorted {
      assert k in sorted <==> k in multiset(sorted);
      assert k in order <==> k in multiset(order);
    }
    forall i, j | 0 <= i < j < |sorted| ensures KeyLt(sorted[i], sorted[j]) {
      assert KeyLe(sorted[i], sorted[j]);
    }
  }

  /** Any set of keys can be listed. */
  lemma ListKeys(keys: set<PrimaryKey>) returns (order: seq<PrimaryKey>)
    ensures Lists(order, keys)
    decreases |keys|
  {
    order := [];
    if keys != {} {
      var k :| k in keys;
      order := ListKeys(keys - {k});
      order := order + [k];
    }
  }

  lemma {:induction false} ListCount(order: seq<PrimaryKey>, keys: set<PrimaryKey>)
    requires Lists(order, keys)
    ensures |order| == |keys|
    decreases |order|
  {
    if order == [] {
      assert forall k :: k !in keys;
      assert keys == {};
    } else {
      var front, last := order[..|order| - 1], order[|order| - 1];
      assert order == front + [last] && last in order;
      ListCount(front, keys - {last});
    }
  }
}
