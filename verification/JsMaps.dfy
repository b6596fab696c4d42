/** JavaScript's `Map` with string keys: lookup plus insertion order. */
module JsMaps {
  import opened Sorting

  function IsNot(k: string): string -> bool { (x: string) => x != k }

  datatype JsMap<V> = JsMap(order: seq<string>, entries: map<string, V>)
  {
    ghost predicate Valid() {
      && (forall k :: k in entries <==> k in order)
      && AllDistinct(order)
    }

    function Put(k: string, v: V): (m: JsMap<V>)
      requires Valid()
      ensures m.Valid() && m.entries == entries[k := v] && m.order == if k in entries then order else order + [k]
    {
      JsMap(if k in entries then order else order + [k], entries[k := v])
    }

    /** Deleting a key keeps the order of the rest. */
    function Remove(k: string): (m: JsMap<V>)
      requires Valid()
      ensures m.Valid() && m.entries == entries - {k} && m.order == Filter(order, IsNot(k))
      ensures |m.order| == if k in entries then |order| - 1 else |order|
      ensures forall x :: x in m.order <==> x in order && x != k
    {
      RemoveFacts(order, k);
      JsMap(Filter(order, IsNot(k)), entries - {k})
    }
  }

  lemma EmptyIsValid<V>(m: JsMap<V>)
    requires m == JsMap([], map[])
    ensures m.Valid()
  {
  }

  lemma {:induction false} RemoveFacts(order: seq<string>, k: string)
    requires AllDistinct(order)
    ensures var rest := Filter(order, IsNot(k));
            && AllDistinct(rest) && |rest| == (if k in order then |order| - 1 else |order|)
            && forall x :: x in rest <==> x in order && x != k
    decreases order
  {
    if order != [] {
      var init, last := order[..|order| - 1], order[|order| - 1];
      assert order == init + [last];
      RemoveFacts(init, k);
      FilterSnoc(init, last, IsNot(k));
      hide Filter;
      assert last !in init;
    }
  }
}
