/** Items grouped by a key in order of first occurrence, as a dictionary of lists groups them. */
module Grouping {

  /** The items whose key is `key`, in order. */
  function Select<V, K(==)>(items: seq<V>, keys: seq<K>, key: K): seq<V>
    requires |keys| == |items|
  {
    if items == [] then []
    else
      var last := |items| - 1;
      Select(items[..last], keys[..last], key) + if keys[last] == key then [items[last]] else []
  }

  lemma {:induction false} SelectMember<V, K>(items: seq<V>, keys: seq<K>, key: K, item: V)
    requires |keys| == |items|
    ensures item in Select(items, keys, key) <==> exists i :: 0 <= i < |items| && items[i] == item && keys[i] == key
  {
    if items != [] {
      var last := |items| - 1;
      SelectMember(items[..last], keys[..last], key, item);
      if i :| 0 <= i < |items| && items[i] == item && keys[i] == key {
        assert i == last || (items[..last][i] == item && keys[..last][i] == key);
      }
    }
  }

  lemma SelectAppend<V, K>(items: seq<V>, keys: seq<K>, item: V, itemKey: K, key: K)
    requires |keys| == |items|
    ensures Select(items + [item], keys + [itemKey], key)
            == Select(items, keys, key) + if itemKey == key then [item] else []
  {
    assert (items + [item])[..|items|] == items && (keys + [itemKey])[..|items|] == keys;
  }

  predicate Distinct<V(==)>(items: seq<V>) {
    forall i, j :: 0 <= i < j < |items| ==> items[i] != items[j]
  }

  lemma {:induction false} SelectDistinct<V, K>(items: seq<V>, keys: seq<K>, key: K)
    requires |keys| == |items| && Distinct(items)
    ensures Distinct(Select(items, keys, key))
  {
    if items != [] {
      var last := |items| - 1;
      SelectDistinct(items[..last], keys[..last], key);
      SelectMember(items[..last], keys[..last], key, items[last]);
    }
  }

  ghost predicate Grouped<V, K(!new)>(items: seq<V>, keys: seq<K>, order: seq<K>, groups: map<K, seq<V>>)
    requires |keys| == |items|
  {
    && Distinct(order)
    && (forall key :: key in order <==> key in keys)
    && (forall key :: key in groups <==> key in keys)
    && (forall key :: key in keys && key in groups ==> groups[key] == Select(items, keys, key))
  }

  method GroupBy<V, K(==,!new)>(items: seq<V>, keys: seq<K>) returns (order: seq<K>, groups: map<K, seq<V>>)
    requires |keys| == |items|
    ensures Grouped(items, keys, order, groups)
  {
    order, groups := [], map[];
    for i := 0 to |items|
      invariant Grouped(items[..i], keys[..i], order, groups)
    {
      var key := keys[i];
      assert items[..i + 1] == items[..i] + [items[i]] && keys[..i + 1] == keys[..i] + [key];
      forall k
        ensures Select(items[..i + 1], keys[..i + 1], k)
                == Select(items[..i], keys[..i], k) + if key == k then [items[i]] else []
      {
        SelectAppend(items[..i], keys[..i], items[i], key, k);
      }
      if key in groups {
        groups := groups[key := groups[key] + [items[i]]];
      } else {
        SelectNone(items[..i], keys[..i], key);
        order, groups := order + [key], groups[key := [items[i]]];
      }
    }
    assert items[..|items|] == items && keys[..|items|] == keys;
  }

  lemma {:induction false} SelectNone<V, K>(items: seq<V>, keys: seq<K>, key: K)
    requires |keys| == |items| && key !in keys
    ensures Select(items, keys, key) == []
  {
    if items != [] {
      SelectNone(items[..|items| - 1], keys[..|items| - 1], key);
    }
  }
}
