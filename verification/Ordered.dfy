/** Python's `dict`, which remembers the order of insertion, and `sorted` with a key. */
module Ordered {

  datatype Dict<K(!new, ==), V> = Dict(keys: seq<K>, at: map<K, V>) {
    ghost predicate Valid() {
      && (forall k :: k in keys <==> k in at)
      && (forall i, j :: 0 <= i < j < |keys| ==> keys[i] != keys[j])
    }

    function Put(k: K, v: V): Dict<K, V> {
      Dict(if k in at then keys else keys + [k], at[k := v])
    }

    function Values(): (values: seq<V>)
      requires forall k :: k in keys ==> k in at
    {
      seq(|keys|, i requires 0 <= i < |keys| => at[keys[i]])
    }
  }

  /** Putting keeps the dictionary valid. */
  lemma PutValid<K(!new), V>(d: Dict<K, V>, k: K, v: V)
    requires d.Valid()
    ensures d.Put(k, v).Valid()
  {
  }

  // ---- sums ----

  function SumBy<T>(list: seq<T>, weight: T -> nat): nat {
    if list == [] then 0 else SumBy(list[..|list| - 1], weight) + weight(list[|list| - 1])
  }

  lemma SumSnoc<T>(list: seq<T>, x: T, weight: T -> nat)
    ensures SumBy(list + [x], weight) == SumBy(list, weight) + weight(x)
  {
    assert (list + [x])[..|list|] == list;
  }

  lemma {:induction false} SumCons<T>(x: T, list: seq<T>, weight: T -> nat)
    ensures SumBy([x] + list, weight) == weight(x) + SumBy(list, weight)
  {
    if list == [] {
      assert [x] + list == [] + [x];
      SumSnoc([], x, weight);
    } else {
      var init, last := list[..|list| - 1], list[|list| - 1];
      SumCons(x, init, weight);
      assert [x] + list == ([x] + init) + [last];
      SumSnoc([x] + init, last, weight);
    }
  }

  lemma {:induction false} SumReplace<T>(list: seq<T>, i: nat, x: T, weight: T -> nat)
    requires i < |list|
    ensures SumBy(list[i := x], weight) + weight(list[i]) == SumBy(list, weight) + weight(x)
  {
    var init, last := list[..|list| - 1], list[|list| - 1];
    var changed := list[i := x];
    if i == |init| {
      assert changed[..|init|] == init;
    } else {
      SumReplace(init, i, x, weight);
      assert changed[..|init|] == init[i := x];
    }
  }

  /** A new entry adds its weight; a replaced one adds the difference. */
  lemma PutSum<K(!new), V>(d: Dict<K, V>, k: K, v: V, weight: V -> nat)
    requires d.Valid()
    ensures d.Put(k, v).Valid()
    ensures SumBy(d.Put(k, v).Values(), weight) + (if k in d.at then weight(d.at[k]) else 0)
            == SumBy(d.Values(), weight) + weight(v)
  {
    var e := d.Put(k, v);
    if k in d.at {
      var i :| 0 <= i < |d.keys| && d.keys[i] == k;
      assert e.Values() == d.Values()[i := v];
      SumReplace(d.Values(), i, v, weight);
    } else {
      assert e.Values() == d.Values() + [v];
      SumSnoc(d.Values(), v, weight);
    }
  }

  lemma ValueIn<K(!new), V>(d: Dict<K, V>, k: K)
    requires d.Valid() && k in d.at
    ensures d.at[k] in d.Values()
  {
    var i :| 0 <= i < |d.keys| && d.keys[i] == k;
    assert d.Values()[i] == d.at[k];
  }

  // ---- sorting ----

  function InsertBy<T>(list: seq<T>, x: T, before: (T, T) -> bool): seq<T> {
    if list == [] || before(x, list[0]) then [x] + list else [list[0]] + InsertBy(list[1..], x, before)
  }

  /** A stable sort: an element goes after those it need not precede. */
  function SortBy<T>(list: seq<T>, before: (T, T) -> bool): seq<T> {
    if list == [] then [] else InsertBy(SortBy(list[..|list| - 1], before), list[|list| - 1], before)
  }

  /** A strict order in which any two elements are comparable or tied. */
  ghost predicate StrictOrder<T(!new)>(before: (T, T) -> bool) {
    && (forall x, y :: before(x, y) ==> !before(y, x))
    && (forall x, y, z :: !before(y, x) && !before(z, y) ==> !before(z, x))
  }

  ghost predicate InOrder<T(!new)>(list: seq<T>, before: (T, T) -> bool) {
    forall i, j :: 0 <= i < j < |list| ==> !before(list[j], list[i])
  }

  lemma {:induction false} InsertSum<T>(list: seq<T>, x: T, before: (T, T) -> bool, weight: T -> nat)
    ensures SumBy(InsertBy(list, x, before), weight) == SumBy(list, weight) + weight(x)
  {
    if list == [] || before(x, list[0]) {
      SumCons(x, list, weight);
    } else {
      InsertSum(list[1..], x, before, weight);
      SumCons(list[0], InsertBy(list[1..], x, before), weight);
      SumCons(list[0], list[1..], weight);
      assert [list[0]] + list[1..] == list;
    }
  }

  /** Sorting keeps every sum. */
  lemma {:induction false} SortSum<T>(list: seq<T>, before: (T, T) -> bool, weight: T -> nat)
    ensures SumBy(SortBy(list, before), weight) == SumBy(list, weight)
  {
    if list != [] {
      SortSum(list[..|list| - 1], before, weight);
      InsertSum(SortBy(list[..|list| - 1], before), list[|list| - 1], before, weight);
    }
  }

  lemma {:induction false} InsertElements<T>(list: seq<T>, x: T, before: (T, T) -> bool)
    ensures multiset(InsertBy(list, x, before)) == multiset(list) + multiset{x}
  {
    if list == [] || before(x, list[0]) {
    } else {
      InsertElements(list[1..], x, before);
      assert [list[0]] + list[1..] == list;
    }
  }

  /** Sorting rearranges. */
  lemma {:induction false} SortElements<T>(list: seq<T>, before: (T, T) -> bool)
    ensures multiset(SortBy(list, before)) == multiset(list)
  {
    if list != [] {
      SortElements(list[..|list| - 1], before);
      InsertElements(SortBy(list[..|list| - 1], before), list[|list| - 1], before);
      assert list == list[..|list| - 1] + [list[|list| - 1]];
    }
  }

  lemma {:induction false} InsertInOrder<T(!new)>(list: seq<T>, x: T, before: (T, T) -> bool)
    requires StrictOrder(before) && InOrder(list, before)
    ensures InOrder(InsertBy(list, x, before), before)
  {
    if list == [] {
    } else if before(x, list[0]) {
      forall j | 0 <= j < |list| ensures !before(list[j], x) {
        assert !before(list[0], x);
        if j > 0 { assert !before(list[j], list[0]); }
      }
    } else {
      var rest := InsertBy(list[1..], x, before);
      InsertInOrder(list[1..], x, before);
      InsertElements(list[1..], x, before);
      forall j | 0 <= j < |rest| ensures !before(rest[j], list[0]) {
        assert rest[j] in multiset(rest);
        assert rest[j] in list[1..] || rest[j] == x;
      }
    }
  }

  /** Sorting puts in order. */
  lemma {:induction false} SortInOrder<T(!new)>(list: seq<T>, before: (T, T) -> bool)
    requires StrictOrder(before)
    ensures InOrder(SortBy(list, before), before)
  {
    if list != [] {
      SortInOrder(list[..|list| - 1], before);
      InsertInOrder(SortBy(list[..|list| - 1], before), list[|list| - 1], before);
    }
  }
}
