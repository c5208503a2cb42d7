/** Sorting by an order, as `sort.Slice` does it for elements that the order tells apart. */
module Sorting {
  ghost predicate TotalOrder<T(!new)>(leq: (T, T) -> bool) {
    (forall a, b :: leq(a, b) || leq(b, a)) && (forall a, b, c :: leq(a, b) && leq(b, c) ==> leq(a, c))
  }

  ghost predicate Ordered<T(!new)>(xs: seq<T>, leq: (T, T) -> bool) {
    forall i, j :: 0 <= i < j < |xs| ==> leq(xs[i], xs[j])
  }

  function Insert<T>(x: T, xs: seq<T>, leq: (T, T) -> bool): (r: seq<T>)
    ensures multiset(r) == multiset{x} + multiset(xs)
  {
    if xs == [] then [x]
    else if leq(x, xs[0]) then [x] + xs
    else
      assert xs == [xs[0]] + xs[1..];
      [xs[0]] + Insert(x, xs[1..], leq)
  }

  function Sort<T>(xs: seq<T>, leq: (T, T) -> bool): (r: seq<T>)
    ensures multiset(r) == multiset(xs)
  {
    if xs == [] then []
    else
      assert xs == [xs[0]] + xs[1..];
      Insert(xs[0], Sort(xs[1..], leq), leq)
  }

  lemma Inserted<T>(x: T, xs: seq<T>, leq: (T, T) -> bool, y: T)
    ensures y in Insert(x, xs, leq) <==> y == x || y in xs
  {
    var r := Insert(x, xs, leq);
    assert y in r <==> y in multiset(r);
    assert y in xs <==> y in multiset(xs);
  }

  lemma SortKeeps<T>(xs: seq<T>, leq: (T, T) -> bool, y: T)
    ensures y in Sort(xs, leq) <==> y in xs
  {
    assert y in Sort(xs, leq) <==> y in multiset(Sort(xs, leq));
    assert y in xs <==> y in multiset(xs);
  }

  lemma {:induction false} InsertOrders<T(!new)>(x: T, xs: seq<T>, leq: (T, T) -> bool)
    requires TotalOrder(leq) && Ordered(xs, leq)
    ensures Ordered(Insert(x, xs, leq), leq)
    decreases xs
  {
    if xs != [] && !leq(x, xs[0]) {
      var rest := Insert(x, xs[1..], leq);
      InsertOrders(x, xs[1..], leq);
      forall j | 0 <= j < |rest|
        ensures leq(xs[0], rest[j])
      {
        Inserted(x, xs[1..], leq, rest[j]);
      }
    }
  }

  lemma {:induction false} SortOrders<T(!new)>(xs: seq<T>, leq: (T, T) -> bool)
    requires TotalOrder(leq)
    ensures Ordered(Sort(xs, leq), leq)
    decreases xs
  {
    if xs != [] {
      SortOrders(xs[1..], leq);
      InsertOrders(xs[0], Sort(xs[1..], leq), leq);
    }
  }
}
