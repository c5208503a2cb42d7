/** How often something occurs. */
module Counting {
  function B(b: bool): nat { if b then 1 else 0 }

  function Occurs<T(==)>(q: seq<T>, x: T): nat {
    if q == [] then 0 else Occurs(q[..|q| - 1], x) + B(q[|q| - 1] == x)
  }

  lemma OccursOne<T>(p: seq<T>, y: T, x: T)
    ensures Occurs(p + [y], x) == Occurs(p, x) + B(y == x)
  {
    assert (p + [y])[..|p|] == p;
  }

  lemma {:induction false} OccursConcat<T>(p: seq<T>, q: seq<T>, x: T)
    ensures Occurs(p + q, x) == Occurs(p, x) + Occurs(q, x)
    decreases q
  {
    if q == [] {
      assert p + q == p;
    } else {
      assert (p + q)[..|p + q| - 1] == p + q[..|q| - 1];
      OccursConcat(p, q[..|q| - 1], x);
    }
  }
}
