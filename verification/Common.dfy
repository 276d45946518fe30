/** What every other module may use. */
module Common {
  datatype Option<+T> = None | Some(value: T)

  function Min(a: int, b: int): int { if a <= b then a else b }
  function Max(a: int, b: int): int { if a >= b then a else b }

  lemma Scaled(a: int, b: int, each: nat)
    requires a <= b
    ensures a * each <= b * each
  {
  }

  /** Multiples below f bound its quotient from below, those above it from above. */
  lemma Quotients(q: nat, each: nat, f: nat)
    requires each > 0
    ensures q * each <= f ==> q <= f / each
    ensures f < q * each + each ==> f / each <= q
  {
    var d := f / each;
    assert f == d * each + f % each;
    assert (d + 1) * each == d * each + each && (q + 1) * each == q * each + each;
    if d < q {
      Scaled(d + 1, q, each);
    } else if q < d {
      Scaled(q + 1, d, each);
    }
  }

  lemma Pick<T>(s: set<T>) returns (x: T)
    requires s != {}
    ensures x in s
  {
    x :| x in s;
  }

  /** Some integer above all those of a set. */
  lemma {:induction false} Above(ids: set<int>) returns (bound: int)
    ensures forall id :: id in ids ==> id < bound
    decreases |ids|
  {
    bound := 0;
    if ids != {} {
      var x := Pick(ids);
      var rest := ids - {x};
      bound := Above(rest);
      bound := if bound <= x then x + 1 else bound;
      forall id | id in ids
        ensures id < bound
      {
        assert id == x || id in rest;
      }
    } else {
      assert |ids| == 0;
    }
  }
}
