/** The relational operators the rollup queries are written in: aggregation, GROUP BY, joins
    and row_number(). Tables are sequences of rows; uniqueness of a key is a predicate. */
module Relational {
  import opened Common

  /** sum(weight). */
  function Total<T>(rows: seq<T>, weight: T -> int): int
  {
    if rows == [] then 0 else weight(rows[0]) + Total(rows[1..], weight)
  }

  function One<T>(row: T): int { 1 }

  /** The rows whose key is k. */
  function Group<T, K(==)>(rows: seq<T>, key: T -> K, k: K): seq<T>
  {
    if rows == [] then []
    else if key(rows[0]) == k then [rows[0]] + Group(rows[1..], key, k)
    else Group(rows[1..], key, k)
  }

  /** The rows whose key is not k. */
  function Rest<T, K(==)>(rows: seq<T>, key: T -> K, k: K): (out: seq<T>)
    ensures |out| <= |rows|
  {
    if rows == [] then []
    else if key(rows[0]) == k then Rest(rows[1..], key, k)
    else [rows[0]] + Rest(rows[1..], key, k)
  }

  /** The rows timed in [from, to). */
  function Between<T>(rows: seq<T>, at: T -> int, from: int, to: int): seq<T>
  {
    if rows == [] then []
    else if from <= at(rows[0]) < to then [rows[0]] + Between(rows[1..], at, from, to)
    else Between(rows[1..], at, from, to)
  }

  /** The rows whose key is in the set: WHERE key IN (...). */
  function Among<T, K(==)>(rows: seq<T>, key: T -> K, ks: set<K>): seq<T>
  {
    if rows == [] then []
    else if key(rows[0]) in ks then [rows[0]] + Among(rows[1..], key, ks)
    else Among(rows[1..], key, ks)
  }

  /** SELECT f(row). */
  function Project<T, U>(rows: seq<T>, f: T -> U): (out: seq<U>)
    ensures |out| == |rows|
    ensures forall i :: 0 <= i < |rows| ==> out[i] == f(rows[i])
  {
    if rows == [] then [] else [f(rows[0])] + Project(rows[1..], f)
  }

  /** The distinct values of a column. */
  function Values<T(==), K(==)>(rows: seq<T>, key: T -> K): set<K>
  {
    set r | r in rows :: key(r)
  }

  /** key is a primary key of rows. */
  ghost predicate Unique<T, K>(rows: seq<T>, key: T -> K)
  {
    forall i, j :: 0 <= i < j < |rows| ==> key(rows[i]) != key(rows[j])
  }

  /** GROUP BY key: one aggregate row per key value, in order of first appearance. */
  function GroupBy<T, K(==), R>(rows: seq<T>, key: T -> K, aggregate: (K, seq<T>) -> R): seq<R>
    decreases |rows|
  {
    if rows == [] then []
    else
      var k := key(rows[0]);
      [aggregate(k, Group(rows, key, k))] + GroupBy(Rest(rows, key, k), key, aggregate)
  }

  /** One row paired with each of its matches, or with NULL when it has none. */
  function PairUp<A, B>(a: A, matches: seq<B>): seq<(A, Option<B>)>
  {
    if matches == [] then [(a, None)] else seq(|matches|, i requires 0 <= i < |matches| => (a, Some(matches[i])))
  }

  /** left LEFT JOIN right. */
  function LeftJoin<A, B, K(==)>(left: seq<A>, right: seq<B>, leftKey: A -> K, rightKey: B -> K): seq<(A, Option<B>)>
  {
    if left == [] then []
    else PairUp(left[0], Group(right, rightKey, leftKey(left[0]))) + LeftJoin(left[1..], right, leftKey, rightKey)
  }

  /** left JOIN right: the LEFT JOIN rows that found a match. */
  function Join<A, B, K(==)>(left: seq<A>, right: seq<B>, leftKey: A -> K, rightKey: B -> K): seq<(A, B)>
  {
    Matched(LeftJoin(left, right, leftKey, rightKey))
  }

  function Matched<A, B>(pairs: seq<(A, Option<B>)>): seq<(A, B)>
  {
    if pairs == [] then []
    else if pairs[0].1.Some? then [(pairs[0].0, pairs[0].1.value)] + Matched(pairs[1..])
    else Matched(pairs[1..])
  }

  /** The right rows that match no left row. */
  function Unmatched<A, B, K(==)>(left: seq<A>, right: seq<B>, leftKey: A -> K, rightKey: B -> K): seq<B>
    decreases |left|
  {
    if left == [] then right else Unmatched(left[1..], Rest(right, rightKey, leftKey(left[0])), leftKey, rightKey)
  }

  /** left FULL JOIN right: the LEFT JOIN followed by the unmatched right rows. */
  function FullJoin<A, B, K(==)>(left: seq<A>, right: seq<B>, leftKey: A -> K, rightKey: B -> K)
    : seq<(Option<A>, Option<B>)>
  {
    Project(LeftJoin(left, right, leftKey, rightKey), (p: (A, Option<B>)) => (Some(p.0), p.1)) +
    Project(Unmatched(left, right, leftKey, rightKey), (b: B) => (None, Some(b)))
  }

  // ---- Filters ----------------------------------------------------------------------

  lemma {:induction false} GroupMember<T, K>(rows: seq<T>, key: T -> K, k: K, r: T)
    ensures r in Group(rows, key, k) <==> r in rows && key(r) == k
    ensures r in Rest(rows, key, k) <==> r in rows && key(r) != k
  {
    if rows != [] {
      GroupMember(rows[1..], key, k, r);
    }
  }

  lemma {:induction false} GroupEmpty<T, K>(rows: seq<T>, key: T -> K, k: K)
    ensures Group(rows, key, k) == [] <==> forall i :: 0 <= i < |rows| ==> key(rows[i]) != k
  {
    if rows != [] {
      GroupEmpty(rows[1..], key, k);
      if key(rows[0]) != k {
        assert forall i :: 0 < i < |rows| ==> rows[i] == rows[1..][i - 1];
        assert forall i :: 0 <= i < |rows[1..]| ==> rows[1..][i] == rows[i + 1];
      }
    }
  }

  lemma {:induction false} BetweenMember<T>(rows: seq<T>, at: T -> int, from: int, to: int, r: T)
    ensures r in Between(rows, at, from, to) <==> r in rows && from <= at(r) < to
  {
    if rows != [] {
      BetweenMember(rows[1..], at, from, to, r);
    }
  }

  lemma {:induction false} AmongMember<T, K>(rows: seq<T>, key: T -> K, ks: set<K>, r: T)
    ensures r in Among(rows, key, ks) <==> r in rows && key(r) in ks
  {
    if rows != [] {
      AmongMember(rows[1..], key, ks, r);
    }
  }

  /** A filter of a table keeps its primary key. */
  lemma {:induction false} BetweenUnique<T(!new), K>(rows: seq<T>, at: T -> int, from: int, to: int, key: T -> K)
    requires Unique(rows, key)
    ensures Unique(Between(rows, at, from, to), key)
  {
    if rows != [] {
      BetweenUnique(rows[1..], at, from, to, key);
      var tail := Between(rows[1..], at, from, to);
      forall i | 0 <= i < |tail|
        ensures key(rows[0]) != key(tail[i])
      {
        BetweenMember(rows[1..], at, from, to, tail[i]);
        var j :| 0 <= j < |rows[1..]| && rows[1..][j] == tail[i];
        assert rows[j + 1] == tail[i];
      }
    }
  }

  lemma {:induction false} GroupUnique<T(!new), K, L>(rows: seq<T>, key: T -> K, k: K, id: T -> L)
    requires Unique(rows, id)
    ensures Unique(Group(rows, key, k), id) && Unique(Rest(rows, key, k), id)
  {
    if rows != [] {
      GroupUnique(rows[1..], key, k, id);
      forall r | r in Group(rows[1..], key, k) || r in Rest(rows[1..], key, k)
        ensures id(rows[0]) != id(r)
      {
        GroupMember(rows[1..], key, k, r);
        var j :| 0 <= j < |rows[1..]| && rows[1..][j] == r;
        assert rows[j + 1] == r;
      }
    }
  }

  /** Removing one key value leaves the groups of the others unchanged. */
  lemma {:induction false} GroupOfRest<T, K>(rows: seq<T>, key: T -> K, gone: K, k: K)
    requires k != gone
    ensures Group(Rest(rows, key, gone), key, k) == Group(rows, key, k)
  {
    if rows != [] {
      GroupOfRest(rows[1..], key, gone, k);
    }
  }

  lemma UniqueCons<T, K>(rows: seq<T>, key: T -> K)
    requires rows != []
    ensures Values(rows, key) == {key(rows[0])} + Values(rows[1..], key)
    ensures Unique(rows, key) <==> key(rows[0]) !in Values(rows[1..], key) && Unique(rows[1..], key)
  {
  }

  /** Different rows have different primary keys. */
  lemma KeysDiffer<T(!new), K>(rows: seq<T>, key: T -> K)
    requires Unique(rows, key)
    ensures forall a, b :: a in rows && b in rows && a != b ==> key(a) != key(b)
  {
    forall a, b | a in rows && b in rows && a != b
      ensures key(a) != key(b)
    {
      var i :| 0 <= i < |rows| && rows[i] == a;
      var j :| 0 <= j < |rows| && rows[j] == b;
      assert i < j || j < i;
    }
  }

  /** A column is a primary key exactly when it has as many values as the table has rows. */
  lemma {:induction false} UniqueSize<T, K>(rows: seq<T>, key: T -> K)
    ensures |Values(rows, key)| <= |rows|
    ensures Unique(rows, key) <==> |Values(rows, key)| == |rows|
  {
    if rows != [] {
      UniqueCons(rows, key);
      UniqueSize(rows[1..], key);
    }
  }

  // ---- Totals -----------------------------------------------------------------------

  lemma {:induction false} TotalAppend<T>(a: seq<T>, b: seq<T>, weight: T -> int)
    ensures Total(a + b, weight) == Total(a, weight) + Total(b, weight)
  {
    if a == [] {
      assert a + b == b;
    } else {
      TotalAppend(a[1..], b, weight);
      assert (a + b)[1..] == a[1..] + b;
    }
  }

  lemma {:induction false} TotalOne<T>(rows: seq<T>)
    ensures Total(rows, One<T>) == |rows|
  {
    if rows != [] {
      TotalOne(rows[1..]);
    }
  }

  /** Two tables of the same length with equal weights row by row have the same total. */
  lemma {:induction false} TotalEqual<T, U>(a: seq<T>, b: seq<U>, wa: T -> int, wb: U -> int)
    requires |a| == |b|
    requires forall i :: 0 <= i < |a| ==> wa(a[i]) == wb(b[i])
    ensures Total(a, wa) == Total(b, wb)
  {
    if a != [] {
      assert wa(a[0]) == wb(b[0]);
      forall i | 0 <= i < |a[1..]|
        ensures wa(a[1..][i]) == wb(b[1..][i])
      {
        assert wa(a[i + 1]) == wb(b[i + 1]);
      }
      TotalEqual(a[1..], b[1..], wa, wb);
    }
  }

  lemma {:induction false} SplitTotal<T, K>(rows: seq<T>, key: T -> K, k: K, weight: T -> int)
    ensures Total(Group(rows, key, k), weight) + Total(Rest(rows, key, k), weight) == Total(rows, weight)
  {
    if rows != [] {
      SplitTotal(rows[1..], key, k, weight);
    }
  }

  /** The rows a 0/1 weight selects. */
  function Marked<T(==)>(rows: seq<T>, weight: T -> int): set<T>
  {
    set r | r in rows && weight(r) == 1
  }

  /** count(*) FILTER (...): over a table with a primary key, a 0/1 total is a cardinality. */
  lemma {:induction false} IndicatorTotal<T(!new), K>(rows: seq<T>, id: T -> K, weight: T -> int)
    requires Unique(rows, id)
    requires forall r :: r in rows ==> weight(r) == 0 || weight(r) == 1
    ensures Total(rows, weight) == |Marked(rows, weight)|
  {
    if rows != [] {
      var tail := rows[1..];
      UniqueCons(rows, id);
      IndicatorTotal(tail, id, weight);
      MarkedCons(rows, weight);
    }
  }

  lemma MarkedCons<T(!new)>(rows: seq<T>, weight: T -> int)
    requires rows != []
    ensures Marked(rows, weight) == Marked(rows[1..], weight) + if weight(rows[0]) == 1 then {rows[0]} else {}
  {
    assert rows == [rows[0]] + rows[1..];
  }

  // ---- GROUP BY ---------------------------------------------------------------------

  /** GROUP BY loses nothing: if every aggregate row carries the total of its group, the
      totals of the groups add up to the total of the table. */
  lemma {:induction false} GroupTotals<T(!new), K(!new), R>(
    rows: seq<T>, key: T -> K, aggregate: (K, seq<T>) -> R, measure: R -> int, weight: T -> int)
    requires forall k, g :: measure(aggregate(k, g)) == Total(g, weight)
    ensures Total(GroupBy(rows, key, aggregate), measure) == Total(rows, weight)
    decreases |rows|
  {
    if rows != [] {
      var k := key(rows[0]);
      SplitTotal(rows, key, k, weight);
      GroupTotals(Rest(rows, key, k), key, aggregate, measure, weight);
    }
  }

  /** Every row of a GROUP BY is the aggregate of the group of a value present. */
  lemma {:induction false} GroupByRow<T(!new), K(!new), R>(rows: seq<T>, key: T -> K, aggregate: (K, seq<T>) -> R,
                                                           i: nat)
    returns (k: K)
    requires i < |GroupBy(rows, key, aggregate)|
    ensures k in Values(rows, key) && GroupBy(rows, key, aggregate)[i] == aggregate(k, Group(rows, key, k))
    decreases |rows|
  {
    var k0 := key(rows[0]);
    if i == 0 {
      k := k0;
    } else {
      var rest := Rest(rows, key, k0);
      k := GroupByRow(rest, key, aggregate, i - 1);
      var r :| r in rest && key(r) == k;
      GroupMember(rows, key, k0, r);
      GroupOfRest(rows, key, k0, k);
    }
  }

  /** Every value present has its row. */
  lemma {:induction false} GroupByHas<T(!new), K(!new), R>(rows: seq<T>, key: T -> K, aggregate: (K, seq<T>) -> R, k: K)
    requires k in Values(rows, key)
    ensures aggregate(k, Group(rows, key, k)) in GroupBy(rows, key, aggregate)
    decreases |rows|
  {
    var k0 := key(rows[0]);
    if k != k0 {
      var r :| r in rows && key(r) == k;
      GroupMember(rows, key, k0, r);
      GroupOfRest(rows, key, k0, k);
      GroupByHas(Rest(rows, key, k0), key, aggregate, k);
    }
  }

  /** GROUP BY returns one row per value, so the grouping column is a primary key of its result. */
  lemma {:induction false} GroupByUnique<T(!new), K(!new), R>(
    rows: seq<T>, key: T -> K, aggregate: (K, seq<T>) -> R, name: R -> K)
    requires forall k, g :: name(aggregate(k, g)) == k
    ensures Unique(GroupBy(rows, key, aggregate), name)
    ensures Values(GroupBy(rows, key, aggregate), name) == Values(rows, key)
    ensures |GroupBy(rows, key, aggregate)| == |Values(rows, key)|
    decreases |rows|
  {
    if rows != [] {
      var k0 := key(rows[0]);
      var rest := Rest(rows, key, k0);
      GroupByUnique(rest, key, aggregate, name);
      ValuesOfRest(rows, key);
      var out := GroupBy(rows, key, aggregate);
      assert out[0] == aggregate(k0, Group(rows, key, k0)) && out[1..] == GroupBy(rest, key, aggregate);
      UniqueCons(out, name);
    }
  }

  /** The first row's key is the one that the rest lacks. */
  lemma ValuesOfRest<T(!new), K>(rows: seq<T>, key: T -> K)
    requires rows != []
    ensures Values(rows, key) == {key(rows[0])} + Values(Rest(rows, key, key(rows[0])), key)
    ensures key(rows[0]) !in Values(Rest(rows, key, key(rows[0])), key)
  {
    forall r ensures r in Rest(rows, key, key(rows[0])) <==> r in rows && key(r) != key(rows[0]) {
      GroupMember(rows, key, key(rows[0]), r);
    }
  }

  /** How many groups there are does not depend on what is computed for them. */
  lemma {:induction false} SameGroupCount<T, K, R, S>(
    rows: seq<T>, key: T -> K, f: (K, seq<T>) -> R, g: (K, seq<T>) -> S)
    ensures |GroupBy(rows, key, f)| == |GroupBy(rows, key, g)|
    decreases |rows|
  {
    if rows != [] {
      SameGroupCount(Rest(rows, key, key(rows[0])), key, f, g);
    }
  }

  /** A projection that keeps a column keeps its values and its uniqueness. */
  lemma ProjectKeys<T(!new), U(!new), K>(rows: seq<T>, f: T -> U, key: T -> K, name: U -> K)
    requires forall r :: r in rows ==> name(f(r)) == key(r)
    ensures Values(Project(rows, f), name) == Values(rows, key)
    ensures Unique(rows, key) <==> Unique(Project(rows, f), name)
  {
  }

  // ---- Joins ------------------------------------------------------------------------

  /** The right row with key k, if any. */
  function Lookup<B, K(==)>(right: seq<B>, rightKey: B -> K, k: K): Option<B>
  {
    var matches := Group(right, rightKey, k);
    if matches == [] then None else Some(matches[0])
  }

  lemma {:induction false} GroupOfUnique<T(!new), K>(rows: seq<T>, key: T -> K, k: K)
    requires Unique(rows, key)
    ensures |Group(rows, key, k)| <= 1
  {
    if rows != [] {
      GroupOfUnique(rows[1..], key, k);
      if key(rows[0]) == k {
        GroupEmpty(rows[1..], key, k);
      }
    }
  }

  /** Joined to a table by its primary key, each left row appears exactly once, with the row
      of its key when there is one. */
  lemma {:induction false} LeftJoinOnKey<A, B(!new), K>(left: seq<A>, right: seq<B>, leftKey: A -> K, rightKey: B -> K)
    requires Unique(right, rightKey)
    ensures var out := LeftJoin(left, right, leftKey, rightKey);
            && |out| == |left|
            && forall i :: 0 <= i < |left| ==> out[i] == (left[i], Lookup(right, rightKey, leftKey(left[i])))
  {
    if left != [] {
      LeftJoinOnKey(left[1..], right, leftKey, rightKey);
      GroupOfUnique(right, rightKey, leftKey(left[0]));
      var out := LeftJoin(left, right, leftKey, rightKey);
      var first := (left[0], Lookup(right, rightKey, leftKey(left[0])));
      assert out == [first] + LeftJoin(left[1..], right, leftKey, rightKey);
      forall i | 0 <= i < |left|
        ensures out[i] == (left[i], Lookup(right, rightKey, leftKey(left[i])))
      {
        if i > 0 { assert left[i] == left[1..][i - 1]; }
      }
    }
  }

  lemma {:induction false} MatchedAll<A, B>(pairs: seq<(A, Option<B>)>)
    requires forall i :: 0 <= i < |pairs| ==> pairs[i].1.Some?
    ensures |Matched(pairs)| == |pairs|
    ensures forall i :: 0 <= i < |pairs| ==> Matched(pairs)[i] == (pairs[i].0, pairs[i].1.value)
  {
    if pairs != [] {
      MatchedAll(pairs[1..]);
    }
  }

  lemma LookupFound<B(!new), K>(right: seq<B>, rightKey: B -> K, k: K)
    ensures Lookup(right, rightKey, k).Some? <==> k in Values(right, rightKey)
    ensures Lookup(right, rightKey, k).Some? ==>
              Lookup(right, rightKey, k).value in right && rightKey(Lookup(right, rightKey, k).value) == k
  {
    if Lookup(right, rightKey, k).Some? {
      GroupMember(right, rightKey, k, Lookup(right, rightKey, k).value);
    } else if k in Values(right, rightKey) {
      var r :| r in right && rightKey(r) == k;
      GroupMember(right, rightKey, k, r);
    }
  }

  /** JOIN to a primary key that covers every left key: one row per left row. */
  lemma JoinOnKey<A, B(!new), K>(left: seq<A>, right: seq<B>, leftKey: A -> K, rightKey: B -> K)
    requires Unique(right, rightKey)
    requires forall i :: 0 <= i < |left| ==> leftKey(left[i]) in Values(right, rightKey)
    ensures var out := Join(left, right, leftKey, rightKey);
            |out| == |left| &&
            forall i :: 0 <= i < |left| ==>
              out[i].0 == left[i] && out[i].1 in right && rightKey(out[i].1) == leftKey(left[i])
  {
    LeftJoinOnKey(left, right, leftKey, rightKey);
    forall i | 0 <= i < |left|
      ensures Lookup(right, rightKey, leftKey(left[i])).Some?
      ensures Lookup(right, rightKey, leftKey(left[i])).value in right
      ensures rightKey(Lookup(right, rightKey, leftKey(left[i])).value) == leftKey(left[i])
    {
      LookupFound(right, rightKey, leftKey(left[i]));
    }
    MatchedAll(LeftJoin(left, right, leftKey, rightKey));
  }

  function OrZero<T>(row: Option<T>, weight: T -> int): int
  {
    if row.Some? then weight(row.value) else 0
  }

  lemma {:induction false} LeftJoinOfRest<A, B, K>(left: seq<A>, right: seq<B>, leftKey: A -> K, rightKey: B -> K,
                                                   gone: K)
    requires forall i :: 0 <= i < |left| ==> leftKey(left[i]) != gone
    ensures LeftJoin(left, Rest(right, rightKey, gone), leftKey, rightKey) == LeftJoin(left, right, leftKey, rightKey)
  {
    if left != [] {
      LeftJoinOfRest(left[1..], right, leftKey, rightKey, gone);
      GroupOfRest(right, rightKey, gone, leftKey(left[0]));
    }
  }

  lemma {:induction false} PairUpTotal<A, B>(a: A, matches: seq<B>, weight: B -> int,
                                             pairWeight: ((A, Option<B>)) -> int)
    requires forall p :: pairWeight(p) == OrZero(p.1, weight)
    ensures Total(PairUp(a, matches), pairWeight) == Total(matches, weight)
  {
    if matches != [] {
      TotalEqual(PairUp(a, matches), matches, pairWeight, weight);
    }
  }

  /** Matched and unmatched right rows together are all right rows, each once. */
  lemma {:induction false} RightTotal<A(!new), B(!new), K>(
    left: seq<A>, right: seq<B>, leftKey: A -> K, rightKey: B -> K, weight: B -> int,
    pairWeight: ((A, Option<B>)) -> int)
    requires Unique(left, leftKey)
    requires forall p :: pairWeight(p) == OrZero(p.1, weight)
    ensures Total(LeftJoin(left, right, leftKey, rightKey), pairWeight) +
            Total(Unmatched(left, right, leftKey, rightKey), weight) == Total(right, weight)
    decreases |left|
  {
    if left != [] {
      var k := leftKey(left[0]);
      var rest := Rest(right, rightKey, k);
      RightTotal(left[1..], rest, leftKey, rightKey, weight, pairWeight);
      LeftJoinOfRest(left[1..], right, leftKey, rightKey, k);
      SplitTotal(right, rightKey, k, weight);
      PairUpTotal(left[0], Group(right, rightKey, k), weight, pairWeight);
      TotalAppend(PairUp(left[0], Group(right, rightKey, k)), LeftJoin(left[1..], right, leftKey, rightKey),
                  pairWeight);
    }
  }

  lemma {:induction false} TotalZero<T>(rows: seq<T>, weight: T -> int)
    requires forall i :: 0 <= i < |rows| ==> weight(rows[i]) == 0
    ensures Total(rows, weight) == 0
  {
    if rows != [] {
      TotalZero(rows[1..], weight);
    }
  }

  /** left FULL JOIN right on two primary keys: every row of either side counts exactly once. */
  lemma FullJoinTotals<A(!new), B(!new), K>(
    left: seq<A>, right: seq<B>, leftKey: A -> K, rightKey: B -> K, wa: A -> int, wb: B -> int,
    ma: ((Option<A>, Option<B>)) -> int, mb: ((Option<A>, Option<B>)) -> int)
    requires Unique(left, leftKey) && Unique(right, rightKey)
    requires forall p :: ma(p) == OrZero(p.0, wa)
    requires forall p :: mb(p) == OrZero(p.1, wb)
    ensures Total(FullJoin(left, right, leftKey, rightKey), ma) == Total(left, wa)
    ensures Total(FullJoin(left, right, leftKey, rightKey), mb) == Total(right, wb)
  {
    var pairs, alone := LeftJoin(left, right, leftKey, rightKey), Unmatched(left, right, leftKey, rightKey);
    var matched := Project(pairs, (p: (A, Option<B>)) => (Some(p.0), p.1));
    var added := Project(alone, (b: B) => (None, Some(b)));
    TotalAppend<(Option<A>, Option<B>)>(matched, added, ma);
    TotalAppend<(Option<A>, Option<B>)>(matched, added, mb);
    LeftJoinOnKey(left, right, leftKey, rightKey);
    TotalEqual<(Option<A>, Option<B>), A>(matched, left, ma, wa);
    TotalZero<(Option<A>, Option<B>)>(added, ma);
    var pairWeight := (p: (A, Option<B>)) => OrZero(p.1, wb);
    RightTotal(left, right, leftKey, rightKey, wb, pairWeight);
    TotalEqual<(Option<A>, Option<B>), (A, Option<B>)>(matched, pairs, mb, pairWeight);
    TotalEqual<(Option<A>, Option<B>), B>(added, alone, mb, wb);
  }

  lemma {:induction false} UnmatchedRows<A(!new), B(!new), K>(left: seq<A>, right: seq<B>, leftKey: A -> K,
                                                              rightKey: B -> K)
    requires Unique(right, rightKey)
    ensures Unique(Unmatched(left, right, leftKey, rightKey), rightKey)
    ensures forall b :: b in Unmatched(left, right, leftKey, rightKey) <==>
                        b in right && rightKey(b) !in Values(left, leftKey)
    decreases |left|
  {
    if left != [] {
      var k := leftKey(left[0]);
      GroupUnique(right, rightKey, k, rightKey);
      UnmatchedRows(left[1..], Rest(right, rightKey, k), leftKey, rightKey);
      forall b ensures b in Rest(right, rightKey, k) <==> b in right && rightKey(b) != k {
        GroupMember(right, rightKey, k, b);
      }
      assert left == [left[0]] + left[1..];
      assert Values(left, leftKey) == {k} + Values(left[1..], leftKey);
    }
  }

  /** The USING column of a FULL JOIN. */
  function JoinedKey<A, B, K>(p: (Option<A>, Option<B>), leftKey: A -> K, rightKey: B -> K, none: K): K
  {
    if p.0.Some? then leftKey(p.0.value) else if p.1.Some? then rightKey(p.1.value) else none
  }

  lemma LookupUnique<B(!new), K>(right: seq<B>, rightKey: B -> K, b: B)
    requires Unique(right, rightKey) && b in right
    ensures Lookup(right, rightKey, rightKey(b)) == Some(b)
  {
    GroupOfUnique(right, rightKey, rightKey(b));
    GroupMember(right, rightKey, rightKey(b), b);
  }

  lemma FullJoinShape<A(!new), B(!new), K>(left: seq<A>, right: seq<B>, leftKey: A -> K, rightKey: B -> K, i: nat)
    requires Unique(left, leftKey) && Unique(right, rightKey)
    ensures var out, alone := FullJoin(left, right, leftKey, rightKey), Unmatched(left, right, leftKey, rightKey);
            && |out| == |left| + |alone|
            && (i < |left| ==> out[i] == (Some(left[i]), Lookup(right, rightKey, leftKey(left[i]))))
            && (|left| <= i < |out| ==> out[i] == (None, Some(alone[i - |left|])))
  {
    LeftJoinOnKey(left, right, leftKey, rightKey);
  }

  /** A row of a FULL JOIN on primary keys pairs the two rows of its USING value. */
  lemma FullJoinRow<A(!new), B(!new), K>(left: seq<A>, right: seq<B>, leftKey: A -> K, rightKey: B -> K, none: K,
                                         i: nat)
    requires Unique(left, leftKey) && Unique(right, rightKey)
    requires i < |FullJoin(left, right, leftKey, rightKey)|
    ensures |FullJoin(left, right, leftKey, rightKey)| == |left| + |Unmatched(left, right, leftKey, rightKey)|
    ensures var p := FullJoin(left, right, leftKey, rightKey)[i];
            var k := JoinedKey(p, leftKey, rightKey, none);
            && p == (Lookup(left, leftKey, k), Lookup(right, rightKey, k))
            && p != (None, None)
            && k in Values(left, leftKey) + Values(right, rightKey)
            && k == (if i < |left| then leftKey(left[i]) else
                     rightKey(Unmatched(left, right, leftKey, rightKey)[i - |left|]))
  {
    FullJoinShape(left, right, leftKey, rightKey, i);
    if i < |left| {
      LookupUnique(left, leftKey, left[i]);
    } else {
      var alone := Unmatched(left, right, leftKey, rightKey);
      UnmatchedRows(left, right, leftKey, rightKey);
      assert alone[i - |left|] in alone;
      LookupUnique(right, rightKey, alone[i - |left|]);
      LookupFound(left, leftKey, rightKey(alone[i - |left|]));
    }
  }

  /** Every value of either side is in the FULL JOIN. */
  lemma FullJoinHas<A(!new), B(!new), K>(left: seq<A>, right: seq<B>, leftKey: A -> K, rightKey: B -> K, none: K, k: K)
    returns (i: nat)
    requires Unique(left, leftKey) && Unique(right, rightKey)
    requires k in Values(left, leftKey) + Values(right, rightKey)
    ensures i < |FullJoin(left, right, leftKey, rightKey)|
    ensures JoinedKey(FullJoin(left, right, leftKey, rightKey)[i], leftKey, rightKey, none) == k
  {
    if k in Values(left, leftKey) {
      var a :| a in left && leftKey(a) == k;
      i :| 0 <= i < |left| && left[i] == a;
    } else {
      var b :| b in right && rightKey(b) == k;
      UnmatchedRows(left, right, leftKey, rightKey);
      var unmatched := Unmatched(left, right, leftKey, rightKey);
      var j :| 0 <= j < |unmatched| && unmatched[j] == b;
      i := |left| + j;
    }
    FullJoinShape(left, right, leftKey, rightKey, i);
  }

  /** The FULL JOIN of two primary keys has the USING column as primary key, with the values
      of both sides. */
  lemma FullJoinKeys<A(!new), B(!new), K>(
    left: seq<A>, right: seq<B>, leftKey: A -> K, rightKey: B -> K, none: K, name: ((Option<A>, Option<B>)) -> K)
    requires Unique(left, leftKey) && Unique(right, rightKey)
    requires forall p :: name(p) == JoinedKey(p, leftKey, rightKey, none)
    ensures Unique(FullJoin(left, right, leftKey, rightKey), name)
    ensures Values(FullJoin(left, right, leftKey, rightKey), name) == Values(left, leftKey) + Values(right, rightKey)
  {
    var out := FullJoin(left, right, leftKey, rightKey);
    var alone := Unmatched(left, right, leftKey, rightKey);
    UnmatchedRows(left, right, leftKey, rightKey);
    FullJoinShape(left, right, leftKey, rightKey, 0);
    forall i | 0 <= i < |out|
      ensures name(out[i]) in Values(left, leftKey) + Values(right, rightKey)
      ensures name(out[i]) == if i < |left| then leftKey(left[i]) else rightKey(alone[i - |left|])
    {
      FullJoinRow(left, right, leftKey, rightKey, none, i);
    }
    assert forall i :: 0 <= i < |left| ==> leftKey(left[i]) in Values(left, leftKey);
    assert forall i :: 0 <= i < |alone| ==> alone[i] in alone;
    forall k | k in Values(left, leftKey) + Values(right, rightKey)
      ensures k in Values(out, name)
    {
      var i := FullJoinHas(left, right, leftKey, rightKey, none, k);
      assert out[i] in out && name(out[i]) == k;
    }
  }

  /** The total of a group, as a conditional total of the whole table. */
  lemma {:induction false} GroupAsFilter<T, K>(rows: seq<T>, key: T -> K, k: K, weight: T -> int, filtered: T -> int)
    requires forall r :: r in rows ==> filtered(r) == if key(r) == k then weight(r) else 0
    ensures Total(Group(rows, key, k), weight) == Total(rows, filtered)
  {
    if rows != [] {
      GroupAsFilter(rows[1..], key, k, weight, filtered);
    }
  }

  /** Looking a value up in a GROUP BY yields the aggregate of its group. */
  lemma GroupByLookup<T(!new), K(!new), R(!new)>(
    rows: seq<T>, key: T -> K, aggregate: (K, seq<T>) -> R, name: R -> K, k: K)
    requires forall k, g :: name(aggregate(k, g)) == k
    ensures Lookup(GroupBy(rows, key, aggregate), name, k) ==
            if k in Values(rows, key) then Some(aggregate(k, Group(rows, key, k))) else None
    ensures k !in Values(rows, key) ==> Group(rows, key, k) == []
  {
    var out := GroupBy(rows, key, aggregate);
    GroupByUnique(rows, key, aggregate, name);
    if k in Values(rows, key) {
      GroupByHas(rows, key, aggregate, k);
      LookupUnique(out, name, aggregate(k, Group(rows, key, k)));
    } else {
      LookupFound(out, name, k);
      GroupEmpty(rows, key, k);
    }
  }

  lemma JoinStep<A, B(!new), K>(left: seq<A>, right: seq<B>, leftKey: A -> K, rightKey: B -> K)
    requires left != [] && Unique(right, rightKey)
    ensures var found := Lookup(right, rightKey, leftKey(left[0]));
            Join(left, right, leftKey, rightKey) ==
            (if found.Some? then [(left[0], found.value)] else []) + Join(left[1..], right, leftKey, rightKey)
  {
    GroupOfUnique(right, rightKey, leftKey(left[0]));
    var first := (left[0], Lookup(right, rightKey, leftKey(left[0])));
    var all := LeftJoin(left, right, leftKey, rightKey);
    assert all == [first] + LeftJoin(left[1..], right, leftKey, rightKey);
    assert all[0] == first && all[1..] == LeftJoin(left[1..], right, leftKey, rightKey);
  }

  function Lefts<A, B>(pairs: seq<(A, B)>): (out: seq<A>)
    ensures |out| == |pairs|
    ensures forall i :: 0 <= i < |pairs| ==> out[i] == pairs[i].0
  {
    if pairs == [] then [] else [pairs[0].0] + Lefts(pairs[1..])
  }

  /** JOIN to a primary key keeps exactly the left rows whose key is there. */
  lemma {:induction false} JoinIsAmong<A, B(!new), K>(left: seq<A>, right: seq<B>, leftKey: A -> K, rightKey: B -> K)
    requires Unique(right, rightKey)
    ensures Lefts(Join(left, right, leftKey, rightKey)) == Among(left, leftKey, Values(right, rightKey))
  {
    if left != [] {
      JoinStep(left, right, leftKey, rightKey);
      JoinIsAmong(left[1..], right, leftKey, rightKey);
      LookupFound(right, rightKey, leftKey(left[0]));
      assert Join(left, right, leftKey, rightKey) == Join(left[1..], right, leftKey, rightKey) ||
             Join(left, right, leftKey, rightKey)[1..] == Join(left[1..], right, leftKey, rightKey);
    }
  }

  /** The rows with the given key. */
  function Keyed<T(==), K(==)>(rows: seq<T>, key: T -> K, k: K): set<T> { set r | r in rows && key(r) == k }

  /** count(*) of a group, over a table with a primary key, is a cardinality. */
  lemma {:induction false} GroupSize<T(!new), K, I>(rows: seq<T>, id: T -> I, key: T -> K, k: K)
    requires Unique(rows, id)
    ensures |Group(rows, key, k)| == |Keyed(rows, key, k)|
    ensures forall r :: r in Group(rows, key, k) <==> r in Keyed(rows, key, k)
  {
    if rows != [] {
      var tail := rows[1..];
      UniqueCons(rows, id);
      GroupSize(tail, id, key, k);
      KeyedCons(rows, key, k);
    }
  }

  lemma KeyedCons<T(!new), K>(rows: seq<T>, key: T -> K, k: K)
    requires rows != []
    ensures Keyed(rows, key, k) == Keyed(rows[1..], key, k) + if key(rows[0]) == k then {rows[0]} else {}
  {
    assert rows == [rows[0]] + rows[1..];
  }

  lemma GroupOfOne<T, K>(r: T, key: T -> K, k: K)
    ensures Group([r], key, k) == if key(r) == k then [r] else []
  {
    assert [r][0] == r && [r][1..] == [];
  }

  lemma GroupAlone<T(!new), K, I>(rows: seq<T>, id: T -> I, key: T -> K, p: T)
    requires Unique(rows, id) && p in rows && forall r :: r in rows && key(r) == key(p) ==> r == p
    ensures Group(rows, key, key(p)) == [p]
  {
    GroupSize(rows, id, key, key(p));
    assert Keyed(rows, key, key(p)) == {p};
    var group := Group(rows, key, key(p));
    assert group[0] in group;
  }
}
