/** row_number(), ORDER BY ... LIMIT, and the text order they fall back on. */
module Ranking {
  import opened Common

  ghost predicate StrictOrder<T(!new)>(rows: set<T>, before: (T, T) -> bool)
  {
    && (forall x :: x in rows ==> !before(x, x))
    && (forall x, y :: x in rows && y in rows && x != y ==> before(x, y) || before(y, x))
    && (forall x, y, z :: x in rows && y in rows && z in rows && before(x, y) && before(y, z) ==> before(x, z))
  }

  /** The rows that come before a row. */
  function Preceding<T>(rows: set<T>, before: (T, T) -> bool, row: T): set<T>
  {
    set x | x in rows && before(x, row)
  }

  /** row_number() OVER (ORDER BY before): one more than the rows that come first. */
  function RowNumber<T>(rows: set<T>, before: (T, T) -> bool, row: T): nat
  {
    1 + |Preceding(rows, before, row)|
  }

  /** The rows numbered 1 to n. */
  function Top<T>(rows: set<T>, before: (T, T) -> bool, n: int): set<T>
  {
    set x | x in rows && RowNumber(rows, before, x) <= n
  }

  lemma {:induction false} Last<T(!new)>(rows: set<T>, before: (T, T) -> bool) returns (last: T)
    requires rows != {} && StrictOrder(rows, before)
    ensures last in rows && forall x :: x in rows && x != last ==> before(x, last)
    decreases |rows|
  {
    var r :| r in rows;
    if rows == {r} {
      last := r;
    } else {
      var m := Last(rows - {r}, before);
      last := if before(m, r) then r else m;
    }
  }

  lemma SmallerSubset<T>(a: set<T>, b: set<T>)
    requires a <= b
    ensures |a| <= |b|
    ensures a != b ==> |a| < |b|
  {
    assert b == a + (b - a);
    if a != b {
      assert b - a != {};
    }
  }

  /** Row numbers follow the order, so no two rows share one. */
  lemma RowNumberFollowsOrder<T(!new)>(rows: set<T>, before: (T, T) -> bool, x: T, y: T)
    requires StrictOrder(rows, before) && x in rows && y in rows
    ensures before(x, y) <==> RowNumber(rows, before, x) < RowNumber(rows, before, y)
  {
    if x != y {
      var first, second := if before(x, y) then x else y, if before(x, y) then y else x;
      var upToFirst := Preceding(rows, before, first);
      var upToSecond := Preceding(rows, before, second);
      assert upToFirst <= upToSecond;
      assert first in upToSecond - upToFirst;
      SmallerSubset(upToFirst, upToSecond);
    }
  }

  lemma RowNumberWithoutLast<T(!new)>(rows: set<T>, before: (T, T) -> bool, last: T, x: T)
    requires StrictOrder(rows, before) && last in rows && x in rows
    requires forall r :: r in rows && r != last ==> before(r, last)
    ensures x == last ==> RowNumber(rows, before, x) == |rows|
    ensures x != last ==> RowNumber(rows, before, x) == RowNumber(rows - {last}, before, x)
  {
    if x == last {
      assert Preceding(rows, before, x) == rows - {last};
    } else {
      assert Preceding(rows, before, x) == Preceding(rows - {last}, before, x);
    }
  }

  /** Exactly the first min(n, |rows|) rows have a number up to n. */
  lemma {:induction false} TopSize<T(!new)>(rows: set<T>, before: (T, T) -> bool, n: nat)
    requires StrictOrder(rows, before)
    ensures |Top(rows, before, n)| == Min(n, |rows|)
    decreases |rows|
  {
    if rows == {} {
      assert Top(rows, before, n) == {};
    } else {
      var last := Last(rows, before);
      var smaller := rows - {last};
      TopSize(smaller, before, n);
      forall x | x in rows
        ensures x == last ==> RowNumber(rows, before, x) == |rows|
        ensures x != last ==> RowNumber(rows, before, x) == RowNumber(smaller, before, x)
      {
        RowNumberWithoutLast(rows, before, last, x);
      }
      assert Top(rows, before, n) == Top(smaller, before, n) + if |rows| <= n then {last} else {};
    }
  }

  lemma TopAtMost<T(!new)>(rows: set<T>, before: (T, T) -> bool, n: int)
    requires StrictOrder(rows, before)
    ensures |Top(rows, before, n)| <= if n < 0 then 0 else n
  {
    if n < 0 {
      assert Top(rows, before, n) == {};
    } else {
      TopSize(rows, before, n);
    }
  }

  /** Every row kept comes before every row left out. */
  lemma TopComesFirst<T(!new)>(rows: set<T>, before: (T, T) -> bool, n: int, x: T, y: T)
    requires StrictOrder(rows, before)
    requires x in Top(rows, before, n) && y in rows - Top(rows, before, n)
    ensures before(x, y)
  {
    RowNumberFollowsOrder(rows, before, x, y);
  }

  // ---- ORDER BY ... LIMIT -----------------------------------------------------------

  function Elements<T(==)>(rows: seq<T>): set<T> { set r | r in rows }

  ghost predicate Distinct<T>(rows: seq<T>) { forall i, j :: 0 <= i < j < |rows| ==> rows[i] != rows[j] }

  ghost predicate Sorted<T>(rows: seq<T>, before: (T, T) -> bool)
  {
    forall i, j :: 0 <= i < j < |rows| ==> before(rows[i], rows[j])
  }

  function Place<T>(row: T, rows: seq<T>, before: (T, T) -> bool): seq<T>
  {
    if rows == [] || before(row, rows[0]) then [row] + rows else [rows[0]] + Place(row, rows[1..], before)
  }

  function Sort<T>(rows: seq<T>, before: (T, T) -> bool): seq<T>
  {
    if rows == [] then [] else Place(rows[0], Sort(rows[1..], before), before)
  }

  /** ORDER BY before LIMIT limit. */
  function First<T>(rows: seq<T>, before: (T, T) -> bool, limit: nat): seq<T>
  {
    var sorted := Sort(rows, before);
    if limit < |sorted| then sorted[..limit] else sorted
  }

  lemma {:induction false} PlaceSorts<T(!new)>(row: T, rows: seq<T>, before: (T, T) -> bool)
    requires Sorted(rows, before) && row !in rows && StrictOrder(Elements(rows) + {row}, before)
    ensures Sorted(Place(row, rows, before), before)
    ensures |Place(row, rows, before)| == |rows| + 1
    ensures Elements(Place(row, rows, before)) == Elements(rows) + {row}
  {
    if rows != [] && !before(row, rows[0]) {
      var tail := Place(row, rows[1..], before);
      assert rows == [rows[0]] + rows[1..];
      assert Elements(rows) == {rows[0]} + Elements(rows[1..]);
      PlaceSorts(row, rows[1..], before);
      forall i | 0 <= i < |tail|
        ensures before(rows[0], tail[i])
      {
        assert tail[i] in Elements(tail);
        if tail[i] != row {
          var j :| 0 <= j < |rows[1..]| && rows[1..][j] == tail[i];
          assert rows[j + 1] == tail[i];
        }
      }
    } else if rows != [] {
      forall i | 0 <= i < |rows|
        ensures before(row, rows[i])
      {
        assert rows[i] in Elements(rows) && rows[0] in Elements(rows);
      }
    }
  }

  lemma {:induction false} SortSorts<T(!new)>(rows: seq<T>, before: (T, T) -> bool)
    requires StrictOrder(Elements(rows), before) && Distinct(rows)
    ensures Sorted(Sort(rows, before), before)
    ensures |Sort(rows, before)| == |rows| && Elements(Sort(rows, before)) == Elements(rows)
  {
    if rows != [] {
      assert rows == [rows[0]] + rows[1..];
      assert Elements(rows) == {rows[0]} + Elements(rows[1..]);
      SortSorts(rows[1..], before);
      assert rows[0] !in rows[1..];
      assert rows[0] !in Elements(Sort(rows[1..], before));
      PlaceSorts(rows[0], Sort(rows[1..], before), before);
    }
  }

  lemma {:induction false} DistinctSize<T>(rows: seq<T>)
    requires Distinct(rows)
    ensures |Elements(rows)| == |rows|
  {
    if rows != [] {
      DistinctSize(rows[1..]);
      assert rows == [rows[0]] + rows[1..];
      assert Elements(rows) == {rows[0]} + Elements(rows[1..]);
    }
  }

  /** ORDER BY puts the row numbered i + 1 at position i. */
  lemma FirstAreNumbered<T(!new)>(rows: seq<T>, before: (T, T) -> bool, limit: nat, i: nat)
    requires StrictOrder(Elements(rows), before) && Distinct(rows)
    ensures |First(rows, before, limit)| == Min(limit, |rows|)
    ensures i < |First(rows, before, limit)| ==>
              First(rows, before, limit)[i] in rows &&
                  RowNumber(Elements(rows), before, First(rows, before, limit)[i]) == i + 1
  {
    var sorted := Sort(rows, before);
    SortSorts(rows, before);
    if i < |First(rows, before, limit)| {
      var r := First(rows, before, limit)[i];
      assert r == sorted[i] && r in Elements(sorted);
      assert forall j :: 0 <= j < |sorted| ==> sorted[j] in Elements(rows);
      assert Preceding(Elements(rows), before, r) == Elements(sorted[..i]) by {
        forall x | x in Elements(rows)
          ensures before(x, r) <==> x in sorted[..i]
        {
          assert x in Elements(sorted);
          var j :| 0 <= j < |sorted| && sorted[j] == x;
          if j < i { assert sorted[..i][j] == x; }
        }
      }
      assert Distinct(sorted[..i]);
      DistinctSize(sorted[..i]);
    }
  }

  /** Characters compared left to right; a proper prefix comes first. */
  predicate TextBefore(a: string, b: string)
  {
    if a == [] then b != []
    else b != [] && (a[0] < b[0] || (a[0] == b[0] && TextBefore(a[1..], b[1..])))
  }

  lemma {:induction false} TextOrder(a: string, b: string)
    ensures !TextBefore(a, a)
    ensures a != b ==> (TextBefore(a, b) <==> !TextBefore(b, a))
  {
    if a != [] {
      TextOrder(a[1..], if b != [] then b[1..] else []);
      if b != [] && a[0] == b[0] {
        assert a == [a[0]] + a[1..] && b == [b[0]] + b[1..];
      }
    }
  }

  lemma TextTransitiveAll()
    ensures forall a, b, c :: TextBefore(a, b) && TextBefore(b, c) ==> TextBefore(a, c)
    ensures forall a :: !TextBefore(a, a)
    ensures forall a, b :: a != b ==> TextBefore(a, b) || TextBefore(b, a)
  {
    forall a, b, c | TextBefore(a, b) && TextBefore(b, c) ensures TextBefore(a, c) {
      TextTransitive(a, b, c);
    }
    forall a, b ensures !TextBefore(a, a) && (a != b ==> TextBefore(a, b) || TextBefore(b, a)) {
      TextOrder(a, b);
    }
  }

  lemma {:induction false} TextTransitive(a: string, b: string, c: string)
    requires TextBefore(a, b) && TextBefore(b, c)
    ensures TextBefore(a, c)
  {
    if a != [] && a[0] == b[0] == c[0] {
      TextTransitive(a[1..], b[1..], c[1..]);
    }
  }
}
