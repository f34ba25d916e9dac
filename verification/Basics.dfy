/** Small value types and the two folds over tables that the whole model uses. */
module Basics {

  /** Row number of a table. Tables are append-only sequences, so a fresh row number is a fresh identifier. */
  type Id = nat

  datatype Option<+T> = None | Some(value: T)

  /** Index of the last row that satisfies `p`: a query ordered by creation time, newest first, with limit 1. */
  function LastWhere<T>(rows: seq<T>, p: T -> bool): (found: Option<Id>)
    ensures found.Some? ==> found.value < |rows| && p(rows[found.value])
    ensures found.None? ==> forall i :: 0 <= i < |rows| ==> !p(rows[i])
  {
    if rows == [] then None
    else if p(rows[|rows| - 1]) then Some(|rows| - 1)
    else LastWhere(rows[..|rows| - 1], p)
  }

  function Sum<T>(rows: seq<T>, f: T -> int): int
  {
    if rows == [] then 0 else Sum(rows[..|rows| - 1], f) + f(rows[|rows| - 1])
  }

  lemma SumAppend<T>(rows: seq<T>, row: T, f: T -> int)
    ensures Sum(rows + [row], f) == Sum(rows, f) + f(row)
  {
    assert (rows + [row])[..|rows|] == rows;
  }

  lemma {:induction false} SumConcat<T>(a: seq<T>, b: seq<T>, f: T -> int)
    ensures Sum(a + b, f) == Sum(a, f) + Sum(b, f)
  {
    if b == [] {
      assert a + b == a;
    } else {
      var front := b[..|b| - 1];
      assert a + b == (a + front) + [b[|b| - 1]];
      SumAppend(a + front, b[|b| - 1], f);
      SumConcat(a, front, f);
    }
  }

  lemma {:induction false} SumUpdate<T>(rows: seq<T>, i: Id, row: T, f: T -> int)
    requires i < |rows|
    ensures Sum(rows[i := row], f) == Sum(rows, f) - f(rows[i]) + f(row)
  {
    var last := |rows| - 1;
    if i == last {
      assert rows[i := row][..last] == rows[..last];
    } else {
      assert rows[i := row][..last] == rows[..last][i := row];
      SumUpdate(rows[..last], i, row, f);
    }
  }

  lemma {:induction false} SumNonNegative<T>(rows: seq<T>, f: T -> int)
    requires forall i :: 0 <= i < |rows| ==> f(rows[i]) >= 0
    ensures Sum(rows, f) >= 0
  {
    if rows != [] {
      SumNonNegative(rows[..|rows| - 1], f);
    }
  }

  /** One row contributes no more than the whole when no row is negative. */
  lemma {:induction false} SumCovers<T>(rows: seq<T>, i: Id, f: T -> int)
    requires i < |rows|
    requires forall k :: 0 <= k < |rows| ==> f(rows[k]) >= 0
    ensures Sum(rows, f) >= f(rows[i])
  {
    if i == |rows| - 1 {
      SumNonNegative(rows[..i], f);
    } else {
      SumCovers(rows[..|rows| - 1], i, f);
    }
  }

  lemma {:induction false} SumPlus<T>(rows: seq<T>, f: T -> int, g: T -> int, h: T -> int)
    requires forall i :: 0 <= i < |rows| ==> h(rows[i]) == f(rows[i]) + g(rows[i])
    ensures Sum(rows, h) == Sum(rows, f) + Sum(rows, g)
  {
    if rows != [] {
      SumPlus(rows[..|rows| - 1], f, g, h);
    }
  }

  lemma {:induction false} SumZero<T>(rows: seq<T>, f: T -> int)
    requires forall i :: 0 <= i < |rows| ==> f(rows[i]) == 0
    ensures Sum(rows, f) == 0
  {
    if rows != [] {
      SumZero(rows[..|rows| - 1], f);
    }
  }

  /** Two tables whose rows contribute alike, row by row, have the same sum. */
  lemma {:induction false} SumMatch<T, U>(a: seq<T>, f: T -> int, b: seq<U>, g: U -> int)
    requires |a| == |b|
    requires forall i :: 0 <= i < |a| ==> f(a[i]) == g(b[i])
    ensures Sum(a, f) == Sum(b, g)
  {
    if a != [] {
      SumMatch(a[..|a| - 1], f, b[..|b| - 1], g);
    }
  }
}
