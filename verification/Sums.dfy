/** Sums of a row function over a table, a table being the sequence of its rows. */
module Sums {

  function Sum<T>(rows: seq<T>, f: T -> int): int
  {
    if |rows| == 0 then 0 else Sum(rows[..|rows| - 1], f) + f(rows[|rows| - 1])
  }

  lemma SumAppend<T>(rows: seq<T>, row: T, f: T -> int)
    ensures Sum(rows + [row], f) == Sum(rows, f) + f(row)
  {
    assert (rows + [row])[..|rows|] == rows;
  }

  /** Updating one row changes the sum by that row's difference. */
  lemma {:induction false} SumUpdate<T>(rows: seq<T>, i: nat, row: T, f: T -> int)
    requires i < |rows|
    ensures Sum(rows[i := row], f) == Sum(rows, f) - f(rows[i]) + f(row)
  {
    var n := |rows| - 1;
    if i == n {
      assert rows[i := row][..n] == rows[..n];
    } else {
      assert rows[i := row][..n] == rows[..n][i := row];
      SumUpdate(rows[..n], i, row, f);
    }
  }

  lemma {:induction false} SumConcat<T>(a: seq<T>, b: seq<T>, f: T -> int)
    ensures Sum(a + b, f) == Sum(a, f) + Sum(b, f)
  {
    if |b| == 0 {
      assert a + b == a;
    } else {
      assert (a + b)[..|a + b| - 1] == a + b[..|b| - 1];
      SumConcat(a, b[..|b| - 1], f);
    }
  }

  /** Row functions that agree on every row have the same sum. */
  lemma {:induction false} SumCongruent<T>(rows: seq<T>, f: T -> int, g: T -> int)
    requires forall i | 0 <= i < |rows| :: f(rows[i]) == g(rows[i])
    ensures Sum(rows, f) == Sum(rows, g)
  {
    if |rows| != 0 {
      SumCongruent(rows[..|rows| - 1], f, g);
    }
  }

  /** A row function bounded below by another has the larger sum. */
  lemma {:induction false} SumMonotone<T>(rows: seq<T>, f: T -> int, g: T -> int)
    requires forall i | 0 <= i < |rows| :: f(rows[i]) <= g(rows[i])
    ensures Sum(rows, f) <= Sum(rows, g)
  {
    if |rows| != 0 {
      SumMonotone(rows[..|rows| - 1], f, g);
    }
  }

  lemma {:induction false} SumZero<T>(rows: seq<T>, f: T -> int)
    requires forall i | 0 <= i < |rows| :: f(rows[i]) == 0
    ensures Sum(rows, f) == 0
  {
    if |rows| != 0 {
      SumZero(rows[..|rows| - 1], f);
    }
  }

  /** A sum of non-negative rows is at least each of its rows, and non-negative. */
  lemma {:induction false} SumAtLeastRow<T>(rows: seq<T>, f: T -> int)
    requires forall i | 0 <= i < |rows| :: 0 <= f(rows[i])
    ensures 0 <= Sum(rows, f)
    ensures forall i | 0 <= i < |rows| :: f(rows[i]) <= Sum(rows, f)
  {
    if |rows| != 0 {
      SumAtLeastRow(rows[..|rows| - 1], f);
    }
  }

  /** When only row i counts, the sum is that row. */
  lemma {:induction false} SumOnly<T>(rows: seq<T>, i: nat, f: T -> int)
    requires i < |rows|
    requires forall k | 0 <= k < |rows| && k != i :: f(rows[k]) == 0
    ensures Sum(rows, f) == f(rows[i])
  {
    var n := |rows| - 1;
    if i == n {
      SumZero(rows[..n], f);
    } else {
      SumOnly(rows[..n], i, f);
    }
  }

  /** A row function that is the sum of two others sums to the sum of theirs. */
  lemma {:induction false} SumAdds<T>(rows: seq<T>, f: T -> int, g: T -> int, h: T -> int)
    requires forall i | 0 <= i < |rows| :: h(rows[i]) == f(rows[i]) + g(rows[i])
    ensures Sum(rows, h) == Sum(rows, f) + Sum(rows, g)
  {
    if |rows| != 0 {
      SumAdds(rows[..|rows| - 1], f, g, h);
    }
  }

  /** A sum of ones is the number of rows they stand for. */
  lemma {:induction false} SumIsCount<T>(rows: seq<T>, counted: set<int>, f: T -> int)
    requires forall i :: i in counted ==> 0 <= i < |rows|
    requires forall i | 0 <= i < |rows| :: f(rows[i]) == if i in counted then 1 else 0
    ensures Sum(rows, f) == |counted|
  {
    if |rows| == 0 {
      assert forall i :: i !in counted;
      assert counted == {};
    } else {
      var n := |rows| - 1;
      SumIsCount(rows[..n], counted - {n}, f);
    }
  }
}
