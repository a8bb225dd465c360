/**
 * Values shared by every part of the model: optional values (the source's
 * `null` returns), outcomes of operations that can throw, and sums of
 * sequences of reals (the source's `double`).
 */
module Common {
  datatype Option<T> = None | Some(value: T)

  /** The run-time exceptions the modelled code can raise. */
  datatype Fault =
    | IndexOutOfRange   // an array, list or matrix index outside its bounds
    | NegativeSize      // an array allocated with a negative length
    | NullReference     // a null array or string dereferenced
    | DivideByZero      // integer division by zero
    | NotANumber        // the source computes NaN or infinite values here; the model does not represent them
    | BadFormat         // text that does not parse as a number
    | MissingColumn     // a data-table column that the table does not have

  /** The result of an operation that either returns a value or throws. */
  datatype Outcome<T> = Ok(value: T) | Fail(fault: Fault)

  /** C#'s conversion of a double to an int, which truncates towards zero. */
  function Truncate(r: real): (n: int)
    ensures r >= 0.0 ==> n as real <= r < n as real + 1.0
    ensures r < 0.0 ==> n as real - 1.0 < r <= n as real
  {
    if r >= 0.0 then r.Floor else -((-r).Floor)
  }

  /** Sum of a sequence, accumulated from the front as the source's loops do. */
  function Sum(s: seq<real>): real
  {
    if s == [] then 0.0 else Sum(s[..|s| - 1]) + s[|s| - 1]
  }

  /** Sum of a sequence of integers. */
  function SumInt(s: seq<int>): int
  {
    if s == [] then 0 else SumInt(s[..|s| - 1]) + s[|s| - 1]
  }

  /** Sum of the squares of a sequence (the energy of a signal). */
  function SumOfSquares(s: seq<real>): real
  {
    if s == [] then 0.0 else SumOfSquares(s[..|s| - 1]) + s[|s| - 1] * s[|s| - 1]
  }

  lemma SumOne(x: real)
    ensures Sum([x]) == x
  {
    assert [x][..0] == [];
  }

  /** Extending a slice by one element adds that element to its sum. */
  lemma SumExtend(s: seq<real>, i: int, j: int)
    requires 0 <= i <= j < |s|
    ensures Sum(s[i..j + 1]) == Sum(s[i..j]) + s[j]
  {
    assert s[i..j + 1][..j - i] == s[i..j];
  }

  lemma SumIntExtend(s: seq<int>, j: int)
    requires 0 <= j < |s|
    ensures SumInt(s[..j + 1]) == SumInt(s[..j]) + s[j]
  {
    assert s[..j + 1][..j] == s[..j];
  }

  lemma SumOfSquaresExtend(s: seq<real>, j: int)
    requires 0 <= j < |s|
    ensures SumOfSquares(s[..j + 1]) == SumOfSquares(s[..j]) + s[j] * s[j]
  {
    assert s[..j + 1][..j] == s[..j];
  }

  /** The sum of a concatenation is the sum of the sums. */
  lemma {:induction false} SumConcat(a: seq<real>, b: seq<real>)
    ensures Sum(a + b) == Sum(a) + Sum(b)
    decreases |b|
  {
    if b == [] {
      assert a + b == a;
    } else {
      assert (a + b)[..|a + b| - 1] == a + b[..|b| - 1];
      SumConcat(a, b[..|b| - 1]);
    }
  }

  /** A slice sum splits at any inner point. */
  lemma SumSplit(s: seq<real>, i: int, m: int, j: int)
    requires 0 <= i <= m <= j <= |s|
    ensures Sum(s[i..j]) == Sum(s[i..m]) + Sum(s[m..j])
  {
    assert s[i..j] == s[i..m] + s[m..j];
    SumConcat(s[i..m], s[m..j]);
  }

  /** Dropping the first element of a slice subtracts it from the sum. */
  lemma SumDropFirst(s: seq<real>, i: int, j: int)
    requires 0 <= i < j <= |s|
    ensures Sum(s[i + 1..j]) == Sum(s[i..j]) - s[i]
  {
    SumSplit(s, i, i + 1, j);
    SumOne(s[i]);
    assert s[i..i + 1] == [s[i]];
  }

  lemma {:induction false} SumOfSquaresNonNegative(s: seq<real>)
    ensures SumOfSquares(s) >= 0.0
    decreases |s|
  {
    if s != [] {
      SumOfSquaresNonNegative(s[..|s| - 1]);
    }
  }

  /** A sequence of non-negative values has a non-negative sum. */
  lemma {:induction false} SumNonNegative(s: seq<real>)
    requires forall i :: 0 <= i < |s| ==> s[i] >= 0.0
    ensures Sum(s) >= 0.0
    decreases |s|
  {
    if s != [] {
      SumNonNegative(s[..|s| - 1]);
    }
  }

  /** Each element of a non-negative sequence is at most its sum. */
  lemma {:induction false} SumBoundsElement(s: seq<real>, k: int)
    requires forall i :: 0 <= i < |s| ==> s[i] >= 0.0
    requires 0 <= k < |s|
    ensures s[k] <= Sum(s)
    decreases |s|
  {
    var n := |s| - 1;
    SumNonNegative(s[..n]);
    if k < n {
      SumBoundsElement(s[..n], k);
    }
  }

  /** Sum of a sequence whose elements are all `c`. */
  lemma {:induction false} SumConstant(s: seq<real>, c: real)
    requires forall i :: 0 <= i < |s| ==> s[i] == c
    ensures Sum(s) == |s| as real * c
    decreases |s|
  {
    if s != [] {
      SumConstant(s[..|s| - 1], c);
    }
  }

  /** Arithmetic mean of a non-empty sequence. */
  function Mean(s: seq<real>): real
    requires |s| > 0
  {
    Sum(s) / |s| as real
  }

  /** A sum of values bounded by `lo` and `hi` is bounded by `|s|` times each. */
  lemma {:induction false} SumWithin(s: seq<real>, lo: real, hi: real)
    requires forall i :: 0 <= i < |s| ==> lo <= s[i] <= hi
    ensures |s| as real * lo <= Sum(s) <= |s| as real * hi
    decreases |s|
  {
    if s != [] {
      SumWithin(s[..|s| - 1], lo, hi);
    }
  }

  /** The mean of values between `lo` and `hi` lies between them as well. */
  lemma MeanWithin(s: seq<real>, lo: real, hi: real)
    requires |s| > 0
    requires forall i :: 0 <= i < |s| ==> lo <= s[i] <= hi
    ensures lo <= Mean(s) <= hi
  {
    SumWithin(s, lo, hi);
    var n := |s| as real;
    assert Sum(s) / n >= lo by {
      assert Sum(s) >= n * lo;
    }
    assert Sum(s) / n <= hi by {
      assert Sum(s) <= n * hi;
    }
  }

  /** Smallest element of a non-empty sequence. */
  function MinOf(s: seq<real>): (m: real)
    requires |s| > 0
    ensures forall i :: 0 <= i < |s| ==> m <= s[i]
    ensures exists i :: 0 <= i < |s| && m == s[i]
  {
    if |s| == 1 then s[0]
    else
      var m := MinOf(s[..|s| - 1]);
      if s[|s| - 1] < m then s[|s| - 1] else m
  }

  /** Largest element of a non-empty sequence. */
  function MaxOf(s: seq<real>): (m: real)
    requires |s| > 0
    ensures forall i :: 0 <= i < |s| ==> s[i] <= m
    ensures exists i :: 0 <= i < |s| && m == s[i]
  {
    if |s| == 1 then s[0]
    else
      var m := MaxOf(s[..|s| - 1]);
      if s[|s| - 1] > m then s[|s| - 1] else m
  }

  /** The mean of any window of a sequence lies between the sequence's smallest and largest values. */
  lemma WindowMeanWithin(s: seq<real>, lo: int, hi: int)
    requires 0 <= lo < hi <= |s|
    ensures MinOf(s) <= Mean(s[lo..hi]) <= MaxOf(s)
  {
    MeanWithin(s[lo..hi], MinOf(s), MaxOf(s));
  }

  // Facts about integer multiplication and division that the solver does not find unaided.

  lemma MulMonotone(a: int, b: int, f: int)
    requires 0 <= a <= b && 0 <= f
    ensures a * f <= b * f
  {}

  lemma MulSucc(a: int, f: int)
    ensures (a + 1) * f == a * f + f
  {}

  lemma DivBounds(n: int, f: int)
    requires n >= 0 && f > 0
    ensures (n / f) * f <= n < (n / f + 1) * f
  {}
}
