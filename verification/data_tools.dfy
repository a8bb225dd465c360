/**
 * The array and matrix toolbox of the TowseyLibrary `DataTools` class: small
 * loops that build fresh arrays from their inputs. Arrays the source only
 * reads and returns fresh are modelled as sequences; two-dimensional `double`
 * matrices stay `array2`.
 */
module DataTools {
  import opened Common

  // ---------------------------------------------------------------------------
  // Power of two
  // ---------------------------------------------------------------------------

  /** C#'s `ulong`. */
  type ULong = x: int | 0 <= x < 0x1_0000_0000_0000_0000

  /** Bitwise AND of two non-negative integers, built from the low bit up. */
  function BitAnd(a: nat, b: nat): nat
  {
    if a == 0 || b == 0 then 0
    else 2 * BitAnd(a / 2, b / 2) + (if a % 2 == 1 && b % 2 == 1 then 1 else 0)
  }

  function Pow2(k: nat): nat
  {
    if k == 0 then 1 else 2 * Pow2(k - 1)
  }

  /** The bit trick of `IsPowerOfTwo`: clearing the lowest set bit leaves nothing. */
  function IsPowerOfTwo(x: ULong): bool
  {
    x != 0 && BitAnd(x, x - 1) == 0
  }

  lemma {:induction false} BitAndSelf(y: nat)
    ensures BitAnd(y, y) == y
    decreases y
  {
    if y != 0 {
      BitAndSelf(y / 2);
    }
  }

  lemma {:induction false} PowerOfTwoPasses(k: nat)
    ensures Pow2(k) > 0 && BitAnd(Pow2(k), Pow2(k) - 1) == 0
  {
    if k > 0 {
      PowerOfTwoPasses(k - 1);
      var y := Pow2(k - 1);
      assert Pow2(k) == 2 * y && (2 * y - 1) / 2 == y - 1 && (2 * y) / 2 == y;
    }
  }

  lemma {:induction false} PassesIsPowerOfTwo(x: nat) returns (k: nat)
    requires x > 0 && BitAnd(x, x - 1) == 0
    ensures x == Pow2(k)
    decreases x
  {
    if x == 1 {
      k := 0;
    } else if x % 2 == 0 {
      var y := x / 2;
      assert (x - 1) / 2 == y - 1;
      assert BitAnd(y, y - 1) == 0;
      var j := PassesIsPowerOfTwo(y);
      k := j + 1;
    } else {
      BitAndSelf(x / 2);
      assert false;
    }
  }

  /** `IsPowerOfTwo(x)` holds exactly when `x` is `2^k` for some `k`. */
  lemma IsPowerOfTwoCorrect(x: ULong)
    ensures IsPowerOfTwo(x) <==> exists k: nat :: x == Pow2(k)
  {
    if IsPowerOfTwo(x) {
      var k := PassesIsPowerOfTwo(x);
    }
    if k: nat :| x == Pow2(k) {
      PowerOfTwoPasses(k);
    }
  }

  // ---------------------------------------------------------------------------
  // Sub-arrays and sub-matrices
  // ---------------------------------------------------------------------------

  /**
   * `Subarray<T>` and its `int[]` overload: null when `start + length - 1`
   * reaches past the end of the array; otherwise a negative `length` fails
   * at the allocation, and a negative `start` with a positive `length` fails
   * at the first read; otherwise `length` elements from `start`.
   */
  method Subarray<T>(source: seq<T>, start: int, length: int) returns (r: Outcome<Option<seq<T>>>)
    ensures r == Ok(None) <==> start + length - 1 >= |source|
    ensures r == Fail(NegativeSize) <==> start + length - 1 < |source| && length < 0
    ensures r == Fail(IndexOutOfRange) <==> start + length - 1 < |source| && start < 0 < length
    ensures r.Ok? && r.value.Some? ==> |r.value.value| == length
    ensures r.Ok? && r.value.Some? ==> forall i :: 0 <= i < length ==> r.value.value[i] == source[start + i]
  {
    var end := start + length - 1;
    if end >= |source| {
      return Ok(None);
    }
    if length < 0 {
      return Fail(NegativeSize);
    }
    var sa: seq<T> := [];
    for i := 0 to length
      invariant |sa| == i && (i > 0 ==> 0 <= start)
      invariant forall k :: 0 <= k < i ==> sa[k] == source[start + k]
    {
      if start + i < 0 {
        return Fail(IndexOutOfRange);
      }
      sa := sa + [source[start + i]];
    }
    return Ok(Some(sa));
  }

  /** The length the `double[]` overload of `Subarray` allocates: the range cut short at the end of the array. */
  function TruncatedLength(count: int, start: int, length: int): int
  {
    if start + length - 1 >= count then count - start else length
  }

  /**
   * The `double[]` overload of `Subarray`: a range that runs past the end is
   * cut short at the end instead of being refused. A cut length below zero
   * (a start past the end, or a negative length) fails at the allocation,
   * and a negative `start` with a positive length fails at the first read.
   */
  method SubarrayTruncated(A: seq<real>, start: int, length: int) returns (r: Outcome<seq<real>>)
    ensures r == Fail(NegativeSize) <==> TruncatedLength(|A|, start, length) < 0
    ensures r == Fail(IndexOutOfRange) <==> start < 0 < TruncatedLength(|A|, start, length)
    ensures 0 <= start <= |A| && 0 <= length ==> r.Ok?
    ensures r.Ok? ==> |r.value| == if start + length > |A| then |A| - start else length
    ensures r.Ok? ==> forall i :: 0 <= i < |r.value| ==> r.value[i] == A[start + i]
  {
    var end := start + length - 1;
    var len := length;
    if end >= |A| {
      end := |A| - 1;
      len := end - start + 1;
    }
    if len < 0 {
      return Fail(NegativeSize);
    }
    var a := new real[len];
    for i := 0 to len
      invariant i > 0 ==> 0 <= start
      invariant forall k :: 0 <= k < i ==> a[k] == A[start + k]
    {
      if start + i < 0 {
        return Fail(IndexOutOfRange);
      }
      a[i] := A[start + i];
    }
    return Ok(a[..]);
  }

  /** `Submatrix`: rows `r1..r2` and columns `c1..c2`, both inclusive. */
  method Submatrix(M: array2<real>, r1: int, c1: int, r2: int, c2: int) returns (sm: array2<real>)
    requires 0 <= r1 <= r2 + 1 && r2 < M.Length0
    requires 0 <= c1 <= c2 + 1 && c2 < M.Length1
    ensures fresh(sm)
    ensures sm.Length0 == r2 - r1 + 1 && sm.Length1 == c2 - c1 + 1
    ensures forall i, j :: 0 <= i < sm.Length0 && 0 <= j < sm.Length1 ==> sm[i, j] == M[r1 + i, c1 + j]
  {
    var subRowCount := r2 - r1 + 1;
    var subColCount := c2 - c1 + 1;
    sm := new real[subRowCount, subColCount];
    for i := 0 to subRowCount
      invariant forall p, q :: 0 <= p < i && 0 <= q < subColCount ==> sm[p, q] == M[r1 + p, c1 + q]
    {
      for j := 0 to subColCount
        invariant forall p, q :: 0 <= p < i && 0 <= q < subColCount ==> sm[p, q] == M[r1 + p, c1 + q]
        invariant forall q :: 0 <= q < j ==> sm[i, q] == M[r1 + i, c1 + q]
      {
        sm[i, j] := M[r1 + i, c1 + j];
      }
    }
  }

  // ---------------------------------------------------------------------------
  // Reversal and bounding
  // ---------------------------------------------------------------------------

  /** The reversal of a sequence, as a reference definition. */
  function Reversed<T>(s: seq<T>): (r: seq<T>)
    ensures |r| == |s|
  {
    if s == [] then [] else Reversed(s[1..]) + [s[0]]
  }

  lemma {:induction false} ReversedAt<T>(s: seq<T>, k: int)
    requires 0 <= k < |s|
    ensures Reversed(s)[k] == s[|s| - 1 - k]
    decreases |s|
  {
    if k < |s| - 1 {
      ReversedAt(s[1..], k);
    }
  }

  /** Reversing twice gives back the original sequence. */
  lemma ReversedTwice<T>(s: seq<T>)
    ensures Reversed(Reversed(s)) == s
  {
    forall k | 0 <= k < |s|
      ensures Reversed(Reversed(s))[k] == s[k]
    {
      ReversedAt(Reversed(s), k);
      ReversedAt(s, |s| - 1 - k);
    }
  }

  /** `reverseArray` (both the `double[]` and `int[]` overloads). */
  method ReverseArray<T(0)>(V: seq<T>) returns (newArray: seq<T>)
    ensures newArray == Reversed(V)
  {
    var L := |V|;
    var a := new T[L];
    for i := 0 to L
      invariant forall k :: 0 <= k < i ==> a[k] == V[L - k - 1]
    {
      a[i] := V[L - i - 1];
    }
    newArray := a[..];
    forall k | 0 <= k < L
      ensures newArray[k] == Reversed(V)[k]
    {
      ReversedAt(V, k);
    }
  }

  /** `BoundArray`: every value clipped into `[min, max]`, testing `min` first. */
  method BoundArray(A: seq<real>, min: real, max: real) returns (newArray: seq<real>)
    ensures |newArray| == |A|
    ensures forall i :: 0 <= i < |A| ==>
      newArray[i] == (if A[i] < min then min else if A[i] > max then max else A[i])
    ensures min <= max ==> forall i :: 0 <= i < |A| ==> min <= newArray[i] <= max
    ensures forall i :: 0 <= i < |A| && min <= A[i] <= max ==> newArray[i] == A[i]
  {
    var L := |A|;
    var a := new real[L];
    for i := 0 to L
      invariant forall k :: 0 <= k < i ==>
        a[k] == (if A[k] < min then min else if A[k] > max then max else A[k])
    {
      if A[i] < min {
        a[i] := min;
      } else if A[i] > max {
        a[i] := max;
      } else {
        a[i] := A[i];
      }
    }
    newArray := a[..];
  }

  // ---------------------------------------------------------------------------
  // Flattening and transposing matrices
  // ---------------------------------------------------------------------------

  /** The columns of a matrix, each read top to bottom. */
  function Columns(m: array2<real>): (cols: seq<seq<real>>)
    reads m
    ensures |cols| == m.Length1
    ensures forall c :: 0 <= c < |cols| ==> |cols[c]| == m.Length0
  {
    seq(m.Length1, c requires 0 <= c < m.Length1 reads m =>
      seq(m.Length0, r requires 0 <= r < m.Length0 reads m => m[r, c]))
  }

  lemma {:induction false} ConcatUniformLength(cols: seq<seq<real>>, h: int)
    requires 0 <= h && forall k :: 0 <= k < |cols| ==> |cols[k]| == h
    ensures |Concat(cols)| == |cols| * h
    decreases |cols|
  {
    if cols != [] {
      ConcatUniformLength(cols[..|cols| - 1], h);
      MulSucc(|cols| - 1, h);
    }
  }

  /** In the concatenation of vectors of height `h`, entry `r` of vector `c` sits at `c * h + r`. */
  lemma {:induction false} ConcatUniformAt(cols: seq<seq<real>>, h: int, c: int, r: int)
    requires forall k :: 0 <= k < |cols| ==> |cols[k]| == h
    requires 0 <= c < |cols| && 0 <= r < h
    ensures c * h + r < |Concat(cols)| && Concat(cols)[c * h + r] == cols[c][r]
    decreases |cols|
  {
    var n := |cols| - 1;
    ConcatUniformLength(cols[..n], h);
    if c < n {
      ConcatUniformAt(cols[..n], h, c, r);
      MulSucc(c, h);
      MulMonotone(c + 1, n, h);
    }
  }

  /** Copies column `col` of `m` into `a` from position `id` on. */
  method CopyColumn(m: array2<real>, col: int, a: array<real>, id: int)
    requires 0 <= col < m.Length1 && 0 <= id && id + m.Length0 <= a.Length
    modifies a
    ensures a[..id + m.Length0] == old(a[..id]) + Columns(m)[col]
    ensures a[id + m.Length0..] == old(a[id + m.Length0..])
  {
    ghost var column := Columns(m)[col];
    for row := 0 to m.Length0
      invariant a[..id + row] == old(a[..id]) + column[..row]
      invariant a[id + row..] == old(a[id + row..])
    {
      a[id + row] := m[row, col];
      assert column[..row + 1] == column[..row] + [column[row]];
    }
    assert column[..m.Length0] == column;
  }

  /**
   * `Matrix2Array` (the `double[,]`, `int[,]` and `byte[,]` overloads run the
   * same loop): the columns of the matrix one after another.
   */
  method Matrix2Array(m: array2<real>) returns (v: seq<real>)
    ensures v == Concat(Columns(m))
  {
    var ht, width := m.Length0, m.Length1;
    ghost var cols := Columns(m);
    ConcatUniformLength(cols, ht);
    MulMonotone(0, width, ht);
    assert ht * width == width * ht;
    var a := new real[ht * width];
    var id := 0;
    for col := 0 to width
      invariant id == col * ht && 0 <= id <= a.Length
      invariant a[..id] == Concat(cols[..col])
    {
      MulSucc(col, ht);
      MulMonotone(col + 1, width, ht);
      assert id + ht <= a.Length;
      CopyColumn(m, col, a, id);
      assert cols[..col + 1][..col] == cols[..col];
      id := id + ht;
    }
    assert cols[..width] == cols;
    v := a[..];
  }

  /** In the flattened matrix, entry `(r, c)` sits at position `c * height + r`. */
  lemma ColumnMajorLayout(m: array2<real>, r: int, c: int)
    requires 0 <= r < m.Length0 && 0 <= c < m.Length1
    ensures c * m.Length0 + r < |Concat(Columns(m))|
    ensures Concat(Columns(m))[c * m.Length0 + r] == m[r, c]
  {
    ConcatUniformAt(Columns(m), m.Length0, c, r);
  }

  /** Entries `M[row, col1, 0..len)`: the first `len` values along the third axis. */
  function Fibre(M: array3<real>, row: int, col1: int, len: int): (f: seq<real>)
    requires 0 <= row < M.Length0 && 0 <= col1 < M.Length1 && 0 <= len <= M.Length2
    reads M
    ensures |f| == len
  {
    seq(len, k requires 0 <= k < len reads M => M[row, col1, k])
  }

  /** The fibres of plane `row`, in order of the second index. */
  function PlaneFibres(M: array3<real>, row: int, len: int): (fs: seq<seq<real>>)
    requires 0 <= row < M.Length0 && 0 <= len <= M.Length2
    reads M
    ensures |fs| == M.Length1
  {
    seq(M.Length1, c requires 0 <= c < M.Length1 reads M => Fibre(M, row, c, len))
  }

  /** The planes of the matrix, each flattened fibre after fibre. */
  function Planes(M: array3<real>, len: int): (ps: seq<seq<real>>)
    requires 0 <= len <= M.Length2
    reads M
    ensures |ps| == M.Length0
  {
    seq(M.Length0, r requires 0 <= r < M.Length0 reads M => Concat(PlaneFibres(M, r, len)))
  }

  /** The first `len` values of every fibre, in row-major order of the first two indices. */
  function Flatten3(M: array3<real>, len: int): seq<real>
    requires 0 <= len <= M.Length2
    reads M
  {
    Concat(Planes(M, len))
  }

  lemma Flatten3Length(M: array3<real>, len: int)
    requires 0 <= len <= M.Length2
    ensures |Flatten3(M, len)| == M.Length0 * (M.Length1 * len)
  {
    forall r | 0 <= r < M.Length0
      ensures |Planes(M, len)[r]| == M.Length1 * len
    {
      ConcatUniformLength(PlaneFibres(M, r, len), len);
    }
    ConcatUniformLength(Planes(M, len), M.Length1 * len);
  }

  /** Copies fibre `(row, col1)` of length `len` into `a` from position `id` on. */
  method CopyFibre(M: array3<real>, row: int, col1: int, len: int, a: array<real>, id: int)
    requires 0 <= row < M.Length0 && 0 <= col1 < M.Length1 && 0 <= len <= M.Length2
    requires 0 <= id && id + len <= a.Length
    modifies a
    ensures a[..id + len] == old(a[..id]) + Fibre(M, row, col1, len)
    ensures a[id + len..] == old(a[id + len..])
  {
    ghost var fibre := Fibre(M, row, col1, len);
    for col2 := 0 to len
      invariant a[..id + col2] == old(a[..id]) + fibre[..col2]
      invariant a[id + col2..] == old(a[id + col2..])
    {
      a[id + col2] := M[row, col1, col2];
      assert fibre[..col2 + 1] == fibre[..col2] + [fibre[col2]];
    }
    assert fibre[..len] == fibre;
  }

  lemma SquareFits(d1: int, d2: int, d3: int)
    requires 0 <= d1 && 0 <= d2 <= d3
    ensures d1 * (d2 * d2) <= d1 * d2 * d3
  {
    MulMonotone(d2, d3, d2);
    MulMonotone(d2 * d2, d2 * d3, d1);
  }

  /** Zero-filled sequence, the content of a fresh C# numeric array. */
  function Zeros(n: nat): (z: seq<real>)
    ensures |z| == n && forall k :: 0 <= k < n ==> z[k] == 0.0
  {
    seq(n, _ => 0.0)
  }

  /** Copies the fibres of plane `row`, each of length `len`, into `a` from position `id` on. */
  method CopyPlane(M: array3<real>, row: int, len: int, a: array<real>, id: int)
    requires 0 <= row < M.Length0 && 0 <= len <= M.Length2
    requires 0 <= id && id + M.Length1 * len <= a.Length
    modifies a
    ensures a[..id + M.Length1 * len] == old(a[..id]) + Concat(PlaneFibres(M, row, len))
    ensures a[id + M.Length1 * len..] == old(a[id + M.Length1 * len..])
  {
    ghost var fibres := PlaneFibres(M, row, len);
    var at := id;
    for col1 := 0 to M.Length1
      invariant at == id + col1 * len && id <= at
      invariant a[..at] == old(a[..id]) + Concat(fibres[..col1])
      invariant a[id + M.Length1 * len..] == old(a[id + M.Length1 * len..])
    {
      MulSucc(col1, len);
      MulMonotone(col1 + 1, M.Length1, len);
      CopyFibre(M, row, col1, len, a, at);
      assert fibres[col1] == Fibre(M, row, col1, len);
      ConcatStep(fibres, col1);
      at := at + len;
    }
    assert fibres[..M.Length1] == fibres;
  }

  /** Copies every plane, fibres of length `len`, into the front of `a`; the rest of `a` is unchanged. */
  method CopyPlanes(M: array3<real>, len: int, a: array<real>)
    requires 0 <= len <= M.Length2 && M.Length0 * (M.Length1 * len) <= a.Length
    modifies a
    ensures |Flatten3(M, len)| == M.Length0 * (M.Length1 * len)
    ensures a[..|Flatten3(M, len)|] == Flatten3(M, len)
    ensures a[|Flatten3(M, len)|..] == old(a[|Flatten3(M, len)|..])
  {
    ghost var planes := Planes(M, len);
    var size := M.Length1 * len;
    ghost var n := M.Length0 * size;
    Flatten3Length(M, len);
    MulMonotone(0, M.Length1, len);
    MulMonotone(0, M.Length0, size);
    assert n <= a.Length;
    var id := 0;
    for row := 0 to M.Length0
      invariant id == row * size && 0 <= id <= n
      invariant a[..id] == Concat(planes[..row])
      invariant a[n..] == old(a[n..])
    {
      MulSucc(row, size);
      MulMonotone(row + 1, M.Length0, size);
      assert id + size <= a.Length;
      CopyPlane(M, row, len, a, id);
      assert planes[row] == Concat(PlaneFibres(M, row, len));
      ConcatStep(planes, row);
      id := id + size;
    }
    assert planes[..M.Length0] == planes;
  }

  /**
   * The `double[,,]` overload of `Matrix2Array` as written: its innermost loop
   * runs to the second dimension instead of the third. It throws when the
   * second dimension exceeds the third, and otherwise copies only the first
   * `d2` values of each fibre and leaves the rest of the vector zero.
   */
  method Matrix2Array3AsWritten(M: array3<real>) returns (r: Outcome<seq<real>>)
    ensures r.Fail? <==> M.Length0 > 0 && M.Length1 > M.Length2
    ensures r.Ok? ==> |r.value| == M.Length0 * M.Length1 * M.Length2
    ensures r.Ok? && M.Length1 <= M.Length2 ==> Flatten3(M, M.Length1) <= r.value
    ensures r.Ok? && M.Length1 <= M.Length2 ==>
      forall k :: |Flatten3(M, M.Length1)| <= k < |r.value| ==> r.value[k] == 0.0
  {
    var d1, d2, d3 := M.Length0, M.Length1, M.Length2;
    var a := new real[d1 * d2 * d3](_ => 0.0);
    if d2 > d3 {
      if d1 > 0 {
        // M[0, 0, d3] is read before the innermost loop ends.
        return Fail(IndexOutOfRange);
      }
      return Ok(a[..]);
    }
    SquareFits(d1, d2, d3);
    assert d1 * (d2 * d2) <= a.Length;
    ghost var n := d1 * (d2 * d2);
    assert a[n..] == Zeros(a.Length - n);
    CopyPlanes(M, d2, a);
    assert a[..] == a[..n] + a[n..];
    return Ok(a[..]);
  }

  /**
   * `Matrix2Array` for a three-dimensional matrix with the innermost loop
   * bounded by the third dimension, as the `int[,,]` overload has it: every
   * fibre copied whole, in row-major order of the first two indices.
   */
  method Matrix2Array3(M: array3<real>) returns (v: seq<real>)
    ensures |v| == M.Length0 * M.Length1 * M.Length2
    ensures v == Flatten3(M, M.Length2)
  {
    var d1, d2, d3 := M.Length0, M.Length1, M.Length2;
    var a := new real[d1 * d2 * d3];
    assert d1 * (d2 * d3) == d1 * d2 * d3;
    CopyPlanes(M, d3, a);
    assert a[..] == a[..|Flatten3(M, d3)|];
    v := a[..];
  }

  lemma Distribute3(i: int, j: int, d2: int, d3: int)
    ensures (i * d2 + j) * d3 == i * (d2 * d3) + j * d3
  {}

  /** In the flattened three-dimensional matrix, entry `(i, j, k)` sits at `(i * d2 + j) * d3 + k`. */
  lemma RowMajorLayout3(M: array3<real>, i: int, j: int, k: int)
    requires 0 <= i < M.Length0 && 0 <= j < M.Length1 && 0 <= k < M.Length2
    ensures (i * M.Length1 + j) * M.Length2 + k < |Flatten3(M, M.Length2)|
    ensures Flatten3(M, M.Length2)[(i * M.Length1 + j) * M.Length2 + k] == M[i, j, k]
  {
    var d2, d3 := M.Length1, M.Length2;
    var planes := Planes(M, d3);
    forall r | 0 <= r < M.Length0
      ensures |planes[r]| == d2 * d3
    {
      ConcatUniformLength(PlaneFibres(M, r, d3), d3);
    }
    ConcatUniformAt(PlaneFibres(M, i, d3), d3, j, k);
    MulSucc(j, d3);
    MulMonotone(j + 1, d2, d3);
    ConcatUniformAt(planes, d2 * d3, i, j * d3 + k);
    Distribute3(i, j, d2, d3);
  }

  /**
   * On a 1 x 1 x 2 matrix holding 0 and 1, the loop as written returns
   * [0, 0]: the second value of the fibre is lost, where the corrected loop
   * returns [0, 1].
   */
  method Matrix2Array3LosesValues() returns (asWritten: Outcome<seq<real>>, corrected: seq<real>)
    ensures asWritten == Ok([0.0, 0.0])
    ensures corrected == [0.0, 1.0]
  {
    var M := new real[1, 1, 2];
    M[0, 0, 0], M[0, 0, 1] := 0.0, 1.0;
    asWritten := Matrix2Array3AsWritten(M);
    corrected := Matrix2Array3(M);
    assert Flatten3(M, 1) == [0.0] by {
      assert Fibre(M, 0, 0, 1) == [0.0];
      assert PlaneFibres(M, 0, 1) == [[0.0]];
      assert Concat([[0.0]]) == [0.0];
      assert Planes(M, 1) == [[0.0]];
    }
    assert Flatten3(M, 2) == [0.0, 1.0] by {
      assert Fibre(M, 0, 0, 2) == [0.0, 1.0];
      assert PlaneFibres(M, 0, 2) == [[0.0, 1.0]];
      assert Concat([[0.0, 1.0]]) == [0.0, 1.0];
      assert Planes(M, 2) == [[0.0, 1.0]];
    }
    assert asWritten.Ok? && |asWritten.value| == 2;
    assert asWritten.value[0] == 0.0 && asWritten.value[1] == 0.0;
    assert asWritten.value == [0.0, 0.0];
  }

  /** `MatrixTranspose` (the `double[,]`, `char[,]` and `byte[,]` overloads). */
  method MatrixTranspose<T(0)>(M: array2<T>) returns (Mt: array2<T>)
    ensures fresh(Mt) && Mt.Length0 == M.Length1 && Mt.Length1 == M.Length0
    ensures forall c, r :: 0 <= c < Mt.Length0 && 0 <= r < Mt.Length1 ==> Mt[c, r] == M[r, c]
  {
    var rows, cols := M.Length0, M.Length1;
    Mt := new T[cols, rows];
    for r := 0 to rows
      invariant forall c, p :: 0 <= c < cols && 0 <= p < r ==> Mt[c, p] == M[p, c]
    {
      for c := 0 to cols
        invariant forall q, p :: 0 <= q < cols && 0 <= p < r ==> Mt[q, p] == M[p, q]
        invariant forall q :: 0 <= q < c ==> Mt[q, r] == M[r, q]
      {
        Mt[c, r] := M[r, c];
      }
    }
  }

  /** Transposing a transposed matrix restores every entry. */
  method TransposeTwice<T(0)>(M: array2<T>) returns (back: array2<T>)
    ensures back.Length0 == M.Length0 && back.Length1 == M.Length1
    ensures forall r, c :: 0 <= r < M.Length0 && 0 <= c < M.Length1 ==> back[r, c] == M[r, c]
  {
    var once := MatrixTranspose(M);
    back := MatrixTranspose(once);
  }

  // ---------------------------------------------------------------------------
  // Concatenation, length reduction and padding
  // ---------------------------------------------------------------------------

  /** The vectors of a list, one after another. */
  function Concat(list: seq<seq<real>>): seq<real>
  {
    if list == [] then [] else Concat(list[..|list| - 1]) + list[|list| - 1]
  }

  function TotalLength(list: seq<seq<real>>): nat
  {
    if list == [] then 0 else TotalLength(list[..|list| - 1]) + |list[|list| - 1]|
  }

  lemma {:induction false} ConcatLength(list: seq<seq<real>>)
    ensures |Concat(list)| == TotalLength(list)
    decreases |list|
  {
    if list != [] {
      ConcatLength(list[..|list| - 1]);
    }
  }

  /** Concatenating a prefix of the list gives a prefix of the whole concatenation. */
  lemma {:induction false} ConcatPrefix(list: seq<seq<real>>, k: int)
    requires 0 <= k <= |list|
    ensures Concat(list[..k]) <= Concat(list)
    decreases |list| - k
  {
    if k < |list| {
      ConcatPrefix(list, k + 1);
      assert list[..k + 1][..k] == list[..k];
    } else {
      assert list[..k] == list;
    }
  }

  lemma {:induction false} TotalLengthZero(list: seq<seq<real>>)
    requires forall k :: 0 <= k < |list| ==> |list[k]| == 0
    ensures TotalLength(list) == 0
    decreases |list|
  {
    if list != [] {
      TotalLengthZero(list[..|list| - 1]);
    }
  }

  /**
   * `ConcatenateVectors` (the `params double[][]` and `List<double[]>`
   * overloads): the total length is summed first, then every vector is copied
   * in order into the output.
   */
  method ConcatenateVectors(list: seq<seq<real>>) returns (outputVector: seq<real>)
    ensures |outputVector| == TotalLength(list)
    ensures outputVector == Concat(list)
  {
    var length := 0;
    for k := 0 to |list|
      invariant length == TotalLength(list[..k])
    {
      assert list[..k + 1][..k] == list[..k];
      length := length + |list[k]|;
    }
    assert list[..|list|] == list;
    ConcatLength(list);
    var out := new real[length];
    var id := 0;
    for k := 0 to |list|
      invariant id == |Concat(list[..k])| <= length
      invariant out[..id] == Concat(list[..k])
    {
      var v := list[k];
      ConcatStep(list, k);
      ConcatPrefix(list, k + 1);
      CopyVector(out, id, v);
      id := id + |v|;
    }
    outputVector := out[..];
    assert out[..] == out[..id];
  }

  /** Copies `v` into `out` from position `id` on, after what is already there. */
  method CopyVector(out: array<real>, id: int, v: seq<real>)
    requires 0 <= id && id + |v| <= out.Length
    modifies out
    ensures out[..id + |v|] == old(out[..id]) + v
  {
    for i := 0 to |v|
      invariant out[..id + i] == old(out[..id]) + v[..i]
    {
      out[id + i] := v[i];
      assert v[..i + 1] == v[..i] + [v[i]];
    }
    assert v[..|v|] == v;
  }

  /** One more vector of the list adds it to the concatenation. */
  lemma ConcatStep(list: seq<seq<real>>, k: int)
    requires 0 <= k < |list|
    ensures Concat(list[..k + 1]) == Concat(list[..k]) + list[k]
  {
    assert list[..k + 1][..k] == list[..k];
  }

  /** Block `i` of `factor` values lies inside a vector of `n` values when `i < n / factor`. */
  lemma BlockInRange(i: int, n: int, factor: int)
    requires factor > 0 && 0 <= i < n / factor
    ensures 0 <= i * factor && i * factor + factor <= n
  {
    MulSucc(i, factor);
    MulMonotone(i + 1, n / factor, factor);
    DivBounds(n, factor);
  }

  /** Mean of block `i`: the `factor` values from `i * factor` on. */
  function BlockMean(v: seq<real>, i: nat, factor: nat): real
    requires factor > 0 && i < |v| / factor
  {
    BlockInRange(i, |v|, factor);
    Sum(v[i * factor..i * factor + factor]) / factor as real
  }

  /** The loops of `VectorReduceLength` for a positive factor: one block mean per complete block. */
  method ReduceBlocks(v: seq<real>, factor: int) returns (newVector: seq<real>)
    requires factor > 0
    ensures |newVector| == |v| / factor
    ensures forall i :: 0 <= i < |newVector| ==> newVector[i] == BlockMean(v, i, factor)
  {
    var newLength := |v| / factor;
    var a := new real[newLength];
    for i := 0 to newLength
      invariant forall p :: 0 <= p < i ==> a[p] == BlockMean(v, p, factor)
    {
      BlockInRange(i, |v|, factor);
      var index := i * factor;
      var sum := 0.0;
      for j := 0 to factor
        invariant forall p :: 0 <= p < i ==> a[p] == BlockMean(v, p, factor)
        invariant sum == Sum(v[index..index + j])
      {
        SumExtend(v, index, index + j);
        sum := sum + v[index + j];
      }
      a[i] := sum / factor as real;
    }
    newVector := a[..];
  }

  /**
   * `VectorReduceLength`: the mean of each complete block of `factor` values;
   * a trailing incomplete block is dropped. A zero factor divides by zero.
   * A negative factor gives a negative length (C#'s division truncates
   * towards zero), which fails at the allocation, unless the vector is
   * shorter than the factor's magnitude, when the result is empty.
   */
  method VectorReduceLength(v: seq<real>, factor: int) returns (r: Outcome<seq<real>>)
    ensures r == Fail(DivideByZero) <==> factor == 0
    ensures r == Fail(NegativeSize) <==> factor < 0 && |v| >= -factor
    ensures factor < 0 && |v| < -factor ==> r == Ok([])
    ensures factor > 0 ==> r.Ok? && |r.value| == |v| / factor
    ensures factor > 0 && r.Ok? ==> forall i :: 0 <= i < |r.value| ==> r.value[i] == BlockMean(v, i, factor)
  {
    if factor == 0 {
      return Fail(DivideByZero);
    }
    if factor < 0 {
      var newLength := -(|v| / -factor);
      if newLength < 0 {
        return Fail(NegativeSize);
      }
      return Ok([]);
    }
    var newVector := ReduceBlocks(v, factor);
    return Ok(newVector);
  }

  function Spaces(n: nat): (r: string)
    ensures |r| == n && forall i :: 0 <= i < n ==> r[i] == ' '
  {
    if n == 0 then "" else " " + Spaces(n - 1)
  }

  /** `padString_pre`: spaces in front until the string is `width` long. */
  method PadStringPre(str: string, width: int) returns (r: string)
    ensures |r| == if |str| < width then width else |str|
    ensures r == Spaces(|r| - |str|) + str
  {
    r := str;
    while |r| < width
      invariant |r| >= |str| && r == Spaces(|r| - |str|) + str
      invariant if |str| < width then |r| <= width else r == str
      decreases width - |r|
    {
      r := " " + r;
    }
  }

  /** `padString_post`: spaces after until the string is `width` long. */
  method PadStringPost(str: string, width: int) returns (r: string)
    ensures |r| == if |str| < width then width else |str|
    ensures r == str + Spaces(|r| - |str|)
  {
    r := str;
    while |r| < width
      invariant |r| >= |str| && r == str + Spaces(|r| - |str|)
      invariant if |str| < width then |r| <= width else r == str
      decreases width - |r|
    {
      assert Spaces(|r| + 1 - |str|) == Spaces(|r| - |str|) + " ";
      r := r + " ";
    }
  }

  // ---------------------------------------------------------------------------
  // Arg-max, arg-min, ranking and bisection
  // ---------------------------------------------------------------------------

  /** `k` holds the largest value of `s`, and no earlier index holds that value. */
  predicate IsFirstMax(s: seq<real>, k: int)
  {
    0 <= k < |s| && (forall j :: 0 <= j < |s| ==> s[j] <= s[k]) && (forall j :: 0 <= j < k ==> s[j] < s[k])
  }

  /** `k` holds the smallest value of `s`, and no earlier index holds that value. */
  predicate IsFirstMin(s: seq<real>, k: int)
  {
    0 <= k < |s| && (forall j :: 0 <= j < |s| ==> s[k] <= s[j]) && (forall j :: 0 <= j < k ==> s[k] < s[j])
  }

  /** There is exactly one first maximum. */
  lemma FirstMaxUnique(s: seq<real>, a: int, b: int)
    requires IsFirstMax(s, a) && IsFirstMax(s, b)
    ensures a == b
  {
    assert s[a] == s[b];
  }

  /** The first maximum as a function, for use in specifications. */
  function ArgMax(s: seq<real>): (k: int)
    requires |s| > 0
    ensures IsFirstMax(s, k)
    decreases |s|
  {
    if |s| == 1 then 0
    else
      var k := ArgMax(s[..|s| - 1]);
      if s[|s| - 1] > s[k] then |s| - 1 else k
  }

  /**
   * `GetMaxIndex(double[])` (the `int[]`, `List<int>` and out-parameter
   * `getMaxIndex` overloads run the same loop): the first index of the largest
   * value. The source reads `data[0]` first, so an empty array is an index
   * fault.
   */
  method GetMaxIndex(data: seq<real>) returns (r: Outcome<int>)
    ensures r.Fail? <==> |data| == 0
    ensures r.Fail? ==> r.fault == IndexOutOfRange
    ensures r.Ok? ==> IsFirstMax(data, r.value)
  {
    if |data| == 0 {
      return Fail(IndexOutOfRange);
    }
    var indexMax := 0;
    var max := data[0];
    for i := 1 to |data|
      invariant 0 <= indexMax < i && max == data[indexMax]
      invariant forall j :: 0 <= j < i ==> data[j] <= max
      invariant forall j :: 0 <= j < indexMax ==> data[j] < max
    {
      if data[i] > max {
        max := data[i];
        indexMax := i;
      }
    }
    return Ok(indexMax);
  }

  /** `GetMinIndex(double[])`: the first index of the smallest value, or an index fault on an empty array. */
  method GetMinIndex(data: seq<real>) returns (r: Outcome<int>)
    ensures r.Fail? <==> |data| == 0
    ensures r.Fail? ==> r.fault == IndexOutOfRange
    ensures r.Ok? ==> IsFirstMin(data, r.value)
  {
    if |data| == 0 {
      return Fail(IndexOutOfRange);
    }
    var indexMin := 0;
    var min := data[0];
    for i := 1 to |data|
      invariant 0 <= indexMin < i && min == data[indexMin]
      invariant forall j :: 0 <= j < i ==> min <= data[j]
      invariant forall j :: 0 <= j < indexMin ==> min < data[j]
    {
      if data[i] < min {
        min := data[i];
        indexMin := i;
      }
    }
    return Ok(indexMin);
  }

  /** `double.MaxValue`, the largest finite double. */
  const MaxDouble: real := 179769313486231570814527423731704356798070567525844996598917476803157260780028538760589558632766878171540458953514382464234321326889464182768467546703537516986049910576551282076245490090389328944075868508455133942304583236903222948165808559332123348274797826204144723168738177180919299881250404026184124858368.0

  /** Every value lies strictly above the sentinel `-double.MaxValue`. */
  predicate AboveSentinel(values: seq<real>)
  {
    forall i :: 0 <= i < |values| ==> values[i] > -MaxDouble
  }

  /** The indices `0 .. n - 1` as a set. */
  ghost function Range(n: nat): (r: set<int>)
    ensures forall k :: k in r <==> 0 <= k < n
    ensures |r| == n
  {
    if n == 0 then {} else Range(n - 1) + {n - 1}
  }

  /**
   * The state of the ranking loop after `|rank|` rounds: the indices not yet
   * ranked (`unused`) still hold their values in `clone`, the ranked ones hold
   * the sentinel, and every ranked value is at least every unranked one (with
   * ties broken towards the lower index).
   */
  ghost predicate RankingState(values: seq<real>, clone: seq<real>, unused: set<int>, rank: seq<int>, sort: seq<real>)
  {
    |clone| == |values| && |rank| == |sort| &&
    unused <= Range(|values|) && |unused| == |values| - |rank| &&
    (forall k :: 0 <= k < |values| ==> if k in unused then clone[k] == values[k] else clone[k] == -MaxDouble) &&
    (forall k :: 0 <= k < |rank| ==> 0 <= rank[k] < |values| && rank[k] !in unused && sort[k] == values[rank[k]]) &&
    (forall k, j :: 0 <= k < j < |rank| ==>
       rank[k] != rank[j] && sort[k] >= sort[j] && (sort[k] == sort[j] ==> rank[k] < rank[j])) &&
    (forall k, u :: 0 <= k < |rank| && u in unused ==> values[u] < sort[k] || (values[u] == sort[k] && rank[k] < u))
  }

  /** One round of the ranking loop keeps the state. */
  lemma RankingStep(values: seq<real>, clone: seq<real>, unused: set<int>, rank: seq<int>, sort: seq<real>, m: int)
    requires AboveSentinel(values)
    requires RankingState(values, clone, unused, rank, sort) && |rank| < |values|
    requires IsFirstMax(clone, m)
    ensures m in unused
    ensures RankingState(values, clone[m := -MaxDouble], unused - {m}, rank + [m], sort + [clone[m]])
  {
    assert |unused| > 0;
    var u :| u in unused;
    assert clone[u] == values[u] > -MaxDouble;
    assert m in unused;
    var rank', sort', unused' := rank + [m], sort + [clone[m]], unused - {m};
    assert forall v :: v in unused' ==> values[v] < sort'[|rank|] || (values[v] == sort'[|rank|] && m < v) by {
      forall v | v in unused'
        ensures values[v] < sort'[|rank|] || (values[v] == sort'[|rank|] && m < v)
      {
        assert clone[v] == values[v] <= clone[m];
        if v < m {
          assert clone[v] < clone[m];
        }
      }
    }
  }

  /**
   * `SortArray(double[])`: repeatedly takes the first maximum of a clone and
   * overwrites it with `-double.MaxValue`. It returns the indices in rank order
   * and the values in descending order. The input is left unchanged. When
   * every value lies above the sentinel, the ranks are a permutation, the
   * values are non-increasing, and equal values keep their index order.
   */
  method SortArray(values: seq<real>) returns (rankOrder: seq<int>, sort: seq<real>)
    ensures |rankOrder| == |values| && |sort| == |values|
    ensures forall i :: 0 <= i < |rankOrder| ==> 0 <= rankOrder[i] < |values|
    ensures AboveSentinel(values) ==> forall i, j :: 0 <= i < j < |rankOrder| ==> rankOrder[i] != rankOrder[j]
    ensures AboveSentinel(values) ==> forall i :: 0 <= i < |sort| ==> sort[i] == values[rankOrder[i]]
    ensures AboveSentinel(values) ==> forall i, j :: 0 <= i < j < |sort| ==> sort[i] >= sort[j]
    ensures AboveSentinel(values) ==>
      forall i, j :: 0 <= i < j < |sort| && sort[i] == sort[j] ==> rankOrder[i] < rankOrder[j]
  {
    var n := |values|;
    var clone := new real[n](k requires 0 <= k < n => values[k]);
    rankOrder, sort := [], [];
    ghost var above := AboveSentinel(values);
    ghost var unused := Range(n);
    for i := 0 to n
      invariant |rankOrder| == i && |sort| == i
      invariant forall k :: 0 <= k < i ==> 0 <= rankOrder[k] < n
      invariant above ==> RankingState(values, clone[..], unused, rankOrder, sort)
    {
      var found := GetMaxIndex(clone[..]);
      var maxIndex := found.value;
      if above {
        RankingStep(values, clone[..], unused, rankOrder, sort, maxIndex);
      }
      rankOrder := rankOrder + [maxIndex];
      sort := sort + [clone[maxIndex]];
      clone[maxIndex] := -MaxDouble;
      unused := unused - {maxIndex};
    }
  }

  /**
   * `WhichSideOfCentre`: bisection between `lowerIndex` and `upperIndex`. The
   * result `r` is a boundary of `refValue` in `a`: every index just
   * below it holds a value at most `refValue`, and `r` itself, when it is
   * below `upperIndex`, holds a larger one. No ordering of `a` is needed.
   */
  function WhichSideOfCentre(a: seq<real>, refValue: real, lowerIndex: int, upperIndex: int): (r: int)
    requires 0 <= lowerIndex < |a| && lowerIndex <= upperIndex <= |a|
    ensures lowerIndex <= r <= upperIndex
    ensures r > lowerIndex ==> a[r - 1] <= refValue
    ensures r < upperIndex ==> refValue < a[r]
    decreases upperIndex - lowerIndex
  {
    var distance := upperIndex - lowerIndex;
    if distance <= 1 then
      if refValue < a[lowerIndex] then lowerIndex else upperIndex
    else
      var centre := upperIndex - distance / 2;
      if refValue >= a[centre] then WhichSideOfCentre(a, refValue, centre, upperIndex)
      else WhichSideOfCentre(a, refValue, lowerIndex, centre)
  }

  predicate NonDecreasing(s: seq<real>)
  {
    forall i, j :: 0 <= i <= j < |s| ==> s[i] <= s[j]
  }

  /**
   * On a non-decreasing a (a cumulative distribution), the bisection
   * returns the insertion point of `refValue`: the values before it are at most
   * `refValue` and the values from it on are larger.
   */
  lemma WhichSideOfCentreSplits(a: seq<real>, refValue: real, lowerIndex: int, upperIndex: int)
    requires 0 <= lowerIndex < |a| && lowerIndex <= upperIndex <= |a|
    requires NonDecreasing(a)
    ensures var r := WhichSideOfCentre(a, refValue, lowerIndex, upperIndex);
      (forall i :: lowerIndex <= i < r ==> a[i] <= refValue) &&
      (forall i :: r <= i < upperIndex ==> a[i] > refValue)
  {
  }
}
