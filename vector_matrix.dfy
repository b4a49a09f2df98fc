/**
 * Vectors and matrices over exact integers.
 *
 * Vector operations build their result coordinate by coordinate in loops;
 * a shorter vector counts as padded with zeros when adding, and the scalar
 * product runs over the shorter length. Matrix operations are nested
 * comprehensions whose out-of-range indexing raises IndexError.
 */
module VectorsMatrix {
  import opened Wrappers

  // ---------------------------------------------------------------------
  // Vectors
  // ---------------------------------------------------------------------

  function Min(a: int, b: int): int { if a <= b then a else b }
  function Max(a: int, b: int): int { if a >= b then a else b }

  /** Coordinate i, or 0 past the end: the zero padding of a vector. */
  function At(u: seq<int>, i: int): int
  {
    if 0 <= i < |u| then u[i] else 0
  }

  /** The sum of u[i] * v[i] over i < n. */
  function DotPrefix(u: seq<int>, v: seq<int>, n: int): int
    requires 0 <= n <= |u| && n <= |v|
  {
    if n == 0 then 0 else DotPrefix(u, v, n - 1) + u[n - 1] * v[n - 1]
  }

  /** The scalar product: matching coordinates multiplied, over the shorter length. */
  function Dot(u: seq<int>, v: seq<int>): int
  {
    DotPrefix(u, v, Min(|u|, |v|))
  }

  /** The coordinate-wise sum of the zero-padded vectors, as long as the longer one. */
  function ZipSum(u: seq<int>, v: seq<int>): seq<int>
  {
    seq(Max(|u|, |v|), i requires 0 <= i < Max(|u|, |v|) => At(u, i) + At(v, i))
  }

  /** Every coordinate multiplied by s. */
  function Scaled(u: seq<int>, s: int): seq<int>
  {
    seq(|u|, i requires 0 <= i < |u| => u[i] * s)
  }

  /** A vector: its list of coordinates. */
  datatype Vector = Vector(coordinates: seq<int>)
  {
    /** `scalar_product`: accumulates the products of matching coordinates over the shorter length. */
    method ScalarProduct(v: Vector) returns (product: int)
      ensures product == Dot(coordinates, v.coordinates)
    {
      var u := coordinates;
      var w := v.coordinates;
      product := 0;
      if |u| >= |w| {
        for i := 0 to |w|
          invariant product == DotPrefix(u, w, i)
        {
          product := product + u[i] * w[i];
        }
      } else {
        for i := 0 to |u|
          invariant product == DotPrefix(u, w, i)
        {
          product := product + u[i] * w[i];
        }
      }
    }

    /**
     * `+`: sums over the common length, then the longer vector's remaining
     * coordinates copied.
     */
    method Add(v: Vector) returns (res: Vector)
      ensures res.coordinates == ZipSum(coordinates, v.coordinates)
      ensures |res.coordinates| == Max(|coordinates|, |v.coordinates|)
      ensures forall i :: 0 <= i < Min(|coordinates|, |v.coordinates|) ==>
        res.coordinates[i] == coordinates[i] + v.coordinates[i]
      ensures forall i :: |v.coordinates| <= i < |coordinates| ==> res.coordinates[i] == coordinates[i]
      ensures forall i :: |coordinates| <= i < |v.coordinates| ==> res.coordinates[i] == v.coordinates[i]
    {
      var u := coordinates;
      var w := v.coordinates;
      var r: seq<int> := [];
      if |w| >= |u| {
        for i := 0 to |u|
          invariant r == ZipSum(u, w)[..i]
        {
          r := r + [u[i] + w[i]];
        }
        for i := |u| to |w|
          invariant r == ZipSum(u, w)[..i]
        {
          r := r + [w[i]];
        }
        assert r == ZipSum(u, w)[..|w|];
      } else {
        for i := 0 to |w|
          invariant r == ZipSum(u, w)[..i]
        {
          r := r + [u[i] + w[i]];
        }
        for i := |w| to |u|
          invariant r == ZipSum(u, w)[..i]
        {
          r := r + [u[i]];
        }
        assert r == ZipSum(u, w)[..|u|];
      }
      res := Vector(r);
    }

    /** `* scalar`: every coordinate multiplied, the length kept. */
    method Scale(scalar: int) returns (res: Vector)
      ensures res.coordinates == Scaled(coordinates, scalar)
    {
      var u := coordinates;
      var r: seq<int> := [];
      for i := 0 to |u|
        invariant r == Scaled(u, scalar)[..i]
      {
        r := r + [u[i] * scalar];
      }
      assert r == Scaled(u, scalar)[..|u|];
      res := Vector(r);
    }

    /** `-`: adding the other vector scaled by -1. */
    method Sub(v: Vector) returns (res: Vector)
      ensures res.coordinates == ZipSum(coordinates, Scaled(v.coordinates, -1))
    {
      var negated := v.Scale(-1);
      res := Add(negated);
    }
  }

  /** The scalar product is symmetric. */
  lemma {:induction false} DotPrefixCommutes(u: seq<int>, v: seq<int>, n: int)
    requires 0 <= n <= |u| && n <= |v|
    ensures DotPrefix(u, v, n) == DotPrefix(v, u, n)
  {
    if n > 0 {
      DotPrefixCommutes(u, v, n - 1);
    }
  }

  lemma DotCommutes(u: seq<int>, v: seq<int>)
    ensures Dot(u, v) == Dot(v, u)
  {
    DotPrefixCommutes(u, v, Min(|u|, |v|));
  }

  /** The sum of At(u, i) * At(v, i) over 0 <= i < n. */
  function PaddedDot(u: seq<int>, v: seq<int>, n: int): int
    decreases n
  {
    if n <= 0 then 0 else PaddedDot(u, v, n - 1) + At(u, n - 1) * At(v, n - 1)
  }

  /** Only the common length counts: the scalar product is that of the zero-padded vectors. */
  lemma {:induction false} DotPadded(u: seq<int>, v: seq<int>, n: int)
    requires Min(|u|, |v|) <= n
    ensures Dot(u, v) == PaddedDot(u, v, n)
    decreases n
  {
    if n > Min(|u|, |v|) {
      DotPadded(u, v, n - 1);
      assert At(u, n - 1) == 0 || At(v, n - 1) == 0;
    } else {
      PaddedDotPrefix(u, v, n);
    }
  }

  /** Within the common length the padded sum is the plain one. */
  lemma {:induction false} PaddedDotPrefix(u: seq<int>, v: seq<int>, n: int)
    requires 0 <= n <= |u| && n <= |v|
    ensures PaddedDot(u, v, n) == DotPrefix(u, v, n)
  {
    if n > 0 {
      PaddedDotPrefix(u, v, n - 1);
    }
  }

  /** Scaling one vector scales the scalar product. */
  lemma {:induction false} DotPrefixScaled(u: seq<int>, s: int, v: seq<int>, n: int)
    requires 0 <= n <= |u| && n <= |v|
    ensures DotPrefix(Scaled(u, s), v, n) == s * DotPrefix(u, v, n)
  {
    if n > 0 {
      DotPrefixScaled(u, s, v, n - 1);
      var a := u[n - 1];
      var b := v[n - 1];
      assert Scaled(u, s)[n - 1] * b == s * (a * b);
      assert s * DotPrefix(u, v, n) == s * DotPrefix(u, v, n - 1) + s * (a * b);
    }
  }

  lemma DotScaled(u: seq<int>, s: int, v: seq<int>)
    ensures Dot(Scaled(u, s), v) == s * Dot(u, v)
  {
    DotPrefixScaled(u, s, v, Min(|u|, |v|));
  }

  /** Vector addition commutes, is associative and has the empty vector as identity. */
  lemma ZipSumLaws(u: seq<int>, v: seq<int>, w: seq<int>)
    ensures ZipSum(u, v) == ZipSum(v, u)
    ensures ZipSum(ZipSum(u, v), w) == ZipSum(u, ZipSum(v, w))
    ensures ZipSum(u, []) == u
  {
    var l := ZipSum(ZipSum(u, v), w);
    var r := ZipSum(u, ZipSum(v, w));
    assert |l| == |r|;
    forall i | 0 <= i < |l|
      ensures l[i] == r[i]
    {
      assert At(ZipSum(u, v), i) == At(u, i) + At(v, i);
      assert At(ZipSum(v, w), i) == At(v, i) + At(w, i);
    }
  }

  /** Subtraction: the longer length, with At(u, i) - At(v, i) everywhere; u - u is all zeros. */
  lemma SubPointwise(u: seq<int>, v: seq<int>)
    ensures var d := ZipSum(u, Scaled(v, -1));
      |d| == Max(|u|, |v|) && forall i :: 0 <= i < |d| ==> d[i] == At(u, i) - At(v, i)
    ensures forall i :: 0 <= i < |u| ==> ZipSum(u, Scaled(u, -1))[i] == 0
  {
    var d := ZipSum(u, Scaled(v, -1));
    forall i | 0 <= i < |d|
      ensures d[i] == At(u, i) - At(v, i)
    {
      assert At(Scaled(v, -1), i) == -At(v, i);
    }
  }

  /** The vector examples of the exercise's test suite: [1, 1] . [3, 4, 5] = 7, [1, 1] + [3, 4, 5] = [4, 5, 5], [3, 4, 5] - [1, 1] = [2, 3, 5], [1, 1] * 2 = [2, 2]. */
  lemma VectorSamples()
    ensures Dot([1, 1], [3, 4, 5]) == 7
    ensures ZipSum([1, 1], [3, 4, 5]) == [4, 5, 5]
    ensures ZipSum([3, 4, 5], Scaled([1, 1], -1)) == [2, 3, 5]
    ensures Scaled([1, 1], 2) == [2, 2]
  {
    assert DotPrefix([1, 1], [3, 4, 5], 1) == 3;
    assert Scaled([1, 1], -1) == [-1, -1];
  }

  // ---------------------------------------------------------------------
  // Matrices
  // ---------------------------------------------------------------------

  /** The exceptions the matrix operations raise. */
  datatype MatrixError = ValueError(message: string) | IndexError

  const SAME_DIMENSIONS := "Matrices must have the same dimensions"

  /** Rows 0..rows-1 exist and each has at least `cols` entries, so `m[i][j]` is defined below them. */
  predicate Covers(m: seq<seq<int>>, rows: int, cols: int)
  {
    0 <= rows <= |m| && forall i :: 0 <= i < rows ==> cols <= |m[i]|
  }

  /** A rectangular matrix of the given dimensions. */
  predicate Rect(m: seq<seq<int>>, rows: int, cols: int)
  {
    |m| == rows && forall i :: 0 <= i < rows ==> |m[i]| == cols
  }

  /** Column j of the first n rows. */
  function Column(m: seq<seq<int>>, j: int, n: int): (c: seq<int>)
    requires Covers(m, n, j + 1) && 0 <= j
  {
    seq(n, r requires 0 <= r < n => m[r][j])
  }

  /** The entrywise sum over the given dimensions. */
  function EntrySum(a: seq<seq<int>>, b: seq<seq<int>>, rows: int, cols: int): seq<seq<int>>
    requires Covers(a, rows, cols) && Covers(b, rows, cols) && cols >= 0
  {
    seq(rows, i requires 0 <= i < rows => seq(cols, j requires 0 <= j < cols => a[i][j] + b[i][j]))
  }

  /** The product: entry (i, j) sums m1[i][r] * m2[r][j] over r < n, from left to right. */
  function Product(m1: seq<seq<int>>, m2: seq<seq<int>>, rows: int, n: int, cols: int): seq<seq<int>>
    requires Covers(m1, rows, n) && Covers(m2, n, cols) && cols >= 0
  {
    seq(rows, i requires 0 <= i < rows =>
      seq(cols, j requires 0 <= j < cols => DotPrefix(m1[i], Column(m2, j, n), n)))
  }

  /**
   * `c` is `a + k * b` entrywise, with as many rows as `a` and as many
   * columns as the first row of `a`; every entry it reads exists.
   */
  predicate Combined(a: seq<seq<int>>, b: seq<seq<int>>, k: int, c: seq<seq<int>>)
  {
    |c| == |a|
    && (|a| > 0 ==>
          Covers(a, |a|, |a[0]|) && (|a[0]| > 0 ==> Covers(b, |a|, |a[0]|))
          && forall i :: 0 <= i < |a| ==>
               |c[i]| == |a[0]| && forall j :: 0 <= j < |a[0]| ==> c[i][j] == a[i][j] + k * b[i][j])
  }

  /**
   * `c` is the row-by-column product of `m1` and `m2`: as many rows as `m1`,
   * as many columns as the first row of `m2`, and entry (i, j) the scalar
   * product of row i of `m1` with column j of `m2` over the first row length
   * of `m1`.
   */
  predicate ProductOf(m1: seq<seq<int>>, m2: seq<seq<int>>, c: seq<seq<int>>)
  {
    |c| == |m1| && |m2| > 0
    && forall i :: 0 <= i < |m1| ==>
         |c[i]| == |m2[0]|
         && (|m2[0]| > 0 ==>
               Covers(m1, |m1|, |m1[0]|) && Covers(m2, |m1[0]|, |m2[0]|)
               && forall j :: 0 <= j < |m2[0]| ==> c[i][j] == DotPrefix(m1[i], Column(m2, j, |m1[0]|), |m1[0]|))
  }

  /** A matrix: its list of rows. */
  datatype Matrix = Matrix(elements: seq<seq<int>>)
  {
    /**
     * `+` as written: ValueError only when the row counts AND the first-row
     * lengths differ; the comprehension then runs over this matrix's
     * dimensions, and a missing entry raises IndexError.
     */
    function AddAsWritten(m: Matrix): (r: Result<Matrix, MatrixError>)
      ensures r == Err(ValueError(SAME_DIMENSIONS)) <==>
        |elements| != |m.elements| && |elements| > 0 && |m.elements| > 0 && |elements[0]| != |m.elements[0]|
      ensures r.Err? ==> r.error == ValueError(SAME_DIMENSIONS) || r.error == IndexError
      ensures |elements| == 0 && |m.elements| == 0 ==> r == Ok(Matrix([]))
      ensures r.Ok? <==>
        (|elements| == 0 && |m.elements| == 0)
        || (|elements| > 0 && |m.elements| > 0 && (|elements| == |m.elements| || |elements[0]| == |m.elements[0]|)
            && Covers(elements, |elements|, |elements[0]|)
            && (|elements[0]| == 0 || Covers(m.elements, |elements|, |elements[0]|)))
      ensures r.Ok? ==> Combined(elements, m.elements, 1, r.value.elements)
    {
      var a := elements;
      var b := m.elements;
      if |a| != |b| && (|a| == 0 || |b| == 0) then Err(IndexError)
      else if |a| != |b| && |a[0]| != |b[0]| then Err(ValueError(SAME_DIMENSIONS))
      else if |a| == 0 then Ok(Matrix([]))
      else if |a[0]| == 0 then Ok(Matrix(seq(|a|, i => [])))
      else if !(Covers(a, |a|, |a[0]|) && Covers(b, |a|, |a[0]|)) then Err(IndexError)
      else Ok(Matrix(EntrySum(a, b, |a|, |a[0]|)))
    }

    /** `+` with the dimension check joined by `or`: ValueError when either dimension differs. */
    function Add(m: Matrix): (r: Result<Matrix, MatrixError>)
      ensures r == Err(ValueError(SAME_DIMENSIONS)) <==>
        |elements| != |m.elements| || (|elements| > 0 && |elements[0]| != |m.elements[0]|)
      ensures r.Err? ==> r.error == ValueError(SAME_DIMENSIONS) || r.error == IndexError
      ensures |elements| == 0 && |m.elements| == 0 ==> r == Err(IndexError)
      ensures r.Ok? <==>
        |elements| == |m.elements| && |elements| > 0 && |elements[0]| == |m.elements[0]|
        && Covers(elements, |elements|, |elements[0]|) && Covers(m.elements, |elements|, |elements[0]|)
      ensures r.Ok? ==>
        |elements| == |m.elements| && |elements| > 0 && |elements[0]| == |m.elements[0]|
        && Combined(elements, m.elements, 1, r.value.elements)
    {
      var a := elements;
      var b := m.elements;
      if |a| != |b| then Err(ValueError(SAME_DIMENSIONS))
      else if |a| == 0 then Err(IndexError)
      else if |a[0]| != |b[0]| then Err(ValueError(SAME_DIMENSIONS))
      else if !(Covers(a, |a|, |a[0]|) && Covers(b, |a|, |a[0]|)) then Err(IndexError)
      else Ok(Matrix(EntrySum(a, b, |a|, |a[0]|)))
    }

    /**
     * `multiplication` as written: ValueError when the row count of the
     * first matrix differs from the column count of the second; the sums run
     * over the first matrix's column count.
     */
    function MultiplicationAsWritten(m: Matrix): (r: Result<Matrix, MatrixError>)
      ensures r == Err(ValueError(SAME_DIMENSIONS)) <==> |m.elements| > 0 && |elements| != |m.elements[0]|
      ensures r.Err? ==> r.error == ValueError(SAME_DIMENSIONS) || r.error == IndexError
      ensures |m.elements| == 0 ==> r == Err(IndexError)
      ensures r.Ok? <==>
        |m.elements| > 0 && |elements| == |m.elements[0]|
        && (|m.elements[0]| == 0
            || (Covers(elements, |elements|, |elements[0]|) && Covers(m.elements, |elements[0]|, |m.elements[0]|)))
      ensures r.Ok? ==> |elements| == |m.elements[0]| && ProductOf(elements, m.elements, r.value.elements)
    {
      var m1 := elements;
      var m2 := m.elements;
      if |m2| == 0 then Err(IndexError)
      else if |m1| != |m2[0]| then Err(ValueError(SAME_DIMENSIONS))
      else if |m2[0]| == 0 then Ok(Matrix(seq(|m1|, i => [])))
      else if !(Covers(m1, |m1|, |m1[0]|) && Covers(m2, |m1[0]|, |m2[0]|)) then Err(IndexError)
      else Ok(Matrix(Product(m1, m2, |m1|, |m1[0]|, |m2[0]|)))
    }

    /** `multiplication` checking that the first matrix's column count is the second's row count. */
    function Multiplication(m: Matrix): (r: Result<Matrix, MatrixError>)
      ensures r == Err(ValueError(SAME_DIMENSIONS)) <==> |elements| > 0 && |elements[0]| != |m.elements|
      ensures r.Err? ==> r.error == ValueError(SAME_DIMENSIONS) || r.error == IndexError
      ensures |elements| == 0 ==> r == Err(IndexError)
      ensures r.Ok? <==>
        |elements| > 0 && |elements[0]| == |m.elements| && |m.elements| > 0
        && (|m.elements[0]| == 0
            || (Covers(elements, |elements|, |elements[0]|) && Covers(m.elements, |elements[0]|, |m.elements[0]|)))
      ensures r.Ok? ==> |elements| > 0 && |elements[0]| == |m.elements| && ProductOf(elements, m.elements, r.value.elements)
    {
      var m1 := elements;
      var m2 := m.elements;
      if |m1| == 0 then Err(IndexError)
      else if |m1[0]| != |m2| then Err(ValueError(SAME_DIMENSIONS))
      else if |m2| == 0 then Err(IndexError)
      else if |m2[0]| == 0 then Ok(Matrix(seq(|m1|, i => [])))
      else if !(Covers(m1, |m1|, |m1[0]|) && Covers(m2, |m1[0]|, |m2[0]|)) then Err(IndexError)
      else Ok(Matrix(Product(m1, m2, |m1|, |m1[0]|, |m2[0]|)))
    }

    /** `* scalar`: every entry over the first row's length multiplied. */
    function Scale(scalar: int): (r: Result<Matrix, MatrixError>)
      ensures r.Err? <==> |elements| > 0 && !Covers(elements, |elements|, |elements[0]|)
      ensures r.Err? ==> r.error == IndexError
      ensures r.Ok? ==>
        var c := r.value.elements;
        |c| == |elements|
        && forall i :: 0 <= i < |elements| ==>
             |c[i]| == |elements[0]| && forall j :: 0 <= j < |elements[0]| ==> c[i][j] == elements[i][j] * scalar
    {
      var a := elements;
      if |a| == 0 then Ok(Matrix([]))
      else if !Covers(a, |a|, |a[0]|) then Err(IndexError)
      else Ok(Matrix(seq(|a|, i requires 0 <= i < |a| => seq(|a[0]|, j requires 0 <= j < |a[0]| => a[i][j] * scalar))))
    }

    /** `transpose`: row j of the result is column j; the first row's length is read first. */
    function Transpose(): (r: Result<Matrix, MatrixError>)
      ensures r.Err? <==> |elements| == 0 || !Covers(elements, |elements|, |elements[0]|)
      ensures r.Err? ==> r.error == IndexError
      ensures r.Ok? ==>
        var t := r.value.elements;
        |t| == |elements[0]|
        && forall j :: 0 <= j < |elements[0]| ==>
             |t[j]| == |elements| && forall i :: 0 <= i < |elements| ==> t[j][i] == elements[i][j]
    {
      var a := elements;
      if |a| == 0 then Err(IndexError)
      else if !Covers(a, |a|, |a[0]|) then Err(IndexError)
      else Ok(Matrix(seq(|a[0]|, j requires 0 <= j < |a[0]| => seq(|a|, i requires 0 <= i < |a| => a[i][j]))))
    }

    /**
     * `-` as written: the other matrix is scaled by -1 first, then added
     * with the `+` as written, so it inherits that `+`'s `and` check.
     */
    function SubAsWritten(m: Matrix): (r: Result<Matrix, MatrixError>)
      ensures r == Err(ValueError(SAME_DIMENSIONS)) <==>
        (|m.elements| == 0 || Covers(m.elements, |m.elements|, |m.elements[0]|))
        && |elements| != |m.elements| && |elements| > 0 && |m.elements| > 0 && |elements[0]| != |m.elements[0]|
      ensures r.Err? ==> r.error == ValueError(SAME_DIMENSIONS) || r.error == IndexError
      ensures |elements| == 0 && |m.elements| == 0 ==> r == Ok(Matrix([]))
      ensures r.Ok? <==>
        (|elements| == 0 && |m.elements| == 0)
        || (|elements| > 0 && |m.elements| > 0 && Covers(m.elements, |m.elements|, |m.elements[0]|)
            && (|elements| == |m.elements| || |elements[0]| == |m.elements[0]|)
            && Covers(elements, |elements|, |elements[0]|)
            && (|elements[0]| == 0 || (|elements| <= |m.elements| && |elements[0]| <= |m.elements[0]|)))
      ensures r.Ok? ==> Combined(elements, m.elements, -1, r.value.elements)
    {
      match m.Scale(-1)
      case Err(e) => Err(e)
      case Ok(negated) => AddAsWritten(negated)
    }

    /** `-` built on the corrected `+`: the other matrix is scaled by -1 first, then added. */
    function Sub(m: Matrix): (r: Result<Matrix, MatrixError>)
      ensures r == Err(ValueError(SAME_DIMENSIONS)) <==>
        (|m.elements| == 0 || Covers(m.elements, |m.elements|, |m.elements[0]|))
        && (|elements| != |m.elements| || (|elements| > 0 && |elements[0]| != |m.elements[0]|))
      ensures r.Err? ==> r.error == ValueError(SAME_DIMENSIONS) || r.error == IndexError
      ensures r.Ok? <==>
        |elements| == |m.elements| && |elements| > 0 && |elements[0]| == |m.elements[0]|
        && Covers(elements, |elements|, |elements[0]|) && Covers(m.elements, |m.elements|, |m.elements[0]|)
      ensures r.Ok? ==>
        |elements| == |m.elements| && |elements| > 0 && |elements[0]| == |m.elements[0]|
        && Combined(elements, m.elements, -1, r.value.elements)
    {
      match m.Scale(-1)
      case Err(e) => Err(e)
      case Ok(negated) => Add(negated)
    }
  }

  /** Two lists of rows with the same lengths and the same entries are equal. */
  lemma RowsEqual(x: seq<seq<int>>, y: seq<seq<int>>)
    requires |x| == |y|
    requires forall i :: 0 <= i < |x| ==> |x[i]| == |y[i]| && forall j :: 0 <= j < |x[i]| ==> x[i][j] == y[i][j]
    ensures x == y
  {
    forall i | 0 <= i < |x|
      ensures x[i] == y[i]
    {
    }
  }

  /**
   * For non-empty rectangular matrices the corrected `+` raises ValueError
   * exactly when the dimensions differ, and otherwise adds entrywise. It commutes.
   */
  lemma AddRect(a: seq<seq<int>>, p: int, q: int, b: seq<seq<int>>, p2: int, q2: int)
    requires Rect(a, p, q) && Rect(b, p2, q2) && p >= 1 && p2 >= 1
    ensures Matrix(a).Add(Matrix(b)).Err? <==> p != p2 || q != q2
    ensures Matrix(a).Add(Matrix(b)).Err? ==> Matrix(a).Add(Matrix(b)).error == ValueError(SAME_DIMENSIONS)
    ensures Matrix(a).Add(Matrix(b)).Ok? ==>
      var c := Matrix(a).Add(Matrix(b)).value.elements;
      Rect(c, p, q) && (forall i, j :: 0 <= i < p && 0 <= j < q ==> c[i][j] == a[i][j] + b[i][j])
      && Matrix(b).Add(Matrix(a)) == Ok(Matrix(c))
  {
    assert |a[0]| == q && |b[0]| == q2;
    if p == p2 && q == q2 {
      RowsEqual(EntrySum(b, a, p, q), EntrySum(a, b, p, q));
    }
  }

  /**
   * For non-empty rectangular matrices `+` as written raises ValueError only
   * when both dimensions differ; equal row counts with different row
   * lengths raise IndexError or give a result of this matrix's shape.
   */
  lemma AddAsWrittenRect(a: seq<seq<int>>, p: int, q: int, b: seq<seq<int>>, p2: int, q2: int)
    requires Rect(a, p, q) && Rect(b, p2, q2) && p >= 1 && p2 >= 1
    ensures Matrix(a).AddAsWritten(Matrix(b)) == Err(ValueError(SAME_DIMENSIONS)) <==> p != p2 && q != q2
    ensures Matrix(a).AddAsWritten(Matrix(b)).Ok? <==> (p == p2 || q == q2) && (q == 0 || p <= p2) && q <= q2
  {
    assert |a[0]| == q && |b[0]| == q2;
  }

  /**
   * With an empty first row no entry is read: as written, two empty rows plus
   * one empty row is two empty rows, and so is their difference.
   */
  lemma ZeroWidthAsWritten()
    ensures Matrix([[], []]).AddAsWritten(Matrix([[]])) == Ok(Matrix([[], []]))
    ensures Matrix([[], []]).SubAsWritten(Matrix([[]])) == Ok(Matrix([[], []]))
  {
    var empty: seq<seq<int>> := [[], []];
    assert seq(2, i => []) == empty;
    var one: seq<seq<int>> := [[]];
    assert Covers(one, 1, 0);
    RowsEqual(Matrix(one).Scale(-1).value.elements, one);
  }

  /** A counterexample to `+` as written: a 2x3 and a 3x3 matrix are added although their dimensions differ. */
  lemma AddAsWrittenMismatch()
    ensures Matrix([[1, 1, 1], [1, 1, 1]]).AddAsWritten(Matrix([[1, 1, 1], [1, 1, 1], [1, 1, 1]]))
      == Ok(Matrix([[2, 2, 2], [2, 2, 2]]))
    ensures Matrix([[1, 1, 1], [1, 1, 1]]).Add(Matrix([[1, 1, 1], [1, 1, 1], [1, 1, 1]]))
      == Err(ValueError(SAME_DIMENSIONS))
  {
    var a := [[1, 1, 1], [1, 1, 1]];
    var b := [[1, 1, 1], [1, 1, 1], [1, 1, 1]];
    assert Covers(a, 2, 3) && Covers(b, 2, 3);
    RowsEqual(EntrySum(a, b, 2, 3), [[2, 2, 2], [2, 2, 2]]);
  }

  /** As written, a 2x3 minus a 3x3 matrix gives a 2x3 result; built on the corrected `+` it raises ValueError. */
  lemma SubAsWrittenMismatch()
    ensures Matrix([[1, 1, 1], [1, 1, 1]]).SubAsWritten(Matrix([[1, 1, 1], [1, 1, 1], [1, 1, 1]]))
      == Ok(Matrix([[0, 0, 0], [0, 0, 0]]))
    ensures Matrix([[1, 1, 1], [1, 1, 1]]).Sub(Matrix([[1, 1, 1], [1, 1, 1], [1, 1, 1]]))
      == Err(ValueError(SAME_DIMENSIONS))
  {
    var a := [[1, 1, 1], [1, 1, 1]];
    var b := [[1, 1, 1], [1, 1, 1], [1, 1, 1]];
    var neg := [[-1, -1, -1], [-1, -1, -1], [-1, -1, -1]];
    assert Covers(b, 3, 3);
    RowsEqual(Matrix(b).Scale(-1).value.elements, neg);
    assert Covers(a, 2, 3) && Covers(neg, 2, 3);
    RowsEqual(EntrySum(a, neg, 2, 3), [[0, 0, 0], [0, 0, 0]]);
  }

  /**
   * For non-empty rectangular matrices the corrected product raises
   * ValueError exactly when the inner dimensions differ; otherwise entry
   * (i, j) is the scalar product of row i and column j.
   */
  lemma MultiplicationRect(m1: seq<seq<int>>, p: int, n: int, m2: seq<seq<int>>, n2: int, q: int)
    requires Rect(m1, p, n) && Rect(m2, n2, q) && p >= 1 && n2 >= 1
    ensures Matrix(m1).Multiplication(Matrix(m2)).Err? <==> n != n2
    ensures Matrix(m1).Multiplication(Matrix(m2)).Err? ==>
      Matrix(m1).Multiplication(Matrix(m2)).error == ValueError(SAME_DIMENSIONS)
    ensures Matrix(m1).Multiplication(Matrix(m2)).Ok? ==>
      var c := Matrix(m1).Multiplication(Matrix(m2)).value.elements;
      Rect(c, p, q) && forall i, j :: 0 <= i < p && 0 <= j < q ==> c[i][j] == Dot(m1[i], Column(m2, j, n))
  {
    assert |m1[0]| == n && |m2[0]| == q;
    if n == n2 && q >= 1 {
      var c := Matrix(m1).Multiplication(Matrix(m2)).value.elements;
      forall i, j | 0 <= i < p && 0 <= j < q
        ensures c[i][j] == Dot(m1[i], Column(m2, j, n))
      {
        assert |Column(m2, j, n)| == n;
      }
    }
  }

  /**
   * For non-empty rectangular matrices the product as written raises
   * ValueError when the row count of the first differs from the column
   * count of the second, whatever the inner dimensions.
   */
  lemma MultiplicationAsWrittenRect(m1: seq<seq<int>>, p: int, n: int, m2: seq<seq<int>>, n2: int, q: int)
    requires Rect(m1, p, n) && Rect(m2, n2, q) && p >= 1 && n2 >= 1
    ensures Matrix(m1).MultiplicationAsWritten(Matrix(m2)) == Err(ValueError(SAME_DIMENSIONS)) <==> p != q
  {
    assert |m2[0]| == q;
    if p == q {
      assert |m1[0]| == n;
    }
  }

  /**
   * A counterexample to the product as written: a 1x2 times a 2x3 matrix is
   * rejected though the product is defined; the corrected product computes it.
   */
  lemma MultiplicationAsWrittenRejects()
    ensures Matrix([[1, 2]]).MultiplicationAsWritten(Matrix([[1, 0, 0], [0, 1, 0]])) == Err(ValueError(SAME_DIMENSIONS))
    ensures Matrix([[1, 2]]).Multiplication(Matrix([[1, 0, 0], [0, 1, 0]])) == Ok(Matrix([[1, 2, 0]]))
  {
    var a := [[1, 2]];
    var b := [[1, 0, 0], [0, 1, 0]];
    assert Covers(a, 1, 2) && Covers(b, 2, 3);
    assert Column(b, 0, 2) == [1, 0] && Column(b, 1, 2) == [0, 1] && Column(b, 2, 2) == [0, 0];
    assert DotPrefix([1, 2], [1, 0], 2) == 1 && DotPrefix([1, 2], [0, 1], 2) == 2 && DotPrefix([1, 2], [0, 0], 2) == 0;
    RowsEqual(Product(a, b, 1, 2, 3), [[1, 2, 0]]);
  }

  /**
   * A counterexample to the product as written: a 2x2 times a 3x2 matrix is
   * accepted though the product is undefined, the third row being ignored;
   * the corrected product raises ValueError.
   */
  lemma MultiplicationAsWrittenAccepts()
    ensures Matrix([[1, 1], [1, 1]]).MultiplicationAsWritten(Matrix([[1, 1], [1, 1], [1, 1]])) == Ok(Matrix([[2, 2], [2, 2]]))
    ensures Matrix([[1, 1], [1, 1]]).Multiplication(Matrix([[1, 1], [1, 1], [1, 1]])) == Err(ValueError(SAME_DIMENSIONS))
  {
    var c := [[1, 1], [1, 1]];
    var d := [[1, 1], [1, 1], [1, 1]];
    assert Covers(c, 2, 2) && Covers(d, 2, 2);
    assert Column(d, 0, 2) == [1, 1] && Column(d, 1, 2) == [1, 1];
    assert DotPrefix([1, 1], [1, 1], 2) == 2;
    RowsEqual(Product(c, d, 2, 2, 2), [[2, 2], [2, 2]]);
  }

  /** Scaling keeps the shape of a rectangular matrix and scales every entry. */
  lemma ScaleRect(a: seq<seq<int>>, p: int, q: int, s: int)
    requires Rect(a, p, q)
    ensures Matrix(a).Scale(s).Ok?
    ensures var c := Matrix(a).Scale(s).value.elements;
      Rect(c, p, q) && forall i, j :: 0 <= i < p && 0 <= j < q ==> c[i][j] == a[i][j] * s
  {
  }

  /**
   * Transposing a non-empty rectangular p x q matrix gives the q x p matrix
   * with entry (j, i) equal to entry (i, j); with q >= 1, transposing twice
   * gives the matrix back.
   */
  lemma TransposeRect(a: seq<seq<int>>, p: int, q: int)
    requires Rect(a, p, q) && p >= 1
    ensures Matrix(a).Transpose().Ok?
    ensures var t := Matrix(a).Transpose().value.elements;
      Rect(t, q, p) && forall i, j :: 0 <= i < p && 0 <= j < q ==> t[j][i] == a[i][j]
    ensures q >= 1 ==> Matrix(a).Transpose().value.Transpose() == Ok(Matrix(a))
  {
    var t := Matrix(a).Transpose().value.elements;
    assert |a[0]| == q;
    if q >= 1 {
      assert |t[0]| == p;
      var tt := Matrix(t).Transpose().value.elements;
      RowsEqual(tt, a);
    }
  }

  /** For rectangular matrices of equal dimensions `-` subtracts entrywise. */
  lemma SubRect(a: seq<seq<int>>, b: seq<seq<int>>, p: int, q: int)
    requires Rect(a, p, q) && Rect(b, p, q) && p >= 1
    ensures Matrix(a).Sub(Matrix(b)).Ok?
    ensures var c := Matrix(a).Sub(Matrix(b)).value.elements;
      Rect(c, p, q) && forall i, j :: 0 <= i < p && 0 <= j < q ==> c[i][j] == a[i][j] - b[i][j]
  {
    ScaleRect(b, p, q, -1);
    var n := Matrix(b).Scale(-1).value.elements;
    AddRect(a, p, q, n, p, q);
  }

  /** The product example of the exercise's test suite. */
  lemma ProductSample()
    ensures Matrix([[1, 1, 1], [1, 1, 1]]).Multiplication(Matrix([[2, 3], [4, 5], [6, 7]])) == Ok(Matrix([[12, 15], [12, 15]]))
    ensures Matrix([[1, 1, 1], [1, 1, 1]]).MultiplicationAsWritten(Matrix([[2, 3], [4, 5], [6, 7]])) == Ok(Matrix([[12, 15], [12, 15]]))
  {
    var o := [[1, 1, 1], [1, 1, 1]];
    var m := [[2, 3], [4, 5], [6, 7]];
    assert Covers(o, 2, 3) && Covers(m, 3, 2);
    assert Column(m, 0, 3) == [2, 4, 6] && Column(m, 1, 3) == [3, 5, 7];
    assert DotPrefix([1, 1, 1], [2, 4, 6], 3) == 12 && DotPrefix([1, 1, 1], [3, 5, 7], 3) == 15;
    RowsEqual(Product(o, m, 2, 3, 2), [[12, 15], [12, 15]]);
  }

  /** The sum and difference examples of the exercise's test suite. */
  lemma AddSubSamples()
    ensures Matrix([[1, 1, 1], [1, 1, 1]]).Add(Matrix([[2, 3, 1], [4, 5, 2]])) == Ok(Matrix([[3, 4, 2], [5, 6, 3]]))
    ensures Matrix([[2, 3, 1], [4, 5, 2]]).Sub(Matrix([[1, 1, 1], [1, 1, 1]])) == Ok(Matrix([[1, 2, 0], [3, 4, 1]]))
    ensures Matrix([[1, 1, 1], [1, 1, 1]]).AddAsWritten(Matrix([[2, 3, 1], [4, 5, 2]])) == Ok(Matrix([[3, 4, 2], [5, 6, 3]]))
    ensures Matrix([[1, 1, 1], [1, 1, 1]]).Scale(-1).Ok?
      && Matrix([[2, 3, 1], [4, 5, 2]]).AddAsWritten(Matrix([[1, 1, 1], [1, 1, 1]]).Scale(-1).value) == Ok(Matrix([[1, 2, 0], [3, 4, 1]]))
    ensures Matrix([[2, 3, 1], [4, 5, 2]]).SubAsWritten(Matrix([[1, 1, 1], [1, 1, 1]])) == Ok(Matrix([[1, 2, 0], [3, 4, 1]]))
  {
    var o := [[1, 1, 1], [1, 1, 1]];
    var b := [[2, 3, 1], [4, 5, 2]];
    assert Covers(o, 2, 3) && Covers(b, 2, 3);
    RowsEqual(EntrySum(o, b, 2, 3), [[3, 4, 2], [5, 6, 3]]);
    var neg := [[-1, -1, -1], [-1, -1, -1]];
    RowsEqual(Matrix(o).Scale(-1).value.elements, neg);
    assert Covers(neg, 2, 3);
    RowsEqual(EntrySum(b, neg, 2, 3), [[1, 2, 0], [3, 4, 1]]);
  }

  /** The transpose and scaling examples of the exercise's test suite. */
  lemma TransposeScaleSamples()
    ensures Matrix([[2, 3, 1], [4, 5, 2]]).Transpose() == Ok(Matrix([[2, 4], [3, 5], [1, 2]]))
    ensures Matrix([[2, 3, 1], [4, 5, 2]]).Scale(2) == Ok(Matrix([[4, 6, 2], [8, 10, 4]]))
  {
    var b := [[2, 3, 1], [4, 5, 2]];
    assert Covers(b, 2, 3);
    RowsEqual(Matrix(b).Transpose().value.elements, [[2, 4], [3, 5], [1, 2]]);
    RowsEqual(Matrix(b).Scale(2).value.elements, [[4, 6, 2], [8, 10, 4]]);
  }
}
