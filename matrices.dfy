/**
 * Dense real matrices as row sequences, with the handful of operations the
 * inverse-model formulas use: transpose, scaling, sums, products and the identity.
 * Shapes are explicit: a matrix with no rows still has a column count, so the
 * operations that need one take it as an argument.
 */
module Matrices {

  type Matrix = seq<seq<real>>

  /** `m` has `rows` rows of `cols` entries each. */
  predicate IsMatrix(m: Matrix, rows: nat, cols: nat) {
    |m| == rows && forall i :: 0 <= i < rows ==> |m[i]| == cols
  }

  /** The inner product of two vectors of equal length. */
  function Dot(u: seq<real>, v: seq<real>): real
    requires |u| == |v|
  {
    if |u| == 0 then 0.0 else u[0] * v[0] + Dot(u[1..], v[1..])
  }

  /** Column `j` of a matrix with `cols` columns. */
  function Column(m: Matrix, cols: nat, j: nat): (col: seq<real>)
    requires IsMatrix(m, |m|, cols) && j < cols
    ensures |col| == |m|
    ensures forall k :: 0 <= k < |m| ==> col[k] == m[k][j]
  {
    seq(|m|, k requires 0 <= k < |m| => m[k][j])
  }

  /** The transpose of a matrix with `cols` columns. */
  function Transpose(m: Matrix, cols: nat): (t: Matrix)
    requires IsMatrix(m, |m|, cols)
    ensures IsMatrix(t, cols, |m|)
    ensures forall j, i :: 0 <= j < cols && 0 <= i < |m| ==> t[j][i] == m[i][j]
  {
    seq(cols, j requires 0 <= j < cols => Column(m, cols, j))
  }

  /** A vector with every entry multiplied by `k`. */
  function ScaleRow(k: real, u: seq<real>): (v: seq<real>)
    ensures |v| == |u|
    ensures forall j :: 0 <= j < |u| ==> v[j] == k * u[j]
  {
    seq(|u|, j requires 0 <= j < |u| => k * u[j])
  }

  /** Every entry multiplied by `k`; the shape is unchanged. */
  function Scale(k: real, m: Matrix): (s: Matrix)
    ensures |s| == |m|
    ensures forall i :: 0 <= i < |m| ==> s[i] == ScaleRow(k, m[i])
  {
    seq(|m|, i requires 0 <= i < |m| => ScaleRow(k, m[i]))
  }

  /** The entrywise sum of two matrices of the same shape. */
  function Add(a: Matrix, b: Matrix): (s: Matrix)
    requires |a| == |b| && forall i :: 0 <= i < |a| ==> |a[i]| == |b[i]|
    ensures |s| == |a|
    ensures forall i :: 0 <= i < |a| ==> |s[i]| == |a[i]|
    ensures forall i, j :: 0 <= i < |a| && 0 <= j < |a[i]| ==> s[i][j] == a[i][j] + b[i][j]
  {
    seq(|a|, i requires 0 <= i < |a| => seq(|a[i]|, j requires 0 <= j < |a[i]| => a[i][j] + b[i][j]))
  }

  /** The product of `a` (|a| x |b|) and `b` (|b| x cols). */
  function Mul(a: Matrix, b: Matrix, cols: nat): (p: Matrix)
    requires IsMatrix(a, |a|, |b|) && IsMatrix(b, |b|, cols)
    ensures IsMatrix(p, |a|, cols)
    ensures forall i, j :: 0 <= i < |a| && 0 <= j < cols ==> p[i][j] == Dot(a[i], Column(b, cols, j))
  {
    seq(|a|, i requires 0 <= i < |a| => seq(cols, j requires 0 <= j < cols => Dot(a[i], Column(b, cols, j))))
  }

  /** The n x n identity matrix. */
  function Identity(n: nat): (e: Matrix)
    ensures IsMatrix(e, n, n)
    ensures forall i, j :: 0 <= i < n && 0 <= j < n ==> e[i][j] == if i == j then 1.0 else 0.0
  {
    seq(n, i requires 0 <= i < n => seq(n, j requires 0 <= j < n => if i == j then 1.0 else 0.0))
  }

  /**
   * The only thing the model knows of the Moore-Penrose pseudo-inverse: an
   * r x c matrix (r > 0) is mapped to a c x r one.
   */
  ghost predicate PinvShaped(pinv: Matrix -> Matrix) {
    forall m: Matrix, r: nat, c: nat {:trigger pinv(m), IsMatrix(m, r, c)} :: 0 < r && IsMatrix(m, r, c) ==> IsMatrix(pinv(m), c, r)
  }

  /**
   * Homogeneity of degree -1, which the exact Moore-Penrose pseudo-inverse has:
   * pinv(k A) = pinv(A) / k for k != 0.
   */
  ghost predicate PinvHomogeneous(pinv: Matrix -> Matrix) {
    forall k: real, m: Matrix {:trigger pinv(Scale(k, m))} :: k != 0.0 ==> pinv(Scale(k, m)) == Scale(1.0 / k, pinv(m))
  }

  // Algebra used by the inverse-model lemmas.

  /** Transposing twice gives back the matrix. */
  lemma TransposeTwice(m: Matrix, cols: nat)
    requires IsMatrix(m, |m|, cols)
    ensures Transpose(Transpose(m, cols), |m|) == m
  {
    var t := Transpose(Transpose(m, cols), |m|);
    assert |t| == |m|;
    forall i | 0 <= i < |m|
      ensures t[i] == m[i]
    {
      assert |t[i]| == |m[i]|;
    }
  }

  /** A dot product with the zero vector is zero. */
  lemma {:induction false} DotZero(z: seq<real>, u: seq<real>)
    requires |z| == |u|
    requires forall k :: 0 <= k < |z| ==> z[k] == 0.0
    ensures Dot(z, u) == 0.0
  {
    if |z| > 0 {
      DotZero(z[1..], u[1..]);
    }
  }

  /** A dot product with the i-th unit vector selects entry i. */
  lemma {:induction false} DotUnit(e: seq<real>, u: seq<real>, i: nat)
    requires |e| == |u| && i < |e|
    requires forall k :: 0 <= k < |e| ==> e[k] == if k == i then 1.0 else 0.0
    ensures Dot(e, u) == u[i]
  {
    if i == 0 {
      DotZero(e[1..], u[1..]);
    } else {
      DotUnit(e[1..], u[1..], i - 1);
    }
  }

  /** Scaling one factor scales the dot product. */
  lemma {:induction false} DotScale(k: real, u: seq<real>, v: seq<real>)
    requires |u| == |v|
    ensures Dot(ScaleRow(k, u), v) == k * Dot(u, v)
  {
    if |u| > 0 {
      var ku, tail := ScaleRow(k, u), ScaleRow(k, u[1..]);
      forall j | 0 <= j < |tail|
        ensures ku[1..][j] == tail[j]
      {
        assert ku[j + 1] == k * u[j + 1];
      }
      assert ku[1..] == tail;
      DotScale(k, u[1..], v[1..]);
    }
  }

  /** The identity is a left unit of the product. */
  lemma MulIdentityLeft(m: Matrix, cols: nat)
    requires IsMatrix(m, |m|, cols)
    ensures Mul(Identity(|m|), m, cols) == m
  {
    var n := |m|;
    var p := Mul(Identity(n), m, cols);
    forall i | 0 <= i < n
      ensures p[i] == m[i]
    {
      forall j | 0 <= j < cols
        ensures p[i][j] == m[i][j]
      {
        DotUnit(Identity(n)[i], Column(m, cols, j), i);
      }
    }
  }

  /** A scalar factor on the left operand can be taken out of a product. */
  lemma MulScaleLeft(k: real, a: Matrix, b: Matrix, cols: nat)
    requires IsMatrix(a, |a|, |b|) && IsMatrix(b, |b|, cols)
    ensures Mul(Scale(k, a), b, cols) == Scale(k, Mul(a, b, cols))
  {
    var lhs := Mul(Scale(k, a), b, cols);
    var rhs := Scale(k, Mul(a, b, cols));
    forall i | 0 <= i < |a|
      ensures lhs[i] == rhs[i]
    {
      forall j | 0 <= j < cols
        ensures lhs[i][j] == rhs[i][j]
      {
        DotScale(k, a[i], Column(b, cols, j));
      }
    }
  }

  /** Scaling distributes over a sum. */
  lemma ScaleAdd(k: real, a: Matrix, b: Matrix)
    requires |a| == |b| && forall i :: 0 <= i < |a| ==> |a[i]| == |b[i]|
    ensures Scale(k, Add(a, b)) == Add(Scale(k, a), Scale(k, b))
  {
    var lhs := Scale(k, Add(a, b));
    var rhs := Add(Scale(k, a), Scale(k, b));
    forall i | 0 <= i < |a|
      ensures lhs[i] == rhs[i]
    {
      forall j | 0 <= j < |a[i]|
        ensures lhs[i][j] == rhs[i][j]
      {
        assert lhs[i][j] == k * (a[i][j] + b[i][j]);
      }
    }
  }

  /** Scaling twice is scaling by the product of the factors. */
  lemma ScaleScale(k: real, l: real, m: Matrix)
    ensures Scale(k, Scale(l, m)) == Scale(k * l, m)
  {
    var lhs := Scale(k, Scale(l, m));
    var rhs := Scale(k * l, m);
    forall i | 0 <= i < |m|
      ensures lhs[i] == rhs[i]
    {
      forall j | 0 <= j < |m[i]|
        ensures lhs[i][j] == rhs[i][j]
      {
        assert lhs[i][j] == k * (l * m[i][j]);
      }
    }
  }

  /** Scaling by one changes nothing. */
  lemma ScaleOne(m: Matrix)
    ensures Scale(1.0, m) == m
  {
    var s := Scale(1.0, m);
    forall i | 0 <= i < |m|
      ensures s[i] == m[i]
    {
    }
  }
}
