/**
 * Array-like inputs of any rank and their one-dimensional view, as produced by
 * `numpy.reshape(a, -1)`: the scalars of the array in row-major order (the last
 * index varies fastest).
 */
module NdArrays {

  /** A scalar, or a sequence of sub-arrays, one per index along the first axis. */
  datatype NdArray = Scalar(x: real) | Dim(items: seq<NdArray>)

  /**
   * `numpy.reshape(a, -1)`. A scalar becomes a one-element vector, an empty
   * array an empty one, and the first sub-array's elements come first.
   */
  function Flatten(a: NdArray): (r: seq<real>)
    ensures a.Scalar? ==> r == [a.x]
    ensures a.Dim? && a.items == [] ==> r == []
    ensures a.Dim? && a.items != [] ==> Flatten(a.items[0]) <= r
    decreases a, 1
  {
    match a
    case Scalar(x) => [x]
    case Dim(items) => FlattenAll(items)
  }

  /** The flattened sub-arrays, one after the other. */
  function FlattenAll(items: seq<NdArray>): seq<real>
    decreases items, 0
  {
    if items == [] then [] else Flatten(items[0]) + FlattenAll(items[1..])
  }

  /** Two arrays of identical shape (numpy's `a.shape == b.shape`). */
  predicate SameShape(a: NdArray, b: NdArray)
    decreases a
  {
    match a
    case Scalar(_) => b.Scalar?
    case Dim(xs) =>
      b.Dim? && |xs| == |b.items| &&
      forall i :: 0 <= i < |xs| ==> SameShape(xs[i], b.items[i])
  }

  /** A one-dimensional array holding `xs`. */
  function Vector(xs: seq<real>): NdArray
  {
    Dim(seq(|xs|, i requires 0 <= i < |xs| => Scalar(xs[i])))
  }

  /** A two-dimensional array whose rows are `rows`. */
  function Matrix(rows: seq<seq<real>>): NdArray
  {
    Dim(seq(|rows|, i requires 0 <= i < |rows| => Vector(rows[i])))
  }

  /** Arrays of the same shape flatten to sequences of the same length. */
  lemma {:induction false} SameShapeSameLength(a: NdArray, b: NdArray)
    requires SameShape(a, b)
    ensures |Flatten(a)| == |Flatten(b)|
    decreases a, 1
  {
    match a
    case Scalar(_) =>
    case Dim(xs) => SameShapeSameLengthAll(xs, b.items);
  }

  lemma {:induction false} SameShapeSameLengthAll(xs: seq<NdArray>, ys: seq<NdArray>)
    requires |xs| == |ys|
    requires forall i :: 0 <= i < |xs| ==> SameShape(xs[i], ys[i])
    ensures |FlattenAll(xs)| == |FlattenAll(ys)|
    decreases xs, 0
  {
    if xs != [] {
      SameShapeSameLength(xs[0], ys[0]);
      SameShapeSameLengthAll(xs[1..], ys[1..]);
    }
  }

  /**
   * Row-major order at any rank: when every sub-array flattens to `m` scalars,
   * scalar `j` of sub-array `i` sits at position `i * m + j`. Applied level by
   * level, inputs of one shape are aligned sample by sample after flattening.
   */
  lemma FlattenBlock(items: seq<NdArray>, m: nat, i: nat, j: nat)
    requires forall k :: 0 <= k < |items| ==> |Flatten(items[k])| == m
    requires i < |items| && j < m
    ensures i * m + j < |FlattenAll(items)| && FlattenAll(items)[i * m + j] == Flatten(items[i])[j]
  {
    var blocks := Blocks(items);
    FlattenAllConcat(items);
    ConcatAt(blocks, m, i, j, i * m);
  }

  /** The flattening of each sub-array, in order. */
  function Blocks(items: seq<NdArray>): (b: seq<seq<real>>)
    ensures |b| == |items| && forall k :: 0 <= k < |items| ==> b[k] == Flatten(items[k])
  {
    seq(|items|, k requires 0 <= k < |items| => Flatten(items[k]))
  }

  /** Flattening the sub-arrays one after the other is concatenating their blocks. */
  lemma {:induction false} FlattenAllConcat(items: seq<NdArray>)
    ensures FlattenAll(items) == Concat(Blocks(items))
  {
    if items != [] {
      assert Blocks(items)[1..] == Blocks(items[1..]);
      FlattenAllConcat(items[1..]);
    }
  }

  /** Flattening a vector gives back its elements. */
  lemma {:induction false} FlattenVector(xs: seq<real>)
    ensures Flatten(Vector(xs)) == xs
  {
    FlattenScalars(xs);
  }

  lemma {:induction false} FlattenScalars(xs: seq<real>)
    ensures FlattenAll(seq(|xs|, i requires 0 <= i < |xs| => Scalar(xs[i]))) == xs
  {
    var items := seq(|xs|, i requires 0 <= i < |xs| => Scalar(xs[i]));
    if xs != [] {
      assert items[1..] == seq(|xs[1..]|, i requires 0 <= i < |xs[1..]| => Scalar(xs[1..][i]));
      FlattenScalars(xs[1..]);
      assert Flatten(items[0]) == [xs[0]];
    }
  }

  /** The rows of a matrix, concatenated. */
  function Concat(rows: seq<seq<real>>): seq<real>
  {
    if rows == [] then [] else rows[0] + Concat(rows[1..])
  }

  lemma {:induction false} FlattenMatrix(rows: seq<seq<real>>)
    ensures Flatten(Matrix(rows)) == Concat(rows)
  {
    var items := seq(|rows|, i requires 0 <= i < |rows| => Vector(rows[i]));
    if rows != [] {
      assert Matrix(rows[1..]).items == items[1..];
      FlattenMatrix(rows[1..]);
      FlattenVector(rows[0]);
    }
  }

  /**
   * Row-major order: element (r, c) of a matrix with `cols` columns sits at
   * position r * cols + c of the flattened view. Inputs of one shape are
   * therefore aligned sample by sample after flattening.
   */
  lemma {:induction false} FlattenMatrixRowMajor(rows: seq<seq<real>>, cols: nat, r: nat, c: nat)
    requires forall k :: 0 <= k < |rows| ==> |rows[k]| == cols
    requires r < |rows| && c < cols
    ensures |Flatten(Matrix(rows))| == |rows| * cols
    ensures r * cols + c < |Flatten(Matrix(rows))| && Flatten(Matrix(rows))[r * cols + c] == rows[r][c]
  {
    var base := r * cols;
    FlattenMatrix(rows);
    ConcatLength(rows, cols);
    ConcatAt(rows, cols, r, c, base);
  }

  lemma RowMajorBound(n: nat, cols: nat, r: nat, c: nat)
    requires r < n && c < cols
    ensures r * cols + c < n * cols
  {
    assert r * cols + c < (r + 1) * cols;
    assert (r + 1) * cols <= n * cols;
  }

  lemma {:induction false} ConcatAt(rows: seq<seq<real>>, cols: nat, r: nat, c: nat, base: nat)
    requires forall k :: 0 <= k < |rows| ==> |rows[k]| == cols
    requires r < |rows| && c < cols && base == r * cols
    ensures base + c < |Concat(rows)|
    ensures Concat(rows)[base + c] == rows[r][c]
  {
    ConcatLength(rows, cols);
    RowMajorBound(|rows|, cols, r, c);
    if r > 0 {
      assert base - cols == (r - 1) * cols;
      ConcatAt(rows[1..], cols, r - 1, c, base - cols);
    }
  }

  lemma {:induction false} ConcatLength(rows: seq<seq<real>>, cols: nat)
    requires forall k :: 0 <= k < |rows| ==> |rows[k]| == cols
    ensures |Concat(rows)| == |rows| * cols
  {
    if rows != [] {
      ConcatLength(rows[1..], cols);
      assert |rows| * cols == cols + (|rows| - 1) * cols;
    }
  }
}
