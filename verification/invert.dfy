/** Matrix inversion by Gauss-Jordan elimination with partial pivoting (lib/algebra.ts,
    `invert`). The matrix is copied row by row into a 4x8 augmented array [R | I]; each
    column picks the row of largest magnitude as pivot, skips the column when that pivot
    is below machine epsilon, swaps, scales the pivot row and clears the column from the
    other rows. The right half is then read back out, column-major.

    The specification is a chain of pure functions over `Aug` values; `Invert` performs
    the same steps in place on an `array2<real>` and is proved to agree with it. */
module GaussJordan {
  import opened RealMath
  import opened Algebra

  /** `Number.EPSILON`, 2^-52: a pivot smaller than this in magnitude skips its column. */
  const EPSILON: real := 1.0 / 4503599627370496.0

  /** A 4x8 augmented matrix, row by row. */
  type Aug = a: seq<seq<real>> | |a| == 4 && forall r :: 0 <= r < 4 ==> |a[r]| == 8
    witness seq(4, _ => seq(8, _ => 0.0))

  /** [R | I]: row r holds row r of R followed by row r of the identity. */
  function Augment(R: Mat4): Aug
  {
    seq(4, r requires 0 <= r < 4 =>
      seq(8, c requires 0 <= c < 8 => if c < 4 then R[c * 4 + r] else if c == r + 4 then 1.0 else 0.0))
  }

  /** The right half of the augmented matrix, read back as a column-major Mat4. */
  function Right(a: Aug): Mat4
  {
    [a[0][4], a[1][4], a[2][4], a[3][4],
     a[0][5], a[1][5], a[2][5], a[3][5],
     a[0][6], a[1][6], a[2][6], a[3][6],
     a[0][7], a[1][7], a[2][7], a[3][7]]
  }

  /** The pivot scan over rows j..3 of column i, with `pivot` the best row so far; a row
      replaces the pivot only when its magnitude is strictly larger. */
  function PivotFrom(a: Aug, i: nat, j: nat, pivot: nat): nat
    requires i < 4 && pivot < 4 && j <= 4
    decreases 4 - j
  {
    if j == 4 then pivot
    else PivotFrom(a, i, j + 1, if Abs(a[j][i]) > Abs(a[pivot][i]) then j else pivot)
  }

  /** The pivot row of column i: the scan starts at row i. */
  function PivotRow(a: Aug, i: nat): nat
    requires i < 4
  {
    PivotFrom(a, i, i + 1, i)
  }

  /** Rows i and p exchanged, in columns i and beyond only. */
  function Swapped(a: Aug, i: nat, p: nat): Aug
    requires i < 4 && p < 4
  {
    seq(4, r requires 0 <= r < 4 => seq(8, c requires 0 <= c < 8 =>
      if c >= i && r == i then a[p][c] else if c >= i && r == p then a[i][c] else a[r][c]))
  }

  /** Row i divided by its pivot a[i][i], in the columns after i; the pivot itself stays. */
  function Normalized(a: Aug, i: nat): Aug
    requires i < 4 && a[i][i] != 0.0
  {
    seq(4, r requires 0 <= r < 4 => seq(8, c requires 0 <= c < 8 =>
      if r == i && c > i then a[i][c] / a[i][i] else a[r][c]))
  }

  /** Every other row minus row i times that row's entry in column i, in the columns
      after i; column i itself is left as it was. */
  function Eliminated(a: Aug, i: nat): Aug
    requires i < 4
  {
    seq(4, r requires 0 <= r < 4 => seq(8, c requires 0 <= c < 8 =>
      if r != i && c > i then a[r][c] - a[i][c] * a[r][i] else a[r][c]))
  }

  /** One pass of the outer loop, for column i. */
  function Step(a: Aug, i: nat): Aug
    requires i < 4
  {
    var p := PivotRowBounds(a, i);
    if Abs(a[p][i]) < EPSILON then a
    else Eliminated(Normalized(Swapped(a, i, p), i), i)
  }

  /** The first n passes. */
  function Reduce(a: Aug, n: nat): Aug
    requires n <= 4
  {
    if n == 0 then a else Step(Reduce(a, n - 1), n - 1)
  }

  /** What `invert` returns for R. */
  function Inverse(R: Mat4): Mat4
  {
    Right(Reduce(Augment(R), 4))
  }

  // ---------------------------------------------------------------------------
  // The pivot scan

  /** The scan's result is a row in range whose magnitude is the largest of rows i..3, and
      the first such row: every row before it has a strictly smaller magnitude. */
  lemma {:induction false} PivotFromIsFirstMaximum(a: Aug, i: nat, j: nat, pivot: nat)
    requires i < 4 && i <= pivot < j <= 4
    requires forall r :: i <= r < j ==> Abs(a[r][i]) <= Abs(a[pivot][i])
    requires forall r :: i <= r < pivot ==> Abs(a[r][i]) < Abs(a[pivot][i])
    ensures var p := PivotFrom(a, i, j, pivot);
      && i <= p < 4
      && (forall r :: i <= r < 4 ==> Abs(a[r][i]) <= Abs(a[p][i]))
      && (forall r :: i <= r < p ==> Abs(a[r][i]) < Abs(a[p][i]))
    decreases 4 - j
  {
    if j < 4 {
      var next := if Abs(a[j][i]) > Abs(a[pivot][i]) then j else pivot;
      PivotFromIsFirstMaximum(a, i, j + 1, next);
    }
  }

  /** The pivot of column i is the first row among i..3 of largest magnitude. */
  function PivotRowBounds(a: Aug, i: nat): (p: nat)
    requires i < 4
    ensures i <= p < 4
    ensures forall r :: i <= r < 4 ==> Abs(a[r][i]) <= Abs(a[p][i])
    ensures forall r :: i <= r < p ==> Abs(a[r][i]) < Abs(a[p][i])
  {
    PivotFromIsFirstMaximum(a, i, i + 1, i);
    PivotRow(a, i)
  }

  /** A pass over column i writes no column to its left. */
  lemma StepKeepsLeftColumns(a: Aug, i: nat)
    requires i < 4
    ensures forall r, c :: 0 <= r < 4 && 0 <= c < i ==> Step(a, i)[r][c] == a[r][c]
  {
  }

  /** A column whose entries from row i down are all below epsilon in magnitude is skipped:
      the pass changes nothing and raises no error. */
  lemma SmallColumnSkipped(a: Aug, i: nat)
    requires i < 4
    requires forall r :: i <= r < 4 ==> Abs(a[r][i]) < EPSILON
    ensures Step(a, i) == a
  {
  }

  // ---------------------------------------------------------------------------
  // What the elimination computes on diagonal and translation matrices

  /** A pass over a column that is already zero off the diagonal chooses the diagonal entry
      as pivot; it skips the column when that entry is below epsilon, and otherwise only
      divides the rest of the pivot row by it. */
  lemma DiagonalColumnStep(a: Aug, i: nat)
    requires i < 4
    requires forall r :: 0 <= r < 4 && r != i ==> a[r][i] == 0.0
    ensures Abs(a[i][i]) >= EPSILON ==> a[i][i] != 0.0 && Step(a, i) == Normalized(a, i)
    ensures Abs(a[i][i]) < EPSILON ==> Step(a, i) == a
  {
    var p := PivotRowBounds(a, i);
    assert p == i;
    AugEqual(Swapped(a, i, p), a);
    if Abs(a[i][i]) >= EPSILON {
      var n := Normalized(a, i);
      assert forall r :: 0 <= r < 4 && r != i ==> n[r][i] == 0.0;
      AugEqual(Eliminated(n, i), n);
    }
  }

  /** A pass over a column that is already the i-th unit column changes nothing. */
  lemma StepOnUnitColumn(a: Aug, i: nat)
    requires i < 4
    requires a[i][i] == 1.0
    requires forall r :: 0 <= r < 4 && r != i ==> a[r][i] == 0.0
    ensures Step(a, i) == a
  {
    DiagonalColumnStep(a, i);
    AugEqual(Normalized(a, i), a);
  }

  /** The reciprocal the elimination leaves on the diagonal of the right half: 1 / x, or the
      untouched 1 of the identity when the pivot x was skipped as too small. */
  function Recip(x: real): (r: real)
    ensures Abs(x) >= EPSILON ==> x * r == 1.0
    ensures Abs(x) < EPSILON ==> r == 1.0
  {
    if Abs(x) < EPSILON then 1.0 else 1.0 / x
  }

  /** [diag(d) | diag(e)] where e holds the reciprocals of the first k diagonal entries. */
  function DiagonalStage(d: Vec4, k: nat): Aug
  {
    seq(4, r requires 0 <= r < 4 => seq(8, c requires 0 <= c < 8 =>
      if c < 4 then (if c == r then d[r] else 0.0)
      else if c == r + 4 then (if r < k then Recip(d[r]) else 1.0)
      else 0.0))
  }

  lemma DiagonalStageStep(d: Vec4, k: nat)
    requires k < 4
    ensures Step(DiagonalStage(d, k), k) == DiagonalStage(d, k + 1)
  {
    var a := DiagonalStage(d, k);
    assert forall r :: 0 <= r < 4 && r != k ==> a[r][k] == 0.0;
    DiagonalColumnStep(a, k);
    if Abs(d[k]) >= EPSILON {
      DiagonalStageNormalized(d, k);
    } else {
      DiagonalStageSkipped(d, k);
    }
  }

  lemma DiagonalStageNormalized(d: Vec4, k: nat)
    requires k < 4 && Abs(d[k]) >= EPSILON
    ensures DiagonalStage(d, k)[k][k] != 0.0
    ensures Normalized(DiagonalStage(d, k), k) == DiagonalStage(d, k + 1)
  {
    var a := DiagonalStage(d, k);
    var b := DiagonalStage(d, k + 1);
    assert a[k][k] == d[k];
    var n := Normalized(a, k);
    forall r, c | 0 <= r < 4 && 0 <= c < 8 ensures n[r][c] == b[r][c] {
      if r == k && c > k {
        assert n[r][c] == a[k][c] / d[k];
        if c == k + 4 {
          assert a[k][c] == 1.0 && b[k][c] == Recip(d[k]) == 1.0 / d[k];
        } else {
          assert a[k][c] == 0.0 && b[k][c] == 0.0;
        }
      }
    }
    AugEqual(n, b);
  }

  lemma DiagonalStageSkipped(d: Vec4, k: nat)
    requires k < 4 && Abs(d[k]) < EPSILON
    ensures DiagonalStage(d, k) == DiagonalStage(d, k + 1)
  {
    var a := DiagonalStage(d, k);
    var b := DiagonalStage(d, k + 1);
    forall r, c | 0 <= r < 4 && 0 <= c < 8 ensures a[r][c] == b[r][c] {
      if r == k && c == r + 4 {
        assert Recip(d[k]) == 1.0;
      }
    }
    AugEqual(a, b);
  }

  lemma {:induction false} ReduceDiagonal(d: Vec4, k: nat)
    requires k <= 4
    ensures Reduce(DiagonalStage(d, 0), k) == DiagonalStage(d, k)
  {
    if k > 0 {
      ReduceDiagonal(d, k - 1);
      DiagonalStageStep(d, k - 1);
    }
  }

  /** The inverse of a scaling: each factor is replaced by its reciprocal, and a factor below
      epsilon in magnitude is left as the identity's 1 (its column is skipped). */
  lemma InvertZoom(s: Vec3)
    ensures Inverse(Zoom(s)) == Zoom([Recip(s[0]), Recip(s[1]), Recip(s[2])])
  {
    var d: Vec4 := [s[0], s[1], s[2], 1.0];
    AugEqual(Augment(Zoom(s)), DiagonalStage(d, 0));
    ReduceDiagonal(d, 4);
    assert Recip(1.0) == 1.0;
  }

  /** When no scale factor is below epsilon, the computed inverse undoes the scaling. */
  lemma ZoomTimesInverse(s: Vec3)
    requires Abs(s[0]) >= EPSILON && Abs(s[1]) >= EPSILON && Abs(s[2]) >= EPSILON
    ensures Multiply(Zoom(s), Inverse(Zoom(s))) == Identity()
    ensures Multiply(Inverse(Zoom(s)), Zoom(s)) == Identity()
  {
    InvertZoom(s);
    var r: Vec3 := [Recip(s[0]), Recip(s[1]), Recip(s[2])];
    assert s[0] * r[0] == 1.0 && s[1] * r[1] == 1.0 && s[2] * r[2] == 1.0;
    ZoomsCancel(s, r);
    ZoomsCancel(r, s);
  }

  /** Two zooms whose factors multiply to one cancel out. */
  lemma ZoomsCancel(a: Vec3, b: Vec3)
    requires a[0] * b[0] == 1.0 && a[1] * b[1] == 1.0 && a[2] * b[2] == 1.0
    ensures Multiply(Zoom(a), Zoom(b)) == Identity()
  {
    var p := Multiply(Zoom(a), Zoom(b));
    forall k | 0 <= k < 16 ensures p[k] == Identity()[k] {}
  }

  /** The all-zero matrix has every column skipped, and what comes back is the identity
      that the right half started as. */
  lemma InvertZero()
    ensures Inverse(seq(16, _ => 0.0)) == Identity()
  {
    var d: Vec4 := [0.0, 0.0, 0.0, 0.0];
    AugEqual(Augment(seq(16, _ => 0.0)), DiagonalStage(d, 0));
    ReduceDiagonal(d, 4);
  }

  /** The identity is its own computed inverse. */
  lemma InvertIdentity()
    ensures Inverse(Identity()) == Identity()
  {
    assert Zoom([1.0, 1.0, 1.0]) == Identity();
    InvertZoom([1.0, 1.0, 1.0]);
  }

  /** The augmented translation after its fourth pass: the right half holds the identity
      with the offsets negated in its last column. */
  function TranslateReduced(t: Vec3): Aug
  {
    seq(4, r requires 0 <= r < 4 => seq(8, c requires 0 <= c < 8 =>
      if c < 4 then Translate(t)[c * 4 + r]
      else if c == r + 4 then 1.0
      else if c == 7 && r < 3 then -t[r]
      else 0.0))
  }

  /** The fourth pass on [T | I]: the pivot is the 1 in the corner, and clearing column 3
      subtracts each offset from the identity's last column. */
  lemma TranslateLastStep(t: Vec3)
    ensures Step(Augment(Translate(t)), 3) == TranslateReduced(t)
  {
    var a := Augment(Translate(t));
    assert a[3][3] == 1.0;
    AugEqual(Swapped(a, 3, 3), a);
    AugEqual(Normalized(a, 3), a);
    AugEqual(Eliminated(a, 3), TranslateReduced(t));
  }

  lemma TranslateUnitColumns(t: Vec3)
    ensures forall i, r :: 0 <= i < 3 && 0 <= r < 4 ==>
      Augment(Translate(t))[r][i] == if r == i then 1.0 else 0.0
  {
  }

  /** The computed inverse of a translation is the opposite translation. */
  lemma InvertTranslate(t: Vec3)
    ensures Inverse(Translate(t)) == Translate([-t[0], -t[1], -t[2]])
  {
    TranslateReduces(t);
    TranslateReducedRight(t);
  }

  /** The first three passes find unit columns and change nothing; the fourth clears the
      offsets out of the last column. */
  lemma TranslateReduces(t: Vec3)
    ensures Reduce(Augment(Translate(t)), 4) == TranslateReduced(t)
  {
    var a := Augment(Translate(t));
    TranslateUnitColumns(t);
    StepOnUnitColumn(a, 0);
    StepOnUnitColumn(a, 1);
    StepOnUnitColumn(a, 2);
    TranslateLastStep(t);
    assert Reduce(a, 1) == a;
    assert Reduce(a, 2) == a;
    assert Reduce(a, 3) == a;
  }

  lemma TranslateReducedRight(t: Vec3)
    ensures Right(TranslateReduced(t)) == Translate([-t[0], -t[1], -t[2]])
  {
    var inv := Right(TranslateReduced(t));
    forall k | 0 <= k < 16 ensures inv[k] == Translate([-t[0], -t[1], -t[2]])[k] {}
  }

  /** A translation times its computed inverse, either way round, is the identity. */
  lemma TranslateTimesInverse(t: Vec3)
    ensures Multiply(Translate(t), Inverse(Translate(t))) == Identity()
    ensures Multiply(Inverse(Translate(t)), Translate(t)) == Identity()
  {
    InvertTranslate(t);
    var u := Translate([-t[0], -t[1], -t[2]]);
    var p := Multiply(Translate(t), u);
    var q := Multiply(u, Translate(t));
    forall k | 0 <= k < 16 ensures p[k] == Identity()[k] && q[k] == Identity()[k] {}
  }

  // ---------------------------------------------------------------------------
  // The in-place algorithm

  /** The augmented array's contents as an `Aug` value. */
  ghost function Contents(a: array2<real>): Aug
    requires a.Length0 == 4 && a.Length1 == 8
    reads a
  {
    seq(4, r requires 0 <= r < 4 reads a => seq(8, c requires 0 <= c < 8 reads a => a[r, c]))
  }

  lemma AugEqual(x: Aug, y: Aug)
    requires forall r, c :: 0 <= r < 4 && 0 <= c < 8 ==> x[r][c] == y[r][c]
    ensures x == y
  {
    forall r | 0 <= r < 4 ensures x[r] == y[r] {
      assert forall c :: 0 <= c < 8 ==> x[r][c] == y[r][c];
    }
  }

  method FindPivot(a: array2<real>, i: nat) returns (pivot: nat)
    requires a.Length0 == 4 && a.Length1 == 8 && i < 4
    ensures pivot == PivotRowBounds(Contents(a), i)
  {
    ghost var x := Contents(a);
    pivot := i;
    for j := i + 1 to 4
      invariant pivot < 4
      invariant PivotFrom(x, i, j, pivot) == PivotRow(x, i)
    {
      if Abs(a[j, i]) > Abs(a[pivot, i]) {
        pivot := j;
      }
    }
  }

  method SwapRows(a: array2<real>, i: nat, p: nat)
    requires a.Length0 == 4 && a.Length1 == 8 && i < 4 && p < 4
    modifies a
    ensures Contents(a) == Swapped(old(Contents(a)), i, p)
  {
    ghost var x := Contents(a);
    if p != i {
      for j := i to 8
        invariant forall r, c :: 0 <= r < 4 && 0 <= c < 8 ==>
          a[r, c] == if c < j then Swapped(x, i, p)[r][c] else x[r][c]
      {
        var t := a[i, j];
        a[i, j] := a[p, j];
        a[p, j] := t;
      }
    }
    AugEqual(Contents(a), Swapped(x, i, p));
  }

  method NormalizeRow(a: array2<real>, i: nat)
    requires a.Length0 == 4 && a.Length1 == 8 && i < 4 && a[i, i] != 0.0
    modifies a
    ensures old(Contents(a))[i][i] != 0.0
    ensures Contents(a) == Normalized(old(Contents(a)), i)
  {
    ghost var x := Contents(a);
    for j := i + 1 to 8
      invariant forall r, c :: 0 <= r < 4 && 0 <= c < 8 ==>
        a[r, c] == if r == i && i < c < j then x[i][c] / x[i][i] else x[r][c]
    {
      a[i, j] := a[i, j] / a[i, i];
    }
    AugEqual(Contents(a), Normalized(x, i));
  }

  method EliminateColumn(a: array2<real>, i: nat)
    requires a.Length0 == 4 && a.Length1 == 8 && i < 4
    modifies a
    ensures Contents(a) == Eliminated(old(Contents(a)), i)
  {
    ghost var x := Contents(a);
    for j := 0 to 4
      invariant forall r, c :: 0 <= r < 4 && 0 <= c < 8 ==>
        a[r, c] == if r < j && r != i && c > i then x[r][c] - x[i][c] * x[r][i] else x[r][c]
    {
      if j == i {
        continue;
      }
      EliminateRow(a, x, i, j);
    }
    AugEqual(Contents(a), Eliminated(x, i));
  }

  /** The inner loop of one elimination step: row j, still as in `x` like the pivot row i,
      loses x[j][i] times the pivot row right of column i; every other entry stays. */
  method EliminateRow(a: array2<real>, ghost x: Aug, i: nat, j: nat)
    requires a.Length0 == 4 && a.Length1 == 8 && i < 4 && j < 4 && j != i
    requires forall c :: 0 <= c < 8 ==> a[i, c] == x[i][c] && a[j, c] == x[j][c]
    modifies a
    ensures forall r, c :: 0 <= r < 4 && 0 <= c < 8 ==>
      a[r, c] == if r == j && c > i then x[r][c] - x[i][c] * x[r][i] else old(a[r, c])
  {
    for k := i + 1 to 8
      invariant forall r, c :: 0 <= r < 4 && 0 <= c < 8 ==>
        a[r, c] == if r == j && i < c < k then x[r][c] - x[i][c] * x[r][i] else old(a[r, c])
    {
      a[j, k] := a[j, k] - a[i, k] * a[j, i];
    }
  }

  /** The construction of [R | I] at the head of `invert`: a fresh 4x8 array filled row by
      row with zeros, row r of R, and the identity's 1 in column r + 4. */
  method BuildAugmented(R: Mat4) returns (a: array2<real>)
    ensures fresh(a) && a.Length0 == 4 && a.Length1 == 8
    ensures Contents(a) == Augment(R)
  {
    a := new real[4, 8];
    for i := 0 to 4
      invariant forall r, c :: 0 <= r < i && 0 <= c < 8 ==> a[r, c] == Augment(R)[r][c]
    {
      for j := 0 to 8
        invariant forall r, c :: 0 <= r < i && 0 <= c < 8 ==> a[r, c] == Augment(R)[r][c]
        invariant forall c :: 0 <= c < j ==> a[i, c] == 0.0
      {
        a[i, j] := 0.0;
      }
      for j := 0 to 4
        invariant forall r, c :: 0 <= r < i && 0 <= c < 8 ==> a[r, c] == Augment(R)[r][c]
        invariant forall c :: 0 <= c < 8 ==> a[i, c] == if c < j then R[c * 4 + i] else 0.0
      {
        a[i, j] := R[j * 4 + i];
      }
      a[i, i + 4] := 1.0;
    }
    AugEqual(Contents(a), Augment(R));
  }

  /** `invert`: builds [R | I], reduces it column by column and reads the right half back
      out. */
  method Invert(R: Mat4) returns (inv: Mat4)
    ensures inv == Inverse(R)
  {
    var a := BuildAugmented(R);
    for i := 0 to 4
      invariant Contents(a) == Reduce(Augment(R), i)
    {
      ghost var x := Contents(a);
      var pivot := FindPivot(a, i);
      assert a[pivot, i] == x[pivot][i];
      if Abs(a[pivot, i]) < EPSILON {
        continue;
      }
      SwapRows(a, i, pivot);
      assert a[i, i] == Contents(a)[i][i] == x[pivot][i];
      NormalizeRow(a, i);
      EliminateColumn(a, i);
      assert Contents(a) == Step(x, i);
    }
    ghost var x := Contents(a);
    assert x == Reduce(Augment(R), 4);
    inv := [a[0, 4], a[1, 4], a[2, 4], a[3, 4],
            a[0, 5], a[1, 5], a[2, 5], a[3, 5],
            a[0, 6], a[1, 6], a[2, 6], a[3, 6],
            a[0, 7], a[1, 7], a[2, 7], a[3, 7]];
    assert inv == Right(x);
  }
}
