/** The shadow-map filter (lib/shadow.ts): the normalised half-Gaussian kernel that
    `Shadow.getKernel` uploads, the two blur bodies of the blur fragment shader, which
    average exponentials of depth differences over a (2h+1) x (2h+1) footprint and take the
    logarithm again, and the value the depth pass writes.

    The shadow map around a fragment is a function `field(i, j)`: the depth stored `i` texels
    across and `j` texels up from the fragment's own texture coordinate, so the centre
    depth d0 is `field(0, 0)`. */
module Shadow {
  import opened RealMath

  /** `#define MAX_KERNEL_SIZE 25`: the length of the `kernel` uniform array of the blur shader. */
  const MAX_KERNEL_SIZE: nat := 25

  // ---------------------------------------------------------------------------
  // The kernel

  /** The standard deviation chosen for a kernel of the given size. */
  function Sigma(kernelSize: nat): (s: real)
    ensures s > 0.0
  {
    ((kernelSize as real - 1.0) * 0.5 - 1.0) * 0.3 + 0.8
  }

  /** -2 sigma^2, the divisor of the exponent. */
  function NegSigmaSquare2(kernelSize: nat): (d: real)
    ensures d < 0.0
  {
    var s := Sigma(kernelSize);
    assert s * s > 0.0;
    -2.0 * s * s
  }

  /** The unnormalised weight of the tap k texels from the centre; the centre tap is 1. */
  function Weight(exp: real -> real, kernelSize: nat, k: int): real
  {
    if k == 0 then 1.0 else exp((k * k) as real / NegSigmaSquare2(kernelSize))
  }

  /** The unnormalised half kernel: one weight per distance 0 .. kernelSize / 2. */
  function Weights(exp: real -> real, kernelSize: nat): (w: seq<real>)
    ensures |w| == kernelSize / 2 + 1
  {
    seq(kernelSize / 2 + 1, k => Weight(exp, kernelSize, k))
  }

  /** The total weight of a half kernel mirrored about its centre: s[0] once and each of
      s[1..n] twice, accumulated outwards as the source does. */
  function MirroredSum(s: seq<real>, n: nat): real
    requires n < |s|
  {
    if n == 0 then s[0] else MirroredSum(s, n - 1) + s[n] + s[n]
  }

  /** What `getKernel` returns: the half kernel divided by its mirrored total. */
  function Kernel(exp: real -> real, kernelSize: nat): (kernel: seq<real>)
    requires ExpPositive(exp)
    ensures |kernel| == kernelSize / 2 + 1
  {
    var w := Weights(exp, kernelSize);
    var sum := MirroredSum(w, kernelSize / 2);
    MirroredSumPositive(w, kernelSize / 2);
    seq(kernelSize / 2 + 1, k requires 0 <= k < kernelSize / 2 + 1 => w[k] / sum)
  }

  /** The weights are positive, so their mirrored total is at least the centre weight. */
  lemma {:induction false} MirroredSumPositive(s: seq<real>, n: nat)
    requires n < |s|
    requires forall k :: 0 <= k <= n ==> s[k] > 0.0
    ensures MirroredSum(s, n) >= s[0] > 0.0
  {
    if n > 0 {
      MirroredSumPositive(s, n - 1);
    }
  }

  lemma WeightsPositive(exp: real -> real, kernelSize: nat)
    requires ExpPositive(exp)
    ensures forall k :: 0 <= k < |Weights(exp, kernelSize)| ==> Weights(exp, kernelSize)[k] > 0.0
  {
  }

  /** Dividing every entry by d divides the mirrored total by d. */
  lemma {:induction false} MirroredSumScaled(s: seq<real>, t: seq<real>, n: nat, d: real)
    requires n < |s| && n < |t| && d != 0.0
    requires forall k :: 0 <= k <= n ==> t[k] == s[k] / d
    ensures MirroredSum(t, n) == MirroredSum(s, n) / d
  {
    if n > 0 {
      MirroredSumScaled(s, t, n - 1, d);
      calc {
        MirroredSum(t, n);
        MirroredSum(s, n - 1) / d + s[n] / d + s[n] / d;
        (MirroredSum(s, n - 1) + s[n] + s[n]) / d;
      }
    }
  }

  /** The kernel is normalised: the centre tap plus twice every other tap is exactly 1. */
  lemma KernelNormalized(exp: real -> real, kernelSize: nat)
    requires ExpPositive(exp)
    ensures MirroredSum(Kernel(exp, kernelSize), kernelSize / 2) == 1.0
  {
    var w := Weights(exp, kernelSize);
    var h := kernelSize / 2;
    MirroredSumPositive(w, h);
    MirroredSumScaled(w, Kernel(exp, kernelSize), h, MirroredSum(w, h));
  }

  /** Every tap is positive. */
  lemma KernelPositive(exp: real -> real, kernelSize: nat)
    requires ExpPositive(exp)
    ensures forall k :: 0 <= k < |Kernel(exp, kernelSize)| ==> Kernel(exp, kernelSize)[k] > 0.0
  {
    var w := Weights(exp, kernelSize);
    MirroredSumPositive(w, kernelSize / 2);
  }

  /** The centre tap, 1 / sum, is strictly the largest: every other tap has an exponent
      -k^2 / (2 sigma^2) below zero. */
  lemma KernelCentreLargest(exp: real -> real, kernelSize: nat)
    requires ExpPositive(exp) && ExpBelowOneOnNegatives(exp)
    ensures forall k :: 1 <= k < |Kernel(exp, kernelSize)| ==>
      Kernel(exp, kernelSize)[k] < Kernel(exp, kernelSize)[0]
  {
    var w := Weights(exp, kernelSize);
    var sum := MirroredSum(w, kernelSize / 2);
    MirroredSumPositive(w, kernelSize / 2);
    var kernel := Kernel(exp, kernelSize);
    assert kernel[0] == 1.0 / sum;
    forall k | 1 <= k < |kernel| ensures kernel[k] < kernel[0] {
      WeightBelowOne(exp, kernelSize, k);
      assert kernel[k] == w[k] / sum;
      DivideSmaller(w[k], 1.0, sum);
    }
  }

  /** Every tap but the centre has a negative exponent, so a weight below 1. */
  lemma WeightBelowOne(exp: real -> real, kernelSize: nat, k: nat)
    requires ExpBelowOneOnNegatives(exp) && k >= 1
    ensures Weight(exp, kernelSize, k) < 1.0
  {
    var d := NegSigmaSquare2(kernelSize);
    assert (k * k) as real > 0.0;
    assert (k * k) as real / d < 0.0;
  }

  lemma DivideSmaller(a: real, b: real, d: real)
    requires a < b && d > 0.0
    ensures a / d < b / d
  {
  }

  /** The blur indexes the uploaded kernel with |i| <= kernelSize / 2, so every tap fits in
      the `kernel[MAX_KERNEL_SIZE]` uniform exactly when the size is at most 49. */
  lemma KernelFitsUniform(kernelSize: nat)
    ensures kernelSize / 2 + 1 <= MAX_KERNEL_SIZE <==> kernelSize <= 49
  {
  }

  /** `Shadow.getKernel`: fills the taps outwards while accumulating the mirrored total, then
      divides every tap by that total in place. */
  method GetKernel(exp: real -> real, kernelSize: nat) returns (kernel: array<real>)
    requires ExpPositive(exp)
    ensures fresh(kernel)
    ensures kernel[..] == Kernel(exp, kernelSize)
  {
    var halfSize := kernelSize / 2;
    kernel := new real[halfSize + 1](_ => 0.0);
    var sum := FillWeights(exp, kernelSize, kernel);
    ghost var w := kernel[..];
    MirroredSumPositive(w, halfSize);
    DivideTaps(kernel, sum);
    assert kernel[..] == Kernel(exp, kernelSize) by {
      forall k | 0 <= k <= halfSize ensures kernel[k] == Kernel(exp, kernelSize)[k] {
        assert kernel[k] == w[k] / sum;
      }
    }
  }

  /** The first loop of `getKernel`: the unnormalised taps, and their mirrored total. */
  method FillWeights(exp: real -> real, kernelSize: nat, kernel: array<real>) returns (sum: real)
    requires kernel.Length == kernelSize / 2 + 1
    modifies kernel
    ensures kernel[..] == Weights(exp, kernelSize)
    ensures sum == MirroredSum(Weights(exp, kernelSize), kernelSize / 2)
  {
    ghost var w := Weights(exp, kernelSize);
    kernel[0] := 1.0;
    sum := 1.0;
    for i := 1 to kernel.Length
      invariant forall k :: 0 <= k < i ==> kernel[k] == w[k]
      invariant sum == MirroredSum(w, i - 1)
    {
      kernel[i] := exp((i * i) as real / NegSigmaSquare2(kernelSize));
      assert kernel[i] == w[i] == Weight(exp, kernelSize, i);
      sum := sum + kernel[i] + kernel[i];
      assert sum == MirroredSum(w, i);
    }
    assert kernel[..] == w;
  }

  /** The second loop of `getKernel`: every tap divided by the total, in place. */
  method DivideTaps(kernel: array<real>, sum: real)
    requires sum != 0.0
    modifies kernel
    ensures forall k :: 0 <= k < kernel.Length ==> kernel[k] == old(kernel[k]) / sum
  {
    for i := 0 to kernel.Length
      invariant forall k :: 0 <= k < i ==> kernel[k] == old(kernel[k]) / sum
      invariant forall k :: i <= k < kernel.Length ==> kernel[k] == old(kernel[k])
    {
      kernel[i] := kernel[i] / sum;
    }
  }

  // ---------------------------------------------------------------------------
  // The blur fragment shader

  /** GLSL `abs` on an int. */
  function AbsInt(i: int): (r: nat)
    ensures r == i || r == -i
  {
    if i < 0 then -i else i
  }

  /** exp(dk - d0): the texel (i, j)'s depth relative to the centre's, exponentiated. */
  function Excess(exp: real -> real, field: (int, int) -> real, i: int, j: int): real
  {
    exp(field(i, j) - field(0, 0))
  }

  /** The weight of the tap at offset (i, j): kernel[|i|] * kernel[|j|]. */
  function Tap(kernel: seq<real>, h: int, i: int, j: int): real
    requires h < |kernel| && -h <= i <= h && -h <= j <= h
  {
    kernel[AbsInt(i)] * kernel[AbsInt(j)]
  }

  /** The Gaussian accumulation of row i over columns -h .. j - 1. */
  function GaussianRow(exp: real -> real, kernel: seq<real>, field: (int, int) -> real, h: int, i: int, j: int): real
    requires h < |kernel| && -h <= i <= h && -h <= j <= h + 1
    decreases j + h
  {
    if j == -h then 0.0
    else
      var term := Tap(kernel, h, i, j - 1) * Excess(exp, field, i, j - 1);
      GaussianRow(exp, kernel, field, h, i, j - 1) + term
  }

  /** One more column of a Gaussian row adds its weighted exponential. */
  lemma GaussianRowStep(exp: real -> real, kernel: seq<real>, field: (int, int) -> real, h: int, i: int, j: int)
    requires h < |kernel| && -h <= i <= h && -h <= j <= h
    ensures GaussianRow(exp, kernel, field, h, i, j + 1)
         == GaussianRow(exp, kernel, field, h, i, j) + kernel[AbsInt(i)] * kernel[AbsInt(j)] * Excess(exp, field, i, j)
  {
  }

  /** The Gaussian accumulation over rows -h .. i - 1, each row complete. */
  function GaussianGrid(exp: real -> real, kernel: seq<real>, field: (int, int) -> real, h: int, i: int): real
    requires h < |kernel| && -h <= i <= h + 1
    decreases i + h
  {
    if i == -h then 0.0
    else GaussianGrid(exp, kernel, field, h, i - 1) + GaussianRow(exp, kernel, field, h, i - 1, h + 1)
  }

  /** How both blurs end: the centre depth d0 plus the log of the mean of exp(dk - d0). */
  function Blurred(log: real -> real, field: (int, int) -> real, mean: real): real
  {
    field(0, 0) + log(mean)
  }

  /** One more row of the Gaussian accumulation. */
  lemma GaussianGridNext(exp: real -> real, kernel: seq<real>, field: (int, int) -> real, h: int, i: int)
    requires h < |kernel| && -h <= i <= h
    ensures GaussianGrid(exp, kernel, field, h, i + 1)
         == GaussianGrid(exp, kernel, field, h, i) + GaussianRow(exp, kernel, field, h, i, h + 1)
  {
  }

  /** What `gaussian()` returns: d0 plus the log of the kernel-weighted mean of exp(dk - d0). */
  function GaussianValue(exp: real -> real, log: real -> real, kernel: seq<real>, field: (int, int) -> real, kernelSize: nat): real
    requires kernelSize / 2 < |kernel|
  {
    var h: int := kernelSize / 2;
    Blurred(log, field, GaussianGrid(exp, kernel, field, h, h + 1))
  }

  /** `gaussian()` of the blur shader, with its two nested loops. */
  method Gaussian(exp: real -> real, log: real -> real, kernel: seq<real>, field: (int, int) -> real, kernelSize: nat) returns (r: real)
    requires kernelSize / 2 < |kernel|
    ensures r == GaussianValue(exp, log, kernel, field, kernelSize)
  {
    var halfSize: int := kernelSize / 2;
    var sum := 0.0;
    var i := -halfSize;
    while i <= halfSize
      invariant -halfSize <= i <= halfSize + 1
      invariant sum == GaussianGrid(exp, kernel, field, halfSize, i)
    {
      sum := GaussianAccumulateRow(exp, kernel, field, halfSize, i, sum);
      GaussianGridNext(exp, kernel, field, halfSize, i);
      i := i + 1;
    }
    r := Blurred(log, field, sum);
  }

  /** The inner loop of `gaussian()`: row i added to `sum`. */
  method GaussianAccumulateRow(exp: real -> real, kernel: seq<real>, field: (int, int) -> real, h: int, i: int, sum: real)
    returns (r: real)
    requires h < |kernel| && -h <= i <= h
    ensures r == sum + GaussianRow(exp, kernel, field, h, i, h + 1)
  {
    r := sum;
    var j := -h;
    while j <= h
      invariant -h <= j <= h + 1
      invariant r == sum + GaussianRow(exp, kernel, field, h, i, j)
    {
      GaussianRowStep(exp, kernel, field, h, i, j);
      r := r + kernel[AbsInt(i)] * kernel[AbsInt(j)] * Excess(exp, field, i, j);
      j := j + 1;
    }
  }

  /** The box accumulation of exp(dk - d0) along row i over columns -h .. j - 1. */
  function BoxRow(exp: real -> real, field: (int, int) -> real, h: int, i: int, j: int): real
    requires -h <= j <= h + 1
    decreases j + h
  {
    if j == -h then 0.0
    else BoxRow(exp, field, h, i, j - 1) + Excess(exp, field, i, j - 1)
  }

  /** The box accumulation over rows -h .. i - 1. */
  function BoxGrid(exp: real -> real, field: (int, int) -> real, h: int, i: int): real
    requires -h <= i <= h + 1
    decreases i + h
  {
    if i == -h then 0.0
    else BoxGrid(exp, field, h, i - 1) + BoxRow(exp, field, h, i - 1, h + 1)
  }

  /** One more row of the box accumulation. */
  lemma BoxGridNext(exp: real -> real, field: (int, int) -> real, h: int, i: int)
    requires -h <= i <= h
    ensures BoxGrid(exp, field, h, i + 1) == BoxGrid(exp, field, h, i) + BoxRow(exp, field, h, i, h + 1)
  {
  }

  /** The divisor of `box()`: kernelSize^2. */
  function TapCount(kernelSize: nat): (n: real)
    ensures kernelSize > 0 ==> n > 0.0
  {
    (kernelSize * kernelSize) as real
  }

  /** What `box()` returns: the sum is divided by kernelSize^2, not by the number of taps. */
  function BoxValue(exp: real -> real, log: real -> real, field: (int, int) -> real, kernelSize: nat): real
    requires kernelSize > 0
  {
    var h: int := kernelSize / 2;
    Blurred(log, field, BoxGrid(exp, field, h, h + 1) / TapCount(kernelSize))
  }

  /** `box()` of the blur shader, with its two nested loops. */
  method Box(exp: real -> real, log: real -> real, field: (int, int) -> real, kernelSize: nat) returns (r: real)
    requires kernelSize > 0
    ensures r == BoxValue(exp, log, field, kernelSize)
  {
    var halfSize: int := kernelSize / 2;
    var sum := 0.0;
    var i := -halfSize;
    while i <= halfSize
      invariant -halfSize <= i <= halfSize + 1
      invariant sum == BoxGrid(exp, field, halfSize, i)
    {
      sum := BoxAccumulateRow(exp, field, halfSize, i, sum);
      BoxGridNext(exp, field, halfSize, i);
      i := i + 1;
    }
    r := Blurred(log, field, sum / TapCount(kernelSize));
  }

  /** The inner loop of `box()`: row i added to `sum`. */
  method BoxAccumulateRow(exp: real -> real, field: (int, int) -> real, h: int, i: int, sum: real) returns (r: real)
    requires -h <= h + 1
    ensures r == sum + BoxRow(exp, field, h, i, h + 1)
  {
    r := sum;
    var j := -h;
    while j <= h
      invariant -h <= j <= h + 1
      invariant r == sum + BoxRow(exp, field, h, i, j)
    {
      r := r + Excess(exp, field, i, j);
      j := j + 1;
    }
  }

  // ---------------------------------------------------------------------------
  // Both blurs leave a constant field unchanged

  /** A field holding the same depth at every texel. */
  ghost predicate Constant(field: (int, int) -> real)
  {
    forall i, j :: field(i, j) == field(0, 0)
  }

  /** kernel[|j|] summed over j = a .. b - 1. */
  function MirroredRange(kernel: seq<real>, h: int, a: int, b: int): real
    requires h < |kernel| && -h <= a <= b <= h + 1
    decreases b - a
  {
    if a == b then 0.0 else MirroredRange(kernel, h, a, b - 1) + kernel[AbsInt(b - 1)]
  }

  lemma {:induction false} MirroredRangeFirst(kernel: seq<real>, h: int, a: int, b: int)
    requires h < |kernel| && -h <= a < b <= h + 1
    ensures MirroredRange(kernel, h, a, b) == kernel[AbsInt(a)] + MirroredRange(kernel, h, a + 1, b)
    decreases b - a
  {
    if a + 1 < b {
      MirroredRangeFirst(kernel, h, a, b - 1);
    }
  }

  /** Summed over -n .. n, kernel[|j|] gives the mirrored total. */
  lemma {:induction false} MirroredRangeIsMirroredSum(kernel: seq<real>, h: nat, n: nat)
    requires n <= h < |kernel|
    ensures MirroredRange(kernel, h, -(n as int), n + 1) == MirroredSum(kernel, n)
  {
    if n > 0 {
      MirroredRangeFirst(kernel, h, -(n as int), n + 1);
      MirroredRangeIsMirroredSum(kernel, h, n - 1);
    }
  }

  lemma {:induction false} GaussianRowConstant(m: MathLib, kernel: seq<real>, field: (int, int) -> real, h: int, i: int, j: int)
    requires ExpOfZero(m.exp) && Constant(field)
    requires h < |kernel| && -h <= i <= h && -h <= j <= h + 1
    ensures GaussianRow(m.exp, kernel, field, h, i, j) == kernel[AbsInt(i)] * MirroredRange(kernel, h, -h, j)
    decreases j + h
  {
    if j > -h {
      GaussianRowConstant(m, kernel, field, h, i, j - 1);
      assert field(i, j - 1) - field(0, 0) == 0.0;
    }
  }

  /** Rows -h .. i - 1, row r weighing kernel[|r|] times `total`. */
  function WeightedRows(kernel: seq<real>, h: int, i: int, total: real): real
    requires h < |kernel| && -h <= i <= h + 1
    decreases i + h
  {
    if i == -h then 0.0 else WeightedRows(kernel, h, i - 1, total) + kernel[AbsInt(i - 1)] * total
  }

  lemma {:induction false} WeightedRowsFactor(kernel: seq<real>, h: int, i: int, total: real)
    requires h < |kernel| && -h <= i <= h + 1
    ensures WeightedRows(kernel, h, i, total) == MirroredRange(kernel, h, -h, i) * total
    decreases i + h
  {
    if i > -h {
      WeightedRowsFactor(kernel, h, i - 1, total);
      Distribute(MirroredRange(kernel, h, -h, i - 1), kernel[AbsInt(i - 1)], total);
    }
  }

  lemma Distribute(a: real, b: real, c: real)
    ensures a * c + b * c == (a + b) * c
  {
  }

  /** The complete row r of the Gaussian sum is kernel[|r|] times `total`. */
  ghost predicate RowWeighs(exp: real -> real, kernel: seq<real>, field: (int, int) -> real, h: int, r: int, total: real)
    requires h < |kernel| && -h <= r <= h
  {
    GaussianRow(exp, kernel, field, h, r, h + 1) == kernel[AbsInt(r)] * total
  }

  /** Every complete row r of the Gaussian sum is kernel[|r|] times `total`. */
  ghost predicate RowsWeigh(exp: real -> real, kernel: seq<real>, field: (int, int) -> real, h: int, total: real)
    requires h < |kernel|
  {
    forall r :: -h <= r <= h ==> RowWeighs(exp, kernel, field, h, r, total)
  }

  /** On a constant field every row of the Gaussian sum is its kernel weight times the
      total of one row. */
  lemma ConstantRows(m: MathLib, kernel: seq<real>, field: (int, int) -> real, h: int)
    requires ExpOfZero(m.exp) && Constant(field)
    requires 0 <= h < |kernel|
    ensures RowsWeigh(m.exp, kernel, field, h, MirroredRange(kernel, h, -h, h + 1))
  {
    var total := MirroredRange(kernel, h, -h, h + 1);
    forall r | -h <= r <= h
      ensures RowWeighs(m.exp, kernel, field, h, r, total)
    {
      GaussianRowConstant(m, kernel, field, h, r, h + 1);
    }
  }

  /** Rows that each weigh kernel[|r|] times `total` add up to the weighted rows. */
  lemma {:induction false} GaussianGridOfRows(exp: real -> real, kernel: seq<real>, field: (int, int) -> real, h: int, i: int, total: real)
    requires h < |kernel| && -h <= i <= h + 1
    requires RowsWeigh(exp, kernel, field, h, total)
    ensures GaussianGrid(exp, kernel, field, h, i) == WeightedRows(kernel, h, i, total)
    decreases i + h
  {
    if i > -h {
      GaussianGridOfRows(exp, kernel, field, h, i - 1, total);
      GaussianGridStep(exp, kernel, field, h, i, total);
    }
  }

  lemma GaussianGridStep(exp: real -> real, kernel: seq<real>, field: (int, int) -> real, h: int, i: int, total: real)
    requires h < |kernel| && -h < i <= h + 1
    requires GaussianGrid(exp, kernel, field, h, i - 1) == WeightedRows(kernel, h, i - 1, total)
    requires RowWeighs(exp, kernel, field, h, i - 1, total)
    ensures GaussianGrid(exp, kernel, field, h, i) == WeightedRows(kernel, h, i, total)
  {
  }

  /** On a constant field the Gaussian blur returns the centre depth, for any normalised
      kernel: every exp(dk - d0) is 1, the weights sum to 1 and log 1 is 0. */
  lemma GaussianOnConstantField(m: MathLib, kernel: seq<real>, field: (int, int) -> real, kernelSize: nat)
    requires ExpOfZero(m.exp) && LogOfOne(m.log) && Constant(field)
    requires kernelSize / 2 < |kernel| && MirroredSum(kernel, kernelSize / 2) == 1.0
    ensures GaussianValue(m.exp, m.log, kernel, field, kernelSize) == field(0, 0)
  {
    var h := kernelSize / 2;
    ConstantRows(m, kernel, field, h);
    NormalizedRowsSumToOne(m.exp, kernel, field, h);
  }

  /** Rows weighing kernel[|r|] times the row total, with a normalised kernel, sum to 1. */
  lemma NormalizedRowsSumToOne(exp: real -> real, kernel: seq<real>, field: (int, int) -> real, h: nat)
    requires h < |kernel| && MirroredSum(kernel, h) == 1.0
    requires RowsWeigh(exp, kernel, field, h, MirroredRange(kernel, h, -(h as int), h + 1))
    ensures GaussianGrid(exp, kernel, field, h, h + 1) == 1.0
  {
    RowsGiveSquare(exp, kernel, field, h, MirroredRange(kernel, h, -(h as int), h + 1));
    MirroredRangeIsMirroredSum(kernel, h, h);
  }

  /** Rows weighing kernel[|r|] times `total`, where `total` is the kernel's range, add up to
      its square. */
  lemma RowsGiveSquare(exp: real -> real, kernel: seq<real>, field: (int, int) -> real, h: nat, total: real)
    requires h < |kernel| && total == MirroredRange(kernel, h, -(h as int), h + 1)
    requires RowsWeigh(exp, kernel, field, h, total)
    ensures GaussianGrid(exp, kernel, field, h, h + 1) == total * total
  {
    GaussianGridOfRows(exp, kernel, field, h, h + 1, total);
    WeightedRowsFactor(kernel, h, h + 1, total);
  }

  /** The blur of a constant field with the kernel `getKernel` builds is that field. */
  lemma BlurWithKernelOnConstantField(m: MathLib, field: (int, int) -> real, kernelSize: nat)
    requires ExpPositive(m.exp) && ExpOfZero(m.exp) && LogOfOne(m.log) && Constant(field)
    ensures GaussianValue(m.exp, m.log, Kernel(m.exp, kernelSize), field, kernelSize) == field(0, 0)
  {
    KernelNormalized(m.exp, kernelSize);
    GaussianOnConstantField(m, Kernel(m.exp, kernelSize), field, kernelSize);
  }

  lemma {:induction false} BoxRowConstant(m: MathLib, field: (int, int) -> real, h: int, i: int, j: int)
    requires ExpOfZero(m.exp) && Constant(field)
    requires -h <= j <= h + 1
    ensures BoxRow(m.exp, field, h, i, j) == (j + h) as real
    decreases j + h
  {
    if j > -h {
      BoxRowConstant(m, field, h, i, j - 1);
      assert field(i, j - 1) - field(0, 0) == 0.0;
    }
  }

  lemma {:induction false} BoxGridConstant(m: MathLib, field: (int, int) -> real, h: int, i: int)
    requires ExpOfZero(m.exp) && Constant(field)
    requires -h <= i <= h + 1
    ensures BoxGrid(m.exp, field, h, i) == ((i + h) * (2 * h + 1)) as real
    decreases i + h
  {
    if i > -h {
      BoxGridConstant(m, field, h, i - 1);
      BoxRowConstant(m, field, h, i - 1, h + 1);
      OneMoreRow(i, h);
    }
  }

  lemma OneMoreRow(i: int, h: int)
    ensures (i - 1 + h) * (2 * h + 1) + (h + 1 + h) == (i + h) * (2 * h + 1)
  {
  }

  /** On a constant field the box blur of an odd-sized kernel returns the centre depth: it
      takes kernelSize^2 taps and divides by kernelSize^2. */
  lemma BoxOnConstantField(m: MathLib, field: (int, int) -> real, kernelSize: nat)
    requires ExpOfZero(m.exp) && LogOfOne(m.log) && Constant(field)
    requires kernelSize % 2 == 1
    ensures BoxValue(m.exp, m.log, field, kernelSize) == field(0, 0)
  {
    var h := kernelSize / 2;
    BoxGridConstant(m, field, h, h + 1);
    OddFootprint(kernelSize, h);
    DivideBySelf((kernelSize * kernelSize) as real);
  }

  lemma OddFootprint(k: nat, h: int)
    requires k % 2 == 1 && h == k / 2
    ensures (h + 1 + h) * (2 * h + 1) == k * k > 0
  {
    assert 2 * h + 1 == k;
  }

  lemma DivideBySelf(n: real)
    requires n != 0.0
    ensures n / n == 1.0
  {
  }

  /** For an even size the footprint still spans 2h + 1 = kernelSize + 1 texels a side, so
      on a constant field the box blur takes the log of (kernelSize + 1)^2 / kernelSize^2,
      a ratio above 1, instead of the log of 1. */
  lemma BoxOnConstantFieldEvenSize(m: MathLib, field: (int, int) -> real, kernelSize: nat)
    requires ExpOfZero(m.exp) && Constant(field)
    requires kernelSize > 0 && kernelSize % 2 == 0
    ensures BoxValue(m.exp, m.log, field, kernelSize)
      == field(0, 0) + m.log(((kernelSize + 1) * (kernelSize + 1)) as real / ((kernelSize * kernelSize) as real))
    ensures ((kernelSize + 1) * (kernelSize + 1)) as real / ((kernelSize * kernelSize) as real) > 1.0
  {
    var h := kernelSize / 2;
    BoxGridConstant(m, field, h, h + 1);
    EvenFootprint(kernelSize, h);
    RatioAboveOne(((kernelSize + 1) * (kernelSize + 1)) as real, (kernelSize * kernelSize) as real);
  }

  lemma EvenFootprint(k: nat, h: int)
    requires k > 0 && k % 2 == 0 && h == k / 2
    ensures (h + 1 + h) * (2 * h + 1) == (k + 1) * (k + 1)
    ensures (k + 1) * (k + 1) > k * k > 0
  {
    assert 2 * h + 1 == k + 1;
  }

  lemma RatioAboveOne(a: real, b: real)
    requires a > b > 0.0
    ensures a / b > 1.0
  {
  }

  // ---------------------------------------------------------------------------
  // The depth pass

  /** The depth fragment shader's output `c * gl_FragCoord.z`. The capture target is first
      cleared to c, so with depths in [0, 1] every captured value lies in [0, c]. */
  function DepthFragment(c: real, z: real): (r: real)
    ensures c >= 0.0 && 0.0 <= z <= 1.0 ==> 0.0 <= r <= c
    ensures z == 1.0 ==> r == c
    ensures z == 0.0 ==> r == 0.0
  {
    c * z
  }
}
