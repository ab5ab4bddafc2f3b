/**
 * Numeric helpers shared by the valuation model: sums, integer powers,
 * Python slice bounds, IEEE-style extended floats and the outcome of a
 * fractional power in Python.
 *
 * Rounding (`round(x, n)`, `Decimal.quantize`) and fractional powers are
 * not computed here: they are passed to the operations that use them as
 * function-typed parameters, so the model states results in terms of them
 * without fixing their decimal behaviour.
 */
module Numeric {

  /** `round(x, ndigits)` as the source calls it; left uninterpreted. */
  type RoundFn = (real, int) -> real

  /** `x ** e` for a positive base and a fractional exponent; left uninterpreted. */
  type PowFn = (real, real) -> real

  function Abs(x: real): real {
    if x < 0.0 then -x else x
  }

  function Max(a: real, b: real): real {
    if a >= b then a else b
  }

  function MinNat(a: nat, b: nat): nat {
    if a <= b then a else b
  }

  function MaxInt(a: int, b: int): int {
    if a >= b then a else b
  }

  /** `b ** n` for a natural exponent. */
  function Pow(b: real, n: nat): real {
    if n == 0 then 1.0 else Pow(b, n - 1) * b
  }

  /** One more factor `b` on top of `a * b^n` gives `a * b^(n + 1)`. */
  lemma PowStep(a: real, b: real, n: nat, r: real)
    requires r == a * Pow(b, n)
    ensures r * b == a * Pow(b, n + 1)
  {
    assert a * Pow(b, n) * b == a * (Pow(b, n) * b);
  }

  lemma {:induction false} PowPositive(b: real, n: nat)
    requires b > 0.0
    ensures Pow(b, n) > 0.0
  {
    if n > 0 {
      PowPositive(b, n - 1);
    }
  }

  lemma {:induction false} PowNonZero(b: real, n: nat)
    requires b != 0.0
    ensures Pow(b, n) != 0.0
  {
    if n > 0 {
      PowNonZero(b, n - 1);
    }
  }

  /** Left-to-right sum of a series (Python `sum`). */
  function Sum(s: seq<real>): real {
    if |s| == 0 then 0.0 else Sum(s[..|s| - 1]) + s[|s| - 1]
  }

  lemma {:induction false} SumAppend(a: seq<real>, b: seq<real>)
    ensures Sum(a + b) == Sum(a) + Sum(b)
    decreases |b|
  {
    if |b| == 0 {
      assert a + b == a;
    } else {
      var b' := b[..|b| - 1];
      assert (a + b)[..|a + b| - 1] == a + b';
      SumAppend(a, b');
    }
  }

  /** Splitting a series anywhere splits its sum. */
  lemma SumSplit(s: seq<real>, k: nat)
    requires k <= |s|
    ensures Sum(s[..k]) + Sum(s[k..]) == Sum(s)
  {
    assert s[..k] + s[k..] == s;
    SumAppend(s[..k], s[k..]);
  }

  lemma SumSingleton(x: real)
    ensures Sum([x]) == x
  {
    assert [x][..0] == [];
  }

  /** Python's normalisation of a slice bound `k` against a length `n`. */
  function SliceBound(n: nat, k: int): (b: nat)
    ensures b <= n
    ensures 0 <= k <= n ==> b == k
    ensures k > n ==> b == n
    ensures k < 0 ==> b == MaxInt(0, n + k)
  {
    if k < 0 then (if n + k < 0 then 0 else n + k)
    else if k > n then n
    else k
  }

  /** `s[:k]` with Python's semantics for negative and oversized bounds. */
  function PyTake<T>(s: seq<T>, k: int): seq<T> {
    s[..SliceBound(|s|, k)]
  }

  /** `s[k:]` with Python's semantics for negative and oversized bounds. */
  function PyDrop<T>(s: seq<T>, k: int): seq<T> {
    s[SliceBound(|s|, k)..]
  }

  /** `s[:k] + s[k:] == s` for every integer `k`. */
  lemma PyTakeDrop<T>(s: seq<T>, k: int)
    ensures PyTake(s, k) + PyDrop(s, k) == s
  {
  }

  /** The last `k` elements (Python `s[-k:]` for `k > 0`). */
  function LastN<T>(s: seq<T>, k: nat): seq<T> {
    if |s| <= k then s else s[|s| - k..]
  }

  /** A double-precision value, including the non-finite ones. */
  datatype Float = Finite(v: real) | NaN | PosInf | NegInf {
    predicate IsFinite() { Finite? }
    predicate IsNaN() { NaN? }
  }

  /** IEEE `a >= b` (false whenever NaN is involved). */
  predicate GeF(a: Float, b: real) {
    match a
    case Finite(x) => x >= b
    case PosInf => true
    case NegInf => false
    case NaN => false
  }

  /** IEEE `a < b` (false whenever NaN is involved). */
  predicate LtF(a: Float, b: real) {
    match a
    case Finite(x) => x < b
    case PosInf => false
    case NegInf => true
    case NaN => false
  }

  /** IEEE `a <= b`. */
  predicate LeF(a: Float, b: real) {
    match a
    case Finite(x) => x <= b
    case PosInf => false
    case NegInf => true
    case NaN => false
  }

  /** IEEE `a > b`. */
  predicate GtF(a: Float, b: real) {
    match a
    case Finite(x) => x > b
    case PosInf => true
    case NegInf => false
    case NaN => false
  }

  /** IEEE absolute value. */
  function AbsF(a: Float): Float {
    match a
    case Finite(x) => Finite(Abs(x))
    case NegInf => PosInf
    case other => other
  }

  /** IEEE `a / b` for finite operands. */
  function DivF(a: real, b: real): (r: Float)
    ensures b != 0.0 ==> r == Finite(a / b)
    ensures b == 0.0 ==> !r.IsFinite()
  {
    if b != 0.0 then Finite(a / b)
    else if a > 0.0 then PosInf
    else if a < 0.0 then NegInf
    else NaN
  }

  /** The value of Python's `x ** (1 / n)` for a positive integer `n`. */
  datatype PowOutcome = RealPow(value: real) | ComplexPow

  /**
   * Python's `x ** (1 / n)`: the exponent `1 / n` is integral only for `n == 1`;
   * a negative base with a fractional exponent yields a complex number, and a
   * zero base yields zero.
   */
  function RootPow(pow: PowFn, x: real, n: int): (r: PowOutcome)
    requires n >= 1
    ensures r.ComplexPow? <==> x < 0.0 && n >= 2
    ensures n == 1 ==> r == RealPow(x)
    ensures x == 0.0 ==> r == RealPow(0.0)
    ensures x > 0.0 && n >= 2 ==> r == RealPow(pow(x, 1.0 / n as real))
  {
    if n == 1 then RealPow(x)
    else if x > 0.0 then RealPow(pow(x, 1.0 / n as real))
    else if x == 0.0 then RealPow(0.0)
    else ComplexPow
  }
}
