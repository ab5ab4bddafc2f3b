/**
 * The shared numeric helpers of backend/metrics/utils.py: division that
 * never raises, the last element or `None`, a start/end CAGR, and the
 * JSON sanitiser that replaces NaN and infinities with `None` (the Yahoo
 * route carries a line-for-line copy of it, backend/services/yahoo_utils.py).
 */
module MetricsUtils {
  import opened Wrappers
  import opened Numeric
  import opened PyModel
  import MetricsCalculator

  /**
   * `safe_divide(a, b)`: `a / b` when `b` is truthy, else 0; an exception
   * (here a `None` numerator) also gives 0. `None` is modelled as `None`.
   */
  function SafeDivide(a: Option<real>, b: Option<real>): (r: real)
    ensures b.None? || b == Some(0.0) || a.None? ==> r == 0.0
    ensures a.Some? && b.Some? && b.value != 0.0 ==> r * b.value == a.value
  {
    match (a, b)
    case (Some(x), Some(y)) => if y != 0.0 then x / y else 0.0
    case (_, _) => 0.0
  }

  /** On numbers both `safe_divide`s agree. */
  lemma SafeDivideAgrees(a: real, b: real)
    ensures SafeDivide(Some(a), Some(b)) == MetricsCalculator.SafeDivide(a, b)
  {
  }

  /** `safe_last`: the last element of a non-empty list, else `None`. */
  function SafeLast(v: PyValue): (r: Option<PyValue>)
    ensures r.Some? <==> v.PyList? && |v.items| > 0
    ensures r.Some? ==> r.value == v.items[|v.items| - 1]
  {
    if v.PyList? && |v.items| > 0 then Some(v.items[|v.items| - 1]) else None
  }

  /** Unlike the calculator's `safe_last`, an empty list gives `None`, not 0. */
  lemma SafeLastEmptyIsNone()
    ensures SafeLast(PyList([])).None? && MetricsCalculator.SafeLast([]) == 0.0
  {
  }

  /**
   * `calculate_cagr(start, end, periods)`: 0 for a missing value, a
   * non-positive start or a non-positive period count; otherwise
   * `((end / start) ** (1 / periods) - 1) * 100`. A negative end with more
   * than one period is not guarded and yields a complex number.
   */
  function CalculateCagr(pow: PowFn, start: Option<real>, end: Option<real>, periods: int): (r: PowOutcome)
    ensures start.None? || end.None? || (start.Some? && start.value <= 0.0) || periods <= 0 ==> r == RealPow(0.0)
    ensures r.ComplexPow? <==> start.Some? && start.value > 0.0 && end.Some? && end.value < 0.0 && periods >= 2
    ensures start.Some? && start.value > 0.0 && end.Some? && periods == 1 ==>
              r == RealPow((end.value / start.value - 1.0) * 100.0)
    ensures start.Some? && start.value > 0.0 && end.Some? && end.value > 0.0 && periods >= 2 ==>
              r == RealPow((pow(end.value / start.value, 1.0 / periods as real) - 1.0) * 100.0)
  {
    if start.None? || end.None? || start.value <= 0.0 || periods <= 0 then RealPow(0.0)
    else
      var ratio := end.value / start.value;
      assert end.value < 0.0 <==> ratio < 0.0 by {
        if end.value < 0.0 { assert ratio * start.value == end.value; }
      }
      match RootPow(pow, ratio, periods)
      case RealPow(x) => RealPow((x - 1.0) * 100.0)
      case ComplexPow => ComplexPow
  }

  /**
   * Where the calculator's three-period CAGR turns a complex root into 0,
   * this one returns it.
   */
  lemma CagrNegativeEndDiffers(rnd: RoundFn, pow: PowFn, first: real, last: real)
    requires first > 0.0 && last < 0.0
    ensures CalculateCagr(pow, Some(first), Some(last), 3).ComplexPow?
    ensures MetricsCalculator.CalculateCagr(rnd, pow, [first, 0.0, 0.0, last]) == 0.0
  {
  }

  /** `make_json_safe`: containers rebuilt, ints (and bools) as ints, non-finite floats as `None`. */
  function MakeJsonSafe(v: PyValue): (r: PyValue)
    ensures v.PyDict? ==> r.PyDict? && |r.entries| == |v.entries|
                          && forall i :: 0 <= i < |v.entries| ==> r.entries[i].0 == v.entries[i].0
    ensures v.PyList? ==> r.PyList? && |r.items| == |v.items|
    ensures v.PyBool? ==> r == PyInt(if v.b then 1 else 0)
    ensures v.PyFloat? && !v.f.Finite? ==> r == PyNone
    ensures !(v.PyDict? || v.PyList? || v.PyBool? || (v.PyFloat? && !v.f.Finite?)) ==> r == v
    decreases v
  {
    match v
    case PyDict(entries) =>
      PyDict(seq(|entries|, i requires 0 <= i < |entries| => (entries[i].0, MakeJsonSafe(entries[i].1))))
    case PyList(items) => PyList(seq(|items|, i requires 0 <= i < |items| => MakeJsonSafe(items[i])))
    case PyBool(b) => PyInt(if b then 1 else 0)
    case PyFloat(f) => if f.Finite? then v else PyNone
    case _ => v
  }

  /** A value with no NaN, no infinity and no bool anywhere inside it. */
  predicate JsonSafe(v: PyValue)
    decreases v
  {
    match v
    case PyFloat(f) => f.Finite?
    case PyBool(_) => false
    case PyList(items) => forall i :: 0 <= i < |items| ==> JsonSafe(items[i])
    case PyDict(entries) => forall i :: 0 <= i < |entries| ==> JsonSafe(entries[i].1)
    case _ => true
  }

  /** The sanitiser leaves nothing to sanitise, and a safe value is its own image. */
  lemma {:induction false} MakeJsonSafeSound(v: PyValue)
    ensures JsonSafe(MakeJsonSafe(v))
    ensures JsonSafe(v) ==> MakeJsonSafe(v) == v
    decreases v
  {
    match v
    case PyList(items) =>
      forall i | 0 <= i < |items|
        ensures JsonSafe(MakeJsonSafe(items[i])) && (JsonSafe(items[i]) ==> MakeJsonSafe(items[i]) == items[i])
      {
        MakeJsonSafeSound(items[i]);
      }
      if JsonSafe(v) {
        assert MakeJsonSafe(v).items == items;
      }
    case PyDict(entries) =>
      forall i | 0 <= i < |entries|
        ensures JsonSafe(MakeJsonSafe(entries[i].1)) && (JsonSafe(entries[i].1) ==> MakeJsonSafe(entries[i].1) == entries[i].1)
      {
        MakeJsonSafeSound(entries[i].1);
      }
      if JsonSafe(v) {
        assert MakeJsonSafe(v).entries == entries;
      }
    case _ =>
  }

  /** Sanitising twice is sanitising once. */
  lemma MakeJsonSafeIdempotent(v: PyValue)
    ensures MakeJsonSafe(MakeJsonSafe(v)) == MakeJsonSafe(v)
  {
    MakeJsonSafeSound(v);
    MakeJsonSafeSound(MakeJsonSafe(v));
  }
}
