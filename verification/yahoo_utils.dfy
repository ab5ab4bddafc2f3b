/**
 * The Yahoo route's JSON sanitiser (backend/services/yahoo_utils.py) is a
 * copy of `make_json_safe` in backend/metrics/utils.py; the model uses the
 * one definition, and this module states what the Yahoo response relies on.
 */
module YahooUtils {
  import opened Numeric
  import opened PyModel
  import MetricsUtils

  /** Dict entries keep their keys and order; each value is sanitised on its own. */
  lemma DictValuesSanitised(entries: seq<(string, PyValue)>, i: nat)
    requires i < |entries|
    ensures MetricsUtils.MakeJsonSafe(PyDict(entries)).entries[i]
            == (entries[i].0, MetricsUtils.MakeJsonSafe(entries[i].1))
  {
  }

  /** A list keeps its length and order; each element is sanitised on its own. */
  lemma ListItemsSanitised(items: seq<PyValue>, i: nat)
    requires i < |items|
    ensures MetricsUtils.MakeJsonSafe(PyList(items)).items[i] == MetricsUtils.MakeJsonSafe(items[i])
  {
  }

  /**
   * Scalars: NaN and both infinities become `None`, a finite float and an
   * int are returned as they are, a bool becomes 0 or 1, and every other
   * scalar is returned unchanged.
   */
  lemma ScalarRules(x: real, i: int, s: string)
    ensures MetricsUtils.MakeJsonSafe(PyFloat(NaN)) == PyNone
    ensures MetricsUtils.MakeJsonSafe(PyFloat(PosInf)) == PyNone
    ensures MetricsUtils.MakeJsonSafe(PyFloat(NegInf)) == PyNone
    ensures MetricsUtils.MakeJsonSafe(PyFloat(Finite(x))) == PyFloat(Finite(x))
    ensures MetricsUtils.MakeJsonSafe(PyInt(i)) == PyInt(i)
    ensures MetricsUtils.MakeJsonSafe(PyBool(true)) == PyInt(1)
    ensures MetricsUtils.MakeJsonSafe(PyStr(s)) == PyStr(s)
    ensures MetricsUtils.MakeJsonSafe(PyNone) == PyNone
  {
  }
}
