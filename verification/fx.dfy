/**
 * FX rate resolution (backend/core/fx.py): identity, the rate cache, the
 * direct Yahoo pair, the inverted pair, triangulation through USD, the
 * generic `BASEQUOTE=X` ticker, and finally an error.
 *
 * The Yahoo close lookup is a parameter; the cache table is a map threaded
 * through the calls; every ticker looked up is recorded in order, so the
 * contracts can say which lookups happen.
 */
module Fx {
  import opened Wrappers
  import opened Numeric
  import opened Text
  import opened PyModel

  /** `_yahoo_close(pair, as_of)`: the day's close for a ticker, if any. */
  type CloseFn = (string, int) -> Option<real>

  /** A cached rate is keyed by base, quote and date. */
  type Cache = map<(string, string, int), real>

  /** The outcome of one resolution: the rate or the error, the cache after it, the tickers looked up. */
  datatype FxOutcome = FxOutcome(rate: Result<real, PyError>, cache: Cache, fetched: seq<string>)

  /** `PAIR_MAP`: the Yahoo tickers known for a direct pair. */
  function DirectPair(base: string, quote: string): (t: Option<string>)
    ensures t.Some? ==> quote == "INR" || (base == "INR" && quote == "USD")
  {
    if base == "USD" && quote == "INR" then Some("USDINR=X")
    else if base == "EUR" && quote == "INR" then Some("EURINR=X")
    else if base == "GBP" && quote == "INR" then Some("GBPINR=X")
    else if base == "INR" && quote == "USD" then Some("INRUSD=X")
    else None
  }

  /** The generic ticker `f"{base}{quote}=X"`. */
  function GenericTicker(base: string, quote: string): string {
    base + quote + "=X"
  }

  /** 1 when triangulation through USD is still possible, else 0. */
  function Depth(base: string, quote: string): nat {
    if base != "USD" && quote != "USD" then 1 else 0
  }

  lemma UpperUsd()
    ensures Upper("USD") == "USD"
  {
  }

  /** `get_fx_rate`: codes are upper-cased before anything else. */
  function GetFxRate(rnd: RoundFn, close: CloseFn, cache: Cache, base: string, quote: string, asOf: int)
    : (o: FxOutcome)
    ensures Upper(base) == Upper(quote) ==> o == FxOutcome(Success(1.0), cache, [])
    ensures o.rate.Failure? ==> o.rate.error == RuntimeError("FX rate not available")
    ensures |o.fetched| <= 3 + 5 * Depth(Upper(base), Upper(quote))
    decreases Depth(Upper(base), Upper(quote)), 2
  {
    Resolve(rnd, close, cache, Upper(base), Upper(quote), asOf)
  }

  /** The direct ticker's close, or nothing when there is no direct ticker or no close. */
  function TryDirect(close: CloseFn, base: string, quote: string, asOf: int): (r: (Option<real>, seq<string>))
    ensures DirectPair(base, quote).None? ==> r == (None, [])
    ensures DirectPair(base, quote).Some? ==>
      r == (close(DirectPair(base, quote).value, asOf), [DirectPair(base, quote).value])
  {
    match DirectPair(base, quote)
    case None => (None, [])
    case Some(t) => (close(t, asOf), [t])
  }

  /**
   * The resolution steps on upper-cased codes. Each step that yields a rate
   * writes it to the cache; the inverse is used only when the inverted
   * close is non-zero; what follows is `Fallback`.
   */
  function Resolve(rnd: RoundFn, close: CloseFn, cache: Cache, base: string, quote: string, asOf: int)
    : (o: FxOutcome)
    ensures o.rate.Failure? ==> o.rate.error == RuntimeError("FX rate not available")
    ensures |o.fetched| <= 3 + 5 * Depth(base, quote)
    ensures base == quote || (base, quote, asOf) in cache ==> o.cache == cache && o.fetched == []
    decreases Depth(base, quote), 1
  {
    var key := (base, quote, asOf);
    if base == quote then FxOutcome(Success(1.0), cache, [])
    else if key in cache then FxOutcome(Success(cache[key]), cache, [])
    else
      var (direct, f1) := TryDirect(close, base, quote, asOf);
      if direct.Some? then FxOutcome(Success(direct.value), cache[key := direct.value], f1)
      else
        var (inverse, f2) := TryDirect(close, quote, base, asOf);
        if inverse.Some? && inverse.value != 0.0 then
          var rate := rnd(1.0 / inverse.value, 8);
          FxOutcome(Success(rate), cache[key := rate], f1 + f2)
        else
          var fb := Fallback(rnd, close, cache, base, quote, asOf);
          FxOutcome(fb.rate, fb.cache, f1 + f2 + fb.fetched)
  }

  /**
   * After the direct and inverse tickers: triangulation through USD when
   * neither code is USD, whose failure propagates past the generic ticker;
   * otherwise the generic ticker, or the error.
   */
  function Fallback(rnd: RoundFn, close: CloseFn, cache: Cache, base: string, quote: string, asOf: int)
    : (o: FxOutcome)
    ensures o.rate.Failure? ==> o.rate.error == RuntimeError("FX rate not available")
    ensures |o.fetched| <= 1 + 5 * Depth(base, quote)
    ensures Depth(base, quote) == 0 ==> o.fetched == [GenericTicker(base, quote)]
    decreases Depth(base, quote), 0
  {
    var key := (base, quote, asOf);
    if base != "USD" && quote != "USD" then
      UpperUsd();
      var o1 := GetFxRate(rnd, close, cache, base, "USD", asOf);
      if o1.rate.Failure? then o1
      else
        var o2 := GetFxRate(rnd, close, o1.cache, "USD", quote, asOf);
        if o2.rate.Failure? then FxOutcome(o2.rate, o2.cache, o1.fetched + o2.fetched)
        else
          var rate := rnd(o1.rate.value * o2.rate.value, 8);
          FxOutcome(Success(rate), o2.cache[key := rate], o1.fetched + o2.fetched)
    else
      var t := GenericTicker(base, quote);
      match close(t, asOf)
      case Some(v) => FxOutcome(Success(v), cache[key := v], [t])
      case None => FxOutcome(Failure(RuntimeError("FX rate not available")), cache, [t])
  }

  /** The same currency costs nothing: rate 1, no cache access, no lookup. */
  lemma IdentityRate(rnd: RoundFn, close: CloseFn, cache: Cache, base: string, quote: string, asOf: int)
    requires Upper(base) == Upper(quote)
    ensures GetFxRate(rnd, close, cache, base, quote, asOf) == FxOutcome(Success(1.0), cache, [])
  {
  }

  /** A cached rate is returned before any lookup, and the cache is left as it was. */
  lemma CacheHitFirst(rnd: RoundFn, close: CloseFn, cache: Cache, base: string, quote: string, asOf: int)
    requires Upper(base) != Upper(quote) && (Upper(base), Upper(quote), asOf) in cache
    ensures GetFxRate(rnd, close, cache, base, quote, asOf)
            == FxOutcome(Success(cache[(Upper(base), Upper(quote), asOf)]), cache, [])
  {
  }

  /**
   * On a cache miss the direct ticker is tried first and, when it has a
   * close, is the answer; otherwise the inverted ticker is tried next and
   * its non-zero close, inverted to 8 places, is the answer.
   */
  lemma DirectThenInverse(rnd: RoundFn, close: CloseFn, cache: Cache, base: string, quote: string, asOf: int)
    requires base == Upper(base) && quote == Upper(quote) && base != quote && (base, quote, asOf) !in cache
    ensures var o := Resolve(rnd, close, cache, base, quote, asOf);
            var d := DirectPair(base, quote);
            var i := DirectPair(quote, base);
            (d.Some? ==> |o.fetched| > 0 && o.fetched[0] == d.value)
            && (d.Some? && close(d.value, asOf).Some? ==> o.rate == Success(close(d.value, asOf).value))
            && ((d.None? || close(d.value, asOf).None?) && i.Some?
                && close(i.value, asOf).Some? && close(i.value, asOf).value != 0.0
                ==> o.rate == Success(rnd(1.0 / close(i.value, asOf).value, 8)))
  {
  }

  /**
   * Triangulation never nests: both legs involve USD, so neither leg can
   * triangulate again, and each leg ends at its own generic ticker at the
   * latest.
   */
  lemma TriangulationLegsDoNotNest(base: string, quote: string)
    requires base != "USD" && quote != "USD"
    ensures Depth(Upper(base), "USD") == 0 && Depth("USD", Upper(quote)) == 0
  {
  }

  /** The cache only grows: entries already there keep their rates. */
  predicate Extends(after: Cache, before: Cache) {
    forall k :: k in before ==> k in after && after[k] == before[k]
  }

  /** A successful non-identity resolution leaves its rate in the cache. */
  predicate Recorded(o: FxOutcome, base: string, quote: string, asOf: int) {
    o.rate.Success? && base != quote ==>
      (base, quote, asOf) in o.cache && o.cache[(base, quote, asOf)] == o.rate.value
  }

  /**
   * Every rate found for a non-identity pair is in the cache afterwards,
   * and nothing that was cached before is lost or changed.
   */
  lemma {:induction false} ResolvedRatesAreCached(rnd: RoundFn, close: CloseFn, cache: Cache,
                                                  base: string, quote: string, asOf: int)
    ensures Extends(Resolve(rnd, close, cache, base, quote, asOf).cache, cache)
    ensures Recorded(Resolve(rnd, close, cache, base, quote, asOf), base, quote, asOf)
    decreases Depth(base, quote), 1
  {
    var key := (base, quote, asOf);
    if base != quote && key !in cache {
      var (direct, f1) := TryDirect(close, base, quote, asOf);
      var (inverse, f2) := TryDirect(close, quote, base, asOf);
      if direct.None? && !(inverse.Some? && inverse.value != 0.0) {
        FallbackCached(rnd, close, cache, base, quote, asOf);
      }
    }
  }

  /** The same for the fallback steps on a cache miss, whose successful rate is always recorded under the pair. */
  lemma {:induction false} FallbackCached(rnd: RoundFn, close: CloseFn, cache: Cache,
                                          base: string, quote: string, asOf: int)
    requires (base, quote, asOf) !in cache
    ensures Extends(Fallback(rnd, close, cache, base, quote, asOf).cache, cache)
    ensures var o := Fallback(rnd, close, cache, base, quote, asOf);
            o.rate.Success? ==> (base, quote, asOf) in o.cache && o.cache[(base, quote, asOf)] == o.rate.value
    decreases Depth(base, quote), 0
  {
    var key := (base, quote, asOf);
    var o := Fallback(rnd, close, cache, base, quote, asOf);
    if base != "USD" && quote != "USD" {
      UpperUsd();
      var o1 := GetFxRate(rnd, close, cache, base, "USD", asOf);
      ResolvedRatesAreCached(rnd, close, cache, Upper(base), "USD", asOf);
      if o1.rate.Success? {
        var o2 := GetFxRate(rnd, close, o1.cache, "USD", quote, asOf);
        ResolvedRatesAreCached(rnd, close, o1.cache, "USD", Upper(quote), asOf);
        if o2.rate.Success? {
          assert o.cache == o2.cache[key := o.rate.value];
        } else {
          assert o.cache == o2.cache;
        }
      } else {
        assert o == o1;
      }
    }
  }

  /**
   * With neither code USD and neither a direct nor an inverse close, a
   * failed first leg is the answer: the generic ticker is never tried.
   */
  lemma TriangulationFailurePropagates(rnd: RoundFn, close: CloseFn, cache: Cache, base: string, quote: string, asOf: int)
    requires base == Upper(base) && quote == Upper(quote) && base != quote && (base, quote, asOf) !in cache
    requires base != "USD" && quote != "USD"
    requires DirectPair(base, quote).None? && DirectPair(quote, base).None?
    requires GetFxRate(rnd, close, cache, base, "USD", asOf).rate.Failure?
    ensures Resolve(rnd, close, cache, base, quote, asOf).rate == GetFxRate(rnd, close, cache, base, "USD", asOf).rate
    ensures Resolve(rnd, close, cache, base, quote, asOf).fetched == GetFxRate(rnd, close, cache, base, "USD", asOf).fetched
  {
  }
  /**
   * When one code is USD and neither the direct nor the inverse ticker
   * gives a usable close, the generic `BASEQUOTE=X` ticker is the last
   * lookup: its close is the answer and is cached, and without one the
   * resolution fails and the cache is unchanged.
   */
  lemma GenericTickerIsLastResort(rnd: RoundFn, close: CloseFn, cache: Cache, base: string, quote: string, asOf: int)
    requires base != quote && (base, quote, asOf) !in cache
    requires base == "USD" || quote == "USD"
    requires TryDirect(close, base, quote, asOf).0.None?
    requires var inv := TryDirect(close, quote, base, asOf).0; inv.None? || inv.value == 0.0
    ensures var o := Resolve(rnd, close, cache, base, quote, asOf);
            |o.fetched| > 0 && o.fetched[|o.fetched| - 1] == base + quote + "=X"
    ensures var o := Resolve(rnd, close, cache, base, quote, asOf);
            match close(base + quote + "=X", asOf)
            case Some(v) => o.rate == Success(v) && o.cache == cache[(base, quote, asOf) := v]
            case None => o.rate.Failure? && o.cache == cache
  {
  }
}
