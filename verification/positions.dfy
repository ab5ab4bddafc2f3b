/**
 * Portfolio positions (backend/core/positions.py): transactions replayed in
 * trade order into per-symbol FIFO lot queues, realized P&L booked as sells
 * consume lots, then holdings valued at the last price.
 *
 * Decimal amounts are exact `real`s and `quantize(0.01)` is the rounding
 * parameter at 2 places. The database query, the last-price lookup and the
 * FX lookups are parameters; the FX lookup may raise.
 */
module Positions {
  import opened Wrappers
  import opened Numeric
  import opened Text
  import opened PyModel

  /** A stored transaction; absent columns are `None`. */
  datatype Tx = Tx(
    symbol: string, side: Option<string>, quantity: Option<real>, price: Option<real>,
    fees: Option<real>, tradeCcy: Option<string>, fxRate: Option<real>,
    tradeDate: int, createdAt: int)

  /** `_dec`: a missing amount is 0. */
  function Dec(x: Option<real>): real {
    if x.Some? then x.value else 0.0
  }

  /** `(s or default).upper()`: a missing or empty text takes the default. */
  function UpperOr(s: Option<string>, default: string): string {
    Upper(if s.Some? && s.value != "" then s.value else default)
  }

  // ---------------------------------------------------------------------
  // Trade order

  /** Transactions are compared by trade date, then by creation time. */
  predicate TxLe(a: Tx, b: Tx) {
    a.tradeDate < b.tradeDate || (a.tradeDate == b.tradeDate && a.createdAt <= b.createdAt)
  }

  predicate SortedTxs(s: seq<Tx>) {
    forall i, j :: 0 <= i < j < |s| ==> TxLe(s[i], s[j])
  }

  lemma TxLeTransitive(a: Tx, b: Tx, c: Tx)
    requires TxLe(a, b) && TxLe(b, c)
    ensures TxLe(a, c)
  {
  }

  function InsertTx(t: Tx, s: seq<Tx>): (r: seq<Tx>)
    requires SortedTxs(s)
    ensures SortedTxs(r)
    ensures |r| == |s| + 1
    ensures r[0] == t || (|s| > 0 && r[0] == s[0])
    ensures multiset(r) == multiset(s) + multiset{t}
  {
    if |s| == 0 then [t]
    else if TxLe(t, s[0]) then
      ConsSorted(t, s);
      [t] + s
    else
      var rest := InsertTx(t, s[1..]);
      assert TxLe(s[0], rest[0]);
      ConsSorted(s[0], rest);
      MultisetHead(s);
      [s[0]] + rest
  }

  /** A transaction no later than the head of a sorted run can go in front of it. */
  lemma ConsSorted(a: Tx, s: seq<Tx>)
    requires SortedTxs(s) && (|s| == 0 || TxLe(a, s[0]))
    ensures SortedTxs([a] + s)
  {
    var r := [a] + s;
    forall i, j | 0 <= i < j < |r| ensures TxLe(r[i], r[j]) {
      if i == 0 {
        assert r[j] == s[j - 1];
        if j > 1 { TxLeTransitive(a, s[0], s[j - 1]); }
      } else {
        assert r[i] == s[i - 1] && r[j] == s[j - 1];
      }
    }
  }

  lemma MultisetHead(s: seq<Tx>)
    requires |s| > 0
    ensures multiset(s) == multiset{s[0]} + multiset(s[1..])
  {
    assert s == [s[0]] + s[1..];
  }

  /**
   * The query's `ORDER BY trade_date, created_at`, as a stable insertion
   * sort: the result is ordered and holds the same transactions.
   */
  function SortTxs(s: seq<Tx>): (r: seq<Tx>)
    ensures SortedTxs(r)
    ensures multiset(r) == multiset(s)
  {
    if |s| == 0 then []
    else
      var r := InsertTx(s[|s| - 1], SortTxs(s[..|s| - 1]));
      assert s == s[..|s| - 1] + [s[|s| - 1]];
      r
  }

  // ---------------------------------------------------------------------
  // FIFO lots

  /** One purchase lot: remaining quantity and INR cost per unit. */
  datatype Lot = Lot(qty: real, unitCost: real)

  function QtySum(lots: seq<Lot>): real {
    if |lots| == 0 then 0.0 else lots[0].qty + QtySum(lots[1..])
  }

  function CostSum(lots: seq<Lot>): real {
    if |lots| == 0 then 0.0 else lots[0].qty * lots[0].unitCost + CostSum(lots[1..])
  }

  /** The outcome of matching one sell: the lots left, the P&L booked, the quantity not covered. */
  datatype Fill = Fill(rest: seq<Lot>, realized: real, unfilled: real)

  /**
   * The reference definition of the matching loop: take `min(remaining,
   * lot.qty)` from the front lot, book `take * (proceeds per unit - unit
   * cost)`, drop the lot once it is used up, stop when nothing remains to
   * sell or no lot is left.
   */
  function Fifo(lots: seq<Lot>, remaining: real, unitProceeds: real): (f: Fill)
    decreases |lots|
  {
    if remaining <= 0.0 || |lots| == 0 then Fill(lots, 0.0, remaining)
    else
      var lot := lots[0];
      var take := if remaining <= lot.qty then remaining else lot.qty;
      var gain := take * (unitProceeds - lot.unitCost);
      if lot.qty - take <= 0.0 then
        var f := Fifo(lots[1..], remaining - take, unitProceeds);
        Fill(f.rest, gain + f.realized, f.unfilled)
      else
        Fill(lots[0 := Lot(lot.qty - take, lot.unitCost)], gain, remaining - take)
  }

  /**
   * The sell-matching loop of `compute_positions`, on a queue: each pass
   * either pops the front lot or covers the whole remainder, so the loop
   * ends within one pass per lot.
   */
  method MatchSell(lots: seq<Lot>, qty: real, unitProceeds: real) returns (rest: seq<Lot>, realized: real, unfilled: real)
    ensures Fill(rest, realized, unfilled) == Fifo(lots, qty, unitProceeds)
  {
    rest := lots;
    realized := 0.0;
    var remaining := qty;
    while remaining > 0.0 && |rest| > 0
      invariant Fifo(lots, qty, unitProceeds).rest == Fifo(rest, remaining, unitProceeds).rest
      invariant Fifo(lots, qty, unitProceeds).unfilled == Fifo(rest, remaining, unitProceeds).unfilled
      invariant Fifo(lots, qty, unitProceeds).realized == realized + Fifo(rest, remaining, unitProceeds).realized
      decreases |rest| + (if remaining > 0.0 then 1 else 0)
    {
      var lot := rest[0];
      var take := if remaining <= lot.qty then remaining else lot.qty;
      realized := realized + take * (unitProceeds - lot.unitCost);
      if lot.qty - take <= 0.0 {
        rest := rest[1..];
      } else {
        rest := rest[0 := Lot(lot.qty - take, lot.unitCost)];
      }
      remaining := remaining - take;
    }
    unfilled := remaining;
  }

  /** Shares are conserved: what is left plus what was sold is what was held. */
  lemma {:induction false} FifoConservesQuantity(lots: seq<Lot>, remaining: real, unitProceeds: real)
    ensures QtySum(Fifo(lots, remaining, unitProceeds).rest)
            + (remaining - Fifo(lots, remaining, unitProceeds).unfilled) == QtySum(lots)
    decreases |lots|
  {
    if remaining <= 0.0 || |lots| == 0 {
    } else {
      var lot := lots[0];
      var take := if remaining <= lot.qty then remaining else lot.qty;
      if lot.qty - take <= 0.0 {
        FifoConservesQuantity(lots[1..], remaining - take, unitProceeds);
      } else {
        var r := lots[0 := Lot(lot.qty - take, lot.unitCost)];
        assert r[1..] == lots[1..];
      }
    }
  }

  /**
   * The P&L booked is the proceeds of the shares sold less the cost basis
   * taken out of the lots.
   */
  lemma {:induction false} FifoRealizedIsProceedsLessCost(lots: seq<Lot>, remaining: real, unitProceeds: real)
    ensures BooksAtCost(lots, remaining, unitProceeds, Fifo(lots, remaining, unitProceeds))
    decreases |lots|
  {
    if remaining > 0.0 && |lots| > 0 {
      if lots[0].qty <= remaining {
        FifoRealizedIsProceedsLessCost(lots[1..], remaining - lots[0].qty, unitProceeds);
        FifoPopRealized(lots, remaining, unitProceeds);
      } else {
        FifoPartialRealized(lots, remaining, unitProceeds);
      }
    }
  }

  /**
   * The fill `f` of a sell of `remaining` shares against `lots` booked the
   * proceeds of the shares it covered less the cost of the lots it consumed.
   */
  predicate BooksAtCost(lots: seq<Lot>, remaining: real, unitProceeds: real, f: Fill) {
    f.realized == (remaining - f.unfilled) * unitProceeds - (CostSum(lots) - CostSum(f.rest))
  }

  /** The P&L identity when the first lot is used up, given it for the lots behind it. */
  lemma FifoPopRealized(lots: seq<Lot>, remaining: real, unitProceeds: real)
    requires remaining > 0.0 && |lots| > 0 && lots[0].qty <= remaining
    requires BooksAtCost(lots[1..], remaining - lots[0].qty, unitProceeds, Fifo(lots[1..], remaining - lots[0].qty, unitProceeds))
    ensures BooksAtCost(lots, remaining, unitProceeds, Fifo(lots, remaining, unitProceeds))
  {
    var lot, tail := lots[0], lots[1..];
    var f := Fifo(tail, remaining - lot.qty, unitProceeds);
    FifoPopStep(lots, remaining, unitProceeds);
    CostSumCons(lots);
    PopArithmetic(lot.qty, lot.unitCost, unitProceeds, remaining, f.unfilled, CostSum(tail), CostSum(f.rest), f.realized);
  }

  /** One step of `Fifo` that uses up the first lot, field by field. */
  lemma FifoPopStep(lots: seq<Lot>, remaining: real, unitProceeds: real)
    requires remaining > 0.0 && |lots| > 0 && lots[0].qty <= remaining
    ensures var f := Fifo(lots[1..], remaining - lots[0].qty, unitProceeds);
            && Fifo(lots, remaining, unitProceeds).rest == f.rest
            && Fifo(lots, remaining, unitProceeds).unfilled == f.unfilled
            && Fifo(lots, remaining, unitProceeds).realized == lots[0].qty * (unitProceeds - lots[0].unitCost) + f.realized
  {
  }

  lemma CostSumCons(lots: seq<Lot>)
    requires |lots| > 0
    ensures CostSum(lots) == lots[0].qty * lots[0].unitCost + CostSum(lots[1..])
  {
  }

  /** The P&L identity when the sell is covered by part of the first lot. */
  lemma FifoPartialRealized(lots: seq<Lot>, remaining: real, unitProceeds: real)
    requires remaining > 0.0 && |lots| > 0
    requires lots[0].qty > remaining
    ensures BooksAtCost(lots, remaining, unitProceeds, Fifo(lots, remaining, unitProceeds))
  {
    var lot := lots[0];
    var r := lots[0 := Lot(lot.qty - remaining, lot.unitCost)];
    assert Fifo(lots, remaining, unitProceeds) == Fill(r, remaining * (unitProceeds - lot.unitCost), 0.0);
    assert r[1..] == lots[1..];
    assert CostSum(r) == (lot.qty - remaining) * lot.unitCost + CostSum(lots[1..]);
    assert CostSum(lots) == lot.qty * lot.unitCost + CostSum(lots[1..]);
    assert (lot.qty - remaining) * lot.unitCost == lot.qty * lot.unitCost - remaining * lot.unitCost;
    assert remaining * (unitProceeds - lot.unitCost) == remaining * unitProceeds - remaining * lot.unitCost;
  }

  /** The arithmetic of popping a whole lot: its gain plus the rest's P&L is proceeds less cost. */
  lemma PopArithmetic(take: real, cost: real, proceeds: real, remaining: real, unfilled: real,
                      restCost: real, leftCost: real, restRealized: real)
    requires restRealized == (remaining - take - unfilled) * proceeds - (restCost - leftCost)
    ensures take * (proceeds - cost) + restRealized
            == (remaining - unfilled) * proceeds - ((take * cost + restCost) - leftCost)
  {
    assert (remaining - take - unfilled) * proceeds == (remaining - unfilled) * proceeds - take * proceeds;
    assert take * (proceeds - cost) == take * proceeds - take * cost;
  }

  /**
   * An oversell is dropped: quantity is left uncovered only once every lot
   * has been consumed.
   */
  lemma {:induction false} FifoOversellEmptiesQueue(lots: seq<Lot>, remaining: real, unitProceeds: real)
    requires remaining > 0.0
    ensures Fifo(lots, remaining, unitProceeds).unfilled > 0.0 ==> Fifo(lots, remaining, unitProceeds).rest == []
    ensures Fifo(lots, remaining, unitProceeds).unfilled <= remaining || exists i :: 0 <= i < |lots| && lots[i].qty < 0.0
    decreases |lots|
  {
    if |lots| > 0 {
      var lot := lots[0];
      var take := if remaining <= lot.qty then remaining else lot.qty;
      if lot.qty - take <= 0.0 && remaining - take > 0.0 {
        FifoOversellEmptiesQueue(lots[1..], remaining - take, unitProceeds);
        if lot.qty >= 0.0 && Fifo(lots, remaining, unitProceeds).unfilled > remaining {
          var i :| 0 <= i < |lots[1..]| && lots[1..][i].qty < 0.0;
          assert lots[i + 1].qty < 0.0;
        }
      }
    }
  }

  /**
   * Lots are consumed from the front: the lots left are a suffix of the
   * queue whose first element may have been reduced, at its original unit
   * cost.
   */
  lemma {:induction false} FifoConsumesFromFront(lots: seq<Lot>, remaining: real, unitProceeds: real)
    ensures |Fifo(lots, remaining, unitProceeds).rest| <= |lots|
    ensures var rest := Fifo(lots, remaining, unitProceeds).rest;
            var k := |lots| - |rest|;
            |rest| > 0 ==> rest[1..] == lots[k + 1..] && rest[0].unitCost == lots[k].unitCost
                           && rest[0].qty <= lots[k].qty
    decreases |lots|
  {
    if remaining > 0.0 && |lots| > 0 {
      if lots[0].qty <= remaining {
        FifoConsumesFromFront(lots[1..], remaining - lots[0].qty, unitProceeds);
        FifoPopStep(lots, remaining, unitProceeds);
        var rest := Fifo(lots, remaining, unitProceeds).rest;
        var k := |lots| - |rest|;
        if |rest| > 0 {
          assert lots[1..][k - 1 + 1..] == lots[k + 1..];
        }
      } else {
        FifoPartialStep(lots, remaining, unitProceeds);
      }
    }
  }

  /** One step of `Fifo` that covers the sell from part of the first lot. */
  lemma FifoPartialStep(lots: seq<Lot>, remaining: real, unitProceeds: real)
    requires remaining > 0.0 && |lots| > 0 && lots[0].qty > remaining
    ensures Fifo(lots, remaining, unitProceeds)
            == Fill(lots[0 := Lot(lots[0].qty - remaining, lots[0].unitCost)], remaining * (unitProceeds - lots[0].unitCost), 0.0)
  {
  }

  // ---------------------------------------------------------------------
  // Replaying the transactions

  /**
   * The running state: symbols in the order they were first touched (the
   * order of the `lots` dict), each symbol's lot queue, and the realized
   * P&L per symbol.
   */
  datatype Book = Book(order: seq<string>, lots: map<string, seq<Lot>>, realized: map<string, real>)

  /** The book's symbols are listed once each, and realized P&L is only kept for listed symbols. */
  ghost predicate WellFormed(b: Book) {
    (forall i, j :: 0 <= i < j < |b.order| ==> b.order[i] != b.order[j])
    && (forall s :: s in b.lots <==> s in b.order)
    && b.realized.Keys <= b.lots.Keys
  }

  const EmptyBook := Book([], map[], map[])

  /** `lots[symbol]` on a defaultdict: an unseen symbol gets an empty queue at the end of the order. */
  function Touch(b: Book, symbol: string): (r: Book)
    requires WellFormed(b)
    ensures WellFormed(r) && symbol in r.lots
    ensures symbol in b.lots ==> r == b
    ensures symbol !in b.lots ==> r.order == b.order + [symbol] && r.lots[symbol] == []
    ensures forall s :: s in b.lots ==> s in r.lots && r.lots[s] == b.lots[s]
    ensures r.realized == b.realized
  {
    if symbol in b.lots then b
    else Book(b.order + [symbol], b.lots[symbol := []], b.realized)
  }

  /** `get_fx_rate(db, base, "INR", as_of)`. */
  type FxFn = (string, int) -> Result<real, PyError>

  /** The trade-date FX: 1 for INR, else the stored rate when it is non-zero, else the lookup. */
  function TradeFx(fx: FxFn, tx: Tx): (r: Result<real, PyError>)
    ensures UpperOr(tx.tradeCcy, "INR") == "INR" ==> r == Success(1.0)
    ensures UpperOr(tx.tradeCcy, "INR") != "INR" && tx.fxRate.Some? && tx.fxRate.value != 0.0
            ==> r == Success(tx.fxRate.value)
    ensures UpperOr(tx.tradeCcy, "INR") != "INR" && (tx.fxRate.None? || tx.fxRate.value == 0.0)
            ==> r == fx(UpperOr(tx.tradeCcy, "INR"), tx.tradeDate)
  {
    var ccy := UpperOr(tx.tradeCcy, "INR");
    if ccy == "INR" then Success(1.0)
    else if tx.fxRate.Some? && tx.fxRate.value != 0.0 then Success(tx.fxRate.value)
    else fx(ccy, tx.tradeDate)
  }

  /** A BUY's lot: the INR cash out (quantity times price plus fees) per unit, 0 per unit for a non-positive quantity. */
  function BuyLot(qty: real, price: real, fees: real, rate: real): (l: Lot)
    ensures l.qty == qty
    ensures qty > 0.0 ==> l.unitCost * qty == (qty * price + fees) * rate
    ensures qty <= 0.0 ==> l.unitCost == 0.0
  {
    var cashOut := (qty * price + fees) * rate;
    Lot(qty, if qty > 0.0 then cashOut / qty else 0.0)
  }

  /** The INR proceeds per unit of a SELL: quantity times price less fees, over the quantity. */
  function SellUnitProceeds(qty: real, price: real, fees: real, rate: real): (p: real)
    requires qty > 0.0
    ensures p * qty == (qty * price - fees) * rate
  {
    ((qty * price - fees) * rate) / qty
  }

  /**
   * One transaction. The FX lookup happens first, whatever the side; a BUY
   * appends a lot (even for a non-positive quantity); a SELL of a positive
   * quantity is matched FIFO and its P&L added to the symbol; a SELL of no
   * quantity and every other side leave the book alone.
   */
  function Apply(fx: FxFn, b: Book, tx: Tx): (r: Result<Book, PyError>)
    requires WellFormed(b)
    ensures TradeFx(fx, tx).Failure? <==> r.Failure?
    ensures r.Success? ==> WellFormed(r.value)
    ensures r.Success? && UpperOr(tx.side, "") != "BUY" && UpperOr(tx.side, "") != "SELL" ==> r.value == b
    ensures r.Success? && UpperOr(tx.side, "") == "SELL" && Dec(tx.quantity) <= 0.0 ==> r.value == b
    ensures r.Success? && UpperOr(tx.side, "") == "BUY" ==>
      tx.symbol in r.value.lots &&
      r.value.lots[tx.symbol] == Touch(b, tx.symbol).lots[tx.symbol]
                                 + [BuyLot(Dec(tx.quantity), Dec(tx.price), Dec(tx.fees), TradeFx(fx, tx).value)]
    ensures r.Success? ==> forall s :: s in b.lots && s != tx.symbol ==>
      s in r.value.lots && r.value.lots[s] == b.lots[s]
  {
    var rate :- TradeFx(fx, tx);
    var side := UpperOr(tx.side, "");
    var qty := Dec(tx.quantity);
    var price := Dec(tx.price);
    var fees := Dec(tx.fees);
    if side == "BUY" then
      var t := Touch(b, tx.symbol);
      Success(Book(t.order, t.lots[tx.symbol := t.lots[tx.symbol] + [BuyLot(qty, price, fees, rate)]], t.realized))
    else if side == "SELL" then
      if qty <= 0.0 then Success(b)
      else
        var t := Touch(b, tx.symbol);
        var f := Fifo(t.lots[tx.symbol], qty, SellUnitProceeds(qty, price, fees, rate));
        var before := if tx.symbol in t.realized then t.realized[tx.symbol] else 0.0;
        Success(Book(t.order, t.lots[tx.symbol := f.rest], t.realized[tx.symbol := before + f.realized]))
    else Success(b)
  }

  /** The transactions replayed in the given order; the first failing FX lookup ends the run. */
  function Replay(fx: FxFn, txs: seq<Tx>): (r: Result<Book, PyError>)
    ensures r.Success? ==> WellFormed(r.value)
  {
    if |txs| == 0 then Success(EmptyBook)
    else
      var b :- Replay(fx, txs[..|txs| - 1]);
      Apply(fx, b, txs[|txs| - 1])
  }

  // ---------------------------------------------------------------------
  // Holdings and totals

  /** `get_last_price(symbol)`: the last price and its currency, either possibly missing. */
  type PriceFn = string -> (Option<real>, Option<string>)

  /** A holding before weights: amounts unrounded, as accumulated. */
  datatype Position = Position(
    symbol: string, qty: real, cost: real, ltpCcy: string, value: Option<real>, realized: real)

  /**
   * One symbol's position, or nothing when its remaining quantity is not
   * positive. The value is the quantity at the last price converted at
   * today's rate (1 for INR), rounded to paise; without a price there is
   * no value.
   */
  function PositionOf(rnd: RoundFn, price: PriceFn, fxToday: FxFn, today: int, b: Book, symbol: string)
    : (r: Result<Option<Position>, PyError>)
    requires symbol in b.lots
    ensures r.Success? && r.value.Some? ==>
      r.value.value.symbol == symbol && r.value.value.qty == QtySum(b.lots[symbol])
      && r.value.value.qty > 0.0 && r.value.value.cost == CostSum(b.lots[symbol])
      && (r.value.value.value.Some? <==> price(symbol).0.Some?)
    ensures QtySum(b.lots[symbol]) <= 0.0 ==> r == Success(None)
    ensures QtySum(b.lots[symbol]) > 0.0 && price(symbol).0.None? ==> r.Success? && r.value.Some?
    ensures QtySum(b.lots[symbol]) > 0.0 && r.Success? ==> r.value.Some?
  {
    var lots := b.lots[symbol];
    var qty := QtySum(lots);
    if qty <= 0.0 then Success(None)
    else
      var (ltp, ccy0) := price(symbol);
      var ccy := UpperOr(ccy0, "INR");
      var value :- (if ltp.None? then Success(None)
                    else if ccy == "INR" then Success(Some(rnd(qty * ltp.value * 1.0, 2)))
                    else (var rate :- fxToday(ccy, today); Success(Some(rnd(qty * ltp.value * rate, 2)))));
      var realized := if symbol in b.realized then b.realized[symbol] else 0.0;
      Success(Some(Position(symbol, qty, CostSum(lots), ccy, value, realized)))
  }

  /** The positions of `symbols` in order, skipping the closed ones. */
  function PositionsOf(rnd: RoundFn, price: PriceFn, fxToday: FxFn, today: int, b: Book, symbols: seq<string>)
    : (r: Result<seq<Position>, PyError>)
    requires forall s :: s in symbols ==> s in b.lots
    ensures r.Success? ==> |r.value| <= |symbols|
    ensures r.Success? ==> forall k :: 0 <= k < |r.value| ==>
      r.value[k].symbol in symbols && r.value[k].qty > 0.0
      && r.value[k].qty == QtySum(b.lots[r.value[k].symbol])
  {
    if |symbols| == 0 then Success([])
    else
      var init := symbols[..|symbols| - 1];
      var last := symbols[|symbols| - 1];
      assert forall s :: s in init ==> s in symbols;
      var ps :- PositionsOf(rnd, price, fxToday, today, b, init);
      var p :- PositionOf(rnd, price, fxToday, today, b, last);
      if p.Some? then Success(ps + [p.value]) else Success(ps)
  }

  /** Every open symbol of the list has its position: closed symbols are the only ones left out. */
  lemma {:induction false} OpenSymbolsListed(rnd: RoundFn, price: PriceFn, fxToday: FxFn, today: int,
                                            b: Book, symbols: seq<string>, s: string)
    requires forall x :: x in symbols ==> x in b.lots
    requires PositionsOf(rnd, price, fxToday, today, b, symbols).Success?
    requires s in symbols && QtySum(b.lots[s]) > 0.0
    ensures exists k :: 0 <= k < |PositionsOf(rnd, price, fxToday, today, b, symbols).value|
                        && PositionsOf(rnd, price, fxToday, today, b, symbols).value[k].symbol == s
  {
    var init := symbols[..|symbols| - 1];
    var last := symbols[|symbols| - 1];
    PositionsOfStep(rnd, price, fxToday, today, b, symbols);
    var ps := PositionsOf(rnd, price, fxToday, today, b, init).value;
    var p := PositionOf(rnd, price, fxToday, today, b, last).value;
    var r := PositionsOf(rnd, price, fxToday, today, b, symbols).value;
    if s == last {
      assert r[|ps|].symbol == s;
    } else {
      assert s in init by {
        assert symbols == init + [last];
      }
      OpenSymbolsListed(rnd, price, fxToday, today, b, init, s);
      var k :| 0 <= k < |ps| && ps[k].symbol == s;
      assert r[k] == ps[k];
    }
  }

  /** A successful listing is the listing of all but the last symbol, then the last one's position if open. */
  lemma PositionsOfStep(rnd: RoundFn, price: PriceFn, fxToday: FxFn, today: int, b: Book, symbols: seq<string>)
    requires forall x :: x in symbols ==> x in b.lots
    requires |symbols| > 0 && PositionsOf(rnd, price, fxToday, today, b, symbols).Success?
    ensures var init := symbols[..|symbols| - 1];
            var last := symbols[|symbols| - 1];
            (forall x :: x in init ==> x in b.lots)
            && PositionsOf(rnd, price, fxToday, today, b, init).Success?
            && PositionOf(rnd, price, fxToday, today, b, last).Success?
            && PositionsOf(rnd, price, fxToday, today, b, symbols).value
               == PositionsOf(rnd, price, fxToday, today, b, init).value
                  + (match PositionOf(rnd, price, fxToday, today, b, last).value
                     case Some(p) => [p]
                     case None => [])
  {
    var init := symbols[..|symbols| - 1];
    assert forall x :: x in init ==> x in symbols;
  }

  function ValueOr0(p: Position): real {
    if p.value.Some? then p.value.value else 0.0
  }

  function TotalValue(ps: seq<Position>): real {
    if |ps| == 0 then 0.0 else TotalValue(ps[..|ps| - 1]) + ValueOr0(ps[|ps| - 1])
  }

  function TotalCost(ps: seq<Position>): real {
    if |ps| == 0 then 0.0 else TotalCost(ps[..|ps| - 1]) + ps[|ps| - 1].cost
  }

  function TotalRealized(ps: seq<Position>): real {
    if |ps| == 0 then 0.0 else TotalRealized(ps[..|ps| - 1]) + ps[|ps| - 1].realized
  }

  /** The `holdings` entry as returned, amounts rounded to paise. */
  datatype Holding = Holding(
    symbol: string, qty: real, avgCost: real, ltpCcy: string, value: Option<real>,
    cost: real, unrealized: Option<real>, realized: real, weight: Option<real>)

  datatype Totals = Totals(cost: real, value: Option<real>, unrealized: Option<real>, realized: real)

  datatype Report = Report(holdings: seq<Holding>, totals: Totals)

  /** The weight of a value in the total, in percent, before rounding. */
  function WeightOf(v: real, total: real): real
    requires total > 0.0
  {
    v / total * 100.0
  }

  /** Each position's unrounded weight in a total. */
  function Weights(ps: seq<Position>, total: real): (w: seq<real>)
    requires total > 0.0
    ensures |w| == |ps|
    ensures forall k :: 0 <= k < |ps| ==> w[k] == WeightOf(ValueOr0(ps[k]), total)
  {
    seq(|ps|, k requires 0 <= k < |ps| => WeightOf(ValueOr0(ps[k]), total))
  }

  /** Weights are shares of the total value: unrounded, they add up to 100. */
  lemma WeightsSumTo100(ps: seq<Position>)
    requires TotalValue(ps) > 0.0
    ensures Sum(Weights(ps, TotalValue(ps))) == 100.0
  {
    var t := TotalValue(ps);
    ScaledSum(ps, t);
    assert t / t == 1.0;
  }

  lemma {:induction false} ScaledSum(ps: seq<Position>, t: real)
    requires t > 0.0
    ensures Sum(Weights(ps, t)) == TotalValue(ps) / t * 100.0
  {
    if |ps| > 0 {
      var init := ps[..|ps| - 1];
      ScaledSum(init, t);
      var w := Weights(ps, t);
      assert w[..|w| - 1] == Weights(init, t);
      assert TotalValue(ps) / t == TotalValue(init) / t + ValueOr0(ps[|ps| - 1]) / t;
    }
  }

  function HoldingOf(rnd: RoundFn, p: Position, total: real): (h: Holding)
    requires p.qty > 0.0
    ensures h.symbol == p.symbol && h.qty == p.qty
    ensures h.weight.Some? <==> total > 0.0
    ensures total > 0.0 ==> h.weight == Some(rnd(WeightOf(ValueOr0(p), total), 2))
    ensures h.unrealized.Some? <==> p.value.Some?
  {
    Holding(p.symbol, p.qty, rnd(p.cost / p.qty, 2), p.ltpCcy, p.value, rnd(p.cost, 2),
            if p.value.Some? then Some(rnd(p.value.value - p.cost, 2)) else None,
            rnd(p.realized, 2),
            if total > 0.0 then Some(rnd(WeightOf(ValueOr0(p), total), 2)) else None)
  }

  /** One holding per open position, in order; each weighted exactly when the total is positive. */
  function Holdings(rnd: RoundFn, ps: seq<Position>, total: real): (hs: seq<Holding>)
    requires forall k :: 0 <= k < |ps| ==> ps[k].qty > 0.0
    ensures |hs| == |ps|
    ensures forall k :: 0 <= k < |ps| ==> hs[k] == HoldingOf(rnd, ps[k], total)
    ensures forall h :: h in hs ==> h.qty > 0.0 && (h.weight.Some? <==> total > 0.0)
  {
    seq(|ps|, k requires 0 <= k < |ps| => HoldingOf(rnd, ps[k], total))
  }

  /**
   * `compute_positions`: replay the transactions in trade order, then list
   * the open positions in first-touched order with their weights and the
   * totals. Closed symbols are left out of the holdings and of the realized
   * total; without a positive total value, weights, total value and total
   * unrealized P&L are all missing.
   */
  function ComputePositions(rnd: RoundFn, fx: FxFn, price: PriceFn, fxToday: FxFn, today: int, txs: seq<Tx>)
    : (r: Result<Report, PyError>)
    ensures r.Success? ==> Replay(fx, SortTxs(txs)).Success?
    ensures r.Success? ==> forall h :: h in r.value.holdings ==> h.qty > 0.0
    ensures r.Success? ==> (r.value.totals.value.Some? <==> r.value.totals.unrealized.Some?)
    ensures r.Success? && r.value.totals.value.None? ==> forall h :: h in r.value.holdings ==> h.weight.None?
    ensures r.Success? && r.value.totals.value.Some? ==> forall h :: h in r.value.holdings ==> h.weight.Some?
  {
    var b :- Replay(fx, SortTxs(txs));
    assert forall s :: s in b.order ==> s in b.lots;
    var ps :- PositionsOf(rnd, price, fxToday, today, b, b.order);
    var total := TotalValue(ps);
    var cost := TotalCost(ps);
    var holdings := Holdings(rnd, ps, total);
    Success(Report(holdings, Totals(
      rnd(cost, 2),
      if total > 0.0 then Some(rnd(total, 2)) else None,
      if total > 0.0 then Some(rnd(total - cost, 2)) else None,
      rnd(TotalRealized(ps), 2))))
  }
}
