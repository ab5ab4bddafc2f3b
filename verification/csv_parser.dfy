/**
 * The transaction CSV importer (frontend/src/lib/csvParser.ts): the file is
 * trimmed and split into lines; the header line must name the seven required
 * columns; every further line is split on commas, checked field by field
 * and, when it raised no error, normalised into a transaction.
 *
 * The loop is modelled as written: errors accumulate in one list and a row
 * is emitted when no error in that list carries its row number. Its partner
 * is a per-row definition in which every line is judged on its own; the two
 * agree on every input.
 */
module CsvParser {
  import opened Numeric
  import opened Text
  import opened JsModel

  datatype ValidationError = ValidationError(row: int, field: string, value: string, message: string)

  datatype NewTransaction = NewTransaction(
    tradeDate: string, symbol: string, side: string, quantity: string,
    price: string, fees: string, tradeCcy: string, fxRate: string)

  datatype Parsed = Parsed(transactions: seq<NewTransaction>, errors: seq<ValidationError>)

  const RequiredHeaders: seq<string> := ["trade_date", "symbol", "side", "quantity", "price", "fees", "trade_ccy"]

  const Sides: seq<string> := ["BUY", "SELL", "DIV", "SPLIT", "BONUS", "FEE"]

  /** The required headers absent from `headers`, in the required order. */
  function MissingFrom(required: seq<string>, headers: seq<string>): (m: seq<string>)
    ensures forall h :: h in m <==> h in required && h !in headers
    ensures |m| <= |required|
  {
    if |required| == 0 then []
    else (if required[0] in headers then [] else [required[0]]) + MissingFrom(required[1..], headers)
  }

  /** The header line's names, trimmed and lower-cased. */
  function HeaderNames(line: string): (hs: seq<string>)
    ensures |hs| == |Split(line, ',')|
    ensures forall k :: 0 <= k < |hs| ==> hs[k] == Lower(Trim(Split(line, ',')[k]))
  {
    var cells := Split(line, ',');
    seq(|cells|, k requires 0 <= k < |cells| => Lower(Trim(cells[k])))
  }

  /** A data line's values, trimmed. */
  function Cells(line: string): (vs: seq<string>)
    ensures |vs| == |Split(line, ',')|
    ensures forall k :: 0 <= k < |vs| ==> vs[k] == Trim(Split(line, ',')[k])
  {
    var cells := Split(line, ',');
    seq(|cells|, k requires 0 <= k < |cells| => Trim(cells[k]))
  }

  /** `values[idx]`, where an index past the end reads as undefined, here the empty string. */
  function ValueAt(values: seq<string>, idx: nat): string {
    if idx < |values| then values[idx] else ""
  }

  /**
   * `headers.forEach((h, idx) => row[h] = values[idx])`: every header names
   * a field (a repeated header keeps its last value, see `RowRecordLastWins`).
   */
  function RowRecord(headers: seq<string>, values: seq<string>): (row: map<string, string>)
    ensures forall h :: h in row <==> h in headers
    decreases |headers|
  {
    if |headers| == 0 then map[]
    else
      var n := |headers| - 1;
      assert headers == headers[..n] + [headers[n]];
      RowRecord(headers[..n], values)[headers[n] := ValueAt(values, n)]
  }

  /** A header's field holds the value of its last column. */
  lemma {:induction false} RowRecordLastWins(headers: seq<string>, values: seq<string>, k: nat)
    requires k < |headers|
    requires forall j :: k < j < |headers| ==> headers[j] != headers[k]
    ensures RowRecord(headers, values)[headers[k]] == ValueAt(values, k)
    decreases |headers|
  {
    var n := |headers| - 1;
    if k < n {
      RowRecordLastWins(headers[..n], values, k);
    }
  }

  /** `row.key`, with an absent field read as the empty string (both are falsy). */
  function Field(row: map<string, string>, key: string): string {
    if key in row then row[key] else ""
  }

  /** `/^\d{4}-\d{2}-\d{2}$/`: the shape of a date, not its validity. */
  predicate IsDateShape(s: string) {
    |s| == 10 && s[4] == '-' && s[7] == '-'
    && forall k :: 0 <= k < 10 && k != 4 && k != 7 ==> IsDigit(s[k])
  }

  /** `row.x && !isNaN(parseFloat(row.x))`. */
  predicate NumericField(parse: ParseFloatJs, s: string) {
    TruthyStr(s) && ParsesAsNumber(parse, s)
  }

  /** One check: no error when `ok`, else one error for `field`. */
  function Check(ok: bool, n: int, field: string, value: string, message: string): (es: seq<ValidationError>)
    ensures es == [] <==> ok
    ensures forall k :: 0 <= k < |es| ==> es[k].row == n
  {
    if ok then [] else [ValidationError(n, field, value, message)]
  }

  function DateErrors(d: string, n: int): (es: seq<ValidationError>)
    ensures es == [] <==> IsDateShape(d)
    ensures forall k :: 0 <= k < |es| ==> es[k].row == n
  {
    if !TruthyStr(d) then [ValidationError(n, "trade_date", d, "Trade date is required")]
    else Check(IsDateShape(d), n, "trade_date", d, "Trade date must be YYYY-MM-DD")
  }

  /** The checks that need a value to be present. */
  function PresenceErrors(parse: ParseFloatJs, row: map<string, string>, n: int): (es: seq<ValidationError>)
    ensures forall k :: 0 <= k < |es| ==> es[k].row == n
    ensures es == [] <==>
      IsDateShape(Field(row, "trade_date")) && TruthyStr(Field(row, "symbol"))
      && Upper(Field(row, "side")) in Sides
      && NumericField(parse, Field(row, "quantity")) && NumericField(parse, Field(row, "price"))
  {
    DateErrors(Field(row, "trade_date"), n)
    + Check(TruthyStr(Field(row, "symbol")), n, "symbol", Field(row, "symbol"), "Symbol is required")
    + Check(Upper(Field(row, "side")) in Sides, n, "side", Field(row, "side"),
            "Side must be BUY, SELL, DIV, SPLIT, BONUS, or FEE")
    + Check(NumericField(parse, Field(row, "quantity")), n, "quantity", Field(row, "quantity"), "Quantity must be a number")
    + Check(NumericField(parse, Field(row, "price")), n, "price", Field(row, "price"), "Price must be a number")
  }

  /** The checks of the optional numbers and the currency. */
  function OptionalErrors(parse: ParseFloatJs, row: map<string, string>, n: int): (es: seq<ValidationError>)
    ensures forall k :: 0 <= k < |es| ==> es[k].row == n
    ensures es == [] <==>
      (TruthyStr(Field(row, "fees")) ==> ParsesAsNumber(parse, Field(row, "fees")))
      && TruthyStr(Field(row, "trade_ccy"))
      && (TruthyStr(Field(row, "fx_rate")) ==> ParsesAsNumber(parse, Field(row, "fx_rate")))
  {
    Check(!TruthyStr(Field(row, "fees")) || ParsesAsNumber(parse, Field(row, "fees")),
          n, "fees", Field(row, "fees"), "Fees must be a number")
    + Check(TruthyStr(Field(row, "trade_ccy")), n, "trade_ccy", Field(row, "trade_ccy"), "Trade currency is required")
    + Check(!TruthyStr(Field(row, "fx_rate")) || ParsesAsNumber(parse, Field(row, "fx_rate")),
            n, "fx_rate", Field(row, "fx_rate"), "FX rate must be a number")
  }

  /** The field checks of one complete row, in the order they are made. */
  function RowErrors(parse: ParseFloatJs, row: map<string, string>, n: int): (es: seq<ValidationError>)
    ensures forall k :: 0 <= k < |es| ==> es[k].row == n
    ensures es == [] <==> PresenceErrors(parse, row, n) == [] && OptionalErrors(parse, row, n) == []
  {
    PresenceErrors(parse, row, n) + OptionalErrors(parse, row, n)
  }

  /** Every error of data line `line`, numbered `n`: a column-count error, or the field checks. */
  function LineErrors(parse: ParseFloatJs, headers: seq<string>, line: string, n: int): (es: seq<ValidationError>)
    ensures forall k :: 0 <= k < |es| ==> es[k].row == n
    ensures |Cells(line)| != |headers| ==> |es| == 1
  {
    var values := Cells(line);
    if |values| != |headers| then [ValidationError(n, "format", line, "Row has incorrect number of columns")]
    else RowErrors(parse, RowRecord(headers, values), n)
  }

  /** The transaction a complete row becomes. */
  function Normalise(row: map<string, string>): (t: NewTransaction)
    ensures Upper(t.symbol) == t.symbol && Upper(t.side) == t.side && Upper(t.tradeCcy) == t.tradeCcy
    ensures t.fees != ""
    ensures TruthyStr(Field(row, "fees")) ==> t.fees == Field(row, "fees")
    ensures TruthyStr(Field(row, "fx_rate")) <==> t.fxRate != ""
  {
    UpperIdempotent(Field(row, "symbol"));
    UpperIdempotent(Field(row, "side"));
    UpperIdempotent(Field(row, "trade_ccy"));
    NewTransaction(
      Field(row, "trade_date"),
      Upper(Field(row, "symbol")),
      Upper(Field(row, "side")),
      Field(row, "quantity"),
      Field(row, "price"),
      if TruthyStr(Field(row, "fees")) then Field(row, "fees") else "0",
      Upper(Field(row, "trade_ccy")),
      Field(row, "fx_rate"))
  }

  /** The transaction a data line becomes. */
  function LineTransaction(headers: seq<string>, line: string): NewTransaction {
    Normalise(RowRecord(headers, Cells(line)))
  }

  /** Some error in `es` carries row number `n`: `errors.find(e => e.row === n)`. */
  predicate HasRow(es: seq<ValidationError>, n: int) {
    exists k :: 0 <= k < |es| && es[k].row == n
  }

  /** How a data line is judged: its errors given its row number. */
  type Judge = (string, int) -> seq<ValidationError>

  /** What a data line becomes when it is emitted. */
  type Maker = string -> NewTransaction

  function JudgeOf(parse: ParseFloatJs, headers: seq<string>): Judge {
    (line, n) => LineErrors(parse, headers, line, n)
  }

  function MakerOf(headers: seq<string>): Maker {
    line => LineTransaction(headers, line)
  }

  /**
   * One pass of the loop body for data line `line`, numbered `n`: its
   * errors join the accumulated ones, and the row is emitted when the whole
   * list then holds no error with its number. Since earlier errors carry
   * smaller numbers, only the line's own errors can stop it.
   */
  function Step(judge: Judge, make: Maker, line: string, n: int, acc: Parsed): (r: Parsed)
    requires forall k :: 0 <= k < |acc.errors| ==> acc.errors[k].row < n
    ensures r.errors == acc.errors + judge(line, n)
    ensures r.transactions == acc.transactions + (if HasRow(judge(line, n), n) then [] else [make(line)])
  {
    var own := judge(line, n);
    var errors := acc.errors + own;
    assert HasRow(errors, n) <==> HasRow(own, n) by {
      if HasRow(own, n) {
        var k :| 0 <= k < |own| && own[k].row == n;
        assert errors[|acc.errors| + k].row == n;
      }
      if HasRow(errors, n) {
        var k :| 0 <= k < |errors| && errors[k].row == n;
        assert own[k - |acc.errors|].row == n;
      }
    }
    Parsed(if HasRow(errors, n) then acc.transactions else acc.transactions + [make(line)], errors)
  }

  /** Every line from `i` on is judged with errors carrying its own number. */
  predicate Numbered(judge: Judge, lines: seq<string>, i: nat) {
    forall k :: i <= k < |lines| ==> NumberedLine(judge, lines[k], k + 1)
  }

  predicate NumberedLine(judge: Judge, line: string, n: int) {
    forall j :: 0 <= j < |judge(line, n)| ==> judge(line, n)[j].row == n
  }

  /** The loop over data lines `i..` as written. */
  function Loop(judge: Judge, make: Maker, lines: seq<string>, i: nat, acc: Parsed): Parsed
    requires i <= |lines| && Numbered(judge, lines, i)
    requires forall k :: 0 <= k < |acc.errors| ==> acc.errors[k].row <= i
    decreases |lines| - i
  {
    if i == |lines| then acc
    else
      var next := Step(judge, make, lines[i], i + 1, acc);
      assert forall k :: 0 <= k < |next.errors| ==> next.errors[k].row <= i + 1 by {
        forall k | 0 <= k < |next.errors| ensures next.errors[k].row <= i + 1 {
          if k >= |acc.errors| {
            assert next.errors[k] == judge(lines[i], i + 1)[k - |acc.errors|];
          }
        }
      }
      Loop(judge, make, lines, i + 1, next)
  }

  /** The reference: each data line from `i` judged on its own. */
  function PerRow(judge: Judge, make: Maker, lines: seq<string>, i: nat): (p: Parsed)
    requires i <= |lines|
    ensures |p.transactions| <= |lines| - i
    decreases |lines| - i
  {
    if i == |lines| then Parsed([], [])
    else
      var own := judge(lines[i], i + 1);
      var rest := PerRow(judge, make, lines, i + 1);
      Parsed((if HasRow(own, i + 1) then [] else [make(lines[i])]) + rest.transactions, own + rest.errors)
  }

  /**
   * `parseCsv`: transactions come only from a file whose header line has
   * every required column, at most one per data line.
   */
  function ParseCsv(parse: ParseFloatJs, content: string): (r: Parsed)
    ensures r.transactions == [] || |r.transactions| < |Split(Trim(content), '\n')|
    ensures r.transactions != [] ==>
      forall h :: h in RequiredHeaders ==> h in HeaderNames(Split(Trim(content), '\n')[0])
  {
    var lines := Split(Trim(content), '\n');
    if |lines| < 2 then
      Parsed([], [ValidationError(0, "file", "", "CSV must have at least a header and one data row")])
    else
      var headers := HeaderNames(lines[0]);
      var missing := MissingFrom(RequiredHeaders, headers);
      if |missing| > 0 then
        Parsed([], [ValidationError(0, "headers", "", "Missing required columns: " + Join(missing, ", "))])
      else
        JudgeNumbered(parse, headers, lines);
        LoopMatchesPerRow(JudgeOf(parse, headers), MakerOf(headers), lines, 1, Parsed([], []));
        Loop(JudgeOf(parse, headers), MakerOf(headers), lines, 1, Parsed([], []))
  }

  lemma JudgeNumbered(parse: ParseFloatJs, headers: seq<string>, lines: seq<string>)
    ensures Numbered(JudgeOf(parse, headers), lines, 1)
  {
  }

  /** The accumulating loop agrees with the per-row reference. */
  lemma {:induction false} LoopMatchesPerRow(judge: Judge, make: Maker, lines: seq<string>, i: nat, acc: Parsed)
    requires i <= |lines| && Numbered(judge, lines, i)
    requires forall k :: 0 <= k < |acc.errors| ==> acc.errors[k].row <= i
    ensures Loop(judge, make, lines, i, acc)
            == Parsed(acc.transactions + PerRow(judge, make, lines, i).transactions,
                      acc.errors + PerRow(judge, make, lines, i).errors)
    decreases |lines| - i
  {
    if i < |lines| {
      var own := judge(lines[i], i + 1);
      var mine := if HasRow(own, i + 1) then [] else [make(lines[i])];
      var next := Step(judge, make, lines[i], i + 1, acc);
      LoopStep(judge, make, lines, i, acc);
      LoopMatchesPerRow(judge, make, lines, i + 1, next);
      PerRowStep(judge, make, lines, i);
      var rest := PerRow(judge, make, lines, i + 1);
      JoinStep(acc, next, mine, own, rest, PerRow(judge, make, lines, i),
               Loop(judge, make, lines, i, acc), Loop(judge, make, lines, i + 1, next));
    } else {
      assert acc.transactions + [] == acc.transactions;
      assert acc.errors + [] == acc.errors;
    }
  }

  /**
   * The bookkeeping of one loop pass: when the pass appends `mine` and `own`
   * and the rest of the loop appends the rest of the reference, the whole
   * loop appends the whole reference.
   */
  lemma JoinStep(acc: Parsed, next: Parsed, mine: seq<NewTransaction>, own: seq<ValidationError>,
                 rest: Parsed, whole: Parsed, loop: Parsed, loopNext: Parsed)
    requires next.transactions == acc.transactions + mine && next.errors == acc.errors + own
    requires whole.transactions == mine + rest.transactions && whole.errors == own + rest.errors
    requires loop == loopNext
    requires loopNext == Parsed(next.transactions + rest.transactions, next.errors + rest.errors)
    ensures loop == Parsed(acc.transactions + whole.transactions, acc.errors + whole.errors)
  {
    assert next.transactions + rest.transactions == acc.transactions + (mine + rest.transactions);
    assert next.errors + rest.errors == acc.errors + (own + rest.errors);
  }

  /** Every error carries a row number no larger than `n`. */
  predicate RowsUpTo(es: seq<ValidationError>, n: int) {
    forall k :: 0 <= k < |es| ==> es[k].row <= n
  }

  /** One pass of the loop: the line's step, then the rest of the lines. */
  lemma LoopStep(judge: Judge, make: Maker, lines: seq<string>, i: nat, acc: Parsed)
    requires i < |lines| && Numbered(judge, lines, i)
    requires forall k :: 0 <= k < |acc.errors| ==> acc.errors[k].row <= i
    ensures RowsUpTo(Step(judge, make, lines[i], i + 1, acc).errors, i + 1)
    ensures Loop(judge, make, lines, i, acc) == Loop(judge, make, lines, i + 1, Step(judge, make, lines[i], i + 1, acc))
  {
    var next := Step(judge, make, lines[i], i + 1, acc);
    forall k | 0 <= k < |next.errors| ensures next.errors[k].row <= i + 1 {
      if k >= |acc.errors| {
        assert next.errors[k] == judge(lines[i], i + 1)[k - |acc.errors|];
      }
    }
  }

  /** One line of the reference: its own verdict, then the rest. */
  lemma PerRowStep(judge: Judge, make: Maker, lines: seq<string>, i: nat)
    requires i < |lines|
    ensures PerRow(judge, make, lines, i).errors == judge(lines[i], i + 1) + PerRow(judge, make, lines, i + 1).errors
    ensures PerRow(judge, make, lines, i).transactions
            == (if HasRow(judge(lines[i], i + 1), i + 1) then [] else [make(lines[i])])
               + PerRow(judge, make, lines, i + 1).transactions
  {
  }

  /** The errors of one row number, in order. */
  function ErrorsOfRow(es: seq<ValidationError>, n: int): (r: seq<ValidationError>)
    ensures forall k :: 0 <= k < |r| ==> r[k].row == n
  {
    if |es| == 0 then []
    else (if es[0].row == n then [es[0]] else []) + ErrorsOfRow(es[1..], n)
  }

  lemma {:induction false} ErrorsOfRowAppend(a: seq<ValidationError>, b: seq<ValidationError>, n: int)
    ensures ErrorsOfRow(a + b, n) == ErrorsOfRow(a, n) + ErrorsOfRow(b, n)
  {
    if |a| > 0 {
      ErrorsOfRowAppend(a[1..], b, n);
      assert (a + b)[1..] == a[1..] + b;
    } else {
      assert a + b == b;
    }
  }

  lemma {:induction false} ErrorsOfRowAll(es: seq<ValidationError>, n: int)
    requires forall k :: 0 <= k < |es| ==> es[k].row == n
    ensures ErrorsOfRow(es, n) == es
  {
    if |es| > 0 {
      ErrorsOfRowAll(es[1..], n);
      assert es == [es[0]] + es[1..];
    }
  }

  lemma {:induction false} ErrorsOfRowNone(es: seq<ValidationError>, n: int)
    requires forall k :: 0 <= k < |es| ==> es[k].row != n
    ensures ErrorsOfRow(es, n) == []
  {
    if |es| > 0 {
      ErrorsOfRowNone(es[1..], n);
    }
  }

  /** Per-row errors are numbered within the data lines. */
  lemma {:induction false} PerRowNumbers(judge: Judge, make: Maker, lines: seq<string>, i: nat)
    requires i <= |lines| && Numbered(judge, lines, i)
    ensures forall k :: 0 <= k < |PerRow(judge, make, lines, i).errors|
              ==> i + 1 <= PerRow(judge, make, lines, i).errors[k].row <= |lines|
    decreases |lines| - i
  {
    if i < |lines| {
      PerRowNumbers(judge, make, lines, i + 1);
      var own := judge(lines[i], i + 1);
      var rest := PerRow(judge, make, lines, i + 1);
      assert forall k :: 0 <= k < |own| ==> own[k].row == i + 1;
      assert PerRow(judge, make, lines, i).errors == own + rest.errors;
    }
  }

  /** The per-row errors from `i` are line `i`'s own followed by the rest's. */
  lemma PerRowErrorsCons(judge: Judge, make: Maker, lines: seq<string>, i: nat)
    requires i < |lines|
    ensures PerRow(judge, make, lines, i).errors == judge(lines[i], i + 1) + PerRow(judge, make, lines, i + 1).errors
  {
  }

  /** In the per-row result, the errors numbered `k + 1` are exactly line `k`'s own errors. */
  lemma {:induction false} PerRowErrorsOfLine(judge: Judge, make: Maker, lines: seq<string>, i: nat, k: nat)
    requires i <= k < |lines| && Numbered(judge, lines, i)
    ensures ErrorsOfRow(PerRow(judge, make, lines, i).errors, k + 1) == judge(lines[k], k + 1)
    decreases |lines| - i
  {
    var own := judge(lines[i], i + 1);
    var rest := PerRow(judge, make, lines, i + 1).errors;
    PerRowErrorsCons(judge, make, lines, i);
    assert NumberedLine(judge, lines[i], i + 1);
    ErrorsOfRowAppend(own, rest, k + 1);
    if k == i {
      ErrorsOfRowAll(own, k + 1);
      PerRowNumbers(judge, make, lines, i + 1);
      ErrorsOfRowNone(rest, k + 1);
      assert own + [] == own;
    } else {
      ErrorsOfRowNone(own, k + 1);
      PerRowErrorsOfLine(judge, make, lines, i + 1, k);
    }
  }

  /** A transaction that passed every field check. */
  predicate Valid(parse: ParseFloatJs, t: NewTransaction) {
    IsDateShape(t.tradeDate) && t.symbol != "" && t.side in Sides
    && NumericField(parse, t.quantity) && NumericField(parse, t.price)
    && t.fees != "" && t.tradeCcy != ""
    && Upper(t.symbol) == t.symbol && Upper(t.tradeCcy) == t.tradeCcy
  }

  /** A line without errors becomes a valid transaction. */
  lemma CleanLineIsValid(parse: ParseFloatJs, headers: seq<string>, line: string, n: int)
    requires LineErrors(parse, headers, line, n) == []
    ensures Valid(parse, LineTransaction(headers, line))
  {
    var row := RowRecord(headers, Cells(line));
    assert TruthyStr(Field(row, "symbol"));
    assert TruthyStr(Field(row, "trade_ccy"));
  }

  /** A line's errors carry its number, so it has one with its number exactly when it has any. */
  lemma LineHasRow(parse: ParseFloatJs, headers: seq<string>, line: string, n: int)
    ensures HasRow(LineErrors(parse, headers, line, n), n) <==> LineErrors(parse, headers, line, n) != []
  {
    var es := LineErrors(parse, headers, line, n);
    if es != [] {
      assert es[0].row == n;
    }
  }

  /** Every per-row transaction is what some line without an error of its number becomes. */
  lemma {:induction false} PerRowEmitsClean(judge: Judge, make: Maker, lines: seq<string>, i: nat)
    requires i <= |lines|
    ensures forall t :: t in PerRow(judge, make, lines, i).transactions ==>
              exists k :: i <= k < |lines| && !HasRow(judge(lines[k], k + 1), k + 1) && t == make(lines[k])
    decreases |lines| - i
  {
    if i < |lines| {
      PerRowEmitsClean(judge, make, lines, i + 1);
    }
  }

  /** `s.split(c)` has one piece exactly when `c` does not occur. */
  lemma {:induction false} SplitSingle(s: string, c: char)
    ensures |Split(s, c)| == 1 <==> c !in s
  {
    if |s| > 0 {
      SplitSingle(s[1..], c);
      assert s == [s[0]] + s[1..];
    }
  }

  /** A file without a line break after trimming yields one 'file' error and nothing else. */
  lemma OneLineFileRejected(parse: ParseFloatJs, content: string)
    requires '\n' !in Trim(content)
    ensures ParseCsv(parse, content)
            == Parsed([], [ValidationError(0, "file", "", "CSV must have at least a header and one data row")])
  {
    SplitSingle(Trim(content), '\n');
  }

  /**
   * A header line lacking required columns yields one 'headers' error that
   * names every missing column, and no row is read.
   */
  lemma MissingHeadersRejected(parse: ParseFloatJs, content: string)
    requires |Split(Trim(content), '\n')| >= 2
    requires exists h :: h in RequiredHeaders && h !in HeaderNames(Split(Trim(content), '\n')[0])
    ensures var hs := HeaderNames(Split(Trim(content), '\n')[0]);
            var r := ParseCsv(parse, content);
            r.transactions == [] && |r.errors| == 1 && r.errors[0].row == 0 && r.errors[0].field == "headers"
            && r.errors[0].message == "Missing required columns: " + Join(MissingFrom(RequiredHeaders, hs), ", ")
            && (forall h :: h in MissingFrom(RequiredHeaders, hs) <==> h in RequiredHeaders && h !in hs)
  {
    var hs := HeaderNames(Split(Trim(content), '\n')[0]);
    var h :| h in RequiredHeaders && h !in hs;
    assert h in MissingFrom(RequiredHeaders, hs);
  }

  lemma {:induction false} NoneMissing(required: seq<string>, headers: seq<string>)
    requires forall h :: h in required ==> h in headers
    ensures MissingFrom(required, headers) == []
  {
    if |required| > 0 {
      NoneMissing(required[1..], headers);
    }
  }

  /**
   * Once the header line is complete, line k (counting the header as line
   * 1) has an error numbered k + 1 exactly when it fails its own checks,
   * every error is numbered within the data lines, and the transactions are
   * those of the lines without errors, all of them valid.
   */
  lemma ParseCsvIsLoop(parse: ParseFloatJs, content: string)
    requires |Split(Trim(content), '\n')| >= 2
    requires forall h :: h in RequiredHeaders ==> h in HeaderNames(Split(Trim(content), '\n')[0])
    ensures var lines := Split(Trim(content), '\n');
            var hs := HeaderNames(lines[0]);
            Numbered(JudgeOf(parse, hs), lines, 1)
            && ParseCsv(parse, content) == Loop(JudgeOf(parse, hs), MakerOf(hs), lines, 1, Parsed([], []))
  {
    var lines := Split(Trim(content), '\n');
    var hs := HeaderNames(lines[0]);
    NoneMissing(RequiredHeaders, hs);
    assert |MissingFrom(RequiredHeaders, hs)| == 0;
    JudgeNumbered(parse, hs, lines);
  }

  /** A line the concrete judgement lets through becomes a valid transaction. */
  lemma JudgeSound(parse: ParseFloatJs, hs: seq<string>, line: string, n: int)
    ensures !HasRow(JudgeOf(parse, hs)(line, n), n) ==> ValidOf(parse)(MakerOf(hs)(line))
  {
    LineHasRow(parse, hs, line, n);
    if LineErrors(parse, hs, line, n) == [] {
      CleanLineIsValid(parse, hs, line, n);
    }
  }

  /** Per-row errors, for the concrete judgement: each line's own, numbered within the data lines. */
  lemma PerRowErrorFacts(parse: ParseFloatJs, hs: seq<string>, lines: seq<string>)
    requires |lines| >= 1
    ensures var p := PerRow(JudgeOf(parse, hs), MakerOf(hs), lines, 1);
            (forall k :: 1 <= k < |lines| ==>
               ErrorsOfRow(p.errors, k + 1) == JudgeOf(parse, hs)(lines[k], k + 1))
            && (forall k :: 0 <= k < |p.errors| ==> 2 <= p.errors[k].row <= |lines|)
  {
    var judge := JudgeOf(parse, hs);
    var make := MakerOf(hs);
    JudgeNumbered(parse, hs, lines);
    forall k | 1 <= k < |lines|
      ensures ErrorsOfRow(PerRow(judge, make, lines, 1).errors, k + 1) == judge(lines[k], k + 1)
    {
      PerRowErrorsOfLine(judge, make, lines, 1, k);
    }
    PerRowNumbers(judge, make, lines, 1);
  }

  /** Every line the judgement lets through makes a transaction `ok` accepts. */
  ghost predicate Sound(judge: Judge, make: Maker, ok: NewTransaction -> bool) {
    forall line, n :: !HasRow(judge(line, n), n) ==> ok(make(line))
  }

  /** With a sound judgement, all per-row transactions are accepted. */
  lemma PerRowAllAccepted(judge: Judge, make: Maker, lines: seq<string>, i: nat, ok: NewTransaction -> bool)
    requires i <= |lines| && Sound(judge, make, ok)
    ensures forall t :: t in PerRow(judge, make, lines, i).transactions ==> ok(t)
  {
    PerRowEmitsClean(judge, make, lines, i);
  }

  function ValidOf(parse: ParseFloatJs): NewTransaction -> bool {
    t => Valid(parse, t)
  }

  /** The concrete judgement is sound for validity. */
  lemma JudgeSoundAll(parse: ParseFloatJs, hs: seq<string>)
    ensures Sound(JudgeOf(parse, hs), MakerOf(hs), ValidOf(parse))
  {
    forall line, n
      ensures !HasRow(JudgeOf(parse, hs)(line, n), n) ==> ValidOf(parse)(MakerOf(hs)(line))
    {
      JudgeSound(parse, hs, line, n);
    }
  }

  /** Per-row transactions, for the concrete judgement, all passed every check. */
  lemma PerRowValidFacts(parse: ParseFloatJs, hs: seq<string>, lines: seq<string>)
    requires |lines| >= 1
    ensures forall t :: t in PerRow(JudgeOf(parse, hs), MakerOf(hs), lines, 1).transactions ==> ValidOf(parse)(t)
  {
    JudgeSoundAll(parse, hs);
    PerRowAllAccepted(JudgeOf(parse, hs), MakerOf(hs), lines, 1, ValidOf(parse));
  }

  /**
   * Once the header line is complete, the result is the per-row one: line
   * k (counting the header as line 1) has errors numbered k + 1 exactly
   * when it fails its own checks, and then exactly those; every error is
   * numbered within the data lines; every transaction passed every check.
   */
  lemma {:induction false} RowsJudgedOnTheirOwn(parse: ParseFloatJs, content: string)
    requires |Split(Trim(content), '\n')| >= 2
    requires forall h :: h in RequiredHeaders ==> h in HeaderNames(Split(Trim(content), '\n')[0])
    ensures var lines := Split(Trim(content), '\n');
            var hs := HeaderNames(lines[0]);
            var r := ParseCsv(parse, content);
            r == PerRow(JudgeOf(parse, hs), MakerOf(hs), lines, 1)
            && (forall k :: 1 <= k < |lines| ==>
                  ErrorsOfRow(r.errors, k + 1) == JudgeOf(parse, hs)(lines[k], k + 1))
            && (forall k :: 0 <= k < |r.errors| ==> 2 <= r.errors[k].row <= |lines|)
            && (forall t :: t in r.transactions ==> ValidOf(parse)(t))
  {
    var lines := Split(Trim(content), '\n');
    var hs := HeaderNames(lines[0]);
    ParseCsvIsLoop(parse, content);
    LoopMatchesPerRow(JudgeOf(parse, hs), MakerOf(hs), lines, 1, Parsed([], []));
    var p := PerRow(JudgeOf(parse, hs), MakerOf(hs), lines, 1);
    assert [] + p.transactions == p.transactions;
    assert [] + p.errors == p.errors;
    PerRowErrorFacts(parse, hs, lines);
    PerRowValidFacts(parse, hs, lines);
  }

  /** A line whose column count differs from the header's yields exactly one 'format' error. */
  lemma WrongWidthIsFormatError(parse: ParseFloatJs, headers: seq<string>, line: string, n: int)
    requires |Cells(line)| != |headers|
    ensures LineErrors(parse, headers, line, n) == [ValidationError(n, "format", line, "Row has incorrect number of columns")]
  {
  }
}
