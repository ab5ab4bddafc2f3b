/**
 * Reading the "Data Sheet" of an uploaded workbook
 * (backend/routers/upload_parser.py): header formatting and de-duplication,
 * table extraction under a section label, `None` cells to 0, the
 * timestamp-to-string sanitiser, and the years common to the three
 * statements.
 *
 * The sheet arrives as a rectangular grid of cells. Date parsing with
 * `strftime("%b-%Y")` and `str()` of a non-string value are oracles; the
 * META block is read by code outside this model and arrives as a map.
 */
module UploadParser {
  import opened Wrappers
  import opened Numeric
  import opened Text
  import opened PyModel

  /** `pd.to_datetime(h).strftime("%b-%Y")`, or nothing when either step raises. */
  type DateFn = PyValue -> Option<string>

  /* ---------------- format_column_headers ---------------- */

  /** `pd.notnull(h) and str(h).strip()`. */
  predicate NonBlank(show: ShowFn, h: PyValue) {
    !IsNa(h) && |Trim(Str(show, h))| > 0
  }

  /** A header that is neither a date nor a non-blank value gets an `Unnamed_k` name. */
  predicate IsBlank(date: DateFn, show: ShowFn, h: PyValue) {
    date(h).None? && !NonBlank(show, h)
  }

  /** The number of blank headers in `hs`. */
  function BlankCount(date: DateFn, show: ShowFn, hs: seq<PyValue>): nat {
    if |hs| == 0 then 0
    else (if IsBlank(date, show, hs[0]) then 1 else 0) + BlankCount(date, show, hs[1..])
  }

  /** The prefix of a blank header's placeholder name. */
  const UnnamedPrefix: string := "Unnamed_"

  /** The placeholder name of the `k`-th blank header. */
  function UnnamedLabel(k: nat): string {
    UnnamedPrefix + NatToString(k)
  }

  /** One header before de-duplication, `blank` being the number a blank would get. */
  function FormatOne(date: DateFn, show: ShowFn, h: PyValue, blank: nat): string {
    if date(h).Some? then date(h).value
    else if NonBlank(show, h) then Str(show, h)
    else UnnamedLabel(blank)
  }

  /**
   * The first loop of `format_column_headers`, with blanks numbered from
   * `next`: each header is formatted on its own, and a blank one takes the
   * next number.
   */
  function FormatFrom(date: DateFn, show: ShowFn, hs: seq<PyValue>, next: nat): (r: seq<string>)
    ensures |r| == |hs|
    decreases |hs|
  {
    if |hs| == 0 then []
    else
      [FormatOne(date, show, hs[0], next)]
      + FormatFrom(date, show, hs[1..], if IsBlank(date, show, hs[0]) then next + 1 else next)
  }

  /** Header `i` is formatted with the number of blanks before it. */
  lemma {:induction false} FormatFromAt(date: DateFn, show: ShowFn, hs: seq<PyValue>, next: nat, i: nat)
    requires i < |hs|
    ensures FormatFrom(date, show, hs, next)[i] == FormatOne(date, show, hs[i], next + BlankCount(date, show, hs[..i]))
    decreases i
  {
    if i == 0 {
      assert hs[..0] == [];
    } else {
      var next' := if IsBlank(date, show, hs[0]) then next + 1 else next;
      FormatFromAt(date, show, hs[1..], next', i - 1);
      FormatFromStep(date, show, hs, next, i);
      BlankCountStep(date, show, hs, i);
      assert hs[1..][i - 1] == hs[i];
    }
  }

  /** Header `i > 0` of a list is header `i - 1` of its tail, numbered on from the first header. */
  lemma FormatFromStep(date: DateFn, show: ShowFn, hs: seq<PyValue>, next: nat, i: nat)
    requires 0 < i < |hs|
    ensures FormatFrom(date, show, hs, next)[i]
            == FormatFrom(date, show, hs[1..], if IsBlank(date, show, hs[0]) then next + 1 else next)[i - 1]
  {
  }

  /** The blanks among the first `i` headers: the first header's, then those of the tail's first `i - 1`. */
  lemma BlankCountStep(date: DateFn, show: ShowFn, hs: seq<PyValue>, i: nat)
    requires 0 < i <= |hs|
    ensures BlankCount(date, show, hs[..i])
            == (if IsBlank(date, show, hs[0]) then 1 else 0) + BlankCount(date, show, hs[1..][..i - 1])
  {
    assert hs[..i][1..] == hs[1..][..i - 1];
  }

  /** How often `x` occurs in `s`. */
  function Occurrences(s: seq<string>, x: string): nat {
    if |s| == 0 then 0
    else Occurrences(s[..|s| - 1], x) + (if s[|s| - 1] == x then 1 else 0)
  }

  /** The `n`-th occurrence of a header: the first as it is, later ones with `_n`. */
  function Suffixed(h: string, n: nat): string {
    if n > 1 then h + "_" + NatToString(n) else h
  }

  /** A `Counter` lookup: 0 for a header not seen yet. */
  function Seen(counts: map<string, nat>, h: string): nat {
    if h in counts then counts[h] else 0
  }

  /** The second loop of `format_column_headers`, counting with a `Counter` map. */
  function DedupFrom(counts: map<string, nat>, hs: seq<string>): (r: seq<string>)
    ensures |r| == |hs|
    decreases |hs|
  {
    if |hs| == 0 then []
    else
      var c := Seen(counts, hs[0]) + 1;
      [Suffixed(hs[0], c)] + DedupFrom(counts[hs[0] := c], hs[1..])
  }

  lemma {:induction false} DedupFromExtends(counts: map<string, nat>, hs: seq<string>)
    ensures forall i :: 0 <= i < |hs| ==> StartsWith(DedupFrom(counts, hs)[i], hs[i])
    decreases |hs|
  {
    if |hs| > 0 {
      var c := Seen(counts, hs[0]) + 1;
      SuffixedExtends(hs[0], c);
      DedupFromExtends(counts[hs[0] := c], hs[1..]);
    }
  }

  lemma SuffixedExtends(h: string, n: nat)
    ensures StartsWith(Suffixed(h, n), h)
  {
    if n > 1 {
      ConcatAffixes(h, "_" + NatToString(n));
      assert h + "_" + NatToString(n) == h + ("_" + NatToString(n));
    }
  }

  /** One header per input header, each starting with it; the first header is kept as it is. */
  function Dedup(hs: seq<string>): (r: seq<string>)
    ensures |r| == |hs|
    ensures forall i :: 0 <= i < |hs| ==> StartsWith(r[i], hs[i])
    ensures |hs| > 0 ==> r[0] == hs[0]
  {
    DedupFromExtends(map[], hs);
    DedupFrom(map[], hs)
  }

  /** `format_column_headers`: one output name per input header. */
  function FormatColumnHeaders(date: DateFn, show: ShowFn, hs: seq<PyValue>): (r: seq<string>)
    ensures |r| == |hs|
  {
    Dedup(FormatFrom(date, show, hs, 1))
  }

  lemma OccurrencesCons(x: string, s: seq<string>, h: string)
    ensures Occurrences([x] + s, h) == (if x == h then 1 else 0) + Occurrences(s, h)
    decreases |s|
  {
    if |s| > 0 {
      assert ([x] + s)[..|[x] + s| - 1] == [x] + s[..|s| - 1];
      OccurrencesCons(x, s[..|s| - 1], h);
    }
  }

  /**
   * The Counter-based loop agrees with counting: the header at position `i`
   * is suffixed with the number of times it occurs up to and including
   * position `i` (plus what the counter held before).
   */
  lemma {:induction false} DedupFromCounts(counts: map<string, nat>, hs: seq<string>, i: nat)
    requires i < |hs|
    ensures DedupFrom(counts, hs)[i] == Suffixed(hs[i], Seen(counts, hs[i]) + Occurrences(hs[..i + 1], hs[i]))
    decreases i
  {
    var c := Seen(counts, hs[0]) + 1;
    if i == 0 {
      assert hs[..1] == [hs[0]];
      OccurrencesCons(hs[0], [], hs[0]);
    } else {
      DedupFromCounts(counts[hs[0] := c], hs[1..], i - 1);
      DedupFromStep(counts, hs, i);
      CountsStep(counts, hs, i);
      assert hs[1..][i - 1] == hs[i];
    }
  }

  /** Header `i > 0` is renamed as header `i - 1` of the tail, after the first header is counted. */
  lemma DedupFromStep(counts: map<string, nat>, hs: seq<string>, i: nat)
    requires 0 < i < |hs|
    ensures DedupFrom(counts, hs)[i] == DedupFrom(counts[hs[0] := Seen(counts, hs[0]) + 1], hs[1..])[i - 1]
  {
  }

  /** Counting the first header in the map or among the occurrences gives the same number. */
  lemma CountsStep(counts: map<string, nat>, hs: seq<string>, i: nat)
    requires 0 < i < |hs|
    ensures var counts' := counts[hs[0] := Seen(counts, hs[0]) + 1];
            Seen(counts, hs[i]) + Occurrences(hs[..i + 1], hs[i])
            == Seen(counts', hs[i]) + Occurrences(hs[1..][..i], hs[i])
  {
    assert hs[..i + 1] == [hs[0]] + hs[1..][..i];
    OccurrencesCons(hs[0], hs[1..][..i], hs[i]);
  }

  /**
   * De-duplication by counting: the `n`-th occurrence of a header (n > 1)
   * is renamed with `_n`, and a header's first occurrence is left as it is.
   */
  lemma DedupNumbersOccurrences(hs: seq<string>, i: nat)
    requires i < |hs|
    ensures Dedup(hs)[i] == Suffixed(hs[i], Occurrences(hs[..i + 1], hs[i]))
    ensures hs[i] !in hs[..i] ==> Dedup(hs)[i] == hs[i]
  {
    DedupFromCounts(map[], hs, i);
    if hs[i] !in hs[..i] {
      OccurrencesAbsent(hs[..i], hs[i]);
      assert hs[..i + 1] == hs[..i] + [hs[i]];
      assert hs[..i + 1][..i] == hs[..i];
    }
  }

  lemma {:induction false} OccurrencesAbsent(s: seq<string>, x: string)
    requires x !in s
    ensures Occurrences(s, x) == 0
    decreases |s|
  {
    if |s| > 0 {
      assert s[..|s| - 1] <= s;
      OccurrencesAbsent(s[..|s| - 1], x);
    }
  }

  /** The result is not always unique: a header that already looks suffixed collides. */
  lemma DedupNotUnique()
    ensures Dedup(["a", "a", "a_2"]) == ["a", "a_2", "a_2"]
  {
    assert NatToString(2) == "2";
    var m1: map<string, nat> := map["a" := 1];
    var m2: map<string, nat> := map["a" := 2];
    assert Suffixed("a", 2) == "a_2";
    assert DedupFrom(m2, ["a_2"]) == ["a_2"];
    assert m1["a" := 2] == m2;
    assert ["a", "a_2"][1..] == ["a_2"];
    assert DedupFrom(m1, ["a", "a_2"]) == ["a_2", "a_2"];
    assert ["a", "a", "a_2"][1..] == ["a", "a_2"];
  }

  /**
   * Blank headers are numbered from 1 in order of appearance, and every
   * other header keeps its date or its text before de-duplication.
   */
  lemma BlankHeadersNumbered(date: DateFn, show: ShowFn, hs: seq<PyValue>, i: nat)
    requires i < |hs|
    ensures IsBlank(date, show, hs[i]) ==>
              FormatFrom(date, show, hs, 1)[i] == UnnamedLabel(1 + BlankCount(date, show, hs[..i]))
    ensures date(hs[i]).Some? ==> FormatFrom(date, show, hs, 1)[i] == date(hs[i]).value
    ensures date(hs[i]).None? && NonBlank(show, hs[i]) ==> FormatFrom(date, show, hs, 1)[i] == Str(show, hs[i])
  {
    FormatFromAt(date, show, hs, 1, i);
  }

  /* ---------------- extract_table ---------------- */

  /** The sheet as pandas sees it: rows of cells, all of one width. */
  datatype Frame = Frame(rows: seq<seq<PyValue>>, width: nat)

  predicate Rectangular(df: Frame) {
    forall i :: 0 <= i < |df.rows| ==> |df.rows[i]| == df.width
  }

  /** `extract_table`'s default `col_count`: headers are read from columns 1..10. */
  const ColCount: nat := 11

  /** `df[df.iloc[:, 0] == section].index[0]` searched from row `from`. */
  function FirstLabelled(df: Frame, section: string, from: nat): (r: Option<nat>)
    requires Rectangular(df) && df.width > 0
    ensures r.Some? ==> from <= r.value < |df.rows| && df.rows[r.value][0] == PyStr(section)
    ensures r.Some? ==> forall i :: from <= i < r.value ==> df.rows[i][0] != PyStr(section)
    ensures r.None? ==> forall i :: from <= i < |df.rows| ==> df.rows[i][0] != PyStr(section)
    decreases |df.rows| - from
  {
    if from >= |df.rows| then None
    else if df.rows[from][0] == PyStr(section) then Some(from)
    else FirstLabelled(df, section, from + 1)
  }

  /** A name `extract_table` keeps as a year column. */
  predicate KeepsColumn(h: string) {
    !StartsWith(h, UnnamedPrefix)
  }

  /** `valid_indices`: the positions of the kept headers, ascending. */
  function Kept(f: seq<string>): (r: seq<nat>)
    ensures forall k :: 0 <= k < |r| ==> r[k] < |f| && KeepsColumn(f[r[k]])
    ensures forall j :: 0 <= j < |f| && KeepsColumn(f[j]) ==> j in r
    ensures forall k, l :: 0 <= k < l < |r| ==> r[k] < r[l]
  {
    if |f| == 0 then []
    else
      var prev := Kept(f[..|f| - 1]);
      assert forall j :: 0 <= j < |f| - 1 ==> f[..|f| - 1][j] == f[j];
      prev + (if KeepsColumn(f[|f| - 1]) then [|f| - 1] else [])
  }

  /** The cells of row `i` under the kept columns. */
  function RowValues(df: Frame, i: nat, kept: seq<nat>): (r: seq<PyValue>)
    requires Rectangular(df) && i < |df.rows|
    requires forall k :: 0 <= k < |kept| ==> 1 + kept[k] < df.width
    ensures |r| == |kept|
    ensures forall k :: 0 <= k < |kept| ==> r[k] == df.rows[i][1 + kept[k]]
  {
    seq(|kept|, k requires 0 <= k < |kept| => df.rows[i][1 + kept[k]])
  }

  /** `str(row_label).strip()`. */
  function RowKey(show: ShowFn, df: Frame, i: nat): string
    requires Rectangular(df) && df.width > 0 && i < |df.rows|
  {
    Trim(Str(show, df.rows[i][0]))
  }

  /** The first row at or after `from` whose row label is null, or the row count. */
  function StopRow(df: Frame, from: nat): (r: nat)
    requires Rectangular(df) && df.width > 0
    ensures from <= r || (from > |df.rows| && r == |df.rows|)
    ensures r <= |df.rows| || r == from
    ensures forall i :: from <= i < r && i < |df.rows| ==> !IsNa(df.rows[i][0])
    ensures r < |df.rows| ==> IsNa(df.rows[r][0])
    decreases |df.rows| - from
  {
    if from >= |df.rows| then |df.rows|
    else if IsNa(df.rows[from][0]) then from
    else StopRow(df, from + 1)
  }

  /**
   * The row loop of `extract_table` from row `from`: a null row label ends the
   * table; otherwise the row's kept cells are stored under its stripped
   * section, a later row replacing an earlier one with the same section.
   */
  function ScanRows(show: ShowFn, df: Frame, from: nat, kept: seq<nat>, acc: Table): (t: Table)
    requires Rectangular(df) && df.width > 0
    requires forall k :: 0 <= k < |kept| ==> 1 + kept[k] < df.width
    decreases |df.rows| - from
  {
    if from >= |df.rows| || IsNa(df.rows[from][0]) then acc
    else ScanRows(show, df, from + 1, kept, acc[RowKey(show, df, from) := RowValues(df, from, kept)])
  }

  /** Nothing stored is lost, and every row before the first null label is stored. */
  lemma {:induction false} ScanRowsKeys(show: ShowFn, df: Frame, from: nat, kept: seq<nat>, acc: Table)
    requires Rectangular(df) && df.width > 0
    requires forall k :: 0 <= k < |kept| ==> 1 + kept[k] < df.width
    ensures var t := ScanRows(show, df, from, kept, acc);
            (forall key :: key in acc ==> key in t)
            && forall i :: from <= i < StopRow(df, from) && i < |df.rows| ==> RowKey(show, df, i) in t
    decreases |df.rows| - from
  {
    if !(from >= |df.rows| || IsNa(df.rows[from][0])) {
      var acc' := acc[RowKey(show, df, from) := RowValues(df, from, kept)];
      ScanRowsStep(show, df, from, kept, acc);
      ScanRowsKeys(show, df, from + 1, kept, acc');
    }
  }

  /** One stored row: the loop goes on from the next row, which has the same stop row. */
  lemma ScanRowsStep(show: ShowFn, df: Frame, from: nat, kept: seq<nat>, acc: Table)
    requires Rectangular(df) && df.width > 0
    requires forall k :: 0 <= k < |kept| ==> 1 + kept[k] < df.width
    requires from < |df.rows| && !IsNa(df.rows[from][0])
    ensures ScanRows(show, df, from, kept, acc)
            == ScanRows(show, df, from + 1, kept, acc[RowKey(show, df, from) := RowValues(df, from, kept)])
    ensures StopRow(df, from) == StopRow(df, from + 1)
  {
  }

  /** Every row the loop stores has one cell per kept column. */
  lemma {:induction false} ScanRowsWidth(show: ShowFn, df: Frame, from: nat, kept: seq<nat>, acc: Table)
    requires Rectangular(df) && df.width > 0
    requires forall k :: 0 <= k < |kept| ==> 1 + kept[k] < df.width
    requires forall key :: key in acc ==> |acc[key]| == |kept|
    ensures forall key :: key in ScanRows(show, df, from, kept, acc) ==> |ScanRows(show, df, from, kept, acc)[key]| == |kept|
    decreases |df.rows| - from
  {
    if !(from >= |df.rows| || IsNa(df.rows[from][0])) {
      var key := RowKey(show, df, from);
      var vals := RowValues(df, from, kept);
      var acc' := acc[key := vals];
      assert |vals| == |kept|;
      assert forall k :: k in acc' ==> |acc'[k]| == |kept| by {
        forall k | k in acc' ensures |acc'[k]| == |kept| {
          if k != key { assert acc'[k] == acc[k]; }
        }
      }
      ScanRowsStep(show, df, from, kept, acc);
      ScanRowsWidth(show, df, from + 1, kept, acc');
    }
  }

  /** `key` is the section of some row from `from` up to the first null section. */
  predicate SectionOfRow(show: ShowFn, df: Frame, from: nat, key: string)
    requires Rectangular(df) && df.width > 0
  {
    exists i :: from <= i < StopRow(df, from) && i < |df.rows| && RowKey(show, df, i) == key
  }

  /** The first row's own section counts, and so does any section of the rows after it. */
  lemma SectionOfRowStep(show: ShowFn, df: Frame, from: nat, key: string)
    requires Rectangular(df) && df.width > 0
    requires from < |df.rows| && !IsNa(df.rows[from][0])
    requires key == RowKey(show, df, from) || SectionOfRow(show, df, from + 1, key)
    ensures SectionOfRow(show, df, from, key)
  {
    assert StopRow(df, from) == StopRow(df, from + 1);
    if key == RowKey(show, df, from) {
      assert from < StopRow(df, from);
    } else {
      var i :| from + 1 <= i < StopRow(df, from + 1) && i < |df.rows| && RowKey(show, df, i) == key;
    }
  }

  /** The sections of the rows from `from` up to the first null section. */
  function Sections(show: ShowFn, df: Frame, from: nat): set<string>
    requires Rectangular(df) && df.width > 0
    decreases |df.rows| - from
  {
    if from >= |df.rows| || IsNa(df.rows[from][0]) then {}
    else {RowKey(show, df, from)} + Sections(show, df, from + 1)
  }

  /** Each of those sections belongs to a row before the stop row. */
  lemma {:induction false} SectionsFromRows(show: ShowFn, df: Frame, from: nat, key: string)
    requires Rectangular(df) && df.width > 0
    requires key in Sections(show, df, from)
    ensures SectionOfRow(show, df, from, key)
    decreases |df.rows| - from
  {
    if key != RowKey(show, df, from) {
      SectionsFromRows(show, df, from + 1, key);
    }
    SectionOfRowStep(show, df, from, key);
  }

  /** The loop's keys are exactly those it had and the sections of the rows it reads. */
  lemma {:induction false} ScanRowsKeySet(show: ShowFn, df: Frame, from: nat, kept: seq<nat>, acc: Table)
    requires Rectangular(df) && df.width > 0
    requires forall k :: 0 <= k < |kept| ==> 1 + kept[k] < df.width
    ensures ScanRows(show, df, from, kept, acc).Keys == acc.Keys + Sections(show, df, from)
    decreases |df.rows| - from
  {
    if !(from >= |df.rows| || IsNa(df.rows[from][0])) {
      var here := RowKey(show, df, from);
      var acc' := acc[here := RowValues(df, from, kept)];
      ScanRowsStep(show, df, from, kept, acc);
      ScanRowsKeySet(show, df, from + 1, kept, acc');
      SectionsStep(show, df, from);
      KeySetJoin(ScanRows(show, df, from, kept, acc).Keys, acc.Keys, acc'.Keys, here,
                 Sections(show, df, from), Sections(show, df, from + 1));
    }
  }

  /** The sections of a stored row and of the rows after it. */
  lemma SectionsStep(show: ShowFn, df: Frame, from: nat)
    requires Rectangular(df) && df.width > 0
    requires from < |df.rows| && !IsNa(df.rows[from][0])
    ensures Sections(show, df, from) == {RowKey(show, df, from)} + Sections(show, df, from + 1)
  {
  }

  /** Moving one key from the sections still to read to the keys already stored changes no union. */
  lemma KeySetJoin(keys: set<string>, had: set<string>, had': set<string>, here: string,
                   sections: set<string>, sections': set<string>)
    requires keys == had' + sections' && had' == had + {here} && sections == {here} + sections'
    ensures keys == had + sections
  {
  }

  /** Every section in the table comes from a row before the first null section (or was there already). */
  lemma ScanRowsKeysFromRows(show: ShowFn, df: Frame, from: nat, kept: seq<nat>, acc: Table)
    requires Rectangular(df) && df.width > 0
    requires forall k :: 0 <= k < |kept| ==> 1 + kept[k] < df.width
    ensures forall key :: key in ScanRows(show, df, from, kept, acc) ==> key in acc || SectionOfRow(show, df, from, key)
  {
    ScanRowsKeySet(show, df, from, kept, acc);
    forall key | key in ScanRows(show, df, from, kept, acc) && key !in acc
      ensures SectionOfRow(show, df, from, key)
    {
      SectionsFromRows(show, df, from, key);
    }
  }

  /** The cells `df.iloc[header_row, 1:col_count]`. */
  function HeaderCells(row: seq<PyValue>): (r: seq<PyValue>)
    ensures |r| == (if |row| <= 1 then 0 else MinNat(ColCount, |row|) - 1)
  {
    if |row| <= 1 then [] else row[1..MinNat(ColCount, |row|)]
  }

  /** The headers at the kept positions, in order. */
  function KeptHeaders(formatted: seq<string>, kept: seq<nat>): (years: seq<string>)
    requires forall k :: 0 <= k < |kept| ==> kept[k] < |formatted|
    ensures |years| == |kept|
    ensures forall k :: 0 <= k < |kept| ==> years[k] == formatted[kept[k]]
  {
    seq(|kept|, k requires 0 <= k < |kept| => formatted[kept[k]])
  }

  /** The years of a table and its rows. */
  datatype Extracted = Extracted(rows: Table, years: seq<string>)

  /**
   * `extract_table(df, section, offset)`: the headers sit `offset` rows below
   * the row labelled `section` in column 0; only columns whose formatted
   * header is not `Unnamed_…` are kept, and the years are those headers.
   * A sheet without column 0, without the section, or too short for the
   * header row raises `IndexError`.
   */
  function ExtractTable(date: DateFn, show: ShowFn, df: Frame, section: string, offset: nat)
    : (r: Result<Extracted, PyError>)
    requires Rectangular(df)
    ensures df.width == 0 ==> r == Failure(IndexError)
    ensures df.width > 0 && FirstLabelled(df, section, 0).None? ==> r == Failure(IndexError)
    ensures r.Success? ==> forall y :: y in r.value.years ==> KeepsColumn(y)
    ensures r.Success? ==> forall key :: key in r.value.rows ==> |r.value.rows[key]| == |r.value.years|
  {
    if df.width == 0 then Failure(IndexError)
    else match FirstLabelled(df, section, 0)
      case None => Failure(IndexError)
      case Some(start) =>
        var headerRow := start + offset;
        if headerRow >= |df.rows| then Failure(IndexError)
        else Success(TableAt(date, show, df, headerRow))
  }

  /** The table under the header row: the kept headers as years, and the rows up to the first null section. */
  function TableAt(date: DateFn, show: ShowFn, df: Frame, headerRow: nat): (e: Extracted)
    requires Rectangular(df) && df.width > 0 && headerRow < |df.rows|
    ensures forall y :: y in e.years ==> KeepsColumn(y)
    ensures forall key :: key in e.rows ==> |e.rows[key]| == |e.years|
  {
    var formatted := FormatColumnHeaders(date, show, HeaderCells(df.rows[headerRow]));
    var kept := Kept(formatted);
    ScanRowsWidth(show, df, headerRow + 1, kept, map[]);
    Extracted(ScanRows(show, df, headerRow + 1, kept, map[]), KeptHeaders(formatted, kept))
  }

  /** The kept headers are exactly the formatted headers that are not `Unnamed_…`. */
  lemma KeptHeadersExact(formatted: seq<string>)
    ensures forall y :: y in KeptHeaders(formatted, Kept(formatted)) <==> y in formatted && KeepsColumn(y)
  {
    var kept := Kept(formatted);
    var years := KeptHeaders(formatted, kept);
    forall y | y in formatted && KeepsColumn(y)
      ensures y in years
    {
      var j :| 0 <= j < |formatted| && formatted[j] == y;
      var k :| 0 <= k < |kept| && kept[k] == j;
      assert years[k] == y;
    }
  }

  /** The years under a header row are exactly its kept headers, and every row before the first null section is read. */
  lemma TableAtContents(date: DateFn, show: ShowFn, df: Frame, headerRow: nat)
    requires Rectangular(df) && df.width > 0 && headerRow < |df.rows|
    ensures var formatted := FormatColumnHeaders(date, show, HeaderCells(df.rows[headerRow]));
            var e := TableAt(date, show, df, headerRow);
            (forall y :: y in e.years <==> y in formatted && KeepsColumn(y))
            && (forall i :: headerRow < i < StopRow(df, headerRow + 1) && i < |df.rows| ==> RowKey(show, df, i) in e.rows)
  {
    var formatted := FormatColumnHeaders(date, show, HeaderCells(df.rows[headerRow]));
    KeptHeadersExact(formatted);
    ScanRowsKeys(show, df, headerRow + 1, Kept(formatted), map[]);
  }

  /**
   * The years are exactly the formatted headers that are kept, in column
   * order, and every row read before the first null section is in the table.
   */
  lemma ExtractTableRows(date: DateFn, show: ShowFn, df: Frame, section: string, offset: nat)
    requires Rectangular(df) && df.width > 0 && FirstLabelled(df, section, 0).Some?
    requires FirstLabelled(df, section, 0).value + offset < |df.rows|
    ensures var headerRow := FirstLabelled(df, section, 0).value + offset;
            var formatted := FormatColumnHeaders(date, show, HeaderCells(df.rows[headerRow]));
            var r := ExtractTable(date, show, df, section, offset);
            r.Success?
            && (forall y :: y in r.value.years <==> y in formatted && KeepsColumn(y))
            && (forall i :: headerRow < i < StopRow(df, headerRow + 1) && i < |df.rows| ==> RowKey(show, df, i) in r.value.rows)
  {
    var headerRow := FirstLabelled(df, section, 0).value + offset;
    assert ExtractTable(date, show, df, section, offset) == Success(TableAt(date, show, df, headerRow));
    TableAtContents(date, show, df, headerRow);
  }

  /* ---------------- normalize_table, make_json_safe, parse_excel ---------------- */

  /** `normalize_table`: each `None` cell becomes 0. */
  function NormalizeTable(t: Table): (r: Table)
    ensures r.Keys == t.Keys
    ensures forall k :: k in t ==> |r[k]| == |t[k]|
    ensures forall k, i :: k in t && 0 <= i < |t[k]| ==>
              r[k][i] == (if t[k][i].PyNone? then PyInt(0) else t[k][i])
  {
    map k | k in t :: seq(|t[k]|, i requires 0 <= i < |t[k]| => if t[k][i].PyNone? then PyInt(0) else t[k][i])
  }

  /** A normalized table holds no `None`, and normalizing it again changes nothing. */
  lemma NormalizeTableIdempotent(t: Table)
    ensures forall k, i :: k in NormalizeTable(t) && 0 <= i < |NormalizeTable(t)[k]| ==> !NormalizeTable(t)[k][i].PyNone?
    ensures NormalizeTable(NormalizeTable(t)) == NormalizeTable(t)
  {
    var n := NormalizeTable(t);
    var nn := NormalizeTable(n);
    assert nn.Keys == n.Keys;
    forall k | k in n ensures nn[k] == n[k] {
      assert |nn[k]| == |n[k]|;
    }
  }

  /** The upload's `make_json_safe`: timestamps and NaT become their text, containers are rebuilt. */
  function JsonSafe(show: ShowFn, v: PyValue): (r: PyValue)
    ensures v.PyList? ==> r.PyList? && |r.items| == |v.items|
    ensures v.PyDict? ==> r.PyDict? && |r.entries| == |v.entries|
                          && forall i :: 0 <= i < |v.entries| ==> r.entries[i].0 == v.entries[i].0
    ensures v.PyTimestamp? || v.PyNaT? ==> r == PyStr(show(v))
    ensures !(v.PyList? || v.PyDict? || v.PyTimestamp? || v.PyNaT?) ==> r == v
    decreases v
  {
    match v
    case PyList(items) => PyList(seq(|items|, i requires 0 <= i < |items| => JsonSafe(show, items[i])))
    case PyDict(entries) =>
      PyDict(seq(|entries|, i requires 0 <= i < |entries| => (entries[i].0, JsonSafe(show, entries[i].1))))
    case PyTimestamp(_) => PyStr(show(v))
    case PyNaT => PyStr(show(v))
    case _ => v
  }

  /** No timestamp survives the sanitiser, at any depth. */
  predicate NoTimestamps(v: PyValue)
    decreases v
  {
    match v
    case PyTimestamp(_) => false
    case PyNaT => false
    case PyList(items) => forall i :: 0 <= i < |items| ==> NoTimestamps(items[i])
    case PyDict(entries) => forall i :: 0 <= i < |entries| ==> NoTimestamps(entries[i].1)
    case _ => true
  }

  /** The sanitised value carries no timestamp, and sanitising it again changes nothing. */
  lemma {:induction false} JsonSafeIdempotent(show: ShowFn, v: PyValue)
    ensures NoTimestamps(JsonSafe(show, v))
    ensures JsonSafe(show, JsonSafe(show, v)) == JsonSafe(show, v)
    decreases v
  {
    match v
    case PyList(items) =>
      forall i | 0 <= i < |items| ensures NoTimestamps(JsonSafe(show, items[i]))
                                  && JsonSafe(show, JsonSafe(show, items[i])) == JsonSafe(show, items[i]) {
        JsonSafeIdempotent(show, items[i]);
      }
    case PyDict(entries) =>
      forall i | 0 <= i < |entries| ensures NoTimestamps(JsonSafe(show, entries[i].1))
                                    && JsonSafe(show, JsonSafe(show, entries[i].1)) == JsonSafe(show, entries[i].1) {
        JsonSafeIdempotent(show, entries[i].1);
      }
    case _ =>
  }

  /** A table with every cell sanitised. */
  function JsonSafeTable(show: ShowFn, t: Table): (r: Table)
    ensures r.Keys == t.Keys
    ensures forall k :: k in t ==> |r[k]| == |t[k]|
    ensures forall k, i :: k in t && 0 <= i < |t[k]| ==> r[k][i] == JsonSafe(show, t[k][i])
  {
    map k | k in t :: seq(|t[k]|, i requires 0 <= i < |t[k]| => JsonSafe(show, t[k][i]))
  }

  /** `[y for y in pnl_years if y in bs_years and y in cf_years]`. */
  function CommonYears(pnl: seq<string>, bs: seq<string>, cf: seq<string>): (r: seq<string>)
    ensures forall y :: y in r <==> y in pnl && y in bs && y in cf
    ensures |r| <= |pnl|
  {
    if |pnl| == 0 then []
    else
      var prev := CommonYears(pnl[..|pnl| - 1], bs, cf);
      var y := pnl[|pnl| - 1];
      assert pnl == pnl[..|pnl| - 1] + [y];
      prev + (if y in bs && y in cf then [y] else [])
  }

  /** The common years keep the profit-and-loss order: they are a subsequence of it. */
  predicate SubsequenceOf(r: seq<string>, s: seq<string>)
    decreases |s|
  {
    if |r| == 0 then true
    else if |s| == 0 then false
    else if r[|r| - 1] == s[|s| - 1] then SubsequenceOf(r[..|r| - 1], s[..|s| - 1])
    else SubsequenceOf(r, s[..|s| - 1])
  }

  lemma {:induction false} CommonYearsInOrder(pnl: seq<string>, bs: seq<string>, cf: seq<string>)
    ensures SubsequenceOf(CommonYears(pnl, bs, cf), pnl)
    decreases |pnl|
  {
    if |pnl| > 0 {
      var front := pnl[..|pnl| - 1];
      CommonYearsInOrder(front, bs, cf);
      var y := pnl[|pnl| - 1];
      var r := CommonYears(pnl, bs, cf);
      if !(y in bs && y in cf) {
        assert r == CommonYears(front, bs, cf);
        SubsequenceSkip(r, front, y);
      } else {
        assert r[..|r| - 1] == CommonYears(front, bs, cf);
      }
    }
  }

  /** Appending an element to the longer sequence keeps a subsequence one. */
  lemma {:induction false} SubsequenceSkip(r: seq<string>, s: seq<string>, y: string)
    requires SubsequenceOf(r, s)
    ensures SubsequenceOf(r, s + [y])
    decreases |s|, 1
  {
    var t := s + [y];
    assert t[..|t| - 1] == s;
    if |r| > 0 && r[|r| - 1] == y {
      SubsequenceDropLast(r, s);
    }
  }

  /** Dropping the last element of a subsequence keeps it a subsequence. */
  lemma {:induction false} SubsequenceDropLast(r: seq<string>, s: seq<string>)
    requires |r| > 0 && SubsequenceOf(r, s)
    ensures SubsequenceOf(r[..|r| - 1], s)
    decreases |s|, 0
  {
    var front := s[..|s| - 1];
    assert s == front + [s[|s| - 1]];
    if r[|r| - 1] == s[|s| - 1] {
      SubsequenceSkip(r[..|r| - 1], front, s[|s| - 1]);
    } else {
      SubsequenceDropLast(r, front);
      SubsequenceSkip(r[..|r| - 1], front, s[|s| - 1]);
    }
  }

  /** What `parse_excel` returns, before the JSON encoder. */
  datatype Workbook = Workbook(
    companyName: PyValue, meta: map<string, PyValue>,
    pnl: Table, balanceSheet: Table, cashflow: Table, quarters: Table,
    years: seq<string>, qtrs: seq<string>)

  /** `ws["B1"].value or "Unknown Company"`. */
  function CompanyName(df: Frame): (r: PyValue)
    requires Rectangular(df)
    ensures Truthy(r)
  {
    var b1 := if |df.rows| > 0 && df.width > 1 then df.rows[0][1] else PyNone;
    if Truthy(b1) then b1 else PyStr("Unknown Company")
  }

  /**
   * One statement, normalized and sanitised: same labels and row lengths,
   * every `None` cell 0 and no `None` left.
   */
  function Clean(show: ShowFn, t: Table): (r: Table)
    ensures r.Keys == t.Keys
    ensures forall k :: k in t ==> |r[k]| == |t[k]|
    ensures forall k, i :: k in t && 0 <= i < |t[k]| && t[k][i].PyNone? ==> r[k][i] == PyInt(0)
    ensures forall k, i :: k in t && 0 <= i < |t[k]| ==> !r[k][i].PyNone?
  {
    JsonSafeTable(show, NormalizeTable(t))
  }

  /**
   * `extract_meta` takes the first row labelled META; without one its
   * `.index[0]` raises `IndexError`. The label/value pairs under it are
   * the `meta` map `ParseExcel` is given.
   */
  predicate HasMeta(df: Frame)
    requires Rectangular(df)
  {
    df.width > 0 && FirstLabelled(df, "META", 0).Some?
  }

  /**
   * The META block can be read: besides the META row, the sheet has the
   * two columns `df_meta.columns = ["Label", "Value"]` names; with one
   * column that assignment is a length mismatch and raises `ValueError`.
   */
  predicate MetaReadable(df: Frame)
    requires Rectangular(df)
  {
    HasMeta(df) && df.width >= 2
  }

  /**
   * `parse_excel` after the workbook has been loaded: the META block
   * (missing, or in a one-column sheet, it raises), the four tables (any missing section raises),
   * `None` cells as 0, timestamps as text, and the years common to the
   * three statements.
   */
  function ParseExcel(date: DateFn, show: ShowFn, df: Frame, meta: map<string, PyValue>)
    : (r: Result<Workbook, PyError>)
    requires Rectangular(df)
    ensures !HasMeta(df) ==> r == Failure(IndexError)
    ensures HasMeta(df) && df.width < 2 ==> r == Failure(ValueError)
    ensures r.Success? ==>
              MetaReadable(df)
              && ExtractTable(date, show, df, "PROFIT & LOSS", 1).Success?
              && ExtractTable(date, show, df, "BALANCE SHEET", 1).Success?
              && ExtractTable(date, show, df, "CASH FLOW:", 1).Success?
              && ExtractTable(date, show, df, "Quarters", 1).Success?
    ensures r.Success? ==>
              var p := ExtractTable(date, show, df, "PROFIT & LOSS", 1).value;
              var b := ExtractTable(date, show, df, "BALANCE SHEET", 1).value;
              var c := ExtractTable(date, show, df, "CASH FLOW:", 1).value;
              r.value.years == CommonYears(p.years, b.years, c.years)
              && r.value.pnl.Keys == p.rows.Keys
    ensures ExtractTable(date, show, df, "Quarters", 1).Failure? ==> r.Failure?
    ensures (MetaReadable(df)
             && ExtractTable(date, show, df, "PROFIT & LOSS", 1).Success?
             && ExtractTable(date, show, df, "BALANCE SHEET", 1).Success?
             && ExtractTable(date, show, df, "CASH FLOW:", 1).Success?
             && ExtractTable(date, show, df, "Quarters", 1).Success?) ==> r.Success?
  {
    if !HasMeta(df) then Failure(IndexError)
    else if df.width < 2 then Failure(ValueError)
    else
      var pnl :- ExtractTable(date, show, df, "PROFIT & LOSS", 1);
      var bs :- ExtractTable(date, show, df, "BALANCE SHEET", 1);
      var cf :- ExtractTable(date, show, df, "CASH FLOW:", 1);
      var quarters :- ExtractTable(date, show, df, "Quarters", 1);
      Success(Workbook(
        JsonSafe(show, CompanyName(df)), meta,
        Clean(show, pnl.rows), Clean(show, bs.rows), Clean(show, cf.rows), Clean(show, quarters.rows),
        CommonYears(pnl.years, bs.years, cf.years), quarters.years))
  }
}
