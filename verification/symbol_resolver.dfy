/**
 * Matching broker symbols to Yahoo tickers (frontend/src/lib/symbolResolver.ts):
 * company names are normalised to upper-case words without stop words, an
 * acronym is built from them, each ticker row is scored in tiers against the
 * broker symbol, and the best rows are proposed; a second, simpler ranking
 * filters ticker rows for a typed query.
 *
 * Both rankings sort with JavaScript's stable sort by descending score; their
 * partner lemmas say the result lists the rows tier by tier, each tier in
 * input order.
 */
module SymbolResolver {
  import opened Numeric
  import opened Text
  import opened Sorting

  datatype TickerRow = TickerRow(name: string, ticker: string)

  datatype Candidate = Candidate(yahooTicker: string, caption: string, score: int)

  /** The words the `STOP` pattern removes. */
  const StopWords: seq<string> :=
    ["LIMITED", "LTD", "INC", "CO", "CORP", "TECH", "TECHNOLOGIES", "INDUSTRIES", "IND", "PVT", "PRIVATE", "PLC"]

  /** `[A-Z0-9]`. */
  predicate IsNameChar(c: char) {
    IsUpperLetter(c) || IsDigit(c)
  }

  /** A non-empty run of `[A-Z0-9]`. */
  predicate IsWord(w: string) {
    |w| > 0 && forall i :: 0 <= i < |w| ==> IsNameChar(w[i])
  }

  /** Only `[A-Z0-9 ]`, no space at either end, never two spaces in a row. */
  predicate Tidy(s: string) {
    (forall i :: 0 <= i < |s| ==> IsNameChar(s[i]) || s[i] == ' ')
    && (|s| > 0 ==> s[0] != ' ' && s[|s| - 1] != ' ')
    && (forall i :: 0 <= i < |s| - 1 ==> s[i] != ' ' || s[i + 1] != ' ')
  }

  /** `.replace(/[^A-Z0-9 ]/g, " ")`. */
  function BlankOut(s: string): (r: string)
    ensures |r| == |s|
    ensures forall i :: 0 <= i < |s| ==> r[i] == (if IsNameChar(s[i]) || s[i] == ' ' then s[i] else ' ')
  {
    seq(|s|, i requires 0 <= i < |s| => if IsNameChar(s[i]) || s[i] == ' ' then s[i] else ' ')
  }

  /** The tokens that are neither empty nor stop words, in order. */
  function KeepWords(ts: seq<string>): (ws: seq<string>)
    ensures forall w :: w in ws <==> w in ts && w != "" && w !in StopWords
  {
    if |ts| == 0 then []
    else (if ts[0] != "" && ts[0] !in StopWords then [ts[0]] else []) + KeepWords(ts[1..])
  }

  /**
   * The words of a normalised name. After upper-casing and blanking, the
   * string holds only `[A-Z0-9 ]`, so word boundaries fall exactly at
   * spaces and the ends: `\b(STOP)\b` removes whole space-separated tokens,
   * and collapsing whitespace and trimming keeps the remaining tokens
   * separated by one space each.
   */
  function Words(s: string): seq<string> {
    KeepWords(Split(BlankOut(Upper(s)), ' '))
  }

  lemma WordsAreWords(s: string)
    ensures forall k :: 0 <= k < |Words(s)| ==> IsWord(Words(s)[k]) && Words(s)[k] !in StopWords
  {
    var b := BlankOut(Upper(s));
    SplitChars(b, ' ', IsNameChar);
    forall k | 0 <= k < |Words(s)|
      ensures IsWord(Words(s)[k])
    {
      assert Words(s)[k] in Split(b, ' ');
    }
  }

  lemma {:induction false} TidyJoin(a: string, b: string)
    requires Tidy(a) && Tidy(b) && a != "" && b != ""
    ensures Tidy(a + " " + b)
  {
    var s := a + " " + b;
    assert forall i :: 0 <= i < |a| ==> s[i] == a[i];
    assert s[|a|] == ' ';
    assert forall i :: |a| < i < |s| ==> s[i] == b[i - |a| - 1];
  }

  lemma {:induction false} JoinTidy(ws: seq<string>)
    requires forall k :: 0 <= k < |ws| ==> IsWord(ws[k])
    ensures Tidy(Join(ws, " "))
  {
    if |ws| == 1 {
      assert Tidy(ws[0]);
    } else if |ws| > 1 {
      JoinTidy(ws[1..]);
      assert Tidy(ws[0]);
      TidyJoin(ws[0], Join(ws[1..], " "));
      assert Join(ws[1..], " ") != "" by {
        JoinNonEmpty(ws[1..]);
      }
    }
  }

  lemma {:induction false} JoinNonEmpty(ws: seq<string>)
    requires forall k :: 0 <= k < |ws| ==> IsWord(ws[k])
    ensures |ws| > 0 ==> |Join(ws, " ")| >= |ws[0]| > 0
  {
  }

  /** `normalizeName`. */
  function NormalizeName(s: string): (r: string)
    ensures Tidy(r)
    ensures r == "" <==> Words(s) == []
  {
    WordsAreWords(s);
    JoinTidy(Words(s));
    JoinNonEmpty(Words(s));
    Join(Words(s), " ")
  }

  /**
   * Splitting the normalised name on its spaces gives back exactly the
   * kept words: non-empty `[A-Z0-9]` runs, none of them a stop word, and
   * every non-stop token of the blanked input among them.
   */
  lemma NormalizedWords(s: string)
    requires NormalizeName(s) != ""
    ensures Split(NormalizeName(s), ' ') == Words(s)
    ensures forall k :: 0 <= k < |Words(s)| ==> IsWord(Words(s)[k]) && Words(s)[k] !in StopWords
  {
    WordsAreWords(s);
    forall k | 0 <= k < |Words(s)| ensures ' ' !in Words(s)[k] {
      var w := Words(s)[k];
      assert forall i :: 0 <= i < |w| ==> w[i] != ' ';
    }
    SplitJoin(Words(s), ' ');
  }

  predicate IsVowel(c: char) {
    c == 'A' || c == 'E' || c == 'I' || c == 'O' || c == 'U'
  }

  /** `w.replace(/[AEIOU]/g, "")`. */
  function RemoveVowels(w: string): (r: string)
    ensures forall i :: 0 <= i < |r| ==> !IsVowel(r[i])
    ensures forall c :: c in r <==> c in w && !IsVowel(c)
  {
    if |w| == 0 then ""
    else (if IsVowel(w[0]) then "" else [w[0]]) + RemoveVowels(w[1..])
  }

  /** `.slice(0, 3)` of the consonants. */
  function Abbrev(w: string): (r: string)
    ensures |r| <= 3
    ensures forall i :: 0 <= i < |r| ==> !IsVowel(r[i]) && r[i] in w
  {
    var c := RemoveVowels(w);
    c[..MinNat(3, |c|)]
  }

  /** `parts.join("")` of every word's abbreviation. */
  function AbbrevAll(ws: seq<string>): (r: string)
    ensures forall i :: 0 <= i < |r| ==> !IsVowel(r[i])
    ensures (forall k :: 0 <= k < |ws| ==> IsWord(ws[k])) ==> forall i :: 0 <= i < |r| ==> IsNameChar(r[i])
  {
    if |ws| == 0 then ""
    else
      var a := Abbrev(ws[0]);
      var rest := AbbrevAll(ws[1..]);
      assert forall i :: 0 <= i < |a| + |rest| ==> (a + rest)[i] == (if i < |a| then a[i] else rest[i - |a|]);
      a + rest
  }

  /** `makeAcronym`: at most 8 consonants and digits. */
  function MakeAcronym(name: string): (r: string)
    ensures |r| <= 8
    ensures forall i :: 0 <= i < |r| ==> !IsVowel(r[i])
  {
    var words := Split(NormalizeName(name), ' ');
    var all := AbbrevAll(words);
    all[..MinNat(8, |all|)]
  }

  /**
   * The acronym is built from the name's kept words: the first (up to)
   * three consonants of each, concatenated, cut to 8 characters; it holds
   * only upper-case consonants and digits.
   */
  lemma AcronymOfWords(name: string)
    ensures var all := AbbrevAll(Words(name));
            MakeAcronym(name) == all[..MinNat(8, |all|)]
    ensures forall i :: 0 <= i < |MakeAcronym(name)| ==> IsNameChar(MakeAcronym(name)[i]) && !IsVowel(MakeAcronym(name)[i])
  {
    WordsAreWords(name);
    if NormalizeName(name) == "" {
      assert Split("", ' ') == [""];
      assert AbbrevAll([""]) == "";
    } else {
      NormalizedWords(name);
    }
  }

  /** `scoreSymbolMatch`: the first tier that matches wins. */
  function ScoreSymbolMatch(brokerSymbol: string, nameNorm: string, symbol: string, acronym: string): (r: int)
    ensures r in {0, 88, 90, 92, 96, 100}
  {
    var b := Upper(brokerSymbol);
    if symbol != "" && b == Upper(symbol) then 100
    else if b == acronym then 96
    else if symbol != "" && StartsWith(Upper(symbol), b) then 92
    else if StartsWith(acronym, b) then 90
    else if ContainsDec(nameNorm, b) then 88
    else 0
  }

  /** `isAutoAccept`. */
  predicate IsAutoAccept(score: int) {
    score >= 92
  }

  /**
   * A match is accepted without review exactly when the symbol starts with
   * the broker symbol (exactly equal included) or the acronym equals it.
   */
  lemma AutoAcceptIff(brokerSymbol: string, nameNorm: string, symbol: string, acronym: string)
    ensures IsAutoAccept(ScoreSymbolMatch(brokerSymbol, nameNorm, symbol, acronym))
            <==> (symbol != "" && StartsWith(Upper(symbol), Upper(brokerSymbol))) || Upper(brokerSymbol) == acronym
  {
  }

  /** A row scores at all exactly when the broker symbol prefixes its symbol or acronym or occurs in its name. */
  lemma ScorePositiveIff(brokerSymbol: string, nameNorm: string, symbol: string, acronym: string)
    ensures ScoreSymbolMatch(brokerSymbol, nameNorm, symbol, acronym) > 0
            <==> (symbol != "" && StartsWith(Upper(symbol), Upper(brokerSymbol)))
                 || StartsWith(acronym, Upper(brokerSymbol))
                 || Contains(nameNorm, Upper(brokerSymbol))
  {
  }

  /** An empty broker symbol prefixes every acronym, so it scores at least 90 against every row. */
  lemma EmptyBrokerSymbolMatchesAll(nameNorm: string, symbol: string, acronym: string)
    ensures ScoreSymbolMatch("", nameNorm, symbol, acronym) >= 90
  {
    assert StartsWith(acronym, "");
  }

  /** `row.ticker.includes(".") ? row.ticker.split(".")[0] : row.ticker`. */
  function SymbolOf(ticker: string): (r: string)
    ensures StartsWith(ticker, r) && '.' !in r
    ensures |r| < |ticker| ==> ticker[|r|] == '.'
    ensures r == ticker <==> '.' !in ticker
  {
    SplitFirst(ticker, '.');
    if '.' in ticker then Split(ticker, '.')[0] else ticker
  }

  /** A row with its score. */
  datatype Scored = Scored(row: TickerRow, score: int)

  function ScoreOf(x: Scored): int {
    x.score
  }

  predicate Positive(x: Scored) {
    x.score > 0
  }

  function CandidateScore(brokerSymbol: string, row: TickerRow): int {
    ScoreSymbolMatch(brokerSymbol, NormalizeName(row.name), SymbolOf(row.ticker), MakeAcronym(row.name))
  }

  /** The `expanded` list: every row with its score, in input order. */
  function Expand(brokerSymbol: string, list: seq<TickerRow>): (xs: seq<Scored>)
    ensures |xs| == |list|
    ensures forall i :: 0 <= i < |list| ==> xs[i] == Scored(list[i], CandidateScore(brokerSymbol, list[i]))
  {
    seq(|list|, i requires 0 <= i < |list| => Scored(list[i], CandidateScore(brokerSymbol, list[i])))
  }

  /** The caption (`label`) separator: an em dash as the source file spells it, UTF-8 read as Windows-1252. */
  const LabelSep: string := " \U{E2}\U{20AC}\U{201D} "

  /** A candidate keeps the row's ticker and score, captioned "name — ticker". */
  function ToCandidate(x: Scored): (c: Candidate)
    ensures c.yahooTicker == x.row.ticker && c.score == x.score
    ensures StartsWith(c.caption, x.row.name) && EndsWith(c.caption, LabelSep + x.row.ticker)
  {
    ConcatAffixes(x.row.name, LabelSep + x.row.ticker);
    assert x.row.name + LabelSep + x.row.ticker == x.row.name + (LabelSep + x.row.ticker);
    Candidate(x.row.ticker, x.row.name + LabelSep + x.row.ticker, x.score)
  }

  /** One candidate per scored row, in order, each carrying that row's ticker, score and caption. */
  function Candidates(xs: seq<Scored>): (cs: seq<Candidate>)
    ensures |cs| == |xs|
    ensures forall i :: 0 <= i < |xs| ==> cs[i] == ToCandidate(xs[i])
    ensures forall i :: 0 <= i < |xs| ==>
              cs[i].yahooTicker == xs[i].row.ticker && cs[i].score == xs[i].score
              && StartsWith(cs[i].caption, xs[i].row.name) && EndsWith(cs[i].caption, LabelSep + xs[i].row.ticker)
  {
    seq(|xs|, i requires 0 <= i < |xs| => ToCandidate(xs[i]))
  }

  /** The scored rows that score at all, stably sorted by descending score. */
  function RankPositive(xs: seq<Scored>): (s: seq<Scored>)
    ensures |s| <= |xs|
    ensures SortedDesc(s, ScoreOf)
    ensures forall i :: 0 <= i < |s| ==> s[i].score > 0 && s[i] in xs
  {
    var kept := Keep(xs, Positive);
    SortDescSorted(kept, ScoreOf);
    RankedArePositive(xs);
    SortDesc(kept, ScoreOf)
  }

  lemma RankedArePositive(xs: seq<Scored>)
    ensures forall x :: x in SortDesc(Keep(xs, Positive), ScoreOf) ==> x.score > 0 && x in xs
  {
    KeptSortedFacts(xs, Positive, ScoreOf);
    forall x | x in SortDesc(Keep(xs, Positive), ScoreOf) ensures x.score > 0 && x in xs {
      assert Positive(x);
    }
  }

  /**
   * When every positive score lies in the descending tiers `ks` (all of them
   * positive), the ranking lists the tiers one after another, each tier in
   * input order.
   */
  lemma RankPositiveTiers(xs: seq<Scored>, ks: seq<int>)
    requires StrictlyDesc(ks)
    requires forall k :: k in ks ==> k > 0
    requires forall i :: 0 <= i < |xs| && xs[i].score > 0 ==> xs[i].score in ks
    ensures RankPositive(xs) == Tiers(xs, ScoreOf, ks)
  {
    var kept := Keep(xs, Positive);
    forall i | 0 <= i < |kept| ensures ScoreOf(kept[i]) in ks {
      assert kept[i] in xs;
    }
    StableSortIsTiers(kept, ScoreOf, ks);
    TiersOfKept(xs, Positive, ScoreOf, ks);
  }

  /** `proposeCandidates`: the five best-scoring rows. */
  function ProposeCandidates(brokerSymbol: string, list: seq<TickerRow>): (r: seq<Candidate>)
    ensures |list| == 0 ==> r == []
    ensures |r| <= 5
    ensures forall i :: 0 <= i < |r| ==> r[i].score > 0
    ensures forall i, j :: 0 <= i < j < |r| ==> r[i].score >= r[j].score
    ensures forall i :: 0 <= i < |r| ==>
              exists k :: 0 <= k < |list| && r[i] == ToCandidate(Scored(list[k], CandidateScore(brokerSymbol, list[k])))
  {
    if |list| == 0 then []
    else
      var s := RankPositive(Expand(brokerSymbol, list));
      var top := s[..MinNat(5, |s|)];
      RankedFromList(brokerSymbol, list);
      Candidates(top)
  }

  /** Every ranked entry is the scoring of some row of `list`. */
  lemma RankedFromList(brokerSymbol: string, list: seq<TickerRow>)
    ensures var s := RankPositive(Expand(brokerSymbol, list));
            forall i :: 0 <= i < |s| ==>
              exists k :: 0 <= k < |list| && ToCandidate(s[i]) == ToCandidate(Scored(list[k], CandidateScore(brokerSymbol, list[k])))
  {
    var xs := Expand(brokerSymbol, list);
    var s := RankPositive(xs);
    forall i | 0 <= i < |s|
      ensures exists k :: 0 <= k < |list| && ToCandidate(s[i]) == ToCandidate(Scored(list[k], CandidateScore(brokerSymbol, list[k])))
    {
      assert s[i] in xs;
      var k :| 0 <= k < |xs| && xs[k] == s[i];
      assert s[i] == Scored(list[k], CandidateScore(brokerSymbol, list[k]));
    }
  }

  /** The score tiers of `scoreSymbolMatch`, best first. */
  const MatchTiers: seq<int> := [100, 96, 92, 90, 88]

  /**
   * The proposals are the first five of: the exact-symbol rows, then the
   * exact-acronym rows, the symbol-prefix rows, the acronym-prefix rows and
   * the name-contains rows, each group in input order.
   */
  lemma ProposalsByTier(brokerSymbol: string, list: seq<TickerRow>)
    requires |list| > 0
    ensures var t := Tiers(Expand(brokerSymbol, list), ScoreOf, MatchTiers);
            ProposeCandidates(brokerSymbol, list) == Candidates(t[..MinNat(5, |t|)])
  {
    RankPositiveTiers(Expand(brokerSymbol, list), MatchTiers);
  }

  /** The score of a row for a typed query. */
  function SuggestionScore(query: string, row: TickerRow): (r: int)
    ensures r in {0, 70, 80, 90, 100}
  {
    var t := Upper(row.ticker);
    var n := Upper(row.name);
    if StartsWith(t, query) then 100
    else if ContainsDec(t, query) then 90
    else if StartsWith(n, query) then 80
    else if ContainsDec(n, query) then 70
    else 0
  }

  /** A row scores for a query exactly when its upper-cased ticker or name contains it. */
  lemma SuggestionScorePositiveIff(query: string, row: TickerRow)
    ensures SuggestionScore(query, row) > 0 <==> Contains(Upper(row.ticker), query) || Contains(Upper(row.name), query)
  {
    if StartsWith(Upper(row.ticker), query) { StartsWithContains(Upper(row.ticker), query); }
    if StartsWith(Upper(row.name), query) { StartsWithContains(Upper(row.name), query); }
  }

  /** Every row scored against the query, in list order; a row scores at all exactly when its ticker or name holds the query. */
  function Suggestions(query: string, list: seq<TickerRow>): (xs: seq<Scored>)
    ensures |xs| == |list|
    ensures forall i :: 0 <= i < |list| ==> xs[i] == Scored(list[i], SuggestionScore(query, list[i]))
    ensures forall i :: 0 <= i < |list| ==>
              (xs[i].score > 0 <==> Contains(Upper(list[i].ticker), query) || Contains(Upper(list[i].name), query))
  {
    SuggestionsPositive(query, list);
    seq(|list|, i requires 0 <= i < |list| => Scored(list[i], SuggestionScore(query, list[i])))
  }

  lemma SuggestionsPositive(query: string, list: seq<TickerRow>)
    ensures forall i :: 0 <= i < |list| ==>
              (SuggestionScore(query, list[i]) > 0 <==> Contains(Upper(list[i].ticker), query) || Contains(Upper(list[i].name), query))
  {
    forall i | 0 <= i < |list|
      ensures SuggestionScore(query, list[i]) > 0 <==> Contains(Upper(list[i].ticker), query) || Contains(Upper(list[i].name), query)
    {
      SuggestionScorePositiveIff(query, list[i]);
    }
  }

  function RowsOf(xs: seq<Scored>): (rs: seq<TickerRow>)
    ensures |rs| == |xs|
    ensures forall i :: 0 <= i < |xs| ==> rs[i] == xs[i].row
  {
    seq(|xs|, i requires 0 <= i < |xs| => xs[i].row)
  }

  /** `filterSuggestions(q, list, limit)`; `slice(0, limit)` with a negative limit drops from the end. */
  function FilterSuggestions(q: string, list: seq<TickerRow>, limit: int): (r: seq<TickerRow>)
    ensures Trim(q) == "" ==> r == []
    ensures |r| <= |list|
    ensures limit >= 0 ==> |r| <= limit
    ensures forall i :: 0 <= i < |r| ==> r[i] in list
  {
    var query := Upper(Trim(q));
    if query == "" then []
    else
      var top := PyTake(RankPositive(Suggestions(query, list)), limit);
      TopRowsFromList(Suggestions(query, list), list, limit);
      RowsOf(top)
  }

  /** The best-ranked entries of a scoring of `list`, cut anywhere, are rows of `list`. */
  lemma TopRowsFromList(xs: seq<Scored>, list: seq<TickerRow>, k: int)
    requires |xs| == |list| && forall i :: 0 <= i < |xs| ==> xs[i].row == list[i]
    ensures forall i :: 0 <= i < |PyTake(RankPositive(xs), k)| ==> PyTake(RankPositive(xs), k)[i].row in list
  {
    var r := RankPositive(xs);
    var top := PyTake(r, k);
    forall i | 0 <= i < |top| ensures top[i].row in list {
      assert top[i] == r[i] && r[i] in xs;
      var j :| 0 <= j < |xs| && xs[j] == r[i];
      assert list[j] == top[i].row;
    }
  }

  const SuggestionTiers: seq<int> := [100, 90, 80, 70]

  /**
   * For a non-blank query the suggestions are, cut at `limit`: the rows
   * whose ticker starts with the query, then those whose ticker contains
   * it, whose name starts with it, whose name contains it, each group in
   * input order.
   */
  lemma SuggestionsByTier(q: string, list: seq<TickerRow>, limit: int)
    requires Trim(q) != ""
    ensures var t := Tiers(Suggestions(Upper(Trim(q)), list), ScoreOf, SuggestionTiers);
            FilterSuggestions(q, list, limit) == RowsOf(PyTake(t, limit))
  {
    var query := Upper(Trim(q));
    assert query != "" by { assert |query| == |Trim(q)|; }
    RankPositiveTiers(Suggestions(query, list), SuggestionTiers);
  }
}
