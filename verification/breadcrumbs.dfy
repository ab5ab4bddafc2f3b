/**
 * The breadcrumb trail (frontend/src/components/ui/Breadcrumbs.tsx): the
 * current path is cut into its non-empty segments, each segment gets a
 * cumulative link and a title, and the last one is the current page.
 */
module Breadcrumbs {
  import opened Text
  import opened Wrappers

  /** `TITLE_MAP`: fixed titles for known segments. */
  const TitleMap: map<string, string> := map[
    "learn" := "Learn",
    "faq" := "FAQ",
    "beginners" := "Beginners Guide",
    "legendary-investors" := "Lessons from Legendary Investors",
    "macro" := "Macro Economics",
    "valuation-methods" := "Stock Valuation Methods",
    "report" := "Company Report",
    "portfolios" := "Portfolios"
  ]

  /** The regular-expression class `\w`: ASCII letters, digits and `_`. */
  predicate IsWordChar(c: char) {
    IsLetter(c) || IsDigit(c) || c == '_'
  }

  /** A word starts at `i`: `\b\w` matches there. */
  predicate WordStart(s: string, i: nat)
    requires i < |s|
  {
    IsWordChar(s[i]) && (i == 0 || !IsWordChar(s[i - 1]))
  }

  /** The character at `i` after capitalisation: upper-cased where a word starts. */
  function CapitalAt(s: string, i: nat): char
    requires i < |s|
  {
    if WordStart(s, i) then UpperChar(s[i]) else s[i]
  }

  lemma UpperCharKeepsWordChar(c: char)
    ensures IsWordChar(UpperChar(c)) <==> IsWordChar(c)
    ensures UpperChar(UpperChar(c)) == UpperChar(c)
    ensures LowerChar(UpperChar(c)) == LowerChar(c)
  {
  }

  /** The scan behind `.replace(/\b\w/g, m => m.toUpperCase())`; `inWord` says whether the previous character was a word character. */
  function CapitalizeFrom(s: string, inWord: bool): (r: string)
    ensures |r| == |s|
    ensures forall i :: 0 <= i < |s| ==> IsWordChar(r[i]) == IsWordChar(s[i]) && LowerChar(r[i]) == LowerChar(s[i])
    ensures |s| > 0 ==> r[0] == (if IsWordChar(s[0]) && !inWord then UpperChar(s[0]) else s[0])
    ensures forall i :: 1 <= i < |s| ==> r[i] == CapitalAt(s, i)
  {
    if |s| == 0 then ""
    else
      var c := if IsWordChar(s[0]) && !inWord then UpperChar(s[0]) else s[0];
      UpperCharKeepsWordChar(s[0]);
      var rest := CapitalizeFrom(s[1..], IsWordChar(s[0]));
      assert forall i :: 1 <= i < |s| ==> ([c] + rest)[i] == rest[i - 1] && s[1..][i - 1] == s[i];
      [c] + rest
  }

  /** `.replace(/\b\w/g, m => m.toUpperCase())`. */
  function CapitalizeWords(s: string): (r: string)
    ensures |r| == |s|
    ensures forall i :: 0 <= i < |s| ==> r[i] == CapitalAt(s, i)
  {
    CapitalizeFrom(s, false)
  }

  /** Capitalising twice is capitalising once: the word starts do not move. */
  lemma CapitalizeIdempotent(s: string)
    ensures CapitalizeWords(CapitalizeWords(s)) == CapitalizeWords(s)
  {
    var r := CapitalizeWords(s);
    forall i | 0 <= i < |s|
      ensures CapitalizeWords(r)[i] == r[i]
    {
      UpperCharKeepsWordChar(s[i]);
      if i > 0 { UpperCharKeepsWordChar(s[i - 1]); }
      assert WordStart(r, i) == WordStart(s, i);
    }
  }

  /** Every lower-case letter continues a word: no word starts in lower case. */
  predicate WordsCapitalised(r: string) {
    forall i :: 0 <= i < |r| && IsLowerLetter(r[i]) ==> i > 0 && IsWordChar(r[i - 1])
  }

  /** `titleize`: the fixed title, or the segment with dashes as spaces and each word capitalised. */
  function Titleize(segment: string): (r: string)
    ensures segment in TitleMap ==> r == TitleMap[segment]
    ensures segment !in TitleMap ==> |r| == |segment| && '-' !in r
    ensures segment !in TitleMap ==> forall i :: 0 <= i < |segment| ==>
      LowerChar(r[i]) == LowerChar(if segment[i] == '-' then ' ' else segment[i])
    ensures segment !in TitleMap ==> WordsCapitalised(r)
  {
    if segment in TitleMap then TitleMap[segment]
    else
      var spaced := ReplaceChar(segment, '-', ' ');
      var r := CapitalizeWords(spaced);
      forall i | 0 <= i < |r|
        ensures r[i] != '-'
        ensures LowerChar(r[i]) == LowerChar(spaced[i])
        ensures IsLowerLetter(r[i]) ==> i > 0 && IsWordChar(r[i - 1])
      {
        UpperCharKeepsWordChar(spaced[i]);
        if i > 0 { UpperCharKeepsWordChar(spaced[i - 1]); }
      }
      r
  }

  /** The capitalised characters of `"net debt"`, one by one. */
  lemma CapitalsOfNetDebt(s: string)
    requires s == "net debt"
    ensures CapitalAt(s, 0) == 'N' && CapitalAt(s, 1) == 'e' && CapitalAt(s, 2) == 't' && CapitalAt(s, 3) == ' '
    ensures CapitalAt(s, 4) == 'D' && CapitalAt(s, 5) == 'e' && CapitalAt(s, 6) == 'b' && CapitalAt(s, 7) == 't'
  {
  }

  lemma CapitalizeNetDebt(s: string)
    requires s == "net debt"
    ensures CapitalizeWords(s) == "Net Debt"
  {
    CapitalsOfNetDebt(s);
    CapitalizeIs(s, "Net Debt");
  }

  /** The capitalisation of `s` is `t` when they agree character by character. */
  lemma CapitalizeIs(s: string, t: string)
    requires |s| == |t| && forall i :: 0 <= i < |s| ==> CapitalAt(s, i) == t[i]
    ensures CapitalizeWords(s) == t
  {
  }

  /** A slug outside the table reads as words: `"net-debt"` becomes `"Net Debt"`. */
  lemma TitleizeSlug(slug: string)
    requires slug == "net-debt"
    ensures Titleize(slug) == "Net Debt"
  {
    assert slug !in TitleMap by {
      assert TitleMap.Keys == {"learn", "faq", "beginners", "legendary-investors", "macro", "valuation-methods", "report", "portfolios"};
    }
    var spaced := ReplaceChar(slug, '-', ' ');
    assert spaced == "net debt";
    CapitalizeNetDebt(spaced);
  }

  /**
   * `.filter(Boolean)`: the non-empty strings, in order. Every non-empty
   * part is kept as often as it occurs and no empty one is, as
   * `NonEmptyCounts` states; the order is the input's, as `NonEmptyAppend`
   * states.
   */
  function NonEmpty(parts: seq<string>): (r: seq<string>)
    ensures |r| <= |parts|
    ensures forall k :: 0 <= k < |r| ==> r[k] != ""
    ensures (forall k :: 0 <= k < |parts| ==> parts[k] != "") ==> r == parts
  {
    if |parts| == 0 then []
    else
      assert parts == [parts[0]] + parts[1..];
      (if parts[0] == "" then [] else [parts[0]]) + NonEmpty(parts[1..])
  }

  lemma {:induction false} NonEmptyCounts(parts: seq<string>)
    ensures forall x :: multiset(NonEmpty(parts))[x] == if x == "" then 0 else multiset(parts)[x]
    ensures forall k :: 0 <= k < |NonEmpty(parts)| ==> NonEmpty(parts)[k] in parts
  {
    if |parts| > 0 {
      NonEmptyCounts(parts[1..]);
      assert parts == [parts[0]] + parts[1..];
      var head := if parts[0] == "" then [] else [parts[0]];
      assert NonEmpty(parts) == head + NonEmpty(parts[1..]);
      assert multiset(parts) == multiset([parts[0]]) + multiset(parts[1..]);
    }
    forall k | 0 <= k < |NonEmpty(parts)| ensures NonEmpty(parts)[k] in parts {
      assert NonEmpty(parts)[k] in multiset(NonEmpty(parts));
    }
  }

  lemma {:induction false} NonEmptyAppend(a: seq<string>, b: seq<string>)
    ensures NonEmpty(a + b) == NonEmpty(a) + NonEmpty(b)
  {
    if |a| > 0 {
      NonEmptyAppend(a[1..], b);
      assert (a + b)[1..] == a[1..] + b;
    } else {
      assert a + b == b;
    }
  }

  /** The path the segments come from: `pathname || "/"`. */
  function PathOrRoot(pathname: Option<string>): (p: string)
    ensures pathname.Some? && pathname.value != "" ==> p == pathname.value
    ensures pathname.None? || pathname.value == "" ==> p == "/"
  {
    if pathname.Some? && pathname.value != "" then pathname.value else "/"
  }

  /** `(pathname || "/").split("/").filter(Boolean)`. */
  function Segments(pathname: Option<string>): (parts: seq<string>)
    ensures forall k :: 0 <= k < |parts| ==> parts[k] != "" && '/' !in parts[k]
  {
    NonEmptyCounts(Split(PathOrRoot(pathname), '/'));
    NonEmpty(Split(PathOrRoot(pathname), '/'))
  }

  /** Splitting a string that ends with the separator ends with an empty piece. */
  lemma {:induction false} SplitSnocSep(s: string, sep: char)
    ensures Split(s + [sep], sep) == Split(s, sep) + [""]
  {
    if |s| == 0 {
      assert Split([sep][1..], sep) == [""];
    } else {
      SplitSnocSep(s[1..], sep);
      assert (s + [sep])[1..] == s[1..] + [sep];
    }
  }

  /** The root, a missing path and an empty path have no segments. */
  lemma SegmentsOfRoot()
    ensures Segments(Some("/")) == [] && Segments(None) == [] && Segments(Some("")) == []
  {
    assert Split("/", '/') == ["", ""] by {
      SplitCons("", "", '/');
      assert "" + ['/'] + "" == "/";
    }
  }

  /** The segments of `/a/b/c` are `a`, `b`, `c`. */
  lemma SegmentsOfCanonicalPath(xs: seq<string>)
    requires |xs| >= 1
    requires forall k :: 0 <= k < |xs| ==> xs[k] != "" && '/' !in xs[k]
    ensures Split("/" + Join(xs, "/"), '/') == [""] + xs
    ensures Segments(Some("/" + Join(xs, "/"))) == xs
  {
    var j := Join(xs, "/");
    SplitJoin(xs, '/');
    SplitCons("", j, '/');
    assert "/" + j == "" + ['/'] + j;
    NonEmptyAppend([""], xs);
  }

  /** A trailing slash does not change the segments of `/a/b/c`. */
  lemma SegmentsIgnoreTrailingSlash(xs: seq<string>)
    requires |xs| >= 1
    requires forall k :: 0 <= k < |xs| ==> xs[k] != "" && '/' !in xs[k]
    ensures Segments(Some("/" + Join(xs, "/") + "/")) == xs
  {
    var p := "/" + Join(xs, "/");
    SegmentsOfCanonicalPath(xs);
    SplitSnocSep(p, '/');
    assert p + "/" == p + ['/'];
    NonEmptyAppend([""] + xs, [""]);
    NonEmptyAppend([""], xs);
  }

  datatype Crumb = Crumb(href: string, title: string, isLast: bool)

  /** The cumulative link of each segment. */
  function Links(parts: seq<string>): (r: seq<string>)
    ensures |r| == |parts|
    ensures forall i :: 0 <= i < |r| ==> r[i] == PrefixHref(parts, i + 1)
  {
    seq(|parts|, i requires 0 <= i < |parts| => PrefixHref(parts, i + 1))
  }

  /** The title of each segment. */
  function Titles(parts: seq<string>): (r: seq<string>)
    ensures |r| == |parts|
    ensures forall i :: 0 <= i < |r| ==> r[i] == Titleize(parts[i])
  {
    seq(|parts|, i requires 0 <= i < |parts| => Titleize(parts[i]))
  }

  /** `parts.map(...)`: crumb `i` links to the root followed by the first `i + 1` segments, is titled from its segment, and is the current page when it is the last. */
  function Crumbs(parts: seq<string>): (r: seq<Crumb>)
    ensures |r| == |parts|
    ensures forall i :: 0 <= i < |r| ==> r[i].title == Titleize(parts[i])
    ensures forall i :: 0 <= i < |r| ==> (r[i].isLast <==> i == |parts| - 1)
    ensures forall i :: 0 <= i < |r| ==> r[i].href == PrefixHref(parts, i + 1)
  {
    var links := Links(parts);
    var titles := Titles(parts);
    seq(|parts|, i requires 0 <= i < |parts| => Crumb(links[i], titles[i], i == |parts| - 1))
  }

  lemma {:induction false} JoinSnoc(xs: seq<string>, x: string, sep: string)
    requires |xs| >= 1
    ensures Join(xs + [x], sep) == Join(xs, sep) + sep + x
  {
    if |xs| == 1 {
      assert (xs + [x])[1..] == [x];
    } else {
      JoinSnoc(xs[1..], x, sep);
      assert (xs + [x])[1..] == xs[1..] + [x];
    }
  }

  /** The cumulative link of the first `n` segments. */
  function PrefixHref(parts: seq<string>, n: nat): string
    requires 1 <= n <= |parts|
  {
    "/" + Join(parts[..n], "/")
  }

  lemma PrefixHrefExtends(parts: seq<string>, n: nat)
    requires 1 <= n < |parts|
    ensures PrefixHref(parts, n + 1) == PrefixHref(parts, n) + "/" + parts[n]
  {
    assert parts[..n + 1] == parts[..n] + [parts[n]];
    JoinSnoc(parts[..n], parts[n], "/");
  }

  /** Each link is the previous one followed by one more segment. */
  lemma CrumbLinkExtends(parts: seq<string>, i: nat)
    requires i + 1 < |parts|
    ensures Crumbs(parts)[i + 1].href == Crumbs(parts)[i].href + "/" + parts[i + 1]
  {
    PrefixHrefExtends(parts, i + 1);
  }

  lemma PrefixHrefEnds(parts: seq<string>)
    requires |parts| >= 1
    ensures PrefixHref(parts, 1) == "/" + parts[0]
    ensures PrefixHref(parts, |parts|) == "/" + Join(parts, "/")
  {
    assert parts[..1] == [parts[0]];
    assert parts[..|parts|] == parts;
  }

  /** The first link is the first segment under the root. */
  lemma CrumbLinkFirst(parts: seq<string>)
    requires |parts| >= 1
    ensures Crumbs(parts)[0].href == "/" + parts[0]
  {
    PrefixHrefEnds(parts);
  }

  /** The last link is the whole path. */
  lemma CrumbLinkLast(parts: seq<string>)
    requires |parts| >= 1
    ensures Crumbs(parts)[|parts| - 1].href == "/" + Join(parts, "/")
  {
    var n := |parts| - 1;
    PrefixHrefEnds(parts);
  }

  /** `Breadcrumbs`: the trail for the current path. */
  function Trail(pathname: Option<string>): (r: seq<Crumb>)
    ensures |r| == |Segments(pathname)|
  {
    Crumbs(Segments(pathname))
  }

  /** The trail of a canonical page path is the crumbs of its segments. */
  lemma TrailOfCanonicalPath(xs: seq<string>)
    requires |xs| >= 1
    requires forall k :: 0 <= k < |xs| ==> xs[k] != "" && '/' !in xs[k]
    ensures Trail(Some("/" + Join(xs, "/"))) == Crumbs(xs)
  {
    SegmentsOfCanonicalPath(xs);
  }

  /** On a canonical page path the last crumb is the current page and links to the page itself. */
  lemma LastCrumbIsPage(xs: seq<string>)
    requires |xs| >= 1
    requires forall k :: 0 <= k < |xs| ==> xs[k] != "" && '/' !in xs[k]
    ensures |Trail(Some("/" + Join(xs, "/")))| == |xs|
    ensures Trail(Some("/" + Join(xs, "/")))[|xs| - 1].isLast
    ensures Trail(Some("/" + Join(xs, "/")))[|xs| - 1].href == "/" + Join(xs, "/")
  {
    TrailOfCanonicalPath(xs);
    CrumbLinkLast(xs);
  }
}
