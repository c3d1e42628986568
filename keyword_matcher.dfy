/**
 * Finding the lines on which each keyword occurs as a whole word, ignoring case
 * (extractors/keyword_matcher.py).
 */
module KeywordMatcher {
  import opened Wrappers
  import opened Text
  import opened ParserBase
  import opened ExtractorBase

  /** The pattern `\b<kw>\b`, compiled case-insensitively, matches `line` at position `i`. */
  predicate OccursAt(line: string, kw: string, i: nat) {
    i + |kw| <= |line| && Boundary(line, i) && SameIgnoringCase(line[i..i + |kw|], kw) && Boundary(line, i + |kw|)
  }

  /** `pattern.search(line)` started at `from`: the leftmost position where the pattern matches. */
  function SearchFrom(line: string, kw: string, from: nat): Option<nat>
    decreases |line| + 1 - from
  {
    if from + |kw| > |line| then None
    else if OccursAt(line, kw, from) then Some(from)
    else SearchFrom(line, kw, from + 1)
  }

  /** The search finds the leftmost occurrence at or after `from`, and fails only when there
      is none. */
  lemma {:induction false} SearchFromFindsLeftmost(line: string, kw: string, from: nat)
    ensures SearchFrom(line, kw, from).Some? ==>
      var i := SearchFrom(line, kw, from).value;
      from <= i && OccursAt(line, kw, i) && forall j :: from <= j < i ==> !OccursAt(line, kw, j)
    ensures SearchFrom(line, kw, from).None? ==> forall j :: from <= j ==> !OccursAt(line, kw, j)
    decreases |line| + 1 - from
  {
    if from + |kw| <= |line| && !OccursAt(line, kw, from) {
      SearchFromFindsLeftmost(line, kw, from + 1);
    }
  }

  /** `pattern.search(line)`: the first whole-word occurrence of `kw` in `line`. */
  function FirstOccurrence(line: string, kw: string): (r: Option<nat>)
    ensures r.Some? ==> OccursAt(line, kw, r.value) && forall j :: 0 <= j < r.value ==> !OccursAt(line, kw, j)
    ensures r.None? <==> forall j: nat :: !OccursAt(line, kw, j)
  {
    SearchFromFindsLeftmost(line, kw, 0);
    SearchFrom(line, kw, 0)
  }

  /** Whether `pattern.search(line)` succeeds. */
  predicate ContainsWord(line: string, kw: string) { SearchFrom(line, kw, 0).Some? }

  /** A line contains the keyword exactly when the keyword occurs in it somewhere. */
  lemma ContainsWordIff(line: string, kw: string)
    ensures ContainsWord(line, kw) <==> exists j: nat :: OccursAt(line, kw, j)
  {
    SearchFromFindsLeftmost(line, kw, 0);
  }

  /** The matches of keyword `kw` on the lines of page `pageNumber`, lines numbered from 1. */
  function LineMatches(kw: string, pageNumber: int, lines: seq<string>): seq<KeywordMatch> {
    if lines == [] then []
    else
      LineMatches(kw, pageNumber, lines[..|lines| - 1])
      + (if ContainsWord(lines[|lines| - 1], kw) then [KeywordMatch(kw, pageNumber, |lines|, lines[|lines| - 1])] else [])
  }

  /** Each match records the keyword, the page, a line number within the page and the text
      of that line, which contains the keyword. */
  lemma {:induction false} LineMatchesAreHits(kw: string, pageNumber: int, lines: seq<string>, i: nat)
    requires i < |LineMatches(kw, pageNumber, lines)|
    ensures var m := LineMatches(kw, pageNumber, lines)[i];
      m.keyword == kw && m.pageNumber == pageNumber && 1 <= m.lineNumber <= |lines|
      && m.lineText == lines[m.lineNumber - 1] && ContainsWord(m.lineText, kw)
  {
    var init := lines[..|lines| - 1];
    var prev := LineMatches(kw, pageNumber, init);
    if i < |prev| {
      LineMatchesAreHits(kw, pageNumber, init, i);
      assert init[prev[i].lineNumber - 1] == lines[prev[i].lineNumber - 1];
    }
  }

  /** Line numbers strictly increase: at most one match per line, in line order. */
  lemma {:induction false} LineMatchesOrdered(kw: string, pageNumber: int, lines: seq<string>, i: nat, j: nat)
    requires i < j < |LineMatches(kw, pageNumber, lines)|
    ensures LineMatches(kw, pageNumber, lines)[i].lineNumber < LineMatches(kw, pageNumber, lines)[j].lineNumber
  {
    var init := lines[..|lines| - 1];
    var prev := LineMatches(kw, pageNumber, init);
    if j < |prev| {
      LineMatchesOrdered(kw, pageNumber, init, i, j);
    } else {
      LineMatchesAreHits(kw, pageNumber, init, i);
    }
  }

  /** Every line that contains the keyword has its match. */
  lemma {:induction false} LineMatchesComplete(kw: string, pageNumber: int, lines: seq<string>, j: nat)
    requires j < |lines| && ContainsWord(lines[j], kw)
    ensures exists i :: 0 <= i < |LineMatches(kw, pageNumber, lines)|
                        && LineMatches(kw, pageNumber, lines)[i].lineNumber == j + 1
  {
    var init := lines[..|lines| - 1];
    var prev := LineMatches(kw, pageNumber, init);
    var r := LineMatches(kw, pageNumber, lines);
    if j < |lines| - 1 {
      assert init[j] == lines[j];
      LineMatchesComplete(kw, pageNumber, init, j);
      var i :| 0 <= i < |prev| && prev[i].lineNumber == j + 1;
      assert r[i] == prev[i];
    } else {
      assert r[|prev|].lineNumber == j + 1;
    }
  }

  /** The matches of keyword `kw` on every page, page after page. */
  function PageMatches(kw: string, pages: seq<PageContent>): seq<KeywordMatch> {
    if pages == [] then []
    else PageMatches(kw, pages[..|pages| - 1]) + LineMatches(kw, pages[|pages| - 1].pageNumber, pages[|pages| - 1].lines)
  }

  /** What `find_keywords` returns when nothing raises: keyword after keyword (each stripped),
      page after page, line after line. */
  function AllMatches(pages: seq<PageContent>, keywords: seq<string>): (r: seq<KeywordMatch>)
  {
    if keywords == [] then []
    else AllMatches(pages, keywords[..|keywords| - 1]) + PageMatches(Strip(keywords[|keywords| - 1]), pages)
  }

  /** Every match carries a stripped input keyword and a page of the input. */
  lemma {:induction false} AllMatchesOrigin(pages: seq<PageContent>, keywords: seq<string>, i: nat)
    requires i < |AllMatches(pages, keywords)|
    ensures exists k :: 0 <= k < |keywords| && AllMatches(pages, keywords)[i].keyword == Strip(keywords[k])
    ensures exists p :: 0 <= p < |pages| && AllMatches(pages, keywords)[i].pageNumber == pages[p].pageNumber
  {
    var n := |keywords|;
    var prev := AllMatches(pages, keywords[..n - 1]);
    if i < |prev| {
      AllMatchesOrigin(pages, keywords[..n - 1], i);
      var k :| 0 <= k < n - 1 && prev[i].keyword == Strip(keywords[..n - 1][k]);
      assert keywords[..n - 1][k] == keywords[k];
    } else {
      PageMatchesOrigin(Strip(keywords[n - 1]), pages, i - |prev|);
    }
  }

  lemma {:induction false} PageMatchesOrigin(kw: string, pages: seq<PageContent>, i: nat)
    requires i < |PageMatches(kw, pages)|
    ensures PageMatches(kw, pages)[i].keyword == kw
    ensures exists p :: 0 <= p < |pages| && PageMatches(kw, pages)[i].pageNumber == pages[p].pageNumber
  {
    var n := |pages|;
    var prev := PageMatches(kw, pages[..n - 1]);
    if i < |prev| {
      PageMatchesOrigin(kw, pages[..n - 1], i);
      var p :| 0 <= p < n - 1 && prev[i].pageNumber == pages[..n - 1][p].pageNumber;
      assert pages[..n - 1][p] == pages[p];
    } else {
      LineMatchesAreHits(kw, pages[n - 1].pageNumber, pages[n - 1].lines, i - |prev|);
    }
  }

  /** The first keyword's matches come before all others (keyword order is kept). */
  lemma {:induction false} AllMatchesFirstKeyword(pages: seq<PageContent>, k: string, rest: seq<string>)
    ensures AllMatches(pages, [k] + rest) == PageMatches(Strip(k), pages) + AllMatches(pages, rest)
    decreases |rest|
  {
    var ks := [k] + rest;
    if rest == [] {
      assert ks[..0] == [];
      assert AllMatches(pages, ks) == AllMatches(pages, []) + PageMatches(Strip(k), pages);
    } else {
      var init := rest[..|rest| - 1];
      var last := rest[|rest| - 1];
      assert ks[..|ks| - 1] == [k] + init;
      assert ks[|ks| - 1] == last;
      AllMatchesFirstKeyword(pages, k, init);
      calc {
        AllMatches(pages, ks);
        AllMatches(pages, [k] + init) + PageMatches(Strip(last), pages);
        PageMatches(Strip(k), pages) + AllMatches(pages, init) + PageMatches(Strip(last), pages);
        PageMatches(Strip(k), pages) + AllMatches(pages, rest);
      }
    }
  }

  /** No pages, no matches, whatever the keywords. */
  lemma {:induction false} NoPagesNoMatches(keywords: seq<string>)
    ensures AllMatches([], keywords) == []
  {
    if keywords != [] {
      NoPagesNoMatches(keywords[..|keywords| - 1]);
    }
  }

  lemma {:induction false} LineMatchesPrefix(kw: string, pageNumber: int, lines: seq<string>, n: nat)
    requires n <= |lines|
    ensures LineMatches(kw, pageNumber, lines[..n]) <= LineMatches(kw, pageNumber, lines)
    decreases |lines| - n
  {
    if n < |lines| {
      LineMatchesPrefix(kw, pageNumber, lines, n + 1);
      assert lines[..n + 1][..n] == lines[..n];
    } else {
      assert lines[..n] == lines;
    }
  }

  lemma {:induction false} PageMatchesPrefix(kw: string, pages: seq<PageContent>, n: nat)
    requires n <= |pages|
    ensures PageMatches(kw, pages[..n]) <= PageMatches(kw, pages)
    decreases |pages| - n
  {
    if n < |pages| {
      PageMatchesPrefix(kw, pages, n + 1);
      assert pages[..n + 1][..n] == pages[..n];
    } else {
      assert pages[..n] == pages;
    }
  }

  lemma {:induction false} AllMatchesPrefix(pages: seq<PageContent>, keywords: seq<string>, n: nat)
    requires n <= |keywords|
    ensures AllMatches(pages, keywords[..n]) <= AllMatches(pages, keywords)
    decreases |keywords| - n
  {
    if n < |keywords| {
      AllMatchesPrefix(pages, keywords, n + 1);
      assert keywords[..n + 1][..n] == keywords[..n];
    } else {
      assert keywords[..n] == keywords;
    }
  }

  /** `find_keywords`: the matches of every keyword in keyword, page and line order. Building a
      match with an empty keyword raises, which happens exactly when a blank keyword's pattern
      `\b\b` matches some line. */
  method FindKeywords(pages: seq<PageContent>, keywords: seq<string>) returns (r: Result<seq<KeywordMatch>>)
    requires forall p :: 0 <= p < |pages| ==> ValidPage(pages[p])
    ensures r.Ok? ==> r.value == AllMatches(pages, keywords)
    ensures r.Ok? <==> forall i :: 0 <= i < |AllMatches(pages, keywords)| ==> AllMatches(pages, keywords)[i].keyword != []
    ensures r.Ok? ==> forall i :: 0 <= i < |r.value| ==> ValidKeywordMatch(r.value[i])
    ensures r.Err? ==> r.error == "Keyword must be non-empty"
  {
    var matches: seq<KeywordMatch> := [];
    var k := 0;
    while k < |keywords|
      invariant 0 <= k <= |keywords|
      invariant matches == AllMatches(pages, keywords[..k])
      invariant forall i :: 0 <= i < |matches| ==> ValidKeywordMatch(matches[i])
    {
      var kw := Strip(keywords[k]);
      assert keywords[..k + 1][..k] == keywords[..k];
      var found := MatchPages(kw, pages);
      if found.Err? {
        BlankKeywordWitness(pages, keywords, k);
        return Err(found.error);
      }
      matches := matches + found.value;
      k := k + 1;
    }
    assert keywords[..k] == keywords;
    return Ok(matches);
  }

  /** The loop over the pages for one keyword. */
  method MatchPages(kw: string, pages: seq<PageContent>) returns (r: Result<seq<KeywordMatch>>)
    requires forall p :: 0 <= p < |pages| ==> ValidPage(pages[p])
    ensures r.Ok? ==> r.value == PageMatches(kw, pages)
    ensures r.Ok? ==> forall i :: 0 <= i < |r.value| ==> ValidKeywordMatch(r.value[i])
    ensures r.Err? ==> kw == [] && PageMatches(kw, pages) != [] && r.error == "Keyword must be non-empty"
  {
    var matches: seq<KeywordMatch> := [];
    var p := 0;
    while p < |pages|
      invariant 0 <= p <= |pages|
      invariant matches == PageMatches(kw, pages[..p])
      invariant forall i :: 0 <= i < |matches| ==> ValidKeywordMatch(matches[i])
    {
      var page := pages[p];
      assert pages[..p + 1][..p] == pages[..p];
      var found := MatchLines(kw, page.pageNumber, page.lines);
      if found.Err? {
        PageMatchesPrefix(kw, pages, p + 1);
        return Err(found.error);
      }
      matches := matches + found.value;
      p := p + 1;
    }
    assert pages[..p] == pages;
    return Ok(matches);
  }

  /** The loop over the lines of one page for one keyword. */
  method MatchLines(kw: string, pageNumber: int, lines: seq<string>) returns (r: Result<seq<KeywordMatch>>)
    requires pageNumber >= 1
    ensures r.Ok? ==> r.value == LineMatches(kw, pageNumber, lines)
    ensures r.Ok? ==> forall i :: 0 <= i < |r.value| ==> ValidKeywordMatch(r.value[i])
    ensures r.Err? ==> kw == [] && LineMatches(kw, pageNumber, lines) != [] && r.error == "Keyword must be non-empty"
  {
    var matches: seq<KeywordMatch> := [];
    var n := 0;
    while n < |lines|
      invariant 0 <= n <= |lines|
      invariant matches == LineMatches(kw, pageNumber, lines[..n])
      invariant forall i :: 0 <= i < |matches| ==> ValidKeywordMatch(matches[i])
    {
      var line := lines[n];
      assert lines[..n + 1][..n] == lines[..n];
      if ContainsWord(line, kw) {
        var m := NewKeywordMatch(kw, pageNumber, n + 1, line);
        if m.Err? {
          LineMatchesPrefix(kw, pageNumber, lines, n + 1);
          return Err(m.error);
        }
        matches := matches + [m.value];
      }
      n := n + 1;
    }
    assert lines[..n] == lines;
    return Ok(matches);
  }

  /** The match the matcher fails to build is one of the specified matches. */
  lemma BlankKeywordWitness(pages: seq<PageContent>, keywords: seq<string>, k: nat)
    requires k < |keywords| && Strip(keywords[k]) == [] && PageMatches(Strip(keywords[k]), pages) != []
    ensures exists i :: 0 <= i < |AllMatches(pages, keywords)| && AllMatches(pages, keywords)[i].keyword == []
  {
    var kw := Strip(keywords[k]);
    var pm := PageMatches(kw, pages);
    PageMatchesOrigin(kw, pages, 0);
    AllMatchesPrefix(pages, keywords, k + 1);
    assert keywords[..k + 1][..k] == keywords[..k];
    var before := AllMatches(pages, keywords[..k]);
    assert AllMatches(pages, keywords[..k + 1]) == before + pm;
    assert AllMatches(pages, keywords)[|before|].keyword == [];
  }
}
