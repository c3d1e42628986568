/**
 * The page approximation shared by the DOCX and DOC parsers (`_split_into_pages` in
 * parsers/docx_parser.py and parsers/doc_parser.py, which are the same code): paragraphs are
 * put on a page until the next one would take it past 500 words, and a page is never left
 * empty, so a paragraph longer than 500 words gets a page of its own.
 */
module Pagination {
  import opened Wrappers
  import opened Text
  import opened ParserBase

  /** `WORDS_PER_PAGE`. */
  const WordsPerPage: nat := 500

  /** The page holding `lines`: its text is the lines joined with line breaks. */
  function MakePage(pageNumber: int, lines: seq<string>): PageContent {
    PageContent(pageNumber, Join(lines, "\n"), lines)
  }

  /** The pages are built with the `PageContent` constructor, which accepts them unchanged:
      the number is at least 1 and the lines are given. */
  lemma MakePageIsConstructed(pageNumber: int, lines: seq<string>)
    requires pageNumber >= 1 && lines != []
    ensures NewPageContent(pageNumber, Join(lines, "\n"), lines) == Ok(MakePage(pageNumber, lines))
  {
  }

  /** The words of some paragraphs together. */
  function Words(lines: seq<string>): nat
    decreases |lines|
  {
    if lines == [] then 0 else Words(lines[..|lines| - 1]) + WordCount(lines[|lines| - 1])
  }

  lemma WordsAppend(lines: seq<string>, line: string)
    ensures Words(lines + [line]) == Words(lines) + WordCount(line)
  {
    assert (lines + [line])[..|lines|] == lines;
  }

  /** All the lines of the pages, in order. */
  function Flatten(pages: seq<PageContent>): seq<string>
    decreases |pages|
  {
    if pages == [] then [] else Flatten(pages[..|pages| - 1]) + pages[|pages| - 1].lines
  }

  lemma FlattenAppend(pages: seq<PageContent>, page: PageContent)
    ensures Flatten(pages + [page]) == Flatten(pages) + page.lines
  {
    assert (pages + [page])[..|pages|] == pages;
  }

  /** The loop's variables: the finished pages, the lines of the page being filled, its word
      count and its number. */
  datatype Acc = Acc(pages: seq<PageContent>, current: seq<string>, count: nat, pageNumber: int)

  /** One turn of the loop: close the page and start the next with this paragraph when it
      would take a non-empty page past the limit, otherwise add it to the page. */
  function Step(a: Acc, para: string): Acc {
    var w := WordCount(para);
    if a.count + w > WordsPerPage && a.current != [] then
      Acc(a.pages + [MakePage(a.pageNumber, a.current)], [para], w, a.pageNumber + 1)
    else
      Acc(a.pages, a.current + [para], a.count + w, a.pageNumber)
  }

  /** The loop's variables after the given paragraphs. */
  function Accumulate(paras: seq<string>): Acc
    decreases |paras|
  {
    if paras == [] then Acc([], [], 0, 1)
    else Step(Accumulate(paras[..|paras| - 1]), paras[|paras| - 1])
  }

  /** `_split_into_pages`: the finished pages, and the last page if it has lines. */
  function Paginate(paras: seq<string>): seq<PageContent> {
    if paras == [] then []
    else
      var a := Accumulate(paras);
      a.pages + (if a.current != [] then [MakePage(a.pageNumber, a.current)] else [])
  }

  /** A page numbered `n` that holds lines, with its text joining them. */
  predicate NumberedPage(p: PageContent, n: int) { p == MakePage(n, p.lines) && p.lines != [] }

  /** A page within the limit, or one holding a single paragraph. */
  predicate SmallOrSingle(p: PageContent) { Words(p.lines) <= WordsPerPage || |p.lines| == 1 }

  /** Page `p` was closed because the first paragraph of `q` would have taken it past the
      limit. */
  predicate ClosedBefore(p: PageContent, q: PageContent) { FullBefore(p, q.lines) }

  /** Page `p` was full for the first of the `next` lines. */
  predicate FullBefore(p: PageContent, next: seq<string>) {
    next != [] && Words(p.lines) + WordCount(next[0]) > WordsPerPage
  }

  /** The page at index `i` is numbered `i + 1`, holds lines, and its text joins them. */
  predicate WellNumbered(pages: seq<PageContent>) {
    forall i :: 0 <= i < |pages| ==> NumberedPage(pages[i], i + 1)
  }

  /** A page over the limit holds a single paragraph. */
  predicate WithinLimit(pages: seq<PageContent>) {
    forall i :: 0 <= i < |pages| ==> SmallOrSingle(pages[i])
  }

  /** Each page but the last was closed because its successor's first paragraph would have
      taken it past the limit. */
  predicate Greedy(pages: seq<PageContent>) {
    forall i :: 0 <= i < |pages| - 1 ==> ClosedBefore(pages[i], pages[i + 1])
  }

  /** Appending a page that continues the numbering, keeps to the limit and was started
      because the previous page was full keeps all three properties. */
  lemma AppendPage(pages: seq<PageContent>, page: PageContent)
    requires WellNumbered(pages) && WithinLimit(pages) && Greedy(pages)
    requires NumberedPage(page, |pages| + 1) && SmallOrSingle(page)
    requires pages != [] ==> ClosedBefore(pages[|pages| - 1], page)
    ensures WellNumbered(pages + [page]) && WithinLimit(pages + [page]) && Greedy(pages + [page])
  {
    var b := pages + [page];
    forall i | 0 <= i < |b| ensures NumberedPage(b[i], i + 1) && SmallOrSingle(b[i]) {
      if i < |pages| {
        assert b[i] == pages[i];
      }
    }
    forall i | 0 <= i < |b| - 1 ensures ClosedBefore(b[i], b[i + 1]) {
      if i + 1 < |pages| {
        assert b[i] == pages[i] && b[i + 1] == pages[i + 1];
      }
    }
  }

  /** What holds of the loop's variables after every turn. */
  predicate AccInv(a: Acc) {
    a.pageNumber == |a.pages| + 1
    && WellNumbered(a.pages) && WithinLimit(a.pages) && Greedy(a.pages)
    && a.count == Words(a.current)
    && (a.count > WordsPerPage ==> |a.current| <= 1)
    && (a.pages != [] ==> FullBefore(a.pages[|a.pages| - 1], a.current))
  }

  /** One turn keeps the invariant and moves one paragraph into the lines. */
  lemma StepKeeps(a: Acc, para: string)
    requires AccInv(a)
    ensures AccInv(Step(a, para))
    ensures Flatten(Step(a, para).pages) + Step(a, para).current == Flatten(a.pages) + a.current + [para]
    ensures Step(a, para).current != []
  {
    var b := Step(a, para);
    if a.count + WordCount(para) > WordsPerPage && a.current != [] {
      CloseKeeps(a, para, b);
    } else {
      AddKeeps(a, para, b);
    }
  }

  /** Closing the page keeps the invariant. */
  lemma CloseKeeps(a: Acc, para: string, b: Acc)
    requires AccInv(a) && a.count + WordCount(para) > WordsPerPage && a.current != []
    requires b == Acc(a.pages + [MakePage(a.pageNumber, a.current)], [para], WordCount(para), a.pageNumber + 1)
    ensures AccInv(b) && b.current != []
    ensures Flatten(b.pages) + b.current == Flatten(a.pages) + a.current + [para]
  {
    var page := MakePage(a.pageNumber, a.current);
    FlattenAppend(a.pages, page);
    WordsAppend([], para);
    assert [] + [para] == [para];
    AppendPage(a.pages, page);
    assert FullBefore(page, [para]);
  }

  /** Adding the paragraph to the page keeps the invariant. */
  lemma AddKeeps(a: Acc, para: string, b: Acc)
    requires AccInv(a) && (a.count + WordCount(para) <= WordsPerPage || a.current == [])
    requires b == Acc(a.pages, a.current + [para], a.count + WordCount(para), a.pageNumber)
    ensures AccInv(b) && b.current != []
    ensures Flatten(b.pages) + b.current == Flatten(a.pages) + a.current + [para]
  {
    WordsAppend(a.current, para);
    if a.pages != [] {
      assert b.current[0] == a.current[0];
      assert FullBefore(a.pages[|a.pages| - 1], b.current);
    }
  }

  /** The invariant holds after any number of paragraphs, and every paragraph seen is in the
      finished pages or on the page being filled, in order. */
  lemma {:induction false} AccumulateKeeps(paras: seq<string>)
    ensures AccInv(Accumulate(paras))
    ensures Flatten(Accumulate(paras).pages) + Accumulate(paras).current == paras
    ensures paras != [] ==> Accumulate(paras).current != []
    decreases |paras|
  {
    if paras != [] {
      var init := paras[..|paras| - 1];
      var last := paras[|paras| - 1];
      assert paras == init + [last];
      AccumulateKeeps(init);
      StepKeeps(Accumulate(init), last);
    }
  }

  /** What `_split_into_pages` promises: no pages for no paragraphs; otherwise the pages are
      numbered 1, 2, … in order, each holds at least one paragraph and its text joins them with
      line breaks, reading the pages' lines in order gives back the paragraphs exactly, a page
      over 500 words holds one paragraph, and a page was closed only because the next
      paragraph would have taken it past 500 words. */
  lemma PaginateMeaning(paras: seq<string>)
    ensures paras == [] <==> Paginate(paras) == []
    ensures Flatten(Paginate(paras)) == paras
    ensures WellNumbered(Paginate(paras))
    ensures WithinLimit(Paginate(paras))
    ensures Greedy(Paginate(paras))
  {
    if paras != [] {
      AccumulateKeeps(paras);
      var a := Accumulate(paras);
      var last := MakePage(a.pageNumber, a.current);
      assert Paginate(paras) == a.pages + [last];
      FlattenAppend(a.pages, last);
      AppendPage(a.pages, last);
    }
  }

  /** The loop of `_split_into_pages`. */
  method SplitIntoPages(paragraphs: seq<string>) returns (pages: seq<PageContent>)
    ensures pages == Paginate(paragraphs)
  {
    if paragraphs == [] {
      return [];
    }
    pages := [];
    var current: seq<string> := [];
    var count: nat := 0;
    var pageNumber := 1;
    for i := 0 to |paragraphs|
      invariant Acc(pages, current, count, pageNumber) == Accumulate(paragraphs[..i])
    {
      var para := paragraphs[i];
      var w := WordCount(para);
      assert paragraphs[..i + 1][..i] == paragraphs[..i];
      if count + w > WordsPerPage && current != [] {
        pages := pages + [MakePage(pageNumber, current)];
        pageNumber := pageNumber + 1;
        current := [para];
        count := w;
      } else {
        current := current + [para];
        count := count + w;
      }
    }
    assert paragraphs[..|paragraphs|] == paragraphs;
    if current != [] {
      pages := pages + [MakePage(pageNumber, current)];
    }
  }

  /** `get_page_count`'s arithmetic: one page for no words, otherwise `ceil(words / 500)`. */
  function PageCountEstimate(totalWords: nat): (r: nat) {
    if totalWords == 0 then 1
    else
      var pages := (totalWords + WordsPerPage - 1) / WordsPerPage;
      if pages > 1 then pages else 1
  }

  /** The estimate is at least one page, and for some words it is the least number of
      500-word pages that holds them. */
  lemma PageCountEstimateMeaning(totalWords: nat)
    ensures PageCountEstimate(totalWords) >= 1
    ensures totalWords > 0 ==>
      (PageCountEstimate(totalWords) - 1) * WordsPerPage < totalWords <= PageCountEstimate(totalWords) * WordsPerPage
  {
    if totalWords > 0 {
      var q := (totalWords + WordsPerPage - 1) / WordsPerPage;
      var m := (totalWords + WordsPerPage - 1) % WordsPerPage;
      assert totalWords + WordsPerPage - 1 == q * WordsPerPage + m;
      assert q >= 1;
    }
  }
}
