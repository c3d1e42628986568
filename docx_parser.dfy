/**
 * The DOCX parser (parsers/docx_parser.py) around the python-docx library: which paragraphs
 * it keeps, how the outcome of opening the file becomes a parse result or an error, and the
 * page-count arithmetic. What the library reads from the file is a parameter.
 */
module DocxParser {
  import opened Wrappers
  import opened Text
  import opened ParserBase
  import opened Pagination

  /** What opening the file with python-docx gives: the paragraph texts, a package the library
      does not recognise, or any other failure with its message. */
  datatype DocxOpen = Opened(paragraphs: seq<string>) | PackageNotFound | OpenFailed(message: string)

  /** What `parse` keeps of one paragraph: the paragraph stripped, unless that is empty. */
  function Kept(p: string): seq<string> {
    if Strip(p) != [] then [Strip(p)] else []
  }

  /** The paragraphs `parse` keeps, in order. */
  function NonBlankParagraphs(raw: seq<string>): seq<string>
    decreases |raw|
  {
    if raw == [] then [] else NonBlankParagraphs(raw[..|raw| - 1]) + Kept(raw[|raw| - 1])
  }

  /** The paragraph loop of `parse`. */
  method KeepParagraphs(raw: seq<string>) returns (paragraphs: seq<string>)
    ensures paragraphs == NonBlankParagraphs(raw)
  {
    paragraphs := [];
    for i := 0 to |raw|
      invariant paragraphs == NonBlankParagraphs(raw[..i])
    {
      assert raw[..i + 1][..i] == raw[..i];
      var text := Strip(raw[i]);
      if text != [] {
        paragraphs := paragraphs + [text];
      }
    }
    assert raw[..|raw|] == raw;
  }

  /** The filter works paragraph by paragraph, so what it keeps stays in document order. */
  lemma {:induction false} NonBlankAppend(a: seq<string>, b: seq<string>)
    ensures NonBlankParagraphs(a + b) == NonBlankParagraphs(a) + NonBlankParagraphs(b)
    decreases |b|
  {
    if b == [] {
      assert a + b == a;
    } else {
      var binit := b[..|b| - 1];
      AppendInit(a, b);
      NonBlankAppend(a, binit);
    }
  }

  /** Dropping the last element of a concatenation drops it from the second part. */
  lemma AppendInit(a: seq<string>, b: seq<string>)
    requires b != []
    ensures (a + b)[..|a + b| - 1] == a + b[..|b| - 1]
    ensures (a + b)[|a + b| - 1] == b[|b| - 1]
  {
  }

  /** One paragraph is kept, stripped, exactly when it is not blank. */
  lemma NonBlankSingle(p: string)
    ensures NonBlankParagraphs([p]) == Kept(p)
  {
    assert [p][..0] == [];
  }

  /** A paragraph as `parse` keeps it: not empty, and with no whitespace around it. */
  predicate Clean(p: string) { p != [] && Strip(p) == p }

  /** What is kept of one paragraph is clean. */
  lemma KeptIsClean(p: string)
    ensures forall i :: 0 <= i < |Kept(p)| ==> Clean(Kept(p)[i])
  {
    StripIdempotent(p);
  }

  /** Every kept paragraph is clean, and no more paragraphs are kept than there are. */
  lemma {:induction false} NonBlankClean(raw: seq<string>)
    ensures forall i :: 0 <= i < |NonBlankParagraphs(raw)| ==> Clean(NonBlankParagraphs(raw)[i])
    ensures |NonBlankParagraphs(raw)| <= |raw|
    decreases |raw|
  {
    if raw != [] {
      var init := raw[..|raw| - 1];
      var last := raw[|raw| - 1];
      NonBlankClean(init);
      KeptIsClean(last);
      var kept := NonBlankParagraphs(init);
      var r := NonBlankParagraphs(raw);
      forall i | 0 <= i < |r| ensures Clean(r[i]) {
        if i < |kept| {
          assert r[i] == kept[i];
        } else {
          assert r[i] == Kept(last)[i - |kept|];
        }
      }
    }
  }

  /** Nothing is kept exactly when every paragraph is blank. */
  lemma {:induction false} NonBlankEmpty(raw: seq<string>)
    ensures NonBlankParagraphs(raw) == [] <==> forall i :: 0 <= i < |raw| ==> Strip(raw[i]) == []
    decreases |raw|
  {
    if raw != [] {
      var init := raw[..|raw| - 1];
      NonBlankEmpty(init);
      forall i | 0 <= i < |init| ensures init[i] == raw[i] { }
    }
  }

  /** The message `parse` raises for a package python-docx does not recognise. */
  function CorruptedMessage(filePath: string): string { "Invalid or corrupted DOCX file: " + filePath }

  /** Any other failure inside `parse` is re-raised with this prefix. */
  function FailedMessage(message: string): string { "Failed to parse DOCX: " + message }

  /** `parse` after the file checks: the kept paragraphs are paginated and wrapped in a
      successful `ParseResult`; an error the constructor raises is caught and re-raised as a
      parsing error like any other failure. */
  function Parse(filePath: string, doc: DocxOpen): (r: Result<ParseResult>)
    ensures r.Ok? ==> doc.Opened? && r.value.success && r.value.pages != [] && r.value.pageCount == |r.value.pages|
    ensures doc.PackageNotFound? ==> r == Err(CorruptedMessage(filePath))
  {
    match doc
    case PackageNotFound => Err(CorruptedMessage(filePath))
    case OpenFailed(message) => Err(FailedMessage(message))
    case Opened(raw) =>
      var pages := Paginate(NonBlankParagraphs(raw));
      var warnings := if |pages| == 0 then ["Document has no content"] else [];
      match NewParseResult(true, pages, |pages|, None, warnings)
      case Ok(result) => Ok(result)
      case Err(message) => Err(FailedMessage(message))
  }

  /** A document that opens parses exactly when some paragraph is not blank; the result is a
      success whose pages paginate the kept paragraphs, whose page count is their number and
      which carries no warning, so the "no content" warning is never returned. A document of
      blank paragraphs fails with the constructor's message for an empty success. */
  lemma ParseMeaning(filePath: string, raw: seq<string>)
    ensures Parse(filePath, Opened(raw)).Ok? <==> exists i :: 0 <= i < |raw| && Strip(raw[i]) != []
    ensures Parse(filePath, Opened(raw)).Ok? ==>
      var result := Parse(filePath, Opened(raw)).value;
      result.success && result.pages == Paginate(NonBlankParagraphs(raw))
      && result.pageCount == |result.pages| && result.warnings == [] && result.errorMessage.None?
    ensures Parse(filePath, Opened(raw)).Err? ==>
      Parse(filePath, Opened(raw)).error == FailedMessage("Successful parse result must have non-empty pages list")
  {
    NonBlankEmpty(raw);
    PaginateMeaning(NonBlankParagraphs(raw));
  }

  /** `get_page_count` after the file checks: the words of all paragraphs counted in a loop,
      then the estimate. */
  method PageCount(paragraphs: seq<string>) returns (pages: nat)
    ensures pages == PageCountEstimate(Words(paragraphs))
    ensures pages >= 1
  {
    var totalWords := 0;
    for i := 0 to |paragraphs|
      invariant totalWords == Words(paragraphs[..i])
    {
      assert paragraphs[..i + 1][..i] == paragraphs[..i];
      totalWords := totalWords + WordCount(paragraphs[i]);
    }
    assert paragraphs[..|paragraphs|] == paragraphs;
    PageCountEstimateMeaning(totalWords);
    pages := PageCountEstimate(totalWords);
  }
}
