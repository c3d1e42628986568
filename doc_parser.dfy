/**
 * The legacy Word parser (parsers/doc_parser.py) around the antiword program: how the text
 * antiword prints becomes lines, pages and warnings, which failures become a placeholder page
 * and which are raised, and the page-count arithmetic. The validation verdict and the outcome
 * of running antiword are parameters.
 */
module DocParser {
  import opened Wrappers
  import opened Text
  import opened ParserBase
  import opened Pagination

  // ------------------------------------------------------------------ lines

  /** The characters `str.splitlines` breaks at. */
  predicate IsLineBreak(c: char) {
    c == '\n' || c == '\r' || c == '\U{B}' || c == '\U{C}' || c == '\U{1C}' || c == '\U{1D}'
    || c == '\U{1E}' || c == '\U{85}' || c == '\U{2028}' || c == '\U{2029}'
  }

  predicate NoBreak(s: string) { forall i :: 0 <= i < |s| ==> !IsLineBreak(s[i]) }

  /** The length of the text before the first line break. */
  function LineRun(s: string): (n: nat)
    ensures n <= |s|
    ensures NoBreak(s[..n])
    ensures n == |s| || IsLineBreak(s[n])
    decreases |s|
  {
    if s != [] && !IsLineBreak(s[0]) then
      var n := 1 + LineRun(s[1..]);
      assert forall i :: 1 <= i < n ==> s[..n][i] == s[1..][..n - 1][i - 1];
      n
    else 0
  }

  /** `text.splitlines()`: the lines between breaks, "\r\n" counting as one break and a final
      break not starting another line. */
  function SplitLines(s: string): (r: seq<string>)
    ensures forall i :: 0 <= i < |r| ==> NoBreak(r[i])
    decreases |s|
  {
    if s == [] then []
    else
      var n := LineRun(s);
      if n == |s| then [s]
      else
        var next := if s[n] == '\r' && n + 1 < |s| && s[n + 1] == '\n' then n + 2 else n + 1;
        [s[..n]] + SplitLines(s[next..])
  }

  /** A text without breaks runs to its end. */
  lemma LineRunOfNoBreak(s: string)
    requires NoBreak(s)
    ensures LineRun(s) == |s|
  {
  }

  /** A text without breaks followed by a break runs up to that break. */
  lemma {:induction false} LineRunStops(a: string, c: char, b: string)
    requires NoBreak(a) && IsLineBreak(c)
    ensures LineRun(a + [c] + b) == |a|
    decreases |a|
  {
    if a != [] {
      assert (a + [c] + b)[1..] == a[1..] + [c] + b;
      LineRunStops(a[1..], c, b);
    }
  }

  /** Splitting lines joined with "\n" gives them back, empty ones included, as long as none
      holds a break and the last is not empty. */
  lemma {:induction false} SplitLinesJoin(lines: seq<string>)
    requires lines != [] && lines[|lines| - 1] != []
    requires forall i :: 0 <= i < |lines| ==> NoBreak(lines[i])
    ensures SplitLines(Join(lines, "\n")) == lines
    decreases |lines|
  {
    if |lines| == 1 {
      LineRunOfNoBreak(lines[0]);
    } else {
      var rest := Join(lines[1..], "\n");
      var s := lines[0] + "\n" + rest;
      assert Join(lines, "\n") == s;
      LineRunStops(lines[0], '\n', rest);
      assert s[|lines[0]|] == '\n';
      assert s[..|lines[0]|] == lines[0];
      assert s[|lines[0]| + 1..] == rest;
      SplitLinesJoin(lines[1..]);
      assert lines == [lines[0]] + lines[1..];
    }
  }

  /** `[line.strip() for line in lines]`: every line kept, empty ones too. */
  function StripLines(lines: seq<string>): (r: seq<string>)
    ensures |r| == |lines|
    ensures forall i :: 0 <= i < |r| ==> r[i] == Strip(lines[i])
  {
    seq(|lines|, i requires 0 <= i < |lines| => Strip(lines[i]))
  }

  /** The paragraphs `parse` paginates: the stripped lines of the text. */
  function Paragraphs(text: string): seq<string> { StripLines(SplitLines(text)) }

  /** A text whose lines are joined with "\n", the last one not blank once stripped, gives one
      paragraph per line, each stripped, the blank ones kept as empty paragraphs. */
  lemma ParagraphsOfJoin(lines: seq<string>)
    requires lines != [] && lines[|lines| - 1] != []
    requires forall i :: 0 <= i < |lines| ==> NoBreak(lines[i])
    ensures |Paragraphs(Join(lines, "\n"))| == |lines|
    ensures forall i :: 0 <= i < |lines| ==> Paragraphs(Join(lines, "\n"))[i] == Strip(lines[i])
  {
    SplitLinesJoin(lines);
  }

  // ------------------------------------------------------------------ parse

  /** The warning for a document with (almost) no text. */
  const NoTextWarning := "Document has no extractable text"

  /** The start of the generic handler's warning. */
  const GenericPrefix := "Could not extract text from DOC file: "

  /** The warning for any other failure: the message, cut to 100 characters. */
  function CouldNotExtract(message: string): (r: string)
    ensures |r| <= |GenericPrefix| + 100
  {
    GenericPrefix + (if |message| <= 100 then message else message[..100])
  }

  /** The empty page 1 that stands in for a document without pages. */
  const PlaceholderPage := PageContent(1, "", [])

  /** The characters on some pages together. */
  function TextChars(pages: seq<PageContent>): nat
    decreases |pages|
  {
    if pages == [] then 0 else TextChars(pages[..|pages| - 1]) + |pages[|pages| - 1].text|
  }

  /** At most the first three pages. */
  function FirstThree(pages: seq<PageContent>): seq<PageContent> {
    if |pages| <= 3 then pages else pages[..3]
  }

  /** A successful result holding only the placeholder page and one warning. */
  function Placeholder(warning: string): ParseResult {
    ParseResult(true, [PlaceholderPage], 1, None, [warning])
  }

  /** The pages and warnings `parse` returns for the pages of the text: the placeholder page
      when there are none, and the no-text warning when the first three pages hold fewer than
      10 characters. An error of the result's constructor would fall to the generic handler. */
  function ResultOfPages(pages: seq<PageContent>): ParseResult {
    if |pages| > 0 then
      var warnings := if TextChars(FirstThree(pages)) < 10 then [NoTextWarning] else [];
      match NewParseResult(true, pages, |pages|, None, warnings)
      case Ok(result) => result
      case Err(message) => Placeholder(CouldNotExtract(message))
    else Placeholder(NoTextWarning)
  }

  /** The body of the `try` in `parse` once antiword has printed `text`. */
  function ParseText(text: string): ParseResult {
    ResultOfPages(Paginate(Paragraphs(text)))
  }

  /** The result is always a success with at least one page, as many as the page count says;
      the no-text warning is the only warning and appears exactly when the first three pages
      returned hold fewer than 10 characters. No pages give the placeholder page alone. */
  lemma ResultOfPagesMeaning(pages: seq<PageContent>)
    ensures ResultOfPages(pages).success && ResultOfPages(pages).errorMessage.None?
    ensures ResultOfPages(pages).pages != [] && ResultOfPages(pages).pageCount == |ResultOfPages(pages).pages|
    ensures ResultOfPages(pages).warnings
      == (if TextChars(FirstThree(ResultOfPages(pages).pages)) < 10 then [NoTextWarning] else [])
    ensures pages == [] ==> ResultOfPages(pages).pages == [PlaceholderPage]
    ensures pages != [] ==> ResultOfPages(pages).pages == pages
  {
    if pages == [] {
      assert TextChars([PlaceholderPage]) == 0 by {
        assert [PlaceholderPage][..0] == [];
      }
    }
  }

  /** A text with paragraphs is paginated as the DOCX parser paginates: the pages are
      numbered from 1 and hold every paragraph, blank ones included, in order. An empty text
      has no paragraphs. */
  lemma ParseTextPages(text: string)
    ensures Paragraphs(text) != [] ==> ParseText(text).pages == Paginate(Paragraphs(text))
    ensures Paragraphs(text) != [] ==> Flatten(ParseText(text).pages) == Paragraphs(text)
    ensures Paragraphs(text) != [] ==> WellNumbered(ParseText(text).pages)
    ensures Paragraphs(text) == [] ==> ParseText(text).pages == [PlaceholderPage]
    ensures text == [] ==> Paragraphs(text) == []
  {
    var pages := Paginate(Paragraphs(text));
    PaginateMeaning(Paragraphs(text));
    ResultOfPagesMeaning(pages);
  }

  /** How the antiword process ended: it printed `text` (already decoded), it exited with a
      non-zero code, it ran past the 30-second limit, or its executable was not found. */
  datatype AntiwordRun = Printed(text: string) | ExitedWithError | RanTooLong | ToolMissing

  const CorruptedMessage := "Unable to parse document. The file may be corrupted or invalid."
  const BundleMissingMessage := "DOC parser not available. Please reinstall the application."
  const DevMissingMessage :=
    "DOC file support requires antiword. " + "For macOS development: brew install antiword. "
    + "DOC support is fully available in Windows builds."

  /** What `_extract_text_via_antiword` hands back to `parse`: the text, the timeout it lets
      through, or the `ParsingError` it raises with its message. */
  datatype Extraction = Extracted(text: string) | TimedOut | Failed(message: string)

  /** `_extract_text_via_antiword`: a non-zero exit and a missing executable both become a
      `ParsingError`, the latter with a message that depends on whether the program runs from
      the installed bundle (`frozen`); a timeout is not caught. */
  function ExtractViaAntiword(run: AntiwordRun, frozen: bool): Extraction {
    match run
    case Printed(text) => Extracted(text)
    case ExitedWithError => Failed(CorruptedMessage)
    case RanTooLong => TimedOut
    case ToolMissing => Failed(if frozen then BundleMissingMessage else DevMissingMessage)
  }

  /** The exceptions `parse` raises. Its `FileNotFoundError` handler is unreachable: the
      helper turns a missing antiword into a `ParsingError`, and nothing else in the `try`
      looks for a file. */
  datatype DocFailure =
    | PasswordProtected(message: string)
    | ParsingFailure(message: string)

  datatype DocOutcome = Parsed(result: ParseResult) | Raised(failure: DocFailure)

  /** `str(message)` of the message a failed validation carries. */
  function MessageText(message: Option<string>): string {
    match message
    case Some(m) => m
    case None => "None"
  }

  /** `parse` after the file checks: a failed validation is raised, as a password error when
      the file is encrypted; then what the antiword helper gives decides. */
  function Parse(validation: ValidationResult, run: AntiwordRun, frozen: bool): (r: DocOutcome)
    ensures !validation.isValid ==> r.Raised?
    ensures r.Parsed? ==> r.result.success && r.result.pages != [] && r.result.pageCount == |r.result.pages|
  {
    if !validation.isValid then
      if validation.errorType == Some("password_protected") then
        Raised(PasswordProtected(MessageText(validation.errorMessage)))
      else Raised(ParsingFailure(MessageText(validation.errorMessage)))
    else
      match ExtractViaAntiword(run, frozen)
      case Extracted(text) =>
        ResultOfPagesMeaning(Paginate(Paragraphs(text)));
        Parsed(ParseText(text))
      case TimedOut => Raised(ParsingFailure("Document processing timed out"))
      case Failed(message) => Parsed(Placeholder(CouldNotExtract(message)))
  }

  /** After a passed validation, `parse` raises only when antiword runs too long. Printed text
      is paginated; a non-zero exit or a missing antiword gives the placeholder page with the
      helper's message, shortened, as the one warning. A missing antiword is therefore never
      reported with the "DOC parser not available - extraction skipped" warning of the
      `FileNotFoundError` handler. */
  lemma ParseOutcomes(validation: ValidationResult, run: AntiwordRun, frozen: bool)
    requires validation.isValid
    ensures Parse(validation, run, frozen).Raised? <==> run.RanTooLong?
    ensures run.RanTooLong? ==> Parse(validation, run, frozen) == Raised(ParsingFailure("Document processing timed out"))
    ensures run.Printed? ==> Parse(validation, run, frozen) == Parsed(ParseText(run.text))
    ensures run.ExitedWithError? ==>
      Parse(validation, run, frozen) == Parsed(Placeholder(CouldNotExtract(CorruptedMessage)))
    ensures run.ToolMissing? ==>
      Parse(validation, run, frozen)
      == Parsed(Placeholder(CouldNotExtract(if frozen then BundleMissingMessage else DevMissingMessage)))
    ensures !run.Printed? && !run.RanTooLong? ==>
      var warning := Parse(validation, run, frozen).result.warnings[0];
      |GenericPrefix| <= |warning| && warning[..|GenericPrefix|] == GenericPrefix
  {
  }

  /** `get_page_count`: the estimate from the words of antiword's text, or one page when
      the helper raises in any way. */
  function PageCount(run: AntiwordRun, frozen: bool): (r: nat)
    ensures r >= 1
    ensures !ExtractViaAntiword(run, frozen).Extracted? ==> r == 1
    ensures run.Printed? && WordCount(run.text) > 0 ==>
      (r - 1) * WordsPerPage < WordCount(run.text) <= r * WordsPerPage
  {
    match ExtractViaAntiword(run, frozen)
    case Extracted(t) =>
      PageCountEstimateMeaning(WordCount(t));
      PageCountEstimate(WordCount(t))
    case _ => 1
  }
}
