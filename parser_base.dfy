/** The records every parser returns (parsers/base.py). */
module ParserBase {
  import opened Wrappers
  import opened Text

  /** The text of one page and its lines; page numbers start at 1. */
  datatype PageContent = PageContent(pageNumber: int, text: string, lines: seq<string>)

  /** What the constructor guarantees of every page the rest of the program sees. */
  predicate ValidPage(p: PageContent) { p.pageNumber >= 1 }

  /** The `PageContent` constructor: rejects page numbers below 1 and, when no lines are
      given but there is text, derives the lines by splitting the text at line breaks. */
  function NewPageContent(pageNumber: int, text: string, lines: seq<string>): (r: Result<PageContent>)
    ensures r.Ok? <==> pageNumber >= 1
    ensures r.Ok? ==> ValidPage(r.value) && r.value.pageNumber == pageNumber && r.value.text == text
    ensures r.Ok? && (lines != [] || text == []) ==> r.value.lines == lines
    ensures r.Ok? && lines == [] && text != [] ==> |r.value.lines| >= 1 && Join(r.value.lines, "\n") == text
    ensures r.Err? ==> r.error == "Page number must be >= 1, got: " + IntToString(pageNumber)
  {
    if pageNumber < 1 then Err("Page number must be >= 1, got: " + IntToString(pageNumber))
    else if lines == [] && text != [] then
      JoinSplitOn(text, '\n');
      Ok(PageContent(pageNumber, text, SplitOn(text, '\n')))
    else Ok(PageContent(pageNumber, text, lines))
  }

  /** The outcome of parsing one document. */
  datatype ParseResult = ParseResult(
    success: bool,
    pages: seq<PageContent>,
    pageCount: int,
    errorMessage: Option<string>,
    warnings: seq<string>)

  /** Python truthiness of an optional message: present and non-empty. */
  predicate HasMessage(m: Option<string>) { m.Some? && m.value != [] }

  /** The `ParseResult` constructor: a success carries pages, a failure carries a message,
      and the page count is not negative; the first failing check names the error. */
  function NewParseResult(success: bool, pages: seq<PageContent>, pageCount: int,
                          errorMessage: Option<string>, warnings: seq<string>): (r: Result<ParseResult>)
    ensures r.Ok? <==> (success ==> pages != []) && (!success ==> HasMessage(errorMessage)) && pageCount >= 0
    ensures r.Ok? ==> r.value == ParseResult(success, pages, pageCount, errorMessage, warnings)
    ensures success && pages == [] ==> r == Err("Successful parse result must have non-empty pages list")
  {
    if success && pages == [] then Err("Successful parse result must have non-empty pages list")
    else if !success && !HasMessage(errorMessage) then Err("Failed parse result must have error_message")
    else if pageCount < 0 then Err("Page count must be >= 0, got: " + IntToString(pageCount))
    else Ok(ParseResult(success, pages, pageCount, errorMessage, warnings))
  }

  datatype ValidationResult = ValidationResult(isValid: bool, errorType: Option<string>, errorMessage: Option<string>)

  /** The `ValidationResult` constructor: an invalid verdict must explain itself. */
  function NewValidationResult(isValid: bool, errorType: Option<string>, errorMessage: Option<string>): (r: Result<ValidationResult>)
    ensures r.Ok? <==> isValid || HasMessage(errorMessage)
    ensures r.Ok? ==> r.value == ValidationResult(isValid, errorType, errorMessage)
  {
    if !isValid && !HasMessage(errorMessage) then Err("Invalid validation result must have error_message")
    else Ok(ValidationResult(isValid, errorType, errorMessage))
  }
}
