/** The record the keyword matcher produces (extractors/base.py). */
module ExtractorBase {
  import opened Wrappers
  import opened Text

  /** A line on which a keyword was found. */
  datatype KeywordMatch = KeywordMatch(keyword: string, pageNumber: int, lineNumber: int, lineText: string)

  predicate ValidKeywordMatch(m: KeywordMatch) {
    m.pageNumber >= 1 && m.lineNumber >= 1 && m.keyword != [] && m.lineText != []
  }

  /** The dataclass constructor: page, line, keyword and line text are checked in that order. */
  function NewKeywordMatch(keyword: string, pageNumber: int, lineNumber: int, lineText: string): (r: Result<KeywordMatch>)
    ensures r.Ok? <==> ValidKeywordMatch(KeywordMatch(keyword, pageNumber, lineNumber, lineText))
    ensures r.Ok? ==> r.value == KeywordMatch(keyword, pageNumber, lineNumber, lineText)
    ensures pageNumber >= 1 && lineNumber >= 1 && keyword == [] ==> r == Err("Keyword must be non-empty")
  {
    if pageNumber < 1 then Err("Page number must be >= 1, got: " + IntToString(pageNumber))
    else if lineNumber < 1 then Err("Line number must be >= 1, got: " + IntToString(lineNumber))
    else if keyword == [] then Err("Keyword must be non-empty")
    else if lineText == [] then Err("Line text must be non-empty")
    else Ok(KeywordMatch(keyword, pageNumber, lineNumber, lineText))
  }
}
