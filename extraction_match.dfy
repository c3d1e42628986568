/** One keyword-to-number result (models/extraction_match.py). */
module ExtractionMatches {
  import opened Wrappers
  import opened Text

  datatype MatchStatus = Found | NotFound | Ambiguous

  function StatusName(s: MatchStatus): string {
    match s
    case Found => "found"
    case NotFound => "not_found"
    case Ambiguous => "ambiguous"
  }

  function ParseStatus(s: string): (r: Option<MatchStatus>)
    ensures r.Some? ==> StatusName(r.value) == s
    ensures r.None? ==> s !in {"found", "not_found", "ambiguous"}
  {
    if s == "found" then Some(Found)
    else if s == "not_found" then Some(NotFound)
    else if s == "ambiguous" then Some(Ambiguous)
    else None
  }

  datatype ExtractionMatch = ExtractionMatch(
    keyword: string,
    value: string,
    pageNumber: int,
    lineNumber: Option<int>,
    status: MatchStatus,
    warning: Option<string>)

  /** What the constructor guarantees: a page from 1, a line from 1 when present, a keyword
      that is not blank, and a not-found value that is either empty or "Not found". */
  predicate ValidMatch(m: ExtractionMatch) {
    m.pageNumber >= 1
    && (m.lineNumber.Some? ==> m.lineNumber.value >= 1)
    && Strip(m.keyword) != []
    && (m.status == NotFound ==> m.value == "Not found" || m.value == [])
  }

  /** The dataclass constructor: validates status, page, line and keyword in that order, then
      replaces any other value of a not-found match by "Not found". */
  function NewExtractionMatch(keyword: string, value: string, pageNumber: int, lineNumber: Option<int>,
                              status: string, warning: Option<string>): (r: Result<ExtractionMatch>)
    ensures r.Ok? <==> ParseStatus(status).Some? && pageNumber >= 1
                       && (lineNumber.Some? ==> lineNumber.value >= 1) && Strip(keyword) != []
    ensures r.Ok? ==> ValidMatch(r.value) && StatusName(r.value.status) == status
    ensures r.Ok? ==> r.value.keyword == keyword && r.value.pageNumber == pageNumber
                      && r.value.lineNumber == lineNumber && r.value.warning == warning
    ensures r.Ok? && (status != "not_found" || value == [] || value == "Not found") ==> r.value.value == value
    ensures (ParseStatus(status).Some? && pageNumber >= 1 && (lineNumber.Some? ==> lineNumber.value >= 1)
             && Strip(keyword) == []) ==> r == Err("Keyword must be non-empty")
  {
    match ParseStatus(status)
    case None =>
      Err("Invalid status: " + status + ". Must be one of ('found', 'not_found', 'ambiguous')")
    case Some(st) =>
      if pageNumber < 1 then Err("Page number must be >= 1, got: " + IntToString(pageNumber))
      else if lineNumber.Some? && lineNumber.value < 1 then
        Err("Line number must be >= 1, got: " + IntToString(lineNumber.value))
      else if Strip(keyword) == [] then Err("Keyword must be non-empty")
      else
        var v := if st == NotFound && value != [] && value != "Not found" then "Not found" else value;
        Ok(ExtractionMatch(keyword, v, pageNumber, lineNumber, st, warning))
  }

  lemma StatusNameParses(st: MatchStatus)
    ensures ParseStatus(StatusName(st)) == Some(st)
  {
    match st
    case Found => assert ParseStatus("found") == Some(Found);
    case NotFound => assert ParseStatus("not_found") == Some(NotFound);
    case Ambiguous => assert ParseStatus("ambiguous") == Some(Ambiguous);
  }

  /** Every valid match is what the constructor builds from its own fields. */
  lemma {:induction false} ValidMatchReconstructs(m: ExtractionMatch)
    requires ValidMatch(m)
    ensures NewExtractionMatch(m.keyword, m.value, m.pageNumber, m.lineNumber, StatusName(m.status), m.warning) == Ok(m)
  {
    StatusNameParses(m.status);
  }
}
