/** Everything one extraction produced (models/extraction_results.py). */
module Results {
  import opened Wrappers
  import opened Text
  import opened Documents
  import opened PersonalInfo
  import opened ExtractionMatches

  /** The `context` dictionary of an error: empty, or the list of keywords searched. */
  datatype ErrorContext = NoContext | KeywordsContext(keywords: seq<string>)

  datatype ExtractionError = ExtractionError(errorType: string, message: string, context: ErrorContext)

  /** How many matches have status `st`. */
  function CountStatus(ms: seq<ExtractionMatch>, st: MatchStatus): (n: nat)
    ensures n <= |ms|
  {
    if ms == [] then 0
    else CountStatus(ms[..|ms| - 1], st) + (if ms[|ms| - 1].status == st then 1 else 0)
  }

  /** Counting a sequence extended by one match. */
  lemma CountStatusAppend(ms: seq<ExtractionMatch>, m: ExtractionMatch, st: MatchStatus)
    ensures CountStatus(ms + [m], st) == CountStatus(ms, st) + (if m.status == st then 1 else 0)
  {
    assert (ms + [m])[..|ms|] == ms;
  }

  /** Every match has exactly one of the three statuses, so the three counts add up to the
      number of matches. */
  lemma {:induction false} CountsPartition(ms: seq<ExtractionMatch>)
    ensures CountStatus(ms, Found) + CountStatus(ms, NotFound) + CountStatus(ms, Ambiguous) == |ms|
  {
    if ms != [] {
      CountsPartition(ms[..|ms| - 1]);
    }
  }

  /** The `- message` lines of an error summary. */
  function ErrorLines(errors: seq<ExtractionError>): (r: seq<string>)
    ensures |r| == |errors|
    ensures forall i :: 0 <= i < |r| ==> r[i] == "- " + errors[i].message
  {
    seq(|errors|, i requires 0 <= i < |errors| => "- " + errors[i].message)
  }

  datatype ExtractionResults = ExtractionResults(
    document: DocumentInfo,
    personalInfo: PersonalInformation,
    matches: seq<ExtractionMatch>,
    errors: seq<ExtractionError>,
    warnings: seq<string>,
    processingTime: real,
    timestamp: string,
    // Attributes the controller attaches once the report is written; absent until then.
    outputPath: Option<string>,
    logPath: Option<string>)
  {
    /** `ExtractionResults.create`: nothing found yet; `timestamp` is the clock reading. */
    static function Create(document: DocumentInfo, timestamp: string): (r: ExtractionResults)
      ensures r.document == document && r.personalInfo == Empty()
      ensures r.matches == [] && r.errors == [] && r.warnings == []
      ensures !r.IsComplete() && r.ErrorSummary() == "No errors"
      ensures r.outputPath.None? && r.logPath.None?
    {
      ExtractionResults(document, Empty(), [], [], [], 0.0, timestamp, None, None)
    }

    /** `add_match`: the match goes last; nothing else changes. */
    function AddMatch(m: ExtractionMatch): (r: ExtractionResults)
      ensures |r.matches| == |matches| + 1 && r.matches[..|matches|] == matches && r.matches[|matches|] == m
      ensures r.errors == errors && r.warnings == warnings && r.personalInfo == personalInfo
      ensures r.IsComplete()
      ensures forall st :: CountStatus(r.matches, st) == CountStatus(matches, st) + (if m.status == st then 1 else 0)
    {
      var r := this.(matches := matches + [m]);
      forall st ensures CountStatus(r.matches, st) == CountStatus(matches, st) + (if m.status == st then 1 else 0) {
        CountStatusAppend(matches, m, st);
      }
      r
    }

    /** `add_error`: an error of the given type, message and context goes last. */
    function AddError(errorType: string, message: string, context: ErrorContext): (r: ExtractionResults)
      ensures r.errors == errors + [ExtractionError(errorType, message, context)]
      ensures r.matches == matches && r.warnings == warnings && r.personalInfo == personalInfo
      ensures r.HasErrors() && r.IsComplete()
    {
      this.(errors := errors + [ExtractionError(errorType, message, context)])
    }

    /** `add_warning`: the warning goes last. */
    function AddWarning(message: string): (r: ExtractionResults)
      ensures r.warnings == warnings + [message] && r.HasWarnings()
      ensures r.matches == matches && r.errors == errors && r.personalInfo == personalInfo
    {
      this.(warnings := warnings + [message])
    }

    predicate HasErrors() { |errors| > 0 }

    predicate HasWarnings() { |warnings| > 0 }

    /** Processing finished, with or without errors: there is a match or an error. */
    predicate IsComplete() { |matches| > 0 || |errors| > 0 }

    function SuccessCount(): nat { CountStatus(matches, Found) }

    function NotFoundCount(): nat { CountStatus(matches, NotFound) }

    function AmbiguousCount(): nat { CountStatus(matches, Ambiguous) }

    /** `get_error_summary`: "No errors", or one `- message` line per error. */
    function ErrorSummary(): (r: string)
      ensures r == "No errors" <==> !HasErrors()
    {
      if !HasErrors() then "No errors"
      else
        JoinStartsWithFirst(ErrorLines(errors), "\n");
        assert Join(ErrorLines(errors), "\n")[0] == '-';
        Join(ErrorLines(errors), "\n")
    }

    /** `get_status_summary`: the total, then the non-zero counts in a fixed order. */
    function StatusSummary(): string {
      var parts := (if SuccessCount() > 0 then [NatToString(SuccessCount()) + " successful"] else [])
        + (if NotFoundCount() > 0 then [NatToString(NotFoundCount()) + " not found"] else [])
        + (if AmbiguousCount() > 0 then [NatToString(AmbiguousCount()) + " ambiguous"] else []);
      "Total: " + NatToString(|matches|) + " (" + Join(parts, ", ") + ")"
    }
  }

  /** Recording an error extends the error summary by one line. */
  lemma ErrorSummaryAfterAddError(r: ExtractionResults, errorType: string, message: string, context: ErrorContext)
    ensures r.AddError(errorType, message, context).ErrorSummary()
         == if r.errors == [] then "- " + message else r.ErrorSummary() + "\n- " + message
  {
    var e := ExtractionError(errorType, message, context);
    if r.errors != [] {
      assert ErrorLines(r.errors + [e]) == ErrorLines(r.errors) + ["- " + message];
      JoinAppend(ErrorLines(r.errors), "- " + message, "\n");
    } else {
      assert ErrorLines([e]) == ["- " + message];
    }
  }

  /** When every match was found, the status summary names only the successful count. */
  lemma StatusSummaryAllFound(r: ExtractionResults)
    requires r.matches != []
    requires forall i :: 0 <= i < |r.matches| ==> r.matches[i].status == Found
    ensures r.StatusSummary() == "Total: " + NatToString(|r.matches|) + " (" + NatToString(|r.matches|) + " successful)"
  {
    AllFoundCounts(r.matches);
    CountsPartition(r.matches);
  }

  lemma {:induction false} AllFoundCounts(ms: seq<ExtractionMatch>)
    requires forall i :: 0 <= i < |ms| ==> ms[i].status == Found
    ensures CountStatus(ms, NotFound) == 0 && CountStatus(ms, Ambiguous) == 0
  {
    if ms != [] {
      AllFoundCounts(ms[..|ms| - 1]);
    }
  }
}
