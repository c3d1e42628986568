/** The results of extracting from several documents at once (models/batch_extraction_results.py). */
module BatchResults {
  import opened Wrappers
  import opened Text
  import opened Results

  /** How many documents produced at least one found match. */
  function DocumentsWithMatches(results: seq<ExtractionResults>): nat
    decreases |results|
  {
    if results == [] then 0
    else
      DocumentsWithMatches(results[..|results| - 1])
      + (if results[|results| - 1].SuccessCount() > 0 then 1 else 0)
  }

  /** No more documents have matches than there are documents; none has exactly when no
      document found anything, and all have exactly when every document found something. */
  lemma {:induction false} DocumentsWithMatchesBounds(results: seq<ExtractionResults>)
    ensures DocumentsWithMatches(results) <= |results|
    ensures DocumentsWithMatches(results) == 0 <==> forall i :: 0 <= i < |results| ==> results[i].SuccessCount() == 0
    ensures DocumentsWithMatches(results) == |results| <==> forall i :: 0 <= i < |results| ==> results[i].SuccessCount() > 0
    decreases |results|
  {
    if results != [] {
      var init := results[..|results| - 1];
      DocumentsWithMatchesBounds(init);
      assert forall i :: 0 <= i < |init| ==> init[i] == results[i];
    }
  }

  /** Counting after one more document. */
  lemma DocumentsWithMatchesAppend(results: seq<ExtractionResults>, r: ExtractionResults)
    ensures DocumentsWithMatches(results + [r]) == DocumentsWithMatches(results) + (if r.SuccessCount() > 0 then 1 else 0)
  {
    assert (results + [r])[..|results|] == results;
  }

  /** The pieces of `get_status_summary`: the document count, then the counts of documents
      with matches and of warnings when they are not zero. */
  function SummaryParts(total: nat, success: nat, warnings: nat): seq<string> {
    [NatToString(total) + " documents processed"]
    + (if success > 0 then [NatToString(success) + " with matches"] else [])
    + (if warnings > 0 then [NatToString(warnings) + " warnings"] else [])
  }

  /** `get_status_summary`: the pieces joined with ", ". */
  function StatusSummary(total: nat, success: nat, warnings: nat): string {
    Join(SummaryParts(total, success, warnings), ", ")
  }

  /** The summary spelled out: the document count always, each further count only when it is
      not zero, each after ", ". */
  lemma StatusSummaryMeaning(total: nat, success: nat, warnings: nat)
    ensures StatusSummary(total, success, warnings)
      == NatToString(total) + " documents processed"
         + (if success > 0 then ", " + NatToString(success) + " with matches" else "")
         + (if warnings > 0 then ", " + NatToString(warnings) + " warnings" else "")
  {
    var first := NatToString(total) + " documents processed";
    var withSuccess := [first] + (if success > 0 then [NatToString(success) + " with matches"] else []);
    if success > 0 {
      JoinAppend([first], NatToString(success) + " with matches", ", ");
    }
    assert Join(withSuccess, ", ")
      == first + (if success > 0 then ", " + NatToString(success) + " with matches" else "");
    if warnings > 0 {
      JoinAppend(withSuccess, NatToString(warnings) + " warnings", ", ");
    } else {
      assert SummaryParts(total, success, warnings) == withSuccess;
    }
  }

  /** The batch container. The timestamp is a clock reading and is not part of this model. */
  class BatchExtractionResults {
    var results: seq<ExtractionResults>
    var keywords: seq<string>
    var outputPath: Option<string>
    var warnings: seq<string>

    constructor(keywords: seq<string>)
      ensures results == [] && this.keywords == keywords && outputPath.None? && warnings == []
    {
      results := [];
      this.keywords := keywords;
      outputPath := None;
      warnings := [];
    }

    /** `add_result`: appends one result, nothing else changes. */
    method AddResult(result: ExtractionResults)
      modifies this
      ensures results == old(results) + [result]
      ensures warnings == old(warnings) && keywords == old(keywords) && outputPath == old(outputPath)
      ensures HasResults() && !HasErrors()
      ensures SuccessCount() == old(SuccessCount()) + (if result.SuccessCount() > 0 then 1 else 0)
    {
      DocumentsWithMatchesAppend(results, result);
      results := results + [result];
    }

    /** `add_warning`: appends one warning, nothing else changes. */
    method AddWarning(message: string)
      modifies this
      ensures warnings == old(warnings) + [message]
      ensures results == old(results) && keywords == old(keywords) && outputPath == old(outputPath)
      ensures HasWarnings() && (HasErrors() <==> !HasResults())
    {
      warnings := warnings + [message];
    }

    function DocumentCount(): nat
      reads this
    {
      |results|
    }

    predicate HasResults()
      reads this
    {
      |results| > 0
    }

    predicate HasWarnings()
      reads this
    {
      |warnings| > 0
    }

    /** `has_errors`: nothing was processed but something was reported. */
    predicate HasErrors()
      reads this
    {
      results == [] && |warnings| > 0
    }

    /** `get_success_count`: at most the number of documents. */
    function SuccessCount(): (n: nat)
      reads this
      ensures n <= DocumentCount()
      ensures n == 0 <==> forall i :: 0 <= i < |results| ==> results[i].SuccessCount() == 0
    {
      DocumentsWithMatchesBounds(results);
      DocumentsWithMatches(results)
    }

    /** `get_status_summary`. */
    function GetStatusSummary(): string
      reads this
    {
      StatusSummary(DocumentCount(), SuccessCount(), |warnings|)
    }
  }
}
