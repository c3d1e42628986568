/** The report written for one document (models/output_report.py). */
module OutputReports {
  import opened Wrappers
  import opened Text
  import opened Paths
  import opened PersonalInfo
  import opened ExtractionMatches
  import opened Results

  datatype OutputReport = OutputReport(
    documentFilename: string,
    processingTimestamp: string,
    personalInfo: PersonalInformation,
    matches: seq<ExtractionMatch>,
    errors: seq<string>,
    warnings: seq<string>,
    outputPath: string)
  {
    predicate HasErrors() { |errors| > 0 }

    predicate HasWarnings() { |warnings| > 0 }
  }

  /** The dataclass constructor: the file name, the timestamp and the output path must not be
      empty, checked in that order. */
  function NewOutputReport(documentFilename: string, processingTimestamp: string, personalInfo: PersonalInformation,
                           matches: seq<ExtractionMatch>, errors: seq<string>, warnings: seq<string>,
                           outputPath: string): (r: Result<OutputReport>)
    ensures r.Ok? <==> documentFilename != [] && processingTimestamp != [] && outputPath != []
    ensures r.Ok? ==> r.value.documentFilename == documentFilename && r.value.processingTimestamp == processingTimestamp
    ensures r.Ok? ==> r.value.personalInfo == personalInfo && r.value.matches == matches
    ensures r.Ok? ==> r.value.errors == errors && r.value.warnings == warnings && r.value.outputPath == outputPath
    ensures documentFilename == [] ==> r == Err("Document filename must be non-empty")
  {
    if documentFilename == [] then Err("Document filename must be non-empty")
    else if processingTimestamp == [] then Err("Processing timestamp must be non-empty")
    else if outputPath == [] then Err("Output path must be non-empty")
    else Ok(OutputReport(documentFilename, processingTimestamp, personalInfo, matches, errors, warnings, outputPath))
  }

  /** `name.rsplit('.', 1)[0]` when the name has a dot, else the whole name. */
  function BaseName(name: string): (r: string)
    ensures '.' !in name ==> r == name
    ensures '.' in name ==> |r| < |name| && name[..|r|] == r && name[|r|] == '.' && '.' !in name[|r| + 1..]
  {
    match LastIndexOf(name, '.')
    case None => name
    case Some(i) => name[..i]
  }

  /** `get_filename_from_document`. */
  function FilenameFromDocument(name: string): string {
    "output_" + BaseName(name) + ".txt"
  }

  /** A name made of a base, a dot and an extension without dots gives "output_<base>.txt",
      whatever dots the base holds. */
  lemma FilenameOfBaseAndExtension(base: string, ext: string)
    requires '.' !in ext
    ensures FilenameFromDocument(base + "." + ext) == "output_" + base + ".txt"
  {
    var name := base + "." + ext;
    assert name[|base| + 1..] == ext;
    LastIndexOfAt(name, '.', |base|);
    assert name[..|base|] == base;
  }

  /** A name without a dot is used whole. */
  lemma FilenameWithoutDot(name: string)
    requires '.' !in name
    ensures FilenameFromDocument(name) == "output_" + name + ".txt"
  {
  }

  /** `get_success_status`. */
  function SuccessStatus(report: OutputReport): string {
    if !report.HasErrors() then "complete"
    else if exists i :: 0 <= i < |report.matches| && report.matches[i].status == Found then "partial_success"
    else "error"
  }

  /** Some match was found exactly when the found count is not zero. */
  lemma {:induction false} FoundCountPositive(ms: seq<ExtractionMatch>)
    ensures CountStatus(ms, Found) > 0 <==> exists i :: 0 <= i < |ms| && ms[i].status == Found
    decreases |ms|
  {
    if ms != [] {
      var init := ms[..|ms| - 1];
      FoundCountPositive(init);
      if exists i :: 0 <= i < |init| && init[i].status == Found {
        var i :| 0 <= i < |init| && init[i].status == Found;
        assert ms[i] == init[i];
      }
      if exists i :: 0 <= i < |ms| && ms[i].status == Found {
        var i :| 0 <= i < |ms| && ms[i].status == Found;
        if i < |init| {
          assert init[i] == ms[i];
        }
      }
    }
  }

  /** "complete" exactly when there are no errors, "partial_success" exactly when there are
      errors and a found match, "error" exactly when there are errors and nothing was found. */
  lemma SuccessStatusMeaning(report: OutputReport)
    ensures SuccessStatus(report) == "complete" <==> report.errors == []
    ensures SuccessStatus(report) == "partial_success" <==> report.errors != [] && CountStatus(report.matches, Found) > 0
    ensures SuccessStatus(report) == "error" <==> report.errors != [] && CountStatus(report.matches, Found) == 0
  {
    FoundCountPositive(report.matches);
  }
}
