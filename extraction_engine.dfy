/** The extraction engine: keyword matching, number extraction and personal information,
    combined into one `ExtractionResults`. Each stage's failure becomes an error entry and the
    later stages still run. */
module ExtractionEngine {
  import opened Wrappers
  import opened Text
  import opened Paths
  import opened ParserBase
  import opened ExtractorBase
  import opened ExtractionMatches
  import opened PersonalInfo
  import opened Documents
  import opened Results
  import KeywordMatcher
  import NumberExtractor
  import PersonalInfoExtractor

  // ---------------------------------------------------------------------------------------
  // Grouping the extracted matches by keyword
  // ---------------------------------------------------------------------------------------

  /** The matches carrying keyword `kw`, in their original order (the reference definition
      of one group). */
  function MatchesFor(ms: seq<ExtractionMatch>, kw: string): seq<ExtractionMatch> {
    if ms == [] then []
    else MatchesFor(ms[..|ms| - 1], kw) + (if ms[|ms| - 1].keyword == kw then [ms[|ms| - 1]] else [])
  }

  lemma {:induction false} MatchesForMembers(ms: seq<ExtractionMatch>, kw: string, m: ExtractionMatch)
    ensures m in MatchesFor(ms, kw) <==> m in ms && m.keyword == kw
  {
    if ms != [] {
      var init := ms[..|ms| - 1];
      MatchesForMembers(init, kw, m);
      assert ms == init + [ms[|ms| - 1]];
    }
  }

  /** The dictionary the engine builds: one list per keyword, appended to match by match. */
  function GroupBy(ms: seq<ExtractionMatch>): map<string, seq<ExtractionMatch>> {
    if ms == [] then map[]
    else
      var g := GroupBy(ms[..|ms| - 1]);
      var m := ms[|ms| - 1];
      g[m.keyword := (if m.keyword in g then g[m.keyword] else []) + [m]]
  }

  /** A keyword has an entry exactly when some match carries it, and the entry holds exactly
      that keyword's matches in order. */
  lemma {:induction false} GroupByMeaning(ms: seq<ExtractionMatch>, kw: string)
    ensures kw in GroupBy(ms) <==> MatchesFor(ms, kw) != []
    ensures kw in GroupBy(ms) ==> GroupBy(ms)[kw] == MatchesFor(ms, kw)
  {
    if ms != [] {
      GroupByMeaning(ms[..|ms| - 1], kw);
    }
  }

  /** Every entry of the dictionary is a non-empty list of matches of the input carrying
      that entry's keyword. */
  lemma GroupByEntries(ms: seq<ExtractionMatch>, kw: string, m: ExtractionMatch)
    requires kw in GroupBy(ms)
    ensures GroupBy(ms)[kw] != []
    ensures m in GroupBy(ms)[kw] <==> m in ms && m.keyword == kw
  {
    GroupByMeaning(ms, kw);
    MatchesForMembers(ms, kw, m);
  }

  /** The method form of the grouping loop. */
  method GroupMatches(ms: seq<ExtractionMatch>) returns (groups: map<string, seq<ExtractionMatch>>)
    ensures groups == GroupBy(ms)
    ensures forall kw :: kw in groups ==> groups[kw] == MatchesFor(ms, kw)
  {
    groups := map[];
    var i := 0;
    while i < |ms|
      invariant 0 <= i <= |ms|
      invariant groups == GroupBy(ms[..i])
    {
      var m := ms[i];
      assert ms[..i + 1][..i] == ms[..i];
      if m.keyword !in groups {
        groups := groups[m.keyword := []];
        groups := groups[m.keyword := groups[m.keyword] + [m]];
      } else {
        groups := groups[m.keyword := groups[m.keyword] + [m]];
      }
      i := i + 1;
    }
    assert ms[..i] == ms;
    forall kw | kw in groups ensures groups[kw] == MatchesFor(ms, kw) {
      GroupByMeaning(ms, kw);
    }
  }

  // ---------------------------------------------------------------------------------------
  // Emitting the matches in keyword order
  // ---------------------------------------------------------------------------------------

  /** `if match.warning:` */
  predicate HasWarning(m: ExtractionMatch) { m.warning.Some? && m.warning.value != [] }

  /** The warnings a group contributes, in order. */
  function WarningsOf(group: seq<ExtractionMatch>): seq<string> {
    if group == [] then []
    else
      var m := group[|group| - 1];
      WarningsOf(group[..|group| - 1]) + (if HasWarning(m) then [m.warning.value] else [])
  }

  /** Adding one keyword's group: each match, then its warning if it has one. */
  function AddGroup(res: ExtractionResults, group: seq<ExtractionMatch>): ExtractionResults {
    if group == [] then res
    else
      var m := group[|group| - 1];
      var withMatch := AddGroup(res, group[..|group| - 1]).AddMatch(m);
      if HasWarning(m) then withMatch.AddWarning(m.warning.value) else withMatch
  }

  /** A group lands whole at the end of the matches and its warnings at the end of the
      warnings; nothing else changes. */
  lemma {:induction false} AddGroupMeaning(res: ExtractionResults, group: seq<ExtractionMatch>)
    ensures AddGroup(res, group) == res.(matches := res.matches + group, warnings := res.warnings + WarningsOf(group))
  {
    if group != [] {
      var init := group[..|group| - 1];
      AddGroupMeaning(res, init);
      assert group == init + [group[|group| - 1]];
      assert res.matches + group == res.matches + init + [group[|group| - 1]];
    }
  }

  /** The entry written for a keyword with no match. */
  function NotFoundMatch(kw: string): ExtractionMatch {
    ExtractionMatch(kw, "Not found", 1, None, NotFound, None)
  }

  /** Building that entry with the dataclass constructor, which rejects a blank keyword. */
  function NotFoundEntry(kw: string): Result<ExtractionMatch> {
    NewExtractionMatch(kw, "Not found", 1, None, "not_found", None)
  }

  /** The constructor accepts the entry exactly when the keyword is not blank. */
  lemma NotFoundEntryMeaning(kw: string)
    ensures NotFoundEntry(kw) == if !IsBlank(kw) then Ok(NotFoundMatch(kw)) else Err("Keyword must be non-empty")
    ensures ValidMatch(NotFoundMatch(kw)) <==> !IsBlank(kw)
  {
    StatusNameParses(NotFound);
    BlankIffStripsEmpty(kw);
  }

  /** What one keyword contributes to the matches when nothing fails. */
  function Entry(groups: map<string, seq<ExtractionMatch>>, kw: string): seq<ExtractionMatch> {
    if kw in groups then groups[kw] else [NotFoundMatch(kw)]
  }

  /** The loop over the input keywords: the results after each keyword, and the error of the
      constructor call that ended the loop, if one did (the constructor's verdict on a "Not
      found" entry is stated by `NotFoundEntryMeaning`). The lookup uses the keyword exactly as
      given. */
  function EmitAll(res: ExtractionResults, groups: map<string, seq<ExtractionMatch>>, keywords: seq<string>)
    : (ExtractionResults, Option<string>)
  {
    if keywords == [] then (res, None)
    else
      var prev := EmitAll(res, groups, keywords[..|keywords| - 1]);
      var kw := keywords[|keywords| - 1];
      if prev.1.Some? then prev
      else if kw in groups then (AddGroup(prev.0, groups[kw]), None)
      else if IsBlank(kw) then (prev.0, Some("Keyword must be non-empty"))
      else (prev.0.AddMatch(NotFoundMatch(kw)), None)
  }

  /** One more keyword after a successful prefix: its entry and its warnings are appended. */
  lemma EmitStep(res: ExtractionResults, groups: map<string, seq<ExtractionMatch>>, keywords: seq<string>)
    requires keywords != [] && EmitAll(res, groups, keywords).1.None?
    ensures var prev := EmitAll(res, groups, keywords[..|keywords| - 1]);
      var kw := keywords[|keywords| - 1];
      prev.1.None?
      && EmitAll(res, groups, keywords).0 == prev.0.(matches := prev.0.matches + Entry(groups, kw),
           warnings := prev.0.warnings + (if kw in groups then WarningsOf(groups[kw]) else []))
  {
    var prev := EmitAll(res, groups, keywords[..|keywords| - 1]);
    var kw := keywords[|keywords| - 1];
    if kw in groups {
      AddGroupMeaning(prev.0, groups[kw]);
    }
  }

  /** The loop adds no error, keeps the personal information, the document and the times,
      and only appends matches and warnings. */
  lemma {:induction false} EmitAllKeeps(res: ExtractionResults, groups: map<string, seq<ExtractionMatch>>, keywords: seq<string>)
    ensures var out := EmitAll(res, groups, keywords).0;
      out.errors == res.errors && out.personalInfo == res.personalInfo && out.document == res.document
      && out.processingTime == res.processingTime && out.timestamp == res.timestamp
      && |res.matches| <= |out.matches| && out.matches[..|res.matches|] == res.matches
      && |res.warnings| <= |out.warnings| && out.warnings[..|res.warnings|] == res.warnings
  {
    if keywords != [] {
      var init := keywords[..|keywords| - 1];
      var kw := keywords[|keywords| - 1];
      EmitAllKeeps(res, groups, init);
      var prev := EmitAll(res, groups, init);
      if prev.1.None? && kw in groups {
        AddGroupMeaning(prev.0, groups[kw]);
        assert (prev.0.matches + groups[kw])[..|res.matches|] == prev.0.matches[..|res.matches|];
        assert (prev.0.warnings + WarningsOf(groups[kw]))[..|res.warnings|] == prev.0.warnings[..|res.warnings|];
      } else if prev.1.None? && !IsBlank(kw) {
        var m := NotFoundMatch(kw);
        assert (prev.0.matches + [m])[..|res.matches|] == prev.0.matches[..|res.matches|];
      }
    }
  }

  /** The loop fails exactly when some keyword has no group and is blank, and always with the
      constructor's message. */
  lemma {:induction false} EmitAllFailure(res: ExtractionResults, groups: map<string, seq<ExtractionMatch>>, keywords: seq<string>)
    ensures EmitAll(res, groups, keywords).1.None?
            <==> forall k :: 0 <= k < |keywords| ==> keywords[k] in groups || !IsBlank(keywords[k])
    ensures EmitAll(res, groups, keywords).1.Some? ==> EmitAll(res, groups, keywords).1.value == "Keyword must be non-empty"
  {
    if keywords != [] {
      var init := keywords[..|keywords| - 1];
      var kw := keywords[|keywords| - 1];
      EmitAllFailure(res, groups, init);
      var prev := EmitAll(res, groups, init);
      var out := EmitAll(res, groups, keywords);
      if prev.1.Some? {
        assert out == prev;
        var k :| 0 <= k < |init| && !(init[k] in groups || !IsBlank(init[k]));
        assert init[k] == keywords[k];
      } else {
        assert forall k :: 0 <= k < |init| ==> init[k] == keywords[k];
        assert out.1.None? <==> kw in groups || !IsBlank(kw);
      }
    }
  }

  /** Once the loop has failed on a prefix of the keywords, the rest changes nothing. */
  lemma {:induction false} EmitAllStopsAtError(res: ExtractionResults, groups: map<string, seq<ExtractionMatch>>,
                                               keywords: seq<string>, n: nat)
    requires n <= |keywords| && EmitAll(res, groups, keywords[..n]).1.Some?
    ensures EmitAll(res, groups, keywords) == EmitAll(res, groups, keywords[..n])
    decreases |keywords| - n
  {
    if n < |keywords| {
      assert keywords[..n + 1][..n] == keywords[..n];
      EmitAllStopsAtError(res, groups, keywords, n + 1);
    } else {
      assert keywords[..n] == keywords;
    }
  }

  /** `e` occurs in `s` starting at index `i`. */
  predicate SliceAt(s: seq<ExtractionMatch>, i: nat, e: seq<ExtractionMatch>) {
    i + |e| <= |s| && s[i..i + |e|] == e
  }

  lemma SliceAtExtends(s: seq<ExtractionMatch>, t: seq<ExtractionMatch>, i: nat, e: seq<ExtractionMatch>)
    requires SliceAt(s, i, e)
    ensures SliceAt(s + t, i, e)
  {
    assert (s + t)[i..i + |e|] == s[i..i + |e|];
  }

  /** When the loop does not fail, every keyword's entry (its whole group of matches, or its
      "Not found" entry) appears, uninterrupted, among the new matches. */
  lemma {:induction false} EmitAllReportsKeyword(res: ExtractionResults, groups: map<string, seq<ExtractionMatch>>,
                                                 keywords: seq<string>, k: nat)
    requires k < |keywords| && EmitAll(res, groups, keywords).1.None?
    ensures exists i :: |res.matches| <= i && SliceAt(EmitAll(res, groups, keywords).0.matches, i, Entry(groups, keywords[k]))
  {
    var init := keywords[..|keywords| - 1];
    var kw := keywords[|keywords| - 1];
    EmitStep(res, groups, keywords);
    EmitAllFailure(res, groups, init); EmitAllKeeps(res, groups, init);
    var prev := EmitAll(res, groups, init).0;
    var out := EmitAll(res, groups, keywords).0;
    if k == |keywords| - 1 {
      assert out.matches[|prev.matches|..|prev.matches| + |Entry(groups, kw)|] == Entry(groups, kw);
      assert SliceAt(out.matches, |prev.matches|, Entry(groups, kw));
    } else {
      assert init[k] == keywords[k];
      EmitAllReportsKeyword(res, groups, init, k);
      var i :| |res.matches| <= i && SliceAt(prev.matches, i, Entry(groups, keywords[k]));
      SliceAtExtends(prev.matches, Entry(groups, kw), i, Entry(groups, keywords[k]));
    }
  }

  /** Every match the loop adds comes from a group or is the "Not found" entry of one of the
      keywords. */
  lemma {:induction false} EmitAllOrigin(res: ExtractionResults, groups: map<string, seq<ExtractionMatch>>,
                                         keywords: seq<string>, i: nat)
    requires |res.matches| <= i < |EmitAll(res, groups, keywords).0.matches|
    ensures var m := EmitAll(res, groups, keywords).0.matches[i];
      (exists kw :: kw in groups && m in groups[kw])
      || (exists k :: 0 <= k < |keywords| && m == NotFoundMatch(keywords[k]))
  {
    var init := keywords[..|keywords| - 1];
    var kw := keywords[|keywords| - 1];
    var prev := EmitAll(res, groups, init);
    var out := EmitAll(res, groups, keywords);
    var m := out.0.matches[i];
    EmitAllFailure(res, groups, init); EmitAllKeeps(res, groups, init);
    if out.0 == prev.0 || i < |prev.0.matches| {
      if out.1.None? {
        EmitStep(res, groups, keywords);
        assert out.0.matches[i] == prev.0.matches[i];
      }
      EmitAllOrigin(res, groups, init, i);
      if exists k :: 0 <= k < |init| && prev.0.matches[i] == NotFoundMatch(init[k]) {
        var k :| 0 <= k < |init| && prev.0.matches[i] == NotFoundMatch(init[k]);
        assert init[k] == keywords[k];
      }
    } else {
      EmitStep(res, groups, keywords);
      assert m == Entry(groups, kw)[i - |prev.0.matches|];
      if kw in groups {
        assert m in groups[kw];
      } else {
        assert m == NotFoundMatch(keywords[|keywords| - 1]);
      }
    }
  }

  /** The body of the inner loop: add each match of a group, then its warning. */
  method AddGroupTo(res: ExtractionResults, group: seq<ExtractionMatch>) returns (r: ExtractionResults)
    ensures r == AddGroup(res, group)
  {
    r := res;
    for j := 0 to |group|
      invariant r == AddGroup(res, group[..j])
    {
      assert group[..j + 1][..j] == group[..j];
      r := r.AddMatch(group[j]);
      if HasWarning(group[j]) {
        r := r.AddWarning(group[j].warning.value);
      }
    }
    assert group[..|group|] == group;
  }

  /** The outer loop over the input keywords, which ends at the first constructor error. */
  method EmitMatches(res: ExtractionResults, groups: map<string, seq<ExtractionMatch>>, keywords: seq<string>)
    returns (r: ExtractionResults, failure: Option<string>)
    ensures (r, failure) == EmitAll(res, groups, keywords)
  {
    r, failure := res, None;
    var k := 0;
    while k < |keywords|
      invariant 0 <= k <= |keywords|
      invariant (r, failure) == EmitAll(res, groups, keywords[..k])
      invariant failure.None?
    {
      var kw := keywords[k];
      assert keywords[..k + 1][..k] == keywords[..k];
      if kw in groups {
        r := AddGroupTo(r, groups[kw]);
      } else {
        var entry := NewExtractionMatch(kw, "Not found", 1, None, "not_found", None);
        NotFoundEntryMeaning(kw);
        if entry.Err? {
          failure := Some(entry.error);
          EmitAllStopsAtError(res, groups, keywords, k + 1);
          return;
        }
        r := r.AddMatch(entry.value);
      }
      k := k + 1;
    }
    assert keywords[..k] == keywords;
  }

  // ---------------------------------------------------------------------------------------
  // The stages and the whole extraction
  // ---------------------------------------------------------------------------------------

  /** What `find_keywords` returns, as a value: its matches, or its error. */
  function MatcherOutcome(pages: seq<PageContent>, keywords: seq<string>): Result<seq<KeywordMatch>> {
    var all := KeywordMatcher.AllMatches(pages, keywords);
    if forall i :: 0 <= i < |all| ==> all[i].keyword != [] then Ok(all) else Err("Keyword must be non-empty")
  }

  /** Step 1: a matcher error is recorded with the keywords as context and leaves no matches. */
  function KeywordStage(res: ExtractionResults, pages: seq<PageContent>, keywords: seq<string>)
    : (ExtractionResults, seq<KeywordMatch>)
  {
    RecordMatches(res, MatcherOutcome(pages, keywords), keywords)
  }

  /** Step 1 once the matcher has answered. */
  function RecordMatches(res: ExtractionResults, outcome: Result<seq<KeywordMatch>>, keywords: seq<string>)
    : (ExtractionResults, seq<KeywordMatch>)
  {
    match outcome
    case Ok(kms) => (res, kms)
    case Err(e) => (res.AddError("keyword_matching_error", "Failed to match keywords: " + e, KeywordsContext(keywords)), [])
  }

  /** Step 2: extraction, then emission in keyword order; either failure is one error entry,
      and what was emitted before it stays. */
  function NumberStage(res: ExtractionResults, kms: seq<KeywordMatch>, keywords: seq<string>): ExtractionResults {
    RecordNumbers(res, NumberExtractor.ExtractAll(kms), keywords)
  }

  /** Step 2 once the extractor has answered: its error, or the keywords' entries. */
  function RecordNumbers(res: ExtractionResults, outcome: Result<seq<ExtractionMatch>>, keywords: seq<string>): ExtractionResults {
    match outcome
    case Err(e) => res.AddError("number_extraction_error", "Failed to extract numbers: " + e, NoContext)
    case Ok(ms) => EmitStage(res, GroupBy(ms), keywords)
  }

  /** The keywords' entries from the extracted groups; a constructor failure is one error. */
  function EmitStage(res: ExtractionResults, groups: map<string, seq<ExtractionMatch>>, keywords: seq<string>): ExtractionResults {
    var out := EmitAll(res, groups, keywords);
    if out.1.Some? then out.0.AddError("number_extraction_error", "Failed to extract numbers: " + out.1.value, NoContext)
    else out.0
  }

  /** Step 3: the personal information, and a warning for each of a missing first name and a
      missing ID prefix (an empty value counts as missing). */
  function PersonalStage(res: ExtractionResults, info: PersonalInformation): ExtractionResults {
    var r1 := res.(personalInfo := info);
    var r2 := if !PersonalInfoExtractor.Truthy(info.firstName) then r1.AddWarning("First name not found in document") else r1;
    if !PersonalInfoExtractor.Truthy(info.idNumberPrefix) then r2.AddWarning("ID number not found in document") else r2
  }

  /** The document the results describe: the one given, or a placeholder named "unknown" in
      the working directory `cwd`, valid, of type pdf, with one page per parsed page. */
  function StartDocument(document: Option<DocumentInfo>, pages: seq<PageContent>, cwd: string): DocumentInfo {
    match document
    case Some(d) => d
    case None => DocumentInfo(PathJoin(cwd, "unknown"), "unknown", Pdf, |pages|, true, None, Unselected)
  }

  /** The results after steps 1 and 2. */
  function NumbersPart(pages: seq<PageContent>, keywords: seq<string>, document: Option<DocumentInfo>,
                       cwd: string, timestamp: string): ExtractionResults
  {
    var res0 := ExtractionResults.Create(StartDocument(document, pages, cwd), timestamp);
    var stage1 := KeywordStage(res0, pages, keywords);
    NumberStage(stage1.0, stage1.1, keywords)
  }

  /** `extract`, with the elapsed time and the clock reading as parameters. */
  function ExtractSpec(pages: seq<PageContent>, keywords: seq<string>, document: Option<DocumentInfo>,
                       cwd: string, elapsed: real, timestamp: string): ExtractionResults
    requires forall i :: 0 <= i < |pages| ==> ValidPage(pages[i])
  {
    PersonalStage(NumbersPart(pages, keywords, document, cwd, timestamp), PersonalInfoExtractor.PersonalInfoOf(pages))
      .(processingTime := elapsed, timestamp := timestamp)
  }

  /** The warnings step 3 appends: one for a missing first name, then one for a missing ID
      prefix. */
  function PersonalWarnings(info: PersonalInformation): seq<string> {
    (if !PersonalInfoExtractor.Truthy(info.firstName) then ["First name not found in document"] else [])
    + (if !PersonalInfoExtractor.Truthy(info.idNumberPrefix) then ["ID number not found in document"] else [])
  }

  /** Step 3 sets the personal information and appends its warnings last; matches, errors and
      the document are untouched. */
  lemma PersonalStageMeaning(res: ExtractionResults, info: PersonalInformation)
    ensures var r := PersonalStage(res, info);
      r.personalInfo == info && r.warnings == res.warnings + PersonalWarnings(info)
      && r.matches == res.matches && r.errors == res.errors && r.document == res.document
    ensures |PersonalWarnings(info)| <= 2
    ensures info.firstName.None? && info.idNumberPrefix.None? ==>
      PersonalWarnings(info) == ["First name not found in document", "ID number not found in document"]
  {
  }

  /** The placeholder document passes the document model's own checks whenever the working
      directory is an absolute path, as a process's working directory is. */
  lemma PlaceholderIsValidDocument(pages: seq<PageContent>, cwd: string)
    requires IsAbsolutePath(cwd)
    ensures var d := StartDocument(None, pages, cwd);
      CheckDocument(d.filePath, FileTypeName(d.fileType)) == Ok(Pdf) && d.pageCount == |pages| && d.isValid
  {
    FileTypeNameAccepted(Pdf);
  }

  /** With no blank keyword both the matcher and the number extractor succeed. */
  lemma MatcherSucceedsOnNonBlankKeywords(pages: seq<PageContent>, keywords: seq<string>)
    requires forall k :: 0 <= k < |keywords| ==> !IsBlank(keywords[k])
    ensures MatcherOutcome(pages, keywords) == Ok(KeywordMatcher.AllMatches(pages, keywords))
    ensures NumberExtractor.ExtractAll(KeywordMatcher.AllMatches(pages, keywords)).Ok?
  {
    var all := KeywordMatcher.AllMatches(pages, keywords);
    forall i | 0 <= i < |all| ensures !IsBlank(all[i].keyword) && all[i].keyword != [] {
      KeywordMatcher.AllMatchesOrigin(pages, keywords, i);
      var k :| 0 <= k < |keywords| && all[i].keyword == Strip(keywords[k]);
      BlankIffStripsEmpty(keywords[k]);
      StripIdempotent(keywords[k]);
      BlankIffStripsEmpty(all[i].keyword);
    }
    NumberExtractor.ExtractAllMeaning(all);
  }

  /** A raw keyword that is blank never names a group of a successful extraction: every
      extracted match carries a keyword that is not blank. */
  lemma BlankKeywordHasNoGroup(kms: seq<KeywordMatch>, kw: string)
    requires NumberExtractor.ExtractAll(kms).Ok? && IsBlank(kw)
    ensures kw !in GroupBy(NumberExtractor.ExtractAll(kms).value)
  {
    var ms := NumberExtractor.ExtractAll(kms).value;
    NumberExtractor.ExtractAllMeaning(kms);
    if kw in GroupBy(ms) {
      GroupByMeaning(ms, kw);
      var m := MatchesFor(ms, kw)[0];
      MatchesForMembers(ms, kw, m);
      assert false;
    }
  }

  /** Step 2 adds at most one error, the constructor's, and none exactly when extraction
      succeeds and every keyword either has a group or is not blank; it keeps the matches it
      was given and only appends. */
  lemma NumberStageMeaning(res: ExtractionResults, kms: seq<KeywordMatch>, keywords: seq<string>)
    ensures var r := NumberStage(res, kms, keywords);
      var outcome := NumberExtractor.ExtractAll(kms);
      r.document == res.document && r.personalInfo == res.personalInfo
      && |res.matches| <= |r.matches| && r.matches[..|res.matches|] == res.matches
      && r.errors == res.errors + (if NumbersClean(outcome, keywords) then [] else [NumberStageError()])
  {
    NumberStageKeeps(res, kms, keywords);
    NumberStageErrors(res, kms, keywords);
  }

  lemma NumberStageKeeps(res: ExtractionResults, kms: seq<KeywordMatch>, keywords: seq<string>)
    ensures var r := NumberStage(res, kms, keywords);
      r.document == res.document && r.personalInfo == res.personalInfo
      && |res.matches| <= |r.matches| && r.matches[..|res.matches|] == res.matches
  {
    RecordNumbersKeeps(res, NumberExtractor.ExtractAll(kms), keywords);
  }

  lemma RecordNumbersKeeps(res: ExtractionResults, outcome: Result<seq<ExtractionMatch>>, keywords: seq<string>)
    ensures var r := RecordNumbers(res, outcome, keywords);
      r.document == res.document && r.personalInfo == res.personalInfo
      && |res.matches| <= |r.matches| && r.matches[..|res.matches|] == res.matches
  {
    if outcome.Ok? {
      EmitAllKeeps(res, GroupBy(outcome.value), keywords);
    }
  }

  lemma NumberStageErrors(res: ExtractionResults, kms: seq<KeywordMatch>, keywords: seq<string>)
    ensures NumberStage(res, kms, keywords).errors
      == res.errors + (if NumbersClean(NumberExtractor.ExtractAll(kms), keywords) then [] else [NumberStageError()])
  {
    NumberExtractor.ExtractAllMeaning(kms);
    RecordNumbersErrors(res, NumberExtractor.ExtractAll(kms), keywords);
  }

  /** Step 2 records no error: extraction succeeded and every keyword has a group or is not
      blank. */
  predicate NumbersClean(outcome: Result<seq<ExtractionMatch>>, keywords: seq<string>) {
    outcome.Ok? && forall k :: 0 <= k < |keywords| ==> keywords[k] in GroupBy(outcome.value) || !IsBlank(keywords[k])
  }

  lemma RecordNumbersErrors(res: ExtractionResults, outcome: Result<seq<ExtractionMatch>>, keywords: seq<string>)
    requires outcome.Err? ==> outcome.error == "Keyword must be non-empty"
    ensures RecordNumbers(res, outcome, keywords).errors
      == res.errors + (if NumbersClean(outcome, keywords) then [] else [NumberStageError()])
  {
    if outcome.Ok? {
      EmitStageErrors(res, GroupBy(outcome.value), keywords);
    }
  }

  /** The error step 2 records when a keyword is blank. */
  function NumberStageError(): ExtractionError {
    ExtractionError("number_extraction_error", "Failed to extract numbers: " + "Keyword must be non-empty", NoContext)
  }

  /** The error step 1 records when a keyword is blank. */
  function MatcherError(keywords: seq<string>): ExtractionError {
    ExtractionError("keyword_matching_error", "Failed to match keywords: " + "Keyword must be non-empty", KeywordsContext(keywords))
  }

  lemma EmitStageErrors(res: ExtractionResults, groups: map<string, seq<ExtractionMatch>>, keywords: seq<string>)
    ensures EmitStage(res, groups, keywords).errors == res.errors
        + (if forall k :: 0 <= k < |keywords| ==> keywords[k] in groups || !IsBlank(keywords[k]) then [] else [NumberStageError()])
  {
    EmitAllFailure(res, groups, keywords);
    EmitAllKeeps(res, groups, keywords);
    var out := EmitAll(res, groups, keywords);
    if out.1.None? {
      assert res.errors + [] == res.errors;
    }
  }

  /** Steps 1 and 2 record no error exactly when no input keyword is blank. */
  lemma {:induction false} NumbersPartNoErrors(pages: seq<PageContent>, keywords: seq<string>, document: Option<DocumentInfo>,
                                               cwd: string, timestamp: string)
    ensures NumbersPart(pages, keywords, document, cwd, timestamp).errors == []
            <==> forall k :: 0 <= k < |keywords| ==> !IsBlank(keywords[k])
  {
    var res0 := ExtractionResults.Create(StartDocument(document, pages, cwd), timestamp);
    var stage1 := KeywordStage(res0, pages, keywords);
    NumberStageMeaning(stage1.0, stage1.1, keywords);
    if forall k :: 0 <= k < |keywords| ==> !IsBlank(keywords[k]) {
      MatcherSucceedsOnNonBlankKeywords(pages, keywords);
    } else if NumberExtractor.ExtractAll(stage1.1).Ok? {
      var k :| 0 <= k < |keywords| && IsBlank(keywords[k]);
      BlankKeywordHasNoGroup(stage1.1, keywords[k]);
    }
  }

  /** The extraction records no error exactly when no input keyword is blank. */
  lemma NoErrorsIffKeywordsNonBlank(pages: seq<PageContent>, keywords: seq<string>, document: Option<DocumentInfo>,
                                    cwd: string, elapsed: real, timestamp: string)
    requires forall i :: 0 <= i < |pages| ==> ValidPage(pages[i])
    ensures ExtractSpec(pages, keywords, document, cwd, elapsed, timestamp).errors == []
            <==> forall k :: 0 <= k < |keywords| ==> !IsBlank(keywords[k])
  {
    PersonalStageMeaning(NumbersPart(pages, keywords, document, cwd, timestamp), PersonalInfoExtractor.PersonalInfoOf(pages));
    NumbersPartNoErrors(pages, keywords, document, cwd, timestamp);
  }

  /** When extraction succeeds and no keyword is blank, step 2 gives every input keyword its
      whole group of extracted matches, uninterrupted, or else a "Not found" entry. */
  lemma NumberStageReportsKeyword(res: ExtractionResults, kms: seq<KeywordMatch>, keywords: seq<string>, k: nat)
    requires NumberExtractor.ExtractAll(kms).Ok?
    requires forall j :: 0 <= j < |keywords| ==> !IsBlank(keywords[j])
    requires k < |keywords|
    ensures var r := NumberStage(res, kms, keywords);
      var ms := NumberExtractor.ExtractAll(kms).value;
      (MatchesFor(ms, keywords[k]) != [] ==> exists i :: SliceAt(r.matches, i, MatchesFor(ms, keywords[k])))
      && (MatchesFor(ms, keywords[k]) == [] ==> NotFoundMatch(keywords[k]) in r.matches)
  {
    var ms := NumberExtractor.ExtractAll(kms).value;
    RecordedKeyword(res, ms, keywords, k);
    assert NumberStage(res, kms, keywords) == EmitStage(res, GroupBy(ms), keywords);
  }

  lemma RecordedKeyword(res: ExtractionResults, ms: seq<ExtractionMatch>, keywords: seq<string>, k: nat)
    requires forall j :: 0 <= j < |keywords| ==> !IsBlank(keywords[j])
    requires k < |keywords|
    ensures var r := EmitStage(res, GroupBy(ms), keywords);
      (MatchesFor(ms, keywords[k]) != [] ==> exists i :: SliceAt(r.matches, i, MatchesFor(ms, keywords[k])))
      && (MatchesFor(ms, keywords[k]) == [] ==> NotFoundMatch(keywords[k]) in r.matches)
  {
    var groups := GroupBy(ms);
    EmitAllFailure(res, groups, keywords);
    EmitAllReportsKeyword(res, groups, keywords, k);
    GroupByMeaning(ms, keywords[k]);
    var out := EmitAll(res, groups, keywords).0;
    assert EmitStage(res, groups, keywords) == out;
    var i :| |res.matches| <= i && SliceAt(out.matches, i, Entry(groups, keywords[k]));
    if MatchesFor(ms, keywords[k]) == [] {
      assert out.matches[i] == NotFoundMatch(keywords[k]);
    } else {
      assert Entry(groups, keywords[k]) == MatchesFor(ms, keywords[k]);
      assert SliceAt(out.matches, i, MatchesFor(ms, keywords[k]));
    }
  }

  /** With no blank keyword, after steps 1 and 2 every input keyword has its whole group of
      extracted matches, uninterrupted, or else a "Not found" entry of its own. */
  lemma NumbersPartReportsKeyword(pages: seq<PageContent>, keywords: seq<string>, document: Option<DocumentInfo>,
                                  cwd: string, timestamp: string, k: nat)
    requires forall j :: 0 <= j < |keywords| ==> !IsBlank(keywords[j])
    requires k < |keywords|
    ensures NumberExtractor.ExtractAll(KeywordMatcher.AllMatches(pages, keywords)).Ok?
    ensures var r := NumbersPart(pages, keywords, document, cwd, timestamp);
      var ms := NumberExtractor.ExtractAll(KeywordMatcher.AllMatches(pages, keywords)).value;
      (MatchesFor(ms, keywords[k]) != [] ==> exists i :: SliceAt(r.matches, i, MatchesFor(ms, keywords[k])))
      && (MatchesFor(ms, keywords[k]) == [] ==> NotFoundMatch(keywords[k]) in r.matches)
  {
    MatcherSucceedsOnNonBlankKeywords(pages, keywords);
    var res0 := ExtractionResults.Create(StartDocument(document, pages, cwd), timestamp);
    var all := KeywordMatcher.AllMatches(pages, keywords);
    assert KeywordStage(res0, pages, keywords) == (res0, all);
    assert NumbersPart(pages, keywords, document, cwd, timestamp) == NumberStage(res0, all, keywords);
    NumberStageReportsKeyword(res0, all, keywords, k);
  }

  /** With no blank keyword, every input keyword gets its whole group of extracted matches,
      uninterrupted, or else a "Not found" entry of its own. */
  lemma EveryKeywordReported(pages: seq<PageContent>, keywords: seq<string>, document: Option<DocumentInfo>,
                             cwd: string, elapsed: real, timestamp: string, k: nat)
    requires forall i :: 0 <= i < |pages| ==> ValidPage(pages[i])
    requires forall j :: 0 <= j < |keywords| ==> !IsBlank(keywords[j])
    requires k < |keywords|
    ensures NumberExtractor.ExtractAll(KeywordMatcher.AllMatches(pages, keywords)).Ok?
    ensures var r := ExtractSpec(pages, keywords, document, cwd, elapsed, timestamp);
      var ms := NumberExtractor.ExtractAll(KeywordMatcher.AllMatches(pages, keywords)).value;
      (MatchesFor(ms, keywords[k]) != [] ==> exists i :: SliceAt(r.matches, i, MatchesFor(ms, keywords[k])))
      && (MatchesFor(ms, keywords[k]) == [] ==> NotFoundMatch(keywords[k]) in r.matches)
  {
    var part := NumbersPart(pages, keywords, document, cwd, timestamp);
    PersonalStageMeaning(part, PersonalInfoExtractor.PersonalInfoOf(pages));
    assert ExtractSpec(pages, keywords, document, cwd, elapsed, timestamp).matches == part.matches;
    NumbersPartReportsKeyword(pages, keywords, document, cwd, timestamp, k);
  }

  /** After steps 1 and 2 every match is one the number extractor produced, or a "Not found"
      entry of an input keyword; when the matcher fails, only the latter. */
  lemma NumbersPartOrigin(pages: seq<PageContent>, keywords: seq<string>, document: Option<DocumentInfo>,
                          cwd: string, timestamp: string, i: nat)
    requires i < |NumbersPart(pages, keywords, document, cwd, timestamp).matches|
    ensures var m := NumbersPart(pages, keywords, document, cwd, timestamp).matches[i];
      var outcome := MatcherOutcome(pages, keywords);
      (outcome.Ok? && NumberExtractor.ExtractAll(outcome.value).Ok? && m in NumberExtractor.ExtractAll(outcome.value).value)
      || (exists k :: 0 <= k < |keywords| && m == NotFoundMatch(keywords[k]))
    ensures MatcherOutcome(pages, keywords).Err? ==>
      NumbersPart(pages, keywords, document, cwd, timestamp).matches[i].status == NotFound
  {
    var res0 := ExtractionResults.Create(StartDocument(document, pages, cwd), timestamp);
    var stage1 := KeywordStage(res0, pages, keywords);
    var ms := NumberExtractor.ExtractAll(stage1.1).value;
    var groups := GroupBy(ms);
    var out := EmitAll(stage1.0, groups, keywords);
    EmitAllKeeps(stage1.0, groups, keywords);
    EmitAllOrigin(stage1.0, groups, keywords, i);
    if exists kw :: kw in groups && out.0.matches[i] in groups[kw] {
      var kw :| kw in groups && out.0.matches[i] in groups[kw];
      GroupByEntries(ms, kw, out.0.matches[i]);
    }
  }

  /** Every match in the results is one the number extractor produced for a keyword match, or
      a "Not found" entry of an input keyword; when the matcher fails, only the latter. */
  lemma MatchesAreExtractedOrNotFound(pages: seq<PageContent>, keywords: seq<string>, document: Option<DocumentInfo>,
                                      cwd: string, elapsed: real, timestamp: string, i: nat)
    requires forall j :: 0 <= j < |pages| ==> ValidPage(pages[j])
    requires i < |ExtractSpec(pages, keywords, document, cwd, elapsed, timestamp).matches|
    ensures var m := ExtractSpec(pages, keywords, document, cwd, elapsed, timestamp).matches[i];
      var outcome := MatcherOutcome(pages, keywords);
      (outcome.Ok? && NumberExtractor.ExtractAll(outcome.value).Ok? && m in NumberExtractor.ExtractAll(outcome.value).value)
      || (exists k :: 0 <= k < |keywords| && m == NotFoundMatch(keywords[k]))
    ensures MatcherOutcome(pages, keywords).Err? ==>
      ExtractSpec(pages, keywords, document, cwd, elapsed, timestamp).matches[i].status == NotFound
  {
    PersonalStageMeaning(NumbersPart(pages, keywords, document, cwd, timestamp), PersonalInfoExtractor.PersonalInfoOf(pages));
    NumbersPartOrigin(pages, keywords, document, cwd, timestamp, i);
  }

  /** Steps 1 and 2 record at most one error each, in stage order: the matcher's (with the
      keywords as context) exactly when the matcher fails, then possibly the number stage's. */
  lemma NumbersPartErrors(pages: seq<PageContent>, keywords: seq<string>, document: Option<DocumentInfo>,
                          cwd: string, timestamp: string)
    ensures var r := NumbersPart(pages, keywords, document, cwd, timestamp);
      var matcherError := MatcherError(keywords);
      var numberError := NumberStageError();
      r.document == StartDocument(document, pages, cwd)
      && (MatcherOutcome(pages, keywords).Ok? ==> r.errors == [] || r.errors == [numberError])
      && (MatcherOutcome(pages, keywords).Err? ==> r.errors == [matcherError] || r.errors == [matcherError, numberError])
  {
    var res0 := ExtractionResults.Create(StartDocument(document, pages, cwd), timestamp);
    TwoStagesErrors(res0, MatcherOutcome(pages, keywords), keywords);
  }

  lemma TwoStagesErrors(res0: ExtractionResults, outcome: Result<seq<KeywordMatch>>, keywords: seq<string>)
    requires res0.errors == [] && (outcome.Err? ==> outcome.error == "Keyword must be non-empty")
    ensures var stage1 := RecordMatches(res0, outcome, keywords);
      var r := NumberStage(stage1.0, stage1.1, keywords);
      var matcherError := MatcherError(keywords);
      r.document == res0.document
      && (outcome.Ok? ==> r.errors == [] || r.errors == [NumberStageError()])
      && (outcome.Err? ==> r.errors == [matcherError] || r.errors == [matcherError, NumberStageError()])
  {
    var stage1 := RecordMatches(res0, outcome, keywords);
    NumberStageMeaning(stage1.0, stage1.1, keywords);
  }

  /** The error entries are those of the two stages that can fail, in stage order, at most one
      each; the personal information is always the extractor's, and the last warnings are its
      own. */
  lemma ExtractOutline(pages: seq<PageContent>, keywords: seq<string>, document: Option<DocumentInfo>,
                       cwd: string, elapsed: real, timestamp: string)
    requires forall j :: 0 <= j < |pages| ==> ValidPage(pages[j])
    ensures var r := ExtractSpec(pages, keywords, document, cwd, elapsed, timestamp);
      var info := PersonalInfoExtractor.PersonalInfoOf(pages);
      var matcherError := MatcherError(keywords);
      var numberError := NumberStageError();
      r.document == StartDocument(document, pages, cwd)
      && r.processingTime == elapsed && r.timestamp == timestamp
      && r.personalInfo == info && ValidInformation(r.personalInfo)
      && |PersonalWarnings(info)| <= |r.warnings| && r.warnings[|r.warnings| - |PersonalWarnings(info)|..] == PersonalWarnings(info)
      && (MatcherOutcome(pages, keywords).Ok? ==> r.errors == [] || r.errors == [numberError])
      && (MatcherOutcome(pages, keywords).Err? ==> r.errors == [matcherError] || r.errors == [matcherError, numberError])
  {
    var info := PersonalInfoExtractor.PersonalInfoOf(pages);
    var part := NumbersPart(pages, keywords, document, cwd, timestamp);
    PersonalInfoExtractor.PersonalInfoValid(pages);
    NumbersPartErrors(pages, keywords, document, cwd, timestamp);
    PersonalStageMeaning(part, info);
    var r := PersonalStage(part, info);
    assert r.warnings[|r.warnings| - |PersonalWarnings(info)|..] == PersonalWarnings(info);
  }

  /** `extract`. */
  method Extract(pages: seq<PageContent>, keywords: seq<string>, document: Option<DocumentInfo>,
                 cwd: string, elapsed: real, timestamp: string) returns (r: ExtractionResults)
    requires forall i :: 0 <= i < |pages| ==> ValidPage(pages[i])
    ensures r == ExtractSpec(pages, keywords, document, cwd, elapsed, timestamp)
  {
    r := ExtractionResults.Create(StartDocument(document, pages, cwd), timestamp);
    var kms;
    r, kms := MatchKeywords(r, pages, keywords);
    r := ExtractNumbers(r, kms, keywords);
    r := AddPersonalInfo(r, pages);
    r := r.(processingTime := elapsed, timestamp := timestamp);
  }

  /** Step 1 of `extract`. */
  method MatchKeywords(res: ExtractionResults, pages: seq<PageContent>, keywords: seq<string>)
    returns (r: ExtractionResults, kms: seq<KeywordMatch>)
    requires forall i :: 0 <= i < |pages| ==> ValidPage(pages[i])
    ensures (r, kms) == KeywordStage(res, pages, keywords)
    ensures forall i :: 0 <= i < |kms| ==> ValidKeywordMatch(kms[i])
  {
    r, kms := res, [];
    var found := KeywordMatcher.FindKeywords(pages, keywords);
    if found.Err? {
      r := r.AddError("keyword_matching_error", "Failed to match keywords: " + found.error, KeywordsContext(keywords));
    } else {
      kms := found.value;
    }
  }

  /** Step 2 of `extract`. */
  method ExtractNumbers(res: ExtractionResults, kms: seq<KeywordMatch>, keywords: seq<string>) returns (r: ExtractionResults)
    requires forall i :: 0 <= i < |kms| ==> ValidKeywordMatch(kms[i])
    ensures r == NumberStage(res, kms, keywords)
  {
    r := res;
    var numbers := NumberExtractor.ExtractNumbers(kms);
    if numbers.Err? {
      r := r.AddError("number_extraction_error", "Failed to extract numbers: " + numbers.error, NoContext);
    } else {
      var groups := GroupMatches(numbers.value);
      var failure;
      r, failure := EmitMatches(r, groups, keywords);
      if failure.Some? {
        r := r.AddError("number_extraction_error", "Failed to extract numbers: " + failure.value, NoContext);
      }
    }
  }

  /** Step 3 of `extract`. */
  method AddPersonalInfo(res: ExtractionResults, pages: seq<PageContent>) returns (r: ExtractionResults)
    requires forall i :: 0 <= i < |pages| ==> ValidPage(pages[i])
    ensures r == PersonalStage(res, PersonalInfoExtractor.PersonalInfoOf(pages))
  {
    var info := PersonalInfoExtractor.ExtractPersonalInfo(pages);
    r := res.(personalInfo := info);
    if !PersonalInfoExtractor.Truthy(info.firstName) {
      r := r.AddWarning("First name not found in document");
    }
    if !PersonalInfoExtractor.Truthy(info.idNumberPrefix) {
      r := r.AddWarning("ID number not found in document");
    }
  }
}
