/** The runtime state of one session: the selected document, the active keywords and where
    processing stands (models/application_state.py). */
module AppState {
  import opened Wrappers
  import opened Text
  import opened Documents
  import opened Keywords
  import opened ExtractionMatches
  import opened Results

  datatype ProcessingStatus = Idle | FileSelected | Ready | Processing | Complete | Error | PartialSuccess

  /** The value of the state's fields at one moment; a copy handed out is this value. */
  datatype AppSnapshot = AppSnapshot(
    currentDocument: Option<DocumentInfo>,
    activeKeywords: seq<Keyword>,
    processingStatus: ProcessingStatus,
    extractionResults: Option<ExtractionResults>,
    errorMessages: seq<string>,
    isProcessing: bool)

  /** A fresh state, and the one `reset` returns to. */
  function Initial(): AppSnapshot {
    AppSnapshot(None, [], Idle, None, [], false)
  }

  /** `can_start_extraction`. */
  predicate CanStartExtraction(s: AppSnapshot) {
    s.currentDocument.Some? && s.currentDocument.value.isValid
    && |s.activeKeywords| > 0
    && !s.isProcessing
    && s.processingStatus in {Ready, Complete, Error, PartialSuccess}
  }

  // ---------------------------------------------------------------------------------------
  // Keyword lists
  // ---------------------------------------------------------------------------------------

  /** Some keyword of `ks` has the normalized form `normalized`. */
  predicate HasKeyword(ks: seq<Keyword>, normalized: string) {
    exists i :: 0 <= i < |ks| && ks[i].normalized == normalized
  }

  /** No two active keywords share a normalized form. */
  predicate UniqueKeywords(ks: seq<Keyword>) {
    forall i, j :: 0 <= i < j < |ks| ==> ks[i].normalized != ks[j].normalized
  }

  /** The keywords whose normalized form is not `lower`, in their order. */
  function Without(ks: seq<Keyword>, lower: string): seq<Keyword> {
    if ks == [] then []
    else Without(ks[..|ks| - 1], lower) + (if ks[|ks| - 1].normalized != lower then [ks[|ks| - 1]] else [])
  }

  /** Removing keeps exactly the keywords with another normalized form. */
  lemma {:induction false} WithoutMembers(ks: seq<Keyword>, lower: string, k: Keyword)
    ensures k in Without(ks, lower) <==> k in ks && k.normalized != lower
  {
    if ks != [] {
      WithoutMembers(ks[..|ks| - 1], lower, k);
      assert ks == ks[..|ks| - 1] + [ks[|ks| - 1]];
    }
  }

  /** Removing keeps the others in their order: the result is a subsequence, so uniqueness
      survives. */
  lemma {:induction false} WithoutKeepsUnique(ks: seq<Keyword>, lower: string)
    requires UniqueKeywords(ks)
    ensures UniqueKeywords(Without(ks, lower))
  {
    if ks != [] {
      var init := ks[..|ks| - 1];
      var last := ks[|ks| - 1];
      assert UniqueKeywords(init);
      WithoutKeepsUnique(init, lower);
      forall i | 0 <= i < |Without(init, lower)|
        ensures Without(init, lower)[i].normalized != last.normalized
      {
        WithoutMembers(init, lower, Without(init, lower)[i]);
        var j :| 0 <= j < |init| && init[j] == Without(init, lower)[i];
      }
    }
  }

  /** Appending a keyword whose normalized form is not yet present keeps the list unique. */
  lemma AppendKeepsUnique(ks: seq<Keyword>, k: Keyword)
    requires UniqueKeywords(ks) && !HasKeyword(ks, k.normalized)
    ensures UniqueKeywords(ks + [k])
  {
    var all := ks + [k];
    forall i, j | 0 <= i < j < |all| ensures all[i].normalized != all[j].normalized {
      if j == |ks| {
        assert all[i] == ks[i];
      }
    }
  }

  // ---------------------------------------------------------------------------------------
  // Transitions
  // ---------------------------------------------------------------------------------------

  /** `set_document`: a valid document makes the state READY when there are keywords and
      FILE_SELECTED otherwise; an invalid one makes it ERROR and records its non-empty error
      message. */
  function SetDocumentStep(s: AppSnapshot, d: DocumentInfo): AppSnapshot {
    var withDoc := s.(currentDocument := Some(d));
    if d.isValid then withDoc.(processingStatus := if |s.activeKeywords| > 0 then Ready else FileSelected)
    else
      withDoc.(processingStatus := Error,
               errorMessages := s.errorMessages + (if d.errorMessage.Some? && d.errorMessage.value != [] then [d.errorMessage.value] else []))
  }

  /** `add_keyword`: appended unless an active keyword has the same normalized form; a valid
      document in FILE_SELECTED then moves to READY. */
  function AddKeywordStep(s: AppSnapshot, k: Keyword): AppSnapshot {
    if HasKeyword(s.activeKeywords, k.normalized) then s
    else
      var added := s.(activeKeywords := s.activeKeywords + [k]);
      if s.currentDocument.Some? && s.currentDocument.value.isValid && s.processingStatus == FileSelected
      then added.(processingStatus := Ready)
      else added
  }

  /** `remove_keyword`: drops every keyword whose normalized form is the lower-cased text;
      when none remain, the state falls back to FILE_SELECTED or IDLE. */
  function RemoveKeywordStep(s: AppSnapshot, text: string): AppSnapshot {
    var kept := Without(s.activeKeywords, LowerStr(text));
    if kept == [] then s.(activeKeywords := kept, processingStatus := if s.currentDocument.Some? then FileSelected else Idle)
    else s.(activeKeywords := kept)
  }

  function ClearKeywordsStep(s: AppSnapshot): AppSnapshot {
    s.(activeKeywords := [], processingStatus := if s.currentDocument.Some? then FileSelected else Idle)
  }

  function StartProcessingStep(s: AppSnapshot): AppSnapshot {
    s.(isProcessing := true, processingStatus := Processing, errorMessages := [], extractionResults := None)
  }

  /** Some match was found (an ambiguous match does not count). */
  predicate HasFound(ms: seq<ExtractionMatch>) {
    exists i :: 0 <= i < |ms| && ms[i].status == Found
  }

  /** `complete_processing`: the status follows from the results' errors and found matches. */
  function CompleteProcessingStep(s: AppSnapshot, r: ExtractionResults): AppSnapshot {
    s.(isProcessing := false, extractionResults := Some(r),
       processingStatus := if r.HasErrors() then (if HasFound(r.matches) then PartialSuccess else Error) else Complete)
  }

  function FailProcessingStep(s: AppSnapshot, message: string): AppSnapshot {
    s.(isProcessing := false, processingStatus := Error, errorMessages := s.errorMessages + [message])
  }

  // ---------------------------------------------------------------------------------------
  // Properties
  // ---------------------------------------------------------------------------------------

  /** What every reachable state satisfies: active keywords are unique, and PROCESSING is
      shown only while processing. */
  predicate Consistent(s: AppSnapshot) {
    UniqueKeywords(s.activeKeywords) && (s.processingStatus == Processing ==> s.isProcessing)
  }

  /** Every transition keeps the state consistent, starting from the initial state. */
  lemma TransitionsKeepConsistent(s: AppSnapshot, d: DocumentInfo, k: Keyword, text: string, r: ExtractionResults, message: string)
    requires Consistent(s)
    ensures Consistent(Initial())
    ensures Consistent(SetDocumentStep(s, d)) && Consistent(AddKeywordStep(s, k)) && Consistent(RemoveKeywordStep(s, text))
    ensures Consistent(ClearKeywordsStep(s)) && Consistent(StartProcessingStep(s))
    ensures Consistent(CompleteProcessingStep(s, r)) && Consistent(FailProcessingStep(s, message))
  {
    WithoutKeepsUnique(s.activeKeywords, LowerStr(text));
    if !HasKeyword(s.activeKeywords, k.normalized) {
      AppendKeepsUnique(s.activeKeywords, k);
    }
  }

  /** After `add_keyword` the keyword's normalized form is active; the list grew by one exactly
      when it was not active before, and the earlier keywords are untouched. */
  lemma AddKeywordMeaning(s: AppSnapshot, k: Keyword)
    ensures var t := AddKeywordStep(s, k);
      HasKeyword(t.activeKeywords, k.normalized)
      && |t.activeKeywords| == |s.activeKeywords| + (if HasKeyword(s.activeKeywords, k.normalized) then 0 else 1)
      && t.activeKeywords[..|s.activeKeywords|] == s.activeKeywords
      && t.currentDocument == s.currentDocument && t.errorMessages == s.errorMessages
      && t.isProcessing == s.isProcessing
      && (t.processingStatus != s.processingStatus ==> s.processingStatus == FileSelected && t.processingStatus == Ready)
  {
    var t := AddKeywordStep(s, k);
    if !HasKeyword(s.activeKeywords, k.normalized) {
      assert t.activeKeywords[|s.activeKeywords|] == k;
    }
  }

  /** After `remove_keyword` no keyword with that normalized form is left and every other one
      stays; the status changes only when the list became empty. */
  lemma RemoveKeywordMeaning(s: AppSnapshot, text: string, k: Keyword)
    ensures var t := RemoveKeywordStep(s, text);
      (k in t.activeKeywords <==> k in s.activeKeywords && k.normalized != LowerStr(text))
      && !HasKeyword(t.activeKeywords, LowerStr(text))
      && (t.activeKeywords == [] ==> t.processingStatus == (if s.currentDocument.Some? then FileSelected else Idle))
      && (t.activeKeywords != [] ==> t.processingStatus == s.processingStatus)
  {
    var t := RemoveKeywordStep(s, text);
    WithoutMembers(s.activeKeywords, LowerStr(text), k);
    if HasKeyword(t.activeKeywords, LowerStr(text)) {
      var i :| 0 <= i < |t.activeKeywords| && t.activeKeywords[i].normalized == LowerStr(text);
      WithoutMembers(s.activeKeywords, LowerStr(text), t.activeKeywords[i]);
    }
  }

  /** Once processing has started, extraction cannot be started again. */
  lemma StartClosesGate(s: AppSnapshot)
    ensures !CanStartExtraction(StartProcessingStep(s))
    ensures StartProcessingStep(s).errorMessages == [] && StartProcessingStep(s).extractionResults.None?
  {
  }

  /** The status after completion: COMPLETE exactly without errors, PARTIAL_SUCCESS exactly
      with errors and a found match, ERROR exactly with errors and no found match. */
  lemma CompletionStatus(s: AppSnapshot, r: ExtractionResults)
    ensures var t := CompleteProcessingStep(s, r);
      (t.processingStatus == Complete <==> r.errors == [])
      && (t.processingStatus == PartialSuccess <==> r.errors != [] && r.SuccessCount() > 0)
      && (t.processingStatus == Error <==> r.errors != [] && r.SuccessCount() == 0)
      && t.extractionResults == Some(r) && !t.isProcessing
  {
    FoundIffCounted(r.matches);
  }

  /** A found match exists exactly when the found count is positive. */
  lemma {:induction false} FoundIffCounted(ms: seq<ExtractionMatch>)
    ensures HasFound(ms) <==> CountStatus(ms, Found) > 0
  {
    if ms != [] {
      var init := ms[..|ms| - 1];
      FoundIffCounted(init);
      if HasFound(init) {
        var i :| 0 <= i < |init| && init[i].status == Found;
        assert ms[i].status == Found;
      }
      if HasFound(ms) && ms[|ms| - 1].status != Found {
        var i :| 0 <= i < |ms| && ms[i].status == Found;
        assert init[i].status == Found;
      }
    }
  }

  /** After completion or failure, extraction can start again exactly when the document is
      valid and keywords remain. */
  lemma FinishReopensGate(s: AppSnapshot, r: ExtractionResults, message: string)
    ensures CanStartExtraction(CompleteProcessingStep(s, r)) <==>
      s.currentDocument.Some? && s.currentDocument.value.isValid && |s.activeKeywords| > 0
    ensures CanStartExtraction(FailProcessingStep(s, message)) <==>
      s.currentDocument.Some? && s.currentDocument.value.isValid && |s.activeKeywords| > 0
    ensures FailProcessingStep(s, message).errorMessages == s.errorMessages + [message]
  {
  }

  /** A valid document with keywords opens the gate, unless processing is running. */
  lemma ValidDocumentOpensGate(s: AppSnapshot, d: DocumentInfo)
    requires d.isValid && |s.activeKeywords| > 0 && !s.isProcessing
    ensures CanStartExtraction(SetDocumentStep(s, d))
    ensures SetDocumentStep(s, d).processingStatus == Ready
  {
  }

  /** An invalid document closes the gate and reports its error message, if it has one. */
  lemma InvalidDocumentClosesGate(s: AppSnapshot, d: DocumentInfo)
    requires !d.isValid
    ensures !CanStartExtraction(SetDocumentStep(s, d))
    ensures SetDocumentStep(s, d).processingStatus == Error
    ensures d.errorMessage.Some? && d.errorMessage.value != [] ==>
      SetDocumentStep(s, d).errorMessages == s.errorMessages + [d.errorMessage.value]
  {
  }

  // ---------------------------------------------------------------------------------------
  // The state object
  // ---------------------------------------------------------------------------------------

  class ApplicationState {
    var currentDocument: Option<DocumentInfo>
    var activeKeywords: seq<Keyword>
    var processingStatus: ProcessingStatus
    var extractionResults: Option<ExtractionResults>
    var errorMessages: seq<string>
    var isProcessing: bool

    function Snapshot(): AppSnapshot
      reads this
    {
      AppSnapshot(currentDocument, activeKeywords, processingStatus, extractionResults, errorMessages, isProcessing)
    }

    constructor ()
      ensures Snapshot() == Initial()
    {
      currentDocument := None;
      activeKeywords := [];
      processingStatus := Idle;
      extractionResults := None;
      errorMessages := [];
      isProcessing := false;
    }

    method CanStart() returns (b: bool)
      ensures b == CanStartExtraction(Snapshot())
    {
      b := currentDocument.Some? && currentDocument.value.isValid && |activeKeywords| > 0 && !isProcessing
           && processingStatus in {Ready, Complete, Error, PartialSuccess};
    }

    method SetDocument(d: DocumentInfo)
      modifies this
      ensures Snapshot() == SetDocumentStep(old(Snapshot()), d)
    {
      currentDocument := Some(d);
      if d.isValid {
        if |activeKeywords| > 0 {
          processingStatus := Ready;
        } else {
          processingStatus := FileSelected;
        }
      } else {
        processingStatus := Error;
        if d.errorMessage.Some? && d.errorMessage.value != [] {
          errorMessages := errorMessages + [d.errorMessage.value];
        }
      }
    }

    /** The duplicate scan of `add_keyword`, then the append. */
    method AddKeyword(k: Keyword)
      modifies this
      ensures Snapshot() == AddKeywordStep(old(Snapshot()), k)
    {
      var i := 0;
      while i < |activeKeywords|
        invariant 0 <= i <= |activeKeywords|
        invariant forall j :: 0 <= j < i ==> activeKeywords[j].normalized != k.normalized
      {
        if activeKeywords[i].normalized == k.normalized {
          return;
        }
        i := i + 1;
      }
      var valid := currentDocument.Some? && currentDocument.value.isValid && processingStatus == FileSelected;
      activeKeywords := activeKeywords + [k];
      if valid {
        processingStatus := Ready;
      }
    }

    /** The filtering comprehension of `remove_keyword`, then the status fallback. */
    method RemoveKeyword(text: string)
      modifies this
      ensures Snapshot() == RemoveKeywordStep(old(Snapshot()), text)
    {
      var lower := LowerStr(text);
      var kept: seq<Keyword> := [];
      for i := 0 to |activeKeywords|
        invariant kept == Without(activeKeywords[..i], lower)
      {
        assert activeKeywords[..i + 1][..i] == activeKeywords[..i];
        if activeKeywords[i].normalized != lower {
          kept := kept + [activeKeywords[i]];
        }
      }
      assert activeKeywords[..|activeKeywords|] == activeKeywords;
      activeKeywords := kept;
      if |kept| == 0 {
        if currentDocument.Some? {
          processingStatus := FileSelected;
        } else {
          processingStatus := Idle;
        }
      }
    }

    method ClearKeywords()
      modifies this
      ensures Snapshot() == ClearKeywordsStep(old(Snapshot()))
    {
      activeKeywords := [];
      if currentDocument.Some? {
        processingStatus := FileSelected;
      } else {
        processingStatus := Idle;
      }
    }

    method StartProcessing()
      modifies this
      ensures Snapshot() == StartProcessingStep(old(Snapshot()))
    {
      isProcessing := true;
      processingStatus := Processing;
      errorMessages := [];
      extractionResults := None;
    }

    /** The scan for a found match decides between PARTIAL_SUCCESS and ERROR. */
    method CompleteProcessing(r: ExtractionResults)
      modifies this
      ensures Snapshot() == CompleteProcessingStep(old(Snapshot()), r)
    {
      isProcessing := false;
      extractionResults := Some(r);
      if |r.errors| > 0 {
        var found := false;
        var i := 0;
        while i < |r.matches| && !found
          invariant 0 <= i <= |r.matches|
          invariant found <==> HasFound(r.matches[..i])
        {
          if r.matches[i].status == Found {
            assert r.matches[..i + 1][i] == r.matches[i];
            found := true;
          } else {
            if HasFound(r.matches[..i + 1]) {
              var j :| 0 <= j < i + 1 && r.matches[..i + 1][j].status == Found;
              assert r.matches[..i][j].status == Found;
            }
          }
          i := i + 1;
        }
        if found {
          var j :| 0 <= j < i && r.matches[..i][j].status == Found;
          assert r.matches[j].status == Found;
          processingStatus := PartialSuccess;
        } else {
          assert r.matches[..i] == r.matches;
          processingStatus := Error;
        }
      } else {
        processingStatus := Complete;
      }
    }

    method FailProcessing(message: string)
      modifies this
      ensures Snapshot() == FailProcessingStep(old(Snapshot()), message)
    {
      isProcessing := false;
      processingStatus := Error;
      errorMessages := errorMessages + [message];
    }

    method Reset()
      modifies this
      ensures Snapshot() == Initial()
    {
      currentDocument := None;
      activeKeywords := [];
      processingStatus := Idle;
      extractionResults := None;
      errorMessages := [];
      isProcessing := false;
    }
  }
}
