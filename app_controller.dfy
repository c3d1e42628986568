/** The handlers of the application controller that change the session: adding a keyword,
    loading a preset, starting an extraction, the background job, and the poll that turns the
    job's messages into state transitions (controllers/app_controller.py). */
module Controller {
  import opened Wrappers
  import opened Text
  import opened ParserBase
  import opened Documents
  import opened Keywords
  import opened Results
  import opened AppState
  import opened StateManagement
  import opened Coordination
  import opened Histories
  import ExtractionEngine

  /** The arguments handed to the worker: the selected document and the active keywords. */
  datatype Job = Job(document: DocumentInfo, keywords: seq<Keyword>)

  /** How writing the output file ended: its path, or a failure with an optional message. */
  datatype OutputOutcome = Written(path: string) | NotWritten(errorMessage: Option<string>)

  /** The controller's own state-change callback, registered at construction. */
  const ControllerObserver: ObserverId := 0

  // ---------------------------------------------------------------------------------------
  // Adding a keyword
  // ---------------------------------------------------------------------------------------

  /** What `on_keyword_added` decides: an error to show, or the keyword to add and whether
      its text is new to the history. */
  datatype KeywordDecision = Reject(message: string) | Accept(keyword: Keyword, remember: bool)

  function DecideKeyword(s: AppSnapshot, history: seq<string>, text: string): KeywordDecision {
    var t := Strip(text);
    if t == [] then Reject("Keyword cannot be empty")
    else if |t| > 100 then Reject("Keyword must be 1-100 characters")
    else
      StripIdempotent(text);
      var k := FromText(t, false).value;
      if HasKeyword(s.activeKeywords, k.normalized) then Reject("Keyword '" + t + "' already added")
      else Accept(k, !InHistory(history, t))
  }

  /** A keyword is accepted exactly when its stripped text has 1 to 100 characters and no
      active keyword has its lower-cased form; the accepted keyword is the stripped text, not
      historical, and lands at the end of the active list; its text is remembered exactly
      when the history has no entry equal to it ignoring case. */
  lemma DecideKeywordMeaning(s: AppSnapshot, history: seq<string>, text: string)
    ensures DecideKeyword(s, history, text).Accept? <==>
      1 <= |Strip(text)| <= 100 && !HasKeyword(s.activeKeywords, LowerStr(Strip(text)))
    ensures var d := DecideKeyword(s, history, text);
      d.Accept? ==> (ValidKeyword(d.keyword) && d.keyword.text == Strip(text)
        && d.keyword.normalized == LowerStr(Strip(text)) && !d.keyword.isHistorical && d.keyword.isActive
        && AddKeywordStep(s, d.keyword).activeKeywords == s.activeKeywords + [d.keyword]
        && (d.remember <==> !InHistory(history, Strip(text))))
    ensures var d := DecideKeyword(s, history, text);
      d.Reject? && Strip(text) == [] ==> d.message == "Keyword cannot be empty"
  {
    StripIdempotent(text);
  }

  /** Remembering only texts not yet in the history keeps it free of case-insensitive
      duplicates. */
  lemma RememberKeepsHistoryUnique(history: seq<string>, t: string)
    requires CaselessUnique(history) && !InHistory(history, t)
    ensures CaselessUnique(history + [t]) && InHistory(history + [t], t)
  {
    var h := history + [t];
    assert h[|history|] == t;
    forall i, j | 0 <= i < j < |h| ensures LowerStr(h[i]) != LowerStr(h[j]) {
      if j == |history| {
        assert h[i] == history[i];
      }
    }
  }

  // ---------------------------------------------------------------------------------------
  // Loading a preset
  // ---------------------------------------------------------------------------------------

  /** `Keyword.from_text` on each text of a preset, in order. */
  function ParsePreset(texts: seq<string>): (r: seq<Result<Keyword>>)
    ensures |r| == |texts| && forall i :: 0 <= i < |texts| ==> r[i] == FromText(texts[i], false)
  {
    seq(|texts|, i requires 0 <= i < |texts| => FromText(texts[i], false))
  }

  /** The preset's parsed keywords added one by one in preset order; the first text that is
      not a keyword stops the loading with its error. */
  function PresetAdd(s: AppSnapshot, parsed: seq<Result<Keyword>>): (AppSnapshot, Option<string>) {
    if parsed == [] then (s, None)
    else
      var prev := PresetAdd(s, parsed[..|parsed| - 1]);
      if prev.1.Some? then prev
      else match parsed[|parsed| - 1]
        case Err(e) => (prev.0, Some(e))
        case Ok(k) => (AddKeywordStep(prev.0, k), None)
  }

  /** Once loading has stopped, further texts change nothing. */
  lemma {:induction false} PresetAddStops(s: AppSnapshot, parsed: seq<Result<Keyword>>, n: nat)
    requires n <= |parsed| && PresetAdd(s, parsed[..n]).1.Some?
    ensures PresetAdd(s, parsed) == PresetAdd(s, parsed[..n])
    decreases |parsed| - n
  {
    if n < |parsed| {
      assert parsed[..n + 1][..n] == parsed[..n];
      PresetAddStops(s, parsed, n + 1);
    } else {
      assert parsed[..n] == parsed;
    }
  }

  /** Loading fails exactly when some text of the preset is not a keyword, and then with the
      error of the first such text. */
  lemma {:induction false} PresetFailsOnInvalidText(s: AppSnapshot, parsed: seq<Result<Keyword>>)
    ensures PresetAdd(s, parsed).1.None? <==> forall i :: 0 <= i < |parsed| ==> parsed[i].Ok?
    ensures PresetAdd(s, parsed).1.Some? ==>
      exists i :: (0 <= i < |parsed| && parsed[i].Err? && PresetAdd(s, parsed).1.value == parsed[i].error
                   && forall j :: 0 <= j < i ==> parsed[j].Ok?)
  {
    if parsed != [] {
      var init := parsed[..|parsed| - 1];
      PresetFailsOnInvalidText(s, init);
      assert forall i :: 0 <= i < |init| ==> init[i] == parsed[i];
    }
  }

  /** The keywords of a preset whose texts all parse, in preset order. */
  function Successes(parsed: seq<Result<Keyword>>): (r: seq<Keyword>)
    requires forall i :: 0 <= i < |parsed| ==> parsed[i].Ok?
    ensures |r| == |parsed| && forall i :: 0 <= i < |parsed| ==> r[i] == parsed[i].value
  {
    seq(|parsed|, i requires 0 <= i < |parsed| => parsed[i].value)
  }

  /** On an emptied list, a preset of distinct keywords becomes exactly the active list, in
      preset order. */
  lemma {:induction false} PresetLoadsInOrder(s: AppSnapshot, parsed: seq<Result<Keyword>>)
    requires s.activeKeywords == []
    requires forall i :: 0 <= i < |parsed| ==> parsed[i].Ok?
    requires forall i, j :: 0 <= i < j < |parsed| ==> parsed[i].value.normalized != parsed[j].value.normalized
    ensures PresetAdd(s, parsed).1.None?
    ensures PresetAdd(s, parsed).0.activeKeywords == Successes(parsed)
  {
    if parsed != [] {
      var init := parsed[..|parsed| - 1];
      var k := parsed[|parsed| - 1].value;
      PresetLoadsInOrder(s, init);
      assert Successes(parsed) == Successes(init) + [k];
      assert !HasKeyword(Successes(init), k.normalized) by {
        forall i | 0 <= i < |init| ensures Successes(init)[i].normalized != k.normalized {
          assert init[i] == parsed[i];
        }
      }
    }
  }

  // ---------------------------------------------------------------------------------------
  // The background job
  // ---------------------------------------------------------------------------------------

  /** `[kw.text for kw in keywords]`. */
  function KeywordTexts(ks: seq<Keyword>): (r: seq<string>)
    ensures |r| == |ks| && forall i :: 0 <= i < |ks| ==> r[i] == ks[i].text
  {
    seq(|ks|, i requires 0 <= i < |ks| => ks[i].text)
  }

  /** A raised message, or the fallback when it is missing or empty. */
  function MessageOr(m: Option<string>, fallback: string): string {
    if HasMessage(m) then m.value else fallback
  }

  /** The four progress texts of a job that runs to the end. */
  function Stages(): seq<string> {
    ["Parsing document...", "Extracting data...", "Generating output...", "Complete!"]
  }

  /** The engine's results for a job: its keywords' texts on the parsed pages, with the job's
      document. */
  function JobResults(job: Job, parsed: ParseResult, cwd: string, elapsed: real, timestamp: string): ExtractionResults
    requires forall i :: 0 <= i < |parsed.pages| ==> ValidPage(parsed.pages[i])
  {
    ExtractionEngine.ExtractSpec(parsed.pages, KeywordTexts(job.keywords), Some(job.document), cwd, elapsed, timestamp)
  }

  /** The results a finished job hands back: the engine's results with the written report's
      path attached and, when a logger is configured (`logFile` is its log path), the log's
      path. */
  function Delivered(results: ExtractionResults, outputPath: string, logFile: Option<string>): ExtractionResults {
    results.(outputPath := Some(outputPath), logPath := if logFile.Some? then logFile else results.logPath)
  }

  /** `_perform_extraction` as the coordinator sees it: the progress texts it reports, then
      the results it returns or the text of what it raised. Parsing, and writing the output
      file, are given by their outcomes. */
  function WorkerRun(parsed: ParseResult, output: OutputOutcome, logFile: Option<string>, results: ExtractionResults)
    : (seq<string>, Result<ExtractionResults>)
  {
    if !parsed.success then (["Parsing document..."], Err(MessageOr(parsed.errorMessage, "Failed to parse document")))
    else match output
      case NotWritten(m) =>
        (["Parsing document...", "Extracting data...", "Generating output..."], Err(MessageOr(m, "Failed to generate output")))
      case Written(path) =>
        (["Parsing document...", "Extracting data...", "Generating output...", "Complete!"], Ok(Delivered(results, path, logFile)))
  }

  /** A job reports the stages in order, as far as it got; it reports "Complete!" exactly when
      it succeeds, which it does exactly when parsing and writing both succeed, and then with
      the engine's results carrying the report's path and the logger's log path; a failure
      always carries a non-empty message. */
  lemma WorkerRunMeaning(parsed: ParseResult, output: OutputOutcome, logFile: Option<string>, results: ExtractionResults)
    ensures var w := WorkerRun(parsed, output, logFile, results);
      1 <= |w.0| <= 4 && w.0 == Stages()[..|w.0|]
      && (w.1.Ok? <==> parsed.success && output.Written?)
      && (w.1.Ok? <==> w.0[|w.0| - 1] == "Complete!")
      && (w.1.Ok? ==>
            w.1.value.outputPath == Some(output.path)
            && (logFile.Some? ==> w.1.value.logPath == logFile)
            && (logFile.None? ==> w.1.value.logPath == results.logPath)
            && w.1.value.(outputPath := results.outputPath, logPath := results.logPath) == results)
      && (w.1.Err? ==> w.1.error != [])
  {
    assert Stages()[..4] == Stages();
  }

  // ---------------------------------------------------------------------------------------
  // Polling
  // ---------------------------------------------------------------------------------------

  /** The transition one message causes: none for progress. */
  function Apply(s: AppSnapshot, m: Message): AppSnapshot {
    match m
    case Progress(_) => s
    case Complete(r) => CompleteProcessingStep(s, r)
    case Failure(e) => FailProcessingStep(s, e)
  }

  /** The transitions of the drained messages, in queue order. */
  function Dispatch(s: AppSnapshot, ms: seq<Message>): AppSnapshot {
    if ms == [] then s else Apply(Dispatch(s, ms[..|ms| - 1]), ms[|ms| - 1])
  }

  /** The errors shown for the drained messages: one per error message. */
  function Alerts(ms: seq<Message>): seq<string> {
    if ms == [] then []
    else Alerts(ms[..|ms| - 1]) + (if ms[|ms| - 1].Failure? then ["Extraction failed: " + ms[|ms| - 1].message] else [])
  }

  lemma {:induction false} DispatchAppend(s: AppSnapshot, a: seq<Message>, b: seq<Message>)
    ensures Dispatch(s, a + b) == Dispatch(Dispatch(s, a), b)
    ensures Alerts(a + b) == Alerts(a) + Alerts(b)
  {
    if b == [] {
      assert a + b == a;
    } else {
      DispatchAppend(s, a, b[..|b| - 1]);
      assert (a + b)[..|a + b| - 1] == a + b[..|b| - 1];
    }
  }

  /** Progress messages change no state and show nothing. */
  lemma {:induction false} ProgressChangesNothing(s: AppSnapshot, texts: seq<string>)
    ensures Dispatch(s, Progresses(texts)) == s && Alerts(Progresses(texts)) == []
  {
    if texts != [] {
      ProgressChangesNothing(s, texts[..|texts| - 1]);
      assert Progresses(texts)[..|texts| - 1] == Progresses(texts[..|texts| - 1]);
    }
  }

  /** Draining a job's messages leaves the state exactly as its outcome's transition makes it:
      completed with its results, or failed with its message shown as "Extraction failed". */
  lemma JobReachesState(s: AppSnapshot, texts: seq<string>, outcome: Result<ExtractionResults>)
    ensures Dispatch(s, Progresses(texts) + [Terminal(outcome)]) ==
      (if outcome.Ok? then CompleteProcessingStep(s, outcome.value) else FailProcessingStep(s, outcome.error))
    ensures Alerts(Progresses(texts) + [Terminal(outcome)]) ==
      (if outcome.Ok? then [] else ["Extraction failed: " + outcome.error])
  {
    DispatchAppend(s, Progresses(texts), [Terminal(outcome)]);
    ProgressChangesNothing(s, texts);
    assert [Terminal(outcome)][..0] == [];
  }

  /** One whole round from an open gate and an idle coordinator: the click starts processing
      and its poll finds nothing; the job reports `texts` and ends with `outcome`; the next
      poll leaves the state completed with the results or failed with the message, stops
      polling, and the gate is open again. */
  lemma RoundTrip(s: AppSnapshot, c: CoordinatorState, texts: seq<string>, outcome: Result<ExtractionResults>)
    requires CanStartExtraction(s) && !c.isRunning
    ensures var c1 := StartStep(c);
      var s1 := Dispatch(StartProcessingStep(s), c1.queue);
      var c2 := FinishStep(SendAll(DrainStep(c1).1, texts), outcome);
      var s2 := Dispatch(s1, DrainStep(c2).0);
      s1 == StartProcessingStep(s) && s1.isProcessing
      && !DrainStep(c2).1.isRunning && DrainStep(c2).1.queue == []
      && !s2.isProcessing && s2.currentDocument == s.currentDocument && s2.activeKeywords == s.activeKeywords
      && (outcome.Ok? ==> s2.extractionResults == Some(outcome.value) && s2.errorMessages == [])
      && (outcome.Err? ==> s2.processingStatus == Error && s2.errorMessages == [outcome.error])
      && CanStartExtraction(s2)
  {
    var c1 := StartStep(c);
    assert c1.queue == [];
    var s1 := StartProcessingStep(s);
    assert Dispatch(s1, c1.queue) == s1;
    var idle := DrainStep(c1).1;
    SendAllAppends(idle, texts);
    assert idle.queue + Progresses(texts) == Progresses(texts);
    var c2 := FinishStep(SendAll(idle, texts), outcome);
    assert c2.queue == Progresses(texts) + [Terminal(outcome)] && !c2.isRunning;
    JobReachesState(s1, texts, outcome);
  }

  /** The scan of the active keywords for one with the same normalized form. */
  method FindActive(ks: seq<Keyword>, normalized: string) returns (found: bool)
    ensures found == HasKeyword(ks, normalized)
  {
    var i := 0;
    while i < |ks|
      invariant 0 <= i <= |ks|
      invariant forall j :: 0 <= j < i ==> ks[j].normalized != normalized
    {
      if ks[i].normalized == normalized {
        return true;
      }
      i := i + 1;
    }
    return false;
  }

  /** The scan of the history for an entry equal to `text` ignoring case. */
  method FindInHistory(history: seq<string>, text: string) returns (found: bool)
    ensures found == InHistory(history, text)
  {
    var lower := LowerStr(text);
    var j := 0;
    while j < |history|
      invariant 0 <= j <= |history|
      invariant forall m :: 0 <= m < j ==> LowerStr(history[m]) != lower
    {
      if LowerStr(history[j]) == lower {
        return true;
      }
      j := j + 1;
    }
    return false;
  }

  // ---------------------------------------------------------------------------------------
  // The controller
  // ---------------------------------------------------------------------------------------

  class AppController {
    const stateManager: StateManager
    const coordinator: ThreadCoordinator
    /** The configuration's keyword history. */
    var history: seq<string>
    /** How often the configuration was saved. */
    var saves: nat
    /** The errors shown to the user, in order. */
    var shownErrors: seq<string>
    /** The arguments of the last worker started. */
    var job: Option<Job>

    predicate Valid()
      reads this, stateManager, stateManager.state
    {
      stateManager.Valid()
    }

    /** A fresh session over the loaded history, with the controller's callback registered. */
    constructor (history: seq<string>, failing: set<ObserverId>)
      ensures Valid() && fresh(stateManager) && fresh(stateManager.state) && fresh(coordinator)
      ensures stateManager.state.Snapshot() == Initial() && stateManager.observers == [ControllerObserver]
      ensures coordinator.View() == InitialCoordinator()
      ensures this.history == history && saves == 0 && shownErrors == [] && job == None
    {
      stateManager := new StateManager(failing);
      coordinator := new ThreadCoordinator();
      this.history := history;
      saves := 0;
      shownErrors := [];
      job := None;
      new;
      stateManager.AddObserver(ControllerObserver);
    }

    /** `on_keyword_added`: the checks, the scan of the active keywords, the addition, then
        the scan of the history and its saving. */
    method OnKeywordAdded(text: string)
      requires Valid()
      modifies this, stateManager, stateManager.state
      ensures Valid() && job == old(job) && stateManager.observers == old(stateManager.observers)
      ensures var d := DecideKeyword(old(stateManager.state.Snapshot()), old(history), text);
        d.Reject? ==> (stateManager.state.Snapshot() == old(stateManager.state.Snapshot())
          && stateManager.delivered == old(stateManager.delivered)
          && history == old(history) && saves == old(saves) && shownErrors == old(shownErrors) + [d.message])
      ensures var d := DecideKeyword(old(stateManager.state.Snapshot()), old(history), text);
        d.Accept? ==> (stateManager.state.Snapshot() == AddKeywordStep(old(stateManager.state.Snapshot()), d.keyword)
          && stateManager.delivered == old(stateManager.delivered)
             + Deliveries(stateManager.observers, stateManager.state.Snapshot(), stateManager.failing)
          && history == old(history) + (if d.remember then [Strip(text)] else [])
          && saves == old(saves) + (if d.remember then 1 else 0)
          && shownErrors == old(shownErrors))
      ensures CaselessUnique(old(history)) ==> CaselessUnique(history)
    {
      var t := Strip(text);
      if t == [] {
        shownErrors := shownErrors + ["Keyword cannot be empty"];
        return;
      }
      if |t| > 100 {
        shownErrors := shownErrors + ["Keyword must be 1-100 characters"];
        return;
      }
      StripIdempotent(text);
      var k := FromText(t, false).value;
      var s := stateManager.GetState();
      var active := FindActive(s.activeKeywords, k.normalized);
      if active {
        shownErrors := shownErrors + ["Keyword '" + t + "' already added"];
        return;
      }
      stateManager.AddKeyword(k);
      var known := FindInHistory(history, t);
      if known {
        return;
      }
      if CaselessUnique(history) {
        RememberKeepsHistoryUnique(history, t);
      }
      history := history + [t];
      saves := saves + 1;
    }

    /** `on_preset_loaded`, given the preset's keyword texts when a preset of that name
        exists: the list is cleared, then the texts are added in order until one is not a
        keyword. */
    method OnPresetLoaded(name: string, preset: Option<seq<string>>)
      requires Valid()
      modifies this, stateManager, stateManager.state
      ensures Valid() && job == old(job) && history == old(history) && saves == old(saves)
      ensures preset.None? ==> (stateManager.state.Snapshot() == old(stateManager.state.Snapshot())
        && shownErrors == old(shownErrors) + ["Preset '" + name + "' not found"])
      ensures preset.Some? ==>
        var loaded := PresetAdd(ClearKeywordsStep(old(stateManager.state.Snapshot())), ParsePreset(preset.value));
        stateManager.state.Snapshot() == loaded.0
        && shownErrors == old(shownErrors) + (if loaded.1.Some? then ["Error loading preset: " + loaded.1.value] else [])
    {
      if preset.None? {
        shownErrors := shownErrors + ["Preset '" + name + "' not found"];
        return;
      }
      var texts := preset.value;
      ghost var parsed := ParsePreset(texts);
      ghost var cleared := ClearKeywordsStep(stateManager.state.Snapshot());
      stateManager.ClearKeywords();
      var i := 0;
      while i < |texts|
        invariant 0 <= i <= |texts| && Valid()
        invariant PresetAdd(cleared, parsed[..i]) == (stateManager.state.Snapshot(), None)
        invariant shownErrors == old(shownErrors) && job == old(job) && history == old(history) && saves == old(saves)
      {
        var k := FromText(texts[i], false);
        var stop := AddPresetText(cleared, parsed, i, k);
        if stop {
          return;
        }
        i := i + 1;
      }
      assert parsed[..i] == parsed;
    }

    /** One text of a preset being loaded: added when it is a keyword, otherwise shown as the
        error that ends the loading. */
    method AddPresetText(ghost cleared: AppSnapshot, ghost parsed: seq<Result<Keyword>>, i: nat, k: Result<Keyword>)
      returns (stop: bool)
      requires Valid() && i < |parsed| && parsed[i] == k
      requires PresetAdd(cleared, parsed[..i]) == (stateManager.state.Snapshot(), None)
      modifies this, stateManager, stateManager.state
      ensures Valid() && job == old(job) && history == old(history) && saves == old(saves)
      ensures stop == k.Err?
      ensures !stop ==> PresetAdd(cleared, parsed[..i + 1]) == (stateManager.state.Snapshot(), None) && shownErrors == old(shownErrors)
      ensures stop ==> (PresetAdd(cleared, parsed) == (stateManager.state.Snapshot(), Some(k.error))
        && shownErrors == old(shownErrors) + ["Error loading preset: " + k.error])
    {
      assert parsed[..i + 1][..i] == parsed[..i];
      if k.Err? {
        shownErrors := shownErrors + ["Error loading preset: " + k.error];
        PresetAddStops(cleared, parsed, i + 1);
        return true;
      }
      stateManager.AddKeyword(k.value);
      return false;
    }

    /** `_poll_worker_messages`: drains the queue, applies each message in order, and says
        whether to poll again, which is while a worker runs. */
    method PollWorkerMessages() returns (reschedule: bool)
      requires Valid()
      modifies this, stateManager, stateManager.state, coordinator
      ensures Valid() && job == old(job) && history == old(history) && saves == old(saves)
      ensures var drained := DrainStep(old(coordinator.View()));
        stateManager.state.Snapshot() == Dispatch(old(stateManager.state.Snapshot()), drained.0)
        && shownErrors == old(shownErrors) + Alerts(drained.0)
        && coordinator.View() == drained.1
        && reschedule == drained.1.isRunning
    {
      var messages := coordinator.CheckMessages();
      var i := 0;
      while i < |messages|
        invariant 0 <= i <= |messages| && Valid()
        invariant stateManager.state.Snapshot() == Dispatch(old(stateManager.state.Snapshot()), messages[..i])
        invariant shownErrors == old(shownErrors) + Alerts(messages[..i])
        invariant coordinator.View() == DrainStep(old(coordinator.View())).1
        invariant job == old(job) && history == old(history) && saves == old(saves)
      {
        assert messages[..i + 1][..i] == messages[..i];
        match messages[i] {
          case Progress(_) =>
          case Complete(r) =>
            stateManager.CompleteProcessing(r);
          case Failure(e) =>
            stateManager.FailProcessing(e);
            shownErrors := shownErrors + ["Extraction failed: " + e];
        }
        i := i + 1;
      }
      assert messages[..i] == messages;
      reschedule := coordinator.IsRunning();
    }

    /** `on_extract_clicked`: refused with a message when the gate is closed; otherwise
        processing starts, the worker is launched with the document and keywords of that
        moment, and the queue is polled once. */
    method OnExtractClicked() returns (started: bool)
      requires Valid()
      modifies this, stateManager, stateManager.state, coordinator
      ensures Valid() && history == old(history) && saves == old(saves)
      ensures started <==> CanStartExtraction(old(stateManager.state.Snapshot()))
      ensures !started ==> (stateManager.state.Snapshot() == old(stateManager.state.Snapshot())
        && coordinator.View() == old(coordinator.View()) && job == old(job)
        && shownErrors == old(shownErrors) + ["Cannot start extraction. Please select a file and add keywords."])
      ensures started ==>
        var c := StartStep(old(coordinator.View()));
        var s := old(stateManager.state.Snapshot());
        stateManager.state.Snapshot() == Dispatch(StartProcessingStep(s), c.queue)
        && coordinator.View() == DrainStep(c).1
        && shownErrors == old(shownErrors) + Alerts(c.queue)
        && job == (if old(coordinator.isRunning) then old(job)
                   else Some(Job(s.currentDocument.value, s.activeKeywords)))
    {
      var can := stateManager.CanStart();
      if !can {
        shownErrors := shownErrors + ["Cannot start extraction. Please select a file and add keywords."];
        return false;
      }
      var s := stateManager.GetState();
      started := stateManager.StartProcessing();
      // The gate was checked just before, so the "Failed to start extraction" refusal
      // cannot occur.
      assert started;
      var launched := coordinator.StartExtraction();
      if launched {
        job := Some(Job(s.currentDocument.value, s.activeKeywords));
      }
      var reschedule := PollWorkerMessages();
    }

    /** The worker thread: `_perform_extraction` on the job's arguments, reporting progress
        through a reporter, then the wrapper's terminal message. */
    method RunWorker(parsed: ParseResult, output: OutputOutcome, logFile: Option<string>, cwd: string, elapsed: real, timestamp: string)
      requires Valid() && coordinator.isRunning && job.Some?
      requires forall i :: 0 <= i < |parsed.pages| ==> ValidPage(parsed.pages[i])
      modifies coordinator
      ensures var w := WorkerRun(parsed, output, logFile, JobResults(job.value, parsed, cwd, elapsed, timestamp));
        coordinator.View() == FinishStep(old(coordinator.View()).(queue := old(coordinator.queue) + Progresses(w.0)), w.1)
    {
      var reporter := new ProgressReporter(coordinator);
      var outcome: Result<ExtractionResults>;
      if !parsed.success {
        reporter.Report("Parsing document...");
        outcome := Err(MessageOr(parsed.errorMessage, "Failed to parse document"));
        assert Progresses(["Parsing document..."]) == [Progress("Parsing document...")];
      } else {
        // The engine only computes, so running it before the stage reports queues the same
        // messages as reporting around it.
        var results := ExtractionEngine.Extract(parsed.pages, KeywordTexts(job.value.keywords), Some(job.value.document),
                                                cwd, elapsed, timestamp);
        outcome := ReportStages(reporter, parsed, output, logFile, results);
      }
      coordinator.FinishWorker(outcome);
    }

    /** The stages of a job whose document parsed, given the engine's results: the progress
        reports, then the outcome of writing the output file. */
    static method ReportStages(reporter: ProgressReporter, parsed: ParseResult, output: OutputOutcome, logFile: Option<string>,
                               results: ExtractionResults)
      returns (outcome: Result<ExtractionResults>)
      requires parsed.success
      modifies reporter.coordinator
      ensures var w := WorkerRun(parsed, output, logFile, results);
        outcome == w.1
        && reporter.coordinator.View() == old(reporter.coordinator.View()).(queue := old(reporter.coordinator.queue) + Progresses(w.0))
    {
      ghost var c0 := reporter.coordinator.View();
      reporter.Report("Parsing document...");
      reporter.Report("Extracting data...");
      reporter.Report("Generating output...");
      match output {
        case NotWritten(m) =>
          outcome := Err(MessageOr(m, "Failed to generate output"));
          assert Progresses(["Parsing document...", "Extracting data...", "Generating output..."])
            == [Progress("Parsing document..."), Progress("Extracting data..."), Progress("Generating output...")];
          assert reporter.coordinator.queue
            == c0.queue + [Progress("Parsing document..."), Progress("Extracting data..."), Progress("Generating output...")];
        case Written(path) =>
          var delivered := results.(outputPath := Some(path));
          if logFile.Some? {
            delivered := delivered.(logPath := logFile);
          }
          reporter.Report("Complete!");
          outcome := Ok(delivered);
          assert Progresses(["Parsing document...", "Extracting data...", "Generating output...", "Complete!"])
            == [Progress("Parsing document..."), Progress("Extracting data..."), Progress("Generating output..."), Progress("Complete!")];
          assert reporter.coordinator.queue
            == c0.queue + [Progress("Parsing document..."), Progress("Extracting data..."), Progress("Generating output..."), Progress("Complete!")];
      }
    }
  }
}
