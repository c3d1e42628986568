# Text extractor — a Dafny model of its core

The text extractor is a desktop tool that reads a PDF, DOCX or DOC document, looks for keywords the
user picks, takes the number that follows each keyword on its line, reads a few personal details
(first, last and middle name, age, the first four digits of an ID number) and writes a plain-text
report. This project models the core of that program in Dafny and proves properties of the model:

- the data model: keywords, keyword matches, extraction matches, extraction results, personal
  information, documents, pages, parse and validation results, the processing log, the output
  report, the batch results, the configuration and the keyword history;
- the parsers' pure parts: the parser factory's dispatch on extensions, the DOCX and DOC
  paragraph handling and pagination by word count;
- the extraction pipeline: the keyword matcher, the number extractor (its number regex written
  out as a scanner that follows Python's backtracking order), the personal-information extractor
  and the extraction engine that combines them;
- the application layer: the application state and its status transitions, the state manager
  with its observers, the thread coordinator's message queue, the application controller's event
  handlers, the configuration manager's validation, the file selector's drop-data parsing and
  file checks, and the output generator's report text.

Each source file is one module. `wrappers.dfy` holds `Option` and `Result`, and `text.dfy`
holds the Python string operations the core uses (`strip`, `lower`, `split`, `join`, `\b`).
Objects whose fields the source updates in place are classes whose methods are proved against
functions of the old state, with one exception: `ExtractionResults` is a datatype whose update
functions return the new value (see "Left out"). Values and pure computations are datatypes
and functions.
Exceptions become `Result` values that carry the exception's message. Regular expressions
become scanners that follow Python's matching order: the greedy choice first, alternatives in
order, the leftmost start.

Character classes are concrete. A digit is `0`-`9`. Whitespace is the six characters space,
`\t`, `\n`, `\r`, `\v` and `\f`; Python also counts `\x1c`-`\x1f`, `\x85` and `\xa0`. A word
character is an ASCII letter or digit, `_`, or any character of the Cyrillic block U+0400-U+04FF,
including its combining marks, which Python's `\w` rejects. `lower()` maps the ASCII and
Cyrillic capitals.

Where the program's own documentation, or what it evidently intends, and its code disagree, the
model follows the code:

- The number pattern needs a digit run that is not preceded by a digit and is followed by a
  space, a comma group or a fraction, so " 1234" yields no number, " 1234.50" yields "50" and
  " 1,23" yields "1". The "unusual format" branch of the number extractor cannot be reached
  (`NumberExtractor.CommaTokenIsThousands`). Neither can its first not-found branch when it is
  called by the engine (`NumberExtractor.MatcherHitIsRelocated`).
- An empty DOCX document never gets the "Document has no content" warning. Building the
  successful parse result with no pages raises inside the same `try`, so the parse fails with
  "Failed to parse DOCX: Successful parse result must have non-empty pages list"
  (`DocxParser.ParseMeaning`).
- A missing antiword never gets the "DOC parser not available - extraction skipped" warning.
  The helper that runs antiword turns the missing executable into a `ParsingError`, so the
  `FileNotFoundError` handler of `parse` is dead code. The generic handler returns the
  placeholder page with "Could not extract text from DOC file: " and the helper's message cut
  to 100 characters (`DocParser.ParseOutcomes`).
- A name capture does not stop at the end of its line. The name class holds `\s`, so the
  capture runs over line breaks up to the next colon. On the page "First Name: Иван\nLast Name:
  Петров\nID: 1234567" the first name is "Иван\nLast Name", the last name is "Петров\nID" and
  the character set is mixed, where one field per line is evidently meant to give "Иван",
  "Петров" and Cyrillic (`PersonalInfoExtractor.CrossLineNameCapture`).

Where the code uses a field or attribute that its own model classes do not define, the code as
written raises at that point. There the model does not follow the code: it assumes the field or
attribute exists, as each bullet says.

- Personal information carries a middle name and an age, because the extractor passes both to
  its constructor. The dataclass in models/personal_information.py declares neither field, and
  with it that call would raise a `TypeError`. The engine would then record a
  "personal_info_extraction_error" on every run. The model assumes the two fields exist.
- The configuration manager's `load` passes `keyword_presets` and `presets_section_expanded`
  to the `Configuration` constructor. models/configuration.py declares neither field, so that
  call would raise a `TypeError`, `load` would return the default configuration, the
  path fallback after a failed validation would never run, and `save` would fail. The model
  assumes the two fields exist: `ConfigManager.FilterPresets` and `ConfigManager.FallbackPath`
  compute what `load` does with them.
- The output generator's file name reads `personal_info.full_name`, which
  models/personal_information.py does not define. As written, writing the report would fail on
  every run and every job would end with "Extraction failed: Failed to generate output: …".
  The model assumes the attribute exists: a job's written report is a parameter, and
  `Controller.WorkerRun` with a `Written` report stands for the intended program.
- The controller's preset handler calls `Configuration.get_preset_by_name`, which
  models/configuration.py does not define. As written, every preset load ends with the error
  "Error loading preset: 'Configuration' object has no attribute 'get_preset_by_name'". The
  model assumes the method exists: the preset's keyword texts are a parameter of
  `Controller.AppController.OnPresetLoaded`.

Other modelling choices:

- Paths are POSIX paths. `pathlib` is modelled as it reads a path: a root and the parts
  between separators, without empty parts and ".". So "./report.pdf" in "/home/u" becomes
  "/home/u/report.pdf", and "docs/report.pdf/" is named "report.pdf". `os.path.join` and
  `os.path.splitext` work on the text as it is. The working directory is a parameter, taken to
  be absolute and normalised, as `os.getcwd()` returns it. Under that assumption the engine's
  placeholder path `Path.cwd() / 'unknown'` is the plain join of the two.
- The engine looks groups up by the keyword exactly as given, though the matches carry the
  stripped keyword. The controller only passes stripped keywords.
- The constructors of `Document`, `Configuration` and `ProcessingLog` raise on invalid fields.
  The `Document` constructor's contract requires valid fields, and `Documents.CheckDocument`
  models the raising path. `Configuration.Create` is the checked construction and
  `Configuration.Make` only assigns the fields. `ProcessingLog.Make` also only assigns, and
  `ProcessingLogs.LogError` computes the message its checks would raise.

## Model

| member | source | states |
|---|---|---|
| ExtractionMatches.ParseStatus | src/models/extraction_match.py:28-33 | a status string is accepted exactly when it is one of "found", "not_found", "ambiguous", and then names the status it parses to |
| ExtractionMatches.StatusNameParses | src/models/extraction_match.py:15 | every status's name parses back to that status |
| ExtractionMatches.NewExtractionMatch | src/models/extraction_match.py:26-49 | construction succeeds exactly when the status is valid, the page is at least 1, a given line is at least 1 and the stripped keyword is non-empty; the fields are kept, except that a not-found match with another value gets "Not found"; a blank keyword fails with "Keyword must be non-empty" |
| ExtractionMatches.ValidMatchReconstructs | src/models/extraction_match.py:26-49 | every valid match is what the constructor builds from its own fields |
| ExtractorBase.NewKeywordMatch | src/extractors/base.py:31-43 | construction succeeds exactly when page and line are at least 1 and keyword and line text are non-empty, in that order of checks; an empty keyword gives "Keyword must be non-empty" |
| Keywords.NewKeyword | src/models/keyword.py:24-38 | construction succeeds exactly when the stripped text has 1 to 100 characters; the text is stored stripped, the normalized form is the lower-cased text unless one is given, and a blank text fails with "Keyword cannot be empty or whitespace-only" |
| Keywords.ReconstructValid | src/models/keyword.py:24-38 | constructing again from a valid keyword's fields gives the same keyword |
| Keywords.FromText | src/models/keyword.py:41-58 | an active keyword whose text is the stripped input and whose normalized form is its lower-cased text; it fails exactly when the stripped text is empty or longer than 100 |
| Keywords.FromTextSameIffCaseless | src/models/keyword.py:100-119 | two keywords made from text are equal (as `matches`, `__eq__` and `__hash__` compare them) exactly when their stripped texts are equal ignoring case |
| ParserBase.NewPageContent | src/parsers/base.py:38-45 | construction succeeds exactly when the page number is at least 1; given lines are kept, and when none are given the lines of a non-empty text join back to that text with line breaks; the error names the page number |
| ParserBase.NewParseResult | src/parsers/base.py:66-75 | construction succeeds exactly when a success has pages, a failure has a non-empty message and the page count is not negative; a success without pages fails with its own message |
| ParserBase.NewValidationResult | src/parsers/base.py:92-95 | construction succeeds exactly when the verdict is valid or carries a non-empty message |
| PersonalInfo.ParseCharacterSet | src/models/personal_information.py:28-34 | a character-set name is accepted exactly when it is one of the four names, and then names the set it parses to |
| PersonalInfo.CharacterSetNameParses | src/models/personal_information.py:22 | every character set's name parses back to that set |
| PersonalInfo.NewPersonalInformation | src/models/personal_information.py:26-55 | construction succeeds exactly when the character set is known, a given page is at least 1 and a given ID prefix is four digits; the fields are kept and the completeness flag is recomputed as "first name, last name and ID prefix all present" |
| PersonalInfo.Empty | src/models/personal_information.py:57-71 | the empty record has no fields, an unknown character set and is not complete |
| PersonalInfo.EmptyIsConstructed | src/models/personal_information.py:64-71 | the empty record is what the constructor builds from no data |
| Results.CountsPartition | src/models/extraction_results.py:103-125 | the found, not-found and ambiguous counts add up to the number of matches |
| Results.ErrorLines | src/models/extraction_results.py:88-90 | one line "- message" per error, in order |
| Results.ExtractionResults.Create | src/models/extraction_results.py:148-166 | new results for a document have no matches, errors or warnings, empty personal information and no output or log path, are not complete and summarise their errors as "No errors" |
| Results.ExtractionResults.AddMatch | src/models/extraction_results.py:32-38 | the match goes last and nothing else changes; the results are then complete and each status count grows by one exactly for the match's status |
| Results.ExtractionResults.AddError | src/models/extraction_results.py:40-53 | an error with the given type, message and context goes last and nothing else changes; the results then have errors and are complete |
| Results.ExtractionResults.AddWarning | src/models/extraction_results.py:55-61 | the warning goes last and nothing else changes |
| Results.ExtractionResults.ErrorSummary | src/models/extraction_results.py:79-92 | the summary is "No errors" exactly when there are no errors |
| Results.ErrorSummaryAfterAddError | src/models/extraction_results.py:79-92 | recording an error makes the summary that error's line alone, or the old summary plus a line break and that line |
| Results.StatusSummaryAllFound | src/models/extraction_results.py:127-146 | when every match was found the status summary names the total and the successful count only |
| Paths.KeptParts | src/models/document.py:66 | the parts `pathlib` keeps are exactly the pieces between separators that are neither empty nor "." |
| Paths.PathParts | src/models/document.py:66 | every part of a path is non-empty, not "." and free of separators |
| Paths.PathRoot | src/models/document.py:66 | a path has a root exactly when it is absolute; the root is "/" or, for exactly two leading separators, "//" |
| Paths.PathStringNormal | src/models/document.py:66 | `pathlib`'s normal form is a fixed point: normalising a normalised path keeps its root, its parts and its text |
| Paths.AbsolutePath | src/models/document.py:83 | the absolute form of a path is absolute |
| Paths.AbsolutePathMeaning | src/models/document.py:83 | an absolute path keeps its root and parts; a relative one gets the working directory's root and parts before its own; the result is normalised and names the same file whenever the path has a part |
| Paths.RelativeNameUnderCwd | src/models/document.py:83 | a plain name, with or without a leading "./", becomes the normalised working directory, a separator and the name, so "./report.pdf" in "/home/u" is "/home/u/report.pdf" |
| Paths.FileName | src/models/document.py:66-69 | the file name is the last part `pathlib` keeps, never containing a separator and never "."; it is empty exactly when no part is kept |
| Paths.FileNameAfterSep | src/models/document.py:69 | a path ending in a separator and a clean part is named by that part |
| Paths.FileNameIgnoresTrailing | src/models/document.py:69-70 | a trailing separator or "." changes neither the name nor the suffix, so "docs/report.pdf/" is named "report.pdf" with suffix ".pdf" |
| Paths.PathSuffix | src/models/document.py:70 | a suffix is empty or a dot followed by at least one character, with no further dot and no separator |
| Paths.ExtensionOfPlainName | src/models/document.py:66-70 | for "dir/base.ext" with a plain base name both the suffix and the `splitext` extension are ".ext" |
| Documents.ParseFileType | src/models/document.py:46-51 | a type name is accepted exactly when its lower-cased form is "pdf", "docx" or "doc", and the accepted type has that name |
| Documents.FileTypeNameAccepted | src/models/document.py:46-51 | every file type's name is accepted back as that type |
| Documents.CheckDocument | src/models/document.py:40-51 | the constructor's checks pass exactly when the path is absolute and the lower-cased type is one of the three; a relative path fails with "file_path must be absolute: " and the path |
| Documents.TypeOfPath | src/models/document.py:70-80 | the file type whose dotted name is the lower-cased suffix of the path; otherwise the error "Unsupported file extension: " with that suffix |
| Documents.TypeOfSuffix | src/models/document.py:70-80 | a suffix maps to the file type whose dotted name it is, and to none when no type has that name |
| Documents.TransitionsGoThroughValidation | src/models/document.py:152-159 | a verdict state is entered only from VALIDATING, VALIDATING only from SELECTED, and no state moves to itself |
| Documents.Document.constructor | src/models/document.py:32-51 | a document built from arguments that pass the checks holds them, with the type normalized |
| Documents.Document.FromPath | src/models/document.py:53-87 | succeeds exactly when the suffix names a supported type and then holds the normalised absolute path, the `pathlib` file name, that type and the SELECTED state; otherwise fails with the unsupported-extension message |
| Documents.Document.MarkValid | src/models/document.py:122-131 | the document becomes valid with the given page count and no error, in state VALID; nothing else changes |
| Documents.Document.MarkInvalid | src/models/document.py:133-141 | the document becomes invalid with the given message, in state INVALID; nothing else changes |
| Documents.Document.TransitionTo | src/models/document.py:143-166 | the move succeeds exactly when the transition table allows it and then sets the state; a refused move leaves the document unchanged and names both states in "Invalid state transition: a -> b" |
| AppState.WithoutMembers | src/models/application_state.py:102-106 | after removal a keyword is present exactly when it was present and its normalized form differs from the removed text lower-cased |
| AppState.WithoutKeepsUnique | src/models/application_state.py:102-106 | removal keeps the active keywords free of duplicate normalized forms |
| AppState.AppendKeepsUnique | src/models/application_state.py:85-88 | appending a keyword whose normalized form is absent keeps the list free of duplicates |
| AppState.TransitionsKeepConsistent | src/models/application_state.py:60-166 | the initial state and every transition keep the active keywords duplicate-free and keep PROCESSING only while the processing flag is set |
| AppState.AddKeywordMeaning | src/models/application_state.py:79-94 | after adding, the keyword's normalized form is present, the list grows by one exactly when it was absent, the old keywords stay in front, and the status changes only from FILE_SELECTED to READY |
| AppState.RemoveKeywordMeaning | src/models/application_state.py:96-113 | exactly the keywords with another normalized form stay; with none left the status falls back to FILE_SELECTED or IDLE depending on the document, otherwise it is unchanged |
| AppState.StartClosesGate | src/models/application_state.py:124-129 | once processing has started, extraction cannot be started again, and errors and results are cleared |
| AppState.CompletionStatus | src/models/application_state.py:131-147 | completion gives COMPLETE exactly when the results have no errors, PARTIAL_SUCCESS exactly when they have errors and a found match, ERROR exactly when they have errors and no found match; the results are stored and processing stops |
| AppState.FoundIffCounted | src/models/application_state.py:142 | a found match exists exactly when the found count is positive |
| AppState.FinishReopensGate | src/models/application_state.py:131-157 | after completion or failure extraction can start again exactly when a valid document and some keywords are present; failure appends its message |
| AppState.ValidDocumentOpensGate | src/models/application_state.py:41-73 | a valid document with keywords present and nothing running makes the state READY and opens the gate |
| AppState.InvalidDocumentClosesGate | src/models/application_state.py:41-77 | an invalid document makes the state ERROR, closes the gate and records its non-empty error message |
| AppState.ApplicationState.constructor | src/models/application_state.py:34-39 | the new state is the initial one: no document, no keywords, IDLE, no results, no errors, not processing |
| AppState.ApplicationState.CanStart | src/models/application_state.py:41-58 | the gate: a valid document, some keywords, nothing running and a status among READY, COMPLETE, ERROR, PARTIAL_SUCCESS |
| AppState.ApplicationState.SetDocument | src/models/application_state.py:60-77 | the new state is the set-document transition of the old one |
| AppState.ApplicationState.AddKeyword | src/models/application_state.py:79-94 | the new state is the add-keyword transition of the old one (duplicate scan, then append) |
| AppState.ApplicationState.RemoveKeyword | src/models/application_state.py:96-113 | the new state is the remove-keyword transition of the old one |
| AppState.ApplicationState.ClearKeywords | src/models/application_state.py:115-122 | the new state is the clear-keywords transition of the old one |
| AppState.ApplicationState.StartProcessing | src/models/application_state.py:124-129 | the new state is the start-processing transition of the old one |
| AppState.ApplicationState.CompleteProcessing | src/models/application_state.py:131-147 | the new state is the completion transition, whose status the scan for a found match decides |
| AppState.ApplicationState.FailProcessing | src/models/application_state.py:149-157 | the new state is the failure transition of the old one |
| AppState.ApplicationState.Reset | src/models/application_state.py:159-166 | the state returns to the initial one |
| Histories.TailSlice | src/models/keyword_history.py:57-59 | Python's `xs[-n:]`: the last n elements (all of them when there are fewer) for positive n, and for n of 0 or less the slice that starts -n elements from the front |
| Histories.WithoutCaseless | src/models/configuration.py:120-124 | no kept entry equals the text ignoring case, every kept entry was present, and the list does not grow |
| Histories.Matching | src/models/keyword_history.py:47-49 | every selected entry equals the text ignoring case and was present, and the list does not grow |
| Histories.RemoveValue | src/models/keyword_history.py:78-81 | removing a present value removes exactly one entry |
| Histories.WithoutCaselessMembers | src/models/configuration.py:120-124 | an entry survives the filter exactly when it was present and differs from the text ignoring case |
| Histories.WithoutCaselessOfAbsent | src/models/configuration.py:120-124 | filtering out a text that no entry matches leaves the list unchanged |
| Histories.WithoutCaselessUnique | src/models/configuration.py:120-124 | filtering keeps a list free of case-insensitive duplicates |
| Histories.MatchingNonEmpty | src/models/keyword_history.py:47-49 | the list of matching entries is non-empty exactly when some entry equals the text ignoring case |
| Histories.RemoveFirstMatchOfUnique | src/models/keyword_history.py:78-81 | in a list without case-insensitive duplicates, removing the first match is the same as filtering out every match |
| KeywordHistories.BoundedMeaning | src/models/keyword_history.py:56-59 | trimming to a positive maximum keeps the newest entry and the newest entries in order, at most the maximum, with no duplicates |
| KeywordHistories.AddedMeaning | src/models/keyword_history.py:27-64 | `add` refuses exactly a blank or over-100-character text; otherwise the stripped text is newest, the other entries are the old ones that differ from it ignoring case, in order, trimmed from the oldest to the maximum, and no two entries are equal ignoring case |
| KeywordHistories.AppendAbsentUnique | src/models/keyword_history.py:53-54 | appending a text that no entry equals ignoring case keeps the history free of duplicates |
| KeywordHistories.SuffixUnique | src/models/keyword_history.py:57-59 | a suffix of a duplicate-free history is duplicate-free |
| KeywordHistories.RemovedMeaning | src/models/keyword_history.py:66-85 | `remove` shortens the history by one exactly when some entry matches ignoring case and leaves it unchanged otherwise; in a duplicate-free history it takes out every match and keeps the rest in order |
| KeywordHistories.RecentMeaning | src/models/keyword_history.py:99-108 | `get_recent` with a positive count gives the last count entries, or all of them; a count of 0 gives all entries and a negative count drops that many from the front |
| KeywordHistories.SelectionFromHistory | src/models/keyword_history.py:115-132 | every selected text is a history entry that some requested text equals ignoring case, and there are no more selections than requests |
| KeywordHistories.SelectionComplete | src/models/keyword_history.py:115-132 | when every requested text is in the history, there is one selection per request, in order, each the history's own spelling of that request |
| KeywordHistories.ContainsAfterAdd | src/models/keyword_history.py:27-97 | after a successful `add` with a positive maximum, `contains` finds the stripped text |
| KeywordHistories.KeywordHistory.constructor | src/models/keyword_history.py:18-25 | a history holds the given entries and maximum size |
| KeywordHistories.KeywordHistory.Add | src/models/keyword_history.py:27-64 | returns true exactly when the text is accepted, and the entries become the added history; otherwise they are unchanged |
| KeywordHistories.KeywordHistory.Remove | src/models/keyword_history.py:66-85 | returns true exactly when some entry matches ignoring case, and the first match is removed |
| KeywordHistories.KeywordHistory.Clear | src/models/keyword_history.py:110-113 | the history becomes empty |
| KeywordHistories.KeywordHistory.SelectMultiple | src/models/keyword_history.py:115-132 | the loop gives the history's spelling of each requested text it finds, in request order |
| Configurations.ConfigErrorMeaning | src/models/configuration.py:34-57 | a configuration is accepted exactly when the number format is "us_uk", the proximity rule "next_number", the width within 600 to 3840 and the height within 400 to 2160; the first failing check names the error whatever the later fields hold; the 800 by 600 default passes |
| Configurations.WithKeywordMeaning | src/models/configuration.py:89-112 | adding to the history makes the stripped text newest; every other entry is an old entry that differs from it ignoring case, in order; at most 1000 entries remain, oldest dropped first; a duplicate-free history stays duplicate-free |
| Configurations.AddAgreesWithKeywordHistory | src/models/configuration.py:89-112 | for a valid keyword text, the configuration's history update and the keyword history's `add` with its default maximum of 1000 give the same list |
| Configurations.WithoutKeywordMeaning | src/models/configuration.py:114-125 | after removal no entry equals the text ignoring case, and exactly the other entries stay |
| Configurations.Configuration.Make | src/models/configuration.py:24-32 | a configuration holds the given fields |
| Configurations.Configuration.Create | src/models/configuration.py:34-61 | construction fails exactly when a field check fails, with that check's message; otherwise the configuration holds the fields, satisfies the checks, and takes the current time when no timestamp is given |
| Configurations.Configuration.AddKeywordToHistory | src/models/configuration.py:89-112 | the history becomes the added history, the timestamp is the current time, and no other field changes |
| Configurations.Configuration.RemoveKeywordFromHistory | src/models/configuration.py:114-125 | the history loses every entry equal to the text ignoring case, the timestamp is the current time, and no other field changes |
| Configurations.Configuration.ClearKeywordHistory | src/models/configuration.py:127-130 | the history becomes empty, the timestamp is the current time, and no other field changes |
| ConfigManager.Validate | src/services/configuration_manager.py:193-221 | the errors are the path errors, then one per entry that is empty or longer than 100 characters, then one per entry equal ignoring case to an earlier one; the configuration is valid exactly when there are none |
| ConfigManager.AppendInvalid | src/services/configuration_manager.py:209-211 | the first loop appends exactly the invalid-entry errors, in order |
| ConfigManager.AppendDuplicates | src/services/configuration_manager.py:214-219 | the second loop, with its set of seen lower-case forms, appends exactly the duplicate-entry errors, in order |
| ConfigManager.SeenMeansEarlier | src/services/configuration_manager.py:214-219 | a lower-case form is in the seen set exactly when an earlier entry equals the keyword ignoring case |
| ConfigManager.InvalidErrorsEmpty | src/services/configuration_manager.py:209-211 | the first loop reports nothing exactly when every entry has 1 to 100 characters |
| ConfigManager.DuplicateErrorsEmpty | src/services/configuration_manager.py:214-219 | the second loop reports nothing exactly when no two entries are equal ignoring case |
| ConfigManager.ValidHistoryPasses | src/services/configuration_manager.py:193-221 | a duplicate-free history of 1-to-100-character entries adds no errors to the path errors |
| ConfigManager.FilterPresets | src/services/configuration_manager.py:74-85 | the preset loop keeps the well-formed presets (objects with a name and a list of keywords), in order |
| ConfigManager.ValidPresetsMembers | src/services/configuration_manager.py:78-85 | a preset is kept exactly when it is in the input and well formed |
| ConfigManager.ValidPresetsAppend | src/services/configuration_manager.py:78-85 | filtering works piece by piece, so kept presets keep their relative order |
| ConfigManager.ValidPresetsOfValid | src/services/configuration_manager.py:78-85 | when every preset is well formed, all are kept |
| ConfigManager.FallbackPath | src/services/configuration_manager.py:103-113 | a valid configuration keeps its folder; an invalid one keeps it exactly when it is absolute and otherwise takes the default, so an absolute default makes the result absolute |
| BatchResults.DocumentsWithMatchesBounds | src/models/batch_extraction_results.py:85-91 | the number of documents with a found match is at most the number of documents, zero exactly when no document has one, and all of them exactly when every document has one |
| BatchResults.DocumentsWithMatchesAppend | src/models/batch_extraction_results.py:85-91 | one more document raises the count by one exactly when it has a found match |
| BatchResults.StatusSummaryMeaning | src/models/batch_extraction_results.py:93-109 | the summary is "N documents processed", then ", M with matches" only when M is not zero, then ", W warnings" only when W is not zero |
| BatchResults.BatchExtractionResults.constructor | src/models/batch_extraction_results.py:20-24 | a new batch holds the keywords and has no results, output path or warnings |
| BatchResults.BatchExtractionResults.AddResult | src/models/batch_extraction_results.py:26-32 | the result goes last and nothing else changes; the batch then has results and no errors, and its success count grows by one exactly when the result has a found match |
| BatchResults.BatchExtractionResults.AddWarning | src/models/batch_extraction_results.py:34-40 | the warning goes last and nothing else changes; the batch then has warnings and has errors exactly when it has no results |
| BatchResults.BatchExtractionResults.SuccessCount | src/models/batch_extraction_results.py:85-91 | at most the number of documents, and zero exactly when no document has a found match |
| OutputReports.NewOutputReport | src/models/output_report.py:30-39 | construction succeeds exactly when the file name, the timestamp and the output path are non-empty, and keeps every field; an empty file name is reported first |
| OutputReports.BaseName | src/models/output_report.py:50-54 | a name without a dot is kept; otherwise the base is the part before the last dot |
| OutputReports.FilenameOfBaseAndExtension | src/models/output_report.py:41-56 | "base.ext" with a dot-free extension gives "output_base.txt", whatever dots the base holds |
| OutputReports.FilenameWithoutDot | src/models/output_report.py:41-56 | a name without a dot gives "output_name.txt" |
| OutputReports.SuccessStatusMeaning | src/models/output_report.py:74-88 | the status is "complete" exactly when there are no errors, "partial_success" exactly when there are errors and a found match, and "error" exactly when there are errors and no found match |
| ProcessingLogs.NewLogEntry | src/models/processing_log.py:23-32 | an entry is accepted exactly when its level is INFO, WARNING or ERROR and its message is non-empty; an empty message with a valid level fails with "Log message must be non-empty" |
| ProcessingLogs.LogError | src/models/processing_log.py:64-76 | a log passes its checks exactly when file name and path are non-empty and the status is success, partial_success or failure; an empty file name is reported first |
| ProcessingLogs.CreatedLogIsValid | src/models/processing_log.py:119-147 | the log `create` builds, and its first entry, pass the constructors' checks whatever the directory, document name and timestamp |
| ProcessingLogs.ProcessingLog.Make | src/models/processing_log.py:57-62 | a new log holds the given name, path and start time, no entries, no end time and the status "success" |
| ProcessingLogs.ProcessingLog.AddEntry | src/models/processing_log.py:78-104 | an entry stamped with the current time goes last exactly when the level and message are valid; otherwise the entry constructor's error is returned and nothing changes |
| ProcessingLogs.ProcessingLog.Finalize | src/models/processing_log.py:106-117 | the status and end time are set and two INFO entries, the duration and the final status, go last; valid entries stay valid |
| ProcessingLogs.ProcessingLog.Create | src/models/processing_log.py:119-147 | the new log is named "extraction_<timestamp>.log" in the directory, holds the one entry "Starting extraction: <name>" and the status "success", and passes the checks |
| StateManagement.DeliveriesReachEachOnce | src/controllers/state_manager.py:182-194 | a notification calls each registered observer exactly once, whether or not it raises, and nobody else; every call carries the same copy of the state |
| StateManagement.RemoveFirstMeaning | src/controllers/state_manager.py:178-180 | removing an observer from a duplicate-free list leaves exactly the others, duplicate-free |
| StateManagement.RemoveFirst | src/controllers/state_manager.py:178-180 | an absent observer leaves the list unchanged; a present one shortens it by one |
| StateManagement.AddObserverKeepsUnique | src/controllers/state_manager.py:168-170 | registering keeps the observer list duplicate-free and contains the new observer |
| StateManagement.StateManager.constructor | src/controllers/state_manager.py:27-31 | a new manager holds the initial application state and no observers |
| StateManagement.StateManager.GetState | src/controllers/state_manager.py:33-40 | the copy returned equals the managed state, and being a value nothing done to it reaches that state |
| StateManagement.StateManager.Notify | src/controllers/state_manager.py:182-194 | the registered observers are called in order with the current state; the observer list is unchanged |
| StateManagement.StateManager.SetDocument | src/controllers/state_manager.py:42-50 | the state takes the set-document transition and then every observer is notified of the new state |
| StateManagement.StateManager.AddKeyword | src/controllers/state_manager.py:52-60 | the state takes the add-keyword transition and every observer is notified |
| StateManagement.StateManager.RemoveKeyword | src/controllers/state_manager.py:62-70 | the state takes the remove-keyword transition and every observer is notified |
| StateManagement.StateManager.ClearKeywords | src/controllers/state_manager.py:72-76 | the state takes the clear-keywords transition and every observer is notified |
| StateManagement.StateManager.StartProcessing | src/controllers/state_manager.py:78-90 | returns whether the gate was open; if it was, the state starts processing and observers are notified, otherwise nothing changes and nobody is notified |
| StateManagement.StateManager.CompleteProcessing | src/controllers/state_manager.py:92-100 | the state takes the completion transition and every observer is notified |
| StateManagement.StateManager.FailProcessing | src/controllers/state_manager.py:102-110 | the state takes the failure transition and every observer is notified |
| StateManagement.StateManager.Reset | src/controllers/state_manager.py:112-116 | the state returns to the initial one and every observer is notified |
| StateManagement.StateManager.CanStart | src/controllers/state_manager.py:118-125 | the answer is the state's start gate |
| StateManagement.StateManager.IsProcessing | src/controllers/state_manager.py:127-134 | the answer is the state's processing flag |
| StateManagement.StateManager.GetProcessingStatus | src/controllers/state_manager.py:136-143 | the answer is the state's status |
| StateManagement.StateManager.AddError | src/controllers/state_manager.py:145-153 | one message goes at the end of the error list, nothing else in the state changes, and every observer is notified |
| StateManagement.StateManager.ClearErrors | src/controllers/state_manager.py:155-159 | the error list becomes empty, nothing else in the state changes, and every observer is notified |
| StateManagement.StateManager.AddObserver | src/controllers/state_manager.py:162-170 | an observer not yet registered is appended, a registered one is not added twice, and nobody is notified |
| StateManagement.StateManager.RemoveObserver | src/controllers/state_manager.py:172-180 | the observer is no longer registered, the others stay in order, and nobody is notified |
| Coordination.StepsKeepSingleFlight | src/controllers/thread_coordinator.py:30-75 | from the initial state every step keeps at most one worker in flight with the running flag telling whether one is; a start while running launches nothing |
| Coordination.SendAllAppends | src/controllers/thread_coordinator.py:77-86 | sending progress texts appends one progress message per text, in order, and changes nothing else |
| Coordination.Progresses | src/controllers/thread_coordinator.py:77-86 | one progress message per text, in order |
| Coordination.JobMessages | src/controllers/thread_coordinator.py:30-126 | a job started while idle that reports progress and then returns or raises is drained as its progress messages followed by one complete or error message; afterwards nothing runs and the queue is empty |
| Coordination.StartWhileRunning | src/controllers/thread_coordinator.py:38-41 | a start while a worker runs keeps the queue, appends the error "Extraction already in progress" and starts no worker |
| Coordination.ThreadCoordinator.constructor | src/controllers/thread_coordinator.py:24-28 | a new coordinator runs nothing and has an empty queue |
| Coordination.ThreadCoordinator.StartExtraction | src/controllers/thread_coordinator.py:30-53 | the coordinator takes the start step, and a worker is launched exactly when none was running |
| Coordination.ThreadCoordinator.FinishWorker | src/controllers/thread_coordinator.py:55-75 | the worker's end queues a complete message with the results or an error message with the exception text, and clears the running flag |
| Coordination.ThreadCoordinator.SendProgress | src/controllers/thread_coordinator.py:77-86 | one progress message goes at the tail of the queue |
| Coordination.ThreadCoordinator.SendComplete | src/controllers/thread_coordinator.py:88-97 | one complete message with the results goes at the tail of the queue |
| Coordination.ThreadCoordinator.SendError | src/controllers/thread_coordinator.py:99-108 | one error message goes at the tail of the queue |
| Coordination.ThreadCoordinator.CheckMessages | src/controllers/thread_coordinator.py:110-126 | the loop returns every queued message in arrival order and leaves the queue empty |
| Coordination.ThreadCoordinator.IsRunning | src/controllers/thread_coordinator.py:128-134 | the answer is the running flag |
| Coordination.ThreadCoordinator.ClearQueue | src/controllers/thread_coordinator.py:151-157 | the queue becomes empty and nothing else changes |
| Coordination.ProgressReporter.constructor | src/controllers/thread_coordinator.py:163-169 | a reporter holds its coordinator |
| Coordination.ProgressReporter.Report | src/controllers/thread_coordinator.py:171-185 | one progress message goes at the tail of the coordinator's queue |
| ParserFactory.ParserFor | src/parsers/factory.py:20-24 | the map has a parser exactly for ".pdf", ".docx" and ".doc", each the parser of the type with that name |
| ParserFactory.Create | src/parsers/factory.py:26-58 | a missing file gives "File not found: " and the path before the extension is looked at; an existing file gets a parser exactly when its lower-cased extension is supported |
| ParserFactory.CreateMeaning | src/parsers/factory.py:44-58 | the parser created is the one whose type matches the lower-cased extension; an unsupported extension fails with a message naming it and listing ".pdf, .docx, .doc" |
| ParserFactory.SupportedList | src/parsers/factory.py:52 | the supported extensions joined for the error message read ".pdf, .docx, .doc" |
| ParserFactory.SupportedAreFileTypes | src/parsers/factory.py:74-81 | the supported extensions are exactly the dotted names of the document model's three file types |
| ParserFactory.Patterns | src/parsers/factory.py:90 | one pattern "*ext" per extension, in order |
| ParserFactory.FileFilterValue | src/parsers/factory.py:83-91 | the dialog filter is "Supported Documents (*.pdf *.docx *.doc)" |
| Pagination.MakePageIsConstructed | src/parsers/docx_parser.py:183-188 | every page the loop builds is accepted unchanged by the page constructor |
| Pagination.AccumulateKeeps | src/parsers/docx_parser.py:176-197 | after any number of turns the finished pages are numbered from 1, each within 500 words or holding one paragraph, each closed because the next paragraph would have passed the limit, and the pages plus the open page hold exactly the paragraphs read |
| Pagination.PaginateMeaning | src/parsers/docx_parser.py:159-208 | no paragraphs give no pages; otherwise the pages hold exactly the paragraphs, in order, are numbered 1, 2, ..., join their lines with line breaks, stay within 500 words unless a page holds one paragraph, and every page but the last was closed because the next paragraph would have passed the limit |
| Pagination.SplitIntoPages | src/parsers/docx_parser.py:159-208 | the loop computes the pagination function |
| Pagination.PageCountEstimateMeaning | src/parsers/docx_parser.py:149-154 | the estimate is at least one page, and for a positive word count it is the least number of 500-word pages that holds the words |
| DocxParser.KeepParagraphs | src/parsers/docx_parser.py:48-52 | the paragraph loop keeps the stripped text of every paragraph that is not blank, in order |
| DocxParser.NonBlankAppend | src/parsers/docx_parser.py:48-52 | the filter works paragraph by paragraph, so kept paragraphs stay in document order |
| DocxParser.NonBlankSingle | src/parsers/docx_parser.py:50-52 | one paragraph is kept, stripped, exactly when it is not blank |
| DocxParser.NonBlankClean | src/parsers/docx_parser.py:48-52 | every kept paragraph is non-empty with no surrounding whitespace, and no more paragraphs are kept than there are |
| DocxParser.NonBlankEmpty | src/parsers/docx_parser.py:48-52 | nothing is kept exactly when every paragraph is blank |
| DocxParser.Parse | src/parsers/docx_parser.py:43-72 | a success comes only from an opened document and has pages, as many as the page count says; a package python-docx does not recognise fails with "Invalid or corrupted DOCX file: " and the path |
| DocxParser.ParseMeaning | src/parsers/docx_parser.py:43-72 | an opened document parses exactly when some paragraph is not blank, and then its pages are the pagination of the kept paragraphs with no warning; otherwise the result constructor's error is re-raised as "Failed to parse DOCX: Successful parse result must have non-empty pages list" |
| DocxParser.PageCount | src/parsers/docx_parser.py:124-157 | the count is the page estimate of the document's word count, at least 1 |
| DocParser.SplitLines | src/parsers/doc_parser.py:64 | `splitlines`: no piece holds a line-break character |
| DocParser.SplitLinesJoin | src/parsers/doc_parser.py:64 | splitting a join of break-free lines (the last non-empty) gives the lines back |
| DocParser.StripLines | src/parsers/doc_parser.py:66 | one stripped line per line, the empty ones kept |
| DocParser.ParagraphsOfJoin | src/parsers/doc_parser.py:64-66 | a text of break-free lines joined with line breaks gives one paragraph per line, each stripped, blank lines kept as empty paragraphs |
| DocParser.CouldNotExtract | src/parsers/doc_parser.py:123 | the warning keeps at most 100 characters of the error text |
| DocParser.ResultOfPagesMeaning | src/parsers/doc_parser.py:73-91 | the result is a success with at least one page and a matching page count; no pages give the single empty placeholder page; the no-text warning is the only warning and appears exactly when the first three pages hold fewer than 10 characters |
| DocParser.ParseTextPages | src/parsers/doc_parser.py:54-91 | text with lines gives the pagination of its stripped lines, which holds those lines and is numbered from 1; text without lines gives the placeholder page |
| DocParser.Parse | src/parsers/doc_parser.py:28-124 | a failed validation is raised, as a password error when the file is encrypted; a parsed outcome is a success with pages and a matching page count |
| DocParser.ParseOutcomes | src/parsers/doc_parser.py:54-124 | after validation, parsing raises exactly when antiword runs too long, with "Document processing timed out"; printed text is paginated; a non-zero exit or a missing antiword (which the helper at lines 221-283 turns into a parsing error) gives the placeholder page whose one warning is the generic "Could not extract text from DOC file: " with the helper's message, shortened |
| DocParser.PageCount | src/parsers/doc_parser.py:188-220 | at least one page; one page when the antiword helper raises; otherwise the least number of 500-word pages that holds the words |
| KeywordMatcher.SearchFromFindsLeftmost | src/extractors/keyword_matcher.py:45-54 | the search from a position returns the leftmost whole-word, case-insensitive occurrence at or after it, and nothing only when there is none |
| KeywordMatcher.FirstOccurrence | src/extractors/keyword_matcher.py:45-54 | the pattern's first match in the line: an occurrence with none before it, or nothing exactly when the keyword occurs nowhere |
| KeywordMatcher.ContainsWordIff | src/extractors/keyword_matcher.py:54 | a line contains the keyword exactly when it occurs in the line somewhere between word boundaries |
| KeywordMatcher.LineMatchesAreHits | src/extractors/keyword_matcher.py:52-60 | each match records the keyword, the page, a line number from 1 to the number of lines, and the text of that line, which contains the keyword |
| KeywordMatcher.LineMatchesOrdered | src/extractors/keyword_matcher.py:52-60 | within a page line numbers strictly increase: at most one match per line, in line order |
| KeywordMatcher.LineMatchesComplete | src/extractors/keyword_matcher.py:52-60 | every line that contains the keyword has its match |
| KeywordMatcher.AllMatchesOrigin | src/extractors/keyword_matcher.py:34-62 | every match carries a stripped input keyword and the number of an input page |
| KeywordMatcher.PageMatchesOrigin | src/extractors/keyword_matcher.py:51-60 | every match for one keyword carries that keyword and the number of an input page |
| KeywordMatcher.AllMatchesFirstKeyword | src/extractors/keyword_matcher.py:36-60 | the first keyword's matches come before all the others, so keyword order is kept |
| KeywordMatcher.NoPagesNoMatches | src/extractors/keyword_matcher.py:34-62 | no pages give no matches, whatever the keywords |
| KeywordMatcher.FindKeywords | src/extractors/keyword_matcher.py:24-62 | the loops succeed exactly when no match would carry an empty keyword, and then give all the matches, each a valid keyword match; otherwise the first such match's constructor error "Keyword must be non-empty" ends the call |
| KeywordMatcher.MatchPages | src/extractors/keyword_matcher.py:51-60 | the loop over the pages for one keyword gives its matches page by page, or fails only for an empty keyword that hits a line |
| KeywordMatcher.MatchLines | src/extractors/keyword_matcher.py:52-60 | the loop over one page's lines gives its matches in line order, or fails only for an empty keyword that hits a line |
| KeywordMatcher.BlankKeywordWitness | src/extractors/keyword_matcher.py:38-60 | a blank keyword that hits some line produces a match with an empty keyword, which is what makes the matcher fail |
| NumberExtractor.SearchNumberLeftmost | src/extractors/number_extractor.py:26 | the search returns the leftmost position where the number pattern matches, and nothing only when it matches nowhere |
| NumberExtractor.SearchNumber | src/extractors/number_extractor.py:26 | a hit lies at or after the start position and is a match of the number pattern there |
| NumberExtractor.MatchAt | src/extractors/number_extractor.py:26 | a match starts and ends at word boundaries |
| NumberExtractor.MatchShape | src/extractors/number_extractor.py:26 | what the pattern matches is one to three digits, then groups of a comma and three digits, then an optional point and digits |
| NumberExtractor.NoMatchBeforeFourDigits | src/extractors/number_extractor.py:26 | four digits in a row never start a number |
| NumberExtractor.NoMatchAfterDigit | src/extractors/number_extractor.py:26 | no number starts right after a digit |
| NumberExtractor.CommaTokenIsThousands | src/extractors/number_extractor.py:77-91 | a matched number with a comma and no point always has the thousands shape, so the "unusual format" branch is never taken |
| NumberExtractor.GroupedNumberIsWhole | src/extractors/number_extractor.py:26 | in " 1,234" the number found is "1,234", with its thousands group |
| NumberExtractor.LongWholePartLosesIt | src/extractors/number_extractor.py:26 | in " 1234.50" the whole part has four digits, so the first number found is "50" |
| NumberExtractor.ShortGroupIsDropped | src/extractors/number_extractor.py:26 | in " 1,23 " the comma does not start a group of three, so the number found is "1" |
| NumberExtractor.ExtractOne | src/extractors/number_extractor.py:39-110 | the result keeps the keyword match's keyword, page and line |
| NumberExtractor.ExtractOneMeaning | src/extractors/number_extractor.py:39-110 | the result is "Not found" without warning exactly when the keyword is not found again in its line or no number follows it; otherwise the value is the first number after the keyword, ambiguous with the thousands warning exactly when it has a comma and no point, and found without warning otherwise |
| NumberExtractor.SearchIgnoresKeywordCase | src/extractors/number_extractor.py:41-49 | lower-casing the keyword does not change where the case-insensitive pattern matches |
| NumberExtractor.MatcherHitIsRelocated | src/extractors/number_extractor.py:48-61 | a keyword match the matcher produced is always found again in its line, so the first not-found branch is unreachable from the engine |
| NumberExtractor.BuildOne | src/extractors/number_extractor.py:93-110 | the constructor accepts the result exactly when the keyword is not blank, and it is then a valid match; a blank keyword gives "Keyword must be non-empty" |
| NumberExtractor.ExtractAllMeaning | src/extractors/number_extractor.py:37-112 | extraction succeeds exactly when no keyword is blank, and then gives one result per keyword match, the i-th from the i-th; otherwise it fails with "Keyword must be non-empty" |
| NumberExtractor.ExtractAllStopsAtError | src/extractors/number_extractor.py:39-112 | once a prefix fails the whole call fails with the same error |
| NumberExtractor.ExtractAllValid | src/extractors/number_extractor.py:37-112 | every result of a successful extraction is a valid extraction match |
| NumberExtractor.ExtractFrom | src/extractors/number_extractor.py:39-110 | one turn of the loop: the result for one keyword match, or the constructor's error for a blank keyword |
| NumberExtractor.ExtractNumbers | src/extractors/number_extractor.py:28-112 | the loop computes the extraction of all keyword matches, in order |
| ExtractionEngine.MatchesForMembers | src/extractors/extraction_engine.py:85-88 | a match is in a keyword's selection exactly when it is in the list and carries that keyword |
| ExtractionEngine.GroupByMeaning | src/extractors/extraction_engine.py:84-88 | a keyword gets a dictionary entry exactly when some match carries it, and the entry is exactly that keyword's matches in their original order |
| ExtractionEngine.GroupByEntries | src/extractors/extraction_engine.py:84-88 | every entry is non-empty and holds exactly the matches carrying its keyword |
| ExtractionEngine.GroupMatches | src/extractors/extraction_engine.py:84-88 | the grouping loop builds the dictionary of per-keyword match lists, each equal to that keyword's matches in order |
| ExtractionEngine.AddGroupMeaning | src/extractors/extraction_engine.py:94-99 | adding a group appends its matches in order to the matches and their warnings to the warnings; nothing else changes |
| ExtractionEngine.AddGroupTo | src/extractors/extraction_engine.py:94-99 | the inner loop computes the same results as adding the group |
| ExtractionEngine.NotFoundEntryMeaning | src/extractors/extraction_engine.py:103-110 | the "Not found" entry on page 1 is accepted exactly when the keyword is not blank; otherwise the constructor fails with "Keyword must be non-empty" |
| ExtractionEngine.EmitStep | src/extractors/extraction_engine.py:91-110 | each further keyword appends its group (or its not-found entry) and the group's warnings |
| ExtractionEngine.EmitAllKeeps | src/extractors/extraction_engine.py:91-110 | the keyword loop only extends matches and warnings; errors, document, personal information and times are unchanged |
| ExtractionEngine.EmitAllFailure | src/extractors/extraction_engine.py:91-112 | the loop fails exactly when some keyword has no group and is blank, and the failure message is the constructor's |
| ExtractionEngine.EmitAllStopsAtError | src/extractors/extraction_engine.py:91-112 | once the loop has raised on some keyword the remaining keywords change nothing |
| ExtractionEngine.EmitAllReportsKeyword | src/extractors/extraction_engine.py:91-110 | after a successful loop every input keyword's entry occurs contiguously among the newly added matches |
| ExtractionEngine.EmitAllOrigin | src/extractors/extraction_engine.py:91-110 | every added match is either from some keyword's group or the not-found entry of an input keyword |
| ExtractionEngine.EmitMatches | src/extractors/extraction_engine.py:91-110 | the outer loop computes the keyword-ordered emission, stopping at the first constructor error |
| ExtractionEngine.PersonalStageMeaning | src/extractors/extraction_engine.py:120-131 | step 3 stores the personal information and appends at most two warnings at the end, one for a missing first name and one for a missing ID number; matches, errors and document are untouched |
| ExtractionEngine.PlaceholderIsValidDocument | src/extractors/extraction_engine.py:51-65 | without a document the engine uses a valid PDF placeholder whose page count is the number of pages |
| ExtractionEngine.MatcherSucceedsOnNonBlankKeywords | src/extractors/extraction_engine.py:67-81 | with no blank keyword the matcher returns all keyword matches and the number extractor succeeds on them |
| ExtractionEngine.BlankKeywordHasNoGroup | src/extractors/extraction_engine.py:84-92 | a blank keyword never has a group, so it always needs a not-found entry |
| ExtractionEngine.NumberStageMeaning | src/extractors/extraction_engine.py:79-117 | step 2 only extends the matches and records the "number_extraction_error" exactly when the extraction or the keyword loop fails |
| ExtractionEngine.NumberStageKeeps | src/extractors/extraction_engine.py:79-117 | step 2 keeps the document, the personal information and the earlier matches |
| ExtractionEngine.RecordNumbersKeeps | src/extractors/extraction_engine.py:79-117 | recording any extraction outcome keeps the document, the personal information and the earlier matches |
| ExtractionEngine.NumberStageErrors | src/extractors/extraction_engine.py:79-117 | step 2 appends one error exactly when the extraction or the keyword loop fails |
| ExtractionEngine.RecordNumbersErrors | src/extractors/extraction_engine.py:79-117 | recording an extraction outcome appends one error exactly when the outcome is not clean |
| ExtractionEngine.EmitStageErrors | src/extractors/extraction_engine.py:91-117 | the keyword loop appends one error exactly when a keyword without a group is blank |
| ExtractionEngine.NumbersPartNoErrors | src/extractors/extraction_engine.py:50-117 | steps 1 and 2 record no error exactly when no input keyword is blank |
| ExtractionEngine.NoErrorsIffKeywordsNonBlank | src/extractors/extraction_engine.py:36-156 | an extraction records no error exactly when no input keyword is blank |
| ExtractionEngine.NumberStageReportsKeyword | src/extractors/extraction_engine.py:79-110 | with non-blank keywords, each keyword's extracted matches appear contiguously, or its not-found entry appears |
| ExtractionEngine.RecordedKeyword | src/extractors/extraction_engine.py:84-110 | grouping then emitting reports every non-blank keyword: its matches contiguously or its not-found entry |
| ExtractionEngine.NumbersPartReportsKeyword | src/extractors/extraction_engine.py:67-110 | after steps 1 and 2 every non-blank keyword is reported, by its matches or its not-found entry |
| ExtractionEngine.EveryKeywordReported | src/extractors/extraction_engine.py:36-156 | in an extraction with non-blank keywords every keyword is reported: all its matches contiguously, or a "Not found" entry |
| ExtractionEngine.NumbersPartOrigin | src/extractors/extraction_engine.py:67-117 | every match after steps 1 and 2 is an extracted match or a keyword's not-found entry, and only not-found entries when the matcher failed |
| ExtractionEngine.MatchesAreExtractedOrNotFound | src/extractors/extraction_engine.py:36-156 | every match of an extraction is an extracted match or a keyword's not-found entry, and only not-found entries when the matcher failed |
| ExtractionEngine.NumbersPartErrors | src/extractors/extraction_engine.py:67-117 | steps 1 and 2 record at most the matcher error and then at most the number error, in that order |
| ExtractionEngine.TwoStagesErrors | src/extractors/extraction_engine.py:67-117 | for any matcher outcome the first two steps record the matcher error only when the matcher failed, followed by at most one number error |
| ExtractionEngine.ExtractOutline | src/extractors/extraction_engine.py:36-156 | the result has the given or placeholder document, the given time stamps, the personal information of the pages with its warnings last, and errors that are the matcher error and/or the number error in order |
| ExtractionEngine.Extract | src/extractors/extraction_engine.py:36-156 | the three steps compute the extraction specification |
| ExtractionEngine.MatchKeywords | src/extractors/extraction_engine.py:67-77 | step 1 records the matcher's keyword matches, all valid, or the "keyword_matching_error" with the keywords as context |
| ExtractionEngine.ExtractNumbers | src/extractors/extraction_engine.py:79-117 | step 2 computes the number stage |
| ExtractionEngine.AddPersonalInfo | src/extractors/extraction_engine.py:119-131 | step 3 computes the personal stage over the pages' personal information |
| PersonalInfoExtractor.TailShape | src/extractors/personal_info_extractor.py:26-47 | what follows a label's colon is captured as a stripped run of name characters, or as exactly four digits for an ID |
| PersonalInfoExtractor.LabelsShape | src/extractors/personal_info_extractor.py:26-47 | a capture at one position, the labels tried in order, has the shape of its tail |
| PersonalInfoExtractor.SearchShape | src/extractors/personal_info_extractor.py:161-163 | a search's capture has the shape of its tail |
| PersonalInfoExtractor.CaptureShape | src/extractors/personal_info_extractor.py:158-164 | the capture of the first matching pattern has the shape of its tail |
| PersonalInfoExtractor.StripOfNameRun | src/extractors/personal_info_extractor.py:163 | stripping a run of name characters leaves a stripped run of name characters |
| PersonalInfoExtractor.IdOnIsPrefix | src/extractors/personal_info_extractor.py:219-232 | an ID found on a page is always four digits |
| PersonalInfoExtractor.EarlierPatternWins | src/extractors/personal_info_extractor.py:160-164 | when the first pattern of a list matches anywhere, its capture is returned and later patterns are not consulted |
| PersonalInfoExtractor.NoLabelHere | src/extractors/personal_info_extractor.py:26-47 | where no label of an alternation starts, the pattern does not match |
| PersonalInfoExtractor.NoMatchFrom | src/extractors/personal_info_extractor.py:161 | a search finds nothing when no position from its start matches |
| PersonalInfoExtractor.NameLabelInsideLastName | src/extractors/personal_info_extractor.py:26 | the label "Name" also fires inside "Last Name:", so the line "Last Name: Ivanov" yields the first name "Ivanov" |
| PersonalInfoExtractor.BlankNameCapture | src/extractors/personal_info_extractor.py:26 | "Name: 42" matches with a whitespace-only capture, so the first name found is the empty string |
| PersonalInfoExtractor.IdKeepsFourDigits | src/extractors/personal_info_extractor.py:46 | "ID: 1234567" yields the ID prefix "1234" |
| PersonalInfoExtractor.CrossLineNameCapture | src/extractors/personal_info_extractor.py:25-33 | name captures run over line breaks: on "First Name: Иван\nLast Name: Петров\nID: 1234567" the first name is "Иван\nLast Name", the last name "Петров\nID", and the combined names are mixed Cyrillic and Latin |
| PersonalInfoExtractor.AgeDigits | src/extractors/personal_info_extractor.py:42 | the greedy digit group followed by whitespace or the end has one to three digits |
| PersonalInfoExtractor.AgeAt | src/extractors/personal_info_extractor.py:42 | an age captured at a comma is one to three digits |
| PersonalInfoExtractor.SearchAge | src/extractors/personal_info_extractor.py:207 | the leftmost age capture is one to three digits |
| PersonalInfoExtractor.AgeOn | src/extractors/personal_info_extractor.py:197-217 | an age found on a page lies in 0..150 |
| PersonalInfoExtractor.FirstAgeOnly | src/extractors/personal_info_extractor.py:205-217 | only the first age match of a page is considered: "Ivan, 200 Petr, 33" gives no age |
| PersonalInfoExtractor.DetectConcat | src/extractors/personal_info_extractor.py:234-253 | the character set of a concatenation is the join of the parts' sets: unknown is neutral, Cyrillic with Latin is mixed |
| PersonalInfoExtractor.CombinedNamesSet | src/extractors/personal_info_extractor.py:108-110 | the character set of the combined names is the join of the sets of first, middle and last name |
| PersonalInfoExtractor.FromPage | src/extractors/personal_info_extractor.py:121-150 | one page's record: each field is that field's scanner result, the flag says first name, last name and ID are present, and the page is recorded when first name, last name or ID is truthy |
| PersonalInfoExtractor.Scans | src/extractors/personal_info_extractor.py:68-101 | one scan per later page, in order |
| PersonalInfoExtractor.ScansSplit | src/extractors/personal_info_extractor.py:68 | the scans of a suffix start with that page's scan |
| PersonalInfoExtractor.ScansValid | src/extractors/personal_info_extractor.py:68-101 | every scan of valid pages has a page from 1 and a four-digit ID, if any |
| PersonalInfoExtractor.StepKeepsFlag | src/extractors/personal_info_extractor.py:68-101 | filling fields from a later page never updates the stored completeness flag |
| PersonalInfoExtractor.AsWrittenReadsEveryPage | src/extractors/personal_info_extractor.py:67-105 | the loop as written never stops early: it reads every later page |
| PersonalInfoExtractor.StaleSteps | src/extractors/personal_info_extractor.py:68-105 | after a page completes first name, last name and ID, the loop as written still takes a middle name from the next page, and the intended loop does not |
| PersonalInfoExtractor.StaleFlagCounterexample | src/extractors/personal_info_extractor.py:103-105 | pages "Surname:B" then "Patronymic:C" after a page with first name and ID: the loop as written reads page 3, the intended one stops after page 2 |
| PersonalInfoExtractor.FillKeepsFields | src/extractors/personal_info_extractor.py:68-101 | a field already present is never replaced by a later page |
| PersonalInfoExtractor.FillIgnoresPagesAfterCompletion | src/extractors/personal_info_extractor.py:103-105 | pages after the one that completes first name, last name and ID are never read |
| PersonalInfoExtractor.StepProvenance | src/extractors/personal_info_extractor.py:68-101 | a field one page fills is that page's scanner result, truthy for names, and present fields are kept |
| PersonalInfoExtractor.FillProvenance | src/extractors/personal_info_extractor.py:68-101 | every field the later pages fill comes from one of their scans |
| PersonalInfoExtractor.LaterPageProvenance | src/extractors/personal_info_extractor.py:68-101 | every field the later pages fill is what that field's scanner found on one of them |
| PersonalInfoExtractor.FillKeepsValid | src/extractors/personal_info_extractor.py:68-101 | the loop keeps a record the constructor would accept and its age within 0..150 |
| PersonalInfoExtractor.PersonalInfoValid | src/extractors/personal_info_extractor.py:50-119 | the result is valid, its flag is recomputed from first name, last name and ID, its age lies in 0..150, and with a truthy name its character set is that of the combined names |
| PersonalInfoExtractor.FirstPagePriority | src/extractors/personal_info_extractor.py:62-101 | every field found on page 1 is the one returned |
| PersonalInfoExtractor.CompleteFirstPageSuffices | src/extractors/personal_info_extractor.py:66-67 | when page 1 has first name, last name and ID, no other page is read |
| PersonalInfoExtractor.ReadLaterPage | src/extractors/personal_info_extractor.py:69-101 | one iteration fills the absent fields from one page in the source's order |
| PersonalInfoExtractor.ReadLaterPages | src/extractors/personal_info_extractor.py:67-105 | the later-page loop, stopping once first name, last name and ID are present |
| PersonalInfoExtractor.ExtractPersonalInfo | src/extractors/personal_info_extractor.py:50-119 | computes the personal information of the pages: empty for no pages, page 1 first, then the later pages until complete, then character set and flag |
| Controller.DecideKeywordMeaning | src/controllers/app_controller.py:153-181 | a keyword is accepted exactly when its stripped text has 1 to 100 characters and no active keyword has the same lower-cased form; the accepted keyword is the stripped text and lands last among the active keywords; it is remembered exactly when no history entry equals it ignoring case; empty text is rejected with "Keyword cannot be empty" |
| Controller.RememberKeepsHistoryUnique | src/controllers/app_controller.py:178-181 | appending a text the history lacks keeps the history free of case-insensitive duplicates and makes the text present |
| Controller.ParsePreset | src/controllers/app_controller.py:261-262 | each preset text is parsed as a non-historical keyword, in order |
| Controller.PresetAddStops | src/controllers/app_controller.py:261-270 | once adding a preset's keywords has raised, the remaining texts change nothing |
| Controller.PresetFailsOnInvalidText | src/controllers/app_controller.py:261-270 | loading fails exactly when some text does not parse, and then with the first such text's error |
| Controller.Successes | src/controllers/app_controller.py:261-263 | the keywords of a fully parsed preset, in preset order |
| Controller.PresetLoadsInOrder | src/controllers/app_controller.py:256-263 | after clearing, a preset of distinct valid texts becomes exactly the active keywords, in preset order |
| Controller.KeywordTexts | src/controllers/app_controller.py:463 | the texts of the keywords, one per keyword in order |
| Controller.WorkerRunMeaning | src/controllers/app_controller.py:447-493 | a job reports a prefix of the four stages; it reports "Complete!" and succeeds exactly when parsing and writing succeed, and then returns the engine's results with the report's output path attached and, when a logger is configured, its log path, nothing else changed; a failure carries a non-empty message |
| Controller.DispatchAppend | src/controllers/app_controller.py:500-518 | dispatching two batches of messages is dispatching one after the other, and the alerts concatenate |
| Controller.ProgressChangesNothing | src/controllers/app_controller.py:503-505 | progress messages change no state and show no error |
| Controller.JobReachesState | src/controllers/app_controller.py:507-518 | a job's messages leave the state completed with the results, or failed with the message and one "Extraction failed: " alert |
| Controller.RoundTrip | src/controllers/app_controller.py:319-524 | starting, running and polling a job ends with processing finished, document and keywords unchanged, results or the error stored, the queue empty, the coordinator idle, and extraction startable again |
| Controller.FindActive | src/controllers/app_controller.py:168-169 | the scan reports whether some active keyword has the given normalized form |
| Controller.FindInHistory | src/controllers/app_controller.py:178-179 | the scan reports whether some history entry equals the text ignoring case |
| Controller.AppController.constructor | src/controllers/app_controller.py:34-58 | a fresh controller has the initial state, the loaded history, an idle coordinator and its own state callback as the only observer |
| Controller.AppController.OnKeywordAdded | src/controllers/app_controller.py:147-186 | a rejected text changes nothing and shows the rejection; an accepted keyword is added and notified, and the history is extended and saved only when the text is new to it, so a history free of case-insensitive duplicates stays free of them |
| Controller.AppController.OnPresetLoaded | src/controllers/app_controller.py:245-270 | a missing preset shows "Preset '<name>' not found"; otherwise the keywords are cleared and the preset's texts added in order up to the first that fails, whose error is shown |
| Controller.AppController.AddPresetText | src/controllers/app_controller.py:261-263 | one text of the preset loop: added when it parses, otherwise the loop stops with the error shown |
| Controller.AppController.PollWorkerMessages | src/controllers/app_controller.py:495-524 | drains the queue, applies each message in order, shows one alert per error message, and reschedules exactly while the coordinator is running |
| Controller.AppController.OnExtractClicked | src/controllers/app_controller.py:319-352 | starts exactly when the state allows it; otherwise shows the gate's error and changes nothing; when started, the state is processing, the job holds the document and keywords, and the first poll has run |
| Controller.AppController.RunWorker | src/controllers/app_controller.py:429-493 | the worker's stage messages and its terminal message are queued and the coordinator is left idle; a successful job's message carries the results with the output and log paths attached |
| Controller.AppController.ReportStages | src/controllers/app_controller.py:459-487 | after parsing, the remaining stages are reported in order and the outcome is the job's, the output path and the logger's log path attached to the results before "Complete!" |
| OutputGenerator.Widths | src/services/output_generator.py:40-62 | one width per header |
| OutputGenerator.ColumnWidths | src/services/output_generator.py:40-62 | the nested loops compute one width per header, the widest of the header and that column's cells |
| OutputGenerator.ColumnWidthMeaning | src/services/output_generator.py:53-60 | a column's width is at least its header's length and every cell's length in that column, and equals one of them |
| OutputGenerator.LeftJustify | src/services/output_generator.py:78 | the text followed by spaces up to the width, or the text unchanged when it is at least that long |
| OutputGenerator.FormattedCells | src/services/output_generator.py:74-80 | one formatted piece per cell |
| OutputGenerator.FormatTableRow | src/services/output_generator.py:64-82 | the loop builds the row: each cell padded to its width plus four, joined, trailing whitespace removed |
| OutputGenerator.ConcatAppend | src/services/output_generator.py:82 | joining one more piece appends it |
| OutputGenerator.StartsAtExtend | src/services/output_generator.py:82 | text already placed in a row stays in place when more is appended |
| OutputGenerator.StartsAtJoint | src/services/output_generator.py:82 | an appended piece's text starts at the old end |
| OutputGenerator.PlaceNext | src/services/output_generator.py:75-78 | appending one more padded cell places it at its column's offset |
| OutputGenerator.LayoutPrefix | src/services/output_generator.py:74-82 | with cells that fit, each of the first cells starts at its column's offset |
| OutputGenerator.RowAlignment | src/services/output_generator.py:64-82 | with cells that fit, every cell starts at the sum of the earlier widths plus four each, and the row is the padded text minus only trailing whitespace |
| OutputGenerator.CommaToPoint | src/services/output_generator.py:103 | every comma becomes a point and nothing else changes |
| OutputGenerator.AddSemicolonIfNumeric | src/services/output_generator.py:84-109 | empty text is returned as is; otherwise ";" is appended exactly when the text with commas as points, stripped, is a float literal, and the text is never changed otherwise |
| OutputGenerator.SemicolonOfWholeNumber | src/services/output_generator.py:94 | "1234" becomes "1234;" |
| OutputGenerator.SemicolonOfDecimalComma | src/services/output_generator.py:95 | "3,5" becomes "3,5;" |
| OutputGenerator.NoSemicolonOnText | src/services/output_generator.py:96 | "Not found" stays as it is |
| OutputGenerator.GroupMatches | src/services/output_generator.py:215-219 | the grouping loop builds the dictionary of per-keyword matches |
| OutputGenerator.GroupedMeaning | src/services/output_generator.py:215-219 | the groups are exactly the matches' keywords, each holding that keyword's matches in order, none empty |
| OutputGenerator.NoneOfKeyword | src/services/output_generator.py:215-219 | a keyword no match carries has no matches |
| OutputGenerator.BelowIrreflexive | src/services/output_generator.py:222 | no string sorts before itself |
| OutputGenerator.BelowTransitive | src/services/output_generator.py:222 | string order is transitive |
| OutputGenerator.BelowTotal | src/services/output_generator.py:222 | two different strings are ordered one way or the other |
| OutputGenerator.Insert | src/services/output_generator.py:222 | inserting adds one element |
| OutputGenerator.InsertKeeps | src/services/output_generator.py:222 | inserting a new string into a sorted list keeps it strictly sorted and adds just that string |
| OutputGenerator.HeadersMeaning | src/services/output_generator.py:222 | the headers are strictly sorted and are exactly the matches' keywords |
| OutputGenerator.SortedUnique | src/services/output_generator.py:222 | two strictly sorted lists with the same elements are equal, so the headers are the sorted keys |
| OutputGenerator.SortedFirst | src/services/output_generator.py:222 | every other element of a sorted list comes after its first |
| OutputGenerator.SortedRest | src/services/output_generator.py:222 | the rest of a sorted list is everything but its first element |
| OutputGenerator.SortedTail | src/services/output_generator.py:222 | the rest of a sorted list is sorted |
| OutputGenerator.MaxGroupMeaning | src/services/output_generator.py:225 | no group is larger than the maximum, and some group reaches it |
| OutputGenerator.RowOf | src/services/output_generator.py:229-245 | one cell per header |
| OutputGenerator.BuildRow | src/services/output_generator.py:229-246 | the inner loop builds a row's cells: each keyword's match of that row, or an empty cell |
| OutputGenerator.RowOfStep | src/services/output_generator.py:230-245 | a row over one more header gains that header's cell |
| OutputGenerator.RowsOf | src/services/output_generator.py:228 | one row per index |
| OutputGenerator.BuildRows | src/services/output_generator.py:226-246 | the outer loop builds one row per index up to the largest group |
| OutputGenerator.HeadersCover | src/services/output_generator.py:222-231 | every header names a group |
| OutputGenerator.TableSize | src/services/output_generator.py:225-228 | the table has as many rows as the most frequent keyword has matches, at least one when there are matches |
| OutputGenerator.TableCells | src/services/output_generator.py:228-246 | cell (r, c) shows the r-th match of the c-th header's keyword, found and ambiguous values with their semicolon, or is empty |
| OutputGenerator.TableFits | src/services/output_generator.py:249 | the headers and every row fit the computed widths |
| OutputGenerator.TableLines | src/services/output_generator.py:251-252 | one line per row |
| OutputGenerator.TableLinesStep | src/services/output_generator.py:251-252 | one more row adds its formatted line |
| OutputGenerator.FormatKeywordSection | src/services/output_generator.py:213-254 | the keyword part: "No keyword extractions performed" without matches, else the header row and one row line per table row, all with the same widths |
| OutputGenerator.ListSection | src/services/output_generator.py:277-292 | a titled list has one line per item, or one "None" line |
| OutputGenerator.ListSectionRoundTrip | src/services/output_generator.py:277-292 | a list section shows every item and only the items, in order: reading it back gives them, the empty list included |
| OutputGenerator.AppendList | src/services/output_generator.py:278-283 | the loop appends the titled list to the lines |
| OutputGenerator.Messages | src/services/output_generator.py:289-290 | one message per error, in order |
| OutputGenerator.ErrorsSectionLines | src/services/output_generator.py:286-292 | the errors section lists the same lines as the results' error summary, or "None" |
| OutputGenerator.FormatReportSections | src/services/output_generator.py:210-292 | the keyword, warnings and errors sections, appended in the source's order |
| FileSelection.SplitSep | src/ui/file_selector.py:152 | a split always gives at least one piece |
| FileSelection.JoinSplitSep | src/ui/file_selector.py:152 | joining the pieces of `data.split('} {')` with the separator gives the data back |
| FileSelection.JoinSplitSepAtSep | src/ui/file_selector.py:152 | the round trip over a leading separator |
| FileSelection.JoinSplitSepAtChar | src/ui/file_selector.py:152 | the round trip over a leading character that does not start a separator |
| FileSelection.SplitSepLead | src/ui/file_selector.py:152 | text before the first separator is the first piece |
| FileSelection.SplitSepNone | src/ui/file_selector.py:152 | text without the separator is one piece |
| FileSelection.SplitSepJoin | src/ui/file_selector.py:152 | pieces joined with the separator split back into those pieces when none holds it |
| FileSelection.TrimBracesLeft | src/ui/file_selector.py:154 | the result does not start with a brace |
| FileSelection.TrimBracesRight | src/ui/file_selector.py:154 | the result does not end with a brace |
| FileSelection.DropPartOfWrapped | src/ui/file_selector.py:154 | a clean path with braces around it loses only the braces |
| FileSelection.KeepParts | src/ui/file_selector.py:153-156 | only non-empty paths are kept |
| FileSelection.KeepBracedParts | src/ui/file_selector.py:153-156 | the loop keeps each piece's path, braces and whitespace trimmed, when it is not empty |
| FileSelection.KeepPartsFront | src/ui/file_selector.py:153-156 | the piece at a position is kept or dropped before the rest |
| FileSelection.ParseDropData | src/ui/file_selector.py:137-161 | data opening a brace is split at "} {" and trimmed, other data is split at whitespace |
| FileSelection.KeepPartsClean | src/ui/file_selector.py:154-156 | every path of the brace branch is non-empty and has no whitespace around it |
| FileSelection.DropFilesClean | src/ui/file_selector.py:137-161 | every path read from drop data is non-empty and has no whitespace around it |
| FileSelection.KeepTokens | src/ui/file_selector.py:159 | tokens without whitespace are kept as they are |
| FileSelection.PlainDropIsTokens | src/ui/file_selector.py:157-159 | data not opening a brace gives its whitespace-separated words in order |
| FileSelection.BracedDropRoundTrip | src/ui/file_selector.py:150-156 | clean paths each wrapped in braces and separated by spaces are read back as those paths in order |
| FileSelection.WrappedJoin | src/ui/file_selector.py:150-152 | braced data is the wrapped pieces joined with the separator |
| FileSelection.WrappedParts | src/ui/file_selector.py:152 | the wrapped pieces do not hold the separator, so the split gives them back |
| FileSelection.WrappedKept | src/ui/file_selector.py:153-156 | each wrapped piece gives back its path |
| FileSelection.MixedDropAsWritten | src/ui/file_selector.py:150-156 | a braced path followed by a plain one, such as "{/a b.pdf} /c.pdf", is read as the single path "/a b.pdf} /c.pdf" |
| FileSelection.TclStep | src/ui/file_selector.py:137-161 | a written path followed by a space or the end is read back first |
| FileSelection.TclPlain | src/ui/file_selector.py:157-159 | a path without whitespace is read as one word |
| FileSelection.TclBraced | src/ui/file_selector.py:150-156 | a path in braces is read as one word without them |
| FileSelection.TclRoundTrip | src/ui/file_selector.py:137-161 | any brace-free paths written as a Tcl list, braced only when they hold whitespace, are read back exactly, in order |
| FileSelection.MixedDropCorrected | src/ui/file_selector.py:150-156 | the corrected reading gives the two paths of the mixed drop |
| FileSelection.SelectionError | src/ui/file_selector.py:163-180 | a path is taken exactly when it exists and ends in .pdf or .docx, ignoring case; a missing file is reported first |
| FileSelection.SelectionWithinFactory | src/ui/file_selector.py:175-180 | every file the selector takes has a parser, while an existing .doc file has a parser but is refused |
| FileSelection.FileSelector.constructor | src/ui/file_selector.py:218-235 | a fresh selector has no file, no error and no callback |
| FileSelection.FileSelector.SelectFile | src/ui/file_selector.py:163-193 | a refused path shows its error and changes nothing else; a taken one clears the error, becomes the current file and is passed to the callback, if any |
| FileSelection.FileSelector.HandleDrop | src/ui/file_selector.py:111-125 | an empty drop changes nothing; otherwise only the first dropped path is selected |
| FileSelection.FileSelector.SetFile | src/ui/file_selector.py:218-225 | the path becomes current without any check |
| FileSelection.FileSelector.Clear | src/ui/file_selector.py:227-235 | no current file and no error afterwards |
| FileSelection.FileSelector.OnFileSelected | src/ui/file_selector.py:251-257 | a callback is registered and nothing else changes |

## Left out

- File system, clocks and processes: reading and writing files, `os.path.exists`, file sizes and permissions (`Document.validate_exists`, `validate_readable`, `validate_size`, `_check_file_exists`), the configuration file's JSON load and save and its backup, `Configuration.validate_paths` and `get_default`, `OutputGenerator.generate`, the processing logger, and the antiword subprocess. Whether a file exists, what a library read from a file, the validation verdict and the current time are parameters.
- The PDF parser and the libraries behind the DOCX and DOC parsers (python-docx, antiword, the OLE encryption flag, the encoding loop): foreign code. Their output is a parameter of the parsers' models.
- Threads, locks and timers: `ThreadCoordinator` is modelled as sequential steps, with the worker's finish as an explicit step. `wait_for_completion` and the 100 ms poll timer are not modelled.
- `StateManager.update_state`: it applies an arbitrary callback. Observer callbacks are identities, and a set of them is marked as raising.
- Tk widgets and display: the icon and label updates of the file selector, `_show_error`/`_show_success` beyond recording the message, `_handle_drag_enter`/`_handle_drag_leave`, and every `print` and `logging` call.
- Controller handlers other than adding a keyword, loading a preset, starting an extraction and polling: file selection, keyword removal and clearing, history selection, preset creation, settings and folder changes, `get_worker_messages` and `_on_state_changed`. They only delegate to the state manager and configuration methods, which are modelled.
- Controller.AppController.OnPresetLoaded: `Configuration.get_preset_by_name` does not exist in models/configuration.py, so the preset's keyword texts (or their absence) are a parameter. As written, every preset load fails with "Error loading preset: 'Configuration' object has no attribute 'get_preset_by_name'" (src/controllers/app_controller.py:253, 269-270); the model describes the handler as if the method existed.
- Controller.AppController.RunWorker: the engine's result is computed before the stage messages are queued; the queued messages are the same as in the source, because the engine only computes. The logger's events and its finalisation are not modelled; only the log path it gives is a parameter.
- ExtractionEngine.Extract: the personal information it stores is the corrected later-page loop (`PersonalInfoOf`), which stops once first name, last name and ID are present; the source's engine calls the loop as written, which reads every later page (see Findings), so a later page can still fill a middle name or an age that the model leaves empty.
- ExtractionEngine.ExtractOutline: states the corrected personal information, as `ExtractionEngine.Extract` does; `PersonalInfoExtractor.PersonalInfoAsWritten` is the as-written value.
- ExtractionEngine.AddPersonalInfo: stores the corrected personal information, as `ExtractionEngine.Extract` does.
- PersonalInfoExtractor.ReadLaterPages: the loop stops once first name, last name and ID are present, the evidently intended test, not the stale `is_complete` field the source tests (see Findings).
- Results.ExtractionResults: the source appends to one results object in place, and the controller attaches the output and log paths to that same object. The model passes results by value, so in-place update and aliasing of the results object are not captured; every holder sees the value it was given.
- Controller.AppController.OnExtractClicked: the second check of `start_processing` cannot fail after `can_start_extraction` succeeded, so its error path is not modelled; the logger is left out.
- OutputGenerator.AddSemicolonIfNumeric: `float()` is modelled as a recogniser of ASCII float literals (sign, digits with single underscores, fraction, exponent, inf/infinity/nan); other Unicode digits and whitespace are not.
- OutputGenerator.FormatReportSections: the document header, the personal-information block, the processing summary and `generate_filename` are not modelled. The personal-information block and the file name call `full_name` and `get_abbreviated_name`, which models/personal_information.py does not define. The summary prints a float time.
- FileSelection.FileSelector.HandleDrop: the first path is read with the corrected Tcl-list reader `TclWords` rather than `_parse_drop_data` as written (see Findings); `ParseDropData` models the code as written.
- PersonalInfoExtractor.ExtractPersonalInfo: it models the evidently intended early stop, not the stale completeness test (see Findings); `PersonalInfoAsWritten` models the code as written.
- `get_file` is the field read `FileSelector.File`; `set_file` and `clear` do not model the display update.
- Keyword `sanitize_for_regex`, `to_regex_pattern`, `__str__` and `__repr__`; the matcher's compiled pattern is modelled directly as a whole-word scanner.
- KeywordHistory `to_list`, `__len__`, `__contains__`, `__iter__` and `__repr__` (field reads and copies); `LogEntry.format`.
- BatchResults: `get_total_processing_time` sums floats and the batch's timestamp is a clock reading; neither is modelled.
- ProcessingLogs.ProcessingLog.Finalize: like the source, it does not check the status it records.
- Windows paths: drive letters, backslash separators and `PureWindowsPath` are not modelled; paths are POSIX.
- Unicode: `\d`, `\s`, `\w` and `lower()` are approximated by ASCII and the Cyrillic block, as said above.
- Floating-point `processing_time` and durations are carried as values and never computed.

## Findings

| source | as written | input that shows it | evidently intended | confidence | as-written member | corrected member |
|---|---|---|---|---|---|---|
| src/extractors/personal_info_extractor.py:103-105 | the later-page loop stops when the stored `is_complete` field is true, but that field is only computed at construction and the loop's field assignments never update it, so the loop never stops early | page 1 has a first name and an ID; page 2 is "Surname:B" and page 3 is "Patronymic:C": the loop still reads page 3 and takes the middle name "C" | stop at the first later page after which first name, last name and ID are all present, and read no further pages | not executed; the model shows the loop as written never stops early | PersonalInfoExtractor.StaleFlagCounterexample | PersonalInfoExtractor.FillIgnoresPagesAfterCompletion |
| src/ui/file_selector.py:150-156 | drop data that starts with "{" is split only at "} {", so a braced path followed by a plain path is never split | "{/a b.pdf} /c.pdf", which Tk produces when only the first path contains a space, is read as the single path "/a b.pdf} /c.pdf", and the drop is refused as a missing file | read the data as a Tcl list, which gives "/a b.pdf" and "/c.pdf" and selects "/a b.pdf" | not executed; Tk's braced list format is assumed | FileSelection.MixedDropAsWritten | FileSelection.TclRoundTrip |
