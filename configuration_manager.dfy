/**
 * The parts of the configuration manager (services/configuration_manager.py) that are not
 * file I/O: the keyword-history checks of `validate`, the filter `load` applies to the saved
 * presets, and the fallback to default paths after a failed validation.
 */
module ConfigManager {
  import opened Wrappers
  import opened Text
  import opened Histories
  import opened Paths

  // ------------------------------------------------------------------ validate

  /** A history entry `validate` rejects: empty or longer than 100 characters. */
  predicate BadKeyword(keyword: string) { keyword == [] || |keyword| > 100 }

  function InvalidMessage(keyword: string): string { "Invalid keyword in history: '" + keyword + "'" }

  function DuplicateMessage(keyword: string): string { "Duplicate keyword in history: '" + keyword + "'" }

  /** The errors of the first loop of `validate`: one per rejected entry, in order. */
  function InvalidErrors(history: seq<string>): seq<string>
    decreases |history|
  {
    if history == [] then []
    else
      var last := history[|history| - 1];
      InvalidErrors(history[..|history| - 1]) + (if BadKeyword(last) then [InvalidMessage(last)] else [])
  }

  /** The errors of the second loop of `validate`: one per entry whose lower-case form an
      earlier entry already had, in order. */
  function DuplicateErrors(history: seq<string>): seq<string>
    decreases |history|
  {
    if history == [] then []
    else
      var init := history[..|history| - 1];
      var last := history[|history| - 1];
      DuplicateErrors(init) + (if InHistory(init, last) then [DuplicateMessage(last)] else [])
  }

  /** The lower-case forms of the entries: the `seen` set of the second loop. */
  function LowerForms(history: seq<string>): set<string> {
    set i | 0 <= i < |history| :: LowerStr(history[i])
  }

  /** `validate`, given the errors `validate_paths` reported: the path errors, then the
      rejected entries, then the duplicates; valid exactly when there are none. */
  method Validate(pathErrors: seq<string>, history: seq<string>) returns (isValid: bool, errors: seq<string>)
    ensures errors == pathErrors + InvalidErrors(history) + DuplicateErrors(history)
    ensures isValid <==> errors == []
  {
    errors := AppendInvalid(pathErrors, history);
    errors := AppendDuplicates(errors, history);
    isValid := |errors| == 0;
  }

  /** The first loop of `validate`. */
  method AppendInvalid(errors0: seq<string>, history: seq<string>) returns (errors: seq<string>)
    ensures errors == errors0 + InvalidErrors(history)
  {
    errors := errors0;
    var i := 0;
    while i < |history|
      invariant 0 <= i <= |history|
      invariant errors == errors0 + InvalidErrors(history[..i])
    {
      assert history[..i + 1][..i] == history[..i];
      if BadKeyword(history[i]) {
        errors := errors + [InvalidMessage(history[i])];
      }
      i := i + 1;
    }
    assert history[..i] == history;
  }

  /** The second loop of `validate`, with its `seen` set. */
  method AppendDuplicates(errors0: seq<string>, history: seq<string>) returns (errors: seq<string>)
    ensures errors == errors0 + DuplicateErrors(history)
  {
    errors := errors0;
    var seen: set<string> := {};
    var j := 0;
    while j < |history|
      invariant 0 <= j <= |history|
      invariant seen == LowerForms(history[..j])
      invariant errors == errors0 + DuplicateErrors(history[..j])
    {
      var prefix := history[..j];
      assert history[..j + 1][..j] == prefix;
      SeenMeansEarlier(prefix, history[j]);
      var lowered := LowerStr(history[j]);
      if lowered in seen {
        errors := errors + [DuplicateMessage(history[j])];
      }
      seen := seen + {lowered};
      assert LowerForms(history[..j + 1]) == LowerForms(prefix) + {lowered} by {
        assert history[..j + 1] == prefix + [history[j]];
      }
      j := j + 1;
    }
    assert history[..j] == history;
  }

  /** The `seen` test is the "appeared earlier" test. */
  lemma SeenMeansEarlier(earlier: seq<string>, keyword: string)
    ensures LowerStr(keyword) in LowerForms(earlier) <==> InHistory(earlier, keyword)
  {
    if InHistory(earlier, keyword) {
      var i :| 0 <= i < |earlier| && LowerStr(earlier[i]) == LowerStr(keyword);
      assert LowerStr(earlier[i]) in LowerForms(earlier);
    }
  }

  /** The first loop finds nothing exactly when every entry has 1 to 100 characters. */
  lemma {:induction false} InvalidErrorsEmpty(history: seq<string>)
    ensures InvalidErrors(history) == [] <==> forall i :: 0 <= i < |history| ==> !BadKeyword(history[i])
    ensures |InvalidErrors(history)| <= |history|
    decreases |history|
  {
    if history != [] {
      var init := history[..|history| - 1];
      InvalidErrorsEmpty(init);
      assert forall i :: 0 <= i < |init| ==> init[i] == history[i];
    }
  }

  /** The second loop finds nothing exactly when no two entries are equal ignoring case. */
  lemma {:induction false} DuplicateErrorsEmpty(history: seq<string>)
    ensures DuplicateErrors(history) == [] <==> CaselessUnique(history)
    ensures |DuplicateErrors(history)| <= |history|
    decreases |history|
  {
    if history != [] {
      DuplicateErrorsEmpty(history[..|history| - 1]);
      UniqueByLast(history);
    }
  }

  /** A list has no duplicates exactly when the entries before its last have none and none
      of them equals the last. */
  lemma UniqueByLast(history: seq<string>)
    requires history != []
    ensures var init := history[..|history| - 1];
      CaselessUnique(history) <==> CaselessUnique(init) && !InHistory(init, history[|history| - 1])
  {
    var init := history[..|history| - 1];
    var last := history[|history| - 1];
    assert forall i :: 0 <= i < |init| ==> init[i] == history[i];
    if CaselessUnique(init) && !InHistory(init, last) {
      forall i, j | 0 <= i < j < |history| ensures LowerStr(history[i]) != LowerStr(history[j]) {
        if j < |init| {
          assert LowerStr(init[i]) != LowerStr(init[j]);
        } else {
          assert LowerStr(init[i]) != LowerStr(last);
        }
      }
    }
  }

  /** A history that `add` of the keyword history builds (no duplicates, every entry of 1 to
      100 characters) passes both history checks. */
  lemma ValidHistoryPasses(pathErrors: seq<string>, history: seq<string>)
    requires CaselessUnique(history)
    requires forall i :: 0 <= i < |history| ==> 1 <= |history[i]| <= 100
    ensures pathErrors + InvalidErrors(history) + DuplicateErrors(history) == pathErrors
  {
    InvalidErrorsEmpty(history);
    DuplicateErrorsEmpty(history);
  }

  // ------------------------------------------------------------------ presets

  /** The JSON values `json.load` produces, objects as maps (a repeated key keeps its last
      value, as `json.load` does). */
  datatype JsonValue =
    | JNull
    | JBool(b: bool)
    | JNumber(n: int)
    | JString(s: string)
    | JList(items: seq<JsonValue>)
    | JObject(fields: map<string, JsonValue>)

  /** A saved preset `load` keeps: an object with a `name` and a list under `keywords`. */
  predicate WellFormedPreset(preset: JsonValue) {
    preset.JObject? && "name" in preset.fields && "keywords" in preset.fields
    && preset.fields["keywords"].JList?
  }

  /** The presets `load` keeps, in their order. */
  function ValidPresets(presets: seq<JsonValue>): seq<JsonValue>
    decreases |presets|
  {
    if presets == [] then []
    else
      var last := presets[|presets| - 1];
      ValidPresets(presets[..|presets| - 1]) + (if WellFormedPreset(last) then [last] else [])
  }

  /** The preset loop of `load`. */
  method FilterPresets(presets: seq<JsonValue>) returns (valid: seq<JsonValue>)
    ensures valid == ValidPresets(presets)
  {
    valid := [];
    var i := 0;
    while i < |presets|
      invariant 0 <= i <= |presets|
      invariant valid == ValidPresets(presets[..i])
    {
      assert presets[..i + 1][..i] == presets[..i];
      if WellFormedPreset(presets[i]) {
        valid := valid + [presets[i]];
      }
      i := i + 1;
    }
    assert presets[..i] == presets;
  }

  /** The filter keeps a preset exactly when it is well formed, and nothing else. */
  lemma {:induction false} ValidPresetsMembers(presets: seq<JsonValue>, p: JsonValue)
    ensures p in ValidPresets(presets) <==> p in presets && WellFormedPreset(p)
    decreases |presets|
  {
    if presets != [] {
      var init := presets[..|presets| - 1];
      ValidPresetsMembers(init, p);
      assert presets == init + [presets[|presets| - 1]];
    }
  }

  /** The filter works piece by piece, so the kept presets keep their relative order. */
  lemma {:induction false} ValidPresetsAppend(a: seq<JsonValue>, b: seq<JsonValue>)
    ensures ValidPresets(a + b) == ValidPresets(a) + ValidPresets(b)
    decreases |b|
  {
    if b != [] {
      var binit := b[..|b| - 1];
      ValidPresetsAppend(a, binit);
      assert (a + b)[..|a + b| - 1] == a + binit;
      assert (a + b)[|a + b| - 1] == b[|b| - 1];
    } else {
      assert a + b == a;
    }
  }

  /** When every preset is well formed, all are kept. */
  lemma {:induction false} ValidPresetsOfValid(presets: seq<JsonValue>)
    requires forall i :: 0 <= i < |presets| ==> WellFormedPreset(presets[i])
    ensures ValidPresets(presets) == presets
    decreases |presets|
  {
    if presets != [] {
      var init := presets[..|presets| - 1];
      forall i | 0 <= i < |init| ensures WellFormedPreset(init[i]) {
        assert init[i] == presets[i];
      }
      ValidPresetsOfValid(init);
    }
  }

  // ------------------------------------------------------------------ path fallback

  /** A folder `load` keeps after validation: any folder when validation passed, otherwise
      the default in place of an empty or relative one. */
  function FallbackPath(path: string, isValid: bool, default: string): (r: string)
    ensures isValid ==> r == path
    ensures !isValid ==> (r == path <==> IsAbsolutePath(path) || path == default)
    ensures !isValid && IsAbsolutePath(default) ==> IsAbsolutePath(r)
  {
    if !isValid && (path == [] || !IsAbsolutePath(path)) then default else path
  }
}
