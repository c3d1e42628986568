/**
 * The settings persisted across sessions (models/configuration.py): the construction checks
 * and the keyword-history operations. Timestamps come from the clock in the source; here the
 * caller passes the current time as text.
 */
module Configurations {
  import opened Wrappers
  import opened Text
  import opened Histories
  import KeywordHistories

  /** The most entries the configuration keeps in its keyword history. */
  const MaxHistory: int := 1000

  /** The messages of the `ValueError`s `__post_init__` raises. */
  function NumberFormatMessage(numberFormat: string): string {
    "Invalid number_format: " + numberFormat + ". Must be 'us_uk'"
  }

  function ProximityRuleMessage(proximityRule: string): string {
    "Invalid proximity_rule: " + proximityRule + ". Must be 'next_number'"
  }

  function WidthMessage(windowWidth: int): string {
    "Window width must be between 600 and 3840, got: " + IntToString(windowWidth)
  }

  function HeightMessage(windowHeight: int): string {
    "Window height must be between 400 and 2160, got: " + IntToString(windowHeight)
  }

  /** The error `__post_init__` raises, if any: the checks run in the order number format,
      proximity rule, window width, window height, and the first that fails raises. */
  function ConfigError(numberFormat: string, proximityRule: string, windowWidth: int, windowHeight: int): Option<string> {
    if numberFormat != "us_uk" then Some(NumberFormatMessage(numberFormat))
    else if proximityRule != "next_number" then Some(ProximityRuleMessage(proximityRule))
    else if windowWidth < 600 || windowWidth > 3840 then Some(WidthMessage(windowWidth))
    else if windowHeight < 400 || windowHeight > 2160 then Some(HeightMessage(windowHeight))
    else None
  }

  /** A configuration is accepted exactly when the number format is `us_uk`, the proximity
      rule `next_number`, the width within 600..3840 and the height within 400..2160; the
      first failing field decides the message whatever the later ones hold; and the default
      800 by 600 window passes. */
  lemma ConfigErrorMeaning(numberFormat: string, proximityRule: string, windowWidth: int, windowHeight: int)
    ensures ConfigError(numberFormat, proximityRule, windowWidth, windowHeight).None?
      <==> numberFormat == "us_uk" && proximityRule == "next_number"
           && 600 <= windowWidth <= 3840 && 400 <= windowHeight <= 2160
    ensures numberFormat != "us_uk" ==>
      ConfigError(numberFormat, proximityRule, windowWidth, windowHeight) == Some(NumberFormatMessage(numberFormat))
    ensures numberFormat == "us_uk" && proximityRule != "next_number" ==>
      ConfigError(numberFormat, proximityRule, windowWidth, windowHeight) == Some(ProximityRuleMessage(proximityRule))
    ensures numberFormat == "us_uk" && proximityRule == "next_number" && !(600 <= windowWidth <= 3840) ==>
      ConfigError(numberFormat, proximityRule, windowWidth, windowHeight) == Some(WidthMessage(windowWidth))
    ensures numberFormat == "us_uk" && proximityRule == "next_number" && 600 <= windowWidth <= 3840 ==>
      ConfigError(numberFormat, proximityRule, windowWidth, windowHeight)
        == if 400 <= windowHeight <= 2160 then None else Some(HeightMessage(windowHeight))
    ensures ConfigError("us_uk", "next_number", 800, 600).None?
  {
  }

  /** What `add_keyword_to_history` makes of the history: every entry equal to the stripped
      text ignoring case taken out, the stripped text appended, the newest 1000 kept. */
  function WithKeyword(history: seq<string>, keyword: string): seq<string> {
    var k := Strip(keyword);
    KeywordHistories.Bounded(WithoutCaseless(history, k) + [k], MaxHistory)
  }

  /** The stripped text is the newest entry and no other entry equals it ignoring case; the
      others are the history's entries that differ from it, in their order, with only the
      oldest dropped; there are at most 1000 entries; and a history without duplicates stays
      so. */
  lemma WithKeywordMeaning(history: seq<string>, keyword: string)
    ensures var r := WithKeyword(history, keyword); var k := Strip(keyword);
      r != [] && r[|r| - 1] == k && |r| <= MaxHistory
      && (forall i :: 0 <= i < |r| - 1 ==> LowerStr(r[i]) != LowerStr(k) && r[i] in history)
      && r == TailSlice(WithoutCaseless(history, k) + [k], |r|)
    ensures CaselessUnique(history) ==> CaselessUnique(WithKeyword(history, keyword))
  {
    var k := Strip(keyword);
    var others := WithoutCaseless(history, k);
    var grown := others + [k];
    var r := WithKeyword(history, keyword);
    assert r == grown[|grown| - |r|..];
    forall i | 0 <= i < |r| - 1 ensures LowerStr(r[i]) != LowerStr(k) && r[i] in history {
      assert r[i] == others[|grown| - |r| + i];
    }
    if CaselessUnique(history) {
      WithoutCaselessUnique(history, k);
      KeywordHistories.AppendAbsentUnique(others, k);
      KeywordHistories.BoundedMeaning(grown, MaxHistory);
    }
  }

  /** On a history without duplicates and a text that is neither blank nor longer than 100
      characters, the configuration's `add_keyword_to_history` and the keyword history's
      `add` with the default size produce the same entries. */
  lemma AddAgreesWithKeywordHistory(history: seq<string>, keyword: string)
    requires CaselessUnique(history)
    requires Strip(keyword) != [] && |Strip(keyword)| <= 100
    ensures KeywordHistories.Added(history, keyword, KeywordHistories.DefaultMaxSize) == Some(WithKeyword(history, keyword))
  {
    KeywordHistories.RemovedMeaning(history, Strip(keyword));
  }

  /** After `remove_keyword_from_history` no entry equals the text ignoring case, and an entry
      is kept exactly when it differs from it. */
  lemma WithoutKeywordMeaning(history: seq<string>, keyword: string, x: string)
    ensures !InHistory(WithoutCaseless(history, keyword), keyword)
    ensures x in WithoutCaseless(history, keyword) <==> x in history && LowerStr(x) != LowerStr(keyword)
  {
    WithoutCaselessMembers(history, keyword, x);
  }

  /** The application settings. */
  class Configuration {
    var outputFolder: string
    var logDirectory: string
    var numberFormat: string
    var proximityRule: string
    var keywordHistory: seq<string>
    var windowWidth: int
    var windowHeight: int
    var version: string
    var lastUpdated: string

    /** The settings `__post_init__` accepts. */
    predicate Valid()
      reads this
    {
      ConfigError(numberFormat, proximityRule, windowWidth, windowHeight).None?
    }

    constructor Make(outputFolder: string, logDirectory: string, numberFormat: string, proximityRule: string,
                     keywordHistory: seq<string>, windowWidth: int, windowHeight: int, version: string, lastUpdated: string)
      ensures this.outputFolder == outputFolder && this.logDirectory == logDirectory
      ensures this.numberFormat == numberFormat && this.proximityRule == proximityRule
      ensures this.keywordHistory == keywordHistory
      ensures this.windowWidth == windowWidth && this.windowHeight == windowHeight
      ensures this.version == version && this.lastUpdated == lastUpdated
    {
      this.outputFolder := outputFolder;
      this.logDirectory := logDirectory;
      this.numberFormat := numberFormat;
      this.proximityRule := proximityRule;
      this.keywordHistory := keywordHistory;
      this.windowWidth := windowWidth;
      this.windowHeight := windowHeight;
      this.version := version;
      this.lastUpdated := lastUpdated;
    }

    /** Construction with `__post_init__`: the first failing check's message, or a valid
        configuration holding the given fields, stamped with `now` when no time was given. */
    static method Create(outputFolder: string, logDirectory: string, numberFormat: string, proximityRule: string,
                         keywordHistory: seq<string>, windowWidth: int, windowHeight: int, version: string,
                         lastUpdated: string, now: string)
      returns (r: Result<Configuration>)
      ensures r.Err? <==> ConfigError(numberFormat, proximityRule, windowWidth, windowHeight).Some?
      ensures r.Err? ==> r.error == ConfigError(numberFormat, proximityRule, windowWidth, windowHeight).value
      ensures r.Ok? ==> fresh(r.value) && r.value.Valid()
      ensures r.Ok? ==> r.value.outputFolder == outputFolder && r.value.logDirectory == logDirectory
      ensures r.Ok? ==> r.value.numberFormat == numberFormat && r.value.proximityRule == proximityRule
      ensures r.Ok? ==> r.value.keywordHistory == keywordHistory && r.value.version == version
      ensures r.Ok? ==> r.value.windowWidth == windowWidth && r.value.windowHeight == windowHeight
      ensures r.Ok? ==> r.value.lastUpdated == (if lastUpdated == "" then now else lastUpdated)
    {
      var error := ConfigError(numberFormat, proximityRule, windowWidth, windowHeight);
      if error.Some? {
        return Err(error.value);
      }
      var stamp := if lastUpdated == "" then now else lastUpdated;
      var c := new Configuration.Make(outputFolder, logDirectory, numberFormat, proximityRule,
                                      keywordHistory, windowWidth, windowHeight, version, stamp);
      return Ok(c);
    }

    /** `add_keyword_to_history`: the history becomes `WithKeyword` of it, stamped `now`. */
    method AddKeywordToHistory(keyword: string, now: string)
      modifies this
      ensures keywordHistory == WithKeyword(old(keywordHistory), keyword)
      ensures lastUpdated == now
      ensures outputFolder == old(outputFolder) && logDirectory == old(logDirectory)
      ensures numberFormat == old(numberFormat) && proximityRule == old(proximityRule)
      ensures windowWidth == old(windowWidth) && windowHeight == old(windowHeight) && version == old(version)
    {
      var k := Strip(keyword);
      keywordHistory := WithoutCaseless(keywordHistory, k);
      keywordHistory := keywordHistory + [k];
      if |keywordHistory| > MaxHistory {
        keywordHistory := TailSlice(keywordHistory, MaxHistory);
      }
      lastUpdated := now;
    }

    /** `remove_keyword_from_history`: every entry equal to the text ignoring case taken out
        (the text itself is not stripped), stamped `now`. */
    method RemoveKeywordFromHistory(keyword: string, now: string)
      modifies this
      ensures keywordHistory == WithoutCaseless(old(keywordHistory), keyword)
      ensures lastUpdated == now
      ensures outputFolder == old(outputFolder) && logDirectory == old(logDirectory)
      ensures numberFormat == old(numberFormat) && proximityRule == old(proximityRule)
      ensures windowWidth == old(windowWidth) && windowHeight == old(windowHeight) && version == old(version)
    {
      keywordHistory := WithoutCaseless(keywordHistory, keyword);
      lastUpdated := now;
    }

    /** `clear_keyword_history`. */
    method ClearKeywordHistory(now: string)
      modifies this
      ensures keywordHistory == [] && lastUpdated == now
      ensures outputFolder == old(outputFolder) && logDirectory == old(logDirectory)
      ensures numberFormat == old(numberFormat) && proximityRule == old(proximityRule)
      ensures windowWidth == old(windowWidth) && windowHeight == old(windowHeight) && version == old(version)
    {
      keywordHistory := [];
      lastUpdated := now;
    }
  }
}
