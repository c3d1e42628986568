/**
 * The keyword history kept across sessions: keyword texts, most recent last, compared ignoring
 * case, and at most `maxSize` of them (models/keyword_history.py).
 */
module KeywordHistories {
  import opened Wrappers
  import opened Text
  import opened Histories

  /** The `max_size` default. */
  const DefaultMaxSize: int := 1000

  /** What `add` makes of the entries: nothing when the stripped text is empty or longer than
      100 characters; otherwise the first entry equal to it ignoring case taken out, the text
      appended, and, when that makes more than `maxSize` entries, `entries[-maxSize:]` kept. */
  function Added(entries: seq<string>, keyword: string, maxSize: int): Option<seq<string>> {
    var k := Strip(keyword);
    if k == [] || |k| > 100 then None
    else
      var grown := Removed(entries, k) + [k];
      Some(Bounded(grown, maxSize))
  }

  /** The trim at the end of `add`: `xs[-maxSize:]` once there are more than `maxSize`. */
  function Bounded(xs: seq<string>, maxSize: int): seq<string> {
    if |xs| > maxSize then TailSlice(xs, maxSize) else xs
  }

  /** Trimming a non-empty list without duplicates to a positive size keeps its last entry
      and its newest entries, in order, and no duplicates. */
  lemma BoundedMeaning(xs: seq<string>, maxSize: int)
    requires xs != [] && maxSize >= 1 && CaselessUnique(xs)
    ensures var r := Bounded(xs, maxSize);
      r != [] && r[|r| - 1] == xs[|xs| - 1] && |r| <= maxSize && CaselessUnique(r)
      && r == TailSlice(xs, |r|)
  {
    var r := Bounded(xs, maxSize);
    assert r == xs[|xs| - |r|..];
    SuffixUnique(xs, |xs| - |r|);
  }

  /** What `add` promises: it refuses exactly the texts that strip to nothing or to more than
      100 characters. Otherwise, for a history without case-insensitive duplicates, the text
      ends up last and once, the history stays free of duplicates, every other entry equal to
      it is gone, the others keep their order with only the oldest dropped, and at most
      `maxSize` entries remain. */
  lemma AddedMeaning(entries: seq<string>, keyword: string, maxSize: int)
    requires CaselessUnique(entries)
    ensures Added(entries, keyword, maxSize).None? <==> Strip(keyword) == [] || |Strip(keyword)| > 100
    ensures Added(entries, keyword, maxSize).Some? && maxSize >= 1 ==>
      var r := Added(entries, keyword, maxSize).value;
      var k := Strip(keyword);
      r != [] && r[|r| - 1] == k && |r| <= maxSize && CaselessUnique(r)
      && r == TailSlice(WithoutCaseless(entries, k) + [k], |r|)
  {
    var k := Strip(keyword);
    if k != [] && |k| <= 100 && maxSize >= 1 {
      RemovedMeaning(entries, k);
      var others := WithoutCaseless(entries, k);
      AppendAbsentUnique(others, k);
      BoundedMeaning(others + [k], maxSize);
    }
  }

  /** Appending a text no entry equals keeps the list free of duplicates. */
  lemma AppendAbsentUnique(xs: seq<string>, k: string)
    requires CaselessUnique(xs) && forall i :: 0 <= i < |xs| ==> LowerStr(xs[i]) != LowerStr(k)
    ensures CaselessUnique(xs + [k])
  {
    var g := xs + [k];
    forall i, j | 0 <= i < j < |g| ensures LowerStr(g[i]) != LowerStr(g[j]) {
      assert g[i] == xs[i];
    }
  }

  /** A suffix of a list without duplicates has none. */
  lemma SuffixUnique(xs: seq<string>, from: nat)
    requires CaselessUnique(xs) && from <= |xs|
    ensures CaselessUnique(xs[from..])
  {
    var s := xs[from..];
    forall i, j | 0 <= i < j < |s| ensures LowerStr(s[i]) != LowerStr(s[j]) {
      assert s[i] == xs[from + i] && s[j] == xs[from + j];
    }
  }

  /** What `remove` makes of the entries: the first entry equal to `keyword` ignoring case
      taken out, if there is one. */
  function Removed(entries: seq<string>, keyword: string): seq<string> {
    var matching := Matching(entries, keyword);
    if matching != [] then RemoveValue(entries, matching[0]) else entries
  }

  /** `remove` takes out an entry exactly when one matches; in a history without
      case-insensitive duplicates that removes every match and keeps the rest in order. */
  lemma RemovedMeaning(entries: seq<string>, keyword: string)
    ensures |Removed(entries, keyword)| == if InHistory(entries, keyword) then |entries| - 1 else |entries|
    ensures !InHistory(entries, keyword) ==> Removed(entries, keyword) == entries
    ensures CaselessUnique(entries) ==>
      Removed(entries, keyword) == WithoutCaseless(entries, keyword)
      && !InHistory(Removed(entries, keyword), keyword) && CaselessUnique(Removed(entries, keyword))
  {
    MatchingNonEmpty(entries, keyword);
    if CaselessUnique(entries) {
      if InHistory(entries, keyword) {
        RemoveFirstMatchOfUnique(entries, keyword);
      } else {
        WithoutCaselessOfAbsent(entries, keyword);
      }
      var r := WithoutCaseless(entries, keyword);
      WithoutCaselessUnique(entries, keyword);
      assert !InHistory(r, keyword);
    }
  }

  /** What `get_recent(count)` returns: `entries[-count:]` when `count` is below the number
      of entries, otherwise a copy of all of them. */
  function Recent(entries: seq<string>, count: int): seq<string> {
    if count < |entries| then TailSlice(entries, count) else entries
  }

  /** For a positive count, the last `count` entries, or all when there are fewer. Python's
      slice makes a count of 0 return every entry, and a negative count drop that many from
      the front. */
  lemma RecentMeaning(entries: seq<string>, count: int)
    ensures count > 0 ==>
      Recent(entries, count) == entries[|entries| - (if count < |entries| then count else |entries|)..]
    ensures count == 0 ==> Recent(entries, count) == entries
    ensures count < 0 ==> Recent(entries, count) == entries[if -count < |entries| then -count else |entries|..]
  {
  }

  /** `select_multiple`: for each requested text in order, the history's own spelling of the
      first entry equal to it ignoring case, when there is one. */
  function Selection(entries: seq<string>, requested: seq<string>): seq<string>
    decreases |requested|
  {
    if requested == [] then []
    else
      var last := requested[|requested| - 1];
      var matching := Matching(entries, last);
      Selection(entries, requested[..|requested| - 1]) + (if matching != [] then [matching[0]] else [])
  }

  /** No more texts are selected than requested, and every selected text is an entry of
      the history equal to some requested text ignoring case. */
  lemma {:induction false} SelectionFromHistory(entries: seq<string>, requested: seq<string>)
    ensures var r := Selection(entries, requested);
      |r| <= |requested| && forall i :: 0 <= i < |r| ==> r[i] in entries && InHistory(requested, r[i])
    decreases |requested|
  {
    if requested != [] {
      var init := requested[..|requested| - 1];
      SelectionFromHistory(entries, init);
      var prev := Selection(entries, init);
      var r := Selection(entries, requested);
      forall i | 0 <= i < |r| ensures r[i] in entries && InHistory(requested, r[i]) {
        if i < |prev| {
          var j :| 0 <= j < |init| && LowerStr(init[j]) == LowerStr(prev[i]);
          assert requested[j] == init[j];
        } else {
          assert LowerStr(requested[|requested| - 1]) == LowerStr(r[i]);
        }
      }
    }
  }

  /** When every requested text is in the history, one text is selected per request, in the
      order requested, each the history's spelling of it. */
  lemma {:induction false} SelectionComplete(entries: seq<string>, requested: seq<string>)
    requires forall j :: 0 <= j < |requested| ==> InHistory(entries, requested[j])
    ensures var r := Selection(entries, requested);
      |r| == |requested| && forall i :: 0 <= i < |r| ==> r[i] in entries && LowerStr(r[i]) == LowerStr(requested[i])
    decreases |requested|
  {
    if requested != [] {
      var init := requested[..|requested| - 1];
      var last := requested[|requested| - 1];
      forall j | 0 <= j < |init| ensures InHistory(entries, init[j]) {
        assert init[j] == requested[j];
      }
      SelectionComplete(entries, init);
      MatchingNonEmpty(entries, last);
      var prev := Selection(entries, init);
      var m := Matching(entries, last)[0];
      assert Selection(entries, requested) == prev + [m];
      SpellingsExtend(entries, requested, prev, m);
    }
  }

  /** One more request answered with its own spelling extends the answers so far. */
  lemma SpellingsExtend(entries: seq<string>, requested: seq<string>, prev: seq<string>, m: string)
    requires |requested| > 0 && |prev| == |requested| - 1
    requires forall i :: 0 <= i < |prev| ==> prev[i] in entries && LowerStr(prev[i]) == LowerStr(requested[i])
    requires m in entries && LowerStr(m) == LowerStr(requested[|requested| - 1])
    ensures forall i :: 0 <= i < |requested| ==>
      (prev + [m])[i] in entries && LowerStr((prev + [m])[i]) == LowerStr(requested[i])
  {
  }

  /** The keyword history. */
  class KeywordHistory {
    /** The entries, most recent last. */
    var keywords: seq<string>
    const maxSize: int

    constructor(keywords: seq<string>, maxSize: int)
      ensures this.keywords == keywords && this.maxSize == maxSize
    {
      this.keywords := keywords;
      this.maxSize := maxSize;
    }

    /** `add`: false, with nothing changed, for a text that strips to nothing or to more than
        100 characters; otherwise the entries become `Added` of them. */
    method Add(keyword: string) returns (added: bool)
      modifies this
      ensures added <==> Added(old(keywords), keyword, maxSize).Some?
      ensures keywords == if added then Added(old(keywords), keyword, maxSize).value else old(keywords)
    {
      var k := Strip(keyword);
      if k == [] || |k| > 100 {
        return false;
      }
      var existing := Matching(keywords, k);
      if existing != [] {
        keywords := RemoveValue(keywords, existing[0]);
      }
      keywords := keywords + [k];
      if |keywords| > maxSize {
        keywords := TailSlice(keywords, maxSize);
      }
      return true;
    }

    /** `remove`: true, with the first matching entry removed, when one matches. */
    method Remove(keyword: string) returns (removed: bool)
      modifies this
      ensures removed <==> InHistory(old(keywords), keyword)
      ensures keywords == Removed(old(keywords), keyword)
    {
      var matching := Matching(keywords, keyword);
      MatchingNonEmpty(keywords, keyword);
      if matching != [] {
        keywords := RemoveValue(keywords, matching[0]);
        return true;
      }
      return false;
    }

    /** `contains`: membership ignoring case. */
    predicate Contains(keyword: string)
      reads this
    {
      InHistory(keywords, keyword)
    }

    /** `get_recent`. */
    function GetRecent(count: int): seq<string>
      reads this
    {
      Recent(keywords, count)
    }

    /** `clear`. */
    method Clear()
      modifies this
      ensures keywords == []
    {
      keywords := [];
    }

    /** `select_multiple`: the loop over the requested texts. */
    method SelectMultiple(requested: seq<string>) returns (selected: seq<string>)
      ensures selected == Selection(keywords, requested)
    {
      selected := [];
      var i := 0;
      while i < |requested|
        invariant 0 <= i <= |requested|
        invariant selected == Selection(keywords, requested[..i])
      {
        var matching := Matching(keywords, requested[i]);
        assert requested[..i + 1][..i] == requested[..i];
        if matching != [] {
          selected := selected + [matching[0]];
        }
        i := i + 1;
      }
      assert requested[..i] == requested;
    }
  }

  /** After a successful `add` the stripped text is in the history. */
  lemma ContainsAfterAdd(entries: seq<string>, keyword: string, maxSize: int)
    requires CaselessUnique(entries) && maxSize >= 1 && Added(entries, keyword, maxSize).Some?
    ensures InHistory(Added(entries, keyword, maxSize).value, Strip(keyword))
  {
    AddedMeaning(entries, keyword, maxSize);
    var r := Added(entries, keyword, maxSize).value;
    assert LowerStr(r[|r| - 1]) == LowerStr(Strip(keyword));
  }
}
