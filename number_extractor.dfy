/**
 * Reading the first number that follows a keyword on its line (extractors/number_extractor.py).
 *
 * NUMBER_PATTERN, `\b\d{1,3}(?:,\d{3})*(?:\.\d+)?\b`, is modelled by a scanner that tries the
 * alternatives in the order Python's backtracking matcher does: every greedy quantifier tries
 * its longest choice first and gives back one step at a time, and `search` returns the match
 * that starts leftmost.
 */
module NumberExtractor {
  import opened Wrappers
  import opened Text
  import opened ExtractorBase
  import opened ExtractionMatches
  import KeywordMatcher

  // ------------------------------------------------------------------ NUMBER_PATTERN

  /** One `,\d{3}` group matches at `q`. */
  predicate GroupAt(s: string, q: nat) { q + 4 <= |s| && s[q] == ',' && AllDigits(s[q + 1..q + 4]) }

  /** `\d+\b` over the digits from `start`, trying the run up to `e` first and then shorter. */
  function FractionDigits(s: string, start: nat, e: nat): (r: Option<nat>)
    requires start <= e <= |s|
    ensures r.Some? ==> start < r.value <= e && Boundary(s, r.value)
    decreases e - start
  {
    if e <= start then None
    else if Boundary(s, e) then Some(e)
    else FractionDigits(s, start, e - 1)
  }

  /** `(?:\.\d+)?\b` at `q`: first with the fraction, then without it. */
  function Tail(s: string, q: nat): (r: Option<nat>)
    requires q <= |s|
    ensures r.Some? ==> q <= r.value <= |s| && Boundary(s, r.value)
  {
    var withFraction :=
      if q < |s| && s[q] == '.' then FractionDigits(s, q + 1, DigitRunEnd(s, q + 1)) else None;
    if withFraction.Some? then withFraction
    else if Boundary(s, q) then Some(q)
    else None
  }

  /** `(?:,\d{3})*` at `q` followed by the tail: one more group first, then stopping here. */
  function Groups(s: string, q: nat): (r: Option<nat>)
    requires q <= |s|
    ensures r.Some? ==> q <= r.value <= |s| && Boundary(s, r.value)
    decreases |s| - q
  {
    if GroupAt(s, q) then
      var more := Groups(s, q + 4);
      if more.Some? then more else Tail(s, q)
    else Tail(s, q)
  }

  /** `\d{1,n}` at `p` followed by the groups and the tail: `n` digits first, then fewer. */
  function Lead(s: string, p: nat, n: nat): (r: Option<nat>)
    requires p <= |s|
    ensures r.Some? ==> p < r.value <= |s| && Boundary(s, r.value)
    decreases n
  {
    if n == 0 then None
    else if DigitsAt(s, p, n) then
      var whole := Groups(s, p + n);
      if whole.Some? then whole else Lead(s, p, n - 1)
    else Lead(s, p, n - 1)
  }

  /** The end of the match of NUMBER_PATTERN that starts at `p`, if there is one. */
  function MatchAt(s: string, p: nat): (r: Option<nat>)
    requires p <= |s|
    ensures r.Some? ==> p < r.value <= |s| && Boundary(s, p) && Boundary(s, r.value)
  {
    if Boundary(s, p) then Lead(s, p, 3) else None
  }

  /** `NUMBER_PATTERN.search(s)` from position `from`: start and end of the leftmost match. */
  function SearchNumber(s: string, from: nat): (r: Option<(nat, nat)>)
    ensures r.Some? ==> from <= r.value.0 < r.value.1 <= |s| && MatchAt(s, r.value.0) == Some(r.value.1)
    decreases |s| - from
  {
    if from >= |s| then None
    else match MatchAt(s, from)
      case Some(e) => Some((from, e))
      case None => SearchNumber(s, from + 1)
  }

  /** The search returns the leftmost match, and finds nothing only when no position matches. */
  lemma {:induction false} SearchNumberLeftmost(s: string, from: nat)
    ensures var r := SearchNumber(s, from);
      r.Some? ==> forall j :: from <= j < r.value.0 ==> MatchAt(s, j).None?
    ensures SearchNumber(s, from).None? ==> forall j :: from <= j <= |s| ==> MatchAt(s, j).None?
    decreases |s| - from
  {
    if from < |s| && MatchAt(s, from).None? {
      SearchNumberLeftmost(s, from + 1);
    }
  }

  // ------------------------------------------------------------------ shapes

  /** `^\d{1,3}(?:,\d{3})*$`: a whole number with optional thousands groups. */
  predicate IntShape(t: string)
    decreases |t|
  {
    (1 <= |t| <= 3 && AllDigits(t))
    || (|t| >= 5 && t[|t| - 4] == ',' && AllDigits(t[|t| - 3..]) && IntShape(t[..|t| - 4]))
  }

  /** `^\d{1,3}(?:,\d{3})+$`: the extractor's strict thousands-separator test. */
  predicate ThousandsShape(t: string) {
    |t| >= 5 && t[|t| - 4] == ',' && AllDigits(t[|t| - 3..]) && IntShape(t[..|t| - 4])
  }

  /** A string NUMBER_PATTERN matches in full: a whole part and an optional fraction. */
  predicate NumberShape(t: string) {
    IntShape(t) || exists d :: 0 < d < |t| - 1 && t[d] == '.' && IntShape(t[..d]) && AllDigits(t[d + 1..])
  }

  lemma {:induction false} IntShapeHasNoDot(t: string)
    requires IntShape(t)
    ensures '.' !in t
    decreases |t|
  {
    if !(1 <= |t| <= 3 && AllDigits(t)) {
      IntShapeHasNoDot(t[..|t| - 4]);
      assert t == t[..|t| - 4] + [','] + t[|t| - 3..];
    }
  }

  lemma {:induction false} TailShape(s: string, p: nat, q: nat)
    requires p < q <= |s| && IntShape(s[p..q]) && Tail(s, q).Some?
    ensures NumberShape(s[p..Tail(s, q).value])
  {
    var e := Tail(s, q).value;
    if e != q {
      var t := s[p..e];
      var d := q - p;
      assert t[d] == '.' && t[..d] == s[p..q] && t[d + 1..] == s[q + 1..e];
      assert AllDigits(s[q + 1..e]) by {
        var run := DigitRunEnd(s, q + 1);
        assert e <= run;
      }
    }
  }

  lemma {:induction false} GroupsShape(s: string, p: nat, q: nat)
    requires p < q <= |s| && IntShape(s[p..q]) && Groups(s, q).Some?
    ensures NumberShape(s[p..Groups(s, q).value])
    decreases |s| - q
  {
    if GroupAt(s, q) && Groups(s, q + 4).Some? {
      var t := s[p..q + 4];
      assert t[..|t| - 4] == s[p..q] && t[|t| - 3..] == s[q + 1..q + 4];
      GroupsShape(s, p, q + 4);
    } else {
      TailShape(s, p, q);
    }
  }

  lemma {:induction false} LeadShape(s: string, p: nat, n: nat)
    requires p <= |s| && n <= 3 && Lead(s, p, n).Some?
    ensures NumberShape(s[p..Lead(s, p, n).value])
    decreases n
  {
    if DigitsAt(s, p, n) && Groups(s, p + n).Some? {
      GroupsShape(s, p, p + n);
    } else {
      LeadShape(s, p, n - 1);
    }
  }

  /** Every number the pattern finds is a whole part of one to three digits, then comma
      groups of three digits, then an optional fraction, standing between word boundaries. */
  lemma MatchShape(s: string, p: nat)
    requires p <= |s| && MatchAt(s, p).Some?
    ensures NumberShape(s[p..MatchAt(s, p).value])
    ensures Boundary(s, p) && Boundary(s, MatchAt(s, p).value)
  {
    LeadShape(s, p, 3);
  }

  /** Four digits in a row never begin a number: `\d{1,3}` cannot stop inside a digit run. */
  lemma NoMatchBeforeFourDigits(s: string, p: nat)
    requires DigitsAt(s, p, 4)
    ensures MatchAt(s, p).None?
  {
    assert IsDigit(s[p..p + 4][1]) && IsDigit(s[p..p + 4][2]) && IsDigit(s[p..p + 4][3]);
    assert IsDigit(s[p..p + 4][0]);
    assert Groups(s, p + 3).None?;
    assert Groups(s, p + 2).None?;
    assert Groups(s, p + 1).None?;
  }

  /** No number starts right after a digit: `\b` fails between two digits. */
  lemma NoMatchAfterDigit(s: string, p: nat)
    requires 0 < p < |s| && IsDigit(s[p - 1]) && IsDigit(s[p])
    ensures MatchAt(s, p).None?
  {
  }

  /** A token that contains a comma and no period always passes the strict thousands test,
      so the "unusual format" branch of the extractor cannot be taken. */
  lemma CommaTokenIsThousands(t: string)
    requires NumberShape(t)
    ensures ',' in t && '.' !in t ==> ThousandsShape(t)
  {
    if ',' in t && '.' !in t {
      assert IntShape(t);
      assert !(1 <= |t| <= 3 && AllDigits(t));
    }
  }

  /** "1,234" is read whole, with its thousands group. */
  lemma GroupedNumberIsWhole()
    ensures SearchNumber(" 1,234", 0) == Some((1, 6))
  {
    var s := " 1,234";
    assert s[0] == ' ' && !Boundary(s, 0);
    assert MatchAt(s, 0).None?;
    GroupedLead();
  }

  lemma GroupedLead()
    ensures MatchAt(" 1,234", 1) == Some(6)
  {
    var s := " 1,234";
    assert s[1] == '1' && s[2] == ',' && Boundary(s, 1);
    NotDigitsAt(s, 1, 3, 2);
    NotDigitsAt(s, 1, 2, 2);
    assert DigitsAt(s, 1, 1);
    assert s[3..6] == "234" && GroupAt(s, 2);
    assert !GroupAt(s, 6) && Tail(s, 6) == Some(6);
    assert Groups(s, 6) == Some(6);
    assert Groups(s, 2) == Some(6);
  }

  /** A non-digit inside the window means `\d{n}` does not match. */
  lemma NotDigitsAt(s: string, p: nat, n: nat, k: nat)
    requires p <= k < p + n && (k < |s| ==> !IsDigit(s[k]))
    ensures !DigitsAt(s, p, n)
  {
    if p + n <= |s| {
      assert s[p..p + n][k - p] == s[k];
    }
  }

  /** In "1234.50" the whole part is four digits, so the first number is the fraction "50". */
  lemma LongWholePartLosesIt()
    ensures SearchNumber(" 1234.50", 0) == Some((6, 8))
  {
    var s := " 1234.50";
    NoMatchBeforeFourDigits(s, 1);
    forall p | 2 <= p <= 4 ensures MatchAt(s, p).None? { NoMatchAfterDigit(s, p); }
    assert MatchAt(s, 0).None?;
    DotStartsNothing();
    FractionMatches();
    assert SearchNumber(s, 6) == Some((6, 8));
    assert SearchNumber(s, 5) == Some((6, 8));
  }

  lemma DotStartsNothing()
    ensures MatchAt(" 1234.50", 5).None?
  {
    var s := " 1234.50";
    assert s[5] == '.';
    NotDigitsAt(s, 5, 3, 5);
    NotDigitsAt(s, 5, 2, 5);
    NotDigitsAt(s, 5, 1, 5);
  }

  lemma FractionMatches()
    ensures MatchAt(" 1234.50", 6) == Some(8)
  {
    var s := " 1234.50";
    assert s[5] == '.' && s[6] == '5' && s[7] == '0';
    assert Boundary(s, 6);
    NotDigitsAt(s, 6, 3, 8);
    assert DigitsAt(s, 6, 2);
    assert !GroupAt(s, 8) && Tail(s, 8) == Some(8);
    assert Groups(s, 8) == Some(8);
  }

  /** In "1,23" the comma does not start a group of three, so the first number is "1". */
  lemma ShortGroupIsDropped()
    ensures SearchNumber(" 1,23 ", 0) == Some((1, 2))
  {
    var s := " 1,23 ";
    assert s[0] == ' ' && !Boundary(s, 0);
    assert MatchAt(s, 0).None?;
    ShortGroupLead();
  }

  lemma ShortGroupLead()
    ensures MatchAt(" 1,23 ", 1) == Some(2)
  {
    var s := " 1,23 ";
    assert s[0] == ' ' && s[1] == '1' && s[2] == ',' && s[5] == ' ';
    assert Boundary(s, 1);
    NotDigitsAt(s, 1, 3, 2);
    NotDigitsAt(s, 1, 2, 2);
    assert DigitsAt(s, 1, 1);
    assert s[3..6][2] == ' ' && !GroupAt(s, 2);
    assert Boundary(s, 2) && Tail(s, 2) == Some(2);
    assert Groups(s, 2) == Some(2);
  }

  // ------------------------------------------------------------------ extraction

  /** Status and warning of a found value: a comma without a period makes it ambiguous. */
  function Classify(value: string): (MatchStatus, Option<string>) {
    if ',' in value && '.' !in value then
      if ThousandsShape(value) then
        (Ambiguous, Some("Number '" + value + "' interpreted as thousands separator. If this is incorrect, please review the document."))
      else
        (Ambiguous, Some("Number '" + value + "' has unusual format and may be ambiguous"))
    else (Found, None)
  }

  function NotFoundFor(km: KeywordMatch): ExtractionMatch {
    ExtractionMatch(km.keyword, "Not found", km.pageNumber, Some(km.lineNumber), NotFound, None)
  }

  /** The text after the keyword, when the keyword is found again in its line. */
  function TextAfterKeyword(km: KeywordMatch): Option<string> {
    match KeywordMatcher.FirstOccurrence(km.lineText, LowerStr(km.keyword))
    case None => None
    case Some(i) => Some(km.lineText[i + |km.keyword|..])
  }

  /** The result for one keyword match: the first number after the keyword's first occurrence
      in its line, classified; or "Not found". */
  function ExtractOne(km: KeywordMatch): (r: ExtractionMatch)
    ensures r.keyword == km.keyword && r.pageNumber == km.pageNumber && r.lineNumber == Some(km.lineNumber)
  {
    match TextAfterKeyword(km)
    case None => NotFoundFor(km)
    case Some(rest) =>
      match SearchNumber(rest, 0)
      case None => NotFoundFor(km)
      case Some((p, e)) =>
        var value := rest[p..e];
        var (status, warning) := Classify(value);
        ExtractionMatch(km.keyword, value, km.pageNumber, Some(km.lineNumber), status, warning)
  }

  /** What one result means: "Not found" exactly when no number follows the keyword; otherwise
      the leftmost number after it, which has the number shape; ambiguous exactly when it has a
      comma and no period, and then always read as a thousands separator. */
  lemma ExtractOneMeaning(km: KeywordMatch)
    ensures var r := ExtractOne(km);
      r.status == NotFound <==> TextAfterKeyword(km).None? || SearchNumber(TextAfterKeyword(km).value, 0).None?
    ensures var r := ExtractOne(km);
      r.status == NotFound ==> r.value == "Not found" && r.warning.None?
    ensures var r := ExtractOne(km);
      r.status != NotFound ==>
        var rest := TextAfterKeyword(km).value;
        var (p, e) := SearchNumber(rest, 0).value;
        r.value == rest[p..e] && NumberShape(r.value)
    ensures var r := ExtractOne(km);
      r.status == Ambiguous <==> r.status != NotFound && ',' in r.value && '.' !in r.value
    ensures var r := ExtractOne(km);
      r.status == Ambiguous ==> r.warning == Some("Number '" + r.value
        + "' interpreted as thousands separator. If this is incorrect, please review the document.")
    ensures var r := ExtractOne(km);
      r.status == Found ==> r.warning.None?
  {
    match TextAfterKeyword(km)
    case None =>
    case Some(rest) =>
      match SearchNumber(rest, 0)
      case None =>
      case Some((p, e)) =>
        MatchShape(rest, p);
        CommaTokenIsThousands(rest[p..e]);
  }

  /** Lower-casing the keyword does not change where the case-insensitive pattern matches. */
  lemma {:induction false} SearchIgnoresKeywordCase(line: string, kw: string, from: nat)
    ensures KeywordMatcher.SearchFrom(line, LowerStr(kw), from) == KeywordMatcher.SearchFrom(line, kw, from)
    decreases |line| + 1 - from
  {
    LowerStrIdempotent(kw);
    assert forall i: nat :: KeywordMatcher.OccursAt(line, LowerStr(kw), i) <==> KeywordMatcher.OccursAt(line, kw, i);
    if from + |kw| <= |line| && !KeywordMatcher.OccursAt(line, kw, from) {
      SearchIgnoresKeywordCase(line, kw, from + 1);
    }
  }

  /** For a match the keyword matcher produced, the keyword is found again in its line, so
      the result is "Not found" only when no number follows it. */
  lemma MatcherHitIsRelocated(km: KeywordMatch)
    requires KeywordMatcher.ContainsWord(km.lineText, km.keyword)
    ensures TextAfterKeyword(km).Some?
  {
    SearchIgnoresKeywordCase(km.lineText, km.keyword, 0);
  }

  /** Building the result of a valid keyword match succeeds exactly when its keyword is not
      blank, and then yields `ExtractOne`'s value unchanged. */
  lemma BuildOne(km: KeywordMatch)
    requires ValidKeywordMatch(km)
    ensures var m := ExtractOne(km);
      NewExtractionMatch(km.keyword, m.value, km.pageNumber, Some(km.lineNumber), StatusName(m.status), m.warning)
      == if Strip(km.keyword) != [] then Ok(m) else Err("Keyword must be non-empty")
    ensures Strip(km.keyword) != [] ==> ValidMatch(ExtractOne(km))
  {
    var m := ExtractOne(km);
    StatusNameParses(m.status);
    if Strip(km.keyword) != [] {
      ExtractOneMeaning(km);
      ValidMatchReconstructs(m);
    }
  }

  /** The outcome of extracting from a list of keyword matches: the results in order, or the
      error raised by the first match whose keyword is blank. */
  function ExtractAll(kms: seq<KeywordMatch>): Result<seq<ExtractionMatch>> {
    if kms == [] then Ok([])
    else
      match ExtractAll(kms[..|kms| - 1])
      case Err(e) => Err(e)
      case Ok(prev) =>
        var km := kms[|kms| - 1];
        if IsBlank(km.keyword) then Err("Keyword must be non-empty") else Ok(prev + [ExtractOne(km)])
  }

  /** Extraction succeeds exactly when no keyword is blank; it then gives one result per
      keyword match, the i-th computed from the i-th match; otherwise it fails with the
      constructor's message. */
  lemma {:induction false} ExtractAllMeaning(kms: seq<KeywordMatch>)
    ensures ExtractAll(kms).Ok? <==> forall i :: 0 <= i < |kms| ==> !IsBlank(kms[i].keyword)
    ensures ExtractAll(kms).Ok? ==>
      |ExtractAll(kms).value| == |kms| && forall i :: 0 <= i < |kms| ==> ExtractAll(kms).value[i] == ExtractOne(kms[i])
    ensures ExtractAll(kms).Err? ==> ExtractAll(kms).error == "Keyword must be non-empty"
  {
    if kms != [] {
      var init := kms[..|kms| - 1];
      var last := kms[|kms| - 1];
      ExtractAllMeaning(init);
      assert forall i :: 0 <= i < |init| ==> init[i] == kms[i];
      if ExtractAll(init).Err? {
        assert ExtractAll(kms) == ExtractAll(init);
      } else if IsBlank(last.keyword) {
        assert ExtractAll(kms) == Err("Keyword must be non-empty");
      } else {
        var v := ExtractAll(init).value + [ExtractOne(last)];
        assert ExtractAll(kms) == Ok(v);
        assert forall i :: 0 <= i < |kms| ==> v[i] == ExtractOne(kms[i]);
      }
    }
  }

  /** Once a prefix fails, the whole list fails with the same error. */
  lemma {:induction false} ExtractAllStopsAtError(kms: seq<KeywordMatch>, n: nat)
    requires n <= |kms| && ExtractAll(kms[..n]).Err?
    ensures ExtractAll(kms) == ExtractAll(kms[..n])
    decreases |kms| - n
  {
    if n < |kms| {
      assert kms[..n + 1][..n] == kms[..n];
      ExtractAllStopsAtError(kms, n + 1);
    } else {
      assert kms[..n] == kms;
    }
  }

  /** Every result of a successful extraction is a valid `ExtractionMatch`. */
  lemma ExtractAllValid(kms: seq<KeywordMatch>)
    requires forall i :: 0 <= i < |kms| ==> ValidKeywordMatch(kms[i])
    ensures ExtractAll(kms).Ok? ==> forall i :: 0 <= i < |ExtractAll(kms).value| ==> ValidMatch(ExtractAll(kms).value[i])
  {
    ExtractAllMeaning(kms);
    forall i | 0 <= i < |kms| && ExtractAll(kms).Ok?
      ensures ValidMatch(ExtractOne(kms[i]))
    {
      BlankIffStripsEmpty(kms[i].keyword);
      BuildOne(kms[i]);
    }
  }

  /** The body of the extraction loop for one keyword match: compute the value, status and
      warning, then build the `ExtractionMatch`, whose constructor rejects a blank keyword. */
  method ExtractFrom(km: KeywordMatch) returns (r: Result<ExtractionMatch>)
    requires ValidKeywordMatch(km)
    ensures r == if IsBlank(km.keyword) then Err("Keyword must be non-empty") else Ok(ExtractOne(km))
  {
    var m := ExtractOne(km);
    BuildOne(km);
    BlankIffStripsEmpty(km.keyword);
    r := NewExtractionMatch(km.keyword, m.value, km.pageNumber, Some(km.lineNumber), StatusName(m.status), m.warning);
  }

  /** `extract_numbers`: one result per keyword match, in order; a blank keyword makes the
      constructor raise, which ends the whole call with that error. */
  method ExtractNumbers(kms: seq<KeywordMatch>) returns (r: Result<seq<ExtractionMatch>>)
    requires forall i :: 0 <= i < |kms| ==> ValidKeywordMatch(kms[i])
    ensures r == ExtractAll(kms)
  {
    var out: seq<ExtractionMatch> := [];
    var i := 0;
    while i < |kms|
      invariant 0 <= i <= |kms|
      invariant ExtractAll(kms[..i]) == Ok(out)
    {
      var built := ExtractFrom(kms[i]);
      assert kms[..i + 1][..i] == kms[..i];
      if built.Err? {
        ExtractAllStopsAtError(kms, i + 1);
        return Err(built.error);
      }
      out := out + [built.value];
      i := i + 1;
    }
    assert kms[..i] == kms;
    return Ok(out);
  }
}
