/**
 * Reading labelled names, an ID prefix and an age out of page text
 * (extractors/personal_info_extractor.py).
 *
 * Each pattern is `(?:label|label|...):` followed by a tail. The scanners below follow
 * Python's matcher: labels are tried in the order written, `search` takes the leftmost
 * position where some label and its tail match, and of a list of patterns the first one
 * that matches anywhere in the page wins. Labels are case-sensitive.
 */
module PersonalInfoExtractor {
  import opened Wrappers
  import opened Text
  import opened ParserBase
  import opened PersonalInfo

  const FirstNamePatterns: seq<seq<string>> := [["First Name", "Име", "Name", "Имя"], ["Given Name", "Личное имя"]]
  const LastNamePatterns: seq<seq<string>> := [["Last Name", "Фамилия", "Surname", "Фамилія"], ["Family Name"]]
  const MiddleNamePatterns: seq<seq<string>> := [["Middle Name", "Отчество", "Patronymic", "По батькові"]]
  const IdPatterns: seq<seq<string>> := [["ID", "ЕГН", "ID Number", "Номер"], ["Identification", "Identifier"]]

  /** What follows the label's colon: a name (`\s*([А-Яа-яA-Za-z\s\-]+)`, stripped) or an ID
      (`\s*(\d{4})\d*`, the first four digits). */
  datatype Tail = NameTail | IdTail

  /** The name character class: basic Cyrillic and Latin letters, whitespace and hyphen. */
  predicate NameChar(c: char) { IsBasicCyrillic(c) || IsAsciiLetter(c) || IsSpace(c) || c == '-' }

  function NameRunEnd(s: string, i: nat): (e: nat)
    requires i <= |s|
    ensures i <= e <= |s|
    decreases |s| - i
  {
    if i < |s| && NameChar(s[i]) then NameRunEnd(s, i + 1) else i
  }

  lemma {:induction false} NameRunChars(s: string, i: nat)
    requires i <= |s|
    ensures forall k :: i <= k < NameRunEnd(s, i) ==> NameChar(s[k])
    decreases |s| - i
  {
    if i < |s| && NameChar(s[i]) {
      NameRunChars(s, i + 1);
    }
  }

  /** The tail after the colon at `c`. For a name, `\s*` first takes all whitespace; when no
      name character follows, it gives one whitespace character back to the group, which then
      strips to the empty string. */
  function TailAt(tail: Tail, s: string, c: nat): Option<string>
    requires c <= |s|
  {
    var w := SpaceRunEnd(s, c);
    match tail
    case NameTail =>
      var e := NameRunEnd(s, w);
      if e > w then Some(Strip(s[w..e]))
      else if w > c then Some(Strip(s[w - 1..w]))
      else None
    case IdTail =>
      if DigitsAt(s, w, 4) then Some(s[w..w + 4]) else None
  }

  /** `(?:l1|l2|...):` and the tail at position `i`, the labels tried in order. */
  function LabelsAt(tail: Tail, s: string, i: nat, labels: seq<string>): Option<string>
    decreases |labels|
  {
    if labels == [] then None
    else
      var tag := labels[0] + ":";
      var here := if StartsAt(s, i, tag) then TailAt(tail, s, i + |tag|) else None;
      if here.Some? then here else LabelsAt(tail, s, i, labels[1..])
  }

  /** `pattern.search(s)` from position `from`: the capture at the leftmost matching position. */
  function SearchLabels(tail: Tail, s: string, labels: seq<string>, from: nat): Option<string>
    decreases |s| + 1 - from
  {
    if from > |s| then None
    else
      var here := LabelsAt(tail, s, from, labels);
      if here.Some? then here else SearchLabels(tail, s, labels, from + 1)
  }

  /** The capture of the first pattern in the list that matches anywhere in `s`. */
  function FirstOfPatterns(tail: Tail, s: string, patterns: seq<seq<string>>): Option<string>
    decreases |patterns|
  {
    if patterns == [] then None
    else
      var hit := SearchLabels(tail, s, patterns[0], 0);
      if hit.Some? then hit else FirstOfPatterns(tail, s, patterns[1..])
  }

  /** `_extract_first_name` on one page. */
  function FirstNameOn(text: string): Option<string> { FirstOfPatterns(NameTail, text, FirstNamePatterns) }

  /** `_extract_last_name` on one page. */
  function LastNameOn(text: string): Option<string> { FirstOfPatterns(NameTail, text, LastNamePatterns) }

  /** `_extract_middle_name` on one page. */
  function MiddleNameOn(text: string): Option<string> { FirstOfPatterns(NameTail, text, MiddleNamePatterns) }

  /** `_extract_id_number` on one page. */
  function IdOn(text: string): Option<string> { FirstOfPatterns(IdTail, text, IdPatterns) }

  // ------------------------------------------------------------------ what a capture looks like

  /** A stripped name made of name characters only. */
  predicate NameShape(v: string) { Strip(v) == v && forall k :: 0 <= k < |v| ==> NameChar(v[k]) }

  lemma {:induction false} StripOfNameRun(x: string)
    requires forall k :: 0 <= k < |x| ==> NameChar(x[k])
    ensures NameShape(Strip(x))
  {
    StripIdempotent(x);
    StripIsInfix(x);
  }

  lemma TailShape(tail: Tail, s: string, c: nat)
    requires c <= |s| && TailAt(tail, s, c).Some?
    ensures tail == NameTail ==> NameShape(TailAt(tail, s, c).value)
    ensures tail == IdTail ==> ValidIdPrefix(TailAt(tail, s, c).value)
  {
    var w := SpaceRunEnd(s, c);
    if tail == NameTail {
      var e := NameRunEnd(s, w);
      NameRunChars(s, w);
      if e > w {
        StripOfNameRun(s[w..e]);
      } else {
        SpaceRunIsSpace(s, c);
        StripOfNameRun(s[w - 1..w]);
      }
    }
  }

  lemma {:induction false} LabelsShape(tail: Tail, s: string, i: nat, labels: seq<string>)
    requires LabelsAt(tail, s, i, labels).Some?
    ensures tail == NameTail ==> NameShape(LabelsAt(tail, s, i, labels).value)
    ensures tail == IdTail ==> ValidIdPrefix(LabelsAt(tail, s, i, labels).value)
    decreases |labels|
  {
    var tag := labels[0] + ":";
    var here := if StartsAt(s, i, tag) then TailAt(tail, s, i + |tag|) else None;
    assert LabelsAt(tail, s, i, labels) == if here.Some? then here else LabelsAt(tail, s, i, labels[1..]);
    if here.Some? {
      TailShape(tail, s, i + |tag|);
    } else {
      LabelsShape(tail, s, i, labels[1..]);
    }
  }

  lemma {:induction false} SearchShape(tail: Tail, s: string, labels: seq<string>, from: nat)
    requires SearchLabels(tail, s, labels, from).Some?
    ensures tail == NameTail ==> NameShape(SearchLabels(tail, s, labels, from).value)
    ensures tail == IdTail ==> ValidIdPrefix(SearchLabels(tail, s, labels, from).value)
    decreases |s| + 1 - from
  {
    if LabelsAt(tail, s, from, labels).Some? {
      LabelsShape(tail, s, from, labels);
    } else {
      SearchShape(tail, s, labels, from + 1);
    }
  }

  /** Every name the scanners return is stripped and made of name characters; every ID they
      return is exactly four digits. */
  lemma {:induction false} CaptureShape(tail: Tail, s: string, patterns: seq<seq<string>>)
    requires FirstOfPatterns(tail, s, patterns).Some?
    ensures tail == NameTail ==> NameShape(FirstOfPatterns(tail, s, patterns).value)
    ensures tail == IdTail ==> ValidIdPrefix(FirstOfPatterns(tail, s, patterns).value)
    decreases |patterns|
  {
    if SearchLabels(tail, s, patterns[0], 0).Some? {
      SearchShape(tail, s, patterns[0], 0);
    } else {
      CaptureShape(tail, s, patterns[1..]);
    }
  }

  /** Every ID found on a page is exactly four digits. */
  lemma IdOnIsPrefix(text: string)
    ensures IdOn(text).Some? ==> ValidIdPrefix(IdOn(text).value)
  {
    if IdOn(text).Some? {
      CaptureShape(IdTail, text, IdPatterns);
    }
  }

  /** A first pattern that matches anywhere beats a later pattern, even one matching earlier
      in the text. */
  lemma EarlierPatternWins(tail: Tail, s: string, patterns: seq<seq<string>>)
    requires patterns != [] && SearchLabels(tail, s, patterns[0], 0).Some?
    ensures FirstOfPatterns(tail, s, patterns) == SearchLabels(tail, s, patterns[0], 0)
  {
  }

  /** A label whose first character differs from the one at `i` is not there. */
  lemma NotStartsAt(s: string, i: nat, tag: string)
    requires tag != [] && (i < |s| ==> s[i] != tag[0])
    ensures !StartsAt(s, i, tag + ":")
  {
  }

  /** A label that is not at `i` is skipped. */
  lemma LabelsAtMiss(tail: Tail, s: string, i: nat, labels: seq<string>)
    requires labels != [] && !StartsAt(s, i, labels[0] + ":")
    ensures LabelsAt(tail, s, i, labels) == LabelsAt(tail, s, i, labels[1..])
  {
  }

  /** A label at `i` whose tail matches gives that tail's capture. */
  lemma LabelsAtHit(tail: Tail, s: string, i: nat, labels: seq<string>)
    requires labels != [] && StartsAt(s, i, labels[0] + ":")
    requires TailAt(tail, s, i + |labels[0]| + 1).Some?
    ensures LabelsAt(tail, s, i, labels) == TailAt(tail, s, i + |labels[0]| + 1)
  {
  }

  lemma {:induction false} NoLabelHere(s: string, i: nat, labels: seq<string>)
    requires forall t :: 0 <= t < |labels| ==> !StartsAt(s, i, labels[t] + ":")
    ensures forall tail :: LabelsAt(tail, s, i, labels).None?
    decreases |labels|
  {
    if labels != [] {
      NoLabelHere(s, i, labels[1..]);
    }
  }

  lemma NameLabelAtFive()
    ensures LabelsAt(NameTail, "Last Name: Ivanov", 5, FirstNamePatterns[0]) == Some("Ivanov")
  {
    NameLabelSkipsTwo();
    NameLabelThird();
  }

  /** Neither "First Name:" nor "Име:" starts at 5. */
  lemma NameLabelSkipsTwo()
    ensures LabelsAt(NameTail, "Last Name: Ivanov", 5, FirstNamePatterns[0])
         == LabelsAt(NameTail, "Last Name: Ivanov", 5, FirstNamePatterns[0][2..])
  {
    var s := "Last Name: Ivanov";
    var labels := FirstNamePatterns[0];
    assert s[5] == 'N' && labels[0][0] == 'F' && labels[1][0] == 'И';
    NotStartsAt(s, 5, labels[0]);
    LabelsAtMiss(NameTail, s, 5, labels);
    NotStartsAt(s, 5, labels[1]);
    LabelsAtMiss(NameTail, s, 5, labels[1..]);
    assert labels[1..][1..] == labels[2..];
  }

  /** "Name:" does. */
  lemma NameLabelThird()
    ensures LabelsAt(NameTail, "Last Name: Ivanov", 5, FirstNamePatterns[0][2..]) == Some("Ivanov")
  {
    var s := "Last Name: Ivanov";
    var labels := FirstNamePatterns[0][2..];
    assert labels[0] + ":" == "Name:" && StartsAt(s, 5, "Name:");
    IvanovTail();
    LabelsAtHit(NameTail, s, 5, labels);
  }

  lemma IvanovTail()
    ensures TailAt(NameTail, "Last Name: Ivanov", 10) == Some("Ivanov")
  {
    var s := "Last Name: Ivanov";
    assert SpaceRunEnd(s, 10) == 11 && NameRunEnd(s, 11) == 17;
    assert s[11..17] == "Ivanov";
    StripOfStripped("Ivanov");
  }

  lemma NoNameLabelBeforeFive()
    ensures forall i :: 0 <= i < 5 ==> LabelsAt(NameTail, "Last Name: Ivanov", i, FirstNamePatterns[0]).None?
  {
    var s := "Last Name: Ivanov";
    var labels := FirstNamePatterns[0];
    forall i, t | 0 <= i < 5 && 0 <= t < |labels| ensures !StartsAt(s, i, labels[t] + ":") {
      assert s[i] != (labels[t] + ":")[0];
    }
    forall i | 0 <= i < 5 ensures LabelsAt(NameTail, s, i, labels).None? {
      NoLabelHere(s, i, labels);
    }
  }

  /** The label "Name" also fires inside "Last Name:", so a last-name line yields a first name. */
  lemma NameLabelInsideLastName()
    ensures FirstNameOn("Last Name: Ivanov") == Some("Ivanov")
  {
    var s := "Last Name: Ivanov";
    var labels := FirstNamePatterns[0];
    NameLabelAtFive();
    NoNameLabelBeforeFive();
    assert SearchLabels(NameTail, s, labels, 5) == Some("Ivanov");
    assert SearchLabels(NameTail, s, labels, 4) == Some("Ivanov");
    assert SearchLabels(NameTail, s, labels, 3) == Some("Ivanov");
    assert SearchLabels(NameTail, s, labels, 2) == Some("Ivanov");
    assert SearchLabels(NameTail, s, labels, 1) == Some("Ivanov");
  }

  /** A label followed by whitespace and no name character still matches, with an empty name. */
  lemma BlankNameCapture()
    ensures FirstNameOn("Name: 42") == Some("")
  {
    var s := "Name: 42";
    BlankLabels();
    assert SearchLabels(NameTail, s, FirstNamePatterns[0], 0) == Some("");
  }

  lemma BlankLabels()
    ensures LabelsAt(NameTail, "Name: 42", 0, FirstNamePatterns[0]) == Some("")
  {
    var s := "Name: 42";
    var labels := FirstNamePatterns[0];
    assert s[0] == 'N' && labels[0][0] == 'F' && labels[1][0] == 'И';
    NotStartsAt(s, 0, labels[0]);
    LabelsAtMiss(NameTail, s, 0, labels);
    NotStartsAt(s, 0, labels[1]);
    LabelsAtMiss(NameTail, s, 0, labels[1..]);
    assert labels[1..][1..] == labels[2..];
    assert labels[2..][0] + ":" == "Name:" && StartsAt(s, 0, "Name:");
    BlankTail();
    LabelsAtHit(NameTail, s, 0, labels[2..]);
  }

  lemma BlankTail()
    ensures TailAt(NameTail, "Name: 42", 5) == Some("")
  {
    var s := "Name: 42";
    assert SpaceRunEnd(s, 5) == 6 && NameRunEnd(s, 6) == 6;
    assert s[5..6] == " ";
  }

  /** Only the first four digits of a longer ID are kept. */
  lemma IdKeepsFourDigits()
    ensures IdOn("ID: 1234567") == Some("1234")
  {
    var s := "ID: 1234567";
    var labels := IdPatterns[0];
    assert labels[0] + ":" == "ID:" && StartsAt(s, 0, "ID:");
    IdTailAtThree();
    LabelsAtHit(IdTail, s, 0, labels);
    assert SearchLabels(IdTail, s, labels, 0) == Some("1234");
  }

  lemma IdTailAtThree()
    ensures TailAt(IdTail, "ID: 1234567", 3) == Some("1234")
  {
    var s := "ID: 1234567";
    assert SpaceRunEnd(s, 3) == 4 && s[4..8] == "1234";
  }

  /** Searching from `from` skips positions where no label and tail match. */
  lemma {:induction false} SearchSkips(tail: Tail, s: string, labels: seq<string>, from: nat, to: nat)
    requires from <= to <= |s| + 1
    requires forall i :: from <= i < to ==> LabelsAt(tail, s, i, labels).None?
    ensures SearchLabels(tail, s, labels, from) == SearchLabels(tail, s, labels, to)
    decreases |s| + 1 - from
  {
    if from < to {
      SearchSkips(tail, s, labels, from + 1, to);
    }
  }

  /** A page of one labelled field per line. */
  const LinedPage := "First Name: Иван\nLast Name: Петров\nID: 1234567"

  /** The name class holds whitespace, so a name capture runs over the line break up to the
      next colon: on a page of one labelled field per line the first name takes the next
      line's label, the last name takes the ID label, and the names are Latin and Cyrillic. */
  lemma CrossLineNameCapture()
    ensures FirstNameOn(LinedPage) == Some("Иван\nLast Name")
    ensures LastNameOn(LinedPage) == Some("Петров\nID")
    ensures DetectCharacterSet(CombinedNames(FirstNameOn(LinedPage), MiddleNameOn(LinedPage),
                                             LastNameOn(LinedPage))) == Mixed
  {
    CrossLineFirstName();
    CrossLineLastName();
    var first, middle, last := FirstNameOn(LinedPage), MiddleNameOn(LinedPage), LastNameOn(LinedPage);
    CrossLineFirstNameMixed();
    CombinedNamesSet(first, middle, last);
  }

  lemma CrossLineFirstNameMixed()
    ensures DetectCharacterSet("Иван\nLast Name") == Mixed
  {
    var first := "Иван\nLast Name";
    assert IsBasicCyrillic(first[0]) && IsAsciiLetter(first[5]);
  }

  lemma CrossLineFirstName()
    ensures FirstNameOn(LinedPage) == Some("Иван\nLast Name")
  {
    CrossLineFirstLabel();
  }

  /** "First Name:" starts the page, and its capture runs to the colon of the next line. */
  lemma CrossLineFirstLabel()
    ensures LabelsAt(NameTail, LinedPage, 0, FirstNamePatterns[0]) == Some("Иван\nLast Name")
  {
    var labels := FirstNamePatterns[0];
    CrossLineFirstTail();
    CrossLineFirstStarts();
    assert labels[0] + ":" == "First Name:";
    LabelsAtHit(NameTail, LinedPage, 0, labels);
  }

  lemma CrossLineFirstStarts()
    ensures StartsAt(LinedPage, 0, "First Name:")
  {
    var pre, tag, rest := "", "First Name:", " Иван\nLast Name: Петров\nID: 1234567";
    assert LinedPage == pre + tag + rest;
    StartsAtJoin(pre, tag, rest);
  }

  lemma CrossLineLastStarts()
    ensures StartsAt(LinedPage, 17, "Last Name:")
  {
    var pre, tag, rest := "First Name: Иван\n", "Last Name:", " Петров\nID: 1234567";
    assert LinedPage == pre + tag + rest;
    StartsAtJoin(pre, tag, rest);
  }

  lemma CrossLineFirstTail()
    ensures TailAt(NameTail, LinedPage, 11) == Some("Иван\nLast Name")
  {
    var pre, x, rest := "First Name: ", "Иван\nLast Name", ": Петров\nID: 1234567";
    assert LinedPage == pre + x + rest;
    assert forall k | 0 <= k < |x| :: NameChar(x[k]);
    NameTailOf(pre, x, rest);
  }

  lemma CrossLineLastName()
    ensures LastNameOn(LinedPage) == Some("Петров\nID")
  {
    CrossLineSkipToLastLabel();
    CrossLineLastLabel();
  }

  /** None of the last-name labels begins in the first line. */
  lemma CrossLineSkipToLastLabel()
    ensures SearchLabels(NameTail, LinedPage, LastNamePatterns[0], 0)
         == SearchLabels(NameTail, LinedPage, LastNamePatterns[0], 17)
  {
    var t := LinedPage;
    var pre := "First Name: Иван\n";
    assert t[..17] == pre;
    var labels := LastNamePatterns[0];
    assert labels[0][0] == 'L' && labels[1][0] == 'Ф' && labels[2][0] == 'S' && labels[3][0] == 'Ф';
    assert 'L' !in pre && 'Ф' !in pre && 'S' !in pre;
    forall i, k | 0 <= i < 17 && 0 <= k < |labels| ensures !StartsAt(t, i, labels[k] + ":") {
      assert t[i] == pre[i];
      NotStartsAt(t, i, labels[k]);
    }
    forall i | 0 <= i < 17 ensures LabelsAt(NameTail, t, i, labels).None? {
      NoLabelHere(t, i, labels);
    }
    SearchSkips(NameTail, t, labels, 0, 17);
  }

  /** "Last Name:" starts the second line, and its capture runs to the colon of the third. */
  lemma CrossLineLastLabel()
    ensures LabelsAt(NameTail, LinedPage, 17, LastNamePatterns[0]) == Some("Петров\nID")
  {
    var labels := LastNamePatterns[0];
    CrossLineLastTail();
    CrossLineLastStarts();
    assert labels[0] + ":" == "Last Name:";
    LabelsAtHit(NameTail, LinedPage, 17, labels);
  }

  lemma CrossLineLastTail()
    ensures TailAt(NameTail, LinedPage, 27) == Some("Петров\nID")
  {
    var pre, x, rest := "First Name: Иван\nLast Name: ", "Петров\nID", ": 1234567";
    assert LinedPage == pre + x + rest;
    assert forall k | 0 <= k < |x| :: NameChar(x[k]);
    NameTailOf(pre, x, rest);
  }

  /** After a space, a name run that is stripped and ends before a non-name character is the
      capture. */
  lemma NameTailOf(pre: string, x: string, rest: string)
    requires pre != [] && IsSpace(pre[|pre| - 1])
    requires x != [] && !IsSpace(x[0]) && !IsSpace(x[|x| - 1])
    requires forall k | 0 <= k < |x| :: NameChar(x[k])
    requires rest != [] && !NameChar(rest[0])
    ensures TailAt(NameTail, pre + x + rest, |pre| - 1) == Some(x)
  {
    var s := pre + x + rest;
    assert s[|pre|..|pre| + |x|] == x;
    assert SpaceRunEnd(s, |pre|) == |pre|;
    assert SpaceRunEnd(s, |pre| - 1) == |pre|;
    NameRunSpan(s, |pre|, |pre| + |x|);
    StripOfStripped(x);
  }

  lemma StartsAtJoin(a: string, b: string, c: string)
    ensures StartsAt(a + b + c, |a|, b)
  {
    assert (a + b + c)[|a|..|a| + |b|] == b;
  }

  /** A run of name characters from `i` to a non-name character at `e`. */
  lemma {:induction false} NameRunSpan(s: string, i: nat, e: nat)
    requires i <= e < |s| && !NameChar(s[e])
    requires forall k :: i <= k < e ==> NameChar(s[k])
    ensures NameRunEnd(s, i) == e
    decreases e - i
  {
    if i < e {
      NameRunSpan(s, i + 1, e);
    }
  }

  // ------------------------------------------------------------------ age

  /** `(\d{1,k})(?:\s|$)` at `w`, the greedy count tried from `k` down: the number of digits. */
  function AgeDigits(s: string, w: nat, k: nat): (r: Option<nat>)
    requires w <= |s|
    ensures r.Some? ==> 1 <= r.value <= k && DigitsAt(s, w, r.value)
    decreases k
  {
    if k == 0 then None
    else if DigitsAt(s, w, k) && (w + k == |s| || IsSpace(s[w + k])) then Some(k)
    else AgeDigits(s, w, k - 1)
  }

  /** AGE_PATTERN `,\s*(\d{1,3})(?:\s|$)` at position `i`: the captured digits. */
  function AgeAt(s: string, i: nat): (r: Option<string>)
    requires i <= |s|
    ensures r.Some? ==> 1 <= |r.value| <= 3 && AllDigits(r.value)
  {
    if i < |s| && s[i] == ',' then
      var w := SpaceRunEnd(s, i + 1);
      match AgeDigits(s, w, 3)
      case Some(k) => Some(s[w..w + k])
      case None => None
    else None
  }

  /** `AGE_PATTERN.search(s)` from `from`. */
  function SearchAge(s: string, from: nat): (r: Option<string>)
    requires from <= |s|
    ensures r.Some? ==> 1 <= |r.value| <= 3 && AllDigits(r.value)
    decreases |s| - from
  {
    if from == |s| then None
    else
      var here := AgeAt(s, from);
      if here.Some? then here else SearchAge(s, from + 1)
  }

  /** `_extract_age` on one page: the first match only, kept when it lies in 0..150. */
  function AgeOn(text: string): (r: Option<int>)
    ensures r.Some? ==> 0 <= r.value <= 150
  {
    match SearchAge(text, 0)
    case None => None
    case Some(d) => var age := DigitsValue(d); if age <= 150 then Some(age) else None
  }

  /** Only the first comma-number on a page is considered: one out of range hides a later
      valid age. */
  lemma FirstAgeOnly()
    ensures AgeOn("Ivan, 200 Petr, 33") == None
  {
    var s := "Ivan, 200 Petr, 33";
    assert forall i :: 0 <= i < 4 ==> AgeAt(s, i).None?;
    assert SpaceRunEnd(s, 5) == 6 && s[6..9] == "200";
    assert AgeAt(s, 4) == Some("200");
    assert DigitsValue("200") == 200 by {
      assert "200"[..2] == "20" && "20"[..1] == "2" && "2"[..0] == "";
    }
  }

  // ------------------------------------------------------------------ character set

  predicate HasCyrillic(t: string) { exists i :: 0 <= i < |t| && IsBasicCyrillic(t[i]) }
  predicate HasLatin(t: string) { exists i :: 0 <= i < |t| && IsAsciiLetter(t[i]) }

  /** `_detect_character_set`: Cyrillic and Latin letters are looked for independently. */
  function DetectCharacterSet(t: string): CharacterSet {
    if HasCyrillic(t) && HasLatin(t) then Mixed
    else if HasCyrillic(t) then Cyrillic
    else if HasLatin(t) then Latin
    else Unknown
  }

  /** The character set of text made of two parts, from the parts' sets: nothing joined with
      anything is that thing; mixed absorbs everything; Cyrillic with Latin is mixed. */
  function JoinSets(a: CharacterSet, b: CharacterSet): CharacterSet {
    if a == Unknown then b
    else if b == Unknown || a == b then a
    else Mixed
  }

  /** The set of a concatenation is the join of the parts' sets. */
  lemma DetectConcat(a: string, b: string)
    ensures DetectCharacterSet(a + b) == JoinSets(DetectCharacterSet(a), DetectCharacterSet(b))
  {
    var t := a + b;
    assert forall i :: 0 <= i < |a| ==> t[i] == a[i];
    assert forall i :: 0 <= i < |b| ==> t[|a| + i] == b[i];
    assert HasCyrillic(t) <==> HasCyrillic(a) || HasCyrillic(b) by {
      if HasCyrillic(t) {
        var i :| 0 <= i < |t| && IsBasicCyrillic(t[i]);
        if i >= |a| { assert b[i - |a|] == t[i]; }
      }
    }
    assert HasLatin(t) <==> HasLatin(a) || HasLatin(b) by {
      if HasLatin(t) {
        var i :| 0 <= i < |t| && IsAsciiLetter(t[i]);
        if i >= |a| { assert b[i - |a|] == t[i]; }
      }
    }
  }

  /** Python truthiness of an optional string: present and non-empty. */
  predicate Truthy(o: Option<string>) { o.Some? && o.value != [] }

  function OrEmpty(o: Option<string>): string { if o.Some? then o.value else "" }

  /** The text the character set is read from: first, middle and last name, space separated. */
  function CombinedNames(first: Option<string>, middle: Option<string>, last: Option<string>): string {
    OrEmpty(first) + " " + OrEmpty(middle) + " " + OrEmpty(last)
  }

  /** The character set of the combined names is the join of the sets of the three names. */
  lemma CombinedNamesSet(first: Option<string>, middle: Option<string>, last: Option<string>)
    ensures DetectCharacterSet(CombinedNames(first, middle, last))
         == JoinSets(JoinSets(DetectCharacterSet(OrEmpty(first)), DetectCharacterSet(OrEmpty(middle))),
                     DetectCharacterSet(OrEmpty(last)))
  {
    var f, m, l := OrEmpty(first), OrEmpty(middle), OrEmpty(last);
    assert DetectCharacterSet(" ") == Unknown;
    DetectConcat(f, " ");
    DetectConcat(f + " ", m);
    DetectConcat(f + " " + m, " ");
    DetectConcat(f + " " + m + " ", l);
  }

  // ------------------------------------------------------------------ the extraction policy

  /** `_extract_from_page`: every field from one page. The completeness flag the constructor
      stores is the presence of first name, last name and ID, whatever the caller passes. */
  function FromPage(page: PageContent): (r: PersonalInformation)
    requires ValidPage(page)
    ensures ValidInformation(r) && (r.isComplete <==> FieldsComplete(r))
    ensures r.firstName == FirstNameOn(page.text) && r.lastName == LastNameOn(page.text)
    ensures r.middleName == MiddleNameOn(page.text) && r.idNumberPrefix == IdOn(page.text)
    ensures r.age == AgeOn(page.text)
    ensures r.extractionPage == if Truthy(r.firstName) || Truthy(r.lastName) || Truthy(r.idNumberPrefix)
                                then Some(page.pageNumber) else None
  {
    var t := page.text;
    var first, last, middle, id, age := FirstNameOn(t), LastNameOn(t), MiddleNameOn(t), IdOn(t), AgeOn(t);
    var names := Truthy(first) || Truthy(last) || Truthy(middle);
    var cs := if names then DetectCharacterSet(CombinedNames(first, middle, last)) else Unknown;
    var pg := if Truthy(first) || Truthy(last) || Truthy(id) then Some(page.pageNumber) else None;
    CharacterSetNameParses(cs);
    IdOnIsPrefix(t);
    NewPersonalInformation(first, last, middle, id, age, CharacterSetName(cs), pg,
                           Truthy(first) && Truthy(last) && Truthy(id)).value
  }

  /** The page kept as `extraction_page` when a later page supplies a field: the one already
      recorded, if any. */
  function KeepPage(current: Option<int>, page: int): Option<int> {
    if current.None? then Some(page) else current
  }

  /** What one later page offers: its number and the five scanners' results on its text. The
      scanners only compute, so reading them all up front gives the loop the same values as
      reading each one when its field is absent. */
  datatype PageScan = PageScan(pageNumber: int, first: Option<string>, last: Option<string>,
                               middle: Option<string>, id: Option<string>, age: Option<int>)

  function ScanPage(page: PageContent): PageScan {
    var t := page.text;
    PageScan(page.pageNumber, FirstNameOn(t), LastNameOn(t), MiddleNameOn(t), IdOn(t), AgeOn(t))
  }

  function Scans(pages: seq<PageContent>): (r: seq<PageScan>)
    ensures |r| == |pages| && forall j :: 0 <= j < |pages| ==> r[j] == ScanPage(pages[j])
  {
    seq(|pages|, j requires 0 <= j < |pages| => ScanPage(pages[j]))
  }

  lemma ScansSplit(pages: seq<PageContent>, k: nat)
    requires k < |pages|
    ensures Scans(pages[k..])[0] == ScanPage(pages[k]) && Scans(pages[k..])[1..] == Scans(pages[k + 1..])
  {
  }

  /** What the constructor would accept of a scan: a page from 1 and a four-digit ID prefix. */
  predicate ValidScan(s: PageScan) {
    s.pageNumber >= 1 && (s.id.Some? ==> ValidIdPrefix(s.id.value))
  }

  lemma ScansValid(pages: seq<PageContent>)
    requires forall i :: 0 <= i < |pages| ==> ValidPage(pages[i])
    ensures forall i :: 0 <= i < |pages| ==> ValidScan(Scans(pages)[i])
  {
    forall i | 0 <= i < |pages| ensures ValidScan(Scans(pages)[i]) {
      IdOnIsPrefix(pages[i].text);
    }
  }

  /** One iteration of the later-page loop: every field still absent is taken from the page
      when truthy, in the order first name, last name, middle name, ID, age. */
  function Step(r: PersonalInformation, s: PageScan): PersonalInformation {
    TakeAge(TakeId(TakeMiddle(TakeLast(TakeFirst(r, s), s), s), s), s)
  }

  /** A first name always records its page. */
  function TakeFirst(r: PersonalInformation, s: PageScan): PersonalInformation {
    if r.firstName.None? && Truthy(s.first) then r.(firstName := s.first, extractionPage := Some(s.pageNumber)) else r
  }

  /** The other fields record their page only when none is recorded yet. */
  function TakeLast(r: PersonalInformation, s: PageScan): PersonalInformation {
    if r.lastName.None? && Truthy(s.last) then r.(lastName := s.last, extractionPage := KeepPage(r.extractionPage, s.pageNumber)) else r
  }

  function TakeMiddle(r: PersonalInformation, s: PageScan): PersonalInformation {
    if r.middleName.None? && Truthy(s.middle) then r.(middleName := s.middle, extractionPage := KeepPage(r.extractionPage, s.pageNumber)) else r
  }

  function TakeId(r: PersonalInformation, s: PageScan): PersonalInformation {
    if r.idNumberPrefix.None? && Truthy(s.id) then r.(idNumberPrefix := s.id, extractionPage := KeepPage(r.extractionPage, s.pageNumber)) else r
  }

  /** An age of 0 is not taken. */
  function TakeAge(r: PersonalInformation, s: PageScan): PersonalInformation {
    if r.age.None? && s.age.Some? && s.age.value != 0 then r.(age := s.age, extractionPage := KeepPage(r.extractionPage, s.pageNumber)) else r
  }

  /** The later-page loop as intended: stop after the page that completes the record. */
  function Fill(r: PersonalInformation, scans: seq<PageScan>): PersonalInformation
    decreases |scans|
  {
    if scans == [] then r
    else
      var next := Step(r, scans[0]);
      if FieldsComplete(next) then next else Fill(next, scans[1..])
  }

  /** The later-page loop as written: it tests the stored `is_complete` field, which the field
      assignments never update. */
  function FillAsWritten(r: PersonalInformation, scans: seq<PageScan>): PersonalInformation
    decreases |scans|
  {
    if scans == [] then r
    else
      var next := Step(r, scans[0]);
      if next.isComplete then next else FillAsWritten(next, scans[1..])
  }

  /** Every page read, with no early stop. */
  function FillAll(r: PersonalInformation, scans: seq<PageScan>): PersonalInformation
    decreases |scans|
  {
    if scans == [] then r else FillAll(Step(r, scans[0]), scans[1..])
  }

  /** The end of `extract_personal_info`: the character set is read again from the names when
      one of them is truthy, and the completeness flag is recomputed. */
  function Finish(r: PersonalInformation): PersonalInformation {
    var cs := if Truthy(r.firstName) || Truthy(r.lastName) || Truthy(r.middleName)
              then DetectCharacterSet(CombinedNames(r.firstName, r.middleName, r.lastName))
              else r.characterSet;
    r.(characterSet := cs, isComplete := FieldsComplete(r))
  }

  /** `extract_personal_info` with the intended early stop: page 1 first, then, if the record is
      incomplete, the later pages until it is complete. */
  function PersonalInfoOf(pages: seq<PageContent>): PersonalInformation
    requires forall i :: 0 <= i < |pages| ==> ValidPage(pages[i])
  {
    if pages == [] then Empty()
    else
      var first := FromPage(pages[0]);
      Finish(if !first.isComplete && |pages| > 1 then Fill(first, Scans(pages[1..])) else first)
  }

  /** `extract_personal_info` as written, with the stale completeness test. */
  function PersonalInfoAsWritten(pages: seq<PageContent>): PersonalInformation
    requires forall i :: 0 <= i < |pages| ==> ValidPage(pages[i])
  {
    if pages == [] then Empty()
    else
      var first := FromPage(pages[0]);
      Finish(if !first.isComplete && |pages| > 1 then FillAsWritten(first, Scans(pages[1..])) else first)
  }

  // ------------------------------------------------------------------ the stale completeness test

  /** The later-page loop never changes the stored flag. */
  lemma StepKeepsFlag(r: PersonalInformation, s: PageScan)
    ensures Step(r, s).isComplete == r.isComplete
  {
  }

  /** Because the flag is stale, the loop as written never stops early: it reads every page. */
  lemma {:induction false} AsWrittenReadsEveryPage(r: PersonalInformation, scans: seq<PageScan>)
    requires !r.isComplete
    ensures FillAsWritten(r, scans) == FillAll(r, scans)
    decreases |scans|
  {
    if scans != [] {
      StepKeepsFlag(r, scans[0]);
      AsWrittenReadsEveryPage(Step(r, scans[0]), scans[1..]);
    }
  }

  lemma SurnamePage()
    ensures LastNameOn("Surname:B") == Some("B") && MiddleNameOn("Surname:B").None?
  {
    var s := "Surname:B";
    var labels := MiddleNamePatterns[0];
    forall i, t | 0 <= i <= |s| && 0 <= t < |labels| ensures !StartsAt(s, i, labels[t] + ":") {
      assert labels[t] != [] && (i < |s| ==> s[i] != labels[t][0]);
      NotStartsAt(s, i, labels[t]);
    }
    forall i | 0 <= i <= |s| ensures LabelsAt(NameTail, s, i, labels).None? {
      NoLabelHere(s, i, labels);
    }
    NoMatchFrom(NameTail, s, labels, 0);
    SurnameLabels();
    assert SearchLabels(NameTail, s, LastNamePatterns[0], 0) == Some("B");
  }

  lemma SurnameLabels()
    ensures LabelsAt(NameTail, "Surname:B", 0, LastNamePatterns[0]) == Some("B")
  {
    var s := "Surname:B";
    var labels := LastNamePatterns[0];
    assert s[0] == 'S' && labels[0][0] == 'L' && labels[1][0] == 'Ф';
    NotStartsAt(s, 0, labels[0]);
    LabelsAtMiss(NameTail, s, 0, labels);
    NotStartsAt(s, 0, labels[1]);
    LabelsAtMiss(NameTail, s, 0, labels[1..]);
    assert labels[1..][1..] == labels[2..];
    assert labels[2..][0] + ":" == "Surname:" && StartsAt(s, 0, "Surname:");
    SurnameTail();
    LabelsAtHit(NameTail, s, 0, labels[2..]);
  }

  lemma SurnameTail()
    ensures TailAt(NameTail, "Surname:B", 8) == Some("B")
  {
    var s := "Surname:B";
    assert SpaceRunEnd(s, 8) == 8 && NameRunEnd(s, 8) == 9 && s[8..9] == "B";
    StripOfStripped("B");
  }

  lemma PatronymicPage()
    ensures MiddleNameOn("Patronymic:C") == Some("C")
  {
    var s := "Patronymic:C";
    var labels := MiddleNamePatterns[0];
    assert s[0] == 'P' && labels[0][0] == 'M' && labels[1][0] == 'О';
    NotStartsAt(s, 0, labels[0]);
    LabelsAtMiss(NameTail, s, 0, labels);
    NotStartsAt(s, 0, labels[1]);
    LabelsAtMiss(NameTail, s, 0, labels[1..]);
    assert labels[1..][1..] == labels[2..];
    assert labels[2..][0] + ":" == "Patronymic:" && StartsAt(s, 0, "Patronymic:");
    PatronymicTail();
    LabelsAtHit(NameTail, s, 0, labels[2..]);
    assert SearchLabels(NameTail, s, labels, 0) == Some("C");
  }

  lemma PatronymicTail()
    ensures TailAt(NameTail, "Patronymic:C", 11) == Some("C")
  {
    var s := "Patronymic:C";
    assert SpaceRunEnd(s, 11) == 11 && NameRunEnd(s, 11) == 12 && s[11..12] == "C";
    StripOfStripped("C");
  }

  lemma {:induction false} NoMatchFrom(tail: Tail, s: string, labels: seq<string>, from: nat)
    requires forall i :: from <= i <= |s| ==> LabelsAt(tail, s, i, labels).None?
    ensures SearchLabels(tail, s, labels, from).None?
    decreases |s| + 1 - from
  {
    if from <= |s| {
      NoMatchFrom(tail, s, labels, from + 1);
    }
  }

  /** A record with a first name and an ID but no last name, then a page with the last name,
      then a page with a middle name: as written the middle name is taken from the page after
      the one that completed the record; with the intended stop it is not. */
  lemma StaleFlagCounterexample()
    ensures var r := PersonalInformation(Some("A"), None, None, Some("1234"), None, Latin, Some(1), false);
      var pages := [PageContent(2, "Surname:B", ["Surname:B"]), PageContent(3, "Patronymic:C", ["Patronymic:C"])];
      FillAsWritten(r, Scans(pages)).middleName == Some("C") && Fill(r, Scans(pages)).middleName.None?
  {
    var r := PersonalInformation(Some("A"), None, None, Some("1234"), None, Latin, Some(1), false);
    var p2, p3 := PageContent(2, "Surname:B", ["Surname:B"]), PageContent(3, "Patronymic:C", ["Patronymic:C"]);
    SurnamePage();
    PatronymicPage();
    var s2, s3 := ScanPage(p2), ScanPage(p3);
    assert Scans([p2, p3]) == [s2, s3];
    StaleSteps(r, s2, s3);
  }

  /** The two steps of the counterexample: a page that completes the record with its last name
      and has no middle name, then a page with a middle name. */
  lemma StaleSteps(r: PersonalInformation, s2: PageScan, s3: PageScan)
    requires r.firstName.Some? && r.idNumberPrefix.Some? && r.lastName.None? && r.middleName.None? && !r.isComplete
    requires Truthy(s2.last) && s2.middle.None? && Truthy(s3.middle)
    ensures FillAsWritten(r, [s2, s3]).middleName == s3.middle && Fill(r, [s2, s3]).middleName.None?
  {
    var r2 := Step(r, s2);
    assert r2.middleName.None? && FieldsComplete(r2) && !r2.isComplete;
    var r3 := Step(r2, s3);
    assert r3.middleName == s3.middle && !r3.isComplete;
    assert [s2, s3][1..] == [s3] && [s3][1..] == [];
    assert FillAsWritten(r3, []) == r3;
    assert FillAsWritten(r2, [s3]) == r3;
    assert FillAsWritten(r, [s2, s3]) == FillAsWritten(r2, [s3]);
    assert Fill(r, [s2, s3]) == r2;
  }

  // ------------------------------------------------------------------ properties of the policy

  /** A field that is present is never replaced: each page only fills absent fields. */
  predicate KeepsFields(before: PersonalInformation, after: PersonalInformation) {
    (before.firstName.Some? ==> after.firstName == before.firstName)
    && (before.lastName.Some? ==> after.lastName == before.lastName)
    && (before.middleName.Some? ==> after.middleName == before.middleName)
    && (before.idNumberPrefix.Some? ==> after.idNumberPrefix == before.idNumberPrefix)
    && (before.age.Some? ==> after.age == before.age)
  }

  /** Fields that were present before the later pages are read are still there afterwards. */
  lemma {:induction false} FillKeepsFields(r: PersonalInformation, scans: seq<PageScan>)
    ensures KeepsFields(r, Fill(r, scans))
    decreases |scans|
  {
    if scans != [] {
      var next := Step(r, scans[0]);
      assert KeepsFields(r, next);
      if !FieldsComplete(next) {
        FillKeepsFields(next, scans[1..]);
      }
    }
  }

  /** Pages after the one that completes the record are never read. */
  lemma {:induction false} FillIgnoresPagesAfterCompletion(r: PersonalInformation, scans: seq<PageScan>, more: seq<PageScan>)
    requires scans != [] && FieldsComplete(Fill(r, scans))
    ensures Fill(r, scans + more) == Fill(r, scans)
    decreases |scans|
  {
    var next := Step(r, scans[0]);
    assert (scans + more)[0] == scans[0];
    if !FieldsComplete(next) {
      assert (scans + more)[1..] == scans[1..] + more;
      assert Fill(r, scans) == Fill(next, scans[1..]);
      FillIgnoresPagesAfterCompletion(next, scans[1..], more);
    }
  }

  /** A field one page supplies is what that page's scanner found. */
  lemma StepProvenance(r: PersonalInformation, s: PageScan)
    ensures var f := Step(r, s);
      (f.firstName != r.firstName ==> Truthy(f.firstName) && f.firstName == s.first)
      && (f.lastName != r.lastName ==> Truthy(f.lastName) && f.lastName == s.last)
      && (f.middleName != r.middleName ==> Truthy(f.middleName) && f.middleName == s.middle)
      && (f.idNumberPrefix != r.idNumberPrefix ==> f.idNumberPrefix == s.id)
      && (f.age != r.age ==> f.age == s.age)
      && KeepsFields(r, f)
  {
    var r1 := TakeFirst(r, s);
    var r2 := TakeLast(r1, s);
    var r3 := TakeMiddle(r2, s);
    var r4 := TakeId(r3, s);
    var f := TakeAge(r4, s);
    assert r1.firstName != r.firstName ==> Truthy(r1.firstName) && r1.firstName == s.first;
    assert r1.(firstName := r.firstName, extractionPage := r.extractionPage) == r;
    assert r2.lastName != r1.lastName ==> Truthy(r2.lastName) && r2.lastName == s.last;
    assert r2.(lastName := r1.lastName, extractionPage := r1.extractionPage) == r1;
    assert r3.middleName != r2.middleName ==> Truthy(r3.middleName) && r3.middleName == s.middle;
    assert r3.(middleName := r2.middleName, extractionPage := r2.extractionPage) == r2;
    assert r4.idNumberPrefix != r3.idNumberPrefix ==> r4.idNumberPrefix == s.id;
    assert r4.(idNumberPrefix := r3.idNumberPrefix, extractionPage := r3.extractionPage) == r3;
    assert f.age != r4.age ==> f.age == s.age;
    assert f.(age := r4.age, extractionPage := r4.extractionPage) == r4;
  }

  /** A field the later pages supply comes from one of those pages (and, for a name, is
      truthy). */
  lemma {:induction false} FillProvenance(r: PersonalInformation, scans: seq<PageScan>)
    ensures var f := Fill(r, scans);
      (f.firstName != r.firstName ==> Truthy(f.firstName) && exists j :: 0 <= j < |scans| && f.firstName == scans[j].first)
      && (f.lastName != r.lastName ==> Truthy(f.lastName) && exists j :: 0 <= j < |scans| && f.lastName == scans[j].last)
      && (f.middleName != r.middleName ==> Truthy(f.middleName) && exists j :: 0 <= j < |scans| && f.middleName == scans[j].middle)
      && (f.idNumberPrefix != r.idNumberPrefix ==> exists j :: 0 <= j < |scans| && f.idNumberPrefix == scans[j].id)
      && (f.age != r.age ==> exists j :: 0 <= j < |scans| && f.age == scans[j].age)
    decreases |scans|
  {
    if scans != [] {
      var next := Step(r, scans[0]);
      StepProvenance(r, scans[0]);
      if !FieldsComplete(next) {
        var rest := scans[1..];
        FillProvenance(next, rest);
        assert forall j :: 0 <= j < |rest| ==> rest[j] == scans[j + 1];
        FillKeepsFields(next, rest);
      }
    }
  }

  /** The same for the pages themselves: a field the later pages supply is that field's
      scanner result on one of them. */
  lemma LaterPageProvenance(r: PersonalInformation, pages: seq<PageContent>)
    ensures var f := Fill(r, Scans(pages));
      (f.firstName != r.firstName ==> exists j :: 0 <= j < |pages| && f.firstName == FirstNameOn(pages[j].text))
      && (f.lastName != r.lastName ==> exists j :: 0 <= j < |pages| && f.lastName == LastNameOn(pages[j].text))
      && (f.middleName != r.middleName ==> exists j :: 0 <= j < |pages| && f.middleName == MiddleNameOn(pages[j].text))
      && (f.idNumberPrefix != r.idNumberPrefix ==> exists j :: 0 <= j < |pages| && f.idNumberPrefix == IdOn(pages[j].text))
      && (f.age != r.age ==> exists j :: 0 <= j < |pages| && f.age == AgeOn(pages[j].text))
  {
    FillProvenance(r, Scans(pages));
  }

  /** The later-page loop keeps what the constructor checked: a recorded page from 1, an ID
      prefix of four digits, and an age within 0..150. */
  lemma {:induction false} FillKeepsValid(r: PersonalInformation, scans: seq<PageScan>)
    requires ValidInformation(r) && (r.age.Some? ==> 0 <= r.age.value <= 150)
    requires forall i :: 0 <= i < |scans| ==> ValidScan(scans[i]) && (scans[i].age.Some? ==> 0 <= scans[i].age.value <= 150)
    ensures var f := Fill(r, scans);
      ValidInformation(f) && (f.age.Some? ==> 0 <= f.age.value <= 150)
    decreases |scans|
  {
    if scans != [] {
      var next := Step(r, scans[0]);
      if !FieldsComplete(next) {
        FillKeepsValid(next, scans[1..]);
      }
    }
  }

  /** What the extraction returns: a valid record whose flag says whether first name, last name
      and ID are present, whose age lies in 0..150, and whose character set is read from the
      names whenever one of them is truthy. */
  lemma PersonalInfoValid(pages: seq<PageContent>)
    requires forall i :: 0 <= i < |pages| ==> ValidPage(pages[i])
    ensures var r := PersonalInfoOf(pages);
      ValidInformation(r) && (r.isComplete <==> FieldsComplete(r))
      && (r.age.Some? ==> 0 <= r.age.value <= 150)
      && (Truthy(r.firstName) || Truthy(r.lastName) || Truthy(r.middleName) ==>
            r.characterSet == DetectCharacterSet(CombinedNames(r.firstName, r.middleName, r.lastName)))
  {
    if pages != [] {
      var later := pages[1..];
      ScansValid(later);
      forall i | 0 <= i < |later| ensures var a := Scans(later)[i].age; a.Some? ==> 0 <= a.value <= 150 {
        assert Scans(later)[i].age == AgeOn(later[i].text);
      }
      FillKeepsValid(FromPage(pages[0]), Scans(later));
    }
  }

  /** Page 1 has priority: every field found there is the one returned. */
  lemma FirstPagePriority(pages: seq<PageContent>)
    requires pages != [] && forall i :: 0 <= i < |pages| ==> ValidPage(pages[i])
    ensures KeepsFields(FromPage(pages[0]), PersonalInfoOf(pages))
  {
    FillKeepsFields(FromPage(pages[0]), Scans(pages[1..]));
  }

  /** When page 1 has first name, last name and ID, no other page is read. */
  lemma CompleteFirstPageSuffices(pages: seq<PageContent>)
    requires pages != [] && forall i :: 0 <= i < |pages| ==> ValidPage(pages[i])
    requires FieldsComplete(FromPage(pages[0]))
    ensures PersonalInfoOf(pages) == Finish(FromPage(pages[0]))
  {
  }

  /** The body of the later-page loop: each absent field is looked for on the page and taken
      when truthy. */
  method ReadLaterPage(r0: PersonalInformation, page: PageContent) returns (r: PersonalInformation)
    ensures r == Step(r0, ScanPage(page))
  {
    ghost var s := ScanPage(page);
    r := r0;
    if r.firstName.None? {
      var firstName := FirstNameOn(page.text);
      if Truthy(firstName) {
        r := r.(firstName := firstName, extractionPage := Some(page.pageNumber));
      }
    }
    assert r == TakeFirst(r0, s);
    ghost var r1 := r;
    if r.lastName.None? {
      var lastName := LastNameOn(page.text);
      if Truthy(lastName) {
        r := r.(lastName := lastName, extractionPage := KeepPage(r.extractionPage, page.pageNumber));
      }
    }
    assert r == TakeLast(r1, s);
    ghost var r2 := r;
    if r.middleName.None? {
      var middleName := MiddleNameOn(page.text);
      if Truthy(middleName) {
        r := r.(middleName := middleName, extractionPage := KeepPage(r.extractionPage, page.pageNumber));
      }
    }
    assert r == TakeMiddle(r2, s);
    ghost var r3 := r;
    if r.idNumberPrefix.None? {
      var idPrefix := IdOn(page.text);
      if Truthy(idPrefix) {
        r := r.(idNumberPrefix := idPrefix, extractionPage := KeepPage(r.extractionPage, page.pageNumber));
      }
    }
    assert r == TakeId(r3, s);
    ghost var r4 := r;
    if r.age.None? {
      var age := AgeOn(page.text);
      if age.Some? && age.value != 0 {
        r := r.(age := age, extractionPage := KeepPage(r.extractionPage, page.pageNumber));
      }
    }
    assert r == TakeAge(r4, s);
  }

  /** The later-page loop, stopping once first name, last name and ID are present. */
  method ReadLaterPages(r0: PersonalInformation, later: seq<PageContent>) returns (r: PersonalInformation)
    ensures r == Fill(r0, Scans(later))
  {
    r := r0;
    var k := 0;
    assert later[0..] == later;
    while k < |later|
      invariant 0 <= k <= |later|
      invariant Fill(r, Scans(later[k..])) == Fill(r0, Scans(later))
    {
      ScansSplit(later, k);
      r := ReadLaterPage(r, later[k]);
      if FieldsComplete(r) {
        return;
      }
      k := k + 1;
    }
  }

  /** `extract_personal_info`, with the loop stopping once first name, last name and ID are
      present. */
  method ExtractPersonalInfo(pages: seq<PageContent>) returns (r: PersonalInformation)
    requires forall i :: 0 <= i < |pages| ==> ValidPage(pages[i])
    ensures r == PersonalInfoOf(pages)
  {
    if |pages| == 0 {
      return Empty();
    }
    r := FromPage(pages[0]);
    if !r.isComplete && |pages| > 1 {
      r := ReadLaterPages(r, pages[1..]);
    }
    if Truthy(r.firstName) || Truthy(r.lastName) || Truthy(r.middleName) {
      r := r.(characterSet := DetectCharacterSet(CombinedNames(r.firstName, r.middleName, r.lastName)));
    }
    r := r.(isComplete := FieldsComplete(r));
  }
}
