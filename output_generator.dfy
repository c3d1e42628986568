/**
 * The plain-text report of one extraction (services/output_generator.py): the aligned table
 * of keyword values and the warnings and errors sections. Writing the file, the personal
 * information section and the processing summary are not part of this model.
 */
module OutputGenerator {
  import opened Wrappers
  import opened Text
  import opened ExtractionMatches
  import opened Results

  function Max(a: nat, b: nat): nat { if a >= b then a else b }

  // ------------------------------------------------------------------ column widths

  /** The width of column `c`: its header, widened by the cell of every row that reaches
      that column. */
  function ColumnWidth(header: string, rows: seq<seq<string>>, c: nat): nat
    decreases |rows|
  {
    if rows == [] then |header|
    else
      var last := rows[|rows| - 1];
      Max(ColumnWidth(header, rows[..|rows| - 1], c), if c < |last| then |last[c]| else 0)
  }

  /** One width per header; cells beyond the headers play no part. */
  function Widths(headers: seq<string>, rows: seq<seq<string>>): (r: seq<nat>)
    ensures |r| == |headers|
  {
    seq(|headers|, c requires 0 <= c < |headers| => ColumnWidth(headers[c], rows, c))
  }

  /** `_calculate_column_widths`: the header widths, then each row widening the columns its
      cells reach. */
  method ColumnWidths(headers: seq<string>, rows: seq<seq<string>>) returns (widths: seq<nat>)
    ensures widths == Widths(headers, rows)
  {
    if |headers| == 0 {
      return [];
    }
    widths := seq(|headers|, c requires 0 <= c < |headers| => |headers[c]|);
    for k := 0 to |rows|
      invariant |widths| == |headers|
      invariant forall c :: 0 <= c < |headers| ==> widths[c] == ColumnWidth(headers[c], rows[..k], c)
    {
      var row := rows[k];
      ghost var before := widths;
      for i := 0 to |row|
        invariant |widths| == |headers|
        invariant forall c :: 0 <= c < |headers| ==>
          widths[c] == (if c < i then Max(before[c], |row[c]|) else before[c])
      {
        if i < |widths| {
          widths := widths[i := Max(widths[i], |row[i]|)];
        }
      }
      assert rows[..k + 1][..k] == rows[..k];
      forall c | 0 <= c < |headers| ensures widths[c] == ColumnWidth(headers[c], rows[..k + 1], c) {
      }
    }
    assert rows[..|rows|] == rows;
  }

  /** A column is as wide as its header and as every cell in it, and no wider than the
      widest of them. */
  lemma {:induction false} ColumnWidthMeaning(header: string, rows: seq<seq<string>>, c: nat)
    ensures ColumnWidth(header, rows, c) >= |header|
    ensures forall r :: 0 <= r < |rows| && c < |rows[r]| ==> |rows[r][c]| <= ColumnWidth(header, rows, c)
    ensures ColumnWidth(header, rows, c) == |header|
            || exists r :: 0 <= r < |rows| && c < |rows[r]| && |rows[r][c]| == ColumnWidth(header, rows, c)
    decreases |rows|
  {
    if rows != [] {
      var init := rows[..|rows| - 1];
      ColumnWidthMeaning(header, init, c);
      assert forall r :: 0 <= r < |init| ==> init[r] == rows[r];
      if ColumnWidth(header, rows, c) != |header| && ColumnWidth(header, rows, c) == ColumnWidth(header, init, c) {
        var r :| 0 <= r < |init| && c < |init[r]| && |init[r][c]| == ColumnWidth(header, init, c);
        assert rows[r] == init[r];
      }
    }
  }

  // ------------------------------------------------------------------ rows

  /** `s.ljust(width)`. */
  function LeftJustify(s: string, width: int): (r: string)
    ensures |r| == (if |s| >= width then |s| else width)
    ensures r[..|s|] == s
    ensures forall k :: |s| <= k < |r| ==> r[k] == ' '
  {
    if |s| >= width then s else s + seq(width - |s|, _ => ' ')
  }

  /** A cell as the row shows it: padded to its column's width and 4 more, or as it is
      when the row has more cells than there are columns. */
  function CellText(cells: seq<string>, widths: seq<nat>, i: nat): string
    requires i < |cells|
  {
    if i < |widths| then LeftJustify(cells[i], widths[i] + 4) else cells[i]
  }

  function FormattedCells(cells: seq<string>, widths: seq<nat>): (r: seq<string>)
    ensures |r| == |cells|
  {
    seq(|cells|, i requires 0 <= i < |cells| => CellText(cells, widths, i))
  }

  /** The row: the cells glued together, trailing whitespace removed. */
  function TableRow(cells: seq<string>, widths: seq<nat>): string {
    TrimRight(Concat(FormattedCells(cells, widths)))
  }

  /** `_format_table_row`. */
  method FormatTableRow(cells: seq<string>, widths: seq<nat>) returns (line: string)
    ensures line == TableRow(cells, widths)
  {
    var formatted: seq<string> := [];
    for i := 0 to |cells|
      invariant |formatted| == i
      invariant forall k :: 0 <= k < i ==> formatted[k] == CellText(cells, widths, k)
    {
      if i < |widths| {
        formatted := formatted + [LeftJustify(cells[i], widths[i] + 4)];
      } else {
        formatted := formatted + [cells[i]];
      }
    }
    assert formatted == FormattedCells(cells, widths);
    line := TrimRight(Concat(formatted));
  }

  /** Where column `i` starts: after the earlier columns and their 4-space gaps. */
  function Offset(widths: seq<nat>, i: nat): nat
    requires i <= |widths|
  {
    if i == 0 then 0 else Offset(widths, i - 1) + widths[i - 1] + 4
  }

  lemma {:induction false} ConcatAppend(parts: seq<string>, p: string)
    ensures Concat(parts + [p]) == Concat(parts) + p
  {
    if parts == [] {
      assert [] + [p] == [p];
      assert [p][1..] == [];
    } else {
      assert (parts + [p])[1..] == parts[1..] + [p];
      ConcatAppend(parts[1..], p);
    }
  }

  /** A cell that fits its column takes exactly the column's width and 4 more. */
  predicate Fits(cells: seq<string>, widths: seq<nat>) {
    |cells| <= |widths| && forall i :: 0 <= i < |cells| ==> |cells[i]| <= widths[i]
  }

  /** Text placed in a string stays in place when more is appended. */
  lemma StartsAtExtend(s: string, t: string, p: nat, x: string)
    requires StartsAt(s, p, x)
    ensures StartsAt(s + t, p, x)
  {
    assert (s + t)[p..p + |x|] == s[p..p + |x|];
  }

  /** What an appended piece starts with is placed at the old end. */
  lemma StartsAtJoint(s: string, y: string, x: string)
    requires |x| <= |y| && y[..|x|] == x
    ensures StartsAt(s + y, |s|, x)
  {
    assert (s + y)[|s|..|s| + |x|] == y[..|x|];
  }

  /** Each of the first `n` cells starts at its column's offset in `s`. */
  predicate Placed(s: string, cells: seq<string>, widths: seq<nat>, n: nat)
    requires n <= |cells| && n <= |widths|
  {
    forall j :: 0 <= j < n ==> StartsAt(s, Offset(widths, j), cells[j])
  }

  /** Appending the next column's padded cell keeps the earlier cells in place and puts the
      new one at its offset. */
  lemma PlaceNext(s: string, last: string, cells: seq<string>, widths: seq<nat>, n: nat)
    requires 0 < n <= |cells| && n <= |widths|
    requires |s| == Offset(widths, n - 1) && Placed(s, cells, widths, n - 1)
    requires |last| == widths[n - 1] + 4 && |cells[n - 1]| <= |last| && last[..|cells[n - 1]|] == cells[n - 1]
    ensures |s + last| == Offset(widths, n) && Placed(s + last, cells, widths, n)
  {
    forall j | 0 <= j < n ensures StartsAt(s + last, Offset(widths, j), cells[j]) {
      if j < n - 1 {
        StartsAtExtend(s, last, Offset(widths, j), cells[j]);
      } else {
        StartsAtJoint(s, last, cells[j]);
      }
    }
  }

  /** With the first `n` cells laid out, each starts where its column starts. */
  lemma {:induction false} LayoutPrefix(cells: seq<string>, widths: seq<nat>, n: nat)
    requires Fits(cells, widths) && n <= |cells|
    ensures |Concat(FormattedCells(cells, widths)[..n])| == Offset(widths, n)
    ensures Placed(Concat(FormattedCells(cells, widths)[..n]), cells, widths, n)
    decreases n
  {
    var f := FormattedCells(cells, widths);
    if n == 0 {
      assert f[..0] == [];
    } else {
      LayoutPrefix(cells, widths, n - 1);
      var s := Concat(f[..n - 1]);
      var last := f[n - 1];
      assert n <= |widths| && |cells[n - 1]| <= widths[n - 1];
      assert last == LeftJustify(cells[n - 1], widths[n - 1] + 4);
      assert f[..n] == f[..n - 1] + [last];
      ConcatAppend(f[..n - 1], last);
      PlaceNext(s, last, cells, widths, n);
      assert Concat(f[..n]) == s + last;
    }
  }

  /** When every cell fits its column, the cells glued together start each column at its
      offset, so the rows of a table line up; the row is that text with only whitespace
      removed from its end. */
  lemma RowAlignment(cells: seq<string>, widths: seq<nat>)
    requires Fits(cells, widths)
    ensures var padded := Concat(FormattedCells(cells, widths));
      |padded| == Offset(widths, |cells|)
      && Placed(padded, cells, widths, |cells|)
      && TableRow(cells, widths) == padded[..|TableRow(cells, widths)|]
      && (forall k :: |TableRow(cells, widths)| <= k < |padded| ==> IsSpace(padded[k]))
  {
    var f := FormattedCells(cells, widths);
    LayoutPrefix(cells, widths, |cells|);
    assert f[..|cells|] == f;
    SpaceRunStartIsSpace(Concat(f), |Concat(f)|);
  }

  // ------------------------------------------------------------------ numeric values

  /** Digits with single underscores between them, as `float` accepts them. */
  predicate DigitPart(s: string) {
    s != [] && IsDigit(s[0])
    && forall i :: 0 <= i < |s| ==> IsDigit(s[i]) || (s[i] == '_' && i + 1 < |s| && IsDigit(s[i + 1]))
  }

  /** Digits with an optional fraction, or a fraction alone: "12", "12.", "12.5", ".5". */
  predicate DecimalPart(s: string) {
    DigitPart(s)
    || exists i :: 0 <= i < |s| && s[i] == '.' && (DigitPart(s[..i]) || s[..i] == [])
                   && (DigitPart(s[i + 1..]) || (s[i + 1..] == [] && s[..i] != []))
  }

  /** An optionally signed digit part. */
  predicate SignedDigits(s: string) {
    DigitPart(s) || (s != [] && (s[0] == '+' || s[0] == '-') && DigitPart(s[1..]))
  }

  /** A decimal with an optional exponent. */
  predicate Number(s: string) {
    DecimalPart(s)
    || exists i :: 0 <= i < |s| && (s[i] == 'e' || s[i] == 'E') && DecimalPart(s[..i]) && SignedDigits(s[i + 1..])
  }

  /** The spellings of infinity and not-a-number `float` accepts, case ignored. */
  predicate Special(s: string) {
    LowerStr(s) == "inf" || LowerStr(s) == "infinity" || LowerStr(s) == "nan"
  }

  /** `float(s)` succeeds on a string without surrounding whitespace: an optional sign, then a
      number or a special value. */
  predicate ParsesAsFloat(s: string) {
    var body := if s != [] && (s[0] == '+' || s[0] == '-') then s[1..] else s;
    Number(body) || Special(body)
  }

  /** `value.replace(',', '.')`. */
  function CommaToPoint(value: string): (r: string)
    ensures |r| == |value|
    ensures forall i :: 0 <= i < |r| ==> r[i] == (if value[i] == ',' then '.' else value[i])
  {
    seq(|value|, i requires 0 <= i < |value| => if value[i] == ',' then '.' else value[i])
  }

  /** `_add_semicolon_if_numeric`: an empty value stays empty; any other value gets a ';'
      exactly when, with commas read as decimal points and surrounding whitespace dropped, it
      is a number. */
  function AddSemicolonIfNumeric(value: string): (r: string)
    ensures value == [] ==> r == []
    ensures r == value + ";" || r == value
    ensures r == value + ";" <==> value != [] && ParsesAsFloat(Strip(CommaToPoint(value)))
  {
    if value == [] then value
    else if ParsesAsFloat(Strip(CommaToPoint(value))) then value + ";"
    else value
  }

  /** A whole number gets the semicolon. */
  lemma SemicolonOfWholeNumber()
    ensures AddSemicolonIfNumeric("1234") == "1234;"
  {
    assert CommaToPoint("1234") == "1234";
    StripOfStripped("1234");
    assert DigitPart("1234");
    assert DecimalPart("1234");
  }

  /** A decimal comma counts as a decimal point. */
  lemma SemicolonOfDecimalComma()
    ensures AddSemicolonIfNumeric("3,5") == "3,5;"
  {
    assert CommaToPoint("3,5") == "3.5";
    StripOfStripped("3.5");
    var t := "3.5";
    assert t[..1] == "3" && t[2..] == "5" && t[1] == '.';
    assert DigitPart("3") && DigitPart("5");
    assert DecimalPart(t);
  }

  /** Text is left as it is. */
  lemma NoSemicolonOnText()
    ensures AddSemicolonIfNumeric("Not found") == "Not found"
  {
    var t := "Not found";
    assert CommaToPoint(t) == t;
    StripOfStripped(t);
    assert forall i :: 0 <= i < |t| ==> t[i] != '.' && t[i] != 'e' && t[i] != 'E';
    assert !DigitPart(t);
    assert !DecimalPart(t);
    assert !Number(t);
    assert LowerStr(t)[0] == 'n';
    assert !Special(t);
  }

  // ------------------------------------------------------------------ keyword groups

  /** The matches of one keyword, in their order. */
  function OfKeyword(ms: seq<ExtractionMatch>, k: string): seq<ExtractionMatch>
    decreases |ms|
  {
    if ms == [] then []
    else OfKeyword(ms[..|ms| - 1], k) + (if ms[|ms| - 1].keyword == k then [ms[|ms| - 1]] else [])
  }

  /** The keywords of some matches. */
  function Keywords(ms: seq<ExtractionMatch>): set<string> {
    set i | 0 <= i < |ms| :: ms[i].keyword
  }

  /** `keyword_groups` after the matches seen so far. */
  function Grouped(ms: seq<ExtractionMatch>): map<string, seq<ExtractionMatch>>
    decreases |ms|
  {
    if ms == [] then map[]
    else
      var g := Grouped(ms[..|ms| - 1]);
      var m := ms[|ms| - 1];
      g[m.keyword := (if m.keyword in g then g[m.keyword] else []) + [m]]
  }

  /** The grouping loop of `format_output`. */
  method GroupMatches(ms: seq<ExtractionMatch>) returns (groups: map<string, seq<ExtractionMatch>>)
    ensures groups == Grouped(ms)
  {
    groups := map[];
    for i := 0 to |ms|
      invariant groups == Grouped(ms[..i])
    {
      assert ms[..i + 1][..i] == ms[..i];
      var m := ms[i];
      if m.keyword !in groups {
        groups := groups[m.keyword := []];
      }
      groups := groups[m.keyword := groups[m.keyword] + [m]];
    }
    assert ms[..|ms|] == ms;
  }

  /** There is a group for each keyword and no other, and it holds that keyword's matches in
      their order. */
  lemma {:induction false} GroupedMeaning(ms: seq<ExtractionMatch>)
    ensures Grouped(ms).Keys == Keywords(ms)
    ensures forall k :: k in Grouped(ms) ==> Grouped(ms)[k] == OfKeyword(ms, k) && Grouped(ms)[k] != []
    decreases |ms|
  {
    if ms != [] {
      var init := ms[..|ms| - 1];
      var m := ms[|ms| - 1];
      GroupedMeaning(init);
      assert Keywords(ms) == Keywords(init) + {m.keyword} by {
        assert forall i :: 0 <= i < |init| ==> init[i] == ms[i];
      }
      forall k | k in Grouped(ms) ensures Grouped(ms)[k] == OfKeyword(ms, k) {
        if k != m.keyword {
          assert k in Grouped(init);
        } else if k !in Grouped(init) {
          assert OfKeyword(init, k) == [] by {
            NoneOfKeyword(init, k);
          }
        }
      }
    }
  }

  /** A keyword no match has has no matches. */
  lemma {:induction false} NoneOfKeyword(ms: seq<ExtractionMatch>, k: string)
    requires k !in Keywords(ms)
    ensures OfKeyword(ms, k) == []
    decreases |ms|
  {
    if ms != [] {
      var init := ms[..|ms| - 1];
      assert Keywords(init) <= Keywords(ms) by {
        assert forall i :: 0 <= i < |init| ==> init[i] == ms[i];
      }
      NoneOfKeyword(init, k);
      assert ms[|ms| - 1].keyword in Keywords(ms);
    }
  }

  // ------------------------------------------------------------------ sorted headers

  /** Python's string order: code point by code point, a proper prefix first. */
  predicate Below(a: string, b: string)
    decreases |a|
  {
    if a == [] then b != []
    else if b == [] then false
    else if a[0] != b[0] then a[0] < b[0]
    else Below(a[1..], b[1..])
  }

  lemma {:induction false} BelowIrreflexive(a: string)
    ensures !Below(a, a)
    decreases |a|
  {
    if a != [] {
      BelowIrreflexive(a[1..]);
    }
  }

  lemma {:induction false} BelowTransitive(a: string, b: string, c: string)
    requires Below(a, b) && Below(b, c)
    ensures Below(a, c)
    decreases |a|
  {
    if a != [] && b != [] && c != [] && a[0] == b[0] && b[0] == c[0] {
      BelowTransitive(a[1..], b[1..], c[1..]);
    }
  }

  /** Two different strings are ordered one way or the other. */
  lemma {:induction false} BelowTotal(a: string, b: string)
    requires a != b
    ensures Below(a, b) || Below(b, a)
    decreases |a|
  {
    if a != [] && b != [] && a[0] == b[0] {
      assert a == [a[0]] + a[1..] && b == [b[0]] + b[1..];
      BelowTotal(a[1..], b[1..]);
    }
  }

  /** Each string comes strictly before the next. */
  predicate StrictlySorted(h: seq<string>) {
    forall i, j :: 0 <= i < j < |h| ==> Below(h[i], h[j])
  }

  /** `k` put into its place in a sorted sequence. */
  function Insert(h: seq<string>, k: string): (r: seq<string>)
    ensures |r| == |h| + 1
    decreases |h|
  {
    if h == [] then [k]
    else if Below(k, h[0]) then [k] + h
    else [h[0]] + Insert(h[1..], k)
  }

  /** Inserting a new string keeps the order and adds just that string. */
  lemma {:induction false} InsertKeeps(h: seq<string>, k: string)
    requires StrictlySorted(h) && k !in h
    ensures StrictlySorted(Insert(h, k))
    ensures forall x :: x in Insert(h, k) <==> x in h || x == k
    decreases |h|
  {
    if h != [] && !Below(k, h[0]) {
      var t := h[1..];
      assert StrictlySorted(t) by {
        forall i, j | 0 <= i < j < |t| ensures Below(t[i], t[j]) {
          assert t[i] == h[i + 1] && t[j] == h[j + 1];
        }
      }
      InsertKeeps(t, k);
      var rest := Insert(t, k);
      assert k != h[0];
      BelowTotal(k, h[0]);
      forall x | x in rest ensures Below(h[0], x) {
        if x == k {
        } else {
          var j :| 0 <= j < |t| && t[j] == x;
          assert h[j + 1] == x;
        }
      }
      var r := [h[0]] + rest;
      forall i, j | 0 <= i < j < |r| ensures Below(r[i], r[j]) {
        if i > 0 {
          assert r[i] == rest[i - 1] && r[j] == rest[j - 1];
        } else {
          assert r[j] in rest;
        }
      }
    } else if h != [] {
      var r := [k] + h;
      forall i, j | 0 <= i < j < |r| ensures Below(r[i], r[j]) {
        if i > 0 {
          assert r[i] == h[i - 1] && r[j] == h[j - 1];
        } else if j > 1 {
          assert r[j] == h[j - 1];
          BelowTransitive(k, h[0], h[j - 1]);
        }
      }
    }
  }

  /** `sorted(keyword_groups.keys())`: each keyword once, in string order. */
  function Headers(ms: seq<ExtractionMatch>): seq<string>
    decreases |ms|
  {
    if ms == [] then []
    else
      var h := Headers(ms[..|ms| - 1]);
      var k := ms[|ms| - 1].keyword;
      if k in h then h else Insert(h, k)
  }

  /** The headers are the keywords of the matches, strictly sorted. */
  lemma {:induction false} HeadersMeaning(ms: seq<ExtractionMatch>)
    ensures StrictlySorted(Headers(ms))
    ensures forall k :: k in Headers(ms) <==> k in Keywords(ms)
    decreases |ms|
  {
    if ms != [] {
      var init := ms[..|ms| - 1];
      HeadersMeaning(init);
      assert Keywords(ms) == Keywords(init) + {ms[|ms| - 1].keyword} by {
        assert forall i :: 0 <= i < |init| ==> init[i] == ms[i];
      }
      if ms[|ms| - 1].keyword !in Headers(init) {
        InsertKeeps(Headers(init), ms[|ms| - 1].keyword);
      }
    }
  }

  /** There is one strictly sorted order of a set of strings, so the headers are exactly
      what `sorted` gives for the keys of the groups. */
  lemma {:induction false} SortedUnique(a: seq<string>, b: seq<string>)
    requires StrictlySorted(a) && StrictlySorted(b)
    requires forall x :: x in a <==> x in b
    ensures a == b
    decreases |a|
  {
    if a != [] && b != [] {
      assert a[0] in a && b[0] in b;
      if a[0] != b[0] {
        SortedFirst(a, b[0]);
        SortedFirst(b, a[0]);
        BelowTransitive(a[0], b[0], a[0]);
        BelowIrreflexive(a[0]);
      }
      var ta, tb := a[1..], b[1..];
      forall x ensures x in ta <==> x in tb {
        SortedRest(a, x);
        SortedRest(b, x);
      }
      SortedTail(a);
      SortedTail(b);
      SortedUnique(ta, tb);
      assert a == [a[0]] + ta && b == [b[0]] + tb;
    } else if a != [] {
      HasFirst(a);
    } else if b != [] {
      HasFirst(b);
    }
  }

  lemma HasFirst(a: seq<string>)
    requires a != []
    ensures a[0] in a
  {
  }

  /** In a sorted sequence every other element comes after the first. */
  lemma SortedFirst(a: seq<string>, x: string)
    requires StrictlySorted(a) && x in a && x != a[0]
    ensures Below(a[0], x)
  {
    var i :| 0 <= i < |a| && a[i] == x;
  }

  /** The rest of a sorted sequence holds everything but its first element. */
  lemma SortedRest(a: seq<string>, x: string)
    requires StrictlySorted(a) && a != []
    ensures x in a[1..] <==> x in a && x != a[0]
  {
    if x in a[1..] {
      var i :| 0 <= i < |a[1..]| && a[1..][i] == x;
      assert a[i + 1] == x;
      BelowIrreflexive(x);
    }
    if x in a && x != a[0] {
      var i :| 0 <= i < |a| && a[i] == x;
      assert a[1..][i - 1] == x;
    }
  }

  lemma SortedTail(a: seq<string>)
    requires StrictlySorted(a) && a != []
    ensures StrictlySorted(a[1..])
  {
    var t := a[1..];
    forall i, j | 0 <= i < j < |t| ensures Below(t[i], t[j]) {
      assert t[i] == a[i + 1] && t[j] == a[j + 1];
    }
  }

  // ------------------------------------------------------------------ keyword table

  /** How one match is shown: a found value with its numeric ';', "Not found", or an ambiguous
      value with its ';' and a marker. */
  function MatchCell(m: ExtractionMatch): string {
    match m.status
    case Found => AddSemicolonIfNumeric(m.value)
    case NotFound => "Not found"
    case Ambiguous => AddSemicolonIfNumeric(m.value) + " [Ambiguous]"
  }

  /** The cell of row `r` for a keyword's matches: its `r`-th match, or empty. */
  function CellAt(group: seq<ExtractionMatch>, r: nat): string {
    if r < |group| then MatchCell(group[r]) else ""
  }

  /** Every header names a group. */
  predicate Covers(groups: map<string, seq<ExtractionMatch>>, headers: seq<string>) {
    forall c :: 0 <= c < |headers| ==> headers[c] in groups
  }

  /** `max_matches`: the size of the largest group. */
  function MaxGroup(groups: map<string, seq<ExtractionMatch>>, headers: seq<string>): nat
    requires Covers(groups, headers)
    decreases |headers|
  {
    if headers == [] then 0
    else Max(MaxGroup(groups, headers[..|headers| - 1]), |groups[headers[|headers| - 1]]|)
  }

  /** No group is larger than the largest, and some group is as large. */
  lemma {:induction false} MaxGroupMeaning(groups: map<string, seq<ExtractionMatch>>, headers: seq<string>)
    requires Covers(groups, headers)
    ensures forall c :: 0 <= c < |headers| ==> |groups[headers[c]]| <= MaxGroup(groups, headers)
    ensures headers != [] ==> exists c :: 0 <= c < |headers| && |groups[headers[c]]| == MaxGroup(groups, headers)
    decreases |headers|
  {
    if headers != [] {
      var init := headers[..|headers| - 1];
      MaxGroupMeaning(groups, init);
      assert forall c :: 0 <= c < |init| ==> init[c] == headers[c];
      if MaxGroup(groups, headers) != |groups[headers[|headers| - 1]]| {
        var c :| 0 <= c < |init| && |groups[init[c]]| == MaxGroup(groups, init);
        assert |groups[headers[c]]| == MaxGroup(groups, headers);
      }
    }
  }

  /** Row `r` of the table: one cell per header. */
  function RowOf(groups: map<string, seq<ExtractionMatch>>, headers: seq<string>, r: nat): (row: seq<string>)
    requires Covers(groups, headers)
    ensures |row| == |headers|
  {
    seq(|headers|, c requires 0 <= c < |headers| => CellAt(groups[headers[c]], r))
  }

  /** The inner loop of the row building. */
  method BuildRow(groups: map<string, seq<ExtractionMatch>>, headers: seq<string>, r: nat) returns (row: seq<string>)
    requires Covers(groups, headers)
    ensures row == RowOf(groups, headers, r)
  {
    row := [];
    for c := 0 to |headers|
      invariant row == RowOf(groups, headers[..c], r)
    {
      var matches := groups[headers[c]];
      var cell := if r < |matches| then MatchCell(matches[r]) else "";
      RowOfStep(groups, headers, c, r);
      row := row + [cell];
    }
    assert headers[..|headers|] == headers;
  }

  /** A row over one more header gains that header's cell. */
  lemma RowOfStep(groups: map<string, seq<ExtractionMatch>>, headers: seq<string>, c: nat, r: nat)
    requires Covers(groups, headers) && c < |headers|
    ensures Covers(groups, headers[..c]) && Covers(groups, headers[..c + 1])
    ensures RowOf(groups, headers[..c + 1], r) == RowOf(groups, headers[..c], r) + [CellAt(groups[headers[c]], r)]
  {
    var a := RowOf(groups, headers[..c + 1], r);
    var b := RowOf(groups, headers[..c], r) + [CellAt(groups[headers[c]], r)];
    assert forall i :: 0 <= i < c ==> headers[..c + 1][i] == headers[..c][i];
    assert |a| == |b|;
    forall i | 0 <= i < |a| ensures a[i] == b[i] {
      if i < c {
        assert headers[..c + 1][i] == headers[..c][i];
      }
    }
  }

  /** The rows of the table. */
  function RowsOf(groups: map<string, seq<ExtractionMatch>>, headers: seq<string>, count: nat): (rows: seq<seq<string>>)
    requires Covers(groups, headers)
    ensures |rows| == count
  {
    seq(count, r requires 0 <= r < count => RowOf(groups, headers, r))
  }

  /** The outer loop of the row building. */
  method BuildRows(groups: map<string, seq<ExtractionMatch>>, headers: seq<string>, count: nat) returns (rows: seq<seq<string>>)
    requires Covers(groups, headers)
    ensures rows == RowsOf(groups, headers, count)
  {
    rows := [];
    for r := 0 to count
      invariant rows == RowsOf(groups, headers, r)
    {
      var row := BuildRow(groups, headers, r);
      rows := rows + [row];
    }
  }

  /** The headers of the keyword table name its groups. */
  lemma HeadersCover(ms: seq<ExtractionMatch>)
    ensures Covers(Grouped(ms), Headers(ms))
  {
    GroupedMeaning(ms);
    HeadersMeaning(ms);
  }

  /** The rows of the keyword table. */
  function Table(ms: seq<ExtractionMatch>): seq<seq<string>> {
    HeadersCover(ms);
    var g := Grouped(ms);
    var h := Headers(ms);
    RowsOf(g, h, MaxGroup(g, h))
  }

  /** The table has a row for each match of the most frequent keyword and no more, at least
      one when there are matches. */
  lemma TableSize(ms: seq<ExtractionMatch>)
    ensures ms != [] ==> |Table(ms)| >= 1
    ensures forall c :: 0 <= c < |Headers(ms)| ==> |OfKeyword(ms, Headers(ms)[c])| <= |Table(ms)|
    ensures ms != [] ==> exists c :: 0 <= c < |Headers(ms)| && |OfKeyword(ms, Headers(ms)[c])| == |Table(ms)|
  {
    HeadersCover(ms);
    GroupedMeaning(ms);
    var g := Grouped(ms);
    var h := Headers(ms);
    MaxGroupMeaning(g, h);
    if ms != [] {
      HeadersMeaning(ms);
      assert ms[0].keyword in Keywords(ms);
      assert ms[0].keyword in h;
      var c :| 0 <= c < |h| && |g[h[c]]| == MaxGroup(g, h);
      assert g[h[c]] != [];
    }
  }

  /** Row `r` of the table shows each keyword's `r`-th match, in the order of the matches,
      under that keyword's header, or an empty cell. */
  lemma TableCells(ms: seq<ExtractionMatch>)
    ensures forall r :: 0 <= r < |Table(ms)| ==> |Table(ms)[r]| == |Headers(ms)|
    ensures forall r, c :: 0 <= r < |Table(ms)| && 0 <= c < |Headers(ms)| ==>
      Table(ms)[r][c] == CellAt(OfKeyword(ms, Headers(ms)[c]), r)
  {
    HeadersCover(ms);
    GroupedMeaning(ms);
  }

  /** Every cell of the table and every header fits its column, so each line of the table is
      laid out as `RowAlignment` describes: column `c` starts at the same place on every
      line. */
  lemma TableFits(ms: seq<ExtractionMatch>)
    ensures Fits(Headers(ms), Widths(Headers(ms), Table(ms)))
    ensures forall r :: 0 <= r < |Table(ms)| ==> Fits(Table(ms)[r], Widths(Headers(ms), Table(ms)))
  {
    var h := Headers(ms);
    var rows := Table(ms);
    var w := Widths(h, rows);
    TableCells(ms);
    forall c | 0 <= c < |h| ensures |h[c]| <= w[c] {
      ColumnWidthMeaning(h[c], rows, c);
    }
    forall r, c | 0 <= r < |rows| && 0 <= c < |rows[r]| ensures |rows[r][c]| <= w[c] {
      ColumnWidthMeaning(h[c], rows, c);
    }
  }

  /** The lines of the table: the header row, then each row, all with the same widths. */
  function TableLines(rows: seq<seq<string>>, widths: seq<nat>): (r: seq<string>)
    ensures |r| == |rows|
  {
    seq(|rows|, i requires 0 <= i < |rows| => TableRow(rows[i], widths))
  }

  /** The keyword section below its title. */
  function KeywordSection(ms: seq<ExtractionMatch>): seq<string> {
    if ms == [] then ["No keyword extractions performed"]
    else
      var h := Headers(ms);
      var w := Widths(h, Table(ms));
      [TableRow(h, w)] + TableLines(Table(ms), w)
  }

  /** The keyword part of `format_output`. */
  method FormatKeywordSection(ms: seq<ExtractionMatch>) returns (lines: seq<string>)
    ensures lines == KeywordSection(ms)
  {
    if ms == [] {
      return ["No keyword extractions performed"];
    }
    var groups := GroupMatches(ms);
    var headers := Headers(ms);
    HeadersCover(ms);
    var count := MaxGroup(groups, headers);
    var rows := BuildRows(groups, headers, count);
    var widths := ColumnWidths(headers, rows);
    var headerLine := FormatTableRow(headers, widths);
    lines := [headerLine];
    for r := 0 to |rows|
      invariant lines == [headerLine] + TableLines(rows[..r], widths)
    {
      var line := FormatTableRow(rows[r], widths);
      TableLinesStep(rows, widths, r);
      lines := lines + [line];
    }
    assert rows[..|rows|] == rows;
  }

  lemma TableLinesStep(rows: seq<seq<string>>, widths: seq<nat>, r: nat)
    requires r < |rows|
    ensures TableLines(rows[..r + 1], widths) == TableLines(rows[..r], widths) + [TableRow(rows[r], widths)]
  {
    assert forall i :: 0 <= i < r ==> rows[..r + 1][i] == rows[..r][i];
  }

  // ------------------------------------------------------------------ warnings and errors

  /** A titled list: one "- item" line per item, or "None". */
  function ListSection(title: string, items: seq<string>): (r: seq<string>)
    ensures |r| == 1 + (if items == [] then 1 else |items|)
  {
    [title] + (if items == [] then ["None"] else seq(|items|, i requires 0 <= i < |items| => "- " + items[i]))
  }

  /** The items back from the lines of a list. */
  function ReadList(lines: seq<string>): seq<string> {
    if |lines| == 2 && lines[1] == "None" then []
    else seq(if lines == [] then 0 else |lines| - 1,
             i requires 0 <= i < |lines| - 1 => if |lines[i + 1]| >= 2 then lines[i + 1][2..] else [])
  }

  /** A list shows every item, and only the items, in their order: reading it back gives them
      again, the empty list included. */
  lemma ListSectionRoundTrip(title: string, items: seq<string>)
    ensures ReadList(ListSection(title, items)) == items
  {
    var lines := ListSection(title, items);
    if items != [] {
      assert lines[1] == "- " + items[0];
      assert lines[1][0] == '-';
      var back := ReadList(lines);
      forall i | 0 <= i < |items| ensures back[i] == items[i] {
        assert lines[i + 1] == "- " + items[i];
      }
    }
  }

  /** The loop that appends a list to the report. */
  method AppendList(lines: seq<string>, title: string, items: seq<string>) returns (out: seq<string>)
    ensures out == lines + ListSection(title, items)
  {
    out := lines + [title];
    if items == [] {
      out := out + ["None"];
    } else {
      for i := 0 to |items|
        invariant out == lines + [title] + seq(i, j requires 0 <= j < i => "- " + items[j])
      {
        out := out + ["- " + items[i]];
      }
    }
  }

  /** `error['message']` of each error. */
  function Messages(errors: seq<ExtractionError>): (r: seq<string>)
    ensures |r| == |errors|
    ensures forall i :: 0 <= i < |r| ==> r[i] == errors[i].message
  {
    seq(|errors|, i requires 0 <= i < |errors| => errors[i].message)
  }

  /** The errors section lists the same lines as the results' error summary. */
  lemma ErrorsSectionLines(errors: seq<ExtractionError>)
    ensures errors != [] ==> ListSection("--- Errors ---", Messages(errors))[1..] == ErrorLines(errors)
    ensures errors == [] ==> ListSection("--- Errors ---", Messages(errors)) == ["--- Errors ---", "None"]
  {
  }

  // ------------------------------------------------------------------ the report

  /** The keyword, warnings and errors sections of the report, in their order. */
  function ReportSections(results: ExtractionResults): seq<string> {
    ["--- Keyword Extractions ---"] + KeywordSection(results.matches) + [""]
    + ListSection("--- Warnings ---", results.warnings) + [""]
    + ListSection("--- Errors ---", Messages(results.errors))
  }

  /** Those sections of `format_output`, appended line by line. */
  method FormatReportSections(results: ExtractionResults) returns (lines: seq<string>)
    ensures lines == ReportSections(results)
  {
    lines := ["--- Keyword Extractions ---"];
    var keywordLines := FormatKeywordSection(results.matches);
    lines := lines + keywordLines + [""];
    lines := AppendList(lines, "--- Warnings ---", results.warnings);
    lines := lines + [""];
    lines := AppendList(lines, "--- Errors ---", Messages(results.errors));
  }
}
