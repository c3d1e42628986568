/**
 * The file chooser of the main window (ui/file_selector.py) without its widgets: how the text
 * of a drag-and-drop event becomes file paths, which dropped path is taken, and which files a
 * selection accepts. Whether a file exists is a parameter.
 */
module FileSelection {
  import opened Wrappers
  import opened Text
  import opened DocxParser
  import opened ParserFactory

  // ------------------------------------------------------------------ splitting

  /** `s.split(sep)` for a non-empty separator: the pieces between its leftmost
      non-overlapping occurrences. */
  function SplitSep(s: string, sep: string): (r: seq<string>)
    requires sep != []
    ensures |r| >= 1
    decreases |s|
  {
    if StartsAt(s, 0, sep) then [[]] + SplitSep(s[|sep|..], sep)
    else if s == [] then [[]]
    else
      var rest := SplitSep(s[1..], sep);
      [[s[0]] + rest[0]] + rest[1..]
  }

  /** Joining the pieces with the separator gives the text back: the split loses nothing. */
  lemma {:induction false} JoinSplitSep(s: string, sep: string)
    requires sep != []
    ensures Join(SplitSep(s, sep), sep) == s
    decreases |s|
  {
    if StartsAt(s, 0, sep) {
      JoinSplitSep(s[|sep|..], sep);
      JoinSplitSepAtSep(s, sep);
    } else if s != [] {
      JoinSplitSep(s[1..], sep);
      JoinSplitSepAtChar(s, sep);
    }
  }

  /** The round trip over a leading separator. */
  lemma JoinSplitSepAtSep(s: string, sep: string)
    requires sep != [] && StartsAt(s, 0, sep)
    requires Join(SplitSep(s[|sep|..], sep), sep) == s[|sep|..]
    ensures Join(SplitSep(s, sep), sep) == s
  {
    var rest := SplitSep(s[|sep|..], sep);
    assert SplitSep(s, sep) == [[]] + rest;
    assert Join([[]] + rest, sep) == [] + sep + Join(rest, sep);
    assert s == sep + s[|sep|..];
  }

  /** The round trip over a leading character that does not start a separator. */
  lemma JoinSplitSepAtChar(s: string, sep: string)
    requires sep != [] && s != [] && !StartsAt(s, 0, sep)
    requires Join(SplitSep(s[1..], sep), sep) == s[1..]
    ensures Join(SplitSep(s, sep), sep) == s
  {
    var rest := SplitSep(s[1..], sep);
    assert SplitSep(s, sep) == [[s[0]] + rest[0]] + rest[1..];
    JoinPrepend(s[0], rest, sep);
    assert s == [s[0]] + s[1..];
  }

  /** A character put before the first piece comes first in the join. */
  lemma JoinPrepend(c: char, parts: seq<string>, sep: string)
    requires parts != []
    ensures Join([[c] + parts[0]] + parts[1..], sep) == [c] + Join(parts, sep)
  {
    if |parts| > 1 {
      var q := [[c] + parts[0]] + parts[1..];
      assert q[1..] == parts[1..];
    }
  }

  /** A piece free of the separator's first character, then the separator: the piece is the
      first part of the split. */
  lemma {:induction false} SplitSepLead(a: string, sep: string, rest: string)
    requires sep != [] && sep[0] !in a
    ensures SplitSep(a + sep + rest, sep) == [a] + SplitSep(rest, sep)
    decreases |a|
  {
    var s := a + sep + rest;
    if a == [] {
      assert s == sep + rest;
      assert s[..|sep|] == sep && s[|sep|..] == rest;
    } else {
      assert s[0] == a[0];
      assert s[1..] == a[1..] + sep + rest;
      SplitSepLead(a[1..], sep, rest);
      assert [a[0]] + a[1..] == a;
    }
  }

  /** The separator occurs nowhere in `a`. */
  predicate NoSepIn(a: string, sep: string) {
    forall p :: 0 <= p < |a| ==> !StartsAt(a, p, sep)
  }

  /** Text without the separator is one piece. */
  lemma {:induction false} SplitSepNone(a: string, sep: string)
    requires sep != [] && NoSepIn(a, sep)
    ensures SplitSep(a, sep) == [a]
    decreases |a|
  {
    if a != [] {
      assert !StartsAt(a, 0, sep);
      var t := a[1..];
      assert NoSepIn(t, sep) by {
        forall p | 0 <= p < |t| ensures !StartsAt(t, p, sep) {
          assert !StartsAt(a, p + 1, sep);
          if p + |sep| <= |t| {
            assert t[p..p + |sep|] == a[p + 1..p + 1 + |sep|];
          }
        }
      }
      SplitSepNone(t, sep);
      assert [a[0]] + t == a;
    }
  }

  /** Pieces joined with the separator split back into the same pieces when none but the last
      holds the separator's first character and the last holds no separator. */
  lemma {:induction false} SplitSepJoin(parts: seq<string>, sep: string)
    requires sep != [] && parts != []
    requires forall i :: 0 <= i < |parts| - 1 ==> sep[0] !in parts[i]
    requires NoSepIn(parts[|parts| - 1], sep)
    ensures SplitSep(Join(parts, sep), sep) == parts
    decreases |parts|
  {
    if |parts| == 1 {
      SplitSepNone(parts[0], sep);
    } else {
      var tail := parts[1..];
      assert forall i :: 0 <= i < |tail| - 1 ==> tail[i] == parts[i + 1];
      SplitSepJoin(tail, sep);
      SplitSepLead(parts[0], sep, Join(tail, sep));
      assert parts == [parts[0]] + tail;
    }
  }

  // ------------------------------------------------------------------ braces

  predicate IsBrace(c: char) { c == '{' || c == '}' }

  /** `s.lstrip('{}')`. */
  function TrimBracesLeft(s: string): (r: string)
    ensures r == [] || !IsBrace(r[0])
    decreases |s|
  {
    if s != [] && IsBrace(s[0]) then TrimBracesLeft(s[1..]) else s
  }

  /** `s.rstrip('{}')`. */
  function TrimBracesRight(s: string): (r: string)
    ensures r == [] || !IsBrace(r[|r| - 1])
    decreases |s|
  {
    if s != [] && IsBrace(s[|s| - 1]) then TrimBracesRight(s[..|s| - 1]) else s
  }

  /** `part.strip('{}').strip()`: what the brace branch keeps of one piece. */
  function DropPart(part: string): string { Strip(TrimBracesRight(TrimBracesLeft(part))) }

  /** A path without braces at its ends loses only the braces wrapped around it. */
  lemma DropPartOfWrapped(p: string, open: bool, close: bool)
    requires p != [] && !IsBrace(p[0]) && !IsBrace(p[|p| - 1]) && Strip(p) == p
    ensures DropPart((if open then "{" else "") + p + (if close then "}" else "")) == p
  {
    var q := p + (if close then "}" else "");
    var s := (if open then "{" else "") + q;
    assert s == (if open then "{" else "") + p + (if close then "}" else "");
    OpenTrimmed(q, open);
    CloseTrimmed(p, close);
  }

  lemma OpenTrimmed(q: string, open: bool)
    requires q != [] && !IsBrace(q[0])
    ensures TrimBracesLeft((if open then "{" else "") + q) == q
  {
    if open {
      assert ("{" + q)[1..] == q;
    } else {
      assert "" + q == q;
    }
  }

  lemma CloseTrimmed(p: string, close: bool)
    requires p != [] && !IsBrace(p[|p| - 1])
    ensures TrimBracesRight(p + (if close then "}" else "")) == p
  {
    if close {
      assert (p + "}")[..|p|] == p;
    } else {
      assert p + "" == p;
    }
  }

  /** The paths the brace branch keeps from some pieces, in order. */
  function KeepParts(parts: seq<string>): (r: seq<string>)
    ensures forall i :: 0 <= i < |r| ==> r[i] != []
    decreases |parts|
  {
    if parts == [] then []
    else (if DropPart(parts[0]) != [] then [DropPart(parts[0])] else []) + KeepParts(parts[1..])
  }

  /** The brace branch's loop over the pieces. */
  method KeepBracedParts(parts: seq<string>) returns (files: seq<string>)
    ensures files == KeepParts(parts)
  {
    files := [];
    assert parts[0..] == parts;
    for i := 0 to |parts|
      invariant files + KeepParts(parts[i..]) == KeepParts(parts)
    {
      var part := DropPart(parts[i]);
      KeepPartsFront(parts, i);
      KeepStep(files, part, KeepParts(parts[i + 1..]));
      if part != [] {
        files := files + [part];
      }
    }
  }

  /** Keeping a piece's path or not, before the rest. */
  lemma KeepStep(files: seq<string>, part: string, rest: seq<string>)
    ensures files + ((if part != [] then [part] else []) + rest)
      == (if part != [] then files + [part] else files) + rest
  {
  }

  /** Keeping from position `i` on keeps the piece at `i`, then the rest. */
  lemma KeepPartsFront(parts: seq<string>, i: nat)
    requires i < |parts|
    ensures KeepParts(parts[i..])
      == (if DropPart(parts[i]) != [] then [DropPart(parts[i])] else []) + KeepParts(parts[i + 1..])
  {
    assert parts[i..][1..] == parts[i + 1..];
  }

  // ------------------------------------------------------------------ drop data

  /** The separator Tk puts between brace-wrapped paths. */
  const BraceSep := "} {"

  /** `_parse_drop_data`: data starting with '{' is split between brace-wrapped paths, each
      piece losing its braces and whitespace; other data is split at whitespace. Empty pieces
      are dropped in both cases. */
  function DropFiles(data: string): seq<string> {
    if data != [] && data[0] == '{' then KeepParts(SplitSep(data, BraceSep))
    else NonBlankParagraphs(SplitWhitespace(data))
  }

  /** `_parse_drop_data`. */
  method ParseDropData(data: string) returns (files: seq<string>)
    ensures files == DropFiles(data)
  {
    if data != [] && data[0] == '{' {
      var parts := SplitSep(data, BraceSep);
      files := KeepBracedParts(parts);
    } else {
      files := NonBlankParagraphs(SplitWhitespace(data));
    }
  }

  /** Each path is non-empty and has no whitespace around it. */
  lemma {:induction false} KeepPartsClean(parts: seq<string>)
    ensures forall i :: 0 <= i < |KeepParts(parts)| ==> Clean(KeepParts(parts)[i])
    decreases |parts|
  {
    if parts != [] {
      KeepPartsClean(parts[1..]);
      StripIdempotent(TrimBracesRight(TrimBracesLeft(parts[0])));
    }
  }

  /** No dropped path is empty or has whitespace around it, and there are no more paths than
      pieces of the data. */
  lemma DropFilesClean(data: string)
    ensures forall i :: 0 <= i < |DropFiles(data)| ==> Clean(DropFiles(data)[i])
  {
    if data != [] && data[0] == '{' {
      KeepPartsClean(SplitSep(data, BraceSep));
    } else {
      NonBlankClean(SplitWhitespace(data));
    }
  }

  /** Tokens without whitespace are kept as they are. */
  lemma {:induction false} KeepTokens(tokens: seq<string>)
    requires forall i :: 0 <= i < |tokens| ==> tokens[i] != [] && NoSpace(tokens[i])
    ensures NonBlankParagraphs(tokens) == tokens
    decreases |tokens|
  {
    if tokens != [] {
      var init := tokens[..|tokens| - 1];
      var last := tokens[|tokens| - 1];
      assert forall i :: 0 <= i < |init| ==> init[i] == tokens[i];
      KeepTokens(init);
      assert last != [] && NoSpace(last);
      StripOfStripped(last);
      assert Kept(last) == [last];
      assert NonBlankParagraphs(tokens) == NonBlankParagraphs(init) + Kept(last);
      assert tokens == init + [last];
    }
  }

  /** Data not starting with '{' gives its whitespace-separated words, in order. */
  lemma PlainDropIsTokens(data: string)
    requires data == [] || data[0] != '{'
    ensures DropFiles(data) == SplitWhitespace(data)
  {
    KeepTokens(SplitWhitespace(data));
  }

  /** A path fit to be wrapped in braces: not empty, no braces, no whitespace at its ends. */
  predicate Wrappable(p: string) {
    p != [] && Strip(p) == p && forall i :: 0 <= i < |p| ==> !IsBrace(p[i])
  }

  /** Paths wrapped in braces and separated by spaces, as Tk writes them, are read back as
      those paths in order. */
  lemma BracedDropRoundTrip(paths: seq<string>)
    requires paths != []
    requires forall i :: 0 <= i < |paths| ==> Wrappable(paths[i])
    ensures DropFiles("{" + Join(paths, BraceSep) + "}") == paths
  {
    var parts := Wrapped(paths);
    WrappedJoin(paths);
    var data := Join(parts, BraceSep);
    WrappedParts(paths);
    SplitSepJoin(parts, BraceSep);
    assert data[0] == '{' by { JoinStartsWithFirst(parts, BraceSep); }
    WrappedKept(paths, true);
  }

  /** The pieces the data of some wrapped paths splits into: the first opens a brace and the
      last closes one. */
  function Wrapped(paths: seq<string>): (r: seq<string>)
    requires paths != []
    ensures |r| == |paths|
  {
    WrappedFrom(paths, true)
  }

  /** The pieces of some wrapped paths, the first opening a brace only if `first`. */
  function WrappedFrom(paths: seq<string>, first: bool): (r: seq<string>)
    ensures |r| == |paths|
  {
    seq(|paths|, i requires 0 <= i < |paths| =>
      (if i == 0 && first then "{" else "") + paths[i] + (if i == |paths| - 1 then "}" else ""))
  }

  /** The wrapped data is the pieces joined with the separator. */
  lemma {:induction false} WrappedJoin(paths: seq<string>)
    requires paths != []
    ensures "{" + Join(paths, BraceSep) + "}" == Join(Wrapped(paths), BraceSep)
  {
    var n := |paths|;
    var w := Wrapped(paths);
    if n == 1 {
      assert w[0] == "{" + paths[0] + "}";
      assert Join(w, BraceSep) == w[0];
    } else {
      CloseJoin(paths, "}");
      var closed := paths[..n - 1] + [paths[n - 1] + "}"];
      assert w[0] == "{" + closed[0];
      assert w[1..] == closed[1..] by {
        forall i | 1 <= i < n ensures w[i] == closed[i] {
          if i < n - 1 {
            assert w[i] == paths[i];
          } else {
            assert w[i] == paths[i] + "}";
          }
        }
      }
      calc {
        "{" + Join(paths, BraceSep) + "}";
        "{" + (Join(paths, BraceSep) + "}");
        "{" + Join(closed, BraceSep);
        "{" + (closed[0] + BraceSep + Join(closed[1..], BraceSep));
        w[0] + BraceSep + Join(w[1..], BraceSep);
        Join(w, BraceSep);
      }
    }
  }

  /** Appending to a join appends to its last piece. */
  lemma {:induction false} CloseJoin(parts: seq<string>, suffix: string)
    requires parts != []
    ensures Join(parts, BraceSep) + suffix == Join(parts[..|parts| - 1] + [parts[|parts| - 1] + suffix], BraceSep)
    decreases |parts|
  {
    if |parts| > 1 {
      var tail := parts[1..];
      CloseJoin(tail, suffix);
      var closed := parts[..|parts| - 1] + [parts[|parts| - 1] + suffix];
      assert closed[1..] == tail[..|tail| - 1] + [tail[|tail| - 1] + suffix];
      assert closed[0] == parts[0];
    }
  }

  /** The wrapped pieces meet the conditions under which the split gives them back. */
  lemma WrappedParts(paths: seq<string>)
    requires paths != []
    requires forall i :: 0 <= i < |paths| ==> Wrappable(paths[i])
    ensures forall i :: 0 <= i < |paths| - 1 ==> BraceSep[0] !in Wrapped(paths)[i]
    ensures NoSepIn(Wrapped(paths)[|paths| - 1], BraceSep)
  {
    var w := Wrapped(paths);
    forall i | 0 <= i < |paths| - 1 ensures BraceSep[0] !in w[i] {
      var pre := if i == 0 then "{" else "";
      assert w[i] == pre + paths[i];
      forall k | 0 <= k < |w[i]| ensures w[i][k] != '}' {
        if k >= |pre| {
          assert w[i][k] == paths[i][k - |pre|];
        }
      }
    }
    var n := |paths| - 1;
    var pre := if n == 0 then "{" else "";
    assert w[n] == pre + paths[n] + "}";
    forall p | 0 <= p < |w[n]| - 1 ensures w[n][p] != '}' {
      if p >= |pre| {
        assert w[n][p] == paths[n][p - |pre|];
      }
    }
    forall p | 0 <= p < |w[n]| ensures !StartsAt(w[n], p, BraceSep) {
      if p + |BraceSep| <= |w[n]| {
        assert w[n][p..p + |BraceSep|][0] == w[n][p];
      }
    }
  }

  /** Each wrapped piece gives back its path. */
  lemma {:induction false} WrappedKept(paths: seq<string>, first: bool)
    requires paths != []
    requires forall i :: 0 <= i < |paths| ==> Wrappable(paths[i])
    ensures KeepParts(WrappedFrom(paths, first)) == paths
    decreases |paths|
  {
    var w := WrappedFrom(paths, first);
    FirstKept(paths, first);
    KeepPartsCons(w, paths[0]);
    if |paths| > 1 {
      var tail := paths[1..];
      WrappableTail(paths);
      WrappedTail(paths, first);
      WrappedKept(tail, false);
      assert paths == [paths[0]] + tail;
    }
  }

  /** A piece that gives a path is kept first. */
  lemma KeepPartsCons(parts: seq<string>, x: string)
    requires parts != [] && DropPart(parts[0]) == x && x != []
    ensures KeepParts(parts) == [x] + KeepParts(parts[1..])
  {
  }

  lemma WrappableTail(paths: seq<string>)
    requires |paths| > 1
    requires forall i :: 0 <= i < |paths| ==> Wrappable(paths[i])
    ensures forall i :: 0 <= i < |paths[1..]| ==> Wrappable(paths[1..][i])
  {
    assert forall i :: 0 <= i < |paths[1..]| ==> paths[1..][i] == paths[i + 1];
  }

  /** The first piece gives back the first path. */
  lemma FirstKept(paths: seq<string>, first: bool)
    requires paths != [] && Wrappable(paths[0])
    ensures DropPart(WrappedFrom(paths, first)[0]) == paths[0]
  {
    var p := paths[0];
    assert WrappedFrom(paths, first)[0] == (if first then "{" else "") + p + (if |paths| == 1 then "}" else "");
    DropPartOfWrapped(p, first, |paths| == 1);
  }

  /** Past the first piece, the pieces are those of the other paths. */
  lemma WrappedTail(paths: seq<string>, first: bool)
    requires |paths| > 1
    ensures WrappedFrom(paths, first)[1..] == WrappedFrom(paths[1..], false)
  {
    var a := WrappedFrom(paths, first)[1..];
    var b := WrappedFrom(paths[1..], false);
    forall i | 0 <= i < |a| ensures a[i] == b[i] {
      assert paths[1..][i] == paths[i + 1];
    }
  }

  // ------------------------------------------------------------------ mixed drop data

  /** A drop of a brace-wrapped path (one with whitespace) followed by a plain path is never
      split, since "} {" does not occur: the first file is both paths with the brace between
      them. Tk writes such a pair, say "{/a b.pdf} /c.pdf", whenever only the first path
      needs braces. */
  lemma MixedDropAsWritten(a: string, b: string)
    requires Wrappable(a) && Wrappable(b)
    ensures DropFiles("{" + a + "} " + b) == [a + "} " + b]
  {
    var data := "{" + a + "} " + b;
    var inner := a + "} " + b;
    assert |BraceSep| == 3;
    assert data == "{" + inner;
    forall p | 0 <= p < |data| && p != |a| + 1 ensures data[p] != '}' {
      if 1 <= p < |a| + 1 {
        assert data[p] == a[p - 1];
      } else if p == |a| + 2 {
        assert data[p] == ' ';
      } else if p > |a| + 2 {
        assert data[p] == b[p - |a| - 3];
      }
    }
    forall p | 0 <= p < |data| ensures !StartsAt(data, p, BraceSep) {
      if p + |BraceSep| <= |data| {
        assert data[p..p + |BraceSep|][0] == data[p];
        assert data[p..p + |BraceSep|][2] == data[p + 2];
        if p == |a| + 1 {
          assert data[p + 2] == b[0];
        }
      }
    }
    SplitSepNone(data, BraceSep);
    assert inner[0] == a[0] && inner[|inner| - 1] == b[|b| - 1];
    OpenTrimmed(inner, true);
    CloseTrimmed(inner, false);
    assert inner[0] == a[0] && inner[|inner| - 1] == b[|b| - 1];
    StripOfStripped(inner);
    assert DropPart(data) == inner;
    KeepPartsCons([data], inner);
  }

  /** The length of `t` before its first closing brace. */
  function CloseAt(t: string): (n: nat)
    ensures n <= |t| && (n == |t| || t[n] == '}')
    decreases |t|
  {
    if t == [] || t[0] == '}' then 0 else 1 + CloseAt(t[1..])
  }

  /** Drop data read as the Tcl list Tk writes: words separated by whitespace, a word that
      opens a brace running to the closing brace without it. */
  function TclWords(s: string): (r: seq<string>)
    decreases |s|
  {
    if s == [] then []
    else if IsSpace(s[0]) then TclWords(s[1..])
    else if s[0] == '{' then
      var e := CloseAt(s[1..]);
      var next := if 1 + e < |s| then 2 + e else |s|;
      (if e > 0 then [s[1..1 + e]] else []) + TclWords(s[next..])
    else
      var n := NonSpaceRun(s);
      [s[..n]] + TclWords(s[n..])
  }

  /** How Tk writes one path: in braces when it holds whitespace. */
  function Encode(p: string): string { if NoSpace(p) then p else "{" + p + "}" }

  /** How Tk writes some paths. */
  function EncodeAll(paths: seq<string>): (r: seq<string>)
    ensures |r| == |paths|
  {
    seq(|paths|, i requires 0 <= i < |paths| => Encode(paths[i]))
  }

  /** A path Tk can write: not empty and without braces. */
  predicate Writable(p: string) { p != [] && forall i :: 0 <= i < |p| ==> !IsBrace(p[i]) }

  lemma {:induction false} CloseAtOf(p: string, tail: string)
    requires '}' !in p
    ensures CloseAt(p + "}" + tail) == |p|
    decreases |p|
  {
    if p != [] {
      assert (p + "}" + tail)[1..] == p[1..] + "}" + tail;
      CloseAtOf(p[1..], tail);
    }
  }

  lemma {:induction false} NonSpaceRunOf(p: string, tail: string)
    requires NoSpace(p) && (tail == [] || IsSpace(tail[0]))
    ensures NonSpaceRun(p + tail) == |p|
    decreases |p|
  {
    if p != [] {
      assert (p + tail)[1..] == p[1..] + tail;
      NonSpaceRunOf(p[1..], tail);
    } else {
      assert p + tail == tail;
    }
  }

  /** One written path, then a space or the end: the path is read back first. */
  lemma TclStep(p: string, rest: string, last: bool)
    requires Writable(p)
    ensures TclWords(Encode(p) + (if last then "" else " " + rest))
      == [p] + (if last then [] else TclWords(rest))
  {
    var tail := if last then "" else " " + rest;
    assert tail == [] || IsSpace(tail[0]);
    if NoSpace(p) {
      TclPlain(p, tail);
    } else {
      TclBraced(p, tail);
    }
    if !last {
      assert tail[1..] == rest;
    }
  }

  /** A path without whitespace is read as one word. */
  lemma TclPlain(p: string, tail: string)
    requires Writable(p) && NoSpace(p) && (tail == [] || IsSpace(tail[0]))
    ensures TclWords(p + tail) == [p] + TclWords(tail)
  {
    var s := p + tail;
    assert !IsBrace(p[0]) && s[0] == p[0];
    NonSpaceRunOf(p, tail);
    assert s[..|p|] == p && s[|p|..] == tail;
  }

  /** A path in braces is read as one word without them. */
  lemma TclBraced(p: string, tail: string)
    requires Writable(p)
    ensures TclWords("{" + p + "}" + tail) == [p] + TclWords(tail)
  {
    var s := "{" + p + "}" + tail;
    assert s[0] == '{' && !IsSpace(s[0]);
    assert '}' !in p;
    assert s[1..] == p + "}" + tail;
    CloseAtOf(p, tail);
    assert s[1..1 + |p|] == p;
    assert s[|p| + 2..] == tail;
  }

  /** Corrected reading: paths written as Tk writes them, in braces exactly when they hold
      whitespace, are read back as those paths, in order, whatever their mix. */
  lemma {:induction false} TclRoundTrip(paths: seq<string>)
    requires forall i :: 0 <= i < |paths| ==> Writable(paths[i])
    ensures TclWords(Join(EncodeAll(paths), " ")) == paths
    decreases |paths|
  {
    if |paths| == 1 {
      TclStep(paths[0], "", true);
      assert Join(EncodeAll(paths), " ") == Encode(paths[0]) + "";
    } else if |paths| > 1 {
      var tail := paths[1..];
      WritableTail(paths);
      TclRoundTrip(tail);
      EncodeFront(paths);
      TclStep(paths[0], Join(EncodeAll(tail), " "), false);
      assert paths == [paths[0]] + tail;
    }
  }

  lemma WritableTail(paths: seq<string>)
    requires |paths| > 1
    requires forall i :: 0 <= i < |paths| ==> Writable(paths[i])
    ensures forall i :: 0 <= i < |paths[1..]| ==> Writable(paths[1..][i])
  {
    assert forall i :: 0 <= i < |paths[1..]| ==> paths[1..][i] == paths[i + 1];
  }

  /** Written paths joined with spaces: the first path, a space, the rest. */
  lemma EncodeFront(paths: seq<string>)
    requires |paths| > 1
    ensures Join(EncodeAll(paths), " ") == Encode(paths[0]) + (" " + Join(EncodeAll(paths[1..]), " "))
  {
    var e := EncodeAll(paths);
    assert e[1..] == EncodeAll(paths[1..]);
    assert Join(e, " ") == e[0] + " " + Join(e[1..], " ");
  }

  /** The corrected reading gives the two paths of the mixed drop. */
  lemma MixedDropCorrected(a: string, b: string)
    requires Writable(a) && Writable(b) && !NoSpace(a) && NoSpace(b)
    ensures TclWords("{" + a + "} " + b) == [a, b]
  {
    TclBraced(a, " " + b);
    assert "{" + a + "} " + b == "{" + a + "}" + (" " + b);
    assert (" " + b)[1..] == b;
    TclPlain(b, "");
    assert b + "" == b;
  }

  // ------------------------------------------------------------------ selection

  /** The extensions a selection accepts: fewer than the parsers support. */
  predicate Accepted(path: string) { Extension(path) == ".pdf" || Extension(path) == ".docx" }

  /** What `_select_file` reports for a path: nothing when it is taken, otherwise the reason,
      a missing file first. */
  function SelectionError(path: string, fileExists: bool): (r: Option<string>)
    ensures r.None? <==> fileExists && Accepted(path)
    ensures !fileExists ==> r == Some("File not found: " + path)
  {
    if !fileExists then Some("File not found: " + path)
    else if !Accepted(path) then
      Some("Unsupported file type: " + Extension(path) + ". Please select a PDF or DOCX file.")
    else None
  }

  /** Every selection taken could be parsed, but a ".doc" file the parsers support is
      refused. */
  lemma SelectionWithinFactory(path: string, fileExists: bool)
    ensures SelectionError(path, fileExists).None? ==> Create(path, fileExists).Ok?
    ensures fileExists && Extension(path) == ".doc" ==>
      Create(path, fileExists).Ok? && SelectionError(path, fileExists).Some?
  {
  }

  /** The text the error label shows for a message. */
  function ShownError(message: string): string { "\U{274C} " + message }

  /** The chooser's state: the current file, the error shown (if any), whether a callback is
      registered, and the paths passed to it so far. */
  class FileSelector {
    var currentFile: Option<string>
    var error: Option<string>
    var hasCallback: bool
    var notified: seq<string>

    /** Only taken selections reach the callback. */
    predicate Valid()
      reads this
    {
      forall i :: 0 <= i < |notified| ==> Accepted(notified[i])
    }

    constructor()
      ensures Valid()
      ensures currentFile == None && error == None && !hasCallback && notified == []
    {
      currentFile := None;
      error := None;
      hasCallback := false;
      notified := [];
    }

    /** `_select_file`: a missing or refused file shows the reason and changes nothing else;
        a taken one clears the error, becomes the current file and is passed to the callback
        if one is registered. */
    method SelectFile(path: string, fileExists: bool)
      requires Valid()
      modifies this
      ensures Valid()
      ensures hasCallback == old(hasCallback)
      ensures SelectionError(path, fileExists).Some? ==>
        error == Some(ShownError(SelectionError(path, fileExists).value))
        && currentFile == old(currentFile) && notified == old(notified)
      ensures SelectionError(path, fileExists).None? ==>
        error == None && currentFile == Some(path)
        && notified == old(notified) + (if hasCallback then [path] else [])
    {
      var problem := SelectionError(path, fileExists);
      if problem.Some? {
        error := Some(ShownError(problem.value));
        return;
      }
      error := None;
      currentFile := Some(path);
      if hasCallback {
        notified := notified + [path];
      }
    }

    /** `_handle_drop`: only the first dropped path is selected; a drop without paths changes
        nothing. The data is read as a Tcl list. */
    method HandleDrop(data: string, firstExists: bool)
      requires Valid()
      modifies this
      ensures Valid()
      ensures TclWords(data) == [] ==>
        currentFile == old(currentFile) && error == old(error) && notified == old(notified)
      ensures TclWords(data) != [] ==>
        var first := TclWords(data)[0];
        (SelectionError(first, firstExists).Some? ==>
           error == Some(ShownError(SelectionError(first, firstExists).value))
           && currentFile == old(currentFile) && notified == old(notified))
        && (SelectionError(first, firstExists).None? ==>
           error == None && currentFile == Some(first)
           && notified == old(notified) + (if hasCallback then [first] else []))
    {
      var files := TclWords(data);
      if files != [] {
        SelectFile(files[0], firstExists);
      }
    }

    /** `set_file`: the path becomes current without any check. */
    method SetFile(path: string)
      modifies this
      ensures currentFile == Some(path)
      ensures error == old(error) && hasCallback == old(hasCallback) && notified == old(notified)
    {
      currentFile := Some(path);
    }

    /** `clear`: no current file and no error. */
    method Clear()
      modifies this
      ensures currentFile == None && error == None
      ensures hasCallback == old(hasCallback) && notified == old(notified)
    {
      currentFile := None;
      error := None;
    }

    /** `on_file_selected`: a callback is registered. */
    method OnFileSelected()
      modifies this
      ensures hasCallback
      ensures currentFile == old(currentFile) && error == old(error) && notified == old(notified)
    {
      hasCallback := true;
    }

    /** `get_file`. */
    function File(): Option<string>
      reads this
    {
      currentFile
    }
  }
}
