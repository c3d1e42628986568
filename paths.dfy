/**
 * The path operations the model needs, on POSIX paths: `pathlib`, which normalises a path into
 * a root and parts, and `os.path`, which works on the text as it is.
 */
module Paths {
  import opened Wrappers
  import opened Text

  /** `Path(p).is_absolute()`. */
  predicate IsAbsolutePath(p: string) { |p| > 0 && p[0] == '/' }

  /** The position of the last `c` in `s` (`s.rfind(c)`, with `None` for -1). */
  function LastIndexOf(s: string, c: char): (r: Option<nat>)
    ensures r.Some? ==> r.value < |s| && s[r.value] == c && c !in s[r.value + 1..]
    ensures r.None? ==> c !in s
    decreases |s|
  {
    if s == [] then None
    else if s[|s| - 1] == c then Some(|s| - 1)
    else
      var r := LastIndexOf(s[..|s| - 1], c);
      assert r.Some? ==> s[r.value + 1..] == s[..|s| - 1][r.value + 1..] + [s[|s| - 1]];
      assert r.None? ==> s == s[..|s| - 1] + [s[|s| - 1]];
      r
  }

  /** An occurrence of `c` with none after it is what `rfind` finds. */
  lemma {:induction false} LastIndexOfAt(s: string, c: char, i: nat)
    requires i < |s| && s[i] == c && c !in s[i + 1..]
    ensures LastIndexOf(s, c) == Some(i)
    decreases |s|
  {
    if i < |s| - 1 {
      assert s[|s| - 1] in s[i + 1..];
      var t := s[..|s| - 1];
      assert t[i + 1..] == s[i + 1..|s| - 1];
      LastIndexOfAt(t, c, i);
    }
  }

  /** `os.path.join(a, b)`. */
  function PathJoin(a: string, b: string): (r: string)
    ensures IsAbsolutePath(a) ==> IsAbsolutePath(r)
  {
    if IsAbsolutePath(b) || a == [] then b
    else if a[|a| - 1] == '/' then a + b
    else a + "/" + b
  }

  // ------------------------------------------------------------------ pathlib's normal form

  /** A part `pathlib` keeps: not empty, not ".", no separator. */
  predicate CleanPart(x: string) { x != [] && x != "." && '/' !in x }

  /** The pieces a path keeps of its pieces between separators: the empty ones that repeated,
      leading or trailing separators leave, and ".", are dropped. */
  function KeptParts(pieces: seq<string>): (r: seq<string>)
    ensures forall x :: x in r <==> x in pieces && x != [] && x != "."
    ensures |r| <= |pieces|
    decreases |pieces|
  {
    if pieces == [] then []
    else (if pieces[0] == [] || pieces[0] == "." then [] else [pieces[0]]) + KeptParts(pieces[1..])
  }

  lemma {:induction false} KeptPartsAppend(a: seq<string>, b: seq<string>)
    ensures KeptParts(a + b) == KeptParts(a) + KeptParts(b)
    decreases |a|
  {
    if a == [] {
      assert a + b == b;
    } else {
      assert (a + b)[0] == a[0] && (a + b)[1..] == a[1..] + b;
      KeptPartsAppend(a[1..], b);
    }
  }

  lemma {:induction false} KeptPartsOfClean(parts: seq<string>)
    requires forall i :: 0 <= i < |parts| ==> CleanPart(parts[i])
    ensures KeptParts(parts) == parts
    decreases |parts|
  {
    if parts != [] {
      KeptPartsOfClean(parts[1..]);
    }
  }

  /** The parts of `Path(p)`. */
  function PathParts(p: string): (r: seq<string>)
    ensures forall i :: 0 <= i < |r| ==> CleanPart(r[i])
  {
    var r := KeptParts(SplitOn(p, '/'));
    assert forall i :: 0 <= i < |r| ==> r[i] in SplitOn(p, '/');
    r
  }

  /** The root of `Path(p)`: "//" for exactly two leading separators, which POSIX leaves to the
      implementation, "/" for one or more than two, and nothing for a relative path. */
  function PathRoot(p: string): (r: string)
    ensures r == [] <==> !IsAbsolutePath(p)
    ensures r == [] || r == "/" || r == "//"
  {
    if !IsAbsolutePath(p) then []
    else if |p| >= 2 && p[1] == '/' && (|p| == 2 || p[2] != '/') then "//"
    else "/"
  }

  /** The text of a path with this root and these parts: "." when both are empty. */
  function Render(root: string, parts: seq<string>): string {
    var body := root + Join(parts, "/");
    if body == [] then "." else body
  }

  /** `str(Path(p))`. */
  function PathString(p: string): string { Render(PathRoot(p), PathParts(p)) }

  /** A join of clean parts is read back as those parts, with no root. */
  lemma PartsOfJoin(parts: seq<string>)
    requires forall i :: 0 <= i < |parts| ==> CleanPart(parts[i])
    ensures KeptParts(SplitOn(Join(parts, "/"), '/')) == parts
    ensures Join(parts, "/") == [] <==> parts == []
    ensures parts != [] ==> Join(parts, "/")[0] != '/'
  {
    if parts != [] {
      SplitOnJoin(parts, '/');
      KeptPartsOfClean(parts);
      JoinStartsWithFirst(parts, "/");
      assert Join(parts, "/")[0] == parts[0][0] && parts[0][0] in parts[0];
    }
  }

  /** Rendering a root and clean parts gives a path with that root and those parts. */
  lemma RenderParts(root: string, parts: seq<string>)
    requires root == [] || root == "/" || root == "//"
    requires forall i :: 0 <= i < |parts| ==> CleanPart(parts[i])
    ensures PathRoot(Render(root, parts)) == root && PathParts(Render(root, parts)) == parts
  {
    var j := Join(parts, "/");
    if root == "/" {
      RenderUnderRoot([], parts);
      assert Render(root, parts) == [] + "/" + j;
    } else if root == "//" {
      assert SplitOn("/", '/') == [[], []];
      RenderUnderRoot("/", parts);
      assert Render(root, parts) == "/" + "/" + j;
    } else {
      RenderRelative(parts);
    }
  }

  lemma RenderRelative(parts: seq<string>)
    requires forall i :: 0 <= i < |parts| ==> CleanPart(parts[i])
    ensures PathRoot(Render([], parts)) == [] && PathParts(Render([], parts)) == parts
  {
    PartsOfJoin(parts);
    if parts == [] {
      assert Render([], parts) == ".";
      SplitOnNoSep(".", '/');
    } else {
      assert Render([], parts) == Join(parts, "/");
    }
  }

  /** Under a root of separators, the parts are those of the join. */
  lemma RenderUnderRoot(lead: string, parts: seq<string>)
    requires lead == [] || lead == "/"
    requires forall i :: 0 <= i < |parts| ==> CleanPart(parts[i])
    requires KeptParts(SplitOn(lead, '/')) == []
    ensures var j := Join(parts, "/");
      PathRoot(lead + "/" + j) == lead + "/" && PathParts(lead + "/" + j) == parts
  {
    var j := Join(parts, "/");
    PartsOfJoin(parts);
    SplitOnConcat(lead, '/', j);
    KeptPartsAppend(SplitOn(lead, '/'), SplitOn(j, '/'));
    var body := lead + "/" + j;
    assert body == lead + ['/'] + j;
    assert parts != [] ==> body[|lead| + 1] == j[0];
  }

  /** `pathlib`'s normal form is a fixed point: a normalised path keeps its root and parts. */
  lemma PathStringNormal(p: string)
    ensures PathRoot(PathString(p)) == PathRoot(p) && PathParts(PathString(p)) == PathParts(p)
    ensures PathString(PathString(p)) == PathString(p)
  {
    RenderParts(PathRoot(p), PathParts(p));
  }

  /** `str(Path(p).absolute())`, with `cwd` the working directory: an absolute path normalised,
      a relative one after the working directory's root and parts. */
  function AbsolutePath(p: string, cwd: string): (r: string)
    requires IsAbsolutePath(cwd)
    ensures IsAbsolutePath(r)
  {
    if IsAbsolutePath(p) then PathString(p) else Render(PathRoot(cwd), PathParts(cwd) + PathParts(p))
  }

  /** What `absolute` keeps: the root and parts of an absolute path, or the working directory's
      root and its parts followed by those of the path; the result is normalised, and names the
      same file as the path unless the path has no part. */
  lemma AbsolutePathMeaning(p: string, cwd: string)
    requires IsAbsolutePath(cwd)
    ensures var r := AbsolutePath(p, cwd);
      && PathRoot(r) == (if IsAbsolutePath(p) then PathRoot(p) else PathRoot(cwd))
      && PathParts(r) == (if IsAbsolutePath(p) then PathParts(p) else PathParts(cwd) + PathParts(p))
      && PathString(r) == r
      && (PathParts(p) != [] ==> FileName(r) == FileName(p))
  {
    var r := AbsolutePath(p, cwd);
    if IsAbsolutePath(p) {
      PathStringNormal(p);
    } else {
      var parts := PathParts(cwd) + PathParts(p);
      assert forall i :: 0 <= i < |parts| ==> CleanPart(parts[i]);
      RenderParts(PathRoot(cwd), parts);
      assert r == Render(PathRoot(cwd), parts);
      assert PathParts(p) != [] ==> parts[|parts| - 1] == PathParts(p)[|PathParts(p)| - 1];
    }
  }

  /** `Path(p).name`: the last part, or "" when there is none. */
  function FileName(p: string): (r: string)
    ensures '/' !in r && r != "."
    ensures r == [] <==> PathParts(p) == []
  {
    var parts := PathParts(p);
    if parts == [] then [] else parts[|parts| - 1]
  }

  /** The name is what follows the last separator when that is a clean part. */
  lemma FileNameAfterSep(a: string, b: string)
    requires CleanPart(b)
    ensures FileName(a + "/" + b) == b
  {
    SplitOnConcat(a, '/', b);
    SplitOnNoSep(b, '/');
    KeptPartsAppend(SplitOn(a, '/'), [b]);
  }

  /** A trailing separator or "." changes neither the name nor the suffix. */
  lemma FileNameIgnoresTrailing(p: string)
    ensures FileName(p + "/") == FileName(p) && PathSuffix(p + "/") == PathSuffix(p)
    ensures FileName(p + "/.") == FileName(p) && PathSuffix(p + "/.") == PathSuffix(p)
  {
    SplitOnConcat(p, '/', []);
    assert p + "/" == p + ['/'] + [];
    KeptPartsAppend(SplitOn(p, '/'), [[]]);
    SplitOnConcat(p, '/', ".");
    assert p + "/." == p + ['/'] + ".";
    SplitOnNoSep(".", '/');
    KeptPartsAppend(SplitOn(p, '/'), ["."]);
  }

  /** A relative name is placed under the working directory, with or without a leading "./". */
  lemma RelativeNameUnderCwd(name: string, cwd: string)
    requires IsAbsolutePath(cwd) && CleanPart(name)
    ensures AbsolutePath("./" + name, cwd) == AbsolutePath(name, cwd)
    ensures AbsolutePath(name, cwd)
         == if PathParts(cwd) == [] then PathString(cwd) + name else PathString(cwd) + "/" + name
  {
    DotPrefixParts(name);
    SplitOnNoSep(name, '/');
    assert name[0] in name;
    var parts := PathParts(cwd);
    if parts != [] {
      JoinAppend(parts, name, "/");
    } else {
      assert Join([name], "/") == name;
    }
  }

  /** A leading "./" adds no part. */
  lemma DotPrefixParts(name: string)
    requires CleanPart(name)
    ensures PathParts("./" + name) == [name]
  {
    SplitOnConcat(".", '/', name);
    assert "./" + name == "." + ['/'] + name;
    SplitOnNoSep(".", '/');
    SplitOnNoSep(name, '/');
    KeptPartsAppend(["."], [name]);
  }

  /** `Path(p).suffix`: the name from its last dot, unless that dot begins or ends the name. */
  function PathSuffix(p: string): (r: string)
    ensures r == [] || (|r| >= 2 && r[0] == '.' && '.' !in r[1..] && '/' !in r)
  {
    var name := FileName(p);
    match LastIndexOf(name, '.')
    case None => []
    case Some(i) => if 0 < i < |name| - 1 then name[i..] else []
  }

  /** `os.path.splitext(p)[1]`: the last component from its last dot, unless only dots precede
      that dot in the component. */
  function SplitExt(p: string): (r: string)
    ensures r == [] || (r[0] == '.' && '.' !in r[1..] && '/' !in r)
  {
    var sep: int := match LastIndexOf(p, '/') case None => -1 case Some(i) => i;
    match LastIndexOf(p, '.')
    case None => []
    case Some(dot) =>
      if dot > sep && exists k :: sep + 1 <= k < dot && p[k] != '.' then p[dot..] else []
  }

  /** With its last separator at `slash` and its last dot at `dot`, at least one character
      apart and before the end, a path's suffix starts at that dot. */
  lemma SuffixAt(p: string, slash: nat, dot: nat)
    requires slash + 1 < dot < |p| - 1
    requires p[slash] == '/' && '/' !in p[slash + 1..]
    requires p[dot] == '.' && '.' !in p[dot + 1..]
    ensures PathSuffix(p) == p[dot..]
  {
    LastIndexOfAt(p, '/', slash);
    var name := p[slash + 1..];
    assert p == p[..slash] + "/" + name;
    assert name[dot - slash - 1] == '.' && name[dot - slash] in name;
    FileNameAfterSep(p[..slash], name);
    var i := dot - slash - 1;
    assert name[i] == '.' && name[i + 1..] == p[dot + 1..];
    LastIndexOfAt(name, '.', i);
    assert name[i..] == p[dot..];
  }

  /** The same for `splitext`, when the character after the separator is not a dot. */
  lemma SplitExtAt(p: string, slash: nat, dot: nat)
    requires slash + 1 < dot < |p|
    requires p[slash] == '/' && '/' !in p[slash + 1..]
    requires p[dot] == '.' && '.' !in p[dot + 1..]
    requires p[slash + 1] != '.'
    ensures SplitExt(p) == p[dot..]
  {
    LastIndexOfAt(p, '/', slash);
    LastIndexOfAt(p, '.', dot);
  }

  /** A plain file name keeps its extension under both `suffix` and `splitext`. */
  lemma ExtensionOfPlainName(dir: string, base: string, ext: string)
    requires base != [] && base[0] != '.' && '/' !in base
    requires ext != [] && '.' !in ext && '/' !in ext
    ensures SplitExt(dir + "/" + base + "." + ext) == "." + ext
    ensures PathSuffix(dir + "/" + base + "." + ext) == "." + ext
  {
    var p := dir + "/" + base + "." + ext;
    var slash := |dir|;
    var dot := |dir| + 1 + |base|;
    assert p[slash] == '/' && p[slash + 1..] == base + "." + ext;
    assert '/' !in base + "." + ext;
    assert p[dot] == '.' && p[dot + 1..] == ext && p[dot..] == "." + ext;
    assert p[slash + 1] == base[0];
    SuffixAt(p, slash, dot);
    SplitExtAt(p, slash, dot);
  }
}
