/** The choice of parser by file extension (parsers/factory.py). */
module ParserFactory {
  import opened Wrappers
  import opened Text
  import opened Paths
  import opened Documents

  /** The keys of `PARSER_MAP`, in their order. */
  const SupportedExtensions: seq<string> := [".pdf", ".docx", ".doc"]

  /** The parser `PARSER_MAP` gives each key. */
  function ParserFor(ext: string): (r: Option<FileType>)
    ensures r.Some? <==> ext in SupportedExtensions
    ensures r.Some? ==> "." + FileTypeName(r.value) == ext
  {
    if ext == ".pdf" then Some(Pdf)
    else if ext == ".docx" then Some(Docx)
    else if ext == ".doc" then Some(Doc)
    else None
  }

  /** The lower-cased `os.path.splitext` extension of a path. */
  function Extension(path: string): string { LowerStr(SplitExt(path)) }

  function NotFoundMessage(path: string): string { "File not found: " + path }

  function UnsupportedMessage(ext: string): string {
    "Unsupported file type: '" + ext + "'. Supported types: " + Join(SupportedExtensions, ", ")
  }

  /** `create`: a missing file is reported before the extension is looked at; otherwise the
      parser for the lower-cased extension, or an error naming the extension and listing the
      supported ones. Whether the file exists is a parameter. */
  function Create(path: string, fileExists: bool): (r: Result<FileType>)
    ensures !fileExists ==> r == Err(NotFoundMessage(path))
    ensures fileExists ==> (r.Ok? <==> IsSupported(path))
  {
    if !fileExists then Err(NotFoundMessage(path))
    else
      match ParserFor(Extension(path))
      case Some(t) => Ok(t)
      case None => Err(UnsupportedMessage(Extension(path)))
  }

  /** `is_supported`. */
  predicate IsSupported(path: string) { Extension(path) in SupportedExtensions }

  /** `get_file_filter`: "Supported Documents (" and the patterns "*<ext>" joined with spaces. */
  function FileFilter(): string {
    "Supported Documents (" + Join(Patterns(SupportedExtensions), " ") + ")"
  }

  function Patterns(exts: seq<string>): (r: seq<string>)
    ensures |r| == |exts|
    ensures forall i :: 0 <= i < |r| ==> r[i] == "*" + exts[i]
  {
    seq(|exts|, i requires 0 <= i < |exts| => "*" + exts[i])
  }

  /** The supported extensions as the error message lists them. */
  lemma SupportedList()
    ensures Join(SupportedExtensions, ", ") == ".pdf, .docx, .doc"
  {
    JoinAppend([".pdf"], ".docx", ", ");
    JoinAppend([".pdf", ".docx"], ".doc", ", ");
    assert [".pdf", ".docx"] + [".doc"] == SupportedExtensions;
  }

  /** An existing file gets the parser whose type the extension names, case ignored; any
      other extension is refused with the list of the three supported ones. */
  lemma CreateMeaning(path: string)
    ensures Create(path, true).Ok? ==> "." + FileTypeName(Create(path, true).value) == Extension(path)
    ensures Create(path, true).Err? ==>
      Create(path, true).error == "Unsupported file type: '" + Extension(path) + "'. Supported types: .pdf, .docx, .doc"
  {
    SupportedList();
  }

  /** The supported extensions name exactly the three file types of the document model. */
  lemma SupportedAreFileTypes(ext: string)
    ensures ext in SupportedExtensions <==> exists t: FileType :: "." + FileTypeName(t) == ext
  {
    if ext in SupportedExtensions {
      assert "." + FileTypeName(ParserFor(ext).value) == ext;
    }
    forall t: FileType ensures "." + FileTypeName(t) in SupportedExtensions {
      match t
      case Pdf => assert "." + FileTypeName(t) == SupportedExtensions[0];
      case Docx => assert "." + FileTypeName(t) == SupportedExtensions[1];
      case Doc => assert "." + FileTypeName(t) == SupportedExtensions[2];
    }
  }

  /** The dialog filter lists the three patterns. */
  lemma FileFilterValue()
    ensures FileFilter() == "Supported Documents (*.pdf *.docx *.doc)"
  {
    var ps := Patterns(SupportedExtensions);
    assert ps[0] == "*.pdf" && ps[1] == "*.docx" && ps[2] == "*.doc";
    assert ps == ["*.pdf", "*.docx"] + ["*.doc"];
    JoinAppend(["*.pdf"], "*.docx", " ");
    JoinAppend(["*.pdf", "*.docx"], "*.doc", " ");
  }
}
