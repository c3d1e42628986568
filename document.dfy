/** A selected document file and its validation state (models/document.py). */
module Documents {
  import opened Wrappers
  import opened Text
  import opened Paths

  datatype DocumentState = Unselected | Selected | Validating | Valid | Invalid

  datatype FileType = Pdf | Docx | Doc

  function StateName(s: DocumentState): string {
    match s
    case Unselected => "unselected"
    case Selected => "selected"
    case Validating => "validating"
    case Valid => "valid"
    case Invalid => "invalid"
  }

  function FileTypeName(t: FileType): string {
    match t
    case Pdf => "pdf"
    case Docx => "docx"
    case Doc => "doc"
  }

  /** The value of a document's fields at one moment; this is what the application state,
      the extraction results and the worker job hold. */
  datatype DocumentInfo = DocumentInfo(
    filePath: string,
    filename: string,
    fileType: FileType,
    pageCount: int,
    isValid: bool,
    errorMessage: Option<string>,
    state: DocumentState)

  /** The lower-cased type name, if it is one the document model accepts. */
  function ParseFileType(name: string): (r: Option<FileType>)
    ensures r.Some? <==> LowerStr(name) in {"pdf", "docx", "doc"}
    ensures r.Some? ==> FileTypeName(r.value) == LowerStr(name)
  {
    var lower := LowerStr(name);
    if lower == "pdf" then Some(Pdf)
    else if lower == "docx" then Some(Docx)
    else if lower == "doc" then Some(Doc)
    else None
  }

  /** The checks of the constructor: the path must be absolute, the type one of three. */
  function CheckDocument(filePath: string, fileType: string): (r: Result<FileType>)
    ensures r.Ok? <==> IsAbsolutePath(filePath) && LowerStr(fileType) in {"pdf", "docx", "doc"}
    ensures r.Ok? ==> FileTypeName(r.value) == LowerStr(fileType)
    ensures !IsAbsolutePath(filePath) ==> r == Err("file_path must be absolute: " + filePath)
  {
    if !IsAbsolutePath(filePath) then Err("file_path must be absolute: " + filePath)
    else match ParseFileType(fileType)
      case None => Err("file_type must be 'pdf', 'docx', or 'doc', got: " + LowerStr(fileType))
      case Some(t) => Ok(t)
  }

  /** The file type whose name, after a dot, is `ext`. */
  function TypeOfSuffix(ext: string): (r: Option<FileType>)
    ensures r.Some? ==> "." + FileTypeName(r.value) == ext
    ensures r.None? ==> forall t: FileType :: "." + FileTypeName(t) != ext
  {
    if ext == "." + FileTypeName(Pdf) then Some(Pdf)
    else if ext == "." + FileTypeName(Docx) then Some(Docx)
    else if ext == "." + FileTypeName(Doc) then Some(Doc)
    else None
  }

  /** The file type `from_path` derives from the lower-cased path suffix: the type whose
      name, after a dot, is that suffix; any other suffix is refused with its text. */
  function TypeOfPath(path: string): (r: Result<FileType>)
    ensures r.Ok? ==> "." + FileTypeName(r.value) == LowerStr(PathSuffix(path))
    ensures r.Err? ==> forall t: FileType :: "." + FileTypeName(t) != LowerStr(PathSuffix(path))
    ensures r.Err? ==> r.error == "Unsupported file extension: " + LowerStr(PathSuffix(path))
  {
    var ext := LowerStr(PathSuffix(path));
    match TypeOfSuffix(ext)
    case Some(t) => Ok(t)
    case None => Err("Unsupported file extension: " + ext)
  }

  /** The transition table of `transition_to`. */
  predicate Allowed(from: DocumentState, to: DocumentState) {
    match from
    case Unselected => to == Selected
    case Selected => to == Validating
    case Validating => to == Valid || to == Invalid
    case Valid => to == Selected
    case Invalid => to == Selected
  }

  /** Validation cannot be skipped: a verdict state is entered only from VALIDATING, which is
      entered only from SELECTED; each state allows exactly one target except VALIDATING. */
  lemma TransitionsGoThroughValidation(from: DocumentState, to: DocumentState)
    ensures (to == Valid || to == Invalid) && Allowed(from, to) ==> from == Validating
    ensures to == Validating && Allowed(from, to) ==> from == Selected
    ensures Allowed(from, to) ==> from != to
  {
  }

  /** Every file type name is accepted back by the constructor's check. */
  lemma {:induction false} FileTypeNameAccepted(t: FileType)
    ensures ParseFileType(FileTypeName(t)) == Some(t)
  {
    match t
    case Pdf => assert LowerStr("pdf") == "pdf";
    case Docx => assert LowerStr("docx") == "docx";
    case Doc =>
      assert LowerStr("doc") == "doc";
      assert "doc" != "pdf" && "doc" != "docx";
  }

  class Document {
    var filePath: string
    var filename: string
    var fileType: FileType
    var pageCount: int
    var isValid: bool
    var errorMessage: Option<string>
    var state: DocumentState

    function Info(): DocumentInfo
      reads this
    {
      DocumentInfo(filePath, filename, fileType, pageCount, isValid, errorMessage, state)
    }

    /** The dataclass constructor on arguments that pass its checks. */
    constructor (filePath: string, filename: string, fileType: string, pageCount: int,
                 isValid: bool, errorMessage: Option<string>, state: DocumentState)
      requires CheckDocument(filePath, fileType).Ok?
      ensures Info() == DocumentInfo(filePath, filename, CheckDocument(filePath, fileType).value,
                                     pageCount, isValid, errorMessage, state)
    {
      this.filePath := filePath;
      this.filename := filename;
      this.fileType := CheckDocument(filePath, fileType).value;
      this.pageCount := pageCount;
      this.isValid := isValid;
      this.errorMessage := errorMessage;
      this.state := state;
    }

    /** `from_path`: the name and the lower-cased suffix of the path as `pathlib` reads it; the
        path is made absolute against the working directory `cwd` and normalised; the new
        document is SELECTED. */
    static method FromPath(path: string, cwd: string) returns (r: Result<Document>)
      requires IsAbsolutePath(cwd)
      ensures r.Ok? <==> TypeOfPath(path).Ok?
      ensures r.Err? ==> r.error == TypeOfPath(path).error
      ensures r.Ok? ==> fresh(r.value) && r.value.Info() == DocumentInfo(
        AbsolutePath(path, cwd), FileName(path), TypeOfPath(path).value, 0, false, None, Selected)
    {
      var t := TypeOfPath(path);
      if t.Err? {
        return Err(t.error);
      }
      FileTypeNameAccepted(t.value);
      var d := new Document(AbsolutePath(path, cwd), FileName(path), FileTypeName(t.value), 0, false, None, Selected);
      return Ok(d);
    }

    method MarkValid(pageCount: int)
      modifies this
      ensures Info() == old(Info()).(isValid := true, pageCount := pageCount, errorMessage := None, state := Valid)
    {
      this.isValid := true;
      this.pageCount := pageCount;
      this.errorMessage := None;
      this.state := Valid;
    }

    method MarkInvalid(errorMessage: string)
      modifies this
      ensures Info() == old(Info()).(isValid := false, errorMessage := Some(errorMessage), state := Invalid)
    {
      this.isValid := false;
      this.errorMessage := Some(errorMessage);
      this.state := Invalid;
    }

    /** `transition_to`: moves along the table, or reports the refused transition and stays. */
    method TransitionTo(target: DocumentState) returns (error: Option<string>)
      modifies this
      ensures error.None? <==> Allowed(old(state), target)
      ensures state == if error.None? then target else old(state)
      ensures error.Some? ==> error.value == "Invalid state transition: " + StateName(old(state)) + " -> " + StateName(target)
      ensures Info() == old(Info()).(state := state)
    {
      if !Allowed(state, target) {
        return Some("Invalid state transition: " + StateName(state) + " -> " + StateName(target));
      }
      state := target;
      return None;
    }
  }
}
