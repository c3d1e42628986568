/** A search term entered by the user or taken from the history (models/keyword.py). */
module Keywords {
  import opened Wrappers
  import opened Text

  datatype Keyword = Keyword(text: string, normalized: string, isHistorical: bool, isActive: bool)

  /** What the constructor guarantees of every keyword: stripped text of 1 to 100 characters. */
  predicate ValidKeyword(k: Keyword) {
    k.text == Strip(k.text) && 1 <= |k.text| <= 100 && k.normalized != []
  }

  /** The dataclass constructor: strips the text, rejects an empty or over-long result, and
      derives the normalized form by lower-casing when none is given. */
  function NewKeyword(text: string, normalized: string, isHistorical: bool, isActive: bool): (r: Result<Keyword>)
    ensures r.Ok? <==> 1 <= |Strip(text)| <= 100
    ensures r.Ok? ==> ValidKeyword(r.value) && r.value.text == Strip(text)
    ensures r.Ok? ==> r.value.normalized == (if normalized == [] then LowerStr(Strip(text)) else normalized)
    ensures r.Ok? ==> r.value.isHistorical == isHistorical && r.value.isActive == isActive
    ensures Strip(text) == [] ==> r == Err("Keyword cannot be empty or whitespace-only")
  {
    var t := Strip(text);
    StripIdempotent(text);
    if t == [] then Err("Keyword cannot be empty or whitespace-only")
    else if |t| > 100 then Err("Keyword length must be 1-100 characters, got " + NatToString(|t|))
    else Ok(Keyword(t, if normalized == [] then LowerStr(t) else normalized, isHistorical, isActive))
  }

  /** Constructing again from a keyword's own fields gives the same keyword. */
  lemma ReconstructValid(k: Keyword)
    requires ValidKeyword(k)
    ensures NewKeyword(k.text, k.normalized, k.isHistorical, k.isActive) == Ok(k)
  {
  }

  /** `Keyword.from_text`: an active keyword whose normalized form is its lower-cased text. */
  function FromText(text: string, isHistorical: bool): (r: Result<Keyword>)
    ensures r.Ok? <==> 1 <= |Strip(text)| <= 100
    ensures r.Ok? ==> ValidKeyword(r.value) && r.value.text == Strip(text)
    ensures r.Ok? ==> r.value.normalized == LowerStr(Strip(text)) && r.value.isActive
    ensures r.Ok? ==> r.value.isHistorical == isHistorical
  {
    StripIdempotent(text);
    NewKeyword(Strip(text), [], isHistorical, true)
  }

  /** `matches`, `__eq__` and `__hash__` all compare the normalized forms only. */
  predicate SameKeyword(a: Keyword, b: Keyword) { a.normalized == b.normalized }

  /** Two keywords made from text are the same keyword exactly when their stripped texts are
      equal ignoring case. */
  lemma FromTextSameIffCaseless(a: string, b: string)
    requires FromText(a, false).Ok? && FromText(b, false).Ok?
    ensures SameKeyword(FromText(a, false).value, FromText(b, false).value) <==> SameIgnoringCase(Strip(a), Strip(b))
  {
  }
}
