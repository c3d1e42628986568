/**
 * Identity data found in a document (models/personal_information.py). The extractor also
 * passes a middle name and an age to the constructor, so both are optional fields here.
 */
module PersonalInfo {
  import opened Wrappers
  import opened Text

  datatype CharacterSet = Cyrillic | Latin | Mixed | Unknown

  function CharacterSetName(c: CharacterSet): string {
    match c
    case Cyrillic => "cyrillic"
    case Latin => "latin"
    case Mixed => "mixed"
    case Unknown => "unknown"
  }

  function ParseCharacterSet(s: string): (r: Option<CharacterSet>)
    ensures r.Some? ==> CharacterSetName(r.value) == s
    ensures r.None? ==> s !in {"cyrillic", "latin", "mixed", "unknown"}
  {
    if s == "cyrillic" then Some(Cyrillic)
    else if s == "latin" then Some(Latin)
    else if s == "mixed" then Some(Mixed)
    else if s == "unknown" then Some(Unknown)
    else None
  }

  lemma CharacterSetNameParses(c: CharacterSet)
    ensures ParseCharacterSet(CharacterSetName(c)) == Some(c)
  {
    match c
    case Cyrillic => assert ParseCharacterSet("cyrillic") == Some(Cyrillic);
    case Latin => assert ParseCharacterSet("latin") == Some(Latin);
    case Mixed => assert ParseCharacterSet("mixed") == Some(Mixed);
    case Unknown => assert ParseCharacterSet("unknown") == Some(Unknown);
  }

  /** `isComplete` is a stored field: the constructor computes it, and assigning other fields
      afterwards does not update it. */
  datatype PersonalInformation = PersonalInformation(
    firstName: Option<string>,
    lastName: Option<string>,
    middleName: Option<string>,
    idNumberPrefix: Option<string>,
    age: Option<int>,
    characterSet: CharacterSet,
    extractionPage: Option<int>,
    isComplete: bool)

  /** First name, last name and ID prefix are all present (an empty name counts as present). */
  predicate FieldsComplete(p: PersonalInformation) {
    p.firstName.Some? && p.lastName.Some? && p.idNumberPrefix.Some?
  }

  predicate ValidIdPrefix(id: string) { |id| == 4 && AllDigits(id) }

  /** What the constructor checks of its arguments. */
  predicate ValidInformation(p: PersonalInformation) {
    (p.extractionPage.Some? ==> p.extractionPage.value >= 1)
    && (p.idNumberPrefix.Some? ==> ValidIdPrefix(p.idNumberPrefix.value))
  }

  /** The dataclass constructor: validates the character set, the page and the ID prefix, and
      overwrites the completeness flag with the presence of the three required fields. */
  function NewPersonalInformation(
    firstName: Option<string>, lastName: Option<string>, middleName: Option<string>,
    idNumberPrefix: Option<string>, age: Option<int>, characterSet: string,
    extractionPage: Option<int>, isComplete: bool): (r: Result<PersonalInformation>)
    ensures r.Ok? <==> ParseCharacterSet(characterSet).Some?
                       && (extractionPage.Some? ==> extractionPage.value >= 1)
                       && (idNumberPrefix.Some? ==> ValidIdPrefix(idNumberPrefix.value))
    ensures r.Ok? ==> ValidInformation(r.value) && (r.value.isComplete <==> FieldsComplete(r.value))
    ensures r.Ok? ==> r.value.firstName == firstName && r.value.lastName == lastName
                      && r.value.middleName == middleName && r.value.idNumberPrefix == idNumberPrefix
                      && r.value.age == age && r.value.extractionPage == extractionPage
                      && CharacterSetName(r.value.characterSet) == characterSet
  {
    match ParseCharacterSet(characterSet)
    case None =>
      Err("Invalid character_set: " + characterSet + ". Must be one of ('cyrillic', 'latin', 'mixed', 'unknown')")
    case Some(cs) =>
      if extractionPage.Some? && extractionPage.value < 1 then
        Err("Extraction page must be >= 1, got: " + IntToString(extractionPage.value))
      else if idNumberPrefix.Some? && !ValidIdPrefix(idNumberPrefix.value) then
        Err("ID number prefix must be exactly 4 digits, got: '" + idNumberPrefix.value + "'")
      else
        Ok(PersonalInformation(firstName, lastName, middleName, idNumberPrefix, age, cs, extractionPage,
                               firstName.Some? && lastName.Some? && idNumberPrefix.Some?))
  }

  /** `PersonalInformation.empty()`. */
  function Empty(): (r: PersonalInformation)
    ensures ValidInformation(r) && !r.isComplete && !FieldsComplete(r)
    ensures r.firstName.None? && r.lastName.None? && r.idNumberPrefix.None? && r.extractionPage.None?
    ensures r.characterSet == Unknown
  {
    PersonalInformation(None, None, None, None, None, Unknown, None, false)
  }

  /** `empty()` is what the constructor builds from no data. */
  lemma EmptyIsConstructed()
    ensures NewPersonalInformation(None, None, None, None, None, "unknown", None, false) == Ok(Empty())
  {
    assert ParseCharacterSet("unknown") == Some(Unknown);
  }
}
