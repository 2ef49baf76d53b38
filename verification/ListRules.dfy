/** The validation and normalisation rules of lists/lists.go. Strings are sequences of runes. */
module ListRules {

  import opened Results
  import opened Text

  const MAX_NAME_LENGTH := 200
  const MAX_NOTE_LENGTH := 500
  const DEFAULT_UNIT := "amount"
  const COPY_SUFFIX := " (copy)"

  function Units(): seq<string> {
    [DEFAULT_UNIT, "g", "kg", "ml", "l", "pack", "bottle", "can", "jar", "cup", "bunch", "bag"]
  }

  function ValidateName(name: string): Result<string> {
    var trimmed := TrimSpace(name);
    if trimmed == "" then Err(Invalid("name", "name must not be empty"))
    else if |trimmed| > MAX_NAME_LENGTH then Err(Invalid("name", "name is too long"))
    else Ok(trimmed)
  }

  function NormalizeQuantity(quantity: int): Result<int> {
    if quantity == 0 then Ok(1)
    else if quantity < 1 then Err(Invalid("quantity", "quantity must be at least 1"))
    else Ok(quantity)
  }

  function ValidateUnit(unit: string): Result<string> {
    if unit == "" then Ok(DEFAULT_UNIT)
    else if unit in Units() then Ok(unit)
    else Err(Invalid("unit", "unit is not a recognised value"))
  }

  function NormalizeNote(note: Option<string>): Option<string> {
    if note.None? || TrimSpace(note.value) == "" then None else Some(TrimSpace(note.value))
  }

  function ValidateNote(note: Option<string>): Result<Option<string>> {
    var clean := NormalizeNote(note);
    if clean.Some? && |clean.value| > MAX_NOTE_LENGTH then Err(Invalid("note", "note is too long")) else Ok(clean)
  }

  // ---------------------------------------------------------------- stored values

  /** What may be stored in a name column. */
  predicate CleanName(name: string) {
    Trimmed(name) && 0 < |name| <= MAX_NAME_LENGTH
  }

  predicate CleanNote(note: Option<string>) {
    note.Some? ==> Trimmed(note.value) && 0 < |note.value| <= MAX_NOTE_LENGTH
  }

  /** An accepted value is clean, and clean values are accepted as they are. */
  lemma ValidationCleans(name: string, unit: string, note: Option<string>)
    ensures ValidateName(name).Ok? ==> CleanName(ValidateName(name).value)
    ensures CleanName(name) ==> ValidateName(name) == Ok(name)
    ensures ValidateUnit(unit).Ok? ==> ValidateUnit(unit).value in Units()
    ensures ValidateNote(note).Ok? ==> CleanNote(ValidateNote(note).value)
    ensures CleanNote(note) ==> ValidateNote(note) == Ok(note)
  {
    TrimSpaceTrims(name);
    if Trimmed(name) {
      TrimmedIsFixed(name);
    }
    assert Units()[0] == DEFAULT_UNIT;
    if note.Some? {
      TrimSpaceTrims(note.value);
      if Trimmed(note.value) {
        TrimmedIsFixed(note.value);
      }
    }
  }

  /** What is refused, and what the answer says; everything else is accepted. */
  lemma RefusedValues(name: string, quantity: int, unit: string, note: Option<string>)
    ensures var n := TrimSpace(name);
            ValidateName(name) == if n == "" then Err(Invalid("name", "name must not be empty"))
                                  else if |n| > 200 then Err(Invalid("name", "name is too long")) else Ok(n)
    ensures NormalizeQuantity(quantity).Err? <==> quantity < 0
    ensures quantity != 0 && NormalizeQuantity(quantity).Ok? ==> NormalizeQuantity(quantity).value == quantity
    ensures NormalizeQuantity(0) == Ok(1)
    ensures ValidateUnit(unit).Err? <==> unit != "" && unit !in Units()
    ensures unit in Units() ==> ValidateUnit(unit) == Ok(unit)
    ensures ValidateUnit("") == Ok("amount")
    ensures ValidateNote(note).Err? <==> note.Some? && |TrimSpace(note.value)| > 500
    ensures ValidateNote(note).Ok? && note.Some? && TrimSpace(note.value) != "" ==> ValidateNote(note).value == Some(TrimSpace(note.value))
    ensures ValidateNote(note).Ok? && (note.None? || TrimSpace(note.value) == "") ==> ValidateNote(note).value == None
  {
    assert "" !in Units();
  }

  /** The units are the ones the request schema enumerates. */
  lemma UnitsAreTheSchemas(unit: string)
    ensures unit in Units() <==>
              || unit == "amount" || unit == "g" || unit == "kg" || unit == "ml" || unit == "l" || unit == "pack"
              || unit == "bottle" || unit == "can" || unit == "jar" || unit == "cup" || unit == "bunch" || unit == "bag"
  {
  }

  // ---------------------------------------------------------------- the name of a copy

  /** strings.TrimRight(s, " ") */
  function TrimRightBlanks(s: string): string {
    if s != [] && s[|s| - 1] == ' ' then TrimRightBlanks(s[..|s| - 1]) else s
  }

  function CopyListName(original: string): string {
    var trimmed := TrimSpace(original);
    if |trimmed| + |COPY_SUFFIX| <= MAX_NAME_LENGTH then trimmed + COPY_SUFFIX
    else TrimRightBlanks(trimmed[..MAX_NAME_LENGTH - |COPY_SUFFIX|]) + COPY_SUFFIX
  }

  lemma {:induction false} TrimRightBlanksKeepsStart(s: string)
    requires s != [] && s[0] != ' '
    ensures var t := TrimRightBlanks(s);
            0 < |t| <= |s| && t == s[..|t|] && t[|t| - 1] != ' ' && forall i :: |t| <= i < |s| ==> s[i] == ' '
    decreases s
  {
    if s[|s| - 1] != ' ' {
    } else {
      var init := s[..|s| - 1];
      TrimRightBlanksKeepsStart(init);
      assert forall i :: 0 <= i < |init| ==> init[i] == s[i];
    }
  }

  /**
   The derived name of a copy is itself a valid name, ends in the suffix, and keeps
   as much of the original's start as the length limit and trailing blanks allow.
   */
  lemma CopyNameIsValid(original: string)
    requires ValidateName(original).Ok?
    ensures CleanName(CopyListName(original))
    ensures var kept := |CopyListName(original)| - |COPY_SUFFIX|;
            var trimmed := TrimSpace(original);
            && 0 < kept <= |trimmed|
            && CopyListName(original) == trimmed[..kept] + " (copy)"
            && (kept < |trimmed| ==>
                  |trimmed| + |COPY_SUFFIX| > MAX_NAME_LENGTH &&
                  forall i :: kept <= i < MAX_NAME_LENGTH - |COPY_SUFFIX| ==> trimmed[i] == ' ')
  {
    var trimmed := TrimSpace(original);
    TrimSpaceTrims(original);
    var name := CopyListName(original);
    assert |COPY_SUFFIX| == 7;
    if |trimmed| + |COPY_SUFFIX| > MAX_NAME_LENGTH {
      var cut := trimmed[..MAX_NAME_LENGTH - |COPY_SUFFIX|];
      TrimRightBlanksKeepsStart(cut);
      assert name == TrimRightBlanks(cut) + COPY_SUFFIX;
    } else {
      assert trimmed[..|trimmed|] == trimmed;
    }
    assert name[|name| - 1] == ')';
    assert name[0] == trimmed[0];
  }
}
