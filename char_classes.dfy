/** Whole-string character-class validators: `containsOnlyDigits` and
    `isAlphaNumeric`.

    Both search the string for the first character outside a class and
    succeed when there is none. Strings are sequences of Unicode scalar
    values (`char`). Foundation's decimal-digit set is not spelled out here:
    it is a parameter, the set `digits`. */
module CharacterClasses {

  datatype Option<T> = None | Some(value: T)

  /** The search behind `rangeOfCharacter(from:)` and a one-character
      regular expression passed to `range(of:)`: the position of the first
      character in the set, scanning from the start, or `None`. */
  function FirstIndexIn(s: string, inSet: char -> bool): (r: Option<nat>)
    ensures r.Some? ==> r.value < |s| && inSet(s[r.value])
    ensures r.Some? ==> forall j :: 0 <= j < r.value ==> !inSet(s[j])
    ensures r.None? <==> forall j :: 0 <= j < |s| ==> !inSet(s[j])
  {
    if s == [] then None
    else if inSet(s[0]) then Some(0)
    else
      match FirstIndexIn(s[1..], inSet)
      case None => None
      case Some(k) => Some(k + 1)
  }

  /** The class `[a-zA-Z0-9]`. */
  predicate IsAsciiAlphanumeric(c: char) {
    'a' <= c <= 'z' || 'A' <= c <= 'Z' || '0' <= c <= '9'
  }

  /** `containsOnlyDigits`: no character lies in the inverted decimal-digit
      set. The empty string qualifies. */
  function ContainsOnlyDigits(s: string, digits: set<char>): (r: bool)
    ensures r <==> forall i :: 0 <= i < |s| ==> s[i] in digits
  {
    FirstIndexIn(s, c => c !in digits) == None
  }

  /** `isAlphaNumeric`: the string is not empty and the pattern
      `[^a-zA-Z0-9]` matches nowhere in it. */
  function IsAlphaNumeric(s: string): (r: bool)
    ensures r <==> |s| > 0 && forall i :: 0 <= i < |s| ==> IsAsciiAlphanumeric(s[i])
  {
    |s| > 0 && FirstIndexIn(s, c => !IsAsciiAlphanumeric(c)) == None
  }

  /** The empty string contains only digits but is not alphanumeric. */
  lemma EmptyString(digits: set<char>)
    ensures ContainsOnlyDigits("", digits)
    ensures !IsAlphaNumeric("")
  {
  }

  /** An alphanumeric string whose letters are all absent contains only
      digits, for any digit set that holds the ASCII digits. */
  lemma AsciiDigitsAreDigits(s: string, digits: set<char>)
    requires forall c: char :: '0' <= c <= '9' ==> c in digits
    requires IsAlphaNumeric(s)
    requires forall i :: 0 <= i < |s| ==> !('a' <= s[i] <= 'z' || 'A' <= s[i] <= 'Z')
    ensures ContainsOnlyDigits(s, digits)
  {
  }

  /** The usage lines of the extension, for any digit set that holds the
      ASCII digits and not `+`. */
  lemma DigitsYes(digits: set<char>)
    requires forall c: char :: '0' <= c <= '9' ==> c in digits
    ensures ContainsOnlyDigits("1234567890", digits)
  {
    var s := "1234567890";
    forall i | 0 <= i < |s|
      ensures '0' <= s[i] <= '9'
    {
    }
  }

  lemma DigitsNo(digits: set<char>)
    requires '+' !in digits
    ensures !ContainsOnlyDigits("1234+567890", digits)
  {
    assert "1234+567890"[4] == '+';
  }

  lemma AlphaNumericYes()
    ensures IsAlphaNumeric("asds1235adas")
  {
    var s := "asds1235adas";
    forall i | 0 <= i < |s|
      ensures IsAsciiAlphanumeric(s[i])
    {
    }
  }

  lemma AlphaNumericNo()
    ensures !IsAlphaNumeric("sdasd_/@#?$")
  {
    assert "sdasd_/@#?$"[5] == '_';
  }
}
