/** The server's password complexity rule. */
module Validators {
  import opened Wrappers
  import Text

  const UppercaseMessage := "Password must contain at least one uppercase letter."
  const LowercaseMessage := "Password must contain at least one lowercase letter."
  const DigitMessage := "Password must contain at least one number."
  const SpecialMessage := "Password must contain at least one special character."
  /** What `get_help_text` returns. */
  const HelpText := "Your password must include at least one uppercase letter, one lowercase letter, one number, and one special character."

  /** The bracket class `[!@#$%^&*()_+=\-{}\[\]:;"\'<>,.?/\\|`~]`, character by character. */
  const SpecialCharacters := "!@#$%^&*()_+=-{}[]:;\"'<>,.?/\\|`~"

  predicate IsSpecial(c: char) { c in SpecialCharacters }

  /** `re.search` for a one-character class: some character of `s` is in it. */
  function Search(s: string, inClass: char -> bool): (found: bool)
    ensures found <==> exists i :: 0 <= i < |s| && inClass(s[i])
    decreases |s|
  {
    if s == [] then false
    else if inClass(s[0]) then true
    else
      var found := Search(s[1..], inClass);
      assert forall i :: 1 <= i < |s| ==> s[i] == s[1..][i - 1];
      found
  }

  ghost predicate HasUpper(p: string) { exists i :: 0 <= i < |p| && Text.IsUpperAscii(p[i]) }
  ghost predicate HasLower(p: string) { exists i :: 0 <= i < |p| && Text.IsLowerAscii(p[i]) }
  ghost predicate HasDigit(p: string) { exists i :: 0 <= i < |p| && Text.IsDigit(p[i]) }
  ghost predicate HasSpecial(p: string) { exists i :: 0 <= i < |p| && IsSpecial(p[i]) }

  /**
   * `CustomComplexityValidator.validate`: `None` when the password passes,
   * otherwise the message of the `ValidationError` raised by the first
   * failing check. `user` is accepted and ignored.
   */
  function Validate(password: string, user: Option<int>): (failure: Option<string>)
    ensures failure.Some? ==> failure.value in [UppercaseMessage, LowercaseMessage, DigitMessage, SpecialMessage]
    ensures failure.None? ==> HasSpecial(password)
  {
    if !Search(password, Text.IsUpperAscii) then Some(UppercaseMessage)
    else if !Search(password, Text.IsLowerAscii) then Some(LowercaseMessage)
    else if !Search(password, Text.IsDigit) then Some(DigitMessage)
    else if !Search(password, IsSpecial) then Some(SpecialMessage)
    else None
  }

  /** A password passes exactly when it has a character of each of the four classes. */
  lemma ValidateAcceptsIff(password: string, user: Option<int>)
    ensures Validate(password, user) == None <==>
              HasUpper(password) && HasLower(password) && HasDigit(password) && HasSpecial(password)
  {
  }

  /** Checks run uppercase, lowercase, digit, special; only the first missing class is reported. */
  lemma ValidateFirstMissing(password: string, user: Option<int>)
    ensures Validate(password, user) == Some(UppercaseMessage) <==> !HasUpper(password)
    ensures Validate(password, user) == Some(LowercaseMessage) <==> HasUpper(password) && !HasLower(password)
    ensures Validate(password, user) == Some(DigitMessage) <==>
              HasUpper(password) && HasLower(password) && !HasDigit(password)
    ensures Validate(password, user) == Some(SpecialMessage) <==>
              HasUpper(password) && HasLower(password) && HasDigit(password) && !HasSpecial(password)
  {
  }

  /** The verdict does not depend on `user`. */
  lemma ValidateIgnoresUser(password: string, u: Option<int>, v: Option<int>)
    ensures Validate(password, u) == Validate(password, v)
  {
  }

  /** The special class has exactly these 32 characters. */
  lemma SpecialClass()
    ensures |SpecialCharacters| == 32
    ensures forall c :: IsSpecial(c) <==> c in {'!', '@', '#', '$', '%', '^', '&', '*', '(', ')', '_', '+', '=', '-',
                                                '{', '}', '[', ']', ':', ';', '"', '\'', '<', '>', ',', '.', '?',
                                                '/', '\\', '|', '`', '~'}
  {
  }
}
