/** The signup password rule: at least eight characters, at least one
    letter, at least one digit and at least one character that is neither. */
module PasswordPolicy {
  import opened JsText

  const MinPasswordLength := 8

  /** At least one ASCII letter, one digit and one code unit that is
      neither: the three pattern rules, which both validators state alike. */
  predicate HasRequiredClasses(p: JsString) {
    && (exists i | 0 <= i < |p| :: IsAsciiLetter(p[i]))
    && (exists i | 0 <= i < |p| :: IsAsciiDigit(p[i]))
    && (exists i | 0 <= i < |p| :: !IsAsciiAlnum(p[i]))
  }

  /** The reference definition the server enforces: the pattern rules, and
      eight characters counted as validator.js counts them. */
  predicate Acceptable(p: JsString) {
    ValidatorLength(p) >= MinPasswordLength && HasRequiredClasses(p)
  }
}
