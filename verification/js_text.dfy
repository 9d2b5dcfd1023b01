/** JavaScript strings and the three character-class regular expressions the
    password rules use. */
module JsText {

  /** One UTF-16 code unit. A JavaScript string is a sequence of these;
      `length` and zod's `min` count them, class-validator's `MinLength` counts
      `ValidatorLength`. */
  newtype Unit = x: int | 0 <= x < 0x1_0000

  type JsString = seq<Unit>

  /** The code units of a Dafny string whose characters all lie in the Basic
      Multilingual Plane, where one character is one code unit. */
  function Units(s: string): (r: JsString)
    requires forall i | 0 <= i < |s| :: s[i] as int < 0x1_0000
    ensures |r| == |s|
    ensures forall i | 0 <= i < |s| :: r[i] as int == s[i] as int
    ensures forall i | 0 <= i < |r| :: !IsHighSurrogate(r[i]) && !IsLowSurrogate(r[i])
  {
    seq(|s|, i requires 0 <= i < |s| => s[i] as int as Unit)
  }

  /** `[a-zA-Z]`: an ASCII letter. */
  predicate IsAsciiLetter(u: Unit) {
    ('A' as int <= u as int <= 'Z' as int) || ('a' as int <= u as int <= 'z' as int)
  }

  /** `\d`: without the `u` flag this is exactly `[0-9]`. */
  predicate IsAsciiDigit(u: Unit) {
    '0' as int <= u as int <= '9' as int
  }

  /** `[a-zA-Z0-9]`. */
  predicate IsAsciiAlnum(u: Unit) {
    IsAsciiLetter(u) || IsAsciiDigit(u)
  }

  /** The three single-class patterns of the password rules. */
  datatype CharClass =
    | Letters   // /[a-zA-Z]/
    | Digits    // /\d/
    | NotAlnum  // /[^a-zA-Z0-9]/, so any non-ASCII code unit is "special"

  predicate InClass(c: CharClass, u: Unit) {
    match c
    case Letters => IsAsciiLetter(u)
    case Digits => IsAsciiDigit(u)
    case NotAlnum => !IsAsciiAlnum(u)
  }

  /** `regex.test(s)` for a non-global one-class pattern: scan the string from
      the left for a code unit in the class. */
  function Test(c: CharClass, s: JsString): (found: bool)
    ensures found <==> exists i | 0 <= i < |s| :: InClass(c, s[i])
    ensures !found <==> forall i | 0 <= i < |s| :: !InClass(c, s[i])
  {
    if |s| == 0 then false
    else if InClass(c, s[0]) then true
    else
      var rest := Test(c, s[1..]);
      assert forall i | 1 <= i < |s| :: s[i] == s[1..][i - 1];
      rest
  }

  /** `[\uD800-\uDBFF]`: the leading half of a surrogate pair. */
  predicate IsHighSurrogate(u: Unit) {
    0xD800 <= u as int <= 0xDBFF
  }

  /** `[\uDC00-\uDFFF]`: the trailing half of a surrogate pair. */
  predicate IsLowSurrogate(u: Unit) {
    0xDC00 <= u as int <= 0xDFFF
  }

  /** U+FE0E or U+FE0F, the text and emoji presentation selectors. */
  predicate IsPresentationSelector(u: Unit) {
    u as int == 0xFE0E || u as int == 0xFE0F
  }

  /** A surrogate pair starts at index `i`. */
  predicate PairAt(s: JsString, i: int) {
    0 <= i < |s| - 1 && IsHighSurrogate(s[i]) && IsLowSurrogate(s[i + 1])
  }

  /** The number of matches of `/[\uD800-\uDBFF][\uDC00-\uDFFF]/g`: the
      global scan tries each position from the left and skips past a match. */
  function SurrogatePairs(s: JsString): (n: nat)
    ensures 2 * n <= |s|
    ensures n == 0 <==> forall i :: !PairAt(s, i)
    decreases |s|
  {
    if |s| < 2 then 0
    else if PairAt(s, 0) then 1 + SurrogatePairs(s[2..])
    else
      var rest := SurrogatePairs(s[1..]);
      assert forall i :: PairAt(s[1..], i) <==> PairAt(s, i + 1);
      assert forall i :: PairAt(s, i) ==> i == 0 || PairAt(s[1..], i - 1);
      rest
  }

  /** The number of matches of `/(\uFE0F|\uFE0E)/g`. */
  function PresentationSelectors(s: JsString): (n: nat)
    ensures n <= |s|
    ensures n == 0 <==> forall i | 0 <= i < |s| :: !IsPresentationSelector(s[i])
  {
    if |s| == 0 then 0
    else
      var rest := PresentationSelectors(s[1..]);
      assert forall i | 1 <= i < |s| :: s[i] == s[1..][i - 1];
      (if IsPresentationSelector(s[0]) then 1 else 0) + rest
  }

  /** Neither a surrogate pair nor a presentation selector: every code unit
      is one character to validator.js. */
  predicate Plain(s: JsString) {
    forall i | 0 <= i < |s| :: !IsPresentationSelector(s[i]) && !PairAt(s, i)
  }

  /** A pair's two halves are never presentation selectors, so the two
      kinds of match never share a code unit. */
  lemma {:induction false} MatchesFit(s: JsString)
    ensures SurrogatePairs(s) + PresentationSelectors(s) <= |s|
    decreases |s|
  {
    if |s| >= 2 {
      assert s[1..][1..] == s[2..];
      if PairAt(s, 0) {
        MatchesFit(s[2..]);
      } else {
        MatchesFit(s[1..]);
      }
    }
  }

  /** The length validator.js `isLength` compares against its bounds:
      `length` less one per surrogate pair and one per presentation
      selector. It equals `length` exactly on plain strings. */
  function ValidatorLength(s: JsString): (n: int)
    ensures 0 <= n <= |s|
    ensures n == |s| <==> Plain(s)
  {
    MatchesFit(s);
    |s| - SurrogatePairs(s) - PresentationSelectors(s)
  }

  /** A string of characters below U+FE0E has neither surrogates nor
      presentation selectors, so validator.js counts each character once. */
  lemma UnitsArePlain(s: string)
    requires forall i | 0 <= i < |s| :: s[i] as int < 0xFE0E
    ensures Plain(Units(s))
    ensures ValidatorLength(Units(s)) == |s|
  {
  }

  /** The code units of a string of lower-case ASCII letters are all
      letters and none a digit. */
  lemma LowercaseUnits(s: string)
    requires forall i | 0 <= i < |s| :: 'a' <= s[i] <= 'z'
    ensures forall i | 0 <= i < |s| :: IsAsciiLetter(Units(s)[i]) && !IsAsciiDigit(Units(s)[i])
  {
  }
}
