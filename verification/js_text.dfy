/**
 * The parts of JavaScript's string and number facilities that the password
 * checker relies on: strings as sequences of UTF-16 code units, `Number(ch)`
 * applied to a one-unit string, and the case mappings behind `toUpperCase`
 * and `toLowerCase`.
 */
module JsText {

  /** One UTF-16 code unit: what `charAt` and `length` count. */
  newtype CodeUnit = x: int | 0 <= x < 0x1_0000

  /** A JavaScript string value. */
  type JsString = seq<CodeUnit>

  /** The outcome of `Number(...)` on a one-unit string: an integer or NaN. */
  datatype JsNumber = Finite(value: int) | NaN

  /** '0' (U+0030) through '9' (U+0039). */
  predicate IsDecimalDigit(u: CodeUnit) {
    0x30 <= u <= 0x39
  }

  /**
   * ECMAScript's StrWhiteSpaceChar: the WhiteSpace code points (TAB, VT, FF,
   * SPACE, NO-BREAK SPACE, ZERO WIDTH NO-BREAK SPACE and the Unicode "Zs"
   * space separators) and the LineTerminator code points (LF, CR, LINE
   * SEPARATOR, PARAGRAPH SEPARATOR).
   */
  predicate IsStrWhiteSpace(u: CodeUnit) {
    || u == 0x09 || u == 0x0B || u == 0x0C || u == 0x20 || u == 0xA0 || u == 0xFEFF
    || u == 0x1680 || (0x2000 <= u <= 0x200A) || u == 0x202F || u == 0x205F || u == 0x3000
    || u == 0x0A || u == 0x0D || u == 0x2028 || u == 0x2029
  }

  /**
   * `Number(s)` for a one-unit string `s == [u]`. StringToNumber strips
   * leading and trailing white space first, so a lone white-space unit leaves
   * the empty numeric literal, whose value is 0; a lone decimal digit is its
   * own value; every other single unit is not a numeric literal and gives NaN.
   */
  function NumberOfUnit(u: CodeUnit): (n: JsNumber)
    ensures n.Finite? <==> IsDecimalDigit(u) || IsStrWhiteSpace(u)
    ensures n.Finite? ==> 0 <= n.value <= 9
  {
    if IsDecimalDigit(u) then Finite(u as int - 0x30)
    else if IsStrWhiteSpace(u) then Finite(0)
    else NaN
  }

  /** `n >= k` in JavaScript: every comparison with NaN is false. */
  predicate AtLeast(n: JsNumber, k: int) {
    n.Finite? && n.value >= k
  }

  /** `n <= k` in JavaScript: every comparison with NaN is false. */
  predicate AtMost(n: JsNumber, k: int) {
    n.Finite? && n.value <= k
  }

  /**
   * The host's `toUpperCase` and `toLowerCase`, applied to whole strings.
   * Their Unicode tables (and expansions such as one unit becoming two) are
   * the host's business; the checker only compares their results.
   */
  datatype CaseMapping = CaseMapping(upper: JsString -> JsString, lower: JsString -> JsString)

  /** Upper-cases an ASCII letter; leaves every other unit alone. */
  function AsciiUpperUnit(u: CodeUnit): CodeUnit {
    if 0x61 <= u <= 0x7A then u - 0x20 else u
  }

  /** Lower-cases an ASCII letter; leaves every other unit alone. */
  function AsciiLowerUnit(u: CodeUnit): CodeUnit {
    if 0x41 <= u <= 0x5A then u + 0x20 else u
  }

  /** A unit-by-unit mapping of a whole string. */
  function MapUnits(s: JsString, f: CodeUnit -> CodeUnit): (r: JsString)
    ensures |r| == |s|
    ensures forall i :: 0 <= i < |s| ==> r[i] == f(s[i])
  {
    seq(|s|, i requires 0 <= i < |s| => f(s[i]))
  }

  /** The case mapping restricted to ASCII, the range the examples use. */
  function Ascii(): CaseMapping {
    CaseMapping(s => MapUnits(s, AsciiUpperUnit), s => MapUnits(s, AsciiLowerUnit))
  }

  /** An ASCII-only Dafny string literal as a JavaScript string. */
  function FromAscii(s: string): (r: JsString)
    requires forall i :: 0 <= i < |s| ==> s[i] as int < 0x80
    ensures |r| == |s|
    ensures forall i :: 0 <= i < |s| ==> r[i] as int == s[i] as int
  {
    seq(|s|, i requires 0 <= i < |s| => s[i] as int as CodeUnit)
  }
}
