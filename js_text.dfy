/** ECMAScript notions the validators rely on: character classes and the
    distinction between a `Date` and any other value. */
module JsText {

  /** ECMAScript WhiteSpace and LineTerminator code points: the class `\s`
      of a regular expression and the characters `String.prototype.trim`
      removes. */
  predicate IsWhitespace(c: char)
  {
    ('\U{0009}' <= c <= '\U{000D}') || c == ' ' || c == '\U{00A0}' ||
    c == '\U{1680}' || ('\U{2000}' <= c <= '\U{200A}') ||
    c == '\U{2028}' || c == '\U{2029}' || c == '\U{202F}' ||
    c == '\U{205F}' || c == '\U{3000}' || c == '\U{FEFF}'
  }

  /** The class `\d` of a regular expression without the `u` flag. */
  predicate IsDigit(c: char)
  {
    '0' <= c <= '9'
  }

  /** The class `\w`: ASCII letters, digits and the underscore. */
  predicate IsWordChar(c: char)
  {
    ('a' <= c <= 'z') || ('A' <= c <= 'Z') || IsDigit(c) || c == '_'
  }

  /** `s.trim()` is the empty string: `s` is empty or only white space. */
  predicate IsBlank(s: string)
  {
    forall i | 0 <= i < |s| :: IsWhitespace(s[i])
  }

  /** A value given where a `Date` is expected: a `Date` object, opaque
      apart from its time stamp, or anything else. */
  datatype DateValue = DateObject(time: int) | NotADate
}
