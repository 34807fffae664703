/** The one piece of `JSON.stringify` the framework's responses rely on: a
    string value written as a JSON string (section 7 of RFC 8259, in the
    form ECMAScript's QuoteJSONString produces), and its reading back. */
module Json {
  import opened Wrappers

  const HexDigits: string := "0123456789abcdef"

  /** One character as it appears between the quotes. */
  function EscapeChar(c: char): (t: string)
    ensures |t| >= 1
    ensures forall i | 0 <= i < |t| :: t[i] >= ' '
  {
    if c == '"' then "\\\""
    else if c == '\\' then "\\\\"
    else if c == '\U{0008}' then "\\b"
    else if c == '\U{000C}' then "\\f"
    else if c == '\n' then "\\n"
    else if c == '\r' then "\\r"
    else if c == '\t' then "\\t"
    else if c < ' ' then "\\u00" + [HexDigits[c as int / 16], HexDigits[c as int % 16]]
    else [c]
  }

  /** The text between the quotes of `JSON.stringify(s)`. */
  function Escape(s: string): (t: string)
    ensures forall i | 0 <= i < |t| :: t[i] >= ' '
  {
    if s == [] then [] else EscapeChar(s[0]) + Escape(s[1..])
  }

  function HexValue(c: char): (r: Option<nat>)
    ensures r.Some? ==> r.value < 16
  {
    if '0' <= c <= '9' then Some(c as int - '0' as int)
    else if 'a' <= c <= 'f' then Some(c as int - 'a' as int + 10)
    else if 'A' <= c <= 'F' then Some(c as int - 'A' as int + 10)
    else None
  }

  function Prepend(c: char, r: Option<string>): Option<string>
  {
    if r.Some? then Some([c] + r.value) else None
  }

  /** Reads the text between the quotes of a JSON string: escapes are
      decoded, and a raw quote or control character is rejected. A `\u`
      escape of a surrogate half is rejected too, since a lone or paired
      surrogate is no single character here. */
  function Unescape(t: string): (r: Option<string>)
    decreases |t|
  {
    if t == [] then Some([])
    else if t[0] == '\\' then
      if |t| < 2 then None
      else
        var e := t[1];
        if e == '"' || e == '\\' || e == '/' then Prepend(e, Unescape(t[2..]))
        else if e == 'b' then Prepend('\U{0008}', Unescape(t[2..]))
        else if e == 'f' then Prepend('\U{000C}', Unescape(t[2..]))
        else if e == 'n' then Prepend('\n', Unescape(t[2..]))
        else if e == 'r' then Prepend('\r', Unescape(t[2..]))
        else if e == 't' then Prepend('\t', Unescape(t[2..]))
        else if e == 'u' && |t| >= 6 && HexValue(t[2]).Some? && HexValue(t[3]).Some? &&
                HexValue(t[4]).Some? && HexValue(t[5]).Some? then
          var n := ((HexValue(t[2]).value * 16 + HexValue(t[3]).value) * 16 + HexValue(t[4]).value) * 16
                   + HexValue(t[5]).value;
          if 0xD800 <= n <= 0xDFFF then None
          else Prepend(n as char, Unescape(t[6..]))
        else None
    else if t[0] == '"' || t[0] < ' ' then None
    else Prepend(t[0], Unescape(t[1..]))
  }

  /** Decoding one escaped character in front of any text. */
  lemma UnescapeEscapeChar(c: char, rest: string)
    ensures Unescape(EscapeChar(c) + rest) == Prepend(c, Unescape(rest))
  {
    var t := EscapeChar(c) + rest;
    if c == '"' || c == '\\' || c == '\U{0008}' || c == '\U{000C}' || c == '\n' || c == '\r' || c == '\t' {
      assert t[2..] == rest;
    } else if c < ' ' {
      var hi, lo := c as int / 16, c as int % 16;
      assert t[..6] == ['\\', 'u', '0', '0', HexDigits[hi], HexDigits[lo]];
      assert HexValue(HexDigits[hi]) == Some(hi);
      assert HexValue(HexDigits[lo]) == Some(lo);
      assert t[6..] == rest;
    } else {
      assert t[1..] == rest;
    }
  }

  /** Reading back what `JSON.stringify` wrote gives the original string. */
  lemma {:induction false} UnescapeEscape(s: string)
    ensures Unescape(Escape(s)) == Some(s)
  {
    if s != [] {
      UnescapeEscape(s[1..]);
      UnescapeEscapeChar(s[0], Escape(s[1..]));
      assert s == [s[0]] + s[1..];
    }
  }

  /** `{"message":"` and `"}`: the text around the quoted message. */
  const MessagePrefix: string := "{\"message\":\""
  const MessageSuffix: string := "\"}"

  /** `JSON.stringify({ message })`: one member, no whitespace. */
  function MessageObject(message: string): string
  {
    MessagePrefix + Escape(message) + MessageSuffix
  }

  /** Reads a body of the form `{"message":"..."}` back into its message. */
  function ReadMessageObject(body: string): (r: Option<string>)
  {
    if |body| >= |MessagePrefix| + |MessageSuffix| && MessagePrefix <= body &&
       body[|body| - |MessageSuffix|..] == MessageSuffix
    then Unescape(body[|MessagePrefix|..|body| - |MessageSuffix|])
    else None
  }

  /** The body the error handler writes carries exactly its message. */
  lemma MessageObjectRoundTrip(message: string)
    ensures ReadMessageObject(MessageObject(message)) == Some(message)
  {
    var e := Escape(message);
    var body := MessageObject(message);
    assert body[|MessagePrefix|..|body| - |MessageSuffix|] == e;
    assert body[|body| - |MessageSuffix|..] == MessageSuffix;
    UnescapeEscape(message);
  }
}
