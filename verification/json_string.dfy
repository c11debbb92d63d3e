/** `JSON.stringify` and `JSON.parse` restricted to what the session store
    writes and reads: a string value, serialised as a JSON string literal
    (section 7 of RFC 8259), and the literal `null`. */
module JsonString {
  import opened Base

  // ---------------------------------------------------------------------------
  // Hexadecimal digits

  predicate IsHexDigit(c: char) {
    ('0' <= c <= '9') || ('a' <= c <= 'f') || ('A' <= c <= 'F')
  }

  function HexValue(c: char): (v: nat)
    requires IsHexDigit(c)
    ensures v < 16
  {
    if '0' <= c <= '9' then c as int - '0' as int
    else if 'a' <= c <= 'f' then c as int - 'a' as int + 10
    else c as int - 'A' as int + 10
  }

  /** The lower-case digit `JSON.stringify` writes in a `\u` escape. */
  function HexDigit(d: nat): (c: char)
    requires d < 16
    ensures IsHexDigit(c) && HexValue(c) == d
  {
    if d < 10 then ('0' as int + d) as char else ('a' as int + d - 10) as char
  }

  /** The code unit written by four hexadecimal digits. */
  function Hex4(s: string): (u: nat)
    requires |s| == 4 && forall i :: 0 <= i < 4 ==> IsHexDigit(s[i])
    ensures u < 0x1_0000
  {
    HexValue(s[0]) * 0x1000 + HexValue(s[1]) * 0x100 + HexValue(s[2]) * 0x10 + HexValue(s[3])
  }

  predicate IsHex4(s: string) {
    |s| == 4 && forall i :: 0 <= i < 4 ==> IsHexDigit(s[i])
  }

  // ---------------------------------------------------------------------------
  // Serialising

  /** The characters a JSON string literal cannot hold as themselves. */
  predicate NeedsEscape(c: char) {
    c == '"' || c == '\\' || c as int < 0x20
  }

  /** How `JSON.stringify` writes one character inside a string literal: the
      quote, the backslash and the control characters are escaped, every other
      character is written as itself. */
  function EscapeChar(c: char): (e: string)
    ensures |e| > 0 && e[0] != '"'
    ensures forall i :: 0 <= i < |e| ==> e[i] as int >= 0x20
    ensures !NeedsEscape(c) ==> e == [c]
  {
    if c == '"' then "\\\""
    else if c == '\\' then "\\\\"
    else if c == '\U{0008}' then "\\b"
    else if c == '\U{000C}' then "\\f"
    else if c == '\n' then "\\n"
    else if c == '\r' then "\\r"
    else if c == '\t' then "\\t"
    else if c as int < 0x20 then "\\u00" + [HexDigit(c as int / 16), HexDigit(c as int % 16)]
    else [c]
  }

  /** The escaped body of a string literal: never shorter than the string. */
  function EscapeAll(s: string): (r: string)
    ensures |r| >= |s|
  {
    if |s| == 0 then "" else EscapeChar(s[0]) + EscapeAll(s[1..])
  }

  /** `JSON.stringify(s)` for a string `s`: a quoted literal, at least two
      characters longer than `s`. */
  function Stringify(s: string): (j: string)
    ensures |j| >= |s| + 2 && j[0] == '"' && j[|j| - 1] == '"'
  {
    "\"" + EscapeAll(s) + "\""
  }

  /** A string with nothing to escape is written as itself. */
  lemma {:induction false} EscapeAllPlain(s: string)
    requires forall i :: 0 <= i < |s| ==> !NeedsEscape(s[i])
    ensures EscapeAll(s) == s
    decreases |s|
  {
    if |s| > 0 {
      assert forall i :: 0 <= i < |s[1..]| ==> !NeedsEscape(s[1..][i]) by {
        forall i | 0 <= i < |s[1..]| ensures !NeedsEscape(s[1..][i]) {
          assert s[1..][i] == s[i + 1];
        }
      }
      EscapeAllPlain(s[1..]);
      assert [s[0]] + s[1..] == s;
    }
  }

  /** The escaped body holds no raw control character. */
  lemma {:induction false} EscapeAllPrintable(s: string)
    ensures forall i :: 0 <= i < |EscapeAll(s)| ==> EscapeAll(s)[i] as int >= 0x20
    decreases |s|
  {
    if |s| > 0 {
      EscapeAllPrintable(s[1..]);
      var e, rest := EscapeChar(s[0]), EscapeAll(s[1..]);
      forall i | 0 <= i < |e + rest| ensures (e + rest)[i] as int >= 0x20 {
        if i >= |e| { assert (e + rest)[i] == rest[i - |e|]; }
      }
    }
  }

  /** `JSON.stringify` writes a string with nothing to escape as the string
      in quotes. */
  lemma StringifyPlain(s: string)
    requires forall i :: 0 <= i < |s| ==> !NeedsEscape(s[i])
    ensures Stringify(s) == "\"" + s + "\""
  {
    EscapeAllPlain(s);
  }

  /** The JSON text of a string holds no raw control character. */
  lemma StringifyPrintable(s: string)
    ensures forall i :: 0 <= i < |Stringify(s)| ==> Stringify(s)[i] as int >= 0x20
  {
    EscapeAllPrintable(s);
    var e := EscapeAll(s);
    forall i | 0 <= i < |Stringify(s)| ensures Stringify(s)[i] as int >= 0x20 {
      if 0 < i < |Stringify(s)| - 1 { assert Stringify(s)[i] == e[i - 1]; }
    }
  }

  // ---------------------------------------------------------------------------
  // Parsing

  /** The four whitespace characters JSON allows around a value. */
  predicate IsJsonWhitespace(c: char) {
    c == ' ' || c == '\t' || c == '\n' || c == '\r'
  }

  predicate AllJsonWhitespace(s: string) {
    forall i :: 0 <= i < |s| ==> IsJsonWhitespace(s[i])
  }

  function SkipJsonWhitespace(s: string): (r: string)
    ensures |r| <= |s| && r == s[|s| - |r|..]
    ensures |r| > 0 ==> !IsJsonWhitespace(r[0])
  {
    if |s| > 0 && IsJsonWhitespace(s[0]) then SkipJsonWhitespace(s[1..]) else s
  }

  /** Decodes the escape sequence at the start of `s` into one character and
      the number of characters it occupies. A `\u` escape of a surrogate is
      accepted only as a high/low pair, which denotes one character. */
  function DecodeEscape(s: string): (r: Option<(char, nat)>)
    requires |s| > 0 && s[0] == '\\'
    ensures r.Some? ==> 2 <= r.value.1 <= |s|
  {
    if |s| < 2 then None
    else if s[1] == '"' then Some(('"', 2))
    else if s[1] == '\\' then Some(('\\', 2))
    else if s[1] == '/' then Some(('/', 2))
    else if s[1] == 'b' then Some(('\U{0008}', 2))
    else if s[1] == 'f' then Some(('\U{000C}', 2))
    else if s[1] == 'n' then Some(('\n', 2))
    else if s[1] == 'r' then Some(('\r', 2))
    else if s[1] == 't' then Some(('\t', 2))
    else if s[1] == 'u' && |s| >= 6 && IsHex4(s[2..6]) then
      var u := Hex4(s[2..6]);
      if u < 0xD800 || 0xDFFF < u then Some((u as char, 6))
      else if u <= 0xDBFF && |s| >= 12 && s[6] == '\\' && s[7] == 'u' && IsHex4(s[8..12])
              && 0xDC00 <= Hex4(s[8..12]) <= 0xDFFF then
        var lo := Hex4(s[8..12]);
        Some(((0x1_0000 + (u - 0xD800) * 0x400 + (lo - 0xDC00)) as char, 12))
      else None
    else None
  }

  /** Puts `c` in front of a decoded value, keeping a failure a failure. */
  function Prepend(c: char, r: Option<(string, string)>): Option<(string, string)> {
    match r
    case None => None
    case Some((v, rest)) => Some(([c] + v, rest))
  }

  /** Decodes the body of a string literal up to its closing quote: the value
      and the text after the quote, or `None` for an unterminated literal, a
      raw control character or a bad escape. */
  function DecodeBody(s: string): (r: Option<(string, string)>)
    ensures r.Some? ==> |r.value.1| < |s|
    decreases |s|
  {
    if |s| == 0 then None
    else if s[0] == '"' then Some(("", s[1..]))
    else if s[0] == '\\' then
      match DecodeEscape(s)
      case None => None
      case Some((c, n)) => Prepend(c, DecodeBody(s[n..]))
    else if s[0] as int < 0x20 then None
    else Prepend(s[0], DecodeBody(s[1..]))
  }

  /** `JSON.parse(text)` when `text` holds a string literal, surrounded by
      optional whitespace; `None` for anything else. */
  function Parse(text: string): (r: Option<string>)
    ensures r.Some? ==> |SkipJsonWhitespace(text)| > 0 && SkipJsonWhitespace(text)[0] == '"'
  {
    var t := SkipJsonWhitespace(text);
    if |t| > 0 && t[0] == '"' then
      match DecodeBody(t[1..])
      case Some((v, rest)) => if AllJsonWhitespace(rest) then Some(v) else None
      case None => None
    else None
  }

  /** `JSON.parse` ignores whitespace before the value. */
  lemma ParseSkipsLeadingWhitespace(c: char, text: string)
    requires IsJsonWhitespace(c)
    ensures Parse([c] + text) == Parse(text)
  {
    assert ([c] + text)[1..] == text;
  }

  /** `text` is the JSON literal `null`, surrounded by optional whitespace. */
  predicate IsNullLiteral(text: string) {
    var t := SkipJsonWhitespace(text);
    |t| >= 4 && t[..4] == "null" && AllJsonWhitespace(t[4..])
  }

  // ---------------------------------------------------------------------------
  // Round trip

  /** Decoding reads back the character an escape (or a plain character) stands for. */
  lemma EscapeCharDecodes(c: char, rest: string)
    ensures DecodeBody(EscapeChar(c) + rest) == Prepend(c, DecodeBody(rest))
  {
  }

  lemma {:induction false} EscapeAllDecodes(s: string, rest: string)
    ensures DecodeBody(EscapeAll(s) + "\"" + rest) == Some((s, rest))
    decreases |s|
  {
    if |s| == 0 {
      assert EscapeAll(s) + "\"" + rest == "\"" + rest;
    } else {
      var tail := EscapeAll(s[1..]) + "\"" + rest;
      calc {
        DecodeBody(EscapeAll(s) + "\"" + rest);
        { assert EscapeAll(s) + "\"" + rest == EscapeChar(s[0]) + tail; }
        DecodeBody(EscapeChar(s[0]) + tail);
        { EscapeCharDecodes(s[0], tail); }
        Prepend(s[0], DecodeBody(tail));
        { EscapeAllDecodes(s[1..], rest); }
        Prepend(s[0], Some((s[1..], rest)));
        { assert [s[0]] + s[1..] == s; }
        Some((s, rest));
      }
    }
  }

  /** `JSON.parse(JSON.stringify(s)) == s` for every string `s`. */
  lemma ParseStringify(s: string)
    ensures Parse(Stringify(s)) == Some(s)
  {
    var body := EscapeAll(s) + "\"";
    EscapeAllDecodes(s, "");
    assert body + "" == body;
    ParseQuoted(body, s);
    assert Stringify(s) == "\"" + body;
  }

  /** An opening quote followed by a body that decodes to `v` with nothing
      after its closing quote parses to `v`. */
  lemma ParseQuoted(body: string, v: string)
    requires DecodeBody(body) == Some((v, ""))
    ensures Parse("\"" + body) == Some(v)
  {
    var j := "\"" + body;
    assert j[1..] == body;
    assert SkipJsonWhitespace(j) == j;
  }

  /** A serialised string is never read back as `null`. */
  lemma StringifyIsNotNull(s: string)
    ensures !IsNullLiteral(Stringify(s))
  {
  }
}
