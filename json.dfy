/**
 * The part of `JSON.stringify` that the memoisation key relies on: string
 * literals, written with the escapes of ECMAScript's QuoteJSONString, and a
 * reader that takes one back off the front of a text.
 */
module Json {
  import opened Wrappers

  /** Lower-case hexadecimal digit of a value below 16. */
  function HexDigit(n: int): char
    requires 0 <= n < 16
  {
    if n < 10 then ('0' as int + n) as char else ('a' as int + n - 10) as char
  }

  predicate IsHexDigit(c: char) {
    '0' <= c <= '9' || 'a' <= c <= 'f'
  }

  function HexValue(c: char): (n: int)
    requires IsHexDigit(c)
    ensures 0 <= n < 16
  {
    if c <= '9' then c as int - '0' as int else c as int - 'a' as int + 10
  }

  /**
   * One character as it appears inside a JSON string literal: `"` and `\`
   * and the control characters are escaped (the five with a short form by
   * it, the others as `\u00XX`); every other character stands for itself.
   */
  function EscapeChar(c: char): (e: string)
    ensures e == [c] <==> ' ' <= c && c != '"' && c != '\\'
    ensures e != [c] ==> |e| >= 2 && e[0] == '\\'
    ensures forall i :: 0 <= i < |e| ==> ' ' <= e[i]
  {
    if c == '"' then "\\\""
    else if c == '\\' then "\\\\"
    else if c == '\U{8}' then "\\b"
    else if c == '\t' then "\\t"
    else if c == '\n' then "\\n"
    else if c == '\U{C}' then "\\f"
    else if c == '\r' then "\\r"
    else if c < ' ' then "\\u00" + [HexDigit(c as int / 16), HexDigit(c as int % 16)]
    else [c]
  }

  /** The escaped characters of a string, in order; no raw control character survives. */
  function EscapedBody(s: string): (b: string)
    ensures |s| <= |b|
    ensures forall i :: 0 <= i < |b| ==> ' ' <= b[i]
  {
    if s == [] then [] else EscapeChar(s[0]) + EscapedBody(s[1..])
  }

  /** The JSON text of a string value: quoted, and free of raw control characters. */
  function JsonString(s: string): (j: string)
    ensures |j| >= |s| + 2 && j[0] == '"' && j[|j| - 1] == '"'
    ensures forall i :: 0 <= i < |j| ==> ' ' <= j[i]
  {
    "\"" + EscapedBody(s) + "\""
  }

  // ---------------------------------------------------------------------------
  // Reading a string literal back.

  /** Reads one (possibly escaped) character off the front of a string body; `"` ends the body. */
  function UnescapeChar(s: string): (r: Option<(char, string)>)
    ensures r.Some? ==> |r.value.1| < |s|
  {
    if |s| == 0 || s[0] == '"' then None
    else if s[0] != '\\' then Some((s[0], s[1..]))
    else if |s| < 2 then None
    else if s[1] == '"' then Some(('"', s[2..]))
    else if s[1] == '\\' then Some(('\\', s[2..]))
    else if s[1] == 'b' then Some(('\U{8}', s[2..]))
    else if s[1] == 't' then Some(('\t', s[2..]))
    else if s[1] == 'n' then Some(('\n', s[2..]))
    else if s[1] == 'f' then Some(('\U{C}', s[2..]))
    else if s[1] == 'r' then Some(('\r', s[2..]))
    else if s[1] == 'u' && |s| >= 6 && s[2] == '0' && s[3] == '0'
            && IsHexDigit(s[4]) && IsHexDigit(s[5]) && HexValue(s[4]) < 2 then
      Some(((HexValue(s[4]) * 16 + HexValue(s[5])) as char, s[6..]))
    else None
  }

  /** Reads a string body up to its closing `"`, returning the string and what follows the quote. */
  function UnquoteBody(s: string): Option<(string, string)>
    decreases |s|
  {
    if |s| == 0 then None
    else if s[0] == '"' then Some(([], s[1..]))
    else
      match UnescapeChar(s)
      case None => None
      case Some((c, rest)) =>
        match UnquoteBody(rest)
        case None => None
        case Some((body, after)) => Some(([c] + body, after))
  }

  /** Reads a JSON string literal off the front of a text. */
  function ReadString(s: string): Option<(string, string)> {
    if |s| > 0 && s[0] == '"' then UnquoteBody(s[1..]) else None
  }

  /** Every escaped character reads back as itself, leaving what followed it. */
  lemma UnescapeEscapeChar(c: char, rest: string)
    ensures UnescapeChar(EscapeChar(c) + rest) == Some((c, rest))
  {
    var e := EscapeChar(c);
    if c < ' ' && c != '\U{8}' && c != '\t' && c != '\n' && c != '\U{C}' && c != '\r' {
      var hi, lo := c as int / 16, c as int % 16;
      assert e == ['\\', 'u', '0', '0', HexDigit(hi), HexDigit(lo)];
      assert HexValue(HexDigit(hi)) == hi && HexValue(HexDigit(lo)) == lo;
      assert (e + rest)[6..] == rest;
    } else if |e| == 1 {
      assert (e + rest)[1..] == rest;
    } else {
      assert |e| == 2;
      assert (e + rest)[2..] == rest;
    }
  }

  /** A string body followed by its closing quote reads back as the string, leaving what followed. */
  lemma {:induction false} UnquoteEscapedBody(s: string, after: string)
    ensures UnquoteBody(EscapedBody(s) + "\"" + after) == Some((s, after))
  {
    if s == [] {
      assert EscapedBody(s) + "\"" + after == "\"" + after;
    } else {
      var tail := EscapedBody(s[1..]) + "\"" + after;
      assert EscapedBody(s) + "\"" + after == EscapeChar(s[0]) + tail;
      UnescapeEscapeChar(s[0], tail);
      UnquoteEscapedBody(s[1..], after);
      assert [s[0]] + s[1..] == s;
    }
  }

  /** Round trip: reading a JSON string literal gives back the string and the text after it. */
  lemma ReadJsonString(s: string, after: string)
    ensures ReadString(JsonString(s) + after) == Some((s, after))
  {
    assert (JsonString(s) + after)[1..] == EscapedBody(s) + "\"" + after;
    UnquoteEscapedBody(s, after);
  }
}
