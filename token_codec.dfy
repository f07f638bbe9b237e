/** The encodings the bundle negotiator uses for its challenge.

    The token is the JSON text `{"articleIds":[...]}` of the requested ids (as
    `JSON.stringify` writes it), and `DecodeToken` reads it back. The invoice is
    `ln_mcp_` followed by the lower-case hex of the UTF-8 bytes of the JSON text of
    the id array. */
module TokenCodec {
  import opened Util

  newtype byte = x: int | 0 <= x < 256

  // ---------------------------------------------------------------------------
  // Hex digits
  // ---------------------------------------------------------------------------

  /** The lower-case hex digit of a value below 16, as `toString(16)` writes it. */
  function HexDigit(d: int): (c: char)
    requires 0 <= d < 16
  {
    if d < 10 then ('0' as int + d) as char else ('a' as int + d - 10) as char
  }

  predicate IsLowerHexDigit(c: char)
  {
    '0' <= c <= '9' || 'a' <= c <= 'f'
  }

  /** The value of a hex digit of either case; None for any other character. */
  function HexValue(c: char): (r: Option<int>)
    ensures r.Some? ==> 0 <= r.value < 16
    ensures r.Some? && IsLowerHexDigit(c) ==> HexDigit(r.value) == c
    ensures 0 <= c as int < 128 && r.None? ==> !IsLowerHexDigit(c)
  {
    if '0' <= c <= '9' then Some(c as int - '0' as int)
    else if 'a' <= c <= 'f' then Some(c as int - 'a' as int + 10)
    else if 'A' <= c <= 'F' then Some(c as int - 'A' as int + 10)
    else None
  }

  /** The value of four hex digits, as in a JSON `\uXXXX` escape. */
  function Hex4(t: string): (r: Option<int>)
    requires |t| == 4
    ensures r.Some? ==> 0 <= r.value < 0x10000
  {
    match (HexValue(t[0]), HexValue(t[1]), HexValue(t[2]), HexValue(t[3]))
    case (Some(a), Some(b), Some(c), Some(d)) => Some(((a * 16 + b) * 16 + c) * 16 + d)
    case _ => None
  }

  // ---------------------------------------------------------------------------
  // JSON string literals
  // ---------------------------------------------------------------------------

  /** How `JSON.stringify` writes one character inside a string literal: the quote,
      the backslash and the control characters are escaped, everything else is kept. */
  function EscapeChar(c: char): string
  {
    if c == '"' then "\\\""
    else if c == '\\' then "\\\\"
    else if c == '\U{0008}' then "\\b"
    else if c == '\t' then "\\t"
    else if c == '\n' then "\\n"
    else if c == '\U{000C}' then "\\f"
    else if c == '\r' then "\\r"
    else if (c as int) < 0x20 then "\\u00" + [HexDigit(c as int / 16), HexDigit(c as int % 16)]
    else [c]
  }

  function EscapeString(s: string): string
  {
    if s == [] then [] else EscapeChar(s[0]) + EscapeString(s[1..])
  }

  /** `JSON.stringify(s)` for a string `s`. */
  function Quote(s: string): string
  {
    "\"" + EscapeString(s) + "\""
  }

  /** Reads the escape sequence that follows a backslash; gives the character and the rest. */
  function Unescape(t: string): (r: Option<(char, string)>)
    ensures r.Some? ==> |r.value.1| < |t|
  {
    if t == [] then None
    else if t[0] == '"' || t[0] == '\\' || t[0] == '/' then Some((t[0], t[1..]))
    else if t[0] == 'b' then Some(('\U{0008}', t[1..]))
    else if t[0] == 'f' then Some(('\U{000C}', t[1..]))
    else if t[0] == 'n' then Some(('\n', t[1..]))
    else if t[0] == 'r' then Some(('\r', t[1..]))
    else if t[0] == 't' then Some(('\t', t[1..]))
    else if t[0] == 'u' && |t| >= 5 then
      match Hex4(t[1..5])
      case Some(n) => if n < 0xD800 || 0xDFFF < n then Some((n as char, t[5..])) else None
      case None => None
    else None
  }

  /** Reads the characters of a string literal up to and including its closing quote;
      gives the decoded string and what follows the quote. */
  function ParseStringBody(t: string): (r: Option<(string, string)>)
    ensures r.Some? ==> |r.value.1| < |t|
    decreases |t|
  {
    if t == [] then None
    else if t[0] == '"' then Some(([], t[1..]))
    else if (t[0] as int) < 0x20 then None
    else if t[0] == '\\' then
      match Unescape(t[1..])
      case None => None
      case Some((c, rest)) =>
        match ParseStringBody(rest)
        case None => None
        case Some((s, after)) => Some(([c] + s, after))
    else
      match ParseStringBody(t[1..])
      case None => None
      case Some((s, after)) => Some(([t[0]] + s, after))
  }

  /** Prepending one character's escape to the text prepends that character to what is read. */
  lemma ParseEscapedChar(c: char, tail: string)
    ensures ParseStringBody(EscapeChar(c) + tail) ==
            match ParseStringBody(tail)
            case None => None
            case Some((s, after)) => Some(([c] + s, after))
  {
    var t := EscapeChar(c) + tail;
    if c == '"' || c == '\\' || c == '\U{0008}' || c == '\t' || c == '\n' || c == '\U{000C}' || c == '\r' {
      assert t[0] == '\\' && t[1..] == EscapeChar(c)[1..] + tail;
      assert Unescape(t[1..]) == Some((c, tail));
    } else if (c as int) < 0x20 {
      var n := c as int;
      assert t[0] == '\\' && t[1..] == ['u', '0', '0', HexDigit(n / 16), HexDigit(n % 16)] + tail;
      assert t[2..6] == ['0', '0', HexDigit(n / 16), HexDigit(n % 16)];
      assert Hex4(t[2..6]) == Some(n);
      assert Unescape(t[1..]) == Some((c, tail));
    } else {
      assert t[0] == c && t[1..] == tail;
    }
  }

  /** Reading back an escaped string literal gives the string and exactly the text after it. */
  lemma {:induction false} ParseQuoted(s: string, rest: string)
    ensures ParseStringBody(EscapeString(s) + "\"" + rest) == Some((s, rest))
  {
    if s == [] {
      assert EscapeString(s) + "\"" + rest == "\"" + rest;
    } else {
      var tail := EscapeString(s[1..]) + "\"" + rest;
      assert EscapeString(s) + "\"" + rest == EscapeChar(s[0]) + tail;
      ParseQuoted(s[1..], rest);
      ParseEscapedChar(s[0], tail);
      assert [s[0]] + s[1..] == s;
    }
  }

  // ---------------------------------------------------------------------------
  // JSON arrays of strings
  // ---------------------------------------------------------------------------

  function ElementsText(ids: seq<string>): string
    requires ids != []
  {
    Quote(ids[0]) + (if |ids| == 1 then "" else "," + ElementsText(ids[1..]))
  }

  /** `JSON.stringify(ids)` for an array of strings. */
  function ArrayText(ids: seq<string>): string
  {
    if ids == [] then "[]" else "[" + ElementsText(ids) + "]"
  }

  /** Reads `"…", "…", … ]` (the elements of a non-empty array and its closing bracket). */
  function ParseElements(t: string): (r: Option<(seq<string>, string)>)
    ensures r.Some? ==> |r.value.1| < |t|
    decreases |t|
  {
    if t == [] || t[0] != '"' then None
    else
      match ParseStringBody(t[1..])
      case None => None
      case Some((s, rest)) =>
        if rest != [] && rest[0] == ']' then Some(([s], rest[1..]))
        else if rest != [] && rest[0] == ',' then
          match ParseElements(rest[1..])
          case None => None
          case Some((more, after)) => Some(([s] + more, after))
        else None
  }

  /** Reads a JSON array of strings; gives the strings and the text after the array. */
  function ParseArray(t: string): (r: Option<(seq<string>, string)>)
    ensures r.Some? ==> |r.value.1| <= |t| - 2
  {
    if |t| >= 2 && t[0] == '[' && t[1] == ']' then Some(([], t[2..]))
    else if t != [] && t[0] == '[' then ParseElements(t[1..])
    else None
  }

  lemma ParseLastElement(t: string, s: string, rest: string)
    requires t != [] && t[0] == '"' && ParseStringBody(t[1..]) == Some((s, "]" + rest))
    ensures ParseElements(t) == Some(([s], rest))
  {
    assert ("]" + rest)[1..] == rest;
  }

  lemma ParseNextElement(t: string, s: string, next: string, more: seq<string>, rest: string)
    requires t != [] && t[0] == '"' && ParseStringBody(t[1..]) == Some((s, "," + next))
    requires ParseElements(next) == Some((more, rest))
    ensures ParseElements(t) == Some(([s] + more, rest))
  {
    assert ("," + next)[1..] == next;
  }

  /** The text of a non-empty array's elements opens with the first string literal. */
  lemma ElementsTextOpens(ids: seq<string>, suffix: string)
    requires ids != []
    ensures var t := ElementsText(ids) + suffix;
            t != [] && t[0] == '"' &&
            t[1..] == EscapeString(ids[0]) + "\"" +
                      ((if |ids| == 1 then "" else "," + ElementsText(ids[1..])) + suffix)
  {
    var q := EscapeString(ids[0]);
    var more := if |ids| == 1 then "" else "," + ElementsText(ids[1..]);
    var t := ElementsText(ids) + suffix;
    assert ElementsText(ids) == ['"'] + q + ['"'] + more;
    Regroup5(['"'], q, ['"'], more, suffix);
  }

  lemma Regroup5(a: string, b: string, c: string, d: string, e: string)
    ensures a + b + c + d + e == a + (b + c + (d + e))
  {
  }

  lemma {:induction false} ParseElementsText(ids: seq<string>, rest: string)
    requires ids != []
    ensures ParseElements(ElementsText(ids) + "]" + rest) == Some((ids, rest))
  {
    var t := ElementsText(ids) + "]" + rest;
    var more := if |ids| == 1 then "" else "," + ElementsText(ids[1..]);
    var suffix := more + ("]" + rest);
    ElementsTextOpens(ids, "]" + rest);
    assert ElementsText(ids) + ("]" + rest) == t;
    ParseQuoted(ids[0], suffix);
    if |ids| == 1 {
      assert suffix == "]" + rest;
      ParseLastElement(t, ids[0], rest);
      assert [ids[0]] == ids;
    } else {
      var next := ElementsText(ids[1..]) + "]" + rest;
      Regroup(",", ElementsText(ids[1..]), "]", rest);
      ParseElementsText(ids[1..], rest);
      ParseNextElement(t, ids[0], next, ids[1..], rest);
      assert [ids[0]] + ids[1..] == ids;
    }
  }

  lemma Regroup(a: string, b: string, c: string, d: string)
    ensures (a + b) + (c + d) == a + ((b + c) + d)
  {
  }

  /** Reading back the JSON text of an id array gives the ids, in order, and the rest. */
  lemma ParseArrayText(ids: seq<string>, rest: string)
    ensures ParseArray(ArrayText(ids) + rest) == Some((ids, rest))
  {
    if ids != [] {
      ParseElementsArrayText(ids, rest);
    } else {
      assert (ArrayText(ids) + rest)[2..] == rest;
    }
  }

  lemma ParseElementsArrayText(ids: seq<string>, rest: string)
    requires ids != []
    ensures ParseArray(ArrayText(ids) + rest) == Some((ids, rest))
  {
    var t := ArrayText(ids) + rest;
    var e := ElementsText(ids);
    assert t == "[" + (e + ("]" + rest));
    assert t[1..] == e + "]" + rest by {
      assert e + "]" + rest == e + ("]" + rest);
    }
    ElementsTextOpens(ids, "]" + rest);
    ParseElementsText(ids, rest);
  }

  // ---------------------------------------------------------------------------
  // The token
  // ---------------------------------------------------------------------------

  const TokenPrefix: string := "{\"articleIds\":"

  /** `JSON.stringify({ articleIds })`; the base64 layer around it is not modelled. */
  function EncodeToken(ids: seq<string>): (t: string)
    ensures |t| >= |TokenPrefix| + 3 && t[..|TokenPrefix|] == TokenPrefix && t[|t| - 1] == '}'
  {
    TokenPrefix + ArrayText(ids) + "}"
  }

  /** `JSON.parse(token).articleIds` for tokens of the shape `EncodeToken` writes: the one
      key, no whitespace, an array of strings whose escapes are any of JSON's except a
      `\u` escape of a surrogate. None for every other text, including some that
      `JSON.parse` accepts and whose `articleIds` the source would use. */
  function DecodeToken(token: string): (r: Option<seq<string>>)
    ensures r.Some? ==> |token| >= |TokenPrefix| + 3 && token[..|TokenPrefix|] == TokenPrefix
  {
    if |token| >= |TokenPrefix| && token[..|TokenPrefix|] == TokenPrefix then
      match ParseArray(token[|TokenPrefix|..])
      case Some((ids, rest)) => if rest == "}" then Some(ids) else None
      case None => None
    else None
  }

  /** The escape `\/`, which the encoder never writes, is read as `JSON.parse` reads it. */
  lemma DecodeSlashEscape()
    ensures DecodeToken("{\"articleIds\":[\"\\/\"]}") == Some(["/"])
  {
    var t := "{\"articleIds\":[\"\\/\"]}";
    assert t[..|TokenPrefix|] == TokenPrefix;
    assert t[|TokenPrefix|..] == "[\"\\/\"]}";
    var body := "\\/\"]}";
    assert body[1..] == "/\"]}";
    assert Unescape(body[1..]) == Some(('/', "\"]}"));
    assert ParseStringBody("\"]}") == Some(([], "]}"));
    assert ParseStringBody(body) == Some((['/'] + [], "]}"));
    assert ['/'] + [] == "/";
    assert "\"\\/\"]}"[1..] == body;
    assert "]" + "}" == "]}";
    ParseLastElement("\"\\/\"]}", "/", "}");
  }

  /** A `\u` escape of a non-surrogate, which the encoder writes only for control
      characters, is read as `JSON.parse` reads it. */
  lemma DecodeUnicodeEscape()
    ensures DecodeToken("{\"articleIds\":[\"\\u0061\"]}") == Some(["a"])
  {
    var t := "{\"articleIds\":[\"\\u0061\"]}";
    assert t[..|TokenPrefix|] == TokenPrefix;
    assert t[|TokenPrefix|..] == "[\"\\u0061\"]}";
    var body := "\\u0061\"]}";
    assert body[1..] == "u0061\"]}";
    assert body[1..][1..5] == "0061";
    assert Hex4("0061") == Some(0x61);
    assert Unescape(body[1..]) == Some(('a', "\"]}"));
    assert ParseStringBody("\"]}") == Some(([], "]}"));
    assert ParseStringBody(body) == Some((['a'] + [], "]}"));
    assert ['a'] + [] == "a";
    assert "\"\\u0061\"]}"[1..] == body;
    assert "]" + "}" == "]}";
    ParseLastElement("\"\\u0061\"]}", "a", "}");
  }

  /** Whitespace, which `JSON.parse` skips, is not read: such a token does not decode. */
  lemma DecodeRejectsWhitespace()
    ensures DecodeToken("{\"articleIds\": []}") == None
  {
  }

  /** Decoding a minted token yields exactly the submitted ids, in the same order. */
  lemma TokenRoundTrip(ids: seq<string>)
    ensures DecodeToken(EncodeToken(ids)) == Some(ids)
  {
    var t := EncodeToken(ids);
    assert t[..|TokenPrefix|] == TokenPrefix;
    assert t[|TokenPrefix|..] == ArrayText(ids) + "}";
    ParseArrayText(ids, "}");
  }

  /** Distinct id lists get distinct tokens. */
  lemma TokenInjective(a: seq<string>, b: seq<string>)
    requires EncodeToken(a) == EncodeToken(b)
    ensures a == b
  {
    TokenRoundTrip(a);
    TokenRoundTrip(b);
  }

  // ---------------------------------------------------------------------------
  // The invoice
  // ---------------------------------------------------------------------------

  /** The UTF-8 bytes of one Unicode scalar value. */
  function Utf8Char(c: char): (r: seq<byte>)
    ensures 1 <= |r| <= 4
  {
    var n := c as int;
    if n < 0x80 then [n as byte]
    else if n < 0x800 then [(0xC0 + n / 64) as byte, (0x80 + n % 64) as byte]
    else if n < 0x10000 then
      [(0xE0 + n / 4096) as byte, (0x80 + (n / 64) % 64) as byte, (0x80 + n % 64) as byte]
    else
      [(0xF0 + n / 262144) as byte, (0x80 + (n / 4096) % 64) as byte,
       (0x80 + (n / 64) % 64) as byte, (0x80 + n % 64) as byte]
  }

  /** `Buffer.from(s)`: the UTF-8 bytes of a string. */
  function Utf8(s: string): (r: seq<byte>)
    ensures |s| <= |r| <= 4 * |s|
  {
    if s == [] then [] else Utf8Char(s[0]) + Utf8(s[1..])
  }

  predicate IsLowerHex(h: string)
  {
    forall i :: 0 <= i < |h| ==> IsLowerHexDigit(h[i])
  }

  /** `buffer.toString('hex')`: two lower-case hex digits per byte. */
  function Hex(bs: seq<byte>): (h: string)
    ensures |h| == 2 * |bs|
    ensures IsLowerHex(h)
  {
    if bs == [] then []
    else [HexDigit(bs[0] as int / 16), HexDigit(bs[0] as int % 16)] + Hex(bs[1..])
  }

  /** Reads hex text back into bytes; None for odd length or a non-hex character. */
  function HexDecode(h: string): Option<seq<byte>>
    decreases |h|
  {
    if h == [] then Some([])
    else if |h| == 1 then None
    else
      match (HexValue(h[0]), HexValue(h[1]), HexDecode(h[2..]))
      case (Some(hi), Some(lo), Some(rest)) => Some([(hi * 16 + lo) as byte] + rest)
      case _ => None
  }

  lemma {:induction false} HexRoundTrip(bs: seq<byte>)
    ensures HexDecode(Hex(bs)) == Some(bs)
  {
    if bs != [] {
      var h := Hex(bs);
      assert h[2..] == Hex(bs[1..]);
      HexRoundTrip(bs[1..]);
      assert [bs[0]] + bs[1..] == bs;
    }
  }

  const InvoicePrefix: string := "ln_mcp_"

  lemma PrefixSplit(p: string, h: string)
    ensures (p + h)[..|p|] == p && (p + h)[|p|..] == h
  {
  }

  /** `ln_mcp_` followed by the hex of `JSON.stringify(ids)`. */
  function Invoice(ids: seq<string>): (r: string)
    ensures |r| >= |InvoicePrefix| && r[..|InvoicePrefix|] == InvoicePrefix
    ensures IsLowerHex(r[|InvoicePrefix|..]) && |r[|InvoicePrefix|..]| % 2 == 0
    ensures HexDecode(r[|InvoicePrefix|..]) == Some(Utf8(ArrayText(ids)))
  {
    var bs := Utf8(ArrayText(ids));
    var h := Hex(bs);
    HexRoundTrip(bs);
    PrefixSplit(InvoicePrefix, h);
    InvoicePrefix + h
  }
}
