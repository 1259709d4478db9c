/**
 * JSON.stringify of ECMA-262 (section 25.5.2 in the 2023 edition), over the
 * values a response body can carry: null, booleans, integers, strings, arrays
 * and objects.
 */
module JsonStringify {
  import opened Wrappers

  /**
   * An object's `members` are listed in the object's key-enumeration order
   * (OrdinaryOwnPropertyKeys, section 10.1.11.1): keys that are array indices
   * ("2", "10") first in ascending numeric order, then the other string keys in
   * insertion order. Serialize writes them in the order given.
   */
  datatype JsonValue =
    | Null
    | Bool(b: bool)
    | Number(n: int)
    | String(s: string)
    | Array(items: seq<JsonValue>)
    | Object(members: seq<(string, JsonValue)>)

  /** The JSON text of a value (SerializeJSONProperty without a replacer or indent). */
  function Serialize(v: JsonValue): (r: string)
    ensures |r| > 0
    ensures r[0] == '"' <==> v.String?
    ensures r[0] == '[' <==> v.Array?
    ensures r[0] == '{' <==> v.Object?
    ensures r[0] == '-' || IsDigit(r[0]) <==> v.Number?
  {
    match v
    case Null => "null"
    case Bool(b) => if b then "true" else "false"
    case Number(n) => IntToDecimal(n)
    case String(s) => Quote(s)
    case Array(items) =>
      "[" + Join(seq(|items|, i requires 0 <= i < |items| => Serialize(items[i])), ",") + "]"
    case Object(members) =>
      "{" + Join(seq(|members|, i requires 0 <= i < |members| =>
                       Quote(members[i].0) + ":" + Serialize(members[i].1)), ",") + "}"
  }

  /** The parts one after another, with `sep` between neighbours. */
  function Join(parts: seq<string>, sep: string): string {
    if |parts| == 0 then ""
    else if |parts| == 1 then parts[0]
    else parts[0] + sep + Join(parts[1..], sep)
  }

  // ---------------------------------------------------------------------------
  // Numbers. JavaScript prints an integral number of magnitude at most 2^53 as
  // its decimal digits, with a minus sign when negative.

  predicate IsDigit(c: char) {
    '0' <= c <= '9'
  }

  predicate AllDigits(s: string) {
    forall i :: 0 <= i < |s| ==> IsDigit(s[i])
  }

  function DigitChar(d: nat): (c: char)
    requires d < 10
    ensures IsDigit(c) && c as int - '0' as int == d
  {
    ('0' as int + d) as char
  }

  /** The decimal digits of n, with no leading zero except for 0 itself. */
  function NatToDecimal(n: nat): (r: string)
    ensures |r| > 0 && AllDigits(r)
    ensures r[0] == '0' <==> n == 0
  {
    if n < 10 then [DigitChar(n)] else NatToDecimal(n / 10) + [DigitChar(n % 10)]
  }

  function IntToDecimal(n: int): (r: string)
    ensures |r| > 0 && (r[0] == '-' || IsDigit(r[0]))
    ensures r[0] == '-' <==> n < 0
  {
    if n < 0 then "-" + NatToDecimal(-n) else NatToDecimal(n)
  }

  /** The number a string of decimal digits denotes. */
  function DecimalValue(s: string): nat
    requires AllDigits(s)
  {
    if s == [] then 0 else DecimalValue(s[..|s| - 1]) * 10 + (s[|s| - 1] as int - '0' as int)
  }

  /** Reads back an optionally signed decimal integer. */
  function ParseInteger(s: string): Option<int> {
    if |s| > 1 && s[0] == '-' && AllDigits(s[1..]) then
      var magnitude: int := DecimalValue(s[1..]); Some(-magnitude)
    else if |s| > 0 && AllDigits(s) then Some(DecimalValue(s))
    else None
  }

  lemma {:induction false} DecimalRoundTrip(n: nat)
    ensures DecimalValue(NatToDecimal(n)) == n
  {
    if n >= 10 {
      var prefix := NatToDecimal(n / 10);
      var r := prefix + [DigitChar(n % 10)];
      assert r[..|r| - 1] == prefix;
      DecimalRoundTrip(n / 10);
    }
  }

  /** The decimal text of an integer reads back as that integer. */
  lemma IntegerRoundTrip(n: int)
    ensures ParseInteger(IntToDecimal(n)) == Some(n)
  {
    if n < 0 {
      assert IntToDecimal(n)[1..] == NatToDecimal(-n);
      DecimalRoundTrip(-n);
    } else {
      DecimalRoundTrip(n);
    }
  }

  // ---------------------------------------------------------------------------
  // Strings: QuoteJSONString. Quotation mark and backslash are escaped, the
  // control characters with a short form use it, the other ones below U+0020
  // become \u00 followed by two lower-case hex digits; all else is verbatim.

  function HexDigit(d: nat): (c: char)
    requires d < 16
    ensures IsHexDigit(c)
  {
    if d < 10 then ('0' as int + d) as char else ('a' as int + d - 10) as char
  }

  predicate IsHexDigit(c: char) {
    IsDigit(c) || 'a' <= c <= 'f' || 'A' <= c <= 'F'
  }

  function HexValue(c: char): (d: nat)
    requires IsHexDigit(c)
    ensures d < 16
  {
    if IsDigit(c) then c as int - '0' as int
    else if 'a' <= c <= 'f' then c as int - 'a' as int + 10
    else c as int - 'A' as int + 10
  }

  /** The QuoteJSONString text of one character: never a raw control character. */
  function EscapeChar(c: char): (r: string)
    ensures |r| > 0 && forall i :: 0 <= i < |r| ==> r[i] >= ' '
    ensures r[0] == '\\' <==> c == '"' || c == '\\' || c < ' '
    ensures r[0] != '\\' ==> r == [c]
  {
    if c == '"' then "\\\""
    else if c == '\\' then "\\\\"
    else if c == '\U{8}' then "\\b"
    else if c == '\t' then "\\t"
    else if c == '\n' then "\\n"
    else if c == '\U{C}' then "\\f"
    else if c == '\r' then "\\r"
    else if c < ' ' then "\\u00" + [HexDigit(c as int / 16), HexDigit(c as int % 16)]
    else [c]
  }

  /** The escaped text of a string: at least as long, and free of raw control characters. */
  function Escape(s: string): (r: string)
    ensures |r| >= |s|
    ensures forall i :: 0 <= i < |r| ==> r[i] >= ' '
  {
    if s == [] then [] else EscapeChar(s[0]) + Escape(s[1..])
  }

  /** Text QuoteJSONString copies unchanged: no quotation mark, backslash or control character. */
  predicate NeedsNoEscape(s: string) {
    forall i :: 0 <= i < |s| ==> s[i] != '"' && s[i] != '\\' && s[i] >= ' '
  }

  /** Such text is escaped as itself. */
  lemma {:induction false} EscapePlain(s: string)
    requires NeedsNoEscape(s)
    ensures Escape(s) == s
  {
    if s != [] {
      EscapePlain(s[1..]);
      assert [s[0]] + s[1..] == s;
    }
  }

  function Quote(s: string): (r: string)
    ensures |r| >= 2 && r[0] == '"' && r[|r| - 1] == '"'
  {
    "\"" + Escape(s) + "\""
  }

  /** Such text is quoted by putting quotation marks around it. */
  lemma QuotePlain(s: string)
    requires NeedsNoEscape(s)
    ensures Quote(s) == "\"" + s + "\""
  {
    EscapePlain(s);
  }

  /** Two parts are joined with one separator between them. */
  lemma JoinPair(first: string, second: string, sep: string)
    ensures Join([first, second], sep) == first + sep + second
  {
  }

  /** The member texts of a two-member object. */
  lemma MemberTextsPair(k1: string, v1: JsonValue, k2: string, v2: JsonValue)
    ensures var members := [(k1, v1), (k2, v2)];
      seq(|members|, i requires 0 <= i < |members| => Quote(members[i].0) + ":" + Serialize(members[i].1))
      == [Quote(k1) + ":" + Serialize(v1), Quote(k2) + ":" + Serialize(v2)]
  {
  }

  /** A two-member object is written as its members' texts, in order, between braces. */
  lemma SerializePair(k1: string, v1: JsonValue, k2: string, v2: JsonValue)
    ensures Serialize(Object([(k1, v1), (k2, v2)]))
            == "{" + (Quote(k1) + ":" + Serialize(v1)) + "," + (Quote(k2) + ":" + Serialize(v2)) + "}"
  {
    var first, second := Quote(k1) + ":" + Serialize(v1), Quote(k2) + ":" + Serialize(v2);
    MemberTextsPair(k1, v1, k2, v2);
    JoinPair(first, second, ",");
    assert "{" + (first + "," + second) + "}" == "{" + first + "," + second + "}";
  }

  /** A two-member object of plain strings: each key and value between quotation marks. */
  lemma SerializePlainPair(k1: string, v1: string, k2: string, v2: string)
    requires NeedsNoEscape(k1) && NeedsNoEscape(v1) && NeedsNoEscape(k2) && NeedsNoEscape(v2)
    ensures Serialize(Object([(k1, String(v1)), (k2, String(v2))]))
            == "{" + ("\"" + k1 + "\"" + ":" + ("\"" + v1 + "\"")) + ","
               + ("\"" + k2 + "\"" + ":" + ("\"" + v2 + "\"")) + "}"
  {
    SerializePair(k1, String(v1), k2, String(v2));
    QuotePlain(k1);
    QuotePlain(v1);
    QuotePlain(k2);
    QuotePlain(v2);
  }

  // The reading direction of section 7 of RFC 8259, against which Quote is proved invertible.

  /** The character a two-character escape `\x` stands for. */
  function ShortUnescape(x: char): Option<char> {
    if x == '"' then Some('"')
    else if x == '\\' then Some('\\')
    else if x == '/' then Some('/')
    else if x == 'b' then Some('\U{8}')
    else if x == 'f' then Some('\U{C}')
    else if x == 'n' then Some('\n')
    else if x == 'r' then Some('\r')
    else if x == 't' then Some('\t')
    else None
  }

  function Prepend(c: char, rest: Option<string>): Option<string> {
    match rest
    case None => None
    case Some(s) => Some([c] + s)
  }

  /**
   * Decodes the characters between the quotes of a JSON string, or None when
   * they are not well formed. A \u escape must name a code point outside the
   * surrogate range.
   */
  function Unescape(t: string): Option<string>
    decreases |t|
  {
    if t == [] then Some([])
    else if t[0] != '\\' then
      if t[0] == '"' || t[0] < ' ' then None else Prepend(t[0], Unescape(t[1..]))
    else if |t| < 2 then None
    else if t[1] == 'u' then
      if |t| < 6 || !IsHexDigit(t[2]) || !IsHexDigit(t[3]) || !IsHexDigit(t[4]) || !IsHexDigit(t[5]) then None
      else
        var v := HexValue(t[2]) * 4096 + HexValue(t[3]) * 256 + HexValue(t[4]) * 16 + HexValue(t[5]);
        if 0xD800 <= v < 0xE000 then None else Prepend(v as char, Unescape(t[6..]))
    else
      match ShortUnescape(t[1])
      case None => None
      case Some(c) => Prepend(c, Unescape(t[2..]))
  }

  function Unquote(q: string): Option<string> {
    if |q| >= 2 && q[0] == '"' && q[|q| - 1] == '"' then Unescape(q[1..|q| - 1]) else None
  }

  lemma UnescapeEscapeChar(c: char, rest: string)
    ensures Unescape(EscapeChar(c) + rest) == Prepend(c, Unescape(rest))
  {
    var t := EscapeChar(c) + rest;
    if c == '"' || c == '\\' || c == '\U{8}' || c == '\t' || c == '\n' || c == '\U{C}' || c == '\r' {
      assert t[2..] == rest;
    } else if c < ' ' {
      var hi, lo := c as int / 16, c as int % 16;
      assert t[1] == 'u' && t[2] == '0' && t[3] == '0' && t[4] == HexDigit(hi) && t[5] == HexDigit(lo);
      assert HexValue(HexDigit(hi)) == hi && HexValue(HexDigit(lo)) == lo;
      assert t[6..] == rest;
    } else {
      assert t[1..] == rest;
    }
  }

  /** Escaping loses nothing: the escaped text decodes to the original string. */
  lemma {:induction false} EscapeRoundTrip(s: string)
    ensures Unescape(Escape(s)) == Some(s)
  {
    if s != [] {
      UnescapeEscapeChar(s[0], Escape(s[1..]));
      EscapeRoundTrip(s[1..]);
      assert [s[0]] + s[1..] == s;
    }
  }

  /** A quoted string reads back as the string that was quoted. */
  lemma QuoteRoundTrip(s: string)
    ensures Unquote(Quote(s)) == Some(s)
  {
    var q := Quote(s);
    assert q[1..|q| - 1] == Escape(s);
    EscapeRoundTrip(s);
  }
}
