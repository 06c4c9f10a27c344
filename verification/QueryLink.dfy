/** Query strings of `nextLink`: `urllib.parse.urlencode` and what the server parses back. */
module QueryLink {
  import opened Prelude
  import opened Base64Url
  import opened Joining
  import opened JsonText

  type Bytes = seq<Byte>

  const SPACE: Byte := 32
  const PERCENT: Byte := 37
  const AMPERSAND: Byte := 38
  const PLUS: Byte := 43
  const EQUALS: Byte := 61
  const QUESTION: Byte := 63

  /** Section 2.3 of RFC 3986. */
  predicate IsUnreserved(b: Byte) {
    IsTokenByte(b) || b == 46 || b == 126
  }

  function UpperHex(d: int): Byte
    requires 0 <= d < 16
  {
    if d < 10 then 48 + d else 55 + d
  }

  function QuoteByte(b: Byte): Bytes {
    if IsUnreserved(b) then [b]
    else if b == SPACE then [PLUS]
    else [PERCENT, UpperHex(b / 16), UpperHex(b % 16)]
  }

  function QuotePlus(s: Bytes): Bytes {
    if s == [] then [] else QuoteByte(s[0]) + QuotePlus(s[1..])
  }

  function UnquotePlus(s: Bytes): Bytes {
    if s == [] then []
    else if s[0] == PLUS then [SPACE] + UnquotePlus(s[1..])
    else if s[0] == PERCENT && |s| >= 3 && HexValue(s[1]).Some? && HexValue(s[2]).Some? then
      [HexValue(s[1]).value * 16 + HexValue(s[2]).value] + UnquotePlus(s[3..])
    else [s[0]] + UnquotePlus(s[1..])
  }

  datatype Param = Param(name: Bytes, value: Bytes)

  function EncodeParam(p: Param): Bytes {
    QuotePlus(p.name) + [EQUALS] + QuotePlus(p.value)
  }

  function UrlEncode(params: seq<Param>): Bytes {
    Join(seq(|params|, i requires 0 <= i < |params| => EncodeParam(params[i])), AMPERSAND)
  }

  function ParseParam(s: Bytes): Param {
    if EQUALS in s then
      var i := IndexOf(s, EQUALS);
      Param(UnquotePlus(s[..i]), UnquotePlus(s[i + 1..]))
    else Param(UnquotePlus(s), [])
  }

  function ParseQuery(s: Bytes): seq<Param> {
    var parts := Split(s, AMPERSAND);
    seq(|parts|, i requires 0 <= i < |parts| => ParseParam(parts[i]))
  }

  /** The last value given for a name, as the framework takes it. */
  function ParamValue(params: seq<Param>, name: Bytes): Option<Bytes> {
    if params == [] then None
    else if params[|params| - 1].name == name then Some(params[|params| - 1].value)
    else ParamValue(params[..|params| - 1], name)
  }

  function LinkOf(base: Bytes, params: seq<Param>): Bytes {
    base + [QUESTION] + UrlEncode(params)
  }

  function QueryOf(link: Bytes): seq<Param> {
    if QUESTION in link then ParseQuery(link[IndexOf(link, QUESTION) + 1..]) else []
  }

  lemma UpperHexRoundTrip(d: int)
    requires 0 <= d < 16
    ensures HexValue(UpperHex(d)) == Some(d)
  {
  }

  /** Quoting, literally: a space is a plus sign, and what is reserved is a percent sign and two
      upper-case digits. */
  lemma QuoteLiteral(b: Byte)
    ensures var digits := Ascii("0123456789ABCDEF");
            QuoteByte(b) == if IsUnreserved(b) then [b]
                            else if b == 32 then Ascii("+")
                            else Ascii("%") + [digits[b / 16], digits[b % 16]]
  {
    UpperLiteral(b / 16);
    UpperLiteral(b % 16);
  }

  lemma UpperLiteral(d: int)
    requires 0 <= d < 16
    ensures UpperHex(d) == Ascii("0123456789ABCDEF")[d]
  {
  }

  lemma UnquoteByte(b: Byte, rest: Bytes)
    ensures UnquotePlus(QuoteByte(b) + rest) == [b] + UnquotePlus(rest)
  {
    var s := QuoteByte(b) + rest;
    if IsUnreserved(b) || b == SPACE {
      assert s[1..] == rest;
    } else {
      UpperHexRoundTrip(b / 16);
      UpperHexRoundTrip(b % 16);
      assert s[3..] == rest;
    }
  }

  lemma {:induction false} UnquoteQuoted(s: Bytes)
    ensures UnquotePlus(QuotePlus(s)) == s
    ensures AMPERSAND !in QuotePlus(s) && EQUALS !in QuotePlus(s)
  {
    if s != [] {
      UnquoteByte(s[0], QuotePlus(s[1..]));
      UnquoteQuoted(s[1..]);
      assert AMPERSAND !in QuoteByte(s[0]) && EQUALS !in QuoteByte(s[0]);
    }
  }

  lemma ParseEncodedParam(p: Param)
    ensures ParseParam(EncodeParam(p)) == p
    ensures AMPERSAND !in EncodeParam(p)
  {
    UnquoteQuoted(p.name);
    UnquoteQuoted(p.value);
    FirstAfter(QuotePlus(p.name), EQUALS, QuotePlus(p.value));
  }

  /** Parsing an encoded query gives back its parameters, whatever bytes they hold. */
  lemma ParseUrlEncoded(params: seq<Param>)
    requires params != []
    ensures ParseQuery(UrlEncode(params)) == params
  {
    var parts := seq(|params|, i requires 0 <= i < |params| => EncodeParam(params[i]));
    forall i | 0 <= i < |params|
      ensures ParseParam(parts[i]) == params[i] && AMPERSAND !in parts[i]
    {
      ParseEncodedParam(params[i]);
    }
    SplitJoined(parts, AMPERSAND);
  }

  lemma QueryOfLink(base: Bytes, params: seq<Param>)
    requires params != [] && QUESTION !in base
    ensures QueryOf(LinkOf(base, params)) == params
  {
    FirstAfter(base, QUESTION, UrlEncode(params));
    ParseUrlEncoded(params);
  }

  /** Token bytes are unreserved, so quoting leaves a token as it is. */
  lemma {:induction false} QuotedToken(token: Bytes)
    requires forall i :: 0 <= i < |token| ==> IsTokenByte(token[i])
    ensures QuotePlus(token) == token
  {
    if token != [] {
      QuotedToken(token[1..]);
      assert token == [token[0]] + token[1..];
    }
  }

  // ---- Decimal numbers ----

  function PrintNat(n: nat): Bytes {
    if n < 10 then [48 + n] else PrintNat(n / 10) + [48 + n % 10]
  }

  function PrintInt(n: int): Bytes {
    if n < 0 then [45] + PrintNat(-n) else PrintNat(n)
  }

  function ParseNat(s: Bytes): Option<nat> {
    if s == [] then None
    else
      var last := s[|s| - 1];
      if !(48 <= last <= 57) then None
      else if |s| == 1 then Some(last - 48)
      else match ParseNat(s[..|s| - 1])
        case None => None
        case Some(n) => Some(n * 10 + (last - 48))
  }

  function ParseInt(s: Bytes): Option<int> {
    var negative := s != [] && s[0] == 45;
    var digits: Option<int> := ParseNat(if negative then s[1..] else s);
    match digits
    case None => None
    case Some(n) => Some(if negative then 0 - n else n)
  }

  lemma {:induction false} ParsePrintedNat(n: nat)
    ensures ParseNat(PrintNat(n)) == Some(n)
    ensures PrintNat(n) != [] && PrintNat(n)[0] != 45
  {
    if n >= 10 {
      ParsePrintedNat(n / 10);
      var s := PrintNat(n);
      assert s[..|s| - 1] == PrintNat(n / 10);
    }
  }

  lemma ParsePrintedInt(n: int)
    ensures ParseInt(PrintInt(n)) == Some(n)
  {
    ParsePrintedNat(if n < 0 then -n else n);
  }
}
