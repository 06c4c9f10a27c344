/**
 The text half of the cursor codec: `json.dumps({field: value})` one way, `json.loads`
 and `payload.get(field)` the other, on bytes. String escapes: section 7 of RFC 8259.
 */
module JsonText {
  import opened Prelude
  import opened Base64Url

  /** A Python string is a sequence of code points, lone surrogates included. */
  type CodePoint = c: int | 0 <= c < 0x11_0000
  type Text = seq<CodePoint>

  predicate IsHigh(c: int) { 0xD800 <= c < 0xDC00 }

  predicate IsLow(c: int) { 0xDC00 <= c < 0xE000 }

  /** Unicode scalar values only: what a UTF-8 database column or request body can hold. */
  ghost predicate IsScalarText(s: Text) {
    forall i :: 0 <= i < |s| ==> !IsHigh(s[i]) && !IsLow(s[i])
  }

  const QUOTE: Byte := 34
  const BACKSLASH: Byte := 92

  // ---- Writing ----

  function HexDigit(d: int): Byte
    requires 0 <= d < 16
  {
    if d < 10 then 48 + d else 87 + d
  }

  function EscapeUnit(u: int): (e: seq<Byte>)
    requires 0 <= u < 0x1_0000
    ensures |e| == 6
  {
    [BACKSLASH, 117, HexDigit(u / 4096), HexDigit(u / 256 % 16), HexDigit(u / 16 % 16), HexDigit(u % 16)]
  }

  /** The letter of a two-byte escape. */
  function ShortLetter(c: CodePoint): Option<Byte> {
    if c == 34 || c == 92 then Some(c)
    else if c == 10 then Some(110)
    else if c == 13 then Some(114)
    else if c == 9 then Some(116)
    else if c == 12 then Some(102)
    else if c == 8 then Some(98)
    else None
  }

  function HighOf(c: CodePoint): int
    requires c >= 0x1_0000
  {
    0xD800 + (c - 0x1_0000) / 1024
  }

  function LowOf(c: CodePoint): int
    requires c >= 0x1_0000
  {
    0xDC00 + (c - 0x1_0000) % 1024
  }

  function EscapeChar(c: CodePoint): (e: seq<Byte>)
    ensures |e| > 0
  {
    if ShortLetter(c).Some? then [BACKSLASH, ShortLetter(c).value]
    else if 32 <= c <= 126 then [c]
    else if c < 0x1_0000 then EscapeUnit(c)
    else EscapeUnit(HighOf(c)) + EscapeUnit(LowOf(c))
  }

  function EscapeText(s: Text): seq<Byte> {
    if s == [] then [] else EscapeChar(s[0]) + EscapeText(s[1..])
  }

  function Quoted(s: Text, tail: seq<Byte>): seq<Byte> {
    [QUOTE] + (EscapeText(s) + ([QUOTE] + tail))
  }

  function DumpObject(field: Text, value: Text): seq<Byte> {
    [123] + Quoted(field, [58] + ([32] + Quoted(value, [125])))
  }

  // ---- What is written, literally ----

  /** The four lower-case hexadecimal digits of a unit. */
  function Hex4(u: int): seq<Byte>
    requires 0 <= u < 0x1_0000
  {
    var digits := Ascii("0123456789abcdef");
    [digits[u / 4096], digits[u / 256 % 16], digits[u / 16 % 16], digits[u % 16]]
  }

  lemma HexDigitLiteral(d: int)
    requires 0 <= d < 16
    ensures HexDigit(d) == Ascii("0123456789abcdef")[d]
  {
  }

  lemma EscapeUnitLiteral(u: int)
    requires 0 <= u < 0x1_0000
    ensures EscapeUnit(u) == Ascii("\\u") + Hex4(u)
  {
    HexDigitLiteral(u / 4096);
    HexDigitLiteral(u / 256 % 16);
    HexDigitLiteral(u / 16 % 16);
    HexDigitLiteral(u % 16);
  }

  /** The characters with a short form: section 7 of RFC 8259. */
  lemma EscapeShort()
    ensures EscapeChar(34) == Ascii("\\\"") && EscapeChar(92) == Ascii("\\\\")
    ensures EscapeChar(8) == Ascii("\\b") && EscapeChar(9) == Ascii("\\t") && EscapeChar(10) == Ascii("\\n")
    ensures EscapeChar(12) == Ascii("\\f") && EscapeChar(13) == Ascii("\\r")
  {
  }

  /** All the others: as they are in printable ASCII, one unit of lower-case digits else, and two
      units beyond the first plane. */
  lemma EscapeLong(c: CodePoint)
    requires c !in {34, 92, 8, 9, 10, 12, 13}
    ensures EscapeChar(c)
         == if 32 <= c < 127 then [c]
            else if c < 0x1_0000 then Ascii("\\u") + Hex4(c)
            else Ascii("\\u") + Hex4(0xD800 + (c - 0x1_0000) / 0x400) + (Ascii("\\u") + Hex4(0xDC00 + (c - 0x1_0000) % 0x400))
  {
    if c >= 0x1_0000 {
      EscapeHigh(c);
    } else {
      EscapeUnitLiteral(c);
    }
  }

  lemma EscapeHigh(c: CodePoint)
    requires c >= 0x1_0000
    ensures EscapeChar(c)
         == Ascii("\\u") + Hex4(0xD800 + (c - 0x1_0000) / 0x400) + (Ascii("\\u") + Hex4(0xDC00 + (c - 0x1_0000) % 0x400))
  {
    EscapeUnitLiteral(HighOf(c));
    EscapeUnitLiteral(LowOf(c));
  }

  /** Printable ASCII that needs no escape. */
  ghost predicate IsPlain(v: seq<Byte>) {
    forall i :: 0 <= i < |v| ==> 32 <= v[i] < 127 && v[i] != QUOTE && v[i] != BACKSLASH
  }

  lemma {:induction false} EscapePlain(v: seq<Byte>)
    requires IsPlain(v)
    ensures EscapeText(v) == v
  {
    if v != [] {
      EscapePlain(v[1..]);
      assert v == [v[0]] + v[1..];
    }
  }

  /** The JSON text of an object with one plain member, as it is sent: with a space behind the
      colon, and no other. */
  lemma DumpPlain(field: seq<Byte>, value: seq<Byte>)
    requires IsPlain(field) && IsPlain(value)
    ensures DumpObject(field, value) == Ascii("{\"") + field + Ascii("\": \"") + value + Ascii("\"}")
  {
    EscapePlain(field);
    EscapePlain(value);
    Braces();
    var rest := value + [QUOTE, 125];
    Between(rest);
    Open(field + ([QUOTE, 58, 32, QUOTE] + rest));
    Flat([123, QUOTE], field, [QUOTE, 58, 32, QUOTE], value, [QUOTE, 125]);
  }

  lemma Braces()
    ensures Ascii("{\"") == [123, QUOTE] && Ascii("\": \"") == [QUOTE, 58, 32, QUOTE] && Ascii("\"}") == [QUOTE, 125]
    ensures [QUOTE] + [125] == [QUOTE, 125]
  {
  }

  lemma Open(rest: seq<Byte>)
    ensures [123] + ([QUOTE] + rest) == [123, QUOTE] + rest
  {
  }

  lemma Between(rest: seq<Byte>)
    ensures [QUOTE] + ([58] + ([32] + ([QUOTE] + rest))) == [QUOTE, 58, 32, QUOTE] + rest
  {
    assert [32] + ([QUOTE] + rest) == [32, QUOTE] + rest;
    assert [58] + ([32, QUOTE] + rest) == [58, 32, QUOTE] + rest;
  }

  lemma Flat<T>(a: seq<T>, b: seq<T>, c: seq<T>, d: seq<T>, e: seq<T>)
    ensures a + (b + (c + (d + e))) == a + b + c + d + e
  {
    Associative(a + b + c, d, e);
    Associative(a + b, c, d + e);
    Associative(a, b, c + (d + e));
  }

  ghost predicate IsAscii(b: seq<Byte>) {
    forall i :: 0 <= i < |b| ==> 32 <= b[i] < 127
  }

  lemma {:induction false} EscapeIsAscii(s: Text)
    ensures IsAscii(EscapeText(s))
  {
    if s != [] {
      EscapeIsAscii(s[1..]);
      assert IsAscii(EscapeChar(s[0]));
    }
  }

  /** What is written is printable ASCII, whatever the text: UTF-8 is the identity on it. */
  lemma DumpIsAscii(field: Text, value: Text)
    ensures IsAscii(DumpObject(field, value))
  {
    EscapeIsAscii(field);
    EscapeIsAscii(value);
    assert IsAscii(Quoted(value, [125]));
    assert IsAscii([58] + ([32] + Quoted(value, [125])));
  }

  // ---- Reading ----

  function HexValue(b: Byte): (d: Option<int>)
    ensures d.Some? ==> 0 <= d.value < 16
  {
    if 48 <= b <= 57 then Some(b - 48)
    else if 97 <= b <= 102 then Some(b - 87)
    else if 65 <= b <= 70 then Some(b - 55)
    else None
  }

  /** The unit of an escape `\uXXXX` at the front of `b`. */
  function ReadUnit(b: seq<Byte>): (u: Option<int>)
    ensures u.Some? ==> |b| >= 6 && 0 <= u.value < 0x1_0000
  {
    if |b| < 6 || b[0] != BACKSLASH || b[1] != 117 then None
    else
      var (d3, d2, d1, d0) := (HexValue(b[2]), HexValue(b[3]), HexValue(b[4]), HexValue(b[5]));
      if d3.None? || d2.None? || d1.None? || d0.None? then None
      else Some(d3.value * 4096 + d2.value * 256 + d1.value * 16 + d0.value)
  }

  function ShortEscape(b: Byte): Option<CodePoint> {
    if b == 34 then Some(34)
    else if b == 92 then Some(92)
    else if b == 47 then Some(47)
    else if b == 110 then Some(10)
    else if b == 114 then Some(13)
    else if b == 116 then Some(9)
    else if b == 102 then Some(12)
    else if b == 98 then Some(8)
    else None
  }

  function JoinSurrogates(high: int, low: int): CodePoint
    requires IsHigh(high) && IsLow(low)
  {
    0x1_0000 + (high - 0xD800) * 1024 + (low - 0xDC00)
  }

  /** One character of a string literal and the bytes it takes; a high surrogate escape
      swallows a low surrogate escape right behind it. */
  function ReadChar(b: seq<Byte>): (r: Option<(CodePoint, nat)>)
    ensures r.Some? ==> 0 < r.value.1 <= |b|
  {
    if b == [] || b[0] == QUOTE || b[0] < 32 || b[0] >= 128 then None
    else if b[0] != BACKSLASH then Some((b[0], 1))
    else if |b| >= 2 && b[1] != 117 then
      match ShortEscape(b[1]) {
        case None => None
        case Some(c) => Some((c, 2))
      }
    else match ReadUnit(b)
      case None => None
      case Some(u) =>
        var low := ReadUnit(b[6..]);
        if IsHigh(u) && low.Some? && IsLow(low.value) then Some((JoinSurrogates(u, low.value), 12))
        else Some((u, 6))
  }

  /** The text of a string literal whose opening quote has been read, and what follows it. */
  function ReadText(b: seq<Byte>): Option<(Text, seq<Byte>)>
    decreases |b|
  {
    if b != [] && b[0] == QUOTE then Some(([], b[1..]))
    else match ReadChar(b)
      case None => None
      case Some((c, n)) =>
        match ReadText(b[n..])
        case None => None
        case Some((s, rest)) => Some(([c] + s, rest))
  }

  function SkipSpace(b: seq<Byte>): seq<Byte> {
    if b != [] && b[0] in [32, 9, 10, 13] then SkipSpace(b[1..]) else b
  }

  function Expect(b: seq<Byte>, c: Byte): Option<seq<Byte>> {
    var t := SkipSpace(b);
    if t != [] && t[0] == c then Some(t[1..]) else None
  }

  datatype Payload = Member(field: Text, value: Text) | Unread

  function ReadString(b: seq<Byte>): Option<(Text, seq<Byte>)> {
    match Expect(b, QUOTE)
    case None => None
    case Some(t) => ReadText(t)
  }

  /** Reads an object of one string member; every other document is `Unread`. */
  function LoadObject(b: seq<Byte>): Payload {
    match Expect(b, 123) case None => Unread case Some(b1) =>
    match ReadString(b1) case None => Unread case Some((field, b2)) =>
    match Expect(b2, 58) case None => Unread case Some(b3) =>
    match ReadString(b3) case None => Unread case Some((value, b4)) =>
    match Expect(b4, 125) case None => Unread case Some(b5) =>
      if SkipSpace(b5) == [] then Member(field, value) else Unread
  }

  /** The eight short escapes a reader knows: section 7 of RFC 8259. */
  lemma ReadShort(rest: seq<Byte>)
    ensures ReadChar(Ascii("\\\"") + rest) == Some((34, 2)) && ReadChar(Ascii("\\\\") + rest) == Some((92, 2))
    ensures ReadChar(Ascii("\\/") + rest) == Some((47, 2)) && ReadChar(Ascii("\\b") + rest) == Some((8, 2))
    ensures ReadChar(Ascii("\\f") + rest) == Some((12, 2)) && ReadChar(Ascii("\\n") + rest) == Some((10, 2))
    ensures ReadChar(Ascii("\\r") + rest) == Some((13, 2)) && ReadChar(Ascii("\\t") + rest) == Some((9, 2))
  {
  }

  /** A plain character is read as it is; a control character is refused. */
  lemma ReadPlain(b: Byte, rest: seq<Byte>)
    requires b < 128 && b != QUOTE && b != BACKSLASH
    ensures ReadChar([b] + rest) == if b < 32 then None else Some((b, 1))
  {
  }

  // ---- What reading makes of what was written ----

  /** `s` with every high surrogate joined to a low surrogate right behind it. */
  function Joined(s: Text): Text {
    if |s| >= 2 && IsHigh(s[0]) && IsLow(s[1]) then [JoinSurrogates(s[0], s[1])] + Joined(s[2..])
    else if s == [] then []
    else [s[0]] + Joined(s[1..])
  }

  ghost predicate HasSplitPair(s: Text) {
    exists i :: 0 <= i < |s| - 1 && IsHigh(s[i]) && IsLow(s[i + 1])
  }

  lemma {:induction false} JoinedShrinks(s: Text)
    ensures |Joined(s)| <= |s|
    ensures |Joined(s)| == |s| ==> Joined(s) == s
    ensures |Joined(s)| == |s| <==> !HasSplitPair(s)
  {
    if |s| >= 2 && IsHigh(s[0]) && IsLow(s[1]) {
      JoinedShrinks(s[2..]);
    } else if s != [] {
      JoinedShrinks(s[1..]);
      assert s == [s[0]] + s[1..];
      if HasSplitPair(s) {
        var i :| 0 <= i < |s| - 1 && IsHigh(s[i]) && IsLow(s[i + 1]);
        assert s[1..][i - 1] == s[i] && s[1..][i] == s[i + 1];
      }
      if HasSplitPair(s[1..]) {
        var i :| 0 <= i < |s[1..]| - 1 && IsHigh(s[1..][i]) && IsLow(s[1..][i + 1]);
        assert IsHigh(s[i + 1]) && IsLow(s[i + 2]);
      }
    }
  }

  lemma HexDigits(u: int)
    requires 0 <= u < 0x1_0000
    ensures u / 4096 * 4096 + u / 256 % 16 * 256 + u / 16 % 16 * 16 + u % 16 == u
  {
    assert u == u / 16 * 16 + u % 16;
    assert u / 16 == u / 256 * 16 + u / 16 % 16;
    assert u / 256 == u / 4096 * 16 + u / 256 % 16;
  }

  lemma HexRoundTrip(d: int)
    requires 0 <= d < 16
    ensures HexValue(HexDigit(d)) == Some(d)
  {
  }

  lemma ReadUnitOfEscape(u: int, rest: seq<Byte>)
    requires 0 <= u < 0x1_0000
    ensures ReadUnit(EscapeUnit(u) + rest) == Some(u)
  {
    HexDigits(u);
    var d3, d2, d1, d0 := u / 4096, u / 256 % 16, u / 16 % 16, u % 16;
    HexRoundTrip(d3);
    HexRoundTrip(d2);
    HexRoundTrip(d1);
    HexRoundTrip(d0);
    var b := EscapeUnit(u) + rest;
    assert b[..6] == EscapeUnit(u);
  }

  lemma SurrogatesOf(c: CodePoint)
    requires c >= 0x1_0000
    ensures IsHigh(HighOf(c)) && IsLow(LowOf(c)) && JoinSurrogates(HighOf(c), LowOf(c)) == c
  {
  }

  lemma EscapePair(high: CodePoint, low: CodePoint)
    requires IsHigh(high) && IsLow(low)
    ensures EscapeChar(JoinSurrogates(high, low)) == EscapeChar(high) + EscapeChar(low)
  {
    var c := JoinSurrogates(high, low);
    assert HighOf(c) == high && LowOf(c) == low;
  }

  lemma EscapeFirst(c: CodePoint, rest: Text)
    ensures EscapeText([c] + rest) == EscapeChar(c) + EscapeText(rest)
  {
    assert ([c] + rest)[1..] == rest;
  }

  lemma EscapePairFirst(high: CodePoint, low: CodePoint, rest: Text)
    requires IsHigh(high) && IsLow(low)
    ensures EscapeText([JoinSurrogates(high, low)] + rest) == EscapeChar(high) + (EscapeChar(low) + EscapeText(rest))
  {
    EscapePair(high, low);
    EscapeFirst(JoinSurrogates(high, low), rest);
  }

  /** A pair of surrogates is escaped like the character it stands for. */
  lemma {:induction false} EscapeJoined(s: Text)
    ensures EscapeText(Joined(s)) == EscapeText(s)
  {
    if |s| >= 2 && IsHigh(s[0]) && IsLow(s[1]) {
      EscapeJoined(s[2..]);
      EscapePairFirst(s[0], s[1], Joined(s[2..]));
      EscapeTwo(s);
    } else if s != [] {
      EscapeJoined(s[1..]);
      EscapeFirst(s[0], Joined(s[1..]));
    }
  }

  lemma EscapeTwo(s: Text)
    requires |s| >= 2
    ensures EscapeText(s) == EscapeChar(s[0]) + (EscapeChar(s[1]) + EscapeText(s[2..]))
  {
    assert s[1..][1..] == s[2..];
  }

  /** The first escaped unit of a character, if its escape starts with one. */
  lemma FirstUnit(c: CodePoint, rest: seq<Byte>)
    ensures var u := ReadUnit(EscapeChar(c) + rest);
            u == if c >= 0x1_0000 then Some(HighOf(c))
                 else if ShortLetter(c).Some? || 32 <= c <= 126 then None
                 else Some(c)
  {
    var b := EscapeChar(c) + rest;
    if c >= 0x1_0000 {
      assert b == EscapeUnit(HighOf(c)) + (EscapeUnit(LowOf(c)) + rest);
      SurrogatesOf(c);
      ReadUnitOfEscape(HighOf(c), EscapeUnit(LowOf(c)) + rest);
    } else if ShortLetter(c).Some? {
      assert b[1] == ShortLetter(c).value != 117;
    } else if 32 <= c <= 126 {
      assert b[0] == c != BACKSLASH;
    } else {
      ReadUnitOfEscape(c, rest);
    }
  }

  function Head(s: Text): Option<CodePoint> {
    if s == [] then None else Some(s[0])
  }

  predicate SameLow(u: Option<int>, next: Option<CodePoint>) {
    if next.Some? && IsLow(next.value) then u == next else u.Some? ==> !IsLow(u.value)
  }

  lemma EscapedHead(s: Text, tail: seq<Byte>)
    requires s != []
    ensures EscapeText(s) + tail == EscapeChar(s[0]) + (EscapeText(s[1..]) + tail)
  {
  }

  /** Where an escaped text goes on, the next unit read is a low surrogate only if the
      next code point is one. */
  lemma NextUnit(s: Text, tail: seq<Byte>)
    ensures SameLow(ReadUnit(EscapeText(s) + ([QUOTE] + tail)), Head(s))
  {
    if s != [] {
      EscapedHead(s, [QUOTE] + tail);
      FirstUnit(s[0], EscapeText(s[1..]) + ([QUOTE] + tail));
      if s[0] >= 0x1_0000 {
        SurrogatesOf(s[0]);
      }
    } else {
      assert (EscapeText(s) + ([QUOTE] + tail))[0] == QUOTE;
    }
  }

  /** What is read of an escaped character with this unit behind it. */
  function Taken(c: CodePoint, low: Option<int>): (CodePoint, nat) {
    if IsHigh(c) && low.Some? && IsLow(low.value) then (JoinSurrogates(c, low.value), 12)
    else (c, |EscapeChar(c)|)
  }

  lemma ReadEscapedChar(c: CodePoint, rest: seq<Byte>)
    ensures ReadChar(EscapeChar(c) + rest) == Some(Taken(c, ReadUnit(rest)))
  {
    var b := EscapeChar(c) + rest;
    FirstUnit(c, rest);
    if c >= 0x1_0000 {
      assert b[6..] == EscapeUnit(LowOf(c)) + rest;
      SurrogatesOf(c);
      ReadUnitOfEscape(LowOf(c), rest);
    } else if ShortLetter(c).Some? {
      assert b[0] == BACKSLASH && b[1] == ShortLetter(c).value != 117;
      assert ShortEscape(b[1]) == Some(c);
    } else if 32 <= c <= 126 {
      assert b[0] == c;
    } else {
      assert b[0] == BACKSLASH && b[1] == 117;
      assert b[6..] == rest;
    }
  }

  lemma ReadEscaped(s: Text, tail: seq<Byte>)
    requires s != []
    ensures ReadChar(EscapeText(s) + ([QUOTE] + tail)) == Some(Taken(s[0], Head(s[1..])))
  {
    var rest := EscapeText(s[1..]) + ([QUOTE] + tail);
    EscapedHead(s, [QUOTE] + tail);
    ReadEscapedChar(s[0], rest);
    NextUnit(s[1..], tail);
    SameTaken(s[0], ReadUnit(rest), Head(s[1..]));
  }

  lemma SameTaken(c: CodePoint, u: Option<int>, next: Option<CodePoint>)
    requires SameLow(u, next)
    ensures Taken(c, u) == Taken(c, next)
  {
  }

  /** Reading an escaped text gives the text with its surrogate pairs joined. */
  lemma {:induction false} ReadEscapedText(s: Text, tail: seq<Byte>)
    ensures ReadText(EscapeText(s) + ([QUOTE] + tail)) == Some((Joined(s), tail))
    decreases |s|
  {
    var b := EscapeText(s) + ([QUOTE] + tail);
    if s == [] {
      assert b == [QUOTE] + tail;
    } else {
      var rest := EscapeText(s[1..]) + ([QUOTE] + tail);
      ReadEscaped(s, tail);
      EscapedHead(s, [QUOTE] + tail);
      assert b[0] != QUOTE;
      if |s| >= 2 && IsHigh(s[0]) && IsLow(s[1]) {
        SkipPair(s, tail);
        ReadEscapedText(s[2..], tail);
      } else {
        assert b[|EscapeChar(s[0])|..] == rest;
        ReadEscapedText(s[1..], tail);
      }
    }
  }

  lemma SkipPair(s: Text, tail: seq<Byte>)
    requires |s| >= 2 && IsHigh(s[0]) && IsLow(s[1])
    ensures var b := EscapeText(s) + ([QUOTE] + tail);
            |b| >= 12 && b[12..] == EscapeText(s[2..]) + ([QUOTE] + tail)
  {
  }

  lemma ExpectHead(c: Byte, rest: seq<Byte>)
    requires c !in [32, 9, 10, 13]
    ensures Expect([c] + rest, c) == Some(rest)
  {
  }

  lemma ReadQuoted(s: Text, tail: seq<Byte>)
    ensures ReadString(Quoted(s, tail)) == Some((Joined(s), tail))
  {
    ExpectHead(QUOTE, EscapeText(s) + ([QUOTE] + tail));
    ReadEscapedText(s, tail);
  }

  lemma SkipOneSpace(b: seq<Byte>)
    ensures ReadString([32] + b) == ReadString(b)
  {
  }

  lemma LoadParts(b: seq<Byte>, b1: seq<Byte>, field: Text, b2: seq<Byte>, b3: seq<Byte>, value: Text, b4: seq<Byte>)
    requires Expect(b, 123) == Some(b1) && ReadString(b1) == Some((field, b2))
    requires Expect(b2, 58) == Some(b3) && ReadString(b3) == Some((value, b4)) && Expect(b4, 125) == Some([])
    ensures LoadObject(b) == Member(field, value)
  {
  }

  /** `json.loads` of `json.dumps`: both strings come back with surrogate pairs joined. */
  lemma LoadDumped(field: Text, value: Text)
    ensures LoadObject(DumpObject(field, value)) == Member(Joined(field), Joined(value))
  {
    var b3 := Quoted(value, [125]);
    var b2 := [58] + ([32] + b3);
    var b1 := Quoted(field, b2);
    ExpectHead(123, b1);
    ReadQuoted(field, b2);
    ExpectHead(58, [32] + b3);
    SkipOneSpace(b3);
    ReadQuoted(value, [125]);
    assert [125] == [125] + [];
    ExpectHead(125, []);
    LoadParts([123] + b1, b1, Joined(field), b2, [32] + b3, Joined(value), [125]);
  }
}
