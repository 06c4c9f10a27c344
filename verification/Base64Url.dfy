/**
 The byte half of the cursor codec: `urlsafe_b64encode(..).rstrip(b"=")` one way,
 `urlsafe_b64decode(.. + b"===")` the other.
 Alphabet: section 5 of RFC 4648. Excess pads are ignored: section 3.3 of RFC 4648.
 */
module Base64Url {
  import opened Prelude

  type Byte = b: int | 0 <= b < 256
  type Sextet = v: int | 0 <= v < 64

  const PAD: Byte := 61 // '='

  /** The bytes of an ASCII text. */
  function Ascii(s: string): (b: seq<Byte>)
    requires forall i :: 0 <= i < |s| ==> s[i] < 128 as char
    ensures |b| == |s| && forall i :: 0 <= i < |s| ==> b[i] == s[i] as int
  {
    seq(|s|, i requires 0 <= i < |s| => s[i] as int)
  }

  function AlphabetByte(v: Sextet): (b: Byte)
    ensures IsTokenByte(b)
  {
    if v < 26 then 65 + v         // 'A'..'Z'
    else if v < 52 then 71 + v    // 'a'..'z'
    else if v < 62 then v - 4     // '0'..'9'
    else if v == 62 then 45       // '-'
    else 95                       // '_'
  }

  const UPPER := "ABCDEFGHIJKLMNOPQRSTUVWXYZ"
  const LOWER := "abcdefghijklmnopqrstuvwxyz"
  const DIGITS := "0123456789"

  lemma LiteralLetter(k: nat)
    requires k < 26
    ensures |UPPER| == 26 && UPPER[k] as int == 65 + k
    ensures |LOWER| == 26 && LOWER[k] as int == 97 + k
  {
  }

  lemma LiteralDigit(k: nat)
    requires k < 10
    ensures |DIGITS| == 10 && DIGITS[k] as int == 48 + k
  {
  }

  /** The alphabet of section 5 of RFC 4648, by position. */
  lemma Alphabet(v: Sextet)
    ensures |UPPER + LOWER + DIGITS + "-_"| == 64
    ensures AlphabetByte(v) == (UPPER + LOWER + DIGITS + "-_")[v] as int
  {
    LiteralLetter(if v < 26 then v else if v < 52 then v - 26 else 0);
    LiteralDigit(if 52 <= v < 62 then v - 52 else 0);
  }

  /** The decoder first maps '-' and '_' to '+' and '/', so it takes both alphabets. */
  function SextetOf(b: Byte): Option<Sextet> {
    if 65 <= b <= 90 then Some(b - 65)
    else if 97 <= b <= 122 then Some(b - 71)
    else if 48 <= b <= 57 then Some(b + 4)
    else if b == 45 || b == 43 then Some(62)
    else if b == 95 || b == 47 then Some(63)
    else None
  }

  /** The bytes a token is made of; all are unreserved in section 2.3 of RFC 3986. */
  predicate IsTokenByte(b: Byte) {
    65 <= b <= 90 || 97 <= b <= 122 || 48 <= b <= 57 || b == 45 || b == 95
  }

  // ---- Encoding ----

  function Group(b0: Byte, b1: Byte, b2: Byte): seq<Byte> {
    [AlphabetByte(b0 / 4), AlphabetByte(b0 % 4 * 16 + b1 / 16),
     AlphabetByte(b1 % 16 * 4 + b2 / 64), AlphabetByte(b2 % 64)]
  }

  function EncodePadded(b: seq<Byte>): seq<Byte> {
    if |b| == 0 then []
    else if |b| == 1 then
      [AlphabetByte(b[0] / 4), AlphabetByte(b[0] % 4 * 16), PAD, PAD]
    else if |b| == 2 then
      [AlphabetByte(b[0] / 4), AlphabetByte(b[0] % 4 * 16 + b[1] / 16), AlphabetByte(b[1] % 16 * 4), PAD]
    else
      Group(b[0], b[1], b[2]) + EncodePadded(b[3..])
  }

  function StripPads(s: seq<Byte>): seq<Byte> {
    if s != [] && s[|s| - 1] == PAD then StripPads(s[..|s| - 1]) else s
  }

  function Encode(b: seq<Byte>): seq<Byte> {
    StripPads(EncodePadded(b))
  }

  // ---- Decoding ----

  /** The scan CPython's `binascii.a2b_base64` makes in its non-strict mode: `quad` data
      bytes of the current group have been read, `left` holds their undelivered bits, and
      bytes outside the alphabet are skipped. */
  function Scan(t: seq<Byte>, quad: nat, left: nat, pads: nat): Option<seq<Byte>>
    requires quad < 4 && ScanState(quad, left)
    decreases |t|
  {
    if t == [] then
      if quad == 0 then Some([]) else None
    else if t[0] == PAD then
      if quad >= 2 && quad + pads + 1 >= 4 then Some([])
      else Scan(t[1..], quad, left, if quad >= 2 then pads + 1 else pads)
    else match SextetOf(t[0])
      case None => Scan(t[1..], quad, left, pads)
      case Some(v) =>
        if quad == 0 then Scan(t[1..], 1, v, 0)
        else if quad == 1 then Deliver(left * 4 + v / 16, Scan(t[1..], 2, v % 16, 0))
        else if quad == 2 then Deliver(left * 16 + v / 4, Scan(t[1..], 3, v % 4, 0))
        else Deliver(left * 64 + v, Scan(t[1..], 0, 0, 0))
  }

  predicate ScanState(quad: nat, left: nat) {
    (quad == 1 ==> left < 64) && (quad == 2 ==> left < 16) && (quad == 3 ==> left < 4)
  }

  function Deliver(b: Byte, rest: Option<seq<Byte>>): Option<seq<Byte>> {
    match rest
    case None => None
    case Some(bytes) => Some([b] + bytes)
  }

  const THREE_PADS: seq<Byte> := [PAD, PAD, PAD]

  function Decode(token: seq<Byte>): Option<seq<Byte>> {
    Scan(token + THREE_PADS, 0, 0, 0)
  }

  // ---- Encoding without padding ----

  function Unpadded(b: seq<Byte>): (t: seq<Byte>)
    ensures |t| == (4 * |b| + 2) / 3
    ensures forall c :: c in t ==> IsTokenByte(c)
  {
    if |b| == 0 then []
    else if |b| == 1 then
      [AlphabetByte(b[0] / 4), AlphabetByte(b[0] % 4 * 16)]
    else if |b| == 2 then
      [AlphabetByte(b[0] / 4), AlphabetByte(b[0] % 4 * 16 + b[1] / 16), AlphabetByte(b[1] % 16 * 4)]
    else
      Group(b[0], b[1], b[2]) + Unpadded(b[3..])
  }

  function Pads(n: nat): seq<Byte> {
    seq(if n % 3 == 0 then 0 else 3 - n % 3, _ => PAD)
  }

  lemma PaddedOne(b: seq<Byte>)
    requires |b| == 1
    ensures EncodePadded(b) == Unpadded(b) + [PAD, PAD]
  {
  }

  lemma PaddedTwo(b: seq<Byte>)
    requires |b| == 2
    ensures EncodePadded(b) == Unpadded(b) + [PAD]
  {
  }

  lemma PadsOf(n: nat)
    requires n < 3
    ensures Pads(n) == if n == 0 then [] else if n == 1 then [PAD, PAD] else [PAD]
  {
  }

  lemma {:induction false} PaddedIsUnpaddedPlusPads(b: seq<Byte>)
    ensures EncodePadded(b) == Unpadded(b) + Pads(|b|)
  {
    if |b| < 3 {
      PadsOf(|b|);
      if |b| == 1 {
        PaddedOne(b);
      } else if |b| == 2 {
        PaddedTwo(b);
      }
    } else {
      PaddedIsUnpaddedPlusPads(b[3..]);
      PadsPeriod(|b[3..]|);
      Associative(Group(b[0], b[1], b[2]), Unpadded(b[3..]), Pads(|b|));
    }
  }

  lemma PadsPeriod(n: nat)
    ensures Pads(n + 3) == Pads(n)
  {
  }

  lemma Associative<T>(a: seq<T>, b: seq<T>, c: seq<T>)
    ensures (a + b) + c == a + (b + c)
  {
  }

  lemma {:induction false} StripPadsOf(s: seq<Byte>, pads: seq<Byte>)
    requires s == [] || s[|s| - 1] != PAD
    requires forall i :: 0 <= i < |pads| ==> pads[i] == PAD
    ensures StripPads(s + pads) == s
  {
    if pads == [] {
      assert s + pads == s;
    } else {
      assert (s + pads)[..|s + pads| - 1] == s + pads[..|pads| - 1];
      StripPadsOf(s, pads[..|pads| - 1]);
    }
  }

  lemma EncodeIsUnpadded(b: seq<Byte>)
    ensures Encode(b) == Unpadded(b)
  {
    var t := Unpadded(b);
    PaddedIsUnpaddedPlusPads(b);
    if t != [] {
      assert t[|t| - 1] in t;
    }
    StripPadsOf(t, Pads(|b|));
  }

  /** The stripped form has ceil(4n/3) bytes, never 1 more than a multiple of four, and
      nothing in it needs escaping in a URL. */
  lemma EncodedShape(b: seq<Byte>)
    ensures |Encode(b)| == (4 * |b| + 2) / 3
    ensures |Encode(b)| % 4 != 1
    ensures forall c :: c in Encode(b) ==> IsTokenByte(c)
  {
    EncodeIsUnpadded(b);
  }

  // ---- Round trip ----

  lemma ScanStep(v: Sextet, rest: seq<Byte>, quad: nat, left: nat)
    requires quad < 4 && ScanState(quad, left)
    ensures Scan([AlphabetByte(v)] + rest, quad, left, 0)
         == if quad == 0 then Scan(rest, 1, v, 0)
            else if quad == 1 then Deliver(left * 4 + v / 16, Scan(rest, 2, v % 16, 0))
            else if quad == 2 then Deliver(left * 16 + v / 4, Scan(rest, 3, v % 4, 0))
            else Deliver(left * 64 + v, Scan(rest, 0, 0, 0))
  {
    assert ([AlphabetByte(v)] + rest)[1..] == rest;
  }

  lemma ScanGroup(v0: Sextet, v1: Sextet, v2: Sextet, v3: Sextet, rest: seq<Byte>)
    ensures Scan([AlphabetByte(v0), AlphabetByte(v1), AlphabetByte(v2), AlphabetByte(v3)] + rest, 0, 0, 0)
         == Deliver(v0 * 4 + v1 / 16, Deliver(v1 % 16 * 16 + v2 / 4, Deliver(v2 % 4 * 64 + v3, Scan(rest, 0, 0, 0))))
  {
    var t3 := [AlphabetByte(v3)] + rest;
    var t2 := [AlphabetByte(v2)] + t3;
    var t1 := [AlphabetByte(v1)] + t2;
    assert [AlphabetByte(v0), AlphabetByte(v1), AlphabetByte(v2), AlphabetByte(v3)] + rest == [AlphabetByte(v0)] + t1;
    ScanStep(v0, t1, 0, 0);
    ScanStep(v1, t2, 1, v0);
    ScanStep(v2, t3, 2, v1 % 16);
    ScanStep(v3, rest, 3, v2 % 4);
  }

  /** A trailing group of two or three bytes is closed by the appended pads; one is not. */
  lemma ScanTail(v0: Sextet, v1: Sextet, v2: Sextet)
    ensures Scan(THREE_PADS, 0, 0, 0) == Some([])
    ensures Scan([AlphabetByte(v0)] + THREE_PADS, 0, 0, 0) == None
    ensures Scan([AlphabetByte(v0), AlphabetByte(v1)] + THREE_PADS, 0, 0, 0) == Some([v0 * 4 + v1 / 16])
    ensures Scan([AlphabetByte(v0), AlphabetByte(v1), AlphabetByte(v2)] + THREE_PADS, 0, 0, 0)
         == Some([v0 * 4 + v1 / 16, v1 % 16 * 16 + v2 / 4])
  {
    var a1, a2 := [AlphabetByte(v1)] + THREE_PADS, [AlphabetByte(v2)] + THREE_PADS;
    var a12 := [AlphabetByte(v1)] + a2;
    PadsClose(0, 0);
    PadsClose(1, v0);
    PadsClose(2, v1 % 16);
    PadsClose(3, v2 % 4);
    ScanStep(v0, THREE_PADS, 0, 0);
    ScanStep(v0, a1, 0, 0);
    ScanStep(v1, THREE_PADS, 1, v0);
    ScanStep(v0, a12, 0, 0);
    ScanStep(v1, a2, 1, v0);
    ScanStep(v2, THREE_PADS, 2, v1 % 16);
    assert [v0 * 4 + v1 / 16] + [] == [v0 * 4 + v1 / 16];
    assert [v1 % 16 * 16 + v2 / 4] + [] == [v1 % 16 * 16 + v2 / 4];
    assert [v0 * 4 + v1 / 16] + [v1 % 16 * 16 + v2 / 4] == [v0 * 4 + v1 / 16, v1 % 16 * 16 + v2 / 4];
    assert [AlphabetByte(v0), AlphabetByte(v1)] + THREE_PADS == [AlphabetByte(v0)] + a1;
    assert [AlphabetByte(v0), AlphabetByte(v1), AlphabetByte(v2)] + THREE_PADS == [AlphabetByte(v0)] + a12;
  }

  lemma PadsClose(quad: nat, left: nat)
    requires quad < 4 && ScanState(quad, left)
    ensures Scan(THREE_PADS, quad, left, 0) == if quad == 1 then None else Some([])
  {
    assert THREE_PADS[1..] == [PAD, PAD];
    assert THREE_PADS[1..][1..] == [PAD];
    assert THREE_PADS[1..][1..][1..] == [];
    if quad < 2 {
      assert Scan([PAD], quad, left, 0) == Scan([], quad, left, 0);
      assert Scan([PAD, PAD], quad, left, 0) == Scan([PAD], quad, left, 0);
    } else if quad == 2 {
      assert Scan([PAD, PAD], quad, left, 1) == Some([]);
    }
  }

  lemma Regroup(b0: Byte, b1: Byte, b2: Byte)
    ensures var v1, v2 := b0 % 4 * 16 + b1 / 16, b1 % 16 * 4 + b2 / 64;
            b0 / 4 * 4 + v1 / 16 == b0 && v1 % 16 * 16 + v2 / 4 == b1 && v2 % 4 * 64 + b2 % 64 == b2
  {
  }

  lemma ScanBytes(b0: Byte, b1: Byte, b2: Byte, rest: seq<Byte>)
    ensures Scan(Group(b0, b1, b2) + rest, 0, 0, 0)
         == Deliver(b0, Deliver(b1, Deliver(b2, Scan(rest, 0, 0, 0))))
  {
    Regroup(b0, b1, b2);
    ScanGroup(b0 / 4, b0 % 4 * 16 + b1 / 16, b1 % 16 * 4 + b2 / 64, b2 % 64, rest);
  }

  lemma DecodeOne(b0: Byte)
    ensures Decode(Unpadded([b0])) == Some([b0])
  {
    var v0, v1 := b0 / 4, b0 % 4 * 16;
    assert v0 * 4 + v1 / 16 == b0 by { Regroup(b0, 0, 0); }
    ScanTail(v0, v1, 0);
    assert Unpadded([b0]) == [AlphabetByte(v0), AlphabetByte(v1)];
  }

  lemma DecodeTwo(b0: Byte, b1: Byte)
    ensures Decode(Unpadded([b0, b1])) == Some([b0, b1])
  {
    var v0, v1, v2 := b0 / 4, b0 % 4 * 16 + b1 / 16, b1 % 16 * 4;
    assert v0 * 4 + v1 / 16 == b0 && v1 % 16 * 16 + v2 / 4 == b1 by { Regroup(b0, b1, 0); }
    ScanTail(v0, v1, v2);
    assert Unpadded([b0, b1]) == [AlphabetByte(v0), AlphabetByte(v1), AlphabetByte(v2)];
  }

  lemma DecodeGroup(b0: Byte, b1: Byte, b2: Byte, rest: seq<Byte>)
    ensures Decode(Group(b0, b1, b2) + rest)
         == Deliver(b0, Deliver(b1, Deliver(b2, Decode(rest))))
  {
    assert Group(b0, b1, b2) + rest + THREE_PADS == Group(b0, b1, b2) + (rest + THREE_PADS);
    ScanBytes(b0, b1, b2, rest + THREE_PADS);
  }

  /** Decoding a stripped token recovers the bytes. */
  lemma {:induction false} DecodeUnpadded(b: seq<Byte>)
    ensures Decode(Unpadded(b)) == Some(b)
  {
    if |b| == 0 {
      PadsClose(0, 0);
      assert Unpadded(b) + THREE_PADS == THREE_PADS;
    } else if |b| == 1 {
      DecodeOne(b[0]);
      assert b == [b[0]];
    } else if |b| == 2 {
      DecodeTwo(b[0], b[1]);
      assert b == [b[0], b[1]];
    } else {
      DecodeUnpadded(b[3..]);
      DecodeGroup(b[0], b[1], b[2], Unpadded(b[3..]));
      assert b == [b[0]] + ([b[1]] + ([b[2]] + b[3..]));
    }
  }

  lemma DecodeEncode(b: seq<Byte>)
    ensures Decode(Encode(b)) == Some(b)
  {
    EncodeIsUnpadded(b);
    DecodeUnpadded(b);
  }

  /** A byte outside both alphabets that is no pad makes no difference anywhere in a token. */
  lemma {:induction false} NoiseIgnored(before: seq<Byte>, noise: Byte, after: seq<Byte>)
    requires SextetOf(noise).None? && noise != PAD
    ensures Decode(before + [noise] + after) == Decode(before + after)
  {
    assert before + [noise] + after + THREE_PADS == before + ([noise] + (after + THREE_PADS));
    assert before + after + THREE_PADS == before + (after + THREE_PADS);
    ScanPastNoise(before, noise, after + THREE_PADS, 0, 0, 0);
  }

  lemma {:induction false} ScanPastNoise(before: seq<Byte>, noise: Byte, after: seq<Byte>, quad: nat, left: nat, pads: nat)
    requires SextetOf(noise).None? && noise != PAD && quad < 4 && ScanState(quad, left)
    ensures Scan(before + ([noise] + after), quad, left, pads) == Scan(before + after, quad, left, pads)
    decreases |before|
  {
    if before == [] {
      assert before + ([noise] + after) == [noise] + after && before + after == after;
      assert ([noise] + after)[1..] == after;
    } else {
      assert (before + ([noise] + after))[1..] == before[1..] + ([noise] + after);
      assert (before + after)[1..] == before[1..] + after;
      forall q: nat, l: nat, p: nat | q < 4 && ScanState(q, l)
        ensures Scan(before[1..] + ([noise] + after), q, l, p) == Scan(before[1..] + after, q, l, p)
      {
        ScanPastNoise(before[1..], noise, after, q, l, p);
      }
    }
  }

  function SextetAt(token: seq<Byte>, i: nat): Sextet
    requires i < |token|
  {
    match SextetOf(token[i])
    case None => 0
    case Some(v) => v
  }

  lemma SextetAtOf(token: seq<Byte>, i: nat)
    requires i < |token| && IsTokenByte(token[i])
    ensures AlphabetByte(SextetAt(token, i)) == token[i]
  {
  }

  lemma DecodableShort(token: seq<Byte>)
    requires |token| < 4 && forall i :: 0 <= i < |token| ==> IsTokenByte(token[i])
    ensures Decode(token).Some? <==> |token| != 1
  {
    forall i | 0 <= i < |token|
      ensures AlphabetByte(SextetAt(token, i)) == token[i]
    {
      SextetAtOf(token, i);
    }
    if |token| == 0 {
      ScanTail(0, 0, 0);
      assert token + THREE_PADS == THREE_PADS;
    } else if |token| == 1 {
      ScanTail(SextetAt(token, 0), 0, 0);
      assert token == [token[0]];
    } else if |token| == 2 {
      ScanTail(SextetAt(token, 0), SextetAt(token, 1), 0);
      assert token == [token[0], token[1]];
    } else {
      ScanTail(SextetAt(token, 0), SextetAt(token, 1), SextetAt(token, 2));
      assert token == [token[0], token[1], token[2]];
    }
  }

  lemma DecodeFour(token: seq<Byte>)
    requires |token| >= 4 && forall i :: 0 <= i < |token| ==> IsTokenByte(token[i])
    ensures Decode(token).Some? <==> Decode(token[4..]).Some?
  {
    SextetAtOf(token, 0);
    SextetAtOf(token, 1);
    SextetAtOf(token, 2);
    SextetAtOf(token, 3);
    assert token + THREE_PADS == [token[0], token[1], token[2], token[3]] + (token[4..] + THREE_PADS);
    ScanGroup(SextetAt(token, 0), SextetAt(token, 1), SextetAt(token, 2), SextetAt(token, 3), token[4..] + THREE_PADS);
  }

  /** Which strings over the token alphabet the decoder takes: all but those whose length
      is one more than a multiple of four. */
  lemma {:induction false} DecodableLengths(token: seq<Byte>)
    requires forall i :: 0 <= i < |token| ==> IsTokenByte(token[i])
    ensures Decode(token).Some? <==> |token| % 4 != 1
  {
    if |token| < 4 {
      DecodableShort(token);
    } else {
      DecodeFour(token);
      DecodableLengths(token[4..]);
    }
  }
}
