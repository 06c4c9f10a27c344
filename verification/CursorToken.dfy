/** Opaque page cursors, as `encode_cursor` and `decode_token` of the three list routers. */
module CursorToken {
  import opened Prelude
  import opened Base64Url
  import opened JsonText

  /** `NoCursor` is `payload.get` finding no such member: Python's `None`. */
  datatype Decoded = Cursor(text: Text) | NoCursor | Rejected

  /** The member name of the artists and labels routers. */
  const SORT_NAME: Text := Ascii("sort_name")

  /** The member name of the records router. */
  const SORT_KEY: Text := Ascii("sort_key")

  function EncodeCursor(field: Text, text: Text): seq<Byte> {
    Encode(DumpObject(field, text))
  }

  function DecodeToken(field: Text, token: seq<Byte>): Decoded {
    match Decode(token)
    case None => Rejected
    case Some(bytes) =>
      match LoadObject(bytes)
      case Unread => Rejected
      case Member(name, value) => if name == field then Cursor(value) else NoCursor
  }

  lemma FieldsArePlain()
    ensures Joined(SORT_NAME) == SORT_NAME
    ensures Joined(SORT_KEY) == SORT_KEY
    ensures SORT_NAME != SORT_KEY
  {
    JoinedShrinks(SORT_NAME);
    JoinedShrinks(SORT_KEY);
    assert |SORT_NAME| == 9 && |SORT_KEY| == 8;
  }

  const NAME_BEFORE: seq<Byte> := Ascii("{\"sort_name\": \"")
  const KEY_BEFORE: seq<Byte> := Ascii("{\"sort_key\": \"")
  const AFTER: seq<Byte> := Ascii("\"}")

  /** The token of a plain key, as the three routers send it. */
  lemma TokenLiteral(v: seq<Byte>)
    requires IsPlain(v)
    ensures EncodeCursor(SORT_NAME, v) == Encode(NAME_BEFORE + v + AFTER)
    ensures EncodeCursor(SORT_KEY, v) == Encode(KEY_BEFORE + v + AFTER)
  {
    PlainFields();
    DumpPlain(Ascii("sort_name"), v);
    DumpPlain(Ascii("sort_key"), v);
  }

  lemma PlainFields()
    ensures IsPlain(Ascii("sort_name")) && IsPlain(Ascii("sort_key"))
    ensures Ascii("{\"") + Ascii("sort_name") + Ascii("\": \"") == NAME_BEFORE
    ensures Ascii("{\"") + Ascii("sort_key") + Ascii("\": \"") == KEY_BEFORE
  {
    assert "{\"" + "sort_name" + "\": \"" == "{\"sort_name\": \"";
    assert "{\"" + "sort_key" + "\": \"" == "{\"sort_key\": \"";
  }

  /** Tokens that no router can read: those of a length no encoding has, and the empty one. */
  lemma UnreadableToken(field: Text, token: seq<Byte>)
    requires token == [] || ((forall i :: 0 <= i < |token| ==> IsTokenByte(token[i])) && |token| % 4 == 1)
    ensures DecodeToken(field, token) == Rejected
  {
    if token == [] {
      ScanTail(0, 0, 0);
      assert token + THREE_PADS == THREE_PADS;
    } else {
      DecodableLengths(token);
    }
  }

  /** What a router reads back from a token of its own or of another router. */
  lemma DecodeEncoded(writer: Text, reader: Text, s: Text)
    ensures DecodeToken(reader, EncodeCursor(writer, s))
         == if Joined(writer) == reader then Cursor(Joined(s)) else NoCursor
  {
    DecodeEncode(DumpObject(writer, s));
    LoadDumped(writer, s);
  }

  /** The round trip holds for a Python string exactly when it has no high surrogate
      followed by a low one. */
  lemma RoundTripIff(field: Text, s: Text)
    requires field in {SORT_NAME, SORT_KEY}
    ensures DecodeToken(field, EncodeCursor(field, s)) == Cursor(s) <==> !HasSplitPair(s)
  {
    FieldsArePlain();
    DecodeEncoded(field, field, s);
    JoinedShrinks(s);
  }

  /** Two surrogate code points that come back as one character. */
  lemma RoundTripFails()
    ensures DecodeToken(SORT_NAME, EncodeCursor(SORT_NAME, [0xD83D, 0xDE00])) == Cursor([0x1_F600])
  {
    var s: Text := [0xD83D, 0xDE00];
    JoinedPair(s);
    FieldsArePlain();
    DecodeEncoded(SORT_NAME, SORT_NAME, s);
  }

  lemma JoinedPair(s: Text)
    requires |s| == 2 && IsHigh(s[0]) && IsLow(s[1])
    ensures Joined(s) == [JoinSurrogates(s[0], s[1])]
  {
  }

  /** Every string of Unicode scalar values survives the round trip. */
  lemma RoundTrip(field: Text, s: Text)
    requires field in {SORT_NAME, SORT_KEY} && IsScalarText(s)
    ensures DecodeToken(field, EncodeCursor(field, s)) == Cursor(s)
  {
    RoundTripIff(field, s);
  }

  /** Texts share their token exactly when joining surrogates makes them the same. */
  lemma SameTokenIff(field: Text, s: Text, t: Text)
    requires field in {SORT_NAME, SORT_KEY}
    ensures EncodeCursor(field, s) == EncodeCursor(field, t) <==> Joined(s) == Joined(t)
  {
    FieldsArePlain();
    DecodeEncoded(field, field, s);
    DecodeEncoded(field, field, t);
    EscapeJoined(s);
    EscapeJoined(t);
  }

  /** Different texts without split pairs have different tokens. */
  lemma EncodeInjective(field: Text, s: Text, t: Text)
    requires field in {SORT_NAME, SORT_KEY} && !HasSplitPair(s) && !HasSplitPair(t)
    requires EncodeCursor(field, s) == EncodeCursor(field, t)
    ensures s == t
  {
    SameTokenIff(field, s, t);
    JoinedShrinks(s);
    JoinedShrinks(t);
  }

  /** A records token shown to the artists or labels router, or the other way round, is
      read as no cursor at all: the listing starts again at its first page. */
  lemma ForeignTokenRestarts(s: Text)
    ensures DecodeToken(SORT_KEY, EncodeCursor(SORT_NAME, s)) == NoCursor
    ensures DecodeToken(SORT_NAME, EncodeCursor(SORT_KEY, s)) == NoCursor
  {
    FieldsArePlain();
    DecodeEncoded(SORT_NAME, SORT_KEY, s);
    DecodeEncoded(SORT_KEY, SORT_NAME, s);
  }
}
