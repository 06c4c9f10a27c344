/** `request_validation_error_handler`: the body of a 400 response. */
module ErrorBody {
  import opened Prelude
  import opened Joining

  /** The error types of the validation library that the handler knows, and all others. */
  datatype Kind =
    | StringType | StringTooShort | MissingField | UuidParsing | UuidType | GreaterThan | IntParsing
    | EmptyList | TooShort | ListType | InvalidReference
    | Other(name: string)

  datatype Code =
    | NonString | NonEmptyString | Missing | NonUuid | NegativeNumber | NonInteger | EmptyListCode | NonList
    | InvalidReferenceCode

  /** One entry of `RequestValidationError.errors()`. */
  datatype RawError = RawError(loc: seq<string>, kind: Kind, msg: string)

  datatype Detail = Detail(field: string, code: Code, message: string)

  datatype Body = Body(code: string, message: string, details: seq<Detail>)

  /** `VALIDATION_ERROR_CODE_MAP`. */
  function CodeOf(kind: Kind): Option<Code> {
    match kind
    case StringType => Some(NonString)
    case StringTooShort => Some(NonEmptyString)
    case MissingField => Some(Missing)
    case UuidParsing => Some(NonUuid)
    case UuidType => Some(NonUuid)
    case GreaterThan => Some(NegativeNumber)
    case IntParsing => Some(NonInteger)
    case EmptyList => Some(EmptyListCode)
    case TooShort => Some(EmptyListCode)
    case ListType => Some(NonList)
    case InvalidReference => Some(InvalidReferenceCode)
    case Other(_) => None
  }

  /** `VALIDATION_ERROR_MSG_MAP`. */
  function MessageOf(code: Code): Option<string> {
    match code
    case NonString => Some("Must be a string value.")
    case NonEmptyString => Some("Must be a non-empty string value.")
    case Missing => Some("Field is required.")
    case NonUuid => Some("Must be a valid UUID.")
    case NegativeNumber => Some("Must be a positive value.")
    case NonInteger => Some("Must be an integer value.")
    case EmptyListCode => Some("Must be a non-empty list.")
    case NonList => Some("Must be a list value.")
    case InvalidReferenceCode => None
  }

  /** `VALIDATION_ERROR_DETAIL_MAP`, with its default. */
  function HeadingOf(key: string): (string, string) {
    if key == "postartists" then ("Artist data", "ARTIST_VALIDATION_ERROR")
    else if key == "postartists_v2" then ("Artist data", "ARTIST_VALIDATION_ERROR")
    else if key == "postlabels" then ("Label data", "LABEL_VALIDATION_ERROR")
    else if key == "getrecords" then ("Record identifier", "RECORD_IDENTIFIER_ERROR")
    else if key == "postrecords" then ("Record data", "RECORD_VALIDATION_ERROR")
    else ("Data", "VALIDATION_ERROR")
  }

  function Heading(verb: string, path: string): (string, string) {
    var parts := Split(path, '/');
    HeadingOf(verb + if |parts| > 1 then parts[1] else "")
  }

  /** What clients are told about an error of this kind; a missing reference speaks for
      itself. */
  predicate Tells(error: RawError, code: Code, message: string) {
    match error.kind
    case StringType => code == NonString && message == "Must be a string value."
    case StringTooShort => code == NonEmptyString && message == "Must be a non-empty string value."
    case MissingField => code == Missing && message == "Field is required."
    case UuidParsing => code == NonUuid && message == "Must be a valid UUID."
    case UuidType => code == NonUuid && message == "Must be a valid UUID."
    case GreaterThan => code == NegativeNumber && message == "Must be a positive value."
    case IntParsing => code == NonInteger && message == "Must be an integer value."
    case EmptyList => code == EmptyListCode && message == "Must be a non-empty list."
    case TooShort => code == EmptyListCode && message == "Must be a non-empty list."
    case ListType => code == NonList && message == "Must be a list value."
    case InvalidReference => code == InvalidReferenceCode && message == error.msg
    case Other(_) => false
  }

  /** A rendered entry says what went wrong where. */
  ghost predicate Renders(error: RawError, d: Detail) {
    error.loc != [] && d.field == Join(error.loc[1..], '.') && Tells(error, d.code, d.message)
  }

  lemma SplitPath(part: string, rest: string)
    requires '/' !in part
    ensures Split("/" + part + "/" + rest, '/') == ["", part] + Split(rest, '/')
  {
    LeadingSeparator(part, '/', rest);
    SplitHead([], '/', part + ['/'] + rest);
    SplitHead(part, '/', rest);
    assert [""] + ([part] + Split(rest, '/')) == ["", part] + Split(rest, '/');
  }

  lemma LeadingSeparator<T>(part: seq<T>, sep: T, rest: seq<T>)
    ensures [sep] + part + [sep] + rest == [] + [sep] + (part + [sep] + rest)
  {
    assert [sep] + part + [sep] == [sep] + (part + [sep]);
    assert [sep] + (part + [sep]) + rest == [sep] + (part + [sep] + rest);
    assert [] + [sep] == [sep];
  }

  /** The heading is chosen by method and first part of the path: creations of the three kinds,
      a record asked for by identifier, and all the rest. */
  lemma HeadingMeaning(verb: string, part: string, rest: string)
    requires '/' !in part
    ensures Heading(verb, "/" + part + "/" + rest)
         == if verb + part in {"postartists", "postartists_v2"} then ("Artist data", "ARTIST_VALIDATION_ERROR")
            else if verb + part == "postlabels" then ("Label data", "LABEL_VALIDATION_ERROR")
            else if verb + part == "getrecords" then ("Record identifier", "RECORD_IDENTIFIER_ERROR")
            else if verb + part == "postrecords" then ("Record data", "RECORD_VALIDATION_ERROR")
            else ("Data", "VALIDATION_ERROR")
  {
    SplitPath(part, rest);
  }

  /** A body is made exactly when every kind of error is a known one; an unknown kind is a
      `KeyError`, here `None`. The body has one detail an error, in order. `verb` is the
      request method in lower case. */
  method Render(verb: string, path: string, errors: seq<RawError>) returns (r: Option<Body>)
    requires forall i :: 0 <= i < |errors| ==> errors[i].loc != []
    ensures r.Some? <==> forall i :: 0 <= i < |errors| ==> !errors[i].kind.Other?
    ensures r.Some? ==>
              && r.value.code == Heading(verb, path).1
              && r.value.message == Heading(verb, path).0 + " validation failed."
              && |r.value.details| == |errors|
              && forall i :: 0 <= i < |errors| ==> Renders(errors[i], r.value.details[i])
  {
    var details: seq<Detail> := [];
    var (what, code) := Heading(verb, path);
    for i := 0 to |errors|
      invariant forall k :: 0 <= k < i ==> !errors[k].kind.Other?
      invariant |details| == i
      invariant forall k :: 0 <= k < i ==> Renders(errors[k], details[k])
    {
      var error := errors[i];
      var errorCode := CodeOf(error.kind);
      if errorCode.None? {
        return None;
      }
      var message := if errorCode.value == InvalidReferenceCode then error.msg else MessageOf(errorCode.value).value;
      details := details + [Detail(Join(error.loc[1..], '.'), errorCode.value, message)];
    }
    return Some(Body(code, what + " validation failed.", details));
  }
}
