/** Records: reference validation, all-or-nothing creation, and four sort orders. */
module Records {
  import opened Prelude
  import opened Base64Url
  import opened Catalog
  import opened CursorToken
  import opened ErrorBody
  import opened Joining
  import opened JsonText
  import opened Keyset
  import opened QueryLink
  import opened Routes

  datatype SortKeys = SortKeys(artistYear: Text, artistTitle: Text, labelArtistYear: Text, labelYearArtist: Text)

  datatype RecordFields = RecordFields(title: Text, format: Text, yearRelease: int, yearPressing: int,
                                       color: Text, notes: Option<Text>, keys: SortKeys)

  datatype Record = Record(id: Id, fields: RecordFields, artists: seq<Named>, labels: seq<Named>)

  // ---- Resolving references ----

  function MissingIds(t: Table, ids: seq<Id>): seq<Id> {
    if ids == [] then []
    else
      var last := ids[|ids| - 1];
      MissingIds(t, ids[..|ids| - 1]) + if last in t then [] else [last]
  }

  function Resolved(t: Table, ids: seq<Id>): seq<Named> {
    if ids == [] then []
    else
      var last := ids[|ids| - 1];
      Resolved(t, ids[..|ids| - 1]) + if last in t then [t[last]] else []
  }

  ghost predicate AllKnown(t: Table, ids: seq<Id>) {
    forall i :: 0 <= i < |ids| ==> ids[i] in t
  }

  /** The missing ids are those of the request that are unknown, at rising positions and
      with their repeats. */
  lemma {:induction false} MissingPositions(t: Table, ids: seq<Id>) returns (at: seq<nat>)
    ensures |at| == |MissingIds(t, ids)|
    ensures forall k :: 0 <= k < |at| ==> at[k] < |ids| && ids[at[k]] == MissingIds(t, ids)[k]
    ensures forall j, k :: 0 <= j < k < |at| ==> at[j] < at[k]
    ensures forall i :: 0 <= i < |ids| ==> (ids[i] !in t <==> i in at)
  {
    if ids == [] {
      at := [];
    } else {
      var last := |ids| - 1;
      var before := MissingPositions(t, ids[..last]);
      at := before + if ids[last] in t then [] else [last];
      forall i | 0 <= i < |ids|
        ensures ids[i] !in t <==> i in at
      {
        InAppended(before, ids[last] !in t, last, i);
        assert i < last ==> ids[..last][i] == ids[i];
      }
    }
  }

  lemma InAppended(before: seq<nat>, more: bool, last: nat, i: nat)
    requires forall k :: 0 <= k < |before| ==> before[k] < last
    ensures i in before + (if more then [last] else []) <==> i in before || (more && i == last)
    ensures last !in before
  {
  }

  /** Nothing is missing exactly when every id resolves, and then to its row, in order. */
  lemma {:induction false} ResolvedInOrder(t: Table, ids: seq<Id>)
    ensures MissingIds(t, ids) == [] <==> AllKnown(t, ids)
    ensures |MissingIds(t, ids)| + |Resolved(t, ids)| == |ids|
    ensures AllKnown(t, ids) ==>
              |Resolved(t, ids)| == |ids| && forall i :: 0 <= i < |ids| ==> Resolved(t, ids)[i] == t[ids[i]]
  {
    if ids != [] {
      var last := |ids| - 1;
      ResolvedInOrder(t, ids[..last]);
      if AllKnown(t, ids[..last]) && ids[last] in t {
        forall i | 0 <= i < |ids|
          ensures ids[i] in t
        {
          if i < last {
            assert ids[..last][i] in t;
          }
        }
      }
    }
  }

  // ---- The message about missing references ----

  type IdPrinter = Id -> string

  function Printed(print_: IdPrinter, ids: seq<Id>): (refs: seq<string>)
    ensures |refs| == |ids| && forall i :: 0 <= i < |ids| ==> refs[i] == print_(ids[i])
  {
    seq(|ids|, i requires 0 <= i < |ids| => print_(ids[i]))
  }

  function InvalidReferenceError(loc: string, what: string, refs: seq<string>): RawError {
    RawError(["body", loc], InvalidReference, what + " not found [" + Join(refs, ',') + "]")
  }

  /** The references a client can read back out of the message. */
  function ReferencesIn(message: string, what: string): seq<string>
    requires |message| >= |what| + 13
  {
    Split(message[|what| + 12..|message| - 1], ',')
  }

  lemma ReferencesReadBack(loc: string, what: string, refs: seq<string>)
    requires refs != [] && forall s :: s in refs ==> ',' !in s
    ensures var msg := InvalidReferenceError(loc, what, refs).msg;
            && msg == what + " not found [" + Join(refs, ',') + "]"
            && |msg| >= |what| + 13 && ReferencesIn(msg, what) == refs
  {
    var msg := InvalidReferenceError(loc, what, refs).msg;
    assert |" not found ["| == 12;
    assert msg == (what + " not found [") + (Join(refs, ',') + "]");
    assert msg[|what| + 12..|msg| - 1] == Join(refs, ',');
    SplitJoined(refs, ',');
  }

  /** The errors for these missing references: at most one a kind, artists first. */
  function MissingErrors(artists: seq<string>, labels: seq<string>): seq<RawError> {
    (if artists == [] then [] else [InvalidReferenceError("artists", "Artists", artists)])
    + (if labels == [] then [] else [InvalidReferenceError("labels", "Labels", labels)])
  }

  function ReferenceErrors(artists: Table, labels: Table, artistIds: seq<Id>, labelIds: seq<Id>,
                           print_: IdPrinter): seq<RawError> {
    MissingErrors(Printed(print_, MissingIds(artists, artistIds)), Printed(print_, MissingIds(labels, labelIds)))
  }

  ghost predicate Reports(d: Detail, field: string, what: string, refs: seq<string>) {
    && d.field == field && d.code == InvalidReferenceCode
    && d.message == what + " not found [" + Join(refs, ',') + "]"
    && |d.message| >= |what| + 13 && ReferencesIn(d.message, what) == refs
  }

  /** One detail for each failing kind, artists before labels, and in each the missing
      references in order. */
  ghost predicate Explains(details: seq<Detail>, artists: seq<string>, labels: seq<string>) {
    && |details| == (if artists == [] then 0 else 1) + (if labels == [] then 0 else 1)
    && (artists != [] ==> Reports(details[0], "artists", "Artists", artists))
    && (labels != [] ==> Reports(details[|details| - 1], "labels", "Labels", labels))
  }

  /** The 400 body for the errors that a failed creation raised. */
  method RenderInvalid(errors: seq<RawError>, ghost artists: seq<string>, ghost labels: seq<string>) returns (body: Body)
    requires errors == MissingErrors(artists, labels)
    requires forall s :: s in artists || s in labels ==> ',' !in s
    ensures body.code == "RECORD_VALIDATION_ERROR" && body.message == "Record data" + " validation failed."
    ensures Explains(body.details, artists, labels)
  {
    var r := Render("post", "/records/", errors);
    body := r.value;
    RecordsHeading();
    RenderedErrors(artists, labels, errors, body.details);
  }

  lemma RenderedErrors(artists: seq<string>, labels: seq<string>, errors: seq<RawError>, details: seq<Detail>)
    requires forall s :: s in artists || s in labels ==> ',' !in s
    requires errors == MissingErrors(artists, labels) && |details| == |errors|
    requires forall i :: 0 <= i < |errors| ==> Renders(errors[i], details[i])
    ensures Explains(details, artists, labels)
  {
    if artists != [] {
      assert errors[0] == InvalidReferenceError("artists", "Artists", artists);
      RenderedReference("artists", "Artists", artists, details[0]);
    }
    if labels != [] {
      assert errors[|errors| - 1] == InvalidReferenceError("labels", "Labels", labels);
      RenderedReference("labels", "Labels", labels, details[|details| - 1]);
    }
  }

  lemma RecordsHeadingText()
    ensures HeadingOf("postrecords") == ("Record data", "RECORD_VALIDATION_ERROR")
  {
    assert "postrecords"[4] == 'r' && "postartists"[4] == 'a' && "postlabels"[4] == 'l' && "getrecords"[0] == 'g';
    assert |"postartists_v2"| == 14 && |"postrecords"| == 11;
  }

  lemma RecordsPath()
    ensures "/records/" == "/" + "records" + "/" + "" && '/' !in "records" && "post" + "records" == "postrecords"
  {
  }

  lemma RecordsHeading()
    ensures Heading("post", "/records/") == ("Record data", "RECORD_VALIDATION_ERROR")
  {
    RecordsPath();
    SplitPath("records", "");
    RecordsHeadingText();
  }

  lemma RenderedReference(loc: string, what: string, refs: seq<string>, d: Detail)
    requires refs != [] && forall s :: s in refs ==> ',' !in s
    requires Renders(InvalidReferenceError(loc, what, refs), d)
    ensures Reports(d, loc, what, refs)
  {
    ReferencesReadBack(loc, what, refs);
    assert ["body", loc][1..] == [loc];
  }

  // ---- Sort orders ----

  datatype SortOption = ArtistYear | ArtistTitle | LabelArtist | LabelYear

  function ValueOf(option: SortOption): string {
    match option
    case ArtistYear => "artist_year"
    case ArtistTitle => "artist_title"
    case LabelArtist => "label_artist_year"
    case LabelYear => "label_year_artist"
  }

  /** Any other value falls back to the first option. */
  function ParseSort(value: string): SortOption {
    if value == ValueOf(ArtistTitle) then ArtistTitle
    else if value == ValueOf(LabelArtist) then LabelArtist
    else if value == ValueOf(LabelYear) then LabelYear
    else ArtistYear
  }

  /** The column a query is ordered and filtered by. */
  function SortColumn(option: SortOption, r: Record): Text {
    match option
    case ArtistYear => r.fields.keys.artistYear
    case ArtistTitle => r.fields.keys.artistTitle
    case LabelArtist => r.fields.keys.labelArtistYear
    case LabelYear => r.fields.keys.labelYearArtist
  }

  /** `getattr` on a record, for the sort key attributes. */
  function Attribute(r: Record, name: string): Option<Text> {
    if name == "sk_artist_year" then Some(r.fields.keys.artistYear)
    else if name == "sk_artist_title" then Some(r.fields.keys.artistTitle)
    else if name == "sk_label_artist_year" then Some(r.fields.keys.labelArtistYear)
    else if name == "sk_label_year_artist" then Some(r.fields.keys.labelYearArtist)
    else None
  }

  function ByColumn(lt: (Text, Text) -> bool, option: SortOption): Index<Record> {
    Index((r: Record) => SortColumn(option, r), lt)
  }

  /** The attribute read back as the cursor is the column the query was ordered by. */
  lemma CursorIsSortColumn(option: SortOption, r: Record)
    ensures Attribute(r, "sk_" + ValueOf(option)) == Some(SortColumn(option, r))
  {
    match option
    case ArtistYear => assert "sk_" + "artist_year" == "sk_artist_year";
    case ArtistTitle => assert ("sk_" + "artist_title")[10] == 't';
      assert "sk_" + "artist_title" == "sk_artist_title";
    case LabelArtist => assert "sk_" + "label_artist_year" == "sk_label_artist_year";
    case LabelYear =>
      assert "sk_label_artist_year"[9] == 'a' && "sk_label_year_artist"[9] == 'y';
      assert "sk_" + "label_year_artist" == "sk_label_year_artist";
  }

  lemma ValuesDiffer(a: SortOption, b: SortOption)
    requires ValueOf(a) == ValueOf(b)
    ensures a == b
  {
    assert |ValueOf(ArtistYear)| == 11 && |ValueOf(ArtistTitle)| == 12;
    assert ValueOf(LabelArtist)[6] == 'a' && ValueOf(LabelYear)[6] == 'y';
    assert |ValueOf(LabelArtist)| == |ValueOf(LabelYear)| == 17;
  }

  /** Every option is read from its own value; all other values mean the first option. */
  lemma ParseSortMeaning(value: string, option: SortOption)
    ensures ParseSort(value) == option
       <==> value == ValueOf(option) || (option == ArtistYear && forall other :: value != ValueOf(other))
  {
    if value == ValueOf(option) && ParseSort(value) != option {
      ValuesDiffer(ParseSort(value), option);
    }
  }

  lemma ValuesAreAscii(option: SortOption)
    ensures forall i :: 0 <= i < |ValueOf(option)| ==> ValueOf(option)[i] < 128 as char
  {
  }

  function SortBytes(option: SortOption): Bytes {
    ValuesAreAscii(option);
    Ascii(ValueOf(option))
  }

  function RecordsRoute(lt: (Text, Text) -> bool, url: Bytes, option: SortOption): Route<Record> {
    Route(ByColumn(lt, option), SORT_KEY, url, [Param(SORT, SortBytes(option))])
  }

  /** The text of a query parameter; bytes beyond ASCII are in no option's value. */
  function ToChars(b: Bytes): string {
    seq(|b|, i requires 0 <= i < |b| => b[i] as char)
  }

  /** The option a request asks for: the first one when it names none. */
  function OptionOf(sort: Option<Bytes>): SortOption {
    match sort
    case None => ArtistYear
    case Some(bytes) => ParseSort(ToChars(bytes))
  }

  lemma OptionReadBack(option: SortOption)
    ensures OptionOf(Some(SortBytes(option))) == option
  {
    assert ToChars(SortBytes(option)) == ValueOf(option);
    ParseSortMeaning(ValueOf(option), option);
  }

  /** The records route may be crawled like the others: its extra parameter hides none of the
      paging parameters. */
  lemma RecordsRouteGood(lt: (Text, Text) -> bool, url: Bytes, option: SortOption)
    requires ByColumn(lt, option).Valid() && QUESTION !in url
    ensures GoodRoute(RecordsRoute(lt, url, option))
  {
    assert |LIMIT| == 5 && |CURSOR| == 6 && |SORT| == 4;
  }

  lemma RecordsSortParam(lt: (Text, Text) -> bool, url: Bytes, option: SortOption)
    ensures ParamValue(RecordsRoute(lt, url, option).extra, SORT) == Some(SortBytes(option))
  {
  }

  /** A link repeats the sort option: a request that follows it asks for the same one. */
  lemma LinkKeepsSort(lt: (Text, Text) -> bool, url: Bytes, option: SortOption, limit: int, token: Bytes)
    requires ByColumn(lt, option).Valid() && QUESTION !in url
    ensures var route := RecordsRoute(lt, url, option);
            OptionOf(QueryFrom(LinkOf(url, NextParams(route, limit, token))).sort) == option
  {
    RecordsRouteGood(lt, url, option);
    LinkIsQuery(RecordsRoute(lt, url, option), limit, token);
    RecordsSortParam(lt, url, option);
    OptionReadBack(option);
  }

  // ---- The service ----

  datatype CreateOutcome = Created(record: Record) | Invalid(errors: seq<RawError>) | CommitFailed

  /** What is stored of a request: its fields, and the rows of its references in order. */
  ghost predicate Holds(r: Record, id: Id, fields: RecordFields, artistIds: seq<Id>, labelIds: seq<Id>,
                        artistRows: Table, labelRows: Table)
    requires AllKnown(artistRows, artistIds) && AllKnown(labelRows, labelIds)
  {
    && r.id == id && r.fields == fields
    && |r.artists| == |artistIds| && |r.labels| == |labelIds|
    && (forall i :: 0 <= i < |artistIds| ==> r.artists[i] == artistRows[artistIds[i]])
    && (forall i :: 0 <= i < |labelIds| ==> r.labels[i] == labelRows[labelIds[i]])
  }

  class RecordService {
    var records: map<Id, Record>
    const lt: (Text, Text) -> bool
    const print_: IdPrinter

    constructor (lt: (Text, Text) -> bool, print_: IdPrinter)
      ensures records == map[] && this.lt == lt && this.print_ == print_
    {
      this.records, this.lt, this.print_ := map[], lt, print_;
    }

    /** `id` is what the database generates; `commits` says whether it accepts the commit. */
    method Create(fields: RecordFields, artistIds: seq<Id>, labelIds: seq<Id>,
                  artistRows: Table, labelRows: Table, id: Id, commits: bool) returns (r: CreateOutcome)
      requires id !in records
      modifies this
      ensures r.Created? <==> AllKnown(artistRows, artistIds) && AllKnown(labelRows, labelIds) && commits
      ensures r.Created? ==>
                && records == old(records)[id := r.record]
                && Holds(r.record, id, fields, artistIds, labelIds, artistRows, labelRows)
      ensures !r.Created? ==> records == old(records)
      ensures r.Invalid? <==> !AllKnown(artistRows, artistIds) || !AllKnown(labelRows, labelIds)
      ensures r.Invalid? ==> r.errors == ReferenceErrors(artistRows, labelRows, artistIds, labelIds, print_)
    {
      var errors: seq<RawError> := [];

      var artists, missingArtists := Collect(artistRows, artistIds);
      if |missingArtists| > 0 {
        errors := errors + [InvalidReferenceError("artists", "Artists", missingArtists)];
      }
      var labels, missingLabels := Collect(labelRows, labelIds);
      if |missingLabels| > 0 {
        errors := errors + [InvalidReferenceError("labels", "Labels", missingLabels)];
      }

      ResolvedInOrder(artistRows, artistIds);
      ResolvedInOrder(labelRows, labelIds);
      if |errors| > 0 {
        return Invalid(errors);
      }
      if !commits {
        return CommitFailed;
      }
      var record := Record(id, fields, artists, labels);
      records := records[id := record];
      return Created(record);
    }

    /** The loop over the ids of one kind. */
    method Collect(t: Table, ids: seq<Id>) returns (found: seq<Named>, missing: seq<string>)
      ensures found == Resolved(t, ids) && missing == Printed(print_, MissingIds(t, ids))
    {
      found, missing := [], [];
      for i := 0 to |ids|
        invariant found == Resolved(t, ids[..i])
        invariant missing == Printed(print_, MissingIds(t, ids[..i]))
      {
        assert ids[..i + 1][..i] == ids[..i];
        var row := FindById(t, ids[i]);
        match row {
          case None => missing := missing + [print_(ids[i])];
          case Some(named) => found := found + [named];
        }
      }
      assert ids[..|ids|] == ids;
    }

    method FindById(t: Table, id: Id) returns (row: Option<Named>)
      ensures row == if id in t then Some(t[id]) else None
    {
      row := if id in t then Some(t[id]) else None;
    }

    /** `ans` is the database's answer to the query. */
    method List(limit: int, option: SortOption, lastCursor: Option<Text>, ans: seq<Record>)
      returns (r: Outcome<Record>)
      requires limit >= -1 ==> Answers(ByColumn(lt, option), records.Values, lastCursor, limit + 1, ans)
      ensures r == Cut(ByColumn(lt, option), limit, ans)
      ensures limit >= 1 ==> r.Listed? && IsPage(ByColumn(lt, option), records.Values, lastCursor, limit, r.page)
    {
      if limit + 1 < 0 {
        return QueryError;
      }
      var items := ans;
      if |items| == limit + 1 {
        items := if limit < 0 then [] else items[..limit];
        if items == [] {
          return IndexError;
        }
        CursorIsSortColumn(option, items[|items| - 1]);
        return Listed(Page(items, Attribute(items[|items| - 1], "sk_" + ValueOf(option))));
      }
      return Listed(Page(items, None));
    }
  }
  // ---- The route ----

  datatype Response = Created201(record: Record) | BadRequest(body: Body) | ServerError

  /** Creating a record by request: all the references resolve, or nothing is stored and the
      400 body names exactly the ones that do not. */
  method PostRecord(service: RecordService, fields: RecordFields, artistIds: seq<Id>, labelIds: seq<Id>,
                    artistRows: Table, labelRows: Table, id: Id, commits: bool) returns (r: Response)
    requires id !in service.records
    requires forall i: Id :: ',' !in service.print_(i)
    modifies service
    ensures r.BadRequest? <==> !AllKnown(artistRows, artistIds) || !AllKnown(labelRows, labelIds)
    ensures r.BadRequest? ==>
              && service.records == old(service.records)
              && r.body.code == "RECORD_VALIDATION_ERROR" && r.body.message == "Record data" + " validation failed."
              && Explains(r.body.details, Printed(service.print_, MissingIds(artistRows, artistIds)),
                          Printed(service.print_, MissingIds(labelRows, labelIds)))
    ensures r.Created201? <==> AllKnown(artistRows, artistIds) && AllKnown(labelRows, labelIds) && commits
    ensures r.Created201? ==>
              && service.records == old(service.records)[id := r.record]
              && Holds(r.record, id, fields, artistIds, labelIds, artistRows, labelRows)
    ensures r.ServerError? ==> service.records == old(service.records)
  {
    var created := service.Create(fields, artistIds, labelIds, artistRows, labelRows, id, commits);
    match created
    case Created(record) => return Created201(record);
    case CommitFailed => return ServerError;
    case Invalid(errors) =>
      var body := RenderInvalid(errors, Printed(service.print_, MissingIds(artistRows, artistIds)),
                                Printed(service.print_, MissingIds(labelRows, labelIds)));
      return BadRequest(body);
  }
}
