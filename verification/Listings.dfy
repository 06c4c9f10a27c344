/** What a client that follows links gets out of the three list routes. */
module Listings {
  import opened Prelude
  import opened Base64Url
  import opened Catalog
  import opened CursorToken
  import opened JsonText
  import opened Keyset
  import opened QueryLink
  import opened Records
  import opened Routes

  function NamedRoute(lt: (Text, Text) -> bool, url: Bytes): Route<Named> {
    Route(BySortName(lt), SORT_NAME, url, [])
  }

  /** All the data a client collected, in order. */
  function Collected<R(!new)>(visits: seq<Visit<R>>): seq<R> {
    if visits == [] then []
    else (if visits[0].reply.Page200? then visits[0].reply.data else []) + Collected(visits[1..])
  }

  lemma {:induction false} CollectedIsShown<R(!new)>(visits: seq<Visit<R>>, rounds: seq<Round<R>>)
    requires |visits| == |rounds|
    requires forall i :: 0 <= i < |visits| ==> visits[i].reply.Page200? && rounds[i].page.items == visits[i].reply.data
    ensures Collected(visits) == Shown(rounds)
  {
    if visits != [] {
      CollectedIsShown(visits[1..], rounds[1..]);
    }
  }

  // ---- What the routes answer, told without the service ----

  /** A token that no router can read. */
  ghost predicate Unreadable(token: Option<Bytes>) {
    token.Some? && (token.value == [] || (AllToken(token.value) && |token.value| % 4 == 1))
  }

  lemma UnreadableFails<R(!new)>(route: Route<R>, limit: int, token: Option<Bytes>, ans: seq<R>)
    requires Unreadable(token)
    ensures Serve(route, limit, token, ans).Error500?
  {
    UnreadableToken(route.field, token.value);
  }

  /** A link, if there is one, is the URL with the limit, the token of the answer, and `more`. */
  ghost predicate Links<R(!new)>(url: Bytes, limit: int, more: Bytes, r: Reply<R>) {
    r.Page200? && r.nextLink.Some? ==>
      r.nextCursor.Some? && r.nextLink.value == url + (QUERY_LIMIT + PrintInt(limit) + (AND_CURSOR + r.nextCursor.value + more))
  }

  lemma NamedLinks(lt: (Text, Text) -> bool, url: Bytes, limit: int, token: Option<Bytes>, ans: seq<Named>)
    ensures Links(url, limit, [], Serve(NamedRoute(lt, url), limit, token, ans))
  {
    var r := Serve(NamedRoute(lt, url), limit, token, ans);
    if r.Page200? && r.nextLink.Some? {
      var key := Cut(BySortName(lt), limit, ans).page.next.value;
      EncodedShape(DumpObject(SORT_NAME, key));
      LinkText(url, limit, r.nextCursor.value);
      var own := [Param(LIMIT, PrintInt(limit)), Param(CURSOR, r.nextCursor.value)];
      assert own + [] == own;
    }
  }

  /** What a listing of artists or labels answers: an error for a token nobody can read, else the
      page by sort name, and where it goes on. */
  ghost predicate NamedListing(lt: (Text, Text) -> bool, url: Bytes, rows: set<Named>, limit: int, token: Option<Bytes>,
                               r: Reply<Named>) {
    && (Unreadable(token) ==> r.Error500?)
    && (limit >= 1 && LastCursor(SORT_NAME, token).Some? ==>
          Lists(Index((row: Named) => row.sortName, lt), rows, LastCursor(SORT_NAME, token).value, limit, SORT_NAME, r))
    && Links(url, limit, [], r)
  }

  lemma ServeNamed(lt: (Text, Text) -> bool, url: Bytes, rows: set<Named>, limit: int, token: Option<Bytes>, ans: seq<Named>)
    requires limit >= -1 && LastCursor(SORT_NAME, token).Some? ==>
               Answers(BySortName(lt), rows, LastCursor(SORT_NAME, token).value, limit + 1, ans)
    ensures NamedListing(lt, url, rows, limit, token, Serve(NamedRoute(lt, url), limit, token, ans))
  {
    NamedLinks(lt, url, limit, token, ans);
    if Unreadable(token) {
      UnreadableFails(NamedRoute(lt, url), limit, token, ans);
    }
    if limit >= 1 && LastCursor(SORT_NAME, token).Some? {
      ServedLists(NamedRoute(lt, url), Index((row: Named) => row.sortName, lt), rows, limit, token, ans);
    }
  }

  const ARTIST_YEAR: Bytes := Ascii("artist_year")
  const ARTIST_TITLE: Bytes := Ascii("artist_title")
  const LABEL_ARTIST_YEAR: Bytes := Ascii("label_artist_year")
  const LABEL_YEAR_ARTIST: Bytes := Ascii("label_year_artist")

  /** The sort parameter a link repeats: the one asked for, if it is an option's. */
  function SortSent(sort: Option<Bytes>): Bytes {
    if sort in {Some(ARTIST_TITLE), Some(LABEL_ARTIST_YEAR), Some(LABEL_YEAR_ARTIST)} then sort.value else ARTIST_YEAR
  }

  /** The reply lists by the column that the request's own sort parameter names, and by artist
      and year when it names none. */
  ghost predicate InOrderAsked(lt: (Text, Text) -> bool, rows: set<Record>, cursor: Option<Text>, limit: nat,
                               sort: Option<Bytes>, r: Reply<Record>) {
    && (sort == Some(ARTIST_TITLE) ==>
          Lists(Index((row: Record) => row.fields.keys.artistTitle, lt), rows, cursor, limit, SORT_KEY, r))
    && (sort == Some(LABEL_ARTIST_YEAR) ==>
          Lists(Index((row: Record) => row.fields.keys.labelArtistYear, lt), rows, cursor, limit, SORT_KEY, r))
    && (sort == Some(LABEL_YEAR_ARTIST) ==>
          Lists(Index((row: Record) => row.fields.keys.labelYearArtist, lt), rows, cursor, limit, SORT_KEY, r))
    && (sort !in {Some(ARTIST_TITLE), Some(LABEL_ARTIST_YEAR), Some(LABEL_YEAR_ARTIST)} ==>
          Lists(Index((row: Record) => row.fields.keys.artistYear, lt), rows, cursor, limit, SORT_KEY, r))
  }

  lemma CharsAreBytes(b: Bytes, s: string)
    requires forall i :: 0 <= i < |s| ==> s[i] < 128 as char
    ensures ToChars(b) == s <==> b == Ascii(s)
  {
    if ToChars(b) == s {
      forall i | 0 <= i < |b|
        ensures b[i] == Ascii(s)[i]
      {
        assert ToChars(b)[i] == s[i];
      }
    }
    if b == Ascii(s) {
      forall i | 0 <= i < |s|
        ensures ToChars(b)[i] == s[i]
      {
        assert b[i] == s[i] as int;
      }
    }
  }

  lemma ValuesApart()
    ensures ARTIST_TITLE != LABEL_ARTIST_YEAR && ARTIST_TITLE != LABEL_YEAR_ARTIST && LABEL_ARTIST_YEAR != LABEL_YEAR_ARTIST
  {
    assert |ARTIST_TITLE| == 12 && |LABEL_ARTIST_YEAR| == |LABEL_YEAR_ARTIST| == 17;
    assert LABEL_ARTIST_YEAR[6] == 97 && LABEL_YEAR_ARTIST[6] == 121;
  }

  /** The option a request asks for, by the literal value of its parameter. */
  lemma OptionLiteral(sort: Option<Bytes>)
    ensures OptionOf(sort)
         == if sort == Some(ARTIST_TITLE) then ArtistTitle
            else if sort == Some(LABEL_ARTIST_YEAR) then LabelArtist
            else if sort == Some(LABEL_YEAR_ARTIST) then LabelYear
            else ArtistYear
  {
    if sort.Some? {
      CharsAreBytes(sort.value, "artist_title");
      CharsAreBytes(sort.value, "label_artist_year");
      CharsAreBytes(sort.value, "label_year_artist");
    }
  }

  lemma OrderAsked(lt: (Text, Text) -> bool, url: Bytes, rows: set<Record>, limit: nat,
                   token: Option<Bytes>, sort: Option<Bytes>, ans: seq<Record>)
    requires limit >= 1 && LastCursor(SORT_KEY, token).Some?
    requires Answers(ByColumn(lt, OptionOf(sort)), rows, LastCursor(SORT_KEY, token).value, limit + 1, ans)
    ensures InOrderAsked(lt, rows, LastCursor(SORT_KEY, token).value, limit, sort,
                         Serve(RecordsRoute(lt, url, OptionOf(sort)), limit, token, ans))
  {
    OptionLiteral(sort);
    ValuesApart();
    var route := RecordsRoute(lt, url, OptionOf(sort));
    match OptionOf(sort)
    case ArtistYear => ServedLists(route, Index((row: Record) => row.fields.keys.artistYear, lt), rows, limit, token, ans);
    case ArtistTitle => ServedLists(route, Index((row: Record) => row.fields.keys.artistTitle, lt), rows, limit, token, ans);
    case LabelArtist => ServedLists(route, Index((row: Record) => row.fields.keys.labelArtistYear, lt), rows, limit, token, ans);
    case LabelYear => ServedLists(route, Index((row: Record) => row.fields.keys.labelYearArtist, lt), rows, limit, token, ans);
  }

  lemma ValuesAreToken(option: SortOption)
    ensures AllToken(SortBytes(option))
  {
  }

  lemma SortSentIsValue(sort: Option<Bytes>)
    ensures SortSent(sort) == SortBytes(OptionOf(sort))
  {
    OptionLiteral(sort);
  }

  lemma RecordsParams(lt: (Text, Text) -> bool, url: Bytes, option: SortOption, limit: int, token: Bytes)
    ensures NextParams(RecordsRoute(lt, url, option), limit, token)
         == [Param(LIMIT, PrintInt(limit)), Param(CURSOR, token), Param(SORT, SortBytes(option))]
  {
  }

  lemma RecordsLinks(lt: (Text, Text) -> bool, url: Bytes, option: SortOption, limit: int, token: Option<Bytes>, ans: seq<Record>)
    ensures Links(url, limit, AND_SORT + SortBytes(option), Serve(RecordsRoute(lt, url, option), limit, token, ans))
  {
    var r := Serve(RecordsRoute(lt, url, option), limit, token, ans);
    if r.Page200? && r.nextLink.Some? {
      var key := Cut(ByColumn(lt, option), limit, ans).page.next.value;
      EncodedShape(DumpObject(SORT_KEY, key));
      ValuesAreToken(option);
      RecordsParams(lt, url, option, limit, r.nextCursor.value);
      SortedLinkText(url, limit, r.nextCursor.value, SortBytes(option));
    }
  }

  /** What a listing of records answers: an error for a token nobody can read, else the page in
      the order asked for, and where it goes on in this order. */
  ghost predicate RecordsListing(lt: (Text, Text) -> bool, url: Bytes, rows: set<Record>, limit: int,
                                 token: Option<Bytes>, sort: Option<Bytes>, r: Reply<Record>) {
    && (Unreadable(token) ==> r.Error500?)
    && (limit >= 1 && LastCursor(SORT_KEY, token).Some? ==>
          InOrderAsked(lt, rows, LastCursor(SORT_KEY, token).value, limit, sort, r))
    && Links(url, limit, AND_SORT + SortSent(sort), r)
  }

  lemma ServeRecords(lt: (Text, Text) -> bool, url: Bytes, rows: set<Record>, limit: int,
                     token: Option<Bytes>, sort: Option<Bytes>, ans: seq<Record>)
    requires limit >= -1 && LastCursor(SORT_KEY, token).Some? ==>
               Answers(ByColumn(lt, OptionOf(sort)), rows, LastCursor(SORT_KEY, token).value, limit + 1, ans)
    ensures RecordsListing(lt, url, rows, limit, token, sort, Serve(RecordsRoute(lt, url, OptionOf(sort)), limit, token, ans))
  {
    SortSentIsValue(sort);
    RecordsLinks(lt, url, OptionOf(sort), limit, token, ans);
    if Unreadable(token) {
      UnreadableFails(RecordsRoute(lt, url, OptionOf(sort)), limit, token, ans);
    }
    if limit >= 1 && LastCursor(SORT_KEY, token).Some? {
      OrderAsked(lt, url, rows, limit, token, sort, ans);
    }
  }

  // ---- The routes ----

  /** `list_artists` and `list_labels`; `ans` is the database's answer to the query. */
  method ListNamed(service: BaseService, url: Bytes, limit: int, cursor: Option<Bytes>, ans: seq<Named>)
    returns (r: Reply<Named>)
    requires limit >= -1 && LastCursor(SORT_NAME, cursor).Some? ==>
               Answers(BySortName(service.lt), service.rows.Values, LastCursor(SORT_NAME, cursor).value, limit + 1, ans)
    ensures r == Serve(NamedRoute(service.lt, url), limit, cursor, ans)
    ensures NamedListing(service.lt, url, service.rows.Values, limit, cursor, r)
  {
    ServeNamed(service.lt, url, service.rows.Values, limit, cursor, ans);
    var lastCursor := LastCursor(SORT_NAME, cursor);
    if lastCursor.None? {
      return Error500;
    }
    var listed := service.List(limit, lastCursor.value, ans);
    if !listed.Listed? {
      return Error500;
    }
    var nextCursor := if listed.page.next.None? then None else Some(EncodeCursor(SORT_NAME, listed.page.next.value));
    if nextCursor.None? {
      return Page200(listed.page.items, None, None);
    }
    var params := [Param(LIMIT, PrintInt(limit)), Param(CURSOR, nextCursor.value)];
    assert params == params + [];
    return Page200(listed.page.items, nextCursor, Some(LinkOf(url, params)));
  }

  /** `list_records`. */
  method ListRecords(service: RecordService, url: Bytes, limit: int, cursor: Option<Bytes>, sort: Option<Bytes>, ans: seq<Record>)
    returns (r: Reply<Record>)
    requires limit >= -1 && LastCursor(SORT_KEY, cursor).Some? ==>
               Answers(ByColumn(service.lt, OptionOf(sort)), service.records.Values,
                       LastCursor(SORT_KEY, cursor).value, limit + 1, ans)
    ensures r == Serve(RecordsRoute(service.lt, url, OptionOf(sort)), limit, cursor, ans)
    ensures RecordsListing(service.lt, url, service.records.Values, limit, cursor, sort, r)
  {
    ServeRecords(service.lt, url, service.records.Values, limit, cursor, sort, ans);
    var option := OptionOf(sort);
    var lastCursor := LastCursor(SORT_KEY, cursor);
    if lastCursor.None? {
      return Error500;
    }
    var listed := service.List(limit, option, lastCursor.value, ans);
    if !listed.Listed? {
      return Error500;
    }
    if listed.page.next.None? {
      return Page200(listed.page.items, None, None);
    }
    var nextCursor := EncodeCursor(SORT_KEY, listed.page.next.value);
    var params := [Param(LIMIT, PrintInt(limit)), Param(CURSOR, nextCursor), Param(SORT, SortBytes(option))];
    RecordsParams(service.lt, url, option, limit, nextCursor);
    return Page200(listed.page.items, Some(nextCursor), Some(LinkOf(url, params)));
  }

  // ---- Crawls ----

  /** The tables the visits met. */
  ghost function TablesMet<R>(visits: seq<Visit<R>>): seq<set<R>> {
    seq(|visits|, i requires 0 <= i < |visits| => visits[i].rows)
  }

  ghost predicate FixedRows<R>(visits: seq<Visit<R>>, rows: set<R>) {
    forall i :: 0 <= i < |visits| ==> visits[i].rows == rows
  }

  ghost predicate Finished<R(!new)>(visits: seq<Visit<R>>) {
    && visits != [] && visits[|visits| - 1].reply.Page200?
    && visits[|visits| - 1].reply.nextLink == None
  }

  /** Each row of a table is a value of its own. */
  lemma {:induction false} RowCount(t: Table)
    requires WellFormed(t)
    ensures |t.Values| == |t|
    decreases |t|
  {
    if t != map[] {
      var id: Id :| id in t;
      var rest, row := t - {id}, t[id];
      RowCount(rest);
      assert t.Values == rest.Values + {row} by {
        forall r | r in t.Values
          ensures r in rest.Values + {row}
        {
          assert t[r.id] == r;
          if r.id != id {
            assert rest[r.id] == r;
          }
        }
      }
      assert row !in rest.Values;
    }
  }

  /** A crawl over a table that does not change: every row once, in order, in as many
      requests as full pages and a remainder take. */
  lemma {:induction false} FixedCrawl(lt: (Text, Text) -> bool, url: Bytes, t: Table, visits: seq<Visit<Named>>)
    requires GoodRoute(NamedRoute(lt, url)) && Crawl(NamedRoute(lt, url), visits) && Finished(visits)
    requires WellFormed(t) && FixedRows(visits, t.Values) && ScalarKeys(BySortName(lt), t.Values)
    ensures var limit := visits[0].limit;
            && (if |t| == 0 then |visits| == 1 else (|visits| - 1) * limit < |t| <= |visits| * limit)
            && forall i :: 0 <= i < |visits| - 1 ==> visits[i].reply.Page200? && |visits[i].reply.data| == limit
    ensures BySortName(lt).StrictlySorted(Collected(visits)) && Elements(Collected(visits)) == t.Values
  {
    var rounds := CrawlIsTraversal(NamedRoute(lt, url), visits);
    SortNamesUnique(t, lt);
    ConstantLimit(BySortName(lt), t.Values, visits[0].limit, rounds);
    CollectedIsShown(visits, rounds);
    RowCount(t);
  }

  /** The row sorts behind what the token of a visit stands for. */
  ghost predicate Ahead(lt: (Text, Text) -> bool, token: Option<Bytes>, r: Named) {
    match LastCursor(SORT_NAME, token)
    case Some(Some(sortName)) => lt(sortName, r.sortName)
    case _ => false
  }

  /** A crawl while other clients create rows: keys strictly rise, nothing of the first table
      is lost, a row that came on the way is collected exactly when it sorted behind the
      token then at hand, and all that was collected exists in the end. */
  lemma {:induction false} GrowingCrawl(lt: (Text, Text) -> bool, url: Bytes, tables: seq<Table>, visits: seq<Visit<Named>>)
    requires GoodRoute(NamedRoute(lt, url)) && Crawl(NamedRoute(lt, url), visits) && Finished(visits)
    requires |tables| == |visits|
    requires forall i :: 0 <= i < |visits| ==>
               WellFormed(tables[i]) && visits[i].rows == tables[i].Values && ScalarKeys(BySortName(lt), visits[i].rows)
    ensures BySortName(lt).StrictlySorted(Collected(visits))
    ensures forall id :: id in tables[0] ==> tables[0][id] in Collected(visits)
    ensures forall i, r :: 0 < i < |visits| && Arrives(TablesMet(visits), i, r) ==>
              (r in Collected(visits) <==> Ahead(lt, visits[i].token, r))
    ensures forall r :: r in Collected(visits) ==> r in tables[|tables| - 1].Values
    ensures |visits| <= if |tables[|tables| - 1]| == 0 then 1 else |tables[|tables| - 1]|
  {
    var last := tables[|tables| - 1];
    var rounds := CrawlIsTraversal(NamedRoute(lt, url), visits);
    SortNamesUnique(last, lt);
    InterleavedTraversal(BySortName(lt), rounds);
    CollectedIsShown(visits, rounds);
    RowCount(last);
    forall id | id in tables[0]
      ensures tables[0][id] in Collected(visits)
    {
      assert tables[0][id] in rounds[0].rows;
    }
    forall i, r | 0 < i < |visits| && Arrives(TablesMet(visits), i, r)
      ensures r in Collected(visits) <==> Ahead(lt, visits[i].token, r)
    {
      ArrivedNamed(lt, url, visits, rounds, i, r);
    }
  }

  lemma {:induction false} ArrivedNamed(lt: (Text, Text) -> bool, url: Bytes,
                                        visits: seq<Visit<Named>>, rounds: seq<Round<Named>>, i: nat, r: Named)
    requires BySortName(lt).Valid() && |visits| == |rounds| && 0 < i < |visits|
    requires Traversal(BySortName(lt), rounds) && Complete(rounds)
    requires BySortName(lt).UniqueKeys(rounds[|rounds| - 1].rows)
    requires forall k :: 0 <= k < |visits| ==> Behind(NamedRoute(lt, url), visits[k], rounds[k])
    requires Arrives(TablesMet(visits), i, r)
    ensures r in Shown(rounds) <==> Ahead(lt, visits[i].token, r)
  {
    assert Tables(rounds) == TablesMet(visits);
    assert Follows(rounds[i - 1], rounds[i]);
    CreatedRow(BySortName(lt), rounds, i, r);
  }

  // ---- Crawls over records ----

  /** Every visit is answered in the order that its own request asks for. */
  ghost predicate RecordsVisits(lt: (Text, Text) -> bool, url: Bytes, visits: seq<Visit<Record>>) {
    && visits != [] && visits[0].token == None
    && (forall i :: 0 <= i < |visits| ==> Answered(RecordsRoute(lt, url, OptionOf(visits[i].sort)), visits[i]))
    && (forall i, j :: 0 <= i && j == i + 1 && j < |visits| ==> Clicks(visits[i], visits[j]))
  }

  ghost predicate ScalarRecords(rows: set<Record>) {
    forall r, option: SortOption :: r in rows ==> IsScalarText(SortColumn(option, r))
  }

  ghost predicate GoodOrder(lt: (Text, Text) -> bool) {
    forall option: SortOption :: ByColumn(lt, option).Valid()
  }

  /** A followed link asks for the order of the request that gave it. */
  lemma ClickKeepsSort(lt: (Text, Text) -> bool, url: Bytes, prior: Visit<Record>, v: Visit<Record>)
    requires GoodOrder(lt) && QUESTION !in url && ScalarRecords(prior.rows)
    requires Answered(RecordsRoute(lt, url, OptionOf(prior.sort)), prior) && Clicks(prior, v)
    ensures OptionOf(v.sort) == OptionOf(prior.sort)
  {
    var option := OptionOf(prior.sort);
    RecordsRouteGood(lt, url, option);
    AnsweredRound(RecordsRoute(lt, url, option), prior);
    RecordsSortParam(lt, url, option);
    OptionReadBack(option);
  }

  /** The orders the visits ask for. */
  function Options(visits: seq<Visit<Record>>): seq<SortOption> {
    seq(|visits|, i requires 0 <= i < |visits| => OptionOf(visits[i].sort))
  }

  lemma {:induction false} SameThroughout<T>(s: seq<T>, i: nat)
    requires i < |s| && forall j, k :: 0 <= j && k == j + 1 && k < |s| ==> s[k] == s[j]
    ensures s[i] == s[0]
  {
    if i > 0 {
      SameThroughout(s, i - 1);
    }
  }

  lemma {:induction false} SameSort(lt: (Text, Text) -> bool, url: Bytes, visits: seq<Visit<Record>>)
    requires GoodOrder(lt) && QUESTION !in url && RecordsVisits(lt, url, visits)
    requires forall k :: 0 <= k < |visits| ==> ScalarRecords(visits[k].rows)
    ensures forall i :: 0 <= i < |visits| ==> Options(visits)[i] == Options(visits)[0]
  {
    forall j, k | 0 <= j && k == j + 1 && k < |visits|
      ensures Options(visits)[k] == Options(visits)[j]
    {
      ClickKeepsSort(lt, url, visits[j], visits[k]);
    }
    forall i | 0 <= i < |visits|
      ensures Options(visits)[i] == Options(visits)[0]
    {
      SameThroughout(Options(visits), i);
    }
  }

  /** Following links, a client stays in the order of its first request. */
  lemma {:induction false} OneOrder(lt: (Text, Text) -> bool, url: Bytes, visits: seq<Visit<Record>>)
    requires GoodOrder(lt) && QUESTION !in url && RecordsVisits(lt, url, visits)
    requires forall k :: 0 <= k < |visits| ==> ScalarRecords(visits[k].rows)
    ensures forall i :: 0 <= i < |visits| ==> OptionOf(visits[i].sort) == OptionOf(visits[0].sort)
    ensures Crawl(RecordsRoute(lt, url, OptionOf(visits[0].sort)), visits)
  {
    SameSort(lt, url, visits);
    forall i | 0 <= i < |visits|
      ensures OptionOf(visits[i].sort) == OptionOf(visits[0].sort)
    {
      assert Options(visits)[i] == Options(visits)[0];
    }
  }

  /** The record has the sort key of a token the client was given, and was not in the answer
      that gave it. */
  ghost predicate LostToTie(option: SortOption, visits: seq<Visit<Record>>, r: Record) {
    exists i :: 0 <= i < |visits| && visits[i].reply.Page200?
      && visits[i].reply.nextCursor == Some(EncodeCursor(SORT_KEY, SortColumn(option, r)))
      && r !in visits[i].reply.data
  }

  lemma SkippedIsLost(lt: (Text, Text) -> bool, url: Bytes, option: SortOption,
                      visits: seq<Visit<Record>>, rounds: seq<Round<Record>>, r: Record)
    requires |visits| == |rounds| && IsScalarText(SortColumn(option, r))
    requires forall i :: 0 <= i < |visits| ==> Behind(RecordsRoute(lt, url, option), visits[i], rounds[i])
    ensures Skipped(ByColumn(lt, option), rounds, r) <==> LostToTie(option, visits, r)
  {
    var key := SortColumn(option, r);
    forall i | 0 <= i < |visits|
      ensures rounds[i].page.next == Some(key) <==> visits[i].reply.nextCursor == Some(EncodeCursor(SORT_KEY, key))
    {
      if rounds[i].page.next.Some? {
        RoundTrip(SORT_KEY, key);
        RoundTrip(SORT_KEY, rounds[i].page.next.value);
      }
    }
  }

  /** The requests behind the visits of a client that follows links, in one order. */
  lemma {:induction false} RecordRounds(lt: (Text, Text) -> bool, url: Bytes, visits: seq<Visit<Record>>)
    returns (rounds: seq<Round<Record>>)
    requires GoodOrder(lt) && QUESTION !in url && RecordsVisits(lt, url, visits) && Finished(visits)
    requires forall k :: 0 <= k < |visits| ==> ScalarRecords(visits[k].rows)
    ensures var route := RecordsRoute(lt, url, OptionOf(visits[0].sort));
            && Traversal(route.ix, rounds) && Complete(rounds) && |rounds| == |visits|
            && (forall i :: 0 <= i < |visits| ==> Behind(route, visits[i], rounds[i]) && visits[i].limit == visits[0].limit)
            && Collected(visits) == Shown(rounds)
  {
    var option := OptionOf(visits[0].sort);
    OneOrder(lt, url, visits);
    RecordsRouteGood(lt, url, option);
    rounds := CrawlIsTraversal(RecordsRoute(lt, url, option), visits);
    CollectedIsShown(visits, rounds);
  }

  /** A crawl over records that do not change, whatever order the database gives to ties: no
      record twice, keys never fall, missing are exactly the records lost to a tie, and none is
      missing exactly when no group of equal keys lies across the end of a page. */
  lemma {:induction false} RecordsCrawl(lt: (Text, Text) -> bool, url: Bytes, rows: set<Record>, visits: seq<Visit<Record>>)
    requires GoodOrder(lt) && QUESTION !in url && RecordsVisits(lt, url, visits) && Finished(visits)
    requires FixedRows(visits, rows) && ScalarRecords(rows)
    ensures var option := OptionOf(visits[0].sort);
            && Distinct(Collected(visits)) && ByColumn(lt, option).Sorted(Collected(visits))
            && (forall r :: r in Collected(visits) <==> r in rows && !LostToTie(option, visits, r))
            && (Elements(Collected(visits)) == rows <==> TiesFit(ByColumn(lt, option), rows, visits[0].limit))
            && |visits| <= |rows| + 1
  {
    var option := OptionOf(visits[0].sort);
    var rounds := RecordRounds(lt, url, visits);
    FixedTraversal(ByColumn(lt, option), rows, rounds);
    NothingLostIff(ByColumn(lt, option), rows, visits[0].limit, rounds);
    forall r | r in rows
      ensures Skipped(ByColumn(lt, option), rounds, r) <==> LostToTie(option, visits, r)
    {
      SkippedIsLost(lt, url, option, visits, rounds, r);
    }
  }

  /** The record sorts behind what the token of a visit stands for; without token all do. */
  ghost predicate RecordAhead(lt: (Text, Text) -> bool, option: SortOption, token: Option<Bytes>, r: Record) {
    match LastCursor(SORT_KEY, token)
    case Some(Some(key)) => lt(key, SortColumn(option, r))
    case _ => true
  }

  /** A crawl while records are created: a record is collected exactly when it sorts behind the
      token of the visit it arrives by and is not lost to a tie from that visit on. There is at
      most one visit more than records in the end. */
  lemma {:induction false} GrowingRecordsCrawl(lt: (Text, Text) -> bool, url: Bytes, visits: seq<Visit<Record>>)
    requires GoodOrder(lt) && QUESTION !in url && RecordsVisits(lt, url, visits) && Finished(visits)
    requires forall k :: 0 <= k < |visits| ==> ScalarRecords(visits[k].rows)
    ensures var option := OptionOf(visits[0].sort);
            && Distinct(Collected(visits)) && ByColumn(lt, option).Sorted(Collected(visits))
            && (forall i, r :: 0 <= i < |visits| && Arrives(TablesMet(visits), i, r) ==>
                  (r in Collected(visits) <==>
                     RecordAhead(lt, option, visits[i].token, r) && !LostToTie(option, visits[i..], r)))
            && |visits| <= |visits[|visits| - 1].rows| + 1
  {
    var option := OptionOf(visits[0].sort);
    var rounds := RecordRounds(lt, url, visits);
    ShownInOrder(ByColumn(lt, option), rounds);
    RoundsAtMost(ByColumn(lt, option), rounds);
    forall i, r | 0 <= i < |visits| && Arrives(TablesMet(visits), i, r)
      ensures r in Collected(visits) <==>
                RecordAhead(lt, option, visits[i].token, r) && !LostToTie(option, visits[i..], r)
    {
      ArrivedRecord(lt, url, option, visits, rounds, i, r);
    }
  }

  lemma AheadIsAbove(lt: (Text, Text) -> bool, option: SortOption, token: Option<Bytes>, cursor: Option<Text>, r: Record)
    requires LastCursor(SORT_KEY, token) == Some(cursor)
    ensures RecordAhead(lt, option, token, r) <==> ByColumn(lt, option).Above(cursor, r)
  {
  }

  lemma {:induction false} ArrivedRecord(lt: (Text, Text) -> bool, url: Bytes, option: SortOption,
                                         visits: seq<Visit<Record>>, rounds: seq<Round<Record>>, i: nat, r: Record)
    requires ByColumn(lt, option).Valid() && |visits| == |rounds| && i < |visits|
    requires Traversal(ByColumn(lt, option), rounds) && Complete(rounds)
    requires forall k :: 0 <= k < |visits| ==> Behind(RecordsRoute(lt, url, option), visits[k], rounds[k])
    requires Arrives(TablesMet(visits), i, r) && IsScalarText(SortColumn(option, r))
    ensures r in Shown(rounds) <==>
              RecordAhead(lt, option, visits[i].token, r) && !LostToTie(option, visits[i..], r)
  {
    assert Tables(rounds) == TablesMet(visits);
    ArrivedRow(ByColumn(lt, option), rounds, i, r);
    AheadIsAbove(lt, option, visits[i].token, rounds[i].cursor, r);
    SkippedIsLost(lt, url, option, visits[i..], rounds[i..], r);
  }
}
