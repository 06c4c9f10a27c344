/**
 The list routes: the service behind cursor tokens and links. A client that follows
 `nextLink` makes a keyset traversal.
 */
module Routes {
  import opened Prelude
  import opened Base64Url
  import opened CursorToken
  import opened Joining
  import opened JsonText
  import opened Keyset
  import opened QueryLink

  /** What tells the three routes apart: the column, the member name in the token, the URL
      in front of the query, and the parameters repeated in the link. */
  datatype Route<!R> = Route(ix: Index<R>, field: Text, url: Bytes, extra: seq<Param>)

  const LIMIT: Bytes := Ascii("limit")
  const CURSOR: Bytes := Ascii("cursor")
  const SORT: Bytes := Ascii("sort")

  datatype Reply<R> = Page200(data: seq<R>, nextCursor: Option<Bytes>, nextLink: Option<Bytes>) | Error500

  function LastCursor(field: Text, token: Option<Bytes>): Option<Option<Text>> {
    match token
    case None => Some(None)
    case Some(bytes) =>
      match DecodeToken(field, bytes)
      case Rejected => None
      case NoCursor => Some(None)
      case Cursor(text) => Some(Some(text))
  }

  function NextParams<R>(route: Route<R>, limit: int, token: Bytes): seq<Param> {
    [Param(LIMIT, PrintInt(limit)), Param(CURSOR, token)] + route.extra
  }

  function Serve<R>(route: Route<R>, limit: int, token: Option<Bytes>, ans: seq<R>): Reply<R> {
    if LastCursor(route.field, token).None? then Error500
    else match Cut(route.ix, limit, ans)
      case QueryError => Error500
      case IndexError => Error500
      case Listed(Page(items, None)) => Page200(items, None, None)
      case Listed(Page(items, Some(key))) =>
        var next := EncodeCursor(route.field, key);
        Page200(items, Some(next), Some(LinkOf(route.url, NextParams(route, limit, next))))
  }

  /** The request a server reads out of a link. */
  datatype Query = Query(limit: Option<int>, token: Option<Bytes>, sort: Option<Bytes>)

  function QueryFrom(link: Bytes): Query {
    var params := QueryOf(link);
    Query(match ParamValue(params, LIMIT) { case None => None case Some(s) => ParseInt(s) },
          ParamValue(params, CURSOR),
          ParamValue(params, SORT))
  }

  ghost predicate GoodRoute<R(!new)>(route: Route<R>) {
    && route.ix.Valid()
    && route.field in {SORT_NAME, SORT_KEY}
    && QUESTION !in route.url
    && forall i :: 0 <= i < |route.extra| ==> route.extra[i].name !in {LIMIT, CURSOR}
  }

  /** Later parameters come first; earlier ones count when they have nothing to say. */
  lemma {:induction false} ParamValuePast(params: seq<Param>, extra: seq<Param>, name: Bytes)
    ensures ParamValue(params + extra, name)
         == if ParamValue(extra, name).Some? then ParamValue(extra, name) else ParamValue(params, name)
  {
    if extra == [] {
      assert params + extra == params;
    } else {
      var all := params + extra;
      assert all[..|all| - 1] == params + extra[..|extra| - 1];
      ParamValuePast(params, extra[..|extra| - 1], name);
    }
  }

  lemma {:induction false} NoParamValue(params: seq<Param>, name: Bytes)
    requires forall i :: 0 <= i < |params| ==> params[i].name != name
    ensures ParamValue(params, name) == None
  {
    if params != [] {
      NoParamValue(params[..|params| - 1], name);
    }
  }

  /** The parameters a link starts with. */
  lemma OwnParams(limit: Bytes, token: Bytes)
    ensures var own := [Param(LIMIT, limit), Param(CURSOR, token)];
            ParamValue(own, LIMIT) == Some(limit) && ParamValue(own, CURSOR) == Some(token) && ParamValue(own, SORT) == None
  {
    var own := [Param(LIMIT, limit), Param(CURSOR, token)];
    assert |LIMIT| == 5 && |CURSOR| == 6 && |SORT| == 4;
    assert own[..1] == [Param(LIMIT, limit)];
    NoParamValue(own, SORT);
  }

  /** Following `nextLink` repeats the limit and the route's own sort parameter and hands over
      the token of the last key, and the server decodes that token to the key itself. */
  lemma LinkCarriesCursor<R(!new)>(route: Route<R>, limit: int, key: Text)
    requires GoodRoute(route) && IsScalarText(key)
    ensures var token := EncodeCursor(route.field, key);
            && QueryFrom(LinkOf(route.url, NextParams(route, limit, token)))
               == Query(Some(limit), Some(token), ParamValue(route.extra, SORT))
            && LastCursor(route.field, Some(token)) == Some(Some(key))
  {
    var token := EncodeCursor(route.field, key);
    LinkIsQuery(route, limit, token);
    RoundTrip(route.field, key);
  }

  lemma LinkIsQuery<R(!new)>(route: Route<R>, limit: int, token: Bytes)
    requires GoodRoute(route)
    ensures QueryFrom(LinkOf(route.url, NextParams(route, limit, token)))
         == Query(Some(limit), Some(token), ParamValue(route.extra, SORT))
  {
    var own := [Param(LIMIT, PrintInt(limit)), Param(CURSOR, token)];
    QueryOfLink(route.url, NextParams(route, limit, token));
    OwnParams(PrintInt(limit), token);
    NoParamValue(route.extra, LIMIT);
    NoParamValue(route.extra, CURSOR);
    ParamValuePast(own, route.extra, LIMIT);
    ParamValuePast(own, route.extra, CURSOR);
    ParamValuePast(own, route.extra, SORT);
    ParsePrintedInt(limit);
  }

  /** The cursor appears in the link as it is: no byte of it needs quoting. */
  lemma TokenIsUrlSafe(field: Text, key: Text)
    ensures QuotePlus(EncodeCursor(field, key)) == EncodeCursor(field, key)
  {
    EncodedShape(DumpObject(field, key));
    QuotedToken(EncodeCursor(field, key));
  }

  // ---- What is sent, literally ----

  lemma {:induction false} PrintedNatIsToken(n: nat)
    ensures forall i :: 0 <= i < |PrintNat(n)| ==> IsTokenByte(PrintNat(n)[i])
  {
    if n >= 10 {
      PrintedNatIsToken(n / 10);
    }
  }

  lemma PrintedIsToken(n: int)
    ensures forall i :: 0 <= i < |PrintInt(n)| ==> IsTokenByte(PrintInt(n)[i])
  {
    PrintedNatIsToken(if n < 0 then -n else n);
  }

  ghost predicate AllToken(b: Bytes) {
    forall i :: 0 <= i < |b| ==> IsTokenByte(b[i])
  }

  const QUERY_LIMIT: Bytes := Ascii("?limit=")
  const AND_CURSOR: Bytes := Ascii("&cursor=")
  const AND_SORT: Bytes := Ascii("&sort=")

  lemma Separators()
    ensures QUERY_LIMIT == [QUESTION] + (LIMIT + [EQUALS])
    ensures AND_CURSOR == [AMPERSAND] + (CURSOR + [EQUALS])
    ensures AND_SORT == [AMPERSAND] + (SORT + [EQUALS])
    ensures AllToken(LIMIT) && AllToken(CURSOR) && AllToken(SORT)
  {
  }

  lemma ParamAfter(mark: Bytes, name: Bytes, value: Bytes, rest: Bytes)
    requires AllToken(name) && AllToken(value)
    ensures mark + (EncodeParam(Param(name, value)) + rest) == (mark + (name + [EQUALS])) + (value + rest)
  {
    QuotedToken(name);
    QuotedToken(value);
  }

  /** The link of a listing that repeats no parameter but its own. */
  lemma LinkText(url: Bytes, limit: int, token: Bytes)
    requires AllToken(token)
    ensures LinkOf(url, [Param(LIMIT, PrintInt(limit)), Param(CURSOR, token)])
         == url + (QUERY_LIMIT + PrintInt(limit) + (AND_CURSOR + token + []))
  {
    var a, b := EncodeParam(Param(LIMIT, PrintInt(limit))), EncodeParam(Param(CURSOR, token));
    var params := [Param(LIMIT, PrintInt(limit)), Param(CURSOR, token)];
    assert seq(2, i requires 0 <= i < 2 => EncodeParam(params[i])) == [a, b];
    JoinTwo(a, b, AMPERSAND);
    TwoParams(limit, token, []);
    TwoParts(url, a, b);
  }

  lemma TwoParts(url: Bytes, a: Bytes, b: Bytes)
    ensures url + [QUESTION] + (a + [AMPERSAND] + b) == url + ([QUESTION] + (a + ([AMPERSAND] + (b + []))))
  {
    assert b + [] == b;
    Associative(a, [AMPERSAND], b);
    Associative(url, [QUESTION], a + ([AMPERSAND] + b));
  }

  lemma TwoParams(limit: int, token: Bytes, rest: Bytes)
    requires AllToken(token)
    ensures [QUESTION] + (EncodeParam(Param(LIMIT, PrintInt(limit))) + ([AMPERSAND] + (EncodeParam(Param(CURSOR, token)) + rest)))
         == QUERY_LIMIT + PrintInt(limit) + (AND_CURSOR + token + rest)
  {
    PrintedIsToken(limit);
    Separators();
    ParamAfter([AMPERSAND], CURSOR, token, rest);
    ParamAfter([QUESTION], LIMIT, PrintInt(limit), AND_CURSOR + (token + rest));
    Associative(AND_CURSOR, token, rest);
    Associative(QUERY_LIMIT, PrintInt(limit), AND_CURSOR + token + rest);
  }

  /** The link of a listing that repeats a sort parameter. */
  lemma SortedLinkText(url: Bytes, limit: int, token: Bytes, sort: Bytes)
    requires AllToken(token) && AllToken(sort)
    ensures LinkOf(url, [Param(LIMIT, PrintInt(limit)), Param(CURSOR, token), Param(SORT, sort)])
         == url + (QUERY_LIMIT + PrintInt(limit) + (AND_CURSOR + token + (AND_SORT + sort)))
  {
    var a, b, c := EncodeParam(Param(LIMIT, PrintInt(limit))), EncodeParam(Param(CURSOR, token)), EncodeParam(Param(SORT, sort));
    var params := [Param(LIMIT, PrintInt(limit)), Param(CURSOR, token), Param(SORT, sort)];
    assert seq(3, i requires 0 <= i < 3 => EncodeParam(params[i])) == [a, b, c];
    JoinThree(a, b, c, AMPERSAND);
    Separators();
    ParamAfter([AMPERSAND], SORT, sort, []);
    assert c + [] == c && sort + [] == sort;
    TwoParams(limit, token, AND_SORT + sort);
    ThreeParts(url, a, b, c);
  }

  lemma ThreeParts(url: Bytes, a: Bytes, b: Bytes, c: Bytes)
    ensures url + [QUESTION] + (a + [AMPERSAND] + (b + [AMPERSAND] + c))
         == url + ([QUESTION] + (a + ([AMPERSAND] + (b + ([AMPERSAND] + c)))))
  {
    Associative(b, [AMPERSAND], c);
    Associative(a, [AMPERSAND], b + ([AMPERSAND] + c));
    Associative(url, [QUESTION], a + ([AMPERSAND] + (b + ([AMPERSAND] + c))));
  }

  /** When a request is answered with a page: its token can be read, and the limit is positive,
      or zero with nothing to show. */
  lemma ServedIff<R(!new)>(route: Route<R>, rows: set<R>, limit: int, token: Option<Bytes>, ans: seq<R>)
    requires LastCursor(route.field, token).Some? && limit >= -1 ==>
               Answers(route.ix, rows, LastCursor(route.field, token).value, limit + 1, ans)
    ensures Serve(route, limit, token, ans).Page200?
       <==> && (token.None? || DecodeToken(route.field, token.value) != Rejected)
            && (limit >= 1
                || (limit == 0 && forall r :: r in rows ==> !route.ix.Above(LastCursor(route.field, token).value, r)))
  {
    if LastCursor(route.field, token).Some? {
      CutSucceedsIff(route.ix, rows, LastCursor(route.field, token).value, limit, ans);
    }
  }

  /** A reply to a request for at least one row, told without the service: the page by this key,
      the token of its last key, and the link. */
  ghost predicate Lists<R(!new)>(ix: Index<R>, rows: set<R>, cursor: Option<Text>, limit: nat, field: Text, r: Reply<R>) {
    r.Page200? &&
    exists page :: IsPage(ix, rows, cursor, limit, page) && r.data == page.items
      && r.nextCursor == (match page.next case None => None case Some(key) => Some(EncodeCursor(field, key)))
      && (r.nextLink.Some? <==> page.next.Some?)
  }

  lemma ServedLists<R(!new)>(route: Route<R>, ix: Index<R>, rows: set<R>, limit: nat, token: Option<Bytes>, ans: seq<R>)
    requires limit >= 1 && LastCursor(route.field, token).Some?
    requires Answers(route.ix, rows, LastCursor(route.field, token).value, limit + 1, ans)
    requires ix.lt == route.ix.lt && forall r :: ix.key(r) == route.ix.key(r)
    ensures Lists(ix, rows, LastCursor(route.field, token).value, limit, route.field, Serve(route, limit, token, ans))
  {
    var cursor := LastCursor(route.field, token).value;
    var page := CutPage(route.ix, rows, cursor, limit, ans);
    SameKeysSamePage(route.ix, ix, rows, cursor, limit, page);
  }

  // ---- A client that follows links ----

  /** The table at that moment, the query parameters of the request, and the answer. */
  datatype Visit<R> = Visit(rows: set<R>, limit: nat, token: Option<Bytes>, sort: Option<Bytes>, reply: Reply<R>)

  ghost predicate Answered<R(!new)>(route: Route<R>, v: Visit<R>) {
    var cursor := LastCursor(route.field, v.token);
    && v.limit >= 1
    && cursor.Some?
    && exists ans :: Answers(route.ix, v.rows, cursor.value, v.limit + 1, ans) && v.reply == Serve(route, v.limit, v.token, ans)
  }

  ghost predicate Clicks<R>(prior: Visit<R>, v: Visit<R>) {
    && prior.rows <= v.rows
    && prior.reply.Page200? && prior.reply.nextLink.Some?
    && QueryFrom(prior.reply.nextLink.value) == Query(Some(v.limit), v.token, v.sort)
  }

  ghost predicate Crawl<R(!new)>(route: Route<R>, visits: seq<Visit<R>>) {
    && visits != [] && visits[0].token == None
    && (forall i :: 0 <= i < |visits| ==> Answered(route, visits[i]))
    && (forall i, j :: 0 <= i && j == i + 1 && j < |visits| ==> Clicks(visits[i], visits[j]))
  }

  ghost predicate ScalarKeys<R>(ix: Index<R>, rows: set<R>) {
    forall r :: r in rows ==> IsScalarText(ix.key(r))
  }

  ghost function RoundOf<R>(route: Route<R>, v: Visit<R>): Round<R>
    requires v.reply.Page200? && LastCursor(route.field, v.token).Some?
  {
    Round(v.rows, v.limit, LastCursor(route.field, v.token).value,
          Page(v.reply.data,
               match v.reply.nextCursor
               case None => None
               case Some(token) =>
                 match LastCursor(route.field, Some(token)) { case Some(c) => c case None => None }))
  }

  function TokenOf<R>(route: Route<R>, next: Option<Text>): Option<Bytes> {
    match next
    case None => None
    case Some(key) => Some(EncodeCursor(route.field, key))
  }

  /** The reply to a full answer: its cursor is the key of the last row shown, and its link asks
      for the page behind it. */
  lemma FullReply<R(!new)>(route: Route<R>, v: Visit<R>, ans: seq<R>)
    requires GoodRoute(route) && v.limit >= 1 && |ans| == v.limit + 1 && LastCursor(route.field, v.token).Some?
    requires v.reply == Serve(route, v.limit, v.token, ans) && IsScalarText(route.ix.key(ans[v.limit - 1]))
    ensures var key := route.ix.key(ans[v.limit - 1]);
            && v.reply.Page200? && v.reply.data == ans[..v.limit] && v.reply.nextLink.Some?
            && v.reply.nextCursor == TokenOf(route, Some(key))
            && LastCursor(route.field, v.reply.nextCursor) == Some(Some(key))
            && QueryFrom(v.reply.nextLink.value) == Query(Some(v.limit), v.reply.nextCursor, ParamValue(route.extra, SORT))
  {
    LinkCarriesCursor(route, v.limit, route.ix.key(ans[v.limit - 1]));
  }

  lemma LastReply<R(!new)>(route: Route<R>, v: Visit<R>, ans: seq<R>)
    requires v.limit >= 1 && |ans| <= v.limit && LastCursor(route.field, v.token).Some?
    requires v.reply == Serve(route, v.limit, v.token, ans)
    ensures v.reply == Page200(ans, None, None)
  {
  }

  /** The reply gives this page, and a link and a token that ask for what comes behind it. */
  ghost predicate Replies<R(!new)>(route: Route<R>, v: Visit<R>, page: Page<R>) {
    && v.reply.Page200? && v.reply.data == page.items && v.reply.nextCursor == TokenOf(route, page.next)
    && (v.reply.nextLink.Some? <==> page.next.Some?)
    && (page.next.Some? ==>
          && IsScalarText(page.next.value)
          && LastCursor(route.field, v.reply.nextCursor) == Some(page.next)
          && QueryFrom(v.reply.nextLink.value) == Query(Some(v.limit), v.reply.nextCursor, ParamValue(route.extra, SORT)))
  }

  lemma ServedReplies<R(!new)>(route: Route<R>, v: Visit<R>, ans: seq<R>, page: Page<R>)
    requires GoodRoute(route) && v.limit >= 1 && |ans| <= v.limit + 1 && LastCursor(route.field, v.token).Some?
    requires v.reply == Serve(route, v.limit, v.token, ans)
    requires page == if |ans| == v.limit + 1 then Page(ans[..v.limit], Some(route.ix.key(ans[v.limit - 1]))) else Page(ans, None)
    requires |ans| == v.limit + 1 ==> IsScalarText(route.ix.key(ans[v.limit - 1]))
    ensures Replies(route, v, page)
  {
    if |ans| == v.limit + 1 {
      FullReply(route, v, ans);
    } else {
      LastReply(route, v, ans);
    }
  }

  /** The page that a reply is made of. */
  lemma ReplyPage<R(!new)>(route: Route<R>, v: Visit<R>) returns (page: Page<R>)
    requires GoodRoute(route) && Answered(route, v) && ScalarKeys(route.ix, v.rows)
    ensures IsPage(route.ix, v.rows, LastCursor(route.field, v.token).value, v.limit, page)
    ensures Replies(route, v, page)
  {
    var cursor := LastCursor(route.field, v.token).value;
    var ans :| Answers(route.ix, v.rows, cursor, v.limit + 1, ans) && v.reply == Serve(route, v.limit, v.token, ans);
    page := CutPage(route.ix, v.rows, cursor, v.limit, ans);
    ServedReplies(route, v, ans, page);
  }

  lemma AnsweredRound<R(!new)>(route: Route<R>, v: Visit<R>)
    requires GoodRoute(route) && Answered(route, v) && ScalarKeys(route.ix, v.rows)
    ensures v.reply.Page200?
    ensures Served(route.ix, RoundOf(route, v))
    ensures v.reply.nextCursor == TokenOf(route, RoundOf(route, v).page.next)
    ensures RoundOf(route, v).page.next.Some? ==> IsScalarText(RoundOf(route, v).page.next.value)
    ensures v.reply.nextLink.Some? <==> RoundOf(route, v).page.next.Some?
    ensures v.reply.nextLink.Some? ==>
              && QueryFrom(v.reply.nextLink.value) == Query(Some(v.limit), v.reply.nextCursor, ParamValue(route.extra, SORT))
              && LastCursor(route.field, v.reply.nextCursor) == Some(RoundOf(route, v).page.next)
  {
    var page := ReplyPage(route, v);
    assert RoundOf(route, v).page == page;
  }

  lemma ClickFollows<R(!new)>(route: Route<R>, prior: Visit<R>, v: Visit<R>)
    requires GoodRoute(route) && Answered(route, prior) && Answered(route, v) && Clicks(prior, v)
    requires ScalarKeys(route.ix, prior.rows) && ScalarKeys(route.ix, v.rows)
    ensures prior.reply.Page200? && v.reply.Page200?
    ensures Follows(RoundOf(route, prior), RoundOf(route, v)) && v.limit == prior.limit
  {
    AnsweredRound(route, prior);
    AnsweredRound(route, v);
  }

  /** The request behind a visit: same table, data and limit, and the tokens are those of its
      cursors. */
  ghost predicate Behind<R>(route: Route<R>, v: Visit<R>, round: Round<R>) {
    && v.reply.Page200?
    && Some(round.cursor) == LastCursor(route.field, v.token)
    && round.rows == v.rows && round.limit == v.limit && round.page.items == v.reply.data
    && v.reply.nextCursor == TokenOf(route, round.page.next)
    && (round.page.next.Some? ==> IsScalarText(round.page.next.value))
  }

  /** A client following links makes a keyset traversal with one limit throughout: the
      tokens and links between the requests neither lose nor change anything. */
  lemma {:induction false} CrawlIsTraversal<R(!new)>(route: Route<R>, visits: seq<Visit<R>>) returns (rounds: seq<Round<R>>)
    requires GoodRoute(route) && Crawl(route, visits)
    requires forall i :: 0 <= i < |visits| ==> ScalarKeys(route.ix, visits[i].rows)
    ensures Traversal(route.ix, rounds) && |rounds| == |visits|
    ensures forall i :: 0 <= i < |visits| ==> Behind(route, visits[i], rounds[i]) && visits[i].limit == visits[0].limit
    ensures Complete(rounds) <==> visits[|visits| - 1].reply.nextLink == None
  {
    forall i | 0 <= i < |visits|
      ensures visits[i].reply.Page200? && LastCursor(route.field, visits[i].token).Some?
      ensures Served(route.ix, RoundOf(route, visits[i])) && Behind(route, visits[i], RoundOf(route, visits[i]))
    {
      AnsweredRound(route, visits[i]);
    }
    rounds := seq(|visits|, i requires 0 <= i < |visits| => RoundOf(route, visits[i]));
    AnsweredRound(route, visits[|visits| - 1]);
    RoundsFollow(route, visits, rounds);
    SameLimit(visits);
  }

  lemma RoundsFollow<R(!new)>(route: Route<R>, visits: seq<Visit<R>>, rounds: seq<Round<R>>)
    requires GoodRoute(route) && Crawl(route, visits) && |rounds| == |visits|
    requires forall i :: 0 <= i < |visits| ==>
               && ScalarKeys(route.ix, visits[i].rows)
               && visits[i].reply.Page200? && LastCursor(route.field, visits[i].token).Some?
               && rounds[i] == RoundOf(route, visits[i])
    ensures forall i, j :: 0 <= i && j == i + 1 && j < |visits| ==>
              Follows(rounds[i], rounds[j]) && visits[j].limit == visits[i].limit
  {
    forall i, j | 0 <= i && j == i + 1 && j < |visits|
      ensures Follows(rounds[i], rounds[j]) && visits[j].limit == visits[i].limit
    {
      ClickFollows(route, visits[i], visits[j]);
    }
  }

  lemma {:induction false} SameLimit<R(!new)>(visits: seq<Visit<R>>)
    requires visits != []
    requires forall i, j :: 0 <= i && j == i + 1 && j < |visits| ==> visits[j].limit == visits[i].limit
    ensures forall i :: 0 <= i < |visits| ==> visits[i].limit == visits[0].limit
  {
    var k := 1;
    while k < |visits|
      invariant 1 <= k <= |visits|
      invariant forall i :: 0 <= i < k ==> visits[i].limit == visits[0].limit
    {
      assert visits[k].limit == visits[k - 1].limit;
      k := k + 1;
    }
  }
}
