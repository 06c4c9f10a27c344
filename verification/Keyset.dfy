/**
 Keyset pagination as every `list` of the services does it: rows above the cursor in key
 order, one more than the page holds, cut to the page. The database may put rows with
 equal keys in any order, and another one each time.
 */
module Keyset {
  import opened Prelude
  import opened JsonText

  /** The ordered column of a query and the collation it is compared with. */
  datatype Index<!R> = Index(key: R -> Text, lt: (Text, Text) -> bool) {
    predicate Before(a: R, b: R) { lt(key(a), key(b)) }

    predicate Above(cursor: Option<Text>, r: R) {
      cursor.Some? ==> lt(cursor.value, key(r))
    }

    ghost predicate Valid() {
      && (forall a :: !lt(a, a))
      && (forall a, b, c :: lt(a, b) && lt(b, c) ==> lt(a, c))
      && (forall a, b :: lt(a, b) || a == b || lt(b, a))
    }

    ghost predicate UniqueKeys(rows: set<R>) {
      forall a, b :: a in rows && b in rows && key(a) == key(b) ==> a == b
    }

    ghost predicate Sorted(s: seq<R>) {
      forall i, j :: 0 <= i < j < |s| ==> !Before(s[j], s[i])
    }

    ghost predicate StrictlySorted(s: seq<R>) {
      forall i, j :: 0 <= i < j < |s| ==> Before(s[i], s[j])
    }
  }

  /** `ans` is an answer the database may give to
      `SELECT .. WHERE key > cursor ORDER BY key LIMIT max`. */
  ghost predicate Answers<R(!new)>(ix: Index<R>, rows: set<R>, cursor: Option<Text>, max: nat, ans: seq<R>) {
    && Distinct(ans)
    && (forall r :: r in ans ==> r in rows && ix.Above(cursor, r))
    && ix.Sorted(ans)
    && |ans| <= max
    && (forall r :: r in rows && ix.Above(cursor, r) && r !in ans ==>
          |ans| == max && forall i :: 0 <= i < |ans| ==> !ix.Before(r, ans[i]))
  }

  datatype Page<R> = Page(items: seq<R>, next: Option<Text>)

  datatype Outcome<R> = Listed(page: Page<R>) | QueryError | IndexError

  /** What `list` makes of the answer: PostgreSQL refuses a negative LIMIT, and for a limit
      below one `items[-1]` may look into an empty slice. */
  function Cut<R>(ix: Index<R>, limit: int, ans: seq<R>): Outcome<R> {
    if limit + 1 < 0 then QueryError
    else if |ans| == limit + 1 then
      if limit < 1 then IndexError
      else Listed(Page(ans[..limit], Some(ix.key(ans[limit - 1]))))
    else Listed(Page(ans, None))
  }

  /** For which limits listing works: every positive one, and zero when no row matches. */
  lemma CutSucceedsIff<R(!new)>(ix: Index<R>, rows: set<R>, cursor: Option<Text>, limit: int, ans: seq<R>)
    requires limit >= -1 ==> Answers(ix, rows, cursor, limit + 1, ans)
    ensures Cut(ix, limit, ans).Listed?
       <==> limit >= 1 || (limit == 0 && forall r :: r in rows ==> !ix.Above(cursor, r))
  {
    if limit == 0 && |ans| == 1 {
      assert ans[0] in ans;
    }
  }

  ghost predicate IsPage<R(!new)>(ix: Index<R>, rows: set<R>, cursor: Option<Text>, limit: nat, page: Page<R>) {
    exists ans :: Answers(ix, rows, cursor, limit + 1, ans) && Cut(ix, limit, ans) == Listed(page)
  }

  /** An answer, and so a page, depends on the keys of the rows and the collation only. */
  lemma SameKeysSamePage<R(!new)>(a: Index<R>, b: Index<R>, rows: set<R>, cursor: Option<Text>, limit: nat, page: Page<R>)
    requires a.lt == b.lt && (forall r :: a.key(r) == b.key(r)) && limit >= 1 && IsPage(a, rows, cursor, limit, page)
    ensures IsPage(b, rows, cursor, limit, page)
  {
    var ans :| Answers(a, rows, cursor, limit + 1, ans) && Cut(a, limit, ans) == Listed(page);
    assert Answers(b, rows, cursor, limit + 1, ans);
    assert Cut(b, limit, ans) == Listed(page);
  }

  /** The page cut from an answer, and that its cursor is the key of a stored row. */
  lemma CutPage<R(!new)>(ix: Index<R>, rows: set<R>, cursor: Option<Text>, limit: nat, ans: seq<R>) returns (page: Page<R>)
    requires limit >= 1 && Answers(ix, rows, cursor, limit + 1, ans)
    ensures IsPage(ix, rows, cursor, limit, page) && Cut(ix, limit, ans) == Listed(page)
    ensures page == if |ans| == limit + 1 then Page(ans[..limit], Some(ix.key(ans[limit - 1]))) else Page(ans, None)
    ensures |ans| == limit + 1 ==> ans[limit - 1] in rows
  {
    page := Cut(ix, limit, ans).page;
    if |ans| == limit + 1 {
      assert ans[limit - 1] in ans;
    }
  }

  /** A full answer: the page is cut before the last row, whose predecessor gives the cursor. */
  lemma FullAnswer<R(!new)>(ix: Index<R>, rows: set<R>, cursor: Option<Text>, limit: nat, ans: seq<R>)
    requires ix.Valid() && limit >= 1 && Answers(ix, rows, cursor, limit + 1, ans) && |ans| == limit + 1
    ensures var items, last := ans[..limit], ans[limit - 1];
            && (forall r :: r in items ==> !ix.Before(last, r))
            && (forall r :: r in rows && ix.Above(cursor, r) && r !in items ==> !ix.Before(r, last))
            && ans[limit] in rows && ix.Above(cursor, ans[limit]) && ans[limit] !in items
  {
    var items, last := ans[..limit], ans[limit - 1];
    assert ans[limit] in ans;
    forall r | r in rows && ix.Above(cursor, r) && r !in items
      ensures !ix.Before(r, last)
    {
      if r in ans {
        assert r == ans[limit];
      }
    }
  }

  /** What one page tells about the table, without mention of the query. */
  lemma PageMeaning<R(!new)>(ix: Index<R>, rows: set<R>, cursor: Option<Text>, limit: nat, page: Page<R>)
    requires ix.Valid() && limit >= 1 && IsPage(ix, rows, cursor, limit, page)
    ensures Distinct(page.items) && ix.Sorted(page.items)
    ensures forall r :: r in page.items ==> r in rows && ix.Above(cursor, r)
    ensures page.next.None? ==>
              |page.items| <= limit && forall r :: r in rows && ix.Above(cursor, r) ==> r in page.items
    ensures page.next.Some? ==>
              && |page.items| == limit
              && page.next.value == ix.key(page.items[limit - 1])
              && (forall r :: r in page.items ==> !ix.lt(page.next.value, ix.key(r)))
              && (forall r :: r in rows && ix.Above(cursor, r) && r !in page.items ==> !ix.lt(ix.key(r), page.next.value))
              && (exists r :: r in rows && ix.Above(cursor, r) && r !in page.items)
  {
    var ans :| Answers(ix, rows, cursor, limit + 1, ans) && Cut(ix, limit, ans) == Listed(page);
    if |ans| == limit + 1 {
      FullAnswer(ix, rows, cursor, limit, ans);
    }
  }

  // ---- Traversals ----

  /** One request of a client: the table at that moment, and what was asked and answered. */
  datatype Round<R> = Round(rows: set<R>, limit: nat, cursor: Option<Text>, page: Page<R>)

  ghost predicate Served<R(!new)>(ix: Index<R>, round: Round<R>) {
    round.limit >= 1 && IsPage(ix, round.rows, round.cursor, round.limit, round.page)
  }

  /** The request carries the cursor the one before returned; rows may have been created
      in between, and the limit may differ. */
  ghost predicate Follows<R>(prior: Round<R>, round: Round<R>) {
    prior.rows <= round.rows && prior.page.next.Some? && round.cursor == prior.page.next
  }

  ghost predicate Chained<R(!new)>(ix: Index<R>, rounds: seq<Round<R>>) {
    && (forall i :: 0 <= i < |rounds| ==> Served(ix, rounds[i]))
    && (forall i, j :: 0 <= i && j == i + 1 && j < |rounds| ==> Follows(rounds[i], rounds[j]))
  }

  ghost predicate Traversal<R(!new)>(ix: Index<R>, rounds: seq<Round<R>>) {
    rounds != [] && Chained(ix, rounds) && rounds[0].cursor == None
  }

  ghost predicate Complete<R(!new)>(rounds: seq<Round<R>>) {
    rounds != [] && rounds[|rounds| - 1].page.next == None
  }

  /** Everything the client was shown, in order. */
  function Shown<R>(rounds: seq<Round<R>>): seq<R> {
    if rounds == [] then [] else rounds[0].page.items + Shown(rounds[1..])
  }

  lemma ChainedTail<R(!new)>(ix: Index<R>, rounds: seq<Round<R>>, k: nat)
    requires Chained(ix, rounds) && k <= |rounds|
    ensures Chained(ix, rounds[k..])
  {
  }

  lemma RowsGrow<R(!new)>(ix: Index<R>, rounds: seq<Round<R>>, i: nat, j: nat)
    requires Chained(ix, rounds) && i <= j < |rounds|
    ensures rounds[i].rows <= rounds[j].rows
  {
    if i < j {
      RowsGrow(ix, rounds, i, j - 1);
    }
  }

  /** Everything shown from a request on lies above its cursor and exists in the end. */
  lemma {:induction false} ShownAbove<R(!new)>(ix: Index<R>, rounds: seq<Round<R>>)
    requires ix.Valid() && rounds != [] && Chained(ix, rounds)
    ensures forall r :: r in Shown(rounds) ==> ix.Above(rounds[0].cursor, r) && r in rounds[|rounds| - 1].rows
  {
    var first := rounds[0];
    PageMeaning(ix, first.rows, first.cursor, first.limit, first.page);
    RowsGrow(ix, rounds, 0, |rounds| - 1);
    if |rounds| > 1 {
      ChainedTail(ix, rounds, 1);
      ShownAbove(ix, rounds[1..]);
      assert rounds[1].cursor == first.page.next;
      assert first.page.items[first.limit - 1] in first.page.items;
    }
  }

  lemma DistinctConcat<T>(a: seq<T>, b: seq<T>)
    requires Distinct(a) && Distinct(b) && forall x :: x in a ==> x !in b
    ensures Distinct(a + b)
  {
    forall i, j | 0 <= i < j < |a + b|
      ensures (a + b)[i] != (a + b)[j]
    {
      if i < |a| <= j {
        assert a[i] in a && b[j - |a|] in b;
      }
    }
  }

  /** No row is shown twice, and rows come in key order. */
  lemma {:induction false} ShownInOrder<R(!new)>(ix: Index<R>, rounds: seq<Round<R>>)
    requires ix.Valid() && Chained(ix, rounds)
    ensures Distinct(Shown(rounds)) && ix.Sorted(Shown(rounds))
  {
    if rounds != [] {
      var first := rounds[0];
      var items, rest := first.page.items, Shown(rounds[1..]);
      PageMeaning(ix, first.rows, first.cursor, first.limit, first.page);
      ChainedTail(ix, rounds, 1);
      ShownInOrder(ix, rounds[1..]);
      if |rounds| > 1 {
        ShownAbove(ix, rounds[1..]);
        assert rounds[1].cursor == first.page.next;
        forall a, b | a in items && b in rest
          ensures ix.Before(a, b)
        {
          assert !ix.lt(first.page.next.value, ix.key(a)) && ix.lt(first.page.next.value, ix.key(b));
        }
      }
      DistinctConcat(items, rest);
      forall i, j | 0 <= i < j < |items + rest|
        ensures !ix.Before((items + rest)[j], (items + rest)[i])
      {
        if i < |items| <= j {
          assert items[i] in items && rest[j - |items|] in rest;
        }
      }
    }
  }

  /** `r` has the key of an issued cursor but was not on the page that issued it. */
  ghost predicate Skipped<R(!new)>(ix: Index<R>, rounds: seq<Round<R>>, r: R) {
    exists j :: 0 <= j < |rounds| && rounds[j].page.next == Some(ix.key(r)) && r !in rounds[j].page.items
  }

  /** What is on the first page is not skipped. */
  lemma FirstPageShown<R(!new)>(ix: Index<R>, rounds: seq<Round<R>>, r: R)
    requires ix.Valid() && Chained(ix, rounds) && rounds != [] && r in rounds[0].page.items
    ensures r in Shown(rounds) && !Skipped(ix, rounds, r)
  {
    var first := rounds[0];
    PageMeaning(ix, first.rows, first.cursor, first.limit, first.page);
    if |rounds| > 1 {
      assert Follows(first, rounds[1]);
      ChainedTail(ix, rounds, 1);
      CursorsAbove(ix, rounds[1..], first.page.next.value);
      assert forall j :: 0 < j < |rounds| ==> rounds[j] == rounds[1..][j - 1];
    }
  }

  /** A row left over by the first page lies above its cursor or has the cursor's key. */
  lemma LeftOver<R(!new)>(ix: Index<R>, rounds: seq<Round<R>>, r: R)
    requires ix.Valid() && Chained(ix, rounds) && |rounds| > 1
    requires r in rounds[0].rows && ix.Above(rounds[0].cursor, r) && r !in rounds[0].page.items
    ensures rounds[0].page.next == Some(ix.key(r)) || (ix.Above(rounds[1].cursor, r) && r in rounds[1].rows)
  {
    var first := rounds[0];
    PageMeaning(ix, first.rows, first.cursor, first.limit, first.page);
    assert Follows(first, rounds[1]);
  }

  /** Coverage, ties or not, inserts or not: of the rows that exist at a request and lie
      above its cursor, a traversal completed from there shows all but the skipped ones. */
  lemma {:induction false} Coverage<R(!new)>(ix: Index<R>, rounds: seq<Round<R>>, r: R)
    requires ix.Valid() && Chained(ix, rounds) && Complete(rounds)
    requires r in rounds[0].rows && ix.Above(rounds[0].cursor, r)
    ensures r in Shown(rounds) <==> !Skipped(ix, rounds, r)
  {
    var first := rounds[0];
    if r in first.page.items {
      FirstPageShown(ix, rounds, r);
    } else if |rounds| == 1 {
      PageMeaning(ix, first.rows, first.cursor, first.limit, first.page);
      assert false;
    } else {
      assert Follows(first, rounds[1]);
      LeftOver(ix, rounds, r);
      ChainedTail(ix, rounds, 1);
      if first.page.next == Some(ix.key(r)) {
        ShownAbove(ix, rounds[1..]);
      } else {
        Coverage(ix, rounds[1..], r);
        SkippedTail(ix, rounds, r);
      }
    }
  }

  lemma SkippedTail<R(!new)>(ix: Index<R>, rounds: seq<Round<R>>, r: R)
    requires rounds != [] && rounds[0].page.next != Some(ix.key(r))
    ensures Skipped(ix, rounds, r) <==> Skipped(ix, rounds[1..], r)
  {
    if Skipped(ix, rounds, r) {
      var j :| 0 <= j < |rounds| && rounds[j].page.next == Some(ix.key(r)) && r !in rounds[j].page.items;
      assert rounds[1..][j - 1] == rounds[j];
    }
    if Skipped(ix, rounds[1..], r) {
      var j :| 0 <= j < |rounds[1..]| && rounds[1..][j].page.next == Some(ix.key(r)) && r !in rounds[1..][j].page.items;
      assert rounds[j + 1] == rounds[1..][j];
    }
  }

  /** Cursors only rise. */
  lemma {:induction false} CursorsAbove<R(!new)>(ix: Index<R>, rounds: seq<Round<R>>, c: Text)
    requires ix.Valid() && rounds != [] && Chained(ix, rounds) && rounds[0].cursor == Some(c)
    ensures forall j :: 0 <= j < |rounds| && rounds[j].page.next.Some? ==> ix.lt(c, rounds[j].page.next.value)
  {
    var first := rounds[0];
    PageMeaning(ix, first.rows, first.cursor, first.limit, first.page);
    if first.page.next.Some? {
      assert first.page.items[first.limit - 1] in first.page.items;
      assert ix.lt(c, first.page.next.value);
    }
    if |rounds| > 1 {
      ChainedTail(ix, rounds, 1);
      assert Follows(first, rounds[1]);
      CursorsAbove(ix, rounds[1..], first.page.next.value);
      forall j | 0 < j < |rounds| && rounds[j].page.next.Some?
        ensures ix.lt(c, rounds[j].page.next.value)
      {
        assert rounds[1..][j - 1] == rounds[j];
      }
    }
  }

  /** On a unique column the row with a cursor's key is on the page that issued the cursor. */
  lemma OwnCursor<R(!new)>(ix: Index<R>, rounds: seq<Round<R>>, j: nat, r: R)
    requires ix.Valid() && Chained(ix, rounds) && j < |rounds|
    requires r in rounds[|rounds| - 1].rows && ix.UniqueKeys(rounds[|rounds| - 1].rows)
    requires rounds[j].page.next == Some(ix.key(r))
    ensures r in rounds[j].page.items
  {
    var round := rounds[j];
    PageMeaning(ix, round.rows, round.cursor, round.limit, round.page);
    RowsGrow(ix, rounds, j, |rounds| - 1);
    assert round.page.items[round.limit - 1] in round.page.items;
  }

  lemma NothingSkipped<R(!new)>(ix: Index<R>, rounds: seq<Round<R>>, r: R)
    requires ix.Valid() && Chained(ix, rounds) && rounds != [] && r in rounds[0].rows
    requires ix.UniqueKeys(rounds[|rounds| - 1].rows)
    ensures !Skipped(ix, rounds, r)
  {
    RowsGrow(ix, rounds, 0, |rounds| - 1);
    if Skipped(ix, rounds, r) {
      var j :| 0 <= j < |rounds| && rounds[j].page.next == Some(ix.key(r)) && r !in rounds[j].page.items;
      OwnCursor(ix, rounds, j, r);
    }
  }

  lemma {:induction false} ShownSplit<R(!new)>(rounds: seq<Round<R>>, k: nat)
    requires k <= |rounds|
    ensures Shown(rounds) == Shown(rounds[..k]) + Shown(rounds[k..])
  {
    if k == 0 {
      assert rounds[0..] == rounds;
    } else {
      ShownSplit(rounds[1..], k - 1);
      assert rounds[..k][1..] == rounds[1..][..k - 1];
      assert rounds[1..][k - 1..] == rounds[k..];
    }
  }

  lemma ShownIsPresent<R(!new)>(ix: Index<R>, rounds: seq<Round<R>>, k: nat)
    requires ix.Valid() && Chained(ix, rounds) && 0 < k <= |rounds|
    ensures forall r :: r in Shown(rounds[..k]) ==> r in rounds[k - 1].rows
  {
    var head := rounds[..k];
    assert Chained(ix, head);
    ShownAbove(ix, head);
  }

  /** The tables the requests met. */
  ghost function Tables<R>(rounds: seq<Round<R>>): seq<set<R>> {
    seq(|rounds|, i requires 0 <= i < |rounds| => rounds[i].rows)
  }

  /** The row is in table `i` and was not in the one before. */
  ghost predicate Arrives<R(!new)>(tables: seq<set<R>>, i: nat, r: R)
    requires i < |tables|
  {
    r in tables[i] && (i > 0 ==> r !in tables[i - 1])
  }

  /** Following cursors on a unique column while other clients create rows: keys strictly
      rise, so no row comes twice; every row of the first request comes; and a row created
      while a cursor is outstanding comes exactly when its key is above that cursor. */
  lemma InterleavedTraversal<R(!new)>(ix: Index<R>, rounds: seq<Round<R>>)
    requires ix.Valid() && Traversal(ix, rounds) && Complete(rounds)
    requires ix.UniqueKeys(rounds[|rounds| - 1].rows)
    ensures ix.StrictlySorted(Shown(rounds))
    ensures forall r :: r in rounds[0].rows ==> r in Shown(rounds)
    ensures forall i, r :: 0 < i < |rounds| && Arrives(Tables(rounds), i, r) ==>
              (r in Shown(rounds) <==> ix.lt(rounds[i].cursor.value, ix.key(r)))
    ensures forall r :: r in Shown(rounds) ==> r in rounds[|rounds| - 1].rows
    ensures |rounds| <= if rounds[|rounds| - 1].rows == {} then 1 else |rounds[|rounds| - 1].rows|
  {
    ShownAbove(ix, rounds);
    ShownInOrder(ix, rounds);
    StrictFromUnique(ix, Shown(rounds), rounds[|rounds| - 1].rows);
    forall r | r in rounds[0].rows
      ensures r in Shown(rounds)
    {
      NothingSkipped(ix, rounds, r);
      Coverage(ix, rounds, r);
    }
    forall i, r | 0 < i < |rounds| && Arrives(Tables(rounds), i, r)
      ensures r in Shown(rounds) <==> ix.lt(rounds[i].cursor.value, ix.key(r))
    {
      CreatedRow(ix, rounds, i, r);
    }
    RoundsBound(ix, rounds);
  }

  lemma StrictFromUnique<R(!new)>(ix: Index<R>, s: seq<R>, rows: set<R>)
    requires ix.Valid() && ix.Sorted(s) && Distinct(s) && ix.UniqueKeys(rows)
    requires forall r :: r in s ==> r in rows
    ensures ix.StrictlySorted(s)
  {
  }

  /** What is left to come from request `i` on. */
  lemma ShownFrom<R(!new)>(ix: Index<R>, rounds: seq<Round<R>>, i: nat, r: R)
    requires ix.Valid() && Chained(ix, rounds) && Complete(rounds) && i < |rounds| && r in rounds[i].rows
    ensures r in Shown(rounds[i..]) <==> ix.Above(rounds[i].cursor, r) && !Skipped(ix, rounds[i..], r)
  {
    var rest := rounds[i..];
    ChainedTail(ix, rounds, i);
    assert rest[0] == rounds[i] && rest[|rest| - 1] == rounds[|rounds| - 1];
    ShownAbove(ix, rest);
    if ix.Above(rounds[i].cursor, r) {
      Coverage(ix, rest, r);
    }
  }

  /** Ties, inserts and all: a row that arrives by request `i` comes exactly when it lies above
      that request's cursor and is not skipped from there on. */
  lemma {:induction false} ArrivedRow<R(!new)>(ix: Index<R>, rounds: seq<Round<R>>, i: nat, r: R)
    requires ix.Valid() && Chained(ix, rounds) && Complete(rounds) && i < |rounds| && Arrives(Tables(rounds), i, r)
    ensures r in Shown(rounds) <==> ix.Above(rounds[i].cursor, r) && !Skipped(ix, rounds[i..], r)
  {
    ShownFrom(ix, rounds, i, r);
    ShownSplit(rounds, i);
    if i > 0 {
      ShownIsPresent(ix, rounds, i);
    }
  }

  lemma {:induction false} NothingSkippedFrom<R(!new)>(ix: Index<R>, rounds: seq<Round<R>>, i: nat, r: R)
    requires ix.Valid() && Chained(ix, rounds) && i < |rounds| && r in rounds[i].rows
    requires ix.UniqueKeys(rounds[|rounds| - 1].rows)
    ensures !Skipped(ix, rounds[i..], r)
  {
    var rest := rounds[i..];
    ChainedTail(ix, rounds, i);
    assert rest[0] == rounds[i] && rest[|rest| - 1] == rounds[|rounds| - 1];
    NothingSkipped(ix, rest, r);
  }

  lemma {:induction false} CreatedRow<R(!new)>(ix: Index<R>, rounds: seq<Round<R>>, i: nat, r: R)
    requires ix.Valid() && Traversal(ix, rounds) && Complete(rounds)
    requires ix.UniqueKeys(rounds[|rounds| - 1].rows)
    requires 0 < i < |rounds| && Arrives(Tables(rounds), i, r)
    ensures r in Shown(rounds) <==> ix.lt(rounds[i].cursor.value, ix.key(r))
  {
    ArrivedRow(ix, rounds, i, r);
    NothingSkippedFrom(ix, rounds, i, r);
  }

  // ---- Counting ----

  ghost function LimitSum<R>(rounds: seq<Round<R>>): nat {
    if rounds == [] then 0 else rounds[0].limit + LimitSum(rounds[1..])
  }

  /** Every page but the last is full. */
  lemma {:induction false} ShownLength<R(!new)>(ix: Index<R>, rounds: seq<Round<R>>)
    requires ix.Valid() && rounds != [] && Chained(ix, rounds)
    ensures var last := |rounds| - 1;
            |Shown(rounds)| == LimitSum(rounds[..last]) + |rounds[last].page.items|
    ensures LimitSum(rounds[..|rounds| - 1]) >= |rounds| - 1
  {
    if |rounds| > 1 {
      var rest := rounds[1..];
      FullPage(ix, rounds, 0);
      ChainedTail(ix, rounds, 1);
      ShownLength(ix, rest);
      assert rest[|rest| - 1] == rounds[|rounds| - 1];
      assert rounds[..|rounds| - 1][1..] == rest[..|rest| - 1];
    }
  }

  /** A page with a successor is full. */
  lemma FullPage<R(!new)>(ix: Index<R>, rounds: seq<Round<R>>, i: nat)
    requires ix.Valid() && Chained(ix, rounds) && i < |rounds| - 1
    ensures |rounds[i].page.items| == rounds[i].limit
  {
    var round := rounds[i];
    PageMeaning(ix, round.rows, round.cursor, round.limit, round.page);
    assert Follows(round, rounds[i + 1]);
  }

  /** On a unique column the page after a cursor is never empty. */
  lemma LaterPageNonEmpty<R(!new)>(ix: Index<R>, rounds: seq<Round<R>>, i: nat)
    requires ix.Valid() && Chained(ix, rounds) && 0 < i < |rounds|
    requires ix.UniqueKeys(rounds[|rounds| - 1].rows)
    ensures rounds[i].page.items != []
  {
    var prior, here := rounds[i - 1], rounds[i];
    PageMeaning(ix, prior.rows, prior.cursor, prior.limit, prior.page);
    PageMeaning(ix, here.rows, here.cursor, here.limit, here.page);
    var next := prior.page.next.value;
    var r :| r in prior.rows && ix.Above(prior.cursor, r) && r !in prior.page.items;
    var last := prior.page.items[prior.limit - 1];
    assert last in prior.page.items;
    RowsGrow(ix, rounds, i - 1, |rounds| - 1);
    assert ix.key(last) != ix.key(r);
    assert ix.lt(next, ix.key(r));
    assert r in here.rows && ix.Above(here.cursor, r);
  }

  lemma ShownCount<R(!new)>(ix: Index<R>, rounds: seq<Round<R>>)
    requires ix.Valid() && rounds != [] && Chained(ix, rounds)
    ensures |Shown(rounds)| <= |rounds[|rounds| - 1].rows|
  {
    ShownAbove(ix, rounds);
    ShownInOrder(ix, rounds);
    DistinctCount(Shown(rounds));
    SubsetCount(Elements(Shown(rounds)), rounds[|rounds| - 1].rows);
  }

  /** Ties and inserts allowed, there is at most one request more than rows in the end. */
  lemma RoundsAtMost<R(!new)>(ix: Index<R>, rounds: seq<Round<R>>)
    requires ix.Valid() && rounds != [] && Chained(ix, rounds)
    ensures |rounds| <= |rounds[|rounds| - 1].rows| + 1
  {
    ShownLength(ix, rounds);
    ShownCount(ix, rounds);
  }

  lemma RoundsBound<R(!new)>(ix: Index<R>, rounds: seq<Round<R>>)
    requires ix.Valid() && rounds != [] && Chained(ix, rounds)
    requires ix.UniqueKeys(rounds[|rounds| - 1].rows)
    ensures |rounds| <= if rounds[|rounds| - 1].rows == {} then 1 else |rounds[|rounds| - 1].rows|
  {
    ShownLength(ix, rounds);
    ShownCount(ix, rounds);
    if |rounds| > 1 {
      LaterPageNonEmpty(ix, rounds, |rounds| - 1);
    }
  }

  // ---- Traversals of a fixed table ----

  ghost predicate Fixed<R(!new)>(rounds: seq<Round<R>>, rows: set<R>) {
    forall i :: 0 <= i < |rounds| ==> rounds[i].rows == rows
  }

  /** With ties, a traversal of a table that does not change omits exactly the rows whose
      key equals an issued cursor and that were not on the page that issued it. */
  lemma FixedTraversal<R(!new)>(ix: Index<R>, rows: set<R>, rounds: seq<Round<R>>)
    requires ix.Valid() && Traversal(ix, rounds) && Complete(rounds) && Fixed(rounds, rows)
    ensures Distinct(Shown(rounds)) && ix.Sorted(Shown(rounds))
    ensures forall r :: r in Shown(rounds) <==> r in rows && !Skipped(ix, rounds, r)
    ensures ix.UniqueKeys(rows) ==> Elements(Shown(rounds)) == rows
    ensures |rounds| <= |rows| + 1
  {
    ShownInOrder(ix, rounds);
    ShownAbove(ix, rounds);
    ShownLength(ix, rounds);
    ShownCount(ix, rounds);
    forall r | r in rows
      ensures r in Shown(rounds) <==> !Skipped(ix, rounds, r)
      ensures ix.UniqueKeys(rows) ==> r in Shown(rounds)
    {
      Coverage(ix, rounds, r);
      if ix.UniqueKeys(rows) {
        NothingSkipped(ix, rounds, r);
      }
    }
  }

  lemma TiePages<R(!new)>(ix: Index<R>, a: R, b: R)
    requires ix.Valid() && a != b && ix.key(a) == ix.key(b)
    ensures IsPage(ix, {a, b}, None, 1, Page([a], Some(ix.key(a))))
    ensures IsPage(ix, {a, b}, Some(ix.key(a)), 1, Page([], None))
  {
    assert Answers(ix, {a, b}, None, 2, [a, b]);
    assert Answers(ix, {a, b}, Some(ix.key(a)), 2, []);
    assert [a, b][..1] == [a];
    assert Cut(ix, 1, [a, b]) == Listed(Page([a], Some(ix.key(a))));
    assert Cut(ix, 1, []) == Listed(Page([], None));
  }

  /** A concrete loss: with a limit of one, the second of two rows with one key is never
      shown. */
  lemma TieLost<R(!new)>(ix: Index<R>, a: R, b: R) returns (rounds: seq<Round<R>>)
    requires ix.Valid() && a != b && ix.key(a) == ix.key(b)
    ensures Traversal(ix, rounds) && Complete(rounds) && Fixed(rounds, {a, b}) && Shown(rounds) == [a]
    ensures TieAcross(ix, {a, b}, 1, 1, ix.key(a))
  {
    assert Below(ix, {a, b}, ix.key(a)) == {} && UpTo(ix, {a, b}, Some(ix.key(a))) == {a, b};
    TiePages(ix, a, b);
    var k := Some(ix.key(a));
    rounds := [Round({a, b}, 1, None, Page([a], k)), Round({a, b}, 1, k, Page([], None))];
    assert Shown(rounds[1..]) == [] + Shown(rounds[1..][1..]);
  }

  ghost predicate SameLimits<R(!new)>(rounds: seq<Round<R>>, limit: nat) {
    forall i :: 0 <= i < |rounds| ==> rounds[i].limit == limit
  }

  lemma {:induction false} LimitSumConstant<R(!new)>(rounds: seq<Round<R>>, limit: nat)
    requires SameLimits(rounds, limit)
    ensures LimitSum(rounds) == |rounds| * limit
  {
    if rounds != [] {
      LimitSumConstant(rounds[1..], limit);
      assert |rounds| * limit == limit + (|rounds| - 1) * limit;
    }
  }

  /** The last page holds a row unless the table is empty, and no more than the limit. */
  lemma LastPage<R(!new)>(ix: Index<R>, rounds: seq<Round<R>>)
    requires ix.Valid() && Chained(ix, rounds) && Complete(rounds)
    requires ix.UniqueKeys(rounds[|rounds| - 1].rows)
    ensures |rounds[|rounds| - 1].page.items| <= rounds[|rounds| - 1].limit
    ensures |rounds| > 1 ==> rounds[|rounds| - 1].page.items != []
  {
    var last := rounds[|rounds| - 1];
    PageMeaning(ix, last.rows, last.cursor, last.limit, last.page);
    if |rounds| > 1 {
      LaterPageNonEmpty(ix, rounds, |rounds| - 1);
    }
  }

  /** `n` full pages and a last one of `tail` rows: the page count is `rows / limit`, rounded
      up. */
  lemma PageCount(n: nat, tail: nat, limit: nat, rows: nat)
    requires rows == n * limit + tail && tail <= limit && limit >= 1 && (n > 0 ==> tail > 0)
    ensures if rows == 0 then n == 0 else n * limit < rows <= (n + 1) * limit
  {
  }

  /** How many rows so many requests with one limit show, given the last page. */
  lemma RowsShown<R(!new)>(ix: Index<R>, limit: nat, rounds: seq<Round<R>>)
    requires ix.Valid() && rounds != [] && Chained(ix, rounds) && SameLimits(rounds, limit)
    ensures |Shown(rounds)| == (|rounds| - 1) * limit + |rounds[|rounds| - 1].page.items|
  {
    ShownLength(ix, rounds);
    LimitSumConstant(rounds[..|rounds| - 1], limit);
  }

  lemma AllInOrder<R(!new)>(ix: Index<R>, rows: set<R>, rounds: seq<Round<R>>)
    requires ix.Valid() && Traversal(ix, rounds) && Complete(rounds) && Fixed(rounds, rows) && ix.UniqueKeys(rows)
    ensures ix.StrictlySorted(Shown(rounds)) && Elements(Shown(rounds)) == rows && |Shown(rounds)| == |rows|
  {
    FixedTraversal(ix, rows, rounds);
    StrictFromUnique(ix, Shown(rounds), rows);
    DistinctCount(Shown(rounds));
  }

  /** A constant limit on a unique column: the number of requests is the number of rows
      over the limit, rounded up, and one for an empty table; every page but the last is
      full; together the pages are the table in order. */
  lemma ConstantLimit<R(!new)>(ix: Index<R>, rows: set<R>, limit: nat, rounds: seq<Round<R>>)
    requires ix.Valid() && Traversal(ix, rounds) && Complete(rounds) && Fixed(rounds, rows)
    requires ix.UniqueKeys(rows) && limit >= 1 && SameLimits(rounds, limit)
    ensures if |rows| == 0 then |rounds| == 1 else (|rounds| - 1) * limit < |rows| <= |rounds| * limit
    ensures forall i :: 0 <= i < |rounds| - 1 ==> |rounds[i].page.items| == limit
    ensures ix.StrictlySorted(Shown(rounds)) && Elements(Shown(rounds)) == rows
  {
    AllInOrder(ix, rows, rounds);
    RowsShown(ix, limit, rounds);
    LastPage(ix, rounds);
    PageCount(|rounds| - 1, |rounds[|rounds| - 1].page.items|, limit, |rows|);
    forall i | 0 <= i < |rounds| - 1
      ensures |rounds[i].page.items| == limit
    {
      FullPage(ix, rounds, i);
    }
  }

  // ---- When ties do no harm ----

  /** The rows a request with this cursor does not ask for. */
  ghost function UpTo<R(!new)>(ix: Index<R>, rows: set<R>, cursor: Option<Text>): set<R> {
    set r | r in rows && !ix.Above(cursor, r)
  }

  ghost function Below<R(!new)>(ix: Index<R>, rows: set<R>, c: Text): set<R> {
    set r | r in rows && ix.lt(ix.key(r), c)
  }

  /** The rows with key `c` lie on both sides of the end of the `k`-th page. */
  ghost predicate TieAcross<R(!new)>(ix: Index<R>, rows: set<R>, limit: nat, k: nat, c: Text) {
    |Below(ix, rows, c)| < k * limit < |UpTo(ix, rows, Some(c))|
  }

  /** No group of equal keys lies across the end of a page: a condition on table and limit. */
  ghost predicate TiesFit<R(!new)>(ix: Index<R>, rows: set<R>, limit: nat) {
    forall k: nat, c: Text :: !TieAcross(ix, rows, limit, k, c)
  }

  /** How the rows up to a page's next cursor compare with those asked for so far. */
  lemma RowsBelow<R(!new)>(ix: Index<R>, rows: set<R>, cursor: Option<Text>, limit: nat, page: Page<R>)
    requires ix.Valid() && limit >= 1 && IsPage(ix, rows, cursor, limit, page) && page.next.Some?
    ensures |page.items| == limit
    ensures var done := UpTo(ix, rows, cursor) + Elements(page.items);
            && Below(ix, rows, page.next.value) <= done - {page.items[limit - 1]}
            && done <= UpTo(ix, rows, page.next)
            && forall r :: r in UpTo(ix, rows, page.next) && r !in done ==> ix.key(r) == page.next.value
  {
    PageMeaning(ix, rows, cursor, limit, page);
    var last, next := page.items[limit - 1], page.next.value;
    assert last in page.items;
    forall r | r in UpTo(ix, rows, cursor)
      ensures ix.lt(ix.key(r), next)
    {
      assert ix.lt(cursor.value, next);
    }
  }

  lemma PageCountsFull<R(!new)>(ix: Index<R>, rows: set<R>, cursor: Option<Text>, limit: nat, page: Page<R>)
    requires ix.Valid() && limit >= 1 && IsPage(ix, rows, cursor, limit, page) && page.next.Some?
    ensures |UpTo(ix, rows, cursor) + Elements(page.items)| == |UpTo(ix, rows, cursor)| + limit
  {
    PageMeaning(ix, rows, cursor, limit, page);
    DistinctCount(page.items);
    assert UpTo(ix, rows, cursor) !! Elements(page.items);
  }

  /** What a page with a next cursor adds to the rows already asked for. */
  lemma PageAdds<R(!new)>(ix: Index<R>, rows: set<R>, cursor: Option<Text>, limit: nat, page: Page<R>)
    requires ix.Valid() && limit >= 1 && IsPage(ix, rows, cursor, limit, page) && page.next.Some?
    ensures var done := UpTo(ix, rows, cursor) + Elements(page.items);
            && |done| == |UpTo(ix, rows, cursor)| + limit
            && done <= UpTo(ix, rows, page.next)
            && |Below(ix, rows, page.next.value)| < |done|
            && (done == UpTo(ix, rows, page.next)
                <==> forall r :: r in rows && ix.key(r) == page.next.value ==> r in page.items)
  {
    var done := UpTo(ix, rows, cursor) + Elements(page.items);
    PageCountsFull(ix, rows, cursor, limit, page);
    RowsBelow(ix, rows, cursor, limit, page);
    var last := page.items[limit - 1];
    assert last in page.items;
    SubsetCount(Below(ix, rows, page.next.value), done - {last});
    GroupShown(ix, rows, cursor, limit, page);
  }

  lemma GroupShown<R(!new)>(ix: Index<R>, rows: set<R>, cursor: Option<Text>, limit: nat, page: Page<R>)
    requires ix.Valid() && limit >= 1 && IsPage(ix, rows, cursor, limit, page) && page.next.Some?
    ensures UpTo(ix, rows, cursor) + Elements(page.items) == UpTo(ix, rows, page.next)
       <==> forall r :: r in rows && ix.key(r) == page.next.value ==> r in page.items
  {
    RowsBelow(ix, rows, cursor, limit, page);
    PageMeaning(ix, rows, cursor, limit, page);
    var last := page.items[limit - 1];
    assert last in page.items;
    forall r | r in rows && ix.key(r) == page.next.value
      ensures r in UpTo(ix, rows, page.next) && r !in UpTo(ix, rows, cursor)
    {
      assert ix.Above(cursor, last);
    }
  }

  /** Each full page ends where a group of equal keys ends. */
  ghost predicate PagesFit<R(!new)>(ix: Index<R>, rows: set<R>, limit: nat, rounds: seq<Round<R>>) {
    forall i: nat :: i < |rounds| ==> |UpTo(ix, rows, rounds[i].cursor)| == i * limit
  }

  /** One page, with the pages before it fitting. */
  lemma NextPageFits<R(!new)>(ix: Index<R>, rows: set<R>, limit: nat, rounds: seq<Round<R>>, i: nat)
    requires ix.Valid() && Chained(ix, rounds) && Fixed(rounds, rows) && SameLimits(rounds, limit)
    requires i < |rounds| - 1 && |UpTo(ix, rows, rounds[i].cursor)| == i * limit
    ensures var next := rounds[i + 1].cursor;
            && next.Some? && next == rounds[i].page.next
            && |Below(ix, rows, next.value)| < (i + 1) * limit <= |UpTo(ix, rows, next)|
            && (|UpTo(ix, rows, next)| == (i + 1) * limit
                <==> forall r :: r in rows && ix.key(r) == next.value ==> r in rounds[i].page.items)
  {
    var round := rounds[i];
    assert Follows(round, rounds[i + 1]);
    PageAdds(ix, rows, round.cursor, limit, round.page);
    var done, next := UpTo(ix, rows, round.cursor) + Elements(round.page.items), UpTo(ix, rows, round.page.next);
    assert (i + 1) * limit == i * limit + limit;
    SubsetCount(done, next);
    SameCount(done, next);
  }

  lemma SameCount<T>(a: set<T>, b: set<T>)
    requires a <= b
    ensures a == b <==> |a| == |b|
  {
    assert b == a + (b - a);
  }

  lemma {:induction false} FitStep<R(!new)>(ix: Index<R>, rows: set<R>, limit: nat, rounds: seq<Round<R>>, i: nat)
    requires ix.Valid() && Traversal(ix, rounds) && Fixed(rounds, rows) && SameLimits(rounds, limit)
    requires i < |rounds|
    requires TiesFit(ix, rows, limit) || forall r :: r in rows ==> !Skipped(ix, rounds, r)
    ensures |UpTo(ix, rows, rounds[i].cursor)| == i * limit
  {
    if i == 0 {
      assert UpTo(ix, rows, None) == {};
    } else {
      FitStep(ix, rows, limit, rounds, i - 1);
      NextPageFits(ix, rows, limit, rounds, i - 1);
      var c := rounds[i].cursor.value;
      if |UpTo(ix, rows, Some(c))| > i * limit {
        assert TieAcross(ix, rows, limit, i, c);
      }
    }
  }

  /** Fitting pages skip nothing. */
  lemma FitSkipsNothing<R(!new)>(ix: Index<R>, rows: set<R>, limit: nat, rounds: seq<Round<R>>, r: R)
    requires ix.Valid() && Traversal(ix, rounds) && Complete(rounds) && Fixed(rounds, rows) && SameLimits(rounds, limit)
    requires PagesFit(ix, rows, limit, rounds) && r in rows
    ensures !Skipped(ix, rounds, r)
  {
    if Skipped(ix, rounds, r) {
      var j :| 0 <= j < |rounds| && rounds[j].page.next == Some(ix.key(r)) && r !in rounds[j].page.items;
      NextPageFits(ix, rows, limit, rounds, j);
    }
  }

  /** Rows below `c` and rows up to `c` do not lie on both sides of a cursor. */
  lemma NoTieAtCursor<R(!new)>(ix: Index<R>, rows: set<R>, cursor: Text, c: Text)
    requires ix.Valid()
    ensures |UpTo(ix, rows, Some(c))| <= |UpTo(ix, rows, Some(cursor))|
         || |UpTo(ix, rows, Some(cursor))| <= |Below(ix, rows, c)|
  {
    if ix.lt(cursor, c) {
      SubsetCount(UpTo(ix, rows, Some(cursor)), Below(ix, rows, c));
    } else {
      SubsetCount(UpTo(ix, rows, Some(c)), UpTo(ix, rows, Some(cursor)));
    }
  }

  lemma PastTheEnd(k: nat, pages: nat, limit: nat)
    requires pages <= k
    ensures pages * limit <= k * limit
  {
  }

  /** Fitting pages have no tie across them: before the end of page `k` come whole groups. */
  lemma FitHasNoTie<R(!new)>(ix: Index<R>, rows: set<R>, limit: nat, rounds: seq<Round<R>>, k: nat, c: Text)
    requires ix.Valid() && Traversal(ix, rounds) && PagesFit(ix, rows, limit, rounds) && |rows| <= |rounds| * limit
    ensures !TieAcross(ix, rows, limit, k, c)
  {
    if k >= |rounds| {
      PastTheEnd(k, |rounds|, limit);
      SubsetCount(UpTo(ix, rows, Some(c)), rows);
    } else if k > 0 {
      assert Follows(rounds[k - 1], rounds[k]);
      NoTieAtCursor(ix, rows, rounds[k].cursor.value, c);
    }
  }

  /** Whether a constant-limit traversal of a fixed table shows everything is settled by table
      and limit, whatever order the database gives to ties: it does exactly when no group of
      equal keys lies across the end of a page. */
  lemma NothingLostIff<R(!new)>(ix: Index<R>, rows: set<R>, limit: nat, rounds: seq<Round<R>>)
    requires ix.Valid() && Traversal(ix, rounds) && Complete(rounds) && Fixed(rounds, rows) && SameLimits(rounds, limit)
    ensures Elements(Shown(rounds)) == rows <==> TiesFit(ix, rows, limit)
  {
    FixedTraversal(ix, rows, rounds);
    if TiesFit(ix, rows, limit) {
      forall i: nat | i < |rounds|
        ensures |UpTo(ix, rows, rounds[i].cursor)| == i * limit
      {
        FitStep(ix, rows, limit, rounds, i);
      }
      forall r | r in rows
        ensures r in Shown(rounds)
      {
        FitSkipsNothing(ix, rows, limit, rounds, r);
      }
    }
    if Elements(Shown(rounds)) == rows {
      AllShownFits(ix, rows, limit, rounds);
    }
  }

  lemma AllShownFits<R(!new)>(ix: Index<R>, rows: set<R>, limit: nat, rounds: seq<Round<R>>)
    requires ix.Valid() && Traversal(ix, rounds) && Complete(rounds) && Fixed(rounds, rows) && SameLimits(rounds, limit)
    requires Elements(Shown(rounds)) == rows
    ensures TiesFit(ix, rows, limit)
  {
    FixedTraversal(ix, rows, rounds);
    forall r | r in rows
      ensures !Skipped(ix, rounds, r)
    {
      assert r in Elements(Shown(rounds));
    }
    forall i: nat | i < |rounds|
      ensures |UpTo(ix, rows, rounds[i].cursor)| == i * limit
    {
      FitStep(ix, rows, limit, rounds, i);
    }
    AllCounted(ix, rows, limit, rounds);
    forall k: nat, c: Text
      ensures !TieAcross(ix, rows, limit, k, c)
    {
      FitHasNoTie(ix, rows, limit, rounds, k, c);
    }
  }

  lemma AllCounted<R(!new)>(ix: Index<R>, rows: set<R>, limit: nat, rounds: seq<Round<R>>)
    requires ix.Valid() && Traversal(ix, rounds) && Complete(rounds) && SameLimits(rounds, limit)
    requires Elements(Shown(rounds)) == rows
    ensures |rows| <= |rounds| * limit
  {
    var last := |rounds| - 1;
    ShownInOrder(ix, rounds);
    DistinctCount(Shown(rounds));
    RowsShown(ix, limit, rounds);
    var end := rounds[last];
    PageMeaning(ix, end.rows, end.cursor, end.limit, end.page);
    OneMorePage(last, limit);
  }

  lemma OneMorePage(n: nat, limit: nat)
    ensures (n + 1) * limit == n * limit + limit
  {
  }

  /** Unique keys always fit. */
  lemma UniqueFits<R(!new)>(ix: Index<R>, rows: set<R>, limit: nat)
    requires ix.Valid() && ix.UniqueKeys(rows)
    ensures TiesFit(ix, rows, limit)
  {
    forall k: nat, c: Text
      ensures !TieAcross(ix, rows, limit, k, c)
    {
      var below, upTo := Below(ix, rows, c), UpTo(ix, rows, Some(c));
      if r :| r in upTo && r !in below {
        assert ix.key(r) == c;
        assert upTo == below + {r};
      } else {
        assert upTo <= below;
        SubsetCount(upTo, below);
      }
    }
  }

  lemma ElementsEmpty<T>(s: seq<T>)
    ensures Elements(s) == {} <==> s == []
  {
    if s != [] {
      assert s[0] in Elements(s);
    }
  }

  /** There is one way to list a set in strict order. */
  lemma {:induction false} SortedUnique<R(!new)>(ix: Index<R>, s: seq<R>, t: seq<R>)
    requires ix.Valid() && ix.StrictlySorted(s) && ix.StrictlySorted(t) && Elements(s) == Elements(t)
    ensures s == t
  {
    ElementsEmpty(s);
    ElementsEmpty(t);
    if s != [] && t != [] {
      assert s[0] in Elements(t) && t[0] in Elements(s);
      var i :| 0 <= i < |t| && t[i] == s[0];
      var j :| 0 <= j < |s| && s[j] == t[0];
      assert s[0] == t[0];
      forall x
        ensures x in s[1..] <==> x in t[1..]
      {
        if x in s[1..] {
          var k :| 1 <= k < |s| && s[k] == x;
          assert x in Elements(s) && ix.Before(s[0], s[k]);
        }
        if x in t[1..] {
          var k :| 1 <= k < |t| && t[k] == x;
          assert x in Elements(t) && ix.Before(t[0], t[k]);
        }
      }
      assert Elements(s[1..]) == Elements(t[1..]);
      SortedUnique(ix, s[1..], t[1..]);
      assert s == [s[0]] + s[1..] && t == [t[0]] + t[1..];
    }
  }

  // ---- The database can always answer, and every traversal can be completed ----

  lemma Least<R(!new)>(ix: Index<R>, rows: set<R>) returns (least: R)
    requires ix.Valid() && rows != {}
    ensures least in rows && forall r :: r in rows ==> !ix.Before(r, least)
  {
    least :| least in rows;
    var first, rest := least, rows - {least};
    if rest != {} {
      var other := Least(ix, rest);
      if ix.Before(other, first) {
        least := other;
      }
    }
    forall r | r in rows
      ensures !ix.Before(r, least)
    {
      assert r == first || r in rest;
    }
  }

  lemma {:induction false} SomeAnswer<R(!new)>(ix: Index<R>, rows: set<R>, cursor: Option<Text>, max: nat)
    returns (ans: seq<R>)
    requires ix.Valid()
    ensures Answers(ix, rows, cursor, max, ans)
    decreases max
  {
    var matching := Matching(ix, rows, cursor);
    assert forall r :: r in rows && ix.Above(cursor, r) ==> r in matching;
    if max == 0 || matching == {} {
      ans := [];
    } else {
      var least := Least(ix, matching);
      var rest := SomeAnswer(ix, rows - {least}, cursor, max - 1);
      ans := [least] + rest;
      forall r | r in rest
        ensures r in matching && r != least
      {
      }
      assert forall i, j :: 0 <= i < j < |ans| ==> ans[i] != ans[j] && !ix.Before(ans[j], ans[i]);
      forall r | r in rows && ix.Above(cursor, r) && r !in ans
        ensures |ans| == max && forall i :: 0 <= i < |ans| ==> !ix.Before(r, ans[i])
      {
        assert r in rows - {least} && r in matching && r !in rest;
        forall i | 0 <= i < |ans|
          ensures !ix.Before(r, ans[i])
        {
          if i > 0 {
            assert ans[i] == rest[i - 1];
          }
        }
      }
    }
  }

  lemma ChainedCons<R(!new)>(ix: Index<R>, first: Round<R>, rest: seq<Round<R>>)
    requires Served(ix, first) && Chained(ix, rest) && rest != [] && Follows(first, rest[0])
    ensures Chained(ix, [first] + rest)
  {
  }

  ghost function Matching<R(!new)>(ix: Index<R>, rows: set<R>, cursor: Option<Text>): set<R> {
    set r | r in rows && ix.Above(cursor, r)
  }

  /** The measure of a traversal: every page leaves fewer rows above the cursor. */
  lemma FewerAbove<R(!new)>(ix: Index<R>, rows: set<R>, cursor: Option<Text>, limit: nat, page: Page<R>)
    requires ix.Valid() && limit >= 1 && IsPage(ix, rows, cursor, limit, page) && page.next.Some?
    ensures |Matching(ix, rows, page.next)| < |Matching(ix, rows, cursor)|
  {
    PageMeaning(ix, rows, cursor, limit, page);
    var here, above := Matching(ix, rows, cursor), Matching(ix, rows, page.next);
    var last := page.items[limit - 1];
    assert last in page.items && last in here && last !in above;
    assert above <= here - {last};
    SubsetCount(above, here - {last});
  }

  /** From every cursor there is a chain of requests that ends. */
  lemma {:induction false} CompletionExists<R(!new)>(ix: Index<R>, rows: set<R>, cursor: Option<Text>, limit: nat)
    returns (rounds: seq<Round<R>>)
    requires ix.Valid() && limit >= 1
    ensures rounds != [] && rounds[0].cursor == cursor
    ensures Chained(ix, rounds) && Complete(rounds) && Fixed(rounds, rows)
    ensures SameLimits(rounds, limit)
    decreases |Matching(ix, rows, cursor)|
  {
    var ans := SomeAnswer(ix, rows, cursor, limit + 1);
    var page := Cut(ix, limit, ans).page;
    var first := Round(rows, limit, cursor, page);
    assert IsPage(ix, rows, cursor, limit, page);
    if page.next.None? {
      rounds := [first];
    } else {
      FewerAbove(ix, rows, cursor, limit, page);
      var rest := CompletionExists(ix, rows, page.next, limit);
      rounds := [first] + rest;
      ChainedCons(ix, first, rest);
    }
  }
}
