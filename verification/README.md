# Verification of the record collection services

Two services share a PostgreSQL database. The API (Python) keeps artists, labels and records and
lists them page by page; after committing an artist it publishes the artist's id. The consumer
(TypeScript) reads the id, asks Discogs about the artist and stores what it finds in an extra row.
A script sets the database up, and tears it down again in test mode. This project models these
parts in Dafny and proves what holds over whole traversals, whole runs of the two services and
whole histories of the script. `dafny verify dfyconfig.toml` checks everything.

## Modules

| module | models |
|---|---|
| `Prelude`, `Joining` | shared datatypes; joining and splitting sequences |
| `Base64Url`, `JsonText`, `CursorToken` | the cursor token: base64url bytes, JSON text, both together |
| `Keyset` | one page of a listing, and traversals that follow its cursors |
| `QueryLink`, `Routes`, `Listings` | `nextLink`, the list routes, and clients that follow links |
| `Catalog` | artists and labels: tables with unique names, the shared service |
| `ErrorBody`, `Records` | the 400 body; records with their references and four sort orders |
| `Enrichment` | Discogs' answers, the extra row, the consumer's service |
| `Protocol`, `Producer`, `ConsumerSteps` | create, publish, deliver, enrich as interleaved steps; the two services' methods against these steps |
| `Cluster`, `DbInit` | the database cluster, the script's tasks and runs |
| `DbConvergence`, `DbSafety`, `DbTeardown` | interrupted and repeated setups; what no history can do; setup followed by teardown |

## How things are modelled

- A table is a finite map from ids to rows. A collation is any strict total order on strings. The
  database may order rows with equal keys in any way, another one for each query.
- A Python string is a sequence of code points, lone surrogates included; bytes are integers below
  256. Base64 decoding is the scan that CPython's non-strict decoder makes.
- UUID text is any partial parser that reads back what was printed.
- What another party decides is a parameter: the database's answer to a query, the constraint it
  names, the id it generates, whether a commit, a refresh or a publishing fails, Discogs' reply.
- The services run as interleaved steps. The broker may drop, reorder and duplicate messages, any
  number of handlers may be in flight, and a request or a handler may end after any step. Saving an
  extra row inserts or replaces it atomically.
- A run of the script has a budget of tasks for each phase; when it is used up the process dies. The
  first phase commits task by task, the other two commit once or not at all.
- A database carries a number that its creation gave it, so that a database created anew under an
  old name is another one.

## Findings

- The cursor round trip fails for strings with a high surrogate followed by a low one, and only for
  those (`CursorToken.RoundTripIff`). Such strings cannot come out of the database.
- A records token shown to the artists or labels listing, or the other way round, is silently read
  as "no cursor" (`CursorToken.ForeignTokenRestarts`).
- Listing with limit 0 is an `IndexError` unless no row matches; with a negative limit always an
  error (`Keyset.CutSucceedsIff`).
- Records with equal sort keys can be lost between pages (`Keyset.TieLost`). A listing is complete
  exactly when no group of equal keys lies across the end of a page (`Keyset.NothingLostIff`,
  `Listings.RecordsCrawl`).
- A row whose name parses as a UUID is not found by its name unless the UUID is its own id
  (`Catalog.FindStored`).
- Setup can be repeated without effect except, in test mode, with one user for both roles: the
  second run then makes a second marker (`DbConvergence.RunAgainIff`, `DbConvergence.FreshSetup`,
  `DbConvergence.SharedUserNotRepeatable`).
- In test mode setup fails exactly when the marker has no place to go: no schema on the admin's
  search path, or its name taken by something that is no table (`DbConvergence.CompletesIff`).
- With a schema named like the admin user the marker is created where the superuser does not look,
  and teardown skips the database (`DbTeardown.TeardownUndoesSetup`,
  `DbTeardown.OwnNamedSchemaNotTornDown`); `DbTeardown.TeardownAfterSetup` gives the condition for
  any start.
- Where code and tests disagree the code is followed: the message about missing references reads
  "Artists not found [..]", as the unit tests of the service have it, without the colon that the
  router and integration tests write.

## Model

| member | source | states |
|---|---|---|
| `Keyset.CutSucceedsIff` | services/api/src/shared/service.py:49-59 | listing works for every positive limit, for limit 0 exactly when no row lies above the cursor, and for no negative one; otherwise `items[-1]` meets an empty slice or the database refuses the LIMIT |
| `Keyset.PageMeaning` | services/api/src/shared/service.py:49-59 | a page is sorted, distinct and above its cursor; without a next cursor it holds every row above the cursor; with one it is full, ends in the cursor's key, and everything left over sorts at or behind that key and is not empty |
| `Keyset.ShownAbove` | services/api/src/shared/service.py:50-52 | whatever is shown from a request on lies above that request's cursor and exists in the end |
| `Keyset.ShownInOrder` | services/api/src/shared/service.py:50-57 | over any chain of requests, with rows created in between and ties in any order, no row is shown twice and keys never fall |
| `Keyset.CursorsAbove` | services/api/src/shared/service.py:51-57 | cursors only rise |
| `Keyset.Coverage` | services/api/src/modules/records/service.py:153-170 | of the rows above the cursor of a request, the rest of a completed traversal shows exactly those that are not skipped by a tie |
| `Keyset.NothingSkipped` | services/api/src/modules/artists/models.py:33-36 | with a unique column no row is skipped |
| `Keyset.CreatedRow` | services/api/src/shared/service.py:50-57 | a row created while a cursor is outstanding is shown exactly when its key lies above that cursor |
| `Keyset.InterleavedTraversal` | services/api/src/shared/service.py:46-59 | a whole traversal of a unique column while other clients create rows: keys strictly rise, all rows of the first request come, created ones come exactly when they sort behind the outstanding cursor, and the number of requests is bounded by the rows in the end |
| `Keyset.FixedTraversal` | services/api/src/modules/records/service.py:153-170 | on a fixed table with ties and any limits, shown are exactly the rows that do not share the key of an issued cursor without being on the page that issued it; all of them when keys are unique |
| `Keyset.ArrivedRow` | services/api/src/modules/records/service.py:153-170 | with ties and inserts, a row that arrives by some request is shown exactly when it lies above that request's cursor and is not skipped from there on |
| `Keyset.NothingLostIff` | services/api/src/modules/records/service.py:153-170 | a constant-limit traversal of a fixed table shows every row exactly when no group of equal keys lies across the end of a page, a condition on table and limit alone, whatever order the database gives to ties |
| `Keyset.UniqueFits` | services/api/src/modules/artists/models.py:33-36 | with a unique column that condition always holds |
| `Keyset.TieLost` | services/api/src/modules/records/models.py:77-84 | two records with one key and a limit of one: a complete traversal that shows one of them only; the group lies across the end of the first page |
| `Keyset.ConstantLimit` | services/api/src/shared/service.py:49-59 | on a fixed unique column with limit L the number of requests is max(1, ceil(n/L)), every page but the last holds L rows, and together the pages are the table in strict order |
| `Keyset.SortedUnique` | services/api/src/shared/service.py:49 | there is one strictly ordered listing of a set of rows, so the pages together are the sorted table |
| `Keyset.SomeAnswer` | services/api/src/shared/service.py:49-54 | the query always has an answer that meets the model's conditions |
| `Keyset.FewerAbove` | services/api/src/shared/service.py:55-57 | each page with a next cursor leaves strictly fewer rows above the cursor: the measure of a traversal |
| `Keyset.CompletionExists` | services/api/src/shared/service.py:46-59 | from every cursor a chain of requests leads to a page without a next cursor |
| `Base64Url.EncodeIsUnpadded` | services/api/src/modules/artists/router.py:105 | padding and stripping comes to encoding without padding (section 3.2 of RFC 4648) |
| `Base64Url.EncodedShape` | services/api/src/modules/artists/router.py:105-107 | the stripped form of n bytes has ceil(4n/3) bytes, never one more than a multiple of four, all of them unreserved in URLs |
| `Base64Url.DecodeEncode` | services/api/src/modules/artists/router.py:105-112 | decoding with "===" appended recovers every byte string |
| `Base64Url.Alphabet` | services/api/src/modules/artists/router.py:105 | the alphabet by position, in its literal letters, digits and two marks (section 5 of RFC 4648) |
| `Base64Url.NoiseIgnored` | services/api/src/modules/artists/router.py:112 | a byte outside the alphabets that is no pad makes no difference anywhere in a token |
| `Base64Url.DecodableLengths` | services/api/src/modules/artists/router.py:111-112 | over the token alphabet the decoder takes exactly the strings whose length is not one more than a multiple of four |
| `JsonText.DumpIsAscii` | services/api/src/modules/artists/router.py:101-103 | the JSON text is printable ASCII for every string, so encoding it as UTF-8 changes nothing |
| `JsonText.EscapeShort` | services/api/src/modules/artists/router.py:103 | the seven characters with a short escape, literally (section 7 of RFC 8259) |
| `JsonText.EscapeLong` | services/api/src/modules/artists/router.py:103 | every other character: itself in printable ASCII, else one or two units of lower-case digits |
| `JsonText.DumpPlain` | services/api/src/modules/artists/router.py:103 | the JSON text of an object with one plain member, literally, with the one space behind the colon |
| `JsonText.ReadShort` | services/api/src/modules/artists/router.py:113 | the eight short escapes a reader knows |
| `JsonText.ReadPlain` | services/api/src/modules/artists/router.py:113 | plain characters are read as they are, control characters are refused |
| `JsonText.JoinedShrinks` | services/api/src/modules/artists/router.py:113 | reading back keeps a string exactly when it has no high surrogate right before a low one |
| `JsonText.ReadEscapedText` | services/api/src/modules/artists/router.py:103-113 | reading an escaped string literal gives the string with its surrogate pairs joined (section 7 of RFC 8259) |
| `JsonText.LoadDumped` | services/api/src/modules/artists/router.py:103-115 | loading the dumped one-member object gives its name and value, surrogate pairs joined |
| `CursorToken.DecodeEncoded` | services/api/src/modules/records/router.py:69-84 | what any of the three routers reads from a token written by any of them |
| `CursorToken.TokenLiteral` | services/api/src/modules/records/router.py:69-76 | the token of a plain key is the encoding of a literal text, for both member names |
| `CursorToken.UnreadableToken` | services/api/src/modules/artists/router.py:111-113 | the empty token and tokens of a length no encoding has cannot be read |
| `CursorToken.RoundTripIff` | services/api/src/modules/artists/router.py:100-115 | for every Python string, `decode_token(encode_cursor(s)) == s` holds exactly when no high surrogate is followed by a low one |
| `CursorToken.RoundTripFails` | services/api/src/modules/artists/router.py:100-115 | a string of two surrogates that comes back as one character |
| `CursorToken.RoundTrip` | services/api/src/modules/artists/router.py:100-115 | every string of Unicode scalar values survives the round trip |
| `JsonText.EscapeJoined` | services/api/src/modules/artists/router.py:103 | a surrogate pair is escaped like the character it stands for |
| `CursorToken.SameTokenIff` | services/api/src/modules/artists/router.py:100-107 | two strings share their token exactly when joining surrogate pairs makes them the same |
| `CursorToken.EncodeInjective` | services/api/src/modules/artists/router.py:100-107 | different strings without split pairs have different tokens |
| `CursorToken.ForeignTokenRestarts` | services/api/src/modules/records/router.py:79-84 | a records token given to the artists or labels router, or the other way round, reads as no cursor: the listing starts again |
| `QueryLink.UnquoteQuoted` | services/api/src/modules/artists/router.py:135 | quoting and unquoting a parameter gives it back, and a quoted one holds no separator |
| `QueryLink.QuoteLiteral` | services/api/src/modules/artists/router.py:135 | what quoting writes for every byte, literally: plus for a space, upper-case digits for what is reserved |
| `QueryLink.ParseUrlEncoded` | services/api/src/modules/artists/router.py:135 | parsing an encoded query gives back all its parameters in order |
| `QueryLink.QuotedToken` | services/api/src/modules/records/router.py:116 | a token is left as it is by quoting (section 2.3 of RFC 3986) |
| `QueryLink.ParsePrintedInt` | services/api/src/modules/artists/router.py:135 | the limit printed into a link is parsed back |
| `Routes.LinkCarriesCursor` | services/api/src/modules/artists/router.py:131-136 | following `nextLink` asks for the same limit, repeats the route's sort parameter and hands over a token that decodes to the key of the last row |
| `Routes.LinkText` | services/api/src/modules/artists/router.py:133-136 | the link of an artists or labels listing, literally |
| `Routes.SortedLinkText` | services/api/src/modules/records/router.py:112-117 | the link of a records listing, literally |
| `Routes.ServedIff` | services/api/src/shared/service.py:49-59 | a request is answered with a page exactly when its token can be read and the limit is positive, or zero with nothing to show |
| `Routes.TokenIsUrlSafe` | services/api/src/modules/artists/router.py:100-107 | every cursor token appears in a link unescaped |
| `Routes.AnsweredRound` | services/api/src/modules/artists/router.py:125-138 | one answered request is a page of the keyset theory; link and cursor are present together |
| `Routes.CrawlIsTraversal` | services/api/src/modules/artists/router.py:118-145 | a client that follows links makes a keyset traversal with one limit throughout |
| `Listings.ListNamed` | services/api/src/modules/labels/router.py:73-100 | the artists and labels routes: an error for an unreadable token, else the page by sort name, the token of its last key and the literal link; equal to the route function that the crawl theorems are about |
| `Listings.ListRecords` | services/api/src/modules/records/router.py:87-127 | the records route: by artist and year when the request names no option, by the named column for each literal option value, with the option repeated in the literal link; else as above |
| `Listings.OrderAsked` | services/api/src/modules/records/router.py:93-109 | the order of a reply, by the literal value of the sort parameter or its absence |
| `Listings.FixedCrawl` | services/api/src/modules/artists/router.py:118-145 | following links over an unchanging table collects every row once, in order, in max(1, ceil(n/limit)) requests |
| `Listings.GrowingCrawl` | services/api/src/modules/artists/router.py:118-145 | following links while rows are created: strict order, nothing of the first table lost, newcomers exactly when they sort behind the token at hand |
| `Listings.OneOrder` | services/api/src/modules/records/router.py:93-116 | every request that follows a link asks for the sort order of the first request: each order is read from the request's own parameter |
| `Listings.RecordsCrawl` | services/api/src/modules/records/router.py:87-127 | following links over unchanging records: missing are exactly the records whose sort key is that of a token handed out and that were not in the answer that handed it out, and none is missing exactly when no group of equal keys lies across the end of a page |
| `Listings.GrowingRecordsCrawl` | services/api/src/modules/records/router.py:87-127 | following links while records are created: a record is collected exactly when it sorts behind the token of the visit it arrives by and is not lost to a tie from there on, and there is at most one request more than records in the end |
| `Listings.RowCount` | services/api/src/modules/artists/models.py:33-36 | a table has as many distinct rows as ids |
| `Catalog.Insert` | services/api/src/shared/service.py:38-44 | an insert keeps ids, names and sort names unique and every stored row, and adds the row exactly when no constraint is violated |
| `Catalog.FindAtMostOne` | services/api/src/shared/service.py:28-36 | a lookup matches one row at most, so `one_or_none` never raises |
| `Catalog.FindStored` | services/api/src/shared/service.py:28-36 | a stored row is found by its id always, and by its name exactly when the name does not parse as another UUID |
| `Catalog.FindExactly` | services/api/src/shared/service.py:28-36 | what any identifier finds: the row of the id it parses to, or else the row of that name, and nothing otherwise |
| `Catalog.SortNamesUnique` | services/api/src/modules/labels/models.py:21-24 | sort names are a unique column |
| `Catalog.BaseService.CreateItem` | services/api/src/shared/service.py:38-44 | stores the item exactly when name and sort name are free; a conflict leaves the table as it was and names an attribute that is taken |
| `Catalog.BaseService.GetBy` | services/api/src/shared/service.py:28-36 | an identifier that parses gives the row of that id or none, any other the row of that name, and none exactly when no row has the name |
| `Catalog.BaseService.List` | services/api/src/shared/service.py:46-59 | the page of the keyset theory, for every limit |
| `Records.MissingPositions` | services/api/src/modules/records/service.py:98-104 | the missing ids are the unknown ids of the request at rising positions, repeats included |
| `Records.ResolvedInOrder` | services/api/src/modules/records/service.py:98-104 | nothing is missing exactly when every id resolves, and then the resolved rows stand in request order |
| `Records.ReferencesReadBack` | services/api/src/modules/records/service.py:32-39 | the references can be read back out of the message |
| `Records.RecordService.Collect` | services/api/src/modules/records/service.py:98-104 | the loop over the ids of one kind, against the two specification functions |
| `Records.RecordService.Create` | services/api/src/modules/records/service.py:78-144 | all or nothing: stored, with references in request order, exactly when all resolve and the commit succeeds; else nothing changes |
| `Records.RecordService.List` | services/api/src/modules/records/service.py:146-170 | the page of the keyset theory by the chosen column, cursor read back through the attribute |
| `Records.RenderInvalid` | services/api/src/core/exceptions.py:118-147 | the body rendered from the raised errors has one detail a failing kind, artists before labels, with exactly the missing references |
| `Records.RenderedErrors` | services/api/src/core/exceptions.py:118-134 | rendering keeps the order of errors and their messages |
| `Records.RecordsHeading` | services/api/src/core/exceptions.py:112-116 | the heading of a failed POST to /records/ |
| `Records.PostRecord` | services/api/src/modules/records/router.py:42-66 | the route: the record is stored, with its references in request order, exactly when all resolve and the commit succeeds; else nothing is stored, and the body rendered from the raised errors names exactly the missing ids |
| `Records.CursorIsSortColumn` | services/api/src/modules/records/service.py:153-168 | for all four options the attribute read back as the cursor is the column ordered and filtered by |
| `Records.ParseSortMeaning` | services/api/src/modules/records/service.py:42-50 | an option is read from its own value and every other value means the first option |
| `Records.LinkKeepsSort` | services/api/src/modules/records/router.py:116 | the order read from a followed link is the order of the request that gave the link |
| `Records.RecordsRouteGood` | services/api/src/modules/records/router.py:116 | the extra parameter hides neither limit nor cursor |
| `ErrorBody.HeadingMeaning` | services/api/src/core/exceptions.py:112-116 | the heading for every method and first part of a path, literally |
| `ErrorBody.Render` | services/api/src/core/exceptions.py:108-147 | a body is made exactly when all kinds of error are known, with one detail an error, in order, saying what went wrong where |
| `Enrichment.EnrichArtist` | services/enrich/src/modules/shared/discogs/services/discogs.service.ts:30-46 | which replies count as found, as missing and as errors, and what is kept of a found artist |
| `Enrichment.PrimaryImages` | services/enrich/src/modules/shared/discogs/services/discogs.service.ts:43-45 | the kept images are the primary ones, in order, none left out |
| `Enrichment.WithDiscogsMeaning` | services/enrich/src/modules/artists/services/artists.service.ts:37-40 | only the `discogs` entry changes, and it becomes what was found |
| `Enrichment.LastFindingWins` | services/enrich/src/modules/artists/services/artists.service.ts:37-40 | a second finding leaves no trace of the first |
| `Enrichment.ArtistsService.Enrich` | services/enrich/src/modules/artists/services/artists.service.ts:22-44 | an artist with a Discogs id other than 0 is saved with what an accepted reply found, or the handler fails; without one the old row, or a new empty one, is saved; null integrations raise; only the `discogs` entry changes |
| `Enrichment.ArtistsService.HandleCreated` | services/enrich/src/modules/artists/controllers/artists.controller.ts:10-17 | a message for an unknown artist does nothing; for a known one the same as above, said of the stored artist |
| `Protocol.ArtistsKept` | services/api/src/modules/artists/service.py:109-123 | no step changes or removes a stored artist |
| `Protocol.StepSafe` | services/api/src/modules/artists/service.py:109-121 | every step of either service or of the broker keeps the safety invariant |
| `Protocol.RunSafe` | services/enrich/src/modules/artists/services/artists.service.ts:32 | in every reachable state each queued message names a stored artist with integrations, no handler reads `.discogs` of null, and no artist is lost |
| `Protocol.StaysFindable` | services/api/src/shared/service.py:28-36 | an artist stored at any point of a run is found in every later state, by id always, by name under the exact condition |
| `Protocol.CommitInFlight` | services/api/src/modules/artists/service.py:111-113 | a commit puts its artist in flight, beside those that were, exactly if it has integrations |
| `Protocol.ProceedAccounted` | services/api/src/modules/artists/service.py:113-119 | refresh and publish settle a request once, as a message or as a loss |
| `Protocol.RunAccounted` | services/api/src/modules/artists/service.py:109-121 | over any run the artists created with integrations split into published, lost and in flight |
| `Protocol.RecordIsHistory` | services/api/src/modules/artists/service.py:109-121 | created, accepted, lost, completed and told are exactly what a commit without conflict, a taken message, a failed refresh or publishing, a save and an answered fetch of the run have brought |
| `Protocol.PublishAccounting` | services/api/src/modules/artists/publisher.py:53-67 | messages taken by the broker belong to distinct stored artists with integrations; once no request is open there are as many as such artists less those lost, and just as many when no refresh and no publishing of the run fails |
| `Protocol.NothingLost` | services/api/src/modules/artists/publisher.py:56-67 | nothing is lost in a run without a failed refresh or publishing |
| `Protocol.ApiStepsDecide` | services/api/src/modules/artists/publisher.py:53-67 | two runs in which the API takes the same steps, but for which messages the broker takes, end with the same artists and open requests, whatever broker and consumer do in either: a failed publishing undoes no artist; extra rows may differ |
| `Protocol.RunFromAccepted` | services/api/src/modules/artists/service.py:115-119 | over any run every id that is queued, handled or completed is one whose message the broker took |
| `Protocol.EnrichedOnlyIfPublished` | services/api/src/modules/artists/service.py:96-99 | the extra row of an artist whose message the broker never took, or that was lost on the way, is the first one in every later state |
| `Protocol.QueueConserved` | services/api/src/modules/artists/publisher.py:59 | the messages for an artist in the queue are those accepted and duplicated less those dropped and delivered |
| `Protocol.StepConfined` | services/enrich/src/modules/artists/services/artists.service.ts:27-43 | every step keeps what enrichment may touch |
| `Protocol.EnrichmentConfined` | services/enrich/src/modules/artists/services/artists.service.ts:27-43 | over any run rows stay, their other entries stay, and a `discogs` entry is the first one or one that an accepted answer for this artist gave |
| `Protocol.ToldByFetch` | services/enrich/src/modules/shared/discogs/services/discogs.service.ts:30-46 | what counts as told of an artist is exactly the accepted answers to handlers that waited with this artist |
| `Protocol.StepConverges` | services/enrich/src/modules/artists/services/artists.service.ts:22-44 | every step keeps rows and handlers on the way to the one result |
| `Protocol.Convergence` | services/enrich/src/modules/artists/services/artists.service.ts:22-44 | however messages are lost, repeated and reordered and handlers overlap, with constant answers a row is what one undisturbed handler makes of the first row if any handler for it completed, and the first row if none did |
| `Protocol.CompletedSays` | services/enrich/src/modules/artists/services/artists.service.ts:32-43 | the row of a completed artist, read off the artist and the oracle: with a Discogs id other than 0 what Discogs says of this id, beside the other entries; without one the first row, or a new empty one |
| `Protocol.SameCompletionsSameRows` | services/enrich/src/modules/artists/services/artists.service.ts:22-44 | two runs with the same completed artists end with the same extra rows |
| `Producer.ArtistAsyncService.Create` | services/api/src/modules/artists/service.py:101-123 | stored unless a constraint is violated; a message goes out exactly when it was stored with integrations and neither refresh nor publishing failed; publishing never changes the answer |
| `Producer.SyncCreateIsStep` | services/api/src/shared/service.py:38-44 | the protocol's step of a synchronous create stores the artist exactly when name and sort name are free, and touches nothing else |
| `Producer.CreateIsSteps` | services/api/src/modules/artists/service.py:101-123 | the protocol's steps of one create, conflict, failed refresh and failed publishing included, do to table and queue what the method does |
| `ConsumerSteps.HandleIsSteps` | services/enrich/src/modules/artists/controllers/artists.controller.ts:10-17 | the protocol's steps of one handler do to the extra rows what the service method does |
| `ConsumerSteps.HandleAbsent` | services/enrich/src/modules/artists/controllers/artists.controller.ts:12-16 | a handler for an unknown artist ends after its first load and leaves no trace |
| `ConsumerSteps.HandleDies` | services/enrich/src/modules/artists/controllers/artists.controller.ts:12-16 | a handler that dies takes its message with it and leaves nothing else behind |
| `ConsumerSteps.HandleNull` | services/enrich/src/modules/artists/services/artists.service.ts:32 | a handler for an artist with null integrations comes to read `.discogs` of null; the extra rows stay |
| `Cluster.CreationIsFirst` | services/api/scripts/db_init.py:174 | an unqualified CREATE goes to the first schema on the search path that exists |
| `Cluster.ResolveIsFirst` | services/api/scripts/db_init.py:267 | an unqualified reference finds the first schema on the search path that has the relation |
| `DbInit.Server.RunTasks` | services/api/scripts/db_init.py:146-159 | tasks one by one take effect at once in autocommit mode, else together at the commit, wherever the process dies |
| `DbInit.Server.InitializeDb` | services/api/scripts/db_init.py:80-107 | the three phases, each only after the one before |
| `DbInit.SeenIsVisible` | services/api/scripts/db_init.py:265-274 | the marker query succeeds exactly when, of the schemas with a relation of that name, the first on the superuser's search path holds the marker |
| `DbInit.Server.CheckTestMode` | services/api/scripts/db_init.py:241-277 | the check passes exactly in test mode, with the database there and the marker in the first schema on the superuser's search path that has a relation of its name; without the database it raises in test mode only |
| `DbInit.Server.TeardownDb` | services/api/scripts/db_init.py:110-117 | the drop runs only after the check |
| `DbConvergence.UsersPhase` | services/api/scripts/db_init.py:205-238 | the first phase never fails by itself: cut short or not, what is left to prepare comes to the same state |
| `DbConvergence.AdminTasksInDatabase` | services/api/scripts/db_init.py:284-297 | the second phase changes the schemas of the target database and nothing else |
| `DbConvergence.SchemaTasks` | services/api/scripts/db_init.py:300-353 | what the eight tasks of the second phase make of the schemas together |
| `DbConvergence.MarkerStepForm` | services/api/scripts/db_init.py:162-202 | in test mode the marker lands in the first schema on the admin's search path; the step fails when there is none or the name is taken by something that is no table |
| `DbConvergence.SchemaPhaseSettles` | services/api/scripts/db_init.py:300-353 | after the second phase the schema serves the app user and in test mode the marker is in place |
| `DbConvergence.SchemaPhaseIdempotent` | services/api/scripts/db_init.py:162-202 | with one search path the second phase repeated changes nothing |
| `DbConvergence.SetupForm` | services/api/scripts/db_init.py:80-107 | the three ways a run can end, wherever it is cut short |
| `DbConvergence.CompletesIff` | services/api/scripts/db_init.py:162-202 | a run that is not cut short gets to its end always outside test mode, and in test mode exactly when the first schema on the admin's search path that will exist has the marker's name free or taken by a table |
| `DbConvergence.SetupGives` | services/api/scripts/db_init.py:306-353 | what a completed run gives away in the schema, privilege by privilege, and no more: usage, grants on every relation there was, and default privileges for those the admin will create |
| `DbConvergence.SetupMeans` | services/api/scripts/db_init.py:80-107 | what a run that got to its end has achieved, and that it changed nothing else |
| `DbConvergence.AbortedRunHarmless` | services/api/scripts/db_init.py:146-159 | after a run cut short anywhere a complete run ends as it would have at the start |
| `DbConvergence.CrashConvergence` | services/api/scripts/db_init.py:80-107 | after any number of runs cut short anywhere one complete run ends in the state of a single clean run |
| `DbConvergence.RunAgainIff` | services/api/scripts/db_init.py:80-107 | a further run changes nothing exactly under a condition on configuration and start: the case that fails is one user for both roles, in test mode, whose new search path moves the marker |
| `DbConvergence.FreshSetup` | services/api/scripts/db_init.py:80-107 | on a cluster that has never seen the configuration setup always completes, and whether it can be repeated shows in the configuration |
| `DbConvergence.SharedUserNotRepeatable` | services/api/scripts/db_init.py:380-385 | a configuration whose second run changes the cluster |
| `DbSafety.SetupStep` | services/api/scripts/db_init.py:80-107 | a setup drops nothing, takes no privilege away, and marks only its own database |
| `DbSafety.TeardownStep` | services/api/scripts/db_init.py:110-117 | a teardown changes nothing, or drops its own database in test mode with the marker in sight |
| `DbSafety.EventStep` | services/api/scripts/db_init.py:110-117 | every event keeps the invariant of markers and database numbers |
| `DbSafety.MarkedBySetup` | services/api/scripts/db_init.py:162-202 | a database is marked only by a test-mode setup that committed in it |
| `DbSafety.TeardownSafety` | services/api/scripts/db_init.py:110-117 | over any run of setups and teardowns in any modes, a database disappears only by a test-mode teardown configured for it, after a test-mode setup had committed its marker into that same creation of the database |
| `DbSafety.GrantedByDefaults` | services/api/scripts/db_init.py:314-353 | the grant on existing relations and the default privileges together give the app user the wanted privileges on every relation the admin owns |
| `DbSafety.RunCarries` | services/api/scripts/db_init.py:314-353 | a database that is still there kept its schemas, defaults and grants through every event |
| `DbSafety.GrantsHold` | services/api/scripts/db_init.py:314-353 | after a completed setup and any further events the app user has usage of the schema, SELECT, INSERT, UPDATE and DELETE on every table and USAGE and SELECT on every sequence in it that the admin owns, older, newer or still to come |
| `DbSafety.NewRelationServes` | services/api/scripts/db_init.py:330-353 | a table or sequence the admin creates at any later time is there, is the admin's, and serves the app user like the others |
| `DbTeardown.FreshMarkerVisible` | services/api/scripts/db_init.py:256-277 | after a completed test-mode setup of a fresh cluster the superuser sees the marker exactly under a condition on the configured names |
| `DbTeardown.TeardownUndoesSetup` | services/api/scripts/db_init.py:110-117 | teardown after such a setup restores the databases exactly under that condition, when the database is not `postgres`; else it changes nothing |
| `DbTeardown.TeardownAfterSetup` | services/api/scripts/db_init.py:110-117 | teardown after a completed test-mode setup from any start drops the database and nothing else exactly under a condition on the search paths and schemas before the setup; else it changes nothing |
| `DbTeardown.OwnNamedSchemaNotTornDown` | services/api/scripts/db_init.py:256-277 | a schema named like the admin user hides the marker, and teardown leaves the test database behind |

## Left out

- JsonText.LoadDumped: nothing is claimed of JSON documents other than ASCII objects with one string member; the model rejects them, the original may read some.
- Protocol.Convergence: Discogs' reply for an id is constant in this theorem only; the other protocol theorems hold for any replies.
- Protocol.PublishAccounting: broker acknowledgements and redelivery appear only as dropped and duplicated messages.
- Records.RecordService.Create: what the ORM does with an id repeated in one list is the parameter `commits`; rows of the association tables are not modelled.
- DbConvergence.AdminTasksInDatabase: a task the server refuses for lack of privileges appears only as a run that is cut short before it, and a schema is on a search path whether or not the role may use it.
- DbConvergence.SchemaPhaseSettles: the grant on existing relations reaches all of them here; of another owner's relation the server grants only what the admin may grant, with a warning.
- DbConvergence.SetupMeans: the same holds of its clause about the schema; the grant theorems speak of the admin's relations only.
- DbSafety.TeardownSafety: only setup makes a relation named `test_marker`, and no database is dropped or renamed by hand.
- DbSafety.GrantsHold: nobody revokes grants or drops schemas or roles by hand; relations come and go freely.
- A 404 of Discogs: the HTTP module's default makes it a failed call, while the service tests for it in a reply; both are possible replies here.
- The redirect from the link's path without a trailing slash to the route, the `Location` header, and the serialization of responses.
- The repeated cut to the limit in the labels route, which changes nothing after the service's own.
- The default limits of the listings, and the strings that name the codes of error details, which are an enumeration here.
- Field constraints of request bodies (trimming, minimum lengths, positive integers) and record lookup by id: library behaviour and a single map access.
- Passwords, environment variables, server addresses, and timestamps of extra rows and markers.
- Real collations, SQL text, UUID syntax, message headers, correlation ids and routing keys.
- Health checks, logging, dependency injection, migrations and settings: no deep property.
