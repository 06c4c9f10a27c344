/**
 Create, publish, enrich: the API commits artists and publishes their ids; the consumer
 handles the messages. Requests and handlers interleave step by step, the broker may drop,
 reorder and duplicate messages, and either side may stop at any point.
 */
module Protocol {
  import opened Prelude
  import opened Catalog
  import opened Enrichment

  /** An asynchronous create after its commit. */
  datatype Request = Request(id: Id, refreshed: bool)

  datatype Handler =
    | Received(id: Id)
    | Loaded(artist: Named)
    | Waiting(artist: Named, extra: Extra)
    | Ready(extra: Extra)
    | ReadOfNull

  /** The two services' shared state, and what has happened so far: which artists with
      integrations were committed by asynchronous creates, which messages the broker took,
      in order, which were never published, which artists had a handler complete, and what
      Discogs said of them. */
  datatype World = World(
    artists: Table,
    extras: Extras,
    queue: multiset<Id>,
    requests: map<nat, Request>,
    handlers: map<nat, Handler>,
    created: set<Id>,
    accepted: seq<Id>,
    lost: set<Id>,
    completed: set<Id>,
    told: set<(Id, Option<DiscogsArtist>)>)

  datatype Step =
    | SyncCreate(artist: Named)
    | AsyncCreate(req: nat, artist: Named)
    | Refresh(req: nat, ok: bool)
    | Publish(req: nat, taken: bool)
    | Deliver(h: nat, id: Id)
    | Drop(id: Id)
    | Duplicate(id: Id)
    | Load(h: nat)
    | Fetch(h: nat, reply: HttpReply)
    | Save(h: nat)
    | Die(h: nat)

  predicate HasIntegrations(t: Table, id: Id) {
    id in t && t[id].integrations.Some?
  }

  // The steps of each party; `None` when a step is not possible in this state.

  function Create(w: World, artist: Named): (r: Option<World>)
    ensures r.Some? ==> r.value == w.(artists := r.value.artists)
  {
    if artist.id in w.artists || artist.integrations.Some? then None
    else Some(w.(artists := Insert(w.artists, artist)))
  }

  /** A conflict is answered without a trace; otherwise the artist is committed. */
  function Commit(w: World, req: nat, artist: Named): (r: Option<World>)
    ensures r.Some? ==> r.value == w.(artists := r.value.artists, requests := r.value.requests, created := r.value.created)
  {
    if artist.id in w.artists || req in w.requests then None
    else if Violated(w.artists, artist) != {} then Some(w)
    else Some(w.(artists := Insert(w.artists, artist),
                 requests := w.requests[req := Request(artist.id, false)],
                 created := if artist.integrations.Some? then w.created + {artist.id} else w.created))
  }

  /** The request goes on refreshed, publishes, or ends without a message. */
  function Proceed(w: World, req: nat, s: Step): (r: Option<World>)
    requires s.Refresh? || s.Publish?
    ensures r.Some? ==> r.value == w.(requests := r.value.requests, queue := r.value.queue,
                                      accepted := r.value.accepted, lost := r.value.lost)
  {
    if req !in w.requests || w.requests[req].refreshed != s.Publish? then None
    else
      var id := w.requests[req].id;
      if s.Refresh? && s.ok then Some(w.(requests := w.requests[req := Request(id, true)]))
      else if s.Publish? && s.taken && HasIntegrations(w.artists, id) then
        Some(w.(requests := w.requests - {req}, queue := w.queue + multiset{id}, accepted := w.accepted + [id]))
      else Some(Unpublished(w, req, id))
  }

  function Broker(w: World, s: Step): (r: Option<World>)
    requires s.Deliver? || s.Drop? || s.Duplicate?
    ensures r.Some? ==> r.value == w.(queue := r.value.queue, handlers := r.value.handlers)
  {
    if s.id !in w.queue then None
    else match s
      case Drop(id) => Some(w.(queue := w.queue - multiset{id}))
      case Duplicate(id) => Some(w.(queue := w.queue + multiset{id}))
      case Deliver(h, id) =>
        if h in w.handlers then None
        else Some(w.(queue := w.queue - multiset{id}, handlers := w.handlers[h := Received(id)]))
  }

  function LoadNext(w: World, h: nat): (r: Option<World>)
    ensures r.Some? ==> r.value == w.(handlers := r.value.handlers)
  {
    if h !in w.handlers then None
    else match w.handlers[h]
      case Received(id) =>
        Some(w.(handlers := if id in w.artists then w.handlers[h := Loaded(w.artists[id])] else w.handlers - {h}))
      case Loaded(artist) =>
        var extra := FoundOrNew(artist.id, Row(w.extras, artist.id));
        Some(w.(handlers := w.handlers[h :=
          if artist.integrations.None? then ReadOfNull
          else if DiscogsId(artist.integrations.value).Some? then Waiting(artist, extra)
          else Ready(extra)]))
      case _ => None
  }

  function Ask(w: World, h: nat, reply: HttpReply): (r: Option<World>)
    ensures r.Some? ==> r.value == w.(handlers := r.value.handlers, told := r.value.told)
  {
    if h !in w.handlers || !w.handlers[h].Waiting? then None
    else
      var Waiting(artist, extra) := w.handlers[h];
      match EnrichArtist(reply)
      case Err(_) => Some(w.(handlers := w.handlers - {h}))
      case Ok(found) =>
        Some(w.(handlers := w.handlers[h := Ready(WithDiscogs(extra, found))],
                told := w.told + {(artist.id, found)}))
  }

  function Store(w: World, h: nat): (r: Option<World>)
    ensures r.Some? ==> r.value == w.(handlers := r.value.handlers, extras := r.value.extras, completed := r.value.completed)
  {
    if h !in w.handlers || !w.handlers[h].Ready? then None
    else
      var extra := w.handlers[h].extra;
      Some(w.(handlers := w.handlers - {h},
              extras := w.extras[extra.id := extra],
              completed := w.completed + {extra.id}))
  }

  function Next(w: World, s: Step): Option<World> {
    match s
    case SyncCreate(artist) => Create(w, artist)
    case AsyncCreate(req, artist) => Commit(w, req, artist)
    case Refresh(req, _) => Proceed(w, req, s)
    case Publish(req, _) => Proceed(w, req, s)
    case Deliver(_, _) => Broker(w, s)
    case Drop(_) => Broker(w, s)
    case Duplicate(_) => Broker(w, s)
    case Load(h) => LoadNext(w, h)
    case Fetch(h, reply) => Ask(w, h, reply)
    case Save(h) => Store(w, h)
    case Die(h) => if h in w.handlers then Some(w.(handlers := w.handlers - {h})) else None
  }

  /** A request that ends without a message. */
  function Unpublished(w: World, req: nat, id: Id): World {
    w.(requests := w.requests - {req}, lost := if HasIntegrations(w.artists, id) then w.lost + {id} else w.lost)
  }

  function Exec(w: World, steps: seq<Step>): Option<World> {
    if steps == [] then Some(w)
    else match Exec(w, steps[..|steps| - 1])
      case None => None
      case Some(w') => Next(w', steps[|steps| - 1])
  }

  /** Nothing in flight and nothing counted yet. */
  ghost predicate Initial(w: World) {
    && WellFormed(w.artists)
    && w.queue == multiset{} && w.requests == map[] && w.handlers == map[]
    && w.created == {} && w.accepted == [] && w.lost == {} && w.completed == {} && w.told == {}
    && forall id :: id in w.extras ==> id in w.artists && w.extras[id].id == id
  }

  // ---- Safety ----

  ghost predicate SafeHandler(t: Table, s: Handler) {
    match s
    case Received(id) => HasIntegrations(t, id)
    case Loaded(artist) => HasIntegrations(t, artist.id) && t[artist.id] == artist
    case Waiting(artist, extra) =>
      && HasIntegrations(t, artist.id) && t[artist.id] == artist
      && extra.id == artist.id && DiscogsId(artist.integrations.value).Some?
    case Ready(extra) => HasIntegrations(t, extra.id)
    case ReadOfNull => false
  }

  ghost predicate Safe(w: World) {
    && WellFormed(w.artists)
    && (forall id :: id in w.queue ==> HasIntegrations(w.artists, id))
    && (forall h :: h in w.handlers ==> SafeHandler(w.artists, w.handlers[h]))
    && (forall r :: r in w.requests ==> w.requests[r].id in w.artists)
    && (forall id :: id in w.extras ==> id in w.artists && w.extras[id].id == id)
  }

  ghost predicate Keeps(t: Table, t': Table) {
    forall id :: id in t ==> id in t' && t'[id] == t[id]
  }

  lemma ArtistsKept(w: World, s: Step)
    requires Next(w, s).Some?
    ensures Keeps(w.artists, Next(w, s).value.artists)
  {
  }

  lemma CreateSafe(w: World, w': World, artist: Named)
    requires Safe(w) && artist.id !in w.artists && w'.artists == Insert(w.artists, artist)
    requires w'.queue == w.queue && w'.handlers == w.handlers && w'.extras == w.extras
    requires forall r :: r in w'.requests ==> w'.requests[r].id in w'.artists
    ensures Safe(w')
  {
  }

  lemma ProceedSafe(w: World, req: nat, s: Step)
    requires Safe(w) && (s.Refresh? || s.Publish?) && Proceed(w, req, s).Some?
    ensures Safe(Proceed(w, req, s).value)
  {
  }

  lemma BrokerSafe(w: World, s: Step)
    requires Safe(w) && (s.Deliver? || s.Drop? || s.Duplicate?) && Broker(w, s).Some?
    ensures Safe(Broker(w, s).value)
  {
  }

  lemma LoadSafe(w: World, h: nat)
    requires Safe(w) && LoadNext(w, h).Some?
    ensures Safe(LoadNext(w, h).value)
  {
  }

  lemma AskSafe(w: World, h: nat, reply: HttpReply)
    requires Safe(w) && Ask(w, h, reply).Some?
    ensures Safe(Ask(w, h, reply).value)
  {
  }

  lemma StoreSafe(w: World, h: nat)
    requires Safe(w) && Store(w, h).Some?
    ensures Safe(Store(w, h).value)
  {
  }

  lemma StepSafe(w: World, s: Step)
    requires Safe(w) && Next(w, s).Some?
    ensures Safe(Next(w, s).value)
  {
    match s
    case SyncCreate(artist) => CreateSafe(w, Next(w, s).value, artist);
    case AsyncCreate(_, artist) =>
      if Violated(w.artists, artist) == {} {
        CreateSafe(w, Next(w, s).value, artist);
      }
    case Refresh(req, _) => ProceedSafe(w, req, s);
    case Publish(req, _) => ProceedSafe(w, req, s);
    case Deliver(_, _) => BrokerSafe(w, s);
    case Drop(_) => BrokerSafe(w, s);
    case Duplicate(_) => BrokerSafe(w, s);
    case Load(h) => LoadSafe(w, h);
    case Fetch(h, reply) => AskSafe(w, h, reply);
    case Save(h) => StoreSafe(w, h);
    case Die(_) =>
  }

  /** In every reachable state each queued message names a stored artist with integrations,
      no handler ever reads `.discogs` of null, there is one extra row an artist at most,
      and no artist is ever changed or lost. */
  lemma {:induction false} RunSafe(w0: World, steps: seq<Step>)
    requires Safe(w0) && Exec(w0, steps).Some?
    ensures Safe(Exec(w0, steps).value)
    ensures Keeps(w0.artists, Exec(w0, steps).value.artists)
  {
    if steps != [] {
      var last := |steps| - 1;
      RunSafe(w0, steps[..last]);
      StepSafe(Exec(w0, steps[..last]).value, steps[last]);
      ArtistsKept(Exec(w0, steps[..last]).value, steps[last]);
    }
  }

  lemma {:induction false} KeptSince(w0: World, steps: seq<Step>, k: nat)
    requires Exec(w0, steps).Some? && k <= |steps|
    ensures Exec(w0, steps[..k]).Some?
    ensures Keeps(Exec(w0, steps[..k]).value.artists, Exec(w0, steps).value.artists)
  {
    var last := |steps| - 1;
    if k == |steps| {
      assert steps[..k] == steps;
    } else {
      assert steps[..last][..k] == steps[..k];
      KeptSince(w0, steps[..last], k);
      ArtistsKept(Exec(w0, steps[..last]).value, steps[last]);
    }
  }

  /** An artist stored at some point of a run is found ever after: by its id, and by its name
      exactly when the name does not read as the UUID of something else. */
  lemma StaysFindable(w0: World, steps: seq<Step>, k: nat, format: UuidFormat, id: Id)
    requires Safe(w0) && Exec(w0, steps).Some? && k <= |steps| && format.Valid()
    requires Exec(w0, steps[..k]).Some? && id in Exec(w0, steps[..k]).value.artists
    ensures var row := Exec(w0, steps[..k]).value.artists[id];
            var later := Exec(w0, steps).value.artists;
            && Find(later, format, format.print_(id)) == {row}
            && (Find(later, format, row.name) == {row} <==> format.parse(row.name) in {None, Some(id)})
  {
    RunSafe(w0, steps);
    KeptSince(w0, steps, k);
    FindStored(Exec(w0, steps).value.artists, format, id);
  }

  // ---- What the API's own steps decide ----

  predicate OfApi(s: Step) {
    s.SyncCreate? || s.AsyncCreate? || s.Refresh? || s.Publish?
  }

  /** The same step, but for whether the broker takes the message. */
  predicate SameButTaken(one: Step, two: Step) {
    one == two || (one.Publish? && two.Publish? && one.req == two.req)
  }

  /** The artists, the open requests and the record of creations agree; queue, handlers and
      extra rows may differ. */
  ghost predicate LookAlike(a: World, b: World) {
    a.artists == b.artists && a.requests == b.requests && a.created == b.created
  }

  lemma PublishLooksAlike(a: World, b: World, req: nat, one: bool, two: bool)
    requires LookAlike(a, b) && Proceed(a, req, Publish(req, one)).Some? && Proceed(b, req, Publish(req, two)).Some?
    ensures LookAlike(Proceed(a, req, Publish(req, one)).value, Proceed(b, req, Publish(req, two)).value)
  {
  }

  lemma ApiLooksAlike(a: World, b: World, s: Step)
    requires LookAlike(a, b) && (s.SyncCreate? || s.AsyncCreate? || s.Refresh?) && Next(a, s).Some? && Next(b, s).Some?
    ensures LookAlike(Next(a, s).value, Next(b, s).value)
  {
  }

  lemma ConsumerUnseen(w: World, s: Step)
    requires !OfApi(s) && Next(w, s).Some?
    ensures LookAlike(w, Next(w, s).value)
  {
  }

  lemma StepHidesFault(a: World, b: World, one: Step, two: Step)
    requires LookAlike(a, b) && SameButTaken(one, two) && Next(a, one).Some? && Next(b, two).Some?
    ensures LookAlike(Next(a, one).value, Next(b, two).value)
  {
    match one
    case Publish(req, taken) => PublishLooksAlike(a, b, req, taken, two.taken);
    case SyncCreate(_) => ApiLooksAlike(a, b, one);
    case AsyncCreate(_, _) => ApiLooksAlike(a, b, one);
    case Refresh(_, _) => ApiLooksAlike(a, b, one);
    case _ =>
      ConsumerUnseen(a, one);
      ConsumerUnseen(b, one);
  }

  /** The steps the API takes in a run, without those of the broker and the consumer. */
  function ApiOf(steps: seq<Step>): seq<Step> {
    if steps == [] then []
    else
      var last := steps[|steps| - 1];
      ApiOf(steps[..|steps| - 1]) + if OfApi(last) then [last] else []
  }

  predicate SameApi(one: seq<Step>, two: seq<Step>) {
    && |ApiOf(one)| == |ApiOf(two)|
    && forall i :: 0 <= i < |ApiOf(one)| ==> SameButTaken(ApiOf(one)[i], ApiOf(two)[i])
  }

  lemma SameApiBefore(one: seq<Step>, two: seq<Step>)
    requires one != [] && two != [] && OfApi(one[|one| - 1]) && OfApi(two[|two| - 1]) && SameApi(one, two)
    ensures SameApi(one[..|one| - 1], two[..|two| - 1]) && SameButTaken(one[|one| - 1], two[|two| - 1])
  {
    var a, b := ApiOf(one[..|one| - 1]), ApiOf(two[..|two| - 1]);
    assert ApiOf(one) == a + [one[|one| - 1]] && ApiOf(two) == b + [two[|two| - 1]];
    forall i | 0 <= i < |a|
      ensures SameButTaken(a[i], b[i])
    {
      assert ApiOf(one)[i] == a[i] && ApiOf(two)[i] == b[i];
    }
    assert ApiOf(one)[|a|] == one[|one| - 1] && ApiOf(two)[|b|] == two[|two| - 1];
  }

  /** A failed publishing undoes no artist: two runs in which the API takes the same steps, but
      for which messages the broker takes, end with the same artists and open requests, whatever
      broker and consumer do in either of them. What differs is the enrichment: see
      `EnrichedOnlyIfPublished`. */
  lemma {:induction false} ApiStepsDecide(w0: World, one: seq<Step>, two: seq<Step>)
    requires Exec(w0, one).Some? && Exec(w0, two).Some? && SameApi(one, two)
    ensures LookAlike(Exec(w0, one).value, Exec(w0, two).value)
    decreases |one| + |two|
  {
    var i, j := |one| - 1, |two| - 1;
    if one != [] && !OfApi(one[i]) {
      ApiStepsDecide(w0, one[..i], two);
      ConsumerUnseen(Exec(w0, one[..i]).value, one[i]);
    } else if two != [] && !OfApi(two[j]) {
      ApiStepsDecide(w0, one, two[..j]);
      ConsumerUnseen(Exec(w0, two[..j]).value, two[j]);
    } else if one != [] {
      SameApiBefore(one, two);
      ApiStepsDecide(w0, one[..i], two[..j]);
      StepHidesFault(Exec(w0, one[..i]).value, Exec(w0, two[..j]).value, one[i], two[j]);
    }
  }

  // ---- What the counts stand for ----

  /** What may be on record of an artist. */
  datatype Fact = Created | Accepted | Lost | Completed | Told(found: Option<DiscogsArtist>)

  ghost predicate OnRecord(f: Fact, w: World, id: Id) {
    match f
    case Created => id in w.created
    case Accepted => id in w.accepted
    case Lost => id in w.lost
    case Completed => id in w.completed
    case Told(found) => (id, found) in w.told
  }

  /** The request of this number is about the artist, which has integrations. */
  predicate OpenFor(w: World, req: nat, id: Id) {
    req in w.requests && w.requests[req].id == id && HasIntegrations(w.artists, id)
  }

  /** The step that puts a fact on record: a commit that meets no conflict, a message taken, a
      refresh or a publishing that failed, a save, an answer to a handler that waits with this
      artist. */
  ghost predicate Brings(f: Fact, w: World, s: Step, id: Id) {
    match f
    case Created =>
      s.AsyncCreate? && s.artist.id == id && s.artist.integrations.Some? && Violated(w.artists, s.artist) == {}
    case Accepted => s.Publish? && s.taken && OpenFor(w, s.req, id)
    case Lost => ((s.Refresh? && !s.ok) || (s.Publish? && !s.taken)) && OpenFor(w, s.req, id)
    case Completed => s.Save? && s.h in w.handlers && w.handlers[s.h].Ready? && w.handlers[s.h].extra.id == id
    case Told(found) => Replied(w, s, id, found)
  }

  /** A fetch for a handler that waits with this artist, answered like this. */
  ghost predicate Replied(w: World, s: Step, id: Id, found: Option<DiscogsArtist>) {
    && s.Fetch? && s.h in w.handlers && w.handlers[s.h].Waiting? && w.handlers[s.h].artist.id == id
    && EnrichArtist(s.reply) == Ok(found)
  }

  lemma ApiRecords(f: Fact, w: World, s: Step, id: Id)
    requires OfApi(s) && Next(w, s).Some?
    ensures OnRecord(f, Next(w, s).value, id) <==> OnRecord(f, w, id) || Brings(f, w, s, id)
  {
  }

  lemma OthersRecord(f: Fact, w: World, s: Step, id: Id)
    requires !OfApi(s) && Next(w, s).Some?
    ensures OnRecord(f, Next(w, s).value, id) <==> OnRecord(f, w, id) || Brings(f, w, s, id)
  {
  }

  lemma StepRecords(f: Fact, w: World, s: Step, id: Id)
    requires Next(w, s).Some?
    ensures OnRecord(f, Next(w, s).value, id) <==> OnRecord(f, w, id) || Brings(f, w, s, id)
  {
    if OfApi(s) {
      ApiRecords(f, w, s, id);
    } else {
      OthersRecord(f, w, s, id);
    }
  }

  ghost predicate BroughtAt(f: Fact, w0: World, steps: seq<Step>, i: int, id: Id) {
    0 <= i < |steps| && Exec(w0, steps[..i]).Some? && Brings(f, Exec(w0, steps[..i]).value, steps[i], id)
  }

  ghost predicate Brought(f: Fact, w0: World, steps: seq<Step>, id: Id) {
    exists i :: BroughtAt(f, w0, steps, i, id)
  }

  /** What is on record in the end was brought by a step of the run, and the other way round:
      the fields that count say what happened and nothing else. */
  lemma {:induction false} RecordIsHistory(f: Fact, w0: World, steps: seq<Step>, id: Id)
    requires Initial(w0) && Exec(w0, steps).Some?
    ensures OnRecord(f, Exec(w0, steps).value, id) <==> Brought(f, w0, steps, id)
  {
    if steps != [] {
      var last := |steps| - 1;
      RecordIsHistory(f, w0, steps[..last], id);
      HistoryGrows(f, w0, steps[..last], steps[last], id);
      assert steps == steps[..last] + [steps[last]];
    }
  }

  lemma HistoryGrows(f: Fact, w0: World, before: seq<Step>, s: Step, id: Id)
    requires Exec(w0, before).Some? && Next(Exec(w0, before).value, s).Some?
    requires OnRecord(f, Exec(w0, before).value, id) <==> Brought(f, w0, before, id)
    ensures OnRecord(f, Next(Exec(w0, before).value, s).value, id) <==> Brought(f, w0, before + [s], id)
  {
    StepRecords(f, Exec(w0, before).value, s, id);
    BroughtEarlier(f, w0, before, s, id);
  }

  lemma BroughtEarlier(f: Fact, w0: World, before: seq<Step>, s: Step, id: Id)
    requires Exec(w0, before).Some?
    ensures Brought(f, w0, before + [s], id) <==> Brought(f, w0, before, id) || Brings(f, Exec(w0, before).value, s, id)
  {
    var steps := before + [s];
    assert steps[..|before|] == before;
    forall i | 0 <= i < |before|
      ensures BroughtAt(f, w0, before, i, id) <==> BroughtAt(f, w0, steps, i, id)
    {
      assert steps[..i] == before[..i];
    }
    assert BroughtAt(f, w0, steps, |before|, id) <==> Brings(f, Exec(w0, before).value, s, id);
  }

  /** No refresh and no publishing of the run fails. */
  ghost predicate NothingFails(steps: seq<Step>) {
    forall i :: 0 <= i < |steps| ==> !(steps[i].Refresh? && !steps[i].ok) && !(steps[i].Publish? && !steps[i].taken)
  }

  /** Nothing is lost without a failure. */
  lemma {:induction false} NothingLost(w0: World, steps: seq<Step>)
    requires Initial(w0) && Exec(w0, steps).Some? && NothingFails(steps)
    ensures Exec(w0, steps).value.lost == {}
  {
    forall id: Id
      ensures id !in Exec(w0, steps).value.lost
    {
      RecordIsHistory(Lost, w0, steps, id);
    }
  }

  // ---- Accounting ----

  /** Artists with integrations whose request has neither published nor failed yet. */
  function InFlight(w: World): set<Id> {
    set r | r in w.requests && HasIntegrations(w.artists, w.requests[r].id) :: w.requests[r].id
  }

  ghost predicate Accounted(w: World) {
    && Distinct(w.accepted)
    && (forall a, b :: a in w.requests && b in w.requests && w.requests[a].id == w.requests[b].id ==> a == b)
    && (forall id :: id in w.created ==> HasIntegrations(w.artists, id))
    && w.created == Elements(w.accepted) + w.lost + InFlight(w)
    && Elements(w.accepted) !! w.lost
    && Elements(w.accepted) !! InFlight(w)
    && w.lost !! InFlight(w)
  }

  lemma CommitAccounted(w: World, req: nat, artist: Named)
    requires Safe(w) && Accounted(w) && Commit(w, req, artist).Some?
    ensures Accounted(Commit(w, req, artist).value)
  {
    var w' := Commit(w, req, artist).value;
    if Violated(w.artists, artist) == {} {
      CommitInFlight(w, req, artist);
      assert artist.id !in w.created;
    }
  }

  /** A committed artist with integrations is in flight, beside those that were. */
  lemma CommitInFlight(w: World, req: nat, artist: Named)
    requires Safe(w) && Commit(w, req, artist).Some? && Violated(w.artists, artist) == {}
    ensures InFlight(Commit(w, req, artist).value)
         == InFlight(w) + if artist.integrations.Some? then {artist.id} else {}
  {
    var w' := Commit(w, req, artist).value;
    forall id
      ensures id in InFlight(w') <==> id in InFlight(w) || (id == artist.id && artist.integrations.Some?)
    {
      if id in InFlight(w) {
        var r :| r in w.requests && HasIntegrations(w.artists, w.requests[r].id) && w.requests[r].id == id;
        assert r in w'.requests && w'.requests[r].id == id;
      }
      if id == artist.id {
        assert w'.requests[req].id == id;
      }
    }
  }

  lemma CreateAccounted(w: World, artist: Named)
    requires Safe(w) && Accounted(w) && Create(w, artist).Some?
    ensures Accounted(Create(w, artist).value)
  {
  }

  lemma PublishAccounted(w: World, w': World, id: Id)
    requires Accounted(w) && id in InFlight(w) && InFlight(w') == InFlight(w) - {id}
    requires w'.artists == w.artists && w'.created == w.created
    requires forall r :: r in w'.requests ==> r in w.requests && w'.requests[r] == w.requests[r]
    requires || (w'.accepted == w.accepted + [id] && w'.lost == w.lost)
             || (w'.accepted == w.accepted && w'.lost == w.lost + {id})
    ensures Accounted(w')
  {
  }

  lemma EndedAccounted(w: World, w': World, req: nat)
    requires Accounted(w) && req in w.requests && w'.requests == w.requests - {req}
    requires w'.artists == w.artists && w'.created == w.created
    requires var id := w.requests[req].id;
             || (HasIntegrations(w.artists, id) && w'.accepted == w.accepted + [id] && w'.lost == w.lost)
             || (HasIntegrations(w.artists, id) && w'.accepted == w.accepted && w'.lost == w.lost + {id})
             || (!HasIntegrations(w.artists, id) && w'.accepted == w.accepted && w'.lost == w.lost)
    ensures Accounted(w')
  {
    var id := w.requests[req].id;
    RequestDone(w, w', req, false);
    if HasIntegrations(w.artists, id) {
      assert id in InFlight(w);
      PublishAccounted(w, w', id);
    } else {
      assert InFlight(w') == InFlight(w);
    }
  }

  lemma ProceedAccounted(w: World, req: nat, s: Step)
    requires Accounted(w) && (s.Refresh? || s.Publish?) && Proceed(w, req, s).Some?
    ensures Accounted(Proceed(w, req, s).value)
  {
    var w' := Proceed(w, req, s).value;
    if s.Refresh? && s.ok {
      RequestDone(w, w', req, true);
    } else {
      EndedAccounted(w, w', req);
    }
  }

  lemma StepAccounted(w: World, s: Step)
    requires Safe(w) && Accounted(w) && Next(w, s).Some?
    ensures Accounted(Next(w, s).value)
  {
    match s
    case SyncCreate(artist) => CreateAccounted(w, artist);
    case AsyncCreate(req, artist) => CommitAccounted(w, req, artist);
    case Refresh(req, _) => ProceedAccounted(w, req, s);
    case Publish(req, _) => ProceedAccounted(w, req, s);
    case _ => OthersAccounted(w, s);
  }

  lemma OthersAccounted(w: World, s: Step)
    requires Accounted(w) && Next(w, s).Some?
    requires !s.SyncCreate? && !s.AsyncCreate? && !s.Refresh? && !s.Publish?
    ensures Accounted(Next(w, s).value)
  {
  }

  /** Ending a request takes its artist out of flight, and no other. */
  lemma RequestDone(w: World, w': World, req: nat, stays: bool)
    requires req in w.requests && w'.artists == w.artists
    requires forall a, b :: a in w.requests && b in w.requests && w.requests[a].id == w.requests[b].id ==> a == b
    requires w'.requests == if stays then w.requests[req := Request(w.requests[req].id, true)] else w.requests - {req}
    ensures InFlight(w') == if stays then InFlight(w) else InFlight(w) - {w.requests[req].id}
  {
    if stays {
      forall id
        ensures id in InFlight(w) <==> id in InFlight(w')
      {
        if id in InFlight(w) {
          var r :| r in w.requests && HasIntegrations(w.artists, w.requests[r].id) && w.requests[r].id == id;
          assert r in w'.requests && w'.requests[r].id == id;
        }
      }
    } else {
      forall id
        ensures id in InFlight(w') <==> id in InFlight(w) && id != w.requests[req].id
      {
        if id in InFlight(w) && id != w.requests[req].id {
          var r :| r in w.requests && HasIntegrations(w.artists, w.requests[r].id) && w.requests[r].id == id;
          assert r in w'.requests && w'.requests[r].id == id;
        }
      }
    }
  }

  lemma {:induction false} RunAccounted(w0: World, steps: seq<Step>)
    requires Safe(w0) && Accounted(w0) && Exec(w0, steps).Some?
    ensures Accounted(Exec(w0, steps).value)
  {
    if steps != [] {
      var last := |steps| - 1;
      RunSafe(w0, steps[..last]);
      RunAccounted(w0, steps[..last]);
      StepAccounted(Exec(w0, steps[..last]).value, steps[last]);
    }
  }

  /** Each message the broker takes belongs to another artist that an asynchronous create
      committed with integrations; when no request is open and none failed to refresh or
      publish, there are as many messages as such artists. `RecordIsHistory` ties the counts to
      the steps of the run. */
  lemma PublishAccounting(w0: World, steps: seq<Step>)
    requires Initial(w0) && Exec(w0, steps).Some?
    ensures var w := Exec(w0, steps).value;
            && Distinct(w.accepted) && Elements(w.accepted) <= w.created
            && (forall id :: id in w.created ==> HasIntegrations(w.artists, id))
            && |w.accepted| + |w.lost| <= |w.created|
            && (w.requests == map[] ==> |w.accepted| + |w.lost| == |w.created|)
            && (w.requests == map[] && NothingFails(steps) ==> |w.accepted| == |w.created|)
  {
    if NothingFails(steps) {
      NothingLost(w0, steps);
    }
    RunAccounted(w0, steps);
    var w := Exec(w0, steps).value;
    DistinctCount(w.accepted);
    var ended := Elements(w.accepted) + w.lost;
    assert |ended| == |w.accepted| + |w.lost|;
    SubsetCount(ended, w.created);
    if w.requests == map[] {
      assert InFlight(w) == {};
      assert w.created == ended;
    }
  }

  // ---- Messages ----

  /** How much a step of the broker changes the number of messages for an artist. */
  function Moved(s: Step, id: Id): int {
    match s
    case Duplicate(m) => if m == id then 1 else 0
    case Drop(m) => if m == id then -1 else 0
    case Deliver(_, m) => if m == id then -1 else 0
    case _ => 0
  }

  function AllMoved(steps: seq<Step>, id: Id): int {
    if steps == [] then 0 else AllMoved(steps[..|steps| - 1], id) + Moved(steps[|steps| - 1], id)
  }

  lemma BrokerMoves(w: World, s: Step, id: Id)
    requires (s.Deliver? || s.Drop? || s.Duplicate?) && Broker(w, s).Some?
    ensures Broker(w, s).value.queue[id] == w.queue[id] + Moved(s, id)
  {
  }

  lemma ProceedMoves(w: World, req: nat, s: Step, id: Id)
    requires (s.Refresh? || s.Publish?) && Proceed(w, req, s).Some?
    ensures var w' := Proceed(w, req, s).value;
            w'.queue[id] + multiset(w.accepted)[id] == w.queue[id] + multiset(w'.accepted)[id]
  {
  }

  lemma StepMoves(w: World, s: Step, id: Id)
    requires Next(w, s).Some?
    ensures var w' := Next(w, s).value;
            w'.queue[id] + multiset(w.accepted)[id] == w.queue[id] + multiset(w'.accepted)[id] + Moved(s, id)
  {
    match s
    case Refresh(req, _) => ProceedMoves(w, req, s, id);
    case Publish(req, _) => ProceedMoves(w, req, s, id);
    case Deliver(_, _) => BrokerMoves(w, s, id);
    case Drop(_) => BrokerMoves(w, s, id);
    case Duplicate(_) => BrokerMoves(w, s, id);
    case _ =>
  }

  /** Messages are conserved: in the queue are the accepted ones and the duplicates, less those
      dropped and delivered. */
  lemma {:induction false} QueueConserved(w0: World, steps: seq<Step>, id: Id)
    requires Initial(w0) && Exec(w0, steps).Some?
    ensures var w := Exec(w0, steps).value;
            w.queue[id] == multiset(w.accepted)[id] + AllMoved(steps, id)
  {
    if steps != [] {
      var last := |steps| - 1;
      QueueConserved(w0, steps[..last], id);
      StepMoves(Exec(w0, steps[..last]).value, steps[last], id);
    }
  }

  // ---- Enrichment comes from publishing ----

  ghost predicate HandlerAccepted(w: World, s: Handler) {
    match s
    case Received(id) => id in w.accepted
    case Loaded(artist) => artist.id in w.accepted
    case Waiting(artist, extra) => artist.id in w.accepted && extra.id == artist.id
    case Ready(extra) => extra.id in w.accepted
    case ReadOfNull => true
  }

  /** Whatever is queued, handled or completed was accepted, and a row that no handler completed
      is the first one. */
  ghost predicate FromAccepted(w0: World, w: World) {
    && (forall id :: id in w.queue ==> id in w.accepted)
    && (forall h :: h in w.handlers ==> HandlerAccepted(w, w.handlers[h]))
    && (forall id :: id in w.completed ==> id in w.accepted)
    && (forall id: Id :: id !in w.completed ==> Row(w.extras, id) == Row(w0.extras, id))
  }

  /** The API's steps accept more at most. */
  lemma ApiFromAccepted(w0: World, w: World, s: Step)
    requires FromAccepted(w0, w) && OfApi(s) && Next(w, s).Some?
    ensures FromAccepted(w0, Next(w, s).value)
  {
    var w' := Next(w, s).value;
    assert w'.handlers == w.handlers && w'.extras == w.extras && w'.completed == w.completed;
    assert forall id :: id in w.accepted ==> id in w'.accepted;
    forall h | h in w'.handlers
      ensures HandlerAccepted(w', w'.handlers[h])
    {
      assert HandlerAccepted(w, w.handlers[h]);
    }
  }

  lemma BrokerFromAccepted(w0: World, w: World, s: Step)
    requires FromAccepted(w0, w) && (s.Deliver? || s.Drop? || s.Duplicate?) && Broker(w, s).Some?
    ensures FromAccepted(w0, Broker(w, s).value)
  {
  }

  /** One handler moves on, or ends, with the same artist. */
  lemma HandlerFromAccepted(w0: World, w: World, w': World, h: nat)
    requires FromAccepted(w0, w) && w'.queue == w.queue && w'.accepted == w.accepted
    requires w'.extras == w.extras && w'.completed == w.completed
    requires forall k :: k in w'.handlers && k != h ==> k in w.handlers && w'.handlers[k] == w.handlers[k]
    requires h in w'.handlers ==> HandlerAccepted(w, w'.handlers[h])
    ensures FromAccepted(w0, w')
  {
    forall k | k in w'.handlers
      ensures HandlerAccepted(w', w'.handlers[k])
    {
      assert k != h ==> HandlerAccepted(w, w.handlers[k]);
    }
  }

  lemma LoadFromAccepted(w0: World, w: World, h: nat)
    requires Safe(w) && FromAccepted(w0, w) && LoadNext(w, h).Some?
    ensures FromAccepted(w0, LoadNext(w, h).value)
  {
    assert HandlerAccepted(w, w.handlers[h]);
    HandlerFromAccepted(w0, w, LoadNext(w, h).value, h);
  }

  lemma AskFromAccepted(w0: World, w: World, h: nat, reply: HttpReply)
    requires FromAccepted(w0, w) && Ask(w, h, reply).Some?
    ensures FromAccepted(w0, Ask(w, h, reply).value)
  {
    assert HandlerAccepted(w, w.handlers[h]);
    HandlerFromAccepted(w0, w, Ask(w, h, reply).value, h);
  }

  lemma StoreFromAccepted(w0: World, w: World, h: nat)
    requires FromAccepted(w0, w) && Store(w, h).Some?
    ensures FromAccepted(w0, Store(w, h).value)
  {
    var w', extra := Store(w, h).value, w.handlers[h].extra;
    assert HandlerAccepted(w, w.handlers[h]);
    forall k | k in w'.handlers
      ensures HandlerAccepted(w', w'.handlers[k])
    {
      assert HandlerAccepted(w, w.handlers[k]);
    }
    forall id: Id | id !in w'.completed
      ensures Row(w'.extras, id) == Row(w0.extras, id)
    {
      assert id != extra.id;
    }
  }

  lemma StepFromAccepted(w0: World, w: World, s: Step)
    requires Safe(w) && FromAccepted(w0, w) && Next(w, s).Some?
    ensures FromAccepted(w0, Next(w, s).value)
  {
    match s
    case Deliver(_, _) => BrokerFromAccepted(w0, w, s);
    case Drop(_) => BrokerFromAccepted(w0, w, s);
    case Duplicate(_) => BrokerFromAccepted(w0, w, s);
    case Load(h) => LoadFromAccepted(w0, w, h);
    case Fetch(h, reply) => AskFromAccepted(w0, w, h, reply);
    case Save(h) => StoreFromAccepted(w0, w, h);
    case Die(h) => HandlerFromAccepted(w0, w, Next(w, s).value, h);
    case _ => ApiFromAccepted(w0, w, s);
  }

  lemma {:induction false} RunFromAccepted(w0: World, steps: seq<Step>)
    requires Initial(w0) && Exec(w0, steps).Some?
    ensures FromAccepted(w0, Exec(w0, steps).value)
  {
    if steps != [] {
      var last := |steps| - 1;
      RunFromAccepted(w0, steps[..last]);
      RunSafe(w0, steps[..last]);
      StepFromAccepted(w0, Exec(w0, steps[..last]).value, steps[last]);
    }
  }

  /** Over any run only artists whose message the broker took are queued, handled or completed;
      every other extra row is the first one, and so is that of an artist whose message was
      lost on the way to the broker. */
  lemma EnrichedOnlyIfPublished(w0: World, steps: seq<Step>, id: Id)
    requires Initial(w0) && Exec(w0, steps).Some?
    ensures var w := Exec(w0, steps).value;
            && FromAccepted(w0, w)
            && (id !in w.accepted ==> id !in w.completed && Row(w.extras, id) == Row(w0.extras, id))
            && (id in w.lost ==> HasIntegrations(w.artists, id) && id !in w.accepted && Row(w.extras, id) == Row(w0.extras, id))
  {
    RunFromAccepted(w0, steps);
    RunAccounted(w0, steps);
    var w := Exec(w0, steps).value;
    if id in w.lost {
      assert id in w.created;
      assert id !in Elements(w.accepted);
    }
  }

  // ---- What enrichment touches ----

  /** `e` differs from the first row of `id` at most in its `discogs` entry, and that is
      the first one or something Discogs said. */
  ghost predicate Descends(w0: World, w: World, id: Id, e: Option<Extra>) {
    && Others(e) == Others(Row(w0.extras, id))
    && (Discogs(e) == Discogs(Row(w0.extras, id))
        || (Discogs(e) == None && (id, None) in w.told)
        || exists artist :: Discogs(e) == Some(DiscogsEntry(artist)) && (id, Some(artist)) in w.told)
  }

  ghost predicate Confined(w0: World, w: World) {
    && (forall id :: id in w0.extras ==> id in w.extras)
    && (forall id: Id :: Descends(w0, w, id, Row(w.extras, id)))
    && (forall h :: h in w.handlers && w.handlers[h].Waiting? ==>
          Descends(w0, w, w.handlers[h].extra.id, Some(w.handlers[h].extra)))
    && (forall h :: h in w.handlers && w.handlers[h].Ready? ==>
          Descends(w0, w, w.handlers[h].extra.id, Some(w.handlers[h].extra)))
  }

  lemma DescendsLater(w0: World, w: World, w': World, id: Id, e: Option<Extra>)
    requires Descends(w0, w, id, e) && w.told <= w'.told
    ensures Descends(w0, w', id, e)
  {
  }

  /** Steps outside the middle of a handler. */
  lemma IdleStep(w: World, s: Step)
    requires Next(w, s).Some? && !s.Load? && !s.Fetch? && !s.Save?
    ensures var w' := Next(w, s).value;
            && Keeps(w.artists, w'.artists)
            && w'.extras == w.extras && w'.told == w.told && w'.completed == w.completed
            && forall h :: h in w'.handlers && (w'.handlers[h].Waiting? || w'.handlers[h].Ready?) ==>
                 h in w.handlers && w.handlers[h] == w'.handlers[h]
  {
  }

  lemma FoundDescends(w0: World, w: World, id: Id)
    requires Descends(w0, w, id, Row(w.extras, id))
    ensures Descends(w0, w, id, Some(FoundOrNew(id, Row(w.extras, id))))
  {
  }

  lemma LoadConfined(w0: World, w: World, h: nat)
    requires Safe(w) && Confined(w0, w) && LoadNext(w, h).Some?
    ensures Confined(w0, LoadNext(w, h).value)
  {
    var w' := LoadNext(w, h).value;
    if w.handlers[h].Loaded? {
      var artist := w.handlers[h].artist;
      var extra := FoundOrNew(artist.id, Row(w.extras, artist.id));
      FoundDescends(w0, w, artist.id);
      assert SafeHandler(w.artists, w.handlers[h]);
      assert extra.id == artist.id;
    }
    forall id: Id, e | Descends(w0, w, id, e)
      ensures Descends(w0, w', id, e)
    {
      DescendsLater(w0, w, w', id, e);
    }
  }

  lemma AskConfined(w0: World, w: World, h: nat, reply: HttpReply)
    requires Safe(w) && Confined(w0, w) && Ask(w, h, reply).Some?
    ensures Confined(w0, Ask(w, h, reply).value)
  {
    var w' := Ask(w, h, reply).value;
    forall id: Id, e | Descends(w0, w, id, e)
      ensures Descends(w0, w', id, e)
    {
      DescendsLater(w0, w, w', id, e);
    }
    if EnrichArtist(reply).Ok? {
      var found, extra := EnrichArtist(reply).value, w.handlers[h].extra;
      assert SafeHandler(w.artists, w.handlers[h]);
      WithDiscogsMeaning(extra, found);
      assert (extra.id, found) in w'.told;
      assert Descends(w0, w', extra.id, Some(WithDiscogs(extra, found)));
    }
  }

  lemma StoreConfined(w0: World, w: World, h: nat)
    requires Safe(w) && Confined(w0, w) && Store(w, h).Some?
    ensures Confined(w0, Store(w, h).value)
  {
    var w', extra := Store(w, h).value, w.handlers[h].extra;
    forall id: Id
      ensures Descends(w0, w', id, Row(w'.extras, id))
    {
      if id == extra.id {
        DescendsLater(w0, w, w', id, Some(extra));
      } else {
        DescendsLater(w0, w, w', id, Row(w.extras, id));
      }
    }
    forall k | k in w'.handlers && (w'.handlers[k].Waiting? || w'.handlers[k].Ready?)
      ensures Descends(w0, w', w'.handlers[k].extra.id, Some(w'.handlers[k].extra))
    {
      DescendsLater(w0, w, w', w.handlers[k].extra.id, Some(w.handlers[k].extra));
    }
  }

  /** Steps that leave the extra rows and what was told alone, and start no handler that
      holds a row. */
  lemma IdleConfined(w0: World, w: World, w': World)
    requires Confined(w0, w) && w'.extras == w.extras && w'.told == w.told
    requires forall h :: h in w'.handlers && (w'.handlers[h].Waiting? || w'.handlers[h].Ready?) ==>
               h in w.handlers && w.handlers[h] == w'.handlers[h]
    ensures Confined(w0, w')
  {
  }

  lemma StepConfined(w0: World, w: World, s: Step)
    requires Safe(w) && Confined(w0, w) && Next(w, s).Some?
    ensures Confined(w0, Next(w, s).value)
  {
    match s
    case Load(h) => LoadConfined(w0, w, h);
    case Fetch(h, reply) => AskConfined(w0, w, h, reply);
    case Save(h) => StoreConfined(w0, w, h);
    case _ =>
      IdleStep(w, s);
      IdleConfined(w0, w, Next(w, s).value);
  }

  /** Over any run, whatever Discogs answers and however handlers overlap: rows stay, their
      other entries stay, and a `discogs` entry is the first one or one that an accepted
      answer for this artist gave. */
  lemma {:induction false} EnrichmentConfined(w0: World, steps: seq<Step>)
    requires Initial(w0) && Exec(w0, steps).Some?
    ensures Confined(w0, Exec(w0, steps).value)
  {
    if steps == [] {
      assert forall id: Id :: Descends(w0, w0, id, Row(w0.extras, id));
    } else {
      var last := |steps| - 1;
      EnrichmentConfined(w0, steps[..last]);
      RunSafe(w0, steps[..last]);
      StepConfined(w0, Exec(w0, steps[..last]).value, steps[last]);
    }
  }

  /** What counts as told of an artist is the accepted answer to a handler that waited with
      this very artist, and every such answer counts. */
  lemma ToldByFetch(w0: World, steps: seq<Step>, id: Id, found: Option<DiscogsArtist>)
    requires Initial(w0) && Exec(w0, steps).Some?
    ensures (id, found) in Exec(w0, steps).value.told
       <==> exists i :: 0 <= i < |steps| && Exec(w0, steps[..i]).Some? && Replied(Exec(w0, steps[..i]).value, steps[i], id, found)
  {
    RecordIsHistory(Told(found), w0, steps, id);
    forall i
      ensures BroughtAt(Told(found), w0, steps, i, id)
         <==> 0 <= i < |steps| && Exec(w0, steps[..i]).Some? && Replied(Exec(w0, steps[..i]).value, steps[i], id, found)
    {
    }
  }

  // ---- Convergence ----

  type Oracle = int -> HttpReply

  /** Every answer fetched during the run is the oracle's. */
  ghost predicate Consults(oracle: Oracle, w0: World, steps: seq<Step>) {
    forall i :: 0 <= i < |steps| && steps[i].Fetch? ==> OracleAnswers(oracle, Exec(w0, steps[..i]), steps[i])
  }

  ghost predicate OracleAnswers(oracle: Oracle, w: Option<World>, s: Step)
    requires s.Fetch?
  {
    w.Some? && s.h in w.value.handlers && w.value.handlers[s.h].Waiting? ==>
      match w.value.handlers[s.h].artist.integrations
      case Some(Integrations(Some(d))) => d != 0 ==> s.reply == oracle(d)
      case _ => true
  }

  /** Whether a handler for the artist can complete, by the oracle. */
  ghost predicate Enrichable(oracle: Oracle, artist: Named) {
    artist.integrations.Some? &&
    (DiscogsId(artist.integrations.value).Some? ==> EnrichArtist(oracle(DiscogsId(artist.integrations.value).value)).Ok?)
  }

  /** The row one completed handler leaves behind. */
  function Target(oracle: Oracle, artist: Named, first: Option<Extra>): Extra
    requires Enrichable(oracle, artist)
  {
    var extra := FoundOrNew(artist.id, first);
    match DiscogsId(artist.integrations.value)
    case None => extra
    case Some(discogs) => WithDiscogs(extra, EnrichArtist(oracle(discogs)).value)
  }

  /** `e` is what the artist's row is before or after a completed handler. */
  ghost predicate OnTheWay(oracle: Oracle, artist: Named, first: Option<Extra>, e: Extra) {
    || e == FoundOrNew(artist.id, first)
    || (Enrichable(oracle, artist) && e == Target(oracle, artist, first))
  }

  ghost predicate Arrived(oracle: Oracle, artist: Named, first: Option<Extra>, e: Option<Extra>) {
    Enrichable(oracle, artist) && e == Some(Target(oracle, artist, first))
  }

  ghost predicate Converging(oracle: Oracle, w0: World, w: World) {
    && (forall id: Id :: id !in w.completed ==> Row(w.extras, id) == Row(w0.extras, id))
    && (forall id: Id :: id in w.completed ==>
          id in w.artists && Arrived(oracle, w.artists[id], Row(w0.extras, id), Row(w.extras, id)))
    && (forall h :: h in w.handlers && w.handlers[h].Waiting? ==>
          OnTheWay(oracle, w.handlers[h].artist, Row(w0.extras, w.handlers[h].artist.id), w.handlers[h].extra))
    && (forall h :: h in w.handlers && w.handlers[h].Ready? ==>
          && w.handlers[h].extra.id in w.artists
          && Arrived(oracle, w.artists[w.handlers[h].extra.id], Row(w0.extras, w.handlers[h].extra.id), Some(w.handlers[h].extra)))
  }

  lemma LoadConverges(oracle: Oracle, w0: World, w: World, h: nat)
    requires Safe(w) && Converging(oracle, w0, w) && LoadNext(w, h).Some?
    requires forall id :: id in w0.extras ==> w0.extras[id].id == id
    ensures Converging(oracle, w0, LoadNext(w, h).value)
  {
    if w.handlers[h].Loaded? {
      var artist := w.handlers[h].artist;
      var first := Row(w0.extras, artist.id);
      var extra := FoundOrNew(artist.id, Row(w.extras, artist.id));
      assert SafeHandler(w.artists, w.handlers[h]);
      if artist.id in w.completed {
        assert Arrived(oracle, artist, first, Row(w.extras, artist.id));
      }
      assert OnTheWay(oracle, artist, first, extra);
      if DiscogsId(artist.integrations.value).None? {
        assert Arrived(oracle, artist, first, Some(extra));
      }
      HandlerConverges(oracle, w0, w, LoadNext(w, h).value, h);
    } else {
      IdleConverges(oracle, w0, w, LoadNext(w, h).value);
    }
  }

  /** One handler moves on; what it holds now is on the way or arrived. */
  lemma HandlerConverges(oracle: Oracle, w0: World, w: World, w': World, h: nat)
    requires Converging(oracle, w0, w)
    requires w'.artists == w.artists && w'.extras == w.extras && w'.completed == w.completed
    requires forall k :: k in w'.handlers && k != h ==> k in w.handlers && w'.handlers[k] == w.handlers[k]
    requires h in w'.handlers && w'.handlers[h].Waiting? ==>
               OnTheWay(oracle, w'.handlers[h].artist, Row(w0.extras, w'.handlers[h].artist.id), w'.handlers[h].extra)
    requires h in w'.handlers && w'.handlers[h].Ready? ==>
               && w'.handlers[h].extra.id in w.artists
               && Arrived(oracle, w.artists[w'.handlers[h].extra.id], Row(w0.extras, w'.handlers[h].extra.id),
                          Some(w'.handlers[h].extra))
    ensures Converging(oracle, w0, w')
  {
  }

  lemma AskConverges(oracle: Oracle, w0: World, w: World, h: nat, reply: HttpReply)
    requires Safe(w) && Converging(oracle, w0, w) && Ask(w, h, reply).Some?
    requires OracleAnswers(oracle, Some(w), Fetch(h, reply))
    ensures Converging(oracle, w0, Ask(w, h, reply).value)
  {
    var Waiting(artist, extra) := w.handlers[h];
    var first := Row(w0.extras, artist.id);
    assert SafeHandler(w.artists, w.handlers[h]);
    assert OnTheWay(oracle, artist, first, extra);
    if EnrichArtist(reply).Ok? {
      var found := EnrichArtist(reply).value;
      LastFindingWins(FoundOrNew(artist.id, first), found, found);
      assert Arrived(oracle, artist, first, Some(WithDiscogs(extra, found)));
    }
    HandlerConverges(oracle, w0, w, Ask(w, h, reply).value, h);
  }

  lemma StoreConverges(oracle: Oracle, w0: World, w: World, h: nat)
    requires Safe(w) && Converging(oracle, w0, w) && Store(w, h).Some?
    ensures Converging(oracle, w0, Store(w, h).value)
  {
    var w', extra := Store(w, h).value, w.handlers[h].extra;
    forall id: Id
      ensures id !in w'.completed ==> Row(w'.extras, id) == Row(w0.extras, id)
      ensures id in w'.completed ==>
                id in w'.artists && Arrived(oracle, w'.artists[id], Row(w0.extras, id), Row(w'.extras, id))
    {
      if id != extra.id {
        assert Row(w'.extras, id) == Row(w.extras, id);
      }
    }
  }

  lemma IdleConverges(oracle: Oracle, w0: World, w: World, w': World)
    requires Safe(w) && Converging(oracle, w0, w) && Keeps(w.artists, w'.artists)
    requires w'.extras == w.extras && w'.completed == w.completed
    requires forall h :: h in w'.handlers && (w'.handlers[h].Waiting? || w'.handlers[h].Ready?) ==>
               h in w.handlers && w.handlers[h] == w'.handlers[h]
    ensures Converging(oracle, w0, w')
  {
  }

  lemma StepConverges(oracle: Oracle, w0: World, w: World, s: Step)
    requires Safe(w) && Converging(oracle, w0, w) && Next(w, s).Some?
    requires forall id :: id in w0.extras ==> w0.extras[id].id == id
    requires s.Fetch? ==> OracleAnswers(oracle, Some(w), s)
    ensures Converging(oracle, w0, Next(w, s).value)
  {
    match s
    case Load(h) => LoadConverges(oracle, w0, w, h);
    case Fetch(h, reply) => AskConverges(oracle, w0, w, h, reply);
    case Save(h) => StoreConverges(oracle, w0, w, h);
    case _ =>
      IdleStep(w, s);
      IdleConverges(oracle, w0, w, Next(w, s).value);
  }

  /** Duplicates, losses, reordering and overlap of handlers do not matter: while Discogs
      answers constantly, an artist's row is what one undisturbed handler makes of the
      first row if any handler for it completed, and the first row if none did. */
  lemma {:induction false} Convergence(oracle: Oracle, w0: World, steps: seq<Step>)
    requires Initial(w0) && Exec(w0, steps).Some? && Consults(oracle, w0, steps)
    ensures Converging(oracle, w0, Exec(w0, steps).value)
  {
    if steps != [] {
      var last := |steps| - 1;
      var init := steps[..last];
      assert Consults(oracle, w0, init) by {
        forall i | 0 <= i < |init| && init[i].Fetch?
          ensures OracleAnswers(oracle, Exec(w0, init[..i]), init[i])
        {
          assert init[..i] == steps[..i];
          assert OracleAnswers(oracle, Exec(w0, steps[..i]), steps[i]);
        }
      }
      Convergence(oracle, w0, init);
      RunSafe(w0, init);
      StepConverges(oracle, w0, Exec(w0, init).value, steps[last]);
    }
  }

  /** What a completed artist's row says, read off the artist and the oracle: with a Discogs id,
      what Discogs says of this id, beside the entries there were; without one, the first row,
      or a new one without entries. */
  lemma CompletedSays(oracle: Oracle, w0: World, steps: seq<Step>, id: Id)
    requires Initial(w0) && Exec(w0, steps).Some? && Consults(oracle, w0, steps)
    requires id in Exec(w0, steps).value.completed
    ensures var w, first := Exec(w0, steps).value, Row(w0.extras, id);
            && id in w.artists && id in w.extras && w.artists[id].integrations.Some?
            && (forall d :: w.artists[id].integrations == Some(Integrations(Some(d))) && d != 0 ==>
                  && EnrichArtist(oracle(d)).Ok?
                  && Discogs(Row(w.extras, id)) == EntryOf(EnrichArtist(oracle(d)).value)
                  && Others(Row(w.extras, id)) == Others(first))
            && (w.artists[id].integrations in {Some(Integrations(None)), Some(Integrations(Some(0)))} ==>
                  w.extras[id] == if first.Some? then first.value else Extra(id, Some(map[])))
  {
    Convergence(oracle, w0, steps);
    RunSafe(w0, steps);
    var w, first := Exec(w0, steps).value, Row(w0.extras, id);
    assert Arrived(oracle, w.artists[id], first, Row(w.extras, id));
    if DiscogsId(w.artists[id].integrations.value).Some? {
      WithDiscogsMeaning(FoundOrNew(id, first), EnrichArtist(oracle(DiscogsId(w.artists[id].integrations.value).value)).value);
    }
  }

  /** Two runs in which the same artists had a handler complete end with the same rows. */
  lemma SameCompletionsSameRows(oracle: Oracle, w0: World, one: seq<Step>, two: seq<Step>)
    requires Initial(w0) && Exec(w0, one).Some? && Exec(w0, two).Some?
    requires Consults(oracle, w0, one) && Consults(oracle, w0, two)
    requires var (a, b) := (Exec(w0, one).value, Exec(w0, two).value);
             && a.completed == b.completed
             && forall id :: id in a.completed && id in a.artists && id in b.artists ==> a.artists[id] == b.artists[id]
    ensures Exec(w0, one).value.extras == Exec(w0, two).value.extras
  {
    Convergence(oracle, w0, one);
    Convergence(oracle, w0, two);
    var a, b := Exec(w0, one).value, Exec(w0, two).value;
    forall id: Id
      ensures Row(a.extras, id) == Row(b.extras, id)
    {
      if id in a.completed {
        assert Arrived(oracle, a.artists[id], Row(w0.extras, id), Row(a.extras, id));
        assert Arrived(oracle, b.artists[id], Row(w0.extras, id), Row(b.extras, id));
      }
    }
    forall id: Id
      ensures id in a.extras <==> id in b.extras
      ensures id in a.extras ==> a.extras[id] == b.extras[id]
    {
      assert Row(a.extras, id) == Row(b.extras, id);
    }
  }
}
