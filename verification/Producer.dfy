/** The API's asynchronous create, as one call: commit, refresh, publish. */
module Producer {
  import opened Prelude
  import opened Catalog
  import opened Protocol

  datatype Failure = AlreadyExists(conflict: Conflict) | RefreshFailed

  class ArtistPublisher {
    var queue: multiset<Id>

    constructor ()
      ensures queue == multiset{}
    {
      queue := multiset{};
    }

    /** `fault` says whether anything goes wrong on the way to the broker; it is reported,
        never raised. */
    method PublishMessage(artistId: Id, fault: bool) returns (ok: bool)
      modifies this
      ensures ok == !fault
      ensures queue == old(queue) + if fault then multiset{} else multiset{artistId}
    {
      if fault {
        return false;
      }
      queue := queue + multiset{artistId};
      return true;
    }
  }

  class ArtistAsyncService {
    var rows: Table
    const publisher: ArtistPublisher

    ghost predicate Valid()
      reads this
    {
      WellFormed(rows)
    }

    constructor (publisher: ArtistPublisher)
      ensures Valid() && rows == map[] && this.publisher == publisher
    {
      this.rows, this.publisher := map[], publisher;
    }

    /** `artist.id` is generated by the database, which names `reported` when it refuses.
        The artist is stored unless name or sort name is taken; a message goes out exactly
        when it was stored with integrations and neither the refresh nor the publishing
        failed; a failed publishing changes nothing of the answer. */
    method Create(artist: Named, reported: Constraint, refreshFault: bool, publishFault: bool)
      returns (r: Result<Named, Failure>)
      requires Valid() && artist.id !in rows
      requires Violated(rows, artist) != {} ==> reported in Violated(rows, artist)
      modifies this, publisher
      ensures Valid()
      ensures r.Ok? <==> Violated(old(rows), artist) == {} && !refreshFault
      ensures r.Ok? ==> r.value == artist
      ensures r.Err? && r.error.AlreadyExists? <==> Violated(old(rows), artist) != {}
      ensures r.Err? && r.error.AlreadyExists? ==>
                var conflict := r.error.conflict;
                && conflict.code == "ARTIST_ALREADY_EXISTS"
                && (if conflict.attribute == "name"
                    then conflict.value == artist.name && UniqueName in Violated(rows, artist)
                    else conflict.attribute == "sortName" && conflict.value == artist.sortName
                         && UniqueSortName in Violated(rows, artist))
      ensures rows == if Violated(old(rows), artist) == {} then old(rows)[artist.id := artist] else old(rows)
      ensures publisher.queue == old(publisher.queue)
                + if r.Ok? && artist.integrations.Some? && !publishFault then multiset{artist.id} else multiset{}
    {
      if Violated(rows, artist) != {} {
        return Err(AlreadyExists(match reported
                                 case UniqueSortName => Conflict("ARTIST_ALREADY_EXISTS", "sortName", artist.sortName)
                                 case UniqueName => Conflict("ARTIST_ALREADY_EXISTS", "name", artist.name)));
      }
      assert rows[artist.id := artist] == Insert(rows, artist);
      rows := rows[artist.id := artist];
      if refreshFault {
        return Err(RefreshFailed);
      }
      if artist.integrations.Some? {
        var _ := publisher.PublishMessage(artist.id, publishFault);
      }
      return Ok(artist);
    }
  }

  /** The one step of a synchronous create stores what `BaseService.CreateItem` stores, when no
      name is taken, and touches nothing else. */
  lemma SyncCreateIsStep(w: World, artist: Named)
    requires artist.id !in w.artists && artist.integrations == None
    ensures var free := forall id :: id in w.artists ==>
                          w.artists[id].name != artist.name && w.artists[id].sortName != artist.sortName;
            Exec(w, [SyncCreate(artist)])
            == Some(w.(artists := if free then w.artists[artist.id := artist] else w.artists))
  {
    assert [SyncCreate(artist)][..0] == [];
    assert Exec(w, []) == Some(w);
    if Violated(w.artists, artist) == {} {
      assert UniqueName !in Violated(w.artists, artist) && UniqueSortName !in Violated(w.artists, artist);
    }
  }

  /** The steps one create takes in the protocol when nothing comes between them. */
  function CreateSteps(w: World, req: nat, artist: Named, refreshFault: bool, publishFault: bool): seq<Step> {
    if Violated(w.artists, artist) != {} then [AsyncCreate(req, artist)]
    else if refreshFault then [AsyncCreate(req, artist), Refresh(req, false)]
    else [AsyncCreate(req, artist), Refresh(req, true), Publish(req, !publishFault)]
  }

  /** The protocol's steps for one create do to table and queue what the method does. */
  lemma CreateIsSteps(w: World, req: nat, artist: Named, refreshFault: bool, publishFault: bool)
    requires req !in w.requests && artist.id !in w.artists
    ensures var end := Exec(w, CreateSteps(w, req, artist, refreshFault, publishFault));
            var stored := Violated(w.artists, artist) == {};
            && end.Some?
            && end.value.artists == (if stored then w.artists[artist.id := artist] else w.artists)
            && end.value.requests == w.requests
            && end.value.queue == w.queue
                 + if stored && artist.integrations.Some? && !refreshFault && !publishFault then multiset{artist.id} else multiset{}
  {
    var steps := CreateSteps(w, req, artist, refreshFault, publishFault);
    ExecCons(w, steps);
    if Violated(w.artists, artist) != {} {
      assert steps[1..] == [];
    } else {
      var w1 := Commit(w, req, artist).value;
      assert w1.requests == w.requests[req := Request(artist.id, false)];
      assert w1.requests - {req} == w.requests;
      if refreshFault {
        assert steps[1..] == [Refresh(req, false)];
        RefreshLast(w1, req);
      } else {
        assert steps[1..] == [Refresh(req, true), Publish(req, !publishFault)];
        RefreshPublish(w1, req, !publishFault);
      }
    }
  }

  lemma RefreshLast(w: World, req: nat)
    requires req in w.requests && !w.requests[req].refreshed
    ensures var end := Exec(w, [Refresh(req, false)]);
            end.Some? && end.value.artists == w.artists && end.value.queue == w.queue && end.value.requests == w.requests - {req}
  {
    ExecCons(w, [Refresh(req, false)]);
    assert [Refresh(req, false)][1..] == [];
  }

  lemma RefreshPublish(w: World, req: nat, taken: bool)
    requires req in w.requests && !w.requests[req].refreshed
    ensures var end := Exec(w, [Refresh(req, true), Publish(req, taken)]);
            var id := w.requests[req].id;
            && end.Some? && end.value.artists == w.artists && end.value.requests == w.requests - {req}
            && end.value.queue == w.queue + if taken && HasIntegrations(w.artists, id) then multiset{id} else multiset{}
  {
    var steps := [Refresh(req, true), Publish(req, taken)];
    var w' := Next(w, Refresh(req, true)).value;
    ExecCons(w, steps);
    assert steps[1..] == [Publish(req, taken)];
    PublishLast(w', req, taken);
    assert w'.requests - {req} == w.requests - {req};
  }

  lemma PublishLast(w: World, req: nat, taken: bool)
    requires req in w.requests && w.requests[req].refreshed
    ensures var end := Exec(w, [Publish(req, taken)]);
            var id := w.requests[req].id;
            && end.Some? && end.value.artists == w.artists && end.value.requests == w.requests - {req}
            && end.value.queue == w.queue + if taken && HasIntegrations(w.artists, id) then multiset{id} else multiset{}
  {
    ExecCons(w, [Publish(req, taken)]);
    assert [Publish(req, taken)][1..] == [];
  }

  lemma {:induction false} ExecCons(w: World, steps: seq<Step>)
    requires steps != []
    ensures Exec(w, steps) == match Next(w, steps[0]) case None => None case Some(w') => Exec(w', steps[1..])
  {
    var last := |steps| - 1;
    if last > 0 {
      ExecCons(w, steps[..last]);
      assert steps[..last][1..] == steps[1..][..last - 1];
    }
  }
}
