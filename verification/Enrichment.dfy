/** The consumer: what Discogs answers, what becomes of an extra row, one message handled. */
module Enrichment {
  import opened Prelude
  import opened Catalog
  import opened JsonText

  // ---- Discogs ----

  datatype ImageKind = Primary | Secondary

  datatype Image = Image(kind: ImageKind, uri: Text)

  datatype ArtistBody = ArtistBody(id: int, name: Text, uri: Text, images: seq<Image>)

  /** What the HTTP client delivers: a status with a body (`None` when the schema refuses
      it), or a failed call. */
  datatype HttpReply = HttpReply(status: int, body: Option<ArtistBody>) | HttpFailure

  datatype DiscogsArtist = DiscogsArtist(id: int, name: Text, url: Text, images: seq<Text>)

  datatype HandlerError = DiscogsError(status: int) | HttpError | SchemaError

  function PrimaryUris(images: seq<Image>): seq<Text> {
    if images == [] then []
    else
      var last := images[|images| - 1];
      PrimaryUris(images[..|images| - 1]) + if last.kind == Primary then [last.uri] else []
  }

  /** `None` stands for an artist Discogs does not have. */
  function EnrichArtist(reply: HttpReply): (r: Result<Option<DiscogsArtist>, HandlerError>)
    ensures r.Ok? <==> reply.HttpReply? && (reply.status == 404 || (reply.status == 200 && reply.body.Some?))
    ensures r.Ok? ==> (r.value.None? <==> reply.status == 404)
    ensures r.Ok? && r.value.Some? ==>
              var (found, data) := (r.value.value, reply.body.value);
              found.id == data.id && found.name == data.name && found.url == data.uri && found.images == PrimaryUris(data.images)
  {
    match reply
    case HttpFailure => Err(HttpError)
    case HttpReply(status, body) =>
      if status == 404 then Ok(None)
      else if status != 200 then Err(DiscogsError(status))
      else match body
        case None => Err(SchemaError)
        case Some(data) => Ok(Some(DiscogsArtist(data.id, data.name, data.uri, PrimaryUris(data.images))))
  }

  /** The stored images are the primary ones of the body, at rising positions, none left
      out. */
  lemma {:induction false} PrimaryImages(images: seq<Image>) returns (at: seq<nat>)
    ensures |at| == |PrimaryUris(images)|
    ensures forall k :: 0 <= k < |at| ==>
              at[k] < |images| && images[at[k]].kind == Primary && images[at[k]].uri == PrimaryUris(images)[k]
    ensures forall j, k :: 0 <= j < k < |at| ==> at[j] < at[k]
    ensures forall i :: 0 <= i < |images| && images[i].kind == Primary ==> i in at
  {
    if images == [] {
      at := [];
    } else {
      var last := |images| - 1;
      var before := PrimaryImages(images[..last]);
      at := before + if images[last].kind == Primary then [last] else [];
      forall i | 0 <= i < |images| && images[i].kind == Primary
        ensures i in at
      {
        if i < last {
          assert images[..last][i] == images[i];
          assert i in before;
        } else {
          assert at[|before|] == last;
        }
      }
    }
  }

  // ---- Extra rows ----

  /** A value under a key of the `data` column. */
  datatype Json = DiscogsEntry(artist: DiscogsArtist) | Foreign(text: Text)

  const DISCOGS := "discogs"

  /** `data` may be null; a missing column value spreads to no entries. */
  datatype Extra = Extra(id: Id, data: Option<map<string, Json>>)

  function Entries(e: Option<Extra>): map<string, Json> {
    match e
    case None => map[]
    case Some(row) => if row.data.Some? then row.data.value else map[]
  }

  /** The entries under every key but `discogs`. */
  function Others(e: Option<Extra>): map<string, Json> {
    Entries(e) - {DISCOGS}
  }

  function Discogs(e: Option<Extra>): Option<Json> {
    if DISCOGS in Entries(e) then Some(Entries(e)[DISCOGS]) else None
  }

  /** The row found, or a new one without entries. */
  function FoundOrNew(id: Id, found: Option<Extra>): Extra {
    if found.Some? then found.value else Extra(id, Some(map[]))
  }

  /** `{...data, discogs: found || undefined}`, as it is stored: undefined leaves no key. */
  function WithDiscogs(e: Extra, found: Option<DiscogsArtist>): Extra {
    var others := Others(Some(e));
    Extra(e.id, Some(if found.Some? then others[DISCOGS := DiscogsEntry(found.value)] else others))
  }

  /** `if (artist.integrations.discogs)`: neither missing nor zero. */
  function DiscogsId(i: Integrations): Option<int> {
    if i.discogs == Some(0) then None else i.discogs
  }

  /** Only the `discogs` entry changes, and it becomes what was found. */
  lemma WithDiscogsMeaning(e: Extra, found: Option<DiscogsArtist>)
    ensures var e' := WithDiscogs(e, found);
            && e'.id == e.id
            && Others(Some(e')) == Others(Some(e))
            && Discogs(Some(e')) == if found.Some? then Some(DiscogsEntry(found.value)) else None
  {
  }

  /** Storing a second finding over a first one leaves only the second. */
  lemma LastFindingWins(e: Extra, first: Option<DiscogsArtist>, second: Option<DiscogsArtist>)
    ensures WithDiscogs(WithDiscogs(e, first), second) == WithDiscogs(e, second)
  {
    WithDiscogsMeaning(e, first);
  }

  // ---- One message handled without interruption ----

  type Extras = map<Id, Extra>

  function Row(t: Extras, id: Id): Option<Extra> {
    if id in t then Some(t[id]) else None
  }

  /** The entry a finding becomes. */
  function EntryOf(found: Option<DiscogsArtist>): Option<Json> {
    match found
    case None => None
    case Some(artist) => Some(DiscogsEntry(artist))
  }

  datatype Handled = Saved(extra: Extra) | NoArtist | Failed(error: HandlerError) | NullIntegrations

  /** What handling a message without interruption comes to. */
  function Handling(artists: Table, extras: Extras, id: Id, reply: HttpReply): Handled {
    if id !in artists then NoArtist
    else match artists[id].integrations
      case None => NullIntegrations
      case Some(integrations) =>
        var found := FoundOrNew(id, Row(extras, id));
        if DiscogsId(integrations).None? then Saved(found)
        else match EnrichArtist(reply)
          case Err(e) => Failed(e)
          case Ok(discogs) => Saved(WithDiscogs(found, discogs))
  }

  class ArtistsService {
    var artists: Table
    var extras: Extras

    constructor (artists: Table, extras: Extras)
      ensures this.artists == artists && this.extras == extras
    {
      this.artists, this.extras := artists, extras;
    }

    method GetArtist(id: Id) returns (artist: Option<Named>)
      ensures artist == if id in artists then Some(artists[id]) else None
    {
      artist := if id in artists then Some(artists[id]) else None;
    }

    /** `reply` is what Discogs would answer now. Only the row of this artist changes, in it
        only the `discogs` entry, and nothing at all unless the handler succeeds. */
    method Enrich(artist: Named, reply: HttpReply) returns (r: Handled)
      requires artist.id in artists && artists[artist.id] == artist
      modifies `extras
      ensures r == Handling(artists, old(extras), artist.id, reply)
      ensures !r.Saved? ==> extras == old(extras)
      ensures r.Saved? ==>
                && extras == old(extras)[artist.id := r.extra]
                && Others(Some(r.extra)) == Others(Row(old(extras), artist.id))
      ensures forall d :: artist.integrations == Some(Integrations(Some(d))) && d != 0 ==>
                match EnrichArtist(reply)
                case Ok(found) => r.Saved? && Discogs(Some(r.extra)) == EntryOf(found)
                case Err(error) => r == Failed(error)
      ensures artist.integrations in {Some(Integrations(None)), Some(Integrations(Some(0)))} ==>
                r == Saved(if artist.id in old(extras) then old(extras)[artist.id] else Extra(artist.id, Some(map[])))
      ensures artist.integrations == None ==> r == NullIntegrations
    {
      var artistExtra := Row(extras, artist.id);
      if artistExtra.None? {
        artistExtra := Some(Extra(artist.id, Some(map[])));
      }
      if artist.integrations.None? {
        return NullIntegrations;
      }
      if DiscogsId(artist.integrations.value).Some? {
        var discogsArtist := EnrichArtist(reply);
        if discogsArtist.Err? {
          return Failed(discogsArtist.error);
        }
        WithDiscogsMeaning(artistExtra.value, discogsArtist.value);
        artistExtra := Some(WithDiscogs(artistExtra.value, discogsArtist.value));
      }
      extras := extras[artist.id := artistExtra.value];
      return Saved(artistExtra.value);
    }

    method HandleCreated(artistId: Id, reply: HttpReply) returns (r: Handled)
      requires WellFormed(artists)
      modifies `extras
      ensures r == Handling(artists, old(extras), artistId, reply)
      ensures extras == if r.Saved? then old(extras)[artistId := r.extra] else old(extras)
      ensures artistId !in artists ==> r == NoArtist
      ensures forall d :: artistId in artists && artists[artistId].integrations == Some(Integrations(Some(d))) && d != 0 ==>
                match EnrichArtist(reply)
                case Ok(found) => r.Saved? && Discogs(Some(r.extra)) == EntryOf(found)
                case Err(error) => r == Failed(error)
      ensures artistId in artists && artists[artistId].integrations in {Some(Integrations(None)), Some(Integrations(Some(0)))} ==>
                r == Saved(if artistId in old(extras) then old(extras)[artistId] else Extra(artistId, Some(map[])))
      ensures artistId in artists && artists[artistId].integrations == None ==> r == NullIntegrations
    {
      var artist := GetArtist(artistId);
      if artist.None? {
        return NoArtist;
      }
      r := Enrich(artist.value, reply);
    }
  }
}
