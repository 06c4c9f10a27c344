/** The consumer's handling of one message against the protocol's steps. */
module ConsumerSteps {
  import opened Prelude
  import opened Catalog
  import opened Enrichment
  import opened Protocol
  import opened Producer

  /** The steps one handler takes when nothing comes between them. */
  function HandleSteps(w: World, h: nat, id: Id, reply: HttpReply): seq<Step> {
    var integrations := if id in w.artists then w.artists[id].integrations else None;
    [Deliver(h, id), Load(h), Load(h)]
    + (if integrations.Some? && DiscogsId(integrations.value).Some? then [Fetch(h, reply)] else [])
    + (if Handling(w.artists, w.extras, id, reply).Saved? then [Save(h)] else [])
  }

  /** Taken alone, the protocol's handler does to the extra rows what the service method
      does with the same message. */
  lemma HandleIsSteps(w: World, h: nat, id: Id, reply: HttpReply)
    requires Safe(w) && h !in w.handlers && id in w.queue
    ensures var end := Exec(w, HandleSteps(w, h, id, reply));
            var handled := Handling(w.artists, w.extras, id, reply);
            && end.Some?
            && end.value.handlers == w.handlers
            && end.value.extras == (if handled.Saved? then w.extras[id := handled.extra] else w.extras)
            && end.value.completed == (if handled.Saved? then w.completed + {id} else w.completed)
  {
    var w3 := Open(w, h, id, HandleSteps(w, h, id, reply)[3..]);
    var steps := HandleSteps(w, h, id, reply);
    var rest := steps[3..];
    assert steps == [Deliver(h, id), Load(h), Load(h)] + rest;
    if w3.handlers[h].Ready? {
      assert rest == [Save(h)];
      FinishSave(w, w3, h);
    } else {
      FinishFetch(w, w3, h, reply, rest);
    }
  }

  /** Without the artist the handler ends after its first load and leaves no trace. */
  lemma HandleAbsent(w: World, h: nat, id: Id, reply: HttpReply)
    requires h !in w.handlers && id in w.queue && id !in w.artists
    ensures Handling(w.artists, w.extras, id, reply) == NoArtist
    ensures Exec(w, [Deliver(h, id), Load(h)]) == Some(w.(queue := w.queue - multiset{id}))
  {
    var w1 := Delivered(w, h, id);
    LoadAbsent(w1, h, id);
    assert w1.handlers - {h} == w.handlers;
    ExecTwo(w, Deliver(h, id), w1, Load(h), w1.(handlers := w1.handlers - {h}));
  }

  /** A handler that dies takes its message with it and leaves nothing else behind. */
  lemma HandleDies(w: World, h: nat, id: Id)
    requires h !in w.handlers && id in w.queue
    ensures Exec(w, [Deliver(h, id), Die(h)]) == Some(w.(queue := w.queue - multiset{id}))
  {
    var w1 := Delivered(w, h, id);
    assert w1.handlers - {h} == w.handlers;
    DeadIsGone(w1, h);
    ExecTwo(w, Deliver(h, id), w1, Die(h), w1.(handlers := w1.handlers - {h}));
  }

  lemma DeadIsGone(w: World, h: nat)
    requires h in w.handlers
    ensures Next(w, Die(h)) == Some(w.(handlers := w.handlers - {h}))
  {
  }

  lemma Delivered(w: World, h: nat, id: Id) returns (w1: World)
    requires h !in w.handlers && id in w.queue
    ensures Next(w, Deliver(h, id)) == Some(w1)
    ensures w1 == w.(queue := w.queue - multiset{id}, handlers := w.handlers[h := Received(id)])
  {
    w1 := w.(queue := w.queue - multiset{id}, handlers := w.handlers[h := Received(id)]);
  }

  lemma LoadAbsent(w: World, h: nat, id: Id)
    requires h in w.handlers && w.handlers[h] == Received(id) && id !in w.artists
    ensures Next(w, Load(h)) == Some(w.(handlers := w.handlers - {h}))
  {
  }

  lemma ExecTwo(w: World, s1: Step, w1: World, s2: Step, w2: World)
    requires Next(w, s1) == Some(w1) && Next(w1, s2) == Some(w2)
    ensures Exec(w, [s1, s2]) == Some(w2)
  {
    assert [s1, s2][..1] == [s1] && [s1][..0] == [];
    assert Exec(w, []) == Some(w);
    assert Exec(w, [s1]) == Some(w1);
  }

  /** With an artist whose integrations are null the handler comes to read `.discogs` of null; the
      extra rows stay. */
  lemma HandleNull(w: World, h: nat, id: Id, reply: HttpReply)
    requires h !in w.handlers && id in w.queue && id in w.artists && w.artists[id].integrations == None
    ensures Handling(w.artists, w.extras, id, reply) == NullIntegrations
    ensures Exec(w, [Deliver(h, id), Load(h), Load(h)])
         == Some(w.(queue := w.queue - multiset{id}, handlers := w.handlers[h := ReadOfNull]))
  {
    var w1 := Next(w, Deliver(h, id)).value;
    var w2 := Next(w1, Load(h)).value;
    var w3 := w.(queue := w.queue - multiset{id}, handlers := w.handlers[h := ReadOfNull]);
    assert w2.handlers[h := ReadOfNull] == w3.handlers;
    ExecThree(w, Deliver(h, id), w1, Load(h), w2, Load(h), w3, []);
    assert [Deliver(h, id), Load(h), Load(h)] + [] == [Deliver(h, id), Load(h), Load(h)];
  }

  /** Both loads of a handler: it holds the row it found, or a new one. */
  lemma Loads(w: World, h: nat, id: Id) returns (w1: World, w2: World, w3: World)
    requires HasIntegrations(w.artists, id) && w.artists[id].id == id && h !in w.handlers && id in w.queue
    ensures Next(w, Deliver(h, id)) == Some(w1) && Next(w1, Load(h)) == Some(w2) && Next(w2, Load(h)) == Some(w3)
    ensures w3.extras == w.extras && w3.completed == w.completed
    ensures var found := FoundOrNew(id, Row(w.extras, id));
            w3.handlers == w.handlers[h :=
              if DiscogsId(w.artists[id].integrations.value).Some? then Waiting(w.artists[id], found) else Ready(found)]
  {
    w1 := Next(w, Deliver(h, id)).value;
    w2 := Next(w1, Load(h)).value;
    w3 := Next(w2, Load(h)).value;
  }

  lemma Open(w: World, h: nat, id: Id, rest: seq<Step>) returns (w': World)
    requires Safe(w) && h !in w.handlers && id in w.queue
    ensures Exec(w, [Deliver(h, id), Load(h), Load(h)] + rest) == Exec(w', rest)
    ensures w'.extras == w.extras && w'.completed == w.completed
    ensures h in w'.handlers && w'.handlers - {h} == w.handlers
    ensures var found := FoundOrNew(id, Row(w.extras, id));
            w'.handlers[h] == if DiscogsId(w.artists[id].integrations.value).Some? then Waiting(w.artists[id], found) else Ready(found)
  {
    var w1, w2, w3 := Loads(w, h, id);
    w' := w3;
    ExecThree(w, Deliver(h, id), w1, Load(h), w2, Load(h), w3, rest);
  }

  lemma ExecThree(w: World, s1: Step, w1: World, s2: Step, w2: World, s3: Step, w3: World, rest: seq<Step>)
    requires Next(w, s1) == Some(w1) && Next(w1, s2) == Some(w2) && Next(w2, s3) == Some(w3)
    ensures Exec(w, [s1, s2, s3] + rest) == Exec(w3, rest)
  {
    Regrouped(s1, s2, s3, rest);
    ExecFront(w, s1, w1, [s2, s3] + rest);
    ExecFront(w1, s2, w2, [s3] + rest);
    ExecFront(w2, s3, w3, rest);
  }

  lemma Regrouped(s1: Step, s2: Step, s3: Step, rest: seq<Step>)
    ensures [s1, s2, s3] + rest == [s1] + ([s2, s3] + rest)
    ensures [s2, s3] + rest == [s2] + ([s3] + rest)
  {
  }

  lemma ExecFront(w: World, s: Step, w': World, rest: seq<Step>)
    requires Next(w, s) == Some(w')
    ensures Exec(w, [s] + rest) == Exec(w', rest)
  {
    ExecCons(w, [s] + rest);
    assert ([s] + rest)[1..] == rest;
  }

  lemma FinishFetch(w: World, w': World, h: nat, reply: HttpReply, rest: seq<Step>)
    requires h !in w.handlers && h in w'.handlers && w'.handlers[h].Waiting? && w'.handlers - {h} == w.handlers
    requires rest == [Fetch(h, reply)] + if EnrichArtist(reply).Ok? then [Save(h)] else []
    ensures var end := Exec(w', rest);
            && end.Some? && end.value.handlers == w.handlers
            && (EnrichArtist(reply).Err? ==> end.value.extras == w'.extras && end.value.completed == w'.completed)
            && (EnrichArtist(reply).Ok? ==>
                  var extra := WithDiscogs(w'.handlers[h].extra, EnrichArtist(reply).value);
                  end.value.extras == w'.extras[extra.id := extra] && end.value.completed == w'.completed + {extra.id})
  {
    ExecCons(w', rest);
    var w4 := Next(w', Fetch(h, reply)).value;
    if EnrichArtist(reply).Ok? {
      assert rest[1..] == [Save(h)];
      assert w4.handlers - {h} == w.handlers;
      FinishSave(w, w4, h);
    } else {
      assert rest[1..] == [];
    }
  }

  lemma FinishSave(w: World, w': World, h: nat)
    requires h !in w.handlers && h in w'.handlers && w'.handlers[h].Ready? && w'.handlers - {h} == w.handlers
    ensures var extra := w'.handlers[h].extra;
            var end := Exec(w', [Save(h)]);
            && end.Some? && end.value.handlers == w.handlers
            && end.value.extras == w'.extras[extra.id := extra]
            && end.value.completed == w'.completed + {extra.id}
  {
  }
}
