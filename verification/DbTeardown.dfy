/** Setup followed by teardown: when the superuser finds the marker the admin left. */
module DbTeardown {
  import opened Prelude
  import opened Cluster
  import opened DbInit
  import opened DbConvergence

  /** The marker of a fresh cluster lies in the schema named like the admin, if the configured
      schema is; else in the public one, where everybody looks. */
  predicate MarkerInSight(cfg: Env) {
    cfg.schema != cfg.adminUser || cfg.adminUser == PUBLIC || cfg.superuser in {cfg.adminUser, cfg.appUser}
  }

  function FreshMarkerHome(cfg: Env): Name {
    if cfg.schema == cfg.adminUser then cfg.schema else PUBLIC
  }

  const EMPTY_DATABASE: Schemas := map[PUBLIC := Schema({}, map[], {})]

  /** What the second phase makes of an empty database in test mode: the configured and the
      public schema, and one marker. */
  lemma FreshMarker(cfg: Env)
    requires cfg.mode == Test
    ensures var after := SchemaPhase(cfg, [UserSchema, In(PUBLIC)], EMPTY_DATABASE);
            && after.Some? && FreshMarkerHome(cfg) in after.value
            && HasMarker(after.value[FreshMarkerHome(cfg)])
            && forall n :: n in after.value && MARKER in after.value[n].relations ==> n == FreshMarkerHome(cfg)
  {
    var s := SchemaBefore(EMPTY_DATABASE, cfg.schema);
    assert s.relations == map[];
    var provided := EMPTY_DATABASE[cfg.schema := Provide(cfg, s)];
    assert provided.Keys == {PUBLIC, cfg.schema};
    assert forall n :: n in provided ==> MARKER !in provided[n].relations;
    FreshHome(cfg);
    MarkerStepForm(cfg, [UserSchema, In(PUBLIC)], provided);
  }

  /** Of the schemas on a path of two, the one with the relation is found. */
  lemma ResolveOnlyHome(role: Name, first: PathEntry, second: PathEntry, schemas: Schemas, relation: Name, home: Name)
    requires home in schemas && relation in schemas[home].relations
    requires forall n :: n in schemas && relation in schemas[n].relations ==> n == home
    ensures Resolve(role, [first, second], schemas, relation)
         == if home in {SchemaOf(role, first), SchemaOf(role, second)} then Some(home) else None
  {
    assert [first, second][1..] == [second];
    assert [second][1..] == [];
    assert Resolve(role, [], schemas, relation) == None;
    assert Resolve(role, [second], schemas, relation) == if SchemaOf(role, second) == home then Some(home) else None;
  }

  /** The cluster after a completed setup of a fresh one. */
  lemma FreshComplete(cfg: Env, c: State) returns (db: Database)
    requires Fresh(cfg, c)
    ensures Complete(cfg, c).ok
    ensures Complete(cfg, c).state.databases == c.databases[cfg.database := db]
    ensures SchemaPhase(cfg, [UserSchema, In(PUBLIC)], EMPTY_DATABASE) == Some(db.schemas)
    ensures Path(Complete(cfg, c).state, cfg.superuser)
         == [if cfg.superuser == cfg.appUser then In(cfg.schema) else UserSchema, In(PUBLIC)]
  {
    FreshSetup(cfg, c);
    CompleteForm(cfg, c);
    assert SchemasBefore(cfg, c) == EMPTY_DATABASE;
    db := Complete(cfg, c).state.databases[cfg.database];
  }

  lemma FreshMarkerVisible(cfg: Env, c: State)
    requires Fresh(cfg, c) && cfg.mode == Test
    ensures cfg.database in Complete(cfg, c).state.databases
    ensures MarkerVisible(cfg, Complete(cfg, c).state) <==> MarkerInSight(cfg)
  {
    var db := FreshComplete(cfg, c);
    FreshMarker(cfg);
    var first := if cfg.superuser == cfg.appUser then In(cfg.schema) else UserSchema;
    ResolveOnlyHome(cfg.superuser, first, In(PUBLIC), db.schemas, MARKER, FreshMarkerHome(cfg));
  }

  lemma TeardownForm(cfg: Env, c: State, budget: nat)
    requires cfg.mode == Test && cfg.database in c.databases && budget > 0
    ensures Teardown(cfg, c, budget)
         == if !MarkerVisible(cfg, c) then RunResult(c, true)
            else if cfg.database == "postgres" then RunResult(c, false)
            else RunResult(c.(databases := c.databases - {cfg.database}), true)
  {
  }

  /** Teardown after a completed test-mode setup of a fresh cluster brings the databases back
      to what they were exactly when the marker is in sight and the database is not the one
      the superuser connects to for the drop; otherwise it changes nothing. */
  lemma TeardownUndoesSetup(cfg: Env, c: State, budget: nat)
    requires Fresh(cfg, c) && cfg.mode == Test && budget > 0
    ensures var done := Complete(cfg, c).state;
            var r := Teardown(cfg, done, budget);
            && (r.state.databases == c.databases <==> MarkerInSight(cfg) && cfg.database != "postgres")
            && (r.state == done || r.state == done.(databases := c.databases))
            && (r.ok <==> (MarkerInSight(cfg) ==> cfg.database != "postgres"))
  {
    var done := Complete(cfg, c).state;
    var db := FreshComplete(cfg, c);
    FreshMarkerVisible(cfg, c);
    TeardownForm(cfg, done, budget);
    assert c.databases[cfg.database := db] - {cfg.database} == c.databases;
  }

  // ---- Any start ----

  /** The search path the superuser has after a completed setup. */
  function SuperuserPath(cfg: Env, c: State): seq<PathEntry> {
    if cfg.superuser == cfg.appUser then [In(cfg.schema), In(PUBLIC)] else Path(c, cfg.superuser)
  }

  /** A marker in this schema, once the setup has put one into `home`. */
  predicate HoldsMarker(schemas: Schemas, home: Name, n: Name) {
    n == home || (n in schemas && HasMarker(schemas[n]))
  }

  /** Of the schemas that have a relation of the marker's name before the setup, and the one it
      puts the marker into, the first on the superuser's path is one with a marker. */
  ghost predicate MarkerToBeSeen(cfg: Env, c: State) {
    var before, path := SchemasBefore(cfg, c), SuperuserPath(cfg, c);
    var home := CreationSchema(cfg.adminUser, Path(c, cfg.adminUser), before.Keys + {cfg.schema});
    home.Some? &&
    exists i :: FirstOn(cfg.superuser, path, i, Having(before, MARKER) + {home.value})
      && HoldsMarker(before, home.value, SchemaOf(cfg.superuser, path[i]))
  }

  /** Where the second phase leaves relations of the marker's name, and markers. */
  lemma MarkersAfter(cfg: Env, path: seq<PathEntry>, before: Schemas) returns (home: Name)
    requires cfg.mode == Test && SchemaPhase(cfg, path, before).Some?
    ensures var after := SchemaPhase(cfg, path, before).value;
            && CreationSchema(cfg.adminUser, path, before.Keys + {cfg.schema}) == Some(home)
            && Having(after, MARKER) == Having(before, MARKER) + {home}
            && forall n :: n in after ==> (HasMarker(after[n]) <==> HoldsMarker(before, home, n))
  {
    var provided := before[cfg.schema := Provide(cfg, SchemaBefore(before, cfg.schema))];
    assert provided.Keys == before.Keys + {cfg.schema};
    MarkerStepForm(cfg, path, provided);
    home := MarkerHome(cfg, path, provided).value;
    ProvidedMarkers(cfg, before);
    MarkedMarkers(cfg, provided, home);
  }

  lemma ProvidedMarkers(cfg: Env, before: Schemas)
    ensures var provided := before[cfg.schema := Provide(cfg, SchemaBefore(before, cfg.schema))];
            && Having(provided, MARKER) == Having(before, MARKER)
            && forall n :: n in provided ==> (HasMarker(provided[n]) <==> n in before && HasMarker(before[n]))
  {
  }

  lemma MarkedMarkers(cfg: Env, schemas: Schemas, home: Name)
    requires home in schemas && CreateTable(schemas[home], MARKER, cfg.adminUser).relations[MARKER].kind == TableKind
    ensures var after := schemas[home := Marked(cfg, schemas[home])];
            && Having(after, MARKER) == Having(schemas, MARKER) + {home}
            && forall n :: n in after ==> (HasMarker(after[n]) <==> n == home || HasMarker(schemas[n]))
  {
  }

  lemma VisibleAfterSetup(cfg: Env, c: State)
    requires cfg.mode == Test && Complete(cfg, c).ok
    ensures cfg.database in Complete(cfg, c).state.databases
    ensures MarkerVisible(cfg, Complete(cfg, c).state) <==> MarkerToBeSeen(cfg, c)
  {
    CompleteForm(cfg, c);
    var done := Complete(cfg, c).state;
    var home := MarkersAfter(cfg, Path(c, cfg.adminUser), SchemasBefore(cfg, c));
    assert Path(done, cfg.superuser) == SuperuserPath(cfg, c);
    SeenIsVisible(cfg, done);
  }

  /** Teardown after a completed test-mode setup, from any start: the database is gone, and
      nothing else, exactly when the superuser will see the marker and the database is not the
      one connected to for the drop; otherwise nothing changes. */
  lemma TeardownAfterSetup(cfg: Env, c: State, budget: nat)
    requires cfg.mode == Test && Complete(cfg, c).ok && budget > 0
    ensures var done := Complete(cfg, c).state;
            var r := Teardown(cfg, done, budget);
            && (cfg.database !in r.state.databases <==> MarkerToBeSeen(cfg, c) && cfg.database != "postgres")
            && (r.state == done || r.state == done.(databases := c.databases - {cfg.database}))
            && (r.ok <==> (MarkerToBeSeen(cfg, c) ==> cfg.database != "postgres"))
  {
    var done := Complete(cfg, c).state;
    VisibleAfterSetup(cfg, c);
    TeardownForm(cfg, done, budget);
    SetupMeans(cfg, c, FULL);
  }

  /** A configuration whose teardown leaves the test database behind: the schema carries the
      admin's name, so the marker is out of the superuser's sight. */
  lemma OwnNamedSchemaNotTornDown(c: State, budget: nat)
    requires "collection" !in c.databases && c.paths == map[] && budget > 0
    ensures var cfg := Env("postgres", "collection", "owner", "owner", "app", Test);
            var done := Complete(cfg, c).state;
            && Complete(cfg, c).ok && Teardown(cfg, done, budget) == RunResult(done, true)
            && "collection" in done.databases
  {
    var cfg := Env("postgres", "collection", "owner", "owner", "app", Test);
    assert cfg.adminUser[0] == 'o' && PUBLIC[0] == 'p' && cfg.superuser[0] == 'p' && cfg.appUser[0] == 'a';
    assert cfg.database[0] == 'c';
    FreshSetup(cfg, c);
    FreshMarkerVisible(cfg, c);
  }
}
