/** What holds over every run of setups, teardowns and table changes: which databases a
    teardown may drop, and what the app user may do. */
module DbSafety {
  import opened Prelude
  import opened Cluster
  import opened DbInit
  import opened DbConvergence

  /** Setups and teardowns with any configurations, cut short anywhere, and relations that
      come and go; only the setup makes a relation of the marker's name. */
  datatype Event =
    | SetUp(cfg: Env, b: Budgets)
    | TearDown(cfg: Env, budget: nat)
    | CreateRelation(database: Name, schema: Name, name: Name, kind: Kind, owner: Name)
    | DropRelation(database: Name, schema: Name, name: Name)

  function WithSchema(c: State, database: Name, schema: Name, s: Schema): State
    requires database in c.databases
  {
    var db := c.databases[database];
    c.(databases := c.databases[database := db.(schemas := db.schemas[schema := s])])
  }

  function Apply(e: Event, c: State): State {
    match e
    case SetUp(cfg, b) => Setup(cfg, c, b).state
    case TearDown(cfg, budget) => Teardown(cfg, c, budget).state
    case CreateRelation(database, schema, name, kind, owner) =>
      if database !in c.databases || schema !in c.databases[database].schemas || name == MARKER
         || name in c.databases[database].schemas[schema].relations then c
      else
        var s := c.databases[database].schemas[schema];
        WithSchema(c, database, schema,
          s.(relations := s.relations[name := Relation(kind, owner, DefaultAcl(s, owner, kind), {})]))
    case DropRelation(database, schema, name) =>
      if database !in c.databases || schema !in c.databases[database].schemas then c
      else
        var s := c.databases[database].schemas[schema];
        WithSchema(c, database, schema, s.(relations := s.relations - {name}))
  }

  function Run(c: State, events: seq<Event>): State {
    if events == [] then c else Apply(events[|events| - 1], Run(c, events[..|events| - 1]))
  }

  // ---- Schemas and databases only grow in privileges ----

  /** Usage and defaults stay; relations that stay keep owner, kind and grants; new ones have at least
      the default privileges. */
  ghost predicate Grows(s: Schema, s': Schema) {
    && s.usage <= s'.usage && s.defaults <= s'.defaults
    && forall n :: n in s'.relations ==>
         var r' := s'.relations[n];
         || (n in s.relations && r'.owner == s.relations[n].owner && r'.kind == s.relations[n].kind
             && s.relations[n].grants <= r'.grants)
         || DefaultAcl(s, r'.owner, r'.kind) <= r'.grants
  }

  ghost predicate AllGrow(schemas: Schemas, schemas': Schemas) {
    forall n :: n in schemas ==> n in schemas' && Grows(schemas[n], schemas'[n])
  }

  ghost predicate Carried(db: Database, db': Database) {
    db'.oid == db.oid && AllGrow(db.schemas, db'.schemas)
  }

  lemma AllGrowTransitive(a: Schemas, b: Schemas, c: Schemas)
    requires AllGrow(a, b) && AllGrow(b, c)
    ensures AllGrow(a, c)
  {
  }

  lemma ProvideGrows(cfg: Env, s: Schema)
    ensures Grows(s, Provide(cfg, s))
  {
  }

  lemma MarkedGrows(cfg: Env, s: Schema)
    ensures Grows(s, Marked(cfg, s))
  {
  }

  lemma SchemaPhaseGrows(cfg: Env, path: seq<PathEntry>, schemas: Schemas)
    requires SchemaPhase(cfg, path, schemas).Some?
    ensures AllGrow(schemas, SchemaPhase(cfg, path, schemas).value)
  {
    var s := SchemaBefore(schemas, cfg.schema);
    var provided := schemas[cfg.schema := Provide(cfg, s)];
    ProvideGrows(cfg, s);
    assert AllGrow(schemas, provided);
    if cfg.mode == Test {
      MarkerStepForm(cfg, path, provided);
      var home := MarkerHome(cfg, path, provided).value;
      MarkedGrows(cfg, provided[home]);
      assert AllGrow(provided, SchemaPhase(cfg, path, schemas).value);
      AllGrowTransitive(schemas, provided, SchemaPhase(cfg, path, schemas).value);
    }
  }

  // ---- Marker rows ----

  ghost predicate AnyMarker(schemas: Schemas) {
    exists n :: n in schemas && HasMarker(schemas[n])
  }

  /** Only the second phase in test mode writes the marker. */
  lemma NoMarkerWithoutTestMode(cfg: Env, path: seq<PathEntry>, schemas: Schemas)
    requires SchemaPhase(cfg, path, schemas).Some? && cfg.mode != Test
    ensures AnyMarker(SchemaPhase(cfg, path, schemas).value) ==> AnyMarker(schemas)
  {
    var after := SchemaPhase(cfg, path, schemas).value;
    if AnyMarker(after) {
      var n :| n in after && HasMarker(after[n]);
      assert HasMarker(SchemaBefore(schemas, n));
      assert n in schemas && HasMarker(schemas[n]);
    }
  }

  // ---- Invariant of every run ----

  /** The setup got past its second phase, so its marker, if any, is committed. */
  predicate SchemaCommitted(cfg: Env, c: State, b: Budgets) {
    b.users >= |USER_TASKS| && b.schema > |SCHEMA_TASKS|
    && SchemaPhase(cfg, Path(c, cfg.adminUser), SchemasBefore(cfg, c)).Some?
  }

  /** The database, by its creation, that a setup marks. */
  function NewlyMarked(cfg: Env, c: State, b: Budgets): set<nat> {
    if cfg.mode == Test && SchemaCommitted(cfg, c, b) then {Prepared(cfg, c).databases[cfg.database].oid} else {}
  }

  /** The databases that a test-mode setup has marked so far. */
  function MarkedOids(c: State, events: seq<Event>): set<nat> {
    if events == [] then {}
    else
      var before := Run(c, events[..|events| - 1]);
      var e := events[|events| - 1];
      MarkedOids(c, events[..|events| - 1]) + if e.SetUp? then NewlyMarked(e.cfg, before, e.b) else {}
  }

  /** Numbers are each given once and below the next one, and only marked databases hold a
      marker. */
  ghost predicate Inv(c: State, marked: set<nat>) {
    && (forall d :: d in c.databases ==> c.databases[d].oid < c.nextOid)
    && (forall a, b :: a in c.databases && b in c.databases && c.databases[a].oid == c.databases[b].oid ==> a == b)
    && (forall oid :: oid in marked ==> oid < c.nextOid)
    && (forall d :: d in c.databases && AnyMarker(c.databases[d].schemas) ==> c.databases[d].oid in marked)
  }

  /** A database is the one it was or has a number never given before. */
  ghost predicate Numbered(c: State, c': State) {
    && c.nextOid <= c'.nextOid
    && forall d :: d in c'.databases ==>
         || (d in c.databases && c.databases[d].oid == c'.databases[d].oid)
         || c.nextOid <= c'.databases[d].oid
  }

  /** No database is dropped or replaced, and each is carried on. */
  ghost predicate Evolves(c: State, c': State) {
    && Numbered(c, c')
    && forall d :: d in c.databases ==> d in c'.databases && Carried(c.databases[d], c'.databases[d])
  }

  lemma EvolvesTransitive(a: State, b: State, c: State)
    requires Evolves(a, b) && Evolves(b, c)
    ensures Evolves(a, c)
  {
  }

  /** A change that leaves schemas alone, but for a database created empty. */
  ghost predicate PlainChange(c: State, c': State, d: Name) {
    && d in c'.databases && c'.databases.Keys == c.databases.Keys + {d}
    && (forall x :: x in c.databases ==>
          c'.databases[x].oid == c.databases[x].oid && c'.databases[x].schemas == c.databases[x].schemas)
    && c'.nextOid == (if d in c.databases then c.nextOid else c.nextOid + 1)
    && (d !in c.databases ==>
          c'.databases[d].oid == c.nextOid && c'.databases[d].schemas == map[PUBLIC := Schema({}, map[], {})])
  }

  lemma PlainEvolves(c: State, c': State, d: Name)
    requires PlainChange(c, c', d)
    ensures Evolves(c, c')
  {
  }

  lemma PlainInv(c: State, c': State, d: Name, marked: set<nat>)
    requires Inv(c, marked) && PlainChange(c, c', d)
    ensures Inv(c', marked)
  {
  }

  lemma UserTaskForm(t: Task, cfg: Env, c: State)
    requires t in USER_TASKS && Exec(t, cfg, c).Some?
    ensures var c' := Exec(t, cfg, c).value;
            || (c'.databases == c.databases && c'.nextOid == c.nextOid)
            || PlainChange(c, c', cfg.database)
  {
  }

  lemma UserTaskInv(t: Task, cfg: Env, c: State, marked: set<nat>)
    requires t in USER_TASKS && Inv(c, marked) && Exec(t, cfg, c).Some?
    ensures Inv(Exec(t, cfg, c).value, marked)
  {
    var c' := Exec(t, cfg, c).value;
    UserTaskForm(t, cfg, c);
    if c'.databases != c.databases {
      PlainInv(c, c', cfg.database, marked);
    }
  }

  lemma UserTaskEvolves(t: Task, cfg: Env, c: State)
    requires t in USER_TASKS && Exec(t, cfg, c).Some?
    ensures Evolves(c, Exec(t, cfg, c).value)
  {
    var c' := Exec(t, cfg, c).value;
    UserTaskForm(t, cfg, c);
    if c'.databases != c.databases {
      PlainEvolves(c, c', cfg.database);
    }
  }

  lemma {:induction false} UserTasksInv(tasks: seq<Task>, cfg: Env, c: State, budget: nat, marked: set<nat>)
    requires Inv(c, marked) && forall t :: t in tasks ==> t in USER_TASKS
    ensures Inv(Autocommit(tasks, cfg, c, budget).state, marked)
    decreases |tasks|
  {
    if tasks != [] && budget > 0 && Exec(tasks[0], cfg, c).Some? {
      UserTaskInv(tasks[0], cfg, c, marked);
      UserTasksInv(tasks[1..], cfg, Exec(tasks[0], cfg, c).value, budget - 1, marked);
    }
  }

  lemma {:induction false} UserTasksEvolve(tasks: seq<Task>, cfg: Env, c: State, budget: nat)
    requires forall t :: t in tasks ==> t in USER_TASKS
    ensures Evolves(c, Autocommit(tasks, cfg, c, budget).state)
    decreases |tasks|
  {
    if tasks != [] && budget > 0 && Exec(tasks[0], cfg, c).Some? {
      var c1 := Exec(tasks[0], cfg, c).value;
      UserTaskEvolves(tasks[0], cfg, c);
      UserTasksEvolve(tasks[1..], cfg, c1, budget - 1);
      EvolvesTransitive(c, c1, Autocommit(tasks[1..], cfg, c1, budget - 1).state);
    }
  }

  /** New schemas for one database. */
  predicate NewSchemas(c: State, c': State, d: Name, schemas: Schemas) {
    && d in c.databases && c'.nextOid == c.nextOid
    && c'.databases == c.databases[d := c.databases[d].(schemas := schemas)]
  }

  lemma SchemasEvolve(c: State, c': State, d: Name, schemas: Schemas)
    requires NewSchemas(c, c', d, schemas) && AllGrow(c.databases[d].schemas, schemas)
    ensures Evolves(c, c')
  {
  }

  lemma SchemasInv(c: State, c': State, d: Name, schemas: Schemas, marked: set<nat>, marked': set<nat>)
    requires Inv(c, marked) && NewSchemas(c, c', d, schemas)
    requires marked <= marked' <= marked + {c.databases[d].oid}
    requires AnyMarker(schemas) ==> AnyMarker(c.databases[d].schemas) || c.databases[d].oid in marked'
    ensures Inv(c', marked')
  {
  }

  /** The committed second phase, in a prepared cluster. */
  lemma SchemaPhaseStep(cfg: Env, p: State, c': State, after: Schemas, marked: set<nat>)
    requires Inv(p, marked) && NewSchemas(p, c', cfg.database, after)
    requires SchemaPhase(cfg, Path(p, cfg.adminUser), p.databases[cfg.database].schemas) == Some(after)
    ensures Evolves(p, c')
    ensures Inv(c', marked + if cfg.mode == Test then {p.databases[cfg.database].oid} else {})
  {
    var path, before := Path(p, cfg.adminUser), p.databases[cfg.database].schemas;
    SchemaPhaseGrows(cfg, path, before);
    SchemasEvolve(p, c', cfg.database, after);
    if cfg.mode != Test {
      NoMarkerWithoutTestMode(cfg, path, before);
      assert marked + {} == marked;
    }
    SchemasInv(p, c', cfg.database, after, marked, marked + if cfg.mode == Test then {p.databases[cfg.database].oid} else {});
  }

  /** A setup drops nothing, carries every database on, and marks only its own. */
  lemma SetupStep(cfg: Env, c: State, b: Budgets, marked: set<nat>)
    requires Inv(c, marked)
    ensures Evolves(c, Setup(cfg, c, b).state)
    ensures Inv(Setup(cfg, c, b).state, marked + NewlyMarked(cfg, c, b))
  {
    var c' := Setup(cfg, c, b).state;
    var p := Prepared(cfg, c);
    if SchemaCommitted(cfg, c, b) {
      PlainEvolves(c, p, cfg.database);
      PlainInv(c, p, cfg.database, marked);
      SetupForm(cfg, c, b);
      SchemaPhaseStep(cfg, p, c', c'.databases[cfg.database].schemas, marked);
      EvolvesTransitive(c, p, c');
    } else {
      UncommittedStep(cfg, c, b, marked);
      assert marked + NewlyMarked(cfg, c, b) == marked;
    }
  }

  lemma UncommittedStep(cfg: Env, c: State, b: Budgets, marked: set<nat>)
    requires Inv(c, marked) && !SchemaCommitted(cfg, c, b)
    ensures Inv(Setup(cfg, c, b).state, marked) && Evolves(c, Setup(cfg, c, b).state)
  {
    UserTasksInv(USER_TASKS, cfg, c, b.users, marked);
    UserTasksEvolve(USER_TASKS, cfg, c, b.users);
    UsersPhase(cfg, c, b.users);
    if b.users >= |USER_TASKS| {
      SchemaTransaction(cfg, Prepared(cfg, c), b.schema);
    }
  }

  /** Replacing one schema by one that has grown, with no new marker. */
  lemma RelationStep(c: State, database: Name, schema: Name, s': Schema, marked: set<nat>)
    requires Inv(c, marked) && database in c.databases && schema in c.databases[database].schemas
    requires Grows(c.databases[database].schemas[schema], s')
    requires HasMarker(s') ==> HasMarker(c.databases[database].schemas[schema])
    ensures Evolves(c, WithSchema(c, database, schema, s')) && Inv(WithSchema(c, database, schema, s'), marked)
  {
    var schemas := c.databases[database].schemas;
    NoNewMarker(schemas, schema, s');
    assert AllGrow(schemas, schemas[schema := s']);
    SchemasEvolve(c, WithSchema(c, database, schema, s'), database, schemas[schema := s']);
    SchemasInv(c, WithSchema(c, database, schema, s'), database, schemas[schema := s'], marked, marked);
  }

  lemma NoNewMarker(schemas: Schemas, schema: Name, s': Schema)
    requires schema in schemas && (HasMarker(s') ==> HasMarker(schemas[schema]))
    ensures AnyMarker(schemas[schema := s']) ==> AnyMarker(schemas)
  {
  }

  /** A teardown changes nothing, or it drops one database: its own, in test mode, with the
      marker in sight. */
  lemma TeardownStep(cfg: Env, c: State, budget: nat)
    ensures var c' := Teardown(cfg, c, budget).state;
            c' != c ==>
              && cfg.mode == Test && cfg.database in c.databases && MarkerVisible(cfg, c)
              && cfg.database != MAINTENANCE_DB
              && c' == c.(databases := c.databases - {cfg.database})
  {
  }

  lemma RelationEventStep(e: Event, c: State, marked: set<nat>)
    requires Inv(c, marked) && (e.CreateRelation? || e.DropRelation?)
    ensures Inv(Apply(e, c), marked) && Evolves(c, Apply(e, c))
  {
    if Apply(e, c) == c {
      return;
    }
    var s := c.databases[e.database].schemas[e.schema];
    match e
    case CreateRelation(database, schema, name, kind, owner) =>
      RelationStep(c, database, schema,
        s.(relations := s.relations[name := Relation(kind, owner, DefaultAcl(s, owner, kind), {})]), marked);
    case DropRelation(database, schema, name) =>
      RelationStep(c, database, schema, s.(relations := s.relations - {name}), marked);
  }

  /** What disappears in a teardown. */
  ghost predicate DropsOnlyMarked(cfg: Env, c: State, c': State, marked: set<nat>) {
    forall d :: d in c.databases ==>
      || (d in c'.databases && c'.databases[d] == c.databases[d])
      || (cfg.mode == Test && d == cfg.database && MarkerVisible(cfg, c) && c.databases[d].oid in marked)
  }

  lemma TeardownEventStep(cfg: Env, c: State, budget: nat, marked: set<nat>)
    requires Inv(c, marked)
    ensures var c' := Teardown(cfg, c, budget).state;
            Inv(c', marked) && Numbered(c, c') && DropsOnlyMarked(cfg, c, c', marked)
  {
    TeardownStep(cfg, c, budget);
  }

  /** One event: what may disappear, and that the rest is carried on. */
  lemma EventStep(e: Event, c: State, marked: set<nat>)
    requires Inv(c, marked)
    ensures Inv(Apply(e, c), marked + if e.SetUp? then NewlyMarked(e.cfg, c, e.b) else {})
    ensures Numbered(c, Apply(e, c))
    ensures if e.TearDown? then DropsOnlyMarked(e.cfg, c, Apply(e, c), marked) else Evolves(c, Apply(e, c))
  {
    assert marked + {} == marked;
    match e
    case SetUp(cfg, b) => SetupStep(cfg, c, b, marked);
    case TearDown(cfg, budget) => TeardownEventStep(cfg, c, budget, marked);
    case _ => RelationEventStep(e, c, marked);
  }

  lemma {:induction false} RunInv(c: State, events: seq<Event>)
    requires Inv(c, {})
    ensures Inv(Run(c, events), MarkedOids(c, events))
  {
    if events != [] {
      var last := |events| - 1;
      RunInv(c, events[..last]);
      EventStep(events[last], Run(c, events[..last]), MarkedOids(c, events[..last]));
    }
  }

  /** Event `i` is a test-mode setup that commits its marker in the database numbered `oid`. */
  ghost predicate Marks(c: State, events: seq<Event>, i: int, oid: nat) {
    && 0 <= i < |events|
    && events[i].SetUp? && events[i].cfg.mode == Test
    && oid in NewlyMarked(events[i].cfg, Run(c, events[..i]), events[i].b)
  }

  lemma MarksInPrefix(c: State, events: seq<Event>, n: nat, i: int, oid: nat)
    requires n <= |events| && Marks(c, events[..n], i, oid)
    ensures Marks(c, events, i, oid) && i < n
  {
    assert events[..n][..i] == events[..i];
  }

  /** What it takes to be marked: some setup of the run has marked it. */
  lemma {:induction false} MarkedBySetup(c: State, events: seq<Event>, oid: nat) returns (i: int)
    requires oid in MarkedOids(c, events)
    ensures Marks(c, events, i, oid)
  {
    var last := |events| - 1;
    if oid in MarkedOids(c, events[..last]) {
      i := MarkedBySetup(c, events[..last], oid);
      MarksInPrefix(c, events, last, i, oid);
    } else {
      i := last;
    }
  }

  /** Database `d` of the first cluster is still there in the second. */
  predicate Survives(d: Name, c: State, c': State) {
    d in c.databases && d in c'.databases && c.databases[d].oid == c'.databases[d].oid
  }

  /** Teardown safety: over any run from a cluster without markers, a database disappears
      only by a test-mode teardown configured for it, and only after a test-mode setup of the
      run had committed its marker into that same creation of the database. */
  lemma TeardownSafety(c: State, events: seq<Event>, d: Name) returns (i: int)
    requires Inv(c, {}) && events != []
    requires d in Run(c, events[..|events| - 1]).databases
    requires !Survives(d, Run(c, events[..|events| - 1]), Run(c, events))
    ensures var e := events[|events| - 1];
            e.TearDown? && e.cfg.mode == Test && e.cfg.database == d
    ensures i < |events| - 1 && Marks(c, events, i, Run(c, events[..|events| - 1]).databases[d].oid)
  {
    var last := |events| - 1;
    var before := Run(c, events[..last]);
    RunInv(c, events[..last]);
    EventStep(events[last], before, MarkedOids(c, events[..last]));
    i := MarkedBySetup(c, events[..last], before.databases[d].oid);
    MarksInPrefix(c, events, last, i, before.databases[d].oid);
  }

  // ---- Privileges of the app user ----

  /** The app user may use every relation of the schema that the admin owns, and will be
      able to use the ones the admin creates. */
  ghost predicate Granted(cfg: Env, s: Schema) {
    && cfg.appUser in s.usage
    && (forall kind: Kind, a :: a in Wanted(cfg.appUser, kind) ==> Default(cfg.adminUser, kind, a) in s.defaults)
    && (forall n :: n in s.relations && s.relations[n].owner == cfg.adminUser ==>
          Wanted(cfg.appUser, s.relations[n].kind) <= s.relations[n].grants)
  }

  lemma GrantedByDefaults(cfg: Env, s: Schema)
    requires Provided(cfg, s)
    ensures Granted(cfg, s)
  {
    WantedIsGranted(cfg.appUser, TableKind);
    WantedIsGranted(cfg.appUser, SequenceKind);
    forall kind: Kind, a | a in Wanted(cfg.appUser, kind)
      ensures Default(cfg.adminUser, kind, a) in s.defaults
    {
      assert a in AclFor(cfg.appUser, kind);
      assert Default(cfg.adminUser, kind, a) in DefaultsFor(cfg.adminUser, cfg.appUser, kind);
    }
  }

  lemma GrantedCarries(cfg: Env, s: Schema, s': Schema)
    requires Granted(cfg, s) && Grows(s, s')
    ensures Granted(cfg, s')
  {
    forall n | n in s'.relations && s'.relations[n].owner == cfg.adminUser
      ensures Wanted(cfg.appUser, s'.relations[n].kind) <= s'.relations[n].grants
    {
      DefaultsReach(cfg, s, s'.relations[n].kind);
    }
  }

  lemma DefaultsReach(cfg: Env, s: Schema, kind: Kind)
    requires Granted(cfg, s)
    ensures Wanted(cfg.appUser, kind) <= DefaultAcl(s, cfg.adminUser, kind)
  {
    forall a | a in Wanted(cfg.appUser, kind)
      ensures a in DefaultAcl(s, cfg.adminUser, kind)
    {
      assert Default(cfg.adminUser, kind, a) in s.defaults;
    }
  }

  ghost predicate CarriedWhileThere(d: Name, c: State, c': State) {
    Numbered(c, c') && (Survives(d, c, c') ==> Carried(c.databases[d], c'.databases[d]))
  }

  /** Numbers rise, so a database that has its number in the end had it in between. */
  lemma CarriedTransitive(d: Name, a: State, b: State, c: State)
    requires CarriedWhileThere(d, a, b) && CarriedWhileThere(d, b, c)
    requires forall x :: x in a.databases ==> a.databases[x].oid < a.nextOid
    ensures CarriedWhileThere(d, a, c)
  {
    forall x | x in c.databases && !(x in a.databases && a.databases[x].oid == c.databases[x].oid)
      ensures a.nextOid <= c.databases[x].oid
    {
      assert (x in b.databases && b.databases[x].oid == c.databases[x].oid) || b.nextOid <= c.databases[x].oid;
    }
    if Survives(d, a, c) {
      AllGrowTransitive(a.databases[d].schemas, b.databases[d].schemas, c.databases[d].schemas);
    }
  }

  lemma EventCarries(d: Name, e: Event, c: State, marked: set<nat>)
    requires Inv(c, marked)
    ensures CarriedWhileThere(d, c, Apply(e, c))
  {
    EventStep(e, c, marked);
  }

  /** A database that is still there was carried on through every event of the run. */
  lemma {:induction false} RunCarries(d: Name, c: State, marked: set<nat>, events: seq<Event>) returns (marked': set<nat>)
    requires Inv(c, marked)
    ensures Inv(Run(c, events), marked') && CarriedWhileThere(d, c, Run(c, events))
  {
    marked' := marked;
    if events != [] {
      var last := |events| - 1;
      var before := Run(c, events[..last]);
      var m := RunCarries(d, c, marked, events[..last]);
      EventCarries(d, events[last], before, m);
      CarriedTransitive(d, c, before, Run(c, events));
      marked' := AfterEvent(events[last], before, m);
    }
  }

  lemma AfterEvent(e: Event, c: State, marked: set<nat>) returns (marked': set<nat>)
    requires Inv(c, marked)
    ensures Inv(Apply(e, c), marked')
  {
    EventStep(e, c, marked);
    marked' := marked + if e.SetUp? then NewlyMarked(e.cfg, c, e.b) else {};
  }

  /** What the app user can do in the schema, privilege by privilege: all that is wanted on
      every table and sequence the admin owns, and on those the admin will create. */
  ghost predicate Served(cfg: Env, s: Schema) {
    var app := cfg.appUser;
    && app in s.usage
    && (forall n :: n in s.relations && s.relations[n].owner == cfg.adminUser && s.relations[n].kind == TableKind ==>
          {Acl(app, Select), Acl(app, Insert), Acl(app, Update), Acl(app, Delete)} <= s.relations[n].grants)
    && (forall n :: n in s.relations && s.relations[n].owner == cfg.adminUser && s.relations[n].kind == SequenceKind ==>
          {Acl(app, Usage), Acl(app, Select)} <= s.relations[n].grants)
    && {Default(cfg.adminUser, TableKind, Acl(app, Select)), Default(cfg.adminUser, TableKind, Acl(app, Insert)),
        Default(cfg.adminUser, TableKind, Acl(app, Update)), Default(cfg.adminUser, TableKind, Acl(app, Delete)),
        Default(cfg.adminUser, SequenceKind, Acl(app, Usage)), Default(cfg.adminUser, SequenceKind, Acl(app, Select))}
       <= s.defaults
  }

  lemma GrantedServes(cfg: Env, s: Schema)
    requires Granted(cfg, s)
    ensures Served(cfg, s)
  {
    var app := cfg.appUser;
    assert Acl(app, Select) in Wanted(app, TableKind) && Acl(app, Insert) in Wanted(app, TableKind);
    assert Acl(app, Update) in Wanted(app, TableKind) && Acl(app, Delete) in Wanted(app, TableKind);
    assert Acl(app, Usage) in Wanted(app, SequenceKind) && Acl(app, Select) in Wanted(app, SequenceKind);
  }

  lemma GrantedLater(cfg: Env, c: State, b: Budgets, marked: set<nat>, events: seq<Event>)
    requires Inv(c, marked) && Setup(cfg, c, b).ok
    requires Survives(cfg.database, Setup(cfg, c, b).state, Run(Setup(cfg, c, b).state, events))
    ensures var later := Run(Setup(cfg, c, b).state, events);
            cfg.schema in later.databases[cfg.database].schemas && Granted(cfg, later.databases[cfg.database].schemas[cfg.schema])
  {
    var done := Setup(cfg, c, b).state;
    var s := SetupGrants(cfg, c, b);
    SetupStep(cfg, c, b, marked);
    var _ := RunCarries(cfg.database, done, marked + NewlyMarked(cfg, c, b), events);
    GrantedCarries(cfg, s, Run(done, events).databases[cfg.database].schemas[cfg.schema]);
  }

  /** Grants hold from a completed setup on: after any further events, as long as this
      creation of the database exists, the app user holds SELECT, INSERT, UPDATE and DELETE on
      every table and USAGE and SELECT on every sequence of the schema that the admin owns,
      whether it was there before the setup, came since or is yet to come. */
  lemma GrantsHold(cfg: Env, c: State, b: Budgets, marked: set<nat>, events: seq<Event>)
    requires Inv(c, marked) && Setup(cfg, c, b).ok
    ensures var done := Setup(cfg, c, b).state;
            Survives(cfg.database, done, Run(done, events)) ==>
              && cfg.schema in Run(done, events).databases[cfg.database].schemas
              && Served(cfg, Run(done, events).databases[cfg.database].schemas[cfg.schema])
  {
    var done := Setup(cfg, c, b).state;
    if Survives(cfg.database, done, Run(done, events)) {
      GrantedLater(cfg, c, b, marked, events);
      GrantedServes(cfg, Run(done, events).databases[cfg.database].schemas[cfg.schema]);
    }
  }

  /** A table or sequence that the admin creates after all that is really there, is the
      admin's, and serves the app user like the others. */
  lemma NewRelationServes(cfg: Env, c: State, b: Budgets, marked: set<nat>, events: seq<Event>, name: Name, kind: Kind)
    requires Inv(c, marked) && Setup(cfg, c, b).ok
    requires Survives(cfg.database, Setup(cfg, c, b).state, Run(Setup(cfg, c, b).state, events))
    ensures var later := Run(Setup(cfg, c, b).state, events);
            && cfg.schema in later.databases[cfg.database].schemas
            && (name != MARKER && name !in later.databases[cfg.database].schemas[cfg.schema].relations ==>
                  var after := Apply(CreateRelation(cfg.database, cfg.schema, name, kind, cfg.adminUser), later);
                  && cfg.database in after.databases && cfg.schema in after.databases[cfg.database].schemas
                  && name in after.databases[cfg.database].schemas[cfg.schema].relations
                  && after.databases[cfg.database].schemas[cfg.schema].relations[name].owner == cfg.adminUser
                  && after.databases[cfg.database].schemas[cfg.schema].relations[name].kind == kind
                  && Served(cfg, after.databases[cfg.database].schemas[cfg.schema]))
  {
    GrantedLater(cfg, c, b, marked, events);
    var s := Run(Setup(cfg, c, b).state, events).databases[cfg.database].schemas[cfg.schema];
    if name !in s.relations {
      GrantedWithRelation(cfg, s, name, kind);
    }
  }

  /** A relation that is dropped is gone, and nothing else in its schema. */
  lemma DroppedRelation(c: State, database: Name, schema: Name, name: Name)
    requires database in c.databases && schema in c.databases[database].schemas
    ensures var after := Apply(DropRelation(database, schema, name), c);
            && database in after.databases && schema in after.databases[database].schemas
            && after.databases[database].schemas[schema].relations == c.databases[database].schemas[schema].relations - {name}
  {
  }

  lemma GrantedWithRelation(cfg: Env, s: Schema, name: Name, kind: Kind)
    requires Granted(cfg, s) && name !in s.relations
    ensures Served(cfg, s.(relations := s.relations[name := Relation(kind, cfg.adminUser, DefaultAcl(s, cfg.adminUser, kind), {})]))
  {
    var s' := s.(relations := s.relations[name := Relation(kind, cfg.adminUser, DefaultAcl(s, cfg.adminUser, kind), {})]);
    GrantedCarries(cfg, s, s');
    GrantedServes(cfg, s');
  }

  lemma SetupGrants(cfg: Env, c: State, b: Budgets) returns (s: Schema)
    requires Setup(cfg, c, b).ok
    ensures var done := Setup(cfg, c, b).state;
            && cfg.database in done.databases && cfg.schema in done.databases[cfg.database].schemas
            && s == done.databases[cfg.database].schemas[cfg.schema] && Granted(cfg, s)
  {
    SetupForm(cfg, c, b);
    SchemaPhaseSettles(cfg, Path(c, cfg.adminUser), SchemasBefore(cfg, c));
    s := Setup(cfg, c, b).state.databases[cfg.database].schemas[cfg.schema];
    GrantedByDefaults(cfg, s);
  }
}
