/** Interrupted and repeated setups: what one completed run makes of them. */
module DbConvergence {
  import opened Prelude
  import opened Cluster
  import opened DbInit

  /** Budgets that no run exhausts. */
  const FULL := Budgets(|USER_TASKS|, |SCHEMA_TASKS| + 1, |PATH_TASKS| + 1)

  function Complete(cfg: Env, c: State): RunResult {
    Setup(cfg, c, FULL)
  }

  // ---- First phase ----

  function DatabaseBefore(cfg: Env, c: State): Database {
    if cfg.database in c.databases then c.databases[cfg.database] else NewDatabase(c.nextOid, cfg.adminUser)
  }

  /** Users and database in place. */
  function Prepared(cfg: Env, c: State): State {
    var db := DatabaseBefore(cfg, c);
    c.(roles := c.roles + {cfg.adminUser, cfg.appUser},
       databases := c.databases[cfg.database := db.(connect := db.connect + {cfg.adminUser, cfg.appUser})],
       nextOid := if cfg.database in c.databases then c.nextOid else c.nextOid + 1)
  }

  ghost predicate IsPrepared(cfg: Env, c: State) {
    && {cfg.adminUser, cfg.appUser} <= c.roles
    && cfg.database in c.databases
    && {cfg.adminUser, cfg.appUser} <= c.databases[cfg.database].connect
  }

  lemma PreparedIsFixed(cfg: Env, c: State)
    requires IsPrepared(cfg, c)
    ensures Prepared(cfg, c) == c
  {
    var db := c.databases[cfg.database];
    assert db.connect + {cfg.adminUser, cfg.appUser} == db.connect;
    assert c.roles + {cfg.adminUser, cfg.appUser} == c.roles;
    assert c.databases[cfg.database := db] == c.databases;
  }

  /** Each task of the first phase is part of the preparation. */
  lemma UserTaskAbsorbed(t: Task, cfg: Env, c: State)
    requires t in USER_TASKS && Exec(t, cfg, c).Some?
    ensures Prepared(cfg, Exec(t, cfg, c).value) == Prepared(cfg, c)
  {
    var c' := Exec(t, cfg, c).value;
    var db, db' := DatabaseBefore(cfg, c), DatabaseBefore(cfg, c');
    assert c'.roles + {cfg.adminUser, cfg.appUser} == c.roles + {cfg.adminUser, cfg.appUser};
    assert db'.connect + {cfg.adminUser, cfg.appUser} == db.connect + {cfg.adminUser, cfg.appUser};
    assert Prepared(cfg, c').databases == Prepared(cfg, c).databases;
  }

  lemma {:induction false} UserPrefixAbsorbed(tasks: seq<Task>, cfg: Env, c: State, budget: nat)
    requires forall t :: t in tasks ==> t in USER_TASKS
    ensures Prepared(cfg, Autocommit(tasks, cfg, c, budget).state) == Prepared(cfg, c)
    decreases |tasks|
  {
    if tasks != [] && budget > 0 && Exec(tasks[0], cfg, c).Some? {
      UserTaskAbsorbed(tasks[0], cfg, c);
      UserPrefixAbsorbed(tasks[1..], cfg, Exec(tasks[0], cfg, c).value, budget - 1);
    }
  }

  /** The first phase never fails: it is cut short, or it prepares. */
  lemma UsersPhase(cfg: Env, c: State, budget: nat)
    ensures var r := Autocommit(USER_TASKS, cfg, c, budget);
            && (r.ok <==> budget >= |USER_TASKS|)
            && (r.ok ==> r.state == Prepared(cfg, c) && IsPrepared(cfg, r.state))
            && (!r.ok ==> Prepared(cfg, r.state) == Prepared(cfg, c))
  {
    UserPrefixAbsorbed(USER_TASKS, cfg, c, budget);
    assert USER_TASKS[1..] == [CreateAppUser, CreateDatabase, GrantConnectAdminUser, GrantConnectAppUser];
    assert USER_TASKS[1..][1..] == [CreateDatabase, GrantConnectAdminUser, GrantConnectAppUser];
    assert USER_TASKS[1..][1..][1..] == [GrantConnectAdminUser, GrantConnectAppUser];
    assert USER_TASKS[1..][1..][1..][1..] == [GrantConnectAppUser];
    var c1 := Exec(CreateAdminUser, cfg, c).value;
    var c2 := Exec(CreateAppUser, cfg, c1).value;
    var c3 := Exec(CreateDatabase, cfg, c2).value;
    var c4 := Exec(GrantConnectAdminUser, cfg, c3).value;
    var c5 := Exec(GrantConnectAppUser, cfg, c4).value;
    if budget >= 5 {
      assert Autocommit([GrantConnectAppUser], cfg, c4, budget - 4) == RunResult(c5, true);
      assert Autocommit(USER_TASKS[1..][1..][1..], cfg, c3, budget - 3) == RunResult(c5, true);
      assert Autocommit(USER_TASKS[1..][1..], cfg, c2, budget - 2) == RunResult(c5, true);
      assert Autocommit(USER_TASKS[1..], cfg, c1, budget - 1) == RunResult(c5, true);
      PreparedIsFixed(cfg, c5);
    } else {
      TooShort(USER_TASKS, cfg, c, budget);
    }
  }

  lemma {:induction false} TooShort(tasks: seq<Task>, cfg: Env, c: State, budget: nat)
    requires budget < |tasks|
    ensures !Autocommit(tasks, cfg, c, budget).ok
  {
    if budget > 0 && Exec(tasks[0], cfg, c).Some? {
      TooShort(tasks[1..], cfg, Exec(tasks[0], cfg, c).value, budget - 1);
    }
  }

  // ---- Second phase ----

  type Schemas = map<Name, Schema>

  function AdminRun(tasks: seq<Task>, cfg: Env, path: seq<PathEntry>, schemas: Schemas): Option<Schemas>
    requires forall t :: t in tasks ==> IsAdminTask(t)
  {
    if tasks == [] then Some(schemas)
    else match AdminExec(tasks[0], cfg, path, schemas)
      case None => None
      case Some(after) => AdminRun(tasks[1..], cfg, path, after)
  }

  function InDatabase(cfg: Env, c: State, schemas: Schemas): State
    requires cfg.database in c.databases
  {
    c.(databases := c.databases[cfg.database := c.databases[cfg.database].(schemas := schemas)])
  }

  /** Admin tasks change the schemas of the target database and nothing else. */
  lemma {:induction false} AdminTasksInDatabase(tasks: seq<Task>, cfg: Env, c: State, budget: nat)
    requires cfg.database in c.databases && forall t :: t in tasks ==> IsAdminTask(t)
    ensures var r := Autocommit(tasks, cfg, c, budget);
            var run := AdminRun(tasks, cfg, Path(c, cfg.adminUser), c.databases[cfg.database].schemas);
            && (r.ok <==> budget >= |tasks| && run.Some?)
            && (r.ok ==> r.state == InDatabase(cfg, c, run.value))
  {
    if tasks == [] {
      assert InDatabase(cfg, c, c.databases[cfg.database].schemas) == c;
    } else if budget > 0 {
      assert IsAdminTask(tasks[0]);
      var path := Path(c, cfg.adminUser);
      match AdminExec(tasks[0], cfg, path, c.databases[cfg.database].schemas)
      case None =>
        assert Exec(tasks[0], cfg, c) == None;
      case Some(after) =>
        var c' := InDatabase(cfg, c, after);
        assert Exec(tasks[0], cfg, c) == Some(c');
        AdminTasksInDatabase(tasks[1..], cfg, c', budget - 1);
        assert forall s :: InDatabase(cfg, c', s) == InDatabase(cfg, c, s);
    }
  }

  function SchemaBefore(schemas: Schemas, name: Name): Schema {
    if name in schemas then schemas[name] else Schema({}, map[], {})
  }

  function WithUsage(cfg: Env, s: Schema): Schema {
    s.(usage := s.usage + {cfg.adminUser} + {cfg.appUser})
  }

  function WithDefaults(cfg: Env, s: Schema): Schema {
    s.(defaults := s.defaults + DefaultsFor(cfg.adminUser, cfg.appUser, TableKind)
                              + DefaultsFor(cfg.adminUser, cfg.appUser, SequenceKind))
  }

  /** A schema after the seven tasks before the test marker. */
  function Provide(cfg: Env, s: Schema): Schema {
    WithDefaults(cfg, GrantOn(GrantOn(WithUsage(cfg, s), TableKind, cfg.appUser), SequenceKind, cfg.appUser))
  }

  ghost predicate Provided(cfg: Env, s: Schema) {
    && {cfg.adminUser, cfg.appUser} <= s.usage
    && (forall n :: n in s.relations ==> AclFor(cfg.appUser, s.relations[n].kind) <= s.relations[n].grants)
    && (forall kind: Kind :: DefaultsFor(cfg.adminUser, cfg.appUser, kind) <= s.defaults)
  }

  lemma ProvideProvides(cfg: Env, s: Schema)
    ensures Provided(cfg, Provide(cfg, s))
  {
    forall kind: Kind
      ensures DefaultsFor(cfg.adminUser, cfg.appUser, kind) <= Provide(cfg, s).defaults
    {
      match kind
      case TableKind =>
      case SequenceKind =>
    }
  }

  lemma ProvidedIsFixed(cfg: Env, s: Schema)
    requires Provided(cfg, s)
    ensures Provide(cfg, s) == s
  {
    var s' := Provide(cfg, s);
    assert s'.usage == s.usage;
    assert s'.defaults == s.defaults by {
      assert DefaultsFor(cfg.adminUser, cfg.appUser, TableKind) <= s.defaults;
      assert DefaultsFor(cfg.adminUser, cfg.appUser, SequenceKind) <= s.defaults;
    }
    forall n | n in s.relations
      ensures s'.relations[n] == s.relations[n]
    {
      assert s'.relations[n].grants == s.relations[n].grants;
    }
    assert s'.relations == s.relations;
  }

  /** The marker step, once the schema is provided for. */
  function MarkerStep(cfg: Env, path: seq<PathEntry>, schemas: Schemas): Option<Schemas> {
    AdminExec(ProcessInitializeTestMode, cfg, path, schemas)
  }

  lemma SchemaTasks(cfg: Env, path: seq<PathEntry>, schemas: Schemas)
    ensures forall t :: t in SCHEMA_TASKS ==> IsAdminTask(t)
    ensures AdminRun(SCHEMA_TASKS, cfg, path, schemas)
         == MarkerStep(cfg, path, schemas[cfg.schema := Provide(cfg, SchemaBefore(schemas, cfg.schema))])
  {
    var t := SCHEMA_TASKS;
    assert t[1..] == [GrantSchemaAdminUser, GrantSchemaAppUser, GrantOnTablesAppUser, GrantOnSequencesAppUser,
      AlterDefaultPrivilegesTablesAppUser, AlterDefaultPrivilegesSequencesAppUser, ProcessInitializeTestMode];
    FirstSchemaTasks(cfg, path, schemas, t[4..]);
    var s := SchemaBefore(schemas, cfg.schema);
    var s1 := WithUsage(cfg, s);
    assert t == [CreateSchema, GrantSchemaAdminUser, GrantSchemaAppUser, GrantOnTablesAppUser] + t[4..];
    var s2 := GrantOn(s1, TableKind, cfg.appUser);
    LastSchemaTasks(cfg, path, schemas[cfg.schema := s2]);
    assert t[4..] == [GrantOnSequencesAppUser, AlterDefaultPrivilegesTablesAppUser,
                      AlterDefaultPrivilegesSequencesAppUser, ProcessInitializeTestMode];
    assert schemas[cfg.schema := s2][cfg.schema := Provide(cfg, s)] == schemas[cfg.schema := Provide(cfg, s)];
  }

  lemma AdminCons(t: Task, rest: seq<Task>, cfg: Env, path: seq<PathEntry>, schemas: Schemas)
    requires IsAdminTask(t) && (forall u :: u in rest ==> IsAdminTask(u)) && AdminExec(t, cfg, path, schemas).Some?
    ensures AdminRun([t] + rest, cfg, path, schemas) == AdminRun(rest, cfg, path, AdminExec(t, cfg, path, schemas).value)
  {
  }

  lemma FirstSchemaTasks(cfg: Env, path: seq<PathEntry>, schemas: Schemas, rest: seq<Task>)
    requires forall u :: u in rest ==> IsAdminTask(u)
    ensures AdminRun([CreateSchema, GrantSchemaAdminUser, GrantSchemaAppUser, GrantOnTablesAppUser] + rest, cfg, path, schemas)
         == AdminRun(rest, cfg, path,
              schemas[cfg.schema := GrantOn(WithUsage(cfg, SchemaBefore(schemas, cfg.schema)), TableKind, cfg.appUser)])
  {
    var name, s := cfg.schema, SchemaBefore(schemas, cfg.schema);
    var sa := s.(usage := s.usage + {cfg.adminUser});
    var s1 := WithUsage(cfg, s);
    var r3 := [GrantOnTablesAppUser] + rest;
    var r2 := [GrantSchemaAppUser] + r3;
    var r1 := [GrantSchemaAdminUser] + r2;
    assert [CreateSchema, GrantSchemaAdminUser, GrantSchemaAppUser, GrantOnTablesAppUser] + rest == [CreateSchema] + r1;
    AdminCons(CreateSchema, r1, cfg, path, schemas);
    assert AdminExec(CreateSchema, cfg, path, schemas).value == schemas[name := s];
    AdminCons(GrantSchemaAdminUser, r2, cfg, path, schemas[name := s]);
    assert schemas[name := s][name := sa] == schemas[name := sa];
    AdminCons(GrantSchemaAppUser, r3, cfg, path, schemas[name := sa]);
    assert schemas[name := sa][name := s1] == schemas[name := s1];
    AdminCons(GrantOnTablesAppUser, rest, cfg, path, schemas[name := s1]);
    assert schemas[name := s1][name := GrantOn(s1, TableKind, cfg.appUser)] == schemas[name := GrantOn(s1, TableKind, cfg.appUser)];
  }

  lemma LastSchemaTasks(cfg: Env, path: seq<PathEntry>, schemas: Schemas)
    requires cfg.schema in schemas
    ensures AdminRun([GrantOnSequencesAppUser, AlterDefaultPrivilegesTablesAppUser,
                      AlterDefaultPrivilegesSequencesAppUser, ProcessInitializeTestMode], cfg, path, schemas)
         == MarkerStep(cfg, path,
              schemas[cfg.schema := WithDefaults(cfg, GrantOn(schemas[cfg.schema], SequenceKind, cfg.appUser))])
  {
    var name := cfg.schema;
    var s := GrantOn(schemas[name], SequenceKind, cfg.appUser);
    var st := s.(defaults := s.defaults + DefaultsFor(cfg.adminUser, cfg.appUser, TableKind));
    var sq := st.(defaults := st.defaults + DefaultsFor(cfg.adminUser, cfg.appUser, SequenceKind));
    var r3 := [ProcessInitializeTestMode];
    var r2 := [AlterDefaultPrivilegesSequencesAppUser] + r3;
    var r1 := [AlterDefaultPrivilegesTablesAppUser] + r2;
    assert [GrantOnSequencesAppUser, AlterDefaultPrivilegesTablesAppUser,
            AlterDefaultPrivilegesSequencesAppUser, ProcessInitializeTestMode] == [GrantOnSequencesAppUser] + r1;
    AdminCons(GrantOnSequencesAppUser, r1, cfg, path, schemas);
    AdminCons(AlterDefaultPrivilegesTablesAppUser, r2, cfg, path, schemas[name := s]);
    assert schemas[name := s][name := st] == schemas[name := st];
    AdminCons(AlterDefaultPrivilegesSequencesAppUser, r3, cfg, path, schemas[name := st]);
    assert schemas[name := st][name := sq] == schemas[name := sq];
    assert r3[1..] == [];
  }

  // ---- The marker ----

  /** Where an admin with this search path creates the marker. */
  function MarkerHome(cfg: Env, path: seq<PathEntry>, schemas: Schemas): Option<Name> {
    CreationSchema(cfg.adminUser, path, schemas.Keys)
  }

  /** The creation schema comes first on the path, so a relation in it is found there. */
  lemma {:induction false} ResolveAtHome(role: Name, path: seq<PathEntry>, schemas: Schemas, relation: Name)
    requires CreationSchema(role, path, schemas.Keys).Some?
    requires relation in schemas[CreationSchema(role, path, schemas.Keys).value].relations
    ensures Resolve(role, path, schemas, relation) == CreationSchema(role, path, schemas.Keys)
  {
    if SchemaOf(role, path[0]) !in schemas {
      ResolveAtHome(role, path[1..], schemas, relation);
    }
  }

  function Marked(cfg: Env, s: Schema): Schema {
    InsertRow(CreateTable(s, MARKER, cfg.adminUser), MARKER, MARKER_ID)
  }

  /** In test mode the marker ends up in its home schema; it fails when the home lacks or
      something other than a table has the marker's name. */
  lemma MarkerStepForm(cfg: Env, path: seq<PathEntry>, schemas: Schemas)
    requires cfg.mode == Test
    ensures var home := MarkerHome(cfg, path, schemas);
            MarkerStep(cfg, path, schemas)
            == if home.None? || CreateTable(schemas[home.value], MARKER, cfg.adminUser).relations[MARKER].kind != TableKind then None
               else Some(schemas[home.value := Marked(cfg, schemas[home.value])])
  {
    var home := MarkerHome(cfg, path, schemas);
    if home.Some? {
      var created := schemas[home.value := CreateTable(schemas[home.value], MARKER, cfg.adminUser)];
      assert created.Keys == schemas.Keys;
      ResolveAtHome(cfg.adminUser, path, created, MARKER);
      assert created[home.value := Marked(cfg, schemas[home.value])] == schemas[home.value := Marked(cfg, schemas[home.value])];
    }
  }

  lemma MarkedIsFixed(cfg: Env, s: Schema)
    requires HasMarker(s)
    ensures Marked(cfg, s) == s
  {
    var r := s.relations[MARKER];
    assert r.rows + {MARKER_ID} == r.rows;
    assert s.relations[MARKER := r] == s.relations;
  }

  lemma MarkedKeepsProvided(cfg: Env, s: Schema)
    requires Provided(cfg, s)
    ensures Provided(cfg, Marked(cfg, s))
  {
    var acl := DefaultAcl(s, cfg.adminUser, TableKind);
    forall a | a in AclFor(cfg.appUser, TableKind)
      ensures a in acl
    {
      assert Default(cfg.adminUser, TableKind, a) in DefaultsFor(cfg.adminUser, cfg.appUser, TableKind);
      assert Default(cfg.adminUser, TableKind, a) in s.defaults;
    }
  }

  // ---- Second phase, whole ----

  /** What the second phase makes of the schemas. */
  function SchemaPhase(cfg: Env, path: seq<PathEntry>, schemas: Schemas): Option<Schemas> {
    MarkerStep(cfg, path, schemas[cfg.schema := Provide(cfg, SchemaBefore(schemas, cfg.schema))])
  }

  ghost predicate Settled(cfg: Env, schemas: Schemas) {
    cfg.schema in schemas && Provided(cfg, schemas[cfg.schema])
  }

  lemma SchemaPhaseSettles(cfg: Env, path: seq<PathEntry>, schemas: Schemas)
    requires SchemaPhase(cfg, path, schemas).Some?
    ensures Settled(cfg, SchemaPhase(cfg, path, schemas).value)
    ensures SchemaPhase(cfg, path, schemas).value.Keys == schemas.Keys + {cfg.schema}
    ensures cfg.mode == Test ==>
              var after := SchemaPhase(cfg, path, schemas).value;
              && MarkerHome(cfg, path, after).Some?
              && HasMarker(after[MarkerHome(cfg, path, after).value])
  {
    var s := Provide(cfg, SchemaBefore(schemas, cfg.schema));
    var provided := schemas[cfg.schema := s];
    ProvideProvides(cfg, SchemaBefore(schemas, cfg.schema));
    MarkedKeepsProvided(cfg, s);
    if cfg.mode == Test {
      MarkerStepForm(cfg, path, provided);
      assert SchemaPhase(cfg, path, schemas).value.Keys == provided.Keys;
    }
  }

  /** On settled schemas the second phase changes at most the marker. */
  lemma SettledSchemaPhase(cfg: Env, path: seq<PathEntry>, schemas: Schemas)
    requires Settled(cfg, schemas)
    ensures SchemaPhase(cfg, path, schemas) == MarkerStep(cfg, path, schemas)
  {
    ProvidedIsFixed(cfg, schemas[cfg.schema]);
    assert schemas[cfg.schema := schemas[cfg.schema]] == schemas;
  }

  /** With one search path the second phase repeated changes nothing. */
  lemma SchemaPhaseIdempotent(cfg: Env, path: seq<PathEntry>, schemas: Schemas)
    requires SchemaPhase(cfg, path, schemas).Some?
    ensures var after := SchemaPhase(cfg, path, schemas).value;
            SchemaPhase(cfg, path, after) == Some(after)
  {
    SchemaPhaseSettles(cfg, path, schemas);
    var after := SchemaPhase(cfg, path, schemas).value;
    SettledSchemaPhase(cfg, path, after);
    if cfg.mode == Test {
      MarkerStepForm(cfg, path, after);
      var home := MarkerHome(cfg, path, after).value;
      MarkedIsFixed(cfg, after[home]);
      assert after[home := after[home]] == after;
    }
  }

  lemma SchemaTransaction(cfg: Env, c: State, budget: nat)
    requires cfg.database in c.databases
    ensures var r := Transaction(SCHEMA_TASKS, cfg, c, budget);
            var after := SchemaPhase(cfg, Path(c, cfg.adminUser), c.databases[cfg.database].schemas);
            && (r.ok <==> budget > |SCHEMA_TASKS| && after.Some?)
            && r.state == if r.ok then InDatabase(cfg, c, after.value) else c
  {
    SchemaTasks(cfg, Path(c, cfg.adminUser), c.databases[cfg.database].schemas);
    AdminTasksInDatabase(SCHEMA_TASKS, cfg, c, budget);
  }

  // ---- Whole runs ----

  function WithAppPath(cfg: Env, c: State): State {
    c.(paths := c.paths[cfg.appUser := [In(cfg.schema), In(PUBLIC)]])
  }

  lemma PathTransaction(cfg: Env, c: State, budget: nat)
    requires cfg.appUser in c.roles
    ensures Transaction(PATH_TASKS, cfg, c, budget)
         == if budget > |PATH_TASKS| then RunResult(WithAppPath(cfg, c), true) else RunResult(c, false)
  {
  }

  /** The schemas of the target database once the first phase is over. */
  function SchemasBefore(cfg: Env, c: State): Schemas {
    DatabaseBefore(cfg, c).schemas
  }

  /** The three ways a run can end: before the schemas, before the search path, complete. */
  lemma SetupForm(cfg: Env, c: State, b: Budgets)
    ensures var r := Setup(cfg, c, b);
            var p := Prepared(cfg, c);
            var after := SchemaPhase(cfg, Path(c, cfg.adminUser), SchemasBefore(cfg, c));
            var users := b.users >= |USER_TASKS|;
            var schema := users && b.schema > |SCHEMA_TASKS| && after.Some?;
            && IsPrepared(cfg, p)
            && (!schema ==> !r.ok && Prepared(cfg, r.state) == p)
            && (schema && b.path <= |PATH_TASKS| ==> r == RunResult(InDatabase(cfg, p, after.value), false))
            && (schema && b.path > |PATH_TASKS| ==> r == RunResult(WithAppPath(cfg, InDatabase(cfg, p, after.value)), true))
  {
    UsersPhase(cfg, c, b.users);
    UsersPhase(cfg, c, |USER_TASKS|);
    var p := Prepared(cfg, c);
    PreparedIsFixed(cfg, p);
    if b.users >= |USER_TASKS| {
      SchemaTransaction(cfg, p, b.schema);
      var schema := Transaction(SCHEMA_TASKS, cfg, p, b.schema);
      if schema.ok {
        PathTransaction(cfg, schema.state, b.path);
      }
    }
  }

  /** A completed run depends on the start only through what the first phase makes of it. */
  lemma CompleteForm(cfg: Env, c: State)
    ensures var after := SchemaPhase(cfg, Path(c, cfg.adminUser), SchemasBefore(cfg, c));
            && (Complete(cfg, c).ok <==> after.Some?)
            && (after.Some? ==> Complete(cfg, c).state == WithAppPath(cfg, InDatabase(cfg, Prepared(cfg, c), after.value)))
  {
    SetupForm(cfg, c, FULL);
  }

  /** What a run that got to its end has achieved, and that it changed nothing else: both users
      and the database exist, both may connect, the schema serves the app user, whose search
      path starts with it, and in test mode the admin's marker is there. */
  lemma SetupMeans(cfg: Env, c: State, b: Budgets)
    requires Setup(cfg, c, b).ok
    ensures var done := Setup(cfg, c, b).state;
            && done.roles == c.roles + {cfg.adminUser, cfg.appUser}
            && done.paths == c.paths[cfg.appUser := [In(cfg.schema), In("public")]]
            && cfg.database in done.databases
            && done.databases - {cfg.database} == c.databases - {cfg.database}
            && var db := done.databases[cfg.database];
               && db.owner == (if cfg.database in c.databases then c.databases[cfg.database].owner else cfg.adminUser)
               && db.connect == DatabaseBefore(cfg, c).connect + {cfg.adminUser, cfg.appUser}
               && db.schemas.Keys == DatabaseBefore(cfg, c).schemas.Keys + {cfg.schema}
               && Settled(cfg, db.schemas)
               && (cfg.mode == Test ==>
                     && MarkerHome(cfg, Path(c, cfg.adminUser), db.schemas).Some?
                     && var relations := db.schemas[MarkerHome(cfg, Path(c, cfg.adminUser), db.schemas).value].relations;
                        "test_marker" in relations && relations["test_marker"].kind == TableKind
                        && 1 in relations["test_marker"].rows)
  {
    SetupForm(cfg, c, b);
    SchemaPhaseSettles(cfg, Path(c, cfg.adminUser), SchemasBefore(cfg, c));
  }

  /** The marker has a place to go: some schema on the admin's search path will exist, and in
      the first such schema the marker's name is free or a table's. */
  ghost predicate MarkerHasPlace(cfg: Env, c: State) {
    var path, before := Path(c, cfg.adminUser), SchemasBefore(cfg, c);
    exists i :: FirstOn(cfg.adminUser, path, i, before.Keys + {cfg.schema})
      && NameForTable(before, SchemaOf(cfg.adminUser, path[i]))
  }

  predicate NameForTable(schemas: Schemas, home: Name) {
    home in schemas && MARKER in schemas[home].relations ==> schemas[home].relations[MARKER].kind == TableKind
  }

  /** When a run that is not cut short gets to its end: always outside test mode, and in test
      mode exactly when the marker has a place to go. */
  lemma CompletesIff(cfg: Env, c: State)
    ensures Complete(cfg, c).ok <==> cfg.mode != Test || MarkerHasPlace(cfg, c)
  {
    CompleteForm(cfg, c);
    if cfg.mode == Test {
      MarkerPlace(cfg, c);
    }
  }

  lemma MarkerPlace(cfg: Env, c: State)
    requires cfg.mode == Test
    ensures SchemaPhase(cfg, Path(c, cfg.adminUser), SchemasBefore(cfg, c)).Some? <==> MarkerHasPlace(cfg, c)
  {
    var path, before := Path(c, cfg.adminUser), SchemasBefore(cfg, c);
    var provided := before[cfg.schema := Provide(cfg, SchemaBefore(before, cfg.schema))];
    assert provided.Keys == before.Keys + {cfg.schema};
    MarkerStepForm(cfg, path, provided);
    NoCreation(cfg.adminUser, path, provided.Keys);
    var home := MarkerHome(cfg, path, provided);
    if home.Some? {
      PlaceInProvided(cfg, before, home.value);
      var i := CreationIndex(cfg.adminUser, path, provided.Keys);
      forall k | FirstOn(cfg.adminUser, path, k, provided.Keys)
        ensures SchemaOf(cfg.adminUser, path[k]) == home.value
      {
        CreationIsFirst(cfg.adminUser, path, provided.Keys, k);
      }
    }
  }

  lemma PlaceInProvided(cfg: Env, before: Schemas, home: Name)
    requires home in before.Keys + {cfg.schema}
    ensures var provided := before[cfg.schema := Provide(cfg, SchemaBefore(before, cfg.schema))];
            CreateTable(provided[home], MARKER, cfg.adminUser).relations[MARKER].kind == TableKind <==> NameForTable(before, home)
  {
  }

  /** The privileges the app user is to have, spelled out. */
  function Wanted(app: Name, kind: Kind): set<Acl> {
    match kind
    case TableKind => {Acl(app, Select), Acl(app, Insert), Acl(app, Update), Acl(app, Delete)}
    case SequenceKind => {Acl(app, Usage), Acl(app, Select)}
  }

  lemma WantedIsGranted(app: Name, kind: Kind)
    ensures AclFor(app, kind) == Wanted(app, kind)
  {
    forall a
      ensures a in AclFor(app, kind) <==> a in Wanted(app, kind)
    {
      if a in Wanted(app, kind) {
        assert a.privilege in PrivilegesOn(kind);
      }
    }
  }

  /** What a completed run has given away in the schema, and no more: usage to both users, the
      wanted privileges on every relation there was, and on those the admin will create. */
  lemma SetupGives(cfg: Env, c: State, b: Budgets)
    requires Setup(cfg, c, b).ok
    ensures var before := SchemaBefore(SchemasBefore(cfg, c), cfg.schema);
            && cfg.database in Setup(cfg, c, b).state.databases
            && cfg.schema in Setup(cfg, c, b).state.databases[cfg.database].schemas
            && var s := Setup(cfg, c, b).state.databases[cfg.database].schemas[cfg.schema];
               && s.usage == before.usage + {cfg.adminUser, cfg.appUser}
               && (forall d :: d in s.defaults <==>
                     d in before.defaults || (d.owner == cfg.adminUser && d.acl in Wanted(cfg.appUser, d.kind)))
               && (forall n :: n in before.relations ==>
                     && n in s.relations
                     && s.relations[n].owner == before.relations[n].owner && s.relations[n].kind == before.relations[n].kind
                     && s.relations[n].grants == before.relations[n].grants + Wanted(cfg.appUser, before.relations[n].kind))
               && (forall n :: n in s.relations && n !in before.relations ==>
                     n == MARKER && cfg.mode == Test && s.relations[n].kind == TableKind && s.relations[n].owner == cfg.adminUser)
  {
    var path, schemas := Path(c, cfg.adminUser), SchemasBefore(cfg, c);
    var before := SchemaBefore(schemas, cfg.schema);
    SetupForm(cfg, c, b);
    ProvideGives(cfg, before);
    MarkerStepGives(cfg, path, schemas[cfg.schema := Provide(cfg, before)]);
  }

  lemma ProvideGives(cfg: Env, before: Schema)
    ensures var s := Provide(cfg, before);
            && s.usage == before.usage + {cfg.adminUser, cfg.appUser}
            && (forall d :: d in s.defaults <==>
                  d in before.defaults || (d.owner == cfg.adminUser && d.acl in Wanted(cfg.appUser, d.kind)))
            && s.relations.Keys == before.relations.Keys
            && (forall n :: n in before.relations ==>
                  s.relations[n]
                  == before.relations[n].(grants := before.relations[n].grants + Wanted(cfg.appUser, before.relations[n].kind)))
  {
    WantedIsGranted(cfg.appUser, TableKind);
    WantedIsGranted(cfg.appUser, SequenceKind);
    forall d
      ensures d in Provide(cfg, before).defaults <==>
                d in before.defaults || (d.owner == cfg.adminUser && d.acl in Wanted(cfg.appUser, d.kind))
    {
      match d.kind
      case TableKind =>
      case SequenceKind =>
    }
  }

  /** The marker step adds the marker's table at most, and gives nothing away. */
  lemma MarkerStepGives(cfg: Env, path: seq<PathEntry>, schemas: Schemas)
    requires cfg.schema in schemas && MarkerStep(cfg, path, schemas).Some?
    ensures var after := MarkerStep(cfg, path, schemas).value;
            && cfg.schema in after
            && var (s, s') := (schemas[cfg.schema], after[cfg.schema]);
               && s'.usage == s.usage && s'.defaults == s.defaults
               && (forall n :: n in s.relations ==>
                     && n in s'.relations && s'.relations[n].owner == s.relations[n].owner
                     && s'.relations[n].kind == s.relations[n].kind && s'.relations[n].grants == s.relations[n].grants)
               && (forall n :: n in s'.relations && n !in s.relations ==>
                     n == MARKER && cfg.mode == Test && s'.relations[n].kind == TableKind && s'.relations[n].owner == cfg.adminUser)
  {
    if cfg.mode == Test {
      MarkerStepForm(cfg, path, schemas);
    }
  }

  lemma SamePreparation(cfg: Env, c: State, c': State)
    requires Prepared(cfg, c') == Prepared(cfg, c)
    ensures Complete(cfg, c').ok == Complete(cfg, c).ok
    ensures Complete(cfg, c).ok ==> Complete(cfg, c').state == Complete(cfg, c).state
  {
    CompleteForm(cfg, c);
    CompleteForm(cfg, c');
    assert SchemasBefore(cfg, c) == Prepared(cfg, c).databases[cfg.database].schemas;
    assert SchemasBefore(cfg, c') == Prepared(cfg, c').databases[cfg.database].schemas;
    assert c.paths == Prepared(cfg, c).paths == c'.paths;
  }

  /** After a run that was cut short, a complete run ends as it would have at the start. */
  lemma AbortedRunHarmless(cfg: Env, c: State, b: Budgets)
    requires !Setup(cfg, c, b).ok
    ensures var c' := Setup(cfg, c, b).state;
            && Complete(cfg, c').ok == Complete(cfg, c).ok
            && (Complete(cfg, c).ok ==> Complete(cfg, c').state == Complete(cfg, c).state)
  {
    var c' := Setup(cfg, c, b).state;
    SetupForm(cfg, c, b);
    var p := Prepared(cfg, c);
    if Prepared(cfg, c') == p {
      SamePreparation(cfg, c, c');
    } else {
      var path := Path(c, cfg.adminUser);
      var after := SchemaPhase(cfg, path, SchemasBefore(cfg, c)).value;
      assert c' == InDatabase(cfg, p, after);
      PreparedIsFixed(cfg, c');
      SchemaPhaseIdempotent(cfg, path, SchemasBefore(cfg, c));
      CompleteForm(cfg, c);
      CompleteForm(cfg, c');
      assert InDatabase(cfg, c', after) == c';
    }
  }

  function Runs(cfg: Env, c: State, bs: seq<Budgets>): State
    decreases |bs|
  {
    if bs == [] then c else Runs(cfg, Setup(cfg, c, bs[0]).state, bs[1..])
  }

  ghost predicate AllAborted(cfg: Env, c: State, bs: seq<Budgets>)
    decreases |bs|
  {
    bs == [] || (!Setup(cfg, c, bs[0]).ok && AllAborted(cfg, Setup(cfg, c, bs[0]).state, bs[1..]))
  }

  /** Crash convergence: after any number of runs cut short anywhere, one complete run ends
      in the state of a single clean run. */
  lemma {:induction false} CrashConvergence(cfg: Env, c: State, bs: seq<Budgets>)
    requires AllAborted(cfg, c, bs)
    ensures Complete(cfg, Runs(cfg, c, bs)).ok == Complete(cfg, c).ok
    ensures Complete(cfg, c).ok ==> Complete(cfg, Runs(cfg, c, bs)).state == Complete(cfg, c).state
    decreases |bs|
  {
    if bs != [] {
      AbortedRunHarmless(cfg, c, bs[0]);
      CrashConvergence(cfg, Setup(cfg, c, bs[0]).state, bs[1..]);
    }
  }

  // ---- Running again ----

  /** Whether running a completed setup again leaves everything as it is. The app user's
      new search path matters when the app user is the admin: the second marker then goes
      to the configured schema. */
  ghost predicate RepeatsCleanly(cfg: Env, c: State) {
    var before := SchemasBefore(cfg, c);
    || cfg.mode != Test
    || cfg.adminUser != cfg.appUser
    || CreationSchema(cfg.adminUser, Path(c, cfg.adminUser), before.Keys + {cfg.schema}) == Some(cfg.schema)
    || (cfg.schema in before && HasMarker(before[cfg.schema]))
  }

  /** What a further run comes down to: the marker step on the finished schemas, along the
      search path the admin has by then. */
  lemma AgainIsMarkerStep(cfg: Env, c: State) returns (after: Schemas)
    requires Complete(cfg, c).ok
    ensures SchemaPhase(cfg, Path(c, cfg.adminUser), SchemasBefore(cfg, c)) == Some(after)
    ensures cfg.schema in after && Path(Complete(cfg, c).state, cfg.adminUser)
         == if cfg.adminUser == cfg.appUser then [In(cfg.schema), In(PUBLIC)] else Path(c, cfg.adminUser)
    ensures var done := Complete(cfg, c).state;
            Complete(cfg, done) == RunResult(done, true)
            <==> MarkerStep(cfg, Path(done, cfg.adminUser), after) == Some(after)
  {
    CompleteForm(cfg, c);
    var done := Complete(cfg, c).state;
    after := SchemaPhase(cfg, Path(c, cfg.adminUser), SchemasBefore(cfg, c)).value;
    SchemaPhaseSettles(cfg, Path(c, cfg.adminUser), SchemasBefore(cfg, c));
    assert SchemasBefore(cfg, done) == after;
    PreparedIsFixed(cfg, done);
    CompleteForm(cfg, done);
    SettledSchemaPhase(cfg, Path(done, cfg.adminUser), after);
    var again := MarkerStep(cfg, Path(done, cfg.adminUser), after);
    if again == Some(after) {
      SameAgain(cfg, done, after);
    } else if again.Some? {
      assert Complete(cfg, done).state.databases[cfg.database].schemas == again.value;
    }
  }

  lemma SameAgain(cfg: Env, done: State, schemas: Schemas)
    requires cfg.database in done.databases && done.databases[cfg.database].schemas == schemas
    requires cfg.appUser in done.paths && done.paths[cfg.appUser] == [In(cfg.schema), In(PUBLIC)]
    ensures WithAppPath(cfg, InDatabase(cfg, done, schemas)) == done
  {
  }

  /** A further run changes nothing exactly when `RepeatsCleanly` held before the first. */
  lemma RunAgainIff(cfg: Env, c: State)
    requires Complete(cfg, c).ok
    ensures var done := Complete(cfg, c).state;
            Complete(cfg, done) == RunResult(done, true) <==> RepeatsCleanly(cfg, c)
  {
    var after := AgainIsMarkerStep(cfg, c);
    MarkerStepIdle(cfg, Path(c, cfg.adminUser), SchemasBefore(cfg, c), after);
  }

  lemma MarkerStepIdle(cfg: Env, path: seq<PathEntry>, before: Schemas, after: Schemas)
    requires SchemaPhase(cfg, path, before) == Some(after)
    ensures var path' := if cfg.adminUser == cfg.appUser then [In(cfg.schema), In(PUBLIC)] else path;
            MarkerStep(cfg, path', after) == Some(after)
            <==> || cfg.mode != Test || cfg.adminUser != cfg.appUser
                 || CreationSchema(cfg.adminUser, path, before.Keys + {cfg.schema}) == Some(cfg.schema)
                 || (cfg.schema in before && HasMarker(before[cfg.schema]))
  {
    SchemaPhaseSettles(cfg, path, before);
    if cfg.mode == Test && cfg.adminUser == cfg.appUser {
      OwnSchemaMarker(cfg, path, before);
      SecondMarker(cfg, after);
    } else {
      SchemaPhaseIdempotent(cfg, path, before);
      SettledSchemaPhase(cfg, path, after);
    }
  }

  /** With the configured schema first on the path, the marker step is idle exactly when
      that schema holds the marker. */
  lemma SecondMarker(cfg: Env, schemas: Schemas)
    requires cfg.mode == Test && cfg.schema in schemas
    ensures MarkerStep(cfg, [In(cfg.schema), In(PUBLIC)], schemas) == Some(schemas) <==> HasMarker(schemas[cfg.schema])
  {
    var own := [In(cfg.schema), In(PUBLIC)];
    MarkerStepForm(cfg, own, schemas);
    assert MarkerHome(cfg, own, schemas) == Some(cfg.schema);
    if HasMarker(schemas[cfg.schema]) {
      MarkedIsFixed(cfg, schemas[cfg.schema]);
      assert schemas[cfg.schema := schemas[cfg.schema]] == schemas;
    } else if MarkerStep(cfg, own, schemas).Some? {
      assert HasMarker(MarkerStep(cfg, own, schemas).value[cfg.schema]);
    }
  }

  lemma OwnSchemaMarker(cfg: Env, path: seq<PathEntry>, before: Schemas)
    requires cfg.mode == Test && SchemaPhase(cfg, path, before).Some?
    ensures HasMarker(SchemaPhase(cfg, path, before).value[cfg.schema])
       <==> CreationSchema(cfg.adminUser, path, before.Keys + {cfg.schema}) == Some(cfg.schema)
            || (cfg.schema in before && HasMarker(before[cfg.schema]))
  {
    var s := Provide(cfg, SchemaBefore(before, cfg.schema));
    var provided := before[cfg.schema := s];
    assert provided.Keys == before.Keys + {cfg.schema};
    MarkerStepForm(cfg, path, provided);
    assert HasMarker(s) <==> HasMarker(SchemaBefore(before, cfg.schema));
  }

  // ---- From a cluster that has never seen the configuration ----

  ghost predicate Fresh(cfg: Env, c: State) {
    && cfg.database !in c.databases
    && cfg.adminUser !in c.paths && cfg.superuser !in c.paths
  }

  /** Starting fresh, setup always completes, and whether it can be repeated shows in the
      configuration. */
  lemma FreshSetup(cfg: Env, c: State)
    requires Fresh(cfg, c)
    ensures Complete(cfg, c).ok
    ensures RepeatsCleanly(cfg, c)
       <==> cfg.mode != Test || cfg.adminUser != cfg.appUser || cfg.schema in {PUBLIC, cfg.adminUser}
  {
    CompleteForm(cfg, c);
    var before := SchemasBefore(cfg, c);
    var path := [UserSchema, In(PUBLIC)];
    assert before.Keys == {PUBLIC};
    assert path[1..] == [In(PUBLIC)];
    FreshHome(cfg);
    if cfg.mode == Test {
      var provided := before[cfg.schema := Provide(cfg, SchemaBefore(before, cfg.schema))];
      assert provided.Keys == {PUBLIC, cfg.schema};
      assert before.Keys + {cfg.schema} == {PUBLIC, cfg.schema};
      MarkerStepForm(cfg, path, provided);
    }
  }

  lemma FreshHome(cfg: Env)
    ensures CreationSchema(cfg.adminUser, [UserSchema, In(PUBLIC)], {PUBLIC, cfg.schema})
         == Some(if cfg.adminUser == cfg.schema then cfg.schema else PUBLIC)
  {
    var path := [UserSchema, In(PUBLIC)];
    assert path[1..] == [In(PUBLIC)];
  }

  /** A configuration that cannot be repeated: one user for both roles, in test mode. */
  lemma SharedUserNotRepeatable(c: State)
    requires "collection" !in c.databases && c.paths == map[]
    ensures var cfg := Env("postgres", "collection", "app_data", "owner", "owner", Test);
            var done := Complete(cfg, c).state;
            Complete(cfg, c).ok && Complete(cfg, done) != RunResult(done, true)
  {
    var cfg := Env("postgres", "collection", "app_data", "owner", "owner", Test);
    assert cfg.schema[0] == 'a' && PUBLIC[0] == 'p' && cfg.adminUser[0] == 'o';
    FreshSetup(cfg, c);
    RunAgainIff(cfg, c);
  }
}
