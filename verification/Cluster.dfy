/** A PostgreSQL cluster as far as the setup script sees it, and the script's tasks. */
module Cluster {
  import opened Prelude

  type Name = string

  // ---- State ----

  datatype Kind = TableKind | SequenceKind

  datatype Privilege = Select | Insert | Update | Delete | Usage

  datatype Acl = Acl(role: Name, privilege: Privilege)

  /** `rows` are the primary keys of a table's rows. */
  datatype Relation = Relation(kind: Kind, owner: Name, grants: set<Acl>, rows: set<int>)

  /** Privileges that a relation of this kind gets when this owner creates it. */
  datatype Default = Default(owner: Name, kind: Kind, acl: Acl)

  datatype Schema = Schema(usage: set<Name>, relations: map<Name, Relation>, defaults: set<Default>)

  /** Each creation of a database gets an `oid` of its own. */
  datatype Database = Database(oid: nat, owner: Name, connect: set<Name>, schemas: map<Name, Schema>)

  datatype PathEntry = UserSchema | In(schema: Name)

  datatype State = State(roles: set<Name>, paths: map<Name, seq<PathEntry>>, databases: map<Name, Database>, nextOid: nat)

  datatype Mode = NoMode | Test

  datatype Env = Env(superuser: Name, database: Name, schema: Name, adminUser: Name, appUser: Name, mode: Mode)

  const PUBLIC: Name := "public"
  const MAINTENANCE_DB: Name := "postgres"
  const MARKER: Name := "test_marker"
  const MARKER_ID := 1

  function PrivilegesOn(kind: Kind): set<Privilege> {
    match kind
    case TableKind => {Select, Insert, Update, Delete}
    case SequenceKind => {Usage, Select}
  }

  function AclFor(role: Name, kind: Kind): set<Acl> {
    set p | p in PrivilegesOn(kind) :: Acl(role, p)
  }

  function DefaultsFor(owner: Name, role: Name, kind: Kind): set<Default> {
    set a | a in AclFor(role, kind) :: Default(owner, kind, a)
  }

  function DefaultAcl(s: Schema, owner: Name, kind: Kind): set<Acl> {
    set d | d in s.defaults && d.owner == owner && d.kind == kind :: d.acl
  }

  // ---- Search paths ----

  function Path(c: State, role: Name): seq<PathEntry> {
    if role in c.paths then c.paths[role] else [UserSchema, In(PUBLIC)]
  }

  function SchemaOf(role: Name, entry: PathEntry): Name {
    match entry
    case UserSchema => role
    case In(schema) => schema
  }

  /** The schema an unqualified CREATE goes to: the first on the path that exists. */
  function CreationSchema(role: Name, path: seq<PathEntry>, schemas: set<Name>): (home: Option<Name>)
    ensures home.Some? ==> home.value in schemas
  {
    if path == [] then None
    else if SchemaOf(role, path[0]) in schemas then Some(SchemaOf(role, path[0]))
    else CreationSchema(role, path[1..], schemas)
  }

  /** The schema an unqualified reference finds a relation in: the first on the path that
      has it. */
  function Resolve(role: Name, path: seq<PathEntry>, schemas: map<Name, Schema>, relation: Name): (home: Option<Name>)
    ensures home.Some? ==> home.value in schemas && relation in schemas[home.value].relations
  {
    if path == [] then None
    else
      var first := SchemaOf(role, path[0]);
      if first in schemas && relation in schemas[first].relations then Some(first)
      else Resolve(role, path[1..], schemas, relation)
  }

  /** Entry `i` is the first on the path whose schema is one of these. */
  ghost predicate FirstOn(role: Name, path: seq<PathEntry>, i: int, schemas: set<Name>) {
    && 0 <= i < |path| && SchemaOf(role, path[i]) in schemas
    && forall j :: 0 <= j < i ==> SchemaOf(role, path[j]) !in schemas
  }

  ghost function Having(schemas: map<Name, Schema>, relation: Name): set<Name> {
    set n | n in schemas && relation in schemas[n].relations
  }

  lemma {:induction false} CreationIsFirst(role: Name, path: seq<PathEntry>, schemas: set<Name>, i: int)
    requires FirstOn(role, path, i, schemas)
    ensures CreationSchema(role, path, schemas) == Some(SchemaOf(role, path[i]))
  {
    if i > 0 {
      assert SchemaOf(role, path[0]) !in schemas;
      CreationIsFirst(role, path[1..], schemas, i - 1);
    }
  }

  lemma {:induction false} CreationIndex(role: Name, path: seq<PathEntry>, schemas: set<Name>) returns (i: int)
    requires CreationSchema(role, path, schemas).Some?
    ensures FirstOn(role, path, i, schemas) && CreationSchema(role, path, schemas) == Some(SchemaOf(role, path[i]))
  {
    if SchemaOf(role, path[0]) in schemas {
      i := 0;
    } else {
      var k := CreationIndex(role, path[1..], schemas);
      i := k + 1;
      assert path[1..][k] == path[i];
      assert forall j :: 0 < j < i ==> path[j] == path[1..][j - 1];
    }
  }

  /** A creation has nowhere to go exactly when no schema on the path exists. */
  lemma {:induction false} NoCreation(role: Name, path: seq<PathEntry>, schemas: set<Name>)
    ensures CreationSchema(role, path, schemas) == None
       <==> forall i :: 0 <= i < |path| ==> SchemaOf(role, path[i]) !in schemas
  {
    if path != [] {
      NoCreation(role, path[1..], schemas);
      assert path == [path[0]] + path[1..];
    }
  }

  /** A reference finds what a creation would find on the schemas that have the relation. */
  lemma {:induction false} ResolveIsFirst(role: Name, path: seq<PathEntry>, schemas: map<Name, Schema>, relation: Name)
    ensures Resolve(role, path, schemas, relation) == CreationSchema(role, path, Having(schemas, relation))
  {
    if path != [] {
      ResolveIsFirst(role, path[1..], schemas, relation);
    }
  }

  // ---- Tasks of the superuser ----

  datatype Task =
    | CreateAdminUser | CreateAppUser | CreateDatabase | GrantConnectAdminUser | GrantConnectAppUser
    | CreateSchema | GrantSchemaAdminUser | GrantSchemaAppUser | GrantOnTablesAppUser | GrantOnSequencesAppUser
    | AlterDefaultPrivilegesTablesAppUser | AlterDefaultPrivilegesSequencesAppUser | ProcessInitializeTestMode
    | AlterSearchPathAppUser
    | DropDb

  /** A user that exists already is left as it is. */
  function CreateUser(c: State, user: Name): State {
    if user in c.roles then c else c.(roles := c.roles + {user})
  }

  function NewDatabase(oid: nat, owner: Name): Database {
    Database(oid, owner, {}, map[PUBLIC := Schema({}, map[], {})])
  }

  function GrantConnect(c: State, database: Name, user: Name): Option<State> {
    if database !in c.databases || user !in c.roles then None
    else
      var db := c.databases[database];
      Some(c.(databases := c.databases[database := db.(connect := db.connect + {user})]))
  }

  // ---- Tasks of the admin, in the target database ----

  function GrantOn(s: Schema, kind: Kind, role: Name): Schema {
    s.(relations := map n | n in s.relations ::
         if s.relations[n].kind == kind
         then s.relations[n].(grants := s.relations[n].grants + AclFor(role, kind))
         else s.relations[n])
  }

  function CreateTable(s: Schema, name: Name, owner: Name): Schema {
    if name in s.relations then s
    else s.(relations := s.relations[name := Relation(TableKind, owner, DefaultAcl(s, owner, TableKind), {})])
  }

  function InsertRow(s: Schema, name: Name, id: int): Schema
    requires name in s.relations
  {
    s.(relations := s.relations[name := s.relations[name].(rows := s.relations[name].rows + {id})])
  }

  function CreateMarker(user: Name, path: seq<PathEntry>, schemas: map<Name, Schema>): Option<map<Name, Schema>> {
    match CreationSchema(user, path, schemas.Keys)
    case None => None
    case Some(home) => Some(schemas[home := CreateTable(schemas[home], MARKER, user)])
  }

  function InsertMarker(user: Name, path: seq<PathEntry>, schemas: map<Name, Schema>): Option<map<Name, Schema>> {
    match Resolve(user, path, schemas, MARKER)
    case None => None
    case Some(home) =>
      if schemas[home].relations[MARKER].kind != TableKind then None
      else Some(schemas[home := InsertRow(schemas[home], MARKER, MARKER_ID)])
  }

  function OnSchema(schemas: map<Name, Schema>, name: Name, f: Schema -> Schema): Option<map<Name, Schema>> {
    if name !in schemas then None else Some(schemas[name := f(schemas[name])])
  }

  predicate IsAdminTask(t: Task) {
    t in {CreateSchema, GrantSchemaAdminUser, GrantSchemaAppUser, GrantOnTablesAppUser, GrantOnSequencesAppUser,
          AlterDefaultPrivilegesTablesAppUser, AlterDefaultPrivilegesSequencesAppUser, ProcessInitializeTestMode}
  }

  function AdminExec(t: Task, cfg: Env, path: seq<PathEntry>, schemas: map<Name, Schema>): Option<map<Name, Schema>>
    requires IsAdminTask(t)
  {
    match t
    case CreateSchema =>
      Some(if cfg.schema in schemas then schemas else schemas[cfg.schema := Schema({}, map[], {})])
    case GrantSchemaAdminUser => OnSchema(schemas, cfg.schema, (s: Schema) => s.(usage := s.usage + {cfg.adminUser}))
    case GrantSchemaAppUser => OnSchema(schemas, cfg.schema, (s: Schema) => s.(usage := s.usage + {cfg.appUser}))
    case GrantOnTablesAppUser => OnSchema(schemas, cfg.schema, (s: Schema) => GrantOn(s, TableKind, cfg.appUser))
    case GrantOnSequencesAppUser => OnSchema(schemas, cfg.schema, (s: Schema) => GrantOn(s, SequenceKind, cfg.appUser))
    case AlterDefaultPrivilegesTablesAppUser =>
      OnSchema(schemas, cfg.schema,
        (s: Schema) => s.(defaults := s.defaults + DefaultsFor(cfg.adminUser, cfg.appUser, TableKind)))
    case AlterDefaultPrivilegesSequencesAppUser =>
      OnSchema(schemas, cfg.schema,
        (s: Schema) => s.(defaults := s.defaults + DefaultsFor(cfg.adminUser, cfg.appUser, SequenceKind)))
    case ProcessInitializeTestMode =>
      if cfg.mode != Test then Some(schemas)
      else match CreateMarker(cfg.adminUser, path, schemas)
        case None => None
        case Some(created) => InsertMarker(cfg.adminUser, path, created)
  }

  // ---- Any task ----

  /** `None` is an error that ends the run. */
  function Exec(t: Task, cfg: Env, c: State): Option<State> {
    match t
    case CreateAdminUser => Some(CreateUser(c, cfg.adminUser))
    case CreateAppUser => Some(CreateUser(c, cfg.appUser))
    case CreateDatabase =>
      if cfg.database in c.databases then Some(c)
      else if cfg.adminUser !in c.roles then None
      else Some(c.(databases := c.databases[cfg.database := NewDatabase(c.nextOid, cfg.adminUser)], nextOid := c.nextOid + 1))
    case GrantConnectAdminUser => GrantConnect(c, cfg.database, cfg.adminUser)
    case GrantConnectAppUser => GrantConnect(c, cfg.database, cfg.appUser)
    case AlterSearchPathAppUser =>
      if cfg.appUser !in c.roles then None
      else Some(c.(paths := c.paths[cfg.appUser := [In(cfg.schema), In(PUBLIC)]]))
    case DropDb =>
      if cfg.database == MAINTENANCE_DB then None
      else Some(c.(databases := c.databases - {cfg.database}))
    case _ =>
      if cfg.database !in c.databases then None
      else
        var db := c.databases[cfg.database];
        match AdminExec(t, cfg, Path(c, cfg.adminUser), db.schemas)
        case None => None
        case Some(schemas) => Some(c.(databases := c.databases[cfg.database := db.(schemas := schemas)]))
  }
}
