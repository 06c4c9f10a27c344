/** `initialize_db` and `teardown_db`: tasks run by a superuser or an admin, in autocommit
    mode or in one transaction, and possibly cut short anywhere. */
module DbInit {
  import opened Prelude
  import opened Cluster

  const USER_TASKS: seq<Task> :=
    [CreateAdminUser, CreateAppUser, CreateDatabase, GrantConnectAdminUser, GrantConnectAppUser]

  const SCHEMA_TASKS: seq<Task> :=
    [CreateSchema, GrantSchemaAdminUser, GrantSchemaAppUser, GrantOnTablesAppUser, GrantOnSequencesAppUser,
     AlterDefaultPrivilegesTablesAppUser, AlterDefaultPrivilegesSequencesAppUser, ProcessInitializeTestMode]

  const PATH_TASKS: seq<Task> := [AlterSearchPathAppUser]

  /** The state a run of tasks leaves behind, and whether it got to its end. */
  datatype RunResult = RunResult(state: State, ok: bool)

  /** Tasks take effect one by one. `budget` is how many run before the process dies. */
  function Autocommit(tasks: seq<Task>, cfg: Env, c: State, budget: nat): RunResult
    decreases |tasks|
  {
    if tasks == [] then RunResult(c, true)
    else if budget == 0 then RunResult(c, false)
    else match Exec(tasks[0], cfg, c)
      case None => RunResult(c, false)
      case Some(c') => Autocommit(tasks[1..], cfg, c', budget - 1)
  }

  /** All tasks and the commit happen, or nothing does; the commit takes one more of the
      budget. */
  function Transaction(tasks: seq<Task>, cfg: Env, c: State, budget: nat): RunResult {
    var r := Autocommit(tasks, cfg, c, budget);
    if r.ok && budget > |tasks| then r else RunResult(c, false)
  }

  predicate CanConnect(c: State, database: Name, user: Name) {
    database in c.databases && user in c.roles
  }

  datatype Budgets = Budgets(users: nat, schema: nat, path: nat)

  function Setup(cfg: Env, c: State, b: Budgets): RunResult {
    var users := Autocommit(USER_TASKS, cfg, c, b.users);
    if !users.ok || !CanConnect(users.state, cfg.database, cfg.adminUser) then RunResult(users.state, false)
    else
      var schema := Transaction(SCHEMA_TASKS, cfg, users.state, b.schema);
      if !schema.ok then schema
      else Transaction(PATH_TASKS, cfg, schema.state, b.path)
  }

  predicate HasMarker(s: Schema) {
    && MARKER in s.relations
    && s.relations[MARKER].kind == TableKind && MARKER_ID in s.relations[MARKER].rows
  }

  /** What the superuser's `SELECT .. FROM test_marker WHERE id = 1` finds; an error inside
      counts as nothing found. */
  predicate MarkerVisible(cfg: Env, c: State)
    requires cfg.database in c.databases
  {
    var schemas := c.databases[cfg.database].schemas;
    match Resolve(cfg.superuser, Path(c, cfg.superuser), schemas, MARKER)
    case None => false
    case Some(home) => HasMarker(schemas[home])
  }

  /** Of the schemas with a relation of the marker's name, the first on the superuser's search
      path holds the marker. */
  ghost predicate SeesMarker(cfg: Env, c: State)
    requires cfg.database in c.databases
  {
    var path, schemas := Path(c, cfg.superuser), c.databases[cfg.database].schemas;
    exists i :: FirstOn(cfg.superuser, path, i, Having(schemas, MARKER)) && HasMarker(schemas[SchemaOf(cfg.superuser, path[i])])
  }

  lemma SeenIsVisible(cfg: Env, c: State)
    requires cfg.database in c.databases
    ensures SeesMarker(cfg, c) <==> MarkerVisible(cfg, c)
  {
    var path, schemas := Path(c, cfg.superuser), c.databases[cfg.database].schemas;
    ResolveIsFirst(cfg.superuser, path, schemas, MARKER);
    if MarkerVisible(cfg, c) {
      var i := CreationIndex(cfg.superuser, path, Having(schemas, MARKER));
    }
    forall i | FirstOn(cfg.superuser, path, i, Having(schemas, MARKER))
      ensures Resolve(cfg.superuser, path, schemas, MARKER) == Some(SchemaOf(cfg.superuser, path[i]))
    {
      CreationIsFirst(cfg.superuser, path, Having(schemas, MARKER), i);
    }
  }

  /** Not ok is an exception: the connection for the check, or the drop, fails. */
  function Teardown(cfg: Env, c: State, budget: nat): RunResult {
    if cfg.mode != Test then RunResult(c, true)
    else if cfg.database !in c.databases then RunResult(c, false)
    else if !MarkerVisible(cfg, c) then RunResult(c, true)
    else Autocommit([DropDb], cfg, c, budget)
  }

  class Server {
    var state: State

    constructor (state: State)
      ensures this.state == state
    {
      this.state := state;
    }

    /** The session sees its own changes; the cluster does at once or at the commit. */
    method RunTasks(cfg: Env, tasks: seq<Task>, autocommit: bool, budget: nat) returns (ok: bool)
      modifies this
      ensures RunResult(state, ok) == if autocommit then Autocommit(tasks, cfg, old(state), budget)
                                   else Transaction(tasks, cfg, old(state), budget)
    {
      var session := state;
      for i := 0 to |tasks|
        invariant i <= budget
        invariant state == if autocommit then session else old(state)
        invariant Autocommit(tasks, cfg, old(state), budget) == Autocommit(tasks[i..], cfg, session, budget - i)
      {
        if i == budget {
          return false;
        }
        var done := Exec(tasks[i], cfg, session);
        assert tasks[i..][1..] == tasks[i + 1..];
        if done.None? {
          return false;
        }
        session := done.value;
        if autocommit {
          state := session;
        }
      }
      if !autocommit {
        if |tasks| == budget {
          return false;
        }
        state := session;
      }
      return true;
    }

    method InitializeDb(cfg: Env, b: Budgets) returns (ok: bool)
      modifies this
      ensures RunResult(state, ok) == Setup(cfg, old(state), b)
    {
      ok := RunTasks(cfg, USER_TASKS, true, b.users);
      if !ok {
        return;
      }
      if !CanConnect(state, cfg.database, cfg.adminUser) {
        return false;
      }
      ok := RunTasks(cfg, SCHEMA_TASKS, false, b.schema);
      if !ok {
        return;
      }
      ok := RunTasks(cfg, PATH_TASKS, false, b.path);
    }

    /** No result is an exception: the connection to the database fails. */
    method CheckTestMode(cfg: Env) returns (r: Option<bool>)
      ensures r == Some(true) <==> cfg.mode == Test && cfg.database in state.databases && SeesMarker(cfg, state)
      ensures r == None <==> cfg.mode == Test && cfg.database !in state.databases
    {
      if cfg.mode == Test {
        if cfg.database !in state.databases {
          return None;
        }
        SeenIsVisible(cfg, state);
        return Some(MarkerVisible(cfg, state));
      }
      return Some(false);
    }

    method TeardownDb(cfg: Env, budget: nat) returns (ok: bool)
      modifies this
      ensures RunResult(state, ok) == Teardown(cfg, old(state), budget)
    {
      var marked := CheckTestMode(cfg);
      if marked.None? {
        return false;
      }
      if cfg.database in state.databases {
        SeenIsVisible(cfg, state);
      }
      if marked.value {
        ok := RunTasks(cfg, [DropDb], true, budget);
      } else {
        ok := true;
      }
    }
  }
}
