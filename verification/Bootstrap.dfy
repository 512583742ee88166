/** The database bootstrap job: per environment a role, a database, three schemas with their tables,
    and the grants. Each psql call is one statement here: it takes effect whole or fails whole. */
module Bootstrap {
  import opened Base

  const SCHEMAS: seq<string> := ["auth", "tasks", "notifier"]

  /** A login role; `iam`: it holds rds_iam. */
  datatype Role = Role(login: bool, iam: bool, searchPath: seq<string>)

  /** A database, with what its own application role may do in it. Tables are (schema, name). */
  datatype Database = Database(
    owner: string,
    schemas: set<string>,
    tables: set<(string, string)>,
    indexes: set<(string, string)>,
    usage: set<string>,
    dml: set<(string, string)>,
    sequences: set<(string, string)>,
    defaultDml: set<string>,
    defaultSequences: set<string>)

  /** The instance: roles, the roles its master user is a member of, databases. */
  datatype Cluster = Cluster(roles: map<string, Role>, master: set<string>, dbs: map<string, Database>)

  function RoleName(env: string): string {
    "app_" + env
  }

  function DbName(env: string): string {
    "devops_" + env
  }

  /** The psql calls of one turn of the outer loop. */
  datatype Call =
    | EnsureRole
    | RevokeMembership
    | EnsureDatabase
    | EnsureSchemas
    | EnsureTable(schema: string, table: string, index: string)
    | GrantSchema(schema: string)
    | SetSearchPath

  const BASE: seq<Call> := [EnsureRole, RevokeMembership, EnsureDatabase, EnsureSchemas]

  const TABLES: seq<Call> := [
    EnsureTable("auth", "users", "idx_users_email"),
    EnsureTable("tasks", "tasks", "idx_tasks_user"),
    EnsureTable("notifier", "notifications", "idx_notifications_user")]

  /** The calls before the inner loop, in script order. */
  const OBJECTS: seq<Call> := BASE + TABLES

  /** The inner loop over the schemas. */
  function Grants(schemas: seq<string>): seq<Call> {
    if schemas == [] then [] else [GrantSchema(schemas[0])] + Grants(schemas[1..])
  }

  function Calls(): seq<Call> {
    OBJECTS + (Grants(SCHEMAS) + [SetSearchPath])
  }

  // ---------- what belongs to one environment ----------

  /** The part of the cluster one environment's calls read and write. */
  datatype Slice = Slice(role: Option<Role>, member: bool, db: Option<Database>)

  function Get(c: Cluster, env: string): Slice {
    Slice(if RoleName(env) in c.roles then Some(c.roles[RoleName(env)]) else None,
          RoleName(env) in c.master,
          if DbName(env) in c.dbs then Some(c.dbs[DbName(env)]) else None)
  }

  function PutKey<T>(m: map<string, T>, key: string, value: Option<T>): map<string, T> {
    match value
    case Some(v) => m[key := v]
    case None => m - {key}
  }

  function Put(c: Cluster, env: string, s: Slice): Cluster {
    Cluster(PutKey(c.roles, RoleName(env), s.role),
            if s.member then c.master + {RoleName(env)} else c.master - {RoleName(env)},
            PutKey(c.dbs, DbName(env), s.db))
  }

  lemma NamesDiffer(a: string, b: string)
    requires a != b
    ensures RoleName(a) != RoleName(b) && DbName(a) != DbName(b)
  {
    assert RoleName(a)[4..] == a && RoleName(b)[4..] == b;
    assert DbName(a)[7..] == a && DbName(b)[7..] == b;
  }

  lemma GetPut(c: Cluster, env: string, s: Slice)
    ensures Get(Put(c, env, s), env) == s
    ensures Put(c, env, Get(c, env)) == c
  {
  }

  lemma PutPut(c: Cluster, env: string, s: Slice, t: Slice)
    ensures Put(Put(c, env, s), env, t) == Put(c, env, t)
  {
  }

  lemma PutApart(c: Cluster, a: string, s: Slice, b: string, t: Slice)
    requires a != b
    ensures Get(Put(c, a, s), b) == Get(c, b)
    ensures Put(Put(c, a, s), b, t) == Put(Put(c, b, t), a, s)
  {
    NamesDiffer(a, b);
    var l, r := Put(Put(c, a, s), b, t), Put(Put(c, b, t), a, s);
    assert l.roles == r.roles;
    assert l.dbs == r.dbs;
    assert l.master == r.master;
  }

  // ---------- the calls ----------

  function EmptyDatabase(owner: string): Database {
    Database(owner, {}, {}, {}, {}, {}, {}, {}, {})
  }

  function TablesIn(d: Database, schema: string): set<(string, string)> {
    set t | t in d.tables && t.0 == schema
  }

  /** One call on one environment; None: psql reports an error and `set -e` ends the run. The
      membership revoke never ends it. */
  function Exec(s: Slice, role: string, call: Call): Option<Slice> {
    match call
    case EnsureRole =>
      if s.role.Some? then Some(s) else Some(s.(role := Some(Role(true, true, []))))
    case RevokeMembership =>
      Some(s.(member := false))
    case EnsureDatabase =>
      if s.db.Some? then Some(s)
      else if s.role.None? then None
      else Some(s.(db := Some(EmptyDatabase(role))))
    case EnsureSchemas =>
      if s.db.None? then None
      else
        var d := s.db.value;
        Some(s.(db := Some(d.(schemas := d.schemas + {"auth", "tasks", "notifier"}))))
    case EnsureTable(schema, table, index) =>
      if s.db.None? || schema !in s.db.value.schemas then None
      else
        var d := s.db.value;
        Some(s.(db := Some(d.(tables := d.tables + {(schema, table)}, indexes := d.indexes + {(schema, index)}))))
    case GrantSchema(schema) =>
      if s.db.None? || s.role.None? || schema !in s.db.value.schemas then None
      else
        var d := s.db.value;
        Some(s.(db := Some(d.(usage := d.usage + {schema},
                              dml := d.dml + TablesIn(d, schema),
                              sequences := d.sequences + TablesIn(d, schema),
                              defaultDml := d.defaultDml + {schema},
                              defaultSequences := d.defaultSequences + {schema}))))
    case SetSearchPath =>
      if s.db.None? || s.role.None? then None
      else Some(s.(role := Some(s.role.value.(searchPath := ["auth", "tasks", "notifier", "public"]))))
  }

  function Apply(c: Cluster, env: string, call: Call): Option<Cluster> {
    match Exec(Get(c, env), RoleName(env), call)
    case None => None
    case Some(s) => Some(Put(c, env, s))
  }

  datatype Command = Command(env: string, call: Call)

  /** Commands one after the other; the first error ends the run, keeping what was done. */
  function Perform(c: Cluster, commands: seq<Command>): (r: (Cluster, bool))
    decreases commands
  {
    if commands == [] then (c, true)
    else
      match Apply(c, commands[0].env, commands[0].call)
      case None => (c, false)
      case Some(next) => Perform(next, commands[1..])
  }

  function ForEnv(env: string, calls: seq<Call>): seq<Command> {
    seq(|calls|, i requires 0 <= i < |calls| => Command(env, calls[i]))
  }

  /** The whole script, loops unrolled. */
  function Script(envs: seq<string>): seq<Command> {
    if envs == [] then [] else ForEnv(envs[0], Calls()) + Script(envs[1..])
  }

  // ---------- what a finished environment looks like ----------

  const ALL: set<string> := {"auth", "tasks", "notifier"}
  const OWN_TABLES: set<(string, string)> := {("auth", "users"), ("tasks", "tasks"), ("notifier", "notifications")}
  const OWN_INDEXES: set<(string, string)> :=
    {("auth", "idx_users_email"), ("tasks", "idx_tasks_user"), ("notifier", "idx_notifications_user")}

  /** The state the job aims at, from any earlier one: whatever was there stays, what is missing is added. */
  function Target(s: Slice, role: string): Slice {
    var d := if s.db.Some? then s.db.value else EmptyDatabase(role);
    var r := if s.role.Some? then s.role.value else Role(true, true, []);
    var granted := set t | t in d.tables + OWN_TABLES && t.0 in ALL;
    Slice(Some(r.(searchPath := ["auth", "tasks", "notifier", "public"])),
          false,
          Some(Database(d.owner,
                        d.schemas + ALL,
                        d.tables + OWN_TABLES,
                        d.indexes + OWN_INDEXES,
                        d.usage + ALL,
                        d.dml + granted,
                        d.sequences + granted,
                        d.defaultDml + ALL,
                        d.defaultSequences + ALL)))
  }

  function Reach(c: Cluster, env: string): Cluster {
    Put(c, env, Target(Get(c, env), RoleName(env)))
  }

  function ReachAll(c: Cluster, envs: seq<string>): Cluster
    decreases envs
  {
    if envs == [] then c else ReachAll(Reach(c, envs[0]), envs[1..])
  }

  // ---------- a complete run reaches the target ----------

  /** All of these calls on one environment. */
  function ExecAll(s: Slice, role: string, calls: seq<Call>): Option<Slice>
    decreases calls
  {
    if calls == [] then Some(s)
    else
      match Exec(s, role, calls[0])
      case None => None
      case Some(s1) => ExecAll(s1, role, calls[1..])
  }

  lemma ExecCons(s: Slice, role: string, call: Call, rest: seq<Call>)
    requires Exec(s, role, call).Some?
    ensures ExecAll(s, role, [call] + rest) == ExecAll(Exec(s, role, call).value, role, rest)
  {
  }

  lemma {:induction false} ExecAllAppend(s: Slice, role: string, a: seq<Call>, b: seq<Call>)
    requires ExecAll(s, role, a).Some?
    ensures ExecAll(s, role, a + b) == ExecAll(ExecAll(s, role, a).value, role, b)
    decreases a
  {
    if a == [] {
      assert a + b == b;
    } else {
      assert (a + b)[1..] == a[1..] + b;
      ExecAllAppend(Exec(s, role, a[0]).value, role, a[1..], b);
    }
  }

  /** After the base calls: role, database and schemas exist. */
  function WithSchemas(s: Slice, role: string): Slice {
    var d := if s.db.Some? then s.db.value else EmptyDatabase(role);
    Slice(Some(if s.role.Some? then s.role.value else Role(true, true, [])), false,
          Some(d.(schemas := d.schemas + ALL)))
  }

  /** After the calls before the inner loop. */
  function WithObjects(s: Slice, role: string): Slice {
    var d := WithSchemas(s, role).db.value;
    WithSchemas(s, role).(db := Some(d.(tables := d.tables + OWN_TABLES, indexes := d.indexes + OWN_INDEXES)))
  }

  lemma BaseReached(s: Slice, role: string)
    ensures ExecAll(s, role, BASE) == Some(WithSchemas(s, role))
  {
    var s1 := Exec(s, role, EnsureRole).value;
    var s2 := Exec(s1, role, RevokeMembership).value;
    var s3 := Exec(s2, role, EnsureDatabase).value;
    ExecNext(s, role, BASE, 0);
    ExecNext(s1, role, BASE, 1);
    ExecNext(s2, role, BASE, 2);
    ExecNext(s3, role, BASE, 3);
    assert BASE[0..] == BASE && BASE[4..] == [];
  }

  lemma TablesReached(s: Slice, role: string)
    requires s.db.Some? && ALL <= s.db.value.schemas
    ensures var d := s.db.value;
            ExecAll(s, role, TABLES)
            == Some(s.(db := Some(d.(tables := d.tables + OWN_TABLES, indexes := d.indexes + OWN_INDEXES))))
  {
    var s1 := Exec(s, role, TABLES[0]).value;
    var s2 := Exec(s1, role, TABLES[1]).value;
    var s3 := Exec(s2, role, TABLES[2]).value;
    ExecNext(s, role, TABLES, 0);
    ExecNext(s1, role, TABLES, 1);
    ExecNext(s2, role, TABLES, 2);
    assert TABLES[0..] == TABLES && TABLES[3..] == [];
    assert s3.db.value.tables == s.db.value.tables + OWN_TABLES;
    assert s3.db.value.indexes == s.db.value.indexes + OWN_INDEXES;
  }

  lemma ObjectsReached(s: Slice, role: string)
    ensures ExecAll(s, role, OBJECTS) == Some(WithObjects(s, role))
  {
    BaseReached(s, role);
    ExecAllAppend(s, role, BASE, TABLES);
    TablesReached(WithSchemas(s, role), role);
  }

  lemma ExecNext(s: Slice, role: string, calls: seq<Call>, i: nat)
    requires i < |calls| && Exec(s, role, calls[i]).Some?
    ensures ExecAll(s, role, calls[i..]) == ExecAll(Exec(s, role, calls[i]).value, role, calls[i + 1..])
  {
    assert calls[i..][1..] == calls[i + 1..];
  }

  /** The database after granting on these schemas. */
  function Granted(d: Database, schemas: set<string>): Database {
    var tables := set t | t in d.tables && t.0 in schemas;
    d.(usage := d.usage + schemas, dml := d.dml + tables, sequences := d.sequences + tables,
       defaultDml := d.defaultDml + schemas, defaultSequences := d.defaultSequences + schemas)
  }

  lemma {:induction false} GrantsReached(s: Slice, role: string, schemas: seq<string>)
    requires s.role.Some? && s.db.Some?
    requires forall x :: x in schemas ==> x in s.db.value.schemas
    ensures ExecAll(s, role, Grants(schemas))
         == Some(s.(db := Some(Granted(s.db.value, set x | x in schemas))))
    decreases schemas
  {
    var d := s.db.value;
    var all := set x | x in schemas;
    if schemas == [] {
      assert Granted(d, all) == d;
    } else {
      var s1 := Exec(s, role, GrantSchema(schemas[0])).value;
      ExecCons(s, role, GrantSchema(schemas[0]), Grants(schemas[1..]));
      GrantsReached(s1, role, schemas[1..]);
      var later := set x | x in schemas[1..];
      assert all == {schemas[0]} + later;
      assert TablesIn(d, schemas[0]) == set t | t in d.tables && t.0 in {schemas[0]};
      assert s1.db.value == Granted(d, {schemas[0]});
      GrantTwice(d, schemas[0], later);
    }
  }

  lemma GrantTwice(d: Database, schema: string, later: set<string>)
    ensures Granted(Granted(d, {schema}), later) == Granted(d, {schema} + later)
  {
  }

  /** No call of a complete turn fails, and the turn leaves exactly the target. */
  lemma TurnReachesTarget(s: Slice, role: string)
    ensures ExecAll(s, role, Calls()) == Some(Target(s, role))
  {
    var s1 := WithObjects(s, role);
    ObjectsReached(s, role);
    ExecAllAppend(s, role, OBJECTS, Grants(SCHEMAS) + [SetSearchPath]);
    GrantsReached(s1, role, SCHEMAS);
    assert (set x | x in SCHEMAS) == ALL;
    ExecAllAppend(s1, role, Grants(SCHEMAS), [SetSearchPath]);
    var s2 := ExecAll(s1, role, Grants(SCHEMAS)).value;
    assert [SetSearchPath] + [] == [SetSearchPath];
    ExecCons(s2, role, SetSearchPath, []);
    assert Exec(s2, role, SetSearchPath) == Some(Target(s, role));
  }

  // ---------- what one call leaves to be done ----------

  lemma ObjectKeepsTarget(s: Slice, role: string, call: Call)
    requires call in OBJECTS && Exec(s, role, call).Some?
    ensures Target(Exec(s, role, call).value, role) == Target(s, role)
  {
    var a, b := Target(Exec(s, role, call).value, role).db.value, Target(s, role).db.value;
    assert a.schemas == b.schemas;
    assert a.tables == b.tables;
    assert a.indexes == b.indexes;
    assert a.dml == b.dml;
    assert a.sequences == b.sequences;
  }

  lemma GrantKeepsTarget(s: Slice, role: string, schema: string)
    requires schema in ALL && Exec(s, role, GrantSchema(schema)).Some?
    ensures Target(Exec(s, role, GrantSchema(schema)).value, role) == Target(s, role)
  {
    var a, b := Target(Exec(s, role, GrantSchema(schema)).value, role).db.value, Target(s, role).db.value;
    assert a.usage == b.usage;
    assert a.dml == b.dml;
    assert a.sequences == b.sequences;
    assert a.defaultDml == b.defaultDml;
    assert a.defaultSequences == b.defaultSequences;
  }

  /** A call of the script that takes effect moves towards the same target. */
  lemma CallKeepsTarget(s: Slice, role: string, call: Call)
    requires call in Calls() && Exec(s, role, call).Some?
    ensures Target(Exec(s, role, call).value, role) == Target(s, role)
  {
    CallIsListed(call);
    if call in OBJECTS {
      ObjectKeepsTarget(s, role, call);
    } else if call.GrantSchema? {
      GrantKeepsTarget(s, role, call.schema);
    }
  }

  lemma CallIsListed(call: Call)
    requires call in Calls()
    ensures || call in OBJECTS
            || call == GrantSchema("auth") || call == GrantSchema("tasks") || call == GrantSchema("notifier")
            || call == SetSearchPath
  {
  }

  lemma TargetTwice(s: Slice, role: string)
    ensures Target(Target(s, role), role) == Target(s, role)
  {
  }

  // ---------- whole runs ----------

  lemma {:induction false} TurnInRun(c: Cluster, env: string, calls: seq<Call>, rest: seq<Command>)
    requires ExecAll(Get(c, env), RoleName(env), calls).Some?
    ensures Perform(c, ForEnv(env, calls) + rest)
         == Perform(Put(c, env, ExecAll(Get(c, env), RoleName(env), calls).value), rest)
    decreases calls
  {
    if calls == [] {
      GetPut(c, env, Get(c, env));
      assert ForEnv(env, calls) + rest == rest;
    } else {
      var s1 := Exec(Get(c, env), RoleName(env), calls[0]).value;
      var c1 := Put(c, env, s1);
      GetPut(c, env, s1);
      PutPut(c, env, s1, ExecAll(s1, RoleName(env), calls[1..]).value);
      assert (ForEnv(env, calls) + rest)[1..] == ForEnv(env, calls[1..]) + rest;
      TurnInRun(c1, env, calls[1..], rest);
    }
  }

  /** A complete run succeeds from every starting state and reaches the target of each environment. */
  lemma {:induction false} ScriptReaches(c: Cluster, envs: seq<string>)
    ensures Perform(c, Script(envs)) == (ReachAll(c, envs), true)
    decreases envs
  {
    if envs != [] {
      TurnReachesTarget(Get(c, envs[0]), RoleName(envs[0]));
      TurnInRun(c, envs[0], Calls(), Script(envs[1..]));
      ScriptReaches(Reach(c, envs[0]), envs[1..]);
    }
  }

  lemma ReachApart(c: Cluster, a: string, s: Slice, b: string)
    requires a != b
    ensures Reach(Put(c, a, s), b) == Put(Reach(c, b), a, s)
  {
    PutApart(c, a, s, b, Target(Get(c, b), RoleName(b)));
  }

  lemma {:induction false} CommandAbsorbed(c: Cluster, envs: seq<string>, cmd: Command)
    requires cmd.env in envs && cmd.call in Calls()
    requires Apply(c, cmd.env, cmd.call).Some?
    ensures ReachAll(Apply(c, cmd.env, cmd.call).value, envs) == ReachAll(c, envs)
    decreases envs
  {
    var s1 := Exec(Get(c, cmd.env), RoleName(cmd.env), cmd.call).value;
    var c1 := Put(c, cmd.env, s1);
    if envs[0] == cmd.env {
      GetPut(c, cmd.env, s1);
      CallKeepsTarget(Get(c, cmd.env), RoleName(cmd.env), cmd.call);
      PutPut(c, cmd.env, s1, Target(s1, RoleName(cmd.env)));
    } else {
      var next := Reach(c, envs[0]);
      ReachApart(c, cmd.env, s1, envs[0]);
      PutApart(c, envs[0], Target(Get(c, envs[0]), RoleName(envs[0])), cmd.env, s1);
      CommandAbsorbed(next, envs[1..], cmd);
    }
  }

  /** Any commands of the script, in any order and number, errors included, leave the outcome of a
      later complete run where it was. */
  lemma {:induction false} CommandsAbsorbed(c: Cluster, envs: seq<string>, commands: seq<Command>)
    requires forall x :: x in commands ==> x.env in envs && x.call in Calls()
    ensures ReachAll(Perform(c, commands).0, envs) == ReachAll(c, envs)
    decreases commands
  {
    if commands != [] {
      assert commands[0] in commands;
      var next := Apply(c, commands[0].env, commands[0].call);
      if next.Some? {
        CommandAbsorbed(c, envs, commands[0]);
        CommandsAbsorbed(next.value, envs, commands[1..]);
      }
    }
  }

  lemma {:induction false} ScriptIsItsCalls(envs: seq<string>)
    ensures forall x :: x in Script(envs) ==> x.env in envs && x.call in Calls()
  {
    if envs != [] {
      ScriptIsItsCalls(envs[1..]);
      var turn := ForEnv(envs[0], Calls());
      forall x | x in Script(envs)
        ensures x.env in envs && x.call in Calls()
      {
        if x in turn {
          var i :| 0 <= i < |turn| && turn[i] == x;
          assert x.call == Calls()[i];
        } else {
          assert x in Script(envs[1..]);
        }
      }
    }
  }

  /** Runs of the job that each got only so far: the first cuts[i] commands. */
  function Attempts(c: Cluster, envs: seq<string>, cuts: seq<nat>): Cluster
    decreases cuts
  {
    if cuts == [] then c else Attempts(Perform(c, First(Script(envs), cuts[0])).0, envs, cuts[1..])
  }

  lemma {:induction false} AttemptsAbsorbed(c: Cluster, envs: seq<string>, cuts: seq<nat>)
    ensures ReachAll(Attempts(c, envs, cuts), envs) == ReachAll(c, envs)
    decreases cuts
  {
    if cuts != [] {
      ScriptIsItsCalls(envs);
      var part := First(Script(envs), cuts[0]);
      assert forall x :: x in part ==> x in Script(envs);
      CommandsAbsorbed(c, envs, part);
      AttemptsAbsorbed(Perform(c, part).0, envs, cuts[1..]);
    }
  }

  /** Crash and retry converge: after any number of runs that stopped anywhere, one complete run
      ends exactly as it would have ended alone. */
  lemma RetryConverges(c: Cluster, envs: seq<string>, cuts: seq<nat>)
    ensures Perform(Attempts(c, envs, cuts), Script(envs)) == Perform(c, Script(envs))
    ensures Perform(c, Script(envs)).1
  {
    ScriptReaches(c, envs);
    ScriptReaches(Attempts(c, envs, cuts), envs);
    AttemptsAbsorbed(c, envs, cuts);
  }

  // ---------- order and repetition of environments ----------

  lemma ReachCommutes(c: Cluster, a: string, b: string)
    ensures Reach(Reach(c, a), b) == Reach(Reach(c, b), a)
  {
    if a != b {
      var s, t := Target(Get(c, a), RoleName(a)), Target(Get(c, b), RoleName(b));
      PutApart(c, a, s, b, t);
      PutApart(c, b, t, a, s);
    }
  }

  lemma ReachTwice(c: Cluster, env: string)
    ensures Reach(Reach(c, env), env) == Reach(c, env)
  {
  }

  lemma {:induction false} ReachPastAll(c: Cluster, env: string, envs: seq<string>)
    ensures ReachAll(Reach(c, env), envs) == Reach(ReachAll(c, envs), env)
    decreases envs
  {
    if envs != [] {
      ReachCommutes(c, env, envs[0]);
      ReachPastAll(Reach(c, envs[0]), env, envs[1..]);
    }
  }

  lemma {:induction false} ReachAgain(c: Cluster, env: string, envs: seq<string>)
    requires env in envs
    ensures Reach(ReachAll(c, envs), env) == ReachAll(c, envs)
    decreases envs
  {
    if env == envs[0] {
      ReachPastAll(Reach(c, env), env, envs[1..]);
      ReachTwice(c, env);
    } else {
      ReachAgain(Reach(c, envs[0]), env, envs[1..]);
    }
  }

  lemma {:induction false} ReachAllAgain(c: Cluster, envs: seq<string>, more: seq<string>)
    requires forall e :: e in more ==> e in envs
    ensures ReachAll(ReachAll(c, envs), more) == ReachAll(c, envs)
    decreases more
  {
    if more != [] {
      assert more[0] in more;
      ReachAgain(c, more[0], envs);
      ReachAllAgain(c, envs, more[1..]);
    }
  }

  lemma {:induction false} ReachAllCommutes(c: Cluster, a: seq<string>, b: seq<string>)
    ensures ReachAll(ReachAll(c, a), b) == ReachAll(ReachAll(c, b), a)
    decreases b
  {
    if b != [] {
      ReachPastAll(c, b[0], a);
      ReachAllCommutes(Reach(c, b[0]), a, b[1..]);
    }
  }

  /** The same environments in another order, or some of them twice, give the same instance. */
  lemma OrderDoesNotMatter(c: Cluster, a: seq<string>, b: seq<string>)
    requires forall e :: e in a <==> e in b
    ensures Perform(c, Script(a)) == Perform(c, Script(b))
  {
    ScriptReaches(c, a);
    ScriptReaches(c, b);
    ReachAllAgain(c, a, b);
    ReachAllAgain(c, b, a);
    ReachAllCommutes(c, a, b);
  }

  // ---------- what an application finds ----------

  /** The schema an unqualified table name resolves to. */
  function Resolve(d: Database, path: seq<string>, table: string): Option<string> {
    if path == [] then None
    else if (path[0], table) in d.tables then Some(path[0])
    else Resolve(d, path[1..], table)
  }

  lemma {:induction false} ReachedSlice(c: Cluster, env: string, envs: seq<string>)
    requires env in envs
    ensures Get(ReachAll(c, envs), env) == Target(Get(c, env), RoleName(env))
    decreases envs
  {
    ReachAgain(c, env, envs);
    if env == envs[0] {
      ReachPastAll(c, env, envs[1..]);
      if env in envs[1..] {
        ReachedSlice(Reach(c, env), env, envs[1..]);
        GetPut(c, env, Target(Get(c, env), RoleName(env)));
        TargetTwice(Get(c, env), RoleName(env));
      } else {
        SliceUntouched(Reach(c, env), env, envs[1..]);
        GetPut(c, env, Target(Get(c, env), RoleName(env)));
      }
    } else {
      PutApart(c, envs[0], Target(Get(c, envs[0]), RoleName(envs[0])), env, Get(c, env));
      ReachedSlice(Reach(c, envs[0]), env, envs[1..]);
    }
  }

  lemma {:induction false} SliceUntouched(c: Cluster, env: string, envs: seq<string>)
    requires env !in envs
    ensures Get(ReachAll(c, envs), env) == Get(c, env)
    decreases envs
  {
    if envs != [] {
      PutApart(c, envs[0], Target(Get(c, envs[0]), RoleName(envs[0])), env, Get(c, env));
      SliceUntouched(Reach(c, envs[0]), env, envs[1..]);
    }
  }

  /** After a complete run each environment has exactly this: its role, made with login and rds_iam if
      it was missing, on the search path of the services; its database, owned by the role if it was
      missing, with the three schemas, tables and indexes added to what was there; every grant on all
      tables of the three schemas; and the master is no member of the role. */
  lemma EnvironmentReady(c: Cluster, envs: seq<string>, env: string)
    requires env in envs
    ensures var role, name := "app_" + env, "devops_" + env;
            var c' := Perform(c, Script(envs)).0;
            var own := {("auth", "users"), ("tasks", "tasks"), ("notifier", "notifications")};
            var d0 := if name in c.dbs then c.dbs[name] else Database(role, {}, {}, {}, {}, {}, {}, {}, {});
            && role in c'.roles && name in c'.dbs && role !in c'.master
            && var r, d := c'.roles[role], c'.dbs[name];
            && r.searchPath == ["auth", "tasks", "notifier", "public"]
            && (role in c.roles ==> r.login == c.roles[role].login && r.iam == c.roles[role].iam)
            && (role !in c.roles ==> r.login && r.iam)
            && d.owner == d0.owner
            && d.schemas == d0.schemas + {"auth", "tasks", "notifier"}
            && d.tables == d0.tables + own
            && d.indexes == d0.indexes + {("auth", "idx_users_email"), ("tasks", "idx_tasks_user"),
                                          ("notifier", "idx_notifications_user")}
            && d.usage == d0.usage + {"auth", "tasks", "notifier"}
            && d.defaultDml == d0.defaultDml + {"auth", "tasks", "notifier"}
            && d.defaultSequences == d0.defaultSequences + {"auth", "tasks", "notifier"}
            && (forall t :: t in d.dml <==> t in d0.dml || (t in d.tables && t.0 in {"auth", "tasks", "notifier"}))
            && (forall t :: t in d.sequences <==>
                  t in d0.sequences || (t in d.tables && t.0 in {"auth", "tasks", "notifier"}))
  {
    ScriptReaches(c, envs);
    ReachedSlice(c, env, envs);
  }

  /** Nothing else on the instance changes: roles, memberships and databases of no listed environment. */
  lemma {:induction false} OthersUntouched(c: Cluster, envs: seq<string>, name: string)
    ensures var c' := Perform(c, Script(envs)).0;
            && ((forall env :: env in envs ==> name != "app_" + env) ==>
                  && (name in c'.roles <==> name in c.roles)
                  && (name in c.roles ==> c'.roles[name] == c.roles[name])
                  && (name in c'.master <==> name in c.master))
            && ((forall env :: env in envs ==> name != "devops_" + env) ==>
                  && (name in c'.dbs <==> name in c.dbs)
                  && (name in c.dbs ==> c'.dbs[name] == c.dbs[name]))
    decreases envs
  {
    ScriptReaches(c, envs);
    if envs != [] {
      assert envs[0] in envs && forall e :: e in envs[1..] ==> e in envs;
      OthersUntouched(Reach(c, envs[0]), envs[1..], name);
      ScriptReaches(Reach(c, envs[0]), envs[1..]);
    }
  }

  /** The three services find their tables through the search path: users always, tasks and
      notifications exactly when no schema earlier on the path already held a table of that name. */
  lemma NamesResolve(c: Cluster, envs: seq<string>, env: string)
    requires env in envs
    ensures var c' := Perform(c, Script(envs)).0;
            var before := if DbName(env) in c.dbs then c.dbs[DbName(env)].tables else {};
            && RoleName(env) in c'.roles && DbName(env) in c'.dbs
            && var path, d := c'.roles[RoleName(env)].searchPath, c'.dbs[DbName(env)];
            && Resolve(d, path, "users") == Some("auth")
            && (Resolve(d, path, "tasks") == Some("tasks") <==> ("auth", "tasks") !in before)
            && (Resolve(d, path, "notifications") == Some("notifier") <==>
                  ("auth", "notifications") !in before && ("tasks", "notifications") !in before)
  {
    ScriptReaches(c, envs);
    ReachedSlice(c, env, envs);
    var c' := Perform(c, Script(envs)).0;
    PathLookup(c'.dbs[DbName(env)], "users");
    PathLookup(c'.dbs[DbName(env)], "tasks");
    PathLookup(c'.dbs[DbName(env)], "notifications");
  }

  lemma PathLookup(d: Database, table: string)
    ensures Resolve(d, ["auth", "tasks", "notifier", "public"], table)
         == if ("auth", table) in d.tables then Some("auth")
            else if ("tasks", table) in d.tables then Some("tasks")
            else if ("notifier", table) in d.tables then Some("notifier")
            else if ("public", table) in d.tables then Some("public")
            else None
  {
    assert ["auth", "tasks", "notifier", "public"][1..] == ["tasks", "notifier", "public"];
    assert ["tasks", "notifier", "public"][1..] == ["notifier", "public"];
    assert ["notifier", "public"][1..] == ["public"];
    assert ["public"][1..] == [];
    assert Resolve(d, ["public"], table) == if ("public", table) in d.tables then Some("public") else None;
    assert Resolve(d, ["notifier", "public"], table)
        == if ("notifier", table) in d.tables then Some("notifier") else Resolve(d, ["public"], table);
  }

  // ---------- the script itself ----------

  /** As Perform, with a limit on how many commands finish before the pod is stopped. */
  function PerformWithin(c: Cluster, commands: seq<Command>, left: nat): (Cluster, bool, nat)
    decreases commands
  {
    if commands == [] then (c, true, left)
    else if left == 0 then (c, false, 0)
    else
      match Apply(c, commands[0].env, commands[0].call)
      case None => (c, false, left - 1)
      case Some(next) => PerformWithin(next, commands[1..], left - 1)
  }

  lemma {:induction false} WithinAppend(c: Cluster, a: seq<Command>, b: seq<Command>, left: nat)
    ensures PerformWithin(c, a + b, left)
         == var (c1, ok, left1) := PerformWithin(c, a, left);
            if ok then PerformWithin(c1, b, left1) else (c1, false, left1)
    decreases a
  {
    if a == [] {
      assert a + b == b;
    } else {
      assert (a + b)[1..] == a[1..] + b;
      if left > 0 && Apply(c, a[0].env, a[0].call).Some? {
        WithinAppend(Apply(c, a[0].env, a[0].call).value, a[1..], b, left - 1);
      }
    }
  }

  lemma {:induction false} WithinIsPrefix(c: Cluster, commands: seq<Command>, left: nat)
    ensures PerformWithin(c, commands, left).0 == Perform(c, First(commands, left)).0
    ensures PerformWithin(c, commands, left).1 <==> Perform(c, commands).1 && left >= |commands|
    decreases commands
  {
    if commands != [] && left > 0 {
      var part := First(commands, left);
      assert part[0] == commands[0];
      assert part[1..] == First(commands[1..], left - 1);
      if Apply(c, commands[0].env, commands[0].call).Some? {
        WithinIsPrefix(Apply(c, commands[0].env, commands[0].call).value, commands[1..], left - 1);
      }
    }
  }

  lemma ScriptTurn(c: Cluster, envs: seq<string>, i: nat, left: nat)
    requires i < |envs|
    ensures PerformWithin(c, Script(envs[i..]), left)
         == var (c1, ok, left1) := PerformWithin(c, ForEnv(envs[i], Calls()), left);
            if ok then PerformWithin(c1, Script(envs[i + 1..]), left1) else (c1, false, left1)
  {
    assert envs[i..][1..] == envs[i + 1..];
    WithinAppend(c, ForEnv(envs[i], Calls()), Script(envs[i + 1..]), left);
  }

  class Job {
    var cluster: Cluster
    var left: nat

    constructor (cluster: Cluster, left: nat)
      ensures this.cluster == cluster && this.left == left
    {
      this.cluster, this.left := cluster, left;
    }

    /** One psql call; not ok: it failed, or the pod was stopped before it. */
    method Psql(env: string, call: Call) returns (ok: bool)
      modifies this
      ensures (cluster, ok, left) == PerformWithin(old(cluster), [Command(env, call)], old(left))
    {
      assert [Command(env, call)][1..] == [];
      if left == 0 {
        return false;
      }
      left := left - 1;
      match Apply(cluster, env, call) {
        case None =>
          ok := false;
        case Some(next) =>
          cluster := next;
          ok := true;
      }
    }

    /** Calls in sequence under `set -e`. */
    method Sequence(env: string, calls: seq<Call>) returns (ok: bool)
      modifies this
      ensures (cluster, ok, left) == PerformWithin(old(cluster), ForEnv(env, calls), old(left))
    {
      var i := 0;
      ok := true;
      while i < |calls|
        invariant 0 <= i <= |calls| && ok
        invariant PerformWithin(cluster, ForEnv(env, calls[i..]), left)
               == PerformWithin(old(cluster), ForEnv(env, calls), old(left))
      {
        assert ForEnv(env, calls[i..]) == [Command(env, calls[i])] + ForEnv(env, calls[i + 1..]);
        WithinAppend(cluster, [Command(env, calls[i])], ForEnv(env, calls[i + 1..]), left);
        ok := Psql(env, calls[i]);
        if !ok {
          return;
        }
        i := i + 1;
      }
    }

    /** The inner loop over the schemas. */
    method GrantAll(env: string, schemas: seq<string>) returns (ok: bool)
      modifies this
      ensures (cluster, ok, left) == PerformWithin(old(cluster), ForEnv(env, Grants(schemas)), old(left))
    {
      var i := 0;
      ok := true;
      while i < |schemas|
        invariant 0 <= i <= |schemas| && ok
        invariant PerformWithin(cluster, ForEnv(env, Grants(schemas[i..])), left)
               == PerformWithin(old(cluster), ForEnv(env, Grants(schemas)), old(left))
      {
        assert schemas[i..][1..] == schemas[i + 1..];
        ghost var rest := ForEnv(env, Grants(schemas[i + 1..]));
        assert ForEnv(env, Grants(schemas[i..])) == [Command(env, GrantSchema(schemas[i]))] + rest;
        WithinAppend(cluster, [Command(env, GrantSchema(schemas[i]))], rest, left);
        ok := Psql(env, GrantSchema(schemas[i]));
        if !ok {
          return;
        }
        i := i + 1;
      }
    }

    /** One turn of the outer loop. */
    method Provision(env: string) returns (ok: bool)
      modifies this
      ensures (cluster, ok, left) == PerformWithin(old(cluster), ForEnv(env, Calls()), old(left))
    {
      ghost var tail := ForEnv(env, Grants(SCHEMAS)) + [Command(env, SetSearchPath)];
      assert ForEnv(env, Calls()) == ForEnv(env, OBJECTS) + tail;
      WithinAppend(cluster, ForEnv(env, OBJECTS), tail, left);
      ok := Sequence(env, OBJECTS);
      if !ok {
        return;
      }
      WithinAppend(cluster, ForEnv(env, Grants(SCHEMAS)), [Command(env, SetSearchPath)], left);
      ok := GrantAll(env, SCHEMAS);
      if !ok {
        return;
      }
      ok := Psql(env, SetSearchPath);
    }

    /** The job: it performs as much of the script as it has time for, and reports success only for
        all of it. */
    method Run(envs: seq<string>) returns (ok: bool)
      modifies this
      ensures cluster == Perform(old(cluster), First(Script(envs), old(left))).0
      ensures ok <==> old(left) >= |Script(envs)|
    {
      WithinIsPrefix(cluster, Script(envs), left);
      ScriptReaches(cluster, envs);
      var i := 0;
      ok := true;
      while i < |envs|
        invariant 0 <= i <= |envs| && ok
        invariant PerformWithin(cluster, Script(envs[i..]), left)
               == PerformWithin(old(cluster), Script(envs), old(left))
      {
        ScriptTurn(cluster, envs, i, left);
        ok := Provision(envs[i]);
        if !ok {
          return;
        }
        i := i + 1;
      }
    }
  }
}
