/**
 * `make_test_matrix`: the pytest parameter list for fixture contexts. Every
 * database string `provider/spec` that the SKIPDB list does not exclude is
 * combined with every target, table and kind; a non-sqlite3 database gets a
 * connection mapping built from the PG* environment variables.
 */
module Matrix {
  import opened Common

  /** A value in a connection mapping: text from the environment, or the default port number. */
  datatype SpecValue = Text(s: string) | Number(n: int)

  /** `db_spec`: a plain sqlite3 path, or a connection mapping for other providers. */
  datatype DbSpec = DbPath(path: string) | DbConn(fields: map<string, SpecValue>)

  /** The `ContextParams` named tuple. */
  datatype ContextParams = ContextParams(
    dbProvider: string, dbSpec: DbSpec, target: string, table: Option<string>, kind: Option<string>)

  /** `pytest.param(values, id=...)` */
  datatype Param = Param(values: ContextParams, id: string)

  /**
   * The environment variables read: SKIPDB, PGUSER, PGPORT, PGHOST. An unset
   * variable reads as "", which Python treats as false just like an empty one.
   */
  datatype PgEnv = PgEnv(skipdb: string, user: string, port: string, host: string)

  /** A database that survived the skip list: its original string, provider and spec. */
  datatype DbEntry = DbEntry(db: string, provider: string, spec: DbSpec)

  const DefaultPort: int := 5432
  const DefaultDbs: seq<string> := ["sqlite3/:memory:"]

  // ---------------------------------------------------------------------
  // str.split and its inverse

  /** `s.split(sep)`: never empty; no piece contains the separator. */
  function Split(s: string, sep: char): (parts: seq<string>)
    ensures |parts| >= 1
    ensures forall i :: 0 <= i < |parts| ==> sep !in parts[i]
    decreases |s|
  {
    if s == [] then [[]]
    else
      var rest := Split(s[1..], sep);
      if s[0] == sep then [[]] + rest else [[s[0]] + rest[0]] + rest[1..]
  }

  /** `sep.join(parts)` */
  function Join(parts: seq<string>, sep: char): string
    requires |parts| >= 1
    decreases |parts|
  {
    if |parts| == 1 then parts[0] else parts[0] + [sep] + Join(parts[1..], sep)
  }

  /** Joining the pieces of a split gives back the string. */
  lemma {:induction false} JoinSplit(s: string, sep: char)
    ensures Join(Split(s, sep), sep) == s
    decreases |s|
  {
    if s != [] {
      var rest := Split(s[1..], sep);
      JoinSplit(s[1..], sep);
      if s[0] == sep {
        assert Split(s, sep)[1..] == rest;
        assert s == [sep] + s[1..];
      } else if |rest| == 1 {
        assert s == [s[0]] + s[1..];
      } else {
        assert ([s[0]] + rest[0]) + [sep] + Join(rest[1..], sep) == [s[0]] + (rest[0] + [sep] + Join(rest[1..], sep));
        assert s == [s[0]] + s[1..];
      }
    }
  }

  /** Splitting a join of separator-free pieces gives back the pieces. */
  lemma {:induction false} SplitJoin(parts: seq<string>, sep: char)
    requires |parts| >= 1
    requires forall i :: 0 <= i < |parts| ==> sep !in parts[i]
    ensures Split(Join(parts, sep), sep) == parts
    decreases |parts|, |parts[0]|
  {
    if |parts| == 1 {
      SplitFree(parts[0], sep);
    } else if parts[0] == [] {
      var tail := parts[1..];
      SplitJoin(tail, sep);
      assert Join(parts, sep) == [sep] + Join(tail, sep);
      SplitSep(Join(tail, sep), sep);
      assert parts == [[]] + tail;
    } else {
      var c := parts[0][0];
      var shorter := [parts[0][1..]] + parts[1..];
      assert c in parts[0];
      SplitJoin(shorter, sep);
      JoinFirstChar(parts, sep);
      SplitChar(c, Join(shorter, sep), sep);
      assert parts[0] == [c] + parts[0][1..];
      assert parts == [parts[0]] + shorter[1..];
    }
  }

  /** A leading separator starts an empty piece. */
  lemma SplitSep(s: string, sep: char)
    ensures Split([sep] + s, sep) == [[]] + Split(s, sep)
  {
    assert ([sep] + s)[1..] == s;
  }

  /** A leading ordinary character joins the first piece. */
  lemma SplitChar(c: char, s: string, sep: char)
    requires c != sep
    ensures Split([c] + s, sep) == [[c] + Split(s, sep)[0]] + Split(s, sep)[1..]
  {
    assert ([c] + s)[1..] == s;
  }

  /** The first character of the first piece leads the join. */
  lemma JoinFirstChar(parts: seq<string>, sep: char)
    requires |parts| >= 2 && parts[0] != []
    ensures Join(parts, sep) == [parts[0][0]] + Join([parts[0][1..]] + parts[1..], sep)
  {
    var shorter := [parts[0][1..]] + parts[1..];
    assert shorter[1..] == parts[1..];
    assert parts[0] == [parts[0][0]] + parts[0][1..];
  }

  /** A string without the separator splits into itself. */
  lemma {:induction false} SplitFree(s: string, sep: char)
    requires sep !in s
    ensures Split(s, sep) == [s]
    decreases |s|
  {
    if s != [] {
      SplitFree(s[1..], sep);
      assert s == [s[0]] + s[1..];
    }
  }

  // ---------------------------------------------------------------------
  // The skip list

  /** `list(filter(lambda x: x, parts))`, keeping order. */
  function NonEmpty(parts: seq<string>): (r: seq<string>)
    ensures |r| <= |parts|
    ensures forall p :: p in r <==> p in parts && p != []
    decreases |parts|
  {
    if parts == [] then []
    else
      var rest := NonEmpty(parts[..|parts| - 1]);
      var last := parts[|parts| - 1];
      assert parts == parts[..|parts| - 1] + [last];
      if last == [] then rest else rest + [last]
  }

  /** `skipdb`: the non-empty colon-separated entries of SKIPDB. */
  function SkipList(env: PgEnv): (skip: seq<string>)
    ensures forall p :: p in skip <==> p in Split(env.skipdb, ':') && p != ""
    ensures forall p :: p in skip ==> ':' !in p
  {
    NonEmpty(Split(env.skipdb, ':'))
  }

  /** `any(map(db_provider.startswith, skipdb))` */
  predicate IsSkipped(provider: string, skip: seq<string>): (b: bool)
    ensures b <==> exists i :: 0 <= i < |skip| && |skip[i]| <= |provider| && provider[..|skip[i]|] == skip[i]
    ensures skip == [] ==> !b
  {
    assert forall i :: 0 <= i < |skip| ==>
      (skip[i] <= provider <==> |skip[i]| <= |provider| && provider[..|skip[i]|] == skip[i]);
    exists i :: 0 <= i < |skip| && skip[i] <= provider
  }

  // ---------------------------------------------------------------------
  // Parsing one database string

  /** `db.split('/')` unpacks into exactly two names. */
  predicate WellFormed(db: string) {
    |Split(db, '/')| == 2
  }

  function Provider(db: string): string
    requires WellFormed(db)
  {
    Split(db, '/')[0]
  }

  /** Whether the database takes part in the matrix. */
  predicate Kept(db: string, skip: seq<string>) {
    WellFormed(db) && !IsSkipped(Provider(db), skip)
  }

  /**
   * The connection mapping for a non-sqlite3 database: a host alone gets
   * port 5432, a port alone gets host "localhost".
   */
  function ConnSpec(dbname: string, env: PgEnv): map<string, SpecValue>
  {
    var base := map["dbname" := Text(dbname)];
    var withUser := if env.user != "" then base["user" := Text(env.user)] else base;
    var withHost :=
      if env.host != "" then
        (if env.port == "" then withUser["port" := Number(DefaultPort)] else withUser)["host" := Text(env.host)]
      else withUser;
    if env.port != "" then
      (if env.host == "" then withHost["host" := Text("localhost")] else withHost)["port" := Text(env.port)]
    else withHost
  }

  /** Which keys the connection mapping has, and the host and port defaults. */
  lemma ConnSpecDefaults(dbname: string, env: PgEnv)
    ensures ConnSpec(dbname, env).Keys <= {"dbname", "user", "host", "port"}
    ensures "dbname" in ConnSpec(dbname, env) && ConnSpec(dbname, env)["dbname"] == Text(dbname)
    ensures "user" in ConnSpec(dbname, env) <==> env.user != ""
    ensures "user" in ConnSpec(dbname, env) ==> ConnSpec(dbname, env)["user"] == Text(env.user)
    ensures "host" in ConnSpec(dbname, env) <==> env.host != "" || env.port != ""
    ensures "port" in ConnSpec(dbname, env) <==> env.host != "" || env.port != ""
    ensures env.host != "" ==> ConnSpec(dbname, env)["host"] == Text(env.host)
    ensures env.port != "" ==> ConnSpec(dbname, env)["port"] == Text(env.port)
    ensures env.host != "" && env.port == "" ==> ConnSpec(dbname, env)["port"] == Number(DefaultPort)
    ensures env.port != "" && env.host == "" ==> ConnSpec(dbname, env)["host"] == Text("localhost")
  {
  }

  /** What the loop body makes of a database string it keeps. */
  function EntryOf(db: string, env: PgEnv): (e: DbEntry)
    requires WellFormed(db)
    ensures e.db == db && e.provider == Provider(db)
    ensures e.provider == "sqlite3" <==> e.spec.DbPath?
    ensures e.spec.DbPath? ==> e.spec.path == Split(db, '/')[1]
    ensures e.spec.DbConn? ==> e.spec.fields == ConnSpec(Split(db, '/')[1], env)
  {
    var parts := Split(db, '/');
    if parts[0] != "sqlite3" then DbEntry(db, parts[0], DbConn(ConnSpec(parts[1], env)))
    else DbEntry(db, parts[0], DbPath(parts[1]))
  }

  /** How many of the databases are kept: the reference count for the matrix size. */
  function CountKept(dbs: seq<string>, skip: seq<string>): nat
    decreases |dbs|
  {
    if dbs == [] then 0
    else CountKept(dbs[..|dbs| - 1], skip) + (if Kept(dbs[|dbs| - 1], skip) then 1 else 0)
  }

  /**
   * The databases the outer loop keeps, in order; the first string that does
   * not unpack into `provider/spec` raises ValueError.
   */
  function KeptEntries(dbs: seq<string>, skip: seq<string>, env: PgEnv): (r: Result<seq<DbEntry>, Exc>)
    ensures r.Failure? ==> r.error == ValueError
    ensures r.Success? ==> |r.value| <= |dbs|
    decreases |dbs|
  {
    if dbs == [] then Success([])
    else
      var init := dbs[..|dbs| - 1];
      var db := dbs[|dbs| - 1];
      var prev := KeptEntries(init, skip, env);
      if prev.Failure? then prev
      else if !WellFormed(db) then Failure(ValueError)
      else if IsSkipped(Provider(db), skip) then prev
      else Success(prev.value + [EntryOf(db, env)])
  }

  /** One more database string: what the outer loop does with it. */
  lemma KeptEntriesSnoc(dbs: seq<string>, db: string, skip: seq<string>, env: PgEnv)
    ensures KeptEntries(dbs + [db], skip, env) ==
      if KeptEntries(dbs, skip, env).Failure? then KeptEntries(dbs, skip, env)
      else if !WellFormed(db) then Failure(ValueError)
      else if IsSkipped(Provider(db), skip) then KeptEntries(dbs, skip, env)
      else Success(KeptEntries(dbs, skip, env).value + [EntryOf(db, env)])
  {
    assert (dbs + [db])[..|dbs|] == dbs;
  }

  /** The outer loop raises ValueError exactly when some database string is malformed. */
  lemma {:induction false} KeptEntriesFailure(dbs: seq<string>, skip: seq<string>, env: PgEnv)
    ensures KeptEntries(dbs, skip, env).Failure? <==> exists i :: 0 <= i < |dbs| && !WellFormed(dbs[i])
    ensures KeptEntries(dbs, skip, env).Failure? ==> KeptEntries(dbs, skip, env).error == ValueError
    decreases |dbs|
  {
    if dbs != [] {
      var init, db := dbs[..|dbs| - 1], dbs[|dbs| - 1];
      assert dbs == init + [db];
      KeptEntriesFailure(init, skip, env);
      if exists i :: 0 <= i < |dbs| && !WellFormed(dbs[i]) {
        var i :| 0 <= i < |dbs| && !WellFormed(dbs[i]);
        if i < |init| {
          assert init[i] == dbs[i];
        }
      }
    }
  }

  /** On success the outer loop keeps one entry per kept database string. */
  lemma {:induction false} KeptEntriesCount(dbs: seq<string>, skip: seq<string>, env: PgEnv)
    requires KeptEntries(dbs, skip, env).Success?
    ensures |KeptEntries(dbs, skip, env).value| == CountKept(dbs, skip)
    decreases |dbs|
  {
    if dbs != [] {
      KeptEntriesCount(dbs[..|dbs| - 1], skip, env);
    }
  }

  /** A kept entry is exactly the parse of a kept database string. */
  lemma {:induction false} KeptEntriesMembership(dbs: seq<string>, skip: seq<string>, env: PgEnv, e: DbEntry)
    requires KeptEntries(dbs, skip, env).Success?
    ensures e in KeptEntries(dbs, skip, env).value <==> exists d :: d in dbs && Kept(d, skip) && e == EntryOf(d, env)
    decreases |dbs|
  {
    if dbs != [] {
      var init, db := dbs[..|dbs| - 1], dbs[|dbs| - 1];
      assert dbs == init + [db];
      KeptEntriesMembership(init, skip, env, e);
    }
  }

  // ---------------------------------------------------------------------
  // The cartesian product

  /** The id: `db=<db> target=<target>[ table=<table>][ kind=<kind>]`. */
  function ParamId(db: string, target: string, table: Option<string>, kind: Option<string>): (id: string)
    ensures var head := "db=" + db + " target=" + target;
      && head <= id
      && (table.None? && kind.None? ==> id == head)
      && (table.Some? ==> head + " table=" + table.value <= id)
      && (kind.Some? ==> |" kind=" + kind.value| <= |id| && id[|id| - |" kind=" + kind.value|..] == " kind=" + kind.value)
  {
    var head := "db=" + db + " target=" + target;
    var withTable := if table.Some? then head + " table=" + table.value else head;
    if kind.Some? then withTable + " kind=" + kind.value else withTable
  }

  /**
   * With the head, the table part and the kind part fixed by the contract
   * above, the length leaves nothing in between: the id is exactly those parts.
   */
  lemma ParamIdLength(db: string, target: string, table: Option<string>, kind: Option<string>)
    ensures |ParamId(db, target, table, kind)|
         == |"db=" + db + " target=" + target| + (if table.Some? then |" table=" + table.value| else 0)
            + (if kind.Some? then |" kind=" + kind.value| else 0)
  {
  }

  function MakeParam(e: DbEntry, target: string, table: Option<string>, kind: Option<string>): Param {
    Param(ContextParams(e.provider, e.spec, target, table, kind), ParamId(e.db, target, table, kind))
  }

  /** The innermost loop: one param per kind, in order. */
  function KindRow(e: DbEntry, target: string, table: Option<string>, kinds: seq<Option<string>>): (r: seq<Param>)
    ensures |r| == |kinds|
    ensures forall i :: 0 <= i < |kinds| ==> r[i] == MakeParam(e, target, table, kinds[i])
  {
    seq(|kinds|, i requires 0 <= i < |kinds| => MakeParam(e, target, table, kinds[i]))
  }

  /** The table loop: a row of kinds per table. */
  function TableBlock(e: DbEntry, target: string, tables: seq<Option<string>>, kinds: seq<Option<string>>): (r: seq<Param>)
    decreases |tables|
  {
    if tables == [] then []
    else
      var init := tables[..|tables| - 1];
      var r := TableBlock(e, target, init, kinds) + KindRow(e, target, tables[|tables| - 1], kinds);
      r
  }

  /** The target loop: a table block per target. */
  function TargetBlock(e: DbEntry, targets: seq<string>, tables: seq<Option<string>>, kinds: seq<Option<string>>): (r: seq<Param>)
    decreases |targets|
  {
    if targets == [] then []
    else
      var init := targets[..|targets| - 1];
      var r := TargetBlock(e, init, tables, kinds) + TableBlock(e, targets[|targets| - 1], tables, kinds);
      r
  }

  /** The database loop: a target block per kept database. */
  function DbBlocks(es: seq<DbEntry>, targets: seq<string>, tables: seq<Option<string>>, kinds: seq<Option<string>>): (r: seq<Param>)
    decreases |es|
  {
    if es == [] then []
    else
      var init := es[..|es| - 1];
      var r := DbBlocks(init, targets, tables, kinds) + TargetBlock(es[|es| - 1], targets, tables, kinds);
      r
  }

  /** One more kept database appends its target block. */
  lemma DbBlocksSnoc(es: seq<DbEntry>, e: DbEntry, targets: seq<string>, tables: seq<Option<string>>, kinds: seq<Option<string>>)
    ensures DbBlocks(es + [e], targets, tables, kinds) == DbBlocks(es, targets, tables, kinds) + TargetBlock(e, targets, tables, kinds)
  {
    assert (es + [e])[..|es|] == es;
  }

  lemma MulSucc(a: nat, b: nat)
    ensures (a + 1) * b == a * b + b
  {
  }

  lemma {:induction false} TableBlockSize(e: DbEntry, target: string, tables: seq<Option<string>>, kinds: seq<Option<string>>)
    ensures |TableBlock(e, target, tables, kinds)| == |tables| * |kinds|
    decreases |tables|
  {
    if tables != [] {
      var init := tables[..|tables| - 1];
      TableBlockSize(e, target, init, kinds);
      assert |TableBlock(e, target, tables, kinds)| == |TableBlock(e, target, init, kinds)| + |kinds|;
      MulSucc(|init|, |kinds|);
    }
  }

  lemma {:induction false} TargetBlockSize(e: DbEntry, targets: seq<string>, tables: seq<Option<string>>, kinds: seq<Option<string>>)
    ensures |TargetBlock(e, targets, tables, kinds)| == |targets| * (|tables| * |kinds|)
    decreases |targets|
  {
    if targets != [] {
      var init := targets[..|targets| - 1];
      var n := |tables| * |kinds|;
      TargetBlockSize(e, init, tables, kinds);
      TableBlockSize(e, targets[|targets| - 1], tables, kinds);
      assert |TargetBlock(e, targets, tables, kinds)| == |TargetBlock(e, init, tables, kinds)| + n;
      MulSucc(|init|, n);
    }
  }

  lemma {:induction false} DbBlocksSize(es: seq<DbEntry>, targets: seq<string>, tables: seq<Option<string>>, kinds: seq<Option<string>>)
    ensures |DbBlocks(es, targets, tables, kinds)| == |es| * (|targets| * (|tables| * |kinds|))
    decreases |es|
  {
    if es != [] {
      var init := es[..|es| - 1];
      var n := |targets| * (|tables| * |kinds|);
      DbBlocksSize(init, targets, tables, kinds);
      TargetBlockSize(es[|es| - 1], targets, tables, kinds);
      assert |DbBlocks(es, targets, tables, kinds)| == |DbBlocks(init, targets, tables, kinds)| + n;
      MulSucc(|init|, n);
    }
  }

  lemma KindRowMembership(e: DbEntry, target: string, table: Option<string>, kinds: seq<Option<string>>, p: Param)
    ensures p in KindRow(e, target, table, kinds) <==> exists k :: k in kinds && p == MakeParam(e, target, table, k)
  {
    var r := KindRow(e, target, table, kinds);
    if exists k :: k in kinds && p == MakeParam(e, target, table, k) {
      var k :| k in kinds && p == MakeParam(e, target, table, k);
      var i :| 0 <= i < |kinds| && kinds[i] == k;
      assert r[i] == p;
    }
  }

  lemma {:induction false} TableBlockMembership(e: DbEntry, target: string, tables: seq<Option<string>>,
                                                kinds: seq<Option<string>>, p: Param)
    ensures p in TableBlock(e, target, tables, kinds) <==>
      exists b, k :: b in tables && k in kinds && p == MakeParam(e, target, b, k)
    decreases |tables|
  {
    if tables != [] {
      var init, last := tables[..|tables| - 1], tables[|tables| - 1];
      assert tables == init + [last];
      TableBlockMembership(e, target, init, kinds, p);
      KindRowMembership(e, target, last, kinds, p);
    }
  }

  lemma {:induction false} TargetBlockMembership(e: DbEntry, targets: seq<string>, tables: seq<Option<string>>,
                                                 kinds: seq<Option<string>>, p: Param)
    ensures p in TargetBlock(e, targets, tables, kinds) <==>
      exists t, b, k :: t in targets && b in tables && k in kinds && p == MakeParam(e, t, b, k)
    decreases |targets|
  {
    if targets != [] {
      var init, last := targets[..|targets| - 1], targets[|targets| - 1];
      assert targets == init + [last];
      TargetBlockMembership(e, init, tables, kinds, p);
      TableBlockMembership(e, last, tables, kinds, p);
    }
  }

  lemma {:induction false} DbBlocksMembership(es: seq<DbEntry>, targets: seq<string>, tables: seq<Option<string>>,
                                              kinds: seq<Option<string>>, p: Param)
    ensures p in DbBlocks(es, targets, tables, kinds) <==>
      exists e, t, b, k :: e in es && t in targets && b in tables && k in kinds && p == MakeParam(e, t, b, k)
    decreases |es|
  {
    if es != [] {
      var init, last := es[..|es| - 1], es[|es| - 1];
      assert es == init + [last];
      DbBlocksMembership(init, targets, tables, kinds, p);
      TargetBlockMembership(last, targets, tables, kinds, p);
    }
  }

  /** `xs or default` on a list argument: None and [] both take the default. */
  function OrDefault<T>(xs: seq<T>, default: seq<T>): (r: seq<T>)
    ensures xs != [] ==> r == xs
    ensures xs == [] ==> r == default
    ensures r != [] <==> xs != [] || default != []
  {
    if xs == [] then default else xs
  }

  /**
   * The matrix over given (already defaulted) lists: the kept databases'
   * product with every target, table and kind, or the exception raised.
   */
  function Product(dbs: seq<string>, skip: seq<string>, env: PgEnv, targets: seq<string>,
                   tables: seq<Option<string>>, kinds: seq<Option<string>>): Result<seq<Param>, Exc>
  {
    match KeptEntries(dbs, skip, env)
    case Failure(e) => Failure(e)
    case Success(es) => Success(DbBlocks(es, targets, tables, kinds))
  }

  /** The whole result of `make_test_matrix`, or the exception it raises. */
  function TestMatrix(targets: seq<string>, tables: seq<Option<string>>, dbs: seq<string>,
                      types: seq<Option<string>>, env: PgEnv): (r: Result<seq<Param>, Exc>)
    ensures r.Failure? <==> exists i :: 0 <= i < |OrDefault(dbs, DefaultDbs)| && !WellFormed(OrDefault(dbs, DefaultDbs)[i])
    ensures r.Failure? ==> r.error == ValueError
  {
    ProductFailure(OrDefault(dbs, DefaultDbs), SkipList(env), env,
                   OrDefault(targets, ["local"]), OrDefault(tables, [None]), OrDefault(types, [None]));
    Product(OrDefault(dbs, DefaultDbs), SkipList(env), env,
            OrDefault(targets, ["local"]), OrDefault(tables, [None]), OrDefault(types, [None]))
  }

  /** A malformed database string anywhere in the list makes the product raise ValueError. */
  lemma ProductFailure(dbs: seq<string>, skip: seq<string>, env: PgEnv, targets: seq<string>,
                       tables: seq<Option<string>>, kinds: seq<Option<string>>)
    ensures Product(dbs, skip, env, targets, tables, kinds).Failure? <==> exists i :: 0 <= i < |dbs| && !WellFormed(dbs[i])
    ensures Product(dbs, skip, env, targets, tables, kinds).Failure? ==> Product(dbs, skip, env, targets, tables, kinds).error == ValueError
  {
    KeptEntriesFailure(dbs, skip, env);
  }

  /** The product has one param per kept database, target, table and kind. */
  lemma ProductSize(dbs: seq<string>, skip: seq<string>, env: PgEnv, targets: seq<string>,
                    tables: seq<Option<string>>, kinds: seq<Option<string>>)
    requires Product(dbs, skip, env, targets, tables, kinds).Success?
    ensures |Product(dbs, skip, env, targets, tables, kinds).value| == CountKept(dbs, skip) * (|targets| * (|tables| * |kinds|))
  {
    KeptEntriesCount(dbs, skip, env);
    DbBlocksSize(KeptEntries(dbs, skip, env).value, targets, tables, kinds);
  }

  /** Every param of the product combines a kept database with a target, a table and a kind. */
  lemma ProductSound(dbs: seq<string>, skip: seq<string>, env: PgEnv, targets: seq<string>,
                     tables: seq<Option<string>>, kinds: seq<Option<string>>, p: Param)
    requires Product(dbs, skip, env, targets, tables, kinds).Success?
    requires p in Product(dbs, skip, env, targets, tables, kinds).value
    ensures exists d, t, b, k ::
      && d in dbs && Kept(d, skip) && t in targets && b in tables && k in kinds
      && p == MakeParam(EntryOf(d, env), t, b, k)
  {
    var es := KeptEntries(dbs, skip, env).value;
    DbBlocksMembership(es, targets, tables, kinds, p);
    var e, t, b, k :| e in es && t in targets && b in tables && k in kinds && p == MakeParam(e, t, b, k);
    KeptEntriesMembership(dbs, skip, env, e);
    var d :| d in dbs && Kept(d, skip) && e == EntryOf(d, env);
  }

  /** Every combination of a kept database, a target, a table and a kind is in the product. */
  lemma ProductComplete(dbs: seq<string>, skip: seq<string>, env: PgEnv, targets: seq<string>,
                        tables: seq<Option<string>>, kinds: seq<Option<string>>,
                        d: string, t: string, b: Option<string>, k: Option<string>)
    requires Product(dbs, skip, env, targets, tables, kinds).Success?
    requires d in dbs && Kept(d, skip) && t in targets && b in tables && k in kinds
    ensures MakeParam(EntryOf(d, env), t, b, k) in Product(dbs, skip, env, targets, tables, kinds).value
  {
    var es := KeptEntries(dbs, skip, env).value;
    KeptEntriesMembership(dbs, skip, env, EntryOf(d, env));
    DbBlocksMembership(es, targets, tables, kinds, MakeParam(EntryOf(d, env), t, b, k));
  }

  // ---------------------------------------------------------------------
  // The function as written: nested loops appending to `ret`

  /** `db_spec` for a non-sqlite3 database, built up one environment variable at a time. */
  method BuildConnSpec(dbname: string, env: PgEnv) returns (fields: map<string, SpecValue>)
    ensures fields == ConnSpec(dbname, env)
  {
    fields := map["dbname" := Text(dbname)];
    if env.user != "" {
      fields := fields["user" := Text(env.user)];
    }
    if env.host != "" {
      if env.port == "" {
        fields := fields["port" := Number(DefaultPort)];
      }
      fields := fields["host" := Text(env.host)];
    }
    if env.port != "" {
      if env.host == "" {
        fields := fields["host" := Text("localhost")];
      }
      fields := fields["port" := Text(env.port)];
    }
  }

  /** The innermost loop: append one param per kind. */
  method AppendKinds(ret: seq<Param>, e: DbEntry, target: string, table: Option<string>, types: seq<Option<string>>)
    returns (ret': seq<Param>)
    ensures ret' == ret + KindRow(e, target, table, types)
  {
    ret' := ret;
    var m := 0;
    while m < |types|
      invariant 0 <= m <= |types|
      invariant ret' == ret + KindRow(e, target, table, types[..m])
    {
      var kind := types[m];
      var paramId := "db=" + e.db + " target=" + target;
      if table.Some? {
        paramId := paramId + " table=" + table.value;
      }
      if kind.Some? {
        paramId := paramId + " kind=" + kind.value;
      }
      var param := Param(ContextParams(e.provider, e.spec, target, table, kind), paramId);
      assert param == MakeParam(e, target, table, kind);
      ret' := ret' + [param];
      assert KindRow(e, target, table, types[..m + 1]) == KindRow(e, target, table, types[..m]) + [param];
      m := m + 1;
    }
    assert types[..m] == types;
  }

  /** The table loop: append a row of kinds per table. */
  method AppendTables(ret: seq<Param>, e: DbEntry, target: string, tables: seq<Option<string>>, types: seq<Option<string>>)
    returns (ret': seq<Param>)
    ensures ret' == ret + TableBlock(e, target, tables, types)
  {
    ret' := ret;
    var l := 0;
    while l < |tables|
      invariant 0 <= l <= |tables|
      invariant ret' == ret + TableBlock(e, target, tables[..l], types)
    {
      assert tables[..l + 1][..l] == tables[..l];
      ret' := AppendKinds(ret', e, target, tables[l], types);
      l := l + 1;
    }
    assert tables[..l] == tables;
  }

  /** The target loop for one kept database: append a table block per target. */
  method AppendTargets(ret: seq<Param>, e: DbEntry, targets: seq<string>, tables: seq<Option<string>>,
                       types: seq<Option<string>>)
    returns (ret': seq<Param>)
    ensures ret' == ret + TargetBlock(e, targets, tables, types)
  {
    ret' := ret;
    var j := 0;
    while j < |targets|
      invariant 0 <= j <= |targets|
      invariant ret' == ret + TargetBlock(e, targets[..j], tables, types)
    {
      assert targets[..j + 1][..j] == targets[..j];
      ret' := AppendTables(ret', e, targets[j], tables, types);
      j := j + 1;
    }
    assert targets[..j] == targets;
  }

  /** The database loop: split, skip, build the spec, then the inner loops. */
  method CollectParams(dbs: seq<string>, skipdb: seq<string>, env: PgEnv, targets: seq<string>,
                       tables: seq<Option<string>>, types: seq<Option<string>>)
    returns (r: Result<seq<Param>, Exc>)
    ensures r == Product(dbs, skipdb, env, targets, tables, types)
  {
    var ret: seq<Param> := [];
    ghost var kept: seq<DbEntry> := [];
    var i := 0;
    while i < |dbs|
      invariant 0 <= i <= |dbs|
      invariant KeptEntries(dbs[..i], skipdb, env) == Success(kept)
      invariant ret == DbBlocks(kept, targets, tables, types)
    {
      var db := dbs[i];
      assert dbs[..i + 1] == dbs[..i] + [db];
      KeptEntriesSnoc(dbs[..i], db, skipdb, env);
      var parts := Split(db, '/');
      if |parts| != 2 {
        KeptEntriesFailure(dbs, skipdb, env);
        return Failure(ValueError);
      }
      var provider, spec := parts[0], parts[1];
      if IsSkipped(provider, skipdb) {
        i := i + 1;
        continue;
      }
      var dbSpec := DbPath(spec);
      if provider != "sqlite3" {
        var fields := BuildConnSpec(spec, env);
        dbSpec := DbConn(fields);
      }
      var e := DbEntry(db, provider, dbSpec);
      assert e == EntryOf(db, env);
      ret := AppendTargets(ret, e, targets, tables, types);
      DbBlocksSnoc(kept, e, targets, tables, types);
      kept := kept + [e];
      i := i + 1;
    }
    assert dbs[..i] == dbs;
    r := Success(ret);
  }

  /** `make_test_matrix(targets, tables, dbs, types)` with the environment passed in. */
  method MakeTestMatrix(targets: seq<string>, tables: seq<Option<string>>, dbs: seq<string>,
                        types: seq<Option<string>>, env: PgEnv)
    returns (r: Result<seq<Param>, Exc>)
    ensures r == TestMatrix(targets, tables, dbs, types, env)
    ensures r.Success? ==>
      |r.value| == CountKept(OrDefault(dbs, DefaultDbs), SkipList(env))
                   * (|OrDefault(targets, ["local"])| * (|OrDefault(tables, [None])| * |OrDefault(types, [None])|))
  {
    var targets' := if targets == [] then ["local"] else targets;
    var tables' := if tables == [] then [None] else tables;
    var types' := if types == [] then [None] else types;
    var dbs' := if dbs == [] then DefaultDbs else dbs;
    var skipdb := NonEmpty(Split(env.skipdb, ':'));
    r := CollectParams(dbs', skipdb, env, targets', tables', types');
    if r.Success? {
      ProductSize(dbs', skipdb, env, targets', tables', types');
    }
  }
}
