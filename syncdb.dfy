/** scripts/syncdb.py: the schema-migration tool. It finds the numbered
    migration scripts of a schema directory, reads the database's version
    from its `version` table, and applies in ascending order exactly the
    migrations above that version up to the one requested, recording a
    version row after each. */
module SyncDb {
  import opened Wrappers
  import opened PyStr
  import opened Scan
  import opened Seqs

  // ---------------------------------------------------------------- command line

  /** The action options; a string option not given is the empty string. */
  datatype SyncOptions = SyncOptions(toMigration: string, databaseInfo: bool, schemaInfo: bool, forceVersion: string)

  datatype SyncAction = ToMigration(migrationNumber: string) | DatabaseInfo | SchemaInfo | ForceVersion(version: string)

  function SyncFlags(o: SyncOptions): (r: seq<bool>)
    ensures |r| == 4
  {
    [o.toMigration != "", o.databaseInfo, o.schemaInfo, o.forceVersion != ""]
  }

  /** The `if`/`elif` chain of `do_action`. */
  function SyncChosen(o: SyncOptions): SyncAction
    requires CountTrue(SyncFlags(o)) == 1
  {
    if o.toMigration != "" then ToMigration(o.toMigration)
    else if o.databaseInfo then DatabaseInfo
    else if o.schemaInfo then SchemaInfo
    else ForceVersion(o.forceVersion)
  }

  function SyncFlagOf(a: SyncAction): (r: nat)
    ensures r < 4
  {
    match a
    case ToMigration(_) => 0
    case DatabaseInfo => 1
    case SchemaInfo => 2
    case ForceVersion(_) => 3
  }

  /** With exactly one option set, the chain takes that option's action. */
  lemma SyncChosenIsTheOne(o: SyncOptions)
    requires CountTrue(SyncFlags(o)) == 1
    ensures OnlyTrueAt(SyncFlags(o), SyncFlagOf(SyncChosen(o)))
  {
    CountOne(SyncFlags(o));
    var i :| OnlyTrueAt(SyncFlags(o), i);
    var f := SyncFlags(o);
    assert f[i];
    assert forall j :: 0 <= j < 4 && j != i ==> !f[j];
  }

  /** Only the schema report works without a database file. */
  predicate NeedsDatabase(a: SyncAction)
  {
    !a.SchemaInfo?
  }

  /** `do_action(options, args)`: it raises unless exactly one action option
      is given, and `get_database(args)` raises for an action that needs the
      database file when no argument names one. */
  method SyncDoAction(o: SyncOptions, args: seq<string>) returns (r: Result<SyncAction>)
    ensures r.Ok? <==> CountTrue(SyncFlags(o)) == 1 && (NeedsDatabase(SyncChosen(o)) ==> |args| > 0)
    ensures r.Ok? ==> r.value == SyncChosen(o) && OnlyTrueAt(SyncFlags(o), SyncFlagOf(r.value))
  {
    var trueCount := CountTruthy(SyncFlags(o));
    if trueCount != 1 {
      return Err("ERROR - You must provide exactly one action option.");
    }
    var action := SyncChosen(o);
    SyncChosenIsTheOne(o);
    if NeedsDatabase(action) && |args| == 0 {
      return Err("ERROR - This action requires the database_file argument.");
    }
    r := Ok(action);
  }

  // ---------------------------------------------------------------- get_migrations

  datatype Migration = Migration(directory: string, file: string, number: nat)

  /** SCHEMA_PATTERN, `(?P<migration>\d+)\.sql`, matched at the start of f
      with its digit group covering f[..n]; anything may follow. */
  predicate SchemaMatch(f: string, n: int)
  {
    1 <= n && n + 4 <= |f| && AllDigits(f[..n]) && f[n..n + 4] == ".sql"
  }

  /** The migration number `re.match` reads from a file name, if any. */
  function MigrationNumber(f: string): Option<nat>
  {
    var e := RunEnd(f, 0, IsDigit);
    if 1 <= e && e + 4 <= |f| && f[e..e + 4] == ".sql" then Some(DigitsValue(f[..e])) else None
  }

  /** The recogniser is the pattern: a number comes back exactly when the
      pattern matches, and it is the value of the digit group. */
  lemma MigrationNumberIff(f: string)
    ensures MigrationNumber(f).Some? <==> exists n :: SchemaMatch(f, n)
    ensures forall n :: SchemaMatch(f, n) ==> MigrationNumber(f) == Some(DigitsValue(f[..n]))
  {
    forall n | SchemaMatch(f, n)
      ensures RunEnd(f, 0, IsDigit) == n
    {
      assert f[n] == f[n..n + 4][0] == '.';
      assert forall k :: 0 <= k < n ==> IsDigit(f[..n][k]);
      RunEndAt(f, 0, n, IsDigit);
    }
    var e := RunEnd(f, 0, IsDigit);
    if MigrationNumber(f).Some? {
      assert forall k :: 0 <= k < e ==> f[..e][k] == f[k];
      assert SchemaMatch(f, e);
    }
  }

  /** The loop collecting `(schema_directory, f, number)` for each file name
      the pattern matches, in listing order. */
  function Qualifying(dir: string, files: seq<string>): seq<Migration>
    decreases |files|
  {
    if files == [] then []
    else
      var f := files[|files| - 1];
      var n := MigrationNumber(f);
      Qualifying(dir, files[..|files| - 1]) + (if n.Some? then [Migration(dir, f, n.value)] else [])
  }

  /** What is collected is exactly the matching names, each with its
      number. */
  lemma {:induction false} QualifyingExactly(dir: string, files: seq<string>)
    ensures forall k :: 0 <= k < |Qualifying(dir, files)| ==>
      var m := Qualifying(dir, files)[k];
      m.directory == dir && m.file in files && MigrationNumber(m.file) == Some(m.number)
    ensures forall k :: 0 <= k < |files| && MigrationNumber(files[k]).Some? ==>
      Migration(dir, files[k], MigrationNumber(files[k]).value) in Qualifying(dir, files)
    decreases |files|
  {
    if files != [] {
      var init := files[..|files| - 1];
      var last := files[|files| - 1];
      var n := MigrationNumber(last);
      QualifyingExactly(dir, init);
      var before := Qualifying(dir, init);
      var tail := if n.Some? then [Migration(dir, last, n.value)] else [];
      var r := before + tail;
      assert r == Qualifying(dir, files);
      assert forall k :: 0 <= k < |init| ==> init[k] == files[k];
      forall k | 0 <= k < |r|
        ensures r[k].directory == dir && r[k].file in files && MigrationNumber(r[k].file) == Some(r[k].number)
      {
        if k < |before| {
          assert r[k] == before[k];
          assert before[k].directory == dir && before[k].file in init && MigrationNumber(before[k].file) == Some(before[k].number);
          var j :| 0 <= j < |init| && init[j] == before[k].file;
          assert files[j] == init[j];
        } else {
          assert r[k] == tail[0] && last == files[|files| - 1];
        }
      }
      forall k | 0 <= k < |files| && MigrationNumber(files[k]).Some?
        ensures Migration(dir, files[k], MigrationNumber(files[k]).value) in r
      {
        if k < |init| {
          assert files[k] == init[k];
          assert Migration(dir, init[k], MigrationNumber(init[k]).value) in before;
        } else {
          assert files[k] == last && r[|before|] == tail[0];
        }
      }
    }
  }

  /** `get_migrations` finds nothing exactly when no name matches. */
  lemma QualifyingEmptyIff(dir: string, files: seq<string>)
    ensures Qualifying(dir, files) == [] <==> forall k :: 0 <= k < |files| ==> MigrationNumber(files[k]).None?
  {
    QualifyingExactly(dir, files);
    var r := Qualifying(dir, files);
    if r != [] {
      var x := r[0];
      assert x.file in files && MigrationNumber(x.file) == Some(x.number);
      var j :| 0 <= j < |files| && files[j] == x.file;
      assert MigrationNumber(files[j]).Some?;
    }
  }

  predicate SortedByNumber(ms: seq<Migration>)
  {
    forall i, j :: 0 <= i < j < |ms| ==> ms[i].number <= ms[j].number
  }

  /** Inserting before the first migration with a number not below it. */
  function InsertByNumber(m: Migration, ms: seq<Migration>): (r: seq<Migration>)
    ensures multiset(r) == multiset(ms) + multiset{m}
    ensures |r| == |ms| + 1
    decreases |ms|
  {
    if ms == [] || m.number <= ms[0].number then [m] + ms
    else
      assert ms == [ms[0]] + ms[1..];
      [ms[0]] + InsertByNumber(m, ms[1..])
  }

  /** A bound below m and below every migration is below the result. */
  lemma {:induction false} InsertBounded(m: Migration, ms: seq<Migration>, b: int)
    requires b <= m.number && forall k :: 0 <= k < |ms| ==> b <= ms[k].number
    ensures forall k :: 0 <= k < |InsertByNumber(m, ms)| ==> b <= InsertByNumber(m, ms)[k].number
    decreases |ms|
  {
    if ms != [] && m.number > ms[0].number {
      InsertBounded(m, ms[1..], b);
    }
  }

  /** Inserting into a sorted sequence keeps it sorted. */
  lemma {:induction false} InsertSorted(m: Migration, ms: seq<Migration>)
    requires SortedByNumber(ms)
    ensures SortedByNumber(InsertByNumber(m, ms))
    decreases |ms|
  {
    if ms != [] && m.number > ms[0].number {
      InsertSorted(m, ms[1..]);
      InsertBounded(m, ms[1..], ms[0].number);
    }
  }

  /** `migrations.sort(lambda x, y: x[2]-y[2])`: a stable sort by number. */
  function SortByNumber(ms: seq<Migration>): (r: seq<Migration>)
    ensures SortedByNumber(r)
    ensures multiset(r) == multiset(ms) && |r| == |ms|
    decreases |ms|
  {
    if ms == [] then []
    else
      assert ms == [ms[0]] + ms[1..];
      var rest := SortByNumber(ms[1..]);
      InsertSorted(ms[0], rest);
      InsertByNumber(ms[0], rest)
  }

  /** `get_migrations(schema_directory)` on the names the directory lists:
      it raises when none matches, and otherwise returns the matches sorted. */
  method GetMigrations(dir: string, files: seq<string>) returns (r: Result<seq<Migration>>)
    ensures r.Err? <==> Qualifying(dir, files) == []
    ensures r.Err? ==> r.error == "No migrations exist in schema directory '" + dir + "'."
    ensures r.Ok? ==> r.value == SortByNumber(Qualifying(dir, files))
  {
    var migrations: seq<Migration> := [];
    for k := 0 to |files|
      invariant migrations == Qualifying(dir, files[..k])
    {
      assert files[..k + 1][..k] == files[..k];
      var number := MigrationNumber(files[k]);
      if number.Some? {
        migrations := migrations + [Migration(dir, files[k], number.value)];
      }
    }
    assert files[..|files|] == files;
    if |migrations| == 0 {
      return Err("No migrations exist in schema directory '" + dir + "'.");
    }
    r := Ok(SortByNumber(migrations));
  }

  /** HEAD, the last of the sorted migrations, has the highest number of all
      the names that match. */
  lemma HeadIsHighest(dir: string, files: seq<string>)
    requires Qualifying(dir, files) != []
    ensures var ms := SortByNumber(Qualifying(dir, files));
      |ms| > 0 && forall m :: m in Qualifying(dir, files) ==> m.number <= ms[|ms| - 1].number
  {
    var all := Qualifying(dir, files);
    LastIsHighest(SortByNumber(all), all);
  }

  lemma LastIsHighest(ms: seq<Migration>, all: seq<Migration>)
    requires SortedByNumber(ms) && multiset(ms) == multiset(all) && |ms| > 0
    ensures forall m :: m in all ==> m.number <= ms[|ms| - 1].number
  {
    forall m | m in all
      ensures m.number <= ms[|ms| - 1].number
    {
      assert m in multiset(all);
      assert m in ms;
      var i :| 0 <= i < |ms| && ms[i] == m;
      if i < |ms| - 1 {
        assert ms[i].number <= ms[|ms| - 1].number;
      }
    }
  }

  // ---------------------------------------------------------------- version table

  /** A row of the `version` table; the migration timestamp is left out. */
  datatype VersionRow = VersionRow(id: int, version: int, description: string)

  /** The row `order by id desc limit 1` returns. */
  function LatestRow(rows: seq<VersionRow>): (r: VersionRow)
    requires |rows| > 0
    ensures r in rows
    ensures forall k :: 0 <= k < |rows| ==> rows[k].id <= r.id
    decreases |rows|
  {
    if |rows| == 1 then rows[0]
    else
      var rest := LatestRow(rows[1..]);
      assert forall k :: 1 <= k < |rows| ==> rows[k] == rows[1..][k - 1];
      if rows[0].id >= rest.id then rows[0] else rest
  }

  /** `get_database_version`: the version in the row with the highest id,
      or 0 when there is no row or no `version` table to query. */
  function DatabaseVersion(versions: Option<seq<VersionRow>>): int
  {
    if versions.None? || |versions.value| == 0 then 0 else LatestRow(versions.value).version
  }

  function MaxVersionId(rows: seq<VersionRow>): (r: int)
    ensures forall k :: 0 <= k < |rows| ==> rows[k].id <= r
    decreases |rows|
  {
    if rows == [] then 0
    else
      var rest := MaxVersionId(rows[1..]);
      assert forall k :: 1 <= k < |rows| ==> rows[k] == rows[1..][k - 1];
      if rows[0].id > rest then rows[0].id else rest
  }

  /** The id SQLite gives an inserted row: one above the largest. */
  function NextVersionId(rows: seq<VersionRow>): int
  {
    MaxVersionId(rows) + 1
  }

  /** The last row has the highest id. */
  predicate NewestLast(rows: seq<VersionRow>)
  {
    |rows| > 0 && forall k :: 0 <= k < |rows| - 1 ==> rows[k].id < rows[|rows| - 1].id
  }

  /** When the newest row is the last, the version is the last row's. */
  lemma NewestIsLatest(rows: seq<VersionRow>)
    requires NewestLast(rows)
    ensures DatabaseVersion(Some(rows)) == rows[|rows| - 1].version
  {
    var r := LatestRow(rows);
    var i :| 0 <= i < |rows| && rows[i] == r;
    assert i == |rows| - 1;
  }

  // ---------------------------------------------------------------- the database

  /** What the tool sees of a database: its `version` table, if there is
      one, and the scripts executed on it, in order. */
  datatype Store = Store(versions: Option<seq<VersionRow>>, executed: seq<string>)

  function Rows(versions: Option<seq<VersionRow>>): seq<VersionRow>
  {
    if versions.None? then [] else versions.value
  }

  /** `executescript(text)` and `commit()`, given whether the script runs
      and whether it creates the `version` table; a failing script is rolled
      back. */
  function Executed(st: Store, text: string, accepts: string -> bool, creates: string -> bool): (Store, bool)
  {
    if !accepts(text) then (st, false)
    else (Store(if st.versions.None? && creates(text) then Some([]) else st.versions, st.executed + [text]), true)
  }

  /** `insert_database_version(version, comment, database)`: it raises
      without a `version` table. */
  function Recorded(st: Store, number: int, comment: string): (r: (Store, bool))
    ensures r.1 ==> r.0.versions.Some? && NewestLast(r.0.versions.value)
  {
    if st.versions.None? then (st, false)
    else
      var rows := st.versions.value;
      (Store(Some(rows + [VersionRow(NextVersionId(rows), number, comment)]), st.executed), true)
  }

  /** A database connection: its state, and what its engine does with each
      script text. */
  class Connection {
    var store: Store
    const accepts: string -> bool
    const createsVersionTable: string -> bool

    constructor(store: Store, accepts: string -> bool, createsVersionTable: string -> bool)
      ensures this.store == store && this.accepts == accepts && this.createsVersionTable == createsVersionTable
    {
      this.store := store;
      this.accepts := accepts;
      this.createsVersionTable := createsVersionTable;
    }

    method ExecuteScript(text: string) returns (ok: bool)
      modifies this
      ensures (store, ok) == Executed(old(store), text, accepts, createsVersionTable)
    {
      if !accepts(text) {
        return false;
      }
      var versions := store.versions;
      if versions.None? && createsVersionTable(text) {
        versions := Some([]);
      }
      store := Store(versions, store.executed + [text]);
      ok := true;
    }

    method InsertDatabaseVersion(number: int, comment: string) returns (ok: bool)
      modifies this
      ensures (store, ok) == Recorded(old(store), number, comment)
    {
      if store.versions.None? {
        return false;
      }
      var rows := store.versions.value;
      store := Store(Some(rows + [VersionRow(NextVersionId(rows), number, comment)]), store.executed);
      ok := true;
    }
  }

  // ---------------------------------------------------------------- do_to_migration

  /** The description of a version row the apply loop records. */
  const MigratedComment := "automatically migrated successfully."

  /** What one run of the apply loop is given: the current version, the
      requested one, what reading each migration's text gives (None where
      it raises), print-only mode, and the engine's behaviour. */
  datatype Env = Env(version: int, requested: int, textOf: Migration -> Option<string>, printOnly: bool,
                     accepts: string -> bool, creates: string -> bool)

  /** `number > version and number <= requested`. */
  function InRange(version: int, requested: int): Migration -> bool
  {
    (m: Migration) => version < m.number <= requested
  }

  /** The migrations the loop applies, in the order it meets them. */
  function Plan(ms: seq<Migration>, env: Env): seq<Migration>
  {
    Filter(ms, InRange(env.version, env.requested))
  }

  /** The apply loop from migration ms[0] on: the new state and the message
      of the exception that ends it, if any. */
  function ApplyFrom(st: Store, ms: seq<Migration>, env: Env): (Store, Option<string>)
    decreases |ms|
  {
    if ms == [] then (st, None)
    else
      var m := ms[0];
      if !InRange(env.version, env.requested)(m) then ApplyFrom(st, ms[1..], env)
      else
        var text := env.textOf(m);
        if text.None? then (st, Some("Unexpected error reading text of migration " + FormatInt(m.number, 0)))
        else if env.printOnly then ApplyFrom(st, ms[1..], env)
        else
          var (st1, ran) := Executed(st, text.value, env.accepts, env.creates);
          if !ran then (st1, Some("Unexpected exception applying migration " + FormatInt(m.number, 0)))
          else
            var (st2, recorded) := Recorded(st1, m.number, MigratedComment);
            if !recorded then (st2, Some("Unexpected exception writing version to the database"))
            else ApplyFrom(st2, ms[1..], env)
  }

  /** The texts of the planned migrations, in order. */
  function PlanTexts(plan: seq<Migration>, textOf: Migration -> Option<string>): seq<string>
    decreases |plan|
  {
    if plan == [] then []
    else (if textOf(plan[0]).Some? then [textOf(plan[0]).value] else []) + PlanTexts(plan[1..], textOf)
  }

  function Numbers(plan: seq<Migration>): (r: seq<int>)
    ensures |r| == |plan|
    decreases |plan|
  {
    if plan == [] then [] else [plan[0].number as int] + Numbers(plan[1..])
  }

  function VersionsOf(rows: seq<VersionRow>): (r: seq<int>)
    ensures |r| == |rows|
    decreases |rows|
  {
    if rows == [] then [] else VersionsOf(rows[..|rows| - 1]) + [rows[|rows| - 1].version]
  }

  /** With `print_only` nothing is executed and nothing recorded. */
  lemma {:induction false} PrintOnlyTouchesNothing(st: Store, ms: seq<Migration>, env: Env)
    requires env.printOnly
    ensures ApplyFrom(st, ms, env).0 == st
    decreases |ms|
  {
    if ms != [] {
      PrintOnlyTouchesNothing(st, ms[1..], env);
    }
  }

  /** Scripts are only ever added to what was executed, failure or not. */
  lemma {:induction false} ApplyKeepsHistory(st: Store, ms: seq<Migration>, env: Env)
    ensures st.executed <= ApplyFrom(st, ms, env).0.executed
    decreases |ms|
  {
    if ms != [] {
      var m := ms[0];
      var text := env.textOf(m);
      if InRange(env.version, env.requested)(m) && text.Some? && !env.printOnly {
        var (st1, ran) := Executed(st, text.value, env.accepts, env.creates);
        var (st2, recorded) := Recorded(st1, m.number, MigratedComment);
        if ran && recorded {
          ApplyKeepsHistory(st2, ms[1..], env);
        }
      } else {
        ApplyKeepsHistory(st, ms[1..], env);
      }
    }
  }

  /** What a run from st to after did when it followed a plan: executed
      exactly the planned migrations' texts, in order, and recorded exactly
      their numbers, in order, after the versions there were. */
  predicate Followed(st: Store, after: Store, plan: seq<Migration>, textOf: Migration -> Option<string>)
  {
    after.executed == st.executed + PlanTexts(plan, textOf)
    && VersionsOf(Rows(after.versions)) == VersionsOf(Rows(st.versions)) + Numbers(plan)
    && (plan != [] ==> after.versions.Some? && NewestLast(after.versions.value))
    && (plan == [] ==> after == st)
  }

  /** A run that applies without an exception did what was planned. */
  lemma {:induction false} AppliedExactlyPlan(st: Store, ms: seq<Migration>, env: Env)
    requires !env.printOnly && ApplyFrom(st, ms, env).1.None?
    ensures Followed(st, ApplyFrom(st, ms, env).0, Plan(ms, env), env.textOf)
    decreases |ms|
  {
    if ms == [] {
      assert Plan(ms, env) == [];
    } else {
      var m := ms[0];
      FilterHead(ms, InRange(env.version, env.requested));
      if !InRange(env.version, env.requested)(m) {
        assert Plan(ms, env) == Plan(ms[1..], env);
        assert ApplyFrom(st, ms, env) == ApplyFrom(st, ms[1..], env);
        AppliedExactlyPlan(st, ms[1..], env);
      } else {
        var text := env.textOf(m).value;
        var st1 := Executed(st, text, env.accepts, env.creates);
        var st2 := Recorded(st1.0, m.number, MigratedComment);
        assert st1.1 && st2.1;
        assert ApplyFrom(st, ms, env) == ApplyFrom(st2.0, ms[1..], env);
        assert Plan(ms, env) == [m] + Plan(ms[1..], env);
        AppliedExactlyPlan(st2.0, ms[1..], env);
        StepRecords(st, text, m.number, env);
        AppliedStep(st, st2.0, ApplyFrom(st2.0, ms[1..], env).0, m, Plan(ms[1..], env), env.textOf);
      }
    }
  }

  /** A migration executed and recorded, then the rest of the plan. */
  lemma AppliedStep(st: Store, st2: Store, after: Store, m: Migration, rest: seq<Migration>,
                    textOf: Migration -> Option<string>)
    requires textOf(m).Some?
    requires st2.executed == st.executed + [textOf(m).value]
    requires VersionsOf(Rows(st2.versions)) == VersionsOf(Rows(st.versions)) + [m.number as int]
    requires st2.versions.Some? && NewestLast(st2.versions.value)
    requires Followed(st2, after, rest, textOf)
    ensures Followed(st, after, [m] + rest, textOf)
  {
    var text := textOf(m).value;
    PlanCons(m, rest, textOf);
    assert after.executed == (st.executed + [text]) + PlanTexts(rest, textOf);
    assert after.executed == st.executed + ([text] + PlanTexts(rest, textOf));
    assert VersionsOf(Rows(after.versions)) == (VersionsOf(Rows(st.versions)) + [m.number as int]) + Numbers(rest);
    assert VersionsOf(Rows(after.versions)) == VersionsOf(Rows(st.versions)) + ([m.number as int] + Numbers(rest));
  }

  /** Running one script and recording its number. */
  lemma StepRecords(st: Store, text: string, number: int, env: Env)
    requires Executed(st, text, env.accepts, env.creates).1
    requires Recorded(Executed(st, text, env.accepts, env.creates).0, number, MigratedComment).1
    ensures var st2 := Recorded(Executed(st, text, env.accepts, env.creates).0, number, MigratedComment).0;
      st2.executed == st.executed + [text]
      && VersionsOf(Rows(st2.versions)) == VersionsOf(Rows(st.versions)) + [number]
      && st2.versions.Some? && NewestLast(st2.versions.value)
  {
    var st1 := Executed(st, text, env.accepts, env.creates).0;
    var rows := Rows(st1.versions);
    assert Rows(st1.versions) == Rows(st.versions);
    var row := VersionRow(NextVersionId(rows), number, MigratedComment);
    assert (rows + [row])[..|rows|] == rows;
  }

  /** The texts and numbers of a plan with a head. */
  lemma PlanCons(m: Migration, rest: seq<Migration>, textOf: Migration -> Option<string>)
    requires textOf(m).Some?
    ensures PlanTexts([m] + rest, textOf) == [textOf(m).value] + PlanTexts(rest, textOf)
    ensures Numbers([m] + rest) == [m.number as int] + Numbers(rest)
  {
    assert ([m] + rest)[1..] == rest;
  }

  /** The filtered plan of sorted migrations is ascending too. */
  lemma {:induction false} PlanSorted(ms: seq<Migration>, p: Migration -> bool)
    requires SortedByNumber(ms)
    ensures SortedByNumber(Filter(ms, p))
    decreases |ms|
  {
    if ms != [] {
      var init, x := ms[..|ms| - 1], ms[|ms| - 1];
      PlanSorted(init, p);
      var f := Filter(init, p);
      forall k | 0 <= k < |f|
        ensures f[k].number <= x.number
      {
        var i :| 0 <= i < |init| && init[i] == f[k];
        assert ms[i] == f[k];
      }
    }
  }

  /** The last recorded number is where the version ends. */
  lemma LastRecordedIsVersion(before: seq<int>, plan: seq<Migration>, rows: seq<VersionRow>)
    requires NewestLast(rows) && plan != []
    requires VersionsOf(rows) == before + Numbers(plan)
    ensures DatabaseVersion(Some(rows)) == plan[|plan| - 1].number
  {
    NewestIsLatest(rows);
    LastNumber(plan);
    assert VersionsOf(rows)[|rows| - 1] == rows[|rows| - 1].version;
  }

  lemma {:induction false} LastNumber(plan: seq<Migration>)
    requires plan != []
    ensures Numbers(plan)[|plan| - 1] == plan[|plan| - 1].number
    decreases |plan|
  {
    if |plan| > 1 {
      LastNumber(plan[1..]);
    }
  }

  /** How `do_to_migration` ends when it does not raise. */
  datatype Migrated = AlreadyAtVersion | BelowVersion | MigratedTo(requested: int)

  /** `do_to_migration(migration_number, schema_directory, database,
      print_only)` on the database state and the directory listing. */
  function ToMigrationRun(st: Store, migrationNumber: string, dir: string, files: seq<string>,
                          textOf: Migration -> Option<string>, printOnly: bool,
                          accepts: string -> bool, creates: string -> bool): (Store, Result<Migrated>)
  {
    var version := DatabaseVersion(st.versions);
    var found := Qualifying(dir, files);
    if found == [] then (st, Err("No migrations exist in schema directory '" + dir + "'."))
    else
      var migrations := SortByNumber(found);
      var requested := if migrationNumber == "HEAD" then Some(migrations[|migrations| - 1].number as int)
                       else ParseInt(migrationNumber);
      if requested.None? then (st, Err("Provided migration number (" + migrationNumber + ") is invalid."))
      else if requested.value == version then (st, Ok(AlreadyAtVersion))
      else if requested.value < version then (st, Ok(BelowVersion))
      else
        var (after, error) := ApplyFrom(st, migrations, Env(version, requested.value, textOf, printOnly, accepts, creates));
        if error.Some? then (after, Err(error.value)) else (after, Ok(MigratedTo(requested.value)))
  }

  /** The version HEAD or the number given resolves to. */
  function Requested(migrationNumber: string, migrations: seq<Migration>): Option<int>
    requires |migrations| > 0
  {
    if migrationNumber == "HEAD" then Some(migrations[|migrations| - 1].number as int) else ParseInt(migrationNumber)
  }

  /** The run is the apply loop when the request is above the current
      version, and touches nothing otherwise. */
  lemma ToMigrationCases(st: Store, migrationNumber: string, dir: string, files: seq<string>,
                         textOf: Migration -> Option<string>, printOnly: bool,
                         accepts: string -> bool, creates: string -> bool)
    ensures var (after, r) := ToMigrationRun(st, migrationNumber, dir, files, textOf, printOnly, accepts, creates);
      var found := Qualifying(dir, files);
      var version := DatabaseVersion(st.versions);
      if found != [] && Requested(migrationNumber, SortByNumber(found)).Some?
         && Requested(migrationNumber, SortByNumber(found)).value > version then
        var requested := Requested(migrationNumber, SortByNumber(found)).value;
        var applied := ApplyFrom(st, SortByNumber(found), Env(version, requested, textOf, printOnly, accepts, creates));
        after == applied.0 && r == (if applied.1.Some? then Err(applied.1.value) else Ok(MigratedTo(requested)))
      else after == st && (r.Ok? ==> !r.value.MigratedTo?)
  {
  }

  /** With `print_only` the database is left as it was, whatever happens. */
  lemma ToMigrationPrintOnly(st: Store, migrationNumber: string, dir: string, files: seq<string>,
                             textOf: Migration -> Option<string>, accepts: string -> bool, creates: string -> bool)
    ensures ToMigrationRun(st, migrationNumber, dir, files, textOf, true, accepts, creates).0 == st
  {
    ToMigrationCases(st, migrationNumber, dir, files, textOf, true, accepts, creates);
    var found := Qualifying(dir, files);
    if found != [] {
      var requested := Requested(migrationNumber, SortByNumber(found));
      if requested.Some? {
        PrintOnlyTouchesNothing(st, SortByNumber(found),
                                Env(DatabaseVersion(st.versions), requested.value, textOf, true, accepts, creates));
      }
    }
  }

  /** A successful migration executes the planned scripts in ascending
      order, records their numbers in that order, and leaves the database
      at the highest of them, which for HEAD is the highest there is. */
  lemma ToMigrationApplied(st: Store, migrationNumber: string, dir: string, files: seq<string>,
                           textOf: Migration -> Option<string>, accepts: string -> bool, creates: string -> bool)
    requires var r := ToMigrationRun(st, migrationNumber, dir, files, textOf, false, accepts, creates).1;
      r.Ok? && r.value.MigratedTo?
    ensures var (after, r) := ToMigrationRun(st, migrationNumber, dir, files, textOf, false, accepts, creates);
      var version := DatabaseVersion(st.versions);
      var plan := Plan(SortByNumber(Qualifying(dir, files)), Env(version, r.value.requested, textOf, false, accepts, creates));
      version < r.value.requested && SortedByNumber(plan)
      && after.executed == st.executed + PlanTexts(plan, textOf)
      && VersionsOf(Rows(after.versions)) == VersionsOf(Rows(st.versions)) + Numbers(plan)
      && (plan != [] ==> DatabaseVersion(after.versions) == plan[|plan| - 1].number)
      && (migrationNumber == "HEAD" ==>
            (plan != [] && forall m :: m in Qualifying(dir, files) ==> m.number <= DatabaseVersion(after.versions)))
  {
    ToMigrationCases(st, migrationNumber, dir, files, textOf, false, accepts, creates);
    var (after, r) := ToMigrationRun(st, migrationNumber, dir, files, textOf, false, accepts, creates);
    var found := Qualifying(dir, files);
    var migrations := SortByNumber(found);
    var version := DatabaseVersion(st.versions);
    var env := Env(version, r.value.requested, textOf, false, accepts, creates);
    AppliedExactlyPlan(st, migrations, env);
    var plan := Plan(migrations, env);
    PlanSorted(migrations, InRange(version, r.value.requested));
    if migrationNumber == "HEAD" {
      HeadIsLastPlanned(migrations, env);
      HeadIsHighest(dir, files);
    }
    if plan != [] {
      LastRecordedIsVersion(VersionsOf(Rows(st.versions)), plan, after.versions.value);
    }
  }

  /** Requesting the last migration puts it last in the plan, whenever it is
      above the current version. */
  lemma HeadIsLastPlanned(ms: seq<Migration>, env: Env)
    requires |ms| > 0 && env.requested == ms[|ms| - 1].number && env.version < env.requested
    ensures Plan(ms, env) != [] && Plan(ms, env)[|Plan(ms, env)| - 1] == ms[|ms| - 1]
  {
    var p := InRange(env.version, env.requested);
    assert ms == ms[..|ms| - 1] + [ms[|ms| - 1]];
    FilterAppend(ms[..|ms| - 1], ms[|ms| - 1], p);
  }

  /** `do_to_migration`: reads the version, lists the migrations, resolves
      HEAD or the number given, and runs the apply loop. */
  method DoToMigration(conn: Connection, migrationNumber: string, dir: string, files: seq<string>,
                       textOf: Migration -> Option<string>, printOnly: bool) returns (r: Result<Migrated>)
    modifies conn
    ensures (conn.store, r) == ToMigrationRun(old(conn.store), migrationNumber, dir, files, textOf, printOnly,
                                              conn.accepts, conn.createsVersionTable)
  {
    var version := DatabaseVersion(conn.store.versions);
    var migrations := GetMigrations(dir, files);
    if migrations.Err? {
      return Err(migrations.error);
    }
    var ms := migrations.value;
    var requested: Option<int>;
    if migrationNumber == "HEAD" {
      requested := Some(ms[|ms| - 1].number);
    } else {
      requested := ParseInt(migrationNumber);
    }
    if requested.None? {
      return Err("Provided migration number (" + migrationNumber + ") is invalid.");
    }
    if requested.value == version {
      return Ok(AlreadyAtVersion);
    }
    if requested.value < version {
      return Ok(BelowVersion);
    }
    var error := ApplyMigrations(conn, ms, Env(version, requested.value, textOf, printOnly, conn.accepts, conn.createsVersionTable));
    if error.Some? {
      return Err(error.value);
    }
    r := Ok(MigratedTo(requested.value));
  }

  /** The `for (path, file, number) in migrations` loop. */
  method ApplyMigrations(conn: Connection, ms: seq<Migration>, env: Env) returns (error: Option<string>)
    requires env.accepts == conn.accepts && env.creates == conn.createsVersionTable
    modifies conn
    ensures (conn.store, error) == ApplyFrom(old(conn.store), ms, env)
  {
    var i := 0;
    while i < |ms|
      invariant 0 <= i <= |ms|
      invariant ApplyFrom(old(conn.store), ms, env) == ApplyFrom(conn.store, ms[i..], env)
    {
      error := ApplyMigration(conn, ms, i, env);
      if error.Some? {
        return;
      }
      i := i + 1;
    }
    error := None;
  }

  /** One pass of the loop: skip, print, or apply and record. */
  method ApplyMigration(conn: Connection, ms: seq<Migration>, i: int, env: Env) returns (error: Option<string>)
    requires 0 <= i < |ms|
    requires env.accepts == conn.accepts && env.creates == conn.createsVersionTable
    modifies conn
    ensures error.Some? ==> ApplyFrom(old(conn.store), ms[i..], env) == (conn.store, error)
    ensures error.None? ==> ApplyFrom(old(conn.store), ms[i..], env) == ApplyFrom(conn.store, ms[i + 1..], env)
  {
    assert ms[i..][1..] == ms[i + 1..];
    var m := ms[i];
    if !(env.version < m.number <= env.requested) {
      return None;
    }
    var text := env.textOf(m);
    if text.None? {
      return Some("Unexpected error reading text of migration " + FormatInt(m.number, 0));
    }
    if env.printOnly {
      return None;
    }
    var ran := conn.ExecuteScript(text.value);
    if !ran {
      return Some("Unexpected exception applying migration " + FormatInt(m.number, 0));
    }
    var recorded := conn.InsertDatabaseVersion(m.number, MigratedComment);
    if !recorded {
      return Some("Unexpected exception writing version to the database");
    }
    error := None;
  }
}
