/** What backend/open_webui/runtime_migrations.py reads off a database: `_detect_database`,
  * `_verify_family` and `_migratehistory_complete`, with the tables they look at.
  */
module MigrationDetect {
  import opened Collections
  import opened Wrappers

  const HALO_TARGET_HEAD := "4c8d9e0f1a2b"
  const HALO_STATE_TABLE := "halowebui_migration_state"
  const HALO_DATA_MIGRATION_TABLE := "halowebui_data_migrations"

  const HALO_PEEWEE_MIGRATIONS: seq<string> := [
    "001_initial_schema",
    "002_add_local_sharing",
    "003_add_auth_api_key",
    "004_add_archived",
    "005_add_updated_at",
    "006_migrate_timestamps_and_charfields",
    "007_add_user_last_active_at",
    "008_add_memory",
    "009_add_models",
    "010_migrate_modelfiles_to_models",
    "011_add_user_settings",
    "012_add_tools",
    "013_add_user_info",
    "014_add_files",
    "015_add_functions",
    "016_add_valves_and_is_active",
    "017_add_user_oauth_sub",
    "018_add_function_is_global",
    "019_add_notes",
    "020_upgrade_prompt_v2"
  ]

  datatype Family = Owui070 | Owui080 | Owui081

  datatype Detection = Fresh | AlreadyHalo | Source(family: Family) | Unknown

  datatype Status = Started | Completed | Failed

  datatype StateRow = StateRow(status: Status, family: Family, backup: nat, startedAt: int)

  datatype HistoryRow = HistoryRow(id: int, name: string)

  /** The application's tables, whether `user` has a `scim` column, and all the data. */
  datatype Schema = Schema(tables: set<string>, scim: bool, data: string)

  /** A database.  Each of the four bookkeeping tables may be missing; `alembic` lists the version
    * rows in the order in which the database returns them.
    */
  datatype Db = Db(
    schema: Schema,
    alembic: Option<seq<string>>,
    history: Option<seq<HistoryRow>>,
    states: Option<seq<StateRow>>,
    dataMigrations: Option<set<string>>
  )

  function TableNames(db: Db): set<string> {
    db.schema.tables
    + (if db.alembic.Some? then {"alembic_version"} else {})
    + (if db.history.Some? then {"migratehistory"} else {})
    + (if db.states.Some? then {HALO_STATE_TABLE} else {})
    + (if db.dataMigrations.Some? then {HALO_DATA_MIGRATION_TABLE} else {})
  }

  /** `_get_alembic_revision` */
  function Revision(db: Db): Option<string> {
    if db.alembic.Some? && db.alembic.value != [] && db.alembic.value[0] != ""
    then Some(db.alembic.value[0]) else None
  }

  /** `_migratehistory_complete` */
  predicate HistoryComplete(db: Db) {
    db.history.Some? && |db.history.value| >= |HALO_PEEWEE_MIGRATIONS|
  }

  const BASE: set<string> := {"auth", "user", "group", "group_member", "prompt", "chat"}
  const SINCE_080: set<string> := {"access_grant", "skill", "chat_message", "prompt_history"}

  /** `_verify_family` */
  predicate VerifyFamily(family: Family, tables: set<string>, scim: bool) {
    match family
    case Owui070 => BASE + {"api_key", "knowledge_file"} <= tables && tables !! SINCE_080
    case Owui080 => BASE + SINCE_080 <= tables && !scim
    case Owui081 => BASE + SINCE_080 <= tables && scim
  }

  /** `HALO_SOURCE_FAMILIES` */
  function FamilyOfRevision(revision: Option<string>): Option<Family> {
    if revision == Some("c440947495f3") then Some(Owui070)
    else if revision == Some("a1b2c3d4e5f6") then Some(Owui080)
    else if revision == Some("b2c3d4e5f6a7") then Some(Owui081)
    else None
  }

  /** The families whose fingerprint fits, in the order in which they are tried. */
  function FingerprintMatches(tables: set<string>, scim: bool): seq<Family> {
    (if VerifyFamily(Owui070, tables, scim) then [Owui070] else [])
    + (if VerifyFamily(Owui080, tables, scim) then [Owui080] else [])
    + (if VerifyFamily(Owui081, tables, scim) then [Owui081] else [])
  }

  /** `_detect_database` */
  function Detect(db: Db): Detection {
    var tables := TableNames(db);
    if tables == {} then Fresh
    else if Revision(db) == Some(HALO_TARGET_HEAD) then AlreadyHalo
    else if HistoryComplete(db) then AlreadyHalo
    else
      var family := FamilyOfRevision(Revision(db));
      if family.Some? && VerifyFamily(family.value, tables, db.schema.scim) then Source(family.value)
      else
        var matches := FingerprintMatches(tables, db.schema.scim);
        if |matches| == 1 then Source(matches[0]) else Unknown
  }

  /** No database fits two families. */
  lemma FamiliesExclude(f: Family, g: Family, tables: set<string>, scim: bool)
    requires VerifyFamily(f, tables, scim) && VerifyFamily(g, tables, scim)
    ensures f == g
  {
    assert "skill" in BASE + SINCE_080;
  }

  /** The least tables each family is known by: none of them can be missing, and none of the later ones may be
    * there for the oldest family.
    */
  lemma EveryTableCounts(t: string, scim: bool)
    ensures
      var first := {"auth", "user", "group", "group_member", "prompt", "chat"};
      var oldest := first + {"api_key", "knowledge_file"};
      var later := {"access_grant", "skill", "chat_message", "prompt_history"};
      && VerifyFamily(Owui070, oldest, scim)
      && (t in oldest ==> !VerifyFamily(Owui070, oldest - {t}, scim))
      && (t in later ==> !VerifyFamily(Owui070, oldest + {t}, scim))
      && VerifyFamily(Owui080, first + later, false) && VerifyFamily(Owui081, first + later, true)
      && (t in first + later ==> forall f :: !VerifyFamily(f, first + later - {t}, scim))
  {
    var first := {"auth", "user", "group", "group_member", "prompt", "chat"};
    var later := {"access_grant", "skill", "chat_message", "prompt_history"};
    assert BASE == first && SINCE_080 == later;
    assert t in BASE + SINCE_080 ==> t !in first + later - {t};
    assert "api_key" !in first + later;
  }

  predicate AlreadyHaloBy(db: Db) {
    Revision(db) == Some(HALO_TARGET_HEAD) || HistoryComplete(db)
  }

  /** The revision has no say in which family a source database belongs to: the fingerprint alone
    * decides, and it decides completely.
    */
  lemma SourceIff(db: Db, family: Family)
    ensures Detect(db) == Source(family) <==>
              !AlreadyHaloBy(db) && VerifyFamily(family, TableNames(db), db.schema.scim)
  {
    var tables, scim := TableNames(db), db.schema.scim;
    forall f, g | VerifyFamily(f, tables, scim) && VerifyFamily(g, tables, scim)
      ensures f == g
    {
      FamiliesExclude(f, g, tables, scim);
    }
    assert forall f :: f in FingerprintMatches(tables, scim) <==> VerifyFamily(f, tables, scim);
    assert VerifyFamily(family, tables, scim) ==> "auth" in tables;
  }

  /** The other three answers. */
  lemma OtherwiseIff(db: Db)
    ensures Detect(db) == Fresh <==> TableNames(db) == {}
    ensures Detect(db) == AlreadyHalo <==> AlreadyHaloBy(db)
    ensures Detect(db) == Unknown <==>
              TableNames(db) != {} && !AlreadyHaloBy(db)
              && forall f :: !VerifyFamily(f, TableNames(db), db.schema.scim)
  {
    forall f
      ensures Detect(db) == Source(f) <==> !AlreadyHaloBy(db) && VerifyFamily(f, TableNames(db), db.schema.scim)
    {
      SourceIff(db, f);
    }
    assert db.alembic.Some? ==> "alembic_version" in TableNames(db);
    assert db.history.Some? ==> "migratehistory" in TableNames(db);
  }

  /** The migrator's own two tables do not disguise a source database. */
  lemma BookkeepingIsInvisible(db: Db, states: Option<seq<StateRow>>, keys: Option<set<string>>, family: Family)
    ensures Detect(db.(states := states, dataMigrations := keys)) == Source(family) <==> Detect(db) == Source(family)
  {
    hide Detect;
    var other := db.(states := states, dataMigrations := keys);
    SourceIff(db, family);
    SourceIff(other, family);
    forall t | t in BASE + {"api_key", "knowledge_file"} + SINCE_080
      ensures t in TableNames(other) <==> t in TableNames(db)
    {
      assert t != HALO_STATE_TABLE && t != HALO_DATA_MIGRATION_TABLE;
    }
    SameFingerprint(family, TableNames(db), TableNames(other), db.schema.scim);
  }

  lemma SameFingerprint(family: Family, a: set<string>, b: set<string>, scim: bool)
    requires forall t :: t in BASE + {"api_key", "knowledge_file"} + SINCE_080 ==> (t in a <==> t in b)
    ensures VerifyFamily(family, a, scim) <==> VerifyFamily(family, b, scim)
  {
  }

  /** They do disguise an empty one: after a first look at it, it is unknown. */
  lemma EmptyIsThenUnknown(db: Db, keys: set<string>)
    requires Detect(db) == Fresh
    ensures Detect(db.(dataMigrations := Some(keys))) == Unknown
  {
    var after := db.(dataMigrations := Some(keys));
    OtherwiseIff(db);
    OtherwiseIff(after);
    assert db.alembic.Some? ==> "alembic_version" in TableNames(db);
    assert db.history.Some? ==> "migratehistory" in TableNames(db);
    assert HALO_DATA_MIGRATION_TABLE in TableNames(after);
    assert TableNames(after) <= TableNames(db) + {HALO_DATA_MIGRATION_TABLE};
    forall f
      ensures !VerifyFamily(f, TableNames(after), db.schema.scim)
    {
      assert "auth" !in TableNames(after);
      assert "auth" in BASE;
    }
  }

  // ---------- _seed_migratehistory ----------

  function Names(rows: seq<HistoryRow>): set<string> {
    set row | row in rows :: row.name
  }

  predicate UsesId(rows: seq<HistoryRow>, id: int) {
    exists row :: row in rows && row.id == id
  }

  /** The rows to add for the first `n` migrations.  Ids count from one. */
  function MissingRows(names: seq<string>, existing: set<string>, n: nat): seq<HistoryRow>
    requires n <= |names|
  {
    if n == 0 then []
    else
      var name := names[n - 1];
      MissingRows(names, existing, n - 1) + if name in existing then [] else [HistoryRow(n, name)]
  }

  /** An id that a missing migration needs is taken by another row. */
  predicate Collides(names: seq<string>, rows: seq<HistoryRow>) {
    exists n :: 0 < n <= |names| && Blocked(names, rows, n)
  }

  predicate Blocked(names: seq<string>, rows: seq<HistoryRow>, n: int)
    requires 0 < n <= |names|
  {
    names[n - 1] !in Names(rows) && UsesId(rows, n)
  }

  function RowsOf(history: Option<seq<HistoryRow>>): seq<HistoryRow> {
    match history case None => [] case Some(rows) => rows
  }

  /** The seeded table, or `None` where an insertion breaks the primary key. */
  function Seed(history: Option<seq<HistoryRow>>): Option<seq<HistoryRow>> {
    var names, rows := HALO_PEEWEE_MIGRATIONS, RowsOf(history);
    if Collides(names, rows) then None else Some(rows + MissingRows(names, Names(rows), |names|))
  }

  lemma {:induction false} MissingIds(names: seq<string>, existing: set<string>, n: nat, id: int)
    requires n <= |names| && UsesId(MissingRows(names, existing, n), id)
    ensures 0 < id <= n
  {
    if n > 0 && UsesId(MissingRows(names, existing, n - 1), id) {
      MissingIds(names, existing, n - 1, id);
    }
  }

  lemma {:induction false} MissingNames(names: seq<string>, existing: set<string>, n: nat, k: nat)
    requires k < n <= |names|
    ensures names[k] in existing + Names(MissingRows(names, existing, n))
  {
    var name := names[n - 1];
    var init := MissingRows(names, existing, n - 1);
    assert MissingRows(names, existing, n) == init + if name in existing then [] else [HistoryRow(n, name)];
    assert Names(init) <= Names(MissingRows(names, existing, n));
    if k < n - 1 {
      MissingNames(names, existing, n - 1, k);
    } else if name !in existing {
      assert HistoryRow(n, name) in MissingRows(names, existing, n);
    }
  }

  /** `_seed_migratehistory` */
  method SeedMigratehistory(history: Option<seq<HistoryRow>>) returns (seeded: Option<seq<HistoryRow>>)
    ensures seeded == Seed(history)
  {
    var rows := match history case None => [] case Some(r) => r;
    seeded := InsertMissing(HALO_PEEWEE_MIGRATIONS, rows);
  }

  /** One insertion after the other, until one breaks the primary key. */
  method InsertMissing(names: seq<string>, rows: seq<HistoryRow>) returns (seeded: Option<seq<HistoryRow>>)
    ensures seeded == if Collides(names, rows) then None else Some(rows + MissingRows(names, Names(rows), |names|))
  {
    var existing := set row | row in rows :: row.name;
    var more := rows;
    for n := 0 to |names|
      invariant more == rows + MissingRows(names, existing, n)
      invariant forall m :: 0 < m <= n ==> !Blocked(names, rows, m)
    {
      var name := names[n];
      if name !in existing {
        if exists row :: row in more && row.id == n + 1 {
          InsertionFails(names, rows, existing, n);
          return None;
        }
        InsertionWorks(names, rows, existing, n);
        assert more + [HistoryRow(n + 1, name)] == rows + (MissingRows(names, existing, n) + [HistoryRow(n + 1, name)]);
        more := more + [HistoryRow(n + 1, name)];
      } else {
        assert MissingRows(names, existing, n) + [] == MissingRows(names, existing, n);
      }
    }
    return Some(more);
  }

  lemma InsertionFails(names: seq<string>, rows: seq<HistoryRow>, existing: set<string>, n: nat)
    requires n < |names| && existing == Names(rows)
    requires names[n] !in existing && UsesId(rows + MissingRows(names, existing, n), n + 1)
    ensures Collides(names, rows)
  {
    if UsesId(MissingRows(names, existing, n), n + 1) {
      MissingIds(names, existing, n, n + 1);
    }
    assert Blocked(names, rows, n + 1);
  }

  lemma InsertionWorks(names: seq<string>, rows: seq<HistoryRow>, existing: set<string>, n: nat)
    requires n < |names| && existing == Names(rows)
    requires !UsesId(rows + MissingRows(names, existing, n), n + 1)
    ensures !Blocked(names, rows, n + 1)
  {
    assert forall row :: row in rows ==> row in rows + MissingRows(names, existing, n);
  }

  // ---------- what seeding does ----------

  /** A name that no row of the history has. */
  predicate Missing(rows: seq<HistoryRow>, name: string) {
    forall row :: row in rows ==> row.name != name
  }

  predicate IsNumbered(row: HistoryRow) {
    0 < row.id <= |HALO_PEEWEE_MIGRATIONS| && HALO_PEEWEE_MIGRATIONS[row.id - 1] == row.name
  }

  /** The old rows, and behind them in ascending order the missing names, each under its own number. */
  ghost predicate HistorySeeded(before: seq<HistoryRow>, after: seq<HistoryRow>) {
    && before <= after
    && (forall row :: row in after[|before|..] <==> IsNumbered(row) && Missing(before, row.name))
    && (forall i, j :: |before| <= i < j < |after| ==> after[i].id < after[j].id)
  }

  lemma {:induction false} MissingRowsMembers(names: seq<string>, existing: set<string>, n: nat)
    requires n <= |names|
    ensures forall row :: row in MissingRows(names, existing, n) <==>
              0 < row.id <= n && names[row.id - 1] == row.name && row.name !in existing
    ensures forall i, j :: 0 <= i < j < |MissingRows(names, existing, n)| ==>
              MissingRows(names, existing, n)[i].id < MissingRows(names, existing, n)[j].id
  {
    if n > 0 {
      MissingRowsMembers(names, existing, n - 1);
      var init, all := MissingRows(names, existing, n - 1), MissingRows(names, existing, n);
      assert forall i :: 0 <= i < |init| ==> init[i] in init;
    }
  }

  lemma MissingIff(rows: seq<HistoryRow>, name: string)
    ensures Missing(rows, name) <==> name !in Names(rows)
  {
    if !Missing(rows, name) {
      var row :| row in rows && row.name == name;
      assert row.name in Names(rows);
    }
  }

  /** A row has the number of a name that is missing. */
  predicate NumberTaken(rows: seq<HistoryRow>) {
    exists row :: row in rows && 0 < row.id <= |HALO_PEEWEE_MIGRATIONS|
                  && Missing(rows, HALO_PEEWEE_MIGRATIONS[row.id - 1])
  }

  /** Seeding fails exactly when the number of a missing name is taken, and otherwise adds what is missing. */
  lemma SeedIff(history: Option<seq<HistoryRow>>)
    ensures Seed(history).None? <==> NumberTaken(RowsOf(history))
    ensures Seed(history).Some? ==> HistorySeeded(RowsOf(history), Seed(history).value)
  {
    CollidesIff(RowsOf(history));
    hide Collides, NumberTaken, MissingRows;
    SeededRows(RowsOf(history));
  }

  lemma CollidesIff(rows: seq<HistoryRow>)
    ensures Collides(HALO_PEEWEE_MIGRATIONS, rows) <==> NumberTaken(rows)
  {
    hide Missing, Names;
    var names := HALO_PEEWEE_MIGRATIONS;
    if n :| 0 < n <= |names| && Blocked(names, rows, n) {
      var row :| row in rows && row.id == n;
      MissingIff(rows, names[n - 1]);
    }
    if row :| row in rows && 0 < row.id <= |names| && Missing(rows, names[row.id - 1]) {
      MissingIff(rows, names[row.id - 1]);
      assert Blocked(names, rows, row.id);
    }
  }

  lemma SeededRows(rows: seq<HistoryRow>)
    ensures HistorySeeded(rows, rows + MissingRows(HALO_PEEWEE_MIGRATIONS, Names(rows), |HALO_PEEWEE_MIGRATIONS|))
  {
    hide Missing, Names, MissingRows;
    var missing := MissingRows(HALO_PEEWEE_MIGRATIONS, Names(rows), |HALO_PEEWEE_MIGRATIONS|);
    MissingRowsMembers(HALO_PEEWEE_MIGRATIONS, Names(rows), |HALO_PEEWEE_MIGRATIONS|);
    assert (rows + missing)[|rows|..] == missing;
    forall row
      ensures row in missing <==> IsNumbered(row) && Missing(rows, row.name)
    {
      MissingIff(rows, row.name);
    }
  }

  /** Numbers stay apart. */
  lemma SeedKeepsNumbersApart(history: Option<seq<HistoryRow>>)
    requires Seed(history).Some?
    requires var rows := RowsOf(history); forall i, j :: 0 <= i < j < |rows| ==> rows[i].id != rows[j].id
    ensures var rows := Seed(history).value; forall i, j :: 0 <= i < j < |rows| ==> rows[i].id != rows[j].id
  {
    hide Seed;
    SeedIff(history);
    var before, after := RowsOf(history), Seed(history).value;
    forall i, j | 0 <= i < |before| <= j < |after|
      ensures after[i].id != after[j].id
    {
      assert after[j] in after[|before|..] && before[i] in before;
    }
  }

  // ---------- a seeded history is complete ----------

  lemma MigrationNamesDiffer(i: nat, j: nat)
    requires i < j < |HALO_PEEWEE_MIGRATIONS|
    ensures HALO_PEEWEE_MIGRATIONS[i] != HALO_PEEWEE_MIGRATIONS[j]
  {
    Numbered(i);
    Numbered(j);
  }

  lemma Numbered(i: nat)
    requires i < |HALO_PEEWEE_MIGRATIONS|
    ensures var name := HALO_PEEWEE_MIGRATIONS[i];
      |name| >= 3 && (name[1] as int - 48) * 10 + (name[2] as int - 48) == i + 1
  {
  }

  lemma {:induction false} NamesAreFew(rows: seq<HistoryRow>)
    ensures |Names(rows)| <= |rows|
  {
    if rows == [] {
      assert Names(rows) == {};
    } else {
      var n := |rows| - 1;
      NamesAreFew(rows[..n]);
      assert rows == rows[..n] + [rows[n]];
      assert Names(rows) == Names(rows[..n]) + {rows[n].name};
    }
  }

  function FirstNames(names: seq<string>, n: nat): set<string>
    requires n <= |names|
  {
    if n == 0 then {} else FirstNames(names, n - 1) + {names[n - 1]}
  }

  lemma {:induction false} FirstNamesMembers(names: seq<string>, n: nat, x: string)
    requires n <= |names| && x in FirstNames(names, n)
    ensures exists k :: 0 <= k < n && names[k] == x
  {
    if x != names[n - 1] {
      FirstNamesMembers(names, n - 1, x);
    }
  }

  lemma {:induction false} FirstNamesCount(names: seq<string>, n: nat)
    requires n <= |names| && Distinct(names)
    ensures |FirstNames(names, n)| == n
  {
    if n > 0 {
      FirstNamesCount(names, n - 1);
      var name := names[n - 1];
      if name in FirstNames(names, n - 1) {
        FirstNamesMembers(names, n - 1, name);
      }
    }
  }

  lemma AllNamesCount(names: seq<string>, rows: seq<HistoryRow>)
    requires Distinct(names)
    ensures |rows + MissingRows(names, Names(rows), |names|)| >= |names|
  {
    var missing := MissingRows(names, Names(rows), |names|);
    NamesOfConcat(rows, missing);
    forall x | x in FirstNames(names, |names|)
      ensures x in Names(rows + missing)
    {
      FirstNamesMembers(names, |names|, x);
      var k :| 0 <= k < |names| && names[k] == x;
      MissingNames(names, Names(rows), |names|, k);
    }
    FirstNamesCount(names, |names|);
    SubsetIsSmaller(FirstNames(names, |names|), Names(rows + missing));
    NamesAreFew(rows + missing);
  }

  /** However few of the migrations it held, a seeded history is complete. */
  lemma SeedCompletes(db: Db)
    requires Seed(db.history).Some?
    ensures HistoryComplete(db.(history := Seed(db.history)))
    ensures forall row :: row in RowsOf(db.history) ==> row in Seed(db.history).value
  {
    forall i, j | 0 <= i < j < |HALO_PEEWEE_MIGRATIONS|
      ensures HALO_PEEWEE_MIGRATIONS[i] != HALO_PEEWEE_MIGRATIONS[j]
    {
      MigrationNamesDiffer(i, j);
    }
    AllNamesCount(HALO_PEEWEE_MIGRATIONS, RowsOf(db.history));
  }

  lemma NamesOfConcat(a: seq<HistoryRow>, b: seq<HistoryRow>)
    ensures Names(a + b) == Names(a) + Names(b)
  {
  }

  // ---------- _stamp_halo_head ----------

  /** The version rows afterwards.  Rewriting more than one row to the same version breaks the
    * primary key.
    */
  function StampHead(alembic: Option<seq<string>>): Option<seq<string>> {
    if alembic.None? || |alembic.value| <= 1 then Some([HALO_TARGET_HEAD]) else None
  }

  /** A stamped database is recognised. */
  lemma StampIsRecognised(db: Db)
    requires StampHead(db.alembic).Some?
    ensures Detect(db.(alembic := StampHead(db.alembic))) == AlreadyHalo
  {
    OtherwiseIff(db.(alembic := StampHead(db.alembic)));
  }

  /** So is a seeded one, whatever its version row says or if it has none. */
  lemma SeedIsRecognised(db: Db, alembic: Option<seq<string>>)
    requires Seed(db.history).Some?
    ensures Detect(db.(history := Seed(db.history), alembic := alembic)) == AlreadyHalo
  {
    SeedCompletes(db);
    OtherwiseIff(db.(history := Seed(db.history), alembic := alembic));
  }
}
