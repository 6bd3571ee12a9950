/** `ensure_runtime_migrated` of backend/open_webui/runtime_migrations.py as a protocol between
  * any number of processes, each of which may die at any step.
  *
  * A step is one thing a process does to the shared state: take the lock, look, save a backup,
  * commit.  What a transaction has done but not committed lives in its process and is lost with it.
  */
module MigrationProtocol {
  import opened Wrappers
  import opened MigrationDetect

  /** The schema and data changes, each `None` where it raises. */
  datatype Plan = Plan(
    migrate: (Family, Schema) -> Option<Schema>,
    backfill: Schema -> Option<Schema>,
    cleanup: Schema -> Option<Schema>
  )

  /** Each process's own: what the work makes of a database may depend on when and by whom it is done. */
  type Plans = nat -> Plan

  const BACKFILL_KEY := "connection_metadata_backfill_v2"
  const CLEANUP_KEY := "image_generation_options_cleanup_v2"

  function Unless(done: bool, change: Schema -> Option<Schema>, schema: Schema): Option<Schema> {
    if done then Some(schema) else change(schema)
  }

  /** The data migrations on record. */
  function KeysOf(db: Db): set<string> {
    if db.dataMigrations.Some? then db.dataMigrations.value else {}
  }

  /** `_run_post_halo_data_migrations` */
  function Post(plan: Plan, db: Db): Option<Db> {
    var keys := KeysOf(db);
    match Unless(BACKFILL_KEY in keys, plan.backfill, db.schema)
    case None => None
    case Some(schema) =>
      match Unless(CLEANUP_KEY in keys, plan.cleanup, schema)
      case None => None
      case Some(cleaned) =>
        Some(db.(schema := cleaned, dataMigrations := Some(keys + {BACKFILL_KEY, CLEANUP_KEY})))
  }

  function StateRows(db: Db): seq<StateRow> {
    match db.states case None => [] case Some(rows) => rows
  }

  /** `_write_state`, which creates the table if need be. */
  function AddState(db: Db, row: StateRow): Db {
    db.(states := Some(StateRows(db) + [row]))
  }

  /** How far the work inside the transaction has come. */
  datatype Stage = Opened | Migrated | Seeded | Stamped | Posted | Recorded

  datatype Outcome = Done | Refused | Raised | GaveUp | Crashed

  datatype Proc =
    | Idle
    | Locked
    | Halo
    | Found(family: Family)
    | Checked(family: Family)
    | Saved(family: Family, backup: nat)
    | Working(family: Family, backup: nat, stage: Stage, copy: Db)
    | Failing(family: Family, backup: nat)
    | Over(outcome: Outcome)

  /** The committed database, the lock, the processes, the backups taken, and the number of migrations
    * committed.
    */
  datatype System = System(db: Db, lock: Option<nat>, procs: map<nat, Proc>, backups: seq<Db>, commits: nat)

  /** `ok` is false where the operation itself raises; `latest` is the row the query for the latest
    * one returns; `auto` is `HALO_AUTO_MIGRATE`.
    */
  datatype Action =
    | Acquire
    | Look(auto: bool)
    | Finish(ok: bool)
    | Check(latest: nat)
    | Backup(ok: bool, manifest: bool)
    | Start(ok: bool, now: int)
    | Advance(ok: bool, now: int)
    | Commit(ok: bool)
    | GiveUp(ok: bool, now: int)
    | Crash

  datatype Step = Step(p: nat, action: Action)

  function At(s: System, p: nat): Proc {
    if p in s.procs then s.procs[p] else Idle
  }

  predicate Active(pc: Proc) {
    !pc.Idle? && !pc.Over?
  }

  function Goto(s: System, p: nat, pc: Proc): System {
    s.(procs := s.procs[p := pc])
  }

  /** The process is over, and its lock with it. */
  function End(s: System, p: nat, outcome: Outcome): System {
    s.(lock := None, procs := s.procs[p := Over(outcome)])
  }

  predicate IsLatest(rows: seq<StateRow>, i: nat) {
    i < |rows| && forall j :: 0 <= j < |rows| ==> rows[j].startedAt <= rows[i].startedAt
  }

  /** One piece of the transaction's work; `None` where it raises. */
  function Work(plan: Plan, f: Family, backup: nat, stage: Stage, db: Db, now: int): Option<(Stage, Db)> {
    match stage
    case Opened =>
      (match plan.migrate(f, db.schema)
       case None => None
       case Some(schema) => Some((Migrated, db.(schema := schema))))
    case Migrated =>
      if Seed(db.history).None? then None else Some((Seeded, db.(history := Seed(db.history))))
    case Seeded =>
      if StampHead(db.alembic).None? then None else Some((Stamped, db.(alembic := StampHead(db.alembic))))
    case Stamped =>
      (match Post(plan, db)
       case None => None
       case Some(after) => Some((Posted, after)))
    case Posted => Some((Recorded, AddState(db, StateRow(Completed, f, backup, now))))
    case Recorded => None
  }

  /** One step; a step the process is not ready for changes nothing. */
  function Next(plans: Plans, s: System, step: Step): System {
    var p, pc := step.p, At(s, step.p);
    match step.action
    case Acquire => if pc.Idle? && s.lock.None? then Goto(s.(lock := Some(p)), p, Locked) else s
    case Look(auto) => if pc.Locked? then Looked(s, p, auto) else s
    case Finish(ok) => if pc.Halo? then Finished(plans(p), s, p, ok) else s
    case Check(latest) => if pc.Found? then CheckedFor(s, p, pc.family, latest) else s
    case Backup(ok, manifest) => if pc.Checked? then BackedUp(s, p, pc.family, ok, manifest) else s
    case Start(ok, now) => if pc.Saved? then StartedOn(s, p, pc.family, pc.backup, ok, now) else s
    case Advance(ok, now) => if pc.Working? && !pc.stage.Recorded? then Advanced(plans(p), s, p, pc, ok, now) else s
    case Commit(ok) => if pc.Working? && pc.stage.Recorded? then Committed(s, p, pc, ok) else s
    case GiveUp(ok, now) => if pc.Failing? then GivenUp(s, p, pc.family, pc.backup, ok, now) else s
    case Crash => if Active(pc) then End(s, p, Crashed) else s
  }

  function Looked(s: System, p: nat, auto: bool): System {
    match Detect(s.db)
    case Fresh => Goto(s, p, Halo)
    case AlreadyHalo => Goto(s, p, Halo)
    case Unknown => End(s, p, Refused)
    case Source(f) => if auto then Goto(s, p, Found(f)) else End(s, p, Refused)
  }

  function Finished(plan: Plan, s: System, p: nat, ok: bool): System {
    if ok && Post(plan, s.db).Some? then End(s.(db := Post(plan, s.db).value), p, Done) else End(s, p, Raised)
  }

  /** `_ensure_no_incomplete_state` */
  function CheckedFor(s: System, p: nat, f: Family, latest: nat): System {
    var rows := StateRows(s.db);
    if rows == [] then Goto(s, p, Checked(f))
    else if !IsLatest(rows, latest) then s
    else if rows[latest].status == Completed then Goto(s, p, Checked(f))
    else End(s, p, Refused)
  }

  function BackedUp(s: System, p: nat, f: Family, ok: bool, manifest: bool): System {
    if !ok then End(s, p, Raised)
    else
      var saved := s.(backups := s.backups + [s.db]);
      if manifest then Goto(saved, p, Saved(f, |s.backups|)) else End(saved, p, Raised)
  }

  function StartedOn(s: System, p: nat, f: Family, backup: nat, ok: bool, now: int): System {
    if !ok then Goto(s, p, Failing(f, backup))
    else
      var db := AddState(s.db, StateRow(Started, f, backup, now));
      Goto(s.(db := db), p, Working(f, backup, Opened, db))
  }

  function Advanced(plan: Plan, s: System, p: nat, pc: Proc, ok: bool, now: int): System
    requires pc.Working?
  {
    var worked := Work(plan, pc.family, pc.backup, pc.stage, pc.copy, now);
    if ok && worked.Some?
    then Goto(s, p, Working(pc.family, pc.backup, worked.value.0, worked.value.1))
    else Goto(s, p, Failing(pc.family, pc.backup))
  }

  function Committed(s: System, p: nat, pc: Proc, ok: bool): System
    requires pc.Working?
  {
    if ok then End(s.(db := pc.copy, commits := s.commits + 1), p, Done)
    else Goto(s, p, Failing(pc.family, pc.backup))
  }

  function GivenUp(s: System, p: nat, f: Family, backup: nat, ok: bool, now: int): System {
    if ok then End(s.(db := AddState(s.db, StateRow(Failed, f, backup, now))), p, GaveUp) else End(s, p, Raised)
  }

  // ---------- what the transaction is to reach ----------

  function Then(plan: Plan, f: Family, stage: Stage, db: Option<Db>): Option<Db> {
    if db.None? then None
    else
      var worked := Work(plan, f, 0, stage, db.value, 0);
      if worked.None? then None else Some(worked.value.1)
  }

  function StagesDone(stage: Stage): nat {
    match stage
    case Opened => 0
    case Migrated => 1
    case Seeded => 2
    case Stamped => 3
    case Posted => 4
    case Recorded => 5
  }

  /** The source database after the work up to a stage, state rows aside. */
  function Upto(plan: Plan, source: Db, f: Family, stage: Stage): Option<Db>
    decreases StagesDone(stage)
  {
    match stage
    case Opened => Some(source)
    case Migrated => Then(plan, f, Opened, Upto(plan, source, f, Opened))
    case Seeded => Then(plan, f, Migrated, Upto(plan, source, f, Migrated))
    case Stamped => Then(plan, f, Seeded, Upto(plan, source, f, Seeded))
    case Posted => Then(plan, f, Stamped, Upto(plan, source, f, Stamped))
    case Recorded => Upto(plan, source, f, Posted)
  }

  /** The fully stamped target, if the source can be migrated at all. */
  function Target(plan: Plan, source: Db, f: Family): Option<Db> {
    Upto(plan, source, f, Posted)
  }

  // ---------- what a migrated database holds ----------

  /** The backfill and then the cleanup, each unless it is on record. */
  predicate DataMigrated(plan: Plan, keys: set<string>, before: Schema, after: Schema) {
    var filled := if BACKFILL_KEY in keys then Some(before) else plan.backfill(before);
    && filled.Some?
    && (if CLEANUP_KEY in keys then after == filled.value else plan.cleanup(filled.value) == Some(after))
  }

  /** The family's rewriting, and then the data migrations. */
  predicate Rewritten(plan: Plan, source: Db, f: Family, after: Schema) {
    && plan.migrate(f, source.schema).Some?
    && DataMigrated(plan, KeysOf(source), plan.migrate(f, source.schema).value, after)
  }

  /** State rows aside: everything rewritten, everything seeded, stamped, and both data migrations marked. */
  ghost predicate IsWhole(plan: Plan, source: Db, f: Family, db: Db) {
    && Rewritten(plan, source, f, db.schema)
    && db.history.Some? && HistorySeeded(RowsOf(source.history), db.history.value)
    && db.alembic == Some([HALO_TARGET_HEAD])
    && db.dataMigrations == Some(KeysOf(source) + {BACKFILL_KEY, CLEANUP_KEY})
  }

  /** Nothing on the way there raises. */
  ghost predicate Migratable(plan: Plan, source: Db, f: Family) {
    && (exists after :: Rewritten(plan, source, f, after))
    && !NumberTaken(RowsOf(source.history))
    && (source.alembic.Some? ==> |source.alembic.value| <= 1)
  }

  /** The data migrations change the tables, mark both keys, and touch nothing else. */
  lemma PostHolds(plan: Plan, db: Db)
    ensures Post(plan, db).Some? <==> exists after :: DataMigrated(plan, KeysOf(db), db.schema, after)
    ensures Post(plan, db).Some? ==>
              var done := Post(plan, db).value;
              && DataMigrated(plan, KeysOf(db), db.schema, done.schema)
              && done.dataMigrations == Some(KeysOf(db) + {BACKFILL_KEY, CLEANUP_KEY})
              && done.alembic == db.alembic && done.history == db.history && done.states == db.states
  {
    if Post(plan, db).Some? {
      assert DataMigrated(plan, KeysOf(db), db.schema, Post(plan, db).value.schema);
    }
  }

  /** What has been done when the transaction comes to the data migrations. */
  lemma StampedHolds(plan: Plan, source: Db, f: Family)
    ensures Upto(plan, source, f, Stamped).Some? <==>
              && plan.migrate(f, source.schema).Some? && Seed(source.history).Some?
              && (source.alembic.Some? ==> |source.alembic.value| <= 1)
    ensures Upto(plan, source, f, Stamped).Some? ==>
              var db := Upto(plan, source, f, Stamped).value;
              && Some(db.schema) == plan.migrate(f, source.schema) && db.history == Seed(source.history)
              && db.alembic == Some([HALO_TARGET_HEAD]) && db.dataMigrations == source.dataMigrations
  {
    hide Seed;
  }

  /** The target is the whole of it. */
  lemma TargetIsWhole(plan: Plan, source: Db, f: Family, db: Db)
    requires Target(plan, source, f).Some? && SameButStates(db, Target(plan, source, f).value)
    ensures IsWhole(plan, source, f, db)
  {
    hide Seed, StampHead, Post;
    assert Target(plan, source, f) == Then(plan, f, Stamped, Upto(plan, source, f, Stamped));
    hide Upto;
    StampedHolds(plan, source, f);
    SeedIff(source.history);
    PostHolds(plan, Upto(plan, source, f, Stamped).value);
  }

  /** Equal but for the state rows. */
  predicate SameButStates(a: Db, b: Db) {
    a == b.(states := a.states)
  }

  /** The state rows have no say in it. */
  lemma StatesDoNotMatter(plan: Plan, a: Db, f: Family, b: Db)
    requires SameButStates(a, b)
    ensures Migratable(plan, a, f) <==> Migratable(plan, b, f)
    ensures forall db :: IsWhole(plan, a, f, db) <==> IsWhole(plan, b, f, db)
  {
    assert forall after :: Rewritten(plan, a, f, after) <==> Rewritten(plan, b, f, after);
  }

  /** Each piece of work leaves the state rows alone and does not look at them. */
  lemma WorkIgnoresStates(plan: Plan, f: Family, backup: nat, stage: Stage, copy: Db, db: Db, now: int)
    requires SameButStates(copy, db) && !stage.Posted? && !stage.Recorded?
    ensures var a, b := Work(plan, f, backup, stage, copy, now), Work(plan, f, 0, stage, db, 0);
      && (a.Some? <==> b.Some?)
      && (a.Some? ==> a.value.0 == b.value.0 && SameButStates(a.value.1, b.value.1) && a.value.1.states == copy.states)
  {
    hide Seed, StampHead;
  }

  /** One piece of work takes the transaction from stage to stage. */
  lemma WorkAdvances(plan: Plan, source: Db, f: Family, backup: nat, stage: Stage, copy: Db, now: int)
    requires Upto(plan, source, f, stage).Some? && SameButStates(copy, Upto(plan, source, f, stage).value)
    requires !stage.Posted? && !stage.Recorded?
    ensures var worked := Work(plan, f, backup, stage, copy, now);
      worked.Some? ==>
        var (next, after) := worked.value;
        && !next.Opened? && !next.Recorded?
        && Upto(plan, source, f, next).Some? && SameButStates(after, Upto(plan, source, f, next).value)
        && after.states == copy.states
  {
    hide Seed, StampHead, Post;
    WorkIgnoresStates(plan, f, backup, stage, copy, Upto(plan, source, f, stage).value, now);
  }

  /** A database that some process's work leads to from the source, state rows aside. */
  predicate IsTargetOf(plan: Plan, source: Db, f: Family, db: Db) {
    Target(plan, source, f).Some? && SameButStates(db, Target(plan, source, f).value)
  }

  ghost predicate IsTarget(plans: Plans, source: Db, f: Family, db: Db) {
    exists p :: IsTargetOf(plans(p), source, f, db)
  }

  /** Whoever made it, it is recognised, and a later run finds no data migration to do. */
  lemma TargetIsStamped(plans: Plans, source: Db, f: Family, db: Db, later: Plan)
    requires IsTarget(plans, source, f, db)
    ensures Detect(db) == AlreadyHalo && Post(later, db) == Some(db)
    ensures HistoryComplete(db)
  {
    var p :| IsTargetOf(plans(p), source, f, db);
    var plan := plans(p);
    var seeded, stamped := Upto(plan, source, f, Seeded).value, Upto(plan, source, f, Stamped).value;
    assert stamped.alembic == Some([HALO_TARGET_HEAD]) && stamped.history == seeded.history;
    assert seeded.history == Seed(Upto(plan, source, f, Migrated).value.history);
    SeedCompletes(Upto(plan, source, f, Migrated).value);
    PostIsIdempotent(plan, later, stamped, db);
    OtherwiseIff(db);
  }

  /** A data migration is never repeated, not even by a process that would do it differently. */
  lemma PostIsIdempotent(plan: Plan, later: Plan, before: Db, db: Db)
    requires Post(plan, before).Some? && SameButStates(db, Post(plan, before).value)
    ensures Post(later, db) == Some(db)
    ensures db.alembic == before.alembic && db.history == before.history
  {
    var keys := db.dataMigrations.value;
    assert keys + {BACKFILL_KEY, CLEANUP_KEY} == keys;
  }

  // ---------- the invariant ----------

  predicate NoneCompleted(rows: seq<StateRow>) {
    forall i :: 0 <= i < |rows| ==> rows[i].status != Completed
  }

  /** Nothing but state rows has been committed, and none of them says completed. */
  predicate Untouched(source: Db, s: System) {
    && s.commits == 0
    && SameButStates(s.db, source)
    && NoneCompleted(StateRows(s.db))
    && (StateRows(s.db) == [] ==> s.db == source)
  }

  /** The target is committed, with a completed row. */
  ghost predicate Reached(plans: Plans, source: Db, f: Family, s: System) {
    && s.commits == 1
    && IsTarget(plans, source, f, s.db)
  }

  /** The rows of one attempt, which name its family and the backup it took. */
  predicate Entries(rows: seq<StateRow>, statuses: seq<Status>, f: Family, backup: int) {
    && |rows| == |statuses|
    && forall i :: 0 <= i < |rows| ==>
         rows[i].status == statuses[i] && rows[i].family == f && rows[i].backup == backup
  }

  /** Before the commit: one attempt at most. */
  predicate AttemptLog(rows: seq<StateRow>, f: Family, backup: int) {
    || rows == []
    || Entries(rows, [Started], f, backup)
    || Entries(rows, [Failed], f, backup)
    || Entries(rows, [Started, Failed], f, backup)
  }

  predicate LogOk(f: Family, s: System) {
    var rows, backup := StateRows(s.db), |s.backups| - 1;
    && (s.commits == 0 ==> AttemptLog(rows, f, backup))
    && (s.commits == 1 ==> Entries(rows, [Started, Completed], f, backup))
  }

  /** Every backup is a copy of the source, and rows name the last one. */
  predicate BackupsOk(source: Db, s: System) {
    && (forall i :: 0 <= i < |s.backups| ==> s.backups[i] == source)
    && (StateRows(s.db) != [] ==> s.backups != [])
  }

  /** What the transaction holds that is not committed. */
  ghost predicate CopyOk(plan: Plan, source: Db, f: Family, s: System, backup: nat, stage: Stage, copy: Db) {
    && Upto(plan, source, f, stage).Some? && SameButStates(copy, Upto(plan, source, f, stage).value)
    && (!stage.Recorded? ==> copy.states == s.db.states)
    && (stage.Recorded? ==>
          exists now :: copy.states == AddState(s.db, StateRow(Completed, f, backup, now)).states)
  }

  ghost predicate ProcOk(plans: Plans, source: Db, f: Family, s: System, p: nat) {
    var pc := At(s, p);
    Active(pc) ==>
      && s.lock == Some(p)
      && (pc.Halo? ==> s.commits == 1)
      && (!pc.Halo? && !pc.Locked? ==> s.commits == 0 && pc.family == f)
      && (pc.Checked? || pc.Saved? ==> StateRows(s.db) == [])
      && (pc.Saved? || pc.Working? || pc.Failing? ==> pc.backup == |s.backups| - 1)
      && (pc.Working? ==> Entries(StateRows(s.db), [Started], f, pc.backup))
      && (pc.Failing? ==> StateRows(s.db) == [] || Entries(StateRows(s.db), [Started], f, pc.backup))
      && (pc.Working? ==> CopyOk(plans(p), source, f, s, pc.backup, pc.stage, pc.copy))
  }

  ghost predicate Inv(plans: Plans, source: Db, f: Family, s: System) {
    && (Untouched(source, s) || Reached(plans, source, f, s))
    && BackupsOk(source, s) && LogOk(f, s)
    && forall p :: ProcOk(plans, source, f, s, p)
  }

  /** A database of a supported family that no migration has been tried on. */
  predicate Supported(source: Db, f: Family) {
    Detect(source) == Source(f) && StateRows(source) == []
  }

  function Initial(source: Db): System {
    System(source, None, map[], [], 0)
  }

  lemma InitialInv(plans: Plans, source: Db, f: Family)
    requires Supported(source, f)
    ensures Inv(plans, source, f, Initial(source))
  {
  }

  lemma DetectUntouched(source: Db, f: Family, s: System)
    requires Supported(source, f) && Untouched(source, s)
    ensures Detect(s.db) == Source(f)
  {
    BookkeepingIsInvisible(source, s.db.states, source.dataMigrations, f);
    assert s.db == source.(states := s.db.states, dataMigrations := source.dataMigrations);
  }

  /** Only the process that moved, and it alone may hold the lock. */
  lemma OthersRest(plans: Plans, source: Db, f: Family, s: System, next: System, p: nat)
    requires Inv(plans, source, f, s) && Active(At(s, p))
    requires forall q :: q != p ==> At(next, q) == At(s, q)
    requires ProcOk(plans, source, f, next, p)
    ensures forall q :: ProcOk(plans, source, f, next, q)
  {
    assert ProcOk(plans, source, f, s, p);
    forall q
      ensures ProcOk(plans, source, f, next, q)
    {
      assert ProcOk(plans, source, f, s, q);
    }
  }

  lemma EndKeepsInv(plans: Plans, source: Db, f: Family, s: System, p: nat, outcome: Outcome)
    requires Inv(plans, source, f, s) && Active(At(s, p))
    ensures Inv(plans, source, f, End(s, p, outcome))
  {
    hide Untouched, Reached, BackupsOk, LogOk;
    EndShape(plans, source, f, s, p, outcome);
    OthersRest(plans, source, f, s, End(s, p, outcome), p);
  }

  lemma EndShape(plans: Plans, source: Db, f: Family, s: System, p: nat, outcome: Outcome)
    ensures var e := End(s, p, outcome);
      && (Untouched(source, e) <==> Untouched(source, s))
      && (Reached(plans, source, f, e) <==> Reached(plans, source, f, s))
      && (BackupsOk(source, e) <==> BackupsOk(source, s))
      && (LogOk(f, e) <==> LogOk(f, s))
  {
  }

  lemma LookKeepsInv(plans: Plans, source: Db, f: Family, s: System, p: nat, auto: bool)
    requires Supported(source, f) && Inv(plans, source, f, s) && At(s, p).Locked?
    ensures Inv(plans, source, f, Looked(s, p, auto))
  {
    hide Detect, Target;
    assert ProcOk(plans, source, f, s, p);
    if Untouched(source, s) {
      DetectUntouched(source, f, s);
      if auto {
        OthersRest(plans, source, f, s, Goto(s, p, Found(f)), p);
      } else {
        EndKeepsInv(plans, source, f, s, p, Refused);
      }
    } else {
      TargetIsStamped(plans, source, f, s.db, plans(p));
      OthersRest(plans, source, f, s, Goto(s, p, Halo), p);
    }
  }

  lemma FinishKeepsInv(plans: Plans, source: Db, f: Family, s: System, p: nat, ok: bool)
    requires Inv(plans, source, f, s) && At(s, p).Halo?
    ensures Inv(plans, source, f, Finished(plans(p), s, p, ok))
  {
    hide Detect, Target, Post;
    assert ProcOk(plans, source, f, s, p);
    TargetIsStamped(plans, source, f, s.db, plans(p));
    assert s.(db := s.db) == s;
    EndKeepsInv(plans, source, f, s, p, if ok then Done else Raised);
  }

  lemma CheckKeepsInv(plans: Plans, source: Db, f: Family, s: System, p: nat, latest: nat)
    requires Inv(plans, source, f, s) && At(s, p).Found?
    ensures Inv(plans, source, f, CheckedFor(s, p, At(s, p).family, latest))
  {
    hide Target;
    assert ProcOk(plans, source, f, s, p);
    var rows := StateRows(s.db);
    if rows == [] {
      OthersRest(plans, source, f, s, Goto(s, p, Checked(f)), p);
    } else if IsLatest(rows, latest) {
      EndKeepsInv(plans, source, f, s, p, Refused);
    }
  }

  lemma BackupKeepsInv(plans: Plans, source: Db, f: Family, s: System, p: nat, ok: bool, manifest: bool)
    requires Inv(plans, source, f, s) && At(s, p).Checked?
    ensures Inv(plans, source, f, BackedUp(s, p, At(s, p).family, ok, manifest))
  {
    hide Target;
    assert ProcOk(plans, source, f, s, p);
    if !ok {
      EndKeepsInv(plans, source, f, s, p, Raised);
    } else {
      var next := BackedUp(s, p, f, ok, manifest);
      assert s.db == source;
      OthersRest(plans, source, f, s, next, p);
    }
  }

  lemma StartKeepsInv(plans: Plans, source: Db, f: Family, s: System, p: nat, ok: bool, now: int)
    requires Inv(plans, source, f, s) && At(s, p).Saved?
    ensures Inv(plans, source, f, StartedOn(s, p, At(s, p).family, At(s, p).backup, ok, now))
  {
    hide Target, Work;
    assert ProcOk(plans, source, f, s, p);
    OthersRest(plans, source, f, s, StartedOn(s, p, f, At(s, p).backup, ok, now), p);
  }

  lemma AdvanceKeepsInv(plans: Plans, source: Db, f: Family, s: System, p: nat, ok: bool, now: int)
    requires Inv(plans, source, f, s) && At(s, p).Working? && !At(s, p).stage.Recorded?
    ensures Inv(plans, source, f, Advanced(plans(p), s, p, At(s, p), ok, now))
  {
    hide Seed, StampHead, Post, Target;
    assert ProcOk(plans, source, f, s, p);
    var pc := At(s, p);
    if !pc.stage.Posted? {
      hide Upto, Work;
      WorkAdvances(plans(p), source, f, pc.backup, pc.stage, pc.copy, now);
    } else {
      assert Upto(plans(p), source, f, Recorded) == Upto(plans(p), source, f, Posted);
    }
    hide Upto;
    OthersRest(plans, source, f, s, Advanced(plans(p), s, p, pc, ok, now), p);
  }

  lemma CommitKeepsInv(plans: Plans, source: Db, f: Family, s: System, p: nat, ok: bool)
    requires Inv(plans, source, f, s) && At(s, p).Working? && At(s, p).stage.Recorded?
    ensures Inv(plans, source, f, Committed(s, p, At(s, p), ok))
  {
    hide Work, Then;
    assert ProcOk(plans, source, f, s, p);
    var pc := At(s, p);
    assert Upto(plans(p), source, f, Recorded) == Target(plans(p), source, f);
    assert IsTargetOf(plans(p), source, f, pc.copy);
    OthersRest(plans, source, f, s, Committed(s, p, pc, ok), p);
  }

  lemma GiveUpKeepsInv(plans: Plans, source: Db, f: Family, s: System, p: nat, ok: bool, now: int)
    requires Inv(plans, source, f, s) && At(s, p).Failing?
    ensures Inv(plans, source, f, GivenUp(s, p, At(s, p).family, At(s, p).backup, ok, now))
  {
    hide Target;
    assert ProcOk(plans, source, f, s, p);
    OthersRest(plans, source, f, s, GivenUp(s, p, f, At(s, p).backup, ok, now), p);
  }

  lemma AcquireKeepsInv(plans: Plans, source: Db, f: Family, s: System, p: nat)
    requires Inv(plans, source, f, s) && At(s, p).Idle? && s.lock.None?
    ensures Inv(plans, source, f, Goto(s.(lock := Some(p)), p, Locked))
  {
    hide Target;
    var next := Goto(s.(lock := Some(p)), p, Locked);
    forall q
      ensures ProcOk(plans, source, f, next, q)
    {
      assert ProcOk(plans, source, f, s, q);
    }
  }

  /** Whatever process moves, and however. */
  lemma StepKeepsInv(plans: Plans, source: Db, f: Family, s: System, step: Step)
    requires Supported(source, f) && Inv(plans, source, f, s)
    ensures Inv(plans, source, f, Next(plans, s, step))
  {
    hide Inv, Supported;
    var p, pc := step.p, At(s, step.p);
    match step.action
    case Acquire => if pc.Idle? && s.lock.None? { AcquireKeepsInv(plans, source, f, s, p); }
    case Look(auto) => if pc.Locked? { LookKeepsInv(plans, source, f, s, p, auto); }
    case Finish(ok) => if pc.Halo? { FinishKeepsInv(plans, source, f, s, p, ok); }
    case Check(latest) => if pc.Found? { CheckKeepsInv(plans, source, f, s, p, latest); }
    case Backup(ok, manifest) => if pc.Checked? { BackupKeepsInv(plans, source, f, s, p, ok, manifest); }
    case Start(ok, now) => if pc.Saved? { StartKeepsInv(plans, source, f, s, p, ok, now); }
    case Advance(ok, now) => if pc.Working? && !pc.stage.Recorded? { AdvanceKeepsInv(plans, source, f, s, p, ok, now); }
    case Commit(ok) => if pc.Working? && pc.stage.Recorded? { CommitKeepsInv(plans, source, f, s, p, ok); }
    case GiveUp(ok, now) => if pc.Failing? { GiveUpKeepsInv(plans, source, f, s, p, ok, now); }
    case Crash => if Active(pc) { EndKeepsInv(plans, source, f, s, p, Crashed); }
  }

  // ---------- runs ----------

  function Run(plans: Plans, s: System, steps: seq<Step>): System {
    if steps == [] then s else Next(plans, Run(plans, s, steps[..|steps| - 1]), steps[|steps| - 1])
  }

  lemma {:induction false} RunKeepsInv(plans: Plans, source: Db, f: Family, s: System, steps: seq<Step>)
    requires Supported(source, f) && Inv(plans, source, f, s)
    ensures Inv(plans, source, f, Run(plans, s, steps))
  {
    hide Inv, Supported, Next;
    if steps != [] {
      RunKeepsInv(plans, source, f, s, steps[..|steps| - 1]);
      StepKeepsInv(plans, source, f, Run(plans, s, steps[..|steps| - 1]), steps[|steps| - 1]);
    }
  }

  /** Over every interleaving and every pattern of crashes and errors: the committed database is the
    * source, state rows aside, or everything that some process makes of it; it is migrated at most once;
    * the rows on record are those of one attempt, which name the last backup; and every backup is the
    * source as it was.
    */
  lemma AllOrNothing(plans: Plans, source: Db, f: Family, steps: seq<Step>)
    requires Supported(source, f)
    ensures
      var s := Run(plans, Initial(source), steps);
      && s.commits <= 1
      && (s.commits == 0 ==> SameButStates(s.db, source) && AttemptLog(StateRows(s.db), f, |s.backups| - 1))
      && (s.commits == 1 ==> IsTarget(plans, source, f, s.db) && WholeBySome(plans, source, f, s.db))
      && (s.commits == 1 ==> Entries(StateRows(s.db), [Started, Completed], f, |s.backups| - 1))
      && (forall i :: 0 <= i < |s.backups| ==> s.backups[i] == source)
      && (s.commits == 1 || StateRows(s.db) != [] ==> s.backups != [])
  {
    hide Target, Next, Run, Supported, IsWhole, IsTarget;
    InitialInv(plans, source, f);
    RunKeepsInv(plans, source, f, Initial(source), steps);
    var s := Run(plans, Initial(source), steps);
    if s.commits == 1 {
      TargetIsWholeBySome(plans, source, f, s.db);
    }
  }

  ghost predicate WholeBySome(plans: Plans, source: Db, f: Family, db: Db) {
    exists p :: IsWhole(plans(p), source, f, db)
  }

  lemma TargetIsWholeBySome(plans: Plans, source: Db, f: Family, db: Db)
    requires IsTarget(plans, source, f, db)
    ensures WholeBySome(plans, source, f, db)
  {
    hide Target, IsWhole;
    var p :| IsTargetOf(plans(p), source, f, db);
    TargetIsWhole(plans(p), source, f, db);
  }

  /** Two processes are never past the lock together. */
  lemma MutualExclusion(plans: Plans, source: Db, f: Family, steps: seq<Step>, p: nat, q: nat)
    requires Supported(source, f)
    requires var s := Run(plans, Initial(source), steps); Active(At(s, p)) && Active(At(s, q))
    ensures p == q
  {
    hide Next, Run, Supported, CopyOk;
    InitialInv(plans, source, f);
    RunKeepsInv(plans, source, f, Initial(source), steps);
    var s := Run(plans, Initial(source), steps);
    assert ProcOk(plans, source, f, s, p) && ProcOk(plans, source, f, s, q);
  }

  /** A database that no process can migrate is never changed. */
  lemma UnmigratableStays(plans: Plans, source: Db, f: Family, steps: seq<Step>)
    requires Supported(source, f) && forall p :: !Migratable(plans(p), source, f)
    ensures SameButStates(Run(plans, Initial(source), steps).db, source)
  {
    hide Supported, Run, Migratable, WholeBySome;
    AllOrNothing(plans, source, f, steps);
    forall p
      ensures Target(plans(p), source, f).None?
    {
      MigratableIff(plans(p), source, f);
    }
  }

  // ---------- which sources can be migrated ----------

  /** A process can migrate a source exactly when its rewriting and its data migrations do not raise, no
    * row of the history has the number of a missing entry, and there is at most one version row.
    */
  lemma MigratableIff(plan: Plan, source: Db, f: Family)
    ensures Target(plan, source, f).Some? <==> Migratable(plan, source, f)
  {
    hide Seed, StampHead, Post, NumberTaken, DataMigrated;
    assert Target(plan, source, f) == Then(plan, f, Stamped, Upto(plan, source, f, Stamped));
    hide Upto, Target;
    StampedHolds(plan, source, f);
    SeedIff(source.history);
    if Upto(plan, source, f, Stamped).Some? {
      var db := Upto(plan, source, f, Stamped).value;
      PostHolds(plan, db);
      assert forall after :: Rewritten(plan, source, f, after) <==> DataMigrated(plan, KeysOf(db), db.schema, after);
    }
  }

  /** A taken number or a second version row: whatever the processes do, nothing but state rows is ever
    * committed.
    */
  lemma BlockedSourceStays(plans: Plans, source: Db, f: Family, steps: seq<Step>)
    requires Supported(source, f)
    requires NumberTaken(RowsOf(source.history)) || (source.alembic.Some? && |source.alembic.value| > 1)
    ensures SameButStates(Run(plans, Initial(source), steps).db, source)
  {
    hide Run, Supported, NumberTaken;
    UnmigratableStays(plans, source, f, steps);
  }

  /** A database with the tables of version 0.8.0. */
  function Owui080Db(alembic: Option<seq<string>>, history: Option<seq<HistoryRow>>): Db {
    Db(Schema(BASE + SINCE_080, false, ""), alembic, history, None, None)
  }

  lemma Owui080IsSupported(alembic: Option<seq<string>>, history: Option<seq<HistoryRow>>)
    requires alembic.None? || (alembic.value != [] && alembic.value[0] != HALO_TARGET_HEAD)
    requires history.None? || |history.value| < |HALO_PEEWEE_MIGRATIONS|
    ensures Supported(Owui080Db(alembic, history), Owui080)
  {
    SourceIff(Owui080Db(alembic, history), Owui080);
  }

  /** Such sources exist: one foreign row under the last number, and two version rows. */
  lemma BlockedSources(plans: Plans, steps: seq<Step>)
    ensures
      var taken := Owui080Db(None, Some([HistoryRow(20, "x")]));
      Supported(taken, Owui080) && SameButStates(Run(plans, Initial(taken), steps).db, taken)
    ensures
      var twice := Owui080Db(Some(["a1b2c3d4e5f6", "x"]), None);
      Supported(twice, Owui080) && SameButStates(Run(plans, Initial(twice), steps).db, twice)
  {
    hide Run, Supported, SameButStates;
    var taken, twice := Owui080Db(None, Some([HistoryRow(20, "x")])), Owui080Db(Some(["a1b2c3d4e5f6", "x"]), None);
    Owui080IsSupported(None, taken.history);
    Owui080IsSupported(twice.alembic, None);
    TakenNumber();
    BlockedSourceStays(plans, taken, Owui080, steps);
    BlockedSourceStays(plans, twice, Owui080, steps);
  }

  lemma TakenNumber()
    ensures NumberTaken([HistoryRow(20, "x")])
  {
    var row := HistoryRow(20, "x");
    assert row in [row] && |HALO_PEEWEE_MIGRATIONS[19]| > 1;
  }

  // ---------- an attempt on record, and none at work ----------

  /** An attempt was started or failed, and whoever made it is gone. */
  ghost predicate Stuck(source: Db, s: System) {
    && Untouched(source, s) && StateRows(s.db) != []
    && forall p :: Waiting(At(s, p))
  }

  predicate Waiting(pc: Proc) {
    pc.Idle? || pc.Over? || pc.Locked? || pc.Found?
  }

  lemma StuckStays(plans: Plans, source: Db, f: Family, s: System, step: Step)
    requires Supported(source, f) && Stuck(source, s)
    ensures Stuck(source, Next(plans, s, step)) && Next(plans, s, step).db == s.db
  {
    hide Detect, Supported;
    DetectUntouched(source, f, s);
    var next := Next(plans, s, step);
    assert Waiting(At(s, step.p));
    forall q
      ensures Waiting(At(next, q))
    {
      assert Waiting(At(s, q));
    }
  }

  /** From then on every run is refused: nothing is ever written again. */
  lemma {:induction false} StuckForever(plans: Plans, source: Db, f: Family, s: System, steps: seq<Step>)
    requires Supported(source, f) && Stuck(source, s)
    ensures Stuck(source, Run(plans, s, steps)) && Run(plans, s, steps).db == s.db
  {
    hide Stuck, Supported, Next;
    if steps != [] {
      StuckForever(plans, source, f, s, steps[..|steps| - 1]);
      StuckStays(plans, source, f, Run(plans, s, steps[..|steps| - 1]), steps[|steps| - 1]);
    }
  }

  /** An attempt on record with the lock free is such a state. */
  lemma OnRecordIsStuck(plans: Plans, source: Db, f: Family, s: System)
    requires Inv(plans, source, f, s) && s.lock.None? && s.commits == 0 && StateRows(s.db) != []
    ensures Stuck(source, s)
  {
    hide CopyOk;
    forall p
      ensures Waiting(At(s, p))
    {
      assert ProcOk(plans, source, f, s, p);
    }
  }

  /** Where a process can be that comes upon such a state: on its way to the check, turned away, or dead. */
  predicate Barred(pc: Proc) {
    pc.Idle? || pc.Locked? || pc.Found? || pc == Over(Refused) || pc == Over(Crashed)
  }

  lemma BarredStays(plans: Plans, source: Db, f: Family, s: System, step: Step, p: nat)
    requires Supported(source, f) && Stuck(source, s) && Barred(At(s, p))
    ensures Barred(At(Next(plans, s, step), p))
  {
    hide Detect, Supported;
    DetectUntouched(source, f, s);
    assert Waiting(At(s, step.p));
  }

  /** Every later run, in whatever company, can only be refused or crash. */
  lemma {:induction false} StuckRunsRefuse(
    plans: Plans, source: Db, f: Family, s: System, steps: seq<Step>, p: nat
  )
    requires Supported(source, f) && Stuck(source, s) && Barred(At(s, p))
    ensures Barred(At(Run(plans, s, steps), p))
  {
    hide Stuck, Supported, Next, Barred;
    if steps != [] {
      StuckForever(plans, source, f, s, steps[..|steps| - 1]);
      StuckRunsRefuse(plans, source, f, s, steps[..|steps| - 1], p);
      BarredStays(plans, source, f, Run(plans, s, steps[..|steps| - 1]), steps[|steps| - 1], p);
    }
  }

  /** A process that checks there is turned away, whichever row the query returns. */
  lemma CheckRefuses(plans: Plans, source: Db, s: System, p: nat, latest: nat)
    requires Stuck(source, s) && At(s, p).Found? && IsLatest(StateRows(s.db), latest)
    ensures At(Next(plans, s, Step(p, Check(latest))), p) == Over(Refused)
  {
  }

  // ---------- after completion ----------

  lemma CompletedStep(plans: Plans, source: Db, f: Family, s: System, step: Step)
    requires Supported(source, f) && Inv(plans, source, f, s) && s.commits == 1
    ensures Next(plans, s, step).db == s.db && Next(plans, s, step).commits == 1
  {
    hide Target, Detect, CopyOk, IsTarget;
    TargetIsStamped(plans, source, f, s.db, plans(step.p));
    assert ProcOk(plans, source, f, s, step.p);
  }

  /** Once completed, over every later run: the database never changes, it is never migrated again, and it
    * is recognised whenever it is looked at.
    */
  lemma {:induction false} CompletedForever(plans: Plans, source: Db, f: Family, s: System, steps: seq<Step>)
    requires Supported(source, f) && Inv(plans, source, f, s) && s.commits == 1
    ensures var t := Run(plans, s, steps); t.db == s.db && t.commits == 1 && Detect(t.db) == AlreadyHalo
  {
    hide Inv, Supported, Next, Detect;
    if steps == [] {
      CompletedIsRecognised(plans, source, f, s);
    } else {
      CompletedForever(plans, source, f, s, steps[..|steps| - 1]);
      RunKeepsInv(plans, source, f, s, steps[..|steps| - 1]);
      CompletedStep(plans, source, f, Run(plans, s, steps[..|steps| - 1]), steps[|steps| - 1]);
    }
  }

  lemma CompletedIsRecognised(plans: Plans, source: Db, f: Family, s: System)
    requires Inv(plans, source, f, s) && s.commits == 1
    ensures Detect(s.db) == AlreadyHalo
  {
    hide Target, Detect, IsTarget;
    TargetIsStamped(plans, source, f, s.db, plans(0));
  }

  /** Where a process can be that comes upon a completed migration. */
  predicate Served(pc: Proc) {
    pc.Idle? || pc.Locked? || pc.Halo? || pc == Over(Done) || pc == Over(Raised) || pc == Over(Crashed)
  }

  lemma ServedStays(plans: Plans, source: Db, f: Family, s: System, step: Step, p: nat)
    requires Detect(s.db) == AlreadyHalo && Served(At(s, p))
    ensures Served(At(Next(plans, s, step), p))
  {
    hide Detect, Post;
  }

  /** A later run is neither refused nor does it migrate. */
  lemma {:induction false} CompletedRunsServe(plans: Plans, source: Db, f: Family, s: System, steps: seq<Step>, p: nat)
    requires Supported(source, f) && Inv(plans, source, f, s) && s.commits == 1 && Served(At(s, p))
    ensures Served(At(Run(plans, s, steps), p))
  {
    hide Inv, Supported, Next, Served, Detect;
    if steps != [] {
      CompletedForever(plans, source, f, s, steps[..|steps| - 1]);
      CompletedRunsServe(plans, source, f, s, steps[..|steps| - 1], p);
      ServedStays(plans, source, f, Run(plans, s, steps[..|steps| - 1]), steps[|steps| - 1], p);
    }
  }

  /** Even if a later version restamps it: the seeded history still tells. */
  lemma RestampedIsRecognised(plans: Plans, source: Db, f: Family, s: System, alembic: Option<seq<string>>)
    requires Inv(plans, source, f, s) && s.commits == 1
    ensures Detect(s.db.(alembic := alembic)) == AlreadyHalo
  {
    hide Target, IsTarget;
    TargetIsStamped(plans, source, f, s.db, plans(0));
    OtherwiseIff(s.db.(alembic := alembic));
  }

  // ---------- a run that nothing disturbs ----------

  lemma RunSnoc(plans: Plans, s: System, steps: seq<Step>, step: Step)
    ensures Run(plans, s, steps + [step]) == Next(plans, Run(plans, s, steps), step)
  {
    assert (steps + [step])[..|steps + [step]| - 1] == steps;
  }

  function NextStage(stage: Stage): Stage {
    match stage
    case Opened => Migrated
    case Migrated => Seeded
    case Seeded => Stamped
    case Stamped => Posted
    case Posted => Recorded
    case Recorded => Recorded
  }

  /** If the target exists, so does everything on the way to it. */
  lemma TargetNeedsStages(plan: Plan, source: Db, f: Family, stage: Stage)
    requires Target(plan, source, f).Some?
    ensures Upto(plan, source, f, stage).Some?
  {
    hide Work;
  }

  /** Work does not fail on the way to a target that exists. */
  lemma WorkSucceeds(plan: Plan, source: Db, f: Family, backup: nat, stage: Stage, copy: Db, now: int)
    requires Target(plan, source, f).Some? && !stage.Recorded?
    requires SameButStates(copy, Upto(plan, source, f, stage).value)
    ensures Work(plan, f, backup, stage, copy, now).Some?
    ensures Work(plan, f, backup, stage, copy, now).value.0 == NextStage(stage)
  {
    hide Seed, StampHead, Post;
    if !stage.Posted? {
      TargetNeedsStages(plan, source, f, NextStage(stage));
      WorkIgnoresStates(plan, f, backup, stage, copy, Upto(plan, source, f, stage).value, now);
    }
  }

  /** One undisturbed advance of the transaction. */
  lemma CleanAdvance(plans: Plans, source: Db, f: Family, p: nat, s: System)
    requires ProcOk(plans, source, f, s, p) && Target(plans(p), source, f).Some?
    requires At(s, p).Working? && !At(s, p).stage.Recorded?
    ensures var pc := At(Next(plans, s, Step(p, Advance(true, 0))), p);
      pc.Working? && pc.stage == NextStage(At(s, p).stage)
  {
    hide Target, Work, Upto;
    var pc := At(s, p);
    WorkSucceeds(plans(p), source, f, pc.backup, pc.stage, pc.copy, 0);
  }

  /** Up to the committed `started` row. */
  lemma CleanStart(plans: Plans, source: Db, f: Family, p: nat) returns (steps: seq<Step>)
    requires Supported(source, f)
    ensures
      var s := Run(plans, Initial(source), steps);
      At(s, p).Working? && At(s, p).stage == Opened && StateRows(s.db) != []
  {
    hide Detect, Work, Run;
    var s0 := Initial(source);
    var look, check, backup, start :=
      Step(p, Look(true)), Step(p, Check(0)), Step(p, Backup(true, true)), Step(p, Start(true, 0));
    steps := [];
    NoSteps(plans, s0);
    RunSnoc(plans, s0, steps, Step(p, Acquire));
    steps := steps + [Step(p, Acquire)];
    RunSnoc(plans, s0, steps, look);
    steps := steps + [look];
    RunSnoc(plans, s0, steps, check);
    steps := steps + [check];
    RunSnoc(plans, s0, steps, backup);
    steps := steps + [backup];
    RunSnoc(plans, s0, steps, start);
    steps := steps + [start];
  }

  /** A crash right after the first commit leaves an attempt on record and nobody at work on it. */
  lemma CrashLeavesStuck(plans: Plans, source: Db, f: Family, p: nat) returns (steps: seq<Step>)
    requires Supported(source, f)
    ensures Stuck(source, Run(plans, Initial(source), steps))
  {
    hide Run, Supported, Stuck, CopyOk;
    var start := CleanStart(plans, source, f, p);
    var s := Run(plans, Initial(source), start);
    InitialInv(plans, source, f);
    RunKeepsInv(plans, source, f, Initial(source), start);
    assert ProcOk(plans, source, f, s, p);
    StepKeepsInv(plans, source, f, s, Step(p, Crash));
    RunSnoc(plans, Initial(source), start, Step(p, Crash));
    OnRecordIsStuck(plans, source, f, Next(plans, s, Step(p, Crash)));
    steps := start + [Step(p, Crash)];
  }

  lemma NoSteps(plans: Plans, s: System)
    ensures Run(plans, s, []) == s
  {
  }

  /** From any stage on to the commit. */
  lemma {:induction false} CleanRest(plans: Plans, source: Db, f: Family, p: nat, s: System) returns (steps: seq<Step>)
    requires Supported(source, f) && Inv(plans, source, f, s) && Target(plans(p), source, f).Some?
    requires At(s, p).Working?
    ensures var t := Run(plans, s, steps);
      At(t, p) == Over(Done) && t.commits == s.commits + 1 && IsTargetOf(plans(p), source, f, t.db)
    decreases 5 - StagesDone(At(s, p).stage)
  {
    hide Supported, Target, Upto, Run, Work, CopyOk, IsTargetOf;
    assert ProcOk(plans, source, f, s, p);
    if At(s, p).stage.Recorded? {
      RecordedIsTarget(plans(p), source, f, s, At(s, p).backup, At(s, p).copy);
      NoSteps(plans, s);
      RunSnoc(plans, s, [], Step(p, Commit(true)));
      steps := [] + [Step(p, Commit(true))];
    } else {
      var step := Step(p, Advance(true, 0));
      CleanAdvance(plans, source, f, p, s);
      StepKeepsInv(plans, source, f, s, step);
      var rest := CleanRest(plans, source, f, p, Next(plans, s, step));
      NoSteps(plans, s);
      RunSnoc(plans, s, [], step);
      RunConcat(plans, s, [] + [step], rest);
      steps := ([] + [step]) + rest;
    }
  }

  lemma RecordedIsTarget(plan: Plan, source: Db, f: Family, s: System, backup: nat, copy: Db)
    requires CopyOk(plan, source, f, s, backup, Recorded, copy)
    ensures IsTargetOf(plan, source, f, copy)
  {
    hide Then;
    assert Upto(plan, source, f, Recorded) == Target(plan, source, f);
  }

  lemma {:induction false} RunConcat(plans: Plans, s: System, a: seq<Step>, b: seq<Step>)
    ensures Run(plans, s, a + b) == Run(plans, Run(plans, s, a), b)
    decreases |b|
  {
    if b == [] {
      assert a + b == a;
    } else {
      var n := |b| - 1;
      assert (a + b)[..|a + b| - 1] == a + b[..n];
      RunConcat(plans, s, a, b[..n]);
    }
  }

  /** If a process can migrate the source at all and nothing disturbs it, it does. */
  lemma CleanRunMigrates(plans: Plans, source: Db, f: Family, p: nat) returns (steps: seq<Step>)
    requires Supported(source, f) && Migratable(plans(p), source, f)
    ensures var s := Run(plans, Initial(source), steps);
      At(s, p) == Over(Done) && s.commits == 1 && IsWhole(plans(p), source, f, s.db)
  {
    hide Supported, Target, Upto, Run, Work, Inv, IsWhole;
    MigratableIff(plans(p), source, f);
    var start := CleanStart(plans, source, f, p);
    InitialInv(plans, source, f);
    RunKeepsInv(plans, source, f, Initial(source), start);
    var rest := CleanRest(plans, source, f, p, Run(plans, Initial(source), start));
    RunConcat(plans, Initial(source), start, rest);
    steps := start + rest;
    AllOrNothing(plans, source, f, steps);
    TargetIsWhole(plans(p), source, f, Run(plans, Initial(source), steps).db);
  }
}
