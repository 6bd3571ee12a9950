/** `ensure_runtime_migrated` of backend/open_webui/runtime_migrations.py as one process runs it
  * over its connection.  Each run is a run of the protocol, step by step.
  */
module MigrationRun {
  import opened Wrappers
  import opened MigrationDetect
  import opened MigrationProtocol

  /** Which operations raise of themselves: false where one does. */
  datatype Works = Works(
    post: bool, backup: bool, manifest: bool, start: bool,
    migrate: bool, seed: bool, stamp: bool, dataMigrations: bool, record: bool, commit: bool, giveUp: bool
  )

  /** The inside of the transaction. */
  predicate TransformWorks(works: Works) {
    works.migrate && works.seed && works.stamp && works.dataMigrations && works.record
  }

  /** What the body of the `try` statement makes of a database: all of the migration and two state rows, or
    * nothing but a state row.
    */
  ghost predicate Tried(
    plan: Plan, f: Family, backup: nat, works: Works, now: int, before: Db, ok: bool, after: Db
  ) {
    var started, completed := StateRow(Started, f, backup, now), StateRow(Completed, f, backup, now);
    && (ok <==> works.start && TransformWorks(works) && works.commit && Migratable(plan, before, f))
    && (ok ==> IsWhole(plan, before, f, after) && StateRows(after) == StateRows(before) + [started, completed])
    && (!ok ==> SameButStates(after, before)
                && StateRows(after) == StateRows(before) + if works.start then [started] else [])
  }

  /** The `try` statement with its handler, which puts the failure on record. */
  ghost predicate Attempted(
    plan: Plan, f: Family, backup: nat, works: Works, now: int, before: Db, outcome: Outcome, after: Db
  ) {
    var started, completed := StateRow(Started, f, backup, now), StateRow(Completed, f, backup, now);
    var failed := StateRow(Failed, f, backup, now);
    var done := works.start && TransformWorks(works) && works.commit && Migratable(plan, before, f);
    && outcome == (if done then Done else if works.giveUp then GaveUp else Raised)
    && (done ==> IsWhole(plan, before, f, after) && StateRows(after) == StateRows(before) + [started, completed])
    && (!done ==> SameButStates(after, before)
                  && StateRows(after) == StateRows(before) + (if works.start then [started] else [])
                                         + if works.giveUp then [failed] else [])
  }

  /** From the check for an earlier attempt on: refused if its latest row does not say completed, and
    * otherwise attempted behind a backup of the database as it was.
    */
  ghost predicate MigrationEnds(
    plan: Plan, f: Family, latest: nat, works: Works, now: int,
    before: Db, saved: seq<Db>, outcome: Outcome, after: Db, backups: seq<Db>
  )
    requires StateRows(before) != [] ==> latest < |StateRows(before)|
  {
    if StateRows(before) != [] && StateRows(before)[latest].status != Completed then
      outcome == Refused && after == before && backups == saved
    else if !works.backup then
      outcome == Raised && after == before && backups == saved
    else
      && backups == saved + [before]
      && if works.manifest then Attempted(plan, f, |saved|, works, now, before, outcome, after)
         else outcome == Raised && after == before
  }

  /** With nothing to migrate: the data migrations still missing are made up for, or nothing is written. */
  ghost predicate FinishEnds(plan: Plan, works: bool, before: Db, outcome: Outcome, after: Db) {
    var keys := KeysOf(before);
    && outcome == (if works && exists s :: DataMigrated(plan, keys, before.schema, s) then Done else Raised)
    && (outcome == Done ==>
          && DataMigrated(plan, keys, before.schema, after.schema)
          && after == before.(schema := after.schema, dataMigrations := Some(keys + {BACKFILL_KEY, CLEANUP_KEY})))
    && (outcome == Raised ==> after == before)
  }

  /** Every case of `ensure_runtime_migrated`. */
  ghost predicate RunEnds(
    plan: Plan, auto: bool, latest: nat, works: Works, now: int,
    before: Db, saved: seq<Db>, outcome: Outcome, after: Db, backups: seq<Db>
  )
    requires StateRows(before) != [] ==> latest < |StateRows(before)|
  {
    match Detect(before)
    case Fresh => FinishEnds(plan, works.post, before, outcome, after) && backups == saved
    case AlreadyHalo => FinishEnds(plan, works.post, before, outcome, after) && backups == saved
    case Unknown => outcome == Refused && after == before && backups == saved
    case Source(f) =>
      if auto then MigrationEnds(plan, f, latest, works, now, before, saved, outcome, after, backups)
      else outcome == Refused && after == before && backups == saved
  }

  class Connection {
    /** What is committed, and what the open transaction sees. */
    var committed: Db
    var work: Db
    var backups: seq<Db>

    constructor (db: Db)
      ensures committed == work == db && backups == []
    {
      committed, work, backups := db, db, [];
    }

    method Commit()
      modifies `committed
      ensures committed == work
    {
      committed := work;
    }

    method Rollback()
      modifies `work
      ensures work == committed
    {
      work := committed;
    }

    /** `_write_state` */
    method WriteState(status: Status, f: Family, backup: nat, now: int)
      modifies `work
      ensures work == AddState(old(work), StateRow(status, f, backup, now))
    {
      if work.states.None? {
        work := work.(states := Some([]));
      }
      work := work.(states := Some(work.states.value + [StateRow(status, f, backup, now)]));
    }

    /** `_ensure_no_incomplete_state`; `latest` is the row the query returns. */
    method EnsureNoIncompleteState(latest: nat) returns (ok: bool)
      requires StateRows(work) != [] ==> IsLatest(StateRows(work), latest)
      ensures ok <==> StateRows(work) == [] || StateRows(work)[latest].status == Completed
    {
      if work.states.None? || work.states.value == [] {
        return true;
      }
      return work.states.value[latest].status == Completed;
    }

    /** `_run_post_halo_data_migrations` */
    method RunPostHaloDataMigrations(plan: Plan) returns (ok: bool)
      modifies `work
      ensures ok <==> Post(plan, old(work)).Some?
      ensures ok ==> work == Post(plan, old(work)).value
      ensures ok <==> exists after :: DataMigrated(plan, KeysOf(old(work)), old(work).schema, after)
      ensures ok ==> DataMigrated(plan, KeysOf(old(work)), old(work).schema, work.schema)
      ensures ok ==> work == old(work).(
        schema := work.schema, dataMigrations := Some(KeysOf(old(work)) + {BACKFILL_KEY, CLEANUP_KEY}))
    {
      PostHolds(plan, work);
      if work.dataMigrations.None? {
        work := work.(dataMigrations := Some({}));
      }
      if BACKFILL_KEY !in work.dataMigrations.value {
        var schema := plan.backfill(work.schema);
        if schema.None? {
          return false;
        }
        work := work.(schema := schema.value, dataMigrations := Some(work.dataMigrations.value + {BACKFILL_KEY}));
      }
      if CLEANUP_KEY !in work.dataMigrations.value {
        var schema := plan.cleanup(work.schema);
        if schema.None? {
          return false;
        }
        work := work.(schema := schema.value, dataMigrations := Some(work.dataMigrations.value + {CLEANUP_KEY}));
      }
      assert work.dataMigrations.value == KeysOf(old(work)) + {BACKFILL_KEY, CLEANUP_KEY};
      ok := true;
    }

    /** `_stamp_halo_head` */
    method StampHaloHead() returns (ok: bool)
      modifies `work
      ensures ok <==> StampHead(old(work).alembic).Some?
      ensures ok ==> work == old(work).(alembic := StampHead(old(work).alembic))
    {
      if work.alembic.None? || work.alembic.value == [] {
        work := work.(alembic := Some([HALO_TARGET_HEAD]));
        return true;
      }
      // every row is set to the same version, which is the primary key
      ok := |work.alembic.value| == 1;
      if ok {
        work := work.(alembic := Some([HALO_TARGET_HEAD]));
      }
    }

    /** The transaction between the two commits, as far as the version row. */
    method RewriteAndStamp(
      plan: Plan, ghost plans: Plans, p: nat, f: Family, backup: nat, works: Works, now: int, ghost s: System
    )
      returns (ok: bool, ghost steps: seq<Step>)
      requires plans(p) == plan && At(s, p) == Working(f, backup, Opened, work)
      modifies `work
      ensures Run(plans, s, steps) == Goto(s, p, if ok then Working(f, backup, Stamped, work) else Failing(f, backup))
      ensures OnlyBy(steps, p)
      ensures ok <==> works.migrate && works.seed && works.stamp && Upto(plan, old(work), f, Stamped).Some?
      ensures ok ==> Some(work) == Upto(plan, old(work), f, Stamped)
    {
      hide Seed, StampHead, Post, Run, Goto, At;
      Stages(plan, work, f);
      var migrated := plan.migrate(f, work.schema);
      steps := Take(plans, s, [], p, f, backup, Opened, work, works.migrate, now);
      if migrated.None? || !works.migrate {
        return false, steps;
      }
      work := work.(schema := migrated.value);
      var history := SeedMigratehistory(work.history);
      steps := Take(plans, s, steps, p, f, backup, Migrated, work, works.seed, now);
      if history.None? || !works.seed {
        return false, steps;
      }
      work := work.(history := history);
      steps := Take(plans, s, steps, p, f, backup, Seeded, work, works.stamp, now);
      ok := StampHaloHead();
      ok := ok && works.stamp;
    }

    /** All of the transaction, as far as it gets. */
    method Transform(
      plan: Plan, ghost plans: Plans, p: nat, f: Family, backup: nat, works: Works, now: int, ghost s: System
    )
      returns (ok: bool, ghost steps: seq<Step>)
      requires plans(p) == plan && At(s, p) == Working(f, backup, Opened, work)
      modifies `work
      ensures Run(plans, s, steps) == Goto(s, p, if ok then Working(f, backup, Recorded, work) else Failing(f, backup))
      ensures OnlyBy(steps, p)
      ensures ok <==> TransformWorks(works) && Migratable(plan, old(work), f)
      ensures ok ==> IsWhole(plan, old(work), f, work)
      ensures ok ==> StateRows(work) == StateRows(old(work)) + [StateRow(Completed, f, backup, now)]
    {
      hide Post, Run, Goto, At, Migratable, IsWhole, Upto, Seed, StampHead;
      ghost var before := work;
      Stages(plan, before, f);
      ok, steps := RewriteAndStamp(plan, plans, p, f, backup, works, now, s);
      if !ok {
        return;
      }
      steps := Take(plans, s, steps, p, f, backup, Stamped, work, works.dataMigrations, now);
      ok := RunPostHaloDataMigrations(plan);
      if !ok || !works.dataMigrations {
        return false, steps;
      }
      steps := Take(plans, s, steps, p, f, backup, Posted, work, works.record, now);
      if !works.record {
        return false, steps;
      }
      WriteState(Completed, f, backup, now);
      TargetIsWhole(plan, before, f, work);
    }

    /** The `except` branch: what is not committed is dropped, and the failure put on record. */
    method GiveUpOn(ghost plans: Plans, p: nat, f: Family, backup: nat, works: bool, now: int, ghost s: System)
      returns (outcome: Outcome, ghost last: Step)
      requires s.db == committed && s.backups == backups && At(s, p) == Failing(f, backup)
      modifies `committed, `work
      ensures last == Step(p, GiveUp(works, now)) && Ends(Next(plans, s, last), p, outcome, committed, backups)
      ensures outcome == if works then GaveUp else Raised
      ensures SameButStates(committed, old(committed))
      ensures StateRows(committed)
              == StateRows(old(committed)) + if works then [StateRow(Failed, f, backup, now)] else []
    {
      last := Step(p, GiveUp(works, now));
      Rollback();
      if !works {
        return Raised, last;
      }
      WriteState(Failed, f, backup, now);
      Commit();
      outcome := GaveUp;
    }

    /** The body of the `try` statement; false where it raises. */
    method Try(
      plan: Plan, ghost plans: Plans, p: nat, f: Family, backup: nat, works: Works, now: int, ghost s: System
    )
      returns (ok: bool, ghost steps: seq<Step>)
      requires plans(p) == plan && s.db == committed == work && s.backups == backups && At(s, p) == Saved(f, backup)
      modifies `committed, `work
      ensures var t := Run(plans, s, steps);
        t.db == committed && t.backups == backups && if ok then Ends(t, p, Done, committed, backups)
                                                     else At(t, p) == Failing(f, backup)
      ensures OnlyBy(steps, p)
      ensures Tried(plan, f, backup, works, now, old(committed), ok, committed)
    {
      hide Work, Run, OnlyBy, Migratable, IsWhole;
      OnlyByOne(Step(p, Start(works.start, now)), p);
      OnlyByOne(Step(p, MigrationProtocol.Commit(works.commit)), p);
      NoSteps(plans, s);
      RunSnoc(plans, s, [], Step(p, Start(works.start, now)));
      steps := [] + [Step(p, Start(works.start, now))];
      if !works.start {
        return false, steps;
      }
      WriteState(Started, f, backup, now);
      Commit();
      StatesDoNotMatter(plan, old(committed), f, committed);
      ghost var before, more := steps, [];
      ok, more := Transform(plan, plans, p, f, backup, works, now, Run(plans, s, before));
      RunConcat(plans, s, before, more);
      OnlyByConcat(before, more, p);
      steps := before + more;
      if !ok {
        return;
      }
      RunSnoc(plans, s, steps, Step(p, MigrationProtocol.Commit(works.commit)));
      OnlyByConcat(steps, [Step(p, MigrationProtocol.Commit(works.commit))], p);
      steps := steps + [Step(p, MigrationProtocol.Commit(works.commit))];
      ok := works.commit;
      if ok {
        Commit();
      }
    }

    /** The `try` statement, exception handler included. */
    method Attempt(
      plan: Plan, ghost plans: Plans, p: nat, f: Family, backup: nat, works: Works, now: int, ghost s: System
    )
      returns (outcome: Outcome, ghost steps: seq<Step>)
      requires plans(p) == plan && s.db == committed == work && s.backups == backups && At(s, p) == Saved(f, backup)
      modifies `committed, `work
      ensures Ends(Run(plans, s, steps), p, outcome, committed, backups) && OnlyBy(steps, p)
      ensures outcome != Crashed
      ensures Attempted(plan, f, backup, works, now, old(committed), outcome, committed)
    {
      hide Run, OnlyBy, Migratable, IsWhole;
      var ok;
      ok, steps := Try(plan, plans, p, f, backup, works, now, s);
      if ok {
        return Done, steps;
      }
      ghost var last;
      outcome, last := GiveUpOn(plans, p, f, backup, works.giveUp, now, Run(plans, s, steps));
      RunSnoc(plans, s, steps, last);
      OnlyByOne(last, p);
      OnlyByConcat(steps, [last], p);
      steps := steps + [last];
    }

    /** From the check for an earlier attempt to the end. */
    method Migrate(
      plan: Plan, ghost plans: Plans, p: nat, f: Family, latest: nat, works: Works, now: int, ghost s: System
    )
      returns (outcome: Outcome, ghost steps: seq<Step>)
      requires plans(p) == plan && s.db == committed == work && s.backups == backups && At(s, p) == Found(f)
      requires StateRows(work) != [] ==> IsLatest(StateRows(work), latest)
      modifies this
      ensures Ends(Run(plans, s, steps), p, outcome, committed, backups) && OnlyBy(steps, p)
      ensures outcome != Crashed
      ensures MigrationEnds(plan, f, latest, works, now, old(committed), old(backups), outcome, committed, backups)
    {
      hide Work, Run, Attempted;
      NoSteps(plans, s);
      var clear := EnsureNoIncompleteState(latest);
      RunSnoc(plans, s, [], Step(p, Check(latest)));
      steps := [] + [Step(p, Check(latest))];
      if !clear {
        return Refused, steps;
      }
      RunSnoc(plans, s, steps, Step(p, Backup(works.backup, works.manifest)));
      steps := steps + [Step(p, Backup(works.backup, works.manifest))];
      if !works.backup {
        return Raised, steps;
      }
      var backup := |backups|;
      backups := backups + [committed];
      if !works.manifest {
        return Raised, steps;
      }
      ghost var before, more := steps, [];
      outcome, more := Attempt(plan, plans, p, f, backup, works, now, Run(plans, s, before));
      RunConcat(plans, s, before, more);
      steps := before + more;
    }

    /** What `ensure_runtime_migrated` does once it holds the lock. */
    method UnderLock(
      plan: Plan, ghost plans: Plans, p: nat, auto: bool, latest: nat, works: Works, now: int, ghost s: System
    )
      returns (outcome: Outcome, ghost steps: seq<Step>)
      requires plans(p) == plan && s.db == committed == work && s.backups == backups && s.lock.None? && At(s, p).Idle?
      requires StateRows(work) != [] ==> IsLatest(StateRows(work), latest)
      modifies this
      ensures Ends(Run(plans, s, steps), p, outcome, committed, backups) && OnlyBy(steps, p)
      ensures outcome != Crashed
      ensures RunEnds(plan, auto, latest, works, now, old(committed), old(backups), outcome, committed, backups)
    {
      hide Detect, Run, MigrationEnds, FinishEnds;
      NoSteps(plans, s);
      RunSnoc(plans, s, [], Step(p, Acquire));
      steps := [] + [Step(p, Acquire)];
      var detection := Detect(work);
      RunSnoc(plans, s, steps, Step(p, Look(auto)));
      steps := steps + [Step(p, Look(auto))];
      match detection {
        case Fresh =>
          ghost var last;
          outcome, last := FinishHalo(plan, plans, p, works.post, Run(plans, s, steps));
          RunSnoc(plans, s, steps, last);
          steps := steps + [last];
        case AlreadyHalo =>
          ghost var last;
          outcome, last := FinishHalo(plan, plans, p, works.post, Run(plans, s, steps));
          RunSnoc(plans, s, steps, last);
          steps := steps + [last];
        case Unknown =>
          outcome := Refused;
        case Source(f) =>
          if !auto {
            outcome := Refused;
          } else {
            ghost var before, more := steps, [];
            outcome, more := Migrate(plan, plans, p, f, latest, works, now, Run(plans, s, before));
            RunConcat(plans, s, before, more);
            steps := before + more;
          }
      }
    }

    /** `ensure_runtime_migrated`.  The protocol has a run in which this process does the same to the
      * database and the backups, and comes to the same end.  After an attempt that was left on record the
      * process refuses and writes nothing; after a completed migration it serves and changes nothing.
      */
    method EnsureRuntimeMigrated(
      plan: Plan, ghost plans: Plans, p: nat, auto: bool, latest: nat, works: Works, now: int, ghost s: System
    )
      returns (outcome: Outcome, ghost steps: seq<Step>)
      requires plans(p) == plan && s.db == committed == work && s.backups == backups && s.lock.None? && At(s, p).Idle?
      requires StateRows(work) != [] ==> IsLatest(StateRows(work), latest)
      modifies this
      ensures Ends(Run(plans, s, steps), p, outcome, committed, backups) && OnlyBy(steps, p)
      ensures RunEnds(plan, auto, latest, works, now, old(committed), old(backups), outcome, committed, backups)
      ensures forall source, f :: Supported(source, f) && Stuck(source, s) ==>
                outcome == Refused && committed == old(committed)
      ensures forall source, f :: Supported(source, f) && Inv(plans, source, f, s) && s.commits == 1 ==>
                (outcome == Done || outcome == Raised) && committed == old(committed)
    {
      hide Stuck, Supported, Inv, Run, RunEnds;
      outcome, steps := UnderLock(plan, plans, p, auto, latest, works, now, s);
      forall source, f | Supported(source, f) && Stuck(source, s)
        ensures outcome == Refused && committed == old(committed)
      {
        StuckForever(plans, source, f, s, steps);
        StuckRunsRefuse(plans, source, f, s, steps, p);
      }
      forall source, f | Supported(source, f) && Inv(plans, source, f, s) && s.commits == 1
        ensures (outcome == Done || outcome == Raised) && committed == old(committed)
      {
        CompletedForever(plans, source, f, s, steps);
        CompletedRunsServe(plans, source, f, s, steps, p);
      }
    }

    method FinishHalo(plan: Plan, ghost plans: Plans, p: nat, works: bool, ghost s: System)
      returns (outcome: Outcome, ghost last: Step)
      requires plans(p) == plan && s.db == committed == work && s.backups == backups && At(s, p) == Halo
      modifies `committed, `work
      ensures last == Step(p, Finish(works)) && Ends(Next(plans, s, last), p, outcome, committed, backups)
      ensures outcome != Crashed
      ensures FinishEnds(plan, works, old(committed), outcome, committed)
    {
      hide Post;
      last := Step(p, Finish(works));
      var ok := RunPostHaloDataMigrations(plan);
      if ok && works {
        Commit();
        return Done, last;
      }
      outcome := Raised;
    }
  }

  ghost predicate Ends(t: System, p: nat, outcome: Outcome, committed: Db, backups: seq<Db>) {
    At(t, p) == Over(outcome) && t.lock.None? && t.db == committed && t.backups == backups
  }

  predicate OnlyBy(steps: seq<Step>, p: nat) {
    forall i :: 0 <= i < |steps| ==> steps[i].p == p
  }

  lemma OnlyByOne(step: Step, p: nat)
    requires step.p == p
    ensures OnlyBy([] + [step], p) && OnlyBy([step], p)
  {
  }

  lemma OnlyByConcat(a: seq<Step>, b: seq<Step>, p: nat)
    requires OnlyBy(a, p) && OnlyBy(b, p)
    ensures OnlyBy(a + b, p)
  {
  }

  /** The pieces of work, one after the other. */
  lemma Stages(plan: Plan, before: Db, f: Family)
    ensures Migratable(plan, before, f) <==> Target(plan, before, f).Some?
    ensures Target(plan, before, f) == Then(plan, f, Stamped, Upto(plan, before, f, Stamped))
    ensures Upto(plan, before, f, Stamped)
            == Then(plan, f, Seeded, Then(plan, f, Migrated, Then(plan, f, Opened, Some(before))))
    ensures Upto(plan, before, f, Stamped).Some? ==> Upto(plan, before, f, Stamped).value.states == before.states
  {
    hide Seed, StampHead, Post;
    MigratableIff(plan, before, f);
  }

  /** The protocol's side of one piece of work. */
  ghost method Take(
    plans: Plans, s: System, steps: seq<Step>, p: nat,
    f: Family, backup: nat, stage: Stage, copy: Db, ok: bool, now: int
  )
    returns (more: seq<Step>)
    requires OnlyBy(steps, p) && !stage.Recorded?
    requires Run(plans, s, steps) == Goto(s, p, Working(f, backup, stage, copy))
             || (steps == [] && At(s, p) == Working(f, backup, stage, copy))
    ensures OnlyBy(more, p)
    ensures var worked := Work(plans(p), f, backup, stage, copy, now);
      Run(plans, s, more)
      == Goto(s, p, if ok && worked.Some?
                    then Working(f, backup, worked.value.0, worked.value.1) else Failing(f, backup))
  {
    hide Work;
    NoSteps(plans, s);
    RunSnoc(plans, s, steps, Step(p, Advance(ok, now)));
    more := steps + [Step(p, Advance(ok, now))];
  }
}
