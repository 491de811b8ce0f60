/** The migration runner: which files one run applies, and what a stopped or repeated run does. */
module Migrate {
  import opened Wrappers

  const CONSOLIDATED := "00000000_consolidated_schema.sql"
  const PREFIX := "legacy_"

  function Legacy(filename: string): string {
    PREFIX + filename
  }

  predicate IsLegacy(filename: string) {
    PREFIX <= filename
  }

  /** The database: the names in `schema_migrations`, and everything else. */
  datatype Db<S> = Db(recorded: set<string>, schema: S)

  /** What the SQL of a file does to the database; `None` when it raises an error. It may add names to the
      tracking table itself. */
  type Effect<!S> = (string, Db<S>) -> Option<Db<S>>

  /** One transaction: the SQL and the insertion of the file's own name, which is a primary key. */
  function Apply<S>(effect: Effect<S>, filename: string, db: Db<S>): Option<Db<S>> {
    match effect(filename, db)
    case None => None
    case Some(after) =>
      if filename in after.recorded then None else Some(after.(recorded := after.recorded + {filename}))
  }

  /** Recorded names, and the names under which renamed files would be recorded. */
  function Augmented(recorded: set<string>): set<string> {
    recorded + set f | f in recorded :: Legacy(f)
  }

  predicate HasPreRenameEntries(recorded: set<string>, files: seq<string>) {
    exists f :: f in files && IsLegacy(f) && f[|PREFIX|..] in recorded
  }

  predicate StartsConsolidated(recorded: set<string>, files: seq<string>) {
    CONSOLIDATED in recorded || HasPreRenameEntries(recorded, files)
  }

  /** A run in progress, with the files it has applied so far. */
  datatype Run<S> = Run(db: Db<S>, effective: set<string>, consolidated: bool, applied: seq<string>)

  function Start<S>(db: Db<S>, files: seq<string>): Run<S> {
    Run(db, Augmented(db.recorded), StartsConsolidated(db.recorded, files), [])
  }

  predicate Skips<S>(run: Run<S>, filename: string) {
    filename in run.effective || (run.consolidated && IsLegacy(filename))
  }

  /** The run after one file; `None` when the file fails and is rolled back. */
  function Step<S>(effect: Effect<S>, run: Run<S>, filename: string): Option<Run<S>> {
    if Skips(run, filename) then Some(run)
    else
      match Apply(effect, filename, run.db)
      case None => None
      case Some(db) =>
        Some(Run(db, run.effective + Augmented(db.recorded), run.consolidated || filename == CONSOLIDATED,
                 run.applied + [filename]))
  }

  datatype Outcome<S> = Completed(run: Run<S>) | Failed(run: Run<S>)

  function RunFrom<S>(effect: Effect<S>, run: Run<S>, files: seq<string>): Outcome<S>
    decreases |files|
  {
    if files == [] then Completed(run)
    else
      match Step(effect, run, files[0])
      case None => Failed(run)
      case Some(next) => RunFrom(effect, next, files[1..])
  }

  function Migration<S>(effect: Effect<S>, db: Db<S>, files: seq<string>): Outcome<S> {
    RunFrom(effect, Start(db, files), files)
  }

  // -- The runner ----------------------------------------------------------------------------------

  class Client<S> {
    var db: Db<S>

    constructor (db: Db<S>)
      ensures this.db == db
    {
      this.db := db;
    }

    /** BEGIN, the SQL, the insertion, COMMIT; or ROLLBACK. */
    method ApplyFile(effect: Effect<S>, filename: string) returns (ok: bool)
      modifies this
      ensures ok <==> Apply(effect, filename, old(db)).Some?
      ensures db == if ok then Apply(effect, filename, old(db)).value else old(db)
    {
      var before := db;
      var after := effect(filename, db);
      if after.None? {
        return false;
      }
      db := after.value;
      if filename in db.recorded {
        db := before;
        return false;
      }
      db := db.(recorded := db.recorded + {filename});
      return true;
    }

    method RunMigrations(effect: Effect<S>, files: seq<string>) returns (applied: seq<string>, completed: bool)
      modifies this
      ensures var outcome := Migration(effect, old(db), files);
        && completed == outcome.Completed?
        && db == outcome.run.db
        && applied == outcome.run.applied
    {
      ghost var outcome := Migration(effect, db, files);
      var effectivelyApplied := Augmented(db.recorded);
      var consolidatedApplied := StartsConsolidated(db.recorded, files);
      applied := [];
      for k := 0 to |files|
        invariant RunFrom(effect, Run(db, effectivelyApplied, consolidatedApplied, applied), files[k..]) == outcome
      {
        assert files[k..][1..] == files[k + 1..];
        if files[k] in effectivelyApplied {
          continue;
        }
        if consolidatedApplied && IsLegacy(files[k]) {
          continue;
        }
        var ok := ApplyFile(effect, files[k]);
        if !ok {
          return applied, false;
        }
        applied := applied + [files[k]];
        if files[k] == CONSOLIDATED {
          consolidatedApplied := true;
        }
        effectivelyApplied := effectivelyApplied + Augmented(db.recorded);
      }
      completed := true;
    }
  }

  // -- What a run keeps ----------------------------------------------------------------------------

  /** No migration removes tracking rows. */
  ghost predicate OnlyAdds<S(!new)>(effect: Effect<S>) {
    forall f, db :: effect(f, db).Some? ==> db.recorded <= effect(f, db).value.recorded
  }

  lemma AugmentedIsMonotonic(a: set<string>, b: set<string>)
    requires a <= b
    ensures Augmented(a) <= Augmented(b)
  {
  }

  /** The effective set is always the augmented table, so refreshing it after a file loses nothing. */
  lemma StepKeepsEffective<S(!new)>(effect: Effect<S>, run: Run<S>, filename: string)
    requires OnlyAdds(effect) && run.effective == Augmented(run.db.recorded)
    requires Step(effect, run, filename).Some?
    ensures var next := Step(effect, run, filename).value;
      && next.effective == Augmented(next.db.recorded)
      && run.db.recorded <= next.db.recorded
      && (run.consolidated ==> next.consolidated)
  {
    var next := Step(effect, run, filename).value;
    if next != run {
      AugmentedIsMonotonic(run.db.recorded, next.db.recorded);
    }
  }

  /** The flag is justified by the table: a fresh run would start with it. */
  predicate FlagIsRecorded<S>(run: Run<S>, files: seq<string>) {
    run.consolidated ==> StartsConsolidated(run.db.recorded, files)
  }

  ghost predicate Sane<S>(run: Run<S>, files: seq<string>) {
    run.effective == Augmented(run.db.recorded) && FlagIsRecorded(run, files)
  }

  lemma StartIsSane<S>(db: Db<S>, files: seq<string>)
    ensures Sane(Start(db, files), files)
  {
  }

  lemma StepKeepsSane<S(!new)>(effect: Effect<S>, run: Run<S>, filename: string, files: seq<string>)
    requires OnlyAdds(effect) && Sane(run, files) && Step(effect, run, filename).Some?
    ensures Sane(Step(effect, run, filename).value, files)
    ensures run.db.recorded <= Step(effect, run, filename).value.db.recorded
  {
    StepKeepsEffective(effect, run, filename);
  }

  lemma {:induction false} RunKeepsSane<S(!new)>(effect: Effect<S>, run: Run<S>, todo: seq<string>, files: seq<string>)
    requires OnlyAdds(effect) && Sane(run, files)
    ensures var last := RunFrom(effect, run, todo).run;
      Sane(last, files) && run.db.recorded <= last.db.recorded
    decreases |todo|
  {
    if todo != [] && Step(effect, run, todo[0]).Some? {
      StepKeepsSane(effect, run, todo[0], files);
      RunKeepsSane(effect, Step(effect, run, todo[0]).value, todo[1..], files);
    }
  }

  // -- A completed run is final --------------------------------------------------------------------

  /** A run that starts from `recorded` would skip the file. */
  predicate Settled(filename: string, recorded: set<string>, files: seq<string>) {
    filename in Augmented(recorded) || (StartsConsolidated(recorded, files) && IsLegacy(filename))
  }

  lemma SettledForGood(filename: string, a: set<string>, b: set<string>, files: seq<string>)
    requires a <= b && Settled(filename, a, files)
    ensures Settled(filename, b, files)
  {
    AugmentedIsMonotonic(a, b);
  }

  lemma StepSettles<S(!new)>(effect: Effect<S>, run: Run<S>, filename: string, files: seq<string>)
    requires OnlyAdds(effect) && Sane(run, files) && Step(effect, run, filename).Some?
    ensures Settled(filename, Step(effect, run, filename).value.db.recorded, files)
  {
  }

  lemma {:induction false} RunSettles<S(!new)>(effect: Effect<S>, run: Run<S>, todo: seq<string>, files: seq<string>)
    requires OnlyAdds(effect) && Sane(run, files) && RunFrom(effect, run, todo).Completed?
    ensures forall f :: f in todo ==> Settled(f, RunFrom(effect, run, todo).run.db.recorded, files)
    decreases |todo|
  {
    if todo != [] {
      var next := Step(effect, run, todo[0]).value;
      StepKeepsSane(effect, run, todo[0], files);
      StepSettles(effect, run, todo[0], files);
      RunSettles(effect, next, todo[1..], files);
      RunKeepsSane(effect, next, todo[1..], files);
      SettledForGood(todo[0], next.db.recorded, RunFrom(effect, run, todo).run.db.recorded, files);
    }
  }

  lemma {:induction false} SettledFilesAreSkipped<S>(effect: Effect<S>, db: Db<S>, todo: seq<string>, files: seq<string>)
    requires forall f :: f in todo ==> Settled(f, db.recorded, files)
    ensures RunFrom(effect, Start(db, files), todo) == Completed(Start(db, files))
    decreases |todo|
  {
    if todo != [] {
      assert Settled(todo[0], db.recorded, files);
      SettledFilesAreSkipped(effect, db, todo[1..], files);
    }
  }

  /** After a completed run, a second one applies nothing and changes nothing, whatever the SQL would do. */
  lemma CompletedRunIsIdempotent<S(!new)>(effect: Effect<S>, again: Effect<S>, db: Db<S>, files: seq<string>)
    requires OnlyAdds(effect) && Migration(effect, db, files).Completed?
    ensures var final := Migration(effect, db, files).run.db;
      && Migration(again, final, files) == Completed(Start(final, files))
      && Start(final, files).applied == []
  {
    StartIsSane(db, files);
    RunSettles(effect, Start(db, files), files, files);
    SettledFilesAreSkipped(again, Migration(effect, db, files).run.db, files, files);
  }

  /** A completed run leaves every file recorded that is not a legacy file. */
  lemma CompletedRunRecordsFiles<S(!new)>(effect: Effect<S>, db: Db<S>, files: seq<string>)
    requires OnlyAdds(effect) && Migration(effect, db, files).Completed?
    ensures forall f :: f in files && !IsLegacy(f) ==> f in Migration(effect, db, files).run.db.recorded
  {
    StartIsSane(db, files);
    RunSettles(effect, Start(db, files), files, files);
  }

  // -- Legacy files --------------------------------------------------------------------------------

  /** `Array.prototype.sort` on strings: by code units. */
  predicate Less(a: string, b: string)
    decreases |a|
  {
    b != [] && (a == [] || a[0] < b[0] || (a[0] == b[0] && Less(a[1..], b[1..])))
  }

  ghost predicate SortedFiles(files: seq<string>) {
    forall i, j :: 0 <= i < j < |files| ==> Less(files[i], files[j])
  }

  lemma LegacyComesLater(filename: string)
    requires IsLegacy(filename)
    ensures !Less(filename, CONSOLIDATED) && filename != CONSOLIDATED
  {
    assert filename[0] == PREFIX[0] == 'l';
  }

  predicate NoLegacy(files: seq<string>) {
    forall f :: f in files ==> !IsLegacy(f)
  }

  lemma {:induction false} ConsolidatedRunAppliesNoLegacy<S>(effect: Effect<S>, run: Run<S>, todo: seq<string>)
    requires run.consolidated && NoLegacy(run.applied)
    ensures NoLegacy(RunFrom(effect, run, todo).run.applied)
    decreases |todo|
  {
    if todo != [] && Step(effect, run, todo[0]).Some? {
      ConsolidatedRunAppliesNoLegacy(effect, Step(effect, run, todo[0]).value, todo[1..]);
    }
  }

  lemma {:induction false} AppliedGrows<S>(effect: Effect<S>, run: Run<S>, todo: seq<string>)
    ensures run.applied <= RunFrom(effect, run, todo).run.applied
    ensures forall f :: f in RunFrom(effect, run, todo).run.applied ==> f in run.applied || f in todo
    decreases |todo|
  {
    if todo != [] && Step(effect, run, todo[0]).Some? {
      AppliedGrows(effect, Step(effect, run, todo[0]).value, todo[1..]);
    }
  }

  lemma FirstIsNotLegacy(files: seq<string>)
    requires SortedFiles(files) && CONSOLIDATED in files
    ensures !IsLegacy(files[0])
  {
    var k :| 0 <= k < |files| && files[k] == CONSOLIDATED;
    if k == 0 {
      assert !IsLegacy(CONSOLIDATED);
    } else {
      assert Less(files[0], CONSOLIDATED);
      if IsLegacy(files[0]) {
        LegacyComesLater(files[0]);
      }
    }
  }

  lemma {:induction false} LegacyWaitsForConsolidated<S>(effect: Effect<S>, run: Run<S>, todo: seq<string>)
    requires SortedFiles(todo) && NoLegacy(run.applied) && CONSOLIDATED !in run.applied
    requires CONSOLIDATED in RunFrom(effect, run, todo).run.applied
    ensures NoLegacy(RunFrom(effect, run, todo).run.applied)
    decreases |todo|
  {
    AppliedGrows(effect, run, todo);
    if todo != [] && Step(effect, run, todo[0]).Some? {
      var next := Step(effect, run, todo[0]).value;
      if next.consolidated {
        assert !IsLegacy(CONSOLIDATED);
        ConsolidatedRunAppliesNoLegacy(effect, next, todo[1..]);
      } else {
        FirstIsNotLegacy(todo);
        LegacyWaitsForConsolidated(effect, next, todo[1..]);
      }
    }
  }

  /** Once a run applies the consolidated schema, it applies no legacy file at all, before or after,
      whether or not it completes. */
  lemma NoLegacyWithConsolidated<S>(effect: Effect<S>, db: Db<S>, files: seq<string>)
    requires SortedFiles(files)
    requires CONSOLIDATED in Migration(effect, db, files).run.applied
    ensures NoLegacy(Migration(effect, db, files).run.applied)
  {
    LegacyWaitsForConsolidated(effect, Start(db, files), files);
  }

  // -- Stopped and resumed runs --------------------------------------------------------------------

  lemma {:induction false} RunSplits<S>(effect: Effect<S>, run: Run<S>, a: seq<string>, b: seq<string>)
    ensures RunFrom(effect, run, a + b)
         == match RunFrom(effect, run, a)
            case Completed(middle) => RunFrom(effect, middle, b)
            case Failed(last) => Failed(last)
    decreases |a|
  {
    if a == [] {
      assert a + b == b;
    } else {
      assert (a + b)[1..] == a[1..] + b;
      if Step(effect, run, a[0]).Some? {
        RunSplits(effect, Step(effect, run, a[0]).value, a[1..], b);
      }
    }
  }

  /** The same outcome with another list of earlier files in front of the applied ones. */
  function Rebased<S>(outcome: Outcome<S>, before: seq<string>, instead: seq<string>): Outcome<S>
    requires before <= outcome.run.applied
  {
    var applied := instead + outcome.run.applied[|before|..];
    match outcome
    case Completed(run) => Completed(run.(applied := applied))
    case Failed(run) => Failed(run.(applied := applied))
  }

  /** A run does not look at what it has applied. */
  lemma {:induction false} HistoryIsIrrelevant<S>(effect: Effect<S>, run: Run<S>, history: seq<string>, todo: seq<string>)
    ensures run.applied <= RunFrom(effect, run, todo).run.applied
    ensures RunFrom(effect, run.(applied := history), todo)
         == Rebased(RunFrom(effect, run, todo), run.applied, history)
    decreases |todo|
  {
    AppliedGrows(effect, run, todo);
    if todo != [] && Step(effect, run, todo[0]).Some? {
      var next := Step(effect, run, todo[0]).value;
      if next != run {
        var longer := history + [todo[0]];
        AppliedGrows(effect, next, todo[1..]);
        HistoryIsIrrelevant(effect, next, longer, todo[1..]);
        var all := RunFrom(effect, next, todo[1..]).run.applied;
        assert longer + all[|next.applied|..] == history + all[|run.applied|..];
      } else {
        HistoryIsIrrelevant(effect, run, history, todo[1..]);
      }
    } else {
      assert history + run.applied[|run.applied|..] == history;
    }
  }

  /** The run as a fresh run finds it after a stop: only the table is left, and the flag is derived from it. */
  function Resumed<S>(run: Run<S>, files: seq<string>): Run<S> {
    Start(run.db, files)
  }

  /** A stopped run that is started again passes over the files it got through and goes on from there. */
  lemma ResumeSkipsThePast<S(!new)>(effect: Effect<S>, db: Db<S>, files: seq<string>, k: nat)
    requires OnlyAdds(effect) && k <= |files|
    requires RunFrom(effect, Start(db, files), files[..k]).Completed?
    ensures var stopped := RunFrom(effect, Start(db, files), files[..k]).run;
      Migration(effect, stopped.db, files) == RunFrom(effect, Resumed(stopped, files), files[k..])
  {
    var stopped := RunFrom(effect, Start(db, files), files[..k]).run;
    StartIsSane(db, files);
    RunSettles(effect, Start(db, files), files[..k], files);
    SettledFilesAreSkipped(effect, stopped.db, files[..k], files);
    assert files == files[..k] + files[k..];
    RunSplits(effect, Start(stopped.db, files), files[..k], files[k..]);
  }

  /** The run that was stopped after `k` files, had it not been stopped. */
  lemma UnstoppedGoesOn<S(!new)>(effect: Effect<S>, db: Db<S>, files: seq<string>, k: nat)
    requires k <= |files| && RunFrom(effect, Start(db, files), files[..k]).Completed?
    ensures Migration(effect, db, files)
         == RunFrom(effect, RunFrom(effect, Start(db, files), files[..k]).run, files[k..])
  {
    assert files == files[..k] + files[k..];
    RunSplits(effect, Start(db, files), files[..k], files[k..]);
  }

  /** If the table shows the flag that the stopped run had, resuming is as good as not stopping: the same
      database, the same further files, the same success or failure. */
  lemma SameFlagSameRun<S(!new)>(effect: Effect<S>, db: Db<S>, files: seq<string>, k: nat)
    requires OnlyAdds(effect) && k <= |files|
    requires RunFrom(effect, Start(db, files), files[..k]).Completed?
    requires var stopped := RunFrom(effect, Start(db, files), files[..k]).run;
      stopped.consolidated == StartsConsolidated(stopped.db.recorded, files)
    ensures var stopped := RunFrom(effect, Start(db, files), files[..k]).run;
      && stopped.applied <= Migration(effect, db, files).run.applied
      && Migration(effect, stopped.db, files) == Rebased(Migration(effect, db, files), stopped.applied, [])
  {
    var stopped := RunFrom(effect, Start(db, files), files[..k]).run;
    StartIsSane(db, files);
    RunKeepsSane(effect, Start(db, files), files[..k], files);
    ResumeSkipsThePast(effect, db, files, k);
    UnstoppedGoesOn(effect, db, files, k);
    HistoryIsIrrelevant(effect, stopped, [], files[k..]);
    assert Resumed(stopped, files) == stopped.(applied := []);
  }

  /** The migrations add no tracking row that would read as a finished consolidation: neither the
      consolidated name itself, nor a name whose legacy form is on disk. */
  ghost predicate KeepsFlag<S(!new)>(effect: Effect<S>, files: seq<string>) {
    && (forall f, db, x :: effect(f, db).Some? && x in effect(f, db).value.recorded && x !in db.recorded ==>
          x != CONSOLIDATED && Legacy(x) !in files)
    && (forall f :: f in files && f != CONSOLIDATED ==> Legacy(f) !in files)
  }

  predicate FlagAgrees<S>(run: Run<S>, files: seq<string>) {
    run.consolidated == StartsConsolidated(run.db.recorded, files)
  }

  lemma StepKeepsFlag<S(!new)>(effect: Effect<S>, run: Run<S>, filename: string, files: seq<string>)
    requires OnlyAdds(effect) && KeepsFlag(effect, files) && filename in files
    requires FlagAgrees(run, files) && Step(effect, run, filename).Some?
    ensures FlagAgrees(Step(effect, run, filename).value, files)
  {
    var next := Step(effect, run, filename).value;
    if next != run && filename != CONSOLIDATED {
      var after := effect(filename, run.db).value;
      assert next.db.recorded == after.recorded + {filename};
      if HasPreRenameEntries(next.db.recorded, files) {
        var f :| f in files && IsLegacy(f) && f[|PREFIX|..] in next.db.recorded;
        var x := f[|PREFIX|..];
        assert f == Legacy(x);
        assert x in run.db.recorded;
      }
    }
  }

  lemma {:induction false} RunKeepsFlag<S(!new)>(effect: Effect<S>, run: Run<S>, todo: seq<string>, files: seq<string>)
    requires OnlyAdds(effect) && KeepsFlag(effect, files) && FlagAgrees(run, files)
    requires forall f :: f in todo ==> f in files
    ensures FlagAgrees(RunFrom(effect, run, todo).run, files)
    decreases |todo|
  {
    if todo != [] && Step(effect, run, todo[0]).Some? {
      StepKeepsFlag(effect, run, todo[0], files);
      RunKeepsFlag(effect, Step(effect, run, todo[0]).value, todo[1..], files);
    }
  }

  /** The table after a run that was stopped again and again: attempt `i` gets through `stops[i]` files. */
  function AfterStops<S>(effect: Effect<S>, db: Db<S>, files: seq<string>, stops: seq<nat>): Option<Db<S>>
    decreases |stops|
  {
    if stops == [] then Some(db)
    else if stops[0] > |files| then None
    else
      match RunFrom(effect, Start(db, files), files[..stops[0]])
      case Failed(_) => None
      case Completed(run) => AfterStops(effect, run.db, files, stops[1..])
  }

  /** However often a run is stopped, the run that is finally let through leaves the database that an
      uninterrupted run leaves, and fails only where that one fails. */
  lemma {:induction false} StopsDoNotMatter<S(!new)>(effect: Effect<S>, db: Db<S>, files: seq<string>, stops: seq<nat>)
    requires OnlyAdds(effect) && KeepsFlag(effect, files)
    requires AfterStops(effect, db, files, stops).Some?
    ensures var last := Migration(effect, AfterStops(effect, db, files, stops).value, files);
      var straight := Migration(effect, db, files);
      && last.run.db == straight.run.db
      && last.Completed? == straight.Completed?
    decreases |stops|
  {
    if stops != [] {
      var k := stops[0];
      RunKeepsFlag(effect, Start(db, files), files[..k], files);
      SameFlagSameRun(effect, db, files, k);
      StopsDoNotMatter(effect, RunFrom(effect, Start(db, files), files[..k]).run.db, files, stops[1..]);
    }
  }

  // -- When the flag does not agree ----------------------------------------------------------------

  lemma {:induction false} FlagIsUnused<S>(effect: Effect<S>, run: Run<S>, todo: seq<string>)
    requires RunFrom(effect, run, todo).Completed? && NoLegacy(RunFrom(effect, run, todo).run.applied)
    ensures RunFrom(effect, run.(consolidated := true), todo).Completed?
    ensures RunFrom(effect, run.(consolidated := true), todo).run.applied == RunFrom(effect, run, todo).run.applied
    decreases |todo|
  {
    if todo != [] {
      var next := Step(effect, run, todo[0]).value;
      AppliedGrows(effect, next, todo[1..]);
      if next != run {
        assert todo[0] in next.applied;
        assert next.(consolidated := true) == Step(effect, run.(consolidated := true), todo[0]).value;
      }
      FlagIsUnused(effect, next, todo[1..]);
    }
  }

  /** Two runs over the same files that differ in the flag alone apply the same files exactly when the run
      without the flag applies no legacy file. */
  lemma FlagMattersIff<S>(effect: Effect<S>, run: Run<S>, todo: seq<string>)
    requires NoLegacy(run.applied) && !run.consolidated
    requires RunFrom(effect, run, todo).Completed?
    ensures var flagged := RunFrom(effect, run.(consolidated := true), todo).run;
      flagged.applied == RunFrom(effect, run, todo).run.applied <==> NoLegacy(RunFrom(effect, run, todo).run.applied)
  {
    var flagged := run.(consolidated := true);
    ConsolidatedRunAppliesNoLegacy(effect, flagged, todo);
    if NoLegacy(RunFrom(effect, run, todo).run.applied) {
      FlagIsUnused(effect, run, todo);
    }
  }

  /** For any migrations that only add rows: if the uninterrupted run completes, then resuming after a stop
      applies the files that were still missing exactly when the table shows the flag of the stopped run,
      or none of those files is a legacy file. */
  lemma ResumeAppliesTheRestIff<S(!new)>(effect: Effect<S>, db: Db<S>, files: seq<string>, k: nat)
    requires OnlyAdds(effect) && k <= |files|
    requires RunFrom(effect, Start(db, files), files[..k]).Completed? && Migration(effect, db, files).Completed?
    ensures var stopped := RunFrom(effect, Start(db, files), files[..k]).run;
      && stopped.applied <= Migration(effect, db, files).run.applied
      && var rest := Migration(effect, db, files).run.applied[|stopped.applied|..];
      Migration(effect, stopped.db, files).run.applied == rest <==> FlagAgrees(stopped, files) || NoLegacy(rest)
  {
    var stopped := RunFrom(effect, Start(db, files), files[..k]).run;
    StartIsSane(db, files);
    RunKeepsSane(effect, Start(db, files), files[..k], files);
    if FlagAgrees(stopped, files) {
      SameFlagSameRun(effect, db, files, k);
    } else {
      var bare := stopped.(applied := []);
      ResumeSkipsThePast(effect, db, files, k);
      UnstoppedGoesOn(effect, db, files, k);
      HistoryIsIrrelevant(effect, stopped, [], files[k..]);
      FlagMattersIff(effect, bare, files[k..]);
      assert Resumed(stopped, files) == bare.(consolidated := true);
    }
  }

  // -- A migration that records the consolidated name -------------------------------------------------

  const EARLY := "00000000_a.sql"
  const OLD := "legacy_x.sql"
  const THREE := [EARLY, CONSOLIDATED, OLD]

  /** The first file records the consolidated name; the others only run. */
  function Recorder(): Effect<int> {
    (f: string, db: Db<int>) =>
      Some(if f == EARLY then db.(recorded := db.recorded + {CONSOLIDATED}) else db)
  }

  const EMPTY: Db<int> := Db({}, 0)

  lemma RunOfThree<S>(effect: Effect<S>, a: Run<S>, b: Run<S>, c: Run<S>, d: Run<S>)
    requires Step(effect, a, EARLY) == Some(b) && Step(effect, b, CONSOLIDATED) == Some(c)
    requires Step(effect, c, OLD) == Some(d)
    ensures RunFrom(effect, a, THREE) == Completed(d)
  {
    assert THREE[1..] == [CONSOLIDATED, OLD];
    assert [CONSOLIDATED, OLD][1..] == [OLD];
    assert RunFrom(effect, c, [OLD]) == RunFrom(effect, d, []);
    assert RunFrom(effect, b, [CONSOLIDATED, OLD]) == RunFrom(effect, c, [OLD]);
  }

  /** From the empty table, the uninterrupted run applies the legacy file; stopped after the first file and
      started again, it never does, although no name with a legacy form on disk was recorded. */
  lemma RecordingTheConsolidatedNameMatters()
    ensures OnlyAdds(Recorder())
    ensures Migration(Recorder(), EMPTY, THREE).Completed? && OLD in Migration(Recorder(), EMPTY, THREE).run.db.recorded
    ensures AfterStops(Recorder(), EMPTY, THREE, [1]).Some?
    ensures var resumed := Migration(Recorder(), AfterStops(Recorder(), EMPTY, THREE, [1]).value, THREE);
      resumed.Completed? && OLD !in resumed.run.db.recorded
  {
    var e := Recorder();
    assert OLD[|PREFIX|..] == "x.sql";
    assert EARLY[0] == '0' && CONSOLIDATED[0] == '0';
    assert !HasPreRenameEntries({}, THREE);
    var start := Start(EMPTY, THREE);
    assert start.effective == {} && !start.consolidated;
    var first := Step(e, start, EARLY).value;
    assert first.db.recorded == {EARLY, CONSOLIDATED};
    assert THREE[..1] == [EARLY];
    assert RunFrom(e, start, [EARLY]) == Completed(first);
    assert CONSOLIDATED in first.effective;
    assert Legacy(EARLY)[|PREFIX|] == '0' && Legacy(CONSOLIDATED)[|PREFIX|] == '0' && OLD[|PREFIX|] == 'x';
    assert OLD !in first.effective;
    var second := Step(e, first, CONSOLIDATED).value;
    assert second == first;
    var third := Step(e, second, OLD).value;
    assert OLD in third.db.recorded;
    RunOfThree(e, start, first, second, third);
    assert AfterStops(e, EMPTY, THREE, [1]) == AfterStops(e, first.db, THREE, []);
    var again := Start(first.db, THREE);
    assert again.consolidated;
    assert Step(e, again, EARLY) == Some(again) && Step(e, again, CONSOLIDATED) == Some(again);
    assert Step(e, again, OLD) == Some(again);
    RunOfThree(e, again, again, again, again);
  }
}
