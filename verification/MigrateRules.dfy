/** The migration runner file by file: which file a run applies, skips or fails on, in the names of the tracking
    table. */
module MigrateRules {
  import opened Wrappers
  import opened Migrate

  /** The schema counts as consolidated before the run: its file is recorded, or some recorded name is the old name
      of a legacy file on disk. */
  ghost predicate ConsolidatedBefore(recorded: set<string>, files: seq<string>) {
    "00000000_consolidated_schema.sql" in recorded || exists x :: x in recorded && "legacy_" + x in files
  }

  /** The file is recorded, or it is a legacy file recorded under its old name. */
  ghost predicate WasApplied(file: string, recorded: set<string>) {
    file in recorded || exists x :: x in recorded && file == "legacy_" + x
  }

  lemma ConsolidatedBeforeIff(recorded: set<string>, files: seq<string>)
    ensures StartsConsolidated(recorded, files) <==> ConsolidatedBefore(recorded, files)
  {
    if f :| f in files && IsLegacy(f) && f[|PREFIX|..] in recorded {
      assert f == "legacy_" + f[|PREFIX|..];
    }
    if x :| x in recorded && "legacy_" + x in files {
      var f := "legacy_" + x;
      assert IsLegacy(f) && f[|PREFIX|..] == x;
    }
  }

  lemma WasAppliedIff(file: string, recorded: set<string>)
    ensures file in Augmented(recorded) <==> WasApplied(file, recorded)
  {
    if x :| x in recorded && file == "legacy_" + x {
      assert Legacy(x) == file;
    }
  }

  lemma {:induction false} FlagMeaning<S(!new)>(effect: Effect<S>, run: Run<S>, todo: seq<string>)
    ensures var last := RunFrom(effect, run, todo).run;
      && run.applied <= last.applied
      && (last.consolidated <==> run.consolidated || "00000000_consolidated_schema.sql" in last.applied[|run.applied|..])
    decreases |todo|
  {
    if todo != [] && Step(effect, run, todo[0]).Some? {
      var next := Step(effect, run, todo[0]).value;
      FlagMeaning(effect, next, todo[1..]);
      var last := RunFrom(effect, next, todo[1..]).run;
      if next != run {
        assert next.applied == run.applied + [todo[0]];
        assert last.applied[|run.applied|..] == [todo[0]] + last.applied[|next.applied|..];
      }
    }
  }

  /** What a run has to pass over when it comes to the file: files that were applied, and legacy files once the
      schema is consolidated. `r` is the run up to there, `db` the database before it. */
  ghost predicate PassesOver<S>(db: Db<S>, files: seq<string>, r: Run<S>, file: string) {
    || WasApplied(file, r.db.recorded)
    || ("legacy_" <= file
        && (ConsolidatedBefore(db.recorded, files) || "00000000_consolidated_schema.sql" in r.applied))
  }

  lemma SkipsIff<S(!new)>(effect: Effect<S>, db: Db<S>, files: seq<string>, k: nat)
    requires OnlyAdds(effect) && k < |files|
    ensures var r := RunFrom(effect, Start(db, files), files[..k]).run;
      Skips(r, files[k]) <==> PassesOver(db, files, r, files[k])
  {
    var start := Start(db, files);
    var r := RunFrom(effect, start, files[..k]).run;
    StartIsSane(db, files);
    RunKeepsSane(effect, start, files[..k], files);
    FlagMeaning(effect, start, files[..k]);
    ConsolidatedBeforeIff(db.recorded, files);
    WasAppliedIff(files[k], r.db.recorded);
    assert r.applied[0..] == r.applied;
  }

  lemma OneMoreFile<S>(effect: Effect<S>, run: Run<S>, files: seq<string>, k: nat)
    requires k < |files| && RunFrom(effect, run, files[..k]).Completed?
    ensures var r := RunFrom(effect, run, files[..k]).run;
      RunFrom(effect, run, files[..k + 1])
        == match Step(effect, r, files[k]) case None => Failed(r) case Some(next) => Completed(next)
  {
    var r := RunFrom(effect, run, files[..k]).run;
    assert files[..k + 1] == files[..k] + [files[k]];
    RunSplits(effect, run, files[..k], [files[k]]);
    assert [files[k]][1..] == [];
    match Step(effect, r, files[k])
    case None =>
    case Some(next) => assert RunFrom(effect, next, []) == Completed(next);
  }

  /** A run that has got through the first `k` files: the next one is passed over, or its SQL runs and its name is
      recorded, both or neither. The run goes on exactly when that did not fail: the SQL raised no error and did
      not record the file's own name. */
  lemma FileIs<S(!new)>(effect: Effect<S>, db: Db<S>, files: seq<string>, k: nat)
    requires OnlyAdds(effect) && k < |files| && RunFrom(effect, Start(db, files), files[..k]).Completed?
    ensures var r, next := RunFrom(effect, Start(db, files), files[..k]).run, RunFrom(effect, Start(db, files), files[..k + 1]);
      var done := effect(files[k], r.db);
      if PassesOver(db, files, r, files[k]) then next.Completed? && next.run.db == r.db && next.run.applied == r.applied
      else if done.None? || files[k] in done.value.recorded then
        next.Failed? && next.run.db == r.db && next.run.applied == r.applied
      else
        && next.Completed? && next.run.db == Db(done.value.recorded + {files[k]}, done.value.schema)
        && next.run.applied == r.applied + [files[k]]
  {
    SkipsIff(effect, db, files, k);
    OneMoreFile(effect, Start(db, files), files, k);
  }

  /** A run begins with the database as it is; it stops for good at the first file that fails. */
  lemma RunEdgesAre<S>(effect: Effect<S>, db: Db<S>, files: seq<string>, k: nat)
    requires k <= |files|
    ensures RunFrom(effect, Start(db, files), files[..0]).Completed?
    ensures RunFrom(effect, Start(db, files), files[..0]).run.db == db
    ensures RunFrom(effect, Start(db, files), files[..0]).run.applied == []
    ensures Migration(effect, db, files) == RunFrom(effect, Start(db, files), files[..|files|])
    ensures RunFrom(effect, Start(db, files), files[..k]).Failed? ==>
      Migration(effect, db, files) == RunFrom(effect, Start(db, files), files[..k])
  {
    assert files[..|files|] == files;
    assert files == files[..k] + files[k..];
    RunSplits(effect, Start(db, files), files[..k], files[k..]);
  }

  /** At `k` the names differ for the first time, or `a` ends there. */
  ghost predicate SmallerAt(a: string, b: string, k: int) {
    0 <= k <= |a| && k < |b| && (forall i :: 0 <= i < k ==> a[i] == b[i]) && (k == |a| || a[k] < b[k])
  }

  /** The order of the files: by the first character in which two names differ, a shorter name before its
      continuations. */
  lemma {:induction false} SmallerIff(a: string, b: string)
    ensures Less(a, b) <==> exists k :: SmallerAt(a, b, k)
    decreases |a|
  {
    if a == [] || b == [] || a[0] != b[0] {
      if b != [] && (a == [] || a[0] < b[0]) {
        assert SmallerAt(a, b, 0);
      }
    } else {
      SmallerIff(a[1..], b[1..]);
      if k :| SmallerAt(a[1..], b[1..], k) {
        assert forall i :: 0 < i <= k ==> a[i] == a[1..][i - 1] && b[i] == b[1..][i - 1];
        assert SmallerAt(a, b, k + 1);
      }
      if k :| SmallerAt(a, b, k) {
        assert SmallerAt(a[1..], b[1..], k - 1);
      }
    }
  }
}
