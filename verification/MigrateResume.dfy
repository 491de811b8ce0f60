/** Resuming a stopped migration run, for every way in which the remaining migrations may turn out: a
    condition on the tracking table and the remaining file names alone. */
module MigrateResume {
  import opened Wrappers
  import opened Migrate

  // -- Dry runs --------------------------------------------------------------------------------------

  /** Whether a run over the files would apply a legacy file if no migration recorded other names than its
      own; `effective` are the names that count as applied. */
  predicate AppliesLegacy(todo: seq<string>, effective: set<string>, consolidated: bool)
    decreases |todo|
  {
    if todo == [] then false
    else if todo[0] in effective || (consolidated && IsLegacy(todo[0])) then
      AppliesLegacy(todo[1..], effective, consolidated)
    else
      || IsLegacy(todo[0])
      || AppliesLegacy(todo[1..], effective + Augmented({todo[0]}), consolidated || todo[0] == CONSOLIDATED)
  }

  /** The same, if the first file that is applied records the consolidated name. */
  predicate AppliesLegacyUnmarked(todo: seq<string>, effective: set<string>)
    decreases |todo|
  {
    if todo == [] then false
    else if todo[0] in effective then AppliesLegacyUnmarked(todo[1..], effective)
    else
      && !IsLegacy(todo[0]) && todo[0] != CONSOLIDATED
      && AppliesLegacy(todo[1..], effective + Augmented({todo[0], CONSOLIDATED}), false)
  }

  /** Some migrations would make a run without the flag apply a legacy file. */
  predicate LegacyAhead(todo: seq<string>, effective: set<string>) {
    AppliesLegacy(todo, effective, false) || AppliesLegacyUnmarked(todo, effective)
  }

  lemma AugmentedUnion(a: set<string>, b: set<string>)
    ensures Augmented(a + b) == Augmented(a) + Augmented(b)
  {
  }

  /** Names without the prefix count as applied only when they are recorded. */
  lemma PlainNamesAreRecorded(name: string, recorded: set<string>)
    requires !IsLegacy(name) && name in Augmented(recorded)
    ensures name in recorded && Augmented({name}) <= Augmented(recorded)
  {
    assert forall f :: f in recorded ==> IsLegacy(Legacy(f));
  }

  // -- Every run that applies a legacy file is foreseen -----------------------------------------------

  ghost predicate Fresh<S>(run: Run<S>) {
    run.effective == Augmented(run.db.recorded)
  }

  lemma StepFacts<S(!new)>(effect: Effect<S>, run: Run<S>, f: string)
    requires OnlyAdds(effect) && Fresh(run) && Step(effect, run, f).Some?
    ensures var next := Step(effect, run, f).value;
      && Fresh(next) && run.effective <= next.effective
      && (Skips(run, f) ==> next == run)
      && (!Skips(run, f) ==> f in next.db.recorded && Augmented({f}) <= next.effective
                             && next.consolidated == (run.consolidated || f == CONSOLIDATED)
                             && next.applied == run.applied + [f])
  {
    StepKeepsEffective(effect, run, f);
    var next := Step(effect, run, f).value;
    if !Skips(run, f) {
      AugmentedIsMonotonic({f}, next.db.recorded);
    }
  }

  /** Once the consolidated name is recorded, a dry run that knows no more names than the run foresees it. */
  lemma {:induction false} UnmarkedForesees<S(!new)>(effect: Effect<S>, run: Run<S>, todo: seq<string>, known: set<string>)
    requires OnlyAdds(effect) && Fresh(run) && !run.consolidated && NoLegacy(run.applied)
    requires known <= run.effective && CONSOLIDATED in known
    requires !NoLegacy(RunFrom(effect, run, todo).run.applied)
    ensures AppliesLegacy(todo, known, false)
    decreases |todo|
  {
    var f, next := todo[0], Step(effect, run, todo[0]).value;
    StepFacts(effect, run, f);
    if f in run.effective {
      if f !in known && !IsLegacy(f) {
        PlainNamesAreRecorded(f, run.db.recorded);
        UnmarkedForesees(effect, next, todo[1..], known + Augmented({f}));
      } else if f in known {
        UnmarkedForesees(effect, next, todo[1..], known);
      }
    } else if !IsLegacy(f) {
      UnmarkedForesees(effect, next, todo[1..], known + Augmented({f}));
    }
  }

  /** Before that, one of two dry runs foresees it: one that knows no more names than the run, and one that
      knows the consolidated name besides. */
  lemma {:induction false} OneForesees<S(!new)>(effect: Effect<S>, run: Run<S>, todo: seq<string>, known: set<string>,
                                                more: set<string>)
    requires OnlyAdds(effect) && Fresh(run) && !run.consolidated && NoLegacy(run.applied)
    requires known <= run.effective && more <= run.effective + Augmented({CONSOLIDATED}) && CONSOLIDATED in more
    requires !NoLegacy(RunFrom(effect, run, todo).run.applied)
    ensures AppliesLegacy(todo, known, false) || AppliesLegacy(todo, more, false)
    decreases |todo|
  {
    var f, next := todo[0], Step(effect, run, todo[0]).value;
    StepFacts(effect, run, f);
    if f in run.effective {
      if IsLegacy(f) {
        if f in known && f in more {
          OneForesees(effect, next, todo[1..], known, more);
        }
      } else {
        PlainNamesAreRecorded(f, run.db.recorded);
        if f == CONSOLIDATED {
          UnmarkedForesees(effect, run, todo, more);
        } else {
          OneForesees(effect, next, todo[1..], if f in known then known else known + Augmented({f}),
                      if f in more then more else more + Augmented({f}));
        }
      }
    } else if !IsLegacy(f) {
      if f == CONSOLIDATED {
        ConsolidatedRunAppliesNoLegacy(effect, next, todo[1..]);
      } else {
        OneForesees(effect, next, todo[1..], known + Augmented({f}), more + Augmented({f}));
      }
    }
  }

  lemma {:induction false} LegacyIsForeseen<S(!new)>(effect: Effect<S>, run: Run<S>, todo: seq<string>)
    requires OnlyAdds(effect) && Fresh(run) && !run.consolidated && NoLegacy(run.applied)
    requires !NoLegacy(RunFrom(effect, run, todo).run.applied)
    ensures LegacyAhead(todo, run.effective)
    decreases |todo|
  {
    var f, next := todo[0], Step(effect, run, todo[0]).value;
    StepFacts(effect, run, f);
    if f in run.effective {
      LegacyIsForeseen(effect, next, todo[1..]);
    } else if !IsLegacy(f) {
      if f == CONSOLIDATED {
        ConsolidatedRunAppliesNoLegacy(effect, next, todo[1..]);
      } else {
        AugmentedUnion({f}, {CONSOLIDATED});
        assert {f} + {CONSOLIDATED} == {f, CONSOLIDATED};
        OneForesees(effect, next, todo[1..], run.effective + Augmented({f}), run.effective + Augmented({f, CONSOLIDATED}));
      }
    }
  }

  // -- Whatever is foreseen happens in some run --------------------------------------------------------

  /** Migrations that only run, except that one of them records the given names. */
  function Recording<S>(first: string, names: set<string>): Effect<S> {
    (f: string, db: Db<S>) => Some(if f == first then db.(recorded := db.recorded + names) else db)
  }

  lemma RecordingAdds<S(!new)>(first: string, names: set<string>)
    ensures OnlyAdds<S>(Recording(first, names))
  {
  }

  /** When the recording file is behind, the run is its dry run. */
  lemma {:induction false} DryRunHappens<S(!new)>(first: string, names: set<string>, run: Run<S>, todo: seq<string>)
    requires Fresh(run) && NoLegacy(run.applied) && (first in run.effective || names == {})
    ensures RunFrom(Recording(first, names), run, todo).Completed?
    ensures AppliesLegacy(todo, run.effective, run.consolidated)
      ==> !NoLegacy(RunFrom(Recording(first, names), run, todo).run.applied)
    decreases |todo|
  {
    if todo != [] {
      var effect: Effect<S>, f := Recording(first, names), todo[0];
      if Skips(run, f) {
        DryRunHappens(first, names, run, todo[1..]);
      } else {
        NewStep(first, names, run, f);
        var next := Step(effect, run, f).value;
        assert f != first || names + {f} == {f};
        AugmentedUnion(run.db.recorded, {f});
        if IsLegacy(f) {
          CompletesAnyway(first, names, next, todo[1..]);
          AppliedGrows(effect, next, todo[1..]);
          assert f in next.applied;
        } else {
          DryRunHappens(first, names, next, todo[1..]);
        }
      }
    }
  }

  /** The run after a file that is not behind yet. */
  lemma NewStep<S(!new)>(first: string, names: set<string>, run: Run<S>, f: string)
    requires Fresh(run) && !Skips(run, f) && (f == first ==> f !in names)
    ensures var added := if f == first then names + {f} else {f};
      Step(Recording(first, names), run, f)
      == Some(Run(run.db.(recorded := run.db.recorded + added), run.effective + Augmented(added),
                  run.consolidated || f == CONSOLIDATED, run.applied + [f]))
  {
    var added := if f == first then names + {f} else {f};
    assert run.db.recorded <= Augmented(run.db.recorded);
    AugmentedUnion(run.db.recorded, added);
    assert run.db.recorded + names + {f} == run.db.recorded + (names + {f});
  }

  lemma {:induction false} CompletesAnyway<S(!new)>(first: string, names: set<string>, run: Run<S>, todo: seq<string>)
    requires Fresh(run) && (first in run.effective || names == {})
    ensures RunFrom(Recording(first, names), run, todo).Completed?
    decreases |todo|
  {
    if todo != [] {
      if !Skips(run, todo[0]) {
        NewStep(first, names, run, todo[0]);
        AugmentedUnion(run.db.recorded, {todo[0]});
        CompletesAnyway(first, names, Step(Recording(first, names), run, todo[0]).value, todo[1..]);
      } else {
        CompletesAnyway(first, names, run, todo[1..]);
      }
    }
  }

  /** Some migrations that only add rows make the run go through and apply a legacy file. */
  ghost predicate MayApplyLegacy<S(!new)>(run: Run<S>, todo: seq<string>) {
    exists effect: Effect<S> ::
      OnlyAdds(effect) && RunFrom(effect, run, todo).Completed? && !NoLegacy(RunFrom(effect, run, todo).run.applied)
  }

  lemma {:induction false} UnmarkedHappens<S(!new)>(run: Run<S>, todo: seq<string>)
    requires Fresh(run) && !run.consolidated && NoLegacy(run.applied) && AppliesLegacyUnmarked(todo, run.effective)
    ensures MayApplyLegacy(run, todo)
    decreases |todo|
  {
    var f := todo[0];
    if f in run.effective {
      UnmarkedHappens(run, todo[1..]);
      var effect: Effect<S> :| OnlyAdds(effect) && RunFrom(effect, run, todo[1..]).Completed?
        && !NoLegacy(RunFrom(effect, run, todo[1..]).run.applied);
      assert RunFrom(effect, run, todo) == RunFrom(effect, run, todo[1..]);
    } else {
      var effect: Effect<S> := Recording(f, {CONSOLIDATED});
      RecordingAdds<S>(f, {CONSOLIDATED});
      NewStep(f, {CONSOLIDATED}, run, f);
      var next := Step(effect, run, f).value;
      assert {CONSOLIDATED} + {f} == {f, CONSOLIDATED};
      AugmentedUnion(run.db.recorded, {f, CONSOLIDATED});
      assert f in {f, CONSOLIDATED} && {f, CONSOLIDATED} <= Augmented({f, CONSOLIDATED});
      DryRunHappens(f, {CONSOLIDATED}, next, todo[1..]);
      assert RunFrom(effect, run, todo) == RunFrom(effect, next, todo[1..]);
    }
  }

  /** A run without the flag may apply a legacy file exactly when one of the dry runs does. */
  lemma MayApplyLegacyIff<S(!new)>(run: Run<S>, todo: seq<string>)
    requires Fresh(run) && !run.consolidated && NoLegacy(run.applied)
    ensures MayApplyLegacy(run, todo) <==> LegacyAhead(todo, run.effective)
  {
    if MayApplyLegacy(run, todo) {
      var effect: Effect<S> :| OnlyAdds(effect) && RunFrom(effect, run, todo).Completed?
        && !NoLegacy(RunFrom(effect, run, todo).run.applied);
      LegacyIsForeseen(effect, run, todo);
    } else if AppliesLegacy(todo, run.effective, false) {
      RecordingAdds<S>("", {});
      DryRunHappens("", {}, run, todo);
      assert RunFrom(Recording("", {}), run, todo).Completed?;
    } else if AppliesLegacyUnmarked(todo, run.effective) {
      UnmarkedHappens(run, todo);
    }
  }

  // -- Resuming --------------------------------------------------------------------------------------

  /** Going on from the stopped run and starting again apply the same further files, whatever the remaining
      migrations do, as long as they only add rows and go through. */
  ghost predicate ResumingIsSafe<S(!new)>(stopped: Run<S>, files: seq<string>, k: nat)
    requires k <= |files|
  {
    forall effect: Effect<S> ::
      OnlyAdds(effect) && RunFrom(effect, stopped.(applied := []), files[k..]).Completed? ==>
        Migration(effect, stopped.db, files).run.applied
        == RunFrom(effect, stopped.(applied := []), files[k..]).run.applied
  }

  lemma StartingAgain<S(!new)>(effect: Effect<S>, again: Effect<S>, db: Db<S>, files: seq<string>, k: nat)
    requires OnlyAdds(effect) && k <= |files| && RunFrom(effect, Start(db, files), files[..k]).Completed?
    ensures var stopped := RunFrom(effect, Start(db, files), files[..k]).run;
      Migration(again, stopped.db, files) == RunFrom(again, Resumed(stopped, files), files[k..])
  {
    var stopped := RunFrom(effect, Start(db, files), files[..k]).run;
    StartIsSane(db, files);
    RunSettles(effect, Start(db, files), files[..k], files);
    SettledFilesAreSkipped(again, stopped.db, files[..k], files);
    assert files == files[..k] + files[k..];
    RunSplits(again, Start(stopped.db, files), files[..k], files[k..]);
  }

  /** The exact condition for resuming, on the tracking table that the stop left and the names of the
      remaining files: the table shows the flag of the stopped run, or neither dry run of the remaining files
      applies a legacy file. */
  lemma ResumingIsSafeIff<S(!new)>(effect: Effect<S>, db: Db<S>, files: seq<string>, k: nat)
    requires OnlyAdds(effect) && k <= |files| && RunFrom(effect, Start(db, files), files[..k]).Completed?
    ensures var stopped := RunFrom(effect, Start(db, files), files[..k]).run;
      ResumingIsSafe(stopped, files, k)
      <==> FlagAgrees(stopped, files) || !LegacyAhead(files[k..], Augmented(stopped.db.recorded))
  {
    var stopped := RunFrom(effect, Start(db, files), files[..k]).run;
    var bare, todo := stopped.(applied := []), files[k..];
    StartIsSane(db, files);
    RunKeepsSane(effect, Start(db, files), files[..k], files);
    forall again: Effect<S> ensures Migration(again, stopped.db, files) == RunFrom(again, Resumed(stopped, files), todo) {
      StartingAgain(effect, again, db, files, k);
    }
    if FlagAgrees(stopped, files) {
      assert Resumed(stopped, files) == bare;
    } else {
      assert Resumed(stopped, files) == bare.(consolidated := true);
      MayApplyLegacyIff(bare, todo);
      SafeIffNoneApplied(bare, todo);
    }
  }

  lemma SafeIffNoneApplied<S(!new)>(bare: Run<S>, todo: seq<string>)
    requires !bare.consolidated && bare.applied == []
    ensures (forall effect: Effect<S> :: OnlyAdds(effect) && RunFrom(effect, bare, todo).Completed? ==>
              RunFrom(effect, bare.(consolidated := true), todo).run.applied == RunFrom(effect, bare, todo).run.applied)
      <==> !MayApplyLegacy(bare, todo)
  {
    forall effect: Effect<S> | OnlyAdds(effect) && RunFrom(effect, bare, todo).Completed?
      ensures RunFrom(effect, bare.(consolidated := true), todo).run.applied == RunFrom(effect, bare, todo).run.applied
        <==> NoLegacy(RunFrom(effect, bare, todo).run.applied)
    {
      FlagMattersIff(effect, bare, todo);
    }
  }
}
