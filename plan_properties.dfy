/** What the reconciliation promises, stated over `Plans.ToBeRun` and the `Plan`
    class: prefix consumption, the two errors and their precedence, drift, and the
    behaviour the repository's own tests and examples describe. */
module PlanProperties {
  import opened RubyCore
  import opened Migrations
  import opened PlanErrors
  import opened Plans

  /** With no history, the whole plan is still to run. */
  lemma EmptyHistoryRunsWholePlan(planned: seq<string>, formatTime: int -> string)
    ensures ToBeRun(planned, [], formatTime) == Ok(planned)
  {
  }

  /** Reconciliation succeeds exactly when the history names the first `|history|`
      planned files in order, and then returns the planned files after them. */
  lemma SucceedsIffHistoryIsPrefix(planned: seq<string>, history: seq<MigrationRecord>, formatTime: int -> string)
    ensures ToBeRun(planned, history, formatTime).Ok? <==> HistoryIsPrefix(planned, history)
    ensures HistoryIsPrefix(planned, history) ==> ToBeRun(planned, history, formatTime) == Ok(planned[|history|..])
  {
    if HistoryIsPrefix(planned, history) && history != [] {
      var names := Names(history);
      forall x | x in names ensures x in planned {
        var i :| 0 <= i < |names| && names[i] == x;
        assert planned[i] == x;
      }
      DifferenceEmpty(names, planned);
    }
  }

  /** A recorded migration that the plan does not list is reported before anything
      else, naming every such record in history order. */
  lemma MissingFromPlanTakesPrecedence(planned: seq<string>, history: seq<MigrationRecord>, formatTime: int -> string, i: nat)
    requires i < |history| && history[i].migrationName !in planned
    ensures ToBeRun(planned, history, formatTime) ==
              Err(PlanError(MissingMessage(Difference(Names(history), planned)), planned, history))
  {
    DifferenceMembers(Names(history), planned);
    assert Names(history)[i] in Difference(Names(history), planned);
  }

  /** When every recorded migration is planned, the history and the plan disagree
      only by order, and the error names the planned file at the first record that
      does not match (or `''` when the plan is exhausted there) and that record. */
  lemma OrderViolationAtFirstMismatch(planned: seq<string>, history: seq<MigrationRecord>, formatTime: int -> string, k: nat)
    requires forall i :: 0 <= i < |history| ==> history[i].migrationName in planned
    requires IsFirstMismatch(planned, history, k)
    ensures ToBeRun(planned, history, formatTime) ==
              Err(PlanError(OrderMessage(HeadAt(planned, k), history[k].migrationName, formatTime(history[k].runOn)),
                            planned, history))
  {
    DifferenceEmpty(Names(history), planned);
    ConsumeAtFirstMismatch(planned, history, k);
  }

  /** A matching first record in front of a prefix of the rest of the plan gives a
      prefix of the whole plan. */
  lemma PrefixBeforeShift(planned: seq<string>, history: seq<MigrationRecord>)
    requires planned != [] && history != [] && history[0].migrationName == planned[0]
    ensures HistoryIsPrefix(planned[1..], history[1..]) ==> HistoryIsPrefix(planned, history)
  {
  }

  /** A history that is not a prefix of the plan has a first mismatching record. */
  lemma {:induction false} NotPrefixHasFirstMismatch(planned: seq<string>, history: seq<MigrationRecord>)
    requires !HistoryIsPrefix(planned, history)
    ensures exists k: nat :: IsFirstMismatch(planned, history, k)
    decreases |history|
  {
    if planned != [] && history[0].migrationName == planned[0] {
      var planned', history' := planned[1..], history[1..];
      PrefixBeforeShift(planned, history);
      NotPrefixHasFirstMismatch(planned', history');
      var k: nat :| IsFirstMismatch(planned', history', k);
      MismatchBeforeShift(planned, history, k);
    } else {
      assert IsFirstMismatch(planned, history, 0);
    }
  }

  /** Every failing reconciliation is one of the two errors: the missing-migrations
      one when some record is not planned, and otherwise the order one at the first
      mismatching record. */
  lemma FailureIsOneOfTwoErrors(planned: seq<string>, history: seq<MigrationRecord>, formatTime: int -> string)
    requires ToBeRun(planned, history, formatTime).Err?
    ensures (exists i :: 0 <= i < |history| && history[i].migrationName !in planned) ||
            exists k: nat :: IsFirstMismatch(planned, history, k) &&
              ToBeRun(planned, history, formatTime).error.message ==
                OrderMessage(HeadAt(planned, k), history[k].migrationName, formatTime(history[k].runOn))
  {
    if forall i :: 0 <= i < |history| ==> history[i].migrationName in planned {
      SucceedsIffHistoryIsPrefix(planned, history, formatTime);
      NotPrefixHasFirstMismatch(planned, history);
      var k: nat :| IsFirstMismatch(planned, history, k);
      OrderViolationAtFirstMismatch(planned, history, formatTime, k);
    }
  }

  /** The empty head only shows up when the history repeats a name: with distinct
      recorded names that are all planned, the first mismatch lies inside the plan. */
  lemma DistinctHistoryMismatchesInsidePlan(planned: seq<string>, history: seq<MigrationRecord>, k: nat)
    requires forall i, j :: 0 <= i < j < |history| ==> history[i].migrationName != history[j].migrationName
    requires forall i :: 0 <= i < |history| ==> history[i].migrationName in planned
    requires IsFirstMismatch(planned, history, k)
    ensures k < |planned| && HeadAt(planned, k) == planned[k] != history[k].migrationName
  {
  }

  /** Files on disk and in the plan that hold the same names show no drift. */
  lemma NoDriftWhenInSync(plan: Plan)
    requires forall x :: x in plan.listing <==> x in plan.plannedFiles
    ensures Difference(plan.listing, plan.plannedFiles) == []
    ensures Difference(plan.plannedFiles, plan.listing) == []
  {
    SameElementsNoDifference(plan.listing, plan.plannedFiles);
  }

  /** Reconciling, building the units and reconciling again gives the same answer
      and leaves the planned files as they were parsed. */
  method ReconcileTwice(plan: Plan, history: seq<MigrationRecord>, formatTime: int -> string)
    returns (first: Result<seq<string>>, second: Result<seq<string>>)
    requires plan.Valid()
    ensures first == second == ToBeRun(ParsePlan(plan.planFile), history, formatTime)
    ensures plan.plannedFiles == ParsePlan(plan.planFile)
  {
    first := plan.ToBeRunMigrationFileNames(history, formatTime);
    var units := plan.MigrationsToBeRun(history, formatTime);
    second := plan.ToBeRunMigrationFileNames(history, formatTime);
  }

  // Worked examples, on four distinct planned names a, b, c, d.

  predicate Distinct4(a: string, b: string, c: string, d: string)
  {
    a != b && a != c && a != d && b != c && b != d && c != d
  }

  /** Plan `[a, b, c, d]` with `a` and `b` already run leaves `[c, d]`. */
  lemma PrefixExample(a: string, b: string, c: string, d: string, formatTime: int -> string)
    ensures ToBeRun([a, b, c, d], [MigrationRecord(a, 1), MigrationRecord(b, 2)], formatTime) == Ok([c, d])
  {
    SucceedsIffHistoryIsPrefix([a, b, c, d], [MigrationRecord(a, 1), MigrationRecord(b, 2)], formatTime);
  }

  /** A record of `e`, which the plan does not list, is reported by name. */
  lemma MissingExample(a: string, b: string, c: string, d: string, e: string, formatTime: int -> string)
    requires e != a && e != b && e != c && e != d
    ensures ToBeRun([a, b, c, d], [MigrationRecord(a, 1), MigrationRecord(e, 2)], formatTime) ==
              Err(PlanError("Plan is missing the following already run migrations: " + e,
                            [a, b, c, d], [MigrationRecord(a, 1), MigrationRecord(e, 2)]))
  {
    var history := [MigrationRecord(a, 1), MigrationRecord(e, 2)];
    MissingFromPlanTakesPrecedence([a, b, c, d], history, formatTime, 1);
    assert Names(history) == [a, e];
    assert Difference([e], [a, b, c, d]) == [e] + Difference([], [a, b, c, d]);
    assert Difference([a, e], [a, b, c, d]) == [e];
  }

  /** History `[a, c]` against plan `[a, b, c, d]`: `c` ran while `b` had not, and
      the error says "Plan has 'b' before 'c' which was run on" `c`'s time. */
  lemma OrderExample(a: string, b: string, c: string, d: string, formatTime: int -> string)
    requires Distinct4(a, b, c, d)
    ensures ToBeRun([a, b, c, d], [MigrationRecord(a, 1), MigrationRecord(c, 2)], formatTime) ==
              Err(PlanError(OrderMessage(b, c, formatTime(2)),
                            [a, b, c, d], [MigrationRecord(a, 1), MigrationRecord(c, 2)]))
  {
    var history := [MigrationRecord(a, 1), MigrationRecord(c, 2)];
    assert IsFirstMismatch([a, b, c, d], history, 1);
    OrderViolationAtFirstMismatch([a, b, c, d], history, formatTime, 1);
  }

  /** A repeated record can exhaust the working copy; the head then prints as `''`. */
  lemma ExhaustedPlanExample(a: string, formatTime: int -> string)
    ensures ToBeRun([a], [MigrationRecord(a, 1), MigrationRecord(a, 2)], formatTime) ==
              Err(PlanError(OrderMessage("", a, formatTime(2)),
                            [a], [MigrationRecord(a, 1), MigrationRecord(a, 2)]))
  {
    var history := [MigrationRecord(a, 1), MigrationRecord(a, 2)];
    assert IsFirstMismatch([a], history, 1);
    OrderViolationAtFirstMismatch([a], history, formatTime, 1);
  }

  const BasicPlan := ["file1.sql", "file2.sql", "file3.sql", "file4.sql"]

  /** A plan file of four names, each on its own line, parses to those names. */
  lemma FourLinePlan(a: string, b: string, c: string, d: string)
    requires '\n' !in a && '\n' !in b && '\n' !in c && '\n' !in d && d != ""
    ensures ParsePlan(a + "\n" + b + "\n" + c + "\n" + d + "\n") == [a, b, c, d]
  {
    var names := [a, b, c, d];
    assert names[1..] == [b, c, d] && names[1..][1..] == [c, d] && names[1..][1..][1..] == [d];
    assert Join([c, d], "\n") == c + "\n" + d;
    assert Join([b, c, d], "\n") == b + "\n" + (c + "\n" + d);
    assert Join(names, "\n") == a + "\n" + (b + "\n" + (c + "\n" + d));
    assert a + "\n" + b + "\n" + c + "\n" + d + "\n" == Join(names, "\n") + "\n";
    SplitLines(names, '\n');
  }

  /** The assumed content of the `basic.plan` fixture: its four names, one per line. */
  const BasicPlanFile := "file1.sql" + "\n" + "file2.sql" + "\n" + "file3.sql" + "\n" + "file4.sql" + "\n"

  /** The basic plan file parses to its four names. */
  lemma BasicPlanParses()
    ensures ParsePlan(BasicPlanFile) == BasicPlan
  {
    FourLinePlan("file1.sql", "file2.sql", "file3.sql", "file4.sql");
  }

  /** Interior blank lines stay as empty names; trailing ones are dropped. */
  lemma BlankLinesKept(a: string, b: string)
    requires '\n' !in a && '\n' !in b && b != ""
    ensures ParsePlan(a + "\n\n" + b + "\n\n") == [a, "", b]
  {
    var names := [a, "", b];
    assert names[1..] == ["", b] && names[1..][1..] == [b];
    assert Join([b], "\n") == b;
    assert Join(["", b], "\n") == "" + "\n" + b;
    assert Join(names, "\n") == a + "\n" + ("" + "\n" + b);
    assert a + "\n\n" + b + "\n\n" == (Join(names, "\n") + "\n") + "\n";
    FieldsJoin(names, '\n');
    FieldsAppendSeparator(Join(names, "\n"), '\n');
    FieldsAppendSeparator(Join(names, "\n") + "\n", '\n');
    assert (names + [""] + [""])[..4] == names + [""];
    assert (names + [""])[..3] == names;
  }

  /** In a list without repetitions, an element lies in no slice that leaves it out. */
  lemma NotInSlice(s: seq<string>, i: nat, lo: nat, hi: nat)
    requires forall i, j :: 0 <= i < j < |s| ==> s[i] != s[j]
    requires i < |s| && lo <= hi <= |s| && !(lo <= i < hi)
    ensures s[i] !in s[lo..hi]
  {
  }

  /** Nothing in a slice of a list is missing from the list. */
  lemma SliceDifferenceEmpty(s: seq<string>, lo: nat, hi: nat)
    requires lo <= hi <= |s|
    ensures Difference(s[lo..hi], s) == []
  {
    forall x | x in s[lo..hi] ensures x in s {
      var k :| 0 <= k < hi - lo && s[lo..hi][k] == x;
      assert s[lo + k] == x;
    }
    DifferenceEmpty(s[lo..hi], s);
  }

  /** In a list without repetitions, nothing before or after a slice lies in it. */
  lemma OutsideNotInSlice(s: seq<string>, lo: nat, hi: nat)
    requires lo <= hi <= |s|
    requires forall i, j :: 0 <= i < j < |s| ==> s[i] != s[j]
    ensures forall i :: 0 <= i < |s[..lo]| ==> s[..lo][i] !in s[lo..hi]
    ensures forall i :: 0 <= i < |s[hi..]| ==> s[hi..][i] !in s[lo..hi]
  {
  }

  /** A list is what lies before, inside and after any of its slices. */
  lemma SliceAround(s: seq<string>, lo: nat, hi: nat)
    requires lo <= hi <= |s|
    ensures s == s[..lo] + s[lo..hi] + s[hi..]
  {
  }

  /** In a list without repetitions, removing a slice leaves what lies around it. */
  lemma OutsideSliceSurvives(s: seq<string>, lo: nat, hi: nat)
    requires lo <= hi <= |s|
    requires forall i, j :: 0 <= i < j < |s| ==> s[i] != s[j]
    ensures Difference(s, s[lo..hi]) == s[..lo] + s[hi..]
  {
    OutsideNotInSlice(s, lo, hi);
    SliceAround(s, lo, hi);
    DifferenceAroundMiddle(s, s[..lo], s[lo..hi], s[hi..]);
  }

  /** Seven distinct files on disk, the middle four of them planned (the
      `file0.sql`..`file6.sql` test): the first and the last two are not planned,
      and every planned file is on disk. */
  lemma ExtraFilesOnDiskExample(disk: seq<string>)
    requires |disk| == 7
    requires forall i, j :: 0 <= i < j < |disk| ==> disk[i] != disk[j]
    ensures Difference(disk, disk[1..5]) == [disk[0], disk[5], disk[6]]
    ensures Difference(disk[1..5], disk) == []
  {
    OutsideSliceSurvives(disk, 1, 5);
    SliceDifferenceEmpty(disk, 1, 5);
    assert disk[..1] + disk[5..] == [disk[0], disk[5], disk[6]];
  }

  /** Of four distinct planned files only the middle two on disk (the `file2.sql`,
      `file3.sql` test): the first and the last are missing from the directory, and
      nothing on disk is missing from the plan. */
  lemma PlannedFilesMissingOnDiskExample(planned: seq<string>)
    requires |planned| == 4
    requires forall i, j :: 0 <= i < j < |planned| ==> planned[i] != planned[j]
    ensures Difference(planned, planned[1..3]) == [planned[0], planned[3]]
    ensures Difference(planned[1..3], planned) == []
  {
    OutsideSliceSurvives(planned, 1, 3);
    SliceDifferenceEmpty(planned, 1, 3);
    assert planned[..1] + planned[3..] == [planned[0], planned[3]];
  }
}
