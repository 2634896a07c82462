/** `Hummingbird::Plan`: the declared migration order, the files found in the
    migration directory, and the reconciliation of the plan with the run history.

    Reading the plan file, listing the migration directory and reading a migration
    file are inputs here: the plan file's content, the listing and a `contents`
    function are handed to the constructor. Formatting a `run_on` timestamp is the
    parameter `formatTime`. */
module Plans {
  import opened RubyCore
  import opened Migrations
  import opened PlanErrors

  datatype Option<T> = None | Some(value: T)

  /** What `to_be_run_migration_file_names` and `migrations_to_be_run` either return
      or raise. */
  datatype Result<T> = Ok(value: T) | Err(error: PlanError)

  const MissingMessagePrefix := "Plan is missing the following already run migrations: "

  /** The message raised when recorded migrations are not in the plan: the fixed
      prefix, then the missing names joined by `", "`. */
  function MissingMessage(missing: seq<string>): (m: string)
    ensures |m| >= |MissingMessagePrefix| && m[..|MissingMessagePrefix|] == MissingMessagePrefix
    ensures missing == [] ==> m == MissingMessagePrefix
    ensures |missing| == 1 ==> m == MissingMessagePrefix + missing[0]
  {
    MissingMessagePrefix + Join(missing, ", ")
  }

  /** The message raised when the plan puts `head` where the history ran `name`:
      the head, the name and the time can be read back at fixed offsets. */
  function OrderMessage(head: string, name: string, time: string): (m: string)
    ensures |m| == |head| + |name| + |time| + 39
    ensures m[..10] == "Plan has '" && m[10..10 + |head|] == head
    ensures m[20 + |head|..20 + |head| + |name|] == name
    ensures m[|m| - |time|..] == time
  {
    "Plan has '" + head + "' before '" + name + "' which was run on " + time
  }

  /** `parse_plan`: the plan file's content split at newlines. Every planned name is
      one line of the file, blank lines inside the file included; trailing blank lines
      are dropped. */
  function ParsePlan(content: string): (planned: seq<string>)
    ensures planned <= Fields(content, '\n')
    ensures forall i :: |planned| <= i < |Fields(content, '\n')| ==> Fields(content, '\n')[i] == ""
    ensures planned == [] || planned[|planned| - 1] != ""
    ensures forall i :: 0 <= i < |planned| ==> '\n' !in planned[i]
  {
    Split(content, '\n')
  }

  /** The history names the first `|history|` planned files, in order. */
  predicate HistoryIsPrefix(planned: seq<string>, history: seq<MigrationRecord>)
  {
    |history| <= |planned| &&
    forall i :: 0 <= i < |history| ==> history[i].migrationName == planned[i]
  }

  /** Record `k` is the first one that does not name the planned file at its
      position (there may be no planned file left at position `k`). */
  predicate IsFirstMismatch(planned: seq<string>, history: seq<MigrationRecord>, k: nat)
  {
    k < |history| &&
    (forall j :: 0 <= j < k ==> j < |planned| && history[j].migrationName == planned[j]) &&
    !(k < |planned| && history[k].migrationName == planned[k])
  }

  /** The planned file at position `k`, or `""` when there is none: `files.first`
      of an emptied working copy is `nil`, which interpolates as the empty string. */
  function HeadAt(planned: seq<string>, k: nat): string
  {
    if k < |planned| then planned[k] else ""
  }

  /** Where the shifting walk over the working copy ends: with the unconsumed files,
      or at a record that did not name the head of the working copy. */
  datatype Consumed = Rest(files: seq<string>) | OutOfSync(head: string, record: MigrationRecord)

  /** The `each`/`shift` loop of `to_be_run_migration_file_names`: each record must
      name the current head of `files`, which it then consumes. `nil == name` never holds, so an empty working copy
      stops the walk at the next record. */
  function Consume(files: seq<string>, history: seq<MigrationRecord>): (c: Consumed)
    ensures c.Rest? ==> HistoryIsPrefix(files, history) && c.files == files[|history|..]
    ensures HistoryIsPrefix(files, history) ==> c.Rest?
    decreases |history|
  {
    if history == [] then Rest(files)
    else if files != [] && history[0].migrationName == files[0] then Consume(files[1..], history[1..])
    else OutOfSync(if files == [] then "" else files[0], history[0])
  }

  /** Dropping a matched first record and planned file moves the first mismatch one
      position back. */
  lemma MismatchAfterShift(files: seq<string>, history: seq<MigrationRecord>, k: nat)
    requires IsFirstMismatch(files, history, k + 1)
    ensures files != [] && history[0].migrationName == files[0]
    ensures files != [] && IsFirstMismatch(files[1..], history[1..], k)
  {
    var first, kth := history[0], history[k];
    assert 0 < |files| && first.migrationName == files[0];
    assert k < |files| && kth.migrationName == files[k];
    var files', history' := files[1..], history[1..];
    forall j | 0 <= j < k
      ensures history'[j].migrationName == files'[j]
    {
      var next := history[j + 1];
      assert next.migrationName == files[j + 1];
    }
    var last := history[k + 1];
    assert history'[k] == last;
    assert !(k + 1 < |files| && last.migrationName == files[k + 1]);
  }

  /** Prefixing a matching record and planned file moves the first mismatch one
      position on. */
  lemma MismatchBeforeShift(files: seq<string>, history: seq<MigrationRecord>, k: nat)
    requires files != [] && history != [] && history[0].migrationName == files[0]
    requires IsFirstMismatch(files[1..], history[1..], k)
    ensures IsFirstMismatch(files, history, k + 1)
  {
    var files', history' := files[1..], history[1..];
    if k > 0 {
      var prev := history'[k - 1];
      assert k - 1 < |files'| && prev.migrationName == files'[k - 1];
    }
    assert k < |files|;
    forall j | 0 <= j < k + 1
      ensures history[j].migrationName == files[j]
    {
      if j > 0 {
        var prev := history'[j - 1];
        assert prev.migrationName == files'[j - 1];
        assert history[j] == prev && files[j] == files'[j - 1];
      }
    }
    var last := history'[k];
    assert history[k + 1] == last;
    assert !(k < |files'| && last.migrationName == files'[k]);
  }

  /** The walk stops at the first mismatching record, reporting the planned file at
      that position. */
  lemma {:induction false} ConsumeAtFirstMismatch(files: seq<string>, history: seq<MigrationRecord>, k: nat)
    requires IsFirstMismatch(files, history, k)
    ensures Consume(files, history) == OutOfSync(HeadAt(files, k), history[k])
    decreases k
  {
    if k > 0 {
      MismatchAfterShift(files, history, k - 1);
      ConsumeAtFirstMismatch(files[1..], history[1..], k - 1);
    }
  }

  /** `to_be_run_migration_file_names` as a function of the planned files, the history
      and the timestamp formatter. On success the history was the planned files'
      prefix and the rest of the plan is returned; an error always carries the
      planned files and the history it was given. */
  function ToBeRun(planned: seq<string>, history: seq<MigrationRecord>, formatTime: int -> string): (r: Result<seq<string>>)
    ensures r.Ok? ==> HistoryIsPrefix(planned, history) && r.value == planned[|history|..]
    ensures r.Err? ==> r.error.plannedFiles == planned && r.error.alreadyRunMigrations == history
  {
    if history == [] then Ok(planned)
    else
      var missing := Difference(Names(history), planned);
      if missing != [] then Err(PlanError(MissingMessage(missing), planned, history))
      else match Consume(planned, history)
        case Rest(files) => Ok(files)
        case OutOfSync(head, record) =>
          Err(PlanError(OrderMessage(head, record.migrationName, formatTime(record.runOn)), planned, history))
  }

  /** The `map` of `migrations_to_be_run`: one unit per name, in order, carrying that
      file's contents. */
  function Units(names: seq<string>, contents: string -> string): (units: seq<MigrationUnit>)
    ensures |units| == |names|
    ensures forall i :: 0 <= i < |names| ==> units[i] == MigrationUnit(names[i], contents(names[i]))
  {
    if names == [] then [] else [MigrationUnit(names[0], contents(names[0]))] + Units(names[1..], contents)
  }

  class Plan {
    /** The plan file's content. */
    const planFile: string
    const migrationDir: string
    /** The regular files under `migrationDir`, as paths relative to it. */
    const listing: seq<string>
    /** The content of each file under `migrationDir`, by relative path. */
    const contents: string -> string

    var plannedFiles: seq<string>
    /** `@migration_files`, filled on first use. */
    var migrationFilesCache: Option<seq<string>>

    ghost predicate Valid()
      reads this
    {
      plannedFiles == ParsePlan(planFile) &&
      (migrationFilesCache.Some? ==> migrationFilesCache.value == listing)
    }

    constructor (planFile: string, migrationDir: string, listing: seq<string>, contents: string -> string)
      ensures Valid()
      ensures this.planFile == planFile && this.migrationDir == migrationDir
      ensures this.listing == listing && this.contents == contents
      ensures plannedFiles == ParsePlan(planFile) && migrationFilesCache == None
    {
      this.planFile := planFile;
      this.migrationDir := migrationDir;
      this.listing := listing;
      this.contents := contents;
      plannedFiles := ParsePlan(planFile);
      migrationFilesCache := None;
    }

    /** `migration_files`: the listing, kept after the first call. */
    method MigrationFiles() returns (files: seq<string>)
      requires Valid()
      modifies this`migrationFilesCache
      ensures Valid()
      ensures files == listing && migrationFilesCache == Some(listing)
      ensures plannedFiles == old(plannedFiles)
    {
      if migrationFilesCache.None? {
        migrationFilesCache := Some(listing);
      }
      files := migrationFilesCache.value;
    }

    /** `files_missing_from_plan`: files on disk that the plan does not list. */
    method FilesMissingFromPlan() returns (missing: seq<string>)
      requires Valid()
      modifies this`migrationFilesCache
      ensures Valid() && migrationFilesCache == Some(listing)
      ensures plannedFiles == old(plannedFiles)
      ensures missing == Difference(listing, plannedFiles)
    {
      var files := MigrationFiles();
      missing := Difference(files, plannedFiles);
    }

    /** `files_missing_from_migration_dir`: planned files that are not on disk. */
    method FilesMissingFromMigrationDir() returns (missing: seq<string>)
      requires Valid()
      modifies this`migrationFilesCache
      ensures Valid() && migrationFilesCache == Some(listing)
      ensures plannedFiles == old(plannedFiles)
      ensures missing == Difference(plannedFiles, listing)
    {
      var files := MigrationFiles();
      missing := Difference(plannedFiles, files);
    }

    /** `to_be_run_migration_file_names`: shifts a copy of the planned files once per
      history record. It has no modifies clause, so the planned files stay as they were. */
    method ToBeRunMigrationFileNames(history: seq<MigrationRecord>, formatTime: int -> string)
      returns (r: Result<seq<string>>)
      ensures r == ToBeRun(plannedFiles, history, formatTime)
    {
      if history == [] {
        return Ok(plannedFiles);
      }
      var missing := Difference(Names(history), plannedFiles);
      if missing != [] {
        return Err(PlanError(MissingMessage(missing), plannedFiles, history));
      }
      var files := plannedFiles;
      var i := 0;
      while i < |history|
        invariant i <= |history| && i <= |plannedFiles|
        invariant files == plannedFiles[i..]
        invariant forall j :: 0 <= j < i ==> history[j].migrationName == plannedFiles[j]
      {
        if files != [] && history[i].migrationName == files[0] {
          files := files[1..];
        } else {
          var head := if files == [] then "" else files[0];
          assert IsFirstMismatch(plannedFiles, history, i);
          ConsumeAtFirstMismatch(plannedFiles, history, i);
          assert head == HeadAt(plannedFiles, i);
          var runOn := formatTime(history[i].runOn);
          return Err(PlanError(OrderMessage(head, history[i].migrationName, runOn), plannedFiles, history));
        }
        i := i + 1;
      }
      assert HistoryIsPrefix(plannedFiles, history);
      return Ok(files);
    }

    /** `migrations_to_be_run`: the names still to run, each paired with its file's
      contents (`get_migration_contents(f)` is `contents(f)`), in plan order; a
      reconciliation error passes through unchanged. */
    method MigrationsToBeRun(history: seq<MigrationRecord>, formatTime: int -> string)
      returns (r: Result<seq<MigrationUnit>>)
      ensures ToBeRun(plannedFiles, history, formatTime).Err? ==>
                r == Err(ToBeRun(plannedFiles, history, formatTime).error)
      ensures ToBeRun(plannedFiles, history, formatTime).Ok? ==>
                var names := ToBeRun(plannedFiles, history, formatTime).value;
                r.Ok? && |r.value| == |names| &&
                forall i :: 0 <= i < |names| ==> r.value[i] == MigrationUnit(names[i], contents(names[i]))
    {
      var names := ToBeRunMigrationFileNames(history, formatTime);
      match names
      case Ok(files) =>
        r := Ok(Units(files, contents));
      case Err(e) =>
        r := Err(e);
    }
  }
}
