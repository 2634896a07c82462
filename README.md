# Hummingbird migration plan, modelled in Dafny

Hummingbird applies SQL migrations in the order a plan file declares, each at
most once. This project models the part that decides what is left to run:
`Hummingbird::Plan` and its error type `Hummingbird::PlanError`.

A `Plan` holds two lists:

- the planned files, parsed from the plan file with Ruby's `split("\n")`;
- the files found in the migration directory.

It reports drift between the two lists with Ruby's ordered array difference.
Given the history of migrations already run (records `{migration_name, run_on}`),
it computes which planned migrations are still to run. It raises a `PlanError`
in two cases:

- a recorded migration is not in the plan ("Plan is missing the following
  already run migrations: …");
- the history is not an in-order prefix of the plan ("Plan has 'X' before 'Y'
  which was run on …").

Modules:

- `RubyCore` (`ruby_core.dfy`): the Ruby library behaviour the plan relies on.
  `Fields` and `Split` give `String#split` with a one-character separator.
  `Join` is `Array#join`. `Difference` is `Array#-`. The file also holds their
  round-trip, order and membership lemmas.
- `Migrations` (`migrations.dfy`): the history record, the migration unit and
  the name projection of a history.
- `PlanErrors` (`plan_error.rb` → `plan_error.dfy`): `PlanError` as an immutable
  datatype. Its destructors are the three readers.
- `Plans` (`plan.dfy`): `ToBeRun`, the reconciliation as a function of the
  planned files, the history and a timestamp formatter. Also the `Plan` class,
  which keeps the planned files in a field and memoizes the directory listing in
  another. `ToBeRunMigrationFileNames` is the shifting loop of the source. It is
  proved equal to `ToBeRun`, and it has no `modifies` clause, so it cannot change
  the planned files.
- `PlanProperties` (`plan_properties.dfy`): what the reconciliation promises.
  This covers the prefix law in both directions, the two errors, which error
  takes precedence, the first-mismatch rule, drift, and the repository's test
  scenarios.

Inputs that stand in for I/O:

- The constructor receives the plan file's content, the directory listing, and
  `contents: string -> string`, the contents of each file in the directory.
- The formatted `run_on` timestamp in the order error is `formatTime(run_on)`.
  `formatTime` is a function parameter of the reconciliation, so the model
  treats it as opaque.

`split("\n")` keeps interior blank lines as `""` and drops only trailing empty
fields (`BlankLinesKept`).
The repository's tests build a plan from a configuration object. `Plan#initialize` takes the plan file and the migration directory, and the constructor follows it.

## Model

| member | source | states |
|---|---|---|
| RubyCore.Fields | lib/hummingbird/plan.rb:63 | the newline-separated fields of the plan text: at least one, none containing the separator |
| RubyCore.DropTrailingEmpty | lib/hummingbird/plan.rb:63 | result is a prefix of the fields, ends in a non-empty field (or is empty), and only `""` fields were dropped |
| RubyCore.Split | lib/hummingbird/plan.rb:62-64 | `split("\n")` is a prefix of all fields with only trailing empty fields removed; interior empty fields stay; no entry contains a newline |
| RubyCore.Join | lib/hummingbird/plan.rb:39 | `join(sep)`: its length is the parts' total length plus one separator between each pair of neighbours (its inverse is `JoinFields`/`FieldsJoin`) |
| RubyCore.JoinFields | lib/hummingbird/plan.rb:63 | joining the fields with the separator gives the original text back |
| RubyCore.FieldsPrepend | lib/hummingbird/plan.rb:63 | text without a separator is glued onto the first field of what follows |
| RubyCore.FieldsJoin | lib/hummingbird/plan.rb:63 | splitting joined separator-free parts gives the parts back |
| RubyCore.FieldsAppendSeparator | lib/hummingbird/plan.rb:63 | a trailing newline adds exactly one trailing empty field |
| RubyCore.SplitLines | lib/hummingbird/plan.rb:62-64 | a plan file written one name per line parses back to exactly those names, in order |
| RubyCore.Difference | lib/hummingbird/plan.rb:19 | `a - b` is no longer than `a`, and each of its elements is in `a` and not in `b` |
| RubyCore.DifferenceMembers | lib/hummingbird/plan.rb:18-24 | `a - b` holds exactly the elements of `a` not in `b` |
| RubyCore.DifferenceCount | lib/hummingbird/plan.rb:38 | `a - b` keeps duplicates: each surviving element occurs as often as in `a` |
| RubyCore.DifferenceConcat | lib/hummingbird/plan.rb:38 | `a - b` distributes over concatenation, so it keeps the order of `a` |
| RubyCore.DifferenceEmpty | lib/hummingbird/plan.rb:38 | `a - b` is empty if and only if every element of `a` is in `b` |
| RubyCore.DifferenceDisjoint | lib/hummingbird/plan.rb:18-24 | removing elements that `a` does not contain leaves `a` unchanged |
| RubyCore.DifferenceSelf | lib/hummingbird/plan.rb:18-24 | a list minus itself is empty |
| RubyCore.DifferenceAroundMiddle | lib/hummingbird/plan.rb:18-24 | removing a middle part whose elements occur nowhere around it leaves the parts before and after it, in order |
| RubyCore.SameElementsNoDifference | lib/hummingbird/plan.rb:18-24 | two lists with the same elements have empty differences both ways |
| Migrations.Names | lib/hummingbird/plan.rb:38 | the history's names, one per record, in history order |
| PlanErrors.ReadersReturnConstructorArguments | lib/hummingbird/plan_error.rb:3-9 | `message`, `planned_files` and `already_run_migrations` return exactly the constructor's arguments |
| Plans.MissingMessage | lib/hummingbird/plan.rb:39 | the message starts with "Plan is missing the following already run migrations: "; with no names it is just that prefix, with one name it is the prefix followed by that name |
| Plans.OrderMessage | lib/hummingbird/plan.rb:49 | "Plan has '<head>' before '<name>' which was run on <time>": the head, the name and the time sit at fixed offsets, and the length is theirs plus 39 fixed characters |
| Plans.ParsePlan | lib/hummingbird/plan.rb:62-64 | the planned names are the newline-separated lines of the file, in order, with interior blank lines kept and only trailing blank lines dropped; no name holds a newline |
| Plans.Consume | lib/hummingbird/plan.rb:42-51 | the shift walk ends with the rest of the files exactly when the history is an in-order prefix, and the rest is the suffix after it |
| Plans.ConsumeAtFirstMismatch | lib/hummingbird/plan.rb:43-50 | the walk stops at the first mismatching record and reports the planned file at that position, or `""` when none is left |
| Plans.ToBeRun | lib/hummingbird/plan.rb:35-54 | success means the history was a prefix, and the result is the planned files after it; every error carries the planned files and the history unchanged |
| Plans.Units | lib/hummingbird/plan.rb:26-33 | one `{migration_name, sql}` per name, same order, `sql = contents(name)` |
| Plans.Plan.constructor | lib/hummingbird/plan.rb:9-12 | planned files are the parse of the plan text; the listing is not cached yet |
| Plans.Plan.MigrationFiles | lib/hummingbird/plan.rb:14-16 | returns the listing and caches it; the planned files are untouched |
| Plans.Plan.FilesMissingFromPlan | lib/hummingbird/plan.rb:18-20 | the listing minus the planned files, in listing order |
| Plans.Plan.FilesMissingFromMigrationDir | lib/hummingbird/plan.rb:22-24 | the planned files minus the listing |
| Plans.Plan.ToBeRunMigrationFileNames | lib/hummingbird/plan.rb:35-54 | the shifting loop returns exactly `ToBeRun` of the planned files and changes no field |
| Plans.Plan.MigrationsToBeRun | lib/hummingbird/plan.rb:26-33 | a reconciliation error passes through unchanged; otherwise one unit per name to run, in order, with that file's contents |
| PlanProperties.EmptyHistoryRunsWholePlan | lib/hummingbird/plan.rb:36 | with an empty history, the planned files are returned unchanged |
| PlanProperties.SucceedsIffHistoryIsPrefix | lib/hummingbird/plan.rb:42-53 | success if and only if the history names the first planned files in order; the result is then the remaining suffix |
| PlanProperties.MissingFromPlanTakesPrecedence | lib/hummingbird/plan.rb:38-40 | any recorded name outside the plan yields the missing error: all such names, in history order with duplicates, joined by `", "`, raised before any order check |
| PlanProperties.OrderViolationAtFirstMismatch | lib/hummingbird/plan.rb:43-50 | with all names planned, the error is "Plan has '<head>' before '<name>' which was run on <time>" at the first mismatching record |
| PlanProperties.NotPrefixHasFirstMismatch | lib/hummingbird/plan.rb:43-50 | a history that is not a prefix has a first mismatching record |
| PlanProperties.FailureIsOneOfTwoErrors | lib/hummingbird/plan.rb:35-54 | every failure is either a missing-from-plan case or the order error at the first mismatch |
| PlanProperties.DistinctHistoryMismatchesInsidePlan | lib/hummingbird/plan.rb:44-49 | with distinct planned names in the history, the first mismatch lies inside the plan, so the empty head needs a repeated record |
| PlanProperties.NoDriftWhenInSync | test/lib/hummingbird/plan_test.rb:90-105 | same elements on disk and in the plan means no drift either way |
| PlanProperties.ReconcileTwice | lib/hummingbird/plan.rb:26-54 | reconciling, building units and reconciling again gives equal results and leaves the parsed planned files in place |
| PlanProperties.PrefixExample | lib/hummingbird/plan.rb:42-53 | plan `[a,b,c,d]` with history `[a,b]` leaves `[c,d]` |
| PlanProperties.MissingExample | lib/hummingbird/plan.rb:38-40 | a record of an unplanned `e` gives "Plan is missing the following already run migrations: e" |
| PlanProperties.OrderExample | lib/hummingbird/plan.rb:43-50 | history `[a,c]` against `[a,b,c,d]` gives the order error naming `b`, `c` and `c`'s time |
| PlanProperties.ExhaustedPlanExample | lib/hummingbird/plan.rb:44-49 | plan `[a]` with history `[a,a]` gives the order error with an empty head |
| PlanProperties.FourLinePlan | lib/hummingbird/plan.rb:62-64 | a plan file of four newline-free names, each ended by a newline, parses to exactly those names in order |
| PlanProperties.BasicPlanParses | test/lib/hummingbird/plan_test.rb:4-17 | the basic plan file's content parses to `file1.sql`..`file4.sql`, in order |
| PlanProperties.BlankLinesKept | lib/hummingbird/plan.rb:63 | an interior blank line survives as `""`; trailing blank lines are dropped |
| PlanProperties.SliceDifferenceEmpty | test/lib/hummingbird/plan_test.rb:56-88 | a slice of a list minus the list is empty |
| PlanProperties.OutsideSliceSurvives | test/lib/hummingbird/plan_test.rb:56-88 | in a list without repeats, removing a slice leaves the elements around it, in order |
| PlanProperties.ExtraFilesOnDiskExample | test/lib/hummingbird/plan_test.rb:56-71 | seven distinct files with the middle four planned: the first and last two are missing from the plan, none from the directory |
| PlanProperties.PlannedFilesMissingOnDiskExample | test/lib/hummingbird/plan_test.rb:73-88 | four distinct planned files with the middle two on disk: the outer two are missing from the directory, none from the plan |

## Left out

- lib/hummingbird/database.rb (connection, table listing, ordered history query, transactional apply, `DateTime.now`) is not part of this model: it is a wrapper over an external SQL library.
- lib/hummingbird/configuration.rb is not part of this model: its layering is done by an external configuration loader and path expansion.
- Reading the plan file, walking the migration directory (`Dir[...]`, `File.file?`, relative paths) and reading a migration file are I/O. They are inputs: the plan text, the listing and `contents`, and each is total. `File.read` of a missing or unreadable file raises `Errno::ENOENT` or `Errno::EACCES` (a `SystemCallError`), and the model does not have those failures. `Dir[...]` on a missing directory gives `[]`, which is an empty `listing`.
- `get_migration_contents` (lib/hummingbird/plan.rb:56-58) is the `contents` input itself: `contents(name)` is the text of that migration file. Resolving the path with `File.absolute_path(migration_file, migration_dir)` is not modelled.
- Plans.Plan.constructor: the listing is a snapshot taken at construction. The source walks the directory at the first `migration_files` call, so files added between `Plan.new` and that call are seen by the source and not by the model. The cache field therefore has no observable effect on the answers.
- Timestamp formatting (`DateTime.strptime(...).to_s`) is the opaque parameter `formatTime`. The model does not describe the text it produces.
- Aliasing of arrays is not modelled, because sequences are values here. The source shares arrays in three places:
  - Plans.Plan.ToBeRunMigrationFileNames: with an empty history, the source returns the `planned_files` array itself rather than a copy.
  - `PlanError.new` (lib/hummingbird/plan.rb:39, 49; lib/hummingbird/plan_error.rb:7-8) stores the plan's own `planned_files` array and the caller's history array without copying them.
  - `attr_reader :planned_files` (lib/hummingbird/plan.rb:7) hands out the internal array.

  A caller that mutated any of these arrays would change the plan, or the error, behind its back.
- `String#split` is modelled only for a one-character separator that is not a space, which is the only way the source calls it. Ruby's other split modes are not modelled.
- The history is a sequence of `{migration_name, run_on}` records. Any other columns a table row might carry are not modelled.
- The fixture file `basic.plan` is not part of this model. `BasicPlanFile` assumes it holds `file1.sql`..`file4.sql`, one per line, each followed by a newline.
- The drift tests use concrete file names. Their lemmas state the same scenarios for any distinct names, because the model does not compare concrete file-name strings.
- Concurrency: the source has none.
