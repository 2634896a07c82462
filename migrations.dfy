/** The two records that flow through the reconciliation: a row of run history and
    a migration ready to run. */
module Migrations {

  /** One row of the migrations table: `{migration_name:, run_on:}`, with `run_on`
      in seconds since the Unix epoch. */
  datatype MigrationRecord = MigrationRecord(migrationName: string, runOn: int)

  /** `{migration_name:, sql:}`: a planned migration paired with its file contents. */
  datatype MigrationUnit = MigrationUnit(migrationName: string, sql: string)

  /** `history.map {|a| a[:migration_name]}`. */
  function Names(history: seq<MigrationRecord>): (names: seq<string>)
    ensures |names| == |history|
    ensures forall i :: 0 <= i < |history| ==> names[i] == history[i].migrationName
  {
    if history == [] then [] else [history[0].migrationName] + Names(history[1..])
  }
}
