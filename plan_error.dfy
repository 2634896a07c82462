/** `Hummingbird::PlanError`: the error raised when the run history conflicts with
    the plan. As a datatype its payload is immutable; the three destructors are the
    readers `message`, `planned_files` and `already_run_migrations`. */
module PlanErrors {
  import opened Migrations

  datatype PlanError = PlanError(
    message: string,
    plannedFiles: seq<string>,
    alreadyRunMigrations: seq<MigrationRecord>)

  /** Each reader returns exactly what was handed to the constructor. */
  lemma ReadersReturnConstructorArguments(msg: string, planned: seq<string>, history: seq<MigrationRecord>)
    ensures PlanError(msg, planned, history).message == msg
    ensures PlanError(msg, planned, history).plannedFiles == planned
    ensures PlanError(msg, planned, history).alreadyRunMigrations == history
  {
  }
}
