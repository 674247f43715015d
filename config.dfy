/**
 * The record shapes of internal/config/config.go: a Task is one binary
 * operation of a compiled expression, an Expression owns its tasks.
 * Identifiers and statuses are plain strings, as in the source; a status
 * is normally "pending", "completed" or "error" but nothing enforces it.
 * A float64 result is only copied by the core and is modelled as `real`;
 * a time.Duration is a number of nanoseconds.
 */
module Config {

  /** The simulated duration of each operation kind (Config.Time*). */
  datatype OperationTimes = OperationTimes(
    addition: int,
    subtraction: int,
    multiplication: int,
    division: int)

  datatype Task = Task(
    id: string,
    expressionId: string,
    arg1: string,
    arg2: string,
    operation: string,
    operationTime: int,
    status: string,
    result: real,
    dependencies: seq<string>)

  datatype Expression = Expression(
    id: string,
    status: string,
    result: real,
    tasks: seq<Task>)

  const Pending := "pending"
  const Completed := "completed"
  const Failed := "error"

  /** The identifiers of a task list, in order. */
  function Ids(ts: seq<Task>): (r: seq<string>)
    ensures |r| == |ts|
    ensures forall i :: 0 <= i < |ts| ==> r[i] == ts[i].id
  {
    seq(|ts|, i requires 0 <= i < |ts| => ts[i].id)
  }

}
