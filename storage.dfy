/**
 * The state the controllers and the job share: the code-executions table
 * (a map from id to row), the job queue (the execution ids pushed to it, in
 * order), the code-sessions table and the problems table.
 */
module Storage {
  import opened Records

  class Database {
    /** The code-executions table, keyed by execution id. */
    var executions: map<nat, Execution>
    /** The id the next created execution receives (UUID generation in the application). */
    var nextExecutionId: nat
    /** The execution ids dispatched to the job queue, oldest first. */
    var queue: seq<nat>
    /** The code-sessions table in creation order; a session's id is its position. */
    var sessions: seq<CodeSession>
    /** The problems table; the core only reads it. */
    var problems: map<nat, Problem>

    /**
     * Every execution row is stored under its own id, below the id counter,
     * and belongs to an existing session; every queued id names a stored
     * execution; session ids are positions; and no (user, problem) pair has
     * two ACTIVE sessions.
     */
    ghost predicate Valid()
      reads this
    {
      && (forall id | id in executions ::
            executions[id].id == id && id < nextExecutionId && executions[id].sessionId < |sessions|)
      && (forall i | 0 <= i < |queue| :: queue[i] in executions)
      && IdsAreIndices(sessions)
      && AtMostOneActive(sessions)
    }

    /** An empty database over a given problems table. */
    constructor (problems: map<nat, Problem>)
      ensures Valid()
      ensures executions == map[] && nextExecutionId == 0 && queue == [] && sessions == [] && this.problems == problems
    {
      executions := map[];
      nextExecutionId := 0;
      queue := [];
      sessions := [];
      this.problems := problems;
    }
  }
}
