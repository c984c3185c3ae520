/**
 * The rows the execution subsystem reads and writes: code executions, the
 * code sessions they belong to, and the problems that hold code templates.
 * Identifiers (UUIDs in the application) are abstract natural numbers.
 */
module Records {
  import opened Wrappers

  /** An abstract clock reading (a Carbon timestamp in the application). */
  type Time = nat

  /** The status column of a code execution: an enum of five values. */
  datatype Status = QUEUED | RUNNING | COMPLETED | FAILED | TIMEOUT {
    /** The states a handled job ends in. */
    predicate IsTerminal() {
      this == COMPLETED || this == FAILED || this == TIMEOUT
    }
  }

  /**
   * One code execution. `code` and `snapshot` are both copies of the code
   * submitted with the run request; `stdout`, `stderr`, `executionTime`,
   * `startedAt` and `finishedAt` are null until the job writes them.
   */
  datatype Execution = Execution(
    id: nat,
    sessionId: nat,
    code: string,
    language: string,
    snapshot: string,
    status: Status,
    stdout: Option<string>,
    stderr: Option<string>,
    executionTime: Option<nat>,
    startedAt: Option<Time>,
    finishedAt: Option<Time>)

  /** The status a code session is created with and searched for. */
  const ActiveStatus: string := "ACTIVE"

  /** One user's editing session on one problem. */
  datatype CodeSession = CodeSession(
    id: nat,
    userId: int,
    problemId: nat,
    language: Option<string>,
    code: string,
    status: string)

  /** A problem; its code template maps a language name to starter code (a JSON object). */
  datatype Problem = Problem(id: nat, codeTemplate: map<string, Option<string>>)

  /** The session is an ACTIVE session of this user on this problem. */
  predicate IsActiveFor(s: CodeSession, userId: int, problemId: nat) {
    s.status == ActiveStatus && s.userId == userId && s.problemId == problemId
  }

  /** No two ACTIVE sessions share a (user, problem) pair. */
  ghost predicate AtMostOneActive(sessions: seq<CodeSession>) {
    forall i, j | 0 <= i < j < |sessions| && sessions[i].status == ActiveStatus ::
      !IsActiveFor(sessions[j], sessions[i].userId, sessions[i].problemId)
  }

  /** Sessions are stored in creation order and each one's id is its position. */
  ghost predicate IdsAreIndices(sessions: seq<CodeSession>) {
    forall i | 0 <= i < |sessions| :: sessions[i].id == i
  }
}
