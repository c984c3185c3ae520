/**
 * The run endpoints: `store` admits a run of submitted code for a session
 * (a QUEUED row plus one job on the queue, answered at once with 202), and
 * `show` reads one row back for polling.
 */
module ExecutionController {
  import opened Wrappers
  import opened Records
  import opened Storage

  /** The language an execution gets when its session names none. */
  const DefaultLanguage: string := "python"

  /** The JSON answer to a run request. */
  datatype RunResponse = RunResponse(httpStatus: nat, executionId: nat, status: Status)

  /** The JSON answer to a status poll. */
  datatype ExecutionView = ExecutionView(
    executionId: nat,
    status: Status,
    stdout: Option<string>,
    stderr: Option<string>,
    executionTime: Option<nat>)

  /**
   * The row `store` creates for a run of `code` in `session`: QUEUED, with
   * the code copied into both `code` and the snapshot, and the session's
   * language when it has one (even an empty one), else "python".
   */
  function NewExecution(id: nat, session: CodeSession, code: string): (e: Execution)
    ensures e.id == id && e.sessionId == session.id && e.status == QUEUED
    ensures e.code == code && e.snapshot == code
    ensures session.language.Some? ==> e.language == session.language.value
    ensures session.language.None? ==> e.language == DefaultLanguage
    ensures e.stdout == None && e.stderr == None && e.executionTime == None
    ensures e.startedAt == None && e.finishedAt == None
  {
    Execution(id, session.id, code, session.language.GetOr(DefaultLanguage), code,
              QUEUED, None, None, None, None, None)
  }

  /**
   * The snapshot is a copy: the session's own working code plays no part in
   * the row, so no later edit of that code can reach it.
   */
  lemma SnapshotIgnoresSessionCode(id: nat, session: CodeSession, code: string, edited: string)
    ensures NewExecution(id, session, code) == NewExecution(id, session.(code := edited), code)
    ensures NewExecution(id, session.(code := edited), code).snapshot == code
  {
  }

  /** The projection `show` returns: the row's fields exactly as stored. */
  function View(e: Execution): (v: ExecutionView)
    ensures v.executionId == e.id && v.status == e.status && v.stdout == e.stdout
    ensures v.stderr == e.stderr && v.executionTime == e.executionTime
  {
    ExecutionView(e.id, e.status, e.stdout, e.stderr, e.executionTime)
  }

  /**
   * `store`: creates exactly one new row, pushes exactly its id onto the
   * queue, and answers 202 with that id and QUEUED; the sessions, the
   * problems and every existing row are left as they were.
   */
  method Store(db: Database, sessionId: nat, code: string) returns (response: RunResponse)
    requires db.Valid()
    requires sessionId < |db.sessions|
    modifies db`executions, db`nextExecutionId, db`queue
    ensures db.Valid()
    ensures response == RunResponse(202, old(db.nextExecutionId), QUEUED)
    ensures response.executionId !in old(db.executions)
    ensures db.executions == old(db.executions)[response.executionId := NewExecution(response.executionId, db.sessions[sessionId], code)]
    ensures db.queue == old(db.queue) + [response.executionId]
    ensures db.nextExecutionId == old(db.nextExecutionId) + 1
  {
    var id := db.nextExecutionId;
    db.executions := db.executions[id := NewExecution(id, db.sessions[sessionId], code)];
    db.nextExecutionId := id + 1;
    db.queue := db.queue + [id];
    response := RunResponse(202, id, QUEUED);
  }

  /**
   * `show`: the stored fields of an existing row; an unknown id is a 404
   * from route binding, here None. Reading changes nothing.
   */
  function Show(db: Database, id: nat): (r: Option<ExecutionView>)
    reads db
    ensures r.Some? <==> id in db.executions
    ensures r.Some? ==> r.value == View(db.executions[id])
  {
    if id in db.executions then Some(View(db.executions[id])) else None
  }
}
