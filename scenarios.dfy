/**
 * Sequences of calls a client makes, with what their contracts alone let it
 * conclude, in the manner of the application's feature test.
 */
module Scenarios {
  import opened Wrappers
  import opened Records
  import opened Storage
  import RunCodeJob
  import ExecutionController
  import CodeSessionController

  /**
   * Submitting a run and then saving different code in the session: the
   * execution keeps the code submitted with the run.
   */
  method SubmitThenEdit(db: Database, sessionId: nat, code: string, edited: string) returns (executionId: nat)
    requires db.Valid()
    requires sessionId < |db.sessions|
    modifies db`executions, db`nextExecutionId, db`queue, db`sessions
    ensures db.Valid()
    ensures executionId in db.executions
    ensures db.executions[executionId].snapshot == code && db.executions[executionId].code == code
    ensures sessionId < |db.sessions| && db.sessions[sessionId].code == edited
  {
    var response := ExecutionController.Store(db, sessionId, code);
    executionId := response.executionId;
    var _ := CodeSessionController.Update(db, sessionId, edited, None);
  }

  /**
   * Submitting a run and having the worker handle the one job it queued:
   * polling then shows a terminal status, and the job was enqueued once.
   */
  method SubmitAndRun(db: Database, sessionId: nat, code: string, sandbox: RunCodeJob.Request -> RunCodeJob.Outcome,
                      startedAt: Time, finishedAt: Time, elapsedMs: nat) returns (executionId: nat)
    requires db.Valid()
    requires sessionId < |db.sessions|
    modifies db`executions, db`nextExecutionId, db`queue
    ensures db.Valid()
    ensures db.queue == old(db.queue) + [executionId]
    ensures ExecutionController.Show(db, executionId).Some?
    ensures ExecutionController.Show(db, executionId).value.status.IsTerminal()
    ensures ExecutionController.Show(db, executionId).value.executionId == executionId
  {
    var response := ExecutionController.Store(db, sessionId, code);
    executionId := response.executionId;
    assert ExecutionController.Show(db, executionId).value.status == QUEUED;
    var _ := RunCodeJob.Handle(db, executionId, sandbox, startedAt, finishedAt, elapsedMs);
  }

  /** Opening a session twice for the same user and problem yields the same session. */
  method OpenTwice(db: Database, userId: int, problemId: nat, language: string, language': string)
    returns (first: nat, second: nat)
    requires db.Valid()
    requires problemId in db.problems
    modifies db`sessions
    ensures db.Valid()
    ensures first == second
    ensures |db.sessions| <= |old(db.sessions)| + 1
  {
    CodeSessionController.StoreIsIdempotent(db.sessions, db.problems[problemId], db.problems[problemId],
                                            userId, problemId, language, language');
    var r1 := CodeSessionController.Store(db, userId, problemId, language);
    var r2 := CodeSessionController.Store(db, userId, problemId, language');
    first, second := r1.sessionId, r2.sessionId;
  }
}
