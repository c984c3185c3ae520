# Live code execution: the run subsystem, modelled in Dafny

The application lets a user open a coding session on a problem, edit code in it, and submit a run. The run is admitted at once: the response is 202 with a new execution id in status QUEUED. A queued job then runs the code in a docker sandbox and writes one terminal result. The client polls the execution for that result.

This project models the three pieces of logic behind that flow:

- **The execution job** (`RunCodeJob`). It loads the row and marks it RUNNING. It checks the language case-insensitively. It asks the sandbox to run the snapshot, or does not ask when the language is refused. It maps the one outcome to exactly one terminal status with its stderr text. A separate entry point, `failed`, finalises a job whose retries ran out.
- **Run admission and polling** (`ExecutionController`). `store` creates a QUEUED row that holds two copies of the submitted code and pushes exactly that row's id onto the queue. `show` is a read-only projection of one row.
- **Session find-or-create and save** (`CodeSessionController`). `store` returns the ACTIVE session of a (user, problem) pair if one exists. Otherwise it opens one from the problem's code template for the requested language, or from `''` when there is no template. `update` replaces the code and keeps the old language unless a new one is given.

The shared state is a `Storage.Database` object. It holds the code-executions table (a map from id to row), the job queue (the dispatched ids, in order), the code-sessions table (a sequence where each session's id is its position) and the problems table, which is only read. `Database.Valid()` states the invariants that every method keeps:

- every row is stored under its own id and belongs to an existing session;
- every queued id names a stored row;
- no (user, problem) pair has two ACTIVE sessions.

Each method is proved against a pure function of the old state: `HandleRecord`, `FailedRecord`, `NewExecution`, `StoreResult` and `Updated`. The lemmas about those functions carry the properties:

- every handled job ends in a terminal state, with `finished_at` set;
- a refused language never reaches the sandbox;
- the sandbox sees a fixed command line and gets the code only on stdin;
- each admission enqueues exactly one id;
- the snapshot does not depend on the session's working code;
- `store` keeps at most one ACTIVE session per (user, problem) and is idempotent.

The sandbox is an oracle: a function from the job's `Request` (command line, stdin, timeout) to an `Outcome`, one of `TimedOut(stderr)`, `Exited(code, stdout, stderr)` or `Threw(message)`. `Handle` returns the request it made, or `None` when it never invoked the sandbox. The clock readings (`started_at`, `finished_at`) and the rounded elapsed milliseconds are parameters. Identifiers (UUIDs in the application) are natural numbers. A new execution takes the next value of a counter, and a new session takes the next position in the table.

Assumptions, and behaviour the code does not have:

- `app/Models/Execution.php:13-22` does not list `language`, `snapshot_source_code` or `finished_at` as fillable. It lists `started_at` and `completed_at`, but nothing writes `completed_at`. The migration shown for the code-executions table, `database/migrations/2026_01_20_081010_create_code_executions_table.php:14-23`, has no column for `language`, `snapshot_source_code`, `started_at` or `finished_at`. Taken literally, that schema would make the RUNNING update of `handle` fail before its `try`, so every run would end through `failed` instead. Later migrations that add these columns may exist elsewhere. The model has all these fields, written just as the controller and the job write them. It models neither Eloquent dropping attributes that are not fillable nor a write to a missing column.
- Run admission has no rate limit and no check for a run already QUEUED or RUNNING in the same session: `ExecutionController::store` always admits and never answers 409 or 429. A RUNNING row is finalised only by the job itself: by a later retry, or by `failed` once retries run out. Nothing sweeps up a row whose job the queue never finalises.
- Terminal rows are not frozen. `handle` marks any loaded row RUNNING again (which is how job-level retries work), and `failed` overwrites whatever status the row has. `HandleRecord` and `FailedRecord` therefore accept a row in any status.
- `strtolower` is modelled as PHP 8.2 and later define it: only the ASCII letters `A`-`Z` are lower-cased.
- Session `language` is nullable in the model (`Option<string>`). This gives the `?? 'python'` fallback in `ExecutionController::store` something to act on. That fallback keeps an empty string as it is.
- CodeSessionController `store` takes the first matching session in creation order. The database gives no order without `ORDER BY`. Under the invariant at most one session matches, so the choice cannot matter.

## Model

| member | source | states |
|---|---|---|
| RunCodeJob.AsciiLower | app/Jobs/RunCodeJob.php:43 | lower-casing keeps the length and maps every character on its own, `A`-`Z` to `a`-`z` and nothing else |
| RunCodeJob.IsSupportedLanguage | app/Jobs/RunCodeJob.php:43-46 | the job accepts a language when its lower-cased form is "python"; an accepted language has six characters |
| RunCodeJob.SupportedLanguageSpelling | app/Jobs/RunCodeJob.php:43-48 | a language is accepted iff it is exactly six characters spelling "python" in any mix of upper and lower case (so "python3", " python" and "" are refused) |
| RunCodeJob.FailureStderr | app/Jobs/RunCodeJob.php:96 | the stderr written on a non-zero exit is never PHP-falsy; it is the captured stderr iff that stderr is not "" or "0", and otherwise "Container failed to start/run." |
| RunCodeJob.ErrorUpdate | app/Jobs/RunCodeJob.php:101-107 | the exception path writes FAILED and a stderr that starts with "Execution error: " and ends with the message, nothing more. It writes neither stdout nor execution_time |
| RunCodeJob.TimeoutMessageText | app/Jobs/RunCodeJob.php:65-75 | the timeout text interpolates the configured 10-second timeout and reads "Execution timed out after 10 seconds." followed by a newline |
| RunCodeJob.OutcomeUpdate | app/Jobs/RunCodeJob.php:65-100 | every sandbox outcome maps to a terminal status: TIMEOUT iff timed out, COMPLETED iff exit code 0, FAILED iff non-zero exit or exception. stdout is written iff COMPLETED, and then verbatim. execution_time is written unless an exception occurred. stderr is the timeout text plus captured stderr, the captured stderr verbatim, the fallback-protected stderr, or the execution-error text, per case |
| RunCodeJob.SandboxRequest | app/Jobs/RunCodeJob.php:51-65 | the sandbox request is the fixed docker command line and the 10-second timeout, and the code travels only as stdin |
| RunCodeJob.Attempt | app/Jobs/RunCodeJob.php:43-107 | the terminal fields are always terminal. For a refused language they are FAILED with "Execution error: Unsupported language: " followed by the language, with no stdout and no time. For an accepted one they are the mapping of the sandbox's answer to the snapshot request |
| RunCodeJob.MarkRunning | app/Jobs/RunCodeJob.php:35-38 | the first update sets status RUNNING and started_at, and leaves every other field as it was |
| RunCodeJob.ApplyTerminal | app/Jobs/RunCodeJob.php:72-107 | a terminal update writes status, stderr and finished_at, writes stdout and execution_time only when the update carries them, and never touches the submitted code, language, snapshot, ids or started_at |
| RunCodeJob.HandleRecord | app/Jobs/RunCodeJob.php:31-109 | the row a handled job leaves is terminal, with started_at and finished_at set and the submission untouched; for a refused language it is FAILED with "Execution error: Unsupported language: " followed by the original language, and stdout and execution_time keep their old values; for an accepted language its status, stderr, stdout and execution_time are those of OutcomeUpdate applied to the sandbox's answer (so a timeout gives a TIMEOUT row, a clean exit a COMPLETED row) |
| RunCodeJob.UnsupportedLanguageIgnoresSandbox | app/Jobs/RunCodeJob.php:43-48 | for a refused language the resulting row is the same whatever the sandbox would answer: the sandbox is not consulted |
| RunCodeJob.SandboxSeesOnlySnapshot | app/Jobs/RunCodeJob.php:51-64 | the row depends on the sandbox only through its answer to the fixed docker command line with the snapshot as stdin and a 10-second timeout |
| RunCodeJob.FailedRecord | app/Jobs/RunCodeJob.php:111-121 | the retry-exhaustion finaliser sets FAILED, "Job failed after retries: " followed by the message, and finished_at, and keeps stdout, execution_time, started_at and the submission |
| RunCodeJob.Handle | app/Jobs/RunCodeJob.php:31-109 | a missing id changes nothing and makes no sandbox request; otherwise only that row changes, to HandleRecord of the loaded row. A sandbox request is made iff the language is accepted, and it is the fixed command with the snapshot on stdin. The database invariant is kept |
| RunCodeJob.Failed | app/Jobs/RunCodeJob.php:111-121 | a missing id changes nothing; otherwise only that row changes, to FailedRecord of it |
| ExecutionController.NewExecution | app/Http/Controllers/ExecutionController.php:21-26 | the admitted row is QUEUED with code and snapshot both equal to the submitted code. Its language is the session's language when non-null, even an empty one, and otherwise "python". All outputs and timestamps are null |
| ExecutionController.SnapshotIgnoresSessionCode | app/Http/Controllers/ExecutionController.php:21-26 | the admitted row does not depend on the session's working code, so a later edit of that code cannot reach the snapshot |
| ExecutionController.View | app/Http/Controllers/ExecutionController.php:42-48 | the poll answer carries the row's id, status, stdout, stderr and execution_time exactly as stored |
| ExecutionController.Store | app/Http/Controllers/ExecutionController.php:13-36 | exactly one new row under a fresh id, equal to NewExecution, and the id counter moves on by one. Exactly that id is appended to the queue. The answer is 202 with that id and QUEUED. Sessions and existing rows are unchanged, and the invariant is kept |
| ExecutionController.Show | app/Http/Controllers/ExecutionController.php:39-49 | a read-only function: an answer exactly when the id is stored, and then the row's View |
| CodeSessionController.FindActive | app/Http/Controllers/CodeSessionController.php:25-28 | returns the position of the first ACTIVE session of the user on the problem, or None exactly when there is no such session |
| CodeSessionController.TemplateCode | app/Http/Controllers/CodeSessionController.php:42 | the template for the language when the key is present and non-null, otherwise "" |
| CodeSessionController.NewSession | app/Http/Controllers/CodeSessionController.php:45-51 | a new session is ACTIVE with the given id, user, problem and language, and holds the template code for that language |
| CodeSessionController.StoreResponse.HttpStatus | app/Http/Controllers/CodeSessionController.php:30-56 | a resumed session is answered 200 and a created one 201 |
| CodeSessionController.StoreResult | app/Http/Controllers/CodeSessionController.php:24-56 | existing sessions are never changed. A session is created iff the pair has no ACTIVE session, and it is then one appended session: ACTIVE, with the given user, problem and language, holding the template, under the next id. Otherwise the table is unchanged and the answer carries the ACTIVE session's id, code and language |
| CodeSessionController.StorePreservesAtMostOneActive | app/Http/Controllers/CodeSessionController.php:25-51 | if every (user, problem) pair has at most one ACTIVE session before `store`, that still holds after it |
| CodeSessionController.StoreIsIdempotent | app/Http/Controllers/CodeSessionController.php:25-56 | a second `store` for the same user and problem, on any sessions table, with any language or template for either call, creates nothing and returns the id the first call returned |
| CodeSessionController.Updated | app/Http/Controllers/CodeSessionController.php:65-68 | a saved session has the new code, the supplied language or else the old one, and the same id, user, problem and status |
| CodeSessionController.UpdatePreservesAtMostOneActive | app/Http/Controllers/CodeSessionController.php:65-68 | saving a session keeps at most one ACTIVE session per (user, problem) |
| CodeSessionController.Store | app/Http/Controllers/CodeSessionController.php:12-57 | the new sessions table and the answer are StoreResult of the old table; the invariant is kept |
| CodeSessionController.Update | app/Http/Controllers/CodeSessionController.php:59-74 | only that session changes, to Updated of it. The answer is 201 with its id and unchanged status. Executions are untouched |
| Scenarios.SubmitThenEdit | app/Http/Controllers/ExecutionController.php:21-24 | after a run is submitted and the session's code is then changed, the execution still holds the submitted code in both code and snapshot |
| Scenarios.SubmitAndRun | app/Http/Controllers/ExecutionController.php:21-34 | a submitted run, once its job is handled, polls as a terminal status under its own id, and the queue grew by exactly that id |
| Scenarios.OpenTwice | app/Http/Controllers/CodeSessionController.php:25-56 | opening a session twice for the same user and problem yields the same session id and at most one new session |

## Left out

- Rate limiting, duplicate-in-progress suppression and stale-RUNNING recovery: the code implements none of them.
- Docker and Symfony Process: the sandbox is an oracle from request to outcome. Resource flags, the image and teardown appear only as the constant command line.
- `microtime` and `round`: the rounded elapsed milliseconds are a parameter.
- Carbon timestamps: abstract clock readings passed in as parameters. The model does not require them to be ordered.
- Laravel queue machinery: `$tries = 3`, `$timeout = 60`, serialisation, Redis, workers and dequeuing are framework configuration or concurrency. The queue is the sequence of dispatched ids. `failed` is a separate entry point whose message is a parameter.
- PHP `Error` throwables escape `handle`'s `catch (Exception)` and reach the caller only through retries and `failed`. Exceptions raised by the RUNNING update (before the `try`) or by the update inside the `catch` escape the same way. The model has no outcome for any of these.
- A database exception from one of the three terminal updates (the timeout, success and failure paths), for example a lock-wait timeout, is caught by `handle`'s `catch (Exception)`. The row ends FAILED with "Execution error: " followed by the database message only when the catch's own update succeeds. When that update fails too (say the message quotes an over-long stdout, making the new stderr too long as well), the exception escapes as in the line above. The model does not represent either path: the terminal writes always succeed.
- A failure of `RunCodeJob::dispatch` after the row is created in `ExecutionController::store`: the client gets a 500, and a QUEUED row remains that no job carries. The model's `Store` always creates the row and enqueues it together.
- HTTP validation, routing and JSON framing: a session or problem that exists (route binding, `exists:problems,id`) is a precondition. An unknown execution id in `show` is `None`, standing for the 404.
- Eloquent mass assignment, casts, UUID generation, the migration and the seeder: ids are abstract numbers, and a non-string value in a code template is not modelled.
- The nullable `code` input of CodeSessionController `store` is validated and then ignored by the code, so it is not a parameter of the model.
- Concurrency: the model covers sequential calls only. Two concurrent `store` calls on sessions could each pass the lookup in the code.
