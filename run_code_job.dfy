/**
 * The queued job that runs one execution: it loads the row, marks it RUNNING,
 * checks the language, hands the code to the sandbox and writes exactly one
 * terminal outcome back. The sandbox process is an oracle: a function from
 * the request the job makes to the outcome the process produced.
 */
module RunCodeJob {
  import opened Wrappers
  import opened Records
  import opened Storage

  /** The only language the job runs, compared after lower-casing. */
  const SupportedLanguage: string := "python"

  /** The hard execution timeout given to the sandbox process, in seconds. */
  const TimeoutSeconds: nat := 10

  /**
   * The text the timeout path puts in front of the captured stderr: the
   * process's own timeout is interpolated, and PHP prints the float 10.0 as "10".
   */
  const TimeoutMessage: string := "Execution timed out after " + Decimal(TimeoutSeconds) + " seconds.\n"

  /** The stderr written on a non-zero exit whose captured stderr is falsy. */
  const ContainerFailedMessage: string := "Container failed to start/run."

  /** The prefix of the stderr written when an exception is caught. */
  const ExecutionErrorPrefix: string := "Execution error: "

  /** The message of the exception thrown for a language other than python. */
  const UnsupportedLanguagePrefix: string := "Unsupported language: "

  /** The prefix of the stderr written once the queue gives up on the job. */
  const RetriesExhaustedPrefix: string := "Job failed after retries: "

  /** The docker command line: fixed, and free of anything the user submitted. */
  const SandboxArgv: seq<string> := [
    "docker", "run", "--rm", "-i",
    "--memory=128m", "--cpus=0.5", "--pids-limit=50", "--network=none",
    "--read-only", "--tmpfs", "/tmp",
    "python:3.12-slim", "python", "-u"
  ]

  /** The decimal digits of `n`, as PHP interpolates a whole number. */
  function Decimal(n: nat): string
    decreases n
  {
    var digit := ['0' + (n % 10) as char];
    if n < 10 then digit else Decimal(n / 10) + digit
  }

  /** The timeout text is the one tied to the configured 10-second timeout. */
  lemma TimeoutMessageText()
    ensures TimeoutMessage == "Execution timed out after 10 seconds.\n"
  {
    assert Decimal(TimeoutSeconds) == "10";
  }

  /** What the job asks of the sandbox: a command line, the bytes for its stdin and a timeout. */
  datatype Request = Request(argv: seq<string>, stdin: string, timeoutSeconds: nat)

  /**
   * What running the process can produce: the timeout fired (with the stderr
   * captured so far), the process exited with a code, or the process library
   * threw an exception with a message (for one, docker is not available).
   */
  datatype Outcome =
    | TimedOut(stderr: string)
    | Exited(exitCode: int, stdout: string, stderr: string)
    | Threw(message: string)

  /**
   * The fields the job's final `update` call writes: status and stderr
   * always, stdout and the execution time only when present here.
   */
  datatype TerminalUpdate = TerminalUpdate(
    status: Status,
    stderr: string,
    stdout: Option<string>,
    executionTime: Option<nat>)

  // ---------------------------------------------------------------------
  // The language check
  // ---------------------------------------------------------------------

  /** `strtolower` on one character: it maps exactly 'A'..'Z' to 'a'..'z'. */
  function LowerChar(c: char): char {
    if 'A' <= c <= 'Z' then (c as int + 32) as char else c
  }

  /** `strtolower`: lower-cases every character on its own. */
  function AsciiLower(s: string): (r: string)
    ensures |r| == |s|
    ensures forall i | 0 <= i < |s| :: r[i] == LowerChar(s[i])
  {
    if s == [] then [] else [LowerChar(s[0])] + AsciiLower(s[1..])
  }

  /** The job accepts a language when its lower-cased form is "python". */
  predicate IsSupportedLanguage(language: string)
    ensures IsSupportedLanguage(language) ==> |language| == |SupportedLanguage|
  {
    AsciiLower(language) == SupportedLanguage
  }

  /** Lower-casing a character gives a lower-case letter exactly when it is that letter or its capital. */
  lemma LowerCharIsLetter(c: char, letter: char)
    requires 'a' <= letter <= 'z'
    ensures LowerChar(c) == letter <==> c == letter || c as int == letter as int - 32
  {
  }

  /**
   * The language check, stated without lower-casing: a language is accepted
   * exactly when it is "python" spelt with any mix of upper- and lower-case
   * letters, and so "python3", " python" or "" are refused.
   */
  lemma SupportedLanguageSpelling(language: string)
    ensures IsSupportedLanguage(language) <==>
      |language| == 6 && forall i | 0 <= i < 6 :: language[i] == "python"[i] || language[i] == "PYTHON"[i]
  {
    var low := AsciiLower(language);
    forall i | 0 <= i < |language| && i < 6
      ensures low[i] == "python"[i] <==> language[i] == "python"[i] || language[i] == "PYTHON"[i]
    {
      var letter := "python"[i];
      assert letter in {'p', 'y', 't', 'h', 'o', 'n'};
      assert "PYTHON"[i] as int == letter as int - 32;
      LowerCharIsLetter(language[i], letter);
    }
    if |language| == 6 && forall i | 0 <= i < 6 :: language[i] == "python"[i] || language[i] == "PYTHON"[i] {
      assert low == SupportedLanguage;
    }
  }

  // ---------------------------------------------------------------------
  // From a sandbox outcome to the terminal fields
  // ---------------------------------------------------------------------

  /** PHP's truthiness of a string: "" and "0" are the falsy ones. */
  predicate IsPhpFalsy(s: string) {
    s == "" || s == "0"
  }

  /** `$stderr ?: 'Container failed to start/run.'` */
  function FailureStderr(stderr: string): (r: string)
    ensures !IsPhpFalsy(r)
    ensures r == stderr <==> !IsPhpFalsy(stderr)
    ensures r != stderr ==> r == ContainerFailedMessage
  {
    if IsPhpFalsy(stderr) then ContainerFailedMessage else stderr
  }

  /** The fields written when an exception reaches the job's outer `catch`. */
  function ErrorUpdate(message: string): (u: TerminalUpdate)
    ensures u.status == FAILED && u.stdout == None && u.executionTime == None
    ensures |u.stderr| == |ExecutionErrorPrefix| + |message|
    ensures u.stderr[..|ExecutionErrorPrefix|] == ExecutionErrorPrefix && u.stderr[|ExecutionErrorPrefix|..] == message
  {
    TerminalUpdate(FAILED, ExecutionErrorPrefix + message, None, None)
  }

  /**
   * The terminal fields one sandbox outcome produces, `elapsedMs` being the
   * rounded wall-clock time measured around the run.
   */
  function OutcomeUpdate(o: Outcome, elapsedMs: nat): (u: TerminalUpdate)
    ensures u.status.IsTerminal()
    ensures u.status == TIMEOUT <==> o.TimedOut?
    ensures u.status == COMPLETED <==> o.Exited? && o.exitCode == 0
    ensures u.status == FAILED <==> o.Threw? || (o.Exited? && o.exitCode != 0)
    // stdout is written on a clean exit only, and then verbatim
    ensures u.stdout.Some? <==> u.status == COMPLETED
    ensures u.stdout.Some? ==> u.stdout.value == o.stdout
    // the time is written unless an exception cut the run short
    ensures u.executionTime == if o.Threw? then None else Some(elapsedMs)
    ensures o.TimedOut? ==> u.stderr == TimeoutMessage + o.stderr
    ensures o.Exited? && o.exitCode == 0 ==> u.stderr == o.stderr
    ensures o.Exited? && o.exitCode != 0 ==> u.stderr == FailureStderr(o.stderr) && !IsPhpFalsy(u.stderr)
    ensures o.Threw? ==> u == ErrorUpdate(o.message)
  {
    match o
    case TimedOut(stderr) =>
      TerminalUpdate(TIMEOUT, TimeoutMessage + stderr, None, Some(elapsedMs))
    case Exited(code, stdout, stderr) =>
      if code == 0 then TerminalUpdate(COMPLETED, stderr, Some(stdout), Some(elapsedMs))
      else TerminalUpdate(FAILED, FailureStderr(stderr), None, Some(elapsedMs))
    case Threw(message) =>
      ErrorUpdate(message)
  }

  // ---------------------------------------------------------------------
  // One handled record
  // ---------------------------------------------------------------------

  /** The request the job makes: the fixed command line, with the code on stdin only. */
  function SandboxRequest(code: string): (r: Request)
    ensures r.argv == SandboxArgv && r.timeoutSeconds == TimeoutSeconds
    ensures r.stdin == code
  {
    Request(SandboxArgv, code, TimeoutSeconds)
  }

  /** Two rows describe the same submitted run: the job never rewrites these fields. */
  predicate SameSubmission(a: Execution, b: Execution) {
    a.id == b.id && a.sessionId == b.sessionId && a.code == b.code
    && a.language == b.language && a.snapshot == b.snapshot
  }

  /** The first `update` of `handle`: status RUNNING and the start time. */
  function MarkRunning(e: Execution, now: Time): (r: Execution)
    ensures r.status == RUNNING && r.startedAt == Some(now)
    ensures SameSubmission(r, e) && r.stdout == e.stdout && r.stderr == e.stderr
    ensures r.executionTime == e.executionTime && r.finishedAt == e.finishedAt
  {
    e.(status := RUNNING, startedAt := Some(now))
  }

  /** The final `update`: writes the fields of `u` and the finish time, and nothing else. */
  function ApplyTerminal(e: Execution, u: TerminalUpdate, now: Time): (r: Execution)
    ensures SameSubmission(r, e) && r.startedAt == e.startedAt
    ensures r.status == u.status && r.stderr == Some(u.stderr) && r.finishedAt == Some(now)
    ensures r.stdout == (if u.stdout.Some? then u.stdout else e.stdout)
    ensures r.executionTime == (if u.executionTime.Some? then u.executionTime else e.executionTime)
  {
    e.(status := u.status,
       stderr := Some(u.stderr),
       stdout := if u.stdout.Some? then u.stdout else e.stdout,
       executionTime := if u.executionTime.Some? then u.executionTime else e.executionTime,
       finishedAt := Some(now))
  }

  /**
   * What the job does after marking the row RUNNING: a refused language
   * never reaches the sandbox and fails through the exception path; an
   * accepted one runs the snapshot and maps the outcome.
   */
  function Attempt(e: Execution, sandbox: Request -> Outcome, elapsedMs: nat): (u: TerminalUpdate)
    ensures u.status.IsTerminal()
    ensures !IsSupportedLanguage(e.language) ==>
      && u.status == FAILED && u.stdout == None && u.executionTime == None
      && u.stderr == ExecutionErrorPrefix + (UnsupportedLanguagePrefix + e.language)
    ensures IsSupportedLanguage(e.language) ==> u == OutcomeUpdate(sandbox(SandboxRequest(e.snapshot)), elapsedMs)
  {
    if !IsSupportedLanguage(e.language) then ErrorUpdate(UnsupportedLanguagePrefix + e.language)
    else OutcomeUpdate(sandbox(SandboxRequest(e.snapshot)), elapsedMs)
  }

  /** The row `handle` leaves behind, given the row it loaded. */
  function HandleRecord(e: Execution, sandbox: Request -> Outcome, startedAt: Time, finishedAt: Time, elapsedMs: nat): (r: Execution)
    ensures r.status.IsTerminal()
    ensures r.startedAt == Some(startedAt) && r.finishedAt == Some(finishedAt) && r.stderr.Some?
    ensures SameSubmission(r, e)
    ensures !IsSupportedLanguage(e.language) ==>
      && r.status == FAILED
      && r.stderr == Some(ExecutionErrorPrefix + (UnsupportedLanguagePrefix + e.language))
      && r.stdout == e.stdout && r.executionTime == e.executionTime
    ensures IsSupportedLanguage(e.language) ==>
      var u := OutcomeUpdate(sandbox(SandboxRequest(e.snapshot)), elapsedMs);
      && r.status == u.status && r.stderr == Some(u.stderr)
      && r.stdout == (if u.stdout.Some? then u.stdout else e.stdout)
      && r.executionTime == (if u.executionTime.Some? then u.executionTime else e.executionTime)
  {
    var running := MarkRunning(e, startedAt);
    ApplyTerminal(running, Attempt(running, sandbox, elapsedMs), finishedAt)
  }

  /** A refused language gives the same row whatever the sandbox would have done: it is never asked. */
  lemma UnsupportedLanguageIgnoresSandbox(e: Execution, s1: Request -> Outcome, s2: Request -> Outcome,
                                          startedAt: Time, finishedAt: Time, elapsedMs: nat)
    requires !IsSupportedLanguage(e.language)
    ensures HandleRecord(e, s1, startedAt, finishedAt, elapsedMs) == HandleRecord(e, s2, startedAt, finishedAt, elapsedMs)
  {
  }

  /**
   * The sandbox is consulted on one request only, whose command line is the
   * fixed one and whose stdin is the snapshot: two sandboxes that agree on it
   * give the same row.
   */
  lemma SandboxSeesOnlySnapshot(e: Execution, s1: Request -> Outcome, s2: Request -> Outcome,
                                startedAt: Time, finishedAt: Time, elapsedMs: nat)
    requires s1(Request(SandboxArgv, e.snapshot, TimeoutSeconds)) == s2(Request(SandboxArgv, e.snapshot, TimeoutSeconds))
    ensures HandleRecord(e, s1, startedAt, finishedAt, elapsedMs) == HandleRecord(e, s2, startedAt, finishedAt, elapsedMs)
  {
  }

  /** The row `failed` leaves behind: FAILED with a diagnostic, and stdout and time as they were. */
  function FailedRecord(e: Execution, message: string, now: Time): (r: Execution)
    ensures r.status == FAILED && r.stderr == Some(RetriesExhaustedPrefix + message) && r.finishedAt == Some(now)
    ensures SameSubmission(r, e) && r.stdout == e.stdout && r.executionTime == e.executionTime && r.startedAt == e.startedAt
  {
    ApplyTerminal(e, TerminalUpdate(FAILED, RetriesExhaustedPrefix + message, None, None), now)
  }

  // ---------------------------------------------------------------------
  // The job's two entry points
  // ---------------------------------------------------------------------

  /**
   * `handle`: a missing id changes nothing (`findOrFail` throws first);
   * otherwise the row is marked RUNNING, then the sandbox is asked (or not)
   * and the terminal fields are written. The returned request is the one made
   * to the sandbox, None when it was never invoked.
   */
  method Handle(db: Database, id: nat, sandbox: Request -> Outcome,
                startedAt: Time, finishedAt: Time, elapsedMs: nat) returns (request: Option<Request>)
    requires db.Valid()
    modifies db`executions
    ensures db.Valid()
    ensures id !in old(db.executions) ==> db.executions == old(db.executions) && request == None
    ensures id in old(db.executions) ==>
      db.executions == old(db.executions)[id := HandleRecord(old(db.executions)[id], sandbox, startedAt, finishedAt, elapsedMs)]
    ensures request.Some? <==> id in old(db.executions) && IsSupportedLanguage(old(db.executions)[id].language)
    ensures request.Some? ==> request.value == SandboxRequest(old(db.executions)[id].snapshot)
  {
    if id !in db.executions {
      return None;
    }
    db.executions := db.executions[id := MarkRunning(db.executions[id], startedAt)];
    var running := db.executions[id];
    var update: TerminalUpdate;
    if !IsSupportedLanguage(running.language) {
      request := None;
      update := ErrorUpdate(UnsupportedLanguagePrefix + running.language);
    } else {
      var req := SandboxRequest(running.snapshot);
      request := Some(req);
      update := OutcomeUpdate(sandbox(req), elapsedMs);
    }
    db.executions := db.executions[id := ApplyTerminal(running, update, finishedAt)];
  }

  /** `failed`: once retries are exhausted, marks an existing row FAILED; a missing id changes nothing. */
  method Failed(db: Database, id: nat, message: string, now: Time)
    requires db.Valid()
    modifies db`executions
    ensures db.Valid()
    ensures id !in old(db.executions) ==> db.executions == old(db.executions)
    ensures id in old(db.executions) ==> db.executions == old(db.executions)[id := FailedRecord(old(db.executions)[id], message, now)]
  {
    if id in db.executions {
      db.executions := db.executions[id := FailedRecord(db.executions[id], message, now)];
    }
  }
}
