/**
 From a task's commands to its results: the interpreter `execute_task` of
 `internal/adapters/runtime/playwrightworker/scripts/02_execute_task.py`, the line the worker answers with,
 and `decodeWorkerResponse` in Go, which is the same code for both runtimes.
 What carrying out one command comes to is an oracle.
 */
module TaskRun {
  import opened Wrappers
  import opened Core
  import opened Commands
  import opened Entities

  // ---- error codes: 00_imports_constants.py, 51_results_errors.py, internal/core/types.go ----

  const VALIDATION_FAILED := "validation_failed"
  const BROWSER_UNAVAILABLE := "browser_unavailable"
  const NAVIGATION_FAILED := "navigation_failed"
  const SCRIPT_FAILED := "script_failed"
  const TIMEOUT := "timeout"
  const UNSUPPORTED_OPERATION := "unsupported_operation"

  /** The codes the worker raises. */
  predicate WorkerCode(code: string) {
    code == VALIDATION_FAILED || code == BROWSER_UNAVAILABLE || code == NAVIGATION_FAILED ||
    code == SCRIPT_FAILED || code == TIMEOUT || code == UNSUPPORTED_OPERATION
  }

  /** The worker's rendering of a code in a command result. */
  function ProtoErrorCode(code: string): ErrorCode {
    if code == VALIDATION_FAILED then ValidationFailed
    else if code == BROWSER_UNAVAILABLE then BrowserUnavailable
    else if code == NAVIGATION_FAILED then NavigationFailed
    else if code == SCRIPT_FAILED then ScriptFailed
    else if code == TIMEOUT then Timeout
    else if code == UNSUPPORTED_OPERATION then UnsupportedOperation
    else Internal
  }

  /** Go's rendering of a code in a task's last error. */
  function ErrorCodeToProto(code: string): ErrorCode {
    match code
    case "validation_failed" => ValidationFailed
    case "session_not_found" => SessionNotFound
    case "task_not_found" => TaskNotFound
    case "artifact_not_found" => ArtifactNotFound
    case "session_already_finalized" => SessionFinalized
    case "task_already_finalized" => TaskFinalized
    case "capacity_unavailable" => CapacityUnavailable
    case "browser_unavailable" => BrowserUnavailable
    case "proxy_failed" => ProxyFailed
    case "navigation_failed" => NavigationFailed
    case "script_failed" => ScriptFailed
    case "timeout" => Timeout
    case "unsupported_operation" => UnsupportedOperation
    case "internal" => Internal
    case _ => CodeUnspecified
  }

  /** The two renderings of one code agree on the worker's own codes and on "internal", and nowhere else. */
  lemma CodesAgree(code: string)
    ensures ProtoErrorCode(code) == ErrorCodeToProto(code) <==> WorkerCode(code) || code == "internal"
  {
    if WorkerCode(code) || code == "internal" {
      OwnCodesAgree(code);
    } else {
      OtherCodesDiffer(code);
    }
  }

  lemma OwnCodesAgree(code: string)
    requires WorkerCode(code) || code == "internal"
    ensures ProtoErrorCode(code) == ErrorCodeToProto(code)
  {
  }

  lemma OtherCodesDiffer(code: string)
    requires !WorkerCode(code) && code != "internal"
    ensures ProtoErrorCode(code) == Internal != ErrorCodeToProto(code)
  {
  }

  /** The constants of internal/core/types.go, by the enumeration they are rendered as. */
  function CodeText(code: ErrorCode): string {
    match code
    case ValidationFailed => "validation_failed"
    case SessionNotFound => "session_not_found"
    case TaskNotFound => "task_not_found"
    case ArtifactNotFound => "artifact_not_found"
    case SessionFinalized => "session_already_finalized"
    case TaskFinalized => "task_already_finalized"
    case CapacityUnavailable => "capacity_unavailable"
    case BrowserUnavailable => "browser_unavailable"
    case ProxyFailed => "proxy_failed"
    case NavigationFailed => "navigation_failed"
    case ScriptFailed => "script_failed"
    case Timeout => "timeout"
    case UnsupportedOperation => "unsupported_operation"
    case Internal => "internal"
    case CodeUnspecified => ""
    case StoreUnavailable => ""
  }

  /** Go's rendering and the texts undo each other: every code with a text is rendered from it ... */
  lemma TextsComeBack(code: ErrorCode)
    ensures CodeText(code) == "" <==> code == CodeUnspecified || code == StoreUnavailable
    ensures CodeText(code) != "" ==> ErrorCodeToProto(CodeText(code)) == code
  {
  }

  /** ... and no other text is. */
  lemma CodesComeBack(text: string)
    ensures ErrorCodeToProto(text) != CodeUnspecified ==> CodeText(ErrorCodeToProto(text)) == text
  {
  }

  /** And so does the worker's rendering of its own codes. */
  lemma WorkerCodeComesBack(text: string)
    requires WorkerCode(text)
    ensures CodeText(ProtoErrorCode(text)) == text
  {
    CodesAgree(text);
    CodesComeBack(text);
  }

  /** operation_error_code: the code an error of Playwright is given, by the kind of command it stopped. */
  function OperationErrorCode(operation: Option<Operation>): string {
    match operation
    case Some(Navigate(_)) => NAVIGATION_FAILED
    case Some(Reload) => NAVIGATION_FAILED
    case Some(GoBack) => NAVIGATION_FAILED
    case Some(GoForward) => NAVIGATION_FAILED
    case Some(WaitForUrl(_)) => NAVIGATION_FAILED
    case Some(WaitForLoadState) => NAVIGATION_FAILED
    case Some(Evaluate(_, _)) => SCRIPT_FAILED
    case _ => BROWSER_UNAVAILABLE
  }

  // ---- the interpreter ----

  /** What execute_command comes to: a result, perhaps with an artifact, or one of the exceptions execute_task catches. */
  datatype Attempt =
    | Done(artifact: Option<string>)
    | CommandFailure(code: string)
    | PlaywrightTimeout
    | PlaywrightError
    | OtherException

  function FailureCode(command: Command, attempt: Attempt): string
    requires !attempt.Done?
  {
    match attempt
    case CommandFailure(code) => code
    case PlaywrightTimeout => TIMEOUT
    case PlaywrightError => OperationErrorCode(command.operation)
    case OtherException => BROWSER_UNAVAILABLE
  }

  function SucceededResult(command: Command): CommandResult { CommandResult(command.id, command.key, None) }

  function FailedResult(command: Command, code: string): CommandResult {
    CommandResult(command.id, command.key, Some(ProtoErrorCode(code)))
  }

  /** The answer object; `error` is the code of its error member. */
  datatype TaskResult = TaskResult(taskId: string, results: seq<CommandResult>, artifacts: seq<string>, error: Option<string>)

  predicate Halts(command: Command, attempt: Attempt) { !attempt.Done? && !command.continueOnError }

  /** The artifacts of the first n commands, in order. */
  function Artifacts(attempts: nat -> Attempt, n: nat): seq<string> {
    if n == 0 then []
    else
      Artifacts(attempts, n - 1) +
      if attempts(n - 1).Done? && attempts(n - 1).artifact.Some? then [attempts(n - 1).artifact.value] else []
  }

  /**
   The answer to a task: one result per command up to the first failing command that is not to be
   continued after; the code of that command's failure if there is one.
   */
  ghost predicate IsReply(taskId: string, commands: seq<Command>, attempts: nat -> Attempt, r: TaskResult) {
    && r.taskId == taskId
    && |r.results| <= |commands|
    && (forall i :: 0 <= i < |r.results| ==> IsResult(commands[i], attempts(i), r.results[i]))
    && r.artifacts == Artifacts(attempts, |r.results|)
    && (forall i :: 0 <= i < |r.results| - 1 ==> !Halts(commands[i], attempts(i)))
    && (r.error.Some? ==> StoppedBefore(commands, attempts, |r.results|, r.error.value))
    && (r.error.None? ==> |r.results| == |commands| &&
                          (commands != [] ==> !Halts(commands[|commands| - 1], attempts(|commands| - 1))))
  }

  /** The command before position n is where the task stopped, with this code. */
  ghost predicate StoppedBefore(commands: seq<Command>, attempts: nat -> Attempt, n: nat, code: string) {
    && 0 < n <= |commands| && Halts(commands[n - 1], attempts(n - 1))
    && code == FailureCode(commands[n - 1], attempts(n - 1))
  }

  predicate IsResult(command: Command, attempt: Attempt, result: CommandResult) {
    && result.commandId == command.id && result.commandKey == command.key
    && (if attempt.Done? then result.error == None else result.error == Some(ProtoErrorCode(FailureCode(command, attempt))))
  }

  /** The first n commands were carried out, none of them ending the task. */
  ghost predicate Continued(commands: seq<Command>, attempts: nat -> Attempt, n: nat, results: seq<CommandResult>, artifacts: seq<string>) {
    && |results| == n <= |commands| && artifacts == Artifacts(attempts, n)
    && forall i :: 0 <= i < n ==> IsResult(commands[i], attempts(i), results[i]) && !Halts(commands[i], attempts(i))
  }

  lemma OneMore(commands: seq<Command>, attempts: nat -> Attempt, n: nat, results: seq<CommandResult>, artifacts: seq<string>, result: CommandResult)
    requires n < |commands| && Continued(commands, attempts, n, results, artifacts) && IsResult(commands[n], attempts(n), result)
    ensures !Halts(commands[n], attempts(n)) ==>
              Continued(commands, attempts, n + 1, results + [result], Artifacts(attempts, n + 1))
    ensures forall i :: 0 <= i <= n ==> IsResult(commands[i], attempts(i), (results + [result])[i])
  {
  }

  method ExecuteTask(taskId: string, commands: seq<Command>, attempts: nat -> Attempt) returns (r: TaskResult)
    ensures IsReply(taskId, commands, attempts, r)
  {
    var results: seq<CommandResult>, artifacts: seq<string> := [], [];
    for n := 0 to |commands|
      invariant Continued(commands, attempts, n, results, artifacts)
    {
      var command, attempt := commands[n], attempts(n);
      if attempt.Done? {
        OneMore(commands, attempts, n, results, artifacts, SucceededResult(command));
        results := results + [SucceededResult(command)];
        if attempt.artifact.Some? {
          artifacts := artifacts + [attempt.artifact.value];
        }
        assert artifacts == Artifacts(attempts, n + 1);
      } else {
        var code := FailureCode(command, attempt);
        OneMore(commands, attempts, n, results, artifacts, FailedResult(command, code));
        results := results + [FailedResult(command, code)];
        assert artifacts == Artifacts(attempts, n + 1);
        if !command.continueOnError {
          return TaskResult(taskId, results, artifacts, Some(code));
        }
      }
    }
    return TaskResult(taskId, results, artifacts, None);
  }

  /** Going to a page, or waiting for one. */
  predicate Moves(operation: Option<Operation>) {
    operation.Some? && (operation.value.Navigate? || operation.value.Reload? || operation.value.GoBack? || operation.value.GoForward? ||
                        operation.value.WaitForUrl? || operation.value.WaitForLoadState?)
  }

  /** What a result shows of its attempt; only Playwright's own errors depend on the kind of command. */
  predicate Shows(command: Command, attempt: Attempt, error: Option<ErrorCode>) {
    match attempt
    case Done(_) => error == None
    case CommandFailure(code) => error.Some? && (WorkerCode(code) ==> CodeText(error.value) == code)
    case PlaywrightTimeout => error == Some(Timeout)
    case PlaywrightError =>
      error == Some(if Moves(command.operation) then NavigationFailed
                    else if command.operation.Some? && command.operation.value.Evaluate? then ScriptFailed
                    else BrowserUnavailable)
    case OtherException => error == Some(BrowserUnavailable)
  }

  /** The results, and in Go's rendering the error of the whole task, name the kind of failure. */
  lemma FailuresShown(taskId: string, commands: seq<Command>, attempts: nat -> Attempt, r: TaskResult)
    requires IsReply(taskId, commands, attempts, r)
    ensures forall i :: 0 <= i < |r.results| ==> Shows(commands[i], attempts(i), r.results[i].error)
    ensures r.error.Some? ==> r.results != [] &&
                              Shows(commands[|r.results| - 1], attempts(|r.results| - 1), Some(ErrorCodeToProto(r.error.value)))
  {
    forall i | 0 <= i < |r.results| ensures Shows(commands[i], attempts(i), r.results[i].error) {
      assert IsResult(commands[i], attempts(i), r.results[i]);
      ResultShows(commands[i], attempts(i), r.results[i]);
    }
    if r.error.Some? {
      StopShows(commands[|r.results| - 1], attempts(|r.results| - 1));
    }
  }

  lemma ResultShows(command: Command, attempt: Attempt, result: CommandResult)
    requires IsResult(command, attempt, result)
    ensures Shows(command, attempt, result.error)
  {
    if attempt.CommandFailure? {
      if WorkerCode(attempt.code) {
        WorkerCodeComesBack(attempt.code);
        CodesAgree(attempt.code);
      }
    }
  }

  lemma StopShows(command: Command, attempt: Attempt)
    requires !attempt.Done?
    ensures Shows(command, attempt, Some(ErrorCodeToProto(FailureCode(command, attempt))))
  {
    if attempt.CommandFailure? {
      if WorkerCode(attempt.code) {
        WorkerCodeComesBack(attempt.code);
        CodesAgree(attempt.code);
      }
    }
  }

  /** `IsReply` leaves no choice: it determines the answer. */
  lemma ReplyUnique(taskId: string, commands: seq<Command>, attempts: nat -> Attempt, a: TaskResult, b: TaskResult)
    requires IsReply(taskId, commands, attempts, a) && IsReply(taskId, commands, attempts, b)
    ensures a == b
  {
    EndsFirst(taskId, commands, attempts, a, b);
    EndsFirst(taskId, commands, attempts, b, a);
    SameResults(commands, attempts, a.results, b.results);
  }

  lemma SameResults(commands: seq<Command>, attempts: nat -> Attempt, a: seq<CommandResult>, b: seq<CommandResult>)
    requires |a| == |b| <= |commands|
    requires forall i :: 0 <= i < |a| ==> IsResult(commands[i], attempts(i), a[i]) && IsResult(commands[i], attempts(i), b[i])
    ensures a == b
  {
  }

  lemma EndsFirst(taskId: string, commands: seq<Command>, attempts: nat -> Attempt, a: TaskResult, b: TaskResult)
    requires IsReply(taskId, commands, attempts, a) && IsReply(taskId, commands, attempts, b)
    ensures |a.results| >= |b.results|
  {
  }

  // ---- the line and its decoding ----

  datatype RawResult = BadResult | ResultMessage(result: CommandResult)
  datatype RawArtifact = BadArtifact | ArtifactMessage(id: string)

  /** A line from the worker: not JSON, or an envelope whose results and artifacts may or may not be messages. */
  datatype Line =
    | NotJson
    | Envelope(kind: string, taskId: string, results: seq<RawResult>, artifacts: seq<RawArtifact>, error: Option<string>)

  function LineOf(r: TaskResult): Line {
    Envelope("task_result", r.taskId,
             seq(|r.results|, i requires 0 <= i < |r.results| => ResultMessage(r.results[i])),
             seq(|r.artifacts|, i requires 0 <= i < |r.artifacts| => ArtifactMessage(r.artifacts[i])),
             r.error)
  }

  /** decodedWorkerResponse */
  datatype Response = Response(results: seq<CommandResult>, artifacts: seq<string>, error: Option<string>)

  /** A line that is a task result all of whose parts can be read. */
  predicate Decodable(line: Line) {
    && line.Envelope? && line.kind == "task_result"
    && (forall i :: 0 <= i < |line.results| ==> line.results[i].ResultMessage?)
    && (forall i :: 0 <= i < |line.artifacts| ==> line.artifacts[i].ArtifactMessage?)
  }

  function Decode(line: Line): Result<Response, ErrorCode> {
    if !Decodable(line) then Err(BrowserUnavailable)
    else Ok(Response(
              seq(|line.results|, i requires 0 <= i < |line.results| => line.results[i].result),
              seq(|line.artifacts|, i requires 0 <= i < |line.artifacts| => line.artifacts[i].id),
              line.error))
  }

  method DecodeWorkerResponse(line: Line) returns (r: Result<Response, ErrorCode>)
    ensures r == Decode(line)
  {
    if line.NotJson? {
      return Err(BrowserUnavailable);
    }
    if line.kind != "task_result" {
      return Err(BrowserUnavailable);
    }
    var results: seq<CommandResult>, artifacts: seq<string> := [], [];
    for n := 0 to |line.results|
      invariant |results| == n
      invariant forall i :: 0 <= i < n ==> line.results[i] == ResultMessage(results[i])
    {
      if line.results[n].BadResult? {
        return Err(BrowserUnavailable);
      }
      results := results + [line.results[n].result];
    }
    for n := 0 to |line.artifacts|
      invariant |artifacts| == n
      invariant forall i :: 0 <= i < n ==> line.artifacts[i] == ArtifactMessage(artifacts[i])
    {
      if line.artifacts[n].BadArtifact? {
        return Err(BrowserUnavailable);
      }
      artifacts := artifacts + [line.artifacts[n].id];
    }
    assert Decodable(line);
    assert Decode(line).value.results == results && Decode(line).value.artifacts == artifacts;
    return Ok(Response(results, artifacts, line.error));
  }

  /** Nothing the interpreter reports is lost on the way. */
  lemma LineRoundTrip(r: TaskResult)
    ensures Decode(LineOf(r)) == Ok(Response(r.results, r.artifacts, r.error))
  {
    assert Decodable(LineOf(r));
    assert Decode(LineOf(r)).value.results == r.results;
    assert Decode(LineOf(r)).value.artifacts == r.artifacts;
  }
}
