/** What a finished task says about its commands, and what calls with the same request id say to each other. */
module TaskOutcome {
  import opened Wrappers
  import opened Core
  import opened Listing
  import opened Entities
  import opened Store
  import opened SessionService
  import opened Commands
  import opened TaskRun
  import opened TaskService
  import Agreement
  import WorkerCommands
  import ValidatorAgreement
  import WorkerPipe

  // ---- the outcome of one task ----

  /**
   SUCCEEDED: one result per command, in order, failed ones only where the command allows to go on.
   FAILED: results up to the first failing command that does not, whose code is also the task's last error.
   */
  ghost predicate Tells(commands: seq<Command>, task: TaskData) {
    && |task.results| <= |commands|
    && (forall i :: 0 <= i < |task.results| ==> Names(task.results[i], commands[i]))
    && match task.status
       case Succeeded =>
         |task.results| == |commands| && task.lastError == None &&
         forall i :: 0 <= i < |commands| && task.results[i].error.Some? ==> commands[i].continueOnError
       case TaskFailed =>
         var last := |task.results| - 1;
         last >= 0 && !commands[last].continueOnError && task.results[last].error.Some? && task.lastError == task.results[last].error &&
         forall i :: 0 <= i < last && task.results[i].error.Some? ==> commands[i].continueOnError
       case _ => false
  }

  predicate Names(result: CommandResult, command: Command) { result.commandId == command.id && result.commandKey == command.key }

  /** execute_command raises CommandFailure with the worker's own codes only. */
  ghost predicate RaisesOwnCodes(attempts: nat -> Attempt) {
    forall i: nat {:trigger attempts(i)} :: attempts(i).CommandFailure? ==> WorkerCode(attempts(i).code)
  }

  lemma StoppedTells(commands: seq<Command>, attempts: nat -> Attempt, n: nat, code: string, result: CommandResult)
    requires StoppedBefore(commands, attempts, n, code) && RaisesOwnCodes(attempts)
    requires IsResult(commands[n - 1], attempts(n - 1), result)
    ensures result.error == Some(ErrorCodeToProto(code)) && !commands[n - 1].continueOnError
  {
    CodesAgree(code);
  }

  lemma ReplyTells(taskId: string, commands: seq<Command>, attempts: nat -> Attempt, r: TaskResult, task: Task, at: int)
    requires IsReply(taskId, commands, attempts, r) && RaisesOwnCodes(attempts)
    ensures var error := if r.error.Some? then Some(ErrorCodeToProto(r.error.value)) else None;
            Tells(commands, Finished(task, Response(r.results, r.artifacts, r.error), error, at).data)
  {
    ResultsName(taskId, commands, attempts, r);
    if r.error.Some? {
      StoppedTells(commands, attempts, |r.results|, r.error.value, r.results[|r.results| - 1]);
    }
    var error := if r.error.Some? then Some(ErrorCodeToProto(r.error.value)) else None;
    FinishedTells(commands, r, error, Finished(task, Response(r.results, r.artifacts, r.error), error, at).data);
  }

  /** Each result names its command; a failed one is the last or may be continued after. */
  predicate ResultsFit(commands: seq<Command>, r: TaskResult) {
    && |r.results| <= |commands| && (r.error.None? ==> |r.results| == |commands|)
    && (forall i :: 0 <= i < |r.results| ==> Names(r.results[i], commands[i]))
    && (forall i :: 0 <= i < |r.results| && r.results[i].error.Some? && (i < |r.results| - 1 || r.error.None?) ==> commands[i].continueOnError)
  }

  lemma ResultsName(taskId: string, commands: seq<Command>, attempts: nat -> Attempt, r: TaskResult)
    requires IsReply(taskId, commands, attempts, r)
    ensures ResultsFit(commands, r)
  {
    forall i | 0 <= i < |r.results| ensures IsResult(commands[i], attempts(i), r.results[i]) && Names(r.results[i], commands[i]) {
    }
  }

  lemma FinishedTells(commands: seq<Command>, r: TaskResult, error: Option<ErrorCode>, task: TaskData)
    requires ResultsFit(commands, r) && task.results == r.results && task.lastError == error && error.Some? == r.error.Some?
    requires task.status == if error.Some? then TaskFailed else Succeeded
    requires error.Some? ==>
               r.results != [] && r.results[|r.results| - 1].error == error && !commands[|r.results| - 1].continueOnError
    ensures Tells(commands, task)
  {
  }

  /** The call created the task it was asked for. */
  ghost predicate Created(before: State, after: State, id: string) {
    id !in before.tasks.rows && id in after.tasks.rows
  }

  lemma AdmitEffect(cfg: Config, s: State, status: TaskStatus, requestId: string, input: TaskInput, env: TaskEnv)
    ensures var (s', r) := Admit(cfg, s, status, requestId, input, env);
            && s'.w == GetSession(cfg, s.w, input.sessionId, env.get).0
            && (r.Err? ==> s'.tasks == s.tasks)
            && (r.Ok? ==> r.value == NewTask(status, requestId, input, env) && env.taskId !in s.tasks.rows &&
                          Create(s.tasks, r.value) == Ok(s'.tasks))
  {
  }

  /** A call that creates a task goes on to run it. */
  lemma ExecuteUnfolds(cfg: Config, s: State, requestId: string, input: TaskInput, env: TaskEnv)
    requires Created(s, ExecuteCommands(cfg, s, requestId, Some(input), env).0, env.taskId)
    ensures var (s1, admitted) := Admit(cfg, s, TaskRunning, requestId, WithTaskKey(Some(input)).value, env);
            && admitted.Ok? && ExecuteCommands(cfg, s, requestId, Some(input), env) == RunTask(s1, admitted.value, env)
            && admitted.value.id == env.taskId && admitted.value.data.sessionId == input.sessionId
            && admitted.value.data.status.TaskRunning?
            && env.taskId != "" && env.taskId in s1.tasks.rows && s1.tasks.rows[env.taskId] == admitted.value
  {
    AdmitEffect(cfg, s, TaskRunning, requestId, WithTaskKey(Some(input)).value, env);
  }

  /** A created row, and the worker's answer in hand. */
  ghost predicate InHand(s: State, task: Task, env: TaskEnv, r: TaskResult) {
    && task.id == env.taskId != "" && task.id in s.tasks.rows && s.tasks.rows[task.id] == task && task.data.status.TaskRunning?
    && env.line == Ok(LineOf(r)) && task.data.sessionId in s.w.runtime
  }

  lemma RunTaskStores(s: State, task: Task, env: TaskEnv, r: TaskResult)
    requires InHand(s, task, env, r)
    ensures var (s', reply) := RunTask(s, task, env);
            var error := if r.error.Some? then Some(ErrorCodeToProto(r.error.value)) else None;
            && env.taskId in s'.tasks.rows && s'.w == s.w
            && s'.tasks.rows[env.taskId] ==
               (if env.updateFails then task else Finished(task, Response(r.results, r.artifacts, r.error), error, env.completedAt))
            && (!env.updateFails ==> reply.task == Some(s'.tasks.rows[env.taskId]) && reply.error == error)
  {
    LineRoundTrip(r);
  }

  /**
   The line of a worker that leaves with an exception (`99_entrypoint.py`): a task result without a task id, with
   an error and nothing else.
   */
  const FAREWELL := Envelope("task_result", "", [], [], Some(BROWSER_UNAVAILABLE))

  /**
   What a stored task says when the line that came back is the worker's answer to this task or its farewell
   (module WorkerPipe: always, while no earlier exchange was given up).  It tells about its commands what the
   worker did exactly if the line is the answer; the farewell leaves it FAILED and without results, whatever had
   been carried out.  Only if the last write fails does the row stay RUNNING.
   */
  lemma StoredTaskTells(cfg: Config, s: State, requestId: string, input: TaskInput, env: TaskEnv, attempts: nat -> Attempt, r: TaskResult, line: Line)
    requires line == FAREWELL || (line == LineOf(r) && IsReply(env.taskId, input.commands, attempts, r) && RaisesOwnCodes(attempts))
    requires env.line == Ok(line)
    requires var (s', reply) := ExecuteCommands(cfg, s, requestId, Some(input), env);
             Created(s, s', env.taskId) && input.sessionId in s'.w.runtime
    ensures var (s', reply) := ExecuteCommands(cfg, s, requestId, Some(input), env);
            var task := s'.tasks.rows[env.taskId];
            && (env.updateFails ==> task.data.status.TaskRunning?)
            && (!env.updateFails ==>
                  && reply.task == Some(task) && reply.error == task.data.lastError
                  && (Tells(input.commands, task.data) <==> line != FAREWELL)
                  && if line == FAREWELL then Refuses(task.data) else Takes(task.data, r))
  {
    ExecuteUnfolds(cfg, s, requestId, input, env);
    var (s1, admitted) := Admit(cfg, s, TaskRunning, requestId, WithTaskKey(Some(input)).value, env);
    var carried := if line == FAREWELL then TaskResult("", [], [], Some(BROWSER_UNAVAILABLE)) else r;
    assert line == LineOf(carried);
    RunTaskStores(s1, admitted.value, env, carried);
    if line != FAREWELL {
      ReplyTells(env.taskId, input.commands, attempts, r, admitted.value, env.completedAt);
    }
  }

  predicate Takes(task: TaskData, r: TaskResult) {
    && task.results == r.results && task.artifacts == r.artifacts
    && (task.status.Succeeded? <==> r.error.None?) && (task.status.TaskFailed? <==> r.error.Some?)
  }

  predicate Refuses(task: TaskData) {
    task.status.TaskFailed? && task.results == [] && task.artifacts == [] && task.lastError == Some(BrowserUnavailable)
  }

  // ---- through the pipe ----

  /** What a task stores that was answered with a given result, whosever it is. */
  lemma StoredTaskTakes(cfg: Config, s: State, requestId: string, input: TaskInput, env: TaskEnv, r: TaskResult)
    requires env.line == Ok(LineOf(r)) && !env.updateFails
    requires var s' := ExecuteCommands(cfg, s, requestId, Some(input), env).0;
             Created(s, s', env.taskId) && input.sessionId in s'.w.runtime
    ensures Takes(ExecuteCommands(cfg, s, requestId, Some(input), env).0.tasks.rows[env.taskId].data, r)
  {
    ExecuteUnfolds(cfg, s, requestId, input, env);
    var (s1, admitted) := Admit(cfg, s, TaskRunning, requestId, WithTaskKey(Some(input)).value, env);
    RunTaskStores(s1, admitted.value, env, r);
  }

  /** The farewell, and a line no task result can be read from, leave the task FAILED and without results. */
  lemma StoredTaskRefuses(cfg: Config, s: State, requestId: string, input: TaskInput, env: TaskEnv, line: Line)
    requires env.line == Ok(line) && (line == FAREWELL || !Decodable(line)) && !env.updateFails
    requires Created(s, ExecuteCommands(cfg, s, requestId, Some(input), env).0, env.taskId)
    ensures Refuses(ExecuteCommands(cfg, s, requestId, Some(input), env).0.tasks.rows[env.taskId].data)
  {
    ExecuteUnfolds(cfg, s, requestId, input, env);
    FarewellIsError();
  }

  lemma FarewellIsError()
    ensures Decode(FAREWELL) == Ok(Response([], [], Some(BROWSER_UNAVAILABLE)))
  {
    LineRoundTrip(TaskResult("", [], [], Some(BROWSER_UNAVAILABLE)));
    assert LineOf(TaskResult("", [], [], Some(BROWSER_UNAVAILABLE))) == FAREWELL;
  }

  /** The worker's replies by request number: task results for task requests, other lines for live ones. */
  ghost predicate WorkerAnswers(asked: seq<WorkerPipe.Kind>, lines: nat -> Line, answers: nat -> TaskResult) {
    forall k :: 0 <= k < |asked| ==>
      if asked[k].Task? then lines(k) == LineOf(answers(k)) else lines(k).Envelope? && lines(k).kind != "task_result"
  }

  /** The line an exchange got, which is never the ready line. */
  function LineGot(reply: WorkerPipe.Reply, lines: nat -> Line): Line {
    if reply.Reply? then lines(reply.number) else FAREWELL
  }

  /**
   Worker pipe and task service together: the m-th exchange of a session gets the line of the request k before
   it, k being the exchanges missed until then, or the worker's farewell.  If that was the answer to a task its
   results are stored, whosever they are; if it was the answer to a live request, or the farewell, the task is
   FAILED with browser_unavailable and without results.
   */
  lemma PipedTaskTakes(steps: seq<WorkerPipe.Step>, trace: seq<WorkerPipe.State>, n: nat, m: nat, lines: nat -> Line, answers: nat -> TaskResult,
                       cfg: Config, s: State, requestId: string, input: TaskInput, env: TaskEnv)
    requires WorkerPipe.IsRun(steps, trace) && n < |trace| && m < |trace[n].outcomes| && trace[n].outcomes[m].Got?
    requires WorkerAnswers(trace[n].asked, lines, answers)
    requires env.line == Ok(LineGot(trace[n].outcomes[m].reply, lines)) && !env.updateFails
    requires var s' := ExecuteCommands(cfg, s, requestId, Some(input), env).0;
             Created(s, s', env.taskId) && input.sessionId in s'.w.runtime
    ensures var k := WorkerPipe.Missed(trace[n].outcomes[..m]);
            var task := ExecuteCommands(cfg, s, requestId, Some(input), env).0.tasks.rows[env.taskId].data;
            && k <= m < |trace[n].asked|
            && if !trace[n].outcomes[m].reply.Farewell? && trace[n].asked[m - k].Task? then Takes(task, answers(m - k)) else Refuses(task)
  {
    WorkerPipe.PairingWithLag(steps, trace, n, m);
    var number := m - WorkerPipe.Missed(trace[n].outcomes[..m]);
    var line := LineGot(trace[n].outcomes[m].reply, lines);
    if !trace[n].outcomes[m].reply.Farewell? && trace[n].asked[number].Task? {
      StoredTaskTakes(cfg, s, requestId, input, env, answers(number));
    } else {
      StoredTaskRefuses(cfg, s, requestId, input, env, line);
    }
  }

  /** So as long as no exchange was missed a stored task tells about its own commands, exactly unless the worker said farewell. */
  lemma PipedTaskTells(steps: seq<WorkerPipe.Step>, trace: seq<WorkerPipe.State>, n: nat, m: nat, lines: nat -> Line, answers: nat -> TaskResult,
                       attempts: nat -> Attempt, cfg: Config, s: State, requestId: string, input: TaskInput, env: TaskEnv)
    requires WorkerPipe.IsRun(steps, trace) && n < |trace| && m < |trace[n].outcomes| && trace[n].outcomes[m].Got?
    requires forall i :: 0 <= i < m ==> trace[n].outcomes[i].Got?
    requires WorkerAnswers(trace[n].asked, lines, answers) && m < |trace[n].asked| && trace[n].asked[m].Task?
    requires env.line == Ok(LineGot(trace[n].outcomes[m].reply, lines)) && !env.updateFails
    requires IsReply(env.taskId, input.commands, attempts, answers(m)) && RaisesOwnCodes(attempts)
    requires var s' := ExecuteCommands(cfg, s, requestId, Some(input), env).0;
             Created(s, s', env.taskId) && input.sessionId in s'.w.runtime
    ensures Tells(input.commands, ExecuteCommands(cfg, s, requestId, Some(input), env).0.tasks.rows[env.taskId].data)
            <==> !trace[n].outcomes[m].reply.Farewell?
  {
    WorkerPipe.PairingWithLag(steps, trace, n, m);
    AnswerIsNoFarewell(env.taskId, input.commands, attempts, answers(m));
    StoredTaskTells(cfg, s, requestId, input, env, attempts, answers(m), LineGot(trace[n].outcomes[m].reply, lines));
  }

  lemma AnswerIsNoFarewell(taskId: string, commands: seq<Command>, attempts: nat -> Attempt, r: TaskResult)
    requires IsReply(taskId, commands, attempts, r)
    ensures LineOf(r) != FAREWELL
  {
    assert |LineOf(r).results| == |r.results|;
  }

  // ---- who gets a task ----

  lemma AdmittedSession(cfg: Config, s: State, status: TaskStatus, requestId: string, input: TaskInput, env: TaskEnv)
    requires Admit(cfg, s, status, requestId, input, env).1.Ok?
    ensures Admit(cfg, s, status, requestId, input, env).0.w == s.w
    ensures input.sessionId in s.w.store.rows && s.w.store.rows[input.sessionId].data.status.Running?
  {
  }

  /** A task is created only with valid commands and for a session that is stored RUNNING -- which in agreement has a browser. */
  lemma TaskNeedsRunningSession(cfg: Config, s: State, requestId: string, input: TaskInput, env: TaskEnv)
    requires Created(s, ExecuteCommands(cfg, s, requestId, Some(input), env).0, env.taskId)
    ensures ExecuteCommands(cfg, s, requestId, Some(input), env).0.w == s.w
    ensures ValidCommands(input.commands) && input.sessionId in s.w.store.rows && s.w.store.rows[input.sessionId].data.status.Running?
    ensures Agreement.Agree(s.w) ==> input.sessionId in s.w.runtime
  {
    var input' := WithTaskKey(Some(input)).value;
    AdmitEffect(cfg, s, TaskRunning, requestId, input', env);
    AdmittedSession(cfg, s, TaskRunning, requestId, input', env);
    assert Agreement.Agree(s.w) ==> Agreement.SettledAt(s.w, input.sessionId);
  }

  // ---- repeated requests ----

  datatype EntryPoint = StartBrowserTask | ExecuteBrowserCommands

  function Invoke(entry: EntryPoint, cfg: Config, s: State, requestId: string, input: Option<TaskInput>, env: TaskEnv): (State, TaskReply) {
    if entry.StartBrowserTask? then StartTask(cfg, s, requestId, input, env) else ExecuteCommands(cfg, s, requestId, input, env)
  }

  /** The rows change under one id at most; the index gains that row's request id. */
  ghost predicate Grown(before: State, after: State, id: string, requestId: string) {
    && Coherent(after.tasks)
    && (id in before.tasks.rows ==> after.tasks == before.tasks)
    && after.tasks.rows.Keys <= before.tasks.rows.Keys + {id}
    && (id in after.tasks.rows && id !in before.tasks.rows && requestId != "" ==> requestId in after.tasks.index)
  }

  lemma WriteKeeps(s: State, task: Task, fails: bool)
    requires Coherent(s.tasks) && task.id in s.tasks.rows && s.tasks.rows[task.id].requestId == task.requestId
    ensures var s' := WriteTask(s, task, fails).0;
            Coherent(s'.tasks) && s'.tasks.index == s.tasks.index && s'.tasks.rows.Keys == s.tasks.rows.Keys
  {
    if !fails {
      UpdateCoherentIff(s.tasks, task, TaskNotFound);
    }
  }

  lemma AdmitKeeps(cfg: Config, s: State, status: TaskStatus, requestId: string, input: TaskInput, env: TaskEnv)
    requires Coherent(s.tasks)
    ensures var (s', r) := Admit(cfg, s, status, requestId, input, env);
            && Grown(s, s', env.taskId, requestId)
            && (r.Ok? ==> r.value.id == env.taskId && env.taskId !in s.tasks.rows &&
                          env.taskId in s'.tasks.rows && s'.tasks.rows[env.taskId].requestId == r.value.requestId)
  {
    AdmitEffect(cfg, s, status, requestId, input, env);
    CreateCoherent(s.tasks, NewTask(status, requestId, input, env));
  }

  lemma StartKeeps(cfg: Config, s: State, requestId: string, input: Option<TaskInput>, env: TaskEnv)
    requires Coherent(s.tasks)
    ensures Grown(s, StartTask(cfg, s, requestId, input, env).0, env.taskId, requestId)
  {
    if input.Some? {
      AdmitKeeps(cfg, s, Queued, requestId, input.value, env);
      var (s1, admitted) := Admit(cfg, s, Queued, requestId, input.value, env);
      if admitted.Ok? {
        WriteKeeps(s1, Finished(admitted.value, NOTHING, env.enqueueFails, env.completedAt), env.updateFails);
      }
    }
  }

  lemma ExecuteShape(cfg: Config, s: State, requestId: string, input: Option<TaskInput>, env: TaskEnv)
    ensures var s' := ExecuteCommands(cfg, s, requestId, input, env).0;
            || s'.tasks == s.tasks
            || (input.Some? && var (s1, admitted) := Admit(cfg, s, TaskRunning, requestId, WithTaskKey(input).value, env);
                               admitted.Ok? && s' == RunTask(s1, admitted.value, env).0)
  {
  }

  lemma ExecuteKeeps(cfg: Config, s: State, requestId: string, input: Option<TaskInput>, env: TaskEnv)
    requires Coherent(s.tasks)
    ensures Grown(s, ExecuteCommands(cfg, s, requestId, input, env).0, env.taskId, requestId)
  {
    ExecuteShape(cfg, s, requestId, input, env);
    if input.Some? {
      var input' := WithTaskKey(input).value;
      AdmitKeeps(cfg, s, TaskRunning, requestId, input', env);
      var (s1, admitted) := Admit(cfg, s, TaskRunning, requestId, input', env);
      if admitted.Ok? {
        RunKeeps(s1, admitted.value, env);
      }
    }
  }

  lemma RunKeeps(s: State, task: Task, env: TaskEnv)
    requires Coherent(s.tasks) && task.id in s.tasks.rows && s.tasks.rows[task.id].requestId == task.requestId
    ensures var s' := RunTask(s, task, env).0;
            Coherent(s'.tasks) && s'.tasks.index == s.tasks.index && s'.tasks.rows.Keys == s.tasks.rows.Keys
  {
    var (response, error) := Exchange(s.w, task, env.line);
    WriteKeeps(s, Finished(task, response, error, env.completedAt), env.updateFails);
  }

  lemma InvokeKeeps(entry: EntryPoint, cfg: Config, s: State, requestId: string, input: Option<TaskInput>, env: TaskEnv)
    requires Coherent(s.tasks)
    ensures Grown(s, Invoke(entry, cfg, s, requestId, input, env).0, env.taskId, requestId)
  {
    if entry.StartBrowserTask? {
      StartKeeps(cfg, s, requestId, input, env);
    } else {
      ExecuteKeeps(cfg, s, requestId, input, env);
    }
  }

  /** Once a call has created a task, any call with its request id, through either entry point, changes nothing and returns that task as stored. */
  lemma RepeatedRequest(cfg: Config, s: State, requestId: string, first: EntryPoint, input: Option<TaskInput>, env: TaskEnv,
                        again: EntryPoint, input': Option<TaskInput>, env': TaskEnv)
    requires Coherent(s.tasks) && requestId != "" && !env'.lookupFails
    requires Created(s, Invoke(first, cfg, s, requestId, input, env).0, env.taskId)
    ensures var s1 := Invoke(first, cfg, s, requestId, input, env).0;
            && Coherent(s1.tasks) && s1.tasks.rows[env.taskId].requestId == requestId
            && Invoke(again, cfg, s1, requestId, input', env') == (s1, TaskReply(Some(s1.tasks.rows[env.taskId]), None))
  {
    InvokeKeeps(first, cfg, s, requestId, input, env);
    RequestNamesTask(first, cfg, s, requestId, input, env);
  }

  lemma RequestNamesTask(entry: EntryPoint, cfg: Config, s: State, requestId: string, input: Option<TaskInput>, env: TaskEnv)
    requires requestId != "" && Created(s, Invoke(entry, cfg, s, requestId, input, env).0, env.taskId)
    ensures Invoke(entry, cfg, s, requestId, input, env).0.tasks.rows[env.taskId].requestId == requestId
  {
    if input.Some? {
      AdmitEffect(cfg, s, if entry.StartBrowserTask? then Queued else TaskRunning, requestId,
                  if entry.StartBrowserTask? then input.value else WithTaskKey(input).value, env);
    }
  }

  // ---- valid commands are not refused by the worker ----

  /** What execute_task sees of an operation that raises or does not. */
  function AttemptOf(raised: Option<WorkerCommands.Raise>, artifact: Option<string>): Attempt {
    match raised
    case None => Done(artifact)
    case Some(Refused) => CommandFailure(VALIDATION_FAILED)
    case Some(Unsupported) => CommandFailure(UNSUPPORTED_OPERATION)
    case Some(TimedOut) => CommandFailure(TIMEOUT)
    case Some(PageTimeout) => PlaywrightTimeout
    case Some(PageError) => PlaywrightError
  }

  predicate RefusalCode(code: ErrorCode) { code.ValidationFailed? || code.UnsupportedOperation? }

  /**
   Through both validators and the interpreter: when a task's commands are valid in Go and outside the
   excluded cases, no result and no last error says validation_failed or unsupported_operation.
   Every command may meet a page of its own.
   */
  lemma ValidTasksAreNotRefused(taskId: string, commands: seq<Command>, pages: nat -> WorkerCommands.Page, artifacts: nat -> Option<string>, r: TaskResult)
    requires ValidCommands(commands)
    requires forall i :: 0 <= i < |commands| ==> !ValidatorAgreement.Excluded(commands[i].operation.value)
    requires forall i: nat {:trigger pages(i)} :: WorkerCommands.IsPage(pages(i))
    requires IsReply(taskId, commands, AttemptsOn(commands, pages, artifacts), r)
    ensures forall i :: 0 <= i < |r.results| && r.results[i].error.Some? ==> !RefusalCode(r.results[i].error.value)
    ensures r.error.Some? ==> !RefusalCode(ErrorCodeToProto(r.error.value))
  {
    var attempts := AttemptsOn(commands, pages, artifacts);
    forall i | 0 <= i < |commands| ensures Harmless(commands[i], attempts(i)) {
      AcceptedIsHarmless(commands[i], pages(i), artifacts(i));
    }
    HarmlessTask(taskId, commands, attempts, r);
  }

  function AttemptsOn(commands: seq<Command>, pages: nat -> WorkerCommands.Page, artifacts: nat -> Option<string>): nat -> Attempt {
    (i: nat) => if i < |commands| then AttemptOf(WorkerCommands.ExecuteCommand(pages(i), commands[i]), artifacts(i)) else Done(None)
  }

  /** The attempt succeeded, or failed with a code that is no refusal on either side. */
  predicate Harmless(command: Command, attempt: Attempt) {
    attempt.Done? || (!RefusalCode(ProtoErrorCode(FailureCode(command, attempt))) && !RefusalCode(ErrorCodeToProto(FailureCode(command, attempt))))
  }

  lemma AcceptedIsHarmless(command: Command, page: WorkerCommands.Page, artifact: Option<string>)
    requires ValidCommand(command) && !ValidatorAgreement.Excluded(command.operation.value) && WorkerCommands.IsPage(page)
    ensures Harmless(command, AttemptOf(WorkerCommands.ExecuteCommand(page, command), artifact))
  {
    ValidatorAgreement.ValidCommandsAreAccepted(page, command);
    UnrefusedIsHarmless(command, WorkerCommands.ExecuteCommand(page, command), artifact);
  }

  lemma UnrefusedIsHarmless(command: Command, raised: Option<WorkerCommands.Raise>, artifact: Option<string>)
    requires !WorkerCommands.TurnedDown(raised)
    ensures Harmless(command, AttemptOf(raised, artifact))
  {
  }

  lemma HarmlessTask(taskId: string, commands: seq<Command>, attempts: nat -> Attempt, r: TaskResult)
    requires IsReply(taskId, commands, attempts, r)
    requires forall i :: 0 <= i < |commands| ==> Harmless(commands[i], attempts(i))
    ensures forall i :: 0 <= i < |r.results| && r.results[i].error.Some? ==> !RefusalCode(r.results[i].error.value)
    ensures r.error.Some? ==> !RefusalCode(ErrorCodeToProto(r.error.value))
  {
    forall i | 0 <= i < |r.results| && r.results[i].error.Some? ensures !RefusalCode(r.results[i].error.value) {
      assert IsResult(commands[i], attempts(i), r.results[i]);
    }
  }
}
