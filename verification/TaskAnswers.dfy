/**
 What the two entry points for tasks store and answer (`internal/app/task_service.go`), said of the request, the
 stored rows, the clock, the worker's line and the failures alone: no function of module TaskService appears
 but the call itself.
 */
module TaskAnswers {
  import opened Wrappers
  import opened Core
  import opened Listing
  import opened Entities
  import opened Store
  import SessionService
  import Commands
  import opened TaskRun
  import opened TaskService
  import SessionAnswers
  import TaskOutcome

  // ---- when a task is created ----

  /** The request id a task is filed under. */
  function FiledAs(requestId: string, env: TaskEnv): string { if requestId == "" then env.generatedRequestId else requestId }

  predicate Known(s: State, requestId: string) { requestId != "" && requestId in s.tasks.index }

  predicate CompleteInput(input: Option<TaskInput>) {
    input.Some? && input.value.sessionId != "" && input.value.taskKey != "" && input.value.timeout >= 0
  }

  /** Commands are asked for, and a key may be missing. */
  predicate CompleteCommands(input: Option<TaskInput>) {
    && input.Some? && input.value.sessionId != "" && input.value.timeout >= 0
    && input.value.commands != [] && forall i :: 0 <= i < |input.value.commands| ==> Commands.ValidCommand(input.value.commands[i])
  }

  /** Why no task is created for a session, None if one is; `complete` says that the input is. */
  function Hindrance(s: State, requestId: string, input: Option<TaskInput>, complete: bool, env: TaskEnv): Option<ErrorCode>
    requires complete ==> input.Some?
  {
    if requestId != "" && env.lookupFails then Some(StoreUnavailable)
    else if !complete then Some(ValidationFailed)
    else if SessionAnswers.NotRunning(s.w, input.value.sessionId, env.get).Some? then
      SessionAnswers.NotRunning(s.w, input.value.sessionId, env.get)
    else if env.createFails then Some(StoreUnavailable)
    else if env.taskId == "" || env.taskId in s.tasks.rows || Known(s, FiledAs(requestId, env)) then Some(ValidationFailed)
    else None
  }

  /** What a task says of the request it was created for. */
  predicate AsAsked(requestId: string, input: TaskInput, env: TaskEnv, task: Task) {
    && task.id == env.taskId && task.requestId == FiledAs(requestId, env) && task.stamp == env.now
    && task.data.sessionId == input.sessionId && task.data.scenarioKey == input.scenarioKey && task.data.labels == input.labels
    && task.data.taskKey == (if input.taskKey == "" then "browser.commands" else input.taskKey)
  }

  /** A task on which nothing has been done yet. */
  predicate Untouched(task: Task, status: TaskStatus) {
    && task.data.status == status && task.data.results == [] && task.data.artifacts == []
    && task.data.completedAt == None && task.data.lastError == None
  }

  /** Neither the sessions nor any task but the one created have changed. */
  ghost predicate Adds(s: State, s': State, task: Task) {
    s'.w == s.w && task.id !in s.tasks.rows && s'.tasks.rows == s.tasks.rows[task.id := task]
  }

  /** The call fails or answers with the task filed under its request id, and leaves the tasks as they are. */
  ghost predicate TurnedAway(s: State, requestId: string, env: TaskEnv, hindrance: Option<ErrorCode>, s': State, reply: TaskReply) {
    && s'.tasks == s.tasks
    && if Known(s, requestId) && !env.lookupFails then
         var id := s.tasks.index[requestId];
         s'.w == s.w && reply == TaskReply(if id in s.tasks.rows then Some(s.tasks.rows[id]) else None, None)
       else hindrance.Some? && reply == TaskReply(None, hindrance)
  }

  /** Admission, and the session as the read finds it. */
  lemma AdmitAnswers(cfg: SessionService.Config, s: State, status: TaskStatus, requestId: string, input: TaskInput, env: TaskEnv)
    requires RowsKeyed(s.w.store.rows) && input.sessionId != "" && (requestId == "" || (!env.lookupFails && !Known(s, requestId)))
    requires input.taskKey != ""
    ensures var (s', r) := Admit(cfg, s, status, requestId, input, env); var hindrance := Hindrance(s, requestId, Some(input), true, env);
            if hindrance.Some? then r == Err(hindrance.value) && s'.tasks == s.tasks
            else r.Ok? && Adds(s, s', r.value) && AsAsked(requestId, input, env, r.value) && Untouched(r.value, status)
  {
    SessionAnswers.ReadAnswers(cfg, s.w, input.sessionId, env.get);
  }

  /** Nothing is the hindrance exactly if every one of these holds. */
  lemma UnhinderedIff(s: State, requestId: string, input: Option<TaskInput>, complete: bool, env: TaskEnv)
    requires complete ==> input.Some? && input.value.sessionId != ""
    ensures Hindrance(s, requestId, input, complete, env).None? <==>
            && complete && (requestId != "" ==> !env.lookupFails)
            && SessionAnswers.ReadAsRunning(s.w, input.value.sessionId, env.get)
            && !env.createFails && env.taskId != "" && env.taskId !in s.tasks.rows && !Known(s, FiledAs(requestId, env))
  {
    if complete {
      SessionAnswers.RunningIff(s.w, input.value.sessionId, env.get);
    }
  }

  // ---- StartBrowserTask ----

  /** The task is queued; or FAILED with the error of the queue, unless that cannot be written. */
  ghost predicate Queues(s: State, requestId: string, input: TaskInput, env: TaskEnv, s': State, reply: TaskReply) {
    && env.taskId in s'.tasks.rows && reply.task.Some? && AsAsked(requestId, input, env, reply.task.value)
    && var task := s'.tasks.rows[env.taskId];
       && Adds(s, s', task) && reply.error == env.enqueueFails
       && if env.enqueueFails.None? then Untouched(task, Queued) && reply.task.value == task
          else
            && reply.task.value.data.status == TaskFailed && reply.task.value.data.lastError == env.enqueueFails
            && reply.task.value.data.completedAt == Some(env.completedAt)
            && reply.task.value.data.results == [] && reply.task.value.data.artifacts == []
            && if env.updateFails then Untouched(task, Queued) && AsAsked(requestId, input, env, task) else task == reply.task.value
  }

  lemma StartTaskAnswers(cfg: SessionService.Config, s: State, requestId: string, input: Option<TaskInput>, env: TaskEnv)
    requires RowsKeyed(s.w.store.rows)
    ensures var (s', reply) := StartTask(cfg, s, requestId, input, env);
            var hindrance := Hindrance(s, requestId, input, CompleteInput(input), env);
            if (Known(s, requestId) && !env.lookupFails) || hindrance.Some? then TurnedAway(s, requestId, env, hindrance, s', reply)
            else Queues(s, requestId, input.value, env, s', reply)
  {
    if Considered(s, requestId, CompleteInput(input), env) {
      AdmitAnswers(cfg, s, Queued, requestId, input.value, env);
    }
  }

  /** A task is created exactly if its request id is not known, its input is complete, its session is read as RUNNING, its ids are free and the store works. */
  lemma QueuedIff(cfg: SessionService.Config, s: State, requestId: string, input: Option<TaskInput>, env: TaskEnv)
    requires RowsKeyed(s.w.store.rows)
    ensures TaskOutcome.Created(s, StartTask(cfg, s, requestId, input, env).0, env.taskId) <==>
            && !Known(s, requestId) && (requestId != "" ==> !env.lookupFails) && CompleteInput(input)
            && SessionAnswers.ReadAsRunning(s.w, input.value.sessionId, env.get)
            && !env.createFails && env.taskId != "" && env.taskId !in s.tasks.rows && !Known(s, FiledAs(requestId, env))
  {
    StartTaskAnswers(cfg, s, requestId, input, env);
    UnhinderedIff(s, requestId, input, CompleteInput(input), env);
  }

  // ---- ExecuteBrowserCommands ----

  /** What the exchange with the worker reports as its error. */
  function Trouble(w: SessionService.World, input: TaskInput, line: Result<Line, ErrorCode>): Option<ErrorCode> {
    if input.sessionId !in w.runtime then Some(BrowserUnavailable)
    else match line
      case Err(code) => Some(code)
      case Ok(text) =>
        if !Decodable(text) then Some(BrowserUnavailable)
        else if text.error.None? then None
        else Some(ErrorCodeToProto(text.error.value))
  }

  /** What came of the exchange: the worker's results and artifacts in order, or nothing. */
  ghost predicate Exchanged(w: SessionService.World, input: TaskInput, line: Result<Line, ErrorCode>, task: Task) {
    if input.sessionId !in w.runtime || line.Err? || !Decodable(line.value) then Nothing(task)
    else
      && |task.data.results| == |line.value.results| && |task.data.artifacts| == |line.value.artifacts|
      && (forall i :: 0 <= i < |line.value.results| ==> line.value.results[i] == ResultMessage(task.data.results[i]))
      && (forall i :: 0 <= i < |line.value.artifacts| ==> line.value.artifacts[i] == ArtifactMessage(task.data.artifacts[i]))
  }

  predicate Nothing(task: Task) { task.data.results == [] && task.data.artifacts == [] }

  /** The task as it ends: SUCCEEDED exactly if the exchange reported no error. */
  ghost predicate EndsTask(w: SessionService.World, requestId: string, input: TaskInput, env: TaskEnv, task: Task) {
    && AsAsked(requestId, input, env, task) && task.data.completedAt == Some(env.completedAt)
    && Exchanged(w, input, env.line, task) && task.data.lastError == Trouble(w, input, env.line)
    && task.data.status == if task.data.lastError.Some? then TaskFailed else Succeeded
  }

  /** The task is stored and answered with as it ends; if that cannot be written it stays RUNNING, and the answer is its error or the store's. */
  ghost predicate Executes(s: State, requestId: string, input: TaskInput, env: TaskEnv, s': State, reply: TaskReply) {
    && env.taskId in s'.tasks.rows
    && var task, trouble := s'.tasks.rows[env.taskId], Trouble(s.w, input, env.line);
       && Adds(s, s', task)
       && (reply.task.Some? ==> EndsTask(s.w, requestId, input, env, reply.task.value))
       && if !env.updateFails then reply == TaskReply(Some(task), trouble)
          else
            && Untouched(task, TaskRunning) && AsAsked(requestId, input, env, task)
            && (reply.task.Some? <==> trouble.Some?) && reply.error == if trouble.Some? then trouble else Some(StoreUnavailable)
  }

  lemma RunAnswers(s0: State, s: State, requestId: string, input: TaskInput, task: Task, env: TaskEnv)
    requires Adds(s0, s, task) && AsAsked(requestId, input, env, task) && Untouched(task, TaskRunning) && env.taskId != ""
    ensures Executes(s0, requestId, input, env, RunTask(s, task, env).0, RunTask(s, task, env).1)
  {
    ExchangeAnswers(s.w, requestId, input, env, task);
  }

  lemma ExchangeAnswers(w: SessionService.World, requestId: string, input: TaskInput, env: TaskEnv, task: Task)
    requires AsAsked(requestId, input, env, task)
    ensures var (response, error) := Exchange(w, task, env.line);
            EndsTask(w, requestId, input, env, Finished(task, response, error, env.completedAt))
  {
  }

  /** The input as it is checked and stored. */
  function Keyed(input: TaskInput): TaskInput {
    input.(taskKey := if input.taskKey == "" then "browser.commands" else input.taskKey)
  }

  /** Nothing turns the call away before the session is read. */
  predicate Considered(s: State, requestId: string, complete: bool, env: TaskEnv) {
    complete && (requestId == "" || (!env.lookupFails && !Known(s, requestId)))
  }

  lemma ExecuteTurnedAway(cfg: SessionService.Config, s: State, requestId: string, input: Option<TaskInput>, env: TaskEnv)
    requires !Considered(s, requestId, CompleteCommands(input), env)
    ensures var (s', reply) := ExecuteCommands(cfg, s, requestId, input, env);
            TurnedAway(s, requestId, env, Hindrance(s, requestId, input, CompleteCommands(input), env), s', reply)
  {
  }

  lemma ExecuteAdmits(cfg: SessionService.Config, s: State, requestId: string, input: TaskInput, env: TaskEnv)
    requires Considered(s, requestId, CompleteCommands(Some(input)), env)
    ensures var (s1, admitted) := Admit(cfg, s, TaskRunning, requestId, Keyed(input), env);
            ExecuteCommands(cfg, s, requestId, Some(input), env) ==
            if admitted.Err? then (s1, TaskReply(None, Some(admitted.error))) else RunTask(s1, admitted.value, env)
  {
    assert WithTaskKey(Some(input)) == Some(Keyed(input));
  }

  lemma ExecuteAnswers(cfg: SessionService.Config, s: State, requestId: string, input: Option<TaskInput>, env: TaskEnv)
    requires RowsKeyed(s.w.store.rows)
    ensures var (s', reply) := ExecuteCommands(cfg, s, requestId, input, env);
            var hindrance := Hindrance(s, requestId, input, CompleteCommands(input), env);
            if (Known(s, requestId) && !env.lookupFails) || hindrance.Some? then TurnedAway(s, requestId, env, hindrance, s', reply)
            else Executes(s, requestId, input.value, env, s', reply)
  {
    if Considered(s, requestId, CompleteCommands(input), env) {
      AdmitAnswers(cfg, s, TaskRunning, requestId, Keyed(input.value), env);
      ExecuteAdmits(cfg, s, requestId, input.value, env);
      var (s1, admitted) := Admit(cfg, s, TaskRunning, requestId, Keyed(input.value), env);
      if admitted.Ok? {
        RunAnswers(s, s1, requestId, input.value, admitted.value, env);
      }
    } else {
      ExecuteTurnedAway(cfg, s, requestId, input, env);
    }
  }

  /** Likewise for commands, which have to be valid and there. */
  lemma ExecutedIff(cfg: SessionService.Config, s: State, requestId: string, input: Option<TaskInput>, env: TaskEnv)
    requires RowsKeyed(s.w.store.rows)
    ensures TaskOutcome.Created(s, ExecuteCommands(cfg, s, requestId, input, env).0, env.taskId) <==>
            && !Known(s, requestId) && (requestId != "" ==> !env.lookupFails) && CompleteCommands(input)
            && SessionAnswers.ReadAsRunning(s.w, input.value.sessionId, env.get)
            && !env.createFails && env.taskId != "" && env.taskId !in s.tasks.rows && !Known(s, FiledAs(requestId, env))
  {
    ExecuteAnswers(cfg, s, requestId, input, env);
    UnhinderedIff(s, requestId, input, CompleteCommands(input), env);
  }
}
