/**
 The two entry points for tasks in `internal/app/task_service.go`, over the store, the runtime and the
 interpreter.  As in module SessionService the functions are the effects of calls run one at a time, with
 everything the service cannot decide in `TaskEnv`; the class in module TaskAutomation is proved equal to them.
 */
module TaskService {
  import opened Wrappers
  import opened Core
  import opened Listing
  import opened Entities
  import opened Store
  import opened SessionService
  import opened Commands
  import opened TaskRun

  /** A missing timeout reads as 0. */
  datatype TaskInput = TaskInput(
    sessionId: string, taskKey: string, scenarioKey: string, labels: map<string, string>, timeout: int, commands: seq<Command>)

  /** `line` is what the exchange with the worker yields, should there be one: a line, or the code of its failure. */
  datatype TaskEnv = TaskEnv(
    taskId: string, generatedRequestId: string, now: int, completedAt: int,
    lookupFails: bool, createFails: bool, updateFails: bool,
    get: GetEnv, enqueueFails: Option<ErrorCode>, line: Result<Line, ErrorCode>)

  datatype State = State(w: World, tasks: Table<TaskData>)

  datatype TaskReply = TaskReply(task: Option<Task>, error: Option<ErrorCode>)

  function Refuse(code: ErrorCode): TaskReply { TaskReply(None, Some(code)) }

  /** The lookup both entry points begin with; None means to go on. */
  function LookUp(tasks: Table<TaskData>, requestId: string, fails: bool): Option<TaskReply> {
    if requestId == "" then None
    else if fails then Some(Refuse(StoreUnavailable))
    else match GetByRequestID(tasks, requestId, TaskNotFound)
      case Ok(task) => Some(TaskReply(task, None))
      case Err(_) => None
  }

  predicate ValidInput(input: Option<TaskInput>) {
    input.Some? && input.value.sessionId != "" && input.value.taskKey != "" && input.value.timeout >= 0
  }

  function WithTaskKey(input: Option<TaskInput>): Option<TaskInput> {
    if input.Some? && input.value.taskKey == "" then Some(input.value.(taskKey := "browser.commands")) else input
  }

  function NewTask(status: TaskStatus, requestId: string, input: TaskInput, env: TaskEnv): Task {
    Record(env.taskId, if requestId == "" then env.generatedRequestId else requestId, env.now,
           TaskData(status, input.sessionId, input.taskKey, input.scenarioKey, input.labels, [], [], None, None))
  }

  /** From a valid input to the created row: the session must be RUNNING. */
  function Admit(cfg: Config, s: State, status: TaskStatus, requestId: string, input: TaskInput, env: TaskEnv)
    : (State, Result<Task, ErrorCode>)
  {
    var (w, got) := GetSession(cfg, s.w, input.sessionId, env.get);
    var s := s.(w := w);
    if got.error.Some? then (s, Err(got.error.value))
    else if got.session.None? || !got.session.value.data.status.Running? then (s, Err(SessionFinalized))
    else if env.createFails then (s, Err(StoreUnavailable))
    else match Create(s.tasks, NewTask(status, requestId, input, env))
      case Err(e) => (s, Err(e))
      case Ok(tasks) => (s.(tasks := tasks), Ok(NewTask(status, requestId, input, env)))
  }

  /** UpdateTask, which fails when the database does or when the row is missing. */
  function WriteTask(s: State, task: Task, fails: bool): (State, Option<ErrorCode>) {
    if fails then (s, Some(StoreUnavailable))
    else match Update(s.tasks, task, TaskNotFound)
      case Ok(tasks) => (s.(tasks := tasks), None)
      case Err(e) => (s, Some(e))
  }

  // ---- StartBrowserTask ----

  function Queue(s: State, task: Task, env: TaskEnv): (State, TaskReply) {
    if env.enqueueFails.None? then (s, TaskReply(Some(task), None))
    else
      var failed := Finished(task, NOTHING, env.enqueueFails, env.completedAt);
      (WriteTask(s, failed, env.updateFails).0, TaskReply(Some(failed), env.enqueueFails))
  }

  function StartTask(cfg: Config, s: State, requestId: string, input: Option<TaskInput>, env: TaskEnv): (State, TaskReply) {
    var known := LookUp(s.tasks, requestId, env.lookupFails);
    if known.Some? then (s, known.value)
    else if !ValidInput(input) then (s, Refuse(ValidationFailed))
    else
      var (s, admitted) := Admit(cfg, s, Queued, requestId, input.value, env);
      if admitted.Err? then (s, Refuse(admitted.error)) else Queue(s, admitted.value, env)
  }

  // ---- ExecuteBrowserCommands ----

  const NOTHING := Response([], [], None)

  /** Runtime.ExecuteTask: what came back and, if the call ends with an error, its code as Go renders it. */
  function Exchange(w: World, task: Task, line: Result<Line, ErrorCode>): (Response, Option<ErrorCode>) {
    if task.data.sessionId !in w.runtime then (NOTHING, Some(BrowserUnavailable))
    else match line
      case Err(code) => (NOTHING, Some(code))
      case Ok(text) =>
        match Decode(text)
        case Err(code) => (NOTHING, Some(code))
        case Ok(response) => (response, if response.error.Some? then Some(ErrorCodeToProto(response.error.value)) else None)
  }

  function Finished(task: Task, response: Response, error: Option<ErrorCode>, at: int): Task {
    task.(data := task.data.(
            results := response.results, artifacts := response.artifacts, completedAt := Some(at),
            status := if error.Some? then TaskFailed else Succeeded, lastError := error))
  }

  function RunTask(s: State, task: Task, env: TaskEnv): (State, TaskReply) {
    var (response, error) := Exchange(s.w, task, env.line);
    var done := Finished(task, response, error, env.completedAt);
    var (s, writeError) := WriteTask(s, done, env.updateFails);
    if error.Some? then (s, TaskReply(Some(done), error))
    else if writeError.Some? then (s, TaskReply(None, writeError))
    else (s, TaskReply(Some(done), None))
  }

  function ExecuteCommands(cfg: Config, s: State, requestId: string, input: Option<TaskInput>, env: TaskEnv): (State, TaskReply) {
    var known := LookUp(s.tasks, requestId, env.lookupFails);
    if known.Some? then (s, known.value)
    else
      var input := WithTaskKey(input);
      if !ValidInput(input) || input.value.commands == [] || !ValidCommands(input.value.commands) then (s, Refuse(ValidationFailed))
      else
        var (s, admitted) := Admit(cfg, s, TaskRunning, requestId, input.value, env);
        if admitted.Err? then (s, Refuse(admitted.error)) else RunTask(s, admitted.value, env)
  }
}
