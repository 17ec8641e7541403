/** The task side of the service as an object (`internal/app/task_service.go`), proved equal to the functions of module TaskService. */
module TaskAutomation {
  import opened Wrappers
  import opened Core
  import opened Listing
  import opened Entities
  import opened Store
  import opened SessionService
  import opened Commands
  import opened TaskRun
  import opened Tasks = TaskService
  import Automation
  import TaskOutcome

  /** The same AutomationService object, with its session side in `sessions`. */
  class TaskService {
    const sessions: Automation.AutomationService

    /** Sessions and tasks are in order; every call relies on it and keeps it. */
    ghost predicate Valid() reads sessions.store, sessions.runtime, sessions.proxy {
      sessions.Valid() && sessions.store.Valid()
    }

    constructor (sessions: Automation.AutomationService)
      requires sessions.Valid() && sessions.store.Valid()
      ensures Valid() && this.sessions == sessions
    {
      this.sessions := sessions;
    }

    function Current(): State reads sessions.store, sessions.runtime, sessions.proxy {
      State(sessions.State(), sessions.store.Tasks())
    }

    method UpdateTask(task: Task, fails: bool) returns (error: Option<ErrorCode>)
      modifies sessions.store`tasks, sessions.store`taskRequestID
      ensures (Current(), error) == WriteTask(old(Current()), task, fails)
    {
      if fails {
        return Some(StoreUnavailable);
      }
      var r := sessions.store.UpdateTask(task);
      return if r.Err? then Some(r.error) else None;
    }

    method LookUpTask(requestId: string, fails: bool) returns (known: Option<TaskReply>)
      ensures known == LookUp(Current().tasks, requestId, fails)
    {
      if requestId == "" {
        return None;
      }
      if fails {
        return Some(Refuse(StoreUnavailable));
      }
      var existing := sessions.store.GetTaskByRequestID(requestId);
      return if existing.Ok? then Some(TaskReply(existing.value, None)) else None;
    }

    method AdmitTask(status: TaskStatus, requestId: string, input: TaskInput, env: TaskEnv) returns (r: Result<Task, ErrorCode>)
      requires sessions.Valid()
      modifies sessions.store, sessions.runtime`sessions, sessions.proxy`sessions
      ensures (Current(), r) == Admit(sessions.cfg, old(Current()), status, requestId, input, env)
      ensures sessions.Valid() && (old(sessions.Agreed()) && !env.get.expire.writeFails ==> sessions.Agreed())
    {
      var got := sessions.GetBrowserSession(input.sessionId, env.get);
      if got.error.Some? {
        return Err(got.error.value);
      }
      if got.session.None? || !got.session.value.data.status.Running? {
        return Err(SessionFinalized);
      }
      if env.createFails {
        return Err(StoreUnavailable);
      }
      var task := NewTask(status, requestId, input, env);
      var created := sessions.store.CreateTask(task);
      if created.Err? {
        return Err(created.error);
      }
      return Ok(task);
    }

    method StartBrowserTask(requestId: string, input: Option<TaskInput>, env: TaskEnv) returns (reply: TaskReply)
      requires Valid()
      modifies sessions.store, sessions.runtime`sessions, sessions.proxy`sessions
      ensures (Current(), reply) == StartTask(sessions.cfg, old(Current()), requestId, input, env)
      ensures Valid() && (old(sessions.Agreed()) && !env.get.expire.writeFails ==> sessions.Agreed())
    {
      TaskOutcome.StartKeeps(sessions.cfg, Current(), requestId, input, env);
      var known := LookUpTask(requestId, env.lookupFails);
      if known.Some? {
        return known.value;
      }
      if !ValidInput(input) {
        return Refuse(ValidationFailed);
      }
      var admitted := AdmitTask(Queued, requestId, input.value, env);
      if admitted.Err? {
        return Refuse(admitted.error);
      }
      if env.enqueueFails.None? {
        return TaskReply(Some(admitted.value), None);
      }
      var failed := Finished(admitted.value, NOTHING, env.enqueueFails, env.completedAt);
      var _ := UpdateTask(failed, env.updateFails);
      return TaskReply(Some(failed), env.enqueueFails);
    }

    method ExecuteTask(task: Task, line: Result<Line, ErrorCode>) returns (response: Response, error: Option<ErrorCode>)
      ensures (response, error) == Exchange(Current().w, task, line)
    {
      if task.data.sessionId !in sessions.runtime.sessions {
        return NOTHING, Some(BrowserUnavailable);
      }
      if line.Err? {
        return NOTHING, Some(line.error);
      }
      var decoded := DecodeWorkerResponse(line.value);
      if decoded.Err? {
        return NOTHING, Some(decoded.error);
      }
      return decoded.value, if decoded.value.error.Some? then Some(ErrorCodeToProto(decoded.value.error.value)) else None;
    }

    method ExecuteBrowserCommands(requestId: string, input: Option<TaskInput>, env: TaskEnv) returns (reply: TaskReply)
      requires Valid()
      modifies sessions.store, sessions.runtime`sessions, sessions.proxy`sessions
      ensures (Current(), reply) == ExecuteCommands(sessions.cfg, old(Current()), requestId, input, env)
      ensures Valid() && (old(sessions.Agreed()) && !env.get.expire.writeFails ==> sessions.Agreed())
    {
      TaskOutcome.ExecuteKeeps(sessions.cfg, Current(), requestId, input, env);
      var known := LookUpTask(requestId, env.lookupFails);
      if known.Some? {
        return known.value;
      }
      var input := WithTaskKey(input);
      if !ValidInput(input) || input.value.commands == [] || !ValidCommands(input.value.commands) {
        return Refuse(ValidationFailed);
      }
      var admitted := AdmitTask(TaskRunning, requestId, input.value, env);
      if admitted.Err? {
        return Refuse(admitted.error);
      }
      var response, error := ExecuteTask(admitted.value, env.line);
      var done := Finished(admitted.value, response, error, env.completedAt);
      var writeError := UpdateTask(done, env.updateFails);
      if error.Some? {
        return TaskReply(Some(done), error);
      }
      if writeError.Some? {
        return TaskReply(None, writeError);
      }
      return TaskReply(Some(done), None);
    }
  }
}
