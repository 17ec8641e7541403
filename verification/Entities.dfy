/** The parts of sessions, tasks and command results the service's logic depends on. */
module Entities {
  import opened Wrappers
  import opened Core
  import opened Listing

  datatype BrowserKind = KindUnspecified | Firefox | Chromium

  /** Times are instants in nanoseconds.  `proxyRef` is profile.proxy_ref. */
  datatype SessionData = SessionData(
    status: SessionStatus,
    kind: BrowserKind,
    proxyRef: string,
    createdAt: int,
    startedAt: Option<int>,
    stoppedAt: Option<int>,
    expiresAt: Option<int>,
    lastError: Option<ErrorCode>,
    labels: map<string, string>)

  /** A session row; its stamp is updated_at. */
  type Session = Record<SessionData>

  /** `error` is the code of a failed command, None for a succeeded one. */
  datatype CommandResult = CommandResult(commandId: string, commandKey: string, error: Option<ErrorCode>)

  datatype TaskData = TaskData(
    status: TaskStatus,
    sessionId: string,
    taskKey: string,
    scenarioKey: string,
    labels: map<string, string>,
    results: seq<CommandResult>,
    artifacts: seq<string>,
    completedAt: Option<int>,
    lastError: Option<ErrorCode>)

  /** A task row; its stamp is created_at. */
  type Task = Record<TaskData>

  /** An empty string, a missing status or a missing time does not restrict. */
  datatype TaskFilter = TaskFilter(
    sessionId: string,
    status: Option<TaskStatus>,
    taskKey: string,
    scenarioKey: string,
    labelKey: string,
    labelValue: string,
    createdAfter: Option<int>,
    createdBefore: Option<int>)
}
