/**
 What one call of the session service does to the store, the runtime and the proxy controller, for calls
 run one at a time (`internal/app/session_service.go`).  Everything the service cannot decide -- clock
 readings, generated ids, whether processes start or stop, whether the database accepts a write -- comes
 with the call as its `Env`.  The methods of module Automation are proved equal to these functions.
 */
module SessionService {
  import opened Wrappers
  import opened Core
  import opened Listing
  import opened Entities
  import opened Store
  import Proxies = ProxySelection

  /** The processes behind a running session: camoufox has a server and a worker, cloakbrowser a worker only. */
  datatype Processes = Processes(server: Option<nat>, worker: nat)

  datatype World = World(store: Table<SessionData>, runtime: map<string, Processes>, leases: map<string, Proxies.Lease>)

  /** normalize() of either runtime raises MaxSessions to at least one. */
  datatype Config = Config(maxSessions: nat, kind: BrowserKind, proxy: Proxies.Config)

  ghost predicate Configured(cfg: Config) {
    cfg.maxSessions >= 1 && !cfg.kind.KindUnspecified? && Proxies.Configured(cfg.proxy)
  }

  const EMPTY := World(Table(map[], map[]), map[], map[])

  /** A Go call may return a session, an error, or both. */
  datatype Reply = Reply(session: Option<Session>, error: Option<ErrorCode>)

  function Fail(code: ErrorCode): Reply { Reply(None, Some(code)) }

  // ---- store writes that may fail ----

  /** UpdateSession, which fails when the database does or when the row is missing. */
  function Write(w: World, session: Session, fails: bool): (World, Option<ErrorCode>) {
    if fails then (w, Some(StoreUnavailable))
    else match Update(w.store, session, SessionNotFound)
      case Ok(store) => (w.(store := store), None)
      case Err(e) => (w, Some(e))
  }

  // ---- runtime ----

  datatype Launch = Launched(processes: Processes) | DirectoryFailed | LaunchFailed(code: ErrorCode)

  function Release(w: World, id: string): World {
    w.(leases := w.leases - {id})
  }

  /** Runtime.StartSession with nothing else running: its second look at the map finds what the first one found. */
  function RuntimeStart(cfg: Config, w: World, session: Session, launch: Launch): (World, Option<ErrorCode>) {
    if session.data.kind != cfg.kind then (w, Some(UnsupportedOperation))
    else if session.id in w.runtime then (w, None)
    else if |w.runtime| >= cfg.maxSessions then (w, Some(CapacityUnavailable))
    else match launch
      case DirectoryFailed => (w, Some(Internal))
      case LaunchFailed(code) => (Release(w, session.id), Some(code))
      case Launched(processes) => (w.(runtime := w.runtime[session.id := processes]), None)
  }

  /** How stopping the processes and releasing the lease at the remote end go. */
  datatype Teardown = Teardown(stopFails: bool, releaseFails: bool)

  function RuntimeStop(cfg: Config, w: World, id: string, t: Teardown): (World, Option<ErrorCode>) {
    var w' := Release(w.(runtime := w.runtime - {id}), id);
    var remote := id in w.leases && w.leases[id].leaseId != "" && cfg.proxy.remote;
    (w', if (id in w.runtime && t.stopFails) || (remote && t.releaseFails) then Some(BrowserUnavailable) else None)
  }

  // ---- StartBrowserSession ----

  datatype StartRequest = StartRequest(
    requestId: string, kind: BrowserKind, proxyRef: string, profileValid: bool,
    ttl: int, labels: map<string, string>, selection: Proxies.Selection)

  datatype StartEnv = StartEnv(
    sessionId: string, generatedRequestId: string,
    createdAt: int, failedAt: int, startedAt: int,
    lookupFails: bool, createFails: bool, updateFails: bool,
    validProxy: string -> bool, acquired: Option<Proxies.Acquired>, launch: Launch)

  const DEFAULT_TTL := 30 * 60 * 1_000_000_000

  function NewSession(cfg: Config, req: StartRequest, env: StartEnv): Session {
    var ttl := if req.ttl == 0 then DEFAULT_TTL else req.ttl;
    Record(
      env.sessionId, if req.requestId == "" then env.generatedRequestId else req.requestId, env.createdAt,
      SessionData(
        Starting, if req.kind.KindUnspecified? then cfg.kind else req.kind, req.proxyRef,
        env.createdAt, None, None, Some(env.createdAt + ttl), None, req.labels))
  }

  function Failing(session: Session, code: ErrorCode, at: int): Session {
    session.(stamp := at, data := session.data.(status := Failed, lastError := Some(code)))
  }

  function FailStart(w: World, session: Session, code: ErrorCode, env: StartEnv): (World, Reply) {
    var failed := Failing(session, code, env.failedAt);
    (Write(Release(w, session.id), failed, env.updateFails).0, Reply(Some(failed), Some(code)))
  }

  function Started(session: Session, env: StartEnv): Session {
    session.(stamp := env.startedAt, data := session.data.(status := Running, startedAt := Some(env.startedAt)))
  }

  /** From the created row on: prepare the proxy, start the runtime, record the outcome. */
  function FinishStart(cfg: Config, w: World, session: Session, req: StartRequest, env: StartEnv): (World, Reply) {
    match Proxies.ResolveSelection(cfg.proxy, req.selection, session.data.proxyRef, env.validProxy, env.acquired)
    case Err(_) => FailStart(w, session, ProxyFailed, env)
    case Ok(resolved) =>
      var session := session.(data := session.data.(proxyRef := resolved.ref));
      var w := if resolved.lease.url == "" then w else w.(leases := w.leases[session.id := resolved.lease]);
      var (w, error) := RuntimeStart(cfg, w, session, env.launch);
      if error.Some? then FailStart(w, session, error.value, env)
      else
        var running := Started(session, env);
        var (w, error) := Write(w, running, env.updateFails);
        (w, if error.Some? then Reply(None, error) else Reply(Some(running), None))
  }

  function Start(cfg: Config, w: World, req: StartRequest, env: StartEnv): (World, Reply) {
    if req.requestId != "" && env.lookupFails then (w, Fail(StoreUnavailable))
    else if req.requestId != "" && req.requestId in w.store.index then
      (w, Reply(GetByRequestID(w.store, req.requestId, SessionNotFound).value, None))
    else if !req.profileValid || req.ttl < 0 then (w, Fail(ValidationFailed))
    else if |w.runtime| >= cfg.maxSessions then (w, Fail(CapacityUnavailable))
    else if env.createFails then (w, Fail(StoreUnavailable))
    else match Create(w.store, NewSession(cfg, req, env))
      case Err(e) => (w, Fail(e))
      case Ok(store) => FinishStart(cfg, w.(store := store), NewSession(cfg, req, env), req, env)
  }

  // ---- StopBrowserSession ----

  datatype StopEnv = StopEnv(
    readFails: bool, stoppingAt: int, firstWriteFails: bool, teardown: Teardown, finishedAt: int, lastWriteFails: bool)

  function Marked(session: Session, at: int): Session {
    session.(stamp := at, data := session.data.(status := Stopping))
  }

  function Halted(session: Session, reason: string, at: int): Session {
    session.(stamp := at, data := session.data.(
               status := Stopped, stoppedAt := Some(at),
               labels := if reason == "" then session.data.labels else session.data.labels["stop_reason" := reason]))
  }

  function Stop(cfg: Config, w: World, id: string, reason: string, env: StopEnv): (World, Reply) {
    if env.readFails then (w, Fail(StoreUnavailable))
    else match Get(w.store, id, SessionNotFound)
      case Err(e) => (w, Fail(e))
      case Ok(session) =>
        if SessionStatusIsFinal(session.data.status) then (w, Reply(Some(session), Some(SessionFinalized)))
        else
          var marked := Marked(session, env.stoppingAt);
          var (w, error) := Write(w, marked, env.firstWriteFails);
          if error.Some? then (w, Reply(None, error))
          else FinishStop(cfg, w, marked, reason, env)
  }

  function FinishStop(cfg: Config, w: World, marked: Session, reason: string, env: StopEnv): (World, Reply) {
    var (w, error) := RuntimeStop(cfg, w, marked.id, env.teardown);
    if error.Some? then
      var failed := Failing(marked, error.value, env.finishedAt);
      (Write(Release(w, marked.id), failed, env.lastWriteFails).0, Reply(Some(failed), error))
    else
      var halted := Halted(marked, reason, env.finishedAt);
      var (w, error) := Write(Release(w, marked.id), halted, env.lastWriteFails);
      (w, if error.Some? then Reply(None, error) else Reply(Some(halted), None))
  }

  // ---- expiry, GetBrowserSession, ListBrowserSessions ----

  datatype ExpireEnv = ExpireEnv(now: int, teardown: Teardown, writeFails: bool)

  predicate Due(session: Session, now: int) {
    session.data.expiresAt.Some? && now > session.data.expiresAt.value && !SessionStatusIsFinal(session.data.status)
  }

  function Lapsed(session: Session, now: int): Session {
    session.(stamp := now, data := session.data.(status := Expired, stoppedAt := Some(now)))
  }

  function ExpireIfNeeded(cfg: Config, w: World, session: Session, env: ExpireEnv): (World, Reply) {
    if !Due(session, env.now) then (w, Reply(Some(session), None))
    else
      var lapsed := Lapsed(session, env.now);
      var (w, error) := Write(Release(RuntimeStop(cfg, w, session.id, env.teardown).0, session.id), lapsed, env.writeFails);
      (w, if error.Some? then Reply(None, error) else Reply(Some(lapsed), None))
  }

  datatype GetEnv = GetEnv(readFails: bool, expire: ExpireEnv)

  function GetSession(cfg: Config, w: World, id: string, env: GetEnv): (World, Reply) {
    if env.readFails then (w, Fail(StoreUnavailable))
    else match Get(w.store, id, SessionNotFound)
      case Err(e) => (w, Fail(e))
      case Ok(session) => ExpireIfNeeded(cfg, w, session, env.expire)
  }

  /** The loop of ListBrowserSessions over the listed rows, each with its own clock reading. */
  function ExpireRows(cfg: Config, w: World, rows: seq<Session>, env: nat -> ExpireEnv, from: nat)
    : (World, Result<seq<Session>, ErrorCode>)
    requires from <= |rows|
    decreases |rows| - from
  {
    if from == |rows| then (w, Ok([]))
    else
      var (w, reply) := ExpireIfNeeded(cfg, w, rows[from], env(from));
      if reply.error.Some? || reply.session.None? then (w, Err(if reply.error.Some? then reply.error.value else Internal))
      else
        var (w, rest) := ExpireRows(cfg, w, rows, env, from + 1);
        (w, if rest.Err? then rest else Ok([reply.session.value] + rest.value))
  }

  datatype ListEnv = ListEnv(readFails: bool, expire: nat -> ExpireEnv)

  ghost function ListSessions(cfg: Config, w: World, size: int, token: string, env: ListEnv)
    : (World, Result<Page<SessionData>, ErrorCode>)
    requires RowsKeyed(w.store.rows)
  {
    if env.readFails then (w, Err(StoreUnavailable))
    else match SessionPage(w.store.rows, size, token)
      case Err(e) => (w, Err(e))
      case Ok(page) =>
        var (w, rows) := ExpireRows(cfg, w, page.rows, env.expire, 0);
        (w, if rows.Err? then Err(rows.error) else Ok(Page(rows.value, page.next)))
  }

  // ---- calls and runs ----

  datatype Call =
    | StartCall(req: StartRequest, startEnv: StartEnv)
    | StopCall(id: string, reason: string, stopEnv: StopEnv)
    | GetCall(id: string, getEnv: GetEnv)
    | ListCall(size: int, token: string, listEnv: ListEnv)

  ghost function Perform(cfg: Config, w: World, call: Call): World
    requires RowsKeyed(w.store.rows)
  {
    match call
    case StartCall(req, env) => Start(cfg, w, req, env).0
    case StopCall(id, reason, env) => Stop(cfg, w, id, reason, env).0
    case GetCall(id, env) => GetSession(cfg, w, id, env).0
    case ListCall(size, token, env) => ListSessions(cfg, w, size, token, env).0
  }
}
