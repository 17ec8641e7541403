/**
 The service, the runtime and the proxy controller as objects whose methods change their maps, proved
 equal to the functions of module SessionService.  Calls run one at a time here; modules RuntimeProtocol,
 LeaseProtocol and Admission let them interleave.
 */
module Automation {
  import opened Wrappers
  import opened Core
  import opened Listing
  import opened Entities
  import opened Store
  import opened SessionService
  import Agreement
  import Proxies = ProxySelection
  import SessionRecords

  /** `internal/adapters/proxyplugin/controller.go` */
  class Controller {
    const cfg: Proxies.Config
    var sessions: map<string, Proxies.Lease>

    constructor (cfg: Proxies.Config)
      ensures this.cfg == cfg && sessions == map[]
    {
      this.cfg, sessions := cfg, map[];
    }

    method PrepareSessionProxy(id: string, proxyRef: string, selection: Proxies.Selection, valid: string -> bool, acquired: Option<Proxies.Acquired>)
      returns (ref: Result<string, ErrorCode>)
      modifies this`sessions
      ensures var choice := Proxies.ResolveSelection(cfg, selection, proxyRef, valid, acquired);
              if choice.Err? then ref == Err(choice.error) && sessions == old(sessions)
              else ref == Ok(choice.value.ref) &&
                   sessions == if choice.value.lease.url == "" then old(sessions) else old(sessions)[id := choice.value.lease]
    {
      var choice := Proxies.ResolveSelection(cfg, selection, proxyRef, valid, acquired);
      if choice.Err? {
        return Err(choice.error);
      }
      if choice.value.lease.url == "" {
        return Ok(choice.value.ref);
      }
      sessions := sessions[id := choice.value.lease];
      return Ok(choice.value.ref);
    }

    method ResolveSessionProxy(id: string) returns (url: string)
      ensures url == if id in sessions then sessions[id].url else ""
    {
      return if id in sessions then sessions[id].url else "";
    }

    /** `remoteFails` is the answer of the proxy runtime, should the lease have to be released there. */
    method ReleaseSessionProxy(id: string, remoteFails: bool) returns (failed: bool)
      modifies this`sessions
      ensures sessions == old(sessions) - {id}
      ensures failed <==> id in old(sessions) && old(sessions)[id].leaseId != "" && cfg.remote && remoteFails
    {
      var state := if id in sessions then sessions[id] else Proxies.NO_LEASE;
      sessions := sessions - {id};
      if state.leaseId == "" || !cfg.remote {
        return false;
      }
      return remoteFails;
    }
  }

  /** The runtime of either `internal/adapters/runtime/camoufox/runtime_core.go` or `cloakbrowser/runtime_core.go`. */
  class Runtime {
    const cfg: Config
    const proxy: Controller
    var sessions: map<string, Processes>

    constructor (cfg: Config, proxy: Controller)
      ensures this.cfg == cfg && this.proxy == proxy && sessions == map[]
    {
      this.cfg, this.proxy, sessions := cfg, proxy, map[];
    }

    function ActiveSessionCount(): nat reads this { |sessions| }

    method StartSession(session: Session, launch: Launch) returns (error: Option<ErrorCode>)
      modifies this`sessions, proxy`sessions
      ensures forall store :: var (w, e) := RuntimeStart(cfg, World(store, old(sessions), old(proxy.sessions)), session, launch);
                w == World(store, sessions, proxy.sessions) && e == error
    {
      if session.data.kind != cfg.kind {
        return Some(UnsupportedOperation);
      }
      if session.id in sessions {
        return None;
      }
      if |sessions| >= cfg.maxSessions {
        return Some(CapacityUnavailable);
      }
      if launch.DirectoryFailed? {
        return Some(Internal);
      }
      var proxyURL := proxy.ResolveSessionProxy(session.id);
      if launch.LaunchFailed? {
        var _ := proxy.ReleaseSessionProxy(session.id, false);
        return Some(launch.code);
      }
      sessions := sessions[session.id := launch.processes];
      return None;
    }

    method StopSession(id: string, teardown: Teardown) returns (error: Option<ErrorCode>)
      requires proxy.cfg == cfg.proxy
      modifies this`sessions, proxy`sessions
      ensures forall store :: var (w, e) := RuntimeStop(cfg, World(store, old(sessions), old(proxy.sessions)), id, teardown);
                w == World(store, sessions, proxy.sessions) && e == error
    {
      var running := id in sessions;
      sessions := sessions - {id};
      if !running {
        var failed := proxy.ReleaseSessionProxy(id, teardown.releaseFails);
        return if failed then Some(BrowserUnavailable) else None;
      }
      var stopFailed := teardown.stopFails;
      var releaseFailed := proxy.ReleaseSessionProxy(id, teardown.releaseFails);
      return if stopFailed || releaseFailed then Some(BrowserUnavailable) else None;
    }

    /** A session whose processes or lease make trouble on the way out. */
    predicate Troubled(id: string, leases: map<string, Proxies.Lease>, teardowns: map<string, Teardown>) {
      id in teardowns &&
      (teardowns[id].stopFails ||
       (id in leases && leases[id].leaseId != "" && proxy.cfg.remote && teardowns[id].releaseFails))
    }

    /** Takes over everything registered, then stops it and releases its leases one by one, errors notwithstanding. */
    method Shutdown(teardowns: map<string, Teardown>) returns (failed: bool)
      requires teardowns.Keys == sessions.Keys
      modifies this`sessions, proxy`sessions
      ensures sessions == map[] && proxy.sessions == old(proxy.sessions) - old(sessions).Keys
      ensures failed <==> exists id :: id in old(sessions) && Troubled(id, old(proxy.sessions), teardowns)
    {
      var rest := sessions.Keys;
      sessions := map[];
      failed := false;
      while rest != {}
        invariant sessions == map[] && rest <= old(sessions).Keys
        invariant proxy.sessions == old(proxy.sessions) - (old(sessions).Keys - rest)
        invariant failed <==> exists id :: id in old(sessions) && id !in rest && Troubled(id, old(proxy.sessions), teardowns)
      {
        var id :| id in rest;
        var releaseFailed := proxy.ReleaseSessionProxy(id, teardowns[id].releaseFails);
        assert (teardowns[id].stopFails || releaseFailed) <==> Troubled(id, old(proxy.sessions), teardowns);
        failed := failed || teardowns[id].stopFails || releaseFailed;
        rest := rest - {id};
      }
    }
  }

  /** `internal/app/session_service.go` */
  class AutomationService {
    const cfg: Config
    const store: MemoryStore
    const runtime: Runtime
    const proxy: Controller

    /** The parts are wired as main.go wires them: service and runtime share one controller. */
    predicate Wired() {
      runtime.cfg == cfg && runtime.proxy == proxy && proxy.cfg == cfg.proxy
    }

    function State(): World reads store, runtime, proxy {
      World(store.Sessions(), runtime.sessions, proxy.sessions)
    }

    /** What every call relies on and keeps. */
    ghost predicate Valid() reads store, runtime, proxy {
      Wired() && Configured(cfg) && SessionRecords.Sound(State())
    }

    /** Store, runtime and controller agree about every session. */
    ghost predicate Agreed() reads store, runtime, proxy { Agreement.Agree(State()) }

    /** The store may hold rows of an earlier process; runtime and controller start out empty. */
    constructor (cfg: Config, store: MemoryStore, runtime: Runtime, proxy: Controller)
      requires runtime.cfg == cfg && runtime.proxy == proxy && proxy.cfg == cfg.proxy && Configured(cfg)
      requires runtime.sessions == map[] && proxy.sessions == map[]
      requires SessionRecords.Rows(store.sessions) && Coherent(store.Sessions())
      ensures Valid() && this.cfg == cfg && this.store == store && this.runtime == runtime && this.proxy == proxy
    {
      this.cfg, this.store, this.runtime, this.proxy := cfg, store, runtime, proxy;
    }

    /** store.UpdateSession, where the store may be a database that refuses. */
    method UpdateSession(session: Session, fails: bool) returns (error: Option<ErrorCode>)
      requires Wired()
      modifies store`sessions, store`sessionRequestID
      ensures (State(), error) == Write(old(State()), session, fails)
    {
      if fails {
        return Some(StoreUnavailable);
      }
      var r := store.UpdateSession(session);
      return if r.Err? then Some(r.error) else None;
    }

    method FailStart(session: Session, code: ErrorCode, env: StartEnv) returns (reply: Reply)
      requires Wired()
      modifies store`sessions, store`sessionRequestID, proxy`sessions
      ensures (State(), reply) == SessionService.FailStart(old(State()), session, code, env)
    {
      var failed := Failing(session, code, env.failedAt);
      var _ := proxy.ReleaseSessionProxy(session.id, false);
      var _ := UpdateSession(failed, env.updateFails);
      return Reply(Some(failed), Some(code));
    }

    method StartBrowserSession(req: StartRequest, env: StartEnv) returns (reply: Reply)
      requires Valid()
      modifies store`sessions, store`sessionRequestID, runtime`sessions, proxy`sessions
      ensures (State(), reply) == Start(cfg, old(State()), req, env)
      ensures Valid() && (old(Agreed()) && !env.updateFails ==> Agreed())
    {
      SessionRecords.CallKeepsSound(cfg, State(), StartCall(req, env));
      if req.requestId != "" {
        if env.lookupFails {
          return Fail(StoreUnavailable);
        }
        var existing := store.GetSessionByRequestID(req.requestId);
        if existing.Ok? {
          return Reply(existing.value, None);
        }
      }
      if !req.profileValid || req.ttl < 0 {
        return Fail(ValidationFailed);
      }
      if runtime.ActiveSessionCount() >= cfg.maxSessions {
        return Fail(CapacityUnavailable);
      }
      var session := NewSession(cfg, req, env);
      if env.createFails {
        return Fail(StoreUnavailable);
      }
      var created := store.CreateSession(session);
      if created.Err? {
        return Fail(created.error);
      }
      reply := LaunchSession(session, req, env);
    }

    method LaunchSession(session: Session, req: StartRequest, env: StartEnv) returns (reply: Reply)
      requires Wired()
      modifies store`sessions, store`sessionRequestID, runtime`sessions, proxy`sessions
      ensures (State(), reply) == FinishStart(cfg, old(State()), session, req, env)
    {
      var session := session;
      var prepared := proxy.PrepareSessionProxy(session.id, session.data.proxyRef, req.selection, env.validProxy, env.acquired);
      if prepared.Err? {
        reply := FailStart(session, ProxyFailed, env);
        return;
      }
      session := session.(data := session.data.(proxyRef := prepared.value));
      ghost var before := State();
      var startError := runtime.StartSession(session, env.launch);
      assert (State(), startError) == RuntimeStart(cfg, before, session, env.launch);
      if startError.Some? {
        reply := FailStart(session, startError.value, env);
        return;
      }
      session := Started(session, env);
      var writeError := UpdateSession(session, env.updateFails);
      if writeError.Some? {
        return Reply(None, writeError);
      }
      return Reply(Some(session), None);
    }

    method StopBrowserSession(id: string, reason: string, env: StopEnv) returns (reply: Reply)
      requires Valid()
      modifies store`sessions, store`sessionRequestID, runtime`sessions, proxy`sessions
      ensures (State(), reply) == Stop(cfg, old(State()), id, reason, env)
      ensures Valid() && (old(Agreed()) && !env.firstWriteFails && !env.lastWriteFails ==> Agreed())
    {
      SessionRecords.CallKeepsSound(cfg, State(), StopCall(id, reason, env));
      if env.readFails {
        return Fail(StoreUnavailable);
      }
      var found := store.GetSession(id);
      if found.Err? {
        return Fail(found.error);
      }
      var session := found.value;
      if SessionStatusIsFinal(session.data.status) {
        return Reply(Some(session), Some(SessionFinalized));
      }
      session := Marked(session, env.stoppingAt);
      var writeError := UpdateSession(session, env.firstWriteFails);
      if writeError.Some? {
        return Reply(None, writeError);
      }
      reply := HaltSession(session, reason, env);
    }

    method HaltSession(marked: Session, reason: string, env: StopEnv) returns (reply: Reply)
      requires Wired()
      modifies store`sessions, store`sessionRequestID, runtime`sessions, proxy`sessions
      ensures (State(), reply) == FinishStop(cfg, old(State()), marked, reason, env)
    {
      ghost var before := State();
      var stopError := runtime.StopSession(marked.id, env.teardown);
      assert (State(), stopError) == RuntimeStop(cfg, before, marked.id, env.teardown);
      var _ := proxy.ReleaseSessionProxy(marked.id, false);
      if stopError.Some? {
        var failed := Failing(marked, stopError.value, env.finishedAt);
        var _ := UpdateSession(failed, env.lastWriteFails);
        return Reply(Some(failed), stopError);
      }
      var halted := Halted(marked, reason, env.finishedAt);
      var writeError := UpdateSession(halted, env.lastWriteFails);
      if writeError.Some? {
        return Reply(None, writeError);
      }
      return Reply(Some(halted), None);
    }

    method ExpireSessionIfNeeded(session: Session, env: ExpireEnv) returns (reply: Reply)
      requires Wired()
      modifies store`sessions, store`sessionRequestID, runtime`sessions, proxy`sessions
      ensures (State(), reply) == ExpireIfNeeded(cfg, old(State()), session, env)
    {
      if !Due(session, env.now) {
        return Reply(Some(session), None);
      }
      var lapsed := Lapsed(session, env.now);
      ghost var before := State();
      var stopError := runtime.StopSession(session.id, env.teardown);
      assert (State(), stopError) == RuntimeStop(cfg, before, session.id, env.teardown);
      var _ := proxy.ReleaseSessionProxy(session.id, false);
      var writeError := UpdateSession(lapsed, env.writeFails);
      if writeError.Some? {
        return Reply(None, writeError);
      }
      return Reply(Some(lapsed), None);
    }

    method GetBrowserSession(id: string, env: GetEnv) returns (reply: Reply)
      requires Valid()
      modifies store`sessions, store`sessionRequestID, runtime`sessions, proxy`sessions
      ensures (State(), reply) == GetSession(cfg, old(State()), id, env)
      ensures Valid() && (old(Agreed()) && !env.expire.writeFails ==> Agreed())
    {
      SessionRecords.CallKeepsSound(cfg, State(), GetCall(id, env));
      if env.readFails {
        return Fail(StoreUnavailable);
      }
      var found := store.GetSession(id);
      if found.Err? {
        return Fail(found.error);
      }
      reply := ExpireSessionIfNeeded(found.value, env.expire);
    }

    method ListBrowserSessions(size: int, token: string, env: ListEnv) returns (r: Result<Page<SessionData>, ErrorCode>)
      requires Valid()
      modifies store`sessions, store`sessionRequestID, runtime`sessions, proxy`sessions
      ensures (State(), r) == ListSessions(cfg, old(State()), size, token, env)
      ensures Valid() && (old(Agreed()) && (forall i: nat :: !env.expire(i).writeFails) ==> Agreed())
    {
      SessionRecords.CallKeepsSound(cfg, State(), ListCall(size, token, env));
      if env.readFails {
        return Err(StoreUnavailable);
      }
      var listed := store.ListSessions(size, token);
      if listed.Err? {
        return Err(listed.error);
      }
      var rows := ExpireListed(listed.value.rows, env.expire);
      if rows.Err? {
        return Err(rows.error);
      }
      return Ok(Page(rows.value, listed.value.next));
    }

    /** The loop of ListBrowserSessions, which replaces the listed rows in place. */
    method ExpireListed(listed: seq<Session>, env: nat -> ExpireEnv) returns (r: Result<seq<Session>, ErrorCode>)
      requires Wired()
      modifies store`sessions, store`sessionRequestID, runtime`sessions, proxy`sessions
      ensures (State(), r) == ExpireRows(cfg, old(State()), listed, env, 0)
    {
      var rows := listed;
      ghost var whole := ExpireRows(cfg, State(), listed, env, 0);
      assert whole.1.Ok? ==> rows[..0] + whole.1.value == whole.1.value;
      for i := 0 to |rows|
        invariant |rows| == |listed| && forall k :: i <= k < |rows| ==> rows[k] == listed[k]
        invariant var (w, rest) := ExpireRows(cfg, State(), listed, env, i);
                  w == whole.0 && whole.1 == (if rest.Err? then rest else Ok(rows[..i] + rest.value))
      {
        var current := ExpireSessionIfNeeded(rows[i], env(i));
        if current.error.Some? {
          return Err(current.error.value);
        }
        ghost var before := rows;
        rows := rows[i := current.session.value];
        ghost var rest := ExpireRows(cfg, State(), listed, env, i + 1).1;
        assert rest.Ok? ==> rows[..i + 1] + rest.value == before[..i] + ([current.session.value] + rest.value);
      }
      assert rows[..|rows|] + [] == rows;
      return Ok(rows);
    }
  }
}
