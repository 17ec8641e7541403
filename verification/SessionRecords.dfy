/**
 What a stored session row says about its own history, over every sequence of service calls, and what
 calls answer with: the row they leave behind.
 */
module SessionRecords {
  import opened Wrappers
  import opened Core
  import opened Listing
  import opened Entities
  import opened Store
  import opened SessionService
  import Agreement
  import Proxies = ProxySelection

  // ---- the shape of a row ----

  /** The times and the last error a row of each status carries. */
  predicate WellFormed(s: Session) {
    var d := s.data;
    && d.expiresAt.Some?
    && (d.lastError.Some? <==> d.status.Failed?)
    && match d.status
       case Starting => s.stamp == d.createdAt && d.startedAt == None && d.stoppedAt == None
       case Running => d.startedAt == Some(s.stamp) && d.stoppedAt == None
       case Stopping => d.stoppedAt == None
       case Failed => d.stoppedAt == None
       case Stopped => d.stoppedAt == Some(s.stamp)
       case Expired => d.stoppedAt == Some(s.stamp)
  }

  /** What a row never loses or changes: its identity, its beginning, its end of life, and its labels beside the reason of a stop. */
  ghost predicate Kept(a: Session, b: Session) {
    && b.id == a.id && b.requestId == a.requestId
    && b.data.createdAt == a.data.createdAt && b.data.kind == a.data.kind && b.data.expiresAt == a.data.expiresAt
    && (a.data.startedAt.Some? ==> b.data.startedAt == a.data.startedAt)
    && (!a.data.status.Starting? ==> b.data.proxyRef == a.data.proxyRef)
    && (forall k :: k in a.data.labels && k != "stop_reason" ==> k in b.data.labels && b.data.labels[k] == a.data.labels[k])
  }

  ghost predicate Rows(rows: map<string, Session>) {
    forall id :: id in rows ==> id != "" && rows[id].id == id && WellFormed(rows[id])
  }

  ghost predicate Evolves(before: map<string, Session>, after: map<string, Session>) {
    forall id :: id in before ==> id in after && Kept(before[id], after[id])
  }

  lemma EvolvesTransitive(a: map<string, Session>, b: map<string, Session>, c: map<string, Session>)
    requires Evolves(a, b) && Evolves(b, c)
    requires forall id :: id in a && id in b && !a[id].data.status.Starting? ==> !b[id].data.status.Starting?
    ensures Evolves(a, c)
  {
    forall id | id in a ensures id in c && Kept(a[id], c[id]) {
      assert Kept(a[id], b[id]) && Kept(b[id], c[id]);
    }
  }

  /** Writing the successor of a row keeps all rows in shape. */
  lemma WriteKeeps(w: World, s: Session, fails: bool)
    requires Rows(w.store.rows) && s.id in w.store.rows && WellFormed(s) && Kept(w.store.rows[s.id], s)
    ensures var (w', error) := Write(w, s, fails);
            && Rows(w'.store.rows) && Evolves(w.store.rows, w'.store.rows)
            && (error.None? ==> s.id in w'.store.rows && w'.store.rows[s.id] == s)
  {
  }

  // ---- each call ----

  lemma ExpireKeeps(cfg: Config, w: World, s: Session, env: ExpireEnv)
    requires Rows(w.store.rows) && s.id in w.store.rows && w.store.rows[s.id] == s
    ensures var (w', reply) := ExpireIfNeeded(cfg, w, s, env);
            && Rows(w'.store.rows) && Evolves(w.store.rows, w'.store.rows)
            && (reply.error.None? ==> reply.session.Some? && reply.session.value.id == s.id && w'.store.rows[s.id] == reply.session.value)
            && (forall id :: id in w.store.rows && id != s.id ==> id in w'.store.rows && w'.store.rows[id] == w.store.rows[id])
  {
    if Due(s, env.now) {
      WriteKeeps(Release(RuntimeStop(cfg, w, s.id, env.teardown).0, s.id), Lapsed(s, env.now), env.writeFails);
    }
  }

  /** The rows that are not among those listed from position `from` on are as they were. */
  ghost predicate OthersKept(before: map<string, Session>, after: map<string, Session>, rows: seq<Session>, from: nat) {
    forall id :: id in before && (forall i :: from <= i < |rows| ==> rows[i].id != id) ==> id in after && after[id] == before[id]
  }

  lemma {:induction false} ExpireRowsKeeps(cfg: Config, w: World, rows: seq<Session>, env: nat -> ExpireEnv, from: nat)
    requires from <= |rows| && Rows(w.store.rows) && Agreement.Fresh(w, rows, from)
    ensures var (w', out) := ExpireRows(cfg, w, rows, env, from);
            && Rows(w'.store.rows) && Evolves(w.store.rows, w'.store.rows)
            && OthersKept(w.store.rows, w'.store.rows, rows, from)
            && (out.Ok? ==> AreStored(w'.store.rows, out.value))
    decreases |rows| - from
  {
    if from < |rows| {
      ExpireKeeps(cfg, w, rows[from], env(from));
      var (w1, reply) := ExpireIfNeeded(cfg, w, rows[from], env(from));
      if reply.error.None? {
        ExpireRowsKeeps(cfg, w1, rows, env, from + 1);
        var (w2, rest) := ExpireRows(cfg, w1, rows, env, from + 1);
        ExpireRowsStep(w.store.rows, w1.store.rows, w2.store.rows, rows, from);
        if rest.Ok? {
          StoredInFront(w2.store.rows, reply.session.value, rest.value);
        }
      }
    }
  }

  /** What one turn of the loop did is not undone by the turns that follow. */
  lemma ExpireRowsStep(a: map<string, Session>, b: map<string, Session>, c: map<string, Session>, rows: seq<Session>, from: nat)
    requires from < |rows| && DistinctIds(rows) && rows[from].id in a && a[rows[from].id] == rows[from]
    requires Evolves(a, b) && forall id :: id in a && id != rows[from].id ==> b[id] == a[id]
    requires OthersKept(b, c, rows, from + 1) && Evolves(b, c)
    ensures OthersKept(a, c, rows, from)
    ensures Evolves(a, c)
    ensures rows[from].id in c && c[rows[from].id] == b[rows[from].id]
  {
    forall id | id in a ensures id in c && Kept(a[id], c[id]) {
      if id == rows[from].id {
        assert c[id] == b[id];
      } else {
        assert b[id] == a[id] && Kept(b[id], c[id]);
      }
    }
  }

  ghost predicate AreStored(rows: map<string, Session>, answer: seq<Session>) {
    forall i :: 0 <= i < |answer| ==> answer[i].id in rows && rows[answer[i].id] == answer[i]
  }

  lemma StoredInFront(rows: map<string, Session>, s: Session, answer: seq<Session>)
    requires AreStored(rows, answer) && s.id in rows && rows[s.id] == s
    ensures AreStored(rows, [s] + answer)
  {
  }

  lemma ListKeeps(cfg: Config, w: World, size: int, token: string, env: ListEnv)
    requires Rows(w.store.rows)
    ensures RowsKeyed(w.store.rows)
    ensures var (w', r) := ListSessions(cfg, w, size, token, env);
            && Rows(w'.store.rows) && Evolves(w.store.rows, w'.store.rows)
            && (r.Ok? ==> AreStored(w'.store.rows, r.value.rows))
  {
    var parsed := ParsePageToken(token);
    if !env.readFails && parsed.Ok? {
      Agreement.PageRowsStored(w.store.rows, parsed.value, NormalizePageSize(size));
      ExpireRowsKeeps(cfg, w, PageAt(ListingOf(w.store.rows.Values), parsed.value, NormalizePageSize(size)).rows, env.expire, 0);
    }
  }

  lemma FinishStopKeeps(cfg: Config, w: World, marked: Session, reason: string, env: StopEnv)
    requires Rows(w.store.rows) && marked.id in w.store.rows && w.store.rows[marked.id] == marked && marked.data.status.Stopping?
    ensures var (w', reply) := FinishStop(cfg, w, marked, reason, env);
            && Rows(w'.store.rows) && Evolves(w.store.rows, w'.store.rows)
            && (reply.error.None? ==> reply.session.Some? && reply.session.value.data.status.Stopped? &&
                                      marked.id in w'.store.rows && w'.store.rows[marked.id] == reply.session.value)
  {
    var (w1, error) := RuntimeStop(cfg, w, marked.id, env.teardown);
    WriteKeeps(Release(w1, marked.id), Halted(marked, reason, env.finishedAt), env.lastWriteFails);
    WriteKeeps(Release(w1, marked.id), Failing(marked, if error.Some? then error.value else Internal, env.finishedAt), env.lastWriteFails);
  }

  lemma StopKeeps(cfg: Config, w: World, id: string, reason: string, env: StopEnv)
    requires Rows(w.store.rows)
    ensures var w' := Stop(cfg, w, id, reason, env).0;
            Rows(w'.store.rows) && Evolves(w.store.rows, w'.store.rows)
  {
    Agreement.StopUnfolds(cfg, w, id, reason, env);
    if Agreement.StopsSomething(w, id, env) {
      var marked := Marked(w.store.rows[id], env.stoppingAt);
      WriteKeeps(w, marked, false);
      var w1 := Write(w, marked, false).0;
      FinishStopKeeps(cfg, w1, marked, reason, env);
      assert forall k :: k in w1.store.rows && k != id ==> k in w.store.rows && w1.store.rows[k] == w.store.rows[k];
      EvolvesTransitive(w.store.rows, w1.store.rows, FinishStop(cfg, w1, marked, reason, env).0.store.rows);
    }
  }

  lemma FinishStartKeeps(cfg: Config, w: World, session: Session, req: StartRequest, env: StartEnv)
    requires Rows(w.store.rows) && session.id in w.store.rows && w.store.rows[session.id] == session && session.data.status.Starting?
    ensures var (w', reply) := FinishStart(cfg, w, session, req, env);
            && Rows(w'.store.rows) && Evolves(w.store.rows, w'.store.rows)
            && (reply.error.None? ==> reply.session.Some? && reply.session.value.data.status.Running? &&
                                      session.id in w'.store.rows && w'.store.rows[session.id] == reply.session.value)
  {
    var choice := Proxies.ResolveSelection(cfg.proxy, req.selection, session.data.proxyRef, env.validProxy, env.acquired);
    if choice.Err? {
      WriteKeeps(Release(w, session.id), Failing(session, ProxyFailed, env.failedAt), env.updateFails);
    } else {
      var s := session.(data := session.data.(proxyRef := choice.value.ref));
      var w1 := if choice.value.lease.url == "" then w else w.(leases := w.leases[s.id := choice.value.lease]);
      var (w2, error) := RuntimeStart(cfg, w1, s, env.launch);
      assert w2.store == w.store;
      WriteKeeps(w2, Started(s, env), env.updateFails);
      WriteKeeps(Release(w2, s.id), Failing(s, if error.Some? then error.value else Internal, env.failedAt), env.updateFails);
    }
  }

  lemma CreateKeeps(cfg: Config, w: World, req: StartRequest, env: StartEnv)
    requires Rows(w.store.rows) && Create(w.store, NewSession(cfg, req, env)).Ok?
    ensures var rows := Create(w.store, NewSession(cfg, req, env)).value.rows;
            && Rows(rows) && Evolves(w.store.rows, rows)
            && (forall id :: id in w.store.rows ==> rows[id] == w.store.rows[id])
  {
  }

  /** A start ends where it began, perhaps with the row of an earlier one, or goes on from the row it created. */
  ghost predicate StartOutcome(cfg: Config, w: World, req: StartRequest, env: StartEnv, w': World, reply: Reply) {
    var created := Create(w.store, NewSession(cfg, req, env));
    || (w' == w && (reply.error.None? ==> Known(w, req.requestId, reply)))
    || (created.Ok? && (req.requestId == "" || req.requestId !in w.store.index) &&
        (w', reply) == FinishStart(cfg, w.(store := created.value), NewSession(cfg, req, env), req, env))
  }

  predicate Known(w: World, requestId: string, reply: Reply) {
    && requestId != "" && requestId in w.store.index
    && reply == Reply(GetByRequestID(w.store, requestId, SessionNotFound).value, None)
  }

  lemma StartUnfolds(cfg: Config, w: World, req: StartRequest, env: StartEnv)
    ensures StartOutcome(cfg, w, req, env, Start(cfg, w, req, env).0, Start(cfg, w, req, env).1)
  {
  }

  lemma StartKeeps(cfg: Config, w: World, req: StartRequest, env: StartEnv)
    requires Rows(w.store.rows)
    ensures var w' := Start(cfg, w, req, env).0;
            Rows(w'.store.rows) && Evolves(w.store.rows, w'.store.rows)
  {
    var session := NewSession(cfg, req, env);
    StartUnfolds(cfg, w, req, env);
    NothingEvolves(w.store.rows);
    if Create(w.store, session).Ok? {
      var w1 := w.(store := Create(w.store, session).value);
      CreateKeeps(cfg, w, req, env);
      FinishStartKeeps(cfg, w1, session, req, env);
      EvolvesTransitive(w.store.rows, w1.store.rows, FinishStart(cfg, w1, session, req, env).0.store.rows);
    }
  }

  lemma NothingEvolves(rows: map<string, Session>)
    ensures Evolves(rows, rows)
  {
  }

  lemma CallKeeps(cfg: Config, w: World, call: Call)
    requires Rows(w.store.rows)
    ensures RowsKeyed(w.store.rows)
    ensures var w' := Perform(cfg, w, call); Rows(w'.store.rows) && Evolves(w.store.rows, w'.store.rows)
  {
    match call
    case StartCall(req, env) => StartKeeps(cfg, w, req, env);
    case StopCall(id, reason, env) => StopKeeps(cfg, w, id, reason, env);
    case GetCall(id, env) =>
      if !env.readFails && Get(w.store, id, SessionNotFound).Ok? {
        ExpireKeeps(cfg, w, w.store.rows[id], env.expire);
      }
    case ListCall(size, token, env) => ListKeeps(cfg, w, size, token, env);
  }

  // ---- runs ----

  /** Over every run of calls, whatever fails, every stored row is well-formed. */
  lemma {:induction false} RowsOverRuns(cfg: Config, calls: seq<Call>, trace: seq<World>, n: nat)
    requires Agreement.IsRun(cfg, calls, trace) && n <= |calls|
    ensures Rows(trace[n].store.rows)
  {
    if n > 0 {
      RowsOverRuns(cfg, calls, trace, n - 1);
      CallKeeps(cfg, trace[n - 1], calls[n - 1]);
    }
  }

  lemma CallEvolves(cfg: Config, calls: seq<Call>, trace: seq<World>, n: nat)
    requires Agreement.IsRun(cfg, calls, trace) && n < |calls|
    ensures Evolves(trace[n].store.rows, trace[n + 1].store.rows)
  {
    RowsOverRuns(cfg, calls, trace, n);
    CallKeeps(cfg, trace[n], calls[n]);
  }

  /** And from any point of the run to any later one a row keeps what it may not lose. */
  lemma {:induction false} RowsEvolve(cfg: Config, calls: seq<Call>, trace: seq<World>, m: nat, n: nat)
    requires Configured(cfg) && Agreement.IsRun(cfg, calls, trace) && m <= n <= |calls|
    ensures Evolves(trace[m].store.rows, trace[n].store.rows)
  {
    if m < n {
      RowsEvolve(cfg, calls, trace, m, n - 1);
      CallEvolves(cfg, calls, trace, n - 1);
      Agreement.StatusesAdvance(cfg, calls, trace, m, n - 1);
      LeavesStarting(trace[m].store.rows, trace[n - 1].store.rows);
      EvolvesTransitive(trace[m].store.rows, trace[n - 1].store.rows, trace[n].store.rows);
    } else {
      NothingEvolves(trace[m].store.rows);
    }
  }

  lemma LeavesStarting(a: map<string, Session>, b: map<string, Session>)
    requires Agreement.Advances(a, b)
    ensures forall id :: id in a && id in b && !a[id].data.status.Starting? ==> !b[id].data.status.Starting?
  {
    forall id | id in a && id in b && !a[id].data.status.Starting? ensures !b[id].data.status.Starting? {
      assert Rank(a[id].data.status) <= Rank(b[id].data.status);
    }
  }

  // ---- what every call keeps ----

  /** Well-formed rows, a coherent index, and nothing owned by a final session. */
  ghost predicate Sound(w: World) {
    Rows(w.store.rows) && Coherent(w.store) && Agreement.Safe(w)
  }

  lemma CallKeepsSound(cfg: Config, w: World, call: Call)
    requires Configured(cfg) && Sound(w)
    ensures RowsKeyed(w.store.rows)
    ensures Sound(Perform(cfg, w, call))
    ensures Agreement.Agree(w) && Agreement.Stable(call) ==> Agreement.Agree(Perform(cfg, w, call))
  {
    CallKeeps(cfg, w, call);
    Agreement.CallCoherent(cfg, w, call);
    Agreement.CallEffect(cfg, w, call);
  }

  // ---- answers ----

  /** A start that reports no error answers with a row as it is now stored; one that was not there before is RUNNING. */
  lemma StartAnswersWithRow(cfg: Config, w: World, req: StartRequest, env: StartEnv)
    requires Rows(w.store.rows) && Coherent(w.store)
    ensures AnswersWithRow(w, req.requestId, Start(cfg, w, req, env).0, Start(cfg, w, req, env).1)
  {
    StartUnfolds(cfg, w, req, env);
    OutcomeAnswersWithRow(cfg, w, req, env, Start(cfg, w, req, env).0, Start(cfg, w, req, env).1);
  }

  ghost predicate AnswersWithRow(w: World, requestId: string, w': World, reply: Reply) {
    reply.error.None? ==>
      && reply.session.Some?
      && var s := reply.session.value;
         && s.id in w'.store.rows && w'.store.rows[s.id] == s
         && (requestId != "" ==> s.requestId == requestId)
         && (s.id !in w.store.rows ==> s.data.status.Running?)
  }

  lemma OutcomeAnswersWithRow(cfg: Config, w: World, req: StartRequest, env: StartEnv, w': World, reply: Reply)
    requires Rows(w.store.rows) && Coherent(w.store) && StartOutcome(cfg, w, req, env, w', reply)
    ensures AnswersWithRow(w, req.requestId, w', reply)
  {
    if reply.error.None? && !Known(w, req.requestId, reply) {
      var session := NewSession(cfg, req, env);
      CreateKeeps(cfg, w, req, env);
      var w1 := w.(store := Create(w.store, session).value);
      FinishStartKeeps(cfg, w1, session, req, env);
      assert Kept(session, w'.store.rows[session.id]);
    }
  }

  /** Starting again under the same request id changes nothing and answers with the row as stored, whatever became of the first start. */
  lemma RepeatedStart(cfg: Config, w: World, req: StartRequest, env: StartEnv, req': StartRequest, env': StartEnv)
    requires Rows(w.store.rows) && Coherent(w.store)
    requires req.requestId != "" && req'.requestId == req.requestId && !env'.lookupFails
    requires env.sessionId !in w.store.rows && env.sessionId in Start(cfg, w, req, env).0.store.rows
    ensures var w1 := Start(cfg, w, req, env).0;
            Start(cfg, w1, req', env') == (w1, Reply(Some(w1.store.rows[env.sessionId]), None))
  {
    var w1 := Start(cfg, w, req, env).0;
    RequestNamesRow(cfg, w, req, env);
    Agreement.CallCoherent(cfg, w, StartCall(req, env));
    assert GetByRequestID(w1.store, req.requestId, SessionNotFound) == Ok(Some(w1.store.rows[env.sessionId]));
  }

  lemma RequestNamesRow(cfg: Config, w: World, req: StartRequest, env: StartEnv)
    requires Rows(w.store.rows) && req.requestId != ""
    requires env.sessionId !in w.store.rows && env.sessionId in Start(cfg, w, req, env).0.store.rows
    ensures Start(cfg, w, req, env).0.store.rows[env.sessionId].requestId == req.requestId
  {
    var session := NewSession(cfg, req, env);
    StartUnfolds(cfg, w, req, env);
    CreateKeeps(cfg, w, req, env);
    FinishStartKeeps(cfg, w.(store := Create(w.store, session).value), session, req, env);
    assert Kept(session, Start(cfg, w, req, env).0.store.rows[session.id]);
  }

  /** A stop that reports no error has stored the session as STOPPED and answers with that row. */
  lemma StopAnswersWithRow(cfg: Config, w: World, id: string, reason: string, env: StopEnv)
    requires Rows(w.store.rows)
    ensures var (w', reply) := Stop(cfg, w, id, reason, env);
            reply.error.None? ==>
              && reply.session.Some? && reply.session.value.data.status.Stopped?
              && id in w'.store.rows && w'.store.rows[id] == reply.session.value
              && (reason != "" ==> "stop_reason" in reply.session.value.data.labels &&
                                   reply.session.value.data.labels["stop_reason"] == reason)
  {
    if Stop(cfg, w, id, reason, env).1.error.None? {
      var marked := Marked(w.store.rows[id], env.stoppingAt);
      WriteKeeps(w, marked, false);
      FinishStopKeeps(cfg, Write(w, marked, false).0, marked, reason, env);
    }
  }

  /** A session that is found is answered with as it is now stored, and never as one whose time has run out but is not final. */
  lemma GetAnswersWithRow(cfg: Config, w: World, id: string, env: GetEnv)
    requires Rows(w.store.rows)
    ensures var (w', reply) := GetSession(cfg, w, id, env);
            reply.error.None? ==>
              reply.session.Some? && id in w'.store.rows && w'.store.rows[id] == reply.session.value &&
              !Due(reply.session.value, env.expire.now)
  {
    if !env.readFails && Get(w.store, id, SessionNotFound).Ok? {
      ExpireKeeps(cfg, w, w.store.rows[id], env.expire);
    }
  }
}
