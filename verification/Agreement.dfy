/**
 Store, runtime and proxy controller stay in agreement over every sequence of service calls run one at a time.
 `Safe` and `Advances` survive failing store writes; `Agree` is the stronger statement for a store that works.
 */
module Agreement {
  import opened Wrappers
  import opened Core
  import opened Listing
  import opened Entities
  import opened Store
  import opened SessionService
  import Proxies = ProxySelection

  predicate Final(session: Session) { SessionStatusIsFinal(session.data.status) }

  /** A finally stored session owns neither a process nor a lease; nothing is owned without a row. */
  ghost predicate Safe(w: World) {
    && w.runtime.Keys <= w.store.rows.Keys
    && w.leases.Keys <= w.store.rows.Keys
    && forall id :: id in w.store.rows && Final(w.store.rows[id]) ==> id !in w.runtime && id !in w.leases
  }

  /** The RUNNING rows are the running sessions, those of them with a proxy hold the leases, and all other rows are final. */
  ghost predicate Agree(w: World) {
    forall id :: SettledAt(w, id)
  }

  ghost predicate SettledAt(w: World, id: string) {
    && (id in w.store.rows ==> w.store.rows[id].data.status.Running? || Final(w.store.rows[id]))
    && (id in w.runtime <==> id in w.store.rows && w.store.rows[id].data.status.Running?)
    && (id in w.leases <==>
        id in w.store.rows && w.store.rows[id].data.status.Running? && w.store.rows[id].data.proxyRef != "")
  }

  /** Agreement up to the session of the call in progress. */
  ghost predicate AgreeExcept(w: World, current: string) {
    forall id :: id != current ==> SettledAt(w, id)
  }

  /** Rows stay, statuses never move backwards, final rows never change. */
  ghost predicate Advances(before: map<string, Session>, after: map<string, Session>) {
    forall id :: id in before ==>
      && id in after
      && Rank(before[id].data.status) <= Rank(after[id].data.status)
      && (Final(before[id]) ==> after[id] == before[id])
  }

  lemma AdvancesTransitive(a: map<string, Session>, b: map<string, Session>, c: map<string, Session>)
    requires Advances(a, b) && Advances(b, c)
    ensures Advances(a, c)
  {
  }

  // ---- the two ways a call settles its session ----

  /** Everything the session owns is given up and, unless the write fails, its row becomes final. */
  lemma SettleFinal(w: World, w': World, id: string, s: Session, wrote: bool)
    requires Safe(w) && id in w.store.rows && !Final(w.store.rows[id])
    requires w'.runtime == w.runtime - {id} && w'.leases == w.leases - {id}
    requires w'.store.rows == if wrote then w.store.rows[id := s] else w.store.rows
    requires wrote ==> Final(s)
    ensures Safe(w') && Advances(w.store.rows, w'.store.rows)
    ensures AgreeExcept(w, id) && wrote ==> Agree(w')
  {
    forall k | AgreeExcept(w, id) && wrote ensures SettledAt(w', k) {
      assert k != id ==> SettledAt(w, k);
    }
  }

  /** The session runs and, unless the write fails, its row says so. */
  lemma SettleRunning(w: World, w2: World, w': World, s: Session, wrote: bool)
    requires Safe(w) && SameElsewhere(w, w2, s.id)
    requires s.id in w.store.rows && w.store.rows[s.id].data.status.Starting? && s.data.status.Running?
    requires s.id in w2.runtime && (s.id in w2.leases <==> s.data.proxyRef != "")
    requires w'.runtime == w2.runtime && w'.leases == w2.leases
    requires w'.store.rows == if wrote then w.store.rows[s.id := s] else w.store.rows
    ensures Safe(w') && Advances(w.store.rows, w'.store.rows)
    ensures AgreeExcept(w, s.id) && wrote ==> Agree(w')
  {
    forall k | AgreeExcept(w, s.id) && wrote ensures SettledAt(w', k) {
      assert k != s.id ==> SettledAt(w, k);
    }
  }

  lemma WriteEffect(w: World, session: Session, fails: bool)
    requires session.id != "" && session.id in w.store.rows
    ensures var (w', error) := Write(w, session, fails);
            && w'.runtime == w.runtime && w'.leases == w.leases
            && (error.None? <==> !fails)
            && w'.store.rows == if fails then w.store.rows else w.store.rows[session.id := session]
  {
  }

  // ---- expiry ----

  lemma ExpireEffect(cfg: Config, w: World, session: Session, env: ExpireEnv)
    requires Safe(w) && session.id != "" && session.id in w.store.rows && w.store.rows[session.id] == session
    ensures var (w', reply) := ExpireIfNeeded(cfg, w, session, env);
            && Safe(w') && Advances(w.store.rows, w'.store.rows)
            && (Agree(w) && !env.writeFails ==> Agree(w'))
            && (forall id :: id in w.store.rows && id != session.id ==> id in w'.store.rows && w'.store.rows[id] == w.store.rows[id])
  {
    if Due(session, env.now) {
      var w1 := Release(RuntimeStop(cfg, w, session.id, env.teardown).0, session.id);
      WriteEffect(w1, Lapsed(session, env.now), env.writeFails);
      SettleFinal(w, ExpireIfNeeded(cfg, w, session, env).0, session.id, Lapsed(session, env.now), !env.writeFails);
    }
  }

  /** Listed rows are the stored rows until the loop reaches them. */
  ghost predicate Fresh(w: World, rows: seq<Session>, from: nat) {
    && DistinctIds(rows)
    && forall i :: from <= i < |rows| ==> rows[i].id != "" && rows[i].id in w.store.rows && w.store.rows[rows[i].id] == rows[i]
  }

  lemma {:induction false} ExpireRowsEffect(cfg: Config, w: World, rows: seq<Session>, env: nat -> ExpireEnv, from: nat)
    requires from <= |rows| && Safe(w) && Fresh(w, rows, from)
    ensures var w' := ExpireRows(cfg, w, rows, env, from).0;
            && Safe(w') && Advances(w.store.rows, w'.store.rows)
            && (Agree(w) && (forall i: nat :: !env(i).writeFails) ==> Agree(w'))
    decreases |rows| - from
  {
    if from < |rows| {
      ExpireEffect(cfg, w, rows[from], env(from));
      var (w1, reply) := ExpireIfNeeded(cfg, w, rows[from], env(from));
      if reply.error.None? && reply.session.Some? {
        ExpireRowsEffect(cfg, w1, rows, env, from + 1);
        AdvancesTransitive(w.store.rows, w1.store.rows, ExpireRows(cfg, w, rows, env, from).0.store.rows);
      }
    }
  }

  lemma PageRowsStored(rows: map<string, Session>, offset: nat, size: nat)
    requires RowsKeyed(rows)
    ensures var page := PageAt(ListingOf(rows.Values), offset, size).rows;
            && DistinctIds(page)
            && forall i :: 0 <= i < |page| ==> page[i].id != "" && page[i].id in rows && rows[page[i].id] == page[i]
  {
    var all := ListingOf(rows.Values);
    forall i | 0 <= i < |all| ensures all[i].id in rows && rows[all[i].id] == all[i] {
      assert all[i] in Elements(all);
    }
  }

  lemma ListEffect(cfg: Config, w: World, size: int, token: string, env: ListEnv)
    requires RowsKeyed(w.store.rows) && Safe(w)
    ensures var w' := ListSessions(cfg, w, size, token, env).0;
            && Safe(w') && Advances(w.store.rows, w'.store.rows)
            && (Agree(w) && (forall i: nat :: !env.expire(i).writeFails) ==> Agree(w'))
  {
    var parsed := ParsePageToken(token);
    if !env.readFails && parsed.Ok? {
      PageRowsStored(w.store.rows, parsed.value, NormalizePageSize(size));
      ExpireRowsEffect(cfg, w, PageAt(ListingOf(w.store.rows.Values), parsed.value, NormalizePageSize(size)).rows, env.expire, 0);
    }
  }

  /** While a call works on one session only that row may be unsettled. */
  lemma RowInProgress(w: World, w': World, current: string)
    requires w'.runtime == w.runtime && w'.leases == w.leases
    requires forall id :: id != current ==> (id in w'.store.rows <==> id in w.store.rows)
    requires forall id :: id != current && id in w.store.rows ==> w'.store.rows[id] == w.store.rows[id]
    ensures Agree(w) ==> AgreeExcept(w', current)
  {
    forall k | Agree(w) && k != current ensures SettledAt(w', k) {
      assert SettledAt(w, k);
    }
  }

  // ---- stop ----

  lemma FinishStopEffect(cfg: Config, w: World, marked: Session, reason: string, env: StopEnv)
    requires Safe(w) && marked.id != "" && marked.id in w.store.rows && w.store.rows[marked.id] == marked && marked.data.status.Stopping?
    ensures var w' := FinishStop(cfg, w, marked, reason, env).0;
            && Safe(w') && Advances(w.store.rows, w'.store.rows)
            && (AgreeExcept(w, marked.id) && !env.lastWriteFails ==> Agree(w'))
  {
    var (w1, error) := RuntimeStop(cfg, w, marked.id, env.teardown);
    var last := if error.Some? then Failing(marked, error.value, env.finishedAt) else Halted(marked, reason, env.finishedAt);
    WriteEffect(Release(w1, marked.id), last, env.lastWriteFails);
    SettleFinal(w, FinishStop(cfg, w, marked, reason, env).0, marked.id, last, !env.lastWriteFails);
  }

  lemma MarkEffect(w: World, id: string, at: int)
    requires RowsKeyed(w.store.rows) && Safe(w) && id in w.store.rows && !Final(w.store.rows[id])
    ensures var marked := Marked(w.store.rows[id], at); var w1 := Write(w, marked, false).0;
            && marked.id == id && w1.store.rows == w.store.rows[id := marked]
            && Safe(w1) && Advances(w.store.rows, w1.store.rows) && (Agree(w) ==> AgreeExcept(w1, id))
  {
    var marked := Marked(w.store.rows[id], at);
    WriteEffect(w, marked, false);
    RowInProgress(w, Write(w, marked, false).0, id);
  }

  /** A stop that gets as far as its first write. */
  predicate StopsSomething(w: World, id: string, env: StopEnv) {
    !env.readFails && id != "" && id in w.store.rows && !Final(w.store.rows[id]) && !env.firstWriteFails
  }

  lemma StopUnfolds(cfg: Config, w: World, id: string, reason: string, env: StopEnv)
    requires RowsKeyed(w.store.rows)
    ensures Stop(cfg, w, id, reason, env).0 ==
            if StopsSomething(w, id, env) then
              var marked := Marked(w.store.rows[id], env.stoppingAt);
              FinishStop(cfg, Write(w, marked, false).0, marked, reason, env).0
            else w
  {
  }

  lemma StopEffect(cfg: Config, w: World, id: string, reason: string, env: StopEnv)
    requires RowsKeyed(w.store.rows) && Safe(w)
    ensures var w' := Stop(cfg, w, id, reason, env).0;
            && Safe(w') && Advances(w.store.rows, w'.store.rows)
            && (Agree(w) && !env.firstWriteFails && !env.lastWriteFails ==> Agree(w'))
  {
    StopUnfolds(cfg, w, id, reason, env);
    if StopsSomething(w, id, env) {
      var marked := Marked(w.store.rows[id], env.stoppingAt);
      var w1 := Write(w, marked, false).0;
      MarkEffect(w, id, env.stoppingAt);
      FinishStopEffect(cfg, w1, marked, reason, env);
      AdvancesTransitive(w.store.rows, w1.store.rows, FinishStop(cfg, w1, marked, reason, env).0.store.rows);
    }
  }

  // ---- start ----

  lemma FailStartEffect(w: World, session: Session, code: ErrorCode, env: StartEnv)
    requires Safe(w) && session.id != "" && session.id in w.store.rows && w.store.rows[session.id].data.status.Starting?
    requires session.id !in w.runtime
    ensures var w' := FailStart(w, session, code, env).0;
            && Safe(w') && Advances(w.store.rows, w'.store.rows)
            && (AgreeExcept(w, session.id) && !env.updateFails ==> Agree(w'))
  {
    WriteEffect(Release(w, session.id), Failing(session, code, env.failedAt), env.updateFails);
    SettleFinal(w, FailStart(w, session, code, env).0, session.id, Failing(session, code, env.failedAt), !env.updateFails);
  }

  /** The new row is stored and nothing is owned for it yet. */
  ghost predicate Admitted(w: World, session: Session) {
    && session.id != "" && session.id in w.store.rows && w.store.rows[session.id].data.status.Starting?
    && session.id !in w.runtime && session.id !in w.leases
  }

  lemma FinishStartEffect(cfg: Config, w: World, session: Session, req: StartRequest, env: StartEnv)
    requires Configured(cfg) && Safe(w) && Admitted(w, session)
    ensures var w' := FinishStart(cfg, w, session, req, env).0;
            && Safe(w') && Advances(w.store.rows, w'.store.rows)
            && (AgreeExcept(w, session.id) && !env.updateFails ==> Agree(w'))
  {
    var choice := Proxies.ResolveSelection(cfg.proxy, req.selection, session.data.proxyRef, env.validProxy, env.acquired);
    Proxies.RefTellsProxy(cfg.proxy, req.selection, session.data.proxyRef, env.validProxy, env.acquired);
    if choice.Err? {
      FailStartEffect(w, session, ProxyFailed, env);
    } else {
      var s := session.(data := session.data.(proxyRef := choice.value.ref));
      var w1 := if choice.value.lease.url == "" then w else w.(leases := w.leases[s.id := choice.value.lease]);
      RuntimeStartEffect(cfg, w, w1, s, env.launch);
      var (w2, error) := RuntimeStart(cfg, w1, s, env.launch);
      if error.Some? {
        if AgreeExcept(w, s.id) {
          SameElsewhereAgrees(w, w2, s.id);
        }
        FailStartEffect(w2, s, error.value, env);
      } else {
        WriteEffect(w2, Started(s, env), env.updateFails);
        SettleRunning(w, w2, Write(w2, Started(s, env), env.updateFails).0, Started(s, env), !env.updateFails);
      }
    }
  }

  /** The call in progress touched the ownership of no other session. */
  ghost predicate SameElsewhere(w: World, w': World, current: string) {
    && w'.store == w.store
    && w'.runtime.Keys <= w.store.rows.Keys && w'.leases.Keys <= w.store.rows.Keys
    && forall k :: k != current ==> (k in w'.runtime <==> k in w.runtime) && (k in w'.leases <==> k in w.leases)
  }

  lemma SameElsewhereAgrees(w: World, w': World, current: string)
    requires SameElsewhere(w, w', current) && AgreeExcept(w, current)
    ensures AgreeExcept(w', current)
  {
    forall k | k != current ensures SettledAt(w', k) {
      assert SettledAt(w, k);
    }
  }

  lemma RuntimeStartEffect(cfg: Config, w: World, w1: World, s: Session, launch: Launch)
    requires SameElsewhere(w, w1, s.id) && w1.runtime == w.runtime && s.id !in w.runtime && s.id in w.store.rows
    ensures var (w2, error) := RuntimeStart(cfg, w1, s, launch);
            && SameElsewhere(w, w2, s.id)
            && (error.None? ==> w2.leases == w1.leases && w2.runtime.Keys == w.runtime.Keys + {s.id})
            && (error.Some? ==> w2.runtime == w.runtime)
  {
  }

  lemma StartEffect(cfg: Config, w: World, req: StartRequest, env: StartEnv)
    requires Configured(cfg) && Safe(w)
    ensures var w' := Start(cfg, w, req, env).0;
            && Safe(w') && Advances(w.store.rows, w'.store.rows)
            && (Agree(w) && !env.updateFails ==> Agree(w'))
  {
    var session := NewSession(cfg, req, env);
    if Create(w.store, session).Ok? {
      var w1 := w.(store := Create(w.store, session).value);
      RowInProgress(w, w1, session.id);
      FinishStartEffect(cfg, w1, session, req, env);
      AdvancesTransitive(w.store.rows, w1.store.rows, FinishStart(cfg, w1, session, req, env).0.store.rows);
    }
  }

  // ---- the request-id index ----

  /** The session was read from its row, or is the row just created. */
  predicate SameRequest(w: World, session: Session) {
    session.id in w.store.rows ==> w.store.rows[session.id].requestId == session.requestId
  }

  lemma WriteCoherent(w: World, session: Session, fails: bool)
    requires Coherent(w.store) && SameRequest(w, session)
    ensures Coherent(Write(w, session, fails).0.store)
    ensures forall s :: SameRequest(w, s) ==> SameRequest(Write(w, session, fails).0, s)
  {
    if Write(w, session, fails).1.None? {
      UpdateCoherentIff(w.store, session, SessionNotFound);
    }
  }

  lemma {:induction false} ExpireRowsCoherent(cfg: Config, w: World, rows: seq<Session>, env: nat -> ExpireEnv, from: nat)
    requires from <= |rows| && Coherent(w.store) && forall i :: from <= i < |rows| ==> SameRequest(w, rows[i])
    ensures Coherent(ExpireRows(cfg, w, rows, env, from).0.store)
    decreases |rows| - from
  {
    if from < |rows| {
      ExpireCoherent(cfg, w, rows[from], env(from));
      var (w1, reply) := ExpireIfNeeded(cfg, w, rows[from], env(from));
      if reply.error.None? && reply.session.Some? {
        ExpireRowsCoherent(cfg, w1, rows, env, from + 1);
      }
    }
  }

  lemma ExpireCoherent(cfg: Config, w: World, session: Session, env: ExpireEnv)
    requires Coherent(w.store) && SameRequest(w, session)
    ensures Coherent(ExpireIfNeeded(cfg, w, session, env).0.store)
    ensures forall s :: SameRequest(w, s) ==> SameRequest(ExpireIfNeeded(cfg, w, session, env).0, s)
  {
    WriteCoherent(Release(RuntimeStop(cfg, w, session.id, env.teardown).0, session.id), Lapsed(session, env.now), env.writeFails);
  }

  lemma StopCoherent(cfg: Config, w: World, id: string, reason: string, env: StopEnv)
    requires Coherent(w.store)
    ensures Coherent(Stop(cfg, w, id, reason, env).0.store)
  {
    if !env.readFails && Get(w.store, id, SessionNotFound).Ok? {
      var marked := Marked(w.store.rows[id], env.stoppingAt);
      WriteCoherent(w, marked, env.firstWriteFails);
      var w1 := Write(w, marked, env.firstWriteFails).0;
      var (w2, error) := RuntimeStop(cfg, w1, id, env.teardown);
      WriteCoherent(Release(w2, id), Halted(marked, reason, env.finishedAt), env.lastWriteFails);
      WriteCoherent(Release(w2, id), Failing(marked, if error.Some? then error.value else Internal, env.finishedAt), env.lastWriteFails);
    }
  }

  lemma FinishStartCoherent(cfg: Config, w: World, session: Session, req: StartRequest, env: StartEnv)
    requires Coherent(w.store) && SameRequest(w, session)
    ensures Coherent(FinishStart(cfg, w, session, req, env).0.store)
  {
    var choice := Proxies.ResolveSelection(cfg.proxy, req.selection, session.data.proxyRef, env.validProxy, env.acquired);
    if choice.Err? {
      WriteCoherent(Release(w, session.id), Failing(session, ProxyFailed, env.failedAt), env.updateFails);
    } else {
      var s := session.(data := session.data.(proxyRef := choice.value.ref));
      var w1 := if choice.value.lease.url == "" then w else w.(leases := w.leases[s.id := choice.value.lease]);
      var (w2, error) := RuntimeStart(cfg, w1, s, env.launch);
      assert w2.store == w.store;
      WriteCoherent(w2, Started(s, env), env.updateFails);
      WriteCoherent(Release(w2, s.id), Failing(s, if error.Some? then error.value else Internal, env.failedAt), env.updateFails);
    }
  }

  lemma CallCoherent(cfg: Config, w: World, call: Call)
    requires Coherent(w.store)
    ensures Coherent(Perform(cfg, w, call).store)
  {
    match call
    case StartCall(req, env) =>
      var session := NewSession(cfg, req, env);
      if Create(w.store, session).Ok? {
        CreateCoherent(w.store, session);
        FinishStartCoherent(cfg, w.(store := Create(w.store, session).value), session, req, env);
      }
    case StopCall(id, reason, env) => StopCoherent(cfg, w, id, reason, env);
    case GetCall(id, env) =>
      if !env.readFails && Get(w.store, id, SessionNotFound).Ok? {
        ExpireCoherent(cfg, w, w.store.rows[id], env.expire);
      }
    case ListCall(size, token, env) =>
      var parsed := ParsePageToken(token);
      if !env.readFails && parsed.Ok? {
        PageRowsStored(w.store.rows, parsed.value, NormalizePageSize(size));
        ExpireRowsCoherent(cfg, w, PageAt(ListingOf(w.store.rows.Values), parsed.value, NormalizePageSize(size)).rows, env.expire, 0);
      }
  }

  // ---- runs ----

  /** No write to the store fails after the row of a new session was created. */
  ghost predicate Stable(call: Call) {
    match call
    case StartCall(_, env) => !env.updateFails
    case StopCall(_, _, env) => !env.firstWriteFails && !env.lastWriteFails
    case GetCall(_, env) => !env.expire.writeFails
    case ListCall(_, _, env) => forall i: nat :: !env.expire(i).writeFails
  }

  lemma CallEffect(cfg: Config, w: World, call: Call)
    requires Configured(cfg) && RowsKeyed(w.store.rows) && Safe(w)
    ensures var w' := Perform(cfg, w, call);
            && Safe(w') && Advances(w.store.rows, w'.store.rows)
            && (Agree(w) && Stable(call) ==> Agree(w'))
  {
    match call
    case StartCall(req, env) => StartEffect(cfg, w, req, env);
    case StopCall(id, reason, env) => StopEffect(cfg, w, id, reason, env);
    case GetCall(id, env) =>
      if !env.readFails && Get(w.store, id, SessionNotFound).Ok? {
        ExpireEffect(cfg, w, w.store.rows[id], env.expire);
      }
    case ListCall(size, token, env) => ListEffect(cfg, w, size, token, env);
  }

  /** `trace` holds the state before each call and the state after the last one. */
  ghost predicate IsRun(cfg: Config, calls: seq<Call>, trace: seq<World>) {
    && |trace| == |calls| + 1 && trace[0] == EMPTY
    && forall i :: 0 <= i < |calls| && RowsKeyed(trace[i].store.rows) ==> trace[i + 1] == Perform(cfg, trace[i], calls[i])
  }

  /** Agreement at every call boundary, and the weaker safety when writes may fail. */
  lemma {:induction false} AgreementAtBoundaries(cfg: Config, calls: seq<Call>, trace: seq<World>, n: nat)
    requires Configured(cfg) && IsRun(cfg, calls, trace) && n <= |calls|
    ensures Safe(trace[n]) && Coherent(trace[n].store)
    ensures (forall i :: 0 <= i < n ==> Stable(calls[i])) ==> Agree(trace[n])
  {
    if n > 0 {
      AgreementAtBoundaries(cfg, calls, trace, n - 1);
      CallEffect(cfg, trace[n - 1], calls[n - 1]);
      CallCoherent(cfg, trace[n - 1], calls[n - 1]);
    }
  }

  /** Over the whole run, failed writes included, statuses only advance and final rows are frozen. */
  lemma {:induction false} StatusesAdvance(cfg: Config, calls: seq<Call>, trace: seq<World>, m: nat, n: nat)
    requires Configured(cfg) && IsRun(cfg, calls, trace) && m <= n <= |calls|
    ensures Advances(trace[m].store.rows, trace[n].store.rows)
  {
    if m < n {
      StatusesAdvance(cfg, calls, trace, m, n - 1);
      AgreementAtBoundaries(cfg, calls, trace, n - 1);
      CallEffect(cfg, trace[n - 1], calls[n - 1]);
      AdvancesTransitive(trace[m].store.rows, trace[n - 1].store.rows, trace[n].store.rows);
    }
  }
}
