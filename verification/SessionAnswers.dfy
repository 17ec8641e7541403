/**
 What each session call stores and answers (`internal/app/session_service.go`), said of the request, the
 stored row, the clock and the failures alone: no function of module SessionService appears but the call
 itself.  Calls run one at a time.
 */
module SessionAnswers {
  import opened Wrappers
  import opened Core
  import opened Listing
  import opened Entities
  import opened Store
  import opened SessionService
  import Agreement
  import Proxies = ProxySelection

  predicate Over(status: SessionStatus) { status == Stopped || status == Failed || status == Expired }

  // ---- reading: the end of a session's time ----

  /** The session's time has run out and nobody has ended it. */
  predicate Overdue(s: Session, now: int) {
    s.data.expiresAt.Some? && now > s.data.expiresAt.value && !Over(s.data.status)
  }

  /** The row of a session whose end was noticed at `now`. */
  function Ended(s: Session, now: int): Session {
    Record(s.id, s.requestId, now,
           SessionData(Expired, s.data.kind, s.data.proxyRef, s.data.createdAt, s.data.startedAt, Some(now),
                       s.data.expiresAt, s.data.lastError, s.data.labels))
  }

  /**
   The row is answered with as it is until its time has run out.  After that the session gives up browser and
   lease, and is stored and answered with as EXPIRED, or if that write fails neither.
   */
  ghost predicate ReadsRow(w: World, s: Session, env: ExpireEnv, w': World, reply: Reply) {
    if !Overdue(s, env.now) then w' == w && reply == Reply(Some(s), None)
    else
      && w'.runtime == w.runtime - {s.id} && w'.leases == w.leases - {s.id}
      && if env.writeFails then w'.store == w.store && reply == Reply(None, Some(StoreUnavailable))
         else w'.store.rows == w.store.rows[s.id := Ended(s, env.now)] && reply == Reply(Some(Ended(s, env.now)), None)
  }

  lemma RowIsRead(cfg: Config, w: World, s: Session, env: ExpireEnv)
    requires s.id != "" && s.id in w.store.rows
    ensures ReadsRow(w, s, env, ExpireIfNeeded(cfg, w, s, env).0, ExpireIfNeeded(cfg, w, s, env).1)
  {
  }

  /** A failed call that changed nothing. */
  predicate Refused(w: World, w': World, reply: Reply, code: ErrorCode) {
    w' == w && reply == Reply(None, Some(code))
  }

  lemma ReadAnswers(cfg: Config, w: World, id: string, env: GetEnv)
    requires RowsKeyed(w.store.rows)
    ensures var (w', reply) := GetSession(cfg, w, id, env);
            if env.readFails then Refused(w, w', reply, StoreUnavailable)
            else if id == "" then Refused(w, w', reply, ValidationFailed)
            else if id !in w.store.rows then Refused(w, w', reply, SessionNotFound)
            else ReadsRow(w, w.store.rows[id], env.expire, w', reply)
  {
    if !env.readFails && id in w.store.rows {
      RowIsRead(cfg, w, w.store.rows[id], env.expire);
    }
  }

  /** The session is stored RUNNING and its time has not run out. */
  predicate ReadAsRunning(w: World, id: string, env: GetEnv) {
    && !env.readFails && id != "" && id in w.store.rows && w.store.rows[id].data.status == Running
    && (w.store.rows[id].data.expiresAt.Some? ==> env.expire.now <= w.store.rows[id].data.expiresAt.value)
  }

  /** Why a call that needs a RUNNING session is not served; None if it is. */
  function NotRunning(w: World, id: string, env: GetEnv): Option<ErrorCode> {
    if env.readFails then Some(StoreUnavailable)
    else if id == "" then Some(ValidationFailed)
    else if id !in w.store.rows then Some(SessionNotFound)
    else if Overdue(w.store.rows[id], env.expire.now) then Some(if env.expire.writeFails then StoreUnavailable else SessionFinalized)
    else if w.store.rows[id].data.status != Running then Some(SessionFinalized)
    else None
  }

  lemma RunningIff(w: World, id: string, env: GetEnv)
    ensures NotRunning(w, id, env).None? <==> ReadAsRunning(w, id, env)
  {
  }

  // ---- listing ----

  /** Listed row i once its turn has come. */
  function Shown(rows: seq<Session>, env: nat -> ExpireEnv, i: nat): Session
    requires i < |rows|
  {
    if Overdue(rows[i], env(i).now) then Ended(rows[i], env(i).now) else rows[i]
  }

  /** The ids of the rows from position `from` on whose time has run out when their turn comes. */
  ghost function OverdueIds(rows: seq<Session>, env: nat -> ExpireEnv, from: nat): set<string> {
    set i: nat | from <= i < |rows| && Overdue(rows[i], env(i).now) :: rows[i].id
  }

  /** No write the listing needs fails. */
  ghost predicate Writable(rows: seq<Session>, env: nat -> ExpireEnv, from: nat) {
    forall i: nat :: from <= i < |rows| && Overdue(rows[i], env(i).now) ==> !env(i).writeFails
  }

  ghost predicate ShowsFrom(rows: seq<Session>, env: nat -> ExpireEnv, from: nat, answer: seq<Session>) {
    |answer| == |rows| - from && forall i: nat :: from <= i < |rows| ==> answer[i - from] == Shown(rows, env, i)
  }

  /** The rows from position `from` on are stored as they are shown, all others as they were. */
  ghost predicate StoredFrom(before: map<string, Session>, after: map<string, Session>, rows: seq<Session>, env: nat -> ExpireEnv, from: nat) {
    && after.Keys == before.Keys
    && (forall i: nat :: from <= i < |rows| ==> rows[i].id in after && after[rows[i].id] == Shown(rows, env, i))
    && (forall id :: id in before && (forall i: nat :: from <= i < |rows| ==> rows[i].id != id) ==> after[id] == before[id])
  }

  ghost predicate RowsAreShown(w: World, rows: seq<Session>, env: nat -> ExpireEnv, from: nat, w': World, out: Result<seq<Session>, ErrorCode>) {
    if Writable(rows, env, from) then
      && out.Ok? && ShowsFrom(rows, env, from, out.value)
      && StoredFrom(w.store.rows, w'.store.rows, rows, env, from)
      && w'.runtime == w.runtime - OverdueIds(rows, env, from)
      && w'.leases == w.leases - OverdueIds(rows, env, from)
    else out == Err(StoreUnavailable) && exists k: nat :: BreaksOffAt(w, rows, env, from, k, w')
  }

  /** The write for row k fails: it loses its browser and its lease, and the rows before it are stored as they would have been shown. */
  ghost predicate BreaksOffAt(w: World, rows: seq<Session>, env: nat -> ExpireEnv, from: nat, k: nat, w': World) {
    && from <= k < |rows| && Overdue(rows[k], env(k).now) && env(k).writeFails && Writable(rows[..k], env, from)
    && StoredFrom(w.store.rows, w'.store.rows, rows[..k], env, from)
    && w'.runtime == w.runtime - OverdueIds(rows[..k + 1], env, from)
    && w'.leases == w.leases - OverdueIds(rows[..k + 1], env, from)
  }

  lemma {:induction false} TurnsShow(cfg: Config, w: World, rows: seq<Session>, env: nat -> ExpireEnv, from: nat)
    requires from <= |rows| && Agreement.Fresh(w, rows, from)
    ensures RowsAreShown(w, rows, env, from, ExpireRows(cfg, w, rows, env, from).0, ExpireRows(cfg, w, rows, env, from).1)
    decreases |rows| - from
  {
    if from == |rows| {
      assert OverdueIds(rows, env, from) == {};
    } else {
      var (w1, reply) := ExpireIfNeeded(cfg, w, rows[from], env(from));
      RowIsRead(cfg, w, rows[from], env(from));
      if reply.error.None? {
        assert reply.session == Some(Shown(rows, env, from));
        StillFresh(w, w1, rows, env, from);
        TurnsShow(cfg, w1, rows, env, from + 1);
        var (w2, rest) := ExpireRows(cfg, w1, rows, env, from + 1);
        TurnAndRest(w, w1, w2, rows, env, from, rest);
      } else {
        BreaksOffHere(w, w1, rows, env, from);
      }
    }
  }

  lemma BreaksOffHere(w: World, w1: World, rows: seq<Session>, env: nat -> ExpireEnv, from: nat)
    requires from < |rows| && Overdue(rows[from], env(from).now) && env(from).writeFails && w1.store == w.store
    requires w1.runtime == w.runtime - {rows[from].id} && w1.leases == w.leases - {rows[from].id}
    ensures BreaksOffAt(w, rows, env, from, from, w1) && !Writable(rows, env, from)
  {
    assert OverdueIds(rows[..from + 1], env, from) == {rows[from].id} by {
      OverdueSplit(rows[..from + 1], env, from);
    }
  }

  /** What one turn does to the rows and to the maps. */
  ghost predicate Turned(w: World, w1: World, rows: seq<Session>, env: nat -> ExpireEnv, from: nat)
    requires from < |rows|
  {
    && w1.store.rows == w.store.rows[rows[from].id := Shown(rows, env, from)]
    && w1.runtime == (if Overdue(rows[from], env(from).now) then w.runtime - {rows[from].id} else w.runtime)
    && w1.leases == (if Overdue(rows[from], env(from).now) then w.leases - {rows[from].id} else w.leases)
  }

  lemma StillFresh(w: World, w1: World, rows: seq<Session>, env: nat -> ExpireEnv, from: nat)
    requires from < |rows| && Agreement.Fresh(w, rows, from)
    requires ReadsRow(w, rows[from], env(from), w1, Reply(Some(Shown(rows, env, from)), None))
    ensures Agreement.Fresh(w1, rows, from + 1) && Turned(w, w1, rows, env, from)
    ensures Overdue(rows[from], env(from).now) ==> !env(from).writeFails
  {
    assert w.store.rows[rows[from].id := rows[from]] == w.store.rows;
  }

  lemma TurnAndRest(w: World, w1: World, w2: World, rows: seq<Session>, env: nat -> ExpireEnv, from: nat, rest: Result<seq<Session>, ErrorCode>)
    requires from < |rows| && DistinctIds(rows) && rows[from].id in w.store.rows && Turned(w, w1, rows, env, from)
    requires Overdue(rows[from], env(from).now) ==> !env(from).writeFails
    requires RowsAreShown(w1, rows, env, from + 1, w2, rest)
    ensures RowsAreShown(w, rows, env, from, w2, if rest.Err? then rest else Ok([Shown(rows, env, from)] + rest.value))
  {
    OverdueSplit(rows, env, from);
    if Writable(rows, env, from) {
      TurnAndRestStored(w, w1, w2, rows, env, from);
      TurnAndRestShown(rows, env, from, rest.value);
      TurnAndRestOwned(w, w1, w2, rows, env, from);
    } else {
      var k: nat :| BreaksOffAt(w1, rows, env, from + 1, k, w2);
      TurnAndBreakOff(w, w1, w2, rows, env, from, k);
    }
  }

  lemma TurnAndBreakOff(w: World, w1: World, w2: World, rows: seq<Session>, env: nat -> ExpireEnv, from: nat, k: nat)
    requires from < |rows| && DistinctIds(rows) && rows[from].id in w.store.rows && Turned(w, w1, rows, env, from)
    requires Overdue(rows[from], env(from).now) ==> !env(from).writeFails
    requires BreaksOffAt(w1, rows, env, from + 1, k, w2)
    ensures BreaksOffAt(w, rows, env, from, k, w2)
  {
    OverdueSplit(rows[..k], env, from);
    TurnedAlike(w, w1, rows, env, from, k);
    TurnAndRestStored(w, w1, w2, rows[..k], env, from);
    TurnedAlike(w, w1, rows, env, from, k + 1);
    TurnAndRestOwned(w, w1, w2, rows[..k + 1], env, from);
  }

  lemma TurnedAlike(w: World, w1: World, rows: seq<Session>, env: nat -> ExpireEnv, from: nat, n: nat)
    requires from < n <= |rows| && Turned(w, w1, rows, env, from)
    ensures Turned(w, w1, rows[..n], env, from)
  {
  }

  lemma TurnAndRestShown(rows: seq<Session>, env: nat -> ExpireEnv, from: nat, rest: seq<Session>)
    requires from < |rows| && ShowsFrom(rows, env, from + 1, rest)
    ensures ShowsFrom(rows, env, from, [Shown(rows, env, from)] + rest)
  {
  }

  lemma TurnAndRestOwned(w: World, w1: World, w2: World, rows: seq<Session>, env: nat -> ExpireEnv, from: nat)
    requires from < |rows| && Turned(w, w1, rows, env, from)
    requires w2.runtime == w1.runtime - OverdueIds(rows, env, from + 1) && w2.leases == w1.leases - OverdueIds(rows, env, from + 1)
    ensures w2.runtime == w.runtime - OverdueIds(rows, env, from) && w2.leases == w.leases - OverdueIds(rows, env, from)
  {
    OverdueSplit(rows, env, from);
  }

  lemma OverdueSplit(rows: seq<Session>, env: nat -> ExpireEnv, from: nat)
    requires from < |rows|
    ensures OverdueIds(rows, env, from) ==
            (if Overdue(rows[from], env(from).now) then {rows[from].id} else {}) + OverdueIds(rows, env, from + 1)
    ensures (Overdue(rows[from], env(from).now) ==> !env(from).writeFails) ==>
              (Writable(rows, env, from) <==> Writable(rows, env, from + 1))
  {
  }

  lemma TurnAndRestStored(w: World, w1: World, w2: World, rows: seq<Session>, env: nat -> ExpireEnv, from: nat)
    requires from < |rows| && DistinctIds(rows) && rows[from].id in w.store.rows && Turned(w, w1, rows, env, from)
    requires StoredFrom(w1.store.rows, w2.store.rows, rows, env, from + 1)
    ensures StoredFrom(w.store.rows, w2.store.rows, rows, env, from)
  {
    var id := rows[from].id;
    assert forall i: nat :: from + 1 <= i < |rows| ==> rows[i].id != id;
    assert w2.store.rows[id] == w1.store.rows[id] == Shown(rows, env, from);
  }

  /**
   A listing answers with the rows of its page, those as EXPIRED whose time has run out when their turn comes;
   these it stores so, and takes their browsers and leases.  It fails if the token cannot be read or if one of
   the writes it needs fails.
   */
  lemma ListAnswers(cfg: Config, w: World, size: int, token: string, env: ListEnv)
    requires RowsKeyed(w.store.rows)
    ensures var (w', r) := ListSessions(cfg, w, size, token, env);
            if env.readFails then w' == w && r == Err(StoreUnavailable)
            else if ParsePageToken(token).Err? then w' == w && r == Err(ValidationFailed)
            else
              var page := PageAt(ListingOf(w.store.rows.Values), ParsePageToken(token).value, NormalizePageSize(size));
              && RowsAreShown(w, page.rows, env.expire, 0, w', if r.Ok? then Ok(r.value.rows) else Err(r.error))
              && (r.Ok? ==> r.value.next == page.next)
  {
    var parsed := ParsePageToken(token);
    if !env.readFails && parsed.Ok? {
      Agreement.PageRowsStored(w.store.rows, parsed.value, NormalizePageSize(size));
      TurnsShow(cfg, w, PageAt(ListingOf(w.store.rows.Values), parsed.value, NormalizePageSize(size)).rows, env.expire, 0);
    }
  }

  // ---- starting ----

  /** The id under which a start would file its request. */
  function FiledAs(requestId: string, generated: string): string { if requestId == "" then generated else requestId }

  predicate Known(w: World, requestId: string) { requestId != "" && requestId in w.store.index }

  /** Why a start that finds no earlier one under its request id creates no session; None if it creates one. */
  function Hindrance(cfg: Config, w: World, req: StartRequest, env: StartEnv): Option<ErrorCode> {
    if req.requestId != "" && env.lookupFails then Some(StoreUnavailable)
    else if !req.profileValid || req.ttl < 0 then Some(ValidationFailed)
    else if |w.runtime| >= cfg.maxSessions then Some(CapacityUnavailable)
    else if env.createFails then Some(StoreUnavailable)
    else if env.sessionId == "" || env.sessionId in w.store.rows || Known(w, FiledAs(req.requestId, env.generatedRequestId)) then Some(ValidationFailed)
    else None
  }

  /** The beginnings of a row never change: who asked, when, for which kind of browser, with which labels, and until when. */
  predicate Begins(cfg: Config, req: StartRequest, env: StartEnv, s: Session) {
    && s.id == env.sessionId
    && s.requestId == FiledAs(req.requestId, env.generatedRequestId)
    && s.data.createdAt == env.createdAt
    && s.data.expiresAt == Some(env.createdAt + (if req.ttl == 0 then 1_800_000_000_000 else req.ttl))
    && s.data.kind == (if req.kind == KindUnspecified then cfg.kind else req.kind)
    && s.data.labels == req.labels
    && s.data.stoppedAt == None
  }

  /** What the runtime makes of a start, as far as its own reasons go. */
  function RuntimeTrouble(cfg: Config, req: StartRequest, env: StartEnv): Option<ErrorCode> {
    if req.kind != KindUnspecified && req.kind != cfg.kind then Some(UnsupportedOperation)
    else match env.launch
      case DirectoryFailed => Some(Internal)
      case LaunchFailed(code) => Some(code)
      case Launched(_) => None
  }

  /** Why a created session does not run, given the choice of its proxy; None if it does. */
  function Trouble(cfg: Config, req: StartRequest, env: StartEnv, choice: Result<Proxies.Resolved, ErrorCode>): Option<ErrorCode> {
    if choice.Err? then Some(ProxyFailed) else RuntimeTrouble(cfg, req, env)
  }

  /** The session runs, with its browser and with the lease of its proxy if it has one. */
  ghost predicate Runs(w: World, env: StartEnv, choice: Proxies.Resolved, w': World, reply: Reply)
    requires env.launch.Launched? && env.sessionId in w'.store.rows
  {
    var row := w'.store.rows[env.sessionId];
    && w'.runtime == w.runtime[env.sessionId := env.launch.processes]
    && w'.leases == (if choice.lease.url == "" then w.leases else w.leases[env.sessionId := choice.lease])
    && if env.updateFails then row.data.status == Starting && reply == Reply(None, Some(StoreUnavailable))
       else
         && row.data.status == Running && row.stamp == env.startedAt && row.data.startedAt == Some(env.startedAt)
         && row.data.lastError == None && row.data.proxyRef == choice.ref && reply == Reply(Some(row), None)
  }

  /** The session has failed with the code, and owns nothing. */
  ghost predicate Fails(w: World, env: StartEnv, code: ErrorCode, w': World, reply: Reply)
    requires env.sessionId in w'.store.rows
  {
    var row := w'.store.rows[env.sessionId];
    && w'.runtime == w.runtime && w'.leases == w.leases
    && reply.session.Some? && reply.error == Some(code)
    && reply.session.value.data.status == Failed && reply.session.value.data.lastError == Some(code)
    && reply.session.value.data.startedAt == None && reply.session.value.stamp == env.failedAt
    && if env.updateFails then row.data.status == Starting else row == reply.session.value
  }

  /** The row just created, with nothing owned for it. */
  ghost predicate JustCreated(cfg: Config, w: World, req: StartRequest, env: StartEnv, session: Session) {
    && Begins(cfg, req, env, session) && session.data.proxyRef == req.proxyRef
    && session.data.status == Starting && session.data.startedAt == None && session.data.lastError == None
    && session.id != "" && session.id in w.store.rows && w.store.rows[session.id] == session
    && session.id !in w.runtime && session.id !in w.leases && |w.runtime| < cfg.maxSessions
  }

  ghost predicate OthersStay(w: World, current: string, w': World) {
    forall id :: id in w.store.rows && id != current ==> id in w'.store.rows && w'.store.rows[id] == w.store.rows[id]
  }

  ghost predicate Ends(cfg: Config, w: World, req: StartRequest, env: StartEnv, w': World, reply: Reply) {
    var choice := Proxies.ResolveSelection(cfg.proxy, req.selection, req.proxyRef, env.validProxy, env.acquired);
    && env.sessionId in w'.store.rows && Begins(cfg, req, env, w'.store.rows[env.sessionId])
    && w'.store.rows.Keys == w.store.rows.Keys + {env.sessionId}
    && OthersStay(w, env.sessionId, w')
    && if Trouble(cfg, req, env, choice).None? then Runs(w, env, choice.value, w', reply)
       else Fails(w, env, Trouble(cfg, req, env, choice).value, w', reply)
  }

  /** However far it came, giving up a start leaves its row as FAILED and nothing owned. */
  lemma GivenUp(cfg: Config, w: World, w1: World, req: StartRequest, env: StartEnv, created: Session, session: Session, code: ErrorCode)
    requires JustCreated(cfg, w, req, env, created) && session == created.(data := created.data.(proxyRef := session.data.proxyRef))
    requires w1.store == w.store && w1.runtime == w.runtime && w1.leases - {session.id} == w.leases
    ensures var (w', reply) := FailStart(w1, session, code, env);
            && Fails(w, env, code, w', reply) && Begins(cfg, req, env, w'.store.rows[env.sessionId])
            && w'.store.rows == w.store.rows[env.sessionId := w'.store.rows[env.sessionId]]
  {
  }

  lemma NotChosen(cfg: Config, w: World, req: StartRequest, env: StartEnv, session: Session)
    requires JustCreated(cfg, w, req, env, session)
    requires Proxies.ResolveSelection(cfg.proxy, req.selection, req.proxyRef, env.validProxy, env.acquired).Err?
    ensures Ends(cfg, w, req, env, FinishStart(cfg, w, session, req, env).0, FinishStart(cfg, w, session, req, env).1)
  {
    assert w.leases - {session.id} == w.leases;
    GivenUp(cfg, w, w, req, env, session, session, ProxyFailed);
    OnlyItsRow(w, FailStart(w, session, ProxyFailed, env).0, env.sessionId);
  }

  lemma Chosen(cfg: Config, w: World, req: StartRequest, env: StartEnv, session: Session, choice: Proxies.Resolved)
    requires JustCreated(cfg, w, req, env, session)
    requires Proxies.ResolveSelection(cfg.proxy, req.selection, req.proxyRef, env.validProxy, env.acquired) == Ok(choice)
    ensures Ends(cfg, w, req, env, FinishStart(cfg, w, session, req, env).0, FinishStart(cfg, w, session, req, env).1)
  {
    var s := session.(data := session.data.(proxyRef := choice.ref));
    var w1 := WithLease(w, s.id, choice);
    var (w2, error) := RuntimeStart(cfg, w1, s, env.launch);
    ChosenUnfolds(cfg, w, req, env, session, choice);
    RuntimeAnswers(cfg, w1, req, env, s);
    if error.Some? {
      ChosenFails(cfg, w, w2, req, env, session, s, choice, error.value);
    } else {
      Launches(cfg, w, w2, req, env, session, s, choice);
    }
  }

  lemma ChosenUnfolds(cfg: Config, w: World, req: StartRequest, env: StartEnv, session: Session, choice: Proxies.Resolved)
    requires session.data.proxyRef == req.proxyRef
    requires Proxies.ResolveSelection(cfg.proxy, req.selection, req.proxyRef, env.validProxy, env.acquired) == Ok(choice)
    ensures var s := session.(data := session.data.(proxyRef := choice.ref));
            var (w2, error) := RuntimeStart(cfg, WithLease(w, s.id, choice), s, env.launch);
            FinishStart(cfg, w, session, req, env) == if error.Some? then FailStart(w2, s, error.value, env) else Recorded(w2, s, env)
  {
    assert choice.lease.url == "" ==> WithLease(w, session.id, choice) == w;
  }

  /** The end of a start whose browser runs. */
  function Recorded(w: World, s: Session, env: StartEnv): (World, Reply) {
    var (w', error) := Write(w, Started(s, env), env.updateFails);
    (w', if error.Some? then Reply(None, error) else Reply(Some(Started(s, env)), None))
  }

  lemma ChosenFails(cfg: Config, w: World, w2: World, req: StartRequest, env: StartEnv, created: Session, s: Session, choice: Proxies.Resolved, code: ErrorCode)
    requires JustCreated(cfg, w, req, env, created) && s == created.(data := created.data.(proxyRef := choice.ref))
    requires Proxies.ResolveSelection(cfg.proxy, req.selection, req.proxyRef, env.validProxy, env.acquired) == Ok(choice)
    requires Some(code) == RuntimeTrouble(cfg, req, env)
    requires var w1 := WithLease(w, s.id, choice);
             w2.store == w.store && w2.runtime == w.runtime && (w2.leases == w1.leases || w2.leases == w1.leases - {s.id})
    ensures Ends(cfg, w, req, env, FailStart(w2, s, code, env).0, FailStart(w2, s, code, env).1)
  {
    LeaseBack(w, s.id, choice, w2.leases);
    GivenUp(cfg, w, w2, req, env, created, s, code);
    OnlyItsRow(w, FailStart(w2, s, code, env).0, env.sessionId);
  }

  lemma OnlyItsRow(w: World, w': World, id: string)
    requires id in w'.store.rows && w'.store.rows == w.store.rows[id := w'.store.rows[id]]
    ensures w'.store.rows.Keys == w.store.rows.Keys + {id} && OthersStay(w, id, w')
  {
  }

  function WithLease(w: World, id: string, choice: Proxies.Resolved): World {
    w.(leases := if choice.lease.url == "" then w.leases else w.leases[id := choice.lease])
  }

  /** Once the session's own lease is given up, again or for the first time, the leases are those before. */
  lemma LeaseBack(w: World, id: string, choice: Proxies.Resolved, leases: map<string, Proxies.Lease>)
    requires id !in w.leases
    requires leases == WithLease(w, id, choice).leases || leases == WithLease(w, id, choice).leases - {id}
    ensures leases - {id} == w.leases
  {
  }

  lemma RuntimeAnswers(cfg: Config, w1: World, req: StartRequest, env: StartEnv, s: Session)
    requires s.data.kind == (if req.kind == KindUnspecified then cfg.kind else req.kind)
    requires s.id !in w1.runtime && |w1.runtime| < cfg.maxSessions
    ensures var (w2, error) := RuntimeStart(cfg, w1, s, env.launch);
            && error == RuntimeTrouble(cfg, req, env) && w2.store == w1.store
            && (error.Some? ==> w2.runtime == w1.runtime && (w2.leases == w1.leases || w2.leases == w1.leases - {s.id}))
            && (error.None? ==> env.launch.Launched? && w2.runtime == w1.runtime[s.id := env.launch.processes] && w2.leases == w1.leases)
  {
  }

  lemma Launches(cfg: Config, w: World, w2: World, req: StartRequest, env: StartEnv, created: Session, s: Session, choice: Proxies.Resolved)
    requires JustCreated(cfg, w, req, env, created) && s == created.(data := created.data.(proxyRef := choice.ref)) && env.launch.Launched?
    requires Proxies.ResolveSelection(cfg.proxy, req.selection, req.proxyRef, env.validProxy, env.acquired) == Ok(choice)
    requires RuntimeTrouble(cfg, req, env).None?
    requires w2 == WithLease(w, s.id, choice).(runtime := w.runtime[s.id := env.launch.processes])
    ensures Ends(cfg, w, req, env, Recorded(w2, s, env).0, Recorded(w2, s, env).1)
  {
    OnlyItsRow(w, Recorded(w2, s, env).0, env.sessionId);
  }

  lemma FinishStartEnds(cfg: Config, w: World, req: StartRequest, env: StartEnv, session: Session)
    requires JustCreated(cfg, w, req, env, session)
    ensures Ends(cfg, w, req, env, FinishStart(cfg, w, session, req, env).0, FinishStart(cfg, w, session, req, env).1)
  {
    match Proxies.ResolveSelection(cfg.proxy, req.selection, req.proxyRef, env.validProxy, env.acquired)
    case Ok(choice) => Chosen(cfg, w, req, env, session, choice);
    case Err(_) => NotChosen(cfg, w, req, env, session);
  }

  /** The answer of a start whose request id is taken. */
  predicate Remembered(w: World, requestId: string, reply: Reply)
    requires requestId in w.store.index
  {
    var id := w.store.index[requestId];
    reply.error == None && reply.session == if id in w.store.rows then Some(w.store.rows[id]) else None
  }

  lemma StartTurnedAway(cfg: Config, w: World, req: StartRequest, env: StartEnv)
    requires (Known(w, req.requestId) && !env.lookupFails) || Hindrance(cfg, w, req, env).Some?
    ensures var (w', reply) := Start(cfg, w, req, env);
            if Known(w, req.requestId) && !env.lookupFails then w' == w && Remembered(w, req.requestId, reply)
            else Refused(w, w', reply, Hindrance(cfg, w, req, env).value)
  {
  }

  lemma StartGoesOn(cfg: Config, w: World, req: StartRequest, env: StartEnv) returns (w1: World, session: Session)
    requires w.runtime.Keys <= w.store.rows.Keys && w.leases.Keys <= w.store.rows.Keys
    requires !Known(w, req.requestId) && Hindrance(cfg, w, req, env).None?
    ensures JustCreated(cfg, w1, req, env, session) && Start(cfg, w, req, env) == FinishStart(cfg, w1, session, req, env)
    ensures w1.runtime == w.runtime && w1.leases == w.leases && w1.store.rows == w.store.rows[env.sessionId := session]
  {
    session := NewSession(cfg, req, env);
    w1 := w.(store := Create(w.store, session).value);
  }

  /** What happened since the row was created happened since the call began. */
  lemma EndsFromBefore(cfg: Config, w: World, w1: World, req: StartRequest, env: StartEnv, session: Session, w': World, reply: Reply)
    requires w1.runtime == w.runtime && w1.leases == w.leases && w1.store.rows == w.store.rows[env.sessionId := session]
    requires env.sessionId !in w.store.rows && Ends(cfg, w1, req, env, w', reply)
    ensures Ends(cfg, w, req, env, w', reply)
  {
    assert w1.store.rows.Keys == w.store.rows.Keys + {env.sessionId};
    forall id | id in w.store.rows && id != env.sessionId ensures w'.store.rows[id] == w.store.rows[id] {
      assert w1.store.rows[id] == w.store.rows[id];
    }
  }

  /**
   A start answers with the session that was started under its request id, or is refused and changes nothing, or
   creates one row, which begins as asked for and is RUNNING or FAILED.
   */
  lemma StartAnswers(cfg: Config, w: World, req: StartRequest, env: StartEnv)
    requires w.runtime.Keys <= w.store.rows.Keys && w.leases.Keys <= w.store.rows.Keys
    ensures var (w', reply) := Start(cfg, w, req, env);
            if Known(w, req.requestId) && !env.lookupFails then w' == w && Remembered(w, req.requestId, reply)
            else if Hindrance(cfg, w, req, env).Some? then Refused(w, w', reply, Hindrance(cfg, w, req, env).value)
            else env.sessionId !in w.store.rows && Ends(cfg, w, req, env, w', reply)
  {
    if (Known(w, req.requestId) && !env.lookupFails) || Hindrance(cfg, w, req, env).Some? {
      StartTurnedAway(cfg, w, req, env);
    } else {
      var w1, session := StartGoesOn(cfg, w, req, env);
      FinishStartEnds(cfg, w1, req, env, session);
      EndsFromBefore(cfg, w, w1, req, env, session, Start(cfg, w, req, env).0, Start(cfg, w, req, env).1);
    }
  }

  /** What a new row holds, whatever became of the start. */
  lemma NewRowBegins(cfg: Config, w: World, req: StartRequest, env: StartEnv)
    requires w.runtime.Keys <= w.store.rows.Keys && w.leases.Keys <= w.store.rows.Keys
    requires env.sessionId !in w.store.rows
    ensures var w' := Start(cfg, w, req, env).0;
            && (env.sessionId in w'.store.rows <==> !(Known(w, req.requestId) && !env.lookupFails) && Hindrance(cfg, w, req, env).None?)
            && (env.sessionId in w'.store.rows ==> Begins(cfg, req, env, w'.store.rows[env.sessionId]))
  {
    StartAnswers(cfg, w, req, env);
  }

  // ---- stopping ----

  /** Stopping the browser or releasing its lease at the remote end fails. */
  predicate StopFails(cfg: Config, w: World, id: string, t: Teardown) {
    || (id in w.runtime && t.stopFails)
    || (id in w.leases && w.leases[id].leaseId != "" && cfg.proxy.remote && t.releaseFails)
  }

  /** Everything is as before but for the session's row, its browser and its lease. */
  ghost predicate GivesUp(w: World, w': World, row: Session) {
    && w'.store.rows == w.store.rows[row.id := row]
    && w'.runtime == w.runtime - {row.id} && w'.leases == w.leases - {row.id}
  }

  /** The row that a stop which could not be completed leaves behind. */
  function Stuck(s: Session, env: StopEnv): Session {
    s.(stamp := env.stoppingAt, data := s.data.(status := Stopping))
  }

  function StoppedRow(s: Session, reason: string, env: StopEnv): Session {
    s.(stamp := env.finishedAt,
       data := s.data.(status := Stopped, stoppedAt := Some(env.finishedAt),
                       labels := if reason == "" then s.data.labels else s.data.labels["stop_reason" := reason]))
  }

  function FailedRow(s: Session, env: StopEnv): Session {
    s.(stamp := env.finishedAt, data := s.data.(status := Failed, lastError := Some(BrowserUnavailable)))
  }

  /** A stop that finds a session still alive ends it either way, as STOPPED exactly if browser and lease could be given up. */
  ghost predicate StopsRow(cfg: Config, w: World, s: Session, reason: string, env: StopEnv, w': World, reply: Reply) {
    if env.firstWriteFails then Refused(w, w', reply, StoreUnavailable)
    else if StopFails(cfg, w, s.id, env.teardown) then
      && GivesUp(w, w', if env.lastWriteFails then Stuck(s, env) else FailedRow(s, env))
      && reply == Reply(Some(FailedRow(s, env)), Some(BrowserUnavailable))
    else
      && GivesUp(w, w', if env.lastWriteFails then Stuck(s, env) else StoppedRow(s, reason, env))
      && reply == if env.lastWriteFails then Reply(None, Some(StoreUnavailable)) else Reply(Some(StoppedRow(s, reason, env)), None)
  }

  lemma StopAnswers(cfg: Config, w: World, id: string, reason: string, env: StopEnv)
    requires RowsKeyed(w.store.rows)
    ensures var (w', reply) := Stop(cfg, w, id, reason, env);
            if env.readFails then Refused(w, w', reply, StoreUnavailable)
            else if id == "" then Refused(w, w', reply, ValidationFailed)
            else if id !in w.store.rows then Refused(w, w', reply, SessionNotFound)
            else if Over(w.store.rows[id].data.status) then w' == w && reply == Reply(Some(w.store.rows[id]), Some(SessionFinalized))
            else StopsRow(cfg, w, w.store.rows[id], reason, env, w', reply)
  {
  }

  /** So, with a store that works, a session that was alive is STOPPED if and only if nothing failed while it was stopped, and FAILED otherwise. */
  lemma StoppedIff(cfg: Config, w: World, id: string, reason: string, env: StopEnv)
    requires RowsKeyed(w.store.rows) && id in w.store.rows && !Over(w.store.rows[id].data.status)
    requires !env.readFails && !env.firstWriteFails && !env.lastWriteFails
    ensures var (w', reply) := Stop(cfg, w, id, reason, env);
            && id in w'.store.rows && reply.session == Some(w'.store.rows[id]) && id !in w'.runtime && id !in w'.leases
            && (reply.error == None && w'.store.rows[id].data.status == Stopped <==> !StopFails(cfg, w, id, env.teardown))
            && (StopFails(cfg, w, id, env.teardown) ==>
                  w'.store.rows[id].data.status == Failed && w'.store.rows[id].data.lastError == reply.error == Some(BrowserUnavailable))
  {
    StopAnswers(cfg, w, id, reason, env);
  }
}
