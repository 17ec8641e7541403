/**
 Concurrent service calls on one store table.  A request id is looked up, the call goes on for a while, and
 then the row is created; other calls run in between, so several calls with the same request id may all
 miss it.  The check and the insertion inside CreateSession and CreateTask are one lock region, and on that
 alone rests that a request takes effect once.  The table is the session table with StartBrowserSession,
 or the task table with its two entry points StartBrowserTask and ExecuteBrowserCommands.
 Stops and expiries read a row, return if it is final, work, and write their copy back.
 */
module Admission {
  import opened Wrappers
  import opened Core
  import opened Listing
  import opened Store
  import opened Entities
  import LeaseProtocol
  import SessionService

  type CallId = nat

  /** Where the effect of an admitted request is: runtime.StartSession, EnqueueTask or ExecuteTask. */
  datatype Entry = StartBrowserSession | StartBrowserTask | ExecuteBrowserCommands

  datatype Call<D> =
    | Looking(entry: Entry, requestId: string)       // before GetSessionByRequestID, GetTaskByRequestID
    | Creating(entry: Entry, row: Record<D>)         // before CreateSession, CreateTask
    | Admitted(entry: Entry, row: Record<D>)         // the row is created
    | Prepared(entry: Entry, row: Record<D>)         // PrepareSessionProxy has been called
    | InEffect(entry: Entry, row: Record<D>)         // the runtime has been called
    | Reading(id: string)                            // StopBrowserSession, expiry: before the read
    | Holding(row: Record<D>)                        // after it, with a copy of the row
    | Done

  datatype Effect = Effect(entry: Entry, requestId: string, id: string)

  /** `admitted` are the ids of the rows created, `prepared` those passed to PrepareSessionProxy, in order. */
  datatype State<D> = State(
    table: Table<D>, calls: map<CallId, Call<D>>, effects: seq<Effect>, admitted: seq<string>, prepared: seq<string>)

  function Initial<D>(): State<D> { State(Table(map[], map[]), map[], [], [], []) }

  datatype Step<D> =
    | Begin(call: Call<D>)
    | LookUp(row: Record<D>)              // the row to create, should the request id be unknown
    | Insert
    | Prepare
    | TakeEffect
    | Read
    | WriteBack(stamp: int, data: D)      // UpdateSession, UpdateTask with the call's own copy
    | Quit                                // any error return, and the end of the call

  predicate Owner<D>(call: Call<D>) { call.Admitted? || call.Prepared? || call.InEffect? }

  predicate HasCopy<D>(call: Call<D>) { Owner(call) || call.Holding? }

  /**
   `final` tells the data of a final row.  A call never writes from a final copy.  The call that created a row
   writes once, at its end; a stop may write STOPPING before its final write.
   */
  ghost predicate Next<D(!new)>(final: D -> bool, s: State<D>, t: CallId, step: Step<D>, s': State<D>) {
    if step.Begin? then
      t !in s.calls && (step.call.Looking? || step.call.Reading?) && s' == s.(calls := s.calls[t := step.call])
    else
      t in s.calls &&
      var call := s.calls[t];
      match step
      case LookUp(row) =>
        call.Looking? &&
        if call.requestId != "" && GetByRequestID(s.table, call.requestId, SessionNotFound).Ok? then
          s' == s.(calls := s.calls[t := Done])
        else
          // an empty request id is replaced by a generated one
          && row.requestId != "" && (call.requestId != "" ==> row.requestId == call.requestId)
          && s' == s.(calls := s.calls[t := Creating(call.entry, row)])
      case Insert =>
        call.Creating? &&
        var created := Create(s.table, call.row);
        s' == if created.Ok? then
                s.(table := created.value, calls := s.calls[t := Admitted(call.entry, call.row)], admitted := s.admitted + [call.row.id])
              else s.(calls := s.calls[t := Done])
      case Prepare =>
        call.Admitted? && call.entry.StartBrowserSession? &&
        s' == s.(calls := s.calls[t := Prepared(call.entry, call.row)], prepared := s.prepared + [call.row.id])
      case TakeEffect =>
        (call.Prepared? || (call.Admitted? && !call.entry.StartBrowserSession?)) &&
        s' == s.(effects := s.effects + [Effect(call.entry, call.row.requestId, call.row.id)],
                 calls := s.calls[t := InEffect(call.entry, call.row)])
      case Read =>
        call.Reading? &&
        var found := Get(s.table, call.id, SessionNotFound);
        s' == s.(calls := s.calls[t := if found.Ok? then Holding(found.value) else Done])
      case WriteBack(stamp, data) =>
        HasCopy(call) && !final(call.row.data) &&
        var copy := call.row.(stamp := stamp, data := data);
        var written := Update(s.table, copy, SessionNotFound);
        s' == s.(table := if written.Ok? then written.value else s.table,
                 calls := s.calls[t := if Owner(call) || final(data) then Done else Holding(copy)])
      case Quit => s' == s.(calls := s.calls[t := Done])
      case _ => false
  }

  // ---- the invariant ----

  /** Copies belong to stored rows and carry their request ids. */
  ghost predicate CopiesMatch<D(!new)>(s: State<D>) {
    && (forall t :: t in s.calls && HasCopy(s.calls[t]) ==>
          var row := s.calls[t].row; row.id in s.table.rows && s.table.rows[row.id].requestId == row.requestId)
    && (forall t :: t in s.calls && s.calls[t].Creating? ==> s.calls[t].row.requestId != "")
  }

  /** A row has one call that created it, and a call that has not taken effect has left no trace. */
  ghost predicate Owned<D(!new)>(s: State<D>) {
    && (forall t :: t in s.calls && Owner(s.calls[t]) ==> s.calls[t].row.requestId != "")
    && (forall t, u :: t in s.calls && u in s.calls && Owner(s.calls[t]) && Owner(s.calls[u]) && s.calls[t].row.id == s.calls[u].row.id ==> t == u)
    && (forall t, i :: t in s.calls && Owner(s.calls[t]) && !s.calls[t].InEffect? && 0 <= i < |s.effects| ==> s.effects[i].id != s.calls[t].row.id)
  }

  ghost predicate EffectsStored<D(!new)>(s: State<D>) {
    && (forall i :: 0 <= i < |s.effects| ==>
          var e := s.effects[i]; e.requestId != "" && e.id in s.table.rows && s.table.rows[e.id].requestId == e.requestId)
    && (forall i, j :: 0 <= i < j < |s.effects| ==> s.effects[i].id != s.effects[j].id)
  }

  predicate Distinct(ids: seq<string>) {
    forall i, j :: 0 <= i < j < |ids| ==> ids[i] != ids[j]
  }

  /** Rows are created once and prepared once at most, and a row once created stays. */
  ghost predicate Logged<D(!new)>(s: State<D>) {
    && Distinct(s.admitted) && Distinct(s.prepared)
    && (forall i :: 0 <= i < |s.admitted| ==> s.admitted[i] in s.table.rows)
    && (forall i :: 0 <= i < |s.prepared| ==> s.prepared[i] in s.admitted)
    && (forall t :: t in s.calls && Owner(s.calls[t]) ==> s.calls[t].row.id in s.admitted)
    && (forall t :: t in s.calls && s.calls[t].Admitted? ==> s.calls[t].row.id !in s.prepared)
  }

  ghost predicate Inv<D(!new)>(s: State<D>) {
    Coherent(s.table) && CopiesMatch(s) && Owned(s) && EffectsStored(s) && Logged(s)
  }

  lemma InsertKeeps<D(!new)>(final: D -> bool, s: State<D>, t: CallId, s': State<D>)
    requires Inv(s) && Next(final, s, t, Insert, s')
    ensures Inv(s')
  {
    CreateCoherent(s.table, s.calls[t].row);
    if Create(s.table, s.calls[t].row).Ok? {
      InsertLogged(final, s, t, s');
      InsertOwned(final, s, t, s');
    }
  }

  lemma InsertLogged<D(!new)>(final: D -> bool, s: State<D>, t: CallId, s': State<D>)
    requires Inv(s) && Next(final, s, t, Insert, s') && Create(s.table, s.calls[t].row).Ok?
    ensures Logged(s')
  {
    assert s.calls[t].row.id !in s.admitted;
    assert s'.admitted[|s.admitted|] == s.calls[t].row.id;
  }

  lemma InsertOwned<D(!new)>(final: D -> bool, s: State<D>, t: CallId, s': State<D>)
    requires Inv(s) && Next(final, s, t, Insert, s') && Create(s.table, s.calls[t].row).Ok?
    ensures CopiesMatch(s') && Owned(s') && EffectsStored(s')
  {
  }

  lemma LoggedStays<D(!new)>(s: State<D>, t: CallId, call: Call<D>, s': State<D>)
    requires Logged(s) && s'.calls == s.calls[t := call] && !Owner(call)
    requires s'.admitted == s.admitted && s'.prepared == s.prepared && s'.table.rows.Keys == s.table.rows.Keys
    ensures Logged(s')
  {
    assert forall i :: 0 <= i < |s.admitted| ==> s.admitted[i] in s'.table.rows.Keys;
  }

  /** Rewriting rows under their ids and request ids disturbs nothing but the rows' contents. */
  lemma ContentsDoNotMatter<D(!new)>(s: State<D>, t: CallId, call: Call<D>, s': State<D>)
    requires CopiesMatch(s) && Owned(s) && EffectsStored(s) && Logged(s)
    requires t in s.calls && s' == s.(table := s'.table, calls := s.calls[t := call])
    requires HasCopy(s.calls[t]) && (call.Done? || (call.Holding? && call.row.id == s.calls[t].row.id && call.row.requestId == s.calls[t].row.requestId))
    requires s'.table.rows.Keys == s.table.rows.Keys
    requires forall id :: id in s.table.rows ==> s'.table.rows[id].requestId == s.table.rows[id].requestId
    ensures CopiesMatch(s') && Owned(s') && EffectsStored(s') && Logged(s')
  {
    LoggedStays(s, t, call, s');
    assert CopiesMatch(s');
    assert Owned(s');
  }

  lemma WriteBackKeeps<D(!new)>(final: D -> bool, s: State<D>, t: CallId, stamp: int, data: D, s': State<D>)
    requires Inv(s) && Next(final, s, t, WriteBack(stamp, data), s')
    ensures Inv(s')
  {
    var copy := s.calls[t].row.(stamp := stamp, data := data);
    assert Update(s.table, copy, SessionNotFound).Ok?;
    UpdateCoherentIff(s.table, copy, SessionNotFound);
    assert s'.table.rows == s.table.rows[copy.id := copy] && s'.table.rows.Keys == s.table.rows.Keys;
    ContentsDoNotMatter(s, t, s'.calls[t], s');
  }

  lemma PrepareKeeps<D(!new)>(final: D -> bool, s: State<D>, t: CallId, s': State<D>)
    requires Inv(s) && Next(final, s, t, Prepare, s')
    ensures Inv(s')
  {
    OwnerMovesOn(s, t, s'.calls[t], s');
    PrepareLogged(s, t, s');
  }

  lemma PrepareLogged<D(!new)>(s: State<D>, t: CallId, s': State<D>)
    requires Logged(s) && Owned(s) && t in s.calls && s.calls[t].Admitted? && s'.table == s.table
    requires s'.calls == s.calls[t := Prepared(s.calls[t].entry, s.calls[t].row)]
    requires s'.admitted == s.admitted && s'.prepared == s.prepared + [s.calls[t].row.id]
    ensures Logged(s')
  {
    assert s'.prepared[|s.prepared|] == s.calls[t].row.id;
  }

  /** A call keeps its row while it goes on. */
  lemma OwnerMovesOn<D(!new)>(s: State<D>, t: CallId, call: Call<D>, s': State<D>)
    requires CopiesMatch(s) && Owned(s) && t in s.calls && Owner(s.calls[t])
    requires Owner(call) && call.row == s.calls[t].row && (s.calls[t].InEffect? ==> call.InEffect?)
    requires s'.table == s.table && s'.calls == s.calls[t := call]
    requires s'.effects == s.effects || (call.InEffect? && exists e: Effect :: e.id == call.row.id && s'.effects == s.effects + [e])
    ensures CopiesMatch(s') && Owned(s')
  {
  }

  lemma TakeEffectKeeps<D(!new)>(final: D -> bool, s: State<D>, t: CallId, s': State<D>)
    requires Inv(s) && Next(final, s, t, TakeEffect, s')
    ensures Inv(s')
  {
    var row := s.calls[t].row;
    OwnerMovesOn(s, t, s'.calls[t], s');
    EffectAdded(s, Effect(s.calls[t].entry, row.requestId, row.id), s');
  }

  lemma EffectAdded<D(!new)>(s: State<D>, e: Effect, s': State<D>)
    requires EffectsStored(s) && s'.effects == s.effects + [e] && s'.table == s.table
    requires e.requestId != "" && e.id in s.table.rows && s.table.rows[e.id].requestId == e.requestId
    requires forall i :: 0 <= i < |s.effects| ==> s.effects[i].id != e.id
    ensures EffectsStored(s')
  {
  }

  /** A step that leaves table and logs alone and gives call t no new row to look after. */
  lemma QuietStepKeeps<D(!new)>(s: State<D>, t: CallId, call: Call<D>, s': State<D>)
    requires Inv(s) && s' == s.(calls := s.calls[t := call])
    requires !Owner(call) && (call.Creating? ==> call.row.requestId != "")
    requires call.Holding? ==> call.row.id in s.table.rows && s.table.rows[call.row.id].requestId == call.row.requestId
    ensures Inv(s')
  {
    LoggedStays(s, t, call, s');
    assert Owned(s');
  }

  lemma InvByStep<D(!new)>(final: D -> bool, s: State<D>, t: CallId, step: Step<D>, s': State<D>)
    requires Inv(s) && Next(final, s, t, step, s')
    ensures Inv(s')
  {
    match step
    case Begin(call) => QuietStepKeeps(s, t, call, s');
    case LookUp(_) => QuietStepKeeps(s, t, s'.calls[t], s');
    case Insert => InsertKeeps(final, s, t, s');
    case Prepare => PrepareKeeps(final, s, t, s');
    case TakeEffect => TakeEffectKeeps(final, s, t, s');
    case Read => QuietStepKeeps(s, t, s'.calls[t], s');
    case WriteBack(stamp, data) => WriteBackKeeps(final, s, t, stamp, data, s');
    case Quit => QuietStepKeeps(s, t, Done, s');
  }

  // ---- runs ----

  ghost predicate Reaches<D(!new)>(final: D -> bool, s: State<D>, s': State<D>) {
    exists t, step :: Next(final, s, t, step, s')
  }

  /** Steps from one state on. */
  ghost predicate IsPath<D(!new)>(final: D -> bool, trace: seq<State<D>>) {
    trace != [] && forall i :: 0 <= i < |trace| - 1 ==> Reaches(final, trace[i], trace[i + 1])
  }

  ghost predicate IsRun<D(!new)>(final: D -> bool, trace: seq<State<D>>) {
    IsPath(final, trace) && trace[0] == Initial()
  }

  lemma {:induction false} InvOverPaths<D(!new)>(final: D -> bool, trace: seq<State<D>>, n: nat)
    requires IsPath(final, trace) && n < |trace| && Inv(trace[0])
    ensures Inv(trace[n])
  {
    if n > 0 {
      InvOverPaths(final, trace, n - 1);
      var t, step :| Next(final, trace[n - 1], t, step, trace[n]);
      InvByStep(final, trace[n - 1], t, step, trace[n]);
    }
  }

  lemma InvOverRuns<D(!new)>(final: D -> bool, trace: seq<State<D>>, n: nat)
    requires IsRun(final, trace) && n < |trace|
    ensures Inv(trace[n])
  {
    InvOverPaths(final, trace, n);
  }

  /** Under every interleaving a request id takes effect at most once, across all entry points, and so does a row. */
  lemma OneEffectPerRequest<D(!new)>(final: D -> bool, trace: seq<State<D>>, n: nat, i: nat, j: nat)
    requires IsRun(final, trace) && n < |trace| && i < j < |trace[n].effects|
    ensures trace[n].effects[i].requestId != trace[n].effects[j].requestId
    ensures trace[n].effects[i].id != trace[n].effects[j].id
  {
    InvOverRuns(final, trace, n);
    var s := trace[n];
    assert s.table.index[s.effects[i].requestId] == s.effects[i].id;
  }

  /** Over a whole run no id is admitted twice and no id is passed to PrepareSessionProxy twice, nor one that was not admitted. */
  lemma AdmittedOnce<D(!new)>(final: D -> bool, trace: seq<State<D>>, n: nat)
    requires IsRun(final, trace) && n < |trace|
    ensures Distinct(trace[n].admitted) && Distinct(trace[n].prepared)
    ensures forall i :: 0 <= i < |trace[n].prepared| ==> trace[n].prepared[i] in trace[n].admitted
  {
    InvOverRuns(final, trace, n);
  }

  /** So a run of the proxy controller whose preparations are those of the service loses no lease. */
  lemma PreparationsAreFresh<D(!new)>(final: D -> bool, trace: seq<State<D>>, n: nat,
                                      steps: seq<(LeaseProtocol.CallId, LeaseProtocol.Step)>, leases: seq<LeaseProtocol.State>)
    requires IsRun(final, trace) && n < |trace|
    requires LeaseProtocol.IsLabelled(steps, leases) && LeaseProtocol.Preparations(steps) == trace[n].prepared
    ensures LeaseProtocol.IsFreshRun(leases)
    ensures forall k :: 0 <= k < |leases| ==> leases[k].overwritten == {}
  {
    AdmittedOnce(final, trace, n);
    LeaseProtocol.DistinctIsFresh(steps, leases);
    forall k | 0 <= k < |leases| ensures leases[k].overwritten == {} {
      LeaseProtocol.NothingOverwritten(leases, k);
    }
  }

  /** Two calls at work on rows they created work on different rows and requests. */
  lemma OneOwnerPerRow<D(!new)>(final: D -> bool, trace: seq<State<D>>, n: nat, t: CallId, u: CallId)
    requires IsRun(final, trace) && n < |trace| && t in trace[n].calls && u in trace[n].calls
    requires Owner(trace[n].calls[t]) && Owner(trace[n].calls[u]) && t != u
    ensures trace[n].calls[t].row.id != trace[n].calls[u].row.id
    ensures trace[n].calls[t].row.requestId != trace[n].calls[u].row.requestId
  {
    InvOverRuns(final, trace, n);
    var s := trace[n];
    assert s.table.index[s.calls[t].row.requestId] == s.calls[t].row.id;
  }

  // ---- when a final row is safe ----

  /** Some call in flight holds a copy of the row from before it became final. */
  ghost predicate Stale<D(!new)>(final: D -> bool, s: State<D>, id: string) {
    exists t :: t in s.calls && HasCopy(s.calls[t]) && s.calls[t].row.id == id && !final(s.calls[t].row.data)
  }

  ghost predicate Settled<D(!new)>(final: D -> bool, s: State<D>, id: string) {
    id in s.table.rows && final(s.table.rows[id].data) && !Stale(final, s, id)
  }

  ghost predicate Changes<D(!new)>(final: D -> bool, path: seq<State<D>>, id: string, row: Record<D>) {
    IsPath(final, path) && exists k :: 0 <= k < |path| && !(id in path[k].table.rows && path[k].table.rows[id] == row)
  }

  /** The row can still come to read differently. */
  ghost predicate CanChange<D(!new)>(final: D -> bool, s: State<D>, id: string)
    requires id in s.table.rows
  {
    exists path: seq<State<D>> :: path != [] && path[0] == s && Changes(final, path, id, s.table.rows[id])
  }

  lemma SettledByStep<D(!new)>(final: D -> bool, s: State<D>, t: CallId, step: Step<D>, s': State<D>, id: string)
    requires Inv(s) && Next(final, s, t, step, s') && Settled(final, s, id)
    ensures Settled(final, s', id) && s'.table.rows[id] == s.table.rows[id]
  {
    forall u | u in s'.calls && u != t ensures !(HasCopy(s'.calls[u]) && s'.calls[u].row.id == id && !final(s'.calls[u].row.data)) {
      assert s'.calls[u] == s.calls[u];
    }
  }

  lemma {:induction false} SettledOverPaths<D(!new)>(final: D -> bool, path: seq<State<D>>, id: string, n: nat)
    requires IsPath(final, path) && n < |path| && Inv(path[0]) && Settled(final, path[0], id)
    ensures Settled(final, path[n], id) && path[n].table.rows[id] == path[0].table.rows[id]
  {
    if n > 0 {
      SettledOverPaths(final, path, id, n - 1);
      InvOverPaths(final, path, n - 1);
      var t, step :| Next(final, path[n - 1], t, step, path[n]);
      SettledByStep(final, path[n - 1], t, step, path[n], id);
    }
  }

  lemma StaleChanges<D(!new)>(final: D -> bool, s: State<D>, id: string)
    requires Inv(s) && id in s.table.rows && Stale(final, s, id)
    ensures CanChange(final, s, id)
  {
    var t :| t in s.calls && HasCopy(s.calls[t]) && s.calls[t].row.id == id && !final(s.calls[t].row.data);
    var call, row := s.calls[t], s.table.rows[id];
    var copy := call.row.(stamp := row.stamp + 1);
    var s' := s.(table := Update(s.table, copy, SessionNotFound).value,
                 calls := s.calls[t := if Owner(call) || final(copy.data) then Done else Holding(copy)]);
    assert Next(final, s, t, WriteBack(copy.stamp, copy.data), s');
    assert Reaches(final, s, s');
    var path := [s, s'];
    assert path[1].table.rows[id] != row;
    assert Changes(final, path, id, row);
  }

  /**
   Finality is not kept under interleaving, because UpdateSession writes whatever copy it is given.  Exactly:
   in any reachable state a final row can still change if and only if some call in flight holds a copy of it
   from before it became final.
   */
  lemma FinalRowCanChangeIff<D(!new)>(final: D -> bool, trace: seq<State<D>>, n: nat, id: string)
    requires IsRun(final, trace) && n < |trace| && id in trace[n].table.rows && final(trace[n].table.rows[id].data)
    ensures CanChange(final, trace[n], id) <==> Stale(final, trace[n], id)
  {
    InvOverRuns(final, trace, n);
    var s := trace[n];
    if Stale(final, s, id) {
      StaleChanges(final, s, id);
    } else if CanChange(final, s, id) {
      var path: seq<State<D>> :| path != [] && path[0] == s && Changes(final, path, id, s.table.rows[id]);
      var k :| 0 <= k < |path| && !(id in path[k].table.rows && path[k].table.rows[id] == s.table.rows[id]);
      SettledOverPaths(final, path, id, k);
    }
  }

  const FINAL_SESSION: SessionData -> bool := (d: SessionData) => SessionStatusIsFinal(d.status)

  /** A stop that runs while the start is still waiting for its browser ends with STOPPED, and then the start writes RUNNING. */
  lemma StartOverwritesStop(session: Session, env: SessionService.StartEnv, stop: SessionService.StopEnv)
    returns (trace: seq<State<SessionData>>)
    requires session.id != "" && session.requestId != "" && session.data.status.Starting?
    ensures IsRun(FINAL_SESSION, trace) && |trace| == 11
    ensures session.id in trace[9].table.rows && trace[9].table.rows[session.id].data.status.Stopped?
    ensures session.id in trace[10].table.rows && trace[10].table.rows[session.id].data.status.Running?
  {
    var running := SessionService.Started(session, env);
    trace := StopMeanwhile(session, stop);
    trace := Extend(FINAL_SESSION, trace, 0, WriteBack(running.stamp, running.data), StateOf(running, None, Some(Done)));
  }

  lemma StopMeanwhile(session: Session, stop: SessionService.StopEnv) returns (trace: seq<State<SessionData>>)
    requires session.id != "" && session.requestId != "" && session.data.status.Starting?
    ensures var halted := SessionService.Halted(SessionService.Marked(session, stop.stoppingAt), "", stop.finishedAt);
            IsRun(FINAL_SESSION, trace) && |trace| == 10 && trace[9] == StateOf(halted, Some(session), Some(Done))
  {
    var marked := SessionService.Marked(session, stop.stoppingAt);
    var halted := SessionService.Halted(marked, "", stop.finishedAt);
    trace := StartUnderWay(session);
    trace := Extend(FINAL_SESSION, trace, 1, Begin(Reading(session.id)), StateOf(session, Some(session), Some(Reading(session.id))));
    trace := Extend(FINAL_SESSION, trace, 1, Read, StateOf(session, Some(session), Some(Holding(session))));
    trace := Extend(FINAL_SESSION, trace, 1, WriteBack(marked.stamp, marked.data), StateOf(marked, Some(session), Some(Holding(marked))));
    trace := Extend(FINAL_SESSION, trace, 1, WriteBack(halted.stamp, halted.data), StateOf(halted, Some(session), Some(Done)));
  }

  /** The store holds `stored`; the start that is in effect holds `copy`, or has ended; perhaps another call is at work. */
  ghost function StateOf(stored: Session, copy: Option<Session>, other: Option<Call<SessionData>>): State<SessionData> {
    var start := if copy.None? then Done else InEffect(StartBrowserSession, copy.value);
    State(Table(map[stored.id := stored], map[stored.requestId := stored.id]),
          if other.None? then map[0 := start] else map[0 := start, 1 := other.value],
          [Effect(StartBrowserSession, stored.requestId, stored.id)], [stored.id], [stored.id])
  }

  lemma StartUnderWay(session: Session) returns (trace: seq<State<SessionData>>)
    requires session.id != "" && session.requestId != ""
    ensures IsRun(FINAL_SESSION, trace) && |trace| == 6 && trace[5] == StateOf(session, Some(session), None)
  {
    var s0: State<SessionData> := Initial();
    var table := Table(map[session.id := session], map[session.requestId := session.id]);
    var s1 := s0.(calls := map[0 := Looking(StartBrowserSession, session.requestId)]);
    var s2 := s0.(calls := map[0 := Creating(StartBrowserSession, session)]);
    var s3 := State(table, map[0 := Admitted(StartBrowserSession, session)], [], [session.id], []);
    var s4 := State(table, map[0 := Prepared(StartBrowserSession, session)], [], [session.id], [session.id]);
    trace := [s0];
    trace := Extend(FINAL_SESSION, trace, 0, Begin(Looking(StartBrowserSession, session.requestId)), s1);
    trace := Extend(FINAL_SESSION, trace, 0, LookUp(session), s2);
    trace := Extend(FINAL_SESSION, trace, 0, Insert, s3);
    trace := Extend(FINAL_SESSION, trace, 0, Prepare, s4);
    trace := Extend(FINAL_SESSION, trace, 0, TakeEffect, StateOf(session, Some(session), None));
  }

  lemma Extend<D(!new)>(final: D -> bool, trace: seq<State<D>>, t: CallId, step: Step<D>, s': State<D>) returns (longer: seq<State<D>>)
    requires IsRun(final, trace) && Next(final, trace[|trace| - 1], t, step, s')
    ensures longer == trace + [s'] && IsRun(final, longer)
  {
    longer := trace + [s'];
    assert Reaches(final, longer[|trace| - 1], longer[|trace|]);
  }
}
