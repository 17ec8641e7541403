/**
 The store of `internal/app/memory_session.go` and `internal/app/memory_task.go`.  Sessions and tasks
 are kept alike: a map from id to row beside an index from request id to id, guarded by one lock.
 `Table` is the value of one such pair and its functions are the effects of the locked regions.
 */
module Store {
  import opened Wrappers
  import opened Core
  import opened Listing
  import opened Entities

  datatype Table<D> = Table(rows: map<string, Record<D>>, index: map<string, string>)

  /** CreateSession, CreateTask: the check and the insertion are one atomic step. */
  function Create<D>(t: Table<D>, row: Record<D>): Result<Table<D>, ErrorCode> {
    if row.id == "" then Err(ValidationFailed)
    else if row.id in t.rows then Err(ValidationFailed)
    else if row.requestId != "" && row.requestId in t.index then Err(ValidationFailed)
    else Ok(Table(
              t.rows[row.id := row],
              if row.requestId != "" then t.index[row.requestId := row.id] else t.index))
  }

  function Get<D>(t: Table<D>, id: string, notFound: ErrorCode): Result<Record<D>, ErrorCode> {
    if id == "" then Err(ValidationFailed)
    else if id !in t.rows then Err(notFound)
    else Ok(t.rows[id])
  }

  /** Ok(None) stands for the nil row that an index entry without a row would give. */
  function GetByRequestID<D>(t: Table<D>, requestId: string, notFound: ErrorCode): Result<Option<Record<D>>, ErrorCode> {
    if requestId == "" then Err(ValidationFailed)
    else if requestId !in t.index then Err(notFound)
    else if t.index[requestId] in t.rows then Ok(Some(t.rows[t.index[requestId]]))
    else Ok(None)
  }

  function Update<D>(t: Table<D>, row: Record<D>, notFound: ErrorCode): Result<Table<D>, ErrorCode> {
    if row.id == "" then Err(ValidationFailed)
    else if row.id !in t.rows then Err(notFound)
    else Ok(Table(
              t.rows[row.id := row],
              if row.requestId != "" then t.index[row.requestId := row.id] else t.index))
  }

  // ---- the request-id index ----

  ghost predicate RowsKeyed<D(!new)>(rows: map<string, Record<D>>) {
    forall id :: id in rows ==> id != "" && rows[id].id == id
  }

  /** Rows are filed under their own ids, and index and rows are mutually inverse on non-empty request ids. */
  ghost predicate Coherent<D(!new)>(t: Table<D>) {
    && RowsKeyed(t.rows)
    && (forall r :: r in t.index ==> r != "" && t.index[r] in t.rows && t.rows[t.index[r]].requestId == r)
    && (forall id :: id in t.rows && t.rows[id].requestId != "" ==>
          t.rows[id].requestId in t.index && t.index[t.rows[id].requestId] == id)
  }

  lemma CreateCoherent<D(!new)>(t: Table<D>, row: Record<D>)
    requires Coherent(t)
    ensures Create(t, row).Ok? ==> Coherent(Create(t, row).value)
    ensures Create(t, row).Ok? <==>
            row.id != "" && row.id !in t.rows && forall id :: id in t.rows && row.requestId != "" ==> t.rows[id].requestId != row.requestId
  {
  }

  /**
   UpdateSession trusts the caller with request_id.  It keeps the index right exactly when the row keeps
   its request id, or had none and takes one that no other row holds.
   */
  lemma UpdateCoherentIff<D(!new)>(t: Table<D>, row: Record<D>, notFound: ErrorCode)
    requires Coherent(t) && Update(t, row, notFound).Ok?
    ensures Coherent(Update(t, row, notFound).value) <==>
            var before := t.rows[row.id].requestId;
            row.requestId == before || (before == "" && row.requestId !in t.index)
  {
    var before := t.rows[row.id].requestId;
    var t' := Update(t, row, notFound).value;
    if row.requestId != before {
      if before != "" {
        assert t'.index[before] == row.id;
      } else if row.requestId in t.index {
        var other := t.index[row.requestId];
        assert t'.rows[other].requestId == row.requestId && t'.index[row.requestId] == row.id;
      }
    }
  }

  datatype Op<D> = CreateOp(row: Record<D>) | UpdateOp(row: Record<D>)

  function Apply<D>(t: Table<D>, op: Op<D>): Table<D> {
    var outcome := if op.CreateOp? then Create(t, op.row) else Update(t, op.row, SessionNotFound);
    if outcome.Ok? then outcome.value else t
  }

  function ApplyAll<D>(t: Table<D>, ops: seq<Op<D>>): Table<D> {
    if ops == [] then t else Apply(ApplyAll(t, ops[..|ops| - 1]), ops[|ops| - 1])
  }

  /** Every update in the run keeps the request id its row was created with. */
  ghost predicate KeepsRequestIds<D(!new)>(ops: seq<Op<D>>) {
    forall i, j :: 0 <= i < |ops| && 0 <= j < |ops| && ops[i].row.id == ops[j].row.id ==>
      ops[i].row.requestId == ops[j].row.requestId
  }

  ghost predicate WrittenBy<D(!new)>(ops: seq<Op<D>>, row: Record<D>) {
    exists i :: 0 <= i < |ops| && ops[i].row == row
  }

  lemma ApplyKeeps<D(!new)>(init: seq<Op<D>>, last: Op<D>, t: Table<D>)
    requires KeepsRequestIds(init + [last]) && Coherent(t)
    requires forall id :: id in t.rows ==> WrittenBy(init, t.rows[id])
    ensures Coherent(Apply(t, last))
    ensures forall id :: id in Apply(t, last).rows ==> WrittenBy(init + [last], Apply(t, last).rows[id])
  {
    var ops, t' := init + [last], Apply(t, last);
    if last.UpdateOp? && Update(t, last.row, SessionNotFound).Ok? {
      var i :| 0 <= i < |init| && init[i].row == t.rows[last.row.id];
      assert ops[i].row == init[i].row && ops[|init|].row == last.row;
      UpdateCoherentIff(t, last.row, SessionNotFound);
    } else {
      CreateCoherent(t, last.row);
    }
    forall id | id in t'.rows ensures WrittenBy(ops, t'.rows[id]) {
      if t'.rows[id] == last.row {
        assert ops[|init|].row == t'.rows[id];
      } else {
        var i :| 0 <= i < |init| && init[i].row == t.rows[id];
        assert ops[i].row == t'.rows[id];
      }
    }
  }

  /** The index invariant over whole runs from the empty store. */
  lemma {:induction false} IndexInvariant<D(!new)>(ops: seq<Op<D>>)
    requires KeepsRequestIds(ops)
    ensures Coherent(ApplyAll(Table(map[], map[]), ops))
    ensures forall id :: id in ApplyAll(Table(map[], map[]), ops).rows ==> WrittenBy(ops, ApplyAll(Table(map[], map[]), ops).rows[id])
  {
    if ops != [] {
      var init, last := ops[..|ops| - 1], ops[|ops| - 1];
      assert ops == init + [last];
      IndexInvariant(init);
      ApplyKeeps(init, last, ApplyAll(Table(map[], map[]), init));
    }
  }

  // ---- filters ----

  /** taskMatches: its early returns, in their order. */
  predicate TaskMatches(filter: Option<TaskFilter>, task: Task) {
    filter.None? ||
    var f := filter.value;
    if f.sessionId != "" && task.data.sessionId != f.sessionId then false
    else if f.status.Some? && task.data.status != f.status.value then false
    else if f.taskKey != "" && task.data.taskKey != f.taskKey then false
    else if f.scenarioKey != "" && task.data.scenarioKey != f.scenarioKey then false
    else if f.labelKey != "" &&
            (f.labelKey !in task.data.labels ||
             (f.labelValue != "" && task.data.labels[f.labelKey] != f.labelValue)) then false
    else if f.createdAfter.Some? && task.stamp < f.createdAfter.value then false
    else if f.createdBefore.Some? && task.stamp > f.createdBefore.value then false
    else true
  }

  ghost function MatchingTasks(rows: map<string, Task>, filter: Option<TaskFilter>): set<Task> {
    set id | id in rows && TaskMatches(filter, rows[id]) :: rows[id]
  }

  // ---- what the two list methods return ----

  ghost function SessionPage(rows: map<string, Session>, size: int, token: string): Result<Page<SessionData>, ErrorCode>
    requires RowsKeyed(rows)
  {
    match ParsePageToken(token)
    case Err(e) => Err(e)
    case Ok(offset) => Ok(PageAt(ListingOf(rows.Values), offset, NormalizePageSize(size)))
  }

  ghost function TaskPage(rows: map<string, Task>, filter: Option<TaskFilter>, size: int, token: string): Result<Page<TaskData>, ErrorCode>
    requires RowsKeyed(rows)
  {
    match ParsePageToken(token)
    case Err(e) => Err(e)
    case Ok(offset) => Ok(PageAt(ListingOf(MatchingTasks(rows, filter)), offset, NormalizePageSize(size)))
  }

  class MemoryStore {
    var sessions: map<string, Session>
    var sessionRequestID: map<string, string>
    var tasks: map<string, Task>
    var taskRequestID: map<string, string>

    /** Both pairs of maps are coherent; every method keeps it, an update if the row keeps its request id. */
    ghost predicate Valid() reads this {
      Coherent(Sessions()) && Coherent(Tasks())
    }

    function Sessions(): Table<SessionData> reads this { Table(sessions, sessionRequestID) }

    function Tasks(): Table<TaskData> reads this { Table(tasks, taskRequestID) }

    constructor ()
      ensures Valid()
      ensures Sessions() == Table(map[], map[]) && Tasks() == Table(map[], map[])
    {
      sessions, sessionRequestID := map[], map[];
      tasks, taskRequestID := map[], map[];
    }

    method CreateSession(session: Session) returns (r: Result<(), ErrorCode>)
      modifies this`sessions, this`sessionRequestID
      ensures Create(old(Sessions()), session).Ok? ==> r.Ok? && Sessions() == Create(old(Sessions()), session).value
      ensures Create(old(Sessions()), session).Err? ==> r == Err(Create(old(Sessions()), session).error) && Sessions() == old(Sessions())
      ensures old(Valid()) ==> Valid()
    {
      if Coherent(Sessions()) {
        CreateCoherent(Sessions(), session);
      }
      if session.id == "" {
        return Err(ValidationFailed);
      }
      if session.id in sessions {
        return Err(ValidationFailed);
      }
      if session.requestId != "" {
        if session.requestId in sessionRequestID {
          return Err(ValidationFailed);
        }
        sessionRequestID := sessionRequestID[session.requestId := session.id];
      }
      sessions := sessions[session.id := session];
      return Ok(());
    }

    method GetSession(id: string) returns (r: Result<Session, ErrorCode>)
      ensures r == Get(Sessions(), id, SessionNotFound)
    {
      if id == "" {
        return Err(ValidationFailed);
      }
      if id !in sessions {
        return Err(SessionNotFound);
      }
      return Ok(sessions[id]);
    }

    method GetSessionByRequestID(requestId: string) returns (r: Result<Option<Session>, ErrorCode>)
      ensures r == GetByRequestID(Sessions(), requestId, SessionNotFound)
      ensures Valid() ==>
                (r.Ok? ==> r.value.Some? && r.value.value.requestId == requestId) &&
                (r == Err(SessionNotFound) ==> forall id :: id in sessions ==> sessions[id].requestId != requestId)
    {
      if requestId == "" {
        return Err(ValidationFailed);
      }
      if requestId !in sessionRequestID {
        return Err(SessionNotFound);
      }
      var id := sessionRequestID[requestId];
      return Ok(if id in sessions then Some(sessions[id]) else None);
    }

    method UpdateSession(session: Session) returns (r: Result<(), ErrorCode>)
      modifies this`sessions, this`sessionRequestID
      ensures Update(old(Sessions()), session, SessionNotFound).Ok? ==>
                r.Ok? && Sessions() == Update(old(Sessions()), session, SessionNotFound).value
      ensures Update(old(Sessions()), session, SessionNotFound).Err? ==>
                r == Err(Update(old(Sessions()), session, SessionNotFound).error) && Sessions() == old(Sessions())
      ensures old(Valid()) && (session.id in old(sessions) ==> old(sessions)[session.id].requestId == session.requestId) ==> Valid()
    {
      if session.id == "" {
        return Err(ValidationFailed);
      }
      if session.id !in sessions {
        return Err(SessionNotFound);
      }
      sessions := sessions[session.id := session];
      if session.requestId != "" {
        sessionRequestID := sessionRequestID[session.requestId := session.id];
      }
      return Ok(());
    }

    method ListSessions(size: int, token: string) returns (r: Result<Page<SessionData>, ErrorCode>)
      requires RowsKeyed(sessions)
      ensures r == SessionPage(sessions, size, token)
    {
      var parsed := ParsePageToken(token);
      if parsed.Err? {
        return Err(parsed.error);
      }
      var pageSize := NormalizePageSize(size);
      var collected: seq<Session> := [];
      var rest := sessions.Keys;
      while rest != {}
        invariant rest <= sessions.Keys
        invariant forall id :: id in sessions && id !in rest ==> sessions[id] in collected
        invariant forall i :: 0 <= i < |collected| ==>
                    collected[i].id in sessions && collected[i].id !in rest && collected[i] == sessions[collected[i].id]
        invariant DistinctIds(collected)
      {
        var id :| id in rest;
        collected := collected + [sessions[id]];
        rest := rest - {id};
      }
      assert Elements(collected) == sessions.Values;
      SortIsListing(collected);
      ListingUnique(Sort(collected), ListingOf(sessions.Values), sessions.Values);
      return Ok(PageAt(Sort(collected), parsed.value, pageSize));
    }

    method CreateTask(task: Task) returns (r: Result<(), ErrorCode>)
      modifies this`tasks, this`taskRequestID
      ensures Create(old(Tasks()), task).Ok? ==> r.Ok? && Tasks() == Create(old(Tasks()), task).value
      ensures Create(old(Tasks()), task).Err? ==> r == Err(Create(old(Tasks()), task).error) && Tasks() == old(Tasks())
      ensures old(Valid()) ==> Valid()
    {
      if Coherent(Tasks()) {
        CreateCoherent(Tasks(), task);
      }
      if task.id == "" {
        return Err(ValidationFailed);
      }
      if task.id in tasks {
        return Err(ValidationFailed);
      }
      if task.requestId != "" {
        if task.requestId in taskRequestID {
          return Err(ValidationFailed);
        }
        taskRequestID := taskRequestID[task.requestId := task.id];
      }
      tasks := tasks[task.id := task];
      return Ok(());
    }

    method GetTaskByRequestID(requestId: string) returns (r: Result<Option<Task>, ErrorCode>)
      ensures r == GetByRequestID(Tasks(), requestId, TaskNotFound)
    {
      if requestId == "" {
        return Err(ValidationFailed);
      }
      if requestId !in taskRequestID {
        return Err(TaskNotFound);
      }
      var id := taskRequestID[requestId];
      return Ok(if id in tasks then Some(tasks[id]) else None);
    }

    method UpdateTask(task: Task) returns (r: Result<(), ErrorCode>)
      modifies this`tasks, this`taskRequestID
      ensures Update(old(Tasks()), task, TaskNotFound).Ok? ==>
                r.Ok? && Tasks() == Update(old(Tasks()), task, TaskNotFound).value
      ensures Update(old(Tasks()), task, TaskNotFound).Err? ==>
                r == Err(Update(old(Tasks()), task, TaskNotFound).error) && Tasks() == old(Tasks())
      ensures old(Valid()) && (task.id in old(tasks) ==> old(tasks)[task.id].requestId == task.requestId) ==> Valid()
    {
      if task.id == "" {
        return Err(ValidationFailed);
      }
      if task.id !in tasks {
        return Err(TaskNotFound);
      }
      tasks := tasks[task.id := task];
      if task.requestId != "" {
        taskRequestID := taskRequestID[task.requestId := task.id];
      }
      return Ok(());
    }

    method ListTasks(filter: Option<TaskFilter>, size: int, token: string) returns (r: Result<Page<TaskData>, ErrorCode>)
      requires RowsKeyed(tasks)
      ensures r == TaskPage(tasks, filter, size, token)
    {
      var parsed := ParsePageToken(token);
      if parsed.Err? {
        return Err(parsed.error);
      }
      var pageSize := NormalizePageSize(size);
      var matched: seq<Task> := [];
      var rest := tasks.Keys;
      while rest != {}
        invariant rest <= tasks.Keys
        invariant forall id :: id in tasks && id !in rest && TaskMatches(filter, tasks[id]) ==> tasks[id] in matched
        invariant forall i :: 0 <= i < |matched| ==>
                    matched[i].id in tasks && matched[i].id !in rest &&
                    matched[i] == tasks[matched[i].id] && TaskMatches(filter, matched[i])
        invariant DistinctIds(matched)
      {
        var id :| id in rest;
        if TaskMatches(filter, tasks[id]) {
          matched := matched + [tasks[id]];
        }
        rest := rest - {id};
      }
      assert Elements(matched) == MatchingTasks(tasks, filter);
      SortIsListing(matched);
      ListingUnique(Sort(matched), ListingOf(MatchingTasks(tasks, filter)), MatchingTasks(tasks, filter));
      return Ok(PageAt(Sort(matched), parsed.value, pageSize));
    }
  }
}
