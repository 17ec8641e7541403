/**
 The list queries of `internal/adapters/repository/postgres/`.  The database is an oracle for the select
 statement: it filters on the columns, orders by the time column and the key, and cuts by LIMIT and OFFSET.
 The repository asks for one row more than a page to learn whether another page follows.
 */
module Postgres {
  import opened Wrappers
  import opened Core
  import opened Listing
  import opened Entities
  import Store
  import Text

  /** The searched columns of a task row beside the encoded task; id and stamp are task_id and created_at. */
  datatype TaskColumns = TaskColumns(
    sessionId: string, status: TaskStatus, taskKey: string, scenarioKey: string, labels: map<string, string>, data: Task)

  type TaskRow = Record<TaskColumns>

  /** A session row: id and stamp are session_id and updated_at. */
  datatype SessionColumns = SessionColumns(data: Session)

  type SessionRow = Record<SessionColumns>

  /** A timestamptz keeps whole microseconds. */
  function Micros(time: int): int { time - time % 1000 }

  predicate WholeMicros(time: int) { time % 1000 == 0 }

  ghost predicate MirrorsTask(row: TaskRow, task: Task) {
    row == Record(task.id, task.requestId, Micros(task.stamp),
                  TaskColumns(task.data.sessionId, task.data.status, task.data.taskKey, task.data.scenarioKey, task.data.labels, task))
  }

  ghost predicate MirrorsSession(row: SessionRow, session: Session) {
    row == Record(session.id, session.requestId, Micros(session.stamp), SessionColumns(session))
  }

  /** The where clause of the task query, column by column. */
  predicate WhereTask(f: TaskFilter, row: TaskRow) {
    && (f.sessionId == "" || row.data.sessionId == f.sessionId)
    && (f.status == None || row.data.status == f.status.value)
    && (f.taskKey == "" || row.data.taskKey == f.taskKey)
    && (f.scenarioKey == "" || row.data.scenarioKey == f.scenarioKey)
    && (f.labelKey == "" ||
        (f.labelKey in row.data.labels && (f.labelValue == "" || row.data.labels[f.labelKey] == f.labelValue)))
    && (f.createdAfter == None || row.stamp >= Micros(f.createdAfter.value))
    && (f.createdBefore == None || row.stamp <= Micros(f.createdBefore.value))
  }

  ghost function Selected(table: set<TaskRow>, f: TaskFilter): set<TaskRow> {
    set row | row in table && WhereTask(f, row)
  }

  /** `answer` is a correct answer to `select .. order by stamp desc, id asc limit l offset o` over the selected rows. */
  ghost predicate Answers<C(!new)>(answer: seq<Record<C>>, selected: set<Record<C>>, limit: nat, offset: nat) {
    Keyed(selected) && answer == Window(ListingOf(selected), offset, limit)
  }

  function Window<T>(all: seq<T>, offset: nat, limit: nat): seq<T> {
    if offset >= |all| then [] else if offset + limit > |all| then all[offset..] else all[offset..offset + limit]
  }

  ghost predicate TasksDatabase(query: (TaskFilter, nat, nat) -> seq<TaskRow>, table: set<TaskRow>) {
    forall f, limit: nat, offset: nat {:trigger query(f, limit, offset)} ::
      Answers(query(f, limit, offset), Selected(table, f), limit, offset)
  }

  ghost predicate SessionsDatabase(query: (nat, nat) -> seq<SessionRow>, table: set<SessionRow>) {
    forall limit: nat, offset: nat {:trigger query(limit, offset)} :: Answers(query(limit, offset), table, limit, offset)
  }

  /** The rows whose columns mirror the tasks a MemoryStore holds. */
  ghost function TaskTable(tasks: map<string, Task>): set<TaskRow> {
    set id | id in tasks :: TaskRowOf(tasks[id])
  }

  ghost function TaskRowOf(task: Task): (row: TaskRow)
    ensures MirrorsTask(row, task)
  {
    Record(task.id, task.requestId, Micros(task.stamp),
           TaskColumns(task.data.sessionId, task.data.status, task.data.taskKey, task.data.scenarioKey, task.data.labels, task))
  }

  ghost function SessionTable(sessions: map<string, Session>): set<SessionRow> {
    set id | id in sessions :: SessionRowOf(sessions[id])
  }

  ghost function SessionRowOf(session: Session): (row: SessionRow)
    ensures MirrorsSession(row, session)
  {
    Record(session.id, session.requestId, Micros(session.stamp), SessionColumns(session))
  }

  // ---- decoded rows ----

  ghost function DecodeAll<C, D>(rows: seq<Record<C>>, decode: Record<C> -> Record<D>): seq<Record<D>> {
    seq(|rows|, i requires 0 <= i < |rows| => decode(rows[i]))
  }

  /** The rows decode to the given set, each under its own id and stamped to the microsecond. */
  ghost predicate Decodes<C(!new), D(!new)>(selected: set<Record<C>>, decode: Record<C> -> Record<D>, decoded: set<Record<D>>) {
    && Keyed(selected) && Keyed(decoded)
    && (forall row :: row in selected ==> DecodesRow(row, decode, decoded))
    && (forall x :: x in decoded ==> Decoded(selected, decode, x))
  }

  predicate DecodesRow<C, D(==)>(row: Record<C>, decode: Record<C> -> Record<D>, decoded: set<Record<D>>) {
    decode(row) in decoded && decode(row).id == row.id && row.stamp == Micros(decode(row).stamp)
  }

  ghost predicate Decoded<C(!new), D(!new)>(selected: set<Record<C>>, decode: Record<C> -> Record<D>, x: Record<D>) {
    exists row :: row in selected && decode(row) == x
  }

  lemma DecodedElements<C(!new), D(!new)>(selected: set<Record<C>>, decode: Record<C> -> Record<D>, decoded: set<Record<D>>)
    requires Keyed(selected)
    requires forall row :: row in selected ==> decode(row) in decoded
    requires forall x :: x in decoded ==> Decoded(selected, decode, x)
    ensures Elements(DecodeAll(ListingOf(selected), decode)) == decoded
  {
    ListedAreDecoded(ListingOf(selected), selected, decode, decoded);
    DecodedAreListed(ListingOf(selected), selected, decode, decoded);
  }

  lemma ListedAreDecoded<C(!new), D(!new)>(all: seq<Record<C>>, selected: set<Record<C>>, decode: Record<C> -> Record<D>, decoded: set<Record<D>>)
    requires Elements(all) == selected && forall row :: row in selected ==> decode(row) in decoded
    ensures Elements(DecodeAll(all, decode)) <= decoded
  {
    forall x | x in Elements(DecodeAll(all, decode)) ensures x in decoded {
      var i :| 0 <= i < |all| && DecodeAll(all, decode)[i] == x;
      assert all[i] in Elements(all);
    }
  }

  lemma DecodedAreListed<C(!new), D(!new)>(all: seq<Record<C>>, selected: set<Record<C>>, decode: Record<C> -> Record<D>, decoded: set<Record<D>>)
    requires Elements(all) == selected && forall x :: x in decoded ==> Decoded(selected, decode, x)
    ensures decoded <= Elements(DecodeAll(all, decode))
  {
    forall x | x in decoded ensures x in Elements(DecodeAll(all, decode)) {
      assert Decoded(selected, decode, x);
      var row :| row in selected && decode(row) == x;
      assert row in Elements(all);
      var i :| 0 <= i < |all| && all[i] == row;
      assert DecodeAll(all, decode)[i] == x;
    }
  }

  // ---- when the column's precision does not matter ----

  /** Rows that only differ below a microsecond happen to be ordered by id as they are by time. */
  ghost predicate OrderKept<D(!new)>(rows: set<Record<D>>) {
    forall a, b :: a in rows && b in rows ==> PairKept(a, b)
  }

  predicate PairKept<D>(a: Record<D>, b: Record<D>) {
    Micros(a.stamp) == Micros(b.stamp) && a.stamp > b.stamp ==> Text.Less(a.id, b.id)
  }

  /** The columns order a pair as the rows themselves are ordered. */
  lemma PairOrdered<C, D>(x: Record<C>, y: Record<C>, a: Record<D>, b: Record<D>)
    requires x.id == a.id && y.id == b.id && x.stamp == Micros(a.stamp) && y.stamp == Micros(b.stamp)
    requires Before(x, y)
    ensures PairKept(b, a) ==> !Before(b, a)
    ensures a.stamp > b.stamp ==> PairKept(a, b)
  {
    Text.LessTrichotomy(a.id, b.id);
  }

  lemma SortedIfKept<C(!new), D(!new)>(selected: set<Record<C>>, decode: Record<C> -> Record<D>, decoded: set<Record<D>>)
    requires Decodes(selected, decode, decoded) && OrderKept(decoded)
    ensures DecodeAll(ListingOf(selected), decode) == ListingOf(decoded)
  {
    var all := ListingOf(selected);
    var out := DecodeAll(all, decode);
    DecodedElements(selected, decode, decoded);
    forall i, j | 0 <= i < j < |out| ensures out[i].id != out[j].id && !Before(out[j], out[i]) {
      assert all[i] in Elements(all) && all[j] in Elements(all);
      assert DecodesRow(all[i], decode, decoded) && DecodesRow(all[j], decode, decoded);
      SortedStrictly(all, i, j);
      PairOrdered(all[i], all[j], out[i], out[j]);
    }
    ListingUnique(out, ListingOf(decoded), decoded);
  }

  lemma EarlierIfBefore<D(!new)>(s: seq<Record<D>>, i: nat, j: nat)
    requires Sorted(s) && i < |s| && j < |s| && Before(s[i], s[j])
    ensures i < j
  {
    BeforeTrichotomy(s[i], s[j]);
  }

  lemma KeptIfSorted<C(!new), D(!new)>(selected: set<Record<C>>, decode: Record<C> -> Record<D>, decoded: set<Record<D>>)
    requires Decodes(selected, decode, decoded) && DecodeAll(ListingOf(selected), decode) == ListingOf(decoded)
    ensures OrderKept(decoded)
  {
    var all, out := ListingOf(selected), ListingOf(decoded);
    forall a, b | a in decoded && b in decoded && Micros(a.stamp) == Micros(b.stamp) && a.stamp > b.stamp ensures PairKept(a, b) {
      assert a in Elements(out) && b in Elements(out);
      var i :| 0 <= i < |out| && out[i] == a;
      var j :| 0 <= j < |out| && out[j] == b;
      EarlierIfBefore(out, i, j);
      assert all[i] in Elements(all) && all[j] in Elements(all);
      assert DecodesRow(all[i], decode, decoded) && DecodesRow(all[j], decode, decoded);
      SortedStrictly(all, i, j);
      PairOrdered(all[i], all[j], a, b);
    }
  }

  /** The column order lists the decoded rows as MemoryStore does exactly if the order below a microsecond is kept. */
  lemma ListedAlikeIff<C(!new), D(!new)>(selected: set<Record<C>>, decode: Record<C> -> Record<D>, decoded: set<Record<D>>)
    requires Decodes(selected, decode, decoded)
    ensures DecodeAll(ListingOf(selected), decode) == ListingOf(decoded) <==> OrderKept(decoded)
  {
    if OrderKept(decoded) {
      SortedIfKept(selected, decode, decoded);
    } else if DecodeAll(ListingOf(selected), decode) == ListingOf(decoded) {
      KeptIfSorted(selected, decode, decoded);
    }
  }

  function DecodeTask(row: TaskRow): Task { row.data.data }

  function DecodeSession(row: SessionRow): Session { row.data.data }

  lemma DecodedWindow<C, D>(all: seq<Record<C>>, decode: Record<C> -> Record<D>, offset: nat, limit: nat)
    ensures DecodeAll(Window(all, offset, limit), decode) == Window(DecodeAll(all, decode), offset, limit)
  {
  }

  /** One row beyond the page tells whether a next page exists. */
  lemma PageOfWindow<D>(all: seq<Record<D>>, offset: nat, size: nat)
    ensures var rows := Window(all, offset, size + 1);
            PageAt(all, offset, size) ==
              if |rows| > size then Page(rows[..size], PageToken(offset + size)) else Page(rows, "")
  {
  }

  // ---- pages ----

  /** The page of a listing for a request. */
  function PageFor<D>(all: seq<Record<D>>, size: int, token: string): Result<Page<D>, ErrorCode> {
    match ParsePageToken(token)
    case Err(e) => Err(e)
    case Ok(offset) => Ok(PageAt(all, offset, NormalizePageSize(size)))
  }

  /** Two listings give the same page for every size and token. */
  ghost predicate PagesAlike<D(!new)>(a: seq<Record<D>>, b: seq<Record<D>>) {
    forall size: int, token: string :: PageFor(a, size, token) == PageFor(b, size, token)
  }

  lemma OneRow<D>(a: seq<Record<D>>, i: nat)
    ensures PageAt(a, i, 1).rows == if i < |a| then [a[i]] else []
  {
  }

  lemma PagesOfOne<D(!new)>(a: seq<Record<D>>, b: seq<Record<D>>, i: nat)
    requires PagesAlike(a, b) && i < |a| <= Text.MAX_INT64
    ensures i < |b| && b[i] == a[i]
  {
    PageTokenRoundTrip(i);
    assert PageFor(a, 1, PageToken(i)) == PageFor(b, 1, PageToken(i));
    assert NormalizePageSize(1) == 1;
    assert PageAt(a, i, 1) == PageAt(b, i, 1);
    OneRow(a, i);
    OneRow(b, i);
  }

  lemma PagesAlikeIff<D(!new)>(a: seq<Record<D>>, b: seq<Record<D>>)
    requires |a| <= Text.MAX_INT64 && |b| <= Text.MAX_INT64
    ensures PagesAlike(a, b) <==> a == b
  {
    if PagesAlike(a, b) {
      forall i | 0 <= i < |a| ensures i < |b| && b[i] == a[i] {
        PagesOfOne(a, b, i);
      }
      if b != [] {
        PagesOfOne(b, a, |b| - 1);
      }
      if a != [] {
        PagesOfOne(a, b, |a| - 1);
      }
    }
  }

  // ---- tasks ----

  /** The filter an absent one stands for. */
  function FilterOf(filter: Option<TaskFilter>): TaskFilter {
    if filter.None? then TaskFilter("", None, "", "", "", "", None, None) else filter.value
  }

  /** What a filter asks beside its time bounds. */
  predicate MatchesBeside(f: TaskFilter, task: Task) {
    Store.TaskMatches(Some(f.(createdAfter := None, createdBefore := None)), task)
  }

  predicate Within(f: TaskFilter, stamp: int) {
    (f.createdAfter.Some? ==> stamp >= f.createdAfter.value) && (f.createdBefore.Some? ==> stamp <= f.createdBefore.value)
  }

  /** The bounds as the columns judge them. */
  predicate WithinMicros(f: TaskFilter, stamp: int) {
    && (f.createdAfter.Some? ==> Micros(stamp) >= Micros(f.createdAfter.value))
    && (f.createdBefore.Some? ==> Micros(stamp) <= Micros(f.createdBefore.value))
  }

  /** Time bounds and columns judge every task alike that the rest of the filter lets through. */
  ghost predicate BoundsAlike(tasks: map<string, Task>, f: TaskFilter) {
    forall id :: id in tasks && MatchesBeside(f, tasks[id]) ==> (Within(f, tasks[id].stamp) <==> WithinMicros(f, tasks[id].stamp))
  }

  lemma SelectedIff(task: Task, filter: Option<TaskFilter>)
    ensures var f := FilterOf(filter);
            && (WhereTask(f, TaskRowOf(task)) <==> MatchesBeside(f, task) && WithinMicros(f, task.stamp))
            && (Store.TaskMatches(filter, task) <==> MatchesBeside(f, task) && Within(f, task.stamp))
  {
  }

  /** The rows the database selects, decoded. */
  ghost function SelectedTasks(tasks: map<string, Task>, f: TaskFilter): set<Task> {
    set id | id in tasks && WhereTask(f, TaskRowOf(tasks[id])) :: tasks[id]
  }

  /** The where clause selects the rows of exactly the tasks taskMatches accepts if and only if bounds and columns judge alike. */
  lemma TasksSelectedAlikeIff(tasks: map<string, Task>, filter: Option<TaskFilter>)
    requires Store.RowsKeyed(tasks)
    ensures SelectedTasks(tasks, FilterOf(filter)) == Store.MatchingTasks(tasks, filter) <==> BoundsAlike(tasks, FilterOf(filter))
  {
    var f := FilterOf(filter);
    var selected, matching := SelectedTasks(tasks, f), Store.MatchingTasks(tasks, filter);
    forall id | id in tasks ensures (tasks[id] in selected <==> MatchesBeside(f, tasks[id]) && WithinMicros(f, tasks[id].stamp)) &&
                                    (tasks[id] in matching <==> MatchesBeside(f, tasks[id]) && Within(f, tasks[id].stamp)) {
      SelectedIff(tasks[id], filter);
    }
    assert forall x :: x in selected || x in matching ==> x.id in tasks && tasks[x.id] == x;
  }

  lemma TaskRowsDecode(tasks: map<string, Task>, f: TaskFilter)
    requires Store.RowsKeyed(tasks)
    ensures Keyed(Selected(TaskTable(tasks), f)) && Keyed(SelectedTasks(tasks, f))
    ensures Decodes(Selected(TaskTable(tasks), f), DecodeTask, SelectedTasks(tasks, f))
  {
    var selected, decoded := Selected(TaskTable(tasks), f), SelectedTasks(tasks, f);
    forall x | x in decoded ensures Decoded(selected, DecodeTask, x) {
      assert TaskRowOf(x) in selected && DecodeTask(TaskRowOf(x)) == x;
    }
    forall row | row in selected ensures DecodesRow(row, DecodeTask, decoded) {
      var id :| id in tasks && TaskRowOf(tasks[id]) == row;
      assert tasks[id] in decoded;
    }
  }

  /** What the repository lists. */
  ghost function DatabaseTasks(tasks: map<string, Task>, f: TaskFilter): seq<Task>
    requires Store.RowsKeyed(tasks)
  {
    TaskRowsDecode(tasks, f);
    DecodeAll(ListingOf(Selected(TaskTable(tasks), f)), DecodeTask)
  }

  ghost function MemoryTasks(tasks: map<string, Task>, filter: Option<TaskFilter>): seq<Task>
    requires Store.RowsKeyed(tasks)
  {
    ListingOf(Store.MatchingTasks(tasks, filter))
  }

  lemma TasksListedAlikeIff(tasks: map<string, Task>, filter: Option<TaskFilter>)
    requires Store.RowsKeyed(tasks)
    ensures DatabaseTasks(tasks, FilterOf(filter)) == MemoryTasks(tasks, filter) <==>
            BoundsAlike(tasks, FilterOf(filter)) && OrderKept(Store.MatchingTasks(tasks, filter))
  {
    var f := FilterOf(filter);
    var rows, decoded := Selected(TaskTable(tasks), f), SelectedTasks(tasks, f);
    TaskRowsDecode(tasks, f);
    TasksSelectedAlikeIff(tasks, filter);
    if BoundsAlike(tasks, f) {
      ListedAlikeIff(rows, DecodeTask, decoded);
    } else {
      DecodedElements(rows, DecodeTask, decoded);
      assert Elements(MemoryTasks(tasks, filter)) == Store.MatchingTasks(tasks, filter);
    }
  }

  /**
   The two stores page alike, for every size and token under a filter, if and only if the time bounds judge as
   the columns do and the matching tasks that differ only below a microsecond are ordered by id as by time.
   */
  lemma TaskPagesAlikeIff(tasks: map<string, Task>, filter: Option<TaskFilter>)
    requires Store.RowsKeyed(tasks)
    requires |DatabaseTasks(tasks, FilterOf(filter))| <= Text.MAX_INT64 && |MemoryTasks(tasks, filter)| <= Text.MAX_INT64
    ensures PagesAlike(DatabaseTasks(tasks, FilterOf(filter)), MemoryTasks(tasks, filter)) <==>
            BoundsAlike(tasks, FilterOf(filter)) && OrderKept(Store.MatchingTasks(tasks, filter))
  {
    TasksListedAlikeIff(tasks, filter);
    PagesAlikeIff(DatabaseTasks(tasks, FilterOf(filter)), MemoryTasks(tasks, filter));
  }

  /** The times of tasks and filter are at the column's precision. */
  ghost predicate AtPrecision(tasks: map<string, Task>, f: TaskFilter) {
    && (forall id :: id in tasks ==> WholeMicros(tasks[id].stamp))
    && (forall t :: f.createdAfter == Some(t) ==> WholeMicros(t))
  }

  /** Rounding down leaves the comparison with a whole time as it is. */
  lemma RoundedAlike(whole: int, time: int)
    requires WholeMicros(whole)
    ensures time >= whole <==> Micros(time) >= Micros(whole)
  {
  }

  lemma BoundsAtPrecision(tasks: map<string, Task>, f: TaskFilter)
    requires AtPrecision(tasks, f)
    ensures BoundsAlike(tasks, f)
  {
    forall id | id in tasks ensures Within(f, tasks[id].stamp) <==> WithinMicros(f, tasks[id].stamp) {
      var stamp := tasks[id].stamp;
      if f.createdAfter.Some? {
        RoundedAlike(f.createdAfter.value, stamp);
      }
      if f.createdBefore.Some? {
        RoundedAlike(stamp, f.createdBefore.value);
      }
    }
  }

  lemma KeptAtPrecision(tasks: map<string, Task>, filter: Option<TaskFilter>)
    requires AtPrecision(tasks, FilterOf(filter))
    ensures OrderKept(Store.MatchingTasks(tasks, filter))
  {
    var matching := Store.MatchingTasks(tasks, filter);
    forall a, b | a in matching && b in matching ensures PairKept(a, b) {
      assert WholeMicros(a.stamp) && WholeMicros(b.stamp);
    }
  }

  lemma TasksAtPrecision(tasks: map<string, Task>, filter: Option<TaskFilter>)
    requires Store.RowsKeyed(tasks) && AtPrecision(tasks, FilterOf(filter))
    ensures DatabaseTasks(tasks, FilterOf(filter)) == MemoryTasks(tasks, filter)
  {
    BoundsAtPrecision(tasks, FilterOf(filter));
    KeptAtPrecision(tasks, filter);
    TasksListedAlikeIff(tasks, filter);
  }

  // ---- sessions ----

  lemma SessionRowsDecode(sessions: map<string, Session>)
    requires Store.RowsKeyed(sessions)
    ensures Keyed(SessionTable(sessions)) && Decodes(SessionTable(sessions), DecodeSession, sessions.Values)
  {
    var table := SessionTable(sessions);
    forall x | x in sessions.Values ensures Decoded(table, DecodeSession, x) {
      assert SessionRowOf(x) in table && DecodeSession(SessionRowOf(x)) == x;
    }
    forall row | row in table ensures DecodesRow(row, DecodeSession, sessions.Values) {
      var id :| id in sessions && SessionRowOf(sessions[id]) == row;
    }
  }

  ghost function DatabaseSessions(sessions: map<string, Session>): seq<Session>
    requires Store.RowsKeyed(sessions)
  {
    SessionRowsDecode(sessions);
    DecodeAll(ListingOf(SessionTable(sessions)), DecodeSession)
  }

  ghost function MemorySessions(sessions: map<string, Session>): seq<Session>
    requires Store.RowsKeyed(sessions)
  {
    ListingOf(sessions.Values)
  }

  lemma SessionsListedAlikeIff(sessions: map<string, Session>)
    requires Store.RowsKeyed(sessions)
    ensures DatabaseSessions(sessions) == MemorySessions(sessions) <==> OrderKept(sessions.Values)
  {
    SessionRowsDecode(sessions);
    ListedAlikeIff(SessionTable(sessions), DecodeSession, sessions.Values);
  }

  /** The two stores page sessions alike, for every size and token, if and only if the order below a microsecond is kept. */
  lemma SessionPagesAlikeIff(sessions: map<string, Session>)
    requires Store.RowsKeyed(sessions)
    requires |DatabaseSessions(sessions)| <= Text.MAX_INT64 && |MemorySessions(sessions)| <= Text.MAX_INT64
    ensures PagesAlike(DatabaseSessions(sessions), MemorySessions(sessions)) <==> OrderKept(sessions.Values)
  {
    SessionsListedAlikeIff(sessions);
    PagesAlikeIff(DatabaseSessions(sessions), MemorySessions(sessions));
  }

  // ---- the two repository methods ----

  /** The row loop both methods run: keep a page, remember whether a row was left over. */
  method ReadRows<C, D>(rows: seq<Record<C>>, decode: Record<C> -> Record<D>, pageSize: nat)
    returns (page: seq<Record<D>>, hasMore: bool)
    ensures hasMore <==> |DecodeAll(rows, decode)| > pageSize
    ensures page == if hasMore then DecodeAll(rows, decode)[..pageSize] else DecodeAll(rows, decode)
  {
    page, hasMore := [], false;
    for i := 0 to |rows|
      invariant page == DecodeAll(rows, decode)[..if i < pageSize then i else pageSize]
      invariant hasMore <==> i > pageSize
    {
      if |page| == pageSize {
        hasMore := true;
      } else {
        page := page + [decode(rows[i])];
      }
    }
  }

  /** The row loop with the token it decides on: the page of the listing that the rows are a window of. */
  method ReadPage<C, D>(rows: seq<Record<C>>, decode: Record<C> -> Record<D>, offset: nat, pageSize: nat, ghost all: seq<Record<C>>)
    returns (r: Page<D>)
    requires rows == Window(all, offset, pageSize + 1)
    ensures r == PageAt(DecodeAll(all, decode), offset, pageSize)
  {
    DecodedWindow(all, decode, offset, pageSize + 1);
    PageOfWindow(DecodeAll(all, decode), offset, pageSize);
    var page, hasMore := ReadRows(rows, decode, pageSize);
    return Page(page, if hasMore then PageToken(offset + pageSize) else "");
  }

  /** Pages through what the database lists, which is what a MemoryStore lists exactly under the conditions of TasksListedAlikeIff. */
  method ListTasks(query: (TaskFilter, nat, nat) -> seq<TaskRow>, filter: Option<TaskFilter>, size: int, token: string,
                   ghost tasks: map<string, Task>)
    returns (r: Result<Page<TaskData>, ErrorCode>)
    requires Store.RowsKeyed(tasks) && TasksDatabase(query, TaskTable(tasks))
    ensures r == PageFor(DatabaseTasks(tasks, FilterOf(filter)), size, token)
    ensures BoundsAlike(tasks, FilterOf(filter)) && OrderKept(Store.MatchingTasks(tasks, filter)) ==> r == Store.TaskPage(tasks, filter, size, token)
    ensures AtPrecision(tasks, FilterOf(filter)) ==> r == Store.TaskPage(tasks, filter, size, token)
  {
    ghost var f := FilterOf(filter);
    TasksListedAlikeIff(tasks, filter);
    if AtPrecision(tasks, f) {
      TasksAtPrecision(tasks, filter);
    }
    var parsed := ParsePageToken(token);
    if parsed.Err? {
      return Err(parsed.error);
    }
    var offset, pageSize := parsed.value, NormalizePageSize(size);
    var rows := query(FilterOf(filter), pageSize + 1, offset);
    assert Answers(rows, Selected(TaskTable(tasks), f), pageSize + 1, offset);
    var page := ReadPage(rows, DecodeTask, offset, pageSize, ListingOf(Selected(TaskTable(tasks), f)));
    return Ok(page);
  }

  method ListSessions(query: (nat, nat) -> seq<SessionRow>, size: int, token: string, ghost sessions: map<string, Session>)
    returns (r: Result<Page<SessionData>, ErrorCode>)
    requires Store.RowsKeyed(sessions) && SessionsDatabase(query, SessionTable(sessions))
    ensures r == PageFor(DatabaseSessions(sessions), size, token)
    ensures OrderKept(sessions.Values) ==> r == Store.SessionPage(sessions, size, token)
  {
    SessionsListedAlikeIff(sessions);
    var parsed := ParsePageToken(token);
    if parsed.Err? {
      return Err(parsed.error);
    }
    var offset, pageSize := parsed.value, NormalizePageSize(size);
    var rows := query(pageSize + 1, offset);
    assert Answers(rows, SessionTable(sessions), pageSize + 1, offset);
    var page := ReadPage(rows, DecodeSession, offset, pageSize, ListingOf(SessionTable(sessions)));
    return Ok(page);
  }

  /** Below a microsecond the two stores may order rows differently: MemoryStore by the time, the database by the id. */
  lemma SubMicrosecondOrderDiffers(a: Task, b: Task)
    requires a.stamp == 1500 && a.id == "b" && b.stamp == 1200 && b.id == "a"
    ensures Before(a, b) && Before(TaskRowOf(b), TaskRowOf(a))
    ensures !OrderKept({a, b})
  {
    assert Text.Less("a", "b") && !PairKept(a, b);
  }
}
