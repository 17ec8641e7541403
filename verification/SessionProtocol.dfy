/**
 Service, runtime and proxy controller together under interleaved calls: StartBrowserSession, StopBrowserSession
 and the expiry of `internal/app/session_service.go` and the runtime's Shutdown, with the lock regions of
 `runtime_core.go` and `controller.go` as steps.  Module Agreement proves what holds between calls that run one
 at a time; here is what is left of it when they overlap.
 */
module SessionProtocol {
  import opened Wrappers
  import opened Core

  type CallId = nat

  datatype Call =
    // StartBrowserSession
    | Creating(id: string)                            // before CreateSession
    | Preparing(id: string)                           // before PrepareSessionProxy
    | StartBegun(id: string)                          // before the first lock region of runtime.StartSession
    | Launching(id: string)
    | Committing(id: string)                          // before its second lock region
    | GivingUp(id: string, registered: bool)          // the runtime's own release; another call had registered the session
    | Committed(id: string)                           // before writing RUNNING
    | FailReleasing(id: string)
    | FailWriting(id: string)                         // before writing FAILED
    // StopBrowserSession (`stop`) and expireSessionIfNeeded
    | Reading(id: string, stop: bool)
    | Marking(id: string)                             // before writing STOPPING
    | Taking(id: string, stop: bool)                  // before the lock region of runtime.StopSession
    | Releasing(id: string, stop: bool)               // the runtime's release
    | ReleasingAgain(id: string, stop: bool)          // the service's release
    | Finishing(id: string, stop: bool)               // before the final write
    // Shutdown
    | ShutdownBegun                                   // before its lock region
    | Draining(ids: set<string>)                      // after it: the sessions taken and not yet stopped and released
    | Done

  /** `runtime` and `leases` are the keys of the two maps. */
  datatype State = State(rows: map<string, SessionStatus>, runtime: set<string>, leases: set<string>, calls: map<CallId, Call>)

  const INITIAL := State(map[], {}, {}, map[])

  datatype Step =
    | Begin(call: Call)
    | Create
    | Prepare(lease: bool)        // the proxy is chosen; there may be none to record
    | Check                       // runtime.StartSession, first lock region
    | Launched
    | Fails                       // no proxy, no directory, no browser, the wrong browser kind
    | Commit                      // second lock region
    | Release                     // ReleaseSessionProxy, lock region
    | Read(due: bool)
    | Take                        // runtime.StopSession, lock region
    | TakeAll                     // runtime.Shutdown, lock region
    | Drain(id: string)           // the release of one of its sessions, after the browser was stopped
    | Write(ok: bool, clean: bool)  // UpdateSession; `clean` says that the browser stopped without error

  function Ended(s: State, t: CallId): State { s.(calls := s.calls[t := Done]) }

  function To(s: State, t: CallId, call: Call): State { s.(calls := s.calls[t := call]) }

  ghost predicate Next(max: nat, s: State, t: CallId, step: Step, s': State) {
    if step.Begin? then
      t !in s.calls && (step.call.Creating? || step.call.Reading? || step.call.ShutdownBegun?) && s' == To(s, t, step.call)
    else
      t in s.calls &&
      var call := s.calls[t];
      match step
      case Create =>
        call.Creating? &&
        s' == if call.id in s.rows then Ended(s, t) else To(s, t, Preparing(call.id)).(rows := s.rows[call.id := Starting])
      case Prepare(lease) =>
        call.Preparing? &&
        s' == To(s, t, StartBegun(call.id)).(leases := if lease then s.leases + {call.id} else s.leases)
      case Check =>
        call.StartBegun? &&
        s' == To(s, t, if call.id in s.runtime then Committed(call.id)
                       else if |s.runtime| >= max then FailReleasing(call.id) else Launching(call.id))
      case Launched => call.Launching? && s' == To(s, t, Committing(call.id))
      case Fails =>
        if call.Preparing? || call.StartBegun? then s' == To(s, t, FailReleasing(call.id))
        else call.Launching? && s' == To(s, t, GivingUp(call.id, false))
      case Commit =>
        call.Committing? &&
        s' == if call.id in s.runtime || |s.runtime| >= max then To(s, t, GivingUp(call.id, call.id in s.runtime))
              else To(s, t, Committed(call.id)).(runtime := s.runtime + {call.id})
      case Release =>
        && (call.GivingUp? || call.FailReleasing? || call.Releasing? || call.ReleasingAgain?)
        && s' == To(s, t, AfterRelease(call)).(leases := s.leases - {call.id})
      case Read(due) =>
        call.Reading? &&
        s' == To(s, t, if call.id !in s.rows || SessionStatusIsFinal(s.rows[call.id]) then Done
                       else if call.stop then Marking(call.id)
                       else if due then Taking(call.id, false) else Done)
      case Take => call.Taking? && s' == To(s, t, Releasing(call.id, call.stop)).(runtime := s.runtime - {call.id})
      case TakeAll => call.ShutdownBegun? && s' == To(s, t, ToDrain(s.runtime)).(runtime := {})
      case Drain(id) => call.Draining? && id in call.ids && s' == To(s, t, ToDrain(call.ids - {id})).(leases := s.leases - {id})
      case Write(ok, clean) =>
        && (call.Committed? || call.FailWriting? || call.Marking? || call.Finishing?)
        && s' == To(s, t, if call.Marking? && ok then Taking(call.id, true) else Done)
                 .(rows := if ok && call.id in s.rows then s.rows[call.id := Written(call, clean)] else s.rows)
      case _ => false
  }

  function ToDrain(ids: set<string>): Call { if ids == {} then Done else Draining(ids) }

  function AfterRelease(call: Call): Call
    requires call.GivingUp? || call.FailReleasing? || call.Releasing? || call.ReleasingAgain?
  {
    match call
    case GivingUp(id, registered) => if registered then Committed(id) else FailReleasing(id)
    case FailReleasing(id) => FailWriting(id)
    case Releasing(id, stop) => ReleasingAgain(id, stop)
    case ReleasingAgain(id, stop) => Finishing(id, stop)
  }

  /** The status a call writes. */
  function Written(call: Call, clean: bool): SessionStatus
    requires call.Committed? || call.FailWriting? || call.Marking? || call.Finishing?
  {
    match call
    case Committed(_) => Running
    case FailWriting(_) => Failed
    case Marking(_) => Stopping
    case Finishing(_, stop) => if !stop then Expired else if clean then Stopped else Failed
  }

  /** `shutdown` says whether the step may be a Shutdown's. */
  ghost predicate Reaches(max: nat, shutdown: bool, s: State, s': State) {
    exists t, step :: Next(max, s, t, step, s') && (step.TakeAll? ==> shutdown)
  }

  ghost predicate IsPath(max: nat, shutdown: bool, trace: seq<State>) {
    trace != [] && forall i :: 0 <= i < |trace| - 1 ==> Reaches(max, shutdown, trace[i], trace[i + 1])
  }

  ghost predicate IsRun(max: nat, trace: seq<State>) { IsPath(max, true, trace) && trace[0] == INITIAL }

  // ---- one start per session ----

  /** A start that has created its row. */
  predicate Start(call: Call) {
    call.Preparing? || call.StartBegun? || call.Launching? || call.Committing? || call.GivingUp? || call.Committed? ||
    call.FailReleasing? || call.FailWriting?
  }

  /** Each session has one start, which alone can register it, and until it has the session is not registered. */
  ghost predicate OneStart(s: State) {
    && s.runtime <= s.rows.Keys
    && (forall t :: t in s.calls && Start(s.calls[t]) ==> s.calls[t].id in s.rows)
    && (forall t, u :: t in s.calls && u in s.calls && Start(s.calls[t]) && Start(s.calls[u]) && s.calls[t].id == s.calls[u].id ==> t == u)
    && (forall t :: t in s.calls && Start(s.calls[t]) && !s.calls[t].Committed? ==> s.calls[t].id !in s.runtime)
    && (forall t :: t in s.calls && s.calls[t].GivingUp? ==> !s.calls[t].registered)
  }

  lemma CallMoves(s: State, t: CallId, call: Call, s': State)
    requires OneStart(s) && s'.calls == s.calls[t := call] && s'.rows.Keys == s.rows.Keys && s'.runtime <= s.runtime
    requires Start(call) ==> t in s.calls && Start(s.calls[t]) && call.id == s.calls[t].id
    requires Start(call) && !call.Committed? ==> !s.calls[t].Committed? && (call.GivingUp? ==> !call.registered)
    ensures OneStart(s')
  {
  }

  lemma CreatesOne(max: nat, s: State, t: CallId, s': State)
    requires OneStart(s) && Next(max, s, t, Create, s')
    ensures OneStart(s')
  {
    if s.calls[t].id in s.rows {
      CallMoves(s, t, Done, s');
    }
  }

  lemma CommitsOne(max: nat, s: State, t: CallId, s': State)
    requires OneStart(s) && Next(max, s, t, Commit, s')
    ensures OneStart(s')
  {
    if |s.runtime| >= max {
      CallMoves(s, t, s'.calls[t], s');
    }
  }

  lemma WritesOne(max: nat, s: State, t: CallId, ok: bool, clean: bool, s': State)
    requires OneStart(s) && Next(max, s, t, Write(ok, clean), s')
    ensures OneStart(s')
  {
    assert s'.rows.Keys == s.rows.Keys;
    CallMoves(s, t, s'.calls[t], s');
  }

  lemma OneStartByStep(max: nat, s: State, t: CallId, step: Step, s': State)
    requires OneStart(s) && Next(max, s, t, step, s')
    ensures OneStart(s')
  {
    match step
    case Create => CreatesOne(max, s, t, s');
    case Commit => CommitsOne(max, s, t, s');
    case Write(ok, clean) => WritesOne(max, s, t, ok, clean, s');
    case _ => CallMoves(s, t, s'.calls[t], s');
  }

  // ---- leases ----

  /** The call will release the session's lease, or register the session. */
  predicate Owes(call: Call, id: string) {
    if call.Draining? then id in call.ids
    else
      && (call.StartBegun? || call.Launching? || call.Committing? || call.GivingUp? || call.FailReleasing? ||
          call.Releasing? || call.ReleasingAgain?)
      && call.id == id
  }

  ghost predicate SomebodyOwes(s: State, id: string) { exists t :: t in s.calls && Owes(s.calls[t], id) }

  /** The lease of a session that is not registered is still somebody's business. */
  ghost predicate Covered(s: State) {
    forall id :: id in s.leases ==> id in s.runtime || SomebodyOwes(s, id)
  }

  lemma StillOwed(s: State, t: CallId, s': State, id: string)
    requires SomebodyOwes(s, id) && t in s'.calls && s'.calls == s.calls[t := s'.calls[t]]
    requires t in s.calls && Owes(s.calls[t], id) ==> Owes(s'.calls[t], id)
    ensures SomebodyOwes(s', id)
  {
    var u :| u in s.calls && Owes(s.calls[u], id);
    assert Owes(s'.calls[u], id);
  }

  lemma CoveredByStep(max: nat, s: State, t: CallId, step: Step, s': State)
    requires OneStart(s) && Covered(s) && Next(max, s, t, step, s')
    ensures Covered(s')
  {
    forall id | id in s'.leases && id !in s'.runtime ensures SomebodyOwes(s', id) {
      if !Owes(s'.calls[t], id) && id !in s.runtime {
        StillOwed(s, t, s', id);
      }
    }
  }

  lemma {:induction false} InvOverPaths(max: nat, shutdown: bool, trace: seq<State>, n: nat)
    requires IsPath(max, shutdown, trace) && n < |trace| && OneStart(trace[0]) && Covered(trace[0])
    ensures OneStart(trace[n]) && Covered(trace[n])
  {
    if n > 0 {
      InvOverPaths(max, shutdown, trace, n - 1);
      var t, step :| Next(max, trace[n - 1], t, step, trace[n]);
      OneStartByStep(max, trace[n - 1], t, step, trace[n]);
      CoveredByStep(max, trace[n - 1], t, step, trace[n]);
    }
  }

  /** Whatever calls overlapped, Shutdown included: once none is in flight, every lease recorded belongs to a registered session. */
  lemma NoLeaseWithoutBrowser(max: nat, trace: seq<State>, n: nat)
    requires IsRun(max, trace) && n < |trace| && forall t :: t in trace[n].calls ==> trace[n].calls[t].Done?
    ensures trace[n].leases <= trace[n].runtime
  {
    InvOverPaths(max, true, trace, n);
  }

  // ---- browsers of final sessions ----

  /** The call will take the session's browser, or write a status that lets a later call do so. */
  predicate MayFree(call: Call, id: string) {
    (call.Committed? || call.Marking? || call.Taking?) && call.id == id
  }

  ghost predicate SomebodyMayFree(s: State, id: string) { exists t :: t in s.calls && MayFree(s.calls[t], id) }

  /** A final session whose browser lives on, with nobody left to see to it but a Shutdown. */
  ghost predicate Stranded(s: State, id: string) {
    id in s.rows && SessionStatusIsFinal(s.rows[id]) && id in s.runtime && !SomebodyMayFree(s, id)
  }

  ghost predicate Frees(max: nat, shutdown: bool, path: seq<State>, id: string) {
    IsPath(max, shutdown, path) && id !in path[|path| - 1].runtime
  }

  /** Some continuation, with any calls whatever but perhaps Shutdown, stops the session's browser. */
  ghost predicate CanBeFreed(max: nat, shutdown: bool, s: State, id: string) {
    exists path: seq<State> :: path != [] && path[0] == s && Frees(max, shutdown, path, id)
  }

  lemma StrandedByStep(max: nat, s: State, t: CallId, step: Step, s': State, id: string)
    requires OneStart(s) && Stranded(s, id) && Next(max, s, t, step, s') && !step.TakeAll?
    ensures Stranded(s', id)
  {
    assert t in s.calls ==> !MayFree(s.calls[t], id);
    forall u | u in s'.calls ensures !MayFree(s'.calls[u], id) {
      if u != t {
        assert s'.calls[u] == s.calls[u];
      }
    }
  }

  lemma {:induction false} StrandedOverPaths(max: nat, path: seq<State>, id: string, n: nat)
    requires IsPath(max, false, path) && n < |path| && OneStart(path[0]) && Covered(path[0]) && Stranded(path[0], id)
    ensures Stranded(path[n], id)
  {
    if n > 0 {
      StrandedOverPaths(max, path, id, n - 1);
      InvOverPaths(max, false, path, n - 1);
      var t, step :| Next(max, path[n - 1], t, step, path[n]) && !step.TakeAll?;
      StrandedByStep(max, path[n - 1], t, step, path[n], id);
    }
  }

  lemma {:induction false} UnusedCall(used: set<CallId>) returns (t: CallId)
    ensures t !in used && forall u :: u in used ==> u < t
    decreases |used|
  {
    if used == {} {
      t := 0;
    } else {
      var u :| u in used;
      var v := UnusedCall(used - {u});
      t := if u < v then v else u + 1;
      assert forall w :: w in used ==> w == u || w in used - {u};
    }
  }

  lemma Extend(max: nat, shutdown: bool, path: seq<State>, t: CallId, step: Step, s': State) returns (longer: seq<State>)
    requires IsPath(max, shutdown, path) && Next(max, path[|path| - 1], t, step, s') && (step.TakeAll? ==> shutdown)
    ensures longer == path + [s'] && IsPath(max, shutdown, longer)
  {
    longer := path + [s'];
    assert Reaches(max, shutdown, longer[|path| - 1], longer[|path|]);
  }

  lemma TakerFrees(max: nat, shutdown: bool, path: seq<State>, t: CallId, id: string, stop: bool)
    requires IsPath(max, shutdown, path) && t in path[|path| - 1].calls && path[|path| - 1].calls[t] == Taking(id, stop)
    ensures CanBeFreed(max, shutdown, path[0], id)
  {
    var s := path[|path| - 1];
    var longer := Extend(max, shutdown, path, t, Take, To(s, t, Releasing(id, stop)).(runtime := s.runtime - {id}));
    assert longer[0] == path[0] && Frees(max, shutdown, longer, id);
  }

  lemma MarkerFrees(max: nat, shutdown: bool, path: seq<State>, t: CallId, id: string)
    requires IsPath(max, shutdown, path) && t in path[|path| - 1].calls && path[|path| - 1].calls[t] == Marking(id)
    requires id in path[|path| - 1].rows
    ensures CanBeFreed(max, shutdown, path[0], id)
  {
    var s := path[|path| - 1];
    var longer := Extend(max, shutdown, path, t, Write(true, true), To(s, t, Taking(id, true)).(rows := s.rows[id := Stopping]));
    TakerFrees(max, shutdown, longer, t, id, true);
  }

  lemma StarterFrees(max: nat, shutdown: bool, s: State, t: CallId, id: string)
    requires t in s.calls && s.calls[t] == Committed(id) && id in s.rows
    ensures CanBeFreed(max, shutdown, s, id)
  {
    var u := UnusedCall(s.calls.Keys);
    var s1 := Ended(s, t).(rows := s.rows[id := Running]);
    var s2 := To(s1, u, Reading(id, true));
    var s3 := To(s2, u, Marking(id));
    var path := Extend(max, shutdown, [s], t, Write(true, true), s1);
    path := Extend(max, shutdown, path, u, Begin(Reading(id, true)), s2);
    path := Extend(max, shutdown, path, u, Read(false), s3);
    MarkerFrees(max, shutdown, path, u, id);
  }

  lemma ShutdownFrees(max: nat, s: State, id: string)
    ensures CanBeFreed(max, true, s, id)
  {
    var u := UnusedCall(s.calls.Keys);
    var s1 := To(s, u, ShutdownBegun);
    var path := Extend(max, true, [s], u, Begin(ShutdownBegun), s1);
    path := Extend(max, true, path, u, TakeAll, To(s1, u, ToDrain(s.runtime)).(runtime := {}));
    assert path[0] == s && Frees(max, true, path, id);
  }

  /**
   A final session may be left with its browser.  Exactly: in a reachable state where a final session is
   registered, its browser can still be stopped, by calls now in flight or yet to come, if and only if there may
   be a Shutdown or some call in flight is about to write RUNNING or STOPPING or to take the browser.  Nothing
   else that begins later can: StopBrowserSession and the expiry return as soon as they read a final status.
   */
  lemma BrowserOfFinalSessionIff(max: nat, trace: seq<State>, n: nat, id: string, shutdown: bool)
    requires IsRun(max, trace) && n < |trace|
    requires var s := trace[n]; id in s.rows && SessionStatusIsFinal(s.rows[id]) && id in s.runtime
    ensures CanBeFreed(max, shutdown, trace[n], id) <==> shutdown || SomebodyMayFree(trace[n], id)
  {
    var s := trace[n];
    InvOverPaths(max, true, trace, n);
    if shutdown {
      ShutdownFrees(max, s, id);
    } else if t :| t in s.calls && MayFree(s.calls[t], id) {
      match s.calls[t]
      case Committed(_) => StarterFrees(max, shutdown, s, t, id);
      case Marking(_) => MarkerFrees(max, shutdown, [s], t, id);
      case Taking(_, stop) => TakerFrees(max, shutdown, [s], t, id, stop);
    } else if CanBeFreed(max, shutdown, s, id) {
      var path: seq<State> :| path != [] && path[0] == s && Frees(max, shutdown, path, id);
      StrandedOverPaths(max, path, id, |path| - 1);
    }
  }

  /** One call: state with the given row, registration and the two calls. */
  function Two(status: SessionStatus, registered: bool, start: Call, stop: Option<Call>): State {
    State(map["s" := status], if registered then {"s"} else {}, {},
          if stop.None? then map[0 := start] else map[0 := start, 1 := stop.value])
  }

  /**
   It happens: a stop that reads STARTING and finds no browser yet writes STOPPED after the start has
   registered its browser and written RUNNING.
   */
  lemma StopStrandsBrowser(max: nat) returns (trace: seq<State>)
    requires max >= 1
    ensures IsRun(max, trace)
    ensures var s := trace[|trace| - 1];
            (forall t :: t in s.calls ==> s.calls[t].Done?) && Stranded(s, "s") && s.rows["s"].Stopped?
  {
    trace := LaunchWithStop(max);
    trace := Extend(max, true, trace, 0, Commit, Two(Stopping, true, Committed("s"), Some(Finishing("s", true))));
    trace := Extend(max, true, trace, 0, Write(true, true), Two(Running, true, Done, Some(Finishing("s", true))));
    trace := Extend(max, true, trace, 1, Write(true, true), Two(Stopped, true, Done, Some(Done)));
  }

  lemma LaunchWithStop(max: nat) returns (trace: seq<State>)
    requires max >= 1
    ensures IsRun(max, trace) && trace[|trace| - 1] == Two(Stopping, false, Committing("s"), Some(Finishing("s", true)))
  {
    trace := LaunchWithMark(max);
    trace := Extend(max, true, trace, 1, Take, Two(Stopping, false, Committing("s"), Some(Releasing("s", true))));
    trace := Extend(max, true, trace, 1, Release, Two(Stopping, false, Committing("s"), Some(ReleasingAgain("s", true))));
    trace := Extend(max, true, trace, 1, Release, Two(Stopping, false, Committing("s"), Some(Finishing("s", true))));
  }

  lemma LaunchWithMark(max: nat) returns (trace: seq<State>)
    requires max >= 1
    ensures IsRun(max, trace) && trace[|trace| - 1] == Two(Stopping, false, Committing("s"), Some(Taking("s", true)))
  {
    trace := LaunchAlone(max);
    trace := Extend(max, true, trace, 1, Begin(Reading("s", true)), Two(Starting, false, Committing("s"), Some(Reading("s", true))));
    trace := Extend(max, true, trace, 1, Read(false), Two(Starting, false, Committing("s"), Some(Marking("s"))));
    trace := Extend(max, true, trace, 1, Write(true, true), Two(Stopping, false, Committing("s"), Some(Taking("s", true))));
  }

  lemma LaunchAlone(max: nat) returns (trace: seq<State>)
    requires max >= 1
    ensures IsRun(max, trace) && trace[|trace| - 1] == Two(Starting, false, Committing("s"), None)
  {
    trace := [INITIAL];
    trace := Extend(max, true, trace, 0, Begin(Creating("s")), INITIAL.(calls := map[0 := Creating("s")]));
    trace := Extend(max, true, trace, 0, Create, Two(Starting, false, Preparing("s"), None));
    trace := Extend(max, true, trace, 0, Prepare(false), Two(Starting, false, StartBegun("s"), None));
    trace := Extend(max, true, trace, 0, Check, Two(Starting, false, Launching("s"), None));
    trace := Extend(max, true, trace, 0, Launched, Two(Starting, false, Committing("s"), None));
  }
}
