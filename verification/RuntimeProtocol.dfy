/**
 Concurrent calls of the browser runtime (`internal/adapters/runtime/camoufox/runtime_core.go` and
 `cloakbrowser/runtime_core.go`).  StartSession drops the mutex between its capacity check and its
 registration, so calls interleave.  Every lock region is one atomic step; spawning, waiting for and stopping
 a process are steps of their own.  Any number of calls of any kind, also for the same session, may be in flight.
 Stopping takes place without the lock here although a losing StartSession keeps it; that only adds interleavings.
 */
module RuntimeProtocol {
  import opened Wrappers

  type CallId = nat
  type Process = nat

  datatype Kind = Camoufox | Cloakbrowser

  datatype Config = Config(kind: Kind, maxSessions: nat)

  /** Where a call stands, with the processes it alone must look after. */
  datatype Call =
    | StartBegun(id: string)
    | LaunchServer(id: string)
    | AwaitEndpoint(id: string, server: Process)
    | LaunchWorker(id: string, started: set<Process>)
    | AwaitReady(id: string, started: set<Process>, worker: Process)
    | Register(id: string, started: set<Process>)
    | StopBegun(id: string)
    | ShutdownBegun
    | Stopping(pending: set<Process>)
    | Done

  function Held(call: Call): set<Process> {
    match call
    case AwaitEndpoint(_, server) => {server}
    case LaunchWorker(_, started) => started
    case AwaitReady(_, started, worker) => started + {worker}
    case Register(_, started) => started
    case Stopping(pending) => pending
    case _ => {}
  }

  /** `born` are the processes spawned so far, `stopped` the stop calls made, in order, `exited` the servers found dead while starting. */
  datatype State = State(
    sessions: map<string, set<Process>>,
    calls: map<CallId, Call>,
    born: set<Process>,
    stopped: seq<Process>,
    exited: set<Process>)

  const INITIAL := State(map[], map[], {}, [], {})

  datatype Step =
    | Begin(call: Call)
    | Check                       // StartSession, first lock region
    | SpawnFails                  // or the artifacts directory, or the proxy, fails before it
    | Spawn(p: Process)
    | Answers                     // the endpoint, or the ready line, arrives
    | GivesUp                     // startup timeout, cancelled context, invalid ready line
    | ServerExits
    | Commit                      // StartSession, second lock region
    | Take                        // StopSession, lock region
    | TakeAll                     // Shutdown, lock region
    | StopOne(p: Process)
    | Return

  predicate Full(cfg: Config, s: State) { |s.sessions| >= cfg.maxSessions }

  /** The state of one call after its next step, when the rest of the state is left alone. */
  function Advance(cfg: Config, s: State, call: Call, step: Step): Option<Call> {
    match step
    case Check =>
      if !call.StartBegun? then None
      else if call.id in s.sessions || Full(cfg, s) then Some(Done)
      else if cfg.kind.Camoufox? then Some(LaunchServer(call.id))
      else Some(LaunchWorker(call.id, {}))
    case SpawnFails =>
      if call.LaunchServer? then Some(Done)
      else if call.LaunchWorker? then Some(Stopping(call.started))
      else None
    case Answers =>
      if call.AwaitEndpoint? then Some(LaunchWorker(call.id, {call.server}))
      else if call.AwaitReady? then Some(Register(call.id, call.started + {call.worker}))
      else None
    case GivesUp =>
      if call.AwaitEndpoint? || call.AwaitReady? then Some(Stopping(Held(call))) else None
    case Return =>
      if call == Stopping({}) then Some(Done) else None
    case _ => None
  }

  ghost predicate Next(cfg: Config, s: State, t: CallId, step: Step, s': State) {
    if step.Begin? then
      && t !in s.calls && (step.call.StartBegun? || step.call.StopBegun? || step.call.ShutdownBegun?)
      && s' == s.(calls := s.calls[t := step.call])
    else
      t in s.calls &&
      var call := s.calls[t];
      match step
      case Spawn(p) =>
        && p !in s.born
        && ((call.LaunchServer? && s' == s.(born := s.born + {p}, calls := s.calls[t := AwaitEndpoint(call.id, p)])) ||
            (call.LaunchWorker? && s' == s.(born := s.born + {p}, calls := s.calls[t := AwaitReady(call.id, call.started, p)])))
      case ServerExits =>
        call.AwaitEndpoint? && s' == s.(exited := s.exited + {call.server}, calls := s.calls[t := Done])
      case Commit =>
        call.Register? &&
        s' == if call.id in s.sessions || Full(cfg, s) then s.(calls := s.calls[t := Stopping(call.started)])
              else s.(sessions := s.sessions[call.id := call.started], calls := s.calls[t := Done])
      case Take =>
        call.StopBegun? &&
        s' == if call.id in s.sessions
              then s.(sessions := s.sessions - {call.id}, calls := s.calls[t := Stopping(s.sessions[call.id])])
              else s.(calls := s.calls[t := Done])
      case TakeAll =>
        call.ShutdownBegun? &&
        s' == s.(sessions := map[], calls := s.calls[t := Stopping(Registered(s))])
      case StopOne(p) =>
        call.Stopping? && p in call.pending &&
        s' == s.(stopped := s.stopped + [p], calls := s.calls[t := Stopping(call.pending - {p})])
      case _ =>
        Advance(cfg, s, call, step).Some? && s' == s.(calls := s.calls[t := Advance(cfg, s, call, step).value])
  }

  ghost function Registered(s: State): set<Process> {
    set id, p | id in s.sessions && p in s.sessions[id] :: p
  }

  // ---- conservation of processes ----

  datatype Place = InCall(t: CallId) | InEntry(id: string) | StoppedAt(i: nat) | Exited

  ghost predicate At(s: State, p: Process, place: Place) {
    match place
    case InCall(t) => t in s.calls && p in Held(s.calls[t])
    case InEntry(id) => id in s.sessions && p in s.sessions[id]
    case StoppedAt(i) => i < |s.stopped| && s.stopped[i] == p
    case Exited => p in s.exited
  }

  /** Every spawned process is in exactly one place, and nothing else is anywhere. */
  ghost predicate Conserved(s: State) {
    && (forall p, a, b :: At(s, p, a) && At(s, p, b) ==> a == b)
    && (forall p :: p in s.born ==> exists a :: At(s, p, a))
    && (forall p, a :: At(s, p, a) ==> p in s.born)
  }

  /** A step that moves no process. */
  lemma NothingMoves(s: State, t: CallId, call: Call, s': State)
    requires Conserved(s) && s' == s.(calls := s.calls[t := call])
    requires Held(call) == if t in s.calls then Held(s.calls[t]) else {}
    ensures Conserved(s')
  {
    assert forall p, a :: At(s', p, a) <==> At(s, p, a);
  }

  lemma SpawnedOnce(s: State, t: CallId, p: Process, call: Call, s': State)
    requires Conserved(s) && t in s.calls && p !in s.born && Held(call) == Held(s.calls[t]) + {p}
    requires s' == s.(born := s.born + {p}, calls := s.calls[t := call])
    ensures Conserved(s')
  {
    forall q, a ensures At(s', q, a) <==> if q == p then a == InCall(t) else At(s, q, a) {
      assert q == p ==> !At(s, q, a);
    }
    Rearranged(s, s', {p}, _ => InCall(t));
  }

  /** The processes `moved` are now each in one place of their own, all others where they were. */
  lemma Rearranged(s: State, s': State, moved: set<Process>, to: Process -> Place)
    requires Conserved(s) && s'.born == s.born + moved
    requires forall q, a :: At(s', q, a) <==> if q in moved then a == to(q) else At(s, q, a)
    ensures Conserved(s')
  {
    forall q | q in s'.born ensures exists a :: At(s', q, a) {
      if q in moved {
        assert At(s', q, to(q));
      } else {
        var a :| At(s, q, a);
        assert At(s', q, a);
      }
    }
  }

  /** Some processes of call t go to a place each. */
  lemma Handed(s: State, t: CallId, q: Process, a: Place)
    requires Conserved(s) && t in s.calls && q in Held(s.calls[t])
    ensures At(s, q, a) <==> a == InCall(t)
    ensures q in s.born
  {
    assert At(s, q, InCall(t));
  }

  lemma Exits(s: State, t: CallId, s': State)
    requires Conserved(s) && t in s.calls && s.calls[t].AwaitEndpoint?
    requires s' == s.(exited := s.exited + {s.calls[t].server}, calls := s.calls[t := Done])
    ensures Conserved(s')
  {
    var moved := {s.calls[t].server};
    forall q, a ensures At(s', q, a) <==> if q in moved then a == Exited else At(s, q, a) {
      if q in moved {
        Handed(s, t, q, a);
      }
    }
    Handed(s, t, s.calls[t].server, Exited);
    assert s'.born == s.born + moved;
    Rearranged(s, s', moved, _ => Exited);
  }

  lemma Registers(s: State, t: CallId, s': State)
    requires Conserved(s) && t in s.calls && s.calls[t].Register? && s.calls[t].id !in s.sessions
    requires s' == s.(sessions := s.sessions[s.calls[t].id := s.calls[t].started], calls := s.calls[t := Done])
    ensures Conserved(s')
  {
    var moved, id := s.calls[t].started, s.calls[t].id;
    forall q, a ensures (At(s', q, a) <==> if q in moved then a == InEntry(id) else At(s, q, a)) && (q in moved ==> q in s.born) {
      if q in moved {
        Handed(s, t, q, a);
      }
    }
    assert s'.born == s.born + moved by { assert forall q :: q in moved ==> At(s', q, InEntry(id)); }
    Rearranged(s, s', moved, _ => InEntry(id));
  }

  lemma Stops(s: State, t: CallId, p: Process, s': State)
    requires Conserved(s) && t in s.calls && s.calls[t].Stopping? && p in s.calls[t].pending
    requires s' == s.(stopped := s.stopped + [p], calls := s.calls[t := Stopping(s.calls[t].pending - {p})])
    ensures Conserved(s')
  {
    forall q, a ensures At(s', q, a) <==> if q in {p} then a == StoppedAt(|s.stopped|) else At(s, q, a) {
      if q == p {
        Handed(s, t, q, a);
      }
    }
    Handed(s, t, p, Exited);
    assert s'.born == s.born + {p};
    Rearranged(s, s', {p}, _ => StoppedAt(|s.stopped|));
  }

  /** Processes of map entries pass into the care of call t, which had none. */
  lemma Taken(s: State, t: CallId, taken: set<Process>, s': State)
    requires Conserved(s) && t in s.calls && Held(s.calls[t]) == {}
    requires s' == s.(sessions := s'.sessions, calls := s.calls[t := Stopping(taken)])
    requires forall id :: id in s'.sessions ==> id in s.sessions && s'.sessions[id] == s.sessions[id]
    requires forall id, q :: id in s.sessions && id !in s'.sessions && q in s.sessions[id] ==> q in taken
    requires forall q :: q in taken ==> exists id :: id in s.sessions && id !in s'.sessions && q in s.sessions[id]
    ensures Conserved(s')
  {
    forall q | q in taken ensures q in s.born && forall a :: At(s', q, a) <==> a == InCall(t) {
      var id :| id in s.sessions && id !in s'.sessions && q in s.sessions[id];
      assert At(s, q, InEntry(id));
      assert forall a :: At(s, q, a) <==> a == InEntry(id);
      assert forall a :: At(s', q, a) && a != InCall(t) ==> At(s, q, a);
    }
    assert s'.born == s.born + taken;
    forall q, a ensures At(s', q, a) <==> if q in taken then a == InCall(t) else At(s, q, a) {
    }
    Rearranged(s, s', taken, _ => InCall(t));
  }

  lemma AdvanceKeepsHeld(cfg: Config, s: State, call: Call, step: Step)
    requires Advance(cfg, s, call, step).Some?
    ensures Held(Advance(cfg, s, call, step).value) == Held(call)
  {
  }

  lemma Commits(cfg: Config, s: State, t: CallId, s': State)
    requires Conserved(s) && Next(cfg, s, t, Commit, s')
    ensures Conserved(s')
  {
    if s.calls[t].id in s.sessions || Full(cfg, s) {
      NothingMoves(s, t, s'.calls[t], s');
    } else {
      Registers(s, t, s');
    }
  }

  lemma Takes(cfg: Config, s: State, t: CallId, s': State)
    requires Conserved(s) && Next(cfg, s, t, Take, s')
    ensures Conserved(s')
  {
    if s.calls[t].id in s.sessions {
      Taken(s, t, s.sessions[s.calls[t].id], s');
    } else {
      NothingMoves(s, t, Done, s');
    }
  }

  lemma TakesAll(cfg: Config, s: State, t: CallId, s': State)
    requires Conserved(s) && Next(cfg, s, t, TakeAll, s')
    ensures Conserved(s')
  {
    Taken(s, t, Registered(s), s');
  }

  lemma ConservedByStep(cfg: Config, s: State, t: CallId, step: Step, s': State)
    requires Conserved(s) && Next(cfg, s, t, step, s')
    ensures Conserved(s')
  {
    match step
    case Spawn(p) => SpawnedOnce(s, t, p, s'.calls[t], s');
    case ServerExits => Exits(s, t, s');
    case Commit => Commits(cfg, s, t, s');
    case Take => Takes(cfg, s, t, s');
    case TakeAll => TakesAll(cfg, s, t, s');
    case StopOne(p) => Stops(s, t, p, s');
    case Begin(call) => NothingMoves(s, t, call, s');
    case _ =>
      AdvanceKeepsHeld(cfg, s, s.calls[t], step);
      NothingMoves(s, t, s'.calls[t], s');
  }

  // ---- runs ----

  ghost predicate IsRun(cfg: Config, trace: seq<State>) {
    && trace != [] && trace[0] == INITIAL
    && forall i :: 0 <= i < |trace| - 1 ==> Reaches(cfg, trace[i], trace[i + 1])
  }

  ghost predicate Reaches(cfg: Config, s: State, s': State) {
    exists t, step :: Next(cfg, s, t, step, s')
  }

  /** Whatever the interleaving, no process is lost, shared or stopped twice. */
  lemma {:induction false} ProcessesConserved(cfg: Config, trace: seq<State>, n: nat)
    requires IsRun(cfg, trace) && n < |trace|
    ensures Conserved(trace[n])
  {
    if n > 0 {
      ProcessesConserved(cfg, trace, n - 1);
      var t, step :| Next(cfg, trace[n - 1], t, step, trace[n]);
      ConservedByStep(cfg, trace[n - 1], t, step, trace[n]);
    }
  }

  /** The number of stop calls made for a process is 0 or 1, and 0 while a session or a call still has it. */
  lemma StoppedAtMostOnce(cfg: Config, trace: seq<State>, n: nat, p: Process)
    requires IsRun(cfg, trace) && n < |trace|
    ensures multiset(trace[n].stopped)[p] <= 1
    ensures (exists t :: At(trace[n], p, InCall(t))) || (exists id :: At(trace[n], p, InEntry(id))) ==> p !in trace[n].stopped
  {
    ProcessesConserved(cfg, trace, n);
    var s := trace[n];
    assert forall i: nat, j: nat :: At(s, p, StoppedAt(i)) && At(s, p, StoppedAt(j)) ==> i == j;
    assert forall i: nat :: i < |s.stopped| && s.stopped[i] == p ==> At(s, p, StoppedAt(i));
    OccursAtMostOnce(s.stopped, p);
    if i :| 0 <= i < |s.stopped| && s.stopped[i] == p {
      assert At(s, p, StoppedAt(i));
    }
  }

  lemma {:induction false} OccursAtMostOnce<T>(s: seq<T>, x: T)
    requires forall i, j :: 0 <= i < j < |s| && s[i] == x ==> s[j] != x
    ensures multiset(s)[x] <= 1
  {
    if s != [] {
      assert s == [s[0]] + s[1..];
      assert forall i :: 0 <= i < |s[1..]| ==> s[1..][i] == s[i + 1];
      OccursAtMostOnce(s[1..], x);
    }
  }

  /** Once no call is in flight, every process ever spawned belongs to exactly one session, was stopped, or was a server that died while starting. */
  lemma NoLeakAtRest(cfg: Config, trace: seq<State>, n: nat, p: Process)
    requires IsRun(cfg, trace) && n < |trace| && p in trace[n].born
    requires forall t :: t in trace[n].calls ==> trace[n].calls[t].Done?
    ensures var s := trace[n];
            var owned := exists id :: id in s.sessions && p in s.sessions[id];
            && (owned || p in s.stopped || p in s.exited)
            && !(owned && p in s.stopped) && !(owned && p in s.exited) && !(p in s.stopped && p in s.exited)
            && forall id, id' :: id in s.sessions && id' in s.sessions && p in s.sessions[id] && p in s.sessions[id'] ==> id == id'
  {
    ProcessesConserved(cfg, trace, n);
    var s := trace[n];
    var place :| At(s, p, place);
    forall i | 0 <= i < |s.stopped| && s.stopped[i] == p ensures At(s, p, StoppedAt(i)) {
    }
    assert p in s.exited ==> At(s, p, Exited);
    assert forall id :: id in s.sessions && p in s.sessions[id] ==> At(s, p, InEntry(id));
  }

  /** Under every interleaving the registered sessions never exceed the configured maximum. */
  lemma {:induction false} CapacityRespected(cfg: Config, trace: seq<State>, n: nat)
    requires IsRun(cfg, trace) && n < |trace|
    ensures |trace[n].sessions| <= cfg.maxSessions
  {
    if n > 0 {
      CapacityRespected(cfg, trace, n - 1);
      var t, step :| Next(cfg, trace[n - 1], t, step, trace[n]);
      CapacityByStep(cfg, trace[n - 1], t, step, trace[n]);
    }
  }

  lemma CapacityByStep(cfg: Config, s: State, t: CallId, step: Step, s': State)
    requires Next(cfg, s, t, step, s') && |s.sessions| <= cfg.maxSessions
    ensures |s'.sessions| <= cfg.maxSessions
  {
    match step
    case Take =>
      if s.calls[t].id in s.sessions {
        assert s'.sessions.Keys == s.sessions.Keys - {s.calls[t].id};
      }
    case Commit =>
      if s'.sessions != s.sessions {
        assert s'.sessions.Keys == s.sessions.Keys + {s.calls[t].id};
      }
    case _ =>
  }
}
