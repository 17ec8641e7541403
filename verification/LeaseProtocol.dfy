/**
 Concurrent use of the proxy controller (`internal/adapters/proxyplugin/controller.go`): sessions' leases are
 recorded under the controller's mutex and released from several places at once -- the failing start, the
 stop, the expiry, the runtime's own error paths, shutdown.  Recording and taking out are the two lock
 regions; the remote release happens after the second one, outside the lock.
 */
module LeaseProtocol {
  type CallId = nat
  type Lease = nat  // a recorded lease, told apart from every other

  datatype Call =
    | PrepareBegun(id: string)                // PrepareSessionProxy, asking for a lease
    | Acquired(id: string, lease: Lease)      // before its lock region
    | ReleaseBegun(id: string)                // ReleaseSessionProxy, before its lock region
    | TakenOut(lease: Lease)                  // after it, about to tell the proxy runtime
    | Done

  /** `used` are the session ids preparations were made for; `remote` the release requests sent, in order;
      `overwritten` the leases whose map entry another preparation replaced. */
  datatype State = State(
    sessions: map<string, Lease>,
    calls: map<CallId, Call>,
    used: set<string>,
    acquired: set<Lease>,
    takenOut: set<Lease>,
    remote: seq<Lease>,
    overwritten: set<Lease>)

  const INITIAL := State(map[], map[], {}, {}, {}, [], {})

  datatype Step =
    | Prepare(id: string)
    | Acquire(lease: Lease)
    | Refused                   // no proxy for this session, or an error
    | Record
    | Release(id: string)
    | TakeOut
    | Tell                      // the remote request, whether or not it succeeds
    | KeepQuiet                 // a manual proxy, or no proxy runtime configured

  ghost predicate Next(s: State, t: CallId, step: Step, s': State) {
    if step.Prepare? then
      t !in s.calls && s' == s.(calls := s.calls[t := PrepareBegun(step.id)], used := s.used + {step.id})
    else if step.Release? then
      t !in s.calls && s' == s.(calls := s.calls[t := ReleaseBegun(step.id)])
    else
      t in s.calls &&
      var call := s.calls[t];
      match step
      case Acquire(lease) =>
        call.PrepareBegun? && lease !in s.acquired &&
        s' == s.(acquired := s.acquired + {lease}, calls := s.calls[t := Acquired(call.id, lease)])
      case Refused => call.PrepareBegun? && s' == s.(calls := s.calls[t := Done])
      case Record =>
        call.Acquired? &&
        s' == s.(sessions := s.sessions[call.id := call.lease], calls := s.calls[t := Done],
                 overwritten := if call.id in s.sessions then s.overwritten + {s.sessions[call.id]} else s.overwritten)
      case TakeOut =>
        call.ReleaseBegun? &&
        s' == if call.id in s.sessions
              then s.(sessions := s.sessions - {call.id}, calls := s.calls[t := TakenOut(s.sessions[call.id])],
                      takenOut := s.takenOut + {s.sessions[call.id]})
              else s.(calls := s.calls[t := Done])
      case Tell => call.TakenOut? && s' == s.(remote := s.remote + [call.lease], calls := s.calls[t := Done])
      case KeepQuiet => call.TakenOut? && s' == s.(calls := s.calls[t := Done])
      case _ => false
  }

  // ---- where a lease is ----

  datatype Place = InCall(t: CallId) | InEntry(id: string) | Out | Overwritten

  ghost predicate At(s: State, l: Lease, place: Place) {
    match place
    case InCall(t) => t in s.calls && s.calls[t].Acquired? && s.calls[t].lease == l
    case InEntry(id) => id in s.sessions && s.sessions[id] == l
    case Out => l in s.takenOut
    case Overwritten => l in s.overwritten
  }

  /** Each lease is about to be recorded, or recorded under one session, or was taken out, or was overwritten; one of the four. */
  ghost predicate Conserved(s: State) {
    && (forall l, a, b :: At(s, l, a) && At(s, l, b) ==> a == b)
    && (forall l :: l in s.acquired ==> exists a :: At(s, l, a))
    && (forall l, a :: At(s, l, a) ==> l in s.acquired)
  }

  /** Telling the proxy runtime about a lease is the business of the one call that took it out. */
  ghost predicate ToldOnce(s: State) {
    && (forall t :: t in s.calls && s.calls[t].TakenOut? ==> s.calls[t].lease in s.takenOut && s.calls[t].lease !in s.remote)
    && (forall t, u :: t in s.calls && u in s.calls && s.calls[t].TakenOut? && s.calls[u].TakenOut? && s.calls[t].lease == s.calls[u].lease ==> t == u)
    && (forall i :: 0 <= i < |s.remote| ==> s.remote[i] in s.takenOut)
    && (forall i, j :: 0 <= i < j < |s.remote| ==> s.remote[i] != s.remote[j])
  }

  lemma ToldOnceByStep(s: State, t: CallId, step: Step, s': State)
    requires Conserved(s) && ToldOnce(s) && Next(s, t, step, s')
    ensures ToldOnce(s')
  {
    if step.TakeOut? && s.calls[t].id in s.sessions {
      var l := s.sessions[s.calls[t].id];
      assert At(s, l, InEntry(s.calls[t].id)) && !At(s, l, Out);
    }
  }

  /** The lease `l` went to `to`; all others stayed. */
  lemma Moved(s: State, s': State, l: Lease, to: Place)
    requires Conserved(s) && s'.acquired == s.acquired + {l}
    requires forall m, a :: At(s', m, a) <==> if m == l then a == to else At(s, m, a)
    ensures Conserved(s')
  {
    forall m | m in s'.acquired ensures exists a :: At(s', m, a) {
      if m == l {
        assert At(s', m, to);
      } else {
        var a :| At(s, m, a);
        assert At(s', m, a);
      }
    }
  }

  lemma TakesOut(s: State, t: CallId, s': State)
    requires Conserved(s) && t in s.calls && s.calls[t].ReleaseBegun? && s.calls[t].id in s.sessions && Next(s, t, TakeOut, s')
    ensures Conserved(s')
  {
    var id := s.calls[t].id;
    var l := s.sessions[id];
    assert At(s, l, InEntry(id));
    assert forall a :: At(s, l, a) <==> a == InEntry(id);
    assert s'.acquired == s.acquired + {l};
    forall m, a ensures At(s', m, a) <==> if m == l then a == Out else At(s, m, a) {
      assert m == l ==> (At(s, m, a) <==> a == InEntry(id));
    }
    Moved(s, s', l, Out);
  }

  lemma Records(s: State, t: CallId, s': State)
    requires Conserved(s) && t in s.calls && s.calls[t].Acquired? && Next(s, t, Record, s')
    ensures Conserved(s')
  {
    var id, l := s.calls[t].id, s.calls[t].lease;
    assert At(s, l, InCall(t));
    assert forall a :: At(s, l, a) <==> a == InCall(t);
    if id in s.sessions {
      var displaced := s.sessions[id];
      assert At(s, displaced, InEntry(id));
      assert forall a :: At(s, displaced, a) <==> a == InEntry(id);
      var middle := s.(sessions := s.sessions - {id}, overwritten := s.overwritten + {displaced});
      forall m, a ensures At(middle, m, a) <==> if m == displaced then a == Overwritten else At(s, m, a) {
        assert m == displaced ==> (At(s, m, a) <==> a == InEntry(id));
      }
      assert middle.acquired == s.acquired + {displaced};
      Moved(s, middle, displaced, Overwritten);
      RecordsFreely(middle, t, s');
    } else {
      RecordsFreely(s, t, s');
    }
  }

  lemma RecordsFreely(s: State, t: CallId, s': State)
    requires Conserved(s) && t in s.calls && s.calls[t].Acquired? && s.calls[t].id !in s.sessions
    requires s'.sessions == s.sessions[s.calls[t].id := s.calls[t].lease] && s'.calls == s.calls[t := Done]
    requires s'.acquired == s.acquired && s'.takenOut == s.takenOut && s'.overwritten == s.overwritten
    ensures Conserved(s')
  {
    var id, l := s.calls[t].id, s.calls[t].lease;
    assert At(s, l, InCall(t));
    assert forall a :: At(s, l, a) <==> a == InCall(t);
    forall m, a ensures At(s', m, a) <==> if m == l then a == InEntry(id) else At(s, m, a) {
      assert m == l ==> (At(s, m, a) <==> a == InCall(t));
    }
    assert s'.acquired == s.acquired + {l};
    Moved(s, s', l, InEntry(id));
  }

  lemma Acquires(s: State, t: CallId, l: Lease, s': State)
    requires Conserved(s) && Next(s, t, Acquire(l), s')
    ensures Conserved(s')
  {
    forall m, a ensures At(s', m, a) <==> if m == l then a == InCall(t) else At(s, m, a) {
      assert m == l ==> !At(s, m, a);
    }
    Moved(s, s', l, InCall(t));
  }

  lemma ConservedByStep(s: State, t: CallId, step: Step, s': State)
    requires Conserved(s) && Next(s, t, step, s')
    ensures Conserved(s')
  {
    match step
    case Acquire(l) => Acquires(s, t, l, s');
    case Record => Records(s, t, s');
    case TakeOut =>
      if s.calls[t].id in s.sessions {
        TakesOut(s, t, s');
      } else {
        assert forall l, a :: At(s', l, a) <==> At(s, l, a);
      }
    case _ => assert forall l, a :: At(s', l, a) <==> At(s, l, a);
  }

  // ---- runs ----

  ghost predicate Reaches(s: State, s': State) {
    exists t, step :: Next(s, t, step, s')
  }

  ghost predicate IsRun(trace: seq<State>) {
    trace != [] && trace[0] == INITIAL && forall i :: 0 <= i < |trace| - 1 ==> Reaches(trace[i], trace[i + 1])
  }

  /** However many releases run at once, a lease is in one place and is released remotely at most once, by the call that took it out. */
  lemma {:induction false} LeasesConserved(trace: seq<State>, n: nat)
    requires IsRun(trace) && n < |trace|
    ensures Conserved(trace[n]) && ToldOnce(trace[n])
  {
    if n > 0 {
      LeasesConserved(trace, n - 1);
      var t, step :| Next(trace[n - 1], t, step, trace[n]);
      ConservedByStep(trace[n - 1], t, step, trace[n]);
      ToldOnceByStep(trace[n - 1], t, step, trace[n]);
    }
  }

  /** Every preparation is for a session id of its own, as the service's freshly created sessions guarantee. */
  ghost predicate IsFreshRun(trace: seq<State>) {
    trace != [] && trace[0] == INITIAL && forall i :: 0 <= i < |trace| - 1 ==> ReachesFreshly(trace[i], trace[i + 1])
  }

  ghost predicate ReachesFreshly(s: State, s': State) {
    exists t, step :: Next(s, t, step, s') && (step.Prepare? ==> step.id !in s.used)
  }

  predicate Preparing(call: Call) { call.PrepareBegun? || call.Acquired? }

  /** A session being prepared has no entry and no second preparation. */
  ghost predicate Alone(s: State) {
    && s.overwritten == {} && s.sessions.Keys <= s.used
    && (forall t :: t in s.calls && Preparing(s.calls[t]) ==> s.calls[t].id in s.used && s.calls[t].id !in s.sessions)
    && (forall t, u :: t in s.calls && u in s.calls && Preparing(s.calls[t]) && Preparing(s.calls[u]) && s.calls[t].id == s.calls[u].id ==> t == u)
  }

  lemma AloneByStep(s: State, t: CallId, step: Step, s': State)
    requires Alone(s) && Next(s, t, step, s') && (step.Prepare? ==> step.id !in s.used)
    ensures Alone(s')
  {
  }

  /** With fresh session ids a recorded lease is either still in the map or was taken out by one ReleaseSessionProxy: none is overwritten. */
  lemma {:induction false} NothingOverwritten(trace: seq<State>, n: nat)
    requires IsFreshRun(trace) && n < |trace|
    ensures Alone(trace[n])
    ensures IsRun(trace[..n + 1])
  {
    if n > 0 {
      NothingOverwritten(trace, n - 1);
      var t, step :| Next(trace[n - 1], t, step, trace[n]) && (step.Prepare? ==> step.id !in trace[n - 1].used);
      AloneByStep(trace[n - 1], t, step, trace[n]);
    }
  }

  /** A run with its steps and the calls that took them. */
  ghost predicate IsLabelled(steps: seq<(CallId, Step)>, trace: seq<State>) {
    && |trace| == |steps| + 1 && trace[0] == INITIAL
    && forall i :: 0 <= i < |steps| ==> Next(trace[i], steps[i].0, steps[i].1, trace[i + 1])
  }

  /** The session ids of the preparations, in order. */
  function Preparations(steps: seq<(CallId, Step)>): seq<string> {
    if steps == [] then []
    else
      var last := steps[|steps| - 1].1;
      Preparations(steps[..|steps| - 1]) + if last.Prepare? then [last.id] else []
  }

  lemma {:induction false} UsedArePreparations(steps: seq<(CallId, Step)>, trace: seq<State>, n: nat)
    requires IsLabelled(steps, trace) && n <= |steps|
    ensures forall id :: id in trace[n].used <==> id in Preparations(steps[..n])
  {
    if n > 0 {
      UsedArePreparations(steps, trace, n - 1);
      assert steps[..n][..n - 1] == steps[..n - 1];
    }
  }

  lemma {:induction false} PreparationsGrow(steps: seq<(CallId, Step)>, n: nat)
    requires n <= |steps|
    ensures Preparations(steps[..n]) <= Preparations(steps)
    decreases |steps|
  {
    if n < |steps| {
      PreparationsGrow(steps[..|steps| - 1], n);
      assert steps[..|steps| - 1][..n] == steps[..n];
    } else {
      assert steps[..n] == steps;
    }
  }

  /** Preparations for pairwise distinct sessions make a fresh run. */
  lemma DistinctIsFresh(steps: seq<(CallId, Step)>, trace: seq<State>)
    requires IsLabelled(steps, trace)
    requires var ids := Preparations(steps); forall i, j :: 0 <= i < j < |ids| ==> ids[i] != ids[j]
    ensures IsFreshRun(trace)
  {
    forall n | 0 <= n < |trace| - 1 ensures ReachesFreshly(trace[n], trace[n + 1]) {
      var (t, step) := steps[n];
      UsedArePreparations(steps, trace, n);
      PreparationsGrow(steps, n + 1);
      assert steps[..n + 1][..n] == steps[..n];
      if step.Prepare? {
        var ids := Preparations(steps[..n]);
        assert Preparations(steps[..n + 1]) == ids + [step.id] && (ids + [step.id])[|ids|] == step.id;
        assert forall i :: 0 <= i < |ids| ==> (ids + [step.id])[i] == ids[i];
      }
      assert Next(trace[n], t, step, trace[n + 1]);
    }
  }

  lemma RecordedOrTakenOut(trace: seq<State>, n: nat, l: Lease)
    requires IsFreshRun(trace) && n < |trace| && l in trace[n].acquired
    requires forall t :: t in trace[n].calls ==> !trace[n].calls[t].Acquired?
    ensures (exists id :: id in trace[n].sessions && trace[n].sessions[id] == l) <==> l !in trace[n].takenOut
  {
    NothingOverwritten(trace, n);
    var prefix := trace[..n + 1];
    LeasesConserved(prefix, n);
    var s := prefix[n];
    var place :| At(s, l, place);
    assert l in s.takenOut ==> At(s, l, Out);
    assert forall id :: id in s.sessions && s.sessions[id] == l ==> At(s, l, InEntry(id));
  }

  // ---- reused ids ----

  /** Step i writes the map entry of a session. */
  predicate RecordsAt(steps: seq<(CallId, Step)>, trace: seq<State>, i: nat, id: string)
    requires i < |steps| < |trace|
  {
    var (t, step) := steps[i];
    step.Record? && t in trace[i].calls && trace[i].calls[t].Acquired? && trace[i].calls[t].id == id
  }

  /** Step i takes out the map entry of a session, if there is one. */
  predicate TakesOutAt(steps: seq<(CallId, Step)>, trace: seq<State>, i: nat, id: string)
    requires i < |steps| < |trace|
  {
    var (t, step) := steps[i];
    step.TakeOut? && t in trace[i].calls && trace[i].calls[t].ReleaseBegun? && trace[i].calls[t].id == id
  }

  /** The session's entry was written at step i and not taken out since. */
  ghost predicate WrittenAt(steps: seq<(CallId, Step)>, trace: seq<State>, i: nat, n: nat, id: string)
    requires n <= |steps| < |trace|
  {
    i < n && RecordsAt(steps, trace, i, id) && forall j :: i < j < n ==> !TakesOutAt(steps, trace, j, id)
  }

  lemma {:induction false} EntryIff(steps: seq<(CallId, Step)>, trace: seq<State>, n: nat, id: string)
    requires IsLabelled(steps, trace) && n <= |steps|
    ensures id in trace[n].sessions <==> exists i: nat :: WrittenAt(steps, trace, i, n, id)
  {
    if n > 0 {
      var m: nat := n - 1;
      EntryIff(steps, trace, m, id);
      assert Next(trace[m], steps[m].0, steps[m].1, trace[n]);
      if RecordsAt(steps, trace, m, id) {
        assert WrittenAt(steps, trace, m, n, id);
      } else if !TakesOutAt(steps, trace, m, id) {
        assert id in trace[n].sessions <==> id in trace[m].sessions;
        if i: nat :| WrittenAt(steps, trace, i, m, id) {
          assert WrittenAt(steps, trace, i, n, id);
        }
        if i: nat :| WrittenAt(steps, trace, i, n, id) {
          assert WrittenAt(steps, trace, i, m, id);
        }
      }
    }
  }

  /** Step n records a lease for a session that has an entry. */
  ghost predicate ReplacesAt(steps: seq<(CallId, Step)>, trace: seq<State>, n: nat)
    requires n < |steps| < |trace|
  {
    exists id :: id in trace[n].sessions && RecordsAt(steps, trace, n, id)
  }

  lemma {:induction false} OverwrittenIff(steps: seq<(CallId, Step)>, trace: seq<State>, n: nat)
    requires IsLabelled(steps, trace) && n <= |steps|
    ensures trace[n].overwritten == {} <==> forall i :: 0 <= i < n ==> !ReplacesAt(steps, trace, i)
  {
    if n > 0 {
      OverwrittenIff(steps, trace, n - 1);
      assert Next(trace[n - 1], steps[n - 1].0, steps[n - 1].1, trace[n]);
      ReplacingLoses(steps, trace, n - 1);
    }
  }

  lemma ReplacingLoses(steps: seq<(CallId, Step)>, trace: seq<State>, n: nat)
    requires n < |steps| < |trace| && Next(trace[n], steps[n].0, steps[n].1, trace[n + 1])
    ensures trace[n].overwritten <= trace[n + 1].overwritten
    ensures if ReplacesAt(steps, trace, n) then trace[n + 1].overwritten != {} else trace[n + 1].overwritten == trace[n].overwritten
  {
    var (t, step) := steps[n];
    if step.Record? && trace[n].calls[t].id in trace[n].sessions {
      assert RecordsAt(steps, trace, n, trace[n].calls[t].id);
      assert trace[n].sessions[trace[n].calls[t].id] in trace[n + 1].overwritten;
    }
  }

  /**
   When reuse of ids does no harm: no lease is lost if and only if between any two recordings for one session
   some ReleaseSessionProxy took the entry out.
   */
  lemma NothingLostIff(steps: seq<(CallId, Step)>, trace: seq<State>)
    requires IsLabelled(steps, trace)
    ensures trace[|steps|].overwritten == {} <==>
            forall i, j, id :: 0 <= i < j < |steps| && RecordsAt(steps, trace, i, id) && RecordsAt(steps, trace, j, id) ==>
              exists k :: i < k < j && TakesOutAt(steps, trace, k, id)
  {
    OverwrittenIff(steps, trace, |steps|);
    forall n, id | 0 <= n < |steps| && RecordsAt(steps, trace, n, id)
      ensures ReplacesAt(steps, trace, n) <==> exists i: nat :: WrittenAt(steps, trace, i, n, id)
    {
      EntryIff(steps, trace, n, id);
    }
    if forall n :: 0 <= n < |steps| ==> !ReplacesAt(steps, trace, n) {
      forall i, j, id | 0 <= i < j < |steps| && RecordsAt(steps, trace, i, id) && RecordsAt(steps, trace, j, id)
        ensures exists k :: i < k < j && TakesOutAt(steps, trace, k, id)
      {
        assert !ReplacesAt(steps, trace, j);
        assert !WrittenAt(steps, trace, i, j, id);
      }
    }
  }

  /** Without fresh ids a lease can be lost: the second preparation of a session overwrites the first one's lease, which nobody releases. */
  lemma ReusedIdLosesLease(id: string) returns (trace: seq<State>)
    ensures IsRun(trace)
    ensures var s := trace[|trace| - 1];
            0 in s.acquired && 0 in s.overwritten && 0 !in s.takenOut && s.sessions == map[id := 1] && forall t :: t in s.calls ==> s.calls[t].Done?
  {
    var s0 := INITIAL;
    var s1 := s0.(calls := map[0 := PrepareBegun(id)], used := {id});
    var s2 := s1.(calls := map[0 := Acquired(id, 0)], acquired := {0});
    var s3 := s2.(calls := map[0 := Done], sessions := map[id := 0]);
    var s4 := s3.(calls := map[0 := Done, 1 := PrepareBegun(id)]);
    var s5 := s4.(calls := map[0 := Done, 1 := Acquired(id, 1)], acquired := {0, 1});
    var s6 := s5.(calls := map[0 := Done, 1 := Done], sessions := map[id := 1], overwritten := {0});
    trace := [s0, s1, s2, s3, s4, s5, s6];
    assert Next(s0, 0, Prepare(id), s1) && Next(s1, 0, Acquire(0), s2) && Next(s2, 0, Record, s3);
    assert Next(s3, 1, Prepare(id), s4) && Next(s4, 1, Acquire(1), s5) && Next(s5, 1, Record, s6);
  }
}
