/**
 The request/response channel between a session and its worker process
 (`internal/adapters/runtime/cloakbrowser/runtime_worker.go`, `runtime_session.go`, `runtime_live.go` and the
 loop of `scripts/worker_main.py`).  Task and live calls share one pipe in each direction.  A mutex lets one
 exchange at a time write its request and wait for a line, but a wait may be given up -- timeout, cancelled
 context -- and the reply then still arrives for whoever reads next.  Replies carry no request number that
 anybody checks, so who gets which reply is a matter of counting.  A worker that leaves its main function with
 an exception writes one more line, its farewell (`playwrightworker/scripts/99_entrypoint.py`), which answers
 no request and is read by whoever waits for one.
 */
module WorkerPipe {
  datatype Kind = Task | LiveFrame | LiveInput

  /** A line on the worker's stdin.  `number` counts the requests; it is not part of the line. */
  datatype Request = Request(number: nat, kind: Kind) | Stop

  /**
   A line on its stdout: the ready line, the reply to the request of that number, typed after its kind, or the
   farewell, which is typed as a task result and holds an error and nothing else.
   */
  datatype Reply = Ready | Reply(number: nat, kind: Kind) | Farewell

  /** How an exchange ended: with a line, given up, or with the pipe closed or the process gone. */
  datatype Outcome = Got(reply: Reply) | GaveUp | Broken

  datatype Worker = Starting | Reading | Gone

  /**
   `asked` are the kinds of the requests sent so far; `waiting` says that the exchange of the last one is
   still running; `outcomes` are the ends of the exchanges before it.
   */
  datatype State = State(
    worker: Worker,
    established: bool,          // startWorker has read the ready line
    shut: bool,                 // the worker wrote a line scanWorkerLines finds too long; nothing behind it is read
    stdin: seq<Request>,
    stdout: seq<Reply>,
    asked: seq<Kind>,
    waiting: bool,
    outcomes: seq<Outcome>)

  const INITIAL := State(Starting, false, false, [], [], [], false, [])

  datatype Step =
    | Announce                  // the worker writes its ready line
    | Handshake                 // startWorker reads a line and finds it to be the ready line
    | Send(kind: Kind)          // an exchange takes the mutex and writes its request
    | Answer                    // the worker reads a request and writes one reply
    | Overflow                  // the worker reads a request and writes a line beyond the 16 MiB that are read
    | Die                       // the worker ends without a word: stop request, end of input, kill
    | Crash                     // an exception leaves main(), be it while starting, in the loop or when closing the browser
    | Receive                   // readLine gets a line
    | GiveUp                    // readLine: timeout or ctx.Done
    | Break                     // readLine: stdout closed or process exited
    | WriteStop                 // stop, which does not take the mutex

  predicate Enabled(s: State, step: Step) {
    match step
    case Announce => s.worker.Starting?
    case Handshake => !s.established && s.stdout != [] && s.stdout[0].Ready?
    case Send(_) => s.established && !s.waiting
    case Answer => Answering(s)
    case Overflow => Answering(s)
    case Die => true
    case Crash => !s.worker.Gone?
    case Receive => s.waiting && s.stdout != []
    case GiveUp => s.waiting
    case Break => s.waiting && (s.worker.Gone? || (s.shut && s.stdout == []))
    case WriteStop => true
  }

  predicate Answering(s: State) { s.worker.Reading? && s.stdin != [] && s.stdin[0].Request? }

  /** What is read of the worker's stdout once it has written one more line. */
  function Written(s: State, line: Reply): seq<Reply> { if s.shut then s.stdout else s.stdout + [line] }

  function Apply(s: State, step: Step): State
    requires Enabled(s, step)
  {
    match step
    case Announce => s.(worker := Reading, stdout := Written(s, Ready))
    case Handshake => s.(established := true, stdout := s.stdout[1..])
    case Send(kind) => s.(stdin := s.stdin + [Request(|s.asked|, kind)], asked := s.asked + [kind], waiting := true)
    case Answer => s.(stdin := s.stdin[1..], stdout := Written(s, Reply(s.stdin[0].number, s.stdin[0].kind)))
    case Overflow => s.(stdin := s.stdin[1..], shut := true)
    case Die => s.(worker := Gone)
    case Crash => s.(worker := Gone, stdout := Written(s, Farewell))
    case Receive => s.(stdout := s.stdout[1..], waiting := false, outcomes := s.outcomes + [Got(s.stdout[0])])
    case GiveUp => s.(waiting := false, outcomes := s.outcomes + [GaveUp])
    case Break => s.(waiting := false, outcomes := s.outcomes + [Broken])
    case WriteStop => s.(stdin := s.stdin + [Stop])
  }

  /** The exchanges that ended without a line. */
  function Missed(outcomes: seq<Outcome>): (k: nat)
    ensures k <= |outcomes|
  {
    if outcomes == [] then 0
    else Missed(outcomes[..|outcomes| - 1]) + if outcomes[|outcomes| - 1].Got? then 0 else 1
  }

  /** The number of replies the host has taken, which is the number of the next reply to come. */
  function Taken(s: State): int { |s.outcomes| - Missed(s.outcomes) }

  // ---- the pipes are first in, first out ----

  /**
   The unread replies answer consecutive requests, but for the farewell at their end; so do the unread requests
   ahead of a stop, while the worker lives and is listened to.
   */
  ghost predicate InOrder(s: State) {
    Counted(s) && RepliesInOrder(s) && RequestsInOrder(s)
  }

  ghost predicate Counted(s: State) {
    && |s.asked| == |s.outcomes| + (if s.waiting then 1 else 0)
    && (!s.established ==> s.asked == [] && (s.worker.Starting? ==> s.stdout == []))
    && (!s.established ==> s.stdout <= [Ready] || (s.worker.Gone? && (s.stdout == [Farewell] || s.stdout == [Ready, Farewell])))
    && (s.worker.Starting? ==> !s.established)
    && (!s.established ==> forall i :: 0 <= i < |s.stdin| ==> s.stdin[i].Stop?)
  }

  ghost predicate RepliesInOrder(s: State) {
    s.established ==> forall i :: 0 <= i < |s.stdout| ==> Ordered(s, i)
  }

  /** The reply at position i has its place, or is the last word of a worker that is gone. */
  predicate Ordered(s: State, i: nat)
    requires i < |s.stdout|
  {
    IsReplyTo(s, s.stdout[i], Taken(s) + i) || (s.stdout[i].Farewell? && i == |s.stdout| - 1 && s.worker.Gone?)
  }

  ghost predicate RequestsInOrder(s: State) {
    s.established && s.worker.Reading? && !s.shut ==>
      (forall i :: 0 <= i < AheadOfStop(s.stdin) ==> IsRequest(s, s.stdin[i], Taken(s) + |s.stdout| + i)) &&
      (AheadOfStop(s.stdin) == |s.stdin| ==> Taken(s) + |s.stdout| + |s.stdin| == |s.asked|)
  }

  /** How many requests the worker will read before it comes to a stop line. */
  function AheadOfStop(lines: seq<Request>): (n: nat)
    ensures n <= |lines| && (forall i :: 0 <= i < n ==> lines[i].Request?) && (n < |lines| ==> lines[n].Stop?)
  {
    if lines == [] || lines[0].Stop? then 0 else 1 + AheadOfStop(lines[1..])
  }

  lemma {:induction false} AheadOfStopGrows(lines: seq<Request>, line: Request)
    ensures AheadOfStop(lines + [line]) ==
            if AheadOfStop(lines) < |lines| then AheadOfStop(lines) else if line.Stop? then |lines| else |lines| + 1
  {
    if lines != [] {
      AheadOfStopGrows(lines[1..], line);
      assert (lines + [line])[1..] == lines[1..] + [line];
    } else {
      assert lines + [line] == [line] && [line][1..] == [];
    }
  }

  predicate IsRequest(s: State, line: Request, number: int) {
    0 <= number < |s.asked| && line == Request(number, s.asked[number])
  }

  predicate IsReplyTo(s: State, reply: Reply, number: int) {
    0 <= number < |s.asked| && reply == Reply(number, s.asked[number])
  }

  /**
   An exchange that got a line got the reply to the request sent as many requests earlier as exchanges had
   missed theirs before, or the worker's last word.
   */
  ghost predicate Paired(s: State) {
    forall n :: 0 <= n < |s.outcomes| && s.outcomes[n].Got? ==> PairedAt(s, n)
  }

  ghost predicate PairedAt(s: State, n: nat)
    requires n < |s.outcomes| && s.outcomes[n].Got?
  {
    IsReplyTo(s, s.outcomes[n].reply, n - Missed(s.outcomes[..n])) || (s.outcomes[n].reply.Farewell? && Silent(s, n))
  }

  /** No exchange after the n-th has got a line, and none will. */
  ghost predicate Silent(s: State, n: nat) {
    s.worker.Gone? && s.stdout == [] && forall i :: n < i < |s.outcomes| ==> !s.outcomes[i].Got?
  }

  /** The exchange under way ends with an outcome; a line is the next reply, or the last one there will be. */
  lemma OutcomeAdded(s: State, o: Outcome, s': State)
    requires Paired(s) && s'.outcomes == s.outcomes + [o] && s'.asked == s.asked && s'.worker == s.worker
    requires if o.Got? then s.stdout != [] && s'.stdout == s.stdout[1..] && o.reply == s.stdout[0] && Ordered(s, 0)
             else s'.stdout == s.stdout
    ensures Paired(s') && Taken(s') == Taken(s) + if o.Got? then 1 else 0
  {
    assert s'.outcomes[..|s.outcomes|] == s.outcomes;
    forall n | 0 <= n < |s'.outcomes| && s'.outcomes[n].Got? ensures PairedAt(s', n) {
      if n < |s.outcomes| {
        assert s'.outcomes[..n] == s.outcomes[..n];
        assert PairedAt(s, n);
      }
    }
  }

  /** Replies already written stay in order when more is asked. */
  lemma RepliesStay(s: State, s': State)
    requires RepliesInOrder(s) && s'.stdout == s.stdout && s'.established == s.established && Taken(s') == Taken(s) && s.asked <= s'.asked
    requires s'.worker == s.worker
    ensures RepliesInOrder(s')
  {
    forall i | s'.established && 0 <= i < |s'.stdout| ensures Ordered(s', i) {
      assert Ordered(s, i);
    }
  }

  lemma SendKeepsOrder(s: State, kind: Kind)
    requires Enabled(s, Send(kind)) && InOrder(s)
    ensures InOrder(Apply(s, Send(kind)))
  {
    RepliesStay(s, Apply(s, Send(kind)));
    SendKeepsRequests(s, kind);
  }

  lemma SendKeepsRequests(s: State, kind: Kind)
    requires Enabled(s, Send(kind)) && Counted(s) && RequestsInOrder(s)
    ensures RequestsInOrder(Apply(s, Send(kind)))
  {
    var s' := Apply(s, Send(kind));
    AheadOfStopGrows(s.stdin, Request(|s.asked|, kind));
    forall i | s.worker.Reading? && !s.shut && 0 <= i < AheadOfStop(s'.stdin) ensures IsRequest(s', s'.stdin[i], Taken(s') + |s'.stdout| + i) {
      assert i < |s.stdin| ==> IsRequest(s, s.stdin[i], Taken(s) + |s.stdout| + i);
    }
  }

  lemma AnswerKeepsOrder(s: State)
    requires Enabled(s, Answer) && InOrder(s)
    ensures InOrder(Apply(s, Answer))
  {
    AnswerKeepsReplies(s);
    AnswerKeepsRequests(s);
  }

  lemma AnswerKeepsReplies(s: State)
    requires Enabled(s, Answer) && InOrder(s)
    ensures Counted(Apply(s, Answer)) && RepliesInOrder(Apply(s, Answer))
  {
    var s' := Apply(s, Answer);
    assert s.established && !s.shut ==> IsRequest(s, s.stdin[0], Taken(s) + |s.stdout| + 0);
    forall i | s.established && 0 <= i < |s'.stdout| ensures Ordered(s', i) {
      assert i < |s.stdout| ==> Ordered(s, i);
    }
  }

  lemma AnswerKeepsRequests(s: State)
    requires Enabled(s, Answer) && InOrder(s)
    ensures RequestsInOrder(Apply(s, Answer))
  {
    var s' := Apply(s, Answer);
    forall i | s.established && !s.shut && 0 <= i < AheadOfStop(s'.stdin)
      ensures IsRequest(s', s'.stdin[i], Taken(s') + |s'.stdout| + i)
    {
      assert IsRequest(s, s.stdin[i + 1], Taken(s) + |s.stdout| + (i + 1));
    }
  }

  /** A farewell goes behind the replies, and nothing after it. */
  lemma CrashKeepsOrder(s: State)
    requires Enabled(s, Crash) && InOrder(s)
    ensures InOrder(Apply(s, Crash))
  {
    var s' := Apply(s, Crash);
    forall i | s.established && 0 <= i < |s'.stdout| ensures Ordered(s', i) {
      assert i < |s.stdout| ==> Ordered(s, i);
    }
  }

  /** The head of the unread replies is taken by the exchange that ends. */
  lemma ReceiveKeepsOrder(s: State)
    requires InOrder(s) && Paired(s) && Enabled(s, Receive)
    ensures InOrder(Apply(s, Receive)) && Paired(Apply(s, Receive))
  {
    var s' := Apply(s, Receive);
    assert Ordered(s, 0);
    OutcomeAdded(s, Got(s.stdout[0]), s');
    RepliesTaken(s, s');
    RequestsStay(s, s');
  }

  lemma RepliesTaken(s: State, s': State)
    requires RepliesInOrder(s) && s.stdout != [] && s'.stdout == s.stdout[1..] && s'.asked == s.asked
    requires s'.established == s.established && s'.worker == s.worker && Taken(s') == Taken(s) + 1
    ensures RepliesInOrder(s')
  {
    forall i | s'.established && 0 <= i < |s'.stdout| ensures Ordered(s', i) {
      assert Ordered(s, i + 1);
    }
  }

  /** An exchange that ends without a line leaves the replies where they are. */
  lemma MissKeepsOrder(s: State, o: Outcome, s': State)
    requires InOrder(s) && Paired(s) && s.waiting && !o.Got?
    requires s' == s.(waiting := false, outcomes := s.outcomes + [o])
    ensures InOrder(s') && Paired(s')
  {
    OutcomeAdded(s, o, s');
    RepliesStay(s, s');
    RequestsStay(s, s');
  }

  lemma RequestsStay(s: State, s': State)
    requires RequestsInOrder(s) && s'.stdin == s.stdin && s'.asked == s.asked && Taken(s') + |s'.stdout| == Taken(s) + |s.stdout|
    requires s'.established == s.established && s'.worker == s.worker && s'.shut == s.shut
    ensures RequestsInOrder(s')
  {
    forall i | s.established && s.worker.Reading? && !s.shut && 0 <= i < AheadOfStop(s'.stdin)
      ensures IsRequest(s', s'.stdin[i], Taken(s') + |s'.stdout| + i)
    {
      assert IsRequest(s, s.stdin[i], Taken(s) + |s.stdout| + i);
    }
  }

  lemma WriteStopKeepsOrder(s: State)
    requires InOrder(s)
    ensures InOrder(Apply(s, WriteStop))
  {
    RepliesStay(s, Apply(s, WriteStop));
    WriteStopKeepsRequests(s);
  }

  lemma WriteStopKeepsRequests(s: State)
    requires RequestsInOrder(s)
    ensures RequestsInOrder(Apply(s, WriteStop))
  {
    var s' := Apply(s, WriteStop);
    AheadOfStopGrows(s.stdin, Stop);
    forall i | s.established && s.worker.Reading? && !s.shut && 0 <= i < AheadOfStop(s'.stdin)
      ensures IsRequest(s', s'.stdin[i], Taken(s') + |s'.stdout| + i)
    {
      assert IsRequest(s, s.stdin[i], Taken(s) + |s.stdout| + i);
    }
  }

  lemma OtherStepKeepsOrder(s: State, step: Step)
    requires Enabled(s, step) && InOrder(s) && (step.Announce? || step.Handshake? || step.Overflow? || step.Die?)
    ensures InOrder(Apply(s, step))
  {
    var s' := Apply(s, step);
    forall i | s'.established && 0 <= i < |s'.stdout| ensures Ordered(s', i) {
      assert s.established ==> Ordered(s, i);
    }
  }

  /** Answers already given stay answers when more is asked, and a worker that is gone writes nothing. */
  lemma PairedKept(s: State, step: Step)
    requires Enabled(s, step) && Paired(s) && Apply(s, step).outcomes == s.outcomes
    requires Counted(s)
    ensures Paired(Apply(s, step))
  {
    var s' := Apply(s, step);
    forall n | 0 <= n < |s'.outcomes| && s'.outcomes[n].Got? ensures PairedAt(s', n) {
      assert PairedAt(s, n);
      assert s.asked <= s'.asked;
    }
  }

  lemma StepKeepsOrder(s: State, step: Step)
    requires Enabled(s, step) && InOrder(s) && Paired(s)
    ensures InOrder(Apply(s, step)) && Paired(Apply(s, step))
  {
    if Apply(s, step).outcomes == s.outcomes {
      PairedKept(s, step);
    }
    match step
    case Send(kind) => SendKeepsOrder(s, kind);
    case Answer => AnswerKeepsOrder(s);
    case Crash => CrashKeepsOrder(s);
    case Receive => ReceiveKeepsOrder(s);
    case GiveUp => MissKeepsOrder(s, GaveUp, Apply(s, step));
    case Break => MissKeepsOrder(s, Broken, Apply(s, step));
    case WriteStop => WriteStopKeepsOrder(s);
    case _ => OtherStepKeepsOrder(s, step);
  }

  // ---- runs ----

  ghost predicate IsRun(steps: seq<Step>, trace: seq<State>) {
    && |trace| == |steps| + 1 && trace[0] == INITIAL
    && forall i :: 0 <= i < |steps| ==> Enabled(trace[i], steps[i]) && trace[i + 1] == Apply(trace[i], steps[i])
  }

  lemma {:induction false} OrderOverRuns(steps: seq<Step>, trace: seq<State>, n: nat)
    requires IsRun(steps, trace) && n < |trace|
    ensures InOrder(trace[n]) && Paired(trace[n])
  {
    if n > 0 {
      OrderOverRuns(steps, trace, n - 1);
      StepKeepsOrder(trace[n - 1], steps[n - 1]);
    }
  }

  /**
   Pairing with exact lag, task and live calls mixed: the exchange of request m, if it got a line, got the
   reply to request m - k, where k exchanges before it ended without one, or else the worker's farewell, after
   which no exchange gets a line.  So it is its own reply if and only if none was missed before it and the
   line is not the farewell.
   */
  lemma PairingWithLag(steps: seq<Step>, trace: seq<State>, n: nat, m: nat)
    requires IsRun(steps, trace) && n < |trace| && m < |trace[n].outcomes| && trace[n].outcomes[m].Got?
    ensures var s := trace[n]; var k := Missed(s.outcomes[..m]); var reply := s.outcomes[m].reply;
            && k <= m < |s.asked|
            && (if reply.Farewell? then Silent(s, m) else reply == Reply(m - k, s.asked[m - k]))
            && ((forall i :: 0 <= i < m ==> s.outcomes[i].Got?) <==> k == 0)
            && (reply == Reply(m, s.asked[m]) <==> k == 0 && !reply.Farewell?)
  {
    OrderOverRuns(steps, trace, n);
    var s := trace[n];
    assert PairedAt(s, m);
    MissedNone(s.outcomes[..m]);
    assert forall i :: 0 <= i < m ==> s.outcomes[..m][i] == s.outcomes[i];
  }

  lemma {:induction false} MissedNone(outcomes: seq<Outcome>)
    ensures Missed(outcomes) == 0 <==> forall i :: 0 <= i < |outcomes| ==> outcomes[i].Got?
  {
    if outcomes != [] {
      MissedNone(outcomes[..|outcomes| - 1]);
    }
  }

  /** The lag never heals: after one missed exchange no exchange gets the reply to its own request again. */
  lemma LagNeverHeals(steps: seq<Step>, trace: seq<State>, n: nat, miss: nat, m: nat)
    requires IsRun(steps, trace) && n < |trace| && miss < m < |trace[n].outcomes|
    requires !trace[n].outcomes[miss].Got? && trace[n].outcomes[m].Got?
    ensures var reply := trace[n].outcomes[m].reply; reply.Farewell? || (reply.Reply? && reply.number < m)
  {
    PairingWithLag(steps, trace, n, m);
    assert !(forall i :: 0 <= i < m ==> trace[n].outcomes[i].Got?);
  }

  /** Only a worker that an exception ended leaves a farewell. */
  lemma {:induction false} FarewellOfCrash(steps: seq<Step>, trace: seq<State>, n: nat)
    requires IsRun(steps, trace) && n < |trace| && (forall i :: 0 <= i < n ==> !steps[i].Crash?)
    ensures Farewell !in trace[n].stdout && Got(Farewell) !in trace[n].outcomes
  {
    if n > 0 {
      FarewellOfCrash(steps, trace, n - 1);
      assert trace[n] == Apply(trace[n - 1], steps[n - 1]);
    }
  }

  /**
   The farewell goes to an exchange of any kind: its request may have raised what the worker does not catch, or
   have been written behind a stop, with the exception raised while the browser was closed.
   */
  lemma FarewellIsRead(kind: Kind, stopped: bool) returns (steps: seq<Step>, trace: seq<State>)
    ensures IsRun(steps, trace) && (stopped <==> WriteStop in steps)
    ensures var s := trace[|steps|]; s.asked == [kind] && s.outcomes == [Got(Farewell)]
  {
    var s1 := Apply(INITIAL, Announce);
    var s2 := Apply(s1, Handshake);
    var s3 := if stopped then Apply(s2, WriteStop) else s2;
    var s4 := Apply(s3, Send(kind));
    var s5 := Apply(s4, Crash);
    var s6 := Apply(s5, Receive);
    if stopped {
      steps := [Announce, Handshake, WriteStop, Send(kind), Crash, Receive];
      trace := [INITIAL, s1, s2, s3, s4, s5, s6];
    } else {
      steps := [Announce, Handshake, Send(kind), Crash, Receive];
      trace := [INITIAL, s1, s2, s4, s5, s6];
    }
  }

  /**
   Whether a reply that reports no error passes for an answer to a request of the asked kind: by its type alone.
   An error the live decoders report before they look at the type, decodeWorkerResponse after it.
   */
  predicate Accepted(asked: Kind, reply: Reply) { reply.Reply? && reply.kind == asked }

  /** So a task call whose predecessor timed out accepts the predecessor's results as its own. */
  lemma TaskAcceptsForeignResults() returns (steps: seq<Step>, trace: seq<State>)
    ensures IsRun(steps, trace)
    ensures var s := trace[|steps|];
            && s.asked == [Task, Task] && s.outcomes == [GaveUp, Got(Reply(0, Task))]
            && Accepted(s.asked[1], s.outcomes[1].reply)
  {
    steps := [Announce, Handshake, Send(Task), GiveUp, Answer, Send(Task), Receive];
    var s1 := Apply(INITIAL, Announce);
    var s2 := Apply(s1, Handshake);
    var s3 := Apply(s2, Send(Task));
    var s4 := Apply(s3, GiveUp);
    var s5 := Apply(s4, Answer);
    var s6 := Apply(s5, Send(Task));
    var s7 := Apply(s6, Receive);
    trace := [INITIAL, s1, s2, s3, s4, s5, s6, s7];
  }
}
