/**
 The two polling loops of the worker: `resolve_first_visible_locator` in
 `internal/adapters/runtime/playwrightworker/scripts/32_locator_group.py` and `NetworkLog.wait_for` in
 `00_imports_constants.py`.  The page is an oracle that may look different in every round; the clock is read
 at the end of each round and moves on from one reading to the next.  Times are in nanoseconds.  Between rounds
 the page is asked to wait, which raises if it is gone.
 */
module Poll {
  import opened Wrappers
  import NetworkLog

  /** What one look at one selector's first element shows; an exception, too, is an `Absent`. */
  datatype Sight = Visible | Attached | Absent

  /** The sight of selector i in round k. */
  type Looks = (nat, nat) -> Sight

  /** Whether the wait after round k raises. */
  type Waits = nat -> bool

  /** What the loop comes to: a result, its timeout error, or the exception of a wait. */
  datatype End<T> = Found(value: T) | TimedOut | WaitRaised

  /** The reading at the end of round k. */
  type Clock = nat -> int

  ghost predicate Advancing(clock: Clock) {
    forall k: nat, l: nat :: k < l ==> clock(k) < clock(l)
  }

  /** The round after which the loop gives up: the first whose reading has reached the deadline, the first of all without a timeout. */
  ghost predicate IsLastRound(timeout: Option<int>, start: int, clock: Clock, last: nat) {
    match timeout
    case None => last == 0
    case Some(t) => clock(last) >= start + t && forall k: nat :: k < last ==> clock(k) < start + t
  }

  lemma {:induction false} ReadingGrows(clock: Clock, k: nat)
    requires Advancing(clock)
    ensures clock(k) >= clock(0) + k
  {
    if k > 0 {
      ReadingGrows(clock, k - 1);
    }
  }

  lemma LastRoundExists(timeout: Option<int>, start: int, clock: Clock) returns (last: nat)
    requires Advancing(clock)
    ensures IsLastRound(timeout, start, clock, last)
  {
    if timeout.None? {
      last := 0;
    } else {
      var deadline := start + timeout.value;
      var far: nat := if deadline > clock(0) then deadline - clock(0) else 0;
      ReadingGrows(clock, far);
      last := FirstAtLeast(clock, deadline, far);
    }
  }

  lemma {:induction false} FirstAtLeast(clock: Clock, deadline: int, far: nat) returns (last: nat)
    requires clock(far) >= deadline
    ensures clock(last) >= deadline && forall k: nat :: k < last ==> clock(k) < deadline
  {
    if k: nat :| k < far && clock(k) >= deadline {
      last := FirstAtLeast(clock, deadline, k);
    } else {
      last := far;
    }
  }

  lemma SomeLastRound(timeout: Option<int>, start: int, clock: Clock)
    requires Advancing(clock)
    ensures exists last: nat :: IsLastRound(timeout, start, clock, last)
  {
    var last := LastRoundExists(timeout, start, clock);
  }

  /** A clock that moves on brings every poll to an end. */
  ghost function LastRound(timeout: Option<int>, start: int, clock: Clock): (last: nat)
    requires Advancing(clock)
    ensures IsLastRound(timeout, start, clock, last)
  {
    SomeLastRound(timeout, start, clock);
    var last: nat :| IsLastRound(timeout, start, clock, last);
    last
  }

  /** (k, i) comes before (l, j): in an earlier round, or earlier in the list in the same one. */
  predicate Earlier(k: nat, i: nat, l: nat, j: nat) { k < l || (k == l && i < j) }

  /** No selector among the first n, looked at before (l, j), gave such a sight. */
  ghost predicate NoneBefore(looks: Looks, sight: Sight, n: nat, l: nat, j: nat) {
    forall k: nat, i: nat :: i < n && Earlier(k, i, l, j) ==> looks(k, i) != sight
  }

  ghost predicate FirstSeen(looks: Looks, sight: Sight, n: nat, k: nat, i: nat) {
    i < n && looks(k, i) == sight && NoneBefore(looks, sight, n, k, i)
  }

  /** A wait raises before any selector has been seen visible. */
  ghost predicate CutShort(looks: Looks, n: nat, waits: Waits, last: nat) {
    exists k: nat :: k < last && waits(k) && NoneBefore(looks, Visible, n, k + 1, 0)
  }

  /** The locator of the selector found is returned. */
  ghost predicate IsResolution(looks: Looks, n: nat, waits: Waits, last: nat, r: End<nat>) {
    if CutShort(looks, n, waits, last) then r == WaitRaised
    else if NoneBefore(looks, Visible, n, last + 1, 0) then
      if NoneBefore(looks, Attached, n, last + 1, 0) then r == TimedOut
      else r.Found? && exists k: nat :: k <= last && FirstSeen(looks, Attached, n, k, r.value)
    else
      r.Found? && exists k: nat :: k <= last && FirstSeen(looks, Visible, n, k, r.value)
  }

  /** A selector seen visible in round k ends the loop before the later waits. */
  lemma SeenInTime(looks: Looks, n: nat, waits: Waits, last: nat, k: nat, i: nat)
    requires i < n && looks(k, i).Visible? && forall l: nat :: l < k ==> !waits(l)
    ensures !CutShort(looks, n, waits, last)
  {
    forall l: nat | l < last && waits(l) ensures !NoneBefore(looks, Visible, n, l + 1, 0) {
      assert Earlier(k, i, l + 1, 0);
    }
  }

  /**
   The loop ends, after one round if there is no timeout.  It returns the first visible selector of the
   earliest round that shows one, else the first selector seen attached in round-then-list order, else it times
   out; unless a wait raises before a selector was seen visible.
   */
  method ResolveFirstVisible(looks: Looks, n: nat, waits: Waits, timeout: Option<int>, start: int, clock: Clock)
    returns (r: End<nat>)
    requires Advancing(clock)
    ensures IsResolution(looks, n, waits, LastRound(timeout, start, clock), r)
  {
    var candidate: Option<nat> := None;
    ghost var seenIn: nat := 0;
    var k: nat := 0;
    ghost var last := LastRound(timeout, start, clock);
    while true
      invariant k <= last && forall l: nat :: l < k ==> !waits(l)
      invariant NoneBefore(looks, Visible, n, k, 0)
      invariant Remembers(looks, n, k, 0, candidate, seenIn)
      decreases last - k
    {
      for i := 0 to n
        invariant NoneBefore(looks, Visible, n, k, i)
        invariant Remembers(looks, n, k, i, candidate, seenIn)
      {
        if looks(k, i).Visible? {
          assert FirstSeen(looks, Visible, n, k, i);
          SeenInTime(looks, n, waits, last, k, i);
          return Found(i);
        }
        if candidate.None? && looks(k, i).Attached? {
          candidate, seenIn := Some(i), k;
        }
        NextLook(looks, Visible, n, k, i);
        NextLook(looks, Attached, n, k, i);
      }
      NextRound(looks, Visible, n, k);
      NextRound(looks, Attached, n, k);
      if timeout.None? || clock(k) >= start + timeout.value {
        break;
      }
      if waits(k) {
        assert CutShort(looks, n, waits, last);
        return WaitRaised;
      }
      k := k + 1;
    }
    assert k == last;
    return if candidate.Some? then Found(candidate.value) else TimedOut;
  }

  /** The attached candidate is the first one seen so far, and None only while none was. */
  ghost predicate Remembers(looks: Looks, n: nat, k: nat, i: nat, candidate: Option<nat>, seenIn: nat) {
    match candidate
    case None => NoneBefore(looks, Attached, n, k, i)
    case Some(c) => seenIn <= k && Earlier(seenIn, c, k, i) && FirstSeen(looks, Attached, n, seenIn, c)
  }

  lemma NextLook(looks: Looks, sight: Sight, n: nat, k: nat, i: nat)
    requires i < n
    ensures NoneBefore(looks, sight, n, k, i + 1) <==> NoneBefore(looks, sight, n, k, i) && looks(k, i) != sight
  {
    assert Earlier(k, i, k, i + 1);
    assert forall l: nat, j: nat :: Earlier(l, j, k, i) ==> Earlier(l, j, k, i + 1);
    forall l: nat, j: nat | j < n && Earlier(l, j, k, i + 1) && !Earlier(l, j, k, i) ensures l == k && j == i {
    }
  }

  lemma NextRound(looks: Looks, sight: Sight, n: nat, k: nat)
    ensures NoneBefore(looks, sight, n, k, n) <==> NoneBefore(looks, sight, n, k + 1, 0)
  {
    forall l: nat, j: nat | j < n ensures Earlier(l, j, k, n) <==> Earlier(l, j, k + 1, 0) {
    }
  }

  /** What is returned is determined by the page and the clock alone. */
  lemma ResolutionUnique(looks: Looks, n: nat, waits: Waits, last: nat, r: End<nat>, r': End<nat>)
    requires IsResolution(looks, n, waits, last, r) && IsResolution(looks, n, waits, last, r')
    ensures r == r'
  {
  }

  /** With no timeout exactly one round is made; with one, no round begins after a reading at or past the deadline. */
  lemma RoundsMade(timeout: Option<int>, start: int, clock: Clock, k: nat)
    requires Advancing(clock)
    ensures timeout.None? ==> LastRound(timeout, start, clock) == 0
    ensures timeout.Some? ==> (k < LastRound(timeout, start, clock) <==> clock(k) < start + timeout.value)
  {
    var last := LastRound(timeout, start, clock);
    assert k > last ==> clock(last) < clock(k);
  }

  // ---- waiting for a network request ----

  /** What first_matching finds in round k; the log may change from round to round. */
  function Hit(logs: nat -> seq<NetworkLog.Event>, f: NetworkLog.Filter, requireResponse: bool, search: (string, string) -> bool, k: nat)
    : Option<NetworkLog.Event>
  {
    NetworkLog.Earliest(logs(k), f, requireResponse, search)
  }

  type Hits = nat -> Option<NetworkLog.Event>

  ghost predicate NoHit(hits: Hits, n: nat) {
    forall k: nat :: k < n ==> hits(k).None?
  }

  /** A wait raises before there was a match. */
  ghost predicate WaitCutShort(hits: Hits, waits: Waits, last: nat) {
    exists k: nat :: k < last && waits(k) && NoHit(hits, k + 1)
  }

  ghost predicate FirstHit(hits: Hits, last: nat, event: NetworkLog.Event) {
    exists k: nat :: k <= last && hits(k) == Some(event) && NoHit(hits, k)
  }

  /** The matching entry of the first round that has one. */
  ghost predicate IsWait(hits: Hits, waits: Waits, last: nat, r: End<NetworkLog.PublicEvent>) {
    if WaitCutShort(hits, waits, last) then r == WaitRaised
    else if NoHit(hits, last + 1) then r == TimedOut
    else r.Found? && exists event :: FirstHit(hits, last, event) && r.value == NetworkLog.Public(event)
  }

  lemma HitEnds(hits: Hits, waits: Waits, last: nat, k: nat, event: NetworkLog.Event)
    requires k <= last && NoHit(hits, k) && (forall l: nat :: l < k ==> !waits(l)) && hits(k) == Some(event)
    ensures IsWait(hits, waits, last, Found(NetworkLog.Public(event)))
  {
    assert FirstHit(hits, last, event);
  }

  lemma MissEnds(hits: Hits, waits: Waits, last: nat)
    requires NoHit(hits, last + 1) && (forall l: nat :: l < last ==> !waits(l))
    ensures IsWait(hits, waits, last, TimedOut)
  {
  }

  lemma WaitEnds(hits: Hits, waits: Waits, last: nat, k: nat)
    requires k < last && NoHit(hits, k + 1) && waits(k)
    ensures IsWait(hits, waits, last, WaitRaised)
  {
    assert WaitCutShort(hits, waits, last);
  }

  const DEFAULT_WAIT := 5_000_000_000

  /**
   wait_for: the earliest matching entry of the first round that has one, or the timeout error when the deadline
   has passed, unless a wait raises before.
   */
  method WaitFor(logs: nat -> seq<NetworkLog.Event>, f: NetworkLog.Filter, requireResponse: bool, search: (string, string) -> bool,
                 waits: Waits, timeout: Option<int>, start: int, clock: Clock)
    returns (r: End<NetworkLog.PublicEvent>)
    requires Advancing(clock)
    ensures IsWait((k: nat) => Hit(logs, f, requireResponse, search, k), waits,
                   LastRound(Some(if timeout.None? then DEFAULT_WAIT else timeout.value), start, clock), r)
  {
    var deadline := start + if timeout.None? then DEFAULT_WAIT else timeout.value;
    ghost var last := LastRound(Some(if timeout.None? then DEFAULT_WAIT else timeout.value), start, clock);
    ghost var hits: Hits := (k: nat) => Hit(logs, f, requireResponse, search, k);
    var k: nat := 0;
    while true
      invariant k <= last && NoHit(hits, k) && forall l: nat :: l < k ==> !waits(l)
      decreases last - k
    {
      var event := NetworkLog.Earliest(logs(k), f, requireResponse, search);
      if event.Some? {
        HitEnds(hits, waits, last, k, event.value);
        return Found(NetworkLog.Public(event.value));
      }
      if clock(k) >= deadline {
        MissEnds(hits, waits, last);
        return TimedOut;
      }
      if waits(k) {
        WaitEnds(hits, waits, last, k);
        return WaitRaised;
      }
      k := k + 1;
    }
  }
}
