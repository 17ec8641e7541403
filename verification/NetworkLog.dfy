/**
 The worker's network log (`internal/adapters/runtime/playwrightworker/scripts/00_imports_constants.py` and
 `52_network_utils.py`): the last 300 requests a page has started, each updated by the events that follow it.
 `full` is the log without the bound; the class keeps the retained entries equal to its end.
 */
module NetworkLog {
  import opened Wrappers
  import Text

  const RETAINED := 300

  datatype Phase = Started | Finished | Failed

  /** `requestId` is id(request), which may come again; `rawUrl` is the private member _url. */
  datatype Event = Event(
    requestId: int, url: string, rawUrl: string, verb: string, resourceType: string, phase: Phase, startedAt: int,
    statusCode: Option<int>, responseAt: Option<int>, finishedAt: Option<int>, failedAt: Option<int>, failure: Option<string>)

  /** What a caller gets to see of an entry: every member but the private one. */
  datatype PublicEvent = PublicEvent(
    requestId: int, url: string, verb: string, resourceType: string, phase: Phase, startedAt: int,
    statusCode: Option<int>, responseAt: Option<int>, finishedAt: Option<int>, failedAt: Option<int>, failure: Option<string>)

  function Public(e: Event): PublicEvent {
    PublicEvent(e.requestId, e.url, e.verb, e.resourceType, e.phase, e.startedAt,
                e.statusCode, e.responseAt, e.finishedAt, e.failedAt, e.failure)
  }

  /** A caller sees every member of an entry as it is, but for the URL with its query. */
  lemma PublicShows(e: Event)
    ensures var p := Public(e);
            Event(p.requestId, p.url, e.rawUrl, p.verb, p.resourceType, p.phase, p.startedAt,
                  p.statusCode, p.responseAt, p.finishedAt, p.failedAt, p.failure) == e
  {
  }

  function Upper(s: string): string {
    seq(|s|, i requires 0 <= i < |s| => if 'a' <= s[i] <= 'z' then (s[i] as int - 32) as char else s[i])
  }

  /** Small letters become the capitals of the same place in the alphabet, and nothing else changes. */
  lemma UpperFolds(s: string, i: nat)
    requires i < |s|
    ensures var u := Upper(s)[i];
            if 'a' <= s[i] <= 'z' then 'A' <= u <= 'Z' && u as int - 'A' as int == s[i] as int - 'a' as int else u == s[i]
  {
  }

  /** The part before the first `c`, or everything. */
  function Before(s: string, c: char): string {
    match Text.Cut(s, c)
    case Some((before, _)) => before
    case None => s
  }

  function SanitizeUrl(raw: string): string {
    Before(Before(Text.Trim(raw), '#'), '?')
  }

  // ---- page events ----

  /** The callbacks of the page; a response may come without its request. */
  datatype Happening =
    | Request(requestId: int, url: string, verb: string, resourceType: string, at: int)
    | Response(request: Option<int>, status: int, at: int)
    | RequestFinished(requestId: int, at: int, answer: Option<int>)
    | RequestFailed(requestId: int, at: int, failure: string)

  function NewEvent(h: Happening): Event
    requires h.Request?
  {
    Event(h.requestId, SanitizeUrl(h.url), h.url, Upper(h.verb), h.resourceType, Started, h.at, None, None, None, None, None)
  }

  /** The request an event is about. */
  function Subject(h: Happening): Option<int> {
    if h.Response? then h.request else Some(h.requestId)
  }

  function Updated(e: Event, h: Happening): Event {
    match h
    case Request(_, _, _, _, _) => e
    case Response(_, status, at) => e.(statusCode := Some(status), responseAt := Some(at))
    case RequestFinished(_, at, answer) =>
      e.(phase := Finished, finishedAt := Some(at), statusCode := if answer.Some? then answer else e.statusCode)
    case RequestFailed(_, at, failure) =>
      e.(phase := Failed, failedAt := Some(at), failure := if failure != "" then Some(failure) else e.failure)
  }

  /** The index of the newest entry for a request, or -1. */
  function Newest(events: seq<Event>, requestId: int): (n: int)
    ensures -1 <= n < |events|
    ensures n >= 0 ==> events[n].requestId == requestId
    ensures forall i :: n < i < |events| ==> events[i].requestId != requestId
  {
    if events == [] then -1
    else if events[|events| - 1].requestId == requestId then |events| - 1
    else Newest(events[..|events| - 1], requestId)
  }

  /** The log that forgets nothing: a request is appended, any other event updates the newest entry of its request. */
  function Record(events: seq<Event>, h: Happening): seq<Event> {
    if h.Request? then events + [NewEvent(h)]
    else if Subject(h).None? || Newest(events, Subject(h).value) < 0 then events
    else
      var n := Newest(events, Subject(h).value);
      events[n := Updated(events[n], h)]
  }

  function RecordAll(happenings: seq<Happening>): seq<Event> {
    if happenings == [] then [] else Record(RecordAll(happenings[..|happenings| - 1]), happenings[|happenings| - 1])
  }

  function Last<T>(s: seq<T>, n: nat): (r: seq<T>)
    ensures |r| == if |s| < n then |s| else n
    ensures forall i :: 0 <= i < |r| ==> r[i] == s[|s| - |r| + i]
  {
    if |s| <= n then s else s[|s| - n..]
  }

  /** The newest entry of a request is found among the last entries or lies before them. */
  lemma NewestOfLast(full: seq<Event>, requestId: int)
    ensures var kept := Last(full, RETAINED); var n, m := Newest(kept, requestId), Newest(full, requestId);
            if n >= 0 then m == |full| - |kept| + n else m < |full| - |kept|
  {
    NewestOfSuffix(full, requestId, |full| - |Last(full, RETAINED)|, Last(full, RETAINED));
  }

  lemma NewestOfSuffix(full: seq<Event>, requestId: int, dropped: nat, kept: seq<Event>)
    requires dropped <= |full| && |kept| == |full| - dropped && forall i :: 0 <= i < |kept| ==> kept[i] == full[dropped + i]
    ensures var n, m := Newest(kept, requestId), Newest(full, requestId);
            if n >= 0 then m == dropped + n else m < dropped
  {
    var n, m := Newest(kept, requestId), Newest(full, requestId);
    if m >= dropped {
      assert full[m] == kept[m - dropped];
    }
    if n >= 0 {
      assert full[dropped + n] == kept[n];
      assert m >= dropped + n;
    }
  }

  lemma LastOfUpdated(full: seq<Event>, m: nat, e: Event)
    requires m < |full|
    ensures var kept := Last(full, RETAINED); var dropped := |full| - |kept|;
            Last(full[m := e], RETAINED) == if m >= dropped then kept[m - dropped := e] else kept
  {
  }

  lemma LastOfAppended(full: seq<Event>, e: Event)
    ensures Last(Last(full, RETAINED) + [e], RETAINED) == Last(full + [e], RETAINED)
  {
  }

  lemma LastOfLast(full: seq<Event>)
    ensures Last(Last(full, RETAINED), RETAINED) == Last(full, RETAINED)
  {
  }

  lemma UpdateRefinesFull(full: seq<Event>, h: Happening, requestId: int)
    requires !h.Request? && Subject(h) == Some(requestId)
    ensures Record(Last(full, RETAINED), h) == Last(Record(full, h), RETAINED)
  {
    var m := Newest(full, requestId);
    NewestOfLast(full, requestId);
    if m >= 0 {
      LastOfUpdated(full, m, Updated(full[m], h));
      var kept := Last(full, RETAINED);
      assert m >= |full| - |kept| ==> kept[m - (|full| - |kept|)] == full[m];
    }
  }

  /** Dropping the oldest entries before an event or after it makes no difference to those that stay. */
  lemma BoundRefinesFull(full: seq<Event>, h: Happening)
    ensures Last(Record(Last(full, RETAINED), h), RETAINED) == Last(Record(full, h), RETAINED)
    ensures !h.Request? ==> Record(Last(full, RETAINED), h) == Last(Record(full, h), RETAINED)
  {
    if h.Request? {
      LastOfAppended(full, NewEvent(h));
    } else if Subject(h).Some? {
      UpdateRefinesFull(full, h, Subject(h).value);
      LastOfLast(Record(full, h));
    } else {
      LastOfLast(full);
    }
  }

  /** What the page's callbacks leave in the list: each one works on the retained entries only, and the oldest are cut off. */
  function Kept(happenings: seq<Happening>): seq<Event> {
    if happenings == [] then [] else Last(Record(Kept(happenings[..|happenings| - 1]), happenings[|happenings| - 1]), RETAINED)
  }

  /** After any sequence of events the log holds the last 300 entries of the log that forgets nothing. */
  lemma {:induction false} KeptIsLast(happenings: seq<Happening>)
    ensures Kept(happenings) == Last(RecordAll(happenings), RETAINED)
  {
    if happenings != [] {
      KeptIsLast(happenings[..|happenings| - 1]);
      BoundRefinesFull(RecordAll(happenings[..|happenings| - 1]), happenings[|happenings| - 1]);
    }
  }

  // ---- filters ----

  datatype Filter = Filter(
    urlSubstring: string, urlRegex: string, verb: string, resourceType: string,
    startedAfter: int, statusMin: int, statusMax: int)

  predicate Contains(s: string, part: string) {
    exists i :: 0 <= i <= |s| && part <= s[i..]
  }

  /** network_event_matches: its early returns, in their order; `search` stands for re.search. */
  predicate Matches(e: Event, f: Filter, requireResponse: bool, search: (string, string) -> bool) {
    var url := if e.rawUrl != "" then e.rawUrl else e.url;
    if requireResponse && e.phase.Started? then false
    else if f.urlSubstring != "" && !Contains(url, f.urlSubstring) then false
    else if f.urlRegex != "" && !search(f.urlRegex, url) then false
    else if f.verb != "" && Upper(e.verb) != Upper(f.verb) then false
    else if f.resourceType != "" && e.resourceType != f.resourceType then false
    else if f.startedAfter > 0 && e.startedAt < f.startedAfter then false
    else if f.statusMin > 0 || f.statusMax > 0 then
      var status := if e.statusCode.Some? then e.statusCode.value else 0;
      if status <= 0 then false
      else if f.statusMin > 0 && status < f.statusMin then false
      else if f.statusMax > 0 && status > f.statusMax then false
      else true
    else true
  }

  /** What a logged request has to be like to pass: every criterion that is set. */
  lemma MatchesIff(events: seq<Event>, requests: seq<Happening>, k: nat, f: Filter, requireResponse: bool, search: (string, string) -> bool)
    requires AllStartedBy(events, requests) && k < |events|
    ensures Matches(events[k], f, requireResponse, search) <==>
            var url := if requests[k].url != "" then requests[k].url else SanitizeUrl("");
            && (f.urlSubstring == "" || exists i, j :: 0 <= i <= j <= |url| && url[i..j] == f.urlSubstring)
            && (f.urlRegex == "" || search(f.urlRegex, url))
            && (f.verb == "" || Upper(Upper(requests[k].verb)) == Upper(f.verb))
            && (f.resourceType == "" || requests[k].resourceType == f.resourceType)
            && (f.startedAfter <= 0 || f.startedAfter <= requests[k].at)
            && (requireResponse ==> events[k].phase == Finished || events[k].phase == Failed)
            && (f.statusMin > 0 ==> events[k].statusCode.Some? && f.statusMin <= events[k].statusCode.value)
            && (f.statusMax > 0 ==> events[k].statusCode.Some? && 0 < events[k].statusCode.value <= f.statusMax)
  {
    var url := if events[k].rawUrl != "" then events[k].rawUrl else events[k].url;
    assert StartedBy(events[k], requests[k]);
    PartIff(url, f.urlSubstring);
  }

  lemma PartIff(s: string, part: string)
    ensures Contains(s, part) <==> exists i, j :: 0 <= i <= j <= |s| && s[i..j] == part
  {
    if i, j :| 0 <= i <= j <= |s| && s[i..j] == part {
      assert s[i..][..j - i] == part;
    }
    if i :| 0 <= i <= |s| && part <= s[i..] {
      assert s[i..i + |part|] == part;
    }
  }

  /** The matching entries, in order. */
  function Matching(events: seq<Event>, f: Filter, search: (string, string) -> bool): seq<Event> {
    if events == [] then []
    else
      var last := events[|events| - 1];
      Matching(events[..|events| - 1], f, search) + if Matches(last, f, false, search) then [last] else []
  }

  function PublicAll(events: seq<Event>): seq<PublicEvent> {
    seq(|events|, i requires 0 <= i < |events| => Public(events[i]))
  }

  // ---- the class ----

  class NetworkLog {
    var events: seq<Event>
    ghost var full: seq<Event>

    /** The retained entries are the last 300 of the full log. */
    ghost predicate Valid() reads this { events == Last(full, RETAINED) }

    constructor ()
      ensures Valid() && full == []
    {
      events, full := [], [];
    }

    method OnRequest(h: Happening)
      requires Valid() && h.Request?
      modifies this
      ensures Valid() && full == Record(old(full), h)
    {
      BoundRefinesFull(full, h);
      full := Record(full, h);
      var appended := events + [NewEvent(h)];
      // the oldest entries go
      events := if |appended| > RETAINED then appended[|appended| - RETAINED..] else appended;
      assert events == Last(appended, RETAINED);
    }

    /** event_for_request: from the newest entry back. */
    method EventForRequest(request: Option<int>) returns (n: int)
      ensures n == if request.None? then -1 else Newest(events, request.value)
    {
      if request.None? {
        return -1;
      }
      n := |events| - 1;
      while n >= 0
        invariant -1 <= n < |events|
        invariant forall i :: n < i < |events| ==> events[i].requestId != request.value
      {
        if events[n].requestId == request.value {
          return;
        }
        n := n - 1;
      }
    }

    /** on_response, on_request_finished and on_request_failed. */
    method OnOutcome(h: Happening)
      requires Valid() && !h.Request?
      modifies this
      ensures Valid() && full == Record(old(full), h)
    {
      BoundRefinesFull(full, h);
      full := Record(full, h);
      var n := EventForRequest(Subject(h));
      if n < 0 {
        return;
      }
      events := events[n := Updated(events[n], h)];
    }

    /** The last `limit` matching entries, all of them when no limit is given. */
    method List(f: Filter, limit: int, search: (string, string) -> bool) returns (r: seq<PublicEvent>)
      ensures r == PublicAll(if limit > 0 then Last(Matching(events, f, search), limit) else Matching(events, f, search))
    {
      var matches: seq<PublicEvent> := [];
      for i := 0 to |events|
        invariant matches == PublicAll(Matching(events[..i], f, search))
      {
        assert events[..i + 1][..i] == events[..i];
        if Matches(events[i], f, false, search) {
          matches := matches + [Public(events[i])];
        }
      }
      assert events[..|events|] == events;
      if limit > 0 {
        return if |matches| > limit then matches[|matches| - limit..] else matches;
      }
      return matches;
    }

    /** The earliest matching entry. */
    method FirstMatching(f: Filter, requireResponse: bool, search: (string, string) -> bool) returns (r: Option<Event>)
      ensures r == Earliest(events, f, requireResponse, search)
    {
      for i := 0 to |events|
        invariant forall j :: 0 <= j < i ==> !Matches(events[j], f, requireResponse, search)
      {
        if Matches(events[i], f, requireResponse, search) {
          EarliestAt(events, f, requireResponse, search, i);
          return Some(events[i]);
        }
      }
      return None;
    }
  }

  function Earliest(events: seq<Event>, f: Filter, requireResponse: bool, search: (string, string) -> bool): (r: Option<Event>)
    ensures r.None? <==> forall i :: 0 <= i < |events| ==> !Matches(events[i], f, requireResponse, search)
    ensures r.Some? ==> r.value in events && Matches(r.value, f, requireResponse, search)
  {
    if events == [] then None
    else if Matches(events[0], f, requireResponse, search) then Some(events[0])
    else Earliest(events[1..], f, requireResponse, search)
  }

  lemma {:induction false} EarliestAt(events: seq<Event>, f: Filter, requireResponse: bool, search: (string, string) -> bool, i: nat)
    requires i < |events| && Matches(events[i], f, requireResponse, search)
    requires forall j :: 0 <= j < i ==> !Matches(events[j], f, requireResponse, search)
    ensures Earliest(events, f, requireResponse, search) == Some(events[i])
  {
    if i > 0 {
      EarliestAt(events[1..], f, requireResponse, search, i - 1);
    }
  }

  // ---- what the log says about its history ----

  /** Over any sequence of events: entry k of the full log was started by the k-th request event, and keeps what that event said. */
  lemma {:induction false} EntriesAreRequests(happenings: seq<Happening>)
    ensures AllStartedBy(RecordAll(happenings), Requests(happenings))
  {
    if happenings != [] {
      var init, last := happenings[..|happenings| - 1], happenings[|happenings| - 1];
      EntriesAreRequests(init);
      RecordKeepsStarts(RecordAll(init), Requests(init), last);
    }
  }

  ghost predicate AllStartedBy(events: seq<Event>, requests: seq<Happening>) {
    |events| == |requests| && forall k :: 0 <= k < |events| ==> StartedBy(events[k], requests[k])
  }

  lemma RecordKeepsStarts(events: seq<Event>, requests: seq<Happening>, h: Happening)
    requires AllStartedBy(events, requests)
    ensures AllStartedBy(Record(events, h), requests + if h.Request? then [h] else [])
  {
    if !h.Request? {
      assert requests + [] == requests;
    }
  }

  /** The request events, in order. */
  function Requests(happenings: seq<Happening>): (r: seq<Happening>)
    ensures forall i :: 0 <= i < |r| ==> r[i].Request?
  {
    if happenings == [] then []
    else
      var last := happenings[|happenings| - 1];
      Requests(happenings[..|happenings| - 1]) + if last.Request? then [last] else []
  }

  predicate StartedBy(e: Event, h: Happening) {
    && h.Request? && e.requestId == h.requestId && e.rawUrl == h.url && e.url == SanitizeUrl(h.url)
    && e.verb == Upper(h.verb) && e.resourceType == h.resourceType && e.startedAt == h.at
  }

  // ---- what became of a request ----

  /** Event i is about entry k: it names the request id, and no request between the two took that id over. */
  predicate Concerns(happenings: seq<Happening>, i: nat, k: nat) {
    i < |happenings| && !happenings[i].Request? && Subject(happenings[i]).Some? &&
    var begun := Requests(happenings[..i]);
    && k < |begun| && begun[k].requestId == Subject(happenings[i]).value
    && forall l :: k < l < |begun| ==> begun[l].requestId != Subject(happenings[i]).value
  }

  /** The latest event about entry k that says anything says `value`; None if none does. */
  ghost predicate Told<T(!new)>(happenings: seq<Happening>, k: nat, says: Happening -> Option<T>, value: Option<T>) {
    match value
    case None => forall i: nat :: Concerns(happenings, i, k) ==> says(happenings[i]).None?
    case Some(_) =>
      exists i: nat :: Concerns(happenings, i, k) && says(happenings[i]) == value && SilentAfter(happenings, i, k, says)
  }

  ghost predicate SilentAfter<T(!new)>(happenings: seq<Happening>, i: nat, k: nat, says: Happening -> Option<T>) {
    forall j: nat :: i < j && Concerns(happenings, j, k) ==> says(happenings[j]).None?
  }

  lemma ConcernsEarlier(happenings: seq<Happening>, i: nat, k: nat)
    requires happenings != [] && i < |happenings| - 1
    ensures Concerns(happenings, i, k) <==> Concerns(happenings[..|happenings| - 1], i, k)
  {
    assert happenings[..|happenings| - 1][..i] == happenings[..i];
  }

  lemma {:induction false} RequestsGrow(happenings: seq<Happening>, i: nat)
    requires i <= |happenings|
    ensures |Requests(happenings[..i])| <= |Requests(happenings)|
  {
    if i < |happenings| {
      RequestsGrow(happenings[..|happenings| - 1], i);
      assert happenings[..|happenings| - 1][..i] == happenings[..i];
    } else {
      assert happenings[..i] == happenings;
    }
  }

  /** The last event is about the entry the log updates. */
  lemma LastConcerns(happenings: seq<Happening>, k: nat)
    requires happenings != [] && k < |RecordAll(happenings[..|happenings| - 1])|
    ensures var init, last := RecordAll(happenings[..|happenings| - 1]), happenings[|happenings| - 1];
            Concerns(happenings, |happenings| - 1, k) <==>
            !last.Request? && Subject(last).Some? && Newest(init, Subject(last).value) == k
  {
    var before, last := happenings[..|happenings| - 1], happenings[|happenings| - 1];
    EntriesAreRequests(before);
    var init, begun := RecordAll(before), Requests(before);
    assert forall l :: 0 <= l < |init| ==> StartedBy(init[l], begun[l]);
  }

  /** How an attribute of an entry comes about: nobody has said it when the request starts, and what says it sets it. */
  ghost predicate Attribute<T(!new)>(says: Happening -> Option<T>, field: Event -> Option<T>) {
    && (forall h: Happening {:trigger NewEvent(h)} :: h.Request? ==> field(NewEvent(h)) == None)
    && (forall e, h: Happening {:trigger Updated(e, h)} :: !h.Request? ==> field(Updated(e, h)) == if says(h).Some? then says(h) else field(e))
  }

  lemma {:induction false} AttributeTold<T(!new)>(happenings: seq<Happening>, k: nat, says: Happening -> Option<T>, field: Event -> Option<T>)
    requires Attribute(says, field) && k < |RecordAll(happenings)|
    ensures Told(happenings, k, says, field(RecordAll(happenings)[k]))
  {
    if happenings != [] {
      var before, last := happenings[..|happenings| - 1], happenings[|happenings| - 1];
      var init := RecordAll(before);
      if k < |init| {
        AttributeTold(before, k, says, field);
        LastConcerns(happenings, k);
        ToldOneMore(happenings, k, says, field(init[k]));
      } else {
        NothingYet(happenings, k);
      }
    }
  }

  lemma ToldOneMore<T(!new)>(happenings: seq<Happening>, k: nat, says: Happening -> Option<T>, value: Option<T>)
    requires happenings != [] && Told(happenings[..|happenings| - 1], k, says, value)
    ensures var last := |happenings| - 1;
            Told(happenings, k, says, if Concerns(happenings, last, k) && says(happenings[last]).Some? then says(happenings[last]) else value)
  {
    var last: nat, before := |happenings| - 1, happenings[..|happenings| - 1];
    forall i: nat | i < last ensures Concerns(happenings, i, k) <==> Concerns(before, i, k) {
      ConcernsEarlier(happenings, i, k);
    }
    if Concerns(happenings, last, k) && says(happenings[last]).Some? {
      assert SilentAfter(happenings, last, k, says);
    } else if value.Some? {
      var i: nat :| Concerns(before, i, k) && says(before[i]) == value && SilentAfter(before, i, k, says);
      assert SilentAfter(happenings, i, k, says);
    }
  }

  lemma NothingYet(happenings: seq<Happening>, k: nat)
    requires happenings != [] && k >= |RecordAll(happenings[..|happenings| - 1])| && happenings[|happenings| - 1].Request?
    ensures forall i: nat :: !Concerns(happenings, i, k)
  {
    var before := happenings[..|happenings| - 1];
    EntriesAreRequests(before);
    forall i: nat | i < |happenings| ensures !Concerns(happenings, i, k) {
      if i < |before| {
        RequestsGrow(before, i);
        assert before[..i] == happenings[..i];
      }
    }
  }

  // what the events say

  function SaysStatus(h: Happening): Option<int> {
    match h
    case Response(_, status, _) => Some(status)
    case RequestFinished(_, _, answer) => answer
    case _ => None
  }

  function SaysAnsweredAt(h: Happening): Option<int> { if h.Response? then Some(h.at) else None }
  function SaysFinishedAt(h: Happening): Option<int> { if h.RequestFinished? then Some(h.at) else None }
  function SaysFailedAt(h: Happening): Option<int> { if h.RequestFailed? then Some(h.at) else None }
  function SaysFailure(h: Happening): Option<string> { if h.RequestFailed? && h.failure != "" then Some(h.failure) else None }

  function SaysPhase(h: Happening): Option<Phase> {
    match h
    case RequestFinished(_, _, _) => Some(Finished)
    case RequestFailed(_, _, _) => Some(Failed)
    case _ => None
  }

  lemma StatusTold(happenings: seq<Happening>, k: nat)
    requires k < |RecordAll(happenings)|
    ensures Told(happenings, k, SaysStatus, RecordAll(happenings)[k].statusCode)
  {
    AttributeTold(happenings, k, SaysStatus, (e: Event) => e.statusCode);
  }

  lemma AnswerTold(happenings: seq<Happening>, k: nat)
    requires k < |RecordAll(happenings)|
    ensures Told(happenings, k, SaysAnsweredAt, RecordAll(happenings)[k].responseAt)
  {
    AttributeTold(happenings, k, SaysAnsweredAt, (e: Event) => e.responseAt);
  }

  lemma FinishTold(happenings: seq<Happening>, k: nat)
    requires k < |RecordAll(happenings)|
    ensures Told(happenings, k, SaysFinishedAt, RecordAll(happenings)[k].finishedAt)
  {
    AttributeTold(happenings, k, SaysFinishedAt, (e: Event) => e.finishedAt);
  }

  lemma FailTold(happenings: seq<Happening>, k: nat)
    requires k < |RecordAll(happenings)|
    ensures Told(happenings, k, SaysFailedAt, RecordAll(happenings)[k].failedAt)
  {
    AttributeTold(happenings, k, SaysFailedAt, (e: Event) => e.failedAt);
  }

  lemma FailureTold(happenings: seq<Happening>, k: nat)
    requires k < |RecordAll(happenings)|
    ensures Told(happenings, k, SaysFailure, RecordAll(happenings)[k].failure)
  {
    AttributeTold(happenings, k, SaysFailure, (e: Event) => e.failure);
  }

  function PhaseOf(e: Event): Option<Phase> { if e.phase.Started? then None else Some(e.phase) }

  lemma PhaseTold(happenings: seq<Happening>, k: nat)
    requires k < |RecordAll(happenings)|
    ensures Told(happenings, k, SaysPhase, PhaseOf(RecordAll(happenings)[k]))
  {
    AttributeTold(happenings, k, SaysPhase, (e: Event) => PhaseOf(e));
  }

  ghost predicate AllTold(happenings: seq<Happening>, k: nat, e: Event) {
    && Told(happenings, k, SaysStatus, e.statusCode) && Told(happenings, k, SaysAnsweredAt, e.responseAt)
    && Told(happenings, k, SaysFinishedAt, e.finishedAt) && Told(happenings, k, SaysFailedAt, e.failedAt)
    && Told(happenings, k, SaysFailure, e.failure) && Told(happenings, k, SaysPhase, PhaseOf(e))
  }

  /**
   After any sequence of events each attribute of an entry is what the latest event about its request said of it,
   and missing if none did; a request whose end nobody has told of is under way.
   */
  lemma OutcomesTold(happenings: seq<Happening>, k: nat)
    requires k < |RecordAll(happenings)|
    ensures AllTold(happenings, k, RecordAll(happenings)[k])
  {
    StatusTold(happenings, k);
    AnswerTold(happenings, k);
    FinishTold(happenings, k);
    FailTold(happenings, k);
    FailureTold(happenings, k);
    PhaseTold(happenings, k);
  }

  lemma BeforeDropsMark(s: string, c: char)
    ensures c !in Before(s, c) && Before(s, c) <= s
  {
  }

  /** No query and no fragment of a URL is ever shown to a caller, and everything before them is. */
  lemma NoQueryShown(raw: string)
    ensures var shown := SanitizeUrl(raw); var url := Text.Trim(raw);
            && '?' !in shown && '#' !in shown && shown <= url
            && (shown == url || url[|shown|] == '?' || url[|shown|] == '#')
  {
    BeforeDropsMark(Text.Trim(raw), '#');
    BeforeDropsMark(Before(Text.Trim(raw), '#'), '?');
  }

  /** An index-wise reading of `Matching`: the matching positions in increasing order, none left out. */
  lemma {:induction false} MatchingPositions(events: seq<Event>, f: Filter, search: (string, string) -> bool) returns (at: seq<nat>)
    ensures |at| == |Matching(events, f, search)|
    ensures forall k :: 0 <= k < |at| ==> at[k] < |events| && events[at[k]] == Matching(events, f, search)[k]
    ensures forall k, l :: 0 <= k < l < |at| ==> at[k] < at[l]
    ensures forall i :: 0 <= i < |events| ==> (Matches(events[i], f, false, search) <==> i in at)
  {
    if events == [] {
      at := [];
    } else {
      var n := |events| - 1;
      at := MatchingPositions(events[..n], f, search);
      if Matches(events[n], f, false, search) {
        at := at + [n];
      }
    }
  }
}
