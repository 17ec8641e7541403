/**
 Following next_page_token through ListBrowserSessions.  Tokens are offsets into a listing ordered by
 updated_at, and every page rewrites updated_at of the sessions it expires, so the ground moves under the
 walk.  It still visits every session once as long as the expired sessions stay listed before the first
 session behind their page; a session that slips in front of the offset is never visited.
 */
module PageWalk {
  import opened Wrappers
  import opened Core
  import opened Listing
  import opened Entities
  import opened Store
  import opened SessionService
  import opened PageTurn
  import Agreement
  import Text

  // ---- the walk ----

  /**
   A client that starts with the empty token and goes on while it is handed a non-empty one.
   `sizes` are the page sizes it asks for, `envs` what its calls meet.
   */
  ghost predicate IsWalk(cfg: Config, trace: seq<World>, tokens: seq<string>, pages: seq<seq<Session>>, sizes: nat -> int, envs: nat -> ListEnv) {
    && |trace| == |tokens| == |pages| + 1 && tokens[0] == ""
    && Coherent(trace[0].store) && |ListingOf(trace[0].store.rows.Values)| <= Text.MAX_INT64
    && (forall n :: 0 <= n < |pages| && n > 0 ==> tokens[n] != "")
    && forall n {:trigger pages[n]} :: 0 <= n < |pages| ==> Called(cfg, trace[n], tokens[n], sizes(n), envs(n), trace[n + 1], pages[n], tokens[n + 1])
  }

  /** A successful call. */
  ghost predicate Called(cfg: Config, w: World, token: string, size: int, env: ListEnv, w': World, page: seq<Session>, next: string) {
    RowsKeyed(w.store.rows) && ListSessions(cfg, w, size, token, env) == (w', Ok(Page(page, next)))
  }

  ghost function Visited(pages: seq<seq<Session>>): seq<string> {
    if pages == [] then [] else Visited(pages[..|pages| - 1]) + Ids(pages[|pages| - 1])
  }

  function PageEnd(length: nat, offset: nat, size: int): nat {
    if offset + NormalizePageSize(size) > length then length else offset + NormalizePageSize(size)
  }

  /** The listing a call finds. */
  ghost function Listed(w: World): (all: seq<Session>)
    requires RowsKeyed(w.store.rows)
    ensures Lists(w.store.rows, all)
  {
    ListingLists(w.store.rows);
    ListingOf(w.store.rows.Values)
  }

  /** The condition on one call, in terms of the listing it finds, its token and its clock readings. */
  ghost predicate KeepsOrder(w: World, token: string, size: int, env: ListEnv) {
    && RowsKeyed(w.store.rows)
    && match ParsePageToken(token)
       case Err(_) => false
       case Ok(offset) => offset <= |Listed(w)| ==> StaysAhead(Listed(w), offset, PageEnd(|Listed(w)|, offset, size), env.expire)
  }

  /** A token in hand and the offset it stands for, among `total` sessions. */
  ghost predicate Stands(token: string, total: nat, done: nat) {
    && done <= total <= Text.MAX_INT64
    && (token != "" ==> 0 < done < total && ParsePageToken(token) == Ok(done))
    && (token == "" ==> done == 0 || done == total)
  }

  /** A call answers with the ids of the listed page, expires its due sessions, and hands out the token of its end. */
  lemma CallEffect(cfg: Config, w: World, token: string, size: int, env: ListEnv, w': World, page: seq<Session>, next: string, total: nat, done: nat)
    requires Stands(token, total, done) && (token == "" ==> done == 0) && Coherent(w.store) && |Listed(w)| == total
    requires Called(cfg, w, token, size, env, w', page, next)
    ensures var end := PageEnd(total, done, size);
            && done <= end <= total && Ids(page) == Ids(Listed(w)[done..end])
            && Coherent(w'.store) && Turned(w.store.rows, w'.store.rows, Listed(w), done, end, env.expire)
            && Stands(next, total, end) && (next == "" ==> end == total)
  {
    var all, end := Listed(w), PageEnd(total, done, size);
    assert ParsePageToken(token) == Ok(done);
    PageListed(w, done, size);
    PageIsExpired(cfg, w, all[done..end], env.expire, 0);
    Agreement.ExpireRowsCoherent(cfg, w, all[done..end], env.expire, 0);
    assert all[done..end][0..] == all[done..end];
    ExpiredIsTurned(w.store.rows, w'.store.rows, all, done, end, env.expire);
    PageTokenRoundTrip(end);
  }

  lemma PageListed(w: World, done: nat, size: int)
    requires RowsKeyed(w.store.rows) && done <= |Listed(w)|
    ensures var all := Listed(w); var end := PageEnd(|all|, done, size);
            && PageAt(ListingOf(w.store.rows.Values), done, NormalizePageSize(size)) ==
               Page(all[done..end], if end < |all| then PageToken(end) else "")
            && Agreement.Fresh(w, all[done..end], 0)
            && forall i :: 0 <= i < |all[done..end]| ==> Agreement.SameRequest(w, all[done..end][i])
  {
    var all := Listed(w);
    var end := PageEnd(|all|, done, size);
    if done == |all| {
      assert all[done..end] == [];
    }
    forall i | 0 <= i < |all[done..end]| ensures all[done..end][i] == all[done + i] {
    }
  }

  // ---- on course, or astray ----

  /** The sessions before the offset were visited in the order of the first listing, and the rest still follows unchanged. */
  ghost predicate OnCourse(first: seq<Session>, all: seq<Session>, visited: seq<string>, done: nat) {
    |all| == |first| && done <= |first| && all[done..] == first[done..] && visited == Ids(first[..done])
  }

  /** A session that was not visited stands in front of the offset. */
  ghost predicate Missed(first: seq<Session>, rows: map<string, Session>, visited: seq<string>, done: nat, id: string) {
    id in Ids(first) && id !in visited && id in rows && |Ahead(rows, rows[id])| < done
  }

  lemma OnCourseWindow(first: seq<Session>, all: seq<Session>, visited: seq<string>, done: nat, end: nat)
    requires OnCourse(first, all, visited, done) && done <= end <= |first|
    ensures visited + Ids(all[done..end]) == Ids(first[..end]) && all[end..] == first[end..]
  {
    assert forall i :: done <= i < |first| ==> all[i] == all[done..][i - done] == first[done..][i - done] == first[i];
  }

  lemma StaysOnCourse(first: seq<Session>, before: map<string, Session>, after: map<string, Session>, all: seq<Session>, all': seq<Session>,
                      visited: seq<string>, done: nat, end: nat, env: nat -> ExpireEnv)
    requires OnCourse(first, all, visited, done) && Turned(before, after, all, done, end, env) && Lists(after, all')
    requires StaysAhead(all, done, end, env)
    ensures OnCourse(first, all', visited + Ids(all[done..end]), end)
  {
    TailKeptIff(before, after, all, all', done, end, env);
    OnCourseWindow(first, all, visited, done, end);
  }

  lemma NotAmongFirst(first: seq<Session>, end: nat)
    requires DistinctIds(first) && end < |first|
    ensures first[end].id in Ids(first) && first[end].id !in Ids(first[..end])
  {
    assert Ids(first)[end] == first[end].id;
    assert forall i :: 0 <= i < end ==> Ids(first[..end])[i] == first[i].id;
  }

  lemma GoesAstray(first: seq<Session>, before: map<string, Session>, after: map<string, Session>, all: seq<Session>,
                   visited: seq<string>, done: nat, end: nat, env: nat -> ExpireEnv)
    requires OnCourse(first, all, visited, done) && DistinctIds(first) && Turned(before, after, all, done, end, env)
    requires !StaysAhead(all, done, end, env)
    ensures end < |all| && Missed(first, after, visited + Ids(all[done..end]), end, all[end].id)
  {
    FirstBehindMovesUp(before, after, all, done, end, env);
    OnCourseWindow(first, all, visited, done, end);
    assert all[end] == all[end..][0] == first[end..][0] == first[end];
    NotAmongFirst(first, end);
  }

  lemma NotOnPage(all: seq<Session>, done: nat, end: nat, k: nat)
    requires DistinctIds(all) && k < done <= end <= |all|
    ensures all[k].id !in Ids(all[done..end])
  {
    assert forall i :: 0 <= i < end - done ==> Ids(all[done..end])[i] == all[done + i].id;
  }

  /** A missed session is pushed back by a page by at most the page's own length, so the offset stays ahead of it. */
  lemma StaysMissed(first: seq<Session>, before: map<string, Session>, after: map<string, Session>, all: seq<Session>,
                    visited: seq<string>, done: nat, end: nat, env: nat -> ExpireEnv, id: string)
    requires Missed(first, before, visited, done, id) && Turned(before, after, all, done, end, env)
    ensures Missed(first, after, visited + Ids(all[done..end]), end, id)
  {
    var k := Place(before, all, id);
    PlaceIsAhead(before, all, k);
    AheadGrows(before, after, all, done, end, env, k);
    BetweenSize(all, 0, k);
    BetweenSize(all, done, end);
    Smaller(Ahead(after, all[k]), Between(all, 0, k) + Between(all, done, end));
    NotOnPage(all, done, end, k);
  }

  /** The calls of the walk before the n-th kept the order. */
  ghost predicate InOrder(trace: seq<World>, tokens: seq<string>, sizes: nat -> int, envs: nat -> ListEnv, n: nat)
    requires n <= |trace| && n <= |tokens|
  {
    forall m :: 0 <= m < n ==> KeepsOrder(trace[m], tokens[m], sizes(m), envs(m))
  }

  /** Where the walk is after some calls: on course if all of them kept the order, astray if not. */
  ghost predicate Reached(first: seq<Session>, w: World, token: string, visited: seq<string>, done: nat, inOrder: bool) {
    && Coherent(w.store) && |Listed(w)| == |first| && Stands(token, |first|, done)
    && if inOrder then OnCourse(first, Listed(w), visited, done) else SomeMissed(first, w, visited, done)
  }

  ghost predicate SomeMissed(first: seq<Session>, w: World, visited: seq<string>, done: nat) {
    exists id :: Missed(first, w.store.rows, visited, done, id)
  }

  lemma WalkStep(cfg: Config, w: World, token: string, size: int, env: ListEnv, w': World, page: seq<Session>, next: string,
                 first: seq<Session>, visited: seq<string>, done: nat, inOrder: bool)
    requires Reached(first, w, token, visited, done, inOrder) && DistinctIds(first) && (token == "" ==> done == 0)
    requires Called(cfg, w, token, size, env, w', page, next)
    ensures var end := PageEnd(|first|, done, size);
            && Reached(first, w', next, visited + Ids(page), end, inOrder && KeepsOrder(w, token, size, env))
            && (next == "" ==> end == |first|) && (done < |first| ==> done < end)
  {
    CallEffect(cfg, w, token, size, env, w', page, next, |first|, done);
    TurnReaches(first, w, w', visited, done, PageEnd(|first|, done, size), env.expire, inOrder);
  }

  lemma TurnReaches(first: seq<Session>, w: World, w': World, visited: seq<string>, done: nat, end: nat, env: nat -> ExpireEnv, inOrder: bool)
    requires RowsKeyed(w.store.rows) && RowsKeyed(w'.store.rows) && DistinctIds(first) && |Listed(w)| == |first|
    requires Turned(w.store.rows, w'.store.rows, Listed(w), done, end, env)
    requires if inOrder then OnCourse(first, Listed(w), visited, done) else SomeMissed(first, w, visited, done)
    ensures |Listed(w')| == |first|
    ensures var visited' := visited + Ids(Listed(w)[done..end]);
            if inOrder && StaysAhead(Listed(w), done, end, env) then OnCourse(first, Listed(w'), visited', end)
            else SomeMissed(first, w', visited', end)
  {
    var before, after, all := w.store.rows, w'.store.rows, Listed(w);
    TailKeptIff(before, after, all, Listed(w'), done, end, env);
    if !inOrder {
      var id :| Missed(first, before, visited, done, id);
      StaysMissed(first, before, after, all, visited, done, end, env, id);
    } else if StaysAhead(all, done, end, env) {
      StaysOnCourse(first, before, after, all, Listed(w'), visited, done, end, env);
    } else {
      GoesAstray(first, before, after, all, visited, done, end, env);
    }
  }

  /** A walk with its first listing. */
  ghost predicate WalkFrom(cfg: Config, trace: seq<World>, tokens: seq<string>, pages: seq<seq<Session>>, sizes: nat -> int, envs: nat -> ListEnv,
                           first: seq<Session>)
  {
    IsWalk(cfg, trace, tokens, pages, sizes, envs) && first == Listed(trace[0])
  }

  lemma WalkBegins(first: seq<Session>, w: World, pages: seq<seq<Session>>)
    requires Coherent(w.store) && first == Listed(w) && |first| <= Text.MAX_INT64
    ensures Reached(first, w, "", Visited(pages[..0]), 0, true)
  {
    assert Visited(pages[..0]) == Ids(first[..0]);
  }

  lemma {:induction false} WalkReaches(cfg: Config, trace: seq<World>, tokens: seq<string>, pages: seq<seq<Session>>,
                                       sizes: nat -> int, envs: nat -> ListEnv, first: seq<Session>, n: nat)
    returns (done: nat)
    requires WalkFrom(cfg, trace, tokens, pages, sizes, envs, first) && n <= |pages|
    ensures Reached(first, trace[n], tokens[n], Visited(pages[..n]), done, InOrder(trace, tokens, sizes, envs, n))
    ensures n <= done || (n == 1 && first == [])
    ensures n == 0 ==> done == 0
    ensures n > 0 && tokens[n] == "" ==> done == |first|
  {
    if n == 0 {
      done := 0;
      WalkBegins(first, trace[0], pages);
    } else {
      var before := WalkReaches(cfg, trace, tokens, pages, sizes, envs, first, n - 1);
      done := StepOfWalk(cfg, trace, tokens, pages, sizes, envs, first, n - 1, before);
    }
  }

  lemma CallOfWalk(cfg: Config, trace: seq<World>, tokens: seq<string>, pages: seq<seq<Session>>, sizes: nat -> int, envs: nat -> ListEnv, n: nat)
    requires IsWalk(cfg, trace, tokens, pages, sizes, envs) && n < |pages|
    ensures Called(cfg, trace[n], tokens[n], sizes(n), envs(n), trace[n + 1], pages[n], tokens[n + 1])
  {
  }

  lemma VisitedFurther(pages: seq<seq<Session>>, n: nat)
    requires n < |pages|
    ensures Visited(pages[..n + 1]) == Visited(pages[..n]) + Ids(pages[n])
  {
    assert pages[..n + 1][..n] == pages[..n];
  }

  lemma InOrderFurther(trace: seq<World>, tokens: seq<string>, sizes: nat -> int, envs: nat -> ListEnv, n: nat)
    requires n < |trace| && n < |tokens|
    ensures InOrder(trace, tokens, sizes, envs, n + 1) == (InOrder(trace, tokens, sizes, envs, n) && KeepsOrder(trace[n], tokens[n], sizes(n), envs(n)))
  {
  }

  lemma StepOfWalk(cfg: Config, trace: seq<World>, tokens: seq<string>, pages: seq<seq<Session>>,
                   sizes: nat -> int, envs: nat -> ListEnv, first: seq<Session>, n: nat, before: nat)
    returns (done: nat)
    requires WalkFrom(cfg, trace, tokens, pages, sizes, envs, first) && n < |pages|
    requires Reached(first, trace[n], tokens[n], Visited(pages[..n]), before, InOrder(trace, tokens, sizes, envs, n))
    requires n == 0 ==> before == 0
    ensures Reached(first, trace[n + 1], tokens[n + 1], Visited(pages[..n + 1]), done, InOrder(trace, tokens, sizes, envs, n + 1))
    ensures (before < |first| ==> before < done) && before <= done && (tokens[n + 1] == "" ==> done == |first|)
  {
    CallOfWalk(cfg, trace, tokens, pages, sizes, envs, n);
    VisitedFurther(pages, n);
    InOrderFurther(trace, tokens, sizes, envs, n);
    WalkStep(cfg, trace[n], tokens[n], sizes(n), envs(n), trace[n + 1], pages[n], tokens[n + 1],
             first, Visited(pages[..n]), before, InOrder(trace, tokens, sizes, envs, n));
    done := PageEnd(|first|, before, sizes(n));
  }

  /**
   A finished walk visited every session exactly once in the order of the first listing if and only if every
   call kept the order; otherwise some session was never visited.  Either way it ended within one call per
   session (one, if there are none).
   */
  lemma WalkIsCompleteIff(cfg: Config, trace: seq<World>, tokens: seq<string>, pages: seq<seq<Session>>, sizes: nat -> int, envs: nat -> ListEnv,
                          first: seq<Session>)
    requires WalkFrom(cfg, trace, tokens, pages, sizes, envs, first) && pages != [] && tokens[|pages|] == ""
    ensures |pages| <= (if first == [] then 1 else |first|)
    ensures Visited(pages) == Ids(first) <==> InOrder(trace, tokens, sizes, envs, |pages|)
    ensures !InOrder(trace, tokens, sizes, envs, |pages|) ==> exists id :: id in Ids(first) && id !in Visited(pages)
  {
    var done := WalkReaches(cfg, trace, tokens, pages, sizes, envs, first, |pages|);
    assert pages[..|pages|] == pages;
    WalkFinished(first, trace[|pages|], Visited(pages), InOrder(trace, tokens, sizes, envs, |pages|));
  }

  lemma WalkFinished(first: seq<Session>, w: World, visited: seq<string>, inOrder: bool)
    requires RowsKeyed(w.store.rows)
    requires if inOrder then OnCourse(first, Listed(w), visited, |first|) else SomeMissed(first, w, visited, |first|)
    ensures visited == Ids(first) <==> inOrder
    ensures !inOrder ==> exists id :: id in Ids(first) && id !in visited
  {
    assert first[..|first|] == first;
    if !inOrder {
      var id :| Missed(first, w.store.rows, visited, |first|, id);
      assert id in Ids(first) && id !in visited;
    }
  }

  // ---- a clock that is not behind ----

  /** No stored session was updated later than the clock reads. */
  ghost predicate ClockAhead(rows: map<string, Session>, env: nat -> ExpireEnv) {
    forall id, i: nat :: id in rows ==> rows[id].stamp <= env(i).now
  }

  /** With such a clock every call keeps the order. */
  lemma ClockAheadKeepsOrder(w: World, token: string, size: int, env: ListEnv)
    requires RowsKeyed(w.store.rows) && ClockAhead(w.store.rows, env.expire) && ParsePageToken(token).Ok?
    ensures KeepsOrder(w, token, size, env)
  {
    var all, offset := Listed(w), ParsePageToken(token).value;
    if offset <= |all| {
      ClockKeepsAhead(w.store.rows, all, offset, PageEnd(|all|, offset, size), env.expire);
    }
  }

  lemma ClockKeepsAhead(rows: map<string, Session>, all: seq<Session>, offset: nat, end: nat, env: nat -> ExpireEnv)
    requires Lists(rows, all) && offset <= end <= |all| && ClockAhead(rows, env)
    ensures StaysAhead(all, offset, end, env)
  {
    forall i | offset <= i < end < |all| ensures Before(Lapsed(all[i], env(i - offset).now), all[end]) {
      OrderedPlaces(all, i, end);
      assert rows[all[end].id].stamp <= env(i - offset).now;
    }
  }

  /** Reads and writes succeed, and no call's clock reads earlier than a previous call's. */
  ghost predicate Reliable(envs: nat -> ListEnv) {
    && (forall n: nat :: WorksAlways(envs(n)))
    && (forall m: nat, n: nat :: m < n ==> NotLater(envs(m).expire, envs(n).expire))
  }

  ghost predicate WorksAlways(env: ListEnv) {
    !env.readFails && forall i: nat :: !env.expire(i).writeFails
  }

  ghost predicate NotLater(a: nat -> ExpireEnv, b: nat -> ExpireEnv) {
    forall i: nat, j: nat :: a(i).now <= b(j).now
  }

  /** Nobody else writes, and the clock is not behind a stored time when the walk begins. */
  ghost predicate Undisturbed(w: World, envs: nat -> ListEnv) {
    Reliable(envs) && ClockStays(w.store.rows, envs, 0)
  }

  /** From the n-th call on the clock is not behind. */
  ghost predicate ClockStays(rows: map<string, Session>, envs: nat -> ListEnv, n: nat) {
    forall m: nat :: m >= n ==> ClockAhead(rows, envs(m).expire)
  }

  /** Stored times stay behind every later reading of the clock. */
  lemma ClockStep(before: map<string, Session>, after: map<string, Session>, all: seq<Session>, done: nat, end: nat, envs: nat -> ListEnv, n: nat)
    requires Turned(before, after, all, done, end, envs(n).expire) && ClockStays(before, envs, n) && Reliable(envs)
    ensures ClockStays(after, envs, n + 1)
  {
    forall m: nat, id, j: nat | m >= n + 1 && id in after ensures after[id].stamp <= envs(m).expire(j).now {
      assert ClockAhead(before, envs(m).expire) && before[id].stamp <= envs(m).expire(j).now;
      var i := Place(before, all, id);
      if done <= i < end {
        assert NotLater(envs(n).expire, envs(m).expire);
      }
    }
  }

  lemma {:induction false} WalkClock(cfg: Config, trace: seq<World>, tokens: seq<string>, pages: seq<seq<Session>>,
                                     sizes: nat -> int, envs: nat -> ListEnv, first: seq<Session>, n: nat)
    requires WalkFrom(cfg, trace, tokens, pages, sizes, envs, first) && Undisturbed(trace[0], envs) && n <= |pages|
    ensures ClockStays(trace[n].store.rows, envs, n)
  {
    if n > 0 {
      WalkClock(cfg, trace, tokens, pages, sizes, envs, first, n - 1);
      ClockStepOfWalk(cfg, trace, tokens, pages, sizes, envs, first, n - 1);
    }
  }

  /** So every call of the walk keeps the order. */
  lemma WalkInOrder(cfg: Config, trace: seq<World>, tokens: seq<string>, pages: seq<seq<Session>>,
                    sizes: nat -> int, envs: nat -> ListEnv, first: seq<Session>)
    requires WalkFrom(cfg, trace, tokens, pages, sizes, envs, first) && Undisturbed(trace[0], envs)
    ensures InOrder(trace, tokens, sizes, envs, |pages|)
  {
    forall m | 0 <= m < |pages| ensures KeepsOrder(trace[m], tokens[m], sizes(m), envs(m)) {
      WalkClock(cfg, trace, tokens, pages, sizes, envs, first, m);
      ClockStepOfWalk(cfg, trace, tokens, pages, sizes, envs, first, m);
    }
  }

  lemma ClockStepOfWalk(cfg: Config, trace: seq<World>, tokens: seq<string>, pages: seq<seq<Session>>,
                        sizes: nat -> int, envs: nat -> ListEnv, first: seq<Session>, n: nat)
    requires WalkFrom(cfg, trace, tokens, pages, sizes, envs, first) && Reliable(envs) && n < |pages|
    requires ClockStays(trace[n].store.rows, envs, n)
    ensures ClockStays(trace[n + 1].store.rows, envs, n + 1) && KeepsOrder(trace[n], tokens[n], sizes(n), envs(n))
  {
    var done := WalkReaches(cfg, trace, tokens, pages, sizes, envs, first, n);
    CallOfWalk(cfg, trace, tokens, pages, sizes, envs, n);
    ClockCall(cfg, trace[n], tokens[n], sizes(n), envs, n, trace[n + 1], pages[n], tokens[n + 1], |first|, done);
  }

  lemma ClockCall(cfg: Config, w: World, token: string, size: int, envs: nat -> ListEnv, n: nat, w': World, page: seq<Session>, next: string,
                  total: nat, done: nat)
    requires Stands(token, total, done) && (token == "" ==> done == 0) && Coherent(w.store) && |Listed(w)| == total
    requires Called(cfg, w, token, size, envs(n), w', page, next)
    requires ClockStays(w.store.rows, envs, n) && Reliable(envs)
    ensures ClockStays(w'.store.rows, envs, n + 1) && KeepsOrder(w, token, size, envs(n))
  {
    CallEffect(cfg, w, token, size, envs(n), w', page, next, total, done);
    ClockStep(w.store.rows, w'.store.rows, Listed(w), done, PageEnd(total, done, size), envs, n);
    ClockAheadKeepsOrder(w, token, size, envs(n));
  }

  lemma IdsOfPrefix(rows: seq<Session>, n: nat)
    requires n <= |rows|
    ensures Ids(rows[..n]) <= Ids(rows) && (n == |rows| ==> Ids(rows[..n]) == Ids(rows))
  {
  }

  /**
   With nobody else writing and a clock that is not behind, the walk ends after at most as many calls as there
   are sessions (one, if there are none), and when it ends it has visited every session exactly once, in the
   order of the first listing.
   */
  lemma WalkIsComplete(cfg: Config, trace: seq<World>, tokens: seq<string>, pages: seq<seq<Session>>, sizes: nat -> int, envs: nat -> ListEnv,
                       first: seq<Session>)
    requires WalkFrom(cfg, trace, tokens, pages, sizes, envs, first) && Undisturbed(trace[0], envs)
    ensures |pages| <= (if first == [] then 1 else |first|)
    ensures Visited(pages) <= Ids(first)
    ensures pages != [] && tokens[|pages|] == "" ==> Visited(pages) == Ids(first)
  {
    var done := WalkReaches(cfg, trace, tokens, pages, sizes, envs, first, |pages|);
    WalkInOrder(cfg, trace, tokens, pages, sizes, envs, first);
    assert pages[..|pages|] == pages;
    IdsOfPrefix(first, done);
  }

  /** The walk never gets stuck: while reads and writes succeed and the token is not empty the next call succeeds. */
  lemma WalkGoesOn(cfg: Config, trace: seq<World>, tokens: seq<string>, pages: seq<seq<Session>>, sizes: nat -> int, envs: nat -> ListEnv,
                   first: seq<Session>)
    requires WalkFrom(cfg, trace, tokens, pages, sizes, envs, first) && (pages == [] || tokens[|pages|] != "")
    requires WorksAlways(envs(|pages|))
    ensures RowsKeyed(trace[|pages|].store.rows)
    ensures ListSessions(cfg, trace[|pages|], sizes(|pages|), tokens[|pages|], envs(|pages|)).1.Ok?
  {
    var n := |pages|;
    var done := WalkReaches(cfg, trace, tokens, pages, sizes, envs, first, n);
    NextCallSucceeds(cfg, trace[n], tokens[n], sizes(n), envs(n), |first|, done);
  }

  lemma NextCallSucceeds(cfg: Config, w: World, token: string, size: int, env: ListEnv, total: nat, done: nat)
    requires Stands(token, total, done) && (token == "" ==> done == 0) && Coherent(w.store) && |Listed(w)| == total
    requires WorksAlways(env)
    ensures ListSessions(cfg, w, size, token, env).1.Ok?
  {
    assert ParsePageToken(token) == Ok(done);
    PageListed(w, done, size);
    PageIsExpired(cfg, w, Listed(w)[done..PageEnd(total, done, size)], env.expire, 0);
  }

  // ---- a clock that is ----

  lemma TwoRows(rows: map<string, Session>, x: Session, y: Session)
    requires RowsKeyed(rows) && rows.Values == {x, y} && x.id != y.id && Before(x, y)
    ensures ListingOf(rows.Values) == [x, y]
  {
    BeforeTrichotomy(x, y);
    assert IsListing([x, y], {x, y});
    ListingUnique([x, y], ListingOf(rows.Values), {x, y});
  }

  lemma PageOfOne(cfg: Config, w: World, x: Session, y: Session, token: string, k: nat, env: ListEnv)
    requires RowsKeyed(w.store.rows) && w.store.rows.Values == {x, y} && x.id != y.id && Before(x, y)
    requires ParsePageToken(token) == Ok(k) && k < 2 && !env.readFails && !env.expire(0).writeFails
    ensures var s := [x, y][k];
            var (w', reply) := ExpireIfNeeded(cfg, w, s, env.expire(0));
            reply.session.Some? && reply.session.value.id == s.id &&
            ListSessions(cfg, w, 1, token, env) == (w', Ok(Page([reply.session.value], PageToken(if k == 0 then 1 else 0))))
  {
    var s := [x, y][k];
    TwoRows(w.store.rows, x, y);
    assert PageAt([x, y], k, 1).rows == [s];
    assert s in w.store.rows.Values;
    TurnEffect(cfg, w, s, env.expire(0));
    var (w', reply) := ExpireIfNeeded(cfg, w, s, env.expire(0));
    assert ExpireRows(cfg, w', [s], env.expire, 1) == (w', Ok([]));
    assert [reply.session.value] + [] == [reply.session.value];
    assert ExpireRows(cfg, w, [s], env.expire, 0) == (w', Ok([reply.session.value]));
  }

  /** With a clock that reads earlier than a stored updated_at the walk can repeat one session and miss another. */
  lemma ClockBehindRepeats(cfg: Config, w: World, a: Session, b: Session, env: ListEnv)
    requires w.store.rows == map["a" := a, "b" := b] && a.id == "a" && b.id == "b"
    requires a.stamp == 10 && b.stamp == 5 && a.data.status.Running? && a.data.expiresAt == Some(0)
    requires !env.readFails && env.expire(0) == ExpireEnv(1, Teardown(false, false), false)
    ensures var (w1, first) := ListSessions(cfg, w, 1, "", env);
            && first.Ok? && Ids(first.value.rows) == ["a"] && first.value.next == "1"
            && RowsKeyed(w1.store.rows)
            && var (w2, second) := ListSessions(cfg, w1, 1, "1", env);
            && second.Ok? && Ids(second.value.rows) == ["a"] && second.value.next == ""
  {
    FirstPage(cfg, w, a, b, env);
    SecondPage(cfg, ListSessions(cfg, w, 1, "", env).0, Lapsed(a, 1), b, env);
  }

  lemma FirstPage(cfg: Config, w: World, a: Session, b: Session, env: ListEnv)
    requires w.store.rows == map["a" := a, "b" := b] && a.id == "a" && b.id == "b"
    requires a.stamp == 10 && b.stamp == 5 && a.data.status.Running? && a.data.expiresAt == Some(0)
    requires !env.readFails && env.expire(0) == ExpireEnv(1, Teardown(false, false), false)
    ensures RowsKeyed(w.store.rows)
    ensures var (w1, first) := ListSessions(cfg, w, 1, "", env);
            && first.Ok? && Ids(first.value.rows) == ["a"] && first.value.next == "1"
            && w1.store.rows == map["a" := Lapsed(a, 1), "b" := b]
  {
    TwoValues(w.store.rows, a, b);
    FirstLapses(cfg, w, a, b, env.expire(0));
    assert Text.Sprint(1) == "1";
    PageOfOne(cfg, w, a, b, "", 0, env);
  }

  lemma FirstLapses(cfg: Config, w: World, a: Session, b: Session, env: ExpireEnv)
    requires w.store.rows == map["a" := a, "b" := b] && a.id == "a"
    requires a.data.status.Running? && a.data.expiresAt == Some(0) && env == ExpireEnv(1, Teardown(false, false), false)
    ensures var (w', reply) := ExpireIfNeeded(cfg, w, a, env);
            w'.store.rows == map["a" := Lapsed(a, 1), "b" := b] && reply.session == Some(Lapsed(a, 1))
  {
    TurnEffect(cfg, w, a, env);
    assert w.store.rows["a" := Lapsed(a, 1)] == map["a" := Lapsed(a, 1), "b" := b];
  }

  lemma SecondPage(cfg: Config, w: World, a: Session, b: Session, env: ListEnv)
    requires w.store.rows == map["a" := a, "b" := b] && a.id == "a" && b.id == "b" && a.stamp == 1 && b.stamp == 5
    requires !env.readFails && !env.expire(0).writeFails
    ensures RowsKeyed(w.store.rows)
    ensures var (_, second) := ListSessions(cfg, w, 1, "1", env);
            second.Ok? && Ids(second.value.rows) == ["a"] && second.value.next == ""
  {
    TwoValues(w.store.rows, a, b);
    assert Text.Sprint(1) == "1";
    PageTokenRoundTrip(1);
    PageOfOne(cfg, w, b, a, "1", 1, env);
  }

  lemma TwoValues(rows: map<string, Session>, a: Session, b: Session)
    requires rows == map["a" := a, "b" := b] && a.id == "a" && b.id == "b"
    ensures RowsKeyed(rows) && rows.Values == {a, b} && a.id != b.id
  {
    assert "a" in rows && "b" in rows;
  }
}
