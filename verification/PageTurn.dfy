/**
 What one page of ListBrowserSessions does to the listing it was taken from.  Listings are ordered by
 updated_at and the page rewrites updated_at of the sessions it expires, so these move.  Whether the rows
 behind the page stay where they are is decided by the first of them.
 */
module PageTurn {
  import opened Wrappers
  import opened Core
  import opened Listing
  import opened Entities
  import opened Store
  import opened SessionService
  import Agreement

  function Ids(rows: seq<Session>): seq<string> {
    seq(|rows|, i requires 0 <= i < |rows| => rows[i].id)
  }

  // ---- one call ----

  /** What the loop makes of a listed session. */
  function Version(s: Session, env: ExpireEnv): Session {
    if Due(s, env.now) then Lapsed(s, env.now) else s
  }

  predicate OnPage(page: seq<Session>, from: nat, id: string) {
    exists i :: from <= i < |page| && page[i].id == id
  }

  /** The due sessions of the page, from position `from` on, were expired at their own readings, and nothing else changed. */
  ghost predicate Expired(before: map<string, Session>, after: map<string, Session>, page: seq<Session>, env: nat -> ExpireEnv, from: nat) {
    && after.Keys == before.Keys
    && (forall i :: from <= i < |page| ==> page[i].id in after && after[page[i].id] == Version(page[i], env(i)))
    && (forall id :: id in before && !OnPage(page, from, id) ==> after[id] == before[id])
  }

  /** One turn of the loop touches one row and answers with that session; it fails exactly if a write is needed and fails. */
  lemma TurnEffect(cfg: Config, w: World, session: Session, env: ExpireEnv)
    requires session.id != "" && session.id in w.store.rows && w.store.rows[session.id] == session
    ensures var (w', reply) := ExpireIfNeeded(cfg, w, session, env);
            && (reply.error.None? <==> !(Due(session, env.now) && env.writeFails))
            && (reply.error.None? ==> reply.session == Some(Version(session, env)) &&
                                      w'.store.rows == w.store.rows[session.id := Version(session, env)])
  {
    assert !Due(session, env.now) ==> w.store.rows == w.store.rows[session.id := session];
  }

  lemma {:induction false} PageIsExpired(cfg: Config, w: World, page: seq<Session>, env: nat -> ExpireEnv, from: nat)
    requires from <= |page| && Agreement.Fresh(w, page, from)
    ensures var (w', rows) := ExpireRows(cfg, w, page, env, from);
            && (rows.Ok? ==> Expired(w.store.rows, w'.store.rows, page, env, from) && Ids(rows.value) == Ids(page[from..]))
            && ((forall i: nat :: !env(i).writeFails) ==> rows.Ok?)
    decreases |page| - from
  {
    if from < |page| {
      TurnEffect(cfg, w, page[from], env(from));
      var (w1, reply) := ExpireIfNeeded(cfg, w, page[from], env(from));
      if reply.error.None? {
        PageIsExpired(cfg, w1, page, env, from + 1);
        var (w2, rest) := ExpireRows(cfg, w1, page, env, from + 1);
        if rest.Ok? {
          IdsOfFirst(page, from, reply.session.value, rest.value);
          ExpiredFurther(w.store.rows, w1.store.rows, w2.store.rows, page, env, from);
        }
      }
    }
  }

  lemma IdsOfFirst(page: seq<Session>, from: nat, x: Session, rest: seq<Session>)
    requires from < |page| && x.id == page[from].id && Ids(rest) == Ids(page[from + 1..])
    ensures Ids([x] + rest) == Ids(page[from..])
  {
    assert Ids([x] + rest) == [x.id] + Ids(rest);
    assert Ids(page[from..]) == [page[from].id] + Ids(page[from + 1..]);
  }

  lemma ExpiredFurther(a: map<string, Session>, b: map<string, Session>, c: map<string, Session>, page: seq<Session>, env: nat -> ExpireEnv, from: nat)
    requires from < |page| && DistinctIds(page) && page[from].id in a
    requires b == a[page[from].id := Version(page[from], env(from))]
    requires Expired(b, c, page, env, from + 1)
    ensures Expired(a, c, page, env, from)
  {
    var id := page[from].id;
    assert b.Keys == a.Keys;
    assert !OnPage(page, from + 1, id);
    assert forall k :: OnPage(page, from, k) <==> k == id || OnPage(page, from + 1, k);
  }

  // ---- places in a listing ----

  /** `all` is the listing of the stored sessions. */
  ghost predicate Lists(rows: map<string, Session>, all: seq<Session>) {
    && DistinctIds(all) && Sorted(all)
    && (forall i :: 0 <= i < |all| ==> all[i].id in rows && rows[all[i].id] == all[i])
    && (forall id :: id in rows ==> rows[id].id == id && rows[id] in all)
  }

  lemma ListingLists(rows: map<string, Session>)
    requires RowsKeyed(rows)
    ensures Lists(rows, ListingOf(rows.Values))
  {
    var all := ListingOf(rows.Values);
    forall i | 0 <= i < |all| ensures all[i].id in rows && rows[all[i].id] == all[i] {
      assert all[i] in Elements(all);
    }
    forall id | id in rows ensures rows[id] in all {
      assert rows[id] in Elements(all);
    }
  }

  /** The ids of the sessions before x. */
  ghost function Ahead(rows: map<string, Session>, x: Session): set<string> {
    set id | id in rows && Before(rows[id], x)
  }

  /** The ids at the places from lo to hi. */
  ghost function Between(all: seq<Session>, lo: nat, hi: nat): set<string>
    requires lo <= hi <= |all|
  {
    set i | lo <= i < hi :: all[i].id
  }

  lemma {:induction false} BetweenSize(all: seq<Session>, lo: nat, hi: nat)
    requires DistinctIds(all) && lo <= hi <= |all|
    ensures |Between(all, lo, hi)| == hi - lo
    decreases hi
  {
    if lo < hi {
      BetweenSize(all, lo, hi - 1);
      assert all[hi - 1].id !in Between(all, lo, hi - 1);
      assert Between(all, lo, hi) == Between(all, lo, hi - 1) + {all[hi - 1].id};
    }
  }

  lemma OrderedPlaces(all: seq<Session>, j: nat, k: nat)
    requires DistinctIds(all) && Sorted(all) && j < |all| && k < |all|
    ensures Before(all[j], all[k]) <==> j < k
  {
    BeforeTrichotomy(all[j], all[k]);
    if j < k {
      SortedStrictly(all, j, k);
    } else if k < j {
      SortedStrictly(all, k, j);
    }
  }

  lemma Place(rows: map<string, Session>, all: seq<Session>, id: string) returns (k: nat)
    requires Lists(rows, all) && id in rows
    ensures k < |all| && all[k] == rows[id] && all[k].id == id
  {
    k :| 0 <= k < |all| && all[k] == rows[id];
  }

  lemma AheadIsBetween(rows: map<string, Session>, all: seq<Session>, k: nat, id: string)
    requires Lists(rows, all) && k < |all|
    ensures id in Ahead(rows, all[k]) <==> id in Between(all, 0, k)
  {
    if id in Ahead(rows, all[k]) {
      var j := Place(rows, all, id);
      OrderedPlaces(all, j, k);
    } else if id in Between(all, 0, k) {
      var j :| 0 <= j < k && all[j].id == id;
      OrderedPlaces(all, j, k);
    }
  }

  /** The place of a session in the listing is the number of sessions before it. */
  lemma PlaceIsAhead(rows: map<string, Session>, all: seq<Session>, k: nat)
    requires Lists(rows, all) && k < |all|
    ensures Ahead(rows, all[k]) == Between(all, 0, k) && |Ahead(rows, all[k])| == k
  {
    forall id ensures id in Ahead(rows, all[k]) <==> id in Between(all, 0, k) {
      AheadIsBetween(rows, all, k, id);
    }
    BetweenSize(all, 0, k);
  }

  lemma ListingSize(rows: map<string, Session>, all: seq<Session>)
    requires Lists(rows, all)
    ensures |all| == |rows.Keys|
  {
    BetweenSize(all, 0, |all|);
    forall id ensures id in Between(all, 0, |all|) <==> id in rows.Keys {
      if id in rows {
        var k := Place(rows, all, id);
      }
    }
    assert Between(all, 0, |all|) == rows.Keys;
  }

  lemma {:induction false} Smaller<T>(a: set<T>, b: set<T>)
    requires a <= b
    ensures |a| <= |b|
    decreases |a|
  {
    if x :| x in a {
      Smaller(a - {x}, b - {x});
    }
  }

  // ---- what a page does to the listing ----

  /** Every session that the page will expire is still listed before the first session behind the page. */
  predicate StaysAhead(all: seq<Session>, offset: nat, end: nat, env: nat -> ExpireEnv)
    requires offset <= end <= |all|
  {
    end < |all| ==>
      forall i :: offset <= i < end && Due(all[i], env(i - offset).now) ==> Before(Lapsed(all[i], env(i - offset).now), all[end])
  }

  /** One page of the listing: the stored sessions before and after its call. */
  ghost predicate Turned(before: map<string, Session>, after: map<string, Session>, all: seq<Session>, offset: nat, end: nat, env: nat -> ExpireEnv) {
    && Lists(before, all) && offset <= end <= |all| && after.Keys == before.Keys
    && forall i :: 0 <= i < |all| ==> after[all[i].id] == if offset <= i < end then Version(all[i], env(i - offset)) else all[i]
  }

  lemma ExpiredIsTurned(before: map<string, Session>, after: map<string, Session>, all: seq<Session>, offset: nat, end: nat, env: nat -> ExpireEnv)
    requires Lists(before, all) && offset <= end <= |all| && Expired(before, after, all[offset..end], env, 0)
    ensures Turned(before, after, all, offset, end, env)
  {
    var page := all[offset..end];
    forall i | 0 <= i < |all| ensures after[all[i].id] == if offset <= i < end then Version(all[i], env(i - offset)) else all[i] {
      if offset <= i < end {
        assert page[i - offset] == all[i];
      } else {
        assert forall k :: 0 <= k < |page| ==> page[k] == all[offset + k];
        assert !OnPage(page, 0, all[i].id);
      }
    }
  }

  /** Only sessions of the page can come in front of one that is not on it. */
  lemma AheadGrows(before: map<string, Session>, after: map<string, Session>, all: seq<Session>, offset: nat, end: nat, env: nat -> ExpireEnv, k: nat)
    requires Turned(before, after, all, offset, end, env) && k < |all| && !(offset <= k < end)
    ensures Ahead(after, all[k]) <= Between(all, 0, k) + Between(all, offset, end)
  {
    forall id | id in Ahead(after, all[k]) ensures id in Between(all, 0, k) + Between(all, offset, end) {
      var i := Place(before, all, id);
      OrderedPlaces(all, i, k);
    }
  }

  lemma VersionAhead(all: seq<Session>, offset: nat, end: nat, env: nat -> ExpireEnv, i: nat, k: nat)
    requires DistinctIds(all) && Sorted(all) && offset <= i < end <= k < |all| && StaysAhead(all, offset, end, env)
    ensures Before(Version(all[i], env(i - offset)), all[k])
  {
    OrderedPlaces(all, i, k);
    if Due(all[i], env(i - offset).now) && k > end {
      SortedStrictly(all, end, k);
      BeforeTransitive(Lapsed(all[i], env(i - offset).now), all[end], all[k]);
    }
  }

  /** Behind the page the same sessions stay ahead if the expired ones do. */
  lemma AheadKept(before: map<string, Session>, after: map<string, Session>, all: seq<Session>, offset: nat, end: nat, env: nat -> ExpireEnv, k: nat, id: string)
    requires Turned(before, after, all, offset, end, env) && end <= k < |all| && StaysAhead(all, offset, end, env)
    ensures id in Ahead(after, all[k]) <==> id in Between(all, 0, k)
  {
    if id in before {
      var i := Place(before, all, id);
      OrderedPlaces(all, i, k);
      if offset <= i < end {
        VersionAhead(all, offset, end, env, i, k);
      }
    }
  }

  /** So it keeps its place. */
  lemma PlaceKept(before: map<string, Session>, after: map<string, Session>, all: seq<Session>, all': seq<Session>, offset: nat, end: nat,
                  env: nat -> ExpireEnv, k: nat)
    requires Turned(before, after, all, offset, end, env) && Lists(after, all') && StaysAhead(all, offset, end, env)
    requires end <= k < |all| == |all'|
    ensures all'[k] == all[k]
  {
    forall id ensures id in Ahead(after, all[k]) <==> id in Between(all, 0, k) {
      AheadKept(before, after, all, offset, end, env, k, id);
    }
    BetweenSize(all, 0, k);
    assert Ahead(after, all[k]) == Between(all, 0, k);
    var place := Place(after, all', all[k].id);
    PlaceIsAhead(after, all', place);
  }

  /** If one does not stay ahead, the first session behind the page comes to stand in front of the page's end. */
  lemma FirstBehindMovesUp(before: map<string, Session>, after: map<string, Session>, all: seq<Session>, offset: nat, end: nat, env: nat -> ExpireEnv)
    requires Turned(before, after, all, offset, end, env) && !StaysAhead(all, offset, end, env)
    ensures |Ahead(after, all[end])| < end
  {
    var f :| offset <= f < end && Due(all[f], env(f - offset).now) && !Before(Lapsed(all[f], env(f - offset).now), all[end]);
    var others := Between(all, 0, end) - {all[f].id};
    forall id | id in Ahead(after, all[end]) ensures id in others {
      var i := Place(before, all, id);
      OrderedPlaces(all, i, end);
    }
    BetweenSize(all, 0, end);
    assert all[f].id in Between(all, 0, end);
    Smaller(Ahead(after, all[end]), others);
  }

  lemma TailKept(before: map<string, Session>, after: map<string, Session>, all: seq<Session>, all': seq<Session>, offset: nat, end: nat,
                 env: nat -> ExpireEnv)
    requires Turned(before, after, all, offset, end, env) && Lists(after, all') && StaysAhead(all, offset, end, env)
    requires |all'| == |all|
    ensures all'[end..] == all[end..]
  {
    forall k | end <= k < |all| ensures all'[k] == all[k] {
      PlaceKept(before, after, all, all', offset, end, env, k);
    }
  }

  lemma TailMoved(before: map<string, Session>, after: map<string, Session>, all: seq<Session>, all': seq<Session>, offset: nat, end: nat,
                  env: nat -> ExpireEnv)
    requires Turned(before, after, all, offset, end, env) && Lists(after, all') && !StaysAhead(all, offset, end, env)
    requires |all'| == |all|
    ensures all'[end..][0] != all[end..][0]
  {
    FirstBehindMovesUp(before, after, all, offset, end, env);
    PlaceIsAhead(after, all', end);
  }

  /** The listing behind a page survives the page if and only if the sessions it expires stay ahead of the first one behind it. */
  lemma TailKeptIff(before: map<string, Session>, after: map<string, Session>, all: seq<Session>, all': seq<Session>, offset: nat, end: nat,
                    env: nat -> ExpireEnv)
    requires Turned(before, after, all, offset, end, env) && Lists(after, all')
    ensures |all'| == |all|
    ensures all'[end..] == all[end..] <==> StaysAhead(all, offset, end, env)
  {
    ListingSize(before, all);
    ListingSize(after, all');
    if StaysAhead(all, offset, end, env) {
      TailKept(before, after, all, all', offset, end, env);
    } else {
      TailMoved(before, after, all, all', offset, end, env);
    }
  }
}
