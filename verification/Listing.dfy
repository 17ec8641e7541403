/**
 Listings: rows ordered by time, newest first, and by id among equal times, cut into pages.
 `internal/app/memory_session.go` and `internal/app/memory_task.go` collect the rows of a map in
 whatever order Go iterates it and hand them to sort.Slice, which is not stable.  Neither matters:
 the order is a strict total order on rows with distinct ids, so only one listing exists.
 */
module Listing {
  import opened Wrappers
  import opened Core
  import Text

  /** A stored row.  `stamp` is the time it is listed by: updated_at of a session, created_at of a task. */
  datatype Record<+D> = Record(id: string, requestId: string, stamp: int, data: D)

  datatype Page<+D> = Page(rows: seq<Record<D>>, next: string)

  /** The `less` callback given to sort.Slice. */
  predicate Before<D>(a: Record<D>, b: Record<D>) {
    a.stamp > b.stamp || (a.stamp == b.stamp && Text.Less(a.id, b.id))
  }

  lemma BeforeTransitive<D>(a: Record<D>, b: Record<D>, c: Record<D>)
    requires Before(a, b) && Before(b, c)
    ensures Before(a, c)
  {
    if a.stamp == b.stamp == c.stamp {
      Text.LessTransitive(a.id, b.id, c.id);
    }
  }

  lemma BeforeTrichotomy<D>(a: Record<D>, b: Record<D>)
    ensures !Before(a, a)
    ensures Before(a, b) ==> !Before(b, a)
    ensures a.id != b.id ==> Before(a, b) || Before(b, a)
  {
    Text.LessTrichotomy(a.id, b.id);
    Text.LessTrichotomy(a.id, a.id);
  }

  // ---- sorted sequences ----

  /** What sort.Slice promises of its result: no later row is `less` than an earlier one. */
  ghost predicate Sorted<D(!new)>(s: seq<Record<D>>) {
    forall i, j :: 0 <= i < j < |s| ==> !Before(s[j], s[i])
  }

  ghost predicate DistinctIds<D(!new)>(s: seq<Record<D>>) {
    forall i, j :: 0 <= i < j < |s| ==> s[i].id != s[j].id
  }

  ghost function Elements<T>(s: seq<T>): set<T> {
    set x | x in s
  }

  /** `s` lists exactly the rows of the set, each once, in order. */
  ghost predicate IsListing<D(!new)>(s: seq<Record<D>>, rows: set<Record<D>>) {
    Elements(s) == rows && DistinctIds(s) && Sorted(s)
  }

  lemma SortedStrictly<D(!new)>(s: seq<Record<D>>, i: nat, j: nat)
    requires DistinctIds(s) && Sorted(s) && i < j < |s|
    ensures Before(s[i], s[j])
  {
    BeforeTrichotomy(s[i], s[j]);
  }

  /** There is at most one listing of a set of rows. */
  lemma {:induction false} ListingUnique<D(!new)>(a: seq<Record<D>>, b: seq<Record<D>>, rows: set<Record<D>>)
    requires IsListing(a, rows) && IsListing(b, rows)
    ensures a == b
    decreases |a|
  {
    EmptyListing(a, rows);
    EmptyListing(b, rows);
    if a != [] {
      HeadsAgree(a, b, rows);
      TailIsListing(a, rows);
      TailIsListing(b, rows);
      ListingUnique(a[1..], b[1..], rows - {a[0]});
      assert a == [a[0]] + a[1..] && b == [b[0]] + b[1..];
    }
  }

  lemma EmptyListing<D(!new)>(a: seq<Record<D>>, rows: set<Record<D>>)
    requires IsListing(a, rows)
    ensures a == [] <==> rows == {}
  {
    if a != [] {
      assert a[0] in Elements(a);
    }
  }

  lemma HeadsAgree<D(!new)>(a: seq<Record<D>>, b: seq<Record<D>>, rows: set<Record<D>>)
    requires IsListing(a, rows) && IsListing(b, rows) && a != [] && b != []
    ensures a[0] == b[0]
  {
    assert a[0] in Elements(a) && b[0] in Elements(b);
    assert a[0] in b && b[0] in a;
    var i :| 0 <= i < |b| && b[i] == a[0];
    var j :| 0 <= j < |a| && a[j] == b[0];
    BeforeTrichotomy(a[0], b[0]);
  }

  lemma TailIsListing<D(!new)>(a: seq<Record<D>>, rows: set<Record<D>>)
    requires IsListing(a, rows) && a != []
    ensures IsListing(a[1..], rows - {a[0]})
  {
    forall x ensures x in Elements(a[1..]) <==> x in rows - {a[0]} {
      if x in rows - {a[0]} {
        assert x in Elements(a);
        var i :| 0 <= i < |a| && a[i] == x;
        assert a[1..][i - 1] == x;
      }
      if x in a[1..] {
        var i :| 0 <= i < |a[1..]| && a[1..][i] == x;
        assert a[i + 1] == x && x in Elements(a);
      }
    }
  }

  // ---- sorting ----

  function Insert<D>(x: Record<D>, s: seq<Record<D>>): seq<Record<D>> {
    if s == [] || Before(x, s[0]) then [x] + s else [s[0]] + Insert(x, s[1..])
  }

  /** Stands for sort.Slice: `SortIsListing` and `ListingUnique` show that any other sort gives the same result. */
  function Sort<D>(s: seq<Record<D>>): seq<Record<D>> {
    if s == [] then [] else Insert(s[0], Sort(s[1..]))
  }

  lemma {:induction false} InsertKeepsListing<D(!new)>(x: Record<D>, s: seq<Record<D>>, rows: set<Record<D>>)
    requires IsListing(s, rows)
    requires forall r :: r in rows ==> r.id != x.id
    ensures IsListing(Insert(x, s), rows + {x})
    decreases |s|
  {
    var t := Insert(x, s);
    if s == [] || Before(x, s[0]) {
      assert t == [x] + s;
      forall i | 0 <= i < |s| ensures s[i].id != x.id && !Before(s[i], x) {
        assert s[i] in Elements(s);
        if i > 0 {
          SortedStrictly(s, 0, i);
          BeforeTransitive(x, s[0], s[i]);
        }
        BeforeTrichotomy(x, s[i]);
      }
    } else {
      TailIsListing(s, rows);
      InsertKeepsListing(x, s[1..], rows - {s[0]});
      var rest := Insert(x, s[1..]);
      assert t == [s[0]] + rest;
      assert s[0] in Elements(s);
      forall i | 0 <= i < |rest| ensures rest[i].id != s[0].id && !Before(rest[i], s[0]) {
        assert rest[i] in Elements(rest);
        if rest[i] != x {
          assert rest[i] in Elements(s);
          var j :| 0 <= j < |s| && s[j] == rest[i];
          SortedStrictly(s, 0, j);
          BeforeTrichotomy(s[0], s[j]);
        }
      }
      assert Elements(t) == {s[0]} + Elements(rest);
    }
    if s == [] || Before(x, s[0]) {
      assert Elements(t) == {x} + Elements(s);
    }
  }

  /** Sorting rows with distinct ids, in whatever order they were collected, yields their listing. */
  lemma {:induction false} SortIsListing<D(!new)>(s: seq<Record<D>>)
    requires DistinctIds(s)
    ensures IsListing(Sort(s), Elements(s))
    decreases |s|
  {
    if s != [] {
      SortIsListing(s[1..]);
      forall r | r in Elements(s[1..]) ensures r.id != s[0].id {
        var i :| 0 <= i < |s[1..]| && s[1..][i] == r;
        assert s[i + 1] == r;
      }
      InsertKeepsListing(s[0], Sort(s[1..]), Elements(s[1..]));
      assert Elements(s) == Elements(s[1..]) + {s[0]};
    }
  }

  // ---- the listing of a set of rows ----

  /** Distinct rows have distinct ids, as in any table whose key is the id. */
  ghost predicate Keyed<D(!new)>(rows: set<Record<D>>) {
    forall a, b :: a in rows && b in rows && a.id == b.id ==> a == b
  }

  ghost function SomeOrder<D(!new)>(rows: set<Record<D>>): (s: seq<Record<D>>)
    requires Keyed(rows)
    ensures Elements(s) == rows && DistinctIds(s)
  {
    if rows == {} then []
    else
      var x :| x in rows;
      var rest := SomeOrder(rows - {x});
      assert forall i :: 0 <= i < |rest| ==> rest[i] in Elements(rest) && rest[i].id != x.id;
      assert Elements([x] + rest) == {x} + Elements(rest);
      [x] + rest
  }

  /** The listing of a set of rows; by `ListingUnique` there is no other. */
  ghost function ListingOf<D(!new)>(rows: set<Record<D>>): (s: seq<Record<D>>)
    requires Keyed(rows)
    ensures IsListing(s, rows)
  {
    SortIsListing(SomeOrder(rows));
    Sort(SomeOrder(rows))
  }

  /** Listing is deterministic: two map iterations and two sorting algorithms cannot disagree. */
  lemma ListingDeterministic<D(!new)>(iterated: seq<Record<D>>, sorted: seq<Record<D>>)
    requires DistinctIds(iterated)
    requires multiset(sorted) == multiset(iterated) && Sorted(sorted)
    ensures sorted == ListingOf(Elements(iterated))
  {
    PermutationKeepsDistinctIds(iterated, sorted);
    forall x ensures x in Elements(sorted) <==> x in Elements(iterated) {
      assert x in sorted <==> x in multiset(sorted);
      assert x in iterated <==> x in multiset(iterated);
    }
    KeyedElements(iterated);
    ListingUnique(sorted, ListingOf(Elements(iterated)), Elements(iterated));
  }

  lemma KeyedElements<D(!new)>(s: seq<Record<D>>)
    requires DistinctIds(s)
    ensures Keyed(Elements(s))
  {
    forall a, b | a in Elements(s) && b in Elements(s) && a.id == b.id ensures a == b {
      var i :| 0 <= i < |s| && s[i] == a;
      var j :| 0 <= j < |s| && s[j] == b;
      assert i == j;
    }
  }

  lemma PermutationKeepsDistinctIds<D(!new)>(s: seq<Record<D>>, t: seq<Record<D>>)
    requires DistinctIds(s) && multiset(s) == multiset(t)
    ensures DistinctIds(t)
  {
    KeyedElements(s);
    forall i, j | 0 <= i < j < |t| ensures t[i].id != t[j].id {
      assert t[i] in multiset(t) && t[j] in multiset(t);
      assert t[i] in Elements(s) && t[j] in Elements(s);
      if t[i].id == t[j].id {
        TwiceInMultiset(t, i, j);
        AtMostOnce(s, t[i]);
      }
    }
  }

  lemma TwiceInMultiset<T>(t: seq<T>, i: nat, j: nat)
    requires i < j < |t| && t[i] == t[j]
    ensures multiset(t)[t[i]] >= 2
  {
    assert t == t[..i] + [t[i]] + t[i + 1..j] + [t[j]] + t[j + 1..];
  }

  lemma {:induction false} AtMostOnce<D(!new)>(s: seq<Record<D>>, x: Record<D>)
    requires DistinctIds(s)
    ensures multiset(s)[x] <= 1
    decreases |s|
  {
    if s != [] {
      AtMostOnce(s[1..], x);
      assert s == [s[0]] + s[1..];
      assert forall i :: 0 <= i < |s[1..]| ==> s[1..][i] == s[i + 1];
      assert s[0] !in s[1..];
    }
  }

  // ---- pages ----

  /** The tail of MemoryStore.ListSessions and ListTasks: slice the sorted rows and name the next offset. */
  function PageAt<D>(sorted: seq<Record<D>>, offset: nat, size: nat): Page<D> {
    if offset >= |sorted| then Page([], "")
    else
      var end := if offset + size > |sorted| then |sorted| else offset + size;
      Page(sorted[offset..end], if end < |sorted| then PageToken(end) else "")
  }
}
