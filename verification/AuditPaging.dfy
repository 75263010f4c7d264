/**
 Paging through the audit log with LIMIT and OFFSET, ordered by created_at only: when
 consecutive pages hold every row once.
 */
module AuditPaging {
  import opened AuditQueries

  /** The rows a filter selects, in log order. */
  function Selected(filter: ListFilter, log: seq<LogRow>): seq<LogRow> {
    if log == [] then []
    else
      var rest := Selected(filter, log[..|log| - 1]);
      if Satisfies(filter, log[|log| - 1]) then rest + [log[|log| - 1]] else rest
  }

  /** A primary key: no row twice. */
  ghost predicate NoRepeats(rows: seq<LogRow>) {
    forall x :: multiset(rows)[x] <= 1
  }

  ghost predicate Descending(rows: seq<LogRow>) {
    forall i, j :: 0 <= i < j < |rows| ==> rows[i].createdAt >= rows[j].createdAt
  }

  /** A result of ORDER BY created_at DESC: rows of equal time come in any order. */
  ghost predicate Ordering(rows: seq<LogRow>, order: seq<LogRow>) {
    multiset(order) == multiset(rows) && Descending(order)
  }

  function Cut(n: nat, length: nat): nat {
    if n < length then n else length
  }

  /** LIMIT limit OFFSET offset of an ordering. */
  function Window(order: seq<LogRow>, offset: nat, limit: nat): seq<LogRow> {
    order[Cut(offset, |order|)..Cut(offset + limit, |order|)]
  }

  function Page(order: seq<LogRow>, limit: nat, j: nat): seq<LogRow> {
    Window(order, j * limit, limit)
  }

  /** Pages 0..k one after another; each query may order equal times differently. */
  function Pages(orders: seq<seq<LogRow>>, limit: nat, k: nat): seq<LogRow>
    requires k <= |orders|
  {
    if k == 0 then [] else Pages(orders, limit, k - 1) + Page(orders[k - 1], limit, k - 1)
  }

  ghost predicate AllOrderings(rows: seq<LogRow>, orders: seq<seq<LogRow>>) {
    forall i :: 0 <= i < |orders| ==> Ordering(rows, orders[i])
  }

  /** No two rows of equal time lie on both sides of a page boundary. */
  ghost predicate NoTieAtBoundary(order: seq<LogRow>, limit: nat) {
    forall j: nat :: 0 < j * limit < |order| ==> order[j * limit - 1].createdAt != order[j * limit].createdAt
  }

  // ---------------------------------------------------------------- distinct times

  ghost predicate DistinctTimes(rows: seq<LogRow>) {
    forall i, j :: 0 <= i < j < |rows| ==> rows[i].createdAt != rows[j].createdAt
  }

  lemma HeadsEqual(a: seq<LogRow>, b: seq<LogRow>)
    requires Descending(a) && Descending(b) && multiset(a) == multiset(b) && DistinctTimes(a) && a != []
    ensures b != [] && a[0] == b[0]
  {
    assert a[0] in multiset(b);
    var j :| 0 <= j < |b| && b[j] == a[0];
    assert b[0] in multiset(a);
    var i :| 0 <= i < |a| && a[i] == b[0];
  }

  lemma TailKeeps(a: seq<LogRow>)
    requires a != [] && Descending(a)
    ensures Descending(a[1..]) && (DistinctTimes(a) ==> DistinctTimes(a[1..]))
    ensures multiset(a[1..]) == multiset(a) - multiset{a[0]}
  {
    assert a == [a[0]] + a[1..];
  }

  lemma {:induction false} OrderIsUnique(a: seq<LogRow>, b: seq<LogRow>)
    requires Descending(a) && Descending(b) && multiset(a) == multiset(b) && DistinctTimes(a)
    ensures a == b
    decreases |a|
  {
    hide Descending, DistinctTimes;
    if a == [] {
      assert |multiset(b)| == 0;
    } else {
      HeadsEqual(a, b);
      TailKeeps(a);
      TailKeeps(b);
      OrderIsUnique(a[1..], b[1..]);
      assert a == [a[0]] + a[1..] && b == [b[0]] + b[1..];
    }
  }

  lemma NextPage(order: seq<LogRow>, n: nat, limit: nat)
    ensures order[..Cut(n, |order|)] + Window(order, n, limit) == order[..Cut(n + limit, |order|)]
  {
  }

  /** With distinct times the pages spell out the one order, whatever the database does. */
  lemma {:induction false} PagesSpellOrder(
    rows: seq<LogRow>, order: seq<LogRow>, orders: seq<seq<LogRow>>, limit: nat, k: nat)
    requires Ordering(rows, order) && DistinctTimes(order) && AllOrderings(rows, orders) && k <= |orders|
    ensures Pages(orders, limit, k) == order[..Cut(k * limit, |order|)]
    decreases k
  {
    if k > 0 {
      PagesSpellOrder(rows, order, orders, limit, k - 1);
      OrderIsUnique(order, orders[k - 1]);
      hide Ordering, AllOrderings, DistinctTimes;
      var n := (k - 1) * limit;
      assert k * limit == n + limit;
      NextPage(order, n, limit);
    }
  }

  // ---------------------------------------------------------------- equal times

  lemma PrefixBag(s: seq<LogRow>, a: nat, b: nat)
    requires a <= b <= |s|
    ensures multiset(s[..b]) == multiset(s[..a]) + multiset(s[a..b])
    ensures multiset(s) == multiset(s[..b]) + multiset(s[b..])
  {
    assert s[..b] == s[..a] + s[a..b];
    assert s == s[..b] + s[b..];
  }

  lemma SubBagOfSize(a: multiset<LogRow>, b: multiset<LogRow>)
    requires a <= b && |a| == |b|
    ensures a == b
  {
    assert b == a + (b - a);
  }

  /** Every row of o's first b comes no later than row y, which o puts after them. */
  lemma EarlierIsNewer(o: seq<LogRow>, b: nat, y: LogRow, x: LogRow)
    requires Descending(o) && b <= |o| && y in o[b..] && x in o[..b]
    ensures x.createdAt >= y.createdAt
  {
    var i :| 0 <= i < b && o[i] == x;
    var j :| b <= j < |o| && o[j] == y;
  }

  /** Without a tie at b, every ordering has the same first b rows. */
  lemma PrefixSame(rows: seq<LogRow>, o: seq<LogRow>, p: seq<LogRow>, b: nat)
    requires NoRepeats(rows) && Ordering(rows, o) && Ordering(rows, p)
    requires 0 < b < |p| && |o| == |p| && p[b - 1].createdAt != p[b].createdAt
    ensures multiset(o[..b]) == multiset(p[..b])
  {
    PrefixBag(o, 0, b);
    PrefixBag(p, 0, b);
    if multiset(p[..b]) <= multiset(o[..b]) {
      SubBagOfSize(multiset(p[..b]), multiset(o[..b]));
    } else {
      var y :| multiset(p[..b])[y] > multiset(o[..b])[y];
      assert multiset(p[..b])[y] <= multiset(p)[y] == multiset(rows)[y] <= 1;
      assert y in multiset(p[..b]) && y in multiset(p) && y in multiset(o[b..]);
      forall x | x in o[..b]
        ensures x in p[..b]
      {
        EarlierIsNewer(o, b, y, x);
        NewerIsFirst(rows, o, p, b, y, x);
      }
      BagInside(rows, o[..b], p[..b], o[b..]);
      SubBagOfSize(multiset(o[..b]), multiset(p[..b]));
    }
  }

  lemma NewerIsFirst(rows: seq<LogRow>, o: seq<LogRow>, p: seq<LogRow>, b: nat, y: LogRow, x: LogRow)
    requires Ordering(rows, o) && Ordering(rows, p) && 0 < b < |p| && |o| == |p|
    requires p[b - 1].createdAt != p[b].createdAt
    requires y in p[..b] && x in o[..b] && x.createdAt >= y.createdAt
    ensures x in p[..b]
  {
    assert x in multiset(o);
    assert x in multiset(p);
    var k :| 0 <= k < |p| && p[k] == x;
    var i :| 0 <= i < b && p[i] == y;
    assert p[i].createdAt >= p[b - 1].createdAt > p[b].createdAt;
  }

  lemma BagInside(rows: seq<LogRow>, s: seq<LogRow>, t: seq<LogRow>, rest: seq<LogRow>)
    requires NoRepeats(rows) && multiset(rows) == multiset(s) + multiset(rest)
    requires forall x :: x in s ==> x in t
    ensures multiset(s) <= multiset(t)
  {
    forall x
      ensures multiset(s)[x] <= multiset(t)[x]
    {
      assert multiset(s)[x] <= multiset(rows)[x];
      assert x in s ==> x in multiset(t);
    }
  }

  /** At every page boundary all orderings have the same rows before it. */
  lemma BoundarySame(rows: seq<LogRow>, o: seq<LogRow>, p: seq<LogRow>, limit: nat, j: nat)
    requires NoRepeats(rows) && Ordering(rows, o) && Ordering(rows, p) && NoTieAtBoundary(p, limit)
    ensures |o| == |p| && multiset(o[..Cut(j * limit, |o|)]) == multiset(p[..Cut(j * limit, |p|)])
  {
    assert |o| == |multiset(o)| == |multiset(p)| == |p|;
    var b := j * limit;
    if b == 0 {
      assert o[..0] == p[..0];
    } else if b >= |p| {
      assert o[..|o|] == o && p[..|p|] == p;
    } else {
      hide NoRepeats, Ordering;
      PrefixSame(rows, o, p, b);
    }
  }

  /** One page adds the rows between its boundaries, in whatever order. */
  lemma PageIsDifference(rows: seq<LogRow>, o: seq<LogRow>, p: seq<LogRow>, limit: nat, j: nat)
    requires NoRepeats(rows) && Ordering(rows, o) && Ordering(rows, p) && NoTieAtBoundary(p, limit)
    ensures multiset(p[..Cut(j * limit, |p|)]) + multiset(Page(o, limit, j)) == multiset(p[..Cut((j + 1) * limit, |p|)])
  {
    var n := j * limit;
    assert (j + 1) * limit == n + limit;
    BoundarySame(rows, o, p, limit, j);
    BoundarySame(rows, o, p, limit, j + 1);
    hide NoRepeats, Ordering, NoTieAtBoundary, Cut;
    PrefixBag(o, Cut(n, |o|), Cut(n + limit, |o|));
  }

  lemma {:induction false} PagesHoldPrefix(
    rows: seq<LogRow>, p: seq<LogRow>, orders: seq<seq<LogRow>>, limit: nat, k: nat)
    requires NoRepeats(rows) && Ordering(rows, p) && AllOrderings(rows, orders) && NoTieAtBoundary(p, limit)
    requires k <= |orders|
    ensures multiset(Pages(orders, limit, k)) == multiset(p[..Cut(k * limit, |p|)])
    decreases k
  {
    if k == 0 {
      assert p[..0] == [];
    } else {
      var j, o := k - 1, orders[k - 1];
      assert Ordering(rows, o);
      hide NoRepeats, Ordering, AllOrderings, NoTieAtBoundary, Page, Cut;
      PagesHoldPrefix(rows, p, orders, limit, j);
      PageIsDifference(rows, o, p, limit, j);
      assert Pages(orders, limit, k) == Pages(orders, limit, j) + Page(o, limit, j);
    }
  }

  // ---------------------------------------------------------------- the exact condition

  lemma TwoPlaces(s: seq<LogRow>, i: nat, j: nat)
    requires i < j < |s| && s[i] == s[j]
    ensures multiset(s)[s[i]] >= 2
  {
    assert s == s[..j] + [s[j]] + s[j + 1..];
    assert s[i] in s[..j];
  }

  /** The two rows at a tied boundary, exchanged. */
  function Swapped(p: seq<LogRow>, b: nat): seq<LogRow>
    requires 0 < b < |p|
  {
    p[..b - 1] + [p[b], p[b - 1]] + p[b + 1..]
  }

  lemma SwappedIsOrdering(rows: seq<LogRow>, p: seq<LogRow>, b: nat)
    requires Ordering(rows, p) && 0 < b < |p| && p[b - 1].createdAt == p[b].createdAt
    ensures Ordering(rows, Swapped(p, b)) && |Swapped(p, b)| == |p| && Swapped(p, b)[b - 1] == p[b]
  {
    assert p == p[..b - 1] + [p[b - 1], p[b]] + p[b + 1..];
    var q := Swapped(p, b);
    assert forall i :: 0 <= i < |p| ==> q[i].createdAt == p[i].createdAt;
  }

  /** A row at a position outside a page is not on it. */
  lemma NotOnPage(rows: seq<LogRow>, o: seq<LogRow>, limit: nat, j: nat, at: nat)
    requires NoRepeats(rows) && Ordering(rows, o) && at < |o|
    requires at < j * limit || j * limit + limit <= at
    ensures o[at] !in Page(o, limit, j)
  {
    var page, lo := Page(o, limit, j), Cut(j * limit, |o|);
    if o[at] in page {
      var k :| 0 <= k < |page| && page[k] == o[at];
      assert o[lo + k] == o[at] && lo + k != at;
      TwoPlaces(o, if at < lo + k then at else lo + k, if at < lo + k then lo + k else at);
    }
  }

  lemma {:induction false} NotOnAnyPage(y: LogRow, orders: seq<seq<LogRow>>, limit: nat, k: nat)
    requires k <= |orders| && forall i :: 0 <= i < k ==> y !in Page(orders[i], limit, i)
    ensures y !in Pages(orders, limit, k)
  {
    if k > 0 {
      hide Page;
      NotOnAnyPage(y, orders, limit, k - 1);
    }
  }

  lemma {:induction false} MulGrows(a: nat, b: nat, m: nat)
    requires a <= b
    ensures a * m <= b * m
    decreases b - a
  {
    if a < b {
      MulGrows(a, b - 1, m);
      assert b * m == (b - 1) * m + m;
    }
  }

  lemma OtherPage(limit: nat, i: nat, j: nat)
    requires i != j && limit > 0
    ensures j * limit < i * limit || i * limit + limit <= j * limit
  {
    if i < j {
      MulGrows(i + 1, j, limit);
      assert (i + 1) * limit == i * limit + limit;
    } else {
      MulGrows(j + 1, i, limit);
      assert (j + 1) * limit == j * limit + limit;
    }
  }

  /** The orders of an unlucky reader: the tied rows exchanged for page j only. */
  function Unlucky(p: seq<LogRow>, limit: nat, j: nat): (orders: seq<seq<LogRow>>)
    requires 0 < j * limit < |p|
    ensures |orders| == |p|
    ensures forall i :: 0 <= i < |p| ==> orders[i] == if i == j then Swapped(p, j * limit) else p
  {
    seq(|p|, i => if i == j then Swapped(p, j * limit) else p)
  }

  lemma UnluckyMisses(rows: seq<LogRow>, p: seq<LogRow>, limit: nat, j: nat, i: nat)
    requires NoRepeats(rows) && Ordering(rows, p) && limit > 0 && i < |p|
    requires 0 < j * limit < |p| && p[j * limit - 1].createdAt == p[j * limit].createdAt
    ensures p[j * limit] !in Page(Unlucky(p, limit, j)[i], limit, i)
  {
    hide NoRepeats, Page, Swapped;
    var b := j * limit;
    if i == j {
      SwappedIsOrdering(rows, p, b);
      NotOnPage(rows, Swapped(p, b), limit, j, b - 1);
    } else {
      OtherPage(limit, i, j);
      NotOnPage(rows, p, limit, i, b);
    }
  }

  /** A tie at a boundary lets a row be skipped: the database may order it away on both pages. */
  lemma TieSkipsRow(rows: seq<LogRow>, p: seq<LogRow>, limit: nat, j: nat)
    requires NoRepeats(rows) && Ordering(rows, p) && limit > 0
    requires 0 < j * limit < |p| && p[j * limit - 1].createdAt == p[j * limit].createdAt
    ensures var orders := Unlucky(p, limit, j);
      && AllOrderings(rows, orders) && |orders| * limit >= |rows|
      && multiset(Pages(orders, limit, |orders|)) != multiset(rows)
  {
    var y, orders := p[j * limit], Unlucky(p, limit, j);
    assert y in multiset(p) && y in multiset(rows);
    assert |p| == |multiset(p)| == |rows|;
    MulGrows(1, limit, |p|);
    SwappedIsOrdering(rows, p, j * limit);
    assert AllOrderings(rows, orders);
    hide Page, NoRepeats, Ordering, AllOrderings, Unlucky, Swapped;
    forall i | 0 <= i < |orders|
      ensures y !in Page(orders[i], limit, i)
    {
      UnluckyMisses(rows, p, limit, j, i);
    }
    NotOnAnyPage(y, orders, limit, |orders|);
    assert y !in multiset(Pages(orders, limit, |orders|));
  }

  /** Pages always hold every row once exactly when no tie crosses a page boundary. */
  lemma PagingIff(rows: seq<LogRow>, p: seq<LogRow>, limit: nat)
    requires NoRepeats(rows) && Ordering(rows, p) && limit > 0
    ensures NoTieAtBoundary(p, limit) <==>
      forall orders: seq<seq<LogRow>> :: AllOrderings(rows, orders) && |orders| * limit >= |rows| ==>
        multiset(Pages(orders, limit, |orders|)) == multiset(rows)
  {
    assert |p| == |multiset(p)| == |rows|;
    if NoTieAtBoundary(p, limit) {
      forall orders: seq<seq<LogRow>> | AllOrderings(rows, orders) && |orders| * limit >= |rows|
        ensures multiset(Pages(orders, limit, |orders|)) == multiset(rows)
      {
        PagesHoldPrefix(rows, p, orders, limit, |orders|);
        assert p[..|p|] == p;
      }
    } else {
      var j: nat :| 0 < j * limit < |p| && p[j * limit - 1].createdAt == p[j * limit].createdAt;
      TieSkipsRow(rows, p, limit, j);
    }
  }

  // ---------------------------------------------------------------- the queries of the store

  /** The rows the WHERE clause of a query keeps. */
  function Matching(q: Query, args: seq<Arg>, log: seq<LogRow>): seq<LogRow>
    requires Numbered(q, args)
  {
    if log == [] then []
    else
      var rest := Matching(q, args, log[..|log| - 1]);
      if Where(q, args, log[|log| - 1]) then rest + [log[|log| - 1]] else rest
  }

  /** A result the database may give: some ordering of the rows, from OFFSET on, LIMIT rows of it. */
  ghost predicate Answers(q: Query, args: seq<Arg>, log: seq<LogRow>, result: seq<LogRow>)
    requires Numbered(q, args)
  {
    var limit, offset := args[q.limitAt - 1], args[q.offsetAt - 1];
    && limit.IntArg? && offset.IntArg? && limit.value >= 0 && offset.value >= 0
    && exists order :: Ordering(Matching(q, args, log), order) && result == Window(order, offset.value, limit.value)
  }

  lemma {:induction false} MatchingIsSelected(
    q: Query, args: seq<Arg>, filter: ListFilter, limit: int, offset: int, log: seq<LogRow>)
    requires Builds(q, args, filter, limit, offset)
    ensures Matching(q, args, log) == Selected(filter, log)
  {
    hide Where, Satisfies;
    if log != [] {
      MatchingIsSelected(q, args, filter, limit, offset, log[..|log| - 1]);
    }
  }

  /** One of the queries the builder makes for this filter, and an answer to it. */
  ghost predicate Asked(
    q: Query, args: seq<Arg>, filter: ListFilter, limit: nat, offset: nat, log: seq<LogRow>, result: seq<LogRow>)
  {
    Builds(q, args, filter, limit, offset) && Answers(q, args, log, result)
  }

  lemma AnswerIsWindow(
    q: Query, args: seq<Arg>, filter: ListFilter, limit: nat, offset: nat, log: seq<LogRow>, result: seq<LogRow>)
    returns (order: seq<LogRow>)
    requires Asked(q, args, filter, limit, offset, log, result)
    ensures Ordering(Selected(filter, log), order) && result == Window(order, offset, limit)
  {
    MatchingIsSelected(q, args, filter, limit, offset, log);
    hide Matching, Selected, Where, Ordering, Window;
    order :| Ordering(Matching(q, args, log), order) && result == Window(order, offset, limit);
  }

  function Joined(results: seq<seq<LogRow>>): seq<LogRow> {
    if results == [] then [] else Joined(results[..|results| - 1]) + results[|results| - 1]
  }

  function Offset(limit: nat, j: nat): nat {
    j * limit
  }

  /** With distinct times, the answers to consecutive page queries join to the whole filtered log. */
  lemma {:induction false} AnswersJoin(
    queries: seq<(Query, seq<Arg>)>, results: seq<seq<LogRow>>, filter: ListFilter, limit: nat,
    log: seq<LogRow>, order: seq<LogRow>)
    requires |queries| == |results|
    requires forall j :: 0 <= j < |queries| ==>
      Asked(queries[j].0, queries[j].1, filter, limit, Offset(limit, j), log, results[j])
    requires Ordering(Selected(filter, log), order) && DistinctTimes(order)
    ensures Joined(results) == order[..Cut(Offset(limit, |results|), |order|)]
    decreases |results|
  {
    hide Selected, Ordering, DistinctTimes, Asked, Window, Offset;
    if results == [] {
      OffsetStep(limit, 0);
    } else {
      var k := |results| - 1;
      var before, asked := results[..k], queries[..k];
      assert forall j :: 0 <= j < k ==> asked[j] == queries[j] && before[j] == results[j];
      AnswersJoin(asked, before, filter, limit, log, order);
      var o := AnswerIsWindow(queries[k].0, queries[k].1, filter, limit, Offset(limit, k), log, results[k]);
      SameOrder(Selected(filter, log), order, o);
      NextPage(order, Offset(limit, k), limit);
      OffsetStep(limit, k);
    }
  }

  lemma SameOrder(rows: seq<LogRow>, a: seq<LogRow>, b: seq<LogRow>)
    requires Ordering(rows, a) && Ordering(rows, b) && DistinctTimes(a)
    ensures a == b
  {
    OrderIsUnique(a, b);
  }

  lemma OffsetStep(limit: nat, j: nat)
    ensures Offset(limit, 0) == 0 && Offset(limit, j + 1) == Offset(limit, j) + limit
  {
  }
}
