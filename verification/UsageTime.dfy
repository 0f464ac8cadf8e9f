/**
 Active time of a set of requests: the query that clips the request intervals
 to a range, sorts them, starts a new island wherever an interval begins after
 every earlier one has ended, and adds up the islands. Times are microseconds.
 */
module UsageTime {
  import opened Wrappers

  /** A request's receipt and completion; either may be missing. */
  datatype Event = Event(received: Option<int>, finished: Option<int>)

  datatype Interval = Interval(s: int, e: int)

  // ---- the query, one function per stage ----

  /** Clipped intervals of the timed requests; some may be empty. */
  function Iv(events: seq<Event>, from: int, to: int): seq<Interval> {
    if |events| == 0 then [] else
    var x := events[0];
    (if x.received.Some? && x.finished.Some? && x.finished.value > x.received.value
     then [Interval(Max(x.received.value, from), Min(x.finished.value, to))] else []) +
    Iv(events[1..], from, to)
  }

  function NonEmpty(iv: seq<Interval>): (r: seq<Interval>)
    ensures forall x :: x in r <==> x in iv && x.e > x.s
  {
    if |iv| == 0 then []
    else if iv[0].e > iv[0].s then [iv[0]] + NonEmpty(iv[1..])
    else NonEmpty(iv[1..])
  }

  predicate Before(a: Interval, b: Interval) {
    a.s < b.s || (a.s == b.s && a.e <= b.e)
  }

  function InsertRow(x: Interval, rows: seq<Interval>): seq<Interval> {
    if |rows| == 0 then [x]
    else if Before(x, rows[0]) then [x] + rows
    else [rows[0]] + InsertRow(x, rows[1..])
  }

  function OrderBy(rows: seq<Interval>): seq<Interval> {
    if |rows| == 0 then [] else InsertRow(rows[0], OrderBy(rows[1..]))
  }

  /** The largest end among the first n rows. */
  function PrevEnd(rows: seq<Interval>, n: nat): Option<int>
    requires n <= |rows|
  {
    if n == 0 then None
    else match PrevEnd(rows, n - 1)
      case None => Some(rows[n - 1].e)
      case Some(m) => Some(Max(m, rows[n - 1].e))
  }

  function Starts(rows: seq<Interval>, k: nat): nat
    requires k < |rows|
  {
    match PrevEnd(rows, k) case None => 1 case Some(m) => if rows[k].s > m then 1 else 0
  }

  /** The islands started among the first n rows that do not come after row k:
      the window of a running sum takes in the rows equal to the current one. */
  function GroupSum(rows: seq<Interval>, k: nat, n: nat): nat
    requires k < |rows| && n <= |rows|
  {
    if n == 0 then 0
    else GroupSum(rows, k, n - 1) + if Before(rows[n - 1], rows[k]) then Starts(rows, n - 1) else 0
  }

  function Groups(rows: seq<Interval>): seq<nat> {
    seq(|rows|, k requires 0 <= k < |rows| => GroupSum(rows, k, |rows|))
  }

  /** The least start of a group among the first n rows. */
  function MinStart(rows: seq<Interval>, gs: seq<nat>, g: nat, n: nat): Option<int>
    requires n <= |rows| == |gs|
  {
    if n == 0 then None else
    var m := MinStart(rows, gs, g, n - 1);
    if gs[n - 1] != g then m else if m.None? then Some(rows[n - 1].s) else Some(Min(m.value, rows[n - 1].s))
  }

  /** The greatest end of a group among the first n rows. */
  function MaxEnd(rows: seq<Interval>, gs: seq<nat>, g: nat, n: nat): Option<int>
    requires n <= |rows| == |gs|
  {
    if n == 0 then None else
    var m := MaxEnd(rows, gs, g, n - 1);
    if gs[n - 1] != g then m else if m.None? then Some(rows[n - 1].e) else Some(Max(m.value, rows[n - 1].e))
  }

  /** The groups that occur among the first n rows, each once. */
  function GroupBy(gs: seq<nat>, n: nat): (r: seq<nat>)
    requires n <= |gs|
    ensures forall g :: g in r <==> g in gs[..n]
  {
    if n == 0 then [] else
    assert gs[..n] == gs[..n - 1] + [gs[n - 1]];
    var before := GroupBy(gs, n - 1);
    if gs[n - 1] in before then before else before + [gs[n - 1]]
  }

  function IslandLength(rows: seq<Interval>, gs: seq<nat>, g: nat, n: nat): int
    requires n <= |rows| == |gs|
  {
    match (MinStart(rows, gs, g, n), MaxEnd(rows, gs, g, n))
    case (Some(s), Some(e)) => e - s
    case _ => 0
  }

  /** The lengths of the first m islands of the list, added up. */
  function SumIslands(rows: seq<Interval>, gs: seq<nat>, islands: seq<nat>, m: nat, n: nat): int
    requires n <= |rows| == |gs| && m <= |islands|
  {
    if m == 0 then 0 else SumIslands(rows, gs, islands, m - 1, n) + IslandLength(rows, gs, islands[m - 1], n)
  }

  /** The active time of the first n rows. */
  function Active(rows: seq<Interval>, gs: seq<nat>, n: nat): int
    requires n <= |rows| == |gs|
  {
    SumIslands(rows, gs, GroupBy(gs, n), |GroupBy(gs, n)|, n)
  }

  function ActiveTime(events: seq<Event>, from: int, to: int): int {
    var ordered := OrderBy(NonEmpty(Iv(events, from, to)));
    Active(ordered, Groups(ordered), |ordered|)
  }

  function Summed(rows: seq<Interval>, n: nat): int
    requires n <= |rows|
  {
    if n == 0 then 0 else Summed(rows, n - 1) + rows[n - 1].e - rows[n - 1].s
  }

  function SummedTime(events: seq<Event>, from: int, to: int): int {
    var rows := NonEmpty(Iv(events, from, to));
    Summed(rows, |rows|)
  }

  // ---- what it measures ----

  predicate Within(x: Interval, t: int) {
    x.s <= t < x.e
  }

  function Span(x: Interval): set<int> {
    set t: int | x.s <= t < x.e && Within(x, t)
  }

  /** The moments in at least one of the first n intervals. */
  function Covered(rows: seq<Interval>, n: nat): set<int>
    requires n <= |rows|
  {
    if n == 0 then {} else Covered(rows, n - 1) + Span(rows[n - 1])
  }

  lemma {:induction false} CoveredIff(rows: seq<Interval>, n: nat, t: int)
    requires n <= |rows|
    ensures t in Covered(rows, n) <==> exists k :: 0 <= k < n && Within(rows[k], t)
  {
    if n > 0 {
      CoveredIff(rows, n - 1, t);
    }
  }

  lemma {:induction false} SpanSize(s: int, e: int)
    ensures |Span(Interval(s, e))| == Max(0, e - s)
    decreases e - s
  {
    if e <= s {
      assert Span(Interval(s, e)) == {};
    } else {
      SpanSize(s, e - 1);
      assert Span(Interval(s, e)) == Span(Interval(s, e - 1)) + {e - 1};
    }
  }

  // ---- sorted rows ----

  ghost predicate SortedRows(rows: seq<Interval>) {
    && (forall i, j | 0 <= i <= j < |rows| :: Before(rows[i], rows[j]))
    && (forall k | 0 <= k < |rows| :: rows[k].e > rows[k].s)
  }

  lemma {:induction false} PrevEndBounds(rows: seq<Interval>, n: nat)
    requires n <= |rows|
    ensures n == 0 <==> PrevEnd(rows, n).None?
    ensures forall k | 0 <= k < n :: rows[k].e <= PrevEnd(rows, n).value
    ensures n > 0 ==> exists k :: 0 <= k < n && rows[k].e == PrevEnd(rows, n).value
  {
    if n > 0 {
      PrevEndBounds(rows, n - 1);
      if n > 1 && PrevEnd(rows, n) == PrevEnd(rows, n - 1) {
        var k :| 0 <= k < n - 1 && rows[k].e == PrevEnd(rows, n - 1).value;
        assert rows[k].e == PrevEnd(rows, n).value;
      } else {
        assert rows[n - 1].e == PrevEnd(rows, n).value;
      }
    }
  }

  /** The islands started among the first n rows. */
  function Started(rows: seq<Interval>, n: nat): nat
    requires n <= |rows|
  {
    if n == 0 then 0 else Started(rows, n - 1) + Starts(rows, n - 1)
  }

  /** Rows equal to the current one start nothing, so each row's group is the
      number of islands started up to it. */
  lemma {:induction false} GroupIsStarted(rows: seq<Interval>, k: nat, n: nat)
    requires SortedRows(rows) && k < |rows| && n <= |rows|
    ensures GroupSum(rows, k, n) == Started(rows, if n <= k then n else k + 1)
  {
    if n > 0 {
      GroupIsStarted(rows, k, n - 1);
      if n <= k + 1 {
        assert Before(rows[n - 1], rows[k]);
      } else if Before(rows[n - 1], rows[k]) {
        assert Before(rows[k], rows[n - 1]);
        PrevEndBounds(rows, n - 1);
        assert rows[k].e <= PrevEnd(rows, n - 1).value;
      }
    }
  }

  // ---- islands, row by row ----

  lemma {:induction false} SumElsewhere(rows: seq<Interval>, gs: seq<nat>, islands: seq<nat>, m: nat, n: nat)
    requires n < |rows| == |gs| && m <= |islands| && gs[n] !in islands[..m]
    ensures SumIslands(rows, gs, islands, m, n + 1) == SumIslands(rows, gs, islands, m, n)
  {
    if m > 0 {
      assert islands[..m] == islands[..m - 1] + [islands[m - 1]];
      SumElsewhere(rows, gs, islands, m - 1, n);
    }
  }

  lemma {:induction false} SumPrefix(rows: seq<Interval>, gs: seq<nat>, islands: seq<nat>, g: nat, m: nat, n: nat)
    requires n <= |rows| == |gs| && m <= |islands|
    ensures SumIslands(rows, gs, islands + [g], m, n) == SumIslands(rows, gs, islands, m, n)
  {
    if m > 0 {
      SumPrefix(rows, gs, islands, g, m - 1, n);
    }
  }

  lemma {:induction false} GroupExtremes(rows: seq<Interval>, gs: seq<nat>, g: nat, n: nat)
    requires n <= |rows| == |gs|
    ensures MinStart(rows, gs, g, n).Some? <==> g in gs[..n]
    ensures MaxEnd(rows, gs, g, n).Some? <==> g in gs[..n]
    ensures g in gs[..n] ==> exists k :: 0 <= k < n && rows[k].s == MinStart(rows, gs, g, n).value
  {
    if n > 0 {
      GroupExtremes(rows, gs, g, n - 1);
      assert gs[..n] == gs[..n - 1] + [gs[n - 1]];
      if gs[n - 1] == g {
        assert rows[n - 1].s == MinStart(rows, gs, g, n).value
               || MinStart(rows, gs, g, n) == MinStart(rows, gs, g, n - 1);
      }
    }
  }

  /** The last group is the newest island, and its end the latest of all. */
  ghost predicate NewestLast(rows: seq<Interval>, gs: seq<nat>, n: nat, newest: nat)
    requires n <= |rows| == |gs|
  {
    var islands := GroupBy(gs, n);
    && |islands| > 0 && islands[|islands| - 1] == newest
    && (forall i | 0 <= i < |islands| - 1 :: islands[i] < newest)
    && MaxEnd(rows, gs, newest, n) == PrevEnd(rows, n)
  }

  /** A row that starts after every earlier end opens an island of its own. */
  lemma {:induction false} IslandOpens(rows: seq<Interval>, gs: seq<nat>, n: nat, last: nat)
    requires n < |rows| == |gs| && gs[n] == last + 1
    requires n > 0 ==> NewestLast(rows, gs, n, last) && rows[n].s > PrevEnd(rows, n).value && rows[n].e > rows[n].s
    requires n > 0 ==> PrevEnd(rows, n).Some?
    ensures NewestLast(rows, gs, n + 1, last + 1)
    ensures Active(rows, gs, n + 1) == Active(rows, gs, n) + rows[n].e - rows[n].s
  {
    var islands, g := GroupBy(gs, n), last + 1;
    assert g !in islands;
    GroupExtremes(rows, gs, g, n);
    SumElsewhere(rows, gs, islands, |islands|, n);
    SumPrefix(rows, gs, islands, g, |islands|, n + 1);
  }

  /** Any other row extends the newest island by what sticks out. */
  lemma {:induction false} IslandExtends(rows: seq<Interval>, gs: seq<nat>, n: nat)
    requires n < |rows| == |gs| && NewestLast(rows, gs, n, gs[n]) && PrevEnd(rows, n).Some?
    requires forall k | 0 <= k < n :: rows[k].s <= rows[n].s
    ensures NewestLast(rows, gs, n + 1, gs[n])
    ensures Active(rows, gs, n + 1) == Active(rows, gs, n) + Max(0, rows[n].e - PrevEnd(rows, n).value)
  {
    var islands := GroupBy(gs, n);
    GroupExtremes(rows, gs, gs[n], n);
    SumElsewhere(rows, gs, islands, |islands| - 1, n);
    assert MinStart(rows, gs, gs[n], n + 1) == MinStart(rows, gs, gs[n], n);
  }

  /** The part of row n that lies after every earlier end. */
  function Added(rows: seq<Interval>, n: nat): Interval
    requires n < |rows|
  {
    Interval(match PrevEnd(rows, n) case None => rows[n].s case Some(m) => Max(rows[n].s, m), rows[n].e)
  }

  lemma {:induction false} AddedIsNew(rows: seq<Interval>, n: nat, t: int)
    requires n < |rows| && forall k | 0 <= k < n :: rows[k].s <= rows[n].s
    ensures t in Covered(rows, n + 1) <==> t in Covered(rows, n) || t in Span(Added(rows, n))
    ensures !(t in Covered(rows, n) && t in Span(Added(rows, n)))
  {
    CoveredIff(rows, n, t);
    PrevEndBounds(rows, n);
    if rows[n].s <= t < Added(rows, n).s {
      var k :| 0 <= k < n && rows[k].e == PrevEnd(rows, n).value;
      assert Within(rows[k], t);
    }
  }

  /** What a row adds to the covered moments. */
  lemma {:induction false} CoveredStep(rows: seq<Interval>, n: nat)
    requires n < |rows| && forall k | 0 <= k < n :: rows[k].s <= rows[n].s
    ensures |Covered(rows, n + 1)| == |Covered(rows, n)| + Max(0, rows[n].e - Added(rows, n).s)
  {
    forall t
      ensures t in Covered(rows, n + 1) <==> t in Covered(rows, n) || t in Span(Added(rows, n))
      ensures !(t in Covered(rows, n) && t in Span(Added(rows, n)))
    {
      AddedIsNew(rows, n, t);
    }
    assert Covered(rows, n + 1) == Covered(rows, n) + Span(Added(rows, n));
    assert Covered(rows, n) !! Span(Added(rows, n));
    SpanSize(Added(rows, n).s, rows[n].e);
  }

  lemma {:induction false} MeasureStep(rows: seq<Interval>, gs: seq<nat>, n: nat, last: nat)
    requires n < |rows| == |gs| && gs[n] == last + Starts(rows, n)
    requires rows[n].e > rows[n].s && forall k | 0 <= k < n :: rows[k].s <= rows[n].s
    requires n > 0 ==> NewestLast(rows, gs, n, last)
    ensures NewestLast(rows, gs, n + 1, gs[n])
    ensures Active(rows, gs, n + 1) - Active(rows, gs, n) == Max(0, rows[n].e - Added(rows, n).s)
  {
    PrevEndBounds(rows, n);
    if Starts(rows, n) == 1 {
      IslandOpens(rows, gs, n, last);
    } else {
      IslandExtends(rows, gs, n);
    }
  }

  /** On sorted rows the islands add up to the covered moments. */
  lemma {:induction false} IslandsMeasure(rows: seq<Interval>, n: nat)
    requires SortedRows(rows) && n <= |rows|
    ensures Active(rows, Groups(rows), n) == |Covered(rows, n)|
    ensures n > 0 ==> NewestLast(rows, Groups(rows), n, Started(rows, n))
  {
    if n > 0 {
      var k: nat, gs := n - 1, Groups(rows);
      IslandsMeasure(rows, k);
      assert gs[k] == Started(rows, k) + Starts(rows, k) by {
        GroupIsStarted(rows, k, |rows|);
      }
      assert forall i | 0 <= i < k :: Before(rows[i], rows[k]);
      CoveredStep(rows, k);
      MeasureStep(rows, gs, k, Started(rows, k));
    }
  }

  // ---- the whole query ----

  lemma {:induction false} InsertRowSame(x: Interval, rows: seq<Interval>)
    ensures multiset(InsertRow(x, rows)) == multiset(rows) + multiset{x}
  {
    if |rows| > 0 && !Before(x, rows[0]) {
      InsertRowSame(x, rows[1..]);
      assert rows == [rows[0]] + rows[1..];
    }
  }

  lemma {:induction false} FirstRow(x: Interval, rows: seq<Interval>)
    requires SortedRows(rows) && x.e > x.s && forall r | r in rows :: Before(x, r)
    ensures SortedRows([x] + rows)
  {}

  lemma {:induction false} InsertRowSorts(x: Interval, rows: seq<Interval>)
    requires SortedRows(rows) && x.e > x.s
    ensures SortedRows(InsertRow(x, rows))
  {
    if |rows| == 0 {
    } else if Before(x, rows[0]) {
      FirstRow(x, rows);
    } else {
      InsertRowSorts(x, rows[1..]);
      InsertRowSame(x, rows[1..]);
      forall r | r in InsertRow(x, rows[1..])
        ensures Before(rows[0], r)
      {
        assert r in multiset(InsertRow(x, rows[1..]));
      }
      FirstRow(rows[0], InsertRow(x, rows[1..]));
    }
  }

  /** Sorting keeps every row as often as it occurs. */
  lemma {:induction false} OrderBySorts(rows: seq<Interval>)
    requires forall x | x in rows :: x.e > x.s
    ensures SortedRows(OrderBy(rows)) && multiset(OrderBy(rows)) == multiset(rows)
  {
    if |rows| > 0 {
      OrderBySorts(rows[1..]);
      InsertRowSorts(rows[0], OrderBy(rows[1..]));
      InsertRowSame(rows[0], OrderBy(rows[1..]));
      assert rows == [rows[0]] + rows[1..];
    }
  }

  /** A moment of the range during which some request was under way. */
  ghost predicate Busy(events: seq<Event>, from: int, to: int, t: int) {
    from <= t < to && exists x :: x in events && UnderWay(x, t)
  }

  predicate UnderWay(x: Event, t: int) {
    x.received.Some? && x.finished.Some? && x.received.value <= t < x.finished.value
  }

  lemma {:induction false} ClippedCovers(events: seq<Event>, from: int, to: int, t: int)
    ensures Busy(events, from, to, t) <==> exists x :: x in Iv(events, from, to) && Within(x, t)
  {
    if |events| > 0 {
      var x := events[0];
      assert events == [x] + events[1..];
      ClippedCovers(events[1..], from, to, t);
      if x.received.Some? && x.finished.Some? && x.finished.value > x.received.value {
        var c := Interval(Max(x.received.value, from), Min(x.finished.value, to));
        assert Iv(events, from, to) == [c] + Iv(events[1..], from, to);
        assert Within(c, t) <==> from <= t < to && UnderWay(x, t);
      }
    }
  }

  lemma {:induction false} CoveredIsBusy(events: seq<Event>, from: int, to: int, rows: seq<Interval>, t: int)
    requires multiset(rows) == multiset(NonEmpty(Iv(events, from, to)))
    ensures t in Covered(rows, |rows|) <==> Busy(events, from, to, t)
  {
    var kept := NonEmpty(Iv(events, from, to));
    assert forall x :: x in kept <==> x in multiset(kept);
    assert forall x :: x in rows <==> x in multiset(rows);
    CoveredIff(rows, |rows|, t);
    ClippedCovers(events, from, to, t);
  }

  /** The active time is the number of moments of the range during which a
      request was under way, however many were. */
  lemma {:induction false} ActiveTimeIsBusyTime(events: seq<Event>, from: int, to: int, busy: set<int>)
    requires forall t :: t in busy <==> Busy(events, from, to, t)
    ensures ActiveTime(events, from, to) == |busy|
  {
    var rows := OrderBy(NonEmpty(Iv(events, from, to)));
    OrderBySorts(NonEmpty(Iv(events, from, to)));
    IslandsMeasure(rows, |rows|);
    forall t
      ensures t in busy <==> t in Covered(rows, |rows|)
    {
      CoveredIsBusy(events, from, to, rows, t);
    }
    assert busy == Covered(rows, |rows|);
  }

  ghost predicate Overlap(a: Interval, b: Interval) {
    exists t :: Within(a, t) && Within(b, t)
  }

  /** No two of the first n rows share a moment. */
  ghost predicate Disjoint(rows: seq<Interval>, n: nat)
    requires n <= |rows|
  {
    forall i, j | 0 <= i < j < n :: !Overlap(rows[i], rows[j])
  }

  lemma {:induction false} SumIsMeasureIfDisjoint(rows: seq<Interval>, n: nat)
    requires n <= |rows| && forall x | x in rows :: x.e > x.s
    ensures |Covered(rows, n)| <= Summed(rows, n)
    ensures |Covered(rows, n)| == Summed(rows, n) <==> Disjoint(rows, n)
  {
    if n > 0 {
      SumIsMeasureIfDisjoint(rows, n - 1);
      SpanSize(rows[n - 1].s, rows[n - 1].e);
      assert Interval(rows[n - 1].s, rows[n - 1].e) == rows[n - 1] && rows[n - 1] in rows;
      UnionSize(Covered(rows, n - 1), Span(rows[n - 1]));
      DisjointStep(rows, n - 1);
    }
  }

  lemma {:induction false} UnionSize(a: set<int>, b: set<int>)
    ensures |a + b| <= |a| + |b|
    ensures |a + b| == |a| + |b| <==> a !! b
  {
    assert |a + b| + |a * b| == |a| + |b|;
    if a !! b {
      assert a * b == {};
    } else if a * b == {} {
      forall t | t in a
        ensures t !in b
      {
        assert t !in a * b;
      }
    }
  }

  lemma {:induction false} DisjointStep(rows: seq<Interval>, n: nat)
    requires n < |rows|
    ensures Disjoint(rows, n + 1) <==> Disjoint(rows, n) && Covered(rows, n) !! Span(rows[n])
  {
    forall t
      ensures t in Covered(rows, n) <==> exists k :: 0 <= k < n && Within(rows[k], t)
    {
      CoveredIff(rows, n, t);
    }
    if Disjoint(rows, n) && Covered(rows, n) !! Span(rows[n]) {
      forall i, t | 0 <= i < n && Within(rows[i], t)
        ensures !Within(rows[n], t)
      {
        assert t in Covered(rows, n);
      }
    }
    if Disjoint(rows, n + 1) {
      forall t | t in Covered(rows, n)
        ensures t !in Span(rows[n])
      {
        var k :| 0 <= k < n && Within(rows[k], t);
        assert !Overlap(rows[k], rows[n]);
      }
    }
  }

  /** The active time never exceeds the summed time, and equals it exactly when
      no two clipped requests overlap; nor does it exceed the range. */
  lemma {:induction false} ActiveTimeBounds(events: seq<Event>, from: int, to: int)
    ensures 0 <= ActiveTime(events, from, to) <= SummedTime(events, from, to)
    ensures ActiveTime(events, from, to) <= Max(0, to - from)
    ensures var rows := NonEmpty(Iv(events, from, to));
            ActiveTime(events, from, to) == SummedTime(events, from, to) <==> Disjoint(rows, |rows|)
  {
    var rows := NonEmpty(Iv(events, from, to));
    var busy := Covered(rows, |rows|);
    forall t
      ensures t in busy <==> Busy(events, from, to, t)
    {
      CoveredIsBusy(events, from, to, rows, t);
    }
    ActiveTimeIsBusyTime(events, from, to, busy);
    SumIsMeasureIfDisjoint(rows, |rows|);
    SpanSize(from, to);
    forall t | t in busy
      ensures t in Span(Interval(from, to))
    {
      assert Busy(events, from, to, t) && Within(Interval(from, to), t);
    }
    SubsetSize(busy, Span(Interval(from, to)));
  }

  // ---- the other two figures ----

  /** The moments of the range at which one request was under way. */
  function OwnTime(x: Event, from: int, to: int): set<int> {
    set t: int | from <= t < to && UnderWay(x, t)
  }

  function SumOfOwn(events: seq<Event>, from: int, to: int): int {
    if |events| == 0 then 0 else |OwnTime(events[0], from, to)| + SumOfOwn(events[1..], from, to)
  }

  /** Adding up from the front is adding up from the back. */
  lemma {:induction false} SummedFront(x: Interval, rows: seq<Interval>, n: nat)
    requires n <= |rows|
    ensures Summed([x] + rows, n + 1) == x.e - x.s + Summed(rows, n)
  {
    if n > 0 {
      SummedFront(x, rows, n - 1);
    }
  }

  lemma {:induction false} OwnSpan(x: Event, from: int, to: int)
    ensures |OwnTime(x, from, to)| ==
            if x.received.Some? && x.finished.Some?
            then Max(0, Min(x.finished.value, to) - Max(x.received.value, from)) else 0
  {
    if x.received.Some? && x.finished.Some? {
      var s, e := Max(x.received.value, from), Min(x.finished.value, to);
      SpanSize(s, e);
      assert OwnTime(x, from, to) == Span(Interval(s, e));
    } else {
      assert OwnTime(x, from, to) == {};
    }
  }

  lemma {:induction false} KeptSum(c: Interval, iv: seq<Interval>)
    ensures var kept, more := NonEmpty(iv), NonEmpty([c] + iv);
            Summed(more, |more|) == Max(0, c.e - c.s) + Summed(kept, |kept|)
  {
    assert ([c] + iv)[1..] == iv;
    if c.e > c.s {
      SummedFront(c, NonEmpty(iv), |NonEmpty(iv)|);
    }
  }

  /** The summed time counts, request by request, the moments of the range at
      which it was under way. */
  lemma {:induction false} SummedTimeIsOwnTime(events: seq<Event>, from: int, to: int)
    ensures SummedTime(events, from, to) == SumOfOwn(events, from, to)
  {
    if |events| > 0 {
      var x, rest := events[0], Iv(events[1..], from, to);
      SummedTimeIsOwnTime(events[1..], from, to);
      OwnSpan(x, from, to);
      if x.received.Some? && x.finished.Some? && x.finished.value > x.received.value {
        KeptSum(Interval(Max(x.received.value, from), Min(x.finished.value, to)), rest);
      } else {
        assert Iv(events, from, to) == rest;
      }
    }
  }

  function TimedRequests(events: seq<Event>, from: int, to: int): nat {
    |Iv(events, from, to)|
  }

  /** The timed requests are those that took any time at all, in the range or
      not. */
  lemma {:induction false} TimedRequestsAre(events: seq<Event>, x: Event, from: int, to: int)
    ensures TimedRequests([], from, to) == 0
    ensures TimedRequests([x] + events, from, to) == TimedRequests(events, from, to) +
            if exists t :: UnderWay(x, t) then 1 else 0
  {
    assert ([x] + events)[1..] == events;
    if x.received.Some? && x.finished.Some? && x.finished.value > x.received.value {
      assert UnderWay(x, x.received.value);
    }
  }
}
