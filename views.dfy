/**
 * Read-only views of the finished table: the sidebar segment filter
 * (rfm_dashboard.py:128-131), segment counts (169), segment revenue (187)
 * and the top customers by Monetary (220).
 */
module Views {
  import opened Seqs
  import opened Segments
  import opened Scoring

  /** The sidebar filter: "All" keeps the table, a segment name keeps that segment's rows. */
  function FilterBySegment(rows: seq<CustomerRow>, selected: string): (filtered: seq<CustomerRow>)
    ensures selected == "All" ==> filtered == rows
    ensures selected != "All" ==>
      && (forall x :: x in filtered <==> x in rows && Name(x.segment) == selected)
      && (forall x :: multiset(filtered)[x] == if Name(x.segment) == selected then multiset(rows)[x] else 0)
      && IsSubsequence(filtered, rows)
  {
    if selected == "All" then rows
    else
      FilterMultiset(rows, (x: CustomerRow) => Name(x.segment) == selected);
      Filter(rows, (x: CustomerRow) => Name(x.segment) == selected)
  }

  /** Selecting the name of a segment keeps exactly the rows of that segment, in order. */
  lemma {:induction false} FilterSelectsSegment(rows: seq<CustomerRow>, s: Segment)
    ensures var filtered := FilterBySegment(rows, Name(s));
      && (forall x :: x in filtered <==> x in rows && x.segment == s)
      && IsSubsequence(filtered, rows)
  {
    forall t: Segment ensures Name(t) == Name(s) <==> t == s {
      NamesDistinct(t, s);
    }
    NamesDistinct(s, s);
  }

  /** Number of rows in segment `s`. */
  function SegmentCount(rows: seq<CustomerRow>, s: Segment): nat {
    Count(rows, (x: CustomerRow) => x.segment == s)
  }

  /** The count of a segment is the length of the table the sidebar filter shows for it. */
  lemma {:induction false} SegmentCountIsFilterSize(rows: seq<CustomerRow>, s: Segment)
    ensures SegmentCount(rows, s) == |FilterBySegment(rows, Name(s))|
  {
    NamesDistinct(s, s);
    forall x: CustomerRow ensures (Name(x.segment) == Name(s)) == (x.segment == s) {
      NamesDistinct(x.segment, s);
    }
    CountAgrees(rows, (x: CustomerRow) => x.segment == s, (x: CustomerRow) => Name(x.segment) == Name(s));
  }

  /** Sum of Monetary over the rows in segment `s`. */
  function SegmentRevenue(rows: seq<CustomerRow>, s: Segment): int {
    if rows == [] then 0 else (if rows[0].segment == s then rows[0].monetary else 0) + SegmentRevenue(rows[1..], s)
  }

  /** Sum of Monetary over all rows. */
  function TotalRevenue(rows: seq<CustomerRow>): int {
    if rows == [] then 0 else rows[0].monetary + TotalRevenue(rows[1..])
  }

  /** `value_counts()` of the Segment column: one entry per segment that occurs, with its row count. */
  function SegmentCounts(rows: seq<CustomerRow>): (counts: map<Segment, nat>)
    ensures forall s :: s in counts <==> exists x :: x in rows && x.segment == s
    ensures forall s :: s in counts ==> counts[s] == SegmentCount(rows, s) && counts[s] >= 1
  {
    map s: Segment | (exists x :: x in rows && x.segment == s) :: SegmentCount(rows, s)
  }

  /** `groupby("Segment")["Monetary"].sum()`: one entry per segment that occurs, with its revenue. */
  function SegmentRevenues(rows: seq<CustomerRow>): (revenue: map<Segment, int>)
    ensures forall s :: s in revenue <==> exists x :: x in rows && x.segment == s
    ensures forall s :: s in revenue ==> revenue[s] == SegmentRevenue(rows, s)
  {
    map s: Segment | (exists x :: x in rows && x.segment == s) :: SegmentRevenue(rows, s)
  }

  /** The six segment counts add up to the number of rows: every row is in exactly one segment. */
  lemma {:induction false} CountsPartitionRows(rows: seq<CustomerRow>)
    ensures SegmentCount(rows, Champions) + SegmentCount(rows, LoyalCustomers)
          + SegmentCount(rows, PotentialLoyalist) + SegmentCount(rows, NewCustomers)
          + SegmentCount(rows, AtRisk) + SegmentCount(rows, Others) == |rows|
  {
    if rows != [] {
      CountsPartitionRows(rows[1..]);
    }
  }

  /** The six segment revenues add up to the total revenue. */
  lemma {:induction false} RevenuePartitionsTotal(rows: seq<CustomerRow>)
    ensures SegmentRevenue(rows, Champions) + SegmentRevenue(rows, LoyalCustomers)
          + SegmentRevenue(rows, PotentialLoyalist) + SegmentRevenue(rows, NewCustomers)
          + SegmentRevenue(rows, AtRisk) + SegmentRevenue(rows, Others) == TotalRevenue(rows)
  {
    if rows != [] {
      RevenuePartitionsTotal(rows[1..]);
    }
  }

  predicate SortedByMonetaryDesc(rows: seq<CustomerRow>) {
    forall i, j :: 0 <= i < j < |rows| ==> rows[i].monetary >= rows[j].monetary
  }

  /** Insert `x` before the first row whose Monetary is not larger. */
  function InsertByMonetary(sorted: seq<CustomerRow>, x: CustomerRow): (r: seq<CustomerRow>)
    ensures |r| == |sorted| + 1
  {
    if sorted == [] || x.monetary >= sorted[0].monetary then [x] + sorted
    else [sorted[0]] + InsertByMonetary(sorted[1..], x)
  }

  /** Inserting into a Monetary-descending sequence keeps it descending; the head is `x` or the old head. */
  lemma {:induction false} InsertByMonetarySorted(sorted: seq<CustomerRow>, x: CustomerRow)
    requires SortedByMonetaryDesc(sorted)
    ensures var r := InsertByMonetary(sorted, x);
      SortedByMonetaryDesc(r) && (r[0] == x || (sorted != [] && r[0] == sorted[0]))
  {
    if sorted != [] && x.monetary < sorted[0].monetary {
      InsertByMonetarySorted(sorted[1..], x);
      var rest := InsertByMonetary(sorted[1..], x);
      assert sorted[0].monetary >= rest[0].monetary;
      assert forall k :: 0 <= k < |rest| ==> rest[0].monetary >= rest[k].monetary;
    }
  }

  /** Inserting adds exactly one occurrence of `x`. */
  lemma {:induction false} InsertByMonetaryPermutes(sorted: seq<CustomerRow>, x: CustomerRow)
    ensures multiset(InsertByMonetary(sorted, x)) == multiset(sorted) + multiset{x}
  {
    if sorted != [] && x.monetary < sorted[0].monetary {
      InsertByMonetaryPermutes(sorted[1..], x);
      assert sorted == [sorted[0]] + sorted[1..];
    }
  }

  /** `sort_values("Monetary", ascending=False)`; the order among equal Monetary values is not fixed. */
  function SortByMonetaryDesc(rows: seq<CustomerRow>): (sorted: seq<CustomerRow>)
    ensures |sorted| == |rows|
  {
    if rows == [] then [] else InsertByMonetary(SortByMonetaryDesc(rows[1..]), rows[0])
  }

  /** The sorted table is a Monetary-descending permutation of the table. */
  lemma {:induction false} SortByMonetaryDescSpec(rows: seq<CustomerRow>)
    ensures SortedByMonetaryDesc(SortByMonetaryDesc(rows))
    ensures multiset(SortByMonetaryDesc(rows)) == multiset(rows)
  {
    if rows != [] {
      SortByMonetaryDescSpec(rows[1..]);
      InsertByMonetarySorted(SortByMonetaryDesc(rows[1..]), rows[0]);
      InsertByMonetaryPermutes(SortByMonetaryDesc(rows[1..]), rows[0]);
      assert rows == [rows[0]] + rows[1..];
    }
  }

  /** How many customers the top view shows. */
  const TopCount: nat := 10

  /**
   * `sort_values("Monetary", ascending=False).head(n)`: min(n, |rows|) rows of
   * the table, highest Monetary first, and no row left out has a higher
   * Monetary than any row shown.
   */
  function TopCustomers(rows: seq<CustomerRow>, n: nat): (top: seq<CustomerRow>)
    ensures |top| == if n < |rows| then n else |rows|
    ensures SortedByMonetaryDesc(top)
    ensures multiset(top) <= multiset(rows)
    ensures forall x, y :: x in top && y in multiset(rows) - multiset(top) ==> y.monetary <= x.monetary
  {
    var sorted := SortByMonetaryDesc(rows);
    var k := if n < |rows| then n else |rows|;
    SortByMonetaryDescSpec(rows);
    PrefixOfSortedIsTop(sorted, rows, k);
    sorted[..k]
  }

  /** The three views of the dashboard that depend on the sidebar selection. */
  datatype Dashboard = Dashboard(counts: map<Segment, nat>, revenue: map<Segment, int>, top: seq<CustomerRow>)

  /** The top view of the filtered table shows only rows of the selected segment. */
  lemma {:induction false} TopOfFilteredIsSelected(rfm: seq<CustomerRow>, selected: string)
    ensures var top := TopCustomers(FilterBySegment(rfm, selected), TopCount);
      forall x :: x in top ==> x in rfm && (selected == "All" || Name(x.segment) == selected)
  {
    var filtered := FilterBySegment(rfm, selected);
    var top := TopCustomers(filtered, TopCount);
    forall x | x in top ensures x in filtered {
      assert x in multiset(top);
    }
  }

  /** Counting the filtered table finds the selected segment only, with its count in the whole table. */
  lemma {:induction false} CountsOfFilteredAreSelected(rfm: seq<CustomerRow>, selected: string)
    ensures var counts := SegmentCounts(FilterBySegment(rfm, selected));
      && (forall s :: s in counts ==> selected == "All" || Name(s) == selected)
      && (forall s :: s in counts && Name(s) == selected ==> counts[s] == SegmentCount(rfm, s))
  {
    var filtered := FilterBySegment(rfm, selected);
    var counts := SegmentCounts(filtered);
    forall s | s in counts && Name(s) == selected ensures counts[s] == SegmentCount(rfm, s) {
      NamesDistinct(s, s);
      forall x | x in filtered ensures x.segment == s {
        NamesDistinct(x.segment, s);
      }
      CountAll(filtered, (x: CustomerRow) => x.segment == s);
      SegmentCountIsFilterSize(rfm, s);
    }
  }

  /**
   * The views as the dashboard wires them: the segment counts and the top
   * customers are taken from the filtered table, the revenue split from the
   * whole table. So the top view shows at most `TopCount` customers, all of the
   * selected segment; a selected segment is the only one counted, with its full
   * count; and the revenue split does not depend on the selection.
   */
  function DashboardViews(rfm: seq<CustomerRow>, selected: string): (d: Dashboard)
    ensures |d.top| <= TopCount
    ensures forall x :: x in d.top ==> x in rfm && (selected == "All" || Name(x.segment) == selected)
    ensures forall s :: s in d.counts ==> selected == "All" || Name(s) == selected
    ensures forall s :: s in d.counts && Name(s) == selected ==> d.counts[s] == SegmentCount(rfm, s)
    ensures selected == "All" ==> d.counts == SegmentCounts(rfm)
    ensures d.revenue == SegmentRevenues(rfm)
  {
    var filtered := FilterBySegment(rfm, selected);
    TopOfFilteredIsSelected(rfm, selected);
    CountsOfFilteredAreSelected(rfm, selected);
    Dashboard(SegmentCounts(filtered), SegmentRevenues(rfm), TopCustomers(filtered, TopCount))
  }

  /** A prefix of a Monetary-descending permutation of `rows` holds the largest values of `rows`. */
  lemma {:induction false} PrefixOfSortedIsTop(sorted: seq<CustomerRow>, rows: seq<CustomerRow>, k: nat)
    requires SortedByMonetaryDesc(sorted) && multiset(sorted) == multiset(rows) && k <= |rows|
    ensures |sorted| == |rows|
    ensures multiset(sorted[..k]) <= multiset(rows)
    ensures forall x, y :: x in sorted[..k] && y in multiset(rows) - multiset(sorted[..k]) ==> y.monetary <= x.monetary
  {
    assert |sorted| == |multiset(sorted)| == |rows|;
    var top, rest := sorted[..k], sorted[k..];
    assert sorted == top + rest;
    assert multiset(rows) == multiset(top) + multiset(rest);
    forall x, y | x in top && y in multiset(rows) - multiset(top) ensures y.monetary <= x.monetary {
      assert y in multiset(rest);
      var a :| 0 <= a < k && top[a] == x;
      var b :| 0 <= b < |rest| && rest[b] == y;
      assert sorted[a] == x && sorted[k + b] == y;
    }
  }
}
