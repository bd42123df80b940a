/**
 * Data preparation and the per-customer groupby (rfm_dashboard.py:65-76):
 * rows whose date does not parse are dropped, the snapshot is the latest
 * remaining date plus one day, and each customer gets Recency (days since
 * their latest purchase), Frequency (distinct invoices) and Monetary (sum).
 *
 * The functions here only compute; what they mean (which rows they keep,
 * which maximum they find, which keys they list) is stated by the lemmas
 * next to them, so that the facts are brought in only where a proof needs them.
 */
module Aggregation {
  import opened Wrappers

  /**
   * One row of the input table after renaming. Dates are day numbers;
   * `None` is a date that did not parse (NaT) or a missing customer (NaN).
   * Amounts are integers (e.g. cents) so that sums are exact.
   */
  datatype Transaction = Transaction(customer: Option<int>, date: Option<int>, invoice: string, amount: int)

  /** A row that survived `dropna(subset=["InvoiceDate"])`: its date is a plain day number. */
  datatype DatedRow = DatedRow(customer: Option<int>, day: int, invoice: string, amount: int)

  /** One row of the grouped table: `CustomerID, Recency, Frequency, Monetary`. */
  datatype CustomerRfm = CustomerRfm(customer: int, recency: int, frequency: nat, monetary: int)

  /** The input row a dated row came from. */
  function Source(d: DatedRow): Transaction {
    Transaction(d.customer, Some(d.day), d.invoice, d.amount)
  }

  /** `dropna(subset=["InvoiceDate"])`: the rows whose date parsed, in order. */
  function DropUndated(rows: seq<Transaction>): (dated: seq<DatedRow>)
    ensures |dated| <= |rows|
  {
    if rows == [] then []
    else
      var rest := DropUndated(rows[1..]);
      match rows[0].date
      case None => rest
      case Some(day) => [DatedRow(rows[0].customer, day, rows[0].invoice, rows[0].amount)] + rest
  }

  /** Exactly the rows with a parsed date are kept, each with that date. */
  lemma {:induction false} DropUndatedMembers(rows: seq<Transaction>)
    ensures forall d :: d in DropUndated(rows) ==> Source(d) in rows
    ensures forall t :: t in rows && t.date.Some? ==>
      DatedRow(t.customer, t.date.value, t.invoice, t.amount) in DropUndated(rows)
  {
    if rows != [] {
      DropUndatedMembers(rows[1..]);
      assert forall t :: t in rows <==> t == rows[0] || t in rows[1..];
    }
  }

  /** Each input row with a date is kept as often as it occurs, and nothing else is kept. */
  lemma {:induction false} DropUndatedCounts(rows: seq<Transaction>)
    ensures forall d :: multiset(DropUndated(rows))[d] == multiset(rows)[Source(d)]
  {
    if rows != [] {
      DropUndatedCounts(rows[1..]);
      assert rows == [rows[0]] + rows[1..];
    }
  }

  /** The latest day among non-empty dated rows (`.max()`). */
  function LatestDay(dated: seq<DatedRow>): int
    requires dated != []
  {
    if |dated| == 1 then dated[0].day
    else
      var rest := LatestDay(dated[1..]);
      if dated[0].day >= rest then dated[0].day else rest
  }

  /** `LatestDay` is an upper bound of the days that one of the rows attains. */
  lemma {:induction false} LatestDayIsMax(dated: seq<DatedRow>)
    requires dated != []
    ensures forall d :: d in dated ==> d.day <= LatestDay(dated)
    ensures exists d :: d in dated && d.day == LatestDay(dated)
  {
    if |dated| == 1 {
      assert dated[0] in dated;
    } else {
      LatestDayIsMax(dated[1..]);
      assert forall d :: d in dated <==> d == dated[0] || d in dated[1..];
      if dated[0].day < LatestDay(dated[1..]) {
        var d :| d in dated[1..] && d.day == LatestDay(dated[1..]);
        assert d in dated;
      } else {
        assert dated[0] in dated;
      }
    }
  }

  /** The snapshot date: the latest parsed date plus one day; none when no row has a date. */
  function SnapshotDate(rows: seq<Transaction>): Option<int> {
    var dated := DropUndated(rows);
    if dated == [] then None else Some(LatestDay(dated) + 1)
  }

  /**
   * There is a snapshot exactly when some date parsed; it is one day after
   * every parsed date and exactly one day after some parsed date.
   */
  lemma {:induction false} SnapshotDateSpec(rows: seq<Transaction>)
    ensures SnapshotDate(rows).None? <==> forall t :: t in rows ==> t.date.None?
    ensures SnapshotDate(rows).Some? ==>
      (forall t :: t in rows && t.date.Some? ==> t.date.value < SnapshotDate(rows).value) &&
      (exists t :: t in rows && t.date == Some(SnapshotDate(rows).value - 1))
  {
    var dated := DropUndated(rows);
    DropUndatedMembers(rows);
    if dated != [] {
      LatestDayIsMax(dated);
      var d :| d in dated && d.day == LatestDay(dated);
      assert Source(d) in rows;
      forall t | t in rows && t.date.Some? ensures t.date.value < SnapshotDate(rows).value {
        assert DatedRow(t.customer, t.date.value, t.invoice, t.amount) in dated;
      }
    }
  }

  predicate StrictlyIncreasing(s: seq<int>) {
    forall i, j :: 0 <= i < j < |s| ==> s[i] < s[j]
  }

  /** Insert `x` into a strictly increasing sequence, unless it is already there. */
  function InsertKey(s: seq<int>, x: int): (r: seq<int>)
    requires StrictlyIncreasing(s)
    ensures r != [] && (r[0] == x || (s != [] && r[0] == s[0]))
    ensures StrictlyIncreasing(r)
  {
    if s == [] then [x]
    else if x < s[0] then [x] + s
    else if x == s[0] then s
    else
      var rest := InsertKey(s[1..], x);
      assert s[0] < rest[0];
      assert forall k :: 0 <= k < |rest| ==> rest[0] <= rest[k];
      [s[0]] + rest
  }

  /** Inserting adds `x` and keeps every key already there. */
  lemma {:induction false} InsertKeyMembers(s: seq<int>, x: int)
    requires StrictlyIncreasing(s)
    ensures forall y :: y in InsertKey(s, x) <==> y in s || y == x
  {
    if s != [] && x > s[0] {
      InsertKeyMembers(s[1..], x);
      assert forall y :: y in s <==> y == s[0] || y in s[1..];
    }
  }

  /**
   * The group keys of `groupby("CustomerID")`: every customer that occurs,
   * once, in ascending order. Rows without a customer form no group.
   */
  function CustomerIds(dated: seq<DatedRow>): (ids: seq<int>)
    ensures StrictlyIncreasing(ids)
  {
    if dated == [] then []
    else
      var rest := CustomerIds(dated[1..]);
      match dated[0].customer
      case None => rest
      case Some(c) => InsertKey(rest, c)
  }

  /** The keys are exactly the customers that occur. */
  lemma {:induction false} CustomerIdsMembers(dated: seq<DatedRow>)
    ensures forall c :: c in CustomerIds(dated) <==>
      exists d :: d in dated && d.customer.Some? && d.customer.value == c
  {
    if dated != [] {
      CustomerIdsMembers(dated[1..]);
      assert forall d :: d in dated <==> d == dated[0] || d in dated[1..];
      if dated[0].customer.Some? {
        InsertKeyMembers(CustomerIds(dated[1..]), dated[0].customer.value);
      }
    }
  }

  /** The rows of one customer's group, in their original order. */
  function RowsOf(dated: seq<DatedRow>, c: int): (mine: seq<DatedRow>)
    ensures |mine| <= |dated|
  {
    if dated == [] then []
    else
      var rest := RowsOf(dated[1..], c);
      if dated[0].customer == Some(c) then [dated[0]] + rest else rest
  }

  /** A group holds exactly the rows of its customer. */
  lemma {:induction false} RowsOfMembers(dated: seq<DatedRow>, c: int)
    ensures forall d :: d in RowsOf(dated, c) <==> d in dated && d.customer == Some(c)
  {
    if dated != [] {
      RowsOfMembers(dated[1..], c);
      assert forall d :: d in dated <==> d == dated[0] || d in dated[1..];
    }
  }

  /** A group holds each row of its customer as often as the dated table does, and no other row. */
  lemma {:induction false} RowsOfCounts(dated: seq<DatedRow>, c: int)
    ensures forall d :: multiset(RowsOf(dated, c))[d] == if d.customer == Some(c) then multiset(dated)[d] else 0
  {
    if dated != [] {
      RowsOfCounts(dated[1..], c);
      assert dated == [dated[0]] + dated[1..];
    }
  }

  /** Every group key has at least one row. */
  lemma {:induction false} KeysHaveRows(dated: seq<DatedRow>)
    ensures forall k :: 0 <= k < |CustomerIds(dated)| ==> RowsOf(dated, CustomerIds(dated)[k]) != []
  {
    var ids := CustomerIds(dated);
    CustomerIdsMembers(dated);
    forall k | 0 <= k < |ids| ensures RowsOf(dated, ids[k]) != [] {
      assert ids[k] in ids;
      var d :| d in dated && d.customer.Some? && d.customer.value == ids[k];
      RowsOfMembers(dated, ids[k]);
      assert d in RowsOf(dated, ids[k]);
    }
  }

  /** The distinct invoice numbers among `mine` (`nunique`). */
  function Invoices(mine: seq<DatedRow>): set<string> {
    set d | d in mine :: d.invoice
  }

  /** Sum of the amounts of `mine`. */
  function SumAmounts(mine: seq<DatedRow>): int {
    if mine == [] then 0 else mine[0].amount + SumAmounts(mine[1..])
  }

  /** A group has at most as many distinct invoices as rows. */
  lemma {:induction false} InvoicesAtMostRows(mine: seq<DatedRow>)
    ensures |Invoices(mine)| <= |mine|
  {
    if mine != [] {
      InvoicesAtMostRows(mine[1..]);
      assert Invoices(mine) == {mine[0].invoice} + Invoices(mine[1..]) by {
        assert forall d :: d in mine <==> d == mine[0] || d in mine[1..];
      }
    }
  }

  /**
   * The aggregated row of customer `c`, whose rows are `mine`, at the given snapshot
   * date: Recency counts back from the snapshot to the customer's latest day, and
   * Frequency lies between one and the number of rows.
   */
  function Summarise(c: int, mine: seq<DatedRow>, snapshot: int): (row: CustomerRfm)
    requires mine != []
    ensures row.customer == c
    ensures 1 <= row.frequency <= |mine|
  {
    assert mine[0].invoice in Invoices(mine);
    InvoicesAtMostRows(mine);
    CustomerRfm(c, snapshot - LatestDay(mine), |Invoices(mine)|, SumAmounts(mine))
  }

  /** One summary row per key of `keys`, in key order. */
  function Summaries(dated: seq<DatedRow>, keys: seq<int>, snapshot: int): (table: seq<CustomerRfm>)
    requires forall k :: 0 <= k < |keys| ==> RowsOf(dated, keys[k]) != []
    ensures |table| == |keys|
  {
    if keys == [] then []
    else
      assert forall k :: 0 <= k < |keys[1..]| ==> keys[1..][k] == keys[k + 1];
      [Summarise(keys[0], RowsOf(dated, keys[0]), snapshot)] + Summaries(dated, keys[1..], snapshot)
  }

  /** Row `i` of `Summaries` summarises the `i`-th key. */
  lemma {:induction false} SummariesAt(dated: seq<DatedRow>, keys: seq<int>, snapshot: int, i: int)
    requires forall k :: 0 <= k < |keys| ==> RowsOf(dated, keys[k]) != []
    requires 0 <= i < |keys|
    ensures Summaries(dated, keys, snapshot)[i] == Summarise(keys[i], RowsOf(dated, keys[i]), snapshot)
  {
    if i > 0 {
      assert forall k :: 0 <= k < |keys[1..]| ==> keys[1..][k] == keys[k + 1];
      SummariesAt(dated, keys[1..], snapshot, i - 1);
    }
  }

  /** The grouped table: one row per customer with a dated transaction, ascending by customer. */
  function Aggregate(rows: seq<Transaction>): (table: seq<CustomerRfm>)
    ensures |table| == |CustomerIds(DropUndated(rows))|
  {
    var dated := DropUndated(rows);
    if dated == [] then []
    else
      KeysHaveRows(dated);
      Summaries(dated, CustomerIds(dated), LatestDay(dated) + 1)
  }

  /**
   * Row `i` of the grouped table belongs to the `i`-th customer key: its
   * Recency is the snapshot minus that customer's latest day, its Frequency
   * the number of their distinct invoices and its Monetary the sum of their
   * amounts, all over the customer's dated rows.
   */
  lemma {:induction false} AggregateAt(rows: seq<Transaction>, i: int)
    requires 0 <= i < |Aggregate(rows)|
    ensures DropUndated(rows) != []
    ensures var row := Aggregate(rows)[i]; var dated := DropUndated(rows);
      var c := CustomerIds(dated)[i]; var mine := RowsOf(dated, c);
      && mine != []
      && row.customer == c
      && row.recency == LatestDay(dated) + 1 - LatestDay(mine)
      && row.frequency == |Invoices(mine)|
      && row.monetary == SumAmounts(mine)
  {
    var dated := DropUndated(rows);
    assert dated != [];
    var keys, snapshot := CustomerIds(dated), LatestDay(dated) + 1;
    KeysHaveRows(dated);
    assert Aggregate(rows) == Summaries(dated, keys, snapshot);
    SummariesAt(dated, keys, snapshot, i);
  }

  /** The grouped table is in ascending customer order, one row per customer. */
  lemma {:induction false} AggregateAscending(rows: seq<Transaction>)
    ensures var table := Aggregate(rows);
      forall i, j :: 0 <= i < j < |table| ==> table[i].customer < table[j].customer
  {
    var table := Aggregate(rows);
    var ids := CustomerIds(DropUndated(rows));
    forall i | 0 <= i < |table| ensures table[i].customer == ids[i] {
      AggregateAt(rows, i);
    }
    assert StrictlyIncreasing(ids);
    forall i, j | 0 <= i < j < |table| ensures table[i].customer < table[j].customer {
      assert table[i].customer == ids[i] && table[j].customer == ids[j];
    }
  }

  /** The grouped table has a row exactly for each customer with a parseable date. */
  lemma {:induction false} AggregateCustomers(rows: seq<Transaction>)
    ensures var table := Aggregate(rows);
      forall i :: 0 <= i < |table| ==>
        exists t :: t in rows && t.date.Some? && t.customer == Some(table[i].customer)
    ensures var table := Aggregate(rows);
      forall t :: t in rows && t.date.Some? && t.customer.Some? ==>
        exists i :: 0 <= i < |table| && table[i].customer == t.customer.value
  {
    var table := Aggregate(rows);
    var dated := DropUndated(rows);
    var ids := CustomerIds(dated);
    DropUndatedMembers(rows);
    CustomerIdsMembers(dated);
    forall i | 0 <= i < |table|
      ensures exists t :: t in rows && t.date.Some? && t.customer == Some(table[i].customer)
    {
      AggregateAt(rows, i);
      assert ids[i] in ids;
      var d :| d in dated && d.customer.Some? && d.customer.value == ids[i];
      var t := Source(d);
      assert t in rows && t.date.Some? && t.customer == Some(table[i].customer);
    }
    forall t | t in rows && t.date.Some? && t.customer.Some?
      ensures exists i :: 0 <= i < |table| && table[i].customer == t.customer.value
    {
      var c := t.customer.value;
      assert DatedRow(t.customer, t.date.value, t.invoice, t.amount) in dated;
      assert c in ids;
      var i :| 0 <= i < |ids| && ids[i] == c;
      AggregateAt(rows, i);
    }
  }

  /**
   * Frequency counts the customer's distinct invoices, at least one, and
   * Monetary sums the customer's amounts, over the rows with a parseable date;
   * those rows are exactly the customer's dated rows.
   */
  lemma {:induction false} AggregateSums(rows: seq<Transaction>, i: int)
    requires 0 <= i < |Aggregate(rows)|
    ensures var row := Aggregate(rows)[i]; var mine := RowsOf(DropUndated(rows), row.customer);
      && (forall d :: d in mine <==> d in DropUndated(rows) && d.customer == Some(row.customer))
      && row.frequency == |Invoices(mine)| >= 1
      && row.monetary == SumAmounts(mine)
  {
    AggregateAt(rows, i);
    var row := Aggregate(rows)[i];
    var mine := RowsOf(DropUndated(rows), row.customer);
    RowsOfMembers(DropUndated(rows), row.customer);
    assert mine[0].invoice in Invoices(mine);
  }

  /**
   * Recency is the snapshot minus the customer's latest date: always at least
   * one day, and exactly one day for the customers who bought on the latest date.
   */
  lemma {:induction false} RecencyBounds(rows: seq<Transaction>, i: int)
    requires 0 <= i < |Aggregate(rows)|
    ensures SnapshotDate(rows).Some?
    ensures var row := Aggregate(rows)[i];
      && row.recency >= 1
      && (row.recency == 1 <==>
            exists t :: t in rows && t.customer == Some(row.customer)
                     && t.date == Some(SnapshotDate(rows).value - 1))
  {
    AggregateAt(rows, i);
    var dated := DropUndated(rows);
    var c := CustomerIds(dated)[i];
    var latest := LatestDay(dated);
    var mine := RowsOf(dated, c);
    // The customer's latest row is a dated row of theirs, so it is no later than the overall latest day.
    assert exists m :: m in mine && m.day == LatestDay(mine) by { LatestDayIsMax(mine); }
    var m :| m in mine && m.day == LatestDay(mine);
    assert m in dated && m.customer == Some(c) by { RowsOfMembers(dated, c); }
    assert m.day <= latest by { LatestDayIsMax(dated); }
    if LatestDay(mine) == latest {
      assert Source(m) in rows by { DropUndatedMembers(rows); }
    }
    if exists t :: t in rows && t.customer == Some(c) && t.date == Some(latest) {
      var t :| t in rows && t.customer == Some(c) && t.date == Some(latest);
      var d := DatedRow(t.customer, t.date.value, t.invoice, t.amount);
      assert d in dated by { DropUndatedMembers(rows); }
      assert d in mine by { RowsOfMembers(dated, c); }
      assert d.day <= LatestDay(mine) by { LatestDayIsMax(mine); }
    }
  }

  /** The amounts of customer `c`'s input rows that carry a date, summed over the input as given. */
  function CustomerTotal(rows: seq<Transaction>, c: int): int {
    if rows == [] then 0
    else
      (if rows[0].date.Some? && rows[0].customer == Some(c) then rows[0].amount else 0)
      + CustomerTotal(rows[1..], c)
  }

  /** The invoice numbers of customer `c`'s input rows that carry a date. */
  function CustomerInvoices(rows: seq<Transaction>, c: int): set<string> {
    set t | t in rows && t.date.Some? && t.customer == Some(c) :: t.invoice
  }

  /** Summing a customer's group after `dropna` counts every dated input row of theirs, repeats included. */
  lemma {:induction false} GroupSumIsCustomerTotal(rows: seq<Transaction>, c: int)
    ensures SumAmounts(RowsOf(DropUndated(rows), c)) == CustomerTotal(rows, c)
  {
    if rows != [] {
      GroupSumIsCustomerTotal(rows[1..], c);
      var rest := DropUndated(rows[1..]);
      match rows[0].date
      case None =>
        assert DropUndated(rows) == rest;
      case Some(day) =>
        var d := DatedRow(rows[0].customer, day, rows[0].invoice, rows[0].amount);
        assert DropUndated(rows) == [d] + rest;
        assert ([d] + rest)[1..] == rest;
        if d.customer == Some(c) {
          var mine := RowsOf(rest, c);
          assert RowsOf([d] + rest, c) == [d] + mine;
          assert ([d] + mine)[1..] == mine;
        } else {
          assert RowsOf([d] + rest, c) == RowsOf(rest, c);
        }
    }
  }

  /** A customer's distinct invoices after `dropna` are those of their dated input rows. */
  lemma {:induction false} GroupInvoicesAreCustomerInvoices(rows: seq<Transaction>, c: int)
    ensures Invoices(RowsOf(DropUndated(rows), c)) == CustomerInvoices(rows, c)
  {
    var dated := DropUndated(rows);
    var mine := RowsOf(dated, c);
    DropUndatedMembers(rows);
    RowsOfMembers(dated, c);
    forall x | x in Invoices(mine) ensures x in CustomerInvoices(rows, c) {
      var d :| d in mine && d.invoice == x;
      assert Source(d) in rows;
    }
    forall x | x in CustomerInvoices(rows, c) ensures x in Invoices(mine) {
      var t :| t in rows && t.date.Some? && t.customer == Some(c) && t.invoice == x;
      assert DatedRow(t.customer, t.date.value, t.invoice, t.amount) in mine;
    }
  }

  /**
   * Each aggregated row, stated against the input table alone: Frequency counts the
   * distinct invoices and Monetary sums the amounts of the customer's dated rows.
   */
  lemma {:induction false} AggregateFromInput(rows: seq<Transaction>, i: int)
    requires 0 <= i < |Aggregate(rows)|
    ensures var row := Aggregate(rows)[i];
      && row.frequency == |CustomerInvoices(rows, row.customer)|
      && row.monetary == CustomerTotal(rows, row.customer)
  {
    AggregateSums(rows, i);
    var c := Aggregate(rows)[i].customer;
    GroupSumIsCustomerTotal(rows, c);
    GroupInvoicesAreCustomerInvoices(rows, c);
  }
}
