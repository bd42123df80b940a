/**
 * The script's computation from the loaded table to the segmented RFM table
 * (rfm_dashboard.py:43-114), with the missing-column stop as an error result.
 */
module Engine {
  import opened Wrappers
  import opened Seqs
  import opened Schema
  import opened Aggregation
  import opened Quantiles
  import opened Segments
  import opened Scoring

  /** The loaded table: its header as read, and its rows with the canonical columns parsed. */
  datatype RawTable = RawTable(columns: seq<string>, rows: seq<Transaction>)

  /** Why a run stops before aggregating: the required columns it could not find. */
  datatype SchemaError = MissingColumnsError(missing: seq<string>)

  /** The whole computation as one function of the loaded table. */
  function ComputeRfm(raw: RawTable): (result: Result<seq<CustomerRow>, SchemaError>)
    ensures result.Err? <==> MissingColumns(raw.columns) != []
    ensures result.Err? ==> result.error == MissingColumnsError(MissingColumns(raw.columns))
    ensures result.Ok? ==>
      && |result.value| == |Aggregate(raw.rows)|
      && forall i :: 0 <= i < |result.value| ==> Scored(result.value[i], Aggregate(raw.rows)[i])
  {
    var missing := MissingColumns(raw.columns);
    if missing != [] then Err(MissingColumnsError(missing))
    else Ok(ScoreTable(Aggregate(raw.rows)))
  }

  /**
   * The script's steps in order: strip and rename the header, stop if a
   * required column is missing, group, add the three score columns, then the
   * code and the segment.
   */
  method RunEngine(raw: RawTable) returns (result: Result<seq<CustomerRow>, SchemaError>)
    ensures result == ComputeRfm(raw)
  {
    var columns := seq(|raw.columns|, i requires 0 <= i < |raw.columns| => Strip(raw.columns[i]));
    columns := seq(|columns|, i requires 0 <= i < |columns| => Rename(columns[i]));
    var missing := MissingRequired(columns);
    assert columns == NormaliseColumns(raw.columns);
    if missing != [] {
      return Err(MissingColumnsError(missing));
    }
    var rfm := Aggregate(raw.rows);
    var rScores := RScores(rfm);
    var fScores := FScores(rfm);
    var mScores := MScores(rfm);
    var table := AddScoreColumns(rfm, rScores, fScores, mScores);
    return Ok(table);
  }

  /** With every required column present the run succeeds, and its rows follow the grouped table's customers. */
  lemma {:induction false} RunFollowsAggregate(raw: RawTable)
    requires MissingColumns(raw.columns) == []
    ensures ComputeRfm(raw).Ok?
    ensures var t := ComputeRfm(raw).value; var agg := Aggregate(raw.rows);
      |t| == |agg| && forall i :: 0 <= i < |t| ==> t[i].customer == agg[i].customer
  {
  }

  /** With every required column present the run succeeds and lists its customers in ascending order, each once. */
  lemma {:induction false} RunCustomersAscending(raw: RawTable)
    requires MissingColumns(raw.columns) == []
    ensures ComputeRfm(raw).Ok?
    ensures var t := ComputeRfm(raw).value;
      forall i, j :: 0 <= i < j < |t| ==> t[i].customer < t[j].customer
  {
    RunFollowsAggregate(raw);
    AggregateAscending(raw.rows);
  }

  /** Every customer of the scored table has a dated input row. */
  lemma {:induction false} ScoredCustomersAreDated(rows: seq<Transaction>)
    ensures var t := ScoreTable(Aggregate(rows));
      forall i :: 0 <= i < |t| ==>
        exists x :: x in rows && x.date.Some? && x.customer == Some(t[i].customer)
  {
    var agg := Aggregate(rows);
    var t := ScoreTable(agg);
    AggregateCustomers(rows);
    forall i | 0 <= i < |t|
      ensures exists x :: x in rows && x.date.Some? && x.customer == Some(t[i].customer)
    {
      assert Scored(t[i], agg[i]);
      var x :| x in rows && x.date.Some? && x.customer == Some(agg[i].customer);
    }
  }

  /** Every customer with a dated input row has a row in the scored table. */
  lemma {:induction false} ScoredListsDatedCustomers(rows: seq<Transaction>)
    ensures var t := ScoreTable(Aggregate(rows));
      forall x :: x in rows && x.date.Some? && x.customer.Some? ==>
        exists i :: 0 <= i < |t| && t[i].customer == x.customer.value
  {
    var agg := Aggregate(rows);
    var t := ScoreTable(agg);
    AggregateCustomers(rows);
    forall x | x in rows && x.date.Some? && x.customer.Some?
      ensures exists i :: 0 <= i < |t| && t[i].customer == x.customer.value
    {
      var i :| 0 <= i < |agg| && agg[i].customer == x.customer.value;
      assert Scored(t[i], agg[i]);
    }
  }

  /** With every required column present the run succeeds, with a row exactly for each customer with a parseable date. */
  lemma {:induction false} RunCustomersPresent(raw: RawTable)
    requires MissingColumns(raw.columns) == []
    ensures ComputeRfm(raw).Ok?
    ensures var t := ComputeRfm(raw).value;
      forall i :: 0 <= i < |t| ==>
        exists x :: x in raw.rows && x.date.Some? && x.customer == Some(t[i].customer)
    ensures var t := ComputeRfm(raw).value;
      forall x :: x in raw.rows && x.date.Some? && x.customer.Some? ==>
        exists i :: 0 <= i < |t| && t[i].customer == x.customer.value
  {
    assert ComputeRfm(raw) == Ok(ScoreTable(Aggregate(raw.rows)));
    ScoredCustomersAreDated(raw.rows);
    ScoredListsDatedCustomers(raw.rows);
  }

  /**
   * With every required column present, every row of the run has Recency and Frequency at least 1,
   * scores between 1 and 4, and the segment given by the scores alone.
   */
  lemma {:induction false} RunRow(raw: RawTable, i: int)
    requires MissingColumns(raw.columns) == [] && 0 <= i < |Aggregate(raw.rows)|
    ensures ComputeRfm(raw).Ok? && |ComputeRfm(raw).value| == |Aggregate(raw.rows)|
    ensures var row := ComputeRfm(raw).value[i];
      && row.recency >= 1 && row.frequency >= 1
      && 1 <= row.rScore <= 4 && 1 <= row.fScore <= 4 && 1 <= row.mScore <= 4
      && row.segment == SegmentByScores(row.rScore, row.fScore, row.mScore)
  {
    var agg := Aggregate(raw.rows);
    var row := ComputeRfm(raw).value[i];
    assert Scored(row, agg[i]);
    RecencyBounds(raw.rows, i);
    AggregateSums(raw.rows, i);
    assert row.frequency == agg[i].frequency >= 1;
    assert row.rScore == RScores(agg)[i] && row.fScore == FScores(agg)[i] && row.mScore == MScores(agg)[i];
    SegmentTableByScores(row.rScore, row.fScore, row.mScore);
  }
}
