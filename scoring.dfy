/**
 * Score assignment on the grouped table (rfm_dashboard.py:87-95, 114):
 * R from Recency with labels 4..1, F from the first-rank of Frequency and
 * M from Monetary with labels 1..4, then the code and the segment.
 */
module Scoring {
  import opened Aggregation
  import opened Quantiles
  import opened Segments

  /** One row of the finished RFM table. */
  datatype CustomerRow = CustomerRow(
    customer: int, recency: int, frequency: nat, monetary: int,
    rScore: int, fScore: int, mScore: int, rfmScore: string, segment: Segment)

  /** Labels for R: a smaller Recency (a more recent customer) gets the higher score. */
  const RecencyLabels: seq<int> := [4, 3, 2, 1]

  /** Labels for F and M: a larger value gets the higher score. */
  const ValueLabels: seq<int> := [1, 2, 3, 4]

  function Recencies(table: seq<CustomerRfm>): (v: seq<int>)
    ensures |v| == |table| && forall i :: 0 <= i < |table| ==> v[i] == table[i].recency
  {
    seq(|table|, i requires 0 <= i < |table| => table[i].recency)
  }

  function Frequencies(table: seq<CustomerRfm>): (v: seq<int>)
    ensures |v| == |table| && forall i :: 0 <= i < |table| ==> v[i] == table[i].frequency
  {
    seq(|table|, i requires 0 <= i < |table| => table[i].frequency as int)
  }

  function Monetaries(table: seq<CustomerRfm>): (v: seq<int>)
    ensures |v| == |table| && forall i :: 0 <= i < |table| ==> v[i] == table[i].monetary
  {
    seq(|table|, i requires 0 <= i < |table| => table[i].monetary)
  }

  /**
   * The three score columns, each produced by `safe_qcut`: one score between 1
   * and 4 per customer, and the first label for everyone when qcut raises.
   */
  function RScores(table: seq<CustomerRfm>): (scores: seq<int>)
    ensures |scores| == |table| && InScoreRange(scores)
    ensures QCut(Recencies(table), RecencyLabels).None? ==> forall i :: 0 <= i < |scores| ==> scores[i] == 4
  {
    assert forall x :: x in RecencyLabels ==> 1 <= x <= 4;
    SafeQCut(Recencies(table), RecencyLabels)
  }

  function FScores(table: seq<CustomerRfm>): (scores: seq<int>)
    ensures |scores| == |table| && InScoreRange(scores)
    ensures QCut(RankFirst(Frequencies(table)), ValueLabels).None? ==> forall i :: 0 <= i < |scores| ==> scores[i] == 1
  {
    assert forall x :: x in ValueLabels ==> 1 <= x <= 4;
    SafeQCut(RankFirst(Frequencies(table)), ValueLabels)
  }

  function MScores(table: seq<CustomerRfm>): (scores: seq<int>)
    ensures |scores| == |table| && InScoreRange(scores)
    ensures QCut(Monetaries(table), ValueLabels).None? ==> forall i :: 0 <= i < |scores| ==> scores[i] == 1
  {
    assert forall x :: x in ValueLabels ==> 1 <= x <= 4;
    SafeQCut(Monetaries(table), ValueLabels)
  }

  /** The scored row of one customer: grouped values kept, scores, code and segment added. */
  predicate Scored(row: CustomerRow, agg: CustomerRfm) {
    && row.customer == agg.customer
    && row.recency == agg.recency
    && row.frequency == agg.frequency
    && row.monetary == agg.monetary
    && 1 <= row.rScore <= 4 && 1 <= row.fScore <= 4 && 1 <= row.mScore <= 4
    && row.rfmScore == RfmCode(row.rScore, row.fScore, row.mScore)
    && row.segment == SegmentOf(row.rScore, row.fScore, row.mScore)
  }

  function ScoreRow(agg: CustomerRfm, r: int, f: int, m: int): (row: CustomerRow)
    requires 1 <= r <= 4 && 1 <= f <= 4 && 1 <= m <= 4
    ensures Scored(row, agg) && row.rScore == r && row.fScore == f && row.mScore == m
  {
    var code := RfmCode(r, f, m);
    CustomerRow(agg.customer, agg.recency, agg.frequency, agg.monetary, r, f, m, code, SegmentCustomer(code))
  }

  predicate InScoreRange(scores: seq<int>) {
    forall i :: 0 <= i < |scores| ==> 1 <= scores[i] <= 4
  }

  /** Adds the three score columns to the grouped table, then the code and the segment columns. */
  function AddScoreColumns(table: seq<CustomerRfm>, rs: seq<int>, fs: seq<int>, ms: seq<int>): (rows: seq<CustomerRow>)
    requires |rs| == |fs| == |ms| == |table|
    requires InScoreRange(rs) && InScoreRange(fs) && InScoreRange(ms)
    ensures |rows| == |table|
    ensures forall i :: 0 <= i < |table| ==> Scored(rows[i], table[i])
    ensures forall i :: 0 <= i < |table| ==>
      rows[i].rScore == rs[i] && rows[i].fScore == fs[i] && rows[i].mScore == ms[i]
  {
    seq(|table|, i requires 0 <= i < |table| => ScoreRow(table[i], rs[i], fs[i], ms[i]))
  }

  /** The scored table: one scored row per grouped row, in the same order. */
  function ScoreTable(table: seq<CustomerRfm>): (rows: seq<CustomerRow>)
    ensures |rows| == |table|
    ensures forall i :: 0 <= i < |table| ==> Scored(rows[i], table[i])
    ensures forall i :: 0 <= i < |table| ==>
      rows[i].rScore == RScores(table)[i] && rows[i].fScore == FScores(table)[i] && rows[i].mScore == MScores(table)[i]
  {
    AddScoreColumns(table, RScores(table), FScores(table), MScores(table))
  }

  /** R is antitone in Recency: a more recent customer never gets a lower R score. */
  lemma {:induction false} RecencyScoreMonotone(table: seq<CustomerRfm>, i: int, j: int)
    requires 0 <= i < |table| && 0 <= j < |table| && table[i].recency <= table[j].recency
    ensures ScoreTable(table)[i].rScore >= ScoreTable(table)[j].rScore
  {
    assert forall a, b :: 0 <= a < b < 4 ==> RecencyLabels[a] >= RecencyLabels[b];
    SafeQCutMonotone(Recencies(table), RecencyLabels, i, j);
  }

  /** M is monotone in Monetary: a larger total never gets a lower M score. */
  lemma {:induction false} MonetaryScoreMonotone(table: seq<CustomerRfm>, i: int, j: int)
    requires 0 <= i < |table| && 0 <= j < |table| && table[i].monetary <= table[j].monetary
    ensures ScoreTable(table)[i].mScore <= ScoreTable(table)[j].mScore
  {
    assert SortedAsc(ValueLabels);
    SafeQCutMonotone(Monetaries(table), ValueLabels, i, j);
  }

  /**
   * F is monotone in the first-rank of Frequency: a larger Frequency, or the
   * same Frequency further down the table, never gets a lower F score.
   */
  lemma {:induction false} FrequencyScoreMonotone(table: seq<CustomerRfm>, i: int, j: int)
    requires 0 <= i < |table| && 0 <= j < |table|
    requires table[i].frequency < table[j].frequency || (table[i].frequency == table[j].frequency && i <= j)
    ensures ScoreTable(table)[i].fScore <= ScoreTable(table)[j].fScore
  {
    var freqs := Frequencies(table);
    var ranks := RankFirst(freqs);
    RankFirstOrders(freqs);
    if i != j {
      assert RankedBefore(freqs, i, j);
    }
    assert SortedAsc(ValueLabels);
    SafeQCutMonotone(ranks, ValueLabels, i, j);
  }

  /** Two customers with the same three scores always get the same code and segment. */
  lemma {:induction false} SegmentFollowsScores(table: seq<CustomerRfm>, i: int, j: int)
    requires 0 <= i < |table| && 0 <= j < |table|
    ensures var rows := ScoreTable(table);
      (rows[i].rScore, rows[i].fScore, rows[i].mScore) == (rows[j].rScore, rows[j].fScore, rows[j].mScore)
      <==> rows[i].rfmScore == rows[j].rfmScore
    ensures var rows := ScoreTable(table);
      rows[i].segment == SegmentByScores(rows[i].rScore, rows[i].fScore, rows[i].mScore)
  {
    var rows := ScoreTable(table);
    ParseRfmCode(rows[i].rScore, rows[i].fScore, rows[i].mScore);
    ParseRfmCode(rows[j].rScore, rows[j].fScore, rows[j].mScore);
    SegmentTableByScores(rows[i].rScore, rows[i].fScore, rows[i].mScore);
  }

  /** With two or more customers, F binning never falls back, whatever the Frequencies are. */
  lemma {:induction false} FrequencyBinningSucceeds(table: seq<CustomerRfm>)
    requires |table| >= 2
    ensures QCut(RankFirst(Frequencies(table)), ValueLabels).Some?
  {
    RankedBinningSucceeds(Frequencies(table), ValueLabels);
  }

  /** A single customer makes every column fall back: R=4, F=1, M=1, code "411", segment "Others". */
  lemma {:induction false} SingleCustomerFallback(table: seq<CustomerRfm>)
    requires |table| == 1
    ensures var row := ScoreTable(table)[0];
      row.rScore == 4 && row.fScore == 1 && row.mScore == 1 && row.rfmScore == "411" && row.segment == Others
  {
    QCutConstantFails(Recencies(table), RecencyLabels);
    QCutConstantFails(Monetaries(table), ValueLabels);
    QCutConstantFails(RankFirst(Frequencies(table)), ValueLabels);
    var row := ScoreTable(table)[0];
    assert RScores(table)[0] == 4 && FScores(table)[0] == 1 && MScores(table)[0] == 1;
    assert row.rfmScore == RfmCode(4, 1, 1) == "411";
    SegmentTableByScores(4, 1, 1);
  }

  // The extreme rows of a column are the extreme entries of the column.
  lemma {:induction false} RecencyColumnExtremes(table: seq<CustomerRfm>, i: int)
    requires 0 <= i < |table|
    ensures var v := Recencies(table);
      (forall j :: 0 <= j < |table| ==> table[i].recency <= table[j].recency) ==> forall j :: 0 <= j < |v| ==> v[i] <= v[j]
    ensures var v := Recencies(table);
      (forall j :: 0 <= j < |table| ==> table[j].recency <= table[i].recency) ==> forall j :: 0 <= j < |v| ==> v[j] <= v[i]
  {
  }

  lemma {:induction false} MonetaryColumnExtremes(table: seq<CustomerRfm>, i: int)
    requires 0 <= i < |table|
    ensures var v := Monetaries(table);
      (forall j :: 0 <= j < |table| ==> table[i].monetary <= table[j].monetary) ==> forall j :: 0 <= j < |v| ==> v[i] <= v[j]
    ensures var v := Monetaries(table);
      (forall j :: 0 <= j < |table| ==> table[j].monetary <= table[i].monetary) ==> forall j :: 0 <= j < |v| ==> v[j] <= v[i]
  {
  }

  /**
   * When the R column is binned, the most recent customers score 4 and the
   * least recent score 1.
   */
  lemma {:induction false} RecencyScoreExtremes(table: seq<CustomerRfm>, i: int)
    requires 0 <= i < |table| && QCut(Recencies(table), RecencyLabels).Some?
    ensures (forall j :: 0 <= j < |table| ==> table[i].recency <= table[j].recency) ==> ScoreTable(table)[i].rScore == 4
    ensures (forall j :: 0 <= j < |table| ==> table[j].recency <= table[i].recency) ==> ScoreTable(table)[i].rScore == 1
  {
    QCutExtremes(Recencies(table), RecencyLabels, i);
    RecencyColumnExtremes(table, i);
    assert ScoreTable(table)[i].rScore == RScores(table)[i] == QCut(Recencies(table), RecencyLabels).value[i];
  }

  /** When the M column is binned, the largest Monetary scores 4 and the smallest 1. */
  lemma {:induction false} MonetaryScoreExtremes(table: seq<CustomerRfm>, i: int)
    requires 0 <= i < |table| && QCut(Monetaries(table), ValueLabels).Some?
    ensures (forall j :: 0 <= j < |table| ==> table[i].monetary <= table[j].monetary) ==> ScoreTable(table)[i].mScore == 1
    ensures (forall j :: 0 <= j < |table| ==> table[j].monetary <= table[i].monetary) ==> ScoreTable(table)[i].mScore == 4
  {
    QCutExtremes(Monetaries(table), ValueLabels, i);
    MonetaryColumnExtremes(table, i);
    assert ScoreTable(table)[i].mScore == MScores(table)[i] == QCut(Monetaries(table), ValueLabels).value[i];
  }
}
