/**
 * The three-digit RFM code and `segment_customer` (rfm_dashboard.py:91-114):
 * an ordered table of exact codes, first match wins, "Others" otherwise.
 */
module Segments {

  datatype Segment = Champions | LoyalCustomers | PotentialLoyalist | NewCustomers | AtRisk | Others

  /** The label shown on the dashboard. */
  function Name(s: Segment): string {
    match s
    case Champions => "Champions"
    case LoyalCustomers => "Loyal Customers"
    case PotentialLoyalist => "Potential Loyalist"
    case NewCustomers => "New Customers"
    case AtRisk => "At Risk"
    case Others => "Others"
  }

  /** One `elif score in [...]` branch: the codes it lists and the segment it returns. */
  datatype Rule = Rule(codes: seq<string>, segment: Segment)

  /** The branches of `segment_customer`, in the order the script tries them. */
  const Rules: seq<Rule> := [
    Rule(["444", "443", "434", "433"], Champions),
    Rule(["344", "343", "334"], LoyalCustomers),
    Rule(["244", "243", "234"], PotentialLoyalist),
    Rule(["144", "143"], NewCustomers),
    Rule(["111", "112", "121"], AtRisk)
  ]

  /**
   * The segment of the first rule listing `code`; "Others" when none does.
   * Whatever it returns is "Others" or the segment of a rule that lists the code.
   */
  function FirstMatch(rules: seq<Rule>, code: string): (s: Segment)
    ensures s == Others || exists k :: 0 <= k < |rules| && code in rules[k].codes && s == rules[k].segment
  {
    if rules == [] then Others
    else if code in rules[0].codes then rules[0].segment
    else
      var s := FirstMatch(rules[1..], code);
      assert s != Others ==> exists k :: 0 <= k < |rules| && code in rules[k].codes && s == rules[k].segment by {
        if s != Others {
          var k :| 0 <= k < |rules[1..]| && code in rules[1..][k].codes && s == rules[1..][k].segment;
          assert rules[1..][k] == rules[k + 1];
        }
      }
      s
  }

  /**
   * The `if`/`elif` chain: a code gets the segment of the earliest rule listing
   * it, and "Others" when no rule lists it.
   */
  lemma {:induction false} FirstMatchFirstWins(rules: seq<Rule>, code: string, k: int)
    requires 0 <= k < |rules| && code in rules[k].codes
    requires forall j :: 0 <= j < k ==> code !in rules[j].codes
    ensures FirstMatch(rules, code) == rules[k].segment
  {
    if k > 0 {
      assert code !in rules[0].codes;
      forall j | 0 <= j < k - 1 ensures code !in rules[1..][j].codes {
        assert rules[1..][j] == rules[j + 1];
      }
      FirstMatchFirstWins(rules[1..], code, k - 1);
      assert rules[1..][k - 1] == rules[k];
    }
  }

  /** A code that no rule lists falls through to "Others". */
  lemma {:induction false} FirstMatchFallsThrough(rules: seq<Rule>, code: string)
    requires forall k :: 0 <= k < |rules| ==> code !in rules[k].codes
    ensures FirstMatch(rules, code) == Others
  {
    if rules != [] {
      assert code !in rules[0].codes;
      forall k | 0 <= k < |rules[1..]| ensures code !in rules[1..][k].codes {
        assert rules[1..][k] == rules[k + 1];
      }
      FirstMatchFallsThrough(rules[1..], code);
    }
  }

  /**
   * `segment_customer(score)`. The code lists do not overlap, so each listed
   * code gets the segment of its list, whichever order the branches are in.
   */
  function SegmentCustomer(code: string): (s: Segment)
    ensures forall k :: 0 <= k < |Rules| && code in Rules[k].codes ==> s == Rules[k].segment
    ensures (forall k :: 0 <= k < |Rules| ==> code !in Rules[k].codes) ==> s == Others
  {
    RulesDisjoint();
    FirstMatchIsUnique(Rules, code);
    FirstMatch(Rules, code)
  }

  /** No code is listed by two different rules. */
  predicate Disjoint(rules: seq<Rule>) {
    forall i, j, code :: 0 <= i < j < |rules| && code in rules[i].codes ==> code !in rules[j].codes
  }

  /**
   * With disjoint rules the order of the table does not matter: a listed
   * code gets the segment of the one rule listing it, any other code "Others".
   */
  lemma {:induction false} FirstMatchIsUnique(rules: seq<Rule>, code: string)
    requires Disjoint(rules)
    ensures forall k :: 0 <= k < |rules| && code in rules[k].codes ==> FirstMatch(rules, code) == rules[k].segment
    ensures (forall k :: 0 <= k < |rules| ==> code !in rules[k].codes) ==> FirstMatch(rules, code) == Others
  {
    if rules != [] {
      assert Disjoint(rules[1..]) by {
        forall i, j, c | 0 <= i < j < |rules[1..]| && c in rules[1..][i].codes
          ensures c !in rules[1..][j].codes
        {
          assert rules[1..][i] == rules[i + 1] && rules[1..][j] == rules[j + 1];
        }
      }
      FirstMatchIsUnique(rules[1..], code);
      forall k | 1 <= k < |rules| && code in rules[k].codes
        ensures FirstMatch(rules, code) == rules[k].segment
      {
        assert code !in rules[0].codes;
        assert rules[1..][k - 1] == rules[k];
      }
      if forall k :: 0 <= k < |rules| ==> code !in rules[k].codes {
        assert forall k :: 0 <= k < |rules[1..]| ==> code !in rules[1..][k].codes by {
          forall k | 0 <= k < |rules[1..]| ensures code !in rules[1..][k].codes {
            assert rules[1..][k] == rules[k + 1];
          }
        }
      }
    }
  }

  /** The five code lists of `segment_customer` are pairwise disjoint. */
  lemma {:induction false} RulesDisjoint()
    ensures Disjoint(Rules)
  {
  }

  /** The character of a single decimal digit. */
  function Digit(d: int): (c: char)
    requires 0 <= d <= 9
    ensures '0' <= c <= '9'
  {
    ('0' as int + d) as char
  }

  /** `R_Score.astype(str) + F_Score.astype(str) + M_Score.astype(str)` for one-digit scores. */
  function RfmCode(r: int, f: int, m: int): (code: string)
    requires 0 <= r <= 9 && 0 <= f <= 9 && 0 <= m <= 9
    ensures |code| == 3
    ensures forall k :: 0 <= k < 3 ==> '0' <= code[k] <= '9'
  {
    [Digit(r), Digit(f), Digit(m)]
  }

  /** Reads the three scores back from a code. */
  function ParseCode(code: string): (int, int, int)
    requires |code| == 3
  {
    (code[0] as int - '0' as int, code[1] as int - '0' as int, code[2] as int - '0' as int)
  }

  /** The code is R digit, then F digit, then M digit: it gives the three scores back. */
  lemma {:induction false} ParseRfmCode(r: int, f: int, m: int)
    requires 0 <= r <= 9 && 0 <= f <= 9 && 0 <= m <= 9
    ensures ParseCode(RfmCode(r, f, m)) == (r, f, m)
  {
  }

  /** The segment of a customer is a function of the three scores alone. */
  function SegmentOf(r: int, f: int, m: int): Segment
    requires 0 <= r <= 9 && 0 <= f <= 9 && 0 <= m <= 9
  {
    SegmentCustomer(RfmCode(r, f, m))
  }

  /**
   * The exact-code table written as conditions on the scores: Champions are
   * R=4 with F, M >= 3; Loyal Customers and Potential Loyalist are R=3 and
   * R=2 with F, M >= 3 but not both 3; New Customers are R=1, F=4, M >= 3;
   * At Risk is R=1 with F + M <= 3; everything else is Others.
   */
  function SegmentByScores(r: int, f: int, m: int): Segment {
    if r == 4 && f >= 3 && m >= 3 then Champions
    else if r == 3 && f >= 3 && m >= 3 && f + m >= 7 then LoyalCustomers
    else if r == 2 && f >= 3 && m >= 3 && f + m >= 7 then PotentialLoyalist
    else if r == 1 && f == 4 && m >= 3 then NewCustomers
    else if r == 1 && 1 <= f && 1 <= m && f + m <= 3 then AtRisk
    else Others
  }

  /** The codes starting with recency score 4 (Champions or Others). */
  lemma {:induction false} SegmentTableRecency4(f: int, m: int)
    requires 1 <= f <= 4 && 1 <= m <= 4
    ensures SegmentOf(4, f, m) == SegmentByScores(4, f, m)
  {
  }

  /** The codes starting with recency score 3 (Loyal Customers or Others). */
  lemma {:induction false} SegmentTableRecency3(f: int, m: int)
    requires 1 <= f <= 4 && 1 <= m <= 4
    ensures SegmentOf(3, f, m) == SegmentByScores(3, f, m)
  {
  }

  /** The codes starting with recency score 2 (Potential Loyalist or Others). */
  lemma {:induction false} SegmentTableRecency2(f: int, m: int)
    requires 1 <= f <= 4 && 1 <= m <= 4
    ensures SegmentOf(2, f, m) == SegmentByScores(2, f, m)
  {
  }

  /** The codes starting with recency score 1 (New Customers, At Risk or Others). */
  lemma {:induction false} SegmentTableRecency1(f: int, m: int)
    requires 1 <= f <= 4 && 1 <= m <= 4
    ensures SegmentOf(1, f, m) == SegmentByScores(1, f, m)
  {
  }

  /** Over all 64 score combinations the code table agrees with the score conditions. */
  lemma {:induction false} SegmentTableByScores(r: int, f: int, m: int)
    requires 1 <= r <= 4 && 1 <= f <= 4 && 1 <= m <= 4
    ensures SegmentOf(r, f, m) == SegmentByScores(r, f, m)
  {
    if r == 4 {
      SegmentTableRecency4(f, m);
    } else if r == 3 {
      SegmentTableRecency3(f, m);
    } else if r == 2 {
      SegmentTableRecency2(f, m);
    } else {
      SegmentTableRecency1(f, m);
    }
  }

  /** Different segments have different names, and no name is the filter's "All". */
  lemma {:induction false} NamesDistinct(a: Segment, b: Segment)
    ensures Name(a) == Name(b) ==> a == b
    ensures Name(a) != "All"
  {
  }
}
