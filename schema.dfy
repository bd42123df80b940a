/**
 * Column-name normalisation and the required-column check that runs before
 * any aggregation (rfm_dashboard.py:43-60).
 */
module Schema {
  import opened Seqs

  /** The characters Python's `str.strip()` removes (those for which `str.isspace()` holds). */
  predicate IsSpace(c: char) {
    var n := c as int;
    (0x09 <= n <= 0x0D) || (0x1C <= n <= 0x20) || n == 0x85 || n == 0xA0 || n == 0x1680
    || (0x2000 <= n <= 0x200A) || n == 0x2028 || n == 0x2029 || n == 0x202F
    || n == 0x205F || n == 0x3000
  }

  /** The first index at or after `i` that does not hold whitespace (`|s|` when there is none). */
  function SkipSpaces(s: string, i: int): (n: int)
    requires 0 <= i <= |s|
    ensures i <= n <= |s|
    ensures forall k | i <= k < n :: IsSpace(s[k])
    ensures n == |s| || !IsSpace(s[n])
    decreases |s| - i
  {
    if i < |s| && IsSpace(s[i]) then SkipSpaces(s, i + 1) else i
  }

  /** The end of `s[lo..j]` once its trailing whitespace is dropped. */
  function DropTrailingSpaces(s: string, lo: int, j: int): (e: int)
    requires 0 <= lo <= j <= |s|
    ensures lo <= e <= j
    ensures forall k | e <= k < j :: IsSpace(s[k])
    ensures e == lo || !IsSpace(s[e - 1])
    decreases j
  {
    if lo < j && IsSpace(s[j - 1]) then DropTrailingSpaces(s, lo, j - 1) else j
  }

  /** `str.strip()`: whitespace removed from both ends, nothing else touched. */
  function Strip(s: string): (r: string)
    ensures exists i, j ::
      && 0 <= i <= j <= |s| && r == s[i..j]
      && (forall k | 0 <= k < i :: IsSpace(s[k]))
      && (forall k | j <= k < |s| :: IsSpace(s[k]))
    ensures r == [] || (!IsSpace(r[0]) && !IsSpace(r[|r| - 1]))
  {
    var i := SkipSpaces(s, 0);
    var j := DropTrailingSpaces(s, i, |s|);
    assert i < j ==> !IsSpace(s[i]);
    s[i..j]
  }

  /** Stripping twice is stripping once. */
  lemma {:induction false} StripIdempotent(s: string)
    ensures Strip(Strip(s)) == Strip(s)
  {
    var r := Strip(s);
    assert SkipSpaces(r, 0) == 0;
    assert DropTrailingSpaces(r, 0, |r|) == |r|;
  }

  /** The superstore-style header names and the canonical names they are renamed to. */
  const ColumnMapping: map<string, string> := map[
    "Customer ID" := "CustomerID",
    "Order Date" := "InvoiceDate",
    "Order ID" := "InvoiceNo",
    "Sales" := "Monetary"
  ]

  /** The columns the engine needs, in the order the error message lists them. */
  const RequiredColumns: seq<string> := ["CustomerID", "InvoiceDate", "InvoiceNo", "Monetary"]

  /** `DataFrame.rename(columns=...)` on one name: mapped names change, others stay. */
  function Rename(name: string): (r: string)
    ensures name !in ColumnMapping ==> r == name
    ensures r != name ==> name in ColumnMapping && r in RequiredColumns
  {
    if name in ColumnMapping then ColumnMapping[name] else name
  }

  /**
   * Header after `df.columns.str.strip()` followed by the rename: one name per
   * column, in place; each is the stripped name, or a required name for an alias.
   */
  function NormaliseColumns(columns: seq<string>): (names: seq<string>)
    ensures |names| == |columns|
    ensures forall i :: 0 <= i < |columns| ==>
      names[i] == Strip(columns[i]) || (Strip(columns[i]) in ColumnMapping && names[i] in RequiredColumns)
  {
    seq(|columns|, i requires 0 <= i < |columns| => Rename(Strip(columns[i])))
  }

  /** `[col for col in required_columns if col not in df.columns]` for a header `present`. */
  function MissingRequired(present: seq<string>): (missing: seq<string>)
    ensures forall name :: name in missing <==> name in RequiredColumns && name !in present
    ensures IsSubsequence(missing, RequiredColumns)
  {
    Filter(RequiredColumns, name => name !in present)
  }

  /** The required names absent from the normalised header, in the order of RequiredColumns. */
  function MissingColumns(columns: seq<string>): (missing: seq<string>)
    ensures forall name :: name in missing <==>
      name in RequiredColumns && name !in NormaliseColumns(columns)
    ensures IsSubsequence(missing, RequiredColumns)
  {
    MissingRequired(NormaliseColumns(columns))
  }

  /** The raw header names that satisfy the requirement for `name`: itself, or its superstore alias. */
  function AcceptedNames(name: string): set<string> {
    {name} + set alias | alias in ColumnMapping && ColumnMapping[alias] == name
  }

  /** Renaming yields a required name exactly when the stripped raw name is one of its accepted names. */
  lemma {:induction false} RenameReachesRequired(raw: string, name: string)
    requires name in RequiredColumns
    ensures Rename(raw) == name <==> raw in AcceptedNames(name)
  {
    assert forall n | n in RequiredColumns :: n !in ColumnMapping;
  }

  /** Position `i` of the normalised header is the renamed, stripped raw name at `i`. */
  lemma {:induction false} NormalisedAt(columns: seq<string>, i: int)
    requires 0 <= i < |columns|
    ensures |NormaliseColumns(columns)| == |columns|
    ensures NormaliseColumns(columns)[i] == Rename(Strip(columns[i]))
  {
  }

  /** The normalised header holds a required name exactly when some stripped raw name is accepted for it. */
  lemma {:induction false} NormalisedHolds(columns: seq<string>, name: string)
    requires name in RequiredColumns
    ensures name in NormaliseColumns(columns) <==>
      exists i :: 0 <= i < |columns| && Strip(columns[i]) in AcceptedNames(name)
  {
    var present := NormaliseColumns(columns);
    if name in present {
      var i :| 0 <= i < |present| && present[i] == name;
      NormalisedAt(columns, i);
      RenameReachesRequired(Strip(columns[i]), name);
    }
    if exists i :: 0 <= i < |columns| && Strip(columns[i]) in AcceptedNames(name) {
      var i :| 0 <= i < |columns| && Strip(columns[i]) in AcceptedNames(name);
      RenameReachesRequired(Strip(columns[i]), name);
      NormalisedAt(columns, i);
    }
  }

  /**
   * A required column counts as present exactly when some raw header name,
   * once stripped, is the canonical name or its superstore alias.
   */
  lemma {:induction false} RequiredColumnPresent(columns: seq<string>, name: string)
    requires name in RequiredColumns
    ensures name !in MissingColumns(columns) <==>
      exists i :: 0 <= i < |columns| && Strip(columns[i]) in AcceptedNames(name)
  {
    NormalisedHolds(columns, name);
  }
}
