/** The required-column check that runs before any metric is computed. */
module Columns {

  /** The six columns the sheet must have, in the order the check lists them. */
  const RequiredColumns: seq<string> :=
    ["Acctcd", "Customer_No", "Customer_Name", "Cust_TypeCode", "Birthday", "Cust_DetailTypeCode"]

  /** The check asks for six different columns, so each one can be reported missing on its own. */
  lemma RequiredColumnsDistinct()
    ensures |RequiredColumns| == 6
    ensures forall i, j :: 0 <= i < j < |RequiredColumns| ==> RequiredColumns[i] != RequiredColumns[j]
  {
    var r := RequiredColumns;
    assert |r[0]| == 6 && |r[1]| == 11 && |r[2]| == 13 && |r[3]| == 13 && |r[4]| == 8 && |r[5]| == 19;
    assert r[2][4] == 'o' && r[3][4] == '_';
  }

  /** `xs` is `ys` with some elements left out, the rest kept in order. */
  predicate IsSubsequence<T(==)>(xs: seq<T>, ys: seq<T>)
    decreases |ys|
  {
    if xs == [] then true
    else if ys == [] then false
    else if xs[0] == ys[0] then IsSubsequence(xs[1..], ys[1..])
    else IsSubsequence(xs, ys[1..])
  }

  /**
   * The required columns that are not among the sheet's columns: exactly
   * those, each as often as it is required, in required-list order.
   */
  function MissingColumns(required: seq<string>, present: seq<string>): (missing: seq<string>)
    ensures forall c :: c in missing <==> c in required && c !in present
    ensures IsSubsequence(missing, required)
  {
    if required == [] then []
    else if required[0] in present then MissingColumns(required[1..], present)
    else [required[0]] + MissingColumns(required[1..], present)
  }

  /** Nothing is missing exactly when every required column is present. */
  lemma NoneMissingIffAllPresent(present: seq<string>)
    ensures MissingColumns(RequiredColumns, present) == []
        <==> forall c :: c in RequiredColumns ==> c in present
  {
    var missing := MissingColumns(RequiredColumns, present);
    if missing != [] {
      assert missing[0] in missing;
    }
  }

  /** A sheet without `Birthday` and `Customer_No` is reported as missing both, in required order. */
  lemma TwoColumnsMissing()
    ensures MissingColumns(RequiredColumns, ["Acctcd", "Customer_Name", "Cust_TypeCode", "Cust_DetailTypeCode"])
         == ["Customer_No", "Birthday"]
  {
    var present := ["Acctcd", "Customer_Name", "Cust_TypeCode", "Cust_DetailTypeCode"];
    var r := RequiredColumns;
    assert |r[1]| == 11 && |r[4]| == 8;
    assert r[1] !in present && r[4] !in present;
    assert r[0] in present && r[2] in present && r[3] in present && r[5] in present;
    assert MissingColumns(r[5..], present) == [];
    assert MissingColumns(r[4..], present) == [r[4]];
    assert MissingColumns(r[2..], present) == [r[4]];
    assert MissingColumns(r[1..], present) == [r[1], r[4]];
  }
}
