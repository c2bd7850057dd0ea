/** Row selection by a mask, row counts and distinct-customer counts. */
module Aggregation {
  import opened Wrappers
  import opened Records
  import opened Criteria
  import opened Columns

  /**
   * `df[mask]`: the elements the mask keeps, in their original order
   * (`SelectKeepsEveryCopy` adds that each kept value occurs as often as in `xs`).
   */
  function Select<T(==,!new)>(xs: seq<T>, p: T -> bool): (ys: seq<T>)
    ensures |ys| <= |xs|
    ensures IsSubsequence(ys, xs)
    ensures forall i :: 0 <= i < |ys| ==> ys[i] in xs && p(ys[i])
    ensures forall i :: 0 <= i < |xs| && p(xs[i]) ==> xs[i] in ys
  {
    if xs == [] then []
    else
      var rest := Select(xs[1..], p);
      assert xs == [xs[0]] + xs[1..];
      if p(xs[0]) then
        var ys := [xs[0]] + rest;
        assert ys[1..] == rest;
        ys
      else
        rest
  }

  /**
   * `df[mask]` neither merges nor duplicates rows: a value the mask keeps
   * occurs in the selection exactly as often as in the frame.
   */
  lemma {:induction false} SelectKeepsEveryCopy<T(!new)>(xs: seq<T>, p: T -> bool, x: T)
    requires p(x)
    ensures multiset(Select(xs, p))[x] == multiset(xs)[x]
  {
    if xs != [] {
      SelectKeepsEveryCopy(xs[1..], p, x);
      assert xs == [xs[0]] + xs[1..];
      if p(xs[0]) {
        assert Select(xs, p) == [xs[0]] + Select(xs[1..], p);
      }
    }
  }

  /** The `Customer_No` column of a frame. */
  function CustomerNos(rows: seq<Row>): (col: seq<Option<string>>)
    ensures |col| == |rows|
    ensures forall i :: 0 <= i < |rows| ==> col[i] == rows[i].customerNo
  {
    if rows == [] then [] else [rows[0].customerNo] + CustomerNos(rows[1..])
  }

  /** The distinct non-missing values of a column, what `nunique()` counts. */
  function Distinct(col: seq<Option<string>>): (s: set<string>)
    ensures forall v :: v in s <==> Some(v) in col
    ensures |s| <= |col|
  {
    if col == [] then {}
    else (if col[0].Some? then {col[0].value} else {}) + Distinct(col[1..])
  }

  /** `nunique()` of a column: missing cells are not a value. */
  function NUnique(col: seq<Option<string>>): (n: nat)
    ensures n <= |col|
    ensures n == 0 <==> forall i :: 0 <= i < |col| ==> col[i].None?
  {
    var s := Distinct(col);
    if s != {} then
      var v :| v in s;
      assert Some(v) in col;
      |s|
    else
      |s|
  }

  /**
   * Number of distinct customers among the rows the mask keeps, never more
   * than those rows (`CustomerNoSelected` says which customers it counts).
   */
  function CifCount(rows: seq<Row>, p: Row -> bool): (c: nat)
    ensures c <= |Select(rows, p)|
  {
    NUnique(CustomerNos(Select(rows, p)))
  }

  /** Strengthening the mask never selects more rows (a conjoined criterion cannot raise a count). */
  lemma {:induction false} SelectMonotone<T(!new)>(xs: seq<T>, p: T -> bool, q: T -> bool)
    requires forall i :: 0 <= i < |xs| ==> p(xs[i]) ==> q(xs[i])
    ensures |Select(xs, p)| <= |Select(xs, q)|
  {
    if xs != [] {
      SelectMonotone(xs[1..], p, q);
    }
  }

  /** Two disjoint masks that together make up `p` split the rows `p` selects. */
  lemma {:induction false} SelectPartition<T(!new)>(xs: seq<T>, p: T -> bool, a: T -> bool, b: T -> bool)
    requires forall i :: 0 <= i < |xs| ==> (p(xs[i]) <==> a(xs[i]) || b(xs[i]))
    requires forall i :: 0 <= i < |xs| ==> !(a(xs[i]) && b(xs[i]))
    ensures |Select(xs, p)| == |Select(xs, a)| + |Select(xs, b)|
  {
    if xs != [] {
      SelectPartition(xs[1..], p, a, b);
    }
  }

  /** Every row counts once per customer at most; rows without a customer number count not at all. */
  lemma {:induction false} DistinctCustomersBound(rows: seq<Row>)
    ensures NUnique(CustomerNos(rows)) <= |Select(rows, HasCustomerNo)| <= |rows|
  {
    if rows != [] {
      DistinctCustomersBound(rows[1..]);
      var col := CustomerNos(rows);
      assert col[1..] == CustomerNos(rows[1..]);
      var rest := Distinct(col[1..]);
      if col[0].Some? {
        assert Distinct(col) == {col[0].value} + rest;
        assert |{col[0].value} + rest| <= |rest| + 1;
      } else {
        assert Distinct(col) == rest;
      }
    }
  }

  /**
   * A CIF count is at most the number of matching rows that carry a customer
   * number, hence at most the number of matching rows.
   */
  lemma CifCountBound(rows: seq<Row>, p: Row -> bool)
    ensures CifCount(rows, p) <= |Select(Select(rows, p), HasCustomerNo)| <= |Select(rows, p)|
  {
    DistinctCustomersBound(Select(rows, p));
  }

  /** A customer number is in the CIF set exactly when some matching row carries it. */
  lemma CustomerNoSelected(rows: seq<Row>, p: Row -> bool, v: string)
    ensures v in Distinct(CustomerNos(Select(rows, p)))
        <==> exists r :: r in rows && p(r) && r.customerNo == Some(v)
  {
    var ys := Select(rows, p);
    var col := CustomerNos(ys);
    if v in Distinct(col) {
      var i :| 0 <= i < |col| && col[i] == Some(v);
      assert ys[i] in ys;
    }
    if exists r :: r in rows && p(r) && r.customerNo == Some(v) {
      var r :| r in rows && p(r) && r.customerNo == Some(v);
      var i :| 0 <= i < |ys| && ys[i] == r;
      assert col[i] == Some(v);
    }
  }

  /** Two frames that hold the same rows with a customer number have the same CIF set under any mask. */
  lemma SameCustomers(xs: seq<Row>, ys: seq<Row>, p: Row -> bool)
    requires forall x: Row :: x.customerNo.Some? ==> (x in xs <==> x in ys)
    ensures Distinct(CustomerNos(Select(xs, p))) == Distinct(CustomerNos(Select(ys, p)))
  {
    var d1 := Distinct(CustomerNos(Select(xs, p)));
    var d2 := Distinct(CustomerNos(Select(ys, p)));
    forall v ensures v in d1 <==> v in d2 {
      CustomerNoSelected(xs, p, v);
      CustomerNoSelected(ys, p, v);
    }
  }

  /** Inserting a row without a customer number anywhere leaves every CIF count unchanged. */
  lemma MissingCustomerAddsNothing(before: seq<Row>, r: Row, after: seq<Row>, p: Row -> bool)
    requires r.customerNo.None?
    ensures CifCount(before + [r] + after, p) == CifCount(before + after, p)
  {
    var with := before + [r] + after;
    var without := before + after;
    forall x: Row | x.customerNo.Some? ensures x in with <==> x in without {
      assert x in with <==> x in before || x == r || x in after;
    }
    SameCustomers(with, without, p);
  }

  /** Rows without a birth date get no age, so the `Age >= 15` count never includes them. */
  lemma {:induction false} Age15PlusNeedsBirthDate(rows: seq<Row>, today: Dates.Date)
    ensures |Select(AgeColumn(rows, today), IsAge15Plus)| <= |Select(rows, HasBirthDate)|
  {
    if rows != [] {
      Age15PlusNeedsBirthDate(rows[1..], today);
      var ages := AgeColumn(rows, today);
      assert ages[1..] == AgeColumn(rows[1..], today);
    }
  }
}
