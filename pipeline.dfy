/**
 * One analysis run: the required-column check, normalisation of the frame in
 * place, the `Age` column, and the six metrics.
 */
module Pipeline {
  import opened Wrappers
  import opened Dates
  import opened Records
  import opened Columns
  import opened Criteria
  import opened Aggregation
  import opened Report

  /**
   * Why a run ends without metrics: required columns are absent (the run
   * lists them and stops), or the sheet has no data rows, so the `Age` column
   * comes out as an empty date column and comparing it with 15 raises an
   * error that the run's exception handler reports.
   */
  datatype Failure = ColumnsMissing(columns: seq<string>) | AgeComparisonFailed

  /**
   * The outcome of one run on a sheet with columns `header`: the list of
   * missing required columns when there are any (and then no metric at all);
   * a failed age comparison on a sheet without data rows; otherwise the six
   * metrics over the normalised rows, each bounded by the number of rows,
   * with the `Age >= 15` count bounded by the rows that have a birth date.
   */
  function Analysis(header: seq<string>, sheet: seq<Row>, today: Date): (r: Result<Metrics, Failure>)
    ensures r.Err? && r.error.ColumnsMissing? <==> exists c :: c in RequiredColumns && c !in header
    ensures r.Err? && r.error.ColumnsMissing? ==>
      r.error.columns == MissingColumns(RequiredColumns, header) && r.error.columns != []
    ensures r == Err(AgeComparisonFailed) <==>
      (forall c :: c in RequiredColumns ==> c in header) && sheet == []
    ensures r.Ok? ==> r.value.age15Plus <= |Select(Normalised(sheet), HasBirthDate)| <= |sheet|
    ensures r.Ok? ==> r.value.khcnEkyc <= r.value.khcnPayment <= |sheet|
    ensures r.Ok? ==> r.value.khcnPayment + r.value.khtcPayment == |Select(Normalised(sheet), IsPaymentAccount)| <= |sheet|
    ensures r.Ok? ==> r.value.khcnCif <= |sheet| && r.value.khtcCif <= |sheet|
  {
    var missing := MissingColumns(RequiredColumns, header);
    if missing != [] then
      assert missing[0] in missing;
      Err(ColumnsMissing(missing))
    else if sheet == [] then
      Err(AgeComparisonFailed)
    else
      var rows := Normalised(sheet);
      Age15PlusNeedsBirthDate(rows, today);
      Ok(ComputeMetrics(rows, AgeColumn(rows, today)))
  }

  /**
   * The analysis as the program runs it: check the columns, copy the
   * required columns into a frame, overwrite the code and birthday columns
   * in place, add the `Age` column, then count.
   */
  method Run(header: seq<string>, sheet: seq<Row>, today: Date) returns (r: Result<Metrics, Failure>)
    ensures r == Analysis(header, sheet, today)
  {
    var missing := MissingColumns(RequiredColumns, header);
    if missing != [] {
      return Err(ColumnsMissing(missing));
    }
    var frame := new Frame(sheet);
    frame.StripCodes();
    frame.CoerceBirthdays();
    frame.AddAgeColumn(today);
    if frame.rows == [] {
      return Err(AgeComparisonFailed);
    }
    r := Ok(ComputeMetrics(frame.rows, frame.age));
  }

  /** Two rows of customer C1 (individual) and one of C2 (organisation): one KHCN customer, two KHCN rows. */
  lemma OneCustomerTwoAccounts()
    ensures var rows := [
        Row("421101", Some("C1"), "A", "100", Blank, "104"),
        Row("421101", Some("C1"), "A", "100", Blank, "200"),
        Row("421101", Some("C2"), "B", "200", Blank, "200")];
      CifCount(rows, IsKhcnCif) == 1 && |Select(rows, IsKhcnCif)| == 2
  {
    var rows := [
        Row("421101", Some("C1"), "A", "100", Blank, "104"),
        Row("421101", Some("C1"), "A", "100", Blank, "200"),
        Row("421101", Some("C2"), "B", "200", Blank, "200")];
    assert "200" != "100" by { assert "200"[0] != "100"[0]; }
    assert Select(rows, IsKhcnCif) == rows[..2];
    assert CustomerNos(rows[..2]) == [Some("C1"), Some("C1")];
    assert Distinct([Some("C1"), Some("C1")]) == {"C1"};
  }

  /** Birth dates 2009-06-15 and 2009-06-16 on 2024-06-15: 15 and 14 years. */
  lemma AgeExamples()
    ensures CalculateAge(Parsed(Date(2009, 6, 15)), Date(2024, 6, 15)) == Some(15)
    ensures CalculateAge(Parsed(Date(2009, 6, 16)), Date(2024, 6, 15)) == Some(14)
    ensures CalculateAge(Blank, Date(2024, 6, 15)) == None
  {
  }

  /**
   * Two individual payment accounts (one of them EKYC) and one organisation
   * row that is not a payment account.
   */
  function ScenarioRows(): seq<Row> {
    [ Row("421101", Some("C1"), "A", "100", Parsed(Date(2000, 1, 1)), "104"),
      Row("421101", Some("C2"), "B", "100", Parsed(Date(1990, 1, 1)), "200"),
      Row("999999", Some("C3"), "C", "200", Blank, "") ]
  }

  /** On 2024-06-15 the two dated rows are 24 and 34 years old; the undated row has no age. */
  lemma ScenarioAges()
    ensures |Select(AgeColumn(ScenarioRows(), Date(2024, 6, 15)), IsAge15Plus)| == 2
  {
    var ages := AgeColumn(ScenarioRows(), Date(2024, 6, 15));
    assert ages == [Some(24), Some(34), None];
    assert ages[1..] == [Some(34), None] && ages[1..][1..] == [None];
    assert Select(ages[1..][1..], IsAge15Plus) == [];
    assert Select(ages[1..], IsAge15Plus) == [Some(34)];
  }

  /** Two KHCN payment accounts, one of them EKYC, and no KHTC payment account. */
  lemma ScenarioPaymentCounts()
    ensures |Select(ScenarioRows(), IsKhcnPayment)| == 2
    ensures |Select(ScenarioRows(), IsKhcnEkyc)| == 1
    ensures |Select(ScenarioRows(), IsKhtcPayment)| == 0
  {
    var rows := ScenarioRows();
    assert "200" != "100" by { assert "200"[0] != "100"[0]; }
    assert "999999" != "421101" by { assert "999999"[0] != "421101"[0]; }
    assert "200" != "104" by { assert "200"[0] != "104"[0]; }
    assert rows[1..][1..] == [rows[2]];
    assert Select(rows[1..][1..], IsKhcnPayment) == [];
    assert Select(rows[1..][1..], IsKhcnEkyc) == [];
    assert Select(rows[1..][1..], IsKhtcPayment) == [];
  }

  /** Customers C1 and C2 are individuals, C3 an organisation. */
  lemma ScenarioCifCounts()
    ensures CifCount(ScenarioRows(), IsKhcnCif) == 2
    ensures CifCount(ScenarioRows(), IsKhtcCif) == 1
  {
    var rows := ScenarioRows();
    assert "200" != "100" by { assert "200"[0] != "100"[0]; }
    assert "C1" != "C2" by { assert "C1"[1] != "C2"[1]; }
    assert rows[1..][1..] == [rows[2]];
    assert Select(rows[1..][1..], IsKhcnCif) == [];
    assert Select(rows, IsKhcnCif) == rows[..2];
    assert Select(rows[1..][1..], IsKhtcCif) == [rows[2]];
    assert Select(rows, IsKhtcCif) == [rows[2]];
    assert CustomerNos(rows[..2]) == [Some("C1"), Some("C2")];
    assert Distinct([Some("C1"), Some("C2")]) == {"C1", "C2"};
    assert CustomerNos([rows[2]]) == [Some("C3")];
    assert Distinct([Some("C3")]) == {"C3"};
  }

  /** The scenario's six metrics on 2024-06-15. */
  lemma ThreeRecordScenario()
    ensures ComputeMetrics(ScenarioRows(), AgeColumn(ScenarioRows(), Date(2024, 6, 15)))
         == Metrics(2, 2, 1, 2, 1, 0)
  {
    ScenarioAges();
    ScenarioPaymentCounts();
    ScenarioCifCounts();
  }
}
