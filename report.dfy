/** The six metrics and the fixed-order result table. */
module Report {
  import opened Wrappers
  import opened Records
  import opened Criteria
  import opened Aggregation

  /** The six counts of one analysis run. */
  datatype Metrics = Metrics(
    age15Plus: nat,
    khcnPayment: nat,
    khcnEkyc: nat,
    khcnCif: nat,
    khtcCif: nat,
    khtcPayment: nat)

  /**
   * The six counts over the normalised frame and its `Age` column. Every
   * count is bounded by the frame's size, the EKYC count by the KHCN payment
   * count, the two payment counts partition the payment accounts, and each
   * CIF count is bounded by the number of its segment's rows.
   */
  function ComputeMetrics(rows: seq<Row>, age: seq<Option<int>>): (m: Metrics)
    requires |age| == |rows|
    ensures m.age15Plus <= |rows|
    ensures m.khcnPayment <= |rows| && m.khcnEkyc <= |rows| && m.khtcPayment <= |rows|
    ensures m.khcnCif <= |rows| && m.khtcCif <= |rows|
    ensures m.khcnEkyc <= m.khcnPayment
    ensures m.khcnPayment + m.khtcPayment == |Select(rows, IsPaymentAccount)|
    ensures m.khcnCif <= |Select(rows, IsKhcnCif)| && m.khtcCif <= |Select(rows, IsKhtcCif)|
  {
    SelectMonotone(rows, IsKhcnEkyc, IsKhcnPayment);
    SelectPartition(rows, IsPaymentAccount, IsKhcnPayment, IsKhtcPayment);
    CifCountBound(rows, IsKhcnCif);
    CifCountBound(rows, IsKhtcCif);
    Metrics(
      age15Plus := |Select(age, IsAge15Plus)|,
      khcnPayment := |Select(rows, IsKhcnPayment)|,
      khcnEkyc := |Select(rows, IsKhcnEkyc)|,
      khcnCif := CifCount(rows, IsKhcnCif),
      khtcCif := CifCount(rows, IsKhtcCif),
      khtcPayment := |Select(rows, IsKhtcPayment)|)
  }

  const LabelAge15Plus: string := "1. Khách hàng độ tuổi từ 15 trở lên (Bản ghi)"
  const LabelKhcnPayment: string := "2. Tài khoản thanh toán của KHCN (Acctcd=421101 & Type=100)"
  const LabelKhcnEkyc: string := "2.1. Tài khoản EKYC (thuộc mục 2)"
  const LabelKhcnCif: string := "3. Hồ sơ CIF KHCN (Cust_TypeCode = 100) - UNIQUE"
  const LabelKhtcCif: string := "4. Hồ sơ CIF KHTC (Cust_TypeCode ≠ 100) - UNIQUE"
  const LabelKhtcPayment: string := "5. Tài khoản thanh toán của KHTC (Acctcd=421101 & Type ≠ 100)"

  /** The labels of the result table, in display order. */
  const Labels: seq<string> :=
    [LabelAge15Plus, LabelKhcnPayment, LabelKhcnEkyc, LabelKhcnCif, LabelKhtcCif, LabelKhtcPayment]

  /** The result table: one (label, value) pair per metric, in the fixed display order. */
  function ReportRows(m: Metrics): (t: seq<(string, nat)>)
    ensures |t| == 6 && forall i :: 0 <= i < 6 ==> t[i].0 == Labels[i]
  {
    [ (LabelAge15Plus, m.age15Plus),
      (LabelKhcnPayment, m.khcnPayment),
      (LabelKhcnEkyc, m.khcnEkyc),
      (LabelKhcnCif, m.khcnCif),
      (LabelKhtcCif, m.khtcCif),
      (LabelKhtcPayment, m.khtcPayment) ]
  }

  /** Reads the six metrics back from a table with exactly the six labels in display order. */
  function ReadReport(table: seq<(string, nat)>): (m: Option<Metrics>)
    ensures m.Some? ==> |table| == 6 && forall i :: 0 <= i < 6 ==> table[i].0 == Labels[i]
  {
    if |table| == 6 && forall i :: 0 <= i < 6 ==> table[i].0 == Labels[i] then
      Some(Metrics(table[0].1, table[1].1, table[2].1, table[3].1, table[4].1, table[5].1))
    else
      None
  }

  /** The value shown under `key`: that of the first row carrying it. */
  function Lookup(table: seq<(string, nat)>, key: string): (v: Option<nat>)
    ensures v.Some? <==> exists i :: 0 <= i < |table| && table[i].0 == key
    ensures v.Some? ==> exists i :: 0 <= i < |table| && table[i] == (key, v.value)
                                    && (forall j :: 0 <= j < i ==> table[j].0 != key)
  {
    if table == [] then None
    else if table[0].0 == key then Some(table[0].1)
    else Lookup(table[1..], key)
  }

  /**
   * Reading the table back gives the metrics it was built from: no metric is
   * lost, duplicated or moved to another label.
   */
  lemma ReportRoundTrip(m: Metrics)
    ensures ReadReport(ReportRows(m)) == Some(m)
  {
  }

  /** The six labels are pairwise different, so each metric can be found by its label. */
  lemma LabelsDistinct()
    ensures forall i, j :: 0 <= i < j < 6 ==> Labels[i] != Labels[j]
  {
    assert |LabelAge15Plus| == 45 && |LabelKhcnPayment| == 59 && |LabelKhcnEkyc| == 33;
    assert |LabelKhcnCif| == 48 && |LabelKhtcCif| == 48 && |LabelKhtcPayment| == 61;
    assert LabelKhcnCif[33] == '=' && LabelKhtcCif[33] != '=';
  }

  /** In a table whose labels are pairwise different, looking up a row's label finds that row's value. */
  lemma {:induction false} LookupFindsRow(table: seq<(string, nat)>, i: nat)
    requires i < |table|
    requires forall j, k :: 0 <= j < k < |table| ==> table[j].0 != table[k].0
    ensures Lookup(table, table[i].0) == Some(table[i].1)
  {
    if i > 0 {
      assert table[0].0 != table[i].0;
      assert table[1..][i - 1] == table[i];
      LookupFindsRow(table[1..], i - 1);
    }
  }

  /** Looking a label up in the table finds its metric. */
  lemma LookupByLabel(m: Metrics)
    ensures Lookup(ReportRows(m), LabelAge15Plus) == Some(m.age15Plus)
    ensures Lookup(ReportRows(m), LabelKhcnPayment) == Some(m.khcnPayment)
    ensures Lookup(ReportRows(m), LabelKhcnEkyc) == Some(m.khcnEkyc)
    ensures Lookup(ReportRows(m), LabelKhcnCif) == Some(m.khcnCif)
    ensures Lookup(ReportRows(m), LabelKhtcCif) == Some(m.khtcCif)
    ensures Lookup(ReportRows(m), LabelKhtcPayment) == Some(m.khtcPayment)
  {
    LabelsDistinct();
    var t := ReportRows(m);
    assert forall i :: 0 <= i < 6 ==> t[i].0 == Labels[i];
    LookupFindsRow(t, 0);
    LookupFindsRow(t, 1);
    LookupFindsRow(t, 2);
    LookupFindsRow(t, 3);
    LookupFindsRow(t, 4);
    LookupFindsRow(t, 5);
  }
}
