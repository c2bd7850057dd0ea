/** The row criteria (boolean masks) the metrics are built from. */
module Criteria {
  import opened Wrappers
  import opened Records

  const PaymentAccountCode: string := "421101"
  const IndividualTypeCode: string := "100"
  const EkycDetailCode: string := "104"
  const MinimumAge: int := 15

  /** A payment account (TKTT), whatever the customer segment. */
  predicate IsPaymentAccount(r: Row) {
    r.acctcd == PaymentAccountCode
  }

  /** Any row of an individual customer, for the KHCN CIF count. */
  predicate IsKhcnCif(r: Row) {
    r.custTypeCode == IndividualTypeCode
  }

  /** Any row of an organisation customer (KHTC), for the KHTC CIF count: every row is in exactly one segment. */
  predicate IsKhtcCif(r: Row)
    ensures IsKhtcCif(r) <==> !IsKhcnCif(r)
  {
    r.custTypeCode != IndividualTypeCode
  }

  /** Payment account of an individual customer (KHCN). */
  predicate IsKhcnPayment(r: Row)
    ensures IsKhcnPayment(r) <==> IsPaymentAccount(r) && IsKhcnCif(r)
  {
    r.acctcd == PaymentAccountCode && r.custTypeCode == IndividualTypeCode
  }

  /** Sub-item of the above: the customer was identified electronically (EKYC). */
  predicate IsKhcnEkyc(r: Row)
    ensures IsKhcnEkyc(r) ==> IsKhcnPayment(r)
  {
    IsKhcnPayment(r) && r.custDetailTypeCode == EkycDetailCode
  }

  /** Payment account of an organisation customer: the payment accounts that are not KHCN ones. */
  predicate IsKhtcPayment(r: Row)
    ensures IsKhtcPayment(r) <==> IsPaymentAccount(r) && !IsKhcnPayment(r)
    ensures IsKhtcPayment(r) ==> IsKhtcCif(r)
  {
    r.acctcd == PaymentAccountCode && r.custTypeCode != IndividualTypeCode
  }

  /** `Age >= 15` on one cell of the `Age` column; a missing age never qualifies. */
  predicate IsAge15Plus(a: Option<int>)
    ensures a.None? ==> !IsAge15Plus(a)
    ensures a.Some? ==> (IsAge15Plus(a) <==> a.value >= MinimumAge)
  {
    a.Some? && a.value >= MinimumAge
  }

  /** A row whose `Birthday` is a date, the only rows that get an age. */
  predicate HasBirthDate(r: Row) {
    r.birthday.Parsed?
  }

  /** A row whose `Customer_No` is not empty. */
  predicate HasCustomerNo(r: Row) {
    r.customerNo.Some?
  }
}
