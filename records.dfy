/**
 * The six required columns of one sheet row, their normalisation, and the
 * filtered data frame whose columns the analysis overwrites in place.
 */
module Records {
  import opened Wrappers
  import opened Dates
  import opened Text

  /**
   * A `Birthday` cell: empty (NaN/NaT), a value the date parser reads as
   * (year, month, day), or a value it cannot read as a date at all.
   */
  datatype BirthdayCell = Blank | Parsed(date: Date) | Unparseable(text: string)

  /**
   * One row of the frame restricted to the required columns. The code columns
   * hold the cell's text; `customerNo` is None for an empty cell.
   */
  datatype Row = Row(
    acctcd: string,
    customerNo: Option<string>,
    customerName: string,
    custTypeCode: string,
    birthday: BirthdayCell,
    custDetailTypeCode: string)

  /**
   * Date coercion with errors='coerce': a cell that names a real calendar
   * date is kept, everything else becomes NaT.
   */
  function CoerceBirthday(b: BirthdayCell): (c: BirthdayCell)
    ensures c.Blank? || c.Parsed?
    ensures c.Parsed? <==> b.Parsed? && IsValid(b.date)
    ensures c.Parsed? ==> c == b
  {
    if b.Parsed? && IsValid(b.date) then b else Blank
  }

  /**
   * `calculate_age`: no age for an empty cell or for a value that is not a
   * date; otherwise the age of the date on `today`.
   */
  function CalculateAge(born: BirthdayCell, today: Date): (a: Option<int>)
    ensures a.Some? <==> born.Parsed?
    ensures a.Some? ==> a.value == Age(today, born.date)
  {
    match born
    case Blank => None
    case Unparseable(_) => None
    case Parsed(d) => Some(Age(today, d))
  }

  /** Trims the three code columns of one row; the other columns are left alone. */
  function StripRowCodes(r: Row): (n: Row)
    ensures n.customerNo == r.customerNo && n.customerName == r.customerName
    ensures n.birthday == r.birthday
    ensures n.acctcd == Strip(r.acctcd) && n.custTypeCode == Strip(r.custTypeCode)
    ensures n.custDetailTypeCode == Strip(r.custDetailTypeCode)
    ensures Bare(n.acctcd) && Bare(n.custTypeCode) && Bare(n.custDetailTypeCode)
  {
    r.(acctcd := Strip(r.acctcd),
       custTypeCode := Strip(r.custTypeCode),
       custDetailTypeCode := Strip(r.custDetailTypeCode))
  }

  /** Coerces the `Birthday` cell of one row; the other columns are left alone. */
  function CoerceRowBirthday(r: Row): (n: Row)
    ensures n.(birthday := r.birthday) == r
    ensures n.birthday == CoerceBirthday(r.birthday)
    ensures n.birthday.Blank? || (n.birthday.Parsed? && IsValid(n.birthday.date))
  {
    r.(birthday := CoerceBirthday(r.birthday))
  }

  /** The frame after the three code columns have been overwritten with their trimmed text. */
  function StrippedCodes(rows: seq<Row>): (out: seq<Row>)
    ensures |out| == |rows|
    ensures forall i :: 0 <= i < |rows| ==> out[i] == StripRowCodes(rows[i])
  {
    seq(|rows|, i requires 0 <= i < |rows| => StripRowCodes(rows[i]))
  }

  /** The frame after the `Birthday` column has been overwritten with coerced dates. */
  function CoercedBirthdays(rows: seq<Row>): (out: seq<Row>)
    ensures |out| == |rows|
    ensures forall i :: 0 <= i < |rows| ==> out[i] == CoerceRowBirthday(rows[i])
  {
    seq(|rows|, i requires 0 <= i < |rows| => CoerceRowBirthday(rows[i]))
  }

  /** The whole normalisation step: trimmed codes, coerced birthdays. */
  function Normalised(rows: seq<Row>): (out: seq<Row>)
    ensures |out| == |rows|
    ensures forall i :: 0 <= i < |rows| ==> out[i] == CoerceRowBirthday(StripRowCodes(rows[i]))
  {
    CoercedBirthdays(StrippedCodes(rows))
  }

  /** A row is in normal form when its codes are trimmed and its birthday is NaT or a real date. */
  predicate IsNormal(r: Row) {
    && Strip(r.acctcd) == r.acctcd
    && Strip(r.custTypeCode) == r.custTypeCode
    && Strip(r.custDetailTypeCode) == r.custDetailTypeCode
    && (r.birthday.Blank? || (r.birthday.Parsed? && IsValid(r.birthday.date)))
  }

  /**
   * Normalisation puts every row in normal form, keeps row count and order,
   * touches only the code columns and the birthday, and changes nothing in a
   * row already in normal form (so doing it twice is doing it once).
   */
  lemma NormalisedRows(rows: seq<Row>)
    ensures |Normalised(rows)| == |rows|
    ensures forall i :: 0 <= i < |rows| ==> IsNormal(Normalised(rows)[i])
    ensures forall i :: 0 <= i < |rows| ==>
      Normalised(rows)[i].customerNo == rows[i].customerNo
      && Normalised(rows)[i].customerName == rows[i].customerName
    ensures forall i :: 0 <= i < |rows| ==>
      Normalised(rows)[i].acctcd == Strip(rows[i].acctcd)
      && Normalised(rows)[i].custTypeCode == Strip(rows[i].custTypeCode)
      && Normalised(rows)[i].custDetailTypeCode == Strip(rows[i].custDetailTypeCode)
      && Normalised(rows)[i].birthday == CoerceBirthday(rows[i].birthday)
    ensures (forall i :: 0 <= i < |rows| ==> IsNormal(rows[i])) ==> Normalised(rows) == rows
  {
    var out := Normalised(rows);
    forall i | 0 <= i < |rows| ensures IsNormal(out[i]) {
      var r := rows[i];
      StripIdempotent(r.acctcd);
      StripIdempotent(r.custTypeCode);
      StripIdempotent(r.custDetailTypeCode);
    }
  }

  /** Whitespace around a code does not matter: `" 421101 "` trims to the payment-account code. */
  lemma PaddedCodeMatches()
    ensures Strip(" 421101 ") == "421101"
  {
    var code := "421101";
    assert Bare(code) by { assert code[0] == '4' && code[5] == '1'; }
    assert " 421101 " == " " + code + " ";
    StripPadded(" ", code, " ");
  }

  /** Any other extra character does: `"421101x"` is left as it is and differs from the code. */
  lemma ExtraCharacterDoesNotMatch()
    ensures Strip("421101x") == "421101x" != "421101"
  {
    var code := "421101x";
    assert Bare(code) by { assert code[0] == '4' && code[6] == 'x'; }
    assert code == [] + code + [];
    StripPadded([], code, []);
  }

  /** The `Age` column: one entry per row, `calculate_age` applied to its `Birthday`. */
  function AgeColumn(rows: seq<Row>, today: Date): (ages: seq<Option<int>>)
    ensures |ages| == |rows|
    ensures forall i :: 0 <= i < |rows| ==>
      (ages[i].Some? <==> rows[i].birthday.Parsed?)
      && (ages[i].Some? ==> ages[i].value == Age(today, rows[i].birthday.date))
  {
    if rows == [] then []
    else [CalculateAge(rows[0].birthday, today)] + AgeColumn(rows[1..], today)
  }

  /**
   * The filtered data frame of the analysis. Its columns are overwritten in
   * place; `age` is the `Age` column, empty until it has been added.
   */
  class Frame {
    var rows: seq<Row>
    var age: seq<Option<int>>

    /** `df[required_cols].copy()`: a fresh frame over the sheet's rows, without an `Age` column. */
    constructor (sheet: seq<Row>)
      ensures rows == sheet && age == []
    {
      rows := sheet;
      age := [];
    }

    /** Overwrites the `Acctcd`, `Cust_TypeCode` and `Cust_DetailTypeCode` columns with their trimmed text. */
    method StripCodes()
      modifies this
      ensures rows == StrippedCodes(old(rows)) && age == old(age)
    {
      rows := StrippedCodes(rows);
    }

    /** Overwrites the `Birthday` column with coerced dates. */
    method CoerceBirthdays()
      modifies this
      ensures rows == CoercedBirthdays(old(rows)) && age == old(age)
    {
      rows := CoercedBirthdays(rows);
    }

    /** Adds the `Age` column computed from `Birthday` on the reference date. */
    method AddAgeColumn(today: Date)
      modifies this
      ensures rows == old(rows) && age == AgeColumn(rows, today)
    {
      age := AgeColumn(rows, today);
    }
  }
}
