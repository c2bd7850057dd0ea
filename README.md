# Customer/account portfolio metrics — Dafny model

This project models the analysis core of a small bank-reporting tool. The tool
takes a sheet of customer/account rows and produces six integer counts:

1. rows whose customer is 15 or older;
2. payment accounts (`Acctcd == "421101"`) of individual customers (KHCN,
   `Cust_TypeCode == "100"`);
3. the EKYC part of those (`Cust_DetailTypeCode == "104"`);
4. distinct individual customers (KHCN CIF, distinct `Customer_No`);
5. distinct organisation customers (KHTC CIF, `Cust_TypeCode != "100"`);
6. payment accounts of organisation customers.

The model follows the program's pipeline:

- `Columns`: the required-column check, which stops the run when a column is absent.
- `Records`: the sheet row (`Row`), the `Birthday` cell, and `calculate_age`.
  It also holds the filtered data frame, the class `Frame`. Its methods overwrite
  the code columns and the `Birthday` column in place, then add the `Age` column.
- `Text`: Python's `str.strip()`, used to trim the code columns.
- `Dates`: calendar dates and the integer birthday rule.
- `Criteria`: the row masks, as named predicates.
- `Aggregation`: `df[mask]` as `Select`, `shape[0]` as its length, and `nunique()` as `NUnique`.
- `Report`: the six counts (`ComputeMetrics`) and the fixed-order result table.
- `Pipeline`: one run as a function (`Analysis`). `Run` is a method that drives
  the `Frame` the way the program does and is proved equal to `Analysis`.

The reference date is a parameter wherever the program reads today's date.

Points where the program's behaviour is easy to misread:

- `nunique()` leaves out only missing (NaN) customer numbers. An empty-string
  customer number is a value like any other and is counted.
- There is no account-status column and no "Normal"-status filter, so the
  model has neither.
- A sheet with the required columns but no data rows yields no metrics. The
  `Age` column of an empty frame keeps the date type of `Birthday`, comparing
  it with 15 raises an error, and the run's exception handler reports it.

## Model

| member | source | states |
|---|---|---|
| `Dates.Age` | python.py:26 | the age is the number of completed years: the anniversary for `Age` years is on or before today, the next one is not |
| `Dates.CompletedYearsIsAge` | python.py:26 | any n with that completed-years property equals the age, so the description is exact |
| `Dates.AgeOnBirthday` | python.py:26 | on the birthday itself the age equals the year difference |
| `Dates.AgeDayBeforeBirthday` | python.py:26 | on the birthday the age is the year difference, and on the calendar day before it (across month and year ends) it is one less |
| `Dates.AgeMonotone` | python.py:23-26 | a later reference date never gives a smaller age |
| `Dates.AgeNegativeIffFutureBirth` | python.py:26 | there is no clamping: the age is negative exactly when the birth date is after the reference date |
| `Dates.LeapDayBirth` | python.py:26 | a 29 February birthday counts as not yet reached on 28 February and as reached on 1 March of a non-leap year |
| `Text.TrimStart` | python.py:78-80 | the result is a suffix of the input, everything dropped is whitespace, and it does not start with whitespace |
| `Text.TrimEnd` | python.py:78-80 | the result is a prefix of the input, everything dropped is whitespace, and it does not end with whitespace |
| `Text.Strip` | python.py:78-80 | `strip()` returns an infix of its input with whitespace-only borders, and the result has no whitespace at either end |
| `Text.StripUnique` | python.py:78-80 | any bare infix with whitespace-only borders is the strip result, so the description above fixes `strip()` exactly |
| `Text.StripPadded` | python.py:78-80 | whitespace around a bare code is removed and the code comes back unchanged |
| `Text.StripIdempotent` | python.py:78-80 | trimming twice is trimming once |
| `Records.CoerceBirthday` | python.py:83 | a coerced birthday is NaT or a real calendar date; it is a date exactly when the cell held a valid date, and then that same date |
| `Records.CoerceRowBirthday` | python.py:83 | only the `Birthday` column of the row changes; it becomes the coerced cell, which is NaT or a real calendar date |
| `Records.CalculateAge` | python.py:6-27 | there is an age exactly when the cell holds a date (NaT and non-dates give none), and it is the birthday-rule age on the reference date |
| `Records.StripRowCodes` | python.py:78-80 | each of the three code columns becomes the `strip()` of its old text, so it has no whitespace at either end; `Customer_No`, `Customer_Name` and `Birthday` are unchanged |
| `Records.StrippedCodes` | python.py:78-80 | the frame keeps its row count and order, and each row has its codes trimmed |
| `Records.CoercedBirthdays` | python.py:83 | the frame keeps its row count and order, and each row has its birthday coerced |
| `Records.Normalised` | python.py:78-83 | normalisation keeps the row count and order and applies code trimming, then birthday coercion, to each row |
| `Records.NormalisedRows` | python.py:78-83 | after normalisation every row is in normal form; row count, order, `Customer_No` and `Customer_Name` are kept; each code is the `strip()` of the old one and the birthday the coerced old one; an already-normal frame is left unchanged |
| `Records.PaddedCodeMatches` | python.py:78 | `" 421101 "` trims to the payment-account code |
| `Records.ExtraCharacterDoesNotMatch` | python.py:99 | `"421101x"` trims to itself and is not the payment-account code, so the comparison is exact |
| `Records.AgeColumn` | python.py:93 | the `Age` column has one entry per row; an entry is present exactly when the row's birthday is a date, and then it is that date's age |
| `Records.Frame.constructor` | python.py:70 | the frame starts as the sheet's rows, with no `Age` column |
| `Records.Frame.StripCodes` | python.py:78-80 | the rows become the code-trimmed rows of the old frame; the `Age` column is untouched |
| `Records.Frame.CoerceBirthdays` | python.py:83 | the rows become the birthday-coerced rows of the old frame; the `Age` column is untouched |
| `Records.Frame.AddAgeColumn` | python.py:93 | the rows are unchanged, and the `Age` column becomes `calculate_age` of each row's birthday |
| `Columns.RequiredColumnsDistinct` | python.py:54-57 | six columns are required and no two of them are the same |
| `Columns.MissingColumns` | python.py:54-60 | a column is listed exactly when it is required and absent, and the list keeps the required-list order |
| `Columns.NoneMissingIffAllPresent` | python.py:60-62 | nothing is missing exactly when all six required columns are present |
| `Columns.TwoColumnsMissing` | python.py:60 | a sheet lacking `Customer_No` and `Birthday` gets both listed, in required order |
| `Criteria.IsKhtcCif` | python.py:114-120 | the KHTC mask (`Cust_TypeCode != "100"`) holds exactly where the KHCN mask (`== "100"`) does not, so every row is in one segment |
| `Criteria.IsKhcnPayment` | python.py:98-101 | a KHCN payment account is exactly a payment account (`Acctcd == "421101"`) of the KHCN segment |
| `Criteria.IsKhcnEkyc` | python.py:106-109 | every EKYC row is a KHCN payment account |
| `Criteria.IsKhtcPayment` | python.py:126-129 | a KHTC payment account is exactly a payment account that is not a KHCN one, and it belongs to the KHTC segment |
| `Criteria.IsAge15Plus` | python.py:94 | a missing age never satisfies `Age >= 15`; a present one does exactly from 15 up |
| `Aggregation.Select` | python.py:102 | `df[mask]` is a subsequence of the frame (order kept), holds only rows that satisfy the mask and every row that does, and is never longer than the frame |
| `Aggregation.SelectKeepsEveryCopy` | python.py:102 | a row the mask keeps appears in `df[mask]` exactly as often as in the frame: no row is merged or duplicated |
| `Aggregation.CustomerNos` | python.py:116 | the `Customer_No` column has one entry per row, taken from that row |
| `Aggregation.Distinct` | python.py:116 | the values `nunique()` counts are exactly the customer numbers present (non-missing) in the column, and there are no more of them than cells |
| `Aggregation.NUnique` | python.py:116 | `nunique()` is at most the column length, and zero exactly when every cell is missing |
| `Aggregation.CifCount` | python.py:114-122 | a CIF count is never more than the rows the mask keeps |
| `Aggregation.SelectMonotone` | python.py:106-110 | a mask that implies another selects no more rows, which gives EKYC ≤ KHCN payment |
| `Aggregation.SelectPartition` | python.py:98-130 | two disjoint masks that together make up a third split its row count, which gives KHCN payment + KHTC payment = payment accounts |
| `Aggregation.DistinctCustomersBound` | python.py:116-122 | the distinct customer count is at most the number of rows with a customer number, which is at most the number of rows |
| `Aggregation.CifCountBound` | python.py:114-122 | a CIF count is at most the matching rows with a customer number, which is at most the matching rows |
| `Aggregation.CustomerNoSelected` | python.py:116 | a customer number is counted exactly when some matching row carries it |
| `Aggregation.MissingCustomerAddsNothing` | python.py:116-122 | inserting a row with a missing `Customer_No` anywhere leaves every CIF count unchanged |
| `Aggregation.Age15PlusNeedsBirthDate` | python.py:93-94 | the `Age >= 15` count is at most the number of rows that have a birth date, so rows without one are never counted |
| `Report.ComputeMetrics` | python.py:92-130 | given the `Age` column of the frame, every count is at most the frame size; EKYC ≤ KHCN payment; KHCN payment + KHTC payment = all payment accounts; each CIF count ≤ its segment's rows |
| `Report.ReportRows` | python.py:136-153 | the table has six rows whose labels follow the fixed display order |
| `Report.ReadReport` | python.py:136-153 | a table is read back only when it has the six labels in display order |
| `Report.Lookup` | python.py:136-153 | a label is found exactly when some row of the table carries it, and then the value is that of the first such row |
| `Report.ReportRoundTrip` | python.py:136-153 | reading the table back yields the six metrics it was built from, each under its own label |
| `Report.LabelsDistinct` | python.py:137-144 | the six labels are pairwise different |
| `Report.LookupFindsRow` | python.py:136-153 | in a table with distinct labels, looking up a row's label finds that row's value |
| `Report.LookupByLabel` | python.py:136-153 | looking up each label in the table finds its own metric |
| `Pipeline.Analysis` | python.py:54-130 | the run stops exactly when a required column is absent, and then reports all missing columns and no metric; with all columns present it fails exactly when the sheet has no data rows; otherwise every count is bounded by the rows, the age count by the dated rows, EKYC ≤ KHCN payment, and the payment counts partition the payment accounts |
| `Pipeline.Run` | python.py:47-130 | the in-place run over the frame produces exactly the result `Analysis` describes |
| `Pipeline.OneCustomerTwoAccounts` | python.py:114-116 | two rows of one individual customer and one organisation row give KHCN CIF 1 over 2 KHCN rows |
| `Pipeline.AgeExamples` | python.py:6-27 | on 2024-06-15, birth dates 2009-06-15 and 2009-06-16 give 15 and 14, and a blank birthday gives no age |
| `Pipeline.ScenarioAges` | python.py:93-94 | in the three-row scenario two rows are 15 or older and the undated row is not counted |
| `Pipeline.ScenarioPaymentCounts` | python.py:98-130 | in the scenario: 2 KHCN payment accounts, 1 EKYC, 0 KHTC payment accounts |
| `Pipeline.ScenarioCifCounts` | python.py:112-122 | in the scenario: 2 distinct KHCN customers and 1 distinct KHTC customer |
| `Pipeline.ThreeRecordScenario` | python.py:92-130 | the scenario's six metrics are (2, 2, 1, 2, 1, 0) |

## Left out

- Presentation and I/O are not modelled: page setup, title, uploader, button,
  spinner, preview, metric cards, the table widget and balloons (python.py:32-51,
  72-75, 87-90, 133-185). The computation behind the button is modelled as if the
  button were pressed.
- Reading the workbook (`pd.read_excel`) is not modelled. A sheet is given as its
  header plus its rows, already restricted to the six required columns. Any extra
  columns that `df[required_cols]` drops are absent.
- The code columns are given as text. How `astype(str)` renders non-string cells
  (`421101.0`, `nan`) is library behaviour and is not modelled.
- The date parser of `pd.to_datetime` is not modelled. A `Birthday` cell is given
  as blank, as the (year, month, day) the parser reads, or as unparseable. The model
  then does the coercion: dates that do not exist on the calendar become NaT.
  Pandas' Timestamp range limit (dates before 1677-09-22 or after 2262-04-11 also
  become NaT) is not modelled.
- `Customer_No` is taken as given text or missing. A number and its text form
  (`123` vs `"123"`), which `nunique()` would treat as two values, are not distinguished.
- `date.today()` is not modelled. The reference date is a parameter.
- The catch-all exception handler (python.py:187-189) is modelled only for the
  one failure the analysis itself raises, the age comparison on a sheet without
  data rows. Other exceptions (an unreadable workbook, library errors) and the
  handler's message texts are not modelled. The conversion failure inside
  `calculate_age` (python.py:19-21) is modelled as "no age" for a non-date cell.
- Thousands-separator formatting of the displayed values (python.py:163-176) is
  not modelled.
- The error message text that lists the missing columns is not modelled. Only
  the list itself is.
