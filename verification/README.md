# Dashboard transaction normaliser — a Dafny model

This project models the data side of the personal-finance Dashboard page
(`src/pages/Dashboard/index.tsx`):

- the `forEach` loop that normalises the fetched transactions **in place**,
  writing `formattedValue`, `created_at` (a Date) and `formattedDate`
  (`day/month/year`, day and month zero-padded) into every element;
- the three balance cards, each showing `formatValue(parseInt(field, 10))`
  of the balance field of the same name;
- the table row each transaction becomes, whose price cell is prefixed
  with `"- "` unless the transaction's type is `'income'`.

Modules:

| module | file | what it holds |
|---|---|---|
| `Wrappers` | wrappers.dfy | `Option`, for properties that may be `undefined` |
| `JsNumber` | js_number.dfy | `Number = NaN \| Finite(negative, magnitude)`; the sign bit is kept apart so that -0 exists |
| `Decimal` | decimal.dfy | `${n}` for integral Numbers, and the value of a digit string |
| `ParseInt` | parse_int.dfy | `parseInt(s, 10)` as section 19.2.5 of ECMA-262 (ECMAScript 2022) defines it for radix 10 |
| `DateFormat` | date_format.dfy | zero-padding, the date string, reading a date string back, and the calendar-month variant |
| `Dashboard` | dashboard.dfy | the transaction record, the in-place loop, the rows and the cards |

`formatValue` (a locale currency formatter in a file that is not part of
this model) and the host's `new Date(text)` are passed in as function
parameters, `formatValue: Number -> string` and
`parseDate: string -> Date`. Nothing is assumed about either one.
A Date is reduced to the three components the page reads: `getDate()`
(1..31), `getMonth()` (0..11) and `getFullYear()`. An invalid Date is
kept as a separate case.

The loop is a method over an `array<Transaction>` of record values.
`NormalizeElement` performs the three writes of one callback, in source
order. `NormalizeAll` states the new array as
`NormalizeSeq(old(a[..]))`. The lemmas next to `NormalizeSeq` state the
properties of that array: same length and order, untouched source fields,
which inputs each written field depends on, and idempotence.

Two points where the code departs from what its rendering suggests are
modelled as the code behaves:

- **Month.** A date shown as `DD/MM/YYYY` is read with MM as the calendar
  month, 01 to 12. The code zero-pads `getMonth()`, which is 0-based, so
  March is shown as `02`. The normaliser models the code as written. The
  calendar-month variant appears only under Findings.
- **Minus prefix.** The table's price cell gets the `"- "` prefix whenever
  the type is not `'income'`, not only for `'outcome'`, so `kind` is
  modelled as any string.

## Model

| member | source | states |
|---|---|---|
| `Decimal.NatToString` | src/pages/Dashboard/index.tsx:52 | `${n}` of a non-negative integer is a non-empty string of decimal digits, starting with '0' exactly when n is 0 |
| `Decimal.IntToString` | src/pages/Dashboard/index.tsx:57-59 | `${year}` starts with '-' exactly for negative years, followed by digits without a leading zero |
| `Decimal.NatToStringRoundTrip` | src/pages/Dashboard/index.tsx:52 | reading the numeral of n as a decimal number gives n back |
| `Decimal.NatToStringLength` | src/pages/Dashboard/index.tsx:57-59 | the numeral has 1 digit below 10, 2 digits for 10..99, 4 digits for 1000..9999 |
| `ParseInt.TrimStart` | src/pages/Dashboard/index.tsx:80 | the result is a suffix of the input and does not start with white space |
| `ParseInt.TrimStartRemovesWhiteSpace` | src/pages/Dashboard/index.tsx:80 | what the trim removes is ECMAScript white space or line terminators only |
| `ParseInt.DigitPrefix` | src/pages/Dashboard/index.tsx:80 | the longest prefix made of decimal digits: it is followed by a non-digit or by the end |
| `ParseInt.FromDigits` | src/pages/Dashboard/index.tsx:80 | a finite parse result is always an integer |
| `ParseInt.ParseInt10` | src/pages/Dashboard/index.tsx:80 | `parseInt(s, 10)`: trim white space, take one sign, read the longest digit run; the result is NaN or an integer; its value on every input is stated by `ParseInt10OfDigits` and `ParseInt10NoDigits` |
| `ParseInt.ParseInt10OfDigits` | src/pages/Dashboard/index.tsx:80 | white space, an optional sign, a non-empty digit run, then anything not starting with a digit: parseInt gives the digits' value, negative exactly under '-' |
| `ParseInt.ParseInt10NoDigits` | src/pages/Dashboard/index.tsx:80 | white space and an optional sign not followed by a digit give NaN |
| `ParseInt.ParseInt10OfNumeral` | src/pages/Dashboard/index.tsx:80 | a pure digit string is read as its decimal value, leading zeros included |
| `ParseInt.ParseInt10OfIntToString` | src/pages/Dashboard/index.tsx:89 | parseInt reads back every integer rendered as `${i}` |
| `ParseInt.ParseInt10DropsFraction` | src/pages/Dashboard/index.tsx:98 | `whole + "." + fraction` parses to the value of the whole digits: the fraction is dropped |
| `ParseInt.ParseInt10FractionExample` | src/pages/Dashboard/index.tsx:80 | "99.9" parses to 99 |
| `ParseInt.ParseInt10NegativeZeroExample` | src/pages/Dashboard/index.tsx:80 | " \t-0" parses to -0: white space is skipped and the minus sign is kept on zero |
| `ParseInt.ParseInt10UndefinedExample` | src/pages/Dashboard/index.tsx:34 | the text of an undefined field, "undefined", parses to NaN |
| `DateFormat.ZeroPad` | src/pages/Dashboard/index.tsx:51-55 | the field is at least two digits and starts with '0' exactly when n < 10; below 100 it is exactly two digits that read back as n |
| `DateFormat.ComposeDate` | src/pages/Dashboard/index.tsx:59 | definition of `${day}/${month}/${year}` from the padded fields; its shape is stated by `ComposeDateShape` and its inverse by `ComposeDateReadsBack` |
| `DateFormat.FormatDate` | src/pages/Dashboard/index.tsx:47-59 | definition of the as-written formattedDate, "NaN/NaN/NaN" for an invalid Date; stated by `FormatDateShape`, `FormatDateReadsBack` and `InvalidDateReadsBack` |
| `DateFormat.FormatCalendarDate` | src/pages/Dashboard/index.tsx:54-55 | definition of the corrected date string with the month `getMonth() + 1`; stated by `FormatCalendarDateReadsBack` |
| `DateFormat.DayField` | src/pages/Dashboard/index.tsx:51-52 | a day in 1..31 is shown as exactly two digits, and both the digits and parseInt read it back as the day |
| `DateFormat.MonthField` | src/pages/Dashboard/index.tsx:54-55 | a month index in 0..11 is shown as two digits that read back as the index; January is "00", December "11", and "12" never appears |
| `DateFormat.ComposeDateShape` | src/pages/Dashboard/index.tsx:59 | `day/month/year` holds exactly two '/', and has 10 characters for two-digit fields and a four-digit year |
| `DateFormat.FormatDateShape` | src/pages/Dashboard/index.tsx:51-59 | every formattedDate, including "NaN/NaN/NaN" for an invalid Date, holds exactly two '/'; a valid Date with a four-digit year gives 10 characters |
| `DateFormat.SplitOnCount` | src/pages/Dashboard/index.tsx:59 | splitting at a separator gives one piece more than there are separators (used to read the date string back) |
| `DateFormat.ReadDate` | src/pages/Dashboard/index.tsx:59 | a date string splits into three fields exactly when it holds two '/' |
| `DateFormat.ReadDateOfFields` | src/pages/Dashboard/index.tsx:59 | three '/'-free fields joined by '/' read back field by field |
| `DateFormat.ComposeDateReadsBack` | src/pages/Dashboard/index.tsx:51-59 | the padded day, the padded month and the year of a composed date read back as the three numbers |
| `DateFormat.FormatDateReadsBack` | src/pages/Dashboard/index.tsx:51-59 | the formattedDate of a valid Date reads back as (day, month index, year) |
| `DateFormat.NaNTextReadsAsNaN` | src/pages/Dashboard/index.tsx:52 | the text `${NaN}` reads back as NaN |
| `DateFormat.InvalidDateReadsBack` | src/pages/Dashboard/index.tsx:47-59 | an invalid Date is shown as three NaN fields |
| `DateFormat.FormatDateMonthIsOneLess` | src/pages/Dashboard/index.tsx:54-55 | as written, the month field reads back as the 0-based index, and the date string differs from the calendar-month one for every valid Date |
| `DateFormat.MarchFifthExample` | src/pages/Dashboard/index.tsx:51-59 | 5 March 2020 is shown as "05/02/2020"; the calendar-month variant gives "05/03/2020" |
| `DateFormat.FormatCalendarDateReadsBack` | src/pages/Dashboard/index.tsx:54-55 | the corrected string reads back as (day, calendar month in 1..12, year) |
| `Dashboard.NormalizeSeq` | src/pages/Dashboard/index.tsx:44-60 | the normalised list has the same length, and element i is element i of the input after its three writes |
| `Dashboard.ToDate` | src/pages/Dashboard/index.tsx:47 | definition of `new Date(item.created_at)`: ISO text goes to the host's parser and a Date is copied; used by `FormattedDateOnlyFromCreatedAt` and `NormalizeSeqIdempotent` |
| `Dashboard.Normalized` | src/pages/Dashboard/index.tsx:45-59 | definition of one element after the callback's three writes; their values are stated by `NormalizeSeqFields` |
| `Dashboard.NormalizeElement` | src/pages/Dashboard/index.tsx:45-59 | one callback writes formattedValue, created_at and formattedDate into element `index` and changes no other element |
| `Dashboard.NormalizeAll` | src/pages/Dashboard/index.tsx:44-60 | after the loop the array is exactly `NormalizeSeq` of the array before it: same length and order, each element normalised in place |
| `Dashboard.NormalizeSeqFields` | src/pages/Dashboard/index.tsx:44-60 | id, title, value, type and category are unchanged; formattedValue is formatValue(value); created_at is the element's Date; formattedDate is that Date's string |
| `Dashboard.FormattedValueOnlyFromValue` | src/pages/Dashboard/index.tsx:45 | two elements with the same value get the same formattedValue, whatever their other fields |
| `Dashboard.FormattedDateOnlyFromCreatedAt` | src/pages/Dashboard/index.tsx:47-59 | two elements with the same created_at get the same formattedDate |
| `Dashboard.NormalizedDateShape` | src/pages/Dashboard/index.tsx:51-59 | every written formattedDate holds two '/', and has 10 characters for a four-digit year |
| `Dashboard.NormalizeSeqIdempotent` | src/pages/Dashboard/index.tsx:47-49 | normalising an already normalised list changes nothing, because `new Date(date)` copies a Date |
| `Dashboard.IncomeMarchScenario` | src/pages/Dashboard/index.tsx:44-60 | an income created on 2020-03-05 gets formattedDate "05/02/2020" and an unprefixed price cell |
| `Dashboard.RenderRow` | src/pages/Dashboard/index.tsx:116-133 | definition of the row for one transaction; stated by `PriceCellSign` and `PriceCellIgnoresValue` |
| `Dashboard.RenderRows` | src/pages/Dashboard/index.tsx:115-134 | one row per transaction, in the same order, keyed by its id |
| `Dashboard.PriceCellSign` | src/pages/Dashboard/index.tsx:116-133 | the price cell is "- " + formattedValue exactly when the type is not 'income', and the bare formattedValue otherwise; the cell's class follows the same rule |
| `Dashboard.PriceCellIgnoresValue` | src/pages/Dashboard/index.tsx:116-133 | the price cell depends only on the type and formattedValue, never on the sign of value |
| `Dashboard.OutcomeRowExample` | src/pages/Dashboard/index.tsx:126-133 | an outcome formatted "R$ 120,50" shows "- R$ 120,50" |
| `Dashboard.InitialBalance` | src/pages/Dashboard/index.tsx:34 | definition of `{} as Balance`, every field undefined; stated by `InitialBalanceShowsNaN` |
| `Dashboard.FieldText` | src/pages/Dashboard/index.tsx:80 | definition of the text parseInt reads from a field, "undefined" for an undefined one; stated by `UndefinedFieldShowsNaN` |
| `Dashboard.CardAmount` | src/pages/Dashboard/index.tsx:80 | definition of `formatValue(parseInt(field, 10))`; stated by `CardAmountOfInteger`, `FractionalBalanceTruncates` and `UndefinedFieldShowsNaN` |
| `Dashboard.Cards` | src/pages/Dashboard/index.tsx:73-101 | the page shows exactly three cards |
| `Dashboard.CardsReadOwnField` | src/pages/Dashboard/index.tsx:79-99 | the cards are income, outcome and total, in that order, and each depends only on the balance field of the same name |
| `Dashboard.CardAmountOfInteger` | src/pages/Dashboard/index.tsx:80 | a field holding the numeral of an integer reaches formatValue as exactly that integer |
| `Dashboard.CardsOfIntegers` | src/pages/Dashboard/index.tsx:79-99 | integer balance fields reach formatValue unchanged, card by card |
| `Dashboard.FractionalBalanceTruncates` | src/pages/Dashboard/index.tsx:80 | an income field of "99.9" is shown as formatValue(99) |
| `Dashboard.UndefinedFieldShowsNaN` | src/pages/Dashboard/index.tsx:80 | an undefined balance field is shown as formatValue(NaN) |
| `Dashboard.InitialBalanceShowsNaN` | src/pages/Dashboard/index.tsx:34 | before the fetch resolves, when every balance field is undefined, every card shows formatValue(NaN) |

## Left out

- The fetch (`api.get('/transactions')`), `useEffect` and the `setTransactions`/`setBalance` state updates. These are network I/O and React scheduling. The initial balance `{}` is modelled, because the cards render it.
- `formatValue`. It lives in a file that is not part of this model and is a locale currency formatter. It is a function parameter with no properties assumed, so nothing is proved about currency text.
- ISO-8601 parsing, time zones and the time of day inside `new Date(text)`. The parse is a function parameter returning the local day, month index and year, or an invalid Date. The time components of the Date that replaces `created_at` are not kept.
- `Dashboard.NormalizeAll`: the array elements are record values. The model therefore does not capture that the source mutates shared objects, which any other reference to them would see.
- Rounding of Numbers to IEEE-754 doubles. parseInt of a numeral beyond 2^53, and the approximation ECMA-262 allows beyond 20 significant digits, are modelled as the exact integer. `value` is treated as an opaque Number.
- Balance fields that are JSON numbers rather than strings. `parseInt` would first apply ToString to them. Only string fields and undefined fields are modelled.
- JSX markup, `Header`, styled components and SVG imports. A row and a card are modelled as the texts they show.

## Findings

| source | as written | input that shows it | evidently intended | confidence | as-written member | corrected member |
|---|---|---|---|---|---|---|
| src/pages/Dashboard/index.tsx:54-55 | the month field is `getMonth()`, which counts from 0 | created_at 2020-03-05 is shown as "05/02/2020" | the calendar month `getMonth() + 1`, giving "05/03/2020" | high, not executed | `DateFormat.FormatDateMonthIsOneLess` | `DateFormat.FormatCalendarDateReadsBack` |

The normaliser (`Dashboard.Normalized`, `Dashboard.NormalizeAll`) keeps
the as-written `FormatDate`, so the model describes what the page shows
today. `DateFormat.FormatCalendarDate` is the definition a fix would
substitute. Its read-back lemma proves that the month field then holds
the calendar month, 1 to 12.
