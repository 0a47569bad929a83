/**
 * The date string the dashboard shows for a transaction, built from the
 * Date's getDate(), getMonth() and getFullYear(): `${day}/${month}/${year}`
 * with day and month zero-padded by a `< 10` test. getMonth() counts months
 * from 0 (section 21.4.1.4 of ECMA-262, MonthFromTime), so the month field
 * is one less than the calendar month.
 */
module DateFormat {
  import opened Wrappers
  import opened Decimal
  import opened JsNumber
  import opened ParseInt

  /**
   * A Date object reduced to the components the dashboard reads: an invalid
   * Date (new Date of text it cannot parse), or the local day of the month,
   * the 0-based month index and the full year.
   */
  datatype DateValue = InvalidDate | DateOf(day: nat, monthIndex: nat, year: int)

  /** The ranges getDate(), getMonth() and getFullYear() return for a valid Date. */
  predicate InRange(d: DateValue) {
    d.DateOf? ==> 1 <= d.day <= 31 && d.monthIndex <= 11 && -271821 <= d.year <= 275760
  }

  type Date = d: DateValue | InRange(d) witness InvalidDate

  /** `n < 10 ? `0${n}` : `${n}``: a "0" is put in front only below 10. */
  function ZeroPad(n: nat): (r: string)
    ensures |r| >= 2 && AllDigits(r)
    ensures r[0] == '0' <==> n < 10
    ensures n < 100 ==> |r| == 2 && DigitsValue(r) == n
  {
    NatToStringLength(n);
    NatToStringRoundTrip(n);
    if n < 10 then
      var r := "0" + NatToString(n);
      assert r[..1] == "0";
      r
    else
      NatToString(n)
  }

  /** `${day}/${month}/${year}` from the padded fields. */
  function ComposeDate(day: nat, month: nat, year: int): string {
    ZeroPad(day) + "/" + ZeroPad(month) + "/" + IntToString(year)
  }

  /** A composed date holds exactly two '/'; with a four-digit year it is ten characters long. */
  lemma ComposeDateShape(day: nat, month: nat, year: int)
    ensures multiset(ComposeDate(day, month, year))['/'] == 2
    ensures day < 100 && month < 100 && 1000 <= year <= 9999 ==> |ComposeDate(day, month, year)| == 10
  {
    if 1000 <= year <= 9999 {
      NatToStringLength(year);
    }
    NoNonDigitIn(ZeroPad(day), '/');
    NoNonDigitIn(ZeroPad(month), '/');
    var y := IntToString(year);
    if year < 0 {
      NoNonDigitIn(y[1..], '/');
      assert y == [y[0]] + y[1..];
    } else {
      NoNonDigitIn(y, '/');
    }
  }

  /**
   * `${x}` for x = NaN: what getDate(), getMonth() and getFullYear() of an
   * invalid Date render as (NaN < 10 is false, so no "0" is put in front).
   */
  function NaNText(): string {
    "NaN"
  }

  /** The formattedDate the dashboard writes: the month field is getMonth(), 0 to 11. */
  function FormatDate(d: Date): string {
    match d
    case InvalidDate => NaNText() + "/" + NaNText() + "/" + NaNText()
    case DateOf(day, monthIndex, year) => ComposeDate(day, monthIndex, year)
  }

  /**
   * Every formatted date, valid or not, holds exactly two '/'; for a valid Date
   * with a four-digit year it is ten characters long (DD/MM/YYYY).
   */
  lemma FormatDateShape(d: Date)
    ensures multiset(FormatDate(d))['/'] == 2
    ensures d.DateOf? && 1000 <= d.year <= 9999 ==> |FormatDate(d)| == 10
  {
    match d
    case InvalidDate =>
      var nan := NaNText();
      assert FormatDate(d) == nan + "/" + nan + "/" + nan;
      assert multiset(nan)['/'] == 0;
    case DateOf(day, monthIndex, year) =>
      ComposeDateShape(day, monthIndex, year);
  }

  /** A day of the month is shown as exactly two digits that read back as the day. */
  lemma DayField(day: nat)
    requires 1 <= day <= 31
    ensures |ZeroPad(day)| == 2 && AllDigits(ZeroPad(day))
    ensures DigitsValue(ZeroPad(day)) == day
    ensures ParseInt10(ZeroPad(day)) == Finite(false, day as real)
  {
    ParseInt10OfNumeral(ZeroPad(day));
  }

  /**
   * A month index is shown as two digits that read back as the index, one less
   * than the calendar month: January is "00", December "11", and "12" never appears.
   */
  lemma MonthField(monthIndex: nat)
    requires monthIndex <= 11
    ensures |ZeroPad(monthIndex)| == 2 && AllDigits(ZeroPad(monthIndex))
    ensures DigitsValue(ZeroPad(monthIndex)) == monthIndex
    ensures ZeroPad(monthIndex) != "12"
    ensures monthIndex == 0 ==> ZeroPad(monthIndex) == "00"
    ensures monthIndex == 11 ==> ZeroPad(monthIndex) == "11"
  {
  }

  /** text.split(sep): the pieces of text between the occurrences of sep. */
  function SplitOn(text: string, sep: char): (parts: seq<string>)
    ensures parts != []
  {
    if text == [] then [[]]
    else
      var rest := SplitOn(text[1..], sep);
      if text[0] == sep then [[]] + rest else [[text[0]] + rest[0]] + rest[1..]
  }

  /** text.split(sep) has one piece more than text has separators. */
  lemma {:induction false} SplitOnCount(text: string, sep: char)
    ensures |SplitOn(text, sep)| == multiset(text)[sep] + 1
  {
    if text != [] {
      assert text == [text[0]] + text[1..];
      SplitOnCount(text[1..], sep);
    }
  }

  lemma {:induction false} SplitOnNoSeparator(text: string, sep: char)
    requires sep !in text
    ensures SplitOn(text, sep) == [text]
  {
    if text != [] {
      SplitOnNoSeparator(text[1..], sep);
      assert [text[0]] + text[1..] == text;
    }
  }

  lemma {:induction false} SplitOnConcat(first: string, sep: char, rest: string)
    requires sep !in first
    ensures SplitOn(first + [sep] + rest, sep) == [first] + SplitOn(rest, sep)
  {
    var text := first + [sep] + rest;
    if first == [] {
      assert text[1..] == rest;
    } else {
      assert text[1..] == first[1..] + [sep] + rest;
      SplitOnConcat(first[1..], sep, rest);
      assert [first[0]] + first[1..] == first;
    }
  }

  /** Splitting a date string at '/' and reading each piece with parseInt. */
  function ReadDate(s: string): (fields: Option<(Number, Number, Number)>)
    ensures fields.Some? <==> multiset(s)['/'] == 2
  {
    var parts := SplitOn(s, '/');
    SplitOnCount(s, '/');
    if |parts| == 3 then Some((ParseInt10(parts[0]), ParseInt10(parts[1]), ParseInt10(parts[2])))
    else None
  }

  lemma ThreeFields(a: string, b: string, c: string)
    requires '/' !in a && '/' !in b && '/' !in c
    ensures SplitOn(a + "/" + b + "/" + c, '/') == [a, b, c]
  {
    SplitOnNoSeparator(c, '/');
    SplitOnConcat(b, '/', c);
    assert a + "/" + b + "/" + c == a + ['/'] + (b + ['/'] + c);
    SplitOnConcat(a, '/', b + ['/'] + c);
  }

  /** Three '/'-free fields joined by '/' read back field by field. */
  lemma ReadDateOfFields(a: string, b: string, c: string)
    requires '/' !in a && '/' !in b && '/' !in c
    ensures ReadDate(a + "/" + b + "/" + c) == Some((ParseInt10(a), ParseInt10(b), ParseInt10(c)))
  {
    ThreeFields(a, b, c);
  }

  /** Reading the padded fields of a composed date gives its components back. */
  lemma ComposeDateReadsBack(day: nat, month: nat, year: int)
    requires day < 100 && month < 100
    ensures ReadDate(ComposeDate(day, month, year))
      == Some((Finite(false, day as real), Finite(false, month as real), FromInt(year)))
  {
    var d, m, y := ZeroPad(day), ZeroPad(month), IntToString(year);
    NoNonDigitIn(d, '/');
    NoNonDigitIn(m, '/');
    assert '/' !in y by {
      if year < 0 {
        NoNonDigitIn(y[1..], '/');
        assert y == [y[0]] + y[1..];
      } else {
        NoNonDigitIn(y, '/');
      }
    }
    assert ComposeDate(day, month, year) == d + "/" + m + "/" + y;
    ReadDateOfFields(d, m, y);
    ParseInt10OfNumeral(d);
    ParseInt10OfNumeral(m);
    ParseInt10OfIntToString(year);
  }

  /** The text "NaN" reads back as NaN. */
  lemma NaNTextReadsAsNaN()
    ensures ParseInt10(NaNText()) == NaN
  {
    var nan := NaNText();
    ParseInt10NoDigits(nan, "", "", nan);
  }

  /** An invalid Date is shown as "NaN/NaN/NaN", whose three fields read back as NaN. */
  lemma InvalidDateReadsBack(d: Date)
    requires d.InvalidDate?
    ensures ReadDate(FormatDate(d)) == Some((NaN, NaN, NaN))
  {
    var nan := NaNText();
    assert FormatDate(d) == nan + "/" + nan + "/" + nan;
    ReadDateOfFields(nan, nan, nan);
    NaNTextReadsAsNaN();
  }

  /** The formatted date of a valid Date reads back as (day, month index, year). */
  lemma FormatDateReadsBack(d: Date)
    requires d.DateOf?
    ensures ReadDate(FormatDate(d))
      == Some((Finite(false, d.day as real), Finite(false, d.monthIndex as real), FromInt(d.year)))
  {
    ComposeDateReadsBack(d.day, d.monthIndex, d.year);
  }

  /**
   * The date string the dashboard was evidently meant to show: the calendar
   * month (getMonth() + 1), 01 to 12.
   */
  function FormatCalendarDate(d: Date): string {
    match d
    case InvalidDate => NaNText() + "/" + NaNText() + "/" + NaNText()
    case DateOf(day, monthIndex, year) => ComposeDate(day, monthIndex + 1, year)
  }

  /** The corrected date string reads back as (day, calendar month 1..12, year). */
  lemma FormatCalendarDateReadsBack(d: Date)
    requires d.DateOf?
    ensures ReadDate(FormatCalendarDate(d))
      == Some((Finite(false, d.day as real), Finite(false, (d.monthIndex + 1) as real), FromInt(d.year)))
    ensures 1 <= d.monthIndex + 1 <= 12
  {
    assert ReadDate(FormatCalendarDate(d))
      == Some((Finite(false, d.day as real), Finite(false, (d.monthIndex + 1) as real), FromInt(d.year))) by {
      ComposeDateReadsBack(d.day, d.monthIndex + 1, d.year);
    }
  }

  /** As written, the month field of every valid date reads back as one less than its calendar month. */
  lemma FormatDateMonthIsOneLess(d: Date)
    requires d.DateOf?
    ensures ReadDate(FormatDate(d)).Some?
    ensures ReadDate(FormatDate(d)).value.1 == Finite(false, d.monthIndex as real)
    ensures ReadDate(FormatDate(d)) != ReadDate(FormatCalendarDate(d))
  {
    FormatDateReadsBack(d);
    FormatCalendarDateReadsBack(d);
  }

  lemma YearExample()
    ensures IntToString(2020) == "2020"
  {
    assert NatToString(20) == "20";
    assert NatToString(202) == "202";
  }

  lemma PaddingExample()
    ensures ZeroPad(5) == "05" && ZeroPad(2) == "02" && ZeroPad(3) == "03"
  {
  }

  /**
   * 5 March 2020 (month index 2) is shown as "05/02/2020"; the calendar month gives "05/03/2020".
   * The date is a parameter fixed by the requires, so the solver does not unfold the literal eagerly.
   */
  lemma MarchFifthExample(d: Date)
    requires d == DateOf(5, 2, 2020)
    ensures FormatDate(d) == "05/02/2020"
    ensures FormatCalendarDate(d) == "05/03/2020"
  {
    YearExample();
    PaddingExample();
    var day, month, year := ZeroPad(d.day), ZeroPad(d.monthIndex), IntToString(d.year);
    assert FormatDate(d) == day + "/" + month + "/" + year;
    assert FormatCalendarDate(d) == day + "/" + ZeroPad(d.monthIndex + 1) + "/" + year;
  }
}
