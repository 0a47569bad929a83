/**
 * The data side of the Dashboard page: the loop that normalises the fetched
 * transactions in place, the table row each transaction becomes, and the
 * three balance cards. formatValue (a locale currency formatter) and the
 * host's `new Date(text)` are not modelled; they are passed in as functions.
 */
module Dashboard {
  import opened Wrappers
  import opened Decimal
  import opened JsNumber
  import opened ParseInt
  import opened DateFormat

  datatype Category = Category(title: string)

  /** created_at: the ISO-8601 text the service sends, or the Date the normaliser puts in its place. */
  datatype CreatedAt = IsoText(text: string) | DateObject(date: Date)

  /**
   * A transaction record. `kind` is the record's `type` field; formattedValue
   * and formattedDate are None (undefined) until the normaliser writes them.
   */
  datatype Transaction = Transaction(
    id: string,
    title: string,
    value: Number,
    kind: string,
    category: Category,
    createdAt: CreatedAt,
    formattedValue: Option<string>,
    formattedDate: Option<string>)

  /** The fields the normaliser never writes are the same in t and u. */
  predicate SameSourceFields(t: Transaction, u: Transaction) {
    t.id == u.id && t.title == u.title && t.value == u.value && t.kind == u.kind && t.category == u.category
  }

  /** new Date(item.created_at): the host parses ISO text; a Date argument is copied. */
  function ToDate(c: CreatedAt, parseDate: string -> Date): Date {
    match c
    case IsoText(text) => parseDate(text)
    case DateObject(date) => date
  }

  /** An element after one pass of the forEach body: its three writes. */
  function Normalized(t: Transaction, formatValue: Number -> string, parseDate: string -> Date): Transaction {
    var date := ToDate(t.createdAt, parseDate);
    t.(formattedValue := Some(formatValue(t.value)),
       createdAt := DateObject(date),
       formattedDate := Some(FormatDate(date)))
  }

  /** The whole array after the forEach: every element normalised, in place and in order. */
  function NormalizeSeq(s: seq<Transaction>, formatValue: Number -> string, parseDate: string -> Date): (r: seq<Transaction>)
    ensures |r| == |s|
    ensures forall i :: 0 <= i < |s| ==> r[i] == Normalized(s[i], formatValue, parseDate)
  {
    if s == [] then [] else [Normalized(s[0], formatValue, parseDate)] + NormalizeSeq(s[1..], formatValue, parseDate)
  }

  /**
   * The body of the forEach callback for one index: writes formattedValue,
   * then created_at, then formattedDate into that element and nowhere else.
   */
  method NormalizeElement(a: array<Transaction>, index: nat, formatValue: Number -> string, parseDate: string -> Date)
    requires index < a.Length
    modifies a
    ensures a[index] == Normalized(old(a[index]), formatValue, parseDate)
    ensures forall k :: 0 <= k < a.Length && k != index ==> a[k] == old(a[k])
  {
    var item := a[index];
    a[index] := a[index].(formattedValue := Some(formatValue(item.value)));
    var date := ToDate(item.createdAt, parseDate);
    a[index] := a[index].(createdAt := DateObject(date));
    a[index] := a[index].(formattedDate := Some(FormatDate(date)));
  }

  /** responseTransactions.forEach(...): every element normalised, in place and in order. */
  method NormalizeAll(a: array<Transaction>, formatValue: Number -> string, parseDate: string -> Date)
    modifies a
    ensures a[..] == NormalizeSeq(old(a[..]), formatValue, parseDate)
  {
    ghost var target := NormalizeSeq(a[..], formatValue, parseDate);
    var index := 0;
    while index < a.Length
      invariant 0 <= index <= a.Length
      invariant forall k :: 0 <= k < index ==> a[k] == target[k]
      invariant forall k :: index <= k < a.Length ==> a[k] == old(a[k])
    {
      NormalizeElement(a, index, formatValue, parseDate);
      index := index + 1;
    }
    assert a[..] == target;
  }

  /**
   * Normalising keeps the length and the order and writes only formattedValue,
   * created_at and formattedDate: formattedValue is formatValue of the element's
   * own value, created_at its Date, formattedDate that Date's date string.
   */
  lemma NormalizeSeqFields(s: seq<Transaction>, formatValue: Number -> string, parseDate: string -> Date)
    ensures |NormalizeSeq(s, formatValue, parseDate)| == |s|
    ensures forall i :: 0 <= i < |s| ==>
      var u := NormalizeSeq(s, formatValue, parseDate)[i];
      && SameSourceFields(s[i], u)
      && u.formattedValue == Some(formatValue(s[i].value))
      && u.createdAt == DateObject(ToDate(s[i].createdAt, parseDate))
      && u.formattedDate == Some(FormatDate(ToDate(s[i].createdAt, parseDate)))
  {
  }

  /** formattedValue depends on the value alone: no other field influences it. */
  lemma FormattedValueOnlyFromValue(t: Transaction, t': Transaction, formatValue: Number -> string, parseDate: string -> Date)
    requires t.value == t'.value
    ensures Normalized(t, formatValue, parseDate).formattedValue == Normalized(t', formatValue, parseDate).formattedValue
  {
  }

  /** formattedDate depends on created_at alone. */
  lemma FormattedDateOnlyFromCreatedAt(t: Transaction, t': Transaction, formatValue: Number -> string, parseDate: string -> Date)
    requires t.createdAt == t'.createdAt
    ensures Normalized(t, formatValue, parseDate).formattedDate == Normalized(t', formatValue, parseDate).formattedDate
  {
  }

  /**
   * Every formattedDate the loop writes holds exactly two '/'; for a valid
   * Date with a four-digit year it has ten characters.
   */
  lemma NormalizedDateShape(t: Transaction, formatValue: Number -> string, parseDate: string -> Date)
    ensures Normalized(t, formatValue, parseDate).formattedDate.Some?
    ensures multiset(Normalized(t, formatValue, parseDate).formattedDate.value)['/'] == 2
    ensures var d := ToDate(t.createdAt, parseDate);
      d.DateOf? && 1000 <= d.year <= 9999 ==> |Normalized(t, formatValue, parseDate).formattedDate.value| == 10
  {
    FormatDateShape(ToDate(t.createdAt, parseDate));
  }

  /** Normalising an already normalised list changes nothing: a Date is copied, not re-parsed. */
  lemma NormalizeSeqIdempotent(s: seq<Transaction>, formatValue: Number -> string, parseDate: string -> Date)
    ensures NormalizeSeq(NormalizeSeq(s, formatValue, parseDate), formatValue, parseDate)
         == NormalizeSeq(s, formatValue, parseDate)
  {
  }

  /**
   * An income of 500 created on 5 March 2020 (month index 2): its date string
   * is "05/02/2020", not "05/03/2020", and its price cell has no minus sign.
   */
  lemma IncomeMarchScenario(t: Transaction, formatValue: Number -> string, parseDate: string -> Date)
    requires t.kind == "income" && t.createdAt == IsoText("2020-03-05T10:00:00Z")
    requires parseDate("2020-03-05T10:00:00Z") == DateOf(5, 2, 2020)
    requires formatValue(t.value) == "R$ 500,00"
    ensures Normalized(t, formatValue, parseDate).formattedValue == Some("R$ 500,00")
    ensures Normalized(t, formatValue, parseDate).formattedDate == Some("05/02/2020")
    ensures RenderRow(Normalized(t, formatValue, parseDate)).price == "R$ 500,00"
  {
    MarchFifthExample(ToDate(t.createdAt, parseDate));
  }

  /** What a JSX expression container shows for an optional text: nothing for undefined. */
  function Shown(text: Option<string>): string {
    match text
    case None => ""
    case Some(s) => s
  }

  /** The cells of one table row (title, price, category, date), its key and the price cell's class. */
  datatype Row = Row(key: string, title: string, priceClass: string, price: string, category: string, date: string)

  /** The row the table's map callback renders for a transaction. */
  function RenderRow(t: Transaction): Row {
    if t.kind == "income" then
      Row(t.id, t.title, "income", Shown(t.formattedValue), t.category.title, Shown(t.formattedDate))
    else
      Row(t.id, t.title, "outcome", "- " + Shown(t.formattedValue), t.category.title, Shown(t.formattedDate))
  }

  /** transactions.map(...): one row per transaction, in the same order. */
  function RenderRows(ts: seq<Transaction>): (rows: seq<Row>)
    ensures |rows| == |ts|
    ensures forall i :: 0 <= i < |ts| ==> rows[i].key == ts[i].id && rows[i].title == ts[i].title
  {
    seq(|ts|, i requires 0 <= i < |ts| => RenderRow(ts[i]))
  }

  /**
   * The price cell is "- " followed by formattedValue exactly when the type is
   * not 'income', and formattedValue unchanged when it is.
   */
  lemma PriceCellSign(t: Transaction)
    ensures RenderRow(t).price == "- " + Shown(t.formattedValue) <==> t.kind != "income"
    ensures t.kind == "income" ==> RenderRow(t).price == Shown(t.formattedValue)
    ensures RenderRow(t).priceClass == (if t.kind == "income" then "income" else "outcome")
  {
    if t.kind == "income" {
      assert |RenderRow(t).price| != |"- " + Shown(t.formattedValue)|;
    }
  }

  /** The price cell depends on the type and formattedValue only, never on the sign of value. */
  lemma PriceCellIgnoresValue(t: Transaction, t': Transaction)
    requires t.kind == t'.kind && t.formattedValue == t'.formattedValue
    ensures RenderRow(t).price == RenderRow(t').price
  {
  }

  /** An outcome whose formattedValue is "R$ 120,50" shows "- R$ 120,50". */
  lemma OutcomeRowExample(t: Transaction)
    requires t.kind == "outcome" && t.formattedValue == Some("R$ 120,50")
    ensures RenderRow(t).price == "- R$ 120,50"
  {
  }

  /** The balance object; a field is None while it is undefined. */
  datatype Balance = Balance(income: Option<string>, outcome: Option<string>, total: Option<string>)

  /** The state before the fetch resolves: `{} as Balance`, every field undefined. */
  function InitialBalance(): Balance {
    Balance(None, None, None)
  }

  /** ToString of the argument parseInt receives: "undefined" for a missing field. */
  function FieldText(field: Option<string>): string {
    match field
    case None => "undefined"
    case Some(s) => s
  }

  /** formatValue(parseInt(field, 10)). */
  function CardAmount(field: Option<string>, formatValue: Number -> string): string {
    formatValue(ParseInt10(FieldText(field)))
  }

  /** A summary card: its heading, its data-testid and the amount it shows. */
  datatype Card = Card(heading: string, testId: string, amount: string)

  /** The three summary cards, in the order the page shows them. */
  function Cards(b: Balance, formatValue: Number -> string): (cards: seq<Card>)
    ensures |cards| == 3
  {
    [ Card("Entradas", "balance-income", CardAmount(b.income, formatValue)),
      Card("Saídas", "balance-outcome", CardAmount(b.outcome, formatValue)),
      Card("Total", "balance-total", CardAmount(b.total, formatValue)) ]
  }

  /**
   * The cards show income, outcome and total in that order, each
   * formatValue(parseInt(field, 10)) of the field of the same name and of no other.
   */
  lemma CardsReadOwnField(b: Balance, b': Balance, formatValue: Number -> string)
    ensures Cards(b, formatValue)[0].testId == "balance-income"
    ensures Cards(b, formatValue)[1].testId == "balance-outcome"
    ensures Cards(b, formatValue)[2].testId == "balance-total"
    ensures b.income == b'.income ==> Cards(b, formatValue)[0] == Cards(b', formatValue)[0]
    ensures b.outcome == b'.outcome ==> Cards(b, formatValue)[1] == Cards(b', formatValue)[1]
    ensures b.total == b'.total ==> Cards(b, formatValue)[2] == Cards(b', formatValue)[2]
  {
  }

  /** A field holding the numeral of an integer reaches formatValue as that integer. */
  lemma CardAmountOfInteger(i: int, formatValue: Number -> string)
    ensures CardAmount(Some(IntToString(i)), formatValue) == formatValue(FromInt(i))
  {
    ParseInt10OfIntToString(i);
  }

  /** Integer balances rendered as `${n}` reach formatValue as exactly those integers. */
  lemma CardsOfIntegers(income: int, outcome: int, total: int, formatValue: Number -> string)
    ensures var b := Balance(Some(IntToString(income)), Some(IntToString(outcome)), Some(IntToString(total)));
      && Cards(b, formatValue)[0].amount == formatValue(FromInt(income))
      && Cards(b, formatValue)[1].amount == formatValue(FromInt(outcome))
      && Cards(b, formatValue)[2].amount == formatValue(FromInt(total))
  {
    CardAmountOfInteger(income, formatValue);
    CardAmountOfInteger(outcome, formatValue);
    CardAmountOfInteger(total, formatValue);
  }

  /**
   * A balance sent as "99.9" is shown as formatValue(99): the fraction is dropped.
   * The balance is a parameter fixed by the requires, so the solver does not unfold the literal eagerly.
   */
  lemma FractionalBalanceTruncates(b: Balance, formatValue: Number -> string)
    requires b.income == Some("99.9")
    ensures Cards(b, formatValue)[0].amount == formatValue(Finite(false, 99.0))
  {
    ParseInt10FractionExample(FieldText(b.income));
  }

  /** An undefined field is read as "undefined", which parseInt turns into NaN. */
  lemma UndefinedFieldShowsNaN(field: Option<string>, formatValue: Number -> string)
    requires field.None?
    ensures CardAmount(field, formatValue) == formatValue(NaN)
  {
    ParseInt10UndefinedExample();
  }

  /**
   * Before the fetch resolves every field is undefined, as in InitialBalance(),
   * so every card shows formatValue(NaN).
   */
  lemma InitialBalanceShowsNaN(b: Balance, formatValue: Number -> string)
    requires b.income.None? && b.outcome.None? && b.total.None?
    ensures forall i :: 0 <= i < 3 ==> Cards(b, formatValue)[i].amount == formatValue(NaN)
  {
    UndefinedFieldShowsNaN(b.income, formatValue);
    forall i | 0 <= i < 3
      ensures Cards(b, formatValue)[i].amount == CardAmount(b.income, formatValue)
    {
      CardsReadOwnField(b, Balance(b.income, b.income, b.income), formatValue);
    }
  }
}
