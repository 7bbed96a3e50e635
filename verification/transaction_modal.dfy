/** `TransactionModal`: the dialog that edits a transaction. Its form is empty until a transaction
    is handed in, is filled from it, and is sent to `PUT /api/transactions/:id` with the amount
    text turned into a number. */
module TransactionModal {
  import opened Wrappers
  import opened Enums
  import opened Text
  import opened Js
  import opened Money
  import opened Schema
  import opened Http
  import opened Store
  import opened TransactionForm
  import CategoryService
  import TransactionService
  import TransactionRoute

  /** The client's `Transaction`; the texts the form defaults with `||` are optional, and the
      amount is a whole number. */
  datatype ClientTransaction = ClientTransaction(
    id: nat,
    kind: TransactionType,
    date: string,
    description: Option<string>,
    category: string,
    amount: int,
    paymentMethod: string,
    note: Option<string>,
    fund: Option<string>,
    toFund: Option<string>)

  /** The dialog's state: the form (`null` before a transaction arrives) and the shown amount. */
  datatype Editor = Editor(form: Option<FormData>, display: string)

  function Abs(n: int): (r: nat)
    ensures r == n || r == -n
  {
    if n < 0 then -n else n
  }

  /** The form filled from a transaction: the amount is the magnitude as text, missing or empty
      texts fall back to `""` and the fund to "Cá nhân", and only a transfer keeps its target fund. */
  function FormOf(t: ClientTransaction): (r: FormData)
    ensures r.kind == t.kind && r.date == t.date && r.category == t.category && r.paymentMethod == t.paymentMethod
    ensures ParseInt(r.amount) == Some(Abs(t.amount)) && AllDigits(r.amount)
    ensures r.note == Or(t.note, "") && r.description == Or(t.description, "")
    ensures r.fund == Or(t.fund, PERSONAL) && r.fund != ""
    ensures r.toFund == (if t.kind == Transfer then t.toFund else None)
  {
    ParseIntNatToString(Abs(t.amount));
    FormData(
      t.kind, t.date, NatToString(Abs(t.amount)), t.category, t.paymentMethod,
      Or(t.note, ""), Or(t.description, ""), Or(t.fund, PERSONAL),
      if t.kind == Transfer then t.toFund else None)
  }

  /** The effect on `[transaction]`: a transaction fills the form and the shown amount; without
      one nothing changes. */
  function Load(e: Editor, t: Option<ClientTransaction>): (r: Editor)
    ensures t.None? ==> r == e
    ensures t.Some? ==> r.form == Some(FormOf(t.value)) && r.display == FormatMoney(r.form.value.amount)
  {
    match t
    case None => e
    case Some(x) => Editor(Some(FormOf(x)), FormatMoney(FormOf(x).amount))
  }

  /** `handleAmountChange`: nothing before the form exists, else the digits are kept and shown grouped. */
  function HandleAmountChange(e: Editor, raw: string): (r: Editor)
    ensures e.form.None? ==> r == e
    ensures e.form.Some? ==>
              && r.form == Some(e.form.value.(amount := ParseMoney(raw)))
              && Digits(r.display) == ParseMoney(raw)
  {
    match e.form
    case None => e
    case Some(f) =>
      var (g, shown) := ChangeAmount(f, raw);
      Editor(Some(g), shown)
  }

  /** `handleTypeChange` as written: nothing before the form exists, else the reset of the
      category, method and funds, with the category taken from the `categories` of the
      `useCategories` call for the form's type before the change. */
  function HandleTypeChange(e: Editor, newType: TransactionType, all: seq<CategoryService.Category>, methods: seq<string>)
    : (r: Editor)
    ensures e.form.None? ==> r == e
    ensures e.form.Some? ==> r.display == e.display && r.form.Some? && r.form.value.kind == newType
    ensures e.form.Some? ==> r.form.value.date == e.form.value.date && r.form.value.amount == e.form.value.amount
    ensures e.form.Some? && e.form.value.kind != Transfer && HasKind(all, e.form.value.kind) ==>
              HasCategory(all, r.form.value.category, e.form.value.kind)
    ensures e.form.Some? ==> r.form == Some(ChangeTypeAsWritten(e.form.value, newType, all, methods))
  {
    match e.form
    case None => e
    case Some(f) => e.(form := Some(ChangeTypeAsWritten(f, newType, all, methods)))
  }

  /** `handleTypeChange` as intended: the category is taken from the options of the new type. */
  function HandleTypeChangeIntended(e: Editor, newType: TransactionType, all: seq<CategoryService.Category>, methods: seq<string>)
    : (r: Editor)
    ensures e.form.None? ==> r == e
    ensures e.form.Some? ==> r.display == e.display && r.form.Some? && r.form.value.kind == newType
    ensures e.form.Some? ==> r.form.value.date == e.form.value.date && r.form.value.amount == e.form.value.amount
    ensures e.form.Some? && newType != Transfer && HasKind(all, newType) ==>
              HasCategory(all, r.form.value.category, newType)
    ensures e.form.Some? ==> r.form == Some(ChangeType(e.form.value, newType, all, methods))
  {
    match e.form
    case None => e
    case Some(f) => e.(form := Some(ChangeType(f, newType, all, methods)))
  }

  /** On the page of the discrepancy, switching a loaded expense to income selects the expense
      category "Ăn uống" as written, and the income category "Lương" as intended. */
  lemma HandleTypeChangeKeepsOldOptions(e: Editor)
    requires e.form.Some? && e.form.value.kind == Expense
    ensures var all := [CategoryService.Category("Ăn uống", Expense), CategoryService.Category(SALARY, Income)];
              && HandleTypeChange(e, Income, all, []).form.value.category == "Ăn uống"
              && HandleTypeChangeIntended(e, Income, all, []).form.value.category == SALARY
  {
    ChangeTypeAsWrittenKeepsOldOptions(e.form.value);
  }

  /** `handleSubmit`: nothing without a form and a transaction, otherwise the transaction's id and
      the body with `parseInt(formData.amount)`, whose `NaN` is sent as `null`. */
  function Submit(e: Editor, t: Option<ClientTransaction>): (r: Option<(nat, Json)>)
    ensures r.None? <==> e.form.None? || t.None?
    ensures r.Some? ==> r.value.0 == t.value.id
    ensures r.Some? ==> r.value.1 == TransactionForm.Body(e.form.value, AmountJson(ParseInt(e.form.value.amount)))
  {
    if e.form.None? || t.None? then None
    else Some((t.value.id, TransactionForm.Body(e.form.value, AmountJson(ParseInt(e.form.value.amount)))))
  }

  /** A loaded form sends the magnitude of the transaction's amount back. */
  lemma LoadThenSubmitAmount(e: Editor, t: ClientTransaction)
    ensures var r := Submit(Load(e, Some(t)), Some(t));
              && r.Some? && r.value.0 == t.id
              && r.value.1.fields["amount"] == JNumber(Abs(t.amount))
  {
  }

  /** What a loaded, untouched form submits: the id and the body of the filled form with the
      magnitude of the amount. */
  lemma LoadThenSubmit(e: Editor, t: ClientTransaction)
    ensures Submit(Load(e, Some(t)), Some(t)) == Some((t.id, TransactionForm.Body(FormOf(t), JNumber(Abs(t.amount)))))
  {
  }

  /** Clearing the amount field makes `parseInt` give `NaN`, sent as `null`: the server answers 400
      and writes nothing. */
  lemma ClearedAmountRefused(s: TransactionService.TransactionTable, e: Editor, t: ClientTransaction, raw: string)
    requires e.form.Some? && ParseMoney(raw) == ""
    ensures var r := Submit(HandleAmountChange(e, raw), Some(t));
              && r.Some?
              && TransactionRoute.Put(s, r.value.0, r.value.1).reply.status == BAD_REQUEST
              && TransactionRoute.Put(s, r.value.0, r.value.1).table == s
  {
    var f := HandleAmountChange(e, raw).form.value;
    assert ParseInt(f.amount) == None;
    BodyRefused(f, JNull);
  }

  /** The client's view of a stored row. */
  function ClientOf(row: TransactionService.Transaction, n: int): ClientTransaction {
    ClientTransaction(row.id, row.kind, row.date, Some(row.description), row.category, n,
                      row.paymentMethod, Some(row.note), Some(row.fund), None)
  }

  /** Opening a stored transaction and saving it untouched writes the row back unchanged, when
      its date is valid, its amount positive and its fund set. */
  lemma SaveUntouchedKeepsRow(s: TransactionService.TransactionTable, id: nat, e: Editor)
    requires id in s.rows
    requires var row := s.rows[id]; IsDateText(row.date) && row.amount.Some? && row.amount.value > 0 && row.fund != ""
    ensures var t := ClientOf(s.rows[id], s.rows[id].amount.value);
              var r := Submit(Load(e, Some(t)), Some(t));
              && r.Some? && r.value.0 == id
              && TransactionRoute.Put(s, id, r.value.1) == Step(Reply(OK, Payload(s.rows[id])), s)
  {
    var row := s.rows[id];
    var t := ClientOf(row, row.amount.value);
    var n := row.amount.value;
    assert Abs(n) == n;
    LoadThenSubmit(e, t);
    PutFormOfRow(s, id, FormOf(t), n);
  }

  /** The form filled from a stored row, sent with the row's amount, writes that row back. */
  lemma PutFormOfRow(s: TransactionService.TransactionTable, id: nat, f: FormData, n: int)
    requires id in s.rows && IsDateText(f.date) && n > 0
    requires TransactionService.Patched(s.rows[id], Columns(f, n)) == s.rows[id]
    ensures TransactionRoute.Put(s, id, TransactionForm.Body(f, JNumber(n))) == Step(Reply(OK, Payload(s.rows[id])), s)
  {
    BodyAccepted(f, n);
    assert s.rows[id := s.rows[id]] == s.rows;
  }
}
