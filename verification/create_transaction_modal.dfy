/** `CreateTransactionModal`: the dialog that creates a transaction. Its form starts from fixed
    initial values, is reset when the dialog opens, and is sent to `POST /api/transactions` with
    the amount text turned into a number. */
module CreateTransactionModal {
  import opened Wrappers
  import opened Enums
  import opened Text
  import opened Js
  import opened Schema
  import opened Http
  import opened UseCategories
  import opened TransactionForm
  import TransactionService
  import TransactionRoute

  /** `initialFormData`; the date is the day the client module was loaded, `today`. */
  function InitialForm(today: string): (r: FormData)
    ensures r.kind == Expense && r.date == today && r.amount == ""
    ensures r.category == PERSONAL && r.paymentMethod == BANK_TRANSFER && r.fund == PERSONAL
    ensures r.note == "" && r.description == "" && r.toFund == Some(PERSONAL)
  {
    FormData(Expense, today, "", PERSONAL, BANK_TRANSFER, "", "", PERSONAL, Some(PERSONAL))
  }

  /** The reset when the dialog opens: the initial values, with the first loaded category (the
      options selected for the form's type before the reset, else that type's default), the
      first method and the first fund; the shown amount is cleared. */
  function Open(prev: FormData, today: string, categories: seq<CategoryOption>, methods: seq<string>, funds: seq<string>)
    : (r: (FormData, string))
    ensures r.0.kind == Expense && r.0.date == today && r.0.amount == "" && r.1 == ""
    ensures r.0.category == FirstCategory(categories, DefaultCategory(prev.kind))
    ensures r.0.paymentMethod == (if |methods| > 0 then methods[0] else BANK_TRANSFER)
    ensures r.0.fund == (if |funds| > 0 then funds[0] else PERSONAL)
    ensures r.0.note == "" && r.0.description == "" && r.0.toFund == Some(PERSONAL)
  {
    var form := InitialForm(today).(
      category := FirstCategory(categories, DefaultCategory(prev.kind)),
      paymentMethod := if |methods| > 0 then methods[0] else BANK_TRANSFER,
      fund := if |funds| > 0 then funds[0] else PERSONAL);
    (form, "")
  }

  /** `parseInt(formData.amount) || 0`: the number the amount text starts with, and 0 for an
      amount that is not a number. */
  function SubmitAmount(form: FormData): (n: int)
    ensures |form.amount| > 0 && AllDigits(form.amount) ==> n == DecimalValue(form.amount)
    ensures form.amount == "" ==> n == 0
  {
    match ParseInt(form.amount)
    case Some(v) => v
    case None => 0
  }

  /** The body `handleSubmit` sends: the form's keys with the amount as a number. The schema
      reads every form field back from it when the date is valid and the amount positive, and
      refuses it when the amount is not positive. */
  function SubmitBody(form: FormData): (j: Json)
    ensures j.JObject? && "amount" in j.fields && j.fields["amount"] == JNumber(SubmitAmount(form))
    ensures IsDateText(form.date) && SubmitAmount(form) > 0 ==>
              TransactionRoute.ParseFields(j) == Some(Columns(form, SubmitAmount(form)))
    ensures SubmitAmount(form) <= 0 ==> TransactionRoute.ParseFields(j).None?
  {
    var n := SubmitAmount(form);
    if n <= 0 then
      BodyRefused(form, JNumber(n));
      TransactionForm.Body(form, JNumber(n))
    else if IsDateText(form.date) then
      BodyAccepted(form, n);
      TransactionForm.Body(form, JNumber(n))
    else
      TransactionForm.Body(form, JNumber(n))
  }

  /** Submitting with no amount typed sends `0`, which the schema refuses: the server answers 400
      and stores nothing. */
  lemma SubmitWithoutAmountRefused(s: TransactionService.TransactionTable, form: FormData, today: string)
    requires form.amount == ""
    ensures TransactionRoute.Post(s, SubmitBody(form), today).reply.status == BAD_REQUEST
    ensures TransactionRoute.Post(s, SubmitBody(form), today).table == s
  {
    BodyRefused(form, JNumber(0));
  }

  /** A form with a valid date and a positive amount creates a row holding exactly the form's
      values; a transfer, whose method the type change cleared, is stored as a bank transfer. */
  lemma SubmitCreates(s: TransactionService.TransactionTable, form: FormData, today: string)
    requires IsDateText(form.date) && |form.amount| > 0 && AllDigits(form.amount) && DecimalValue(form.amount) > 0
    ensures var r := TransactionRoute.Post(s, SubmitBody(form), today);
              && r.reply.status == CREATED
              && var row := r.reply.body.value;
              && row.id == s.nextId && row.kind == form.kind && row.date == form.date
              && row.amount == Some(DecimalValue(form.amount))
              && row.category == form.category && row.note == form.note
              && row.description == form.description && row.fund == form.fund
              && row.paymentMethod == (if form.paymentMethod == "" then BANK_TRANSFER else form.paymentMethod)
  {
    BodyAccepted(form, DecimalValue(form.amount));
  }

  /** The amount field shows what the form holds, grouped: its digits are the stored amount text. */
  lemma ChangeAmountShows(prev: FormData, raw: string)
    ensures var (form, shown) := ChangeAmount(prev, raw);
              Digits(shown) == form.amount && SubmitAmount(form) == (if form.amount == "" then 0 else DecimalValue(form.amount))
  {
  }
}
