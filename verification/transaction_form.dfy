/** The transaction form shared by the create dialog (`CreateTransactionModal`) and the edit
    dialog (`TransactionModal`) of the admin client: its fields, the reset on a type change, the
    amount input, and the JSON body it sends. */
module TransactionForm {
  import opened Wrappers
  import opened Enums
  import opened Seqs
  import opened Text
  import opened Js
  import opened Money
  import opened Schema
  import opened UseCategories
  import CategoryService
  import TransactionService
  import TransactionRoute

  /** The default fund, and the default category of expenses and transfers. */
  const PERSONAL: string := "Cá nhân"
  /** The default category of incomes. */
  const SALARY: string := "Lương"

  /** `TransactionFormData`; `toFund` is the optional key that only transfers carry. */
  datatype FormData = FormData(
    kind: TransactionType,
    date: string,
    amount: string,
    category: string,
    paymentMethod: string,
    note: string,
    description: string,
    fund: string,
    toFund: Option<string>)

  /** `newType === "income" ? "Lương" : "Cá nhân"`. */
  function DefaultCategory(kind: TransactionType): (r: string)
    ensures r == SALARY <==> kind == Income
    ensures r == PERSONAL <==> kind != Income
  {
    if kind == Income then SALARY else PERSONAL
  }

  /** The argument of `useCategories`: no type for a transfer, the form's type otherwise. */
  function CategoryFilter(kind: TransactionType): (r: Option<CategoryType>)
    ensures r.None? <==> kind == Transfer
    ensures r.Some? ==> r.value == kind
  {
    if kind == Transfer then None else Some(kind)
  }

  /** `categories.length > 0 ? categories[0].value : fallback`. */
  function FirstCategory(options: seq<CategoryOption>, fallback: string): (r: string)
    ensures |options| > 0 ==> r == options[0].value
    ensures |options| == 0 ==> r == fallback
  {
    if |options| > 0 then options[0].value else fallback
  }

  /** The method a type change selects: none for a transfer, else the first method or bank transfer. */
  function MethodFor(kind: TransactionType, methods: seq<string>): (r: string)
    ensures kind == Transfer ==> r == ""
    ensures kind != Transfer && |methods| > 0 ==> r == methods[0]
    ensures kind != Transfer && |methods| == 0 ==> r == BANK_TRANSFER
  {
    if kind == Transfer then "" else if |methods| > 0 then methods[0] else BANK_TRANSFER
  }

  /** `handleTypeChange(newType)` given the category options `categories` it reads: the type is
      set, the category, method, fund and target fund are reset, the rest of the form is kept. */
  function Reset(prev: FormData, newType: TransactionType, categories: seq<CategoryOption>, methods: seq<string>)
    : (r: FormData)
    ensures r.kind == newType
    ensures r.category == FirstCategory(categories, DefaultCategory(newType))
    ensures r.paymentMethod == MethodFor(newType, methods)
    ensures r.fund == PERSONAL
    ensures r.toFund == (if newType == Transfer then Some(PERSONAL) else None)
    ensures r.date == prev.date && r.amount == prev.amount
    ensures r.note == prev.note && r.description == prev.description
  {
    prev.(
      kind := newType,
      category := FirstCategory(categories, DefaultCategory(newType)),
      paymentMethod := MethodFor(newType, methods),
      fund := PERSONAL,
      toFund := if newType == Transfer then Some(PERSONAL) else None)
  }

  /** The type change as written: the callback closes over the options that `useCategories`
      selected for the form's type before the change. `all` is the fetched category page. */
  predicate HasCategory(all: seq<CategoryService.Category>, name: string, kind: TransactionType) {
    exists i :: 0 <= i < |all| && all[i].name == name && all[i].kind == kind
  }

  predicate HasKind(all: seq<CategoryService.Category>, kind: TransactionType) {
    exists i :: 0 <= i < |all| && all[i].kind == kind
  }

  /** What `useCategories` selects for a form of type `kind`: for an income or expense, options
      led by a category of that type when the page holds one and none otherwise; for a transfer,
      every category of the page in its order. */
  lemma OptionsFor(all: seq<CategoryService.Category>, kind: TransactionType)
    ensures var o := Select(all, CategoryFilter(kind));
              && (kind != Transfer && HasKind(all, kind) ==> |o| > 0 && HasCategory(all, o[0].value, kind))
              && (kind != Transfer && !HasKind(all, kind) ==> |o| == 0)
              && (kind == Transfer ==> |o| == |all| && (|all| > 0 ==> o[0].value == all[0].name))
  {
    if kind != Transfer {
      SelectFirst(all, kind);
    }
  }

  /** The type change as written: the callback closes over the options that `useCategories`
      selected for the form's type before the change, so the category is one of the OLD type (or
      the first of the page after a transfer) whatever the new type is. `all` is the fetched
      category page. */
  function ChangeTypeAsWritten(prev: FormData, newType: TransactionType, all: seq<CategoryService.Category>, methods: seq<string>)
    : (r: FormData)
    ensures r.kind == newType && r.paymentMethod == MethodFor(newType, methods) && r.fund == PERSONAL
    ensures r.toFund == (if newType == Transfer then Some(PERSONAL) else None)
    ensures r.date == prev.date && r.amount == prev.amount && r.note == prev.note && r.description == prev.description
    ensures prev.kind != Transfer && HasKind(all, prev.kind) ==> HasCategory(all, r.category, prev.kind)
    ensures prev.kind != Transfer && !HasKind(all, prev.kind) ==> r.category == DefaultCategory(newType)
    ensures prev.kind == Transfer ==> r.category == (if |all| > 0 then all[0].name else DefaultCategory(newType))
  {
    OptionsFor(all, prev.kind);
    Reset(prev, newType, Select(all, CategoryFilter(prev.kind)), methods)
  }

  /** The type change as intended: the category is taken from the options of the new type, so an
      income or expense gets a category of its own type when the page holds one. */
  function ChangeType(prev: FormData, newType: TransactionType, all: seq<CategoryService.Category>, methods: seq<string>)
    : (r: FormData)
    ensures r.kind == newType && r.paymentMethod == MethodFor(newType, methods) && r.fund == PERSONAL
    ensures r.toFund == (if newType == Transfer then Some(PERSONAL) else None)
    ensures r.date == prev.date && r.amount == prev.amount && r.note == prev.note && r.description == prev.description
    ensures newType != Transfer && HasKind(all, newType) ==> HasCategory(all, r.category, newType)
    ensures newType != Transfer && !HasKind(all, newType) ==> r.category == DefaultCategory(newType)
    ensures newType == Transfer ==> r.category == (if |all| > 0 then all[0].name else PERSONAL)
  {
    OptionsFor(all, newType);
    Reset(prev, newType, Select(all, CategoryFilter(newType)), methods)
  }

  /** After an income or expense is chosen, the category is one of that type when the page holds
      one, and the type's default category otherwise. */
  lemma ChangeTypeFitsNewType(prev: FormData, newType: TransactionType, all: seq<CategoryService.Category>, methods: seq<string>)
    requires newType != Transfer
    ensures var r := ChangeType(prev, newType, all, methods);
              && (HasKind(all, newType) ==> HasCategory(all, r.category, newType))
              && (!HasKind(all, newType) ==> r.category == DefaultCategory(newType))
  {
  }

  /** The discrepancy: on a page holding an expense category "Ăn uống" before the income category
      "Lương", switching an expense form to income selects the expense category "Ăn uống". */
  lemma ChangeTypeAsWrittenKeepsOldOptions(prev: FormData)
    requires prev.kind == Expense
    ensures var all := [CategoryService.Category("Ăn uống", Expense), CategoryService.Category(SALARY, Income)];
              && ChangeTypeAsWritten(prev, Income, all, []).category == "Ăn uống"
              && !HasCategory(all, "Ăn uống", Income)
              && ChangeType(prev, Income, all, []).category == SALARY
  {
    var all := [CategoryService.Category("Ăn uống", Expense), CategoryService.Category(SALARY, Income)];
    var food, salary := CategoryService.Category("Ăn uống", Expense), CategoryService.Category(SALARY, Income);
    assert all == [food] + [salary];
    SelectCons(food, [salary], Expense);
    SelectCons(food, [salary], Income);
    SelectCons(salary, [], Expense);
    SelectCons(salary, [], Income);
    assert [salary] == [salary] + [];
    assert "Ăn uống" != SALARY;
  }

  /** Choosing the same type a second time repairs the as-written change: the second call reads
      the options of the type the first one set. */
  lemma ChangeTypeAsWrittenTwice(prev: FormData, newType: TransactionType, all: seq<CategoryService.Category>, methods: seq<string>)
    ensures ChangeTypeAsWritten(ChangeTypeAsWritten(prev, newType, all, methods), newType, all, methods)
              == ChangeType(prev, newType, all, methods)
  {
  }

  /** The intended change depends on the type only: changing twice to the same type is changing once. */
  lemma ChangeTypeIdempotent(prev: FormData, newType: TransactionType, all: seq<CategoryService.Category>, methods: seq<string>)
    ensures ChangeType(ChangeType(prev, newType, all, methods), newType, all, methods)
              == ChangeType(prev, newType, all, methods)
  {
  }

  /** `handleAmountChange`: the form keeps the digits of the input; the field shows them grouped. */
  function ChangeAmount(prev: FormData, raw: string): (r: (FormData, string))
    ensures r.0 == prev.(amount := ParseMoney(raw))
    ensures AllDigits(r.0.amount) && Digits(r.1) == r.0.amount
  {
    FormatMoneyRoundTrip(raw);
    (prev.(amount := ParseMoney(raw)), FormatMoney(ParseMoney(raw)))
  }

  /** Typing the shown text back in changes nothing. */
  lemma ChangeAmountStable(prev: FormData, raw: string)
    ensures var (f, shown) := ChangeAmount(prev, raw); ChangeAmount(f, shown) == (f, shown)
  {
    FormatMoneyRoundTrip(raw);
    FormatMoneyIdempotent(raw);
  }

  // The request body.

  /** `JSON.stringify` of the number `parseInt` gave: `NaN` is written as `null`. */
  function AmountJson(n: Option<int>): (j: Json)
    ensures n.Some? <==> j.JNumber?
    ensures n.Some? ==> j.n == n.value
    ensures n.None? ==> j == JNull
  {
    match n
    case Some(v) => JNumber(v)
    case None => JNull
  }

  /** `JSON.stringify({...formData, amount})`: the eight form keys, and `toFund` when it is defined. */
  function Body(form: FormData, amount: Json): (j: Json)
    ensures j.JObject?
    ensures j.fields.Keys == {"type", "date", "amount", "category", "method", "note", "description", "fund"}
                             + (if form.toFund.Some? then {"toFund"} else {})
    ensures j.fields["amount"] == amount && j.fields["type"] == JString(TypeName(form.kind))
  {
    var base := JObject(map[
      "type" := JString(TypeName(form.kind)),
      "date" := JString(form.date),
      "amount" := amount,
      "category" := JString(form.category),
      "method" := JString(form.paymentMethod),
      "note" := JString(form.note),
      "description" := JString(form.description),
      "fund" := JString(form.fund)]);
    match form.toFund
    case Some(target) => With(base, "toFund", JString(target))
    case None => base
  }

  /** The body without its `toFund` key. */
  function BaseBody(form: FormData, amount: Json): Json {
    Body(form.(toFund := None), amount)
  }

  lemma BodyIsBase(form: FormData, amount: Json)
    ensures form.toFund.Some? ==> Body(form, amount) == With(BaseBody(form, amount), "toFund", JString(form.toFund.value))
    ensures form.toFund.None? ==> Body(form, amount) == BaseBody(form, amount)
  {
  }

  /** The columns a body with a valid date and a positive amount writes: every form field. */
  function Columns(form: FormData, n: int): TransactionService.TransactionFields {
    TransactionService.TransactionFields(
      None, Some(form.kind), Some(form.date), Some(form.description), Some(n), Some(form.note),
      Some(form.category), Some(form.paymentMethod), Some(form.fund))
  }

  /** The schema accepts the body of a form with a valid date and a positive amount, and reads
      every form field back from it; `toFund` is stripped. */
  lemma BodyAccepted(form: FormData, n: int)
    requires IsDateText(form.date) && n > 0
    ensures TransactionRoute.ParseFields(Body(form, JNumber(n))) == Some(Columns(form, n))
  {
    BodyIsBase(form, JNumber(n));
    BaseBodyAccepted(form, n);
    if form.toFund.Some? {
      TransactionRoute.ParseIgnoresUnknownKeys(BaseBody(form, JNumber(n)), "toFund", JString(form.toFund.value));
    }
  }

  lemma BaseBodyAccepted(form: FormData, n: int)
    requires IsDateText(form.date) && n > 0
    ensures TransactionRoute.ParseFields(BaseBody(form, JNumber(n))) == Some(Columns(form, n))
  {
    var f := BaseBody(form, JNumber(n)).fields;
    assert f["type"] == JString(TypeName(form.kind));
    assert f["date"] == JString(form.date) && f["description"] == JString(form.description);
    assert f["note"] == JString(form.note) && f["category"] == JString(form.category);
    assert f["method"] == JString(form.paymentMethod) && f["fund"] == JString(form.fund);
  }

  /** The schema refuses a body whose amount is not a number above 0. */
  lemma BodyRefused(form: FormData, amount: Json)
    requires !(amount.JNumber? && amount.n > 0)
    ensures TransactionRoute.ParseFields(Body(form, amount)).None?
  {
  }
}
