/** The enumerations of `enums/transaction.enum.ts` and the string unions of the record types. */
module Enums {
  import opened Wrappers

  /** `'income' | 'expense' | 'transfer'`. */
  datatype TransactionType = Income | Expense | Transfer

  /** A category is an income or an expense grouping; never a transfer. */
  type CategoryType = t: TransactionType | t != Transfer witness Expense

  /** `'Active' | 'Inactive' | 'Completed'`. */
  datatype BudgetStatus = Active | Inactive | Completed

  function TypeName(t: TransactionType): string {
    match t
    case Income => "income"
    case Expense => "expense"
    case Transfer => "transfer"
  }

  /** `z.enum(['income', 'expense', 'transfer'])` on a string. */
  function ParseTransactionType(s: string): (r: Option<TransactionType>)
    ensures r.Some? ==> TypeName(r.value) == s
    ensures forall t :: TypeName(t) == s ==> r == Some(t)
  {
    if s == "income" then Some(Income)
    else if s == "expense" then Some(Expense)
    else if s == "transfer" then Some(Transfer)
    else None
  }

  /** `z.enum(['income', 'expense'])` on a string. */
  function ParseCategoryType(s: string): (r: Option<CategoryType>)
    ensures r.Some? ==> TypeName(r.value) == s
    ensures forall t: CategoryType :: TypeName(t) == s ==> r == Some(t)
    ensures r.None? <==> s != "income" && s != "expense"
  {
    if s == "income" then Some(Income)
    else if s == "expense" then Some(Expense)
    else None
  }

  function StatusName(st: BudgetStatus): string {
    match st
    case Active => "Active"
    case Inactive => "Inactive"
    case Completed => "Completed"
  }

  /** `z.enum(['Active', 'Inactive', 'Completed'])` on a string. */
  function ParseBudgetStatus(s: string): (r: Option<BudgetStatus>)
    ensures r.Some? ==> StatusName(r.value) == s
    ensures forall st :: StatusName(st) == s ==> r == Some(st)
  {
    if s == "Active" then Some(Active)
    else if s == "Inactive" then Some(Inactive)
    else if s == "Completed" then Some(Completed)
    else None
  }

  /** `TransactionMethod`: the fixed payment channels, in declaration order. */
  const CASH: string := "Tiền mặt"
  const BANK_TRANSFER: string := "Chuyển khoản"
  const E_WALLET: string := "Ví điện tử"
  const CREDIT_CARD: string := "Thẻ tín dụng"
  const METHODS: seq<string> := [CASH, BANK_TRANSFER, E_WALLET, CREDIT_CARD]
}
