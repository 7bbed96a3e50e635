/** `BudgetService`: the `budgets` table, keyed by an autoincrement `id`. */
module BudgetService {
  import opened Wrappers
  import opened Enums
  import opened StringOrder
  import opened Store

  /** A row of `budgets`; `startDate` and `endDate` are the `start_date` and `end_date` columns.
      The `note`, `category` and `fund` columns admit `NULL`; `Create` never writes one. */
  datatype Budget = Budget(
    id: nat,
    name: string,
    amount: int,
    spent: int,
    startDate: string,
    endDate: string,
    status: BudgetStatus,
    note: Option<string>,
    category: Option<string>,
    fund: Option<string>)

  /** `Omit<Budget, 'id'>`: what `create` is handed. */
  datatype BudgetInput = BudgetInput(
    name: string,
    amount: int,
    spent: int,
    startDate: string,
    endDate: string,
    status: BudgetStatus,
    note: Option<string>,
    category: Option<string>,
    fund: Option<string>)

  /** `Partial<Budget>`: what `update` is handed; `None` is `undefined`. */
  datatype BudgetFields = BudgetFields(
    id: Option<nat>,
    name: Option<string>,
    amount: Option<int>,
    spent: Option<int>,
    startDate: Option<string>,
    endDate: Option<string>,
    status: Option<BudgetStatus>,
    note: Option<string>,
    category: Option<string>,
    fund: Option<string>)
  {
    /** No column other than `id` is defined. */
    predicate NoColumns() {
      name.None? && amount.None? && spent.None? && startDate.None? && endDate.None? &&
      status.None? && note.None? && category.None? && fund.None?
    }
  }

  datatype BudgetStore = BudgetStore(rows: map<nat, Budget>, nextId: nat)

  /** The table: every row is stored under its own id, and `nextId` is the id the next insert
      receives, above every id handed out so far. */
  type BudgetTable = s: BudgetStore |
    forall k :: k in s.rows ==> s.rows[k].id == k && k < s.nextId
    witness BudgetStore(map[], 0)

  /** `b` is the row the table holds under its id. */
  predicate Stored(s: BudgetTable, b: Budget) {
    b.id in s.rows && s.rows[b.id] == b
  }

  /** `a` may be listed before `b` under `ORDER BY start_date DESC`. */
  predicate StartsNotEarlier(a: Budget, b: Budget) {
    LessEq(b.startDate, a.startDate)
  }

  /** The fields of a row other than its id, as `create` was handed them. */
  function InputOf(b: Budget): BudgetInput {
    BudgetInput(b.name, b.amount, b.spent, b.startDate, b.endDate, b.status, b.note, b.category, b.fund)
  }

  /** The stored row of an input, under id `id`: the input's fields, unchanged. */
  function RowOf(input: BudgetInput, id: nat): (b: Budget)
    ensures b.id == id && InputOf(b) == input
  {
    Budget(id, input.name, input.amount, input.spent, input.startDate, input.endDate, input.status,
           input.note, input.category, input.fund)
  }

  /** Every value the insert binds is defined: the schema defaults `spent` and `status` and
      requires the rest, but leaves a missing `note`, `category` or `fund` undefined. */
  predicate AllBound(input: BudgetInput) {
    input.note.Some? && input.category.Some? && input.fund.Some?
  }

  /** `create(budget)`: `INSERT INTO budgets` of the nine given columns, as given, under a fresh id.
      An undefined note, category or fund cannot be bound, and then nothing is written. */
  function Create(s: BudgetTable, input: BudgetInput): (r: Step<Outcome<Budget>, BudgetTable>)
    ensures r.reply.Committed? || r.reply.UndefinedBind?
    ensures r.reply.UndefinedBind? <==> !AllBound(input)
    ensures r.reply.UndefinedBind? ==> r.table == s
    ensures r.reply.Committed? ==> r.reply.value.id == s.nextId && r.reply.value.id !in s.rows
    ensures r.reply.Committed? ==> InputOf(r.reply.value) == input
    ensures r.reply.Committed? ==>
              r.table.rows == s.rows[r.reply.value.id := r.reply.value] && r.table.nextId == s.nextId + 1
  {
    if !AllBound(input) then Step(UndefinedBind, s) else
    var row := RowOf(input, s.nextId);
    Step(Committed(row), BudgetStore(s.rows[row.id := row], s.nextId + 1))
  }

  /** `getAll()`: every row, `ORDER BY start_date DESC`, without pagination. */
  function GetAll(s: BudgetTable): (r: seq<Budget>)
    ensures |r| == |s.rows|
    ensures forall i :: 0 <= i < |r| ==> Stored(s, r[i])
    ensures forall i, j :: 0 <= i < j < |r| ==> StartsNotEarlier(r[i], r[j])
  {
    RowsByKeyDesc(s.rows, (b: Budget) => b.id, (b: Budget) => b.startDate)
  }

  /** The listing leaves no row out. */
  lemma GetAllComplete(s: BudgetTable, id: nat)
    requires id in s.rows
    ensures s.rows[id] in GetAll(s)
  {
    RowsByKeyDescComplete(s.rows, (b: Budget) => b.id, (b: Budget) => b.startDate, id);
  }

  /** `getById(id)`: the row, or `null`. */
  function GetById(s: BudgetTable, id: nat): (r: Option<Budget>)
    ensures r.Some? <==> id in s.rows
    ensures r.Some? ==> r.value == s.rows[id] && r.value.id == id
  {
    if id in s.rows then Some(s.rows[id]) else None
  }

  /** The row with every defined column of `patch` written over `row`; the id stays. */
  function Patched(row: Budget, patch: BudgetFields): (r: Budget)
    ensures r.id == row.id
    ensures r.name == patch.name.GetOr(row.name) && r.amount == patch.amount.GetOr(row.amount)
    ensures r.spent == patch.spent.GetOr(row.spent)
    ensures r.startDate == patch.startDate.GetOr(row.startDate) && r.endDate == patch.endDate.GetOr(row.endDate)
    ensures r.status == patch.status.GetOr(row.status)
    ensures r.note == (if patch.note.Some? then patch.note else row.note)
    ensures r.category == (if patch.category.Some? then patch.category else row.category)
    ensures r.fund == (if patch.fund.Some? then patch.fund else row.fund)
    ensures patch.NoColumns() ==> r == row
  {
    Budget(
      row.id,
      patch.name.GetOr(row.name),
      patch.amount.GetOr(row.amount),
      patch.spent.GetOr(row.spent),
      patch.startDate.GetOr(row.startDate),
      patch.endDate.GetOr(row.endDate),
      patch.status.GetOr(row.status),
      if patch.note.Some? then patch.note else row.note,
      if patch.category.Some? then patch.category else row.category,
      if patch.fund.Some? then patch.fund else row.fund)
  }

  /** `update(id, patch)`: `null` for an unknown id; the current row, unwritten, when no column
      other than `id` is defined; otherwise `UPDATE ... SET <defined columns> WHERE id = ?`. */
  function Update(s: BudgetTable, id: nat, patch: BudgetFields): (r: Step<Option<Budget>, BudgetTable>)
    ensures id !in s.rows ==> r.reply.None? && r.table == s
    ensures id in s.rows && patch.NoColumns() ==> r.reply == Some(s.rows[id]) && r.table == s
    ensures id in s.rows ==> r.reply == Some(Patched(s.rows[id], patch)) && r.reply.value.id == id
    ensures id in s.rows ==> r.table.rows == s.rows[id := r.reply.value] && r.table.nextId == s.nextId
  {
    if id !in s.rows then Step(None, s)
    else if patch.NoColumns() then Step(Some(s.rows[id]), s)
    else
      var row := Patched(s.rows[id], patch);
      Step(Some(row), BudgetStore(s.rows[id := row], s.nextId))
  }

  /** `delete(id)`: `true` exactly when a row was removed. */
  function Delete(s: BudgetTable, id: nat): (r: Step<bool, BudgetTable>)
    ensures r.reply <==> id in s.rows
    ensures r.table.rows.Keys == s.rows.Keys - {id}
    ensures forall k :: k in r.table.rows ==> r.table.rows[k] == s.rows[k]
  {
    Step(id in s.rows, BudgetStore(s.rows - {id}, s.nextId))
  }

  /** A created budget can be read back under its new id with the fields it was given. */
  lemma CreateThenGet(s: BudgetTable, input: BudgetInput)
    ensures var r := Create(s, input);
              AllBound(input) ==>
                && r.reply.Committed?
                && GetById(r.table, r.reply.value.id).Some? && InputOf(GetById(r.table, r.reply.value.id).value) == input
    ensures !AllBound(input) ==> Create(s, input).table == s
    ensures var r := Create(s, input);
              forall k :: k in s.rows ==> GetById(r.table, k) == GetById(s, k)
  {
  }

  /** Writing the same patch twice is writing it once. */
  lemma UpdateIdempotent(s: BudgetTable, id: nat, patch: BudgetFields)
    ensures Update(Update(s, id, patch).table, id, patch) == Update(s, id, patch)
  {
    if id in s.rows && !patch.NoColumns() {
      var row := Patched(s.rows[id], patch);
      assert Patched(row, patch) == row;
      assert s.rows[id := row][id := row] == s.rows[id := row];
    }
  }

  /** After a delete the id is unknown, and the other rows can still be read. */
  lemma DeleteThenGet(s: BudgetTable, id: nat, other: nat)
    requires other != id
    ensures GetById(Delete(s, id).table, id).None?
    ensures GetById(Delete(s, id).table, other) == GetById(s, other)
  {
  }
}
