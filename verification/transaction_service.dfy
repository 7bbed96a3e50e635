/** `TransactionService`: the `transactions` table, keyed by an autoincrement `id`. */
module TransactionService {
  import opened Wrappers
  import opened Enums
  import opened StringOrder
  import opened Js
  import opened Paging
  import opened Store

  /** A row of `transactions`; `kind` is the `type` column. The `amount` column admits `NULL`;
      `Create` never writes one. */
  datatype Transaction = Transaction(
    id: nat,
    kind: TransactionType,
    date: string,
    description: string,
    amount: Option<int>,
    note: string,
    category: string,
    paymentMethod: string,
    fund: string)

  /** `Partial<Transaction>`: what `create` and `update` are handed; `None` is `undefined`. */
  datatype TransactionFields = TransactionFields(
    id: Option<nat>,
    kind: Option<TransactionType>,
    date: Option<string>,
    description: Option<string>,
    amount: Option<int>,
    note: Option<string>,
    category: Option<string>,
    paymentMethod: Option<string>,
    fund: Option<string>)
  {
    /** No column other than `id` is defined. */
    predicate NoColumns() {
      kind.None? && date.None? && description.None? && amount.None? && note.None? &&
      category.None? && paymentMethod.None? && fund.None?
    }
  }

  datatype TransactionStore = TransactionStore(rows: map<nat, Transaction>, nextId: nat)

  /** The table: every row is stored under its own id, and `nextId` is the id the next insert
      receives, above every id handed out so far. */
  type TransactionTable = s: TransactionStore |
    forall k :: k in s.rows ==> s.rows[k].id == k && k < s.nextId
    witness TransactionStore(map[], 0)

  /** `x` is the row the table holds under its id. */
  predicate Stored(s: TransactionTable, x: Transaction) {
    x.id in s.rows && s.rows[x.id] == x
  }

  /** `a` may be listed before `b` under `ORDER BY date DESC`. */
  predicate NotOlder(a: Transaction, b: Transaction) {
    LessEq(b.date, a.date)
  }

  /** `create(transaction)`: `INSERT INTO transactions` of the eight columns, with `'expense'`
      for a missing type, `today` for a missing or empty date, `'Chuyển khoản'` for a missing or
      empty method and `''` for a missing description, note, category or fund. The given `id`
      is not a column of the insert; the row receives a fresh one. The amount is bound with no
      default, so a missing one is `undefined` and the insert is refused, writing nothing. */
  function Create(s: TransactionTable, input: TransactionFields, today: string)
    : (r: Step<Outcome<Transaction>, TransactionTable>)
    ensures r.reply.Committed? || r.reply.UndefinedBind?
    ensures r.reply.UndefinedBind? <==> input.amount.None?
    ensures r.reply.UndefinedBind? ==> r.table == s
    ensures r.reply.Committed? ==> r.reply.value.id == s.nextId && r.reply.value.id !in s.rows
    ensures r.reply.Committed? ==> r.reply.value.kind == input.kind.GetOr(Expense)
    ensures r.reply.Committed? ==> r.reply.value.date == Or(input.date, today)
    ensures r.reply.Committed? ==> r.reply.value.description == Or(input.description, "")
    ensures r.reply.Committed? ==> r.reply.value.amount == input.amount
    ensures r.reply.Committed? ==> r.reply.value.note == Or(input.note, "")
    ensures r.reply.Committed? ==> r.reply.value.category == Or(input.category, "")
    ensures r.reply.Committed? ==> r.reply.value.paymentMethod == Or(input.paymentMethod, BANK_TRANSFER)
    ensures r.reply.Committed? ==> r.reply.value.fund == Or(input.fund, "")
    ensures r.reply.Committed? ==>
              r.table.rows == s.rows[r.reply.value.id := r.reply.value] && r.table.nextId == s.nextId + 1
  {
    if input.amount.None? then Step(UndefinedBind, s) else
    var row := Transaction(
      s.nextId,
      input.kind.GetOr(Expense),
      Or(input.date, today),
      Or(input.description, ""),
      input.amount,
      Or(input.note, ""),
      Or(input.category, ""),
      Or(input.paymentMethod, BANK_TRANSFER),
      Or(input.fund, ""));
    Step(Committed(row), TransactionStore(s.rows[row.id := row], s.nextId + 1))
  }

  /** Every row, `ORDER BY date DESC`. */
  function Ordered(s: TransactionTable): (r: seq<Transaction>)
    ensures |r| == |s.rows|
    ensures forall i :: 0 <= i < |r| ==> Stored(s, r[i])
    ensures forall i, j :: 0 <= i < j < |r| ==> NotOlder(r[i], r[j])
  {
    RowsByKeyDesc(s.rows, (x: Transaction) => x.id, (x: Transaction) => x.date)
  }

  /** The listing leaves no row out. */
  lemma OrderedComplete(s: TransactionTable, id: nat)
    requires id in s.rows
    ensures s.rows[id] in Ordered(s)
  {
    RowsByKeyDescComplete(s.rows, (x: Transaction) => x.id, (x: Transaction) => x.date, id);
  }

  /** `getAll(page, pageSize)`: one page of the date-ordered rows and the pagination metadata. */
  function GetAll(s: TransactionTable, page: nat, pageSize: nat): (r: Paged<Transaction>)
    requires page >= 1 && pageSize >= 1
    ensures IsPageOf(r, Ordered(s), page, pageSize) && r.total == |s.rows|
  {
    Paginate(Ordered(s), page, pageSize)
  }

  /** A page lists stored rows only. */
  lemma GetAllStored(s: TransactionTable, page: nat, pageSize: nat)
    requires page >= 1 && pageSize >= 1
    ensures var data := GetAll(s, page, pageSize).data;
              forall i :: 0 <= i < |data| ==> Stored(s, data[i])
  {
    PageKeeps(Ordered(s), page, pageSize, x => Stored(s, x));
  }

  /** A page lists its rows newest first. */
  lemma GetAllSorted(s: TransactionTable, page: nat, pageSize: nat)
    requires page >= 1 && pageSize >= 1
    ensures var data := GetAll(s, page, pageSize).data;
              forall i, j :: 0 <= i < j < |data| ==> NotOlder(data[i], data[j])
  {
    PageOrdered(Ordered(s), page, pageSize, NotOlder);
  }

  /** Every row of the table is on some page of the listing that exists. */
  lemma EveryRowListed(s: TransactionTable, id: nat, pageSize: nat)
    requires id in s.rows && pageSize >= 1
    ensures exists page: nat, i: nat :: 1 <= page <= TotalPages(|s.rows|, pageSize)
              && i < |GetAll(s, page, pageSize).data| && GetAll(s, page, pageSize).data[i] == s.rows[id]
  {
    OrderedComplete(s, id);
    var k :| 0 <= k < |Ordered(s)| && Ordered(s)[k] == s.rows[id];
    var page, i := ListedAt(Ordered(s), pageSize, k);
    assert GetAll(s, page, pageSize).data[i] == s.rows[id];
  }

  /** `getById(id)`: the row, or `null`. */
  function GetById(s: TransactionTable, id: nat): (r: Option<Transaction>)
    ensures r.Some? <==> id in s.rows
    ensures r.Some? ==> r.value == s.rows[id] && r.value.id == id
  {
    if id in s.rows then Some(s.rows[id]) else None
  }

  /** The row with every defined column of `patch` written over `row`; the id stays. */
  function Patched(row: Transaction, patch: TransactionFields): (r: Transaction)
    ensures r.id == row.id
    ensures r.kind == patch.kind.GetOr(row.kind) && r.date == patch.date.GetOr(row.date)
    ensures r.description == patch.description.GetOr(row.description)
    ensures r.amount == (if patch.amount.Some? then patch.amount else row.amount)
    ensures r.note == patch.note.GetOr(row.note) && r.category == patch.category.GetOr(row.category)
    ensures r.paymentMethod == patch.paymentMethod.GetOr(row.paymentMethod) && r.fund == patch.fund.GetOr(row.fund)
    ensures patch.NoColumns() ==> r == row
  {
    Transaction(
      row.id,
      patch.kind.GetOr(row.kind),
      patch.date.GetOr(row.date),
      patch.description.GetOr(row.description),
      if patch.amount.Some? then patch.amount else row.amount,
      patch.note.GetOr(row.note),
      patch.category.GetOr(row.category),
      patch.paymentMethod.GetOr(row.paymentMethod),
      patch.fund.GetOr(row.fund))
  }

  /** `update(id, patch)`: `null` for an unknown id; the current row, unwritten, when no column
      other than `id` is defined; otherwise `UPDATE ... SET <defined columns> WHERE id = ?`. */
  function Update(s: TransactionTable, id: nat, patch: TransactionFields)
    : (r: Step<Option<Transaction>, TransactionTable>)
    ensures id !in s.rows ==> r.reply.None? && r.table == s
    ensures id in s.rows && patch.NoColumns() ==> r.reply == Some(s.rows[id]) && r.table == s
    ensures id in s.rows ==> r.reply == Some(Patched(s.rows[id], patch)) && r.reply.value.id == id
    ensures id in s.rows ==> r.table.rows == s.rows[id := r.reply.value] && r.table.nextId == s.nextId
  {
    if id !in s.rows then Step(None, s)
    else if patch.NoColumns() then Step(Some(s.rows[id]), s)
    else
      var row := Patched(s.rows[id], patch);
      Step(Some(row), TransactionStore(s.rows[id := row], s.nextId))
  }

  /** `delete(id)`: `true` exactly when a row was removed. */
  function Delete(s: TransactionTable, id: nat): (r: Step<bool, TransactionTable>)
    ensures r.reply <==> id in s.rows
    ensures r.table.rows.Keys == s.rows.Keys - {id}
    ensures forall k :: k in r.table.rows ==> r.table.rows[k] == s.rows[k]
  {
    Step(id in s.rows, TransactionStore(s.rows - {id}, s.nextId))
  }

  /** A transaction with an amount is created and can be read back under its new id; one without
      is not created; either way no earlier row changes. */
  lemma CreateThenGet(s: TransactionTable, input: TransactionFields, today: string)
    ensures var r := Create(s, input, today);
              input.amount.Some? ==> r.reply.Committed? && GetById(r.table, r.reply.value.id) == Some(r.reply.value)
    ensures input.amount.None? ==> Create(s, input, today).table == s
    ensures var r := Create(s, input, today);
              forall k :: k in s.rows ==> GetById(r.table, k) == GetById(s, k)
  {
  }

  /** Two creates that both commit never hand out the same id. */
  lemma CreateFresh(s: TransactionTable, a: TransactionFields, b: TransactionFields, today: string)
    ensures var first := Create(s, a, today);
            var second := Create(first.table, b, today);
              first.reply.Committed? && second.reply.Committed? ==> second.reply.value.id != first.reply.value.id
  {
  }

  /** Writing the same patch twice is writing it once. */
  lemma UpdateIdempotent(s: TransactionTable, id: nat, patch: TransactionFields)
    ensures Update(Update(s, id, patch).table, id, patch) == Update(s, id, patch)
  {
    if id in s.rows && !patch.NoColumns() {
      var row := Patched(s.rows[id], patch);
      assert Patched(row, patch) == row;
      assert s.rows[id := row][id := row] == s.rows[id := row];
    }
  }

  /** After a delete the id is unknown, and the other rows can still be read. */
  lemma DeleteThenGet(s: TransactionTable, id: nat, other: nat)
    requires other != id
    ensures GetById(Delete(s, id).table, id).None?
    ensures GetById(Delete(s, id).table, other) == GetById(s, other)
  {
  }
}
