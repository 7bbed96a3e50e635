/** `TransactionRoute`: the `/transactions` handlers, as functions from the table, the path
    parameter, the query and the JSON body to the response and the table afterwards. The path id
    is taken as already converted to the number the `WHERE id = ?` comparison matches. */
module TransactionRoute {
  import opened Wrappers
  import opened Enums
  import opened Schema
  import opened Http
  import opened Paging
  import opened Store
  import TransactionService

  type Transaction = TransactionService.Transaction
  type TransactionTable = TransactionService.TransactionTable
  type TransactionFields = TransactionService.TransactionFields

  /** The keys `transactionSchema` knows; the validator strips every other key. */
  const SCHEMA_KEYS: set<string> := {"type", "date", "description", "amount", "note", "category", "method", "fund"}

  /** `transactionSchema.partial()`, the schema of both POST and PUT: every key may be missing; a
      present `type` is `income`, `expense` or `transfer`, a present `date` has the form
      `dddd-dd-dd`, a present `amount` is a number above 0, and the other keys are strings. */
  function ParseFields(body: Json): (r: Option<TransactionFields>)
    ensures r.Some? <==>
              && body.JObject?
              && ("type" in body.fields ==>
                    body.fields["type"].JString? && body.fields["type"].s in {"income", "expense", "transfer"})
              && OptionalString(body.fields, "date", IsDateText)
              && OptionalString(body.fields, "description", AnyString)
              && ("amount" in body.fields ==> body.fields["amount"].JNumber? && body.fields["amount"].n > 0)
              && OptionalString(body.fields, "note", AnyString)
              && OptionalString(body.fields, "category", AnyString)
              && OptionalString(body.fields, "method", AnyString)
              && OptionalString(body.fields, "fund", AnyString)
    ensures r.Some? ==>
              && r.value.id.None?
              && (r.value.kind.Some? <==> "type" in body.fields)
              && (r.value.kind.Some? ==> TypeName(r.value.kind.value) == body.fields["type"].s)
              && CarriesString(body.fields, "date", r.value.date)
              && CarriesString(body.fields, "description", r.value.description)
              && (r.value.amount.Some? <==> "amount" in body.fields)
              && (r.value.amount.Some? ==> r.value.amount.value == body.fields["amount"].n)
              && CarriesString(body.fields, "note", r.value.note)
              && CarriesString(body.fields, "category", r.value.category)
              && CarriesString(body.fields, "method", r.value.paymentMethod)
              && CarriesString(body.fields, "fund", r.value.fund)
  {
    if !body.JObject? then None
    else
      var f := body.fields;
      var kind := EnumField(f, "type", ParseTransactionType);
      var date := StringField(f, "date", IsDateText);
      var description := StringField(f, "description", AnyString);
      var amount := NumberField(f, "amount", Positive);
      var note := StringField(f, "note", AnyString);
      var category := StringField(f, "category", AnyString);
      var paidBy := StringField(f, "method", AnyString);
      var fund := StringField(f, "fund", AnyString);
      if Passes(kind) && Passes(date) && Passes(description) && Passes(amount) && Passes(note)
         && Passes(category) && Passes(paidBy) && Passes(fund)
      then Some(TransactionService.TransactionFields(
             None, kind.ToOption(), date.ToOption(), description.ToOption(), amount.ToOption(),
             note.ToOption(), category.ToOption(), paidBy.ToOption(), fund.ToOption()))
      else None
  }

  /** `POST /`: 400 for a body the schema refuses, 500 when it has no amount (the insert binds
      `undefined`), otherwise 201 with the inserted row; the two errors write nothing. The date of
      the day is the parameter `today`. */
  function Post(s: TransactionTable, body: Json, today: string): (r: Step<Reply<Transaction>, TransactionTable>)
    ensures r.reply.status in {BAD_REQUEST, SERVER_ERROR, CREATED}
    ensures r.reply.status == BAD_REQUEST <==> ParseFields(body).None?
    ensures r.reply.status == BAD_REQUEST ==> r.reply == Invalid() && r.table == s
    ensures r.reply.status == SERVER_ERROR <==> ParseFields(body).Some? && ParseFields(body).value.amount.None?
    ensures r.reply.status == SERVER_ERROR ==> r.reply == Failed() && r.table == s
    ensures r.reply.status == CREATED ==>
              && r.reply.body.Payload?
              && Committed(r.reply.body.value) == TransactionService.Create(s, ParseFields(body).value, today).reply
              && r.reply.body.value.id == s.nextId && r.reply.body.value.id !in s.rows
              && r.table.rows == s.rows[s.nextId := r.reply.body.value]
  {
    match ParseFields(body)
    case None => Step(Invalid(), s)
    case Some(fields) =>
      var created := TransactionService.Create(s, fields, today);
      if created.reply.Committed? then Step(Reply(CREATED, Payload(created.reply.value)), created.table)
      else Step(Failed(), s)
  }

  /** `GET /?page&pageSize`: 400 for a page or page size out of range, otherwise one page of the
      newest-first transactions. */
  function List(s: TransactionTable, page: Option<string>, pageSize: Option<string>)
    : (r: Reply<Paged<Transaction>>)
    ensures r.status in {OK, BAD_REQUEST}
    ensures r.status == OK <==> CheckPaging(page, pageSize).Accepted?
    ensures r.status == OK ==>
              var q := CheckPaging(page, pageSize);
              r.body == Payload(TransactionService.GetAll(s, q.page, q.pageSize))
    ensures r.status == BAD_REQUEST ==> r.body == Error(CheckPaging(page, pageSize).message)
  {
    match CheckPaging(page, pageSize)
    case Rejected(message) => Reply(BAD_REQUEST, Error(message))
    case Accepted(p, size) => Reply(OK, Payload(TransactionService.GetAll(s, p, size)))
  }

  /** `GET /:id`: the transaction, or 404. */
  function Show(s: TransactionTable, id: nat): (r: Reply<Transaction>)
    ensures r.status in {OK, NOT_FOUND}
    ensures r.status == NOT_FOUND <==> id !in s.rows
    ensures r.status == NOT_FOUND ==> r.body == Error("Transaction not found")
    ensures r.status == OK ==> r.body == Payload(s.rows[id])
  {
    match TransactionService.GetById(s, id)
    case None => Reply(NOT_FOUND, Error("Transaction not found"))
    case Some(x) => Reply(OK, Payload(x))
  }

  /** `PUT /:id`: 400 for a refused body, 404 exactly when the update finds no row, otherwise 200
      with the row after the defined fields are written; its id never changes. */
  function Put(s: TransactionTable, id: nat, body: Json): (r: Step<Reply<Transaction>, TransactionTable>)
    ensures r.reply.status in {BAD_REQUEST, NOT_FOUND, OK}
    ensures r.reply.status == BAD_REQUEST <==> ParseFields(body).None?
    ensures r.reply.status == BAD_REQUEST ==> r.reply == Invalid()
    ensures r.reply.status == NOT_FOUND <==> ParseFields(body).Some? && id !in s.rows
    ensures r.reply.status == NOT_FOUND ==> r.reply.body == Error("Transaction not found")
    ensures r.reply.status != OK ==> r.table == s
    ensures r.reply.status == OK ==>
              var row := TransactionService.Patched(s.rows[id], ParseFields(body).value);
              && r.reply.body == Payload(row) && row.id == id
              && r.table.rows == s.rows[id := row] && r.table.nextId == s.nextId
  {
    match ParseFields(body)
    case None => Step(Invalid(), s)
    case Some(patch) =>
      var updated := TransactionService.Update(s, id, patch);
      if updated.reply.None? then Step(Reply(NOT_FOUND, Error("Transaction not found")), updated.table)
      else Step(Reply(OK, Payload(updated.reply.value)), updated.table)
  }

  /** `DELETE /:id`: 404 when no row was removed, otherwise a confirmation. */
  function Delete(s: TransactionTable, id: nat): (r: Step<Reply<()>, TransactionTable>)
    ensures r.reply.status in {OK, NOT_FOUND}
    ensures r.reply.status == NOT_FOUND <==> id !in s.rows
    ensures r.reply.status == NOT_FOUND ==> r.reply.body == Error("Transaction not found")
    ensures r.reply.status == OK ==> r.reply.body == Message("Transaction deleted successfully")
    ensures r.table.rows == s.rows - {id}
  {
    var removed := TransactionService.Delete(s, id);
    assert removed.table.rows == s.rows - {id};
    if removed.reply then Step(Reply(OK, Message("Transaction deleted successfully")), removed.table)
    else Step(Reply(NOT_FOUND, Error("Transaction not found")), removed.table)
  }

  /** The schema accepts an empty body, but the insert then binds an undefined amount: the
      handler answers 500 and no transaction is stored. */
  lemma PostWithoutAmountFails(s: TransactionTable, today: string)
    ensures Post(s, JObject(map[]), today) == Step(Failed(), s)
  {
  }

  /** A body holding only a positive amount creates an expense of the day, paid by bank transfer,
      with empty texts. */
  lemma PostDefaults(s: TransactionTable, today: string, amount: int)
    requires amount > 0
    ensures var r := Post(s, JObject(map["amount" := JNumber(amount)]), today);
              && r.reply.status == CREATED
              && r.reply.body.value == TransactionService.Transaction(
                   s.nextId, Expense, today, "", Some(amount), "", "", BANK_TRANSFER, "")
  {
  }

  /** The schema strips keys it does not know. */
  lemma ParseIgnoresUnknownKeys(body: Json, key: string, value: Json)
    requires key !in SCHEMA_KEYS
    ensures ParseFields(With(body, key, value)) == ParseFields(body)
  {
    if body.JObject? {
      var f, g := body.fields, With(body, key, value).fields;
      assert EnumField(g, "type", ParseTransactionType) == EnumField(f, "type", ParseTransactionType);
      assert StringField(g, "date", IsDateText) == StringField(f, "date", IsDateText);
      assert StringField(g, "description", AnyString) == StringField(f, "description", AnyString);
      assert NumberField(g, "amount", Positive) == NumberField(f, "amount", Positive);
      assert StringField(g, "note", AnyString) == StringField(f, "note", AnyString);
      assert StringField(g, "category", AnyString) == StringField(f, "category", AnyString);
      assert StringField(g, "method", AnyString) == StringField(f, "method", AnyString);
      assert StringField(g, "fund", AnyString) == StringField(f, "fund", AnyString);
    }
  }

  /** Keys outside the schema, such as the client's `toFund`, do not change what a POST does. */
  lemma PostIgnoresUnknownKeys(s: TransactionTable, body: Json, today: string, key: string, value: Json)
    requires key !in SCHEMA_KEYS
    ensures Post(s, With(body, key, value), today) == Post(s, body, today)
  {
    ParseIgnoresUnknownKeys(body, key, value);
  }

  /** A created transaction can be fetched by its new id. */
  lemma PostThenShow(s: TransactionTable, body: Json, today: string)
    requires Post(s, body, today).reply.status == CREATED
    ensures var r := Post(s, body, today);
              Show(r.table, r.reply.body.value.id) == Reply(OK, r.reply.body)
  {
  }

  /** A listing answered with 200 never holds more than 100 transactions. */
  lemma ListBounded(s: TransactionTable, page: Option<string>, pageSize: Option<string>)
    requires List(s, page, pageSize).status == OK
    ensures |List(s, page, pageSize).body.value.data| <= MAX_PAGE_SIZE
  {
  }

  /** A PUT with an empty body answers with the current row and writes nothing. */
  lemma PutEmptyBody(s: TransactionTable, id: nat)
    requires id in s.rows
    ensures Put(s, id, JObject(map[])) == Step(Reply(OK, Payload(s.rows[id])), s)
  {
    assert ParseFields(JObject(map[])).value.NoColumns();
  }

  /** An `id` key in the body is stripped by the schema, so it cannot move a row. */
  lemma PutIgnoresId(s: TransactionTable, id: nat, body: Json, value: Json)
    ensures Put(s, id, With(body, "id", value)) == Put(s, id, body)
  {
    ParseIgnoresUnknownKeys(body, "id", value);
  }

  /** A second delete of the same id finds nothing. */
  lemma DeleteTwice(s: TransactionTable, id: nat)
    requires id in s.rows
    ensures Delete(s, id).reply.status == OK
    ensures Delete(Delete(s, id).table, id).reply.status == NOT_FOUND
    ensures Show(Delete(s, id).table, id).status == NOT_FOUND
  {
  }
}
