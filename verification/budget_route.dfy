/** `BudgetRoute`: the `/budgets` handlers, as functions from the table, the path parameter and
    the JSON body to the response and the table afterwards. The path id is taken as already
    converted to the number the `WHERE id = ?` comparison matches. */
module BudgetRoute {
  import opened Wrappers
  import opened Enums
  import opened Schema
  import opened Http
  import opened Store
  import BudgetService

  type Budget = BudgetService.Budget
  type BudgetInput = BudgetService.BudgetInput
  type BudgetFields = BudgetService.BudgetFields
  type BudgetTable = BudgetService.BudgetTable

  /** `budgetSchema`: a string `name`, a positive `amount`, `start_date` and `end_date` of the form
      `dddd-dd-dd`, a number `spent` that is 0 when missing, a `status` that is `Active` when
      missing, and optional strings `note`, `category` and `fund`. */
  function ParseBudget(body: Json): (r: Option<BudgetInput>)
    ensures r.Some? <==>
              && body.JObject?
              && "name" in body.fields && body.fields["name"].JString?
              && "amount" in body.fields && body.fields["amount"].JNumber? && body.fields["amount"].n > 0
              && ("spent" in body.fields ==> body.fields["spent"].JNumber?)
              && "start_date" in body.fields && body.fields["start_date"].JString?
              && IsDateText(body.fields["start_date"].s)
              && "end_date" in body.fields && body.fields["end_date"].JString?
              && IsDateText(body.fields["end_date"].s)
              && ("status" in body.fields ==>
                    body.fields["status"].JString? && body.fields["status"].s in {"Active", "Inactive", "Completed"})
              && OptionalString(body.fields, "note", AnyString)
              && OptionalString(body.fields, "category", AnyString)
              && OptionalString(body.fields, "fund", AnyString)
    ensures r.Some? ==>
              && r.value.name == body.fields["name"].s
              && r.value.amount == body.fields["amount"].n
              && r.value.spent == (if "spent" in body.fields then body.fields["spent"].n else 0)
              && r.value.startDate == body.fields["start_date"].s
              && r.value.endDate == body.fields["end_date"].s
              && StatusName(r.value.status) == (if "status" in body.fields then body.fields["status"].s else "Active")
              && CarriesString(body.fields, "note", r.value.note)
              && CarriesString(body.fields, "category", r.value.category)
              && CarriesString(body.fields, "fund", r.value.fund)
  {
    if !body.JObject? then None
    else
      var f := body.fields;
      var name := StringField(f, "name", AnyString);
      var amount := NumberField(f, "amount", Positive);
      var spent := NumberField(f, "spent", AnyNumber);
      var start := StringField(f, "start_date", IsDateText);
      var end := StringField(f, "end_date", IsDateText);
      var status := EnumField(f, "status", ParseBudgetStatus);
      var note := StringField(f, "note", AnyString);
      var category := StringField(f, "category", AnyString);
      var fund := StringField(f, "fund", AnyString);
      if name.Valid? && amount.Valid? && Passes(spent) && start.Valid? && end.Valid? && Passes(status)
         && Passes(note) && Passes(category) && Passes(fund)
      then Some(BudgetService.BudgetInput(
             name.value, amount.value, spent.ToOption().GetOr(0), start.value, end.value,
             status.ToOption().GetOr(Active), note.ToOption(), category.ToOption(), fund.ToOption()))
      else None
  }

  /** `budgetSchema.partial()`: every key may be missing and a missing key stays undefined (the
      defaults of `spent` and `status` do not apply); a present key must pass its check. */
  function ParsePatch(body: Json): (r: Option<BudgetFields>)
    ensures r.Some? <==>
              && body.JObject?
              && OptionalString(body.fields, "name", AnyString)
              && ("amount" in body.fields ==> body.fields["amount"].JNumber? && body.fields["amount"].n > 0)
              && ("spent" in body.fields ==> body.fields["spent"].JNumber?)
              && OptionalString(body.fields, "start_date", IsDateText)
              && OptionalString(body.fields, "end_date", IsDateText)
              && ("status" in body.fields ==>
                    body.fields["status"].JString? && body.fields["status"].s in {"Active", "Inactive", "Completed"})
              && OptionalString(body.fields, "note", AnyString)
              && OptionalString(body.fields, "category", AnyString)
              && OptionalString(body.fields, "fund", AnyString)
    ensures r.Some? ==>
              && r.value.id.None?
              && CarriesString(body.fields, "name", r.value.name)
              && (r.value.amount.Some? <==> "amount" in body.fields)
              && (r.value.amount.Some? ==> r.value.amount.value == body.fields["amount"].n)
              && (r.value.spent.Some? <==> "spent" in body.fields)
              && (r.value.spent.Some? ==> r.value.spent.value == body.fields["spent"].n)
              && CarriesString(body.fields, "start_date", r.value.startDate)
              && CarriesString(body.fields, "end_date", r.value.endDate)
              && (r.value.status.Some? <==> "status" in body.fields)
              && (r.value.status.Some? ==> StatusName(r.value.status.value) == body.fields["status"].s)
              && CarriesString(body.fields, "note", r.value.note)
              && CarriesString(body.fields, "category", r.value.category)
              && CarriesString(body.fields, "fund", r.value.fund)
  {
    if !body.JObject? then None
    else
      var f := body.fields;
      var name := StringField(f, "name", AnyString);
      var amount := NumberField(f, "amount", Positive);
      var spent := NumberField(f, "spent", AnyNumber);
      var start := StringField(f, "start_date", IsDateText);
      var end := StringField(f, "end_date", IsDateText);
      var status := EnumField(f, "status", ParseBudgetStatus);
      var note := StringField(f, "note", AnyString);
      var category := StringField(f, "category", AnyString);
      var fund := StringField(f, "fund", AnyString);
      if Passes(name) && Passes(amount) && Passes(spent) && Passes(start) && Passes(end) && Passes(status)
         && Passes(note) && Passes(category) && Passes(fund)
      then Some(BudgetService.BudgetFields(
             None, name.ToOption(), amount.ToOption(), spent.ToOption(), start.ToOption(), end.ToOption(),
             status.ToOption(), note.ToOption(), category.ToOption(), fund.ToOption()))
      else None
  }

  /** `POST /`: 400 for a body the schema refuses, 500 when it leaves out a note, a category or a
      fund (the insert binds `undefined`), otherwise 201 with the inserted budget; the two errors
      write nothing. */
  function Post(s: BudgetTable, body: Json): (r: Step<Reply<Budget>, BudgetTable>)
    ensures r.reply.status in {BAD_REQUEST, SERVER_ERROR, CREATED}
    ensures r.reply.status == BAD_REQUEST <==> ParseBudget(body).None?
    ensures r.reply.status == BAD_REQUEST ==> r.reply == Invalid() && r.table == s
    ensures r.reply.status == SERVER_ERROR <==>
              ParseBudget(body).Some? && !BudgetService.AllBound(ParseBudget(body).value)
    ensures r.reply.status == SERVER_ERROR ==> r.reply == Failed() && r.table == s
    ensures r.reply.status == CREATED ==>
              && r.reply.body.Payload?
              && BudgetService.InputOf(r.reply.body.value) == ParseBudget(body).value
              && r.reply.body.value.id == s.nextId && r.reply.body.value.id !in s.rows
              && r.table.rows == s.rows[s.nextId := r.reply.body.value]
  {
    match ParseBudget(body)
    case None => Step(Invalid(), s)
    case Some(input) =>
      var created := BudgetService.Create(s, input);
      if created.reply.Committed? then Step(Reply(CREATED, Payload(created.reply.value)), created.table)
      else Step(Failed(), s)
  }

  /** `GET /`: every budget, latest start first. */
  function List(s: BudgetTable): (r: Reply<seq<Budget>>)
    ensures r.status == OK && r.body.Payload?
    ensures |r.body.value| == |s.rows|
    ensures forall i :: 0 <= i < |r.body.value| ==> BudgetService.Stored(s, r.body.value[i])
    ensures forall i, j :: 0 <= i < j < |r.body.value| ==>
              BudgetService.StartsNotEarlier(r.body.value[i], r.body.value[j])
  {
    Reply(OK, Payload(BudgetService.GetAll(s)))
  }

  /** `GET /:id`: the budget, or 404. */
  function Show(s: BudgetTable, id: nat): (r: Reply<Budget>)
    ensures r.status in {OK, NOT_FOUND}
    ensures r.status == NOT_FOUND <==> id !in s.rows
    ensures r.status == NOT_FOUND ==> r.body == Error("Budget not found")
    ensures r.status == OK ==> r.body == Payload(s.rows[id])
  {
    match BudgetService.GetById(s, id)
    case None => Reply(NOT_FOUND, Error("Budget not found"))
    case Some(b) => Reply(OK, Payload(b))
  }

  /** `PUT /:id`: 400 for a refused body, 404 exactly when the id is unknown, otherwise 200 with the
      budget after the defined fields are written; its id never changes. */
  function Put(s: BudgetTable, id: nat, body: Json): (r: Step<Reply<Budget>, BudgetTable>)
    ensures r.reply.status in {BAD_REQUEST, NOT_FOUND, OK}
    ensures r.reply.status == BAD_REQUEST <==> ParsePatch(body).None?
    ensures r.reply.status == BAD_REQUEST ==> r.reply == Invalid()
    ensures r.reply.status == NOT_FOUND <==> ParsePatch(body).Some? && id !in s.rows
    ensures r.reply.status == NOT_FOUND ==> r.reply.body == Error("Budget not found")
    ensures r.reply.status != OK ==> r.table == s
    ensures r.reply.status == OK ==>
              var row := BudgetService.Patched(s.rows[id], ParsePatch(body).value);
              && r.reply.body == Payload(row) && row.id == id
              && r.table.rows == s.rows[id := row] && r.table.nextId == s.nextId
  {
    match ParsePatch(body)
    case None => Step(Invalid(), s)
    case Some(patch) =>
      var updated := BudgetService.Update(s, id, patch);
      if updated.reply.None? then Step(Reply(NOT_FOUND, Error("Budget not found")), updated.table)
      else Step(Reply(OK, Payload(updated.reply.value)), updated.table)
  }

  /** `DELETE /:id`: 404 when no row was removed, otherwise a confirmation. */
  function Delete(s: BudgetTable, id: nat): (r: Step<Reply<()>, BudgetTable>)
    ensures r.reply.status in {OK, NOT_FOUND}
    ensures r.reply.status == NOT_FOUND <==> id !in s.rows
    ensures r.reply.status == NOT_FOUND ==> r.reply.body == Error("Budget not found")
    ensures r.reply.status == OK ==> r.reply.body == Message("Budget deleted successfully")
    ensures r.table.rows == s.rows - {id}
  {
    var removed := BudgetService.Delete(s, id);
    assert removed.table.rows == s.rows - {id};
    if removed.reply then Step(Reply(OK, Message("Budget deleted successfully")), removed.table)
    else Step(Reply(NOT_FOUND, Error("Budget not found")), removed.table)
  }

  /** A budget created without `spent` and `status` starts with nothing spent and is active. */
  lemma PostDefaults(s: BudgetTable, body: Json)
    requires body.JObject? && "spent" !in body.fields && "status" !in body.fields
    requires Post(s, body).reply.status == CREATED
    ensures Post(s, body).reply.body.value.spent == 0
    ensures Post(s, body).reply.body.value.status == Active
  {
    assert StatusName(ParseBudget(body).value.status) == "Active";
  }

  /** A body the schema accepts without a note, a category or a fund binds `undefined` into the
      insert: the handler answers 500 and no budget is stored. */
  lemma PostWithoutOptionalFails(s: BudgetTable, body: Json)
    requires body.JObject? && ParseBudget(body).Some?
    requires "note" !in body.fields || "category" !in body.fields || "fund" !in body.fields
    ensures Post(s, body) == Step(Failed(), s)
  {
  }

  /** A PUT that leaves out `spent` and `status` keeps the stored values: the partial schema has
      no defaults. */
  lemma PutKeepsUnsentDefaults(s: BudgetTable, id: nat, body: Json)
    requires body.JObject? && "spent" !in body.fields && "status" !in body.fields
    requires Put(s, id, body).reply.status == OK
    ensures Put(s, id, body).reply.body.value.spent == s.rows[id].spent
    ensures Put(s, id, body).reply.body.value.status == s.rows[id].status
  {
  }

  /** A PUT with an empty body answers with the current budget and writes nothing. */
  lemma PutEmptyBody(s: BudgetTable, id: nat)
    requires id in s.rows
    ensures Put(s, id, JObject(map[])) == Step(Reply(OK, Payload(s.rows[id])), s)
  {
    assert ParsePatch(JObject(map[])).value.NoColumns();
  }

  /** A created budget can be fetched by its new id. */
  lemma PostThenShow(s: BudgetTable, body: Json)
    requires Post(s, body).reply.status == CREATED
    ensures var r := Post(s, body);
              Show(r.table, r.reply.body.value.id) == Reply(OK, r.reply.body)
  {
  }

  /** After a delete the id answers 404 to every handler that takes one. */
  lemma DeleteThenNotFound(s: BudgetTable, id: nat, body: Json)
    requires id in s.rows && ParsePatch(body).Some?
    ensures Delete(s, id).reply.status == OK
    ensures var after := Delete(s, id).table;
              && Show(after, id).status == NOT_FOUND
              && Put(after, id, body).reply.status == NOT_FOUND
              && Delete(after, id).reply.status == NOT_FOUND
  {
  }
}
