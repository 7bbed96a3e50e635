/** `FundRoute`: the `/funds` handlers, as functions from the table, the path parameter, the
    query and the JSON body to the response and the table afterwards. */
module FundRoute {
  import opened Wrappers
  import opened Schema
  import opened Http
  import opened Paging
  import opened Store
  import FundService

  type Fund = FundService.Fund
  type FundTable = FundService.FundTable
  type FundPatch = FundService.FundPatch

  /** `fundSchema`: `name` a non-empty string and an optional string `description`. */
  function ParseFund(body: Json): (r: Option<Fund>)
    ensures r.Some? <==>
              && body.JObject?
              && "name" in body.fields && body.fields["name"].JString? && |body.fields["name"].s| >= 1
              && ("description" in body.fields ==> body.fields["description"].JString?)
    ensures r.Some? ==> r.value.name == body.fields["name"].s
    ensures r.Some? ==> (r.value.description.Some? <==> "description" in body.fields)
    ensures r.Some? && r.value.description.Some? ==> r.value.description.value == body.fields["description"].s
  {
    if !body.JObject? then None
    else
      var name := StringField(body.fields, "name", NonEmpty);
      var description := StringField(body.fields, "description", AnyString);
      if name.Valid? && Passes(description) then Some(FundService.Fund(name.value, description.ToOption()))
      else None
  }

  /** `fundSchema.partial()`: each key may be missing, but a present one must pass its check. */
  function ParsePatch(body: Json): (r: Option<FundPatch>)
    ensures r.Some? <==>
              && body.JObject?
              && ("name" in body.fields ==> body.fields["name"].JString? && |body.fields["name"].s| >= 1)
              && ("description" in body.fields ==> body.fields["description"].JString?)
    ensures r.Some? ==>
              && (r.value.name.Some? <==> "name" in body.fields)
              && (r.value.description.Some? <==> "description" in body.fields)
    ensures r.Some? && r.value.name.Some? ==> r.value.name.value == body.fields["name"].s
    ensures r.Some? && r.value.description.Some? ==> r.value.description.value == body.fields["description"].s
  {
    if !body.JObject? then None
    else
      var name := StringField(body.fields, "name", NonEmpty);
      var description := StringField(body.fields, "description", AnyString);
      if Passes(name) && Passes(description) then
        Some(FundService.FundPatch(name.ToOption(), description.ToOption()))
      else None
  }

  /** `POST /`: 400 for a body the schema refuses, 409 with nothing written for a name in use,
      500 with nothing written when the body has no description (the insert binds `undefined`),
      otherwise 201 with the inserted fund. */
  function Post(t: FundTable, body: Json): (r: Step<Reply<Fund>, FundTable>)
    ensures r.reply.status in {BAD_REQUEST, CONFLICT, SERVER_ERROR, CREATED}
    ensures r.reply.status == BAD_REQUEST <==> ParseFund(body).None?
    ensures r.reply.status == BAD_REQUEST ==> r.reply == Invalid() && r.table == t
    ensures r.reply.status == CONFLICT <==> ParseFund(body).Some? && ParseFund(body).value.name in t
    ensures r.reply.status == CONFLICT ==> r.reply.body == Error("Fund with this name already exists") && r.table == t
    ensures r.reply.status == SERVER_ERROR <==>
              ParseFund(body).Some? && ParseFund(body).value.name !in t && ParseFund(body).value.description.None?
    ensures r.reply.status == SERVER_ERROR ==> r.reply == Failed() && r.table == t
    ensures r.reply.status == CREATED ==>
              var f := ParseFund(body).value;
              r.reply.body == Payload(f) && r.table == t[f.name := f]
  {
    match ParseFund(body)
    case None => Step(Invalid(), t)
    case Some(f) =>
      if FundService.GetByName(t, f.name).Some? then
        Step(Reply(CONFLICT, Error("Fund with this name already exists")), t)
      else
        var created := FundService.Create(t, f);
        if created.reply.Committed? then Step(Reply(CREATED, Payload(created.reply.value)), created.table)
        else Step(Failed(), t)
  }

  /** `GET /?page&pageSize`: 400 for a page or page size out of range, otherwise one page of the
      name-ordered funds. */
  function List(t: FundTable, page: Option<string>, pageSize: Option<string>): (r: Reply<Paged<Fund>>)
    ensures r.status in {OK, BAD_REQUEST}
    ensures r.status == OK <==> CheckPaging(page, pageSize).Accepted?
    ensures r.status == OK ==>
              var q := CheckPaging(page, pageSize);
              r.body == Payload(FundService.GetAll(t, q.page, q.pageSize))
    ensures r.status == BAD_REQUEST ==> r.body == Error(CheckPaging(page, pageSize).message)
  {
    match CheckPaging(page, pageSize)
    case Rejected(message) => Reply(BAD_REQUEST, Error(message))
    case Accepted(p, size) => Reply(OK, Payload(FundService.GetAll(t, p, size)))
  }

  /** `GET /:name`: the fund, or 404. */
  function Show(t: FundTable, name: string): (r: Reply<Fund>)
    ensures r.status in {OK, NOT_FOUND}
    ensures r.status == NOT_FOUND <==> name !in t
    ensures r.status == NOT_FOUND ==> r.body == Error("Fund not found")
    ensures r.status == OK ==> r.body == Payload(t[name]) && r.body.value.name == name
  {
    match FundService.GetByName(t, name)
    case None => Reply(NOT_FOUND, Error("Fund not found"))
    case Some(f) => Reply(OK, Payload(f))
  }

  /** The patch gives the row a different, non-empty name (`updates.name && updates.name !== name`). */
  predicate Renames(patch: FundPatch, oldName: string) {
    patch.name.Some? && patch.name.value != "" && patch.name.value != oldName
  }

  /** `PUT /:name`: 400 for a refused body, 404 for an unknown name, 409 with nothing written
      when the row would take a name in use, otherwise 200 with the updated row, which has moved
      to its new name. */
  function Put(t: FundTable, oldName: string, body: Json): (r: Step<Reply<Option<Fund>>, FundTable>)
    ensures r.reply.status in {BAD_REQUEST, NOT_FOUND, CONFLICT, OK}
    ensures r.reply.status == BAD_REQUEST <==> ParsePatch(body).None?
    ensures r.reply.status == BAD_REQUEST ==> r.reply == Invalid()
    ensures r.reply.status == NOT_FOUND <==> ParsePatch(body).Some? && oldName !in t
    ensures r.reply.status == NOT_FOUND ==> r.reply.body == Error("Fund not found")
    ensures r.reply.status == CONFLICT <==>
              ParsePatch(body).Some? && oldName in t && Renames(ParsePatch(body).value, oldName)
              && ParsePatch(body).value.name.value in t
    ensures r.reply.status == CONFLICT ==> r.reply.body == Error("Fund with new name already exists")
    ensures r.reply.status != OK ==> r.table == t
    ensures r.reply.status == OK ==>
              var patch := ParsePatch(body).value;
              var current := t[oldName];
              var row := FundService.Fund(patch.name.GetOr(oldName),
                                          if patch.description.Some? then patch.description else current.description);
              r.reply.body == Payload(Some(row)) && r.table == (t - {oldName})[row.name := row]
  {
    match ParsePatch(body)
    case None => Step(Invalid(), t)
    case Some(patch) =>
      if FundService.GetByName(t, oldName).None? then Step(Reply(NOT_FOUND, Error("Fund not found")), t)
      else if Renames(patch, oldName) && FundService.GetByName(t, patch.name.value).Some? then
        Step(Reply(CONFLICT, Error("Fund with new name already exists")), t)
      else
        var updated := FundService.Update(t, oldName, patch);
        assert patch.IsEmpty() ==> (t - {oldName})[oldName := t[oldName]] == t;
        if updated.reply.Committed? then Step(Reply(OK, Payload(updated.reply.value)), updated.table)
        else Step(Failed(), t)
  }

  /** `DELETE /:name`: 404 when no row was removed, otherwise a confirmation. */
  function Delete(t: FundTable, name: string): (r: Step<Reply<()>, FundTable>)
    ensures r.reply.status in {OK, NOT_FOUND}
    ensures r.reply.status == NOT_FOUND <==> name !in t
    ensures r.reply.status == NOT_FOUND ==> r.reply.body == Error("Fund not found")
    ensures r.reply.status == OK ==> r.reply.body == Message("Fund deleted successfully")
    ensures r.table == t - {name}
  {
    var removed := FundService.Delete(t, name);
    if removed.reply then Step(Reply(OK, Message("Fund deleted successfully")), removed.table)
    else Step(Reply(NOT_FOUND, Error("Fund not found")), removed.table)
  }

  /** A created fund can be fetched by its name. */
  lemma PostThenShow(t: FundTable, body: Json)
    requires Post(t, body).reply.status == CREATED
    ensures Show(Post(t, body).table, ParseFund(body).value.name) == Reply(OK, Payload(ParseFund(body).value))
  {
  }

  /** Posting the same fund twice is refused the second time, and writes nothing: with 409 for a
      fund with a description, and with 500 again for one without. */
  lemma PostTwiceConflicts(t: FundTable, body: Json)
    requires ParseFund(body).Some?
    ensures var once := Post(t, body).table;
              && Post(once, body).reply.status in {CONFLICT, SERVER_ERROR} && Post(once, body).table == once
              && (ParseFund(body).value.description.Some? ==> Post(once, body).reply.status == CONFLICT)
  {
  }

  /** A body with a name only, under a free name, binds an undefined description: the handler
      answers 500 and no fund is stored. */
  lemma PostWithoutDescription(t: FundTable, name: string)
    requires name != "" && name !in t
    ensures Post(t, JObject(map["name" := JString(name)])) == Step(Failed(), t)
  {
  }

  /** A body with a name and a description, under a free name, creates exactly that fund. */
  lemma PostWithDescription(t: FundTable, name: string, description: string)
    requires name != "" && name !in t
    ensures var body := JObject(map["name" := JString(name), "description" := JString(description)]);
              Post(t, body) == Step(Reply(CREATED, Payload(FundService.Fund(name, Some(description)))),
                                    t[name := FundService.Fund(name, Some(description))])
  {
  }

  /** A listing answered with 200 never holds more than 100 funds. */
  lemma ListBounded(t: FundTable, page: Option<string>, pageSize: Option<string>)
    requires List(t, page, pageSize).status == OK
    ensures |List(t, page, pageSize).body.value.data| <= MAX_PAGE_SIZE
  {
  }

  /** After a rename the row answers to its new name only. */
  lemma PutRenames(t: FundTable, oldName: string, body: Json)
    requires Put(t, oldName, body).reply.status == OK
    requires ParsePatch(body).value.name.Some? && ParsePatch(body).value.name.value != oldName
    ensures var after := Put(t, oldName, body).table;
              Show(after, oldName).status == NOT_FOUND
              && Show(after, ParsePatch(body).value.name.value).status == OK
  {
  }

  /** A second delete of the same name finds nothing. */
  lemma DeleteTwice(t: FundTable, name: string)
    requires name in t
    ensures Delete(t, name).reply.status == OK
    ensures Delete(Delete(t, name).table, name).reply.status == NOT_FOUND
  {
  }
}
