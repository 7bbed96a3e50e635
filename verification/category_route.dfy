/** `CategoryRoute`: the `/categories` handlers. Each one is a function from the table, the path
    parameter, the query and the JSON body to the response and the table afterwards. */
module CategoryRoute {
  import opened Wrappers
  import opened Enums
  import opened Schema
  import opened Http
  import opened Paging
  import opened Store
  import CategoryService

  type Category = CategoryService.Category
  type CategoryTable = CategoryService.CategoryTable
  type CategoryPatch = CategoryService.CategoryPatch

  /** `categorySchema`: `name` a non-empty string and `type` one of `'income'`, `'expense'`. */
  function ParseCategory(body: Json): (r: Option<Category>)
    ensures r.Some? <==>
              && body.JObject?
              && "name" in body.fields && body.fields["name"].JString? && |body.fields["name"].s| >= 1
              && "type" in body.fields && body.fields["type"].JString?
              && body.fields["type"].s in {"income", "expense"}
    ensures r.Some? ==> r.value.name == body.fields["name"].s && TypeName(r.value.kind) == body.fields["type"].s
  {
    if !body.JObject? then None
    else
      var name := StringField(body.fields, "name", NonEmpty);
      var kind := EnumField(body.fields, "type", ParseCategoryType);
      if name.Valid? && kind.Valid? then Some(CategoryService.Category(name.value, kind.value)) else None
  }

  /** `categorySchema.partial()`: each key may be missing, but a present one must pass its check. */
  function ParsePatch(body: Json): (r: Option<CategoryPatch>)
    ensures r.Some? <==>
              && body.JObject?
              && ("name" in body.fields ==> body.fields["name"].JString? && |body.fields["name"].s| >= 1)
              && ("type" in body.fields ==>
                    body.fields["type"].JString? && body.fields["type"].s in {"income", "expense"})
    ensures r.Some? ==> (r.value.name.Some? <==> "name" in body.fields) && (r.value.kind.Some? <==> "type" in body.fields)
    ensures r.Some? && r.value.name.Some? ==> r.value.name.value == body.fields["name"].s
    ensures r.Some? && r.value.kind.Some? ==> TypeName(r.value.kind.value) == body.fields["type"].s
  {
    if !body.JObject? then None
    else
      var name := StringField(body.fields, "name", NonEmpty);
      var kind := EnumField(body.fields, "type", ParseCategoryType);
      if Passes(name) && Passes(kind) then Some(CategoryService.CategoryPatch(name.ToOption(), kind.ToOption()))
      else None
  }

  /** `POST /`: 400 for a body the schema refuses, 409 with nothing written for a name in use,
      otherwise 201 with the inserted category. */
  function Post(t: CategoryTable, body: Json): (r: Step<Reply<Category>, CategoryTable>)
    ensures r.reply.status in {BAD_REQUEST, CONFLICT, CREATED}
    ensures r.reply.status == BAD_REQUEST <==> ParseCategory(body).None?
    ensures r.reply.status == BAD_REQUEST ==> r.reply == Invalid() && r.table == t
    ensures r.reply.status == CONFLICT <==> ParseCategory(body).Some? && ParseCategory(body).value.name in t
    ensures r.reply.status == CONFLICT ==> r.reply.body == Error("Category already exists") && r.table == t
    ensures r.reply.status == CREATED ==>
              var c := ParseCategory(body).value;
              r.reply.body == Payload(c) && r.table == t[c.name := c]
  {
    match ParseCategory(body)
    case None => Step(Invalid(), t)
    case Some(c) =>
      if CategoryService.GetByName(t, c.name).Some? then Step(Reply(CONFLICT, Error("Category already exists")), t)
      else
        var created := CategoryService.Create(t, c);
        if created.reply.Committed? then Step(Reply(CREATED, Payload(created.reply.value)), created.table)
        else Step(Failed(), t)
  }

  /** `GET /?page&pageSize`: 400 for a page or page size out of range, otherwise one page of the
      name-ordered categories. */
  function List(t: CategoryTable, page: Option<string>, pageSize: Option<string>): (r: Reply<Paged<Category>>)
    ensures r.status in {OK, BAD_REQUEST}
    ensures r.status == OK <==> CheckPaging(page, pageSize).Accepted?
    ensures r.status == OK ==>
              var q := CheckPaging(page, pageSize);
              r.body == Payload(CategoryService.GetAll(t, q.page, q.pageSize))
    ensures r.status == BAD_REQUEST ==> r.body == Error(CheckPaging(page, pageSize).message)
  {
    match CheckPaging(page, pageSize)
    case Rejected(message) => Reply(BAD_REQUEST, Error(message))
    case Accepted(p, size) => Reply(OK, Payload(CategoryService.GetAll(t, p, size)))
  }

  /** `GET /type/:type`: 400 for a type other than `income` and `expense`, otherwise every
      stored category of that type, and nothing else, in ascending name order. */
  function ListByType(t: CategoryTable, param: string): (r: Reply<seq<Category>>)
    ensures r.status in {OK, BAD_REQUEST}
    ensures r.status == BAD_REQUEST <==> param != "income" && param != "expense"
    ensures r.status == BAD_REQUEST ==> r.body == Error("Invalid type parameter")
    ensures r.status == OK ==>
              && r.body.Payload?
              && (forall i :: 0 <= i < |r.body.value| ==>
                    CategoryService.Stored(t, r.body.value[i]) && TypeName(r.body.value[i].kind) == param)
              && (forall name :: name in t && TypeName(t[name].kind) == param ==> t[name] in r.body.value)
              && (forall i, j :: 0 <= i < j < |r.body.value| ==>
                    CategoryService.NameBefore(r.body.value[i], r.body.value[j]))
  {
    match ParseCategoryType(param)
    case None => Reply(BAD_REQUEST, Error("Invalid type parameter"))
    case Some(kind) =>
      CategoryService.GetByTypeExactly(t, kind);
      Reply(OK, Payload(CategoryService.GetByType(t, kind)))
  }

  /** `GET /:name`: the category, or 404. */
  function Show(t: CategoryTable, name: string): (r: Reply<Category>)
    ensures r.status in {OK, NOT_FOUND}
    ensures r.status == NOT_FOUND <==> name !in t
    ensures r.status == NOT_FOUND ==> r.body == Error("Category not found")
    ensures r.status == OK ==> r.body == Payload(t[name]) && r.body.value.name == name
  {
    match CategoryService.GetByName(t, name)
    case None => Reply(NOT_FOUND, Error("Category not found"))
    case Some(c) => Reply(OK, Payload(c))
  }

  /** The patch gives the row a different, non-empty name (`updates.name && updates.name !== oldName`). */
  predicate Renames(patch: CategoryPatch, oldName: string) {
    patch.name.Some? && patch.name.value != "" && patch.name.value != oldName
  }

  /** `PUT /:name`: 400 for a refused body, 404 for an unknown name, 409 with nothing written
      when the row would take a name in use, otherwise 200 with the updated row, which has moved
      to its new name. */
  function Put(t: CategoryTable, oldName: string, body: Json): (r: Step<Reply<Option<Category>>, CategoryTable>)
    ensures r.reply.status in {BAD_REQUEST, NOT_FOUND, CONFLICT, OK}
    ensures r.reply.status == BAD_REQUEST <==> ParsePatch(body).None?
    ensures r.reply.status == BAD_REQUEST ==> r.reply == Invalid()
    ensures r.reply.status == NOT_FOUND <==> ParsePatch(body).Some? && oldName !in t
    ensures r.reply.status == NOT_FOUND ==> r.reply.body == Error("Category not found")
    ensures r.reply.status == CONFLICT <==>
              ParsePatch(body).Some? && oldName in t && Renames(ParsePatch(body).value, oldName)
              && ParsePatch(body).value.name.value in t
    ensures r.reply.status == CONFLICT ==> r.reply.body == Error("Category with new name already exists")
    ensures r.reply.status != OK ==> r.table == t
    ensures r.reply.status == OK ==>
              var patch := ParsePatch(body).value;
              var row := CategoryService.Category(patch.name.GetOr(oldName), patch.kind.GetOr(t[oldName].kind));
              r.reply.body == Payload(Some(row)) && r.table == (t - {oldName})[row.name := row]
  {
    match ParsePatch(body)
    case None => Step(Invalid(), t)
    case Some(patch) =>
      if CategoryService.GetByName(t, oldName).None? then Step(Reply(NOT_FOUND, Error("Category not found")), t)
      else if Renames(patch, oldName) && CategoryService.GetByName(t, patch.name.value).Some? then
        Step(Reply(CONFLICT, Error("Category with new name already exists")), t)
      else
        var updated := CategoryService.Update(t, oldName, patch);
        assert patch.IsEmpty() ==> (t - {oldName})[oldName := t[oldName]] == t;
        if updated.reply.Committed? then Step(Reply(OK, Payload(updated.reply.value)), updated.table)
        else Step(Failed(), t)
  }

  /** `DELETE /:name`: 404 when no row was removed, otherwise a confirmation. */
  function Delete(t: CategoryTable, name: string): (r: Step<Reply<()>, CategoryTable>)
    ensures r.reply.status in {OK, NOT_FOUND}
    ensures r.reply.status == NOT_FOUND <==> name !in t
    ensures r.reply.status == NOT_FOUND ==> r.reply.body == Error("Category not found")
    ensures r.reply.status == OK ==> r.reply.body == Message("Category deleted successfully")
    ensures r.table == t - {name}
  {
    var removed := CategoryService.Delete(t, name);
    if removed.reply then Step(Reply(OK, Message("Category deleted successfully")), removed.table)
    else Step(Reply(NOT_FOUND, Error("Category not found")), removed.table)
  }

  /** A created category can be fetched by its name. */
  lemma PostThenShow(t: CategoryTable, body: Json)
    requires Post(t, body).reply.status == CREATED
    ensures Show(Post(t, body).table, ParseCategory(body).value.name) == Reply(OK, Payload(ParseCategory(body).value))
  {
  }

  /** Posting the same category twice is refused the second time, and writes nothing. */
  lemma PostTwiceConflicts(t: CategoryTable, body: Json)
    requires ParseCategory(body).Some?
    ensures var once := Post(t, body).table;
              Post(once, body).reply.status == CONFLICT && Post(once, body).table == once
  {
  }

  /** Keys outside the schema are stripped, so they do not change what a POST does. */
  lemma PostIgnoresUnknownKeys(t: CategoryTable, body: Json, key: string, value: Json)
    requires key != "name" && key != "type"
    ensures Post(t, With(body, key, value)) == Post(t, body)
  {
    assert ParseCategory(With(body, key, value)) == ParseCategory(body);
  }

  /** A listing answered with 200 never holds more than 100 categories. */
  lemma ListBounded(t: CategoryTable, page: Option<string>, pageSize: Option<string>)
    requires List(t, page, pageSize).status == OK
    ensures |List(t, page, pageSize).body.value.data| <= MAX_PAGE_SIZE
  {
  }

  /** Without query parameters the first ten categories are listed. */
  lemma ListDefaults(t: CategoryTable)
    ensures List(t, None, None) == Reply(OK, Payload(CategoryService.GetAll(t, 1, 10)))
  {
    CheckPagingDefaults();
  }

  /** After a rename the row answers to its new name only. */
  lemma PutRenames(t: CategoryTable, oldName: string, body: Json)
    requires Put(t, oldName, body).reply.status == OK
    requires ParsePatch(body).value.name.Some? && ParsePatch(body).value.name.value != oldName
    ensures var after := Put(t, oldName, body).table;
              Show(after, oldName).status == NOT_FOUND
              && Show(after, ParsePatch(body).value.name.value).status == OK
  {
  }

  /** Keeping the current name is not a conflict. */
  lemma PutSameName(t: CategoryTable, oldName: string, kind: CategoryType)
    requires oldName in t && oldName != ""
    ensures Put(t, oldName, JObject(map["name" := JString(oldName), "type" := JString(TypeName(kind))])).reply.status == OK
  {
    var body := JObject(map["name" := JString(oldName), "type" := JString(TypeName(kind))]);
    assert ParsePatch(body).Some?;
  }

  /** A second delete of the same name finds nothing. */
  lemma DeleteTwice(t: CategoryTable, name: string)
    requires name in t
    ensures Delete(t, name).reply.status == OK
    ensures Delete(Delete(t, name).table, name).reply.status == NOT_FOUND
    ensures Show(Delete(t, name).table, name).status == NOT_FOUND
  {
  }
}
