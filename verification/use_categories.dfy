/** `hooks/useCategories.ts`: the category options of the admin client. The hook fetches page 1
    of at most 100 categories and turns each into a select option, keeping only one type when a
    type is asked for. */
module UseCategories {
  import opened Wrappers
  import opened Enums
  import opened Seqs
  import opened Http
  import opened Schema
  import opened Text
  import opened Js
  import CategoryService
  import CategoryRoute

  type Category = CategoryService.Category

  /** `{ value, label, type }`; `caption` is the label. */
  datatype CategoryOption = CategoryOption(value: string, caption: string, kind: CategoryType)

  /** The option of one category: its name is both value and label. */
  function OptionOf(c: Category): (o: CategoryOption)
    ensures o.value == c.name && o.caption == c.name && o.kind == c.kind
  {
    CategoryOption(c.name, c.name, c.kind)
  }

  /** `data.data.map(...)`. */
  function Options(cs: seq<Category>): (r: seq<CategoryOption>)
    ensures |r| == |cs|
    ensures forall i :: 0 <= i < |r| ==> r[i] == OptionOf(cs[i])
  {
    if |cs| == 0 then [] else [OptionOf(cs[0])] + Options(cs[1..])
  }

  predicate OfKind(kind: CategoryType, o: CategoryOption) {
    o.kind == kind
  }

  /** `select`: every option, or with a type argument only the options of that type. */
  function Select(cs: seq<Category>, kind: Option<CategoryType>): (r: seq<CategoryOption>)
    ensures kind.None? ==> r == Options(cs)
    ensures kind.Some? ==> forall i :: 0 <= i < |r| ==> r[i].kind == kind.value
    ensures |r| <= |cs|
  {
    match kind
    case None => Options(cs)
    case Some(k) => Filter(Options(cs), o => OfKind(k, o))
  }

  /** With a type, the options kept are exactly those of that type, in the server's order. */
  lemma SelectByKind(cs: seq<Category>, kind: CategoryType)
    ensures IsSubsequence(Select(cs, Some(kind)), Options(cs))
    ensures forall i :: 0 <= i < |cs| && cs[i].kind == kind ==> OptionOf(cs[i]) in Select(cs, Some(kind))
    ensures |Select(cs, Some(kind))| == Count(Options(cs), o => OfKind(kind, o))
  {
    var opts := Options(cs);
    FilterMembers(opts, o => OfKind(kind, o));
    FilterLength(opts, o => OfKind(kind, o));
    assert forall i :: 0 <= i < |cs| ==> opts[i] == OptionOf(cs[i]);
  }

  /** Selecting from a page that starts with `c`: its option comes first exactly when it has the type. */
  lemma SelectCons(c: Category, rest: seq<Category>, kind: CategoryType)
    ensures Select([c] + rest, Some(kind)) ==
              (if c.kind == kind then [OptionOf(c)] else []) + Select(rest, Some(kind))
  {
    assert ([c] + rest)[1..] == rest;
    var opts := Options([c] + rest);
    assert opts[1..] == Options(rest);
  }

  /** The first option selected for a type is the first category of that type on the page. */
  lemma SelectFirst(cs: seq<Category>, kind: CategoryType)
    ensures |Select(cs, Some(kind))| > 0 <==> exists i :: 0 <= i < |cs| && cs[i].kind == kind
    ensures |Select(cs, Some(kind))| > 0 ==>
              exists i :: 0 <= i < |cs| && cs[i].kind == kind && cs[i].name == Select(cs, Some(kind))[0].value
  {
    var opts := Options(cs);
    var kept := Select(cs, Some(kind));
    FilterMembers(opts, o => OfKind(kind, o));
    if exists i :: 0 <= i < |cs| && cs[i].kind == kind {
      var i :| 0 <= i < |cs| && cs[i].kind == kind;
      assert opts[i] in kept;
    }
    if |kept| > 0 {
      assert kept[0] in opts;
      var j :| 0 <= j < |opts| && opts[j] == kept[0];
      assert cs[j].kind == kind && cs[j].name == kept[0].value;
    }
  }

  /** `GET /api/categories?page=1&pageSize=100` is accepted. */
  lemma FetchAccepted(t: CategoryService.CategoryTable)
    ensures CategoryRoute.List(t, Some("1"), Some("100")) ==
              Reply(OK, Payload(CategoryService.GetAll(t, 1, 100)))
  {
    assert Or(Some("1"), "1") == "1" && Or(Some("100"), "10") == "100";
    assert AllDigits("1") && DecimalValue("1") == 1;
    assert "100"[..1] == "1" && "100"[..2] == "10";
    assert AllDigits("100") && DecimalValue("10") == 10 && DecimalValue("100") == 100;
  }

  /** The categories the hook holds for a table: `select` over the first page of 100. */
  function Loaded(t: CategoryService.CategoryTable, kind: Option<CategoryType>): (r: seq<CategoryOption>)
    ensures |r| <= 100
  {
    Select(CategoryService.GetAll(t, 1, 100).data, kind)
  }

  /** Every selected option is the option of a category on the page. */
  lemma SelectFrom(cs: seq<Category>, kind: Option<CategoryType>, i: nat) returns (j: nat)
    requires i < |Select(cs, kind)|
    ensures j < |cs| && Select(cs, kind)[i] == OptionOf(cs[j])
  {
    var opts := Options(cs);
    if kind.Some? {
      FilterMembers(opts, o => OfKind(kind.value, o));
      j :| 0 <= j < |opts| && opts[j] == Select(cs, kind)[i];
    } else {
      j := i;
    }
  }

  /** Every loaded option names a stored category, and with a type argument one of that type. */
  lemma LoadedStored(t: CategoryService.CategoryTable, kind: Option<CategoryType>, i: nat)
    requires i < |Loaded(t, kind)|
    ensures var o := Loaded(t, kind)[i];
              o.value in t && t[o.value].kind == o.kind && o.caption == o.value
              && (kind.Some? ==> o.kind == kind.value)
  {
    var data := CategoryService.GetAll(t, 1, 100).data;
    CategoryService.GetAllStored(t, 1, 100);
    var j := SelectFrom(data, kind, i);
    assert CategoryService.Stored(t, data[j]);
  }
}
