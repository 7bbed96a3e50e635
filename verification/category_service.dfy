/** `CategoryService`: the `categories` table, keyed by its `name` column. */
module CategoryService {
  import opened Wrappers
  import opened Enums
  import opened Seqs
  import opened StringOrder
  import opened Paging
  import opened Store

  /** A row of `categories`; `kind` is the `type` column. */
  datatype Category = Category(name: string, kind: CategoryType)

  /** The table: every row is stored under its own name, so names are unique. */
  type CategoryTable = t: map<string, Category> | forall k :: k in t ==> t[k].name == k witness map[]

  /** `Partial<Category>`: the columns an update writes; `None` is `undefined`. */
  datatype CategoryPatch = CategoryPatch(name: Option<string>, kind: Option<CategoryType>) {
    predicate IsEmpty() {
      name.None? && kind.None?
    }
  }

  /** `create`: `INSERT INTO categories (name, type)`. The insert fails on a name in use. */
  function Create(t: CategoryTable, c: Category): (r: Step<Outcome<Category>, CategoryTable>)
    ensures c.name in t ==> r.reply.ConstraintViolation? && r.table == t
    ensures c.name !in t ==> r.reply == Committed(c) && c.name in r.table && r.table[c.name] == c
    ensures c.name !in t ==> r.table.Keys == t.Keys + {c.name}
    ensures forall k :: k in t ==> k in r.table && r.table[k] == t[k]
  {
    if c.name in t then Step(ConstraintViolation, t) else Step(Committed(c), t[c.name := c])
  }

  /** `c` is the row the table holds under its name. */
  predicate Stored(t: CategoryTable, c: Category) {
    c.name in t && t[c.name] == c
  }

  /** `a` sorts before `b` under `ORDER BY name ASC`. */
  predicate NameBefore(a: Category, b: Category) {
    Less(a.name, b.name)
  }

  /** Every row, `ORDER BY name ASC`. */
  function Ordered(t: CategoryTable): (r: seq<Category>)
    ensures |r| == |t|
    ensures forall i :: 0 <= i < |r| ==> Stored(t, r[i])
    ensures forall i, j :: 0 <= i < j < |r| ==> NameBefore(r[i], r[j])
  {
    RowsByName(t, (c: Category) => c.name)
  }

  /** The listing leaves no row out. */
  lemma OrderedComplete(t: CategoryTable, name: string)
    requires name in t
    ensures t[name] in Ordered(t)
  {
    RowsByNameComplete(t, (c: Category) => c.name, name);
  }

  /** `getAll(page, pageSize)`: one page of the name-ordered rows and the pagination metadata. */
  function GetAll(t: CategoryTable, page: nat, pageSize: nat): (r: Paged<Category>)
    requires page >= 1 && pageSize >= 1
    ensures IsPageOf(r, Ordered(t), page, pageSize) && r.total == |t|
  {
    Paginate(Ordered(t), page, pageSize)
  }

  /** A page lists stored rows only. */
  lemma GetAllStored(t: CategoryTable, page: nat, pageSize: nat)
    requires page >= 1 && pageSize >= 1
    ensures var data := GetAll(t, page, pageSize).data;
              forall i :: 0 <= i < |data| ==> Stored(t, data[i])
  {
    PageKeeps(Ordered(t), page, pageSize, c => Stored(t, c));
  }

  /** A page lists its rows in ascending name order. */
  lemma GetAllSorted(t: CategoryTable, page: nat, pageSize: nat)
    requires page >= 1 && pageSize >= 1
    ensures var data := GetAll(t, page, pageSize).data;
              forall i, j :: 0 <= i < j < |data| ==> NameBefore(data[i], data[j])
  {
    PageOrdered(Ordered(t), page, pageSize, NameBefore);
  }

  /** `getByType(type)`: the rows of that type, `ORDER BY name ASC`. */
  function GetByType(t: CategoryTable, kind: CategoryType): (r: seq<Category>)
    ensures forall i :: 0 <= i < |r| ==> Stored(t, r[i]) && r[i].kind == kind
  {
    var all := Ordered(t);
    FilterKeeps(all, (c: Category) => c.kind == kind, c => Stored(t, c));
    Filter(all, (c: Category) => c.kind == kind)
  }

  /** The rows of a type are listed in ascending name order. */
  lemma GetByTypeSorted(t: CategoryTable, kind: CategoryType)
    ensures forall i, j :: 0 <= i < j < |GetByType(t, kind)| ==> NameBefore(GetByType(t, kind)[i], GetByType(t, kind)[j])
  {
    FilterOrdered(Ordered(t), (c: Category) => c.kind == kind, NameBefore);
  }

  /** Every row of the type is listed. */
  lemma GetByTypeComplete(t: CategoryTable, kind: CategoryType, name: string)
    requires name in t && t[name].kind == kind
    ensures t[name] in GetByType(t, kind)
  {
    OrderedComplete(t, name);
    FilterMembers(Ordered(t), (c: Category) => c.kind == kind);
  }

  /** The rows of a type are all the stored categories of that type, in ascending name order. */
  lemma GetByTypeExactly(t: CategoryTable, kind: CategoryType)
    ensures forall name :: name in t && t[name].kind == kind ==> t[name] in GetByType(t, kind)
    ensures forall i, j :: 0 <= i < j < |GetByType(t, kind)| ==> NameBefore(GetByType(t, kind)[i], GetByType(t, kind)[j])
  {
    forall name | name in t && t[name].kind == kind
      ensures t[name] in GetByType(t, kind)
    {
      GetByTypeComplete(t, kind, name);
    }
    GetByTypeSorted(t, kind);
  }

  /** `getByName(name)`: the row, or `null`. */
  function GetByName(t: CategoryTable, name: string): (r: Option<Category>)
    ensures r.Some? <==> name in t
    ensures r.Some? ==> r.value == t[name] && r.value.name == name
  {
    if name in t then Some(t[name]) else None
  }

  /** `update(oldName, patch)`: `null` for an unknown name; the current row, unwritten, for a patch
      with no defined field; otherwise `UPDATE ... SET <defined columns> WHERE name = oldName`,
      which moves the row to its new name and fails if another row already has that name. */
  function Update(t: CategoryTable, oldName: string, patch: CategoryPatch)
    : (r: Step<Outcome<Option<Category>>, CategoryTable>)
    ensures oldName !in t ==> r.reply == Committed(None) && r.table == t
    ensures oldName in t && patch.IsEmpty() ==> r.reply == Committed(Some(t[oldName])) && r.table == t
    ensures r.reply.ConstraintViolation? <==>
              oldName in t && patch.name.Some? && patch.name.value != oldName && patch.name.value in t
    ensures r.reply.ConstraintViolation? ==> r.table == t
    ensures oldName in t && !r.reply.ConstraintViolation? ==> r.reply.Committed? && r.reply.value.Some?
    ensures oldName in t && !patch.IsEmpty() && r.reply.Committed? ==>
              && r.reply.value.Some?
              && r.reply.value.value.name == patch.name.GetOr(oldName)
              && r.reply.value.value.kind == patch.kind.GetOr(t[oldName].kind)
              && r.table.Keys == t.Keys - {oldName} + {r.reply.value.value.name}
              && r.table[r.reply.value.value.name] == r.reply.value.value
    ensures forall k :: k in t && k != oldName ==> k in r.table && r.table[k] == t[k]
  {
    if oldName !in t then Step(Committed(None), t)
    else if patch.IsEmpty() then Step(Committed(Some(t[oldName])), t)
    else
      var current := t[oldName];
      var row := Category(patch.name.GetOr(current.name), patch.kind.GetOr(current.kind));
      if row.name != oldName && row.name in t then Step(ConstraintViolation, t)
      else Step(Committed(Some(row)), (t - {oldName})[row.name := row])
  }

  /** `delete(name)`: `true` exactly when a row was removed. */
  function Delete(t: CategoryTable, name: string): (r: Step<bool, CategoryTable>)
    ensures r.reply <==> name in t
    ensures r.table.Keys == t.Keys - {name}
    ensures forall k :: k in r.table ==> r.table[k] == t[k]
  {
    Step(name in t, t - {name})
  }

  /** A created category can be read back under its name. */
  lemma CreateThenGet(t: CategoryTable, c: Category)
    requires c.name !in t
    ensures GetByName(Create(t, c).table, c.name) == Some(c)
  {
  }

  /** After a delete the name is unknown, and the other rows can still be read. */
  lemma DeleteThenGet(t: CategoryTable, name: string, other: string)
    requires other != name
    ensures GetByName(Delete(t, name).table, name).None?
    ensures GetByName(Delete(t, name).table, other) == GetByName(t, other)
  {
  }

  /** Every row of the table is on page `i / pageSize + 1` of the listing, where `i` is its
      rank by name. */
  lemma EveryRowListed(t: CategoryTable, name: string, pageSize: nat)
    requires name in t && pageSize >= 1
    ensures exists page: nat, i: nat :: 1 <= page <= TotalPages(|t|, pageSize)
              && i < |GetAll(t, page, pageSize).data| && GetAll(t, page, pageSize).data[i] == t[name]
  {
    OrderedComplete(t, name);
    var k :| 0 <= k < |Ordered(t)| && Ordered(t)[k] == t[name];
    var page, i := ListedAt(Ordered(t), pageSize, k);
    assert GetAll(t, page, pageSize).data[i] == t[name];
  }
}
