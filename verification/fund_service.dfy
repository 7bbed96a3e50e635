/** `FundService`: the `funds` table, keyed by its `name` column. */
module FundService {
  import opened Wrappers
  import opened StringOrder
  import opened Paging
  import opened Store

  /** A row of `funds`; a fund created without a description has `NULL` there. */
  datatype Fund = Fund(name: string, description: Option<string>)

  /** The table: every row is stored under its own name, so names are unique. */
  type FundTable = t: map<string, Fund> | forall k :: k in t ==> t[k].name == k witness map[]

  /** `Partial<Fund>`: the columns an update writes; `None` is `undefined`. */
  datatype FundPatch = FundPatch(name: Option<string>, description: Option<string>) {
    predicate IsEmpty() {
      name.None? && description.None?
    }
  }

  /** `f` is the row the table holds under its name. */
  predicate Stored(t: FundTable, f: Fund) {
    f.name in t && t[f.name] == f
  }

  /** `a` sorts before `b` under `ORDER BY name ASC`. */
  predicate NameBefore(a: Fund, b: Fund) {
    Less(a.name, b.name)
  }

  /** `create`: `INSERT INTO funds (name, description)`. An undefined description cannot be
      bound, and the insert fails on a name in use; nothing is written then. */
  function Create(t: FundTable, f: Fund): (r: Step<Outcome<Fund>, FundTable>)
    ensures f.description.None? <==> r.reply.UndefinedBind?
    ensures f.description.None? ==> r.table == t
    ensures f.description.Some? && f.name in t ==> r.reply.ConstraintViolation? && r.table == t
    ensures f.description.Some? && f.name !in t ==> r.reply == Committed(f) && Stored(r.table, f)
    ensures f.description.Some? && f.name !in t ==> r.table.Keys == t.Keys + {f.name}
    ensures forall k :: k in t ==> k in r.table && r.table[k] == t[k]
  {
    if f.description.None? then Step(UndefinedBind, t)
    else if f.name in t then Step(ConstraintViolation, t)
    else Step(Committed(f), t[f.name := f])
  }

  /** Every row, `ORDER BY name ASC`. */
  function Ordered(t: FundTable): (r: seq<Fund>)
    ensures |r| == |t|
    ensures forall i :: 0 <= i < |r| ==> Stored(t, r[i])
    ensures forall i, j :: 0 <= i < j < |r| ==> NameBefore(r[i], r[j])
  {
    RowsByName(t, (f: Fund) => f.name)
  }

  /** The listing leaves no row out. */
  lemma OrderedComplete(t: FundTable, name: string)
    requires name in t
    ensures t[name] in Ordered(t)
  {
    RowsByNameComplete(t, (f: Fund) => f.name, name);
  }

  /** `getAll(page, pageSize)`: one page of the name-ordered rows and the pagination metadata. */
  function GetAll(t: FundTable, page: nat, pageSize: nat): (r: Paged<Fund>)
    requires page >= 1 && pageSize >= 1
    ensures IsPageOf(r, Ordered(t), page, pageSize) && r.total == |t|
  {
    Paginate(Ordered(t), page, pageSize)
  }

  /** A page lists stored rows only. */
  lemma GetAllStored(t: FundTable, page: nat, pageSize: nat)
    requires page >= 1 && pageSize >= 1
    ensures var data := GetAll(t, page, pageSize).data;
              forall i :: 0 <= i < |data| ==> Stored(t, data[i])
  {
    PageKeeps(Ordered(t), page, pageSize, f => Stored(t, f));
  }

  /** A page lists its rows in ascending name order. */
  lemma GetAllSorted(t: FundTable, page: nat, pageSize: nat)
    requires page >= 1 && pageSize >= 1
    ensures var data := GetAll(t, page, pageSize).data;
              forall i, j :: 0 <= i < j < |data| ==> NameBefore(data[i], data[j])
  {
    PageOrdered(Ordered(t), page, pageSize, NameBefore);
  }

  /** `getByName(name)`: the row, or `null`. */
  function GetByName(t: FundTable, name: string): (r: Option<Fund>)
    ensures r.Some? <==> name in t
    ensures r.Some? ==> r.value == t[name] && r.value.name == name
  {
    if name in t then Some(t[name]) else None
  }

  /** `update(oldName, patch)`: `null` for an unknown name; the current row, unwritten, for a patch
      with no defined field; otherwise `UPDATE ... SET <defined columns> WHERE name = oldName`,
      which moves the row to its new name and fails if another row already has that name. */
  function Update(t: FundTable, oldName: string, patch: FundPatch): (r: Step<Outcome<Option<Fund>>, FundTable>)
    ensures oldName !in t ==> r.reply == Committed(None) && r.table == t
    ensures oldName in t && patch.IsEmpty() ==> r.reply == Committed(Some(t[oldName])) && r.table == t
    ensures r.reply.ConstraintViolation? <==>
              oldName in t && patch.name.Some? && patch.name.value != oldName && patch.name.value in t
    ensures r.reply.ConstraintViolation? ==> r.table == t
    ensures oldName in t && !r.reply.ConstraintViolation? ==> r.reply.Committed? && r.reply.value.Some?
    ensures oldName in t && !patch.IsEmpty() && r.reply.Committed? ==>
              && r.reply.value.Some?
              && r.reply.value.value.name == patch.name.GetOr(oldName)
              && r.reply.value.value.description ==
                   (if patch.description.Some? then patch.description else t[oldName].description)
              && r.table.Keys == t.Keys - {oldName} + {r.reply.value.value.name}
              && Stored(r.table, r.reply.value.value)
    ensures forall k :: k in t && k != oldName ==> k in r.table && r.table[k] == t[k]
  {
    if oldName !in t then Step(Committed(None), t)
    else if patch.IsEmpty() then Step(Committed(Some(t[oldName])), t)
    else
      var current := t[oldName];
      var row := Fund(patch.name.GetOr(current.name),
                      if patch.description.Some? then patch.description else current.description);
      if row.name != oldName && row.name in t then Step(ConstraintViolation, t)
      else Step(Committed(Some(row)), (t - {oldName})[row.name := row])
  }

  /** `delete(name)`: `true` exactly when a row was removed. */
  function Delete(t: FundTable, name: string): (r: Step<bool, FundTable>)
    ensures r.reply <==> name in t
    ensures r.table.Keys == t.Keys - {name}
    ensures forall k :: k in r.table ==> r.table[k] == t[k]
  {
    Step(name in t, t - {name})
  }

  /** A created fund can be read back under its name; without a description nothing is created. */
  lemma CreateThenGet(t: FundTable, f: Fund)
    requires f.name !in t
    ensures f.description.Some? ==> GetByName(Create(t, f).table, f.name) == Some(f)
    ensures f.description.None? ==> GetByName(Create(t, f).table, f.name).None?
  {
  }

  /** After a delete the name is unknown, and the other rows can still be read. */
  lemma DeleteThenGet(t: FundTable, name: string, other: string)
    requires other != name
    ensures GetByName(Delete(t, name).table, name).None?
    ensures GetByName(Delete(t, name).table, other) == GetByName(t, other)
  {
  }

  /** Every row of the table is on some page of the listing that exists. */
  lemma EveryRowListed(t: FundTable, name: string, pageSize: nat)
    requires name in t && pageSize >= 1
    ensures exists page: nat, i: nat :: 1 <= page <= TotalPages(|t|, pageSize)
              && i < |GetAll(t, page, pageSize).data| && GetAll(t, page, pageSize).data[i] == t[name]
  {
    OrderedComplete(t, name);
    var k :| 0 <= k < |Ordered(t)| && Ordered(t)[k] == t[name];
    var page, i := ListedAt(Ordered(t), pageSize, k);
    assert GetAll(t, page, pageSize).data[i] == t[name];
  }
}
