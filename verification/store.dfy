/** What the services have in common: a call returns a value and the table as it is afterwards,
    a write can be refused by a uniqueness constraint, and `ORDER BY` lists rows in a fixed order. */
module Store {
  import opened StringOrder
  import opened Sorting

  /** The value a service call returns and the table after it. */
  datatype Step<+R, +T> = Step(reply: R, table: T)

  /** A write commits, or throws (the route's `catch` turns that into a 500): it is refused
      because it would give two rows the same key, or one of the values bound to its `?`
      placeholders is `undefined`, which D1 rejects with `D1_TYPE_ERROR` before running it. */
  datatype Outcome<+T> = Committed(value: T) | ConstraintViolation | UndefinedBind

  /** The rows stored under `keys`, in the order of `keys`. */
  function RowsAt<K, R>(t: map<K, R>, keys: seq<K>): (r: seq<R>)
    requires forall i :: 0 <= i < |keys| ==> keys[i] in t
    ensures |r| == |keys|
    ensures forall i :: 0 <= i < |r| ==> r[i] == t[keys[i]]
  {
    if |keys| == 0 then [] else [t[keys[0]]] + RowsAt(t, keys[1..])
  }

  /** `ORDER BY name ASC`. */
  function NameOrder(): (string, string) -> bool {
    (a: string, b: string) => LessEq(a, b)
  }

  lemma NameOrderTotal(s: set<string>)
    ensures TotalOrderOn(NameOrder(), s)
  {
    LessEqTotalOrder();
  }

  /** The names in `names`, ascending. */
  function SortedNames(names: set<string>): (r: seq<string>)
    ensures |r| == |names|
    ensures forall i :: 0 <= i < |r| ==> r[i] in names
    ensures forall i, j :: 0 <= i < j < |r| ==> Less(r[i], r[j])
  {
    NameOrderTotal(names);
    SortSet(names, NameOrder())
  }

  lemma SortedNamesComplete(names: set<string>, x: string)
    requires x in names
    ensures x in SortedNames(names)
  {
    NameOrderTotal(names);
  }

  /** The rows of a table keyed by a unique name column, `ORDER BY name ASC`. */
  function RowsByName<R>(t: map<string, R>, name: R -> string): (r: seq<R>)
    requires forall k :: k in t ==> name(t[k]) == k
    ensures |r| == |t|
    ensures forall i :: 0 <= i < |r| ==> name(r[i]) in t && t[name(r[i])] == r[i]
    ensures forall i, j :: 0 <= i < j < |r| ==> Less(name(r[i]), name(r[j]))
  {
    var names := SortedNames(t.Keys);
    assert |t.Keys| == |t|;
    RowsAtNamed(t, name, names);
    RowsAt(t, names)
  }

  lemma RowsAtNamed<R>(t: map<string, R>, name: R -> string, names: seq<string>)
    requires forall k :: k in t ==> name(t[k]) == k
    requires forall i :: 0 <= i < |names| ==> names[i] in t
    requires forall i, j :: 0 <= i < j < |names| ==> Less(names[i], names[j])
    ensures var r := RowsAt(t, names);
              && (forall i :: 0 <= i < |r| ==> name(r[i]) in t && t[name(r[i])] == r[i])
              && (forall i, j :: 0 <= i < j < |r| ==> Less(name(r[i]), name(r[j])))
  {
    var r := RowsAt(t, names);
    forall i | 0 <= i < |r| ensures name(r[i]) == names[i] {
      assert r[i] == t[names[i]];
    }
  }

  /** The name-ordered listing leaves no row out. */
  lemma RowsByNameComplete<R>(t: map<string, R>, name: R -> string, k: string)
    requires forall k :: k in t ==> name(t[k]) == k
    requires k in t
    ensures t[k] in RowsByName(t, name)
  {
    var names := SortedNames(t.Keys);
    SortedNamesComplete(t.Keys, k);
    var i :| 0 <= i < |names| && names[i] == k;
    assert RowsAt(t, names)[i] == t[k];
  }

  /** `ORDER BY <text column> DESC` over rows keyed by id, `key` giving the column. SQL leaves
      the order of equal values open; this model lists them by ascending id. */
  function Descending<R>(rows: map<nat, R>, key: R -> string): (nat, nat) -> bool {
    (a: nat, b: nat) => a in rows && b in rows &&
      (Less(key(rows[b]), key(rows[a])) || (key(rows[a]) == key(rows[b]) && a <= b))
  }

  lemma DescendingTotal<R>(rows: map<nat, R>, key: R -> string)
    ensures TotalOrderOn(Descending(rows, key), rows.Keys)
  {
    var le := Descending(rows, key);
    forall a, b | a in rows && b in rows ensures le(a, b) || le(b, a) {
      LessTotal(key(rows[a]), key(rows[b]));
    }
    forall a, b | a in rows && b in rows && le(a, b) && le(b, a) ensures a == b {
      LessAsymmetric(key(rows[a]), key(rows[b]));
      LessIrreflexive(key(rows[a]));
    }
    forall a, b, c | a in rows && b in rows && c in rows && le(a, b) && le(b, c) ensures le(a, c) {
      if key(rows[a]) != key(rows[b]) && key(rows[b]) != key(rows[c]) {
        LessTransitive(key(rows[c]), key(rows[b]), key(rows[a]));
      }
    }
  }

  /** The ids of `rows`, by descending `key`. */
  function IdsDescending<R>(rows: map<nat, R>, key: R -> string): (r: seq<nat>)
    ensures |r| == |rows|
    ensures forall i :: 0 <= i < |r| ==> r[i] in rows
    ensures forall i, j :: 0 <= i < j < |r| ==> r[i] != r[j] && LessEq(key(rows[r[j]]), key(rows[r[i]]))
  {
    DescendingTotal(rows, key);
    var r := SortSet(rows.Keys, Descending(rows, key));
    assert |rows.Keys| == |rows|;
    assert forall i, j :: 0 <= i < j < |r| ==> Descending(rows, key)(r[i], r[j]);
    r
  }

  lemma IdsDescendingComplete<R>(rows: map<nat, R>, key: R -> string, k: nat)
    requires k in rows
    ensures k in IdsDescending(rows, key)
  {
    DescendingTotal(rows, key);
  }

  /** The rows of a table keyed by an id column, `ORDER BY <key> DESC`. */
  function RowsByKeyDesc<R>(rows: map<nat, R>, id: R -> nat, key: R -> string): (r: seq<R>)
    requires forall k :: k in rows ==> id(rows[k]) == k
    ensures |r| == |rows|
    ensures forall i :: 0 <= i < |r| ==> id(r[i]) in rows && rows[id(r[i])] == r[i]
    ensures forall i, j :: 0 <= i < j < |r| ==> LessEq(key(r[j]), key(r[i]))
  {
    var ids := IdsDescending(rows, key);
    RowsAtKeyed(rows, id, key, ids);
    RowsAt(rows, ids)
  }

  lemma RowsAtKeyed<R>(rows: map<nat, R>, id: R -> nat, key: R -> string, ids: seq<nat>)
    requires forall k :: k in rows ==> id(rows[k]) == k
    requires forall i :: 0 <= i < |ids| ==> ids[i] in rows
    requires forall i, j :: 0 <= i < j < |ids| ==> LessEq(key(rows[ids[j]]), key(rows[ids[i]]))
    ensures var r := RowsAt(rows, ids);
              && (forall i :: 0 <= i < |r| ==> id(r[i]) in rows && rows[id(r[i])] == r[i])
              && (forall i, j :: 0 <= i < j < |r| ==> LessEq(key(r[j]), key(r[i])))
  {
    var r := RowsAt(rows, ids);
    forall i | 0 <= i < |r| ensures r[i] == rows[ids[i]] && id(r[i]) == ids[i] {
    }
  }

  /** The descending listing leaves no row out. */
  lemma RowsByKeyDescComplete<R>(rows: map<nat, R>, id: R -> nat, key: R -> string, k: nat)
    requires forall k :: k in rows ==> id(rows[k]) == k
    requires k in rows
    ensures rows[k] in RowsByKeyDesc(rows, id, key)
  {
    var ids := IdsDescending(rows, key);
    IdsDescendingComplete(rows, key, k);
    var i :| 0 <= i < |ids| && ids[i] == k;
    assert RowsAt(rows, ids)[i] == rows[k];
  }
}
