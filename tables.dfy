/**
 * Tables of a relational store (a map from primary key to row) and the generic meaning of the
 * column declarations the schema uses: foreign keys (plain or nullable), UNIQUE columns, and the
 * two referential actions ON DELETE CASCADE and ON DELETE SET NULL.
 */
module Tables {
  import opened Wrappers

  /** A nullable foreign key is intact when it is NULL or names one of `ids`. */
  predicate RefOk(ref: Option<int>, ids: set<int>) {
    ref.None? || ref.value in ids
  }

  /** A nullable foreign key that points at one of the rows in `gone`. */
  predicate RefersTo(ref: Option<int>, gone: set<int>) {
    ref.Some? && ref.value in gone
  }

  /** Every row's NOT NULL foreign key `fk` names a row whose id is in `ids`. */
  predicate RefsIn<R>(table: map<int, R>, fk: R -> int, ids: set<int>) {
    forall k :: k in table ==> fk(table[k]) in ids
  }

  /** Every row's nullable foreign key `fk` is NULL or names a row whose id is in `ids`. */
  predicate NullableRefsIn<R>(table: map<int, R>, fk: R -> Option<int>, ids: set<int>) {
    forall k :: k in table ==> RefOk(fk(table[k]), ids)
  }

  /** The column `key` is UNIQUE: no two rows hold the same value. */
  predicate UniqueBy<R, K(==)>(table: map<int, R>, key: R -> K) {
    forall i, j :: i in table && j in table && key(table[i]) == key(table[j]) ==> i == j
  }

  /** A nullable UNIQUE column: no two rows hold the same non-NULL value; NULLs never clash. */
  predicate UniqueWhenSet<R, K(==)>(table: map<int, R>, key: R -> Option<K>) {
    forall i, j :: i in table && j in table && key(table[i]).Some? && key(table[i]) == key(table[j]) ==> i == j
  }

  /** Some row already holds `v` in the column `key`, so inserting `v` there would break UNIQUE. */
  predicate Taken<R, K(==)>(table: map<int, R>, key: R -> K, v: K) {
    exists k :: k in table && key(table[k]) == v
  }

  /** The ids of the rows whose foreign key `fk` names one of the rows in `gone`. */
  function Referencing<R>(table: map<int, R>, fk: R -> int, gone: set<int>): (ids: set<int>)
    ensures ids <= table.Keys
    ensures forall k :: k in table ==> (k in ids <==> fk(table[k]) in gone)
  {
    set k | k in table && fk(table[k]) in gone
  }

  /** ON DELETE CASCADE: the rows owned by a deleted row go; every other row stays exactly as it was. */
  function Cascade<R>(table: map<int, R>, fk: R -> int, gone: set<int>): (r: map<int, R>)
    ensures r.Keys == table.Keys - Referencing(table, fk, gone)
    ensures forall k :: k in r ==> r[k] == table[k] && fk(r[k]) !in gone
  {
    map k | k in table && fk(table[k]) !in gone :: table[k]
  }

  /**
   * ON DELETE SET NULL: every row survives; a row pointing at a deleted row has that one column
   * cleared (`clear` nulls exactly the column `fk` reads), every other row stays as it was.
   */
  function SetNull<R(!new)>(table: map<int, R>, fk: R -> Option<int>, clear: R -> R, gone: set<int>): (r: map<int, R>)
    requires forall x :: fk(clear(x)).None?
    ensures r.Keys == table.Keys
    ensures forall k :: k in r ==> r[k] == if RefersTo(fk(table[k]), gone) then clear(table[k]) else table[k]
    ensures forall k :: k in r ==> !RefersTo(fk(r[k]), gone)
  {
    map k | k in table :: if RefersTo(fk(table[k]), gone) then clear(table[k]) else table[k]
  }

  /** `after` is `before` without the rows `owned` selects; every other row is kept unchanged. */
  ghost predicate WithoutRows<R>(before: map<int, R>, after: map<int, R>, owned: R -> bool) {
    && (forall k :: k in before && !owned(before[k]) ==> k in after)
    && (forall k :: k in after ==> k in before && !owned(before[k]) && after[k] == before[k])
  }

  /** `after` keeps every row of `before`; the rows `hit` selects are changed by `clear`, no other row changes. */
  ghost predicate ClearedWhere<R>(before: map<int, R>, after: map<int, R>, hit: R -> bool, clear: R -> R) {
    && after.Keys == before.Keys
    && (forall k :: k in after ==> after[k] == if hit(before[k]) then clear(before[k]) else before[k])
  }

  /** After SET NULL on `fk`, no row of the table points at a deleted row any more. */
  lemma SetNullClears<R(!new)>(table: map<int, R>, fk: R -> Option<int>, clear: R -> R, gone: set<int>, ids: set<int>)
    requires forall x :: fk(clear(x)).None?
    requires NullableRefsIn(table, fk, ids)
    ensures NullableRefsIn(SetNull(table, fk, clear, gone), fk, ids - gone)
  {
  }

  /** SET NULL on one column keeps intact any other nullable foreign key of the table. */
  lemma SetNullKeepsRefs<R(!new)>(table: map<int, R>, fk: R -> Option<int>, clear: R -> R, gone: set<int>,
                                  other: R -> Option<int>, ids: set<int>)
    requires forall x :: fk(clear(x)).None?
    requires forall x :: other(clear(x)) == other(x)
    requires NullableRefsIn(table, other, ids)
    ensures NullableRefsIn(SetNull(table, fk, clear, gone), other, ids)
  {
  }

  /** SET NULL on one column keeps intact a NOT NULL foreign key of the table. */
  lemma SetNullKeepsStrictRefs<R(!new)>(table: map<int, R>, fk: R -> Option<int>, clear: R -> R, gone: set<int>,
                                        other: R -> int, ids: set<int>)
    requires forall x :: fk(clear(x)).None?
    requires forall x :: other(clear(x)) == other(x)
    requires RefsIn(table, other, ids)
    ensures RefsIn(SetNull(table, fk, clear, gone), other, ids)
  {
  }

  /** SET NULL on one column keeps a UNIQUE column unique. */
  lemma SetNullKeepsUnique<R(!new), K>(table: map<int, R>, fk: R -> Option<int>, clear: R -> R, gone: set<int>,
                                           key: R -> K)
    requires forall x :: fk(clear(x)).None?
    requires forall x :: key(clear(x)) == key(x)
    requires UniqueBy(table, key)
    ensures UniqueBy(SetNull(table, fk, clear, gone), key)
  {
  }

  /** SET NULL on one column keeps a nullable UNIQUE column unique. */
  lemma SetNullKeepsUniqueWhenSet<R(!new), K>(table: map<int, R>, fk: R -> Option<int>, clear: R -> R,
                                                  gone: set<int>, key: R -> Option<K>)
    requires forall x :: fk(clear(x)).None?
    requires forall x :: key(clear(x)) == key(x)
    requires UniqueWhenSet(table, key)
    ensures UniqueWhenSet(SetNull(table, fk, clear, gone), key)
  {
  }

  /** CASCADE removes exactly the rows that point at a deleted row. */
  lemma CascadeRemovesOwned<R>(table: map<int, R>, fk: R -> int, gone: set<int>, owned: R -> bool)
    requires forall x :: owned(x) <==> fk(x) in gone
    ensures WithoutRows(table, Cascade(table, fk, gone), owned)
  {
  }

  /** Removing the rows that point at a deleted row is the same as keeping the others unchanged. */
  lemma RemoveReferencingOwned<R>(table: map<int, R>, fk: R -> int, gone: set<int>, owned: R -> bool)
    requires forall x :: owned(x) <==> fk(x) in gone
    ensures WithoutRows(table, table - Referencing(table, fk, gone), owned)
  {
  }

  /** SET NULL changes exactly the rows pointing at a deleted row, and those only in that column. */
  lemma SetNullClearsWhere<R(!new)>(table: map<int, R>, fk: R -> Option<int>, clear: R -> R, gone: set<int>,
                                    hit: R -> bool)
    requires forall x :: fk(clear(x)).None?
    requires forall x :: hit(x) <==> RefersTo(fk(x), gone)
    ensures ClearedWhere(table, SetNull(table, fk, clear, gone), hit, clear)
  {
  }

  /** After CASCADE on `fk`, every surviving row points at a row that survives. */
  lemma CascadeDrops<R>(table: map<int, R>, fk: R -> int, gone: set<int>, ids: set<int>)
    requires RefsIn(table, fk, ids)
    ensures RefsIn(Cascade(table, fk, gone), fk, ids - gone)
  {
  }

  /** CASCADE keeps intact the other NOT NULL foreign keys of the surviving rows. */
  lemma CascadeKeepsRefs<R>(table: map<int, R>, fk: R -> int, gone: set<int>, other: R -> int, ids: set<int>)
    requires RefsIn(table, other, ids)
    ensures RefsIn(Cascade(table, fk, gone), other, ids)
  {
  }

  /** CASCADE keeps intact the nullable foreign keys of the surviving rows. */
  lemma CascadeKeepsNullableRefs<R>(table: map<int, R>, fk: R -> int, gone: set<int>,
                                    other: R -> Option<int>, ids: set<int>)
    requires NullableRefsIn(table, other, ids)
    ensures NullableRefsIn(Cascade(table, fk, gone), other, ids)
  {
  }

  /** CASCADE keeps a UNIQUE column unique among the surviving rows. */
  lemma CascadeKeepsUnique<R, K>(table: map<int, R>, fk: R -> int, gone: set<int>, key: R -> K)
    requires UniqueBy(table, key)
    ensures UniqueBy(Cascade(table, fk, gone), key)
  {
  }

  /** Removing a key that is not in the table leaves the table as it was. */
  lemma RemoveAbsent<R>(table: map<int, R>, id: int)
    requires id !in table
    ensures table - {id} == table
  {
    assert (table - {id}).Keys == table.Keys;
  }

  /** When no row points into `gone` (every key names a row of `ids`, none of them gone), no row refers to it. */
  lemma ReferencingNothing<R>(table: map<int, R>, fk: R -> int, gone: set<int>, ids: set<int>)
    requires RefsIn(table, fk, ids) && ids !! gone
    ensures Referencing(table, fk, gone) == {}
  {
    assert forall k :: k !in Referencing(table, fk, gone);
  }

  /** CASCADE from rows nobody points at removes nothing. */
  lemma CascadeNothing<R>(table: map<int, R>, fk: R -> int, gone: set<int>, ids: set<int>)
    requires RefsIn(table, fk, ids) && ids !! gone
    ensures Cascade(table, fk, gone) == table
  {
    ReferencingNothing(table, fk, gone, ids);
  }

  /** SET NULL from rows nobody points at changes nothing. */
  lemma SetNullNothing<R(!new)>(table: map<int, R>, fk: R -> Option<int>, clear: R -> R, gone: set<int>, ids: set<int>)
    requires forall x :: fk(clear(x)).None?
    requires NullableRefsIn(table, fk, ids) && ids !! gone
    ensures SetNull(table, fk, clear, gone) == table
  {
    var r := SetNull(table, fk, clear, gone);
    forall k | k in table
      ensures r[k] == table[k]
    {
      assert !RefersTo(fk(table[k]), gone);
    }
  }

  /** Inserting a fresh row keeps a UNIQUE column unique exactly when its value is not taken yet. */
  lemma InsertUnique<R, K>(table: map<int, R>, key: R -> K, id: int, row: R)
    requires UniqueBy(table, key) && id !in table
    ensures UniqueBy(table[id := row], key) <==> !Taken(table, key, key(row))
  {
    var after := table[id := row];
    if Taken(table, key, key(row)) {
      var k :| k in table && key(table[k]) == key(row);
      assert k in after && id in after && key(after[k]) == key(after[id]) && k != id;
    }
  }

  /** The same for a nullable UNIQUE column, where a NULL never clashes. */
  lemma InsertUniqueWhenSet<R, K>(table: map<int, R>, key: R -> Option<K>, id: int, row: R)
    requires UniqueWhenSet(table, key) && id !in table
    ensures UniqueWhenSet(table[id := row], key) <==> key(row).None? || !Taken(table, key, key(row))
  {
    var after := table[id := row];
    if key(row).Some? && Taken(table, key, key(row)) {
      var k :| k in table && key(table[k]) == key(row);
      assert k in after && id in after && key(after[id]).Some? && key(after[id]) == key(after[k]) && k != id;
    }
  }

  /** Inserting a row keeps a NOT NULL foreign key intact exactly when the row's own key is intact. */
  lemma InsertRefs<R>(table: map<int, R>, fk: R -> int, ids: set<int>, id: int, row: R)
    requires RefsIn(table, fk, ids)
    ensures RefsIn(table[id := row], fk, ids) <==> fk(row) in ids
  {
    if !(fk(row) in ids) {
      assert id in table[id := row];
    }
  }

  /** The same for a nullable foreign key. */
  lemma InsertNullableRefs<R>(table: map<int, R>, fk: R -> Option<int>, ids: set<int>, id: int, row: R)
    requires NullableRefsIn(table, fk, ids)
    ensures NullableRefsIn(table[id := row], fk, ids) <==> RefOk(fk(row), ids)
  {
    if !RefOk(fk(row), ids) {
      assert id in table[id := row];
    }
  }

  /** A UNIQUE foreign key makes the relationship one-to-one: each parent owns at most one row. */
  lemma AtMostOneOwned<R>(table: map<int, R>, fk: R -> int, owner: int)
    requires UniqueBy(table, fk)
    ensures |Referencing(table, fk, {owner})| <= 1
  {
    var owned := Referencing(table, fk, {owner});
    if k :| k in owned {
      forall j | j in owned
        ensures j == k
      {
        assert fk(table[j]) == fk(table[k]);
      }
      assert forall j :: j in owned <==> j in {k};
      assert owned == {k};
    } else {
      assert forall j :: j in owned <==> j in {};
      assert owned == {};
    }
  }

  /**
   * The primary key the store gives a new row: one more than the largest id in use, or 1 for a
   * table with no positive id. It is unused and above every key present.
   */
  method UnusedId<R>(table: map<int, R>) returns (id: int)
    ensures id >= 1 && id !in table
    ensures forall k :: k in table ==> k < id
    ensures id == 1 || id - 1 in table
  {
    id := 1;
    var rest := table.Keys;
    while exists j :: j in rest
      invariant rest <= table.Keys
      invariant id >= 1
      invariant id == 1 || id - 1 in table
      invariant forall k :: k in table && k !in rest ==> k < id
      decreases |rest|
    {
      var k :| k in rest;
      if k >= id {
        id := k + 1;
      }
      rest := rest - {k};
    }
  }
}
