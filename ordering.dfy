/**
 * Listings ordered by a name column (`class Meta: ordering = ["name"]`): every row of a table,
 * once, in ascending name order. Names compare character by character on their code points;
 * the order among rows with equal names is left open.
 */
module Ordering {

  /** Lexicographic order on names: `a` is a prefix of `b`, or the first differing character of `a` is smaller. */
  predicate NameLe(a: string, b: string)
    decreases |a|
  {
    a == [] || (b != [] && (a[0] < b[0] || (a[0] == b[0] && NameLe(a[1..], b[1..]))))
  }

  lemma {:induction false} NameLeTotal(a: string, b: string)
    ensures NameLe(a, b) || NameLe(b, a)
    decreases |a|
  {
    if a != [] && b != [] && a[0] == b[0] {
      NameLeTotal(a[1..], b[1..]);
    }
  }

  lemma {:induction false} NameLeTransitive(a: string, b: string, c: string)
    requires NameLe(a, b) && NameLe(b, c)
    ensures NameLe(a, c)
    decreases |a|
  {
    if a != [] && b != [] && c != [] && a[0] == b[0] && b[0] == c[0] {
      NameLeTransitive(a[1..], b[1..], c[1..]);
    }
  }

  lemma {:induction false} NameLeAntisymmetric(a: string, b: string)
    requires NameLe(a, b) && NameLe(b, a)
    ensures a == b
    decreases |a|
  {
    if a != [] {
      NameLeAntisymmetric(a[1..], b[1..]);
      assert a == [a[0]] + a[1..] && b == [b[0]] + b[1..];
    }
  }

  lemma EmptyWithoutMembers(s: set<int>)
    ensures (forall j :: j !in s) ==> s == {}
  {
    if forall j :: j !in s {
      assert forall j :: j in s <==> j in {};
    }
  }

  lemma {:induction false} HasLeast(s: set<int>)
    requires s != {}
    ensures exists k :: k in s && forall j :: j in s ==> k <= j
    decreases |s|
  {
    EmptyWithoutMembers(s);
    var x :| x in s;
    var rest := s - {x};
    assert forall j :: j in s ==> j == x || j in rest;
    if exists j :: j in rest {
      HasLeast(rest);
      var y :| y in rest && forall j :: j in rest ==> y <= j;
      var least := if x < y then x else y;
      assert least in s && forall j :: j in s ==> least <= j;
    } else {
      assert forall j :: j in s ==> x <= j;
    }
  }

  /** The smallest id of a non-empty set of ids. */
  function MinKey(s: set<int>): (k: int)
    requires s != {}
    ensures k in s && forall j :: j in s ==> k <= j
  {
    HasLeast(s);
    var k :| k in s && forall j :: j in s ==> k <= j;
    k
  }

  /** The rows of a table as (id, row) pairs in ascending id order. */
  function Entries<R>(table: map<int, R>): seq<(int, R)>
    decreases |table|
  {
    if |table| == 0 then []
    else
      var k := MinKey(table.Keys);
      assert (table - {k}).Keys == table.Keys - {k};
      [(k, table[k])] + Entries(table - {k})
  }

  lemma {:induction false} EntriesLength<R>(table: map<int, R>)
    ensures |Entries(table)| == |table|
    decreases |table|
  {
    if |table| != 0 {
      var k := MinKey(table.Keys);
      assert (table - {k}).Keys == table.Keys - {k};
      EntriesLength(table - {k});
    }
  }

  /** Every pair listed is a row of the table. */
  lemma {:induction false} EntriesSound<R>(table: map<int, R>)
    ensures forall i :: 0 <= i < |Entries(table)| ==> Entries(table)[i].0 in table && table[Entries(table)[i].0] == Entries(table)[i].1
    decreases |table|
  {
    if |table| != 0 {
      var k := MinKey(table.Keys);
      var rest := table - {k};
      assert rest.Keys == table.Keys - {k};
      EntriesSound(rest);
      var rows := Entries(table);
      assert rows == [(k, table[k])] + Entries(rest);
      forall i | 0 <= i < |rows| ensures rows[i].0 in table && table[rows[i].0] == rows[i].1 {
        if i > 0 {
          assert rows[i] == Entries(rest)[i - 1];
        }
      }
    }
  }

  /** Every row of the table is listed. */
  lemma {:induction false} EntriesComplete<R>(table: map<int, R>)
    ensures forall k :: k in table ==> (k, table[k]) in Entries(table)
    decreases |table|
  {
    if |table| != 0 {
      var k := MinKey(table.Keys);
      var rest := table - {k};
      assert rest.Keys == table.Keys - {k};
      EntriesComplete(rest);
      assert Entries(table) == [(k, table[k])] + Entries(rest);
      forall j | j in table ensures (j, table[j]) in Entries(table) {
        if j != k {
          assert j in rest && rest[j] == table[j];
        }
      }
    }
  }

  predicate SortedBy<R>(rows: seq<(int, R)>, name: R -> string) {
    forall i, j :: 0 <= i < j < |rows| ==> NameLe(name(rows[i].1), name(rows[j].1))
  }

  /** Places `e` in front of the first row whose name is not smaller than its own. */
  function Insert<R>(e: (int, R), rows: seq<(int, R)>, name: R -> string): (r: seq<(int, R)>)
    requires SortedBy(rows, name)
    ensures SortedBy(r, name)
    ensures multiset(r) == multiset(rows) + multiset{e}
  {
    if rows == [] then [e]
    else if NameLe(name(e.1), name(rows[0].1)) then
      assert forall j :: 0 <= j < |rows| ==> NameLe(name(e.1), name(rows[j].1)) by {
        forall j | 0 <= j < |rows| ensures NameLe(name(e.1), name(rows[j].1)) {
          if j > 0 { NameLeTransitive(name(e.1), name(rows[0].1), name(rows[j].1)); }
        }
      }
      [e] + rows
    else
      var tail := Insert(e, rows[1..], name);
      NameLeTotal(name(e.1), name(rows[0].1));
      assert rows == [rows[0]] + rows[1..];
      assert forall x :: x in tail ==> NameLe(name(rows[0].1), name(x.1)) by {
        forall x | x in tail ensures NameLe(name(rows[0].1), name(x.1)) {
          assert x in multiset(tail);
          if x != e {
            assert x in multiset(rows[1..]);
            var j :| 0 <= j < |rows[1..]| && rows[1..][j] == x;
            assert rows[j + 1] == x;
          }
        }
      }
      [rows[0]] + tail
  }

  /** Insertion sort by name: the same rows, names non-decreasing. */
  function SortByName<R>(rows: seq<(int, R)>, name: R -> string): (r: seq<(int, R)>)
    ensures SortedBy(r, name)
    ensures multiset(r) == multiset(rows)
  {
    if rows == [] then []
    else
      assert rows == [rows[0]] + rows[1..];
      Insert(rows[0], SortByName(rows[1..], name), name)
  }

  /** A listing of `table` ordered by `name`: each of its rows exactly once, names ascending. */
  function OrderByName<R>(table: map<int, R>, name: R -> string): (rows: seq<(int, R)>)
    ensures SortedBy(rows, name)
    ensures |rows| == |table|
    ensures forall i :: 0 <= i < |rows| ==> rows[i].0 in table && table[rows[i].0] == rows[i].1
    ensures forall k :: k in table ==> (k, table[k]) in rows
  {
    var all := Entries(table);
    EntriesLength(table);
    EntriesSound(table);
    EntriesComplete(table);
    var rows := SortByName(all, name);
    assert |rows| == |multiset(rows)| == |multiset(all)| == |all|;
    assert forall i :: 0 <= i < |rows| ==> rows[i] in all by {
      forall i | 0 <= i < |rows| ensures rows[i] in all {
        assert rows[i] in multiset(rows);
      }
    }
    assert forall k :: k in table ==> (k, table[k]) in rows by {
      forall k | k in table ensures (k, table[k]) in rows {
        assert (k, table[k]) in multiset(all);
      }
    }
    rows
  }
}
