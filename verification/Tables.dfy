/**
 Keyed tables and multi-row inserts. A unique constraint is a relation that every two
 rows of a table must satisfy; the primary key is part of it.
 */
module Tables {
  import opened Wrappers

  type Row<K, V> = (K, V)

  /** Row by row, as the database checks them: an insert that trips over one row inserts none. */
  function InsertRows<K, V>(table: map<K, V>, rows: seq<Row<K, V>>,
                            unique: (Row<K, V>, Row<K, V>) -> bool,
                            valid: Row<K, V> -> bool): Option<map<K, V>>
    decreases |rows|
  {
    if rows == [] then Some(table)
    else if CanInsert(table, rows[0], unique, valid)
    then InsertRows(table[rows[0].0 := rows[0].1], rows[1..], unique, valid)
    else None
  }

  predicate CanInsert<K, V>(table: map<K, V>, row: Row<K, V>,
                            unique: (Row<K, V>, Row<K, V>) -> bool,
                            valid: Row<K, V> -> bool)
  {
    && valid(row)
    && row.0 !in table
    && forall k | k in table :: unique((k, table[k]), row)
  }

  method Insert<K(==), V>(table: map<K, V>, rows: seq<Row<K, V>>,
                          unique: (Row<K, V>, Row<K, V>) -> bool,
                          valid: Row<K, V> -> bool)
    returns (r: Option<map<K, V>>)
    ensures r == InsertRows(table, rows, unique, valid)
  {
    var result := table;
    var i := 0;
    while i < |rows|
      invariant 0 <= i <= |rows|
      invariant InsertRows(table, rows, unique, valid) == InsertRows(result, rows[i..], unique, valid)
    {
      assert rows[i..][1..] == rows[i + 1..];
      if !CanInsert(result, rows[i], unique, valid) {
        return None;
      }
      result := result[rows[i].0 := rows[i].1];
      i := i + 1;
    }
    return Some(result);
  }

  ghost predicate PairwiseUnique<K, V>(rows: seq<Row<K, V>>, unique: (Row<K, V>, Row<K, V>) -> bool) {
    forall i, j | 0 <= i < j < |rows| :: rows[i].0 != rows[j].0 && unique(rows[i], rows[j])
  }

  ghost predicate ClearOf<K, V>(table: map<K, V>, rows: seq<Row<K, V>>,
                                unique: (Row<K, V>, Row<K, V>) -> bool)
  {
    forall i | 0 <= i < |rows| ::
      rows[i].0 !in table && forall k | k in table :: unique((k, table[k]), rows[i])
  }

  function AsMap<K, V>(rows: seq<Row<K, V>>): map<K, V> {
    if rows == [] then map[] else AsMap(rows[1..])[rows[0].0 := rows[0].1]
  }

  lemma AsMapContents<K, V>(rows: seq<Row<K, V>>)
    ensures forall k :: k in AsMap(rows) <==> exists i :: 0 <= i < |rows| && rows[i].0 == k
  {
    if rows != [] {
      AsMapContents(rows[1..]);
      forall k
        ensures k in AsMap(rows) <==> exists i :: 0 <= i < |rows| && rows[i].0 == k
      {
        if k in AsMap(rows[1..]) {
          var i :| 0 <= i < |rows[1..]| && rows[1..][i].0 == k;
          assert rows[i + 1].0 == k;
        }
        if i :| 0 <= i < |rows| && rows[i].0 == k {
          if i > 0 {
            assert rows[1..][i - 1].0 == k;
          }
        }
      }
    }
  }

  lemma {:induction false} AsMapAt<K, V>(rows: seq<Row<K, V>>, i: nat)
    requires i < |rows|
    requires forall a, b | 0 <= a < b < |rows| :: rows[a].0 != rows[b].0
    ensures rows[i].0 in AsMap(rows) && AsMap(rows)[rows[i].0] == rows[i].1
  {
    if i > 0 {
      AsMapAt(rows[1..], i - 1);
    }
  }

  lemma AsMapKey<K, V>(rows: seq<Row<K, V>>, k: K) returns (i: nat)
    requires k in AsMap(rows)
    ensures i < |rows| && rows[i].0 == k
  {
    AsMapContents(rows);
    i :| 0 <= i < |rows| && rows[i].0 == k;
  }

  /** Every entry of the map comes from a row. */
  lemma AsMapSource<K, V>(rows: seq<Row<K, V>>, k: K) returns (i: nat)
    requires k in AsMap(rows)
    requires forall a, b | 0 <= a < b < |rows| :: rows[a].0 != rows[b].0
    ensures i < |rows| && rows[i] == (k, AsMap(rows)[k])
  {
    AsMapContents(rows);
    i :| 0 <= i < |rows| && rows[i].0 == k;
    AsMapAt(rows, i);
  }

  /** An insert goes through exactly when its rows are valid, unique among themselves and clear of the table. */
  lemma {:induction false} InsertSucceedsIff<K, V>(table: map<K, V>, rows: seq<Row<K, V>>,
                                                   unique: (Row<K, V>, Row<K, V>) -> bool,
                                                   valid: Row<K, V> -> bool)
    ensures InsertRows(table, rows, unique, valid).Some? <==>
              && (forall i | 0 <= i < |rows| :: valid(rows[i]))
              && PairwiseUnique(rows, unique)
              && ClearOf(table, rows, unique)
    ensures InsertRows(table, rows, unique, valid).Some? ==>
              InsertRows(table, rows, unique, valid).value == table + AsMap(rows)
    decreases |rows|
  {
    if rows == [] {
      assert table + AsMap(rows) == table;
    } else {
      var row, rest := rows[0], rows[1..];
      var next := table[row.0 := row.1];
      InsertSucceedsIff(next, rest, unique, valid);
      HeadUnique(rows, unique);
      if CanInsert(table, row, unique, valid) {
        HeadInserted(table, rows, unique);
        if InsertRows(next, rest, unique, valid).Some? {
          RestOverHead(table, rows);
        }
      }
    }
  }

  /** A table whose rows are pairwise unique stays that way. */
  lemma InsertKeepsUnique<K(!new), V(!new)>(table: map<K, V>, rows: seq<Row<K, V>>,
                                            unique: (Row<K, V>, Row<K, V>) -> bool,
                                            valid: Row<K, V> -> bool)
    requires InsertRows(table, rows, unique, valid).Some?
    requires forall x, y :: unique(x, y) ==> unique(y, x)
    requires forall a, b | a in table && b in table && a != b :: unique((a, table[a]), (b, table[b]))
    ensures var m := table + AsMap(rows);
            forall a, b | a in m && b in m && a != b :: unique((a, m[a]), (b, m[b]))
  {
    hide InsertRows, AsMap;
    InsertSucceedsIff(table, rows, unique, valid);
    var m := table + AsMap(rows);
    forall a, b | a in m && b in m && a != b
      ensures unique((a, m[a]), (b, m[b]))
    {
      if a in AsMap(rows) {
        var i := AsMapSource(rows, a);
        if b in AsMap(rows) {
          var j := AsMapSource(rows, b);
        }
      } else if b in AsMap(rows) {
        var j := AsMapSource(rows, b);
      }
    }
  }

  /** Every row of the result was there before or is a valid new one. */
  lemma InsertedIsValid<K, V>(table: map<K, V>, rows: seq<Row<K, V>>,
                              unique: (Row<K, V>, Row<K, V>) -> bool,
                              valid: Row<K, V> -> bool, k: K)
    requires InsertRows(table, rows, unique, valid).Some? && k in AsMap(rows)
    ensures k !in table && valid((k, AsMap(rows)[k]))
  {
    hide InsertRows, AsMap;
    InsertSucceedsIff(table, rows, unique, valid);
    var i := AsMapSource(rows, k);
  }

  /** The table holds these rows, each once, and no others. */
  ghost predicate HoldsExactly<K, V>(table: map<K, V>, rows: seq<Row<K, V>>) {
    && (forall i, j | 0 <= i < j < |rows| :: rows[i].0 != rows[j].0)
    && (forall i | 0 <= i < |rows| :: rows[i].0 in table && table[rows[i].0] == rows[i].1)
    && (forall k | k in table :: exists i :: 0 <= i < |rows| && rows[i].0 == k)
  }

  lemma AsMapHoldsExactly<K, V>(rows: seq<Row<K, V>>, unique: (Row<K, V>, Row<K, V>) -> bool)
    requires PairwiseUnique(rows, unique)
    ensures HoldsExactly(AsMap(rows), rows)
  {
    hide AsMap;
    forall k | k in AsMap(rows)
      ensures exists i :: 0 <= i < |rows| && rows[i].0 == k
    {
      var i := AsMapKey(rows, k);
    }
    forall i | 0 <= i < |rows|
      ensures rows[i].0 in AsMap(rows) && AsMap(rows)[rows[i].0] == rows[i].1
    {
      AsMapAt(rows, i);
    }
  }

  lemma HeadUnique<K, V>(rows: seq<Row<K, V>>, unique: (Row<K, V>, Row<K, V>) -> bool)
    requires rows != []
    ensures PairwiseUnique(rows, unique) <==>
              && PairwiseUnique(rows[1..], unique)
              && forall j | 0 < j < |rows| :: rows[0].0 != rows[j].0 && unique(rows[0], rows[j])
  {
    if PairwiseUnique(rows[1..], unique)
       && (forall j | 0 < j < |rows| :: rows[0].0 != rows[j].0 && unique(rows[0], rows[j])) {
      forall i, j | 0 <= i < j < |rows|
        ensures rows[i].0 != rows[j].0 && unique(rows[i], rows[j])
      {
        if i > 0 {
          assert rows[1..][i - 1] == rows[i] && rows[1..][j - 1] == rows[j];
        }
      }
    }
    if PairwiseUnique(rows, unique) {
      forall i, j | 0 <= i < j < |rows[1..]|
        ensures rows[1..][i].0 != rows[1..][j].0 && unique(rows[1..][i], rows[1..][j])
      {
        assert rows[1..][i] == rows[i + 1] && rows[1..][j] == rows[j + 1];
      }
    }
  }

  lemma HeadInserted<K, V>(table: map<K, V>, rows: seq<Row<K, V>>, unique: (Row<K, V>, Row<K, V>) -> bool)
    requires rows != [] && rows[0].0 !in table
    requires forall k | k in table :: unique((k, table[k]), rows[0])
    ensures ClearOf(table[rows[0].0 := rows[0].1], rows[1..], unique) <==>
              && ClearOf(table, rows, unique)
              && forall j | 0 < j < |rows| :: rows[0].0 != rows[j].0 && unique(rows[0], rows[j])
  {
    var row, next := rows[0], table[rows[0].0 := rows[0].1];
    if ClearOf(next, rows[1..], unique) {
      forall j | 0 < j < |rows|
        ensures rows[0].0 != rows[j].0 && unique(rows[0], rows[j])
        ensures rows[j].0 !in table && forall k | k in table :: unique((k, table[k]), rows[j])
      {
        assert rows[1..][j - 1] == rows[j];
        assert row.0 in next;
        assert unique((row.0, next[row.0]), rows[j]);
        forall k | k in table
          ensures unique((k, table[k]), rows[j])
        {
          assert k in next && next[k] == table[k];
        }
      }
    }
    if ClearOf(table, rows, unique) && (forall j | 0 < j < |rows| :: rows[0].0 != rows[j].0 && unique(rows[0], rows[j])) {
      forall i | 0 <= i < |rows[1..]|
        ensures rows[1..][i].0 !in next && forall k | k in next :: unique((k, next[k]), rows[1..][i])
      {
        assert rows[1..][i] == rows[i + 1];
      }
    }
  }

  lemma RestOverHead<K, V>(table: map<K, V>, rows: seq<Row<K, V>>)
    requires rows != []
    requires forall j | 0 < j < |rows| :: rows[0].0 != rows[j].0
    ensures table[rows[0].0 := rows[0].1] + AsMap(rows[1..]) == table + AsMap(rows)
  {
    AsMapContents(rows[1..]);
    assert forall i | 0 <= i < |rows[1..]| :: rows[1..][i] == rows[i + 1];
  }

  // ------------------------------------------------------------ flat mapping

  function FlatMap<A, B>(s: seq<A>, f: A -> seq<B>): seq<B> {
    if s == [] then [] else f(s[0]) + FlatMap(s[1..], f)
  }

  /** Every element of a flat map comes from one of the inputs. */
  lemma {:induction false} FlatMapSource<A, B>(s: seq<A>, f: A -> seq<B>, j: nat) returns (i: nat, k: nat)
    requires j < |FlatMap(s, f)|
    ensures i < |s| && k < |f(s[i])| && FlatMap(s, f)[j] == f(s[i])[k]
    decreases |s|
  {
    if j < |f(s[0])| {
      return 0, j;
    }
    i, k := FlatMapSource(s[1..], f, j - |f(s[0])|);
    return i + 1, k;
  }

  /** Every element produced from an input is in the flat map. */
  lemma {:induction false} FlatMapTarget<A, B>(s: seq<A>, f: A -> seq<B>, i: nat, k: nat) returns (j: nat)
    requires i < |s| && k < |f(s[i])|
    ensures j < |FlatMap(s, f)| && FlatMap(s, f)[j] == f(s[i])[k]
    decreases |s|
  {
    if i == 0 {
      return k;
    }
    j := FlatMapTarget(s[1..], f, i - 1, k);
    return j + |f(s[0])|;
  }

  ghost predicate Apart<K, V>(a: seq<Row<K, V>>, b: seq<Row<K, V>>, unique: (Row<K, V>, Row<K, V>) -> bool) {
    forall x, y | x in a && y in b :: x.0 != y.0 && unique(x, y)
  }

  /** Rows flat-mapped from distinct parents are unique when each parent's rows are and no two parents' rows clash. */
  lemma {:induction false} FlatMapUnique<A, K, V>(s: seq<A>, f: A -> seq<Row<K, V>>,
                                                  unique: (Row<K, V>, Row<K, V>) -> bool)
    requires forall i | 0 <= i < |s| :: PairwiseUnique(f(s[i]), unique)
    requires forall i, j | 0 <= i < j < |s| :: Apart(f(s[i]), f(s[j]), unique)
    ensures PairwiseUnique(FlatMap(s, f), unique)
    decreases |s|
  {
    if s != [] {
      assert forall i | 0 <= i < |s[1..]| :: s[1..][i] == s[i + 1];
      FlatMapUnique(s[1..], f, unique);
      HeadApart(s, f, unique);
      AppendUnique(f(s[0]), FlatMap(s[1..], f), unique);
    }
  }

  lemma HeadApart<A, K, V>(s: seq<A>, f: A -> seq<Row<K, V>>, unique: (Row<K, V>, Row<K, V>) -> bool)
    requires s != []
    requires forall j | 0 < j < |s| :: Apart(f(s[0]), f(s[j]), unique)
    ensures Apart(f(s[0]), FlatMap(s[1..], f), unique)
  {
    forall x, y | x in f(s[0]) && y in FlatMap(s[1..], f)
      ensures x.0 != y.0 && unique(x, y)
    {
      var j :| 0 <= j < |FlatMap(s[1..], f)| && FlatMap(s[1..], f)[j] == y;
      var i, k := FlatMapSource(s[1..], f, j);
      assert s[1..][i] == s[i + 1];
      assert y in f(s[i + 1]);
    }
  }

  lemma AppendUnique<K, V>(a: seq<Row<K, V>>, b: seq<Row<K, V>>, unique: (Row<K, V>, Row<K, V>) -> bool)
    requires PairwiseUnique(a, unique) && PairwiseUnique(b, unique)
    requires Apart(a, b, unique)
    ensures PairwiseUnique(a + b, unique)
  {
    forall i, j | 0 <= i < j < |a + b|
      ensures (a + b)[i].0 != (a + b)[j].0 && unique((a + b)[i], (a + b)[j])
    {
      if j >= |a| {
        assert (a + b)[j] in b;
        if i < |a| {
          assert (a + b)[i] in a;
        } else {
          assert (a + b)[i] == b[i - |a|] && (a + b)[j] == b[j - |a|];
        }
      }
    }
  }
}
