/** Lists of keyed rows, as the file backend keeps them, and the map each list
    stands for (the keyed rows of the SQLite backend). */
module Rows {
  datatype Row<K, V> = Row(key: K, value: V)

  ghost predicate Represents<K, V>(rows: seq<Row<K, V>>, m: map<K, V>) {
    && (forall i, j :: 0 <= i < j < |rows| ==> rows[i].key != rows[j].key)
    && (forall i :: 0 <= i < |rows| ==> rows[i].key in m && m[rows[i].key] == rows[i].value)
    && (forall k :: k in m ==> exists i :: 0 <= i < |rows| && rows[i].key == k)
  }

  /** The rows that satisfy keep, in order. */
  function Filter<K, V>(rows: seq<Row<K, V>>, keep: V -> bool): (kept: seq<Row<K, V>>)
    ensures |kept| <= |rows|
  {
    if rows == [] then []
    else
      var rest := Filter(rows[..|rows| - 1], keep);
      var last := rows[|rows| - 1];
      if keep(last.value) then rest + [last] else rest
  }

  lemma {:induction false} FilterMember<K, V>(rows: seq<Row<K, V>>, keep: V -> bool, r: Row<K, V>)
    ensures r in Filter(rows, keep) <==> r in rows && keep(r.value)
  {
    if rows != [] {
      var init, last := rows[..|rows| - 1], rows[|rows| - 1];
      FilterMember(init, keep, r);
      assert rows == init + [last];
    }
  }

  lemma {:induction false} FilterDistinct<K, V>(rows: seq<Row<K, V>>, keep: V -> bool)
    requires forall i, j :: 0 <= i < j < |rows| ==> rows[i].key != rows[j].key
    ensures var kept := Filter(rows, keep);
            forall i, j :: 0 <= i < j < |kept| ==> kept[i].key != kept[j].key
  {
    if rows != [] {
      var init, last := rows[..|rows| - 1], rows[|rows| - 1];
      FilterDistinct(init, keep);
      var rest := Filter(init, keep);
      forall i | 0 <= i < |rest|
        ensures rest[i].key != last.key
      {
        FilterMember(init, keep, rest[i]);
        assert rest[i] in init;
      }
    }
  }

  /** The filtered list holds the map's entries that satisfy keep, each once. */
  lemma FilteredRows<K, V>(rows: seq<Row<K, V>>, m: map<K, V>, keep: V -> bool)
    requires Represents(rows, m)
    ensures var kept := Filter(rows, keep);
            && (forall i :: 0 <= i < |kept| ==> kept[i].key in m && kept[i].value == m[kept[i].key] && keep(kept[i].value))
            && (forall k :: k in m && keep(m[k]) ==> exists i :: 0 <= i < |kept| && kept[i].key == k)
            && (forall i, j :: 0 <= i < j < |kept| ==> kept[i].key != kept[j].key)
  {
    var kept := Filter(rows, keep);
    FilterDistinct(rows, keep);
    forall i | 0 <= i < |kept|
      ensures kept[i].key in m && kept[i].value == m[kept[i].key] && keep(kept[i].value)
    {
      FilterMember(rows, keep, kept[i]);
      assert kept[i] in rows;
    }
    forall k | k in m && keep(m[k])
      ensures exists i :: 0 <= i < |kept| && kept[i].key == k
    {
      var i :| 0 <= i < |rows| && rows[i].key == k;
      FilterMember(rows, keep, rows[i]);
      assert rows[i] in kept;
    }
  }

  /** Filtering the list is filtering the map. */
  lemma FilterRepresents<K, V>(rows: seq<Row<K, V>>, m: map<K, V>, keep: V -> bool, m': map<K, V>)
    requires Represents(rows, m)
    requires forall k :: k in m' <==> k in m && keep(m[k])
    requires forall k :: k in m' ==> m'[k] == m[k]
    ensures Represents(Filter(rows, keep), m')
  {
    FilteredRows(rows, m, keep);
  }

  lemma UpdateRepresents<K, V>(rows: seq<Row<K, V>>, m: map<K, V>, i: nat, v: V)
    requires Represents(rows, m) && i < |rows|
    ensures Represents(rows[i := Row(rows[i].key, v)], m[rows[i].key := v])
  {
    var rows', m' := rows[i := Row(rows[i].key, v)], m[rows[i].key := v];
    forall k | k in m'
      ensures exists j :: 0 <= j < |rows'| && rows'[j].key == k
    {
      var j :| 0 <= j < |rows| && rows[j].key == k;
      assert rows'[j].key == k;
    }
  }

  /** Rewriting values row by row, keys unchanged. */
  lemma ReplaceValues<K, V>(rows: seq<Row<K, V>>, m: map<K, V>, rows': seq<Row<K, V>>, m': map<K, V>)
    requires Represents(rows, m)
    requires |rows'| == |rows| && m'.Keys == m.Keys
    requires forall i :: 0 <= i < |rows| ==> rows'[i].key == rows[i].key && rows'[i].value == m'[rows[i].key]
    ensures Represents(rows', m')
  {
    forall k | k in m'
      ensures exists i :: 0 <= i < |rows'| && rows'[i].key == k
    {
      var i :| 0 <= i < |rows| && rows[i].key == k;
      assert rows'[i].key == k;
    }
  }

  lemma AppendRepresents<K, V>(rows: seq<Row<K, V>>, m: map<K, V>, k: K, v: V)
    requires Represents(rows, m) && k !in m
    ensures Represents(rows + [Row(k, v)], m[k := v])
  {
    var rows', m' := rows + [Row(k, v)], m[k := v];
    forall j | j in m'
      ensures exists i :: 0 <= i < |rows'| && rows'[i].key == j
    {
      if j == k {
        assert rows'[|rows|].key == k;
      } else {
        var i :| 0 <= i < |rows| && rows[i].key == j;
        assert rows'[i].key == j;
      }
    }
  }

  /** Removing one row removes its key. */
  lemma DropRepresents<K, V>(rows: seq<Row<K, V>>, m: map<K, V>, i: nat)
    requires Represents(rows, m) && i < |rows|
    ensures Represents(rows[..i] + rows[i + 1..], m - {rows[i].key})
  {
    var rows', m' := rows[..i] + rows[i + 1..], m - {rows[i].key};
    forall k | k in m'
      ensures exists j :: 0 <= j < |rows'| && rows'[j].key == k
    {
      var j :| 0 <= j < |rows| && rows[j].key == k;
      assert rows'[if j < i then j else j - 1].key == k;
    }
  }

  /** A row found in the list is the map's entry; a key not found is not in the map. */
  lemma ScannedAll<K, V>(rows: seq<Row<K, V>>, m: map<K, V>, k: K)
    requires Represents(rows, m)
    requires forall i :: 0 <= i < |rows| ==> rows[i].key != k
    ensures k !in m
  {
  }
}
