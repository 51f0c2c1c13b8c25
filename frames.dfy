/**
 * The part of a pandas DataFrame the pipeline relies on.
 *
 * A table has an ordered list of distinct column names, a row index, the
 * index's name and its rows. A row maps column names to cells; a column that
 * a row does not map is a missing value (NaN), which is what `pd.concat`
 * leaves where a table lacks a column of another. `Frame` is the mutable
 * DataFrame object the pipeline updates in place; `Table` is its value.
 */
module Frames {
  import opened Wrappers
  import opened Values
  import opened Grouping

  type Row = map<string, Value>

  datatype Table = Table(columns: seq<string>, index: seq<int>, indexName: Option<string>, rows: seq<Row>)

  /** Why a run of the pipeline stops. */
  datatype Error =
    | ParserFailed                      // a worker's trace parser raised
    | BadTimestamp(path: string)        // a time-of-day cell that cannot be stamped
    | NoObjectsToConcatenate            // `pd.concat` of no tables
    | DuplicateColumns                  // a rename that would give two columns one name
    | MissingColumns(names: seq<string>) // a projection on columns the table lacks

  predicate DistinctNames(names: seq<string>)
  {
    forall i, j :: 0 <= i < j < |names| ==> names[i] != names[j]
  }

  /**
   * The DataFrames this model represents: unique column names, one index label
   * per row, no cell outside a column. pandas also allows repeated column
   * labels; such frames are outside the model.
   */
  predicate Wf(t: Table)
  {
    && DistinctNames(t.columns)
    && |t.index| == |t.rows|
    && (forall i, c :: 0 <= i < |t.rows| && c in t.rows[i] ==> c in t.columns)
  }

  function Cell(row: Row, c: string): Option<Value>
  {
    if c in row then Some(row[c]) else None
  }

  /** `df[c]`: the column's cells, row by row. */
  function ColumnOf(t: Table, c: string): (r: seq<Option<Value>>)
    ensures |r| == |t.rows|
    ensures forall i :: 0 <= i < |t.rows| ==> r[i] == Cell(t.rows[i], c)
  {
    seq(|t.rows|, i requires 0 <= i < |t.rows| => Cell(t.rows[i], c))
  }

  function SetCell(row: Row, c: string, v: Option<Value>): Row
  {
    match v
    case None => row - {c}
    case Some(x) => row[c := x]
  }

  /**
   * `df[c] = vals`: an existing column keeps its position and gets new cells,
   * a new one is appended after the others.
   */
  function WithColumn(t: Table, c: string, vals: seq<Option<Value>>): (r: Table)
    requires |vals| == |t.rows|
    ensures |r.rows| == |t.rows| && r.index == t.index && r.indexName == t.indexName
  {
    Table(if c in t.columns then t.columns else t.columns + [c],
          t.index, t.indexName,
          seq(|t.rows|, i requires 0 <= i < |t.rows| => SetCell(t.rows[i], c, vals[i])))
  }

  /** Reading a column back after `df[c] = vals` gives `vals`; every other column is as it was. */
  lemma WithColumnCells(t: Table, c: string, vals: seq<Option<Value>>)
    requires |vals| == |t.rows|
    ensures var r := WithColumn(t, c, vals);
            forall i, d :: 0 <= i < |t.rows| ==> Cell(r.rows[i], d) == if d == c then vals[i] else Cell(t.rows[i], d)
  {
  }

  /** `df[c] = vals` keeps the columns in place, appends `c` if it is new, and keeps a DataFrame well formed. */
  lemma WithColumnShape(t: Table, c: string, vals: seq<Option<Value>>)
    requires |vals| == |t.rows|
    ensures var r := WithColumn(t, c, vals);
            && t.columns <= r.columns
            && (forall d :: d in r.columns <==> d in t.columns || d == c)
            && (Wf(t) ==> Wf(r))
  {
  }

  /** `reset_index(drop=True)`: the labels become 0, 1, ..., n-1 and the index loses its name. */
  function Reindexed(t: Table): (r: Table)
    ensures r.columns == t.columns && r.rows == t.rows
    ensures |r.index| == |r.rows| && forall i :: 0 <= i < |r.index| ==> r.index[i] == i
    ensures r.indexName.None?
    ensures Wf(t) ==> Wf(r)
  {
    t.(index := seq(|t.rows|, i => i), indexName := None)
  }

  /** `rename_axis(name)`: names the row index. */
  function WithAxisName(t: Table, name: string): (r: Table)
    ensures r.columns == t.columns && r.rows == t.rows && r.index == t.index
    ensures r.indexName == Some(name)
  {
    t.(indexName := Some(name))
  }

  /** The label that `rename(columns=m)` gives column `c`: its image under `m`, or itself. */
  function NewName(m: map<string, string>, c: string): string
  {
    if c in m then m[c] else c
  }

  predicate InjectiveOn(m: map<string, string>, names: seq<string>)
  {
    forall a, b :: a in names && b in names && a != b ==> NewName(m, a) != NewName(m, b)
  }

  function RenameRow(m: map<string, string>, row: Row): (r: Row)
    requires forall a, b :: a in row && b in row && a != b ==> NewName(m, a) != NewName(m, b)
    ensures forall c :: c in row ==> NewName(m, c) in r && r[NewName(m, c)] == row[c]
    ensures forall d :: d in r ==> exists c :: c in row && d == NewName(m, c)
  {
    map c | c in row :: NewName(m, c) := row[c]
  }

  /**
   * `rename(columns=m)`. pandas would let two columns end up with one label; the
   * model stops with `DuplicateColumns` instead.
   */
  function Renamed(t: Table, m: map<string, string>): (r: Result<Table, Error>)
    requires Wf(t)
    ensures r.Ok? <==> InjectiveOn(m, t.columns)
    ensures r.Err? ==> r.error == DuplicateColumns
    ensures r.Ok? ==> && |r.value.columns| == |t.columns|
                      && (forall i :: 0 <= i < |t.columns| ==> r.value.columns[i] == NewName(m, t.columns[i]))
                      && r.value.index == t.index && r.value.indexName == t.indexName
                      && |r.value.rows| == |t.rows|
                      && (forall i, c :: 0 <= i < |t.rows| && c in t.rows[i] ==>
                            Cell(r.value.rows[i], NewName(m, c)) == Some(t.rows[i][c]))
                      && Wf(r.value)
  {
    if !InjectiveOn(m, t.columns) then Err(DuplicateColumns)
    else
      var cols := seq(|t.columns|, i requires 0 <= i < |t.columns| => NewName(m, t.columns[i]));
      var rows := seq(|t.rows|, i requires 0 <= i < |t.rows| => RenameRow(m, t.rows[i]));
      var r := Table(cols, t.index, t.indexName, rows);
      assert Wf(r) by {
        forall i, d | 0 <= i < |rows| && d in rows[i]
          ensures d in cols
        {
          var c :| c in t.rows[i] && d == NewName(m, c);
          assert c in t.columns;
          var j :| 0 <= j < |t.columns| && t.columns[j] == c;
          assert cols[j] == d;
        }
      }
      Ok(r)
  }

  /** A renamed column is there under its new name. */
  lemma RenamedHas(t: Table, m: map<string, string>, c: string)
    requires Wf(t) && Renamed(t, m).Ok? && c in t.columns
    ensures NewName(m, c) in Renamed(t, m).value.columns
  {
    var j :| 0 <= j < |t.columns| && t.columns[j] == c;
    assert Renamed(t, m).value.columns[j] == NewName(m, c);
  }

  /** After a rename, a column read under its new name has the cells it had under its old one, missing ones included. */
  lemma RenamedCells(t: Table, m: map<string, string>, c: string)
    requires Wf(t) && Renamed(t, m).Ok? && c in t.columns
    ensures forall i :: 0 <= i < |t.rows| ==> Cell(Renamed(t, m).value.rows[i], NewName(m, c)) == Cell(t.rows[i], c)
  {
    var r := Renamed(t, m).value;
    forall i | 0 <= i < |t.rows|
      ensures Cell(r.rows[i], NewName(m, c)) == Cell(t.rows[i], c)
    {
      assert r.rows[i] == RenameRow(m, t.rows[i]);
    }
  }

  /** The names of `want` that are not in `have`, in order. */
  function Absent(want: seq<string>, have: seq<string>): (r: seq<string>)
    ensures forall c :: c in r <==> c in want && c !in have
  {
    if |want| == 0 then []
    else (if want[0] in have then [] else [want[0]]) + Absent(want[1..], have)
  }

  function Restrict(row: Row, cols: seq<string>): Row
  {
    map c | c in row && c in cols :: row[c]
  }

  /** `df[cols]`: exactly those columns in that order, or `KeyError` naming the absent ones. */
  function Project(t: Table, cols: seq<string>): (r: Result<Table, Error>)
    ensures r.Ok? <==> forall c :: c in cols ==> c in t.columns
    ensures r.Err? ==> r.error == MissingColumns(Absent(cols, t.columns)) && |Absent(cols, t.columns)| > 0
    ensures r.Ok? ==> && r.value.columns == cols && r.value.index == t.index && r.value.indexName == t.indexName
                      && |r.value.rows| == |t.rows|
                      && forall i, c :: 0 <= i < |t.rows| ==>
                           Cell(r.value.rows[i], c) == if c in cols then Cell(t.rows[i], c) else None
  {
    var missing := Absent(cols, t.columns);
    if |missing| > 0 then
      assert missing[0] in missing;
      Err(MissingColumns(missing))
    else Ok(Table(cols, t.index, t.indexName,
                  seq(|t.rows|, i requires 0 <= i < |t.rows| => Restrict(t.rows[i], cols))))
  }

  // ---------------------------------------------------------------------------
  // pd.concat

  /** The column labels of `b` not yet in `a`, appended to `a` in the order `b` has them. */
  function UnionNames(a: seq<string>, b: seq<string>): (r: seq<string>)
    ensures a <= r
    ensures forall c :: c in r <==> c in a || c in b
    ensures DistinctNames(a) ==> DistinctNames(r)
    decreases |b|
  {
    if |b| == 0 then a
    else UnionNames(if b[0] in a then a else a + [b[0]], b[1..])
  }

  /** The rows of all tables, one table after another. */
  function AllRows(ts: seq<Table>): seq<Row>
  {
    if |ts| == 0 then [] else AllRows(ts[..|ts| - 1]) + ts[|ts| - 1].rows
  }

  function TotalRows(ts: seq<Table>): nat
  {
    if |ts| == 0 then 0 else TotalRows(ts[..|ts| - 1]) + |ts[|ts| - 1].rows|
  }

  function Append(a: Table, b: Table): Table
  {
    Table(UnionNames(a.columns, b.columns), a.index + b.index,
          if a.indexName == b.indexName then a.indexName else None,
          a.rows + b.rows)
  }

  function ConcatNonEmpty(ts: seq<Table>): Table
    requires |ts| > 0
  {
    if |ts| == 1 then ts[0] else Append(ConcatNonEmpty(ts[..|ts| - 1]), ts[|ts| - 1])
  }

  /**
   * `pd.concat(ts)` along the rows: the tables' rows one table after another,
   * the union of their columns (a row keeps only its own cells), their index
   * labels as they were; `ValueError` when there is nothing to concatenate.
   */
  function Concat(ts: seq<Table>): Result<Table, Error>
  {
    if |ts| == 0 then Err(NoObjectsToConcatenate) else Ok(ConcatNonEmpty(ts))
  }

  /** The rows of `AllRows(ts)` are the tables' rows, counted by `TotalRows`. */
  lemma {:induction false} AllRowsLength(ts: seq<Table>)
    ensures |AllRows(ts)| == TotalRows(ts)
  {
    if |ts| > 0 {
      AllRowsLength(ts[..|ts| - 1]);
    }
  }

  /** Row `j` of table `k` sits after the rows of the tables before it. */
  lemma {:induction false} AllRowsAt(ts: seq<Table>, k: nat, j: nat)
    requires k < |ts| && j < |ts[k].rows|
    ensures TotalRows(ts[..k]) + j < |AllRows(ts)|
    ensures AllRows(ts)[TotalRows(ts[..k]) + j] == ts[k].rows[j]
  {
    var n := |ts| - 1;
    assert ts[..n + 1] == ts;
    AllRowsLength(ts[..k]);
    AllRowsLength(ts[..n]);
    if k == n {
      assert AllRows(ts) == AllRows(ts[..n]) + ts[n].rows;
    } else {
      assert ts[..n][..k] == ts[..k];
      AllRowsAt(ts[..n], k, j);
    }
  }

  /** Every row of `AllRows(ts)` is a row of one of the tables. */
  lemma {:induction false} AllRowsFrom(ts: seq<Table>, p: nat)
    requires p < |AllRows(ts)|
    ensures exists k, j :: 0 <= k < |ts| && 0 <= j < |ts[k].rows| && AllRows(ts)[p] == ts[k].rows[j]
  {
    var n := |ts| - 1;
    var front := AllRows(ts[..n]);
    if p < |front| {
      AllRowsFrom(ts[..n], p);
      var k, j :| 0 <= k < n && 0 <= j < |ts[..n][k].rows| && front[p] == ts[..n][k].rows[j];
      assert AllRows(ts)[p] == ts[k].rows[j];
    } else {
      assert AllRows(ts)[p] == ts[n].rows[p - |front|];
    }
  }

  /** Tables with the same number of rows, one for one, have the same total. */
  lemma {:induction false} TotalRowsPointwise(ts: seq<Table>, us: seq<Table>)
    requires |ts| == |us| && forall k :: 0 <= k < |ts| ==> |ts[k].rows| == |us[k].rows|
    ensures TotalRows(ts) == TotalRows(us)
  {
    if |ts| > 0 {
      TotalRowsPointwise(ts[..|ts| - 1], us[..|us| - 1]);
    }
  }

  /** `pd.concat` of one or more tables holds all their rows, one table after another. */
  lemma {:induction false} ConcatRows(ts: seq<Table>)
    requires |ts| > 0
    ensures ConcatNonEmpty(ts).rows == AllRows(ts)
  {
    var n := |ts| - 1;
    if n == 0 {
      assert AllRows(ts[..0]) == [];
    } else {
      ConcatRows(ts[..n]);
    }
  }

  /** Some table of `ts` has column `c`. */
  predicate ColumnOfSome(ts: seq<Table>, c: string)
  {
    exists k :: 0 <= k < |ts| && c in ts[k].columns
  }

  /** Its columns are those of the first table, then the others' new ones: exactly the columns of some table. */
  lemma {:induction false} ConcatColumns(ts: seq<Table>)
    requires |ts| > 0
    ensures ts[0].columns <= ConcatNonEmpty(ts).columns
    ensures forall c :: c in ConcatNonEmpty(ts).columns <==> ColumnOfSome(ts, c)
  {
    var n := |ts| - 1;
    if n > 0 {
      var front := ts[..n];
      ConcatColumns(front);
      var a := ConcatNonEmpty(front);
      assert ConcatNonEmpty(ts) == Append(a, ts[n]);
      assert front[0] == ts[0];
      forall c
        ensures c in ConcatNonEmpty(ts).columns <==> ColumnOfSome(ts, c)
      {
        ColumnOfSomeSplit(ts, c);
      }
    }
  }

  lemma ColumnOfSomeSplit(ts: seq<Table>, c: string)
    requires |ts| > 0
    ensures ColumnOfSome(ts, c) <==> ColumnOfSome(ts[..|ts| - 1], c) || c in ts[|ts| - 1].columns
  {
    var front := ts[..|ts| - 1];
    if ColumnOfSome(ts, c) {
      var k :| 0 <= k < |ts| && c in ts[k].columns;
      if k < |front| {
        assert c in front[k].columns;
      }
    }
    if ColumnOfSome(front, c) {
      var k :| 0 <= k < |front| && c in front[k].columns;
      assert c in ts[k].columns;
    }
  }

  /** The concatenation of DataFrames is a DataFrame. */
  lemma {:induction false} ConcatWf(ts: seq<Table>)
    requires |ts| > 0 && forall k :: 0 <= k < |ts| ==> Wf(ts[k])
    ensures Wf(ConcatNonEmpty(ts))
  {
    var n := |ts| - 1;
    if n > 0 {
      var front := ts[..n];
      assert forall k :: 0 <= k < |front| ==> front[k] == ts[k];
      ConcatWf(front);
      AppendWf(ConcatNonEmpty(front), ts[n]);
    }
  }

  lemma AppendWf(a: Table, b: Table)
    requires Wf(a) && Wf(b)
    ensures Wf(Append(a, b))
  {
    var r := Append(a, b);
    forall i, c | 0 <= i < |r.rows| && c in r.rows[i]
      ensures c in r.columns
    {
      if i < |a.rows| {
        assert r.rows[i] == a.rows[i];
      } else {
        assert r.rows[i] == b.rows[i - |a.rows|];
      }
    }
  }

  // ---------------------------------------------------------------------------
  // groupby

  /** The group key of a row, or `None` when one of the grouped cells is missing (`dropna=True`). */
  function KeyOf(row: Row, keyCols: seq<string>): (r: Option<Key>)
    ensures r.Some? <==> forall c :: c in keyCols ==> c in row
    ensures r.Some? ==> |r.value.parts| == |keyCols| && forall j :: 0 <= j < |keyCols| ==> r.value.parts[j] == row[keyCols[j]]
  {
    if forall c :: c in keyCols ==> c in row
    then Some(Key(seq(|keyCols|, j requires 0 <= j < |keyCols| => row[keyCols[j]])))
    else None
  }

  /** The keys of the rows that have one, in row order. */
  function PresentKeys(rows: seq<Row>, keyCols: seq<string>): (r: seq<Key>)
    ensures |r| <= |rows|
    ensures forall k :: k in r <==> exists i :: 0 <= i < |rows| && KeyOf(rows[i], keyCols) == Some(k)
  {
    if |rows| == 0 then []
    else
      var init := rows[..|rows| - 1];
      var keys := PresentKeys(init, keyCols);
      assert forall i :: 0 <= i < |init| ==> init[i] == rows[i];
      match KeyOf(rows[|rows| - 1], keyCols)
      case None => keys
      case Some(k) => keys + [k]
  }

  /** The groups of `groupby(keyCols, sort=True)`: the distinct keys in ascending order. */
  function GroupKeys(rows: seq<Row>, keyCols: seq<string>): seq<Key>
  {
    SortedKeys(PresentKeys(rows, keyCols))
  }

  /** `groupby(keyCols).ngroup()`: each row's group number; a row without a key has none. */
  function NGroup(rows: seq<Row>, keyCols: seq<string>): (r: seq<Option<Value>>)
    ensures |r| == |rows|
  {
    var groups := GroupKeys(rows, keyCols);
    seq(|rows|, i requires 0 <= i < |rows| =>
      match KeyOf(rows[i], keyCols)
      case None => None
      case Some(k) => Some(Int(IndexOf(groups, k))))
  }

  /** A row holding `parts` under the names `keyCols`. */
  function KeyRow(keyCols: seq<string>, parts: seq<Value>): Row
  {
    if |keyCols| == 0 || |parts| == 0 then map[] else KeyRow(keyCols[1..], parts[1..])[keyCols[0] := parts[0]]
  }

  /**
   * `groupby(keyCols).size().reset_index(name=count)`: one row per group, in group
   * order, holding the key's cells and the number of rows with that key.
   */
  function SizeTable(t: Table, keyCols: seq<string>, count: string): Table
  {
    var keys := PresentKeys(t.rows, keyCols);
    var groups := SortedKeys(keys);
    Table(keyCols + [count], seq(|groups|, i => i), None, SizeRows(keyCols, count, groups, keys))
  }

  /** The rows of `size()`: for each group its key's cells and, under `count`, how often `keys` holds it. */
  function SizeRows(keyCols: seq<string>, count: string, groups: seq<Key>, keys: seq<Key>): (r: seq<Row>)
    ensures |r| == |groups|
  {
    seq(|groups|, i requires 0 <= i < |groups| => KeyRow(keyCols, groups[i].parts)[count := Int(multiset(keys)[groups[i]])])
  }

  /** How many rows have the key `k`. */
  function CountKey(rows: seq<Row>, keyCols: seq<string>, k: Key): nat
  {
    if |rows| == 0 then 0
    else CountKey(rows[..|rows| - 1], keyCols, k) + if KeyOf(rows[|rows| - 1], keyCols) == Some(k) then 1 else 0
  }

  /** How many rows have a key at all. */
  function CountKeyed(rows: seq<Row>, keyCols: seq<string>): nat
  {
    if |rows| == 0 then 0
    else CountKeyed(rows[..|rows| - 1], keyCols) + if KeyOf(rows[|rows| - 1], keyCols).Some? then 1 else 0
  }

  /** A key occurs among the present keys once per row that has it. */
  lemma {:induction false} PresentKeysCount(rows: seq<Row>, keyCols: seq<string>, k: Key)
    ensures multiset(PresentKeys(rows, keyCols))[k] == CountKey(rows, keyCols, k)
  {
    if |rows| > 0 {
      PresentKeysCount(rows[..|rows| - 1], keyCols, k);
    }
  }

  /** There is one present key per row that has a key. */
  lemma {:induction false} PresentKeysLength(rows: seq<Row>, keyCols: seq<string>)
    ensures |PresentKeys(rows, keyCols)| == CountKeyed(rows, keyCols)
  {
    if |rows| > 0 {
      PresentKeysLength(rows[..|rows| - 1], keyCols);
    }
  }

  /**
   * `ngroup()` numbers exactly the rows that have a key, with the numbers
   * 0 .. g-1 for the g distinct keys, each number taken by some row.
   */
  lemma NGroupDense(rows: seq<Row>, keyCols: seq<string>)
    ensures var ids, groups := NGroup(rows, keyCols), GroupKeys(rows, keyCols);
            && (forall i :: 0 <= i < |rows| ==> (ids[i].Some? <==> KeyOf(rows[i], keyCols).Some?))
            && (forall i :: 0 <= i < |rows| && ids[i].Some? ==> ids[i].value.Int? && 0 <= ids[i].value.i < |groups|)
            && (forall g :: 0 <= g < |groups| ==> exists i :: 0 <= i < |rows| && ids[i] == Some(Int(g)))
            && |groups| == |set k | k in PresentKeys(rows, keyCols)|
  {
    var ids, keys, groups := NGroup(rows, keyCols), PresentKeys(rows, keyCols), GroupKeys(rows, keyCols);
    SortedKeysSpec(keys);
    SortedDistinct(groups);
    forall g | 0 <= g < |groups|
      ensures exists i :: 0 <= i < |rows| && ids[i] == Some(Int(g))
    {
      assert groups[g] in keys;
      var i :| 0 <= i < |rows| && KeyOf(rows[i], keyCols) == Some(groups[g]);
      IndexOfSorted(groups, g);
      assert ids[i] == Some(Int(IndexOf(groups, groups[g])));
    }
    assert (set k | k in keys) == set x | x in groups;
    DistinctCardinality(groups);
  }

  /** Two keyed rows share a group number exactly when they share a key. */
  lemma NGroupSame(rows: seq<Row>, keyCols: seq<string>, i: nat, j: nat)
    requires i < |rows| && j < |rows| && KeyOf(rows[i], keyCols).Some? && KeyOf(rows[j], keyCols).Some?
    ensures NGroup(rows, keyCols)[i] == NGroup(rows, keyCols)[j] <==> KeyOf(rows[i], keyCols) == KeyOf(rows[j], keyCols)
  {
    var keys, groups := PresentKeys(rows, keyCols), GroupKeys(rows, keyCols);
    SortedKeysSpec(keys);
    var a, b := KeyOf(rows[i], keyCols).value, KeyOf(rows[j], keyCols).value;
    assert a in groups && b in groups;
  }

  /** Group numbers follow the order of the keys (`sort=True`). */
  lemma NGroupOrder(rows: seq<Row>, keyCols: seq<string>, i: nat, j: nat)
    requires i < |rows| && j < |rows| && KeyOf(rows[i], keyCols).Some? && KeyOf(rows[j], keyCols).Some?
    ensures NGroup(rows, keyCols)[i].Some? && NGroup(rows, keyCols)[j].Some?
    ensures NGroup(rows, keyCols)[i].value.Int? && NGroup(rows, keyCols)[j].value.Int?
    ensures NGroup(rows, keyCols)[i].value.i < NGroup(rows, keyCols)[j].value.i <==> KeyLess(KeyOf(rows[i], keyCols).value, KeyOf(rows[j], keyCols).value)
  {
    var keys, groups := PresentKeys(rows, keyCols), GroupKeys(rows, keyCols);
    SortedKeysSpec(keys);
    var a, b := KeyOf(rows[i], keyCols).value, KeyOf(rows[j], keyCols).value;
    assert a in keys && b in keys;
    IndexOrder(groups, a, b);
  }

  /** On one column, the key of a row is its cell there. */
  lemma KeyOfSingle(row: Row, c: string)
    ensures KeyOf(row, [c]) == if c in row then Some(Key([row[c]])) else None
  {
    if c in row {
      assert KeyOf(row, [c]).value.parts == [row[c]];
    }
  }

  /** Rows whose keys agree one for one get the same present keys. */
  lemma {:induction false} PresentKeysPointwise(a: seq<Row>, b: seq<Row>, keyCols: seq<string>)
    requires |a| == |b| && forall i :: 0 <= i < |a| ==> KeyOf(a[i], keyCols) == KeyOf(b[i], keyCols)
    ensures PresentKeys(a, keyCols) == PresentKeys(b, keyCols)
  {
    if |a| > 0 {
      var n := |a| - 1;
      assert forall i :: 0 <= i < n ==> a[..n][i] == a[i] && b[..n][i] == b[i];
      PresentKeysPointwise(a[..n], b[..n], keyCols);
    }
  }

  /** ... and so the same group numbers. */
  lemma NGroupPointwise(a: seq<Row>, b: seq<Row>, keyCols: seq<string>)
    requires |a| == |b| && forall i :: 0 <= i < |a| ==> KeyOf(a[i], keyCols) == KeyOf(b[i], keyCols)
    ensures NGroup(a, keyCols) == NGroup(b, keyCols)
  {
    PresentKeysPointwise(a, b, keyCols);
  }

  /** On one column, the groups are the column's distinct values as one-part keys. */
  lemma SingleColumnGroups(rows: seq<Row>, c: string)
    ensures var groups := GroupKeys(rows, [c]);
            && StrictlySorted(groups)
            && (forall g :: 0 <= g < |groups| ==>
                  && |groups[g].parts| == 1 && groups[g] == Key([groups[g].parts[0]])
                  && exists i :: 0 <= i < |rows| && Cell(rows[i], c) == Some(groups[g].parts[0]))
            && forall i :: 0 <= i < |rows| && c in rows[i] ==> Key([rows[i][c]]) in groups
  {
    var keys, groups := PresentKeys(rows, [c]), GroupKeys(rows, [c]);
    SortedKeysSpec(keys);
    forall g | 0 <= g < |groups|
      ensures |groups[g].parts| == 1 && groups[g] == Key([groups[g].parts[0]])
      ensures exists i :: 0 <= i < |rows| && Cell(rows[i], c) == Some(groups[g].parts[0])
    {
      assert groups[g] in keys;
      var i :| 0 <= i < |rows| && KeyOf(rows[i], [c]) == Some(groups[g]);
      KeyOfSingle(rows[i], c);
    }
    forall i | 0 <= i < |rows| && c in rows[i]
      ensures Key([rows[i][c]]) in groups
    {
      KeyOfSingle(rows[i], c);
    }
  }

  /** On two columns, the key of a row is the pair of its cells there. */
  lemma KeyOfPair(row: Row, a: string, b: string)
    ensures KeyOf(row, [a, b]) == if a in row && b in row then Some(Key([row[a], row[b]])) else None
  {
    if a in row && b in row {
      assert KeyOf(row, [a, b]).value.parts == [row[a], row[b]];
    }
  }

  /** Rows match one key exactly when they match another: the two counts agree. */
  lemma {:induction false} CountKeyPointwise(rows: seq<Row>, keyCols: seq<string>, k: Key, keyCols': seq<string>, k': Key)
    requires forall i :: 0 <= i < |rows| ==> (KeyOf(rows[i], keyCols) == Some(k) <==> KeyOf(rows[i], keyCols') == Some(k'))
    ensures CountKey(rows, keyCols, k) == CountKey(rows, keyCols', k')
  {
    if |rows| > 0 {
      var init := rows[..|rows| - 1];
      assert forall i :: 0 <= i < |init| ==> init[i] == rows[i];
      CountKeyPointwise(init, keyCols, k, keyCols', k');
    }
  }

  /** Rows have one key exactly when they have another: the two counts agree. */
  lemma {:induction false} CountKeyedPointwise(rows: seq<Row>, keyCols: seq<string>, keyCols': seq<string>)
    requires forall i :: 0 <= i < |rows| ==> (KeyOf(rows[i], keyCols).Some? <==> KeyOf(rows[i], keyCols').Some?)
    ensures CountKeyed(rows, keyCols) == CountKeyed(rows, keyCols')
  {
    if |rows| > 0 {
      var init := rows[..|rows| - 1];
      assert forall i :: 0 <= i < |init| ==> init[i] == rows[i];
      CountKeyedPointwise(init, keyCols, keyCols');
    }
  }

  /** When every row has a key, every row is counted. */
  lemma {:induction false} CountKeyedAll(rows: seq<Row>, keyCols: seq<string>)
    requires forall i :: 0 <= i < |rows| ==> KeyOf(rows[i], keyCols).Some?
    ensures CountKeyed(rows, keyCols) == |rows|
  {
    if |rows| > 0 {
      var init := rows[..|rows| - 1];
      assert forall i :: 0 <= i < |init| ==> init[i] == rows[i];
      CountKeyedAll(init, keyCols);
    }
  }

  /** A key row holds each part under its own column name, and nothing else. */
  lemma {:induction false} KeyRowCells(keyCols: seq<string>, parts: seq<Value>)
    requires |parts| == |keyCols| && DistinctNames(keyCols)
    ensures forall c :: c in KeyRow(keyCols, parts) <==> c in keyCols
    ensures forall j :: 0 <= j < |keyCols| ==> KeyRow(keyCols, parts)[keyCols[j]] == parts[j]
  {
    if |keyCols| > 0 {
      var rest := keyCols[1..];
      assert forall j :: 1 <= j < |keyCols| ==> keyCols[j] == rest[j - 1] && keyCols[j] != keyCols[0];
      KeyRowCells(rest, parts[1..]);
    }
  }

  /** The sum of a column's integer cells (`df[count].sum()`; other cells add nothing). */
  function TotalCount(rows: seq<Row>, count: string): int
  {
    if |rows| == 0 then 0
    else (match Cell(rows[0], count) case Some(Int(m)) => m case _ => 0) + TotalCount(rows[1..], count)
  }

  /**
   * `size()` has one row per group, in group order, holding the group's key
   * under the key columns and its number of rows under `count`.
   */
  lemma SizeTableRows(t: Table, keyCols: seq<string>, count: string)
    requires DistinctNames(keyCols) && count !in keyCols
    ensures var s, groups := SizeTable(t, keyCols, count), GroupKeys(t.rows, keyCols);
            && s.columns == keyCols + [count] && s.index == seq(|groups|, i => i) && s.indexName == None
            && |s.rows| == |groups|
            && forall g :: 0 <= g < |groups| ==>
                 && Cell(s.rows[g], count) == Some(Int(CountKey(t.rows, keyCols, groups[g])))
                 && |groups[g].parts| == |keyCols|
                 && forall j :: 0 <= j < |keyCols| ==> Cell(s.rows[g], keyCols[j]) == Some(groups[g].parts[j])
  {
    var keys, groups := PresentKeys(t.rows, keyCols), GroupKeys(t.rows, keyCols);
    var rows := SizeRows(keyCols, count, groups, keys);
    SortedKeysSpec(keys);
    forall g | 0 <= g < |groups|
      ensures Cell(rows[g], count) == Some(Int(CountKey(t.rows, keyCols, groups[g])))
      ensures |groups[g].parts| == |keyCols|
      ensures forall j :: 0 <= j < |keyCols| ==> Cell(rows[g], keyCols[j]) == Some(groups[g].parts[j])
    {
      assert groups[g] in keys;
      PresentKeysCount(t.rows, keyCols, groups[g]);
      var i :| 0 <= i < |t.rows| && KeyOf(t.rows[i], keyCols) == Some(groups[g]);
      KeyRowCells(keyCols, groups[g].parts);
    }
  }

  /** The counts of `groups` add up to the keys of `keys` that are among them. */
  lemma {:induction false} SizeRowsTotal(keyCols: seq<string>, count: string, groups: seq<Key>, keys: seq<Key>)
    ensures TotalCount(SizeRows(keyCols, count, groups, keys), count) == SumCounts(groups, keys)
  {
    if |groups| > 0 {
      var rows := SizeRows(keyCols, count, groups, keys);
      assert rows[1..] == SizeRows(keyCols, count, groups[1..], keys);
      assert Cell(rows[0], count) == Some(Int(multiset(keys)[groups[0]]));
      SizeRowsTotal(keyCols, count, groups[1..], keys);
    }
  }

  /** Every keyed row is counted in exactly one group: the counts of `size()` add up to the keyed rows. */
  lemma SizeTableTotal(t: Table, keyCols: seq<string>, count: string)
    ensures TotalCount(SizeTable(t, keyCols, count).rows, count) == CountKeyed(t.rows, keyCols)
  {
    var keys, groups := PresentKeys(t.rows, keyCols), GroupKeys(t.rows, keyCols);
    SizeRowsTotal(keyCols, count, groups, keys);
    SortedKeysSpec(keys);
    SortedDistinct(groups);
    SumCountsTotal(groups, keys);
    PresentKeysLength(t.rows, keyCols);
  }

  /** A scalar assigned to a whole column: the same cell in each of `n` rows. */
  function Broadcast(v: Value, n: nat): (r: seq<Option<Value>>)
    ensures |r| == n && forall i :: 0 <= i < n ==> r[i] == Some(v)
  {
    seq(n, _ => Some(v))
  }

  // ---------------------------------------------------------------------------
  // The DataFrame object

  /** The current values of a list of frames. */
  function FrameValues(fs: seq<Frame>): (r: seq<Table>)
    reads fs
    ensures |r| == |fs| && forall k :: 0 <= k < |fs| ==> r[k] == fs[k].Value()
  {
    seq(|fs|, k reads fs requires 0 <= k < |fs| => fs[k].Value())
  }

  class Frame {
    var columns: seq<string>
    var index: seq<int>
    var indexName: Option<string>
    var rows: seq<Row>

    function Value(): Table
      reads this
    {
      Table(columns, index, indexName, rows)
    }

    constructor FromTable(t: Table)
      ensures Value() == t
    {
      columns, index, indexName, rows := t.columns, t.index, t.indexName, t.rows;
    }

    /** `df[name]` */
    function Column(name: string): (r: seq<Option<Value>>)
      reads this
      ensures |r| == |rows|
    {
      ColumnOf(Value(), name)
    }

    /** `df[name] = vals`, in place. */
    method SetColumn(name: string, vals: seq<Option<Value>>)
      requires |vals| == |rows|
      modifies this
      ensures Value() == WithColumn(old(Value()), name, vals)
    {
      var t := WithColumn(Value(), name, vals);
      columns, rows := t.columns, t.rows;
    }

    /** `df.reset_index(drop=True, inplace=True)` */
    method ResetIndex()
      modifies this
      ensures Value() == Reindexed(old(Value()))
    {
      index, indexName := seq(|rows|, i => i), None;
    }

    /** `df.rename_axis(name, inplace=True)` */
    method RenameAxis(name: string)
      modifies this
      ensures Value() == WithAxisName(old(Value()), name)
    {
      indexName := Some(name);
    }

    /** `df.rename(columns=m, inplace=True)`; `ok` is false, and nothing changes, when two columns would share a label. */
    method Rename(m: map<string, string>) returns (ok: bool)
      requires Wf(Value())
      modifies this
      ensures ok == Renamed(old(Value()), m).Ok?
      ensures ok ==> Value() == Renamed(old(Value()), m).value
      ensures !ok ==> Value() == old(Value())
    {
      var r := Renamed(Value(), m);
      ok := r.Ok?;
      if ok {
        columns, rows := r.value.columns, r.value.rows;
      }
    }
  }
}
