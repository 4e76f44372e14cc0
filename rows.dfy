/** The stored attribute rows of one record and what saving does to them
    (lib/has/magic/columns.rb, create_or_update_with_magic and the row
    helpers below it). */
module Rows {
  import opened Values

  /** find_magic_attribute_by_column: every row of `column`, in store order. */
  function FindMagicAttributeByColumn(rows: seq<Row>, column: Column): (found: seq<Row>)
    ensures |found| <= |rows|
    ensures forall r :: r in found <==> r in rows && r.columnId == column.id
  {
    if rows == [] then []
    else
      var rest := FindMagicAttributeByColumn(rows[1..], column);
      if rows[0].columnId == column.id then [rows[0]] + rest else rest
  }

  /** Position in `rows` of the first row of column `id`; |rows| when none. */
  function FirstRowIndex(rows: seq<Row>, id: int): (k: nat)
    ensures k <= |rows|
    ensures k < |rows| ==> rows[k].columnId == id
    ensures forall j :: 0 <= j < k ==> rows[j].columnId != id
  {
    if rows == [] then 0
    else if rows[0].columnId == id then 0
    else 1 + FirstRowIndex(rows[1..], id)
  }

  /** The rows left after destroying every row of column `id`. */
  function Without(rows: seq<Row>, id: int): (rest: seq<Row>)
    ensures forall r :: r in rest <==> r in rows && r.columnId != id
  {
    if rows == [] then []
    else if rows[0].columnId == id then Without(rows[1..], id)
    else [rows[0]] + Without(rows[1..], id)
  }

  /** One new row of column `id` per element of `vs`, in order. */
  function NewRows(id: int, vs: seq<Value>): (rows: seq<Row>)
    ensures |rows| == |vs|
    ensures forall i :: 0 <= i < |vs| ==> rows[i] == Row(id, vs[i])
  {
    if vs == [] then [] else NewRows(id, vs[..|vs| - 1]) + [Row(id, vs[|vs| - 1])]
  }

  /** The rows after saving one column whose in-memory value is `value`
      (one iteration of the loop in create_or_update_with_magic). */
  function SaveColumn(rows: seq<Row>, column: Column, value: Value): seq<Row> {
    if !IsMultiple(column) then
      if FindMagicAttributeByColumn(rows, column) != [] then
        FirstRowIndexFound(rows, column);
        var k := FirstRowIndex(rows, column.id);
        rows[k := rows[k].(value := value)]
      else
        rows + [Row(column.id, value)]
    else
      Without(rows, column.id) + NewRows(column.id, Elements(value))
  }

  /** The rows after the loop over `columns` in create_or_update_with_magic,
      each column saving its value from the attribute map. */
  function SaveAll(rows: seq<Row>, columns: seq<Column>, attributes: map<string, Value>): seq<Row> {
    if columns == [] then rows
    else
      var last := columns[|columns| - 1];
      SaveColumn(SaveAll(rows, columns[..|columns| - 1], attributes), last, Lookup(attributes, last.name))
  }

  /** Within a resolved column set an id names one column; the same column
      may be listed more than once (a duplicated join row). */
  predicate ConsistentIds(columns: seq<Column>) {
    forall i, j :: 0 <= i < j < |columns| && columns[i].id == columns[j].id ==> columns[i] == columns[j]
  }

  /** The row the single-value branch updates, `existing.first`, is the row
      at FirstRowIndex. */
  lemma {:induction false} FirstRowIndexFound(rows: seq<Row>, column: Column)
    ensures var k := FirstRowIndex(rows, column.id);
      (k < |rows| <==> FindMagicAttributeByColumn(rows, column) != []) &&
      (k < |rows| ==> FindMagicAttributeByColumn(rows, column)[0] == rows[k])
  {
    if rows != [] && rows[0].columnId != column.id {
      FirstRowIndexFound(rows[1..], column);
    }
  }

  lemma {:induction false} FindDistributes(a: seq<Row>, b: seq<Row>, column: Column)
    ensures FindMagicAttributeByColumn(a + b, column)
         == FindMagicAttributeByColumn(a, column) + FindMagicAttributeByColumn(b, column)
  {
    if a == [] {
      assert a + b == b;
    } else {
      assert (a + b)[0] == a[0] && (a + b)[1..] == a[1..] + b;
      FindDistributes(a[1..], b, column);
    }
  }

  lemma {:induction false} FindWithoutOther(rows: seq<Row>, id: int, column: Column)
    requires id != column.id
    ensures FindMagicAttributeByColumn(Without(rows, id), column) == FindMagicAttributeByColumn(rows, column)
  {
    if rows != [] {
      FindWithoutOther(rows[1..], id, column);
      if rows[0].columnId != id {
        assert ([rows[0]] + Without(rows[1..], id))[1..] == Without(rows[1..], id);
      }
    }
  }

  lemma {:induction false} FindWithoutSame(rows: seq<Row>, column: Column)
    ensures FindMagicAttributeByColumn(Without(rows, column.id), column) == []
  {
    if rows != [] {
      FindWithoutSame(rows[1..], column);
      if rows[0].columnId != column.id {
        assert ([rows[0]] + Without(rows[1..], column.id))[1..] == Without(rows[1..], column.id);
      }
    }
  }

  lemma {:induction false} FindNewRows(id: int, vs: seq<Value>, column: Column)
    ensures FindMagicAttributeByColumn(NewRows(id, vs), column)
         == if id == column.id then NewRows(id, vs) else []
  {
    if vs != [] {
      var init := vs[..|vs| - 1];
      FindNewRows(id, init, column);
      FindDistributes(NewRows(id, init), [Row(id, vs[|vs| - 1])], column);
    }
  }

  /** Updating a row of another column leaves a column's rows as they were. */
  lemma {:induction false} FindUpdateOther(rows: seq<Row>, k: nat, v: Value, column: Column)
    requires k < |rows| && rows[k].columnId != column.id
    ensures FindMagicAttributeByColumn(rows[k := rows[k].(value := v)], column)
         == FindMagicAttributeByColumn(rows, column)
  {
    if k > 0 {
      assert rows[k := rows[k].(value := v)][1..] == rows[1..][k - 1 := rows[k].(value := v)];
      FindUpdateOther(rows[1..], k - 1, v, column);
    }
  }

  /** Updating the first row of a column replaces the first of its rows and
      keeps the others. */
  lemma {:induction false} FindUpdateFirst(rows: seq<Row>, v: Value, column: Column)
    requires FirstRowIndex(rows, column.id) < |rows|
    ensures var k := FirstRowIndex(rows, column.id);
      var before := FindMagicAttributeByColumn(rows, column);
      before != [] &&
      FindMagicAttributeByColumn(rows[k := rows[k].(value := v)], column)
        == [Row(column.id, v)] + before[1..]
  {
    var k := FirstRowIndex(rows, column.id);
    if k > 0 {
      assert rows[k := rows[k].(value := v)][1..] == rows[1..][k - 1 := rows[k].(value := v)];
      FindUpdateFirst(rows[1..], v, column);
    } else {
      assert rows[0 := rows[0].(value := v)][1..] == rows[1..];
    }
  }

  /** Saving a column never changes the rows of a column with another id. */
  lemma SaveColumnFrame(rows: seq<Row>, saved: Column, value: Value, column: Column)
    requires saved.id != column.id
    ensures FindMagicAttributeByColumn(SaveColumn(rows, saved, value), column)
         == FindMagicAttributeByColumn(rows, column)
  {
    if !IsMultiple(saved) {
      FirstRowIndexFound(rows, saved);
      var k := FirstRowIndex(rows, saved.id);
      if k < |rows| {
        FindUpdateOther(rows, k, value, column);
      } else {
        FindDistributes(rows, [Row(saved.id, value)], column);
      }
    } else {
      FindDistributes(Without(rows, saved.id), NewRows(saved.id, Elements(value)), column);
      FindWithoutOther(rows, saved.id, column);
      FindNewRows(saved.id, Elements(value), column);
    }
  }

  /** Single-value save: with existing rows, only the first one takes the new
      value; without, exactly one row (column, value) is added. */
  lemma SaveSingle(rows: seq<Row>, column: Column, value: Value)
    requires !IsMultiple(column)
    ensures var before := FindMagicAttributeByColumn(rows, column);
      FindMagicAttributeByColumn(SaveColumn(rows, column, value), column)
        == [Row(column.id, value)] + (if before == [] then [] else before[1..])
    ensures FindMagicAttributeByColumn(rows, column) == [] ==>
      SaveColumn(rows, column, value) == rows + [Row(column.id, value)]
  {
    FirstRowIndexFound(rows, column);
    if FindMagicAttributeByColumn(rows, column) != [] {
      FindUpdateFirst(rows, value, column);
    } else {
      FindDistributes(rows, [Row(column.id, value)], column);
    }
  }

  /** Multi-value save: the column's rows afterwards are exactly one row per
      element of the value, in order; a non-Array value counts as one. */
  lemma SaveMultiple(rows: seq<Row>, column: Column, value: Value)
    requires IsMultiple(column)
    ensures FindMagicAttributeByColumn(SaveColumn(rows, column, value), column)
         == NewRows(column.id, Elements(value))
    ensures ValuesOf(FindMagicAttributeByColumn(SaveColumn(rows, column, value), column))
         == Elements(value)
    ensures !value.List? ==>
      FindMagicAttributeByColumn(SaveColumn(rows, column, value), column) == [Row(column.id, value)]
  {
    FindDistributes(Without(rows, column.id), NewRows(column.id, Elements(value)), column);
    FindWithoutSame(rows, column);
    FindNewRows(column.id, Elements(value), column);
  }

  /** What the rows of `column` hold once its in-memory value `value` has
      been saved. */
  predicate Stored(rows: seq<Row>, column: Column, value: Value) {
    var found := FindMagicAttributeByColumn(rows, column);
    if IsMultiple(column) then found == NewRows(column.id, Elements(value))
    else found != [] && found[0] == Row(column.id, value)
  }

  /** After a save over a column set whose ids are consistent, every column
      of the set has its in-memory value stored; a column listed twice is
      saved twice with the same value. */
  lemma {:induction false} SaveAllStores(rows: seq<Row>, columns: seq<Column>, attributes: map<string, Value>, i: nat)
    requires ConsistentIds(columns)
    requires i < |columns|
    ensures Stored(SaveAll(rows, columns, attributes), columns[i], Lookup(attributes, columns[i].name))
  {
    var n := |columns| - 1;
    var last := columns[n];
    var init := columns[..n];
    var before := SaveAll(rows, init, attributes);
    var c := columns[i];
    if last == c {
      if IsMultiple(c) {
        SaveMultiple(before, c, Lookup(attributes, c.name));
      } else {
        SaveSingle(before, c, Lookup(attributes, c.name));
      }
    } else {
      assert init[i] == c;
      assert forall p, q :: 0 <= p < q < |init| ==> init[p] == columns[p] && init[q] == columns[q];
      SaveAllStores(rows, init, attributes, i);
      SaveColumnFrame(before, last, Lookup(attributes, last.name), c);
    }
  }

  /** A save never touches the rows of a column outside the resolved set. */
  lemma {:induction false} SaveAllFrame(rows: seq<Row>, columns: seq<Column>, attributes: map<string, Value>, column: Column)
    requires forall c :: c in columns ==> c.id != column.id
    ensures FindMagicAttributeByColumn(SaveAll(rows, columns, attributes), column)
         == FindMagicAttributeByColumn(rows, column)
  {
    if columns != [] {
      var n := |columns| - 1;
      assert columns[n] in columns;
      assert forall c :: c in columns[..n] ==> c in columns;
      SaveAllFrame(rows, columns[..n], attributes, column);
      SaveColumnFrame(SaveAll(rows, columns[..n], attributes), columns[n], Lookup(attributes, columns[n].name), column);
    }
  }

  /** The save reads each value from the attribute map, where a name that
      was never materialised is absent and reads as nil: such a save
      overwrites a single-value column's stored value with nil, and leaves a
      multi-value column with exactly one nil row. */
  lemma UnmaterialisedSaveStoresNil(rows: seq<Row>, columns: seq<Column>, attributes: map<string, Value>, i: nat)
    requires ConsistentIds(columns)
    requires i < |columns| && columns[i].name !in attributes
    ensures var found := FindMagicAttributeByColumn(SaveAll(rows, columns, attributes), columns[i]);
      found != [] && found[0] == Row(columns[i].id, Nil) &&
      (IsMultiple(columns[i]) ==> found == [Row(columns[i].id, Nil)])
  {
    SaveAllStores(rows, columns, attributes, i);
  }
}
