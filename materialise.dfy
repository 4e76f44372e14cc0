/** What initialize_magic_columns writes into a record's attribute map and
    which presence validations it registers (lib/has/magic/columns.rb,
    lines 168-185). `toS` stands for MagicAttribute#to_s, which is foreign
    and may depend on the whole row. */
module Materialise {
  import opened Values
  import opened Rows

  /** The in-memory value of one column given the stored rows: for a
      multi-value column the list of its rows' values (possibly empty, never
      the default); otherwise the first row's value, or the column's raw
      default when it has no row. */
  function FieldValue(rows: seq<Row>, column: Column, toS: Row -> Value): Value {
    var found := FindMagicAttributeByColumn(rows, column);
    if IsMultiple(column) then List(MapSeq(toS, found))
    else if found != [] then toS(found[0])
    else column.default
  }

  /** The attribute map after the loop over `columns`: each column in turn
      writes its field value under its name, so a later column with the same
      name overwrites an earlier one. */
  function Materialised(columns: seq<Column>, rows: seq<Row>, attributes: map<string, Value>, toS: Row -> Value): map<string, Value> {
    if columns == [] then attributes
    else
      var last := columns[|columns| - 1];
      Materialised(columns[..|columns| - 1], rows, attributes, toS)[last.name := FieldValue(rows, last, toS)]
  }

  /** The names passed to validates_presence_of by one pass of the loop, in
      column order. */
  function RequiredNames(columns: seq<Column>): seq<string> {
    if columns == [] then []
    else
      var last := columns[|columns| - 1];
      RequiredNames(columns[..|columns| - 1]) + (if last.required then [last.name] else [])
  }

  /** Index of the last column called `name`, or -1 when there is none. */
  function LastColumnNamed(columns: seq<Column>, name: string): (k: int)
    ensures -1 <= k < |columns|
    ensures 0 <= k ==> columns[k].name == name
    ensures forall j :: k < j < |columns| ==> columns[j].name != name
  {
    if columns == [] then -1
    else if columns[|columns| - 1].name == name then |columns| - 1
    else LastColumnNamed(columns[..|columns| - 1], name)
  }

  /** Materialising sets exactly the column names, to the field value of the
      last column of each name, and leaves every other entry as it was. */
  lemma {:induction false} MaterialisedAt(columns: seq<Column>, rows: seq<Row>, attributes: map<string, Value>, toS: Row -> Value, name: string)
    ensures var m := Materialised(columns, rows, attributes, toS);
      var k := LastColumnNamed(columns, name);
      (name in m <==> name in attributes || 0 <= k) &&
      (0 <= k ==> m[name] == FieldValue(rows, columns[k], toS)) &&
      (k < 0 ==> Lookup(m, name) == Lookup(attributes, name))
  {
    if columns != [] {
      MaterialisedAt(columns[..|columns| - 1], rows, attributes, toS, name);
    }
  }

  /** Materialising twice in a row, with no change to the rows in between,
      gives the same attribute map as materialising once. */
  lemma {:induction false} MaterialiseIdempotent(columns: seq<Column>, rows: seq<Row>, attributes: map<string, Value>, toS: Row -> Value)
    ensures Materialised(columns, rows, Materialised(columns, rows, attributes, toS), toS)
         == Materialised(columns, rows, attributes, toS)
  {
    var once := Materialised(columns, rows, attributes, toS);
    var twice := Materialised(columns, rows, once, toS);
    forall name
      ensures (name in twice <==> name in once) && (name in once ==> twice[name] == once[name])
    {
      MaterialisedAt(columns, rows, attributes, toS, name);
      MaterialisedAt(columns, rows, once, toS, name);
    }
  }

  /** A presence validation is registered for a name exactly when some
      column of that name is required. */
  lemma {:induction false} RequiredNamesExact(columns: seq<Column>, name: string)
    ensures name in RequiredNames(columns) <==> exists c :: c in columns && c.required && c.name == name
  {
    if columns != [] {
      var init := columns[..|columns| - 1];
      var last := columns[|columns| - 1];
      RequiredNamesExact(init, name);
      assert columns == init + [last];
      if exists c :: c in columns && c.required && c.name == name {
        var c :| c in columns && c.required && c.name == name;
        if c != last {
          assert c in init;
        }
      }
    }
  }

  /** After materialising, every resolved column name is a key of the
      attribute map. */
  lemma MaterialisedCoversColumns(columns: seq<Column>, rows: seq<Row>, attributes: map<string, Value>, toS: Row -> Value)
    ensures forall i :: 0 <= i < |columns| ==> columns[i].name in Materialised(columns, rows, attributes, toS)
  {
    forall i | 0 <= i < |columns|
      ensures columns[i].name in Materialised(columns, rows, attributes, toS)
    {
      MaterialisedAt(columns, rows, attributes, toS, columns[i].name);
    }
  }

  /** reload_with_magic materialises before the native reload, whose
      attributes `reloaded` are merged last: a name the reload returns takes
      the reloaded value even when it is also a column name, and a column
      name it does not return holds the field value of the last column of
      that name. */
  lemma ReloadAfterMaterialise(columns: seq<Column>, rows: seq<Row>, attributes: map<string, Value>,
                               toS: Row -> Value, reloaded: map<string, Value>, name: string)
    ensures var m := Materialised(columns, rows, attributes, toS) + reloaded;
      var k := LastColumnNamed(columns, name);
      (name in m <==> name in reloaded || name in attributes || 0 <= k) &&
      (name in reloaded ==> m[name] == reloaded[name]) &&
      (name !in reloaded && 0 <= k ==> m[name] == FieldValue(rows, columns[k], toS)) &&
      (name !in reloaded && k < 0 ==> Lookup(m, name) == Lookup(attributes, name))
  {
    MaterialisedAt(columns, rows, attributes, toS, name);
  }
}
