/** The read path: looking a column up by name, the list of column names,
    and read_attribute_with_magic (lib/has/magic/columns.rb, lines 107-109,
    148-165 and 192-195). `typeCast` stands for MagicColumn#type_cast, which
    is foreign. */
module Reading {
  import opened Values

  /** magic_column_names: the names of the resolved columns, in order. */
  function MagicColumnNames(columns: seq<Column>): (names: seq<string>)
    ensures |names| == |columns|
    ensures forall i :: 0 <= i < |columns| ==> names[i] == columns[i].name
  {
    if columns == [] then [] else [columns[0].name] + MagicColumnNames(columns[1..])
  }

  /** Index of the first column called `name`, or |columns| when none. */
  function FirstColumnNamed(columns: seq<Column>, name: string): (k: nat)
    ensures k <= |columns|
    ensures k < |columns| ==> columns[k].name == name
    ensures forall j :: 0 <= j < k ==> columns[j].name != name
  {
    if columns == [] then 0
    else if columns[0].name == name then 0
    else 1 + FirstColumnNamed(columns[1..], name)
  }

  /** find_magic_column_by_name: the first column with that name, or none. */
  function FindMagicColumnByName(columns: seq<Column>, name: string): (r: Option<Column>)
    ensures r.None? <==> forall c :: c in columns ==> c.name != name
    ensures r.Some? ==> r.value in columns && r.value.name == name
    ensures r.Some? ==> exists k :: 0 <= k < |columns| && columns[k] == r.value &&
                          forall j :: 0 <= j < k ==> columns[j].name != name
  {
    var k := FirstColumnNamed(columns, name);
    if k < |columns| then Some(columns[k]) else None
  }

  /** A name is one of the column names exactly when a column of that name
      can be found. */
  lemma {:induction false} NamesMatchLookup(columns: seq<Column>, name: string)
    ensures name in MagicColumnNames(columns) <==> FindMagicColumnByName(columns, name).Some?
  {
    var names := MagicColumnNames(columns);
    if name in names {
      var i :| 0 <= i < |names| && names[i] == name;
      assert columns[i] in columns;
    }
    if FindMagicColumnByName(columns, name).Some? {
      var k := FirstColumnNamed(columns, name);
      assert names[k] == name;
    }
  }

  /** What read_attribute_with_magic yields: a native column is read by the
      native reader; anything else yields a value. */
  datatype ReadResult = Native | Dynamic(value: Value)

  /** The typed value of a non-nil entry read through `column`: element by
      element for a list. */
  function Cast(column: Column, value: Value, typeCast: (Column, Value) -> Value): Value {
    match value
    case List(items) => List(MapSeq(v => typeCast(column, v), items))
    case _ => typeCast(column, value)
  }

  /** read_attribute_with_magic: native columns win; a nil (or absent) entry
      reads as nil; an entry named like a magic column is cast by the first
      such column; any other entry is returned as it is. */
  function ReadAttributeWithMagic(nativeColumns: set<string>, columns: seq<Column>, attributes: map<string, Value>,
                                  name: string, typeCast: (Column, Value) -> Value): ReadResult {
    if name in nativeColumns then Native
    else
      var value := Lookup(attributes, name);
      if value.Nil? then Dynamic(Nil)
      else
        match FindMagicColumnByName(columns, name)
        case Some(column) => Dynamic(Cast(column, value, typeCast))
        case None => Dynamic(value)
  }

  /** Native columns win: a name column_for_attribute recognises goes to the
      native reader, whatever the attribute map or the column set holds. */
  lemma NativeColumnsWin(nativeColumns: set<string>, columns: seq<Column>, attributes: map<string, Value>,
                         name: string, typeCast: (Column, Value) -> Value)
    requires name in nativeColumns
    ensures ReadAttributeWithMagic(nativeColumns, columns, attributes, name, typeCast) == Native
  {
  }

  /** Any other name yields a value: nil for a nil or absent entry; the
      entry as it is when no magic column has the name; otherwise the entry
      cast by the first column of that name, one element at a time for a
      list and as a whole for any other value. */
  lemma DynamicReads(nativeColumns: set<string>, columns: seq<Column>, attributes: map<string, Value>,
                     name: string, typeCast: (Column, Value) -> Value)
    requires name !in nativeColumns
    ensures var r := ReadAttributeWithMagic(nativeColumns, columns, attributes, name, typeCast);
      var k := FirstColumnNamed(columns, name);
      r.Dynamic? &&
      (Lookup(attributes, name).Nil? ==> r.value == Nil) &&
      (!Lookup(attributes, name).Nil? && (forall c :: c in columns ==> c.name != name) ==>
         r.value == attributes[name]) &&
      (!Lookup(attributes, name).Nil? && k < |columns| && !attributes[name].List? ==>
         r.value == typeCast(columns[k], attributes[name])) &&
      (!Lookup(attributes, name).Nil? && k < |columns| && attributes[name].List? ==>
         r.value.List? && |r.value.items| == |attributes[name].items| &&
         forall j :: 0 <= j < |r.value.items| ==> r.value.items[j] == typeCast(columns[k], attributes[name].items[j]))
  {
    var k := FirstColumnNamed(columns, name);
    if !Lookup(attributes, name).Nil? && k < |columns| {
      assert FindMagicColumnByName(columns, name) == Some(columns[k]);
    }
  }
}
