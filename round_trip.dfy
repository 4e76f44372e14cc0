/** The round trip the engine exists for: a value written into the
    attribute map, saved to rows, then materialised into a fresh record and
    read back (lib/has/magic/columns.rb, lines 14-19, and the save and
    datatype tests of test/has_magic_columns_test.rb). */
module RoundTrip {
  import opened Values
  import opened Rows
  import opened Materialise
  import opened Reading
  import opened Dispatch
  import opened Records

  /** What a column reads back as after its in-memory value was saved: the
      conversion of the row (column, value) for a single-value column, the
      list of the conversions of one row per element for a multi-value one. */
  function ReadBack(column: Column, value: Value, toS: Row -> Value): Value {
    if IsMultiple(column) then List(MapSeq(toS, NewRows(column.id, Elements(value))))
    else toS(Row(column.id, value))
  }

  /** Materialising from rows that store a value yields ReadBack of it. */
  lemma StoredMaterialises(rows: seq<Row>, column: Column, value: Value, toS: Row -> Value)
    requires Stored(rows, column, value)
    ensures FieldValue(rows, column, toS) == ReadBack(column, value, toS)
  {
  }

  /** Save then materialise: the column's name in the new attribute map
      holds ReadBack of the value that was saved, whatever the map held
      before. The column must be the last of its name (names are unique in
      practice) and each id must name one column. */
  lemma SaveThenMaterialise(rows: seq<Row>, columns: seq<Column>, attributes: map<string, Value>,
                            initial: map<string, Value>, toS: Row -> Value, i: nat)
    requires ConsistentIds(columns)
    requires i < |columns| && LastColumnNamed(columns, columns[i].name) == i
    ensures var c := columns[i];
      var m := Materialised(columns, SaveAll(rows, columns, attributes), initial, toS);
      c.name in m && m[c.name] == ReadBack(c, Lookup(attributes, c.name), toS)
  {
    var c := columns[i];
    var saved := SaveAll(rows, columns, attributes);
    SaveAllStores(rows, columns, attributes, i);
    StoredMaterialises(saved, c, Lookup(attributes, c.name), toS);
    MaterialisedAt(columns, saved, initial, toS, c.name);
  }

  /** With a to_s that gives back what was stored, the round trip is exact:
      a single-value column reads back the value itself and a multi-value
      column the list of its elements, so an Array reads back unchanged. */
  lemma RoundTripExact(rows: seq<Row>, columns: seq<Column>, attributes: map<string, Value>,
                       initial: map<string, Value>, toS: Row -> Value, i: nat)
    requires ConsistentIds(columns)
    requires i < |columns| && LastColumnNamed(columns, columns[i].name) == i
    requires forall r :: toS(r) == r.value
    ensures var c := columns[i];
      var v := Lookup(attributes, c.name);
      var m := Materialised(columns, SaveAll(rows, columns, attributes), initial, toS);
      c.name in m &&
      (!IsMultiple(c) ==> m[c.name] == v) &&
      (IsMultiple(c) ==> m[c.name] == List(Elements(v))) &&
      (IsMultiple(c) && v.List? ==> m[c.name] == v)
  {
    SaveThenMaterialise(rows, columns, attributes, initial, toS, i);
    var v := Lookup(attributes, columns[i].name);
    assert MapSeq(toS, NewRows(columns[i].id, Elements(v))) == Elements(v);
  }

  /** Save, materialise, then read_attribute_with_magic: a column that is
      not native and is the only one of its name reads back as ReadBack
      cast by its own datatype, or nil when that is nil. */
  lemma TypedRoundTrip(nativeColumns: set<string>, rows: seq<Row>, columns: seq<Column>,
                       attributes: map<string, Value>, initial: map<string, Value>,
                       toS: Row -> Value, typeCast: (Column, Value) -> Value, i: nat)
    requires ConsistentIds(columns)
    requires i < |columns| && LastColumnNamed(columns, columns[i].name) == i
    requires FirstColumnNamed(columns, columns[i].name) == i
    requires columns[i].name !in nativeColumns
    ensures var c := columns[i];
      var back := ReadBack(c, Lookup(attributes, c.name), toS);
      var m := Materialised(columns, SaveAll(rows, columns, attributes), initial, toS);
      ReadAttributeWithMagic(nativeColumns, columns, m, c.name, typeCast)
        == if back.Nil? then Dynamic(Nil) else Dynamic(Cast(c, back, typeCast))
  {
    SaveThenMaterialise(rows, columns, attributes, initial, toS, i);
  }

  /** The writer `last_name=` of a column last_name passes the name test. */
  lemma LastNameWriterTriggers()
    ensures TriggersMaterialise("last_name=", ["last_name"])
  {
    var name := "last_name";
    assert forall j :: 0 <= j < |name| ==> !IsMark(name[j]);
    AccessorsTrigger(name, [name]);
    assert name + "=" == "last_name=";
  }

  /** The conversions of the scenario: to_s gives the stored value and the
      string column casts a value to itself. */
  function RowValue(r: Row): Value {
    r.value
  }

  function AsText(c: Column, v: Value): Value {
    v
  }

  /** The column of the test and the native columns of its Person type. */
  const LastName: Column := Column(1, "last_name", "string", Nil, false)

  const PersonColumns: set<string> := {"id", "description", "email"}

  /** Once "Doe" is the in-memory value of last_name, saving then
      materialising into any map reads it back through the typed reader. */
  lemma DoeReadsBack(rows: seq<Row>, attributes: map<string, Value>, initial: map<string, Value>)
    requires Lookup(attributes, "last_name") == Atom("Doe")
    ensures var m := Materialised([LastName], SaveAll(rows, [LastName], attributes), initial, RowValue);
      ReadAttributeWithMagic(PersonColumns, [LastName], m, "last_name", AsText) == Dynamic(Atom("Doe"))
  {
    assert |"last_name"| == 9 && |"id"| == 2 && |"description"| == 11 && |"email"| == 5;
    assert |LastName.dataType| != |CheckBoxMultiple|;
    TypedRoundTrip(PersonColumns, rows, [LastName], attributes, initial, RowValue, AsText, 0);
  }

  /** The scenario of the save test: Bob gains a column last_name, its
      writer triggers materialisation, the value is saved, and a freshly
      found Bob reads it back. */
  method LastNameIsSaved()
  {
    var person := new EntityType(PersonColumns);
    var bob := new Record(person, [LastName], [], map["email" := Atom("bob@example.com")]);

    var names := MagicColumnNames([LastName]);
    assert names == ["last_name"];
    LastNameWriterTriggers();
    var retry := bob.MethodMissing("last_name=", RowValue);
    assert retry;
    // the retried writer is the native write_attribute
    bob.attributes := bob.attributes["last_name" := Atom("Doe")];
    ghost var written := bob.attributes;
    assert Lookup(written, "last_name") == Atom("Doe");
    var saved := bob.CreateOrUpdateWithMagic(true);
    ghost var stored := bob.rows;
    assert saved && stored == SaveAll([], [LastName], written);

    var loaded := map["email" := Atom("bob@example.com")];
    var found := new Record(person, [LastName], bob.rows, loaded);
    retry := found.MethodMissing("last_name", RowValue);
    assert retry;
    ghost var read := found.attributes;
    assert read == Materialised([LastName], stored, loaded, RowValue);
    DoeReadsBack([], written, loaded);
    assert ReadAttributeWithMagic(person.nativeColumns, [LastName], read, "last_name", AsText)
        == Dynamic(Atom("Doe"));
  }
}
