/** A record whose type has the magic-columns hooks installed, with the
    state they change: the in-memory attribute map, the stored attribute
    rows and the class's presence validations (lib/has/magic/columns.rb,
    InstanceMethods, lines 100-205). */
module Records {
  import opened Values
  import opened Rows
  import opened Materialise
  import opened Reading
  import opened Dispatch

  /** The class-level state: the names `column_for_attribute` recognises as
      native columns, and the names passed to validates_presence_of so far,
      one entry per call. */
  class EntityType {
    const nativeColumns: set<string>
    var presenceValidations: seq<string>

    constructor (nativeColumns: set<string>)
      ensures this.nativeColumns == nativeColumns && presenceValidations == []
    {
      this.nativeColumns := nativeColumns;
      presenceValidations := [];
    }
  }

  class Record {
    const kind: EntityType
    /** magic_columns, as resolved for this record. */
    const columns: seq<Column>
    /** magic_attributes: the stored rows of this record, in association order. */
    var rows: seq<Row>
    /** @attributes: the in-memory attribute map. */
    var attributes: map<string, Value>

    constructor (kind: EntityType, columns: seq<Column>, rows: seq<Row>, attributes: map<string, Value>)
      ensures this.kind == kind && this.columns == columns
      ensures this.rows == rows && this.attributes == attributes
    {
      this.kind := kind;
      this.columns := columns;
      this.rows := rows;
      this.attributes := attributes;
    }

    /** create_magic_attribute: append a new row (column, value). */
    method CreateMagicAttribute(column: Column, value: Value)
      modifies this
      ensures rows == old(rows) + [Row(column.id, value)]
      ensures attributes == old(attributes)
    {
      rows := rows + [Row(column.id, value)];
    }

    /** update_magic_attribute: give the row at position k a new value. */
    method UpdateMagicAttribute(k: nat, value: Value)
      requires k < |rows|
      modifies this
      ensures rows == old(rows)[k := old(rows)[k].(value := value)]
      ensures attributes == old(attributes)
    {
      rows := rows[k := rows[k].(value := value)];
    }

    /** `existing.map(&:destroy)`: remove every row of the column. */
    method DestroyMagicAttributes(column: Column)
      modifies this
      ensures rows == Without(old(rows), column.id)
      ensures attributes == old(attributes)
    {
      rows := Without(rows, column.id);
    }

    /** create_or_update_with_magic: after a successful native save, store
      each column's in-memory value; return the native result either way.
      `nativeResult` is what the native create_or_update returned. */
    method CreateOrUpdateWithMagic(nativeResult: bool) returns (result: bool)
      modifies this
      ensures result == nativeResult
      ensures rows == if nativeResult then SaveAll(old(rows), columns, attributes) else old(rows)
      ensures attributes == old(attributes)
    {
      result := nativeResult;
      if result {
        var i := 0;
        while i < |columns|
          invariant 0 <= i <= |columns|
          invariant rows == SaveAll(old(rows), columns[..i], attributes)
          invariant attributes == old(attributes)
        {
          var column := columns[i];
          var value := Lookup(attributes, column.name);
          var existing := FindMagicAttributeByColumn(rows, column);
          ghost var before := rows;
          if !IsMultiple(column) {
            if existing != [] {
              FirstRowIndexFound(rows, column);
              UpdateMagicAttribute(FirstRowIndex(rows, column.id), value);
            } else {
              CreateMagicAttribute(column, value);
            }
          } else {
            var items := Elements(value);
            DestroyMagicAttributes(column);
            var j := 0;
            while j < |items|
              invariant 0 <= j <= |items|
              invariant rows == Without(before, column.id) + NewRows(column.id, items[..j])
              invariant attributes == old(attributes)
            {
              assert items[..j + 1][..j] == items[..j];
              CreateMagicAttribute(column, items[j]);
              j := j + 1;
            }
            assert items[..j] == items;
          }
          assert columns[..i + 1][..i] == columns[..i];
          i := i + 1;
        }
        assert columns[..i] == columns;
      }
    }

    /** initialize_magic_columns: write each column's field value from the
      stored rows into the attribute map and register a presence validation
      for each required column. `toS` is MagicAttribute#to_s. */
    method InitializeMagicColumns(toS: Row -> Value)
      modifies this, kind
      ensures attributes == Materialised(columns, rows, old(attributes), toS)
      ensures kind.presenceValidations == old(kind.presenceValidations) + RequiredNames(columns)
      ensures rows == old(rows)
    {
      var i := 0;
      while i < |columns|
        invariant 0 <= i <= |columns|
        invariant attributes == Materialised(columns[..i], rows, old(attributes), toS)
        invariant kind.presenceValidations == old(kind.presenceValidations) + RequiredNames(columns[..i])
        invariant rows == old(rows)
      {
        var column := columns[i];
        var found := FindMagicAttributeByColumn(rows, column);
        if column.required {
          kind.presenceValidations := kind.presenceValidations + [column.name];
        }
        if !IsMultiple(column) {
          if found != [] {
            attributes := attributes[column.name := toS(found[0])];
          } else {
            attributes := attributes[column.name := column.default];
          }
        } else {
          attributes := attributes[column.name := List(MapSeq(toS, found))];
        }
        assert columns[..i + 1][..i] == columns[..i];
        i := i + 1;
      }
      assert columns[..i] == columns;
    }

    /** reload_with_magic: materialise first, then the native reload, which
      merges the freshly read native attributes `reloaded` over the map. */
    method ReloadWithMagic(toS: Row -> Value, reloaded: map<string, Value>)
      modifies this, kind
      ensures attributes == Materialised(columns, rows, old(attributes), toS) + reloaded
      ensures kind.presenceValidations == old(kind.presenceValidations) + RequiredNames(columns)
      ensures rows == old(rows)
    {
      InitializeMagicColumns(toS);
      attributes := attributes + reloaded;
    }

    /** The rescue branch of method_missing, after the native lookup failed:
      materialise and report a retry when the name passes the test,
      otherwise change nothing and let the NoMethodError propagate. */
    method MethodMissing(methodName: string, toS: Row -> Value) returns (retry: bool)
      modifies this, kind
      ensures retry == TriggersMaterialise(methodName, MagicColumnNames(columns))
      ensures retry ==> attributes == Materialised(columns, rows, old(attributes), toS)
      ensures retry ==> kind.presenceValidations == old(kind.presenceValidations) + RequiredNames(columns)
      ensures !retry ==> attributes == old(attributes) && kind.presenceValidations == old(kind.presenceValidations)
      ensures rows == old(rows)
    {
      var names := MagicColumnNames(columns);
      retry := methodName in names;
      if !retry {
        var md := PreMatch(methodName);
        retry := md.Some? && md.value in names;
      }
      if retry {
        InitializeMagicColumns(toS);
      }
    }
  }
}
