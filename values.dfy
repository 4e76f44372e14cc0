/** The entities of the magic-columns engine, stripped of their ActiveRecord
    persistence: column definitions (MagicColumn), stored attribute rows
    (MagicAttribute) and the dynamic values they carry. */
module Values {

  datatype Option<T> = None | Some(value: T)

  /** A value as it sits in a record's in-memory attribute map or in a stored
      attribute row: nil, a single non-list object (a string, a date, a
      number, represented by its text), or an Array of values. */
  datatype Value = Nil | Atom(text: string) | List(items: seq<Value>)

  /** A MagicColumn: a named, typed, dynamically added column definition. */
  datatype Column = Column(id: int, name: string, dataType: string, default: Value, required: bool)

  /** A MagicAttribute: one stored value of one column for the owning record. */
  datatype Row = Row(columnId: int, value: Value)

  /** The datatype whose columns hold a list of values, one row per element. */
  const CheckBoxMultiple: string := "check_box_multiple"

  predicate IsMultiple(c: Column) {
    c.dataType == CheckBoxMultiple
  }

  /** Reading a key of the attribute map: an absent key reads as nil. */
  function Lookup(attributes: map<string, Value>, name: string): Value {
    if name in attributes then attributes[name] else Nil
  }

  /** The elements a multi-value column stores for an in-memory value: the
      items of an Array, otherwise the value alone (nil included). */
  function Elements(v: Value): seq<Value> {
    match v
    case List(items) => items
    case _ => [v]
  }

  /** The values carried by a sequence of rows, in order. */
  function ValuesOf(rows: seq<Row>): (vs: seq<Value>)
    ensures |vs| == |rows|
    ensures forall i :: 0 <= i < |rows| ==> vs[i] == rows[i].value
  {
    if rows == [] then [] else [rows[0].value] + ValuesOf(rows[1..])
  }

  /** Each element passed through a foreign conversion, in order. */
  function MapSeq<T, U>(f: T -> U, xs: seq<T>): (ys: seq<U>)
    ensures |ys| == |xs|
    ensures forall i :: 0 <= i < |xs| ==> ys[i] == f(xs[i])
  {
    if xs == [] then [] else [f(xs[0])] + MapSeq(f, xs[1..])
  }
}
