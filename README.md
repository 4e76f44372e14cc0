# has_magic_columns — a Dafny model of the magic-columns engine

has_magic_columns gives an ActiveRecord model dynamic, per-instance columns
whose definitions are data (an entity-attribute-value design). A
`MagicColumn` has an id, a name, a datatype, a raw default and a required
flag. Each record stores its values as `MagicAttribute` rows
(column id, raw value). The record keeps an in-memory attribute map
(`@attributes`) that the engine fills from the rows (materialising) and
writes back to the rows after a successful save. Columns of datatype
`check_box_multiple` hold a list and are stored as one row per element.

The model keeps three pieces of state: the resolved column set, the stored
rows in association order, and the attribute map from name to `Value`
(nil, a single value, or a list). It is split by component:

- `values.dfy` (`Values`): the entities and the value type.
- `rows.dfy` (`Rows`): row lookup and what one save does to the rows,
  as functions (`SaveColumn`, `SaveAll`), with the frame and content lemmas.
- `materialise.dfy` (`Materialise`): what `initialize_magic_columns` writes
  (`FieldValue`, `Materialised`) and which presence validations it registers.
- `reading.dfy` (`Reading`): `magic_column_names`, `find_magic_column_by_name`
  and `read_attribute_with_magic`, all pure.
- `dispatch.dfy` (`Dispatch`): the name test of `method_missing`.
- `column_sets.dfy` (`ColumnSets`): what `has_magic_columns` declares for
  its `through`, `for`, `inherit` and `eager` options, and what
  `magic_columns` and the `through` reader return.
- `records.dfy` (`Records`): class `Record`, whose methods are the save,
  materialise, reload and `method_missing` hooks as loops over the column
  set; class `EntityType` holds the class-level state (native column names,
  registered presence validations).
- `round_trip.dfy` (`RoundTrip`): save, then materialise into a fresh
  record, then typed read, and the save scenario of the repository's tests.

Foreign code is passed in rather than invented. `MagicAttribute#to_s` is a
parameter `toS: Row -> Value`, applied to the whole stored row, and `MagicColumn#type_cast` a parameter
`typeCast: (Column, Value) -> Value`. The native save's result is the
parameter `nativeResult`. The attributes the native reload reads back are
the parameter `reloaded`. The native reload is taken to merge them over the
attribute map, as `@attributes.update` does. `singularize` is a parameter.
Names that `column_for_attribute` recognises are the set
`EntityType.nativeColumns`.

Notes on what the code does:

- `through` only defines `magic_columns_with_<name>_columns`. The alias that
  would make it replace `magic_columns` is commented out (line 50), so
  `magic_columns` stays the owned set (`ColumnSets.ThroughLeavesMagicColumns`,
  `ColumnSets.ThroughReaderNotWired`). The option merges nothing. The reader
  calls `magic_auto_columns`, which columns.rb does not define, so a
  related object without it raises NoMethodError (`Peer.hasAutoColumns` says
  whether it has one).
- Materialising writes `to_s` of the stored row, not a type-cast value.
  Casting happens on read. A single-value column takes the first of its
  rows, however many there are.
- `validates_presence_of` is called again for every required column on every
  materialise. The model logs each call; whether the validation framework
  collapses repeats is outside the model.
- The dynamic-name test does not strip a trailing `=` or `?`. It cuts at the
  first `?`, `|` or `=` anywhere in the name. The `|` is a literal member of
  the character class `[\?|\=]`.
- The save reads every column's value from the attribute map. A record that
  was never materialised has no entry for a column, and the entry reads as
  nil. Saving such a record writes nil over the stored value
  (`Rows.UnmaterialisedSaveStoresNil`).

## Definitions

The functions that model the source's methods are characterised by the
lemmas in the table below:

- `Reading.ReadAttributeWithMagic` models `read_attribute_with_magic`
  (lib/has/magic/columns.rb:148-165); see `Reading.NativeColumnsWin`,
  `Reading.DynamicReads` and `RoundTrip.TypedRoundTrip`.
- `Dispatch.TriggersMaterialise` and `Dispatch.PreMatch` model the test
  of `method_missing` (lib/has/magic/columns.rb:141-143); see
  `Dispatch.TriggersExactly` and `Dispatch.TriggersIffColumnFound`.
- `ColumnSets.MagicColumns` and `ColumnSets.InheritedMagicColumns` model
  what `magic_columns` returns (lib/has/magic/columns.rb:65-78), and
  `ColumnSets.ThroughColumns` the `through` reader (lines 46-49); see
  `ColumnSets.InheritDelegates`, `ColumnSets.ThroughLeavesMagicColumns`
  and `ColumnSets.ThroughReaderNotWired`.
- `ColumnSets.DeclaredReaders` and `ColumnSets.HooksInstalled` model what
  `has_magic_columns` declares for its options (lib/has/magic/columns.rb:27-93);
  see `ColumnSets.ForDeclaresOnlyScoped` and
  `ColumnSets.OthersDeclareMagicColumns`.
- `RoundTrip.LastNameIsSaved` plays the save test
  (test/has_magic_columns_test.rb:26-34) on the record methods;
  `RoundTrip.DoeReadsBack` and `RoundTrip.LastNameWriterTriggers` carry
  its concrete facts.
- `Rows.SaveAll`/`Rows.SaveColumn` and `Materialise.Materialised`/
  `Materialise.FieldValue` specify the save and materialise loops; see the
  `Rows` and `Materialise` lemmas and the `Records.Record` methods.

## Model

| member | source | states |
|---|---|---|
| `Rows.FindMagicAttributeByColumn` | lib/has/magic/columns.rb:187-190 | The result holds exactly the rows whose column id matches, and is no longer than the store. |
| `Rows.FindDistributes` | lib/has/magic/columns.rb:189 | The lookup keeps store order: looking up in a concatenation gives the concatenated lookups. |
| `Rows.FirstRowIndexFound` | lib/has/magic/columns.rb:121 | The row the save updates (`existing.first`) is the first row of the column in the store; it exists exactly when the lookup is non-empty. |
| `Rows.SaveSingle` | lib/has/magic/columns.rb:120-123 | Single-value save: the column's first row takes the in-memory value and its other rows are kept; with no row, exactly one row (column, value) is appended. |
| `Rows.SaveMultiple` | lib/has/magic/columns.rb:124-129 | Multi-value save: the column's rows are afterwards exactly one row per element of the value, in order; a non-Array value, nil included, gives one row. |
| `Rows.SaveColumnFrame` | lib/has/magic/columns.rb:116-130 | Saving one column never changes the rows of a column with another id. |
| `Rows.SaveAllStores` | lib/has/magic/columns.rb:114-133 | After the save loop over columns where each id names one column, every column has its in-memory value stored; a column listed twice is stored all the same. |
| `Rows.SaveAllFrame` | lib/has/magic/columns.rb:116 | The save loop leaves the rows of columns outside the resolved set untouched. |
| `Records.Record.CreateMagicAttribute` | lib/has/magic/columns.rb:197-199 | Appends one row (column, value) and changes nothing else. |
| `Records.Record.UpdateMagicAttribute` | lib/has/magic/columns.rb:201-203 | Gives one row a new value and changes nothing else. |
| `Records.Record.DestroyMagicAttributes` | lib/has/magic/columns.rb:127 | Removes every row of the column and keeps the rest in order. |
| `Records.Record.CreateOrUpdateWithMagic` | lib/has/magic/columns.rb:114-133 | For a record whose column set resolves: returns exactly the native result; when it is false no row changes; when true the rows become `SaveAll` of the old rows; the attribute map is unchanged. |
| `Records.Record.InitializeMagicColumns` | lib/has/magic/columns.rb:168-185 | The attribute map becomes `Materialised` of the old map; one presence validation per required column is logged, in column order; the rows are unchanged. |
| `Records.Record.ReloadWithMagic` | lib/has/magic/columns.rb:102-105 | Materialises first, then the native reload's attributes are merged over the result. |
| `Records.Record.MethodMissing` | lib/has/magic/columns.rb:136-145 | Retries exactly when the name test passes, and then the record is materialised; otherwise nothing changes and the error propagates. |
| `Materialise.MaterialisedAt` | lib/has/magic/columns.rb:168-185 | A name gets a value exactly when it was already there or some column has it; that value is the field value of the last column of that name; every other entry is unchanged. |
| `Materialise.MaterialiseIdempotent` | lib/has/magic/columns.rb:168-185 | Materialising twice without a change to the rows gives the same map as once. |
| `Materialise.RequiredNamesExact` | lib/has/magic/columns.rb:174 | A presence validation is registered for a name exactly when a required column has that name. |
| `Materialise.MaterialisedCoversColumns` | lib/has/magic/columns.rb:168-185 | After materialising, every resolved column name is a key of the attribute map, whatever the map held before. |
| `Reading.MagicColumnNames` | lib/has/magic/columns.rb:107-109 | One name per column, in column order. |
| `Reading.FindMagicColumnByName` | lib/has/magic/columns.rb:192-195 | None exactly when no column has the name; otherwise a column of that name with no earlier column of that name. |
| `Reading.NamesMatchLookup` | lib/has/magic/columns.rb:140 | A name is in the column-name list exactly when the lookup by name finds a column. |
| `RoundTrip.TypedRoundTrip` | lib/has/magic/columns.rb:148-165 | Save, materialise, read, for a column whose name is unique in the set, each id naming one column: a non-native column reads back as the type-cast of `to_s` of what was saved (element-wise for a list), or nil when that `to_s` is nil. |
| `Reading.NativeColumnsWin` | lib/has/magic/columns.rb:149 | A name that `column_for_attribute` recognises goes to the native reader, whatever the attribute map holds. |
| `Reading.DynamicReads` | lib/has/magic/columns.rb:150-164 | Any other name yields a value: nil for a nil or absent entry; the entry as it is when no magic column has the name; otherwise the entry cast by the first column of that name, element by element for a list. |
| `Dispatch.FirstMark` | lib/has/magic/columns.rb:142 | The position found holds a `?`, `|` or `=`, and no earlier position does; the name's length when none does. |
| `Dispatch.TriggersExactly` | lib/has/magic/columns.rb:141-143 | A retry happens exactly when the name is a column name, or the prefix before its first mark is. |
| `Dispatch.AccessorsTrigger` | lib/has/magic/columns.rb:141-143 | For a column name without marks, `name`, `name=` and `name?` all trigger materialisation. |
| `Dispatch.UnmarkedNeedsExactName` | lib/has/magic/columns.rb:141-143 | A name with no mark triggers only when it is itself a column name. |
| `Dispatch.TriggersIffColumnFound` | lib/has/magic/columns.rb:140-143 | The test on the name list agrees with looking up the name, or its pre-match, among the columns. |
| `ColumnSets.Downcase` | lib/has/magic/columns.rb:43 | Same length; each ASCII capital becomes its small letter, every other character is kept. |
| `ColumnSets.ThroughReaderNotWired` | lib/has/magic/columns.rb:44-51 | For a `through` type with no `inherit` and no `for` option, `magic_columns` is the owned set. The reader returns nil without a related object. With one that lacks `magic_auto_columns`, the reader raises NoMethodError. With one, it agrees with `magic_columns` exactly when the object responds to `magic_auto_columns` and those columns (or [] for nil) are the owned set. |
| `ColumnSets.ForDeclaresOnlyScoped` | lib/has/magic/columns.rb:54-63 | A `for` type declares `magic_<for>_columns`, does not declare `magic_columns`, and gets no hooks. |
| `ColumnSets.OthersDeclareMagicColumns` | lib/has/magic/columns.rb:42-52 | Every other type declares `magic_columns` and gets the hooks; a `through` type also declares its `through` reader. |
| `ColumnSets.ThroughLeavesMagicColumns` | lib/has/magic/columns.rb:46-51 | The `through` option does not change what `magic_columns` returns. |
| `ColumnSets.InheritDelegates` | lib/has/magic/columns.rb:72-77 | An `inherit` type raises the configuration error when the association is not a method of the type, gives whatever the associated object's own `magic_columns` gives when it is non-nil (its columns, or the NoMethodError of an object without magic columns), and raises NoMethodError on a nil association. |
| `ColumnSets.InheritFromPeerType` | lib/has/magic/columns.rb:72-77 | Inheriting from an object whose type is a `for` type raises NoMethodError for `magic_columns`. Inheriting from an object whose type owns its columns gives those columns. |
| `RoundTrip.StoredMaterialises` | lib/has/magic/columns.rb:177-183 | Rows that store a value materialise to that value passed through `to_s` (element-wise for a multi-value column). |
| `RoundTrip.SaveThenMaterialise` | lib/has/magic/columns.rb:14-19 | For a column whose name is unique in the set, each id naming one column: after save and materialise into any attribute map, the column's name holds what was saved, passed through `to_s`. |
| `RoundTrip.RoundTripExact` | test/has_magic_columns_test.rb:26-34 | For a column whose name is unique in the set, each id naming one column, and a `to_s` that returns what was stored: a single value reads back unchanged and a list reads back as the same list. |
| `Materialise.ReloadAfterMaterialise` | lib/has/magic/columns.rb:102-105 | Reload materialises first and the native reload's attributes are merged last. A name the reload returns takes the reloaded value, even when it is also a column name. A column name it does not return holds the field value of the last column of that name. Every other entry is kept. |
| `Rows.UnmaterialisedSaveStoresNil` | lib/has/magic/columns.rb:117-129 | A column whose name is absent from the attribute map is saved as nil. A single-value column's first row becomes (column, nil). A multi-value column is left with exactly one row (column, nil). |

## Left out

- ActiveRecord associations and join tables (lines 30-31, 58-61, 68-69): the column set is a sequence given to the record and the rows are a sequence the record owns.
- `alias_method` hooking and the `magical?` guard (lines 81-97): the model's `Record` is a record whose hooks are installed; `ColumnSets.HooksInstalled` says for which options they are.
- Ruby's `super` and `retry` in `method_missing`: the model stops at the retry decision. The source retries without a bound. A name that passes the test only through its pre-match, such as `send("last_name=x")`, still finds no method after materialising, so it is retried forever.
- The eager `after_initialize` hook (lines 34-40): only the fact that it is declared is modelled.
- `MagicColumn#type_cast`, `MagicAttribute#to_s`, `singularize`: foreign code, passed in as parameters.
- `update_attributes` and `destroy` persistence, the validation framework, native save and native reload internals: foreign; their effects are modelled as the row and map updates they make.
- Transactions and partial failure of destroy-then-recreate: the code has none, and the model's save runs to completion.
- The in-memory association cache after `destroy`: the model's rows are the stored rows, so a destroyed row is gone at once. In the source, `destroy` leaves the row in the loaded `magic_attributes` target that `find_magic_attribute_by_column` reads. `reload_with_magic` materialises before the native reload clears that cache. So a reload right after a multi-value save reads back the old values as well as the new ones. The model does not show this.
- `ColumnSets.ThroughColumns`: assumes the `through` association is a method of the type. When it is not, `send` falls into this library's `method_missing`; the model does not follow that path.
- Row ids: an update is located by position in the rows, not by the row's own id.
- `cattr_accessor :inherited_from` being class-wide, the text of the configuration error, and the case where `magic_columns` is already defined before `inherit` would alias it (line 77).
- `String#downcase`: only ASCII letters are mapped.
- `Records.Record`: the record's column set is assumed to resolve. Its `columns` is a plain sequence, so the model has no record whose `magic_columns` raises. For an `inherit` type whose association is undefined or nil, or whose associated object has no `magic_columns` (a `for` type, a type without has_magic_columns), `ColumnSets.MagicColumns` gives the fault, and in the source that exception escapes every hook. The save raises at line 116 after the native save has already returned true, so it does not return the native result. `method_missing` raises it at line 140 instead of the original NoMethodError. `initialize_magic_columns` raises at line 169, so `reload_with_magic` raises before the native reload. `read_attribute_with_magic` raises at line 153 for any non-nil dynamic entry.
- The column set of a `Record` is fixed for its lifetime; adding a column to a record's association is not modelled.
