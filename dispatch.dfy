/** The name test in method_missing (lib/has/magic/columns.rb, lines
    139-143): an unknown method triggers materialise-and-retry when its name
    is a column name, or when its part before the first match of the regular
    expression /[\?|\=]/ (a '?', a '|' or a '=') is. */
module Dispatch {
  import opened Values
  import opened Reading

  /** The characters of the class [\?|\=]. */
  predicate IsMark(ch: char) {
    ch == '?' || ch == '|' || ch == '='
  }

  /** Position of the first mark in `s`, or |s| when there is none. */
  function FirstMark(s: string): (k: nat)
    ensures k <= |s|
    ensures k < |s| ==> IsMark(s[k])
    ensures forall j :: 0 <= j < k ==> !IsMark(s[j])
  {
    if s == [] then 0
    else if IsMark(s[0]) then 0
    else 1 + FirstMark(s[1..])
  }

  /** `md.pre_match` of the first match, or None when nothing matches. */
  function PreMatch(s: string): Option<string> {
    var k := FirstMark(s);
    if k < |s| then Some(s[..k]) else None
  }

  /** The condition under which method_missing materialises and retries. */
  predicate TriggersMaterialise(methodName: string, names: seq<string>) {
    methodName in names ||
    (PreMatch(methodName).Some? && PreMatch(methodName).value in names)
  }

  /** The test, stated without the regular expression: the name is a column
      name, or some position holds a mark with no mark before it and the
      prefix up to it is a column name. */
  lemma TriggersExactly(methodName: string, names: seq<string>)
    ensures TriggersMaterialise(methodName, names) <==>
      methodName in names ||
      exists k :: 0 <= k < |methodName| && IsMark(methodName[k]) &&
        (forall j :: 0 <= j < k ==> !IsMark(methodName[j])) && methodName[..k] in names
  {
    var k := FirstMark(methodName);
    if exists i :: 0 <= i < |methodName| && IsMark(methodName[i]) &&
         (forall j :: 0 <= j < i ==> !IsMark(methodName[j])) && methodName[..i] in names {
      var i :| 0 <= i < |methodName| && IsMark(methodName[i]) &&
         (forall j :: 0 <= j < i ==> !IsMark(methodName[j])) && methodName[..i] in names;
      assert !(i < k) && !(k < i);
    }
  }

  /** The first mark of a column name followed by a suffix that starts with
      a mark is where the suffix starts. */
  lemma {:induction false} FirstMarkAfterName(name: string, suffix: string)
    requires forall j :: 0 <= j < |name| ==> !IsMark(name[j])
    requires suffix != [] && IsMark(suffix[0])
    ensures FirstMark(name + suffix) == |name|
  {
    if name != [] {
      assert (name + suffix)[1..] == name[1..] + suffix;
      FirstMarkAfterName(name[1..], suffix);
    }
  }

  /** For a column name without marks, its reader, its writer `name=` and its
      query `name?` all trigger materialisation. */
  lemma AccessorsTrigger(name: string, names: seq<string>)
    requires name in names
    requires forall j :: 0 <= j < |name| ==> !IsMark(name[j])
    ensures TriggersMaterialise(name, names)
    ensures TriggersMaterialise(name + "=", names)
    ensures TriggersMaterialise(name + "?", names)
  {
    FirstMarkAfterName(name, "=");
    FirstMarkAfterName(name, "?");
    assert (name + "=")[..|name|] == name;
    assert (name + "?")[..|name|] == name;
  }

  /** A name with no mark triggers only if it is itself a column name. */
  lemma UnmarkedNeedsExactName(methodName: string, names: seq<string>)
    requires forall j :: 0 <= j < |methodName| ==> !IsMark(methodName[j])
    ensures TriggersMaterialise(methodName, names) <==> methodName in names
  {
  }

  /** The test on the list of column names agrees with looking the name, or
      its pre-match, up among the columns. */
  lemma TriggersIffColumnFound(methodName: string, columns: seq<Column>)
    ensures TriggersMaterialise(methodName, MagicColumnNames(columns)) <==>
      FindMagicColumnByName(columns, methodName).Some? ||
      (PreMatch(methodName).Some? && FindMagicColumnByName(columns, PreMatch(methodName).value).Some?)
  {
    NamesMatchLookup(columns, methodName);
    if PreMatch(methodName).Some? {
      NamesMatchLookup(columns, PreMatch(methodName).value);
    }
  }
}
