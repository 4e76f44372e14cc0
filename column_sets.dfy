/** Column-set resolution: what has_magic_columns declares on an entity type
    for its options, and which columns `magic_columns` and the `through`
    reader return for an instance (lib/has/magic/columns.rb, lines 27-93). */
module ColumnSets {
  import opened Values

  /** The options of has_magic_columns; an absent option is None. */
  datatype Options = Options(eager: bool, through: Option<string>, forClass: Option<string>, inherit: Option<string>)

  /** A related object as the resolver sees it: what its own magic_columns
      gives (a NoMethodError for an object without magic columns, such as a
      `for` type or a type without has_magic_columns), whether it responds
      to magic_auto_columns (columns.rb does not define
      that method), and what that returns (None for nil). */
  datatype Peer = Peer(magicColumns: Resolution, hasAutoColumns: bool, autoColumns: Option<seq<Column>>)

  /** The two failures resolution can raise: the RuntimeError for an
      inherit association that is not defined, and a NoMethodError. */
  datatype Fault = ConfigurationError(association: string) | NoMethodError(methodName: string)

  datatype Resolution = Resolved(columns: seq<Column>) | Raised(fault: Fault)

  function DowncaseChar(ch: char): char {
    if 'A' <= ch <= 'Z' then (ch as int - 'A' as int + 'a' as int) as char else ch
  }

  /** String#downcase on ASCII letters. */
  function Downcase(s: string): (r: string)
    ensures |r| == |s|
    ensures forall i :: 0 <= i < |s| ==> r[i] == DowncaseChar(s[i])
  {
    if s == [] then [] else [DowncaseChar(s[0])] + Downcase(s[1..])
  }

  /** `option.to_s.downcase.singularize`; the inflector is foreign. */
  function AssociationKey(option: string, singularize: string -> string): string {
    singularize(Downcase(option))
  }

  function ThroughReader(key: string): string {
    "magic_columns_with_" + key + "_columns"
  }

  function ScopedReader(key: string): string {
    "magic_" + key + "_columns"
  }

  /** Whether the save, read and reload hooks are installed and the
      instance methods included: not for a `for` type, which returns before
      reaching them. */
  predicate HooksInstalled(options: Options) {
    options.forClass.None?
  }

  /** The instance readers has_magic_columns declares for `options`: the
      attribute associations always; the eager hook and the `through` reader
      when asked for; then either the scoped `for` collection alone, or the
      owned or inherited `magic_columns` with the public instance methods. */
  function DeclaredReaders(options: Options, singularize: string -> string): set<string> {
    var always := {"magic_attribute_relationships", "magic_attributes"}
      + (if options.eager then {"after_initialize"} else {})
      + (if options.through.Some? then {ThroughReader(AssociationKey(options.through.value, singularize))} else {});
    if options.forClass.Some? then
      always + {ScopedReader(AssociationKey(options.forClass.value, singularize))}
    else
      always + {"inherited_from", "magic_columns", "magic_column_names", "reload_with_magic"}
        + (if options.inherit.Some? then {"inherited_magic_columns"} else {"magic_column_relationships"})
  }

  /** magic_columns_with_<through>_columns: None for the nil it returns
      without a related object; else the NoMethodError of a related object
      without magic_auto_columns, or its auto columns, [] when those are nil. */
  function ThroughColumns(related: Option<Peer>): Option<Resolution> {
    match related
    case None => None
    case Some(peer) =>
      if !peer.hasAutoColumns then Some(Raised(NoMethodError("magic_auto_columns")))
      else Some(Resolved(if peer.autoColumns.Some? then peer.autoColumns.value else []))
  }

  /** inherited_magic_columns: raises unless the association is a method of
      the type, else asks the associated object for its magic_columns (a nil
      association has no such method). */
  function InheritedMagicColumns(typeMethods: set<string>, association: string, related: Option<Peer>): Resolution {
    if association !in typeMethods then Raised(ConfigurationError(association))
    else
      match related
      case None => Raised(NoMethodError("magic_columns"))
      case Some(peer) => peer.magicColumns
  }

  /** `magic_columns` of an instance: undefined for a `for` type, delegated
      for an `inherit` type, otherwise the owned columns. `related` gives
      the object each association of the instance returns. */
  function MagicColumns(options: Options, owned: seq<Column>, typeMethods: set<string>,
                        related: string -> Option<Peer>): Resolution {
    if options.forClass.Some? then Raised(NoMethodError("magic_columns"))
    else if options.inherit.Some? then
      InheritedMagicColumns(typeMethods, options.inherit.value, related(options.inherit.value))
    else Resolved(owned)
  }

  /** A `for` type gains its scoped collection but no `magic_columns` and no
      hooks. */
  lemma ForDeclaresOnlyScoped(options: Options, singularize: string -> string)
    requires options.forClass.Some?
    ensures ScopedReader(AssociationKey(options.forClass.value, singularize)) in DeclaredReaders(options, singularize)
    ensures "magic_columns" !in DeclaredReaders(options, singularize)
    ensures !HooksInstalled(options)
  {
    var key := AssociationKey(options.forClass.value, singularize);
    assert |ScopedReader(key)| == 14 + |key|;
    if options.through.Some? {
      var t := AssociationKey(options.through.value, singularize);
      assert |ThroughReader(t)| == 27 + |t|;
    }
  }

  /** Every type that is not a `for` type gains `magic_columns`, `through`
      types included, and the `through` reader is declared beside it. */
  lemma OthersDeclareMagicColumns(options: Options, singularize: string -> string)
    requires options.forClass.None?
    ensures "magic_columns" in DeclaredReaders(options, singularize)
    ensures HooksInstalled(options)
    ensures options.through.Some? ==>
      ThroughReader(AssociationKey(options.through.value, singularize)) in DeclaredReaders(options, singularize)
  {
  }

  /** The `through` option does not change what magic_columns returns: the
      alias that would have replaced it is commented out. */
  lemma ThroughLeavesMagicColumns(options: Options, owned: seq<Column>, typeMethods: set<string>,
                                  related: string -> Option<Peer>)
    ensures MagicColumns(options, owned, typeMethods, related)
         == MagicColumns(options.(through := None), owned, typeMethods, related)
  {
  }

  /** An `inherit` type reads the columns of the associated object, and
      raises the configuration error when the association is not defined. */
  lemma InheritDelegates(options: Options, owned: seq<Column>, typeMethods: set<string>,
                         related: string -> Option<Peer>)
    requires options.forClass.None? && options.inherit.Some?
    ensures var a := options.inherit.value;
      (a !in typeMethods ==> MagicColumns(options, owned, typeMethods, related) == Raised(ConfigurationError(a))) &&
      (a in typeMethods && related(a).Some? ==>
         MagicColumns(options, owned, typeMethods, related) == related(a).value.magicColumns) &&
      (a in typeMethods && related(a).None? ==>
         MagicColumns(options, owned, typeMethods, related) == Raised(NoMethodError("magic_columns")))
  {
  }

  /** The `through` reader is declared but not wired in: for a `through`
      type, magic_columns is still the owned set, and the reader agrees with
      it exactly when the related object responds to magic_auto_columns and
      its auto columns (or [] for nil) are the owned set. */
  lemma ThroughReaderNotWired(options: Options, owned: seq<Column>, typeMethods: set<string>,
                              related: string -> Option<Peer>, singularize: string -> string)
    requires options.forClass.None? && options.inherit.None? && options.through.Some?
    ensures MagicColumns(options, owned, typeMethods, related) == Resolved(owned)
    ensures var peer := related(AssociationKey(options.through.value, singularize));
      (peer.None? ==> ThroughColumns(peer).None?) &&
      (peer.Some? && !peer.value.hasAutoColumns ==>
        ThroughColumns(peer) == Some(Raised(NoMethodError("magic_auto_columns")))) &&
      (peer.Some? ==>
        (ThroughColumns(peer) == Some(MagicColumns(options, owned, typeMethods, related)) <==>
           peer.value.hasAutoColumns &&
           (if peer.value.autoColumns.Some? then peer.value.autoColumns.value else []) == owned))
  {
  }

  /** Inheriting from an object whose own type is a `for` type raises the
      NoMethodError of its missing magic_columns, since the resolver asks
      that object for them; inheriting from an object whose type owns its
      columns gives those columns. */
  lemma InheritFromPeerType(options: Options, owned: seq<Column>, typeMethods: set<string>,
                            related: string -> Option<Peer>, peerOptions: Options, peerOwned: seq<Column>,
                            peerMethods: set<string>, peerRelated: string -> Option<Peer>)
    requires options.forClass.None? && options.inherit.Some? && options.inherit.value in typeMethods
    requires var peer := related(options.inherit.value);
      peer.Some? && peer.value.magicColumns == MagicColumns(peerOptions, peerOwned, peerMethods, peerRelated)
    ensures peerOptions.forClass.Some? ==>
      MagicColumns(options, owned, typeMethods, related) == Raised(NoMethodError("magic_columns"))
    ensures peerOptions.forClass.None? && peerOptions.inherit.None? ==>
      MagicColumns(options, owned, typeMethods, related) == Resolved(peerOwned)
  {
  }
}
