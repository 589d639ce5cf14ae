/**
 * The rules a classlist entry must follow, per category of the class it
 * names. An entry is a class name followed by optional keywords "id",
 * "super", "interfaces", "loader" and "source".
 */
module Classlist {
  import opened Wrappers
  import opened SharedCategory

  datatype Keyword = Id | Super | Interfaces | Loader | Source

  /** One line of a classlist; a keyword is present exactly when its field is Some. */
  datatype ClasslistEntry = ClasslistEntry(
    name: string,
    id: Option<int>,
    superId: Option<int>,
    interfaces: Option<seq<int>>,
    loader: Option<string>,
    source: Option<string>)

  /** The keywords the entry carries. */
  function Keywords(e: ClasslistEntry): (ks: set<Keyword>)
    ensures Id in ks <==> e.id.Some?
    ensures Super in ks <==> e.superId.Some?
    ensures Interfaces in ks <==> e.interfaces.Some?
    ensures Loader in ks <==> e.loader.Some?
    ensures Source in ks <==> e.source.Some?
  {
    (if e.id.Some? then {Id} else {})
    + (if e.superId.Some? then {Super} else {})
    + (if e.interfaces.Some? then {Interfaces} else {})
    + (if e.loader.Some? then {Loader} else {})
    + (if e.source.Some? then {Source} else {})
  }

  /** BUILTIN: only "id" may be given, and it is optional. */
  predicate ValidBuiltinEntry(e: ClasslistEntry)
  {
    Keywords(e) <= {Id}
  }

  /** UNREGISTERED: "id", "super" and "source" are all required, and
      "interfaces" is given exactly when the class implements local
      interfaces. */
  predicate ValidUnregisteredEntry(e: ClasslistEntry, implementsLocalInterfaces: bool)
  {
    && Id in Keywords(e)
    && Super in Keywords(e)
    && Source in Keywords(e)
    && (Interfaces in Keywords(e) <==> implementsLocalInterfaces)
  }

  predicate ValidEntry(e: ClasslistEntry, category: Category, implementsLocalInterfaces: bool)
  {
    match category
    case Builtin => ValidBuiltinEntry(e)
    case Unregistered => ValidUnregisteredEntry(e, implementsLocalInterfaces)
  }

  datatype ClasslistError =
    | ForbiddenKeyword(keyword: Keyword)
    | MissingKeyword(keyword: Keyword)

  /** The first keyword of ks that the entry carries, if any. */
  function FirstPresent(e: ClasslistEntry, ks: seq<Keyword>): (r: Option<Keyword>)
    ensures r.Some? ==> r.value in ks && r.value in Keywords(e)
    ensures r.None? ==> forall k :: k in ks ==> k !in Keywords(e)
  {
    if ks == [] then None
    else if ks[0] in Keywords(e) then Some(ks[0])
    else FirstPresent(e, ks[1..])
  }

  /** The first keyword of ks that the entry lacks, if any. */
  function FirstMissing(e: ClasslistEntry, ks: seq<Keyword>): (r: Option<Keyword>)
    ensures r.Some? ==> r.value in ks && r.value !in Keywords(e)
    ensures r.None? ==> forall k :: k in ks ==> k in Keywords(e)
  {
    if ks == [] then None
    else if ks[0] !in Keywords(e) then Some(ks[0])
    else FirstMissing(e, ks[1..])
  }

  /**
   * Checks an entry against its category's rules and names the offending
   * keyword: the entry is accepted exactly when it is valid, and a reported
   * keyword really is forbidden (present) or required (absent).
   */
  function CheckEntry(e: ClasslistEntry, category: Category, implementsLocalInterfaces: bool)
    : (r: Option<ClasslistError>)
    ensures r.None? <==> ValidEntry(e, category, implementsLocalInterfaces)
    ensures r.Some? && r.value.ForbiddenKeyword? ==>
      r.value.keyword in Keywords(e)
      && (category == Builtin ==> r.value.keyword != Id)
      && (category == Unregistered ==> r.value.keyword == Interfaces && !implementsLocalInterfaces)
    ensures r.Some? && r.value.MissingKeyword? ==>
      category == Unregistered && r.value.keyword !in Keywords(e)
      && (r.value.keyword in {Id, Super, Source} || (r.value.keyword == Interfaces && implementsLocalInterfaces))
  {
    match category
    case Builtin =>
      var extra := FirstPresent(e, [Super, Interfaces, Loader, Source]);
      if extra.Some? then Some(ForbiddenKeyword(extra.value)) else None
    case Unregistered =>
      var required := if implementsLocalInterfaces then [Id, Super, Source, Interfaces]
                      else [Id, Super, Source];
      var missing := FirstMissing(e, required);
      if missing.Some? then Some(MissingKeyword(missing.value))
      else if !implementsLocalInterfaces && Interfaces in Keywords(e) then Some(ForbiddenKeyword(Interfaces))
      else None
  }

  /** The example classlist: java/lang/Object and java/lang/Cloneable with
      "id" only are valid BUILTIN entries, java/lang/String with no keyword
      too, and
      Bar with id, super, interfaces and source is a valid UNREGISTERED
      entry for a class that implements a local interface. */
  lemma ExampleClasslistIsValid()
    ensures ValidBuiltinEntry(ClasslistEntry("java/lang/Object", Some(0), None, None, None, None))
    ensures ValidBuiltinEntry(ClasslistEntry("java/lang/Cloneable", Some(1), None, None, None, None))
    ensures ValidBuiltinEntry(ClasslistEntry("java/lang/String", None, None, None, None, None))
    ensures ValidUnregisteredEntry(ClasslistEntry("Bar", Some(3), Some(0), Some([1]), None, Some("/foo.jar")), true)
    ensures !ValidUnregisteredEntry(ClasslistEntry("Bar", Some(3), Some(0), Some([1]), None, Some("/foo.jar")), false)
    ensures !ValidBuiltinEntry(ClasslistEntry("Bar", Some(3), Some(0), Some([1]), None, Some("/foo.jar")))
  {
  }
}
