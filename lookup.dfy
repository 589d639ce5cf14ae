/**
 * Run-time lookup of archived classes: the BUILTIN dictionary is searched
 * by name alone, the UNREGISTERED dictionary by (name, clsfile_len,
 * clsfile_crc32). Also the package lookup that a NULL loader short-cuts.
 */
module SharedLookup {
  import opened Wrappers
  import opened SharedCategory

  /** A run-time dictionary, as the sequence of its records. */
  type Dictionary = seq<ArchivedClass>

  /** The two dictionaries of an archive. */
  datatype Archive = Archive(builtinDictionary: Dictionary, unregisteredDictionary: Dictionary)

  /** What a loader asks for: a BUILTIN loader gives only a name, any other
      loader also the length and CRC-32 of the class file it holds. */
  datatype Query =
    | BuiltinQuery(name: string)
    | UnregisteredQuery(name: string, clsfileSize: int, clsfileCrc32: int)

  /** Finds a record by name alone; a miss means no record has that name. */
  function FindRecord(dict: Dictionary, name: string): (r: Option<ArchivedClass>)
    ensures r.Some? ==> r.value in dict && r.value.name == name
    ensures r.None? <==> forall k :: k in dict ==> k.name != name
  {
    if dict == [] then None
    else if dict[0].name == name then Some(dict[0])
    else FindRecord(dict[1..], name)
  }

  /** Does the record carry this name and fingerprint? */
  predicate MatchesFingerprint(k: ArchivedClass, name: string, clsfileSize: int, clsfileCrc32: int)
  {
    k.name == name && k.clsfileSize == clsfileSize && k.clsfileCrc32 == clsfileCrc32
  }

  /** Finds a record matching name, clsfile_len and clsfile_crc32 together;
      a miss means no record matches all three. */
  function FindUnregisteredRecord(dict: Dictionary, name: string, clsfileSize: int, clsfileCrc32: int)
    : (r: Option<ArchivedClass>)
    ensures r.Some? ==> r.value in dict && MatchesFingerprint(r.value, name, clsfileSize, clsfileCrc32)
    ensures r.None? <==> forall k :: k in dict ==> !MatchesFingerprint(k, name, clsfileSize, clsfileCrc32)
  {
    if dict == [] then None
    else if MatchesFingerprint(dict[0], name, clsfileSize, clsfileCrc32) then Some(dict[0])
    else FindUnregisteredRecord(dict[1..], name, clsfileSize, clsfileCrc32)
  }

  /** A BUILTIN loader searches the BUILTIN dictionary, any other loader the
      UNREGISTERED one. */
  function Lookup(archive: Archive, q: Query): (r: Option<ArchivedClass>)
    ensures q.BuiltinQuery? && r.Some? ==> r.value in archive.builtinDictionary && r.value.name == q.name
    ensures q.UnregisteredQuery? && r.Some? ==>
      r.value in archive.unregisteredDictionary
      && MatchesFingerprint(r.value, q.name, q.clsfileSize, q.clsfileCrc32)
    ensures q.BuiltinQuery? ==>
      (r.None? <==> forall k :: k in archive.builtinDictionary ==> k.name != q.name)
    ensures q.UnregisteredQuery? ==>
      (r.None? <==> forall k :: k in archive.unregisteredDictionary ==>
                      !MatchesFingerprint(k, q.name, q.clsfileSize, q.clsfileCrc32))
  {
    match q
    case BuiltinQuery(name) => FindRecord(archive.builtinDictionary, name)
    case UnregisteredQuery(name, size, crc) =>
      FindUnregisteredRecord(archive.unregisteredDictionary, name, size, crc)
  }

  /** The archive built from the classes kept at dump time. */
  function DumpArchive(classes: seq<ArchivedClass>): (a: Archive)
    ensures forall k :: k in a.builtinDictionary ==> IsBuiltin(k)
    ensures forall k :: k in a.unregisteredDictionary ==> !IsBuiltin(k)
    ensures multiset(a.builtinDictionary) + multiset(a.unregisteredDictionary) == multiset(classes)
  {
    var (b, u) := Segregate(classes);
    Archive(b, u)
  }

  /**
   * Every archived class is found again by the query of its own category:
   * by its name if BUILTIN, by name and fingerprint if UNREGISTERED; and a
   * hit is always of the queried category.
   */
  lemma DumpThenLookup(classes: seq<ArchivedClass>, k: ArchivedClass)
    requires k in classes
    ensures IsBuiltin(k) ==>
      var r := Lookup(DumpArchive(classes), BuiltinQuery(k.name));
      r.Some? && r.value.name == k.name && IsBuiltin(r.value)
    ensures !IsBuiltin(k) ==>
      var r := Lookup(DumpArchive(classes), UnregisteredQuery(k.name, k.clsfileSize, k.clsfileCrc32));
      r.Some? && MatchesFingerprint(r.value, k.name, k.clsfileSize, k.clsfileCrc32) && !IsBuiltin(r.value)
  {
    SegregateSplitsByCategory(classes, k);
  }

  /** A BUILTIN lookup never reaches an UNREGISTERED class, nor the
      reverse. */
  lemma LookupStaysInCategory(classes: seq<ArchivedClass>, q: Query)
    ensures q.BuiltinQuery? && Lookup(DumpArchive(classes), q).Some? ==>
      IsBuiltin(Lookup(DumpArchive(classes), q).value)
    ensures q.UnregisteredQuery? && Lookup(DumpArchive(classes), q).Some? ==>
      !IsBuiltin(Lookup(DumpArchive(classes), q).value)
  {
  }

  /**
   * When the archive holds a class under this name with fingerprint
   * (size, crc) and no other, asking with a different length or a
   * different CRC-32 is a miss.
   */
  lemma FingerprintMismatchMisses(dict: Dictionary, name: string, size: int, crc: int,
                                  otherSize: int, otherCrc: int)
    requires forall k :: k in dict && k.name == name ==> k.clsfileSize == size && k.clsfileCrc32 == crc
    requires otherSize != size || otherCrc != crc
    ensures FindUnregisteredRecord(dict, name, otherSize, otherCrc).None?
  {
  }

  /** Asking with a name that no record carries is a miss, whatever the
      fingerprint. */
  lemma UnknownNameMisses(dict: Dictionary, name: string, size: int, crc: int)
    requires forall k :: k in dict ==> k.name != name
    ensures FindUnregisteredRecord(dict, name, size, crc).None?
    ensures FindRecord(dict, name).None?
  {
  }

  /** A package entry; only its identity matters here. */
  datatype PackageEntry = PackageEntry(name: string)

  /** The part of a loader's data that get_package_entry reads: its package
      table, a map from package name to entry. */
  datatype ClassLoaderData = ClassLoaderData(packages: map<string, PackageEntry>)

  /** get_package_entry: no loader data means no package; otherwise the
      package table is probed without creating an entry. */
  function GetPackageEntry(pkg: string, loaderData: Option<ClassLoaderData>): (r: Option<PackageEntry>)
    ensures loaderData.None? ==> r.None?
    ensures r.Some? <==> loaderData.Some? && pkg in loaderData.value.packages
    ensures r.Some? ==> r.value == loaderData.value.packages[pkg]
  {
    match loaderData
    case None => None
    case Some(data) => if pkg in data.packages then Some(data.packages[pkg]) else None
  }
}
