/**
 * The two disjoint categories of archived classes (BUILTIN and
 * UNREGISTERED) and how a class's shared classpath index decides which
 * one it belongs to.
 */
module SharedCategory {

  /** Sentinel shared classpath index of a class defined by a loader that
      is not one of the BOOT, PLATFORM or APP loaders. */
  const UNREGISTERED_INDEX: int := -9999

  /** The part of an archived class that the archive's category and lookup
      rules read: its name, its shared classpath index and the fingerprint
      (class file length and CRC-32) of the bytes it was defined from. */
  datatype ArchivedClass = ArchivedClass(
    name: string,
    sharedClasspathIndex: int,
    clsfileSize: int,
    clsfileCrc32: int)

  datatype Category = Builtin | Unregistered

  /** is_builtin: every class whose index is not the sentinel is BUILTIN. */
  predicate IsBuiltin(k: ArchivedClass)
  {
    k.sharedClasspathIndex != UNREGISTERED_INDEX
  }

  /** The category the code assigns; each class gets exactly one. */
  function CategoryOf(k: ArchivedClass): (c: Category)
    ensures c == Builtin <==> k.sharedClasspathIndex != UNREGISTERED_INDEX
    ensures c == Unregistered <==> k.sharedClasspathIndex == UNREGISTERED_INDEX
  {
    if IsBuiltin(k) then Builtin else Unregistered
  }

  /** The category as the header's block comment states it: BUILTIN for an
      index >= 0, UNREGISTERED for the sentinel, and no category for any
      other index. */
  function DocumentedCategory(index: int): (c: Category)
    requires index >= 0 || index == UNREGISTERED_INDEX
    ensures c == Builtin <==> index >= 0
  {
    if index >= 0 then Builtin else Unregistered
  }

  /** On every index the block comment covers, the code agrees with it. */
  lemma CodeAgreesWithComment(k: ArchivedClass)
    requires k.sharedClasspathIndex >= 0 || k.sharedClasspathIndex == UNREGISTERED_INDEX
    ensures CategoryOf(k) == DocumentedCategory(k.sharedClasspathIndex)
    ensures IsBuiltin(k) <==> k.sharedClasspathIndex >= 0
    ensures !IsBuiltin(k) <==> k.sharedClasspathIndex == UNREGISTERED_INDEX
  {
  }

  /** Outside the comment's domain the code still decides: a negative index
      other than the sentinel is classified BUILTIN. */
  lemma NegativeNonSentinelIsBuiltin(k: ArchivedClass)
    requires k.sharedClasspathIndex < 0 && k.sharedClasspathIndex != UNREGISTERED_INDEX
    ensures IsBuiltin(k) && CategoryOf(k) == Builtin
  {
  }

  /**
   * The segregation of the archived classes into the two dictionaries:
   * BUILTIN classes go to the first, UNREGISTERED ones to the second, and
   * no class is lost or duplicated.
   */
  function Segregate(classes: seq<ArchivedClass>): (r: (seq<ArchivedClass>, seq<ArchivedClass>))
    ensures forall k :: k in r.0 ==> IsBuiltin(k)
    ensures forall k :: k in r.1 ==> !IsBuiltin(k)
    ensures multiset(r.0) + multiset(r.1) == multiset(classes)
  {
    if classes == [] then ([], [])
    else
      var rest := Segregate(classes[1..]);
      assert classes == [classes[0]] + classes[1..];
      if IsBuiltin(classes[0]) then ([classes[0]] + rest.0, rest.1)
      else (rest.0, [classes[0]] + rest.1)
  }

  /** Every class ends up in exactly one dictionary: the one its category
      names. */
  lemma {:induction false} SegregateSplitsByCategory(classes: seq<ArchivedClass>, k: ArchivedClass)
    requires k in classes
    ensures IsBuiltin(k) ==> k in Segregate(classes).0 && k !in Segregate(classes).1
    ensures !IsBuiltin(k) ==> k in Segregate(classes).1 && k !in Segregate(classes).0
  {
    var r := Segregate(classes);
    assert k in multiset(classes);
    assert k in multiset(r.0) || k in multiset(r.1);
  }
}
