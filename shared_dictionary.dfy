/**
 * The mutable static state of the shared system dictionary: the three
 * arrays that hold the per-classpath-entry security objects, published
 * write-once, and the debug flag set while no class loading may happen.
 */
module SharedDictionary {
  import opened Wrappers
  import opened Publication
  import opened GuardModel

  /** A Java heap object, by identity; an empty array slot is None. */
  datatype Oop = Oop(address: nat)

  class SystemDictionaryShared {
    var sharedProtectionDomains: array<Option<Oop>>
    var sharedJarUrls: array<Option<Oop>>
    var sharedJarManifests: array<Option<Oop>>
    var noClassLoadingShouldHappen: bool

    /** The three arrays are separate objects, indexed by the same shared
        classpath indices. */
    ghost predicate Valid()
      reads this
    {
      && sharedProtectionDomains != sharedJarUrls
      && sharedProtectionDomains != sharedJarManifests
      && sharedJarUrls != sharedJarManifests
      && sharedProtectionDomains.Length == sharedJarUrls.Length == sharedJarManifests.Length
    }

    /** Fresh arrays of the given size, every slot empty, flag clear. */
    constructor (size: nat)
      ensures Valid()
      ensures fresh(sharedProtectionDomains) && fresh(sharedJarUrls) && fresh(sharedJarManifests)
      ensures sharedProtectionDomains.Length == size
      ensures forall i :: 0 <= i < size ==>
        sharedProtectionDomains[i].None? && sharedJarUrls[i].None? && sharedJarManifests[i].None?
      ensures !noClassLoadingShouldHappen
    {
      sharedProtectionDomains := new Option<Oop>[size](_ => None);
      sharedJarUrls := new Option<Oop>[size](_ => None);
      sharedJarManifests := new Option<Oop>[size](_ => None);
      noClassLoadingShouldHappen := false;
    }

    /** atomic_set_array_index: o goes into the slot only if it is empty;
        a filled slot and every other slot are left as they were. */
    static method AtomicSetArrayIndex(a: array<Option<Oop>>, index: int, o: Oop)
      requires 0 <= index < a.Length
      modifies a
      ensures a[..] == Publish(old(a[..]), index, o)
      ensures old(a[index]).None? ==> a[index] == Some(o)
      ensures old(a[index]).Some? ==> a[index] == old(a[index])
    {
      if a[index].None? {
        a[index] := Some(o);
      }
    }

    method AtomicSetSharedProtectionDomain(index: int, pd: Oop)
      requires Valid() && 0 <= index < sharedProtectionDomains.Length
      modifies sharedProtectionDomains
      ensures Valid()
      ensures sharedProtectionDomains[..] == Publish(old(sharedProtectionDomains[..]), index, pd)
      ensures unchanged(sharedJarUrls) && unchanged(sharedJarManifests)
    {
      AtomicSetArrayIndex(sharedProtectionDomains, index, pd);
    }

    method AtomicSetSharedJarUrl(index: int, url: Oop)
      requires Valid() && 0 <= index < sharedJarUrls.Length
      modifies sharedJarUrls
      ensures Valid()
      ensures sharedJarUrls[..] == Publish(old(sharedJarUrls[..]), index, url)
      ensures unchanged(sharedProtectionDomains) && unchanged(sharedJarManifests)
    {
      AtomicSetArrayIndex(sharedJarUrls, index, url);
    }

    method AtomicSetSharedJarManifest(index: int, man: Oop)
      requires Valid() && 0 <= index < sharedJarManifests.Length
      modifies sharedJarManifests
      ensures Valid()
      ensures sharedJarManifests[..] == Publish(old(sharedJarManifests[..]), index, man)
      ensures unchanged(sharedProtectionDomains) && unchanged(sharedJarUrls)
    {
      AtomicSetArrayIndex(sharedJarManifests, index, man);
    }
  }

  /** A scoped mark: constructing it enters the no-class-loading region,
      Release (the destructor) leaves it. */
  class NoClassLoadingMark {
    const shared: SystemDictionaryShared

    constructor (shared: SystemDictionaryShared)
      requires !shared.noClassLoadingShouldHappen
      modifies shared`noClassLoadingShouldHappen
      ensures this.shared == shared
      ensures Step(old(shared.noClassLoadingShouldHappen), Construct) == Some(shared.noClassLoadingShouldHappen)
      ensures shared.noClassLoadingShouldHappen
    {
      this.shared := shared;
      shared.noClassLoadingShouldHappen := true;
    }

    method Release()
      modifies shared`noClassLoadingShouldHappen
      ensures Step(old(shared.noClassLoadingShouldHappen), Destruct) == Some(shared.noClassLoadingShouldHappen)
      ensures !shared.noClassLoadingShouldHappen
    {
      shared.noClassLoadingShouldHappen := false;
    }
  }
}
