# Shared system dictionary (AppCDS) — category, lookup and publication rules

This project models the core of HotSpot's `SystemDictionaryShared`, the
part of the JVM that handles classes stored in an application class-data
sharing (AppCDS) archive. It models:

- how an archived class is put into one of two disjoint categories,
  BUILTIN (defined by the boot, platform or app loader) or UNREGISTERED
  (defined by any other loader), from its shared classpath index;
- the rules for classlist entries in each category;
- how each category is looked up at run time. BUILTIN classes are found
  by name alone. UNREGISTERED classes are found by name, class file
  length and CRC-32 together;
- the write-once publication of the per-classpath-entry protection
  domains, jar URLs and jar manifests. The first value stored in an
  empty slot wins, and every later query sees that value;
- the debug-only no-class-loading mark, which may not be nested;
- the three `FROM_*` flag bits of a verification constraint.

Modules:

- `SharedCategory` (`category.dfy`): the classifier and the split of
  archived classes into the two dictionaries.
- `VerificationFlags` (`flags.dfy`): the flag bits, and encoding and
  decoding of the three booleans.
- `Classlist` (`classlist.dfy`): the per-category keyword rules, and a
  checker that names the offending keyword.
- `SharedLookup` (`lookup.dfy`): dictionary lookup, the dump-then-lookup
  round trip, and `get_package_entry`.
- `Publication` (`publication.dfy`): the write-once rule on slot contents,
  and what any sequence of publishes leaves behind.
- `GuardModel` (`guard.dfy`): the no-class-loading flag as a state
  machine over construct and destruct events.
- `SharedDictionary` (`shared_dictionary.dfy`): the mutable state. Class
  `SystemDictionaryShared` holds the three arrays and the flag, with the
  `atomic_set_*` methods. Class `NoClassLoadingMark` is the scoped mark.
- `Wrappers` (`wrappers.dfy`): `Option`, standing for a pointer that may
  be NULL.

Where the header's block comment and the code disagree, the model follows
the code. The comment says a class is BUILTIN when its index is `>= 0`.
`is_builtin` tests `!= UNREGISTERED_INDEX` (-9999) instead. So a negative
index other than -9999 counts as BUILTIN in the model (see
`NegativeNonSentinelIsBuiltin`). On the indices the comment covers, the
two agree (see `CodeAgreesWithComment`).

## Model

| member | source | states |
|---|---|---|
| `SharedCategory.CategoryOf` | src/hotspot/share/classfile/systemDictionaryShared.hpp:293-295 | a class is BUILTIN exactly when its shared classpath index is not -9999, and UNREGISTERED exactly when it is; so each class has exactly one category |
| `SharedCategory.DocumentedCategory` | src/hotspot/share/classfile/systemDictionaryShared.hpp:86-89 | the block comment's rule: BUILTIN iff the index is >= 0, on indices that are >= 0 or -9999 |
| `SharedCategory.CodeAgreesWithComment` | src/hotspot/share/classfile/systemDictionaryShared.hpp:86-103 | for indices >= 0 or == -9999, `is_builtin` holds iff the index is >= 0, and fails iff it is -9999 |
| `SharedCategory.NegativeNonSentinelIsBuiltin` | src/hotspot/share/classfile/systemDictionaryShared.hpp:293-295 | a negative index other than -9999, which the comment leaves uncategorised, is BUILTIN by the code |
| `SharedCategory.Segregate` | src/hotspot/share/classfile/systemDictionaryShared.hpp:39-51 | archived classes are split into a BUILTIN group and an UNREGISTERED group; the groups' multisets add up to the input |
| `SharedCategory.SegregateSplitsByCategory` | src/hotspot/share/classfile/systemDictionaryShared.hpp:45-51 | each class lands in the group of its own category and not in the other |
| `VerificationFlags.FlagsAreDistinctBits` | src/hotspot/share/classfile/systemDictionaryShared.hpp:114-118 | the three `FROM_*` constants are single bits, pairwise disjoint |
| `VerificationFlags.Encode` | src/hotspot/share/classfile/systemDictionaryShared.hpp:288-290 | the mask sets each flag's bit exactly when its boolean is true, and sets no other bit |
| `VerificationFlags.Decode` | src/hotspot/share/classfile/systemDictionaryShared.hpp:114-118 | each boolean is true exactly when its flag bit is set in the mask |
| `VerificationFlags.DecodeEncode` | src/hotspot/share/classfile/systemDictionaryShared.hpp:288-290 | decoding the mask of three booleans gives back the same booleans |
| `VerificationFlags.EncodeDecode` | src/hotspot/share/classfile/systemDictionaryShared.hpp:114-118 | re-encoding a decoded mask keeps exactly its three flag bits |
| `VerificationFlags.EncodeInjective` | src/hotspot/share/classfile/systemDictionaryShared.hpp:114-118 | different flag triples never share a mask |
| `VerificationFlags.MakeConstraint` | src/hotspot/share/classfile/systemDictionaryShared.hpp:279-290 | a constraint keeps both names, and its flags decode to the three booleans passed in |
| `Classlist.Keywords` | src/hotspot/share/classfile/systemDictionaryShared.hpp:55-56 | an entry carries each of "id", "super", "interfaces", "loader", "source" exactly when that field is given |
| `Classlist.CheckEntry` | src/hotspot/share/classfile/systemDictionaryShared.hpp:59-73 | an entry is accepted iff it is valid: BUILTIN has at most "id"; UNREGISTERED has "id", "super" and "source", and "interfaces" iff the class implements local interfaces. A reported keyword really is forbidden-and-present or required-and-absent |
| `Classlist.ExampleClasslistIsValid` | src/hotspot/share/classfile/systemDictionaryShared.hpp:75-83 | the comment's example entries (Object, Cloneable, String, Bar) are valid in their categories; `Bar` is not valid as BUILTIN, nor as UNREGISTERED for a class without local interfaces |
| `SharedLookup.FindRecord` | src/hotspot/share/classfile/systemDictionaryShared.hpp:224-226 | a hit is a record of the dictionary with that name; a miss means no record has that name |
| `SharedLookup.FindUnregisteredRecord` | src/hotspot/share/classfile/systemDictionaryShared.hpp:97-100 | a hit is a record matching name, clsfile_len and clsfile_crc32; a miss means no record matches all three |
| `SharedLookup.Lookup` | src/hotspot/share/classfile/systemDictionaryShared.hpp:91-100 | a BUILTIN query hits only the BUILTIN dictionary, by name; an UNREGISTERED query hits only the UNREGISTERED dictionary, on all three keys; in both cases a miss means no record of that dictionary matches |
| `SharedLookup.DumpArchive` | src/hotspot/share/classfile/systemDictionaryShared.hpp:91-100 | the BUILTIN dictionary holds only BUILTIN classes, the UNREGISTERED dictionary only UNREGISTERED ones, and together they hold every dumped class exactly once |
| `SharedLookup.DumpThenLookup` | src/hotspot/share/classfile/systemDictionaryShared.hpp:91-100 | every archived class is found again by its own category's query, and the record found is of that category |
| `SharedLookup.LookupStaysInCategory` | src/hotspot/share/classfile/systemDictionaryShared.hpp:91-100 | a BUILTIN query never returns an UNREGISTERED class, and the reverse |
| `SharedLookup.FingerprintMismatchMisses` | src/hotspot/share/classfile/systemDictionaryShared.hpp:97-100 | when the archived class of that name has fingerprint (len, crc), asking with a different length or CRC-32 is a miss |
| `SharedLookup.UnknownNameMisses` | src/hotspot/share/classfile/systemDictionaryShared.hpp:93-100 | asking for a name no record carries is a miss in either kind of lookup |
| `SharedLookup.GetPackageEntry` | src/hotspot/share/classfile/systemDictionaryShared.hpp:247-254 | NULL loader data gives NULL; otherwise the entry is the package table's entry for the name, and NULL when there is none |
| `Publication.Publish` | src/hotspot/share/classfile/systemDictionaryShared.hpp:185-191 | an empty slot receives the value; a filled slot and all other slots are unchanged |
| `Publication.FirstPublishWins` | src/hotspot/share/classfile/systemDictionaryShared.hpp:186-190 | after any sequence of publishes, a slot keeps its original value if filled, otherwise holds the value of the first call aimed at it |
| `Publication.FilledSlotNeverChanges` | src/hotspot/share/classfile/systemDictionaryShared.hpp:186-190 | once a slot is filled, every later state holds the same value there, so all readers converge |
| `GuardModel.Step` | src/hotspot/share/classfile/systemDictionaryShared.hpp:312-321 | constructing fails exactly when the flag is set, otherwise sets it; destructing always succeeds and clears it |
| `GuardModel.RunAcceptsExactlyUnnested` | src/hotspot/share/classfile/systemDictionaryShared.hpp:312-321 | a sequence of marks passes the "must not be nested" assertion iff no mark is built while one is live; the final flag is set iff the last event built a mark |
| `GuardModel.NestedMarkIsRejected` | src/hotspot/share/classfile/systemDictionaryShared.hpp:314-316 | two constructions without a destruction between them trip the assertion |
| `GuardModel.SequentialScopesEndClear` | src/hotspot/share/classfile/systemDictionaryShared.hpp:314-320 | marks used one scope after another, from a clear flag, leave the flag clear |
| `SharedDictionary.SystemDictionaryShared.constructor` | src/hotspot/share/classfile/systemDictionaryShared.hpp:121-127 | the three arrays are distinct, of one size, with every slot empty; the flag is clear |
| `SharedDictionary.SystemDictionaryShared.AtomicSetArrayIndex` | src/hotspot/share/classfile/systemDictionaryShared.hpp:185-191 | the array afterwards is `Publish` of the array before: written only if the slot was empty |
| `SharedDictionary.SystemDictionaryShared.AtomicSetSharedProtectionDomain` | src/hotspot/share/classfile/systemDictionaryShared.hpp:194-196 | publishes into the protection-domain array only; the URL and manifest arrays are unchanged |
| `SharedDictionary.SystemDictionaryShared.AtomicSetSharedJarUrl` | src/hotspot/share/classfile/systemDictionaryShared.hpp:199-201 | publishes into the jar-URL array only; the other two arrays are unchanged |
| `SharedDictionary.SystemDictionaryShared.AtomicSetSharedJarManifest` | src/hotspot/share/classfile/systemDictionaryShared.hpp:204-206 | publishes into the jar-manifest array only; the other two arrays are unchanged |
| `SharedDictionary.NoClassLoadingMark.constructor` | src/hotspot/share/classfile/systemDictionaryShared.hpp:314-317 | requires the flag clear (not nested) and leaves it set, as `GuardModel.Step` on Construct |
| `SharedDictionary.NoClassLoadingMark.Release` | src/hotspot/share/classfile/systemDictionaryShared.hpp:318-320 | clears the flag unconditionally, as `GuardModel.Step` on Destruct |

## Left out

- Thread interleaving and the atomicity of `atomic_compare_exchange_oop`: only the sequential effect of one conditional write is modelled. `FirstPublishWins` takes the calls in the order they took effect.
- `SharedDictionary.SystemDictionaryShared.AtomicSetArrayIndex`: the published object is modelled as non-NULL (`Oop`). Passing NULL, which would leave the slot unchanged, is not modelled.
- The readers `shared_protection_domain`, `shared_jar_url` and `shared_jar_manifest`: only declared in the header. A read is the array element itself.
- `allocate_shared_data_arrays` and the three `allocate_*_array` functions: heap allocation. The constructor only stands for freshly allocated, NULL-filled arrays.
- `write_dictionary`, `write_to_archive`, `serialize_dictionary_headers` and `estimate_size_for_archive`: declared only. No byte format or load-time validation is modelled. `DumpArchive` captures only which dictionary a class goes into.
- `should_be_excluded`, `check_excluded_classes`, `is_excluded_class`, `is_jfr_event_class`, `warn_excluded` and `validate_before_archiving`: declared only, so their rules are not visible.
- `add_verification_constraint` (recording and return value) and `check_verification_constraints`: declared only. Only the flag packing is modelled (`MakeConstraint`).
- `init_security_info`, `get_shared_protection_domain`, `get_protection_domain_from_classloader`, `define_shared_package`, `get_shared_jar_manifest`, `get_shared_jar_url` and `get_package_name`: these create Java heap objects and call into Java class loaders.
- `SharedLookup.GetPackageEntry`: `PackageEntryTable::lookup_only` is not part of this model. It is modelled as a probe of a map from package name to entry.
- `find_or_load_shared_class`, `load_shared_class_for_builtin_loader`, `lookup_from_stream`, `acquire_class_for_current_thread`, `dump_time_resolve_super_or_fail` and `is_shared_class_visible_for_classloader`: declared only, and they depend on class-loading machinery. `SharedLookup.Lookup` models only the dictionary probe behind them.
- `SharedLookup.FindRecord`: the run-time dictionary is a hashed table. It is modelled as a sequence searched in order, and a hit is the first record with the name.
- `add_unregistered_class`, `init_dumptime_info`, `remove_dumptime_info`, `find_or_allocate_info_for`, `update_shared_entry`, `set_shared_class_misc_info`, `dumptime_classes_do`, `empty_dumptime_table`, `has_platform_or_app_classes`, `is_sharing_possible` and `boot_loader_dictionary`: declared only, or delegate to tables that are not part of this model.
- `oops_do` (garbage-collector root scanning) and `print`, `print_on` and `print_table_statistics` (diagnostics).
- `Classlist.CheckEntry`: the category of an entry and whether the class implements local interfaces are inputs. The classlist parser that decides them is not part of this model. The "loader" keyword is left unconstrained for UNREGISTERED entries, because the rules do not mention it.
- The `#ifdef ASSERT` / `DEBUG_ONLY` condition: the mark and its flag are modelled as always present.
