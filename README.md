# LazyPocoTester in Dafny

LazyPocoTester checks plain data classes ("POCOs") for lost writes. It has two parts.

- **The locator** scans the loaded assemblies. It skips system libraries. It keeps the marked,
  concrete classes that are not nested-private and derive directly from `object`. For each such class it picks
  one usable constructor and checks the class's fields and properties against a registry of
  supported types. It records every accepted type twice: in a dictionary keyed by
  assembly-qualified name, and in an ordered list.
- **The round-trip oracle** tests one located type. It constructs an instance. Then, for every
  stored property and then every stored field, it writes the type's default value, writes a
  test value, reads it back, and asserts that the read matches the write.

The project models both parts over an abstract description of the runtime's types (`TypeDesc`)
instead of .NET reflection. It also models the data they share: the two flag enums, the
configuration object and the per-type metadata record.

| file | module | contents |
|---|---|---|
| `enums.dfy` | `Enums` | `TestedDataMembers` and `AccessibilityFlags` as 32-bit patterns, and the flag test `(v & f) == f` |
| `reflection.dfy` | `Reflection` | types, members, constructors and assemblies as data; binding-flag selection; ordinal ASCII case-insensitive equality |
| `located_type_information.dfy` | `LocatedTypeInfo` | the mutable metadata record (`class LocatedTypeInformation`) and its value (`Located`) |
| `configuration.dfy` | `Configuration` | the configuration object (`class LazyPocoConfiguration`) and its settings as a value |
| `poco_tester.dfy` | `PocoTester` | the registry, the test-value and default-value tables, the instance under test, the round trip, and `TestPOCO` |
| `locator.dfy` | `Locator` | the assembly filter, constructor resolution, member checks, the scan as a value, and `class LazyPOCOLocator` |

Every imperative operation of the source is a method proved against a specification function.

- `LocateTestObjects` is proved against `ScanAll`.
- `IsValidPOCOTypeForTesting` is proved against `Validate`.
- `HasValidConstructor` is proved against `ResolveConstructor`.
- `TestProperties` and `TestFields` are proved against `Exercise`.
- `TestPOCO` is proved against `TestPocoSpec`.

The properties the source promises are lemmas about those functions.

The tested type's own code cannot be seen from the tester, so it is a parameter, `TypeCode`. It holds the type's constructors and its property getter and setter. Fields are plain storage.

The xUnit glue, which is not modelled, hands the locator's `LocatedTypeInformation` dictionary
itself to the configuration: the two share one dictionary object, and nothing is copied. The
locator and the oracle each work on the dictionary they are given, so that sharing is not
captured.

Where the repository's unit tests (UnitTests/LazyPocoLocatorTests.cs) expect behaviour the code does not have, the model follows the code:

- Only classes are located. Structs are never admitted, because the enumeration filter requires
  `IsClass`. The value-type placeholder constructor is never used.
- Inherited members are never collected. A type whose base type is not `object` is rejected.
- The `NoBackingFields` flag is never read. Backing fields are not excluded.
- One unsupported or non-read/write member rejects the whole type. No member is dropped
  individually.

## Model

| member | source | states |
|---|---|---|
| Enums.NoneEnablesNothing | LazyPocoTester/Enums/TestedDataMembers.cs:6 | `None` enables no non-zero flag |
| Enums.HasFlag | LazyPocoTester/LazyPOCOLocator.cs:86 | the empty flag is enabled in every value, a value enables itself, and a non-empty flag is never enabled in zero |
| Enums.MemberKindBitsDistinct | LazyPocoTester/Enums/TestedDataMembers.cs:7-9 | Properties, Fields and NoBackingFields are the single bits 1, 2 and 4, and none enables another |
| Enums.ShorthandsEnableBothPasses | LazyPocoTester/Enums/TestedDataMembers.cs:12-13 | both shorthands enable the property pass and the field pass; only the second carries NoBackingFields |
| Enums.AccessibilityBits | LazyPocoTester/Enums/AccessibilityFlags.cs:12-14 | Public is 16 and NonPublic is 32; they are disjoint, and PublicAndNonPublic is their union |
| Enums.AccessibilityHasNoInstanceBit | LazyPocoTester/Enums/AccessibilityFlags.cs:12-14 | no accessibility value carries the Instance or Static binding bit, so the locator must add Instance |
| Reflection.Visible | LazyPocoTester/LazyPOCOLocator.cs:88 | the members a binding mask returns are exactly the declared members it selects, in the order reflection returns them (the order of the `TypeDesc` sequences) |
| Reflection.VisibleCtors | LazyPocoTester/LazyPOCOLocator.cs:148 | the constructors a binding mask returns are exactly the declared instance constructors it selects |
| Reflection.FindParameterless | LazyPocoTester/LazyPOCOLocator.cs:134-135 | a found constructor is declared, parameterless and selected; none is found exactly when no declared constructor is both |
| Reflection.EqualsIgnoreCase | LazyPocoTester/LazyPOCOLocator.cs:158 | two names are equal ignoring case exactly when their upper-cased forms are equal |
| Reflection.EqualsIgnoreCaseIsEquivalence | LazyPocoTester/LazyPOCOLocator.cs:158 | the case-insensitive name comparison is reflexive, symmetric and transitive |
| Reflection.IgnoreCaseExamples | LazyPocoTester/LazyPOCOLocator.cs:158 | letter case is ignored; length and other characters are not |
| LocatedTypeInfo.LocatedTypeInformation.constructor | LazyPocoTester/LocatedTypeInformation.cs:13-24 | a fresh record has no properties, no fields and no constructor |
| Configuration.LazyPocoConfiguration.constructor | LazyPocoTester/LazyPocoConfiguration.cs:22-29 | the three arguments are stored unchanged; the located-type dictionary starts empty |
| Configuration.DefaultConfiguration | LazyPocoTester/LazyPocoConfiguration.cs:7-29 | the defaults are Public, Properties and no non-default constructors, with nothing located |
| PocoTester.RegistryIsTheNamedTypes | LazyPocoTester/POCOTester.cs:15-40 | a type is supported exactly when it is one of the named built-in types |
| PocoTester.RegistryHasTwentyTypes | LazyPocoTester/POCOTester.cs:15-40 | the registry holds exactly twenty distinct types |
| PocoTester.TestValueForType | LazyPocoTester/POCOTester.cs:143-172 | a test value exists exactly for the registry's types; any other type gives a not-implemented fault naming it |
| PocoTester.TestValueIsMaxOfWidth | LazyPocoTester/POCOTester.cs:149-162 | for every fixed-width integer type the test value is its MaxValue: 2^(w-1)-1 if signed, 2^w-1 if not |
| PocoTester.CreateDefaultForValue | LazyPocoTester/POCOTester.cs:123-141 | the default is null exactly when the runtime cannot construct the type; otherwise it is a value of that same type |
| PocoTester.DefaultDiffersFromTestValue | LazyPocoTester/POCOTester.cs:123-141 | a supported type's default is never null and never equals its test value, so ignoring writes cannot pass by accident |
| PocoTester.DefaultIsZeroOrNull | LazyPocoTester/POCOTester.cs:123-141 | the default is "" for string; otherwise it is the zero value, or null exactly when the runtime cannot create one |
| PocoTester.Instance.SetProperty | LazyPocoTester/POCOTester.cs:65 | the new state is the type's setter applied to the old state |
| PocoTester.Instance.GetProperty | LazyPocoTester/POCOTester.cs:72 | the value is the type's getter applied to the current state |
| PocoTester.Instance.SetField | LazyPocoTester/POCOTester.cs:82 | the field is overwritten and nothing else changes |
| PocoTester.Instance.GetField | LazyPocoTester/POCOTester.cs:89 | the value is the field's stored value |
| PocoTester.ExerciseMember | LazyPocoTester/POCOTester.cs:60-93 | an unsupported member type is a not-implemented fault; on success the member reads back its test value; a supported member succeeds exactly when the value read back after writing the default and then the test value equals the test value, fails otherwise only its assertion, and a field never fails |
| PocoTester.Exercise | LazyPocoTester/POCOTester.cs:60-93 | a walk that succeeds visited only members of supported types |
| PocoTester.FailureSticks | LazyPocoTester/POCOTester.cs:74 | once a member's round trip fails, the walk stops with that fault |
| PocoTester.FaithfulMembersPass | LazyPocoTester/POCOTester.cs:60-93 | with supported member types and a getter that returns the last value set, every assertion passes; fields always pass |
| PocoTester.FieldsHoldTestValues | LazyPocoTester/POCOTester.cs:77-93 | after the field pass, every field with a distinct name holds its type's test value |
| PocoTester.ExerciseFaults | LazyPocoTester/POCOTester.cs:60-93 | an assertion fault names the type and a walked property; a missing test value comes only from a walked member of unsupported type |
| PocoTester.Construct | LazyPocoTester/POCOTester.cs:95-121 | construction succeeds only with a recorded constructor, and default construction only when the type declares a public parameterless constructor |
| PocoTester.ConstructFaultsNameType | LazyPocoTester/POCOTester.cs:95-121 | construction fails only with a construction fault naming the type, and always fails when no constructor was recorded |
| PocoTester.TestPocoSpec | LazyPocoTester/POCOTester.cs:47-58 | a passing type has a record, constructs, and has only members of supported types |
| PocoTester.TestPocoPasses | LazyPocoTester/POCOTester.cs:47-58 | a located type with supported members, successful construction and faithful accessors passes |
| PocoTester.TestPocoFaults | LazyPocoTester/POCOTester.cs:47-58 | a lookup fault occurs exactly when the type has no record; a missing test value only for a stored member of unsupported type |
| PocoTester.CreateInstance | LazyPocoTester/POCOTester.cs:95-121 | the default-argument array is filled in a loop; the instance or fault is the one construction specifies |
| PocoTester.TestProperties | LazyPocoTester/POCOTester.cs:60-76 | the properties are exercised in stored order; the outcome and the instance's new state are the specified walk's |
| PocoTester.TestFields | LazyPocoTester/POCOTester.cs:77-93 | the fields are exercised in stored order; the outcome and the instance's new state are the specified walk's |
| PocoTester.TestPOCO | LazyPocoTester/POCOTester.cs:47-58 | the outcome is lookup, then construction, then all properties, then all fields, over the configuration's records |
| Locator.AssemblyIsNotSystemLibraries | LazyPocoTester/LazyPOCOLocator.cs:45-58 | an assembly is kept exactly when its full name starts with neither "System" nor "Microsoft" |
| Locator.PrefixExamples | LazyPocoTester/LazyPOCOLocator.cs:51 | the test is a plain prefix test: "SystemsFoo" is skipped, "MySystem" and "Syst" are not |
| Locator.LoadedAssemblies | LazyPocoTester/LazyPOCOLocator.cs:26-29 | the scanned assemblies are exactly those that are not system libraries and have a file location, in order |
| Locator.IsCandidate | LazyPocoTester/LazyPOCOLocator.cs:34-35 | an enumerated type is a non-abstract class, so validation's first check reduces to not-interface and deriving from object |
| Locator.AllParametersNamedMeaning | LazyPocoTester/LazyPOCOLocator.cs:157-158 | the All/Any chain holds exactly when every parameter's name equals some member name, ignoring case |
| Locator.AnyNameEqualsMeaning | LazyPocoTester/LazyPOCOLocator.cs:158 | the Any test holds exactly when some name equals the parameter's name, ignoring case |
| Locator.ParametersMatchEdges | LazyPocoTester/LazyPOCOLocator.cs:157-158 | a parameterless constructor matches any member list; one with a parameter never matches an empty list |
| Locator.FirstMatching | LazyPocoTester/LazyPOCOLocator.cs:154-163 | a found constructor matches and every earlier one does not; nothing is found exactly when none matches |
| Locator.ResolveConstructor | LazyPocoTester/LazyPOCOLocator.cs:126-185 | a resolved constructor is one the type declares; one with parameters is chosen only when non-default resolution is on and it is visible under the configured accessibility |
| Locator.ParameterlessConstructorPreferred | LazyPocoTester/LazyPOCOLocator.cs:134-141 | a parameterless constructor visible under the configured accessibility or Public always wins |
| Locator.NoParameterlessWithoutNonDefaultRejects | LazyPocoTester/LazyPOCOLocator.cs:143-146 | without such a constructor, and with non-default resolution off, no constructor is resolved |
| Locator.ResolvedConstructorMatches | LazyPocoTester/LazyPOCOLocator.cs:148-184 | a constructor with parameters is visible and is the first to match the properties, or the first to match the fields when none matches the properties |
| Locator.UnresolvedMeansNoMatch | LazyPocoTester/LazyPOCOLocator.cs:126-185 | resolution fails exactly when there is no parameterless constructor and either non-default resolution is off or no visible constructor matches an enabled member kind |
| Locator.Validate | LazyPocoTester/LazyPOCOLocator.cs:68-124 | an accepted type is concrete and derives from object, and its record holds a constructor the type declares |
| Locator.ValidateAcceptsIff | LazyPocoTester/LazyPOCOLocator.cs:68-124 | a type is accepted exactly when it is concrete, derives from object, resolves a constructor and every visible member of an enabled kind is testable |
| Locator.ValidatedRecord | LazyPocoTester/LazyPOCOLocator.cs:85-121 | an accepted record holds the resolved constructor, and the visible members of each enabled kind in the order reflection returns them (the order of the `TypeDesc` sequences); a disabled kind's list is empty |
| Locator.ScanStep | LazyPocoTester/LazyPOCOLocator.cs:34-40 | a step never removes or overwrites a dictionary entry and adds at most the type's own key; a duplicate key leaves the state unchanged |
| Locator.ScanAll | LazyPocoTester/LazyPOCOLocator.cs:31-42 | a scan never removes or overwrites an entry, only extends the list, and a reported duplicate key is in the dictionary |
| Locator.DuplicateSticks | LazyPocoTester/LazyPOCOLocator.cs:39 | once an insertion throws on a duplicate key, later candidates change nothing |
| Locator.ScanAllAppend | LazyPocoTester/LazyPOCOLocator.cs:31-42 | scanning assembly after assembly is scanning their concatenated types |
| Locator.ScanStepKeepsInvariants | LazyPocoTester/LazyPOCOLocator.cs:37-40 | one step keeps the list's keys distinct and equal to the dictionary's keys; every record stays the one validation gave |
| Locator.ScanKeepsInvariants | LazyPocoTester/LazyPOCOLocator.cs:31-42 | a whole scan keeps the list and the dictionary in agreement, and keeps every record validated |
| Locator.KeysCount | LazyPocoTester/LazyPOCOLocator.cs:37-40 | when the two agree, the list and the dictionary have the same size |
| Locator.ScanIsAcceptedFilter | LazyPocoTester/LazyPOCOLocator.cs:31-42 | a scan from nothing lists exactly the accepted candidates in scan order, and aborts exactly when two of them share a key |
| Locator.LocatedTypesAreTestable | LazyPocoTester/LazyPOCOLocator.cs:37-40 | every located type has a record with a constructor; its test can fail only in construction or an assertion, and passes with faithful accessors once constructed |
| Locator.PrivateParameterlessLocatedButNotConstructed | LazyPocoTester/POCOTester.cs:104-107 | under NonPublic, a type whose only constructor is private and parameterless is accepted, but default construction fails |
| Locator.LazyPOCOLocator.constructor | LazyPocoTester/LazyPOCOLocator.cs:9-20 | a new locator has an empty list and an empty dictionary |
| Locator.LazyPOCOLocator.LocateTestObjects | LazyPocoTester/LazyPOCOLocator.cs:24-43 | the new list and dictionary are the scan specification applied to the old ones; false when a duplicate key aborted the scan; agreement is kept |
| Locator.LazyPOCOLocator.ScanAssembly | LazyPocoTester/LazyPOCOLocator.cs:33-41 | the inner loop over one assembly's types applies the scan specification to them |
| Locator.LazyPOCOLocator.ConsiderType | LazyPocoTester/LazyPOCOLocator.cs:37-40 | an accepted type is added to the dictionary and the list in one step; a rejected type, or a duplicate key, changes neither |
| Locator.LazyPOCOLocator.GetNextTestableType | LazyPocoTester/LazyPOCOLocator.cs:60-66 | the types are yielded exactly in the order they were located |
| Locator.IsValidPOCOTypeForTesting | LazyPocoTester/LazyPOCOLocator.cs:68-124 | the answer is the validation's, and an accepted type's fresh record is the one validation specifies |
| Locator.HasValidConstructor | LazyPocoTester/LazyPOCOLocator.cs:126-185 | true exactly when a constructor resolves, which is then recorded; otherwise the record is unchanged |
| Locator.SearchConstructors | LazyPocoTester/LazyPOCOLocator.cs:154-163 | the loop returns the first constructor whose parameters all match |

## Left out

- Reflection and assembly discovery (`AppDomain.GetAssemblies`, `Location`, `GetTypes`, the marker attribute lookup, `GetConstructor`, `GetProperties`, `GetFields`). These are replaced by the `Assembly` and `TypeDesc` values given as parameters. A `GetTypes` call that throws is not modelled, and neither is an `Assembly.Location` that throws `NotSupportedException` for a dynamic assembly: the model treats every assembly as having a location string.
- `Activator.CreateInstance`, `ConstructorInfo.Invoke`, `SetValue` and `GetValue`. These run the tested type's code, which is the `TypeCode` parameter. Accessors that throw, and constructor side effects other than the new state, are not modelled. `Equals` is equality of abstract values.
- Indexer properties and static members. Static members are never selected, because the locator always adds the Instance binding bit.
- Floating-point, `decimal`, date/time and platform-width integer values. Their zero and MaxValue are distinct opaque constants (`ZeroOf`, `MaxOf`), and `Guid.Parse` is the literal it parses.
- The order of `GetFields`, `GetProperties` and `GetConstructors` is unspecified in .NET. The model fixes it as the order of the `TypeDesc` sequences, so which of several matching constructors is chosen depends on that order.
- Locator.AssemblyIsNotSystemLibraries: the culture-sensitive `string.StartsWith(string)` of the runtime is modelled as an ordinal prefix test; names with ignorable or contracting characters (a leading soft hyphen, culture-specific contractions) can be classified differently.
- Reflection.EqualsIgnoreCase: folds ASCII letters only, not full Unicode ordinal case-insensitivity.
- `LazyPocoTester/LazyPocoCreatorAttribute.cs` is not part of this model. It is the xUnit glue that runs the locator and assigns the locator's dictionary object to the configuration, so both refer to the same dictionary; the model keeps two separate values and does not capture that aliasing. `LazyPocoTester/RuntimeStructCtorPlaceholder.cs` is not part of this model either; the locator never uses it.
- `Debug.Assert` is taken as compiled out (release behaviour). A missing constructor in `CreateInstance` therefore dereferences null, which the catch wraps as a construction fault. xUnit's `Assert.True` failing is the `AssertionFault` outcome.
- The locator's registry lookups name `POCOTestCoordinator.DefaultSupportedTypes`. They are taken to be the registry defined in `POCOTester.cs`.
- `Dictionary.Add` throwing on a duplicate key is the `false` result of `LocateTestObjects` and `ConsiderType`. The entries added before it are kept.
- Locator.IsValidPOCOTypeForTesting: does not describe the partly filled record of a rejected type, because no caller ever stores it.

