/** The locator: scans the loaded assemblies for marked, concrete classes that are not nested-private, resolves a
    constructor for each, checks its members against the registry, and records every accepted
    type in a dictionary keyed by assembly-qualified name and in an ordered list. */
module Locator {
  import opened Enums
  import opened Reflection
  import opened LocatedTypeInfo
  import opened Configuration
  import PocoTester

  // ---------------------------------------------------------------------------------------
  // Assembly filter

  const SystemLibraryPrefixes: seq<string> := ["System", "Microsoft"]

  predicate StartsWith(s: string, prefix: string) {
    |prefix| <= |s| && s[..|prefix|] == prefix
  }

  predicate IsSystemLibrary(fullName: string) {
    StartsWith(fullName, "System") || StartsWith(fullName, "Microsoft")
  }

  /** Assemblies whose full name begins with one of the prefixes are skipped; the test is a
      plain prefix test. */
  method AssemblyIsNotSystemLibraries(assembly: Assembly) returns (notSystem: bool)
    ensures notSystem <==> !IsSystemLibrary(assembly.fullName)
  {
    for i := 0 to |SystemLibraryPrefixes|
      invariant forall j :: 0 <= j < i ==> !StartsWith(assembly.fullName, SystemLibraryPrefixes[j])
    {
      if StartsWith(assembly.fullName, SystemLibraryPrefixes[i]) {
        return false;
      }
    }
    assert SystemLibraryPrefixes[0] == "System" && SystemLibraryPrefixes[1] == "Microsoft";
    return true;
  }

  /** A prefix test, not a name test: "SystemsFoo" is skipped, "MySystem" is not. */
  lemma PrefixExamples()
    ensures IsSystemLibrary("SystemsFoo, Version=1.0.0.0")
    ensures IsSystemLibrary("Microsoft.Extensions")
    ensures !IsSystemLibrary("MySystem")
    ensures !IsSystemLibrary("Syst")
  {
    assert "SystemsFoo, Version=1.0.0.0"[..6] == "System";
    assert "Microsoft.Extensions"[..9] == "Microsoft";
    assert "MySystem"[..6][0] != "System"[0];
  }

  /** The assemblies that are scanned: not a system library, and loaded from a file. */
  predicate IsScannedAssembly(a: Assembly) {
    !IsSystemLibrary(a.fullName) && |a.location| > 0
  }

  function ScannedAssemblies(asms: seq<Assembly>): (r: seq<Assembly>)
    ensures forall a :: a in r <==> a in asms && IsScannedAssembly(a)
  {
    if asms == [] then []
    else ScannedAssemblies(asms[..|asms| - 1]) + (if IsScannedAssembly(asms[|asms| - 1]) then [asms[|asms| - 1]] else [])
  }

  /** The types of the assemblies, assembly after assembly, each in its own order. */
  function Flatten(asms: seq<Assembly>): seq<TypeDesc> {
    if asms == [] then [] else Flatten(asms[..|asms| - 1]) + asms[|asms| - 1].types
  }

  lemma {:induction false} FlattenAppend(a: seq<Assembly>, b: seq<Assembly>)
    ensures Flatten(a + b) == Flatten(a) + Flatten(b)
  {
    if b != [] {
      assert (a + b)[..|a + b| - 1] == a + b[..|b| - 1];
      FlattenAppend(a, b[..|b| - 1]);
    } else {
      assert a + b == a;
    }
  }

  /** The assemblies of the application domain that are scanned, in order. */
  method LoadedAssemblies(appDomainAssemblies: seq<Assembly>) returns (assemblies: seq<Assembly>)
    ensures assemblies == ScannedAssemblies(appDomainAssemblies)
  {
    assemblies := [];
    for i := 0 to |appDomainAssemblies|
      invariant assemblies == ScannedAssemblies(appDomainAssemblies[..i])
    {
      var a := appDomainAssemblies[i];
      assert appDomainAssemblies[..i + 1][..i] == appDomainAssemblies[..i];
      var notSystem := AssemblyIsNotSystemLibraries(a);
      if notSystem && |a.location| > 0 {
        assemblies := assemblies + [a];
      }
    }
    assert appDomainAssemblies[..|appDomainAssemblies|] == appDomainAssemblies;
  }

  /** The types a scan visits. */
  function Candidates(asms: seq<Assembly>): seq<TypeDesc> {
    Flatten(ScannedAssemblies(asms))
  }

  // ---------------------------------------------------------------------------------------
  // Type classification and constructor resolution

  /** The enumeration filter: a non-abstract class that is not nested-private and carries the marker. */
  predicate IsCandidate(t: TypeDesc): (r: bool)
    ensures r ==> t.isClass && (IsConcreteBaseClass(t) <==> !t.isInterface && t.baseIsObject)
  {
    t.isClass && !t.isAbstract && !t.isNestedPrivate && t.hasMarker
  }

  /** The first check of validation: concrete, not an interface, deriving directly from object. */
  predicate IsConcreteBaseClass(t: TypeDesc) {
    !t.isAbstract && !t.isInterface && t.baseIsObject
  }

  /** `names.Any(n => n equals name ignoring case)`. */
  predicate AnyNameEquals(names: seq<string>, name: string) {
    names != [] && (EqualsIgnoreCase(names[0], name) || AnyNameEquals(names[1..], name))
  }

  /** `ps.All(p => names.Any(...))`. */
  predicate AllParametersNamed(ps: seq<Param>, names: seq<string>) {
    ps == [] || (AnyNameEquals(names, ps[0].name) && AllParametersNamed(ps[1..], names))
  }

  /** Every parameter name of the constructor equals, ignoring case, one of the member names. */
  predicate ParametersMatch(c: Ctor, names: seq<string>) {
    AllParametersNamed(c.params, names)
  }

  /** The All/Any chain means what it says: every parameter has a member of the same name. */
  lemma {:induction false} AllParametersNamedMeaning(ps: seq<Param>, names: seq<string>)
    ensures AllParametersNamed(ps, names) <==>
      forall p :: p in ps ==> exists n :: n in names && EqualsIgnoreCase(n, p.name)
  {
    if ps != [] {
      AllParametersNamedMeaning(ps[1..], names);
      AnyNameEqualsMeaning(names, ps[0].name);
      assert forall p :: p in ps <==> p == ps[0] || p in ps[1..];
    }
  }

  lemma {:induction false} AnyNameEqualsMeaning(names: seq<string>, name: string)
    ensures AnyNameEquals(names, name) <==> exists n :: n in names && EqualsIgnoreCase(n, name)
  {
    if names != [] {
      AnyNameEqualsMeaning(names[1..], name);
      assert forall n :: n in names <==> n == names[0] || n in names[1..];
    }
  }

  /** A constructor without parameters matches any member list; one with a parameter never
      matches an empty member list. */
  lemma ParametersMatchEdges(c: Ctor)
    ensures |c.params| == 0 ==> ParametersMatch(c, [])
    ensures |c.params| > 0 ==> !ParametersMatch(c, [])
  {
  }

  /** The first constructor, in order, whose every parameter matches a member name. */
  function FirstMatching(cs: seq<Ctor>, names: seq<string>): (r: Option<Ctor>)
    ensures r.Some? ==> exists k :: 0 <= k < |cs| && cs[k] == r.value && ParametersMatch(cs[k], names)
                                  && forall j :: 0 <= j < k ==> !ParametersMatch(cs[j], names)
    ensures r.None? <==> forall k :: 0 <= k < |cs| ==> !ParametersMatch(cs[k], names)
  {
    if cs == [] then None
    else if ParametersMatch(cs[0], names) then Some(cs[0])
    else
      var r := FirstMatching(cs[1..], names);
      assert r.Some? ==> exists k :: 1 <= k < |cs| && cs[k] == r.value && ParametersMatch(cs[k], names)
                                    && forall j :: 0 <= j < k ==> !ParametersMatch(cs[j], names) by {
        if r.Some? {
          var k :| 0 <= k < |cs[1..]| && cs[1..][k] == r.value && ParametersMatch(cs[1..][k], names)
                  && forall j :: 0 <= j < k ==> !ParametersMatch(cs[1..][j], names);
          assert forall j :: 1 <= j < k + 1 ==> cs[j] == cs[1..][j - 1];
        }
      }
      assert r.None? ==> forall k :: 0 <= k < |cs| ==> !ParametersMatch(cs[k], names) by {
        if r.None? {
          forall k | 0 <= k < |cs| ensures !ParametersMatch(cs[k], names) {
            if k > 0 { assert cs[k] == cs[1..][k - 1]; }
          }
        }
      }
      r
  }

  /** A constructor found by the search loop at index k is the one FirstMatching names. */
  lemma {:induction false} FirstMatchingAt(cs: seq<Ctor>, names: seq<string>, k: nat)
    requires k < |cs| && ParametersMatch(cs[k], names)
    requires forall j :: 0 <= j < k ==> !ParametersMatch(cs[j], names)
    ensures FirstMatching(cs, names) == Some(cs[k])
  {
    if k > 0 {
      assert forall j :: 0 <= j < k - 1 ==> cs[1..][j] == cs[j + 1];
      FirstMatchingAt(cs[1..], names, k - 1);
    }
  }

  function MemberMask(s: Settings): Bits {
    s.accessibility | Enums.Instance
  }

  function ParameterlessMask(s: Settings): Bits {
    s.accessibility | Public | Enums.Instance
  }

  /** The constructors searched for a parameter match: those visible under the configured accessibility. */
  function SearchedCtors(t: TypeDesc, s: Settings): seq<Ctor> {
    VisibleCtors(t.constructors, MemberMask(s))
  }

  function PropertyNames(t: TypeDesc, s: Settings): seq<string> {
    Names(Visible(t.properties, MemberMask(s)))
  }

  function FieldNames(t: TypeDesc, s: Settings): seq<string> {
    Names(Visible(t.fields, MemberMask(s)))
  }

  /** The constructor the tester will use: a parameterless one visible under the configured
      accessibility or public; else, when allowed, the first visible constructor whose
      parameters all name properties, and failing that the first whose parameters all name fields. */
  function ResolveConstructor(t: TypeDesc, s: Settings): (r: Option<Ctor>)
    ensures r.Some? ==> r.value in t.constructors
    ensures r.Some? && |r.value.params| > 0 ==>
      s.tryToCreateNonDefaultConstructors && Selects(MemberMask(s), r.value.isPublic, false)
  {
    match FindParameterless(t.constructors, ParameterlessMask(s))
    case Some(c) => Some(c)
    case None =>
      if !s.tryToCreateNonDefaultConstructors then None
      else
        var ctors := SearchedCtors(t, s);
        var byProperties :=
          if HasFlag(s.testedDataMembers, Properties) then FirstMatching(ctors, PropertyNames(t, s)) else None;
        if byProperties.Some? then byProperties
        else if HasFlag(s.testedDataMembers, Fields) then FirstMatching(ctors, FieldNames(t, s))
        else None
  }

  /** A reachable parameterless constructor always wins; no other constructor is examined. */
  lemma ParameterlessConstructorPreferred(t: TypeDesc, s: Settings)
    requires FindParameterless(t.constructors, ParameterlessMask(s)).Some?
    ensures ResolveConstructor(t, s) == FindParameterless(t.constructors, ParameterlessMask(s))
    ensures |ResolveConstructor(t, s).value.params| == 0
  {
  }

  /** Without a parameterless constructor, non-default resolution must be switched on. */
  lemma NoParameterlessWithoutNonDefaultRejects(t: TypeDesc, s: Settings)
    requires FindParameterless(t.constructors, ParameterlessMask(s)).None?
    requires !s.tryToCreateNonDefaultConstructors
    ensures ResolveConstructor(t, s).None?
  {
  }

  /** A constructor with parameters is chosen only when non-default resolution is on, and it is
      visible. It is the first visible constructor whose parameters all name visible properties;
      or, when no visible constructor matches the properties, the first whose parameters all
      name visible fields. It is never partially matched. */
  lemma ResolvedConstructorMatches(t: TypeDesc, s: Settings)
    requires FindParameterless(t.constructors, ParameterlessMask(s)).None?
    requires ResolveConstructor(t, s).Some?
    ensures var c := ResolveConstructor(t, s).value;
      var ctors := SearchedCtors(t, s);
      && s.tryToCreateNonDefaultConstructors
      && c in t.constructors && Selects(MemberMask(s), c.isPublic, false)
      && (|| (&& HasFlag(s.testedDataMembers, Properties)
              && ParametersMatch(c, PropertyNames(t, s))
              && ResolveConstructor(t, s) == FirstMatching(ctors, PropertyNames(t, s)))
          || (&& HasFlag(s.testedDataMembers, Fields)
              && ParametersMatch(c, FieldNames(t, s))
              && (HasFlag(s.testedDataMembers, Properties) ==> FirstMatching(ctors, PropertyNames(t, s)).None?)
              && ResolveConstructor(t, s) == FirstMatching(ctors, FieldNames(t, s))))
  {
    var ctors := SearchedCtors(t, s);
    var c := ResolveConstructor(t, s).value;
    var byProperties := FirstMatching(ctors, PropertyNames(t, s));
    var byFields := FirstMatching(ctors, FieldNames(t, s));
    assert ResolveConstructor(t, s) ==
      if HasFlag(s.testedDataMembers, Properties) && byProperties.Some? then byProperties
      else if HasFlag(s.testedDataMembers, Fields) then byFields
      else None;
    assert c in ctors;
  }

  /** Resolution fails exactly when no parameterless constructor is reachable and either
      non-default resolution is off or no visible constructor matches the enabled member kinds. */
  lemma UnresolvedMeansNoMatch(t: TypeDesc, s: Settings)
    ensures ResolveConstructor(t, s).None? <==>
      && FindParameterless(t.constructors, ParameterlessMask(s)).None?
      && (s.tryToCreateNonDefaultConstructors ==>
            && (HasFlag(s.testedDataMembers, Properties) ==>
                  forall k :: 0 <= k < |SearchedCtors(t, s)| ==> !ParametersMatch(SearchedCtors(t, s)[k], PropertyNames(t, s)))
            && (HasFlag(s.testedDataMembers, Fields) ==>
                  forall k :: 0 <= k < |SearchedCtors(t, s)| ==> !ParametersMatch(SearchedCtors(t, s)[k], FieldNames(t, s))))
  {
    if FindParameterless(t.constructors, ParameterlessMask(s)).Some? {
      assert ResolveConstructor(t, s).Some?;
    } else if !s.tryToCreateNonDefaultConstructors {
      assert ResolveConstructor(t, s).None?;
    } else {
      var ctors := SearchedCtors(t, s);
      var byProperties := FirstMatching(ctors, PropertyNames(t, s));
      var byFields := FirstMatching(ctors, FieldNames(t, s));
      var propertiesOn := HasFlag(s.testedDataMembers, Properties);
      var fieldsOn := HasFlag(s.testedDataMembers, Fields);
      assert ResolveConstructor(t, s) ==
        if propertiesOn && byProperties.Some? then byProperties
        else if fieldsOn then byFields
        else None;
      assert ResolveConstructor(t, s).None? <==> (propertiesOn ==> byProperties.None?) && (fieldsOn ==> byFields.None?);
      var noPropertyMatch := forall k :: 0 <= k < |ctors| ==> !ParametersMatch(ctors[k], PropertyNames(t, s));
      var noFieldMatch := forall k :: 0 <= k < |ctors| ==> !ParametersMatch(ctors[k], FieldNames(t, s));
      assert byProperties.None? <==> noPropertyMatch;
      assert byFields.None? <==> noFieldMatch;
      assert ResolveConstructor(t, s).None? <==> (propertiesOn ==> noPropertyMatch) && (fieldsOn ==> noFieldMatch);
    }
  }

  // ---------------------------------------------------------------------------------------
  // Member checks

  predicate SupportedField(f: Member) {
    f.tag in PocoTester.DefaultSupportedTypes
  }

  predicate TestableProperty(p: Member) {
    p.canRead && p.canWrite && p.tag in PocoTester.DefaultSupportedTypes
  }

  function TestedFields(t: TypeDesc, s: Settings): seq<Member> {
    if HasFlag(s.testedDataMembers, Fields) then Visible(t.fields, MemberMask(s)) else []
  }

  function TestedProperties(t: TypeDesc, s: Settings): seq<Member> {
    if HasFlag(s.testedDataMembers, Properties) then Visible(t.properties, MemberMask(s)) else []
  }

  /** The record a type gets, or None when it is rejected. */
  function Validate(t: TypeDesc, s: Settings): (r: Option<Located>)
    ensures r.Some? ==> IsConcreteBaseClass(t)
    ensures r.Some? ==> r.value.usableConstructor.Some? && r.value.usableConstructor.value in t.constructors
  {
    if !IsConcreteBaseClass(t) then None
    else
      match ResolveConstructor(t, s)
      case None => None
      case Some(c) =>
        var fields := TestedFields(t, s);
        var props := TestedProperties(t, s);
        if exists f :: f in fields && !SupportedField(f) then None
        else if exists p :: p in props && !TestableProperty(p) then None
        else Some(Located(props, fields, Some(c)))
  }

  /** A type is accepted exactly when it is a concrete class deriving from object, a constructor
      is resolved, and every visible member of an enabled kind is testable: one bad member
      rejects the whole type. */
  lemma ValidateAcceptsIff(t: TypeDesc, s: Settings)
    ensures Validate(t, s).Some? <==>
      && IsConcreteBaseClass(t)
      && ResolveConstructor(t, s).Some?
      && (HasFlag(s.testedDataMembers, Fields) ==>
            forall f :: f in t.fields && Selects(MemberMask(s), f.isPublic, f.isStatic) ==> SupportedField(f))
      && (HasFlag(s.testedDataMembers, Properties) ==>
            forall p :: p in t.properties && Selects(MemberMask(s), p.isPublic, p.isStatic) ==> TestableProperty(p))
  {
  }

  /** An accepted record has the resolved constructor, and holds exactly the visible members of
      each enabled kind in the order of the `TypeDesc` sequences, and no member of a disabled kind. */
  lemma ValidatedRecord(t: TypeDesc, s: Settings)
    requires Validate(t, s).Some?
    ensures var l := Validate(t, s).value;
      && l.usableConstructor.Some?
      && l.usableConstructor == ResolveConstructor(t, s)
      && l.fields == (if HasFlag(s.testedDataMembers, Fields) then Visible(t.fields, MemberMask(s)) else [])
      && l.properties == (if HasFlag(s.testedDataMembers, Properties) then Visible(t.properties, MemberMask(s)) else [])
      && (forall f :: f in l.fields ==> SupportedField(f))
      && (forall p :: p in l.properties ==> TestableProperty(p))
  {
  }

  // ---------------------------------------------------------------------------------------
  // The scan as a value

  datatype ScanState = ScanState(located: seq<TypeDesc>, info: map<string, Located>)

  /** The state after a scan, and the key whose second insertion aborted it, if any. */
  datatype ScanOutcome = ScanOutcome(state: ScanState, duplicate: Option<string>)

  const EmptyScan := ScanState([], map[])

  /** One candidate: skipped unless it passes the enumeration filter and validation; an accepted
      type whose key is already present aborts the scan (the dictionary insertion throws)
      before the list is touched. */
  function ScanStep(st: ScanState, t: TypeDesc, s: Settings): (o: ScanOutcome)
    ensures forall k :: k in st.info ==> k in o.state.info && o.state.info[k] == st.info[k]
    ensures o.state.info.Keys <= st.info.Keys + {t.assemblyQualifiedName}
    ensures o.duplicate.Some? ==> o.state == st && o.duplicate == Some(t.assemblyQualifiedName) && t.assemblyQualifiedName in st.info
  {
    if !IsCandidate(t) then ScanOutcome(st, None)
    else
      match Validate(t, s)
      case None => ScanOutcome(st, None)
      case Some(l) =>
        if t.assemblyQualifiedName in st.info then ScanOutcome(st, Some(t.assemblyQualifiedName))
        else ScanOutcome(ScanState(st.located + [t], st.info[t.assemblyQualifiedName := l]), None)
  }

  function ScanAll(st: ScanState, ts: seq<TypeDesc>, s: Settings): (o: ScanOutcome)
    ensures forall k :: k in st.info ==> k in o.state.info && o.state.info[k] == st.info[k]
    ensures st.located <= o.state.located
    ensures o.duplicate.Some? ==> o.duplicate.value in o.state.info
  {
    if ts == [] then ScanOutcome(st, None)
    else
      var o := ScanAll(st, ts[..|ts| - 1], s);
      if o.duplicate.Some? then o else ScanStep(o.state, ts[|ts| - 1], s)
  }

  /** Once the scan has aborted, later candidates change nothing. */
  lemma {:induction false} DuplicateSticks(st: ScanState, ts: seq<TypeDesc>, k: nat, s: Settings)
    requires k <= |ts|
    requires ScanAll(st, ts[..k], s).duplicate.Some?
    ensures ScanAll(st, ts, s) == ScanAll(st, ts[..k], s)
  {
    if k < |ts| {
      var init := ts[..|ts| - 1];
      assert init[..k] == ts[..k];
      DuplicateSticks(st, init, k, s);
    } else {
      assert ts[..k] == ts;
    }
  }

  /** Scanning a concatenation is scanning the first part and then, unless it aborted, the second. */
  lemma {:induction false} ScanAllAppend(st: ScanState, a: seq<TypeDesc>, b: seq<TypeDesc>, s: Settings)
    ensures var o := ScanAll(st, a, s);
      ScanAll(st, a + b, s) == if o.duplicate.Some? then o else ScanAll(o.state, b, s)
  {
    if b == [] {
      assert a + b == a;
    } else {
      assert (a + b)[..|a + b| - 1] == a + b[..|b| - 1];
      ScanAllAppend(st, a, b[..|b| - 1], s);
    }
  }

  /** Scanning one more assembly continues the scan of the assemblies before it. */
  lemma ScanNextAssembly(s0: ScanState, asms: seq<Assembly>, i: nat, s: Settings, st: ScanState)
    requires i < |asms|
    requires ScanAll(s0, Flatten(asms[..i]), s) == ScanOutcome(st, None)
    ensures ScanAll(s0, Flatten(asms[..i + 1]), s) == ScanAll(st, asms[i].types, s)
  {
    assert Flatten(asms[..i + 1]) == Flatten(asms[..i]) + asms[i].types by {
      assert asms[..i + 1][..i] == asms[..i];
    }
    ScanAllAppend(s0, Flatten(asms[..i]), asms[i].types, s);
  }

  /** A scan that aborted within the first assemblies is the scan of all of them. */
  lemma AbortedScanIsWhole(s0: ScanState, asms: seq<Assembly>, i: nat, s: Settings)
    requires i < |asms|
    requires ScanAll(s0, Flatten(asms[..i + 1]), s).duplicate.Some?
    ensures ScanAll(s0, Flatten(asms), s) == ScanAll(s0, Flatten(asms[..i + 1]), s)
  {
    var all := Flatten(asms);
    var prefix := Flatten(asms[..i + 1]);
    assert all[..|prefix|] == prefix by {
      FlattenAppend(asms[..i + 1], asms[i + 1..]);
      assert asms[..i + 1] + asms[i + 1..] == asms;
    }
    DuplicateSticks(s0, all, |prefix|, s);
  }

  /** The assembly-qualified names of the types, in order. */
  function KeysOf(ts: seq<TypeDesc>): (r: seq<string>)
    ensures |r| == |ts| && forall i :: 0 <= i < |ts| ==> r[i] == ts[i].assemblyQualifiedName
  {
    if ts == [] then [] else KeysOf(ts[..|ts| - 1]) + [ts[|ts| - 1].assemblyQualifiedName]
  }

  /** The list and the dictionary describe the same types: list entries have distinct keys, and
      the dictionary's keys are exactly the list's keys. */
  ghost predicate Consistent(st: ScanState) {
    Distinct(KeysOf(st.located)) && st.info.Keys == set k | k in KeysOf(st.located)
  }

  /** Every listed type passed the filter and validation, and its record is the one validation gave. */
  ghost predicate Sound(st: ScanState, s: Settings) {
    forall i :: 0 <= i < |st.located| ==>
      && IsCandidate(st.located[i])
      && st.located[i].assemblyQualifiedName in st.info
      && Validate(st.located[i], s) == Some(st.info[st.located[i].assemblyQualifiedName])
  }

  /** One step keeps the list and the dictionary in agreement, and keeps every record the one
      validation gave. */
  lemma ScanStepKeepsInvariants(st: ScanState, t: TypeDesc, s: Settings)
    requires Consistent(st)
    ensures Consistent(ScanStep(st, t, s).state)
    ensures Sound(st, s) ==> Sound(ScanStep(st, t, s).state, s)
  {
    var o := ScanStep(st, t, s);
    var key := t.assemblyQualifiedName;
    if o.state != st {
      assert IsCandidate(t) && Validate(t, s).Some? && key !in st.info;
      var l := Validate(t, s).value;
      assert o.state == ScanState(st.located + [t], st.info[key := l]);
      AppendKeepsConsistent(st, t, l);
      if Sound(st, s) {
        AppendKeepsSound(st, t, s);
      }
    }
  }

  /** Adding a type under a new key to both the list and the dictionary keeps them in agreement. */
  lemma AppendKeepsConsistent(st: ScanState, t: TypeDesc, l: Located)
    requires Consistent(st)
    requires t.assemblyQualifiedName !in st.info
    ensures Consistent(ScanState(st.located + [t], st.info[t.assemblyQualifiedName := l]))
  {
    var key := t.assemblyQualifiedName;
    var keys := KeysOf(st.located);
    assert KeysOf(st.located + [t]) == keys + [key] by {
      assert (st.located + [t])[..|st.located|] == st.located;
    }
    DistinctAppend(keys, key);
    assert (set k | k in keys + [key]) == (set k | k in keys) + {key};
  }

  /** Adding an accepted candidate with the record validation gave keeps every record sound. */
  lemma AppendKeepsSound(st: ScanState, t: TypeDesc, s: Settings)
    requires Sound(st, s)
    requires IsCandidate(t) && Validate(t, s).Some?
    requires t.assemblyQualifiedName !in st.info
    ensures Sound(ScanState(st.located + [t], st.info[t.assemblyQualifiedName := Validate(t, s).value]), s)
  {
    var st' := ScanState(st.located + [t], st.info[t.assemblyQualifiedName := Validate(t, s).value]);
    forall i | 0 <= i < |st'.located|
      ensures && IsCandidate(st'.located[i])
              && st'.located[i].assemblyQualifiedName in st'.info
              && Validate(st'.located[i], s) == Some(st'.info[st'.located[i].assemblyQualifiedName])
    {
      if i < |st.located| {
        assert st'.located[i] == st.located[i];
      }
    }
  }

  lemma {:induction false} ScanKeepsInvariants(st: ScanState, ts: seq<TypeDesc>, s: Settings)
    requires Consistent(st)
    ensures Consistent(ScanAll(st, ts, s).state)
    ensures Sound(st, s) ==> Sound(ScanAll(st, ts, s).state, s)
  {
    if ts != [] {
      ScanKeepsInvariants(st, ts[..|ts| - 1], s);
      var o := ScanAll(st, ts[..|ts| - 1], s);
      if o.duplicate.None? {
        ScanStepKeepsInvariants(o.state, ts[|ts| - 1], s);
      }
    }
  }

  /** Consistency makes the list and the dictionary the same size. */
  lemma KeysCount(st: ScanState)
    requires Consistent(st)
    ensures |st.located| == |st.info|
  {
    DistinctElementsCount(KeysOf(st.located));
    assert |st.info| == |st.info.Keys|;
  }

  /** The candidates a scan accepts, in order. */
  function Accepted(ts: seq<TypeDesc>, s: Settings): seq<TypeDesc> {
    if ts == [] then []
    else
      var t := ts[|ts| - 1];
      Accepted(ts[..|ts| - 1], s) + (if IsCandidate(t) && Validate(t, s).Some? then [t] else [])
  }

  /** A scan from nothing lists exactly the accepted candidates, in scan order, and aborts
      exactly when two accepted candidates share an assembly-qualified name. */
  lemma {:induction false} ScanIsAcceptedFilter(ts: seq<TypeDesc>, s: Settings)
    ensures var o := ScanAll(EmptyScan, ts, s);
      && (o.duplicate.None? <==> Distinct(KeysOf(Accepted(ts, s))))
      && (o.duplicate.None? ==> o.state.located == Accepted(ts, s))
  {
    if ts != [] {
      var init := ts[..|ts| - 1];
      var t := ts[|ts| - 1];
      var key := t.assemblyQualifiedName;
      ScanIsAcceptedFilter(init, s);
      var o := ScanAll(EmptyScan, init, s);
      var r := ScanAll(EmptyScan, ts, s);
      var acc := Accepted(init, s);
      assert r == if o.duplicate.Some? then o else ScanStep(o.state, t, s);
      if IsCandidate(t) && Validate(t, s).Some? {
        assert Accepted(ts, s) == acc + [t];
        assert KeysOf(acc + [t]) == KeysOf(acc) + [key] by {
          assert (acc + [t])[..|acc|] == acc;
        }
        DistinctAppend(KeysOf(acc), key);
        if o.duplicate.None? {
          ScanKeepsInvariants(EmptyScan, init, s);
          assert key in o.state.info <==> key in KeysOf(acc);
          var l := Validate(t, s).value;
          if key in o.state.info {
            assert r == ScanOutcome(o.state, Some(key));
          } else {
            assert r == ScanOutcome(ScanState(acc + [t], o.state.info[key := l]), None);
          }
        }
      } else {
        assert Accepted(ts, s) == acc;
        assert o.duplicate.None? ==> r == ScanOutcome(o.state, None);
      }
    }
  }

  /** Every type a scan from nothing lists can be handed to the oracle: its record is found,
      construction is the only step that can fail for a reason other than a member's round trip,
      and no member lacks a test value. With faithful accessors and a successful construction
      it passes. */
  lemma LocatedTypesAreTestable(ts: seq<TypeDesc>, s: Settings, i: nat, code: PocoTester.TypeCode)
    requires i < |ScanAll(EmptyScan, ts, s).state.located|
    ensures var st := ScanAll(EmptyScan, ts, s).state;
      var t := st.located[i];
      var outcome := PocoTester.TestPocoSpec(st.info, t, code);
      && t.assemblyQualifiedName in st.info
      && st.info[t.assemblyQualifiedName].usableConstructor.Some?
      && (outcome.Fail? ==> outcome.fault.ConstructionFault? || outcome.fault.AssertionFault?)
      && (PocoTester.FaithfulAccessors(code)
          && PocoTester.Construct(st.info[t.assemblyQualifiedName].usableConstructor, t, code).Success?
          ==> outcome == PocoTester.Pass)
  {
    ScanKeepsInvariants(EmptyScan, ts, s);
    var st := ScanAll(EmptyScan, ts, s).state;
    var t := st.located[i];
    ValidatedRecord(t, s);
    PocoTester.TestPocoFaults(st.info, t, code);
    if PocoTester.FaithfulAccessors(code)
       && PocoTester.Construct(st.info[t.assemblyQualifiedName].usableConstructor, t, code).Success? {
      PocoTester.TestPocoPasses(st.info, t, code);
    }
  }

  /** Locating and constructing disagree on a non-public parameterless constructor: a scan with
      non-public accessibility accepts a type whose only constructor is a private parameterless
      one, but default construction needs a public one, so the type's test fails with a
      construction fault. */
  lemma PrivateParameterlessLocatedButNotConstructed(code: PocoTester.TypeCode)
    ensures var ctor := Ctor([], false);
      var t := TypeDesc("Sample", "Sample, Tests", true, false, false, false, true, true, [ctor], [], []);
      var s := Settings(NonPublic, Properties, false);
      && Validate(t, s) == Some(Located([], [], Some(ctor)))
      && PocoTester.TestPocoSpec(map[t.assemblyQualifiedName := Located([], [], Some(ctor))], t, code)
         == PocoTester.Fail(PocoTester.ConstructionFault("Sample", "MissingMethodException"))
  {
    var ctor := Ctor([], false);
    var s := Settings(NonPublic, Properties, false);
    assert Selects(ParameterlessMask(s), false, false);
    assert !Selects(Public | Enums.Instance, false, false);
  }

  // ---------------------------------------------------------------------------------------
  // The locator object

  class LazyPOCOLocator {
    var pocoTypes: seq<TypeDesc>
    /** Located-type metadata keyed by assembly-qualified name. */
    var locatedTypeInformation: map<string, LocatedTypeInformation>

    constructor ()
      ensures State() == EmptyScan
      ensures Valid()
    {
      pocoTypes := [];
      locatedTypeInformation := map[];
    }

    function Records(): set<LocatedTypeInformation>
      reads this
    {
      set k | k in locatedTypeInformation :: locatedTypeInformation[k]
    }

    function State(): ScanState
      reads this, Records()
    {
      ScanState(pocoTypes, map k | k in locatedTypeInformation :: locatedTypeInformation[k].Snapshot())
    }

    ghost predicate Valid()
      reads this, Records()
    {
      Consistent(State())
    }

    /** Scans the given assemblies. The new state is the scan specification applied to the old
        one; `ok` is false when an accepted type's key was already in the dictionary, which
        aborts the scan with the entries added so far kept. */
    method LocateTestObjects(configuration: LazyPocoConfiguration, appDomainAssemblies: seq<Assembly>) returns (ok: bool)
      requires Valid()
      modifies this
      ensures Valid()
      ensures var o := ScanAll(old(State()), Candidates(appDomainAssemblies), configuration.CurrentSettings());
        State() == o.state && (ok <==> o.duplicate.None?)
    {
      var assemblies := LoadedAssemblies(appDomainAssemblies);
      ghost var settings := configuration.CurrentSettings();
      ghost var s0 := State();
      assert Candidates(appDomainAssemblies) == Flatten(assemblies);
      assert old(State()) == s0;
      ScanKeepsInvariants(s0, Flatten(assemblies), settings);
      for i := 0 to |assemblies|
        invariant configuration.CurrentSettings() == settings
        invariant ScanAll(s0, Flatten(assemblies[..i]), settings) == ScanOutcome(State(), None)
      {
        ScanNextAssembly(s0, assemblies, i, settings, State());
        ok := ScanAssembly(assemblies[i].types, configuration);
        if !ok {
          AbortedScanIsWhole(s0, assemblies, i, settings);
          return;
        }
      }
      assert assemblies[..|assemblies|] == assemblies;
      ok := true;
    }

    /** The types of one assembly that pass the enumeration filter, in order; `ok` is false when
        the scan aborted on a duplicate key. */
    method ScanAssembly(types: seq<TypeDesc>, configuration: LazyPocoConfiguration) returns (ok: bool)
      modifies this
      ensures var o := ScanAll(old(State()), types, configuration.CurrentSettings());
        State() == o.state && (ok <==> o.duplicate.None?)
    {
      ghost var settings := configuration.CurrentSettings();
      ghost var s0 := State();
      for j := 0 to |types|
        invariant ScanAll(s0, types[..j], settings) == ScanOutcome(State(), None)
      {
        assert types[..j + 1][..j] == types[..j];
        ok := ConsiderType(types[j], configuration);
        if !ok {
          DuplicateSticks(s0, types, j + 1, settings);
          return;
        }
      }
      assert types[..|types|] == types;
      ok := true;
    }

    /** The body of the scan for one enumerated type: a type that passes the enumeration filter
        and validation is added to the dictionary and then to the list; `added` is false when its
        key is already in the dictionary, in which case nothing changes. */
    method ConsiderType(t: TypeDesc, configuration: LazyPocoConfiguration) returns (added: bool)
      modifies this
      ensures var o := ScanStep(old(State()), t, configuration.CurrentSettings());
        State() == o.state && (added <==> o.duplicate.None?)
    {
      ghost var s := configuration.CurrentSettings();
      ghost var before := State();
      ghost var o := ScanStep(before, t, s);
      added := true;
      if !IsCandidate(t) {
        assert o == ScanOutcome(before, None);
        return;
      }
      var valid, information := IsValidPOCOTypeForTesting(t, configuration);
      if !valid {
        assert o == ScanOutcome(before, None);
        return;
      }
      var key := t.assemblyQualifiedName;
      if key in locatedTypeInformation {
        assert o == ScanOutcome(before, Some(key));
        return false;
      }
      assert o == ScanOutcome(ScanState(before.located + [t], before.info[key := information.Snapshot()]), None);
      locatedTypeInformation := locatedTypeInformation[key := information];
      pocoTypes := pocoTypes + [t];
      assert State().info == before.info[key := information.Snapshot()];
    }

    /** Yields the located types in the order they were located. */
    method GetNextTestableType() returns (types: seq<TypeDesc>)
      ensures types == pocoTypes
    {
      types := [];
      for i := 0 to |pocoTypes|
        invariant types == pocoTypes[..i]
      {
        types := types + [pocoTypes[i]];
      }
    }
  }

  /** Validation: a fresh record is filled in as the checks pass; `ok` says whether the type
      is accepted, in which case the record is the one the specification gives. */
  method IsValidPOCOTypeForTesting(t: TypeDesc, configuration: LazyPocoConfiguration)
    returns (ok: bool, information: LocatedTypeInformation)
    ensures fresh(information)
    ensures ok <==> Validate(t, configuration.CurrentSettings()).Some?
    ensures ok ==> information.Snapshot() == Validate(t, configuration.CurrentSettings()).value
  {
    information := new LocatedTypeInformation();
    var s := configuration.CurrentSettings();
    if t.isAbstract || t.isInterface || !t.baseIsObject {
      return false, information;
    }
    ok := HasValidConstructor(t, configuration, information);
    if !ok {
      return;
    }
    if HasFlag(s.testedDataMembers, Fields) {
      var testedFields := Visible(t.fields, MemberMask(s));
      for i := 0 to |testedFields|
        invariant forall j :: 0 <= j < i ==> SupportedField(testedFields[j])
      {
        if testedFields[i].tag !in PocoTester.DefaultSupportedTypes {
          return false, information;
        }
      }
      information.fields := testedFields;
    }
    if HasFlag(s.testedDataMembers, Properties) {
      var testedProperties := Visible(t.properties, MemberMask(s));
      for i := 0 to |testedProperties|
        invariant forall j :: 0 <= j < i ==> TestableProperty(testedProperties[j])
      {
        var prop := testedProperties[i];
        if !prop.canRead || !prop.canWrite {
          return false, information;
        }
        if prop.tag !in PocoTester.DefaultSupportedTypes {
          return false, information;
        }
      }
      information.properties := testedProperties;
    }
    ok := true;
  }

  /** Constructor resolution: records the resolved constructor in the record on success and
      leaves the record alone otherwise. */
  method HasValidConstructor(t: TypeDesc, configuration: LazyPocoConfiguration, information: LocatedTypeInformation)
    returns (ok: bool)
    modifies information
    ensures var r := ResolveConstructor(t, configuration.CurrentSettings());
      && (ok <==> r.Some?)
      && information.usableConstructor == (if ok then r else old(information.usableConstructor))
      && information.properties == old(information.properties)
      && information.fields == old(information.fields)
  {
    var s := configuration.CurrentSettings();
    var parameterless := FindParameterless(t.constructors, ParameterlessMask(s));
    if parameterless.Some? {
      information.usableConstructor := parameterless;
      return true;
    }
    if !s.tryToCreateNonDefaultConstructors {
      return false;
    }
    var constructors := SearchedCtors(t, s);
    var byProperties: Option<Ctor> := None;
    if HasFlag(s.testedDataMembers, Properties) {
      byProperties := SearchConstructors(constructors, PropertyNames(t, s));
    }
    if byProperties.Some? {
      information.usableConstructor := byProperties;
      return true;
    }
    var byFields: Option<Ctor> := None;
    if HasFlag(s.testedDataMembers, Fields) {
      byFields := SearchConstructors(constructors, FieldNames(t, s));
    }
    assert ResolveConstructor(t, s) == byFields;
    if byFields.Some? {
      information.usableConstructor := byFields;
      return true;
    }
    return false;
  }

  /** The `foreach` over the constructors that returns the first whose parameters all match. */
  method SearchConstructors(constructors: seq<Ctor>, names: seq<string>) returns (found: Option<Ctor>)
    ensures found == FirstMatching(constructors, names)
  {
    for i := 0 to |constructors|
      invariant forall j :: 0 <= j < i ==> !ParametersMatch(constructors[j], names)
    {
      if ParametersMatch(constructors[i], names) {
        FirstMatchingAt(constructors, names, i);
        return Some(constructors[i]);
      }
    }
    return None;
  }
}
