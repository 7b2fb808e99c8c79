/** The round-trip oracle: the supported-type registry, the default and test value tables, and
    the test of one located type (construct it, then write a default, write a test value and read
    it back for every stored property and then every stored field). */
module PocoTester {
  import opened Enums
  import opened Reflection
  import opened LocatedTypeInfo
  import opened Configuration

  /** The types the tester can generate values for. */
  const DefaultSupportedTypes: set<TypeTag> := {
    Boolean, Byte, SByte, Char, Decimal, Double, Single, Int32, UInt32, IntPtr, UIntPtr,
    Int64, UInt64, Int16, UInt16, String,
    DateTime, DateTimeOffset, TimeSpan, Guid
  }

  /** The registry is exactly the twenty named tags: no other type is supported. */
  lemma RegistryIsTheNamedTypes(t: TypeTag)
    ensures t in DefaultSupportedTypes <==> !t.Other?
  {
  }

  /** The position of a registry type in its declaration; -1 for any other type. */
  function RegistryIndex(t: TypeTag): int {
    match t
    case Boolean => 0
    case Byte => 1
    case SByte => 2
    case Char => 3
    case Decimal => 4
    case Double => 5
    case Single => 6
    case Int32 => 7
    case UInt32 => 8
    case IntPtr => 9
    case UIntPtr => 10
    case Int64 => 11
    case UInt64 => 12
    case Int16 => 13
    case UInt16 => 14
    case String => 15
    case DateTime => 16
    case DateTimeOffset => 17
    case TimeSpan => 18
    case Guid => 19
    case Other(_, _) => -1
  }

  /** The registry's types in the order the registry lists them. */
  const RegistryOrder: seq<TypeTag> := [
    Boolean, Byte, SByte, Char, Decimal, Double, Single, Int32, UInt32, IntPtr, UIntPtr,
    Int64, UInt64, Int16, UInt16, String, DateTime, DateTimeOffset, TimeSpan, Guid]

  lemma RegistryOrderDistinct()
    ensures Distinct(RegistryOrder)
  {
    forall i | 0 <= i < |RegistryOrder| ensures RegistryIndex(RegistryOrder[i]) == i { }
  }

  lemma RegistryOrderIsRegistry()
    ensures DefaultSupportedTypes == set t | t in RegistryOrder
  {
    ListedTypesAreRegistered();
    RegisteredTypesAreListed();
  }

  lemma ListedTypesAreRegistered()
    ensures forall i :: 0 <= i < |RegistryOrder| ==> RegistryOrder[i] in DefaultSupportedTypes
  {
  }

  lemma RegisteredTypesAreListed()
    ensures forall t :: t in DefaultSupportedTypes ==> 0 <= RegistryIndex(t) < |RegistryOrder| && RegistryOrder[RegistryIndex(t)] == t
  {
  }

  /** The registry holds twenty distinct types. */
  lemma RegistryHasTwentyTypes()
    ensures |DefaultSupportedTypes| == 20
  {
    RegistryOrderDistinct();
    RegistryOrderIsRegistry();
    DistinctElementsCount(RegistryOrder);
  }

  datatype Fault =
    | LookupFault(key: string)                          // InvalidOperationException: type never located
    | ConstructionFault(typeName: string, cause: string) // InvalidOperationException wrapping the cause
    | AssertionFault(typeName: string, member: string)   // the read-back value differs
    | NotImplementedFault(tag: TypeTag)                 // no test value for the type

  datatype Result<T> = Success(value: T) | Failure(fault: Fault)

  datatype Outcome = Pass | Fail(fault: Fault)

  /** Integral types with their width in bits and signedness; `char` is an unsigned 16-bit code unit. */
  predicate IsFixedWidthIntegral(t: TypeTag) {
    t in {Byte, SByte, Char, Int16, UInt16, Int32, UInt32, Int64, UInt64}
  }

  function Width(t: TypeTag): nat
    requires IsFixedWidthIntegral(t)
  {
    match t
    case Byte => 8
    case SByte => 8
    case Char => 16
    case Int16 => 16
    case UInt16 => 16
    case Int32 => 32
    case UInt32 => 32
    case Int64 => 64
    case UInt64 => 64
  }

  predicate Signed(t: TypeTag) {
    t == SByte || t == Int16 || t == Int32 || t == Int64
  }

  function Pow2(n: nat): (r: nat)
    ensures r >= 1
  {
    if n == 0 then 1 else 2 * Pow2(n - 1)
  }

  /** The test value of a type: the largest value of every numeric width, true, the largest
      character, a fixed sentinel string and a fixed non-empty Guid; any other type has none. */
  function TestValueForType(t: TypeTag): (r: Result<Value>)
    ensures r.Success? <==> t in DefaultSupportedTypes
    ensures r.Success? ==> TypeOf(r.value) == Some(t)
    ensures r.Failure? ==> r.fault == NotImplementedFault(t)
  {
    match t
    case Boolean => Success(Flag(true))
    case Byte => Success(Number(Byte, 0xFF))
    case SByte => Success(Number(SByte, 0x7F))
    case Char => Success(Number(Char, 0xFFFF))
    case Decimal => Success(MaxOf(Decimal))
    case Double => Success(MaxOf(Double))
    case Single => Success(MaxOf(Single))
    case Int32 => Success(Number(Int32, 0x7FFF_FFFF))
    case UInt32 => Success(Number(UInt32, 0xFFFF_FFFF))
    case IntPtr => Success(MaxOf(IntPtr))
    case UIntPtr => Success(MaxOf(UIntPtr))
    case Int64 => Success(Number(Int64, 0x7FFF_FFFF_FFFF_FFFF))
    case UInt64 => Success(Number(UInt64, 0xFFFF_FFFF_FFFF_FFFF))
    case Int16 => Success(Number(Int16, 0x7FFF))
    case UInt16 => Success(Number(UInt16, 0xFFFF))
    case String => Success(Text("LazyTestString"))
    case DateTime => Success(MaxOf(DateTime))
    case DateTimeOffset => Success(MaxOf(DateTimeOffset))
    case TimeSpan => Success(MaxOf(TimeSpan))
    case Guid => Success(GuidOf("275034d1-1aba-42e5-8ac2-44f3c858ee76"))
    case Other(_, _) => Failure(NotImplementedFault(t))
  }

  /** For every fixed-width integral type the test value is its MaxValue: 2^(w-1)-1 when
      signed and 2^w-1 when unsigned. */
  lemma {:induction false} TestValueIsMaxOfWidth(t: TypeTag)
    requires IsFixedWidthIntegral(t)
    ensures TestValueForType(t) == Success(Number(t, if Signed(t) then Pow2(Width(t) - 1) - 1 else Pow2(Width(t)) - 1))
  {
    PowersOfTwo();
  }

  lemma {:induction false} PowersOfTwo()
    ensures Pow2(7) == 0x80 && Pow2(8) == 0x100
    ensures Pow2(15) == 0x8000 && Pow2(16) == 0x1_0000
    ensures Pow2(31) == 0x8000_0000 && Pow2(32) == 0x1_0000_0000
    ensures Pow2(63) == 0x8000_0000_0000_0000 && Pow2(64) == 0x1_0000_0000_0000_0000
  {
    PowersOfTwoTo16();
    PowAdd(31, 1);
    PowAdd(16, 15);
    PowAdd(32, 31);
    PowAdd(63, 1);
  }

  lemma {:induction false} PowersOfTwoTo16()
    ensures Pow2(7) == 0x80 && Pow2(8) == 0x100
    ensures Pow2(15) == 0x8000 && Pow2(16) == 0x1_0000
  {
    PowAdd(7, 1);
    PowAdd(8, 7);
    PowAdd(15, 1);
  }

  lemma {:induction false} PowAdd(a: nat, b: nat)
    ensures Pow2(a + b) == Pow2(a) * Pow2(b)
  {
    if b > 0 {
      PowAdd(a, b - 1);
    }
  }

  /** The value the runtime produces for a type: "" for string, the zero value for the other
      supported types, a new instance for other types it can construct, and null when
      construction fails. `activatable = false` also stands for a `Nullable<T>` type, for which
      the runtime returns null without failing. */
  function CreateDefaultForValue(t: TypeTag): (r: Value)
    ensures r == Null <==> t.Other? && !t.activatable
    ensures r != Null ==> TypeOf(r) == Some(t)
  {
    match t
    case String => Text("")
    case Boolean => Flag(false)
    case Other(_, activatable) => if activatable then ZeroOf(t) else Null
    case _ => if IsFixedWidthIntegral(t) then Number(t, 0) else ZeroOf(t)
  }

  /** The default of a supported type is never null and never equals its test value, so a
      member that ignores writes cannot pass the round trip by accident. */
  lemma DefaultDiffersFromTestValue(t: TypeTag)
    requires t in DefaultSupportedTypes
    ensures CreateDefaultForValue(t) != Null
    ensures CreateDefaultForValue(t) != TestValueForType(t).value
  {
  }

  /** The default of every type other than string is its zero value (or null when the runtime
      cannot produce one). */
  lemma DefaultIsZeroOrNull(t: TypeTag)
    requires t != String
    ensures var d := CreateDefaultForValue(t);
      d == Flag(false) || d == Number(t, 0) || d == ZeroOf(t) || d == Null
    ensures CreateDefaultForValue(t) == Null <==> t.Other? && !t.activatable
    ensures CreateDefaultForValue(String) == Text("")
  {
  }

  /** What the tested type runs on construction: the new instance's state, or the exception it throws. */
  datatype Construction = Constructed(state: map<string, Value>) | Threw(exception: string)

  /** The tested type's own code, which the tester runs but does not see: its constructors and
      its property accessors. Fields are plain storage. */
  datatype TypeCode = TypeCode(
    construct: (Ctor, seq<Value>) -> Construction,
    setProperty: (map<string, Value>, string, Value) -> map<string, Value>,
    getProperty: (map<string, Value>, string) -> Value)

  /** Properties whose getter returns the value the setter was last given. */
  ghost predicate FaithfulAccessors(code: TypeCode) {
    forall s, n, v :: code.getProperty(code.setProperty(s, n, v), n) == v
  }

  function FieldValue(s: map<string, Value>, name: string): Value {
    if name in s then s[name] else Null
  }

  /** An object under test. */
  class Instance {
    var state: map<string, Value>
    const code: TypeCode

    constructor (code: TypeCode, state: map<string, Value>)
      ensures this.code == code && this.state == state
    {
      this.code := code;
      this.state := state;
    }

    method SetProperty(p: Member, v: Value)
      modifies this
      ensures state == code.setProperty(old(state), p.name, v)
    {
      state := code.setProperty(state, p.name, v);
    }

    method GetProperty(p: Member) returns (v: Value)
      ensures v == code.getProperty(state, p.name)
    {
      v := code.getProperty(state, p.name);
    }

    method SetField(f: Member, v: Value)
      modifies this
      ensures state == old(state)[f.name := v]
    {
      state := state[f.name := v];
    }

    method GetField(f: Member) returns (v: Value)
      ensures v == FieldValue(state, f.name)
    {
      v := FieldValue(state, f.name);
    }
  }

  function Write(s: map<string, Value>, m: Member, v: Value, isProperty: bool, code: TypeCode): map<string, Value> {
    if isProperty then code.setProperty(s, m.name, v) else s[m.name := v]
  }

  function Read(s: map<string, Value>, m: Member, isProperty: bool, code: TypeCode): Value {
    if isProperty then code.getProperty(s, m.name) else FieldValue(s, m.name)
  }

  /** One member's round trip: write the default, compute the test value (no value is a
      fault), write it, read back, and fail the assertion when the two differ. */
  function ExerciseMember(s: map<string, Value>, m: Member, isProperty: bool, code: TypeCode, typeName: string)
    : (r: Result<map<string, Value>>)
    ensures m.tag !in DefaultSupportedTypes ==> r == Failure(NotImplementedFault(m.tag))
    ensures r.Success? ==> m.tag in DefaultSupportedTypes && Read(r.value, m, isProperty, code) == TestValueForType(m.tag).value
    ensures r.Failure? && m.tag in DefaultSupportedTypes ==> r.fault == AssertionFault(typeName, m.name)
    ensures !isProperty && m.tag in DefaultSupportedTypes ==> r.Success?
    ensures m.tag in DefaultSupportedTypes ==>
      var tv := TestValueForType(m.tag).value;
      var written := Write(Write(s, m, CreateDefaultForValue(m.tag), isProperty, code), m, tv, isProperty, code);
      (r.Success? <==> Read(written, m, isProperty, code) == tv)
  {
    var s1 := Write(s, m, CreateDefaultForValue(m.tag), isProperty, code);
    match TestValueForType(m.tag)
    case Failure(f) => Failure(f)
    case Success(tv) =>
      var s2 := Write(s1, m, tv, isProperty, code);
      if tv == Read(s2, m, isProperty, code) then Success(s2) else Failure(AssertionFault(typeName, m.name))
  }

  /** The members in stored order, stopping at the first fault. */
  function Exercise(s: map<string, Value>, ms: seq<Member>, isProperty: bool, code: TypeCode, typeName: string)
    : (r: Result<map<string, Value>>)
    ensures r.Success? ==> forall m :: m in ms ==> m.tag in DefaultSupportedTypes
  {
    if ms == [] then Success(s)
    else
      assert ms == ms[..|ms| - 1] + [ms[|ms| - 1]];
      match Exercise(s, ms[..|ms| - 1], isProperty, code, typeName)
      case Failure(f) => Failure(f)
      case Success(s') => ExerciseMember(s', ms[|ms| - 1], isProperty, code, typeName)
  }

  /** Once a prefix has failed, the whole walk fails with the same fault. */
  lemma {:induction false} FailureSticks(s: map<string, Value>, ms: seq<Member>, k: nat, isProperty: bool, code: TypeCode, typeName: string)
    requires k <= |ms|
    requires Exercise(s, ms[..k], isProperty, code, typeName).Failure?
    ensures Exercise(s, ms, isProperty, code, typeName) == Exercise(s, ms[..k], isProperty, code, typeName)
  {
    if k < |ms| {
      var init := ms[..|ms| - 1];
      assert init[..k] == ms[..k];
      FailureSticks(s, init, k, isProperty, code, typeName);
    } else {
      assert ms[..k] == ms;
    }
  }

  /** With supported member types, and accessors that return what was last set (fields always
      do), every assertion passes. */
  lemma {:induction false} FaithfulMembersPass(s: map<string, Value>, ms: seq<Member>, isProperty: bool, code: TypeCode, typeName: string)
    requires forall m :: m in ms ==> m.tag in DefaultSupportedTypes
    requires isProperty ==> FaithfulAccessors(code)
    ensures Exercise(s, ms, isProperty, code, typeName).Success?
  {
    if ms != [] {
      var init := ms[..|ms| - 1];
      assert forall m :: m in init ==> m in ms;
      FaithfulMembersPass(s, init, isProperty, code, typeName);
      var s' := Exercise(s, init, isProperty, code, typeName).value;
      var m := ms[|ms| - 1];
      var s1 := Write(s', m, CreateDefaultForValue(m.tag), isProperty, code);
      var tv := TestValueForType(m.tag).value;
      assert isProperty ==> code.getProperty(code.setProperty(s1, m.name, tv), m.name) == tv;
    }
  }

  /** After the field pass every field with a distinct name holds its test value. */
  lemma {:induction false} FieldsHoldTestValues(s: map<string, Value>, ms: seq<Member>, code: TypeCode, typeName: string)
    requires forall m :: m in ms ==> m.tag in DefaultSupportedTypes
    requires forall i, j :: 0 <= i < j < |ms| ==> ms[i].name != ms[j].name
    ensures Exercise(s, ms, false, code, typeName).Success?
    ensures forall m :: m in ms ==> FieldValue(Exercise(s, ms, false, code, typeName).value, m.name) == TestValueForType(m.tag).value
  {
    FaithfulMembersPass(s, ms, false, code, typeName);
    if ms != [] {
      var init := ms[..|ms| - 1];
      assert forall m :: m in init ==> m in ms;
      FieldsHoldTestValues(s, init, code, typeName);
      var last := ms[|ms| - 1];
      forall m | m in ms
        ensures FieldValue(Exercise(s, ms, false, code, typeName).value, m.name) == TestValueForType(m.tag).value
      {
        if m != last {
          var i :| 0 <= i < |ms| && ms[i] == m;
          assert i < |ms| - 1 && m in init;
        }
      }
    }
  }

  /** A fault names the tested type and a member of the walk: an assertion fault only ever
      comes from a property (a field read returns what was written), and a missing test value
      only from an unsupported member type. */
  lemma {:induction false} ExerciseFaults(s: map<string, Value>, ms: seq<Member>, isProperty: bool, code: TypeCode, typeName: string)
    ensures var r := Exercise(s, ms, isProperty, code, typeName);
      r.Failure? ==>
        match r.fault
        case AssertionFault(tn, n) => tn == typeName && isProperty && exists m :: m in ms && m.name == n
        case NotImplementedFault(t) => t !in DefaultSupportedTypes && exists m :: m in ms && m.tag == t
        case _ => false
  {
    if ms != [] {
      var init := ms[..|ms| - 1];
      ExerciseFaults(s, init, isProperty, code, typeName);
      assert forall m :: m in init ==> m in ms;
      var last := ms[|ms| - 1];
      assert last in ms;
    }
  }

  /** Construction: no constructor recorded fails (a null dereference inside the try); a
      parameterless one is run through default construction, which needs a public
      parameterless constructor; otherwise the recorded constructor gets one default value per
      parameter, in order. Every failure becomes a construction fault naming the type. */
  function Construct(ctor: Option<Ctor>, t: TypeDesc, code: TypeCode): (r: Result<map<string, Value>>)
    ensures r.Success? ==> ctor.Some?
    ensures r.Success? && |ctor.value.params| == 0 ==> exists p :: p in t.constructors && p.params == [] && p.isPublic
  {
    match ctor
    case None => Failure(ConstructionFault(t.fullName, "NullReferenceException"))
    case Some(c) =>
      if |c.params| == 0 then
        match FindParameterless(t.constructors, Public | Enums.Instance)
        case None => Failure(ConstructionFault(t.fullName, "MissingMethodException"))
        case Some(p) => Wrap(code.construct(p, []), t)
      else
        Wrap(code.construct(c, DefaultArguments(c.params)), t)
  }

  function Wrap(c: Construction, t: TypeDesc): Result<map<string, Value>> {
    match c
    case Constructed(s) => Success(s)
    case Threw(e) => Failure(ConstructionFault(t.fullName, e))
  }

  function DefaultArguments(ps: seq<Param>): seq<Value> {
    seq(|ps|, i requires 0 <= i < |ps| => CreateDefaultForValue(ps[i].tag))
  }

  /** Only construction faults come out of construction, and each names the type. */
  lemma ConstructFaultsNameType(ctor: Option<Ctor>, t: TypeDesc, code: TypeCode)
    ensures Construct(ctor, t, code).Failure? ==>
      Construct(ctor, t, code).fault.ConstructionFault? && Construct(ctor, t, code).fault.typeName == t.fullName
    ensures ctor.None? ==> Construct(ctor, t, code).Failure?
  {
  }

  /** The whole test of one type: look up its record (fault if absent), construct, then all
      properties, then all fields. */
  function TestPocoSpec(located: map<string, Located>, t: TypeDesc, code: TypeCode): (r: Outcome)
    ensures r == Pass ==> t.assemblyQualifiedName in located
    ensures r == Pass ==>
      var info := located[t.assemblyQualifiedName];
      && Construct(info.usableConstructor, t, code).Success?
      && (forall m :: m in info.properties ==> m.tag in DefaultSupportedTypes)
      && (forall m :: m in info.fields ==> m.tag in DefaultSupportedTypes)
  {
    var key := t.assemblyQualifiedName;
    if key !in located then Fail(LookupFault(key))
    else
      var info := located[key];
      match Construct(info.usableConstructor, t, code)
      case Failure(f) => Fail(f)
      case Success(s0) =>
        match Exercise(s0, info.properties, true, code, t.fullName)
        case Failure(f) => Fail(f)
        case Success(s1) =>
          match Exercise(s1, info.fields, false, code, t.fullName)
          case Failure(f) => Fail(f)
          case Success(_) => Pass
  }

  /** A located type whose members are all supported, whose construction succeeds and whose
      property accessors are faithful passes. */
  lemma TestPocoPasses(located: map<string, Located>, t: TypeDesc, code: TypeCode)
    requires t.assemblyQualifiedName in located
    requires var info := located[t.assemblyQualifiedName];
      && (forall m :: m in info.properties ==> m.tag in DefaultSupportedTypes)
      && (forall m :: m in info.fields ==> m.tag in DefaultSupportedTypes)
      && Construct(info.usableConstructor, t, code).Success?
    requires FaithfulAccessors(code)
    ensures TestPocoSpec(located, t, code) == Pass
  {
    var info := located[t.assemblyQualifiedName];
    var s0 := Construct(info.usableConstructor, t, code).value;
    FaithfulMembersPass(s0, info.properties, true, code, t.fullName);
    var s1 := Exercise(s0, info.properties, true, code, t.fullName).value;
    FaithfulMembersPass(s1, info.fields, false, code, t.fullName);
  }

  /** The faults of a whole test: lookup only when the key is absent, nothing else before
      construction, and an unimplemented test value only for a stored member of unsupported type. */
  lemma TestPocoFaults(located: map<string, Located>, t: TypeDesc, code: TypeCode)
    ensures (TestPocoSpec(located, t, code).Fail? && TestPocoSpec(located, t, code).fault.LookupFault?)
      <==> t.assemblyQualifiedName !in located
    ensures TestPocoSpec(located, t, code).Fail? && TestPocoSpec(located, t, code).fault.NotImplementedFault? ==>
      t.assemblyQualifiedName in located &&
      var info := located[t.assemblyQualifiedName];
      exists m :: (m in info.properties || m in info.fields) && m.tag !in DefaultSupportedTypes
  {
    var key := t.assemblyQualifiedName;
    if key in located {
      var info := located[key];
      ConstructFaultsNameType(info.usableConstructor, t, code);
      var c := Construct(info.usableConstructor, t, code);
      if c.Success? {
        ExerciseFaults(c.value, info.properties, true, code, t.fullName);
        var p := Exercise(c.value, info.properties, true, code, t.fullName);
        if p.Success? {
          ExerciseFaults(p.value, info.fields, false, code, t.fullName);
        }
      }
    }
  }

  /** CreateInstance: builds the default arguments in a loop and runs the construction. */
  method CreateInstance(information: LocatedTypeInformation, t: TypeDesc, code: TypeCode) returns (r: Result<Instance>)
    ensures var c := Construct(information.usableConstructor, t, code);
      && (r.Failure? <==> c.Failure?)
      && (r.Failure? ==> r.fault == c.fault)
      && (r.Success? ==> fresh(r.value) && r.value.code == code && r.value.state == c.value)
  {
    if information.usableConstructor.None? {
      return Failure(ConstructionFault(t.fullName, "NullReferenceException"));
    }
    var ctor := information.usableConstructor.value;
    var ctorParams := ctor.params;
    var construction: Construction;
    if |ctorParams| == 0 {
      var p := FindParameterless(t.constructors, Public | Enums.Instance);
      if p.None? {
        return Failure(ConstructionFault(t.fullName, "MissingMethodException"));
      }
      construction := code.construct(p.value, []);
    } else {
      var defaultValues := new Value[|ctorParams|];
      for i := 0 to |ctorParams|
        invariant forall j :: 0 <= j < i ==> defaultValues[j] == CreateDefaultForValue(ctorParams[j].tag)
      {
        defaultValues[i] := CreateDefaultForValue(ctorParams[i].tag);
      }
      assert defaultValues[..] == DefaultArguments(ctorParams);
      construction := code.construct(ctor, defaultValues[..]);
    }
    match construction
    case Threw(e) =>
      r := Failure(ConstructionFault(t.fullName, e));
    case Constructed(s) =>
      var obj := new Instance(code, s);
      r := Success(obj);
  }

  method TestProperties(information: LocatedTypeInformation, typeName: string, obj: Instance) returns (outcome: Outcome)
    modifies obj
    ensures var e := Exercise(old(obj.state), information.properties, true, obj.code, typeName);
      && (outcome.Pass? <==> e.Success?)
      && (outcome.Pass? ==> obj.state == e.value)
      && (outcome.Fail? ==> outcome.fault == e.fault)
  {
    var props := information.properties;
    ghost var s0 := obj.state;
    var i := 0;
    while i < |props|
      invariant 0 <= i <= |props|
      invariant Exercise(s0, props[..i], true, obj.code, typeName) == Success(obj.state)
    {
      var prop := props[i];
      assert props[..i + 1][..i] == props[..i];
      obj.SetProperty(prop, CreateDefaultForValue(prop.tag));
      var testValue := TestValueForType(prop.tag);
      if testValue.Failure? {
        FailureSticks(s0, props, i + 1, true, obj.code, typeName);
        return Fail(testValue.fault);
      }
      obj.SetProperty(prop, testValue.value);
      var propValue := obj.GetProperty(prop);
      if testValue.value != propValue {
        FailureSticks(s0, props, i + 1, true, obj.code, typeName);
        return Fail(AssertionFault(typeName, prop.name));
      }
      i := i + 1;
    }
    assert props[..i] == props;
    outcome := Pass;
  }

  method TestFields(information: LocatedTypeInformation, typeName: string, obj: Instance) returns (outcome: Outcome)
    modifies obj
    ensures var e := Exercise(old(obj.state), information.fields, false, obj.code, typeName);
      && (outcome.Pass? <==> e.Success?)
      && (outcome.Pass? ==> obj.state == e.value)
      && (outcome.Fail? ==> outcome.fault == e.fault)
  {
    var fields := information.fields;
    ghost var s0 := obj.state;
    var i := 0;
    while i < |fields|
      invariant 0 <= i <= |fields|
      invariant Exercise(s0, fields[..i], false, obj.code, typeName) == Success(obj.state)
    {
      var field := fields[i];
      assert fields[..i + 1][..i] == fields[..i];
      obj.SetField(field, CreateDefaultForValue(field.tag));
      var testValue := TestValueForType(field.tag);
      if testValue.Failure? {
        FailureSticks(s0, fields, i + 1, false, obj.code, typeName);
        return Fail(testValue.fault);
      }
      obj.SetField(field, testValue.value);
      var fieldValue := obj.GetField(field);
      if testValue.value != fieldValue {
        // A field read returns what was just written: this assertion cannot fail.
        assert false;
      }
      i := i + 1;
    }
    assert fields[..i] == fields;
    outcome := Pass;
  }

  /** TestPOCO: the outcome of testing one type is the one the specification gives for the
      configuration's located records. Nothing that exists beforehand is changed. */
  method TestPOCO(configuration: LazyPocoConfiguration, t: TypeDesc, code: TypeCode) returns (outcome: Outcome)
    ensures outcome == TestPocoSpec(configuration.Snapshot(), t, code)
  {
    var key := t.assemblyQualifiedName;
    if key !in configuration.locatedTypeInformation {
      return Fail(LookupFault(key));
    }
    var information := configuration.locatedTypeInformation[key];
    assert configuration.Snapshot()[key] == information.Snapshot();
    var created := CreateInstance(information, t, code);
    if created.Failure? {
      return Fail(created.fault);
    }
    var obj := created.value;
    outcome := TestProperties(information, t.fullName, obj);
    if outcome.Fail? {
      return;
    }
    outcome := TestFields(information, t.fullName, obj);
  }
}
