/** An abstract description of the runtime types the tester inspects: what the tester learns
    through reflection (constructors, fields, properties, their accessibility) is given here as
    plain data, each sequence in the order reflection returns its members. */
module Reflection {
  import opened Enums

  datatype Option<T> = None | Some(value: T)

  /** Declared type of a member or parameter. The twenty named tags are the runtime types the
      tester knows; every other type is `Other`, with whether `Activator.CreateInstance` gives a non-null
      instance of it (false when it throws, and for `Nullable<T>`, whose default is null). */
  datatype TypeTag =
    | Boolean | Byte | SByte | Char | Decimal | Double | Single
    | Int32 | UInt32 | IntPtr | UIntPtr | Int64 | UInt64 | Int16 | UInt16
    | String | DateTime | DateTimeOffset | TimeSpan | Guid
    | Other(name: string, activatable: bool)

  /** A runtime value. Integral values (and `char` as its code unit) carry their number; values
      whose arithmetic is not modelled (floating point, decimal, date/time, platform-width
      integers) are the distinct constants `ZeroOf` and `MaxOf` of their type. */
  datatype Value =
    | Null
    | Flag(b: bool)
    | Number(tag: TypeTag, n: int)
    | Text(s: string)
    | ZeroOf(tag: TypeTag)
    | MaxOf(tag: TypeTag)
    | GuidOf(literal: string)

  /** The runtime type of a value; null has none. */
  function TypeOf(v: Value): Option<TypeTag> {
    match v
    case Null => None
    case Flag(_) => Some(Boolean)
    case Number(t, _) => Some(t)
    case Text(_) => Some(String)
    case ZeroOf(t) => Some(t)
    case MaxOf(t) => Some(t)
    case GuidOf(_) => Some(Guid)
  }

  /** A field or property: name, declared type, accessibility, and (properties only) whether a
      getter and a setter exist. Fields can always be read and written. */
  datatype Member = Member(name: string, tag: TypeTag, isPublic: bool, isStatic: bool,
                           canRead: bool, canWrite: bool)

  datatype Param = Param(name: string, tag: TypeTag)

  /** An instance constructor. */
  datatype Ctor = Ctor(params: seq<Param>, isPublic: bool)

  datatype TypeDesc = TypeDesc(
    fullName: string,
    assemblyQualifiedName: string,
    isClass: bool,
    isAbstract: bool,
    isInterface: bool,
    isNestedPrivate: bool,
    baseIsObject: bool,     // the base type is exactly `object`
    hasMarker: bool,        // carries the POCOTest attribute
    constructors: seq<Ctor>,
    fields: seq<Member>,
    properties: seq<Member>)

  /** A loaded assembly: its full name, its file location ("" when it was not loaded from a file, for example from bytes) and its types. */
  datatype Assembly = Assembly(fullName: string, location: string, types: seq<TypeDesc>)

  /** Binding-flag selection: the static or instance bit and the public or non-public bit
      matching the member must both be present in the mask. */
  predicate Selects(mask: Bits, isPublic: bool, isStatic: bool) {
    && (if isStatic then HasFlag(mask, Static) else HasFlag(mask, Instance))
    && (if isPublic then HasFlag(mask, Public) else HasFlag(mask, NonPublic))
  }

  /** GetFields / GetProperties: the members the mask selects, in the order of the `TypeDesc` sequence. */
  function Visible(ms: seq<Member>, mask: Bits): (r: seq<Member>)
    ensures |r| <= |ms|
    ensures forall m :: m in r <==> m in ms && Selects(mask, m.isPublic, m.isStatic)
  {
    if ms == [] then []
    else (if Selects(mask, ms[0].isPublic, ms[0].isStatic) then [ms[0]] else []) + Visible(ms[1..], mask)
  }

  /** GetConstructors: the instance constructors the mask selects, in the order of the `TypeDesc` sequence. */
  function VisibleCtors(cs: seq<Ctor>, mask: Bits): (r: seq<Ctor>)
    ensures |r| <= |cs|
    ensures forall c :: c in r <==> c in cs && Selects(mask, c.isPublic, false)
  {
    if cs == [] then []
    else (if Selects(mask, cs[0].isPublic, false) then [cs[0]] else []) + VisibleCtors(cs[1..], mask)
  }

  /** GetConstructor(mask, EmptyTypes): the first parameterless constructor the mask selects. */
  function FindParameterless(cs: seq<Ctor>, mask: Bits): (r: Option<Ctor>)
    ensures r.Some? ==> r.value in cs && |r.value.params| == 0 && Selects(mask, r.value.isPublic, false)
    ensures r.None? <==> forall c :: c in cs ==> |c.params| != 0 || !Selects(mask, c.isPublic, false)
  {
    if cs == [] then None
    else if |cs[0].params| == 0 && Selects(mask, cs[0].isPublic, false) then Some(cs[0])
    else FindParameterless(cs[1..], mask)
  }

  /** Ordinal case-insensitive character comparison, restricted to ASCII letters. */
  function Upper(c: char): char {
    if 'a' <= c <= 'z' then (c as int - 32) as char else c
  }

  /** The string with every ASCII letter upper-cased. */
  function UpperAll(s: string): (r: string)
    ensures |r| == |s| && forall i :: 0 <= i < |s| ==> r[i] == Upper(s[i])
  {
    if s == [] then [] else [Upper(s[0])] + UpperAll(s[1..])
  }

  /** `string.Equals(a, b, StringComparison.OrdinalIgnoreCase)`. */
  predicate EqualsIgnoreCase(a: string, b: string): (r: bool)
    ensures r <==> UpperAll(a) == UpperAll(b)
  {
    assert UpperAll(a) == UpperAll(b) ==> |a| == |b| && forall i :: 0 <= i < |a| ==> UpperAll(a)[i] == UpperAll(b)[i];
    |a| == |b| && forall i :: 0 <= i < |a| ==> Upper(a[i]) == Upper(b[i])
  }

  lemma EqualsIgnoreCaseIsEquivalence(a: string, b: string, c: string)
    ensures EqualsIgnoreCase(a, a)
    ensures EqualsIgnoreCase(a, b) ==> EqualsIgnoreCase(b, a)
    ensures EqualsIgnoreCase(a, b) && EqualsIgnoreCase(b, c) ==> EqualsIgnoreCase(a, c)
  {
  }

  /** Only letter case is ignored: "Length" matches "length" but not "Lengths". */
  lemma IgnoreCaseExamples()
    ensures EqualsIgnoreCase("Length", "length")
    ensures !EqualsIgnoreCase("Length", "Lengths")
    ensures !EqualsIgnoreCase("Width", "Wide")
  {
    assert Upper("Width"[3]) != Upper("Wide"[3]);
  }

  function Names(ms: seq<Member>): (r: seq<string>)
    ensures |r| == |ms| && forall i :: 0 <= i < |ms| ==> r[i] == ms[i].name
  {
    if ms == [] then [] else [ms[0].name] + Names(ms[1..])
  }

  // Sequences without repetitions, used for the registry and for located-type keys.

  /** No element of the sequence occurs twice. */
  ghost predicate Distinct<X>(xs: seq<X>) {
    forall i, j :: 0 <= i < j < |xs| ==> xs[i] != xs[j]
  }

  /** A sequence without repetitions has as many elements as the set of its elements. */
  lemma {:induction false} DistinctElementsCount<X>(xs: seq<X>)
    requires Distinct(xs)
    ensures |set x | x in xs| == |xs|
  {
    if xs != [] {
      DistinctElementsCount(xs[1..]);
      assert (set x | x in xs) == {xs[0]} + (set x | x in xs[1..]);
    }
  }

  /** Appending keeps a sequence without repetitions exactly when the new element is not in it. */
  lemma DistinctAppend<X>(xs: seq<X>, x: X)
    ensures Distinct(xs + [x]) <==> Distinct(xs) && x !in xs
  {
    var ys := xs + [x];
    if Distinct(ys) {
      forall i, j | 0 <= i < j < |xs| ensures xs[i] != xs[j] {
        assert ys[i] == xs[i] && ys[j] == xs[j];
      }
      forall i | 0 <= i < |xs| ensures xs[i] != x {
        assert ys[i] == xs[i] && ys[|xs|] == x;
      }
    }
  }
}
