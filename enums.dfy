/** The two [Flags] enums of the tester and the reflection binding bits they are cast to.
    Every value is the enum's underlying 32-bit pattern; a flag F is enabled in v when
    `(v & F) == F`, the test the locator writes out. */
module Enums {

  type Bits = bv32

  /** `(value & flag) == flag`: every bit of `flag` is set in `value`. */
  predicate HasFlag(value: Bits, flag: Bits): (r: bool)
    ensures flag == 0 ==> r
    ensures value == flag ==> r
    ensures r && flag != 0 ==> value != 0
  {
    value & flag == flag
  }

  // TestedDataMembers: which member kinds are checked.
  const None: Bits := 0
  const Properties: Bits := 1
  const Fields: Bits := 1 << 1
  const NoBackingFields: Bits := 1 << 2
  const PropertiesAndFields: Bits := Properties | Fields
  const PropertiesAndFieldsNoBacking: Bits := Properties | Fields | NoBackingFields

  // AccessibilityFlags: which accessibility levels are searched. The values are chosen so
  // that a cast to the runtime's binding flags selects the same levels.
  const Public: Bits := 1 << 4
  const NonPublic: Bits := 1 << 5
  const PublicAndNonPublic: Bits := Public | NonPublic

  // The binding bits the locator adds itself (the enum above has no value for them).
  const Instance: Bits := 1 << 2
  const Static: Bits := 1 << 3

  /** The three declared accessibility values. */
  predicate IsAccessibilityValue(a: Bits) {
    a == Public || a == NonPublic || a == PublicAndNonPublic
  }

  lemma NoneEnablesNothing(flag: Bits)
    requires flag != 0
    ensures !HasFlag(None, flag)
  {
  }

  lemma MemberKindBitsDistinct()
    ensures Properties == 1 && Fields == 2 && NoBackingFields == 4
    ensures !HasFlag(Properties, Fields) && !HasFlag(Properties, NoBackingFields)
    ensures !HasFlag(Fields, Properties) && !HasFlag(Fields, NoBackingFields)
    ensures !HasFlag(NoBackingFields, Properties) && !HasFlag(NoBackingFields, Fields)
  {
  }

  lemma ShorthandsEnableBothPasses()
    ensures PropertiesAndFields == 3 && PropertiesAndFieldsNoBacking == 7
    ensures HasFlag(PropertiesAndFields, Properties) && HasFlag(PropertiesAndFields, Fields)
    ensures !HasFlag(PropertiesAndFields, NoBackingFields)
    ensures HasFlag(PropertiesAndFieldsNoBacking, Properties) && HasFlag(PropertiesAndFieldsNoBacking, Fields)
  {
  }

  lemma AccessibilityBits()
    ensures Public == 16 && NonPublic == 32 && PublicAndNonPublic == 48
    ensures Public & NonPublic == 0
    ensures HasFlag(PublicAndNonPublic, Public) && HasFlag(PublicAndNonPublic, NonPublic)
  {
  }

  /** No accessibility value carries the Instance or Static bit, so the locator must add Instance. */
  lemma AccessibilityHasNoInstanceBit(a: Bits)
    requires IsAccessibilityValue(a)
    ensures a & Instance == 0 && a & Static == 0
    ensures HasFlag(a | Instance, Instance)
  {
  }
}
