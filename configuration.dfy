/** The settings of one test run and the located-type dictionary the oracle looks types up in. */
module Configuration {
  import opened Enums
  import opened LocatedTypeInfo

  /** The three settings, as a value. */
  datatype Settings = Settings(accessibility: Bits, testedDataMembers: Bits, tryToCreateNonDefaultConstructors: bool)

  class LazyPocoConfiguration {
    var accessibilityFlags: Bits
    var testedDataMembers: Bits
    /** Whether a constructor with parameters may be used when no parameterless one is found. */
    var tryToCreateNonDefaultConstructors: bool
    /** Located-type metadata keyed by assembly-qualified name. */
    var locatedTypeInformation: map<string, LocatedTypeInformation>

    /** Stores the three settings unchanged; the defaults are Public, Properties and false. */
    constructor (accessibility: Bits := Public, members: Bits := Properties, tryNonDefault: bool := false)
      ensures accessibilityFlags == accessibility
      ensures testedDataMembers == members
      ensures tryToCreateNonDefaultConstructors == tryNonDefault
      ensures locatedTypeInformation == map[]
    {
      accessibilityFlags := accessibility;
      testedDataMembers := members;
      tryToCreateNonDefaultConstructors := tryNonDefault;
      locatedTypeInformation := map[];
    }

    function CurrentSettings(): Settings
      reads this
    {
      Settings(accessibilityFlags, testedDataMembers, tryToCreateNonDefaultConstructors)
    }

    /** The records the dictionary refers to. */
    function Records(): set<LocatedTypeInformation>
      reads this
    {
      set k | k in locatedTypeInformation :: locatedTypeInformation[k]
    }

    /** The dictionary with every record read at this moment. */
    function Snapshot(): map<string, Located>
      reads this, Records()
    {
      map k | k in locatedTypeInformation :: locatedTypeInformation[k].Snapshot()
    }
  }

  /** A configuration built with no arguments searches public properties only, with no
      non-default constructors, and has located nothing yet. */
  method DefaultConfiguration() returns (c: LazyPocoConfiguration)
    ensures fresh(c)
    ensures c.CurrentSettings() == Settings(Public, Properties, false)
    ensures c.Snapshot() == map[]
  {
    c := new LazyPocoConfiguration();
  }
}
