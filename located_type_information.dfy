/** The per-type metadata record the locator fills in and the oracle reads. */
module LocatedTypeInfo {
  import opened Reflection

  /** The value held by a record at one moment. */
  datatype Located = Located(properties: seq<Member>, fields: seq<Member>, usableConstructor: Option<Ctor>)

  class LocatedTypeInformation {
    /** The properties that need to be tested. */
    var properties: seq<Member>
    /** The fields that need to be tested. */
    var fields: seq<Member>
    /** The constructor used to create an instance; None until one is resolved. */
    var usableConstructor: Option<Ctor>

    /** A fresh record: no members to test and no constructor. */
    constructor ()
      ensures properties == [] && fields == [] && usableConstructor == None
    {
      properties := [];
      fields := [];
      usableConstructor := None;
    }

    function Snapshot(): (r: Located)
      reads this
    {
      Located(properties, fields, usableConstructor)
    }
  }
}
