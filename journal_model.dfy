/**
 * The generator's plain records: a generated class (`JournalClass`), one of its properties
 * (`JournalProperty`), an enum annotation (`PropertyEnumConnection`) and the manual entries
 * that supply descriptions. A C# `null` string is `None`.
 */
module JournalModel {
  import opened Wrappers

  /** `JournalProperty`: `jsonName` is `None` for an enum accessor, which has no wire key. */
  datatype JournalProperty = JournalProperty(
    jsonName: Option<string>,
    description: Option<string>,
    typeName: string,
    name: string,
    accessors: string)

  /**
   * `JournalClass`: `baseType` and `event` are `None` for a nested element class.
   * The emitter's `FilePath` is not part of this model.
   */
  datatype JournalClass = JournalClass(
    name: string,
    baseType: Option<string>,
    event: Option<string>,
    timestamp: bool,
    properties: seq<JournalProperty>)

  /** `PropertyEnumConnection`: the (event, property) pair an enum type is attached to. */
  datatype PropertyEnumConnection = PropertyEnumConnection(
    eventName: string,
    propertyName: string,
    enumName: string,
    isUsed: bool)

  /** `ManualParameter`, reduced to what the engine reads. */
  datatype ManualParameter = ManualParameter(name: string, description: Option<string>)

  /** `ManualEntry`, reduced to what the engine reads. */
  datatype ManualEntry = ManualEntry(name: string, parameters: seq<ManualParameter>)

  /** Index of the first property called `name` (`Properties.FirstOrDefault(p => p.Name == name)`). */
  function FindProperty(props: seq<JournalProperty>, name: string): (r: Option<nat>)
    ensures r.Some? ==> r.value < |props| && props[r.value].name == name
    ensures r.Some? ==> forall k :: 0 <= k < r.value ==> props[k].name != name
    ensures r.None? ==> forall k :: 0 <= k < |props| ==> props[k].name != name
  {
    if props == [] then None
    else if props[0].name == name then Some(0)
    else match FindProperty(props[1..], name)
      case None => None
      case Some(k) => Some(k + 1)
  }
}
