/**
 * What `UpdateProperties`, `GeneratePartTypeClass`, `GetOrCreateJournalClass` and the line loop
 * of `GenerateFromJournalFile` do to the registry, split in two halves:
 *   - a PLAN: the list of primitive edits a record asks for (create a class, mark an annotation
 *     used, add-or-retype one property, throw). It depends only on the record, the manual, the
 *     annotation keys and `ToPascalCase`, never on the registry;
 *   - `Run`: executing a plan in order, stopping at the first `Throw` with every earlier edit kept,
 *     which is what an exception thrown half-way through the C# loops leaves behind.
 * `ToPascalCase` is not available, so it is the uninterpreted parameter `pascal`.
 */
module MergePlan {
  import opened Wrappers
  import opened Text
  import opened JournalModel
  import opened EnumConnections
  import Json
  import Classifier

  /** The edit `UpdateProperties` makes for one key: add property `name`, or retype the one already there. */
  datatype Upsert = Upsert(
    name: string,
    jsonName: string,
    typeName: string,
    description: Option<string>,
    accessor: Option<JournalProperty>)

  /** A primitive edit of the registry. */
  datatype Op =
    | Create(className: string, baseType: Option<string>, event: Option<string>, timestamp: bool)
    | Use(index: nat)
    | Merge(className: string, upsert: Upsert)
    | Throw(message: string)

  /** The engine's mutable state: the registry (with its insertion order) and the annotation table. */
  datatype State = State(
    classes: map<string, JournalClass>,
    order: seq<string>,
    connections: seq<PropertyEnumConnection>)

  /** A state and the message of the exception that ended the work, if one did. */
  datatype Outcome = Outcome(state: State, failure: Option<string>)

  /** The accessor text of an ordinary property. */
  const DefaultAccessors: string := "{ get; internal set; }"

  /** The property `UpdateProperties` appends for a new key. */
  function NewProperty(u: Upsert): JournalProperty {
    JournalProperty(Some(u.jsonName), u.description, u.typeName, u.name, DefaultAccessors)
  }

  /** The enum-typed accessor appended after a new raw property. */
  function EnumAccessor(name: string, enumName: string, description: Option<string>): JournalProperty {
    JournalProperty(None, description, enumName, name, "=> " + name + "Raw.GetEnumValue<" + enumName + ">();")
  }

  /** An existing property seen again: untouched if the type agrees, else wire name and type overwritten. */
  function Retype(p: JournalProperty, u: Upsert): (r: JournalProperty)
    ensures r.typeName == u.typeName
    ensures r.name == p.name && r.description == p.description && r.accessors == p.accessors
  {
    if p.typeName == u.typeName then p else p.(jsonName := Some(u.jsonName), typeName := u.typeName)
  }

  /** The tail of `UpdateProperties` for one key: look the name up, retype it or append it. */
  function MergeProperty(props: seq<JournalProperty>, u: Upsert): (r: seq<JournalProperty>)
    ensures |props| <= |r|
    ensures forall k :: 0 <= k < |props| ==>
      r[k].name == props[k].name && r[k].description == props[k].description && r[k].accessors == props[k].accessors
    ensures FindProperty(r, u.name).Some? && r[FindProperty(r, u.name).value].typeName == u.typeName
  {
    match FindProperty(props, u.name)
    case Some(j) =>
      var r := props[j := Retype(props[j], u)];
      assert FindProperty(r, u.name) == Some(j) by {
        assert forall k :: 0 <= k < |r| ==> r[k].name == props[k].name;
      }
      r
    case None =>
      var r := props + [NewProperty(u)] + (if u.accessor.Some? then [u.accessor.value] else []);
      assert r[|props|].name == u.name;
      r
  }

  /** Executing one edit (a `Throw` is handled by `Run`). */
  function Exec(s: State, op: Op): State {
    match op
    case Create(c, baseType, event, timestamp) =>
      if c in s.classes then s
      else s.(classes := s.classes[c := JournalClass(c, baseType, event, timestamp, [])], order := s.order + [c])
    case Use(i) => s.(connections := EnumConnections.MarkUsed(s.connections, i))
    case Merge(c, u) =>
      if c in s.classes
      then s.(classes := s.classes[c := s.classes[c].(properties := MergeProperty(s.classes[c].properties, u))])
      else s
    case Throw(_) => s
  }

  /** Executing a plan in order; the first `Throw` ends it and everything before it stays done. */
  function Run(s: State, ops: seq<Op>): Outcome
    decreases |ops|
  {
    if ops == [] then Outcome(s, None)
    else
      var o := Run(s, ops[..|ops| - 1]);
      if o.failure.Some? then o
      else match ops[|ops| - 1]
        case Throw(message) => Outcome(o.state, Some(message))
        case op => Outcome(Exec(o.state, op), None)
  }

  /** The first manual parameter whose name equals `jsonName` ignoring case. */
  function FindParameter(params: seq<ManualParameter>, jsonName: string): (r: Option<ManualParameter>)
    ensures r.Some? ==> exists k :: 0 <= k < |params| && params[k] == r.value &&
                                    (forall j :: 0 <= j < k ==> !EqualsIgnoreCase(params[j].name, jsonName))
    ensures r.Some? ==> EqualsIgnoreCase(r.value.name, jsonName)
    ensures r.None? ==> forall k :: 0 <= k < |params| ==> !EqualsIgnoreCase(params[k].name, jsonName)
  {
    if params == [] then None
    else if EqualsIgnoreCase(params[0].name, jsonName) then Some(params[0])
    else
      var r := FindParameter(params[1..], jsonName);
      assert forall k :: 0 < k < |params| ==> params[k] == params[1..][k - 1];
      r
  }

  /**
   * A manual description made fit for a C# attribute: quotes escaped, carriage returns
   * dropped, line feeds turned into " - ", then trimmed. The result is one line with no
   * white space at either end.
   */
  function CleanDescription(d: string): (r: string)
    ensures '\r' !in r && '\n' !in r
    ensures r == [] || (!IsWhiteSpace(r[0]) && !IsWhiteSpace(r[|r| - 1]))
  {
    var escaped := ReplaceChar(d, '"', "\\\"");
    var noReturns := ReplaceChar(escaped, '\r', "");
    var oneLine := ReplaceChar(noReturns, '\n', " - ");
    assert '\r' !in noReturns;
    assert '\r' !in oneLine && '\n' !in oneLine;
    Trim(oneLine)
  }

  /** Text with nothing to escape or join: no double quote and no line break. */
  predicate CleanText(d: string) {
    '"' !in d && '\r' !in d && '\n' !in d
  }

  /** A description with nothing to clean is kept as it is. */
  lemma CleanKeeps(d: string)
    requires CleanText(d)
    requires d == [] || (!IsWhiteSpace(d[0]) && !IsWhiteSpace(d[|d| - 1]))
    ensures CleanDescription(d) == d
  {
    TrimKeeps(d);
  }

  /** A line feed between two clean lines becomes " - ". */
  lemma CleanJoinsLines(a: string, b: string)
    requires CleanText(a) && CleanText(b)
    requires a != [] && !IsWhiteSpace(a[0]) && b != [] && !IsWhiteSpace(b[|b| - 1])
    ensures CleanDescription(a + "\n" + b) == a + " - " + b
  {
    var d := a + "\n" + b;
    assert '"' !in d && '\r' !in d;
    ReplaceCharConcat(a + "\n", b, '\n', " - ");
    ReplaceCharConcat(a, "\n", '\n', " - ");
    ReplaceCharSingle('\n', " - ");
    var joined := a + " - " + b;
    assert joined[0] == a[0] && joined[|joined| - 1] == b[|b| - 1];
    TrimKeeps(joined);
  }

  /** A carriage return between two clean parts is dropped. */
  lemma CleanDropsReturn(a: string, b: string)
    requires CleanText(a) && CleanText(b)
    requires a != [] && !IsWhiteSpace(a[0]) && b != [] && !IsWhiteSpace(b[|b| - 1])
    ensures CleanDescription(a + "\r" + b) == a + b
  {
    var d := a + "\r" + b;
    assert '"' !in d;
    ReplaceCharConcat(a + "\r", b, '\r', "");
    ReplaceCharConcat(a, "\r", '\r', "");
    ReplaceCharSingle('\r', "");
    var joined := a + b;
    assert a + "" == a;
    assert joined[0] == a[0] && joined[|joined| - 1] == b[|b| - 1];
    TrimKeeps(joined);
  }

  /** A double quote between two clean parts is escaped with a backslash. */
  lemma CleanEscapesQuote(a: string, b: string)
    requires CleanText(a) && CleanText(b)
    requires a != [] && !IsWhiteSpace(a[0]) && b != [] && !IsWhiteSpace(b[|b| - 1])
    ensures CleanDescription(a + "\"" + b) == a + "\\\"" + b
  {
    ReplaceCharConcat(a + "\"", b, '"', "\\\"");
    ReplaceCharConcat(a, "\"", '"', "\\\"");
    ReplaceCharSingle('"', "\\\"");
    var escaped := a + "\\\"" + b;
    assert '\r' !in escaped && '\n' !in escaped;
    assert escaped[0] == a[0] && escaped[|escaped| - 1] == b[|b| - 1];
    TrimKeeps(escaped);
  }

  /** The description a new property for `jsonName` gets from the manual, if any. */
  function Describe(params: seq<ManualParameter>, jsonName: string): Option<string> {
    match FindParameter(params, jsonName)
    case None => None
    case Some(p) => if p.description.Some? then Some(CleanDescription(p.description.value)) else None
  }

  /** The plan of `UpdateProperties` for the members of one object, in document order. */
  function MembersOps(pascal: string -> string, table: seq<PropertyEnumConnection>, className: string,
                      eventName: string, params: seq<ManualParameter>, members: seq<Json.Member>): seq<Op>
    decreases members
  {
    if members == [] then []
    else
      MembersOps(pascal, table, className, eventName, params, members[..|members| - 1])
        + MemberOps(pascal, table, className, eventName, params, members[|members| - 1])
  }

  /** The plan of one iteration of the `foreach` in `UpdateProperties`. */
  function MemberOps(pascal: string -> string, table: seq<PropertyEnumConnection>, className: string,
                     eventName: string, params: seq<ManualParameter>, m: Json.Member): seq<Op>
    decreases m
  {
    var jsonName := m.key;
    if jsonName == "event" || jsonName == "timestamp" then []
    else
      var name := pascal(jsonName);
      var description := Describe(params, jsonName);
      if m.value.JArray? then
        var items := m.value.items;
        if items == [] then []
        else if items[0].JObject? then
          var arrayType := eventName + TrimEndChar(jsonName, 's');
          [Create(arrayType, None, None, false)]
            + MembersOps(pascal, table, arrayType, eventName, params, items[0].members)
            + [Merge(className, Upsert(name + "List", jsonName, "List<" + arrayType + ">", description, None))]
        else
          match Classifier.GetPartTypeName(Json.TypeOf(items[0]))
          case Err(e) => [Throw(e)]
          case Ok(t) => [Merge(className, Upsert(name + "List", jsonName, "List<" + t + ">", description, None))]
      else
        match Classifier.GetPartTypeName(Json.TypeOf(m.value))
        case Err(e) => [Throw(e)]
        case Ok(t) =>
          match FindConnection(table, eventName, name)
          case None => [Merge(className, Upsert(name, jsonName, t, description, None))]
          case Some(i) =>
            [Use(i), Merge(className, Upsert(name + "Raw", jsonName, t, description,
                                             Some(EnumAccessor(name, table[i].enumName, description))))]
  }

  /** The message of the `ApplicationException` for a line without a usable "event". */
  function UnknownEntryMessage(path: string, lineNumber: nat): string {
    "Unknown journal entry in file " + path + " on line " + NatToString(lineNumber)
  }

  /** The message of the `InvalidCastException` `Value<string>()` throws on a container token. */
  function InvalidCastMessage(t: Json.Token): string {
    var kind := if t.JArray? then "JArray" else "JObject";
    "Cannot cast Newtonsoft.Json.Linq." + kind + " to Newtonsoft.Json.Linq.JToken."
  }

  /** `journalEntry["event"]?.Value<string>()`: `None` for a missing key or a JSON null. */
  function EventText(entry: seq<Json.Member>): Result<Option<string>> {
    match Json.Lookup(entry, "event")
    case None => Ok(None)
    case Some(t) => if t.JValue? then Ok(t.text) else Err(InvalidCastMessage(t))
  }

  /** The parameters of the first manual entry named `eventName` ignoring case, else none. */
  function ManualParameters(manual: seq<ManualEntry>, eventName: string): (r: seq<ManualParameter>)
    ensures forall k :: (0 <= k < |manual| && EqualsIgnoreCase(manual[k].name, eventName) &&
                         (forall j :: 0 <= j < k ==> !EqualsIgnoreCase(manual[j].name, eventName)))
                        ==> r == manual[k].parameters
    ensures (forall k :: 0 <= k < |manual| ==> !EqualsIgnoreCase(manual[k].name, eventName)) ==> r == []
  {
    if manual == [] then []
    else if EqualsIgnoreCase(manual[0].name, eventName) then manual[0].parameters
    else
      var r := ManualParameters(manual[1..], eventName);
      assert forall k :: 0 < k < |manual| ==> manual[k] == manual[1..][k - 1];
      r
  }

  /** The class a top-level record of event `eventName` belongs to. */
  function EntryClassName(eventName: string): string {
    eventName + "JournalEntry"
  }

  /** The plan of one iteration of the line loop of `GenerateFromJournalFile` (line numbers count from 1). */
  function LineOps(pascal: string -> string, table: seq<PropertyEnumConnection>, manual: seq<ManualEntry>,
                   path: string, lineNumber: nat, line: Json.JournalLine): seq<Op>
  {
    match line
    case Malformed(message) => [Throw(message)]
    case Parsed(entry) =>
      match EventText(entry)
      case Err(e) => [Throw(e)]
      case Ok(text) =>
        if IsNullOrWhiteSpace(text) then [Throw(UnknownEntryMessage(path, lineNumber))]
        else
          var eventName := pascal(text.value);
          var className := EntryClassName(eventName);
          [Create(className, Some("JournalEntry"), Some(eventName), true)]
            + MembersOps(pascal, table, className, eventName, ManualParameters(manual, eventName), entry)
  }

  /** The plan of the first `|lines|` lines of a file. */
  function LinesOps(pascal: string -> string, table: seq<PropertyEnumConnection>, manual: seq<ManualEntry>,
                    path: string, lines: seq<Json.JournalLine>): seq<Op>
    decreases |lines|
  {
    if lines == [] then []
    else
      LinesOps(pascal, table, manual, path, lines[..|lines| - 1])
        + LineOps(pascal, table, manual, path, |lines|, lines[|lines| - 1])
  }

  /** The plan of a whole journal file. */
  function FileOps(pascal: string -> string, table: seq<PropertyEnumConnection>, manual: seq<ManualEntry>,
                   file: Json.JournalFile): seq<Op>
  {
    LinesOps(pascal, table, manual, file.path, file.lines)
  }
}
