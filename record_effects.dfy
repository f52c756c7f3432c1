/**
 * What one key of a record and one journal line do to the registry, stated on the state
 * that running their plan leaves: which property a key adds or retypes, when the enum
 * accessor follows it, which keys and arrays change nothing, which lines are rejected and
 * with what message, and that property lists only ever grow.
 */
module RecordEffects {
  import opened Wrappers
  import opened Text
  import opened JournalModel
  import opened EnumConnections
  import opened MergePlan
  import opened PlanTheory
  import Json
  import Classifier

  /** Class `c` exists and its first property called `name` has type `typeName`. */
  predicate HasProperty(s: State, c: string, name: string, typeName: string) {
    c in s.classes &&
    FindProperty(s.classes[c].properties, name).Some? &&
    s.classes[c].properties[FindProperty(s.classes[c].properties, name).value].typeName == typeName
  }

  /** `after` keeps every property of `before` in place, with its name, description and accessors. */
  predicate Extends(before: seq<JournalProperty>, after: seq<JournalProperty>) {
    |before| <= |after| &&
    forall k :: 0 <= k < |before| ==>
      after[k].name == before[k].name && after[k].description == before[k].description &&
      after[k].accessors == before[k].accessors
  }

  lemma ExtendsTrans(a: seq<JournalProperty>, b: seq<JournalProperty>, c: seq<JournalProperty>)
    requires Extends(a, b) && Extends(b, c)
    ensures Extends(a, c)
  {
  }

  /** Executing any edits never removes a class, and only appends to or retypes in its property list. */
  lemma {:induction false} ApplyAllAppendOnly(s: State, ops: seq<Op>)
    ensures forall c :: c in s.classes ==>
      c in ApplyAll(s, ops).classes && Extends(s.classes[c].properties, ApplyAll(s, ops).classes[c].properties)
    decreases |ops|
  {
    if ops != [] {
      var front := ops[..|ops| - 1];
      ApplyAllAppendOnly(s, front);
      var t := ApplyAll(s, front);
      forall c | c in s.classes
        ensures c in ApplyAll(s, ops).classes && Extends(s.classes[c].properties, ApplyAll(s, ops).classes[c].properties)
      {
        assert Extends(t.classes[c].properties, ApplyAll(s, ops).classes[c].properties);
        ExtendsTrans(s.classes[c].properties, t.classes[c].properties, ApplyAll(s, ops).classes[c].properties);
      }
    }
  }

  /** Running a plan, whether or not it throws, keeps every class and every property it had. */
  lemma RunAppendOnly(s: State, ops: seq<Op>)
    ensures forall c :: c in s.classes ==>
      c in Run(s, ops).state.classes && Extends(s.classes[c].properties, Run(s, ops).state.classes[c].properties)
  {
    RunAsApply(s, ops);
    ApplyAllAppendOnly(s, ops[..ThrowAt(ops)]);
  }

  /** A name already present: only that property can change, keeping its place; same type means no change at all. */
  lemma MergeExisting(props: seq<JournalProperty>, u: Upsert, j: nat)
    requires FindProperty(props, u.name) == Some(j)
    ensures var r := MergeProperty(props, u);
      |r| == |props| &&
      (forall k :: 0 <= k < |props| && k != j ==> r[k] == props[k]) &&
      r[j].name == props[j].name && r[j].description == props[j].description && r[j].accessors == props[j].accessors &&
      r[j].typeName == u.typeName &&
      (props[j].typeName == u.typeName ==> r == props) &&
      (props[j].typeName != u.typeName ==> r[j].jsonName == Some(u.jsonName))
  {
  }

  /** A new name: the property is appended with the default accessors, and the accessor, if any, right after it. */
  lemma MergeNew(props: seq<JournalProperty>, u: Upsert)
    requires FindProperty(props, u.name).None?
    ensures var r := MergeProperty(props, u);
      |r| == |props| + 1 + (if u.accessor.Some? then 1 else 0) &&
      r[..|props|] == props &&
      r[|props|] == JournalProperty(Some(u.jsonName), u.description, u.typeName, u.name, DefaultAccessors) &&
      (u.accessor.Some? ==> r[|props| + 1] == u.accessor.value)
  {
    var r := MergeProperty(props, u);
    assert r[..|props|] == props;
  }

  /** The key "event" or "timestamp", or an empty array, leaves the registry and the flags as they were. */
  lemma SkippedMember(pascal: string -> string, table: seq<PropertyEnumConnection>, className: string,
                      eventName: string, params: seq<ManualParameter>, m: Json.Member, s: State)
    requires m.key == "event" || m.key == "timestamp" || m.value == Json.JArray([])
    ensures Run(s, MemberOps(pascal, table, className, eventName, params, m)) == Outcome(s, None)
  {
    assert MemberOps(pascal, table, className, eventName, params, m) == [];
  }

  /** Only the first element of an array is ever looked at. */
  lemma FirstElementOnly(pascal: string -> string, table: seq<PropertyEnumConnection>, className: string,
                         eventName: string, params: seq<ManualParameter>, key: string, items: seq<Json.Token>)
    requires items != []
    ensures MemberOps(pascal, table, className, eventName, params, Json.Member(key, Json.JArray(items))) ==
            MemberOps(pascal, table, className, eventName, params, Json.Member(key, Json.JArray([items[0]])))
  {
    var a := Json.Member(key, Json.JArray(items));
    var b := Json.Member(key, Json.JArray([items[0]]));
    assert a.value.items[0] == b.value.items[0];
  }

  /**
   * An array of leaves: `PascalCase(key) + "List"` gets type `List<t>` for the first element's
   * C# type `t`, or the classifier's exception leaves the state alone.
   */
  lemma ScalarArrayMember(pascal: string -> string, table: seq<PropertyEnumConnection>, className: string,
                          eventName: string, params: seq<ManualParameter>, m: Json.Member, s: State)
    requires m.key != "event" && m.key != "timestamp"
    requires m.value.JArray? && m.value.items != [] && !m.value.items[0].JObject?
    requires className in s.classes
    ensures var r := Run(s, MemberOps(pascal, table, className, eventName, params, m));
      var tag := Json.TypeOf(m.value.items[0]);
      (!Classifier.IsSupported(tag) ==> r == Outcome(s, Some(Classifier.NotSupportedMessage(tag)))) &&
      (Classifier.IsSupported(tag) ==>
         r.failure.None? &&
         HasProperty(r.state, className, pascal(m.key) + "List", "List<" + Classifier.GetPartTypeName(tag).value + ">"))
  {
    var ops := MemberOps(pascal, table, className, eventName, params, m);
    var tag := Json.TypeOf(m.value.items[0]);
    match Classifier.GetPartTypeName(tag)
    case Err(e) =>
      assert ops == [Throw(e)];
      RunThrow(s, e);
    case Ok(t) =>
      var u := Upsert(pascal(m.key) + "List", m.key, "List<" + t + ">", Describe(params, m.key), None);
      assert ops == [Merge(className, u)];
      RunOne(s, Merge(className, u));
  }

  /**
   * An array of objects: the element class `eventName + key.TrimEnd('s')` exists afterwards,
   * even if merging the first element threw; without an exception, `PascalCase(key) + "List"`
   * has type `List<element class>`.
   */
  lemma ObjectArrayMember(pascal: string -> string, table: seq<PropertyEnumConnection>, className: string,
                          eventName: string, params: seq<ManualParameter>, m: Json.Member, s: State)
    requires m.key != "event" && m.key != "timestamp"
    requires m.value.JArray? && m.value.items != [] && m.value.items[0].JObject?
    requires className in s.classes
    ensures var r := Run(s, MemberOps(pascal, table, className, eventName, params, m));
      var arrayType := eventName + TrimEndChar(m.key, 's');
      arrayType in r.state.classes &&
      (r.failure.None? ==> HasProperty(r.state, className, pascal(m.key) + "List", "List<" + arrayType + ">"))
  {
    var ops := MemberOps(pascal, table, className, eventName, params, m);
    var arrayType := eventName + TrimEndChar(m.key, 's');
    var create := Create(arrayType, None, None, false);
    var nested := MembersOps(pascal, table, arrayType, eventName, params, m.value.items[0].members);
    var u := Upsert(pascal(m.key) + "List", m.key, "List<" + arrayType + ">", Describe(params, m.key), None);
    assert ops == [create] + nested + [Merge(className, u)];
    RunConcat(s, [create] + nested, [Merge(className, u)]);
    RunConcat(s, [create], nested);
    RunOne(s, create);
    var s1 := Exec(s, create);
    RunGrows(s1, nested);
    var o := Run(s1, nested);
    if o.failure.None? {
      RunOne(o.state, Merge(className, u));
    }
  }

  /**
   * A leaf annotated for this event: the annotation is marked used, `PascalCase(key) + "Raw"`
   * gets the leaf's type, and only when that property is new is the enum accessor appended,
   * directly after it.
   */
  lemma AnnotatedMember(pascal: string -> string, table: seq<PropertyEnumConnection>, className: string,
                        eventName: string, params: seq<ManualParameter>, m: Json.Member, s: State, i: nat)
    requires m.key != "event" && m.key != "timestamp" && !m.value.JArray?
    requires Classifier.IsSupported(Json.TypeOf(m.value))
    requires FindConnection(table, eventName, pascal(m.key)) == Some(i) && i < |s.connections|
    requires className in s.classes
    ensures Run(s, MemberOps(pascal, table, className, eventName, params, m)).failure.None?
    ensures className in Run(s, MemberOps(pascal, table, className, eventName, params, m)).state.classes
    ensures |Run(s, MemberOps(pascal, table, className, eventName, params, m)).state.connections| == |s.connections|
    ensures var r := Run(s, MemberOps(pascal, table, className, eventName, params, m));
      var name := pascal(m.key);
      var before := s.classes[className].properties;
      var after := r.state.classes[className].properties;
      r.state.connections[i].isUsed &&
      HasProperty(r.state, className, name + "Raw", Classifier.GetPartTypeName(Json.TypeOf(m.value)).value) &&
      (FindProperty(before, name + "Raw").Some? ==> |after| == |before|) &&
      (FindProperty(before, name + "Raw").None? ==>
         |after| == |before| + 2 && after[|before|].name == name + "Raw" &&
         after[|before| + 1] == JournalProperty(None, after[|before|].description, table[i].enumName, name,
                                                "=> " + name + "Raw.GetEnumValue<" + table[i].enumName + ">();"))
  {
    var ops := MemberOps(pascal, table, className, eventName, params, m);
    var name := pascal(m.key);
    var t := Classifier.GetPartTypeName(Json.TypeOf(m.value)).value;
    var description := Describe(params, m.key);
    var u := Upsert(name + "Raw", m.key, t, description, Some(EnumAccessor(name, table[i].enumName, description)));
    assert ops == [Use(i), Merge(className, u)];
    RunTwo(s, Use(i), Merge(className, u));
    var s1 := Exec(s, Use(i));
    var before := s.classes[className].properties;
    assert s1.classes == s.classes;
    match FindProperty(before, u.name)
    case Some(j) => MergeExisting(before, u, j);
    case None => MergeNew(before, u);
  }

  /** A leaf without an annotation: `PascalCase(key)` gets the leaf's type; an unsupported leaf throws. */
  lemma PlainMember(pascal: string -> string, table: seq<PropertyEnumConnection>, className: string,
                    eventName: string, params: seq<ManualParameter>, m: Json.Member, s: State)
    requires m.key != "event" && m.key != "timestamp" && !m.value.JArray?
    requires FindConnection(table, eventName, pascal(m.key)).None?
    requires className in s.classes
    ensures var r := Run(s, MemberOps(pascal, table, className, eventName, params, m));
      var tag := Json.TypeOf(m.value);
      (!Classifier.IsSupported(tag) ==> r == Outcome(s, Some(Classifier.NotSupportedMessage(tag)))) &&
      (Classifier.IsSupported(tag) ==>
         r.failure.None? && r.state.connections == s.connections &&
         HasProperty(r.state, className, pascal(m.key), Classifier.GetPartTypeName(tag).value))
  {
    var ops := MemberOps(pascal, table, className, eventName, params, m);
    var tag := Json.TypeOf(m.value);
    match Classifier.GetPartTypeName(tag)
    case Err(e) =>
      assert ops == [Throw(e)];
      RunThrow(s, e);
    case Ok(t) =>
      var u := Upsert(pascal(m.key), m.key, t, Describe(params, m.key), None);
      assert ops == [Merge(className, u)];
      RunOne(s, Merge(className, u));
  }

  /** A line that cannot be parsed, or whose "event" is not text or is missing or blank, throws and changes nothing. */
  lemma RejectedLine(pascal: string -> string, table: seq<PropertyEnumConnection>, manual: seq<ManualEntry>,
                     path: string, lineNumber: nat, line: Json.JournalLine, s: State)
    ensures var r := Run(s, LineOps(pascal, table, manual, path, lineNumber, line));
      (line.Malformed? ==> r == Outcome(s, Some(line.message))) &&
      (line.Parsed? && EventText(line.entry).Err? ==> r == Outcome(s, Some(EventText(line.entry).error))) &&
      (line.Parsed? && EventText(line.entry).Ok? && IsNullOrWhiteSpace(EventText(line.entry).value) ==>
         r == Outcome(s, Some(UnknownEntryMessage(path, lineNumber))))
  {
    match line
    case Malformed(message) => RunThrow(s, message);
    case Parsed(entry) =>
      match EventText(entry)
      case Err(e) => RunThrow(s, e);
      case Ok(text) =>
        if IsNullOrWhiteSpace(text) {
          RunThrow(s, UnknownEntryMessage(path, lineNumber));
        }
  }

  /**
   * A line with an event: its class `PascalCase(event) + "JournalEntry"` exists afterwards, even
   * if a later key threw; a new one has base type "JournalEntry", the event name and a timestamp,
   * an existing one keeps its own.
   */
  lemma EventLine(pascal: string -> string, table: seq<PropertyEnumConnection>, manual: seq<ManualEntry>,
                  path: string, lineNumber: nat, line: Json.JournalLine, s: State)
    requires line.Parsed? && EventText(line.entry).Ok? && !IsNullOrWhiteSpace(EventText(line.entry).value)
    ensures var eventName := pascal(EventText(line.entry).value.value);
      var c := eventName + "JournalEntry";
      var r := Run(s, LineOps(pascal, table, manual, path, lineNumber, line));
      c in r.state.classes &&
      (c !in s.classes ==> Header(r.state.classes[c]) == JournalClass(c, Some("JournalEntry"), Some(eventName), true, [])) &&
      (c in s.classes ==> Header(r.state.classes[c]) == Header(s.classes[c]))
  {
    var eventName := pascal(EventText(line.entry).value.value);
    var c := EntryClassName(eventName);
    var create := Create(c, Some("JournalEntry"), Some(eventName), true);
    var rest := MembersOps(pascal, table, c, eventName, ManualParameters(manual, eventName), line.entry);
    assert LineOps(pascal, table, manual, path, lineNumber, line) == [create] + rest;
    RunConcat(s, [create], rest);
    RunOne(s, create);
    var s1 := Exec(s, create);
    RunAsApply(s1, rest);
    ApplyAllHeaders(s1, rest[..ThrowAt(rest)]);
  }
}
