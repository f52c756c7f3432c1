/**
 * The engine as the program runs it: one object holding the registry, the annotation table
 * and the error list, whose methods change them step by step as `JournalEntryManager` does.
 * Each method is proved to do exactly what the functional model says (`Run` of the
 * corresponding plan, `LocaliseFrom`, `Regenerate`), so every property proved there holds here.
 */
module Manager {
  import opened Wrappers
  import opened Text
  import opened JournalModel
  import opened EnumConnections
  import opened MergePlan
  import opened PlanTheory
  import opened RecordPlans
  import opened Localisation
  import opened Generation
  import Json
  import Classifier

  class JournalEntryManager {
    /** `ToPascalCase`, which this model treats as an unknown function. */
    const toPascalCase: string -> string
    /** `generatedClasses`, with its insertion order kept beside it. */
    var generatedClasses: map<string, JournalClass>
    var classOrder: seq<string>
    var propertyEnumConnections: seq<PropertyEnumConnection>
    var errors: seq<string>

    function State(): MergePlan.State
      reads this
    {
      MergePlan.State(generatedClasses, classOrder, propertyEnumConnections)
    }

    constructor(toPascalCase: string -> string)
      ensures this.toPascalCase == toPascalCase
      ensures generatedClasses == map[] && classOrder == [] && propertyEnumConnections == [] && errors == []
    {
      this.toPascalCase := toPascalCase;
      generatedClasses := map[];
      classOrder := [];
      propertyEnumConnections := [];
      errors := [];
    }

    /** `GetOrCreateJournalClass`: add the class if its name is new, and return the stored one. */
    method GetOrCreateJournalClass(className: string, baseType: Option<string>, event: Option<string>, timestamp: bool)
      returns (journalClass: JournalClass)
      modifies this
      ensures State() == Exec(old(State()), Create(className, baseType, event, timestamp))
      ensures className in generatedClasses && journalClass == generatedClasses[className]
      ensures errors == old(errors)
    {
      if className !in generatedClasses {
        generatedClasses := generatedClasses[className := JournalClass(className, baseType, event, timestamp, [])];
        classOrder := classOrder + [className];
      }
      journalClass := generatedClasses[className];
    }

    /** The end of an iteration of `UpdateProperties`: retype the property called `u.name`, or append it. */
    method UpsertProperty(className: string, u: Upsert)
      requires className in generatedClasses
      modifies this
      ensures State() == Exec(old(State()), Merge(className, u))
      ensures errors == old(errors)
    {
      var journalClass := generatedClasses[className];
      var properties := journalClass.properties;
      var existing := FindProperty(properties, u.name);
      if existing.Some? {
        var j := existing.value;
        if properties[j].typeName == u.typeName {
          assert properties[j := Retype(properties[j], u)] == properties;
          assert generatedClasses[className := journalClass.(properties := properties)] == generatedClasses;
          return;
        }
        properties := properties[j := properties[j].(jsonName := Some(u.jsonName), typeName := u.typeName)];
      } else {
        properties := properties + [JournalProperty(Some(u.jsonName), u.description, u.typeName, u.name, DefaultAccessors)];
        if u.accessor.Some? {
          properties := properties + [u.accessor.value];
        }
      }
      assert properties == MergeProperty(journalClass.properties, u);
      generatedClasses := generatedClasses[className := journalClass.(properties := properties)];
    }

    /** One iteration of the loop of `UpdateProperties`, for key `member.key`. */
    method UpdateProperty(className: string, eventName: string, manualParameters: seq<ManualParameter>, member: Json.Member)
      returns (failure: Option<string>)
      requires className in generatedClasses
      modifies this
      ensures Outcome(State(), failure) ==
        Run(old(State()), MemberOps(toPascalCase, old(propertyEnumConnections), className, eventName, manualParameters, member))
      ensures errors == old(errors)
      decreases member, 2
    {
      if member.key == "event" || member.key == "timestamp" {
        return None;
      }
      if member.value.JArray? {
        failure := UpdateArrayProperty(className, eventName, manualParameters, member);
      } else {
        failure := UpdateValueProperty(className, eventName, manualParameters, member);
      }
    }

    /** The iteration of `UpdateProperties` for a key whose value is an array. */
    method UpdateArrayProperty(className: string, eventName: string, manualParameters: seq<ManualParameter>, member: Json.Member)
      returns (failure: Option<string>)
      requires className in generatedClasses
      requires member.key != "event" && member.key != "timestamp" && member.value.JArray?
      modifies this
      ensures Outcome(State(), failure) ==
        Run(old(State()), MemberOps(toPascalCase, old(propertyEnumConnections), className, eventName, manualParameters, member))
      ensures errors == old(errors)
      decreases member, 1
    {
      ghost var s0 := State();
      ghost var ops := MemberOps(toPascalCase, propertyEnumConnections, className, eventName, manualParameters, member);
      var jsonName := member.key;
      var name := toPascalCase(jsonName);
      var description := Describe(manualParameters, jsonName);
      var elements := member.value.items;
      if elements == [] {
        return None;
      }
      if elements[0].JObject? {
        var arrayType := eventName + TrimEndChar(jsonName, 's');
        ghost var nested := [Create(arrayType, None, None, false)]
          + MembersOps(toPascalCase, propertyEnumConnections, arrayType, eventName, manualParameters, elements[0].members);
        failure := GeneratePartTypeClass(arrayType, eventName, manualParameters, elements);
        RunConcat(s0, nested, [ops[|ops| - 1]]);
        assert ops == nested + [ops[|ops| - 1]];
        if failure.Some? {
          return;
        }
        RunGrows(s0, nested);
        ghost var s1 := State();
        var u := Upsert(name + "List", jsonName, "List<" + arrayType + ">", description, None);
        assert ops[|ops| - 1] == Merge(className, u);
        UpsertProperty(className, u);
        RunOne(s1, Merge(className, u));
      } else {
        var partType := Classifier.GetPartTypeName(Json.TypeOf(elements[0]));
        if partType.Err? {
          RunThrow(s0, partType.error);
          return Some(partType.error);
        }
        var u := Upsert(name + "List", jsonName, "List<" + partType.value + ">", description, None);
        assert ops == [Merge(className, u)];
        UpsertProperty(className, u);
        RunOne(s0, Merge(className, u));
        failure := None;
      }
    }

    /** The iteration of `UpdateProperties` for a key whose value is not an array. */
    method UpdateValueProperty(className: string, eventName: string, manualParameters: seq<ManualParameter>, member: Json.Member)
      returns (failure: Option<string>)
      requires className in generatedClasses
      requires member.key != "event" && member.key != "timestamp" && !member.value.JArray?
      modifies this
      ensures Outcome(State(), failure) ==
        Run(old(State()), MemberOps(toPascalCase, old(propertyEnumConnections), className, eventName, manualParameters, member))
      ensures errors == old(errors)
    {
      ghost var s0 := State();
      ghost var ops := MemberOps(toPascalCase, propertyEnumConnections, className, eventName, manualParameters, member);
      var jsonName := member.key;
      var name := toPascalCase(jsonName);
      var description := Describe(manualParameters, jsonName);
      var partType := Classifier.GetPartTypeName(Json.TypeOf(member.value));
      if partType.Err? {
        RunThrow(s0, partType.error);
        return Some(partType.error);
      }
      var typeName := partType.value;
      var connection := FindConnection(propertyEnumConnections, eventName, name);
      if connection.Some? {
        var c := propertyEnumConnections[connection.value];
        var enumAccessor := EnumAccessor(name, c.enumName, description);
        propertyEnumConnections := propertyEnumConnections[connection.value := c.(isUsed := true)];
        var u := Upsert(name + "Raw", jsonName, typeName, description, Some(enumAccessor));
        assert ops == [Use(connection.value), Merge(className, u)];
        UpsertProperty(className, u);
        RunTwo(s0, Use(connection.value), Merge(className, u));
      } else {
        var u := Upsert(name, jsonName, typeName, description, None);
        assert ops == [Merge(className, u)];
        UpsertProperty(className, u);
        RunOne(s0, Merge(className, u));
      }
      failure := None;
    }

    /** `UpdateProperties`: merge the members of one object, in order, into class `className`. */
    method UpdateProperties(className: string, eventName: string, manualParameters: seq<ManualParameter>, members: seq<Json.Member>)
      returns (failure: Option<string>)
      requires className in generatedClasses
      modifies this
      ensures Outcome(State(), failure) ==
        Run(old(State()), MembersOps(toPascalCase, old(propertyEnumConnections), className, eventName, manualParameters, members))
      ensures errors == old(errors)
      decreases members, 1
    {
      ghost var s0 := State();
      ghost var table := propertyEnumConnections;
      var i := 0;
      while i < |members|
        invariant 0 <= i <= |members|
        invariant Run(s0, MembersOps(toPascalCase, table, className, eventName, manualParameters, members[..i])) == Outcome(State(), None)
        invariant SameAnnotations(table, propertyEnumConnections)
        invariant className in generatedClasses
        invariant errors == old(errors)
      {
        ghost var step := MemberOps(toPascalCase, table, className, eventName, manualParameters, members[i]);
        MemberOpsIgnoreFlags(toPascalCase, table, propertyEnumConnections, className, eventName, manualParameters, members[i]);
        ghost var si := State();
        failure := UpdateProperty(className, eventName, manualParameters, members[i]);
        MembersRunStep(toPascalCase, table, className, eventName, manualParameters, members, i, s0, si, Outcome(State(), failure));
        RunGrows(si, step);
        if failure.Some? {
          return;
        }
        i := i + 1;
      }
      assert members[..i] == members;
      failure := None;
    }

    /** `GeneratePartTypeClass`: the element class of an array of objects, built from its first element. */
    method GeneratePartTypeClass(className: string, eventName: string, manualParameters: seq<ManualParameter>, elements: seq<Json.Token>)
      returns (failure: Option<string>)
      requires elements == [] || elements[0].JObject?
      modifies this
      ensures Outcome(State(), failure) ==
        Run(old(State()),
            if elements == [] then [] else
              [Create(className, None, None, false)]
                + MembersOps(toPascalCase, old(propertyEnumConnections), className, eventName, manualParameters, elements[0].members))
      ensures errors == old(errors)
      decreases elements
    {
      if elements == [] {
        return None;
      }
      ghost var s0 := State();
      var _ := GetOrCreateJournalClass(className, None, None, false);
      failure := UpdateProperties(className, eventName, manualParameters, elements[0].members);
      RunConcat(s0, [Create(className, None, None, false)],
                MembersOps(toPascalCase, s0.connections, className, eventName, manualParameters, elements[0].members));
    }

    /** One iteration of the line loop of `GenerateFromJournalFile`, for line number `lineNumber`. */
    method GenerateLine(manualEntries: seq<ManualEntry>, path: string, lineNumber: nat, line: Json.JournalLine)
      returns (failure: Option<string>)
      modifies this
      ensures Outcome(State(), failure) ==
        Run(old(State()), LineOps(toPascalCase, old(propertyEnumConnections), manualEntries, path, lineNumber, line))
      ensures errors == old(errors)
    {
      ghost var s0 := State();
      if line.Malformed? {
        RunThrow(s0, line.message);
        return Some(line.message);
      }
      var journalEntry := line.entry;
      var journalEntryEvent := EventText(journalEntry);
      if journalEntryEvent.Err? {
        RunThrow(s0, journalEntryEvent.error);
        return Some(journalEntryEvent.error);
      }
      if IsNullOrWhiteSpace(journalEntryEvent.value) {
        RunThrow(s0, UnknownEntryMessage(path, lineNumber));
        return Some(UnknownEntryMessage(path, lineNumber));
      }
      var eventName := toPascalCase(journalEntryEvent.value.value);
      var className := EntryClassName(eventName);
      var create := Create(className, Some("JournalEntry"), Some(eventName), true);
      var _ := GetOrCreateJournalClass(className, Some("JournalEntry"), Some(eventName), true);
      var manualParameters := ManualParameters(manualEntries, eventName);
      failure := UpdateProperties(className, eventName, manualParameters, journalEntry);
      RunOne(s0, create);
      RunConcat(s0, [create], MembersOps(toPascalCase, s0.connections, className, eventName, manualParameters, journalEntry));
    }

    /** `GenerateFromJournalFile`: read the lines in order; the first exception ends the file and is recorded. */
    method GenerateFromJournalFile(manualEntries: seq<ManualEntry>, file: Json.JournalFile)
      modifies this
      ensures var o := IngestFile(toPascalCase, manualEntries, old(State()), file);
        State() == o.state && errors == old(errors) + (if o.failure.Some? then [o.failure.value] else [])
    {
      ghost var s0 := State();
      ghost var table := propertyEnumConnections;
      var lineNumber := 0;
      var failure: Option<string> := None;
      while lineNumber < |file.lines| && failure.None?
        invariant 0 <= lineNumber <= |file.lines|
        invariant Run(s0, LinesOps(toPascalCase, table, manualEntries, file.path, file.lines[..lineNumber])) == Outcome(State(), failure)
        invariant SameAnnotations(table, propertyEnumConnections)
        invariant errors == old(errors)
      {
        ghost var before := LinesOps(toPascalCase, table, manualEntries, file.path, file.lines[..lineNumber]);
        ghost var si := State();
        lineNumber := lineNumber + 1;
        var line := file.lines[lineNumber - 1];
        LineOpsIgnoreFlags(toPascalCase, table, propertyEnumConnections, manualEntries, file.path, lineNumber, line);
        failure := GenerateLine(manualEntries, file.path, lineNumber, line);
        assert file.lines[..lineNumber][..lineNumber - 1] == file.lines[..lineNumber - 1];
        RunConcat(s0, before, LineOps(toPascalCase, table, manualEntries, file.path, lineNumber, line));
        RunGrows(si, LineOps(toPascalCase, table, manualEntries, file.path, lineNumber, line));
      }
      if failure.Some? {
        FileAbandonsRest(toPascalCase, manualEntries, s0, file, lineNumber);
        errors := errors + [failure.value];
      } else {
        assert file.lines[..lineNumber] == file.lines;
      }
    }

    /** The unused-annotation check: one error per annotation no record used, in table order. */
    method ReportUnusedConnections()
      modifies this
      ensures State() == old(State())
      ensures errors == old(errors) + UnusedErrors(propertyEnumConnections)
    {
      var i := 0;
      while i < |propertyEnumConnections|
        invariant 0 <= i <= |propertyEnumConnections|
        invariant State() == old(State())
        invariant errors == old(errors) + UnusedErrors(propertyEnumConnections[..i])
      {
        var connection := propertyEnumConnections[i];
        assert propertyEnumConnections[..i + 1][..i] == propertyEnumConnections[..i];
        if !connection.isUsed {
          errors := errors + [UnusedMessage(connection)];
        }
        i := i + 1;
      }
      assert propertyEnumConnections[..i] == propertyEnumConnections;
    }

    /**
     * `UpdateLocalisedString` on the class stored under `className`; reports whether `SingleOrDefault`
     * threw. The orphan messages are collected in `found` and appended once the loop ends, which is
     * the same list since nothing reads `errors` in between.
     */
    method UpdateLocalisedString(className: string) returns (crashed: bool)
      requires className in generatedClasses
      modifies this
      ensures var journalClass := old(generatedClasses[className]);
        var localised := LocaliseFrom(journalClass.name, journalClass.properties, 0, []);
        crashed == localised.crashed &&
        errors == old(errors) + localised.errors &&
        generatedClasses == old(generatedClasses)[className := journalClass.(properties := localised.properties)]
      ensures classOrder == old(classOrder) && propertyEnumConnections == old(propertyEnumConnections)
    {
      var journalClass := generatedClasses[className];
      var found: seq<string>;
      var properties: seq<JournalProperty>;
      properties, found, crashed := LocaliseProperties(journalClass.name, journalClass.properties);
      errors := errors + found;
      generatedClasses := generatedClasses[className := journalClass.(properties := properties)];
    }

    /** The loop of `UpdateLocalisedString` over the properties of class `name`. */
    static method LocaliseProperties(name: string, props: seq<JournalProperty>)
      returns (properties: seq<JournalProperty>, found: seq<string>, crashed: bool)
      ensures Localised(properties, found, crashed) == LocaliseFrom(name, props, 0, [])
    {
      ghost var total := LocaliseFrom(name, props, 0, []);
      found := [];
      properties := props;
      var i := 0;
      crashed := false;
      while i < |properties| && !crashed
        invariant 0 <= i <= |properties| == |props|
        invariant !crashed ==> LocaliseFrom(name, properties, i, found) == total
        invariant crashed ==> total == Localised(properties, found, true)
        decreases |properties| - i, !crashed
      {
        var propertyName := properties[i].name;
        if IsLocalisedName(propertyName) {
          var baseName := BaseName(propertyName);
          var matches := CountNamed(properties, baseName);
          if matches == 0 {
            found := found + [OrphanMessage(name, propertyName)];
            i := i + 1;
          } else if matches > 1 {
            crashed := true;
          } else {
            var j := FindProperty(properties, baseName).value;
            properties := properties[j := properties[j].(name := baseName + "Id")][i := properties[i].(name := baseName)];
            i := i + 1;
          }
        } else {
          i := i + 1;
        }
      }
    }

    /** The `foreach` over the journal files in `RegenerateJournalEntryClasses`. */
    method GenerateFromJournalFiles(manualEntries: seq<ManualEntry>, files: seq<Json.JournalFile>)
      modifies this
      ensures var ing := IngestFiles(toPascalCase, manualEntries, old(State()), files);
        State() == ing.state && errors == old(errors) + ing.errors
    {
      ghost var s0 := State();
      var i := 0;
      while i < |files|
        invariant 0 <= i <= |files|
        invariant var ing := IngestFiles(toPascalCase, manualEntries, s0, files[..i]);
          State() == ing.state && errors == old(errors) + ing.errors
      {
        IngestFilesStep(toPascalCase, manualEntries, s0, files, i);
        ghost var errorsBefore := errors;
        GenerateFromJournalFile(manualEntries, files[i]);
        ghost var o := IngestFile(toPascalCase, manualEntries, IngestFiles(toPascalCase, manualEntries, s0, files[..i]).state, files[i]);
        assert errors == errorsBefore + (if o.failure.Some? then [o.failure.value] else []);
        i := i + 1;
      }
      assert files[..i] == files;
    }

    /** The closing `foreach` of `RegenerateJournalEntryClasses`: localise and output each class in insertion order. */
    method LocaliseAndOutput() returns (emitted: seq<JournalClass>, crashed: bool)
      requires RegistryValid(generatedClasses, classOrder)
      modifies this
      ensures var out := LocaliseAll(old(Snapshot(generatedClasses, classOrder)));
        emitted == out.classes && crashed == out.crashed && errors == old(errors) + out.errors
    {
      var order := classOrder;
      var classes := Snapshot(generatedClasses, order);
      SnapshotIndex(generatedClasses, order);
      ghost var total := LocaliseAll(classes);
      var k := 0;
      emitted := [];
      crashed := false;
      ghost var found: seq<string> := [];
      while k < |order| && !crashed
        invariant 0 <= k <= |order| == |classes|
        invariant classOrder == order
        invariant forall m :: k <= m < |order| ==> order[m] in generatedClasses && generatedClasses[order[m]] == classes[m]
        invariant errors == old(errors) + found
        invariant !crashed ==> LocaliseAllFrom(classes, k, emitted, found) == total
        invariant crashed ==> total == Emitted(emitted, found, true)
        decreases |order| - k, !crashed
      {
        var className := order[k];
        ghost var before := generatedClasses;
        ghost var errorsBefore := errors;
        ghost var loc := LocaliseFrom(classes[k].name, classes[k].properties, 0, []);
        assert before[className] == classes[k];
        crashed := UpdateLocalisedString(className);
        assert errors == errorsBefore + loc.errors;
        UntouchedAfter(before, generatedClasses, classes, order, k, generatedClasses[className]);
        assert (old(errors) + found) + loc.errors == old(errors) + (found + loc.errors);
        found := found + loc.errors;
        if !crashed {
          emitted := emitted + [generatedClasses[className]];
        }
        k := k + 1;
      }
    }

    /**
     * `RegenerateJournalEntryClasses`, given the journal files and the stored snapshot (`None`
     * when there is none): ingest every file, report unused annotations, stop on any error;
     * otherwise write the snapshot, then localise and output each class in insertion order.
     */
    method RegenerateJournalEntryClasses(manualEntries: seq<ManualEntry>, files: seq<Json.JournalFile>,
                                         reset: bool, stored: Option<seq<JournalClass>>)
      returns (snapshot: Option<seq<JournalClass>>, emitted: seq<JournalClass>, crashed: bool)
      modifies this
      ensures RunResult(errors, snapshot, emitted, crashed) == Regenerate(toPascalCase, manualEntries, files, reset, stored)
    {
      errors := [];
      var start := StartRegistry(reset, stored);
      if start.None? {
        return None, [], true;
      }
      StartRegistryValid(reset, stored);
      generatedClasses := start.value.classes;
      classOrder := start.value.order;
      propertyEnumConnections := PropertyEnumConnections();
      ghost var s0 := State();
      assert s0 == StartState(start.value);
      ghost var ing := IngestFiles(toPascalCase, manualEntries, s0, files);
      RegenerateFrom(toPascalCase, manualEntries, files, reset, stored, start.value, ing);
      GenerateFromJournalFiles(manualEntries, files);
      assert generatedClasses == ing.state.classes && classOrder == ing.state.order;
      assert propertyEnumConnections == ing.state.connections && errors == ing.errors;
      IngestKeepsRegistryValid(toPascalCase, manualEntries, s0, files);
      ReportUnusedConnections();
      assert errors == ing.errors + UnusedErrors(ing.state.connections);
      if errors != [] {
        return None, [], false;
      }
      var classes := Snapshot(generatedClasses, classOrder);
      snapshot := Some(classes);
      ghost var out := LocaliseAll(classes);
      emitted, crashed := LocaliseAndOutput();
      assert emitted == out.classes && crashed == out.crashed && errors == out.errors;
    }
  }
}
