# Journal schema inference and merge, modelled in Dafny

`JournalEntryManager` is the core of the EdNetApi code generator. It reads Elite Dangerous
journal files: one JSON object on each line, each with an `"event"` field. From every record it
infers, or updates, a C# class `<Event>JournalEntry`.

- **Properties.** Each key of a record becomes a property, named in PascalCase and typed from
  the JSON token type.
- **Arrays.** An array of objects gets its own part class, `<Event><key without trailing s>`,
  inferred from the first element only. An array of leaves becomes `List<t>`.
- **Enum annotations.** There is a static table of (event, property) → enum annotations. An
  annotated leaf is stored as `<Name>Raw`, and an enum-typed accessor `<Name>` is added next to
  it. The annotation is then marked used.
- **Descriptions.** A property's description comes from the journal manual's parameters, matched
  ignoring case.
- **Errors.** An exception anywhere in a file is caught once per file and logged. The rest of
  that file is abandoned.
- **The gate.** The run stops before writing anything if there is any error, including an
  annotation that was never used.
- **Snapshot and output.** Otherwise the registry is saved as a snapshot, which is read back on
  the next run unless the run is a reset. Every class then goes through the `_Localised` pass
  before it is written: `X` becomes `XId` and `X_Localised` becomes `X`.

This model keeps the registry, the annotation table and the error list as the fields of a class
`Manager.JournalEntryManager`. Its methods update them step by step, following the C# methods.
Each method is proved equal to a functional specification:

- **Plans.** One record produces a *plan*: a sequence of primitive edits.
  - `Create` is the get-or-create of a class.
  - `Use` marks an annotation used.
  - `Merge` looks a property up, then retypes it or appends it.
  - `Throw` is an exception.
- **Running a plan.** `Run` executes a plan up to its first `Throw` and keeps the earlier edits,
  as a C# exception does.
- **The whole run.** `Generation.Regenerate` is the whole run as a function of the journal files,
  the stored snapshot and the reset flag.

The main properties proved:

- Running any well-formed plan twice gives the same result as running it once. A plan is
  well-formed when every class it merges into is created earlier in it or already exists, and
  every journal line yields such a plan (`RecordPlans.LinesOpsWellFormed`). This lifts to a
  line, to whole files, and to a second run started from the first run's snapshot.
- Properties are never removed, and a retype keeps the name, description and accessors.
- The effect of each kind of key and each kind of line, error messages included.
- The snapshot round trip in both directions, the error gate, and the exact effect of the
  localisation pass on classes without ambiguous names.

`ToPascalCase` is a function-valued parameter that the model does not interpret.

The code and its design description differ in three places. The model follows the code each time:

- **Type conflicts.** The design says a record whose value type conflicts with an existing
  property is ignored. The code overwrites the property's type and JSON name, so the last write
  wins (`JournalEntryManager.cs:583-584`, `MergePlan.Retype`).
- **Scope of an error.** The design calls per-record errors "recorded and skipped". In the code one
  try/catch wraps the whole line loop, so the first bad line abandons the rest of its file
  (`Generation.FileAbandonsRest`).
- **Orphan errors.** The design suppresses output whenever there are errors. The localisation pass
  runs only after the gate and after the snapshot is written. Its orphan errors go into the error
  list, but nothing reads that list afterwards. A class whose base name matches more than one
  property makes `SingleOrDefault` throw; that exception is uncaught and ends the run partway
  through output (`crashed` in the model).

## Model

| member | source | states |
|---|---|---|
| Classifier.GetPartTypeName | EdNetApi.Generator/Journal/JournalEntryManager.cs:280-311 | succeeds exactly on Integer, Float, String, Boolean and Date; every other token type fails with the out-of-range message naming the type |
| Classifier.WireTypeOf | EdNetApi.Generator/Journal/JournalEntryManager.cs:284-293 | the read-back of a C# type name only ever yields a supported token type |
| Classifier.ClassifyRoundTrip | EdNetApi.Generator/Journal/JournalEntryManager.cs:284-293 | reading back the type name of a supported token type gives that token type |
| Classifier.ReadBackRoundTrip | EdNetApi.Generator/Journal/JournalEntryManager.cs:284-293 | classifying a read-back type name gives that name again |
| Classifier.ClassifierInjective | EdNetApi.Generator/Journal/JournalEntryManager.cs:284-293 | two supported token types with the same C# type name are the same token type |
| Classifier.UnsupportedNamesTag | EdNetApi.Generator/Journal/JournalEntryManager.cs:309 | the error message for an unsupported type ends with "<type> is not supported" |
| Json.Lookup | EdNetApi.Generator/Journal/JournalEntryManager.cs:156 | finds the value for a key exactly when some member has that key, and it is the first such member's value |
| JournalModel.FindProperty | EdNetApi.Generator/Journal/JournalEntryManager.cs:575 | gives the index of the first property with the name, and none exactly when no property has it |
| Text.IndexOf | EdNetApi.Generator/Journal/JournalEntryManager.cs:491 | the first position of a character, and none exactly when it does not occur |
| Text.TrimEndChar | EdNetApi.Generator/Journal/JournalEntryManager.cs:535 | a prefix of the input that no longer ends in the character, with only that character removed |
| Text.ReplaceChar | EdNetApi.Generator/Journal/JournalEntryManager.cs:590 | the replaced character is gone unless the replacement contains it, every other character comes from the input or the replacement, and a string without the character is returned unchanged |
| Text.ReplaceCharConcat | EdNetApi.Generator/Journal/JournalEntryManager.cs:590 | replacing in a concatenation is replacing in each part and concatenating the results |
| Text.ReplaceCharSingle | EdNetApi.Generator/Journal/JournalEntryManager.cs:590 | the character on its own becomes exactly the replacement |
| Text.Trim | EdNetApi.Generator/Journal/JournalEntryManager.cs:591 | the result neither starts nor ends with white space and contains no character the input lacks |
| Text.TrimSlice | EdNetApi.Generator/Journal/JournalEntryManager.cs:591 | the result is a contiguous slice of the input with only white space before and after it |
| Text.TrimKeeps | EdNetApi.Generator/Journal/JournalEntryManager.cs:591 | a string that neither starts nor ends with white space is returned unchanged |
| Text.TrimIdempotent | EdNetApi.Generator/Journal/JournalEntryManager.cs:591 | trimming twice is trimming once |
| Text.NatToString | EdNetApi.Generator/Journal/JournalEntryManager.cs:160 | a non-empty string of decimal digits, without a leading zero, whose decimal value is the number |
| EnumConnections.CreateConnection | EdNetApi.Generator/Journal/JournalEntryManager.cs:98-106 | an annotation with exactly the given event, property and enum names, not yet used |
| EnumConnections.PropertyEnumConnections | EdNetApi.Generator/Journal/JournalEntryManager.cs:313-386 | the annotation table has 40 entries and none of them is used yet |
| EnumConnections.FindConnection | EdNetApi.Generator/Journal/JournalEntryManager.cs:557-558 | the first annotation for the event and property name, and none exactly when no annotation matches |
| EnumConnections.FindConnectionIgnoresFlags | EdNetApi.Generator/Journal/JournalEntryManager.cs:557-558 | which annotation matches does not depend on the used flags |
| EnumConnections.MarkUsed | EdNetApi.Generator/Journal/JournalEntryManager.cs:571 | sets the used flag of exactly one annotation and changes nothing else |
| EnumConnections.UnusedErrors | EdNetApi.Generator/Journal/JournalEntryManager.cs:65-72 | the report is empty exactly when every annotation is used; every unused annotation's message is in it, and every line in it is the message of an unused annotation |
| EnumConnections.UnusedErrorsConcat | EdNetApi.Generator/Journal/JournalEntryManager.cs:67 | the report follows table order: the report of a split table is the first part's report, then the second's |
| EnumConnections.UnusedErrorsSingle | EdNetApi.Generator/Journal/JournalEntryManager.cs:67-71 | one annotation gives its `PropertyEnumConnection unused: <event>.<property>` line when unused and nothing when used |
| MergePlan.Retype | EdNetApi.Generator/Journal/JournalEntryManager.cs:575-586 | an existing property seen again ends with the new type and keeps its name, description and accessors |
| MergePlan.MergeProperty | EdNetApi.Generator/Journal/JournalEntryManager.cs:575-607 | existing properties keep their place, names, descriptions and accessors, and afterwards the name is present with the new type |
| MergePlan.FindParameter | EdNetApi.Generator/Journal/JournalEntryManager.cs:588-589 | the first manual parameter whose name matches ignoring case, and none exactly when none matches |
| MergePlan.CleanDescription | EdNetApi.Generator/Journal/JournalEntryManager.cs:590-591 | a cleaned description has no carriage return or line feed and no white space at either end |
| MergePlan.CleanKeeps | EdNetApi.Generator/Journal/JournalEntryManager.cs:590-591 | a description with no double quote, no line break and no white space at either end is kept as it is |
| MergePlan.CleanJoinsLines | EdNetApi.Generator/Journal/JournalEntryManager.cs:591 | a line feed between two clean parts becomes " - " |
| MergePlan.CleanDropsReturn | EdNetApi.Generator/Journal/JournalEntryManager.cs:590 | a carriage return between two clean parts is dropped |
| MergePlan.CleanEscapesQuote | EdNetApi.Generator/Journal/JournalEntryManager.cs:590 | a double quote between two clean parts is escaped with a backslash |
| MergePlan.ManualParameters | EdNetApi.Generator/Journal/JournalEntryManager.cs:173-176 | the parameters of the first manual entry named like the event ignoring case, and empty when no entry matches |
| PropertyMerge.MergeAll | EdNetApi.Generator/Journal/JournalEntryManager.cs:575-607 | merging any sequence of keys into a property list only appends to it or retypes in place |
| PropertyMerge.MergeAllCovers | EdNetApi.Generator/Journal/JournalEntryManager.cs:575-601 | after merging, every merged name is present |
| PropertyMerge.CoveredMerge | EdNetApi.Generator/Journal/JournalEntryManager.cs:575-586 | when every name is already present, merging only retypes each property by the keys aimed at it |
| PropertyMerge.RetypeAllSettles | EdNetApi.Generator/Journal/JournalEntryManager.cs:578-585 | after a run of retypes, a property agrees with the last key aimed at it |
| PropertyMerge.SettledFixpoint | EdNetApi.Generator/Journal/JournalEntryManager.cs:578-580 | a property that agrees with the last key aimed at it is left unchanged by those keys |
| PropertyMerge.FirstMergeSettles | EdNetApi.Generator/Journal/JournalEntryManager.cs:575-607 | after one merge of a key sequence, every property agrees with the last key aimed at it |
| PropertyMerge.MergeAllIdempotent | EdNetApi.Generator/Journal/JournalEntryManager.cs:575-607 | merging the same keys a second time changes nothing |
| PlanTheory.CreateSpec | EdNetApi.Generator/Journal/JournalEntryManager.cs:256-278 | get-or-create adds the class, with the given header and no properties, only when the name is new, appends it to the order, leaves every other class alone and is idempotent |
| PlanTheory.ApplyAllKeys | EdNetApi.Generator/Journal/JournalEntryManager.cs:263-275 | the classes after a plan are those before it plus the created ones |
| PlanTheory.ApplyAllHeaders | EdNetApi.Generator/Journal/JournalEntryManager.cs:263-275 | a class that already exists keeps its name, base type, event and timestamp flag |
| PlanTheory.ApplyAllOrder | EdNetApi.Generator/Journal/JournalEntryManager.cs:274 | a plan that creates no new class leaves the class order alone |
| PlanTheory.ApplyAllConnections | EdNetApi.Generator/Journal/JournalEntryManager.cs:571 | an annotation is used afterwards exactly when it was used before or the plan uses it |
| PlanTheory.ApplyAllProperties | EdNetApi.Generator/Journal/JournalEntryManager.cs:575-607 | each class's properties are the merge of all keys the plan aims at that class, in plan order |
| PlanTheory.ApplyAllIdempotent | EdNetApi.Generator/Journal/JournalEntryManager.cs:512-608 | executing a well-formed plan a second time changes nothing |
| PlanTheory.ApplyAllReplay | EdNetApi.Generator/Journal/JournalEntryManager.cs:512-608 | executing the same plan again, from the result with the original used flags, gives the same state |
| PlanTheory.RunAsApply | EdNetApi.Generator/Journal/JournalEntryManager.cs:146-191 | a run keeps exactly the edits before the first exception and reports that exception |
| PlanTheory.RunIdempotent | EdNetApi.Generator/Journal/JournalEntryManager.cs:146-191 | rerunning a plan on its own result, exception included, gives the same outcome |
| PlanTheory.RunReplay | EdNetApi.Generator/Journal/JournalEntryManager.cs:146-191 | rerunning from the result with the original used flags gives the same outcome |
| PlanTheory.RunStopsAtFailure | EdNetApi.Generator/Journal/JournalEntryManager.cs:188-191 | once a prefix of the plan throws, the rest of the plan has no effect |
| PlanTheory.RunConcat | EdNetApi.Generator/Journal/JournalEntryManager.cs:152-185 | running two plans in a row is running the second from the first's state, unless the first threw |
| PlanTheory.RunGrows | EdNetApi.Generator/Journal/JournalEntryManager.cs:263-275 | a run never removes a class and never changes which annotations exist |
| RecordPlans.LinesOpsWellFormed | EdNetApi.Generator/Journal/JournalEntryManager.cs:166-184 | every class a file's plan merges into is created earlier in that plan or already exists |
| RecordPlans.MemberOpsIgnoreFlags | EdNetApi.Generator/Journal/JournalEntryManager.cs:557-558 | the plan of a key does not depend on which annotations are already used |
| RecordPlans.LinesOpsIgnoreFlags | EdNetApi.Generator/Journal/JournalEntryManager.cs:152-185 | the plan of a file does not depend on which annotations are already used |
| RecordPlans.MembersOpsSkipReserved | EdNetApi.Generator/Journal/JournalEntryManager.cs:517-520 | no key named "event" or "timestamp" ever becomes a property, at any depth |
| RecordPlans.LineIdempotent | EdNetApi.Generator/Journal/JournalEntryManager.cs:152-185 | processing the same line a second time changes nothing |
| RecordPlans.MembersOpsPrefix | EdNetApi.Generator/Journal/JournalEntryManager.cs:512 | the plan of the first keys of a record is a prefix of the plan of the whole record |
| RecordPlans.MembersRunStep | EdNetApi.Generator/Journal/JournalEntryManager.cs:512-608 | one more key extends the outcome of the loop, and a key that throws ends the whole record's outcome |
| RecordEffects.ApplyAllAppendOnly | EdNetApi.Generator/Journal/JournalEntryManager.cs:575-607 | executing any edits keeps every class and every property in place, with its name, description and accessors |
| RecordEffects.RunAppendOnly | EdNetApi.Generator/Journal/JournalEntryManager.cs:146-191 | the same holds for a run that throws partway |
| RecordEffects.MergeExisting | EdNetApi.Generator/Journal/JournalEntryManager.cs:575-586 | a name already present changes only that property: same type leaves the list unchanged, a new type overwrites its type and JSON name |
| RecordEffects.MergeNew | EdNetApi.Generator/Journal/JournalEntryManager.cs:593-607 | a new name is appended with its JSON name, description and default accessors, and the enum accessor, if any, goes directly after it |
| RecordEffects.SkippedMember | EdNetApi.Generator/Journal/JournalEntryManager.cs:517-531 | "event", "timestamp" and an empty array leave the registry and the flags unchanged |
| RecordEffects.FirstElementOnly | EdNetApi.Generator/Journal/JournalEntryManager.cs:202-214 | only the first element of an array affects the merge |
| RecordEffects.ScalarArrayMember | EdNetApi.Generator/Journal/JournalEntryManager.cs:545-551 | an array of leaves gives `<Name>List` of type `List<t>`, or throws the classifier's error and changes nothing |
| RecordEffects.ObjectArrayMember | EdNetApi.Generator/Journal/JournalEntryManager.cs:533-551 | an array of objects creates the part class `<event><key without trailing s>` even if its merge throws, and otherwise gives `<Name>List` of type `List<part class>` |
| RecordEffects.AnnotatedMember | EdNetApi.Generator/Journal/JournalEntryManager.cs:557-607 | an annotated leaf marks its annotation used and gives `<Name>Raw` its type; only a new raw property is followed by the enum accessor `<Name>` of the enum type |
| RecordEffects.PlainMember | EdNetApi.Generator/Journal/JournalEntryManager.cs:555 | an unannotated leaf gives `<Name>` its type without touching the flags, or throws the classifier's error and changes nothing |
| RecordEffects.RejectedLine | EdNetApi.Generator/Journal/JournalEntryManager.cs:155-161 | an unparsable line, an "event" that is not text, and a missing or blank event each throw their message and change nothing |
| RecordEffects.EventLine | EdNetApi.Generator/Journal/JournalEntryManager.cs:163-171 | a line with an event leaves `<Event>JournalEntry` in the registry even if it later throws, with the JournalEntry base type, the event and a timestamp when new, and its old header otherwise |
| Localisation.LocalisedNameHasUnderscore | EdNetApi.Generator/Journal/JournalEntryManager.cs:485-491 | every name ending in `_Localised`, ignoring case, contains an underscore |
| Localisation.BaseName | EdNetApi.Generator/Journal/JournalEntryManager.cs:489-491 | the base name is the part before the first underscore |
| Localisation.NoUnderscoreNotLocalised | EdNetApi.Generator/Journal/JournalEntryManager.cs:485-486 | a name without an underscore is never treated as localised |
| Localisation.IdNameNotLocalised | EdNetApi.Generator/Journal/JournalEntryManager.cs:499 | a name renamed with an `Id` suffix is never localised, so the pass cannot revisit it |
| Localisation.CountNamed | EdNetApi.Generator/Journal/JournalEntryManager.cs:492 | the number of properties with a name is zero exactly when none has it |
| Localisation.LocaliseFrom | EdNetApi.Generator/Journal/JournalEntryManager.cs:483-502 | the pass keeps the number of properties and never drops an error already reported |
| Localisation.LocaliseFromShape | EdNetApi.Generator/Journal/JournalEntryManager.cs:499-500 | the pass changes only property names, never types, JSON names, descriptions, accessors or order |
| Localisation.LocaliseSkips | EdNetApi.Generator/Journal/JournalEntryManager.cs:485-487 | properties that are not localised are passed over |
| Localisation.LocaliseNothing | EdNetApi.Generator/Journal/JournalEntryManager.cs:485-487 | a class without localised properties is unchanged and reports nothing |
| Localisation.LocalisePair | EdNetApi.Generator/Journal/JournalEntryManager.cs:489-500 | when `X_Localised` is the class's only localised property and `X` occurs once, they become `X` and `XId`, and nothing else changes |
| Localisation.LocaliseOrphan | EdNetApi.Generator/Journal/JournalEntryManager.cs:493-497 | when the class's only localised property has no base property, the class and property are reported and nothing changes |
| Localisation.LocaliseAmbiguous | EdNetApi.Generator/Journal/JournalEntryManager.cs:492 | two properties with the base name make the pass throw |
| Localisation.LocaliseKeepsFound | EdNetApi.Generator/Journal/JournalEntryManager.cs:495 | errors are only ever appended |
| LocalisationPairs.LocaliseUnambiguous | EdNetApi.Generator/Journal/JournalEntryManager.cs:483-502 | with any number of localised properties, when no base name occurs twice, no two pairs share a base and no base is another pair's base + "Id": the pass does not throw, every pair `X_Localised`/`X` becomes `X`/`XId`, every other property is unchanged, and each orphan is reported once, in list order |
| Localisation.LocaliseAll | EdNetApi.Generator/Journal/JournalEntryManager.cs:91-95 | output covers every class unless the pass throws, and never more classes than exist |
| Localisation.LocaliseAllShape | EdNetApi.Generator/Journal/JournalEntryManager.cs:91-95 | each emitted class is the snapshot's class at the same position with only property names changed |
| Generation.Snapshot | EdNetApi.Generator/Journal/JournalEntryManager.cs:84-86 | the snapshot has no more entries than the class order has names |
| Generation.LoadCharacterised | EdNetApi.Generator/Journal/JournalEntryManager.cs:46-48 | reading a list back succeeds exactly when its names are distinct, and then gives a consistent registry in list order whose snapshot is the list |
| Generation.SnapshotOfLoad | EdNetApi.Generator/Journal/JournalEntryManager.cs:46-48 | saving a registry read from a list gives that list back |
| Generation.LoadOfSnapshot | EdNetApi.Generator/Journal/JournalEntryManager.cs:44-48 | reading a saved snapshot back gives the saved registry and order |
| Generation.IngestFiles | EdNetApi.Generator/Journal/JournalEntryManager.cs:58-63 | at most one error per file |
| Generation.IngestAsApply | EdNetApi.Generator/Journal/JournalEntryManager.cs:58-63 | ingestion executes exactly each file's edits up to its first exception |
| Generation.IngestIdempotent | EdNetApi.Generator/Journal/JournalEntryManager.cs:58-63 | ingesting the same files a second time gives the same registry, flags and errors |
| Generation.IngestReplay | EdNetApi.Generator/Journal/JournalEntryManager.cs:56-63 | ingesting them again from the result with a fresh annotation table gives the same outcome |
| Generation.FileAbandonsRest | EdNetApi.Generator/Journal/JournalEntryManager.cs:146-191 | once a line throws, the rest of the file is not read and that exception is the file's only error |
| Generation.IngestKeepsRegistryValid | EdNetApi.Generator/Journal/JournalEntryManager.cs:263-275 | each class stays filed under its own name, once, in the order |
| Generation.StartRegistryValid | EdNetApi.Generator/Journal/JournalEntryManager.cs:33-54 | the starting registry, when it loads, is consistent |
| Generation.RunGate | EdNetApi.Generator/Journal/JournalEntryManager.cs:65-95 | a snapshot is written exactly when no file failed and every annotation was used; otherwise nothing is emitted and the errors are reported; the failed run's errors are the files' errors followed by one line per unused annotation; a written snapshot is the registry in insertion order and the emitted classes are its localised classes |
| Generation.RerunFromSnapshot | EdNetApi.Generator/Journal/JournalEntryManager.cs:44-86 | a second run over the same files from the first run's snapshot ends exactly as the first |
| Manager.JournalEntryManager.constructor | EdNetApi.Generator/Journal/JournalEntryManager.cs:32-59 | a manager starts with no classes, no annotations and no errors |
| Manager.JournalEntryManager.GetOrCreateJournalClass | EdNetApi.Generator/Journal/JournalEntryManager.cs:256-278 | performs get-or-create on the registry and returns the class filed under the name |
| Manager.JournalEntryManager.UpsertProperty | EdNetApi.Generator/Journal/JournalEntryManager.cs:575-607 | performs the property merge on the named class in place |
| Manager.JournalEntryManager.UpdateProperty | EdNetApi.Generator/Journal/JournalEntryManager.cs:514-607 | one loop iteration leaves the state and exception that running the key's plan gives |
| Manager.JournalEntryManager.UpdateArrayProperty | EdNetApi.Generator/Journal/JournalEntryManager.cs:525-552 | the array branch agrees with the key's plan |
| Manager.JournalEntryManager.UpdateValueProperty | EdNetApi.Generator/Journal/JournalEntryManager.cs:553-607 | the leaf branch agrees with the key's plan |
| Manager.JournalEntryManager.UpdateProperties | EdNetApi.Generator/Journal/JournalEntryManager.cs:504-609 | the loop over a record's keys agrees with running the record's plan, stopping at the first exception |
| Manager.JournalEntryManager.GeneratePartTypeClass | EdNetApi.Generator/Journal/JournalEntryManager.cs:194-215 | an empty array does nothing; otherwise get-or-create the part class and merge the first element |
| Manager.JournalEntryManager.GenerateLine | EdNetApi.Generator/Journal/JournalEntryManager.cs:154-184 | one line agrees with running that line's plan |
| Manager.JournalEntryManager.GenerateFromJournalFile | EdNetApi.Generator/Journal/JournalEntryManager.cs:139-192 | a file leaves the state of the file's run and appends its one error, if any |
| Manager.JournalEntryManager.ReportUnusedConnections | EdNetApi.Generator/Journal/JournalEntryManager.cs:65-72 | appends one line per unused annotation and changes nothing else |
| Manager.JournalEntryManager.UpdateLocalisedString | EdNetApi.Generator/Journal/JournalEntryManager.cs:483-502 | renames the class's properties and appends its errors as the localisation pass says |
| Manager.JournalEntryManager.LocaliseProperties | EdNetApi.Generator/Journal/JournalEntryManager.cs:485-501 | the loop over the properties computes the localisation pass |
| Manager.JournalEntryManager.GenerateFromJournalFiles | EdNetApi.Generator/Journal/JournalEntryManager.cs:58-63 | the file loop leaves the state and errors of ingesting the files in order |
| Manager.JournalEntryManager.LocaliseAndOutput | EdNetApi.Generator/Journal/JournalEntryManager.cs:90-95 | the output loop emits the localised classes in snapshot order, stopping at an uncaught exception |
| Manager.JournalEntryManager.RegenerateJournalEntryClasses | EdNetApi.Generator/Journal/JournalEntryManager.cs:25-96 | the whole run's errors, snapshot, emitted classes and crash flag are those of the functional run |

## Left out

- File and directory I/O is not modelled: `Directory.GetFiles`, `File.Delete`, `StreamReader`,
  `File.Exists`, `File.ReadAllText` and `File.WriteAllText`. Journal files are given as a
  sequence of paths with their parsed lines. The stored snapshot is an optional list of classes,
  and a written snapshot is returned as a value. Deleting the class folder on reset has no
  counterpart beyond starting empty.
- JSON parsing and serialisation (`JObject.Parse`, `JsonConvert`) are not modelled. A line is
  either a parsed object or `Malformed` with the parser's message. A stored snapshot that fails
  to deserialise is not modelled.
- Code emission is not modelled: `OutputClass`, `GenerateAndOutputJournalEventType`,
  `GetHeader`, `GetEnumClassNames`, `GetClassFolderPath` and `FilePath`. The model returns the
  classes that would be written, in writing order.
- `Debugger.IsAttached` and `Debugger.Break` have no effect on the result.
- `ToPascalCase` is a parameter that the model does not interpret.
- `JournalManualManager.cs` and `Program.cs` are not part of this model. The manual is given as
  a list of entries.
- Case-insensitive comparison (`OrdinalIgnoreCase`, used for `EndsWith` and for manual lookup)
  folds ASCII letters only.
- `GetBaseException().Message` is modelled as the message of the exception thrown. Only these
  messages are given exactly:
  - the unknown-entry message;
  - the out-of-range message, in its .NET Framework form: the text is taken as a parameter name,
    so the message ends in "Parameter name: <type> is not supported";
  - the invalid-cast message for a non-text "event";
  - the orphan message;
  - the unused-annotation message.

  A parser's message is whatever the line carries.
- `null` strings appear only where the source tests for them: the event value, the description
  and the base type.
- Dictionary enumeration order is taken to be insertion order. This holds for a .NET
  `Dictionary` that never has entries removed.
- Localisation.LocaliseFrom: the exact outcome is stated only under `LocalisationPairs.Unambiguous`
  (`LocalisationPairs.LocaliseUnambiguous`). C# renames in place while the lazy `Where` re-reads
  the names, so when two pairs share a base name, or a base equals another pair's base + "Id",
  the outcome depends on the order of the properties. For those classes the model proves only
  that names alone change (`LocaliseFromShape`), that errors are appended (`LocaliseKeepsFound`)
  and that a duplicated base throws (`LocaliseAmbiguous`).
- Localisation.LocaliseOrphan: stated for a class with one localised property. Orphans among
  several localised properties are covered by `LocalisationPairs.LocaliseUnambiguous`.
- JSON objects with duplicate keys are not excluded by the model. `JObject.Parse` either rejects
  them or keeps one value, depending on the Json.NET version, which is not part of this model.
  For such an object `Json.Lookup` takes the first member with the key.
- Localisation.LocaliseAmbiguous: states only that the pass throws. The state left behind by the
  unfinished iteration is not stated.
- Classifier.UnsupportedNamesTag: states only how the message ends, not the .NET prefix.
- Concurrency does not arise: the generator is single-threaded.
