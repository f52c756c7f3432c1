/**
 * `RegenerateJournalEntryClasses` as a function of its inputs: where the registry starts from
 * (empty, or the stored snapshot), the ingestion of every journal file, the unused-annotation
 * check, the error gate, the snapshot, and the localise-and-output loop. The snapshot is the
 * registry value itself; its JSON serialisation is not part of this model.
 */
module Generation {
  import opened Wrappers
  import opened JournalModel
  import opened EnumConnections
  import opened MergePlan
  import opened PlanTheory
  import opened RecordPlans
  import opened Localisation
  import Json

  /** The registry: the dictionary and the order in which its entries were inserted. */
  datatype Registry = Registry(classes: map<string, JournalClass>, order: seq<string>)

  /** Each name is inserted once, the order lists exactly the keys, and every class is filed under its own name. */
  predicate RegistryValid(classes: map<string, JournalClass>, order: seq<string>) {
    (forall i, j :: 0 <= i < j < |order| ==> order[i] != order[j]) &&
    (forall c :: c in classes ==> c in order) &&
    (forall i :: 0 <= i < |order| ==> order[i] in classes) &&
    (forall c :: c in classes ==> classes[c].name == c)
  }

  lemma ExecKeepsRegistryValid(s: State, op: Op)
    requires RegistryValid(s.classes, s.order)
    ensures RegistryValid(Exec(s, op).classes, Exec(s, op).order)
  {
  }

  lemma {:induction false} ApplyAllKeepsRegistryValid(s: State, ops: seq<Op>)
    requires RegistryValid(s.classes, s.order)
    ensures RegistryValid(ApplyAll(s, ops).classes, ApplyAll(s, ops).order)
    decreases |ops|
  {
    if ops != [] {
      ApplyAllKeepsRegistryValid(s, ops[..|ops| - 1]);
      ExecKeepsRegistryValid(ApplyAll(s, ops[..|ops| - 1]), ops[|ops| - 1]);
    }
  }

  /** `generatedClasses.Values.ToList()`: the classes in insertion order. */
  function Snapshot(classes: map<string, JournalClass>, order: seq<string>): (r: seq<JournalClass>)
    ensures |r| <= |order|
    decreases |order|
  {
    if order == [] then []
    else
      var c := order[|order| - 1];
      Snapshot(classes, order[..|order| - 1]) + (if c in classes then [classes[c]] else [])
  }

  /** The names of a list of classes, in order. */
  function Names(list: seq<JournalClass>): (r: seq<string>)
    ensures |r| == |list| && forall k :: 0 <= k < |list| ==> r[k] == list[k].name
    decreases |list|
  {
    if list == [] then [] else Names(list[..|list| - 1]) + [list[|list| - 1].name]
  }

  /**
   * `ToDictionary(j => j.Name, j => j)` over a stored list: `None` when two classes share a
   * name, where the call throws.
   */
  function Load(list: seq<JournalClass>): Option<Registry>
    decreases |list|
  {
    if list == [] then Some(Registry(map[], []))
    else
      var last := list[|list| - 1];
      match Load(list[..|list| - 1])
      case None => None
      case Some(reg) =>
        if last.name in reg.classes then None
        else Some(Registry(reg.classes[last.name := last], reg.order + [last.name]))
  }

  /** Filing a class under a new name, at the end of the order, keeps a registry valid. */
  lemma RegistryValidSnoc(classes: map<string, JournalClass>, order: seq<string>, c: JournalClass)
    requires RegistryValid(classes, order) && c.name !in classes
    ensures RegistryValid(classes[c.name := c], order + [c.name])
  {
    var order' := order + [c.name];
    assert forall i :: 0 <= i < |order| ==> order'[i] == order[i];
  }

  /** A successful load gives a valid registry ordered like the list. */
  lemma {:induction false} LoadValid(list: seq<JournalClass>)
    ensures Load(list).Some? ==>
      RegistryValid(Load(list).value.classes, Load(list).value.order) && Load(list).value.order == Names(list)
    decreases |list|
  {
    if list != [] {
      var front, last := list[..|list| - 1], list[|list| - 1];
      LoadValid(front);
      if Load(list).Some? {
        var reg := Load(front).value;
        RegistryValidSnoc(reg.classes, reg.order, last);
      }
    }
  }

  /** Loading succeeds exactly when no two classes of the list share a name. */
  lemma {:induction false} LoadSucceeds(list: seq<JournalClass>)
    ensures Load(list).Some? <==> forall i, j :: 0 <= i < j < |list| ==> list[i].name != list[j].name
    decreases |list|
  {
    if list != [] {
      var front, last := list[..|list| - 1], list[|list| - 1];
      assert forall k :: 0 <= k < |front| ==> front[k] == list[k];
      LoadSucceeds(front);
      LoadValid(front);
      if Load(front).Some? {
        var names := Load(front).value.order;
        assert last.name in Load(front).value.classes <==> last.name in names;
        assert last.name in names <==> exists k :: 0 <= k < |front| && front[k].name == last.name;
      }
    }
  }

  /** Loading succeeds exactly when the names are distinct, and gives a valid registry ordered like the list. */
  lemma LoadCharacterised(list: seq<JournalClass>)
    ensures Load(list).Some? <==> forall i, j :: 0 <= i < j < |list| ==> list[i].name != list[j].name
    ensures Load(list).Some? ==> RegistryValid(Load(list).value.classes, Load(list).value.order)
    ensures Load(list).Some? ==> Load(list).value.order == Names(list)
    ensures Load(list).Some? ==> Snapshot(Load(list).value.classes, Load(list).value.order) == list
  {
    LoadSucceeds(list);
    LoadValid(list);
    SnapshotOfLoad(list);
  }

  /** Saving a registry read from a list gives that list back. */
  lemma {:induction false} SnapshotOfLoad(list: seq<JournalClass>)
    ensures Load(list).Some? ==> Snapshot(Load(list).value.classes, Load(list).value.order) == list
    decreases |list|, 1
  {
    if list != [] && Load(list).Some? {
      SnapshotOfLoadLast(list);
    }
  }

  /** `SnapshotOfLoad` for a non-empty list that loads. */
  lemma {:induction false} SnapshotOfLoadLast(list: seq<JournalClass>)
    requires list != [] && Load(list).Some?
    ensures Snapshot(Load(list).value.classes, Load(list).value.order) == list
    decreases |list|, 0
  {
    var front, last := list[..|list| - 1], list[|list| - 1];
    var reg := Load(front).value;
    SnapshotOfLoad(front);
    LoadValid(front);
    assert last.name !in reg.classes;
    assert Load(list) == Some(Registry(reg.classes[last.name := last], reg.order + [last.name]));
    SnapshotOfLoadStep(reg, list);
  }

  /** The step of `SnapshotOfLoad`: the last class of the list is filed last. */
  lemma SnapshotOfLoadStep(reg: Registry, list: seq<JournalClass>)
    requires list != [] && Snapshot(reg.classes, reg.order) == list[..|list| - 1]
    requires RegistryValid(reg.classes, reg.order) && list[|list| - 1].name !in reg.classes
    ensures var last := list[|list| - 1];
      Snapshot(reg.classes[last.name := last], reg.order + [last.name]) == list
  {
    var last := list[|list| - 1];
    assert last.name !in reg.order;
    SnapshotSnoc(reg.classes, reg.order, last);
    assert list[..|list| - 1] + [last] == list;
  }

  /** Filing one more class under a name not yet in the order adds it at the end of the snapshot. */
  lemma SnapshotSnoc(classes: map<string, JournalClass>, order: seq<string>, c: JournalClass)
    requires c.name !in order
    ensures Snapshot(classes[c.name := c], order + [c.name]) == Snapshot(classes, order) + [c]
  {
    var order' := order + [c.name];
    assert order'[..|order'| - 1] == order;
    SnapshotIgnoresOthers(classes, classes[c.name := c], order);
  }

  /** The snapshot of `order` only reads the classes named in it. */
  lemma {:induction false} SnapshotIgnoresOthers(a: map<string, JournalClass>, b: map<string, JournalClass>, order: seq<string>)
    requires forall c :: c in order ==> (c in a <==> c in b) && (c in a ==> a[c] == b[c])
    ensures Snapshot(a, order) == Snapshot(b, order)
    decreases |order|
  {
    if order != [] {
      SnapshotIgnoresOthers(a, b, order[..|order| - 1]);
    }
  }

  /** Removing a class not named in the order leaves the snapshot alone. */
  lemma SnapshotWithout(classes: map<string, JournalClass>, order: seq<string>, c: string)
    requires c !in order
    ensures Snapshot(classes, order) == Snapshot(classes - {c}, order)
  {
    SnapshotIgnoresOthers(classes, classes - {c}, order);
  }

  /** The registry read back from its own snapshot is the registry. */
  lemma {:induction false} LoadOfSnapshot(classes: map<string, JournalClass>, order: seq<string>)
    requires RegistryValid(classes, order)
    ensures Load(Snapshot(classes, order)) == Some(Registry(classes, order))
    decreases |order|
  {
    if order == [] {
      assert classes == map[];
    } else {
      var front, c := order[..|order| - 1], order[|order| - 1];
      var rest := classes - {c};
      DropLast(classes, order);
      LoadOfSnapshot(rest, front);
      SnapshotWithout(classes, front, c);
      LoadOfSnapshotStep(classes, front, c);
      assert front + [c] == order;
    }
  }

  /** The step of `LoadOfSnapshot`: the last inserted class is read back last. */
  lemma LoadOfSnapshotStep(classes: map<string, JournalClass>, front: seq<string>, c: string)
    requires c in classes && classes[c].name == c
    requires Load(Snapshot(classes - {c}, front)) == Some(Registry(classes - {c}, front))
    requires Snapshot(classes, front) == Snapshot(classes - {c}, front)
    ensures Load(Snapshot(classes, front + [c])) == Some(Registry(classes, front + [c]))
  {
    var order := front + [c];
    assert order[..|order| - 1] == front;
    var snapFront := Snapshot(classes, front);
    assert Snapshot(classes, order) == snapFront + [classes[c]];
    LoadSnocStep(snapFront, classes[c], Registry(classes - {c}, front));
    assert (classes - {c})[c := classes[c]] == classes;
  }

  /** Dropping the last inserted class keeps a registry valid. */
  lemma DropLast(classes: map<string, JournalClass>, order: seq<string>)
    requires RegistryValid(classes, order) && order != []
    ensures var c := order[|order| - 1];
      c in classes && classes[c].name == c && c !in order[..|order| - 1] &&
      RegistryValid(classes - {c}, order[..|order| - 1])
  {
    var front, c := order[..|order| - 1], order[|order| - 1];
    assert forall i :: 0 <= i < |front| ==> front[i] == order[i];
    forall k | k in classes && k != c
      ensures k in front
    {
      var i :| 0 <= i < |order| && order[i] == k;
      assert i < |front|;
    }
  }

  /** Loading one more class whose name is new files it at the end. */
  lemma LoadSnocStep(list: seq<JournalClass>, c: JournalClass, reg: Registry)
    requires Load(list) == Some(reg) && c.name !in reg.classes
    ensures Load(list + [c]) == Some(Registry(reg.classes[c.name := c], reg.order + [c.name]))
  {
    assert (list + [c])[..|list|] == list;
  }

  /** The state ingestion leaves and the errors it recorded, one per file that threw. */
  datatype Ingested = Ingested(state: State, errors: seq<string>)

  /** `GenerateFromJournalFile`: the lines in order, the first exception ending the file. */
  function IngestFile(pascal: string -> string, manual: seq<ManualEntry>, s: State, file: Json.JournalFile): Outcome {
    Run(s, FileOps(pascal, s.connections, manual, file))
  }

  /** The loop over the journal files; each exception adds its message to the error list. */
  function IngestFiles(pascal: string -> string, manual: seq<ManualEntry>, s: State, files: seq<Json.JournalFile>): (r: Ingested)
    ensures |r.errors| <= |files|
    decreases |files|
  {
    if files == [] then Ingested(s, [])
    else
      var prev := IngestFiles(pascal, manual, s, files[..|files| - 1]);
      var o := IngestFile(pascal, manual, prev.state, files[|files| - 1]);
      Ingested(o.state, prev.errors + (if o.failure.Some? then [o.failure.value] else []))
  }

  /** One more file: its exception message, if any, follows those of the earlier files. */
  lemma IngestFilesStep(pascal: string -> string, manual: seq<ManualEntry>, s: State, files: seq<Json.JournalFile>, i: nat)
    requires i < |files|
    ensures var prev := IngestFiles(pascal, manual, s, files[..i]);
      var o := IngestFile(pascal, manual, prev.state, files[i]);
      IngestFiles(pascal, manual, s, files[..i + 1]) ==
        Ingested(o.state, prev.errors + (if o.failure.Some? then [o.failure.value] else []))
  {
    assert files[..i + 1][..i] == files[..i];
  }

  /** For every file, the part of its plan before its first `Throw`, all files together. */
  function DoneOps(pascal: string -> string, table: seq<PropertyEnumConnection>, manual: seq<ManualEntry>,
                   files: seq<Json.JournalFile>): seq<Op>
    decreases |files|
  {
    if files == [] then []
    else
      var ops := FileOps(pascal, table, manual, files[|files| - 1]);
      DoneOps(pascal, table, manual, files[..|files| - 1]) + ops[..ThrowAt(ops)]
  }

  /** For every file whose plan throws, the message of its first `Throw`. */
  function FileErrors(pascal: string -> string, table: seq<PropertyEnumConnection>, manual: seq<ManualEntry>,
                      files: seq<Json.JournalFile>): seq<string>
    decreases |files|
  {
    if files == [] then []
    else
      var thrown := Thrown(FileOps(pascal, table, manual, files[|files| - 1]));
      FileErrors(pascal, table, manual, files[..|files| - 1]) + (if thrown.Some? then [thrown.value] else [])
  }

  lemma {:induction false} ApplyAllConcat(s: State, a: seq<Op>, b: seq<Op>)
    ensures ApplyAll(s, a + b) == ApplyAll(ApplyAll(s, a), b)
    decreases |b|
  {
    if b == [] {
      assert a + b == a;
    } else {
      ApplyAllConcat(s, a, b[..|b| - 1]);
      assert (a + b)[..|a + b| - 1] == a + b[..|b| - 1];
    }
  }

  /** Ingestion is executing every file's plan up to its first `Throw`, and recording those throws. */
  lemma {:induction false} IngestAsApply(pascal: string -> string, manual: seq<ManualEntry>, s: State, files: seq<Json.JournalFile>)
    ensures IngestFiles(pascal, manual, s, files) ==
      Ingested(ApplyAll(s, DoneOps(pascal, s.connections, manual, files)), FileErrors(pascal, s.connections, manual, files))
    decreases |files|
  {
    if files != [] {
      var front, file := files[..|files| - 1], files[|files| - 1];
      IngestAsApply(pascal, manual, s, front);
      var done := DoneOps(pascal, s.connections, manual, front);
      var t := ApplyAll(s, done);
      ApplyAllConnections(s, done);
      LinesOpsIgnoreFlags(pascal, s.connections, t.connections, manual, file.path, file.lines);
      var ops := FileOps(pascal, s.connections, manual, file);
      RunAsApply(t, ops);
      ApplyAllConcat(s, done, ops[..ThrowAt(ops)]);
    }
  }

  /** The executed part of the files' plans is well formed whatever classes exist. */
  lemma {:induction false} DoneOpsWellFormed(pascal: string -> string, table: seq<PropertyEnumConnection>, manual: seq<ManualEntry>,
                                             files: seq<Json.JournalFile>, known: set<string>)
    ensures WellFormed(DoneOps(pascal, table, manual, files), known)
    decreases |files|
  {
    if files != [] {
      var front, file := files[..|files| - 1], files[|files| - 1];
      DoneOpsWellFormed(pascal, table, manual, front, known);
      var done := DoneOps(pascal, table, manual, front);
      var ops := FileOps(pascal, table, manual, file);
      LinesOpsWellFormed(pascal, table, manual, file.path, file.lines, known + CreatedSet(done));
      WellFormedPrefix(ops, known + CreatedSet(done), ThrowAt(ops));
      WellFormedConcat(done, ops[..ThrowAt(ops)], known);
    }
  }

  lemma {:induction false} DoneOpsIgnoreFlags(pascal: string -> string, a: seq<PropertyEnumConnection>, b: seq<PropertyEnumConnection>,
                                              manual: seq<ManualEntry>, files: seq<Json.JournalFile>)
    requires SameAnnotations(a, b)
    ensures DoneOps(pascal, a, manual, files) == DoneOps(pascal, b, manual, files)
    ensures FileErrors(pascal, a, manual, files) == FileErrors(pascal, b, manual, files)
    decreases |files|
  {
    if files != [] {
      var file := files[|files| - 1];
      DoneOpsIgnoreFlags(pascal, a, b, manual, files[..|files| - 1]);
      LinesOpsIgnoreFlags(pascal, a, b, manual, file.path, file.lines);
    }
  }

  /** Ingesting the same journals again over the state they produced changes nothing and records the same errors. */
  lemma IngestIdempotent(pascal: string -> string, manual: seq<ManualEntry>, s: State, files: seq<Json.JournalFile>)
    ensures var r := IngestFiles(pascal, manual, s, files);
      IngestFiles(pascal, manual, r.state, files) == r
  {
    var done := DoneOps(pascal, s.connections, manual, files);
    IngestAsApply(pascal, manual, s, files);
    var t := ApplyAll(s, done);
    IngestAsApply(pascal, manual, t, files);
    ApplyAllConnections(s, done);
    DoneOpsIgnoreFlags(pascal, s.connections, t.connections, manual, files);
    DoneOpsWellFormed(pascal, s.connections, manual, files, s.classes.Keys);
    ApplyAllIdempotent(s, done);
  }

  /** The same, starting again from the annotation flags the first ingestion started with. */
  lemma IngestReplay(pascal: string -> string, manual: seq<ManualEntry>, s: State, files: seq<Json.JournalFile>)
    ensures var r := IngestFiles(pascal, manual, s, files);
      IngestFiles(pascal, manual, r.state.(connections := s.connections), files) == r
  {
    var done := DoneOps(pascal, s.connections, manual, files);
    IngestAsApply(pascal, manual, s, files);
    var t0 := ApplyAll(s, done).(connections := s.connections);
    IngestAsApply(pascal, manual, t0, files);
    DoneOpsWellFormed(pascal, s.connections, manual, files, s.classes.Keys);
    ApplyAllReplay(s, done);
  }

  lemma {:induction false} LinesOpsPrefix(pascal: string -> string, table: seq<PropertyEnumConnection>, manual: seq<ManualEntry>,
                                          path: string, lines: seq<Json.JournalLine>, k: nat)
    requires k <= |lines|
    ensures var part := LinesOps(pascal, table, manual, path, lines[..k]);
      var all := LinesOps(pascal, table, manual, path, lines);
      |part| <= |all| && all[..|part|] == part
    decreases |lines| - k
  {
    if k < |lines| {
      LinesOpsPrefix(pascal, table, manual, path, lines[..|lines| - 1], k);
      assert lines[..|lines| - 1][..k] == lines[..k];
    } else {
      assert lines[..k] == lines;
    }
  }

  /** A line that throws abandons the rest of its file: the file ends as its first `k` lines end. */
  lemma FileAbandonsRest(pascal: string -> string, manual: seq<ManualEntry>, s: State, file: Json.JournalFile, k: nat)
    requires k <= |file.lines|
    requires Run(s, LinesOps(pascal, s.connections, manual, file.path, file.lines[..k])).failure.Some?
    ensures IngestFile(pascal, manual, s, file) == Run(s, LinesOps(pascal, s.connections, manual, file.path, file.lines[..k]))
  {
    var part := LinesOps(pascal, s.connections, manual, file.path, file.lines[..k]);
    LinesOpsPrefix(pascal, s.connections, manual, file.path, file.lines, k);
    RunStopsAtFailure(s, FileOps(pascal, s.connections, manual, file), |part|);
  }

  /** What a run of the generator leaves: its error list, the snapshot it wrote, the classes it output, and whether it threw. */
  datatype RunResult = RunResult(errors: seq<string>, snapshot: Option<seq<JournalClass>>, emitted: seq<JournalClass>, crashed: bool)

  /** The registry a run starts from: empty on reset or without a stored snapshot, else the snapshot read back. */
  function StartRegistry(reset: bool, stored: Option<seq<JournalClass>>): Option<Registry> {
    if reset || stored.None? then Some(Registry(map[], [])) else Load(stored.value)
  }

  /** The registry, with the fresh annotation table, that ingestion starts from. */
  function StartState(reg: Registry): State {
    State(reg.classes, reg.order, PropertyEnumConnections())
  }

  /** `RegenerateJournalEntryClasses`, with the journal files and the stored snapshot as inputs. */
  function Regenerate(pascal: string -> string, manual: seq<ManualEntry>, files: seq<Json.JournalFile>,
                      reset: bool, stored: Option<seq<JournalClass>>): RunResult
  {
    match StartRegistry(reset, stored)
    case None => RunResult([], None, [], true)
    case Some(reg) =>
      var ing := IngestFiles(pascal, manual, StartState(reg), files);
      var errors := ing.errors + UnusedErrors(ing.state.connections);
      if errors != [] then RunResult(errors, None, [], false)
      else
        var snapshot := Snapshot(ing.state.classes, ing.state.order);
        var out := LocaliseAll(snapshot);
        RunResult(out.errors, Some(snapshot), out.classes, out.crashed)
  }

  /**
   * The error gate: a snapshot is written exactly when no file threw and every annotation
   * was used; without one nothing is output and the errors reported are the files' errors
   * followed by one line per unused annotation. Orphan errors are found after the gate, so
   * they never withhold the snapshot or the output. The snapshot holds the classes before
   * the localisation renames; the output differs from it only in property names.
   */
  lemma RunGate(pascal: string -> string, manual: seq<ManualEntry>, files: seq<Json.JournalFile>,
                reset: bool, stored: Option<seq<JournalClass>>)
    requires StartRegistry(reset, stored).Some?
    ensures var ing := IngestFiles(pascal, manual, StartState(StartRegistry(reset, stored).value), files);
      var r := Regenerate(pascal, manual, files, reset, stored);
      (r.snapshot.Some? <==>
         ing.errors == [] && forall k :: 0 <= k < |ing.state.connections| ==> ing.state.connections[k].isUsed) &&
      (r.snapshot.None? ==>
         r.emitted == [] && r.errors != [] && !r.crashed &&
         r.errors == ing.errors + UnusedErrors(ing.state.connections)) &&
      (r.snapshot.Some? ==>
         r.snapshot.value == Snapshot(ing.state.classes, ing.state.order) &&
         r.errors == LocaliseAll(r.snapshot.value).errors &&
         |r.emitted| <= |r.snapshot.value| &&
         (!r.crashed ==> |r.emitted| == |r.snapshot.value|) &&
         forall k :: 0 <= k < |r.emitted| ==> OnlyNamesChanged(r.snapshot.value[k].properties, r.emitted[k].properties))
  {
    var ing := IngestFiles(pascal, manual, StartState(StartRegistry(reset, stored).value), files);
    LocaliseAllShape(Snapshot(ing.state.classes, ing.state.order));
  }

  /**
   * A run that wrote a snapshot, repeated over the same journals from that snapshot, does
   * exactly the same: same snapshot, same output, same errors.
   */
  lemma RerunFromSnapshot(pascal: string -> string, manual: seq<ManualEntry>, files: seq<Json.JournalFile>,
                          reset: bool, stored: Option<seq<JournalClass>>)
    requires Regenerate(pascal, manual, files, reset, stored).snapshot.Some?
    ensures var r := Regenerate(pascal, manual, files, reset, stored);
      Regenerate(pascal, manual, files, false, r.snapshot) == r
  {
    var reg := StartRegistry(reset, stored).value;
    if !(reset || stored.None?) {
      LoadCharacterised(stored.value);
    }
    assert RegistryValid(reg.classes, reg.order);
    var s0 := StartState(reg);
    var ing := IngestFiles(pascal, manual, s0, files);
    IngestAsApply(pascal, manual, s0, files);
    ApplyAllKeepsRegistryValid(s0, DoneOps(pascal, s0.connections, manual, files));
    LoadOfSnapshot(ing.state.classes, ing.state.order);
    IngestReplay(pascal, manual, s0, files);
    assert StartState(Registry(ing.state.classes, ing.state.order)) == ing.state.(connections := s0.connections);
  }

  /** In a valid registry, the snapshot lists exactly the classes named by the insertion order. */
  lemma {:induction false} SnapshotIndex(classes: map<string, JournalClass>, order: seq<string>)
    requires forall i :: 0 <= i < |order| ==> order[i] in classes
    ensures |Snapshot(classes, order)| == |order|
    ensures forall i :: 0 <= i < |order| ==> Snapshot(classes, order)[i] == classes[order[i]]
    decreases |order|
  {
    if order != [] {
      SnapshotIndex(classes, order[..|order| - 1]);
    }
  }

  /** Ingestion keeps the registry valid. */
  lemma IngestKeepsRegistryValid(pascal: string -> string, manual: seq<ManualEntry>, s: State, files: seq<Json.JournalFile>)
    requires RegistryValid(s.classes, s.order)
    ensures RegistryValid(IngestFiles(pascal, manual, s, files).state.classes, IngestFiles(pascal, manual, s, files).state.order)
  {
    IngestAsApply(pascal, manual, s, files);
    ApplyAllKeepsRegistryValid(s, DoneOps(pascal, s.connections, manual, files));
  }

  /** The registry a run starts from is valid whenever it can be read. */
  lemma StartRegistryValid(reset: bool, stored: Option<seq<JournalClass>>)
    requires StartRegistry(reset, stored).Some?
    ensures RegistryValid(StartRegistry(reset, stored).value.classes, StartRegistry(reset, stored).value.order)
  {
    if !(reset || stored.None?) {
      LoadCharacterised(stored.value);
    }
  }

  /** Replacing the class filed under `order[k]` leaves the classes named later in a duplicate-free order alone. */
  lemma UntouchedAfter(before: map<string, JournalClass>, after: map<string, JournalClass>,
                       expected: seq<JournalClass>, order: seq<string>, k: nat, c: JournalClass)
    requires k < |order| <= |expected|
    requires forall i, j :: 0 <= i < j < |order| ==> order[i] != order[j]
    requires forall m :: k <= m < |order| ==> order[m] in before && before[order[m]] == expected[m]
    requires after == before[order[k] := c]
    ensures forall m :: k < m < |order| ==> order[m] in after && after[order[m]] == expected[m]
  {
    forall m | k < m < |order|
      ensures order[m] in after && after[order[m]] == expected[m]
    {
      assert order[m] != order[k];
    }
  }

  /** `Regenerate` once the start registry and the ingestion result are known. */
  lemma RegenerateFrom(pascal: string -> string, manual: seq<ManualEntry>, files: seq<Json.JournalFile>,
                       reset: bool, stored: Option<seq<JournalClass>>, reg: Registry, ing: Ingested)
    requires StartRegistry(reset, stored) == Some(reg)
    requires ing == IngestFiles(pascal, manual, StartState(reg), files)
    ensures var errors := ing.errors + UnusedErrors(ing.state.connections);
      var snapshot := Snapshot(ing.state.classes, ing.state.order);
      Regenerate(pascal, manual, files, reset, stored) ==
        if errors != [] then RunResult(errors, None, [], false)
        else RunResult(LocaliseAll(snapshot).errors, Some(snapshot), LocaliseAll(snapshot).classes, LocaliseAll(snapshot).crashed)
  {
  }
}
