/**
 * Facts about the plans the engine derives from journal records: they are well formed
 * (every merged-into class exists or is created first), they read only the annotation keys
 * and never the `isUsed` flags, and they never turn "event" or "timestamp" into a property.
 * With these, re-merging a record is proved to change nothing.
 */
module RecordPlans {
  import opened Wrappers
  import opened JournalModel
  import opened EnumConnections
  import opened MergePlan
  import opened PlanTheory
  import Json

  lemma {:induction false} CreatedConcat(a: seq<Op>, b: seq<Op>)
    ensures CreatedSet(a + b) == CreatedSet(a) + CreatedSet(b)
    decreases |b|
  {
    if b == [] {
      assert a + b == a;
    } else {
      CreatedConcat(a, b[..|b| - 1]);
      assert (a + b)[..|a + b| - 1] == a + b[..|b| - 1];
    }
  }

  lemma {:induction false} WellFormedConcat(a: seq<Op>, b: seq<Op>, known: set<string>)
    requires WellFormed(a, known) && WellFormed(b, known + CreatedSet(a))
    ensures WellFormed(a + b, known)
    decreases |b|
  {
    if b == [] {
      assert a + b == a;
    } else {
      var front := b[..|b| - 1];
      WellFormedConcat(a, front, known);
      assert (a + b)[..|a + b| - 1] == a + front;
      CreatedConcat(a, front);
    }
  }

  /** A plan for the members of an object is well formed once the object's class exists. */
  lemma {:induction false} MembersOpsWellFormed(pascal: string -> string, table: seq<PropertyEnumConnection>, className: string,
                                                eventName: string, params: seq<ManualParameter>, members: seq<Json.Member>,
                                                known: set<string>)
    requires className in known
    ensures WellFormed(MembersOps(pascal, table, className, eventName, params, members), known)
    decreases members
  {
    if members != [] {
      var front := MembersOps(pascal, table, className, eventName, params, members[..|members| - 1]);
      MembersOpsWellFormed(pascal, table, className, eventName, params, members[..|members| - 1], known);
      MemberOpsWellFormed(pascal, table, className, eventName, params, members[|members| - 1], known + CreatedSet(front));
      WellFormedConcat(front, MemberOps(pascal, table, className, eventName, params, members[|members| - 1]), known);
    }
  }

  lemma {:induction false} MemberOpsWellFormed(pascal: string -> string, table: seq<PropertyEnumConnection>, className: string,
                                               eventName: string, params: seq<ManualParameter>, m: Json.Member,
                                               known: set<string>)
    requires className in known
    ensures WellFormed(MemberOps(pascal, table, className, eventName, params, m), known)
    decreases m
  {
    var ops := MemberOps(pascal, table, className, eventName, params, m);
    if m.key != "event" && m.key != "timestamp" && m.value.JArray? && m.value.items != [] && m.value.items[0].JObject? {
      var items := m.value.items;
      var arrayType := eventName + Text.TrimEndChar(m.key, 's');
      var create: seq<Op> := [Create(arrayType, None, None, false)];
      var nested := MembersOps(pascal, table, arrayType, eventName, params, items[0].members);
      var merge := ops[|ops| - 1];
      assert ops == create + nested + [merge];
      assert WellFormed(create, known) by {
        assert create[..0] == [];
      }
      assert CreatedSet(create) == {arrayType} by {
        assert create[..0] == [];
      }
      MembersOpsWellFormed(pascal, table, arrayType, eventName, params, items[0].members, known + CreatedSet(create));
      WellFormedConcat(create, nested, known);
      WellFormedConcat(create + nested, [merge], known);
    } else {
      forall k | 0 <= k < |ops| ensures ops[k].Merge? ==> ops[k].className == className {
      }
      SmallPlanWellFormed(ops, className, known);
    }
  }

  /** A plan without `Create` whose merges all go to a known class is well formed. */
  lemma {:induction false} SmallPlanWellFormed(ops: seq<Op>, className: string, known: set<string>)
    requires className in known
    requires forall k :: 0 <= k < |ops| ==> ops[k].Merge? ==> ops[k].className == className
    ensures WellFormed(ops, known)
    decreases |ops|
  {
    if ops != [] {
      SmallPlanWellFormed(ops[..|ops| - 1], className, known);
    }
  }

  /** The plan of one journal line is well formed whatever classes exist. */
  lemma LineOpsWellFormed(pascal: string -> string, table: seq<PropertyEnumConnection>, manual: seq<ManualEntry>,
                          path: string, lineNumber: nat, line: Json.JournalLine, known: set<string>)
    ensures WellFormed(LineOps(pascal, table, manual, path, lineNumber, line), known)
  {
    var ops := LineOps(pascal, table, manual, path, lineNumber, line);
    if line.Parsed? && EventText(line.entry).Ok? && !Text.IsNullOrWhiteSpace(EventText(line.entry).value) {
      var eventName := pascal(EventText(line.entry).value.value);
      var className := EntryClassName(eventName);
      var create: seq<Op> := [Create(className, Some("JournalEntry"), Some(eventName), true)];
      var rest := MembersOps(pascal, table, className, eventName, ManualParameters(manual, eventName), line.entry);
      assert ops == create + rest;
      assert WellFormed(create, known) by {
        assert create[..0] == [];
      }
      assert CreatedSet(create) == {className} by {
        assert create[..0] == [];
      }
      MembersOpsWellFormed(pascal, table, className, eventName, ManualParameters(manual, eventName), line.entry,
                           known + CreatedSet(create));
      WellFormedConcat(create, rest, known);
    } else {
      assert ops[..0] == [];
    }
  }

  /** The plan of the first lines of a file is well formed whatever classes exist. */
  lemma {:induction false} LinesOpsWellFormed(pascal: string -> string, table: seq<PropertyEnumConnection>, manual: seq<ManualEntry>,
                                              path: string, lines: seq<Json.JournalLine>, known: set<string>)
    ensures WellFormed(LinesOps(pascal, table, manual, path, lines), known)
    decreases |lines|
  {
    if lines != [] {
      var front := LinesOps(pascal, table, manual, path, lines[..|lines| - 1]);
      LinesOpsWellFormed(pascal, table, manual, path, lines[..|lines| - 1], known);
      LineOpsWellFormed(pascal, table, manual, path, |lines|, lines[|lines| - 1], known + CreatedSet(front));
      WellFormedConcat(front, LineOps(pascal, table, manual, path, |lines|, lines[|lines| - 1]), known);
    }
  }

  /** The members' plan reads the annotation keys only: flags do not matter. */
  lemma {:induction false} MembersOpsIgnoreFlags(pascal: string -> string, a: seq<PropertyEnumConnection>, b: seq<PropertyEnumConnection>,
                                                 className: string, eventName: string, params: seq<ManualParameter>,
                                                 members: seq<Json.Member>)
    requires SameAnnotations(a, b)
    ensures MembersOps(pascal, a, className, eventName, params, members) == MembersOps(pascal, b, className, eventName, params, members)
    decreases members
  {
    if members != [] {
      MembersOpsIgnoreFlags(pascal, a, b, className, eventName, params, members[..|members| - 1]);
      MemberOpsIgnoreFlags(pascal, a, b, className, eventName, params, members[|members| - 1]);
    }
  }

  lemma {:induction false} MemberOpsIgnoreFlags(pascal: string -> string, a: seq<PropertyEnumConnection>, b: seq<PropertyEnumConnection>,
                                                className: string, eventName: string, params: seq<ManualParameter>, m: Json.Member)
    requires SameAnnotations(a, b)
    ensures MemberOps(pascal, a, className, eventName, params, m) == MemberOps(pascal, b, className, eventName, params, m)
    decreases m
  {
    if m.key != "event" && m.key != "timestamp" {
      if m.value.JArray? {
        if m.value.items != [] && m.value.items[0].JObject? {
          var arrayType := eventName + Text.TrimEndChar(m.key, 's');
          MembersOpsIgnoreFlags(pascal, a, b, arrayType, eventName, params, m.value.items[0].members);
        }
      } else {
        FindConnectionIgnoresFlags(a, b, eventName, pascal(m.key));
      }
    }
  }

  lemma LineOpsIgnoreFlags(pascal: string -> string, a: seq<PropertyEnumConnection>, b: seq<PropertyEnumConnection>,
                           manual: seq<ManualEntry>, path: string, lineNumber: nat, line: Json.JournalLine)
    requires SameAnnotations(a, b)
    ensures LineOps(pascal, a, manual, path, lineNumber, line) == LineOps(pascal, b, manual, path, lineNumber, line)
  {
    if line.Parsed? && EventText(line.entry).Ok? && !Text.IsNullOrWhiteSpace(EventText(line.entry).value) {
      var eventName := pascal(EventText(line.entry).value.value);
      MembersOpsIgnoreFlags(pascal, a, b, EntryClassName(eventName), eventName, ManualParameters(manual, eventName), line.entry);
    }
  }

  lemma {:induction false} LinesOpsIgnoreFlags(pascal: string -> string, a: seq<PropertyEnumConnection>, b: seq<PropertyEnumConnection>,
                                               manual: seq<ManualEntry>, path: string, lines: seq<Json.JournalLine>)
    requires SameAnnotations(a, b)
    ensures LinesOps(pascal, a, manual, path, lines) == LinesOps(pascal, b, manual, path, lines)
    decreases |lines|
  {
    if lines != [] {
      LinesOpsIgnoreFlags(pascal, a, b, manual, path, lines[..|lines| - 1]);
      LineOpsIgnoreFlags(pascal, a, b, manual, path, |lines|, lines[|lines| - 1]);
    }
  }

  /** "event" and "timestamp" keys, at any depth, never become properties. */
  lemma {:induction false} MembersOpsSkipReserved(pascal: string -> string, table: seq<PropertyEnumConnection>, className: string,
                                                  eventName: string, params: seq<ManualParameter>, members: seq<Json.Member>)
    ensures forall k :: 0 <= k < |MembersOps(pascal, table, className, eventName, params, members)| ==>
      var op := MembersOps(pascal, table, className, eventName, params, members)[k];
      op.Merge? ==> op.upsert.jsonName != "event" && op.upsert.jsonName != "timestamp"
    decreases members
  {
    if members != [] {
      MembersOpsSkipReserved(pascal, table, className, eventName, params, members[..|members| - 1]);
      MemberOpsSkipReserved(pascal, table, className, eventName, params, members[|members| - 1]);
    }
  }

  lemma {:induction false} MemberOpsSkipReserved(pascal: string -> string, table: seq<PropertyEnumConnection>, className: string,
                                                 eventName: string, params: seq<ManualParameter>, m: Json.Member)
    ensures forall k :: 0 <= k < |MemberOps(pascal, table, className, eventName, params, m)| ==>
      var op := MemberOps(pascal, table, className, eventName, params, m)[k];
      op.Merge? ==> op.upsert.jsonName != "event" && op.upsert.jsonName != "timestamp"
    decreases m
  {
    if m.key != "event" && m.key != "timestamp" && m.value.JArray? && m.value.items != [] && m.value.items[0].JObject? {
      var arrayType := eventName + Text.TrimEndChar(m.key, 's');
      MembersOpsSkipReserved(pascal, table, arrayType, eventName, params, m.value.items[0].members);
    }
  }

  /** Merging the same journal line a second time, with the flags it left behind, changes nothing. */
  lemma LineIdempotent(pascal: string -> string, manual: seq<ManualEntry>, path: string, lineNumber: nat,
                       line: Json.JournalLine, s: State)
    ensures var o := Run(s, LineOps(pascal, s.connections, manual, path, lineNumber, line));
      Run(o.state, LineOps(pascal, o.state.connections, manual, path, lineNumber, line)) == o
  {
    var ops := LineOps(pascal, s.connections, manual, path, lineNumber, line);
    var o := Run(s, ops);
    LineOpsWellFormed(pascal, s.connections, manual, path, lineNumber, line, s.classes.Keys);
    RunIdempotent(s, ops);
    RunAsApply(s, ops);
    ApplyAllConnections(s, ops[..ThrowAt(ops)]);
    LineOpsIgnoreFlags(pascal, s.connections, o.state.connections, manual, path, lineNumber, line);
  }

  /** The plan of the first `k` members is a prefix of the plan of all of them. */
  lemma {:induction false} MembersOpsPrefix(pascal: string -> string, table: seq<PropertyEnumConnection>, className: string,
                                            eventName: string, params: seq<ManualParameter>, members: seq<Json.Member>, k: nat)
    requires k <= |members|
    ensures var part := MembersOps(pascal, table, className, eventName, params, members[..k]);
      var all := MembersOps(pascal, table, className, eventName, params, members);
      |part| <= |all| && all[..|part|] == part
    decreases |members| - k
  {
    if k < |members| {
      MembersOpsPrefix(pascal, table, className, eventName, params, members[..|members| - 1], k);
      assert members[..|members| - 1][..k] == members[..k];
    } else {
      assert members[..k] == members;
    }
  }

  /**
   * One more member of an object, run after the earlier ones succeeded: on success the run of
   * the longer prefix ends where the member's run ends; on an exception the whole object's run does.
   */
  lemma MembersRunStep(pascal: string -> string, table: seq<PropertyEnumConnection>, className: string,
                       eventName: string, params: seq<ManualParameter>, members: seq<Json.Member>, i: nat,
                       s0: State, si: State, o: Outcome)
    requires i < |members|
    requires Run(s0, MembersOps(pascal, table, className, eventName, params, members[..i])) == Outcome(si, None)
    requires o == Run(si, MemberOps(pascal, table, className, eventName, params, members[i]))
    ensures o.failure.None? ==> Run(s0, MembersOps(pascal, table, className, eventName, params, members[..i + 1])) == o
    ensures o.failure.Some? ==> Run(s0, MembersOps(pascal, table, className, eventName, params, members)) == o
  {
    var before := MembersOps(pascal, table, className, eventName, params, members[..i]);
    var step := MemberOps(pascal, table, className, eventName, params, members[i]);
    assert members[..i + 1][..i] == members[..i];
    RunConcat(s0, before, step);
    if o.failure.Some? {
      MembersOpsPrefix(pascal, table, className, eventName, params, members, i + 1);
      RunStopsAtFailure(s0, MembersOps(pascal, table, className, eventName, params, members), |before + step|);
    }
  }
}
