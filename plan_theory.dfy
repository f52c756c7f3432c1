/**
 * What executing a plan does to the registry, in closed form, and the consequence the
 * engine relies on: executing a well-formed plan a second time changes nothing.
 */
module PlanTheory {
  import opened Wrappers
  import opened JournalModel
  import opened EnumConnections
  import opened MergePlan
  import opened PropertyMerge

  /** Executing every edit of a plan; a `Throw` is a no-op here. */
  function ApplyAll(s: State, ops: seq<Op>): State
    decreases |ops|
  {
    if ops == [] then s else Exec(ApplyAll(s, ops[..|ops| - 1]), ops[|ops| - 1])
  }

  /** The class names a plan creates. */
  function CreatedSet(ops: seq<Op>): set<string>
    decreases |ops|
  {
    if ops == [] then {}
    else CreatedSet(ops[..|ops| - 1]) + (if ops[|ops| - 1].Create? then {ops[|ops| - 1].className} else {})
  }

  /** Every `Merge` names a class that is already `known` or that an earlier edit creates. */
  predicate WellFormed(ops: seq<Op>, known: set<string>)
    decreases |ops|
  {
    ops == [] ||
    (WellFormed(ops[..|ops| - 1], known) &&
     (ops[|ops| - 1].Merge? ==> ops[|ops| - 1].className in known + CreatedSet(ops[..|ops| - 1])))
  }

  /** The upserts a plan makes on class `c`, in order. */
  function Proj(ops: seq<Op>, c: string): seq<Upsert>
    decreases |ops|
  {
    if ops == [] then []
    else
      var last := ops[|ops| - 1];
      Proj(ops[..|ops| - 1], c) + (if last.Merge? && last.className == c then [last.upsert] else [])
  }

  /** Whether the plan marks annotation `k` as used. */
  predicate UsedIn(ops: seq<Op>, k: nat)
    decreases |ops|
  {
    ops != [] && (UsedIn(ops[..|ops| - 1], k) || ops[|ops| - 1] == Use(k))
  }

  /** The properties class `c` starts with: its own, or none if it does not exist yet. */
  function InitProps(s: State, c: string): seq<JournalProperty> {
    if c in s.classes then s.classes[c].properties else []
  }

  /** A class with its property list blanked out: what the engine never changes once the class exists. */
  function Header(c: JournalClass): JournalClass {
    c.(properties := [])
  }

  lemma {:induction false} ApplyAllKeys(s: State, ops: seq<Op>)
    ensures ApplyAll(s, ops).classes.Keys == s.classes.Keys + CreatedSet(ops)
    decreases |ops|
  {
    if ops != [] {
      ApplyAllKeys(s, ops[..|ops| - 1]);
    }
  }

  lemma {:induction false} ApplyAllHeaders(s: State, ops: seq<Op>)
    ensures forall c :: c in s.classes ==> c in ApplyAll(s, ops).classes && Header(ApplyAll(s, ops).classes[c]) == Header(s.classes[c])
    decreases |ops|
  {
    if ops != [] {
      ApplyAllHeaders(s, ops[..|ops| - 1]);
    }
  }

  /** A plan that creates nothing new leaves the insertion order alone. */
  lemma {:induction false} ApplyAllOrder(s: State, ops: seq<Op>)
    requires CreatedSet(ops) <= s.classes.Keys
    ensures ApplyAll(s, ops).order == s.order
    decreases |ops|
  {
    if ops != [] {
      var front := ops[..|ops| - 1];
      ApplyAllOrder(s, front);
      ApplyAllKeys(s, front);
    }
  }

  /** Annotation flags end up as they were, or set where the plan uses them. */
  lemma {:induction false} ApplyAllConnections(s: State, ops: seq<Op>)
    ensures SameAnnotations(s.connections, ApplyAll(s, ops).connections)
    ensures forall k :: 0 <= k < |s.connections| ==>
      ApplyAll(s, ops).connections[k].isUsed == (s.connections[k].isUsed || UsedIn(ops, k))
    decreases |ops|
  {
    if ops != [] {
      ApplyAllConnections(s, ops[..|ops| - 1]);
    }
  }

  lemma {:induction false} WellFormedMonotone(ops: seq<Op>, known: set<string>, more: set<string>)
    requires WellFormed(ops, known) && known <= more
    ensures WellFormed(ops, more)
    decreases |ops|
  {
    if ops != [] {
      WellFormedMonotone(ops[..|ops| - 1], known, more);
    }
  }

  lemma {:induction false} WellFormedPrefix(ops: seq<Op>, known: set<string>, n: nat)
    requires WellFormed(ops, known) && n <= |ops|
    ensures WellFormed(ops[..n], known)
    decreases |ops| - n
  {
    if n < |ops| {
      WellFormedPrefix(ops[..|ops| - 1], known, n);
      assert ops[..|ops| - 1][..n] == ops[..n];
    } else {
      assert ops[..n] == ops;
    }
  }

  /** A class that neither exists nor is created receives no upsert from a well-formed plan. */
  lemma {:induction false} ProjOfUnknown(ops: seq<Op>, known: set<string>, c: string)
    requires WellFormed(ops, known) && c !in known + CreatedSet(ops)
    ensures Proj(ops, c) == []
    decreases |ops|
  {
    if ops != [] {
      ProjOfUnknown(ops[..|ops| - 1], known, c);
    }
  }

  /** Each class's properties are its initial list merged with the plan's upserts on it. */
  lemma {:induction false} ApplyAllProperties(s: State, ops: seq<Op>)
    requires WellFormed(ops, s.classes.Keys)
    ensures forall c :: c in ApplyAll(s, ops).classes ==>
      ApplyAll(s, ops).classes[c].properties == MergeAll(InitProps(s, c), Proj(ops, c))
    decreases |ops|
  {
    if ops != [] {
      var front, op := ops[..|ops| - 1], ops[|ops| - 1];
      ApplyAllProperties(s, front);
      ApplyAllKeys(s, front);
      var t := ApplyAll(s, front);
      forall c | c in ApplyAll(s, ops).classes
        ensures ApplyAll(s, ops).classes[c].properties == MergeAll(InitProps(s, c), Proj(ops, c))
      {
        match op
        case Create(c0, _, _, _) =>
          assert Proj(ops, c) == Proj(front, c);
          if c == c0 && c0 !in t.classes {
            ProjOfUnknown(front, s.classes.Keys, c);
          }
        case Merge(c0, u) =>
          if c == c0 {
            assert Proj(ops, c) == Proj(front, c) + [u];
            var us := Proj(ops, c);
            assert us[..|us| - 1] == Proj(front, c);
          } else {
            assert Proj(ops, c) == Proj(front, c);
          }
        case Use(_) =>
          assert Proj(ops, c) == Proj(front, c);
        case Throw(_) =>
          assert Proj(ops, c) == Proj(front, c);
      }
    }
  }

  /** The classes a plan produces do not depend on the annotation flags it starts from. */
  lemma {:induction false} ClassesIgnoreConnections(s: State, ops: seq<Op>, conns: seq<PropertyEnumConnection>)
    ensures ApplyAll(s.(connections := conns), ops).classes == ApplyAll(s, ops).classes
    ensures ApplyAll(s.(connections := conns), ops).order == ApplyAll(s, ops).order
    decreases |ops|
  {
    if ops != [] {
      ClassesIgnoreConnections(s, ops[..|ops| - 1], conns);
    }
  }

  lemma ConnectionsExt(a: seq<PropertyEnumConnection>, b: seq<PropertyEnumConnection>)
    requires SameAnnotations(a, b) && forall k :: 0 <= k < |a| ==> a[k].isUsed == b[k].isUsed
    ensures a == b
  {
  }

  lemma SameClass(a: JournalClass, b: JournalClass)
    requires Header(a) == Header(b) && a.properties == b.properties
    ensures a == b
  {
  }

  /** Replaying a well-formed plan over its own result reproduces its classes and their order. */
  lemma ReplayOwnClasses(s: State, ops: seq<Op>)
    requires WellFormed(ops, s.classes.Keys)
    ensures ApplyAll(ApplyAll(s, ops), ops).classes == ApplyAll(s, ops).classes
    ensures ApplyAll(ApplyAll(s, ops), ops).order == ApplyAll(s, ops).order
  {
    var t := ApplyAll(s, ops);
    var t2 := ApplyAll(t, ops);
    ApplyAllKeys(s, ops);
    ApplyAllKeys(t, ops);
    ApplyAllOrder(t, ops);
    ApplyAllHeaders(t, ops);
    ApplyAllProperties(s, ops);
    WellFormedMonotone(ops, s.classes.Keys, t.classes.Keys);
    ApplyAllProperties(t, ops);
    forall c | c in t.classes
      ensures t2.classes[c] == t.classes[c]
    {
      MergeAllIdempotent(InitProps(s, c), Proj(ops, c));
      SameClass(t2.classes[c], t.classes[c]);
    }
  }

  /** Replaying a well-formed plan over its own result, from any annotation flags, reproduces its classes. */
  lemma ReplayClasses(s: State, ops: seq<Op>, conns: seq<PropertyEnumConnection>)
    requires WellFormed(ops, s.classes.Keys)
    ensures ApplyAll(ApplyAll(s, ops).(connections := conns), ops).classes == ApplyAll(s, ops).classes
    ensures ApplyAll(ApplyAll(s, ops).(connections := conns), ops).order == ApplyAll(s, ops).order
  {
    ReplayOwnClasses(s, ops);
    ClassesIgnoreConnections(ApplyAll(s, ops), ops, conns);
  }

  /** Executing a well-formed plan twice is executing it once. */
  lemma ApplyAllIdempotent(s: State, ops: seq<Op>)
    requires WellFormed(ops, s.classes.Keys)
    ensures ApplyAll(ApplyAll(s, ops), ops) == ApplyAll(s, ops)
  {
    var t := ApplyAll(s, ops);
    ReplayClasses(s, ops, t.connections);
    assert t.(connections := t.connections) == t;
    ApplyAllConnections(s, ops);
    ApplyAllConnections(t, ops);
    ConnectionsExt(ApplyAll(t, ops).connections, t.connections);
  }

  /** Replaying from the annotation flags the first execution started with gives the same state. */
  lemma ApplyAllReplay(s: State, ops: seq<Op>)
    requires WellFormed(ops, s.classes.Keys)
    ensures ApplyAll(ApplyAll(s, ops).(connections := s.connections), ops) == ApplyAll(s, ops)
  {
    var t := ApplyAll(s, ops);
    var t0 := t.(connections := s.connections);
    ReplayClasses(s, ops, s.connections);
    ApplyAllConnections(s, ops);
    ApplyAllConnections(t0, ops);
    ConnectionsExt(ApplyAll(t0, ops).connections, t.connections);
  }

  /** Index of the first `Throw` of a plan, or its length. */
  function ThrowAt(ops: seq<Op>): (r: nat)
    ensures r <= |ops|
    ensures forall k :: 0 <= k < r ==> !ops[k].Throw?
    ensures r < |ops| ==> ops[r].Throw?
  {
    if ops == [] then 0
    else if ops[0].Throw? then 0
    else 1 + ThrowAt(ops[1..])
  }

  /** The message of the first `Throw` of a plan. */
  function Thrown(ops: seq<Op>): Option<string> {
    if ThrowAt(ops) < |ops| then Some(ops[ThrowAt(ops)].message) else None
  }

  /** `ThrowAt` is the only index with its defining properties. */
  lemma ThrowAtUnique(ops: seq<Op>, r: nat)
    requires r <= |ops| && (forall k :: 0 <= k < r ==> !ops[k].Throw?) && (r < |ops| ==> ops[r].Throw?)
    ensures ThrowAt(ops) == r
  {
  }

  /** Where the first `Throw` of a plan is, from where it is in the plan without its last step. */
  lemma ThrowAtSnoc(ops: seq<Op>)
    requires ops != []
    ensures var front := ops[..|ops| - 1];
      ThrowAt(ops) ==
        if ThrowAt(front) < |front| then ThrowAt(front)
        else if ops[|ops| - 1].Throw? then |front|
        else |ops|
  {
    var front := ops[..|ops| - 1];
    var tf := ThrowAt(front);
    assert forall k :: 0 <= k < |front| ==> front[k] == ops[k];
    if tf < |front| {
      ThrowAtUnique(ops, tf);
    } else if ops[|ops| - 1].Throw? {
      ThrowAtUnique(ops, |front|);
    } else {
      ThrowAtUnique(ops, |ops|);
    }
  }

  /** Running a plan is executing its part before the first `Throw`, and reporting that `Throw`. */
  lemma {:induction false} RunAsApply(s: State, ops: seq<Op>)
    ensures Run(s, ops) == Outcome(ApplyAll(s, ops[..ThrowAt(ops)]), Thrown(ops))
    decreases |ops|
  {
    if ops == [] {
      assert ops[..0] == ops;
    } else {
      var front, op := ops[..|ops| - 1], ops[|ops| - 1];
      RunAsApply(s, front);
      ThrowAtSnoc(ops);
      var tf := ThrowAt(front);
      if tf < |front| {
        assert ops[..tf] == front[..tf];
        assert ops[tf] == front[tf];
      } else if op.Throw? {
        assert front[..tf] == front == ops[..tf];
      } else {
        assert front[..tf] == front;
        assert ops[..|ops|] == ops;
      }
    }
  }

  /** Running a well-formed plan over its own outcome ends the same way, with the same state. */
  lemma RunIdempotent(s: State, ops: seq<Op>)
    requires WellFormed(ops, s.classes.Keys)
    ensures Run(Run(s, ops).state, ops) == Run(s, ops)
  {
    RunAsApply(s, ops);
    var done := ops[..ThrowAt(ops)];
    WellFormedPrefix(ops, s.classes.Keys, ThrowAt(ops));
    RunAsApply(ApplyAll(s, done), ops);
    ApplyAllIdempotent(s, done);
  }

  /** The same, replaying from the annotation flags of the starting state. */
  lemma RunReplay(s: State, ops: seq<Op>)
    requires WellFormed(ops, s.classes.Keys)
    ensures Run(Run(s, ops).state.(connections := s.connections), ops) == Run(s, ops)
  {
    RunAsApply(s, ops);
    var done := ops[..ThrowAt(ops)];
    WellFormedPrefix(ops, s.classes.Keys, ThrowAt(ops));
    RunAsApply(ApplyAll(s, done).(connections := s.connections), ops);
    ApplyAllReplay(s, done);
  }

  /** Once a prefix of a plan has thrown, the rest of the plan is never reached. */
  lemma {:induction false} RunStopsAtFailure(s: State, ops: seq<Op>, n: nat)
    requires n <= |ops| && Run(s, ops[..n]).failure.Some?
    ensures Run(s, ops) == Run(s, ops[..n])
    decreases |ops| - n
  {
    if n < |ops| {
      assert ops[..|ops| - 1][..n] == ops[..n];
      RunStopsAtFailure(s, ops[..|ops| - 1], n);
    } else {
      assert ops[..n] == ops;
    }
  }

  /** Running two plans one after the other is running their concatenation. */
  lemma {:induction false} RunConcat(s: State, a: seq<Op>, b: seq<Op>)
    ensures Run(s, a + b) == (var o := Run(s, a); if o.failure.Some? then o else Run(o.state, b))
    decreases |b|
  {
    if b == [] {
      assert a + b == a;
    } else {
      RunConcat(s, a, b[..|b| - 1]);
      assert (a + b)[..|a + b| - 1] == a + b[..|b| - 1];
    }
  }

  /** Running a plan only adds classes and keeps the annotation keys. */
  lemma RunGrows(s: State, ops: seq<Op>)
    ensures s.classes.Keys <= Run(s, ops).state.classes.Keys
    ensures SameAnnotations(s.connections, Run(s, ops).state.connections)
  {
    RunAsApply(s, ops);
    ApplyAllKeys(s, ops[..ThrowAt(ops)]);
    ApplyAllConnections(s, ops[..ThrowAt(ops)]);
  }

  /**
   * Get-or-create: a class is inserted only when its name is absent, with no properties and the
   * given type, event and timestamp flag; no existing entry and no other key changes; and a
   * repeated call changes nothing.
   */
  lemma CreateSpec(s: State, c: string, baseType: Option<string>, event: Option<string>, timestamp: bool)
    ensures var r := Exec(s, Create(c, baseType, event, timestamp));
      c in r.classes && r.classes.Keys == s.classes.Keys + {c} &&
      (forall k :: k in s.classes ==> r.classes[k] == s.classes[k]) &&
      (c !in s.classes ==> r.classes[c] == JournalClass(c, baseType, event, timestamp, []) && r.order == s.order + [c]) &&
      (c in s.classes ==> r == s) &&
      r.connections == s.connections &&
      Exec(r, Create(c, baseType, event, timestamp)) == r
  {
  }

  lemma RunOne(s: State, op: Op)
    requires !op.Throw?
    ensures Run(s, [op]) == Outcome(Exec(s, op), None)
  {
    assert [op][..0] == [];
  }

  lemma RunThrow(s: State, message: string)
    ensures Run(s, [Throw(message)]) == Outcome(s, Some(message))
  {
    assert [Throw(message)][..0] == [];
  }

  lemma RunTwo(s: State, a: Op, b: Op)
    requires !a.Throw? && !b.Throw?
    ensures Run(s, [a, b]) == Outcome(Exec(Exec(s, a), b), None)
  {
    assert [a, b][..1] == [a];
    RunOne(s, a);
  }
}
