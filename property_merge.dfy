/**
 * Merging a sequence of upserts into one property list, and why doing it a second time
 * changes nothing, however the upserts' types disagree with each other.
 */
module PropertyMerge {
  import opened Wrappers
  import opened JournalModel
  import opened MergePlan

  /** `MergeProperty` applied to each upsert in turn: properties are only ever appended, never renamed. */
  function MergeAll(props: seq<JournalProperty>, us: seq<Upsert>): (r: seq<JournalProperty>)
    ensures |props| <= |r|
    ensures forall k :: 0 <= k < |props| ==>
      r[k].name == props[k].name && r[k].description == props[k].description && r[k].accessors == props[k].accessors
    decreases |us|
  {
    if us == [] then props else MergeProperty(MergeAll(props, us[..|us| - 1]), us[|us| - 1])
  }

  /** Extending a list behind its end does not move the first occurrence of a name already in it. */
  lemma FindPropertyExtends(m: seq<JournalProperty>, l: seq<JournalProperty>, x: string)
    requires |m| <= |l| && forall k :: 0 <= k < |m| ==> l[k].name == m[k].name
    ensures FindProperty(m, x).Some? ==> FindProperty(l, x) == FindProperty(m, x)
    ensures forall q :: 0 <= q < |m| ==> (FindProperty(l, x) == Some(q) <==> FindProperty(m, x) == Some(q))
  {
    var fm, fl := FindProperty(m, x), FindProperty(l, x);
    if fm.Some? {
      assert l[fm.value].name == x;
    }
  }

  /** After merging, every upserted name is present in the list. */
  lemma {:induction false} MergeAllCovers(props: seq<JournalProperty>, us: seq<Upsert>)
    ensures forall k :: 0 <= k < |us| ==> FindProperty(MergeAll(props, us), us[k].name).Some?
    decreases |us|
  {
    if us != [] {
      var front := us[..|us| - 1];
      MergeAllCovers(props, front);
      var m := MergeAll(props, front);
      forall k | 0 <= k < |us| - 1
        ensures FindProperty(MergeAll(props, us), us[k].name).Some?
      {
        assert us[k] == front[k];
        FindPropertyExtends(m, MergeAll(props, us), us[k].name);
      }
    }
  }

  /** `Retype` applied to one property for each upsert in turn. */
  function RetypeAll(p: JournalProperty, us: seq<Upsert>): (r: JournalProperty)
    ensures r.name == p.name && r.description == p.description && r.accessors == p.accessors
    decreases |us|
  {
    if us == [] then p else Retype(RetypeAll(p, us[..|us| - 1]), us[|us| - 1])
  }

  /** The upserts that land on position `q` of `props`, in order. */
  function Targeting(us: seq<Upsert>, props: seq<JournalProperty>, q: nat): seq<Upsert>
    decreases |us|
  {
    if us == [] then []
    else
      Targeting(us[..|us| - 1], props, q)
        + (if FindProperty(props, us[|us| - 1].name) == Some(q) then [us[|us| - 1]] else [])
  }

  /** The last position at which the upserts' type differs from the one before it. */
  function LastChange(us: seq<Upsert>): (r: Option<nat>)
    ensures r.Some? ==> 0 < r.value < |us| && us[r.value].typeName != us[r.value - 1].typeName
    ensures r.Some? ==> forall k :: r.value <= k < |us| ==> us[k].typeName == us[|us| - 1].typeName
    ensures r.None? ==> forall k :: 0 <= k < |us| ==> us[k].typeName == us[0].typeName
    decreases |us|
  {
    if |us| < 2 then None
    else if us[|us| - 1].typeName != us[|us| - 2].typeName then Some(|us| - 1)
    else LastChange(us[..|us| - 1])
  }

  /** `p` already looks like the result of retyping with `us`: the last type, and the wire name of the last type change. */
  predicate Settled(p: JournalProperty, us: seq<Upsert>) {
    us == [] ||
    (p.typeName == us[|us| - 1].typeName &&
     (LastChange(us).Some? ==> p.jsonName == Some(us[LastChange(us).value].jsonName)))
  }

  lemma SettledStep(p: JournalProperty, us: seq<Upsert>, u: Upsert)
    requires Settled(p, us)
    ensures Settled(Retype(p, u), us + [u])
  {
    var vs := us + [u];
    assert vs[..|vs| - 1] == us;
    if us != [] && u.typeName == us[|us| - 1].typeName {
      assert LastChange(vs) == LastChange(us);
    }
  }

  lemma {:induction false} RetypeAllSettles(p: JournalProperty, us: seq<Upsert>)
    ensures Settled(RetypeAll(p, us), us)
    ensures us != [] && LastChange(us).None? ==> RetypeAll(p, us) == Retype(p, us[0])
    decreases |us|
  {
    if us != [] {
      var front := us[..|us| - 1];
      RetypeAllSettles(p, front);
      SettledStep(RetypeAll(p, front), front, us[|us| - 1]);
      assert front + [us[|us| - 1]] == us;
      if LastChange(us).None? && front != [] {
        assert LastChange(front).None?;
        assert front[0] == us[0];
      }
    }
  }

  /** A settled property is a fixpoint of retyping with the same upserts. */
  lemma SettledFixpoint(p: JournalProperty, us: seq<Upsert>)
    requires Settled(p, us)
    ensures RetypeAll(p, us) == p
  {
    if us != [] {
      RetypeAllSettles(p, us);
    }
  }

  lemma RetypeAllSnoc(p: JournalProperty, us: seq<Upsert>, u: Upsert)
    ensures RetypeAll(p, us + [u]) == Retype(RetypeAll(p, us), u)
  {
    assert (us + [u])[..|us|] == us;
  }

  /** A merge whose names are all present already only retypes, position by position. */
  lemma {:induction false} CoveredMerge(m: seq<JournalProperty>, us: seq<Upsert>)
    requires forall k :: 0 <= k < |us| ==> FindProperty(m, us[k].name).Some?
    ensures |MergeAll(m, us)| == |m|
    ensures forall q :: 0 <= q < |m| ==> MergeAll(m, us)[q] == RetypeAll(m[q], Targeting(us, m, q))
    decreases |us|
  {
    if us != [] {
      var front, u := us[..|us| - 1], us[|us| - 1];
      assert forall k :: 0 <= k < |front| ==> front[k] == us[k];
      CoveredMerge(m, front);
      var m' := MergeAll(m, front);
      FindPropertyExtends(m, m', u.name);
      var j := FindProperty(m, u.name).value;
      var r := m'[j := Retype(m'[j], u)];
      assert MergeAll(m, us) == r;
      forall q | 0 <= q < |m|
        ensures r[q] == RetypeAll(m[q], Targeting(us, m, q))
      {
        if q == j {
          assert Targeting(us, m, q) == Targeting(front, m, q) + [u];
          RetypeAllSnoc(m[q], Targeting(front, m, q), u);
        } else {
          assert Targeting(us, m, q) == Targeting(front, m, q);
        }
      }
    }
  }

  /** Every position of `l` is settled with respect to the upserts of `us` that land on it. */
  predicate AllSettled(l: seq<JournalProperty>, us: seq<Upsert>) {
    forall q :: 0 <= q < |l| ==> Settled(l[q], Targeting(us, l, q))
  }

  /** After one merge, every position is settled with respect to the upserts that land on it. */
  lemma {:induction false} FirstMergeSettles(props: seq<JournalProperty>, us: seq<Upsert>)
    ensures AllSettled(MergeAll(props, us), us)
    decreases |us|
  {
    if us != [] {
      var front, u := us[..|us| - 1], us[|us| - 1];
      FirstMergeSettles(props, front);
      MergeAllCovers(props, front);
      var m := MergeAll(props, front);
      assert front + [u] == us;
      if FindProperty(m, u.name).Some? {
        SettledAfterRetype(m, front, u);
      } else {
        SettledAfterAppend(m, front, u);
      }
    }
  }

  lemma SettledAfterRetype(m: seq<JournalProperty>, front: seq<Upsert>, u: Upsert)
    requires AllSettled(m, front) && FindProperty(m, u.name).Some?
    ensures AllSettled(MergeProperty(m, u), front + [u])
  {
    var us := front + [u];
    assert us[..|us| - 1] == front;
    var j := FindProperty(m, u.name).value;
    var l := MergeProperty(m, u);
    assert l == m[j := Retype(m[j], u)];
    FindPropertyExtends(m, l, u.name);
    forall q | 0 <= q < |l|
      ensures Settled(l[q], Targeting(us, l, q))
    {
      TargetingExtends(front, m, l, q);
      if q == j {
        assert Targeting(us, l, q) == Targeting(front, m, q) + [u];
        SettledStep(m[j], Targeting(front, m, j), u);
      } else {
        assert Targeting(us, l, q) == Targeting(front, m, q);
      }
    }
  }

  lemma SettledAfterAppend(m: seq<JournalProperty>, front: seq<Upsert>, u: Upsert)
    requires AllSettled(m, front) && FindProperty(m, u.name).None?
    requires forall k :: 0 <= k < |front| ==> FindProperty(m, front[k].name).Some?
    ensures AllSettled(MergeProperty(m, u), front + [u])
  {
    var l := MergeProperty(m, u);
    assert l[..|m| + 1] == m + [NewProperty(u)];
    assert l[|m|] == NewProperty(u);
    assert FindProperty(l, u.name) == Some(|m|);
    forall q | 0 <= q < |l|
      ensures Settled(l[q], Targeting(front + [u], l, q))
    {
      SettledAfterAppendAt(m, front, u, l, q);
    }
  }

  lemma SettledAfterAppendAt(m: seq<JournalProperty>, front: seq<Upsert>, u: Upsert, l: seq<JournalProperty>, q: nat)
    requires AllSettled(m, front)
    requires forall k :: 0 <= k < |front| ==> FindProperty(m, front[k].name).Some?
    requires |m| < |l| && forall k :: 0 <= k < |m| ==> l[k].name == m[k].name && l[k] == m[k]
    requires l[|m|] == NewProperty(u) && FindProperty(l, u.name) == Some(|m|)
    requires q < |l|
    ensures Settled(l[q], Targeting(front + [u], l, q))
  {
    var us := front + [u];
    assert us[..|us| - 1] == front;
    if q < |m| {
      TargetingExtends(front, m, l, q);
      assert Targeting(us, l, q) == Targeting(front, m, q);
    } else {
      TargetingBeyond(front, m, l, q);
      assert Targeting(us, l, q) == (if q == |m| then [u] else []);
    }
  }

  lemma {:induction false} TargetingExtends(us: seq<Upsert>, m: seq<JournalProperty>, l: seq<JournalProperty>, q: nat)
    requires |m| <= |l| && forall k :: 0 <= k < |m| ==> l[k].name == m[k].name
    requires q < |m|
    ensures Targeting(us, l, q) == Targeting(us, m, q)
    decreases |us|
  {
    if us != [] {
      TargetingExtends(us[..|us| - 1], m, l, q);
      FindPropertyExtends(m, l, us[|us| - 1].name);
    }
  }

  /** Upserts whose names are all in `m` land nowhere beyond `m` in an extension of it. */
  lemma {:induction false} TargetingBeyond(us: seq<Upsert>, m: seq<JournalProperty>, l: seq<JournalProperty>, q: nat)
    requires |m| <= |l| && forall k :: 0 <= k < |m| ==> l[k].name == m[k].name
    requires forall k :: 0 <= k < |us| ==> FindProperty(m, us[k].name).Some?
    requires |m| <= q
    ensures Targeting(us, l, q) == []
    decreases |us|
  {
    if us != [] {
      var front := us[..|us| - 1];
      assert forall k :: 0 <= k < |front| ==> front[k] == us[k];
      TargetingBeyond(front, m, l, q);
      FindPropertyExtends(m, l, us[|us| - 1].name);
    }
  }

  /** Merging the same upserts a second time leaves the list as the first merge made it. */
  lemma MergeAllIdempotent(props: seq<JournalProperty>, us: seq<Upsert>)
    ensures MergeAll(MergeAll(props, us), us) == MergeAll(props, us)
  {
    var l := MergeAll(props, us);
    MergeAllCovers(props, us);
    CoveredMerge(l, us);
    FirstMergeSettles(props, us);
    forall q | 0 <= q < |l|
      ensures MergeAll(l, us)[q] == l[q]
    {
      SettledFixpoint(l[q], Targeting(us, l, q));
    }
  }
}
