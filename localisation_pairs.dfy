/**
 * The effect of `UpdateLocalisedString` on a class with any number of localised properties.
 * When no base property is shared and no renamed `<base>Id` collides with another base name,
 * the pass never throws: each localised property with a base property takes the base's
 * name, that base property becomes `<base>Id`, and each localised property without one is
 * reported, in list order.
 */
module LocalisationPairs {
  import opened Wrappers
  import opened JournalModel
  import opened Localisation

  /** Position `k` holds a localised property whose base property occurs exactly once. */
  predicate Paired(props: seq<JournalProperty>, k: nat)
    requires k < |props|
  {
    IsLocalisedName(props[k].name) && CountNamed(props, BaseName(props[k].name)) == 1
  }

  /**
   * No `SingleOrDefault` can throw and no rename can create a new pairing: each base name
   * occurs at most once, two pairs never share a base, and no base is another pair's base + "Id".
   */
  predicate Unambiguous(props: seq<JournalProperty>) {
    (forall k :: 0 <= k < |props| && IsLocalisedName(props[k].name) ==>
       CountNamed(props, BaseName(props[k].name)) <= 1) &&
    (forall k1, k2 :: 0 <= k1 < |props| && 0 <= k2 < |props| && k1 != k2 && Paired(props, k1) && Paired(props, k2) ==>
       BaseName(props[k1].name) != BaseName(props[k2].name)) &&
    (forall k1, k2 :: 0 <= k1 < |props| && 0 <= k2 < |props| && IsLocalisedName(props[k1].name) && Paired(props, k2) ==>
       BaseName(props[k1].name) != BaseName(props[k2].name) + "Id")
  }

  /** The base names of the pairs before position `i`. */
  function PairedBases(props: seq<JournalProperty>, i: nat): set<string> {
    set k | 0 <= k < i && k < |props| && Paired(props, k) :: BaseName(props[k].name)
  }

  /** Property `k` once the pass has handled the positions before `i`. */
  function RenameAt(props: seq<JournalProperty>, i: nat, k: nat): JournalProperty
    requires k < |props|
  {
    if k < i && Paired(props, k) then props[k].(name := BaseName(props[k].name))
    else if !IsLocalisedName(props[k].name) && props[k].name in PairedBases(props, i) then props[k].(name := props[k].name + "Id")
    else props[k]
  }

  /** The properties once the pass has handled the positions before `i`. */
  function Progress(props: seq<JournalProperty>, i: nat): (r: seq<JournalProperty>)
    ensures |r| == |props|
  {
    seq(|props|, k requires 0 <= k < |props| => RenameAt(props, i, k))
  }

  /** The properties after the whole pass. */
  function Renamed(props: seq<JournalProperty>): (r: seq<JournalProperty>)
    ensures |r| == |props|
  {
    Progress(props, |props|)
  }

  /** The orphan errors of the localised properties from position `i` on, in list order. */
  function Orphans(className: string, props: seq<JournalProperty>, i: nat): seq<string>
    decreases |props| - i
  {
    if i >= |props| then []
    else if IsLocalisedName(props[i].name) && CountNamed(props, BaseName(props[i].name)) == 0
    then [OrphanMessage(className, props[i].name)] + Orphans(className, props, i + 1)
    else Orphans(className, props, i + 1)
  }

  /** One position with the name and no other: the name is counted once. */
  lemma {:induction false} CountUnique(props: seq<JournalProperty>, name: string, j: nat)
    requires j < |props| && props[j].name == name
    requires forall k :: 0 <= k < |props| && k != j ==> props[k].name != name
    ensures CountNamed(props, name) == 1
    decreases |props|
  {
    var front := props[..|props| - 1];
    assert forall k :: 0 <= k < |front| ==> front[k] == props[k];
    if j < |front| {
      CountUnique(front, name, j);
    } else {
      assert CountNamed(front, name) == 0;
    }
  }

  /** A lone name is found at its own position. */
  lemma FindUnique(props: seq<JournalProperty>, name: string, j: nat)
    requires j < |props| && props[j].name == name
    requires forall k :: 0 <= k < |props| && k != j ==> props[k].name != name
    ensures FindProperty(props, name) == Some(j)
  {
  }

  /** A base name is never itself a localised name. */
  lemma BaseNotLocalised(name: string)
    requires IsLocalisedName(name)
    ensures !IsLocalisedName(BaseName(name))
  {
    NoUnderscoreNotLocalised(BaseName(name));
  }

  /** Nothing is handled yet at position 0. */
  lemma ProgressStart(props: seq<JournalProperty>)
    ensures Progress(props, 0) == props
  {
    assert PairedBases(props, 0) == {};
  }

  /** Passing a position that is not a pair changes nothing. */
  lemma ProgressSkip(props: seq<JournalProperty>, i: nat)
    requires i < |props| && !Paired(props, i)
    ensures Progress(props, i + 1) == Progress(props, i)
  {
    assert PairedBases(props, i + 1) == PairedBases(props, i);
  }

  /** Handling pair `i` with base property `j` renames exactly those two. */
  lemma ProgressPair(props: seq<JournalProperty>, i: nat, j: nat)
    requires i < |props| && Paired(props, i)
    requires j < |props| && props[j].name == BaseName(props[i].name)
    requires Unambiguous(props)
    ensures var cur := Progress(props, i);
      var base := BaseName(props[i].name);
      Progress(props, i + 1) == cur[j := cur[j].(name := base + "Id")][i := cur[i].(name := base)]
  {
    var base := BaseName(props[i].name);
    var cur := Progress(props, i);
    assert PairedBases(props, i + 1) == PairedBases(props, i) + {base};
    BaseNotLocalised(props[i].name);
    assert base !in PairedBases(props, i);
    var next := cur[j := cur[j].(name := base + "Id")][i := cur[i].(name := base)];
    forall k | 0 <= k < |props|
      ensures Progress(props, i + 1)[k] == next[k]
    {
      if k != i && k != j && props[k].name == base {
        CountIsOne(props, base, j, k);
      }
    }
  }

  /** While pair `i` is visited, its base name occurs exactly once, at the base property. */
  lemma PairCountedOnce(props: seq<JournalProperty>, i: nat, j: nat)
    requires i < |props| && Paired(props, i)
    requires j < |props| && props[j].name == BaseName(props[i].name)
    requires Unambiguous(props)
    ensures forall k :: 0 <= k < |props| && k != j ==> Progress(props, i)[k].name != BaseName(props[i].name)
    ensures Progress(props, i)[j].name == BaseName(props[i].name)
  {
    var base := BaseName(props[i].name);
    var cur := Progress(props, i);
    BaseNotLocalised(props[i].name);
    assert base !in PairedBases(props, i);
    forall k | 0 <= k < |props| && k != j
      ensures cur[k].name != base
    {
      if k < i && Paired(props, k) {
      } else if !IsLocalisedName(props[k].name) && props[k].name in PairedBases(props, i) {
        var m :| 0 <= m < i && m < |props| && Paired(props, m) && BaseName(props[m].name) == props[k].name;
      } else if props[k].name == base {
        CountIsOne(props, base, j, k);
      }
    }
  }

  /** While orphan `i` is visited, no property carries its base name. */
  lemma OrphanCountedNever(props: seq<JournalProperty>, i: nat)
    requires i < |props| && IsLocalisedName(props[i].name) && CountNamed(props, BaseName(props[i].name)) == 0
    requires Unambiguous(props)
    ensures forall k :: 0 <= k < |props| ==> Progress(props, i)[k].name != BaseName(props[i].name)
  {
    var base := BaseName(props[i].name);
    var cur := Progress(props, i);
    BaseNotLocalised(props[i].name);
    forall k | 0 <= k < |props|
      ensures cur[k].name != base
    {
      if k < i && Paired(props, k) {
        assert CountNamed(props, BaseName(props[k].name)) == 1;
      } else if !IsLocalisedName(props[k].name) && props[k].name in PairedBases(props, i) {
        var m :| 0 <= m < i && m < |props| && Paired(props, m) && BaseName(props[m].name) == props[k].name;
      }
    }
  }

  /** A position without a localised name is passed over. */
  lemma {:induction false} StepSkip(className: string, props: seq<JournalProperty>, i: nat, found: seq<string>)
    requires Unambiguous(props) && i < |props| && !IsLocalisedName(props[i].name)
    ensures LocaliseFrom(className, Progress(props, i), i, found) ==
            LocaliseFrom(className, Progress(props, i + 1), i + 1, found)
  {
    IdNameNotLocalised(props[i].name);
    assert !IsLocalisedName(Progress(props, i)[i].name);
    ProgressSkip(props, i);
  }

  /** An orphan is reported and left as it is. */
  lemma {:induction false} StepOrphan(className: string, props: seq<JournalProperty>, i: nat, found: seq<string>)
    requires Unambiguous(props) && i < |props| && IsLocalisedName(props[i].name)
    requires CountNamed(props, BaseName(props[i].name)) == 0
    ensures LocaliseFrom(className, Progress(props, i), i, found) ==
            LocaliseFrom(className, Progress(props, i + 1), i + 1, found + [OrphanMessage(className, props[i].name)])
  {
    var cur := Progress(props, i);
    assert cur[i] == props[i];
    OrphanCountedNever(props, i);
    assert CountNamed(cur, BaseName(props[i].name)) == 0;
    ProgressSkip(props, i);
  }

  /** A pair is renamed. */
  lemma {:induction false} StepPair(className: string, props: seq<JournalProperty>, i: nat, found: seq<string>)
    requires Unambiguous(props) && i < |props| && IsLocalisedName(props[i].name)
    requires CountNamed(props, BaseName(props[i].name)) != 0
    ensures LocaliseFrom(className, Progress(props, i), i, found) ==
            LocaliseFrom(className, Progress(props, i + 1), i + 1, found)
  {
    var cur := Progress(props, i);
    var base := BaseName(props[i].name);
    assert cur[i] == props[i];
    var j :| 0 <= j < |props| && props[j].name == base;
    PairCountedOnce(props, i, j);
    CountUnique(cur, base, j);
    FindUnique(cur, base, j);
    ProgressPair(props, i, j);
  }

  /** The errors found once position `i` has been visited. */
  function FoundAfter(className: string, props: seq<JournalProperty>, i: nat, found: seq<string>): (r: seq<string>)
    requires i < |props|
    ensures r == found || r == found + [OrphanMessage(className, props[i].name)]
  {
    if IsLocalisedName(props[i].name) && CountNamed(props, BaseName(props[i].name)) == 0
    then found + [OrphanMessage(className, props[i].name)]
    else found
  }

  /** The errors found at position `i` come before those found after it. */
  lemma OrphansStep(className: string, props: seq<JournalProperty>, i: nat, found: seq<string>)
    requires i < |props|
    ensures FoundAfter(className, props, i, found) + Orphans(className, props, i + 1) == found + Orphans(className, props, i)
  {
    var rest := Orphans(className, props, i + 1);
    if IsLocalisedName(props[i].name) && CountNamed(props, BaseName(props[i].name)) == 0 {
      var msg := OrphanMessage(className, props[i].name);
      assert Orphans(className, props, i) == [msg] + rest;
      assert found + [msg] + rest == found + ([msg] + rest);
    } else {
      assert Orphans(className, props, i) == rest;
    }
  }

  /** One position of the pass, whatever it holds. */
  lemma {:induction false} Step(className: string, props: seq<JournalProperty>, i: nat, found: seq<string>)
    requires Unambiguous(props) && i < |props|
    ensures LocaliseFrom(className, Progress(props, i), i, found) ==
            LocaliseFrom(className, Progress(props, i + 1), i + 1, FoundAfter(className, props, i, found))
  {
    if !IsLocalisedName(props[i].name) {
      StepSkip(className, props, i, found);
    } else if CountNamed(props, BaseName(props[i].name)) == 0 {
      StepOrphan(className, props, i, found);
    } else {
      StepPair(className, props, i, found);
    }
  }

  /** Past the last position the pass is done: the renamed properties and the orphans found. */
  lemma {:induction false} LocaliseEnd(className: string, props: seq<JournalProperty>, found: seq<string>)
    ensures LocaliseFrom(className, Progress(props, |props|), |props|, found) ==
            Localised(Renamed(props), found + Orphans(className, props, |props|), false)
  {
    assert found + [] == found;
  }

  /** The outcome from position `i` is the outcome from `i + 1` once position `i` is visited. */
  lemma {:induction false} LocaliseStep(className: string, props: seq<JournalProperty>, i: nat, found: seq<string>)
    requires Unambiguous(props) && i < |props|
    requires LocaliseFrom(className, Progress(props, i + 1), i + 1, FoundAfter(className, props, i, found)) ==
             Localised(Renamed(props), FoundAfter(className, props, i, found) + Orphans(className, props, i + 1), false)
    ensures LocaliseFrom(className, Progress(props, i), i, found) ==
            Localised(Renamed(props), found + Orphans(className, props, i), false)
  {
    Step(className, props, i, found);
    OrphansStep(className, props, i, found);
  }

  /** The pass from position `i` on, started from the properties as the earlier positions left them. */
  lemma {:induction false} LocaliseProgress(className: string, props: seq<JournalProperty>, i: nat, found: seq<string>)
    requires Unambiguous(props) && i <= |props|
    ensures LocaliseFrom(className, Progress(props, i), i, found) ==
            Localised(Renamed(props), found + Orphans(className, props, i), false)
    decreases |props| - i, 1
  {
    if i == |props| {
      LocaliseEnd(className, props, found);
    } else {
      LocaliseProgressStep(className, props, i, found);
    }
  }

  /** `LocaliseProgress` at a position before the end. */
  lemma {:induction false} LocaliseProgressStep(className: string, props: seq<JournalProperty>, i: nat, found: seq<string>)
    requires Unambiguous(props) && i < |props|
    ensures LocaliseFrom(className, Progress(props, i), i, found) ==
            Localised(Renamed(props), found + Orphans(className, props, i), false)
    decreases |props| - i, 0
  {
    LocaliseProgress(className, props, i + 1, FoundAfter(className, props, i, found));
    LocaliseStep(className, props, i, found);
  }

  /**
   * A class with any number of localised properties and no ambiguous names: every pair is
   * renamed (`X` to `XId`, `X_Localised` to `X`), every other property is unchanged, each
   * orphan is reported once in list order, and the pass does not throw.
   */
  lemma LocaliseUnambiguous(className: string, props: seq<JournalProperty>)
    requires Unambiguous(props)
    ensures LocaliseFrom(className, props, 0, []) == Localised(Renamed(props), Orphans(className, props, 0), false)
  {
    ProgressStart(props);
    LocaliseProgress(className, props, 0, []);
  }
}
