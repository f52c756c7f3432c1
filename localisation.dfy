/**
 * `UpdateLocalisedString`: every property whose name ends in "_Localised" (ignoring case)
 * takes over the name of its base property (the part of its name before the first '_'),
 * and the base property is renamed to base + "Id". A localised property without a base
 * property yields an orphan error; more than one base property makes `SingleOrDefault` throw.
 * Properties are visited in list order and each one's name is tested when it is reached.
 */
module Localisation {
  import opened Wrappers
  import opened Text
  import opened JournalModel

  const LocalisedSuffix: string := "_Localised"

  predicate IsLocalisedName(name: string) {
    EndsWithIgnoreCase(name, LocalisedSuffix)
  }

  lemma UpperIsUnderscore(c: char)
    requires UpperAscii(c) == '_'
    ensures c == '_'
  {
  }

  /** A localised name contains '_', so its base name always exists. */
  lemma LocalisedNameHasUnderscore(name: string)
    requires IsLocalisedName(name)
    ensures IndexOf(name, '_').Some?
  {
    var k := |name| - |LocalisedSuffix|;
    assert UpperAscii(name[k..][0]) == UpperAscii(LocalisedSuffix[0]);
    UpperIsUnderscore(name[k]);
    assert '_' in name;
  }

  /** The prefix before the first '_': `name.Substring(0, name.IndexOf("_"))`. */
  function BaseName(name: string): (r: string)
    requires IsLocalisedName(name)
    ensures |r| < |name| && r == name[..|r|] && name[|r|] == '_'
    ensures '_' !in r
  {
    LocalisedNameHasUnderscore(name);
    name[..IndexOf(name, '_').value]
  }

  /** A name without '_' is never a localised name. */
  lemma NoUnderscoreNotLocalised(name: string)
    requires '_' !in name
    ensures !IsLocalisedName(name)
  {
    if IsLocalisedName(name) {
      LocalisedNameHasUnderscore(name);
    }
  }

  /** A name ending in "Id" is never a localised name. */
  lemma IdNameNotLocalised(name: string)
    ensures !IsLocalisedName(name + "Id")
  {
    var s := name + "Id";
    if |LocalisedSuffix| <= |s| {
      var k := |s| - |LocalisedSuffix|;
      assert s[k..][8] == 'I';
    }
  }

  /** How many properties are called `name`. */
  function CountNamed(props: seq<JournalProperty>, name: string): (n: nat)
    ensures n <= |props|
    ensures n == 0 <==> forall k :: 0 <= k < |props| ==> props[k].name != name
    decreases |props|
  {
    if props == [] then 0
    else CountNamed(props[..|props| - 1], name) + (if props[|props| - 1].name == name then 1 else 0)
  }

  /** The outcome of localising one class: its properties, the orphan errors, and whether `SingleOrDefault` threw. */
  datatype Localised = Localised(properties: seq<JournalProperty>, errors: seq<string>, crashed: bool)

  function OrphanMessage(className: string, propertyName: string): string {
    className + " has orphan localised property " + propertyName
  }

  /** Renames that keep only the names of properties apart from the original's. */
  predicate OnlyNamesChanged(before: seq<JournalProperty>, after: seq<JournalProperty>) {
    |after| == |before| && forall k :: 0 <= k < |before| ==> after[k] == before[k].(name := after[k].name)
  }

  /**
   * The loop of `UpdateLocalisedString` from position `i` on, with the orphan errors `found`
   * already reported by the earlier positions.
   */
  function LocaliseFrom(className: string, props: seq<JournalProperty>, i: nat, found: seq<string>): (r: Localised)
    ensures |r.properties| == |props|
    ensures |found| <= |r.errors|
    decreases |props| - i
  {
    if i >= |props| then Localised(props, found, false)
    else if !IsLocalisedName(props[i].name) then LocaliseFrom(className, props, i + 1, found)
    else
      var base := BaseName(props[i].name);
      var n := CountNamed(props, base);
      if n == 0 then LocaliseFrom(className, props, i + 1, found + [OrphanMessage(className, props[i].name)])
      else if n > 1 then Localised(props, found, true)
      else
        var j := FindProperty(props, base).value;
        var renamed := props[j := props[j].(name := base + "Id")][i := props[i].(name := base)];
        LocaliseFrom(className, renamed, i + 1, found)
  }

  /** Localisation renames properties and changes nothing else about them. */
  lemma {:induction false} LocaliseFromShape(className: string, props: seq<JournalProperty>, i: nat, found: seq<string>)
    ensures OnlyNamesChanged(props, LocaliseFrom(className, props, i, found).properties)
    decreases |props| - i
  {
    if i < |props| && IsLocalisedName(props[i].name) {
      var base := BaseName(props[i].name);
      var n := CountNamed(props, base);
      if n == 0 {
        LocaliseFromShape(className, props, i + 1, found + [OrphanMessage(className, props[i].name)]);
      } else if n == 1 {
        var j := FindProperty(props, base).value;
        var renamed := props[j := props[j].(name := base + "Id")][i := props[i].(name := base)];
        LocaliseFromShape(className, renamed, i + 1, found);
        assert OnlyNamesChanged(props, renamed);
      }
    } else if i < |props| {
      LocaliseFromShape(className, props, i + 1, found);
    }
  }

  /** Positions without a localised name are passed over. */
  lemma {:induction false} LocaliseSkips(className: string, props: seq<JournalProperty>, i: nat, i': nat, found: seq<string>)
    requires i <= i' <= |props|
    requires forall k :: i <= k < i' ==> !IsLocalisedName(props[k].name)
    ensures LocaliseFrom(className, props, i, found) == LocaliseFrom(className, props, i', found)
    decreases i' - i
  {
    if i < i' {
      LocaliseSkips(className, props, i + 1, i', found);
    }
  }

  /** A class with no localised property is left exactly as it is, without errors. */
  lemma LocaliseNothing(className: string, props: seq<JournalProperty>)
    requires forall k :: 0 <= k < |props| ==> !IsLocalisedName(props[k].name)
    ensures LocaliseFrom(className, props, 0, []) == Localised(props, [], false)
  {
    LocaliseSkips(className, props, 0, |props|, []);
  }

  /** Exactly one localised property, whose base property occurs exactly once: the two are renamed. */
  lemma LocalisePair(className: string, props: seq<JournalProperty>, i: nat, j: nat)
    requires i < |props| && IsLocalisedName(props[i].name)
    requires forall k :: 0 <= k < |props| && k != i ==> !IsLocalisedName(props[k].name)
    requires j < |props| && props[j].name == BaseName(props[i].name)
    requires CountNamed(props, props[j].name) == 1
    ensures var base := BaseName(props[i].name);
      LocaliseFrom(className, props, 0, []) ==
        Localised(props[j := props[j].(name := base + "Id")][i := props[i].(name := base)], [], false)
  {
    var base := BaseName(props[i].name);
    LocaliseSkips(className, props, 0, i, []);
    var j' := FindProperty(props, base).value;
    assert j' == j by {
      CountIsOne(props, base, j, j');
    }
    var renamed := props[j := props[j].(name := base + "Id")][i := props[i].(name := base)];
    IdNameNotLocalised(base);
    forall k | i + 1 <= k < |renamed|
      ensures !IsLocalisedName(renamed[k].name)
    {
    }
    LocaliseSkips(className, renamed, i + 1, |renamed|, []);
  }

  /** Two positions with the same name, when only one property has it, are the same position. */
  lemma {:induction false} CountIsOne(props: seq<JournalProperty>, name: string, j: nat, j': nat)
    requires CountNamed(props, name) == 1
    requires j < |props| && j' < |props| && props[j].name == name && props[j'].name == name
    ensures j == j'
    decreases |props|
  {
    var front := props[..|props| - 1];
    assert forall k :: 0 <= k < |front| ==> front[k] == props[k];
    if j < |front| && j' < |front| {
      CountIsOne(front, name, j, j');
    }
  }

  /** Exactly one localised property and no base property: one orphan error, nothing renamed. */
  lemma LocaliseOrphan(className: string, props: seq<JournalProperty>, i: nat)
    requires i < |props| && IsLocalisedName(props[i].name)
    requires forall k :: 0 <= k < |props| && k != i ==> !IsLocalisedName(props[k].name)
    requires forall k :: 0 <= k < |props| ==> props[k].name != BaseName(props[i].name)
    ensures LocaliseFrom(className, props, 0, []) == Localised(props, [OrphanMessage(className, props[i].name)], false)
  {
    LocaliseSkips(className, props, 0, i, []);
    LocaliseSkips(className, props, i + 1, |props|, [] + [OrphanMessage(className, props[i].name)]);
  }

  /** A localised property whose base name is carried by two properties makes the localisation throw. */
  lemma LocaliseAmbiguous(className: string, props: seq<JournalProperty>, i: nat, j1: nat, j2: nat)
    requires i < |props| && IsLocalisedName(props[i].name)
    requires forall k :: 0 <= k < i ==> !IsLocalisedName(props[k].name)
    requires j1 < j2 < |props| && props[j1].name == BaseName(props[i].name) && props[j2].name == props[j1].name
    ensures LocaliseFrom(className, props, 0, []).crashed
  {
    LocaliseSkips(className, props, 0, i, []);
    if CountNamed(props, props[j1].name) == 1 {
      CountIsOne(props, props[j1].name, j1, j2);
    }
  }

  /** The errors reported before the loop reaches position `i` stay at the head of the errors it ends with. */
  lemma {:induction false} LocaliseKeepsFound(className: string, props: seq<JournalProperty>, i: nat, found: seq<string>)
    ensures var r := LocaliseFrom(className, props, i, found);
      |found| <= |r.errors| && r.errors[..|found|] == found
    decreases |props| - i
  {
    if i < |props| && IsLocalisedName(props[i].name) {
      var base := BaseName(props[i].name);
      var n := CountNamed(props, base);
      if n == 0 {
        var more := found + [OrphanMessage(className, props[i].name)];
        LocaliseKeepsFound(className, props, i + 1, more);
        assert more[..|found|] == found;
      } else if n == 1 {
        var j := FindProperty(props, base).value;
        var renamed := props[j := props[j].(name := base + "Id")][i := props[i].(name := base)];
        LocaliseKeepsFound(className, renamed, i + 1, found);
      }
    } else if i < |props| {
      LocaliseKeepsFound(className, props, i + 1, found);
    }
  }

  /** What the output loop produces: the classes output so far, the orphan errors, and whether it threw. */
  datatype Emitted = Emitted(classes: seq<JournalClass>, errors: seq<string>, crashed: bool)

  /**
   * `UpdateLocalisedString` then `OutputClass` for each class from position `k` on, ending at the
   * first exception; `emitted` and `errors` are what the classes before `k` produced.
   */
  function LocaliseAllFrom(classes: seq<JournalClass>, k: nat, emitted: seq<JournalClass>, errors: seq<string>): (r: Emitted)
    ensures k <= |classes| ==>
      |emitted| <= |r.classes| <= |emitted| + (|classes| - k) &&
      (!r.crashed ==> |r.classes| == |emitted| + (|classes| - k))
    decreases |classes| - k
  {
    if k >= |classes| then Emitted(emitted, errors, false)
    else
      var loc := LocaliseFrom(classes[k].name, classes[k].properties, 0, []);
      if loc.crashed then Emitted(emitted, errors + loc.errors, true)
      else LocaliseAllFrom(classes, k + 1, emitted + [classes[k].(properties := loc.properties)], errors + loc.errors)
  }

  /** The closing loop of the generator over all classes: at most one output per class, all of them unless one throws. */
  function LocaliseAll(classes: seq<JournalClass>): (r: Emitted)
    ensures |r.classes| <= |classes|
    ensures !r.crashed ==> |r.classes| == |classes|
  {
    LocaliseAllFrom(classes, 0, [], [])
  }

  /** Each class in `out` is the class at the same position of `classes` with only property names changed. */
  predicate RenamedPrefix(classes: seq<JournalClass>, out: seq<JournalClass>) {
    |out| <= |classes| &&
    forall k :: 0 <= k < |out| ==>
      out[k].(properties := []) == classes[k].(properties := []) &&
      OnlyNamesChanged(classes[k].properties, out[k].properties)
  }

  lemma {:induction false} LocaliseAllFromShape(classes: seq<JournalClass>, k: nat, emitted: seq<JournalClass>,
                                                errors: seq<string>)
    requires k == |emitted| <= |classes| && RenamedPrefix(classes, emitted)
    ensures RenamedPrefix(classes, LocaliseAllFrom(classes, k, emitted, errors).classes)
    decreases |classes| - k
  {
    if k < |classes| {
      var loc := LocaliseFrom(classes[k].name, classes[k].properties, 0, []);
      if !loc.crashed {
        LocaliseFromShape(classes[k].name, classes[k].properties, 0, []);
        var more := emitted + [classes[k].(properties := loc.properties)];
        assert RenamedPrefix(classes, more);
        LocaliseAllFromShape(classes, k + 1, more, errors + loc.errors);
      }
    }
  }

  /** Each class output is the class at the same position with only property names changed. */
  lemma LocaliseAllShape(classes: seq<JournalClass>)
    ensures RenamedPrefix(classes, LocaliseAll(classes).classes)
  {
    LocaliseAllFromShape(classes, 0, [], []);
  }
}
