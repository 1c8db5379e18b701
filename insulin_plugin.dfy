/** The insulin registry (`InsulinPlugin`): the ordered list of configurations,
    the entry under edit and its detached working copy, label generation,
    find-or-create, validation, persistence of the list, and the guards of the
    insulin-on-board curve. */
module InsulinRegistry {
  import opened Wrappers
  import opened Seqs
  import opened Text
  import opened InsulinConfig
  import opened InsulinCatalogue
  import opened InsulinJson

  /** The HardLimits collaborator: peak bounds in minutes, DIA bounds in hours. */
  datatype HardLimits = HardLimits(minPeak: int, maxPeak: int, minDia: real, maxDia: real)

  /** How far the label generator counts suffixes (`for (i in 1..10000)`). */
  const LABEL_SEARCH_LIMIT := 10000

  /** Defaults of the preference keys `insulin_template` and `insulin_oref_peak`. */
  const DEFAULT_TEMPLATE_PREFERENCE: Int32 := 2
  const DEFAULT_PEAK_PREFERENCE: Int32 := 75

  /** The key of the configuration list in the persisted object. */
  const INSULINS_KEY := "insulins"

  // ---------------------------------------------------------------- limits

  predicate DiaInRange(c: ICfg, limits: HardLimits)
  {
    limits.minDia <= c.GetDia() as real / 10.0 <= limits.maxDia
  }

  predicate PeakInRange(c: ICfg, limits: HardLimits)
  {
    limits.minPeak <= c.GetPeak() <= limits.maxPeak
  }

  /** `isValid(testICfg)`: present, DIA within the DIA limits and peak within the peak limits. */
  predicate IsValid(limits: HardLimits, c: Option<ICfg>)
    ensures c.None? ==> !IsValid(limits, c)
    ensures IsValid(limits, c) ==> limits.minPeak <= limits.maxPeak && limits.minDia <= limits.maxDia
  {
    c.Some? && DiaInRange(c.value, limits) && PeakInRange(c.value, limits)
  }

  /** The hard-limit repair done before use: an out-of-range peak is replaced by the
      default peak, then an out-of-range DIA by the default DIA. A valid config is left
      alone, and in-range defaults always give a valid config. */
  function Clamp(c: ICfg, defaultPeak: Int32, defaultDia: int, limits: HardLimits): (r: ICfg)
    ensures r.insulinLabel == c.insulinLabel && r.insulinTemplate == c.insulinTemplate
    ensures IsValid(limits, Some(c)) ==> r == c
    ensures PeakInRange(c, limits) ==> r.insulinPeakTime == c.insulinPeakTime
    ensures DiaInRange(c, limits) ==> r.insulinEndTime == c.insulinEndTime
    ensures !PeakInRange(c, limits) ==> r.insulinPeakTime == ToInt32(defaultPeak * 60000)
    ensures !DiaInRange(c, limits) ==> r.insulinEndTime == defaultDia * 360000
  {
    var peaked := if PeakInRange(c, limits) then c else c.SetPeak(defaultPeak);
    if DiaInRange(peaked, limits) then peaked else peaked.SetDia(defaultDia)
  }

  /** With in-range defaults (a peak whose milliseconds fit an `Int`), the repair always
      yields a config `isValid` accepts. */
  lemma ClampIsValid(c: ICfg, defaultPeak: Int32, defaultDia: int, limits: HardLimits)
    requires limits.minPeak <= defaultPeak <= limits.maxPeak
    requires -MAX_EXACT_MINUTES <= defaultPeak <= MAX_EXACT_MINUTES
    requires limits.minDia <= defaultDia as real / 10.0 <= limits.maxDia
    ensures IsValid(limits, Some(Clamp(c, defaultPeak, defaultDia, limits)))
  {
  }

  // ---------------------------------------------------------------- lookups

  /** The first entry equivalent to `c`. */
  ghost function FirstEquivalent(list: seq<ICfg>, c: ICfg): (r: Option<nat>)
    ensures r.Some? ==> r.value < |list| && c.IsEqual(Some(list[r.value]))
    ensures r.Some? ==> forall k :: 0 <= k < r.value ==> !c.IsEqual(Some(list[k]))
    ensures r.None? <==> forall k :: 0 <= k < |list| ==> !c.IsEqual(Some(list[k]))
  {
    FirstIndex(list, (e: ICfg) => c.IsEqual(Some(e)))
  }

  /** An equivalent entry with none before it is the first equivalent entry. */
  lemma FirstEquivalentIs(list: seq<ICfg>, c: ICfg, i: nat)
    requires i < |list| && c.IsEqual(Some(list[i]))
    requires forall k :: 0 <= k < i ==> !c.IsEqual(Some(list[k]))
    ensures FirstEquivalent(list, c) == Some(i)
  {
    FirstIndexIs(list, (e: ICfg) => c.IsEqual(Some(e)), i);
  }

  /** The first entry carrying `name`. */
  ghost function FirstLabelled(list: seq<ICfg>, name: string): (r: Option<nat>)
    ensures r.Some? ==> r.value < |list| && list[r.value].insulinLabel == name
    ensures r.Some? ==> forall k :: 0 <= k < r.value ==> list[k].insulinLabel != name
    ensures r.None? <==> forall k :: 0 <= k < |list| ==> list[k].insulinLabel != name
  {
    FirstIndex(list, (e: ICfg) => e.insulinLabel == name)
  }

  /** `getDefaultPeak()`: the preferred template's peak, or the preferred peak for
      the free-peak template. */
  function DefaultPeakOf(preferredTemplate: Int32, preferredPeak: Int32): (peak: Int32)
    ensures preferredTemplate == OrefFreePeak.Value() ==> peak == preferredPeak
    ensures forall e: InsulinType :: e != OrefFreePeak && e.Value() == preferredTemplate ==> peak == e.Peak()
    ensures (forall e: InsulinType :: e.Value() != preferredTemplate) ==> peak == OrefRapidActing.Peak()
  {
    FromIntCases(preferredTemplate);
    var template := FromInt(preferredTemplate);
    if template == OrefFreePeak then preferredPeak else template.Peak()
  }

  /** The `iCfg` getter: the profile's config with its peak repaired, or the first
      entry when there is no profile. */
  function EffectiveICfg(list: seq<ICfg>, profile: Option<ICfg>, limits: HardLimits, defaultPeak: Int32): (c: ICfg)
    requires profile.Some? || |list| > 0
    ensures profile.None? ==> c == list[0]
    ensures profile.Some? ==>
              c.insulinLabel == profile.value.insulinLabel && c.insulinTemplate == profile.value.insulinTemplate
              && c.insulinEndTime == profile.value.insulinEndTime
    ensures profile.Some? && PeakInRange(profile.value, limits) ==> c == profile.value
    ensures profile.Some? && !PeakInRange(profile.value, limits) ==> c.insulinPeakTime == ToInt32(defaultPeak * 60000)
  {
    match profile
    case Some(p) => if PeakInRange(p, limits) then p else p.SetPeak(defaultPeak)
    case None => list[0]
  }

  /** `defaultInsulinIndex`: the first entry equivalent to the effective config, else 0. */
  ghost function DefaultIndexOf(list: seq<ICfg>, effective: ICfg): (i: nat)
    ensures |list| > 0 ==> i < |list|
    ensures i < |list| && list[i].IsEqual(Some(effective)) ==>
              forall k :: 0 <= k < i ==> !list[k].IsEqual(Some(effective))
    ensures (exists k :: 0 <= k < |list| && list[k].IsEqual(Some(effective))) ==> list[i].IsEqual(Some(effective))
    ensures (forall k :: 0 <= k < |list| ==> !list[k].IsEqual(Some(effective))) ==> i == 0
  {
    match FirstEquivalent(list, effective)
    case Some(i) => i
    case None => 0
  }

  /** `getDefaultDia()`: OREF_RAPID_ACTING's DIA for an empty list, else the DIA of the
      default entry. */
  ghost function DefaultDiaOf(list: seq<ICfg>, profile: Option<ICfg>, limits: HardLimits, defaultPeak: Int32): (dia: int)
    ensures |list| == 0 ==> dia == 60
    ensures |list| > 0 ==> exists k :: 0 <= k < |list| && dia == list[k].GetDia()
  {
    if |list| == 0 then OrefRapidActing.Dia()
    else list[DefaultIndexOf(list, EffectiveICfg(list, profile, limits, defaultPeak))].GetDia()
  }

  /** Without a profile the default entry is the first one. */
  lemma DefaultIndexWithoutProfile(list: seq<ICfg>, limits: HardLimits, defaultPeak: Int32)
    requires |list| > 0
    ensures DefaultIndexOf(list, EffectiveICfg(list, None, limits, defaultPeak)) == 0
  {
    assert list[0].IsEqual(Some(list[0]));
  }

  /** The default DIA is 6.0 hours for an empty list, the first entry's DIA without a
      profile, and the profile's own DIA whenever some entry is equivalent to it. */
  lemma DefaultDiaCases(list: seq<ICfg>, profile: Option<ICfg>, limits: HardLimits, defaultPeak: Int32)
    ensures |list| == 0 ==> DefaultDiaOf(list, profile, limits, defaultPeak) == 60
    ensures |list| > 0 && profile.None? ==> DefaultDiaOf(list, profile, limits, defaultPeak) == list[0].GetDia()
    ensures profile.Some? && (exists k :: 0 <= k < |list| && list[k].IsEqual(Some(EffectiveICfg(list, profile, limits, defaultPeak))))
            ==> DefaultDiaOf(list, profile, limits, defaultPeak) == profile.value.GetDia()
  {
    if |list| > 0 && profile.None? {
      DefaultIndexWithoutProfile(list, limits, defaultPeak);
    }
  }

  /** Storing a template-less, peak-valid config as the default (what `setDefault`
      writes) makes `getDefaultPeak()` answer that config's peak. */
  lemma SetDefaultMakesItsPeakTheDefault(c: ICfg)
    requires c.insulinTemplate == 0
    ensures DefaultPeakOf(FromPeak(c.insulinPeakTime).Value(), c.GetPeak()) == c.GetPeak()
  {
    var t := FromPeak(c.insulinPeakTime);
    FromIntOfValue(t);
    FromPeakMatches(c.insulinPeakTime);
  }

  /** With nothing stored yet, the preferences hold their defaults and the default
      peak is OREF_RAPID_ACTING's 75 minutes. */
  lemma DefaultPreferencesGiveRapidActingPeak()
    ensures FromInt(DEFAULT_TEMPLATE_PREFERENCE) == OrefRapidActing
    ensures DefaultPeakOf(DEFAULT_TEMPLATE_PREFERENCE, DEFAULT_PEAK_PREFERENCE) == OrefRapidActing.Peak() == 75
  {
    FromIntOfValue(OrefRapidActing);
  }

  // ---------------------------------------------------------------- labels

  /** Some entry other than the one at `exclude` carries `name`
      (`insulinLabelAlreadyExists`). */
  ghost predicate LabelTaken(list: seq<ICfg>, name: string, exclude: int)
  {
    exists i :: 0 <= i < |list| && i != exclude && list[i].insulinLabel == name
  }

  ghost predicate LabelsDistinct(list: seq<ICfg>)
  {
    forall i, j :: 0 <= i < j < |list| ==> list[i].insulinLabel != list[j].insulinLabel
  }

  ghost predicate LabelsNonEmpty(list: seq<ICfg>)
  {
    forall i :: 0 <= i < |list| ==> list[i].insulinLabel != ""
  }

  /** The label a template proposes: `<template name>_<peak>_<dia>` for the free-peak
      template, `<template name>_<dia>` for the others. */
  function BaseLabel(c: ICfg, template: InsulinType, names: InsulinType -> string): (s: string)
    ensures |s| > 0
  {
    if template == OrefFreePeak then names(template) + "_" + IntText(c.GetPeak()) + "_" + DiaText(c.GetDia())
    else names(template) + "_" + DiaText(c.GetDia())
  }

  /** The template that names a config: the one given, else the one matching its peak. */
  function LabelTemplate(c: ICfg, template: Option<InsulinType>): (t: InsulinType)
    ensures template.Some? ==> t == template.value
    ensures template.None? ==>
              t.Peak() == c.GetPeak() || (t == OrefFreePeak && forall e: InsulinType :: e.Peak() != c.GetPeak())
  {
    if template.Some? then template.value else FromPeak(c.insulinPeakTime)
  }

  /** The least suffix from `i` on whose label is free, or LABEL_SEARCH_LIMIT + 1. */
  ghost function FirstFreeSuffix(list: seq<ICfg>, base: string, exclude: int, i: int): (k: int)
    requires 1 <= i <= LABEL_SEARCH_LIMIT + 1
    ensures i <= k <= LABEL_SEARCH_LIMIT + 1
    ensures forall j :: i <= j < k ==> LabelTaken(list, Suffixed(base, j), exclude)
    ensures k <= LABEL_SEARCH_LIMIT ==> !LabelTaken(list, Suffixed(base, k), exclude)
    decreases LABEL_SEARCH_LIMIT + 1 - i
  {
    if i > LABEL_SEARCH_LIMIT || !LabelTaken(list, Suffixed(base, i), exclude) then i
    else
      var k := FirstFreeSuffix(list, base, exclude, i + 1);
      assert LabelTaken(list, Suffixed(base, i), exclude);
      k
  }

  /** The search of `createNewInsulinLabel`: the base when it is free, else `base_i` for
      the least free `i` in 1..10000, else the base unchanged. With at most 10000 entries
      the result is always free. */
  ghost function SearchLabel(list: seq<ICfg>, base: string, exclude: int): (name: string)
    ensures |name| >= |base|
    ensures !LabelTaken(list, base, exclude) ==> name == base
    ensures LabelTaken(list, base, exclude) ==>
              (name == base && forall j :: 1 <= j <= LABEL_SEARCH_LIMIT ==> LabelTaken(list, Suffixed(base, j), exclude))
              || (exists i :: 1 <= i <= LABEL_SEARCH_LIMIT && name == Suffixed(base, i)
                    && !LabelTaken(list, name, exclude)
                    && forall j :: 1 <= j < i ==> LabelTaken(list, Suffixed(base, j), exclude))
    ensures |LabelsOf(list, exclude)| <= LABEL_SEARCH_LIMIT ==> !LabelTaken(list, name, exclude)
    ensures |list| <= LABEL_SEARCH_LIMIT ==> !LabelTaken(list, name, exclude)
  {
    if !LabelTaken(list, base, exclude) then base
    else
      var k := FirstFreeSuffix(list, base, exclude, 1);
      NoLabelExhaustion(list, base, exclude);
      if k <= LABEL_SEARCH_LIMIT then Suffixed(base, k) else base
  }

  /** The labels of the entries other than the one at `exclude`. */
  ghost function LabelsOf(list: seq<ICfg>, exclude: int): (s: set<string>)
    ensures |s| <= |list|
  {
    if |list| == 0 then {}
    else
      LabelsOf(list[..|list| - 1], exclude)
        + (if |list| - 1 == exclude then {} else {list[|list| - 1].insulinLabel})
  }

  lemma {:induction false} LabelsOfTaken(list: seq<ICfg>, exclude: int, name: string)
    ensures name in LabelsOf(list, exclude) <==> LabelTaken(list, name, exclude)
    decreases |list|
  {
    if |list| > 0 {
      var init := list[..|list| - 1];
      LabelsOfTaken(init, exclude, name);
      if LabelTaken(init, name, exclude) {
        var i :| 0 <= i < |init| && i != exclude && init[i].insulinLabel == name;
        assert list[i] == init[i];
      }
      if LabelTaken(list, name, exclude) {
        var i :| 0 <= i < |list| && i != exclude && list[i].insulinLabel == name;
        if i < |list| - 1 {
          assert init[i] == list[i];
        }
      }
    }
  }

  /** The labels `base_1` .. `base_n`. */
  ghost function SuffixSet(base: string, n: nat): set<string>
  {
    if n == 0 then {} else SuffixSet(base, n - 1) + {Suffixed(base, n)}
  }

  lemma {:induction false} SuffixAbove(base: string, n: nat, m: nat)
    requires m > n
    ensures Suffixed(base, m) !in SuffixSet(base, n)
  {
    if n > 0 {
      SuffixedInjective(base, m, n);
      SuffixAbove(base, n - 1, m);
    }
  }

  lemma {:induction false} SuffixSetShape(base: string, n: nat)
    ensures |SuffixSet(base, n)| == n && base !in SuffixSet(base, n)
  {
    if n > 0 {
      SuffixSetShape(base, n - 1);
      SuffixAbove(base, n - 1, n);
    }
  }

  lemma {:induction false} SuffixSetWithin(base: string, n: nat, labels: set<string>)
    requires forall j :: 1 <= j <= n ==> Suffixed(base, j) in labels
    ensures SuffixSet(base, n) <= labels
  {
    if n > 0 {
      SuffixSetWithin(base, n - 1, labels);
    }
  }

  lemma SubsetSize<T>(a: set<T>, b: set<T>)
    requires a <= b
    ensures |a| <= |b|
  {
    assert b == a + (b - a);
  }

  /** A base label and all of its first `n` suffixed labels, all taken, make more than `n`
      distinct labels among the other entries. */
  lemma Exhaustion(list: seq<ICfg>, base: string, exclude: int, n: nat)
    requires LabelTaken(list, base, exclude)
    requires forall j :: 1 <= j <= n ==> LabelTaken(list, Suffixed(base, j), exclude)
    ensures |LabelsOf(list, exclude)| > n
  {
    var labels := LabelsOf(list, exclude);
    forall l | LabelTaken(list, l, exclude) ensures l in labels {
      LabelsOfTaken(list, exclude, l);
    }
    SuffixSetWithin(base, n, labels);
    SuffixSetShape(base, n);
    var occupied := {base} + SuffixSet(base, n);
    assert |occupied| == n + 1;
    SubsetSize(occupied, labels);
  }

  /** The suffix search fails only when the other entries carry more than 10000 distinct labels. */
  lemma NoLabelExhaustion(list: seq<ICfg>, base: string, exclude: int)
    ensures LabelTaken(list, base, exclude) && FirstFreeSuffix(list, base, exclude, 1) > LABEL_SEARCH_LIMIT
            ==> |LabelsOf(list, exclude)| > LABEL_SEARCH_LIMIT
  {
    if LabelTaken(list, base, exclude) && FirstFreeSuffix(list, base, exclude, 1) > LABEL_SEARCH_LIMIT {
      Exhaustion(list, base, exclude, LABEL_SEARCH_LIMIT);
    }
  }

  /** The entry `addNewInsulin` appends for `c`: its label is kept when non-empty and
      unused, otherwise generated; the times and the template are kept. */
  ghost function Appended(list: seq<ICfg>, c: ICfg, names: InsulinType -> string): (r: ICfg)
    ensures r.insulinEndTime == c.insulinEndTime && r.insulinPeakTime == c.insulinPeakTime
    ensures r.insulinTemplate == c.insulinTemplate
    ensures c.insulinLabel != "" && !LabelTaken(list, c.insulinLabel, -1) ==> r == c
    ensures r.insulinLabel != ""
    ensures |list| <= LABEL_SEARCH_LIMIT ==> !LabelTaken(list, r.insulinLabel, -1)
  {
    if c.insulinLabel == "" || LabelTaken(list, c.insulinLabel, -1) then
      c.(insulinLabel := SearchLabel(list, BaseLabel(c, LabelTemplate(c, None), names), -1))
    else c
  }

  /** Appending an entry whose label is unused keeps the labels pairwise distinct. */
  lemma AppendKeepsLabelsDistinct(list: seq<ICfg>, c: ICfg)
    requires LabelsDistinct(list) && !LabelTaken(list, c.insulinLabel, -1)
    ensures LabelsDistinct(list + [c])
  {
    var l := list + [c];
    forall i, j | 0 <= i < j < |l| ensures l[i].insulinLabel != l[j].insulinLabel {
      if j == |list| {
        assert l[i] == list[i];
      }
    }
  }

  /** `removeAt(i)`: the element at `i` goes, the others keep their order. */
  function RemoveAt(list: seq<ICfg>, i: int): (r: seq<ICfg>)
    requires 0 <= i < |list|
    ensures |r| == |list| - 1
    ensures forall k :: 0 <= k < i ==> r[k] == list[k]
    ensures forall k :: i <= k < |r| ==> r[k] == list[k + 1]
  {
    list[..i] + list[i + 1..]
  }

  /** Removing an entry keeps the labels pairwise distinct. */
  lemma RemoveKeepsLabelsDistinct(list: seq<ICfg>, i: int)
    requires 0 <= i < |list| && LabelsDistinct(list)
    ensures LabelsDistinct(RemoveAt(list, i))
  {
    var r := RemoveAt(list, i);
    forall a, b | 0 <= a < b < |r| ensures r[a].insulinLabel != r[b].insulinLabel {
      var a' := if a < i then a else a + 1;
      var b' := if b < i then b else b + 1;
      assert r[a] == list[a'] && r[b] == list[b'];
    }
  }

  // ---------------------------------------------------------------- find or create

  /** Template recording: a template-less candidate takes the template matching its peak. */
  function Tagged(c: ICfg): (r: ICfg)
    ensures r.insulinTemplate != 0
    ensures c.insulinTemplate != 0 ==> r == c
    ensures r.IsEqual(Some(c)) && r.insulinLabel == c.insulinLabel
    ensures c.insulinTemplate == 0 ==> r.insulinTemplate == FromPeak(c.insulinPeakTime).Value()
    ensures GetTemplate(r) == GetTemplate(c)
  {
    CatalogueShape();
    FromIntOfValue(FromPeak(c.insulinPeakTime));
    if c.insulinTemplate == 0 then c.(insulinTemplate := FromPeak(c.insulinPeakTime).Value()) else c
  }

  /** The list after `getOrCreateInsulin` of an already repaired candidate. */
  ghost function GetOrCreateList(list: seq<ICfg>, candidate: ICfg, names: InsulinType -> string): (r: seq<ICfg>)
    ensures r == list || (|r| == |list| + 1 && r[..|list|] == list)
    ensures exists i :: 0 <= i < |r| && r[i].IsEqual(Some(candidate))
  {
    if FirstEquivalent(list, candidate).Some? then
      assert list[FirstEquivalent(list, candidate).value].IsEqual(Some(candidate));
      list
    else
      var r := list + [Appended(list, Tagged(candidate), names)];
      assert r[|list|].IsEqual(Some(candidate));
      assert r[..|list|] == list;
      r
  }

  /** After `getOrCreateInsulin`, asking again with an equivalent config finds an entry
      and leaves the list as it is. */
  lemma GetOrCreateStable(list: seq<ICfg>, candidate: ICfg, other: ICfg, names: InsulinType -> string)
    requires other.IsEqual(Some(candidate))
    ensures GetOrCreateList(GetOrCreateList(list, candidate, names), other, names)
            == GetOrCreateList(list, candidate, names)
  {
    var once := GetOrCreateList(list, candidate, names);
    match FirstEquivalent(list, candidate)
    case Some(i) =>
      assert other.IsEqual(Some(once[i]));
    case None =>
      assert other.IsEqual(Some(once[|once| - 1]));
  }

  /** A second call with an equivalent, in-range config does not grow the list. */
  lemma SecondGetOrCreateKeepsList(list: seq<ICfg>, candidate: ICfg, other: ICfg,
                                   defaultPeak: Int32, defaultDia: int, limits: HardLimits,
                                   names: InsulinType -> string)
    requires IsValid(limits, Some(other)) && other.IsEqual(Some(candidate))
    ensures GetOrCreateList(GetOrCreateList(list, candidate, names), Clamp(other, defaultPeak, defaultDia, limits), names)
            == GetOrCreateList(list, candidate, names)
  {
    GetOrCreateStable(list, candidate, other, names);
  }

  // ---------------------------------------------------------------- persistence

  /** One `toJson()` per entry, in list order. */
  function ToJsonArray(list: seq<ICfg>): (items: seq<JValue>)
    ensures |items| == |list|
    ensures forall k :: 0 <= k < |list| ==> items[k].JObject? && FromJson(Some(items[k].fields)) == list[k]
  {
    seq(|list|, k requires 0 <= k < |list| => JObject(ToJson(list[k])))
  }

  /** `configuration()`: the object `{"insulins": [...]}`. */
  function ConfigurationOf(list: seq<ICfg>): (j: JObj)
    ensures j.Keys == {INSULINS_KEY}
    ensures OptArray(j, INSULINS_KEY) == Some(ToJsonArray(list))
  {
    map[INSULINS_KEY := JArray(ToJsonArray(list))]
  }

  /** `optJSONArray(key)`: the array under `key`, if that is an array. */
  function OptArray(j: JObj, key: string): (a: Option<seq<JValue>>)
    ensures a.Some? <==> key in j && j[key].JArray?
    ensures a.Some? ==> j[key] == JArray(a.value)
  {
    if key in j && j[key].JArray? then Some(j[key].items) else None
  }

  /** The list after `addNewInsulin` of every element of `items` that is an object,
      starting from `list`; other elements are skipped. */
  ghost function LoadEntries(list: seq<ICfg>, items: seq<JValue>, names: InsulinType -> string): (r: seq<ICfg>)
    ensures |list| <= |r| <= |list| + |items|
    ensures r[..|list|] == list
    ensures LabelsNonEmpty(list) ==> LabelsNonEmpty(r)
    decreases |items|
  {
    if items == [] then list
    else
      var next := if items[0].JObject? then list + [Appended(list, FromJson(Some(items[0].fields)), names)] else list;
      var r := LoadEntries(next, items[1..], names);
      assert next[..|list|] == list;
      assert r[..|list|] == r[..|next|][..|list|];
      r
  }

  /** The list after `applyConfiguration(configuration)`. */
  ghost function Reloaded(configuration: JObj, names: InsulinType -> string): (r: seq<ICfg>)
    ensures OptArray(configuration, INSULINS_KEY).None? ==> r == []
    ensures OptArray(configuration, INSULINS_KEY).Some? ==>
              |r| <= if |OptArray(configuration, INSULINS_KEY).value| == 0 then 1
                     else |OptArray(configuration, INSULINS_KEY).value|
    ensures LabelsNonEmpty(r)
  {
    match OptArray(configuration, INSULINS_KEY)
    case None => []
    case Some(items) =>
      LoadEntries(if |items| == 0 then [Appended([], OrefRapidActing.GetICfg(), names)] else [], items, names)
  }

  lemma {:induction false} LoadEntriesOfEncoded(p: seq<ICfg>, q: seq<ICfg>, names: InsulinType -> string)
    requires LabelsDistinct(p + q) && LabelsNonEmpty(q)
    ensures LoadEntries(p, ToJsonArray(q), names) == p + q
    decreases |q|
  {
    var items := ToJsonArray(q);
    if q == [] {
      assert p + q == p;
    } else {
      assert items[0] == JObject(ToJson(q[0]));
      FromJsonToJson(q[0]);
      forall i | 0 <= i < |p| ensures p[i].insulinLabel != q[0].insulinLabel {
        assert (p + q)[i] == p[i] && (p + q)[|p|] == q[0];
      }
      assert Appended(p, q[0], names) == q[0];
      assert items[1..] == ToJsonArray(q[1..]);
      assert p + q == (p + [q[0]]) + q[1..];
      LoadEntriesOfEncoded(p + [q[0]], q[1..], names);
    }
  }

  /** Loading at most 10000 entries onto a list with distinct labels keeps them distinct. */
  lemma {:induction false} LoadEntriesKeepsLabelsDistinct(list: seq<ICfg>, items: seq<JValue>, names: InsulinType -> string)
    requires LabelsDistinct(list) && |list| + |items| <= LABEL_SEARCH_LIMIT
    ensures LabelsDistinct(LoadEntries(list, items, names))
    decreases |items|
  {
    if items != [] {
      if items[0].JObject? {
        AppendKeepsLabelsDistinct(list, Appended(list, FromJson(Some(items[0].fields)), names));
      }
      var next := if items[0].JObject? then list + [Appended(list, FromJson(Some(items[0].fields)), names)] else list;
      LoadEntriesKeepsLabelsDistinct(next, items[1..], names);
    }
  }

  /** A configuration of at most 10000 entries loads with pairwise distinct labels. */
  lemma ReloadedLabelsDistinct(configuration: JObj, names: InsulinType -> string)
    requires OptArray(configuration, INSULINS_KEY).Some? ==> |OptArray(configuration, INSULINS_KEY).value| <= LABEL_SEARCH_LIMIT
    ensures LabelsDistinct(Reloaded(configuration, names))
  {
    match OptArray(configuration, INSULINS_KEY)
    case None =>
    case Some(items) =>
      if |items| == 0 {
        assert Reloaded(configuration, names) == [Appended([], OrefRapidActing.GetICfg(), names)];
      } else {
        LoadEntriesKeepsLabelsDistinct([], items, names);
      }
  }

  /** Reloading the saved configuration of a non-empty list with distinct, non-empty
      labels gives that list back. */
  lemma ReloadRoundTrip(list: seq<ICfg>, names: InsulinType -> string)
    requires |list| > 0 && LabelsDistinct(list) && LabelsNonEmpty(list)
    ensures Reloaded(ConfigurationOf(list), names) == list
  {
    assert [] + list == list;
    LoadEntriesOfEncoded([], list, names);
  }

  /** An absent list loads nothing; an empty list seeds OREF_RAPID_ACTING's config. */
  lemma ReloadMissingOrEmpty(names: InsulinType -> string)
    ensures Reloaded(map[], names) == []
    ensures Reloaded(map[INSULINS_KEY := JArray([])], names) == [OrefRapidActing.GetICfg()]
  {
    assert Appended([], OrefRapidActing.GetICfg(), names) == OrefRapidActing.GetICfg();
  }

  // ---------------------------------------------------------------- insulin on board

  datatype Bolus = Bolus(amount: real, timestamp: int)

  /** The result of `iobCalc`: a fresh `Iob()` left untouched, or one whose two
      contributions were set from the formula. */
  datatype Iob = Untouched | Contribution(activityContrib: real, iobContrib: real)

  /** The guards of `iobCalc` for the peak and DIA of `c`: nothing is computed for a
      zero amount, a zero peak, or once the action time has elapsed; otherwise the
      formula (taken as given) is evaluated at `t` minutes with `td = dia * 60` and
      `tp = peak`. */
  function IobCalc(bolus: Bolus, time: int, c: ICfg,
                   formula: (real, real, real, real) -> (real, real)): (r: Iob)
    ensures r.Untouched? <==>
              bolus.amount == 0.0 || c.GetPeak() == 0
              || (time - bolus.timestamp) as real / 60000.0 >= c.GetDia() as real * 6.0
    ensures r.Contribution? ==>
              (r.activityContrib, r.iobContrib)
              == formula(bolus.amount, (time - bolus.timestamp) as real / 60000.0, c.GetDia() as real * 6.0, c.GetPeak() as real)
  {
    var peak := c.GetPeak() as real;
    var dia := c.GetDia() as real / 10.0;
    if bolus.amount != 0.0 && peak != 0.0 then
      var t := (time - bolus.timestamp) as real / 1000.0 / 60.0;
      var td := dia * 60.0;
      if t < td then
        var (activity, iob) := formula(bolus.amount, t, td, peak);
        Contribution(activity, iob)
      else Untouched
    else Untouched
  }

  /** Once `dia` hours have passed since the bolus, nothing is left to contribute. */
  lemma IobAfterDiaIsUntouched(bolus: Bolus, time: int, c: ICfg,
                               formula: (real, real, real, real) -> (real, real))
    requires time - bolus.timestamp >= c.GetDia() * 360000
    ensures IobCalc(bolus, time, c, formula) == Untouched
  {
  }

  // ---------------------------------------------------------------- the registry

  /** Why `isValidEditState` rejects the working copy (the toast it shows), or that it accepts it. */
  datatype EditCheck = Accepted | DiaOutOfHardLimits | PeakOutOfHardLimits | MissingInsulinName | InsulinNameExists

  class InsulinPlugin {
    /** Collaborators, injected at construction. */
    const limits: HardLimits
    const templateName: InsulinType -> string

    var insulins: seq<ICfg>
    var currentInsulinIndex: int
    /** The detached working copy (`lateinit`: None until first assigned). */
    var currentInsulin: Option<ICfg>
    var isEdited: bool
    /** The persisted configuration string, already parsed; None when it does not parse. */
    var storedConfiguration: Option<JObj>
    /** The preference integers `insulin_template` and `insulin_oref_peak`. */
    var preferredTemplate: Int32
    var preferredPeak: Int32

    ghost predicate Valid()
      reads this`insulins, this`currentInsulinIndex
    {
      0 <= currentInsulinIndex && (|insulins| > 0 ==> currentInsulinIndex < |insulins|)
    }

    /** The working copy equals the selected entry. */
    ghost predicate InSync()
      reads this`insulins, this`currentInsulinIndex, this`currentInsulin
    {
      0 <= currentInsulinIndex < |insulins| && currentInsulin == Some(insulins[currentInsulinIndex])
    }

    constructor (limits: HardLimits, templateName: InsulinType -> string, storedConfiguration: Option<JObj>,
                 preferredTemplate: Int32, preferredPeak: Int32)
      ensures this.limits == limits && this.templateName == templateName
      ensures this.storedConfiguration == storedConfiguration
      ensures this.preferredTemplate == preferredTemplate && this.preferredPeak == preferredPeak
      ensures insulins == [] && currentInsulinIndex == 0 && currentInsulin == None && !isEdited
      ensures Valid()
    {
      this.limits := limits;
      this.templateName := templateName;
      this.storedConfiguration := storedConfiguration;
      this.preferredTemplate := preferredTemplate;
      this.preferredPeak := preferredPeak;
      insulins := [];
      currentInsulinIndex := 0;
      currentInsulin := None;
      isEdited := false;
    }

    /** `getDefaultPeak()`. */
    function DefaultPeak(): Int32
      reads this`preferredTemplate, this`preferredPeak
    {
      DefaultPeakOf(preferredTemplate, preferredPeak)
    }

    /** `insulinLabelAlreadyExists(name, currentIndex)`. */
    method InsulinLabelAlreadyExists(name: string, currentIndex: int) returns (taken: bool)
      ensures taken <==> LabelTaken(insulins, name, currentIndex)
    {
      var i := 0;
      while i < |insulins|
        invariant 0 <= i <= |insulins|
        invariant forall k :: 0 <= k < i && k != currentIndex ==> insulins[k].insulinLabel != name
      {
        if i != currentIndex && insulins[i].insulinLabel == name {
          return true;
        }
        i := i + 1;
      }
      return false;
    }

    /** `createNewInsulinLabel(iCfg, currentIndex, template)`. */
    method CreateNewInsulinLabel(c: ICfg, currentIndex: int, template: Option<InsulinType>) returns (name: string)
      ensures name == SearchLabel(insulins, BaseLabel(c, LabelTemplate(c, template), templateName), currentIndex)
    {
      var base := BaseLabel(c, LabelTemplate(c, template), templateName);
      name := base;
      var taken := InsulinLabelAlreadyExists(base, currentIndex);
      if taken {
        var i := 1;
        while i <= LABEL_SEARCH_LIMIT
          invariant 1 <= i <= LABEL_SEARCH_LIMIT + 1 && name == base
          invariant FirstFreeSuffix(insulins, base, currentIndex, i) == FirstFreeSuffix(insulins, base, currentIndex, 1)
        {
          var suffixTaken := InsulinLabelAlreadyExists(Suffixed(base, i), currentIndex);
          if !suffixTaken {
            name := Suffixed(base, i);
            break;
          }
          i := i + 1;
        }
      }
    }

    /** The scan for the first entry equivalent to `c`, which `defaultInsulinIndex`,
        `setCurrent` and `getOrCreateInsulin` each run over the list. */
    method FindEquivalent(c: ICfg) returns (found: Option<nat>)
      ensures found == FirstEquivalent(insulins, c)
    {
      var i := 0;
      while i < |insulins|
        invariant 0 <= i <= |insulins|
        invariant forall k :: 0 <= k < i ==> !c.IsEqual(Some(insulins[k]))
      {
        if c.IsEqual(Some(insulins[i])) {
          FirstEquivalentIs(insulins, c, i);
          return Some(i);
        }
        i := i + 1;
      }
      return None;
    }

    /** `defaultInsulinIndex`. */
    method DefaultInsulinIndex(profile: Option<ICfg>) returns (index: nat)
      requires profile.Some? || |insulins| > 0
      ensures index == DefaultIndexOf(insulins, EffectiveICfg(insulins, profile, limits, DefaultPeak()))
    {
      var found := FindEquivalent(EffectiveICfg(insulins, profile, limits, DefaultPeak()));
      index := if found.Some? then found.value else 0;
    }

    /** `getDefaultDia()`, in tenths of an hour. */
    method GetDefaultDia(profile: Option<ICfg>) returns (dia: int)
      ensures dia == DefaultDiaOf(insulins, profile, limits, DefaultPeak())
    {
      if |insulins| == 0 {
        return OrefRapidActing.Dia();
      }
      var index := DefaultInsulinIndex(profile);
      return insulins[index].GetDia();
    }

    /** `getInsulin(name)`: the first entry with that name, else the default entry. */
    method GetInsulin(name: string, profile: Option<ICfg>) returns (r: ICfg)
      requires |insulins| > 0
      ensures FirstLabelled(insulins, name).Some? ==>
                r == insulins[FirstLabelled(insulins, name).value] && r.insulinLabel == name
      ensures FirstLabelled(insulins, name).None? ==>
                r == insulins[DefaultIndexOf(insulins, EffectiveICfg(insulins, profile, limits, DefaultPeak()))]
    {
      var i := 0;
      while i < |insulins|
        invariant 0 <= i <= |insulins|
        invariant forall k :: 0 <= k < i ==> insulins[k].insulinLabel != name
      {
        if insulins[i].insulinLabel == name {
          FirstIndexIs(insulins, (e: ICfg) => e.insulinLabel == name, i);
          return insulins[i];
        }
        i := i + 1;
      }
      var index := DefaultInsulinIndex(profile);
      return insulins[index];
    }

    /** `configuration()`. */
    method Configuration() returns (j: JObj)
      ensures j == ConfigurationOf(insulins)
    {
      var items: seq<JValue> := [];
      for k := 0 to |insulins|
        invariant |items| == k
        invariant forall m :: 0 <= m < k ==> items[m] == JObject(ToJson(insulins[m]))
      {
        items := items + [JObject(ToJson(insulins[k]))];
      }
      assert items == ToJsonArray(insulins);
      j := map[INSULINS_KEY := JArray(items)];
    }

    /** `storeSettings()`: persist the list and clear the edited flag. */
    method StoreSettings()
      modifies this`storedConfiguration, this`isEdited
      ensures storedConfiguration == Some(ConfigurationOf(insulins)) && !isEdited
    {
      var j := Configuration();
      storedConfiguration := Some(j);
      isEdited := false;
    }

    /** `addNewInsulin(newICfg)`. */
    method AddNewInsulin(newICfg: ICfg) returns (r: ICfg)
      requires Valid()
      modifies this`insulins, this`currentInsulinIndex, this`currentInsulin, this`storedConfiguration, this`isEdited
      ensures r == Appended(old(insulins), newICfg, templateName)
      ensures insulins == old(insulins) + [r]
      ensures currentInsulinIndex == |insulins| - 1 && currentInsulin == Some(r)
      ensures !isEdited && storedConfiguration == Some(ConfigurationOf(insulins))
      ensures Valid() && InSync()
    {
      var c := newICfg;
      var taken := InsulinLabelAlreadyExists(c.insulinLabel, -1);
      if c.insulinLabel == "" || taken {
        var name := CreateNewInsulinLabel(c, -1, None);
        c := c.(insulinLabel := name);
      }
      var newInsulin := c.DeepClone();
      var extended := insulins + [newInsulin];
      insulins := extended;
      currentInsulinIndex := |extended| - 1;
      currentInsulin := Some(newInsulin.DeepClone());
      StoreSettings();
      r := newInsulin;
    }

    /** `removeCurrentInsulin()`: drop the selected entry, select the default entry. */
    method RemoveCurrentInsulin(profile: Option<ICfg>)
      requires Valid() && |insulins| >= 2
      modifies this`insulins, this`currentInsulinIndex, this`currentInsulin, this`storedConfiguration, this`isEdited
      ensures insulins == RemoveAt(old(insulins), old(currentInsulinIndex))
      ensures currentInsulinIndex == DefaultIndexOf(insulins, EffectiveICfg(insulins, profile, limits, old(DefaultPeak())))
      ensures Valid() && InSync()
      ensures !isEdited && storedConfiguration == Some(ConfigurationOf(insulins))
    {
      ghost var defaultPeak := DefaultPeak();
      var remaining := RemoveAt(insulins, currentInsulinIndex);
      ghost var target := DefaultIndexOf(remaining, EffectiveICfg(remaining, profile, limits, defaultPeak));
      insulins := remaining;
      var index := DefaultInsulinIndex(profile);
      assert index == target;
      var copy := remaining[index].DeepClone();
      currentInsulinIndex := index;
      currentInsulin := Some(copy);
      StoreSettings();
      assert insulins == remaining && currentInsulinIndex == target;
    }

    /** `c` repaired against the hard limits with the defaults that `list` and the
        preferences give. */
    ghost function Repaired(list: seq<ICfg>, c: ICfg, profile: Option<ICfg>): (r: ICfg)
      reads this`preferredTemplate, this`preferredPeak
      ensures r.insulinLabel == c.insulinLabel && r.insulinTemplate == c.insulinTemplate
      ensures IsValid(limits, Some(c)) ==> r == c
      ensures PeakInRange(c, limits) ==> r.insulinPeakTime == c.insulinPeakTime
      ensures DiaInRange(c, limits) ==> r.insulinEndTime == c.insulinEndTime
      ensures !PeakInRange(c, limits) ==> r.insulinPeakTime == ToInt32(DefaultPeak() * 60000)
      ensures !DiaInRange(c, limits) ==>
                r.insulinEndTime == DefaultDiaOf(list, profile, limits, DefaultPeak()) * 360000
    {
      Clamp(c, DefaultPeak(), DefaultDiaOf(list, profile, limits, DefaultPeak()), limits)
    }

    /** The hard-limit repair that `getOrCreateInsulin` and `iobCalcForTreatment` both
        begin with. */
    method RepairToHardLimits(c: ICfg, profile: Option<ICfg>) returns (r: ICfg)
      ensures r == Repaired(insulins, c, profile)
    {
      r := c;
      if r.GetPeak() < limits.minPeak || r.GetPeak() > limits.maxPeak {
        r := r.SetPeak(DefaultPeak());
      }
      if r.GetDia() as real / 10.0 < limits.minDia || r.GetDia() as real / 10.0 > limits.maxDia {
        var dia := GetDefaultDia(profile);
        r := r.SetDia(dia);
      }
    }

    /** `getOrCreateInsulin(iCfg)`. */
    method GetOrCreateInsulin(c: ICfg, profile: Option<ICfg>) returns (r: ICfg)
      requires Valid()
      modifies this`insulins, this`currentInsulinIndex, this`currentInsulin, this`storedConfiguration, this`isEdited
      ensures insulins == GetOrCreateList(old(insulins), old(Repaired(insulins, c, profile)), templateName)
      ensures r.IsEqual(Some(old(Repaired(insulins, c, profile))))
      ensures FirstEquivalent(old(insulins), old(Repaired(insulins, c, profile))).Some? ==>
                r == insulins[FirstEquivalent(old(insulins), old(Repaired(insulins, c, profile))).value]
                && unchanged(this)
      ensures FirstEquivalent(old(insulins), old(Repaired(insulins, c, profile))).None? ==>
                r == Appended(old(insulins), Tagged(old(Repaired(insulins, c, profile))), templateName)
                && currentInsulinIndex == |insulins| - 1 && InSync()
                && !isEdited && storedConfiguration == Some(ConfigurationOf(insulins))
      ensures Valid()
    {
      var candidate := RepairToHardLimits(c, profile);
      ghost var repaired := candidate;
      var found := FindEquivalent(candidate);
      if found.Some? {
        return insulins[found.value];
      }
      if candidate.insulinTemplate == 0 {
        candidate := candidate.(insulinTemplate := FromPeak(candidate.insulinPeakTime).Value());
      }
      assert candidate == Tagged(repaired);
      r := AddNewInsulin(candidate);
    }

    /** `setCurrent(iCfg)`: select the first equivalent entry, appending one if none. */
    method SetCurrent(c: ICfg) returns (index: nat)
      requires Valid()
      modifies this`insulins, this`currentInsulinIndex, this`currentInsulin, this`storedConfiguration, this`isEdited
      ensures Valid() && InSync() && index == currentInsulinIndex
      ensures insulins[index].IsEqual(Some(c))
      ensures isEdited == (insulins[index].insulinTemplate == 0)
      ensures FirstEquivalent(old(insulins), c).Some? ==>
                insulins == old(insulins) && index == FirstEquivalent(old(insulins), c).value
                && storedConfiguration == old(storedConfiguration)
      ensures FirstEquivalent(old(insulins), c).None? ==>
                insulins == old(insulins) + [Appended(old(insulins), c, templateName)] && index == |insulins| - 1
                && storedConfiguration == Some(ConfigurationOf(insulins))
    {
      var found := FindEquivalent(c);
      if found.Some? {
        currentInsulinIndex := found.value;
        currentInsulin := Some(insulins[found.value].DeepClone());
        isEdited := insulins[found.value].insulinTemplate == 0;
        return found.value;
      }
      var added := AddNewInsulin(c);
      currentInsulin := Some(insulins[currentInsulinIndex].DeepClone());
      isEdited := currentInsulin.value.insulinTemplate == 0;
      index := |insulins| - 1;
    }

    /** `setDefault(iCfg)`: remember a peak-valid config's peak and template as preferences. */
    method SetDefault(c: ICfg)
      modifies this`preferredTemplate, this`preferredPeak
      ensures PeakInRange(c, limits) ==>
                preferredPeak == c.GetPeak()
                && preferredTemplate == (if c.insulinTemplate != 0 then c.insulinTemplate
                                         else FromPeak(c.insulinPeakTime).Value())
      ensures !PeakInRange(c, limits) ==> unchanged(this)
      ensures PeakInRange(c, limits) && c.insulinTemplate == 0 ==> DefaultPeak() == c.GetPeak()
    {
      if c.GetPeak() >= limits.minPeak && c.GetPeak() <= limits.maxPeak {
        preferredPeak := c.GetPeak();
        preferredTemplate := if c.insulinTemplate != 0 then c.insulinTemplate else FromPeak(c.insulinPeakTime).Value();
        if c.insulinTemplate == 0 {
          SetDefaultMakesItsPeakTheDefault(c);
        }
      }
    }

    /** `applyConfiguration(configuration)`: clear the list, then load it. */
    method ApplyConfiguration(configuration: JObj)
      requires Valid()
      modifies this`insulins, this`currentInsulinIndex, this`currentInsulin, this`storedConfiguration, this`isEdited
      ensures insulins == Reloaded(configuration, templateName)
      ensures Valid()
      ensures |insulins| > 0 ==>
                InSync() && currentInsulinIndex == |insulins| - 1
                && !isEdited && storedConfiguration == Some(ConfigurationOf(insulins))
      ensures |insulins| == 0 ==>
                currentInsulinIndex == old(currentInsulinIndex) && currentInsulin == old(currentInsulin)
                && isEdited == old(isEdited) && storedConfiguration == old(storedConfiguration)
    {
      insulins := [];
      var saved := OptArray(configuration, INSULINS_KEY);
      if saved.Some? {
        var items := saved.value;
        if |items| == 0 {
          var seeded := AddNewInsulin(OrefRapidActing.GetICfg());
        }
        ghost var start := insulins;
        for k := 0 to |items|
          invariant Valid()
          invariant LoadEntries(insulins, items[k..], templateName) == LoadEntries(start, items, templateName)
          invariant |insulins| > 0 ==>
                      InSync() && currentInsulinIndex == |insulins| - 1
                      && !isEdited && storedConfiguration == Some(ConfigurationOf(insulins))
          invariant |insulins| == 0 ==>
                      currentInsulinIndex == old(currentInsulinIndex) && currentInsulin == old(currentInsulin)
                      && isEdited == old(isEdited) && storedConfiguration == old(storedConfiguration)
        {
          assert items[k..][0] == items[k] && items[k..][1..] == items[k + 1..];
          if items[k].JObject? {
            var loaded := AddNewInsulin(FromJson(Some(items[k].fields)));
          }
        }
      }
    }

    /** `loadSettings()`: apply the persisted configuration when it parses. */
    method LoadSettings()
      requires Valid()
      modifies this`insulins, this`currentInsulinIndex, this`currentInsulin, this`storedConfiguration, this`isEdited
      ensures Valid()
      ensures old(storedConfiguration).None? ==> unchanged(this)
      ensures old(storedConfiguration).Some? ==> insulins == Reloaded(old(storedConfiguration).value, templateName)
      ensures old(storedConfiguration).Some? && |insulins| > 0 ==>
                InSync() && currentInsulinIndex == |insulins| - 1
                && !isEdited && storedConfiguration == Some(ConfigurationOf(insulins))
      ensures old(storedConfiguration).Some? && |insulins| == 0 ==>
                currentInsulinIndex == old(currentInsulinIndex) && currentInsulin == old(currentInsulin)
                && isEdited == old(isEdited) && storedConfiguration == old(storedConfiguration)
    {
      if storedConfiguration.Some? {
        ApplyConfiguration(storedConfiguration.value);
      }
    }

    /** `isValidEditState()`: DIA range, peak range, empty label, duplicate label, in that order. */
    method IsValidEditState() returns (r: EditCheck)
      requires currentInsulin.Some?
      ensures r == DiaOutOfHardLimits <==> !DiaInRange(currentInsulin.value, limits)
      ensures r == PeakOutOfHardLimits <==> DiaInRange(currentInsulin.value, limits) && !PeakInRange(currentInsulin.value, limits)
      ensures r == MissingInsulinName <==> IsValid(limits, currentInsulin) && currentInsulin.value.insulinLabel == ""
      ensures r == InsulinNameExists <==>
                IsValid(limits, currentInsulin) && currentInsulin.value.insulinLabel != ""
                && LabelTaken(insulins, currentInsulin.value.insulinLabel, currentInsulinIndex)
      ensures r == Accepted <==>
                IsValid(limits, currentInsulin) && currentInsulin.value.insulinLabel != ""
                && !LabelTaken(insulins, currentInsulin.value.insulinLabel, currentInsulinIndex)
    {
      var w := currentInsulin.value;
      if w.GetDia() as real / 10.0 < limits.minDia || w.GetDia() as real / 10.0 > limits.maxDia {
        return DiaOutOfHardLimits;
      }
      if w.GetPeak() < limits.minPeak || w.GetPeak() > limits.maxPeak {
        return PeakOutOfHardLimits;
      }
      if w.insulinLabel == "" {
        return MissingInsulinName;
      }
      var taken := InsulinLabelAlreadyExists(w.insulinLabel, currentInsulinIndex);
      if taken {
        return InsulinNameExists;
      }
      return Accepted;
    }

    /** `iobCalcForTreatment(bolus, time, iCfg)`: repair the config, then `iobCalc`. */
    method IobCalcForTreatment(bolus: Bolus, time: int, c: ICfg, profile: Option<ICfg>,
                               formula: (real, real, real, real) -> (real, real)) returns (r: Iob)
      ensures r == IobCalc(bolus, time, Repaired(insulins, c, profile), formula)
    {
      var used := RepairToHardLimits(c, profile);
      r := IobCalc(bolus, time, used, formula);
    }
  }
}
