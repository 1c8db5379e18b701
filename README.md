# Insulin configuration registry (Dafny model)

This project models the insulin-configuration part of the AAPS insulin plugin. It covers four pieces:

- **`ICfg`**, one insulin configuration. It holds a label, the duration of insulin action (DIA) and the time to peak activity, both in milliseconds, and the catalogue template it was made from. Two configurations are equivalent when their two times agree, whatever their labels and templates.
- **`InsulinType`**, the fixed catalogue of templates, with two lookups: by template id and by peak time.
- **The JSON codec** of a configuration, and the helpers that read and record its template.
- **`InsulinPlugin`**, the registry. It keeps an ordered list of configurations, the index of the entry under edit and a detached working copy of it. Its operations are:
  - appending with generation of unique labels;
  - removing the current entry;
  - find-or-create after repairing a configuration to the hard limits;
  - selecting an entry;
  - validating an entry and the working copy in a fixed check order;
  - saving and reloading the whole list;
  - the guard structure of the insulin-on-board computation.

The Dafny modules follow the program's files:

| module | file | models |
|---|---|---|
| `InsulinConfig` | `icfg.dfy` | `ICfg` |
| `InsulinCatalogue` | `insulin_type.dfy` | `Insulin.InsulinType` |
| `InsulinJson` | `insulin_json.dfy` | `InsulinExtension` |
| `InsulinRegistry` | `insulin_plugin.dfy` | `InsulinPlugin` |

`Text` (`text.dfy`) renders numbers the way Kotlin string templates do. `Wrappers` and `Seqs` (`wrappers.dfy`) hold `Option` and a first-match search.

Units and integer widths:

- The DIA is held as an integer count of tenths of an hour. The source's rounding `Math.round(ms / 3600.0 / 100.0) / 10.0` is exactly `(ms + 180000) / 360000` tenths with floor division.
- The peak is in whole minutes, using Kotlin's division that truncates toward zero.
- Kotlin `Int` is the subset type `Int32`. The `Int` product `peak * 60000` and the `.toInt()` narrowing wrap around explicitly (`ToInt32`).
- The two times are Kotlin `Long` values, held as unbounded `int`.

`ICfg` is an immutable datatype, so `setDia`, `setPeak` and `setTemplate` return the updated value. The registry is a class:

- its list is a `seq<ICfg>` field that the methods reassign;
- its two preference integers (`insulin_template` and `insulin_oref_peak`, defaults 2 and 75) are fields;
- the persisted configuration is a field holding the already-parsed JSON object.

Collaborators are passed as plain values. The hard limits and the template display names (`rh.gs(template.label)`) are fixed at construction. The profile's configuration, which the `iCfg` getter prefers to the first entry, is a parameter of each call that needs it. The IOB formula is a parameter too.

Each method of the class is proved against a specification function on the old state:

- `Appended`: the entry `addNewInsulin` stores;
- `SearchLabel`: the label search;
- `FirstEquivalent` and `DefaultIndexOf`: the equivalence lookups;
- `Repaired`: the hard-limit repair;
- `GetOrCreateList`: the list after find-or-create;
- `ConfigurationOf` and `Reloaded`: saving and reloading.

Lemmas prove what the registry keeps across calls about those functions:

- distinct labels;
- uniqueness of generated labels;
- stability of find-or-create;
- the save/reload round trip.

## Model

| member | source | states |
|---|---|---|
| InsulinConfig.ToInt32 | core/data/src/main/kotlin/app/aaps/core/data/model/ICfg.kt:24 | `.toInt()` / `Int` arithmetic keeps values that fit 32 bits and otherwise differs from the exact value by a multiple of 2^32 |
| InsulinConfig.TruncMinutes | core/data/src/main/kotlin/app/aaps/core/data/model/ICfg.kt:24 | `ms / 60000` on a `Long` truncates toward zero: the minute count brackets `ms` from below for non-negative and from above for negative counts |
| InsulinConfig.PeakMinutes | core/data/src/main/kotlin/app/aaps/core/data/model/ICfg.kt:24 | `(ms / 60000).toInt()` equals the truncated minutes whenever they fit an `Int` |
| InsulinConfig.ICfg.GetDia | core/data/src/main/kotlin/app/aaps/core/data/model/ICfg.kt:23 | the DIA in tenths of an hour is the nearest tenth to the end time, halves rounded up |
| InsulinConfig.ICfg.GetPeak | core/data/src/main/kotlin/app/aaps/core/data/model/ICfg.kt:24 | the peak in whole minutes truncated toward zero: `m * 60000 <= ms < m * 60000 + 60000` for non-negative times, the mirror bracket for negative ones (within the `Int` range) |
| InsulinConfig.ICfg.SetDia | core/data/src/main/kotlin/app/aaps/core/data/model/ICfg.kt:25-27 | only the end time changes, to `dia * 3600 * 1000` ms, and `getDia()` then reads back the DIA set |
| InsulinConfig.ICfg.SetPeak | core/data/src/main/kotlin/app/aaps/core/data/model/ICfg.kt:29-31 | only the peak time changes; for peaks whose `peak * 60000` fits an `Int` it becomes that product and `getPeak()` reads back the peak set |
| InsulinConfig.ICfg.DeepClone | core/data/src/main/kotlin/app/aaps/core/data/model/ICfg.kt:33 | the clone equals the original in all four fields and is `isEqual` to it |
| InsulinConfig.NewICfg | core/data/src/main/kotlin/app/aaps/core/data/model/ICfg.kt:10 | the secondary constructor keeps label and template, stores `dia * 3600000` ms and `peak * 60000` ms, and `getDia()`/`getPeak()` give back `dia`/`peak` (the peak while it fits an `Int`) |
| InsulinConfig.ICfg.IsEqual | core/data/src/main/kotlin/app/aaps/core/data/model/ICfg.kt:12-21 | never equivalent to a missing config; equivalent configs have the same DIA and the same peak |
| InsulinConfig.IsEqualIsEquivalence | core/data/src/main/kotlin/app/aaps/core/data/model/ICfg.kt:12-21 | `isEqual` on non-null arguments is reflexive, symmetric and transitive |
| InsulinConfig.IsEqualIgnoresLabelAndTemplate | core/data/src/main/kotlin/app/aaps/core/data/model/ICfg.kt:12-21 | changing the label or the template of either side never changes `isEqual` |
| InsulinConfig.DiaWriteBackIdempotent | core/data/src/main/kotlin/app/aaps/core/data/model/ICfg.kt:23-27 | `setDia(getDia())` keeps the DIA, and doing it twice gives the same config as doing it once |
| InsulinConfig.PeakWriteBackIdempotent | core/data/src/main/kotlin/app/aaps/core/data/model/ICfg.kt:24-31 | `setPeak(getPeak())` keeps the peak and is idempotent while the peak does not overflow |
| InsulinCatalogue.InsulinType.GetICfg | core/interfaces/src/main/kotlin/app/aaps/core/interfaces/insulin/Insulin.kt:21 | the template's config is named after the constant, records its value as template, and has `peak * 60000` ms and `dia * 3600000` ms |
| InsulinCatalogue.LookupValue | core/interfaces/src/main/kotlin/app/aaps/core/interfaces/insulin/Insulin.kt:25-26 | the `associateBy` map answers an entry carrying the asked value, and nothing exactly when no entry carries it |
| InsulinCatalogue.FromInt | core/interfaces/src/main/kotlin/app/aaps/core/interfaces/insulin/Insulin.kt:26 | the entry carrying the id, or OREF_RAPID_ACTING when no entry carries it |
| InsulinCatalogue.FromPeak | core/interfaces/src/main/kotlin/app/aaps/core/interfaces/insulin/Insulin.kt:27 | an entry whose peak equals the truncated minutes, or OREF_FREE_PEAK when no entry has that peak |
| InsulinCatalogue.CatalogueShape | core/interfaces/src/main/kotlin/app/aaps/core/interfaces/insulin/Insulin.kt:11-19 | the catalogue lists each of the five constants; values are pairwise distinct and never 0, peaks are pairwise distinct, every DIA is 6.0 h |
| InsulinCatalogue.FromIntOfValue | core/interfaces/src/main/kotlin/app/aaps/core/interfaces/insulin/Insulin.kt:25-26 | `fromInt(e.value) == e` for every entry, UNKNOWN included |
| InsulinCatalogue.FromIntFallback | core/interfaces/src/main/kotlin/app/aaps/core/interfaces/insulin/Insulin.kt:26 | an id that is no entry's value (0 among them) gives OREF_RAPID_ACTING |
| InsulinCatalogue.FromIntCases | core/interfaces/src/main/kotlin/app/aaps/core/interfaces/insulin/Insulin.kt:25-26 | `fromInt` for any id: the entry carrying it, or the fallback when none does |
| InsulinCatalogue.FromPeakMatches | core/interfaces/src/main/kotlin/app/aaps/core/interfaces/insulin/Insulin.kt:27 | `fromPeak` gives an entry whose peak equals the truncated minutes when one exists, and OREF_FREE_PEAK when none does |
| InsulinCatalogue.FromPeakOfPeak | core/interfaces/src/main/kotlin/app/aaps/core/interfaces/insulin/Insulin.kt:27 | `fromPeak(e.peak * 60000) == e` for every entry, UNKNOWN at -1 minute included |
| InsulinCatalogue.FromPeakTruncates | core/interfaces/src/main/kotlin/app/aaps/core/interfaces/insulin/Insulin.kt:27 | truncation toward zero: -59999 ms is minute 0 (fallback), -60000 ms is minute -1 (UNKNOWN) |
| InsulinJson.GetTemplate | core/objects/src/main/kotlin/app/aaps/core/objects/extensions/InsulinExtension.kt:13 | without a recorded template the peak decides; a recorded value decides through `fromInt`, including its fallback |
| InsulinJson.SetTemplate | core/objects/src/main/kotlin/app/aaps/core/objects/extensions/InsulinExtension.kt:15-17 | only the template changes, to the entry's value |
| InsulinJson.ToJson | core/objects/src/main/kotlin/app/aaps/core/objects/extensions/InsulinExtension.kt:7-11 | `toJson` writes exactly the four keys |
| InsulinJson.FromJsonToJson | core/objects/src/main/kotlin/app/aaps/core/objects/extensions/InsulinExtension.kt:7-24 | `fromJson(toJson(c)) == c` for every config |
| InsulinJson.FromJson | core/objects/src/main/kotlin/app/aaps/core/objects/extensions/InsulinExtension.kt:19-24 | a null object decodes to `("", 0, 0, 0)`, and each missing key to `""` or 0 |
| InsulinJson.GetTemplateAfterSet | core/objects/src/main/kotlin/app/aaps/core/objects/extensions/InsulinExtension.kt:13-17 | `getTemplate()` after `setTemplate(t)` is `t` for every entry, because no value is 0 |
| Text.NatText | plugins/insulin/src/main/kotlin/app/aaps/plugins/insulin/InsulinPlugin.kt:226 | the decimal rendering of `i` in `"${insulinLabel}_$i"` is a non-empty string of digits, of two or more digits from 10 on |
| Text.NatTextInjective | plugins/insulin/src/main/kotlin/app/aaps/plugins/insulin/InsulinPlugin.kt:226 | distinct numbers render differently |
| Text.Suffixed | plugins/insulin/src/main/kotlin/app/aaps/plugins/insulin/InsulinPlugin.kt:226 | a suffixed label starts with its base and is longer than base plus underscore |
| Text.SuffixedInjective | plugins/insulin/src/main/kotlin/app/aaps/plugins/insulin/InsulinPlugin.kt:225-230 | different suffixes give different candidate labels |
| Seqs.FirstIndex | core/interfaces/src/main/kotlin/app/aaps/core/interfaces/insulin/Insulin.kt:27 | `firstOrNull`: the least index satisfying the predicate, or none exactly when no element does |
| InsulinRegistry.Clamp | plugins/insulin/src/main/kotlin/app/aaps/plugins/insulin/InsulinPlugin.kt:122-125 | the hard-limit repair keeps label and template, leaves a valid config unchanged, keeps each time whose value is in range, and sets an out-of-range peak to `getDefaultPeak() * 60000` ms (computed in `Int`) and an out-of-range DIA to `getDefaultDia()` hours |
| InsulinRegistry.ClampIsValid | plugins/insulin/src/main/kotlin/app/aaps/plugins/insulin/InsulinPlugin.kt:122-125 | with in-range defaults the repaired config passes `isValid` |
| InsulinRegistry.IsValid | plugins/insulin/src/main/kotlin/app/aaps/plugins/insulin/InsulinPlugin.kt:352-362 | `isValid(null)` is false; accepting a config needs both hard-limit ranges non-empty, as the value lies in each |
| InsulinRegistry.FirstEquivalent | plugins/insulin/src/main/kotlin/app/aaps/plugins/insulin/InsulinPlugin.kt:126-130 | the first entry `isEqual` to the config, with none before it; none exactly when no entry is equivalent |
| InsulinRegistry.FirstEquivalentIs | plugins/insulin/src/main/kotlin/app/aaps/plugins/insulin/InsulinPlugin.kt:126-130 | an equivalent entry with no equivalent entry before it is the one the scan returns |
| InsulinRegistry.FirstLabelled | plugins/insulin/src/main/kotlin/app/aaps/plugins/insulin/InsulinPlugin.kt:164-167 | the first entry carrying the label; none exactly when no entry carries it |
| InsulinRegistry.DefaultPeakOf | plugins/insulin/src/main/kotlin/app/aaps/plugins/insulin/InsulinPlugin.kt:137-143 | `getDefaultPeak()`: the stored peak for the free-peak template, the template's own peak for any other catalogue id, and OREF_RAPID_ACTING's peak for an id no entry carries |
| InsulinRegistry.EffectiveICfg | plugins/insulin/src/main/kotlin/app/aaps/plugins/insulin/InsulinPlugin.kt:75-82 | the `iCfg` getter: `insulins[0]` without a profile; the profile's config with label, template and DIA kept, the peak kept when in range and replaced by the default peak otherwise |
| InsulinRegistry.DefaultIndexOf | plugins/insulin/src/main/kotlin/app/aaps/plugins/insulin/InsulinPlugin.kt:87-97 | `defaultInsulinIndex` is in range for a non-empty list, is the first equivalent entry whenever one exists, and is 0 when none exists |
| InsulinRegistry.DefaultIndexWithoutProfile | plugins/insulin/src/main/kotlin/app/aaps/plugins/insulin/InsulinPlugin.kt:75-97 | without a profile the effective config is `insulins[0]`, so the default index is 0 |
| InsulinRegistry.DefaultDiaCases | plugins/insulin/src/main/kotlin/app/aaps/plugins/insulin/InsulinPlugin.kt:145 | `getDefaultDia()` is 6.0 h for an empty list, the first entry's DIA without a profile, and the profile's DIA whenever an entry is equivalent to the effective config |
| InsulinRegistry.SetDefaultMakesItsPeakTheDefault | plugins/insulin/src/main/kotlin/app/aaps/plugins/insulin/InsulinPlugin.kt:113-143 | after `setDefault` stores a template-less config, `getDefaultPeak()` answers that config's peak |
| InsulinRegistry.DefaultPreferencesGiveRapidActingPeak | core/keys/src/main/kotlin/app/aaps/core/keys/IntNonKey.kt:13-14 | with the preferences at their defaults the default template is OREF_RAPID_ACTING and the default peak is 75 minutes |
| InsulinRegistry.BaseLabel | plugins/insulin/src/main/kotlin/app/aaps/plugins/insulin/InsulinPlugin.kt:219-223 | the label a template proposes is never empty |
| InsulinRegistry.FirstFreeSuffix | plugins/insulin/src/main/kotlin/app/aaps/plugins/insulin/InsulinPlugin.kt:225-230 | the least free suffix from `i` within 1..10000: every suffix before it is taken, and it is free unless the range is used up |
| InsulinRegistry.SearchLabel | plugins/insulin/src/main/kotlin/app/aaps/plugins/insulin/InsulinPlugin.kt:224-232 | a free base label is returned as is; otherwise `base_i` for the least free `i` in 1..10000, or the base when all are taken; when the other entries carry at most 10000 distinct labels (in particular with at most 10000 entries) the result is always free |
| InsulinRegistry.LabelsOfTaken | plugins/insulin/src/main/kotlin/app/aaps/plugins/insulin/InsulinPlugin.kt:235-244 | a label is in the set of the other entries' labels exactly when it is already taken |
| InsulinRegistry.Exhaustion | plugins/insulin/src/main/kotlin/app/aaps/plugins/insulin/InsulinPlugin.kt:224-230 | a taken base and `n` taken suffixes mean more than `n` distinct labels among the other entries (pigeonhole) |
| InsulinRegistry.NoLabelExhaustion | plugins/insulin/src/main/kotlin/app/aaps/plugins/insulin/InsulinPlugin.kt:224-230 | the search runs out of suffixes only when the other entries carry more than 10000 distinct labels |
| InsulinRegistry.Appended | plugins/insulin/src/main/kotlin/app/aaps/plugins/insulin/InsulinPlugin.kt:193-196 | the stored entry keeps both times and the template, keeps a non-empty unused label, and always has a non-empty label |
| InsulinRegistry.AppendKeepsLabelsDistinct | plugins/insulin/src/main/kotlin/app/aaps/plugins/insulin/InsulinPlugin.kt:193-197 | appending an entry with an unused label keeps the labels pairwise distinct |
| InsulinRegistry.RemoveAt | plugins/insulin/src/main/kotlin/app/aaps/plugins/insulin/InsulinPlugin.kt:211 | `removeAt(i)` drops exactly the element at `i` and keeps the others in order |
| InsulinRegistry.RemoveKeepsLabelsDistinct | plugins/insulin/src/main/kotlin/app/aaps/plugins/insulin/InsulinPlugin.kt:211 | removal keeps the labels pairwise distinct |
| InsulinRegistry.Tagged | plugins/insulin/src/main/kotlin/app/aaps/plugins/insulin/InsulinPlugin.kt:131-134 | a template-less candidate gets `fromPeak(insulinPeakTime).value` as its template, so `getTemplate()` is unchanged; it stays equivalent and keeps its label; a recorded template is kept |
| InsulinRegistry.GetOrCreateStable | plugins/insulin/src/main/kotlin/app/aaps/plugins/insulin/InsulinPlugin.kt:126-134 | after find-or-create, another equivalent candidate finds an entry and leaves the list unchanged |
| InsulinRegistry.SecondGetOrCreateKeepsList | plugins/insulin/src/main/kotlin/app/aaps/plugins/insulin/InsulinPlugin.kt:120-135 | a second `getOrCreateInsulin` with an equivalent, in-range config does not grow the list |
| InsulinRegistry.LoadEntriesOfEncoded | plugins/insulin/src/main/kotlin/app/aaps/plugins/insulin/InsulinPlugin.kt:291-322 | loading the encoded entries of a list with distinct non-empty labels appends exactly that list |
| InsulinRegistry.LoadEntriesKeepsLabelsDistinct | plugins/insulin/src/main/kotlin/app/aaps/plugins/insulin/InsulinPlugin.kt:313-320 | loading up to 10000 entries onto a list with distinct labels keeps them distinct |
| InsulinRegistry.ReloadedLabelsDistinct | plugins/insulin/src/main/kotlin/app/aaps/plugins/insulin/InsulinPlugin.kt:306-322 | any configuration of at most 10000 entries loads with pairwise distinct labels |
| InsulinRegistry.ReloadRoundTrip | plugins/insulin/src/main/kotlin/app/aaps/plugins/insulin/InsulinPlugin.kt:291-322 | reloading `configuration()` of a non-empty list with distinct, non-empty labels gives that list back |
| InsulinRegistry.ReloadMissingOrEmpty | plugins/insulin/src/main/kotlin/app/aaps/plugins/insulin/InsulinPlugin.kt:308-312 | an absent array leaves the list empty; an empty array seeds the single OREF_RAPID_ACTING config |
| InsulinRegistry.IobCalc | plugins/insulin/src/main/kotlin/app/aaps/plugins/insulin/InsulinPlugin.kt:272-289 | the result is left untouched exactly when the amount is 0, the peak is 0, or the DIA has elapsed; otherwise it holds the formula's two values at `t` minutes, `td = dia * 60` and `tp = peak` |
| InsulinRegistry.IobAfterDiaIsUntouched | plugins/insulin/src/main/kotlin/app/aaps/plugins/insulin/InsulinPlugin.kt:276-286 | once DIA hours have passed since the bolus, nothing is contributed |
| InsulinRegistry.InsulinPlugin.constructor | plugins/insulin/src/main/kotlin/app/aaps/plugins/insulin/InsulinPlugin.kt:84-100 | an empty list, index 0, no working copy, not edited |
| InsulinRegistry.InsulinPlugin.InsulinLabelAlreadyExists | plugins/insulin/src/main/kotlin/app/aaps/plugins/insulin/InsulinPlugin.kt:235-244 | true exactly when an entry at another index than `currentIndex` has the label |
| InsulinRegistry.InsulinPlugin.CreateNewInsulinLabel | plugins/insulin/src/main/kotlin/app/aaps/plugins/insulin/InsulinPlugin.kt:218-233 | the label is the one `SearchLabel` specifies for the template's base label |
| InsulinRegistry.InsulinPlugin.FindEquivalent | plugins/insulin/src/main/kotlin/app/aaps/plugins/insulin/InsulinPlugin.kt:149-156 | the scan answers the first equivalent entry, or none |
| InsulinRegistry.InsulinPlugin.DefaultInsulinIndex | plugins/insulin/src/main/kotlin/app/aaps/plugins/insulin/InsulinPlugin.kt:87-97 | the first entry equivalent to the effective default config, else 0 |
| InsulinRegistry.InsulinPlugin.GetDefaultDia | plugins/insulin/src/main/kotlin/app/aaps/plugins/insulin/InsulinPlugin.kt:145 | OREF_RAPID_ACTING's DIA for an empty list, else the default entry's DIA |
| InsulinRegistry.InsulinPlugin.GetInsulin | plugins/insulin/src/main/kotlin/app/aaps/plugins/insulin/InsulinPlugin.kt:163-170 | the first entry with the label, else the default entry |
| InsulinRegistry.InsulinPlugin.Configuration | plugins/insulin/src/main/kotlin/app/aaps/plugins/insulin/InsulinPlugin.kt:291-304 | `{"insulins": [...]}` holding one `toJson` per entry, in list order |
| InsulinRegistry.InsulinPlugin.StoreSettings | plugins/insulin/src/main/kotlin/app/aaps/plugins/insulin/InsulinPlugin.kt:258-262 | the stored configuration becomes the list's configuration and the edited flag is cleared |
| InsulinRegistry.InsulinPlugin.AddNewInsulin | plugins/insulin/src/main/kotlin/app/aaps/plugins/insulin/InsulinPlugin.kt:192-204 | exactly one entry (`Appended`) is added at the end, earlier entries unchanged; it becomes current with an equal working copy; the list is stored and not edited |
| InsulinRegistry.InsulinPlugin.RemoveCurrentInsulin | plugins/insulin/src/main/kotlin/app/aaps/plugins/insulin/InsulinPlugin.kt:206-216 | exactly the current entry is removed, the others keep their order; the default entry (first equivalent to the effective config, else 0) becomes current with an equal working copy; the list is stored |
| InsulinRegistry.InsulinPlugin.RepairToHardLimits | plugins/insulin/src/main/kotlin/app/aaps/plugins/insulin/InsulinPlugin.kt:121-125 | the step-by-step repair equals `Clamp` with the default peak and the default DIA |
| InsulinRegistry.InsulinPlugin.GetOrCreateInsulin | plugins/insulin/src/main/kotlin/app/aaps/plugins/insulin/InsulinPlugin.kt:120-135 | the result is equivalent to the repaired candidate; an equivalent entry is returned with the state unchanged, otherwise the tagged candidate is appended and becomes current |
| InsulinRegistry.InsulinPlugin.SetCurrent | plugins/insulin/src/main/kotlin/app/aaps/plugins/insulin/InsulinPlugin.kt:147-161 | the first equivalent entry, or a newly appended last one, becomes current; the working copy equals it and the edited flag is set exactly for template-less entries |
| InsulinRegistry.InsulinPlugin.SetDefault | plugins/insulin/src/main/kotlin/app/aaps/plugins/insulin/InsulinPlugin.kt:113-118 | a peak-valid config's peak and template (or its peak's template) become the preferences, and for a template-less config `getDefaultPeak()` then answers its peak; otherwise nothing changes |
| InsulinRegistry.InsulinPlugin.ApplyConfiguration | plugins/insulin/src/main/kotlin/app/aaps/plugins/insulin/InsulinPlugin.kt:306-322 | the list becomes `Reloaded(configuration)`; when it is non-empty its last entry is current with an equal working copy and the list is stored |
| InsulinRegistry.InsulinPlugin.LoadSettings | plugins/insulin/src/main/kotlin/app/aaps/plugins/insulin/InsulinPlugin.kt:246-256 | an unparsable stored configuration changes nothing; otherwise the list is reloaded from it, and as in `applyConfiguration` the last entry becomes current and the list is stored, or the rest of the state is kept when the list stays empty |
| InsulinRegistry.InsulinPlugin.IsValidEditState | plugins/insulin/src/main/kotlin/app/aaps/plugins/insulin/InsulinPlugin.kt:324-350 | each rejection holds exactly when its check fails and every earlier check passed (DIA, peak, empty label, duplicate label); acceptance exactly when all pass |
| InsulinRegistry.InsulinPlugin.IobCalcForTreatment | plugins/insulin/src/main/kotlin/app/aaps/plugins/insulin/InsulinPlugin.kt:264-270 | the IOB is computed on the config repaired to the hard limits |
| Text.IntText | plugins/insulin/src/main/kotlin/app/aaps/plugins/insulin/InsulinPlugin.kt:219-226 | the decimal rendering of an `Int` in a label is non-empty, starts with `-` exactly for a negative value, and is digits after that |
| Text.DiaText | plugins/insulin/src/main/kotlin/app/aaps/plugins/insulin/InsulinPlugin.kt:221-222 | the rendering of a DIA in a label ends in a point and one digit, and starts with `-` exactly for a negative DIA |
| InsulinRegistry.LabelTemplate | plugins/insulin/src/main/kotlin/app/aaps/plugins/insulin/InsulinPlugin.kt:219 | a given template is used; without one, a template whose peak equals the config's peak, or OREF_FREE_PEAK when no template has that peak |
| InsulinJson.OptString | core/objects/src/main/kotlin/app/aaps/core/objects/extensions/InsulinExtension.kt:20 | `optString`: the string under the key, or the default when the key is missing or holds no string |
| InsulinJson.OptLong | core/objects/src/main/kotlin/app/aaps/core/objects/extensions/InsulinExtension.kt:21-22 | `optLong`: the number under the key, or the default when the key is missing or holds no number |
| InsulinJson.OptInt | core/objects/src/main/kotlin/app/aaps/core/objects/extensions/InsulinExtension.kt:23 | `optInt`: the number under the key when it fits in an `Int`, otherwise that number modulo 2^32; the default when the key is missing or holds no number |
| InsulinRegistry.OptArray | plugins/insulin/src/main/kotlin/app/aaps/plugins/insulin/InsulinPlugin.kt:309 | `optJSONArray` gives an array exactly when the key holds one, and then its items |
| InsulinRegistry.LoadEntries | plugins/insulin/src/main/kotlin/app/aaps/plugins/insulin/InsulinPlugin.kt:313-320 | the loop over the items only appends: the old list is a prefix, at most one entry per item is added, and labels stay non-empty |
| InsulinRegistry.Reloaded | plugins/insulin/src/main/kotlin/app/aaps/plugins/insulin/InsulinPlugin.kt:306-322 | no `insulins` array gives an empty list; an empty array gives at most the one new-install entry, otherwise at most one entry per item; every label is non-empty |
| InsulinRegistry.GetOrCreateList | plugins/insulin/src/main/kotlin/app/aaps/plugins/insulin/InsulinPlugin.kt:120-139 | the list is kept or grows by exactly one entry at the end, and afterwards holds an entry equivalent to the candidate |
| InsulinRegistry.ToJsonArray | plugins/insulin/src/main/kotlin/app/aaps/plugins/insulin/InsulinPlugin.kt:295-301 | one JSON object per entry, in order, each decoding back to its entry |
| InsulinRegistry.ConfigurationOf | plugins/insulin/src/main/kotlin/app/aaps/plugins/insulin/InsulinPlugin.kt:291-304 | the configuration has the single key `insulins`, holding `ToJsonArray` of the list |
| InsulinRegistry.DefaultDiaOf | plugins/insulin/src/main/kotlin/app/aaps/plugins/insulin/InsulinPlugin.kt:145 | 6.0 h (60 tenths) for an empty list; otherwise the DIA of some entry |
| InsulinRegistry.InsulinPlugin.Repaired | plugins/insulin/src/main/kotlin/app/aaps/plugins/insulin/InsulinPlugin.kt:122-125 | label and template are kept and a valid config is unchanged; an in-range time is kept, an out-of-range peak becomes `getDefaultPeak() * 60000` in `Int` and an out-of-range DIA becomes `getDefaultDia()` hours |

## Left out

- The IOB formula (the `exp`/`pow` expressions of `iobCalc`) is double-precision numerics. It is a parameter `formula`; only the guards around it are modelled. Negative elapsed times get no guard, as in the source.
- InsulinRegistry.IobCalc: takes the config rather than the two doubles `getPeak().toDouble()` and `getDia()`. The elapsed time and the comparisons use exact reals instead of IEEE doubles.
- `sendShortDiaNotification` depends on the wall clock and the UI notification service. It is not part of this model.
- `uel.log` user-entry logging, `aapsLogger` and the `ToastUtils` messages have no effect on the state. `isValidEditState` answers the reason as an `EditCheck` value instead of a toast and a boolean. The `ue` flag of `addNewInsulin` only controls logging, so it is not a parameter.
- `rh.gs` resource lookups are the `templateName` function given at construction. `insulinList` and `numOfInsulins` only read or format the list, `insulinTemplateList` lists the four template names, `friendlyName` is a resource string and `id` is the constant `UNKNOWN`; none of them is modelled.
- `loadSettings` parses a JSON string; the text parse and its exception are not modelled. The stored configuration is held already parsed, with `None` for text that does not parse. `org.json` value conversions (a number stored as a string, a double narrowed by `optLong`) are not modelled: only strings and integer numbers are read.
- The Preferences store is the fields `preferredTemplate` and `preferredPeak` and `storedConfiguration`. `onStart` only calls `loadSettings`.
- `@Synchronized`: concurrency is not modelled; every operation is sequential and atomic.
- `profileFunction.getProfile()` behind the `iCfg` getter is the per-call parameter `profile`.
- `InsulinFragment` (the Android UI) is not part of this model. Its caller-side guards are not preconditions here: the fragment removes only a non-default entry and saves only after a successful `isValidEditState`.
- InsulinRegistry.InsulinPlugin.RemoveCurrentInsulin: requires a valid current index and at least two entries. The source has no guard against removing the default entry, and the model follows the code: the comment at InsulinPlugin.kt:207-208 plans to refuse removing the default insulin but leaves it as a Todo, and only InsulinFragment.kt:133 guards the call. With a single entry the source fails on an empty list when it reads the new current entry, so that call is excluded.
- Aliasing: the source mutates the caller's `ICfg` in place (`getOrCreateInsulin`, `iobCalcForTreatment`, `addNewInsulin` relabelling its argument, and the `iCfg` getter setting the profile's peak at InsulinPlugin.kt:78-80). The model returns updated values, so the caller's object is not shown to change. The caller's `ICfg` can also be one of the registry's own entries: `getInsulin` (InsulinPlugin.kt:166, 169), the found branch of `getOrCreateInsulin` (InsulinPlugin.kt:128) and the getter without a profile (InsulinPlugin.kt:81) return list objects, not clones. In the source, `getOrCreateInsulin(insulins[i])` with an out-of-range peak repairs `insulins[i]` in place, finds it equal to itself and appends nothing; the model leaves `insulins[i]` unchanged and may append a relabelled repaired copy. Likewise `iobCalcForTreatment(bolus, time, insulins[i])` changes `insulins[i]` in the source, while the model changes nothing.
- The DIA is exact in tenths of an hour. Floating-point rounding of `dia * 3600 * 1000` and of the DIA comparisons against the limits is not modelled.
- `insulinEndTime` and `insulinPeakTime` are unbounded integers; the 64-bit `Long` range is not modelled.
- Text.DiaText: renders `Double.toString()` of a tenth-of-an-hour value as whole part, point and one decimal. Kotlin's switch to scientific notation, for magnitudes of 10^7 hours and more, is not modelled.
- InsulinRegistry.InsulinPlugin.AddNewInsulin, InsulinRegistry.InsulinPlugin.ApplyConfiguration: keeping the labels distinct is not stated in their `ensures`. Lemmas state it under the condition the proof needs: at most 10000 entries (AppendKeepsLabelsDistinct with SearchLabel, LoadEntriesKeepsLabelsDistinct, ReloadedLabelsDistinct, RemoveKeepsLabelsDistinct).
- InsulinRegistry.InsulinPlugin.GetInsulin: requires a non-empty list. On an empty list the source throws when it reads `insulins[defaultInsulinIndex]`; the exception is not modelled.
- InsulinRegistry.InsulinPlugin.DefaultInsulinIndex, InsulinRegistry.EffectiveICfg: require a profile or a non-empty list. Without either, the `iCfg` getter throws at `insulins[0]`; the exception is not modelled.
- InsulinRegistry.InsulinPlugin.IsValidEditState: requires an assigned working copy. Reading the `lateinit` field before its first assignment throws; the exception is not modelled.
- InsulinRegistry.InsulinPlugin.DefaultPeak: only reads the two preference fields into `DefaultPeakOf`, whose contract states `getDefaultPeak()`.
