# Token reconciliation in the language-token editor

The token editor compares one language file, as nested JSON, against the English reference file. It shows translators which tokens are missing or blank. It has three parts:

- **`flatten`** turns a nested JSON value into an ordered map from dotted paths (`groupA.token1`) to strings.
- **`unflattenToObject`** turns such a map back into nested JSON.
- **The component state** is the two flattened maps (English and target), the list of missing keys, the "show only missing" filter and the pictures attached to each group. It also holds the cached token groups, which are rebuilt only when a version counter has moved.

This project models those three parts in Dafny and proves what they promise:

- **Flatten and unflatten round trip.** Flattening the result of unflattening gives back the original map, key by key. This holds for maps whose keys have non-empty segments, none of them a segment-wise prefix of another.
- **Missing keys.** The missing list is exactly the English keys whose translation is absent, `null`, or whitespace only. It keeps the English order and has no duplicates.
- **The list the view shows.** It is the sorted, duplicate-free union of both key sets, or the missing list while the filter is on.
- **The groups.** They are sorted by distinct prefix. No group is empty. Each keeps the order of the view's list. Taken together, the groups' token lists are a permutation of that list.
- **The version gate.** Once the groups are current for this version (after any `detectMissing`), toggling the filter or attaching a picture does not rebuild them.

Modules (one per file):

| module | file | models |
|---|---|---|
| `Wrappers` | `wrappers.dfy` | `Option` |
| `Assoc` | `assoc.dfy` | JS objects used as ordered maps: assignment keeps an existing key's place and appends a new one; `Object.assign` |
| `Paths` | `paths.dfy` | `split('.')`, the dotted key `flatten` builds |
| `Order` | `order.dfy` | the default `sort()` order, sorting a set, subsequences |
| `JsonValue` | `json.dfy` | parsed JSON values and the path lookup used to state properties |
| `Flattening` | `flatten.dfy` | `flatten` |
| `Unflattening` | `unflatten.dfy` | `unflattenToObject` |
| `Text` | `text.dfy` | `trim`, the case-insensitive `en.json` and `.json` tests |
| `Missing` | `missing.dfy` | the filter inside `detectMissing` |
| `Grouping` | `grouping.dfy` | the prefix rule and the groups `computeGroups` builds |
| `Editor` | `editor.dfy` | the component's state as a class, and its methods |
| `Scenarios` | `scenarios.dfy` | call sequences, including the test fixture of the component spec |
| `Prototype` | `prototype.dfy` | the lookups as written, where inherited `Object.prototype` properties are visible |

Some behaviours are modelled exactly as the code has them.

- **The prefix rule.** A token's prefix is `t.split('.')[0] || 'root'`. A key without a dot is its own prefix. `root` appears only for a key that is empty or starts with `.`.
- **The toggle leaves the groups stale.** `onShowOnlyMissingChange` and the picture assignment do not change `tokensVersion`. Once the groups are current for this version (after any `detectMissing`), the `computeGroups` call inside `onShowOnlyMissingChange` returns at once, and `tokenGroups` keeps its old value; the picture assignment calls no `computeGroups` at all. On a fresh component the version is 0 and the recorded one -1, so the first toggle does rebuild the groups, of the then-empty list, and records version 0 (`Scenarios.FilterOnNew`).
- **The test disagrees with the code.** The test at `token-editor.component.spec.ts:50-67` calls `detectMissing()` and then `onShowOnlyMissingChange(true)`, and expects two groups. With the code as written, that call order yields the three union-mode groups (`Scenarios.TestCallOrder`). The two groups the test expects arise when the filter is set before `detectMissing` (`Scenarios.TestFilterFirst`).

## Model

| member | source | states |
|---|---|---|
| Assoc.Lookup | lang-token-app/src/app/token-editor/token-editor.component.ts:201 | `obj[k]` for an own property is defined exactly when `k` is one of `Object.keys(obj)` |
| Assoc.LookupPut | lang-token-app/src/app/token-editor/token-editor.component.ts:265 | after `obj[k] = v`, `obj[k]` reads `v` and every other key reads what it read before |
| Assoc.KeysPut | lang-token-app/src/app/token-editor/token-editor.component.ts:265 | `obj[k] = v` keeps an existing key in its place and appends a new one at the end of `Object.keys` |
| Assoc.Merge | lang-token-app/src/app/token-editor/token-editor.component.ts:263 | after `Object.assign(res, child)`, the key of `child`'s last entry reads that entry's value |
| Assoc.LookupMerge | lang-token-app/src/app/token-editor/token-editor.component.ts:263 | after `Object.assign(res, child)`, a key reads from `child` when `child` has it and from `res` otherwise |
| JsonValue.Scalar | lang-token-app/src/app/token-editor/token-editor.component.ts:265 | `val == null ? '' : String(val)` gives `''` for `null` and a string unchanged |
| Flattening.Flatten | lang-token-app/src/app/token-editor/token-editor.component.ts:255-257 | a value that is not an object flattens to the empty map; the result never repeats a key |
| Flattening.FlattenLookup | lang-token-app/src/app/token-editor/token-editor.component.ts:255-269 | for a value whose property names are non-empty, dot-free and distinct, `flatten(j, prefix)[key]` is defined exactly when `key`'s segments are the prefix's segments followed by the path of a non-object leaf of `j`; it then holds that leaf's text (`null` as `''`, strings unchanged) |
| Flattening.FlattenFields | lang-token-app/src/app/token-editor/token-editor.component.ts:258-267 | after any number of the loop's properties, the result map has no repeated key |
| Flattening.FieldsLookup | lang-token-app/src/app/token-editor/token-editor.component.ts:258-267 | for a value whose property names are non-empty, dot-free and distinct, after the first `n` properties each key holds what the leaf under those properties at that key's segments stands for |
| Flattening.LastScalarWins | lang-token-app/src/app/token-editor/token-editor.component.ts:258-266 | a non-object property is stored under `prefix.k` after the properties before it, so it overwrites any equal key they produced |
| Flattening.FlattenExamples | lang-token-app/src/app/token-editor/token-editor.component.ts:257-265 | `{a: null}` gives `{a: ''}`; `{a: {}}` gives no key; a later nested `a.b` overwrites an earlier property named `a.b` in place; a string or `null` gives `{}` |
| Flattening.KeyIsSegments | lang-token-app/src/app/token-editor/token-editor.component.ts:260 | the key built for property `k` under `prefix` is exactly the string whose segments are the prefix's followed by `k` |
| Flattening.ObjectStep | lang-token-app/src/app/token-editor/token-editor.component.ts:261-263 | merging a nested object's flattened map with `Object.assign` adds exactly the leaves under the new property |
| Flattening.ScalarStep | lang-token-app/src/app/token-editor/token-editor.component.ts:264-265 | storing a scalar adds exactly the leaf at the new property's path |
| Unflattening.SetPath | lang-token-app/src/app/token-editor/token-editor.component.ts:275-285 | writing along a non-empty path always leaves an object at the top |
| Unflattening.UnflattenUpTo | lang-token-app/src/app/token-editor/token-editor.component.ts:274-286 | after any number of keys of the `forEach`, `out` is still an object |
| Unflattening.Unflatten | lang-token-app/src/app/token-editor/token-editor.component.ts:272-288 | `unflattenToObject` always returns an object |
| Unflattening.UnflattenToObject | lang-token-app/src/app/token-editor/token-editor.component.ts:272-288 | the loop over the keys builds the same value as setting each key's path in turn, starting from `{}` |
| Unflattening.GetSetPathAt | lang-token-app/src/app/token-editor/token-editor.component.ts:277-281 | after setting path `p` to `v`, following `p` reaches `v` itself, uncoerced |
| Unflattening.GetSetPathAbove | lang-token-app/src/app/token-editor/token-editor.component.ts:282-283 | every proper prefix of the path reaches an object afterwards: a missing, `''` or other non-object position is replaced by `{}` |
| Unflattening.GetSetPathBelow | lang-token-app/src/app/token-editor/token-editor.component.ts:280 | a path below the one set reaches what it reaches inside the stored value |
| Unflattening.GetSetPathAside | lang-token-app/src/app/token-editor/token-editor.component.ts:275-285 | a path that neither contains nor is contained in the one set reaches what it reached before |
| Unflattening.GetSetPathHead | lang-token-app/src/app/token-editor/token-editor.component.ts:278-283 | one step of the walk: a path with the same first segment continues into that child, any other path is untouched |
| Unflattening.UnflattenOverwrites | lang-token-app/src/app/token-editor/token-editor.component.ts:282 | `{a: '', 'a.b': x}` unflattens to `{a: {b: x}}`: the `''` at `a` is replaced by an object |
| Unflattening.UnflattenRegroups | lang-token-app/src/app/token-editor/token-editor.component.ts:274-285 | keys `a.x, b, a.y` unflatten to `{a: {x, y}, b}`, so the object's key order differs from the map's |
| Unflattening.UnflattenUpToCanonical | lang-token-app/src/app/token-editor/token-editor.component.ts:272-288 | for a map whose keys have non-empty segments and none of which is a segment-wise prefix of another, every prefix of the loop builds an object with distinct, non-empty, dot-free names |
| Unflattening.UnflattenUpToReaches | lang-token-app/src/app/token-editor/token-editor.component.ts:274-286 | after the first `n` keys, each of them reaches its own value |
| Unflattening.UnflattenUpToLeaves | lang-token-app/src/app/token-editor/token-editor.component.ts:274-286 | every non-object leaf of the output sits at the path of some key of the map |
| Unflattening.UnflattenReaches | lang-token-app/src/app/token-editor/token-editor.component.ts:275-285 | for such a map, following any key's segments in the output reaches exactly `map[key]` as a string |
| Unflattening.RoundTrip | lang-token-app/src/app/token-editor/token-editor.component.ts:254-288 | for such a map, `flatten(unflattenToObject(m))` holds the same value as `m` at every key, and no key that `m` lacks |
| Paths.Split | lang-token-app/src/app/token-editor/token-editor.component.ts:275 | `split('.')` gives at least one segment, and no segment contains a dot |
| Paths.SplitJoin | lang-token-app/src/app/token-editor/token-editor.component.ts:275 | splitting a `.`-join of dot-free segments gives back those segments |
| Paths.SplitInjective | lang-token-app/src/app/token-editor/token-editor.component.ts:275 | two strings with the same `split('.')` are equal |
| Text.Trim | lang-token-app/src/app/token-editor/token-editor.component.ts:202 | `s.trim()` is a slice of `s` whose removed start and end consist only of whitespace or line terminators, and which itself starts and ends with neither |
| Text.IsEnglishFile | lang-token-app/src/app/token-editor/token-editor.component.ts:81 | a name is the English file exactly when it ends in `.json` (any case) and its language code, as line 76 strips it, is `en` in any case |
| Text.TrimEmpty | lang-token-app/src/app/token-editor/token-editor.component.ts:202 | `s.trim() === ''` exactly when every character of `s` is ECMAScript whitespace or a line terminator |
| Text.StripJsonSuffix | lang-token-app/src/app/token-editor/token-editor.component.ts:76 | a case-insensitive `.json` ending is removed, and nothing else is; a name without it is unchanged |
| Text.StripExamples | lang-token-app/src/app/token-editor/token-editor.component.ts:76-81 | `fr.json` gives `fr`; `EN.JSON` gives `EN` and is the English file; `fr.json` is not |
| Missing.BlankTrim | lang-token-app/src/app/token-editor/token-editor.component.ts:201-202 | a value counts as blank exactly when it is absent (or `null`) or trims to `''` |
| Missing.MissingKeys | lang-token-app/src/app/token-editor/token-editor.component.ts:200-203 | the filter keeps at most the English keys, and every key it keeps has an absent, `null` or blank translation |
| Missing.MissingIff | lang-token-app/src/app/token-editor/token-editor.component.ts:199-203 | a key is in the missing list exactly when it is an English key whose target value is absent, `null` or whitespace only |
| Missing.MissingInOrder | lang-token-app/src/app/token-editor/token-editor.component.ts:200 | the missing list is a subsequence of the English keys, so their order is kept |
| Missing.MissingNoDuplicates | lang-token-app/src/app/token-editor/token-editor.component.ts:200 | the missing list has no duplicates |
| Missing.MissingExamples | lang-token-app/src/app/token-editor/token-editor.component.ts:200-203 | `"   "` is missing, `"0"` is not, an absent translation is missing, and an empty English map gives an empty list |
| Order.SortDistinct | lang-token-app/src/app/token-editor/token-editor.component.ts:216-218 | `Array.from(new Set(s)).sort()` is strictly increasing and holds exactly the elements of `s` |
| Order.Insert | lang-token-app/src/app/token-editor/token-editor.component.ts:217 | adding a key to a sorted set keeps it strictly sorted and adds exactly that key |
| Order.SortDistinctBySet | lang-token-app/src/app/token-editor/token-editor.component.ts:216-218 | the sorted result depends only on the set of keys: lists with the same elements sort to the same list |
| Order.SortedUnique | lang-token-app/src/app/token-editor/token-editor.component.ts:218 | two strictly sorted lists with the same elements are equal |
| Order.BelowTotal | lang-token-app/src/app/token-editor/token-editor.component.ts:218 | the code-unit order of `sort()` is total on distinct strings |
| Order.BelowTransitive | lang-token-app/src/app/token-editor/token-editor.component.ts:218 | that order is transitive |
| Order.SubsequenceSorted | lang-token-app/src/app/token-editor/token-editor.component.ts:236-238 | a subsequence of a strictly sorted list is strictly sorted |
| Grouping.PrefixOf | lang-token-app/src/app/token-editor/token-editor.component.ts:234 | a prefix is never empty |
| Grouping.PrefixRule | lang-token-app/src/app/token-editor/token-editor.component.ts:234 | a key's prefix is its first segment: a dot-free key is its own prefix, and `a.rest` has prefix `a` |
| Grouping.RootPrefix | lang-token-app/src/app/token-editor/token-editor.component.ts:234 | the key `""` and every key starting with `.` go to `root` |
| Grouping.Bucket | lang-token-app/src/app/token-editor/token-editor.component.ts:233-237 | the list `map[p]` collects is no longer than the working list, and every token in it has prefix `p` |
| Grouping.Picture | lang-token-app/src/app/token-editor/token-editor.component.ts:238 | `tokenPictures[p]` is defined exactly when a picture was attached to `p`, and is that picture |
| Grouping.GroupsOf | lang-token-app/src/app/token-editor/token-editor.component.ts:238 | one group per distinct prefix, in sorted prefix order |
| Grouping.BucketMembers | lang-token-app/src/app/token-editor/token-editor.component.ts:233-237 | a token is in prefix `p`'s list exactly when it is in the working list and its prefix is `p` |
| Grouping.BucketInOrder | lang-token-app/src/app/token-editor/token-editor.component.ts:233-237 | each prefix's list keeps the working list's relative order |
| Grouping.GroupsShape | lang-token-app/src/app/token-editor/token-editor.component.ts:231-238 | group prefixes strictly increase; no group is empty; every token of a group has that group's prefix; each group keeps the working order; `picture` is `tokenPictures[prefix]` |
| Grouping.GroupsPermutation | lang-token-app/src/app/token-editor/token-editor.component.ts:231-238 | the groups' token lists, concatenated, are a permutation of the working list |
| Grouping.BucketsKeys | lang-token-app/src/app/token-editor/token-editor.component.ts:232-238 | the keys of the map built by the `forEach` are exactly the prefixes that occur |
| Grouping.PushStep | lang-token-app/src/app/token-editor/token-editor.component.ts:234-236 | one `forEach` step keeps each prefix's list equal to the tokens so far with that prefix |
| Editor.UnionKeys | lang-token-app/src/app/token-editor/token-editor.component.ts:216-218 | the union view is strictly sorted, has no duplicates and holds exactly the keys of both maps |
| Editor.TokenEditor.TokensToShow | lang-token-app/src/app/token-editor/token-editor.component.ts:213-219 | while filtering, the view's list is `missingTokens`; otherwise it is strictly sorted and holds exactly the keys of both maps |
| Editor.FilterMissing | lang-token-app/src/app/token-editor/token-editor.component.ts:200-203 | the `filter` loop yields exactly the missing keys |
| Editor.AddKeys | lang-token-app/src/app/token-editor/token-editor.component.ts:216-217 | adding each key of a map to a `Set` (kept as a duplicate-free list) leaves it duplicate-free and holding the old elements plus exactly the map's keys |
| Editor.GroupTokens | lang-token-app/src/app/token-editor/token-editor.component.ts:232-238 | the `forEach`, the sort of `Object.keys(map)` and the `map` together build exactly the groups of the working list |
| Editor.CollectBuckets | lang-token-app/src/app/token-editor/token-editor.component.ts:232-237 | after the `forEach`, each occurring prefix maps to its tokens in working order, and no other prefix is present |
| Editor.BuildGroups | lang-token-app/src/app/token-editor/token-editor.component.ts:238 | the `map` over the sorted prefixes gives, for each, that prefix's tokens and its picture |
| Editor.TokenEditor.constructor | lang-token-app/src/app/token-editor/token-editor.component.ts:11-25 | the fields' initial values: empty maps and lists, the filter off, version 0, last computed version -1 |
| Editor.TokenEditor.EnglishCount | lang-token-app/src/app/token-editor/token-editor.component.ts:209-211 | the number of distinct English keys |
| Editor.TokenEditor.IsMissing | lang-token-app/src/app/token-editor/token-editor.component.ts:194-196 | true exactly when the token is in `missingTokens` |
| Editor.TokenEditor.GetTokensToShow | lang-token-app/src/app/token-editor/token-editor.component.ts:213-219 | `missingTokens` itself while filtering; otherwise the sorted union of the two key sets, built by the `Set` loop |
| Editor.TokenEditor.ComputeGroups | lang-token-app/src/app/token-editor/token-editor.component.ts:227-239 | when the version has not moved, nothing changes; otherwise the groups of the current list and pictures are stored and the version is recorded; the version order stays intact |
| Editor.TokenEditor.DetectMissing | lang-token-app/src/app/token-editor/token-editor.component.ts:199-207 | `missingTokens` becomes the missing keys; the version rises by exactly one; the groups are rebuilt for the current list |
| Editor.TokenEditor.OnShowOnlyMissingChange | lang-token-app/src/app/token-editor/token-editor.component.ts:241-244 | the filter takes the new value and the version is unchanged, so the groups are rebuilt only if they were already out of date |
| Editor.TokenEditor.AttachPicture | lang-token-app/src/app/token-editor/token-editor.component.ts:250 | only the picture map changes: it gains or replaces the entry at that prefix; the version and the groups are not touched |
| Editor.TokenEditor.Ingest | lang-token-app/src/app/token-editor/token-editor.component.ts:75-89 | the file name and language are set; an `en.json` name (any case) replaces the English map, any other name the target map; then the effects of `detectMissing` |
| Scenarios.DetectThenFilter | lang-token-app/src/app/token-editor/token-editor.component.spec.ts:50-55 | for any two maps, `detectMissing` then `onShowOnlyMissingChange(true)` leaves the union-view groups, while the view's list is the missing keys |
| Scenarios.FilterThenDetect | lang-token-app/src/app/token-editor/token-editor.component.spec.ts:50-55 | with the filter set first, `detectMissing` groups the missing keys |
| Scenarios.PictureAfterDetect | lang-token-app/src/app/token-editor/token-editor.component.ts:241-250 | a picture attached after the groups were built is in the picture map but not in the groups |
| Scenarios.ComputeTwice | lang-token-app/src/app/token-editor/token-editor.component.ts:227-230 | a second `computeGroups` with nothing changed in between keeps what the first one left |
| Scenarios.TestCallOrder | lang-token-app/src/app/token-editor/token-editor.component.spec.ts:30-67 | the test's fixture and call order give three groups (`groupA`, `groupB`, `groupC`, two tokens each, no picture), where the test expects two; the view's list is `groupA.token1`, `groupA.token2`, `groupB.token2` |
| Scenarios.TestFilterFirst | lang-token-app/src/app/token-editor/token-editor.component.spec.ts:57-67 | with the filter set first, the same fixture gives the two groups the test expects: `groupA` with two tokens and `groupB` with only `groupB.token2` |
| Scenarios.TestPictureAfterDetect | lang-token-app/src/app/token-editor/token-editor.component.ts:241-250 | on the fixture, a `groupA` picture attached after `detectMissing` does not reach `groupA`'s group |
| Scenarios.UnionOf | lang-token-app/src/app/token-editor/token-editor.component.spec.ts:32-47 | the fixture's union view is its six English keys in order |
| Scenarios.MissingOf | lang-token-app/src/app/token-editor/token-editor.component.spec.ts:32-47 | the fixture's missing keys are `groupA.token1`, `groupA.token2` and `groupB.token2` |
| Scenarios.TwoEachGroups | lang-token-app/src/app/token-editor/token-editor.component.spec.ts:32-39 | six sorted keys, two under each of three sorted prefixes, form three groups of two |
| Scenarios.TwoEachMissingGroups | lang-token-app/src/app/token-editor/token-editor.component.spec.ts:57-67 | the fixture's missing keys form two groups: two tokens, then one |
| Scenarios.FixtureTwoEach | lang-token-app/src/app/token-editor/token-editor.component.spec.ts:32-39 | the fixture's keys are sorted and fall two each under `groupA`, `groupB` and `groupC` |
| Prototype.Read | lang-token-app/src/app/token-editor/token-editor.component.ts:201-202 | `obj[k]` on a plain object: the own value if there is one; otherwise the inherited `Object.prototype` member for the names it has; otherwise `undefined` |
| Prototype.MissingKeysAsWritten | lang-token-app/src/app/token-editor/token-editor.component.ts:200-203 | the filter as written keeps at most the English keys, and each key it keeps reads as `undefined` or a blank own string |
| Prototype.MissingAsWrittenAgrees | lang-token-app/src/app/token-editor/token-editor.component.ts:200-203 | when no English key names an `Object.prototype` member, the filter as written gives exactly the missing keys |
| Prototype.ConstructorKeyNotReported | lang-token-app/src/app/token-editor/token-editor.component.ts:201-202 | an English key `constructor` with no translation is not reported as missing by the code as written, though it is missing |
| Prototype.PushAsWritten | lang-token-app/src/app/token-editor/token-editor.component.ts:234-236 | one pass throws exactly when the prefix names an inherited member; otherwise `Object.keys(map)` gains at most that prefix and the prefix's list ends with the token |
| Prototype.BucketsAsWritten | lang-token-app/src/app/token-editor/token-editor.component.ts:233-237 | the `forEach` as written throws exactly when some token's prefix names an `Object.prototype` member; otherwise no key of its map names one |
| Prototype.BucketsAsWrittenAgree | lang-token-app/src/app/token-editor/token-editor.component.ts:233-237 | when no prefix names an `Object.prototype` member, the `forEach` as written builds the same buckets as the model |
| Prototype.InheritedPrefixThrows | lang-token-app/src/app/token-editor/token-editor.component.ts:233-237 | a single token whose prefix names an `Object.prototype` member makes the `forEach` as written throw, where the intended result is one group under that prefix |
| Prototype.ConstructorPrefixThrows | lang-token-app/src/app/token-editor/token-editor.component.ts:235-236 | a token `constructor.title` makes the `forEach` as written throw, where the intended groups are one group `constructor` |

## Left out

- HTTP transport is not modelled: `ngOnInit`, `loadFiles`, the `http.get` in `loadFile`, `uploadFile`, `saveFile` and `loadAssetEnglish`. These are asynchronous requests to a server. `Editor.TokenEditor.Ingest` models only the state update that follows a successful fetch in `loadFile`.
- `loadLocalEnglish`, `loadLocalLang` and the file reading in `attachPicture` are left out. They use `FileReader`. `Editor.TokenEditor.AttachPicture` takes the data URL as a parameter and models only the map assignment at line 250.
- `localStorage` writes, `alert`, `console`, `lastError`, and the `Blob` download fallback are side effects and carry no logic.
- `getTokenGroups` only returns `tokenGroups`. The `files` field is filled only by transport.
- `nodeserver/server.js` is not part of this model; it is file-system routes. `app-routing.module.ts` is not part of this model; it is router configuration.
- The tests at `token-editor.component.spec.ts:70-127` are not modelled. They target members that the component does not have.
- Angular change detection, and the asynchronous interleaving of callbacks, are not modelled. Each method runs to completion.
- `String(n)` for numbers is not modelled. A number is carried as the text it converts to.
- Arrays are treated as objects whose property names are their indices. `Object.keys` putting integer-like names first is not modelled. Property order is the order given.
- A property named `__proto__` is treated as an ordinary name. In JavaScript, assigning a string to `res['__proto__']` (line 265) or to `cur['__proto__']` (line 280) is silently dropped, so a top-level scalar `__proto__` vanishes from `flatten`'s result and a last segment `__proto__` vanishes from `unflattenToObject`'s. For a segment `__proto__` that is not the last, `cur['__proto__']` at line 282 finds `Object.prototype`, a truthy object, which is kept. The walk then writes into the prototype every object shares: `{"__proto__.x": "1"}` unflattens to `{}` and gives every object an inherited `x`.
- Unflattening.RoundTrip: in terms of the code, promised only for maps none of whose keys has a `__proto__` segment. The model proves it for such keys as well, because it treats `__proto__` as an ordinary name.
- Unflattening.UnflattenReaches: in terms of the code, promised only for maps none of whose keys has a `__proto__` segment, for the same reason.
- Sorting compares Dafny characters, which are Unicode scalar values. JavaScript compares UTF-16 code units. The two orders agree on the Basic Multilingual Plane and may differ above it.
- `toLowerCase` is modelled for ASCII letters only. This is exact for the two comparisons the code makes, with `en.json` and `.json`.
- `Unflattening.UnflattenToObject` returns a fresh value rather than mutating the nested `out` through the `cur` pointer. Aliasing between the nested objects therefore is not modelled. Only the fold over the keys is a loop.
- Flattened maps hold only strings, as `flatten` produces. A target value of `null` is read as absent: the filter treats both the same way.
- `Unflattening.RoundTrip` compares the maps key by key, not as ordered lists. Unflattening regroups keys by their first segment, so the order can change (`Unflattening.UnflattenRegroups`).
- Flattening.FlattenLookup: stated for values whose property names are non-empty, dot-free and distinct. For other values, colliding keys overwrite one another; `Flattening.LastScalarWins` and `Flattening.FlattenExamples` cover that case. In terms of the code it also excludes a top-level scalar property named `__proto__`, which the code drops.
- Flattening.FieldsLookup: stated under the same restriction as `Flattening.FlattenLookup`, of which it is the loop step.
- `JsonValue.Json` allows an object to repeat a property name, which no parsed value does. `Editor.TokenEditor.Ingest` therefore requires `JsonValue.Parsed` of its data.
- The rest of the model treats a property name of `Object.prototype` (`constructor`, `toString`, …) as an ordinary key. The code as written differs there. Module `Prototype` and the table below cover only the reads at lines 201-202 and 235-236. The `__proto__` assignments are described above.

## Findings

| source | as written | input that shows it | evidently intended | confidence | as-written member | corrected member |
|---|---|---|---|---|---|---|
| lang-token-app/src/app/token-editor/token-editor.component.ts:201-202 | `this.tokens[k]` also reads properties inherited from `Object.prototype`, so for `k = "constructor"` it gets a function, which is neither `undefined`, `null` nor a string | English `{constructor: "Builder"}`, target `{}`: the missing list is empty | `constructor` is reported as missing, as any untranslated key is | high, not executed | Prototype.ConstructorKeyNotReported | Missing.MissingIff |
| lang-token-app/src/app/token-editor/token-editor.component.ts:235-236 | `map[prefix]` on a fresh `{}` finds the inherited `Object.prototype.constructor`, so no list is created and `.push` is called on a function, which throws `TypeError` | a working list with the token `constructor.title` | a group `constructor` holding `constructor.title` | high, not executed | Prototype.ConstructorPrefixThrows | Editor.CollectBuckets |
