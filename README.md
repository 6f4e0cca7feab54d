# CompatBuddy, modelled in Dafny

CompatBuddy is a VS Code extension that warns about web-platform features
with limited browser support. It has two cooperating parts:

- **The backend** (`backend/server.js`). It answers `POST /checkFeature`
  with a compatibility record. The record comes from a four-tier pipeline:
  1. an in-memory cache keyed by the exact feature name;
  2. a curated table keyed by the lower-cased name;
  3. a baseline data provider that may fail;
  4. a synthetic "ai" record templated on the name.

  Every answer is written back into the cache.
- **The extension** (`src/extension.ts`).
  - A fixed registry of ten feature descriptors holds a pattern, a feature
    name and the language identifiers each applies to.
  - `scanDocument` runs each applicable pattern as a global `exec` loop
    over the document text. It looks up each match's feature through a
    client-side cache in front of the backend, and emits a warning for each
    match whose support is below 85%.
  - `provideCodeActions` turns each of the extension's own warnings into an
    "Insert fallback snippet" quick fix.
  - The hover shows a green/yellow/red indicator.

The modules follow that structure:

| module | file | what it holds |
|---|---|---|
| `Wrappers` | wrappers.dfy | `Option` |
| `Compat` | compat.dfy | the `FeatureInfo` record both sides exchange, and the provenance tags |
| `Resolution` | resolution.dfy | the backend's tiers as pure functions, `Resolve` as "first tier that answers wins", and the properties of the pipeline |
| `Server` | server.dfy | the backend as a class: the `featureCache` map field, `checkFeatureCompatibility`, and the `/checkFeature` input check |
| `Registry` | registry.dfy | `WEB_FEATURES` |
| `Scanner` | scanner.dfy | the `exec` loop as a function of an abstract regular-expression engine, the literal `navigator.gpu` pattern matched concretely, and the order, disjointness and placement of the matches |
| `Diagnostics` | diagnostics.dfy | the client cache, the diagnostic text, the scan as a fold over its matches, and the reference definition `Assemble` with its properties |
| `Provider` | provider.dfy | the `CompatBuddyProvider` class with its methods, the status colour, and the quick fixes |

The imperative parts are methods with loops and state, proved against the
functions:

- `CompatServer.CheckFeatureCompatibility`
- `CompatBuddyProvider.GetFeatureInfo`
- `CompatBuddyProvider.ScanDocument` and its inner loop `ScanEntry`
- `CompatBuddyProvider.ProvideCodeActions`

The main scan result is cache transparency. The diagnostics `ScanDocument`
returns equal `Assemble`, which judges every match by a lookup in the
*initial* cache. This holds however the client cache fills up during the
scan, for a backend that answers each name the same way during the scan.

Two details follow the code:

- The baseline tier's default alternative, snippet and explanation are
  fixed texts (backend/server.js:52-54) that do not mention the feature
  name.
- The synthetic tier's records carry the provenance tag "ai"
  (backend/server.js:74).

## Model

| member | source | states |
|---|---|---|
| Resolution.ToLower | backend/server.js:28 | the model's ASCII lowering keeps the length and maps each character on its own: A-Z to a-z, everything else unchanged (non-ASCII folding is left out) |
| Resolution.ToLowerKeepsLowerCase | backend/server.js:28 | lower-casing a name that has no upper-case letter leaves it unchanged |
| Resolution.FetchBaselineData | backend/server.js:86-96 | the shipped provider never finds data and never throws: it answers `null` for every name |
| Resolution.GenerateAISuggestion | backend/server.js:103-111 | the suggested alternative is the fixed prefix followed by the name; the snippet is the name between the fixed comment prefix and suffix; the explanation is the name followed by the fixed suffix |
| Resolution.FirstSuccess | backend/server.js:21-79 | the pipeline returns the answer of the first tier that answers, every earlier tier having missed; it always answers when the synthetic tier is in the list; no answer means every tier missed |
| Resolution.Resolve | backend/server.js:21-79 | a cache hit returns the stored record; a miss returns a record for the exact requested name tagged "curated", "baseline" or "ai" (the curated tier is the corrected own-keys lookup, see Findings) |
| Resolution.ResolveCascade | backend/server.js:21-79 | resolution is: the cached record on a hit, else the curated record for the lower-cased key, else the record built from baseline data, else the synthetic record |
| Resolution.CacheHitShortCircuits | backend/server.js:23-25 | a cache hit returns the stored record, whatever the curated table and the baseline provider hold |
| Resolution.CuratedTierCopiesEntry | backend/server.js:28-41 | a curated hit copies the five curated fields exactly, keeps the caller's spelling in `feature`, is tagged "curated", and does not depend on the baseline provider |
| Resolution.BaselineTierDefaults | backend/server.js:47-56 | baseline data is used when cache and curated table miss; each absent or falsy field (0, "") is replaced by its default (50, "limited", and the three fixed texts); the tag is "baseline" |
| Resolution.SyntheticTierTemplate | backend/server.js:64-78 | when the baseline reports nothing or throws, the record has support 60, status "unknown", tag "ai", and alternative, snippet and explanation templated on the name |
| Resolution.ProvenanceIdentifiesTier | backend/server.js:21-79 | on a cache miss the tag names the tier that answered: "curated" iff the key is curated, "baseline" iff not curated and the provider found data, "ai" otherwise |
| Resolution.ResolveIsIdempotent | backend/server.js:21-79 | once the answer is stored under the name, resolving the same string again returns the identical record whatever the provider then does, and storing it again changes nothing |
| Resolution.ResolvePreservesCache | backend/server.js:21-79 | storing the answer keeps the cache well formed, adds exactly the requested key, and leaves every other entry unchanged |
| Resolution.CaseVariantsCachedSeparately | backend/server.js:28-39 | two spellings of one curated name give two cache entries whose records agree on every curated field (percentage, status, alternative, snippet, explanation) and differ in `feature` |
| Resolution.ResolveKeepsPercentageInRange | backend/server.js:21-79 | if the cache, the curated table and the baseline data keep support within 0..100, so does every resolved record |
| Resolution.PlaceholderBaselineFallsThrough | backend/server.js:86-96 | with the shipped placeholder provider, every name that is neither cached nor curated resolves to the synthetic record |
| Resolution.SuggestionDeterminesName | backend/server.js:103-111 | the synthetic alternative and explanation embed the name recoverably, so distinct names never share a suggestion |
| Resolution.InheritedMemberCountsAsCurated | backend/server.js:28-29 | as written, "constructor" reads an inherited member of the mappings object and counts as a curated hit although the table has no such record |
| Resolution.CuratedTierUsesOwnKeysOnly | backend/server.js:28-41 | the corrected curated tier answers exactly for the table's own keys, reads an own key as the code does, and lets inherited member names fall through |
| Server.CompatServer.constructor | backend/server.js:13-14 | the server starts with an empty cache and no baseline queries |
| Server.CompatServer.CheckFeatureCompatibility | backend/server.js:21-79 | returns the resolved record (with the corrected curated tier), stores it under the exact name, keeps the cache well formed, and queries the baseline provider exactly when both cache and curated table miss |
| Server.CompatServer.CheckFeature | backend/server.js:118-138 | a falsy `feature` gives 400 with the fixed error and example; a truthy non-string gives 500; in both cases cache and queries are unchanged; a non-empty string gives 200 with the resolved record (with the corrected curated tier) |
| Registry.WebFeaturesWellFormed | src/extension.ts:8-62 | the registry has ten entries; every pattern is well formed; keys and feature names are unique |
| Registry.LanguagesOfEntries | src/extension.ts:8-62 | the first six entries apply exactly to css/scss/less and the last four exactly to javascript/typescript; no other language id is listed |
| Scanner.FindLiteral | src/extension.ts:210 | `exec` of a literal pattern returns its leftmost occurrence at or after `lastIndex`, or `null` when there is none |
| Scanner.Exec | src/extension.ts:210 | every match `exec` yields is non-empty, lies in the text at or after `lastIndex`, and is the text at its position |
| Scanner.ExecOfValidEngine | src/extension.ts:210 | for an engine that only answers such matches, `Exec` returns exactly the engine's answer |
| Scanner.ExecAll | src/extension.ts:210-214 | every span of the `exec` loop is non-empty and lies in the text at or after the start index |
| Scanner.ExecAllSpansDisjoint | src/extension.ts:207-210 | one pattern's spans are strictly increasing and pairwise disjoint |
| Scanner.LiteralSpansAreOccurrences | src/extension.ts:210-214 | for a literal pattern, every span is exactly an occurrence of the literal |
| Scanner.LiteralSpansCoverOccurrences | src/extension.ts:210-214 | for a literal pattern, every occurrence at or after the start lies inside a reported span, so only overlapped occurrences are skipped |
| Scanner.Tag | src/extension.ts:225 | each span of an entry is tagged with that entry's rank and feature name, in order |
| Scanner.Scan | src/extension.ts:200-214 | every scanned match is a non-empty span of the text, found by an entry that lists the document's language, and carries that entry's name |
| Scanner.ScanSorted | src/extension.ts:200-210 | the matches follow registry order, then strictly increasing disjoint spans within one entry |
| Scanner.ScanOfOneEntry | src/extension.ts:200-210 | the matches attributed to one entry are exactly that entry's own `exec` loop when it lists the language, and none otherwise |
| Scanner.OtherLanguagesScanToNothing | src/extension.ts:200-204 | a document in a language that no entry lists (such as html) yields no matches |
| Scanner.WebGpuLiteralSpans | src/extension.ts:52-56 | the `navigator.gpu` loop over a 28-character script holding two uses of `navigator.gpu` joined by a logical or yields exactly the spans [0,13) and [15,28) |
| Scanner.WebGpuTwice | src/extension.ts:200-214 | in that script the `webgpu` entry reports the two uses, with those spans and in that order, whatever the engine does for other patterns |
| Diagnostics.Lookup | src/extension.ts:173-192 | `getFeatureInfo` answers the cached record on a hit; it answers nothing exactly when the name is uncached and the backend fails |
| Diagnostics.Remember | src/extension.ts:173-192 | the cache gains exactly the requested name when it was uncached and the backend answered, keeps every existing entry, and stores what the lookup answered |
| Diagnostics.RememberKeepsLookups | src/extension.ts:173-192 | storing a backend answer never changes what a later lookup answers; it adds only the requested name, with the backend's record |
| Diagnostics.NatToString | src/extension.ts:221 | the decimal rendering of a natural number is non-empty, made of digits only, and has no leading zero |
| Diagnostics.NatToStringValue | src/extension.ts:221 | the decimal rendering reads back as the number rendered |
| Diagnostics.IntToStringValue | src/extension.ts:221 | an integer renders as its digits, with a leading minus sign when negative, and reads back as that integer |
| Diagnostics.MessageLayout | src/extension.ts:221 | the warning text starts with the feature name, then " has " and the rendered percentage, and ends with the record's alternative |
| Diagnostics.ScanFoldKeepsLookups | src/extension.ts:210-217 | the cache the scan builds up answers every lookup as the initial cache would |
| Diagnostics.ScanFoldDiagnostics | src/extension.ts:200-229 | cache transparency: the fold's diagnostics equal the reference definition on the initial cache |
| Diagnostics.ScanFoldExtendsCache | src/extension.ts:173-192 | the scan's cache keeps every initial entry, and each entry it gains is the backend's answer for the name of some match |
| Diagnostics.ScanFoldRequests | src/extension.ts:173-183 | no name already cached is requested; every uncached matched name is requested; a name is requested twice only when the backend failed for it |
| Diagnostics.IssuedBeforeCached | src/extension.ts:174-186 | a name the scan added to the cache was requested from the backend |
| Diagnostics.IssuedSuccessIsCached | src/extension.ts:185-187 | a requested name that the backend answered is in the cache afterwards |
| Diagnostics.AssembleSound | src/extension.ts:216-226 | every diagnostic is a Warning from "compatbuddy" for some match whose feature has info with support below 85, with that match's span and name |
| Diagnostics.AssembleComplete | src/extension.ts:216-226 | every match whose feature has info with support below 85 gets its diagnostic |
| Diagnostics.DiagnoseAll | src/extension.ts:219-226 | one diagnostic per match, in order |
| Diagnostics.AssembleOneFeature | src/extension.ts:210-228 | no deduplication: the matches of one feature are all reported, in order, or none is |
| Diagnostics.ScanDiagnosticsPerEntry | src/extension.ts:200-229 | a document's diagnostics are, entry by entry in registry order, one warning per match of each entry that lists the language and whose feature is flagged |
| Diagnostics.ScanDiagnosticsSound | src/extension.ts:200-229 | every diagnostic of a document is a Warning from "compatbuddy" whose span lies in the text, whose code is the name of an entry listing the language, and whose feature has support below 85 |
| Provider.OursMembers | src/extension.ts:130-131 | the filter keeps exactly the diagnostics whose source is "compatbuddy" |
| Provider.OursOfOwn | src/extension.ts:130-131 | a list made only of the extension's diagnostics is kept whole and in order |
| Provider.StatusColorFor | src/extension.ts:156-157 | green iff support > 85, yellow iff 65 < support <= 85, red iff support <= 65 |
| Provider.StatusColorMonotone | src/extension.ts:156-157 | more support never gives a worse colour |
| Provider.WarnedFeaturesAreNotGreen | src/extension.ts:156-157 | a feature the scan warns about is never green; at exactly 85 the hover is yellow but the scan does not warn |
| Provider.CompatBuddyProvider.constructor | src/extension.ts:75-80 | the provider starts with an empty cache and no requests |
| Provider.CompatBuddyProvider.GetFeatureInfo | src/extension.ts:173-192 | a hit returns the cached record with no request and no change; a miss requests the name once, returns the backend's answer (`null` on failure), and stores it only on success |
| Provider.CompatBuddyProvider.ReportMatch | src/extension.ts:216-227 | one match: the lookup, then a pushed warning exactly when support is below 85 (a Warning from "compatbuddy" with the match's span, the message and the entry's name as code), as one step of the fold |
| Provider.CompatBuddyProvider.ScanEntry | src/extension.ts:207-228 | the inner `exec` loop reports every span of the entry's loop, in order, as the fold over those matches |
| Provider.CompatBuddyProvider.ScanDocument | src/extension.ts:194-233 | the diagnostics equal the reference definition on the initial cache; the new cache and the backend requests are those of the fold over the scan |
| Provider.CompatBuddyProvider.ProvideCodeActions | src/extension.ts:121-148 | one "Insert fallback snippet" quick fix per "compatbuddy" diagnostic, in order, each carrying the document uri, the range start and that diagnostic's code; none for other diagnostics |
| Provider.ScanDiagnosticsAllGetActions | src/extension.ts:130-144 | every diagnostic a scan produces passes the code-action filter |

## Left out

- The VS Code API surface is not modelled:
  - hover construction and Markdown or `encodeURIComponent` rendering;
  - `positionAt` (spans are kept as character offsets);
  - the diagnostic collection (`ScanDocument` returns the list that `set` would receive);
  - command registration, editor edits, event subscriptions and the debounce timer.
- The hover's match loop (`provideHover`) is not modelled. It is UI glue over the same registry walk, and only its colour classification is modelled.
- HTTP is not modelled: the axios POST and its 5000 ms timeout, the express app, CORS, `/health`, `/features` and `app.listen`.
  - The backend is an abstract function from a feature name to an optional record. `None` stands for any thrown error or non-2xx reply.
  - The baseline fetch is an abstract provider answering data, `null`, or an error.
  - The backend is fixed for the length of one scan.
- Diagnostics.AssembleOneFeature: the backend is one fixed function during a scan. A request that fails for an early match of a feature and succeeds for a later match (which in the extension drops only the early warning) is not captured; the all-or-none result holds only under that assumption.
- Diagnostics.ScanFoldDiagnostics: cache transparency is stated for a backend fixed during the scan; a backend whose answer for a name changes between two requests of that scan is not modelled.
- Provider.CompatBuddyProvider.ScanDocument: its diagnostics equal `Assemble` on the initial cache only for a backend that answers each name the same way during the scan. If the first "webgpu" request times out and the second answers 40%, the extension warns only at the second match, while the model gives both warnings or neither.
- Diagnostics.ScanDiagnosticsPerEntry: the per-entry result (every match of a flagged entry, or none) holds only for a backend that answers each name the same way during the scan; a request that fails for an early match and succeeds for a later one, which in the extension drops only the early warning, is not captured.
- async/await interleavings and concurrent races on either cache are not modelled. Calls are sequential.
- Console logging is not modelled. It only adds output.
- The 500 reply's `message` (the thrown error's text) is not modelled. The reply carries only the fixed "Internal server error" string.
- The contents of fallback-mappings.json are not modelled. It is any map from lower-case names to complete curated records. A curated record with missing fields is not modelled.
- Full JavaScript regular-expression semantics are not modelled.
  - Nine registry patterns are matched by an abstract engine.
  - `/navigator\.gpu/g` (src/extension.ts:53), a pattern that matches one fixed string because its dot is escaped, is matched concretely as the literal `navigator.gpu`.
  - `Scanner.Exec` treats an engine answer that is not a non-empty match at or after `lastIndex` as `null`. `Scanner.ExecOfValidEngine` shows that a valid engine is never overridden.
- Resolution.ToLower: folds only A-Z to a-z, so its length and pointwise ensures hold for the model's ASCII lowering only. `toLowerCase` also folds non-ASCII letters ("É" to "é", the Kelvin sign to "k") and can change the length ("İ" becomes "i" and a combining dot), so a non-ASCII name can meet a different curated key than in the server.
- Scanner.FindLiteral: offsets count Unicode scalar values, not JavaScript's UTF-16 code units; a match after a character outside the Basic Multilingual Plane is placed one position earlier per such character than `match.index` would be.
- Scanner.ExecAll: `lastIndex` and every span are in Unicode scalar values, not UTF-16 code units, so the same shift applies to all its spans.
- Scanner.Scan: the spans of the scan are in Unicode scalar values, not UTF-16 code units; the placement, order and disjointness results hold in that unit.
- Resolution.Resolve: models the corrected curated tier that reads only the table's own keys. For "constructor" or "__proto__" it answers from the baseline or synthetic tier, not with the as-written record tagged "curated" whose fields are undefined (see Findings).
- Server.CompatServer.CheckFeatureCompatibility: returns and caches `Resolution.Resolve`, so it has the same corrected curated tier for inherited member names.
- Server.CompatServer.CheckFeature: its 200 reply carries `Resolution.Resolve`'s record, so it has the same corrected curated tier for inherited member names.
- Percentages are integers. JavaScript numbers may be fractional; the comparisons `< 85`, `> 85` and `> 65` read the same on integers.
- The document's uri and the requested range's start are plain parameters of `ProvideCodeActions`.
- demo/modern-apis.js is not part of this model; it is demonstration code for the browser APIs the registry detects.

## Findings

| source | as written | input that shows it | evidently intended | confidence | as-written member | corrected member |
|---|---|---|---|---|---|---|
| backend/server.js:28-29 | `fallbackMappings[featureName.toLowerCase()]` is a plain property read on the object loaded from JSON, and any defined value counts as a curated hit | feature "constructor" (or "Constructor"), absent from the table: the read returns the inherited `Object` constructor, so the curated tier answers with a record that has no percentage, status or texts | only the table's own keys are curated hits; other names fall through to the baseline and synthetic tiers | high, not executed | Resolution.InheritedMemberCountsAsCurated | Resolution.CuratedTierUsesOwnKeysOnly |
