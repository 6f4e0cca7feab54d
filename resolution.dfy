/** The tiered compatibility resolution of backend/server.js, as pure
    functions of the cache, the curated table and the baseline provider.
    `Resolve` is the reference definition: the first tier, in the fixed
    order cache, curated, baseline, synthetic, that produces a record wins.
    The imperative `checkFeatureCompatibility` (module Server) is proved
    to compute exactly this. */
module Resolution {
  import opened Wrappers
  import opened Compat

  // ---------------------------------------------------------------------
  // Case folding of the curated key
  // ---------------------------------------------------------------------

  function ToLowerChar(c: char): char {
    if 'A' <= c <= 'Z' then (c as int + 32) as char else c
  }

  /** `featureName.toLowerCase()`, on ASCII letters. */
  function ToLower(s: string): (r: string)
    ensures |r| == |s|
    ensures forall i :: 0 <= i < |s| ==> r[i] == ToLowerChar(s[i])
  {
    if s == [] then [] else [ToLowerChar(s[0])] + ToLower(s[1..])
  }

  /** A name without upper-case ASCII letters is its own lower case. */
  lemma ToLowerKeepsLowerCase(s: string)
    requires forall i :: 0 <= i < |s| ==> !('A' <= s[i] <= 'Z')
    ensures ToLower(s) == s
  {
  }

  // ---------------------------------------------------------------------
  // The data sources
  // ---------------------------------------------------------------------

  /** One record of fallback-mappings.json. */
  datatype CuratedEntry = CuratedEntry(
    supportPercentage: int,
    status: string,
    alternative: string,
    fallbackSnippet: string,
    explanation: string)

  /** fallback-mappings.json: lower-case feature name to curated record. */
  type CuratedTable = map<string, CuratedEntry>

  /** What the baseline provider reports; every field may be absent. */
  datatype BaselineData = BaselineData(
    supportPercentage: Option<int>,
    status: Option<string>,
    alternative: Option<string>,
    fallbackSnippet: Option<string>,
    explanation: Option<string>)

  /** One call of `fetchBaselineData`: data, `null`, or a thrown error. */
  datatype BaselineOutcome = Found(data: BaselineData) | NoData | Failed(message: string)

  type BaselineProvider = string -> BaselineOutcome

  /** The provider as the repository ships it: a placeholder that always
      answers `null`. */
  function FetchBaselineData(featureName: string): (r: BaselineOutcome)
    ensures !r.Found? && !r.Failed?
  {
    NoData
  }

  type FeatureCache = map<string, FeatureInfo>

  // ---------------------------------------------------------------------
  // The records each tier builds
  // ---------------------------------------------------------------------

  const BaselineDefaultSupport: int := 50
  const BaselineDefaultStatus: string := "limited"
  const BaselineDefaultAlternative: string := "Check polyfills or alternative implementations"
  const BaselineDefaultSnippet: string := "// Fallback implementation needed"
  const BaselineDefaultExplanation: string := "This feature may not be widely supported."

  const SyntheticSupport: int := 60
  const SyntheticStatus: string := "unknown"

  const AlternativePrefix: string := "Consider using established alternatives to "
  const SnippetPrefix: string := "// TODO: Implement fallback for "
  const SnippetSuffix: string := "\n// Check feature support and provide graceful degradation"
  const ExplanationSuffix: string := " may have limited browser support. Consider progressive enhancement."

  /** JavaScript `v || fallback` on a number: absent and 0 are falsy. */
  function NumberOr(v: Option<int>, fallback: int): int {
    if v.Some? && v.value != 0 then v.value else fallback
  }

  /** JavaScript `v || fallback` on a string: absent and "" are falsy. */
  function TextOr(v: Option<string>, fallback: string): string {
    if v.Some? && v.value != "" then v.value else fallback
  }

  function CuratedRecord(featureName: string, e: CuratedEntry): FeatureInfo {
    FeatureInfo(featureName, e.supportPercentage, e.status, e.alternative,
                e.fallbackSnippet, e.explanation, CuratedSource)
  }

  function BaselineRecord(featureName: string, d: BaselineData): FeatureInfo {
    FeatureInfo(featureName,
                NumberOr(d.supportPercentage, BaselineDefaultSupport),
                TextOr(d.status, BaselineDefaultStatus),
                TextOr(d.alternative, BaselineDefaultAlternative),
                TextOr(d.fallbackSnippet, BaselineDefaultSnippet),
                TextOr(d.explanation, BaselineDefaultExplanation),
                BaselineSource)
  }

  datatype Suggestion = Suggestion(alternative: string, fallbackSnippet: string, explanation: string)

  /** `generateAISuggestion`: a fixed template around the feature name;
      each text holds the name at a fixed place. */
  function GenerateAISuggestion(featureName: string): (s: Suggestion)
    ensures |s.alternative| == |AlternativePrefix| + |featureName|
    ensures |s.fallbackSnippet| == |SnippetPrefix| + |featureName| + |SnippetSuffix|
    ensures |s.explanation| == |featureName| + |ExplanationSuffix|
    ensures s.alternative[..|AlternativePrefix|] == AlternativePrefix
    ensures s.alternative[|AlternativePrefix|..] == featureName
    ensures s.fallbackSnippet[..|SnippetPrefix|] == SnippetPrefix
    ensures s.fallbackSnippet[|SnippetPrefix|..|SnippetPrefix| + |featureName|] == featureName
    ensures s.fallbackSnippet[|SnippetPrefix| + |featureName|..] == SnippetSuffix
    ensures s.explanation[..|featureName|] == featureName
    ensures s.explanation[|featureName|..] == ExplanationSuffix
  {
    Suggestion(AlternativePrefix + featureName,
               SnippetPrefix + featureName + SnippetSuffix,
               featureName + ExplanationSuffix)
  }

  function SyntheticRecord(featureName: string): FeatureInfo {
    var s := GenerateAISuggestion(featureName);
    FeatureInfo(featureName, SyntheticSupport, SyntheticStatus, s.alternative,
                s.fallbackSnippet, s.explanation, AiSource)
  }

  // ---------------------------------------------------------------------
  // The pipeline: an ordered list of tiers, first success wins
  // ---------------------------------------------------------------------

  datatype Tier = CacheTier | CuratedTier | BaselineTier | SyntheticTier

  const TierOrder: seq<Tier> := [CacheTier, CuratedTier, BaselineTier, SyntheticTier]

  /** One tier's attempt; `None` means the tier missed (for the baseline
      tier this covers both `null` and a caught error). */
  function Attempt(tier: Tier, cache: FeatureCache, curated: CuratedTable,
                   baseline: BaselineProvider, featureName: string): Option<FeatureInfo>
  {
    match tier
    case CacheTier =>
      if featureName in cache then Some(cache[featureName]) else None
    case CuratedTier =>
      var key := ToLower(featureName);
      if key in curated then Some(CuratedRecord(featureName, curated[key])) else None
    case BaselineTier =>
      (match baseline(featureName)
       case Found(d) => Some(BaselineRecord(featureName, d))
       case NoData => None
       case Failed(_) => None)
    case SyntheticTier =>
      Some(SyntheticRecord(featureName))
  }

  /** The record of the first tier in `tiers` that produces one. */
  function FirstSuccess(tiers: seq<Tier>, cache: FeatureCache, curated: CuratedTable,
                        baseline: BaselineProvider, featureName: string): (r: Option<FeatureInfo>)
    ensures SyntheticTier in tiers ==> r.Some?
    ensures r.None? ==> forall i :: 0 <= i < |tiers| ==> Attempt(tiers[i], cache, curated, baseline, featureName).None?
    ensures r.Some? ==> exists i :: 0 <= i < |tiers| && Attempt(tiers[i], cache, curated, baseline, featureName) == r
                                 && forall j :: 0 <= j < i ==> Attempt(tiers[j], cache, curated, baseline, featureName).None?
  {
    if tiers == [] then None
    else
      match Attempt(tiers[0], cache, curated, baseline, featureName)
      case Some(rec) => Some(rec)
      case None => FirstSuccess(tiers[1..], cache, curated, baseline, featureName)
  }

  /** `checkFeatureCompatibility(featureName)` against the given cache;
      it always produces a record. */
  function Resolve(cache: FeatureCache, curated: CuratedTable,
                   baseline: BaselineProvider, featureName: string): (r: FeatureInfo)
    ensures featureName in cache ==> r == cache[featureName]
    ensures featureName !in cache ==>
              r.feature == featureName && r.source in {CuratedSource, BaselineSource, AiSource}
  {
    assert TierOrder[3] == SyntheticTier;
    FirstSuccess(TierOrder, cache, curated, baseline, featureName).value
  }

  /** The cache invariant: every entry is a record for its own key tagged
      by one of the three producing tiers. */
  ghost predicate CacheWellFormed(cache: FeatureCache) {
    forall k :: k in cache ==>
      cache[k].feature == k && cache[k].source in {CuratedSource, BaselineSource, AiSource}
  }

  // ---------------------------------------------------------------------
  // What the pipeline promises
  // ---------------------------------------------------------------------

  /** The tier list unfolds to the cascade of checks the server performs,
      in that order. */
  lemma ResolveCascade(cache: FeatureCache, curated: CuratedTable,
                       baseline: BaselineProvider, featureName: string)
    ensures Resolve(cache, curated, baseline, featureName) ==
      if featureName in cache then cache[featureName]
      else if ToLower(featureName) in curated then CuratedRecord(featureName, curated[ToLower(featureName)])
      else if baseline(featureName).Found? then BaselineRecord(featureName, baseline(featureName).data)
      else SyntheticRecord(featureName)
  {
    var t1, t2, t3 := TierOrder[1..], TierOrder[2..], TierOrder[3..];
    assert t1 == [CuratedTier, BaselineTier, SyntheticTier] && t1[1..] == t2;
    assert t2 == [BaselineTier, SyntheticTier] && t2[1..] == t3;
    assert t3 == [SyntheticTier];
    var F := (ts: seq<Tier>) => FirstSuccess(ts, cache, curated, baseline, featureName);
    var A := (t: Tier) => Attempt(t, cache, curated, baseline, featureName);
    assert F(t3) == A(SyntheticTier);
    assert F(t2) == if A(BaselineTier).Some? then A(BaselineTier) else F(t3);
    assert F(t1) == if A(CuratedTier).Some? then A(CuratedTier) else F(t2);
    assert F(TierOrder) == if A(CacheTier).Some? then A(CacheTier) else F(t1);
  }

  /** A cache hit returns the stored record whatever the curated table and
      the baseline provider hold: neither is consulted. */
  lemma CacheHitShortCircuits(cache: FeatureCache, curated: CuratedTable, baseline: BaselineProvider,
                              otherCurated: CuratedTable, otherBaseline: BaselineProvider,
                              featureName: string)
    requires featureName in cache
    ensures Resolve(cache, curated, baseline, featureName) == cache[featureName]
    ensures Resolve(cache, otherCurated, otherBaseline, featureName) == cache[featureName]
  {
    ResolveCascade(cache, curated, baseline, featureName);
    ResolveCascade(cache, otherCurated, otherBaseline, featureName);
  }

  /** A curated hit copies the curated fields exactly, keeps the caller's
      spelling of the name, is tagged "curated", and does not depend on the
      baseline provider. */
  lemma CuratedTierCopiesEntry(cache: FeatureCache, curated: CuratedTable, baseline: BaselineProvider,
                               otherBaseline: BaselineProvider, featureName: string)
    requires featureName !in cache && ToLower(featureName) in curated
    ensures var r := Resolve(cache, curated, baseline, featureName);
            var e := curated[ToLower(featureName)];
            && r.feature == featureName
            && r.supportPercentage == e.supportPercentage
            && r.status == e.status
            && r.alternative == e.alternative
            && r.fallbackSnippet == e.fallbackSnippet
            && r.explanation == e.explanation
            && r.source == CuratedSource
    ensures Resolve(cache, curated, baseline, featureName) == Resolve(cache, curated, otherBaseline, featureName)
  {
    ResolveCascade(cache, curated, baseline, featureName);
    ResolveCascade(cache, curated, otherBaseline, featureName);
  }

  /** Baseline data wins when the cache and the curated table miss; each
      falsy field (absent, 0 or "") is replaced by its fixed default. */
  lemma BaselineTierDefaults(cache: FeatureCache, curated: CuratedTable, baseline: BaselineProvider,
                             featureName: string)
    requires featureName !in cache && ToLower(featureName) !in curated
    requires baseline(featureName).Found?
    ensures var r := Resolve(cache, curated, baseline, featureName);
            var d := baseline(featureName).data;
            && r.feature == featureName
            && r.source == BaselineSource
            && (d.supportPercentage.Some? && d.supportPercentage.value != 0 ==> r.supportPercentage == d.supportPercentage.value)
            && (d.supportPercentage == None || d.supportPercentage == Some(0) ==> r.supportPercentage == 50)
            && (d.status.Some? && d.status.value != "" ==> r.status == d.status.value)
            && (d.status == None || d.status == Some("") ==> r.status == "limited")
            && (d.alternative.Some? && d.alternative.value != "" ==> r.alternative == d.alternative.value)
            && (d.alternative == None || d.alternative == Some("") ==>
                  r.alternative == "Check polyfills or alternative implementations")
            && (d.fallbackSnippet.Some? && d.fallbackSnippet.value != "" ==> r.fallbackSnippet == d.fallbackSnippet.value)
            && (d.fallbackSnippet == None || d.fallbackSnippet == Some("") ==>
                  r.fallbackSnippet == "// Fallback implementation needed")
            && (d.explanation.Some? && d.explanation.value != "" ==> r.explanation == d.explanation.value)
            && (d.explanation == None || d.explanation == Some("") ==>
                  r.explanation == "This feature may not be widely supported.")
  {
    ResolveCascade(cache, curated, baseline, featureName);
  }

  /** When no tier before it answers (the baseline reporting nothing or
      failing alike), the synthetic record is produced: support 60, status
      "unknown", tag "ai", and texts templated on the name. */
  lemma SyntheticTierTemplate(cache: FeatureCache, curated: CuratedTable, baseline: BaselineProvider,
                              featureName: string)
    requires featureName !in cache && ToLower(featureName) !in curated
    requires baseline(featureName).NoData? || baseline(featureName).Failed?
    ensures var r := Resolve(cache, curated, baseline, featureName);
            && r.feature == featureName
            && r.supportPercentage == 60
            && r.status == "unknown"
            && r.source == AiSource
            && r.alternative == "Consider using established alternatives to " + featureName
            && r.fallbackSnippet == "// TODO: Implement fallback for " + featureName
                                    + "\n// Check feature support and provide graceful degradation"
            && r.explanation == featureName + " may have limited browser support. Consider progressive enhancement."
  {
    ResolveCascade(cache, curated, baseline, featureName);
  }

  /** For a name the cache does not hold, the provenance tag tells exactly
      which tier answered. */
  lemma ProvenanceIdentifiesTier(cache: FeatureCache, curated: CuratedTable, baseline: BaselineProvider,
                                 featureName: string)
    requires featureName !in cache
    ensures var r := Resolve(cache, curated, baseline, featureName);
            var key := ToLower(featureName);
            && r.feature == featureName
            && (r.source == CuratedSource <==> key in curated)
            && (r.source == BaselineSource <==> key !in curated && baseline(featureName).Found?)
            && (r.source == AiSource <==> key !in curated && !baseline(featureName).Found?)
  {
    ResolveCascade(cache, curated, baseline, featureName);
  }

  /** Resolving a name and storing the answer under it, as the server does,
      makes the next resolution of the same string return the same record,
      whatever the baseline provider does by then. */
  lemma ResolveIsIdempotent(cache: FeatureCache, curated: CuratedTable, baseline: BaselineProvider,
                            laterBaseline: BaselineProvider, featureName: string)
    ensures var r := Resolve(cache, curated, baseline, featureName);
            var cache' := cache[featureName := r];
            && Resolve(cache', curated, laterBaseline, featureName) == r
            && cache'[featureName := Resolve(cache', curated, laterBaseline, featureName)] == cache'
  {
    var r := Resolve(cache, curated, baseline, featureName);
    ResolveCascade(cache[featureName := r], curated, laterBaseline, featureName);
  }

  /** Writing the answer back keeps the cache well formed, and never
      changes or drops an entry for another key. */
  lemma ResolvePreservesCache(cache: FeatureCache, curated: CuratedTable, baseline: BaselineProvider,
                              featureName: string)
    requires CacheWellFormed(cache)
    ensures var r := Resolve(cache, curated, baseline, featureName);
            var cache' := cache[featureName := r];
            && r.feature == featureName
            && CacheWellFormed(cache')
            && cache'.Keys == cache.Keys + {featureName}
            && forall k :: k in cache ==> cache'[k] == cache[k]
  {
    ResolveCascade(cache, curated, baseline, featureName);
  }

  /** The curated key is case-folded but the cache key is not: two spellings
      of one curated name get two cache entries, two records that agree on
      the curated fields and differ in `feature`. */
  lemma CaseVariantsCachedSeparately(cache: FeatureCache, curated: CuratedTable, baseline: BaselineProvider,
                                     first: string, second: string)
    requires first != second && ToLower(first) == ToLower(second) && ToLower(first) in curated
    requires first !in cache && second !in cache
    ensures var r1 := Resolve(cache, curated, baseline, first);
            var cache1 := cache[first := r1];
            var r2 := Resolve(cache1, curated, baseline, second);
            var cache2 := cache1[second := r2];
            && r1.source == CuratedSource && r2.source == CuratedSource
            && r1.feature == first && r2.feature == second && r1 != r2
            && r1.supportPercentage == r2.supportPercentage && r1.status == r2.status
            && r1.alternative == r2.alternative && r1.fallbackSnippet == r2.fallbackSnippet
            && r1.explanation == r2.explanation
            && first in cache2 && second in cache2 && cache2[first] != cache2[second]
  {
    ResolveCascade(cache, curated, baseline, first);
    var cache1 := cache[first := Resolve(cache, curated, baseline, first)];
    ResolveCascade(cache1, curated, baseline, second);
  }

  /** The pipeline itself never produces a percentage outside [0, 100]: if
      its sources stay in range, so does every record it returns. */
  lemma ResolveKeepsPercentageInRange(cache: FeatureCache, curated: CuratedTable, baseline: BaselineProvider,
                                      featureName: string)
    requires forall k :: k in cache ==> 0 <= cache[k].supportPercentage <= 100
    requires forall k :: k in curated ==> 0 <= curated[k].supportPercentage <= 100
    requires baseline(featureName).Found? && baseline(featureName).data.supportPercentage.Some? ==>
               0 <= baseline(featureName).data.supportPercentage.value <= 100
    ensures 0 <= Resolve(cache, curated, baseline, featureName).supportPercentage <= 100
  {
    ResolveCascade(cache, curated, baseline, featureName);
  }

  /** With the placeholder provider the repository ships, every name that is
      neither cached nor curated resolves to the synthetic record. */
  lemma PlaceholderBaselineFallsThrough(cache: FeatureCache, curated: CuratedTable, featureName: string)
    requires featureName !in cache && ToLower(featureName) !in curated
    ensures var r := Resolve(cache, curated, FetchBaselineData, featureName);
            r.source == AiSource && r.supportPercentage == 60 && r.status == "unknown"
  {
    ResolveCascade(cache, curated, FetchBaselineData, featureName);
  }

  /** The synthetic texts embed the feature name recoverably, so different
      names never share a suggestion. */
  lemma SuggestionDeterminesName(a: string, b: string)
    ensures GenerateAISuggestion(a).alternative[|AlternativePrefix|..] == a
    ensures GenerateAISuggestion(a).explanation[..|a|] == a
    ensures GenerateAISuggestion(a) == GenerateAISuggestion(b) ==> a == b
  {
    var sa, sb := GenerateAISuggestion(a), GenerateAISuggestion(b);
    assert sa.alternative[|AlternativePrefix|..] == a;
    assert sb.alternative[|AlternativePrefix|..] == b;
  }

  // ---------------------------------------------------------------------
  // The curated lookup as written: a property read on a plain object
  // ---------------------------------------------------------------------

  /** Members that every object literal inherits from `Object.prototype`
      and whose names are already lower case, so that a lower-cased key
      can reach them. */
  const InheritedLowerCaseMembers: set<string> := {"constructor", "__proto__"}

  /** What `fallbackMappings[key]` evaluates to. */
  datatype PropertyRead = OwnProperty(entry: CuratedEntry) | InheritedMember | Undefined

  function ReadFallbackMapping(table: CuratedTable, key: string): PropertyRead {
    if key in table then OwnProperty(table[key])
    else if key in InheritedLowerCaseMembers then InheritedMember
    else Undefined
  }

  /** `if (curatedMapping)` as written: any defined read is truthy. */
  predicate CuratedHitAsWritten(table: CuratedTable, featureName: string) {
    !ReadFallbackMapping(table, ToLower(featureName)).Undefined?
  }

  /** As written, "constructor" is a curated hit even when the table has no
      such record: the read returns the inherited `Object` constructor, and
      the result would carry no percentage, status or texts at all. Any
      case variant ("Constructor", ...) lowers to the same key. */
  lemma InheritedMemberCountsAsCurated(table: CuratedTable)
    requires "constructor" !in table
    ensures ToLower("constructor") == "constructor"
    ensures ReadFallbackMapping(table, "constructor") == InheritedMember
    ensures CuratedHitAsWritten(table, "constructor")
  {
    ToLowerKeepsLowerCase("constructor");
  }

  /** The corrected curated tier (the one `Resolve` uses) answers exactly
      for the table's own keys, and an own entry is read the same way as the
      code as written reads it. */
  lemma CuratedTierUsesOwnKeysOnly(cache: FeatureCache, table: CuratedTable, baseline: BaselineProvider,
                                   featureName: string)
    requires featureName !in cache
    ensures Resolve(cache, table, baseline, featureName).source == CuratedSource <==> ToLower(featureName) in table
    ensures ToLower(featureName) in table ==>
              ReadFallbackMapping(table, ToLower(featureName)) == OwnProperty(table[ToLower(featureName)])
    ensures ToLower(featureName) in InheritedLowerCaseMembers && ToLower(featureName) !in table ==>
              CuratedHitAsWritten(table, featureName) && Resolve(cache, table, baseline, featureName).source != CuratedSource
  {
    ResolveCascade(cache, table, baseline, featureName);
  }
}
