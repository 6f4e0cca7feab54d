/** The backend of backend/server.js: the module-level `featureCache` map
    and the curated table as the state of one server object, the four-tier
    `checkFeatureCompatibility` as a method that updates that state, and the
    input check of the `/checkFeature` route. */
module Server {
  import opened Compat
  import opened Resolution

  /** The `feature` property of a parsed request body. */
  datatype JsonValue = Missing | Null | Bool(b: bool) | Number(n: real) | Str(s: string) | Composite

  /** JavaScript truthiness, as `if (!feature)` tests it. */
  predicate Truthy(v: JsonValue) {
    match v
    case Missing => false
    case Null => false
    case Bool(b) => b
    case Number(n) => n != 0.0
    case Str(s) => s != ""
    case Composite => true
  }

  /** The three answers of the route: 200 with a record, 400, 500. */
  datatype Response =
    | Ok(info: FeatureInfo)
    | BadRequest(error: string, example: string)
    | ServerError(error: string)

  const MissingFeatureError: string := "Feature name is required"
  const ExampleFeature: string := "css-container-queries"
  const InternalServerError: string := "Internal server error"

  class CompatServer {
    /** `featureCache`: exact feature-name string to the record returned. */
    var featureCache: FeatureCache
    /** The contents of fallback-mappings.json, loaded once. */
    const fallbackMappings: CuratedTable
    /** The names for which the baseline provider has been consulted. */
    ghost var baselineQueries: seq<string>

    ghost predicate Valid()
      reads this
    {
      CacheWellFormed(featureCache)
    }

    constructor (fallbackMappings: CuratedTable)
      ensures Valid()
      ensures featureCache == map[] && this.fallbackMappings == fallbackMappings && baselineQueries == []
    {
      featureCache := map[];
      this.fallbackMappings := fallbackMappings;
      baselineQueries := [];
    }

    /** `checkFeatureCompatibility`: it returns what the tier list resolves
        to, stores it under the exact name, and calls the baseline provider
        only when both the cache and the curated table miss. */
    method CheckFeatureCompatibility(featureName: string, fetchBaseline: BaselineProvider)
      returns (result: FeatureInfo)
      requires Valid()
      modifies this
      ensures Valid()
      ensures result == Resolve(old(featureCache), fallbackMappings, fetchBaseline, featureName)
      ensures result.feature == featureName
      ensures featureCache == old(featureCache)[featureName := result]
      ensures baselineQueries == old(baselineQueries) +
        (if featureName !in old(featureCache) && ToLower(featureName) !in fallbackMappings
         then [featureName] else [])
    {
      ResolveCascade(featureCache, fallbackMappings, fetchBaseline, featureName);
      ResolvePreservesCache(featureCache, fallbackMappings, fetchBaseline, featureName);
      if featureName in featureCache {
        result := featureCache[featureName];
        return;
      }

      var key := ToLower(featureName);
      if key in fallbackMappings {
        result := CuratedRecord(featureName, fallbackMappings[key]);
        featureCache := featureCache[featureName := result];
        return;
      }

      baselineQueries := baselineQueries + [featureName];
      var baselineData := fetchBaseline(featureName);
      match baselineData {
        case Found(d) =>
          result := BaselineRecord(featureName, d);
          featureCache := featureCache[featureName := result];
          return;
        case NoData =>
        case Failed(_) =>
          // caught: only a warning is logged
      }

      result := SyntheticRecord(featureName);
      featureCache := featureCache[featureName := result];
    }

    /** The `/checkFeature` route: a falsy `feature` is a client error and a
        truthy non-string makes `toLowerCase` throw (a server error), both
        before the cache is touched; a non-empty string is resolved. */
    method CheckFeature(feature: JsonValue, fetchBaseline: BaselineProvider) returns (response: Response)
      requires Valid()
      modifies this
      ensures Valid()
      ensures !Truthy(feature) ==>
                response == BadRequest(MissingFeatureError, ExampleFeature)
                && featureCache == old(featureCache) && baselineQueries == old(baselineQueries)
      ensures Truthy(feature) && !feature.Str? ==>
                response == ServerError(InternalServerError)
                && featureCache == old(featureCache) && baselineQueries == old(baselineQueries)
      ensures feature.Str? && feature.s != "" ==>
                response == Ok(Resolve(old(featureCache), fallbackMappings, fetchBaseline, feature.s))
                && featureCache == old(featureCache)[feature.s := response.info]
                && baselineQueries == old(baselineQueries) +
                     (if feature.s !in old(featureCache) && ToLower(feature.s) !in fallbackMappings
                      then [feature.s] else [])
    {
      if !Truthy(feature) {
        return BadRequest(MissingFeatureError, ExampleFeature);
      }
      if !feature.Str? {
        // the cache holds string keys only, so `has` misses and
        // `featureName.toLowerCase()` throws a TypeError
        return ServerError(InternalServerError);
      }
      var result := CheckFeatureCompatibility(feature.s, fetchBaseline);
      response := Ok(result);
    }
  }
}
