/** The compatibility record exchanged between the backend and the editor
    extension: the objects built by `checkFeatureCompatibility` in
    backend/server.js and the `FeatureInfo` interface of src/extension.ts
    have the same seven fields. */
module Compat {

  datatype FeatureInfo = FeatureInfo(
    feature: string,
    supportPercentage: int,
    status: string,
    alternative: string,
    fallbackSnippet: string,
    explanation: string,
    source: string)

  /** The provenance tags written into `source`, one per resolution tier. */
  const CuratedSource: string := "curated"
  const BaselineSource: string := "baseline"
  const AiSource: string := "ai"
}
