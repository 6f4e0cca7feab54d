/** The `WEB_FEATURES` table of src/extension.ts: ten feature descriptors
    in registration order, each with its detection pattern, the feature
    name sent to the backend, and the language identifiers it applies to. */
module Registry {

  /** A detection pattern. `Regex` keeps the source text of a JavaScript
      regular expression, whose matching is left to an external engine;
      `Literal` is a pattern that matches one fixed string and nothing else
      (`/navigator\.gpu/` is one), and is matched by the model itself. */
  datatype Pattern = Literal(text: string) | Regex(source: string)

  datatype FeatureDescriptor = FeatureDescriptor(
    key: string,
    pattern: Pattern,
    name: string,
    languages: seq<string>)

  const CssLanguages: seq<string> := ["css", "scss", "less"]
  const ScriptLanguages: seq<string> := ["javascript", "typescript"]

  /** `Object.entries(WEB_FEATURES)`: none of the keys is an integer index,
      so the entries come in the order they are written. */
  const WebFeatures: seq<FeatureDescriptor> := [
    FeatureDescriptor("container", Regex("@container\\s+[^{]+\\{"),
                      "css-container-queries", CssLanguages),
    FeatureDescriptor("has\\(", Regex(":has\\s*\\([^)]+\\)"),
                      "css-has-selector", CssLanguages),
    FeatureDescriptor("@layer", Regex("@layer\\s+[^{;]+[{;]"),
                      "css-cascade-layers", CssLanguages),
    FeatureDescriptor("subgrid", Regex("grid-template-[^:]*:\\s*subgrid"),
                      "css-subgrid", CssLanguages),
    FeatureDescriptor("margin-inline|padding-block|inset-inline",
                      Regex("(margin-inline|padding-block|inset-inline|border-inline|border-block)(-start|-end)?"),
                      "css-logical-properties", CssLanguages),
    FeatureDescriptor("color\\(", Regex("color\\s*\\([^)]+\\)"),
                      "css-color-function", CssLanguages),
    FeatureDescriptor("ResizeObserver", Regex("new\\s+ResizeObserver|ResizeObserver\\s*\\("),
                      "resizeobserver", ScriptLanguages),
    FeatureDescriptor("IntersectionObserver", Regex("new\\s+IntersectionObserver|IntersectionObserver\\s*\\("),
                      "intersectionobserver", ScriptLanguages),
    FeatureDescriptor("navigator\\.gpu", Literal("navigator.gpu"),
                      "webgpu", ScriptLanguages),
    FeatureDescriptor("navigator\\.share", Regex("navigator\\.share\\s*\\("),
                      "web-share-api", ScriptLanguages)
  ]

  /** A literal pattern must be non-empty (an empty regular expression is
      not a pattern the table can hold). */
  predicate WellFormedPattern(p: Pattern) {
    p.Literal? ==> |p.text| > 0
  }

  /** Every pattern well formed; keys and feature names unique. */
  ghost predicate WellFormedRegistry(entries: seq<FeatureDescriptor>) {
    && (forall i :: 0 <= i < |entries| ==> WellFormedPattern(entries[i].pattern))
    && (forall i, j :: 0 <= i < j < |entries| ==>
          entries[i].key != entries[j].key && entries[i].name != entries[j].name)
  }

  lemma WebFeaturesWellFormed()
    ensures |WebFeatures| == 10
    ensures WellFormedRegistry(WebFeatures)
  {
  }

  /** The first six entries apply exactly to the style-sheet languages and
      the last four exactly to the script languages; any other language id
      ("html", "python", ...) is listed by no entry. */
  lemma LanguagesOfEntries(lang: string)
    ensures forall i :: 0 <= i < 6 ==> (lang in WebFeatures[i].languages <==> lang in CssLanguages)
    ensures forall i :: 6 <= i < 10 ==> (lang in WebFeatures[i].languages <==> lang in ScriptLanguages)
    ensures lang !in CssLanguages && lang !in ScriptLanguages ==>
              forall i :: 0 <= i < |WebFeatures| ==> lang !in WebFeatures[i].languages
  {
  }
}
