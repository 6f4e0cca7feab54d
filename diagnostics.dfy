/** What `scanDocument` of src/extension.ts computes, as functions of the
    matches found, the client-side feature cache and the backend: the
    lookup through the cache (`getFeatureInfo`), the `< 85` filter, the
    diagnostic built for a kept match, and the fold of all of these over
    the matches in scan order. The imperative scan (module Provider) is
    proved to compute `ScanFold`; `Assemble` is the reference definition
    of its diagnostics, in which the cache plays no part. */
module Diagnostics {
  import opened Wrappers
  import opened Compat
  import opened Registry
  import opened Scanner

  /** `POST /checkFeature` as seen by the extension: a record, or `None`
      for any failure (network error, timeout, error status). */
  type Backend = string -> Option<FeatureInfo>

  /** `featureCache` of the provider: feature name to the record received. */
  type ClientCache = map<string, FeatureInfo>

  // ---------------------------------------------------------------------
  // getFeatureInfo
  // ---------------------------------------------------------------------

  /** What `getFeatureInfo` answers: the cached record, or else whatever
      the backend answers. */
  function Lookup(cache: ClientCache, backend: Backend, name: string): (r: Option<FeatureInfo>)
    ensures name in cache ==> r == Some(cache[name])
    ensures r.None? <==> name !in cache && backend(name).None?
  {
    if name in cache then Some(cache[name]) else backend(name)
  }

  /** The cache after `getFeatureInfo`: written only on a miss that the
      backend answers. */
  function Remember(cache: ClientCache, backend: Backend, name: string): (c: ClientCache)
    ensures c.Keys == cache.Keys + (if name !in cache && backend(name).Some? then {name} else {})
    ensures forall k :: k in cache ==> c[k] == cache[k]
    ensures name in c ==> Some(c[name]) == Lookup(cache, backend, name)
  {
    if name !in cache && backend(name).Some? then cache[name := backend(name).value] else cache
  }

  /** The backend requests `getFeatureInfo` issues: one on a miss, none on
      a hit. */
  function Requested(cache: ClientCache, name: string): seq<string> {
    if name in cache then [] else [name]
  }

  /** Remembering an answer never changes what a later lookup answers. */
  lemma RememberKeepsLookups(cache: ClientCache, backend: Backend, name: string, other: string)
    ensures Lookup(Remember(cache, backend, name), backend, other) == Lookup(cache, backend, other)
    ensures forall n :: n in cache ==> n in Remember(cache, backend, name)
                                       && Remember(cache, backend, name)[n] == cache[n]
    ensures forall n :: n in Remember(cache, backend, name) && n !in cache ==>
              n == name && backend(n) == Some(Remember(cache, backend, name)[n])
  {
  }

  // ---------------------------------------------------------------------
  // One diagnostic
  // ---------------------------------------------------------------------

  /** `vscode.DiagnosticSeverity`. */
  datatype Severity = Error | Warning | Information | Hint

  /** The fields of a `vscode.Diagnostic` the scan sets; `span` stands for
      the range, in offsets. */
  datatype Diagnostic = Diagnostic(
    span: Span,
    message: string,
    severity: Severity,
    source: string,
    code: string)

  /** Support strictly below this is reported. */
  const WarningThreshold: int := 85

  const DiagnosticSource: string := "compatbuddy"

  /** Whether a lookup result is reported: a record was obtained and its
      support is below the threshold. */
  predicate Flags(info: Option<FeatureInfo>) {
    info.Some? && info.value.supportPercentage < WarningThreshold
  }

  predicate IsDigit(c: char) {
    '0' <= c <= '9'
  }

  predicate AllDigits(s: string) {
    forall i :: 0 <= i < |s| ==> IsDigit(s[i])
  }

  function DigitChar(d: nat): (c: char)
    requires d < 10
    ensures IsDigit(c) && c as int - '0' as int == d
  {
    (d + '0' as int) as char
  }

  /** The number a string of decimal digits denotes. */
  function DecimalValue(s: string): nat
    requires AllDigits(s)
  {
    if s == [] then 0
    else DecimalValue(s[..|s| - 1]) * 10 + (s[|s| - 1] as int - '0' as int)
  }

  /** Decimal rendering of a natural number: digits only, no leading zero. */
  function NatToString(n: nat): (s: string)
    ensures |s| > 0 && AllDigits(s)
    ensures s[0] == '0' ==> n == 0 && s == "0"
    decreases n
  {
    if n < 10 then [DigitChar(n)] else NatToString(n / 10) + [DigitChar(n % 10)]
  }

  /** The rendering reads back as the number it renders. */
  lemma {:induction false} NatToStringValue(n: nat)
    ensures DecimalValue(NatToString(n)) == n
    decreases n
  {
    var s := NatToString(n);
    if n < 10 {
      assert s[..0] == [];
    } else {
      NatToStringValue(n / 10);
      assert s[..|s| - 1] == NatToString(n / 10);
    }
  }

  /** How a template literal renders an integer: a minus sign for a
      negative value, then the digits of its magnitude. */
  function IntToString(i: int): string {
    if i < 0 then "-" + NatToString(-i) else NatToString(i)
  }

  /** The rendering of an integer reads back as that integer. */
  lemma IntToStringValue(i: int)
    ensures |IntToString(i)| > 0
    ensures i >= 0 ==> AllDigits(IntToString(i)) && DecimalValue(IntToString(i)) == i
    ensures i < 0 ==> IntToString(i)[0] == '-' && AllDigits(IntToString(i)[1..])
                      && DecimalValue(IntToString(i)[1..]) == -i
  {
    if i < 0 {
      NatToStringValue(-i);
      assert IntToString(i)[1..] == NatToString(-i);
    } else {
      NatToStringValue(i);
    }
  }

  /** The warning text of a diagnostic. */
  function Message(info: FeatureInfo): string {
    info.feature + " has " + IntToString(info.supportPercentage)
      + "% browser support. Consider using: " + info.alternative
  }

  /** The message names the feature first, then its rendered percentage,
      and ends with the record's alternative. */
  lemma MessageLayout(info: FeatureInfo)
    ensures |Message(info)| == |info.feature| + 5 + |IntToString(info.supportPercentage)|
                   + |"% browser support. Consider using: "| + |info.alternative|
    ensures Message(info)[..|info.feature|] == info.feature
    ensures Message(info)[|info.feature|..|info.feature| + 5] == " has "
    ensures Message(info)[|info.feature| + 5..|info.feature| + 5 + |IntToString(info.supportPercentage)|]
              == IntToString(info.supportPercentage)
    ensures Message(info)[|Message(info)| - |info.alternative|..] == info.alternative
  {
  }

  /** The diagnostic pushed for an occurrence whose lookup gave `info`: its
      code is the registry entry's name, not the name in the record. */
  function MakeDiagnostic(o: Occurrence, info: FeatureInfo): Diagnostic {
    Diagnostic(o.span, Message(info), Warning, DiagnosticSource, o.name)
  }

  /** What one occurrence adds to the list. */
  function Reported(o: Occurrence, info: Option<FeatureInfo>): (r: seq<Diagnostic>)
    ensures |r| <= 1
    ensures |r| == 1 <==> Flags(info)
    ensures |r| == 1 ==> r[0] == MakeDiagnostic(o, info.value)
  {
    if Flags(info) then [MakeDiagnostic(o, info.value)] else []
  }

  // ---------------------------------------------------------------------
  // The scan as a fold over its occurrences
  // ---------------------------------------------------------------------

  /** The diagnostics pushed so far, the cache, and the backend requests
      issued so far. */
  datatype ScanState = ScanState(diagnostics: seq<Diagnostic>, cache: ClientCache, issued: seq<string>)

  /** One iteration of the inner loop body: `getFeatureInfo`, then the
      filter. */
  function Step(s: ScanState, o: Occurrence, backend: Backend): ScanState {
    ScanState(
      s.diagnostics + Reported(o, Lookup(s.cache, backend, o.name)),
      Remember(s.cache, backend, o.name),
      s.issued + Requested(s.cache, o.name))
  }

  /** The state after processing `occs` in order from an empty list and
      the cache `cache`. */
  function ScanFold(occs: seq<Occurrence>, cache: ClientCache, backend: Backend): ScanState {
    if occs == [] then ScanState([], cache, [])
    else Step(ScanFold(occs[..|occs| - 1], cache, backend), occs[|occs| - 1], backend)
  }

  lemma ScanFoldSnoc(occs: seq<Occurrence>, o: Occurrence, cache: ClientCache, backend: Backend)
    ensures ScanFold(occs + [o], cache, backend) == Step(ScanFold(occs, cache, backend), o, backend)
  {
    assert (occs + [o])[..|occs|] == occs;
  }

  /** The state after processing `occs`, in order, from the state `s`. */
  function Steps(s: ScanState, occs: seq<Occurrence>, backend: Backend): ScanState {
    if occs == [] then s
    else Step(Steps(s, occs[..|occs| - 1], backend), occs[|occs| - 1], backend)
  }

  lemma StepsSnoc(s: ScanState, occs: seq<Occurrence>, o: Occurrence, backend: Backend)
    ensures Steps(s, occs + [o], backend) == Step(Steps(s, occs, backend), o, backend)
  {
    assert (occs + [o])[..|occs|] == occs;
  }

  /** Processing two runs of occurrences one after the other is processing
      their concatenation. */
  lemma {:induction false} StepsAppend(s: ScanState, a: seq<Occurrence>, b: seq<Occurrence>, backend: Backend)
    ensures Steps(s, a + b, backend) == Steps(Steps(s, a, backend), b, backend)
    decreases |b|
  {
    if b == [] {
      assert a + b == a;
    } else {
      var init, last := b[..|b| - 1], b[|b| - 1];
      assert b == init + [last];
      AppendAssociative(a, init, [last]);
      StepsAppend(s, a, init, backend);
      StepsSnoc(s, a + init, last, backend);
      StepsSnoc(Steps(s, a, backend), init, last, backend);
    }
  }

  /** Processing from a state that already holds diagnostics and requests
      only appends to them: from the empty state it is `ScanFold`. */
  lemma {:induction false} StepsExtendFold(diagnostics: seq<Diagnostic>, issued: seq<string>,
                                           occs: seq<Occurrence>, cache: ClientCache, backend: Backend)
    ensures Steps(ScanState(diagnostics, cache, issued), occs, backend) ==
            ScanState(diagnostics + ScanFold(occs, cache, backend).diagnostics,
                      ScanFold(occs, cache, backend).cache,
                      issued + ScanFold(occs, cache, backend).issued)
    decreases |occs|
  {
    if occs == [] {
      assert diagnostics + [] == diagnostics && issued + [] == issued;
    } else {
      StepsExtendFold(diagnostics, issued, occs[..|occs| - 1], cache, backend);
    }
  }

  /** The reference definition: each occurrence judged by a lookup in the
      initial cache, in order. */
  function Assemble(occs: seq<Occurrence>, cache: ClientCache, backend: Backend): seq<Diagnostic> {
    if occs == [] then []
    else Assemble(occs[..|occs| - 1], cache, backend)
           + Reported(occs[|occs| - 1], Lookup(cache, backend, occs[|occs| - 1].name))
  }

  /** The cache the scan builds up answers every lookup as the initial
      cache would. */
  lemma {:induction false} ScanFoldKeepsLookups(occs: seq<Occurrence>, cache: ClientCache, backend: Backend, name: string)
    ensures Lookup(ScanFold(occs, cache, backend).cache, backend, name) == Lookup(cache, backend, name)
    decreases |occs|
  {
    if occs != [] {
      var prefix := occs[..|occs| - 1];
      ScanFoldKeepsLookups(prefix, cache, backend, name);
      RememberKeepsLookups(ScanFold(prefix, cache, backend).cache, backend, occs[|occs| - 1].name, name);
    }
  }

  /** Cache transparency: the diagnostics of the scan are exactly those of
      the reference definition, whatever the cache held at the start and
      however many times a name repeats. */
  lemma {:induction false} ScanFoldDiagnostics(occs: seq<Occurrence>, cache: ClientCache, backend: Backend)
    ensures ScanFold(occs, cache, backend).diagnostics == Assemble(occs, cache, backend)
    decreases |occs|
  {
    if occs != [] {
      var prefix := occs[..|occs| - 1];
      ScanFoldDiagnostics(prefix, cache, backend);
      ScanFoldKeepsLookups(prefix, cache, backend, occs[|occs| - 1].name);
    }
  }

  /** The cache after the scan keeps every entry it had, and every entry it
      gained is the backend's answer for a name of some occurrence. */
  lemma {:induction false} ScanFoldExtendsCache(occs: seq<Occurrence>, cache: ClientCache, backend: Backend)
    ensures forall n :: n in cache ==> n in ScanFold(occs, cache, backend).cache
                                       && ScanFold(occs, cache, backend).cache[n] == cache[n]
    ensures forall n :: n in ScanFold(occs, cache, backend).cache && n !in cache ==>
              && backend(n) == Some(ScanFold(occs, cache, backend).cache[n])
              && exists i :: 0 <= i < |occs| && occs[i].name == n
    decreases |occs|
  {
    if occs != [] {
      var prefix := occs[..|occs| - 1];
      var o := occs[|occs| - 1];
      var before := ScanFold(prefix, cache, backend).cache;
      ScanFoldExtendsCache(prefix, cache, backend);
      RememberKeepsLookups(before, backend, o.name, o.name);
      forall n | n in ScanFold(occs, cache, backend).cache && n !in cache
        ensures exists i :: 0 <= i < |occs| && occs[i].name == n
      {
        if n in before {
          var i :| 0 <= i < |prefix| && prefix[i].name == n;
          assert occs[i] == prefix[i];
        } else {
          assert occs[|occs| - 1].name == n;
        }
      }
    }
  }

  /** Every occurrence whose name is missing from the cache at that point
      causes one backend request, and only those do: no name held by the
      initial cache is ever requested, every name missing from it is
      requested at least once, and a name the backend answers is requested
      at most once. */
  lemma {:induction false} ScanFoldRequests(occs: seq<Occurrence>, cache: ClientCache, backend: Backend)
    ensures forall i :: 0 <= i < |ScanFold(occs, cache, backend).issued| ==>
              ScanFold(occs, cache, backend).issued[i] !in cache
    ensures forall j :: 0 <= j < |occs| && occs[j].name !in cache ==>
              occs[j].name in ScanFold(occs, cache, backend).issued
    ensures forall i, j ::
              (0 <= i < j < |ScanFold(occs, cache, backend).issued|
               && ScanFold(occs, cache, backend).issued[i] == ScanFold(occs, cache, backend).issued[j]) ==>
              backend(ScanFold(occs, cache, backend).issued[i]).None?
    decreases |occs|
  {
    if occs != [] {
      var prefix := occs[..|occs| - 1];
      var o := occs[|occs| - 1];
      var s := ScanFold(prefix, cache, backend);
      ScanFoldRequests(prefix, cache, backend);
      ScanFoldExtendsCache(prefix, cache, backend);
      var issued := s.issued + Requested(s.cache, o.name);
      assert ScanFold(occs, cache, backend).issued == issued;
      forall j | 0 <= j < |occs| && occs[j].name !in cache
        ensures occs[j].name in issued
      {
        if j < |prefix| {
          assert occs[j] == prefix[j];
        } else if o.name in s.cache {
          // cached since: only a request can have put it there
          IssuedBeforeCached(prefix, cache, backend, o.name);
        }
      }
      forall i, j | 0 <= i < j < |issued| && issued[i] == issued[j]
        ensures backend(issued[i]).None?
      {
        if j >= |s.issued| {
          assert issued[j] == o.name && o.name !in s.cache;
          assert issued[i] == s.issued[i];
          if backend(issued[i]).Some? {
            IssuedSuccessIsCached(prefix, cache, backend, i);
            assert false;
          }
        }
      }
    }
  }

  /** A name the scan newly cached was requested. */
  lemma IssuedBeforeCached(occs: seq<Occurrence>, cache: ClientCache, backend: Backend, name: string)
    requires name in ScanFold(occs, cache, backend).cache && name !in cache
    ensures name in ScanFold(occs, cache, backend).issued
    decreases |occs|
  {
    var prefix := occs[..|occs| - 1];
    var s := ScanFold(prefix, cache, backend);
    if name in s.cache {
      IssuedBeforeCached(prefix, cache, backend, name);
    }
  }

  /** A request the backend answered left its name in the cache. */
  lemma IssuedSuccessIsCached(occs: seq<Occurrence>, cache: ClientCache, backend: Backend, i: nat)
    requires i < |ScanFold(occs, cache, backend).issued|
    requires backend(ScanFold(occs, cache, backend).issued[i]).Some?
    ensures ScanFold(occs, cache, backend).issued[i] in ScanFold(occs, cache, backend).cache
    decreases |occs|
  {
    var prefix := occs[..|occs| - 1];
    var s := ScanFold(prefix, cache, backend);
    if i < |s.issued| {
      IssuedSuccessIsCached(prefix, cache, backend, i);
    }
  }

  // ---------------------------------------------------------------------
  // Properties of the reference definition
  // ---------------------------------------------------------------------

  /** Order is kept: the diagnostics of a concatenation are the
      concatenation of the diagnostics. */
  lemma {:induction false} AssembleAppend(a: seq<Occurrence>, b: seq<Occurrence>, cache: ClientCache, backend: Backend)
    ensures Assemble(a + b, cache, backend) == Assemble(a, cache, backend) + Assemble(b, cache, backend)
    decreases |b|
  {
    if b == [] {
      assert a + b == a;
    } else {
      var b' := b[..|b| - 1];
      assert (a + b)[..|a + b| - 1] == a + b';
      AssembleAppend(a, b', cache, backend);
    }
  }

  /** Soundness: every diagnostic is a warning from "compatbuddy" made for
      some occurrence whose lookup gave a record with support below 85. */
  lemma {:induction false} AssembleSound(occs: seq<Occurrence>, cache: ClientCache, backend: Backend)
    ensures forall i :: 0 <= i < |Assemble(occs, cache, backend)| ==>
              && Assemble(occs, cache, backend)[i].source == DiagnosticSource
              && Assemble(occs, cache, backend)[i].severity == Warning
              && exists j :: 0 <= j < |occs| && Flags(Lookup(cache, backend, occs[j].name))
                   && Assemble(occs, cache, backend)[i]
                        == MakeDiagnostic(occs[j], Lookup(cache, backend, occs[j].name).value)
    decreases |occs|
  {
    if occs != [] {
      var prefix := occs[..|occs| - 1];
      var o := occs[|occs| - 1];
      var r := Assemble(occs, cache, backend);
      var p := Assemble(prefix, cache, backend);
      AssembleSound(prefix, cache, backend);
      assert r == p + Reported(o, Lookup(cache, backend, o.name));
      forall i | 0 <= i < |r|
        ensures exists j :: 0 <= j < |occs| && Flags(Lookup(cache, backend, occs[j].name))
                  && r[i] == MakeDiagnostic(occs[j], Lookup(cache, backend, occs[j].name).value)
      {
        if i < |p| {
          var j :| 0 <= j < |prefix| && Flags(Lookup(cache, backend, prefix[j].name))
                   && p[i] == MakeDiagnostic(prefix[j], Lookup(cache, backend, prefix[j].name).value);
          assert occs[j] == prefix[j];
        } else {
          assert occs[|occs| - 1] == o;
        }
      }
    }
  }

  /** Completeness: every occurrence whose lookup is flagged has its
      diagnostic in the list. */
  lemma {:induction false} AssembleComplete(occs: seq<Occurrence>, cache: ClientCache, backend: Backend)
    ensures forall j :: 0 <= j < |occs| && Flags(Lookup(cache, backend, occs[j].name)) ==>
              MakeDiagnostic(occs[j], Lookup(cache, backend, occs[j].name).value) in Assemble(occs, cache, backend)
    decreases |occs|
  {
    if occs != [] {
      var prefix := occs[..|occs| - 1];
      AssembleComplete(prefix, cache, backend);
      forall j | 0 <= j < |prefix| ensures occs[j] == prefix[j] { }
    }
  }

  /** One diagnostic per occurrence, in order. */
  function DiagnoseAll(occs: seq<Occurrence>, info: FeatureInfo): (r: seq<Diagnostic>)
    ensures |r| == |occs|
    ensures forall i :: 0 <= i < |occs| ==> r[i] == MakeDiagnostic(occs[i], info)
  {
    if occs == [] then []
    else DiagnoseAll(occs[..|occs| - 1], info) + [MakeDiagnostic(occs[|occs| - 1], info)]
  }

  predicate AllNamed(occs: seq<Occurrence>, name: string) {
    forall i :: 0 <= i < |occs| ==> occs[i].name == name
  }

  /** No deduplication: the matches of one feature are all reported, one
      diagnostic each and in order, or none of them is. */
  lemma {:induction false} AssembleOneFeature(occs: seq<Occurrence>, name: string, cache: ClientCache, backend: Backend)
    requires AllNamed(occs, name)
    ensures Assemble(occs, cache, backend) ==
              if Flags(Lookup(cache, backend, name)) then DiagnoseAll(occs, Lookup(cache, backend, name).value) else []
    decreases |occs|
  {
    if occs != [] {
      AssembleOneFeature(occs[..|occs| - 1], name, cache, backend);
    }
  }

  // ---------------------------------------------------------------------
  // The diagnostics of a whole document
  // ---------------------------------------------------------------------

  /** The diagnostics of each block on its own. */
  function Reports(blocks: seq<seq<Occurrence>>, cache: ClientCache, backend: Backend): (r: seq<seq<Diagnostic>>)
    ensures |r| == |blocks|
    ensures forall q :: 0 <= q < |blocks| ==> r[q] == Assemble(blocks[q], cache, backend)
  {
    if blocks == [] then []
    else Reports(blocks[..|blocks| - 1], cache, backend) + [Assemble(blocks[|blocks| - 1], cache, backend)]
  }

  lemma {:induction false} AssembleConcat(blocks: seq<seq<Occurrence>>, cache: ClientCache, backend: Backend)
    ensures Assemble(Concat(blocks), cache, backend) == Concat(Reports(blocks, cache, backend))
    decreases |blocks|
  {
    if blocks != [] {
      var init := blocks[..|blocks| - 1];
      var last := blocks[|blocks| - 1];
      AssembleConcat(init, cache, backend);
      AssembleAppend(Concat(init), last, cache, backend);
      ConcatSnoc(Reports(init, cache, backend), Assemble(last, cache, backend));
    }
  }

  /** What registry entry `q` contributes to a document's diagnostics:
      one warning per match when the entry lists the language and its
      feature is flagged, nothing otherwise. */
  function EntryReport(engine: RegexEngine, text: string, lang: string, cache: ClientCache,
                       backend: Backend, q: nat): seq<Diagnostic>
    requires q < |WebFeatures|
  {
    WebFeaturesWellFormed();
    if lang in WebFeatures[q].languages && Flags(Lookup(cache, backend, WebFeatures[q].name))
    then DiagnoseAll(EntryOccurrences(engine, WebFeatures, q, text, lang),
                     Lookup(cache, backend, WebFeatures[q].name).value)
    else []
  }

  function EntryReports(engine: RegexEngine, text: string, lang: string, cache: ClientCache,
                        backend: Backend): (r: seq<seq<Diagnostic>>)
    ensures |r| == |WebFeatures|
    ensures forall q :: 0 <= q < |WebFeatures| ==> r[q] == EntryReport(engine, text, lang, cache, backend, q)
  {
    seq(|WebFeatures|, q requires 0 <= q < |WebFeatures| => EntryReport(engine, text, lang, cache, backend, q))
  }

  /** The reference definition on one entry's occurrences. */
  lemma EntryReportAssembles(engine: RegexEngine, text: string, lang: string, cache: ClientCache,
                             backend: Backend, q: nat)
    requires q < |WebFeatures|
    ensures PatternsWellFormed(WebFeatures)
    ensures Assemble(EntryOccurrences(engine, WebFeatures, q, text, lang), cache, backend)
              == EntryReport(engine, text, lang, cache, backend, q)
  {
    WebFeaturesWellFormed();
    var occs := EntryOccurrences(engine, WebFeatures, q, text, lang);
    if lang in WebFeatures[q].languages {
      assert AllNamed(occs, WebFeatures[q].name);
      AssembleOneFeature(occs, WebFeatures[q].name, cache, backend);
    }
  }

  /** The diagnostics of a document, entry by entry in registry order and
      match by match within an entry: no match of a flagged feature is
      dropped or merged, and no match of another feature is kept. */
  lemma ScanDiagnosticsPerEntry(engine: RegexEngine, text: string, lang: string, cache: ClientCache, backend: Backend)
    ensures Assemble(Scan(engine, text, lang), cache, backend)
              == Concat(EntryReports(engine, text, lang, cache, backend))
  {
    WebFeaturesWellFormed();
    var blocks := EntryBlocks(engine, WebFeatures, text, lang);
    AssembleConcat(blocks, cache, backend);
    forall q | 0 <= q < |WebFeatures|
      ensures Assemble(blocks[q], cache, backend) == EntryReport(engine, text, lang, cache, backend, q)
    {
      EntryReportAssembles(engine, text, lang, cache, backend, q);
    }
    assert Reports(blocks, cache, backend) == EntryReports(engine, text, lang, cache, backend);
  }

  /** Every diagnostic of a document is a warning from "compatbuddy" whose
      span is a match in the text of a registry entry listing the
      document's language, whose code is that entry's name, and whose
      feature was obtained with support below 85. */
  lemma ScanDiagnosticsSound(engine: RegexEngine, text: string, lang: string, cache: ClientCache, backend: Backend)
    ensures forall d :: d in Assemble(Scan(engine, text, lang), cache, backend) ==>
              && d.source == DiagnosticSource
              && d.severity == Warning
              && d.span.start < d.span.end <= |text|
              && (exists q :: 0 <= q < |WebFeatures| && d.code == WebFeatures[q].name && lang in WebFeatures[q].languages)
              && Lookup(cache, backend, d.code).Some?
              && Lookup(cache, backend, d.code).value.supportPercentage < WarningThreshold
  {
    var occs := Scan(engine, text, lang);
    AssembleSound(occs, cache, backend);
    forall d | d in Assemble(occs, cache, backend)
      ensures && d.span.start < d.span.end <= |text|
              && (exists q :: 0 <= q < |WebFeatures| && d.code == WebFeatures[q].name && lang in WebFeatures[q].languages)
    {
      var i :| 0 <= i < |Assemble(occs, cache, backend)| && Assemble(occs, cache, backend)[i] == d;
      var j :| 0 <= j < |occs| && Flags(Lookup(cache, backend, occs[j].name))
               && d == MakeDiagnostic(occs[j], Lookup(cache, backend, occs[j].name).value);
      assert PlacedIn(occs[j], WebFeatures, text, lang);
    }
  }
}
