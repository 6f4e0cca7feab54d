/** `CompatBuddyProvider` of src/extension.ts: its `featureCache` field,
    the cached backend lookup `getFeatureInfo`, the document scan
    `scanDocument`, the quick fixes of `provideCodeActions`, and the status
    colour that `createHoverContent` puts in front of a hover. */
module Provider {
  import opened Wrappers
  import opened Compat
  import opened Registry
  import opened Scanner
  import opened Diagnostics

  // ---------------------------------------------------------------------
  // Quick fixes
  // ---------------------------------------------------------------------

  /** A `vscode.Position`. */
  datatype Position = Position(line: nat, character: nat)

  datatype CodeActionKind = QuickFix

  /** The command of a quick fix with its three arguments: the document's
      uri, the start of the requested range and the diagnostic's code. */
  datatype Command = Command(command: string, title: string, uri: string, position: Position, code: string)

  datatype CodeAction = CodeAction(title: string, kind: CodeActionKind, command: Command)

  const InsertFallbackTitle: string := "Insert fallback snippet"
  const InsertFallbackCommand: string := "compatbuddy.insertFallback"

  /** The action built for one diagnostic. */
  function InsertFallbackAction(uri: string, start: Position, d: Diagnostic): CodeAction {
    CodeAction(InsertFallbackTitle, QuickFix,
               Command(InsertFallbackCommand, InsertFallbackTitle, uri, start, d.code))
  }

  /** The diagnostics that come from this extension, in order. */
  function Ours(diagnostics: seq<Diagnostic>): seq<Diagnostic> {
    if diagnostics == [] then []
    else Ours(diagnostics[..|diagnostics| - 1])
           + (if diagnostics[|diagnostics| - 1].source == DiagnosticSource then [diagnostics[|diagnostics| - 1]] else [])
  }

  /** `Ours` keeps exactly the diagnostics whose source is "compatbuddy". */
  lemma {:induction false} OursMembers(diagnostics: seq<Diagnostic>)
    ensures forall d :: d in Ours(diagnostics) <==> d in diagnostics && d.source == DiagnosticSource
    ensures |Ours(diagnostics)| <= |diagnostics|
    decreases |diagnostics|
  {
    if diagnostics != [] {
      var init := diagnostics[..|diagnostics| - 1];
      OursMembers(init);
      assert diagnostics == init + [diagnostics[|diagnostics| - 1]];
    }
  }

  /** A list of diagnostics all from this extension is kept whole. */
  lemma {:induction false} OursOfOwn(diagnostics: seq<Diagnostic>)
    requires forall i :: 0 <= i < |diagnostics| ==> diagnostics[i].source == DiagnosticSource
    ensures Ours(diagnostics) == diagnostics
    decreases |diagnostics|
  {
    if diagnostics != [] {
      var init := diagnostics[..|diagnostics| - 1];
      OursOfOwn(init);
      assert diagnostics == init + [diagnostics[|diagnostics| - 1]];
    }
  }

  // ---------------------------------------------------------------------
  // The hover's status colour
  // ---------------------------------------------------------------------

  datatype StatusColor = Green | Yellow | Red

  /** The indicator in front of the feature name in a hover. */
  function StatusColorFor(supportPercentage: int): (c: StatusColor)
    ensures c == Green <==> supportPercentage > 85
    ensures c == Yellow <==> 65 < supportPercentage <= 85
    ensures c == Red <==> supportPercentage <= 65
  {
    if supportPercentage > 85 then Green
    else if supportPercentage > 65 then Yellow
    else Red
  }

  function ColorRank(c: StatusColor): nat {
    match c
    case Red => 0
    case Yellow => 1
    case Green => 2
  }

  /** More support never gives a worse colour. */
  lemma StatusColorMonotone(p: int, q: int)
    requires p <= q
    ensures ColorRank(StatusColorFor(p)) <= ColorRank(StatusColorFor(q))
  {
  }

  /** A feature the scan warns about is never shown green; at exactly 85
      the hover is yellow although the scan does not warn. */
  lemma WarnedFeaturesAreNotGreen(info: FeatureInfo)
    ensures Flags(Some(info)) ==> StatusColorFor(info.supportPercentage) != Green
    ensures info.supportPercentage == 85 ==>
              !Flags(Some(info)) && StatusColorFor(info.supportPercentage) == Yellow
  {
  }

  // ---------------------------------------------------------------------
  // The provider
  // ---------------------------------------------------------------------

  class CompatBuddyProvider {
    /** `featureCache`: feature name to the record the backend returned. */
    var featureCache: ClientCache
    /** The feature names sent to the backend so far. */
    ghost var requests: seq<string>

    constructor ()
      ensures featureCache == map[] && requests == []
    {
      featureCache := map[];
      requests := [];
    }

    /** `getFeatureInfo`: a hit is answered from the cache without a
        request; a miss asks the backend, and only a successful answer is
        stored; a failure answers `None` (`null`). */
    method GetFeatureInfo(featureName: string, backend: Backend) returns (info: Option<FeatureInfo>)
      modifies this
      ensures featureName in old(featureCache) ==>
                && info == Some(old(featureCache)[featureName])
                && featureCache == old(featureCache)
                && requests == old(requests)
      ensures featureName !in old(featureCache) ==>
                && info == backend(featureName)
                && featureCache == (if info.Some? then old(featureCache)[featureName := info.value] else old(featureCache))
                && requests == old(requests) + [featureName]
    {
      if featureName in featureCache {
        return Some(featureCache[featureName]);
      }
      requests := requests + [featureName];
      var response := backend(featureName);
      match response {
        case Some(featureInfo) =>
          featureCache := featureCache[featureName := featureInfo];
          return Some(featureInfo);
        case None =>
          // the error is logged and `null` returned
          return None;
      }
    }

    /** The body of the inner loop of `scanDocument` for one match: look
        the feature up and push a warning when its support is below 85. */
    method ReportMatch(ghost rank: nat, name: string, range: Span, backend: Backend,
                       diagnostics: seq<Diagnostic>)
      returns (extended: seq<Diagnostic>)
      modifies this
      ensures ScanState(extended, featureCache, requests)
           == Step(ScanState(diagnostics, old(featureCache), old(requests)), Occurrence(rank, name, range), backend)
    {
      var featureInfo := GetFeatureInfo(name, backend);
      extended := diagnostics;
      if featureInfo.Some? && featureInfo.value.supportPercentage < WarningThreshold {
        var diagnostic := Diagnostic(range, Message(featureInfo.value), Warning, DiagnosticSource, name);
        extended := extended + [diagnostic];
      }
    }

    /** The inner loop of `scanDocument` for the registry entry at `rank`:
        `exec` from `lastIndex` 0 until it fails, each match reported in
        turn. */
    method ScanEntry(ghost rank: nat, featureConfig: FeatureDescriptor, text: string,
                     engine: RegexEngine, backend: Backend, diagnostics: seq<Diagnostic>)
      returns (extended: seq<Diagnostic>)
      requires WellFormedPattern(featureConfig.pattern)
      modifies this
      ensures ScanState(extended, featureCache, requests)
           == Steps(ScanState(diagnostics, old(featureCache), old(requests)),
                    Tag(rank, featureConfig.name, ExecAll(engine, featureConfig.pattern, text, 0)),
                    backend)
    {
      ghost var start := ScanState(diagnostics, featureCache, requests);
      ghost var done: seq<Span> := [];
      extended := diagnostics;
      var lastIndex: nat := 0;
      var match_ := Exec(engine, featureConfig.pattern, text, lastIndex);
      while match_.Some?
        invariant lastIndex <= |text|
        invariant match_ == Exec(engine, featureConfig.pattern, text, lastIndex)
        invariant done + ExecAll(engine, featureConfig.pattern, text, lastIndex)
                    == ExecAll(engine, featureConfig.pattern, text, 0)
        invariant ScanState(extended, featureCache, requests)
                    == Steps(start, Tag(rank, featureConfig.name, done), backend)
        decreases |text| - lastIndex
      {
        var m := match_.value;
        var range := MatchSpan(m);
        extended := ReportMatch(rank, featureConfig.name, range, backend, extended);
        TagSnoc(rank, featureConfig.name, done, range);
        StepsSnoc(start, Tag(rank, featureConfig.name, done), Occurrence(rank, featureConfig.name, range), backend);
        ghost var rest := ExecAll(engine, featureConfig.pattern, text, range.end);
        ExecAllUnfold(engine, featureConfig.pattern, text, lastIndex);
        AppendAssociative(done, [range], rest);
        done := done + [range];
        lastIndex := range.end;
        match_ := Exec(engine, featureConfig.pattern, text, lastIndex);
      }
      assert done == ExecAll(engine, featureConfig.pattern, text, 0);
    }

    /** `scanDocument`: for every registry entry listing the document's
        language, the global `exec` loop over the text, one lookup per
        match, and a warning for every match whose feature has support
        below 85. The diagnostics are those of the reference definition
        `Assemble` on the initial cache; the cache and the requests evolve
        as `ScanFold` says. */
    method ScanDocument(text: string, languageId: string, engine: RegexEngine, backend: Backend)
      returns (diagnostics: seq<Diagnostic>)
      modifies this
      ensures diagnostics == Assemble(Scan(engine, text, languageId), old(featureCache), backend)
      ensures featureCache == ScanFold(Scan(engine, text, languageId), old(featureCache), backend).cache
      ensures requests == old(requests) + ScanFold(Scan(engine, text, languageId), old(featureCache), backend).issued
    {
      WebFeaturesWellFormed();
      ghost var start := ScanState([], featureCache, requests);
      ghost var blocks := EntryBlocks(engine, WebFeatures, text, languageId);
      diagnostics := [];
      for i := 0 to |WebFeatures|
        invariant ScanState(diagnostics, featureCache, requests) == Steps(start, Concat(blocks[..i]), backend)
      {
        ConcatTake(blocks, i);
        StepsAppend(start, Concat(blocks[..i]), blocks[i], backend);
        if languageId in WebFeatures[i].languages {
          diagnostics := ScanEntry(i, WebFeatures[i], text, engine, backend, diagnostics);
        } else {
          assert blocks[i] == [];
        }
      }
      assert blocks[..|WebFeatures|] == blocks;
      StepsExtendFold([], start.issued, Scan(engine, text, languageId), start.cache, backend);
      ScanFoldDiagnostics(Scan(engine, text, languageId), start.cache, backend);
    }

    /** `provideCodeActions`: one "Insert fallback snippet" quick fix per
        diagnostic from this extension, in order, each carrying that
        diagnostic's code; other diagnostics get none. */
    method ProvideCodeActions(uri: string, rangeStart: Position, contextDiagnostics: seq<Diagnostic>)
      returns (actions: seq<CodeAction>)
      ensures |actions| == |Ours(contextDiagnostics)|
      ensures forall i :: 0 <= i < |actions| ==>
                actions[i] == InsertFallbackAction(uri, rangeStart, Ours(contextDiagnostics)[i])
    {
      actions := [];
      for k := 0 to |contextDiagnostics|
        invariant |actions| == |Ours(contextDiagnostics[..k])|
        invariant forall i :: 0 <= i < |actions| ==>
                    actions[i] == InsertFallbackAction(uri, rangeStart, Ours(contextDiagnostics[..k])[i])
      {
        var diagnostic := contextDiagnostics[k];
        assert contextDiagnostics[..k + 1][..k] == contextDiagnostics[..k];
        if diagnostic.source == DiagnosticSource {
          var action := CodeAction(InsertFallbackTitle, QuickFix,
                                   Command(InsertFallbackCommand, InsertFallbackTitle, uri, rangeStart, diagnostic.code));
          actions := actions + [action];
        }
      }
      assert contextDiagnostics[..|contextDiagnostics|] == contextDiagnostics;
    }
  }

  /** Every diagnostic a scan produces gets its quick fix: the actions for
      a scan's own output are one per diagnostic, in order. */
  lemma ScanDiagnosticsAllGetActions(engine: RegexEngine, text: string, lang: string,
                                     cache: ClientCache, backend: Backend)
    ensures Ours(Assemble(Scan(engine, text, lang), cache, backend)) == Assemble(Scan(engine, text, lang), cache, backend)
  {
    AssembleSound(Scan(engine, text, lang), cache, backend);
    OursOfOwn(Assemble(Scan(engine, text, lang), cache, backend));
  }
}
