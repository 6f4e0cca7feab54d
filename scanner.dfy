/** The matching part of `scanDocument` in src/extension.ts: for every
    registry entry that lists the document's language, a fresh global
    regular expression is run with `exec` in a loop until it returns
    `null`; each match becomes the span `[index, index + match[0].length)`. */
module Scanner {
  import opened Wrappers
  import opened Registry

  /** The parts of a `RegExpExecArray` the scan reads: `index` and `[0]`. */
  datatype RegExpMatch = RegExpMatch(index: nat, matched: string)

  /** `exec` of the regular expression with the given source on a text,
      starting at `lastIndex`: the regular-expression engine, given from
      outside. */
  type RegexEngine = (string, string, nat) -> Option<RegExpMatch>

  /** `m` is a non-empty match found at or after `lastIndex`, and its
      `matched` text is exactly the text at its position. */
  predicate IsMatchFrom(text: string, lastIndex: nat, m: RegExpMatch) {
    && lastIndex <= m.index
    && m.index + |m.matched| <= |text|
    && |m.matched| > 0
    && text[m.index..m.index + |m.matched|] == m.matched
  }

  /** What the scan relies on from the engine. All registry patterns need at
      least one character, so their matches are never empty. */
  ghost predicate ValidEngine(engine: RegexEngine) {
    forall source, text, lastIndex: nat ::
      lastIndex <= |text| && engine(source, text, lastIndex).Some? ==>
        IsMatchFrom(text, lastIndex, engine(source, text, lastIndex).value)
  }

  // ---------------------------------------------------------------------
  // Literal patterns, matched here
  // ---------------------------------------------------------------------

  predicate OccursAt(lit: string, text: string, p: nat) {
    p + |lit| <= |text| && text[p..p + |lit|] == lit
  }

  /** `exec` of a literal pattern: the leftmost occurrence at or after
      `lastIndex`. */
  function FindLiteral(lit: string, text: string, lastIndex: nat): (r: Option<RegExpMatch>)
    requires |lit| > 0
    ensures r.Some? ==> && IsMatchFrom(text, lastIndex, r.value) && r.value.matched == lit
                        && forall p :: lastIndex <= p < r.value.index ==> !OccursAt(lit, text, p)
    ensures r.None? ==> forall p: nat :: lastIndex <= p ==> !OccursAt(lit, text, p)
    decreases |text| - lastIndex
  {
    if lastIndex + |lit| > |text| then None
    else if text[lastIndex..lastIndex + |lit|] == lit then Some(RegExpMatch(lastIndex, lit))
    else FindLiteral(lit, text, lastIndex + 1)
  }

  /** `regex.exec(text)` for a registry pattern. An answer of the engine
      that is not a non-empty match at or after `lastIndex` is read as
      `null`; for a valid engine no answer is discarded. */
  function Exec(engine: RegexEngine, pattern: Pattern, text: string, lastIndex: nat): (r: Option<RegExpMatch>)
    requires WellFormedPattern(pattern)
    ensures r.Some? ==> IsMatchFrom(text, lastIndex, r.value)
  {
    match pattern
    case Literal(lit) => FindLiteral(lit, text, lastIndex)
    case Regex(source) =>
      var r := engine(source, text, lastIndex);
      if r.Some? && IsMatchFrom(text, lastIndex, r.value) then r else None
  }

  /** A valid engine's answers pass through unchanged. */
  lemma ExecOfValidEngine(engine: RegexEngine, source: string, text: string, lastIndex: nat)
    requires ValidEngine(engine) && lastIndex <= |text|
    ensures Exec(engine, Regex(source), text, lastIndex) == engine(source, text, lastIndex)
  {
  }

  // ---------------------------------------------------------------------
  // The global exec loop of one pattern
  // ---------------------------------------------------------------------

  /** Start and end offsets, end exclusive. */
  datatype Span = Span(start: nat, end: nat)

  function MatchSpan(m: RegExpMatch): Span {
    Span(m.index, m.index + |m.matched|)
  }

  /** The spans visited by `while ((match = regex.exec(text)) !== null)`
      when `regex.lastIndex` starts at `lastIndex`: each `exec` leaves
      `lastIndex` at the end of its match. Every span is non-empty and lies
      in the text at or after the start index. */
  function ExecAll(engine: RegexEngine, pattern: Pattern, text: string, lastIndex: nat): (spans: seq<Span>)
    requires WellFormedPattern(pattern) && lastIndex <= |text|
    ensures forall i :: 0 <= i < |spans| ==> lastIndex <= spans[i].start < spans[i].end <= |text|
    decreases |text| - lastIndex
  {
    match Exec(engine, pattern, text, lastIndex)
    case None => []
    case Some(m) => [MatchSpan(m)] + ExecAll(engine, pattern, text, m.index + |m.matched|)
  }

  /** One turn of the `exec` loop: a match, then the loop from its end. */
  lemma ExecAllUnfold(engine: RegexEngine, pattern: Pattern, text: string, lastIndex: nat)
    requires WellFormedPattern(pattern) && lastIndex <= |text|
    requires Exec(engine, pattern, text, lastIndex).Some?
    ensures ExecAll(engine, pattern, text, lastIndex)
         == [MatchSpan(Exec(engine, pattern, text, lastIndex).value)]
            + ExecAll(engine, pattern, text, MatchSpan(Exec(engine, pattern, text, lastIndex).value).end)
  {
  }

  /** Spans strictly after one another, each ending before the next
      starts. */
  predicate Increasing(spans: seq<Span>) {
    forall i, j :: 0 <= i < j < |spans| ==> spans[i].end <= spans[j].start
  }

  /** The spans of one pattern are strictly increasing and pairwise
      disjoint. */
  lemma {:induction false} ExecAllSpansDisjoint(engine: RegexEngine, pattern: Pattern, text: string, lastIndex: nat)
    requires WellFormedPattern(pattern) && lastIndex <= |text|
    ensures Increasing(ExecAll(engine, pattern, text, lastIndex))
    decreases |text| - lastIndex
  {
    if Exec(engine, pattern, text, lastIndex).Some? {
      var first := MatchSpan(Exec(engine, pattern, text, lastIndex).value);
      ExecAllUnfold(engine, pattern, text, lastIndex);
      ExecAllSpansDisjoint(engine, pattern, text, first.end);
      var rest := ExecAll(engine, pattern, text, first.end);
      var spans := [first] + rest;
      forall i, j | 0 <= i < j < |spans| ensures spans[i].end <= spans[j].start {
        assert spans[j] == rest[j - 1] && first.end <= rest[j - 1].start;
        if i > 0 {
          assert spans[i] == rest[i - 1];
        }
      }
    }
  }

  /** Every span of `spans` is an occurrence of `lit`. */
  predicate AllOccurrences(lit: string, text: string, spans: seq<Span>) {
    forall i :: 0 <= i < |spans| ==>
      OccursAt(lit, text, spans[i].start) && spans[i].end == spans[i].start + |lit|
  }

  /** Every occurrence of `lit` at or after `from` starts inside a span. */
  ghost predicate Covers(lit: string, text: string, from: nat, spans: seq<Span>) {
    forall p: nat :: from <= p && OccursAt(lit, text, p) ==>
      exists i :: 0 <= i < |spans| && spans[i].start <= p < spans[i].end
  }

  /** For a literal pattern every span is an occurrence of the literal. */
  lemma {:induction false} LiteralSpansAreOccurrences(engine: RegexEngine, lit: string, text: string, lastIndex: nat)
    requires |lit| > 0 && lastIndex <= |text|
    ensures AllOccurrences(lit, text, ExecAll(engine, Literal(lit), text, lastIndex))
    decreases |text| - lastIndex
  {
    var spans := ExecAll(engine, Literal(lit), text, lastIndex);
    var r := FindLiteral(lit, text, lastIndex);
    if r.Some? {
      var next := r.value.index + |lit|;
      var rest := ExecAll(engine, Literal(lit), text, next);
      assert spans == [MatchSpan(r.value)] + rest;
      LiteralSpansAreOccurrences(engine, lit, text, next);
      forall i | 0 <= i < |spans|
        ensures OccursAt(lit, text, spans[i].start) && spans[i].end == spans[i].start + |lit|
      {
        if i > 0 {
          assert spans[i] == rest[i - 1];
        }
      }
    }
  }

  /** Every occurrence of the literal at or after the start index begins
      inside some span: the loop skips only occurrences that overlap one it
      reported. */
  lemma {:induction false} LiteralSpansCoverOccurrences(engine: RegexEngine, lit: string, text: string, lastIndex: nat)
    requires |lit| > 0 && lastIndex <= |text|
    ensures Covers(lit, text, lastIndex, ExecAll(engine, Literal(lit), text, lastIndex))
    decreases |text| - lastIndex
  {
    var spans := ExecAll(engine, Literal(lit), text, lastIndex);
    var r := FindLiteral(lit, text, lastIndex);
    if r.Some? {
      var next := r.value.index + |lit|;
      var rest := ExecAll(engine, Literal(lit), text, next);
      assert spans == [MatchSpan(r.value)] + rest;
      LiteralSpansCoverOccurrences(engine, lit, text, next);
      forall p: nat | lastIndex <= p && OccursAt(lit, text, p)
        ensures exists i :: 0 <= i < |spans| && spans[i].start <= p < spans[i].end
      {
        if p < next {
          assert spans[0].start <= p < spans[0].end;
        } else {
          var k :| 0 <= k < |rest| && rest[k].start <= p < rest[k].end;
          assert spans[k + 1] == rest[k];
        }
      }
    }
  }

  // ---------------------------------------------------------------------
  // The outer loop over the registry
  // ---------------------------------------------------------------------

  /** A match of registry entry number `rank`, named by its feature. */
  datatype Occurrence = Occurrence(rank: nat, name: string, span: Span)

  /** The spans of one entry, tagged with its rank and name. */
  function Tag(rank: nat, name: string, spans: seq<Span>): (occs: seq<Occurrence>)
    ensures |occs| == |spans|
    ensures forall i :: 0 <= i < |spans| ==> occs[i] == Occurrence(rank, name, spans[i])
  {
    if spans == [] then []
    else Tag(rank, name, spans[..|spans| - 1]) + [Occurrence(rank, name, spans[|spans| - 1])]
  }

  ghost predicate PatternsWellFormed(entries: seq<FeatureDescriptor>) {
    forall i :: 0 <= i < |entries| ==> WellFormedPattern(entries[i].pattern)
  }

  /** The matches of entry `rank`: none when it does not list the language. */
  function EntryOccurrences(engine: RegexEngine, entries: seq<FeatureDescriptor>, rank: nat,
                            text: string, lang: string): seq<Occurrence>
    requires PatternsWellFormed(entries) && rank < |entries|
  {
    if lang in entries[rank].languages
    then Tag(rank, entries[rank].name, ExecAll(engine, entries[rank].pattern, text, 0))
    else []
  }

  /** The matches of every entry, one block per entry, in registry order. */
  function EntryBlocks(engine: RegexEngine, entries: seq<FeatureDescriptor>, text: string, lang: string)
    : (blocks: seq<seq<Occurrence>>)
    requires PatternsWellFormed(entries)
    ensures |blocks| == |entries|
    ensures forall q :: 0 <= q < |entries| ==> blocks[q] == EntryOccurrences(engine, entries, q, text, lang)
  {
    seq(|entries|, q requires 0 <= q < |entries| => EntryOccurrences(engine, entries, q, text, lang))
  }

  /** The blocks one after the other. */
  function Concat<T>(blocks: seq<seq<T>>): seq<T> {
    if blocks == [] then [] else Concat(blocks[..|blocks| - 1]) + blocks[|blocks| - 1]
  }

  lemma ConcatSnoc<T>(blocks: seq<seq<T>>, b: seq<T>)
    ensures Concat(blocks + [b]) == Concat(blocks) + b
  {
    assert (blocks + [b])[..|blocks|] == blocks;
  }

  /** The first `i + 1` blocks joined are the first `i` joined, then block `i`. */
  lemma ConcatTake<T>(blocks: seq<seq<T>>, i: nat)
    requires i < |blocks|
    ensures Concat(blocks[..i + 1]) == Concat(blocks[..i]) + blocks[i]
  {
    assert blocks[..i + 1] == blocks[..i] + [blocks[i]];
    ConcatSnoc(blocks[..i], blocks[i]);
  }

  lemma AppendAssociative<T>(a: seq<T>, b: seq<T>, c: seq<T>)
    ensures (a + b) + c == a + (b + c)
  {
  }

  lemma TagSnoc(rank: nat, name: string, spans: seq<Span>, s: Span)
    ensures Tag(rank, name, spans + [s]) == Tag(rank, name, spans) + [Occurrence(rank, name, s)]
  {
    assert (spans + [s])[..|spans|] == spans;
  }

  // ---------------------------------------------------------------------
  // Properties of a concatenation of blocks, one block per rank
  // ---------------------------------------------------------------------

  predicate AllOfRank(occs: seq<Occurrence>, rank: nat) {
    forall i :: 0 <= i < |occs| ==> occs[i].rank == rank
  }

  /** Block `q` holds occurrences of rank `q` only. */
  predicate Ranked(blocks: seq<seq<Occurrence>>) {
    forall q :: 0 <= q < |blocks| ==> AllOfRank(blocks[q], q)
  }

  predicate RanksBelow(occs: seq<Occurrence>, k: nat) {
    forall i :: 0 <= i < |occs| ==> occs[i].rank < k
  }

  /** Sorted by rank and, within one rank, by increasing disjoint spans. */
  predicate RankOrdered(occs: seq<Occurrence>) {
    forall i, j :: 0 <= i < j < |occs| ==>
      occs[i].rank < occs[j].rank
      || (occs[i].rank == occs[j].rank && occs[i].span.end <= occs[j].span.start)
  }

  lemma {:induction false} ConcatRanksBelow(blocks: seq<seq<Occurrence>>)
    requires Ranked(blocks)
    ensures RanksBelow(Concat(blocks), |blocks|)
    decreases |blocks|
  {
    if blocks != [] {
      ConcatRanksBelow(blocks[..|blocks| - 1]);
    }
  }

  lemma RankOrderedAppend(a: seq<Occurrence>, b: seq<Occurrence>, q: nat)
    requires RankOrdered(a) && RankOrdered(b) && AllOfRank(b, q) && RanksBelow(a, q)
    ensures RankOrdered(a + b)
  {
    forall i, j | 0 <= i < j < |a + b|
      ensures (a + b)[i].rank < (a + b)[j].rank
              || ((a + b)[i].rank == (a + b)[j].rank && (a + b)[i].span.end <= (a + b)[j].span.start)
    {
      if j >= |a| && i >= |a| {
        assert (a + b)[i] == b[i - |a|] && (a + b)[j] == b[j - |a|];
      } else if j >= |a| {
        assert (a + b)[j] == b[j - |a|];
      }
    }
  }

  lemma {:induction false} ConcatRankOrdered(blocks: seq<seq<Occurrence>>)
    requires Ranked(blocks)
    requires forall q :: 0 <= q < |blocks| ==> RankOrdered(blocks[q])
    ensures RankOrdered(Concat(blocks))
    decreases |blocks|
  {
    if blocks != [] {
      var init := blocks[..|blocks| - 1];
      ConcatRankOrdered(init);
      ConcatRanksBelow(init);
      RankOrderedAppend(Concat(init), blocks[|blocks| - 1], |blocks| - 1);
    }
  }

  /** Every occurrence of the concatenation comes from some block. */
  lemma {:induction false} ConcatMembers(blocks: seq<seq<Occurrence>>)
    ensures forall i :: 0 <= i < |Concat(blocks)| ==>
              exists q :: 0 <= q < |blocks| && Concat(blocks)[i] in blocks[q]
    decreases |blocks|
  {
    if blocks != [] {
      var init := blocks[..|blocks| - 1];
      var last := blocks[|blocks| - 1];
      assert Concat(blocks) == Concat(init) + last;
      ConcatMembers(init);
      forall i | 0 <= i < |Concat(blocks)|
        ensures exists q :: 0 <= q < |blocks| && Concat(blocks)[i] in blocks[q]
      {
        if i < |Concat(init)| {
          var q :| 0 <= q < |init| && Concat(init)[i] in init[q];
          assert Concat(blocks)[i] == Concat(init)[i] && blocks[q] == init[q];
        } else {
          assert Concat(blocks)[i] == last[i - |Concat(init)|];
          assert Concat(blocks)[i] in blocks[|blocks| - 1];
        }
      }
    } else {
      assert Concat(blocks) == [];
    }
  }

  /** The occurrences of one rank, in order. */
  function OfRank(occs: seq<Occurrence>, rank: nat): seq<Occurrence> {
    if occs == [] then []
    else OfRank(occs[..|occs| - 1], rank) + (if occs[|occs| - 1].rank == rank then [occs[|occs| - 1]] else [])
  }

  lemma {:induction false} OfRankAppend(a: seq<Occurrence>, b: seq<Occurrence>, rank: nat)
    ensures OfRank(a + b, rank) == OfRank(a, rank) + OfRank(b, rank)
    decreases |b|
  {
    if b == [] {
      assert a + b == a;
    } else {
      var b' := b[..|b| - 1];
      assert (a + b)[..|a + b| - 1] == a + b';
      OfRankAppend(a, b', rank);
    }
  }

  lemma {:induction false} OfRankUniform(occs: seq<Occurrence>, rank: nat, other: nat)
    requires AllOfRank(occs, rank)
    ensures OfRank(occs, rank) == occs
    ensures other != rank ==> OfRank(occs, other) == []
    decreases |occs|
  {
    if occs != [] {
      var init := occs[..|occs| - 1];
      var last := occs[|occs| - 1];
      assert AllOfRank(init, rank) && last.rank == rank;
      OfRankUniform(init, rank, other);
      assert OfRank(occs, rank) == init + [last];
      assert occs == init + [last];
    }
  }

  /** Selecting one rank out of the concatenation gives back its block. */
  lemma {:induction false} ConcatOfRank(blocks: seq<seq<Occurrence>>, rank: nat)
    requires Ranked(blocks)
    ensures OfRank(Concat(blocks), rank) == if rank < |blocks| then blocks[rank] else []
    decreases |blocks|
  {
    if blocks != [] {
      var init := blocks[..|blocks| - 1];
      var last := blocks[|blocks| - 1];
      ConcatOfRank(init, rank);
      OfRankAppend(Concat(init), last, rank);
      OfRankUniform(last, |blocks| - 1, rank);
      if rank < |blocks| - 1 {
        assert init[rank] == blocks[rank];
        assert OfRank(Concat(blocks), rank) == blocks[rank] + [];
      } else if rank == |blocks| - 1 {
        assert OfRank(Concat(blocks), rank) == [] + last;
      } else {
        assert OfRank(Concat(blocks), rank) == [] + [];
      }
    }
  }

  lemma {:induction false} ConcatOfEmpty(blocks: seq<seq<Occurrence>>)
    requires forall q :: 0 <= q < |blocks| ==> blocks[q] == []
    ensures Concat(blocks) == []
    decreases |blocks|
  {
    if blocks != [] {
      ConcatOfEmpty(blocks[..|blocks| - 1]);
    }
  }

  // ---------------------------------------------------------------------
  // The blocks of the registry
  // ---------------------------------------------------------------------

  /** Each occurrence is a non-empty span of the text, found by the entry of
      its rank, which lists the language, and named by that entry. */
  ghost predicate PlacedIn(o: Occurrence, entries: seq<FeatureDescriptor>, text: string, lang: string) {
    && o.rank < |entries|
    && o.name == entries[o.rank].name
    && lang in entries[o.rank].languages
    && o.span.start < o.span.end <= |text|
  }

  /** One entry's block: all of its rank, well placed, disjoint and
      increasing. */
  lemma EntryOccurrencesFacts(engine: RegexEngine, entries: seq<FeatureDescriptor>, q: nat,
                              text: string, lang: string)
    requires PatternsWellFormed(entries) && q < |entries|
    ensures AllOfRank(EntryOccurrences(engine, entries, q, text, lang), q)
    ensures RankOrdered(EntryOccurrences(engine, entries, q, text, lang))
    ensures forall o :: o in EntryOccurrences(engine, entries, q, text, lang) ==> PlacedIn(o, entries, text, lang)
  {
    if lang in entries[q].languages {
      ExecAllSpansDisjoint(engine, entries[q].pattern, text, 0);
    }
  }

  lemma BlocksFacts(engine: RegexEngine, entries: seq<FeatureDescriptor>, text: string, lang: string)
    requires PatternsWellFormed(entries)
    ensures Ranked(EntryBlocks(engine, entries, text, lang))
    ensures forall q :: 0 <= q < |entries| ==> RankOrdered(EntryBlocks(engine, entries, text, lang)[q])
    ensures forall q, o :: 0 <= q < |entries| && o in EntryBlocks(engine, entries, text, lang)[q] ==>
              PlacedIn(o, entries, text, lang)
  {
    forall q | 0 <= q < |entries|
      ensures AllOfRank(EntryBlocks(engine, entries, text, lang)[q], q)
      ensures RankOrdered(EntryBlocks(engine, entries, text, lang)[q])
      ensures forall o :: o in EntryBlocks(engine, entries, text, lang)[q] ==> PlacedIn(o, entries, text, lang)
    {
      EntryOccurrencesFacts(engine, entries, q, text, lang);
    }
  }

  // ---------------------------------------------------------------------
  // The whole scan
  // ---------------------------------------------------------------------

  /** The matches of a whole document: registry order, then match order.
      Every occurrence is a non-empty span of the text found by a registry
      entry that lists the document's language, and carries that entry's
      name. */
  function Scan(engine: RegexEngine, text: string, lang: string): (s: seq<Occurrence>)
    ensures forall i :: 0 <= i < |s| ==> PlacedIn(s[i], WebFeatures, text, lang)
  {
    WebFeaturesWellFormed();
    BlocksFacts(engine, WebFeatures, text, lang);
    ConcatMembers(EntryBlocks(engine, WebFeatures, text, lang));
    Concat(EntryBlocks(engine, WebFeatures, text, lang))
  }

  /** The scan is sorted by registry order and, within one entry, by
      strictly increasing, disjoint spans. */
  lemma ScanSorted(engine: RegexEngine, text: string, lang: string)
    ensures RankOrdered(Scan(engine, text, lang))
  {
    WebFeaturesWellFormed();
    BlocksFacts(engine, WebFeatures, text, lang);
    ConcatRankOrdered(EntryBlocks(engine, WebFeatures, text, lang));
  }

  /** The occurrences a scan attributes to one registry entry are exactly
      that entry's own `exec` loop, in its order. */
  lemma ScanOfOneEntry(engine: RegexEngine, text: string, lang: string, rank: nat)
    requires rank < |WebFeatures|
    ensures WellFormedPattern(WebFeatures[rank].pattern)
    ensures OfRank(Scan(engine, text, lang), rank) ==
              if lang in WebFeatures[rank].languages
              then Tag(rank, WebFeatures[rank].name, ExecAll(engine, WebFeatures[rank].pattern, text, 0))
              else []
  {
    WebFeaturesWellFormed();
    BlocksFacts(engine, WebFeatures, text, lang);
    ConcatOfRank(EntryBlocks(engine, WebFeatures, text, lang), rank);
  }

  /** An HTML document, or one in any other language outside the style-sheet
      and script languages, is scanned to nothing. */
  lemma OtherLanguagesScanToNothing(engine: RegexEngine, text: string, lang: string)
    requires lang !in CssLanguages && lang !in ScriptLanguages
    ensures Scan(engine, text, lang) == []
  {
    WebFeaturesWellFormed();
    LanguagesOfEntries(lang);
    ConcatOfEmpty(EntryBlocks(engine, WebFeatures, text, lang));
  }

  /** The literal loop over a script with two uses of `navigator.gpu`
      separated by `||` visits exactly the two uses. */
  lemma WebGpuLiteralSpans(engine: RegexEngine)
    ensures ExecAll(engine, Literal("navigator.gpu"), "navigator.gpu||navigator.gpu", 0)
              == [Span(0, 13), Span(15, 28)]
  {
    var text := "navigator.gpu||navigator.gpu";
    var lit := "navigator.gpu";
    assert text[0..13] == lit;
    assert text[15..28] == lit;
    assert text[13..26] != lit by { assert text[13] != lit[0]; }
    assert text[14..27] != lit by { assert text[14] != lit[0]; }
    assert FindLiteral(lit, text, 28) == None;
    assert FindLiteral(lit, text, 15) == Some(RegExpMatch(15, lit));
    assert FindLiteral(lit, text, 14) == FindLiteral(lit, text, 15);
    assert FindLiteral(lit, text, 13) == FindLiteral(lit, text, 14);
    assert FindLiteral(lit, text, 0) == Some(RegExpMatch(0, lit));
    assert ExecAll(engine, Literal(lit), text, 28) == [];
    assert ExecAll(engine, Literal(lit), text, 13) == [Span(15, 28)];
  }

  /** Two uses of `navigator.gpu` in a script give two `webgpu` spans that
      delimit exactly the two uses, whatever the engine does for the other
      patterns. */
  lemma WebGpuTwice(engine: RegexEngine)
    ensures OfRank(Scan(engine, "navigator.gpu||navigator.gpu", "javascript"), 8) ==
              [Occurrence(8, "webgpu", Span(0, 13)), Occurrence(8, "webgpu", Span(15, 28))]
  {
    var text := "navigator.gpu||navigator.gpu";
    var spans := [Span(0, 13), Span(15, 28)];
    assert OfRank(Scan(engine, text, "javascript"), 8) == Tag(8, "webgpu", spans) by {
      ScanOfOneEntry(engine, text, "javascript", 8);
      WebGpuEntry();
      WebGpuLiteralSpans(engine);
    }
    assert Tag(8, "webgpu", spans) == [Occurrence(8, "webgpu", Span(0, 13)), Occurrence(8, "webgpu", Span(15, 28))];
  }

  /** The ninth registry entry, written out. */
  lemma WebGpuEntry()
    ensures WebFeatures[8] == FeatureDescriptor("navigator\\.gpu", Literal("navigator.gpu"), "webgpu", ScriptLanguages)
    ensures "javascript" in ScriptLanguages
  {
  }
}
