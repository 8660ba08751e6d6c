/**
 * Causal-triple extraction: a marker-word gate and seven connective
 * patterns over the sentence text (confidence 0.7), a classifier over the
 * sentence's dependency edges (confidence 0.6), and a confidence filter.
 */
module CausalExtraction {
  import opened Optional
  import opened Strings
  import opened Triples

  /** The 25 causal marker words; a sentence containing none of them skips pattern matching. */
  const CausalMarkers: set<string> := {
    "因为", "由于", "导致", "引起", "致使", "使得", "所以", "因此", "造成",
    "引发", "促使", "促进", "带来", "产生", "形成", "决定", "影响", "源于",
    "基于", "取决于", "归因于", "缘于", "出于", "鉴于", "考虑到"
  }

  const PatternConfidence: real := 0.7
  const DependencyConfidence: real := 0.6

  /**
   * A causal regex of the shape `lead(.+?)first\s*second(.+)`: a fixed
   * lead, the cause group (shortest first), a fixed connective, optional
   * whitespace when `gap` holds, a second fixed connective, and the
   * effect group (longest).
   */
  datatype Connective = Connective(lead: string, first: string, gap: bool, second: string)

  /** The seven patterns, in the order the extractor tries them. */
  const CausalPatterns: seq<Connective> := [
    Connective("因为", "，", true, "所以"),  // 因为(.+?)，\s*所以(.+)
    Connective("由于", "，", false, ""),     // 由于(.+?)，(.+)
    Connective("", "导致", false, ""),       // (.+?)导致(.+)
    Connective("", "引起", false, ""),       // (.+?)引起(.+)
    Connective("", "致使", false, ""),       // (.+?)致使(.+)
    Connective("", "使得", false, ""),       // (.+?)使得(.+)
    Connective("因", "而", false, "")        // 因(.+?)而(.+)
  ]

  /** Length of the run of characters that `.` matches, starting at `i`. */
  function DotRun(text: string, i: nat): (n: nat)
    requires i <= |text|
    ensures i + n <= |text|
    decreases |text| - i
  {
    if i < |text| && !IsLineTerminator(text[i]) then 1 + DotRun(text, i + 1) else 0
  }

  /** `DotRun` is the maximal run of non-line-terminators. */
  lemma {:induction false} DotRunIsMaximal(text: string, i: nat)
    requires i <= |text|
    ensures forall k :: i <= k < i + DotRun(text, i) ==> !IsLineTerminator(text[k])
    ensures i + DotRun(text, i) == |text| || IsLineTerminator(text[i + DotRun(text, i)])
    decreases |text| - i
  {
    if i < |text| && !IsLineTerminator(text[i]) {
      DotRunIsMaximal(text, i + 1);
    }
  }

  /** Length of the run of `\s` characters starting at `i`. */
  function SpaceRun(text: string, i: nat): (n: nat)
    requires i <= |text|
    ensures i + n <= |text|
    decreases |text| - i
  {
    if i < |text| && IsRegexSpace(text[i]) then 1 + SpaceRun(text, i + 1) else 0
  }

  /**
   * Where the effect group starts when the cause group ends at `e`, or
   * None when the connective does not follow there. The greedy `\s*` can
   * only succeed with the longest whitespace run, since no connective
   * starts with whitespace.
   */
  function EffectStart(p: Connective, text: string, e: nat): Option<nat> {
    if !HasPrefixAt(text, e, p.first) then None
    else
      var j := e + |p.first| + (if p.gap then SpaceRun(text, e + |p.first|) else 0);
      if HasPrefixAt(text, j, p.second) then Some(j + |p.second|) else None
  }

  /** The pattern matches with the lead at `s` and the cause group `text[s+|lead|..e]`. */
  predicate MatchesAt(p: Connective, text: string, s: nat, e: nat) {
    && s + |p.lead| < e <= |text|
    && HasPrefixAt(text, s, p.lead)
    && DotRun(text, s + |p.lead|) >= e - (s + |p.lead|)
    && EffectStart(p, text, e).Some?
    && EffectStart(p, text, e).value <= |text|
    && DotRun(text, EffectStart(p, text, e).value) >= 1
  }

  /**
   * The regex engine's `find`, over an abstract matcher: `ok(b, e)` holds
   * when a match can start at `b` with its lazy group ending at `e`, and
   * every such pair has `b + minLen <= e <= limit`.
   */
  ghost predicate WithinBounds(ok: (nat, nat) -> bool, minLen: nat, limit: nat) {
    forall b: nat, e: nat :: ok(b, e) ==> b + minLen <= e <= limit
  }

  /** The shortest lazy group for start `b`, trying ends from `e` upwards. */
  function ShortestEnd(ok: (nat, nat) -> bool, limit: nat, b: nat, e: nat): (r: Option<nat>)
    ensures r.Some? ==> ok(b, r.value)
    decreases limit + 1 - e
  {
    if e > limit then None
    else if ok(b, e) then Some(e)
    else ShortestEnd(ok, limit, b, e + 1)
  }

  /** `ShortestEnd` finds an end that matches, and no smaller end from `e` on matches. */
  lemma {:induction false} ShortestEndIsShortest(ok: (nat, nat) -> bool, limit: nat, b: nat, e: nat)
    requires forall e': nat :: ok(b, e') ==> e' <= limit
    ensures ShortestEnd(ok, limit, b, e).Some? ==>
      e <= ShortestEnd(ok, limit, b, e).value &&
      forall e': nat :: e <= e' < ShortestEnd(ok, limit, b, e).value ==> !ok(b, e')
    ensures ShortestEnd(ok, limit, b, e).None? ==> forall e': nat :: e <= e' ==> !ok(b, e')
    decreases limit + 1 - e
  {
    if e <= limit && !ok(b, e) {
      ShortestEndIsShortest(ok, limit, b, e + 1);
    }
  }

  /** `Matcher.find` from `s`: the leftmost start that admits a match, with its shortest lazy group. */
  function FindFrom(ok: (nat, nat) -> bool, minLen: nat, limit: nat, s: nat): (r: Option<(nat, nat)>)
    ensures r.Some? ==> ok(r.value.0, r.value.1)
    decreases limit + 1 - s
  {
    if s > limit then None
    else
      match ShortestEnd(ok, limit, s, s + minLen)
      case Some(e) => Some((s, e))
      case None => FindFrom(ok, minLen, limit, s + 1)
  }

  /** When `FindFrom` fails, no start from `s` on admits a match. */
  lemma {:induction false} FindFromNone(ok: (nat, nat) -> bool, minLen: nat, limit: nat, s: nat)
    requires WithinBounds(ok, minLen, limit)
    requires FindFrom(ok, minLen, limit, s).None?
    ensures forall b: nat, e: nat :: s <= b ==> !ok(b, e)
    decreases limit + 1 - s
  {
    if s <= limit {
      ShortestEndIsShortest(ok, limit, s, s + minLen);
      FindFromNone(ok, minLen, limit, s + 1);
    }
  }

  /** `FindFrom` returns a match whose start is leftmost and whose lazy group is shortest. */
  lemma {:induction false} FindFromIsLeftmost(ok: (nat, nat) -> bool, minLen: nat, limit: nat, s: nat)
    requires WithinBounds(ok, minLen, limit)
    requires FindFrom(ok, minLen, limit, s).Some?
    ensures s <= FindFrom(ok, minLen, limit, s).value.0
    ensures forall e: nat :: e < FindFrom(ok, minLen, limit, s).value.1 ==> !ok(FindFrom(ok, minLen, limit, s).value.0, e)
    ensures forall b: nat, e: nat :: s <= b < FindFrom(ok, minLen, limit, s).value.0 ==> !ok(b, e)
    decreases limit + 1 - s
  {
    ShortestEndIsShortest(ok, limit, s, s + minLen);
    if ShortestEnd(ok, limit, s, s + minLen).None? {
      FindFromIsLeftmost(ok, minLen, limit, s + 1);
    }
  }

  /** Conversely, the shortest matching end from `e0` on is what `ShortestEnd` returns. */
  lemma {:induction false} ShortestEndFinds(ok: (nat, nat) -> bool, limit: nat, b: nat, e0: nat, e: nat)
    requires e0 <= e <= limit && ok(b, e)
    requires forall e': nat :: e0 <= e' < e ==> !ok(b, e')
    ensures ShortestEnd(ok, limit, b, e0) == Some(e)
    decreases e - e0
  {
    if e0 < e {
      ShortestEndFinds(ok, limit, b, e0 + 1, e);
    }
  }

  /** Conversely, the leftmost start with its shortest end is what `FindFrom` returns. */
  lemma {:induction false} FindFromFinds(ok: (nat, nat) -> bool, minLen: nat, limit: nat, s: nat, b: nat, e: nat)
    requires WithinBounds(ok, minLen, limit)
    requires s <= b && ok(b, e)
    requires forall b': nat, e': nat :: s <= b' < b ==> !ok(b', e')
    requires forall e': nat :: e' < e ==> !ok(b, e')
    ensures FindFrom(ok, minLen, limit, s) == Some((b, e))
    decreases b - s
  {
    if s < b {
      ShortestEndIsShortest(ok, limit, s, s + minLen);
      FindFromFinds(ok, minLen, limit, s + 1, b, e);
    } else {
      ShortestEndFinds(ok, limit, b, b + minLen, e);
    }
  }

  /** The matcher of one causal pattern over one text. */
  function Matcher(p: Connective, text: string): (nat, nat) -> bool {
    (b: nat, e: nat) => MatchesAt(p, text, b, e)
  }

  /** A causal match has a non-empty cause group inside the text. */
  lemma MatcherWithinBounds(p: Connective, text: string)
    ensures WithinBounds(Matcher(p, text), |p.lead| + 1, |text|)
  {
  }

  /** The leftmost, shortest-cause match of a pattern in a text. */
  function FindPattern(p: Connective, text: string): (r: Option<(nat, nat)>)
    ensures r.Some? ==> MatchesAt(p, text, r.value.0, r.value.1)
  {
    FindFrom(Matcher(p, text), |p.lead| + 1, |text|, 0)
  }

  /** `FindPattern` is leftmost-shortest, and fails only when the pattern matches nowhere. */
  lemma FindPatternIsLeftmostShortest(p: Connective, text: string)
    ensures FindPattern(p, text).None? ==> forall b: nat, e: nat :: !MatchesAt(p, text, b, e)
    ensures FindPattern(p, text).Some? ==>
      var (b, e) := FindPattern(p, text).value;
      && (forall e': nat :: e' < e ==> !MatchesAt(p, text, b, e'))
      && (forall b': nat, e': nat :: b' < b ==> !MatchesAt(p, text, b', e'))
  {
    var ok := Matcher(p, text);
    MatcherWithinBounds(p, text);
    if FindPattern(p, text).Some? {
      FindFromIsLeftmost(ok, |p.lead| + 1, |text|, 0);
      var (b, e) := FindPattern(p, text).value;
      forall e': nat | e' < e ensures !MatchesAt(p, text, b, e') {
        assert !ok(b, e');
      }
      forall b': nat, e': nat | b' < b ensures !MatchesAt(p, text, b', e') {
        assert !ok(b', e');
      }
    } else {
      FindFromNone(ok, |p.lead| + 1, |text|, 0);
      forall b: nat, e: nat ensures !MatchesAt(p, text, b, e) {
        assert !ok(b, e);
      }
    }
  }

  /** A match with no match further left and no shorter cause group is the one `FindPattern` returns. */
  lemma FindPatternFinds(p: Connective, text: string, b: nat, e: nat)
    requires MatchesAt(p, text, b, e)
    requires forall b': nat, e': nat :: b' < b ==> !MatchesAt(p, text, b', e')
    requires forall e': nat :: e' < e ==> !MatchesAt(p, text, b, e')
    ensures FindPattern(p, text) == Some((b, e))
  {
    var ok := Matcher(p, text);
    MatcherWithinBounds(p, text);
    assert ok(b, e);
    forall b': nat, e': nat | b' < b ensures !ok(b', e') {
      assert !MatchesAt(p, text, b', e');
    }
    forall e': nat | e' < e ensures !ok(b, e') {
      assert !MatchesAt(p, text, b, e');
    }
    FindFromFinds(ok, |p.lead| + 1, |text|, 0, b, e);
  }

  /** The triple of a match: the cause group `text[a..e]` and the effect group from `k`, both trimmed. */
  function GroupsTriple(text: string, a: nat, e: nat, k: nat): TripleRecord
    requires a <= e <= |text| && k <= |text|
  {
    TripleRecord(Trim(text[a..e]), Trim(text[k..k + DotRun(text, k)]), CAUSES, PatternConfidence)
  }

  /** The triple of a match found (or not) by `FindPattern`. */
  function MatchTriple(p: Connective, text: string, r: Option<(nat, nat)>): Option<TripleRecord>
    requires r.Some? ==> MatchesAt(p, text, r.value.0, r.value.1)
  {
    if r.None? then None
    else Some(GroupsTriple(text, r.value.0 + |p.lead|, r.value.1, EffectStart(p, text, r.value.1).value))
  }

  /** The triple one pattern contributes: the groups of its first match, if any. */
  function PatternTriple(p: Connective, text: string): Option<TripleRecord> {
    MatchTriple(p, text, FindPattern(p, text))
  }

  /** The triple one pattern contributes, as a list of zero or one. */
  function PatternHits(p: Connective, text: string): seq<TripleRecord> {
    match PatternTriple(p, text)
    case Some(t) => [t]
    case None => []
  }

  /** The triples of the patterns that match, in pattern order. */
  function MatchedPatterns(ps: seq<Connective>, text: string): seq<TripleRecord> {
    if ps == [] then []
    else MatchedPatterns(ps[..|ps| - 1], text) + PatternHits(ps[|ps| - 1], text)
  }

  lemma MatchedPatternsStep(ps: seq<Connective>, i: nat, text: string)
    requires i < |ps|
    ensures MatchedPatterns(ps[..i + 1], text) == MatchedPatterns(ps[..i], text) + PatternHits(ps[i], text)
  {
    assert ps[..i + 1][..i] == ps[..i];
  }

  predicate HasCausalMarker(text: string) {
    exists m :: m in CausalMarkers && Contains(text, m)
  }

  /** `extractByPatterns` on a sentence's text. */
  function PatternTriples(text: string): seq<TripleRecord> {
    if HasCausalMarker(text) then MatchedPatterns(CausalPatterns, text) else []
  }

  /** A word of the dependency graph: its text and its position in the sentence. */
  datatype IndexedWord = IndexedWord(word: string, index: nat)

  /** A dependency edge: governor, dependent and the relation's short name. */
  datatype Edge = Edge(governor: IndexedWord, dependent: IndexedWord, relation: string)

  /**
   * A parsed sentence as the extractor sees it: its text and, when the
   * parser produced one, the dependency edges in sorted order.
   */
  datatype Sentence = Sentence(text: string, index: nat, dependencies: Option<seq<Edge>>)

  datatype Document = Document(text: string, sentences: seq<Sentence>)

  /** `isCausalRelation`: the four labels taken as causal. */
  predicate IsCausalRelation(relation: string) {
    relation == "conj:因为" || relation == "conj:所以" || relation == "advmod" || relation == "mark"
  }

  /** `extractPhrase`: only the anchor word itself, not a span. */
  function ExtractPhrase(root: IndexedWord): string {
    root.word
  }

  /** The triple one edge contributes, as a list of zero or one. */
  function EdgeHits(edge: Edge): seq<TripleRecord> {
    if IsCausalRelation(edge.relation)
    then [TripleRecord(ExtractPhrase(edge.dependent), ExtractPhrase(edge.governor), CAUSES, DependencyConfidence)]
    else []
  }

  /** The triples of the causal edges among `edges`, in edge order. */
  function EdgeTriples(edges: seq<Edge>): seq<TripleRecord> {
    if edges == [] then []
    else EdgeTriples(edges[..|edges| - 1]) + EdgeHits(edges[|edges| - 1])
  }

  lemma EdgeTriplesStep(edges: seq<Edge>, i: nat)
    requires i < |edges|
    ensures EdgeTriples(edges[..i + 1]) == EdgeTriples(edges[..i]) + EdgeHits(edges[i])
  {
    assert edges[..i + 1][..i] == edges[..i];
  }

  /** `extractByDependencyParse`: nothing without a graph. */
  function DependencyTriples(sentence: Sentence): seq<TripleRecord> {
    match sentence.dependencies
    case None => []
    case Some(edges) => EdgeTriples(edges)
  }

  /** What one sentence contributes: its pattern triples, then its dependency triples. */
  function SentenceTriples(sentence: Sentence): seq<TripleRecord> {
    PatternTriples(sentence.text) + DependencyTriples(sentence)
  }

  /** Everything extracted, before filtering, sentence by sentence. */
  function CandidateTriples(sentences: seq<Sentence>): seq<TripleRecord> {
    if sentences == [] then []
    else CandidateTriples(sentences[..|sentences| - 1]) + SentenceTriples(sentences[|sentences| - 1])
  }

  lemma CandidateTriplesStep(sentences: seq<Sentence>, i: nat)
    requires i < |sentences|
    ensures CandidateTriples(sentences[..i + 1]) == CandidateTriples(sentences[..i]) + SentenceTriples(sentences[i])
  {
    assert sentences[..i + 1][..i] == sentences[..i];
  }

  /** Whether one record passes `filterByConfidence`, as a list of zero or one. */
  function KeepHit(threshold: real, r: TripleRecord): seq<TripleRecord> {
    if r.confidence >= threshold then [r] else []
  }

  /** `filterByConfidence` on records: the ones at or above the threshold, in order. */
  function KeepConfident(threshold: real, rs: seq<TripleRecord>): seq<TripleRecord> {
    if rs == [] then []
    else KeepConfident(threshold, rs[..|rs| - 1]) + KeepHit(threshold, rs[|rs| - 1])
  }

  lemma KeepConfidentSnoc(threshold: real, rs: seq<TripleRecord>, r: TripleRecord)
    ensures KeepConfident(threshold, rs + [r]) == KeepConfident(threshold, rs) + KeepHit(threshold, r)
  {
    assert (rs + [r])[..|rs|] == rs;
  }

  /** `filterByConfidence` on the triple objects themselves: those at or above the threshold, in order. */
  function KeepObjects(threshold: real, ts: seq<CausalTriple>): seq<CausalTriple>
    reads ts
  {
    if ts == [] then []
    else
      var last := ts[|ts| - 1];
      KeepObjects(threshold, ts[..|ts| - 1]) + (if last.confidence >= threshold then [last] else [])
  }

  /** The records of the kept objects are the kept records. */
  lemma {:induction false} KeepObjectsRecords(threshold: real, ts: seq<CausalTriple>)
    ensures Records(KeepObjects(threshold, ts)) == KeepConfident(threshold, Records(ts))
  {
    if ts != [] {
      var init := ts[..|ts| - 1];
      var last := ts[|ts| - 1];
      KeepObjectsRecords(threshold, init);
      assert Records(ts) == Records(init) + [last.Record()];
      KeepConfidentSnoc(threshold, Records(init), last.Record());
      if last.confidence >= threshold {
        RecordsSnoc(KeepObjects(threshold, init), last);
      } else {
        assert KeepObjects(threshold, ts) == KeepObjects(threshold, init);
      }
    }
  }

  /** What `extract` returns, as records. */
  function Extracted(threshold: real, document: Option<Document>): seq<TripleRecord> {
    match document
    case None => []
    case Some(d) => KeepConfident(threshold, CandidateTriples(d.sentences))
  }

  // ---------------------------------------------------------------------
  // Properties of the pattern search

  /** A pattern yields a triple exactly when it matches somewhere; the triple is CAUSES at 0.7. */
  lemma PatternTripleIffMatch(p: Connective, text: string)
    ensures PatternTriple(p, text).Some? <==> exists s: nat, e: nat :: MatchesAt(p, text, s, e)
    ensures PatternTriple(p, text).Some? ==>
      PatternTriple(p, text).value.relationType == CAUSES && PatternTriple(p, text).value.confidence == PatternConfidence
  {
    FindPatternIsLeftmostShortest(p, text);
  }

  /** At most one triple per pattern, each CAUSES at 0.7. */
  lemma {:induction false} MatchedPatternsBound(ps: seq<Connective>, text: string)
    ensures |MatchedPatterns(ps, text)| <= |ps|
    ensures forall t :: t in MatchedPatterns(ps, text) ==> t.relationType == CAUSES && t.confidence == PatternConfidence
  {
    if ps != [] {
      MatchedPatternsBound(ps[..|ps| - 1], text);
      PatternTripleIffMatch(ps[|ps| - 1], text);
    }
  }

  /** A sentence gets at most seven pattern triples, each CAUSES at 0.7, and none without a marker word. */
  lemma PatternTriplesBound(text: string)
    ensures |PatternTriples(text)| <= 7
    ensures forall t :: t in PatternTriples(text) ==> t.relationType == CAUSES && t.confidence == PatternConfidence
    ensures !HasCausalMarker(text) ==> PatternTriples(text) == []
  {
    MatchedPatternsBound(CausalPatterns, text);
  }

  /** Every dependency triple is CAUSES at 0.6 and links a causal edge's dependent word to its governor word. */
  lemma {:induction false} EdgeTriplesShape(edges: seq<Edge>)
    ensures |EdgeTriples(edges)| <= |edges|
    ensures forall t :: t in EdgeTriples(edges) ==>
      t.relationType == CAUSES && t.confidence == DependencyConfidence &&
      exists e :: e in edges && IsCausalRelation(e.relation) && t.cause == e.dependent.word && t.effect == e.governor.word
  {
    if edges != [] {
      var init := edges[..|edges| - 1];
      EdgeTriplesShape(init);
      forall e | e in init ensures e in edges {
      }
    }
  }

  /** Every causal edge does produce its triple. */
  lemma {:induction false} EdgeTriplesComplete(edges: seq<Edge>)
    ensures forall e :: e in edges && IsCausalRelation(e.relation) ==>
      TripleRecord(e.dependent.word, e.governor.word, CAUSES, DependencyConfidence) in EdgeTriples(edges)
  {
    if edges != [] {
      var init := edges[..|edges| - 1];
      EdgeTriplesComplete(init);
      assert edges == init + [edges[|edges| - 1]];
    }
  }

  /** Every candidate is a CAUSES triple with confidence 0.7 (pattern) or 0.6 (dependency). */
  lemma {:induction false} CandidatesAreCauses(sentences: seq<Sentence>)
    ensures forall t :: t in CandidateTriples(sentences) ==>
      t.relationType == CAUSES && (t.confidence == PatternConfidence || t.confidence == DependencyConfidence)
  {
    if sentences != [] {
      var last := sentences[|sentences| - 1];
      CandidatesAreCauses(sentences[..|sentences| - 1]);
      PatternTriplesBound(last.text);
      if last.dependencies.Some? {
        EdgeTriplesShape(last.dependencies.value);
      }
    }
  }

  /** Over a stretch free of line terminators that reaches the end, `.+` takes everything. */
  lemma {:induction false} DotRunToEnd(text: string, i: nat)
    requires i <= |text|
    requires forall k :: i <= k < |text| ==> !IsLineTerminator(text[k])
    ensures DotRun(text, i) == |text| - i
    decreases |text| - i
  {
    if i < |text| {
      DotRunToEnd(text, i + 1);
    }
  }

  /**
   * A pattern `lead(.+?)first(.+)` on a line that starts with `lead` and
   * has its first `first` after the lead at `m`, splits the line there:
   * the cause group is everything between the lead and `m`, the effect
   * group everything after the connective.
   */
  lemma SplitAtFirstConnective(p: Connective, text: string, m: nat)
    requires !p.gap && p.second == []
    requires HasPrefixAt(text, 0, p.lead) && |p.lead| < m
    requires HasPrefixAt(text, m, p.first) && m + |p.first| < |text|
    requires forall k :: 0 <= k < |text| ==> !IsLineTerminator(text[k])
    requires forall k :: |p.lead| < k < m ==> !HasPrefixAt(text, k, p.first)
    ensures PatternTriple(p, text)
      == Some(TripleRecord(Trim(text[|p.lead|..m]), Trim(text[m + |p.first|..]), CAUSES, PatternConfidence))
  {
    var j := m + |p.first|;
    SplitMatches(p, text, m);
    FindPatternFinds(p, text, 0, m);
    PatternTripleFound(p, text, 0, m);
    assert EffectStart(p, text, m) == Some(j);
    assert text[j..j + DotRun(text, j)] == text[j..];
  }

  /** A pattern's triple is the groups of the match `FindPattern` returns. */
  lemma PatternTripleFound(p: Connective, text: string, s: nat, e: nat)
    requires FindPattern(p, text) == Some((s, e))
    ensures MatchesAt(p, text, s, e)
    ensures PatternTriple(p, text) == Some(GroupsTriple(text, s + |p.lead|, e, EffectStart(p, text, e).value))
  {
  }

  /** The split point of `SplitAtFirstConnective` is a match, no earlier end is, and the effect runs to the end. */
  lemma SplitMatches(p: Connective, text: string, m: nat)
    requires !p.gap && p.second == []
    requires HasPrefixAt(text, 0, p.lead) && |p.lead| < m
    requires HasPrefixAt(text, m, p.first) && m + |p.first| < |text|
    requires forall k :: 0 <= k < |text| ==> !IsLineTerminator(text[k])
    requires forall k :: |p.lead| < k < m ==> !HasPrefixAt(text, k, p.first)
    ensures MatchesAt(p, text, 0, m)
    ensures forall e: nat :: e < m ==> !MatchesAt(p, text, 0, e)
    ensures EffectStart(p, text, m) == Some(m + |p.first|)
    ensures DotRun(text, m + |p.first|) == |text| - (m + |p.first|)
  {
    var j := m + |p.first|;
    assert text[j..j] == [];
    DotRunToEnd(text, |p.lead|);
    DotRunToEnd(text, j);
    forall e: nat | e < m ensures !MatchesAt(p, text, 0, e) {
      if |p.lead| < e {
        assert !HasPrefixAt(text, e, p.first);
      }
    }
  }

  /** `(.+?)导致(.+)` splits "利率上升导致经济放缓" into cause "利率上升" and effect "经济放缓". */
  lemma RateRiseExample()
    ensures PatternTriple(CausalPatterns[2], "利率上升导致经济放缓")
      == Some(TripleRecord("利率上升", "经济放缓", CAUSES, PatternConfidence))
  {
    var p := CausalPatterns[2];
    var text := "利率上升导致经济放缓";
    RateRiseSplits();
    SplitAtFirstConnective(p, text, 4);
    TrimUnpadded("利率上升");
    TrimUnpadded("经济放缓");
  }

  /** The facts about "利率上升导致经济放缓" that `SplitAtFirstConnective` needs: "导致" first occurs at 4. */
  lemma RateRiseSplits()
    ensures CausalPatterns[2] == Connective("", "导致", false, "")
    ensures HasPrefixAt("利率上升导致经济放缓", 4, "导致")
    ensures forall k :: 0 < k < 4 ==> !HasPrefixAt("利率上升导致经济放缓", k, "导致")
    ensures forall k :: 0 <= k < |"利率上升导致经济放缓"| ==> !IsLineTerminator("利率上升导致经济放缓"[k])
    ensures "利率上升导致经济放缓"[0..4] == "利率上升" && "利率上升导致经济放缓"[6..] == "经济放缓"
  {
    var text := "利率上升导致经济放缓";
    forall k | 0 < k < 4 ensures !HasPrefixAt(text, k, "导致") {
      assert text[k] != '导';
    }
  }

  /**
   * A cause group of blanks only trims to the empty string: `由于(.+?)，(.+)`
   * on "由于 ，B" yields a triple whose cause is "".
   */
  lemma BlankCauseExample()
    ensures PatternTriple(CausalPatterns[1], "由于 ，B") == Some(TripleRecord("", "B", CAUSES, PatternConfidence))
  {
    var p := CausalPatterns[1];
    var text := "由于 ，B";
    assert p == Connective("由于", "，", false, "");
    assert text[0..2] == "由于" && text[3..4] == "，";
    assert text[2..3] == " " && text[4..] == "B";
    SplitAtFirstConnective(p, text, 3);
    assert PatternTriple(p, text) == Some(TripleRecord(Trim(text[2..3]), Trim(text[4..]), CAUSES, PatternConfidence));
    assert Trim(" ") == "" by {
      TrimSpec(" ");
      assert AllBlank(" ");
    }
    TrimUnpadded("B");
  }

  // ---------------------------------------------------------------------
  // Properties of the confidence filter

  /** A record survives iff it was extracted and its confidence is at least the threshold. */
  lemma {:induction false} KeepConfidentMembers(threshold: real, rs: seq<TripleRecord>)
    ensures forall t :: t in KeepConfident(threshold, rs) <==> t in rs && t.confidence >= threshold
    ensures |KeepConfident(threshold, rs)| <= |rs|
  {
    if rs != [] {
      KeepConfidentMembers(threshold, rs[..|rs| - 1]);
      assert rs == rs[..|rs| - 1] + [rs[|rs| - 1]];
    }
  }

  /** Filtering distributes over concatenation, so survivors keep their relative order. */
  lemma {:induction false} KeepConfidentAppend(threshold: real, a: seq<TripleRecord>, b: seq<TripleRecord>)
    ensures KeepConfident(threshold, a + b) == KeepConfident(threshold, a) + KeepConfident(threshold, b)
    decreases |b|
  {
    if b == [] {
      assert a + b == a;
    } else {
      var init := b[..|b| - 1];
      assert (a + b)[..|a + b| - 1] == a + init;
      KeepConfidentAppend(threshold, a, init);
    }
  }

  /** Raising the threshold only filters the earlier result further: it never adds a triple. */
  lemma {:induction false} KeepConfidentMonotone(low: real, high: real, rs: seq<TripleRecord>)
    requires low <= high
    ensures KeepConfident(high, rs) == KeepConfident(high, KeepConfident(low, rs))
    ensures |KeepConfident(high, rs)| <= |KeepConfident(low, rs)|
  {
    if rs != [] {
      var init := rs[..|rs| - 1];
      var last := rs[|rs| - 1];
      KeepConfidentMonotone(low, high, init);
      KeepConfidentAppend(high, KeepConfident(low, init), KeepHit(low, last));
      if last.confidence >= low {
        assert KeepConfident(high, [last]) == KeepHit(high, last) by {
          assert [last][..0] == [];
        }
      }
    }
  }

  /** Every record at or above the threshold passes unchanged. */
  lemma {:induction false} KeepAllAbove(threshold: real, rs: seq<TripleRecord>)
    requires forall t :: t in rs ==> t.confidence >= threshold
    ensures KeepConfident(threshold, rs) == rs
  {
    if rs != [] {
      var init := rs[..|rs| - 1];
      assert rs == init + [rs[|rs| - 1]];
      forall t | t in init ensures t.confidence >= threshold {
        assert t in rs;
      }
      KeepAllAbove(threshold, init);
    }
  }

  /** With the default threshold 0.5 nothing extracted is ever dropped. */
  lemma DefaultThresholdKeepsAll(sentences: seq<Sentence>)
    ensures KeepConfident(0.5, CandidateTriples(sentences)) == CandidateTriples(sentences)
  {
    CandidatesAreCauses(sentences);
    KeepAllAbove(0.5, CandidateTriples(sentences));
  }

  /** Above 0.7 every candidate is dropped. */
  lemma HighThresholdKeepsNone(threshold: real, sentences: seq<Sentence>)
    requires threshold > PatternConfidence
    ensures KeepConfident(threshold, CandidateTriples(sentences)) == []
  {
    CandidatesAreCauses(sentences);
    KeepConfidentMembers(threshold, CandidateTriples(sentences));
    if KeepConfident(threshold, CandidateTriples(sentences)) != [] {
      assert KeepConfident(threshold, CandidateTriples(sentences))[0] in KeepConfident(threshold, CandidateTriples(sentences));
    }
  }

  // ---------------------------------------------------------------------
  // The extractor

  class CausalRelationExtractor {
    const confidenceThreshold: real

    /** The threshold the Java constructor reads from configuration (default 0.5). */
    constructor (confidenceThreshold: real)
      ensures this.confidenceThreshold == confidenceThreshold
    {
      this.confidenceThreshold := confidenceThreshold;
    }

    /** The marker scan with early exit; the Java set's iteration order is left open. */
    static method ContainsCausalMarker(text: string) returns (containsMarker: bool)
      ensures containsMarker <==> HasCausalMarker(text)
    {
      containsMarker := false;
      var remaining := CausalMarkers;
      while remaining != {}
        invariant remaining <= CausalMarkers
        invariant forall m :: m in CausalMarkers && m !in remaining ==> !Contains(text, m)
        decreases remaining
      {
        var marker :| marker in remaining;
        if Contains(text, marker) {
          containsMarker := true;
          return;
        }
        remaining := remaining - {marker};
      }
    }

    /** `extractByPatterns`: one fresh triple per matching pattern, in pattern order, behind the marker gate. */
    static method ExtractByPatterns(sentence: Sentence) returns (triples: seq<CausalTriple>)
      ensures Records(triples) == PatternTriples(sentence.text)
      ensures Untagged(triples)
    {
      var containsMarker := ContainsCausalMarker(sentence.text);
      if !containsMarker {
        return [];
      }
      triples := ApplyPatterns(CausalPatterns, sentence.text);
    }

    /** One iteration of the pattern loop: a fresh triple when the pattern finds a match. */
    static method ApplyPattern(pattern: Connective, text: string) returns (hits: seq<CausalTriple>)
      ensures Records(hits) == PatternHits(pattern, text)
      ensures Untagged(hits)
    {
      var found := PatternTriple(pattern, text);
      if found.None? {
        return [];
      }
      var triple := new CausalTriple.WithConfidence(found.value.cause, found.value.effect, found.value.relationType, found.value.confidence);
      hits := [triple];
      assert [triple][..0] == [];
    }

    /** The pattern loop of `extractByPatterns`, over a given pattern list. */
    static method ApplyPatterns(patterns: seq<Connective>, text: string) returns (triples: seq<CausalTriple>)
      ensures Records(triples) == MatchedPatterns(patterns, text)
      ensures Untagged(triples)
    {
      triples := [];
      var i := 0;
      while i < |patterns|
        invariant 0 <= i <= |patterns|
        invariant Records(triples) == MatchedPatterns(patterns[..i], text)
        invariant Untagged(triples)
      {
        MatchedPatternsStep(patterns, i, text);
        var hits := ApplyPattern(patterns[i], text);
        RecordsAppend(triples, hits);
        triples := triples + hits;
        i := i + 1;
      }
      assert patterns[..i] == patterns;
    }

    /** One iteration of the edge loop: a fresh triple for a causal edge, from dependent to governor. */
    static method ApplyEdge(edge: Edge) returns (hits: seq<CausalTriple>)
      ensures Records(hits) == EdgeHits(edge)
      ensures Untagged(hits)
    {
      if !IsCausalRelation(edge.relation) {
        return [];
      }
      var cause := ExtractPhrase(edge.dependent);
      var effect := ExtractPhrase(edge.governor);
      var triple := new CausalTriple.WithConfidence(cause, effect, CAUSES, DependencyConfidence);
      hits := [triple];
      assert [triple][..0] == [];
    }

    /** `extractByDependencyParse`: one fresh triple per causal edge, in edge order. */
    static method ExtractByDependencyParse(sentence: Sentence) returns (triples: seq<CausalTriple>)
      ensures Records(triples) == DependencyTriples(sentence)
      ensures Untagged(triples)
    {
      triples := [];
      if sentence.dependencies.None? {
        return;
      }
      var edges := sentence.dependencies.value;
      var i := 0;
      while i < |edges|
        invariant 0 <= i <= |edges|
        invariant Records(triples) == EdgeTriples(edges[..i])
        invariant Untagged(triples)
      {
        EdgeTriplesStep(edges, i);
        var hits := ApplyEdge(edges[i]);
        RecordsAppend(triples, hits);
        triples := triples + hits;
        i := i + 1;
      }
      assert edges[..i] == edges;
    }

    /** `filterByConfidence`: the same objects, those at or above the threshold, in order. */
    method FilterByConfidence(triples: seq<CausalTriple>) returns (filtered: seq<CausalTriple>)
      ensures filtered == KeepObjects(confidenceThreshold, triples)
      ensures Records(filtered) == KeepConfident(confidenceThreshold, Records(triples))
      ensures forall t :: t in filtered ==> t in triples && t.confidence >= confidenceThreshold
    {
      filtered := [];
      var i := 0;
      while i < |triples|
        invariant 0 <= i <= |triples|
        invariant filtered == KeepObjects(confidenceThreshold, triples[..i])
        invariant forall t :: t in filtered ==> t in triples && t.confidence >= confidenceThreshold
      {
        var triple := triples[i];
        assert triples[..i + 1][..i] == triples[..i];
        if triple.confidence >= confidenceThreshold {
          filtered := filtered + [triple];
        }
        i := i + 1;
      }
      assert triples[..i] == triples;
      KeepObjectsRecords(confidenceThreshold, triples);
    }

    /** One sentence's share of `extract`: pattern triples, then dependency triples. */
    static method ExtractSentence(sentence: Sentence) returns (triples: seq<CausalTriple>)
      ensures Records(triples) == SentenceTriples(sentence)
      ensures Untagged(triples)
    {
      var patternTriples := ExtractByPatterns(sentence);
      var dependencyTriples := ExtractByDependencyParse(sentence);
      RecordsAppend(patternTriples, dependencyTriples);
      triples := patternTriples + dependencyTriples;
    }

    /** `extract`: nothing for an absent document; otherwise all candidates, filtered. */
    method Extract(document: Option<Document>) returns (causalTriples: seq<CausalTriple>)
      ensures document.None? ==> causalTriples == []
      ensures Records(causalTriples) == Extracted(confidenceThreshold, document)
      ensures Untagged(causalTriples)
    {
      if document.None? {
        return [];
      }
      var sentences := document.value.sentences;
      var all: seq<CausalTriple> := [];
      var i := 0;
      while i < |sentences|
        invariant 0 <= i <= |sentences|
        invariant Records(all) == CandidateTriples(sentences[..i])
        invariant Untagged(all)
      {
        CandidateTriplesStep(sentences, i);
        var sentenceTriples := ExtractSentence(sentences[i]);
        RecordsAppend(all, sentenceTriples);
        all := all + sentenceTriples;
        i := i + 1;
      }
      assert sentences[..i] == sentences;
      causalTriples := FilterByConfidence(all);
    }
  }
}
