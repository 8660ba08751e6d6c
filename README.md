# fincausal: a verified model of the causal-extraction core

fincausal extracts causal triples (cause, effect, relation type,
confidence) from Chinese financial text. This project models its core
stages in Dafny:

- **Text preprocessing.** Half-width ASCII is widened to full-width forms. Special characters, ASCII digit runs and punctuation are then optionally replaced by spaces. The steps run in a fixed order that configuration switches control.
- **Causal extraction.** A sentence is first gated on a set of 25 marker words. Seven connective patterns (`(.+?)导致(.+)` and similar) are each tried once, and each match yields a trimmed cause and effect with confidence 0.7. Causal dependency edges give triples with confidence 0.6. A confidence filter keeps the triples that reach the configured threshold.
- **Temporal tagging.** Each triple's `temporalRelation` is set in place. The cause is looked up in a marker table first, then the effect, and `AFTER` is the default.
- **Financial-domain adaptation.**
  - Dictionary terms are recognised in a text by a sliding window compared under Levenshtein distance.
  - Terms are classified into five fixed, pairwise-disjoint categories.
  - The tab-separated dictionary is parsed line by line.
  - `adapt` passes the triples through.

The model follows the code's form:
- `CausalTriple` is a class with setters that change exactly one field.
- The extractor, the temporal processor and the adapter are classes whose methods use loops.
- Each method is proved against a specification function of its inputs, and the lemmas about those functions state what the code promises.

The Levenshtein table is a two-dimensional array filled in nested loops, as in the source. Iteration over a `HashMap` or `HashSet` is modelled with `:|`, which picks an arbitrary key. The temporal marker table, the causal marker set, the category table and the dictionary are iterated this way. Each such loop is proved for every iteration order.

Two observations from the code shape the model:
- The comment at `TextPreprocessor.java:62` describes a full-width to half-width conversion. The code at lines 108-120 converts half-width to full-width, and the model follows the code.
- A cause or effect group consisting only of blanks trims to the empty string, so an extracted cause is not guaranteed to be non-empty. `BlankCauseExample` exhibits this: `由于(.+?)，(.+)` on `由于 ，B` gives cause `""` and effect `B`.

## Model

| member | source | states |
|---|---|---|
| Strings.IndexOf | src/main/java/com/fincausal/processor/TextPreprocessor.java:112 | `indexOf` is -1 exactly when the character is absent; otherwise it is the position of its first occurrence |
| Strings.ContainsWitness | src/main/java/com/fincausal/processor/CausalRelationExtractor.java:106 | when `contains` holds there is an occurrence, and a leftmost one |
| Strings.TrimSpec | src/main/java/com/fincausal/processor/CausalRelationExtractor.java:121-122 | `trim` keeps an infix with only characters up to U+0020 removed around it; the result neither starts nor ends with such a character, and it is empty exactly when the whole string is blank |
| Strings.TrimUnpadded | src/main/java/com/fincausal/processor/FinancialDomainAdapter.java:142 | a string that neither starts nor ends with a blank is its own trim |
| Strings.TrimIdempotent | src/main/java/com/fincausal/processor/FinancialDomainAdapter.java:142-149 | trimming a trimmed string changes nothing |
| Triples.CausalTriple.constructor | src/main/java/com/fincausal/model/CausalTriple.java:35-40 | the three-argument constructor stores cause, effect and relation type, sets confidence 1.0 and leaves temporal relation and domain category null |
| Triples.CausalTriple.WithConfidence | src/main/java/com/fincausal/model/CausalTriple.java:45-50 | the four-argument constructor stores exactly the four values given and leaves the other two fields null |
| Triples.CausalTriple.SetCause | src/main/java/com/fincausal/model/CausalTriple.java:57-59 | sets the cause and may change no other field |
| Triples.CausalTriple.SetEffect | src/main/java/com/fincausal/model/CausalTriple.java:65-67 | sets the effect and may change no other field |
| Triples.CausalTriple.SetRelationType | src/main/java/com/fincausal/model/CausalTriple.java:73-75 | sets the relation type and may change no other field |
| Triples.CausalTriple.SetConfidence | src/main/java/com/fincausal/model/CausalTriple.java:81-83 | sets the confidence and may change no other field |
| Triples.CausalTriple.SetTemporalRelation | src/main/java/com/fincausal/model/CausalTriple.java:89-91 | sets the temporal relation and may change no other field |
| Triples.CausalTriple.SetDomainCategory | src/main/java/com/fincausal/model/CausalTriple.java:97-99 | sets the domain category and may change no other field |
| Preprocessing.FullWidth | src/main/java/com/fincausal/processor/TextPreprocessor.java:108-120 | the conversion keeps the length and maps each character on its own |
| Preprocessing.WidenAt | src/main/java/com/fincausal/processor/TextPreprocessor.java:34-35 | the k-th half-width character becomes the k-th full-width character of the two aligned tables |
| Preprocessing.WidenShifts | src/main/java/com/fincausal/processor/TextPreprocessor.java:34-35 | U+0021 to U+007E shift by 0xFEE0 to U+FF01 to U+FF5E; every other character is unchanged |
| Preprocessing.WidenLeavesNoHalfWidth | src/main/java/com/fincausal/processor/TextPreprocessor.java:112-117 | no converted character is in the half-width table |
| Preprocessing.FullWidthLeavesNoHalfWidth | src/main/java/com/fincausal/processor/TextPreprocessor.java:108-120 | after conversion no half-width character and no ASCII digit remains |
| Preprocessing.FullWidthIdempotent | src/main/java/com/fincausal/processor/TextPreprocessor.java:108-120 | converting twice is converting once |
| Preprocessing.ConvertToFullWidth | src/main/java/com/fincausal/processor/TextPreprocessor.java:108-120 | the loop replaces each character found in the half-width table by the full-width one at the same index and copies every other character |
| Preprocessing.RemoveSpecialCharacters | src/main/java/com/fincausal/processor/TextPreprocessor.java:87-89 | each character that is not a letter, number, punctuation or regex whitespace becomes a space; the length is kept |
| Preprocessing.RemovePunctuation | src/main/java/com/fincausal/processor/TextPreprocessor.java:101-103 | each punctuation character becomes a space; the length is kept |
| Preprocessing.RemoveNumbersClears | src/main/java/com/fincausal/processor/TextPreprocessor.java:94-96 | replacing every maximal ASCII digit run by one space leaves no ASCII digit and never lengthens the text |
| Preprocessing.RemoveNumbersWithoutDigits | src/main/java/com/fincausal/processor/TextPreprocessor.java:94-96 | a text without ASCII digits is unchanged |
| Preprocessing.RemoveNumbersExample | src/main/java/com/fincausal/processor/TextPreprocessor.java:94-96 | `a12b3` becomes `a b `: each run, not each digit, becomes one space |
| Preprocessing.AllStepsOffIsIdentity | src/main/java/com/fincausal/processor/TextPreprocessor.java:54-82 | with every step switched off, preprocessing returns its input |
| Preprocessing.EmptyInput | src/main/java/com/fincausal/processor/TextPreprocessor.java:55-58 | null and empty input both give the empty string, under any options |
| Preprocessing.NormalizedOutputIsFullWidth | src/main/java/com/fincausal/processor/TextPreprocessor.java:62-78 | when normalisation is on, no half-width character survives the later steps |
| Preprocessing.NormalizedIgnoresRemoveNumbers | src/main/java/com/fincausal/processor/TextPreprocessor.java:62-73 | when normalisation is on, the digit-removal switch has no effect, because no ASCII digit is left |
| Preprocessing.LengthKeptWithoutNumberRemoval | src/main/java/com/fincausal/processor/TextPreprocessor.java:62-78 | without digit removal, preprocessing keeps the length |
| Preprocessing.TextPreprocessor.constructor | src/main/java/com/fincausal/processor/TextPreprocessor.java:40-46 | the four switches are stored as given |
| Preprocessing.TextPreprocessor.Preprocess | src/main/java/com/fincausal/processor/TextPreprocessor.java:54-82 | null or empty text gives ""; otherwise the steps run in the fixed order under the stored switches |
| CausalExtraction.DotRunIsMaximal | src/main/java/com/fincausal/processor/CausalRelationExtractor.java:36-51 | a greedy `.` run stops exactly at the first line terminator or the end |
| CausalExtraction.ShortestEndIsShortest | src/main/java/com/fincausal/processor/CausalRelationExtractor.java:36-51 | the lazy group ends at the first end position that completes a match, and no end exists when none is found |
| CausalExtraction.FindFromIsLeftmost | src/main/java/com/fincausal/processor/CausalRelationExtractor.java:120 | the search returns the leftmost start that has a match, with its shortest end |
| CausalExtraction.FindFromNone | src/main/java/com/fincausal/processor/CausalRelationExtractor.java:120 | when the search finds nothing, no start at or after the origin has a match |
| CausalExtraction.FindPatternIsLeftmostShortest | src/main/java/com/fincausal/processor/CausalRelationExtractor.java:119-120 | `find()` fails only when the pattern matches nowhere; otherwise it reports the leftmost start and the shortest cause group there |
| CausalExtraction.FindPatternFinds | src/main/java/com/fincausal/processor/CausalRelationExtractor.java:119-120 | conversely, a leftmost match with the shortest cause group is exactly what `find()` reports |
| CausalExtraction.PatternTripleIffMatch | src/main/java/com/fincausal/processor/CausalRelationExtractor.java:118-130 | a pattern yields a triple exactly when it matches somewhere, and that triple is CAUSES with confidence 0.7 |
| CausalExtraction.PatternTripleFound | src/main/java/com/fincausal/processor/CausalRelationExtractor.java:119-123 | the triple holds the trimmed groups of the match `find()` reports |
| CausalExtraction.SplitAtFirstConnective | src/main/java/com/fincausal/processor/CausalRelationExtractor.java:118-123 | on a terminator-free text that starts with the pattern's lead, the cause is the trimmed text between the lead and the first connective that starts at least one character after it, and the effect is the trimmed rest |
| CausalExtraction.RateRiseExample | src/main/java/com/fincausal/processor/CausalRelationExtractor.java:42 | `利率上升导致经济放缓` under `(.+?)导致(.+)` gives cause `利率上升` and effect `经济放缓` |
| CausalExtraction.BlankCauseExample | src/main/java/com/fincausal/processor/CausalRelationExtractor.java:121-123 | a cause group of blanks trims to an empty cause: `由于 ，B` gives cause "" and effect `B` |
| CausalExtraction.MatchedPatternsBound | src/main/java/com/fincausal/processor/CausalRelationExtractor.java:118-134 | each pattern contributes at most one triple, always CAUSES with confidence 0.7 |
| CausalExtraction.PatternTriplesBound | src/main/java/com/fincausal/processor/CausalRelationExtractor.java:99-137 | a sentence yields at most seven pattern triples, and none without a causal marker |
| CausalExtraction.EdgeTriplesShape | src/main/java/com/fincausal/processor/CausalRelationExtractor.java:152-176 | every dependency triple comes from a causal edge, with the dependent's word as cause, the governor's word as effect, CAUSES and confidence 0.6 |
| CausalExtraction.EdgeTriplesComplete | src/main/java/com/fincausal/processor/CausalRelationExtractor.java:152-176 | every edge with one of the four causal labels yields its triple |
| CausalExtraction.CandidatesAreCauses | src/main/java/com/fincausal/processor/CausalRelationExtractor.java:79-87 | every candidate triple of a document is CAUSES with confidence 0.7 or 0.6 |
| CausalExtraction.KeepConfidentMembers | src/main/java/com/fincausal/processor/CausalRelationExtractor.java:205-215 | the filter keeps exactly the triples whose confidence reaches the threshold |
| CausalExtraction.KeepObjectsRecords | src/main/java/com/fincausal/processor/CausalRelationExtractor.java:205-215 | filtering the triple objects and then reading their values gives the same as filtering the values |
| CausalExtraction.KeepConfidentAppend | src/main/java/com/fincausal/processor/CausalRelationExtractor.java:205-215 | filtering distributes over concatenation, so the order is preserved |
| CausalExtraction.KeepConfidentMonotone | src/main/java/com/fincausal/processor/CausalRelationExtractor.java:205-215 | filtering at a higher threshold equals filtering the lower threshold's result again, so it never keeps more |
| CausalExtraction.KeepAllAbove | src/main/java/com/fincausal/processor/CausalRelationExtractor.java:205-215 | when every triple reaches the threshold, the filter changes nothing |
| CausalExtraction.DefaultThresholdKeepsAll | src/main/java/com/fincausal/processor/CausalRelationExtractor.java:59-62 | under the default threshold 0.5 every candidate survives |
| CausalExtraction.HighThresholdKeepsNone | src/main/java/com/fincausal/processor/CausalRelationExtractor.java:205-215 | a threshold above 0.7 removes every candidate |
| CausalExtraction.CausalRelationExtractor.constructor | src/main/java/com/fincausal/processor/CausalRelationExtractor.java:59-62 | the threshold is stored as given |
| CausalExtraction.CausalRelationExtractor.ContainsCausalMarker | src/main/java/com/fincausal/processor/CausalRelationExtractor.java:103-110 | the scan over the marker set finds a marker exactly when the text contains one |
| CausalExtraction.CausalRelationExtractor.ExtractByPatterns | src/main/java/com/fincausal/processor/CausalRelationExtractor.java:99-137 | the triples built are the pattern triples of the sentence, in pattern order; every triple it returns has no temporal relation and no domain category, as the four-argument constructor leaves them |
| CausalExtraction.CausalRelationExtractor.ApplyPattern | src/main/java/com/fincausal/processor/CausalRelationExtractor.java:119-133 | one pattern gives its triple when `find()` succeeds and nothing otherwise; every triple it returns has no temporal relation and no domain category, as the four-argument constructor leaves them |
| CausalExtraction.CausalRelationExtractor.ApplyPatterns | src/main/java/com/fincausal/processor/CausalRelationExtractor.java:118-134 | the loop over the patterns collects each pattern's triple in order; every triple it returns has no temporal relation and no domain category, as the four-argument constructor leaves them |
| CausalExtraction.CausalRelationExtractor.ApplyEdge | src/main/java/com/fincausal/processor/CausalRelationExtractor.java:158-176 | a causal edge gives its triple; any other edge gives nothing; every triple it returns has no temporal relation and no domain category, as the four-argument constructor leaves them |
| CausalExtraction.CausalRelationExtractor.ExtractByDependencyParse | src/main/java/com/fincausal/processor/CausalRelationExtractor.java:142-180 | no parse gives no triples; otherwise one triple per causal edge, in edge order; every triple it returns has no temporal relation and no domain category, as the four-argument constructor leaves them |
| CausalExtraction.CausalRelationExtractor.FilterByConfidence | src/main/java/com/fincausal/processor/CausalRelationExtractor.java:205-215 | returns exactly the subsequence of the input objects whose confidence reaches the threshold, in order; its records are the filtered records |
| CausalExtraction.CausalRelationExtractor.ExtractSentence | src/main/java/com/fincausal/processor/CausalRelationExtractor.java:79-87 | a sentence contributes its pattern triples followed by its dependency triples; every triple it returns has no temporal relation and no domain category, as the four-argument constructor leaves them |
| CausalExtraction.CausalRelationExtractor.Extract | src/main/java/com/fincausal/processor/CausalRelationExtractor.java:70-94 | a null document gives no triples; otherwise the confident candidates of all sentences, in order; no returned triple has a temporal relation or a domain category yet, so the domain category of the output is always null |
| Temporal.PutAllKeysValues | src/main/java/com/fincausal/processor/TemporalProcessor.java:41-85 | after a series of `put` calls, every key put is present and every entry was put |
| Temporal.PutAllLastWins | src/main/java/com/fincausal/processor/TemporalProcessor.java:41-85 | the last `put` for a key decides its value |
| Temporal.MarkerValues | src/main/java/com/fincausal/processor/TemporalProcessor.java:43-84 | every marker maps to one of the seven relation names, and UNKNOWN is not among them |
| Temporal.SimultaneousOverwrites | src/main/java/com/fincausal/processor/TemporalProcessor.java:61-78 | `同时` is put twice and ends up as SIMULTANEOUS, not DURING |
| Temporal.DeterminedKeys | src/main/java/com/fincausal/processor/TemporalProcessor.java:159-169 | the markers `determineTemporalRelation` looks for (之前, 之后, 随着) map to the relations it returns for them |
| Temporal.PatternMarker | src/main/java/com/fincausal/processor/TemporalProcessor.java:92-108 | every temporal pattern has a literal that contains a key of the marker table |
| Temporal.PatternsNeedMarkers | src/main/java/com/fincausal/processor/TemporalProcessor.java:209-216 | a text with no marker matches no temporal pattern, so the pattern branch never decides |
| Temporal.DetermineAgreesWithMarkers | src/main/java/com/fincausal/processor/TemporalProcessor.java:159-169 | UNKNOWN exactly when none of 之前, 之后, 随着 occurs; any other answer agrees with the marker table |
| Temporal.OutcomeFound | src/main/java/com/fincausal/processor/TemporalProcessor.java:196-219 | a relation is found exactly when the text is non-empty and contains a marker, and it is a relation name, never UNKNOWN |
| Temporal.MatchTemporalPatterns | src/main/java/com/fincausal/processor/TemporalProcessor.java:209-216 | the pattern loop answers exactly when some pattern may match, and then answers `determineTemporalRelation` of the whole text |
| Temporal.ExtractTemporalRelation | src/main/java/com/fincausal/processor/TemporalProcessor.java:196-219 | empty text gives null; otherwise the value of some marker the text contains, whatever the map order, else null |
| Temporal.TaggedIsSet | src/main/java/com/fincausal/processor/TemporalProcessor.java:127-147 | after tagging the relation is set, and it is one of the seven relation names whenever an earlier tag was |
| Temporal.TaggedDefault | src/main/java/com/fincausal/processor/TemporalProcessor.java:144-147 | an untagged triple whose cause and effect contain no marker is tagged AFTER |
| Temporal.TaggedCauseFirst | src/main/java/com/fincausal/processor/TemporalProcessor.java:129-134 | a cause containing a marker decides the tag, whatever the effect says |
| Temporal.TaggedKeepsEarlier | src/main/java/com/fincausal/processor/TemporalProcessor.java:129-142 | an already-tagged triple whose cause has no marker keeps its tag |
| Temporal.TaggedTwice | src/main/java/com/fincausal/processor/TemporalProcessor.java:127-147 | tagging a triple a second time gives a result tagging once could give, so a triple listed twice is still correctly tagged |
| Temporal.TagTriple | src/main/java/com/fincausal/processor/TemporalProcessor.java:127-147 | the loop body changes only the triple's temporal relation, to the tag of its cause, its old tag and its effect |
| Temporal.TemporalProcessor.Process | src/main/java/com/fincausal/processor/TemporalProcessor.java:117-154 | null or empty gives []; otherwise the same triples in order, with cause, effect, relation type, confidence and domain category unchanged and every triple tagged |
| EditDistance.DistanceBounds | src/main/java/com/fincausal/processor/FinancialDomainAdapter.java:240-260 | the distance is at least the length difference and at most the longer length |
| EditDistance.LevSymmetric | src/main/java/com/fincausal/processor/FinancialDomainAdapter.java:240-260 | for every pair of prefixes, swapping the strings does not change the distance |
| EditDistance.DistanceSymmetric | src/main/java/com/fincausal/processor/FinancialDomainAdapter.java:240-260 | the distance from s1 to s2 equals the distance from s2 to s1 |
| EditDistance.LevTriangle | src/main/java/com/fincausal/processor/FinancialDomainAdapter.java:240-260 | for all prefixes of a, b and c, the distance from a to c is at most the distance from a to b plus the distance from b to c |
| EditDistance.DistanceTriangle | src/main/java/com/fincausal/processor/FinancialDomainAdapter.java:240-260 | the edit distance satisfies the triangle inequality: Distance(a, c) <= Distance(a, b) + Distance(b, c) |
| EditDistance.DistanceToSelf | src/main/java/com/fincausal/processor/FinancialDomainAdapter.java:240-260 | a string is at distance 0 from itself |
| EditDistance.DistanceFromExtension | src/main/java/com/fincausal/processor/FinancialDomainAdapter.java:240-260 | a string that starts with `t` is at most its surplus length away from `t` |
| EditDistance.FillRow | src/main/java/com/fincausal/processor/FinancialDomainAdapter.java:251-256 | the inner loop fills row i with the prefix distances from row i-1 and touches no other row |
| EditDistance.LevenshteinDistance | src/main/java/com/fincausal/processor/FinancialDomainAdapter.java:240-260 | the table fill, started from dp[i][0] = i and dp[0][j] = j, returns the recursive edit distance |
| FinancialDomain.Threshold | src/main/java/com/fincausal/processor/FinancialDomainAdapter.java:219 | the threshold is at least 1 and at least a quarter of the term's length, and it is one of those two values |
| FinancialDomain.WindowEnd | src/main/java/com/fincausal/processor/FinancialDomainAdapter.java:221-224 | a window lies within the text, clipped at its end |
| FinancialDomain.FuzzyMatch | src/main/java/com/fincausal/processor/FinancialDomainAdapter.java:217-231 | true exactly when some window starting at 0 to len(text) - len(term) is within the threshold; always false when the text is shorter than the term |
| FinancialDomain.OccurrenceMatches | src/main/java/com/fincausal/processor/FinancialDomainAdapter.java:219-226 | a term occurring verbatim always fuzzy-matches: its window starts with the term and is at most the threshold longer |
| FinancialDomain.ContainedTermMatches | src/main/java/com/fincausal/processor/FinancialDomainAdapter.java:217-231 | every term the text `contains` fuzzy-matches |
| FinancialDomain.EmptyTermMatches | src/main/java/com/fincausal/processor/FinancialDomainAdapter.java:217-231 | the empty term fuzzy-matches every text |
| FinancialDomain.MarketMetricsDisjoint | src/main/java/com/fincausal/processor/FinancialDomainAdapter.java:75-83 | no term is both market performance and financial metric |
| FinancialDomain.MarketOperationDisjoint | src/main/java/com/fincausal/processor/FinancialDomainAdapter.java:75-89 | no term is both market performance and company operation |
| FinancialDomain.MarketMacroDisjoint | src/main/java/com/fincausal/processor/FinancialDomainAdapter.java:75-95 | no term is both market performance and macro economy |
| FinancialDomain.MarketPolicyDisjoint | src/main/java/com/fincausal/processor/FinancialDomainAdapter.java:75-101 | no term is both market performance and policy regulation |
| FinancialDomain.MetricsOperationDisjoint | src/main/java/com/fincausal/processor/FinancialDomainAdapter.java:80-89 | no term is both financial metric and company operation |
| FinancialDomain.MetricsMacroDisjoint | src/main/java/com/fincausal/processor/FinancialDomainAdapter.java:80-95 | no term is both financial metric and macro economy |
| FinancialDomain.MetricsPolicyDisjoint | src/main/java/com/fincausal/processor/FinancialDomainAdapter.java:80-101 | no term is both financial metric and policy regulation |
| FinancialDomain.OperationMacroDisjoint | src/main/java/com/fincausal/processor/FinancialDomainAdapter.java:86-95 | no term is both company operation and macro economy |
| FinancialDomain.OperationPolicyDisjoint | src/main/java/com/fincausal/processor/FinancialDomainAdapter.java:86-101 | no term is both company operation and policy regulation |
| FinancialDomain.MacroPolicyDisjoint | src/main/java/com/fincausal/processor/FinancialDomainAdapter.java:92-101 | no term is both macro economy and policy regulation |
| FinancialDomain.CategoriesDisjoint | src/main/java/com/fincausal/processor/FinancialDomainAdapter.java:73-102 | the five lists of the category table are pairwise disjoint |
| FinancialDomain.ListedMembers | src/main/java/com/fincausal/processor/FinancialDomainAdapter.java:195-205 | a category's list in the result holds exactly the input terms that the category lists |
| FinancialDomain.ClassifiedOnce | src/main/java/com/fincausal/processor/FinancialDomainAdapter.java:186-208 | over disjoint categories a term lands in the one category that lists it and in no other; an unknown term lands nowhere |
| FinancialDomain.ClassifyExample | src/main/java/com/fincausal/processor/FinancialDomainAdapter.java:186-208 | classifying `股价` and `苹果` puts `股价` alone under MARKET_PERFORMANCE |
| FinancialDomain.FindCategory | src/main/java/com/fincausal/processor/FinancialDomainAdapter.java:196-204 | the scan over the entries stops at a category that lists the term, or finds that none does |
| FinancialDomain.EmptyCategories | src/main/java/com/fincausal/processor/FinancialDomainAdapter.java:189-192 | the result starts with an empty list for each category and no other key |
| FinancialDomain.ClassifyTerms | src/main/java/com/fincausal/processor/FinancialDomainAdapter.java:186-208 | over any disjoint table and any map order, each category gets the input terms it lists, in input order |
| FinancialDomain.ParseLineSpec | src/main/java/com/fincausal/processor/FinancialDomainAdapter.java:142-149 | a line is skipped exactly when it trims to empty, starts with `#` or has no tab; an accepted line gives a non-empty, tab-free, trimmed term and a non-empty, trimmed explanation |
| FinancialDomain.LoadLinesNonEmpty | src/main/java/com/fincausal/processor/FinancialDomainAdapter.java:139-155 | loading lines never adds an empty term or an empty explanation |
| FinancialDomain.LoadLinesLastWins | src/main/java/com/fincausal/processor/FinancialDomainAdapter.java:148-149 | the last accepted line for a term decides its explanation, so a later duplicate overwrites an earlier one |
| FinancialDomain.FinancialDomainAdapter.constructor | src/main/java/com/fincausal/processor/FinancialDomainAdapter.java:62-68 | the dictionary is the lines loaded into an empty map, or empty when no dictionary is found; no entry is empty |
| FinancialDomain.FinancialDomainAdapter.LoadDictionaryFromLines | src/main/java/com/fincausal/processor/FinancialDomainAdapter.java:139-155 | the dictionary becomes the old one with every accepted line put in order; entries stay non-empty |
| FinancialDomain.FinancialDomainAdapter.ProcessFinancialTerms | src/main/java/com/fincausal/processor/FinancialDomainAdapter.java:163-178 | with the dictionary invariant (no empty term or explanation) that the constructor establishes, the result is a sub-map of the dictionary; a term is in it, with its own explanation, exactly when it fuzzy-matches; every verbatim occurrence is in it; it holds no empty entry |
| FinancialDomain.FinancialDomainAdapter.ClassifyFinancialTerms | src/main/java/com/fincausal/processor/FinancialDomainAdapter.java:186-208 | the result is the classification of the terms over the five categories, independent of map order |
| FinancialDomain.FinancialDomainAdapter.Adapt | src/main/java/com/fincausal/processor/FinancialDomainAdapter.java:35-52 | null or empty gives []; otherwise the same triples in the same order, unmodified, because the method may change nothing |

## Left out

- The no-argument constructor of `CausalTriple` (`CausalTriple.java:29-30`) is left out. It exists for JSON deserialisation and leaves the five string fields null and the `double` confidence 0.0.
- The getters are left out: the model reads the fields directly.
- Configuration loading is left out. The preprocessing switches and the confidence threshold are constructor parameters.
- Logging is left out.
- Stanford CoreNLP parsing, `NLPParser`, `Sentence` and `Document` are not part of this model. A sentence is its text plus an optional list of dependency edges. An edge is a governor word, a dependent word and a relation short name.
- `extractPhrase` returns the word itself. The graph argument is dropped.
- Opening and reading the dictionary file (`FinancialDomainAdapter.java:107-131`) is left out. The constructor receives the dictionary's lines, or `None` when no file is found.
- `extractTimeExpressions` is never called and is left out.
- The unused `document` argument of `process` and `adapt` is left out.
- `\p{L}`, `\p{N}` and `\p{P}` are Unicode character classes. They are parameters of the model (`CharClasses`), not tables.
- Strings are sequences of UTF-16 code units in Java and of characters here. The two agree only for text inside the Basic Multilingual Plane. The marker, pattern and category tables lie inside it, but input texts and dictionary terms may not. Java counts a character outside the Basic Multilingual Plane as two code units in `length()`, `charAt` and the Levenshtein table. For such text, `Threshold`, the fuzzy-match windows and `Distance` in the model differ from what Java computes.
- Confidences are `real`. Only the comparison `>=` against the threshold is used.
- Integer overflow in the Levenshtein table and the window arithmetic is not modelled: lengths are unbounded.
- The causal regexes are modelled as a leftmost, shortest-first search for their connectives, not by a regex engine.
- Each temporal regex is modelled by the literals it needs in order to match. That is a necessary condition only, and it is enough because the pattern branch is never reached.
- The `TEMPORAL_PATTERNS` list grows on every constructor call. The model keeps one copy, which tries the same patterns in the same order.
- `HashMap` and `HashSet` iteration order is left unspecified.
- Temporal.ExtractTemporalRelation: the result is stated as the value of some marker the text contains. The actual map order is not modelled, so for a text with several markers the model does not say which one wins.
- CausalExtraction.CausalRelationExtractor.ExtractByPatterns: the contract does not state that the triples it creates are fresh objects. No later stage depends on object identity. What they do depend on is stated instead: no returned triple carries a temporal relation or a domain category.
- CausalExtraction.CausalRelationExtractor.ExtractByDependencyParse: the contract does not state that the triples it creates are fresh objects. No later stage depends on object identity. What they do depend on is stated instead: no returned triple carries a temporal relation or a domain category.
- CausalExtraction.CausalRelationExtractor.ExtractSentence: the contract does not state that the triples it returns are fresh objects. No later stage depends on object identity. What they do depend on is stated instead: no returned triple carries a temporal relation or a domain category.
- CausalExtraction.CausalRelationExtractor.Extract: the contract does not state that the triples it returns are fresh objects. No later stage depends on object identity. What they do depend on is stated instead: no returned triple carries a temporal relation or a domain category.
- Temporal.TemporalProcessor.Process: a list holding a null element makes the Java method throw a NullPointerException; the sequence of triple objects cannot hold null, so that path is not modelled.
- FinancialDomain.FinancialDomainAdapter.ClassifyFinancialTerms: a null `terms` list makes the Java method throw a NullPointerException; the parameter is a sequence, so that path is not modelled.
- FinancialDomain.FinancialDomainAdapter.ClassifyFinancialTerms: a null element of `terms` is silently skipped in Java, because no category list contains null; a sequence of strings cannot hold null, so that case is not modelled.
- Triples.CausalTriple.SetCause: takes a non-null string. The Java setter also accepts `null`, which no stage of the pipeline passes, so a triple whose cause is null is not covered.
- Triples.CausalTriple.SetEffect: takes a non-null string. The Java setter also accepts `null`, which no stage of the pipeline passes, so a triple whose effect is null is not covered.
- Triples.CausalTriple.SetRelationType: takes a non-null string. The Java setter also accepts `null`, which no stage of the pipeline passes, so a triple whose relation type is null is not covered.
