/**
 * Temporal tagging: every causal triple gets a temporal relation, read
 * from a marker word in its cause, else in its effect, else the one it
 * already had, else "AFTER".
 */
module Temporal {
  import opened Optional
  import opened Strings
  import opened Triples

  // ---------------------------------------------------------------------
  // The marker table

  /** The `put` calls that fill the marker table, in program order; later puts overwrite earlier ones. */
  function MarkerPuts(): seq<(string, string)> {
    [ ("之前", "BEFORE"), ("以前", "BEFORE"), ("先于", "BEFORE"), ("早于", "BEFORE"), ("先", "BEFORE"), ("预先", "BEFORE"),
      ("之后", "AFTER"), ("以后", "AFTER"), ("后于", "AFTER"), ("晚于", "AFTER"), ("随后", "AFTER"), ("后来", "AFTER"),
      ("期间", "DURING"), ("过程中", "DURING"), ("同时", "DURING"), ("当时", "DURING"), ("正在", "DURING"),
      ("开始", "STARTS"), ("起初", "STARTS"), ("最初", "STARTS"),
      ("结束", "ENDS"), ("最终", "ENDS"), ("最后", "ENDS"), ("后于", "AFTER"), ("晚于", "AFTER"),
      ("同时", "SIMULTANEOUS"), ("期间", "DURING"), ("过程中", "DURING"),
      ("随着", "WITH"), ("伴随", "WITH") ]
  }

  /** The map that a sequence of `put` calls leaves behind, starting from `m`. */
  function PutAll(m: map<string, string>, puts: seq<(string, string)>): map<string, string> {
    if puts == [] then m
    else PutAll(m, puts[..|puts| - 1])[puts[|puts| - 1].0 := puts[|puts| - 1].1]
  }

  /** The marker table once the constructor has run. */
  function TemporalMarkers(): map<string, string> {
    PutAll(map[], MarkerPuts())
  }

  /** The relation names the marker table can yield. */
  const RelationNames: set<string> := {"BEFORE", "AFTER", "DURING", "STARTS", "ENDS", "SIMULTANEOUS", "WITH"}

  /** Every key put is in the table, and every value in the table was put for its key. */
  lemma {:induction false} PutAllKeysValues(puts: seq<(string, string)>)
    ensures forall i :: 0 <= i < |puts| ==> puts[i].0 in PutAll(map[], puts)
    ensures forall k :: k in PutAll(map[], puts) ==> exists i :: 0 <= i < |puts| && puts[i] == (k, PutAll(map[], puts)[k])
  {
    if puts != [] {
      var init := puts[..|puts| - 1];
      PutAllKeysValues(init);
      forall i | 0 <= i < |init| ensures init[i] == puts[i] { }
    }
  }

  /** Every key put is in the table. */
  lemma {:induction false} PutAllHasKey(puts: seq<(string, string)>, i: nat)
    requires i < |puts|
    ensures puts[i].0 in PutAll(map[], puts)
    decreases |puts|
  {
    if i < |puts| - 1 {
      PutAllHasKey(puts[..|puts| - 1], i);
    }
  }

  /** The last `put` of a key decides its value. */
  lemma {:induction false} PutAllLastWins(puts: seq<(string, string)>, i: nat)
    requires i < |puts|
    requires forall j :: i < j < |puts| ==> puts[j].0 != puts[i].0
    ensures puts[i].0 in PutAll(map[], puts) && PutAll(map[], puts)[puts[i].0] == puts[i].1
    decreases |puts|
  {
    if i < |puts| - 1 {
      var init := puts[..|puts| - 1];
      PutAllLastWins(init, i);
    }
  }

  /** The table yields only the seven relation names; "UNKNOWN" is not among them. */
  lemma MarkerValues()
    ensures forall k :: k in TemporalMarkers() ==> TemporalMarkers()[k] in RelationNames
    ensures "UNKNOWN" !in RelationNames
  {
    var puts := MarkerPuts();
    PutAllKeysValues(puts);
    forall k | k in TemporalMarkers() ensures TemporalMarkers()[k] in RelationNames {
      var i :| 0 <= i < |puts| && puts[i] == (k, TemporalMarkers()[k]);
    }
  }

  /** "同时" is put twice; the second put, SIMULTANEOUS, is the one that stays. */
  lemma SimultaneousOverwrites()
    ensures "同时" in TemporalMarkers() && TemporalMarkers()["同时"] == "SIMULTANEOUS"
  {
    PutAllLastWins(MarkerPuts(), 25);
  }

  /** The three keys `DetermineTemporalRelation` tests, with their table values. */
  lemma DeterminedKeys()
    ensures "之前" in TemporalMarkers() && TemporalMarkers()["之前"] == "BEFORE"
    ensures "之后" in TemporalMarkers() && TemporalMarkers()["之后"] == "AFTER"
    ensures "随着" in TemporalMarkers() && TemporalMarkers()["随着"] == "WITH"
  {
    BeforeKey();
    AfterKey();
    PutAllLastWins(MarkerPuts(), 28);
  }

  lemma BeforeKey()
    ensures "之前" in TemporalMarkers() && TemporalMarkers()["之前"] == "BEFORE"
  {
    PutAllLastWins(MarkerPuts(), 0);
  }

  lemma AfterKey()
    ensures "之后" in TemporalMarkers() && TemporalMarkers()["之后"] == "AFTER"
  {
    PutAllLastWins(MarkerPuts(), 6);
  }

  /** `text` contains some marker key. */
  predicate HasTemporalMarker(text: string) {
    exists k :: k in TemporalMarkers() && Contains(text, k)
  }

  // ---------------------------------------------------------------------
  // The pattern table

  /**
   * A temporal regex, represented by the literal parts a match must
   * contain; `find` is taken to succeed when all of them occur. This is
   * only consulted on texts with no marker key, where every pattern fails
   * either way (`PatternsNeedMarkers`).
   */
  datatype TemporalPattern = TemporalPattern(literals: seq<string>)

  /** The nine patterns, in the order they are tried. */
  function TemporalPatterns(): seq<TemporalPattern> {
    [ TemporalPattern(["在", "之前"]),        // 在(.+?)之前
      TemporalPattern(["在", "之后"]),        // 在(.+?)之后
      TemporalPattern(["在", "期间"]),        // 在(.+?)期间
      TemporalPattern(["从", "开始"]),        // 从(.+?)开始
      TemporalPattern(["到", "结束"]),        // 到(.+?)结束
      TemporalPattern(["先", "后"]),          // 先(.+?)后(.+?)
      TemporalPattern(["在", "之前", "，"]),  // 在(.+?)之前，(.+)
      TemporalPattern(["之后，"]),            // (.+?)之后，(.+)
      TemporalPattern(["随着", "，"]) ]       // 随着(.+?)，(.+)
  }

  predicate MayMatch(pattern: TemporalPattern, text: string) {
    forall l :: l in pattern.literals ==> Contains(text, l)
  }

  /** A literal of pattern `i` and the marker key it contains. */
  function PatternMarker(i: nat): (r: (string, string))
    requires i < |TemporalPatterns()|
    ensures r.0 in TemporalPatterns()[i].literals && Contains(r.0, r.1)
    ensures r.1 in TemporalMarkers()
  {
    var r := [("之前", "之前"), ("之后", "之后"), ("期间", "期间"), ("开始", "开始"), ("结束", "结束"),
              ("先", "先"), ("之前", "之前"), ("之后，", "之后"), ("随着", "随着")][i];
    var put := [0, 6, 12, 17, 20, 4, 0, 6, 28][i];
    assert r.1 == MarkerPuts()[put].0;
    PutAllHasKey(MarkerPuts(), put);
    assert Contains(r.0, r.0) by { assert r.0[..|r.0|] == r.0; }
    assert Contains("之后，", "之后") by { assert "之后，"[..2] == "之后"; }
    r
  }

  /** Every temporal pattern has a literal containing a marker key, so it needs a marker to match. */
  lemma PatternsNeedMarkers(text: string)
    requires !HasTemporalMarker(text)
    ensures forall i :: 0 <= i < |TemporalPatterns()| ==> !MayMatch(TemporalPatterns()[i], text)
  {
    forall i | 0 <= i < |TemporalPatterns()| ensures !MayMatch(TemporalPatterns()[i], text) {
      var (l, k) := PatternMarker(i);
      if Contains(text, l) {
        ContainsTransitive(text, l, k);
      }
    }
  }

  // ---------------------------------------------------------------------
  // Extraction from one text

  /** `determineTemporalRelation`: the first of 之前, 之后, 随着 that the whole text contains. */
  function DetermineTemporalRelation(text: string): string {
    if Contains(text, "之前") then "BEFORE"
    else if Contains(text, "之后") then "AFTER"
    else if Contains(text, "随着") then "WITH"
    else "UNKNOWN"
  }

  /** What `determineTemporalRelation` answers agrees with the marker table, or is UNKNOWN exactly when none of its keys occurs. */
  lemma DetermineAgreesWithMarkers(text: string)
    ensures var r := DetermineTemporalRelation(text);
      && (r == "UNKNOWN" <==> !Contains(text, "之前") && !Contains(text, "之后") && !Contains(text, "随着"))
      && (r != "UNKNOWN" ==> exists k :: k in TemporalMarkers() && Contains(text, k) && TemporalMarkers()[k] == r)
  {
    DeterminedKeys();
  }

  /**
   * The outcomes `extractTemporalRelation` allows for `text`: nothing for
   * an empty text; the table value of some contained key when there is
   * one (which key is found first depends on the hash map's order);
   * otherwise nothing.
   */
  ghost predicate TemporalOutcome(text: string, r: Option<string>) {
    if text != [] && HasTemporalMarker(text) then
      r.Some? && exists k :: k in TemporalMarkers() && Contains(text, k) && r.value == TemporalMarkers()[k]
    else
      r == None
  }

  /** Whether a relation is found is determined by the text; only which marker wins is not. */
  lemma OutcomeFound(text: string, r: Option<string>)
    requires TemporalOutcome(text, r)
    ensures r.Some? <==> text != [] && HasTemporalMarker(text)
    ensures r.Some? ==> r.value in RelationNames
  {
    MarkerValues();
  }

  /** The pattern branch: the relation of the first pattern that matches, judged on the whole text. */
  method MatchTemporalPatterns(text: string) returns (r: Option<string>)
    ensures r.None? <==> forall i :: 0 <= i < |TemporalPatterns()| ==> !MayMatch(TemporalPatterns()[i], text)
    ensures r.Some? ==> r.value == DetermineTemporalRelation(text)
  {
    var patterns := TemporalPatterns();
    for i := 0 to |patterns|
      invariant forall j :: 0 <= j < i ==> !MayMatch(patterns[j], text)
    {
      if MayMatch(patterns[i], text) {
        return Some(DetermineTemporalRelation(text));
      }
    }
    return None;
  }

  /** `extractTemporalRelation`: a marker key's value, else the pattern branch, else nothing. */
  method ExtractTemporalRelation(text: string) returns (r: Option<string>)
    ensures TemporalOutcome(text, r)
  {
    if text == [] {
      return None;
    }
    var markers := TemporalMarkers();
    var remaining := markers.Keys;
    while remaining != {}
      invariant remaining <= markers.Keys
      invariant forall k :: k in markers && k !in remaining ==> !Contains(text, k)
      decreases |remaining|
    {
      var k :| k in remaining;
      if Contains(text, k) {
        return Some(markers[k]);
      }
      remaining := remaining - {k};
    }
    PatternsNeedMarkers(text);
    r := MatchTemporalPatterns(text);
  }

  // ---------------------------------------------------------------------
  // Tagging triples

  /**
   * The temporal relation a triple ends up with, given the one it had:
   * the cause's relation when it has one; else the one it had; else the
   * effect's; else AFTER.
   */
  ghost predicate Tagged(cause: string, effect: string, before: Option<string>, after: Option<string>) {
    exists rc, re :: TemporalOutcome(cause, rc) && TemporalOutcome(effect, re) && after == Tag(rc, before, re)
  }

  /** The relation kept, from the cause's relation, the one set before and the effect's. */
  function Tag(rc: Option<string>, before: Option<string>, re: Option<string>): Option<string> {
    if rc.Some? then rc else if before.Some? then before else if re.Some? then re else Some("AFTER")
  }

  /** After tagging, the relation is set, and it is one of the relation names. */
  lemma TaggedIsSet(cause: string, effect: string, before: Option<string>, after: Option<string>)
    requires Tagged(cause, effect, before, after)
    requires before.Some? ==> before.value in RelationNames
    ensures after.Some? && after.value in RelationNames
  {
    var rc, re :| TemporalOutcome(cause, rc) && TemporalOutcome(effect, re)
      && after == Tag(rc, before, re);
    OutcomeFound(cause, rc);
    OutcomeFound(effect, re);
  }

  /** With no marker in cause or effect and nothing set before, the relation defaults to AFTER. */
  lemma TaggedDefault(cause: string, effect: string, after: Option<string>)
    requires Tagged(cause, effect, None, after)
    requires !HasTemporalMarker(cause) && !HasTemporalMarker(effect)
    ensures after == Some("AFTER")
  {
    var rc, re :| TemporalOutcome(cause, rc) && TemporalOutcome(effect, re)
      && after == Tag(rc, None, re);
  }

  /** The cause has priority: a marker in the cause decides the relation, whatever was set before. */
  lemma TaggedCauseFirst(cause: string, effect: string, before: Option<string>, after: Option<string>)
    requires Tagged(cause, effect, before, after)
    requires cause != [] && HasTemporalMarker(cause)
    ensures exists k :: k in TemporalMarkers() && Contains(cause, k) && after == Some(TemporalMarkers()[k])
  {
    var rc, re :| TemporalOutcome(cause, rc) && TemporalOutcome(effect, re)
      && after == Tag(rc, before, re);
  }

  /** A relation set before survives when the cause yields none; the effect does not override it. */
  lemma TaggedKeepsEarlier(cause: string, effect: string, before: Option<string>, after: Option<string>)
    requires Tagged(cause, effect, before, after)
    requires before.Some? && !HasTemporalMarker(cause)
    ensures after == before
  {
    var rc, re :| TemporalOutcome(cause, rc) && TemporalOutcome(effect, re)
      && after == Tag(rc, before, re);
  }

  /** Tagging an already tagged triple again is again a tagging of the original: repeated list entries are harmless. */
  lemma TaggedTwice(cause: string, effect: string, before: Option<string>, mid: Option<string>, after: Option<string>)
    requires Tagged(cause, effect, before, mid) && Tagged(cause, effect, mid, after)
    ensures Tagged(cause, effect, before, after)
  {
    var rc, re :| TemporalOutcome(cause, rc) && TemporalOutcome(effect, re)
      && mid == Tag(rc, before, re);
    var rc', re' :| TemporalOutcome(cause, rc') && TemporalOutcome(effect, re')
      && after == Tag(rc', mid, re');
    OutcomeFound(cause, rc);
    OutcomeFound(cause, rc');
    if rc'.Some? {
      assert after == Tag(rc', before, re);
    } else {
      assert after == Tag(rc, before, re);
    }
  }

  /** One iteration of `process`: tag the triple from its cause, then its effect, then the default. */
  method TagTriple(t: CausalTriple)
    modifies t`temporalRelation
    ensures Tagged(t.cause, t.effect, old(t.temporalRelation), t.temporalRelation)
  {
    ghost var before := t.temporalRelation;
    var rc := ExtractTemporalRelation(t.cause);
    if rc.Some? {
      t.SetTemporalRelation(rc);
    }
    var re := ExtractTemporalRelation(t.effect);
    if re.Some? && t.temporalRelation.None? {
      t.SetTemporalRelation(re);
    }
    if t.temporalRelation.None? {
      t.SetTemporalRelation(Some("AFTER"));
    }
    assert t.temporalRelation == Tag(rc, before, re);
  }

  class TemporalProcessor {
    constructor ()
    {
    }

    /**
     * `process`: tags every triple of the list in place and returns the
     * same triples in the same order; a missing or empty list gives an
     * empty one.
     */
    method Process(triples: Option<seq<CausalTriple>>) returns (processed: seq<CausalTriple>)
      modifies if triples.Some? then set t | t in triples.value else {}
      ensures triples.None? ==> processed == []
      ensures triples.Some? ==> processed == triples.value
      ensures forall t :: t in processed ==> t.Record() == old(t.Record())
      ensures forall t :: t in processed ==> t.domainCategory == old(t.domainCategory)
      ensures forall t :: t in processed ==> Tagged(t.cause, t.effect, old(t.temporalRelation), t.temporalRelation)
    {
      if triples.None? || triples.value == [] {
        return [];
      }
      var ts := triples.value;
      processed := [];
      for i := 0 to |ts|
        invariant processed == ts[..i]
        invariant forall t :: t in ts ==> t.Record() == old(t.Record())
        invariant forall t :: t in ts ==> t.domainCategory == old(t.domainCategory)
        invariant forall t :: t in ts[..i] ==> Tagged(t.cause, t.effect, old(t.temporalRelation), t.temporalRelation)
        invariant forall t :: t in ts && t !in ts[..i] ==> t.temporalRelation == old(t.temporalRelation)
      {
        var t := ts[i];
        ghost var mid := t.temporalRelation;
        TagTriple(t);
        if t in ts[..i] {
          TaggedTwice(t.cause, t.effect, old(t.temporalRelation), mid, t.temporalRelation);
        }
        assert ts[..i + 1] == ts[..i] + [t];
        processed := processed + [t];
      }
    }
  }
}
