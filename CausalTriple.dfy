/**
 * The mutable causal-triple record that the processors create and then
 * enrich in place. Fields are public in Dafny, so each Java getter is a
 * plain field read; each setter is a method that changes its own field only.
 */
module Triples {
  import opened Optional

  /** The relation type every extraction strategy emits. */
  const CAUSES: string := "CAUSES"

  /** The four values fixed when a triple is created. */
  datatype TripleRecord = TripleRecord(cause: string, effect: string, relationType: string, confidence: real)

  class CausalTriple {
    var cause: string
    var effect: string
    var relationType: string
    var confidence: real
    /** `null` until the temporal stage sets it. */
    var temporalRelation: Option<string>
    /** `null`; no stage of the pipeline ever sets it. */
    var domainCategory: Option<string>

    /** The creation-time values of this triple. */
    function Record(): TripleRecord
      reads this`cause, this`effect, this`relationType, this`confidence
    {
      TripleRecord(cause, effect, relationType, confidence)
    }

    /** Three-argument constructor: confidence defaults to 1.0. */
    constructor (cause: string, effect: string, relationType: string)
      ensures this.cause == cause && this.effect == effect && this.relationType == relationType
      ensures confidence == 1.0
      ensures temporalRelation == None && domainCategory == None
    {
      this.cause := cause;
      this.effect := effect;
      this.relationType := relationType;
      this.confidence := 1.0;
      this.temporalRelation := None;
      this.domainCategory := None;
    }

    /** Four-argument constructor: stores exactly the given values. */
    constructor WithConfidence(cause: string, effect: string, relationType: string, confidence: real)
      ensures Record() == TripleRecord(cause, effect, relationType, confidence)
      ensures temporalRelation == None && domainCategory == None
    {
      this.cause := cause;
      this.effect := effect;
      this.relationType := relationType;
      this.confidence := confidence;
      this.temporalRelation := None;
      this.domainCategory := None;
    }

    method SetCause(cause: string)
      modifies this`cause
      ensures this.cause == cause
    {
      this.cause := cause;
    }

    method SetEffect(effect: string)
      modifies this`effect
      ensures this.effect == effect
    {
      this.effect := effect;
    }

    method SetRelationType(relationType: string)
      modifies this`relationType
      ensures this.relationType == relationType
    {
      this.relationType := relationType;
    }

    method SetConfidence(confidence: real)
      modifies this`confidence
      ensures this.confidence == confidence
    {
      this.confidence := confidence;
    }

    method SetTemporalRelation(temporalRelation: Option<string>)
      modifies this`temporalRelation
      ensures this.temporalRelation == temporalRelation
    {
      this.temporalRelation := temporalRelation;
    }

    method SetDomainCategory(domainCategory: Option<string>)
      modifies this`domainCategory
      ensures this.domainCategory == domainCategory
    {
      this.domainCategory := domainCategory;
    }
  }

  /** The creation-time values of a list of triples, in list order. */
  function Records(ts: seq<CausalTriple>): seq<TripleRecord>
    reads ts
  {
    if ts == [] then [] else Records(ts[..|ts| - 1]) + [ts[|ts| - 1].Record()]
  }

  /** No triple of the list carries a temporal relation or a domain category yet, as the extraction stage leaves them. */
  predicate Untagged(ts: seq<CausalTriple>)
    reads ts
  {
    forall t :: t in ts ==> t.temporalRelation.None? && t.domainCategory.None?
  }

  lemma RecordsSnoc(a: seq<CausalTriple>, t: CausalTriple)
    ensures Records(a + [t]) == Records(a) + [t.Record()]
  {
    assert (a + [t])[..|a|] == a;
  }

  lemma RecordsStep(ts: seq<CausalTriple>, i: nat)
    requires i < |ts|
    ensures Records(ts[..i + 1]) == Records(ts[..i]) + [ts[i].Record()]
  {
    assert ts[..i + 1][..i] == ts[..i];
  }

  lemma {:induction false} RecordsAppend(a: seq<CausalTriple>, b: seq<CausalTriple>)
    ensures Records(a + b) == Records(a) + Records(b)
    decreases |b|
  {
    if b == [] {
      assert a + b == a;
    } else {
      var init := b[..|b| - 1];
      assert (a + b)[..|a + b| - 1] == a + init;
      RecordsAppend(a, init);
    }
  }
}
