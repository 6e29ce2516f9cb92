/** The pipeline's stages, their order and their dependencies (backend/app/core/enums.py). */
module Pipeline {
  import opened Wrappers

  datatype PipelineStage =
    | VALIDATION | PARSER | DOCPIPELINE | EXTRACTION | EMBEDDING | INDEXING
    | ENRICHMENT | CLASSIFICATION | CHUNKING | AI_EXTRACTION

  const STAGE_ORDER: seq<PipelineStage> := [VALIDATION, PARSER, DOCPIPELINE, EXTRACTION, EMBEDDING, INDEXING]

  function Dependencies(s: PipelineStage): set<PipelineStage> {
    match s
    case VALIDATION => {}
    case PARSER => {VALIDATION}
    case DOCPIPELINE => {PARSER}
    case EXTRACTION => {DOCPIPELINE}
    case EMBEDDING => {EXTRACTION}
    case INDEXING => {EMBEDDING}
    case ENRICHMENT => {PARSER}
    case CLASSIFICATION => {ENRICHMENT}
    case CHUNKING => {CLASSIFICATION}
    case AI_EXTRACTION => {CHUNKING}
  }

  /** Position in the execution order, or None for a retired stage. */
  function StagePosition(s: PipelineStage): (p: Option<nat>)
    ensures p.Some? <==> s in STAGE_ORDER
    ensures p.Some? ==> p.value < |STAGE_ORDER| && STAGE_ORDER[p.value] == s
  {
    match s
    case VALIDATION => assert STAGE_ORDER[0] == s; Some(0)
    case PARSER => assert STAGE_ORDER[1] == s; Some(1)
    case DOCPIPELINE => assert STAGE_ORDER[2] == s; Some(2)
    case EXTRACTION => assert STAGE_ORDER[3] == s; Some(3)
    case EMBEDDING => assert STAGE_ORDER[4] == s; Some(4)
    case INDEXING => assert STAGE_ORDER[5] == s; Some(5)
    case _ => None
  }

  /** The replay set of a stage; a retired stage has none. */
  function StagesFrom(s: PipelineStage): Option<seq<PipelineStage>> {
    match StagePosition(s)
    case None => None
    case Some(i) => Some(STAGE_ORDER[i..])
  }

  /** s needs t's output, directly or through other stages. */
  ghost predicate Needs(s: PipelineStage, t: PipelineStage, links: nat)
    decreases links
  {
    links > 0 && (t in Dependencies(s) || exists m :: m in Dependencies(s) && Needs(m, t, links - 1))
  }

  /** A dispatched stage that is s or needs it, through any number of links. */
  ghost predicate Depends(t: PipelineStage, s: PipelineStage) {
    t in STAGE_ORDER && (t == s || exists links: nat :: Needs(t, s, links))
  }

  /** What a dispatched stage needs was dispatched earlier: no retired stage is among it. */
  lemma {:induction false} NeedsComeEarlier(s: PipelineStage, t: PipelineStage, links: nat)
    requires s in STAGE_ORDER && Needs(s, t, links)
    ensures t in STAGE_ORDER && StagePosition(t).value < StagePosition(s).value
    decreases links
  {
    if t !in Dependencies(s) {
      var m :| m in Dependencies(s) && Needs(m, t, links - 1);
      NeedsComeEarlier(m, t, links - 1);
    }
  }

  lemma OrderIsStrict()
    ensures forall i, j :: 0 <= i < j < |STAGE_ORDER| ==> STAGE_ORDER[i] != STAGE_ORDER[j]
  {
  }

  /** Each dispatched stage needs every one before it, by as many links as they are apart. */
  lemma {:induction false} LaterNeedsEarlier(i: nat, j: nat)
    requires i < j < |STAGE_ORDER|
    ensures Needs(STAGE_ORDER[j], STAGE_ORDER[i], j - i)
    decreases j
  {
    NeedsThePrevious(j);
    hide STAGE_ORDER;
    if i < j - 1 {
      LaterNeedsEarlier(i, j - 1);
      assert STAGE_ORDER[j - 1] in Dependencies(STAGE_ORDER[j]) && Needs(STAGE_ORDER[j - 1], STAGE_ORDER[i], j - i - 1);
    }
  }

  lemma NeedsThePrevious(j: nat)
    requires 0 < j < |STAGE_ORDER|
    ensures STAGE_ORDER[j - 1] in Dependencies(STAGE_ORDER[j])
  {
  }

  /** The replay set of a stage: it and the dispatched stages that need it, in their order. */
  lemma StagesFromAre(s: PipelineStage, t: PipelineStage)
    requires s in STAGE_ORDER
    ensures StagesFrom(s).Some? && StagesFrom(s).value <= STAGE_ORDER[StagePosition(s).value..] <= StagesFrom(s).value
    ensures t in StagesFrom(s).value <==> t in STAGE_ORDER && StagePosition(t).value >= StagePosition(s).value
    ensures t in StagesFrom(s).value <==> Depends(t, s)
  {
    var i := StagePosition(s).value;
    var r := StagesFrom(s).value;
    OrderIsStrict();
    hide STAGE_ORDER;
    assert r == STAGE_ORDER[i..];
    if t in STAGE_ORDER {
      var j := StagePosition(t).value;
      if j >= i { assert r[j - i] == t; }
      if t in r {
        var k :| 0 <= k < |r| && r[k] == t;
        assert STAGE_ORDER[i + k] == t && j == i + k;
      }
      if j > i { LaterNeedsEarlier(i, j); }
      if links: nat :| Needs(t, s, links) { NeedsComeEarlier(t, s, links); }
    }
  }
}
