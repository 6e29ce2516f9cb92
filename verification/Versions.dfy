/** Component versions and what they decide about a stored checkpoint
    (backend/app/core/versions.py). */
module Versions {
  import opened Wrappers
  import opened Pipeline

  /** A version field's value: text, a whole number, or the prompt table. */
  datatype Value = Text(s: string) | Number(n: int) | Table(t: map<string, string>)

  /** The declared fields, and whatever else a payload may carry. */
  datatype Field =
    | CdmVersion | ParserName | ParserVersion | ParserAdapterVersion | EnrichmentEngineVersion
    | ClassificationEngineVersion | ClassificationTaxonomyVersion | ProfileId | ProfileVersion
    | ChunkEngineVersion | ChunkStrategy | ChunkStrategyVersion | ExtractionEngineVersion
    | ExtractionSchemaVersion | ValidationRulesVersion | PromptVersions | ModelName | ModelVersion
    | EmbeddingProvider | EmbeddingModel | EmbeddingDim | EmbeddingVersion | EmbeddingStrategyVersion
    | IndexVersion | GraphVersion | RiskModelVersion | SourceArtifactVersion | Extra(name: string)

  /** The populated fields of a payload. */
  type Payload = map<Field, Value>

  /** Python's truth value, by which a field takes part in a comparison. */
  predicate Counts(v: Value) {
    match v
    case Text(s) => s != ""
    case Number(n) => n != 0
    case Table(t) => t != map[]
  }

  /** `mine.matches(stored)`: a stored payload may say more, never less or otherwise. */
  predicate Matches(mine: Payload, stored: Option<Payload>) {
    stored.Some? && forall k :: k in mine && Counts(mine[k]) ==> k in stored.value && stored.value[k] == mine[k]
  }

  datatype Moved = Moved(stored: Option<Value>, current: Value)

  function Fetch(p: Payload, k: Field): Option<Value> {
    if k in p then Some(p[k]) else None
  }

  method Diff(mine: Payload, stored: Option<Payload>) returns (moved: map<Field, Moved>)
    ensures forall k :: k in moved <==> k in mine && Counts(mine[k]) && Fetch(stored.GetOr(map[]), k) != Some(mine[k])
    ensures forall k :: k in moved ==> moved[k] == Moved(Fetch(stored.GetOr(map[]), k), mine[k])
    ensures stored.Some? ==> (Matches(mine, stored) <==> moved == map[])
  {
    moved := map[];
    var other := stored.GetOr(map[]);
    var keys := mine.Keys;
    while keys != {}
      invariant keys <= mine.Keys
      invariant forall k :: k in moved <==> k in mine && k !in keys && Counts(mine[k]) && Fetch(other, k) != Some(mine[k])
      invariant forall k :: k in moved ==> moved[k] == Moved(Fetch(other, k), mine[k])
    {
      var k :| k in keys;
      keys := keys - {k};
      if Counts(mine[k]) && Fetch(other, k) != Some(mine[k]) {
        moved := moved[k := Moved(Fetch(other, k), mine[k])];
      }
    }
    if moved == map[] {
      assert forall k :: k in mine ==> k !in moved;
    }
  }

  lemma MatchesIsAPreorder(a: Payload, b: Payload, c: Payload)
    ensures Matches(a, Some(a))
    ensures Matches(a, Some(b)) && Matches(b, Some(c)) ==> Matches(a, Some(c))
  {
  }

  /** Asymmetric on purpose: a field that is newly tracked invalidates what was stored
      without it, and a field no longer tracked invalidates nothing. */
  lemma NewFieldInvalidates(mine: Payload, k: Field, v: Value)
    requires k !in mine && Counts(v)
    ensures !Matches(mine[k := v], Some(mine)) && Matches(mine, Some(mine[k := v]))
  {
    assert k in mine[k := v] && mine[k := v][k] == v;
  }

  // ------------------------------------------------------------------ what a stage stamps

  datatype Settings = Settings(
    activeParser: string, adapterVersions: map<string, string>,
    llmProvider: string, azureDeployment: string, modelSimple: string,
    embeddingProvider: string, embeddingModel: string, embeddingDim: int, embeddingVersion: string,
    promptVersions: map<string, string>)

  /** The version constants of a release of the code. */
  datatype Release = Release(
    framework: string, docpipeline: string, extractionEngine: string, extractionSchema: string,
    embeddingStrategy: string, index: string, graph: string)

  /** The model that will answer: an Azure deployment replaces the configured name. */
  function SimpleTierModel(s: Settings): string {
    if s.llmProvider == "azure_openai" && s.azureDeployment != "" then s.azureDeployment else s.modelSimple
  }

  function Adapter(s: Settings): string {
    if s.activeParser in s.adapterVersions then s.adapterVersions[s.activeParser] else "unknown"
  }

  /** A profile as the caller names it; both parts may be missing. */
  datatype Profile = Profile(id: Option<string>, version: Option<string>)

  /** All that a stamp is drawn from. */
  datatype Setup = Setup(code: Release, settings: Settings, profile: Profile)

  const EMBEDDER: set<Field> := {EmbeddingProvider, EmbeddingModel, EmbeddingDim, EmbeddingVersion}

  /** The fields a stage stamps: only what affects its output. */
  function Stamped(stage: PipelineStage, p: Profile): set<Field> {
    match stage
    case PARSER => {ParserName, ParserVersion, ParserAdapterVersion}
    case EXTRACTION =>
      {ParserName, ParserAdapterVersion, ExtractionEngineVersion, ExtractionSchemaVersion, ModelName, PromptVersions}
    case DOCPIPELINE => {ParserName, ParserAdapterVersion, ExtractionEngineVersion, ModelName} + EMBEDDER
    case EMBEDDING =>
      (if p.id.Some? then {ProfileId} else {}) + (if p.version.Some? then {ProfileVersion} else {}) +
      EMBEDDER + {EmbeddingStrategyVersion}
    case INDEXING => {IndexVersion, GraphVersion, EmbeddingModel, EmbeddingVersion}
    case _ => {}
  }

  /** What is stamped on a field; the one field that means two things depends on the stage. */
  function Stamp(stage: PipelineStage, f: Field, u: Setup): Value {
    match f
    case ParserName => Text(u.settings.activeParser)
    case ParserVersion => Text(u.code.framework)
    case ParserAdapterVersion => Text(Adapter(u.settings))
    case ExtractionEngineVersion => Text(if stage == DOCPIPELINE then u.code.docpipeline else u.code.extractionEngine)
    case ExtractionSchemaVersion => Text(u.code.extractionSchema)
    case ModelName => Text(SimpleTierModel(u.settings))
    case PromptVersions => Table(u.settings.promptVersions)
    case EmbeddingProvider => Text(u.settings.embeddingProvider)
    case EmbeddingModel => Text(u.settings.embeddingModel)
    case EmbeddingDim => Number(u.settings.embeddingDim)
    case EmbeddingVersion => Text(u.settings.embeddingVersion)
    case EmbeddingStrategyVersion => Text(u.code.embeddingStrategy)
    case ProfileId => Text(u.profile.id.GetOr(""))
    case ProfileVersion => Text(u.profile.version.GetOr(""))
    case IndexVersion => Text(u.code.index)
    case GraphVersion => Text(u.code.graph)
    case _ => Text("")
  }

  function Current(stage: PipelineStage, u: Setup): Payload {
    map f | f in Stamped(stage, u.profile) :: Stamp(stage, f, u)
  }

  // ---- when a checkpoint survives, in terms of the settings

  /** What the new setup says, when it says anything, is what the old one said. */
  predicate Same(now: string, before: string) {
    now != "" ==> now == before
  }

  /** m is the model that answers: the Azure deployment where Azure is the provider and one is
      named, the configured model in all other cases. */
  predicate Answers(s: Settings, m: string) {
    || (s.llmProvider == "azure_openai" && s.azureDeployment != "" && m == s.azureDeployment)
    || ((s.llmProvider != "azure_openai" || s.azureDeployment == "") && m == s.modelSimple)
  }

  /** v is the version of the active parser's adapter, `unknown` where none is listed. */
  predicate AdapterIs(s: Settings, v: string) {
    || (s.activeParser in s.adapterVersions && v == s.adapterVersions[s.activeParser])
    || (s.activeParser !in s.adapterVersions && v == "unknown")
  }

  ghost predicate SameParser(now: Settings, before: Settings) {
    Same(now.activeParser, before.activeParser) && forall v :: AdapterIs(now, v) && v != "" ==> AdapterIs(before, v)
  }

  ghost predicate SameModel(now: Settings, before: Settings) {
    forall m :: Answers(now, m) && m != "" ==> Answers(before, m)
  }

  predicate SameVectors(now: Settings, before: Settings) {
    Same(now.embeddingModel, before.embeddingModel) && Same(now.embeddingVersion, before.embeddingVersion)
  }

  predicate SameEmbedder(now: Settings, before: Settings) {
    && Same(now.embeddingProvider, before.embeddingProvider) && SameVectors(now, before)
    && (now.embeddingDim != 0 ==> now.embeddingDim == before.embeddingDim)
  }

  predicate SameProfile(now: Profile, before: Profile) {
    Same(now.id.GetOr(""), before.id.GetOr("")) && Same(now.version.GetOr(""), before.version.GetOr(""))
  }

  /** What must not have moved for a stage's checkpoint to be kept, and nothing else. */
  ghost predicate Unmoved(stage: PipelineStage, now: Setup, before: Setup) {
    match stage
    case PARSER => SameParser(now.settings, before.settings) && Same(now.code.framework, before.code.framework)
    case EXTRACTION =>
      && SameParser(now.settings, before.settings) && SameModel(now.settings, before.settings)
      && (now.settings.promptVersions != map[] ==> now.settings.promptVersions == before.settings.promptVersions)
      && Same(now.code.extractionEngine, before.code.extractionEngine)
      && Same(now.code.extractionSchema, before.code.extractionSchema)
    case DOCPIPELINE =>
      && SameParser(now.settings, before.settings) && SameModel(now.settings, before.settings)
      && SameEmbedder(now.settings, before.settings) && Same(now.code.docpipeline, before.code.docpipeline)
    case EMBEDDING =>
      && SameEmbedder(now.settings, before.settings) && SameProfile(now.profile, before.profile)
      && Same(now.code.embeddingStrategy, before.code.embeddingStrategy)
    case INDEXING =>
      && SameVectors(now.settings, before.settings)
      && Same(now.code.index, before.code.index) && Same(now.code.graph, before.code.graph)
    case _ => true
  }

  predicate FieldUnmoved(stage: PipelineStage, f: Field, now: Setup, before: Setup) {
    Counts(Stamp(stage, f, now)) ==> f in Stamped(stage, before.profile) && Stamp(stage, f, before) == Stamp(stage, f, now)
  }

  lemma MatchesByField(stage: PipelineStage, now: Setup, before: Setup)
    ensures Matches(Current(stage, now), Some(Current(stage, before)))
            <==> forall f :: f in Stamped(stage, now.profile) ==> FieldUnmoved(stage, f, now, before)
  {
    hide Stamped, Stamp, Counts;
    var mine, stored := Current(stage, now), Current(stage, before);
    assert mine.Keys == Stamped(stage, now.profile) && stored.Keys == Stamped(stage, before.profile);
  }

  lemma TextMeans(stage: PipelineStage, f: Field, now: Setup, before: Setup, new': string, old': string)
    requires f in Stamped(stage, before.profile)
    requires Stamp(stage, f, now) == Text(new') && Stamp(stage, f, before) == Text(old')
    ensures FieldUnmoved(stage, f, now, before) <==> Same(new', old')
  {
    hide Stamp, Stamped;
  }

  lemma ModelMeans(now: Settings, before: Settings)
    ensures Same(SimpleTierModel(now), SimpleTierModel(before)) <==> SameModel(now, before)
  {
    assert forall s: Settings, m :: Answers(s, m) <==> m == SimpleTierModel(s);
    assert Answers(now, SimpleTierModel(now));
  }

  lemma AdapterMeans(now: Settings, before: Settings)
    ensures Same(Adapter(now), Adapter(before)) <==> forall v :: AdapterIs(now, v) && v != "" ==> AdapterIs(before, v)
  {
    assert forall s: Settings, v :: AdapterIs(s, v) <==> v == Adapter(s);
    assert AdapterIs(now, Adapter(now));
  }

  lemma ParserMeans(stage: PipelineStage, now: Setup, before: Setup)
    requires ParserName in Stamped(stage, before.profile) && ParserAdapterVersion in Stamped(stage, before.profile)
    ensures FieldUnmoved(stage, ParserName, now, before) && FieldUnmoved(stage, ParserAdapterVersion, now, before)
            <==> SameParser(now.settings, before.settings)
  {
    TextMeans(stage, ParserName, now, before, now.settings.activeParser, before.settings.activeParser);
    TextMeans(stage, ParserAdapterVersion, now, before, Adapter(now.settings), Adapter(before.settings));
    AdapterMeans(now.settings, before.settings);
  }

  lemma VectorsMean(stage: PipelineStage, now: Setup, before: Setup)
    requires EmbeddingModel in Stamped(stage, before.profile) && EmbeddingVersion in Stamped(stage, before.profile)
    ensures FieldUnmoved(stage, EmbeddingModel, now, before) && FieldUnmoved(stage, EmbeddingVersion, now, before)
            <==> SameVectors(now.settings, before.settings)
  {
    TextMeans(stage, EmbeddingModel, now, before, now.settings.embeddingModel, before.settings.embeddingModel);
    TextMeans(stage, EmbeddingVersion, now, before, now.settings.embeddingVersion, before.settings.embeddingVersion);
  }

  lemma DimMeans(stage: PipelineStage, now: Setup, before: Setup)
    requires EmbeddingDim in Stamped(stage, before.profile)
    ensures FieldUnmoved(stage, EmbeddingDim, now, before)
            <==> (now.settings.embeddingDim != 0 ==> now.settings.embeddingDim == before.settings.embeddingDim)
  {
    hide Stamped;
  }

  lemma EmbedderFields(f: Field)
    ensures f in EMBEDDER <==> f == EmbeddingProvider || f == EmbeddingModel || f == EmbeddingDim || f == EmbeddingVersion
  {
  }

  lemma EmbedderMeans(stage: PipelineStage, now: Setup, before: Setup)
    requires EMBEDDER <= Stamped(stage, before.profile)
    ensures (forall f :: f in EMBEDDER ==> FieldUnmoved(stage, f, now, before)) <==> SameEmbedder(now.settings, before.settings)
  {
    hide FieldUnmoved, Stamped, Stamp, SameVectors, Same, EMBEDDER;
    forall f { EmbedderFields(f); }
    VectorsMean(stage, now, before);
    DimMeans(stage, now, before);
    assert Stamp(stage, EmbeddingProvider, now) == Text(now.settings.embeddingProvider) by { ProviderStamp(stage, now); }
    assert Stamp(stage, EmbeddingProvider, before) == Text(before.settings.embeddingProvider) by { ProviderStamp(stage, before); }
    TextMeans(stage, EmbeddingProvider, now, before, now.settings.embeddingProvider, before.settings.embeddingProvider);
  }

  lemma ProviderStamp(stage: PipelineStage, u: Setup)
    ensures Stamp(stage, EmbeddingProvider, u) == Text(u.settings.embeddingProvider)
  {
  }

  lemma ModelFieldMeans(stage: PipelineStage, now: Setup, before: Setup)
    requires ModelName in Stamped(stage, before.profile)
    ensures FieldUnmoved(stage, ModelName, now, before) <==> SameModel(now.settings, before.settings)
  {
    TextMeans(stage, ModelName, now, before, SimpleTierModel(now.settings), SimpleTierModel(before.settings));
    ModelMeans(now.settings, before.settings);
  }

  lemma ParserSurvives(now: Setup, before: Setup)
    ensures (forall f :: f in Stamped(PARSER, now.profile) ==> FieldUnmoved(PARSER, f, now, before)) <==> Unmoved(PARSER, now, before)
  {
    ParserMeans(PARSER, now, before);
    TextMeans(PARSER, ParserVersion, now, before, now.code.framework, before.code.framework);
    hide FieldUnmoved, SameParser, Same;
  }

  lemma ExtractionSurvives(now: Setup, before: Setup)
    ensures (forall f :: f in Stamped(EXTRACTION, now.profile) ==> FieldUnmoved(EXTRACTION, f, now, before)) <==> Unmoved(EXTRACTION, now, before)
  {
    ParserMeans(EXTRACTION, now, before);
    ModelFieldMeans(EXTRACTION, now, before);
    TextMeans(EXTRACTION, ExtractionEngineVersion, now, before, now.code.extractionEngine, before.code.extractionEngine);
    TextMeans(EXTRACTION, ExtractionSchemaVersion, now, before, now.code.extractionSchema, before.code.extractionSchema);
    assert FieldUnmoved(EXTRACTION, PromptVersions, now, before)
        <==> (now.settings.promptVersions != map[] ==> now.settings.promptVersions == before.settings.promptVersions);
    hide FieldUnmoved, SameParser, SameModel, Same;
  }

  lemma DocpipelineSurvives(now: Setup, before: Setup)
    ensures (forall f :: f in Stamped(DOCPIPELINE, now.profile) ==> FieldUnmoved(DOCPIPELINE, f, now, before)) <==> Unmoved(DOCPIPELINE, now, before)
  {
    ParserMeans(DOCPIPELINE, now, before);
    ModelFieldMeans(DOCPIPELINE, now, before);
    EmbedderMeans(DOCPIPELINE, now, before);
    TextMeans(DOCPIPELINE, ExtractionEngineVersion, now, before, now.code.docpipeline, before.code.docpipeline);
    hide FieldUnmoved, SameParser, SameModel, SameEmbedder, Same, EMBEDDER;
  }

  lemma ProfileMeans(now: Setup, before: Setup)
    ensures (ProfileId in Stamped(EMBEDDING, now.profile) ==> FieldUnmoved(EMBEDDING, ProfileId, now, before))
            && (ProfileVersion in Stamped(EMBEDDING, now.profile) ==> FieldUnmoved(EMBEDDING, ProfileVersion, now, before))
            <==> SameProfile(now.profile, before.profile)
  {
  }

  lemma EmbeddingFields(p: Profile)
    ensures forall f :: f in Stamped(EMBEDDING, p) <==>
            f in EMBEDDER || f == EmbeddingStrategyVersion || (f == ProfileId && p.id.Some?) || (f == ProfileVersion && p.version.Some?)
  {
  }

  lemma StrategyMeans(now: Setup, before: Setup)
    ensures FieldUnmoved(EMBEDDING, EmbeddingStrategyVersion, now, before) <==> Same(now.code.embeddingStrategy, before.code.embeddingStrategy)
  {
    TextMeans(EMBEDDING, EmbeddingStrategyVersion, now, before, now.code.embeddingStrategy, before.code.embeddingStrategy);
  }

  lemma EmbeddingSurvives(now: Setup, before: Setup)
    ensures (forall f :: f in Stamped(EMBEDDING, now.profile) ==> FieldUnmoved(EMBEDDING, f, now, before)) <==> Unmoved(EMBEDDING, now, before)
  {
    hide FieldUnmoved, Stamped, Stamp, SameEmbedder, SameProfile, Same, EMBEDDER;
    EmbeddingFields(now.profile);
    EmbeddingFields(before.profile);
    EmbedderMeans(EMBEDDING, now, before);
    ProfileMeans(now, before);
    StrategyMeans(now, before);
  }

  lemma IndexingSurvives(now: Setup, before: Setup)
    ensures (forall f :: f in Stamped(INDEXING, now.profile) ==> FieldUnmoved(INDEXING, f, now, before)) <==> Unmoved(INDEXING, now, before)
  {
    VectorsMean(INDEXING, now, before);
    TextMeans(INDEXING, IndexVersion, now, before, now.code.index, before.code.index);
    TextMeans(INDEXING, GraphVersion, now, before, now.code.graph, before.code.graph);
    hide FieldUnmoved, SameVectors, Same;
  }

  /** A checkpoint survives a change of settings, code and profile exactly when nothing that
      its stage reads has moved: a new embedder does not re-parse, a new Azure deployment does
      re-extract, and the model name that Azure ignores does not. */
  lemma CheckpointSurvivesWhen(stage: PipelineStage, now: Setup, before: Setup)
    ensures Matches(Current(stage, now), Some(Current(stage, before))) <==> Unmoved(stage, now, before)
  {
    hide Matches, Current, FieldUnmoved;
    MatchesByField(stage, now, before);
    match stage
    case PARSER => ParserSurvives(now, before);
    case EXTRACTION => ExtractionSurvives(now, before);
    case DOCPIPELINE => DocpipelineSurvives(now, before);
    case EMBEDDING => EmbeddingSurvives(now, before);
    case INDEXING => IndexingSurvives(now, before);
    case _ => assert Stamped(stage, now.profile) == {};
  }

  // ------------------------------------------------------------------ replay

  type Checkpoints = map<PipelineStage, Payload>

  predicate StageMatches(s: PipelineStage, u: Setup, stored: Checkpoints) {
    Matches(Current(s, u), if s in stored then Some(stored[s]) else None)
  }

  /** The place of the first stage that does not match. */
  function FirstStale(i: nat, u: Setup, stored: Checkpoints): (n: nat)
    requires i <= |STAGE_ORDER|
    ensures i <= n <= |STAGE_ORDER|
    ensures forall j :: i <= j < n ==> StageMatches(STAGE_ORDER[j], u, stored)
    ensures n < |STAGE_ORDER| ==> !StageMatches(STAGE_ORDER[n], u, stored)
    decreases |STAGE_ORDER| - i
  {
    if i == |STAGE_ORDER| || !StageMatches(STAGE_ORDER[i], u, stored) then i
    else FirstStale(i + 1, u, stored)
  }

  /** Replaying from the first stale stage replays it and the stages that need it, through any
      number of links, and no others; every kept stage matches and needs none of them. */
  lemma ReplayIsClosed(u: Setup, stored: Checkpoints)
    ensures var n := FirstStale(0, u, stored);
            n < |STAGE_ORDER| ==>
              && StagesFrom(STAGE_ORDER[n]).Some?
              && var stale, replayed := STAGE_ORDER[n], StagesFrom(STAGE_ORDER[n]).value;
              && !StageMatches(stale, u, stored)
              && (forall t :: t in replayed <==> Depends(t, stale))
              && (forall s :: s in STAGE_ORDER && s !in replayed ==> StageMatches(s, u, stored))
              && (forall s, t, links: nat :: s in STAGE_ORDER && s !in replayed && t in replayed ==> !Needs(s, t, links))
  {
    var n := FirstStale(0, u, stored);
    if n < |STAGE_ORDER| {
      var stale := STAGE_ORDER[n];
      OrderIsStrict();
      assert StagePosition(stale).value == n;
      var replayed := StagesFrom(stale).value;
      forall s
        ensures s in replayed <==> s in STAGE_ORDER && StagePosition(s).value >= n
        ensures s in replayed <==> Depends(s, stale)
      {
        StagesFromAre(stale, s);
      }
      hide STAGE_ORDER, StageMatches, Depends;
      forall s, t, links: nat | s in STAGE_ORDER && s !in replayed && t in replayed
        ensures !Needs(s, t, links)
      {
        NeverNeeds(s, t, links);
      }
      forall s | s in STAGE_ORDER && s !in replayed
        ensures StageMatches(s, u, stored)
      {
        var i := StagePosition(s).value;
        assert STAGE_ORDER[i] == s && i < n;
      }
    }
  }

  lemma NeverNeeds(s: PipelineStage, t: PipelineStage, links: nat)
    requires s in STAGE_ORDER && t in STAGE_ORDER && StagePosition(s).value <= StagePosition(t).value
    ensures !Needs(s, t, links)
  {
    if Needs(s, t, links) { NeedsComeEarlier(s, t, links); }
  }
}
