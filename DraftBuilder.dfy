/**
 * Turning a sequence's timed stages into a sequence draft
 * (src/lib/sequencer/draftBuilder.ts).
 *
 * Every stage of the stage map, in the map's order, becomes a draft stage
 * with its month label, a duration of at least one month, its scopes and
 * its awareness (a low-confidence fallback when none is known). The draft
 * carries one creation time as both its created and updated time.
 */
module DraftBuilder {
  import opened Common
  import Collisions

  datatype BlastRadius = BlastRadius(dependencyLoad: real, criticalityWeight: real)
  datatype Coupling = Coupling(financial: bool, inventory: bool, fulfillment: bool, dataContract: bool)
  datatype Constraints = Constraints(blackout: bool, governanceGate: bool, rfpDependency: bool)
  datatype StoreFootprint = StoreFootprint(storesCount: int, countriesCount: int, brandsCount: int)
  datatype Confidence = Confidence(overall: real, byField: map<string, real>)

  /** `StageAwareness`. */
  datatype Awareness = Awareness(
    blastRadius: BlastRadius,
    coupling: Coupling,
    constraints: Constraints,
    storeFootprint: StoreFootprint,
    riskFlags: seq<string>,
    confidence: Confidence)

  datatype Provenance = Provenance(sourceType: string, sourceRef: Option<string>, note: Option<string>)

  /** A draft stage; the optional scopes are None when their map is absent or has no entry. */
  datatype DraftStage = DraftStage(
    stageId: string,
    title: string,
    waveLabel: string,
    startLabel: string,
    durationMonths: int,
    systemsTouched: seq<string>,
    integrationsTouched: seq<string>,
    domainsTouched: seq<string>,
    regionScope: seq<string>,
    brandScope: Option<seq<string>>,
    channelScope: Option<seq<string>>,
    intentTags: Option<seq<string>>,
    provenance: seq<Provenance>,
    awareness: Awareness)

  /** `SequenceDraft`. */
  datatype Draft = Draft(
    projectId: string,
    sequenceId: string,
    name: string,
    version: string,
    createdAt: string,
    updatedAt: string,
    fyStart: Option<string>,
    fyEnd: Option<string>,
    stageCount: nat,
    stages: seq<DraftStage>,
    provenance: Option<seq<Provenance>>)

  datatype SequenceRef = SequenceRef(id: string, title: string, version: Option<string>, fyStart: Option<string>, fyEnd: Option<string>)

  /** The stage map: its keys in insertion order and its entries. */
  datatype StageMap = StageMap(order: seq<string>, byId: map<string, Collisions.Stage>)

  /** The insertion order lists each key once, and only keys. */
  ghost predicate StageMapOk(m: StageMap)
  {
    Distinct(m.order) && forall k :: k in m.order <==> k in m.byId
  }

  /** `DraftBuilderOptions`; an absent optional map is None. */
  datatype Options = Options(
    projectId: string,
    sequence: SequenceRef,
    stageMap: StageMap,
    awarenessByStageId: map<string, Awareness>,
    regionScopeByStageId: map<string, seq<string>>,
    brandScopeByStageId: Option<map<string, seq<string>>>,
    channelScopeByStageId: Option<map<string, seq<string>>>,
    intentTagsByStageId: Option<map<string, seq<string>>>,
    provenance: Option<seq<Provenance>>)

  const StaticSeed := "static-seed"
  const FallbackConfidence: real := 0.3

  /** `fallbackAwareness`: nothing known, no coupling or constraint, and an overall confidence of 0.3. */
  function FallbackAwareness(): (a: Awareness)
    ensures a.confidence.overall == FallbackConfidence && a.confidence.byField == map[]
    ensures a.riskFlags == [] && a.blastRadius == BlastRadius(0.0, 0.0)
    ensures !a.coupling.financial && !a.coupling.inventory && !a.coupling.fulfillment && !a.coupling.dataContract
    ensures !a.constraints.blackout && !a.constraints.governanceGate && !a.constraints.rfpDependency
    ensures a.storeFootprint == StoreFootprint(0, 0, 0)
  {
    Awareness(BlastRadius(0.0, 0.0), Coupling(false, false, false, false), Constraints(false, false, false),
              StoreFootprint(0, 0, 0), [], Confidence(FallbackConfidence, map[]))
  }

  /** `map?.get(key)`: None when the map or the entry is absent. */
  function Lookup(m: Option<map<string, seq<string>>>, key: string): (r: Option<seq<string>>)
    ensures r.Some? <==> m.Some? && key in m.value
    ensures r.Some? ==> r.value == m.value[key]
  {
    if m.Some? && key in m.value then Some(m.value[key]) else None
  }

  /** `sequence.version ?? "static-seed"`. */
  function VersionOf(sequence: SequenceRef): string
  {
    sequence.version.GetOr(StaticSeed)
  }

  /** The stage mapper of `buildSequenceDraft`. */
  function BuildStage(opts: Options, version: string, stage: Collisions.Stage): (d: DraftStage)
    ensures d.stageId == stage.stageId
    ensures d.durationMonths >= 1
    ensures stage.endIndex >= stage.startIndex ==> d.durationMonths == stage.endIndex - stage.startIndex + 1
    ensures stage.startIndex + d.durationMonths - 1 >= stage.endIndex
    ensures d.awareness == (if stage.stageId in opts.awarenessByStageId then opts.awarenessByStageId[stage.stageId] else FallbackAwareness())
    ensures stage.stageId !in opts.regionScopeByStageId ==> d.regionScope == []
    ensures |d.provenance| == 1 && d.provenance[0].sourceType == "import"
  {
    var id := stage.stageId;
    DraftStage(
      id,
      stage.title,
      stage.waveLabel,
      Collisions.FormatFiscalMonth(stage.startIndex),
      MaxInt(1, stage.endIndex - stage.startIndex + 1),
      stage.systems,
      stage.integrations,
      stage.domains,
      if id in opts.regionScopeByStageId then opts.regionScopeByStageId[id] else [],
      Lookup(opts.brandScopeByStageId, id),
      Lookup(opts.channelScopeByStageId, id),
      Lookup(opts.intentTagsByStageId, id),
      [Provenance("import", Some("sequence:" + opts.sequence.id), Some("Loaded from static modernization pack (" + version + ")"))],
      if id in opts.awarenessByStageId then opts.awarenessByStageId[id] else FallbackAwareness())
  }

  /** `Array.from(stageMap.values())`. */
  function StageValues(m: StageMap): (r: seq<Collisions.Stage>)
    requires forall k :: k in m.order ==> k in m.byId
    ensures |r| == |m.order|
    ensures forall i :: 0 <= i < |r| ==> r[i] == m.byId[m.order[i]]
  {
    seq(|m.order|, i requires 0 <= i < |m.order| => m.byId[m.order[i]])
  }

  /**
   * `buildSequenceDraft`; `now` is the ISO time of the call. A stage map
   * whose order names a missing key cannot arise from a JavaScript `Map`.
   */
  function BuildSequenceDraft(opts: Options, now: string): (d: Draft)
    requires forall k :: k in opts.stageMap.order ==> k in opts.stageMap.byId
    ensures d.stageCount == |d.stages| == |opts.stageMap.order|
    ensures d.createdAt == d.updatedAt == now
    ensures d.version == (if opts.sequence.version.Some? then opts.sequence.version.value else StaticSeed)
    ensures forall i :: 0 <= i < |d.stages| ==> d.stages[i] == BuildStage(opts, d.version, opts.stageMap.byId[opts.stageMap.order[i]])
  {
    var version := VersionOf(opts.sequence);
    var values := StageValues(opts.stageMap);
    var stages := seq(|values|, i requires 0 <= i < |values| => BuildStage(opts, version, values[i]));
    Draft(opts.projectId, opts.sequence.id, opts.sequence.title, version, now, now,
          opts.sequence.fyStart, opts.sequence.fyEnd, |stages|, stages, opts.provenance)
  }

  /** The number of keys of a set of strings listed once each by a sequence equals the sequence's length. */
  lemma {:induction false} DistinctCard(order: seq<string>, keys: set<string>)
    requires Distinct(order) && forall k :: k in order <==> k in keys
    ensures |keys| == |order|
  {
    if |order| > 0 {
      var last := order[|order| - 1];
      var init := order[..|order| - 1];
      assert forall k :: k in init <==> k in keys - {last} by {
        forall k ensures k in init <==> k in keys - {last} {
          if k in init {
            var j :| 0 <= j < |init| && init[j] == k;
            assert order[j] == k;
          }
          if k in keys - {last} {
            var j :| 0 <= j < |order| && order[j] == k;
            assert j < |order| - 1;
            assert init[j] == k;
          }
        }
      }
      DistinctCard(init, keys - {last});
    } else {
      assert forall k :: k !in keys;
      assert keys == {};
    }
  }

  /**
   * The draft has one stage per entry of the stage map, each stage at least
   * a month long, with the stage ids in the map's order.
   */
  lemma DraftFacts(opts: Options, now: string)
    requires StageMapOk(opts.stageMap)
    ensures var d := BuildSequenceDraft(opts, now);
            d.stageCount == |opts.stageMap.byId| &&
            (forall s :: s in d.stages ==> s.durationMonths >= 1) &&
            (forall i :: 0 <= i < |d.stages| ==> d.stages[i].stageId == opts.stageMap.byId[opts.stageMap.order[i]].stageId)
  {
    DistinctCard(opts.stageMap.order, opts.stageMap.byId.Keys);
  }

  /** A stage starting in fiscal years 2000 to 2099 carries a start label read back as its start year. */
  lemma StartLabelYear(opts: Options, version: string, stage: Collisions.Stage)
    requires 2000 * 12 <= stage.startIndex < 2100 * 12
    ensures Collisions.ParseFiscalYear(Some(BuildStage(opts, version, stage).startLabel)) == Some(Collisions.FiscalYearOf(stage.startIndex))
  {
    Collisions.FormatFiscalMonthRoundTrip(stage.startIndex);
  }
}
