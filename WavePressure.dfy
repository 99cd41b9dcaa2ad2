/**
 * The wave pressure matrix of the sequencer scene
 * (src/components/experience/scenes/SequencerScene.tsx,
 * `computeWavePressureMatrix` and its helpers).
 *
 * Every collision between stages of two different waves adds a score of
 * at most 100 to the pair of waves; the matrix then gives each wave the
 * list of waves it is under pressure from, each with the pair's score, and
 * its own score is its worst pair.
 */
module WavePressure {
  import opened Common
  import opened Text
  import Collisions
  import SceneHelpers

  const WavePressureMax := 100
  const ChangeKeywords: seq<string> := ["decouple", "retire", "sunset", "replace", "decommission", "cutover"]
  const DualRunKeywords: seq<string> := ["dual-run", "dual run", "parallel run", "bridge run", "dual operations"]

  /** The fields of a timed stage the matrix reads. */
  datatype WaveStage = WaveStage(
    stageId: string,
    title: Option<string>,
    waveId: Option<string>,
    waveLabel: Option<string>,
    notes: Option<string>)

  // ---------------------------------------------------------------- the score of one collision

  datatype Signals = Signals(hasHeavyChange: bool, hasDualRun: bool)

  /** `keywords.some((keyword) => haystack.includes(keyword))`. */
  function MentionsAny(haystack: string, keywords: seq<string>): (r: bool)
    ensures r <==> exists k :: k in keywords && Contains(haystack, k)
  {
    if |keywords| == 0 then false
    else
      assert forall k :: k in keywords ==> k == keywords[0] || k in keywords[1..];
      Contains(haystack, keywords[0]) || MentionsAny(haystack, keywords[1..])
  }

  /** The title and the notes, joined by a space and lower-cased. */
  function Haystack(stage: WaveStage): string
  {
    Lower(stage.title.GetOr("") + " " + stage.notes.GetOr(""))
  }

  /** `detectStageSignals`: no stage, no signal. */
  function DetectStageSignals(stage: Option<WaveStage>): (r: Signals)
    ensures stage.None? ==> r == Signals(false, false)
  {
    if stage.None? then Signals(false, false)
    else Signals(MentionsAny(Haystack(stage.value), ChangeKeywords), MentionsAny(Haystack(stage.value), DualRunKeywords))
  }

  /** A title mentioning a change keyword in any letter case marks the stage as heavy change. */
  lemma TitleSignalsHeavyChange(stage: WaveStage, keyword: string)
    requires stage.title.Some? && keyword in ChangeKeywords
    requires Contains(Lower(stage.title.value), keyword)
    ensures DetectStageSignals(Some(stage)).hasHeavyChange
  {
    var t := stage.title.value;
    LowerAppend(t, " " + stage.notes.GetOr(""));
    assert Haystack(stage) == Lower(t) + Lower(" " + stage.notes.GetOr(""));
    assert Haystack(stage)[0..|Lower(t)|] == Lower(t);
    ContainsInSlice(Haystack(stage), 0, |Lower(t)|, keyword);
  }

  /** A title mentioning a dual-run keyword in any letter case marks the stage as dual run. */
  lemma TitleSignalsDualRun(stage: WaveStage, keyword: string)
    requires stage.title.Some? && keyword in DualRunKeywords
    requires Contains(Lower(stage.title.value), keyword)
    ensures DetectStageSignals(Some(stage)).hasDualRun
  {
    var t := stage.title.value;
    LowerAppend(t, " " + stage.notes.GetOr(""));
    assert Haystack(stage) == Lower(t) + Lower(" " + stage.notes.GetOr(""));
    assert Haystack(stage)[0..|Lower(t)|] == Lower(t);
    ContainsInSlice(Haystack(stage), 0, |Lower(t)|, keyword);
  }

  function SeverityBonus(s: Collisions.Severity): int
  {
    match s
    case High => 15
    case Medium => 5
    case Low => 0
  }

  /** The uncapped score: 30 per shared system, 20 per shared integration, 10 for shared domains, then the signals and the severity. */
  function RawScore(a: WaveStage, b: WaveStage, c: Collisions.Collision): int
  {
    var sa := DetectStageSignals(Some(a));
    var sb := DetectStageSignals(Some(b));
    |c.sharedSystems| * 30 + |c.sharedIntegrations| * 20 + (if |c.sharedDomains| > 0 then 10 else 0)
    + (if sa.hasHeavyChange || sb.hasHeavyChange then 25 else 0)
    + (if sa.hasDualRun || sb.hasDualRun then 15 else 0)
    + SeverityBonus(c.severity)
  }

  /** No pressure at all: nothing shared, no signal on either stage, and a low severity. */
  predicate Quiet(a: WaveStage, b: WaveStage, c: Collisions.Collision)
  {
    var sa := DetectStageSignals(Some(a));
    var sb := DetectStageSignals(Some(b));
    |c.sharedSystems| == 0 && |c.sharedIntegrations| == 0 && |c.sharedDomains| == 0 &&
    !sa.hasHeavyChange && !sb.hasHeavyChange && !sa.hasDualRun && !sb.hasDualRun && c.severity == Collisions.Low
  }

  /** `scoreWaveCollision`: capped at 100, and zero exactly for a quiet collision. */
  function ScoreWaveCollision(a: WaveStage, b: WaveStage, c: Collisions.Collision): (r: int)
    ensures 0 <= r <= WavePressureMax
    ensures r == 0 <==> Quiet(a, b, c)
  {
    MinInt(WavePressureMax, RawScore(a, b, c))
  }

  /** The score does not depend on which stage of the collision comes first. */
  lemma ScoreSymmetric(a: WaveStage, b: WaveStage, c: Collisions.Collision)
    ensures ScoreWaveCollision(a, b, c) == ScoreWaveCollision(b, a, c)
  {
  }

  /** Each shared system adds 30 until the cap. */
  lemma ScoreGrowsWithSystems(a: WaveStage, b: WaveStage, c: Collisions.Collision, extra: string)
    ensures ScoreWaveCollision(a, b, c.(sharedSystems := c.sharedSystems + [extra])) ==
            MinInt(WavePressureMax, RawScore(a, b, c) + 30)
  {
  }

  // ---------------------------------------------------------------- lane labels

  /** `segment.charAt(0).toUpperCase() + segment.slice(1)`. */
  function Capitalize(w: string): (r: string)
    ensures |r| == |w|
    ensures forall i :: 1 <= i < |w| ==> r[i] == w[i]
  {
    if |w| == 0 then w else [UpperChar(w[0])] + w[1..]
  }

  function CapitalizeAll(parts: seq<string>): (r: seq<string>)
    ensures |r| == |parts|
    ensures forall i :: 0 <= i < |r| ==> r[i] == Capitalize(parts[i])
  {
    if |parts| == 0 then [] else [Capitalize(parts[0])] + CapitalizeAll(parts[1..])
  }

  predicate LaneSep(c: char) { c == '-' || c == '_' }

  /**
   * `parts.filter(Boolean)`, modelled by `DropEmpty`: the non-empty parts in
   * order, as many as there are, a subsequence of the parts.
   */
  lemma {:induction false} KeepsTruthy(parts: seq<string>)
    ensures DropEmpty(parts) == Filter(parts, Truthy)
    ensures |DropEmpty(parts)| == CountWhere(parts, Truthy)
    ensures IsSubsequence(DropEmpty(parts), parts)
  {
    if |parts| > 0 {
      KeepsTruthy(parts[1..]);
      FilterAppend([parts[0]], parts[1..], Truthy);
      assert [parts[0]][..0] == [];
      assert parts == [parts[0]] + parts[1..];
    }
  }

  /** The non-empty pieces of a split at `-` and `_` are the words between runs of them. */
  lemma LaneWords(s: string)
    ensures DropEmpty(Split(s, {'-', '_'})) == Runs(s, LaneSep)
  {
    SplitWords(s, {'-', '_'}, LaneSep);
  }

  /** `formatLaneLabel`: the wave id's segments between `-` and `_`, capitalized and joined by spaces; else the fallback; else "Wave". */
  function FormatLaneLabel(waveId: Option<string>, fallbackLabel: Option<string>): (r: string)
    ensures SceneHelpers.Given(waveId) ==> '-' !in r && '_' !in r
    ensures SceneHelpers.Given(waveId) ==> r == Join(CapitalizeAll(Runs(waveId.value, LaneSep)), " ")
    ensures !SceneHelpers.Given(waveId) && SceneHelpers.Given(fallbackLabel) ==> r == fallbackLabel.value
    ensures !SceneHelpers.Given(waveId) && !SceneHelpers.Given(fallbackLabel) ==> r == "Wave"
  {
    if SceneHelpers.Given(waveId) then
      var words := CapitalizeAll(DropEmpty(Split(waveId.value, {'-', '_'})));
      WordsAvoid(DropEmpty(Split(waveId.value, {'-', '_'})));
      JoinAvoids(words, " ", {'-', '_'});
      LaneWords(waveId.value);
      Join(words, " ")
    else if SceneHelpers.Given(fallbackLabel) then fallbackLabel.value
    else "Wave"
  }

  /** Capitalizing words free of `-` and `_` keeps them free of both. */
  lemma WordsAvoid(parts: seq<string>)
    requires forall x :: x in parts ==> '-' !in x && '_' !in x
    ensures forall w :: w in CapitalizeAll(parts) ==> '-' !in w && '_' !in w
  {
    var r := CapitalizeAll(parts);
    forall w | w in r
      ensures '-' !in w && '_' !in w
    {
      var i :| 0 <= i < |r| && r[i] == w;
      assert parts[i] in parts;
      if |parts[i]| > 0 {
        assert w[0] == UpperChar(parts[i][0]) && parts[i][0] in parts[i];
        forall j | 0 <= j < |w| ensures w[j] != '-' && w[j] != '_' {
          assert j == 0 || parts[i][j] in parts[i];
        }
      }
    }
  }

  /** Joining words free of some characters with a separator free of them gives a string free of them. */
  lemma {:induction false} JoinAvoids(parts: seq<string>, sep: string, bad: set<char>)
    requires forall x, c :: x in parts && c in x ==> c !in bad
    requires forall c :: c in sep ==> c !in bad
    ensures forall c :: c in Join(parts, sep) ==> c !in bad
  {
    if |parts| > 1 {
      assert forall x :: x in parts[1..] ==> x in parts;
      JoinAvoids(parts[1..], sep, bad);
      assert parts[0] in parts;
    } else if |parts| == 1 {
      assert parts[0] in parts;
    }
  }

  // ---------------------------------------------------------------- wave labels

  /** The stage map: its keys in insertion order and its entries. */
  datatype StageMap = StageMap(order: seq<string>, byId: map<string, WaveStage>)

  function KeyOf(s: WaveStage): string
  {
    SceneHelpers.WaveKey(s.waveId, s.waveLabel)
  }

  /** `stage.waveLabel ?? formatLaneLabel(stage.waveId, stage.waveLabel)`. */
  function StageLaneLabel(s: WaveStage): string
  {
    if s.waveLabel.Some? then s.waveLabel.value else FormatLaneLabel(s.waveId, s.waveLabel)
  }

  /** `Array.from(stageMap.values())`. */
  function Values(m: StageMap): (r: seq<WaveStage>)
    requires forall k :: k in m.order ==> k in m.byId
    ensures |r| == |m.order|
    ensures forall i :: 0 <= i < |r| ==> r[i] == m.byId[m.order[i]]
  {
    seq(|m.order|, i requires 0 <= i < |m.order| => m.byId[m.order[i]])
  }

  /** The wave key of each stage. */
  function KeysOf(stages: seq<WaveStage>): (r: seq<string>)
    ensures |r| == |stages|
    ensures forall t :: 0 <= t < |stages| ==> r[t] == KeyOf(stages[t])
  {
    seq(|stages|, t requires 0 <= t < |stages| => KeyOf(stages[t]))
  }

  /** The lane label of each stage. */
  function LaneLabelsOf(stages: seq<WaveStage>): (r: seq<string>)
    ensures |r| == |stages|
    ensures forall t :: 0 <= t < |stages| ==> r[t] == StageLaneLabel(stages[t])
  {
    seq(|stages|, t requires 0 <= t < |stages| => StageLaneLabel(stages[t]))
  }

  /** `laneLabel` is the label at the first of the first `n` positions whose key is `k`. */
  ghost predicate FirstLabel(keys: seq<string>, laneLabels: seq<string>, n: int, k: string, laneLabel: string)
    requires |keys| == |laneLabels|
  {
    exists t :: 0 <= t < n && t < |keys| && keys[t] == k && laneLabel == laneLabels[t] &&
      forall u :: 0 <= u < t ==> keys[u] != k
  }

  /**
   * The label loop of `computeWavePressureMatrix`, given the wave key and
   * the lane label of each stage in map order: every wave gets the label of
   * its first stage.
   */
  method WaveLabels(keys: seq<string>, laneLabels: seq<string>) returns (labels: map<string, string>)
    requires |keys| == |laneLabels|
    ensures forall t :: 0 <= t < |keys| ==> keys[t] in labels
    ensures forall k :: k in labels ==> FirstLabel(keys, laneLabels, |keys|, k, labels[k])
  {
    labels := map[];
    for i := 0 to |keys|
      invariant forall t :: 0 <= t < i ==> keys[t] in labels
      invariant forall k :: k in labels ==> FirstLabel(keys, laneLabels, i, k, labels[k])
    {
      var key := keys[i];
      FirstLabelsGrow(keys, laneLabels, i, labels);
      if key !in labels {
        FirstLabelNew(keys, laneLabels, i, key);
        labels := labels[key := laneLabels[i]];
      }
    }
  }

  lemma FirstLabelsGrow(keys: seq<string>, laneLabels: seq<string>, i: int, labels: map<string, string>)
    requires |keys| == |laneLabels|
    requires forall k :: k in labels ==> FirstLabel(keys, laneLabels, i, k, labels[k])
    ensures forall k :: k in labels ==> FirstLabel(keys, laneLabels, i + 1, k, labels[k])
  {
    forall k | k in labels
      ensures FirstLabel(keys, laneLabels, i + 1, k, labels[k])
    {
      var t :| 0 <= t < i && t < |keys| && keys[t] == k && labels[k] == laneLabels[t] &&
        forall u :: 0 <= u < t ==> keys[u] != k;
    }
  }

  lemma FirstLabelNew(keys: seq<string>, laneLabels: seq<string>, i: int, key: string)
    requires |keys| == |laneLabels| && 0 <= i < |keys| && key == keys[i]
    requires forall u :: 0 <= u < i ==> keys[u] != key
    ensures FirstLabel(keys, laneLabels, i + 1, key, laneLabels[i])
  {
  }

  // ---------------------------------------------------------------- pair buckets

  /** An insertion-ordered set of strings (`Set<string>`). */
  function AddAll(set_: seq<string>, xs: seq<string>): (r: seq<string>)
    requires Distinct(set_)
    ensures Distinct(r)
    ensures forall x :: x in r <==> x in set_ || x in xs
    ensures set_ <= r
    decreases |xs|
  {
    if |xs| == 0 then set_
    else if xs[0] in set_ then
      assert forall x :: x in xs ==> x == xs[0] || x in xs[1..];
      AddAll(set_, xs[1..])
    else
      assert forall x :: x in xs ==> x == xs[0] || x in xs[1..];
      AddAll(set_ + [xs[0]], xs[1..])
  }

  /** The accumulator of one pair of waves; `aKey` and `bKey` are the waves of its first collision. */
  datatype Bucket = Bucket(
    aKey: string,
    bKey: string,
    score: int,
    sharedSystems: seq<string>,
    sharedIntegrations: seq<string>,
    sharedDomains: seq<string>,
    overlapWindows: seq<string>,
    highestSeverity: Option<Collisions.Severity>)

  predicate BucketSetsOk(b: Bucket)
  {
    Distinct(b.sharedSystems) && Distinct(b.sharedIntegrations) && Distinct(b.sharedDomains) && Distinct(b.overlapWindows)
  }

  function NewBucket(aKey: string, bKey: string): (b: Bucket)
    ensures BucketSetsOk(b)
  {
    Bucket(aKey, bKey, 0, [], [], [], [], None)
  }

  /** `${collision.overlap.fyStart} → ${collision.overlap.fyEnd}`. */
  function OverlapWindow(c: Collisions.Collision): string
  {
    c.overlapStart + " \U{2192} " + c.overlapEnd
  }

  /** Adding one collision to its pair's bucket: the score grows by its increment up to 100, the sets take its members, and the severity is the highest seen. */
  function Absorb(b: Bucket, c: Collisions.Collision, increment: int): (r: Bucket)
    requires BucketSetsOk(b)
    ensures BucketSetsOk(r)
    ensures r.aKey == b.aKey && r.bKey == b.bKey
    ensures 0 <= b.score <= WavePressureMax && 0 <= increment <= WavePressureMax ==>
              MaxInt(b.score, increment) <= r.score <= WavePressureMax
    // the score is the sum, capped at 100
    ensures r.score <= WavePressureMax && r.score <= b.score + increment
    ensures r.score == b.score + increment || r.score == WavePressureMax
    // each set is the union of the old set and the collision's members, old members first
    ensures b.sharedSystems <= r.sharedSystems && forall x :: x in r.sharedSystems <==> x in b.sharedSystems || x in c.sharedSystems
    ensures b.sharedIntegrations <= r.sharedIntegrations &&
            forall x :: x in r.sharedIntegrations <==> x in b.sharedIntegrations || x in c.sharedIntegrations
    ensures b.sharedDomains <= r.sharedDomains && forall x :: x in r.sharedDomains <==> x in b.sharedDomains || x in c.sharedDomains
    ensures b.overlapWindows <= r.overlapWindows && forall x :: x in r.overlapWindows <==> x in b.overlapWindows || x == OverlapWindow(c)
    // the severity is the higher of the old one and the collision's; a tie keeps the old one
    ensures r.highestSeverity.Some? && Collisions.SeverityRank(c.severity) <= Collisions.SeverityRank(r.highestSeverity.value)
    ensures b.highestSeverity.Some? ==> Collisions.SeverityRank(b.highestSeverity.value) <= Collisions.SeverityRank(r.highestSeverity.value)
    ensures r.highestSeverity == b.highestSeverity || r.highestSeverity == Some(c.severity)
    ensures b.highestSeverity.Some? && Collisions.SeverityRank(c.severity) <= Collisions.SeverityRank(b.highestSeverity.value) ==>
              r.highestSeverity == b.highestSeverity
  {
    var higher := b.highestSeverity.None? || Collisions.SeverityRank(c.severity) > Collisions.SeverityRank(b.highestSeverity.value);
    Bucket(b.aKey, b.bKey,
           MinInt(WavePressureMax, b.score + increment),
           AddAll(b.sharedSystems, c.sharedSystems),
           AddAll(b.sharedIntegrations, c.sharedIntegrations),
           AddAll(b.sharedDomains, c.sharedDomains),
           AddAll(b.overlapWindows, [OverlapWindow(c)]),
           if higher then Some(c.severity) else b.highestSeverity)
  }

  /** The pair of waves a collision weighs on, and by how much. */
  datatype Edge = Edge(aKey: string, bKey: string, increment: int)

  /**
   * The guards of the collision loop: both stages are in the map, on
   * different waves, and the collision scores above zero. Otherwise the
   * collision is skipped.
   */
  function Weigh(stages: StageMap, c: Collisions.Collision): (r: Option<Edge>)
    ensures r.Some? ==> r.value.aKey != r.value.bKey && 1 <= r.value.increment <= WavePressureMax
  {
    if c.aStageId !in stages.byId || c.bStageId !in stages.byId then None
    else
      var stageA := stages.byId[c.aStageId];
      var stageB := stages.byId[c.bStageId];
      var aKey := KeyOf(stageA);
      var bKey := KeyOf(stageB);
      var increment := ScoreWaveCollision(stageA, stageB, c);
      if aKey == bKey || increment == 0 then None else Some(Edge(aKey, bKey, increment))
  }

  /** A collision counts exactly when both its stages exist, lie on different waves and it is not quiet. */
  lemma WeighCounts(stages: StageMap, c: Collisions.Collision)
    ensures Weigh(stages, c).Some? <==>
            c.aStageId in stages.byId && c.bStageId in stages.byId &&
            KeyOf(stages.byId[c.aStageId]) != KeyOf(stages.byId[c.bStageId]) &&
            !Quiet(stages.byId[c.aStageId], stages.byId[c.bStageId], c)
  {
  }

  /**
   * The bucket key: the sorted keys joined by "__" name the same pair
   * whichever way round, so the pair is unordered; wave keys are slugs and
   * contain no "_" (`SceneHelpers.SlugHasNoUnderscore`), so distinct pairs
   * never share a joined key.
   */
  function PairKey(e: Edge): set<string>
  {
    {e.aKey, e.bKey}
  }

  /** The weighed edge of each collision. */
  function EdgesOf(stages: StageMap, collisions: seq<Collisions.Collision>): (r: seq<Option<Edge>>)
    ensures |r| == |collisions|
    ensures forall j :: 0 <= j < |collisions| ==> r[j] == Weigh(stages, collisions[j])
  {
    seq(|collisions|, j requires 0 <= j < |collisions| => Weigh(stages, collisions[j]))
  }

  ghost predicate EdgesOk(edges: seq<Option<Edge>>)
  {
    forall j :: 0 <= j < |edges| && edges[j].Some? ==>
      edges[j].value.aKey != edges[j].value.bKey && 1 <= edges[j].value.increment <= WavePressureMax
  }

  /** The sum of the increments of the counted collisions among the first `n` between the waves of `key`. */
  function PairSum(edges: seq<Option<Edge>>, key: set<string>, n: nat): int
    requires n <= |edges|
  {
    if n == 0 then 0
    else PairSum(edges, key, n - 1) + (if edges[n - 1].Some? && PairKey(edges[n - 1].value) == key then edges[n - 1].value.increment else 0)
  }

  /** The same sum as the loop accumulates it, capped at 100 after every step. */
  function CappedTotal(edges: seq<Option<Edge>>, key: set<string>, n: nat): int
    requires n <= |edges|
  {
    if n == 0 then 0
    else if edges[n - 1].Some? && PairKey(edges[n - 1].value) == key then
      MinInt(WavePressureMax, CappedTotal(edges, key, n - 1) + edges[n - 1].value.increment)
    else CappedTotal(edges, key, n - 1)
  }

  /** Capping after every step is capping once: increments are never negative. */
  lemma {:induction false} CappedTotalIsCappedSum(edges: seq<Option<Edge>>, key: set<string>, n: nat)
    requires n <= |edges| && EdgesOk(edges)
    ensures CappedTotal(edges, key, n) == MinInt(WavePressureMax, PairSum(edges, key, n))
    ensures 0 <= PairSum(edges, key, n)
  {
    if n > 0 {
      CappedTotalIsCappedSum(edges, key, n - 1);
    }
  }

  /** No counted collision of the pair among the first `n`: nothing accumulated. */
  lemma {:induction false} CappedTotalNone(edges: seq<Option<Edge>>, key: set<string>, n: nat)
    requires n <= |edges|
    requires forall j :: 0 <= j < n && edges[j].Some? ==> PairKey(edges[j].value) != key
    ensures CappedTotal(edges, key, n) == 0
  {
    if n > 0 {
      CappedTotalNone(edges, key, n - 1);
    }
  }

  type Buckets = map<set<string>, Bucket>

  /** Every bucket is keyed by its own two distinct waves and holds a score in 1..100. */
  ghost predicate BucketsShaped(buckets: Buckets)
  {
    forall k :: k in buckets ==>
      k == {buckets[k].aKey, buckets[k].bKey} && buckets[k].aKey != buckets[k].bKey &&
      1 <= buckets[k].score <= WavePressureMax && BucketSetsOk(buckets[k])
  }

  /** Every bucket comes from a counted collision among the first `n`. */
  ghost predicate BucketsSound(edges: seq<Option<Edge>>, n: int, buckets: Buckets)
  {
    forall k :: k in buckets ==>
      exists j :: 0 <= j < n && j < |edges| && edges[j].Some? && PairKey(edges[j].value) == k
  }

  /** Every bucket's score is what its pair's collisions among the first `n` accumulate. */
  ghost predicate BucketsScored(edges: seq<Option<Edge>>, n: nat, buckets: Buckets)
    requires n <= |edges|
  {
    forall k :: k in buckets ==> buckets[k].score == CappedTotal(edges, k, n)
  }

  /** Every counted collision among the first `n` has its pair's bucket, scored at least its own score and holding its shared systems. */
  ghost predicate BucketsComplete(edges: seq<Option<Edge>>, collisions: seq<Collisions.Collision>, n: int, buckets: Buckets)
    requires |edges| == |collisions|
  {
    forall j :: 0 <= j < n && j < |edges| && edges[j].Some? ==>
      PairKey(edges[j].value) in buckets &&
      buckets[PairKey(edges[j].value)].score >= edges[j].value.increment &&
      (forall x :: x in collisions[j].sharedSystems ==> x in buckets[PairKey(edges[j].value)].sharedSystems)
  }

  ghost predicate Ordered<K(!new)>(order: seq<K>, keys: set<K>)
  {
    Distinct(order) && forall k :: k in order <==> k in keys
  }

  lemma OrderedMembers<K(!new)>(order: seq<K>, keys: set<K>)
    requires Ordered(order, keys)
    ensures forall t :: 0 <= t < |order| ==> order[t] in keys
  {
  }

  /**
   * The collision loop of `computeWavePressureMatrix`, given each
   * collision's weighed edge: the buckets of the pairs of waves, in order
   * of first collision.
   */
  method CollectPairs(collisions: seq<Collisions.Collision>, edges: seq<Option<Edge>>) returns (buckets: Buckets, order: seq<set<string>>)
    requires |edges| == |collisions| && EdgesOk(edges)
    ensures BucketsShaped(buckets) && Ordered(order, buckets.Keys)
    ensures BucketsSound(edges, |edges|, buckets)
    ensures BucketsComplete(edges, collisions, |edges|, buckets)
    ensures BucketsScored(edges, |edges|, buckets)
  {
    buckets := map[];
    order := [];
    for i := 0 to |collisions|
      invariant Collected(collisions, edges, i, buckets, order)
    {
      buckets, order := CollectStep(collisions, edges, i, buckets, order);
    }
  }

  /** The state of the collision loop after the first `n` collisions. */
  ghost predicate Collected(collisions: seq<Collisions.Collision>, edges: seq<Option<Edge>>, n: nat, buckets: Buckets, order: seq<set<string>>)
    requires |edges| == |collisions| && n <= |edges|
  {
    && BucketsShaped(buckets) && Ordered(order, buckets.Keys)
    && BucketsSound(edges, n, buckets)
    && BucketsComplete(edges, collisions, n, buckets)
    && BucketsScored(edges, n, buckets)
  }

  /** One collision of the loop. */
  method CollectStep(collisions: seq<Collisions.Collision>, edges: seq<Option<Edge>>, i: nat, buckets0: Buckets, order0: seq<set<string>>)
    returns (buckets: Buckets, order: seq<set<string>>)
    requires |edges| == |collisions| && EdgesOk(edges) && i < |collisions|
    requires Collected(collisions, edges, i, buckets0, order0)
    ensures Collected(collisions, edges, i + 1, buckets, order)
  {
    buckets, order := buckets0, order0;
    if edges[i].None? {
      return;
    }
    var c := collisions[i];
    var e := edges[i].value;
    var pairKey := {e.aKey, e.bKey};
    var bucket := if pairKey in buckets then buckets[pairKey] else NewBucket(e.aKey, e.bKey);
    if pairKey !in buckets {
      order := order + [pairKey];
      CappedTotalNone(edges, pairKey, i);
    }
    var absorbed := Absorb(bucket, c, e.increment);
    StepShaped(buckets0, pairKey, absorbed);
    StepSound(edges, i, buckets0, pairKey, absorbed);
    StepScored(edges, i, buckets0, pairKey, absorbed);
    StepComplete(edges, collisions, i, buckets0, pairKey, absorbed);
    buckets := buckets0[pairKey := absorbed];
  }

  /** Storing a well-shaped bucket under its own pair keeps the buckets well shaped. */
  lemma StepShaped(buckets0: Buckets, pairKey: set<string>, b: Bucket)
    requires BucketsShaped(buckets0)
    requires pairKey == {b.aKey, b.bKey} && b.aKey != b.bKey
    requires 1 <= b.score <= WavePressureMax && BucketSetsOk(b)
    ensures BucketsShaped(buckets0[pairKey := b])
  {
  }

  /** Storing the bucket of collision `i` keeps every bucket traced to a counted collision. */
  lemma StepSound(edges: seq<Option<Edge>>, i: nat, buckets0: Buckets, pairKey: set<string>, b: Bucket)
    requires i < |edges| && edges[i].Some? && PairKey(edges[i].value) == pairKey
    requires BucketsSound(edges, i, buckets0)
    ensures BucketsSound(edges, i + 1, buckets0[pairKey := b])
  {
    var buckets := buckets0[pairKey := b];
    forall k | k in buckets
      ensures exists j :: 0 <= j < i + 1 && j < |edges| && edges[j].Some? && PairKey(edges[j].value) == k
    {
      if k != pairKey {
        assert k in buckets0;
      }
    }
  }

  /** Adding collision `i`'s increment, capped, to its pair's score keeps every score the capped total. */
  lemma StepScored(edges: seq<Option<Edge>>, i: nat, buckets0: Buckets, pairKey: set<string>, b: Bucket)
    requires i < |edges| && edges[i].Some? && PairKey(edges[i].value) == pairKey
    requires BucketsScored(edges, i, buckets0)
    requires pairKey !in buckets0 ==> CappedTotal(edges, pairKey, i) == 0
    requires b.score == MinInt(WavePressureMax, (if pairKey in buckets0 then buckets0[pairKey].score else 0) + edges[i].value.increment)
    ensures BucketsScored(edges, i + 1, buckets0[pairKey := b])
  {
    var buckets := buckets0[pairKey := b];
    forall k | k in buckets
      ensures buckets[k].score == CappedTotal(edges, k, i + 1)
    {
      if k != pairKey {
        assert k in buckets0;
      }
    }
  }

  /** A bucket that grows by collision `i` keeps every counted collision covered, and covers `i`. */
  lemma StepComplete(edges: seq<Option<Edge>>, collisions: seq<Collisions.Collision>, i: nat, buckets0: Buckets,
                     pairKey: set<string>, b: Bucket)
    requires |edges| == |collisions| && i < |edges| && edges[i].Some? && PairKey(edges[i].value) == pairKey
    requires BucketsComplete(edges, collisions, i, buckets0)
    requires b.score >= edges[i].value.increment
    requires forall x :: x in collisions[i].sharedSystems ==> x in b.sharedSystems
    requires pairKey in buckets0 ==>
               b.score >= buckets0[pairKey].score &&
               forall x :: x in buckets0[pairKey].sharedSystems ==> x in b.sharedSystems
    ensures BucketsComplete(edges, collisions, i + 1, buckets0[pairKey := b])
  {
    var buckets := buckets0[pairKey := b];
    forall j | 0 <= j < i + 1 && j < |edges| && edges[j].Some?
      ensures PairKey(edges[j].value) in buckets &&
              buckets[PairKey(edges[j].value)].score >= edges[j].value.increment &&
              (forall x :: x in collisions[j].sharedSystems ==> x in buckets[PairKey(edges[j].value)].sharedSystems)
    {
      if j < i && PairKey(edges[j].value) != pairKey {
        assert buckets[PairKey(edges[j].value)] == buckets0[PairKey(edges[j].value)];
      }
    }
  }

  // ---------------------------------------------------------------- the matrix

  datatype Partner = Partner(
    waveId: string,
    waveLabel: string,
    score: int,
    sharedSystems: seq<string>,
    sharedIntegrations: seq<string>,
    sharedDomains: seq<string>,
    highestSeverity: Option<Collisions.Severity>,
    overlapWindows: seq<string>)

  datatype Entry = Entry(waveId: string, waveLabel: string, score: int, partners: seq<Partner>)

  type Entries = map<string, Entry>

  /** The matrix: its wave keys in insertion order and their entries. */
  datatype Matrix = Matrix(order: seq<string>, entries: Entries)

  /** `waveLabelMap.get(key) ?? key`. */
  function LabelOf(labels: map<string, string>, k: string): string
  {
    if k in labels then labels[k] else k
  }

  /** The partner a bucket gives to one of its waves: the other wave, with the pair's score and evidence. */
  function PartnerFor(b: Bucket, other: string, labels: map<string, string>): Partner
  {
    Partner(other, LabelOf(labels, other), b.score, b.sharedSystems, b.sharedIntegrations, b.sharedDomains,
            b.highestSeverity, b.overlapWindows)
  }

  /** `ensureEntry`: an existing entry is kept; a new one starts with score 0 and no partner. */
  function EnsureEntry(m: Entries, k: string, labels: map<string, string>): (r: Entries)
    ensures k in r && r.Keys == m.Keys + {k}
    ensures forall j :: j in m ==> r[j] == m[j]
  {
    if k in m then m else m[k := Entry(k, LabelOf(labels, k), 0, [])]
  }

  /** `entry.partners.push(partner)` and `entry.score = Math.max(entry.score, partner.score)`. */
  function Attach(m: Entries, k: string, p: Partner): (r: Entries)
    requires k in m
    ensures r.Keys == m.Keys
    ensures forall j :: j in m && j != k ==> r[j] == m[j]
  {
    m[k := m[k].(partners := m[k].partners + [p], score := MaxInt(m[k].score, p.score))]
  }

  /** The entry for `k` after `ensureEntry` and one push. */
  function AttachedTo(m: Entries, k: string, p: Partner, labels: map<string, string>): Entry
  {
    var e := if k in m then m[k] else Entry(k, LabelOf(labels, k), 0, []);
    e.(partners := e.partners + [p], score := MaxInt(e.score, p.score))
  }

  /**
   * One bucket of the entries loop, for a bucket of two distinct waves: both
   * waves get an entry, and each gets the other as partner.
   */
  function Link(m: Entries, b: Bucket, labels: map<string, string>): Entries
  {
    m[b.aKey := AttachedTo(m, b.aKey, PartnerFor(b, b.bKey, labels), labels)]
     [b.bKey := AttachedTo(m, b.bKey, PartnerFor(b, b.aKey, labels), labels)]
  }

  /** The highest score among `ps`, 0 when there is none. */
  function MaxScore(ps: seq<Partner>): int
  {
    if |ps| == 0 then 0 else MaxInt(MaxScore(ps[..|ps| - 1]), ps[|ps| - 1].score)
  }

  /** An entry names its own wave, has partners, all on other waves, and its score is its worst partner's, in 1..100. */
  ghost predicate EntryOk(k: string, e: Entry)
  {
    e.waveId == k && |e.partners| > 0 && 1 <= e.score <= WavePressureMax && e.score == MaxScore(e.partners) &&
    (forall p :: p in e.partners ==> p.waveId != k && 1 <= p.score <= e.score)
  }

  ghost predicate EntriesOk(m: Entries)
  {
    forall k :: k in m ==> EntryOk(k, m[k])
  }

  /** Some partner in `ps` is wave `w` with score `score`. */
  predicate Finds(ps: seq<Partner>, w: string, score: int)
  {
    |ps| > 0 && ((ps[|ps| - 1].waveId == w && ps[|ps| - 1].score == score) || Finds(ps[..|ps| - 1], w, score))
  }

  lemma {:induction false} FindsIff(ps: seq<Partner>, w: string, score: int)
    ensures Finds(ps, w, score) <==> exists p :: p in ps && p.waveId == w && p.score == score
  {
    if |ps| > 0 {
      var init := ps[..|ps| - 1];
      FindsIff(init, w, score);
      assert ps == init + [ps[|ps| - 1]];
      assert forall p :: p in ps <==> p in init || p == ps[|ps| - 1];
    }
  }

  ghost predicate HasPartner(m: Entries, k: string, w: string, score: int)
  {
    k in m && Finds(m[k].partners, w, score)
  }

  /** Pressure is mutual: when `w` is a partner of `k`, `k` is a partner of `w` with the same score. */
  ghost predicate Symmetric(m: Entries)
  {
    forall k, p :: k in m && p in m[k].partners ==> HasPartner(m, p.waveId, k, p.score)
  }

  /** Every partner is the one its pair's bucket gives. */
  ghost predicate EntriesSound(m: Entries, buckets: Buckets, labels: map<string, string>)
  {
    forall k, p :: k in m && p in m[k].partners ==>
      {k, p.waveId} in buckets && p == PartnerFor(buckets[{k, p.waveId}], p.waveId, labels)
  }

  /** Every entry carries its wave's label. */
  ghost predicate Labelled(m: Entries, labels: map<string, string>)
  {
    forall k :: k in m ==> m[k].waveLabel == LabelOf(labels, k)
  }

  /** The first `n` buckets are linked both ways. */
  ghost predicate EntriesComplete(m: Entries, buckets: Buckets, order: seq<set<string>>, n: int)
    requires forall t :: 0 <= t < |order| ==> order[t] in buckets
  {
    forall t :: 0 <= t < n && t < |order| ==>
      HasPartner(m, buckets[order[t]].aKey, buckets[order[t]].bKey, buckets[order[t]].score) &&
      HasPartner(m, buckets[order[t]].bKey, buckets[order[t]].aKey, buckets[order[t]].score)
  }

  /** Partners are only ever appended. */
  ghost predicate Extends(m: Entries, r: Entries)
  {
    forall k :: k in m ==> k in r && m[k].partners <= r[k].partners
  }

  lemma HasPartnerPersists(m: Entries, r: Entries, k: string, w: string, score: int)
    requires Extends(m, r) && HasPartner(m, k, w, score)
    ensures HasPartner(r, k, w, score)
  {
    FindsIff(m[k].partners, w, score);
    FindsIff(r[k].partners, w, score);
    var p :| p in m[k].partners && p.waveId == w && p.score == score;
    var i :| 0 <= i < |m[k].partners| && m[k].partners[i] == p;
    assert r[k].partners[i] == p;
  }

  lemma AttachedOk(m: Entries, k: string, p: Partner, labels: map<string, string>)
    requires k in m ==> EntryOk(k, m[k])
    requires p.waveId != k && 1 <= p.score <= WavePressureMax
    ensures EntryOk(k, AttachedTo(m, k, p, labels))
  {
    if k in m {
      PushOk(k, m[k], p);
    } else {
      FirstPartnerOk(k, LabelOf(labels, k), p);
    }
  }

  /** Pushing a partner onto a sound entry keeps it sound. */
  lemma PushOk(k: string, e: Entry, p: Partner)
    requires EntryOk(k, e)
    requires p.waveId != k && 1 <= p.score <= WavePressureMax
    ensures EntryOk(k, e.(partners := e.partners + [p], score := MaxInt(e.score, p.score)))
  {
    var ps := e.partners + [p];
    assert ps[..|ps| - 1] == e.partners;
    assert forall x :: x in ps ==> x in e.partners || x == p;
  }

  /** A new entry with one partner is sound. */
  lemma FirstPartnerOk(k: string, waveLabel: string, p: Partner)
    requires p.waveId != k && 1 <= p.score <= WavePressureMax
    ensures EntryOk(k, Entry(k, waveLabel, MaxInt(0, p.score), [p]))
  {
    assert [p][..0] == [];
  }


  /** After one push the entry's partners are its old ones and the new one. */
  lemma AttachedPartners(m: Entries, k: string, q: Partner, labels: map<string, string>, p: Partner)
    requires p in AttachedTo(m, k, q, labels).partners
    ensures (k in m && p in m[k].partners) || p == q
  {
  }

  /** Linking one bucket keeps every entry well formed and only appends partners. */
  lemma LinkOk(m: Entries, b: Bucket, labels: map<string, string>)
    requires EntriesOk(m) && b.aKey != b.bKey && 1 <= b.score <= WavePressureMax
    ensures EntriesOk(Link(m, b, labels)) && Extends(m, Link(m, b, labels))
  {
    var r := Link(m, b, labels);
    forall k | k in r
      ensures EntryOk(k, r[k])
    {
      if k == b.bKey {
        AttachedOk(m, b.bKey, PartnerFor(b, b.aKey, labels), labels);
      } else if k == b.aKey {
        AttachedOk(m, b.aKey, PartnerFor(b, b.bKey, labels), labels);
      } else {
        assert r[k] == m[k];
      }
    }
    forall k | k in m
      ensures k in r && m[k].partners <= r[k].partners
    {
    }
  }

  /** A partner after linking is an old partner or one of the two new ones. */
  lemma LinkPartners(m: Entries, b: Bucket, labels: map<string, string>, k: string, p: Partner)
    requires b.aKey != b.bKey
    requires k in Link(m, b, labels) && p in Link(m, b, labels)[k].partners
    ensures (k in m && p in m[k].partners) ||
            (k == b.aKey && p == PartnerFor(b, b.bKey, labels)) ||
            (k == b.bKey && p == PartnerFor(b, b.aKey, labels))
  {
    if k == b.bKey {
      AttachedPartners(m, b.bKey, PartnerFor(b, b.aKey, labels), labels, p);
    } else if k == b.aKey {
      AttachedPartners(m, b.aKey, PartnerFor(b, b.bKey, labels), labels, p);
    }
  }

  /** Linking both ways links the bucket's pair. */
  lemma LinkPair(m: Entries, b: Bucket, labels: map<string, string>)
    requires b.aKey != b.bKey
    ensures HasPartner(Link(m, b, labels), b.aKey, b.bKey, b.score)
    ensures HasPartner(Link(m, b, labels), b.bKey, b.aKey, b.score)
  {
    var r := Link(m, b, labels);
    assert PartnerFor(b, b.bKey, labels) in r[b.aKey].partners;
    assert PartnerFor(b, b.aKey, labels) in r[b.bKey].partners;
    FindsIff(r[b.aKey].partners, b.bKey, b.score);
    FindsIff(r[b.bKey].partners, b.aKey, b.score);
  }

  /** Linking both ways keeps the matrix symmetric. */
  lemma LinkSymmetric(m: Entries, b: Bucket, labels: map<string, string>)
    requires Symmetric(m) && Extends(m, Link(m, b, labels)) && b.aKey != b.bKey
    ensures Symmetric(Link(m, b, labels))
  {
    var r := Link(m, b, labels);
    LinkPair(m, b, labels);
    forall k, p | k in r && p in r[k].partners
      ensures HasPartner(r, p.waveId, k, p.score)
    {
      LinkPartners(m, b, labels, k, p);
      if k in m && p in m[k].partners {
        assert HasPartner(m, p.waveId, k, p.score);
        HasPartnerPersists(m, r, p.waveId, k, p.score);
      }
    }
  }

  /** Linking a bucket of the map keeps every partner the one its bucket gives, and every label. */
  lemma LinkSound(m: Entries, buckets: Buckets, key: set<string>, labels: map<string, string>)
    requires BucketsShaped(buckets) && key in buckets
    requires EntriesSound(m, buckets, labels) && Labelled(m, labels)
    ensures EntriesSound(Link(m, buckets[key], labels), buckets, labels)
    ensures Labelled(Link(m, buckets[key], labels), labels)
  {
    var b := buckets[key];
    var r := Link(m, b, labels);
    forall k, p | k in r && p in r[k].partners
      ensures {k, p.waveId} in buckets && p == PartnerFor(buckets[{k, p.waveId}], p.waveId, labels)
    {
      LinkPartners(m, b, labels, k, p);
      if !(k in m && p in m[k].partners) {
        assert {k, p.waveId} == {b.aKey, b.bKey} == key;
      }
    }
  }

  /** Buckets linked before stay linked, and the new one is linked too. */
  lemma LinkKeepsComplete(m0: Entries, m: Entries, buckets: Buckets, order: seq<set<string>>, j: nat)
    requires forall t :: 0 <= t < |order| ==> order[t] in buckets
    requires j < |order| && Extends(m0, m) && EntriesComplete(m0, buckets, order, j)
    requires HasPartner(m, buckets[order[j]].aKey, buckets[order[j]].bKey, buckets[order[j]].score)
    requires HasPartner(m, buckets[order[j]].bKey, buckets[order[j]].aKey, buckets[order[j]].score)
    ensures EntriesComplete(m, buckets, order, j + 1)
  {
    forall t | 0 <= t < j
      ensures HasPartner(m, buckets[order[t]].aKey, buckets[order[t]].bKey, buckets[order[t]].score)
      ensures HasPartner(m, buckets[order[t]].bKey, buckets[order[t]].aKey, buckets[order[t]].score)
    {
      HasPartnerPersists(m0, m, buckets[order[t]].aKey, buckets[order[t]].bKey, buckets[order[t]].score);
      HasPartnerPersists(m0, m, buckets[order[t]].bKey, buckets[order[t]].aKey, buckets[order[t]].score);
    }
  }

  /** Linking the `j`-th bucket carries every invariant of the entries loop from `j` to `j + 1`. */
  lemma LinkPreserves(buckets: Buckets, order: seq<set<string>>, labels: map<string, string>, j: nat, m0: Entries)
    requires BucketsShaped(buckets) && Ordered(order, buckets.Keys) && j < |order|
    requires EntriesOk(m0) && Symmetric(m0)
    requires EntriesSound(m0, buckets, labels) && Labelled(m0, labels)
    requires EntriesComplete(m0, buckets, order, j)
    ensures var m := Link(m0, buckets[order[j]], labels);
            EntriesOk(m) && Symmetric(m) && EntriesSound(m, buckets, labels) && Labelled(m, labels) &&
            EntriesComplete(m, buckets, order, j + 1)
  {
    var b := buckets[order[j]];
    var m := Link(m0, b, labels);
    assert order[j] in buckets;
    LinkOk(m0, b, labels);
    LinkSymmetric(m0, b, labels);
    LinkSound(m0, buckets, order[j], labels);
    LinkPair(m0, b, labels);
    OrderedMembers(order, buckets.Keys);
    LinkKeepsComplete(m0, m, buckets, order, j);
  }

  /**
   * The entries loop of `computeWavePressureMatrix`: for each bucket in
   * order, `ensureEntry` for both waves, then each wave gets the other as
   * partner and keeps the higher score. Every bucket has a score of at
   * least 1, so the loop's guard against an empty score never skips one.
   */
  method BuildEntries(buckets: Buckets, order: seq<set<string>>, labels: map<string, string>) returns (m: Entries, keys: seq<string>)
    requires BucketsShaped(buckets) && Ordered(order, buckets.Keys)
    ensures Ordered(keys, m.Keys)
    ensures EntriesOk(m) && Symmetric(m)
    ensures EntriesSound(m, buckets, labels) && Labelled(m, labels)
    ensures EntriesComplete(m, buckets, order, |order|)
  {
    m := map[];
    keys := [];
    for j := 0 to |order|
      invariant Ordered(keys, m.Keys)
      invariant EntriesOk(m) && Symmetric(m)
      invariant EntriesSound(m, buckets, labels) && Labelled(m, labels)
      invariant EntriesComplete(m, buckets, order, j)
    {
      assert order[j] in buckets;
      LinkPreserves(buckets, order, labels, j, m);
      m, keys := LinkStep(m, keys, buckets[order[j]], labels);
    }
  }

  /** One bucket of the entries loop, on two distinct waves. */
  method LinkStep(m0: Entries, keys0: seq<string>, bucket: Bucket, labels: map<string, string>) returns (m: Entries, keys: seq<string>)
    requires Ordered(keys0, m0.Keys) && bucket.aKey != bucket.bKey
    ensures m == Link(m0, bucket, labels)
    ensures Ordered(keys, m.Keys)
  {
    var a, b := bucket.aKey, bucket.bKey;
    m, keys := m0, keys0;
    if a !in m {
      keys := keys + [a];
    }
    m := EnsureEntry(m, a, labels);
    if b !in m {
      keys := keys + [b];
    }
    m := EnsureEntry(m, b, labels);
    m := Attach(m, a, PartnerFor(bucket, b, labels));
    m := Attach(m, b, PartnerFor(bucket, a, labels));
    LinkUnfolds(m0, bucket, labels);
  }

  /** `ensureEntry` twice and then two pushes is `Link`. */
  lemma LinkUnfolds(m0: Entries, bucket: Bucket, labels: map<string, string>)
    requires bucket.aKey != bucket.bKey
    ensures var a, b := bucket.aKey, bucket.bKey;
            var m1 := EnsureEntry(EnsureEntry(m0, a, labels), b, labels);
            var m2 := Attach(m1, a, PartnerFor(bucket, b, labels));
            Attach(m2, b, PartnerFor(bucket, a, labels)) == Link(m0, bucket, labels)
  {
    var a, b := bucket.aKey, bucket.bKey;
    var m1 := EnsureEntry(EnsureEntry(m0, a, labels), b, labels);
    var m2 := Attach(m1, a, PartnerFor(bucket, b, labels));
    var m3 := Attach(m2, b, PartnerFor(bucket, a, labels));
    var r := Link(m0, bucket, labels);
    assert m3.Keys == r.Keys;
    forall k | k in r
      ensures m3[k] == r[k]
    {
      if k != a && k != b {
        assert m3[k] == m0[k];
      }
    }
  }

  // ---------------------------------------------------------------- the whole computation

  /** Wave `k` has `w` as partner with a score of at least `increment` and at least the shared systems of `c`. */
  ghost predicate Covers(m: Entries, k: string, w: string, increment: int, c: Collisions.Collision)
  {
    k in m &&
    exists p :: p in m[k].partners && p.waveId == w && p.score >= increment &&
                (forall x :: x in c.sharedSystems ==> x in p.sharedSystems)
  }

  /**
   * Every partner comes from a counted collision between the two waves, and
   * its score is the sum of the increments of all the counted collisions
   * between them, capped at 100.
   */
  ghost predicate MatrixSound(edges: seq<Option<Edge>>, m: Entries)
  {
    forall k, p :: k in m && p in m[k].partners ==>
      Counted(edges, {k, p.waveId}, p.score) && p.score == MinInt(WavePressureMax, PairSum(edges, {k, p.waveId}, |edges|))
  }

  /** Some counted collision is between the waves of `key`, with a score of at most `score`. */
  ghost predicate Counted(edges: seq<Option<Edge>>, key: set<string>, score: int)
  {
    exists j :: 0 <= j < |edges| && edges[j].Some? && PairKey(edges[j].value) == key && score >= edges[j].value.increment
  }

  /** Every counted collision puts each of its waves among the other's partners. */
  ghost predicate MatrixComplete(edges: seq<Option<Edge>>, collisions: seq<Collisions.Collision>, m: Entries)
    requires |edges| == |collisions|
  {
    forall j :: 0 <= j < |edges| && edges[j].Some? ==>
      Covers(m, edges[j].value.aKey, edges[j].value.bKey, edges[j].value.increment, collisions[j]) &&
      Covers(m, edges[j].value.bKey, edges[j].value.aKey, edges[j].value.increment, collisions[j])
  }

  /** Each entry is labelled by the lane label of the first stage of its wave, or by its key when no stage has it. */
  ghost predicate LabelledByStages(keys: seq<string>, laneLabels: seq<string>, m: Entries)
    requires |keys| == |laneLabels|
  {
    forall k :: k in m ==>
      if k in keys then FirstLabel(keys, laneLabels, |keys|, k, m[k].waveLabel) else m[k].waveLabel == k
  }

  lemma EdgesOfOk(stages: StageMap, collisions: seq<Collisions.Collision>)
    ensures EdgesOk(EdgesOf(stages, collisions))
  {
  }

  lemma MatrixSoundFrom(collisions: seq<Collisions.Collision>, edges: seq<Option<Edge>>, buckets: Buckets,
                        labels: map<string, string>, m: Entries)
    requires |edges| == |collisions| && EdgesOk(edges)
    requires BucketsSound(edges, |edges|, buckets) && BucketsComplete(edges, collisions, |edges|, buckets)
    requires BucketsScored(edges, |edges|, buckets)
    requires EntriesSound(m, buckets, labels)
    ensures MatrixSound(edges, m)
  {
    forall k, p | k in m && p in m[k].partners
      ensures Counted(edges, {k, p.waveId}, p.score)
      ensures p.score == MinInt(WavePressureMax, PairSum(edges, {k, p.waveId}, |edges|))
    {
      var key := {k, p.waveId};
      assert key in buckets;
      var j :| 0 <= j < |edges| && edges[j].Some? && PairKey(edges[j].value) == key;
      assert buckets[PairKey(edges[j].value)].score >= edges[j].value.increment;
      assert p.score == buckets[key].score;
      CappedTotalIsCappedSum(edges, key, |edges|);
    }
  }

  /** Two two-element sets with distinct elements are equal only element for element, in one order or the other. */
  lemma PairsEqual(a: string, b: string, c: string, d: string)
    requires {a, b} == {c, d} && a != b
    ensures (a == c && b == d) || (a == d && b == c)
  {
    assert a in {c, d} && b in {c, d};
  }

  lemma PairSymmetric(a: string, b: string)
    ensures {a, b} == {b, a}
  {
  }

  lemma CoversFrom(m: Entries, buckets: Buckets, labels: map<string, string>, key: set<string>,
                   k: string, w: string, increment: int, c: Collisions.Collision)
    requires EntriesSound(m, buckets, labels) && key in buckets && key == {k, w}
    requires HasPartner(m, k, w, buckets[key].score) && buckets[key].score >= increment
    requires forall x :: x in c.sharedSystems ==> x in buckets[key].sharedSystems
    ensures Covers(m, k, w, increment, c)
  {
    FindsIff(m[k].partners, w, buckets[key].score);
    var p :| p in m[k].partners && p.waveId == w && p.score == buckets[key].score;
    assert p.sharedSystems == buckets[key].sharedSystems;
  }

  lemma MatrixCompleteFrom(collisions: seq<Collisions.Collision>, edges: seq<Option<Edge>>, buckets: Buckets,
                           order: seq<set<string>>, labels: map<string, string>, m: Entries)
    requires |edges| == |collisions| && EdgesOk(edges)
    requires BucketsShaped(buckets) && Ordered(order, buckets.Keys)
    requires BucketsComplete(edges, collisions, |edges|, buckets)
    requires EntriesSound(m, buckets, labels) && EntriesComplete(m, buckets, order, |order|)
    ensures MatrixComplete(edges, collisions, m)
  {
    forall j | 0 <= j < |edges| && edges[j].Some?
      ensures Covers(m, edges[j].value.aKey, edges[j].value.bKey, edges[j].value.increment, collisions[j])
      ensures Covers(m, edges[j].value.bKey, edges[j].value.aKey, edges[j].value.increment, collisions[j])
    {
      var e := edges[j].value;
      var key := PairKey(e);
      assert key in buckets;
      var t :| 0 <= t < |order| && order[t] == key;
      var b := buckets[key];
      PairsEqual(e.aKey, e.bKey, b.aKey, b.bKey);
      assert HasPartner(m, b.aKey, b.bKey, b.score) && HasPartner(m, b.bKey, b.aKey, b.score);
      PairSymmetric(e.aKey, e.bKey);
      CoversFrom(m, buckets, labels, key, e.aKey, e.bKey, e.increment, collisions[j]);
      CoversFrom(m, buckets, labels, key, e.bKey, e.aKey, e.increment, collisions[j]);
    }
  }

  lemma LabelsFromWave(keys: seq<string>, laneLabels: seq<string>, labels: map<string, string>, m: Entries)
    requires |keys| == |laneLabels|
    requires forall t :: 0 <= t < |keys| ==> keys[t] in labels
    requires forall k :: k in labels ==> FirstLabel(keys, laneLabels, |keys|, k, labels[k])
    requires Labelled(m, labels)
    ensures LabelledByStages(keys, laneLabels, m)
  {
    forall k | k in m
      ensures if k in keys then FirstLabel(keys, laneLabels, |keys|, k, m[k].waveLabel) else m[k].waveLabel == k
    {
      if k in keys {
        var t :| 0 <= t < |keys| && keys[t] == k;
        assert k in labels;
      }
    }
  }

  /**
   * `computeWavePressureMatrix`: without a collision report the matrix is
   * empty; otherwise the waves are labelled, the collisions bucketed by
   * pair of waves and the buckets linked both ways. The result is
   * symmetric, every partner comes from a counted collision and every
   * counted collision shows up on both its waves. A stage map whose order
   * names a missing key cannot arise from a JavaScript `Map`.
   */
  method ComputeWavePressureMatrix(stages: StageMap, report: Option<seq<Collisions.Collision>>) returns (r: Matrix)
    requires forall k :: k in stages.order ==> k in stages.byId
    ensures report.None? ==> r == Matrix([], map[])
    ensures Ordered(r.order, r.entries.Keys)
    ensures EntriesOk(r.entries) && Symmetric(r.entries)
    ensures report.Some? ==> MatrixSound(EdgesOf(stages, report.value), r.entries)
    ensures report.Some? ==> MatrixComplete(EdgesOf(stages, report.value), report.value, r.entries)
    ensures LabelledByStages(KeysOf(Values(stages)), LaneLabelsOf(Values(stages)), r.entries)
  {
    var values := Values(stages);
    var keys := KeysOf(values);
    var laneLabels := LaneLabelsOf(values);
    if report.None? {
      return Matrix([], map[]);
    }
    var collisions := report.value;
    var labels := WaveLabels(keys, laneLabels);
    var edges := EdgesOf(stages, collisions);
    EdgesOfOk(stages, collisions);
    var buckets, order := CollectPairs(collisions, edges);
    var entries, entryOrder := BuildEntries(buckets, order, labels);
    MatrixSoundFrom(collisions, edges, buckets, labels, entries);
    MatrixCompleteFrom(collisions, edges, buckets, order, labels, entries);
    LabelsFromWave(keys, laneLabels, labels, entries);
    r := Matrix(entryOrder, entries);
  }
}
