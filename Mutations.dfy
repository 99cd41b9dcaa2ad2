/**
 * Applying a parsed intent to a sequencer plan
 * (src/lib/sequencer/mutations.ts).
 *
 * The intent names a region, a phase, sales channels and possibly a
 * "decouple" action. The step of that region (else the first step) moves to
 * the phase and region with its impact nudged up to at most 0.95; a
 * decouple drops every dependency that mentions its target; the channels
 * map to a de-duplicated list of systems.
 */
module Mutations {
  import opened Common
  import opened Text

  datatype Action = Decouple | Prioritize | Focus

  /** `IntentEventOMS["payload"]`: an absent field is None. */
  datatype Payload = Payload(
    region: Option<string>,
    phase: Option<string>,
    timeline: Option<string>,
    channels: seq<string>,
    action: Option<Action>,
    target: Option<string>)

  /** The fields of `SequencerStep` the mutation reads or writes. */
  datatype Step = Step(id: string, region: string, phase: string, impact: real, dependencies: Option<seq<string>>)

  datatype SystemRef = SystemRef(id: string, systemLabel: string)

  /** `SequencerMutation`; its `mutationType` is always `updatePhase`. */
  datatype Mutation = Mutation(
    mutationType: string,
    targetRegion: string,
    phase: string,
    timeline: string,
    systems: seq<string>,
    dependencies: seq<string>)

  datatype Outcome = Outcome(mutation: Mutation, nextSequence: seq<Step>, confirmation: string)

  /** `CHANNEL_SYSTEM_MAP[channel.toLowerCase()] ?? DEFAULT_SYSTEMS`. */
  function ChannelSystems(channel: string): seq<SystemRef>
  {
    var key := Lower(channel);
    if key == "b2b" then
      [SystemRef("com-web", "Web Storefront"), SystemRef("sup-planning", "Demand Planning"), SystemRef("sup-wms", "Warehouse Ops")]
    else if key == "b2c" then
      [SystemRef("com-web", "Web Storefront"), SystemRef("com-loyalty", "Loyalty Engine"), SystemRef("sup-logistics", "Logistics Mesh")]
    else if key == "retail" then
      [SystemRef("com-pos", "Retail POS"), SystemRef("sup-wms", "Warehouse Ops"), SystemRef("sup-logistics", "Logistics Mesh")]
    else
      [SystemRef("com-web", "Web Storefront"), SystemRef("com-pos", "Retail POS")]
  }

  /** `channels.flatMap(ChannelSystems)`. */
  function SystemEntries(channels: seq<string>): seq<SystemRef>
  {
    if |channels| == 0 then [] else SystemEntries(channels[..|channels| - 1]) + ChannelSystems(channels[|channels| - 1])
  }

  function Ids(systems: seq<SystemRef>): (r: seq<string>)
    ensures |r| == |systems| && forall k :: 0 <= k < |r| ==> r[k] == systems[k].id
  {
    seq(|systems|, k requires 0 <= k < |systems| => systems[k].id)
  }

  /** The values of the `uniqueSystems` map: the first entry of each id, in first-seen order. */
  function UniqueById(entries: seq<SystemRef>): (r: seq<SystemRef>)
    ensures forall x :: x in r ==> x in entries
    ensures forall e :: e in entries ==> e.id in Ids(r)
    ensures forall i, j :: 0 <= i < j < |r| ==> r[i].id != r[j].id
  {
    if |entries| == 0 then []
    else
      var init := UniqueById(entries[..|entries| - 1]);
      var e := entries[|entries| - 1];
      assert forall x :: x in entries[..|entries| - 1] ==> x in entries;
      assert forall x :: x in entries ==> x in entries[..|entries| - 1] || x == e;
      if e.id in Ids(init) then init
      else
        assert Ids(init + [e]) == Ids(init) + [e.id];
        init + [e]
  }

  /** One entry of the `forEach` (`next` is the advanced index). */
  lemma UniqueStep(entries: seq<SystemRef>, i: nat, next: nat)
    requires i < |entries| && next == i + 1
    ensures UniqueById(entries[..next])
         == var r := UniqueById(entries[..i]); if entries[i].id in Ids(r) then r else r + [entries[i]]
  {
    assert entries[..next][..i] == entries[..i];
  }

  /** Setting a new id keeps the set of seen ids equal to the ids kept. */
  lemma SeenStep(systems: seq<SystemRef>, seen: set<string>, e: SystemRef)
    requires forall id :: id in seen <==> id in Ids(systems)
    ensures forall id :: id in seen + {e.id} <==> id in Ids(systems + [e])
  {
    assert Ids(systems + [e]) == Ids(systems) + [e.id];
  }

  /** The `uniqueSystems` loop: keep an entry when its id has not been set yet. */
  method UniqueSystems(entries: seq<SystemRef>) returns (systems: seq<SystemRef>)
    ensures systems == UniqueById(entries)
  {
    systems := [];
    var seen: set<string> := {};
    var i := 0;
    while i < |entries|
      invariant 0 <= i <= |entries|
      invariant systems == UniqueById(entries[..i])
      invariant forall id :: id in seen <==> id in Ids(systems)
    {
      var next := i + 1;
      UniqueStep(entries, i, next);
      var e := entries[i];
      if e.id !in seen {
        SeenStep(systems, seen, e);
        systems := systems + [e];
        seen := seen + {e.id};
      }
      i := next;
    }
    assert entries[..i] == entries;
  }

  /** The position of the first step of the region, compared case-insensitively. */
  function FirstInRegion(sequence: seq<Step>, region: string): (r: Option<nat>)
    ensures r.Some? ==> r.value < |sequence| && Lower(sequence[r.value].region) == Lower(region)
                        && forall k :: 0 <= k < r.value ==> Lower(sequence[k].region) != Lower(region)
    ensures r.None? ==> forall k :: 0 <= k < |sequence| ==> Lower(sequence[k].region) != Lower(region)
  {
    if |sequence| == 0 then None
    else if Lower(sequence[0].region) == Lower(region) then Some(0)
    else
      var r := FirstInRegion(sequence[1..], region);
      if r.Some? then Some(r.value + 1) else None
  }

  /** `sequence.find(same region) ?? sequence[0]`: undefined only for an empty plan. */
  function Target(sequence: seq<Step>, region: string): (t: Option<Step>)
    ensures t.None? <==> |sequence| == 0
    ensures t.Some? ==>
              exists j :: 0 <= j < |sequence| && sequence[j] == t.value
                          && (forall k :: 0 <= k < j ==> Lower(sequence[k].region) != Lower(region))
                          && (Lower(t.value.region) == Lower(region)
                              || (j == 0 && forall k :: 0 <= k < |sequence| ==> Lower(sequence[k].region) != Lower(region)))
  {
    match FirstInRegion(sequence, region)
    case Some(k) => Some(sequence[k])
    case None => if |sequence| == 0 then None else Some(sequence[0])
  }

  /** The phase, region and impact update of the target (and any step sharing its id). */
  function Retarget(step: Step, targetId: string, phase: string, region: string): Step
  {
    if step.id == targetId then step.(phase := phase, region := region, impact := Min(0.95, step.impact + 0.05))
    else step
  }

  /** The dependencies of a step with every one mentioning `targetKey` (case-insensitively) removed; absent ones become []. */
  function Decoupled(step: Step, targetKey: string): Step
  {
    step.(dependencies := Some(WithoutMentions(step.dependencies.GetOr([]), targetKey)))
  }

  /** `deps.filter((d) => !d.toLowerCase().includes(targetKey))`: kept in order, exactly those not mentioning the key. */
  function WithoutMentions(deps: seq<string>, targetKey: string): (r: seq<string>)
    ensures forall d :: d in r <==> d in deps && !Contains(Lower(d), targetKey)
    ensures IsSubsequence(r, deps)
  {
    Filter(deps, (d: string) => !Contains(Lower(d), targetKey))
  }

  predicate Decoupling(p: Payload)
  {
    p.action == Some(Decouple) && p.target.Some? && p.target.value != ""
  }

  /** The new sequence: the retargeted steps, decoupled when the intent says so. */
  function NextSequence(p: Payload, sequence: seq<Step>, targetId: string, phase: string, region: string): (r: seq<Step>)
    ensures |r| == |sequence|
    ensures forall k :: 0 <= k < |r| ==> r[k].id == sequence[k].id
  {
    seq(|sequence|, k requires 0 <= k < |sequence| =>
      var moved := Retarget(sequence[k], targetId, phase, region);
      if Decoupling(p) then Decoupled(moved, Lower(p.target.value)) else moved)
  }

  function Labels(systems: seq<SystemRef>): seq<string>
  {
    seq(|systems|, k requires 0 <= k < |systems| => systems[k].systemLabel)
  }

  /** `Sequencer updated: ${region} → ${PHASE} (${labels})`. */
  function Confirmation(region: string, phase: string, systems: seq<SystemRef>): string
  {
    "Sequencer updated: " + region + " \U{2192} " + Upper(phase) + " (" + Join(Labels(systems), ", ") + ")"
  }

  /** The intent's phase, else the target's, lower-cased. */
  function PhaseOf(p: Payload, target: Option<Step>): string
    requires p.phase.Some? || target.Some?
  {
    Lower(if p.phase.Some? then p.phase.value else target.value.phase)
  }

  function TargetId(target: Option<Step>): string
  {
    if target.Some? then target.value.id else ""
  }

  function MutationFor(p: Payload, region: string, phase: string, systems: seq<SystemRef>): Mutation
  {
    Mutation("updatePhase", region, phase, p.timeline.GetOr(phase), Ids(systems),
             if Decoupling(p) then ["removed:" + p.target.value] else [])
  }

  /**
   * `applyIntentToSequence` as a value. An empty plan without a phase in the
   * intent reads `target.phase` of undefined, a TypeError.
   */
  function Apply(p: Payload, sequence: seq<Step>): Result<Outcome>
  {
    var region := p.region.GetOr("Global");
    var target := Target(sequence, region);
    if p.phase.None? && target.None? then Failure("TypeError: cannot read properties of undefined")
    else
      var phase := PhaseOf(p, target);
      var systems := UniqueById(SystemEntries(p.channels));
      Success(Outcome(MutationFor(p, region, phase, systems),
                      NextSequence(p, sequence, TargetId(target), phase, region),
                      Confirmation(region, phase, systems)))
  }

  /** `applyIntentToSequence`: the de-duplicating loop, then the pure updates. */
  method ApplyIntentToSequence(p: Payload, sequence: seq<Step>) returns (r: Result<Outcome>)
    ensures r == Apply(p, sequence)
  {
    var region := p.region.GetOr("Global");
    var target := Target(sequence, region);
    if p.phase.None? && target.None? {
      return Failure("TypeError: cannot read properties of undefined");
    }
    var phase := PhaseOf(p, target);
    var systems := UniqueSystems(SystemEntries(p.channels));
    r := Success(Outcome(MutationFor(p, region, phase, systems),
                         NextSequence(p, sequence, TargetId(target), phase, region),
                         Confirmation(region, phase, systems)));
  }

  // ---------------------------------------------------------------- properties

  /** The plan keeps its length and its ids, step by step; the mutation is always `updatePhase`. */
  lemma SameShape(p: Payload, sequence: seq<Step>)
    requires Apply(p, sequence).Success?
    ensures var o := Apply(p, sequence).value;
            && |o.nextSequence| == |sequence|
            && (forall k :: 0 <= k < |sequence| ==> o.nextSequence[k].id == sequence[k].id)
            && o.mutation.mutationType == "updatePhase"
  {
    var region := p.region.GetOr("Global");
    var target := Target(sequence, region);
    var phase := PhaseOf(p, target);
    var o := Apply(p, sequence).value;
    assert o.nextSequence == NextSequence(p, sequence, TargetId(target), phase, region);
    assert o.mutation == MutationFor(p, region, phase, UniqueById(SystemEntries(p.channels)));
  }

  /** Only an empty plan, with no phase in the intent, fails. */
  lemma FailsOnlyWithoutTarget(p: Payload, sequence: seq<Step>)
    ensures Apply(p, sequence).Failure? <==> p.phase.None? && |sequence| == 0
  {
  }

  /** Step `k` of the new plan is step `k` retargeted, then decoupled when the intent decouples. */
  lemma StepAfter(p: Payload, sequence: seq<Step>, k: nat)
    requires Apply(p, sequence).Success? && k < |sequence|
    ensures var region := p.region.GetOr("Global");
            var target := Target(sequence, region);
            var moved := Retarget(sequence[k], TargetId(target), PhaseOf(p, target), region);
            Apply(p, sequence).value.nextSequence[k] == if Decoupling(p) then Decoupled(moved, Lower(p.target.value)) else moved
  {
    var region := p.region.GetOr("Global");
    var target := Target(sequence, region);
    var phase := PhaseOf(p, target);
    assert Apply(p, sequence).value.nextSequence == NextSequence(p, sequence, TargetId(target), phase, region);
    var moved := Retarget(sequence[k], TargetId(target), phase, region);
  }

  /**
   * Steps with another id than the target keep their phase, region and
   * impact; the target moves to the intent's region and its impact grows by
   * 0.05 up to 0.95.
   */
  lemma OnlyTargetMoves(p: Payload, sequence: seq<Step>, k: nat)
    requires k < |sequence|
    ensures var region := p.region.GetOr("Global");
            var t := Target(sequence, region).value;
            var s := Apply(p, sequence).value.nextSequence[k];
            && (sequence[k].id != t.id ==>
                  s.phase == sequence[k].phase && s.region == sequence[k].region && s.impact == sequence[k].impact)
            && (sequence[k].id == t.id ==>
                  s.region == region && s.impact == Min(0.95, sequence[k].impact + 0.05) && s.impact <= 0.95)
  {
    var region := p.region.GetOr("Global");
    var target := Target(sequence, region);
    var moved := Retarget(sequence[k], TargetId(target), PhaseOf(p, target), region);
    FailsOnlyWithoutTarget(p, sequence);
    var s := Apply(p, sequence).value.nextSequence[k];
    StepAfter(p, sequence, k);
    MovedFields(sequence[k], moved, s, Target(sequence, region).value.id, PhaseOf(p, target), region);
  }

  /** A retargeted step, decoupled or not, moves exactly when its id is the target's. */
  lemma MovedFields(step: Step, moved: Step, s: Step, id: string, phase: string, region: string)
    requires moved == Retarget(step, id, phase, region)
    requires s.phase == moved.phase && s.region == moved.region && s.impact == moved.impact
    ensures step.id != id ==> s.phase == step.phase && s.region == step.region && s.impact == step.impact
    ensures step.id == id ==> s.region == region && s.impact == Min(0.95, step.impact + 0.05) && s.impact <= 0.95
  { }

  /** After a decouple, no dependency of any step mentions the target, in any case. */
  lemma DecoupleRemovesTarget(p: Payload, sequence: seq<Step>, k: nat, dep: string)
    requires Apply(p, sequence).Success? && Decoupling(p) && k < |sequence|
    requires Apply(p, sequence).value.nextSequence[k].dependencies.Some?
    requires dep in Apply(p, sequence).value.nextSequence[k].dependencies.value
    ensures !Contains(Lower(dep), Lower(p.target.value))
  {
    StepAfter(p, sequence, k);
  }

  /** Without a decouple every dependency list is kept as it was. */
  lemma NoDecoupleKeepsDependencies(p: Payload, sequence: seq<Step>, k: nat)
    requires Apply(p, sequence).Success? && !Decoupling(p) && k < |sequence|
    ensures Apply(p, sequence).value.nextSequence[k].dependencies == sequence[k].dependencies
  {
  }

  /** The mutation lists each system once, and exactly the systems of the intent's channels. */
  lemma SystemsDistinct(p: Payload, sequence: seq<Step>)
    requires Apply(p, sequence).Success?
    ensures var ids := Apply(p, sequence).value.mutation.systems;
            && (forall i, j :: 0 <= i < j < |ids| ==> ids[i] != ids[j])
            && (forall e :: e in SystemEntries(p.channels) ==> e.id in ids)
            && (forall id :: id in ids ==> exists e :: e in SystemEntries(p.channels) && e.id == id)
  {
    var systems := UniqueById(SystemEntries(p.channels));
    forall id | id in Ids(systems)
      ensures exists e :: e in SystemEntries(p.channels) && e.id == id
    {
      var k :| 0 <= k < |Ids(systems)| && Ids(systems)[k] == id;
      assert systems[k] in systems;
    }
  }
}
