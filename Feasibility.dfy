/**
 * The feasibility check of the sequencer scene
 * (src/components/experience/scenes/SequencerScene.tsx, `evaluateFeasibility`
 * and `computeDeadlineWhatIf`).
 *
 * The stages are checked against the targets one concern at a time, each
 * failed check pushing a blocker of severity 1 to 3; the status is
 * NOT_FEASIBLE when some blocker has severity 3, AT_RISK when some has
 * severity 2, FEASIBLE otherwise. With a deadline that is missed, the
 * what-if table says what the status would be with 6, 12 or 24 more months.
 */
module Feasibility {
  import opened Common
  import opened Text
  import Collisions
  import SceneHelpers

  datatype Status = Feasible | AtRisk | NotFeasible

  function Rank(s: Status): nat
  {
    match s
    case Feasible => 0
    case AtRisk => 1
    case NotFeasible => 2
  }

  datatype Code = ScheduleTooShort | BudgetTooLow | BlackoutConflict | DependencyGate | CollisionPressure | CapacityLimit

  type Severity = s: int | 1 <= s <= 3 witness 1

  /** `FeasibilityBlocker`: its code, severity and the stage ids of its evidence. */
  datatype Blocker = Blocker(code: Code, severity: Severity, relatedStageIds: seq<string>)

  predicate HasSeverity3(blockers: seq<Blocker>)
  {
    exists b :: b in blockers && b.severity == 3
  }

  predicate HasSeverity2Up(blockers: seq<Blocker>)
  {
    exists b :: b in blockers && b.severity >= 2
  }

  /** The status rule: the worst severity decides. */
  function StatusOf(blockers: seq<Blocker>): (r: Status)
    ensures r == NotFeasible <==> HasSeverity3(blockers)
    ensures r == AtRisk <==> HasSeverity2Up(blockers) && !HasSeverity3(blockers)
    ensures r == Feasible <==> forall b :: b in blockers ==> b.severity == 1
  {
    if HasSeverity3(blockers) then NotFeasible
    else if HasSeverity2Up(blockers) then AtRisk
    else Feasible
  }

  /** Dropping blockers never makes the status worse. */
  lemma StatusOfSubset(small: seq<Blocker>, big: seq<Blocker>)
    requires forall b :: b in small ==> b in big
    ensures Rank(StatusOf(small)) <= Rank(StatusOf(big))
  {
    if HasSeverity3(small) {
      var b :| b in small && b.severity == 3;
      assert b in big;
    } else if HasSeverity2Up(small) {
      var b :| b in small && b.severity >= 2;
      assert b in big;
    }
  }

  // ---------------------------------------------------------------- targets

  datatype DeadlineType = FiscalYear | Date

  datatype Deadline = Deadline(kind: DeadlineType, value: string)

  /** A blackout window; `start` and `end` are labels, resolved to months when checked. */
  datatype Window = Window(start: string, end: string, windowLabel: Option<string>)

  /** `Targets`; an absent list is empty. */
  datatype Targets = Targets(
    deadline: Option<Deadline>,
    budgetMax: Option<real>,
    blackoutWindows: seq<Window>,
    maxDualRunMonths: Option<real>,
    requiredSystems: seq<string>,
    noBigBang: bool)

  /** `resolveDeadlineIndex`: no deadline without a value; a fiscal-year deadline means the end of that year, any other the start. */
  function ResolveDeadlineIndex(deadline: Option<Deadline>, parseDate: string -> Option<(int, int)>): (r: Option<int>)
    ensures deadline.None? || deadline.value.value == "" ==> r.None?
    ensures deadline.Some? && deadline.value.kind == FiscalYear && deadline.value.value != "" ==>
              r == SceneHelpers.ResolveLabelToIndex(deadline.value.value, true, parseDate)
    ensures deadline.Some? && deadline.value.kind != FiscalYear && deadline.value.value != "" ==>
              r == SceneHelpers.ResolveLabelToIndex(deadline.value.value, false, parseDate)
  {
    if deadline.None? || deadline.value.value == "" then None
    else SceneHelpers.ResolveLabelToIndex(deadline.value.value, deadline.value.kind == FiscalYear, parseDate)
  }

  // ---------------------------------------------------------------- extremes of the stage list

  function MinStart(stages: seq<Collisions.Stage>): (r: int)
    requires |stages| > 0
    ensures forall s :: s in stages ==> r <= s.startIndex
    ensures exists s :: s in stages && r == s.startIndex
  {
    if |stages| == 1 then stages[0].startIndex
    else
      var m := MinStart(stages[..|stages| - 1]);
      assert forall s :: s in stages ==> s in stages[..|stages| - 1] || s == stages[|stages| - 1];
      assert forall s :: s in stages[..|stages| - 1] ==> s in stages;
      MinInt(m, stages[|stages| - 1].startIndex)
  }

  function MaxEnd(stages: seq<Collisions.Stage>): (r: int)
    requires |stages| > 0
    ensures forall s :: s in stages ==> s.endIndex <= r
    ensures exists s :: s in stages && r == s.endIndex
  {
    if |stages| == 1 then stages[0].endIndex
    else
      var m := MaxEnd(stages[..|stages| - 1]);
      assert forall s :: s in stages ==> s in stages[..|stages| - 1] || s == stages[|stages| - 1];
      assert forall s :: s in stages[..|stages| - 1] ==> s in stages;
      MaxInt(m, stages[|stages| - 1].endIndex)
  }

  /** `stages.find(p)?.stageId`: the id of the first stage ending at `end`. */
  function FirstEndingAt(stages: seq<Collisions.Stage>, end: int): (r: Option<string>)
    ensures r.Some? <==> exists s :: s in stages && s.endIndex == end
    ensures r.Some? ==> exists i :: 0 <= i < |stages| && stages[i].endIndex == end && stages[i].stageId == r.value &&
                                    forall j :: 0 <= j < i ==> stages[j].endIndex != end
  {
    if |stages| == 0 then None
    else if stages[0].endIndex == end then Some(stages[0].stageId)
    else
      assert forall s :: s in stages ==> s == stages[0] || s in stages[1..];
      assert forall s :: s in stages[1..] ==> s in stages;
      var r := FirstEndingAt(stages[1..], end);
      assert forall j :: 1 <= j < |stages| ==> stages[1..][j - 1] == stages[j];
      assert r.Some? ==> exists i :: 1 <= i < |stages| && stages[i].endIndex == end && stages[i].stageId == r.value &&
                                    forall j :: 0 <= j < i ==> stages[j].endIndex != end;
      r
  }

  // ---------------------------------------------------------------- the individual checks

  /** A missed deadline: severity 3 beyond 18 months, 2 beyond 6, else 1. */
  function ScheduleSeverity(overrun: int): (r: Severity)
    ensures r == 3 <==> overrun > 18
    ensures r == 1 <==> overrun <= 6
  {
    if overrun > 18 then 3 else if overrun > 6 then 2 else 1
  }

  function ScheduleBlocker(stages: seq<Collisions.Stage>, deadlineIndex: Option<int>): (r: Option<Blocker>)
    requires |stages| > 0
    ensures r.Some? <==> deadlineIndex.Some? && MaxEnd(stages) > deadlineIndex.value
    ensures r.Some? ==> r.value.code == ScheduleTooShort && r.value.severity == ScheduleSeverity(MaxEnd(stages) - deadlineIndex.value)
  {
    var maxEnd := MaxEnd(stages);
    if deadlineIndex.Some? && maxEnd > deadlineIndex.value then
      var last := FirstEndingAt(stages, maxEnd);
      var related := if last.Some? && last.value != "" then [last.value] else [];
      Some(Blocker(ScheduleTooShort, ScheduleSeverity(maxEnd - deadlineIndex.value), related))
    else None
  }

  /** The declared budget cap in millions; a cap of 0 counts as none (`targets.budget?.max ? … : undefined`). */
  function ProvidedBudget(budgetMax: Option<real>): Option<real>
  {
    if budgetMax.Some? && budgetMax.value != 0.0 then Some(budgetMax.value / 1000000.0) else None
  }

  /** An estimate over the cap: severity 3 when it overruns by more than 40 % of the cap, else 2. */
  function BudgetBlocker(estimated: real, budgetMax: Option<real>): (r: Option<Blocker>)
    ensures r.Some? <==> ProvidedBudget(budgetMax).Some? && estimated > ProvidedBudget(budgetMax).value
    ensures r.Some? ==> r.value.code == BudgetTooLow && 2 <= r.value.severity <= 3
    ensures r.Some? ==> (r.value.severity == 3 <==> estimated > ProvidedBudget(budgetMax).value * 1.4)
  {
    var provided := ProvidedBudget(budgetMax);
    if provided.Some? && estimated > provided.value then
      var overrun := estimated - provided.value;
      Some(Blocker(BudgetTooLow, if overrun > provided.value * 0.4 then 3 else 2, []))
    else None
  }

  function HighCount(collisions: seq<Collisions.Collision>): (n: nat)
    ensures n <= |collisions|
  {
    CountWhere(collisions, (c: Collisions.Collision) => c.severity == Collisions.High)
  }

  /** `collisions.slice(0, 3).flatMap((c) => [c.aStageId, c.bStageId])`. */
  function PairIds(collisions: seq<Collisions.Collision>): (r: seq<string>)
    ensures |r| == 2 * |collisions|
  {
    if |collisions| == 0 then [] else [collisions[0].aStageId, collisions[0].bStageId] + PairIds(collisions[1..])
  }

  /** Collision pressure: severity 3 with two high collisions, 2 with one or with more than three collisions, else 1. */
  function CollisionBlocker(collisions: seq<Collisions.Collision>): (r: Option<Blocker>)
    ensures r.Some? <==> |collisions| > 0
    ensures r.Some? ==> (r.value.code == CollisionPressure &&
              (r.value.severity == 3 <==> HighCount(collisions) > 1) &&
              (r.value.severity == 1 <==> HighCount(collisions) == 0 && |collisions| <= 3))
  {
    if |collisions| == 0 then None
    else
      var high := HighCount(collisions);
      var severity: Severity := if high > 1 then 3 else if high == 1 || |collisions| > 3 then 2 else 1;
      Some(Blocker(CollisionPressure, severity, PairIds(collisions[..MinInt(3, |collisions|)])))
  }

  /** A stage overlapping a blackout window, with the window's labels replaced by the resolved months. */
  datatype BlackoutHit = BlackoutHit(stage: Collisions.Stage, window: Window)

  /** The months a window covers, when both of its labels resolve. */
  function WindowMonths(w: Window, parseDate: string -> Option<(int, int)>): Option<(int, int)>
  {
    var s := SceneHelpers.ResolveLabelToIndex(w.start, false, parseDate);
    var e := SceneHelpers.ResolveLabelToIndex(w.end, true, parseDate);
    if s.Some? && e.Some? then Some((s.value, e.value)) else None
  }

  /** The stages of one window, in stage order. */
  function HitsOf(stages: seq<Collisions.Stage>, w: Window, months: (int, int)): (r: seq<BlackoutHit>)
    ensures forall h :: h in r ==> h.stage in stages && SceneHelpers.RangesOverlap(h.stage.startIndex, h.stage.endIndex, months.0, months.1)
    ensures forall s :: s in stages && SceneHelpers.RangesOverlap(s.startIndex, s.endIndex, months.0, months.1) ==>
              exists h :: h in r && h.stage == s
  {
    if |stages| == 0 then []
    else
      var s := stages[0];
      var rest := HitsOf(stages[1..], w, months);
      assert forall x :: x in stages ==> x == s || x in stages[1..];
      assert forall x :: x in stages[1..] ==> x in stages;
      var labelled := Window(Collisions.FormatFiscalMonth(months.0), Collisions.FormatFiscalMonth(months.1), w.windowLabel);
      if SceneHelpers.RangesOverlap(s.startIndex, s.endIndex, months.0, months.1) then [BlackoutHit(s, labelled)] + rest else rest
  }

  /** `detectBlackoutConflicts`: for every window whose labels resolve, the stages overlapping it; window by window. */
  function DetectBlackoutConflicts(stages: seq<Collisions.Stage>, windows: seq<Window>, parseDate: string -> Option<(int, int)>): (r: seq<BlackoutHit>)
    ensures forall h :: h in r ==> h.stage in stages
  {
    if |windows| == 0 then []
    else
      var w := windows[0];
      var rest := DetectBlackoutConflicts(stages, windows[1..], parseDate);
      match WindowMonths(w, parseDate)
      case None => rest
      case Some(months) => HitsOf(stages, w, months) + rest
  }

  /** A stage overlaps a window whose labels both resolve. */
  predicate InWindow(s: Collisions.Stage, w: Window, parseDate: string -> Option<(int, int)>)
  {
    var m := WindowMonths(w, parseDate);
    m.Some? && SceneHelpers.RangesOverlap(s.startIndex, s.endIndex, m.value.0, m.value.1)
  }

  /** A stage is reported exactly when it overlaps some window that resolves. */
  lemma {:induction false} BlackoutConflictsIff(stages: seq<Collisions.Stage>, windows: seq<Window>, parseDate: string -> Option<(int, int)>, s: Collisions.Stage)
    ensures (exists h :: h in DetectBlackoutConflicts(stages, windows, parseDate) && h.stage == s) <==>
            s in stages && exists w :: w in windows && InWindow(s, w, parseDate)
  {
    if |windows| > 0 {
      var w := windows[0];
      var rest := DetectBlackoutConflicts(stages, windows[1..], parseDate);
      BlackoutConflictsIff(stages, windows[1..], parseDate, s);
      assert forall x :: x in windows <==> x == w || x in windows[1..];
      var r := DetectBlackoutConflicts(stages, windows, parseDate);
      match WindowMonths(w, parseDate)
      case None =>
        assert !InWindow(s, w, parseDate);
      case Some(months) =>
        var hits := HitsOf(stages, w, months);
        assert r == hits + rest;
        assert (exists h :: h in hits && h.stage == s) <==> s in stages && InWindow(s, w, parseDate);
        if exists h :: h in r && h.stage == s {
          var h :| h in r && h.stage == s;
          assert h in hits || h in rest;
        }
        if exists h :: h in hits && h.stage == s {
          var h :| h in hits && h.stage == s;
          assert h in r;
        }
        if exists h :: h in rest && h.stage == s {
          var h :| h in rest && h.stage == s;
          assert h in r;
        }
    }
  }

  function BlackoutBlocker(stages: seq<Collisions.Stage>, windows: seq<Window>, parseDate: string -> Option<(int, int)>): (r: Option<Blocker>)
    ensures r.Some? <==> |DetectBlackoutConflicts(stages, windows, parseDate)| > 0
    ensures r.Some? ==> (r.value.code == BlackoutConflict &&
              (r.value.severity == 3 <==> |DetectBlackoutConflicts(stages, windows, parseDate)| > 2) && r.value.severity >= 2)
  {
    var hits := DetectBlackoutConflicts(stages, windows, parseDate);
    if |hits| == 0 then None
    else
      var first := hits[..MinInt(3, |hits|)];
      Some(Blocker(BlackoutConflict, if |hits| > 2 then 3 else 2, HitStageIds(first)))
  }

  /** The stages whose scenario runs two systems side by side for longer than allowed (no scenario counts as 0 months). */
  function DualRunViolations(stages: seq<Collisions.Stage>, dualRunByStage: map<string, real>, maxMonths: real): (r: seq<Collisions.Stage>)
    ensures forall s :: s in r <==> s in stages && DualRunMonths(s, dualRunByStage) > maxMonths
  {
    Filter(stages, (s: Collisions.Stage) => DualRunMonths(s, dualRunByStage) > maxMonths)
  }

  /** `scenario?.integrationBurden?.dualRun ?? 0`. */
  function DualRunMonths(s: Collisions.Stage, dualRunByStage: map<string, real>): real
  {
    if s.stageId in dualRunByStage then dualRunByStage[s.stageId] else 0.0
  }

  function HitStageIds(hits: seq<BlackoutHit>): (r: seq<string>)
    ensures |r| == |hits|
  {
    if |hits| == 0 then [] else [hits[0].stage.stageId] + HitStageIds(hits[1..])
  }

  function StageIds(stages: seq<Collisions.Stage>): (r: seq<string>)
    ensures |r| == |stages|
  {
    if |stages| == 0 then [] else [stages[0].stageId] + StageIds(stages[1..])
  }

  function DualRunBlocker(stages: seq<Collisions.Stage>, dualRunByStage: map<string, real>, maxMonths: Option<real>): (r: Option<Blocker>)
    ensures r.Some? <==> maxMonths.Some? && |DualRunViolations(stages, dualRunByStage, maxMonths.value)| > 0
    ensures r.Some? ==> (r.value.code == CapacityLimit &&
              (r.value.severity == 3 <==> |DualRunViolations(stages, dualRunByStage, maxMonths.value)| > 1))
  {
    if maxMonths.None? then None
    else
      var v := DualRunViolations(stages, dualRunByStage, maxMonths.value);
      if |v| == 0 then None
      else Some(Blocker(CapacityLimit, if |v| > 1 then 3 else 2, StageIds(v)))
  }

  /** The lower-cased systems of all stages (`catalog`). */
  function Catalog(stages: seq<Collisions.Stage>): set<string>
  {
    if |stages| == 0 then {} else Catalog(stages[1..]) + set y | y in stages[0].systems :: Lower(y)
  }

  /** The catalog holds the lower-cased name of every system some stage touches, and nothing else. */
  lemma {:induction false} CatalogMembers(stages: seq<Collisions.Stage>, x: string)
    ensures x in Catalog(stages) <==> exists s, y :: s in stages && y in s.systems && Lower(y) == x
  {
    if |stages| > 0 {
      CatalogMembers(stages[1..], x);
      assert forall t :: t in stages <==> t == stages[0] || t in stages[1..];
      if x in Catalog(stages[1..]) {
        var s, y :| s in stages[1..] && y in s.systems && Lower(y) == x;
        assert s in stages;
      }
      if exists s, y :: s in stages && y in s.systems && Lower(y) == x {
        var s, y :| s in stages && y in s.systems && Lower(y) == x;
        if s == stages[0] {
          assert x in set y | y in stages[0].systems :: Lower(y);
        } else {
          assert s in stages[1..];
        }
      }
    }
  }

  /** `detectMissingSystems`: the required systems no stage touches, compared in lower case. */
  function MissingSystems(stages: seq<Collisions.Stage>, required: seq<string>): (r: seq<string>)
    ensures forall x :: x in r <==> x in required && Lower(x) !in Catalog(stages)
  {
    var catalog := Catalog(stages);
    Filter(required, (x: string) => Lower(x) !in catalog)
  }

  function DependencyBlocker(stages: seq<Collisions.Stage>, required: seq<string>): (r: Option<Blocker>)
    ensures r.Some? <==> |MissingSystems(stages, required)| > 0
    ensures r.Some? ==> r.value == Blocker(DependencyGate, 2, [])
  {
    if |MissingSystems(stages, required)| > 0 then Some(Blocker(DependencyGate, 2, [])) else None
  }

  const BigBangSystemThreshold := 10

  /** With "no big bang", the first stage touching ten or more systems. */
  function BigBangBlocker(stages: seq<Collisions.Stage>, noBigBang: bool): (r: Option<Blocker>)
    ensures r.Some? <==> noBigBang && exists s :: s in stages && |s.systems| >= BigBangSystemThreshold
    ensures r.Some? ==> r.value.code == CapacityLimit && r.value.severity == 3 && |r.value.relatedStageIds| == 1
  {
    if !noBigBang then None
    else
      var hit := FirstBig(stages);
      if hit.None? then None else Some(Blocker(CapacityLimit, 3, [hit.value.stageId]))
  }

  function FirstBig(stages: seq<Collisions.Stage>): (r: Option<Collisions.Stage>)
    ensures r.Some? <==> exists s :: s in stages && |s.systems| >= BigBangSystemThreshold
    ensures r.Some? ==> exists i :: 0 <= i < |stages| && r.value == stages[i] && |stages[i].systems| >= BigBangSystemThreshold &&
                                    forall j :: 0 <= j < i ==> |stages[j].systems| < BigBangSystemThreshold
  {
    if |stages| == 0 then None
    else if |stages[0].systems| >= BigBangSystemThreshold then Some(stages[0])
    else
      var r := FirstBig(stages[1..]);
      FirstBigShift(stages, r);
      r
  }

  /** When the first stage is small, the first big stage of the rest is the first big stage of all. */
  lemma FirstBigShift(stages: seq<Collisions.Stage>, r: Option<Collisions.Stage>)
    requires |stages| > 0 && |stages[0].systems| < BigBangSystemThreshold
    requires r.Some? <==> exists s :: s in stages[1..] && |s.systems| >= BigBangSystemThreshold
    requires r.Some? ==> exists i :: 0 <= i < |stages| - 1 && r.value == stages[1..][i] &&
                                     |stages[1..][i].systems| >= BigBangSystemThreshold &&
                                     forall j :: 0 <= j < i ==> |stages[1..][j].systems| < BigBangSystemThreshold
    ensures r.Some? <==> exists s :: s in stages && |s.systems| >= BigBangSystemThreshold
    ensures r.Some? ==> exists i :: 0 <= i < |stages| && r.value == stages[i] && |stages[i].systems| >= BigBangSystemThreshold &&
                                    forall j :: 0 <= j < i ==> |stages[j].systems| < BigBangSystemThreshold
  {
    assert forall x :: x in stages ==> x == stages[0] || x in stages[1..];
    assert forall x :: x in stages[1..] ==> x in stages;
    if r.Some? {
      var i :| 0 <= i < |stages| - 1 && r.value == stages[1..][i] &&
               |stages[1..][i].systems| >= BigBangSystemThreshold &&
               forall j :: 0 <= j < i ==> |stages[1..][j].systems| < BigBangSystemThreshold;
      assert forall j :: 1 <= j < |stages| ==> stages[1..][j - 1] == stages[j];
      assert r.value == stages[i + 1];
    }
  }

  // ---------------------------------------------------------------- the what-if table

  const WhatIfMonths: seq<int> := [6, 12, 24]

  function WithoutSchedule(blockers: seq<Blocker>): (r: seq<Blocker>)
    ensures forall b :: b in r <==> b in blockers && b.code != ScheduleTooShort
  {
    Filter(blockers, (b: Blocker) => b.code != ScheduleTooShort)
  }

  /** The status with the deadline moved `months` later. */
  function StatusWithExtension(deadlineIndex: int, completionIndex: int, blockers: seq<Blocker>, months: int): Status
  {
    if completionIndex <= deadlineIndex + months then StatusOf(WithoutSchedule(blockers)) else StatusOf(blockers)
  }

  /** `computeDeadlineWhatIf`: nothing without a deadline or a schedule blocker, else the status for 6, 12 and 24 more months. */
  function ComputeDeadlineWhatIf(deadlineIndex: Option<int>, completionIndex: int, blockers: seq<Blocker>): (r: Option<map<int, Status>>)
    ensures r.Some? <==> deadlineIndex.Some? && HasCode(blockers, ScheduleTooShort)
    ensures r.Some? ==> r.value.Keys == {6, 12, 24}
  {
    if deadlineIndex.None? || !HasCode(blockers, ScheduleTooShort) then None
    else
      var d := deadlineIndex.value;
      Some(map[6 := StatusWithExtension(d, completionIndex, blockers, 6),
               12 := StatusWithExtension(d, completionIndex, blockers, 12),
               24 := StatusWithExtension(d, completionIndex, blockers, 24)])
  }

  /**
   * More time never makes the outlook worse: the status with 24 extra
   * months is no worse than with 12, which is no worse than with 6, which
   * is no worse than the status now.
   */
  lemma WhatIfMonotone(deadlineIndex: int, completionIndex: int, blockers: seq<Blocker>)
    requires HasCode(blockers, ScheduleTooShort)
    ensures var m := ComputeDeadlineWhatIf(Some(deadlineIndex), completionIndex, blockers).value;
            Rank(m[24]) <= Rank(m[12]) <= Rank(m[6]) <= Rank(StatusOf(blockers))
  {
    StatusOfSubset(WithoutSchedule(blockers), blockers);
  }

  // ---------------------------------------------------------------- the whole check

  const DefaultIntegrationCost: real := 0.18
  const DefaultStageLaborCost: real := 1.5

  /** One stage's cost beyond its labour: its scenario's integration burden, else a flat cost per integration. */
  function StageCost(stage: Collisions.Stage, burdenCost: map<string, real>): real
  {
    if stage.stageId in burdenCost then burdenCost[stage.stageId] else (|stage.integrations| as real) * DefaultIntegrationCost
  }

  function StageCosts(stages: seq<Collisions.Stage>, burdenCost: map<string, real>): real
  {
    if |stages| == 0 then 0.0 else StageCosts(stages[..|stages| - 1], burdenCost) + StageCost(stages[|stages| - 1], burdenCost)
  }

  /** With no negative burden, every stage adds at least nothing to its labour cost. */
  lemma {:induction false} StageCostsNonNegative(stages: seq<Collisions.Stage>, burdenCost: map<string, real>)
    requires forall k :: k in burdenCost ==> burdenCost[k] >= 0.0
    ensures StageCosts(stages, burdenCost) >= 0.0
  {
    if |stages| > 0 {
      StageCostsNonNegative(stages[..|stages| - 1], burdenCost);
    }
  }

  /**
   * The delivery floor in millions: 1.5 per stage plus, per stage, its
   * scenario's integration burden (`burdenCost`, the output of the burden
   * model, which is not part of this model) or 0.18 per integration.
   */
  function BudgetFloor(stages: seq<Collisions.Stage>, burdenCost: map<string, real>): real
  {
    (|stages| as real) * DefaultStageLaborCost + StageCosts(stages, burdenCost)
  }

  /** With no negative burden, the floor is at least the labour of the stages. */
  lemma BudgetFloorAtLeastLabour(stages: seq<Collisions.Stage>, burdenCost: map<string, real>)
    requires forall k :: k in burdenCost ==> burdenCost[k] >= 0.0
    ensures BudgetFloor(stages, burdenCost) >= (|stages| as real) * DefaultStageLaborCost
  {
    StageCostsNonNegative(stages, burdenCost);
  }

  /** The loop of `evaluateFeasibility` that sums the floor stage by stage. */
  method EstimateBudget(stages: seq<Collisions.Stage>, burdenCost: map<string, real>) returns (total: real)
    ensures total == BudgetFloor(stages, burdenCost)
  {
    total := (|stages| as real) * DefaultStageLaborCost;
    for i := 0 to |stages|
      invariant total == (|stages| as real) * DefaultStageLaborCost + StageCosts(stages[..i], burdenCost)
    {
      assert stages[..i + 1][..i] == stages[..i];
      total := total + StageCost(stages[i], burdenCost);
    }
    assert stages[..|stages|] == stages;
  }

  datatype Result = Result(
    status: Status,
    confidence: real,
    blockers: seq<Blocker>,
    durationMonths: Option<int>,
    budgetFloor: Option<real>,
    whatIf: Option<map<int, Status>>)

  /** The answer for an empty stage map. */
  const NoStages := Result(AtRisk, 0.4, [Blocker(CapacityLimit, 2, [])], None, None, None)

  function Pushed(b: Option<Blocker>): (r: seq<Blocker>)
    ensures b.None? <==> r == []
    ensures b.Some? ==> r == [b.value]
    ensures |r| <= 1
  {
    if b.Some? then [b.value] else []
  }

  predicate HasCode(blockers: seq<Blocker>, code: Code)
  {
    exists b :: b in blockers && b.code == code
  }

  lemma HasCodeAppend(a: seq<Blocker>, b: seq<Blocker>, code: Code)
    ensures HasCode(a + b, code) <==> HasCode(a, code) || HasCode(b, code)
  {
    if HasCode(a + b, code) {
      var x :| x in a + b && x.code == code;
      assert x in a || x in b;
    }
    if HasCode(a, code) {
      var x :| x in a && x.code == code;
      assert x in a + b;
    }
    if HasCode(b, code) {
      var x :| x in b && x.code == code;
      assert x in a + b;
    }
  }

  /**
   * The outcome of each check, in the order they push: schedule, budget,
   * collisions, blackouts, dual run, missing systems, big bang. The
   * blackout and missing-system checks only run when their lists are not
   * empty.
   */
  function Checks(targets: Targets, stages: seq<Collisions.Stage>, collisions: seq<Collisions.Collision>,
                  dualRunByStage: map<string, real>, estimated: real, parseDate: string -> Option<(int, int)>): (r: seq<Option<Blocker>>)
    requires |stages| > 0
    ensures |r| == 7
    ensures forall i :: 0 <= i < 7 && r[i].Some? ==> r[i].value.code == CheckCodes[i]
  {
    [ScheduleBlocker(stages, ResolveDeadlineIndex(targets.deadline, parseDate)),
     BudgetBlocker(estimated, targets.budgetMax),
     CollisionBlocker(collisions),
     if |targets.blackoutWindows| > 0 then BlackoutBlocker(stages, targets.blackoutWindows, parseDate) else None,
     DualRunBlocker(stages, dualRunByStage, targets.maxDualRunMonths),
     if |targets.requiredSystems| > 0 then DependencyBlocker(stages, targets.requiredSystems) else None,
     BigBangBlocker(stages, targets.noBigBang)]
  }

  /** The code of each check's blocker. */
  const CheckCodes: seq<Code> := [ScheduleTooShort, BudgetTooLow, CollisionPressure, BlackoutConflict, CapacityLimit, DependencyGate, CapacityLimit]

  /** A code that only one check produces (schedule, collisions, missing systems) is pushed exactly when that check produced a blocker. */
  lemma OwnCheck(checks: seq<Option<Blocker>>, k: nat)
    requires |checks| == 7 && k < 7
    requires forall i :: 0 <= i < 7 && checks[i].Some? ==> checks[i].value.code == CheckCodes[i]
    requires k == 0 || k == 2 || k == 5
    ensures HasCode(PushAll(checks), CheckCodes[k]) <==> checks[k].Some?
  {
    PushAllHasCode(checks, CheckCodes[k]);
  }

  /** The pushed blockers, in order. */
  function PushAll(outcomes: seq<Option<Blocker>>): (r: seq<Blocker>)
    ensures |r| <= |outcomes|
  {
    if |outcomes| == 0 then [] else Pushed(outcomes[0]) + PushAll(outcomes[1..])
  }

  /** A code is among the pushed blockers exactly when some check produced a blocker with it. */
  lemma {:induction false} PushAllHasCode(outcomes: seq<Option<Blocker>>, code: Code)
    ensures HasCode(PushAll(outcomes), code) <==>
            exists i :: 0 <= i < |outcomes| && outcomes[i].Some? && outcomes[i].value.code == code
  {
    if |outcomes| > 0 {
      PushAllHasCode(outcomes[1..], code);
      HasCodeAppend(Pushed(outcomes[0]), PushAll(outcomes[1..]), code);
      if exists i :: 1 <= i < |outcomes| && outcomes[i].Some? && outcomes[i].value.code == code {
        var i :| 1 <= i < |outcomes| && outcomes[i].Some? && outcomes[i].value.code == code;
        assert outcomes[1..][i - 1] == outcomes[i];
      }
      if exists i :: 0 <= i < |outcomes| - 1 && outcomes[1..][i].Some? && outcomes[1..][i].value.code == code {
        var i :| 0 <= i < |outcomes| - 1 && outcomes[1..][i].Some? && outcomes[1..][i].value.code == code;
        assert outcomes[i + 1] == outcomes[1..][i];
      }
      if outcomes[0].Some? && outcomes[0].value.code == code {
        assert outcomes[0].value in Pushed(outcomes[0]);
      }
    }
  }

  function AllBlockers(targets: Targets, stages: seq<Collisions.Stage>, collisions: seq<Collisions.Collision>,
                       dualRunByStage: map<string, real>, estimated: real, parseDate: string -> Option<(int, int)>): (r: seq<Blocker>)
    requires |stages| > 0
    ensures |r| <= 7
  {
    PushAll(Checks(targets, stages, collisions, dualRunByStage, estimated, parseDate))
  }

  /**
   * A schedule blocker is there exactly when the deadline resolves and the
   * last stage ends after it; a collision blocker exactly when there are
   * collisions; a dependency blocker exactly when a required system is
   * missing.
   */
  lemma AllBlockersCodes(targets: Targets, stages: seq<Collisions.Stage>, collisions: seq<Collisions.Collision>,
                         dualRunByStage: map<string, real>, estimated: real, parseDate: string -> Option<(int, int)>)
    requires |stages| > 0
    ensures var all := AllBlockers(targets, stages, collisions, dualRunByStage, estimated, parseDate);
            var deadline := ResolveDeadlineIndex(targets.deadline, parseDate);
            (HasCode(all, ScheduleTooShort) <==> deadline.Some? && MaxEnd(stages) > deadline.value) &&
            (HasCode(all, CollisionPressure) <==> |collisions| > 0) &&
            (HasCode(all, DependencyGate) <==> |MissingSystems(stages, targets.requiredSystems)| > 0)
  {
    var checks := Checks(targets, stages, collisions, dualRunByStage, estimated, parseDate);
    assert |targets.requiredSystems| == 0 ==> |MissingSystems(stages, targets.requiredSystems)| == 0;
    OwnCheck(checks, 0);
    OwnCheck(checks, 2);
    OwnCheck(checks, 5);
  }

  /** The result for a non-empty stage list whose delivery floor is `estimated`. */
  function Evaluate(targets: Targets, stages: seq<Collisions.Stage>, collisions: seq<Collisions.Collision>,
                    dualRunByStage: map<string, real>, estimated: real, parseDate: string -> Option<(int, int)>): (r: Result)
    requires |stages| > 0
    ensures r.blockers == AllBlockers(targets, stages, collisions, dualRunByStage, estimated, parseDate)
  {
    var blockers := AllBlockers(targets, stages, collisions, dualRunByStage, estimated, parseDate);
    Result(
      StatusOf(blockers),
      SceneHelpers.Clamp01(Finite(0.9 - (|blockers| as real) * 0.15)),
      blockers,
      Some(MaxInt(0, MaxEnd(stages) - MinStart(stages) + 1)),
      Some(estimated),
      ComputeDeadlineWhatIf(ResolveDeadlineIndex(targets.deadline, parseDate), MaxEnd(stages), blockers))
  }

  /**
   * The status follows the worst blocker, the confidence falls by 0.15 per
   * blocker from 0.9 and stays within [0, 1], and with no blocker at all
   * the plan is feasible with confidence 0.9.
   */
  lemma EvaluateStatus(targets: Targets, stages: seq<Collisions.Stage>, collisions: seq<Collisions.Collision>,
                       dualRunByStage: map<string, real>, estimated: real, parseDate: string -> Option<(int, int)>)
    requires |stages| > 0
    ensures var r := Evaluate(targets, stages, collisions, dualRunByStage, estimated, parseDate);
            (r.status == NotFeasible <==> HasSeverity3(r.blockers)) &&
            (r.status == Feasible <==> forall b :: b in r.blockers ==> b.severity == 1) &&
            0.0 <= r.confidence <= 0.9 &&
            (|r.blockers| == 0 ==> r.status == Feasible && r.confidence == 0.9)
  {
  }

  /**
   * A schedule blocker is there exactly when the deadline resolves and the
   * last stage ends after it, a collision blocker exactly when there are
   * collisions, a dependency blocker exactly when a required system is
   * missing; the what-if table exists exactly when the schedule blocker does.
   */
  lemma EvaluateCodes(targets: Targets, stages: seq<Collisions.Stage>, collisions: seq<Collisions.Collision>,
                      dualRunByStage: map<string, real>, estimated: real, parseDate: string -> Option<(int, int)>)
    requires |stages| > 0
    ensures var r := Evaluate(targets, stages, collisions, dualRunByStage, estimated, parseDate);
            var deadline := ResolveDeadlineIndex(targets.deadline, parseDate);
            (HasCode(r.blockers, ScheduleTooShort) <==> deadline.Some? && MaxEnd(stages) > deadline.value) &&
            (HasCode(r.blockers, CollisionPressure) <==> |collisions| > 0) &&
            (HasCode(r.blockers, DependencyGate) <==> |MissingSystems(stages, targets.requiredSystems)| > 0) &&
            (r.whatIf.Some? <==> deadline.Some? && MaxEnd(stages) > deadline.value)
  {
    AllBlockersCodes(targets, stages, collisions, dualRunByStage, estimated, parseDate);
  }

  /** The minimum duration spans from the earliest start to the latest end. */
  lemma EvaluateDuration(targets: Targets, stages: seq<Collisions.Stage>, collisions: seq<Collisions.Collision>,
                         dualRunByStage: map<string, real>, estimated: real, parseDate: string -> Option<(int, int)>)
    requires |stages| > 0
    ensures var r := Evaluate(targets, stages, collisions, dualRunByStage, estimated, parseDate);
            r.durationMonths.Some? &&
            (forall s :: s in stages ==> r.durationMonths.value >= s.endIndex - s.startIndex + 1) &&
            exists a, b :: a in stages && b in stages && r.durationMonths.value == MaxInt(0, b.endIndex - a.startIndex + 1)
  {
  }

  /**
   * `evaluateFeasibility`; `dualRunByStage` holds the dual-run months of each
   * stage's scenario and `burdenCost` the integration burden of each stage
   * that has one.
   */
  method EvaluateFeasibility(
    targets: Targets,
    stages: seq<Collisions.Stage>,
    collisions: seq<Collisions.Collision>,
    dualRunByStage: map<string, real>,
    burdenCost: map<string, real>,
    parseDate: string -> Option<(int, int)>)
    returns (r: Result)
    ensures |stages| == 0 ==> r == NoStages
    ensures |stages| > 0 ==> r == Evaluate(targets, stages, collisions, dualRunByStage, BudgetFloor(stages, burdenCost), parseDate)
    ensures |stages| > 0 ==> r.budgetFloor == Some(BudgetFloor(stages, burdenCost))
  {
    if |stages| == 0 {
      return NoStages;
    }
    var estimated := EstimateBudget(stages, burdenCost);
    r := Evaluate(targets, stages, collisions, dualRunByStage, estimated, parseDate);
  }
}
