/**
 * Stage timelines and collision detection for a transformation sequence
 * (src/lib/sequencer/collisions.ts).
 *
 * A stage occupies an inclusive range of month indices (year * 12 + month - 1).
 * Two stages collide when their ranges intersect and they touch a common
 * system, integration or domain; the collision's severity and qualification
 * rules follow from what they share.
 */
module Collisions {
  import opened Common
  import opened Text
  import StableSort
  import Pairs
  import Grouping

  /** A stage of the stage catalogue (`SequencerStage`); an absent field is None. */
  datatype StageDef = StageDef(
    id: string,
    title: Option<string>,
    fyStart: Option<string>,
    fyEnd: Option<string>,
    startMonth: Option<int>,
    endMonth: Option<int>,
    systemsTouched: Option<seq<string>>,
    integrationsTouched: Option<seq<string>>,
    domainsTouched: Option<seq<string>>,
    criticalSystems: Option<seq<string>>)

  datatype StageSet = StageSet(stages: seq<StageDef>)

  datatype Scenario = Scenario(id: string, title: string)

  datatype SequenceLike = SequenceLike(id: string, fyStart: string, fyEnd: string, scenarios: seq<Scenario>)

  /** `StageWithTimeline`: a stage placed on the month axis, with its touched lists defaulted to []. */
  datatype Stage = Stage(
    stageId: string,
    title: string,
    waveLabel: string,
    startIndex: int,
    endIndex: int,
    systems: seq<string>,
    integrations: seq<string>,
    domains: seq<string>,
    critical: seq<string>)

  datatype Severity = Low | Medium | High

  datatype Rule = SharedIntegrationOverlap | SharedCriticalSystemOverlap | SharedSystemOverlap | SharedDomainOverlap

  datatype Collision = Collision(
    aStageId: string,
    bStageId: string,
    overlapStart: string,
    overlapEnd: string,
    sharedSystems: seq<string>,
    sharedIntegrations: seq<string>,
    sharedDomains: seq<string>,
    severity: Severity,
    rules: seq<Rule>)

  datatype Conflict = Conflict(stageId: string, count: int)

  /** `CollisionReport`; `stageOrder` is the insertion order of the keys of `collisionsByStageId`. */
  datatype Report = Report(
    collisions: seq<Collision>,
    byStage: map<string, seq<Collision>>,
    stageOrder: seq<string>,
    topConflicts: seq<Conflict>)

  // ---------------------------------------------------------------- fiscal years

  /** `s[i..i+4]` matches `/FY\d{2}/i`. */
  predicate FyAt(s: string, i: int)
  {
    && 0 <= i && i + 4 <= |s|
    && (s[i] == 'F' || s[i] == 'f')
    && (s[i + 1] == 'Y' || s[i + 1] == 'y')
    && IsDigit(s[i + 2]) && IsDigit(s[i + 3])
  }

  /** The first position at or after `from` where the pattern matches. */
  function FirstFy(s: string, from: nat): (r: Option<nat>)
    ensures r.Some? ==> from <= r.value && FyAt(s, r.value) && forall k :: from <= k < r.value ==> !FyAt(s, k)
    ensures r.None? ==> forall k :: from <= k ==> !FyAt(s, k)
    decreases |s| - from
  {
    if from + 4 > |s| then None
    else if FyAt(s, from) then Some(from)
    else FirstFy(s, from + 1)
  }

  /** `parseFiscalYear`: 2000 plus the two digits of the first `FYnn` (any case), or null. */
  function ParseFiscalYear(text: Option<string>): (r: Option<int>)
    ensures r.Some? ==> 2000 <= r.value <= 2099
    ensures r.None? <==> text.None? || forall k :: 0 <= k < |text.value| ==> !FyAt(text.value, k)
  {
    if text.None? then None
    else
      var s := text.value;
      match FirstFy(s, 0)
      case None => None
      case Some(i) => Some(2000 + DigitValue(s[i + 2]) * 10 + DigitValue(s[i + 3]))
  }

  /** `String(year).slice(-2)`. */
  function LastTwo(s: string): (r: string)
    ensures |r| == MinInt(2, |s|) && r == s[|s| - |r|..]
  {
    if |s| <= 2 then s else s[|s| - 2..]
  }

  /** `Math.floor(index / 12)`: Dafny's division by a positive number rounds down too. */
  function FiscalYearOf(index: int): int { index / 12 }

  /** `(index % 12) + 1` with JavaScript's truncating `%`. */
  function FiscalMonthOf(index: int): (m: int)
    ensures index >= 0 ==> 1 <= m <= 12 && index == FiscalYearOf(index) * 12 + m - 1
    ensures index < 0 ==> -10 <= m <= 1
  {
    JsRem(index, 12) + 1
  }

  /** `formatFiscalMonth`: `FYyy · Mm`. */
  function FormatFiscalMonth(index: int): string
  {
    "FY" + LastTwo(IntToString(FiscalYearOf(index))) + " \U{00B7} M" + IntToString(FiscalMonthOf(index))
  }

  /** The last two characters of a number of at least two digits are its tens and units digits. */
  lemma LastTwoDigits(n: nat)
    requires n >= 10
    ensures LastTwo(NatToString(n)) == [DigitChar((n / 10) % 10), DigitChar(n % 10)]
  {
    var t := NatToString(n / 10);
    assert NatToString(n) == t + [DigitChar(n % 10)];
    assert t[|t| - 1] == DigitChar((n / 10) % 10);
  }

  /**
   * The fiscal month label is read back by `parseFiscalYear` as the index's
   * year, for every index in fiscal years 2000 to 2099; its month is in 1..12.
   */
  lemma FormatFiscalMonthRoundTrip(index: int)
    requires 2000 * 12 <= index < 2100 * 12
    ensures ParseFiscalYear(Some(FormatFiscalMonth(index))) == Some(FiscalYearOf(index))
    ensures 1 <= FiscalMonthOf(index) <= 12
  {
    var y := FiscalYearOf(index);
    assert 2000 <= y < 2100 by {
      DivModUnique(y, 12, index % 12);
    }
    var s := FormatFiscalMonth(index);
    FormatHead(index, y);
    ParseLeadingFy(s);
    YearDigits(y);
  }

  lemma FormatHead(index: int, y: int)
    requires y == FiscalYearOf(index) && 2000 <= y < 2100
    ensures var s := FormatFiscalMonth(index);
            |s| >= 4 && s[0] == 'F' && s[1] == 'Y'
            && s[2] == DigitChar((y / 10) % 10) && s[3] == DigitChar(y % 10)
  {
    LastTwoDigits(y);
  }

  /** A label that starts with `FY` and two digits is read as that year. */
  lemma ParseLeadingFy(s: string)
    requires |s| >= 4 && s[0] == 'F' && s[1] == 'Y' && IsDigit(s[2]) && IsDigit(s[3])
    ensures ParseFiscalYear(Some(s)) == Some(2000 + DigitValue(s[2]) * 10 + DigitValue(s[3]))
  {
    assert FyAt(s, 0);
  }

  /** The tens and units digits of a year of this century. */
  lemma YearDigits(y: int)
    requires 2000 <= y < 2100
    ensures ((y / 10) % 10) * 10 + y % 10 == y - 2000
  {
    var r := y - 2000;
    DivModUnique(200 + r / 10, 10, r % 10);
    DivModUnique(20, 10, r / 10);
  }

  /** `createFallbackStartIndex`: quarter `position % 4` of the label's year (2026 when it has none). */
  function FallbackStartIndex(fyLabel: string, position: nat): (r: int)
    ensures r / 12 == ParseFiscalYear(Some(fyLabel)).GetOr(2026)
    ensures r % 12 == (position % 4) * 3
  {
    var baseYear := ParseFiscalYear(Some(fyLabel)).GetOr(2026);
    DivModUnique(baseYear, 12, (position % 4) * 3);
    baseYear * 12 + (position % 4) * 3
  }

  predicate ValidMonth(month: Option<int>)
  {
    month.Some? && 1 <= month.value <= 12
  }

  /**
   * `resolveMonthIndex`: the label's fiscal year (else the fallback's year)
   * and the given month when it is in 1..12 (else the fallback's month).
   */
  function ResolveMonthIndex(fyLabel: Option<string>, month: Option<int>, fallback: int): (r: int)
    ensures ValidMonth(month) || fallback >= 0 ==>
              r / 12 == ParseFiscalYear(fyLabel).GetOr(fallback / 12)
              && r % 12 == (if ValidMonth(month) then month.value - 1 else fallback % 12)
    ensures ParseFiscalYear(fyLabel).None? && !ValidMonth(month) && fallback >= 0 ==> r == fallback
  {
    var year := ParseFiscalYear(fyLabel).GetOr(fallback / 12);
    var safeMonth := if ValidMonth(month) then month.value else JsRem(fallback, 12) + 1;
    if 1 <= safeMonth <= 12 then
      DivModUnique(year, 12, safeMonth - 1);
      year * 12 + (safeMonth - 1)
    else
      year * 12 + (safeMonth - 1)
  }

  /**
   * `withTimeline`: the definition (or a bare stage made from the scenario)
   * placed on the month axis; start and end are ordered.
   */
  function WithTimeline(definition: Option<StageDef>, scenario: Scenario, waveLabel: string, fallbackStart: int): (st: Stage)
    ensures st.startIndex <= st.endIndex
    ensures st.stageId == scenario.id && st.waveLabel == waveLabel
    ensures definition.None? ==> st.title == scenario.title && st.systems == [] && st.integrations == []
                                 && st.domains == [] && st.critical == []
    ensures definition.None? && fallbackStart >= 0 ==> st.startIndex == fallbackStart && st.endIndex == fallbackStart + 2
    ensures definition.Some? ==> st.title == definition.value.title.GetOr(scenario.title)
                                 && st.systems == definition.value.systemsTouched.GetOr([])
                                 && st.integrations == definition.value.integrationsTouched.GetOr([])
                                 && st.domains == definition.value.domainsTouched.GetOr([])
                                 && st.critical == definition.value.criticalSystems.GetOr([])
  {
    var base := if definition.Some? then definition.value
                else StageDef(scenario.id, Some(scenario.title), None, None, None, None, None, None, None, None);
    var startIndex := ResolveMonthIndex(base.fyStart, base.startMonth, fallbackStart);
    var endMonth := if base.endMonth.Some? then base.endMonth else base.startMonth;
    var fyEnd := if base.fyEnd.Some? then base.fyEnd else base.fyStart;
    var endIndex := ResolveMonthIndex(fyEnd, endMonth, startIndex + 2);
    Stage(
      scenario.id,
      base.title.GetOr(scenario.title),
      waveLabel,
      MinInt(startIndex, endIndex),
      MaxInt(startIndex, endIndex),
      base.systemsTouched.GetOr([]),
      base.integrationsTouched.GetOr([]),
      base.domainsTouched.GetOr([]),
      base.criticalSystems.GetOr([]))
  }

  // ---------------------------------------------------------------- one pair of stages

  predicate InRange(st: Stage, m: int)
  {
    st.startIndex <= m <= st.endIndex
  }

  /** `doStagesOverlap`: inclusive interval intersection. */
  predicate DoStagesOverlap(a: Stage, b: Stage)
  {
    a.startIndex <= b.endIndex && b.startIndex <= a.endIndex
  }

  /** Overlap is symmetric and, for ordered ranges, means a month that both stages occupy. */
  lemma OverlapMeansCommonMonth(a: Stage, b: Stage)
    requires a.startIndex <= a.endIndex && b.startIndex <= b.endIndex
    ensures DoStagesOverlap(a, b) == DoStagesOverlap(b, a)
    ensures DoStagesOverlap(a, b) <==> exists m :: InRange(a, m) && InRange(b, m)
  {
    if DoStagesOverlap(a, b) {
      assert InRange(a, MaxInt(a.startIndex, b.startIndex)) && InRange(b, MaxInt(a.startIndex, b.startIndex));
    }
  }

  /** `intersectStrings`: the elements of `a` (in order, with repeats) that occur in `b`. */
  function IntersectStrings(a: seq<string>, b: seq<string>): (r: seq<string>)
    ensures forall x :: x in r <==> x in a && x in b
    ensures IsSubsequence(r, a)
    ensures a == [] || b == [] ==> r == []
  {
    if |a| == 0 || |b| == 0 then [] else Filter(a, x => x in b)
  }

  /** `sharedSystems.some(...)`: a shared system is critical for either stage. */
  predicate HasCriticalOverlap(sharedSystems: seq<string>, a: Stage, b: Stage)
  {
    exists x :: x in sharedSystems && (x in a.critical || x in b.critical)
  }

  /** `resolveSeverity`; when no flag is passed the critical overlap is computed from the critical lists. */
  function ResolveSeverity(sharedSystems: seq<string>, sharedIntegrations: seq<string>, a: Stage, b: Stage,
                           hasCriticalOverlap: Option<bool>): (s: Severity)
    ensures var critical := if hasCriticalOverlap.Some? then hasCriticalOverlap.value
                            else HasCriticalOverlap(sharedSystems, a, b);
            && (s == High <==> sharedIntegrations != [] || critical)
            && (s == Medium <==> sharedIntegrations == [] && !critical && sharedSystems != [])
            && (s == Low <==> sharedIntegrations == [] && !critical && sharedSystems == [])
  {
    var criticalSet := set x | x in a.critical + b.critical;
    if sharedIntegrations != [] then High
    else if (if hasCriticalOverlap.Some? then hasCriticalOverlap.value
             else exists x :: x in sharedSystems && x in criticalSet) then High
    else if sharedSystems != [] then Medium
    else Low
  }

  /** The qualification rules of a collision, in the order they are pushed. */
  function Rules(sharedSystems: seq<string>, sharedIntegrations: seq<string>, sharedDomains: seq<string>,
                 critical: bool): (r: seq<Rule>)
    ensures !(SharedCriticalSystemOverlap in r && SharedSystemOverlap in r)
    ensures SharedIntegrationOverlap in r <==> sharedIntegrations != []
    ensures SharedCriticalSystemOverlap in r <==> critical
    ensures SharedSystemOverlap in r <==> !critical && sharedSystems != []
    ensures SharedDomainOverlap in r <==> sharedDomains != []
  {
    (if sharedIntegrations != [] then [SharedIntegrationOverlap] else [])
    + (if critical then [SharedCriticalSystemOverlap] else if sharedSystems != [] then [SharedSystemOverlap] else [])
    + (if sharedDomains != [] then [SharedDomainOverlap] else [])
  }

  /** `buildOverlapRange`: the later start and the earlier end, inside both stages when they overlap. */
  function OverlapBounds(a: Stage, b: Stage): (r: (int, int))
    ensures DoStagesOverlap(a, b) && a.startIndex <= a.endIndex && b.startIndex <= b.endIndex ==>
              r.0 <= r.1 && InRange(a, r.0) && InRange(b, r.0) && InRange(a, r.1) && InRange(b, r.1)
    ensures forall m :: InRange(a, m) && InRange(b, m) ==> r.0 <= m <= r.1
  {
    (MaxInt(a.startIndex, b.startIndex), MinInt(a.endIndex, b.endIndex))
  }

  /** The collision of stages `a` and `b`, if they overlap and share a system, integration or domain. */
  function CollisionFor(a: Stage, b: Stage): (r: Option<Collision>)
    ensures r.Some? <==> DoStagesOverlap(a, b)
                         && (IntersectStrings(a.systems, b.systems) != []
                             || IntersectStrings(a.integrations, b.integrations) != []
                             || IntersectStrings(a.domains, b.domains) != [])
    ensures r.Some? ==> r.value.aStageId == a.stageId && r.value.bStageId == b.stageId
  {
    var sharedSystems := IntersectStrings(a.systems, b.systems);
    var sharedIntegrations := IntersectStrings(a.integrations, b.integrations);
    var sharedDomains := IntersectStrings(a.domains, b.domains);
    if !DoStagesOverlap(a, b) then None
    else if sharedSystems == [] && sharedIntegrations == [] && sharedDomains == [] then None
    else
      var critical := HasCriticalOverlap(sharedSystems, a, b);
      var bounds := OverlapBounds(a, b);
      Some(Collision(
        a.stageId,
        b.stageId,
        FormatFiscalMonth(bounds.0),
        FormatFiscalMonth(bounds.1),
        sharedSystems,
        sharedIntegrations,
        sharedDomains,
        ResolveSeverity(sharedSystems, sharedIntegrations, a, b, Some(critical)),
        Rules(sharedSystems, sharedIntegrations, sharedDomains, critical)))
  }

  /**
   * The severity of a collision agrees with its rules: high exactly when an
   * integration or critical-system rule is present, medium exactly for a plain
   * shared-system rule, low when only domains are shared.
   */
  lemma SeverityMatchesRules(a: Stage, b: Stage)
    requires CollisionFor(a, b).Some?
    ensures var c := CollisionFor(a, b).value;
            && (c.severity == High <==> SharedIntegrationOverlap in c.rules || SharedCriticalSystemOverlap in c.rules)
            && (c.severity == Medium <==> SharedSystemOverlap in c.rules && SharedIntegrationOverlap !in c.rules)
            && (c.severity == Low <==> c.rules == [SharedDomainOverlap])
  {
    var c := CollisionFor(a, b).value;
    var critical := HasCriticalOverlap(c.sharedSystems, a, b);
    if critical {
      var x :| x in c.sharedSystems && (x in a.critical || x in b.critical);
      assert x in c.sharedSystems;
    }
  }

  // ---------------------------------------------------------------- all pairs

  /** The collisions `detectCollisions` lists, in the order of its nested loops over i < j. */
  function AllCollisions(stages: seq<Stage>): seq<Collision>
  {
    Pairs.All(stages, CollisionFor)
  }

  /**
   * A collision is reported exactly when some pair i < j of stages overlaps
   * and shares a system, integration or domain; it names the two stages in
   * that order.
   */
  lemma CollisionsFromPairs(stages: seq<Stage>, c: Collision)
    ensures c in AllCollisions(stages) <==> exists i, j :: Pairs.Yields(stages, CollisionFor, i, j, c)
  {
    Pairs.AllMembers(stages, CollisionFor, c);
  }

  // ---------------------------------------------------------------- the per-stage index

  /** Each collision filed under its first stage id, then under its second. */
  function Entries(cs: seq<Collision>): seq<(string, Collision)>
  {
    if |cs| == 0 then []
    else
      var c := cs[|cs| - 1];
      Entries(cs[..|cs| - 1]) + [(c.aStageId, c), (c.bStageId, c)]
  }

  /** The stage ids named by the collisions, `a` before `b`, in order. */
  function StageIds(cs: seq<Collision>): seq<string>
  {
    Grouping.Keys(Entries(cs))
  }

  /** The list kept under `id`: each collision once per side that names `id`. */
  function Mentions(cs: seq<Collision>, id: string): seq<Collision>
  {
    Grouping.Listed(Entries(cs), id)
  }

  lemma EntriesAppend(cs: seq<Collision>, c: Collision)
    ensures Entries(cs + [c]) == Entries(cs) + [(c.aStageId, c), (c.bStageId, c)]
  {
    assert (cs + [c])[..|cs|] == cs;
  }

  /** Each collision is listed under both of its stage ids. */
  lemma {:induction false} ListedUnderBoth(cs: seq<Collision>, c: Collision)
    requires c in cs
    ensures c in Mentions(cs, c.aStageId) && c in Mentions(cs, c.bStageId)
  {
    var k :| 0 <= k < |cs| && cs[k] == c;
    var init := cs[..k];
    EntriesAppend(init, c);
    var es := Entries(init + [c]);
    Grouping.EntryListed(es, |es| - 2);
    Grouping.EntryListed(es, |es| - 1);
    EntriesPrefix(cs, k + 1);
    assert cs[..k + 1] == init + [c];
    Grouping.ListedPrefix(Entries(cs), |es|, c.aStageId);
    Grouping.ListedPrefix(Entries(cs), |es|, c.bStageId);
  }

  lemma {:induction false} EntriesPrefix(cs: seq<Collision>, n: nat)
    requires n <= |cs|
    ensures |Entries(cs[..n])| == 2 * n <= |Entries(cs)|
    ensures Entries(cs[..n]) == Entries(cs)[..2 * n]
    decreases |cs| - n
  {
    if n < |cs| {
      EntriesPrefix(cs, n + 1);
      assert cs[..n + 1][..n] == cs[..n];
    } else {
      assert cs[..n] == cs;
      EntriesLength(cs);
    }
  }

  lemma {:induction false} EntriesLength(cs: seq<Collision>)
    ensures |Entries(cs)| == 2 * |cs|
  {
    if |cs| > 0 {
      EntriesLength(cs[..|cs| - 1]);
    }
  }

  function ConflictCount(t: Conflict): int { t.count }

  /** The double loop of `detectCollisions`: every pair `i < j` in stage order, each collision filed under both stages. */
  method DetectPairs(stages: seq<Stage>, pairRule: (Stage, Stage) -> Option<Collision>)
    returns (collisions: seq<Collision>, byStage: Grouping.Dict<string, Collision>)
    ensures collisions == Pairs.All(stages, pairRule)
    ensures byStage == Grouping.Group(Entries(collisions))
  {
    collisions, byStage := [], Grouping.Dict(map[], []);
    var i := 0;
    while i < |stages|
      invariant 0 <= i <= |stages|
      invariant collisions == Pairs.Upto(stages, pairRule, i)
      invariant byStage == Grouping.Group(Entries(collisions))
    {
      collisions, byStage := DetectRow(stages, pairRule, i, collisions, byStage);
      i := i + 1;
    }
  }

  /** `Object.entries(collisionsByStageId).map(...)`: one count per key, in key order. */
  function Tally(cs: seq<Collision>): (r: seq<Conflict>)
    ensures |r| == |Dedup(StageIds(cs))|
  {
    var order := Dedup(StageIds(cs));
    seq(|order|, k requires 0 <= k < |order| => Conflict(order[k], |Mentions(cs, order[k])|))
  }

  /** `topConflicts`: the tally sorted by count, most conflicts first, stable on ties. */
  function TopConflicts(cs: seq<Collision>): seq<Conflict>
  {
    StableSort.SortDesc(Tally(cs), ConflictCount)
  }

  /**
   * Every entry of the top conflicts names a stage of some collision and
   * carries the number of collisions listed under it, which is at least one;
   * the list is sorted by count, most first.
   */
  lemma TopConflictsCount(cs: seq<Collision>, t: Conflict)
    requires t in TopConflicts(cs)
    ensures t.stageId in StageIds(cs)
    ensures t.count == |Mentions(cs, t.stageId)| >= 1
    ensures StableSort.SortedDesc(TopConflicts(cs), ConflictCount)
  {
    assert t in multiset(TopConflicts(cs));
    assert t in Tally(cs);
    var order := Dedup(StageIds(cs));
    var k :| 0 <= k < |order| && Tally(cs)[k] == t;
    assert order[k] in order;
    Grouping.ListedNonEmpty(Entries(cs), t.stageId);
  }

  // ---------------------------------------------------------------- detectCollisions

  /** The two record updates for one collision: under its first stage id, then under its second. */
  function FileUnder(byStage: Grouping.Dict<string, Collision>, c: Collision): Grouping.Dict<string, Collision>
  {
    Grouping.Push(Grouping.Push(byStage, c.aStageId, c), c.bStageId, c)
  }

  /** Filing a collision under both of its stage ids gives the record of the entries with its two entries added. */
  lemma FileCollision(es: seq<(string, Collision)>, c: Collision)
    ensures FileUnder(Grouping.Group(es), c) == Grouping.Group(es + [(c.aStageId, c), (c.bStageId, c)])
  {
    Grouping.GroupStep(es, (c.aStageId, c));
    Grouping.GroupStep(es + [(c.aStageId, c)], (c.bStageId, c));
    assert es + [(c.aStageId, c)] + [(c.bStageId, c)] == es + [(c.aStageId, c), (c.bStageId, c)];
  }

  /** The inner loop: stage `i` against every later stage, with the pair rule (`CollisionFor`) as a parameter. */
  method DetectRow(stages: seq<Stage>, pairRule: (Stage, Stage) -> Option<Collision>, i: nat,
                   collisions: seq<Collision>, byStage: Grouping.Dict<string, Collision>)
    returns (collisions': seq<Collision>, byStage': Grouping.Dict<string, Collision>)
    requires i < |stages| && collisions == Pairs.Upto(stages, pairRule, i)
    requires byStage == Grouping.Group(Entries(collisions))
    ensures collisions' == Pairs.Upto(stages, pairRule, i + 1)
    ensures byStage' == Grouping.Group(Entries(collisions'))
  {
    collisions', byStage' := collisions, byStage;
    var j := i + 1;
    while j < |stages|
      invariant i + 1 <= j <= |stages|
      invariant collisions' == collisions + Pairs.Row(stages, pairRule, i, j)
      invariant byStage' == Grouping.Group(Entries(collisions'))
    {
      var found := pairRule(stages[i], stages[j]);
      ghost var sofar := collisions';
      collisions', byStage' := FileFound(collisions', byStage', found);
      var next := j + 1;
      Pairs.RowNext(stages, pairRule, i, j, next, collisions, sofar, collisions');
      j := next;
    }
    Pairs.UptoNext(stages, pairRule, i, j, collisions, collisions');
  }

  /** Records a collision the pair rule found, under both of its stage ids; nothing when it found none. */
  method FileFound(collisions: seq<Collision>, byStage: Grouping.Dict<string, Collision>, found: Option<Collision>)
    returns (collisions': seq<Collision>, byStage': Grouping.Dict<string, Collision>)
    requires byStage == Grouping.Group(Entries(collisions))
    ensures collisions' == collisions + Pairs.OptList(found)
    ensures byStage' == Grouping.Group(Entries(collisions'))
  {
    collisions', byStage' := collisions, byStage;
    if found.Some? {
      var c := found.value;
      FileCollision(Entries(collisions), c);
      EntriesAppend(collisions, c);
      collisions' := collisions + [c];
      byStage' := FileUnder(byStage, c);
    } else {
      assert collisions' == collisions + Pairs.OptList(found);
    }
  }

  /**
   * `detectCollisions`: every qualifying pair i < j in loop order, each
   * collision filed under both stage ids, and the per-stage counts sorted
   * most first.
   */
  method DetectCollisions(stages: seq<Stage>) returns (report: Report)
    ensures report.collisions == AllCollisions(stages)
    ensures report.stageOrder == Dedup(StageIds(report.collisions))
    ensures forall id :: id in report.byStage <==> id in StageIds(report.collisions)
    ensures forall id :: id in report.byStage ==> report.byStage[id] == Mentions(report.collisions, id)
    ensures report.topConflicts == TopConflicts(report.collisions)
  {
    var collisions, byStage := DetectPairs(stages, CollisionFor);
    Grouping.GroupGroups(Entries(collisions));
    var tally := TallyConflicts(byStage, collisions);
    report := Report(collisions, byStage.lists, byStage.order, StableSort.SortDesc(tally, ConflictCount));
  }

  /** `Object.entries(collisionsByStageId).map(([stageId, list]) => ({ stageId, count: list.length }))`. */
  method TallyConflicts(byStage: Grouping.Dict<string, Collision>, ghost collisions: seq<Collision>)
    returns (tally: seq<Conflict>)
    requires byStage == Grouping.Group(Entries(collisions))
    ensures tally == Tally(collisions)
  {
    Grouping.GroupOrder(Entries(collisions));
    assert |byStage.order| == |Tally(collisions)|;
    tally := [];
    var k := 0;
    while k < |byStage.order|
      invariant 0 <= k <= |byStage.order|
      invariant tally == Tally(collisions)[..k]
      invariant byStage.order == Dedup(StageIds(collisions))
    {
      var id := byStage.order[k];
      Grouping.GroupAt(Entries(collisions), id);
      assert Conflict(id, |byStage.lists[id]|) == Tally(collisions)[k];
      var next := k + 1;
      PrefixStep(Tally(collisions), k, next);
      tally := tally + [Conflict(id, |byStage.lists[id]|)];
      k := next;
    }
    assert Tally(collisions)[..k] == Tally(collisions);
  }

  // ---------------------------------------------------------------- highest severity

  function SeverityRank(s: Severity): int
  {
    match s
    case High => 3
    case Medium => 2
    case Low => 1
  }

  function CollisionRank(c: Collision): int { SeverityRank(c.severity) }

  /** `highestSeverity`: the severity of the first collision after a stable sort by rank, most severe first. */
  function HighestSeverity(cs: seq<Collision>): (r: Option<Severity>)
    ensures r.None? <==> cs == []
    ensures r.Some? ==> exists c :: c in cs && c.severity == r.value
    ensures r.Some? ==> forall c :: c in cs ==> SeverityRank(c.severity) <= SeverityRank(r.value)
  {
    if |cs| == 0 then None
    else
      var sorted := StableSort.SortDesc(cs, CollisionRank);
      assert sorted[0] in multiset(cs);
      forall c | c in cs
        ensures SeverityRank(c.severity) <= SeverityRank(sorted[0].severity)
      {
        assert c in multiset(sorted);
        var k :| 0 <= k < |sorted| && sorted[k] == c;
        if k > 0 {
          assert CollisionRank(sorted[0]) >= CollisionRank(sorted[k]);
        }
      }
      Some(sorted[0].severity)
  }

  // ---------------------------------------------------------------- fiscal bands

  /** `count` consecutive years from `first`. */
  function Years(first: int, count: nat): (ys: seq<int>)
    ensures |ys| == count && forall k :: 0 <= k < count ==> ys[k] == first + k
  {
    seq(count, k requires 0 <= k < count => first + k)
  }

  /** The years of `for (year = startYear; year <= endYear; year += 1)`. */
  function YearRange(startYear: int, endYear: int): seq<int>
  {
    Years(startYear, if endYear >= startYear then endYear - startYear + 1 else 0)
  }

  /** `FY${String(year).slice(-2)} Wave ${wave}`. */
  function BandLabel(year: int, wave: nat): string
  {
    "FY" + LastTwo(IntToString(year)) + " Wave " + NatToString(wave)
  }

  /** The labels used when the range has no fiscal year: `${start} · Wave ${idx + 1}`. */
  function FallbackBands(start: string, n: nat): (r: seq<string>)
    ensures |r| == n
  {
    seq(n, k requires 0 <= k < n => start + " \U{00B7} Wave " + NatToString(k + 1))
  }

  /** `n` bands cycling through `years`, numbered from 1. */
  function CycleBands(years: seq<int>, n: nat): (r: seq<string>)
    requires |years| > 0
    ensures |r| == n
  {
    seq(n, k requires 0 <= k < n => BandLabel(years[k % |years|], k + 1))
  }

  /**
   * `buildFiscalBands` with a range whose end precedes its start treated like
   * a range without fiscal years (see the Findings section of README.md): one label per stage.
   */
  function FiscalBands(start: string, end: string, n: nat): (r: seq<string>)
    ensures |r| == n
  {
    var startYear := ParseFiscalYear(Some(start)).GetOr(0);
    var endYear := ParseFiscalYear(Some(end)).GetOr(startYear);
    if startYear == 0 || endYear == 0 || endYear < startYear then FallbackBands(start, n)
    else CycleBands(YearRange(startYear, endYear), n)
  }

  /** A band label reads back as its year, for every year of this century. */
  lemma BandLabelYear(year: int, wave: nat)
    requires 2000 <= year < 2100
    ensures ParseFiscalYear(Some(BandLabel(year, wave))) == Some(year)
  {
    LastTwoDigits(year);
    var s := BandLabel(year, wave);
    assert s[2] == DigitChar((year / 10) % 10) && s[3] == DigitChar(year % 10);
    ParseLeadingFy(s);
    YearDigits(year);
  }

  /**
   * With both ends parsed and in order, there is one band per stage, band `k`
   * is wave `k + 1`, and its label names the `k % years`-th year of the range.
   */
  lemma FiscalBandsCycle(start: string, end: string, n: nat, k: nat, first: int, count: nat)
    requires ParseFiscalYear(Some(start)) == Some(first) && ParseFiscalYear(Some(end)) == Some(first + count - 1)
    requires count > 0 && k < n
    ensures FiscalBands(start, end, n)[k] == BandLabel(first + k % count, k + 1)
    ensures ParseFiscalYear(Some(BandLabel(first + k % count, k + 1))) == Some(first + k % count)
  {
    var years := YearRange(first, first + count - 1);
    assert FiscalBands(start, end, n) == CycleBands(years, n);
    var y := k % count;
    assert years[y] == first + y;
    BandLabelYear(first + y, k + 1);
  }

  /** Band `r * |years| + y` names year `y` of the range. */
  lemma CycleAt(years: seq<int>, n: nat, r: nat, y: nat, k: nat)
    requires 0 < |years| && y < |years| && k == r * |years| + y && k < n
    ensures CycleBands(years, n)[k] == BandLabel(years[y], k + 1)
  {
    DivModUnique(r, |years|, y);
  }

  /** Pushing the `k`-th band while fewer than all exist extends the prefix by one. */
  lemma BandStep(all: seq<string>, k: nat, bands: seq<string>, band: string)
    requires bands == all[..MinInt(|all|, k)]
    requires k < |all| ==> all[k] == band
    ensures |bands| < |all| ==> |bands| == k && bands + [band] == all[..MinInt(|all|, k + 1)]
    ensures |bands| >= |all| ==> bands == all[..MinInt(|all|, k + 1)]
  {
    if k < |all| {
      assert all[..k + 1] == all[..k] + [all[k]];
    }
  }

  /** Enough rounds of the years cover `n` bands. */
  lemma RoundsCover(n: nat, count: nat, rounds: nat)
    requires count > 0 && rounds == (n + count - 1) / count
    ensures rounds * count >= n
  {
    var x := n + count - 1;
    assert x == rounds * count + x % count;
  }

  /** The inner `forEach`: push the next bands while fewer than `n` exist. */
  method FillRound(years: seq<int>, n: nat, r: nat, bands: seq<string>) returns (bands': seq<string>)
    requires 0 < |years|
    requires bands == CycleBands(years, n)[..MinInt(n, r * |years|)]
    ensures bands' == CycleBands(years, n)[..MinInt(n, (r + 1) * |years|)]
  {
    bands' := bands;
    var y := 0;
    while y < |years|
      invariant 0 <= y <= |years|
      invariant bands' == CycleBands(years, n)[..MinInt(n, r * |years| + y)]
    {
      var next := y + 1;
      var k := r * |years| + y;
      if k < n {
        CycleAt(years, n, r, y, k);
      }
      BandStep(CycleBands(years, n), k, bands', BandLabel(years[y], k + 1));
      if |bands'| < n {
        bands' := bands' + [BandLabel(years[y], |bands'| + 1)];
      }
      y := next;
    }
    assert r * |years| + y == (r + 1) * |years|;
  }

  /** The years loop of `buildFiscalBands`. */
  method ListYears(startYear: int, endYear: int) returns (years: seq<int>)
    requires startYear <= endYear
    ensures years == YearRange(startYear, endYear)
  {
    years := [];
    var year := startYear;
    while year <= endYear
      invariant startYear <= year <= endYear + 1
      invariant years == Years(startYear, year - startYear)
    {
      var next := year + 1;
      YearsStep(startYear, year, next);
      years := years + [year];
      year := next;
    }
  }

  lemma YearsStep(first: int, year: int, next: int)
    requires first <= year && next == year + 1
    ensures Years(first, next - first) == Years(first, year - first) + [year]
  {
  }

  /** `buildFiscalBands`, with the guard of Findings: the years loop, then rounds of the years until `n` bands exist. */
  method BuildFiscalBands(start: string, end: string, n: nat) returns (bands: seq<string>)
    ensures bands == FiscalBands(start, end, n)
  {
    var startYear := ParseFiscalYear(Some(start)).GetOr(0);
    var endYear := ParseFiscalYear(Some(end)).GetOr(startYear);
    if startYear == 0 || endYear == 0 || endYear < startYear {
      return FallbackBands(start, n);
    }
    var years := ListYears(startYear, endYear);
    var count := |years|;
    var repeats := (n + count - 1) / count;
    bands := [];
    var r := 0;
    while r < repeats
      invariant 0 <= r <= repeats
      invariant bands == CycleBands(years, n)[..MinInt(n, r * count)]
    {
      var next := r + 1;
      bands := FillRound(years, n, r, bands);
      r := next;
    }
    RoundsCover(n, count, repeats);
  }

  // ---------------------------------------------------------------- fiscal bands as written

  /** `Math.ceil(n / count)` as a JavaScript number: division by zero gives Infinity, or NaN for 0 / 0. */
  function CeilDiv(n: nat, count: nat): (q: Num)
    ensures count > 0 ==> q.Finite? && q.v * (count as real) >= n as real
  {
    if count == 0 then (if n == 0 then NaN else PosInf)
    else
      RoundsCover(n, count, (n + count - 1) / count);
      Finite(((n + count - 1) / count) as real)
  }

  /** The JavaScript comparison `r < bound`. */
  predicate LessThan(r: nat, bound: Num)
  {
    match bound
    case Finite(v) => (r as real) < v
    case PosInf => true
    case _ => false
  }

  /** One round of the inner `forEach`, as a function. */
  function RoundOf(years: seq<int>, n: nat, bands: seq<string>): seq<string>
    decreases |years|
  {
    if |years| == 0 then bands
    else RoundOf(years[1..], n, if |bands| < n then bands + [BandLabel(years[0], |bands| + 1)] else bands)
  }

  /** The rounds loop as written, run for at most `fuel` rounds: None when it has not stopped by then. */
  function Rounds(years: seq<int>, n: nat, repeats: Num, r: nat, bands: seq<string>, fuel: nat): Option<seq<string>>
    decreases fuel
  {
    if !LessThan(r, repeats) then Some(bands)
    else if fuel == 0 then None
    else Rounds(years, n, repeats, r + 1, RoundOf(years, n, bands), fuel - 1)
  }

  /** `buildFiscalBands` as written, within `fuel` rounds; it only guards against unparsed years. */
  function FiscalBandsAsWritten(start: string, end: string, n: nat, fuel: nat): Option<seq<string>>
  {
    var startYear := ParseFiscalYear(Some(start)).GetOr(0);
    var endYear := ParseFiscalYear(Some(end)).GetOr(startYear);
    if startYear == 0 || endYear == 0 then Some(FallbackBands(start, n))
    else
      var years := YearRange(startYear, endYear);
      Rounds(years, n, CeilDiv(n, |years|), 0, [], fuel)
  }

  /** With no years and at least one band wanted, no number of rounds ends the loop and no band is ever pushed. */
  lemma {:induction false} EmptyRoundsNeverEnd(n: nat, r: nat, fuel: nat)
    requires n > 0
    ensures Rounds([], n, CeilDiv(n, 0), r, [], fuel) == None
    decreases fuel
  {
    if fuel > 0 {
      EmptyRoundsNeverEnd(n, r + 1, fuel - 1);
    }
  }

  /** A sequence running from FY27 to FY26 with three stages: the loop never ends, however many rounds it is given. */
  lemma ReversedRangeHangs(fuel: nat)
    ensures FiscalBandsAsWritten("FY27", "FY26", 3, fuel) == None
  {
    ParseLeadingFy("FY27");
    ParseLeadingFy("FY26");
    assert YearRange(2027, 2026) == [];
    EmptyRoundsNeverEnd(3, 0, fuel);
  }

  // ---------------------------------------------------------------- buildCollisionContext

  /** `definitionHasDetailedData`: some catalogue stage lists a touched system or integration. */
  predicate DefinitionHasDetailedData(stageSet: Option<StageSet>)
  {
    && stageSet.Some?
    && exists k :: 0 <= k < |stageSet.value.stages| && HasTouches(stageSet.value.stages[k])
  }

  predicate HasTouches(d: StageDef)
  {
    (d.systemsTouched.Some? && |d.systemsTouched.value| > 0)
    || (d.integrationsTouched.Some? && |d.integrationsTouched.value| > 0)
  }

  /** `stages.find((stage) => stage.id === id)`: the first catalogue stage with that id. */
  function FindDefinition(defs: seq<StageDef>, id: string): (r: Option<StageDef>)
    ensures r.None? <==> forall k :: 0 <= k < |defs| ==> defs[k].id != id
    ensures r.Some? ==> exists k :: 0 <= k < |defs| && defs[k] == r.value && r.value.id == id
                                   && forall j :: 0 <= j < k ==> defs[j].id != id
  {
    if |defs| == 0 then None
    else if defs[0].id == id then Some(defs[0])
    else
      var r := FindDefinition(defs[1..], id);
      if r.Some? then
        var k :| 0 <= k < |defs[1..]| && defs[1..][k] == r.value && r.value.id == id
                 && forall j :: 0 <= j < k ==> defs[1..][j].id != id;
        assert defs[k + 1] == r.value;
        r
      else r
  }

  /** The catalogue stage for a scenario: none when the sequence has no catalogue entry. */
  function DefinitionFor(stageSet: Option<StageSet>, id: string): Option<StageDef>
  {
    if stageSet.None? then None else FindDefinition(stageSet.value.stages, id)
  }

  /** The stages of a sequence: each scenario placed with its band (or a plain wave label) and its fallback start. */
  function ContextStages(sequence: SequenceLike, stageSet: Option<StageSet>, bands: seq<string>): (r: seq<Stage>)
    ensures |r| == |sequence.scenarios|
    ensures forall i :: 0 <= i < |r| ==> r[i].stageId == sequence.scenarios[i].id && r[i].startIndex <= r[i].endIndex
    ensures forall i :: 0 <= i < |r| && i < |bands| ==> r[i].waveLabel == bands[i]
  {
    var scenarios := sequence.scenarios;
    seq(|scenarios|, i requires 0 <= i < |scenarios| =>
      WithTimeline(DefinitionFor(stageSet, scenarios[i].id), scenarios[i],
                   if i < |bands| then bands[i] else sequence.fyStart + " Wave " + NatToString(i + 1),
                   FallbackStartIndex(sequence.fyStart, i)))
  }

  /** The `stageMap` filled by `set` in stage order: it holds exactly the stage ids. */
  function StageMap(stages: seq<Stage>): (m: map<string, Stage>)
    ensures forall id :: id in m <==> exists k :: 0 <= k < |stages| && stages[k].stageId == id
  {
    if |stages| == 0 then map[]
    else
      var init := stages[..|stages| - 1];
      var last := stages[|stages| - 1];
      assert forall k :: 0 <= k < |init| ==> init[k] == stages[k];
      StageMap(init)[last.stageId := last]
  }

  /** A later stage with the same id replaces an earlier one: the map holds the last stage of each id. */
  lemma {:induction false} StageMapLast(stages: seq<Stage>, k: nat)
    requires k < |stages|
    requires forall j :: k < j < |stages| ==> stages[j].stageId != stages[k].stageId
    ensures stages[k].stageId in StageMap(stages) && StageMap(stages)[stages[k].stageId] == stages[k]
  {
    if k < |stages| - 1 {
      var init := stages[..|stages| - 1];
      assert init[k] == stages[k];
      StageMapLast(init, k);
    }
  }

  datatype Context = Context(stages: seq<Stage>, stageMap: map<string, Stage>, report: Option<Report>)

  /**
   * `buildCollisionContext`: null without scenarios; otherwise the placed
   * stages, their map by id, and a collision report when the catalogue has
   * touched systems or integrations. `catalogue` stands for `STAGE_DEFINITIONS`.
   */
  method BuildCollisionContext(sequence: Option<SequenceLike>, catalogue: map<string, StageSet>)
    returns (ctx: Option<Context>)
    ensures ctx.None? <==> sequence.None? || |sequence.value.scenarios| == 0
    ensures ctx.Some? ==>
              var sq := sequence.value;
              var stageSet := if sq.id in catalogue then Some(catalogue[sq.id]) else None;
              && ctx.value.stages == ContextStages(sq, stageSet, FiscalBands(sq.fyStart, sq.fyEnd, |sq.scenarios|))
              && ctx.value.stageMap == StageMap(ctx.value.stages)
              && (ctx.value.report.Some? <==> DefinitionHasDetailedData(stageSet))
              && (ctx.value.report.Some? ==> ctx.value.report.value.collisions == AllCollisions(ctx.value.stages))
  {
    if sequence.None? || |sequence.value.scenarios| == 0 {
      return None;
    }
    var sq := sequence.value;
    var stageSet := if sq.id in catalogue then Some(catalogue[sq.id]) else None;
    var bands := BuildFiscalBands(sq.fyStart, sq.fyEnd, |sq.scenarios|);
    var stages := ContextStages(sq, stageSet, bands);
    var report: Option<Report> := None;
    if DefinitionHasDetailedData(stageSet) {
      var r := DetectCollisions(stages);
      report := Some(r);
    }
    ctx := Some(Context(stages, StageMap(stages), report));
  }

  /** Every scenario of the context's sequence is placed, in order, with its band as wave label. */
  lemma ContextWaveLabels(sq: SequenceLike, stageSet: Option<StageSet>, i: nat)
    requires i < |sq.scenarios|
    ensures var stages := ContextStages(sq, stageSet, FiscalBands(sq.fyStart, sq.fyEnd, |sq.scenarios|));
            stages[i].stageId == sq.scenarios[i].id
            && stages[i].waveLabel == FiscalBands(sq.fyStart, sq.fyEnd, |sq.scenarios|)[i]
  {
  }
}
