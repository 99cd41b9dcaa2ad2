/**
 * The small pure helpers of the sequencer scene
 * (src/components/experience/scenes/SequencerScene.tsx): month-range
 * overlap, clamping to [0, 1], lane slugs, workload sizing, fiscal labels
 * on the month axis, the five-hypothesis limit and taking components of a
 * domain out of a pool.
 */
module SceneHelpers {
  import opened Common
  import opened Text
  import Collisions

  // ---------------------------------------------------------------- ranges and clamping

  /** `rangesOverlap`: two inclusive month ranges meet. */
  predicate RangesOverlap(aStart: int, aEnd: int, bStart: int, bEnd: int)
  {
    aStart <= bEnd && bStart <= aEnd
  }

  /**
   * Overlap is symmetric, and two well-formed ranges overlap exactly when
   * the later start lies in both of them.
   */
  lemma RangesOverlapFacts(aStart: int, aEnd: int, bStart: int, bEnd: int)
    ensures RangesOverlap(aStart, aEnd, bStart, bEnd) == RangesOverlap(bStart, bEnd, aStart, aEnd)
    ensures aStart <= aEnd && bStart <= bEnd ==>
              (RangesOverlap(aStart, aEnd, bStart, bEnd) <==>
               var m := MaxInt(aStart, bStart); aStart <= m <= aEnd && bStart <= m <= bEnd)
  {
  }

  /** `clamp01`: non-finite values and values at or below 0 give 0, values at or above 1 give 1. */
  function Clamp01(value: Num): (r: real)
    ensures 0.0 <= r <= 1.0
    ensures value.Finite? && 0.0 <= value.v <= 1.0 ==> r == value.v
    ensures !value.Finite? ==> r == 0.0
  {
    if !value.Finite? then 0.0
    else if value.v <= 0.0 then 0.0
    else if value.v >= 1.0 then 1.0
    else value.v
  }

  /** Clamping a clamped value changes nothing, and clamping preserves order. */
  lemma Clamp01Facts(x: real, y: real)
    ensures Clamp01(Finite(Clamp01(Finite(x)))) == Clamp01(Finite(x))
    ensures x <= y ==> Clamp01(Finite(x)) <= Clamp01(Finite(y))
  {
  }

  // ---------------------------------------------------------------- slugs

  /** Lower-case alphanumerics and hyphens, never two hyphens in a row. */
  predicate Dashed(s: string)
  {
    && (forall k :: 0 <= k < |s| ==> IsLowerAlnum(s[k]) || s[k] == '-')
    && (forall j, k :: 0 <= j < |s| && 0 <= k < |s| && k == j + 1 ==> !(s[j] == '-' && s[k] == '-'))
  }

  /** The shape of a lane slug: lower-case alphanumerics joined by single hyphens. */
  predicate IsSlug(s: string)
  {
    |s| > 0 && Dashed(s) && s[0] != '-' && s[|s| - 1] != '-'
  }

  /** `s.replace(/^-+/, "")`. */
  function DropLeadingHyphens(s: string): (r: string)
    ensures |r| <= |s| && r == s[|s| - |r|..]
    ensures |r| > 0 ==> r[0] != '-'
  {
    if |s| > 0 && s[0] == '-' then DropLeadingHyphens(s[1..]) else s
  }

  /** `s.replace(/-+$/, "")`. */
  function DropTrailingHyphens(s: string): (r: string)
    ensures |r| <= |s| && r == s[..|r|]
    ensures |r| > 0 ==> r[|r| - 1] != '-'
    ensures |r| > 0 && |s| > 0 ==> r[0] == s[0]
  {
    if |s| > 0 && s[|s| - 1] == '-' then DropTrailingHyphens(s[..|s| - 1]) else s
  }

  /** A slice of a dashed string is dashed. */
  lemma SliceShape(s: string, lo: nat, hi: nat)
    requires lo <= hi <= |s| && Dashed(s)
    ensures Dashed(s[lo..hi])
  {
    var m := s[lo..hi];
    forall k | 0 <= k < |m| - 1
      ensures !(m[k] == '-' && m[k + 1] == '-')
    {
      assert m[k] == s[lo + k] && m[k + 1] == s[lo + k + 1];
    }
  }

  /** `s.toLowerCase().replace(/[^a-z0-9]+/g, "-")`. */
  function Dashify(s: string): (r: string)
    ensures Dashed(r)
    ensures var t := Lower(s);
      r == Lead(t, NotLowerAlnum, '-') + Join(Runs(t, NotLowerAlnum), "-") + Trail(t, NotLowerAlnum, '-')
  {
    ReplaceRunsWords(Lower(s), NotLowerAlnum, '-');
    ReplaceRuns(Lower(s), NotLowerAlnum, '-')
  }

  /** `s.replace(/^-+|-+$/g, "")`: of a dashed string, a slug or nothing is left. */
  function TrimHyphens(s: string): (t: string)
    ensures Dashed(s) ==> t == "" || IsSlug(t)
  {
    TrimmedShape(s);
    DropTrailingHyphens(DropLeadingHyphens(s))
  }

  lemma TrimmedShape(s: string)
    ensures var t := DropTrailingHyphens(DropLeadingHyphens(s));
      Dashed(s) ==> t == "" || IsSlug(t)
  {
    if Dashed(s) {
      FrontShape(s);
      BackShape(DropLeadingHyphens(s));
    }
  }

  /** Dropping the leading hyphens of a dashed string leaves it dashed. */
  lemma {:induction false} FrontShape(s: string)
    requires Dashed(s)
    ensures Dashed(DropLeadingHyphens(s))
    decreases |s|
  {
    if |s| > 0 && s[0] == '-' {
      SliceShape(s, 1, |s|);
      assert s[1..|s|] == s[1..];
      FrontShape(s[1..]);
    }
  }

  /** Dropping the trailing hyphens of a dashed string that starts with no hyphen leaves a slug or nothing. */
  lemma BackShape(front: string)
    requires Dashed(front) && (|front| > 0 ==> front[0] != '-')
    ensures var t := DropTrailingHyphens(front); t == "" || IsSlug(t)
  {
    var trimmed := DropTrailingHyphens(front);
    SliceShape(front, 0, |trimmed|);
    assert front[0..|trimmed|] == trimmed;
  }

  lemma LaneIsSlug()
    ensures IsSlug("lane")
  {
  }

  /**
   * `slugify`: lower-case, every run of characters outside `[a-z0-9]`
   * becomes one hyphen, hyphens at the ends go, and an empty result
   * becomes `lane`.
   */
  function Slugify(value: string): (r: string)
    ensures IsSlug(r)
    ensures var words := Runs(Lower(value), NotLowerAlnum);
      r == if words == [] then "lane" else Join(words, "-")
  {
    var trimmed := TrimHyphens(Dashify(value));
    LaneIsSlug();
    SlugWords(value);
    if trimmed == "" then "lane" else trimmed
  }

  /** Trimming the dashed text leaves exactly the words joined by single hyphens. */
  lemma SlugWords(value: string)
    ensures TrimHyphens(Dashify(value)) == Join(Runs(Lower(value), NotLowerAlnum), "-")
  {
    var t := Lower(value);
    var w := Runs(t, NotLowerAlnum);
    if w != [] {
      JoinLast(w, "-");
      assert IsLowerAlnum(w[0][0]) && IsLowerAlnum(w[|w| - 1][|w[|w| - 1]| - 1]);
    }
    HyphensAround(Lead(t, NotLowerAlnum, '-'), Join(w, "-"), Trail(t, NotLowerAlnum, '-'));
  }

  /** At most one hyphen on either side of a text that neither starts nor ends with one. */
  lemma HyphensAround(lead: string, j: string, trail: string)
    requires lead == "" || lead == "-"
    requires trail == "" || trail == "-"
    requires j == "" ==> trail == ""
    requires j != "" ==> j[0] != '-' && j[|j| - 1] != '-'
    ensures TrimHyphens(lead + j + trail) == j
  {
    LeadingGone(lead, j, trail);
    TrailingGone(j, trail);
  }

  lemma LeadingGone(lead: string, j: string, trail: string)
    requires lead == "" || lead == "-"
    requires j == "" ==> trail == ""
    requires j != "" ==> j[0] != '-'
    ensures DropLeadingHyphens(lead + j + trail) == j + trail
  {
    var rest := j + trail;
    assert DropLeadingHyphens(rest) == rest by {
      if j == "" {
        assert rest == "";
      } else {
        assert rest[0] == j[0];
      }
    }
    if lead == "-" {
      var s := lead + j + trail;
      assert s[0] == '-' && s[1..] == rest;
    } else {
      assert lead + j + trail == rest;
    }
  }

  lemma TrailingGone(j: string, trail: string)
    requires trail == "" || trail == "-"
    requires j != "" ==> j[|j| - 1] != '-'
    ensures DropTrailingHyphens(j + trail) == j
  {
    if trail == "-" {
      assert (j + trail)[..|j|] == j;
    } else {
      assert j + trail == j;
    }
  }

  /** A slug is its own slug, so slugifying twice is slugifying once. */
  lemma SlugFixed(s: string)
    requires IsSlug(s)
    ensures Slugify(s) == s
  {
    LowerFixed(s);
    ReplaceRunsFixed(s, NotLowerAlnum, '-');
    assert Dashify(s) == s;
    assert DropLeadingHyphens(s) == s;
    assert DropTrailingHyphens(s) == s;
  }

  lemma SlugifyIdempotent(value: string)
    ensures Slugify(Slugify(value)) == Slugify(value)
  {
    SlugFixed(Slugify(value));
  }

  /** A present, non-empty text (`if (x)` on an optional string). */
  predicate Given(x: Option<string>)
  {
    x.Some? && x.value != ""
  }

  /** `getWaveKey`: the slug of the wave id, else of the label, else `wave`. */
  function WaveKey(waveId: Option<string>, waveLabel: Option<string>): (r: string)
    ensures IsSlug(r)
    ensures Given(waveId) ==> r == Slugify(waveId.value)
    ensures !Given(waveId) && Given(waveLabel) ==> r == Slugify(waveLabel.value)
    ensures !Given(waveId) && !Given(waveLabel) ==> r == "wave"
  {
    if Given(waveId) then Slugify(waveId.value)
    else if Given(waveLabel) then Slugify(waveLabel.value)
    else "wave"
  }

  /** A slug has no underscore, so `[a, b].sort().join("__")` determines the unordered pair `{a, b}`. */
  lemma SlugHasNoUnderscore(s: string)
    requires IsSlug(s)
    ensures '_' !in s
  {
  }

  // ---------------------------------------------------------------- workload size

  datatype TShirtSize = S | M | L | XL

  function SizeRank(s: TShirtSize): nat
  {
    match s
    case S => 0
    case M => 1
    case L => 2
    case XL => 3
  }

  /** `inferWorkloadSize`: the largest size whose system or integration threshold is reached (5 systems and 12 integrations when unknown). */
  function InferWorkloadSize(systemCount: Option<real>, integrationCount: Option<real>): (r: TShirtSize)
    ensures var s := systemCount.GetOr(5.0); var i := integrationCount.GetOr(12.0);
            (r == XL <==> s >= 16.0 || i >= 40.0) &&
            (SizeRank(r) >= 2 <==> s >= 11.0 || i >= 28.0) &&
            (SizeRank(r) >= 1 <==> s >= 7.0 || i >= 18.0)
  {
    var systems := systemCount.GetOr(5.0);
    var integrations := integrationCount.GetOr(12.0);
    if systems >= 16.0 || integrations >= 40.0 then XL
    else if systems >= 11.0 || integrations >= 28.0 then L
    else if systems >= 7.0 || integrations >= 18.0 then M
    else S
  }

  /** More systems and more integrations never give a smaller size; with nothing known the size is S. */
  lemma WorkloadSizeMonotone(s1: real, i1: real, s2: real, i2: real)
    requires s1 <= s2 && i1 <= i2
    ensures SizeRank(InferWorkloadSize(Some(s1), Some(i1))) <= SizeRank(InferWorkloadSize(Some(s2), Some(i2)))
    ensures InferWorkloadSize(None, None) == S
  {
  }

  // ---------------------------------------------------------------- fiscal labels on the month axis

  /** The scene's own `parseFiscalYear`: the two digits of the first `FYnn` (any case), or 0. */
  function SceneFiscalYear(text: string): (r: nat)
    ensures r < 100
  {
    match Collisions.FirstFy(text, 0)
    case None => 0
    case Some(i) => DigitValue(text[i + 2]) * 10 + DigitValue(text[i + 3])
  }

  /** The scene's year is the two-digit part of the year the stage timelines use. */
  lemma SceneFiscalYearTwoDigits(text: string)
    ensures Collisions.ParseFiscalYear(Some(text)) ==
            (if Collisions.FirstFy(text, 0).Some? then Some(2000 + SceneFiscalYear(text)) else None)
  {
  }

  /** The month index of a parsed date (`getFullYear() * 12 + getMonth()`), None for a label `Date.parse` rejects. */
  function DateIndex(date: Option<(int, int)>): (r: Option<int>)
    ensures r.None? <==> date.None?
  {
    match date
    case None => None
    case Some((year, month)) => Some(year * 12 + month)
  }

  /** A date's month index reads back as its year and its month (0..11, as `getMonth` gives). */
  lemma DateIndexReadsBack(year: int, month: int)
    requires 0 <= month < 12
    ensures DateIndex(Some((year, month))).value / 12 == year
    ensures DateIndex(Some((year, month))).value % 12 == month
  {
    DivModUnique(year, 12, month);
  }

  /** The correction changes only fiscal labels: any other label resolves as written. */
  lemma NonFiscalAsWritten(text: string, preferEndOfYear: bool, parseDate: string -> Option<(int, int)>)
    requires SceneFiscalYear(text) == 0
    ensures ResolveLabelToIndex(text, preferEndOfYear, parseDate) == ResolveLabelToIndexAsWritten(text, preferEndOfYear, parseDate)
  {
  }

  /**
   * `resolveLabelToIndex` as written: a fiscal label gives `fy * 12` (plus
   * 11 for the end of the year) with the two-digit `fy`; otherwise
   * `parseDate` (`Date.parse` followed by `getFullYear` and `getMonth`, None
   * for an unparsable label) gives `year * 12 + month`.
   */
  function ResolveLabelToIndexAsWritten(text: string, preferEndOfYear: bool, parseDate: string -> Option<(int, int)>): (r: Option<int>)
    ensures SceneFiscalYear(text) != 0 ==> r == Some(SceneFiscalYear(text) * 12 + (if preferEndOfYear then 11 else 0))
    ensures SceneFiscalYear(text) == 0 ==> r == DateIndex(parseDate(text))
  {
    var fy := SceneFiscalYear(text);
    if fy != 0 then Some(fy * 12 + (if preferEndOfYear then 11 else 0))
    else DateIndex(parseDate(text))
  }

  /**
   * As written, a fiscal deadline lands in year 26 of the month axis, not
   * 2026: every stage month of that very fiscal year lies more than 18
   * months past it, so a deadline of `FY26` reads as overrun.
   */
  lemma FiscalDeadlineBeforeItsYear(text: string, preferEndOfYear: bool, parseDate: string -> Option<(int, int)>, month: int)
    requires SceneFiscalYear(text) != 0
    requires Collisions.FiscalYearOf(month) == 2000 + SceneFiscalYear(text)
    ensures month > ResolveLabelToIndexAsWritten(text, preferEndOfYear, parseDate).value + 18
  {
    var fy := SceneFiscalYear(text);
    assert 12 * (2000 + fy) <= month by {
      DivModUnique(2000 + fy, 12, month % 12);
    }
  }

  /** `resolveLabelToIndex` with the fiscal year read as 2000 plus its two digits, as the stage timelines read it. */
  function ResolveLabelToIndex(text: string, preferEndOfYear: bool, parseDate: string -> Option<(int, int)>): (r: Option<int>)
    ensures SceneFiscalYear(text) != 0 ==>
              r.Some? && Collisions.FiscalYearOf(r.value) == 2000 + SceneFiscalYear(text) &&
              r.value % 12 == (if preferEndOfYear then 11 else 0)
    ensures SceneFiscalYear(text) == 0 ==> r == DateIndex(parseDate(text))
  {
    var fy := SceneFiscalYear(text);
    if fy != 0 then
      var index := (2000 + fy) * 12 + (if preferEndOfYear then 11 else 0);
      DivModUnique(2000 + fy, 12, if preferEndOfYear then 11 else 0);
      Some(index)
    else DateIndex(parseDate(text))
  }

  /**
   * With the fiscal year read in full, every month of the deadline's own
   * fiscal year is on or before an end-of-year deadline, and on or after a
   * start-of-year one.
   */
  lemma FiscalDeadlineCoversItsYear(text: string, parseDate: string -> Option<(int, int)>, month: int)
    requires SceneFiscalYear(text) != 0
    requires Collisions.FiscalYearOf(month) == 2000 + SceneFiscalYear(text)
    ensures ResolveLabelToIndex(text, false, parseDate).value <= month <= ResolveLabelToIndex(text, true, parseDate).value
  {
    var fy := SceneFiscalYear(text);
    DivModUnique(2000 + fy, 12, month % 12);
  }

  // ---------------------------------------------------------------- scenario hypotheses

  /** `ScenarioHypothesis`; absent optional texts are None. */
  datatype Hypothesis = Hypothesis(
    id: string,
    title: string,
    hypothesis: Option<string>,
    linkedStageIds: seq<string>,
    conflictCount: int,
    trackLabel: Option<string>,
    regionLabel: Option<string>)

  const MaxHypotheses := 5

  function SumConflicts(items: seq<Hypothesis>): int
  {
    if |items| == 0 then 0 else SumConflicts(items[..|items| - 1]) + items[|items| - 1].conflictCount
  }

  lemma {:induction false} SumConflictsAppend(a: seq<Hypothesis>, b: seq<Hypothesis>)
    ensures SumConflicts(a + b) == SumConflicts(a) + SumConflicts(b)
  {
    if |b| > 0 {
      assert (a + b)[..|a + b| - 1] == a + b[..|b| - 1];
      SumConflictsAppend(a, b[..|b| - 1]);
    } else {
      assert a + b == a;
    }
  }

  /** `remainder.flatMap((item) => item.linkedStageIds)`. */
  function AllLinked(items: seq<Hypothesis>): (r: seq<string>)
    ensures forall id :: id in r <==> exists h :: h in items && id in h.linkedStageIds
  {
    if |items| == 0 then []
    else
      var init := items[..|items| - 1];
      var last := items[|items| - 1];
      var r := AllLinked(init) + last.linkedStageIds;
      assert forall h :: h in items <==> h in init || h == last;
      r
  }

  /** The truthy region labels, in order. */
  function RegionLabels(items: seq<Hypothesis>): (r: seq<string>)
    ensures forall x :: x in r <==> exists h :: h in items && Given(h.regionLabel) && h.regionLabel.value == x
  {
    if |items| == 0 then []
    else
      var init := items[..|items| - 1];
      var last := items[|items| - 1];
      assert forall h :: h in items <==> h in init || h == last;
      RegionLabels(init) + (if Given(last.regionLabel) then [last.regionLabel.value] else [])
  }

  const RegionSeparator := " \U{00B7} "

  /** The hypothesis standing in for everything after the first four. */
  function Aggregated(remainder: seq<Hypothesis>): (h: Hypothesis)
    ensures h.id == "scenario-supporting" && h.conflictCount == SumConflicts(remainder)
    ensures forall id :: id in h.linkedStageIds <==> exists x :: x in remainder && id in x.linkedStageIds
    ensures Distinct(h.linkedStageIds)
    ensures h.linkedStageIds == Dedup(AllLinked(remainder)) && FirstSeen(AllLinked(remainder), h.linkedStageIds)
    ensures h.hypothesis == Some("Grouped " + NatToString(|remainder|) + " supporting tracks to keep hypotheses concise.")
    ensures h.regionLabel.None? <==> forall x :: x in remainder ==> !Given(x.regionLabel)
    ensures h.regionLabel.Some? ==> h.regionLabel.value == Join(Dedup(RegionLabels(remainder)), RegionSeparator)
    ensures var regions := Dedup(RegionLabels(remainder));
      && Distinct(regions) && FirstSeen(RegionLabels(remainder), regions)
      && forall x :: x in regions <==> exists y :: y in remainder && Given(y.regionLabel) && y.regionLabel.value == x
    ensures h.title == "Supporting maneuvers" && h.trackLabel == Some("Supporting")
  {
    var regions := Dedup(RegionLabels(remainder));
    DedupParts(AllLinked(remainder));
    DedupParts(RegionLabels(remainder));
    NoRegions(remainder, regions);
    Hypothesis(
      "scenario-supporting",
      "Supporting maneuvers",
      Some("Grouped " + NatToString(|remainder|) + " supporting tracks to keep hypotheses concise."),
      Dedup(AllLinked(remainder)),
      SumConflicts(remainder),
      Some("Supporting"),
      if |regions| > 0 then Some(Join(regions, RegionSeparator)) else None)
  }

  /** What `Dedup` promises about one list: distinct values, in first-seen order. */
  lemma DedupParts<T(!new)>(s: seq<T>)
    ensures Distinct(Dedup(s)) && FirstSeen(s, Dedup(s))
  {
    DedupDistinct(s);
    DedupFirstSeen(s);
  }

  /** The distinct region labels are empty exactly when no item has one. */
  lemma NoRegions(remainder: seq<Hypothesis>, regions: seq<string>)
    requires regions == Dedup(RegionLabels(remainder))
    ensures |regions| == 0 <==> forall x :: x in remainder ==> !Given(x.regionLabel)
  {
    if exists x :: x in remainder && Given(x.regionLabel) {
      var x :| x in remainder && Given(x.regionLabel);
      assert x.regionLabel.value in regions;
    }
    if |regions| > 0 {
      assert regions[0] in RegionLabels(remainder);
    }
  }

  /** `limitScenarioHypotheses`: up to five kept as they are; otherwise the first four and one aggregate of the rest. */
  function LimitScenarioHypotheses(items: seq<Hypothesis>): (r: seq<Hypothesis>)
    ensures |r| <= MaxHypotheses
    ensures |items| <= MaxHypotheses ==> r == items
    ensures |items| > MaxHypotheses ==> |r| == MaxHypotheses && r[..4] == items[..4] && r[4] == Aggregated(items[4..])
  {
    if |items| <= MaxHypotheses then items
    else items[..4] + [Aggregated(items[4..])]
  }

  /** Some hypothesis links the stage id. */
  predicate Links(items: seq<Hypothesis>, id: string)
  {
    exists h :: h in items && id in h.linkedStageIds
  }

  /** Limiting keeps the total conflict count and every linked stage id. */
  lemma LimitKeepsTotals(items: seq<Hypothesis>)
    ensures var r := LimitScenarioHypotheses(items);
            SumConflicts(r) == SumConflicts(items) &&
            forall id :: Links(r, id) <==> Links(items, id)
  {
    if |items| > MaxHypotheses {
      var head := items[..4];
      var rest := items[4..];
      var agg := Aggregated(rest);
      assert items == head + rest;
      SumConflictsAppend(head, rest);
      SumConflictsAppend(head, [agg]);
      assert SumConflicts([agg]) == agg.conflictCount by {
        assert [agg][..0] == [];
      }
      var r := LimitScenarioHypotheses(items);
      forall id
        ensures Links(r, id) <==> Links(items, id)
      {
        if exists h :: h in items && id in h.linkedStageIds {
          var h :| h in items && id in h.linkedStageIds;
          if h in head {
            assert h in r;
          } else {
            assert h in rest;
            assert agg in r && id in agg.linkedStageIds;
          }
        }
        if exists h :: h in r && id in h.linkedStageIds {
          var h :| h in r && id in h.linkedStageIds;
          if h == agg {
            var x :| x in rest && id in x.linkedStageIds;
            assert x in items;
          } else {
            assert h in head;
            assert h in items;
          }
        }
      }
    }
  }

  // ---------------------------------------------------------------- taking components from a pool

  /** `ArchitectureComponent`, with its optional domain. */
  datatype Component = Component(id: string, domain: Option<string>)

  /** The component belongs to the domain, compared in lower case (`(candidate.domain ?? "").toLowerCase() === normalized`). */
  predicate InDomain(c: Component, normalized: string)
  {
    Lower(c.domain.GetOr("")) == normalized
  }

  /** The components taken and the pool left when taking up to `count` members of a domain, front to back. */
  function Take(pool: seq<Component>, normalized: string, count: int): (seq<Component>, seq<Component>)
    decreases |pool|
  {
    if |pool| == 0 || count <= 0 then ([], pool)
    else if InDomain(pool[0], normalized) then
      var rest := Take(pool[1..], normalized, count - 1);
      ([pool[0]] + rest.0, rest.1)
    else
      var rest := Take(pool[1..], normalized, count);
      (rest.0, [pool[0]] + rest.1)
  }

  /**
   * Taking splits the pool: as many members of the domain as `count` allows
   * (all of them when there are fewer) go to the chunk, in pool order, and
   * everything else stays, in order; when fewer than `count` were taken, no
   * member of the domain is left.
   */
  lemma {:induction false} TakeFacts(pool: seq<Component>, normalized: string, count: int)
    ensures var r := Take(pool, normalized, count);
            |r.0| + |r.1| == |pool| &&
            |r.0| == MinInt(MaxInt(count, 0), CountWhere(pool, (c: Component) => InDomain(c, normalized))) &&
            (forall c :: c in r.0 ==> c in pool && InDomain(c, normalized)) &&
            (|r.0| < count ==> forall c :: c in r.1 ==> !InDomain(c, normalized)) &&
            IsSubsequence(r.1, pool) &&
            r.0 == Filter(pool, (c: Component) => InDomain(c, normalized))[..|r.0|]
    decreases |pool|
  {
    if |pool| == 0 || count <= 0 {
      SubsequenceRefl(pool);
    } else {
      var n := if InDomain(pool[0], normalized) then count - 1 else count;
      TakeFacts(pool[1..], normalized, n);
      CountWhereFront(pool, (c: Component) => InDomain(c, normalized));
      var rest := Take(pool[1..], normalized, n);
      SubsequenceCons(rest.1, pool);
      assert forall c :: c in pool[1..] ==> c in pool;
    }
    TakeOrder(pool, normalized, count);
  }

  /** The chunk taken is a prefix of the pool's components of the domain. */
  lemma {:induction false} TakeOrder(pool: seq<Component>, normalized: string, count: int)
    ensures var r := Take(pool, normalized, count);
            var f := Filter(pool, (c: Component) => InDomain(c, normalized));
            |r.0| <= |f| && r.0 == f[..|r.0|]
    decreases |pool|
  {
    if |pool| > 0 && count > 0 {
      var keep := InDomain(pool[0], normalized);
      var n := if keep then count - 1 else count;
      var p := (c: Component) => InDomain(c, normalized);
      TakeOrder(pool[1..], normalized, n);
      FilterFront(pool, p);
      PrefixCons(pool[0], keep, Take(pool[1..], normalized, n).0, Filter(pool[1..], p),
                 Take(pool, normalized, count).0, Filter(pool, p));
    }
  }

  /** Putting the same head (or none) in front of a list and of a prefix of it gives a prefix. */
  lemma PrefixCons<T>(x: T, keep: bool, r': seq<T>, f': seq<T>, r: seq<T>, f: seq<T>)
    requires |r'| <= |f'| && r' == f'[..|r'|]
    requires r == (if keep then [x] + r' else r') && f == (if keep then [x] else []) + f'
    ensures |r| <= |f| && r == f[..|r|]
  {
    if keep {
      assert f[..|r|] == [x] + f'[..|r'|];
    }
  }

  /** Counting from the front. */
  lemma {:induction false} CountWhereFront<T>(s: seq<T>, p: T -> bool)
    requires |s| > 0
    ensures CountWhere(s, p) == (if p(s[0]) then 1 else 0) + CountWhere(s[1..], p)
  {
    if |s| > 1 {
      CountWhereFront(s[..|s| - 1], p);
      assert s[..|s| - 1][1..] == s[1..][..|s| - 2];
    }
  }

  /** Every sequence is a subsequence of itself. */
  lemma {:induction false} SubsequenceRefl<T>(s: seq<T>)
    ensures IsSubsequence(s, s)
  {
    if |s| > 0 {
      SubsequenceRefl(s[..|s| - 1]);
    }
  }

  /** The empty sequence is a subsequence of anything. */
  lemma SubsequenceEmpty<T>(s: seq<T>)
    ensures IsSubsequence([], s)
  {
  }

  /** A subsequence of the tail is one of the whole, and so is the head followed by it. */
  lemma {:induction false} SubsequenceCons<T>(r: seq<T>, s: seq<T>)
    requires |s| > 0 && IsSubsequence(r, s[1..])
    ensures IsSubsequence(r, s) && IsSubsequence([s[0]] + r, s)
    decreases |s|
  {
    var t := s[1..];
    if |r| == 0 {
      assert [s[0]] + r == [s[0]];
      SubsequenceSelf([s[0]], s);
    } else {
      assert |t| > 0;
      assert t[..|t| - 1] == s[..|s| - 1][1..];
      assert ([s[0]] + r)[..|r|] == [s[0]] + r[..|r| - 1];
      if r[|r| - 1] == t[|t| - 1] {
        SubsequenceCons(r[..|r| - 1], s[..|s| - 1]);
      } else {
        SubsequenceCons(r, s[..|s| - 1]);
      }
    }
  }

  /** `[x]` is a subsequence of any sequence starting with `x`. */
  lemma {:induction false} SubsequenceSelf<T>(r: seq<T>, s: seq<T>)
    requires |r| == 1 && |s| > 0 && r[0] == s[0]
    ensures IsSubsequence(r, s)
    decreases |s|
  {
    if r[0] == s[|s| - 1] {
      assert r[..0] == [];
      SubsequenceEmpty(s[..|s| - 1]);
    } else {
      SubsequenceSelf(r, s[..|s| - 1]);
    }
  }

  /**
   * `takeComponentsFromPool`: the loop of the source, which walks the pool
   * and splices each component of the domain out of it until `count` are
   * taken. The pool the caller passed is returned in its new state.
   */
  method TakeComponentsFromPool(pool: seq<Component>, domain: string, count: int) returns (chunk: seq<Component>, rest: seq<Component>)
    ensures (chunk, rest) == Take(pool, Lower(domain), count)
  {
    var normalized := Lower(domain);
    chunk := [];
    rest := pool;
    var idx := 0;
    assert rest[idx..] == pool && rest[..idx] == [];
    while idx < |rest| && |chunk| < count
      invariant 0 <= idx <= |rest|
      invariant var t := Take(rest[idx..], normalized, count - |chunk|);
                chunk + t.0 == Take(pool, normalized, count).0 && rest[..idx] + t.1 == Take(pool, normalized, count).1
      decreases |rest| - idx
    {
      rest, chunk, idx := TakeStep(rest, chunk, idx, normalized, count);
    }
    assert Take(rest[idx..], normalized, count - |chunk|) == ([], rest[idx..]);
    assert rest[..idx] + rest[idx..] == rest;
    assert chunk + [] == chunk;
  }

  /** One pass of the loop body: a member is spliced into the chunk, a non-member is stepped over. */
  method TakeStep(rest: seq<Component>, chunk: seq<Component>, idx: nat, normalized: string, count: int)
    returns (rest': seq<Component>, chunk': seq<Component>, idx': nat)
    requires idx < |rest| && |chunk| < count
    ensures idx' <= |rest'| && |rest'| - idx' < |rest| - idx
    ensures var t := Take(rest[idx..], normalized, count - |chunk|);
            var t' := Take(rest'[idx'..], normalized, count - |chunk'|);
            chunk' + t'.0 == chunk + t.0 && rest'[..idx'] + t'.1 == rest[..idx] + t.1
  {
    var candidate := rest[idx];
    assert rest[idx..][1..] == rest[idx + 1..];
    if InDomain(candidate, normalized) {
      chunk' := chunk + [candidate];
      rest' := rest[..idx] + rest[idx + 1..];
      idx' := idx;
      assert rest'[idx'..] == rest[idx + 1..] && rest'[..idx'] == rest[..idx];
    } else {
      chunk' := chunk;
      rest' := rest;
      idx' := idx + 1;
      assert rest[..idx + 1] == rest[..idx] + [candidate];
    }
  }
}
