/**
 * The ALE learning-corpus builder (scripts/ale_ingest.py): reasoning events
 * are grouped by context tag; each tag's bucket counts its occurrences and
 * collects the events' risk scores; every bucket becomes one corpus entry,
 * and the entries are sorted by occurrences, most frequent first, stably.
 */
module AleIngest {
  import opened Common
  import opened Text
  import StableSort

  /** The fields of one logged reasoning event (a JSON object). */
  type Event = seq<Member>

  /** What reading the reasoning log gives: no file, or its text parsed as JSON (None: a decode error). */
  datatype LogFile = Missing | Present(parsed: Option<Json>)

  /** `load_events`: a missing file or undecodable text gives the empty list; nothing is raised. */
  function LoadEvents(file: LogFile): (r: Json)
    ensures file.Missing? || file.parsed.None? ==> r == JArr([])
    ensures file.Present? && file.parsed.Some? ==> r == file.parsed.value
  {
    match file
    case Missing => JArr([])
    case Present(parsed) => if parsed.Some? then parsed.value else JArr([])
  }

  /** The tags an event contributes: `context_tags` when it is a list, otherwise none. */
  function TagsOf(e: Event): seq<Json>
  {
    match Get(e, "context_tags")
    case Some(JArr(items)) => items
    case _ => []
  }

  /** `risk_score` when it is a number (a JSON boolean is a Python int), otherwise 0.5. */
  function RiskOf(e: Event): (r: real)
    ensures Get(e, "risk_score").Some? && Get(e, "risk_score").value.JNum? ==> r == Get(e, "risk_score").value.n
    ensures !(Get(e, "risk_score").Some? && (Get(e, "risk_score").value.JNum? || Get(e, "risk_score").value.JBool?)) ==> r == 0.5
  {
    match Get(e, "risk_score")
    case Some(JNum(n)) => n
    case Some(JBool(b)) => if b then 1.0 else 0.0
    case _ => 0.5
  }

  /** A tag is kept when it is a non-empty string; it is bucketed under its trimmed text. */
  function KeptTag(raw: Json): Option<string>
  {
    if raw.JStr? && raw.s != "" then Some(Trim(raw.s)) else None
  }

  /** One kept tag sighting together with the risk of its event. */
  datatype Sighting = Sighting(tag: string, risk: real)

  function TagSightings(tags: seq<Json>, risk: real): seq<Sighting>
  {
    if |tags| == 0 then []
    else
      var last := KeptTag(tags[|tags| - 1]);
      TagSightings(tags[..|tags| - 1], risk) + (if last.Some? then [Sighting(last.value, risk)] else [])
  }

  /** Every kept tag sighting of the event log, in order. */
  function Sightings(events: seq<Event>): seq<Sighting>
  {
    if |events| == 0 then []
    else Sightings(events[..|events| - 1]) + TagSightings(TagsOf(events[|events| - 1]), RiskOf(events[|events| - 1]))
  }

  function Tags(ss: seq<Sighting>): seq<string>
  {
    seq(|ss|, i requires 0 <= i < |ss| => ss[i].tag)
  }

  function Count(ss: seq<Sighting>, tag: string): nat
  {
    if |ss| == 0 then 0 else Count(ss[..|ss| - 1], tag) + (if ss[|ss| - 1].tag == tag then 1 else 0)
  }

  function Risks(ss: seq<Sighting>, tag: string): seq<real>
  {
    if |ss| == 0 then [] else Risks(ss[..|ss| - 1], tag) + (if ss[|ss| - 1].tag == tag then [ss[|ss| - 1].risk] else [])
  }

  function Sum(xs: seq<real>): real
  {
    if |xs| == 0 then 0.0 else Sum(xs[..|xs| - 1]) + xs[|xs| - 1]
  }

  /** `statistics.mean(risks or [0.5])`. */
  function Mean(xs: seq<real>): real
  {
    if |xs| == 0 then 0.5 else Sum(xs) / (|xs| as real)
  }

  function Replace(s: string, from: char, to: char): string
  {
    seq(|s|, i requires 0 <= i < |s| => if s[i] == from then to else s[i])
  }

  datatype Bucket = Bucket(occurrences: nat, risks: seq<real>)

  datatype CorpusEntry = CorpusEntry(
    tag: string,
    occurrences: nat,
    averageRisk: real,
    recommendationStrength: real,
    recommendation: string)

  /** The corpus entry for one finished bucket. */
  function MakeEntry(tag: string, b: Bucket): CorpusEntry
  {
    var avg := Mean(b.risks);
    CorpusEntry(tag, b.occurrences, avg, Min(1.0, avg + (b.occurrences as real) / 100.0),
                "Monitor " + Replace(tag, '_', ' ') + " during sequencing.")
  }

  function Occurrences(e: CorpusEntry): int { e.occurrences }

  /** The bucket a tag has after the sightings `ss`. */
  function BucketOf(ss: seq<Sighting>, tag: string): Bucket
  {
    Bucket(Count(ss, tag), Risks(ss, tag))
  }

  /** The entries before sorting: one per distinct tag, in first-sighting order. */
  function UnsortedCorpus(ss: seq<Sighting>): seq<CorpusEntry>
  {
    var keys := Dedup(Tags(ss));
    seq(|keys|, i requires 0 <= i < |keys| => MakeEntry(keys[i], BucketOf(ss, keys[i])))
  }

  /** The corpus `build_corpus` returns for `events`. */
  function Corpus(events: seq<Event>): seq<CorpusEntry>
  {
    StableSort.SortDesc(UnsortedCorpus(Sightings(events)), Occurrences)
  }

  /** One more tag of the event read (`next` is the advanced index). */
  lemma TagSightingsStep(tags: seq<Json>, j: nat, next: nat, risk: real)
    requires j < |tags| && next == j + 1
    ensures TagSightings(tags[..next], risk)
         == TagSightings(tags[..j], risk) + (if KeptTag(tags[j]).Some? then [Sighting(KeptTag(tags[j]).value, risk)] else [])
  {
    assert tags[..next][..j] == tags[..j];
  }

  /** One more event read (`next` is the advanced index). */
  lemma SightingsStep(events: seq<Event>, i: nat, next: nat)
    requires i < |events| && next == i + 1
    ensures Sightings(events[..next]) == Sightings(events[..i]) + TagSightings(TagsOf(events[i]), RiskOf(events[i]))
  {
    assert events[..next][..i] == events[..i];
  }

  lemma {:induction false} UnseenBucket(ss: seq<Sighting>, tag: string)
    requires tag !in Tags(ss)
    ensures BucketOf(ss, tag) == Bucket(0, [])
  {
    if |ss| > 0 {
      assert Tags(ss[..|ss| - 1]) == Tags(ss)[..|ss| - 1];
      assert Tags(ss)[|ss| - 1] == ss[|ss| - 1].tag;
      UnseenBucket(ss[..|ss| - 1], tag);
    }
  }

  /** One more sighting: its tag is appended to the key order if new, and only its bucket changes. */
  lemma AddSighting(ss: seq<Sighting>, s: Sighting)
    ensures Dedup(Tags(ss + [s])) == Dedup(Tags(ss)) + (if s.tag in Dedup(Tags(ss)) then [] else [s.tag])
    ensures BucketOf(ss + [s], s.tag) == Bucket(Count(ss, s.tag) + 1, Risks(ss, s.tag) + [s.risk])
    ensures forall t :: t != s.tag ==> BucketOf(ss + [s], t) == BucketOf(ss, t)
  {
    var longer := ss + [s];
    assert longer[..|ss|] == ss;
    assert longer[|ss|] == s;
    assert Tags(longer) == Tags(ss) + [s.tag];
    DedupSnoc(Tags(ss), s.tag);
  }

  /** `summary.setdefault(tag, {"occurrences": 0, "risks": []})` followed by the bump of that bucket. */
  function Bump(summary: map<string, Bucket>, tag: string, risk: real): map<string, Bucket>
  {
    var bucket := if tag in summary then summary[tag] else Bucket(0, []);
    summary[tag := Bucket(bucket.occurrences + 1, bucket.risks + [risk])]
  }

  /** The dict's key order: a tag is appended when its bucket is created. */
  function NoteKey(keys: seq<string>, summary: map<string, Bucket>, tag: string): seq<string>
  {
    if tag in summary then keys else keys + [tag]
  }

  /** The `summary` dict: its buckets and its key order. */
  datatype Summary = Summary(buckets: map<string, Bucket>, keys: seq<string>)

  /** One sighting recorded in the dict. */
  function Record(sum: Summary, s: Sighting): Summary
  {
    Summary(Bump(sum.buckets, s.tag, s.risk), NoteKey(sum.keys, sum.buckets, s.tag))
  }

  /** The dict after recording the sightings `ss` one by one. */
  function Summarise(ss: seq<Sighting>): Summary
  {
    if |ss| == 0 then Summary(map[], []) else Record(Summarise(ss[..|ss| - 1]), ss[|ss| - 1])
  }

  lemma SummariseStep(ss: seq<Sighting>, s: Sighting)
    ensures Record(Summarise(ss), s) == Summarise(ss + [s])
  {
    assert (ss + [s])[..|ss|] == ss;
  }

  /** `summary` and `keys` hold exactly the buckets of the sightings `ss`, keys in first-sighting order. */
  ghost predicate Summarises(summary: map<string, Bucket>, keys: seq<string>, ss: seq<Sighting>)
  {
    && keys == Dedup(Tags(ss))
    && (forall t :: t in summary <==> t in keys)
    && (forall t :: t in summary ==> summary[t] == BucketOf(ss, t))
  }

  /** The state after one more sighting summarises the longer sighting list. */
  lemma StepSummary(summary: map<string, Bucket>, keys: seq<string>, ss: seq<Sighting>, s: Sighting)
    requires Summarises(summary, keys, ss)
    ensures Summarises(Bump(summary, s.tag, s.risk), NoteKey(keys, summary, s.tag), ss + [s])
  {
    AddSighting(ss, s);
    if s.tag !in summary {
      UnseenBucket(ss, s.tag);
    }
  }

  /** The dict built from the sightings has one bucket per distinct tag, in first-sighting order, counting that tag's sightings. */
  lemma {:induction false} SummariseMeaning(ss: seq<Sighting>)
    ensures Summarises(Summarise(ss).buckets, Summarise(ss).keys, ss)
  {
    if |ss| > 0 {
      var init := ss[..|ss| - 1];
      SummariseMeaning(init);
      StepSummary(Summarise(init).buckets, Summarise(init).keys, init, ss[|ss| - 1]);
      assert init + [ss[|ss| - 1]] == ss;
    }
  }

  /** The bucket under a key of the dict. */
  lemma SummaryAt(ss: seq<Sighting>, k: nat)
    requires k < |Summarise(ss).keys|
    ensures Summarise(ss).keys == Dedup(Tags(ss))
    ensures Summarise(ss).keys[k] in Summarise(ss).buckets
    ensures Summarise(ss).buckets[Summarise(ss).keys[k]] == BucketOf(ss, Summarise(ss).keys[k])
  {
    SummariseMeaning(ss);
  }

  /** The dict's keys are the distinct tags, one corpus entry each. */
  lemma SummaryKeys(ss: seq<Sighting>)
    ensures Summarise(ss).keys == Dedup(Tags(ss))
    ensures |Summarise(ss).keys| == |UnsortedCorpus(ss)|
  {
    SummariseMeaning(ss);
  }

  /** One pass of the tag loop: the dict after this tag is the dict of the longer sighting list. */
  lemma StepTag(sum: Summary, ss: seq<Sighting>, tags: seq<Json>, j: nat, next: nat, risk: real)
    requires j < |tags| && next == j + 1
    requires sum == Summarise(ss + TagSightings(tags[..j], risk))
    ensures KeptTag(tags[j]).Some? ==>
              Record(sum, Sighting(KeptTag(tags[j]).value, risk)) == Summarise(ss + TagSightings(tags[..next], risk))
    ensures KeptTag(tags[j]).None? ==> sum == Summarise(ss + TagSightings(tags[..next], risk))
  {
    TagSightingsStep(tags, j, next, risk);
    var cur := ss + TagSightings(tags[..j], risk);
    var kept := KeptTag(tags[j]);
    if kept.Some? {
      SummariseStep(cur, Sighting(kept.value, risk));
      assert cur + [Sighting(kept.value, risk)] == ss + TagSightings(tags[..next], risk);
    } else {
      assert cur == ss + TagSightings(tags[..next], risk);
    }
  }

  /** The inner loop of `build_corpus`: every kept tag of one event bumps its bucket. */
  method AddEventTags(summary: Summary, tags: seq<Json>, risk: real, ghost ss: seq<Sighting>)
    returns (summary': Summary)
    requires summary == Summarise(ss)
    ensures summary' == Summarise(ss + TagSightings(tags, risk))
  {
    summary' := summary;
    var j := 0;
    assert ss + TagSightings(tags[..0], risk) == ss;
    while j < |tags|
      invariant 0 <= j <= |tags|
      invariant summary' == Summarise(ss + TagSightings(tags[..j], risk))
    {
      var next := j + 1;
      StepTag(summary', ss, tags, j, next, risk);
      var kept := KeptTag(tags[j]);
      if kept.Some? {
        summary' := Record(summary', Sighting(kept.value, risk));
      }
      j := next;
    }
    assert tags[..j] == tags;
  }

  /** The bucket loop of `build_corpus`: every kept tag of every event bumps its bucket. */
  method SummariseEvents(events: seq<Event>) returns (summary: Summary)
    ensures summary == Summarise(Sightings(events))
  {
    summary := Summary(map[], []);
    var i := 0;
    while i < |events|
      invariant 0 <= i <= |events|
      invariant summary == Summarise(Sightings(events[..i]))
    {
      var next := i + 1;
      SightingsStep(events, i, next);
      summary := AddEventTags(summary, TagsOf(events[i]), RiskOf(events[i]), Sightings(events[..i]));
      i := next;
    }
    assert events[..i] == events;
  }

  /** One corpus entry per bucket, in the dict's key order. */
  method EntriesOf(summary: Summary, ghost ss: seq<Sighting>) returns (unsorted: seq<CorpusEntry>)
    requires summary == Summarise(ss)
    ensures unsorted == UnsortedCorpus(ss)
  {
    SummaryKeys(ss);
    unsorted := [];
    var k := 0;
    while k < |summary.keys|
      invariant 0 <= k <= |summary.keys|
      invariant |summary.keys| == |UnsortedCorpus(ss)|
      invariant unsorted == UnsortedCorpus(ss)[..k]
    {
      var tag := summary.keys[k];
      SummaryAt(ss, k);
      assert MakeEntry(tag, summary.buckets[tag]) == UnsortedCorpus(ss)[k];
      var next := k + 1;
      PrefixStep(UnsortedCorpus(ss), k, next);
      unsorted := unsorted + [MakeEntry(tag, summary.buckets[tag])];
      k := next;
    }
    assert UnsortedCorpus(ss)[..k] == UnsortedCorpus(ss);
  }

  /** `build_corpus`: the bucket loop over events and tags, then one entry per bucket, then the sort. */
  method BuildCorpus(events: seq<Event>) returns (corpus: seq<CorpusEntry>)
    ensures corpus == Corpus(events)
  {
    var summary := SummariseEvents(events);
    var unsorted := EntriesOf(summary, Sightings(events));
    corpus := StableSort.SortDesc(unsorted, Occurrences);
  }

  /** Every sighting adds one occurrence and exactly one risk value to its bucket. */
  lemma {:induction false} OccurrencesMatchRisks(ss: seq<Sighting>, tag: string)
    ensures Count(ss, tag) == |Risks(ss, tag)|
  {
    if |ss| > 0 {
      OccurrencesMatchRisks(ss[..|ss| - 1], tag);
    }
  }

  /** A tag that was sighted has at least one occurrence. */
  lemma {:induction false} SightedTagCounted(ss: seq<Sighting>, tag: string)
    requires tag in Tags(ss)
    ensures Count(ss, tag) >= 1
  {
    if ss[|ss| - 1].tag != tag {
      assert Tags(ss) == Tags(ss[..|ss| - 1]) + [ss[|ss| - 1].tag];
      SightedTagCounted(ss[..|ss| - 1], tag);
    }
  }

  lemma {:induction false} DistinctCardinality<T>(s: seq<T>)
    requires forall i, j :: 0 <= i < j < |s| ==> s[i] != s[j]
    ensures |set x | x in s| == |s|
  {
    if |s| > 0 {
      var init := s[..|s| - 1];
      DistinctCardinality(init);
      assert (set x | x in s) == (set x | x in init) + {s[|s| - 1]};
    }
  }

  /** A tag's text is kept exactly when it is a non-empty string; the bucket key is its trimmed text. */
  lemma KeptTagRule(raw: Json)
    ensures KeptTag(raw).Some? <==> raw.JStr? && raw.s != ""
    ensures KeptTag(raw).Some? ==> KeptTag(raw).value == Trim(raw.s)
  {
  }

  /**
   * The corpus has one entry per distinct kept tag; every entry's occurrence
   * count is the number of its risks (at least one), its strength is at most
   * 1.0, and the entries run from most to least frequent.
   */
  lemma {:induction false} CorpusShape(events: seq<Event>)
    ensures |Corpus(events)| == |set t | t in Tags(Sightings(events))|
    ensures forall e :: e in Corpus(events) ==> e.recommendationStrength <= 1.0 && e.occurrences >= 1
    ensures forall e :: e in Corpus(events) ==> e.occurrences == |Risks(Sightings(events), e.tag)|
    ensures StableSort.SortedDesc(Corpus(events), Occurrences)
  {
    var ss := Sightings(events);
    var keys := Dedup(Tags(ss));
    var unsorted := UnsortedCorpus(ss);
    DedupDistinct(Tags(ss));
    DistinctCardinality(keys);
    assert (set t | t in keys) == (set t | t in Tags(ss));
    forall e | e in Corpus(events)
      ensures e.recommendationStrength <= 1.0 && e.occurrences >= 1
      ensures e.occurrences == |Risks(ss, e.tag)|
    {
      assert e in multiset(unsorted);
      var m :| 0 <= m < |unsorted| && unsorted[m] == e;
      SightedTagCounted(ss, keys[m]);
      OccurrencesMatchRisks(ss, keys[m]);
    }
  }

  /** Entries with equal occurrence counts keep the order in which their tags were first sighted. */
  lemma CorpusStable(events: seq<Event>, n: int)
    ensures StableSort.WithKey(Corpus(events), Occurrences, n)
         == StableSort.WithKey(UnsortedCorpus(Sightings(events)), Occurrences, n)
  {
    StableSort.SortDescStable(UnsortedCorpus(Sightings(events)), Occurrences, n);
  }

  /** An event whose `context_tags` is missing or not a list contributes nothing. */
  lemma UntaggedEventIgnored(prefix: seq<Event>, e: Event)
    requires !(Get(e, "context_tags").Some? && Get(e, "context_tags").value.JArr?)
    ensures Sightings(prefix + [e]) == Sightings(prefix)
  {
    assert (prefix + [e])[..|prefix|] == prefix;
  }
}
