/**
 * The agent memory of the experience shell: the recent intents, the
 * last view, a short queue of suggestions and the last accepted one,
 * kept per project. Each update of the provider replaces one part of
 * the state; here the provider is a class whose methods update its
 * fields.
 */
module AgentMemory {
  import opened Common

  datatype View = Graph | Roi | SequencerView | Review

  /** `AgentSuggestion` */
  datatype Suggestion = Suggestion(
    id: string,
    title: string,
    summary: string,
    ctaLabel: string,
    route: string,
    targetView: View,
    icon: Option<View>,
    source: Option<string>,
    createdAt: Option<real>)

  /** `AgentMemoryState` */
  datatype MemoryState = MemoryState(
    projectId: string,
    intents: seq<string>,
    lastView: Option<View>,
    suggestions: seq<Suggestion>,
    lastAccepted: Option<string>)

  const MaxIntents := 5
  const MaxSuggestions := 3

  function EmptyState(projectId: string): MemoryState
  {
    MemoryState(projectId, [], None, [], None)
  }

  // ---------------------------------------------------------------- intents

  /** `intents.filter((id) => id !== intentId)`: the other intents, most recent first. */
  function Others(intents: seq<string>, intentId: string): (r: seq<string>)
    ensures forall x :: x in r <==> x in intents && x != intentId
    ensures IsSubsequence(r, intents)
    ensures Distinct(intents) ==> Distinct(r)
  {
    var p := (x: string) => x != intentId;
    if Distinct(intents) then
      FilterDistinct(intents, p);
      Filter(intents, p)
    else
      Filter(intents, p)
  }

  /** `[intentId, ...intents.filter((id) => id !== intentId)].slice(0, 5)` */
  function RecentIntents(intents: seq<string>, intentId: string): seq<string>
  {
    var rest := Others(intents, intentId);
    ([intentId] + rest)[..MinInt(MaxIntents, 1 + |rest|)]
  }

  /**
   * The recorded intent comes first and only once; after it come the most
   * recent other intents, in order, as many as fit in five; none is lost
   * while fewer than five are known. Distinct intents stay distinct.
   */
  lemma RecentIntentsFacts(intents: seq<string>, intentId: string)
    ensures var r := RecentIntents(intents, intentId);
            |r| == MinInt(MaxIntents, 1 + |Others(intents, intentId)|) &&
            r[1..] == Others(intents, intentId)[..|r| - 1] &&
            1 <= |r| <= MaxIntents && r[0] == intentId &&
            (forall k :: 1 <= k < |r| ==> r[k] != intentId) &&
            (forall x :: x in r ==> x == intentId || x in intents) &&
            (|intents| < MaxIntents ==> forall x :: x in intents ==> x in r) &&
            (Distinct(intents) ==> Distinct(r))
  {
    var rest := Others(intents, intentId);
    var r := RecentIntents(intents, intentId);
    assert r == ([intentId] + rest)[..MinInt(MaxIntents, 1 + |rest|)];
    assert forall k :: 1 <= k < |r| ==> r[k] == rest[k - 1];
    assert r[1..] == rest[..|r| - 1];
    assert forall k :: 1 <= k < |r| ==> r[k] in rest;
    if |intents| < MaxIntents {
      assert |r| == 1 + |rest|;
      assert forall x :: x in rest ==> x in r by {
        forall x | x in rest ensures x in r {
          var k :| 0 <= k < |rest| && rest[k] == x;
          assert r[k + 1] == x;
        }
      }
    }
  }

  // ---------------------------------------------------------------- suggestions

  /** `prev.suggestions.some((s) => s.id === suggestion.id || s.targetView === suggestion.targetView)` */
  predicate Conflicts(suggestions: seq<Suggestion>, s: Suggestion)
  {
    exists k :: 0 <= k < |suggestions| && (suggestions[k].id == s.id || suggestions[k].targetView == s.targetView)
  }

  /** The queued copy: a missing id is replaced by a fresh one and the time is stamped. */
  function Enriched(s: Suggestion, now: int, newId: string): Suggestion
  {
    s.(id := if s.id != "" then s.id else newId, createdAt := Some(now as real))
  }

  /** The queue after `queueSuggestion`: unchanged on a conflict, else the new one first and at most two of the old ones. */
  function Queued(suggestions: seq<Suggestion>, s: Suggestion, now: int, newId: string): seq<Suggestion>
  {
    if Conflicts(suggestions, s) then suggestions
    else [Enriched(s, now, newId)] + (if |suggestions| >= MaxSuggestions then suggestions[..2] else suggestions)
  }

  /** Queueing is a no-op on a conflict; otherwise the new suggestion is first, the older ones follow in order, and at most three remain. */
  lemma QueuedFacts(suggestions: seq<Suggestion>, s: Suggestion, now: int, newId: string)
    ensures var r := Queued(suggestions, s, now, newId);
            (Conflicts(suggestions, s) ==> r == suggestions) &&
            (!Conflicts(suggestions, s) ==>
               |r| == MinInt(MaxSuggestions, |suggestions| + 1) && r[0] == Enriched(s, now, newId) &&
               r[1..] == suggestions[..|r| - 1] &&
               forall k :: 1 <= k < |r| ==> r[k].targetView != s.targetView)
  {
    var r := Queued(suggestions, s, now, newId);
    if !Conflicts(suggestions, s) {
      assert forall k :: 1 <= k < |r| ==> r[k] == suggestions[k - 1];
    }
  }

  /** At most one suggestion per target view. */
  predicate UniqueViews(suggestions: seq<Suggestion>)
  {
    forall i, j :: 0 <= i < j < |suggestions| ==> suggestions[i].targetView != suggestions[j].targetView
  }

  /** Queueing keeps one suggestion per target view. */
  lemma QueuedUniqueViews(suggestions: seq<Suggestion>, s: Suggestion, now: int, newId: string)
    requires UniqueViews(suggestions)
    ensures UniqueViews(Queued(suggestions, s, now, newId))
  {
    QueuedFacts(suggestions, s, now, newId);
    var r := Queued(suggestions, s, now, newId);
    if !Conflicts(suggestions, s) {
      assert forall k :: 1 <= k < |r| ==> r[k] == suggestions[k - 1];
    }
  }

  predicate HasId(id: string, x: Suggestion) { x.id == id }
  predicate OtherId(id: string, x: Suggestion) { x.id != id }

  /** `prev.suggestions.filter((s) => s.id !== id)` */
  function Without(suggestions: seq<Suggestion>, id: string): seq<Suggestion>
  {
    Filter(suggestions, x => OtherId(id, x))
  }

  /** Removing an id drops exactly the entries with that id and keeps the others in order. */
  lemma WithoutFacts(suggestions: seq<Suggestion>, id: string)
    ensures var r := Without(suggestions, id);
            (forall x :: x in r <==> x in suggestions && x.id != id) &&
            IsSubsequence(r, suggestions) &&
            |r| == |suggestions| - CountWhere(suggestions, x => HasId(id, x))
  {
    CountSplit(suggestions, id);
  }

  lemma {:induction false} CountSplit(s: seq<Suggestion>, id: string)
    ensures CountWhere(s, x => OtherId(id, x)) + CountWhere(s, x => HasId(id, x)) == |s|
  {
    if |s| > 0 {
      CountSplit(s[..|s| - 1], id);
    }
  }

  /** `prev.suggestions.find((s) => s.id === id) ?? null` */
  function Find(suggestions: seq<Suggestion>, id: string): (r: Option<Suggestion>)
    ensures r.None? <==> forall k :: 0 <= k < |suggestions| ==> suggestions[k].id != id
    ensures r.Some? ==> exists k :: 0 <= k < |suggestions| && suggestions[k] == r.value && r.value.id == id &&
                                    forall j :: 0 <= j < k ==> suggestions[j].id != id
  {
    if |suggestions| == 0 then None
    else if suggestions[0].id == id then Some(suggestions[0])
    else
      var r := Find(suggestions[1..], id);
      assert forall k :: 1 <= k < |suggestions| ==> suggestions[1..][k - 1] == suggestions[k];
      assert r.Some? ==> exists k :: 0 <= k < |suggestions| && suggestions[k] == r.value && r.value.id == id &&
                                     forall j :: 0 <= j < k ==> suggestions[j].id != id by {
        if r.Some? {
          var k :| 0 <= k < |suggestions[1..]| && suggestions[1..][k] == r.value && r.value.id == id &&
                   forall j :: 0 <= j < k ==> suggestions[1..][j].id != id;
          assert suggestions[k + 1] == r.value;
        }
      }
      r
  }

  // ---------------------------------------------------------------- loading

  /** A suggestion as stored, its `createdAt` of any JSON type. */
  datatype StoredSuggestion = StoredSuggestion(fields: Suggestion, createdAt: Json)

  /** The stored snapshot after `JSON.parse` (a `null` document has every field absent). */
  datatype Snapshot = Snapshot(
    intents: Option<seq<string>>,
    suggestions: Option<seq<StoredSuggestion>>,
    lastView: Option<View>,
    lastAccepted: Option<string>)

  /** `createdAt: typeof s.createdAt === "number" ? s.createdAt : undefined` */
  function Restamp(s: StoredSuggestion): Suggestion
  {
    s.fields.(createdAt := if s.createdAt.JNum? then Some(s.createdAt.n) else None)
  }

  /**
   * `loadSnapshot`: `raw` is what local storage holds under the project's
   * key (None when there is no storage, on the server) and `parse` is
   * `JSON.parse`, None when it throws.
   */
  function LoadSnapshot(projectId: string, raw: Option<string>, parse: string -> Option<Snapshot>): (r: MemoryState)
    ensures r.projectId == projectId
  {
    if raw.None? || raw.value == "" then EmptyState(projectId)
    else match parse(raw.value)
      case None => EmptyState(projectId)
      case Some(p) =>
        var stored := p.suggestions.GetOr([]);
        MemoryState(projectId, p.intents.GetOr([]), p.lastView,
                    seq(|stored|, k requires 0 <= k < |stored| => Restamp(stored[k])), p.lastAccepted)
  }

  /** Missing or unreadable storage loads as the empty state; a stored suggestion keeps a numeric `createdAt` and loses any other. */
  lemma LoadSnapshotFacts(projectId: string, raw: Option<string>, parse: string -> Option<Snapshot>)
    ensures raw.None? || raw == Some("") || parse(raw.value).None? ==> LoadSnapshot(projectId, raw, parse) == EmptyState(projectId)
    ensures var r := LoadSnapshot(projectId, raw, parse);
            forall k :: 0 <= k < |r.suggestions| ==> r.suggestions[k].createdAt.None? || exists n: real :: r.suggestions[k].createdAt == Some(n)
    ensures raw.Some? && raw.value != "" && parse(raw.value).Some? ==>
              var p := parse(raw.value).value;
              var r := LoadSnapshot(projectId, raw, parse);
              |r.suggestions| == |p.suggestions.GetOr([])| &&
              forall k :: 0 <= k < |r.suggestions| ==>
                (r.suggestions[k].createdAt.Some? <==> p.suggestions.value[k].createdAt.JNum?)
  {
  }

  // ---------------------------------------------------------------- the provider

  class Memory {
    var projectId: string
    var intents: seq<string>
    var lastView: Option<View>
    var suggestions: seq<Suggestion>
    var lastAccepted: Option<string>

    function State(): MemoryState
      reads this
    {
      MemoryState(projectId, intents, lastView, suggestions, lastAccepted)
    }

    /** The provider's initial state, before the snapshot is loaded. */
    constructor(projectId: string)
      ensures State() == EmptyState(projectId)
    {
      this.projectId := projectId;
      intents := [];
      lastView := None;
      suggestions := [];
      lastAccepted := None;
    }

    /** `topbarCue`: the icon of the first suggestion. */
    function TopbarCue(): (r: Option<View>)
      reads this
      ensures r.Some? ==> |suggestions| > 0 && suggestions[0].icon == r
      ensures |suggestions| == 0 ==> r.None?
    {
      if |suggestions| > 0 then suggestions[0].icon else None
    }

    /** The effect on `projectId`: the state becomes the stored snapshot. */
    method Load(raw: Option<string>, parse: string -> Option<Snapshot>)
      modifies this
      ensures State() == LoadSnapshot(old(projectId), raw, parse)
    {
      var s := LoadSnapshot(projectId, raw, parse);
      intents := s.intents;
      lastView := s.lastView;
      suggestions := s.suggestions;
      lastAccepted := s.lastAccepted;
    }

    method RecordIntent(intentId: string)
      modifies this
      ensures State() == old(State()).(intents := RecentIntents(old(intents), intentId))
    {
      intents := RecentIntents(intents, intentId);
    }

    method RecordView(view: View)
      modifies this
      ensures State() == old(State()).(lastView := Some(view))
    {
      lastView := Some(view);
    }

    /** `queueSuggestion`; `now` is `Date.now()` and `newId` the uuid used when the suggestion has no id. */
    method QueueSuggestion(suggestion: Suggestion, now: int, newId: string)
      modifies this
      ensures State() == old(State()).(suggestions := Queued(old(suggestions), suggestion, now, newId))
    {
      if exists k :: 0 <= k < |suggestions| && (suggestions[k].id == suggestion.id || suggestions[k].targetView == suggestion.targetView) {
        return;
      }
      var trimmed := if |suggestions| >= MaxSuggestions then suggestions[..2] else suggestions;
      var enriched := suggestion.(id := if suggestion.id != "" then suggestion.id else newId, createdAt := Some(now as real));
      suggestions := [enriched] + trimmed;
    }

    /** `dismissSuggestion`: returns the entry dismissed, if any. */
    method DismissSuggestion(id: string) returns (dismissed: Option<Suggestion>)
      modifies this
      ensures dismissed == Find(old(suggestions), id)
      ensures State() == old(State()).(suggestions := Without(old(suggestions), id))
    {
      dismissed := Find(suggestions, id);
      suggestions := Without(suggestions, id);
    }

    /** `acceptSuggestion`: the id is remembered as accepted even when no entry has it. */
    method AcceptSuggestion(id: string) returns (accepted: Option<Suggestion>)
      modifies this
      ensures accepted == Find(old(suggestions), id)
      ensures State() == old(State()).(suggestions := Without(old(suggestions), id), lastAccepted := Some(id))
    {
      accepted := Find(suggestions, id);
      suggestions := Without(suggestions, id);
      lastAccepted := Some(id);
    }

    method ClearAllSuggestions()
      modifies this
      ensures State() == old(State()).(suggestions := [])
    {
      suggestions := [];
    }
  }
}
