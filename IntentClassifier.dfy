/**
 * Keyword-based intent classification for the agent
 * (src/lib/agent/intentClassifier.ts).
 *
 * Each candidate intent scores its base confidence plus 0.05 per keyword
 * the lower-cased input mentions; the strictly highest score wins, so a
 * tie keeps the earlier candidate. No match at all gives the contextual
 * support fallback. The winner's confidence is capped at 0.98 and raised
 * to 0.85 when it repeats the session's last intent. The demo topic that
 * `detectDemoTopic` finds in the input, and the session's last intent,
 * are parameters.
 */
module IntentClassifier {
  import opened Common
  import opened Text

  datatype Action = Action(kind: string, params: map<string, string>)

  datatype Candidate = Candidate(
    id: string,
    caption: string,
    keywords: seq<string>,
    action: Action,
    responseHint: string,
    baseConfidence: real)

  datatype Intent = Intent(id: string, caption: string, confidence: real, responseHint: string, action: Option<Action>)

  const Candidates: seq<Candidate> := [
    Candidate("roi_summary", "ROI Summary", ["roi", "return", "finance", "breakeven", "benefit", "payback"],
              Action("roi.summary", map[]), "Compiling ROI projections and break-even timeline.", 0.78),
    Candidate("graph_harmonization", "Harmonize Graph", ["graph", "harmoniz", "map", "digital enterprise", "systems"],
              Action("graph.harmonize", map[]), "Loading harmonized systems and preparing Digital Enterprise.", 0.74),
    Candidate("sequencer_plan", "Sequencer Plan", ["sequence", "roadmap", "plan", "waves", "modernize"],
              Action("sequence.plan", map["strategy" := "value"]), "Drafting modernization waves aligned to dependencies.", 0.73),
    Candidate("review_resume", "Review Resume", ["review", "approval", "sign off", "delta"],
              Action("review.resume", map[]), "Surfacing the latest harmonization deltas for review.", 0.66),
    Candidate("context_followup", "Context Follow-up", ["continue", "resume", "where", "left off", "context"],
              Action("context.reminder", map[]), "Resuming where we left off with project context applied.", 0.6),
    Candidate("demo_walkthrough", "Demo Walkthrough", ["walk", "demo", "explain", "show me", "how do"],
              Action("demo.explain", map[]), "Let me walk you through that step by step.", 0.65)
  ]

  const PlatformKeywords: seq<string> := [
    "erp", "crm", "commerce", "finance", "data", "integration", "analytics", "hr", "supply", "planning"]

  const FallbackId := "contextual_support"

  const Fallback := Intent(FallbackId, "Contextual Support", 0.42,
                           "Capturing your request and routing it through the assistant stack.", None)

  const DemoId := "demo_walkthrough"

  // ---------------------------------------------------------------- extractFocusAreas

  /** The platform keywords the lower-cased input mentions, in list order. */
  function FocusAreas(input: string): seq<string>
  {
    Filter(PlatformKeywords, (k: string) => Contains(Lower(input), k))
  }

  lemma PlatformKeywordsDistinct()
    ensures Distinct(PlatformKeywords)
  {
  }

  /**
   * `extractFocusAreas`: each platform keyword the input mentions is added
   * to a set, read back in insertion order.
   */
  method ExtractFocusAreas(input: string) returns (hits: seq<string>)
    ensures hits == FocusAreas(input)
    ensures Distinct(hits)
    ensures forall x :: x in hits <==> x in PlatformKeywords && Contains(Lower(input), x)
  {
    var normalized := Lower(input);
    var mentioned := (k: string) => Contains(normalized, k);
    PlatformKeywordsDistinct();
    hits := [];
    for i := 0 to |PlatformKeywords|
      invariant hits == Filter(PlatformKeywords[..i], mentioned)
    {
      var keyword := PlatformKeywords[i];
      assert PlatformKeywords[..i + 1][..i] == PlatformKeywords[..i];
      assert keyword !in PlatformKeywords[..i];
      if Contains(normalized, keyword) && keyword !in hits {
        hits := hits + [keyword];
      }
    }
    assert PlatformKeywords[..|PlatformKeywords|] == PlatformKeywords;
    FilterDistinct(PlatformKeywords, mentioned);
  }

  // ---------------------------------------------------------------- classifyIntent

  /** The number of a candidate's keywords the normalised input mentions (the `reduce`). */
  function Matches(c: Candidate, normalized: string): nat
  {
    CountWhere(c.keywords, (k: string) => Contains(normalized, k))
  }

  function Score(c: Candidate, normalized: string): real
  {
    c.baseConfidence + Matches(c, normalized) as real * 0.05
  }

  /** The score to beat after the first `n` candidates: the winner's, or 0. */
  function ScoreToBeat(cs: seq<Candidate>, normalized: string, b: Option<nat>): real
    requires b.Some? ==> b.value < |cs|
  {
    if b.None? then 0.0 else Score(cs[b.value], normalized)
  }

  /** The winner among the first `n` candidates: a matching candidate whose score beats the winner so far replaces it. */
  function Best(cs: seq<Candidate>, normalized: string, n: nat): (b: Option<nat>)
    requires n <= |cs|
    ensures b.Some? ==> b.value < n
  {
    if n == 0 then None
    else
      var b := Best(cs, normalized, n - 1);
      var c := cs[n - 1];
      if Matches(c, normalized) > 0 && Score(c, normalized) > ScoreToBeat(cs, normalized, b) then Some(n - 1) else b
  }

  /**
   * The winner matches, scores above zero and at least as high as every
   * matching candidate, and strictly higher than every earlier one; there
   * is no winner exactly when no matching candidate scores above zero.
   */
  lemma {:induction false} BestIsBest(cs: seq<Candidate>, normalized: string, n: nat)
    requires n <= |cs|
    ensures var b := Best(cs, normalized, n);
            && (b.Some? ==> Matches(cs[b.value], normalized) > 0 && Score(cs[b.value], normalized) > 0.0)
            && (b.Some? ==> forall j :: 0 <= j < n && Matches(cs[j], normalized) > 0 ==>
                                         Score(cs[j], normalized) <= Score(cs[b.value], normalized))
            && (b.Some? ==> forall j :: 0 <= j < b.value && Matches(cs[j], normalized) > 0 ==>
                                         Score(cs[j], normalized) < Score(cs[b.value], normalized))
            && (b.None? <==> forall j :: 0 <= j < n ==> Matches(cs[j], normalized) == 0 || Score(cs[j], normalized) <= 0.0)
  {
    if n > 0 {
      BestIsBest(cs, normalized, n - 1);
    }
  }

  /** What `classifyIntent` returns for the winner `w` with score `score`. */
  function WinnerIntent(w: Candidate, score: real, lastIntent: Option<string>, demoTopic: Option<string>): Intent
  {
    var intent := Intent(w.id, w.caption, Min(0.98, score), w.responseHint, Some(w.action));
    var topic := demoTopic.GetOr("harmonization");
    var narrated :=
      if w.id == DemoId then
        intent.(action := Some(Action("demo.explain", map["topic" := topic])),
                responseHint := "I'll narrate the " + topic + " flow so you can follow along.")
      else intent;
    if lastIntent == Some(w.id) then narrated.(confidence := Max(narrated.confidence, 0.85)) else narrated
  }

  /** What `classifyIntent` computes. */
  function IntentOf(input: string, lastIntent: Option<string>, demoTopic: Option<string>): Intent
  {
    var normalized := Lower(input);
    var b := Best(Candidates, normalized, |Candidates|);
    if b.None? then Fallback
    else WinnerIntent(Candidates[b.value], Score(Candidates[b.value], normalized), lastIntent, demoTopic)
  }

  /**
   * `classifyIntent`: the candidate loop keeps the winner and its score;
   * then the fallback, or the winner's intent with the demo narration and
   * the repeat boost.
   */
  method ClassifyIntent(input: string, lastIntent: Option<string>, demoTopic: Option<string>) returns (intent: Intent)
    ensures intent == IntentOf(input, lastIntent, demoTopic)
  {
    var normalized := Lower(input);
    var winner: Option<nat> := None;
    var winnerScore := 0.0;
    for i := 0 to |Candidates|
      invariant winner == Best(Candidates, normalized, i)
      invariant winnerScore == ScoreToBeat(Candidates, normalized, winner)
    {
      var candidate := Candidates[i];
      var matches := Matches(candidate, normalized);
      if matches == 0 {
        continue;
      }
      var score := candidate.baseConfidence + matches as real * 0.05;
      if score > winnerScore {
        winner := Some(i);
        winnerScore := score;
      }
    }
    if winner.None? {
      return Fallback;
    }
    intent := WinnerIntent(Candidates[winner.value], winnerScore, lastIntent, demoTopic);
  }

  /** Every candidate's base confidence lies between 0.6 and 0.78, and no candidate is the fallback. */
  lemma CandidateBases()
    ensures forall i :: 0 <= i < |Candidates| ==>
              0.6 <= Candidates[i].baseConfidence <= 0.78 && Candidates[i].id != FallbackId
  {
  }

  /** An input that mentions no keyword of any candidate gets the fallback, with confidence 0.42. */
  lemma NoMatchFallsBack(input: string, lastIntent: Option<string>, demoTopic: Option<string>)
    requires forall i :: 0 <= i < |Candidates| ==> Matches(Candidates[i], Lower(input)) == 0
    ensures IntentOf(input, lastIntent, demoTopic) == Fallback
    ensures Fallback.id == FallbackId && Fallback.confidence == 0.42
  {
    BestIsBest(Candidates, Lower(input), |Candidates|);
  }

  /**
   * The winner's intent carries its id, a confidence capped at 0.98 and
   * never below its score or 0.98, and at least 0.85 when it repeats the
   * last intent; the demo walkthrough narrates the detected topic, or
   * "harmonization", and every other winner keeps its own action and hint.
   */
  lemma WinnerIntentBounds(w: Candidate, score: real, lastIntent: Option<string>, demoTopic: Option<string>)
    ensures var r := WinnerIntent(w, score, lastIntent, demoTopic);
            && r.id == w.id
            && Min(0.98, score) <= r.confidence <= 0.98
            && (lastIntent == Some(w.id) ==> r.confidence >= 0.85)
            && (w.id == DemoId ==> r.action.Some? && r.action.value.params["topic"] == demoTopic.GetOr("harmonization"))
            && (w.id != DemoId ==> r.action == Some(w.action) && r.responseHint == w.responseHint)
  {
  }

  /** The result is the fallback exactly when no candidate matches. */
  lemma FallbackExactlyWithoutMatch(input: string, lastIntent: Option<string>, demoTopic: Option<string>)
    ensures IntentOf(input, lastIntent, demoTopic).id == FallbackId <==>
              forall i :: 0 <= i < |Candidates| ==> Matches(Candidates[i], Lower(input)) == 0
  {
    var normalized := Lower(input);
    BestIsBest(Candidates, normalized, |Candidates|);
    CandidateBases();
    var b := Best(Candidates, normalized, |Candidates|);
    if b.Some? {
      WinnerIntentBounds(Candidates[b.value], Score(Candidates[b.value], normalized), lastIntent, demoTopic);
    }
  }

  /**
   * The confidence always lies between 0.42 and 0.98, and a winner that
   * repeats the last intent has at least 0.85.
   */
  lemma ConfidenceBounds(input: string, lastIntent: Option<string>, demoTopic: Option<string>)
    ensures var r := IntentOf(input, lastIntent, demoTopic);
            && 0.42 <= r.confidence <= 0.98
            && (r.id != FallbackId && lastIntent == Some(r.id) ==> r.confidence >= 0.85)
  {
    var normalized := Lower(input);
    var b := Best(Candidates, normalized, |Candidates|);
    if b.Some? {
      CandidateBases();
      var w := Candidates[b.value];
      assert Score(w, normalized) >= 0.6;
      WinnerIntentBounds(w, Score(w, normalized), lastIntent, demoTopic);
    }
  }

  /**
   * The winner is a candidate that matches, scores at least as high as
   * every matching candidate and strictly higher than every earlier one.
   */
  lemma WinnerIsBest(input: string, lastIntent: Option<string>, demoTopic: Option<string>)
    requires IntentOf(input, lastIntent, demoTopic).id != FallbackId
    ensures exists w :: 0 <= w < |Candidates| && Candidates[w].id == IntentOf(input, lastIntent, demoTopic).id &&
              Matches(Candidates[w], Lower(input)) > 0 &&
              (forall j :: 0 <= j < |Candidates| && Matches(Candidates[j], Lower(input)) > 0 ==>
                 Score(Candidates[j], Lower(input)) <= Score(Candidates[w], Lower(input))) &&
              (forall j :: 0 <= j < w && Matches(Candidates[j], Lower(input)) > 0 ==>
                 Score(Candidates[j], Lower(input)) < Score(Candidates[w], Lower(input)))
  {
    var normalized := Lower(input);
    BestIsBest(Candidates, normalized, |Candidates|);
    CandidateBases();
    var b := Best(Candidates, normalized, |Candidates|);
    assert b.Some?;
  }
}
