/**
 * Cleaning and classifying raw diagram labels
 * (src/domain/services/digitalEnterpriseNormalization.ts).
 *
 * `normalizeLabel` trims a label, strips surrounding quotes again and again
 * (a label may be quoted several times over), and collapses whitespace
 * runs to one space. `classifyLabel` sorts a label into a coarse node
 * kind, conservatively: a label is a system unless a keyword says it is a
 * region, a diagram shape, a lane or a process step, or it is empty,
 * numeric or known junk.
 */
module EnterpriseNormalization {
  import opened Common
  import opened Text

  predicate IsQuote(c: char) { c == '"' || c == '\'' }

  // ---------------------------------------------------------------- normalizeLabel

  /** The first loop: while the label starts with a quote and is longer than one character, drop the quote and trim. */
  function StripLeading(s: string): string
    decreases |s|
  {
    if |s| > 1 && IsQuote(s[0]) then StripLeading(Trim(s[1..])) else s
  }

  /** The second loop: the same at the end of the label. */
  function StripTrailing(s: string): string
    decreases |s|
  {
    if |s| > 1 && IsQuote(s[|s| - 1]) then StripTrailing(Trim(s[..|s| - 1])) else s
  }

  /** `s.replace(/\s+/g, " ").trim()`. */
  function Collapse(s: string): string
  {
    Trim(ReplaceRuns(s, IsSpace, ' '))
  }

  /** What `normalizeLabel` computes; `None` is a null or undefined label. */
  function NormalizedLabel(raw: Option<string>): string
  {
    if raw.None? then "" else Collapse(StripTrailing(StripLeading(Trim(raw.value))))
  }

  /** A normalised label: trimmed, single spaces only, and no quote at either end unless it is one character long. */
  predicate LabelShaped(s: string)
  {
    && IsTrimmed(s)
    && (forall k :: 0 <= k < |s| ==> s[k] == ' ' || !IsSpace(s[k]))
    && (forall k :: 0 <= k < |s| - 1 ==> !(s[k] == ' ' && s[k + 1] == ' '))
    && (|s| > 1 ==> !IsQuote(s[0]) && !IsQuote(s[|s| - 1]))
  }

  /**
   * `normalizeLabel`: trim, then the two quote-stripping loops, then the
   * whitespace collapse.
   */
  method NormalizeLabel(raw: Option<string>) returns (s: string)
    ensures s == NormalizedLabel(raw)
  {
    if raw.None? {
      return "";
    }
    s := Trim(raw.value);
    while (|s| > 0 && IsQuote(s[0])) && |s| > 1
      invariant StripLeading(s) == StripLeading(Trim(raw.value))
      decreases |s|
    {
      s := Trim(s[1..]);
    }
    ghost var afterLeading := s;
    while (|s| > 0 && IsQuote(s[|s| - 1])) && |s| > 1
      invariant StripTrailing(s) == StripTrailing(afterLeading)
      decreases |s|
    {
      s := Trim(s[..|s| - 1]);
    }
    s := Trim(ReplaceRuns(s, IsSpace, ' '));
  }

  /** Trimming a string that starts with a non-space keeps that first character. */
  lemma TrimKeepsFirst(s: string)
    requires |s| > 0 && !IsSpace(s[0])
    ensures |Trim(s)| > 0 && Trim(s)[0] == s[0]
  {
    assert SkipSpaces(s, 0) == 0;
    assert BackSpaces(s, |s|) > 0;
  }

  lemma {:induction false} StripLeadingShape(s: string)
    requires IsTrimmed(s)
    ensures var r := StripLeading(s);
            IsTrimmed(r) && (|r| > 1 ==> !IsQuote(r[0])) && |r| <= |s|
    decreases |s|
  {
    if |s| > 1 && IsQuote(s[0]) {
      StripLeadingShape(Trim(s[1..]));
    }
  }

  lemma {:induction false} StripTrailingShape(s: string)
    requires IsTrimmed(s)
    ensures var r := StripTrailing(s);
            IsTrimmed(r) && (|r| > 1 ==> !IsQuote(r[|r| - 1])) &&
            (|s| > 0 ==> |r| > 0 && r[0] == s[0])
    decreases |s|
  {
    if |s| > 1 && IsQuote(s[|s| - 1]) {
      TrimKeepsFirst(s[..|s| - 1]);
      StripTrailingShape(Trim(s[..|s| - 1]));
    }
  }

  /** Collapsing whitespace runs keeps a non-space last character. */
  lemma {:induction false} ReplaceRunsLast(s: string)
    requires |s| > 0 && !IsSpace(s[|s| - 1])
    ensures var c := ReplaceRuns(s, IsSpace, ' ');
            |c| > 0 && c[|c| - 1] == s[|s| - 1]
    decreases |s|
  {
    if IsSpace(s[0]) {
      var d := DropWhile(s, IsSpace);
      assert |d| > 0 by {
        if |d| == 0 {
          DropAllSpace(s);
        }
      }
      assert d[|d| - 1] == s[|s| - 1];
      ReplaceRunsLast(d);
    } else if |s| > 1 {
      ReplaceRunsLast(s[1..]);
    }
  }

  /** Dropping leading spaces leaves nothing only when everything was space. */
  lemma {:induction false} DropAllSpace(s: string)
    requires DropWhile(s, IsSpace) == []
    ensures AllSpace(s)
    decreases |s|
  {
    if |s| > 0 && IsSpace(s[0]) {
      DropAllSpace(s[1..]);
    }
  }

  /** Collapsing whitespace in a trimmed label keeps both end characters, and keeps a label of two or more characters that long. */
  lemma CollapseEnds(s: string)
    requires IsTrimmed(s) && |s| > 0
    ensures var c := ReplaceRuns(s, IsSpace, ' ');
            |c| > 0 && c[0] == s[0] && c[|c| - 1] == s[|s| - 1] && (|s| > 1 ==> |c| > 1) && Trim(c) == c
  {
    var c := ReplaceRuns(s, IsSpace, ' ');
    ReplaceRunsLast(s);
    if |s| > 1 {
      ReplaceRunsLast(s[1..]);
    }
    TrimFixed(c);
  }

  /** Collapsing a trimmed label without surrounding quotes gives a label in normalised shape. */
  lemma CollapseShape(s: string)
    requires IsTrimmed(s) && (|s| > 1 ==> !IsQuote(s[0]) && !IsQuote(s[|s| - 1]))
    ensures LabelShaped(Collapse(s))
  {
    var c := ReplaceRuns(s, IsSpace, ' ');
    if |s| == 0 {
      assert c == "";
    } else {
      CollapseEnds(s);
    }
  }

  /**
   * A null label normalises to the empty string; any other label
   * normalises to a trimmed label with single spaces only and without
   * surrounding quotes.
   */
  lemma NormalizedShape(raw: Option<string>)
    ensures raw.None? ==> NormalizedLabel(raw) == ""
    ensures LabelShaped(NormalizedLabel(raw))
  {
    if raw.Some? {
      var t := Trim(raw.value);
      StripLeadingShape(t);
      var a := StripLeading(t);
      StripTrailingShape(a);
      var b := StripTrailing(a);
      assert |b| > 1 ==> |a| > 1;
      CollapseShape(b);
    }
  }

  /** A label in normalised shape is its own normal form. */
  lemma ShapedFixed(s: string)
    requires LabelShaped(s)
    ensures NormalizedLabel(Some(s)) == s
  {
    TrimFixed(s);
    assert StripLeading(s) == s;
    assert StripTrailing(s) == s;
    ReplaceRunsFixed(s, IsSpace, ' ');
    TrimFixed(s);
  }

  /** Normalising twice is normalising once. */
  lemma NormalizeIdempotent(raw: Option<string>)
    ensures NormalizedLabel(Some(NormalizedLabel(raw))) == NormalizedLabel(raw)
  {
    NormalizedShape(raw);
    ShapedFixed(NormalizedLabel(raw));
  }

  /** Quotes around a label, however deeply nested, do not survive normalisation. */
  lemma QuotesStripped(s: string)
    requires |s| > 1 && IsQuote(s[0]) && IsQuote(s[|s| - 1])
    ensures var r := NormalizedLabel(Some(s));
            |r| > 1 ==> !IsQuote(r[0]) && !IsQuote(r[|r| - 1])
  {
    NormalizedShape(Some(s));
  }

  // ---------------------------------------------------------------- classifyLabel

  datatype NodeKind = SystemKind | RegionKind | ProcessKind | UiKind | ShapeKind | OtherKind

  const RegionKeywords: seq<string> := [
    "emea", "apac", "amer", "latam", "na", "north america", "south america", "europe", "asia",
    "regional", "region", "global", "worldwide"]

  const ShapeKeywords: seq<string> := [
    "text", "line", "process", "connector", "rectangle", "terminator", "cloud", "page", "user image",
    "block", "note"]

  const ProcessKeywords: seq<string> := ["process", "workflow", "journey", "step", "stage", "phase"]

  const JunkPatterns: seq<string> := ["pb - 1 or more"]

  /** `keywords.some((k) => l === k || l.includes(k))`; equality implies inclusion. */
  predicate MentionsAny(l: string, keywords: seq<string>)
  {
    exists k :: k in keywords && Contains(l, k)
  }

  predicate AllDigits(s: string)
  {
    |s| > 0 && forall k :: 0 <= k < |s| ==> IsDigit(s[k])
  }

  /** The lane test: `l.includes("swimlane") || l.includes("lane")`. */
  predicate MentionsLane(l: string)
  {
    Contains(l, "swimlane") || Contains(l, "lane")
  }

  /**
   * `classifyLabel`: the first test that fires decides, in the order empty,
   * region, shape, lane, process, numeric, junk; a label none of them
   * catches is a system.
   */
  function ClassifyLabel(text: string): (k: NodeKind)
    ensures var l := Lower(NormalizedLabel(Some(text)));
            && (l == "" ==> k == OtherKind)
            && (k == RegionKind <==> l != "" && MentionsAny(l, RegionKeywords))
            && (k == ShapeKind <==> l != "" && !MentionsAny(l, RegionKeywords) && MentionsAny(l, ShapeKeywords))
            && (k == UiKind <==> l != "" && !MentionsAny(l, RegionKeywords) && !MentionsAny(l, ShapeKeywords) && MentionsLane(l))
            && (k == ProcessKind <==> l != "" && !MentionsAny(l, RegionKeywords) && !MentionsAny(l, ShapeKeywords) &&
                                      !MentionsLane(l) && MentionsAny(l, ProcessKeywords))
            && (k == SystemKind <==> l != "" && !MentionsAny(l, RegionKeywords) && !MentionsAny(l, ShapeKeywords) &&
                                     !MentionsLane(l) && !MentionsAny(l, ProcessKeywords) &&
                                     !AllDigits(NormalizedLabel(Some(text))) && !MentionsAny(l, JunkPatterns))
  {
    var normalized := NormalizedLabel(Some(text));
    var l := Lower(normalized);
    if l == "" then OtherKind
    else if MentionsAny(l, RegionKeywords) then RegionKind
    else if MentionsAny(l, ShapeKeywords) then ShapeKind
    else if MentionsLane(l) then UiKind
    else if MentionsAny(l, ProcessKeywords) then ProcessKind
    else if AllDigits(normalized) then OtherKind
    else if MentionsAny(l, JunkPatterns) then OtherKind
    else SystemKind
  }

  /** Classification looks only at the normalised label. */
  lemma ClassifyNormalized(text: string)
    ensures ClassifyLabel(NormalizedLabel(Some(text))) == ClassifyLabel(text)
  {
    NormalizeIdempotent(Some(text));
  }

  /** A string of digits contains no string that starts with a letter. */
  lemma DigitsAvoid(l: string, k: string)
    requires forall i :: 0 <= i < |l| ==> IsDigit(l[i])
    requires |k| > 0 && 'a' <= k[0] <= 'z'
    ensures !Contains(l, k)
  {
    ContainsIff(l, k);
  }

  lemma DigitsAvoidAll(l: string, keywords: seq<string>)
    requires forall i :: 0 <= i < |l| ==> IsDigit(l[i])
    requires Lettered(keywords)
    ensures !MentionsAny(l, keywords)
  {
    forall k | k in keywords
      ensures !Contains(l, k)
    {
      var i :| 0 <= i < |keywords| && keywords[i] == k;
      DigitsAvoid(l, k);
    }
  }

  /** A purely numeric label is `other`. */
  lemma NumericIsOther(text: string)
    requires AllDigits(NormalizedLabel(Some(text)))
    ensures ClassifyLabel(text) == OtherKind
  {
    var n := NormalizedLabel(Some(text));
    LowerFixed(n);
    DigitsMentionNothing(n);
  }

  /** Every keyword of a list starts with a letter. */
  predicate Lettered(keywords: seq<string>)
  {
    forall i :: 0 <= i < |keywords| ==> |keywords[i]| > 0 && 'a' <= keywords[i][0] <= 'z'
  }

  lemma KeywordsLettered()
    ensures Lettered(RegionKeywords) && Lettered(ShapeKeywords) && Lettered(ProcessKeywords)
  {
  }

  /** A string of digits mentions no region, shape, lane or process keyword. */
  lemma DigitsMentionNothing(l: string)
    requires forall i :: 0 <= i < |l| ==> IsDigit(l[i])
    ensures !MentionsAny(l, RegionKeywords) && !MentionsAny(l, ShapeKeywords)
    ensures !MentionsLane(l) && !MentionsAny(l, ProcessKeywords)
  {
    KeywordsLettered();
    DigitsAvoidAll(l, RegionKeywords);
    DigitsAvoidAll(l, ShapeKeywords);
    DigitsAvoidAll(l, ProcessKeywords);
    DigitsAvoid(l, "swimlane");
    DigitsAvoid(l, "lane");
  }

  /** A blank label is `other`. */
  lemma BlankIsOther(text: string)
    requires AllSpace(text)
    ensures ClassifyLabel(text) == OtherKind
  {
    assert Trim(text) == "";
  }
}
