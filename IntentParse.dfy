/**
 * Parsing a free-text sequencing command into an intent event
 * (src/app/api/intent/parse/route.ts).
 *
 * The command, with a leading `/intent` removed, trimmed and lower-cased,
 * is scanned for a region token, a phase (`phase N`, else `fyNN`), sales
 * channels and an action token with the word after it as target. Appending
 * the event to the pilot log is I/O and is not part of this model.
 */
module IntentParse {
  import opened Common
  import opened Text
  import Mutations

  // ---------------------------------------------------------------- regions

  /** `REGION_TOKENS`, in its key order. */
  function RegionTokens(): seq<(string, string)>
  {
    [("canada", "Canada"), ("na", "North America"), ("emea", "EMEA"), ("apac", "APAC"), ("global", "Global")]
  }

  /** The label of the first token of `table` (from position `k`) that the text contains. */
  function FirstTokenLabel<L>(text: string, table: seq<(string, L)>, k: nat): (r: Option<nat>)
    requires k <= |table|
    ensures r.Some? ==> k <= r.value < |table| && Contains(text, table[r.value].0)
                        && forall j :: k <= j < r.value ==> !Contains(text, table[j].0)
    ensures r.None? ==> forall j :: k <= j < |table| ==> !Contains(text, table[j].0)
    decreases |table| - k
  {
    if k == |table| then None
    else if Contains(text, table[k].0) then Some(k)
    else FirstTokenLabel(text, table, k + 1)
  }

  /** `detectRegion`: the label of the first region token in table order found in the text, else `Global`. */
  function DetectRegion(text: string): (r: string)
    ensures (exists k :: 0 <= k < 5 && Contains(text, RegionTokens()[k].0)) ==>
              exists k :: 0 <= k < 5 && Contains(text, RegionTokens()[k].0) && r == RegionTokens()[k].1
                          && forall j :: 0 <= j < k ==> !Contains(text, RegionTokens()[j].0)
    ensures (forall k :: 0 <= k < 5 ==> !Contains(text, RegionTokens()[k].0)) ==> r == "Global"
  {
    match FirstTokenLabel(text, RegionTokens(), 0)
    case Some(k) => RegionTokens()[k].1
    case None => "Global"
  }

  // ---------------------------------------------------------------- phase

  /** `/phase\s*(\d)/` matches at `i`: `phase`, optional whitespace, a digit. */
  predicate PhaseAt(text: string, i: nat)
  {
    OccursAt(text, "phase", i) && SkipSpaces(text, i + 5) < |text| && IsDigit(text[SkipSpaces(text, i + 5)])
  }

  /** `/fy(\d{2})/` matches at `i`. */
  predicate FyAt(text: string, i: nat)
  {
    i + 4 <= |text| && text[i] == 'f' && text[i + 1] == 'y' && IsDigit(text[i + 2]) && IsDigit(text[i + 3])
  }

  /** The first position at or after `from` where `phase N` matches. */
  function FirstPhase(text: string, from: nat): (r: Option<nat>)
    requires from <= |text|
    ensures r.Some? ==> from <= r.value < |text| && PhaseAt(text, r.value) && forall i :: from <= i < r.value ==> !PhaseAt(text, i)
    ensures r.None? ==> forall i :: from <= i < |text| ==> !PhaseAt(text, i)
    decreases |text| - from
  {
    if from == |text| then None else if PhaseAt(text, from) then Some(from) else FirstPhase(text, from + 1)
  }

  /** The first position at or after `from` where `fyNN` matches. */
  function FirstFy(text: string, from: nat): (r: Option<nat>)
    requires from <= |text|
    ensures r.Some? ==> from <= r.value < |text| && FyAt(text, r.value) && forall i :: from <= i < r.value ==> !FyAt(text, i)
    ensures r.None? ==> forall i :: from <= i < |text| ==> !FyAt(text, i)
    decreases |text| - from
  {
    if from == |text| then None else if FyAt(text, from) then Some(from) else FirstFy(text, from + 1)
  }

  datatype Phase = Phase(phase: string, timeline: string)

  /** `detectPhase`: `Phase N` for the first `phase N`, else `fyNN` for the first `fyNN`, else `phase 1`. */
  function DetectPhase(text: string): (r: Phase)
    ensures (exists i :: 0 <= i < |text| && PhaseAt(text, i)) ==>
              exists i :: 0 <= i < |text| && PhaseAt(text, i) && (forall j :: 0 <= j < i ==> !PhaseAt(text, j)) &&
                          r == Phase("Phase " + [text[SkipSpaces(text, i + 5)]], "phase " + [text[SkipSpaces(text, i + 5)]])
    ensures (forall i :: 0 <= i < |text| ==> !PhaseAt(text, i)) && (exists i :: 0 <= i < |text| && FyAt(text, i)) ==>
              exists i :: 0 <= i < |text| && FyAt(text, i) && (forall j :: 0 <= j < i ==> !FyAt(text, j)) &&
                          r == Phase("fy" + text[i + 2..i + 4], "FY" + text[i + 2..i + 4])
    ensures (forall i :: 0 <= i < |text| ==> !PhaseAt(text, i) && !FyAt(text, i)) ==> r == Phase("phase 1", "phase 1")
  {
    match FirstPhase(text, 0)
    case Some(i) =>
      var d := text[SkipSpaces(text, i + 5)];
      LowerWord("Phase ", "phase ", [d]);
      Phase("Phase " + [d], Lower("Phase " + [d]))
    case None =>
      match FirstFy(text, 0)
      case Some(i) =>
        var year := "FY" + text[i + 2..i + 4];
        LowerWord("FY", "fy", text[i + 2..i + 4]);
        Phase(Lower(year), year)
      case None => Phase("phase 1", "phase 1")
  }

  /** Lower-casing a word followed by digits lower-cases the word only. */
  lemma LowerWord(word: string, lower: string, digits: string)
    requires Lower(word) == lower
    requires forall k :: 0 <= k < |digits| ==> IsDigit(digits[k])
    ensures Lower(word + digits) == lower + digits
  {
    LowerAppend(word, digits);
    LowerFixed(digits);
  }

  // ---------------------------------------------------------------- channels

  /** `CHANNEL_TOKENS`, in its key order. */
  function ChannelTokens(): seq<(string, seq<string>)>
  {
    [("b2b", ["b2b", "business to business"]),
     ("b2c", ["b2c", "business to consumer"]),
     ("retail", ["retail", "store", "stores"])]
  }

  predicate MentionsAny(text: string, tokens: seq<string>)
  {
    exists k :: 0 <= k < |tokens| && Contains(text, tokens[k])
  }

  /** The channels whose tokens the text mentions, in table order (the first pass of `detectChannels`). */
  function Mentioned(text: string, table: seq<(string, seq<string>)>): (r: seq<string>)
    ensures forall c :: c in r ==> exists k :: 0 <= k < |table| && table[k].0 == c && MentionsAny(text, table[k].1)
    ensures forall k :: 0 <= k < |table| && MentionsAny(text, table[k].1) ==> table[k].0 in r
  {
    if |table| == 0 then []
    else
      var init := Mentioned(text, table[..|table| - 1]);
      var last := table[|table| - 1];
      assert forall k :: 0 <= k < |table| - 1 ==> table[..|table| - 1][k] == table[k];
      if MentionsAny(text, last.1) then init + [last.0] else init
  }

  /** A character of the class `[a-z0-9+\s]`. */
  predicate WithChar(c: char)
  {
    ('a' <= c <= 'z') || IsDigit(c) || c == '+' || IsSpace(c)
  }

  /** The end of the run of class characters starting at `j`. */
  function RunEnd(s: string, j: nat): (n: nat)
    requires j <= |s|
    ensures j <= n <= |s| && (n < |s| ==> !WithChar(s[n]))
    ensures forall k :: j <= k < n ==> WithChar(s[k])
    decreases |s| - j
  {
    if j < |s| && WithChar(s[j]) then RunEnd(s, j + 1) else j
  }

  /** `/with\s+([a-z0-9+\s]+)/` matches at `i`: `with`, whitespace, and at least one more class character. */
  predicate WithAt(s: string, i: nat)
  {
    OccursAt(s, "with", i) && i + 4 < |s| && IsSpace(s[i + 4]) && RunEnd(s, i + 4) >= i + 6
  }

  /** The first position at or after `from` where the `with` pattern matches. */
  function FirstWith(text: string, from: nat): (r: Option<nat>)
    requires from <= |text|
    ensures r.Some? ==> from <= r.value < |text| && WithAt(text, r.value)
    decreases |text| - from
  {
    if from == |text| then None else if WithAt(text, from) then Some(from) else FirstWith(text, from + 1)
  }

  /** The match found is the first one: the pattern matches nowhere before it, and nowhere at all when none is found. */
  lemma {:induction false} FirstWithIsFirst(text: string, from: nat, i: nat)
    requires from <= i < |text| && WithAt(text, i)
    ensures FirstWith(text, from).Some? && FirstWith(text, from).value <= i
    decreases |text| - from
  {
    if !WithAt(text, from) {
      FirstWithIsFirst(text, from + 1, i);
    }
  }

  /**
   * The pieces of the `with` capture, split on `+`, `,` and `&`, trimmed and
   * non-empty. The run taken here also holds the whitespace `\s+` consumed;
   * trimming the first piece removes it, so the pieces are those of the
   * capture.
   */
  function WithParts(text: string): seq<string>
  {
    var first := FirstWith(text, 0);
    if first.None? then [] else WithPieces(text[first.value + 4..RunEnd(text, first.value + 4)])
  }

  /** The captured run split on `+`, `,` and `&`, trimmed, empty pieces dropped. */
  function WithPieces(run: string): seq<string>
  {
    TrimmedNonEmpty(Split(run, {'+', ',', '&'}))
  }

  /** The fallback pass: the pieces that are exactly `b2b` or `b2c`, once each. */
  function WithChannels(parts: seq<string>): (r: seq<string>)
    ensures forall c :: c in r ==> c in parts && (c == "b2b" || c == "b2c")
  {
    if |parts| == 0 then []
    else
      var init := WithChannels(parts[..|parts| - 1]);
      var p := parts[|parts| - 1];
      if (p == "b2b" || p == "b2c") && p !in init then init + [p] else init
  }

  /** `detectChannels` as a value. */
  function Channels(text: string): (r: seq<string>)
    ensures |r| > 0
  {
    var first := Mentioned(text, ChannelTokens());
    if |first| > 0 then first
    else
      var fallback := WithChannels(WithParts(text));
      if |fallback| > 0 then fallback else ["b2b"]
  }

  /** `detectChannels`: the table loop, the fallback, then the default. */
  method DetectChannels(text: string) returns (channels: seq<string>)
    ensures channels == Channels(text)
    ensures |channels| > 0
  {
    var table := ChannelTokens();
    channels := [];
    var k := 0;
    while k < |table|
      invariant 0 <= k <= |table|
      invariant channels == Mentioned(text, table[..k])
    {
      var next := k + 1;
      assert table[..next][..k] == table[..k];
      if MentionsAny(text, table[k].1) {
        channels := channels + [table[k].0];
      }
      k := next;
    }
    assert table[..k] == table;
    if |channels| == 0 {
      channels := WithChannels(WithParts(text));
    }
    if |channels| == 0 {
      channels := ["b2b"];
    }
  }

  // ---------------------------------------------------------------- the `with` fallback never adds anything

  /** Every piece of a split occurs in the text; the first piece is a prefix. */
  lemma {:induction false} SplitPiecesOccur(s: string, seps: set<char>)
    ensures StartsWith(s, Split(s, seps)[0])
    ensures forall q :: q in Split(s, seps) ==> exists i :: OccursAt(s, q, i)
    decreases |s|
  {
    if |s| == 0 {
      assert OccursAt(s, "", 0);
    } else {
      var rest := Split(s[1..], seps);
      SplitPiecesOccur(s[1..], seps);
      forall q | q in rest
        ensures exists i :: OccursAt(s, q, i)
      {
        var i :| OccursAt(s[1..], q, i);
        assert s[i + 1..i + 1 + |q|] == s[1..][i..i + |q|];
        assert OccursAt(s, q, i + 1);
      }
      if s[0] in seps {
        assert OccursAt(s, "", 0);
      } else {
        var first := [s[0]] + rest[0];
        assert s[..|first|] == [s[0]] + s[1..][..|rest[0]|];
        assert OccursAt(s, first, 0);
        assert forall q :: q in Split(s, seps) ==> q == first || q in rest;
      }
    }
  }

  /** A trimmed non-empty piece occurs inside one of the pieces it came from. */
  lemma {:induction false} TrimmedPieceOccurs(parts: seq<string>, x: string) returns (k: nat, i: nat)
    requires x in TrimmedNonEmpty(parts)
    ensures k < |parts| && OccursAt(parts[k], x, i)
    decreases |parts|
  {
    var t := Trim(parts[0]);
    if x == t && t != "" {
      k := 0;
      i := TrimOccurs(parts[0]);
    } else {
      var k', i' := TrimmedPieceOccurs(parts[1..], x);
      OccursInTail(parts, k', x, i');
      k, i := k' + 1, i';
    }
  }

  lemma TrimOccurs(s: string) returns (lo: nat)
    ensures OccursAt(s, Trim(s), lo)
  {
    lo := TrimSlice(s);
  }

  lemma OccursInTail(parts: seq<string>, k: nat, x: string, i: nat)
    requires 0 < |parts| && k < |parts| - 1 && OccursAt(parts[1..][k], x, i)
    ensures k + 1 < |parts| && OccursAt(parts[k + 1], x, i)
  {
    assert parts[1..][k] == parts[k + 1];
  }

  /** Where a piece of a split sits in the text. */
  lemma PieceOffset(s: string, seps: set<char>, pieces: seq<string>, k: nat) returns (m: nat)
    requires pieces == Split(s, seps) && k < |pieces|
    ensures OccursAt(s, pieces[k], m)
  {
    SplitPiecesOccur(s, seps);
    assert pieces[k] in Split(s, seps);
    m :| OccursAt(s, pieces[k], m);
  }

  /** A trimmed non-empty piece of a split occurs in the split text. */
  lemma PieceOccurs(run: string, seps: set<char>, c: string) returns (p: nat)
    requires c in TrimmedNonEmpty(Split(run, seps))
    ensures OccursAt(run, c, p)
  {
    var pieces := Split(run, seps);
    var k, j := TrimmedPieceOccurs(pieces, c);
    var m := PieceOffset(run, seps, pieces, k);
    OccursWithin(run, pieces[k], m, c, j);
    p := m + j;
  }

  /** The `with` pieces come from one slice of the text. */
  lemma WithRun(text: string) returns (lo: nat, hi: nat)
    requires FirstWith(text, 0).Some?
    ensures lo <= hi <= |text| && WithParts(text) == WithPieces(text[lo..hi])
  {
    var i := FirstWith(text, 0).value;
    lo, hi := i + 4, RunEnd(text, i + 4);
  }

  /** A piece of the `with` capture is a substring of the text. */
  lemma WithPartOccurs(text: string, c: string)
    requires c in WithParts(text)
    ensures Contains(text, c)
  {
    var lo, hi := WithRun(text);
    var p := PieceOccurs(text[lo..hi], {'+', ',', '&'}, c);
    ContainsIff(text[lo..hi], c);
    ContainsInSlice(text, lo, hi, c);
  }

  /**
   * The `with` fallback of `detectChannels` never adds a channel: a piece
   * equal to `b2b` or `b2c` is a substring of the text, so the first pass
   * would already have detected it.
   */
  lemma WithFallbackAddsNothing(text: string)
    requires Mentioned(text, ChannelTokens()) == []
    ensures WithChannels(WithParts(text)) == []
    ensures Channels(text) == ["b2b"]
  {
    var parts := WithParts(text);
    if WithChannels(parts) != [] {
      var c := WithChannels(parts)[0];
      assert c in WithChannels(parts);
      WithPartOccurs(text, c);
      var idx := if c == "b2b" then 0 else 1;
      assert ChannelTokens()[idx].1[0] == c;
      assert MentionsAny(text, ChannelTokens()[idx].1);
      assert false;
    }
  }

  // ---------------------------------------------------------------- action

  /** `ACTION_TOKENS`, in its key order. */
  function ActionTokens(): seq<(string, Mutations.Action)>
  {
    [("decouple", Mutations.Decouple), ("remove", Mutations.Decouple), ("drop", Mutations.Decouple),
     ("prioritize", Mutations.Prioritize), ("focus", Mutations.Focus)]
  }

  datatype ActionTarget = ActionTarget(action: Option<Mutations.Action>, target: Option<string>)

  /** `[\s,]`: the characters the target text is split on. */
  function TargetSeps(): set<char>
  {
    {' ', '\t', '\n', '\r', 11 as char, 12 as char, ','}
  }

  /** `Boolean` on a string: kept by `filter(Boolean)` when non-empty. */
  predicate NonEmptyWord(w: string)
  {
    w != ""
  }

  /** The words of a text split on whitespace and commas, without empty pieces. */
  function Words(s: string): (r: seq<string>)
    ensures forall w :: w in r ==> w != ""
  {
    Filter(Split(s, TargetSeps()), NonEmptyWord)
  }

  /** `s[p..q]` is the first word of `s`: separators before it, none inside, a separator or the end after it. */
  predicate FirstWordAt(s: string, p: nat, q: nat)
  {
    && p < q <= |s|
    && (forall k :: 0 <= k < p ==> s[k] in TargetSeps())
    && (forall k :: p <= k < q ==> s[k] !in TargetSeps())
    && (q == |s| || s[q] in TargetSeps())
  }

  /** The first piece of a split runs up to the first separator. */
  lemma {:induction false} SplitHead(s: string, seps: set<char>, q: nat)
    requires q <= |s| && (forall k :: 0 <= k < q ==> s[k] !in seps) && (q == |s| || s[q] in seps)
    ensures Split(s, seps)[0] == s[..q]
    decreases |s|
  {
    if |s| > 0 && s[0] !in seps {
      SplitHead(s[1..], seps, q - 1);
      assert s[..q] == [s[0]] + s[1..][..q - 1];
    }
  }

  /** A leading separator contributes only an empty piece. */
  lemma WordsDropSep(s: string)
    requires |s| > 0 && s[0] in TargetSeps()
    ensures Words(s) == Words(s[1..])
  {
    var rest := Split(s[1..], TargetSeps());
    assert Split(s, TargetSeps()) == [""] + rest;
    FilterAppend([""], rest, NonEmptyWord);
    assert Filter([""], NonEmptyWord) == [];
  }

  /** A text made only of separators has no words. */
  lemma {:induction false} WordsAllSeps(s: string)
    requires forall k :: 0 <= k < |s| ==> s[k] in TargetSeps()
    ensures Words(s) == []
    decreases |s|
  {
    if |s| == 0 {
      assert Filter([""], NonEmptyWord) == [];
    } else {
      WordsDropSep(s);
      WordsAllSeps(s[1..]);
    }
  }

  /** The first word of the text is the first word the split keeps. */
  lemma {:induction false} WordsFirstAt(s: string, p: nat, q: nat)
    requires FirstWordAt(s, p, q)
    ensures |Words(s)| > 0 && Words(s)[0] == s[p..q]
    decreases p
  {
    if p > 0 {
      WordsDropSep(s);
      assert FirstWordAt(s[1..], p - 1, q - 1);
      WordsFirstAt(s[1..], p - 1, q - 1);
      assert s[1..][p - 1..q - 1] == s[p..q];
    } else {
      var pieces := Split(s, TargetSeps());
      SplitHead(s, TargetSeps(), q);
      assert pieces == [pieces[0]] + pieces[1..];
      FilterAppend([pieces[0]], pieces[1..], NonEmptyWord);
      assert s[..q] != "" by { assert s[..q][0] == s[0]; }
      assert Filter([pieces[0]], NonEmptyWord) == [pieces[0]] by {
        assert [pieces[0]][..0] == [];
      }
    }
  }

  /** A word starting at `p` ends at the first separator from `i` on. */
  lemma {:induction false} WordEnd(s: string, p: nat, i: nat) returns (q: nat)
    requires p < i <= |s| && (forall k :: 0 <= k < p ==> s[k] in TargetSeps())
    requires forall k :: p <= k < i ==> s[k] !in TargetSeps()
    ensures FirstWordAt(s, p, q)
    decreases |s| - i
  {
    if i == |s| || s[i] in TargetSeps() {
      q := i;
    } else {
      q := WordEnd(s, p, i + 1);
    }
  }

  /** A text with a non-separator from `from` on has a first word. */
  lemma {:induction false} FindWord(s: string, from: nat) returns (p: nat, q: nat)
    requires from < |s| && (forall k :: 0 <= k < from ==> s[k] in TargetSeps())
    requires exists k :: from <= k < |s| && s[k] !in TargetSeps()
    ensures FirstWordAt(s, p, q)
    decreases |s| - from
  {
    if s[from] !in TargetSeps() {
      p := from;
      q := WordEnd(s, p, p + 1);
    } else {
      var k :| from <= k < |s| && s[k] !in TargetSeps();
      assert k != from;
      p, q := FindWord(s, from + 1);
    }
  }

  /** There are no words exactly when the text is all separators; otherwise the first is the text's first word. */
  lemma WordsFacts(s: string)
    ensures |Words(s)| == 0 <==> forall k :: 0 <= k < |s| ==> s[k] in TargetSeps()
    ensures |Words(s)| > 0 ==> exists p: nat, q: nat :: FirstWordAt(s, p, q) && Words(s)[0] == s[p..q]
  {
    if forall k :: 0 <= k < |s| ==> s[k] in TargetSeps() {
      WordsAllSeps(s);
    } else {
      var p, q := FindWord(s, 0);
      WordsFirstAt(s, p, q);
    }
  }

  /** `text.slice(index + token.length).trim()`, with `index` the first occurrence of the token. */
  function Remainder(text: string, token: string): string
    requires Contains(text, token)
  {
    var index := IndexOf(text, token);
    Trim(text[index + |token|..])
  }

  /**
   * The upper-cased first word after the first occurrence of `token`: None
   * exactly when nothing but separators follows it.
   */
  function TargetAfter(text: string, token: string): (r: Option<string>)
    requires Contains(text, token)
    ensures var rest := Remainder(text, token);
            && (r.None? <==> forall k :: 0 <= k < |rest| ==> rest[k] in TargetSeps())
            && (r.Some? ==> exists p: nat, q: nat :: FirstWordAt(rest, p, q) && r.value == Upper(rest[p..q]))
  {
    var words := Words(Remainder(text, token));
    WordsFacts(Remainder(text, token));
    if |words| > 0 then Some(Upper(words[0])) else None
  }

  /** `detectAction`: the first action token in table order found in the text, and the upper-cased first word after it. */
  function DetectAction(text: string): (r: ActionTarget)
    ensures r.action.None? <==> forall k :: 0 <= k < 5 ==> !Contains(text, ActionTokens()[k].0)
    ensures r.action.None? ==> r.target.None?
    ensures r.action.Some? ==> exists k :: 0 <= k < 5 && Contains(text, ActionTokens()[k].0)
                                          && r.action.value == ActionTokens()[k].1
                                          && r.target == TargetAfter(text, ActionTokens()[k].0)
                                          && forall j :: 0 <= j < k ==> !Contains(text, ActionTokens()[j].0)
  {
    match FirstTokenLabel(text, ActionTokens(), 0)
    case None => ActionTarget(None, None)
    case Some(k) => ActionTarget(Some(ActionTokens()[k].1), TargetAfter(text, ActionTokens()[k].0))
  }

  // ---------------------------------------------------------------- the POST handler

  datatype Response = BadRequest(error: string) | ServerError | Event(payload: Mutations.Payload)

  /** `command.replace(/^\/intent/i, "").trim().toLowerCase()`. */
  function Normalize(command: string): string
  {
    var rest := if |command| >= 7 && Lower(command[..7]) == "/intent" then command[7..] else command;
    Lower(Trim(rest))
  }

  /**
   * `POST /api/intent/parse`. `body` is None when the request body is not
   * JSON; destructuring `null` throws, which the handler turns into 500.
   */
  function ParseCommand(body: Option<Json>): (r: Response)
    ensures r.Event? ==> |r.payload.channels| > 0 && r.payload.region.Some? && r.payload.phase.Some?
  {
    if body.None? || body.value.JNull? then ServerError
    else
      var command := Field(body.value, "command");
      if command.None? || !command.value.JStr? || command.value.s == "" then BadRequest("command is required")
      else
        var normalized := Normalize(command.value.s);
        if normalized == "" then BadRequest("command is required")
        else
          var ph := DetectPhase(normalized);
          var act := DetectAction(normalized);
          Event(Mutations.Payload(Some(DetectRegion(normalized)), Some(ph.phase), Some(ph.timeline),
                                  Channels(normalized), act.action, act.target))
  }

  /** A missing, non-string or empty command, or one that is blank once `/intent` is removed, gets 400. */
  lemma BadCommands(body: Json)
    requires !body.JNull?
    ensures var command := Field(body, "command");
            (command.None? || !command.value.JStr? || command.value.s == "" || Normalize(command.value.s) == "")
            <==> ParseCommand(Some(body)).BadRequest?
  {
  }
}
