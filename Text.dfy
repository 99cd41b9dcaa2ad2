/**
 * String operations shared by the parsers: trimming, ASCII case mapping,
 * searching, splitting, decimal rendering and run replacement (the
 * `replace(/[...]+/g, x)` idiom of the JavaScript sources).
 *
 * Whitespace is the ASCII set (space, tab, line feed, carriage return,
 * vertical tab, form feed); case mapping is ASCII.
 */
module Text {

  predicate IsSpace(c: char)
  {
    c == ' ' || c == '\t' || c == '\n' || c == '\r' || c as int == 11 || c as int == 12
  }

  predicate IsDigit(c: char) { '0' <= c <= '9' }

  /** A character of the class `[a-z0-9]`. */
  predicate IsLowerAlnum(c: char) { ('a' <= c <= 'z') || IsDigit(c) }

  predicate NotLowerAlnum(c: char) { !IsLowerAlnum(c) }

  function LowerChar(c: char): char
  {
    if 'A' <= c <= 'Z' then (c as int + 32) as char else c
  }

  function UpperChar(c: char): char
  {
    if 'a' <= c <= 'z' then (c as int - 32) as char else c
  }

  function Lower(s: string): string
  {
    seq(|s|, i requires 0 <= i < |s| => LowerChar(s[i]))
  }

  function Upper(s: string): (r: string)
    ensures |r| == |s| && forall i :: 0 <= i < |r| ==> !('a' <= r[i] <= 'z')
  {
    seq(|s|, i requires 0 <= i < |s| => UpperChar(s[i]))
  }

  lemma LowerAppend(a: string, b: string)
    ensures Lower(a + b) == Lower(a) + Lower(b)
  {
  }

  /** A string with no upper-case ASCII letter is its own lower-case form. */
  lemma LowerFixed(s: string)
    requires forall i :: 0 <= i < |s| ==> !('A' <= s[i] <= 'Z')
    ensures Lower(s) == s
  {
  }

  predicate AllSpace(s: string)
  {
    forall i :: 0 <= i < |s| ==> IsSpace(s[i])
  }

  /** The index of the first non-whitespace character at or after `i`, or `|s|`. */
  function SkipSpaces(s: string, i: nat): (n: nat)
    requires i <= |s|
    ensures i <= n <= |s|
    ensures forall k :: i <= k < n ==> IsSpace(s[k])
    ensures n < |s| ==> !IsSpace(s[n])
    decreases |s| - i
  {
    if i < |s| && IsSpace(s[i]) then SkipSpaces(s, i + 1) else i
  }

  /** One past the last non-whitespace character before `j`, or `0`. */
  function BackSpaces(s: string, j: nat): (n: nat)
    requires j <= |s|
    ensures n <= j
    ensures forall k :: n <= k < j ==> IsSpace(s[k])
    ensures n > 0 ==> !IsSpace(s[n - 1])
  {
    if j > 0 && IsSpace(s[j - 1]) then BackSpaces(s, j - 1) else j
  }

  /** `String.prototype.trim` / Python `str.strip()`. */
  function Trim(s: string): (r: string)
    ensures |r| <= |s|
    ensures IsTrimmed(r)
    ensures r == "" <==> AllSpace(s)
  {
    var lo := SkipSpaces(s, 0);
    var hi := BackSpaces(s, |s|);
    if lo == |s| then ""
    else
      assert !IsSpace(s[lo]);
      s[lo..hi]
  }

  /** The trimmed string is the slice of `s` starting at `lo`. */
  lemma TrimSlice(s: string) returns (lo: nat)
    ensures lo + |Trim(s)| <= |s| && Trim(s) == s[lo..lo + |Trim(s)|]
  {
    lo := SkipSpaces(s, 0);
    if lo == |s| {
      lo := 0;
    }
  }

  /** The trimmed string is a slice of the original, so it holds no character the original lacks. */
  lemma TrimInside(s: string)
    ensures forall c :: c in Trim(s) ==> c in s
  {
    var lo := TrimSlice(s);
    forall c | c in Trim(s)
      ensures c in s
    {
      var k :| 0 <= k < |Trim(s)| && Trim(s)[k] == c;
      assert s[lo + k] == c;
    }
  }

  /** Trimming is exact on a string that has no surrounding whitespace. */
  lemma TrimFixed(s: string)
    requires |s| > 0 ==> !IsSpace(s[0]) && !IsSpace(s[|s| - 1])
    ensures Trim(s) == s
  {
  }

  /** Blanks around a trimmed string are what trimming removes. */
  lemma TrimPadded(a: string, s: string, b: string)
    requires AllSpace(a) && AllSpace(b) && IsTrimmed(s)
    ensures Trim(a + s + b) == s
  {
    var t := a + s + b;
    if s == "" {
      assert AllSpace(t) by {
        assert forall i :: 0 <= i < |t| ==> t[i] == if i < |a| then a[i] else b[i - |a|];
      }
    } else {
      assert forall i :: 0 <= i < |a| ==> t[i] == a[i];
      assert forall i :: |a| + |s| <= i < |t| ==> t[i] == b[i - |a| - |s|];
      assert t[|a|] == s[0] && t[|a| + |s| - 1] == s[|s| - 1];
      var lo := SkipSpaces(t, 0);
      var hi := BackSpaces(t, |t|);
      assert lo == |a|;
      assert hi == |a| + |s|;
      assert t[lo..hi] == s;
    }
  }

  lemma TrimIdempotent(s: string)
    ensures Trim(Trim(s)) == Trim(s)
  {
    TrimFixed(Trim(s));
  }

  /** No whitespace at either end. */
  predicate IsTrimmed(s: string)
  {
    |s| > 0 ==> !IsSpace(s[0]) && !IsSpace(s[|s| - 1])
  }

  /** A cell that is empty once trimmed (`!x.trim()`). */
  predicate IsBlank(s: string) { Trim(s) == "" }

  predicate StartsWith(s: string, prefix: string)
  {
    |prefix| <= |s| && s[..|prefix|] == prefix
  }

  predicate EndsWith(s: string, suffix: string)
  {
    |suffix| <= |s| && s[|s| - |suffix|..] == suffix
  }

  /** `t` occurs in `s` starting at index `i`. */
  predicate OccursAt(s: string, t: string, i: int)
  {
    0 <= i && i + |t| <= |s| && s[i..i + |t|] == t
  }

  /** The first index at or after `from` where `t` occurs in `s`, or -1. */
  function IndexOfFrom(s: string, t: string, from: nat): (r: int)
    ensures r == -1 || (from <= r && OccursAt(s, t, r))
    ensures forall i :: from <= i && (r == -1 || i < r) ==> !OccursAt(s, t, i)
    decreases |s| - from
  {
    if from + |t| > |s| then -1
    else if s[from..from + |t|] == t then from
    else IndexOfFrom(s, t, from + 1)
  }

  /** `String.prototype.indexOf`. */
  function IndexOf(s: string, t: string): int
  {
    IndexOfFrom(s, t, 0)
  }

  /** `String.prototype.includes` / Python `in` on strings. */
  predicate Contains(s: string, t: string)
  {
    IndexOf(s, t) >= 0
  }

  lemma ContainsIff(s: string, t: string)
    ensures Contains(s, t) <==> exists i :: OccursAt(s, t, i)
  {
    if !Contains(s, t) {
      assert forall i :: 0 <= i ==> !OccursAt(s, t, i);
    }
  }

  /** An occurrence inside an occurrence is an occurrence. */
  lemma OccursWithin(s: string, q: string, i: nat, x: string, j: nat)
    requires OccursAt(s, q, i) && OccursAt(q, x, j)
    ensures OccursAt(s, x, i + j)
  {
    forall t | 0 <= t < |x|
      ensures s[i + j + t] == x[t]
    {
      assert x[t] == q[j + t];
      assert q[j + t] == s[i..i + |q|][j + t];
    }
    assert s[i + j..i + j + |x|] == x;
  }

  /** A string occurring in a substring of `s` occurs in `s`. */
  lemma ContainsInSlice(s: string, lo: int, hi: int, t: string)
    requires 0 <= lo <= hi <= |s|
    requires Contains(s[lo..hi], t)
    ensures Contains(s, t)
  {
    var i := IndexOf(s[lo..hi], t);
    assert OccursAt(s, s[lo..hi], lo);
    OccursWithin(s, s[lo..hi], lo, t, i);
    ContainsIff(s, t);
  }

  /**
   * `s.split(sep)` with a separator class: JavaScript `split` with a single
   * separator character, or a regular expression matching one character.
   */
  function Split(s: string, seps: set<char>): (r: seq<string>)
    ensures |r| >= 1
    ensures forall k, c :: 0 <= k < |r| && c in r[k] ==> c !in seps
    decreases |s|
  {
    if |s| == 0 then [""]
    else
      var rest := Split(s[1..], seps);
      if s[0] in seps then [""] + rest else [[s[0]] + rest[0]] + rest[1..]
  }

  /** A piece-starting character extends the first piece of the rest; a separator starts a new one. */
  lemma SplitFront(s: string, seps: set<char>)
    requires |s| > 0
    ensures var rest := Split(s[1..], seps);
      Split(s, seps) == if s[0] in seps then [""] + rest else [[s[0]] + rest[0]] + rest[1..]
    ensures Split(s, seps)[0] == "" <==> s[0] in seps
  {
  }

  /** `parts.join(sep)`. */
  function Join(parts: seq<string>, sep: string): string
  {
    if |parts| == 0 then ""
    else if |parts| == 1 then parts[0]
    else parts[0] + sep + Join(parts[1..], sep)
  }

  function CharCount(s: string, seps: set<char>): nat
  {
    if |s| == 0 then 0 else (if s[0] in seps then 1 else 0) + CharCount(s[1..], seps)
  }

  /** Splitting yields one more piece than there are separators. */
  lemma {:induction false} SplitLength(s: string, seps: set<char>)
    ensures |Split(s, seps)| == CharCount(s, seps) + 1
    decreases |s|
  {
    if |s| > 0 {
      SplitLength(s[1..], seps);
    }
  }

  /** Joining the pieces with the separator character gives the text back. */
  lemma {:induction false} SplitJoin(s: string, c: char)
    ensures Join(Split(s, {c}), [c]) == s
    decreases |s|
  {
    if |s| > 0 {
      var rest := Split(s[1..], {c});
      SplitJoin(s[1..], c);
      if s[0] == c {
        assert Split(s, {c}) == [""] + rest;
        assert s == [c] + s[1..];
      } else {
        var r := Split(s, {c});
        assert r == [[s[0]] + rest[0]] + rest[1..];
        if |rest| == 1 {
          assert Join(r, [c]) == [s[0]] + rest[0];
        } else {
          assert r[1..] == rest[1..];
          assert Join(r, [c]) == [s[0]] + rest[0] + [c] + Join(rest[1..], [c]);
        }
        assert s == [s[0]] + s[1..];
      }
    }
  }

  /** A text with no separator is one piece. */
  lemma {:induction false} SplitWhole(a: string, seps: set<char>)
    requires forall k :: 0 <= k < |a| ==> a[k] !in seps
    ensures Split(a, seps) == [a]
    decreases |a|
  {
    if |a| > 0 {
      SplitWhole(a[1..], seps);
      assert [a[0]] + a[1..] == a;
    }
  }

  /** A separator after a separator-free prefix cuts exactly there. */
  lemma {:induction false} SplitAt(a: string, c: char, b: string, seps: set<char>)
    requires c in seps
    requires forall k :: 0 <= k < |a| ==> a[k] !in seps
    ensures Split(a + [c] + b, seps) == [a] + Split(b, seps)
    decreases |a|
  {
    var s := a + [c] + b;
    if |a| == 0 {
      assert s[1..] == b;
    } else {
      SplitAt(a[1..], c, b, seps);
      assert s[1..] == a[1..] + [c] + b;
      assert [a[0]] + a[1..] == a;
    }
  }

  /** Splitting what was joined with a separator gives the parts back. */
  lemma {:induction false} JoinSplit(parts: seq<string>, c: char, seps: set<char>)
    requires c in seps && |parts| >= 1
    requires forall i, k :: 0 <= i < |parts| && 0 <= k < |parts[i]| ==> parts[i][k] !in seps
    ensures Split(Join(parts, [c]), seps) == parts
    decreases |parts|
  {
    if |parts| == 1 {
      SplitWhole(parts[0], seps);
    } else {
      JoinSplit(parts[1..], c, seps);
      assert parts[0] + [c] + Join(parts[1..], [c]) == Join(parts, [c]);
      SplitAt(parts[0], c, Join(parts[1..], [c]), seps);
      assert [parts[0]] + parts[1..] == parts;
    }
  }

  /** Parts already trimmed and non-blank pass through `TrimmedNonEmpty` unchanged. */
  lemma {:induction false} TrimmedNonEmptyFixed(parts: seq<string>)
    requires forall i :: 0 <= i < |parts| ==> parts[i] != "" && IsTrimmed(parts[i])
    ensures TrimmedNonEmpty(parts) == parts
  {
    if |parts| > 0 {
      TrimFixed(parts[0]);
      TrimmedNonEmptyFixed(parts[1..]);
      assert [parts[0]] + parts[1..] == parts;
    }
  }

  /** The non-blank pieces of `parts`, trimmed (`.map(trim).filter(Boolean)`). */
  function TrimmedNonEmpty(parts: seq<string>): (r: seq<string>)
    ensures |r| <= |parts|
    ensures forall x :: x in r ==> x != "" && IsTrimmed(x)
  {
    if |parts| == 0 then []
    else
      var t := Trim(parts[0]);
      var rest := TrimmedNonEmpty(parts[1..]);
      if t == "" then rest else [t] + rest
  }

  function DigitChar(d: nat): char
    requires d < 10
  {
    ('0' as int + d) as char
  }

  /** Decimal rendering of a natural number (`String(n)`). */
  function NatToString(n: nat): (r: string)
    ensures |r| >= 1
    ensures forall k :: 0 <= k < |r| ==> IsDigit(r[k])
  {
    if n < 10 then [DigitChar(n)] else NatToString(n / 10) + [DigitChar(n % 10)]
  }

  function IntToString(i: int): string
  {
    if i < 0 then "-" + NatToString(-i) else NatToString(i)
  }

  function DigitValue(c: char): nat
    requires IsDigit(c)
  {
    c as int - '0' as int
  }

  /** The value of a string of decimal digits. */
  function DigitsValue(s: string): nat
    requires forall k :: 0 <= k < |s| ==> IsDigit(s[k])
  {
    if |s| == 0 then 0 else DigitsValue(s[..|s| - 1]) * 10 + DigitValue(s[|s| - 1])
  }

  /** Reading a rendered number back gives the number. */
  lemma {:induction false} NatToStringRoundTrip(n: nat)
    ensures DigitsValue(NatToString(n)) == n
  {
    if n >= 10 {
      NatToStringRoundTrip(n / 10);
      var r := NatToString(n);
      assert r[..|r| - 1] == NatToString(n / 10);
    }
  }

  /** `s` without its leading characters satisfying `p`. */
  function DropWhile(s: string, p: char -> bool): (r: string)
    ensures |r| <= |s| && r == s[|s| - |r|..]
    ensures |r| > 0 ==> !p(r[0])
    ensures |s| > 0 && p(s[0]) ==> |r| < |s|
  {
    if |s| > 0 && p(s[0]) then DropWhile(s[1..], p) else s
  }

  /** `s.replace(/P+/g, r)`: every maximal run of characters satisfying `p` becomes one `r`. */
  function ReplaceRuns(s: string, p: char -> bool, r: char): (out: string)
    requires p(r)
    ensures forall k :: 0 <= k < |out| ==> out[k] == r || !p(out[k])
    ensures forall k :: 0 <= k < |out| - 1 ==> !(out[k] == r && out[k + 1] == r)
    ensures |out| > 0 && |s| > 0 ==> (out[0] == r <==> p(s[0]))
    decreases |s|
  {
    if |s| == 0 then ""
    else if p(s[0]) then [r] + ReplaceRuns(DropWhile(s, p), p, r)
    else [s[0]] + ReplaceRuns(s[1..], p, r)
  }

  /** A string already made of single separators and non-run characters is unchanged. */
  lemma {:induction false} ReplaceRunsFixed(s: string, p: char -> bool, r: char)
    requires p(r)
    requires forall k :: 0 <= k < |s| ==> s[k] == r || !p(s[k])
    requires forall k :: 0 <= k < |s| - 1 ==> !(s[k] == r && s[k + 1] == r)
    ensures ReplaceRuns(s, p, r) == s
    decreases |s|
  {
    if |s| > 0 {
      ReplaceRunsFixed(s[1..], p, r);
      if p(s[0]) {
        assert DropWhile(s, p) == s[1..];
      }
    }
  }

  /**
   * The words of `s` for the separator class `p`: its maximal runs of
   * characters outside `p`, in order.
   */
  function Runs(s: string, p: char -> bool): (r: seq<string>)
    ensures forall k :: 0 <= k < |r| ==> |r[k]| > 0
    ensures forall k, i :: 0 <= k < |r| && 0 <= i < |r[k]| ==> !p(r[k][i])
    ensures |s| > 0 && !p(s[0]) ==> |r| > 0 && r[0][0] == s[0]
    ensures r == [] <==> forall k :: 0 <= k < |s| ==> p(s[k])
    decreases |s|
  {
    if |s| == 0 then []
    else if p(s[0]) then Runs(s[1..], p)
    else
      var rest := Runs(s[1..], p);
      if |s| > 1 && !p(s[1]) then [[s[0]] + rest[0]] + rest[1..] else [[s[0]]] + rest
  }

  /** Skipping leading separators leaves the words alone. */
  lemma {:induction false} RunsDropWhile(s: string, p: char -> bool)
    ensures Runs(DropWhile(s, p), p) == Runs(s, p)
    decreases |s|
  {
    if |s| > 0 && p(s[0]) {
      RunsDropWhile(s[1..], p);
    }
  }

  lemma JoinCons(x: string, v: seq<string>, sep: string)
    ensures Join([x] + v, sep) == x + (if v == [] then "" else sep + Join(v, sep))
  {
    assert ([x] + v)[1..] == v;
  }

  /** The last word ends a join of non-empty words. */
  lemma {:induction false} JoinLast(w: seq<string>, sep: string)
    requires |w| > 0 && forall k :: 0 <= k < |w| ==> |w[k]| > 0
    ensures var j := Join(w, sep); |j| > 0 && j[0] == w[0][0] && j[|j| - 1] == w[|w| - 1][|w[|w| - 1]| - 1]
  {
    if |w| > 1 {
      JoinLast(w[1..], sep);
    }
  }

  /** The non-empty parts, in order. */
  function DropEmpty(parts: seq<string>): (r: seq<string>)
    ensures forall x :: x in r <==> x in parts && x != ""
  {
    if |parts| == 0 then []
    else (if parts[0] == "" then [] else [parts[0]]) + DropEmpty(parts[1..])
  }

  /** The non-empty pieces of a split at the separator class are its words. */
  lemma {:induction false} SplitWords(s: string, seps: set<char>, p: char -> bool)
    requires forall c :: p(c) <==> c in seps
    ensures DropEmpty(Split(s, seps)) == Runs(s, p)
    decreases |s|
  {
    if |s| > 0 {
      SplitWords(s[1..], seps, p);
      SplitFront(s, seps);
      if !p(s[0]) {
        SplitWordsStep(s, seps, p);
      }
    }
  }

  lemma SplitWordsStep(s: string, seps: set<char>, p: char -> bool)
    requires forall c :: p(c) <==> c in seps
    requires |s| > 0 && !p(s[0])
    requires DropEmpty(Split(s[1..], seps)) == Runs(s[1..], p)
    ensures DropEmpty(Split(s, seps)) == Runs(s, p)
  {
    var t := s[1..];
    var pieces := Split(t, seps);
    SplitFront(s, seps);
    assert Split(s, seps)[1..] == pieces[1..];
    var rest := DropEmpty(pieces[1..]);
    var w := DropEmpty(Split(s, seps));
    assert w == [[s[0]] + pieces[0]] + rest;
    if |t| > 0 && !p(t[0]) {
      SplitFront(t, seps);
      assert DropEmpty(pieces) == [pieces[0]] + rest;
      assert Runs(s, p) == [[s[0]] + pieces[0]] + rest;
    } else {
      if |t| > 0 {
        SplitFront(t, seps);
      }
      assert pieces[0] == "";
      assert [s[0]] + pieces[0] == [s[0]];
      assert DropEmpty(pieces) == rest;
      assert Runs(s, p) == [[s[0]]] + rest;
    }
  }

  /** The replacement `ReplaceRuns` puts in front of the first word. */
  function Lead(s: string, p: char -> bool, r: char): string
  {
    if |s| > 0 && p(s[0]) then [r] else []
  }

  /** The replacement `ReplaceRuns` puts behind the last word. */
  function Trail(s: string, p: char -> bool, r: char): string
  {
    if |s| > 0 && p(s[|s| - 1]) && Runs(s, p) != [] then [r] else []
  }

  /**
   * `ReplaceRuns` is the words joined by the replacement, with one more
   * replacement in front when `s` starts with a separator and one behind
   * when it ends with one after some word.
   */
  lemma {:induction false} ReplaceRunsWords(s: string, p: char -> bool, r: char)
    requires p(r)
    ensures ReplaceRuns(s, p, r) == Lead(s, p, r) + Join(Runs(s, p), [r]) + Trail(s, p, r)
    decreases |s|
  {
    if |s| > 0 {
      if p(s[0]) {
        ReplaceRunsWords(DropWhile(s, p), p, r);
        WordsAfterRun(s, p, r);
      } else {
        ReplaceRunsWords(s[1..], p, r);
        WordsAfterChar(s, p, r);
      }
    }
  }

  lemma WordsAfterRun(s: string, p: char -> bool, r: char)
    requires p(r) && |s| > 0 && p(s[0])
    requires var d := DropWhile(s, p);
      ReplaceRuns(d, p, r) == Lead(d, p, r) + Join(Runs(d, p), [r]) + Trail(d, p, r)
    ensures ReplaceRuns(s, p, r) == Lead(s, p, r) + Join(Runs(s, p), [r]) + Trail(s, p, r)
  {
    var d := DropWhile(s, p);
    RunsDropWhile(s, p);
    if |d| > 0 {
      assert d[|d| - 1] == s[|s| - 1];
    }
    RunThenWords(ReplaceRuns(s, p, r), ReplaceRuns(d, p, r), r,
      Lead(s, p, r), Join(Runs(s, p), [r]), Trail(s, p, r), Lead(d, p, r), Trail(d, p, r));
  }

  lemma RunThenWords(x: string, y: string, r: char,
                     lead: string, words: string, trail: string, lead': string, trail': string)
    requires x == [r] + y && y == lead' + words + trail'
    requires lead == [r] && lead' == [] && trail' == trail
    ensures x == lead + words + trail
  {
  }

  lemma WordsAfterChar(s: string, p: char -> bool, r: char)
    requires p(r) && |s| > 0 && !p(s[0])
    requires var t := s[1..];
      ReplaceRuns(t, p, r) == Lead(t, p, r) + Join(Runs(t, p), [r]) + Trail(t, p, r)
    ensures ReplaceRuns(s, p, r) == Lead(s, p, r) + Join(Runs(s, p), [r]) + Trail(s, p, r)
  {
    if |s| == 1 {
      assert Runs(s, p) == [[s[0]]];
    } else if !p(s[1]) {
      WordsInsideWord(s, p, r);
    } else {
      WordsBeforeRun(s, p, r);
    }
  }

  /** The first character of `s` joins the word the rest begins with. */
  lemma WordsInsideWord(s: string, p: char -> bool, r: char)
    requires p(r) && |s| > 1 && !p(s[0]) && !p(s[1])
    requires var t := s[1..];
      ReplaceRuns(t, p, r) == Lead(t, p, r) + Join(Runs(t, p), [r]) + Trail(t, p, r)
    ensures ReplaceRuns(s, p, r) == Lead(s, p, r) + Join(Runs(s, p), [r]) + Trail(s, p, r)
  {
    var t := s[1..];
    var v := Runs(t, p);
    var j := Join(v, [r]);
    assert Join(Runs(s, p), [r]) == [s[0]] + j by {
      assert Runs(s, p) == [[s[0]] + v[0]] + v[1..];
      JoinPrepend(s[0], v, [r]);
    }
    assert Trail(t, p, r) == Trail(s, p, r) by {
      assert t[|t| - 1] == s[|s| - 1];
    }
    assert Lead(t, p, r) == [] && Lead(s, p, r) == [];
    CharThenWords(ReplaceRuns(s, p, r), ReplaceRuns(t, p, r), s[0],
      Lead(s, p, r), Join(Runs(s, p), [r]), Trail(s, p, r), Lead(t, p, r), j, Trail(t, p, r));
  }

  lemma CharThenWords(x: string, y: string, c: char,
                      lead: string, words: string, trail: string, lead': string, words': string, trail': string)
    requires x == [c] + y && y == lead' + words' + trail'
    requires lead == [] && lead' == [] && words == [c] + words' && trail' == trail
    ensures x == lead + words + trail
  { }

  lemma JoinPrepend(c: char, v: seq<string>, sep: string)
    requires |v| > 0
    ensures Join([[c] + v[0]] + v[1..], sep) == [c] + Join(v, sep)
  {
    JoinCons([c] + v[0], v[1..], sep);
    JoinCons(v[0], v[1..], sep);
    assert v == [v[0]] + v[1..];
  }

  /** The first character of `s` is a word of its own, followed by a separator run. */
  lemma WordsBeforeRun(s: string, p: char -> bool, r: char)
    requires p(r) && |s| > 1 && !p(s[0]) && p(s[1])
    requires var t := s[1..];
      ReplaceRuns(t, p, r) == Lead(t, p, r) + Join(Runs(t, p), [r]) + Trail(t, p, r)
    ensures ReplaceRuns(s, p, r) == Lead(s, p, r) + Join(Runs(s, p), [r]) + Trail(s, p, r)
  {
    var t := s[1..];
    var v := Runs(t, p);
    var j := Join(v, [r]);
    assert Join(Runs(s, p), [r]) == [s[0]] + (if v == [] then "" else [r] + j) by {
      assert Runs(s, p) == [[s[0]]] + v;
      JoinCons([s[0]], v, [r]);
    }
    assert Lead(t, p, r) == [r];
    assert t[|t| - 1] == s[|s| - 1];
    assert v == [] ==> j == "" && Trail(t, p, r) == [] && Trail(s, p, r) == [r];
    assert v != [] ==> Trail(t, p, r) == Trail(s, p, r);
    WordThenRun(ReplaceRuns(s, p, r), ReplaceRuns(t, p, r), s[0], r, j, v == [],
      Lead(s, p, r), Join(Runs(s, p), [r]), Trail(s, p, r), Trail(t, p, r));
  }

  lemma WordThenRun(x: string, y: string, c: char, r: char, j: string, none: bool,
                    lead: string, words: string, trail: string, rest: string)
    requires x == [c] + y && y == [r] + j + rest && lead == []
    requires words == [c] + (if none then "" else [r] + j)
    requires none ==> j == "" && rest == [] && trail == [r]
    requires !none ==> rest == trail
    ensures x == lead + words + trail
  {
  }


  /** Lower-case alphanumerics and single spaces. */
  predicate Spaced(s: string)
  {
    && (forall k :: 0 <= k < |s| ==> IsLowerAlnum(s[k]) || s[k] == ' ')
    && (forall k :: 0 <= k < |s| - 1 ==> !(s[k] == ' ' && s[k + 1] == ' '))
  }

  /** The shape of a normalised key: `Spaced` with no space at either end. */
  predicate IsKey(s: string)
  {
    Spaced(s) && (|s| > 0 ==> s[0] != ' ' && s[|s| - 1] != ' ')
  }

  lemma SpacedSlice(s: string, lo: nat, hi: nat)
    requires Spaced(s) && lo <= hi <= |s|
    ensures Spaced(s[lo..hi])
  {
    var m := s[lo..hi];
    forall k | 0 <= k < |m|
      ensures IsLowerAlnum(m[k]) || m[k] == ' '
    {
      assert m[k] == s[lo + k];
    }
    forall k | 0 <= k < |m| - 1
      ensures !(m[k] == ' ' && m[k + 1] == ' ')
    {
      assert m[k] == s[lo + k] && m[k + 1] == s[lo + k + 1];
    }
  }

  lemma TrimSpaced(s: string)
    requires Spaced(s)
    ensures IsKey(Trim(s))
  {
    var lo := TrimSlice(s);
    SpacedSlice(s, lo, lo + |Trim(s)|);
  }

  /**
   * The key used to match names across sources: lower-cased, every run of
   * characters outside `[a-z0-9]` turned into one space, whitespace runs
   * collapsed and the ends trimmed.
   */
  function NormalizeKey(name: string): (r: string)
    ensures IsKey(r)
  {
    var replaced := ReplaceRuns(Lower(name), NotLowerAlnum, ' ');
    assert Spaced(replaced);
    var collapsed := ReplaceRuns(replaced, IsSpace, ' ');
    ReplaceRunsFixed(replaced, IsSpace, ' ');
    TrimSpaced(collapsed);
    Trim(collapsed)
  }

  /** The key is the name's lower-case alphanumeric words, joined by single spaces. */
  lemma NormalizeKeyWords(name: string)
    ensures NormalizeKey(name) == Join(Runs(Lower(name), NotLowerAlnum), " ")
  {
    var replaced := ReplaceRuns(Lower(name), NotLowerAlnum, ' ');
    assert Spaced(replaced);
    ReplaceRunsFixed(replaced, IsSpace, ' ');
    KeyWords(name);
  }

  /** Trimming the replaced text leaves exactly the words joined by single spaces. */
  lemma KeyWords(name: string)
    ensures Trim(ReplaceRuns(Lower(name), NotLowerAlnum, ' ')) == Join(Runs(Lower(name), NotLowerAlnum), " ")
  {
    var s := Lower(name);
    var w := Runs(s, NotLowerAlnum);
    ReplaceRunsWords(s, NotLowerAlnum, ' ');
    var a := Lead(s, NotLowerAlnum, ' ');
    var b := Trail(s, NotLowerAlnum, ' ');
    assert AllSpace(a) && AllSpace(b);
    WordsTrimmed(w);
    TrimPadded(a, Join(w, " "), b);
  }

  /** Alphanumeric words joined by spaces have no whitespace at either end. */
  lemma WordsTrimmed(w: seq<string>)
    requires forall k :: 0 <= k < |w| ==> |w[k]| > 0
    requires forall k, i :: 0 <= k < |w| && 0 <= i < |w[k]| ==> !NotLowerAlnum(w[k][i])
    ensures IsTrimmed(Join(w, " "))
  {
    if w != [] {
      JoinLast(w, " ");
      assert IsLowerAlnum(w[0][0]) && IsLowerAlnum(w[|w| - 1][|w[|w| - 1]| - 1]);
    }
  }

  /** Normalising a normalised key changes nothing. */
  lemma NormalizeKeyIdempotent(name: string)
    ensures NormalizeKey(NormalizeKey(name)) == NormalizeKey(name)
  {
    KeyFixed(NormalizeKey(name));
  }

  /** A string already in key shape is its own key. */
  lemma KeyFixed(k: string)
    requires IsKey(k)
    ensures NormalizeKey(k) == k
  {
    LowerFixed(k);
    ReplaceRunsFixed(k, NotLowerAlnum, ' ');
    ReplaceRunsFixed(k, IsSpace, ' ');
    TrimFixed(k);
  }
}
