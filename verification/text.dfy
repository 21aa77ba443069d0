/**
 The text functions the reply screen derives from its two text areas: the
 whitespace-trim used by input validation, and the character and word counts
 shown under the generated reply.

 JavaScript's `\s` and `String.prototype.trim` recognise a large set of Unicode
 spaces; this model uses one shared predicate, `IsWhitespace`, for trimming and
 for splitting.
 */
module Text {

  /** Space, tab, line feed, vertical tab, form feed and carriage return. */
  predicate IsWhitespace(c: char) {
    c == ' ' || c == '\t' || c == '\n' || c == '\U{B}' || c == '\U{C}' || c == '\r'
  }

  /** Every character of `s` is whitespace (true of the empty string). */
  predicate IsBlank(s: string) {
    forall i | 0 <= i < |s| :: IsWhitespace(s[i])
  }

  /** `s` contains no whitespace character at all. */
  predicate IsSolid(s: string) {
    forall i | 0 <= i < |s| :: !IsWhitespace(s[i])
  }

  /** `s` with its leading whitespace removed: a suffix of `s` whose dropped
      prefix is blank and which does not itself start with whitespace. */
  function TrimStart(s: string): (r: string)
    ensures |r| <= |s| && r == s[|s| - |r|..]
    ensures IsBlank(s[..|s| - |r|])
    ensures r == [] || !IsWhitespace(r[0])
  {
    if |s| > 0 && IsWhitespace(s[0]) then
      var r := TrimStart(s[1..]);
      BlankBefore(s, s[1..], r);
      r
    else s
  }

  /** A blank prefix of `s[1..]`, extended by a whitespace `s[0]`, is a blank
      prefix of `s`, before the same suffix `r`. */
  lemma BlankBefore(s: string, u: string, r: string)
    requires s != [] && IsWhitespace(s[0]) && u == s[1..]
    requires |r| <= |u| && r == u[|u| - |r|..] && IsBlank(u[..|u| - |r|])
    ensures r == s[|s| - |r|..] && IsBlank(s[..|s| - |r|])
  {
    assert s[..|s| - |r|] == [s[0]] + u[..|u| - |r|];
  }

  /** `s` with its trailing whitespace removed: a prefix of `s` whose dropped
      suffix is blank and which does not itself end with whitespace. */
  function TrimEnd(s: string): (r: string)
    ensures |r| <= |s| && r == s[..|r|]
    ensures IsBlank(s[|r|..])
    ensures r == [] || !IsWhitespace(r[|r| - 1])
  {
    if |s| > 0 && IsWhitespace(s[|s| - 1]) then
      var r := TrimEnd(s[..|s| - 1]);
      assert s[|r|..] == s[..|s| - 1][|r|..] + [s[|s| - 1]];
      BlankSplit(s[|r|..], |s| - 1 - |r|);
      r
    else s
  }

  /** `String.prototype.trim`: the slice of `s` left after removing a blank
      prefix and a blank suffix, which starts and ends with a non-whitespace
      character. It is empty exactly when the whole text is blank. */
  function Trim(s: string): (r: string)
    ensures exists i, j :: 0 <= i <= j <= |s| && r == s[i..j] && IsBlank(s[..i]) && IsBlank(s[j..])
    ensures r == [] || (!IsWhitespace(r[0]) && !IsWhitespace(r[|r| - 1]))
    ensures r == [] <==> IsBlank(s)
  {
    var t := TrimStart(s);
    var r := TrimEnd(t);
    TrimSlice(s, t, r);
    r
  }

  /** A blank prefix of `s` dropped, then a blank suffix: what is left is a
      slice of `s` with no whitespace at either end, empty exactly when `s` is
      blank. */
  lemma TrimSlice(s: string, t: string, r: string)
    requires |t| <= |s| && t == s[|s| - |t|..] && IsBlank(s[..|s| - |t|])
    requires t == [] || !IsWhitespace(t[0])
    requires |r| <= |t| && r == t[..|r|] && IsBlank(t[|r|..])
    requires r == [] || !IsWhitespace(r[|r| - 1])
    ensures exists i, j :: 0 <= i <= j <= |s| && r == s[i..j] && IsBlank(s[..i]) && IsBlank(s[j..])
    ensures r == [] || (!IsWhitespace(r[0]) && !IsWhitespace(r[|r| - 1]))
    ensures r == [] <==> IsBlank(s)
  {
    var i := |s| - |t|;
    assert t == s[i..];
    assert r == t[..|r|];
    assert r == s[i..i + |r|];
    assert t[|r|..] == s[i + |r|..];
    BlankSplit(s, i);
    if r == [] {
      assert t[|r|..] == t;
    } else {
      assert r[0] == t[0];
      assert s[i + |r| - 1] == r[|r| - 1];
    }
    assert r == s[i..i + |r|] && IsBlank(s[..i]) && IsBlank(s[i + |r|..]);
  }

  lemma BlankSplit(s: string, k: nat)
    requires k <= |s|
    ensures IsBlank(s) <==> IsBlank(s[..k]) && IsBlank(s[k..])
  {
    if IsBlank(s[..k]) && IsBlank(s[k..]) {
      forall i | 0 <= i < |s| ensures IsWhitespace(s[i]) {
        if i < k { assert s[i] == s[..k][i]; } else { assert s[i] == s[k..][i - k]; }
      }
    }
  }

  /** Concatenation of a sequence of strings. */
  function Concat(ts: seq<string>): string {
    if ts == [] then [] else ts[0] + Concat(ts[1..])
  }

  /** `s` with every whitespace character deleted. */
  function Squeeze(s: string): (r: string)
    ensures |r| <= |s|
    ensures IsSolid(r)
  {
    if s == [] then []
    else if IsWhitespace(s[0]) then Squeeze(s[1..])
    else [s[0]] + Squeeze(s[1..])
  }

  /**
   The shape of every result of `s.split(/\s+/)`: there is at least one
   piece, and exactly one when `s` has no whitespace; no piece contains
   whitespace; the first piece is empty exactly when `s` is empty or starts
   with whitespace, the last exactly when `s` is empty or ends with
   whitespace; and every piece in between is non-empty.
   */
  predicate SplitShape(s: string, r: seq<string>) {
    && |r| >= 1
    && (|r| == 1 <==> IsSolid(s))
    && (forall i | 0 <= i < |r| :: IsSolid(r[i]))
    && (r[0] == [] <==> s == [] || IsWhitespace(s[0]))
    && (r[|r| - 1] == [] <==> s == [] || IsWhitespace(s[|s| - 1]))
    && (forall i | 0 < i < |r| - 1 :: r[i] != [])
  }

  /** `s.split(/\s+/)`: the pieces of `s` between maximal whitespace runs. */
  function Split(s: string): (r: seq<string>)
    ensures SplitShape(s, r)
    decreases |s|
  {
    if s == [] then [[]]
    else if IsWhitespace(s[0]) then
      var t := TrimStart(s);
      var rest := Split(t);
      var r := [[]] + rest;
      LeadEmpty(s, t, rest, r);
      r
    else
      var rest := Split(s[1..]);
      var r := [[s[0]] + rest[0]] + rest[1..];
      GlueFirst(s, s[1..], rest, r);
      r
  }

  /** Prefixing a non-whitespace character to a text glues it onto the first
      piece of the text's split, and keeps the split's shape. */
  lemma GlueFirst(s: string, u: string, rest: seq<string>, r: seq<string>)
    requires s != [] && !IsWhitespace(s[0]) && u == s[1..]
    requires SplitShape(u, rest)
    requires r == [[s[0]] + rest[0]] + rest[1..]
    ensures SplitShape(s, r)
  {
    if u != [] { assert u[|u| - 1] == s[|s| - 1]; }
    assert IsSolid(r[0]) by {
      forall k | 0 <= k < |r[0]| ensures !IsWhitespace(r[0][k]) {
        if k > 0 { assert r[0][k] == rest[0][k - 1]; }
      }
    }
    forall i | 0 < i < |r| ensures r[i] == rest[i] { }
    assert IsSolid(s) <==> IsSolid(u) by {
      forall k | 0 < k < |s| ensures s[k] == u[k - 1] { }
    }
  }

  /** Dropping a whitespace prefix of `s` starts the split with an empty
      piece, in front of the split of what is left, and keeps the split's
      shape. */
  lemma LeadEmpty(s: string, t: string, rest: seq<string>, r: seq<string>)
    requires s != [] && IsWhitespace(s[0])
    requires |t| <= |s| && t == s[|s| - |t|..] && IsBlank(s[..|s| - |t|])
    requires t == [] || !IsWhitespace(t[0])
    requires SplitShape(t, rest)
    requires r == [[]] + rest
    ensures SplitShape(s, r)
  {
    if t == [] {
      assert s[|s| - 1] == s[..|s| - |t|][|s| - 1];
    } else {
      assert t[|t| - 1] == s[|s| - 1];
    }
    assert !IsSolid(s) by { assert IsWhitespace(s[0]); }
    assert r[0] == [] && IsSolid(r[0]);
    forall i | 0 < i < |r| ensures r[i] == rest[i - 1] { }
  }

  /** `filter(word => word.length > 0)`: the non-empty strings of `ts`, in order. */
  function NonEmpty(ts: seq<string>): (r: seq<string>)
    ensures |r| <= |ts|
    ensures forall i | 0 <= i < |r| :: r[i] != [] && r[i] in ts
    ensures [] !in r
    ensures forall t | t != [] :: multiset(r)[t] == multiset(ts)[t]
  {
    if ts == [] then []
    else
      var rest := NonEmpty(ts[1..]);
      assert ts == [ts[0]] + ts[1..];
      if ts[0] == [] then rest else [ts[0]] + rest
  }

  /** The words of `s` as the reply screen tokenises them: every word is a
      non-empty run of non-whitespace characters. */
  function Words(s: string): (r: seq<string>)
    ensures forall i | 0 <= i < |r| :: r[i] != [] && IsSolid(r[i])
  {
    NonEmpty(Split(s))
  }

  /** The word counter shown under the reply: the number of maximal
      non-whitespace runs, zero exactly for a blank text, and at most half the
      characters rounded up, since consecutive words need a separator. */
  function WordCount(s: string): (r: nat)
    ensures r == RunCount(s)
    ensures r == 0 <==> IsBlank(s)
    ensures 2 * r <= |s| + 1
  {
    WordsMatchRuns(s);
    RunCountZeroIffBlank(s);
    RunCountBound(s);
    |Words(s)|
  }

  /** The character counters shown under both text areas (`length`): the
      characters of the words plus the whitespace characters around them, so
      zero only for the empty text. */
  function CharCount(s: string): (r: nat)
    ensures r == |Concat(Words(s))| + Spaces(s)
    ensures r == 0 <==> s == []
  {
    WordsKeepContent(s);
    SqueezeSpaces(s);
    |s|
  }

  /** The number of whitespace characters in `s`. */
  function Spaces(s: string): nat {
    if s == [] then 0 else (if IsWhitespace(s[0]) then 1 else 0) + Spaces(s[1..])
  }

  /** Every character of `s` is either kept by `Squeeze` or counted by `Spaces`. */
  lemma {:induction false} SqueezeSpaces(s: string)
    ensures |Squeeze(s)| + Spaces(s) == |s|
    decreases |s|
  {
    if s != [] {
      SqueezeSpaces(s[1..]);
    }
  }

  /** `s` starts with the last character of a non-whitespace run. */
  predicate EndsRun(s: string)
    requires s != []
  {
    !IsWhitespace(s[0]) && (|s| == 1 || IsWhitespace(s[1]))
  }

  /** Reference definition of the word count: the number of maximal
      non-whitespace runs, counted by the positions where one ends. */
  function RunCount(s: string): nat {
    if s == [] then 0 else (if EndsRun(s) then 1 else 0) + RunCount(s[1..])
  }

  /** Reference definition of the words: the maximal non-whitespace runs of
      `s`, left to right, built one character at a time. A whitespace
      character belongs to no run; any other character either closes a run on
      its own or is prepended to the run that follows it. */
  function Runs(s: string): (r: seq<string>)
    ensures r == [] <==> IsBlank(s)
    ensures |r| == RunCount(s)
    decreases |s|
  {
    if s == [] then []
    else
      var rest := Runs(s[1..]);
      BlankSplit(s, 1);
      if IsWhitespace(s[0]) then rest
      else if EndsRun(s) then [[s[0]]] + rest
      else
        assert !IsWhitespace(s[1..][0]);
        [[s[0]] + rest[0]] + rest[1..]
  }

  lemma NonEmptyCons(t: string, ts: seq<string>)
    ensures NonEmpty([t] + ts) == (if t == [] then [] else [t]) + NonEmpty(ts)
  {
    assert ([t] + ts)[1..] == ts;
  }

  lemma ConcatCons(t: string, ts: seq<string>)
    ensures Concat([t] + ts) == t + Concat(ts)
  {
    assert ([t] + ts)[1..] == ts;
  }

  lemma TrimStartStep(s: string)
    requires s != [] && IsWhitespace(s[0])
    ensures TrimStart(s) == TrimStart(s[1..])
  {
  }

  lemma TrimStartSolid(s: string)
    requires s == [] || !IsWhitespace(s[0])
    ensures TrimStart(s) == s
  {
  }

  /** A text that starts with whitespace has the words of its trimmed start. */
  lemma WordsLead(s: string)
    requires s != [] && IsWhitespace(s[0])
    ensures Words(s) == Words(TrimStart(s))
  {
    var t := TrimStart(s);
    assert Split(s) == [[]] + Split(t);
    NonEmptyCons([], Split(t));
  }

  /** A leading whitespace character does not change the words. */
  lemma WordsSkipWhitespace(s: string)
    requires s != [] && IsWhitespace(s[0])
    ensures Words(s) == Words(s[1..])
  {
    WordsLead(s);
    TrimStartStep(s);
    if s[1..] != [] && IsWhitespace(s[1]) {
      WordsLead(s[1..]);
    } else {
      TrimStartSolid(s[1..]);
    }
  }

  /** How the words of `s` arise from the words of `s[1..]` when `s` starts
      with a non-whitespace character: either that character is a one-letter
      word of its own, or it is glued to the front of the first word. */
  lemma WordsExtend(s: string)
    requires s != [] && !IsWhitespace(s[0])
    ensures EndsRun(s) ==> Words(s) == [[s[0]]] + Words(s[1..])
    ensures !EndsRun(s) ==>
      Words(s[1..]) != [] && Words(s) == [[s[0]] + Words(s[1..])[0]] + Words(s[1..])[1..]
  {
    var rest := Split(s[1..]);
    assert Split(s) == [[s[0]] + rest[0]] + rest[1..];
    assert rest == [rest[0]] + rest[1..];
    if EndsRun(s) {
      assert rest[0] == [];
      assert [s[0]] + rest[0] == [s[0]];
    }
    NonEmptyCons([s[0]] + rest[0], rest[1..]);
    NonEmptyCons(rest[0], rest[1..]);
  }

  /** The words are exactly as many as the maximal non-whitespace runs. */
  lemma {:induction false} WordsMatchRuns(s: string)
    ensures |Words(s)| == RunCount(s)
    decreases |s|
  {
    if s == [] {
    } else if IsWhitespace(s[0]) {
      WordsSkipWhitespace(s);
      WordsMatchRuns(s[1..]);
    } else {
      WordsExtend(s);
      WordsMatchRuns(s[1..]);
    }
  }

  /** Splitting on whitespace and dropping the empty pieces yields exactly the
      maximal non-whitespace runs, in order: where the text is cut is fixed,
      not only how many pieces there are. */
  lemma {:induction false} WordsAreRuns(s: string)
    ensures Words(s) == Runs(s)
    decreases |s|
  {
    if s == [] {
    } else if IsWhitespace(s[0]) {
      WordsSkipWhitespace(s);
      WordsAreRuns(s[1..]);
    } else {
      WordsExtend(s);
      WordsAreRuns(s[1..]);
    }
  }

  /** Dropping the empty strings commutes with concatenation, so the filter
      keeps the order of the pieces it retains. */
  lemma {:induction false} NonEmptyAppend(a: seq<string>, b: seq<string>)
    ensures NonEmpty(a + b) == NonEmpty(a) + NonEmpty(b)
    decreases |a|
  {
    if a != [] {
      assert a + b == [a[0]] + (a[1..] + b);
      assert a == [a[0]] + a[1..];
      NonEmptyCons(a[0], a[1..] + b);
      NonEmptyCons(a[0], a[1..]);
      NonEmptyAppend(a[1..], b);
    } else {
      assert a + b == b;
    }
  }

  /** A leading non-whitespace character ends up at the front of the glued words. */
  lemma ConcatWordsExtend(s: string)
    requires s != [] && !IsWhitespace(s[0])
    ensures Concat(Words(s)) == [s[0]] + Concat(Words(s[1..]))
  {
    WordsExtend(s);
    var w := Words(s[1..]);
    if EndsRun(s) {
      ConcatCons([s[0]], w);
    } else {
      ConcatGlue(s[0], w);
    }
  }

  lemma ConcatGlue(c: char, w: seq<string>)
    requires w != []
    ensures Concat([[c] + w[0]] + w[1..]) == [c] + Concat(w)
  {
    assert w == [w[0]] + w[1..];
    ConcatCons(w[0], w[1..]);
    ConcatCons([c] + w[0], w[1..]);
  }

  /** Gluing the words back together gives the text with its whitespace deleted:
      tokenising loses nothing but whitespace. */
  lemma {:induction false} WordsKeepContent(s: string)
    ensures Concat(Words(s)) == Squeeze(s)
    decreases |s|
  {
    if s == [] {
    } else if IsWhitespace(s[0]) {
      WordsSkipWhitespace(s);
      WordsKeepContent(s[1..]);
    } else {
      ConcatWordsExtend(s);
      WordsKeepContent(s[1..]);
    }
  }

  /** No runs at all exactly when the text is blank. */
  lemma {:induction false} RunCountZeroIffBlank(s: string)
    ensures RunCount(s) == 0 <==> IsBlank(s)
    decreases |s|
  {
    if s != [] {
      RunCountZeroIffBlank(s[1..]);
      BlankSplit(s, 1);
      if !IsWhitespace(s[0]) && !EndsRun(s) {
        assert !IsBlank(s[1..]) by { assert !IsWhitespace(s[1..][0]); }
      }
    }
  }

  /** Two consecutive words need a separator, so at most half the characters
      (rounded up) start a word. */
  lemma {:induction false} RunCountBound(s: string)
    ensures 2 * RunCount(s) <= |s| + 1
    decreases |s|
  {
    if s == [] {
    } else if EndsRun(s) && |s| >= 2 {
      RunCountBound(s[2..]);
      assert s[1..][1..] == s[2..];
      assert !EndsRun(s[1..]);
    } else {
      RunCountBound(s[1..]);
    }
  }

  /** Leading whitespace does not change the words. */
  lemma {:induction false} LeadingWhitespaceIgnored(w: string, s: string)
    requires IsBlank(w)
    ensures Words(w + s) == Words(s)
    decreases |w|
  {
    if w == [] {
      assert w + s == s;
    } else {
      var ws := w + s;
      BlankTail(w);
      assert ws[0] == w[0] && ws[1..] == w[1..] + s;
      WordsSkipWhitespace(ws);
      LeadingWhitespaceIgnored(w[1..], s);
    }
  }

  lemma BlankTail(w: string)
    requires w != [] && IsBlank(w)
    ensures IsWhitespace(w[0]) && IsBlank(w[1..])
  {
    forall i | 0 <= i < |w[1..]| ensures IsWhitespace(w[1..][i]) {
      assert w[1..][i] == w[i + 1];
    }
  }

  lemma {:induction false} RunCountTrailing(s: string, w: string)
    requires IsBlank(w)
    ensures RunCount(s + w) == RunCount(s)
    decreases |s|
  {
    if s == [] {
      assert s + w == w;
      RunCountZeroIffBlank(w);
    } else {
      assert (s + w)[1..] == s[1..] + w;
      RunCountTrailing(s[1..], w);
      if |s| == 1 && w != [] {
        assert IsWhitespace(w[0]);
        assert (s + w)[1] == w[0];
      }
    }
  }

  /** Trailing whitespace does not change the word count. */
  lemma TrailingWhitespaceIgnored(s: string, w: string)
    requires IsBlank(w)
    ensures WordCount(s + w) == WordCount(s)
  {
    RunCountTrailing(s, w);
  }

  /** A text has a non-empty trim exactly when it has at least one word. */
  lemma TrimNonEmptyIffWords(s: string)
    ensures Trim(s) != [] <==> WordCount(s) > 0
  {
  }

  /** A run of non-whitespace characters is one word. */
  lemma {:induction false} RunCountSolid(s: string)
    requires s != [] && IsSolid(s)
    ensures RunCount(s) == 1
    decreases |s|
  {
    if |s| > 1 {
      assert s[1..][0] == s[1];
      assert IsSolid(s[1..]) by {
        forall i | 0 <= i < |s[1..]| ensures !IsWhitespace(s[1..][i]) {
          assert s[1..][i] == s[i + 1];
        }
      }
      RunCountSolid(s[1..]);
    }
  }

  lemma {:induction false} RunCountJoin(a: string, b: string)
    requires a != [] && IsWhitespace(a[|a| - 1])
    ensures RunCount(a + b) == RunCount(a) + RunCount(b)
    decreases |a|
  {
    assert (a + b)[1..] == a[1..] + b;
    assert (a + b)[0] == a[0];
    if |a| == 1 {
      assert a[1..] + b == b;
    } else {
      assert (a + b)[1] == a[1];
      RunCountJoin(a[1..], b);
    }
  }

  /** Cutting a text just after a whitespace character splits its word count. */
  lemma WordCountJoin(a: string, b: string)
    requires a != [] && IsWhitespace(a[|a| - 1])
    ensures WordCount(a + b) == WordCount(a) + WordCount(b)
  {
    RunCountJoin(a, b);
  }

  /** A non-empty text without whitespace is exactly one word. */
  lemma WordCountSolid(s: string)
    requires s != [] && IsSolid(s)
    ensures WordCount(s) == 1
  {
    RunCountSolid(s);
  }
}
