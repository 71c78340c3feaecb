/**
 * The typing phase: the user copies a fixed sentence; keystrokes count backspaces and
 * stamp the start time; submitting compares the typed words with the sentence's words
 * position by position and turns the number of mismatches into an accuracy.
 */
module TextPhase {
  import opened Optional
  import opened Types

  // ---------------------------------------------------------------------------
  // Whitespace, trim and split
  // ---------------------------------------------------------------------------

  /** JavaScript's whitespace and line terminators: what `trim()` removes and `\s` matches. */
  predicate IsSpace(c: char) {
    || c == ' ' || c == '\t' || c == '\n' || c == '\r'
    || c == '\U{000B}' || c == '\U{000C}' || c == '\U{00A0}' || c == '\U{1680}'
    || ('\U{2000}' <= c <= '\U{200A}')
    || c == '\U{2028}' || c == '\U{2029}' || c == '\U{202F}' || c == '\U{205F}'
    || c == '\U{3000}' || c == '\U{FEFF}'
  }

  predicate NoSpace(w: string) {
    forall i :: 0 <= i < |w| ==> !IsSpace(w[i])
  }

  function TrimStart(s: string): (r: string)
    ensures |r| <= |s| && r == s[|s| - |r|..]
    ensures forall k :: 0 <= k < |s| - |r| ==> IsSpace(s[k])
    ensures |r| == 0 || !IsSpace(r[0])
    decreases |s|
  {
    if |s| > 0 && IsSpace(s[0]) then TrimStart(s[1..]) else s
  }

  function TrimEnd(s: string): (r: string)
    ensures |r| <= |s| && r == s[..|r|]
    ensures forall k :: |r| <= k < |s| ==> IsSpace(s[k])
    ensures |r| == 0 || !IsSpace(r[|r| - 1])
    decreases |s|
  {
    if |s| > 0 && IsSpace(s[|s| - 1]) then TrimEnd(s[..|s| - 1]) else s
  }

  /** `r` is `s` with the `i` characters before it and all characters after it being whitespace. */
  predicate TrimmedAt(s: string, r: string, i: nat) {
    && i + |r| <= |s|
    && r == s[i..i + |r|]
    && (forall k :: 0 <= k < i ==> IsSpace(s[k]))
    && (forall k :: i + |r| <= k < |s| ==> IsSpace(s[k]))
  }

  /** `s.trim()`: the whitespace at both ends removed, nothing inside touched. */
  function Trim(s: string): (r: string)
    ensures exists i: nat :: TrimmedAt(s, r, i)
    ensures |r| == 0 || (!IsSpace(r[0]) && !IsSpace(r[|r| - 1]))
  {
    TrimBothEnds(s);
    TrimEnd(TrimStart(s))
  }

  lemma TrimBothEnds(s: string)
    ensures TrimmedAt(s, TrimEnd(TrimStart(s)), |s| - |TrimStart(s)|)
  {
    var front := TrimStart(s);
    var r := TrimEnd(front);
    var i := |s| - |front|;
    assert front == s[i..];
    assert forall k :: 0 <= k < i ==> IsSpace(s[k]);
    assert r == front[..|r|];
    assert forall k :: |r| <= k < |front| ==> IsSpace(front[k]);
    TrimmedWithin(s, front, r, i);
  }

  /** Cutting whitespace off the front of `s` and then off the back of the rest. */
  lemma TrimmedWithin(s: string, front: string, r: string, i: nat)
    requires i <= |s| && front == s[i..]
    requires forall k :: 0 <= k < i ==> IsSpace(s[k])
    requires |r| <= |front| && r == front[..|r|]
    requires forall k :: |r| <= k < |front| ==> IsSpace(front[k])
    ensures TrimmedAt(s, r, i)
  {
    assert r == s[i..i + |r|];
    forall k | i + |r| <= k < |s|
      ensures IsSpace(s[k])
    {
      assert s[k] == front[k - i];
    }
  }

  /** A string with no whitespace at either end is its own trim. */
  lemma TrimKeepsTrimmed(s: string)
    requires |s| == 0 || (!IsSpace(s[0]) && !IsSpace(s[|s| - 1]))
    ensures Trim(s) == s
  {
    var r := Trim(s);
    var i: nat :| TrimmedAt(s, r, i);
    if |s| > 0 {
      assert !IsSpace(s[0]) && !IsSpace(s[|s| - 1]);
    }
  }

  lemma TrimIdempotent(s: string)
    ensures Trim(Trim(s)) == Trim(s)
  {
    TrimKeepsTrimmed(Trim(s));
  }

  /** Whitespace-only text trims to the empty string. */
  lemma TrimAllSpace(s: string)
    requires forall k :: 0 <= k < |s| ==> IsSpace(s[k])
    ensures Trim(s) == ""
  {
    var r := Trim(s);
    var i: nat :| TrimmedAt(s, r, i);
  }

  /** The length of the longest prefix of `s` made of whitespace (`space`) or of non-whitespace. */
  function RunLength(s: string, space: bool): (n: nat)
    ensures n <= |s|
    ensures forall k :: 0 <= k < n ==> IsSpace(s[k]) == space
    ensures n < |s| ==> IsSpace(s[n]) != space
    decreases |s|
  {
    if |s| == 0 || IsSpace(s[0]) != space then 0 else 1 + RunLength(s[1..], space)
  }

  /** `s.split(/\s+/)`: the pieces between maximal runs of whitespace. */
  function Split(s: string): (ws: seq<string>)
    ensures |ws| >= 1
    ensures forall k :: 0 <= k < |ws| ==> NoSpace(ws[k])
    ensures |s| > 0 && !IsSpace(s[0]) ==> |ws[0]| > 0
    decreases |s|
  {
    var n := RunLength(s, false);
    if n == |s| then [s]
    else
      var gap := RunLength(s[n..], true);
      [s[..n]] + Split(s[n + gap..])
  }

  /** Words written out with a single space between neighbours. */
  function JoinWords(ws: seq<string>): string
    decreases |ws|
  {
    if |ws| == 0 then "" else if |ws| == 1 then ws[0] else ws[0] + " " + JoinWords(ws[1..])
  }

  predicate ProperWords(ws: seq<string>) {
    forall k :: 0 <= k < |ws| ==> |ws[k]| > 0 && NoSpace(ws[k])
  }

  lemma {:induction false} RunOverWord(w: string, rest: string)
    requires NoSpace(w)
    requires |rest| == 0 || IsSpace(rest[0])
    ensures RunLength(w + rest, false) == |w|
    decreases |w|
  {
    if |w| > 0 {
      assert (w + rest)[1..] == w[1..] + rest;
      RunOverWord(w[1..], rest);
    }
  }

  lemma {:induction false} JoinWordsStart(ws: seq<string>)
    requires |ws| >= 1 && ProperWords(ws)
    ensures |JoinWords(ws)| >= |ws[0]|
    ensures JoinWords(ws)[..|ws[0]|] == ws[0]
    decreases |ws|
  {
  }

  /** Splitting words joined by single spaces gives the words back. */
  lemma {:induction false} SplitJoin(ws: seq<string>)
    requires |ws| >= 1 && ProperWords(ws)
    ensures Split(JoinWords(ws)) == ws
    decreases |ws|
  {
    var w := ws[0];
    if |ws| == 1 {
      RunOverWord(w, "");
      assert w + "" == w;
    } else {
      var tail := JoinWords(ws[1..]);
      var s := JoinWords(ws);
      assert s == w + (" " + tail);
      RunOverWord(w, " " + tail);
      assert s[..|w|] == w;
      assert s[|w|..] == " " + tail;
      JoinWordsStart(ws[1..]);
      assert tail[0] == ws[1][0];
      assert RunLength(" " + tail, true) == 1 by {
        assert (" " + tail)[1..] == tail;
      }
      assert s[|w| + 1..] == tail;
      SplitJoin(ws[1..]);
    }
  }

  /** Text without whitespace at its ends splits into non-empty words only. */
  lemma {:induction false} SplitTrimmedIntoWords(s: string)
    requires |s| > 0 && !IsSpace(s[0]) && !IsSpace(s[|s| - 1])
    ensures ProperWords(Split(s))
    decreases |s|
  {
    var n := RunLength(s, false);
    if n < |s| {
      var rest := s[n..];
      var gap := RunLength(rest, true);
      assert gap < |rest| by {
        assert rest[|rest| - 1] == s[|s| - 1];
      }
      var t := rest[gap..];
      assert t == s[n + gap..];
      assert t[0] == rest[gap] && t[|t| - 1] == s[|s| - 1];
      SplitTrimmedIntoWords(t);
      SplitUnfold(s, n, gap);
    } else {
      SplitWhole(s);
    }
  }

  predicate AllSpace(g: string) {
    forall i :: 0 <= i < |g| ==> IsSpace(g[i])
  }

  /**
   * `ws` and `gaps` cut a text into pieces and the whitespace runs between them: no
   * piece holds whitespace, every separator is a non-empty whitespace run, and only the
   * first and the last piece may be empty.
   */
  predicate Separates(ws: seq<string>, gaps: seq<string>) {
    && |ws| >= 1 && |gaps| == |ws| - 1
    && (forall k :: 0 <= k < |ws| ==> NoSpace(ws[k]))
    && (forall k :: 0 < k < |ws| - 1 ==> |ws[k]| > 0)
    && (forall k :: 0 <= k < |gaps| ==> |gaps[k]| > 0 && AllSpace(gaps[k]))
  }

  /** The pieces with the separators put back between them. */
  function Weave(ws: seq<string>, gaps: seq<string>): string
    requires |ws| >= 1 && |gaps| == |ws| - 1
    decreases |ws|
  {
    if |ws| == 1 then ws[0] else ws[0] + gaps[0] + Weave(ws[1..], gaps[1..])
  }

  /** The whitespace runs `Split` cuts at, in order: one between each two neighbouring pieces. */
  function Gaps(s: string): (gs: seq<string>)
    ensures |gs| == |Split(s)| - 1
    decreases |s|
  {
    var n := RunLength(s, false);
    if n == |s| then
      SplitWhole(s);
      []
    else
      var gap := RunLength(s[n..], true);
      SplitUnfold(s, n, gap);
      [s[n..n + gap]] + Gaps(s[n + gap..])
  }

  lemma {:induction false} RunOverGap(g: string, rest: string)
    requires AllSpace(g)
    requires |rest| == 0 || !IsSpace(rest[0])
    ensures RunLength(g + rest, true) == |g|
    decreases |g|
  {
    if |g| > 0 {
      assert (g + rest)[1..] == g[1..] + rest;
      RunOverGap(g[1..], rest);
    }
  }

  /** Putting a piece and a separator in front of a separation. */
  lemma {:induction false} SeparatesCons(w: string, g: string, ws: seq<string>, gaps: seq<string>)
    requires Separates(ws, gaps)
    requires NoSpace(w) && |g| > 0 && AllSpace(g)
    requires |ws| >= 2 ==> |ws[0]| > 0
    ensures Separates([w] + ws, [g] + gaps)
  {
    var ws' := [w] + ws;
    var gaps' := [g] + gaps;
    assert ws'[1..] == ws && gaps'[1..] == gaps;
    forall k | 0 <= k < |ws'|
      ensures NoSpace(ws'[k])
    {
      if k > 0 {
        assert ws'[k] == ws[k - 1];
      }
    }
    forall k | 0 < k < |ws'| - 1
      ensures |ws'[k]| > 0
    {
      assert ws'[k] == ws[k - 1];
    }
    forall k | 0 <= k < |gaps'|
      ensures |gaps'[k]| > 0 && AllSpace(gaps'[k])
    {
      if k > 0 {
        assert gaps'[k] == gaps[k - 1];
      }
    }
  }

  /** Dropping the first piece and separator of a separation. */
  lemma {:induction false} SeparatesTail(ws: seq<string>, gaps: seq<string>)
    requires Separates(ws, gaps) && |ws| >= 2
    ensures Separates(ws[1..], gaps[1..])
    ensures |ws| >= 3 ==> |ws[1]| > 0
  {
    var ws' := ws[1..];
    var gaps' := gaps[1..];
    forall k | 0 <= k < |ws'|
      ensures NoSpace(ws'[k])
    {
      assert ws'[k] == ws[k + 1];
    }
    forall k | 0 < k < |ws'| - 1
      ensures |ws'[k]| > 0
    {
      assert ws'[k] == ws[k + 1];
    }
    forall k | 0 <= k < |gaps'|
      ensures |gaps'[k]| > 0 && AllSpace(gaps'[k])
    {
      assert gaps'[k] == gaps[k + 1];
    }
  }

  /** A text without whitespace is one piece. */
  lemma {:induction false} SplitWhole(s: string)
    requires RunLength(s, false) == |s|
    ensures Split(s) == [s]
  {
  }

  /** The first step of `Split` on a text that holds whitespace. */
  lemma {:induction false} SplitUnfold(s: string, n: nat, gap: nat)
    requires n == RunLength(s, false) && n < |s|
    requires gap == RunLength(s[n..], true)
    ensures 0 < gap && n + gap <= |s|
    ensures Split(s) == [s[..n]] + Split(s[n + gap..])
  {
    var rest := s[n..];
    assert rest[0] == s[n];
    assert IsSpace(rest[0]);
    assert gap > 0;
  }

  /** The first step of `Split` and `Gaps` on a text that holds whitespace. */
  lemma {:induction false} SplitStep(s: string, n: nat, gap: nat)
    requires n == RunLength(s, false) && n < |s|
    requires gap == RunLength(s[n..], true)
    ensures 0 < gap && n + gap <= |s|
    ensures Split(s) == [s[..n]] + Split(s[n + gap..])
    ensures Gaps(s) == [s[n..n + gap]] + Gaps(s[n + gap..])
  {
    SplitUnfold(s, n, gap);
  }

  lemma {:induction false} SplitStepGap(s: string, n: nat, gap: nat)
    requires n == RunLength(s, false) && n < |s|
    requires gap == RunLength(s[n..], true)
    ensures n + gap <= |s|
    ensures AllSpace(s[n..n + gap])
    ensures n + gap < |s| ==> !IsSpace(s[n + gap])
  {
    var rest := s[n..];
    assert forall i :: 0 <= i < gap ==> s[n..n + gap][i] == rest[i];
    if n + gap < |s| {
      assert s[n + gap] == rest[gap];
    }
  }

  /**
   * Every text is its pieces woven with the whitespace runs `Split` cut at: the pieces
   * are the maximal whitespace-free stretches, with an empty first (last) piece exactly
   * when the text starts (ends) with whitespace.
   */
  lemma {:induction false} SplitSeparates(s: string)
    ensures Separates(Split(s), Gaps(s))
    decreases |s|
  {
    var n := RunLength(s, false);
    if n < |s| {
      var gap := RunLength(s[n..], true);
      SplitStep(s, n, gap);
      SplitStepGap(s, n, gap);
      var t := s[n + gap..];
      SplitSeparates(t);
      var ws := Split(t);
      assert |ws| >= 2 ==> |ws[0]| > 0 by {
        if |t| == 0 {
          SplitWhole(t);
        } else {
          assert t[0] == s[n + gap];
        }
      }
      SeparatesCons(s[..n], s[n..n + gap], ws, Gaps(t));
    } else {
      SplitWhole(s);
    }
  }

  /** Weaving a piece and a separator in front of woven pieces. */
  lemma {:induction false} WeaveCons(w: string, g: string, ws: seq<string>, gaps: seq<string>)
    requires |ws| >= 1 && |gaps| == |ws| - 1
    ensures Weave([w] + ws, [g] + gaps) == w + g + Weave(ws, gaps)
  {
    assert ([w] + ws)[1..] == ws;
    assert ([g] + gaps)[1..] == gaps;
  }

  lemma ThreeParts(s: string, i: nat, j: nat)
    requires i <= j <= |s|
    ensures s == s[..i] + s[i..j] + s[j..]
  {
  }

  lemma {:induction false} SplitWeaves(s: string)
    ensures Weave(Split(s), Gaps(s)) == s
    decreases |s|
  {
    var n := RunLength(s, false);
    if n < |s| {
      var gap := RunLength(s[n..], true);
      SplitStep(s, n, gap);
      var w, g, t := s[..n], s[n..n + gap], s[n + gap..];
      SplitWeaves(t);
      WeaveCons(w, g, Split(t), Gaps(t));
      ThreeParts(s, n, n + gap);
    } else {
      SplitWhole(s);
      assert Weave([s], []) == s;
    }
  }

  /** After the first separator, the woven rest is empty or starts with a non-space. */
  lemma {:induction false} WeaveRestStart(ws: seq<string>, gaps: seq<string>)
    requires Separates(ws, gaps) && |ws| >= 2
    ensures var rest := Weave(ws[1..], gaps[1..]); |rest| == 0 || !IsSpace(rest[0])
  {
    SeparatesTail(ws, gaps);
    var tail := ws[1..];
    if |tail[0]| > 0 && |tail| > 1 {
      assert Weave(tail, gaps[1..]) == tail[0] + gaps[1..][0] + Weave(tail[1..], gaps[1..][1..]);
    }
    if |tail[0]| > 0 {
      assert NoSpace(tail[0]);
    } else {
      assert |ws| == 2;
    }
  }

  /** A piece, a whitespace run, and a rest that does not start with whitespace. */
  lemma {:induction false} SplitUniqueStep(w: string, g: string, rest: string)
    requires NoSpace(w) && |g| > 0 && AllSpace(g)
    requires |rest| == 0 || !IsSpace(rest[0])
    ensures Split(w + g + rest) == [w] + Split(rest)
    ensures Gaps(w + g + rest) == [g] + Gaps(rest)
  {
    var s := w + g + rest;
    assert s == w + (g + rest);
    assert (g + rest)[0] == g[0];
    RunOverWord(w, g + rest);
    assert s[|w|..] == g + rest;
    RunOverGap(g, rest);
    SplitStep(s, |w|, |g|);
    assert s[..|w|] == w;
    assert s[|w|..|w| + |g|] == g;
    assert s[|w| + |g|..] == rest;
  }

  /**
   * Conversely, a text cut into pieces and whitespace runs that way splits into exactly
   * those pieces, at exactly those runs: nothing else satisfies the description.
   */
  lemma {:induction false} SplitUnique(ws: seq<string>, gaps: seq<string>)
    requires Separates(ws, gaps)
    ensures Split(Weave(ws, gaps)) == ws
    ensures Gaps(Weave(ws, gaps)) == gaps
    decreases |ws|
  {
    var w := ws[0];
    if |ws| == 1 {
      RunOverWord(w, "");
      assert w + "" == w;
      SplitWhole(w);
    } else {
      var g := gaps[0];
      var ws', gaps' := ws[1..], gaps[1..];
      assert ws == [w] + ws' && gaps == [g] + gaps';
      SeparatesTail(ws, gaps);
      WeaveRestStart(ws, gaps);
      WeaveCons(w, g, ws', gaps');
      SplitUniqueStep(w, g, Weave(ws', gaps'));
      SplitUnique(ws', gaps');
    }
  }

  /** `Split(s)` is the one sequence of pieces that `s` is woven from. */
  lemma SplitCharacterized(s: string, ws: seq<string>)
    ensures Split(s) == ws <==> exists gaps :: Separates(ws, gaps) && Weave(ws, gaps) == s
  {
    if Split(s) == ws {
      SplitSeparates(s);
      SplitWeaves(s);
      var gaps := Gaps(s);
      assert Separates(ws, gaps) && Weave(ws, gaps) == s;
    }
    if exists gaps :: Separates(ws, gaps) && Weave(ws, gaps) == s {
      var gaps :| Separates(ws, gaps) && Weave(ws, gaps) == s;
      SplitUnique(ws, gaps);
    }
  }

  // ---------------------------------------------------------------------------
  // Scoring
  // ---------------------------------------------------------------------------

  /** The 23 words of the sentence to copy. */
  const TargetWords: seq<string> := [
    "The", "quick", "brown", "fox", "jumps", "over", "the", "lazy", "dog.",
    "A", "clear", "mind", "allows", "for", "focus", "and", "determination",
    "in", "the", "face", "of", "complex", "challenges."]

  /**
   * The sentence to copy, "The quick brown fox jumps over the lazy dog. A clear mind
   * allows for focus and determination in the face of complex challenges.", written
   * as its words joined by single spaces.
   */
  const TargetText := JoinWords(TargetWords)

  /** Printable ASCII other than the space character. */
  predicate Visible(w: string) {
    forall i :: 0 <= i < |w| ==> '!' <= w[i] <= '~'
  }

  lemma VisibleHasNoSpace(w: string)
    requires Visible(w)
    ensures NoSpace(w)
  {
  }

  /** Every word of the sentence is a non-empty run of printable characters. */
  lemma TargetWordsVisible()
    ensures forall k :: 0 <= k < |TargetWords| ==> |TargetWords[k]| > 0 && Visible(TargetWords[k])
  {
    var ws := TargetWords;
    assert forall k :: 0 <= k < 12 ==> |ws[k]| > 0 && Visible(ws[k]);
    assert forall k :: 12 <= k < 23 ==> |ws[k]| > 0 && Visible(ws[k]);
  }

  /** `targetText.trim().split(/\s+/)` gives back the sentence's 23 words. */
  lemma TargetTextWords()
    ensures Split(Trim(TargetText)) == TargetWords
    ensures |TargetWords| == 23
    ensures ProperWords(TargetWords)
  {
    TargetWordsProper();
    SplitTrimJoin(TargetWords);
  }

  /** The sentence's words are non-empty and free of whitespace. */
  lemma TargetWordsProper()
    ensures |TargetWords| == 23
    ensures ProperWords(TargetWords)
  {
    TargetWordsVisible();
    forall k | 0 <= k < |TargetWords|
      ensures NoSpace(TargetWords[k])
    {
      VisibleHasNoSpace(TargetWords[k]);
    }
  }

  /** Typed word `i` differs from the target's word `i`, or the target has no word `i`. */
  predicate Mismatch(words: seq<string>, target: seq<string>, i: nat)
    requires i < |words|
  {
    i >= |target| || words[i] != target[i]
  }

  /** The number of positions at which the typed words and the target words differ. */
  function CountErrors(words: seq<string>, target: seq<string>): (e: nat)
    ensures e <= |words|
    decreases |words|
  {
    if |words| == 0 then 0
    else
      CountErrors(words[..|words| - 1], target)
        + (if Mismatch(words, target, |words| - 1) then 1 else 0)
  }

  function MismatchPositions(words: seq<string>, target: seq<string>): set<nat> {
    set i: nat | i < |words| && Mismatch(words, target, i)
  }

  /** The error count is exactly the number of mismatching positions. */
  lemma {:induction false} CountErrorsCountsMismatches(words: seq<string>, target: seq<string>)
    ensures CountErrors(words, target) == |MismatchPositions(words, target)|
    decreases |words|
  {
    if |words| > 0 {
      var last := |words| - 1;
      var prefix := words[..last];
      CountErrorsCountsMismatches(prefix, target);
      var before := MismatchPositions(prefix, target);
      var after := MismatchPositions(words, target);
      if Mismatch(words, target, last) {
        assert after == before + {last};
      } else {
        assert after == before;
      }
    }
  }

  predicate IsWordPrefix(words: seq<string>, target: seq<string>) {
    |words| <= |target| && forall i :: 0 <= i < |words| ==> words[i] == target[i]
  }

  /** No errors exactly when the typed words are the target's first words. */
  lemma {:induction false} NoErrorsIffPrefix(words: seq<string>, target: seq<string>)
    ensures CountErrors(words, target) == 0 <==> IsWordPrefix(words, target)
    decreases |words|
  {
    if |words| > 0 {
      var last := |words| - 1;
      var prefix := words[..last];
      NoErrorsIffPrefix(prefix, target);
      if IsWordPrefix(words, target) {
        assert IsWordPrefix(prefix, target);
      }
      if CountErrors(words, target) == 0 {
        assert forall i :: 0 <= i < last ==> words[i] == prefix[i];
      }
    }
  }

  /** Every typed word past the target's last word is an error. */
  lemma {:induction false} ExtraWordsAreErrors(words: seq<string>, target: seq<string>)
    requires |words| >= |target|
    ensures CountErrors(words, target)
         == CountErrors(words[..|target|], target) + (|words| - |target|)
    decreases |words|
  {
    if |words| > |target| {
      var prefix := words[..|words| - 1];
      assert prefix[..|target|] == words[..|target|];
      ExtraWordsAreErrors(prefix, target);
    } else {
      assert words[..|target|] == words;
    }
  }

  /** `Math.max(0, 100 - errors * 5)` */
  function Accuracy(errors: nat): (a: int)
    ensures 0 <= a <= 100
    ensures a == 0 <==> errors >= 20
    ensures a == 100 <==> errors == 0
  {
    if 100 - errors * 5 > 0 then 100 - errors * 5 else 0
  }

  lemma AccuracyAntitone(e1: nat, e2: nat)
    requires e1 <= e2
    ensures Accuracy(e2) <= Accuracy(e1)
  {
  }

  // ---------------------------------------------------------------------------
  // Component state
  // ---------------------------------------------------------------------------

  datatype TextState = TextState(input: string, backspaces: nat, startTime: int, isStarted: bool)

  const InitialText := TextState("", 0, 0, false)

  /** A key press at clock time `at`, or the text area's new contents. */
  datatype TextEvent = KeyDown(key: string, at: int) | Change(value: string)

  /**
   * A key press never changes the text and a change never touches the counters; the
   * backspace count never drops, and a stamped start time is never restamped.
   */
  function Step(s: TextState, e: TextEvent): (t: TextState)
    ensures e.KeyDown? ==> t.input == s.input
    ensures e.Change? ==> t.backspaces == s.backspaces && t.isStarted == s.isStarted && t.startTime == s.startTime
    ensures t.backspaces >= s.backspaces
    ensures s.isStarted ==> t.isStarted && t.startTime == s.startTime
  {
    match e
    case Change(value) => s.(input := value)
    case KeyDown(key, at) =>
      var started := if s.isStarted then s else s.(isStarted := true, startTime := at);
      if key == "Backspace" then started.(backspaces := started.backspaces + 1) else started
  }

  function Run(s: TextState, es: seq<TextEvent>): TextState
    decreases |es|
  {
    if |es| == 0 then s else Run(Step(s, es[0]), es[1..])
  }

  function CountBackspaces(es: seq<TextEvent>): nat {
    if |es| == 0 then 0
    else (if es[0].KeyDown? && es[0].key == "Backspace" then 1 else 0) + CountBackspaces(es[1..])
  }

  /** The clock time of the first key press, if any. */
  function FirstKeyTime(es: seq<TextEvent>): Option<int> {
    if |es| == 0 then None
    else if es[0].KeyDown? then Some(es[0].at)
    else FirstKeyTime(es[1..])
  }

  /** Each Backspace press adds one to the counter, and nothing else does. */
  lemma {:induction false} RunCountsBackspaces(s: TextState, es: seq<TextEvent>)
    ensures Run(s, es).backspaces == s.backspaces + CountBackspaces(es)
    decreases |es|
  {
    if |es| > 0 {
      RunCountsBackspaces(Step(s, es[0]), es[1..]);
    }
  }

  /** The start time is stamped by the first key press and never changed afterwards. */
  lemma {:induction false} RunStampsFirstKey(s: TextState, es: seq<TextEvent>)
    ensures s.isStarted ==> Run(s, es).isStarted && Run(s, es).startTime == s.startTime
    ensures !s.isStarted ==> Run(s, es).isStarted == FirstKeyTime(es).Some?
    ensures !s.isStarted ==> Run(s, es).startTime == FirstKeyTime(es).GetOr(s.startTime)
    decreases |es|
  {
    if |es| > 0 {
      RunStampsFirstKey(Step(s, es[0]), es[1..]);
    }
  }

  /** The submit button is enabled once the text has at least 10 characters. */
  predicate SubmitEnabled(s: TextState) {
    |s.input| >= 10
  }

  /** The value of the last change among `es`, or `current` when there is none. */
  function LastChange(es: seq<TextEvent>, current: string): string
    decreases |es|
  {
    if |es| == 0 then current
    else if es[|es| - 1].Change? then es[|es| - 1].value
    else LastChange(es[..|es| - 1], current)
  }

  lemma {:induction false} RunSnoc(s: TextState, es: seq<TextEvent>, e: TextEvent)
    ensures Run(s, es + [e]) == Step(Run(s, es), e)
    decreases |es|
  {
    if |es| == 0 {
      assert es + [e] == [e];
    } else {
      assert (es + [e])[0] == es[0];
      assert (es + [e])[1..] == es[1..] + [e];
      RunSnoc(Step(s, es[0]), es[1..], e);
    }
  }

  /**
   * The text area shows the value of the last change, and the submit button is
   * enabled exactly when that value has at least 10 characters.
   */
  lemma {:induction false} RunShowsLastChange(s: TextState, es: seq<TextEvent>)
    ensures Run(s, es).input == LastChange(es, s.input)
    ensures SubmitEnabled(Run(s, es)) <==> |LastChange(es, s.input)| >= 10
    decreases |es|
  {
    if |es| > 0 {
      var init := es[..|es| - 1];
      var e := es[|es| - 1];
      assert init + [e] == es;
      RunSnoc(s, init, e);
      RunShowsLastChange(s, init);
    }
  }

  /** The `forEach` over the typed words: one error per position that does not match. */
  method CountWordErrors(inputWords: seq<string>, targetWords: seq<string>) returns (errors: nat)
    ensures errors == CountErrors(inputWords, targetWords)
  {
    errors := 0;
    var i := 0;
    while i < |inputWords|
      invariant 0 <= i <= |inputWords|
      invariant errors == CountErrors(inputWords[..i], targetWords)
    {
      assert inputWords[..i + 1][..i] == inputWords[..i];
      if i >= |targetWords| || inputWords[i] != targetWords[i] {
        errors := errors + 1;
      }
      i := i + 1;
    }
    assert inputWords[..i] == inputWords;
  }

  /**
   * The errors a submission of `input` counts against the words of `target`; the
   * component's target is `TargetWords`, what splitting the sentence gives (`TargetTextWords`).
   */
  function ErrorsFor(input: string, target: seq<string>): (e: nat)
    ensures e <= |Split(Trim(input))|
    ensures e == 0 <==> IsWordPrefix(Split(Trim(input)), target)
    ensures |Split(Trim(input))| > |target| ==> e >= |Split(Trim(input))| - |target|
  {
    var words := Split(Trim(input));
    NoErrorsIffPrefix(words, target);
    if |words| > |target| then
      ExtraWordsAreErrors(words, target);
      CountErrors(words, target)
    else CountErrors(words, target)
  }

  /**
   * Submitting: the typed words are compared with the target words position by
   * position. `typingSpeed` is the rounded words-per-minute figure computed from the clock.
   */
  method Submit(s: TextState, typingSpeed: int) returns (m: TextMetrics)
    requires SubmitEnabled(s)
    ensures m.content == s.input && m.backspaces == s.backspaces
    ensures m.typingSpeed == typingSpeed
    ensures m.errors == ErrorsFor(s.input, TargetWords)
    ensures m.accuracy == Accuracy(m.errors)
  {
    var inputWords := Split(Trim(s.input));
    var targetWords := Split(Trim(TargetText));
    TargetTextWords();
    var errors := CountWordErrors(inputWords, targetWords);
    m := TextMetrics(s.input, s.backspaces, typingSpeed, errors, Accuracy(errors));
  }

  lemma {:induction false} JoinWordsEnd(ws: seq<string>)
    requires |ws| >= 1 && ProperWords(ws)
    ensures |JoinWords(ws)| >= |ws[|ws| - 1]|
    ensures JoinWords(ws)[|JoinWords(ws)| - |ws[|ws| - 1]|..] == ws[|ws| - 1]
    decreases |ws|
  {
    if |ws| > 1 {
      JoinWordsEnd(ws[1..]);
    }
  }

  /** Words joined by single spaces come back unchanged from trimming and splitting. */
  lemma SplitTrimJoin(ws: seq<string>)
    requires |ws| >= 1 && ProperWords(ws)
    ensures Split(Trim(JoinWords(ws))) == ws
  {
    JoinWordsStart(ws);
    JoinWordsEnd(ws);
    TrimKeepsTrimmed(JoinWords(ws));
    SplitJoin(ws);
  }

  /** Typing the first words of a target exactly, one space apart, scores no errors against it. */
  lemma TypedPrefixHasNoErrors(ws: seq<string>, target: seq<string>)
    requires ProperWords(target)
    requires 1 <= |ws| && IsWordPrefix(ws, target)
    ensures CountErrors(Split(Trim(JoinWords(ws))), target) == 0
  {
    assert ProperWords(ws);
    SplitTrimJoin(ws);
    NoErrorsIffPrefix(ws, target);
  }

  /** Typing a target's first words exactly, one space apart, scores no errors and full accuracy. */
  lemma PrefixOfTargetScoresPerfect(ws: seq<string>, target: seq<string>)
    requires ProperWords(target)
    requires 1 <= |ws| && IsWordPrefix(ws, target)
    ensures ErrorsFor(JoinWords(ws), target) == 0
    ensures Accuracy(ErrorsFor(JoinWords(ws), target)) == 100
  {
    TypedPrefixHasNoErrors(ws, target);
  }

  lemma SplitEmpty()
    ensures Split("") == [""]
  {
  }

  /** A lone empty word mismatches any target whose first word is not empty. */
  lemma EmptyWordIsOneError(target: seq<string>)
    requires |target| >= 1 && |target[0]| > 0
    ensures CountErrors([""], target) == 1
  {
  }

  /** Whitespace-only text trims to "", which splits into one empty word: one error. */
  lemma WhitespaceOnlyScoresOneError(input: string, target: seq<string>)
    requires forall k :: 0 <= k < |input| ==> IsSpace(input[k])
    requires |target| >= 1 && |target[0]| > 0
    ensures ErrorsFor(input, target) == 1
    ensures Accuracy(ErrorsFor(input, target)) == 95
  {
    TrimAllSpace(input);
    SplitEmpty();
    EmptyWordIsOneError(target);
  }
}
