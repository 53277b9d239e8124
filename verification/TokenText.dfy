/** Token estimation and truncation of text (src-tauri/src/context_manager.rs, lines 405-413
    and 508-536). Text is a sequence of Unicode scalar values. */
module TokenText {
  import opened Basics

  /** `char::is_whitespace`: the Unicode White_Space property. */
  predicate IsWhitespace(c: char) {
    var v := c as int;
    || 0x09 <= v <= 0x0D
    || v == 0x20 || v == 0x85 || v == 0xA0 || v == 0x1680
    || 0x2000 <= v <= 0x200A
    || v == 0x2028 || v == 0x2029 || v == 0x202F || v == 0x205F || v == 0x3000
  }

  function TrimStart(s: string): (r: string)
    ensures r == "" || !IsWhitespace(r[0])
  {
    if s == "" then ""
    else if IsWhitespace(s[0]) then TrimStart(s[1..])
    else s
  }

  function TrimEnd(s: string): (r: string)
    ensures r != "" ==> s != "" && r[0] == s[0]
    ensures r == "" || !IsWhitespace(r[|r| - 1])
  {
    if s == "" then ""
    else if IsWhitespace(s[|s| - 1]) then TrimEnd(s[..|s| - 1])
    else s
  }

  /** `str::trim`. */
  function Trim(s: string): (r: string)
    ensures r == "" || (!IsWhitespace(r[0]) && !IsWhitespace(r[|r| - 1]))
  {
    TrimEnd(TrimStart(s))
  }

  /** Text whose two ends are not whitespace is left alone by trimming. */
  lemma TrimFixed(s: string)
    requires s == "" || (!IsWhitespace(s[0]) && !IsWhitespace(s[|s| - 1]))
    ensures Trim(s) == s
  {
  }

  predicate Blank(s: string) { forall i :: 0 <= i < |s| ==> IsWhitespace(s[i]) }

  /** Trimming removes whitespace at the two ends and nothing else. */
  lemma TrimSplits(s: string) returns (a: string, b: string)
    ensures s == a + Trim(s) + b && Blank(a) && Blank(b)
  {
    a := StartSplits(s);
    b := EndSplits(TrimStart(s));
  }

  lemma {:induction false} StartSplits(s: string) returns (a: string)
    ensures s == a + TrimStart(s) && Blank(a)
  {
    a := "";
    if s != "" && IsWhitespace(s[0]) {
      a := StartSplits(s[1..]);
      a := [s[0]] + a;
    }
  }

  lemma {:induction false} EndSplits(s: string) returns (b: string)
    ensures s == TrimEnd(s) + b && Blank(b)
  {
    b := "";
    if s != "" && IsWhitespace(s[|s| - 1]) {
      b := EndSplits(s[..|s| - 1]);
      b := b + [s[|s| - 1]];
    }
  }

  /** That, with ends that are not blank, determines the trimmed text. */
  lemma TrimUnique(s: string, a: string, t: string, b: string)
    requires s == a + t + b && Blank(a) && Blank(b)
    requires t == "" || (!IsWhitespace(t[0]) && !IsWhitespace(t[|t| - 1]))
    ensures Trim(s) == t
  {
    if t == "" {
      BlankTrims(s);
    } else {
      assert s == a + (t + b) && (t + b)[0] == t[0];
      StartDrops(a, t + b);
      EndDrops(t, b);
    }
  }

  lemma {:induction false} StartDrops(a: string, t: string)
    requires Blank(a) && t != "" && !IsWhitespace(t[0])
    ensures TrimStart(a + t) == t
  {
    if a == "" {
      assert a + t == t;
    } else {
      assert (a + t)[1..] == a[1..] + t;
      StartDrops(a[1..], t);
    }
  }

  lemma {:induction false} EndDrops(t: string, b: string)
    requires Blank(b) && t != "" && !IsWhitespace(t[|t| - 1])
    ensures TrimEnd(t + b) == t
  {
    if b == "" {
      assert t + b == t;
    } else {
      assert (t + b)[..|t + b| - 1] == t + b[..|b| - 1];
      EndDrops(t, b[..|b| - 1]);
    }
  }

  lemma {:induction false} BlankTrims(s: string)
    requires Blank(s)
    ensures TrimStart(s) == "" && Trim(s) == ""
  {
    if s != "" { BlankTrims(s[1..]); }
  }

  /** The twenty-five characters that count as whitespace. */
  lemma WhitespaceTable(c: char)
    ensures IsWhitespace(c) <==> c as int in {
      9, 10, 11, 12, 13, 32, 133, 160, 5760, 8192, 8193, 8194, 8195, 8196, 8197, 8198, 8199, 8200, 8201, 8202,
      8232, 8233, 8239, 8287, 12288}
  {
  }

  /** The number of items `split_whitespace` yields: positions where a word begins. */
  function Words(s: string): nat {
    if s == "" then 0
    else
      var n := |s| - 1;
      Words(s[..n]) + (if !IsWhitespace(s[n]) && (n == 0 || IsWhitespace(s[n - 1])) then 1 else 0)
  }

  /** `estimate_text_tokens`. */
  function EstimateTokens(s: string): nat {
    TrimmedCost(Trim(s))
  }

  function TrimmedCost(t: string): nat {
    if t == "" then 0 else Max(Max(DivCeil(|t|, 4), Words(t)), 1)
  }

  const MARKER_WORD: string := "[truncated]"
  const MARKER: string := "\n" + MARKER_WORD
  const MARKER_TOKENS: nat := 3

  /** Trimming first does not change the estimate, which is zero exactly on blank text. */
  lemma EstimateOfTrim(s: string)
    ensures EstimateTokens(Trim(s)) == EstimateTokens(s)
    ensures EstimateTokens(s) == 0 <==> Trim(s) == ""
  {
    TrimFixed(Trim(s));
  }

  /** A prefix has no more words than the whole. */
  lemma {:induction false} WordsOfPrefix(s: string, k: nat)
    requires k <= |s|
    ensures Words(s[..k]) <= Words(s)
  {
    if k == |s| {
      assert s[..k] == s;
    } else {
      WordsOfPrefix(s[..|s| - 1], k);
      assert s[..|s| - 1][..k] == s[..k];
    }
  }

  /** Appending a newline and a run of non-blank characters adds exactly one word. */
  lemma {:induction false} WordsWithTail(p: string, w: string)
    requires |w| >= 1 && forall i :: 0 <= i < |w| ==> !IsWhitespace(w[i])
    ensures Words(p + "\n" + w) == Words(p) + 1
  {
    var s := p + "\n" + w;
    var n := |s| - 1;
    if |w| == 1 {
      assert s[..n] == p + "\n";
      assert (p + "\n")[..|p|] == p;
    } else {
      assert s[..n] == p + "\n" + w[..|w| - 1];
      WordsWithTail(p, w[..|w| - 1]);
    }
  }

  /** Words are counted on either side of any whitespace separately. With no words in nothing and one in
      a run of characters that are not blank, this determines the count. */
  lemma {:induction false} WordsAcross(a: string, c: char, b: string)
    requires IsWhitespace(c)
    ensures Words(a + [c] + b) == Words(a) + Words(b)
  {
    var s := a + [c] + b;
    var n := |s| - 1;
    if b == "" {
      assert s[..n] == a;
    } else {
      assert s[..n] == a + [c] + b[..|b| - 1];
      WordsAcross(a, c, b[..|b| - 1]);
    }
  }

  lemma {:induction false} WordsOfWord(w: string)
    requires |w| >= 1 && forall i :: 0 <= i < |w| ==> !IsWhitespace(w[i])
    ensures Words(w) == 1
  {
    if |w| > 1 { WordsOfWord(w[..|w| - 1]); }
  }

  /** A newline before text that needs no trimming is all that trimming removes. */
  lemma TrimNewline(w: string)
    requires |w| >= 1 && !IsWhitespace(w[0]) && !IsWhitespace(w[|w| - 1])
    ensures Trim("\n" + w) == w
  {
    var s := "\n" + w;
    assert s[1..] == w;
    assert TrimStart(w) == w;
    assert TrimEnd(w) == w;
  }

  /** The estimate is the least number of tokens, one at least, that allows four characters each and
      no more than one word each. */
  lemma EstimateIsLeast(s: string, n: nat)
    requires Trim(s) != ""
    ensures EstimateTokens(s) <= n <==> 1 <= n && |Trim(s)| <= 4 * n && Words(Trim(s)) <= n
  {
    DivCeilBounds(|Trim(s)|, 4);
  }

  /** Twelve more characters are three more tokens, and one more word is one more. */
  lemma TailCost(p: string, s: string)
    requires |s| == |p| + 12 && Words(s) == Words(p) + 1
    requires Trim(s) == s
    ensures EstimateTokens(s) == Max(DivCeil(|p|, 4) + 3, Words(p) + 1)
  {
  }

  lemma SolidEnds(p: string, w: string)
    requires p != "" && w != "" && !IsWhitespace(p[0]) && !IsWhitespace(w[|w| - 1])
    ensures Trim(p + "\n" + w) == p + "\n" + w
  {
    var s := p + "\n" + w;
    assert s[0] == p[0] && s[|s| - 1] == w[|w| - 1];
    TrimFixed(s);
  }

  lemma EstimateOfNewlineWord(w: string)
    requires |w| == 11 && forall i :: 0 <= i < |w| ==> !IsWhitespace(w[i])
    ensures EstimateTokens("\n" + w) == 3
  {
    TrimNewline(w);
    WordsOfWord(w);
  }

  /** The estimate of a prefix followed by a newline and an eleven-character word. */
  lemma EstimateWithTail(p: string, w: string)
    requires |w| == 11 && forall i :: 0 <= i < |w| ==> !IsWhitespace(w[i])
    requires p == "" || !IsWhitespace(p[0])
    ensures EstimateTokens(p + "\n" + w) == Max(DivCeil(|p|, 4) + 3, Words(p) + 1)
  {
    hide Trim, EstimateTokens;
    if p == "" {
      assert p + "\n" + w == "\n" + w;
      EstimateOfNewlineWord(w);
    } else {
      SolidEnds(p, w);
      WordsWithTail(p, w);
      TailCost(p, p + "\n" + w);
    }
  }

  lemma MarkerWordIsSolid()
    ensures |MARKER_WORD| == 11 && forall i :: 0 <= i < |MARKER_WORD| ==> !IsWhitespace(MARKER_WORD[i])
  {
    forall i | 0 <= i < |MARKER_WORD| ensures !IsWhitespace(MARKER_WORD[i]) {
      assert MARKER_WORD[i] as int == 0x5B || MARKER_WORD[i] as int == 0x5D || 0x61 <= MARKER_WORD[i] as int <= 0x7A;
    }
  }

  /** The cost of keeping the first `k` characters of `t` and the marker, in closed form. */
  function MarkedCost(t: string, k: nat): nat
    requires k <= |t|
  {
    Max(DivCeil(k, 4) + MARKER_TOKENS, Words(t[..k]) + 1)
  }

  /** The closed form is the estimate of the candidate text the code builds. */
  lemma EstimateWithMarker(t: string, k: nat)
    requires k <= |t|
    requires t == "" || !IsWhitespace(t[0])
    ensures EstimateTokens(t[..k] + MARKER) == MarkedCost(t, k)
  {
    MarkerWordIsSolid();
    assert t[..k] + MARKER == t[..k] + "\n" + MARKER_WORD;
    EstimateWithTail(t[..k], MARKER_WORD);
  }

  lemma MarkerEstimate()
    ensures EstimateTokens(MARKER) == MARKER_TOKENS
  {
    assert ""[..0] + MARKER == MARKER;
    EstimateWithMarker("", 0);
  }

  /** Whether the first `k` characters of `t` fit the limit once the marker is appended. */
  predicate Fits(t: string, k: nat, maxTokens: nat)
    requires k <= |t|
  {
    MarkedCost(t, k) <= maxTokens
  }

  /** Fitting is closed under shorter prefixes. */
  lemma FitsDownward(t: string, j: nat, k: nat, maxTokens: nat)
    requires j <= k <= |t|
    ensures Fits(t, k, maxTokens) ==> Fits(t, j, maxTokens)
  {
    DivCeilMonotone(j, k, 4);
    assert t[..k][..j] == t[..j];
    WordsOfPrefix(t[..k], j);
  }

  /** The longest prefix of `t` that fits with the marker, found by plain search from the top.
      This is the reference definition; the code starts its search lower. */
  function LongestFit(t: string, k: nat, maxTokens: nat): (n: nat)
    requires k <= |t| && maxTokens >= MARKER_TOKENS
    ensures n <= k && Fits(t, n, maxTokens)
    ensures forall j :: n < j <= k ==> !Fits(t, j, maxTokens)
  {
    if Fits(t, k, maxTokens) then k else LongestFit(t, k - 1, maxTokens)
  }

  /** What truncation is meant to return. */
  function Truncated(value: string, maxTokens: nat): string {
    var t := Trim(value);
    if EstimateTokens(t) <= maxTokens then t
    else if maxTokens <= MARKER_TOKENS then ""
    else t[..LongestFit(t, |t|, maxTokens)] + MARKER
  }

  /** No prefix longer than four characters per spare token can fit, so the code may start there. */
  lemma StartIsHighEnough(t: string, j: nat, maxTokens: nat)
    requires maxTokens > MARKER_TOKENS
    requires (maxTokens - MARKER_TOKENS) * 4 < j <= |t|
    ensures !Fits(t, j, maxTokens)
  {
    DivCeilBounds(j, 4);
  }

  /** A prefix that fits while every longer one does not is the longest fit. */
  lemma LongestFitUnique(t: string, n: nat, maxTokens: nat)
    requires n <= |t| && maxTokens >= MARKER_TOKENS
    requires Fits(t, n, maxTokens)
    requires forall j :: n < j <= |t| ==> !Fits(t, j, maxTokens)
    ensures n == LongestFit(t, |t|, maxTokens)
  {
    var m := LongestFit(t, |t|, maxTokens);
    assert !(m < n);
    assert !(n < m);
  }

  /** `truncate_text_to_estimated_tokens`, with its pop loop. The exit taken when nothing is left
      to pop does not appear, because the loop is shown never to reach it. */
  method TruncateText(value: string, maxTokens: nat) returns (r: string)
    ensures r == Truncated(value, maxTokens)
  {
    var t := Trim(value);
    if EstimateTokens(t) <= maxTokens { return t; }
    if maxTokens == 0 { return ""; }
    MarkerEstimate();
    var markerTokens := EstimateTokens(MARKER);
    if maxTokens <= markerTokens { return ""; }
    r := PopUntilFits(t, maxTokens, markerTokens);
  }

  /** The loop of `truncate_text_to_estimated_tokens` (lines 523-535). */
  method PopUntilFits(t: string, maxTokens: nat, markerTokens: nat) returns (r: string)
    requires t == "" || !IsWhitespace(t[0])
    requires markerTokens == MARKER_TOKENS < maxTokens
    ensures r == t[..LongestFit(t, |t|, maxTokens)] + MARKER
  {
    var n: nat := Min(|t|, (maxTokens - markerTokens) * 4);
    forall j | n < j <= |t| ensures !Fits(t, j, maxTokens) {
      StartIsHighEnough(t, j, maxTokens);
    }
    while true
      invariant n <= |t|
      invariant forall j :: n < j <= |t| ==> !Fits(t, j, maxTokens)
      decreases n
    {
      var candidate := t[..n] + MARKER;
      EstimateWithMarker(t, n);
      if EstimateTokens(candidate) <= maxTokens {
        LongestFitUnique(t, n, maxTokens);
        return candidate;
      }
      n := n - 1;
    }
  }

  /** Soundness: a truncated text never exceeds the limit. */
  lemma TruncationSound(value: string, maxTokens: nat)
    ensures EstimateTokens(Truncated(value, maxTokens)) <= maxTokens
  {
    var t := Trim(value);
    if EstimateTokens(t) > maxTokens > MARKER_TOKENS {
      EstimateWithMarker(t, LongestFit(t, |t|, maxTokens));
    }
  }

  /** Text that fits is returned trimmed and nothing else is; text that does not fit yields the
      empty string exactly when the limit is at most the marker's own size. */
  lemma TruncationExactCases(value: string, maxTokens: nat)
    ensures Truncated(value, maxTokens) == Trim(value) <==> EstimateTokens(value) <= maxTokens
    ensures EstimateTokens(value) > maxTokens ==>
      (Truncated(value, maxTokens) == "" <==> maxTokens <= MARKER_TOKENS)
  {
    EstimateOfTrim(value);
    TruncationSound(value, maxTokens);
  }

  /** Optimality: past the marker's size, an oversized text keeps a proper prefix of its trimmed
      form, and every longer prefix would have exceeded the limit once marked. */
  lemma TruncationOptimal(value: string, maxTokens: nat) returns (n: nat)
    requires EstimateTokens(value) > maxTokens > MARKER_TOKENS
    ensures n < |Trim(value)|
    ensures Truncated(value, maxTokens) == Trim(value)[..n] + MARKER
    ensures forall j :: n < j <= |Trim(value)| ==> EstimateTokens(Trim(value)[..j] + MARKER) > maxTokens
  {
    var t := Trim(value);
    EstimateOfTrim(value);
    n := LongestFit(t, |t|, maxTokens);
    FullTextDoesNotFit(t, maxTokens);
    forall j | n < j <= |t| ensures EstimateTokens(t[..j] + MARKER) > maxTokens {
      assert !Fits(t, j, maxTokens);
      EstimateWithMarker(t, j);
    }
  }

  /** Text over the limit stays over it with the marker appended. */
  lemma FullTextDoesNotFit(t: string, maxTokens: nat)
    requires t == Trim(t) && EstimateTokens(t) > maxTokens
    ensures !Fits(t, |t|, maxTokens)
  {
    assert t[..|t|] == t;
  }

  /** A raised limit never shortens the kept prefix. */
  lemma TruncationMonotone(t: string, a: nat, b: nat)
    requires MARKER_TOKENS <= a <= b
    ensures LongestFit(t, |t|, a) <= LongestFit(t, |t|, b)
  {
    var m := LongestFit(t, |t|, a);
    assert Fits(t, m, b);
  }
}
