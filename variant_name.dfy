/** normalizeVariant (companion.js:11-15): the requested variant name as a slug.
    The source runs three string operations: toLowerCase, a global replacement of every
    run of characters outside [a-z0-9] by one hyphen, and the removal of hyphens at both
    ends. The reference definition below says what that produces: the lower-cased
    name's runs of letters and digits, joined by single hyphens. */
module VariantName {
  import opened Wrappers
  import opened JsBuiltins

  /** The characters the pattern [a-z0-9] keeps. */
  predicate IsSlugChar(c: char) { 'a' <= c <= 'z' || '0' <= c <= '9' }

  /** The length of the run of kept characters that s starts with. */
  function WordLength(s: string): (n: nat)
    ensures n <= |s|
    ensures n < |s| ==> !IsSlugChar(s[n])
  {
    if s != [] && IsSlugChar(s[0]) then 1 + WordLength(s[1..]) else 0
  }

  /** The length of the run of other characters (a match of [^a-z0-9]+) that s starts with. */
  function GapLength(s: string): (n: nat)
    ensures n <= |s|
    ensures n < |s| ==> IsSlugChar(s[n])
  {
    if s != [] && !IsSlugChar(s[0]) then 1 + GapLength(s[1..]) else 0
  }

  /** s.replace(/[^a-z0-9]+/g, "-"): each maximal run of other characters becomes one hyphen. */
  function ReplaceGaps(s: string): string
    decreases |s|
  {
    if s == [] then []
    else if IsSlugChar(s[0]) then [s[0]] + ReplaceGaps(s[1..])
    else "-" + ReplaceGaps(s[GapLength(s)..])
  }

  function DropLeadingHyphens(s: string): string {
    if s != [] && s[0] == '-' then DropLeadingHyphens(s[1..]) else s
  }

  function DropTrailingHyphens(s: string): string {
    if s != [] && s[|s| - 1] == '-' then DropTrailingHyphens(s[..|s| - 1]) else s
  }

  /** s.replace(/^-+|-+$/g, ""). */
  function TrimHyphens(s: string): string {
    DropTrailingHyphens(DropLeadingHyphens(s))
  }

  const DefaultVariant: string := "shinobi"

  /** `value || "shinobi"`: an absent or empty data-variant selects the default. */
  function RequestedName(value: Option<string>): string {
    if value.None? || value.value == "" then DefaultVariant else value.value
  }

  /** normalizeVariant(value). */
  function NormalizeVariant(value: Option<string>): string {
    TrimHyphens(ReplaceGaps(ToLowerCase(RequestedName(value))))
  }

  // ---------------------------------------------------------------------------
  // Reference definition

  predicate IsWord(w: string) { w != [] && forall i :: 0 <= i < |w| ==> IsSlugChar(w[i]) }

  /** The maximal runs of kept characters of s, in order. */
  function Words(s: string): (ws: seq<string>)
    ensures forall k :: 0 <= k < |ws| ==> IsWord(ws[k])
    decreases |s|
  {
    if s == [] then []
    else if !IsSlugChar(s[0]) then Words(s[GapLength(s)..])
    else
      WordLengthIsWord(s);
      [s[..WordLength(s)]] + Words(s[WordLength(s)..])
  }

  /** A non-empty word starts s exactly when s starts with a kept character. */
  lemma {:induction false} WordLengthIsWord(s: string)
    requires s != [] && IsSlugChar(s[0])
    ensures IsWord(s[..WordLength(s)])
    decreases |s|
  {
    if WordLength(s) > 1 {
      WordLengthIsWord(s[1..]);
      assert s[..WordLength(s)] == [s[0]] + s[1..][..WordLength(s[1..])];
    }
  }

  function JoinWithHyphens(ws: seq<string>): string {
    if ws == [] then []
    else if |ws| == 1 then ws[0]
    else ws[0] + "-" + JoinWithHyphens(ws[1..])
  }

  /** A slug: letters, digits and hyphens, no hyphen at either end and no two in a row. */
  predicate IsSlug(s: string) {
    && (forall i :: 0 <= i < |s| ==> IsSlugChar(s[i]) || s[i] == '-')
    && (s != [] ==> s[0] != '-' && s[|s| - 1] != '-')
    && (forall i :: 0 <= i < |s| - 1 ==> s[i] != '-' || s[i + 1] != '-')
  }

  /** Joining words gives a slug that starts and ends with a kept character. */
  lemma {:induction false} JoinIsSlug(ws: seq<string>)
    requires forall k :: 0 <= k < |ws| ==> IsWord(ws[k])
    ensures IsSlug(JoinWithHyphens(ws))
    ensures ws != [] ==> JoinWithHyphens(ws) != []
    ensures ws != [] ==> IsSlugChar(JoinWithHyphens(ws)[0])
    ensures ws != [] ==> IsSlugChar(JoinWithHyphens(ws)[|JoinWithHyphens(ws)| - 1])
  {
    if |ws| > 1 {
      JoinIsSlug(ws[1..]);
      var w, rest := ws[0], JoinWithHyphens(ws[1..]);
      var j := w + "-" + rest;
      assert j == JoinWithHyphens(ws);
      assert forall i :: 0 <= i < |w| ==> j[i] == w[i];
      assert j[|w|] == '-';
      assert forall i :: |w| < i < |j| ==> j[i] == rest[i - |w| - 1];
    }
  }

  lemma {:induction false} ReplaceGapsAfterWord(s: string)
    ensures ReplaceGaps(s) == s[..WordLength(s)] + ReplaceGaps(s[WordLength(s)..])
    decreases |s|
  {
    if s != [] && IsSlugChar(s[0]) {
      ReplaceGapsAfterWord(s[1..]);
      assert s[1..][..WordLength(s[1..])] == s[1..WordLength(s)];
      assert s[1..][WordLength(s[1..])..] == s[WordLength(s)..];
      assert s[..WordLength(s)] == [s[0]] + s[1..WordLength(s)];
    }
  }

  /** "-" when s ends inside a run of other characters. */
  function TrailingGap(s: string): string {
    if s != [] && !IsSlugChar(s[|s| - 1]) then "-" else []
  }

  /** Starting at a word, replacing the gaps joins the words of s and keeps one hyphen
      for a gap at the end. */
  lemma {:induction false} ReplaceGapsFromWord(s: string)
    requires s == [] || IsSlugChar(s[0])
    ensures ReplaceGaps(s) == JoinWithHyphens(Words(s)) + TrailingGap(s)
    decreases |s|
  {
    if s != [] {
      var rest := s[WordLength(s)..];
      if rest == [] {
        ReplaceGapsOfWord(s);
      } else {
        var t := rest[GapLength(rest)..];
        ReplaceGapsFromWord(t);
        ReplaceGapsOfWordAndGap(s, t);
      }
    }
  }

  lemma ReplaceGapsOfWord(s: string)
    requires s != [] && IsSlugChar(s[0]) && s[WordLength(s)..] == []
    ensures ReplaceGaps(s) == JoinWithHyphens(Words(s)) + TrailingGap(s)
  {
    var n := WordLength(s);
    ReplaceGapsAfterWord(s);
    assert Words(s) == [s[..n]] + Words(s[n..]);
    assert TrailingGap(s) == [] by { assert s[|s| - 1] == s[..n][n - 1]; }
  }

  lemma ReplaceGapsOfWordAndGap(s: string, t: string)
    requires s != [] && IsSlugChar(s[0]) && s[WordLength(s)..] != []
    requires t == s[WordLength(s)..][GapLength(s[WordLength(s)..])..]
    requires ReplaceGaps(t) == JoinWithHyphens(Words(t)) + TrailingGap(t)
    ensures ReplaceGaps(s) == JoinWithHyphens(Words(s)) + TrailingGap(s)
  {
    var n := WordLength(s);
    var w, rest := s[..n], s[n..];
    ReplaceGapsAfterWord(s);
    WordsAfterWord(s);
    WordLengthIsWord(s);
    GapThenRest(rest);
    TrailingGapOfSuffix(s, n);
    ReplaceGapsWordThenGap(w, rest, t);
  }

  lemma WordsAfterWord(s: string)
    requires s != [] && IsSlugChar(s[0])
    ensures Words(s) == [s[..WordLength(s)]] + Words(s[WordLength(s)..])
  {
  }

  /** A leading gap becomes one hyphen and contributes no word. */
  lemma GapThenRest(rest: string)
    requires rest != [] && !IsSlugChar(rest[0])
    ensures ReplaceGaps(rest) == "-" + ReplaceGaps(rest[GapLength(rest)..])
    ensures Words(rest) == Words(rest[GapLength(rest)..])
  {
  }

  lemma ReplaceGapsWordThenGap(w: string, rest: string, t: string)
    requires IsWord(w) && rest != [] && !IsSlugChar(rest[0])
    requires t == rest[GapLength(rest)..]
    requires ReplaceGaps(t) == JoinWithHyphens(Words(t)) + TrailingGap(t)
    ensures w + ("-" + ReplaceGaps(t)) == JoinWithHyphens([w] + Words(t)) + TrailingGap(rest)
  {
    if t == [] {
      ReplaceGapsWordThenEnd(w, rest, t);
    } else {
      var ws := Words(t);
      var jt := JoinWithHyphens(ws);
      var g := GapLength(rest);
      assert IsSlugChar(t[0]) by { assert t[0] == rest[g]; }
      WordsOfWordStart(t);
      TrailingGapOfSuffix(rest, g);
      JoinCons(w, ws);
      Regroup(w, "-", jt, TrailingGap(t));
    }
  }

  lemma ReplaceGapsWordThenEnd(w: string, rest: string, t: string)
    requires IsWord(w) && rest != [] && !IsSlugChar(rest[0])
    requires t == rest[GapLength(rest)..] && t == []
    ensures w + ("-" + ReplaceGaps(t)) == JoinWithHyphens([w] + Words(t)) + TrailingGap(rest)
  {
    assert Words(t) == [];
    assert TrailingGap(rest) == "-";
    assert ReplaceGaps(t) == [];
    assert JoinWithHyphens([w]) == w;
  }

  lemma Regroup(a: string, b: string, c: string, d: string)
    ensures a + (b + (c + d)) == a + b + c + d
  {
  }

  lemma WordsOfWordStart(t: string)
    requires t != [] && IsSlugChar(t[0])
    ensures Words(t) != []
  {
    assert Words(t) == [t[..WordLength(t)]] + Words(t[WordLength(t)..]);
  }

  lemma TrailingGapOfSuffix(s: string, k: nat)
    requires k < |s|
    ensures TrailingGap(s[k..]) == TrailingGap(s)
  {
    assert s[k..][|s| - k - 1] == s[|s| - 1];
  }

  lemma JoinCons(w: string, ws: seq<string>)
    requires ws != []
    ensures JoinWithHyphens([w] + ws) == w + "-" + JoinWithHyphens(ws)
  {
    assert ([w] + ws)[1..] == ws;
  }

  lemma {:induction false} DropTrailingAfterSlug(j: string, e: string)
    requires j != [] && j[|j| - 1] != '-'
    requires e == [] || e == "-"
    ensures DropTrailingHyphens(j + e) == j
  {
    if e == "-" {
      assert (j + e)[..|j + e| - 1] == j;
    } else {
      assert j + e == j;
    }
  }

  /** The three replacements of normalizeVariant produce exactly the words of the
      lower-cased name, joined by single hyphens. */
  lemma NormalizeIsJoinOfWords(value: Option<string>)
    ensures NormalizeVariant(value) == JoinWithHyphens(Words(ToLowerCase(RequestedName(value))))
  {
    TrimReplaceIsJoin(ToLowerCase(RequestedName(value)));
  }

  /** Replacing the gaps and trimming the hyphens joins the words of s. */
  lemma TrimReplaceIsJoin(s: string)
    ensures TrimHyphens(ReplaceGaps(s)) == JoinWithHyphens(Words(s))
  {
    if s == [] {
    } else if IsSlugChar(s[0]) {
      TrimReplaceFromWord(s);
    } else {
      var t := s[GapLength(s)..];
      assert ReplaceGaps(s) == "-" + ReplaceGaps(t);
      assert Words(s) == Words(t);
      if t == [] {
        assert Words(t) == [];
        assert ReplaceGaps(s) == "-";
        assert DropLeadingHyphens("-") == DropLeadingHyphens([]) == [];
        assert TrimHyphens("-") == [];
      } else {
        assert IsSlugChar(t[0]) by { assert t[0] == s[GapLength(s)]; }
        TrimReplaceAfterGap(t);
      }
    }
  }

  lemma TrimReplaceFromWord(s: string)
    requires s != [] && IsSlugChar(s[0])
    ensures TrimHyphens(ReplaceGaps(s)) == JoinWithHyphens(Words(s))
  {
    var j := JoinWithHyphens(Words(s));
    JoinIsSlug(Words(s));
    ReplaceGapsFromWord(s);
    WordsOfWordStart(s);
    assert DropLeadingHyphens(j + TrailingGap(s)) == j + TrailingGap(s);
    DropTrailingAfterSlug(j, TrailingGap(s));
  }

  lemma TrimReplaceAfterGap(t: string)
    requires t != [] && IsSlugChar(t[0])
    ensures TrimHyphens("-" + ReplaceGaps(t)) == JoinWithHyphens(Words(t))
  {
    var j := JoinWithHyphens(Words(t));
    JoinIsSlug(Words(t));
    ReplaceGapsFromWord(t);
    WordsOfWordStart(t);
    var x := j + TrailingGap(t);
    assert ("-" + x)[1..] == x;
    assert DropLeadingHyphens("-" + x) == x;
    DropTrailingAfterSlug(j, TrailingGap(t));
  }

  /** The normalized key is always a slug: only [a-z0-9-], no hyphen at either end,
      never two hyphens in a row. */
  lemma NormalizeVariantIsSlug(value: Option<string>)
    ensures IsSlug(NormalizeVariant(value))
  {
    NormalizeIsJoinOfWords(value);
    JoinIsSlug(Words(ToLowerCase(RequestedName(value))));
  }

  lemma {:induction false} WordLengthOfWordThen(w: string, x: string)
    requires IsWord(w)
    requires x == [] || !IsSlugChar(x[0])
    ensures WordLength(w + x) == |w|
    ensures (w + x)[..|w|] == w && (w + x)[|w|..] == x
    decreases |w|
  {
    if |w| > 1 {
      assert (w + x)[1..] == w[1..] + x;
      WordLengthOfWordThen(w[1..], x);
    } else {
      assert (w + x)[1..] == x;
    }
  }

  /** Splitting a hyphen-joined list of words into words gives the list back. */
  lemma {:induction false} WordsOfJoin(ws: seq<string>)
    requires forall k :: 0 <= k < |ws| ==> IsWord(ws[k])
    ensures Words(JoinWithHyphens(ws)) == ws
  {
    if |ws| == 1 {
      WordLengthOfWordThen(ws[0], []);
      assert ws[0] + [] == ws[0];
    } else if |ws| > 1 {
      var rest := JoinWithHyphens(ws[1..]);
      JoinIsSlug(ws[1..]);
      WordsOfJoin(ws[1..]);
      WordsOfWordThenGap(ws[0], rest);
      assert ws == [ws[0]] + ws[1..];
    }
  }

  lemma WordsOfWordThenGap(w: string, rest: string)
    requires IsWord(w) && rest != [] && IsSlugChar(rest[0])
    ensures Words(w + "-" + rest) == [w] + Words(rest)
  {
    var x := "-" + rest;
    WordLengthOfWordThen(w, x);
    assert w + "-" + rest == w + x;
    assert GapLength(x) == 1;
    assert x[1..] == rest;
  }

  lemma {:induction false} SlugIsLowerCase(s: string)
    requires IsSlug(s)
    ensures ToLowerCase(s) == s
  {
    assert forall i :: 0 <= i < |s| ==> !IsAsciiUpper(s[i]);
  }

  /** A non-empty key is a fixed point: normalizing it again changes nothing. */
  lemma NormalizeVariantIdempotent(value: Option<string>)
    requires NormalizeVariant(value) != ""
    ensures NormalizeVariant(Some(NormalizeVariant(value))) == NormalizeVariant(value)
  {
    var key := NormalizeVariant(value);
    var ws := Words(ToLowerCase(RequestedName(value)));
    NormalizeIsJoinOfWords(value);
    NormalizeIsJoinOfWords(Some(key));
    JoinIsSlug(ws);
    SlugIsLowerCase(key);
    WordsOfJoin(ws);
  }

  /** Every name spelled as words joined by single hyphens selects itself. */
  lemma NormalizeJoinedWords(ws: seq<string>)
    requires ws != []
    requires forall k :: 0 <= k < |ws| ==> IsWord(ws[k])
    ensures NormalizeVariant(Some(JoinWithHyphens(ws))) == JoinWithHyphens(ws)
  {
    var key := JoinWithHyphens(ws);
    JoinIsSlug(ws);
    NormalizeIsJoinOfWords(Some(key));
    SlugIsLowerCase(key);
    WordsOfJoin(ws);
  }
}
