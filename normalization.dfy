/**
 * The customer-name normalisation of the order handler: every maximal run of whitespace
 * is replaced by one space (`preg_replace('/\s+/', ' ', name)`), then PHP's `trim` runs.
 * The regular expression has no `u` flag, so `\s` is PCRE's ASCII whitespace class;
 * `trim` strips PHP's default character list.
 */
module NameNormalization {

  /** PCRE `\s` outside UTF mode: space, tab, line feed, vertical tab, form feed, carriage return. */
  predicate IsPcreSpace(c: char) {
    c == ' ' || c == '\t' || c == '\n' || c == '\U{0B}' || c == '\U{0C}' || c == '\r'
  }

  /** The characters PHP's `trim` strips by default: " \t\n\r\0\x0B" (form feed is not among them). */
  predicate IsTrimmable(c: char) {
    c == ' ' || c == '\t' || c == '\n' || c == '\r' || c == '\0' || c == '\U{0B}'
  }

  predicate IsAsciiLetter(c: char) {
    ('A' <= c <= 'Z') || ('a' <= c <= 'z')
  }

  /** Every whitespace character of `s` is a plain space. */
  ghost predicate WhitespaceIsSpace(s: string) {
    forall i | 0 <= i < |s| :: IsPcreSpace(s[i]) ==> s[i] == ' '
  }

  /** No two spaces stand next to each other in `s`. */
  ghost predicate NoAdjacentSpaces(s: string) {
    forall i, j | 0 <= i < j < |s| && j == i + 1 :: !(s[i] == ' ' && s[j] == ' ')
  }

  /** The ASCII letters of `s`, in order. */
  function Letters(s: string): (r: string) {
    if s == [] then []
    else if IsAsciiLetter(s[0]) then [s[0]] + Letters(s[1..])
    else Letters(s[1..])
  }

  /** What remains of `s` once the whitespace at its front has been consumed. */
  function SkipSpaces(s: string): (r: string)
    ensures |r| <= |s|
    ensures r != [] ==> !IsPcreSpace(r[0])
  {
    if s != [] && IsPcreSpace(s[0]) then SkipSpaces(s[1..]) else s
  }

  /** `SkipSpaces` removes a prefix. */
  lemma {:induction false} SkipSpacesIsSuffix(s: string)
    ensures SkipSpaces(s) == s[|s| - |SkipSpaces(s)|..]
  {
    if s != [] && IsPcreSpace(s[0]) {
      SkipSpacesIsSuffix(s[1..]);
      assert s[1..][|s| - 1 - |SkipSpaces(s)|..] == s[|s| - |SkipSpaces(s)|..];
    }
  }

  /** `preg_replace('/\s+/', ' ', s)`: every maximal run of whitespace becomes one space. */
  function Collapse(s: string): (r: string)
    decreases |s|
    ensures |r| <= |s|
    ensures r == [] <==> s == []
    ensures r != [] ==> (r[0] == ' ' <==> IsPcreSpace(s[0]))
  {
    if s == [] then []
    else if IsPcreSpace(s[0]) then [' '] + Collapse(SkipSpaces(s[1..]))
    else [s[0]] + Collapse(s[1..])
  }

  /** After the collapse, whitespace is only ever a single plain space. */
  lemma {:induction false} CollapseSingleSpaced(s: string)
    decreases |s|
    ensures WhitespaceIsSpace(Collapse(s)) && NoAdjacentSpaces(Collapse(s))
  {
    if s != [] {
      var t := if IsPcreSpace(s[0]) then SkipSpaces(s[1..]) else s[1..];
      assert t != [] && IsPcreSpace(s[0]) ==> !IsPcreSpace(t[0]);
      CollapseSingleSpaced(t);
      var c := Collapse(t);
      var r := Collapse(s);
      assert r == [r[0]] + c;
      assert r[0] == ' ' && c != [] ==> c[0] != ' ';
      forall i | 0 <= i < |r|
        ensures IsPcreSpace(r[i]) ==> r[i] == ' '
      {
        if i > 0 {
          assert r[i] == c[i - 1];
        }
      }
      forall i, j | 0 <= i < j < |r| && j == i + 1
        ensures !(r[i] == ' ' && r[j] == ' ')
      {
        assert r[j] == c[j - 1];
        if i > 0 {
          assert r[i] == c[i - 1];
        }
      }
    }
  }

  /** PHP `ltrim` with the default character list. */
  function TrimStart(s: string): (r: string)
    ensures |r| <= |s|
    ensures r != [] ==> !IsTrimmable(r[0])
  {
    if s != [] && IsTrimmable(s[0]) then TrimStart(s[1..]) else s
  }

  /** PHP `rtrim` with the default character list. */
  function TrimEnd(s: string): (r: string)
    ensures |r| <= |s|
    ensures r != [] ==> !IsTrimmable(r[|r| - 1])
  {
    if s != [] && IsTrimmable(s[|s| - 1]) then TrimEnd(s[..|s| - 1]) else s
  }

  /** `ltrim` removes a prefix. */
  lemma {:induction false} TrimStartIsSuffix(s: string)
    ensures TrimStart(s) == s[|s| - |TrimStart(s)|..]
  {
    if s != [] && IsTrimmable(s[0]) {
      TrimStartIsSuffix(s[1..]);
      assert s[1..][|s| - 1 - |TrimStart(s)|..] == s[|s| - |TrimStart(s)|..];
    }
  }

  /** `rtrim` removes a suffix. */
  lemma {:induction false} TrimEndIsPrefix(s: string)
    ensures TrimEnd(s) == s[..|TrimEnd(s)|]
  {
    if s != [] && IsTrimmable(s[|s| - 1]) {
      TrimEndIsPrefix(s[..|s| - 1]);
      assert s[..|s| - 1][..|TrimEnd(s)|] == s[..|TrimEnd(s)|];
    }
  }

  /** `ltrim` stops at the first character outside the default list. */
  lemma {:induction false} TrimStartStopsAt(s: string, i: nat)
    requires i < |s| && !IsTrimmable(s[i])
    ensures |s| - |TrimStart(s)| <= i
  {
    if IsTrimmable(s[0]) {
      TrimStartStopsAt(s[1..], i - 1);
    }
  }

  /** `rtrim` stops at the last character outside the default list. */
  lemma {:induction false} TrimEndStopsAt(s: string, i: nat)
    requires i < |s| && !IsTrimmable(s[i])
    ensures i < |TrimEnd(s)|
  {
    if IsTrimmable(s[|s| - 1]) {
      TrimEndStopsAt(s[..|s| - 1], i);
    }
  }

  /** PHP `trim` with the default character list. */
  function Trim(s: string): (r: string)
    ensures |r| <= |s|
  {
    TrimEnd(TrimStart(s))
  }

  /** How many characters `trim` removes from the front of `s`. */
  function TrimOffset(s: string): (k: nat)
    ensures k <= |s|
  {
    |s| - |TrimStart(s)|
  }

  /** `trim` keeps a contiguous slice of `s`. */
  lemma TrimIsSlice(s: string)
    ensures TrimOffset(s) + |Trim(s)| <= |s|
    ensures Trim(s) == s[TrimOffset(s)..TrimOffset(s) + |Trim(s)|]
  {
    var u, k, r := TrimStart(s), TrimOffset(s), Trim(s);
    TrimStartIsSuffix(s);
    TrimEndIsPrefix(u);
    PrefixOfSuffix(s, k, |r|);
  }

  /** Taking `n` characters of the suffix from `k` is the slice `k..k + n`. */
  lemma PrefixOfSuffix(s: string, k: nat, n: nat)
    requires k + n <= |s|
    ensures s[k..][..n] == s[k..k + n]
  {
  }

  /** What `trim` keeps neither starts nor ends with a character of the default list. */
  lemma TrimEnds(s: string)
    ensures var r := Trim(s);
      r != [] ==> !IsTrimmable(r[0]) && !IsTrimmable(r[|r| - 1])
  {
    var u := TrimStart(s);
    TrimEndIsPrefix(u);
    assert Trim(s) != [] ==> Trim(s)[0] == u[0];
  }

  /** `trim` never removes a character outside its list: such a character lies inside the kept slice. */
  lemma TrimKeepsInnerCharacter(s: string, i: nat)
    requires i < |s| && !IsTrimmable(s[i])
    ensures TrimOffset(s) <= i < TrimOffset(s) + |Trim(s)|
  {
    var u := TrimStart(s);
    var k := TrimOffset(s);
    TrimStartStopsAt(s, i);
    TrimStartIsSuffix(s);
    assert u[i - k] == s[i];
    TrimEndStopsAt(u, i - k);
  }

  /** The stored form of a customer name. */
  function Normalize(s: string): (r: string)
    ensures |r| <= |s|
  {
    Trim(Collapse(s))
  }

  /**
   * A normalised name is single-spaced: its only whitespace is plain spaces, never two in
   * a row, and never at either end.
   */
  lemma NormalizeSingleSpaced(s: string)
    ensures var r := Normalize(s);
      && WhitespaceIsSpace(r) && NoAdjacentSpaces(r)
      && (r != [] ==> !IsPcreSpace(r[0]) && !IsPcreSpace(r[|r| - 1]))
  {
    var c := Collapse(s);
    var r := Normalize(s);
    CollapseSingleSpaced(s);
    TrimIsSlice(c);
    TrimEnds(c);
    var k := TrimOffset(c);
    assert forall i | 0 <= i < |r| :: r[i] == c[k + i];
    assert WhitespaceIsSpace(r);
    assert NoAdjacentSpaces(r) by {
      forall i, j | 0 <= i < j < |r| && j == i + 1
        ensures !(r[i] == ' ' && r[j] == ' ')
      {
        assert r[i] == c[k + i] && r[j] == c[k + j];
      }
    }
  }

  /** `Letters` distributes over concatenation. */
  lemma {:induction false} LettersAppend(a: string, b: string)
    ensures Letters(a + b) == Letters(a) + Letters(b)
  {
    if a == [] {
      assert a + b == b;
    } else {
      assert (a + b)[0] == a[0];
      assert (a + b)[1..] == a[1..] + b;
      LettersAppend(a[1..], b);
    }
  }

  /** Consuming leading whitespace removes no letter. */
  lemma {:induction false} SkipSpacesKeepsLetters(s: string)
    ensures Letters(SkipSpaces(s)) == Letters(s)
  {
    if s != [] && IsPcreSpace(s[0]) {
      SkipSpacesKeepsLetters(s[1..]);
    }
  }

  /** `ltrim` removes no letter. */
  lemma {:induction false} TrimStartKeepsLetters(s: string)
    ensures Letters(TrimStart(s)) == Letters(s)
  {
    if s != [] && IsTrimmable(s[0]) {
      TrimStartKeepsLetters(s[1..]);
    }
  }

  /** `rtrim` removes no letter. */
  lemma {:induction false} TrimEndKeepsLetters(s: string)
    ensures Letters(TrimEnd(s)) == Letters(s)
  {
    if s != [] && IsTrimmable(s[|s| - 1]) {
      var m := |s| - 1;
      TrimEndKeepsLetters(s[..m]);
      assert s[..m] + [s[m]] == s;
      LettersAppend(s[..m], [s[m]]);
      assert [s[m]][1..] == [];
    }
  }

  /** Collapsing whitespace keeps the letters of the name, in their order. */
  lemma {:induction false} CollapseKeepsLetters(s: string)
    decreases |s|
    ensures Letters(Collapse(s)) == Letters(s)
  {
    if s != [] {
      var t := if IsPcreSpace(s[0]) then SkipSpaces(s[1..]) else s[1..];
      CollapseKeepsLetters(t);
      var head := if IsPcreSpace(s[0]) then ' ' else s[0];
      assert Collapse(s) == [head] + Collapse(t);
      assert ([head] + Collapse(t))[1..] == Collapse(t);
      if IsPcreSpace(s[0]) {
        SkipSpacesKeepsLetters(s[1..]);
      }
    }
  }

  /** Trimming removes no letter. */
  lemma TrimKeepsLetters(s: string)
    ensures Letters(Trim(s)) == Letters(s)
  {
    TrimStartKeepsLetters(s);
    TrimEndKeepsLetters(TrimStart(s));
  }

  /** The letters of a normalised name are those of the raw name, in the same order. */
  lemma NormalizeKeepsLetters(s: string)
    ensures Letters(Normalize(s)) == Letters(s)
  {
    CollapseKeepsLetters(s);
    TrimKeepsLetters(Collapse(s));
  }

  /** Every character of `s` is an ASCII letter or whitespace: the class `[A-Za-z\s]`. */
  predicate LettersAndWhitespace(s: string) {
    forall i | 0 <= i < |s| :: IsAsciiLetter(s[i]) || IsPcreSpace(s[i])
  }

  /** Every character of `s` is an ASCII letter or a plain space. */
  predicate LettersAndSpaces(s: string) {
    forall i | 0 <= i < |s| :: IsAsciiLetter(s[i]) || s[i] == ' '
  }

  /** A suffix of a string of letters and whitespace is one too. */
  lemma SuffixKeepsLettersAndWhitespace(s: string, k: nat)
    requires LettersAndWhitespace(s) && k <= |s|
    ensures LettersAndWhitespace(s[k..])
  {
  }

  /** Prefixing a letter or a space keeps a string of letters and spaces. */
  lemma ConsKeepsLettersAndSpaces(c: char, r: string)
    requires IsAsciiLetter(c) || c == ' '
    requires LettersAndSpaces(r)
    ensures LettersAndSpaces([c] + r)
  {
  }

  /** Collapsing a string of letters and whitespace leaves only letters and plain spaces. */
  lemma {:induction false} CollapseOfLettersAndWhitespace(s: string)
    requires LettersAndWhitespace(s)
    decreases |s|
    ensures LettersAndSpaces(Collapse(s))
  {
    if s == [] {
    } else if IsPcreSpace(s[0]) {
      var t := SkipSpaces(s[1..]);
      SkipSpacesIsSuffix(s[1..]);
      assert t == s[|s| - |t|..];
      SuffixKeepsLettersAndWhitespace(s, |s| - |t|);
      CollapseOfLettersAndWhitespace(t);
      ConsKeepsLettersAndSpaces(' ', Collapse(t));
    } else {
      SuffixKeepsLettersAndWhitespace(s, 1);
      CollapseOfLettersAndWhitespace(s[1..]);
      ConsKeepsLettersAndSpaces(s[0], Collapse(s[1..]));
    }
  }

  /** A name of letters and whitespace normalises to letters separated by single spaces, in their original order. */
  lemma NormalizeOfLettersAndWhitespace(s: string)
    requires LettersAndWhitespace(s)
    ensures LettersAndSpaces(Normalize(s)) && NoAdjacentSpaces(Normalize(s))
    ensures Letters(Normalize(s)) == Letters(s)
  {
    CollapseOfLettersAndWhitespace(s);
    var c := Collapse(s);
    TrimIsSlice(c);
    var k := TrimOffset(c);
    assert forall i | 0 <= i < |Trim(c)| :: Trim(c)[i] == c[k + i];
    NormalizeSingleSpaced(s);
    NormalizeKeepsLetters(s);
  }

  /** A string whose whitespace is already single spaces is left alone by the collapse. */
  lemma {:induction false} CollapseFixesSingleSpaced(s: string)
    requires WhitespaceIsSpace(s) && NoAdjacentSpaces(s)
    ensures Collapse(s) == s
  {
    if s != [] {
      if IsPcreSpace(s[0]) {
        assert s[1..] == [] || !IsPcreSpace(s[1]);
        assert SkipSpaces(s[1..]) == s[1..];
      }
      CollapseFixesSingleSpaced(s[1..]);
    }
  }

  /** A string with no trimmable character at either end is left alone by `trim`. */
  lemma TrimFixesTrimmed(s: string)
    requires s != [] ==> !IsTrimmable(s[0]) && !IsTrimmable(s[|s| - 1])
    ensures Trim(s) == s
  {
    assert TrimStart(s) == s;
  }

  /** A single-spaced string without whitespace at its ends is its own normal form. */
  lemma NormalizeFixesNormalForm(s: string)
    requires WhitespaceIsSpace(s) && NoAdjacentSpaces(s)
    requires s != [] ==> !IsTrimmable(s[0]) && !IsTrimmable(s[|s| - 1])
    ensures Normalize(s) == s
  {
    CollapseFixesSingleSpaced(s);
    TrimFixesTrimmed(s);
  }

  /** Normalising a normalised name changes nothing. */
  lemma NormalizeIdempotent(s: string)
    ensures Normalize(Normalize(s)) == Normalize(s)
  {
    NormalizeSingleSpaced(s);
    TrimEnds(Collapse(s));
    NormalizeFixesNormalForm(Normalize(s));
  }

  /** A non-empty run of whitespace. */
  predicate IsWhitespaceRun(s: string) {
    s != [] && forall i | 0 <= i < |s| :: IsPcreSpace(s[i])
  }

  /** A non-empty run of ASCII letters. */
  predicate IsWord(s: string) {
    s != [] && forall i | 0 <= i < |s| :: IsAsciiLetter(s[i])
  }

  /** A word passes through the collapse unchanged. */
  lemma {:induction false} CollapseWord(w: string, rest: string)
    requires forall i | 0 <= i < |w| :: IsAsciiLetter(w[i])
    ensures Collapse(w + rest) == w + Collapse(rest)
  {
    if w == [] {
      assert w + rest == rest;
    } else {
      assert (w + rest)[0] == w[0];
      assert (w + rest)[1..] == w[1..] + rest;
      CollapseWord(w[1..], rest);
    }
  }

  /** A run of whitespace followed by a non-whitespace character is consumed whole. */
  lemma {:induction false} SkipRun(run: string, rest: string)
    requires forall i | 0 <= i < |run| :: IsPcreSpace(run[i])
    requires rest == [] || !IsPcreSpace(rest[0])
    ensures SkipSpaces(run + rest) == rest
  {
    if run == [] {
      assert run + rest == rest;
    } else {
      assert (run + rest)[0] == run[0];
      assert (run + rest)[1..] == run[1..] + rest;
      SkipRun(run[1..], rest);
    }
  }

  /** A maximal run of whitespace becomes a single space. */
  lemma CollapseRun(run: string, rest: string)
    requires IsWhitespaceRun(run)
    requires rest == [] || !IsPcreSpace(rest[0])
    ensures Collapse(run + rest) == [' '] + Collapse(rest)
  {
    assert (run + rest)[0] == run[0];
    assert (run + rest)[1..] == run[1..] + rest;
    SkipRun(run[1..], rest);
  }

  /** A possibly empty run of whitespace. */
  predicate IsOptionalRun(s: string) {
    forall i | 0 <= i < |s| :: IsPcreSpace(s[i])
  }

  /** Every element of `words` is a word. */
  predicate AllWords(words: seq<string>) {
    forall i | 0 <= i < |words| :: IsWord(words[i])
  }

  /** Every element of `gaps` is a non-empty whitespace run. */
  predicate AllRuns(gaps: seq<string>) {
    forall i | 0 <= i < |gaps| :: IsWhitespaceRun(gaps[i])
  }

  /** The words with the runs of `gaps` between them: `words[0] + gaps[0] + words[1] + …`. */
  function Interleave(words: seq<string>, gaps: seq<string>): (r: string)
    requires |words| == |gaps| + 1
  {
    if |gaps| == 0 then words[0] else words[0] + gaps[0] + Interleave(words[1..], gaps[1..])
  }

  /** The words joined by single spaces. */
  function JoinWords(words: seq<string>): (r: string)
    requires words != []
  {
    if |words| == 1 then words[0] else words[0] + [' '] + JoinWords(words[1..])
  }

  /** Concatenation regrouped to the right. */
  lemma Regroup(a: string, b: string, c: string, d: string)
    ensures a + b + c + d == a + (b + (c + d))
  {
  }

  /** Interleaved words begin with the first letter of the first word. */
  lemma InterleaveStart(words: seq<string>, gaps: seq<string>)
    requires |words| == |gaps| + 1 && AllWords(words)
    ensures Interleave(words, gaps) != [] && Interleave(words, gaps)[0] == words[0][0]
  {
    assert IsWord(words[0]);
  }

  /** Words joined by single spaces begin and end with a letter. */
  lemma {:induction false} JoinWordsEnds(words: seq<string>)
    requires words != [] && AllWords(words)
    ensures var j := JoinWords(words);
      j != [] && IsAsciiLetter(j[0]) && IsAsciiLetter(j[|j| - 1])
  {
    assert IsWord(words[0]);
    if |words| > 1 {
      assert AllWords(words[1..]) by {
        forall i | 0 <= i < |words| - 1
          ensures IsWord(words[1..][i])
        {
          assert words[1..][i] == words[i + 1];
        }
      }
      JoinWordsEnds(words[1..]);
      var rest := JoinWords(words[1..]);
      var j := JoinWords(words);
      assert j == words[0] + [' '] + rest;
      assert j[|j| - 1] == rest[|rest| - 1];
    }
  }

  /** A possibly empty whitespace run collapses to nothing or to one space. */
  lemma CollapseOptionalRun(run: string)
    requires IsOptionalRun(run)
    ensures Collapse(run) == if run == [] then [] else [' ']
  {
    if run != [] {
      assert run + [] == run;
      CollapseRun(run, []);
    }
  }

  /** A possibly empty whitespace run before a non-whitespace character collapses on its own. */
  lemma CollapseRunBefore(run: string, rest: string)
    requires IsOptionalRun(run)
    requires rest != [] && !IsPcreSpace(rest[0])
    ensures Collapse(run + rest) == Collapse(run) + Collapse(rest)
  {
    CollapseOptionalRun(run);
    if run == [] {
      assert run + rest == rest;
    } else {
      CollapseRun(run, rest);
    }
  }

  /**
   * Words separated by whitespace runs collapse to the words joined by single spaces,
   * whatever follows them.
   */
  lemma {:induction false} CollapseInterleave(words: seq<string>, gaps: seq<string>, trail: string)
    requires |words| == |gaps| + 1 && AllWords(words) && AllRuns(gaps)
    decreases |gaps|
    ensures Collapse(Interleave(words, gaps) + trail) == JoinWords(words) + Collapse(trail)
  {
    var w := words[0];
    assert IsWord(w);
    if |gaps| == 0 {
      CollapseWord(w, trail);
    } else {
      var g := gaps[0];
      var x := Interleave(words[1..], gaps[1..]);
      var j := JoinWords(words[1..]);
      assert IsWhitespaceRun(g);
      assert AllWords(words[1..]) by {
        forall i | 0 <= i < |words| - 1
          ensures IsWord(words[1..][i])
        {
          assert words[1..][i] == words[i + 1];
        }
      }
      assert AllRuns(gaps[1..]) by {
        forall i | 0 <= i < |gaps| - 1
          ensures IsWhitespaceRun(gaps[1..][i])
        {
          assert gaps[1..][i] == gaps[i + 1];
        }
      }
      CollapseInterleave(words[1..], gaps[1..], trail);
      assert Collapse(g + (x + trail)) == [' '] + Collapse(x + trail) by {
        InterleaveStart(words[1..], gaps[1..]);
        assert (x + trail)[0] == x[0];
        CollapseRun(g, x + trail);
      }
      CollapseWord(w, g + (x + trail));
      Regroup(w, g, x, trail);
      Regroup(w, [' '], j, Collapse(trail));
    }
  }

  /** Trimming at most one space from each side of a string with non-trimmable ends gives the string back. */
  lemma TrimAround(pre: string, w: string, post: string)
    requires pre == [] || pre == [' ']
    requires post == [] || post == [' ']
    requires w != [] && !IsTrimmable(w[0]) && !IsTrimmable(w[|w| - 1])
    ensures Trim(pre + w + post) == w
  {
    assert TrimStart(pre + w + post) == w + post by {
      assert (w + post)[0] == w[0];
      if pre == [] {
        assert pre + w + post == w + post;
      } else {
        assert (pre + w + post)[0] == ' ';
        assert (pre + w + post)[1..] == w + post;
      }
    }
    assert TrimEnd(w + post) == w by {
      if post == [] {
        assert w + post == w;
      } else {
        assert (w + post)[..|w|] == w;
        assert (w + post)[|w|] == ' ';
      }
    }
  }

  /** Optional whitespace around a text that starts with a non-whitespace character collapses on its own. */
  lemma CollapseAround(lead: string, x: string, trail: string)
    requires IsOptionalRun(lead)
    requires x != [] && !IsPcreSpace(x[0])
    ensures Collapse(lead + x + trail) == Collapse(lead) + Collapse(x + trail)
  {
    assert (x + trail)[0] == x[0];
    CollapseRunBefore(lead, x + trail);
    assert lead + x + trail == lead + (x + trail);
  }

  /**
   * A text that starts and ends with a letter and collapses to `j`, with optional
   * whitespace around it, normalises to `j`.
   */
  lemma NormalizeAround(lead: string, x: string, trail: string, j: string)
    requires IsOptionalRun(lead) && IsOptionalRun(trail)
    requires x != [] && !IsPcreSpace(x[0])
    requires Collapse(x + trail) == j + Collapse(trail)
    requires j != [] && IsAsciiLetter(j[0]) && IsAsciiLetter(j[|j| - 1])
    ensures Normalize(lead + x + trail) == j
  {
    var pre, post := Collapse(lead), Collapse(trail);
    CollapseAround(lead, x, trail);
    assert pre + (j + post) == pre + j + post;
    CollapseOptionalRun(lead);
    CollapseOptionalRun(trail);
    TrimAround(pre, j, post);
  }

  /**
   * Words separated by whitespace runs, with or without whitespace before and after them,
   * normalise to the words joined by single spaces: every run between two words becomes
   * exactly one space and the runs at the ends disappear.
   */
  lemma NormalizeWords(lead: string, words: seq<string>, gaps: seq<string>, trail: string)
    requires |words| == |gaps| + 1 && AllWords(words) && AllRuns(gaps)
    requires IsOptionalRun(lead) && IsOptionalRun(trail)
    ensures Normalize(lead + Interleave(words, gaps) + trail) == JoinWords(words)
  {
    var x, j := Interleave(words, gaps), JoinWords(words);
    CollapseInterleave(words, gaps, trail);
    InterleaveStart(words, gaps);
    JoinWordsEnds(words);
    NormalizeAround(lead, x, trail, j);
  }

  /** Two words with whitespace around and between them normalise to the words joined by one space. */
  lemma NormalizeTwoWords(lead: string, first: string, gap: string, second: string, trail: string)
    requires IsOptionalRun(lead) && IsWhitespaceRun(gap) && IsOptionalRun(trail)
    requires IsWord(first) && IsWord(second)
    ensures Normalize(lead + first + gap + second + trail) == first + [' '] + second
  {
    var words, gaps := [first, second], [gap];
    assert words[1..] == [second] && gaps[1..] == [];
    assert Interleave(words, gaps) == first + gap + second;
    assert JoinWords(words) == first + [' '] + second;
    assert lead + first + gap + second + trail == lead + (first + gap + second) + trail;
    NormalizeWords(lead, words, gaps, trail);
  }

  /** A name made only of whitespace normalises to the empty string. */
  lemma NormalizeWhitespaceRun(run: string)
    requires IsWhitespaceRun(run)
    ensures Normalize(run) == []
  {
    assert Collapse(run) == [' '] by {
      assert run + [] == run;
      CollapseRun(run, []);
    }
    assert TrimStart([' ']) == [] by {
      assert [' '][1..] == [];
    }
  }

  /** One word after whitespace normalises to the word alone. */
  lemma NormalizeIndentedWord(lead: string, word: string)
    requires IsOptionalRun(lead) && IsWord(word)
    ensures Normalize(lead + word) == word
  {
    assert Interleave([word], []) == word && JoinWords([word]) == word;
    assert lead + word + [] == lead + word;
    NormalizeWords(lead, [word], [], []);
  }

  /** Two words joined by one space are already in normal form. */
  lemma SpacedWordsNormalForm(first: string, second: string)
    requires IsWord(first) && IsWord(second)
    ensures LettersAndWhitespace(first + [' '] + second)
    ensures Normalize(first + [' '] + second) == first + [' '] + second
  {
    var s := first + [' '] + second;
    assert forall i | 0 <= i < |s| :: s[i] == ' ' || IsAsciiLetter(s[i]) by {
      forall i | 0 <= i < |s|
        ensures s[i] == ' ' || IsAsciiLetter(s[i])
      {
        if i < |first| {
          assert s[i] == first[i];
        } else if i > |first| {
          assert s[i] == second[i - |first| - 1];
        }
      }
    }
    assert s[0] == first[0] && s[|s| - 1] == second[|second| - 1];
    NormalizeFixesNormalForm(s);
  }

  /** The example of the submission form: surrounding and doubled spaces disappear. */
  lemma NormalizeExample(raw: string)
    requires raw == "  John   Smith "
    ensures Normalize(raw) == "John Smith"
  {
    var lead, first, gap, second, trail := "  ", "John", "   ", "Smith", " ";
    assert raw == lead + first + gap + second + trail;
    assert first + [' '] + second == "John Smith";
    assert IsOptionalRun(lead) && IsWhitespaceRun(gap) && IsOptionalRun(trail);
    assert IsWord(first) && IsWord(second);
    NormalizeTwoWords(lead, first, gap, second, trail);
  }

  /** A doubled space between two words becomes a single space. */
  lemma NormalizeDoubleSpaceExample(raw: string)
    requires raw == "John  Smith"
    ensures Normalize(raw) == "John Smith"
  {
    var first, gap, second := "John", "  ", "Smith";
    assert raw == [] + first + gap + second + [];
    assert first + [' '] + second == "John Smith";
    assert IsOptionalRun([]) && IsWhitespaceRun(gap);
    assert IsWord(first) && IsWord(second);
    NormalizeTwoWords([], first, gap, second, []);
  }
}
