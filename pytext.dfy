/** The parts of Python's `str` the pipeline relies on: the whitespace class
    (used alike by `str.strip()`, `str.split()` and the regex class `\s`),
    the regex word class `\w`, stripping, splitting on whitespace and
    `" ".join`. */
module PyText {
  import opened Shared

  /** `str.isspace()`: the characters Python strips and splits on, and that `\s` matches. */
  predicate IsSpace(c: char) {
    || c == ' '
    || ('\t' <= c <= '\r')
    || ('\U{1C}' <= c <= '\U{1F}')
    || c == '\U{85}' || c == '\U{A0}' || c == '\U{1680}'
    || ('\U{2000}' <= c <= '\U{200A}')
    || c == '\U{2028}' || c == '\U{2029}' || c == '\U{202F}' || c == '\U{205F}' || c == '\U{3000}'
  }

  /** The regex class `\w` on the Latin-1 range: letters, digits and other
      numeric characters, and `_`. Word characters beyond U+00FF are not
      enumerated (README, "Left out"). */
  predicate IsWordChar(c: char) {
    || ('0' <= c <= '9') || ('A' <= c <= 'Z') || ('a' <= c <= 'z') || c == '_'
    || c == '\U{AA}' || c == '\U{B2}' || c == '\U{B3}' || c == '\U{B5}' || c == '\U{B9}' || c == '\U{BA}'
    || ('\U{BC}' <= c <= '\U{BE}')
    || ('\U{C0}' <= c <= '\U{D6}') || ('\U{D8}' <= c <= '\U{F6}') || ('\U{F8}' <= c <= '\U{FF}')
  }

  lemma SpaceIsNotWord(c: char)
    ensures IsSpace(c) ==> !IsWordChar(c)
  {
  }

  /** `s.lstrip()`: the suffix left after dropping the leading whitespace. */
  function StripStart(s: string): (r: string)
    ensures |r| <= |s| && r == s[|s| - |r|..]
    ensures forall k :: 0 <= k < |s| - |r| ==> IsSpace(s[k])
    ensures r != [] ==> !IsSpace(r[0])
  {
    if s != [] && IsSpace(s[0]) then StripStart(s[1..]) else s
  }

  /** `s.rstrip()`: the prefix left after dropping the trailing whitespace. */
  function StripEnd(s: string): (r: string)
    ensures |r| <= |s| && r == s[..|r|]
    ensures forall k :: |r| <= k < |s| ==> IsSpace(s[k])
    ensures r != [] ==> !IsSpace(r[|r| - 1])
  {
    if s != [] && IsSpace(s[|s| - 1]) then StripEnd(s[..|s| - 1]) else s
  }

  /** `s.strip()`. */
  function Strip(s: string): string {
    StripEnd(StripStart(s))
  }

  /** `r` is `s[i..j]`, everything outside [i, j) is whitespace, and `r`
      neither starts nor ends with whitespace. */
  predicate IsTrimmedSlice(s: string, r: string, i: int, j: int) {
    && 0 <= i <= j <= |s| && r == s[i..j]
    && (forall k :: 0 <= k < i ==> IsSpace(s[k]))
    && (forall k :: j <= k < |s| ==> IsSpace(s[k]))
    && (r != [] ==> !IsSpace(r[0]) && !IsSpace(r[|r| - 1]))
  }

  /** `s.strip()` is the slice of `s` between its first and last
      non-whitespace characters: everything cut away is whitespace, and the
      result neither starts nor ends with whitespace. */
  lemma StripIsTrimmedSlice(s: string)
    ensures exists i, j :: IsTrimmedSlice(s, Strip(s), i, j)
  {
    TrimmedOfTrimmed(s, StripStart(s), Strip(s));
  }

  /** The shape of `strip()`: a suffix `t` of `s` after leading whitespace,
      then a prefix `r` of `t` before trailing whitespace, is a trimmed slice of `s`. */
  lemma TrimmedOfTrimmed(s: string, t: string, r: string)
    requires |t| <= |s| && t == s[|s| - |t|..]
    requires forall k :: 0 <= k < |s| - |t| ==> IsSpace(s[k])
    requires t != [] ==> !IsSpace(t[0])
    requires |r| <= |t| && r == t[..|r|]
    requires forall k :: |r| <= k < |t| ==> IsSpace(t[k])
    requires r != [] ==> !IsSpace(r[|r| - 1])
    ensures exists i, j :: IsTrimmedSlice(s, r, i, j)
  {
    var i := |s| - |t|;
    forall k | i + |r| <= k < |s|
      ensures IsSpace(s[k])
    {
      assert s[k] == t[k - i];
    }
    assert IsTrimmedSlice(s, r, i, i + |r|);
  }

  /** Index of the first whitespace character at or after `i`, or |s|. */
  function WordEnd(s: string, i: nat): (j: nat)
    requires i <= |s|
    ensures i <= j <= |s|
    ensures forall k :: i <= k < j ==> !IsSpace(s[k])
    ensures j < |s| ==> IsSpace(s[j])
    decreases |s| - i
  {
    if i == |s| || IsSpace(s[i]) then i else WordEnd(s, i + 1)
  }

  /** A word of `str.split()`: non-empty and without whitespace. */
  predicate IsWord(w: string) {
    w != [] && forall k :: 0 <= k < |w| ==> !IsSpace(w[k])
  }

  /** `s.split()`: the maximal runs of non-whitespace characters, in order. */
  function Split(s: string): (ws: seq<string>)
    ensures forall k :: 0 <= k < |ws| ==> IsWord(ws[k])
    decreases |s|
  {
    var t := StripStart(s);
    if t == [] then []
    else
      var k := WordEnd(t, 0);
      FirstWord(t);
      var rest := Split(t[k..]);
      ConsWords(t[..k], rest);
      [t[..k]] + rest
  }

  /** The run up to the first whitespace of a text that starts with a
      non-whitespace character is a word. */
  lemma FirstWord(t: string)
    requires t != [] && !IsSpace(t[0])
    ensures 0 < WordEnd(t, 0) && IsWord(t[..WordEnd(t, 0)])
  {
  }

  lemma ConsWords(w: string, ws: seq<string>)
    requires IsWord(w) && forall k :: 0 <= k < |ws| ==> IsWord(ws[k])
    ensures forall k :: 0 <= k < |[w] + ws| ==> IsWord(([w] + ws)[k])
  {
  }

  /** `len(s.split())`. */
  function WordCount(s: string): nat {
    |Split(s)|
  }

  /** `" ".join(ws)`. */
  function Join(ws: seq<string>): string {
    if ws == [] then ""
    else if |ws| == 1 then ws[0]
    else ws[0] + " " + Join(ws[1..])
  }

  lemma StripStartOfWordStart(w: string, rest: string)
    requires w != [] && !IsSpace(w[0])
    ensures StripStart(w + rest) == w + rest
  {
  }

  lemma StripStartAfterSpace(rest: string)
    ensures StripStart(" " + rest) == StripStart(rest)
  {
    assert (" " + rest)[1..] == rest;
  }

  lemma WordEndOfWord(w: string, rest: string)
    requires IsWord(w)
    requires rest == [] || IsSpace(rest[0])
    ensures WordEnd(w + rest, 0) == |w|
  {
    var s := w + rest;
    var i := |w|;
    assert WordEnd(s, i) == i;
    while i > 0
      invariant 0 <= i <= |w| && WordEnd(s, i) == |w|
    {
      i := i - 1;
      assert s[i] == w[i];
    }
  }

  /** A word followed by whitespace (or nothing) is the first word of the split. */
  lemma SplitCons(w: string, rest: string)
    requires IsWord(w)
    requires rest == [] || IsSpace(rest[0])
    ensures Split(w + rest) == [w] + Split(rest)
  {
    var s := w + rest;
    StripStartOfWordStart(w, rest);
    WordEndOfWord(w, rest);
    assert s[..|w|] == w;
    assert s[|w|..] == rest;
  }

  lemma SplitAfterSpace(rest: string)
    ensures Split(" " + rest) == Split(rest)
  {
    StripStartAfterSpace(rest);
  }

  /** One word joined on its own splits back into itself. */
  lemma SplitJoinOne(w: string)
    requires IsWord(w)
    ensures Split(Join([w])) == [w]
  {
    SplitCons(w, "");
    assert w + "" == w;
  }

  /** The step of SplitJoin: a word, a space and the joined rest split into
      the word followed by the split of the rest. */
  lemma SplitJoinStep(ws: seq<string>)
    requires |ws| > 1 && IsWord(ws[0])
    ensures Split(Join(ws)) == [ws[0]] + Split(Join(ws[1..]))
  {
    var tail := " " + Join(ws[1..]);
    assert Join(ws) == ws[0] + tail;
    SplitCons(ws[0], tail);
    SplitAfterSpace(Join(ws[1..]));
  }

  /** Splitting the joined words gives the words back: `" ".join` and
      `str.split()` are inverse on lists of words. */
  lemma {:induction false} SplitJoin(ws: seq<string>)
    requires forall k :: 0 <= k < |ws| ==> IsWord(ws[k])
    ensures Split(Join(ws)) == ws
  {
    if |ws| == 1 {
      SplitJoinOne(ws[0]);
    } else if |ws| > 1 {
      SplitJoinStep(ws);
      SplitJoin(ws[1..]);
      HeadTail(ws);
    }
  }

  /** Joining n words takes at least 2n - 1 characters (one per word, one per separator). */
  lemma {:induction false} JoinLength(ws: seq<string>)
    requires forall k :: 0 <= k < |ws| ==> IsWord(ws[k])
    ensures |Join(ws)| >= 2 * |ws| - 1
  {
    if |ws| > 1 {
      JoinLength(ws[1..]);
    }
  }

  /** The characters of `s` that satisfy `p`, in order. */
  function Keep(s: string, p: char -> bool): (r: string)
    ensures |r| <= |s|
  {
    if s == [] then [] else (if p(s[0]) then [s[0]] else []) + Keep(s[1..], p)
  }

  lemma {:induction false} KeepAppend(a: string, b: string, p: char -> bool)
    ensures Keep(a + b, p) == Keep(a, p) + Keep(b, p)
  {
    if a != [] {
      assert (a + b)[0] == a[0];
      assert (a + b)[1..] == a[1..] + b;
      KeepAppend(a[1..], b, p);
    } else {
      assert a + b == b;
    }
  }

  /** Filtering keeps the count of every character it lets through. */
  lemma {:induction false} KeepCount(s: string, p: char -> bool, c: char)
    requires p(c)
    ensures multiset(Keep(s, p))[c] == multiset(s)[c]
  {
    if s != [] {
      KeepCount(s[1..], p, c);
      HeadTail(s);
    }
  }

  /** Two texts that agree once the characters failing `p` are removed have
      the same count of every character satisfying `p`. */
  lemma SameKeptSameCount(s: string, t: string, p: char -> bool, c: char)
    requires p(c) && Keep(s, p) == Keep(t, p)
    ensures multiset(s)[c] == multiset(t)[c]
  {
    KeepCount(s, p, c);
    KeepCount(t, p, c);
  }

  /** Stripping removes only whitespace, so it keeps the count of every other character. */
  lemma StripKeepsCount(s: string, c: char)
    requires !IsSpace(c)
    ensures multiset(Strip(s))[c] == multiset(s)[c]
  {
    var t := StripStart(s);
    var r := StripEnd(t);
    var i := |s| - |t|;
    SplitAt(s, i);
    SpacesOnly(s, 0, i, c);
    SplitAt(t, |r|);
    SpacesOnly(t, |r|, |t|, c);
  }

  /** A stretch of whitespace holds no non-whitespace character. */
  lemma SpacesOnly(s: string, lo: nat, hi: nat, c: char)
    requires lo <= hi <= |s| && !IsSpace(c)
    requires forall k :: lo <= k < hi ==> IsSpace(s[k])
    ensures multiset(s[lo..hi])[c] == 0
  {
    assert forall k :: 0 <= k < hi - lo ==> s[lo..hi][k] == s[lo + k];
  }
}
