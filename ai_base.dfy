/** ai/ai_base.py: the text repair both personas apply to model output
    (`fix_encoding`, `_clean_json`) and the memory dictionary every AI holds
    (`save_to_memory`, `get_from_memory`, `update_memory`, `model_url`). */
module AiBase {
  import opened Shared
  import opened PyText
  import opened Utf8

  // ---------------------------------------------------------------------
  // fix_encoding
  // ---------------------------------------------------------------------

  /** The code points of a Dafny string (which never holds a lone surrogate). */
  function Cps(s: string): (t: seq<CodePoint>)
    ensures |t| == |s| && NoSurrogates(t)
    ensures forall i :: 0 <= i < |s| ==> t[i] == s[i] as int
  {
    seq(|s|, i requires 0 <= i < |s| => s[i] as int)
  }

  /** The string of surrogate-free code points. */
  function Chars(t: seq<CodePoint>): (s: string)
    requires NoSurrogates(t)
    ensures |s| == |t| && forall i :: 0 <= i < |t| ==> s[i] as int == t[i]
  {
    seq(|t|, i requires 0 <= i < |t| => t[i] as char)
  }

  /** Whether the first pair, `text.encode('latin1').decode('utf-8')`, succeeds. */
  predicate FirstPairDecodes(t: seq<CodePoint>) {
    IsLatin1(t) && Decode(Latin1Encode(t)).Some?
  }

  /** `BaseAI.fix_encoding` on Python text, lone surrogates included. The
      pairs are tried in order and the first that raises nothing wins:
      ('latin1', 'utf-8') fails on a code point above U+00FF or on bytes that
      are not UTF-8; ('utf-8', 'latin1') fails only on a lone surrogate;
      ('cp1252', 'utf-8') is then tried on text holding a lone surrogate,
      which cp1252 cannot encode either (Cp1252FailsWhereReached), so the
      text comes back unchanged. */
  function FixEncodingCps(t: seq<CodePoint>): (r: seq<CodePoint>)
    ensures NoSurrogates(t) ==> NoSurrogates(r)
  {
    if FirstPairDecodes(t) then Decode(Latin1Encode(t)).value
    else if NoSurrogates(t) then Latin1Decode(Encode(t))
    else t
  }

  /** `BaseAI.fix_encoding` on a string. */
  function FixEncoding(s: string): string {
    Chars(FixEncodingCps(Cps(s)))
  }

  /** The characters the Windows-1252 codec of Python can encode: ASCII,
      U+00A0..U+00FF and the 27 characters it places at 0x80..0x9F. */
  predicate Cp1252Encodable(c: int) {
    || 0 <= c < 0x80 || 0xA0 <= c <= 0xFF
    || c in {0x20AC, 0x201A, 0x0192, 0x201E, 0x2026, 0x2020, 0x2021, 0x02C6, 0x2030,
             0x0160, 0x2039, 0x0152, 0x017D, 0x2018, 0x2019, 0x201C, 0x201D, 0x2022,
             0x2013, 0x2014, 0x02DC, 0x2122, 0x0161, 0x203A, 0x0153, 0x017E, 0x0178}
  }

  /** The third pair is reached only on text with a lone surrogate, which it
      cannot encode; such text comes back unchanged. */
  lemma Cp1252FailsWhereReached(t: seq<CodePoint>)
    requires !FirstPairDecodes(t) && !NoSurrogates(t)
    ensures exists i :: 0 <= i < |t| && !Cp1252Encodable(t[i])
    ensures FixEncodingCps(t) == t
  {
    var i :| 0 <= i < |t| && IsSurrogate(t[i]);
    assert !Cp1252Encodable(t[i]);
  }

  lemma SameInts(a: seq<int>, b: seq<int>)
    requires |a| == |b| && forall i :: 0 <= i < |a| ==> a[i] == b[i]
    ensures a == b
  {
  }

  /** ASCII text passes through `fix_encoding` unchanged. */
  lemma FixEncodingKeepsAscii(s: string)
    requires forall i :: 0 <= i < |s| ==> s[i] < '\U{80}'
    ensures FixEncoding(s) == s
  {
    var t := Cps(s);
    var bs := Latin1Encode(t);
    DecodeAscii(bs);
    SameInts(Decode(bs).value, t);
    assert FixEncodingCps(t) == t;
  }

  /** When the first pair fails on `s`, the result is Latin-1 text whose bytes
      are exactly the UTF-8 encoding of `s`. */
  lemma FixEncodingFallback(s: string)
    requires !FirstPairDecodes(Cps(s))
    ensures IsLatin1(Cps(FixEncoding(s)))
    ensures Latin1Encode(Cps(FixEncoding(s))) == Encode(Cps(s))
  {
    var u := Latin1Decode(Encode(Cps(s)));
    assert FixEncodingCps(Cps(s)) == u;
    SameInts(Cps(Chars(u)), u);
  }

  /** Applying `fix_encoding` to the result of its fallback gives the
      original text back: the function toggles between the two forms rather
      than settling (see FixEncodingExample). */
  lemma FixEncodingUndoesFallback(s: string)
    requires !FirstPairDecodes(Cps(s))
    ensures FixEncoding(FixEncoding(s)) == s
  {
    var t := Cps(s);
    var u := Latin1Decode(Encode(t));
    assert FixEncodingCps(t) == u;
    var s1 := FixEncoding(s);
    SameInts(Cps(s1), u);
    SameInts(Latin1Encode(u), Encode(t));
    DecodeEncode(t);
    assert FirstPairDecodes(u);
    assert FixEncodingCps(Cps(s1)) == t;
    assert Chars(t) == s;
  }

  /** "é" becomes "Ã©", and "Ã©" becomes "é" again. */
  lemma FixEncodingExample()
    ensures FixEncoding("\U{E9}") == "\U{C3}\U{A9}"
    ensures FixEncoding("\U{C3}\U{A9}") == "\U{E9}"
  {
    var t := Cps("\U{E9}");
    assert t == [0xE9];
    assert HeadLength(Latin1Encode(t)) == 0;
    assert !FirstPairDecodes(t);
    assert Encode(t) == [0xC3, 0xA9];
    FixEncodingFallback("\U{E9}");
    assert Cps(FixEncoding("\U{E9}")) == [0xC3, 0xA9];
    FixEncodingUndoesFallback("\U{E9}");
  }

  lemma {:induction false} CharCountIsCodePointCount(s: string, t: seq<int>, c: char)
    requires |t| == |s| && forall i :: 0 <= i < |s| ==> t[i] == s[i] as int
    ensures multiset(s)[c] == multiset(t)[c as int]
  {
    if s != [] {
      CharCountIsCodePointCount(s[1..], t[1..], c);
      HeadTail(s);
      HeadTail(t);
    }
  }

  /** `fix_encoding` keeps the count of every ASCII code point. */
  lemma FixEncodingCpsKeepsAsciiCount(t: seq<CodePoint>, v: int)
    requires 0 <= v < 0x80
    ensures multiset(FixEncodingCps(t))[v] == multiset(t)[v]
  {
    if FirstPairDecodes(t) {
      var bs := Latin1Encode(t);
      DecodeKeepsAsciiCount(bs, v);
      SameInts(bs, t);
    } else if NoSurrogates(t) {
      var bs := Encode(t);
      EncodeKeepsAsciiCount(t, v);
      SameInts(Latin1Decode(bs), bs);
    }
  }

  lemma FixEncodingKeepsAsciiCount(s: string, c: char)
    requires c < '\U{80}'
    ensures multiset(FixEncoding(s))[c] == multiset(s)[c]
  {
    var u := FixEncodingCps(Cps(s));
    CharCountIsCodePointCount(FixEncoding(s), u, c);
    FixEncodingCpsKeepsAsciiCount(Cps(s), c as int);
    CharCountIsCodePointCount(s, Cps(s), c);
  }

  // ---------------------------------------------------------------------
  // _clean_json: strip, code fences, bare keys, trailing commas, encoding
  // ---------------------------------------------------------------------

  predicate HasAt(s: string, i: nat, p: string) {
    i + |p| <= |s| && s[i..i + |p|] == p
  }

  /** Where `^` matches under re.MULTILINE. */
  predicate AtLineStart(s: string, i: nat)
    requires i <= |s|
  {
    i == 0 || s[i - 1] == '\n'
  }

  /** Where `$` matches under re.MULTILINE: at the end or before a newline. */
  predicate AtLineEnd(s: string, i: nat) {
    i == |s| || (i < |s| && s[i] == '\n')
  }

  /** The characters a code-fence match can consist of. */
  predicate IsFenceChar(c: char) {
    c == '`' || c == 'j' || c == 's' || c == 'o' || c == 'n' || c == '\n'
  }

  predicate NotFenceChar(c: char) {
    !IsFenceChar(c)
  }

  /** Length of the match of `^```(?:json)?\n|```$` (re.MULTILINE) at `i`, 0
      when there is none; the first alternative is tried first, with "json"
      before without. */
  function FenceAt(s: string, i: nat): (n: nat)
    requires i < |s|
    ensures n == 0 || (3 <= n && i + n <= |s|)
    ensures forall k :: i <= k < i + n ==> IsFenceChar(s[k])
  {
    if AtLineStart(s, i) && HasAt(s, i, "```json\n") then 8
    else if AtLineStart(s, i) && HasAt(s, i, "```\n") then 4
    else if HasAt(s, i, "```") && AtLineEnd(s, i + 3) then 3
    else 0
  }

  /** `re.sub(r'^```(?:json)?\n|```$', '', s[i..], flags=re.MULTILINE)`, the
      anchors looking at the whole of `s`. */
  function StripFencesFrom(s: string, i: nat): string
    requires i <= |s|
    decreases |s| - i
  {
    if i == |s| then ""
    else
      var n := FenceAt(s, i);
      if n > 0 then StripFencesFrom(s, i + n) else [s[i]] + StripFencesFrom(s, i + 1)
  }

  function StripFences(s: string): string {
    StripFencesFrom(s, 0)
  }

  lemma KeepNone(s: string, p: char -> bool)
    requires forall k :: 0 <= k < |s| ==> !p(s[k])
    ensures Keep(s, p) == []
  {
    if s != [] {
      KeepNone(s[1..], p);
    }
  }

  /** Removing fences deletes only fence characters: once those are filtered
      out, input and output agree. */
  lemma {:induction false} StripFencesDeletesOnlyFenceChars(s: string, i: nat)
    requires i <= |s|
    ensures Keep(StripFencesFrom(s, i), NotFenceChar) == Keep(s[i..], NotFenceChar)
    decreases |s| - i
  {
    if i < |s| {
      var n := FenceAt(s, i);
      if n > 0 {
        StripFencesDeletesOnlyFenceChars(s, i + n);
        KeepSkipsRun(s, i, n, StripFencesFrom(s, i + n), NotFenceChar);
      } else {
        StripFencesDeletesOnlyFenceChars(s, i + 1);
        KeepStep(s, i, StripFencesFrom(s, i + 1), NotFenceChar);
      }
    }
  }

  /** A run of characters the filter drops can be skipped: what agrees with
      the text after it agrees with the text from its start. */
  lemma KeepSkipsRun(s: string, i: nat, n: nat, out: string, p: char -> bool)
    requires i + n <= |s| && forall k :: i <= k < i + n ==> !p(s[k])
    requires Keep(out, p) == Keep(s[i + n..], p)
    ensures Keep(out, p) == Keep(s[i..], p)
  {
    SplitAt(s[i..], n);
    assert s[i..][..n] == s[i..i + n] && s[i..][n..] == s[i + n..];
    KeepAppend(s[i..i + n], s[i + n..], p);
    KeepNone(s[i..i + n], p);
  }

  /** Copying one character keeps agreement after filtering. */
  lemma KeepStep(s: string, i: nat, out: string, p: char -> bool)
    requires i < |s| && Keep(out, p) == Keep(s[i + 1..], p)
    ensures Keep([s[i]] + out, p) == Keep(s[i..], p)
  {
    HeadTail(s[i..]);
    assert s[i..][1..] == s[i + 1..];
    KeepCongruence([s[i]], out, s[i + 1..], p);
  }


  /** Index of the first character at or after `i` that fails `p`, or |s|:
      the end of a greedy `p*` run. */
  function SpanFrom(s: string, i: nat, p: char -> bool): (j: nat)
    requires i <= |s|
    ensures i <= j <= |s|
    decreases |s| - i
  {
    if i == |s| || !p(s[i]) then i else SpanFrom(s, i + 1, p)
  }

  /** SpanFrom ends the longest run of characters satisfying `p`. */
  lemma {:induction false} SpanFromIsMaximalRun(s: string, i: nat, p: char -> bool)
    requires i <= |s|
    ensures forall k :: i <= k < SpanFrom(s, i, p) ==> p(s[k])
    ensures SpanFrom(s, i, p) < |s| ==> !p(s[SpanFrom(s, i, p)])
    decreases |s| - i
  {
    if i < |s| && p(s[i]) {
      SpanFromIsMaximalRun(s, i + 1, p);
    }
  }

  /** Whether `([{,]\s*)(\w+)(:)` matches at `i`. Because no character is both
      `\s` and `\w` (SpaceIsNotWord) and ':' is not `\w`, backtracking never
      helps: the pattern matches exactly when the greedy whitespace run after
      the '{' or ',' is followed by a non-empty greedy word run and a ':'. */
  predicate KeyAt(s: string, i: nat)
    requires i < |s|
  {
    && (s[i] == '{' || s[i] == ',')
    && var j := SpanFrom(s, i + 1, IsSpace);
       var k := SpanFrom(s, j, IsWordChar);
       j < k < |s| && s[k] == ':'
  }

  /** `re.sub(r'([{,]\s*)(\w+)(:)', r'\1"\2"\3', s[i..])`. */
  function QuoteKeysFrom(s: string, i: nat): string
    requires i <= |s|
    decreases |s| - i
  {
    if i == |s| then ""
    else if KeyAt(s, i) then
      var j := SpanFrom(s, i + 1, IsSpace);
      var k := SpanFrom(s, j, IsWordChar);
      s[i..j] + "\"" + s[j..k] + "\"" + ":" + QuoteKeysFrom(s, k + 1)
    else [s[i]] + QuoteKeysFrom(s, i + 1)
  }

  function QuoteKeys(s: string): string {
    QuoteKeysFrom(s, 0)
  }

  predicate NotQuote(c: char) {
    c != '"'
  }

  /** Filtering is a congruence: texts that agree after filtering still agree
      once the same text is put in front. */
  lemma KeepCongruence(x: string, y: string, z: string, p: char -> bool)
    requires Keep(y, p) == Keep(z, p)
    ensures Keep(x + y, p) == Keep(x + z, p)
  {
    KeepAppend(x, y, p);
    KeepAppend(x, z, p);
  }

  /** Filtering out '"' makes a quoted key and its bare form agree. */
  lemma KeepSkipsQuotes(a: string, b: string, out: string, inp: string)
    requires Keep(out, NotQuote) == Keep(inp, NotQuote)
    ensures Keep(a + "\"" + b + "\"" + (":" + out), NotQuote) == Keep(a + b + (":" + inp), NotQuote)
  {
    var q: string := "\"";
    var c := ":" + out;
    assert Keep(q, NotQuote) == [];
    KeepAppend(a + q + b + q, c, NotQuote);
    KeepAppend(a + q + b, q, NotQuote);
    KeepAppend(a + q, b, NotQuote);
    KeepAppend(a, q, NotQuote);
    KeepAppend(a + b, c, NotQuote);
    KeepAppend(a, b, NotQuote);
    KeepCongruence(":", out, inp, NotQuote);
    KeepCongruence(a + b, c, ":" + inp, NotQuote);
  }

  /** The text one quoted key becomes. */
  lemma QuoteKeysStep(s: string, i: nat)
    requires i < |s| && KeyAt(s, i)
    ensures var j := SpanFrom(s, i + 1, IsSpace);
      var k := SpanFrom(s, j, IsWordChar);
      && i < j <= k < |s| && s[k] == ':'
      && QuoteKeysFrom(s, i) == s[i..j] + "\"" + s[j..k] + "\"" + (":" + QuoteKeysFrom(s, k + 1))
  {
  }

  lemma SliceAroundColon(s: string, i: nat, j: nat, k: nat)
    requires i <= j <= k < |s| && s[k] == ':'
    ensures s[i..] == s[i..j] + s[j..k] + (":" + s[k + 1..])
  {
    assert s[i..] == s[i..j] + s[j..k] + s[k..];
    assert s[k..] == [s[k]] + s[k + 1..];
  }

  /** Key quoting only inserts double quotes: apart from '"' the text is unchanged. */
  lemma {:induction false} QuoteKeysInsertsOnlyQuotes(s: string, i: nat)
    requires i <= |s|
    ensures Keep(QuoteKeysFrom(s, i), NotQuote) == Keep(s[i..], NotQuote)
    decreases |s| - i
  {
    if i < |s| {
      if KeyAt(s, i) {
        QuoteKeysInsertsOnlyQuotes(s, SpanFrom(s, SpanFrom(s, i + 1, IsSpace), IsWordChar) + 1);
        QuotedKeyStep(s, i);
      } else {
        QuoteKeysInsertsOnlyQuotes(s, i + 1);
        KeepStep(s, i, QuoteKeysFrom(s, i + 1), NotQuote);
      }
    }
  }

  /** The step of QuoteKeysInsertsOnlyQuotes at a key. */
  lemma QuotedKeyStep(s: string, i: nat)
    requires i < |s| && KeyAt(s, i)
    requires var k := SpanFrom(s, SpanFrom(s, i + 1, IsSpace), IsWordChar);
      Keep(QuoteKeysFrom(s, k + 1), NotQuote) == Keep(s[k + 1..], NotQuote)
    ensures Keep(QuoteKeysFrom(s, i), NotQuote) == Keep(s[i..], NotQuote)
  {
    var j := SpanFrom(s, i + 1, IsSpace);
    var k := SpanFrom(s, j, IsWordChar);
    QuoteKeysStep(s, i);
    QuotedKeyKeepsText(s, i, j, k, QuoteKeysFrom(s, i), QuoteKeysFrom(s, k + 1));
  }

  /** QuotedKeyStep on the pieces: `x`, the name `s[j..k]` put between
      quotes before the ':' at k and followed by `out`, agrees with `s[i..]`
      once quotes are filtered out when `out` agrees with what follows the ':'. */
  lemma QuotedKeyKeepsText(s: string, i: nat, j: nat, k: nat, x: string, out: string)
    requires i <= j <= k < |s| && s[k] == ':'
    requires x == s[i..j] + "\"" + s[j..k] + "\"" + (":" + out)
    requires Keep(out, NotQuote) == Keep(s[k + 1..], NotQuote)
    ensures Keep(x, NotQuote) == Keep(s[i..], NotQuote)
  {
    SliceAroundColon(s, i, j, k);
    KeepSkipsQuotes(s[i..j], s[j..k], out, s[k + 1..]);
  }

  /** How many keys `QuoteKeysFrom(s, i)` quotes. */
  function QuotedKeyCount(s: string, i: nat): nat
    requires i <= |s|
    decreases |s| - i
  {
    if i == |s| then 0
    else if KeyAt(s, i) then 1 + QuotedKeyCount(s, SpanFrom(s, SpanFrom(s, i + 1, IsSpace), IsWordChar) + 1)
    else QuotedKeyCount(s, i + 1)
  }

  lemma QuotedKeyCountStep(s: string, i: nat)
    requires i < |s| && KeyAt(s, i)
    ensures QuotedKeyCount(s, i) == 1 + QuotedKeyCount(s, SpanFrom(s, SpanFrom(s, i + 1, IsSpace), IsWordChar) + 1)
  {
  }

  predicate IsQuote(c: char) {
    c == '"'
  }

  /** `s.count('"')`. */
  function QuoteCount(s: string): nat {
    |Keep(s, IsQuote)|
  }

  lemma QuoteCountAppend(a: string, b: string)
    ensures QuoteCount(a + b) == QuoteCount(a) + QuoteCount(b)
  {
    KeepAppend(a, b, IsQuote);
  }

  /** The quotes of QuoteKeysFrom(s, i): those of the input plus two per quoted key. */
  predicate QuotePairsFrom(s: string, i: nat)
    requires i <= |s|
  {
    QuoteCount(QuoteKeysFrom(s, i)) == QuoteCount(s[i..]) + 2 * QuotedKeyCount(s, i)
  }

  /** Quotes come in pairs: each quoted key adds exactly two. */
  lemma {:induction false} QuoteKeysAddsQuotePairs(s: string, i: nat)
    requires i <= |s|
    ensures QuoteCount(QuoteKeysFrom(s, i)) == QuoteCount(s[i..]) + 2 * QuotedKeyCount(s, i)
    decreases |s| - i
  {
    if i == |s| {
      assert s[i..] == [];
    } else if KeyAt(s, i) {
      var k := SpanFrom(s, SpanFrom(s, i + 1, IsSpace), IsWordChar);
      QuoteKeysAddsQuotePairs(s, k + 1);
      QuotePairsAtKey(s, i);
    } else {
      QuoteKeysAddsQuotePairs(s, i + 1);
      QuotePairsElsewhere(s, i);
    }
  }

  lemma QuotePairsAtKey(s: string, i: nat)
    requires i < |s| && KeyAt(s, i)
    requires QuotePairsFrom(s, SpanFrom(s, SpanFrom(s, i + 1, IsSpace), IsWordChar) + 1)
    ensures QuotePairsFrom(s, i)
  {
    var j := SpanFrom(s, i + 1, IsSpace);
    var k := SpanFrom(s, j, IsWordChar);
    var out := QuoteKeysFrom(s, k + 1);
    var inp := s[k + 1..];
    QuoteKeysStep(s, i);
    SliceAroundColon(s, i, j, k);
    QuoteCountOfPieces(QuoteKeysFrom(s, i), s[i..], s[i..j], s[j..k], out, inp);
    QuotedKeyCountStep(s, i);
  }

  lemma QuotePairsElsewhere(s: string, i: nat)
    requires i < |s| && !KeyAt(s, i)
    requires QuotePairsFrom(s, i + 1)
    ensures QuotePairsFrom(s, i)
  {
    assert s[i..] == [s[i]] + s[i + 1..];
    assert QuoteKeysFrom(s, i) == [s[i]] + QuoteKeysFrom(s, i + 1);
    QuoteCountAppend([s[i]], QuoteKeysFrom(s, i + 1));
    QuoteCountAppend([s[i]], s[i + 1..]);
    assert QuotedKeyCount(s, i) == QuotedKeyCount(s, i + 1);
  }

  lemma QuoteCountOfPieces(x: string, y: string, a: string, b: string, out: string, inp: string)
    requires x == a + "\"" + b + "\"" + (":" + out)
    requires y == a + b + (":" + inp)
    ensures QuoteCount(x) + QuoteCount(inp) == QuoteCount(y) + 2 + QuoteCount(out)
  {
    var q: string := "\"";
    var colon: string := ":";
    assert QuoteCount(q) == 1;
    assert QuoteCount(colon) == 0;
    QuoteCountAppend(a + q + b + q, colon + out);
    QuoteCountAppend(a + q + b, q);
    QuoteCountAppend(a + q, b);
    QuoteCountAppend(a, q);
    QuoteCountAppend(colon, out);
    QuoteCountAppend(a + b, colon + inp);
    QuoteCountAppend(a, b);
    QuoteCountAppend(colon, inp);
  }

  /** A bare key after '{' and after ',' is quoted; a quoted key is left alone. */
  lemma QuoteKeysExample()
    ensures QuoteKeys("{a:1}") == "{\"a\":1}"
    ensures QuoteKeys("{\"a\":1}") == "{\"a\":1}"
  {
    var s := "{a:1}";
    assert SpanFrom(s, 1, IsSpace) == 1;
    assert SpanFrom(s, 1, IsWordChar) == 2;
    assert KeyAt(s, 0);
    assert !KeyAt(s, 3);
    var t := "{\"a\":1}";
    assert SpanFrom(t, 1, IsSpace) == 1;
    assert SpanFrom(t, 1, IsWordChar) == 1;
    assert !KeyAt(t, 0);
  }

  /** Whether `,\s*([\]}])` matches at `i`; as with KeyAt, backtracking the
      whitespace run cannot put a bracket where whitespace was. */
  predicate TrailingCommaAt(s: string, i: nat)
    requires i < |s|
  {
    && s[i] == ','
    && var j := SpanFrom(s, i + 1, IsSpace);
       j < |s| && (s[j] == ']' || s[j] == '}')
  }

  /** `re.sub(r',\s*([\]}])', r'\1', s[i..])`: one left-to-right pass. */
  function DropTrailingCommasFrom(s: string, i: nat): string
    requires i <= |s|
    decreases |s| - i
  {
    if i == |s| then ""
    else if TrailingCommaAt(s, i) then
      var j := SpanFrom(s, i + 1, IsSpace);
      [s[j]] + DropTrailingCommasFrom(s, j + 1)
    else [s[i]] + DropTrailingCommasFrom(s, i + 1)
  }

  function DropTrailingCommas(s: string): string {
    DropTrailingCommasFrom(s, 0)
  }

  predicate NotCommaOrSpace(c: char) {
    c != ',' && !IsSpace(c)
  }

  /** Dropping a run of characters that fail `p` in front of a kept character. */
  lemma DroppedRun(s: string, i: nat, j: nat, out: string, p: char -> bool)
    requires i <= j < |s|
    requires forall k :: i <= k < j ==> !p(s[k])
    requires Keep(out, p) == Keep(s[j + 1..], p)
    ensures Keep([s[j]] + out, p) == Keep(s[i..], p)
  {
    KeepStep(s, j, out, p);
    KeepSkipsRun(s, i, j - i, [s[j]] + out, p);
  }

  /** Trailing-comma removal deletes only commas and whitespace, and never
      lengthens the text. */
  lemma {:induction false} DropTrailingCommasDeletesOnlyCommasAndSpace(s: string, i: nat)
    requires i <= |s|
    ensures Keep(DropTrailingCommasFrom(s, i), NotCommaOrSpace) == Keep(s[i..], NotCommaOrSpace)
    ensures |DropTrailingCommasFrom(s, i)| <= |s| - i
    decreases |s| - i
  {
    if i < |s| {
      if TrailingCommaAt(s, i) {
        DropTrailingCommasDeletesOnlyCommasAndSpace(s, SpanFrom(s, i + 1, IsSpace) + 1);
        TrailingCommaCase(s, i);
      } else {
        DropTrailingCommasDeletesOnlyCommasAndSpace(s, i + 1);
        CopiedCharCase(s, i);
      }
    }
  }

  /** At a trailing comma the pass drops the comma and the whitespace after
      it, up to the bracket at j, and goes on after the bracket. */
  lemma TrailingCommaStep(s: string, i: nat)
    requires i < |s| && TrailingCommaAt(s, i)
    ensures var j := SpanFrom(s, i + 1, IsSpace);
      && i < j < |s|
      && (forall k :: i <= k < j ==> !NotCommaOrSpace(s[k]))
      && DropTrailingCommasFrom(s, i) == [s[j]] + DropTrailingCommasFrom(s, j + 1)
  {
    SpanFromIsMaximalRun(s, i + 1, IsSpace);
  }

  /** The step of DropTrailingCommasDeletesOnlyCommasAndSpace at a trailing comma. */
  lemma TrailingCommaCase(s: string, i: nat)
    requires i < |s| && TrailingCommaAt(s, i)
    requires var j := SpanFrom(s, i + 1, IsSpace);
      && Keep(DropTrailingCommasFrom(s, j + 1), NotCommaOrSpace) == Keep(s[j + 1..], NotCommaOrSpace)
      && |DropTrailingCommasFrom(s, j + 1)| <= |s| - (j + 1)
    ensures Keep(DropTrailingCommasFrom(s, i), NotCommaOrSpace) == Keep(s[i..], NotCommaOrSpace)
    ensures |DropTrailingCommasFrom(s, i)| <= |s| - i
  {
    var j := SpanFrom(s, i + 1, IsSpace);
    TrailingCommaStep(s, i);
    DroppedRun(s, i, j, DropTrailingCommasFrom(s, j + 1), NotCommaOrSpace);
  }

  /** The step of DropTrailingCommasDeletesOnlyCommasAndSpace elsewhere. */
  lemma CopiedCharCase(s: string, i: nat)
    requires i < |s| && !TrailingCommaAt(s, i)
    requires Keep(DropTrailingCommasFrom(s, i + 1), NotCommaOrSpace) == Keep(s[i + 1..], NotCommaOrSpace)
    requires |DropTrailingCommasFrom(s, i + 1)| <= |s| - (i + 1)
    ensures Keep(DropTrailingCommasFrom(s, i), NotCommaOrSpace) == Keep(s[i..], NotCommaOrSpace)
    ensures |DropTrailingCommasFrom(s, i)| <= |s| - i
  {
    KeepStep(s, i, DropTrailingCommasFrom(s, i + 1), NotCommaOrSpace);
  }

  /** The pass is single: in ",,]" only the second comma precedes the bracket;
      whitespace between the comma and the bracket goes with the comma. */
  lemma DropTrailingCommasExample()
    ensures DropTrailingCommas(",,]") == ",]"
    ensures DropTrailingCommas("[1,\n]") == "[1]"
  {
    var s := ",,]";
    assert SpanFrom(s, 1, IsSpace) == 1;
    assert !TrailingCommaAt(s, 0);
    assert SpanFrom(s, 2, IsSpace) == 2;
    assert TrailingCommaAt(s, 1);
    var t := "[1,\n]";
    assert SpanFrom(t, 3, IsSpace) == 4;
    assert TrailingCommaAt(t, 2);
    assert DropTrailingCommasFrom(t, 2) == "]";
  }

  /** `BaseAI._clean_json`: strip, drop code fences, quote bare keys, drop
      trailing commas, then `fix_encoding`. */
  function CleanJson(text: string): string {
    FixEncoding(DropTrailingCommas(QuoteKeys(StripFences(Strip(text)))))
  }

  predicate IsBracket(c: char) {
    c == '{' || c == '}' || c == '[' || c == ']'
  }

  /** `_clean_json` keeps the number of each of '{', '}', '[' and ']': no
      step balances brackets. */
  lemma CleanJsonKeepsBrackets(text: string, c: char)
    requires IsBracket(c)
    ensures multiset(CleanJson(text))[c] == multiset(text)[c]
  {
    var a := Strip(text);
    var b := StripFences(a);
    var d := QuoteKeys(b);
    var e := DropTrailingCommas(d);
    StripKeepsCount(text, c);
    StripFencesKeepsCount(a, c);
    QuoteKeysKeepsCount(b, c);
    DropTrailingCommasKeepsCount(d, c);
    FixEncodingKeepsAsciiCount(e, c);
  }

  /** Removing fences keeps the count of every character a fence cannot hold. */
  lemma StripFencesKeepsCount(a: string, c: char)
    requires NotFenceChar(c)
    ensures multiset(StripFences(a))[c] == multiset(a)[c]
  {
    StripFencesDeletesOnlyFenceChars(a, 0);
    assert a[0..] == a;
    SameKeptSameCount(StripFences(a), a, NotFenceChar, c);
  }

  /** Quoting keys keeps the count of every character but '"'. */
  lemma QuoteKeysKeepsCount(b: string, c: char)
    requires NotQuote(c)
    ensures multiset(QuoteKeys(b))[c] == multiset(b)[c]
  {
    QuoteKeysInsertsOnlyQuotes(b, 0);
    assert b[0..] == b;
    SameKeptSameCount(QuoteKeys(b), b, NotQuote, c);
  }

  /** Dropping trailing commas keeps the count of every character but ',' and whitespace. */
  lemma DropTrailingCommasKeepsCount(d: string, c: char)
    requires NotCommaOrSpace(c)
    ensures multiset(DropTrailingCommas(d))[c] == multiset(d)[c]
  {
    DropTrailingCommasDeletesOnlyCommasAndSpace(d, 0);
    assert d[0..] == d;
    SameKeptSameCount(DropTrailingCommas(d), d, NotCommaOrSpace, c);
  }

  // ---------------------------------------------------------------------
  // BaseAI: the memory dictionary and the model URL
  // ---------------------------------------------------------------------

  /** `model_url.rstrip('/')`. */
  function RStripSlash(s: string): (r: string)
    ensures |r| <= |s| && r == s[..|r|]
    ensures r == [] || r[|r| - 1] != '/'
    ensures forall k :: |r| <= k < |s| ==> s[k] == '/'
  {
    if s != [] && s[|s| - 1] == '/' then RStripSlash(s[..|s| - 1]) else s
  }

  /** The memory after `update_memory(key, data)`, or the exception it raises:
      TypeError when the memory is not a dict (`key in None`, `list[key] = ...`),
      AttributeError when the stored value under `key` is not a dict (it has no
      `update`). */
  function UpdatedMemory(memory: Json, key: string, data: map<string, Json>): (r: Result<Json>)
    ensures r.Ok? <==> memory.JObj? && (key in memory.fields ==> memory.fields[key].JObj?)
    ensures !memory.JObj? ==> r == Raise(TypeError)
    ensures memory.JObj? && key in memory.fields && !memory.fields[key].JObj? ==> r == Raise(AttributeError)
    ensures r.Ok? ==> r.value.JObj? && r.value.fields.Keys == memory.fields.Keys + {key}
    ensures r.Ok? ==> forall k :: k in memory.fields && k != key ==> r.value.fields[k] == memory.fields[k]
    ensures r.Ok? ==>
      var inner := r.value.fields[key];
      && inner.JObj?
      && inner.fields.Keys == data.Keys + (if key in memory.fields then memory.fields[key].fields.Keys else {})
      && (forall k :: k in data ==> inner.fields[k] == data[k])
      && (key in memory.fields ==>
            forall k :: k in memory.fields[key].fields && k !in data ==>
              inner.fields[k] == memory.fields[key].fields[k])
  {
    match memory
    case JObj(m) =>
      if key in m then
        match m[key]
        case JObj(inner) => Ok(JObj(m[key := JObj(inner + data)]))
        case _ => Raise(AttributeError)
      else Ok(JObj(m[key := JObj(data)]))
    case _ => Raise(TypeError)
  }

  /** `self.memory.get(key, {})`: the stored value, `{}` for an absent key,
      AttributeError when the memory is not a dict. */
  function MemoryGet(memory: Json, key: string): (r: Result<Json>)
    ensures memory.JObj? && key in memory.fields ==> r == Ok(memory.fields[key])
    ensures memory.JObj? && key !in memory.fields ==> r == Ok(JObj(map[]))
    ensures !memory.JObj? ==> r == Raise(AttributeError)
  {
    match memory
    case JObj(m) => Ok(Get(m, key, JObj(map[])))
    case _ => Raise(AttributeError)
  }

  /** The state every AI shares: the memory as loaded (any JSON value; None
      on a first run) and the endpoint URL. */
  class BaseAI {
    var memory: Json
    var modelUrl: string

    constructor (memory: Json, modelUrl: string)
      ensures this.memory == memory
      ensures this.modelUrl == RStripSlash(modelUrl)
    {
      this.memory := memory;
      this.modelUrl := RStripSlash(modelUrl);
    }

    /** `save_to_memory`: `self.memory[key] = value`. */
    method SaveToMemory(key: string, value: Json) returns (r: Result<()>)
      modifies this`memory
      ensures old(memory).JObj? ==> r == Ok(()) && memory == JObj(old(memory).fields[key := value])
      ensures !old(memory).JObj? ==> r == Raise(TypeError) && memory == old(memory)
    {
      if memory.JObj? {
        memory := JObj(memory.fields[key := value]);
        r := Ok(());
      } else {
        r := Raise(TypeError);
      }
    }

    /** `get_from_memory`. */
    function GetFromMemory(key: string): (r: Result<Json>)
      reads this
      ensures memory.JObj? && key !in memory.fields ==> r == Ok(JObj(map[]))
      ensures memory.JObj? && key in memory.fields ==> r == Ok(memory.fields[key])
    {
      MemoryGet(memory, key)
    }

    /** `update_memory(key, data)`. */
    method UpdateMemory(key: string, data: map<string, Json>) returns (r: Result<()>)
      modifies this`memory
      ensures UpdatedMemory(old(memory), key, data).Ok? ==>
        r == Ok(()) && memory == UpdatedMemory(old(memory), key, data).value
      ensures UpdatedMemory(old(memory), key, data).Raise? ==>
        r == Raise(UpdatedMemory(old(memory), key, data).exc) && memory == old(memory)
    {
      match UpdatedMemory(memory, key, data)
      case Ok(m) =>
        memory := m;
        r := Ok(());
      case Raise(e) =>
        r := Raise(e);
    }
  }
}
