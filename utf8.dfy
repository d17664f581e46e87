/** UTF-8 as RFC 3629 defines it (section 3 for encoding, the byte grammar of
    section 4 for what a decoder accepts), and Latin-1 (ISO/IEC 8859-1), which
    maps byte n to code point n. Python's strict "utf-8" and "latin1" codecs
    follow these exactly. */
module Utf8 {
  import opened Shared

  type Byte = b: int | 0 <= b < 0x100

  /** A Python code point: any value up to U+10FFFF, lone surrogates included. */
  type CodePoint = n: int | 0 <= n < 0x11_0000

  predicate IsSurrogate(n: int) {
    0xD800 <= n <= 0xDFFF
  }

  predicate NoSurrogates(t: seq<CodePoint>) {
    forall i :: 0 <= i < |t| ==> !IsSurrogate(t[i])
  }

  predicate IsTail(b: int) {
    0x80 <= b <= 0xBF
  }

  /** The bytes section 3 of RFC 3629 assigns to one scalar value. */
  function EncodeChar(c: CodePoint): (bs: seq<Byte>)
    requires !IsSurrogate(c)
    ensures 1 <= |bs| <= 4
  {
    if c < 0x80 then [c]
    else if c < 0x800 then [0xC0 + c / 64, 0x80 + c % 64]
    else if c < 0x1_0000 then [0xE0 + c / 4096, 0x80 + (c / 64) % 64, 0x80 + c % 64]
    else [0xF0 + c / 262144, 0x80 + (c / 4096) % 64, 0x80 + (c / 64) % 64, 0x80 + c % 64]
  }

  /** `text.encode('utf-8')` on text without lone surrogates. */
  function Encode(t: seq<CodePoint>): seq<Byte>
    requires NoSurrogates(t)
  {
    if t == [] then [] else EncodeChar(t[0]) + Encode(t[1..])
  }

  /** The range the second byte of a three- or four-byte sequence must lie in
      (RFC 3629, section 4): it rules out overlong forms, surrogates and
      values beyond U+10FFFF. */
  function SecondLo(b0: int): int {
    if b0 == 0xE0 then 0xA0 else if b0 == 0xF0 then 0x90 else 0x80
  }

  function SecondHi(b0: int): int {
    if b0 == 0xED then 0x9F else if b0 == 0xF4 then 0x8F else 0xBF
  }

  /** Length of the well-formed character at the head of `bs` by the grammar
      of RFC 3629, section 4; 0 when the head is ill-formed. */
  function HeadLength(bs: seq<Byte>): (n: nat)
    requires bs != []
    ensures n <= 4 && n <= |bs|
  {
    var b0 := bs[0];
    if b0 <= 0x7F then 1
    else if 0xC2 <= b0 <= 0xDF then
      (if |bs| >= 2 && IsTail(bs[1]) then 2 else 0)
    else if 0xE0 <= b0 <= 0xEF then
      (if |bs| >= 3 && SecondLo(b0) <= bs[1] <= SecondHi(b0) && IsTail(bs[2]) then 3 else 0)
    else if 0xF0 <= b0 <= 0xF4 then
      (if |bs| >= 4 && SecondLo(b0) <= bs[1] <= SecondHi(b0) && IsTail(bs[2]) && IsTail(bs[3]) then 4 else 0)
    else 0
  }

  /** The scalar value a well-formed head of `n` bytes stands for. */
  function HeadValue(bs: seq<Byte>, n: nat): (c: CodePoint)
    requires bs != [] && n == HeadLength(bs) && n > 0
    ensures !IsSurrogate(c)
    ensures n == 1 <==> c < 0x80
  {
    var b0: int := bs[0];
    if n == 1 then b0
    else
      var b1: int := bs[1];
      if n == 2 then (b0 - 0xC0) * 64 + (b1 - 0x80)
      else
        var b2: int := bs[2];
        if n == 3 then (b0 - 0xE0) * 4096 + (b1 - 0x80) * 64 + (b2 - 0x80)
        else
          var b3: int := bs[3];
          (b0 - 0xF0) * 262144 + (b1 - 0x80) * 4096 + (b2 - 0x80) * 64 + (b3 - 0x80)
  }

  /** `bytes.decode('utf-8')` (strict): None when Python raises UnicodeDecodeError. */
  function Decode(bs: seq<Byte>): (r: Option<seq<CodePoint>>)
    ensures r.Some? ==> NoSurrogates(r.value)
    decreases |bs|
  {
    if bs == [] then Some([])
    else
      var n := HeadLength(bs);
      if n == 0 then None
      else
        match Decode(bs[n..])
        case None => None
        case Some(rest) => Some([HeadValue(bs, n)] + rest)
  }

  predicate IsLatin1(t: seq<CodePoint>) {
    forall i :: 0 <= i < |t| ==> t[i] <= 0xFF
  }

  /** `text.encode('latin1')` on text whose code points all fit in a byte. */
  function Latin1Encode(t: seq<CodePoint>): (bs: seq<Byte>)
    requires IsLatin1(t)
    ensures |bs| == |t| && forall i :: 0 <= i < |t| ==> bs[i] == t[i]
  {
    seq(|t|, i requires 0 <= i < |t| => t[i] as Byte)
  }

  /** `data.decode('latin1')`: every byte becomes the code point of the same number. */
  function Latin1Decode(bs: seq<Byte>): (t: seq<CodePoint>)
    ensures |t| == |bs| && forall i :: 0 <= i < |bs| ==> t[i] == bs[i]
    ensures IsLatin1(t) && NoSurrogates(t)
  {
    seq(|bs|, i requires 0 <= i < |bs| => bs[i] as CodePoint)
  }

  lemma EncodeChar2(c: CodePoint, rest: seq<Byte>)
    requires 0x80 <= c < 0x800
    ensures var bs := EncodeChar(c) + rest; HeadLength(bs) == 2 && HeadValue(bs, 2) == c
  {
    var bs := EncodeChar(c) + rest;
    assert bs[0] == 0xC0 + c / 64 && bs[1] == 0x80 + c % 64;
    assert 2 <= c / 64 < 32;
  }

  lemma EncodeChar3(c: CodePoint, rest: seq<Byte>)
    requires 0x800 <= c < 0x1_0000 && !IsSurrogate(c)
    ensures var bs := EncodeChar(c) + rest; HeadLength(bs) == 3 && HeadValue(bs, 3) == c
  {
    var bs := EncodeChar(c) + rest;
    var hi, mid, lo := c / 4096, (c / 64) % 64, c % 64;
    assert c / 64 == hi * 64 + mid;
    assert c == hi * 4096 + mid * 64 + lo;
    assert bs[0] == 0xE0 + hi && bs[1] == 0x80 + mid && bs[2] == 0x80 + lo;
    assert hi == 0 ==> mid >= 32;
    assert hi == 13 ==> mid < 32;
  }

  lemma EncodeChar4(c: CodePoint, rest: seq<Byte>)
    requires 0x1_0000 <= c
    ensures var bs := EncodeChar(c) + rest; HeadLength(bs) == 4 && HeadValue(bs, 4) == c
  {
    var bs := EncodeChar(c) + rest;
    var top, hi, mid, lo := c / 262144, (c / 4096) % 64, (c / 64) % 64, c % 64;
    assert c / 4096 == top * 64 + hi;
    assert c / 64 == (c / 4096) * 64 + mid;
    assert c == top * 262144 + hi * 4096 + mid * 64 + lo;
    assert bs[0] == 0xF0 + top && bs[1] == 0x80 + hi && bs[2] == 0x80 + mid && bs[3] == 0x80 + lo;
    assert top == 0 ==> hi >= 16;
    assert top == 4 ==> hi < 16;
  }

  /** The decoder reads back exactly the character the encoder wrote. */
  lemma EncodeCharDecodes(c: CodePoint, rest: seq<Byte>)
    requires !IsSurrogate(c)
    ensures var bs := EncodeChar(c) + rest;
      HeadLength(bs) == |EncodeChar(c)| && HeadValue(bs, |EncodeChar(c)|) == c
  {
    if c < 0x80 {
    } else if c < 0x800 {
      EncodeChar2(c, rest);
    } else if c < 0x1_0000 {
      EncodeChar3(c, rest);
    } else {
      EncodeChar4(c, rest);
    }
  }

  /** Decoding the UTF-8 encoding of surrogate-free text gives the text back. */
  lemma {:induction false} DecodeEncode(t: seq<CodePoint>)
    requires NoSurrogates(t)
    ensures Decode(Encode(t)) == Some(t)
  {
    if t != [] {
      var head := EncodeChar(t[0]);
      var bs := Encode(t);
      assert bs == head + Encode(t[1..]);
      EncodeCharDecodes(t[0], Encode(t[1..]));
      assert bs[|head|..] == Encode(t[1..]);
      DecodeEncode(t[1..]);
      HeadTail(t);
    }
  }

  /** ASCII bytes decode to the same code points. */
  lemma {:induction false} DecodeAscii(bs: seq<Byte>)
    requires forall i :: 0 <= i < |bs| ==> bs[i] < 0x80
    ensures Decode(bs).Some? && Decode(bs).value == bs
  {
    if bs != [] {
      DecodeAscii(bs[1..]);
      HeadTail(bs);
    }
  }

  /** Decoding keeps every ASCII value's count: an ASCII byte decodes to
      itself, and a multi-byte character consists of bytes >= 0x80 and stands
      for a value >= 0x80. */
  lemma {:induction false} DecodeKeepsAsciiCount(bs: seq<Byte>, v: int)
    requires 0 <= v < 0x80
    requires Decode(bs).Some?
    ensures multiset(Decode(bs).value)[v] == multiset(bs)[v]
  {
    if bs != [] {
      var n := HeadLength(bs);
      DecodeKeepsAsciiCount(bs[n..], v);
      HeadAsciiCount(bs, v);
      SplitAt(bs, n);
      CountOfCons(Decode(bs).value, bs[..n], bs[n..], v);
    }
  }

  /** The bytes of one decoded character hold an ASCII value once if the
      character is that value and not at all otherwise. */
  lemma HeadAsciiCount(bs: seq<Byte>, v: int)
    requires 0 <= v < 0x80 && bs != [] && HeadLength(bs) > 0
    ensures multiset(bs[..HeadLength(bs)])[v] == if HeadValue(bs, HeadLength(bs)) == v then 1 else 0
  {
    var n := HeadLength(bs);
    if n > 1 {
      assert forall i :: 0 <= i < n ==> bs[..n][i] >= 0x80;
      assert v !in multiset(bs[..n]);
    } else {
      assert bs[..n] == [bs[0]];
    }
  }

  /** The encoding of one character holds an ASCII value once if it is that
      character and not at all otherwise. */
  lemma EncodeCharAsciiCount(c: CodePoint, v: int)
    requires 0 <= v < 0x80 && !IsSurrogate(c)
    ensures multiset(EncodeChar(c))[v] == if c == v then 1 else 0
  {
    if c >= 0x80 {
      assert forall i :: 0 <= i < |EncodeChar(c)| ==> EncodeChar(c)[i] >= 0x80;
      assert v !in multiset(EncodeChar(c));
    }
  }

  /** The count of v in the encoding of t, from the counts of its head and its tail. */
  lemma CountOfCons(t: seq<CodePoint>, head: seq<Byte>, rest: seq<Byte>, v: int)
    requires t != []
    requires multiset(head)[v] == (if t[0] == v then 1 else 0)
    requires multiset(rest)[v] == multiset(t[1..])[v]
    ensures multiset(head + rest)[v] == multiset(t)[v]
  {
    HeadTail(t);
    assert multiset(t) == multiset([t[0]]) + multiset(t[1..]);
  }

  /** Encoding keeps every ASCII value's count, for the same reason. */
  lemma {:induction false} EncodeKeepsAsciiCount(t: seq<CodePoint>, v: int)
    requires 0 <= v < 0x80
    requires NoSurrogates(t)
    ensures multiset(Encode(t))[v] == multiset(t)[v]
  {
    if t != [] {
      EncodeKeepsAsciiCount(t[1..], v);
      EncodeCharAsciiCount(t[0], v);
      CountOfCons(t, EncodeChar(t[0]), Encode(t[1..]), v);
    }
  }
}
