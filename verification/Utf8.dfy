/** UTF-8 (sections 3 and 4 of RFC 3629): encoding is total, decoding is strict, and each
    inverts the other. */
module Utf8 {
  import opened Prelude

  /** The scalar value a lead byte's bits and one, two or three tails carry. */
  function Value2(lead: int, t1: int): int {
    (lead - 0xC0) * 64 + (t1 - 0x80)
  }

  function Value3(lead: int, t1: int, t2: int): int {
    (lead - 0xE0) * 4096 + (t1 - 0x80) * 64 + (t2 - 0x80)
  }

  function Value4(lead: int, t1: int, t2: int, t3: int): int {
    (lead - 0xF0) * 262144 + (t1 - 0x80) * 4096 + (t2 - 0x80) * 64 + (t3 - 0x80)
  }

  function EncodeChar(c: char): (bytes: Bytes)
    ensures 1 <= |bytes| <= 4
  {
    var n := c as int;
    if n < 0x80 then [n]
    else if n < 0x800 then [0xC0 + n / 64, 0x80 + n % 64]
    else if n < 0x10000 then [0xE0 + n / 4096, 0x80 + n / 64 % 64, 0x80 + n % 64]
    else [0xF0 + n / 262144, 0x80 + n / 4096 % 64, 0x80 + n / 64 % 64, 0x80 + n % 64]
  }

  function Encode(s: string): Bytes {
    if s == "" then [] else EncodeChar(s[0]) + Encode(s[1..])
  }

  predicate Tail(b: byte) {
    0x80 <= b <= 0xBF
  }

  predicate Lead2(b: Bytes, i: nat)
    requires i < |b|
  {
    0xC2 <= b[i] <= 0xDF && i + 1 < |b| && Tail(b[i + 1])
  }

  predicate Lead3(b: Bytes, i: nat)
    requires i < |b|
  {
    0xE0 <= b[i] <= 0xEF && i + 2 < |b| && Tail(b[i + 1]) && Tail(b[i + 2])
    && (b[i] == 0xE0 ==> 0xA0 <= b[i + 1]) && (b[i] == 0xED ==> b[i + 1] <= 0x9F)
  }

  predicate Lead4(b: Bytes, i: nat)
    requires i < |b|
  {
    0xF0 <= b[i] <= 0xF4 && i + 3 < |b| && Tail(b[i + 1]) && Tail(b[i + 2]) && Tail(b[i + 3])
    && (b[i] == 0xF0 ==> 0x90 <= b[i + 1]) && (b[i] == 0xF4 ==> b[i + 1] <= 0x8F)
  }

  /** The character the bytes from `i` on encode, and where the next starts. No overlong
      form, no surrogate, nothing past U+10FFFF. */
  function DecodeChar(b: Bytes, i: nat): (r: Option<(char, nat)>)
    requires i < |b|
    ensures r.Some? ==> i < r.value.1 <= |b|
  {
    if b[i] < 0x80 then Some((b[i] as char, i + 1))
    else if Lead2(b, i) then Some((Value2(b[i], b[i + 1]) as char, i + 2))
    else if Lead3(b, i) then Some((Value3(b[i], b[i + 1], b[i + 2]) as char, i + 3))
    else if Lead4(b, i) then Some((Value4(b[i], b[i + 1], b[i + 2], b[i + 3]) as char, i + 4))
    else None
  }

  function DecodeFrom(b: Bytes, i: nat): Option<string>
    requires i <= |b|
    decreases |b| - i
  {
    if i == |b| then Some("")
    else
      var head := DecodeChar(b, i);
      if head.None? then None
      else
        var rest := DecodeFrom(b, head.value.1);
        if rest.None? then None else Some([head.value.0] + rest.value)
  }

  function Decode(b: Bytes): Option<string> {
    DecodeFrom(b, 0)
  }

  // ------------------------------------------------------------------ the inverses

  /** The first `n` digits of a number in base sixty-four, weighed together. */
  function Weighed(digits: seq<int>, n: nat): int
    requires n <= |digits|
  {
    if n == 0 then 0 else Weighed(digits, n - 1) * 64 + digits[n - 1]
  }

  /** A character's bytes: as many as its range takes, the first telling how many follow, each
      other in its sixty-four values, and weighed together the character's number. */
  lemma EncodesAsSpecified(c: char)
    ensures var n, b := c as int, EncodeChar(c);
            && |b| == (if n <= 0x7F then 1 else if n <= 0x7FF then 2 else if n <= 0xFFFF then 3 else 4)
            && (forall i :: 0 < i < |b| ==> 0x80 <= b[i] <= 0xBF)
            && (|b| == 1 ==> b[0] == n)
            && (|b| == 2 ==> b[0] >= 0xC0 && n == Weighed([b[0] - 0xC0, b[1] - 0x80], 2))
            && (|b| == 3 ==> b[0] >= 0xE0 && n == Weighed([b[0] - 0xE0, b[1] - 0x80, b[2] - 0x80], 3))
            && (|b| == 4 ==> b[0] >= 0xF0 && n == Weighed([b[0] - 0xF0, b[1] - 0x80, b[2] - 0x80, b[3] - 0x80], 4))
  {
    var n, b := c as int, EncodeChar(c);
    assert n / 64 == n / 4096 * 64 + n / 64 % 64;
    assert n / 4096 == n / 262144 * 64 + n / 4096 % 64;
    if |b| == 2 {
      WeighedUp([b[0] - 0xC0, b[1] - 0x80]);
    } else if |b| == 3 {
      WeighedUp([b[0] - 0xE0, b[1] - 0x80, b[2] - 0x80]);
    } else if |b| == 4 {
      WeighedUp([b[0] - 0xF0, b[1] - 0x80, b[2] - 0x80, b[3] - 0x80]);
    }
  }

  lemma WeighedUp(d: seq<int>)
    ensures |d| >= 1 ==> Weighed(d, 1) == d[0]
    ensures |d| >= 2 ==> Weighed(d, 2) == d[0] * 64 + d[1]
    ensures |d| >= 3 ==> Weighed(d, 3) == (d[0] * 64 + d[1]) * 64 + d[2]
    ensures |d| >= 4 ==> Weighed(d, 4) == ((d[0] * 64 + d[1]) * 64 + d[2]) * 64 + d[3]
  {
  }

  /** A text's bytes are its characters', in order. */
  lemma EncodesInOrder(c: char, s: string)
    ensures Encode("") == [] && Encode([c] + s) == EncodeChar(c) + Encode(s)
  {
    assert ([c] + s)[1..] == s;
  }

  lemma CharDecodes(b: Bytes, i: nat, c: char)
    requires i + |EncodeChar(c)| <= |b| && b[i..i + |EncodeChar(c)|] == EncodeChar(c)
    ensures DecodeChar(b, i) == Some((c, i + |EncodeChar(c)|))
  {
    var e, n := EncodeChar(c), c as int;
    assert forall k :: 0 <= k < |e| ==> b[i + k] == e[k];
    assert b[i + 0] == e[0];
    if |e| == 2 {
      assert b[i + 1] == e[1] && Lead2(b, i) && Value2(e[0], e[1]) == n;
    } else if |e| == 3 {
      assert b[i + 1] == e[1] && b[i + 2] == e[2];
      Pieces3(n);
      assert !Lead2(b, i) && Lead3(b, i);
    } else if |e| == 4 {
      assert b[i + 1] == e[1] && b[i + 2] == e[2] && b[i + 3] == e[3];
      Pieces4(n);
      assert !Lead2(b, i) && !Lead3(b, i) && Lead4(b, i);
    }
  }

  lemma Pieces3(n: int)
    requires 0x800 <= n < 0xD800 || 0xE000 <= n < 0x10000
    ensures var lead, t1, t2 := 0xE0 + n / 4096, 0x80 + n / 64 % 64, 0x80 + n % 64;
            && Value3(lead, t1, t2) == n && 0xE0 <= lead <= 0xEF
            && (lead == 0xE0 ==> 0xA0 <= t1) && (lead == 0xED ==> t1 <= 0x9F)
  {
    assert n / 4096 == n / 64 / 64;
  }

  lemma Pieces4(n: int)
    requires 0x10000 <= n < 0x110000
    ensures var lead, t1, t2, t3 := 0xF0 + n / 262144, 0x80 + n / 4096 % 64, 0x80 + n / 64 % 64, 0x80 + n % 64;
            && Value4(lead, t1, t2, t3) == n && 0xF0 <= lead <= 0xF4
            && (lead == 0xF0 ==> 0x90 <= t1) && (lead == 0xF4 ==> t1 <= 0x8F)
  {
    assert n / 4096 == n / 64 / 64 && n / 262144 == n / 4096 / 64;
  }

  lemma DecodedCharEncodes(b: Bytes, i: nat)
    requires i < |b| && DecodeChar(b, i).Some?
    ensures var (c, next) := DecodeChar(b, i).value; b[i..next] == EncodeChar(c)
  {
    if b[i] < 0x80 {
    } else if Lead2(b, i) {
      assert b[i..i + 2] == [b[i], b[i + 1]];
    } else if Lead3(b, i) {
      Parts3(b[i], b[i + 1], b[i + 2]);
      assert b[i..i + 3] == [b[i], b[i + 1], b[i + 2]];
    } else {
      Parts4(b[i], b[i + 1], b[i + 2], b[i + 3]);
      assert b[i..i + 4] == [b[i], b[i + 1], b[i + 2], b[i + 3]];
    }
  }

  lemma Parts3(lead: byte, t1: byte, t2: byte)
    requires 0xE0 <= lead <= 0xEF && Tail(t1) && Tail(t2)
    ensures var n := Value3(lead, t1, t2);
            0xE0 + n / 4096 == lead && 0x80 + n / 64 % 64 == t1 && 0x80 + n % 64 == t2
  {
    var n := Value3(lead, t1, t2);
    assert n / 64 == (lead - 0xE0) * 64 + (t1 - 0x80);
  }

  lemma Parts4(lead: byte, t1: byte, t2: byte, t3: byte)
    requires 0xF0 <= lead <= 0xF4 && Tail(t1) && Tail(t2) && Tail(t3)
    ensures var n := Value4(lead, t1, t2, t3);
            && 0xF0 + n / 262144 == lead && 0x80 + n / 4096 % 64 == t1
            && 0x80 + n / 64 % 64 == t2 && 0x80 + n % 64 == t3
  {
    var n := Value4(lead, t1, t2, t3);
    assert n / 64 == (lead as int - 0xF0) * 4096 + (t1 as int - 0x80) * 64 + (t2 as int - 0x80);
    assert n / 4096 == (lead as int - 0xF0) * 64 + (t1 as int - 0x80);
  }

  lemma {:induction false} TextDecodes(pre: Bytes, s: string)
    ensures DecodeFrom(pre + Encode(s), |pre|) == Some(s)
    decreases |s|
  {
    hide DecodeChar, EncodeChar;
    var b := pre + Encode(s);
    if s == "" {
    } else {
      var e := EncodeChar(s[0]);
      assert b == (pre + e) + Encode(s[1..]);
      assert b[|pre|..|pre| + |e|] == e;
      CharDecodes(b, |pre|, s[0]);
      TextDecodes(pre + e, s[1..]);
      assert [s[0]] + s[1..] == s;
    }
  }

  /** What is encoded decodes to itself. */
  lemma EncodeDecodes(s: string)
    ensures Decode(Encode(s)) == Some(s)
  {
    TextDecodes([], s);
    assert [] + Encode(s) == Encode(s);
  }

  lemma {:induction false} DecodedTextEncodes(b: Bytes, i: nat)
    requires i <= |b| && DecodeFrom(b, i).Some?
    ensures Encode(DecodeFrom(b, i).value) == b[i..]
    decreases |b| - i
  {
    hide DecodeChar, EncodeChar;
    if i == |b| {
    } else {
      var next := DecodeChar(b, i).value.1;
      DecodedCharEncodes(b, i);
      DecodedTextEncodes(b, next);
      assert b[i..] == b[i..next] + b[next..];
    }
  }

  /** Bytes that decode are what their text encodes to, so no two decode alike. */
  lemma DecodeEncodes(b: Bytes)
    requires Decode(b).Some?
    ensures Encode(Decode(b).value) == b
  {
    DecodedTextEncodes(b, 0);
    assert b[0..] == b;
  }

  lemma EncodeInjective(a: string, b: string)
    ensures Encode(a) == Encode(b) <==> a == b
  {
    EncodeDecodes(a);
    EncodeDecodes(b);
  }

  lemma {:induction false} EncodeConcat(a: string, b: string)
    ensures Encode(a + b) == Encode(a) + Encode(b)
    decreases |a|
  {
    if a == "" {
      assert a + b == b;
    } else {
      assert (a + b)[1..] == a[1..] + b;
      EncodeConcat(a[1..], b);
    }
  }

  /** An ASCII byte appears only as its own character. */
  lemma {:induction false} AsciiOnlyAsItself(s: string, c: char)
    requires c as int < 0x80
    ensures c as int in Encode(s) <==> c in s
    decreases |s|
  {
    if s == "" {
    } else {
      AsciiOnlyAsItself(s[1..], c);
      var head := EncodeChar(s[0]);
      assert s[0] != c ==> forall k :: 0 <= k < |head| ==> head[k] != c as int;
      assert s[0] == c ==> head[0] == c as int;
      assert s == [s[0]] + s[1..];
    }
  }

  /** Decoding from a place reads only what is there on. */
  lemma {:induction false} DecodesFromThere(pre: Bytes, b: Bytes, i: nat)
    requires i <= |b|
    ensures DecodeFrom(pre + b, |pre| + i) == DecodeFrom(b, i)
    decreases |b| - i
  {
    if i == |b| {
    } else {
      CharFromThere(pre, b, i);
      if DecodeChar(b, i).Some? {
        DecodesFromThere(pre, b, DecodeChar(b, i).value.1);
      }
    }
  }

  lemma CharFromThere(pre: Bytes, b: Bytes, i: nat)
    requires i < |b|
    ensures var here, there := DecodeChar(b, i), DecodeChar(pre + b, |pre| + i);
            if here.None? then there.None? else there == Some((here.value.0, |pre| + here.value.1))
  {
    assert forall k :: i <= k < |b| ==> (pre + b)[|pre| + k] == b[k];
  }

  /** Text before them does not make bytes UTF-8 that are not. */
  lemma {:induction false} TextKeepsInvalid(pre: Bytes, s: string, b: Bytes)
    requires Decode(b).None?
    ensures DecodeFrom(pre + Encode(s) + b, |pre|).None?
    decreases |s|
  {
    hide DecodeChar, EncodeChar;
    if s == "" {
      assert pre + Encode(s) + b == pre + b;
      DecodesFromThere(pre, b, 0);
    } else {
      var head := EncodeChar(s[0]);
      var all := pre + Encode(s) + b;
      assert all == (pre + head) + Encode(s[1..]) + b;
      TextKeepsInvalid(pre + head, s[1..], b);
      assert all[|pre|..|pre| + |head|] == head;
      CharDecodes(all, |pre|, s[0]);
    }
  }

  lemma PrefixKeepsInvalid(s: string, b: Bytes)
    requires Decode(b).None?
    ensures Decode(Encode(s) + b).None?
  {
    TextKeepsInvalid([], s, b);
    assert [] + Encode(s) + b == Encode(s) + b;
  }
}
