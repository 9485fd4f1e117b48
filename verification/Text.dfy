/** Python's string operations, as far as the catalogs and the display text use them. */
module Text {
  /** `str.isspace` of one character. */
  predicate IsSpace(c: char) {
    var n := c as int;
    9 <= n <= 13 || 28 <= n <= 32 || n == 0x85 || n == 0xA0 || n == 0x1680 || 0x2000 <= n <= 0x200A ||
    n == 0x2028 || n == 0x2029 || n == 0x202F || n == 0x205F || n == 0x3000
  }

  /** The whitespace there is, by its code points. */
  lemma SpacesAre(c: char)
    ensures IsSpace(c) <==>
            c as int in {
              0x09, 0x0A, 0x0B, 0x0C, 0x0D, 0x1C, 0x1D, 0x1E, 0x1F, 0x20, 0x85, 0xA0, 0x1680,
              0x2000, 0x2001, 0x2002, 0x2003, 0x2004, 0x2005, 0x2006, 0x2007, 0x2008, 0x2009, 0x200A,
              0x2028, 0x2029, 0x202F, 0x205F, 0x3000}
  {
  }

  /** Where the whitespace from `i` on ends. */
  function SkipSpaces(s: string, i: nat): (at: nat)
    requires i <= |s|
    ensures i <= at <= |s|
    decreases |s| - i
  {
    if i < |s| && IsSpace(s[i]) then SkipSpaces(s, i + 1) else i
  }

  /** Where the whitespace that ends at `n`, after `from`, starts. */
  function TrimSpaces(s: string, from: nat, n: nat): (at: nat)
    requires from <= n <= |s|
    ensures from <= at <= n
    decreases n - from
  {
    if from < n && IsSpace(s[n - 1]) then TrimSpaces(s, from, n - 1) else n
  }

  /** `str.strip`. */
  function Strip(s: string): (r: string)
    ensures |r| <= |s|
  {
    var from := SkipSpaces(s, 0);
    s[from..TrimSpaces(s, from, |s|)]
  }

  /** Text with no whitespace at either end. */
  predicate Stripped(s: string) {
    s == "" || (!IsSpace(s[0]) && !IsSpace(s[|s| - 1]))
  }

  predicate AllSpaces(s: string) {
    forall i :: 0 <= i < |s| ==> IsSpace(s[i])
  }

  lemma {:induction false} SkipTo(s: string, i: nat, at: nat)
    requires i <= at <= |s| && (at < |s| ==> !IsSpace(s[at]))
    requires forall k :: i <= k < at ==> IsSpace(s[k])
    ensures SkipSpaces(s, i) == at
    decreases at - i
  {
    if i == at {
    } else {
      SkipTo(s, i + 1, at);
    }
  }

  lemma {:induction false} TrimTo(s: string, from: nat, at: nat, n: nat)
    requires from <= at <= n <= |s| && (from < at ==> !IsSpace(s[at - 1]))
    requires forall k :: at <= k < n ==> IsSpace(s[k])
    ensures TrimSpaces(s, from, n) == at
    decreases n - at
  {
    if at == n {
    } else {
      TrimTo(s, from, at, n - 1);
    }
  }

  /** Stripping removes the whitespace around stripped text, and nothing else. */
  lemma StripPadded(left: string, s: string, right: string)
    requires Stripped(s) && AllSpaces(left) && AllSpaces(right)
    ensures Strip(left + s + right) == s
  {
    var t := left + s + right;
    if s == "" {
      assert forall k :: 0 <= k < |t| ==> IsSpace(t[k]);
      SkipTo(t, 0, |t|);
    } else {
      var from, end := |left|, |left| + |s|;
      assert t[from] == s[0] && t[end - 1] == s[|s| - 1];
      assert forall k :: 0 <= k < from ==> t[k] == left[k];
      assert forall k :: end <= k < |t| ==> t[k] == right[k - end];
      SkipTo(t, 0, from);
      TrimTo(t, from, end, |t|);
      assert t[from..end] == s;
    }
  }

  /** Where the first `c` from `i` on is, or the end. */
  function Find<T(==)>(s: seq<T>, c: T, i: nat): (at: nat)
    requires i <= |s|
    ensures i <= at <= |s|
    decreases |s| - i
  {
    if i == |s| || s[i] == c then i else Find(s, c, i + 1)
  }

  lemma {:induction false} FindAfter<T>(s: seq<T>, c: T, rest: seq<T>, i: nat)
    requires i <= |s| && c !in s
    requires rest == [] || rest[0] == c
    ensures Find(s + rest, c, i) == |s|
    decreases |s| - i
  {
    if i == |s| {
    } else {
      FindAfter(s, c, rest, i + 1);
    }
  }

  lemma {:induction false} FindStops<T>(s: seq<T>, c: T, i: nat)
    requires i <= |s|
    ensures forall k :: i <= k < Find(s, c, i) ==> s[k] != c
    ensures Find(s, c, i) < |s| ==> s[Find(s, c, i)] == c
    decreases |s| - i
  {
    if i == |s| || s[i] == c {
    } else {
      FindStops(s, c, i + 1);
    }
  }

  /** What precedes the first `c` is a word without one exactly where the word is all there
      is, or is followed by `c`. */
  lemma FirstIs<T>(s: seq<T>, c: T, word: seq<T>)
    requires c !in word
    ensures s[..Find(s, c, 0)] == word <==> s == word || word + [c] <= s
  {
    FindStops(s, c, 0);
    var at := Find(s, c, 0);
    if s == word || word + [c] <= s {
      var rest := s[|word|..];
      assert s == word + rest;
      FindAfter(word, c, rest, 0);
    }
    if at < |s| {
      assert s[..at + 1] == s[..at] + [c];
    }
  }
}
