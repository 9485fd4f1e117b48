/** The interpreter is correct: printing a pattern's syntax tree and rendering the text gives
    what the tree means. */
module Fluent {
  import opened Prelude
  import opened Text
  import opened Interpreter

  datatype Inline = Lit(text: string) | Ref(name: string)
  datatype Branch = Branch(star: bool, key: string, body: seq<Inline>)
  datatype Node = Plain(inline: Inline) | Sel(name: string, branches: seq<Branch>)

  // ----------------------------------------------------------------- what a tree means

  function Meaning(n: Inline, args: Args): string {
    match n
    case Lit(text) => text
    case Ref(name) =>
      if name !in args then "{$" + name + "}" else if args[name] == Null then "None" else args[name].text
  }

  function BodyMeaning(body: seq<Inline>, args: Args): string {
    if body == [] then "" else Meaning(body[0], args) + BodyMeaning(body[1..], args)
  }

  /** The first branch for a value's text: its key is the text, or `one` for 1. */
  function Matching(branches: seq<Branch>, text: string): Option<Branch> {
    if branches == [] then None
    else if branches[0].key == text || (branches[0].key == "one" && text == "1") then Some(branches[0])
    else Matching(branches[1..], text)
  }

  /** The last starred branch. */
  function Starred(branches: seq<Branch>): Option<Branch> {
    if branches == [] then None
    else
      var later := Starred(branches[1..]);
      if later.Some? then later else if branches[0].star then Some(branches[0]) else None
  }

  function NodeMeaning(n: Node, args: Args): string {
    match n
    case Plain(inline) => Meaning(inline, args)
    case Sel(name, branches) =>
      var given := name in args && args[name] != Null;
      var matching := if given then Matching(branches, args[name].text) else None;
      var starred := Starred(branches);
      if matching.Some? then BodyMeaning(matching.value.body, args)
      else if starred.Some? then BodyMeaning(starred.value.body, args)
      else ""
  }

  function TreeMeaning(tree: seq<Node>, args: Args): string {
    if tree == [] then "" else NodeMeaning(tree[0], args) + TreeMeaning(tree[1..], args)
  }

  // ------------------------------------------------------------------ how it is printed

  function Braced(inner: string): string {
    "{" + (inner + "}")
  }

  function Padded(name: string): string {
    " $" + name + " "
  }

  function Print(n: Inline): string {
    match n
    case Lit(text) => text
    case Ref(name) => Braced(Padded(name))
  }

  function PrintBody(body: seq<Inline>): string {
    if body == [] then "" else Print(body[0]) + PrintBody(body[1..])
  }

  function PrintMark(b: Branch): string {
    (if b.star then "*" else "") + "[" + b.key + "]"
  }

  function PrintBranch(b: Branch): string {
    PrintMark(b) + (" " + PrintBody(b.body) + "\n")
  }

  function PrintBranches(branches: seq<Branch>): string {
    if branches == [] then ""
    else PrintBranch(branches[0]) + PrintBranches(branches[1..])
  }

  function PrintNode(n: Node): string {
    match n
    case Plain(inline) => Print(inline)
    case Sel(name, branches) => Braced(Padded(name) + ("->" + ("\n" + PrintBranches(branches))))
  }

  function PrintTree(tree: seq<Node>): string {
    if tree == [] then "" else PrintNode(tree[0]) + PrintTree(tree[1..])
  }

  predicate Name(name: string) {
    forall c :: c in name ==> KeyChar(c)
  }

  /** No brace but a reference's own. */
  predicate Braceless(n: Inline) {
    match n
    case Lit(text) => '{' !in text && '}' !in text
    case Ref(name) => Name(name)
  }

  /** A branch's body: no brace but its references', no mark, no whitespace at its ends. */
  predicate Readable(body: seq<Inline>) {
    && (forall i :: 0 <= i < |body| ==> Braceless(body[i]))
    && Stripped(PrintBody(body))
    && NextMark(PrintBody(body), 0) == |PrintBody(body)|
  }

  predicate Printable(n: Node) {
    match n
    case Plain(Lit(text)) => '{' !in text
    case Plain(Ref(name)) => Name(name)
    case Sel(name, branches) =>
      Name(name) && forall i :: 0 <= i < |branches| ==>
        Name(branches[i].key) && branches[i].key != "" && Readable(branches[i].body)
  }

  // ------------------------------------------- rendering distributes over concatenation

  /** Whether every placeable that opens at the top from `i` on is closed. */
  predicate Closed(s: string, i: nat)
    requires i <= |s|
    decreases |s| - i
  {
    if i == |s| then true
    else if s[i] != '{' then Closed(s, i + 1)
    else CloseFrom(s, i, 0).Some? && Closed(s, CloseFrom(s, i, 0).value + 1)
  }

  lemma {:induction false} CloseStays(a: string, b: string, i: nat, depth: int)
    requires i <= |a| && CloseFrom(a, i, depth).Some?
    ensures CloseFrom(a + b, i, depth) == CloseFrom(a, i, depth)
    decreases |a| - i
  {
    assert (a + b)[i] == a[i];
    if depth + Delta(a[i]) == 0 {
    } else {
      CloseStays(a, b, i + 1, depth + Delta(a[i]));
    }
  }

  lemma {:induction false} CloseShifts(a: string, b: string, i: nat, depth: int)
    requires i <= |b|
    ensures CloseFrom(a + b, |a| + i, depth) ==
            var end := CloseFrom(b, i, depth);
            if end.None? then None else Some(|a| + end.value)
    decreases |b| - i
  {
    if i == |b| {
    } else {
      assert (a + b)[|a| + i] == b[i];
      CloseShifts(a, b, i + 1, depth + Delta(b[i]));
    }
  }

  lemma SamePlaceable(t: string, j: nat, tEnd: nat, s: string, i: nat, sEnd: nat, args: Args)
    requires j < |t| && t[j] == '{' && CloseFrom(t, j, 0) == Some(tEnd)
    requires i < |s| && s[i] == '{' && CloseFrom(s, i, 0) == Some(sEnd)
    requires t[j + 1..tEnd] == s[i + 1..sEnd] && PatternFrom(t, tEnd + 1, args) == PatternFrom(s, sEnd + 1, args)
    ensures PatternFrom(t, j, args) == PatternFrom(s, i, args)
  {
    hide Placeable;
  }

  lemma {:induction false} PatternShifts(a: string, b: string, i: nat, args: Args)
    requires i <= |b|
    ensures PatternFrom(a + b, |a| + i, args) == PatternFrom(b, i, args)
    decreases |b| - i
  {
    hide Placeable;
    if i == |b| {
    } else {
      assert (a + b)[|a| + i] == b[i] && (a + b)[|a| + i..] == b[i..];
      if b[i] != '{' {
        PatternShifts(a, b, i + 1, args);
      } else {
        CloseShifts(a, b, i, 0);
        var end := CloseFrom(b, i, 0);
        if end.Some? {
          assert (a + b)[|a| + i + 1..|a| + end.value] == b[i + 1..end.value];
          PatternShifts(a, b, end.value + 1, args);
          SamePlaceable(a + b, |a| + i, |a| + end.value, b, i, end.value, args);
        }
      }
    }
  }

  lemma JoinAssociates(a: Rendering, b: Rendering, c: Rendering)
    ensures Join(Join(a, b), c) == Join(a, Join(b, c))
  {
    if a.Ok? && b.Ok? {
      JoinMore(a.value, b.value, c);
    }
  }

  lemma {:induction false} PatternSplits(a: string, b: string, i: nat, args: Args)
    requires i <= |a| && Closed(a, i)
    ensures PatternFrom(a + b, i, args) == Join(PatternFrom(a, i, args), PatternFrom(b, 0, args))
    decreases |a| - i
  {
    hide Placeable;
    var rest := PatternFrom(b, 0, args);
    if i == |a| {
      PatternShifts(a, b, 0, args);
      JoinNothing(rest);
    } else if a[i] != '{' {
      assert (a + b)[i] == a[i];
      PatternSplits(a, b, i + 1, args);
      JoinAssociates(Ok([a[i]]), PatternFrom(a, i + 1, args), rest);
    } else {
      var end := CloseFrom(a, i, 0).value;
      CloseStays(a, b, i, 0);
      assert (a + b)[i] == a[i] && (a + b)[i + 1..end] == a[i + 1..end];
      PatternSplits(a, b, end + 1, args);
      JoinAssociates(Placeable(a[i + 1..end], args), PatternFrom(a, end + 1, args), rest);
    }
  }

  /** After a prefix whose placeables are closed, the rest of a pattern renders on its own:
      what a placeable was replaced by is never read again. */
  lemma PatternDistributes(a: string, b: string, args: Args)
    requires Closed(a, 0)
    ensures Pattern(a + b, args) == Join(Pattern(a, args), Pattern(b, args))
  {
    PatternSplits(a, b, 0, args);
  }

  lemma {:induction false} ClosedConcat(a: string, b: string, i: nat)
    requires i <= |a| && Closed(a, i) && Closed(b, 0)
    ensures Closed(a + b, i)
    decreases |a| - i
  {
    if i == |a| {
      ClosedShifts(a, b, 0);
    } else {
      assert (a + b)[i] == a[i];
      if a[i] != '{' {
        ClosedConcat(a, b, i + 1);
      } else {
        CloseStays(a, b, i, 0);
        ClosedConcat(a, b, CloseFrom(a, i, 0).value + 1);
      }
    }
  }

  lemma {:induction false} ClosedShifts(a: string, b: string, i: nat)
    requires i <= |b| && Closed(b, i)
    ensures Closed(a + b, |a| + i)
    decreases |b| - i
  {
    if i == |b| {
    } else {
      assert (a + b)[|a| + i] == b[i];
      if b[i] != '{' {
        ClosedShifts(a, b, i + 1);
      } else {
        CloseShifts(a, b, i, 0);
        ClosedShifts(a, b, CloseFrom(b, i, 0).value + 1);
      }
    }
  }

  // ------------------------------------------------------------------ balanced text

  /** The depth after `s` from `i` on, unless it falls below one on the way. */
  function Survives(s: string, i: nat, depth: int): Option<int>
    requires i <= |s|
    decreases |s| - i
  {
    if i == |s| then Some(depth)
    else if depth + Delta(s[i]) < 1 then None
    else Survives(s, i + 1, depth + Delta(s[i]))
  }

  ghost predicate Balanced(s: string) {
    forall depth :: 1 <= depth ==> Survives(s, 0, depth) == Some(depth)
  }

  lemma {:induction false} SurvivesPlain(s: string, i: nat, depth: int)
    requires i <= |s| && 1 <= depth && '{' !in s && '}' !in s
    ensures Survives(s, i, depth) == Some(depth)
    decreases |s| - i
  {
    if i == |s| {
    } else {
      SurvivesPlain(s, i + 1, depth);
    }
  }

  lemma PlainIsBalanced(s: string)
    requires '{' !in s && '}' !in s
    ensures Balanced(s)
  {
    forall depth | 1 <= depth {
      SurvivesPlain(s, 0, depth);
    }
  }

  lemma {:induction false} SurvivesConcat(a: string, b: string, i: nat, depth: int)
    requires i <= |a|
    ensures Survives(a + b, i, depth) ==
            var between := Survives(a, i, depth);
            if between.None? then None else Survives(a + b, |a|, between.value)
    decreases |a| - i
  {
    if i == |a| {
    } else {
      assert (a + b)[i] == a[i];
      SurvivesConcat(a, b, i + 1, depth + Delta(a[i]));
    }
  }

  lemma {:induction false} SurvivesShifts(a: string, b: string, i: nat, depth: int)
    requires i <= |b|
    ensures Survives(a + b, |a| + i, depth) == Survives(b, i, depth)
    decreases |b| - i
  {
    if i == |b| {
    } else {
      assert (a + b)[|a| + i] == b[i];
      SurvivesShifts(a, b, i + 1, depth + Delta(b[i]));
    }
  }

  lemma BalancedConcat(a: string, b: string)
    requires Balanced(a) && Balanced(b)
    ensures Balanced(a + b)
  {
    forall depth | 1 <= depth
      ensures Survives(a + b, 0, depth) == Some(depth)
    {
      SurvivesConcat(a, b, 0, depth);
      SurvivesShifts(a, b, 0, depth);
    }
  }

  lemma BalancedInBraces(s: string)
    requires Balanced(s)
    ensures Balanced(Braced(s))
  {
    forall depth | 1 <= depth
      ensures Survives(Braced(s), 0, depth) == Some(depth)
    {
      SurvivesConcat("{", s + "}", 0, depth);
      SurvivesShifts("{", s + "}", 0, depth + 1);
      SurvivesConcat(s, "}", 0, depth + 1);
      SurvivesShifts(s, "}", 0, depth + 1);
    }
  }

  lemma {:induction false} CloseSkips(s: string, rest: string, i: nat, depth: int)
    requires i <= |s| && Survives(s, i, depth).Some?
    ensures CloseFrom(s + rest, i, depth) == CloseFrom(s + rest, |s|, Survives(s, i, depth).value)
    decreases |s| - i
  {
    if i == |s| {
    } else {
      assert (s + rest)[i] == s[i];
      CloseSkips(s, rest, i + 1, depth + Delta(s[i]));
    }
  }

  lemma BracesClose(inner: string)
    requires Balanced(inner)
    ensures CloseFrom(Braced(inner), 0, 0) == Some(|inner| + 1)
  {
    var after := inner + "}";
    CloseShifts("{", after, 0, 1);
    CloseSkips(inner, "}", 0, 1);
    assert CloseFrom(after, |inner|, 1) == Some(|inner|);
  }

  /** A placeable of balanced text renders as that placeable, and closes where it ends. */
  lemma BracesRender(inner: string, args: Args)
    requires Balanced(inner)
    ensures Closed(Braced(inner), 0)
    ensures Pattern(Braced(inner), args) == Placeable(inner, args)
  {
    hide Placeable;
    var t := Braced(inner);
    BracesClose(inner);
    assert t[1..|inner| + 1] == inner && |t| == |inner| + 2;
    assert PatternFrom(t, 0, args) == Join(Placeable(inner, args), PatternFrom(t, |inner| + 2, args));
    JoinNothing(Placeable(inner, args));
  }

  // ---------------------------------------------------------------- references

  lemma NameChars(name: string)
    requires Name(name)
    ensures forall c :: c in "$" + name ==> !IsSpace(c) && c != '{' && c != '}' && c != '>'
  {
  }

  lemma {:induction false} NoArrow(s: string, i: nat)
    requires '>' !in s
    ensures Arrow(s, i) == None
    decreases |s| - i
  {
    if |s| < i + 2 {
    } else {
      NoArrow(s, i + 1);
    }
  }

  lemma {:induction false} FirstArrow(a: string, rest: string, i: nat)
    requires '>' !in a && i <= |a|
    ensures Arrow(a + ("->" + rest), i) == Some(|a|)
    decreases |a| - i
  {
    var s := a + ("->" + rest);
    if i == |a| {
    } else {
      assert s[i + 1] == if i + 1 < |a| then a[i + 1] else '-';
      FirstArrow(a, rest, i + 1);
    }
  }

  lemma PaddedStrips(name: string)
    requires Name(name)
    ensures Strip(Padded(name)) == "$" + name
    ensures forall c :: c in Padded(name) ==> c != '{' && c != '}' && c != '>'
  {
    NameChars(name);
    var reference := "$" + name;
    assert reference[|reference| - 1] in reference;
    StripPadded(" ", reference, " ");
    assert " " + reference + " " == Padded(name);
  }

  lemma ReferenceRenders(name: string, args: Args)
    requires Name(name)
    ensures Closed(Print(Ref(name)), 0) && Balanced(Print(Ref(name)))
    ensures Pattern(Print(Ref(name)), args) == Ok(Meaning(Ref(name), args))
  {
    var inner := Padded(name);
    PaddedStrips(name);
    PlainIsBalanced(inner);
    BalancedInBraces(inner);
    BracesRender(inner, args);
    NoArrow(inner, 0);
    assert ("$" + name)[1..] == name;
  }

  lemma {:induction false} LiteralRenders(text: string, i: nat, args: Args)
    requires i <= |text| && '{' !in text
    ensures Closed(text, i) && PatternFrom(text, i, args) == Ok(text[i..])
    decreases |text| - i
  {
    if i == |text| {
      assert text[i..] == "";
    } else {
      LiteralRenders(text, i + 1, args);
      assert text[i] in text && [text[i]] + text[i + 1..] == text[i..];
    }
  }

  lemma {:induction false} BodyRenders(body: seq<Inline>, args: Args)
    requires forall i :: 0 <= i < |body| ==> Braceless(body[i])
    ensures Closed(PrintBody(body), 0) && Balanced(PrintBody(body))
    ensures Pattern(PrintBody(body), args) == Ok(BodyMeaning(body, args))
  {
    hide Pattern, Print, Closed;
    if body == [] {
      EmptyRenders(args);
    } else {
      InlineRenders(body[0], args);
      BodyRenders(body[1..], args);
      ClosedConcat(Print(body[0]), PrintBody(body[1..]), 0);
      BalancedConcat(Print(body[0]), PrintBody(body[1..]));
      PatternDistributes(Print(body[0]), PrintBody(body[1..]), args);
    }
  }

  lemma EmptyRenders(args: Args)
    ensures Closed("", 0) && Balanced("") && Pattern("", args) == Ok("")
  {
    PlainIsBalanced("");
  }

  lemma InlineRenders(n: Inline, args: Args)
    requires Braceless(n)
    ensures Closed(Print(n), 0) && Balanced(Print(n))
    ensures Pattern(Print(n), args) == Ok(Meaning(n, args))
  {
    match n
    case Lit(text) =>
      LiteralRenders(text, 0, args);
      PlainIsBalanced(text);
      assert text[0..] == text;
    case Ref(name) => ReferenceRenders(name, args);
  }

  // ------------------------------------------------------------------- selects

  /** The variants printed branches read as. */
  function Read(branches: seq<Branch>): seq<Variant> {
    seq(|branches|, i requires 0 <= i < |branches| =>
      Variant(branches[i].star, branches[i].key, PrintBody(branches[i].body)))
  }

  lemma MarkReads(pre: string, b: Branch, rest: string)
    requires b.key != "" && Name(b.key)
    ensures var s := pre + (PrintMark(b) + rest);
            MarkAt(s, |pre|) == Some(Mark(b.star, b.key, |pre|, |pre| + |PrintMark(b)|))
  {
    assert PrintMark(b) == Marked(b.star, b.key);
    MarkedReads(pre, b.star, b.key, rest);
  }

  lemma {:induction false} KeyEndInside(p: string, s: string, off: nat, i: nat)
    requires i <= |p| && off + |p| < |s| && s[off..off + |p|] == p && !KeyChar(s[off + |p|])
    ensures KeyEnd(s, off + i) == off + KeyEnd(p, i)
    decreases |p| - i
  {
    if i == |p| {
    } else {
      assert s[off + i] == p[i];
      KeyEndInside(p, s, off, i + 1);
    }
  }

  /** Text followed by a line break starts no mark that it does not start on its own. */
  lemma NoMarkInside(p: string, s: string, off: nat, i: nat)
    requires i < |p| && off + |p| < |s| && s[off..off + |p|] == p && s[off + |p|] == '\n'
    requires MarkAt(p, i).None?
    ensures MarkAt(s, off + i).None?
  {
    assert forall k :: 0 <= k < |p| ==> s[off + k] == p[k];
    var open := if p[i] == '*' then i + 1 else i;
    if open < |p| && p[open] == '[' {
      KeyEndInside(p, s, off, open + 1);
      var close := KeyEnd(p, open + 1);
      if close < |p| {
        assert s[off + close] == p[close];
      }
    }
  }

  lemma NoMarkOnSpace(s: string, i: nat)
    requires i < |s| && IsSpace(s[i])
    ensures MarkAt(s, i).None?
  {
  }

  lemma {:induction false} NextMarkIs(s: string, i: nat, at: nat)
    requires i <= at <= |s| && (at < |s| ==> MarkAt(s, at).Some?)
    requires forall k :: i <= k < at ==> MarkAt(s, k).None?
    ensures NextMark(s, i) == at
    decreases at - i
  {
    hide MarkAt;
    if i == at {
    } else {
      NextMarkIs(s, i + 1, at);
    }
  }

  lemma {:induction false} NoMarkBefore(p: string, i: nat, k: nat)
    requires i <= |p| && i <= k < NextMark(p, i)
    ensures MarkAt(p, k).None?
    decreases k - i
  {
    hide MarkAt;
    if i == k {
    } else {
      NoMarkBefore(p, i + 1, k);
    }
  }

  /** A branch's text runs to the next branch, or to the end. */
  lemma BodyRuns(pre: string, p: string, rest: string)
    requires NextMark(p, 0) == |p|
    requires rest == "" || MarkAt(pre + (" " + p + "\n") + rest, |pre| + |p| + 2).Some?
    ensures NextMark(pre + (" " + p + "\n") + rest, |pre|) == |pre| + |p| + 2
  {
    hide MarkAt, NextMark;
    var s, off := pre + (" " + p + "\n") + rest, |pre| + 1;
    assert s[off..off + |p|] == p && s[|pre|] == ' ' && s[off + |p|] == '\n';
    forall k | |pre| <= k < |pre| + |p| + 2
      ensures MarkAt(s, k).None?
    {
      if off <= k < off + |p| {
        NoMarkBefore(p, 0, k - off);
        NoMarkInside(p, s, off, k - off);
      } else {
        NoMarkOnSpace(s, k);
      }
    }
    NextMarkIs(s, |pre|, |pre| + |p| + 2);
  }

  lemma BranchReads(pre: string, b: Branch, rest: string)
    requires Name(b.key) && b.key != "" && Readable(b.body)
    requires rest == "" || MarkAt(pre + PrintBranch(b) + rest, |pre + PrintBranch(b)|).Some?
    ensures var s := pre + PrintBranch(b) + rest;
            && MarkAt(s, |pre|).Some?
            && Variants(s, |pre|) ==
               [Variant(b.star, b.key, PrintBody(b.body))] + Variants(s, |pre + PrintBranch(b)|)
  {
    hide MarkAt, NextMark, Strip, Variants, PrintMark, Readable;
    var p, mark := PrintBody(b.body), PrintMark(b);
    var text := " " + p + "\n";
    var s, end := (pre + mark) + text + rest, |pre| + |mark|;
    Regroup(pre, mark, text, rest);
    assert NextMark(p, 0) == |p| && Stripped(p) by {
      ReadableText(b.body);
    }
    MarkReads(pre, b, text + rest);
    BodyRuns(pre + mark, p, rest);
    NextMarkIs(s, |pre|, |pre|);
    StripPadded(" ", p, "\n");
    MarkedText(s, |pre|, Mark(b.star, b.key, |pre|, end), p);
  }

  lemma ReadableText(body: seq<Inline>)
    requires Readable(body)
    ensures NextMark(PrintBody(body), 0) == |PrintBody(body)| && Stripped(PrintBody(body))
  {
  }

  lemma Regroup(a: string, b: string, c: string, d: string)
    ensures a + (b + c) + d == a + (b + (c + d)) == (a + b) + c + d
    ensures ((a + b) + c + d)[|a| + |b|..|a| + |b| + |c|] == c
  {
  }

  lemma MarkedText(s: string, at: nat, m: Mark, p: string)
    requires at < m.end <= |s| && NextMark(s, at) == at && MarkAt(s, at) == Some(m)
    requires Strip(s[m.end..NextMark(s, m.end)]) == p
    ensures Variants(s, at) == [Variant(m.star, m.key, p)] + Variants(s, NextMark(s, m.end))
  {
    NextMarkStays(s, m.end);
  }

  lemma {:induction false} NextMarkStays(s: string, i: nat)
    requires i <= |s|
    ensures NextMark(s, NextMark(s, i)) == NextMark(s, i)
    decreases |s| - i
  {
    hide MarkAt;
    if i == |s| || MarkAt(s, i).Some? {
    } else {
      NextMarkStays(s, i + 1);
    }
  }

  lemma {:induction false} BranchesRead(pre: string, branches: seq<Branch>)
    requires forall i :: 0 <= i < |branches| ==>
               Name(branches[i].key) && branches[i].key != "" && Readable(branches[i].body)
    ensures Variants(pre + PrintBranches(branches), |pre|) == Read(branches)
    ensures branches != [] ==> MarkAt(pre + PrintBranches(branches), |pre|).Some?
    decreases |branches|
  {
    hide MarkAt, Strip, PrintBranch, Readable;
    var s := pre + PrintBranches(branches);
    if branches == [] {
      assert s == pre;
    } else {
      var b, rest := branches[0], PrintBranches(branches[1..]);
      var next := pre + PrintBranch(b);
      assert s == next + rest;
      BranchesRead(next, branches[1..]);
      assert rest == "" || MarkAt(s, |next|).Some?;
      BranchReads(pre, b, rest);
      assert Read(branches) == [Variant(b.star, b.key, PrintBody(b.body))] + Read(branches[1..]);
    }
  }

  // ---------------------------------------------------------- which branch is picked

  lemma {:induction false} ChosenFromFirst(vs: seq<Variant>, n: nat, value: Value)
    requires 0 < n <= |vs|
    ensures Chosen(vs, n, value) ==
            if value != Null && Matches(vs[0].key, value) then Some(vs[0].text) else Chosen(vs[1..], n - 1, value)
  {
    if 1 == n {
    } else {
      ChosenFromFirst(vs, n - 1, value);
    }
  }

  /** The last starred of the first `n` variants, told apart from there being none. */
  function StarredText(vs: seq<Variant>, n: nat): Option<string>
    requires n <= |vs|
  {
    if n == 0 then None else if vs[n - 1].star then Some(vs[n - 1].text) else StarredText(vs, n - 1)
  }

  lemma {:induction false} DefaultIsStarred(vs: seq<Variant>, n: nat)
    requires n <= |vs|
    ensures Default(vs, n) == if StarredText(vs, n).Some? then StarredText(vs, n).value else ""
  {
    if n == 0 {
    } else {
      DefaultIsStarred(vs, n - 1);
    }
  }

  lemma {:induction false} StarredFromFirst(vs: seq<Variant>, n: nat)
    requires 0 < n <= |vs|
    ensures StarredText(vs, n) ==
            var later := StarredText(vs[1..], n - 1);
            if later.Some? then later else if vs[0].star then Some(vs[0].text) else None
  {
    if 1 == n {
    } else {
      StarredFromFirst(vs, n - 1);
    }
  }

  function TextOf(b: Option<Branch>): Option<string> {
    if b.Some? then Some(PrintBody(b.value.body)) else None
  }

  function MatchingFor(branches: seq<Branch>, value: Value): Option<Branch> {
    if value == Null then None else Matching(branches, value.text)
  }

  lemma {:induction false} PicksAsMeant(branches: seq<Branch>, value: Value)
    ensures Chosen(Read(branches), |branches|, value) == TextOf(MatchingFor(branches, value))
    ensures StarredText(Read(branches), |branches|) == TextOf(Starred(branches))
    ensures MatchingFor(branches, value).Some? ==> MatchingFor(branches, value).value in branches
    ensures Starred(branches).Some? ==> Starred(branches).value in branches
  {
    if branches == [] {
    } else {
      PicksAsMeant(branches[1..], value);
      assert Read(branches)[1..] == Read(branches[1..]);
      ChosenFromFirst(Read(branches), |branches|, value);
      StarredFromFirst(Read(branches), |branches|);
      if value == Null {
        NoneChosen(Read(branches), |branches|);
      }
    }
  }

  lemma {:induction false} NoneChosen(vs: seq<Variant>, n: nat)
    requires n <= |vs|
    ensures Chosen(vs, n, Null) == None
  {
    if n == 0 {
    } else {
      NoneChosen(vs, n - 1);
    }
  }

  lemma PickIsMeaning(selector: string, name: string, branches: seq<Branch>, args: Args)
    requires Printable(Sel(name, branches)) && selector == Padded(name)
    ensures Pattern(Pick(selector, "\n" + PrintBranches(branches), args), args) ==
            Ok(NodeMeaning(Sel(name, branches), args))
  {
    hide MarkAt, NextMark, Strip, Pattern;
    var body, value := "\n" + PrintBranches(branches), Lookup(args, name);
    PaddedStrips(name);
    assert Unprefixed("$" + name) == name;
    BranchesRead("\n", branches);
    SkipsLineBreak(body);
    PicksAsMeant(branches, value);
    DefaultIsStarred(Read(branches), |branches|);
    assert Pick(selector, body, args) == PickOf(Read(branches), value);
    EmptyRenders(args);
    if MatchingFor(branches, value).Some? {
      BodyRenders(MatchingFor(branches, value).value.body, args);
    }
    if Starred(branches).Some? {
      BodyRenders(Starred(branches).value.body, args);
    }
  }

  lemma SkipsLineBreak(body: string)
    requires body != "" && body[0] == '\n'
    ensures Variants(body, 0) == Variants(body, 1)
  {
    hide MarkAt, Strip;
    NoMarkOnSpace(body, 0);
    assert NextMark(body, 0) == NextMark(body, 1);
  }

  lemma MarkBalanced(b: Branch)
    requires Name(b.key)
    ensures Balanced(PrintMark(b) + " ")
  {
    hide Balanced;
    PlainIsBalanced(PrintMark(b) + " ");
  }

  lemma BranchBalanced(b: Branch, args: Args)
    requires Name(b.key) && Readable(b.body)
    ensures Balanced(PrintBranch(b))
  {
    hide Survives, Balanced, PrintBody, PrintMark, Name;
    var mark, body := PrintMark(b) + " ", PrintBody(b.body);
    BodyRenders(b.body, args);
    MarkBalanced(b);
    PlainIsBalanced("\n");
    BalancedConcat(mark, body);
    BalancedConcat(mark + body, "\n");
    assert PrintBranch(b) == mark + body + "\n";
  }

  lemma {:induction false} BranchesBalanced(branches: seq<Branch>, args: Args)
    requires forall i :: 0 <= i < |branches| ==> Name(branches[i].key) && Readable(branches[i].body)
    ensures Balanced(PrintBranches(branches))
  {
    hide Survives, PrintBranch, Balanced, Readable, Name;
    PlainIsBalanced("");
    if branches == [] {
    } else {
      BranchBalanced(branches[0], args);
      BranchesBalanced(branches[1..], args);
      BalancedConcat(PrintBranch(branches[0]), PrintBranches(branches[1..]));
    }
  }

  lemma SelectRenders(name: string, branches: seq<Branch>, args: Args)
    requires Printable(Sel(name, branches))
    ensures Closed(PrintNode(Sel(name, branches)), 0)
    ensures Pattern(PrintNode(Sel(name, branches)), args) == Ok(NodeMeaning(Sel(name, branches), args))
  {
    hide Pattern, Closed, Pick, PrintBranches, NodeMeaning, Survives;
    var selector, body := Padded(name), "\n" + PrintBranches(branches);
    var inner := selector + ("->" + body);
    PaddedStrips(name);
    PlainIsBalanced(selector);
    PlainIsBalanced("->");
    PlainIsBalanced("\n");
    BranchesBalanced(branches, args);
    BalancedConcat("\n", PrintBranches(branches));
    BalancedConcat("->", body);
    BalancedConcat(selector, "->" + body);
    BracesRender(inner, args);
    FirstArrow(selector, body, 0);
    assert inner[..|selector|] == selector && inner[|selector| + 2..] == body;
    PickIsMeaning(selector, name, branches, args);
    assert Placeable(inner, args) == Pattern(Pick(selector, body, args), args) by {
      PlaceableSelects(inner, |selector|, args);
    }
  }

  lemma PlaceableSelects(inner: string, at: nat, args: Args)
    requires at + 2 <= |inner| && Arrow(inner, 0) == Some(at)
    ensures Placeable(inner, args) == Pattern(Pick(inner[..at], inner[at + 2..], args), args)
  {
    hide Pick;
  }

  lemma NodeRenders(n: Node, args: Args)
    requires Printable(n)
    ensures Closed(PrintNode(n), 0)
    ensures Pattern(PrintNode(n), args) == Ok(NodeMeaning(n, args))
  {
    hide Pattern, Closed;
    match n
    case Plain(Lit(text)) =>
      LiteralPatternRenders(text, args);
    case Plain(Ref(name)) => ReferenceRenders(name, args);
    case Sel(name, branches) => SelectRenders(name, branches, args);
  }

  lemma LiteralPatternRenders(text: string, args: Args)
    requires '{' !in text
    ensures Closed(text, 0) && Pattern(text, args) == Ok(text)
  {
    LiteralRenders(text, 0, args);
    assert text[0..] == text;
  }

  /** The interpreter is correct: what a printed tree renders to is what the tree means, its
      arguments' values put in as they are, whatever braces or marks they hold. */
  lemma {:induction false} PrintedTreeRenders(tree: seq<Node>, args: Args)
    requires forall i :: 0 <= i < |tree| ==> Printable(tree[i])
    ensures Closed(PrintTree(tree), 0)
    ensures Pattern(PrintTree(tree), args) == Ok(TreeMeaning(tree, args))
  {
    hide Pattern, Closed, PrintNode, NodeMeaning, Printable;
    if tree == [] {
      EmptyRenders(args);
    } else {
      NodeRenders(tree[0], args);
      PrintedTreeRenders(tree[1..], args);
      ClosedConcat(PrintNode(tree[0]), PrintTree(tree[1..]), 0);
      PatternDistributes(PrintNode(tree[0]), PrintTree(tree[1..]), args);
    }
  }

  /** A brace never closed fails the rendering, with the rest of the pattern from it, if what
      stands before it renders. */
  lemma UnclosedFails(before: string, rest: string, args: Args)
    requires Closed(before, 0) && Pattern(before, args).Ok?
    requires rest != "" && rest[0] == '{' && forall n :: 0 < n <= |rest| ==> Net(rest, 0, n) != 0
    ensures Pattern(before + rest, args) == Err(rest)
  {
    hide Closed;
    CloseIsLeast(rest, 0);
    assert CloseFrom(rest, 0, 0).None?;
    assert rest[0..] == rest && Pattern(rest, args) == Err(rest);
    PatternDistributes(before, rest, args);
  }

  /** A placeable that is no select is a reference where its text, stripped, starts with `$`,
      and is else left as it is written: nothing else is read. */
  lemma OtherPlaceables(inner: string, args: Args)
    requires Balanced(inner) && Arrow(inner, 0).None?
    ensures Pattern("{" + inner + "}", args) ==
            var reference := Strip(inner);
            if !("$" <= reference) then Ok("{" + inner + "}")
            else if reference[1..] !in args then Ok("{$" + reference[1..] + "}")
            else if args[reference[1..]] == Null then Ok("None")
            else Ok(args[reference[1..]].text)
  {
    hide Balanced, Strip;
    BracesRender(inner, args);
    assert "{" + inner + "}" == Braced(inner);
  }
}
