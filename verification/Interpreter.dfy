/** The catalogs' subset of Fluent: `{ $arg }` placeables and one level of select expressions
    on an argument. Functions say what a pattern renders to; the methods are the loops that
    render it. */
module Interpreter {
  import opened Prelude
  import opened Text

  /** An argument's value: None, or anything else by its text. */
  datatype Value = Null | Shown(text: string)

  type Args = map<string, Value>

  function Str(value: Value): string {
    if value.Null? then "None" else value.text
  }

  /** What rendering gives: the text, or the rest of the pattern from the brace that is never
      closed. */
  type Rendering = Result<string, string>

  function Join(a: Rendering, b: Rendering): Rendering {
    if a.Err? then a else if b.Err? then b else Ok(a.value + b.value)
  }

  // ------------------------------------------------------------------------ braces

  function Delta(c: char): int {
    if c == '{' then 1 else if c == '}' then -1 else 0
  }

  /** Where the depth, `depth` before `i`, first returns to zero. */
  function CloseFrom(s: string, i: nat, depth: int): (end: Option<nat>)
    requires i <= |s|
    ensures end.Some? ==> i <= end.value < |s|
    ensures end == Some(i) <==> i < |s| && depth + Delta(s[i]) == 0
    decreases |s| - i
  {
    if i == |s| then None
    else if depth + Delta(s[i]) == 0 then Some(i)
    else CloseFrom(s, i + 1, depth + Delta(s[i]))
  }

  /** The braces `s` opens from `i` up to `j`, less those it closes. */
  function Net(s: string, i: nat, j: nat): int
    requires i <= j <= |s|
  {
    if i == j then 0 else Net(s, i, j - 1) + Delta(s[j - 1])
  }

  /** The closing brace is the least place the depth returns to zero, and there is none
      exactly when the depth never does. */
  lemma CloseIsLeast(s: string, start: nat)
    requires start <= |s|
    ensures match CloseFrom(s, start, 0)
            case Some(end) => Net(s, start, end + 1) == 0 && forall n :: start < n <= end ==> Net(s, start, n) != 0
            case None => forall n :: start < n <= |s| ==> Net(s, start, n) != 0
  {
    CloseIsLeastFrom(s, start, start);
  }

  lemma {:induction false} CloseIsLeastFrom(s: string, start: nat, i: nat)
    requires start <= i <= |s|
    ensures match CloseFrom(s, i, Net(s, start, i))
            case Some(end) => Net(s, start, end + 1) == 0 && forall n :: i < n <= end ==> Net(s, start, n) != 0
            case None => forall n :: i < n <= |s| ==> Net(s, start, n) != 0
    decreases |s| - i
  {
    if i == |s| || Net(s, start, i + 1) == 0 {
    } else {
      CloseIsLeastFrom(s, start, i + 1);
    }
  }

  // ------------------------------------------------------------- variants of a select

  predicate KeyChar(c: char) {
    'A' <= c <= 'Z' || 'a' <= c <= 'z' || '0' <= c <= '9' || c == '_' || c == '-'
  }

  /** The characters of a key: ASCII letters and digits, the underscore and the hyphen. */
  lemma KeyCharsAre(c: char)
    ensures KeyChar(c) <==>
            || c in {'A', 'B', 'C', 'D', 'E', 'F', 'G', 'H', 'I', 'J', 'K', 'L', 'M'}
            || c in {'N', 'O', 'P', 'Q', 'R', 'S', 'T', 'U', 'V', 'W', 'X', 'Y', 'Z'}
            || c in {'a', 'b', 'c', 'd', 'e', 'f', 'g', 'h', 'i', 'j', 'k', 'l', 'm'}
            || c in {'n', 'o', 'p', 'q', 'r', 's', 't', 'u', 'v', 'w', 'x', 'y', 'z'}
            || c in {'0', '1', '2', '3', '4', '5', '6', '7', '8', '9', '_', '-'}
  {
  }

  /** Where the run of key characters from `i` on ends. */
  function KeyEnd(s: string, i: nat): (end: nat)
    requires i <= |s|
    ensures i <= end <= |s|
    decreases |s| - i
  {
    if i == |s| || !KeyChar(s[i]) then i else KeyEnd(s, i + 1)
  }

  /** A variant's mark, `[key]` or `*[key]`, from `start` to `end`. */
  datatype Mark = Mark(star: bool, key: string, start: nat, end: nat)

  /** The mark that starts at `i`, if one does. */
  function MarkAt(s: string, i: nat): (m: Option<Mark>)
    requires i <= |s|
    ensures m.Some? ==> i == m.value.start < m.value.end <= |s|
  {
    var star := i < |s| && s[i] == '*';
    var open := if star then i + 1 else i;
    if open < |s| && s[open] == '[' then
      var close := KeyEnd(s, open + 1);
      if open + 1 < close < |s| && s[close] == ']' then Some(Mark(star, s[open + 1..close], i, close + 1)) else None
    else None
  }

  /** A mark as it is written. */
  function Marked(star: bool, key: string): string {
    (if star then "*[" else "[") + key + "]"
  }

  /** A mark is exactly a key, of one key character or more, in brackets, after a star or not. */
  lemma MarkExactly(s: string, i: nat, star: bool, key: string, end: nat)
    requires i <= |s|
    ensures MarkAt(s, i) == Some(Mark(star, key, i, end)) <==>
            && i <= end <= |s| && s[i..end] == (if star then "*[" else "[") + key + "]"
            && key != "" && forall k :: 0 <= k < |key| ==> KeyChar(key[k])
  {
    hide KeyChar, MarkAt;
    if i <= end <= |s| && s[i..end] == Marked(star, key) && key != "" &&
       forall k :: 0 <= k < |key| ==> KeyChar(key[k])
    {
      MarkedReads(s[..i], star, key, s[end..]);
      assert s == s[..i] + (Marked(star, key) + s[end..]);
    }
    if MarkAt(s, i) == Some(Mark(star, key, i, end)) {
      MarkIsMarked(s, i);
    }
  }

  lemma MarkedReads(pre: string, star: bool, key: string, rest: string)
    requires key != "" && forall k :: 0 <= k < |key| ==> KeyChar(key[k])
    ensures var mark := Marked(star, key);
            MarkAt(pre + (mark + rest), |pre|) == Some(Mark(star, key, |pre|, |pre| + |mark|))
  {
    hide KeyChar;
    BracketEndsKey();
    var s, mark := pre + (Marked(star, key) + rest), Marked(star, key);
    var open := |pre| + if star then 1 else 0;
    var close := open + 1 + |key|;
    assert s[|pre|] == mark[0] && s[open] == '[' && s[close] == ']';
    assert s[open + 1..close] == key;
    assert forall k :: open + 1 <= k < close ==> s[k] == key[k - open - 1];
    KeyIs(s, open + 1, close);
  }

  lemma MarkIsMarked(s: string, i: nat)
    requires i <= |s| && MarkAt(s, i).Some?
    ensures var m := MarkAt(s, i).value;
            && s[i..m.end] == Marked(m.star, m.key)
            && m.key != "" && forall k :: 0 <= k < |m.key| ==> KeyChar(m.key[k])
  {
    hide KeyChar;
    var m := MarkAt(s, i).value;
    var at := if m.star then i + 2 else i + 1;
    KeyRuns(s, at);
    assert forall k :: 0 <= k < |m.key| ==> m.key[k] == s[at + k];
    assert s[i..m.end] == s[i..at] + s[at..m.end - 1] + s[m.end - 1..m.end];
  }

  lemma BracketEndsKey()
    ensures !KeyChar(']')
  {
  }

  lemma {:induction false} KeyRuns(s: string, i: nat)
    requires i <= |s|
    ensures forall k :: i <= k < KeyEnd(s, i) ==> KeyChar(s[k])
    decreases |s| - i
  {
    if i == |s| || !KeyChar(s[i]) {
    } else {
      KeyRuns(s, i + 1);
    }
  }

  lemma {:induction false} KeyIs(s: string, i: nat, end: nat)
    requires i <= end < |s| && !KeyChar(s[end])
    requires forall k :: i <= k < end ==> KeyChar(s[k])
    ensures KeyEnd(s, i) == end
    decreases end - i
  {
    if i == end {
    } else {
      KeyIs(s, i + 1, end);
    }
  }

  /** Where the first mark from `i` on starts, or the end. */
  function NextMark(s: string, i: nat): (at: nat)
    requires i <= |s|
    ensures i <= at <= |s| && (at < |s| ==> MarkAt(s, at).Some?)
    decreases |s| - i
  {
    if i == |s| || MarkAt(s, i).Some? then i else NextMark(s, i + 1)
  }

  datatype Variant = Variant(star: bool, key: string, text: string)

  /** The variants of a select's body from `i` on: each mark's text runs to the next mark. */
  function Variants(s: string, i: nat): seq<Variant>
    requires i <= |s|
    decreases |s| - i
  {
    var at := NextMark(s, i);
    if at == |s| then []
    else
      var m := MarkAt(s, at).value;
      [Variant(m.star, m.key, Strip(s[m.end..NextMark(s, m.end)]))] + Variants(s, m.end)
  }

  predicate Matches(key: string, value: Value) {
    key == Str(value) || (key == "one" && Str(value) == "1")
  }

  /** The first of the first `n` variants whose key matches a given value. */
  function Chosen(vs: seq<Variant>, n: nat, value: Value): Option<string>
    requires n <= |vs|
  {
    if n == 0 then None
    else
      var earlier := Chosen(vs, n - 1, value);
      if earlier.None? && value != Null && Matches(vs[n - 1].key, value) then Some(vs[n - 1].text) else earlier
  }

  /** The last starred of the first `n` variants, or nothing. */
  function Default(vs: seq<Variant>, n: nat): string
    requires n <= |vs|
  {
    if n == 0 then "" else if vs[n - 1].star then vs[n - 1].text else Default(vs, n - 1)
  }

  function Lookup(args: Args, name: string): Value {
    if name in args then args[name] else Null
  }

  function Unprefixed(name: string): string {
    if name != "" && name[0] == '$' then name[1..] else name
  }

  function PickOf(vs: seq<Variant>, value: Value): string {
    var chosen := Chosen(vs, |vs|, value);
    if chosen.Some? then chosen.value else Default(vs, |vs|)
  }

  /** The text of the variant a select's selector picks from its body. */
  function Pick(selector: string, body: string, args: Args): (text: string)
    ensures |text| <= |body|
  {
    var vs, value := Variants(body, 0), Lookup(args, Unprefixed(Strip(selector)));
    VariantsAreShort(body, 0);
    PickIsShort(vs, |vs|, value, |body|);
    PickOf(vs, value)
  }

  lemma {:induction false} VariantsAreShort(s: string, i: nat)
    requires i <= |s|
    ensures forall j :: 0 <= j < |Variants(s, i)| ==> |Variants(s, i)[j].text| <= |s|
    decreases |s| - i
  {
    var at := NextMark(s, i);
    if at == |s| {
    } else {
      VariantsAreShort(s, MarkAt(s, at).value.end);
    }
  }

  lemma {:induction false} PickIsShort(vs: seq<Variant>, n: nat, value: Value, bound: nat)
    requires n <= |vs| && forall j :: 0 <= j < |vs| ==> |vs[j].text| <= bound
    ensures Chosen(vs, n, value).Some? ==> |Chosen(vs, n, value).value| <= bound
    ensures |Default(vs, n)| <= bound
  {
    if n == 0 {
    } else {
      PickIsShort(vs, n - 1, value, bound);
    }
  }

  // ---------------------------------------------------------------------- rendering

  /** Where the first `->` from `i` on is, if there is one. */
  function Arrow(s: string, i: nat): (at: Option<nat>)
    ensures at.Some? ==> at.value + 2 <= |s|
    decreases |s| - i
  {
    if i + 2 > |s| then None
    else if s[i] == '-' && s[i + 1] == '>' then Some(i)
    else Arrow(s, i + 1)
  }

  function Reference(inner: string, args: Args): string {
    var reference := Strip(inner);
    if reference == "" || reference[0] != '$' then "{" + inner + "}"
    else
      var name := reference[1..];
      if name in args then Str(args[name]) else "{$" + name + "}"
  }

  function Placeable(inner: string, args: Args): Rendering
    decreases |inner|, 1
  {
    match Arrow(inner, 0)
    case Some(at) => PatternFrom(Pick(inner[..at], inner[at + 2..], args), 0, args)
    case None => Ok(Reference(inner, args))
  }

  /** What a pattern renders to from `i` on. */
  function PatternFrom(text: string, i: nat, args: Args): Rendering
    requires i <= |text|
    decreases |text| - i, 0
  {
    if i == |text| then Ok("")
    else if text[i] != '{' then Join(Ok([text[i]]), PatternFrom(text, i + 1, args))
    else
      match CloseFrom(text, i, 0)
      case None => Err(text[i..])
      case Some(end) =>
        Join(Placeable(text[i + 1..end], args), PatternFrom(text, end + 1, args))
  }

  function Pattern(text: string, args: Args): Rendering {
    PatternFrom(text, 0, args)
  }

  // -------------------------------------------------------------- the loops that render

  method Close(text: string, start: nat) returns (end: Option<nat>)
    requires start <= |text|
    ensures end == CloseFrom(text, start, 0)
  {
    var depth := 0;
    for index := start to |text|
      invariant CloseFrom(text, start, 0) == CloseFrom(text, index, depth)
    {
      depth := depth + Delta(text[index]);
      if depth == 0 {
        return Some(index);
      }
    }
    end := None;
  }

  /** Where a mark's text ends: at the next mark, or with the body. */
  function EndOf(body: string, marks: seq<Mark>, j: nat): nat
    requires j < |marks|
  {
    if j + 1 < |marks| then marks[j + 1].start else |body|
  }

  predicate Ordered(body: string, marks: seq<Mark>) {
    forall j :: 0 <= j < |marks| ==> marks[j].end <= EndOf(body, marks, j) <= |body|
  }

  /** Every mark of `body` from `i` on, in order: the regular expression's matches. */
  function FindAll(body: string, i: nat): (marks: seq<Mark>)
    requires i <= |body|
    ensures Ordered(body, marks) && (marks != [] ==> i <= marks[0].start <= |body|)
    decreases |body| - i
  {
    if i == |body| then []
    else
      match MarkAt(body, i)
      case None => FindAll(body, i + 1)
      case Some(m) =>
        var rest := FindAll(body, m.end);
        OrderedCons(body, m, rest);
        [m] + rest
  }

  lemma OrderedCons(body: string, f: Mark, rest: seq<Mark>)
    requires Ordered(body, rest) && f.end <= |body|
    requires rest != [] ==> f.end <= rest[0].start <= |body|
    ensures Ordered(body, [f] + rest)
  {
    forall j | 0 < j < |[f] + rest|
      ensures EndOf(body, [f] + rest, j) == EndOf(body, rest, j - 1)
    {
    }
  }

  function VariantAt(body: string, marks: seq<Mark>, j: nat): Variant
    requires Ordered(body, marks) && j < |marks|
  {
    Variant(marks[j].star, marks[j].key, Strip(body[marks[j].end..EndOf(body, marks, j)]))
  }

  /** The variants the marks cut the body into. */
  function Cut(body: string, marks: seq<Mark>): seq<Variant>
    requires Ordered(body, marks)
  {
    seq(|marks|, j requires 0 <= j < |marks| => VariantAt(body, marks, j))
  }

  lemma CutCons(body: string, f: Mark, rest: seq<Mark>)
    requires Ordered(body, rest) && Ordered(body, [f] + rest)
    ensures Cut(body, [f] + rest) == [VariantAt(body, [f] + rest, 0)] + Cut(body, rest)
  {
    forall j | 0 < j < |[f] + rest|
      ensures VariantAt(body, [f] + rest, j) == VariantAt(body, rest, j - 1)
    {
    }
  }

  lemma {:induction false} FirstMarkFound(body: string, i: nat)
    requires i <= |body|
    ensures NextMark(body, i) == if FindAll(body, i) == [] then |body| else FindAll(body, i)[0].start
    decreases |body| - i
  {
    if i == |body| || MarkAt(body, i).Some? {
    } else {
      FirstMarkFound(body, i + 1);
    }
  }

  /** The marks found cut the body into its variants. */
  lemma {:induction false} MarksCutVariants(body: string, i: nat)
    requires i <= |body|
    ensures Variants(body, i) == Cut(body, FindAll(body, i))
    decreases |body| - i
  {
    hide MarkAt, Strip;
    if i == |body| {
    } else {
      if MarkAt(body, i).None? {
        MarksCutVariants(body, i + 1);
        assert NextMark(body, i) == NextMark(body, i + 1);
      } else {
        MarksCutVariants(body, MarkAt(body, i).value.end);
        CutAtMark(body, i);
      }
    }
  }

  lemma CutAtMark(body: string, i: nat)
    requires i <= |body| && MarkAt(body, i).Some?
    requires var end := MarkAt(body, i).value.end; Variants(body, end) == Cut(body, FindAll(body, end))
    ensures Variants(body, i) == Cut(body, FindAll(body, i))
  {
    hide MarkAt, Strip;
    var m := MarkAt(body, i).value;
    var rest := FindAll(body, m.end);
    FirstMarkFound(body, m.end);
    assert FindAll(body, i) == [m] + rest;
    CutCons(body, m, rest);
  }

  method Select(selector: string, body: string, args: Args) returns (r: Rendering)
    ensures r == Pattern(Pick(selector, body, args), args)
    decreases |body|, 1
  {
    var value := Lookup(args, Unprefixed(Strip(selector)));
    var marks := FindAll(body, 0);
    var chosen, default := None, "";
    ghost var vs := Cut(body, marks);
    for index := 0 to |marks|
      invariant chosen == Chosen(vs, index, value) && default == Default(vs, index)
    {
      var end := if index + 1 < |marks| then marks[index + 1].start else |body|;
      assert Ordered(body, marks) && end == EndOf(body, marks, index);
      var variant := Strip(body[marks[index].end..end]);
      assert vs[index] == VariantAt(body, marks, index);
      if marks[index].star {
        default := variant;
      }
      if chosen.None? && value != Null && Matches(marks[index].key, value) {
        chosen := Some(variant);
      }
    }
    MarksCutVariants(body, 0);
    assert (if chosen.Some? then chosen.value else default) == Pick(selector, body, args);
    r := RenderPattern(if chosen.Some? then chosen.value else default, args);
  }

  method RenderPlaceable(inner: string, args: Args) returns (r: Rendering)
    ensures r == Placeable(inner, args)
    decreases |inner|, 2
  {
    var arrow := Arrow(inner, 0);
    if arrow.Some? {
      r := Select(inner[..arrow.value], inner[arrow.value + 2..], args);
    } else {
      r := Ok(Reference(inner, args));
    }
  }

  lemma JoinMore(out: string, piece: string, rest: Rendering)
    ensures Join(Ok(out), Join(Ok(piece), rest)) == Join(Ok(out + piece), rest)
  {
    if rest.Ok? {
      assert (out + piece) + rest.value == out + (piece + rest.value);
    }
  }

  lemma JoinNothing(r: Rendering)
    ensures Join(Ok(""), r) == r && Join(r, Ok("")) == r
  {
    if r.Ok? {
      assert "" + r.value == r.value && r.value + "" == r.value;
    }
  }

  method RenderPattern(text: string, args: Args) returns (r: Rendering)
    ensures r == Pattern(text, args)
    decreases |text|, 0
  {
    hide Placeable;
    var out, index := "", 0;
    JoinNothing(Pattern(text, args));
    while index < |text|
      invariant index <= |text|
      invariant Pattern(text, args) == Join(Ok(out), PatternFrom(text, index, args))
    {
      if text[index] != '{' {
        JoinMore(out, [text[index]], PatternFrom(text, index + 1, args));
        out := out + [text[index]];
        index := index + 1;
      } else {
        var end := Close(text, index);
        if end.None? {
          return Err(text[index..]);
        }
        var shown := RenderPlaceable(text[index + 1..end.value], args);
        if shown.Err? {
          return shown;
        }
        JoinMore(out, shown.value, PatternFrom(text, end.value + 1, args));
        out := out + shown.value;
        index := end.value + 1;
      }
    }
    JoinNothing(Ok(out));
    r := Ok(out);
  }
}
