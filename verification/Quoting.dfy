/** Printing an error's code and arguments as one text, and reading such a text back. */
module Quoting {
  import opened Prelude
  import opened Text

  datatype Arg = Arg(name: string, value: string)

  /** `s.replace(c, with)`, for a one-character `c`. */
  function Replace(s: string, c: char, with: string): string {
    if s == "" then ""
    else (if s[0] == c then with else [s[0]]) + Replace(s[1..], c, with)
  }

  predicate Bare(value: string) {
    value != "" && forall c :: c in value ==> !IsSpace(c) && c != '=' && c != '"' && c != '\\'
  }

  function Quote(value: string): string {
    if Bare(value) then value
    else "\"" + Replace(Replace(value, '\\', "\\\\"), '"', "\\\"") + "\""
  }

  function DisplayArgs(args: seq<Arg>): string {
    if args == [] then ""
    else " " + args[0].name + "=" + Quote(args[0].value) + DisplayArgs(args[1..])
  }

  function Display(code: string, args: seq<Arg>): string {
    code + DisplayArgs(args)
  }

  // ------------------------------------------------------------------ reading it back

  /** The value a quoted text holds, from after its opening quote to its first unescaped
      one, and what follows that. */
  function ReadQuoted(s: string): (r: Option<(string, string)>)
    ensures r.Some? ==> |r.value.1| < |s|
  {
    if s == "" then None
    else if s[0] == '"' then Some(("", s[1..]))
    else if s[0] == '\\' then
      if |s| < 2 then None
      else
        match ReadQuoted(s[2..])
        case None => None
        case Some((value, rest)) => Some(([s[1]] + value, rest))
    else
      match ReadQuoted(s[1..])
      case None => None
      case Some((value, rest)) => Some(([s[0]] + value, rest))
  }

  /** Where the first whitespace from `i` on is, or the end. */
  function FindSpace(s: string, i: nat): (at: nat)
    requires i <= |s|
    ensures i <= at <= |s|
    decreases |s| - i
  {
    if i == |s| || IsSpace(s[i]) then i else FindSpace(s, i + 1)
  }

  /** A value: quoted, or bare up to the next whitespace, and then neither empty nor holding
      anything that needs quotes. */
  function ReadValue(s: string): (r: Option<(string, string)>)
    ensures r.Some? ==> |r.value.1| <= |s|
  {
    if s != "" && s[0] == '"' then ReadQuoted(s[1..])
    else
      var bare := s[..FindSpace(s, 0)];
      if bare == "" || '=' in bare || '"' in bare || '\\' in bare then None
      else Some((bare, s[FindSpace(s, 0)..]))
  }

  function ReadArgs(s: string): Option<seq<Arg>>
    decreases |s|
  {
    if s == "" then Some([])
    else if s[0] != ' ' || Find(s, '=', 0) == |s| then None
    else
      var equals := Find(s, '=', 0);
      match ReadValue(s[equals + 1..])
      case None => None
      case Some((value, rest)) =>
        match ReadArgs(rest)
        case None => None
        case Some(args) => Some([Arg(s[1..equals], value)] + args)
  }

  function ReadDisplay(s: string): Option<(string, seq<Arg>)> {
    var code := Find(s, ' ', 0);
    match ReadArgs(s[code..])
    case None => None
    case Some(args) => Some((s[..code], args))
  }

  /** Escaping in one pass. */
  function Escape(value: string): string {
    if value == "" then ""
    else (if value[0] == '\\' then "\\\\" else if value[0] == '"' then "\\\"" else [value[0]]) + Escape(value[1..])
  }

  /** Replacing backslashes, then quotes, escapes each character once. */
  lemma {:induction false} TwoPassesEscapeOnce(value: string)
    ensures Replace(Replace(value, '\\', "\\\\"), '"', "\\\"") == Escape(value)
  {
    if value == "" {
    } else {
      var rest := Replace(value[1..], '\\', "\\\\");
      TwoPassesEscapeOnce(value[1..]);
      if value[0] == '\\' {
        assert ("\\\\" + rest)[1..] == "\\" + rest && ("\\" + rest)[1..] == rest;
        assert Replace("\\\\" + rest, '"', "\\\"") == "\\" + ("\\" + Replace(rest, '"', "\\\""));
      } else {
        assert ([value[0]] + rest)[1..] == rest;
      }
    }
  }

  /** A value is shown as it is exactly where it is not empty and holds no whitespace, equals
      sign, quote or backslash; any other is shown in quotes, those two of its characters
      after a backslash and no other changed. */
  lemma ShownAsItIs(value: string)
    ensures Quote(value) == value <==>
            value != "" && forall c :: c in value ==> !IsSpace(c) && c != '=' && c != '"' && c != '\\'
    ensures Quote(value) != value ==> Quote(value) == "\"" + Escape(value) + "\""
  {
    TwoPassesEscapeOnce(value);
    EscapeLengthens(value);
  }

  lemma EscapesEachChar(c: char, rest: string)
    ensures Escape("") == ""
    ensures Escape([c] + rest) == (if c == '"' || c == '\\' then ['\\', c] else [c]) + Escape(rest)
  {
    assert ([c] + rest)[1..] == rest;
  }

  lemma {:induction false} EscapeLengthens(value: string)
    ensures |Escape(value)| >= |value|
  {
    if value == "" {
    } else {
      EscapeLengthens(value[1..]);
    }
  }

  /** A display text, spelled out: the code, then each argument after a space. */
  lemma DisplayIs(code: string, a: Arg, args: seq<Arg>)
    ensures Display(code, []) == code
    ensures Display(code, args + [a]) == Display(code, args) + " " + a.name + "=" + Quote(a.value)
  {
    hide DisplayArgs, Quote;
    NoArgsDisplayed(code);
    DisplayArgsConcat(args, [a]);
    DisplayOneArg(a);
    var tail := " " + a.name + "=" + Quote(a.value);
    assert Display(code, args + [a]) == code + (DisplayArgs(args) + tail);
  }

  /** The first unescaped quote is the closing one, and what it closes reads back. */
  lemma {:induction false} QuotedReadsBack(value: string, rest: string)
    ensures ReadQuoted(Escape(value) + "\"" + rest) == Some((value, rest))
  {
    var text := Escape(value) + "\"" + rest;
    if value == "" {
      assert text == "\"" + rest;
    } else {
      QuotedReadsBack(value[1..], rest);
      var tail := Escape(value[1..]) + "\"" + rest;
      if value[0] == '\\' || value[0] == '"' {
        assert text == ['\\', value[0]] + tail;
        assert text[2..] == tail;
      } else {
        assert text == [value[0]] + tail;
        assert text[1..] == tail;
      }
      assert [value[0]] + value[1..] == value;
    }
  }

  lemma {:induction false} SpaceAfter(s: string, rest: string, i: nat)
    requires i <= |s| && forall k :: i <= k < |s| ==> !IsSpace(s[k])
    requires rest == "" || IsSpace(rest[0])
    ensures FindSpace(s + rest, i) == |s|
    decreases |s| - i
  {
    if i == |s| {
    } else {
      SpaceAfter(s, rest, i + 1);
    }
  }

  lemma BareReadsBack(value: string, rest: string)
    requires Bare(value) && (rest == "" || rest[0] == ' ')
    ensures ReadValue(value + rest) == Some((value, rest))
  {
    assert IsSpace(' ') && value[0] in value;
    assert forall k :: 0 <= k < |value| ==> value[k] in value;
    SpaceAfter(value, rest, 0);
    var text := value + rest;
    assert text[0] == value[0];
    assert text[..|value|] == value && text[|value|..] == rest;
  }

  lemma EscapedReadsBack(value: string, rest: string)
    ensures ReadValue("\"" + Escape(value) + "\"" + rest) == Some((value, rest))
  {
    hide Escape, ReadQuoted;
    var text := "\"" + Escape(value) + "\"" + rest;
    QuotedReadsBack(value, rest);
    assert text[1..] == Escape(value) + "\"" + rest;
  }

  lemma ValueReadsBack(value: string, rest: string)
    requires rest == "" || rest[0] == ' '
    ensures ReadValue(Quote(value) + rest) == Some((value, rest))
  {
    if Bare(value) {
      BareReadsBack(value, rest);
    } else {
      TwoPassesEscapeOnce(value);
      EscapedReadsBack(value, rest);
      assert Quote(value) == "\"" + Escape(value) + "\"";
    }
  }

  lemma ArgReadsBack(name: string, quoted: string, value: string, args: seq<Arg>, rest: string)
    requires '=' !in name
    requires ReadValue(quoted + rest) == Some((value, rest)) && ReadArgs(rest) == Some(args)
    ensures ReadArgs((" " + name) + ("=" + (quoted + rest))) == Some([Arg(name, value)] + args)
  {
    var spaced, after := " " + name, "=" + (quoted + rest);
    var text := spaced + after;
    FindAfter(spaced, '=', after, 0);
    assert text[1..|spaced|] == name && text[|spaced| + 1..] == quoted + rest;
  }

  lemma NoArgsReadBack()
    ensures ReadArgs("") == Some([])
  {
  }

  lemma {:induction false} ArgsReadBack(args: seq<Arg>)
    requires forall a :: a in args ==> '=' !in a.name
    ensures ReadArgs(DisplayArgs(args)) == Some(args)
  {
    hide ReadArgs, ReadValue, Quote;
    if args == [] {
      NoArgsReadBack();
    } else {
      var a, rest := args[0], DisplayArgs(args[1..]);
      ArgsReadBack(args[1..]);
      ValueReadsBack(a.value, rest);
      ArgReadsBack(a.name, Quote(a.value), a.value, args[1..], rest);
      assert DisplayArgs(args) == (" " + a.name) + ("=" + (Quote(a.value) + rest));
      assert [Arg(a.name, a.value)] + args[1..] == args;
    }
  }

  /** What reads back never holds a separator where nothing quotes it. */
  lemma {:induction false} ReadNamesHoldNoEquals(s: string)
    requires ReadArgs(s).Some?
    ensures forall a :: a in ReadArgs(s).value ==> '=' !in a.name
    decreases |s|
  {
    hide ReadValue;
    if s == "" {
    } else {
      var equals := Find(s, '=', 0);
      FindStops(s, '=', 0);
      var rest := ReadValue(s[equals + 1..]).value.1;
      ReadNamesHoldNoEquals(rest);
    }
  }

  /** A display text parses back, to its code and its exact arguments, whatever the values,
      if and only if the code holds no space and no name holds an equals sign. */
  lemma DisplayReadsBack(code: string, args: seq<Arg>)
    ensures ReadDisplay(Display(code, args)) == Some((code, args)) <==>
            ' ' !in code && forall a :: a in args ==> '=' !in a.name
  {
    hide ReadArgs, DisplayArgs;
    var text := Display(code, args);
    if ' ' !in code && forall a :: a in args ==> '=' !in a.name {
      CleanPartsReadBack(code, args);
    }
    if ReadDisplay(text) == Some((code, args)) {
      FindStops(text, ' ', 0);
      ReadNamesHoldNoEquals(text[Find(text, ' ', 0)..]);
    }
  }

  lemma CleanPartsReadBack(code: string, args: seq<Arg>)
    requires ' ' !in code && forall a :: a in args ==> '=' !in a.name
    ensures ReadDisplay(Display(code, args)) == Some((code, args))
  {
    ArgsReadBack(args);
    var tail := DisplayArgs(args);
    StartsSpaced(args);
    FindAfter(code, ' ', tail, 0);
    assert (code + tail)[..|code|] == code && (code + tail)[|code|..] == tail;
  }

  lemma StartsSpaced(args: seq<Arg>)
    ensures DisplayArgs(args) == "" || DisplayArgs(args)[0] == ' '
  {
  }

  lemma {:induction false} DisplayArgsConcat(a: seq<Arg>, b: seq<Arg>)
    ensures DisplayArgs(a + b) == DisplayArgs(a) + DisplayArgs(b)
  {
    hide Quote;
    if a == [] {
      assert a + b == b;
    } else {
      DisplayArgsConcat(a[1..], b);
      assert (a + b)[1..] == a[1..] + b;
    }
  }

  lemma DisplayOneArg(a: Arg)
    ensures DisplayArgs([a]) == " " + a.name + "=" + Quote(a.value)
  {
    assert [a][1..] == [];
  }

  /** Whether a text is some value as it is quoted. */
  predicate Quoted(s: string) {
    var value := ReadValue(s);
    value.Some? && value.value.1 == "" && Quote(value.value.0) == s
  }

  lemma QuotesAreQuoted(value: string)
    ensures Quoted(Quote(value))
  {
    hide Quote, ReadValue;
    ValueReadsBack(value, "");
    assert Quote(value) + "" == Quote(value);
  }

  /** Whether a code ends as if in an argument: ` name=` from a space on, then a quotation. */
  predicate EndsAsArg(code: string) {
    exists i, j :: 0 <= i < j < |code| && code[i] == ' ' && code[j] == '=' && Quoted(code[j + 1..])
  }

  /** Whether other codes or arguments display alike. */
  ghost predicate Shared(code: string, args: seq<Arg>) {
    exists c, a :: (c != code || a != args) && Display(c, a) == Display(code, args)
  }

  /** A display text belongs to its code and arguments alone if and only if there are no
      arguments and the code does not end as if in one: nothing quotes a code. */
  lemma SharedExactly(code: string, args: seq<Arg>)
    ensures Shared(code, args) <==> args != [] || EndsAsArg(code)
  {
    hide DisplayArgs, Quoted, EndsAsArg;
    if args != [] {
      var c := code + DisplayArgs(args);
      ArgsDisplayed(args);
      NoArgsDisplayed(c);
      assert c != code && Display(c, []) == Display(code, args);
    } else {
      NoArgsDisplayed(code);
      if EndsAsArg(code) {
        var arg, c := LastAsArg(code);
        assert (c != code || [arg] != args) && Display(c, [arg]) == Display(code, args);
      }
      if Shared(code, args) {
        var c, a :| (c != code || a != args) && Display(c, a) == Display(code, args);
        NoArgsDisplayed(c);
        assert a != [];
        ArgsEndAsArg(c, a);
      }
    }
  }

  lemma NoArgsDisplayed(code: string)
    ensures Display(code, []) == code
  {
  }

  lemma ArgsDisplayed(args: seq<Arg>)
    requires args != []
    ensures DisplayArgs(args) != ""
  {
  }

  lemma LastAsArg(code: string) returns (arg: Arg, c: string)
    requires EndsAsArg(code)
    ensures Display(c, [arg]) == code
  {
    hide ReadValue, Quote;
    var i, j :| 0 <= i < j < |code| && code[i] == ' ' && code[j] == '=' && Quoted(code[j + 1..]);
    c, arg := code[..i], Arg(code[i + 1..j], ReadValue(code[j + 1..]).value.0);
    DisplayOneArg(arg);
    assert code == c + (" " + arg.name + "=" + code[j + 1..]);
  }

  lemma ArgsEndAsArg(code: string, args: seq<Arg>)
    requires args != []
    ensures EndsAsArg(Display(code, args))
  {
    hide Quoted, DisplayArgs, Quote;
    var last := |args| - 1;
    var a, front := args[last], code + DisplayArgs(args[..last]);
    assert args[..last] + [a] == args;
    DisplayArgsConcat(args[..last], [a]);
    DisplayOneArg(a);
    QuotesAreQuoted(a.value);
    var text, i, j := Display(code, args), |front|, |front| + 1 + |a.name|;
    assert text == front + (" " + a.name + "=" + Quote(a.value));
    assert text[i] == ' ' && text[j] == '=' && text[j + 1..] == Quote(a.value);
  }

  /** A text holds a character that separates and escapes nothing, a line feed say, if and
      only if a part of it does: a value's line break is displayed as it is. */
  lemma {:induction false} DisplayHolds(args: seq<Arg>, c: char)
    requires c != ' ' && c != '=' && c != '"' && c != '\\'
    ensures c in DisplayArgs(args) <==> exists a :: a in args && (c in a.name || c in a.value)
  {
    hide Quote;
    if args == [] {
    } else {
      var a, rest := args[0], args[1..];
      DisplayHolds(rest, c);
      QuoteHolds(a.value, c);
      assert args == [a] + rest;
      assert c in DisplayArgs(args) <==> c in a.name || c in Quote(a.value) || c in DisplayArgs(rest);
    }
  }

  lemma QuoteHolds(value: string, c: char)
    requires c != '"' && c != '\\'
    ensures c in Quote(value) <==> c in value
  {
    TwoPassesEscapeOnce(value);
    EscapeHolds(value, c);
  }

  lemma {:induction false} EscapeHolds(value: string, c: char)
    requires c != '"' && c != '\\'
    ensures c in Escape(value) <==> c in value
  {
    if value == "" {
    } else {
      EscapeHolds(value[1..], c);
      assert value == [value[0]] + value[1..];
    }
  }

  /** Two texts that are shared among codes that hold a space, or names an equals sign. */
  lemma UnquotedPartsCollide()
    ensures Display("K a=1", []) == Display("K", [Arg("a", "1")])
    ensures Display("K", [Arg("a=1 b", "2")]) == Display("K", [Arg("a", "1"), Arg("b", "2")])
  {
    assert Bare("1") && Bare("2");
    assert DisplayArgs([]) == "";
    assert [Arg("a", "1")][1..] == [];
    assert DisplayArgs([Arg("a", "1")]) == " a=1";
    assert [Arg("b", "2")][1..] == [];
    assert DisplayArgs([Arg("b", "2")]) == " b=2";
    assert [Arg("a=1 b", "2")][1..] == [];
    assert DisplayArgs([Arg("a=1 b", "2")]) == " a=1 b=2";
    assert [Arg("a", "1"), Arg("b", "2")][1..] == [Arg("b", "2")];
    assert DisplayArgs([Arg("a", "1"), Arg("b", "2")]) == " a=1 b=2";
  }
}
