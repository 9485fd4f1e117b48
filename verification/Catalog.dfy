/** Reading a catalog: how its lines make messages, and that written messages are read back. */
module Catalog {
  import opened Prelude
  import opened Text
  import Interpreter

  // ---------------------------------------------------------------------- lines

  /** The characters `str.splitlines` breaks at. */
  predicate Breaks(c: char) {
    var n := c as int;
    10 <= n <= 13 || 28 <= n <= 30 || n == 0x85 || n == 0x2028 || n == 0x2029
  }

  lemma BreaksAre(c: char)
    ensures Breaks(c) <==> c as int in {0x0A, 0x0B, 0x0C, 0x0D, 0x1C, 0x1D, 0x1E, 0x85, 0x2028, 0x2029}
  {
  }

  function LineEnd(s: string, i: nat): (end: nat)
    requires i <= |s|
    ensures i <= end <= |s|
    decreases |s| - i
  {
    if i == |s| || Breaks(s[i]) then i else LineEnd(s, i + 1)
  }

  /** `s[i:].splitlines()`; a carriage return and a line feed break once. */
  function SplitLines(s: string, i: nat): seq<string>
    requires i <= |s|
    decreases |s| - i
  {
    if i == |s| then []
    else
      var end := LineEnd(s, i);
      if end == |s| then [s[i..]]
      else if s[end] == '\r' && end + 1 < |s| && s[end + 1] == '\n' then [s[i..end]] + SplitLines(s, end + 2)
      else [s[i..end]] + SplitLines(s, end + 1)
  }

  // --------------------------------------------------------------------- messages

  predicate Letter(c: char) {
    'A' <= c <= 'Z' || 'a' <= c <= 'z'
  }

  lemma LettersAre(c: char)
    ensures Letter(c) <==>
            || c in {'A', 'B', 'C', 'D', 'E', 'F', 'G', 'H', 'I', 'J', 'K', 'L', 'M'}
            || c in {'N', 'O', 'P', 'Q', 'R', 'S', 'T', 'U', 'V', 'W', 'X', 'Y', 'Z'}
            || c in {'a', 'b', 'c', 'd', 'e', 'f', 'g', 'h', 'i', 'j', 'k', 'l', 'm'}
            || c in {'n', 'o', 'p', 'q', 'r', 's', 't', 'u', 'v', 'w', 'x', 'y', 'z'}
  {
  }

  datatype Message = Message(id: string, pattern: string)

  /** The message a line starts: `id =`, then nothing or a space and the pattern. */
  function Start(line: string): Option<Message> {
    if line == "" || !Letter(line[0]) then None
    else
      var end := Interpreter.KeyEnd(line, 0);
      if end + 2 <= |line| && line[end] == ' ' && line[end + 1] == '=' then
        if |line| == end + 2 then Some(Message(line[..end], ""))
        else if line[end + 2] == ' ' then Some(Message(line[..end], line[end + 3..]))
        else None
      else None
  }

  /** What is read so far, and the message a continuation line continues. */
  datatype Reading = Reading(messages: map<string, string>, current: Option<string>) {
    predicate Valid() {
      current.Some? ==> current.value in messages
    }
  }

  function ReadLine(r: Reading, line: string): (next: Reading)
    requires r.Valid()
    ensures next.Valid()
  {
    if line != "" && line[0] == ' ' && r.current.Some? then
      var id := r.current.value;
      r.(messages := r.messages[id := r.messages[id] + "\n" + Strip(line)])
    else
      match Start(line)
      case None => r.(current := None)
      case Some(Message(id, pattern)) => Reading(r.messages[id := pattern], Some(id))
  }

  function ReadLines(r: Reading, lines: seq<string>): (next: Reading)
    requires r.Valid()
    ensures next.Valid()
    decreases |lines|
  {
    if lines == [] then r else ReadLines(ReadLine(r, lines[0]), lines[1..])
  }

  const NOTHING := Reading(map[], None)

  function Parsed(text: string): map<string, string> {
    ReadLines(NOTHING, SplitLines(text, 0)).messages
  }

  method Parse(text: string) returns (messages: map<string, string>)
    ensures messages == Parsed(text)
  {
    messages := map[];
    var current: Option<string> := None;
    var lines := SplitLines(text, 0);
    for i := 0 to |lines|
      invariant Reading(messages, current).Valid()
      invariant ReadLines(NOTHING, lines) == ReadLines(Reading(messages, current), lines[i..])
    {
      var line := lines[i];
      assert lines[i..][1..] == lines[i + 1..];
      if line != "" && line[0] == ' ' && current.Some? {
        messages := messages[current.value := messages[current.value] + "\n" + Strip(line)];
      } else {
        var start := Start(line);
        current := if start.Some? then Some(start.value.id) else None;
        if start.Some? {
          messages := messages[start.value.id := start.value.pattern];
        }
      }
    }
  }

  // -------------------------------------------------------------------- the round trip

  /** A message as it is written: its pattern's first line, the others, each indented by at
      least one space, and the comments and empty lines after it. */
  datatype Entry = Entry(id: string, first: string, more: seq<string>, indent: string, gap: seq<string>)

  predicate OneLine(s: string) {
    forall i :: 0 <= i < |s| ==> !Breaks(s[i])
  }

  predicate Id(id: string) {
    id != "" && Letter(id[0]) && forall i :: 0 <= i < |id| ==> Interpreter.KeyChar(id[i])
  }

  /** A line between messages: not indented, and no message. */
  predicate Comment(line: string) {
    OneLine(line) && (line == "" || line[0] != ' ') && Start(line).None?
  }

  predicate Writable(e: Entry) {
    && Id(e.id) && OneLine(e.first)
    && (forall i :: 0 <= i < |e.more| ==> OneLine(e.more[i]) && Stripped(e.more[i]))
    && e.indent != "" && (forall i :: 0 <= i < |e.indent| ==> e.indent[i] == ' ')
    && forall i :: 0 <= i < |e.gap| ==> Comment(e.gap[i])
  }

  function Indented(indent: string, more: seq<string>): seq<string> {
    seq(|more|, i requires 0 <= i < |more| => indent + more[i])
  }

  function Lines(e: Entry): seq<string> {
    [e.id + " = " + e.first] + Indented(e.indent, e.more) + e.gap
  }

  function AllLines(entries: seq<Entry>): seq<string> {
    if entries == [] then [] else Lines(entries[0]) + AllLines(entries[1..])
  }

  function Write(lines: seq<string>): string {
    if lines == [] then "" else lines[0] + "\n" + Write(lines[1..])
  }

  function Joined(first: string, more: seq<string>): string
    decreases |more|
  {
    if more == [] then first else Joined(first + "\n" + more[0], more[1..])
  }

  /** The messages the entries write; where an id is written twice, the later. */
  function Written(messages: map<string, string>, entries: seq<Entry>): map<string, string>
    decreases |entries|
  {
    if entries == [] then messages
    else Written(messages[entries[0].id := Joined(entries[0].first, entries[0].more)], entries[1..])
  }

  lemma {:induction false} LineEndIs(s: string, i: nat, end: nat)
    requires i <= end <= |s| && (end < |s| ==> Breaks(s[end]))
    requires forall k :: i <= k < end ==> !Breaks(s[k])
    ensures LineEnd(s, i) == end
    decreases end - i
  {
    if i == end {
    } else {
      LineEndIs(s, i + 1, end);
    }
  }

  /** The first line of a text is split off with its ending. */
  lemma FirstLineSplits(pre: string, line: string, end: string, rest: string)
    requires OneLine(line)
    requires end == "\r\n" || (|end| == 1 && Breaks(end[0]))
    requires end == "\r" && rest != "" ==> rest[0] != '\n'
    ensures var s := pre + line + end + rest;
            SplitLines(s, |pre|) == [line] + SplitLines(s, |pre| + |line| + |end|)
  {
    var s, at := pre + line + end + rest, |pre| + |line|;
    FirstLineEnds(pre, line, end, rest);
    hide LineEnd, Breaks, OneLine;
    assert s[|pre|..at] == line;
    assert |end| == 1 ==> end == [end[0]] && (at + 1 < |s| ==> s[at + 1] == rest[0]);
    assert |end| == 2 ==> s[at + 1] == end[1];
  }

  lemma FirstLineEnds(pre: string, line: string, end: string, rest: string)
    requires OneLine(line) && end != "" && Breaks(end[0])
    ensures LineEnd(pre + line + end + rest, |pre|) == |pre| + |line|
    ensures (pre + line + end + rest)[|pre| + |line|] == end[0]
  {
    hide Breaks, LineEnd;
    var s, at := pre + line + end + rest, |pre| + |line|;
    assert s[at] == end[0];
    assert forall k :: |pre| <= k < at ==> s[k] == line[k - |pre|];
    LineEndIs(s, |pre|, at);
  }

  lemma {:induction false} LinesSplit(pre: string, lines: seq<string>)
    requires forall i :: 0 <= i < |lines| ==> OneLine(lines[i])
    ensures SplitLines(pre + Write(lines), |pre|) == lines
    decreases |lines|
  {
    hide SplitLines, OneLine;
    if lines == [] {
      NothingSplits(pre + Write(lines));
    } else {
      var line, rest := lines[0], Write(lines[1..]);
      assert pre + Write(lines) == pre + line + "\n" + rest;
      FirstLineSplits(pre, line, "\n", rest);
      LinesSplit(pre + line + "\n", lines[1..]);
    }
  }

  lemma NothingSplits(s: string)
    ensures SplitLines(s, |s|) == []
  {
  }

  lemma LastSplits(pre: string, last: string)
    requires OneLine(last)
    ensures SplitLines(pre + last, |pre|) == if last == "" then [] else [last]
  {
    var s := pre + last;
    assert s[|pre|..] == last && forall k :: |pre| <= k < |s| ==> s[k] == last[k - |pre|];
    LineEndIs(s, |pre|, |s|);
  }

  /** Lines, each with its own ending. */
  function Ended(lines: seq<string>, ends: seq<string>): string
    requires |lines| == |ends|
  {
    if lines == [] then "" else lines[0] + ends[0] + Ended(lines[1..], ends[1..])
  }

  /** Whether endings are read apart: each one breaking character, or a carriage return with
      its line feed, and no return is followed by a line feed that is another's. */
  predicate Endings(lines: seq<string>, ends: seq<string>)
    requires |lines| == |ends|
  {
    && (forall i :: 0 <= i < |ends| ==> ends[i] == "\r\n" || (|ends[i]| == 1 && Breaks(ends[i][0])))
    && (forall i :: 0 <= i < |ends| - 1 ==> !(ends[i] == "\r" && lines[i + 1] == "" && ends[i + 1] == "\n"))
  }

  /** Whatever they are ended with, lines split back into themselves, one that is not ended
      among them unless it is empty. */
  lemma {:induction false} AnyEndingSplits(pre: string, lines: seq<string>, ends: seq<string>, last: string)
    requires |lines| == |ends| && Endings(lines, ends)
    requires OneLine(last) && forall i :: 0 <= i < |lines| ==> OneLine(lines[i])
    ensures SplitLines(pre + Ended(lines, ends) + last, |pre|) == lines + if last == "" then [] else [last]
    decreases |lines|
  {
    hide SplitLines, OneLine;
    if lines == [] {
      assert pre + Ended(lines, ends) + last == pre + last;
      LastSplits(pre, last);
    } else {
      var line, end, rest := lines[0], ends[0], Ended(lines[1..], ends[1..]) + last;
      assert pre + Ended(lines, ends) + last == pre + line + end + rest;
      FirstOfEnded(lines[1..], ends[1..], last);
      FirstLineSplits(pre, line, end, rest);
      EndingsOfRest(lines, ends);
      AnyEndingSplits(pre + line + end, lines[1..], ends[1..], last);
      assert pre + line + end + Ended(lines[1..], ends[1..]) + last == pre + line + end + rest;
    }
  }

  lemma EndingsOfRest(lines: seq<string>, ends: seq<string>)
    requires |lines| == |ends| > 0 && Endings(lines, ends)
    ensures Endings(lines[1..], ends[1..])
  {
    assert forall i :: 0 <= i < |lines| - 1 ==> lines[1..][i] == lines[i + 1] && ends[1..][i] == ends[i + 1];
  }

  /** What is ended starts with a line feed only where its first line is empty and ended so. */
  lemma FirstOfEnded(lines: seq<string>, ends: seq<string>, last: string)
    requires |lines| == |ends| && OneLine(last) && forall i :: 0 <= i < |lines| ==> OneLine(lines[i])
    requires forall i :: 0 <= i < |ends| ==> ends[i] == "\r\n" || |ends[i]| == 1
    ensures var text := Ended(lines, ends) + last;
            text != "" && text[0] == '\n' ==> lines != [] && lines[0] == "" && ends[0] == "\n"
  {
    if lines != [] && lines[0] == "" {
      assert Ended(lines, ends)[0] == ends[0][0];
      assert |ends[0]| == 1 ==> ends[0] == [ends[0][0]];
    }
  }

  lemma StartReads(id: string, first: string)
    requires Id(id)
    ensures Start(id + " = " + first) == Some(Message(id, first))
  {
    var line := id + " = " + first;
    assert line[0] == id[0] && line[..|id|] == id && line[|id| + 3..] == first;
    assert forall k :: 0 <= k < |id| ==> line[k] == id[k];
    Interpreter.KeyIs(line, 0, |id|);
  }

  /** A line starts a message exactly where it is an id followed by ` =`, and by nothing, or by
      a space and the pattern. */
  lemma StartExactly(line: string, id: string, pattern: string)
    ensures Start(line) == Some(Message(id, pattern)) <==>
            Id(id) && (line == id + " = " + pattern || (line == id + " =" && pattern == ""))
  {
    hide Interpreter.KeyChar, Letter;
    if Id(id) && line == id + " = " + pattern {
      StartReads(id, pattern);
    }
    if Id(id) && line == id + " =" && pattern == "" {
      assert line[..|id|] == id && forall k :: 0 <= k < |id| ==> line[k] == id[k];
      SpaceEndsKey();
      Interpreter.KeyIs(line, 0, |id|);
    }
    if Start(line) == Some(Message(id, pattern)) {
      var end := Interpreter.KeyEnd(line, 0);
      Interpreter.KeyRuns(line, 0);
      assert line == line[..end] + " =" + line[end + 2..];
      assert |line| != end + 2 ==> line == line[..end] + " = " + line[end + 3..];
      LettersAreKeys(line[0]);
      assert end > 0;
    }
  }

  lemma SpaceEndsKey()
    ensures !Interpreter.KeyChar(' ')
  {
  }

  lemma LettersAreKeys(c: char)
    ensures Letter(c) ==> Interpreter.KeyChar(c)
  {
  }

  lemma {:induction false} ReadConcat(r: Reading, a: seq<string>, b: seq<string>)
    requires r.Valid()
    ensures ReadLines(r, a + b) == ReadLines(ReadLines(r, a), b)
    decreases |a|
  {
    if a == [] {
      assert a + b == b;
    } else {
      assert (a + b)[1..] == a[1..] + b;
      ReadConcat(ReadLine(r, a[0]), a[1..], b);
    }
  }

  lemma {:induction false} MoreReads(r: Reading, id: string, indent: string, more: seq<string>)
    requires r.current == Some(id) && id in r.messages
    requires indent != "" && forall i :: 0 <= i < |indent| ==> indent[i] == ' '
    requires forall i :: 0 <= i < |more| ==> Stripped(more[i])
    ensures ReadLines(r, Indented(indent, more)) ==
            Reading(r.messages[id := Joined(r.messages[id], more)], Some(id))
    decreases |more|
  {
    if more == [] {
      assert r.messages[id := r.messages[id]] == r.messages;
    } else {
      var line := indent + more[0];
      StripPadded(indent, more[0], "");
      assert indent + more[0] + "" == line;
      var next := ReadLine(r, line);
      assert Indented(indent, more)[1..] == Indented(indent, more[1..]);
      MoreReads(next, id, indent, more[1..]);
    }
  }

  lemma {:induction false} GapReads(r: Reading, gap: seq<string>)
    requires r.Valid() && forall i :: 0 <= i < |gap| ==> Comment(gap[i])
    ensures ReadLines(r, gap).messages == r.messages
    decreases |gap|
  {
    if gap == [] {
    } else {
      GapReads(ReadLine(r, gap[0]), gap[1..]);
    }
  }

  lemma EntryReads(r: Reading, e: Entry)
    requires r.Valid() && Writable(e)
    ensures ReadLines(r, Lines(e)).messages == r.messages[e.id := Joined(e.first, e.more)]
  {
    hide Start, Strip;
    var head := [e.id + " = " + e.first];
    StartReads(e.id, e.first);
    var started := Reading(r.messages[e.id := e.first], Some(e.id));
    assert ReadLine(r, head[0]) == started;
    assert ReadLines(r, head) == started by {
      assert head[1..] == [];
    }
    MoreReads(started, e.id, e.indent, e.more);
    ReadConcat(r, head, Indented(e.indent, e.more));
    var read := ReadLines(started, Indented(e.indent, e.more));
    GapReads(read, e.gap);
    ReadConcat(r, head + Indented(e.indent, e.more), e.gap);
  }

  lemma {:induction false} EntriesRead(r: Reading, entries: seq<Entry>)
    requires r.Valid() && forall i :: 0 <= i < |entries| ==> Writable(entries[i])
    ensures ReadLines(r, AllLines(entries)).messages == Written(r.messages, entries)
    decreases |entries|
  {
    hide ReadLine, Lines, Writable;
    if entries == [] {
    } else {
      EntryReads(r, entries[0]);
      ReadConcat(r, Lines(entries[0]), AllLines(entries[1..]));
      EntriesRead(ReadLines(r, Lines(entries[0])), entries[1..]);
    }
  }

  lemma {:induction false} EntriesOneLine(entries: seq<Entry>)
    requires forall i :: 0 <= i < |entries| ==> Writable(entries[i])
    ensures forall i :: 0 <= i < |AllLines(entries)| ==> OneLine(AllLines(entries)[i])
    decreases |entries|
  {
    if entries == [] {
    } else {
      EntryOneLine(entries[0]);
      EntriesOneLine(entries[1..]);
    }
  }

  lemma EntryOneLine(e: Entry)
    requires Writable(e)
    ensures forall i :: 0 <= i < |Lines(e)| ==> OneLine(Lines(e)[i])
  {
    forall c: char | Interpreter.KeyChar(c) || c == ' ' || c == '='
      ensures !Breaks(c)
    {
    }
  }

  /** What is written is read back: parsing any entries, with comments and empty lines before
      and between them, gives the messages they write. */
  lemma CatalogRoundTrip(preamble: seq<string>, entries: seq<Entry>)
    requires forall i :: 0 <= i < |preamble| ==> Comment(preamble[i])
    requires forall i :: 0 <= i < |entries| ==> Writable(entries[i])
    ensures Parsed(Write(preamble + AllLines(entries))) == Written(map[], entries)
  {
    hide ReadLine, AllLines, Writable, Start;
    var lines := preamble + AllLines(entries);
    EntriesOneLine(entries);
    LinesSplit("", lines);
    assert "" + Write(lines) == Write(lines);
    GapReads(NOTHING, preamble);
    ReadConcat(NOTHING, preamble, AllLines(entries));
    EntriesRead(ReadLines(NOTHING, preamble), entries);
  }

  function Ids(entries: seq<Entry>): set<string> {
    set i | 0 <= i < |entries| :: entries[i].id
  }

  lemma {:induction false} WrittenKeeps(messages: map<string, string>, entries: seq<Entry>)
    ensures Written(messages, entries).Keys == messages.Keys + Ids(entries)
    ensures forall id :: id in messages && id !in Ids(entries) ==> Written(messages, entries)[id] == messages[id]
    decreases |entries|
  {
    if entries == [] {
      assert Ids(entries) == {};
    } else {
      var e, rest := entries[0], entries[1..];
      assert Ids(entries) == {e.id} + Ids(rest) by {
        assert forall i :: 0 <= i < |rest| ==> rest[i] == entries[i + 1];
        assert forall i :: 0 < i < |entries| ==> entries[i] == rest[i - 1];
      }
      WrittenKeeps(messages[e.id := Joined(e.first, e.more)], rest);
    }
  }

  /** Where no id is written twice, that is each entry's pattern under its id, and no more. */
  lemma {:induction false} WrittenIsTheMap(messages: map<string, string>, entries: seq<Entry>, i: nat)
    requires i < |entries|
    requires forall j, k :: 0 <= j < k < |entries| ==> entries[j].id != entries[k].id
    ensures Written(messages, entries).Keys == messages.Keys + Ids(entries)
    ensures entries[i].id in Ids(entries)
    ensures Written(messages, entries)[entries[i].id] == Joined(entries[i].first, entries[i].more)
    decreases i
  {
    var next := messages[entries[0].id := Joined(entries[0].first, entries[0].more)];
    WrittenKeeps(messages, entries);
    WrittenKeeps(next, entries[1..]);
    if i == 0 {
      assert entries[0].id !in Ids(entries[1..]);
    } else {
      assert entries[i] == entries[1..][i - 1];
      WrittenIsTheMap(next, entries[1..], i - 1);
    }
  }

  /** What a line does, whatever was read before it: one that starts a message starts it; one
      that starts with a space adds a line, stripped, to the message above it, if there is
      one; and any other, or one with none above it, only ends what there is. */
  lemma LineIsRead(r: Reading, line: string, id: string, pattern: string)
    requires r.Valid()
    ensures Id(id) && (line == id + " = " + pattern || (line == id + " =" && pattern == "")) ==>
              ReadLine(r, line) == Reading(r.messages[id := pattern], Some(id))
    ensures " " <= line && r.current.Some? ==>
              ReadLine(r, line) ==
              r.(messages := r.messages[r.current.value := r.messages[r.current.value] + "\n" + Strip(line)])
    ensures " " <= line && r.current.None? ==> ReadLine(r, line) == r
    ensures !(" " <= line) && Start(line).None? ==> ReadLine(r, line) == Reading(r.messages, None)
  {
    hide Strip, Start;
    StartExactly(line, id, pattern);
    SpaceStartsNone(line);
  }

  lemma SpaceStartsNone(line: string)
    ensures " " <= line ==> Start(line).None?
    ensures forall id :: Id(id) ==> !(" " <= id)
  {
  }

  /** A blank line ends the message above it if and only if it does not start with a space;
      one that does continues it, as an empty line of its pattern. */
  lemma SpacesContinue(r: Reading, line: string)
    requires r.current.Some? && r.Valid() && AllSpaces(line)
    ensures ReadLine(r, line).current.None? <==> line == "" || line[0] != ' '
    ensures ReadLine(r, line) ==
            if line == "" || line[0] != ' ' then r.(current := None)
            else r.(messages := r.messages[r.current.value := r.messages[r.current.value] + "\n"])
  {
    StripPadded(line, "", "");
    assert line + "" + "" == line;
    assert r.messages[r.current.value] + "\n" + "" == r.messages[r.current.value] + "\n";
  }
}
