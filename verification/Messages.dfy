/** From a catalog's text to what a reader sees: messages printed into a catalog, parsed out of
    it and rendered mean what their trees mean. */
module Messages {
  import opened Prelude
  import opened Text
  import Interpreter
  import opened Fluent
  import opened Catalog

  /** A message to be written: its tree, how its lines are indented and the lines after it. */
  datatype Source = Source(id: string, tree: seq<Node>, indent: string, gap: seq<string>) {
    function Lines(): (lines: seq<string>)
      ensures lines != []
    {
      Cut(PrintTree(tree))
    }

    function AsEntry(): Entry {
      Entry(id, Lines()[0], Lines()[1..], indent, gap)
    }

    /** Whether a catalog can hold the message: it loses whitespace around every line of a
        pattern but the first, and breaks lines at more than line feeds. */
    predicate Fits() {
      && Id(id)
      && indent != "" && (forall i :: 0 <= i < |indent| ==> indent[i] == ' ')
      && (forall i :: 0 <= i < |gap| ==> Comment(gap[i]))
      && (forall i :: 0 <= i < |tree| ==> Printable(tree[i]))
      && (forall i :: 0 <= i < |Lines()| ==> OneLine(Lines()[i]))
      && (forall i :: 0 < i < |Lines()| ==> Stripped(Lines()[i]))
    }
  }

  /** A text cut at its line feeds. */
  function Cut(text: string): (lines: seq<string>)
    ensures lines != []
    decreases |text|
  {
    var at := Find(text, '\n', 0);
    if at == |text| then [text] else [text[..at]] + Cut(text[at + 1..])
  }

  lemma {:induction false} JoinedPrefix(a: string, first: string, more: seq<string>)
    ensures Joined(a + first, more) == a + Joined(first, more)
    decreases |more|
  {
    if more == [] {
    } else {
      JoinedPrefix(a, first + "\n" + more[0], more[1..]);
      assert a + first + "\n" + more[0] == a + (first + "\n" + more[0]);
    }
  }

  /** The lines of a text join up to it again. */
  lemma {:induction false} CutJoins(text: string)
    ensures Joined(Cut(text)[0], Cut(text)[1..]) == text
    decreases |text|
  {
    var at := Find(text, '\n', 0);
    if at == |text| {
    } else {
      FindStops(text, '\n', 0);
      var line, rest := text[..at], Cut(text[at + 1..]);
      CutJoins(text[at + 1..]);
      assert Cut(text)[1..] == rest;
      JoinedPrefix(line + "\n", rest[0], rest[1..]);
      assert line + "\n" + text[at + 1..] == text;
    }
  }

  function Entries(sources: seq<Source>): (entries: seq<Entry>)
    ensures |entries| == |sources|
  {
    seq(|sources|, i requires 0 <= i < |sources| => sources[i].AsEntry())
  }

  lemma FitsIsWritable(source: Source)
    requires source.Fits()
    ensures Writable(source.AsEntry())
  {
    hide Id, OneLine, Stripped, Comment, Cut, Printable;
    var lines := source.Lines();
    forall i | 0 <= i < |lines[1..]|
      ensures OneLine(lines[1..][i]) && Stripped(lines[1..][i])
    {
      assert lines[1..][i] == lines[i + 1];
    }
  }

  /** A catalog of any messages, with comments and empty lines before and between them, gives
      under each id a pattern that renders to what the message's tree means, for all arguments. */
  lemma CatalogRenders(preamble: seq<string>, sources: seq<Source>, i: nat, args: Interpreter.Args)
    requires forall k :: 0 <= k < |preamble| ==> Comment(preamble[k])
    requires forall k :: 0 <= k < |sources| ==> sources[k].Fits()
    requires forall j, k :: 0 <= j < k < |sources| ==> sources[j].id != sources[k].id
    requires i < |sources|
    ensures var messages := Parsed(Write(preamble + AllLines(Entries(sources))));
            && sources[i].id in messages
            && Interpreter.Pattern(messages[sources[i].id], args) == Ok(TreeMeaning(sources[i].tree, args))
  {
    hide Parsed, Comment, Writable, AllLines, Write, Interpreter.Pattern, TreeMeaning, PrintTree, Cut, Written;
    var entries, source := Entries(sources), sources[i];
    forall k | 0 <= k < |entries|
      ensures Writable(entries[k])
    {
      FitsIsWritable(sources[k]);
    }
    CatalogRoundTrip(preamble, entries);
    WrittenIsTheMap(map[], entries, i);
    CutJoins(PrintTree(source.tree));
    PrintedTreeRenders(source.tree, args);
  }
}
