/** The line a child announces its socket with, printed and parsed, as text and as bytes. */
module Handshake {
  import opened Prelude
  import opened Text
  import opened Utf8

  const PREFIX := "angzarr-handshake"
  const VERSION := "v1"
  const UNIX := "unix:"
  const SPACE: byte := 0x20
  const LF: byte := 0x0A
  const CR: byte := 0x0D

  /** Not a handshake, the address one announces, or a malformed one with its text. */
  datatype Verdict = NoHandshake | Address(address: string) | Malformed(line: string)

  function Announced(address: string): string {
    PREFIX + (" " + (VERSION + (" " + address)))
  }

  function HandshakeLine(address: string): string {
    Announced(address) + "\n"
  }

  // ------------------------------------------------------------------------ escaping

  function HexDigit(n: nat): char
    requires n < 16
  {
    if n < 10 then ('0' as int + n) as char else ('a' as int + n - 10) as char
  }

  function EscapeByte(b: byte): string {
    if 0x20 <= b <= 0x7E && b != 0x5C then [b as char]
    else ['\\', 'x', HexDigit(b / 16), HexDigit(b % 16)]
  }

  function EscapeBytes(raw: Bytes): string {
    if raw == [] then "" else EscapeByte(raw[0]) + EscapeBytes(raw[1..])
  }

  /** How a refused line is shown: decoded where it can be, escaped where not. */
  function Escaped(raw: Bytes): string {
    var text := Decode(raw);
    if text.Some? then text.value else EscapeBytes(raw)
  }

  // ------------------------------------------------------------------------- parsing

  /** `s.removesuffix(last)`, for one element. */
  function RemoveLast<T(==)>(s: seq<T>, last: T): seq<T> {
    if EndsIn(s, last) then s[..|s| - 1] else s
  }

  function StripText(line: string): string {
    RemoveLast(RemoveLast(line, '\n'), '\r')
  }

  function StripBytes(line: Bytes): Bytes {
    RemoveLast<byte>(RemoveLast<byte>(line, LF), CR)
  }

  /** What precedes the first space. */
  function FirstWord(s: string): string {
    s[..Find(s, ' ', 0)]
  }

  /** What follows the first space, or nothing. */
  function AfterWord(s: string): string {
    var at := Find(s, ' ', 0);
    if at == |s| then "" else s[at + 1..]
  }

  predicate WellFormed(version: string, address: string) {
    && version == VERSION
    && UNIX <= address && "/" <= address[|UNIX|..]
    && '\n' !in address
  }

  /** The verdict on a line without its ending. */
  function Classify(body: string): Verdict {
    var rest := AfterWord(body);
    if FirstWord(body) != PREFIX then NoHandshake
    else if WellFormed(FirstWord(rest), AfterWord(rest)) then Address(AfterWord(rest))
    else Malformed(body)
  }

  function ParseText(line: string): Verdict {
    Classify(StripText(line))
  }

  /** Bytes have their ending removed, are decoded, and are then parsed as text: their
      ending is removed twice. */
  function ParseBytes(line: Bytes): Verdict {
    ParseRaw(StripBytes(line))
  }

  function ParseRaw(raw: Bytes): Verdict {
    if raw[..Find<byte>(raw, SPACE, 0)] != Encode(PREFIX) then NoHandshake
    else
      var text := Decode(raw);
      if text.None? then Malformed(Escaped(raw)) else ParseText(text.value)
  }

  // --------------------------------------------------------- escaping loses nothing

  function HexValue(c: char): int {
    if '0' <= c <= '9' then c as int - '0' as int else c as int - 'a' as int + 10
  }

  /** Reads `\xhh` back as its byte, and any other character as its own. */
  function Unescape(s: string): seq<int> {
    if s == "" then []
    else if s[0] == '\\' && |s| >= 4 && s[1] == 'x' then [16 * HexValue(s[2]) + HexValue(s[3])] + Unescape(s[4..])
    else [s[0] as int] + Unescape(s[1..])
  }

  /** No byte is lost, or read as another: escaped bytes read back. */
  lemma {:induction false} EscapeReverses(raw: Bytes)
    ensures Unescape(EscapeBytes(raw)) == raw
    decreases |raw|
  {
    if raw == [] {
    } else {
      var b, rest := raw[0], EscapeBytes(raw[1..]);
      EscapeReverses(raw[1..]);
      if 0x20 <= b <= 0x7E && b != 0x5C {
        assert ([b as char] + rest)[1..] == rest;
      } else {
        var e := EscapeByte(b);
        assert (e + rest)[4..] == rest && (e + rest)[2] == e[2] && (e + rest)[3] == e[3];
        assert HexValue(HexDigit(b / 16)) == b / 16 && HexValue(HexDigit(b % 16)) == b % 16;
      }
    }
  }

  /** Each byte is escaped by itself: printable ASCII but the backslash stays, and any other
      is written with its two hexadecimal digits, of which there are sixteen. */
  lemma EscapesEachByte(a: Bytes, b: byte)
    ensures EscapeBytes([]) == "" && EscapeBytes([b] + a) == EscapeByte(b) + EscapeBytes(a)
    ensures ' ' <= b as char <= '~' && b as char != '\\' ==> EscapeByte(b) == [b as char]
    ensures !(' ' <= b as char <= '~') || b as char == '\\' ==>
              var digits := "0123456789abcdef";
              EscapeByte(b) == "\\x" + [digits[b / 16], digits[b % 16]]
  {
    assert ([b] + a)[1..] == a;
    assert forall n: nat :: n < 16 ==> HexDigit(n) == "0123456789abcdef"[n];
  }

  /** Byte strings that are not UTF-8 are told apart by their text. */
  lemma EscapedTellsApart(a: Bytes, b: Bytes)
    requires Decode(a).None? && Decode(b).None? && Escaped(a) == Escaped(b)
    ensures a == b
  {
    EscapeReverses(a);
    EscapeReverses(b);
  }

  /** Two byte strings share a refused text if and only if they are the same, or one is the
      UTF-8 of the other's escapes. */
  lemma EscapedSharedExactly(a: Bytes, b: Bytes)
    ensures Escaped(a) == Escaped(b) <==>
            || a == b
            || (Decode(a).None? && b == Encode(EscapeBytes(a)))
            || (Decode(b).None? && a == Encode(EscapeBytes(b)))
  {
    hide Decode, Encode, EscapeBytes;
    EncodeDecodes(EscapeBytes(a));
    EncodeDecodes(EscapeBytes(b));
    if Decode(a).Some? {
      DecodeEncodes(a);
    }
    if Decode(b).Some? {
      DecodeEncodes(b);
    }
    if Decode(a).None? && Decode(b).None? && Escaped(a) == Escaped(b) {
      EscapedTellsApart(a, b);
    }
  }

  /** So a byte string that is not UTF-8 shares its text with exactly one other. */
  lemma EscapedHasOneTwin(a: Bytes, b: Bytes)
    requires Decode(a).None?
    ensures Decode(Encode(EscapeBytes(a))) == Some(EscapeBytes(a))
    ensures a != b && Escaped(a) == Escaped(b) <==> b == Encode(EscapeBytes(a))
  {
    hide Decode, Encode, EscapeBytes;
    EncodeDecodes(EscapeBytes(a));
    EscapedSharedExactly(a, b);
    if Decode(b).None? && a == Encode(EscapeBytes(b)) {
      EncodeDecodes(EscapeBytes(b));
    }
  }

  /** Whether a text spells the escapes of bytes that are not UTF-8. */
  predicate Spells(text: string) {
    var raw := Unescape(text);
    && (forall i :: 0 <= i < |raw| ==> 0 <= raw[i] < 256)
    && var bytes: Bytes := seq(|raw|, i requires 0 <= i < |raw| => raw[i]);
       EscapeBytes(bytes) == text && Decode(bytes).None?
  }

  /** And one that is UTF-8 shares its own with one that is not, exactly where it spells
      that one's escapes. */
  lemma SpelledTextsAreShared(b: Bytes)
    requires Decode(b).Some?
    ensures Spells(Decode(b).value) <==> exists a: Bytes :: a != b && Escaped(a) == Escaped(b)
  {
    hide Decode, Encode, EscapeBytes, Unescape;
    var text := Decode(b).value;
    if Spells(text) {
      var raw := Unescape(text);
      var bytes: Bytes := seq(|raw|, i requires 0 <= i < |raw| => raw[i]);
      assert bytes != b && Escaped(bytes) == Escaped(b);
    }
    forall a: Bytes | a != b && Escaped(a) == Escaped(b)
      ensures Spells(text)
    {
      EscapedSharedExactly(a, b);
      EscapeReverses(a);
      EncodeDecodes(EscapeBytes(a));
      var raw := Unescape(text);
      assert raw == a;
      var bytes: Bytes := seq(|raw|, i requires 0 <= i < |raw| => raw[i]);
      assert bytes == a;
    }
  }

  /** One such pair. */
  lemma EscapedMeetsText()
    ensures Escaped([0xFF]) == Escaped([0x5C, 0x78, 0x66, 0x66])
    ensures Decode([0xFF]).None? && Decode([0x5C, 0x78, 0x66, 0x66]).Some?
  {
    var text := "\\xff";
    assert Encode(text[4..]) == [] && text[3..][1..] == text[4..];
    assert Encode(text[3..]) == [0x66] && text[2..][1..] == text[3..];
    assert Encode(text[2..]) == [0x66, 0x66] && text[1..][1..] == text[2..];
    assert Encode(text[1..]) == [0x78, 0x66, 0x66];
    assert Encode(text) == [0x5C, 0x78, 0x66, 0x66];
    EncodeDecodes(text);
    var raw: Bytes := [0xFF];
    assert EscapeBytes(raw[1..]) == "";
    assert EscapeBytes(raw) == "\\xff";
  }

  // ----------------------------------------------------------------- the round trip

  lemma WordsOf(first: string, rest: string)
    requires ' ' !in first
    ensures FirstWord(first + (" " + rest)) == first && AfterWord(first + (" " + rest)) == rest
  {
    FindAfter(first, ' ', " " + rest, 0);
    var s := first + (" " + rest);
    assert s[..|first|] == first && s[|first| + 1..] == rest;
  }

  lemma AnnouncedClassifies(address: string)
    ensures Classify(Announced(address)) ==
            if WellFormed(VERSION, address) then Address(address) else Malformed(Announced(address))
    ensures FirstWord(Announced(address)) == PREFIX
  {
    WordsOf(PREFIX, VERSION + (" " + address));
    WordsOf(VERSION, address);
  }

  lemma AnnouncedEnds(address: string, c: char)
    requires address != ""
    ensures EndsIn(Announced(address), c) <==> EndsIn(address, c)
    ensures RemoveLast(Announced(address), c) == Announced(RemoveLast(address, c))
  {
    var last := |address| - 1;
    assert Announced(address) == Announced(address[..last]) + [address[last]];
  }

  /** The text of a handshake line is what is announced, less a carriage return it ends in. */
  lemma AnnouncedStrips(address: string)
    requires address != ""
    ensures StripText(HandshakeLine(address)) == Announced(RemoveLast(address, '\r'))
  {
    hide Announced;
    assert RemoveLast(HandshakeLine(address), '\n') == Announced(address);
    AnnouncedEnds(address, '\r');
  }

  /** What is announced, spelled out. */
  lemma LineIs(address: string)
    ensures HandshakeLine(address) == "angzarr-handshake v1 " + address + "\n"
  {
    assert Announced(address) == "angzarr-handshake v1 " + address;
  }

  lemma PathsAre(path: string)
    ensures WellFormed(VERSION, UNIX + path) <==> "/" <= path && '\n' !in path
    ensures RemoveLast(UNIX + path, '\r') == UNIX + RemoveLast(path, '\r')
    ensures EndsIn(UNIX + path, '\r') <==> EndsIn(path, '\r')
  {
    assert (UNIX + path)[|UNIX|..] == path;
    if path != "" {
      assert UNIX + path == (UNIX + path[..|path| - 1]) + [path[|path| - 1]];
    }
  }

  /** A handshake names its path exactly when the path is absolute, holds no line feed and
      does not end in a carriage return; spaces are part of it. */
  lemma HandshakeRoundTrip(path: string)
    ensures ParseText(HandshakeLine(UNIX + path)) == Address(UNIX + path) <==>
            "/" <= path && '\n' !in path && !EndsIn(path, '\r')
  {
    hide Classify, Announced, WellFormed, StripText;
    PathsAre(path);
    AnnouncedStrips(UNIX + path);
    AnnouncedClassifies(RemoveLast(UNIX + path, '\r'));
  }

  // ------------------------------------------------------------ every line's verdict

  lemma StripsExactly<T>(line: seq<T>, lf: T, cr: T, body: seq<T>)
    requires lf != cr
    ensures RemoveLast(RemoveLast(line, lf), cr) == body <==>
            || line == body + [cr, lf]
            || (line == body + [lf] && !EndsIn(body, cr))
            || line == body + [cr]
            || (line == body && !EndsIn(body, cr) && !EndsIn(body, lf))
  {
    var once := RemoveLast(line, lf);
    var twice := RemoveLast(once, cr);
    assert once == line || line == once + [lf];
    assert twice == once || once == twice + [cr];
    if once != line {
      assert twice + [cr] + [lf] == twice + [cr, lf];
    }
    if line == body + [cr, lf] {
      assert line == (body + [cr]) + [lf];
      assert once == body + [cr];
    } else if line == body + [lf] {
      assert once == body;
    }
  }

  /** What stripping leaves: the line less a line feed it ends in, and then less a carriage
      return, of text and of bytes. */
  lemma StripIs(line: string, body: string, bytes: Bytes, raw: Bytes)
    ensures StripText(line) == body <==>
            || line == body + "\r\n"
            || (line == body + "\n" && !EndsIn(body, '\r'))
            || line == body + "\r"
            || (line == body && !EndsIn(body, '\r') && !EndsIn(body, '\n'))
    ensures StripBytes(bytes) == raw <==>
            || bytes == raw + [0x0D, 0x0A]
            || (bytes == raw + [0x0A] && !EndsIn<byte>(raw, 0x0D))
            || bytes == raw + [0x0D]
            || (bytes == raw && !EndsIn<byte>(raw, 0x0D) && !EndsIn<byte>(raw, 0x0A))
  {
    hide RemoveLast;
    StripsExactly(line, '\n', '\r', body);
    StripsExactly<byte>(bytes, LF, CR, raw);
  }

  /** Whether an address is a Unix socket's: an absolute path, on one line. */
  predicate Names(address: string) {
    "unix:/" <= address && '\n' !in address
  }

  lemma WellFormedIs(version: string, address: string)
    ensures WellFormed(version, address) <==> version == "v1" && Names(address)
  {
    if UNIX <= address {
      assert address == UNIX + address[|UNIX|..];
      assert "/" <= address[|UNIX|..] <==> "unix:/" <= address;
    }
  }

  lemma PrefixedIs(s: string, word: string)
    requires ' ' !in word
    ensures FirstWord(s) == word <==> s == word || word + " " <= s
    ensures word + " " <= s ==> AfterWord(s) == s[|word| + 1..]
    ensures s == word ==> AfterWord(s) == ""
  {
    FirstIs(s, ' ', word);
    if word + " " <= s {
      assert s == word + (" " + s[|word| + 1..]);
      WordsOf(word, s[|word| + 1..]);
    }
  }

  /** A line without its ending names an address exactly where it is spelled so; any other
      whose first word is the handshake's is malformed, and the rest are no handshakes. */
  lemma ClassifiesExactly(body: string)
    ensures forall address :: Classify(body) == Address(address) <==>
              body == "angzarr-handshake v1 " + address && Names(address)
    ensures Classify(body) == NoHandshake <==> body != "angzarr-handshake" && !("angzarr-handshake " <= body)
    ensures Classify(body).Malformed? ==> Classify(body) == Malformed(body)
  {
    hide Classify, Names, FirstWord, AfterWord, WellFormed;
    forall address: string
      ensures Classify(body) == Address(address) <==> body == "angzarr-handshake v1 " + address && Names(address)
    {
      AddressClassifies(body, address);
    }
    HandshakesBegin(body);
  }

  lemma HandshakesBegin(body: string)
    ensures Classify(body) == NoHandshake <==> body != "angzarr-handshake" && !("angzarr-handshake " <= body)
    ensures Classify(body).Malformed? ==> Classify(body) == Malformed(body)
  {
    hide FirstWord, AfterWord, WellFormed;
    PrefixedIs(body, PREFIX);
    assert PREFIX + " " == "angzarr-handshake ";
  }

  lemma AddressClassifies(body: string, address: string)
    ensures Classify(body) == Address(address) <==> body == "angzarr-handshake v1 " + address && Names(address)
  {
    hide WellFormed, FirstWord, AfterWord, Names;
    var rest := AfterWord(body);
    PrefixedIs(body, PREFIX);
    PrefixedIs(rest, VERSION);
    WellFormedIs(FirstWord(rest), AfterWord(rest));
    EmptyNamesNothing();
    if body == "angzarr-handshake v1 " + address {
      assert body == (PREFIX + " ") + ((VERSION + " ") + address);
      assert rest == (VERSION + " ") + address;
    }
    if Classify(body) == Address(address) {
      assert body == (PREFIX + " ") + rest && rest == (VERSION + " ") + address;
      assert body == "angzarr-handshake v1 " + address;
    }
  }

  lemma EmptyNamesNothing()
    ensures !Names("")
  {
  }

  /** Every line of text: an address exactly where, its ending removed, it announces one in
      this version; malformed where only its first word is right; else no handshake. */
  lemma TextVerdictExactly(line: string)
    ensures var body := StripText(line);
            && (forall address :: ParseText(line) == Address(address) <==>
                  body == "angzarr-handshake v1 " + address && Names(address))
            && (ParseText(line) == NoHandshake <==> body != "angzarr-handshake" && !("angzarr-handshake " <= body))
            && (ParseText(line).Malformed? ==> ParseText(line) == Malformed(body))
  {
    hide Classify, StripText, Names;
    ClassifiesExactly(StripText(line));
  }

  /** And every line of bytes: its ending removed, it is no handshake unless it starts with
      the first word's bytes, malformed and shown escaped where it is not UTF-8, and else
      judged by its text, the ending removed from that too. */
  lemma BytesVerdictExactly(line: Bytes)
    ensures var raw, word := StripBytes(line), Encode("angzarr-handshake");
            var text := Decode(raw);
            && (ParseBytes(line) == NoHandshake <==> raw != word && !(word + [SPACE] <= raw))
            && ((raw == word || word + [SPACE] <= raw) && text.None? ==>
                  ParseBytes(line) == Malformed(EscapeBytes(raw)))
            && (text.Some? ==>
                  && (forall address :: ParseBytes(line) == Address(address) <==>
                        StripText(text.value) == "angzarr-handshake v1 " + address && Names(address))
                  && (ParseBytes(line).Malformed? ==> ParseBytes(line) == Malformed(StripText(text.value))))
  {
    hide Classify, StripText, Names, Decode, Encode, StripBytes, Find;
    var raw, word := StripBytes(line), Encode("angzarr-handshake");
    NoSpaceInWord();
    FirstIs<byte>(raw, SPACE, word);
    if Decode(raw).Some? {
      var text := Decode(raw).value;
      TextVerdictExactly(text);
      PrefixedIs(StripText(text), PREFIX);
      TextPrefixed(raw);
    }
  }

  lemma NoSpaceInWord()
    ensures SPACE !in Encode("angzarr-handshake")
  {
    hide Encode;
    var word := "angzarr-handshake";
    AsciiOnlyAsItself(word, ' ');
    assert forall i :: 0 <= i < |word| ==> word[i] != ' ';
  }

  /** A UTF-8 line's bytes start with the first word's exactly where its text does, and then
      its text is some handshake's, its ending removed or not. */
  lemma TextPrefixed(raw: Bytes)
    requires Decode(raw).Some?
    ensures var word, text := Encode("angzarr-handshake"), Decode(raw).value;
            && (raw[..Find<byte>(raw, SPACE, 0)] == word <==> FirstWord(text) == "angzarr-handshake")
            && (FirstWord(text) == "angzarr-handshake" ==> FirstWord(StripText(text)) == "angzarr-handshake")
            && ("angzarr-handshake " <= StripText(text) ==> FirstWord(text) == "angzarr-handshake")
  {
    hide Decode, Encode, Find;
    var text := Decode(raw).value;
    DecodeEncodes(raw);
    PartitionsAgree(text);
    EncodeInjective(FirstWord(text), PREFIX);
    StripKeepsWord(text);
  }

  lemma StripKeepsWord(text: string)
    ensures FirstWord(text) == "angzarr-handshake" ==> FirstWord(StripText(text)) == "angzarr-handshake"
    ensures "angzarr-handshake " <= StripText(text) ==> FirstWord(text) == "angzarr-handshake"
  {
    hide FirstWord;
    var word, body := "angzarr-handshake", StripText(text);
    PrefixedIs(text, word);
    PrefixedIs(body, word);
    assert word + " " == "angzarr-handshake ";
    assert body <= text && forall k :: |body| <= k < |text| ==> text[k] == '\r' || text[k] == '\n';
    assert word[|word| - 1] == 'e';
    if word + " " <= text {
      assert text[|word|] == ' ';
      assert |word| < |body|;
      assert body[..|word| + 1] == text[..|word| + 1];
    }
  }

  // -------------------------------------------------------- text and bytes agree

  lemma EncodeSplitsAt(s: string, i: nat)
    requires i <= |s|
    ensures Encode(s) == Encode(s[..i]) + Encode(s[i..])
  {
    hide Encode;
    EncodeConcat(s[..i], s[i..]);
    assert s[..i] + s[i..] == s;
  }

  /** The bytes before the first space byte are the text before the first space. */
  lemma PartitionsAgree(s: string)
    ensures Encode(s)[..Find<byte>(Encode(s), SPACE, 0)] == Encode(FirstWord(s))
  {
    var at := Find(s, ' ', 0);
    FindStops(s, ' ', 0);
    EncodeSplitsAt(s, at);
    AsciiOnlyAsItself(s[..at], ' ');
    var rest := Encode(s[at..]);
    assert rest == [] || rest[0] == SPACE by {
      if at < |s| {
        assert s[at..][0] == ' ' && EncodeChar(' ') == [SPACE];
      }
    }
    FindAfter<byte>(Encode(s[..at]), SPACE, rest, 0);
  }

  /** Removing an ASCII ending commutes with encoding. */
  lemma EndingsAgree(s: string, c: char)
    requires c as int < 0x80
    ensures RemoveLast<byte>(Encode(s), c as int) == Encode(RemoveLast(s, c))
  {
    if s == "" {
    } else {
      var last := |s| - 1;
      EncodeSplitsAt(s, last);
      assert s[last..] == [s[last]] && [s[last]][1..] == "";
      assert Encode(s[last..]) == EncodeChar(s[last]) + [];
      LastByte(s[last], c);
    }
  }

  lemma LastByte(d: char, c: char)
    requires c as int < 0x80
    ensures var e := EncodeChar(d); (e[|e| - 1] == c as int <==> d == c) && (d == c ==> |e| == 1)
  {
  }

  lemma StripsAgree(line: string)
    ensures StripBytes(Encode(line)) == Encode(StripText(line))
  {
    hide Encode, RemoveLast;
    EndingsAgree(line, '\n');
    EndingsAgree(RemoveLast(line, '\n'), '\r');
  }

  /** Parsing a line's UTF-8 bytes removes its ending, and, where it is a handshake's line,
      once more. */
  lemma BytesStripTwice(line: string)
    ensures ParseBytes(Encode(line)) ==
            var body := StripText(line);
            if FirstWord(body) != PREFIX then NoHandshake else Classify(StripText(body))
  {
    hide Classify, Encode, Decode, StripText, StripBytes, FirstWord, Find;
    var body := StripText(line);
    StripsAgree(line);
    PartitionsAgree(body);
    EncodeInjective(FirstWord(body), PREFIX);
    EncodeDecodes(body);
  }

  lemma FirstWordOfCut(body: string, n: nat)
    requires FirstWord(body) == PREFIX && n <= |body|
    requires forall k :: n <= k < |body| ==> body[k] != ' '
    requires body != PREFIX
    ensures FirstWord(body[..n]) == PREFIX
  {
    var at := |PREFIX|;
    FindStops(body, ' ', 0);
    assert |FirstWord(body)| == at == Find(body, ' ', 0);
    assert at < |body| && body[at] == ' ' && at < n;
    var rest := body[at..n];
    assert body[..n] == PREFIX + rest;
    FindAfter(PREFIX, ' ', rest, 0);
  }

  /** Cutting a handshake's line changes what it is judged. */
  lemma CutChangesVerdict(body: string, n: nat)
    requires n < |body| && FirstWord(body) == FirstWord(body[..n]) == PREFIX
    requires forall k :: n <= k < |body| ==> body[k] != ' '
    ensures Classify(body) != Classify(body[..n])
  {
    if Classify(body).Address? && Classify(body[..n]).Address? {
      AddressOf(body);
      AddressOf(body[..n]);
    }
  }

  lemma AddressOf(body: string)
    requires Classify(body).Address?
    ensures |body| == |PREFIX| + |VERSION| + 2 + |Classify(body).address|
  {
    var rest := AfterWord(body);
    assert |AfterWord(rest)| > 0 && |rest| > 0;
  }

  /** Text and bytes agree: a line's UTF-8 bytes are judged as the line is, the same verdict
      with the same address or text, exactly when the line is no handshake's or, its ending
      removed once, ends in neither a carriage return nor a line feed. */
  lemma TextAndBytesAgree(line: string)
    ensures ParseBytes(Encode(line)) == ParseText(line) <==>
            var body := StripText(line);
            FirstWord(body) != PREFIX || (!EndsIn(body, '\r') && !EndsIn(body, '\n'))
  {
    hide Classify, ParseBytes, FirstWord, StripText;
    var body := StripText(line);
    BytesStripTwice(line);
    if FirstWord(body) != PREFIX {
      NotPrefixed(body);
    } else if EndsIn(body, '\r') || EndsIn(body, '\n') {
      CutDisagrees(body);
    } else {
      assert StripText(body) == body by {
        NothingToStrip(body);
      }
    }
  }

  lemma NothingToStrip(body: string)
    requires !EndsIn(body, '\r') && !EndsIn(body, '\n')
    ensures StripText(body) == body
  {
  }

  lemma CutDisagrees(body: string)
    requires FirstWord(body) == PREFIX && (EndsIn(body, '\r') || EndsIn(body, '\n'))
    ensures Classify(body) != Classify(StripText(body))
  {
    hide Classify, FirstWord;
    var n := |StripText(body)|;
    assert StripText(body) == body[..n] && n < |body|;
    assert forall k :: n <= k < |body| ==> body[k] != ' ';
    assert PREFIX[|PREFIX| - 1] == 'e' && body != PREFIX;
    FirstWordOfCut(body, n);
    CutChangesVerdict(body, n);
  }

  lemma NotPrefixed(body: string)
    requires FirstWord(body) != PREFIX
    ensures Classify(body) == NoHandshake
  {
  }

  /** Of such lines: a second carriage return is read as part of the path in text, and is
      dropped from bytes. */
  lemma DoubledReturnDisagrees(path: string)
    requires "/" <= path && '\n' !in path && !EndsIn(path, '\r')
    ensures var line := HandshakeLine(UNIX + (path + "\r\r"));
            ParseText(line) == Address(UNIX + (path + "\r")) && ParseBytes(Encode(line)) == Address(UNIX + path)
  {
    hide Classify, Announced, WellFormed, StripText, ParseBytes, FirstWord;
    var once, twice := path + "\r", path + "\r\r";
    assert once == path + "\r" && RemoveLast(twice, '\r') == once && RemoveLast(once, '\r') == path;
    var body := Announced(UNIX + once);
    PathsAre(path);
    PathsAre(once);
    PathsAre(twice);
    AnnouncedStrips(UNIX + twice);
    AnnouncedClassifies(UNIX + once);
    AnnouncedClassifies(UNIX + path);
    BytesStripTwice(HandshakeLine(UNIX + twice));
    StripsReturn(body, UNIX + once);
  }

  lemma StripsReturn(body: string, address: string)
    requires address != "" && body == Announced(address) && EndsIn(address, '\r')
    ensures StripText(body) == Announced(RemoveLast(address, '\r'))
  {
    hide Announced;
    AnnouncedEnds(address, '\n');
    AnnouncedEnds(address, '\r');
  }

  /** Read as bytes, a handshake names its path under the same condition. */
  lemma HandshakeBytesRoundTrip(path: string)
    ensures ParseBytes(Encode(HandshakeLine(UNIX + path))) == Address(UNIX + path) <==>
            "/" <= path && '\n' !in path && !EndsIn(path, '\r')
  {
    hide Classify, Announced, StripText, ParseBytes, FirstWord, HandshakeLine, WellFormed;
    var line, address := HandshakeLine(UNIX + path), UNIX + path;
    var body := StripText(line);
    HandshakeRoundTrip(path);
    BytesStripTwice(line);
    PathsAre(path);
    AnnouncedStrips(address);
    StripShortens(body);
    if ParseBytes(Encode(line)) == Address(address) {
      AddressOf(StripText(body));
      AnnouncedLength(address);
      AnnouncedLength(RemoveLast(address, '\r'));
      assert StripText(body) == body;
    }
    if "/" <= path && '\n' !in path && !EndsIn(path, '\r') {
      AnnouncedEnds(address, '\n');
      AnnouncedEnds(address, '\r');
      assert path[|path| - 1] in path && address[|address| - 1] == path[|path| - 1];
      NothingToStrip(body);
      AnnouncedClassifies(address);
    }
  }

  lemma StripShortens(body: string)
    ensures |StripText(body)| <= |body| && (|StripText(body)| == |body| ==> StripText(body) == body)
  {
  }

  lemma AnnouncedLength(address: string)
    ensures |Announced(address)| == |PREFIX| + |VERSION| + 2 + |address|
  {
  }
}
