/** The launch contract around a host: what a child process does with its descriptors, its
    signal handlers and its host, whatever stops it and whenever. */
module Child {
  import opened Prelude
  import opened Utf8
  import opened Handshake

  datatype Signal = SigTerm | SigInt

  /** What the child does that its parent or its process can tell. */
  datatype Event =
    | Duplicated | Redirected | Installed(handled: Signal) | StdinWatched
    | Started(up: bool) | Polled(serving: bool) | Wrote(line: string) | Closed
    | Restored(restored: Signal) | Stopped

  /** One check of the host's health, and whether a stop was requested by the end of the
      wait that follows a check that is not SERVING. */
  datatype Poll = Poll(serving: bool, stop: bool)

  /** What a run meets: the socket's path as the bytes the system holds, whether the host
      starts, each poll, and whether writing succeeds. The polls are those made before a
      stop request, which every run that ends gets: its stdin is closed at last. */
  datatype Environment = Environment(path: Bytes, starts: bool, polls: seq<Poll>, writes: bool)

  datatype Ending = Returned | StartFailed | WriteFailed | Refused(line: string)

  function AddressBytes(env: Environment): Bytes {
    Encode(UNIX) + env.path
  }

  /** Whether the host is seen SERVING, from poll `i` on, before a stop is. */
  function Serves(polls: seq<Poll>, i: nat): bool
    requires i <= |polls|
    decreases |polls| - i
  {
    i < |polls| && (polls[i].serving || (!polls[i].stop && Serves(polls, i + 1)))
  }

  /** The polls made, from poll `i` on. */
  function PollsMade(polls: seq<Poll>, i: nat): seq<Event>
    requires i <= |polls|
    decreases |polls| - i
  {
    if i == |polls| then []
    else [Polled(polls[i].serving)] + if polls[i].serving || polls[i].stop then [] else PollsMade(polls, i + 1)
  }

  lemma NoPollsMade(polls: seq<Poll>)
    ensures PollsMade(polls, |polls|) == []
  {
  }

  lemma PollMade(trace: seq<Event>, polls: seq<Poll>, i: nat)
    requires i < |polls|
    ensures trace + PollsMade(polls, i) ==
            (trace + [Polled(polls[i].serving)])
            + if polls[i].serving || polls[i].stop then [] else PollsMade(polls, i + 1)
  {
  }

  const SETUP := [Duplicated, Redirected, Installed(SigTerm), Installed(SigInt), StdinWatched]
  const CLEANUP := [Restored(SigTerm), Restored(SigInt), Stopped]

  /** Everything a run does. */
  function Trace(env: Environment): seq<Event> {
    var address := Decode(AddressBytes(env));
    if address.None? then []
    else if !env.starts then SETUP + [Started(false), Closed] + CLEANUP
    else
      SETUP + [Started(true)] + PollsMade(env.polls, 0) +
      (if Serves(env.polls, 0) && env.writes then [Wrote(HandshakeLine(address.value))] else []) +
      [Closed] + CLEANUP
  }

  function EndingOf(env: Environment): Ending {
    if Decode(AddressBytes(env)).None? then
      Refused(Escaped(Encode(PREFIX + " " + VERSION + " ") + AddressBytes(env)))
    else if !env.starts then StartFailed
    else if Serves(env.polls, 0) && !env.writes then WriteFailed
    else Returned
  }

  class Process {
    var trace: seq<Event>
    var handshakeOpen: bool

    constructor ()
      ensures trace == [] && !handshakeOpen
    {
      trace, handshakeOpen := [], false;
    }

    method CloseHandshake()
      modifies this
      ensures trace == old(trace) + [Closed] && !handshakeOpen
    {
      trace := trace + [Closed];
      handshakeOpen := false;
    }

    /** What runs however the child ends. */
    method Finish()
      modifies this
      ensures trace == old(trace) + (if old(handshakeOpen) then [Closed] else []) + CLEANUP && !handshakeOpen
    {
      if handshakeOpen {
        CloseHandshake();
      }
      trace := trace + CLEANUP;
    }

    /** Polls until the host is SERVING or a stop is requested. */
    method AwaitServing(polls: seq<Poll>) returns (serving: bool)
      modifies this
      ensures trace == old(trace) + PollsMade(polls, 0) && serving == Serves(polls, 0)
      ensures handshakeOpen == old(handshakeOpen)
    {
      hide PollsMade;
      for i := 0 to |polls|
        invariant handshakeOpen == old(handshakeOpen) && Serves(polls, 0) == Serves(polls, i)
        invariant trace + PollsMade(polls, i) == old(trace) + PollsMade(polls, 0)
      {
        PollMade(trace, polls, i);
        trace := trace + [Polled(polls[i].serving)];
        if polls[i].serving {
          return true;
        }
        if polls[i].stop {
          return false;
        }
      }
      NoPollsMade(polls);
      serving := false;
    }

    method RunChild(env: Environment) returns (ending: Ending)
      requires trace == [] && !handshakeOpen
      modifies this
      ensures trace == Trace(env) && ending == EndingOf(env) && !handshakeOpen
    {
      hide Decode, Escaped, HandshakeLine, Serves, PollsMade;
      var decoded := Decode(AddressBytes(env));
      if decoded.None? {
        return Refused(Escaped(Encode(PREFIX + " " + VERSION + " ") + AddressBytes(env)));
      }
      handshakeOpen := true;
      trace := SETUP;
      trace := trace + [Started(env.starts)];
      if !env.starts {
        Finish();
        return StartFailed;
      }
      var serving := AwaitServing(env.polls);
      if !serving {
        Finish();
        return Returned;
      }
      if !env.writes {
        Finish();
        return WriteFailed;
      }
      trace := trace + [Wrote(HandshakeLine(decoded.value))];
      CloseHandshake();
      Finish();
      ending := Returned;
    }
  }

  // ---------------------------------------------------------------- what a run keeps

  function Count(trace: seq<Event>, e: Event): nat {
    if trace == [] then 0 else Count(trace[1..], e) + if trace[0] == e then 1 else 0
  }

  lemma {:induction false} CountConcat(a: seq<Event>, b: seq<Event>, e: Event)
    ensures Count(a + b, e) == Count(a, e) + Count(b, e)
    decreases |a|
  {
    if a == [] {
      assert a + b == b;
    } else {
      assert (a + b)[1..] == a[1..] + b;
      CountConcat(a[1..], b, e);
    }
  }

  lemma {:induction false} PollsAreOnlyPolls(polls: seq<Poll>, i: nat)
    requires i <= |polls|
    ensures forall k :: 0 <= k < |PollsMade(polls, i)| ==> PollsMade(polls, i)[k].Polled?
    ensures Serves(polls, i) <==>
            PollsMade(polls, i) != [] && PollsMade(polls, i)[|PollsMade(polls, i)| - 1] == Polled(true)
    decreases |polls| - i
  {
    if i == |polls| || polls[i].serving || polls[i].stop {
    } else {
      PollsAreOnlyPolls(polls, i + 1);
      assert PollsMade(polls, i) == [Polled(false)] + PollsMade(polls, i + 1);
    }
  }

  lemma {:induction false} PollsCountNothing(events: seq<Event>, e: Event)
    requires (forall k :: 0 <= k < |events| ==> events[k].Polled?) && !e.Polled?
    ensures Count(events, e) == 0
    decreases |events|
  {
    if events == [] {
    } else {
      PollsCountNothing(events[1..], e);
    }
  }

  /** However a run that began ends, it closes its handshake descriptor once, restores each
      signal handler and stops the host. */
  lemma EveryRunCleansUp(env: Environment)
    requires Decode(AddressBytes(env)).Some?
    ensures Count(Trace(env), Closed) == 1
    ensures Count(Trace(env), Restored(SigTerm)) == 1 && Count(Trace(env), Restored(SigInt)) == 1
    ensures Count(Trace(env), Stopped) == 1 && Trace(env)[|Trace(env)| - 1] == Stopped
  {
    hide Decode;
    forall e | e in {Closed, Restored(SigTerm), Restored(SigInt), Stopped}
      ensures Count(Trace(env), e) == 1
    {
      CleansUpOnce(env, e);
    }
  }

  function Written(env: Environment): seq<Event>
    requires Decode(AddressBytes(env)).Some?
  {
    if Serves(env.polls, 0) && env.writes then [Wrote(HandshakeLine(Decode(AddressBytes(env)).value))] else []
  }

  lemma CleansUpOnce(env: Environment, e: Event)
    requires Decode(AddressBytes(env)).Some?
    requires e in {Closed, Restored(SigTerm), Restored(SigInt), Stopped}
    ensures Count(Trace(env), e) == 1
  {
    hide Decode, Serves;
    var before := SETUP + [Started(true)];
    var polls, written := PollsMade(env.polls, 0), Written(env);
    var end := [Closed] + CLEANUP;
    CountsOfEnds(e);
    if !env.starts {
      assert Trace(env) == SETUP + [Started(false)] + end;
      CountConcat(SETUP + [Started(false)], end, e);
    } else {
      assert Trace(env) == before + polls + written + end;
      PollsAreOnlyPolls(env.polls, 0);
      PollsCountNothing(polls, e);
      CountConcat(before, polls, e);
      CountConcat(before + polls, written, e);
      CountConcat(before + polls + written, end, e);
      if written != [] {
        assert written[1..] == [];
        assert Count(written, e) == 0;
      }
    }
  }

  lemma CountsOfEnds(e: Event)
    requires e in {Closed, Restored(SigTerm), Restored(SigInt), Stopped}
    ensures Count([Closed] + CLEANUP, e) == 1
    ensures forall up :: Count(SETUP + [Started(up)], e) == 0
  {
    var end := [Closed] + CLEANUP;
    assert end[1..] == CLEANUP && CLEANUP[1..] == [Restored(SigInt), Stopped];
    assert CLEANUP[1..][1..] == [Stopped] && [Stopped][1..] == [];
    forall up
      ensures Count(SETUP + [Started(up)], e) == 0
    {
      assert SETUP == [Duplicated] + ([Redirected] + ([Installed(SigTerm)] + ([Installed(SigInt)] + [StdinWatched])));
      NoneOf(SETUP + [Started(up)], e);
    }
  }

  lemma {:induction false} NoneOf(events: seq<Event>, e: Event)
    requires e !in events
    ensures Count(events, e) == 0
    decreases |events|
  {
    if events == [] {
    } else {
      NoneOf(events[1..], e);
    }
  }

  /** A line is written exactly when the host was seen SERVING before a stop was and the
      write succeeds; it is then one line, right after that sight and right before the
      descriptor is closed, and it names the socket. */
  lemma OneHandshakeOnceServing(env: Environment, k: nat)
    requires Decode(AddressBytes(env)).Some? && k < |Trace(env)|
    ensures (exists j :: 0 <= j < |Trace(env)| && Trace(env)[j].Wrote?) <==>
            env.starts && Serves(env.polls, 0) && env.writes
    ensures Trace(env)[k].Wrote? ==>
              && 0 < k < |Trace(env)| - 1
              && Trace(env)[k] == Wrote(HandshakeLine(Decode(AddressBytes(env)).value))
              && Trace(env)[k - 1] == Polled(true) && Trace(env)[k + 1] == Closed
              && forall j :: 0 <= j < |Trace(env)| && Trace(env)[j].Wrote? ==> j == k
  {
    hide Decode, Serves, HandshakeLine, PollsMade;
    if env.starts {
      var begun := SETUP + [Started(true)] + PollsMade(env.polls, 0);
      var written, end := Written(env), [Closed] + CLEANUP;
      PollsAreOnlyPolls(env.polls, 0);
      assert Trace(env) == begun + written + end;
      assert forall j :: 0 <= j < |begun| ==> !begun[j].Wrote?;
      assert forall j :: 0 <= j < |end| ==> !end[j].Wrote?;
      if written != [] {
        assert Trace(env)[|begun|] == written[0];
      }
    }
  }

  /** What the parent reads: a socket path it can be told reads back as that address. */
  lemma ParentReadsAddress(env: Environment)
    requires Decode(env.path).Some?
    requires var path := Decode(env.path).value; "/" <= path && '\n' !in path && !EndsIn(path, '\r')
    requires env.starts && Serves(env.polls, 0) && env.writes
    ensures exists line :: Wrote(line) in Trace(env) &&
              ParseBytes(Encode(line)) == Address(UNIX + Decode(env.path).value)
  {
    hide ParseBytes, Serves;
    var path := Decode(env.path).value;
    DecodeEncodes(env.path);
    EncodeConcat(UNIX, path);
    EncodeDecodes(UNIX + path);
    HandshakeBytesRoundTrip(path);
    var line := HandshakeLine(UNIX + path);
    assert Wrote(line) in Trace(env);
  }

  // ------------------------------------------------------------ a run, told by what it does

  /** The polls made are the first of those there are, up to the first that is SERVING or
      after which a stop is seen, and that one with them. */
  lemma {:induction false} PollsAre(polls: seq<Poll>, i: nat)
    requires i <= |polls|
    ensures var made := PollsMade(polls, i);
            && |made| <= |polls| - i
            && (forall k :: 0 <= k < |made| ==> made[k] == Polled(polls[i + k].serving))
            && (forall k :: i <= k < i + |made| - 1 ==> !polls[k].serving && !polls[k].stop)
            && (|made| < |polls| - i ==> made != [] && (polls[i + |made| - 1].serving || polls[i + |made| - 1].stop))
    decreases |polls| - i
  {
    if i == |polls| || polls[i].serving || polls[i].stop {
    } else {
      PollsAre(polls, i + 1);
      var rest := PollsMade(polls, i + 1);
      assert PollsMade(polls, i) == [Polled(false)] + rest;
      assert forall k :: 0 < k < |PollsMade(polls, i)| ==> PollsMade(polls, i)[k] == rest[k - 1];
    }
  }

  /** The host is seen SERVING exactly where some poll is, and none before it is or has a
      stop seen after it. */
  lemma {:induction false} ServesExactly(polls: seq<Poll>, i: nat)
    requires i <= |polls|
    ensures Serves(polls, i) <==>
            exists k :: i <= k < |polls| && polls[k].serving &&
              forall j :: i <= j < k ==> !polls[j].serving && !polls[j].stop
    decreases |polls| - i
  {
    if i == |polls| || polls[i].serving || polls[i].stop {
    } else {
      ServesExactly(polls, i + 1);
      if Serves(polls, i + 1) {
        var k :| i + 1 <= k < |polls| && polls[k].serving &&
                 forall j :: i + 1 <= j < k ==> !polls[j].serving && !polls[j].stop;
        assert forall j :: i <= j < k ==> !polls[j].serving && !polls[j].stop;
      }
    }
  }

  /** A run that began keeps the real stdout, redirects what is written to it, handles both
      signals and watches its stdin, in that order and before its host starts; and last it
      closes the handshake's descriptor, puts both handlers back and stops its host. */
  lemma BeginsAndEnds(env: Environment)
    requires Decode(AddressBytes(env)).Some?
    ensures var trace := Trace(env);
            && |trace| >= 10
            && trace[..6] ==
               [Duplicated, Redirected, Installed(SigTerm), Installed(SigInt), StdinWatched, Started(env.starts)]
            && trace[|trace| - 4..] == [Closed, Restored(SigTerm), Restored(SigInt), Stopped]
            && (!env.starts ==> |trace| == 10)
  {
    hide Decode, HandshakeLine, Serves, PollsMade;
    if env.starts {
      var begun, rest := SETUP + [Started(true)], PollsMade(env.polls, 0) + Written(env);
      assert Trace(env) == begun + (rest + ([Closed] + CLEANUP));
      assert Trace(env) == (begun + rest) + ([Closed] + CLEANUP);
    }
  }

  /** Between the two a run polls as said, and then, if it wrote, wrote one line. */
  lemma PollsBetween(env: Environment)
    requires Decode(AddressBytes(env)).Some? && env.starts
    ensures var trace := Trace(env);
            var made := PollsMade(env.polls, 0);
            && 6 + |made| + 4 <= |trace| <= 6 + |made| + 5
            && trace[6..6 + |made|] == made
            && (|trace| == 6 + |made| + 5 ==> trace[6 + |made|].Wrote?)
  {
    hide Decode, HandshakeLine, Serves, PollsMade;
    assert Trace(env) == (SETUP + [Started(true)]) + (PollsMade(env.polls, 0) + (Written(env) + ([Closed] + CLEANUP)));
  }

  lemma PolledTrue(env: Environment)
    requires Decode(AddressBytes(env)).Some?
    ensures env.starts ==> (Polled(true) in Trace(env) <==> Serves(env.polls, 0))
    ensures !env.starts ==> Polled(true) !in Trace(env)
    ensures (exists line :: Wrote(line) in Trace(env)) <==> env.starts && Serves(env.polls, 0) && env.writes
    ensures forall up :: Started(up) in Trace(env) <==> up == env.starts
  {
    hide Decode, Serves, HandshakeLine, PollsMade;
    if !env.starts {
      assert Trace(env)[5] == Started(false);
    } else {
      assert Trace(env)[5] == Started(true);
      var polls := PollsMade(env.polls, 0);
      PollsAreOnlyPolls(env.polls, 0);
      OnlyLastServes(env.polls, 0);
      var begun, written, end := SETUP + [Started(true)], Written(env), [Closed] + CLEANUP;
      assert Trace(env) == begun + polls + written + end;
      assert forall e :: e in Trace(env) <==> e in begun || e in polls || e in written || e in end;
      if written != [] {
        assert written[0] in Trace(env);
      }
    }
  }

  lemma {:induction false} OnlyLastServes(polls: seq<Poll>, i: nat)
    requires i <= |polls|
    ensures Polled(true) in PollsMade(polls, i) <==> Serves(polls, i)
    decreases |polls| - i
  {
    if i == |polls| || polls[i].serving || polls[i].stop {
    } else {
      OnlyLastServes(polls, i + 1);
    }
  }

  /** How a run ends is told by what it did: one that did nothing was refused, with its line
      shown escaped; one whose host did not start failed so; one that saw it SERVING and wrote
      no line failed to write; and any other returned. */
  lemma EndingIsTold(env: Environment)
    ensures EndingOf(env).Refused? <==> Trace(env) == []
    ensures Trace(env) == [] ==>
              EndingOf(env) == Refused(EscapeBytes(Encode("angzarr-handshake v1 ") + (Encode("unix:") + env.path)))
    ensures EndingOf(env) == StartFailed <==> Started(false) in Trace(env)
    ensures EndingOf(env) == WriteFailed <==>
            Polled(true) in Trace(env) && forall line :: Wrote(line) !in Trace(env)
    ensures EndingOf(env) == Returned <==>
            Started(true) in Trace(env) && (Polled(true) in Trace(env) ==> exists line :: Wrote(line) in Trace(env))
  {
    hide Decode, HandshakeLine, EscapeBytes, Encode, Serves, PollsMade;
    var prefix := "angzarr-handshake v1 ";
    assert PREFIX + " " + VERSION + " " == prefix;
    if Decode(AddressBytes(env)).None? {
      PrefixKeepsInvalid(prefix, AddressBytes(env));
    } else {
      PolledTrue(env);
    }
  }
}
