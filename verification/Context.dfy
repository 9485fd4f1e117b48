/** The contexts business code reads, and folding a book into a state: from its snapshot, or
    from a fresh state, page by page. */
module Context {
  import opened Prelude
  import opened Errors

  type Uuid = string
  type Instant = int

  datatype Cover = Cover(domain: string, root: Bytes)
  datatype EventMeta = EventMeta(
    rulesVersion: string, commandId: Option<Uuid>, fact: Option<string>,
    correlationId: Option<Uuid>, recordedAt: Option<Instant>)
  datatype EventPage = EventPage(payload: Any, sequence: nat, meta: Option<EventMeta>)
  datatype Snapshot = Snapshot(state: Option<Any>)
  datatype EventBook = EventBook(
    cover: Option<Cover>, snapshot: Option<Snapshot>, pages: seq<EventPage>, nextSequence: nat)

  const EMPTY_BOOK := EventBook(None, None, [], 0)

  datatype Mode = Unspecified | Strict | AggregateHandles | Commutative
  datatype Handling = Handling(expectedSequence: Option<nat>, conflictResolution: Mode)

  /** The two arms of a command page; a page with neither reads as an empty command. */
  datatype Body = NoBody | CommandBody(payload: Any) | FactBody(payload: Any)
  datatype CommandPage = CommandPage(
    body: Body, commandId: Option<Uuid>, correlationId: Option<Uuid>, factOrigin: Option<string>)
  datatype CommandBook = CommandBook(cover: Option<Cover>, page: CommandPage, handling: Handling)

  /** The place of one page: its stream, its number and its metadata. */
  datatype PageContext = PageContext(cover: Option<Cover>, sequence: nat, meta: Option<EventMeta>)

  const NO_PAGE := PageContext(None, 0, None)

  /** The pages a stale command did not see, the nonce it came with, and the nonce of a handler
      that settled them, or no bytes. */
  datatype Conflict = Conflict(window: seq<EventPage>, nonce: Bytes, resolvedNonce: Bytes) {
    function ResolveConflicts(settled: seq<EventPage>, with: Bytes): Conflict {
      this.(resolvedNonce := with)
    }
  }

  datatype CommandContext = CommandContext(
    nextSequence: nat, hadPriorEvents: bool, cover: Option<Cover>, expectedSequence: nat,
    conflictResolution: Mode, conflict: Option<Conflict>, commandId: Option<Uuid>,
    correlationId: Option<Uuid>, factOrigin: Option<string>, recordedAt: Option<Instant>)
  {
    /** How the decision's events are stamped. */
    function Meta(rulesVersion: string): EventMeta {
      EventMeta(rulesVersion, commandId, factOrigin, correlationId, recordedAt)
    }
  }

  function BookContext(book: CommandBook, nextSequence: nat): CommandContext {
    CommandContext(
      nextSequence, false, book.cover,
      if book.handling.expectedSequence.None? then nextSequence else book.handling.expectedSequence.value,
      book.handling.conflictResolution, None,
      book.page.commandId, book.page.correlationId, book.page.factOrigin, None)
  }

  /** A fact to record, and the flags raised on it. */
  datatype FactRecord = FactRecord(fact: Any, flags: seq<Any>) {
    function Book(): EventBook {
      var payloads := [fact] + flags;
      EMPTY_BOOK.(pages := seq(|payloads|, i requires 0 <= i < |payloads| => EventPage(payloads[i], 0, None)))
    }
  }

  /** An applier: the state, the event, the page's context, and what `current_page()`
      answers while it runs; the state it leaves, or what it raises. */
  type Applier<!S> = (S, Any, PageContext, Option<PageContext>) -> Result<S, Exn>
  type Appliers<!S> = map<string, Applier<S>>

  /** How a state message is made and encoded. */
  datatype StateType<!S(!new)> = StateType(
    fullName: string, factory: S, encode: S -> Bytes, decode: Bytes -> Option<S>)
  {
    ghost predicate RoundTrips() {
      forall s :: decode(encode(s)) == Some(s)
    }

    function Pack(s: S): Any {
      Any("/" + fullName, encode(s))
    }
  }

  function StartState<S(!new)>(stateType: StateType<S>, book: EventBook): Result<S, CodedError> {
    if book.snapshot.None? || book.snapshot.value.state.None? then Ok(stateType.factory)
    else
      var state := book.snapshot.value.state.value;
      match stateType.decode(state.value)
      case Some(s) => Ok(s)
      case None => Err(Keyed(PERSISTED_EVENT_CORRUPT, map[TYPE_URL := state.typeUrl]))
  }

  // ---------------------------------------------------------------- the fold

  function ApplyPage<S>(s: S, page: EventPage, cover: Option<Cover>, appliers: Appliers<S>): Result<S, Exn> {
    var name := TypeName(page.payload.typeUrl);
    if name !in appliers then Ok(s)
    else
      var ctx := PageContext(cover, page.sequence, page.meta);
      appliers[name](s, page.payload, ctx, Some(ctx))
  }

  /** Where a fold ends: the state all pages leave, or the page that failed, the state it
      failed on and what it raised. */
  datatype Replayed<S> = Folded(state: S) | Failed(at: nat, state: S, exn: Exn)

  function FoldPage<S>(
    before: Replayed<S>, page: EventPage, at: nat, cover: Option<Cover>, appliers: Appliers<S>): Replayed<S>
  {
    if before.Failed? then before
    else
      match ApplyPage(before.state, page, cover, appliers)
      case Ok(t) => Folded(t)
      case Err(exn) => Failed(at, before.state, exn)
  }

  function Replay<S>(s: S, pages: seq<EventPage>, cover: Option<Cover>, appliers: Appliers<S>): (r: Replayed<S>)
    ensures r.Failed? ==> r.at < |pages|
  {
    ReplayTo(s, pages, |pages|, cover, appliers)
  }

  /** Where folding the first `n` pages ends. */
  function ReplayTo<S>(
    s: S, pages: seq<EventPage>, n: nat, cover: Option<Cover>, appliers: Appliers<S>): (r: Replayed<S>)
    requires n <= |pages|
    ensures r.Failed? ==> r.at < n
  {
    if n == 0 then Folded(s)
    else FoldPage(ReplayTo(s, pages, n - 1, cover, appliers), pages[n - 1], n - 1, cover, appliers)
  }

  function Decimal(n: nat): (text: string) {
    var digit := [(n % 10 + '0' as int) as char];
    if n < 10 then digit else Decimal(n / 10) + digit
  }

  function PageArgs(page: EventPage, stateName: string): (args: Args)
    ensures forall k :: k in args ==> !(CAUSE <= k)
  {
    assert SEQUENCE[0] != CAUSE[0] && TYPE_URL[0] != CAUSE[0] && STATE_TYPE_URL[0] != CAUSE[0];
    map[SEQUENCE := Decimal(page.sequence), TYPE_URL := page.payload.typeUrl, STATE_TYPE_URL := "/" + stateName]
  }

  function FoldError(code: string, page: EventPage, stateName: string, exn: Exn): CodedError {
    Keyed(code, PageArgs(page, stateName) + AsCause(exn))
  }

  /** The context variable holding the running handler's page. */
  class ContextVar {
    var current: Option<PageContext>

    constructor ()
      ensures current == None
    {
      current := None;
    }
  }

  /** A state message, folded into in place. */
  class Message<S> {
    var value: S

    constructor (value: S)
      ensures this.value == value
    {
      this.value := value;
    }
  }

  /** Runs one applier under its page's context, which is put back however it ends. */
  method Apply<S>(cv: ContextVar, state: Message<S>, applier: Applier<S>, payload: Any, ctx: PageContext)
    returns (raised: Option<Exn>)
    modifies cv, state
    ensures cv.current == old(cv.current)
    ensures match applier(old(state.value), payload, ctx, Some(ctx))
            case Ok(s) => raised == None && state.value == s
            case Err(exn) => raised == Some(exn)
  {
    var token := cv.current;
    cv.current := Some(ctx);
    match applier(state.value, payload, ctx, cv.current) {
      case Ok(s) =>
        state.value := s;
        raised := None;
      case Err(exn) =>
        raised := Some(exn);
    }
    cv.current := token;
  }

  method Fold<S>(
    cv: ContextVar, state: Message<S>, pages: seq<EventPage>, cover: Option<Cover>,
    appliers: Appliers<S>, code: string, stateName: string)
    returns (failure: Option<CodedError>)
    modifies cv, state
    ensures cv.current == old(cv.current)
    ensures match Replay(old(state.value), pages, cover, appliers)
            case Folded(s) => failure == None && state.value == s
            case Failed(at, _, exn) => failure == Some(FoldError(code, pages[at], stateName, exn))
  {
    var i := 0;
    while i < |pages|
      invariant 0 <= i <= |pages|
      invariant cv.current == old(cv.current)
      invariant ReplayTo(old(state.value), pages, i, cover, appliers) == Folded(state.value)
    {
      var page := pages[i];
      var name := TypeName(page.payload.typeUrl);
      if name in appliers {
        ghost var before := state.value;
        var ctx := PageContext(cover, page.sequence, page.meta);
        var raised := Apply(cv, state, appliers[name], page.payload, ctx);
        if raised.Some? {
          FailureStays(old(state.value), pages, i, before, raised.value, |pages|, cover, appliers);
          return Some(FoldError(code, page, stateName, raised.value));
        }
      }
      i := i + 1;
    }
    failure := None;
  }

  // --------------------------------------------------------- what the fold promises

  lemma {:induction false} FailureStays<S>(
    s: S, pages: seq<EventPage>, at: nat, t: S, exn: Exn, n: nat, cover: Option<Cover>, appliers: Appliers<S>)
    requires at < n <= |pages|
    requires ReplayTo(s, pages, at, cover, appliers) == Folded(t)
    requires ApplyPage(t, pages[at], cover, appliers) == Err(exn)
    ensures ReplayTo(s, pages, n, cover, appliers) == Failed(at, t, exn)
  {
    if n == at + 1 {
    } else {
      FailureStays(s, pages, at, t, exn, n - 1, cover, appliers);
    }
  }

  /** Whether a page takes `s` to `t`: its type's applier, handed the page under the page's
      own context, leaves `t`, or no applier claims the type and `s` stays. */
  ghost predicate Leaves<S>(s: S, page: EventPage, cover: Option<Cover>, appliers: Appliers<S>, t: S) {
    var name, ctx := TypeName(page.payload.typeUrl), PageContext(cover, page.sequence, page.meta);
    if name in appliers then appliers[name](s, page.payload, ctx, Some(ctx)) == Ok(t) else t == s
  }

  /** The states a fold goes through, from the first to after the page `n - 1`. */
  ghost predicate Chain<S>(
    states: seq<S>, pages: seq<EventPage>, n: nat, cover: Option<Cover>, appliers: Appliers<S>)
    requires n <= |pages|
  {
    |states| == n + 1 && forall i :: 0 <= i < n ==> Leaves(states[i], pages[i], cover, appliers, states[i + 1])
  }

  /** A fold ends in a state exactly where every page's applier, in order, leaves the next of
      a chain of states from the first to that one: not one is passed over. */
  lemma {:induction false} FoldPassesExactly<S>(
    s: S, pages: seq<EventPage>, n: nat, cover: Option<Cover>, appliers: Appliers<S>, t: S)
    requires n <= |pages|
    ensures ReplayTo(s, pages, n, cover, appliers) == Folded(t) <==>
            exists states: seq<S> :: Chain(states, pages, n, cover, appliers) && states[0] == s && states[n] == t
  {
    if n == 0 {
      if s == t {
        assert Chain([s], pages, 0, cover, appliers);
      }
    } else {
      var before := ReplayTo(s, pages, n - 1, cover, appliers);
      if ReplayTo(s, pages, n, cover, appliers) == Folded(t) {
        FoldPassesExactly(s, pages, n - 1, cover, appliers, before.state);
        var states: seq<S> :|
          Chain(states, pages, n - 1, cover, appliers) && states[0] == s && states[n - 1] == before.state;
        assert Chain(states + [t], pages, n, cover, appliers);
      }
      forall states: seq<S> | Chain(states, pages, n, cover, appliers) && states[0] == s && states[n] == t
        ensures ReplayTo(s, pages, n, cover, appliers) == Folded(t)
      {
        assert Leaves(states[n - 1], pages[n - 1], cover, appliers, states[n]);
        assert Chain(states[..n], pages, n - 1, cover, appliers);
        FoldPassesExactly(s, pages, n - 1, cover, appliers, states[n - 1]);
      }
    }
  }

  /** A fold fails exactly at the page whose applier raises on the state the pages before it
      leave, whatever it raises, so there is at most one such page. */
  lemma {:induction false} FoldFailsExactly<S>(
    s: S, pages: seq<EventPage>, n: nat, cover: Option<Cover>, appliers: Appliers<S>, at: nat, t: S, exn: Exn)
    requires n <= |pages|
    ensures ReplayTo(s, pages, n, cover, appliers) == Failed(at, t, exn) <==>
            && at < n
            && ReplayTo(s, pages, at, cover, appliers) == Folded(t)
            && var page := pages[at];
               var name, ctx := TypeName(page.payload.typeUrl), PageContext(cover, page.sequence, page.meta);
               name in appliers && appliers[name](t, page.payload, ctx, Some(ctx)) == Err(exn)
  {
    if n == 0 {
    } else {
      FoldFailsExactly(s, pages, n - 1, cover, appliers, at, t, exn);
    }
  }

  /** What folding `pages` after the `n` that ended in `before` ends in. */
  function Resume<S>(
    before: Replayed<S>, n: nat, pages: seq<EventPage>, cover: Option<Cover>, appliers: Appliers<S>): Replayed<S>
  {
    if before.Failed? then before
    else
      var r := Replay(before.state, pages, cover, appliers);
      if r.Failed? then r.(at := n + r.at) else r
  }

  /** The first `n` pages decide where folding them ends. */
  lemma {:induction false} ReplayReadsPrefix<S>(
    s: S, a: seq<EventPage>, b: seq<EventPage>, n: nat, cover: Option<Cover>, appliers: Appliers<S>)
    requires n <= |a| && n <= |b| && forall i :: 0 <= i < n ==> a[i] == b[i]
    ensures ReplayTo(s, a, n, cover, appliers) == ReplayTo(s, b, n, cover, appliers)
  {
    if n == 0 {
    } else {
      ReplayReadsPrefix(s, a, b, n - 1, cover, appliers);
    }
  }

  /** Folding two runs of pages is folding the first, then the second on what it left. */
  lemma ReplayConcat<S>(s: S, a: seq<EventPage>, b: seq<EventPage>, cover: Option<Cover>, appliers: Appliers<S>)
    ensures Replay(s, a + b, cover, appliers) == Resume(Replay(s, a, cover, appliers), |a|, b, cover, appliers)
  {
    ReplayReadsPrefix(s, a, a + b, |a|, cover, appliers);
    ReplayFrom(s, a, b, |b|, cover, appliers);
  }

  lemma {:induction false} ReplayFrom<S>(
    s: S, a: seq<EventPage>, b: seq<EventPage>, n: nat, cover: Option<Cover>, appliers: Appliers<S>)
    requires n <= |b|
    ensures var before := ReplayTo(s, a + b, |a|, cover, appliers);
            ReplayTo(s, a + b, |a| + n, cover, appliers) ==
            if before.Failed? then before
            else
              var r := ReplayTo(before.state, b, n, cover, appliers);
              if r.Failed? then r.(at := |a| + r.at) else r
  {
    if n == 0 {
    } else {
      ReplayFrom(s, a, b, n - 1, cover, appliers);
      assert (a + b)[|a| + n - 1] == b[n - 1];
    }
  }

  function Relevant<S>(pages: seq<EventPage>, n: nat, appliers: Appliers<S>): seq<EventPage>
    requires n <= |pages|
  {
    if n == 0 then []
    else
      Relevant(pages, n - 1, appliers)
      + if TypeName(pages[n - 1].payload.typeUrl) in appliers then [pages[n - 1]] else []
  }

  /** Pages no applier claims are irrelevant: the fold is the fold of the others. */
  lemma {:induction false} FoldSkipsUnclaimedPages<S>(
    s: S, pages: seq<EventPage>, n: nat, cover: Option<Cover>, appliers: Appliers<S>)
    requires n <= |pages|
    ensures var all := ReplayTo(s, pages, n, cover, appliers);
            var few := Replay(s, Relevant(pages, n, appliers), cover, appliers);
            && all.state == few.state
            && (all.Folded? <==> few.Folded?)
            && (all.Failed? ==> all.exn == few.exn && Relevant(pages, n, appliers)[few.at] == pages[all.at])
  {
    if n == 0 {
    } else {
      FoldSkipsUnclaimedPages(s, pages, n - 1, cover, appliers);
      var page, front := pages[n - 1], Relevant(pages, n - 1, appliers);
      if TypeName(page.payload.typeUrl) in appliers {
        ReplayReadsPrefix(s, front, front + [page], |front|, cover, appliers);
        assert Replay(s, front + [page], cover, appliers) ==
               FoldPage(Replay(s, front, cover, appliers), page, |front|, cover, appliers);
      } else {
        assert Relevant(pages, n, appliers) == front;
      }
    }
  }

  /** What an applier is handed with its event. */
  datatype Handed = Handed(event: Any, ctx: PageContext, current: Option<PageContext>)

  /** One applier, of the type `name`, that records what it is handed. */
  ghost function Recorder(name: string): Appliers<seq<Handed>> {
    var applier: Applier<seq<Handed>> :=
      (s: seq<Handed>, event: Any, ctx: PageContext, current: Option<PageContext>) =>
        Ok(s + [Handed(event, ctx, current)]);
    map[name := applier]
  }

  /** What the first `n` pages of the type `name` hand to their applier. */
  function HandedBy(pages: seq<EventPage>, n: nat, cover: Option<Cover>, name: string): seq<Handed>
    requires n <= |pages|
  {
    if n == 0 then []
    else
      var page := pages[n - 1];
      var ctx := PageContext(cover, page.sequence, page.meta);
      HandedBy(pages, n - 1, cover, name)
      + if TypeName(page.payload.typeUrl) == name then [Handed(page.payload, ctx, Some(ctx))] else []
  }

  /** An applier is handed exactly the pages of its type, in order, each with its book's cover
      and its own sequence and meta, which are also the current page while it runs. */
  lemma {:induction false} AppliersAreHandedTheirPages(
    pages: seq<EventPage>, n: nat, cover: Option<Cover>, name: string)
    requires n <= |pages|
    ensures ReplayTo([], pages, n, cover, Recorder(name)) == Folded(HandedBy(pages, n, cover, name))
  {
    if n == 0 {
    } else {
      AppliersAreHandedTheirPages(pages, n - 1, cover, name);
      var before := HandedBy(pages, n - 1, cover, name);
      assert before + [] == before;
    }
  }

  function ReadDecimal(text: string): int {
    if text == "" then 0
    else 10 * ReadDecimal(text[..|text| - 1]) + text[|text| - 1] as int - '0' as int
  }

  lemma {:induction false} DecimalReadsBack(n: nat)
    ensures ReadDecimal(Decimal(n)) == n
  {
    if n < 10 {
    } else {
      DecimalReadsBack(n / 10);
      var text := Decimal(n);
      assert text[..|text| - 1] == Decimal(n / 10);
    }
  }

  /** A number is written in digits, the first of them no zero unless it is the only one. */
  lemma {:induction false} DecimalIs(n: nat)
    ensures Decimal(n) != "" && forall i :: 0 <= i < |Decimal(n)| ==> '0' <= Decimal(n)[i] <= '9'
    ensures Decimal(n)[0] == '0' <==> n == 0
    ensures n == 0 ==> Decimal(n) == "0"
  {
    if n < 10 {
    } else {
      DecimalIs(n / 10);
    }
  }

  /** The fold failure of an applier's bug, spelled out: the page's arguments, the bug's key
      and each of its own, and nothing else. */
  lemma FoldErrorIs(code: string, page: EventPage, stateName: string, key: string, args: Args)
    ensures var error := FoldError(code, page, stateName, Bug(key, args));
            && error == CodedError(code, None, error.extras, None)
            && (forall k :: k in error.extras <==>
                  || k == "sequence" || k == "type_url" || k == "state_type_url" || k == "cause"
                  || exists a :: a in args && k == "cause" + "." + a)
            && error.extras["sequence"] == Decimal(page.sequence)
            && error.extras["type_url"] == page.payload.typeUrl
            && error.extras["state_type_url"] == "/" + stateName
            && error.extras["cause"] == key
            && forall a :: a in args ==> error.extras["cause" + "." + a] == args[a]
  {
    hide Flatten;
    var cause := Flatten(CAUSE, key, args);
    FlattenIs(CAUSE, key, args);
    NotInFlattened(SEQUENCE, key, args);
    NotInFlattened(TYPE_URL, key, args);
    NotInFlattened(STATE_TYPE_URL, key, args);
    PageArgsOverridden(page, stateName, cause);
    assert AsCause(Bug(key, args)) == cause;
  }

  /** The arguments a raised error brings along unwrapped: those of one made under the
      router's own unhandled key. */
  function Carried(exn: Exn): Args {
    if exn.Coded? && exn.error.code == UNHANDLED_HANDLER_ERROR then exn.error.extras else map[]
  }

  /** Whether a raised error leaves any page's own arguments alone. */
  predicate SparesPages(exn: Exn) {
    SEQUENCE !in Carried(exn) && TYPE_URL !in Carried(exn) && STATE_TYPE_URL !in Carried(exn)
  }

  /** Whether what a raised error brings along says of a page only what is so. */
  predicate Agrees(exn: Exn, sequence: nat, typeUrl: string, stateName: string) {
    var carried := Carried(exn);
    && (SEQUENCE in carried ==> ReadDecimal(carried[SEQUENCE]) == sequence)
    && (TYPE_URL in carried ==> carried[TYPE_URL] == typeUrl)
    && (STATE_TYPE_URL in carried ==> carried[STATE_TYPE_URL] == "/" + stateName)
  }

  predicate NamesPage(extras: Args, sequence: nat, typeUrl: string, stateName: string) {
    && SEQUENCE in extras && ReadDecimal(extras[SEQUENCE]) == sequence
    && TYPE_URL in extras && extras[TYPE_URL] == typeUrl
    && STATE_TYPE_URL in extras && extras[STATE_TYPE_URL] == "/" + stateName
  }

  /** Whatever an applier raises, its fold failure carries exactly what the error amounts to,
      and names the page it failed on if and only if the error brings nothing else along. */
  lemma FoldErrorReadsBack(code: string, page: EventPage, stateName: string, exn: Exn)
    ensures var extras := FoldError(code, page, stateName, exn).extras;
            && Unflatten(CAUSE, extras) == CauseOf(exn)
            && (NamesPage(extras, page.sequence, page.payload.typeUrl, stateName) <==>
                  Agrees(exn, page.sequence, page.payload.typeUrl, stateName))
  {
    hide Unflatten, CauseOf, AsCause, Carried, PageArgs;
    assert SEQUENCE[0] != CAUSE[0] && TYPE_URL[0] != CAUSE[0] && STATE_TYPE_URL[0] != CAUSE[0];
    UnflattenBeside(CAUSE, PageArgs(page, stateName), AsCause(exn));
    AsCauseReadsBack(exn);
    DecimalReadsBack(page.sequence);
    PageArgsOverridden(page, stateName, AsCause(exn));
    CauseCarries(exn, SEQUENCE);
    CauseCarries(exn, TYPE_URL);
    CauseCarries(exn, STATE_TYPE_URL);
  }

  /** Whether the fold failure a raised error causes names its page. */
  predicate FailureNames(code: string, exn: Exn, page: EventPage, stateName: string) {
    NamesPage(FoldError(code, page, stateName, exn).extras, page.sequence, page.payload.typeUrl, stateName)
  }

  /** The errors whose fold failures name their page, whatever the page, are exactly those
      that bring no argument of a page's along. */
  lemma PagesAreNamed(code: string, exn: Exn)
    ensures (forall page, stateName :: FailureNames(code, exn, page, stateName)) <==> SparesPages(exn)
  {
    hide FoldError, NamesPage, Carried, ReadDecimal;
    forall page: EventPage, stateName: string
      ensures FailureNames(code, exn, page, stateName) <==>
              Agrees(exn, page.sequence, page.payload.typeUrl, stateName)
    {
      FoldErrorReadsBack(code, page, stateName, exn);
    }
    var carried := Carried(exn);
    var sequence := if SEQUENCE in carried && ReadDecimal(carried[SEQUENCE]) == 0 then 1 else 0;
    var typeUrl := if TYPE_URL in carried then carried[TYPE_URL] + "/" else "";
    var stateName := if STATE_TYPE_URL in carried then carried[STATE_TYPE_URL] else "";
    assert TYPE_URL in carried ==> |carried[TYPE_URL]| < |typeUrl|;
    assert STATE_TYPE_URL in carried ==> |carried[STATE_TYPE_URL]| < |"/" + stateName|;
    var page := EventPage(Any(typeUrl, []), sequence, None);
    assert Agrees(exn, page.sequence, page.payload.typeUrl, stateName) <==> SparesPages(exn);
    assert FailureNames(code, exn, page, stateName) <==> SparesPages(exn);
  }

  /** One such error: a page's failure that tells another page's sequence. */
  lemma PageMisnamed(code: string, page: EventPage, stateName: string)
    requires page.sequence != 9
    ensures var exn := Coded(Keyed(UNHANDLED_HANDLER_ERROR, map[SEQUENCE := "9"]));
            var extras := FoldError(code, page, stateName, exn).extras;
            && !FailureNames(code, exn, page, stateName)
            && SEQUENCE in extras && ReadDecimal(extras[SEQUENCE]) == 9
  {
    assert ReadDecimal("9") == 9 by {
      assert "9"[..0] == "";
      assert ReadDecimal("9"[..0]) == 0;
    }
  }

  /** Of a page's arguments a cause holds exactly those its error brings along. */
  lemma CauseCarries(exn: Exn, k: string)
    requires k != "" && k[0] != CAUSE[0]
    ensures k in AsCause(exn) <==> k in Carried(exn)
    ensures k in Carried(exn) ==> AsCause(exn)[k] == Carried(exn)[k]
  {
    hide Flatten;
    var coded := Escaped(exn);
    NotInFlattened(k, coded.code, coded.extras);
  }

  lemma NotInFlattened(k: string, key: string, args: Args)
    requires k != "" && k[0] != CAUSE[0]
    ensures k !in Flatten(CAUSE, key, args) && k != CAUSE
  {
    forall a | a in args
      ensures Arg(CAUSE, a) != k
    {
      assert Arg(CAUSE, a)[0] == CAUSE[0];
    }
  }

  /** Beside a cause, a page's arguments are its own but for those the cause holds too. */
  lemma PageArgsOverridden(page: EventPage, stateName: string, cause: Args)
    ensures var extras := PageArgs(page, stateName) + cause;
            && SEQUENCE in extras && TYPE_URL in extras && STATE_TYPE_URL in extras
            && extras[SEQUENCE] == (if SEQUENCE in cause then cause[SEQUENCE] else Decimal(page.sequence))
            && extras[TYPE_URL] == (if TYPE_URL in cause then cause[TYPE_URL] else page.payload.typeUrl)
            && extras[STATE_TYPE_URL] == (if STATE_TYPE_URL in cause then cause[STATE_TYPE_URL] else "/" + stateName)
  {
    assert SEQUENCE[1] != TYPE_URL[1] && |STATE_TYPE_URL| > |SEQUENCE|;
  }
}
