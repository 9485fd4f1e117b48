/** An aggregate's dispatch: one contextual command in, its response out, or the coded error
    that refuses it. */
module Dispatch {
  import opened Prelude
  import opened Errors
  import opened Context

  /** What running business code did: what it returned or raised, and the state and the
      context it leaves (it is handed the live ones, and may change both). */
  datatype Ran<S, T> = Ran(out: Result<T, Exn>, state: S, ctx: CommandContext)

  type Handler<!S> = (S, CommandContext, Option<PageContext>) -> Ran<S, EventBook>
  type CommandThunk<!S> = (Any, S, CommandContext, Option<PageContext>) -> Ran<S, Option<EventBook>>
  type FactThunk<!S> = (Any, S, CommandContext, Option<PageContext>) -> Ran<S, FactRecord>
  type RefusedThunk<!S> = (Refused, S, CommandContext, Option<PageContext>) -> Ran<S, FactRecord>

  type Unit = string
  type ChangedThunk<!S> = (S, S, Option<PageContext>) -> Result<seq<Unit>, Exn>

  /** A refusal handed back to the sender of a command; only the command's type is read. */
  datatype Refused = Refused(commandTypeUrl: string, rest: Bytes)

  const REFUSED_NAME := "io.angzarr.v1.CommandRefused"

  /** A dispatch table's contents. `decodeRefused` answers the protobuf runtime's own text
      where the bytes do not decode. */
  datatype Table<!S(!new)> = Table(
    stateType: StateType<S>,
    appliers: Appliers<S>,
    commands: map<string, CommandThunk<S>>,
    facts: map<string, FactThunk<S>>,
    refusals: map<string, RefusedThunk<S>>,
    rulesVersion: string,
    changed: Option<ChangedThunk<S>>,
    decodeRefused: Bytes -> Result<Refused, string>)

  datatype ContextualCommand = ContextualCommand(
    command: CommandBook, events: EventBook, recordedAt: Option<Instant>, conflictNonce: Bytes)

  datatype ConflictReport = ConflictReport(
    resolvedNonce: Bytes, windowUnits: seq<Unit>, commandUnits: seq<Unit>)
  datatype Response = Response(
    events: EventBook, rulesVersion: string, conflict: ConflictReport)

  // -------------------------------------------------------------------- routing

  function DecideCommand<S(!new)>(table: Table<S>, payload: Any): Result<Handler<S>, CodedError> {
    var name := TypeName(payload.typeUrl);
    if name !in table.commands then Err(Keyed(UNKNOWN_COMMAND_TYPE, map[TYPE_URL := payload.typeUrl]))
    else
      var thunk := table.commands[name];
      Ok((state, ctx, current) => Booked(thunk(payload, state, ctx, current)))
  }

  /** A handler that answers no book decides nothing. */
  function Booked<S>(ran: Ran<S, Option<EventBook>>): Ran<S, EventBook> {
    match ran.out
    case Err(exn) => Ran(Err(exn), ran.state, ran.ctx)
    case Ok(book) => Ran(Ok(if book.None? then EMPTY_BOOK else book.value), ran.state, ran.ctx)
  }

  /** A record is answered as its book: the fact first, then each flag, in order. */
  function Recorded<S>(ran: Ran<S, FactRecord>): (answered: Ran<S, EventBook>)
    ensures ran.out.Ok? ==>
              && answered.out.Ok? && |answered.out.value.pages| == 1 + |ran.out.value.flags|
              && answered.out.value.pages[0].payload == ran.out.value.fact
              && forall i :: 0 < i <= |ran.out.value.flags| ==>
                   answered.out.value.pages[i].payload == ran.out.value.flags[i - 1]
  {
    match ran.out
    case Err(exn) => Ran(Err(exn), ran.state, ran.ctx)
    case Ok(record) => Ran(Ok(record.Book()), ran.state, ran.ctx)
  }

  function Ingest<S(!new)>(table: Table<S>, payload: Any): Result<Handler<S>, CodedError> {
    var name := TypeName(payload.typeUrl);
    if name in table.facts then
      var thunk := table.facts[name];
      Ok((state, ctx, current) => Recorded(thunk(payload, state, ctx, current)))
    else if name != REFUSED_NAME then Err(Keyed(NO_FACT_HANDLER, map[TYPE_URL := payload.typeUrl]))
    else
      match table.decodeRefused(payload.value)
      case Err(text) => Err(Keyed(ANY_DECODE_FAILED, map[MESSAGE_TYPE := REFUSED_NAME, EXT_ERR_TXT := text]))
      case Ok(refused) =>
        var command := TypeName(refused.commandTypeUrl);
        if command !in table.refusals then
          Err(Keyed(NO_REFUSAL_HANDLER, map[COMMAND_TYPE := refused.commandTypeUrl]))
        else
          var thunk := table.refusals[command];
          Ok((state, ctx, current) => Recorded(thunk(refused, state, ctx, current)))
  }

  /** The business code an input goes to. Only a command is refused for a COMMUTATIVE mode
      the table cannot report on. */
  function Route<S(!new)>(table: Table<S>, command: CommandBook): Result<Handler<S>, CodedError> {
    match command.page.body
    case FactBody(payload) => Ingest(table, payload)
    case CommandBody(payload) => RouteCommand(table, payload, command.handling.conflictResolution)
    case NoBody => RouteCommand(table, Any("", []), command.handling.conflictResolution)
  }

  function RouteCommand<S(!new)>(table: Table<S>, payload: Any, mode: Mode): Result<Handler<S>, CodedError> {
    var decide := DecideCommand(table, payload);
    if decide.Ok? && mode == Commutative && table.changed.None? then
      Err(Keyed(CONFLICT_RESOLUTION_UNSUPPORTED, map[]))
    else decide
  }

  // -------------------------------------------------------------- registering handlers

  datatype Registration<!S> =
    | Command(name: string, command: CommandThunk<S>)
    | Fact(name: string, fact: FactThunk<S>)
    | Refusal(name: string, refused: RefusedThunk<S>)

  function Register<S(!new)>(table: Table<S>, r: Registration<S>): Table<S> {
    match r
    case Command(name, thunk) => table.(commands := table.commands[name := thunk])
    case Fact(name, thunk) => table.(facts := table.facts[name := thunk])
    case Refusal(name, thunk) => table.(refusals := table.refusals[name := thunk])
  }

  /** The refusal a payload is, to a table that has no fact handler for refusals. */
  function RefusalIn<S(!new)>(table: Table<S>, payload: Any): Option<Refused> {
    if TypeName(payload.typeUrl) != REFUSED_NAME || REFUSED_NAME in table.facts then None
    else
      match table.decodeRefused(payload.value)
      case Err(_) => None
      case Ok(refused) => Some(refused)
  }

  /** Whether a handler does what `ran` says, handed that state and context. */
  ghost predicate Does<S>(
    routed: Result<Handler<S>, CodedError>, ran: Ran<S, EventBook>,
    s: S, ctx: CommandContext, page: Option<PageContext>)
  {
    routed.Ok? && routed.value(s, ctx, page) == ran
  }

  /** What a registration does to routing: the payloads of its name go to its handler, and
      every other payload, of a command or a fact, is routed as it was before. */
  ghost predicate Reroutes<S(!new)>(before: Table<S>, after: Table<S>, r: Registration<S>) {
    forall payload, s, ctx, page :: ReroutesAt(before, after, r, payload, s, ctx, page)
  }

  ghost predicate ReroutesAt<S(!new)>(
    before: Table<S>, after: Table<S>, r: Registration<S>,
    payload: Any, s: S, ctx: CommandContext, page: Option<PageContext>)
  {
    var name, refusal := TypeName(payload.typeUrl), RefusalIn(before, payload);
    && (if r.Command? && name == r.name
        then Does(DecideCommand(after, payload), Booked(r.command(payload, s, ctx, page)), s, ctx, page)
        else DecideCommand(after, payload) == DecideCommand(before, payload))
    && (if r.Fact? && name == r.name
        then Does(Ingest(after, payload), Recorded(r.fact(payload, s, ctx, page)), s, ctx, page)
        else if r.Refusal? && refusal.Some? && TypeName(refusal.value.commandTypeUrl) == r.name
        then Does(Ingest(after, payload), Recorded(r.refused(refusal.value, s, ctx, page)), s, ctx, page)
        else Ingest(after, payload) == Ingest(before, payload))
  }

  lemma RegistrationReroutes<S(!new)>(table: Table<S>, r: Registration<S>)
    ensures Reroutes(table, Register(table, r), r)
  {
    hide ReroutesAt;
    forall payload: Any, s: S, ctx: CommandContext, page: Option<PageContext>
      ensures ReroutesAt(table, Register(table, r), r, payload, s, ctx, page)
    {
      RegistrationReroutesAt(table, r, payload, s, ctx, page);
    }
  }

  lemma RegistrationReroutesAt<S(!new)>(
    table: Table<S>, r: Registration<S>, payload: Any, s: S, ctx: CommandContext, page: Option<PageContext>)
    ensures ReroutesAt(table, Register(table, r), r, payload, s, ctx, page)
  {
    hide TypeName;
  }

  // ------------------------------------------------- the answer, by plain replay

  /** How many of the delivered pages the command had seen. */
  function Seen(pages: seq<EventPage>, n: nat, expected: nat): (seen: nat)
    requires n <= |pages|
    ensures seen <= n
  {
    if n == 0 then 0 else Seen(pages, n - 1, expected) + if pages[n - 1].sequence < expected then 1 else 0
  }

  function SeenPages(request: ContextualCommand): (seen: nat)
    ensures seen <= |request.events.pages|
  {
    var pages := request.events.pages;
    Seen(pages, |pages|, BookContext(request.command, request.events.nextSequence).expectedSequence)
  }

  /** The context a handler is handed. */
  function Given(request: ContextualCommand): CommandContext {
    var events := request.events;
    var ctx := BookContext(request.command, events.nextSequence);
    ctx.(hadPriorEvents := events.pages != [] || events.snapshot.Some?,
         recordedAt := request.recordedAt,
         conflict := if ctx.conflictResolution == AggregateHandles
                     then Some(Conflict(events.pages[SeenPages(request)..], request.conflictNonce, []))
                     else None)
  }

  function Checked<S>(
    replayed: Replayed<S>, pages: seq<EventPage>, code: string, stateName: string): Result<S, CodedError>
    requires replayed.Failed? ==> replayed.at < |pages|
  {
    match replayed
    case Folded(s) => Ok(s)
    case Failed(at, _, exn) => Err(FoldError(code, pages[at], stateName, exn))
  }

  /** The state the first `n` delivered pages leave: a replay of them all, from the
      starting state. */
  function RebuiltTo<S(!new)>(table: Table<S>, events: EventBook, n: nat): Result<S, CodedError>
    requires n <= |events.pages|
  {
    match StartState(table.stateType, events)
    case Err(error) => Err(error)
    case Ok(s) =>
      Checked(ReplayTo(s, events.pages, n, events.cover, table.appliers), events.pages, FOLD_FAILED,
              table.stateType.fullName)
  }

  /** The decision's own pages as they will be persisted. */
  function Stamped(pages: seq<EventPage>, nextSequence: nat, meta: EventMeta): (stamped: seq<EventPage>)
    ensures |stamped| == |pages|
    ensures forall i :: 0 <= i < |pages| ==>
              stamped[i] == EventPage(pages[i].payload, nextSequence + i, Some(meta))
  {
    seq(|pages|, i requires 0 <= i < |pages| =>
      pages[i].(sequence := nextSequence + i, meta := Some(meta)))
  }

  /** The report of a stale command: the nonce its handler settled with and, under
      COMMUTATIVE, the units the window and the command changed. */
  function Report<S(!new)>(
    table: Table<S>, mode: Mode, conflict: Option<Conflict>, before: S, head: S, after: S)
    : Result<ConflictReport, CodedError>
  {
    var nonce := if conflict.Some? then conflict.value.resolvedNonce else [];
    if mode != Commutative then Ok(ConflictReport(nonce, [], []))
    else if table.changed.None? then Err(Escaped(Panic))
    else
      var changed := table.changed.value;
      match changed(before, head, Some(NO_PAGE))
      case Err(exn) => Err(Escaped(exn))
      case Ok(window) =>
        match changed(head, after, Some(NO_PAGE))
        case Err(exn) => Err(Escaped(exn))
        case Ok(mine) => Ok(ConflictReport(nonce, window, mine))
  }

  function Decide<S>(handler: Handler<S>, state: S, ctx: CommandContext): Ran<S, EventBook> {
    handler(state, ctx, Some(PageContext(ctx.cover, 0, None)))
  }

  /** The answer to a request, by plain replay: rebuild, decide, fold what was decided. */
  function Answer<S(!new)>(table: Table<S>, request: ContextualCommand): (answer: Result<Response, CodedError>)
    ensures answer.Ok? ==> answer.value.events.snapshot.Some? && answer.value.events.snapshot.value.state.Some?
  {
    var events := request.events;
    match Route(table, request.command)
    case Err(error) => Err(error)
    case Ok(handler) =>
      match RebuiltTo(table, events, |events.pages|)
      case Err(error) => Err(error)
      case Ok(state) =>
        var ran := Decide(handler, state, Given(request));
        match ran.out
        case Err(exn) => Err(Escaped(exn))
        case Ok(out) => Settle(table, request, ran.state, ran.ctx, out)
  }

  /** What is answered once business code decided `out`, leaving `state` and `ctx`. */
  function Settle<S(!new)>(
    table: Table<S>, request: ContextualCommand, state: S, ctx: CommandContext, out: EventBook)
    : (answer: Result<Response, CodedError>)
    ensures answer.Ok? ==> answer.value.events.snapshot.Some? && answer.value.events.snapshot.value.state.Some?
  {
    var own := Stamped(out.pages, request.events.nextSequence, ctx.Meta(table.rulesVersion));
    match Checked(Replay(state, own, request.events.cover, table.appliers), own, FOLD_FAILED_EMITTED,
                  table.stateType.fullName)
    case Err(error) => Err(error)
    case Ok(after) =>
      var before := RebuiltTo(table, request.events, SeenPages(request));
      match Report(table, request.command.handling.conflictResolution, ctx.conflict,
                   if before.Ok? then before.value else state, state, after)
      case Err(error) => Err(error)
      case Ok(report) =>
        Ok(Response(out.(snapshot := Some(Snapshot(Some(table.stateType.Pack(after))))),
                    table.rulesVersion, report))
  }

  // ------------------------------------------------------------- the dispatch itself

  /** Runs business code under `page`, answering what escapes it coded. */
  method Call<S>(
    cv: ContextVar, page: PageContext, handler: Handler<S>, state: Message<S>, given: CommandContext)
    returns (out: Result<EventBook, CodedError>, ctx: CommandContext)
    modifies cv, state
    ensures cv.current == old(cv.current)
    ensures var ran := handler(old(state.value), given, Some(page));
            && ctx == ran.ctx && state.value == ran.state
            && out == match ran.out case Ok(book) => Ok(book) case Err(exn) => Err(Escaped(exn))
  {
    var token := cv.current;
    cv.current := Some(page);
    var ran := handler(state.value, given, cv.current);
    state.value := ran.state;
    ctx := ran.ctx;
    out := match ran.out case Ok(book) => Ok(book) case Err(exn) => Err(Escaped(exn));
    cv.current := token;
  }

  /** Runs the resolver, None where the table has none, under the empty page. */
  method CallChanged<S>(cv: ContextVar, changed: Option<ChangedThunk<S>>, before: S, after: S)
    returns (units: Result<seq<Unit>, CodedError>)
    modifies cv
    ensures cv.current == old(cv.current)
    ensures units == if changed.None? then Err(Escaped(Panic))
                     else match changed.value(before, after, Some(NO_PAGE))
                          case Ok(named) => Ok(named)
                          case Err(exn) => Err(Escaped(exn))
  {
    var token := cv.current;
    cv.current := Some(NO_PAGE);
    if changed.None? {
      units := Err(Escaped(Panic));
    } else {
      match changed.value(before, after, cv.current) {
        case Ok(named) => units := Ok(named);
        case Err(exn) => units := Err(Escaped(exn));
      }
    }
    cv.current := token;
  }

  class AggregateDispatch<S(!new)> {
    var table: Table<S>

    constructor (table: Table<S>)
      ensures this.table == table
    {
      this.table := table;
    }

    method OnCommand(fullName: string, thunk: CommandThunk<S>)
      modifies this
      ensures table == Register(old(table), Command(fullName, thunk))
      ensures Reroutes(old(table), table, Command(fullName, thunk))
    {
      RegistrationReroutes(table, Command(fullName, thunk));
      table := table.(commands := table.commands[fullName := thunk]);
    }

    method OnFact(fullName: string, thunk: FactThunk<S>)
      modifies this
      ensures table == Register(old(table), Fact(fullName, thunk))
      ensures Reroutes(old(table), table, Fact(fullName, thunk))
    {
      RegistrationReroutes(table, Fact(fullName, thunk));
      table := table.(facts := table.facts[fullName := thunk]);
    }

    method OnRefused(command: string, thunk: RefusedThunk<S>)
      modifies this
      ensures table == Register(old(table), Refusal(command, thunk))
      ensures Reroutes(old(table), table, Refusal(command, thunk))
    {
      RegistrationReroutes(table, Refusal(command, thunk));
      table := table.(refusals := table.refusals[command := thunk]);
    }

    method CountSeen(pages: seq<EventPage>, expected: nat) returns (seen: nat)
      ensures seen == Seen(pages, |pages|, expected)
    {
      seen := 0;
      for i := 0 to |pages|
        invariant seen == Seen(pages, i, expected)
      {
        if pages[i].sequence < expected {
          seen := seen + 1;
        }
      }
    }

    method Stamp(pages: seq<EventPage>, nextSequence: nat, meta: EventMeta) returns (emitted: seq<EventPage>)
      ensures emitted == Stamped(pages, nextSequence, meta)
    {
      emitted := [];
      for offset := 0 to |pages|
        invariant |emitted| == offset
        invariant forall i :: 0 <= i < offset ==> emitted[i] == Stamped(pages, nextSequence, meta)[i]
      {
        emitted := emitted + [pages[offset].(sequence := nextSequence + offset, meta := Some(meta))];
      }
    }

    /** One contextual command in, its response out: folded in place, in two runs split at
        the expected sequence, with copies of the state taken on the way. */
    method Handle(cv: ContextVar, request: ContextualCommand) returns (answer: Result<Response, CodedError>)
      modifies cv
      ensures cv.current == old(cv.current)
      ensures answer == Answer(table, request)
    {
      var events, mode := request.events, request.command.handling.conflictResolution;
      var routed := Route(table, request.command);
      if routed.Err? {
        return Err(routed.error);
      }
      var ctx := BookContext(request.command, events.nextSequence);
      ctx := ctx.(hadPriorEvents := events.pages != [] || events.snapshot.Some?);
      ctx := ctx.(recordedAt := request.recordedAt);

      var appliers, stateName, pages := table.appliers, table.stateType.fullName, events.pages;
      var start := StartState(table.stateType, events);
      if start.Err? {
        return Err(start.error);
      }
      var state := new Message<S>(start.value);
      var seen := CountSeen(pages, ctx.expectedSequence);
      SplitRebuild(table, events, start.value, seen);
      var failure := Fold(cv, state, pages[..seen], events.cover, appliers, FOLD_FAILED, stateName);
      if failure.Some? {
        return Err(failure.value);
      }
      var before := if mode == Commutative then Some(state.value) else None;
      failure := Fold(cv, state, pages[seen..], events.cover, appliers, FOLD_FAILED, stateName);
      if failure.Some? {
        return Err(failure.value);
      }
      if mode == AggregateHandles {
        ctx := ctx.(conflict := Some(Conflict(pages[seen..], request.conflictNonce, [])));
      }
      assert ctx == Given(request);

      var out;
      out, ctx := Call(cv, PageContext(ctx.cover, 0, None), routed.value, state, ctx);
      if out.Err? {
        return Err(out.error);
      }
      var head := if before.Some? then Some(state.value) else None;
      var emitted := Stamp(out.value.pages, events.nextSequence, ctx.Meta(table.rulesVersion));
      ghost var decided := state.value;
      failure := Fold(cv, state, emitted, events.cover, appliers, FOLD_FAILED_EMITTED, stateName);
      if failure.Some? {
        return Err(failure.value);
      }

      var report := ConflictReport([], [], []);
      if ctx.conflict.Some? {
        report := report.(resolvedNonce := ctx.conflict.value.resolvedNonce);
      }
      if head.Some? {
        var window := CallChanged(cv, table.changed, before.value, head.value);
        if window.Err? {
          return Err(window.error);
        }
        var mine := CallChanged(cv, table.changed, head.value, state.value);
        if mine.Err? {
          return Err(mine.error);
        }
        report := report.(windowUnits := window.value, commandUnits := mine.value);
      }
      answer := Ok(Response(
        out.value.(snapshot := Some(Snapshot(Some(table.stateType.Pack(state.value))))),
        table.rulesVersion, report));
    }
  }

  /** Folding the pages in two runs, split anywhere, rebuilds what one fold does, and fails
      at the same page. */
  lemma SplitRebuild<S(!new)>(table: Table<S>, events: EventBook, start: S, seen: nat)
    requires seen <= |events.pages|
    requires StartState(table.stateType, events) == Ok(start)
    ensures
      var pages, name := events.pages, table.stateType.fullName;
      var first := Replay(start, pages[..seen], events.cover, table.appliers);
      && RebuiltTo(table, events, seen) == Checked(first, pages[..seen], FOLD_FAILED, name)
      && RebuiltTo(table, events, |pages|) ==
         if first.Failed? then Checked(first, pages[..seen], FOLD_FAILED, name)
         else
           Checked(Replay(first.state, pages[seen..], events.cover, table.appliers), pages[seen..], FOLD_FAILED, name)
  {
    var pages := events.pages;
    assert pages[..seen] + pages[seen..] == pages;
    ReplayReadsPrefix(start, pages, pages[..seen], seen, events.cover, table.appliers);
    ReplayConcat(start, pages[..seen], pages[seen..], events.cover, table.appliers);
  }

  datatype Arm = Commands | Facts | Refusals

  function ArmOf<S>(r: Registration<S>): Arm {
    match r
    case Command(_, _) => Commands
    case Fact(_, _) => Facts
    case Refusal(_, _) => Refusals
  }

  /** The last of the first `n` registrations made for a name. */
  function Last<S>(rs: seq<Registration<S>>, n: nat, arm: Arm, name: string): (last: Option<Registration<S>>)
    requires n <= |rs|
    ensures last.Some? ==> ArmOf(last.value) == arm
  {
    if n == 0 then None
    else if ArmOf(rs[n - 1]) == arm && rs[n - 1].name == name then Some(rs[n - 1])
    else Last(rs, n - 1, arm, name)
  }

  function RegisterAll<S(!new)>(table: Table<S>, rs: seq<Registration<S>>, n: nat): Table<S>
    requires n <= |rs|
  {
    if n == 0 then table else Register(RegisterAll(table, rs, n - 1), rs[n - 1])
  }

  /** After any registrations, of any kinds in any order, a command goes to the handler last
      registered for its name, and where none was, is decided as before them all. */
  lemma {:induction false} LastCommandDecides<S(!new)>(
    table: Table<S>, rs: seq<Registration<S>>, n: nat, payload: Any,
    s: S, ctx: CommandContext, page: Option<PageContext>)
    requires n <= |rs|
    ensures var last := Last(rs, n, Commands, TypeName(payload.typeUrl));
            var decided := DecideCommand(RegisterAll(table, rs, n), payload);
            if last.Some? then Does(decided, Booked(last.value.command(payload, s, ctx, page)), s, ctx, page)
            else decided == DecideCommand(table, payload)
  {
    hide TypeName, DecideCommand, Ingest, Register, RefusalIn;
    if n == 0 {
    } else {
      LastCommandDecides(table, rs, n - 1, payload, s, ctx, page);
      RegistrationReroutesAt(RegisterAll(table, rs, n - 1), rs[n - 1], payload, s, ctx, page);
    }
  }

  /** And a fact goes to the handler last registered for its name; a refusal no fact handler
      takes, to the one last registered for the command refused. */
  lemma {:induction false} LastIngests<S(!new)>(
    table: Table<S>, rs: seq<Registration<S>>, n: nat, payload: Any,
    s: S, ctx: CommandContext, page: Option<PageContext>)
    requires n <= |rs|
    ensures var last, after := Last(rs, n, Facts, TypeName(payload.typeUrl)), RegisterAll(table, rs, n);
            var refused := RefusalIn(table, payload);
            var handler :=
              if refused.None? then None else Last(rs, n, Refusals, TypeName(refused.value.commandTypeUrl));
            var routed := Ingest(after, payload);
            if last.Some? then Does(routed, Recorded(last.value.fact(payload, s, ctx, page)), s, ctx, page)
            else if handler.Some?
            then Does(routed, Recorded(handler.value.refused(refused.value, s, ctx, page)), s, ctx, page)
            else routed == Ingest(table, payload)
  {
    hide TypeName, DecideCommand, Ingest, Register, RefusalIn, Does;
    if n == 0 {
    } else {
      LastIngests(table, rs, n - 1, payload, s, ctx, page);
      RegistrationReroutesAt(RegisterAll(table, rs, n - 1), rs[n - 1], payload, s, ctx, page);
      RefusalStays(table, rs, n - 1, payload);
    }
  }

  /** Only a fact handler for refusals changes which payloads are refusals. */
  lemma {:induction false} RefusalStays<S(!new)>(table: Table<S>, rs: seq<Registration<S>>, n: nat, payload: Any)
    requires n <= |rs|
    ensures Last(rs, n, Facts, TypeName(payload.typeUrl)).None? ==>
              RefusalIn(RegisterAll(table, rs, n), payload) == RefusalIn(table, payload)
    ensures RefusalIn(RegisterAll(table, rs, n), payload).Some? ==> Last(rs, n, Facts, TypeName(payload.typeUrl)).None?
  {
    hide TypeName;
    if n == 0 {
    } else {
      RefusalStays(table, rs, n - 1, payload);
    }
  }
}
