/** What a request is answered, told by the table's own handlers and spelled out to the error,
    with none of the steps in between. */
module Answers {
  import opened Prelude
  import opened Errors
  import opened Context
  import opened Dispatch

  /** The input; a page with neither arm is an empty command. */
  function Payload(request: ContextualCommand): Any {
    match request.command.page.body
    case NoBody => Any("", [])
    case CommandBody(payload) => payload
    case FactBody(payload) => payload
  }

  function ModeOf(request: ContextualCommand): Mode {
    request.command.handling.conflictResolution
  }

  /** The page business code runs under. */
  function Page(request: ContextualCommand): Option<PageContext> {
    Some(PageContext(request.command.cover, 0, None))
  }

  // ------------------------------------------------------------------ the context handed

  lemma {:induction false} SeenCounts(pages: seq<EventPage>, n: nat, expected: nat)
    requires n <= |pages|
    ensures Seen(pages, n, expected) == |set i | 0 <= i < n && pages[i].sequence < expected|
  {
    var below := set i | 0 <= i < n && pages[i].sequence < expected;
    if n == 0 {
      assert below == {};
    } else {
      SeenCounts(pages, n - 1, expected);
      var before := set i | 0 <= i < n - 1 && pages[i].sequence < expected;
      assert below == if pages[n - 1].sequence < expected then before + {n - 1} else before;
    }
  }

  /** The context a handler is handed, field by field: the expected sequence is the next one
      where none is given, and a window, from as many pages in as were seen, is handed with
      its nonce under AGGREGATE_HANDLES alone. */
  lemma ContextIs(request: ContextualCommand)
    ensures var events, book, ctx := request.events, request.command, Given(request);
            var expected := if book.handling.expectedSequence == None then events.nextSequence
                            else book.handling.expectedSequence.value;
            var seen := |set i | 0 <= i < |events.pages| && events.pages[i].sequence < expected|;
            && seen <= |events.pages|
            && ctx == CommandContext(
                 events.nextSequence, events.pages != [] || events.snapshot != None, book.cover, expected,
                 ModeOf(request),
                 if ModeOf(request) == AggregateHandles
                 then Some(Conflict(events.pages[seen..], request.conflictNonce, [])) else None,
                 book.page.commandId, book.page.correlationId, book.page.factOrigin, request.recordedAt)
  {
    hide Seen;
    var events := request.events;
    SeenCounts(events.pages, |events.pages|, BookContext(request.command, events.nextSequence).expectedSequence);
  }

  // -------------------------------------------------------------------- the state rebuilt

  /** A book is rebuilt from the state it carries, where that decodes, or from a fresh one
      where it carries none; one that does not decode is told by its type. */
  lemma RebuiltExactly<S(!new)>(table: Table<S>, events: EventBook, n: nat, t: S)
    requires n <= |events.pages|
    ensures var held := if events.snapshot == None then None else events.snapshot.value.state;
            var start := if held == None then Some(table.stateType.factory)
                         else table.stateType.decode(held.value.value);
            && (RebuiltTo(table, events, n) == Ok(t) <==>
                  start.Some? && ReplayTo(start.value, events.pages, n, events.cover, table.appliers) == Folded(t))
            && (start.None? ==>
                  RebuiltTo(table, events, n) ==
                  Err(CodedError(
                    "ROUTER_REASON_PERSISTED_EVENT_CORRUPT", None, map["type_url" := held.value.typeUrl], None)))
  {
    hide ReplayTo;
  }

  // --------------------------------------------------------------------------- the answer

  /** Whether what escaped business code was answered as it should be: a coded error as it
      is, and anything else under the router's own key. */
  predicate Raised<T(!new)>(answer: Result<T, CodedError>, exn: Exn) {
    match exn
    case Coded(error) => answer == Err(error)
    case Unclassified => answer == Err(CodedError("ROUTER_REASON_UNHANDLED_HANDLER_ERROR", None, map[], None))
    case Panic =>
      answer == Err(CodedError("ROUTER_REASON_UNHANDLED_HANDLER_ERROR", None,
                               map["cause" := "ROUTER_REASON_HANDLER_PANICKED"], None))
  }

  /** Whether a request was answered with a decision's book, and the state and the version
      packed with it. */
  ghost predicate Carries<S(!new)>(table: Table<S>, book: EventBook, after: S, answer: Response) {
    && answer.events.cover == book.cover && answer.events.pages == book.pages
    && answer.events.nextSequence == book.nextSequence
    && answer.events.snapshot ==
       Some(Snapshot(Some(Any("/" + table.stateType.fullName, table.stateType.encode(after)))))
    && answer.rulesVersion == table.rulesVersion
  }

  /** Whether a request was answered from what business code did: with what it raised, or with
      the book it returned, its events folded as they will be persisted. */
  ghost predicate AnsweredFrom<S(!new)>(
    table: Table<S>, request: ContextualCommand, out: Result<EventBook, Exn>, state: S, ctx: CommandContext)
  {
    var answer := Answer(table, request);
    if out.Err? then Raised(answer, out.error)
    else
      var meta := EventMeta(table.rulesVersion, ctx.commandId, ctx.factOrigin, ctx.correlationId, ctx.recordedAt);
      var own := Stamped(out.value.pages, request.events.nextSequence, meta);
      var end := Replay(state, own, request.events.cover, table.appliers);
      var nonce := if ctx.conflict == None then [] else ctx.conflict.value.resolvedNonce;
      && (end.Failed? ==> answer.Err? && answer.error.code == "ROUTER_REASON_FOLD_FAILED_EMITTED")
      && (end.Folded? && ModeOf(request) != Commutative ==>
            answer.Ok? && answer.value.conflict == ConflictReport(nonce, [], []))
      && (end.Folded? && ModeOf(request) == Commutative && table.changed.Some? ==>
            var before := RebuiltTo(table, request.events, SeenPages(request));
            var window := table.changed.value(if before.Ok? then before.value else state, state, Some(NO_PAGE));
            var mine := table.changed.value(state, end.state, Some(NO_PAGE));
            && (window.Err? ==> Raised(answer, window.error))
            && (window.Ok? && mine.Err? ==> Raised(answer, mine.error))
            && (window.Ok? && mine.Ok? ==>
                  answer.Ok? && answer.value.conflict == ConflictReport(nonce, window.value, mine.value)))
      && (end.Folded? && ModeOf(request) == Commutative && table.changed.None? ==> Raised(answer, Panic))
      && (answer.Ok? ==> end.Folded? && Carries(table, out.value, end.state, answer.value))
  }

  lemma AnsweredFromRouted<S(!new)>(
    table: Table<S>, request: ContextualCommand, handler: Handler<S>, s: S, ran: Ran<S, EventBook>)
    requires Route(table, request.command) == Ok(handler)
    requires RebuiltTo(table, request.events, |request.events.pages|) == Ok(s)
    requires ran == handler(s, Given(request), Page(request))
    ensures AnsweredFrom(table, request, ran.out, ran.state, ran.ctx)
  {
    hide Route, RebuiltTo, Stamped, Replay, SeenPages;
    assert ran == Decide(handler, s, Given(request));
  }

  /** A command is answered from what the handler registered for its name did, handed the
      rebuilt state, in every mode a resolver is there for; otherwise it is refused, and so
      is one of no registered name, before anything is rebuilt. */
  lemma CommandsAreAnswered<S(!new)>(table: Table<S>, request: ContextualCommand, s: S)
    requires !request.command.page.body.FactBody?
    ensures var payload, name := Payload(request), TypeName(Payload(request).typeUrl);
            var supported := ModeOf(request) != Commutative || table.changed != None;
            && (name !in table.commands ==>
                  Answer(table, request) ==
                  Err(CodedError("ROUTER_REASON_UNKNOWN_COMMAND_TYPE", None, map["type_url" := payload.typeUrl], None)))
            && (name in table.commands && !supported ==>
                  Answer(table, request) ==
                  Err(CodedError("ROUTER_REASON_CONFLICT_RESOLUTION_UNSUPPORTED", None, map[], None)))
            && (name in table.commands && supported &&
                RebuiltTo(table, request.events, |request.events.pages|) == Ok(s) ==>
                  var ran := table.commands[name](payload, s, Given(request), Page(request));
                  var out := if ran.out.Err? then Err(ran.out.error)
                             else if ran.out.value == None then Ok(EventBook(None, None, [], 0))
                             else Ok(ran.out.value.value);
                  AnsweredFrom(table, request, out, ran.state, ran.ctx))
  {
    hide TypeName, RebuiltTo, AnsweredFrom;
    var payload, name := Payload(request), TypeName(Payload(request).typeUrl);
    var routed := Route(table, request.command);
    if routed.Ok? && RebuiltTo(table, request.events, |request.events.pages|) == Ok(s) {
      var ran := table.commands[name](payload, s, Given(request), Page(request));
      assert routed.value(s, Given(request), Page(request)) == Booked(ran);
      AnsweredFromRouted(table, request, routed.value, s, Booked(ran));
    }
  }

  /** The book of a record: a page for the fact, then one for each flag. */
  function Pages(record: FactRecord): EventBook {
    var flags := record.flags;
    EventBook(None, None,
              [EventPage(record.fact, 0, None)]
              + seq(|flags|, i requires 0 <= i < |flags| => EventPage(flags[i], 0, None)), 0)
  }

  ghost predicate AnsweredFromRecord<S(!new)>(table: Table<S>, request: ContextualCommand, ran: Ran<S, FactRecord>) {
    var out := if ran.out.Err? then Err(ran.out.error) else Ok(Pages(ran.out.value));
    AnsweredFrom(table, request, out, ran.state, ran.ctx)
  }

  lemma RecordedIs<S>(ran: Ran<S, FactRecord>)
    ensures Recorded(ran) ==
            Ran(if ran.out.Err? then Err(ran.out.error) else Ok(Pages(ran.out.value)), ran.state, ran.ctx)
  {
    if ran.out.Ok? {
      var record := ran.out.value;
      assert Pages(record).pages == record.Book().pages;
    }
  }

  /** A fact is answered, in every mode, from what the handler registered for its name
      recorded, and a refusal no fact handler takes from what the handler registered for the
      command refused did; any other is refused before anything is rebuilt. */
  lemma FactsAreAnswered<S(!new)>(table: Table<S>, request: ContextualCommand, s: S)
    requires request.command.page.body.FactBody?
    ensures var payload, name := Payload(request), TypeName(Payload(request).typeUrl);
            var rebuilt := RebuiltTo(table, request.events, |request.events.pages|) == Ok(s);
            && (name in table.facts && rebuilt ==>
                  AnsweredFromRecord(table, request, table.facts[name](payload, s, Given(request), Page(request))))
            && (name !in table.facts && name != "io.angzarr.v1.CommandRefused" ==>
                  Answer(table, request) ==
                  Err(CodedError("ROUTER_REASON_NO_FACT_HANDLER", None, map["type_url" := payload.typeUrl], None)))
  {
    hide TypeName, RebuiltTo, AnsweredFrom;
    var payload, name := Payload(request), TypeName(Payload(request).typeUrl);
    var routed := Route(table, request.command);
    if name in table.facts && RebuiltTo(table, request.events, |request.events.pages|) == Ok(s) {
      var ran := table.facts[name](payload, s, Given(request), Page(request));
      assert routed.value(s, Given(request), Page(request)) == Recorded(ran);
      RecordedIs(ran);
      AnsweredFromRouted(table, request, routed.value, s, Recorded(ran));
    }
  }

  lemma RefusalsAreAnswered<S(!new)>(table: Table<S>, request: ContextualCommand, s: S)
    requires request.command.page.body.FactBody?
    requires TypeName(Payload(request).typeUrl) == "io.angzarr.v1.CommandRefused"
    requires "io.angzarr.v1.CommandRefused" !in table.facts
    ensures var refused := table.decodeRefused(Payload(request).value);
            && (refused.Err? ==>
                  Answer(table, request) ==
                  Err(CodedError(
                    "ROUTER_REASON_ANY_DECODE_FAILED", None,
                    map["message_type" := "io.angzarr.v1.CommandRefused", "ext_err_txt" := refused.error], None)))
            && (refused.Ok? ==>
                  var typeUrl := refused.value.commandTypeUrl;
                  && (TypeName(typeUrl) !in table.refusals ==>
                        Answer(table, request) ==
                        Err(CodedError("ROUTER_REASON_NO_REFUSAL_HANDLER", None, map["command_type" := typeUrl], None)))
                  && (TypeName(typeUrl) in table.refusals &&
                      RebuiltTo(table, request.events, |request.events.pages|) == Ok(s) ==>
                        AnsweredFromRecord(
                          table, request,
                          table.refusals[TypeName(typeUrl)](refused.value, s, Given(request), Page(request)))))
  {
    hide TypeName, RebuiltTo, AnsweredFrom;
    var refused, routed := table.decodeRefused(Payload(request).value), Route(table, request.command);
    if refused.Ok? && TypeName(refused.value.commandTypeUrl) in table.refusals &&
       RebuiltTo(table, request.events, |request.events.pages|) == Ok(s)
    {
      var name := TypeName(refused.value.commandTypeUrl);
      var ran := table.refusals[name](refused.value, s, Given(request), Page(request));
      assert routed.value(s, Given(request), Page(request)) == Recorded(ran);
      RecordedIs(ran);
      AnsweredFromRouted(table, request, routed.value, s, Recorded(ran));
    }
  }

  /** Whether a handler is registered for an input, and its mode can be reported on. */
  predicate Handled<S(!new)>(table: Table<S>, request: ContextualCommand) {
    var payload, name := Payload(request), TypeName(Payload(request).typeUrl);
    if !request.command.page.body.FactBody? then
      name in table.commands && (ModeOf(request) != Commutative || table.changed.Some?)
    else if name in table.facts then true
    else
      name == "io.angzarr.v1.CommandRefused" &&
      var refused := table.decodeRefused(payload.value);
      refused.Ok? && TypeName(refused.value.commandTypeUrl) in table.refusals
  }

  /** A handled input whose state cannot be rebuilt is answered with why, and its handler
      never runs; any other is answered from its handler. */
  lemma UnrebuiltIsTold<S(!new)>(table: Table<S>, request: ContextualCommand)
    requires Handled(table, request)
    ensures var rebuilt := RebuiltTo(table, request.events, |request.events.pages|);
            rebuilt.Err? ==> Answer(table, request) == Err(rebuilt.error)
  {
    hide TypeName, RebuiltTo;
    assert Route(table, request.command).Ok?;
  }
}
