/** How a request fails: without a resolver that its mode needs, and by what an applier
    raises. */
module Failures {
  import opened Prelude
  import opened Errors
  import opened Context
  import opened Dispatch

  // ------------------------------------------------------------- without a resolver

  const UNSUPPORTED := Keyed(CONFLICT_RESOLUTION_UNSUPPORTED, map[])
  const PANICKED := Keyed(UNHANDLED_HANDLER_ERROR, map[CAUSE := HANDLER_PANICKED])

  function CommandPayload(body: Body): Any {
    if body.NoBody? then Any("", []) else body.payload
  }

  /** An input is refused for the missing resolver if and only if it is COMMUTATIVE, no fact,
      and a command the table handles; a fact that gets as far as being decided and folded
      ends as a panic instead. */
  lemma CommutativeNeedsResolver<S(!new)>(table: Table<S>, request: ContextualCommand)
    ensures Route(table, request.command) == Err(UNSUPPORTED) <==>
            && request.command.handling.conflictResolution == Commutative && table.changed.None?
            && !request.command.page.body.FactBody?
            && DecideCommand(table, CommandPayload(request.command.page.body)).Ok?
    ensures Route(table, request.command) == Err(UNSUPPORTED) ==> Answer(table, request) == Err(UNSUPPORTED)
    ensures request.command.handling.conflictResolution == Commutative && table.changed.None? ==>
              && Answer(table, request).Err?
              && (request.command.page.body.FactBody? && Decides(table, request) ==>
                    Answer(table, request) == Err(PANICKED))
  {
    hide TypeName;
    assert UNKNOWN_COMMAND_TYPE[14] != CONFLICT_RESOLUTION_UNSUPPORTED[14];
    assert NO_FACT_HANDLER[14] != CONFLICT_RESOLUTION_UNSUPPORTED[14];
    assert NO_REFUSAL_HANDLER[14] != CONFLICT_RESOLUTION_UNSUPPORTED[14];
    assert ANY_DECODE_FAILED[14] != CONFLICT_RESOLUTION_UNSUPPORTED[14];
  }

  /** Whether an input is routed, the state rebuilt, business code run and what it recorded
      folded, none of it failing. */
  predicate Decides<S(!new)>(table: Table<S>, request: ContextualCommand) {
    var handler, state := Route(table, request.command), RebuiltTo(table, request.events, |request.events.pages|);
    handler.Ok? && state.Ok? &&
    var ran := Decide(handler.value, state.value, Given(request));
    ran.out.Ok? &&
    var own := Stamped(ran.out.value.pages, request.events.nextSequence, ran.ctx.Meta(table.rulesVersion));
    Replay(ran.state, own, request.events.cover, table.appliers).Folded?
  }

  /** Exactly the facts a table with a resolver that never raises would answer are the ones
      that panic without it; every other one fails alike with and without. */
  lemma ResolverDecidesFacts<S(!new)>(table: Table<S>, request: ContextualCommand, changed: ChangedThunk<S>)
    requires request.command.handling.conflictResolution == Commutative && table.changed.None?
    requires request.command.page.body.FactBody?
    requires forall a, b, page :: changed(a, b, page).Ok?
    ensures var answer := Answer(table.(changed := Some(changed)), request);
            Answer(table, request) == if answer.Ok? then Err(PANICKED) else answer
  {
    hide RebuiltTo, Stamped, TypeName;
    var whole := table.(changed := Some(changed));
    assert Ingest(whole, request.command.page.body.payload) == Ingest(table, request.command.page.body.payload);
    RebuildIgnoresResolver(table, whole, request.events, |request.events.pages|);
  }

  lemma RebuildIgnoresResolver<S(!new)>(a: Table<S>, b: Table<S>, events: EventBook, n: nat)
    requires a.stateType == b.stateType && a.appliers == b.appliers && n <= |events.pages|
    ensures RebuiltTo(a, events, n) == RebuiltTo(b, events, n)
  {
  }

  /** Records the fact it is given, and leaves the state alone. */
  function RecordIt(fact: Any, s: int, ctx: CommandContext, page: Option<PageContext>): Ran<int, FactRecord> {
    Ran(Ok(FactRecord(fact, [])), s, ctx)
  }

  /** A table of one fact, `F`, that is recorded and folds into nothing. */
  function OneFact(): Table<int> {
    Table(StateType("S", 0, (s: int) => [], (bytes: Bytes) => None), map[], map[], map["F" := RecordIt], map[], "",
          None, (bytes: Bytes) => Err(""))
  }

  function FactRequest(mode: Mode): ContextualCommand {
    var page := CommandPage(FactBody(Any("/F", [])), None, None, None);
    ContextualCommand(CommandBook(None, page, Handling(None, mode)), EMPTY_BOOK, None, [])
  }

  lemma OneFactDecides(mode: Mode)
    ensures Decides(OneFact(), FactRequest(mode))
  {
    hide TypeName, Given, FactRecord.Book;
    TypeNameIgnoresPrefix("", "F");
    assert "" + "/" + "F" == "/F";
    var table, request, fact := OneFact(), FactRequest(mode), Any("/F", []);
    var handler := Ingest(table, fact);
    assert handler.Ok?;
    assert RebuiltTo(table, request.events, 0) == Ok(0);
    var ran := Decide(handler.value, 0, Given(request));
    assert ran == Recorded(RecordIt(fact, 0, Given(request), Some(PageContext(Given(request).cover, 0, None))));
    NothingApplies(Stamped(ran.out.value.pages, 0, ran.ctx.Meta("")), None);
  }

  lemma NothingApplies(pages: seq<EventPage>, cover: Option<Cover>)
    ensures Replay(0, pages, cover, OneFact().appliers) == Folded(0)
  {
    NothingAppliesTo(pages, |pages|, cover);
  }

  lemma {:induction false} NothingAppliesTo(pages: seq<EventPage>, n: nat, cover: Option<Cover>)
    requires n <= |pages|
    ensures ReplayTo(0, pages, n, cover, OneFact().appliers) == Folded(0)
  {
    if n == 0 {
    } else {
      NothingAppliesTo(pages, n - 1, cover);
    }
  }

  /** One such fact: recorded in any other mode's answer, it panics under COMMUTATIVE. */
  lemma FactPanics(mode: Mode)
    ensures mode == Commutative ==> Answer(OneFact(), FactRequest(mode)) == Err(PANICKED)
    ensures mode != Commutative ==> Answer(OneFact(), FactRequest(mode)).Ok?
  {
    hide Decide, RebuiltTo, Stamped, Given, TypeName;
    OneFactDecides(mode);
    CommutativeNeedsResolver(OneFact(), FactRequest(mode));
  }

  // ------------------------------------------------------------------- failing folds

  /** Whether an error carries what a raised one amounts to, and names its page wherever that
      brings along nothing else. */
  predicate Tells(error: CodedError, sequence: nat, typeUrl: string, stateName: string, exn: Exn) {
    && Unflatten(CAUSE, error.extras) == CauseOf(exn)
    && (NamesPage(error.extras, sequence, typeUrl, stateName) <==> Agrees(exn, sequence, typeUrl, stateName))
  }

  /** Whatever a delivered page's applier raises fails the whole request, before business
      code runs, at the page's own sequence and type. */
  lemma FailedFoldIsTold<S(!new)>(table: Table<S>, request: ContextualCommand, state: S, at: nat, t: S, exn: Exn)
    requires Route(table, request.command).Ok?
    requires StartState(table.stateType, request.events) == Ok(state)
    requires var events := request.events;
             ReplayTo(state, events.pages, |events.pages|, events.cover, table.appliers) == Failed(at, t, exn)
    ensures var told, page := Answer(table, request), request.events.pages[at];
            && told.Err? && told.error.code == FOLD_FAILED
            && Tells(told.error, page.sequence, page.payload.typeUrl, table.stateType.fullName, exn)
  {
    hide Route, ReplayTo, Unflatten, CauseOf, NamesPage, Agrees;
    FoldErrorReadsBack(FOLD_FAILED, request.events.pages[at], table.stateType.fullName, exn);
  }

  /** Whatever a decided event's raises does, at the sequence the event would have had. */
  lemma FailedOwnFoldIsTold<S(!new)>(
    table: Table<S>, request: ContextualCommand, handler: Handler<S>, state: S, out: EventBook, at: nat, t: S, exn: Exn)
    requires Route(table, request.command) == Ok(handler)
    requires RebuiltTo(table, request.events, |request.events.pages|) == Ok(state)
    requires var ran := Decide(handler, state, Given(request));
             && ran.out == Ok(out)
             && var own := Stamped(out.pages, request.events.nextSequence, ran.ctx.Meta(table.rulesVersion));
                Replay(ran.state, own, request.events.cover, table.appliers) == Failed(at, t, exn)
    ensures at < |out.pages|
    ensures var told := Answer(table, request);
            && told.Err? && told.error.code == FOLD_FAILED_EMITTED
            && Tells(told.error, request.events.nextSequence + at, out.pages[at].payload.typeUrl,
                     table.stateType.fullName, exn)
  {
    hide Route, RebuiltTo, Replay, Unflatten, CauseOf, NamesPage, Agrees, Report, Given;
    var ran := Decide(handler, state, Given(request));
    var own := Stamped(out.pages, request.events.nextSequence, ran.ctx.Meta(table.rulesVersion));
    FoldErrorReadsBack(FOLD_FAILED_EMITTED, own[at], table.stateType.fullName, exn);
  }
}
