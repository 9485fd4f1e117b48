/** Whole runs of deliveries. The coordinator keeps the log and, for some positions in it,
    the state an answer carried; each delivery replays from one of those states. What the
    fast form answers is what replaying the whole log from a fresh state would. */
module Runs {
  import opened Prelude
  import opened Errors
  import opened Context
  import opened Dispatch

  /** What the coordinator holds of one stream: its pages, and the states saved with the
      number of pages each holds. */
  datatype Store = Store(log: seq<EventPage>, saved: map<nat, Any>)

  /** One delivery: an input, the state it starts from (0: none), and whether the coordinator
      keeps what is answered. */
  datatype Delivery = Delivery(
    command: CommandBook, recordedAt: Option<Instant>, nonce: Bytes, from: nat, keep: bool)

  predicate Deliverable(store: Store, d: Delivery) {
    d.from == 0 || (d.from in store.saved && d.from <= |store.log|)
  }

  function Request(store: Store, d: Delivery, cover: Option<Cover>): ContextualCommand
    requires Deliverable(store, d)
  {
    var snapshot := if d.from == 0 then None else Some(Snapshot(Some(store.saved[d.from])));
    ContextualCommand(d.command, EventBook(cover, snapshot, store.log[d.from..], |store.log|), d.recordedAt, d.nonce)
  }

  /** The metadata the coordinator stamps on what it keeps: the input's, as delivered. */
  function KeptMeta(d: Delivery, rulesVersion: string): EventMeta {
    var page := d.command.page;
    EventMeta(rulesVersion, page.commandId, page.factOrigin, page.correlationId, d.recordedAt)
  }

  function LogAfter(store: Store, d: Delivery, answer: Response): seq<EventPage> {
    store.log + Stamped(answer.events.pages, |store.log|, KeptMeta(d, answer.rulesVersion))
  }

  function Next<S(!new)>(table: Table<S>, cover: Option<Cover>, store: Store, d: Delivery): Store {
    if !Deliverable(store, d) || !d.keep then store
    else
      match Answer(table, Request(store, d, cover))
      case Err(_) => store
      case Ok(answer) =>
        var log := LogAfter(store, d, answer);
        Store(log, store.saved[|log| := answer.events.snapshot.value.state.value])
  }

  function Run<S(!new)>(table: Table<S>, cover: Option<Cover>, deliveries: seq<Delivery>): Store {
    if deliveries == [] then Store([], map[])
    else
      var last := |deliveries| - 1;
      Next(table, cover, Run(table, cover, deliveries[..last]), deliveries[last])
  }

  /** The state replaying the first `n` pages from a fresh state leaves. */
  function StateAt<S(!new)>(table: Table<S>, cover: Option<Cover>, log: seq<EventPage>, n: nat): S
    requires n <= |log|
  {
    ReplayTo(table.stateType.factory, log, n, cover, table.appliers).state
  }

  predicate Numbered(log: seq<EventPage>) {
    forall i :: 0 <= i < |log| ==> log[i].sequence == i
  }

  ghost predicate Folds<S(!new)>(table: Table<S>, cover: Option<Cover>, log: seq<EventPage>) {
    Replay(table.stateType.factory, log, cover, table.appliers).Folded?
  }

  /** The log is in sequence and replays, and every saved state is the replayed one. */
  ghost predicate Sound<S(!new)>(table: Table<S>, cover: Option<Cover>, store: Store) {
    && Numbered(store.log)
    && Folds(table, cover, store.log)
    && forall k :: k in store.saved ==>
         && k <= |store.log|
         && table.stateType.decode(store.saved[k].value) == Some(StateAt(table, cover, store.log, k))
  }

  predicate SameIdentity(a: CommandContext, b: CommandContext) {
    a.commandId == b.commandId && a.factOrigin == b.factOrigin &&
    a.correlationId == b.correlationId && a.recordedAt == b.recordedAt
  }

  /** Business code that leaves the live state, and the identity in the live context, as it
      was handed them. */
  ghost predicate Pure<S(!new)>(handler: Handler<S>) {
    forall s, ctx, current :: handler(s, ctx, current).out.Ok? ==>
      handler(s, ctx, current).state == s && SameIdentity(handler(s, ctx, current).ctx, ctx)
  }

  ghost predicate PureTable<S(!new)>(table: Table<S>) {
    forall command :: Route(table, command).Ok? ==> Pure(Route(table, command).value)
  }

  // ------------------------------------------------------------------- refinement

  lemma {:induction false} PrefixFolds<S>(
    s: S, pages: seq<EventPage>, k: nat, n: nat, cover: Option<Cover>, appliers: Appliers<S>)
    requires k <= n <= |pages| && ReplayTo(s, pages, n, cover, appliers).Folded?
    ensures ReplayTo(s, pages, k, cover, appliers).Folded?
  {
    if k == n {
    } else {
      PrefixFolds(s, pages, k, n - 1, cover, appliers);
    }
  }

  /** From whichever saved state a delivery starts, the handler's state, and the state after
      any number of the delivered pages, is the replay of the whole log that far: no
      delivery of a sound store is answered as corrupt or as a failed fold. */
  lemma DeliveryRebuildsLog<S(!new)>(table: Table<S>, cover: Option<Cover>, store: Store, d: Delivery, n: nat)
    requires Sound(table, cover, store) && Deliverable(store, d)
    requires n <= |store.log| - d.from
    ensures RebuiltTo(table, Request(store, d, cover).events, n) ==
            Ok(StateAt(table, cover, store.log, d.from + n))
  {
    StartsFromLog(table, cover, store, d);
    ResumesLog(table, cover, store.log, d.from, n);
  }

  lemma ResumesLog<S(!new)>(table: Table<S>, cover: Option<Cover>, log: seq<EventPage>, from: nat, n: nat)
    requires Folds(table, cover, log) && from + n <= |log|
    ensures ReplayTo(StateAt(table, cover, log, from), log[from..], n, cover, table.appliers) ==
            Folded(StateAt(table, cover, log, from + n))
  {
    var factory, seen, rest := table.stateType.factory, log[..from], log[from..];
    assert seen + rest == log;
    PrefixFolds(factory, log, from + n, |log|, cover, table.appliers);
    PrefixFolds(factory, log, from, from + n, cover, table.appliers);
    ReplayFrom(factory, seen, rest, n, cover, table.appliers);
  }

  lemma StartsFromLog<S(!new)>(table: Table<S>, cover: Option<Cover>, store: Store, d: Delivery)
    requires Sound(table, cover, store) && Deliverable(store, d)
    ensures StartState(table.stateType, Request(store, d, cover).events) == Ok(StateAt(table, cover, store.log, d.from))
  {
  }

  /** Appending what a decision emitted, stamped as delivered, replays to what folding it on
      the log's state does. */
  lemma ReplayAppended<S(!new)>(table: Table<S>, cover: Option<Cover>, log: seq<EventPage>, own: seq<EventPage>)
    requires Folds(table, cover, log)
    requires Replay(StateAt(table, cover, log, |log|), own, cover, table.appliers).Folded?
    ensures Folds(table, cover, log + own)
    ensures StateAt(table, cover, log + own, |log + own|) ==
            Replay(StateAt(table, cover, log, |log|), own, cover, table.appliers).state
    ensures forall k :: 0 <= k <= |log| ==> StateAt(table, cover, log + own, k) == StateAt(table, cover, log, k)
  {
    ReplayConcat(table.stateType.factory, log, own, cover, table.appliers);
    forall k | 0 <= k <= |log|
      ensures StateAt(table, cover, log + own, k) == StateAt(table, cover, log, k)
    {
      ReplayReadsPrefix(table.stateType.factory, log, log + own, k, cover, table.appliers);
    }
  }

  /** What an answer promises of the log its pages are kept in: it replays, and to the state
      the answer carries, and what was there replays as it did. */
  ghost predicate Carries<S(!new)>(
    table: Table<S>, cover: Option<Cover>, before: seq<EventPage>, log: seq<EventPage>, carried: Any)
  {
    && before <= log
    && Numbered(log) && Folds(table, cover, log)
    && table.stateType.decode(carried.value) == Some(StateAt(table, cover, log, |log|))
    && forall k :: 0 <= k <= |before| ==> StateAt(table, cover, log, k) == StateAt(table, cover, before, k)
  }

  lemma SettleCarriesReplay<S(!new)>(
    table: Table<S>, cover: Option<Cover>, store: Store, request: ContextualCommand, ctx: CommandContext,
    out: EventBook)
    requires table.stateType.RoundTrips() && Numbered(store.log) && Folds(table, cover, store.log)
    requires request.events.cover == cover && request.events.nextSequence == |store.log|
    requires Settle(table, request, StateAt(table, cover, store.log, |store.log|), ctx, out).Ok?
    ensures
      var answer := Settle(table, request, StateAt(table, cover, store.log, |store.log|), ctx, out).value;
      && answer.rulesVersion == table.rulesVersion && answer.events.pages == out.pages
      && Carries(table, cover, store.log,
                 store.log + Stamped(out.pages, |store.log|, ctx.Meta(table.rulesVersion)),
                 answer.events.snapshot.value.state.value)
  {
    ReplayAppended(table, cover, store.log, Stamped(out.pages, |store.log|, ctx.Meta(table.rulesVersion)));
  }

  /** The handler a delivery goes to is given the replay of the whole log. */
  ghost predicate GivenReplay<S(!new)>(table: Table<S>, cover: Option<Cover>, store: Store, d: Delivery)
    requires Deliverable(store, d)
  {
    var events := Request(store, d, cover).events;
    RebuiltTo(table, events, |events.pages|) == Ok(StateAt(table, cover, store.log, |store.log|))
  }

  /** The state an answer carries is the replay of the log with the answer's pages in it, at
      the sequences and with the metadata the coordinator gives them. */
  ghost predicate AnswersReplay<S(!new)>(table: Table<S>, cover: Option<Cover>, store: Store, d: Delivery)
    requires Deliverable(store, d)
  {
    Answer(table, Request(store, d, cover)).Ok? ==>
      var answer := Answer(table, Request(store, d, cover)).value;
      && answer.rulesVersion == table.rulesVersion
      && Carries(table, cover, store.log, LogAfter(store, d, answer), answer.events.snapshot.value.state.value)
  }

  lemma AnswerCarriesReplay<S(!new)>(table: Table<S>, cover: Option<Cover>, store: Store, d: Delivery)
    requires table.stateType.RoundTrips() && PureTable(table)
    requires Numbered(store.log) && Folds(table, cover, store.log)
    requires Deliverable(store, d) && GivenReplay(table, cover, store, d)
    ensures AnswersReplay(table, cover, store, d)
  {
    var request, state := Request(store, d, cover), StateAt(table, cover, store.log, |store.log|);
    if Answer(table, request).Ok? {
      var ran := AnswerSettles(table, cover, store, d);
      SettleCarriesReplay(table, cover, store, request, ran.ctx, ran.out.value);
    }
  }

  /** An answer settles what pure business code decided on the replay of the log. */
  lemma AnswerSettles<S(!new)>(table: Table<S>, cover: Option<Cover>, store: Store, d: Delivery)
    returns (ran: Ran<S, EventBook>)
    requires PureTable(table) && Deliverable(store, d) && GivenReplay(table, cover, store, d)
    requires Answer(table, Request(store, d, cover)).Ok?
    ensures ran.out.Ok? && ran.ctx.Meta(table.rulesVersion) == KeptMeta(d, table.rulesVersion)
    ensures var state := StateAt(table, cover, store.log, |store.log|);
            Answer(table, Request(store, d, cover)) ==
            Settle(table, Request(store, d, cover), state, ran.ctx, ran.out.value)
  {
    var request, state := Request(store, d, cover), StateAt(table, cover, store.log, |store.log|);
    ran := Decided(table, request, state);
    assert ran.out.Ok?;
    DecidesPurely(table, store, d, cover, state);
  }

  function Decided<S(!new)>(table: Table<S>, request: ContextualCommand, state: S): Ran<S, EventBook>
    requires Route(table, request.command).Ok?
  {
    Decide(Route(table, request.command).value, state, Given(request))
  }

  lemma DecidesPurely<S(!new)>(table: Table<S>, store: Store, d: Delivery, cover: Option<Cover>, state: S)
    requires PureTable(table) && Deliverable(store, d) && Route(table, d.command).Ok?
    requires Decided(table, Request(store, d, cover), state).out.Ok?
    ensures var ran := Decided(table, Request(store, d, cover), state);
            ran.state == state && ran.ctx.Meta(table.rulesVersion) == KeptMeta(d, table.rulesVersion)
  {
    assert Pure(Route(table, d.command).value);
  }

  lemma KeepingStaysSound<S(!new)>(
    table: Table<S>, cover: Option<Cover>, store: Store, log: seq<EventPage>, carried: Any)
    requires Sound(table, cover, store) && Carries(table, cover, store.log, log, carried)
    ensures Sound(table, cover, Store(log, store.saved[|log| := carried]))
  {
  }

  lemma NextKeepsSound<S(!new)>(table: Table<S>, cover: Option<Cover>, store: Store, d: Delivery)
    requires table.stateType.RoundTrips() && PureTable(table)
    requires Sound(table, cover, store)
    ensures Sound(table, cover, Next(table, cover, store, d))
  {
    if Deliverable(store, d) {
      SoundIsFaithful(table, cover, store, d);
      var answer := Answer(table, Request(store, d, cover));
      if d.keep && answer.Ok? {
        KeepingStaysSound(table, cover, store, LogAfter(store, d, answer.value),
                          answer.value.events.snapshot.value.state.value);
      }
    }
  }

  /** The decide-time fold refines replay over every run, whatever was delivered, from
      whichever saved states, kept and saved. */
  lemma RunRefinesReplay<S(!new)>(table: Table<S>, cover: Option<Cover>, deliveries: seq<Delivery>, next: Delivery)
    requires table.stateType.RoundTrips() && PureTable(table)
    requires Deliverable(Run(table, cover, deliveries), next)
    ensures GivenReplay(table, cover, Run(table, cover, deliveries), next)
    ensures AnswersReplay(table, cover, Run(table, cover, deliveries), next)
  {
    RunIsSound(table, cover, deliveries);
    SoundIsFaithful(table, cover, Run(table, cover, deliveries), next);
  }

  lemma SoundIsFaithful<S(!new)>(table: Table<S>, cover: Option<Cover>, store: Store, next: Delivery)
    requires table.stateType.RoundTrips() && PureTable(table)
    requires Sound(table, cover, store) && Deliverable(store, next)
    ensures GivenReplay(table, cover, store, next) && AnswersReplay(table, cover, store, next)
  {
    DeliveryRebuildsLog(table, cover, store, next, |store.log| - next.from);
    AnswerCarriesReplay(table, cover, store, next);
  }

  lemma {:induction false} RunIsSound<S(!new)>(table: Table<S>, cover: Option<Cover>, deliveries: seq<Delivery>)
    requires table.stateType.RoundTrips() && PureTable(table)
    ensures Sound(table, cover, Run(table, cover, deliveries))
  {
    if deliveries == [] {
    } else {
      var last := |deliveries| - 1;
      RunIsSound(table, cover, deliveries[..last]);
      NextKeepsSound(table, cover, Run(table, cover, deliveries[..last]), deliveries[last]);
    }
  }

  // ------------------------------------------------------ why business code must be pure

  /** One applier, which tells pages stamped `marked` from any others. */
  ghost function Marking<S>(name: string, marked: EventMeta, a: S, b: S): Appliers<S> {
    var applier: Applier<S> :=
      (s: S, event: Any, ctx: PageContext, current: Option<PageContext>) =>
        Ok(if ctx.meta == Some(marked) then a else b);
    map[name := applier]
  }

  lemma {:induction false} MarkedFold<S(!new)>(
    s: S, pages: seq<EventPage>, n: nat, next: nat, meta: EventMeta, marked: EventMeta,
    cover: Option<Cover>, name: string, a: S, b: S)
    requires 0 < n <= |pages| && name == TypeName(pages[0].payload.typeUrl)
    ensures ReplayTo(s, Stamped(pages, next, meta), n, cover, Marking(name, marked, a, b)) ==
            Folded(if meta == marked then a else b)
  {
    if 1 == n {
    } else {
      MarkedFold(s, pages, n - 1, next, meta, marked, cover, name, a, b);
    }
  }

  /** A decision left in `state` and stamped `meta` folds as the replay of `given` stamped
      `kept` does, whatever the appliers, exactly when business code left the state as it
      was given it and, where it emitted anything, the identity too. */
  lemma DecideTimeFoldExact<S(!new)>(
    given: S, state: S, pages: seq<EventPage>, next: nat, kept: EventMeta, meta: EventMeta,
    cover: Option<Cover>, a: S, b: S)
    requires a != b
    ensures (forall appliers: Appliers<S> ::
               Replay(state, Stamped(pages, next, meta), cover, appliers) ==
               Replay(given, Stamped(pages, next, kept), cover, appliers))
            <==> state == given && (pages == [] || meta == kept)
  {
    if forall appliers: Appliers<S> ::
        Replay(state, Stamped(pages, next, meta), cover, appliers) ==
        Replay(given, Stamped(pages, next, kept), cover, appliers)
    {
      UnclaimedFold(state, Stamped(pages, next, meta), |pages|, cover);
      UnclaimedFold(given, Stamped(pages, next, kept), |pages|, cover);
      var none: Appliers<S> := map[];
      assert Replay(state, Stamped(pages, next, meta), cover, none) ==
             Replay(given, Stamped(pages, next, kept), cover, none);
      if pages != [] {
        var name := TypeName(pages[0].payload.typeUrl);
        MarkedFold(state, pages, |pages|, next, meta, kept, cover, name, a, b);
        MarkedFold(given, pages, |pages|, next, kept, kept, cover, name, a, b);
        assert Replay(state, Stamped(pages, next, meta), cover, Marking(name, kept, a, b)) ==
               Replay(given, Stamped(pages, next, kept), cover, Marking(name, kept, a, b));
      }
    }
  }

  lemma {:induction false} UnclaimedFold<S>(s: S, pages: seq<EventPage>, n: nat, cover: Option<Cover>)
    requires n <= |pages|
    ensures ReplayTo(s, pages, n, cover, map[]) == Folded(s)
  {
    if n == 0 {
    } else {
      UnclaimedFold(s, pages, n - 1, cover);
    }
  }
}
