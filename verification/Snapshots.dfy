/** When a snapshot past what a COMMUTATIVE command had seen shows in its answer. */
module Snapshots {
  import opened Prelude
  import opened Errors
  import opened Context
  import opened Dispatch
  import opened Runs
  import opened Reports
  import opened Failures

  function With<S(!new)>(table: Table<S>, changed: ChangedThunk<S>): Table<S> {
    table.(changed := Some(changed))
  }

  /** Whether a table answers a delivery over a saved state as it does over the whole log. */
  ghost predicate Transparent<S(!new)>(table: Table<S>, cover: Option<Cover>, store: Store, d: Delivery)
    requires Deliverable(store, d)
  {
    Answer(table, Request(store, d, cover)) == Answer(table, Request(store, FromStart(d), cover))
  }

  /** The state a COMMUTATIVE report compares the command's with. */
  ghost function Before<S(!new)>(table: Table<S>, cover: Option<Cover>, store: Store, d: Delivery): S
    requires d.from <= |store.log|
  {
    StateAt(table, cover, store.log, SeenUpTo(store, d))
  }

  /** A resolver that names a unit exactly where the state before is a given one. */
  ghost function Telling<S(!new)>(state: S): ChangedThunk<S> {
    (before: S, after: S, page: Option<PageContext>) => Ok(if before == state then ["u"] else [])
  }

  /** A snapshot is transparent to a COMMUTATIVE input, whatever the resolver, if and only if
      the input fails before its report or the snapshot's state, where it is past what the
      command had seen, is the state there: what is past it changed nothing. */
  lemma SnapshotTransparentExactly<S(!new)>(table: Table<S>, cover: Option<Cover>, store: Store, d: Delivery)
    requires Sound(table, cover, store) && Deliverable(store, d) && 0 < d.from
    requires d.command.handling.conflictResolution == Commutative && table.changed.Some?
    ensures (forall changed: ChangedThunk<S> :: Transparent(With(table, changed), cover, store, d)) <==>
            || !Decides(table, Request(store, d, cover))
            || Before(table, cover, store, d) == Before(table, cover, store, FromStart(d))
  {
    hide Transparent, Decides, Before, Sound;
    var request := Request(store, d, cover);
    if !Decides(table, request) || Before(table, cover, store, d) == Before(table, cover, store, FromStart(d)) {
      forall changed: ChangedThunk<S>
        ensures Transparent(With(table, changed), cover, store, d)
      {
        SnapshotHides(table, changed, cover, store, d);
      }
    } else {
      SnapshotShows(table, cover, store, d);
    }
  }

  lemma ResolverAside<S(!new)>(
    table: Table<S>, changed: ChangedThunk<S>, cover: Option<Cover>, store: Store, d: Delivery)
    requires Sound(table, cover, store) && Deliverable(store, d) && table.changed.Some?
    ensures Sound(With(table, changed), cover, store)
    ensures Before(With(table, changed), cover, store, d) == Before(table, cover, store, d)
    ensures Decides(With(table, changed), Request(store, d, cover)) <==> Decides(table, Request(store, d, cover))
  {
    hide RebuiltTo, TypeName, Seen, Stamped, ReplayTo, Given;
    var whole, request := With(table, changed), Request(store, d, cover);
    RebuildIgnoresResolver(whole, table, request.events, |request.events.pages|);
    assert Route(whole, request.command) == Route(table, request.command);
  }

  lemma SnapshotHides<S(!new)>(
    table: Table<S>, changed: ChangedThunk<S>, cover: Option<Cover>, store: Store, d: Delivery)
    requires Sound(table, cover, store) && Deliverable(store, d) && 0 < d.from
    requires d.command.handling.conflictResolution == Commutative && table.changed.Some?
    requires !Decides(table, Request(store, d, cover)) ||
             Before(table, cover, store, d) == Before(table, cover, store, FromStart(d))
    ensures Transparent(With(table, changed), cover, store, d)
  {
    hide Sound, RebuiltTo, Decides, Given, Answer;
    var whole, a, b := With(table, changed), Request(store, d, cover), Request(store, FromStart(d), cover);
    ResolverAside(table, changed, cover, store, d);
    ResolverAside(table, changed, cover, store, FromStart(d));
    DeliveredAlike(whole, cover, store, d);
    if Decides(whole, a) {
      BeforeIsLogAtExpected(whole, cover, store, d);
      BeforeIsLogAtExpected(whole, cover, store, FromStart(d));
      AnswerReads(whole, a, b);
    } else {
      FailsAlike(whole, a, b);
    }
  }

  lemma DeliveredAlike<S(!new)>(table: Table<S>, cover: Option<Cover>, store: Store, d: Delivery)
    requires Sound(table, cover, store) && Deliverable(store, d) && 0 < d.from
    requires d.command.handling.conflictResolution == Commutative
    ensures var a, b := Request(store, d, cover), Request(store, FromStart(d), cover);
            && Given(a) == Given(b)
            && RebuiltTo(table, a.events, |a.events.pages|) == RebuiltTo(table, b.events, |b.events.pages|)
  {
    hide RebuiltTo, Given;
    SnapshotGivesSameContext(store, d, cover);
    RebuildsAlike(table, cover, store, d);
  }

  lemma FailsAlike<S(!new)>(table: Table<S>, a: ContextualCommand, b: ContextualCommand)
    requires a.command == b.command && Given(a) == Given(b) && !Decides(table, a)
    requires a.events.cover == b.events.cover && a.events.nextSequence == b.events.nextSequence
    requires RebuiltTo(table, a.events, |a.events.pages|) == RebuiltTo(table, b.events, |b.events.pages|)
    ensures Answer(table, a) == Answer(table, b)
  {
    hide RebuiltTo, Given, Route, Stamped, Replay;
  }

  lemma SnapshotShows<S(!new)>(table: Table<S>, cover: Option<Cover>, store: Store, d: Delivery)
    requires Sound(table, cover, store) && Deliverable(store, d) && 0 < d.from
    requires d.command.handling.conflictResolution == Commutative && table.changed.Some?
    requires Decides(table, Request(store, d, cover))
    requires Before(table, cover, store, d) != Before(table, cover, store, FromStart(d))
    ensures !Transparent(With(table, Telling(Before(table, cover, store, d))), cover, store, d)
  {
    hide Sound, RebuiltTo, Decides, Given, Answer;
    var changed := Telling(Before(table, cover, store, d));
    var whole, a, b := With(table, changed), Request(store, d, cover), Request(store, FromStart(d), cover);
    ResolverAside(table, changed, cover, store, d);
    ResolverAside(table, changed, cover, store, FromStart(d));
    DeliveredAlike(whole, cover, store, d);
    DecidesAlike(whole, a, b);
    BeforeIsLogAtExpected(whole, cover, store, d);
    BeforeIsLogAtExpected(whole, cover, store, FromStart(d));
    var head := WindowReported(whole, changed, a, Before(table, cover, store, d));
    var headToo := WindowReported(whole, changed, b, Before(table, cover, store, FromStart(d)));
  }

  lemma DecidesAlike<S(!new)>(table: Table<S>, a: ContextualCommand, b: ContextualCommand)
    requires a.command == b.command && Given(a) == Given(b) && Decides(table, a)
    requires a.events.cover == b.events.cover && a.events.nextSequence == b.events.nextSequence
    requires RebuiltTo(table, a.events, |a.events.pages|) == RebuiltTo(table, b.events, |b.events.pages|)
    ensures Decides(table, b)
  {
    hide RebuiltTo, Given, Route, Stamped, Replay;
  }

  /** What a resolver that never raises names between the state before and another is what is
      reported of the window. */
  lemma WindowReported<S(!new)>(table: Table<S>, changed: ChangedThunk<S>, request: ContextualCommand, before: S)
    returns (head: S)
    requires Decides(table, request) && request.command.handling.conflictResolution == Commutative
    requires table.changed == Some(changed) && forall a, b, page :: changed(a, b, page).Ok?
    requires RebuiltTo(table, request.events, SeenPages(request)) == Ok(before)
    ensures Answer(table, request).Ok?
    ensures changed(before, head, Some(NO_PAGE)) == Ok(Answer(table, request).value.conflict.windowUnits)
  {
    hide RebuiltTo, Given, Route, Stamped, Replay, SeenPages;
    var state := RebuiltTo(table, request.events, |request.events.pages|).value;
    head := Decide(Route(table, request.command).value, state, Given(request)).state;
  }
}
