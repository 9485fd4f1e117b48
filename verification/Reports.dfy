/** What a delivery's starting state and its expected sequence change: the snapshot is
    transparent, and a stale command's report tells the window from the command. */
module Reports {
  import opened Prelude
  import opened Context
  import opened Dispatch
  import opened Runs

  // -------------------------------------------------------- the split at the expected sequence

  /** The pages of a book are told apart by the expected sequence exactly when none it had
      seen comes after one it had not; a book in sequence order is such. */
  lemma SplitIsByExpected(pages: seq<EventPage>, expected: nat)
    ensures var seen := Seen(pages, |pages|, expected);
            (forall p :: p in pages[..seen] ==> p.sequence < expected) &&
            (forall p :: p in pages[seen..] ==> expected <= p.sequence)
            <==>
            forall i, j :: 0 <= i < j < |pages| && pages[j].sequence < expected ==> pages[i].sequence < expected
  {
    var seen := Seen(pages, |pages|, expected);
    if forall i, j :: 0 <= i < j < |pages| && pages[j].sequence < expected ==> pages[i].sequence < expected {
      SeenIsPrefix(pages, |pages|, expected);
    }
    if (forall p :: p in pages[..seen] ==> p.sequence < expected) &&
       (forall p :: p in pages[seen..] ==> expected <= p.sequence)
    {
      forall i, j | 0 <= i < j < |pages| && pages[j].sequence < expected
        ensures pages[i].sequence < expected
      {
        assert pages[j] in pages[seen..] || j < seen;
        assert i < seen ==> pages[i] in pages[..seen];
      }
    }
  }

  lemma {:induction false} SeenIsPrefix(pages: seq<EventPage>, n: nat, expected: nat)
    requires n <= |pages|
    requires forall i, j :: 0 <= i < j < n && pages[j].sequence < expected ==> pages[i].sequence < expected
    ensures forall i :: 0 <= i < n ==> (pages[i].sequence < expected <==> i < Seen(pages, n, expected))
  {
    if n == 0 {
    } else {
      SeenIsPrefix(pages, n - 1, expected);
      if Seen(pages, n - 1, expected) < n - 1 {
        assert !(pages[Seen(pages, n - 1, expected)].sequence < expected);
      }
    }
  }

  /** In a numbered log read from `from`, what was seen ends at the expected sequence, or at
      the start or the end of what is delivered where that lies outside. */
  lemma {:induction false} SeenOfLog(log: seq<EventPage>, from: nat, n: nat, expected: nat)
    requires Numbered(log) && from + n <= |log|
    ensures Seen(log[from..], n, expected) == Max(0, Min(expected - from, n))
  {
    if n == 0 {
    } else {
      SeenOfLog(log, from, n - 1, expected);
      assert log[from..][n - 1] == log[from + n - 1];
    }
  }

  function Expected(store: Store, d: Delivery): nat {
    BookContext(d.command, |store.log|).expectedSequence
  }

  // ---------------------------------------------------------------- snapshot transparency

  /** The same delivery without its starting state: the whole log. */
  function FromStart(d: Delivery): Delivery {
    d.(from := 0)
  }

  /** How far into the log the command had seen, as far as a delivery tells: its expected
      sequence, or where what is delivered starts or ends. */
  function SeenUpTo(store: Store, d: Delivery): (at: nat)
    requires d.from <= |store.log|
    ensures d.from <= at <= |store.log|
  {
    Max(d.from, Min(Expected(store, d), |store.log|))
  }

  /** What the command did not see, of what is delivered. */
  function Window(store: Store, d: Delivery): seq<EventPage>
    requires d.from <= |store.log|
  {
    store.log[SeenUpTo(store, d)..]
  }

  lemma WindowGiven(store: Store, d: Delivery, cover: Option<Cover>)
    requires Numbered(store.log) && Deliverable(store, d)
    ensures d.from + SeenPages(Request(store, d, cover)) == SeenUpTo(store, d)
    ensures Request(store, d, cover).events.pages[SeenPages(Request(store, d, cover))..] == Window(store, d)
  {
    hide Seen, Numbered;
    var seen := SeenPages(Request(store, d, cover));
    SeenOfLog(store.log, d.from, |store.log| - d.from, Expected(store, d));
    assert store.log[d.from..][seen..] == store.log[d.from + seen..];
  }

  /** A handler is handed the same context over a snapshot as over the whole log exactly
      when its window does not start inside the snapshot. */
  lemma SnapshotGivesSameContext(store: Store, d: Delivery, cover: Option<Cover>)
    requires Numbered(store.log) && Deliverable(store, d) && 0 < d.from
    ensures Given(Request(store, d, cover)) == Given(Request(store, FromStart(d), cover)) <==>
            (d.command.handling.conflictResolution == AggregateHandles ==> d.from <= Expected(store, d))
  {
    hide SeenPages, Window;
    WindowGiven(store, d, cover);
    WindowGiven(store, FromStart(d), cover);
    WindowsDiffer(store, d);
  }

  lemma WindowsDiffer(store: Store, d: Delivery)
    requires 0 < d.from <= |store.log|
    ensures Window(store, d) == Window(store, FromStart(d)) <==> d.from <= Expected(store, d)
    ensures store.log[FromStart(d).from..] != []
  {
    assert Expected(store, FromStart(d)) == Expected(store, d);
    if Expected(store, d) < d.from {
      assert |Window(store, d)| < |Window(store, FromStart(d))|;
    }
  }

  /** COMMUTATIVE's `before` is the log's state at the expected sequence, or the snapshot's
      where the snapshot is past it. */
  lemma BeforeIsLogAtExpected<S(!new)>(table: Table<S>, cover: Option<Cover>, store: Store, d: Delivery)
    requires Sound(table, cover, store) && Deliverable(store, d)
    ensures var request := Request(store, d, cover);
            RebuiltTo(table, request.events, SeenPages(request)) ==
            Ok(StateAt(table, cover, store.log, SeenUpTo(store, d)))
  {
    WindowGiven(store, d, cover);
    DeliveryRebuildsLog(table, cover, store, d, SeenPages(Request(store, d, cover)));
  }

  /** A snapshot is transparent: delivering a saved state and the pages after it is answered
      exactly as delivering the whole log is, failures included, provided the expected
      sequence of a conflict-reporting mode does not fall inside the snapshot. */
  lemma SnapshotIsTransparent<S(!new)>(table: Table<S>, cover: Option<Cover>, store: Store, d: Delivery)
    requires Sound(table, cover, store) && Deliverable(store, d) && 0 < d.from
    requires d.command.handling.conflictResolution in {AggregateHandles, Commutative} ==>
               d.from <= Expected(store, d)
    ensures Answer(table, Request(store, d, cover)) == Answer(table, Request(store, FromStart(d), cover))
  {
    SnapshotGivesSameContext(store, d, cover);
    RebuildsAlike(table, cover, store, d);
    AnswerReads(table, Request(store, d, cover), Request(store, FromStart(d), cover));
  }

  lemma RebuildsAlike<S(!new)>(table: Table<S>, cover: Option<Cover>, store: Store, d: Delivery)
    requires Sound(table, cover, store) && Deliverable(store, d) && 0 < d.from
    ensures var a, b := Request(store, d, cover), Request(store, FromStart(d), cover);
            && RebuiltTo(table, a.events, |a.events.pages|) == RebuiltTo(table, b.events, |b.events.pages|)
            && (d.from <= Expected(store, d) ==>
                  RebuiltTo(table, a.events, SeenPages(a)) == RebuiltTo(table, b.events, SeenPages(b)))
  {
    hide Seen, Stamped, RebuiltTo;
    DeliveryRebuildsLog(table, cover, store, d, |store.log| - d.from);
    DeliveryRebuildsLog(table, cover, store, FromStart(d), |store.log|);
    BeforeIsLogAtExpected(table, cover, store, d);
    BeforeIsLogAtExpected(table, cover, store, FromStart(d));
  }

  /** An answer reads its book only through the state it rebuilds, the context it gives, the
      state before the window, its cover and its next sequence. */
  lemma AnswerReads<S(!new)>(table: Table<S>, a: ContextualCommand, b: ContextualCommand)
    requires a.command == b.command && Given(a) == Given(b)
    requires a.events.cover == b.events.cover && a.events.nextSequence == b.events.nextSequence
    requires RebuiltTo(table, a.events, |a.events.pages|) == RebuiltTo(table, b.events, |b.events.pages|)
    requires a.command.handling.conflictResolution == Commutative ==>
               RebuiltTo(table, a.events, SeenPages(a)) == RebuiltTo(table, b.events, SeenPages(b))
    ensures Answer(table, a) == Answer(table, b)
  {
  }

  // --------------------------------------------------------------- the conflict report

  /** Whether two states, seen as maps from conflict unit to value, agree on a unit. */
  ghost predicate SameUnit<V>(a: map<Unit, V>, b: map<Unit, V>, u: Unit) {
    (u in a <==> u in b) && (u in a ==> a[u] == b[u])
  }

  /** A resolver that names exactly the units whose values differ. */
  ghost predicate UnitWise<S(!new), V(!new)>(changed: ChangedThunk<S>, units: S -> map<Unit, V>) {
    forall a, b, current :: changed(a, b, current).Ok? ==>
      forall u :: u in changed(a, b, current).value <==> !SameUnit(units(a), units(b), u)
  }

  /** `base` with `units` as `from` has them. */
  function Overlay<V>(base: map<Unit, V>, units: seq<Unit>, from: map<Unit, V>): map<Unit, V> {
    map u | u in base.Keys + from.Keys && (if u in units then u in from else u in base) ::
      if u in units then from[u] else base[u]
  }

  /** The COMMUTATIVE report is sound. The window's units and the command's cover every unit
      that differs between the state before and the answer's; laying the window's units over
      the state before, then the command's, gives the answer's state; and the other order
      gives it exactly when no unit is in both. */
  lemma DisjointUnitsCommute<V>(
    before: map<Unit, V>, head: map<Unit, V>, after: map<Unit, V>, window: seq<Unit>, mine: seq<Unit>)
    requires forall u :: u in window <==> !SameUnit(before, head, u)
    requires forall u :: u in mine <==> !SameUnit(head, after, u)
    ensures forall u :: !SameUnit(before, after, u) ==> u in window || u in mine
    ensures Overlay(Overlay(before, window, head), mine, after) == after
    ensures Overlay(Overlay(before, mine, after), window, head) == after <==> forall u :: u in window ==> u !in mine
  {
  }

  /** What a COMMUTATIVE answer reports is what the resolver names between the state at the
      expected sequence, the state the command was decided on, and the state it carries. */
  lemma CommutativeReportIsSound<S(!new), V(!new)>(
    table: Table<S>, cover: Option<Cover>, store: Store, d: Delivery, units: S -> map<Unit, V>)
    requires table.stateType.RoundTrips() && PureTable(table)
    requires Sound(table, cover, store) && Deliverable(store, d)
    requires d.command.handling.conflictResolution == Commutative
    requires table.changed.Some? && UnitWise(table.changed.value, units)
    requires Answer(table, Request(store, d, cover)).Ok?
    ensures
      var answer := Answer(table, Request(store, d, cover)).value;
      var before := units(StateAt(table, cover, store.log, SeenUpTo(store, d)));
      var log := LogAfter(store, d, answer);
      var after := units(StateAt(table, cover, log, |log|));
      var head := units(StateAt(table, cover, store.log, |store.log|));
      var window, mine := answer.conflict.windowUnits, answer.conflict.commandUnits;
      && (forall u :: !SameUnit(before, after, u) ==> u in window || u in mine)
      && Overlay(Overlay(before, window, head), mine, after) == after
      && (Overlay(Overlay(before, mine, after), window, head) == after <==> forall u :: u in window ==> u !in mine)
  {
    var answer := Answer(table, Request(store, d, cover)).value;
    var log := LogAfter(store, d, answer);
    var s, h, a := StateAt(table, cover, store.log, SeenUpTo(store, d)),
                   StateAt(table, cover, store.log, |store.log|), StateAt(table, cover, log, |log|);
    CommutativeReport(table, cover, store, d);
    var changed := table.changed.value;
    assert changed(s, h, Some(NO_PAGE)).Ok? && changed(h, a, Some(NO_PAGE)).Ok?;
    DisjointUnitsCommute(units(s), units(h), units(a), answer.conflict.windowUnits, answer.conflict.commandUnits);
  }

  lemma CommutativeReport<S(!new)>(table: Table<S>, cover: Option<Cover>, store: Store, d: Delivery)
    requires table.stateType.RoundTrips() && PureTable(table)
    requires Sound(table, cover, store) && Deliverable(store, d)
    requires d.command.handling.conflictResolution == Commutative && table.changed.Some?
    requires Answer(table, Request(store, d, cover)).Ok?
    ensures
      var answer := Answer(table, Request(store, d, cover)).value;
      var log := LogAfter(store, d, answer);
      var before := StateAt(table, cover, store.log, SeenUpTo(store, d));
      var head := StateAt(table, cover, store.log, |store.log|);
      var after := StateAt(table, cover, log, |log|);
      && table.changed.value(before, head, Some(NO_PAGE)) == Ok(answer.conflict.windowUnits)
      && table.changed.value(head, after, Some(NO_PAGE)) == Ok(answer.conflict.commandUnits)
  {
    SoundIsFaithful(table, cover, store, d);
    BeforeIsLogAtExpected(table, cover, store, d);
    var ran := AnswerSettles(table, cover, store, d);
  }

  /** Under AGGREGATE_HANDLES a handler is given the pages of the log past what its command
      had seen, with the nonce delivered; the nonce it settles them with is the one reported,
      and none is for a handler that leaves them. */
  lemma SettledNonceIsReported<S(!new)>(
    table: Table<S>, cover: Option<Cover>, store: Store, d: Delivery, handler: Handler<S>, s: S,
    settled: seq<EventPage>, nonce: Bytes)
    requires Numbered(store.log) && Deliverable(store, d)
    requires d.command.handling.conflictResolution == AggregateHandles
    requires Route(table, d.command) == Ok(handler)
    requires var request := Request(store, d, cover); RebuiltTo(table, request.events, |request.events.pages|) == Ok(s)
    ensures var request := Request(store, d, cover);
            var given, answer := Given(request), Answer(table, request);
            var left := Decide(handler, s, given).ctx.conflict;
            && given.conflict == Some(Conflict(Window(store, d), d.nonce, []))
            && (answer.Ok? && left == Some(given.conflict.value.ResolveConflicts(settled, nonce)) ==>
                  answer.value.conflict == ConflictReport(nonce, [], []))
            && (answer.Ok? && left == given.conflict ==> answer.value.conflict == ConflictReport([], [], []))
  {
    hide Route, RebuiltTo, Window, SeenPages, Stamped, Replay;
    WindowGiven(store, d, cover);
  }
}
