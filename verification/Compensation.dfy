/** Compensation of a process manager's completed work: what a rollback, and a reply later than
    it, have undone. */
module Compensation {
  import opened Prelude

  /** `recorded` finds, in a state, the reply that completed the step; `undo` turns that reply
      into the event that takes the step back. */
  datatype Step<!S, !E> = Step(
    name: string, completedBy: string, target: string, recorded: S -> Option<E>, undo: E -> E)

  datatype UndoTargetsCommand = UndoTargetsCommand(step: string, command: string)

  /** The undo of each of the first `n` steps a state records done, newest first. */
  function Undos<S, E>(steps: seq<Step<S, E>>, n: nat, state: S): seq<E>
    requires n <= |steps|
  {
    if n == 0 then []
    else
      var done := steps[n - 1].recorded(state);
      (if done.Some? then [steps[n - 1].undo(done.value)] else []) + Undos(steps, n - 1, state)
  }

  /** The first step a reply of type `completedBy` completes, from `i` on. */
  function StepOf<S, E>(steps: seq<Step<S, E>>, i: nat, completedBy: string): (at: Option<nat>)
    requires i <= |steps|
    ensures at.Some? ==> i <= at.value < |steps| && steps[at.value].completedBy == completedBy
    ensures forall k :: i <= k < (if at.Some? then at.value else |steps|) ==> steps[k].completedBy != completedBy
    decreases |steps| - i
  {
    if i == |steps| then None
    else if steps[i].completedBy == completedBy then Some(i)
    else StepOf(steps, i + 1, completedBy)
  }

  /** The undo a reply that arrives once rolled back is given. */
  function LateUndo<S, E>(steps: seq<Step<S, E>>, completedBy: string, reply: E): seq<E> {
    var at := StepOf(steps, 0, completedBy);
    if at.Some? then [steps[at.value].undo(reply)] else []
  }

  /** The first step whose undo becomes `target`, from `i` on. */
  function TargetOf<S, E>(steps: seq<Step<S, E>>, i: nat, target: string): (at: Option<nat>)
    requires i <= |steps|
    ensures at.Some? ==> i <= at.value < |steps| && steps[at.value].target == target
    ensures forall k :: i <= k < (if at.Some? then at.value else |steps|) ==> steps[k].target != target
    decreases |steps| - i
  {
    if i == |steps| then None
    else if steps[i].target == target then Some(i)
    else TargetOf(steps, i + 1, target)
  }

  class Compensation<S, E> {
    const failed: (S, string) -> E
    const rolledBack: S -> bool
    const compensationFailed: (S, string) -> E
    const typeOf: E -> string
    var steps: seq<Step<S, E>>
    var warnings: seq<UndoTargetsCommand>

    constructor (
      failed: (S, string) -> E, rolledBack: S -> bool, compensationFailed: (S, string) -> E, typeOf: E -> string)
      ensures steps == [] && warnings == []
      ensures this.failed == failed && this.rolledBack == rolledBack
      ensures this.compensationFailed == compensationFailed && this.typeOf == typeOf
    {
      this.failed, this.rolledBack, this.compensationFailed := failed, rolledBack, compensationFailed;
      this.typeOf := typeOf;
      steps, warnings := [], [];
    }

    /** Appends a step, with a warning where its undo targets a command. */
    method Register(step: Step<S, E>, targetsCommand: bool)
      modifies this
      ensures steps == old(steps) + [step]
      ensures warnings == old(warnings) + if targetsCommand then [UndoTargetsCommand(step.name, step.target)] else []
    {
      if targetsCommand {
        warnings := warnings + [UndoTargetsCommand(step.name, step.target)];
      }
      steps := steps + [step];
    }

    method Rollback(state: S, reason: string) returns (events: seq<E>)
      ensures events == [failed(state, reason)] + Undos(steps, |steps|, state)
    {
      events := [failed(state, reason)];
      for i := |steps| downto 0
        invariant events + Undos(steps, i, state) == [failed(state, reason)] + Undos(steps, |steps|, state)
      {
        var step := steps[i];
        var done := step.recorded(state);
        if done.Some? {
          assert events + ([step.undo(done.value)] + Undos(steps, i, state)) ==
                 (events + [step.undo(done.value)]) + Undos(steps, i, state);
          events := events + [step.undo(done.value)];
        }
      }
    }

    method Reply(state: S, reply: E) returns (events: seq<E>)
      ensures events == [reply] + if rolledBack(state) then LateUndo(steps, typeOf(reply), reply) else []
    {
      events := [reply];
      if rolledBack(state) {
        for i := 0 to |steps|
          invariant events == [reply]
          invariant StepOf(steps, 0, typeOf(reply)) == StepOf(steps, i, typeOf(reply))
        {
          if typeOf(reply) == steps[i].completedBy {
            events := events + [steps[i].undo(reply)];
            return;
          }
        }
      }
    }

    /** What a refusal of the undo command `target` is recorded as: the failure of the first
        step it belongs to, or nothing. */
    method UndoRefused(state: S, target: string) returns (event: Option<E>)
      ensures event == var at := TargetOf(steps, 0, target);
                       if at.Some? then Some(compensationFailed(state, steps[at.value].name)) else None
    {
      for i := 0 to |steps|
        invariant TargetOf(steps, 0, target) == TargetOf(steps, i, target)
      {
        if steps[i].target == target {
          return Some(compensationFailed(state, steps[i].name));
        }
      }
      event := None;
    }
  }

  // --------------------------------------------------------- a process manager's run

  /** A process manager: its steps, and how its own events fold into its state. */
  datatype Manager<!S(!new), !E(!new)> = Manager(
    steps: seq<Step<S, E>>, failed: (S, string) -> E, rolledBack: S -> bool, typeOf: E -> string,
    initial: S, apply: (S, E) -> S)
  {
    /** Whether what every step recorded, and the mark, are as they were. */
    ghost predicate Same(before: S, after: S) {
      && rolledBack(after) == rolledBack(before)
      && forall i :: 0 <= i < |steps| ==> steps[i].recorded(after) == steps[i].recorded(before)
    }

    /** A step's own reply, folded, records it done, and changes nothing else the steps read. */
    ghost predicate FoldsReply(s: S, e: E) {
      StepOf(steps, 0, typeOf(e)).Some? ==>
        && rolledBack(apply(s, e)) == rolledBack(s)
        && forall j :: 0 <= j < |steps| ==>
             steps[j].recorded(apply(s, e)) ==
             if steps[j].completedBy == typeOf(e) then Some(e) else steps[j].recorded(s)
    }

    /** A rollback's failed event, folded, marks the state rolled back. */
    ghost predicate FoldsFailed(s: S, at: S, reason: string) {
      && rolledBack(apply(s, failed(at, reason)))
      && forall j :: 0 <= j < |steps| ==> steps[j].recorded(apply(s, failed(at, reason))) == steps[j].recorded(s)
    }

    ghost predicate IsUndo(e: E) {
      exists i, done :: 0 <= i < |steps| && e == steps[i].undo(done)
    }

    ghost predicate FoldsUndo(s: S, e: E) {
      IsUndo(e) ==> Same(s, apply(s, e))
    }

    /** The journal the compensation relies on. */
    ghost predicate Lawful() {
      && (forall i, j :: 0 <= i < j < |steps| ==> steps[i].completedBy != steps[j].completedBy)
      && (forall i :: 0 <= i < |steps| ==> steps[i].recorded(initial) == None)
      && !rolledBack(initial)
      && (forall s, e :: FoldsReply(s, e))
      && (forall s, at, reason :: FoldsFailed(s, at, reason))
      && (forall s, e :: FoldsUndo(s, e))
    }
  }

  datatype Action<E> = Replied(reply: E) | RolledBack(reason: string)

  /** What handling an action records: `Reply`'s events, or `Rollback`'s. The first is the
      reply or the failed event; the rest are undos. */
  function Events<S(!new), E(!new)>(pm: Manager<S, E>, state: S, action: Action<E>): (events: seq<E>)
    ensures |events| > 0
  {
    match action
    case Replied(reply) =>
      [reply] + if pm.rolledBack(state) then LateUndo(pm.steps, pm.typeOf(reply), reply) else []
    case RolledBack(reason) => [pm.failed(state, reason)] + Undos(pm.steps, |pm.steps|, state)
  }

  function FoldEvents<S(!new), E(!new)>(pm: Manager<S, E>, state: S, events: seq<E>): S
    decreases |events|
  {
    if events == [] then state else FoldEvents(pm, pm.apply(state, events[0]), events[1..])
  }

  datatype Progress<S, E> = Progress(state: S, issued: multiset<E>)

  /** The state after the first `n` actions, each handling's events folded, and every undo
      issued by then. */
  ghost function Run<S(!new), E(!new)>(pm: Manager<S, E>, actions: seq<Action<E>>, n: nat): Progress<S, E>
    requires n <= |actions|
  {
    if n == 0 then Progress(pm.initial, multiset{})
    else
      var p := Run(pm, actions, n - 1);
      var events := Events(pm, p.state, actions[n - 1]);
      Progress(FoldEvents(pm, p.state, events), p.issued + multiset(events[1..]))
  }

  /** Replies are of registered steps, each step's at most once. */
  ghost predicate RepliesOnce<S(!new), E(!new)>(pm: Manager<S, E>, actions: seq<Action<E>>) {
    && (forall i :: 0 <= i < |actions| && actions[i].Replied? ==>
          StepOf(pm.steps, 0, pm.typeOf(actions[i].reply)).Some?)
    && (forall i, j :: 0 <= i < j < |actions| && actions[i].Replied? && actions[j].Replied? ==>
          pm.typeOf(actions[i].reply) != pm.typeOf(actions[j].reply))
  }

  /** At most one rollback. */
  predicate RollsBackOnce<E>(actions: seq<Action<E>>) {
    forall i, j :: 0 <= i < j < |actions| ==> actions[i].Replied? || actions[j].Replied?
  }

  /** The reply of type `completedBy` among the first `n` actions. */
  function ReplyOf<S(!new), E(!new)>(pm: Manager<S, E>, actions: seq<Action<E>>, n: nat, completedBy: string): Option<E>
    requires n <= |actions|
  {
    if n == 0 then None
    else if actions[n - 1].Replied? && pm.typeOf(actions[n - 1].reply) == completedBy then Some(actions[n - 1].reply)
    else ReplyOf(pm, actions, n - 1, completedBy)
  }

  predicate RollsBack<E>(actions: seq<Action<E>>, n: nat)
    requires n <= |actions|
  {
    exists i :: 0 <= i < n && actions[i].RolledBack?
  }

  /** One undo for each of the first `k` steps whose reply is among the first `n` actions. */
  ghost function Owed<S(!new), E(!new)>(pm: Manager<S, E>, actions: seq<Action<E>>, n: nat, k: nat): multiset<E>
    requires n <= |actions| && k <= |pm.steps|
  {
    if k == 0 then multiset{}
    else
      var reply := ReplyOf(pm, actions, n, pm.steps[k - 1].completedBy);
      Owed(pm, actions, n, k - 1) + if reply.Some? then multiset{pm.steps[k - 1].undo(reply.value)} else multiset{}
  }

  lemma {:induction false} FoldUndos<S(!new), E(!new)>(pm: Manager<S, E>, state: S, undos: seq<E>)
    requires pm.Lawful() && forall u :: 0 <= u < |undos| ==> pm.IsUndo(undos[u])
    ensures pm.Same(state, FoldEvents(pm, state, undos))
    decreases |undos|
  {
    if undos == [] {
    } else {
      assert pm.FoldsUndo(state, undos[0]);
      FoldUndos(pm, pm.apply(state, undos[0]), undos[1..]);
    }
  }

  lemma {:induction false} UndosAreUndos<S(!new), E(!new)>(pm: Manager<S, E>, n: nat, state: S)
    requires n <= |pm.steps|
    ensures forall u :: 0 <= u < |Undos(pm.steps, n, state)| ==> pm.IsUndo(Undos(pm.steps, n, state)[u])
  {
    if n == 0 {
    } else {
      UndosAreUndos(pm, n - 1, state);
      var done := pm.steps[n - 1].recorded(state);
      if done.Some? {
        assert pm.IsUndo(pm.steps[n - 1].undo(done.value));
      }
    }
  }

  /** Handling an action folds to the journal with that action in it. */
  lemma HandlingKeepsJournal<S(!new), E(!new)>(pm: Manager<S, E>, s: S, action: Action<E>)
    requires pm.Lawful()
    requires action.Replied? ==> StepOf(pm.steps, 0, pm.typeOf(action.reply)).Some?
    ensures var after := FoldEvents(pm, s, Events(pm, s, action));
            && (pm.rolledBack(after) <==> action.RolledBack? || pm.rolledBack(s))
            && forall i :: 0 <= i < |pm.steps| ==>
                 pm.steps[i].recorded(after) ==
                 if action.Replied? && pm.typeOf(action.reply) == pm.steps[i].completedBy then Some(action.reply)
                 else pm.steps[i].recorded(s)
  {
    var events := Events(pm, s, action);
    assert forall u :: 0 <= u < |events[1..]| ==> pm.IsUndo(events[1..][u]) by {
      UndosAreUndos(pm, |pm.steps|, s);
      if action.Replied? {
        var at := StepOf(pm.steps, 0, pm.typeOf(action.reply));
        assert pm.IsUndo(pm.steps[at.value].undo(action.reply));
      }
    }
    match action {
      case Replied(reply) => assert pm.FoldsReply(s, reply);
      case RolledBack(reason) => assert pm.FoldsFailed(s, s, reason);
    }
    FoldUndos(pm, pm.apply(s, events[0]), events[1..]);
  }

  /** What the steps record, and whether the state is rolled back, are what was done. */
  ghost predicate Tells<S(!new), E(!new)>(pm: Manager<S, E>, actions: seq<Action<E>>, n: nat, s: S)
    requires n <= |actions|
  {
    && (pm.rolledBack(s) <==> RollsBack(actions, n))
    && forall i :: 0 <= i < |pm.steps| ==>
         pm.steps[i].recorded(s) == ReplyOf(pm, actions, n, pm.steps[i].completedBy)
  }

  lemma {:induction false} StateTellsActions<S(!new), E(!new)>(pm: Manager<S, E>, actions: seq<Action<E>>, n: nat)
    requires pm.Lawful() && RepliesOnce(pm, actions) && n <= |actions|
    ensures Tells(pm, actions, n, Run(pm, actions, n).state)
  {
    hide pm.Lawful, Events, FoldEvents;
    if n == 0 {
      InitiallyNothing(pm, actions);
    } else {
      StateTellsActions(pm, actions, n - 1);
      HandlingKeepsJournal(pm, Run(pm, actions, n - 1).state, actions[n - 1]);
      RollsBackMore(actions, n);
    }
  }

  lemma InitiallyNothing<S(!new), E(!new)>(pm: Manager<S, E>, actions: seq<Action<E>>)
    requires pm.Lawful()
    ensures Tells(pm, actions, 0, pm.initial)
  {
  }

  lemma RollsBackMore<E>(actions: seq<Action<E>>, n: nat)
    requires 0 < n <= |actions|
    ensures RollsBack(actions, n) <==> RollsBack(actions, n - 1) || actions[n - 1].RolledBack?
  {
  }

  lemma {:induction false} RollbackPaysOwed<S(!new), E(!new)>(
    pm: Manager<S, E>, actions: seq<Action<E>>, n: nat, s: S, k: nat)
    requires n <= |actions| && k <= |pm.steps|
    requires forall i :: 0 <= i < k ==> pm.steps[i].recorded(s) == ReplyOf(pm, actions, n, pm.steps[i].completedBy)
    ensures multiset(Undos(pm.steps, k, s)) == Owed(pm, actions, n, k)
  {
    if k == 0 {
    } else {
      RollbackPaysOwed(pm, actions, n, s, k - 1);
    }
  }

  /** What one more action adds to what the first `k` steps are owed: its own reply's undo. */
  ghost function Gained<S(!new), E(!new)>(pm: Manager<S, E>, action: Action<E>, k: nat): multiset<E>
    requires k <= |pm.steps|
  {
    if action.RolledBack? then multiset{}
    else
      var at := StepOf(pm.steps, 0, pm.typeOf(action.reply));
      if at.Some? && at.value < k then multiset{pm.steps[at.value].undo(action.reply)} else multiset{}
  }

  lemma {:induction false} OwedGrows<S(!new), E(!new)>(pm: Manager<S, E>, actions: seq<Action<E>>, n: nat, k: nat)
    requires pm.Lawful() && RepliesOnce(pm, actions) && n < |actions| && k <= |pm.steps|
    ensures Owed(pm, actions, n + 1, k) == Owed(pm, actions, n, k) + Gained(pm, actions[n], k)
  {
    hide pm.Lawful, Gained, RepliesOnce, ReplyOf;
    if k == 0 {
      GainedNothing(pm, actions[n]);
    } else {
      OwedGrows(pm, actions, n, k - 1);
      StepGains(pm, actions, n, k);
    }
  }

  lemma GainedNothing<S(!new), E(!new)>(pm: Manager<S, E>, action: Action<E>)
    ensures Gained(pm, action, 0) == multiset{}
  {
  }

  /** The step of its reply gains the undo of one more action, and no other step does. */
  lemma StepGains<S(!new), E(!new)>(pm: Manager<S, E>, actions: seq<Action<E>>, n: nat, k: nat)
    requires pm.Lawful() && RepliesOnce(pm, actions) && n < |actions| && 0 < k <= |pm.steps|
    ensures var step, gained := pm.steps[k - 1], Gained(pm, actions[n], k - 1);
            var before := ReplyOf(pm, actions, n, step.completedBy);
            var after := ReplyOf(pm, actions, n + 1, step.completedBy);
            if before == after then Gained(pm, actions[n], k) == gained
            else before.None? && after.Some? && gained == multiset{} &&
                 Gained(pm, actions[n], k) == multiset{step.undo(after.value)}
  {
    hide pm.Lawful, StepOf, RepliesOnce, ReplyOf;
    ReplyAdds(pm, actions, n, pm.steps[k - 1].completedBy);
    if actions[n].Replied? {
      CompletesOne(pm, k - 1, pm.typeOf(actions[n].reply));
      NotYetReplied(pm, actions, n, n);
    }
  }

  lemma ReplyAdds<S(!new), E(!new)>(pm: Manager<S, E>, actions: seq<Action<E>>, n: nat, completedBy: string)
    requires n < |actions|
    ensures ReplyOf(pm, actions, n + 1, completedBy) ==
            if actions[n].Replied? && pm.typeOf(actions[n].reply) == completedBy then Some(actions[n].reply)
            else ReplyOf(pm, actions, n, completedBy)
  {
  }

  lemma CompletesOne<S(!new), E(!new)>(pm: Manager<S, E>, i: nat, completedBy: string)
    requires pm.Lawful() && i < |pm.steps|
    ensures pm.steps[i].completedBy == completedBy <==> StepOf(pm.steps, 0, completedBy) == Some(i)
  {
    hide pm.FoldsReply, pm.FoldsFailed, pm.FoldsUndo;
  }

  lemma {:induction false} NotYetReplied<S(!new), E(!new)>(pm: Manager<S, E>, actions: seq<Action<E>>, n: nat, m: nat)
    requires RepliesOnce(pm, actions) && m <= n < |actions| && actions[n].Replied?
    ensures ReplyOf(pm, actions, m, pm.typeOf(actions[n].reply)) == None
  {
    if m == 0 {
    } else {
      NotYetReplied(pm, actions, n, m - 1);
    }
  }

  /** What is due after the first `n` actions: nothing before a rollback. */
  ghost function Due<S(!new), E(!new)>(pm: Manager<S, E>, actions: seq<Action<E>>, n: nat): multiset<E>
    requires n <= |actions|
  {
    if RollsBack(actions, n) then Owed(pm, actions, n, |pm.steps|) else multiset{}
  }

  /** What is due when the action `n` is handled, if that is a rollback. */
  ghost function DueAgain<S(!new), E(!new)>(pm: Manager<S, E>, actions: seq<Action<E>>, n: nat): multiset<E>
    requires n < |actions|
  {
    if actions[n].RolledBack? then Due(pm, actions, n) else multiset{}
  }

  /** What was due already at each rollback among the first `n` actions. */
  ghost function Repeated<S(!new), E(!new)>(pm: Manager<S, E>, actions: seq<Action<E>>, n: nat): multiset<E>
    requires n <= |actions|
  {
    if n == 0 then multiset{} else Repeated(pm, actions, n - 1) + DueAgain(pm, actions, n - 1)
  }

  /** What handling one more action issues is what it adds to what is due and, for a rollback,
      all that is due already. */
  lemma IssuesWhatIsOwed<S(!new), E(!new)>(pm: Manager<S, E>, actions: seq<Action<E>>, n: nat, s: S)
    requires pm.Lawful() && RepliesOnce(pm, actions) && n < |actions| && Tells(pm, actions, n, s)
    ensures multiset(Events(pm, s, actions[n])[1..]) + Due(pm, actions, n) ==
            Due(pm, actions, n + 1) + DueAgain(pm, actions, n)
  {
    hide pm.Lawful, Owed, ReplyOf, RollsBack;
    var all, action := |pm.steps|, actions[n];
    var issued := Events(pm, s, action)[1..];
    OwedGrows(pm, actions, n, all);
    RollsBackMore(actions, n + 1);
    match action
    case RolledBack(reason) =>
      RollbackPaysOwed(pm, actions, n, s, all);
      assert issued == Undos(pm.steps, all, s);
    case Replied(reply) =>
      assert issued == if pm.rolledBack(s) then LateUndo(pm.steps, pm.typeOf(reply), reply) else [];
  }

  /** What is undone, in every interleaving of replies, late replies and any number of
      rollbacks: nothing before the first; from it on one undo for each step completed so
      far, built from its own reply, and for each later rollback all that was due then once
      again. */
  lemma {:induction false} UndoneByEachRollback<S(!new), E(!new)>(pm: Manager<S, E>, actions: seq<Action<E>>, n: nat)
    requires pm.Lawful() && RepliesOnce(pm, actions) && n <= |actions|
    ensures Run(pm, actions, n).issued == Due(pm, actions, n) + Repeated(pm, actions, n)
  {
    hide pm.Lawful, Due, DueAgain, RepliesOnce, Events;
    if n == 0 {
      NothingDueYet(pm, actions);
    } else {
      UndoneByEachRollback(pm, actions, n - 1);
      StateTellsActions(pm, actions, n - 1);
      var s := Run(pm, actions, n - 1).state;
      IssuesWhatIsOwed(pm, actions, n - 1, s);
      Regroup(Due(pm, actions, n - 1), multiset(Events(pm, s, actions[n - 1])[1..]), Due(pm, actions, n),
              DueAgain(pm, actions, n - 1), Repeated(pm, actions, n - 1));
    }
  }

  lemma Regroup<E>(due: multiset<E>, issued: multiset<E>, next: multiset<E>, again: multiset<E>, repeated: multiset<E>)
    requires issued + due == next + again
    ensures (due + repeated) + issued == next + (repeated + again)
  {
    assert (due + repeated) + issued == (issued + due) + repeated;
  }

  /** So compensation is exactly once, given one rollback: before it nothing is undone; from
      it on, the undos issued are one for each step completed so far, and no other. */
  lemma UndoneExactlyOnce<S(!new), E(!new)>(pm: Manager<S, E>, actions: seq<Action<E>>, n: nat)
    requires pm.Lawful() && RepliesOnce(pm, actions) && RollsBackOnce(actions) && n <= |actions|
    ensures Run(pm, actions, n).issued ==
            if RollsBack(actions, n) then Owed(pm, actions, n, |pm.steps|) else multiset{}
  {
    hide pm.Lawful, Owed, RepliesOnce, Run, RollsBack;
    UndoneByEachRollback(pm, actions, n);
    NothingRepeated(pm, actions, n);
  }

  lemma {:induction false} NothingRepeated<S(!new), E(!new)>(pm: Manager<S, E>, actions: seq<Action<E>>, n: nat)
    requires RollsBackOnce(actions) && n <= |actions|
    ensures Repeated(pm, actions, n) == multiset{}
  {
    hide Owed;
    if n == 0 {
    } else {
      NothingRepeated(pm, actions, n - 1);
    }
  }

  lemma NothingDueYet<S(!new), E(!new)>(pm: Manager<S, E>, actions: seq<Action<E>>)
    ensures Due(pm, actions, 0) == multiset{}
  {
  }

  // -------------------------------------------------- a rollback restores the world

  /** What the undos do to the world, in the order they are issued. */
  function Enact<E, W>(enact: (E, W) -> W, events: seq<E>, w: W): W
    decreases |events|
  {
    if events == [] then w else Enact(enact, events[1..], enact(events[0], w))
  }

  /** What the completed among the first `n` steps did to the world, in registration order. */
  function Performed<S, E, W>(
    steps: seq<Step<S, E>>, n: nat, state: S, perform: (nat, E, W) -> W, w: W): W
    requires n <= |steps|
  {
    if n == 0 then w
    else
      var before := Performed(steps, n - 1, state, perform, w);
      var done := steps[n - 1].recorded(state);
      if done.Some? then perform(n - 1, done.value, before) else before
  }

  /** Each undo reverses what its step did. */
  ghost predicate Reverses<S, E(!new), W(!new)>(
    steps: seq<Step<S, E>>, perform: (nat, E, W) -> W, enact: (E, W) -> W)
  {
    forall i, e, w :: 0 <= i < |steps| ==> enact(steps[i].undo(e), perform(i, e, w)) == w
  }

  /** A rollback restores the world the completed steps, performed in registration order,
      changed. */
  lemma {:induction false} RollbackRestores<S, E(!new), W(!new)>(
    steps: seq<Step<S, E>>, n: nat, state: S, perform: (nat, E, W) -> W, enact: (E, W) -> W, w: W)
    requires n <= |steps| && Reverses(steps, perform, enact)
    ensures Enact(enact, Undos(steps, n, state), Performed(steps, n, state, perform, w)) == w
  {
    if n == 0 {
    } else {
      RollbackRestores(steps, n - 1, state, perform, enact, w);
      var done := steps[n - 1].recorded(state);
      var rest := Undos(steps, n - 1, state);
      if done.Some? {
        var undo := steps[n - 1].undo(done.value);
        assert ([undo] + rest)[1..] == rest;
      } else {
        assert Undos(steps, n, state) == rest;
      }
    }
  }

  /** What steps did to the world, in the order they were performed. */
  function PerformedIn<S, E, W>(
    steps: seq<Step<S, E>>, order: seq<nat>, state: S, perform: (nat, E, W) -> W, w: W): W
    requires forall k :: 0 <= k < |order| ==> order[k] < |steps| && steps[order[k]].recorded(state).Some?
    decreases |order|
  {
    if order == [] then w
    else
      var last := |order| - 1;
      var done := steps[order[last]].recorded(state).value;
      perform(order[last], done, PerformedIn(steps, order[..last], state, perform, w))
  }

  /** What any two of the steps do to the world, they do in either order. */
  ghost predicate Commutes<S, E(!new), W(!new)>(steps: seq<Step<S, E>>, perform: (nat, E, W) -> W) {
    forall i: nat, j: nat, d, e, w :: i < |steps| && j < |steps| && i != j ==>
      perform(i, d, perform(j, e, w)) == perform(j, e, perform(i, d, w))
  }

  /** `order` performs each completed step of the first `n`, once. */
  ghost predicate Enumerates<S, E>(steps: seq<Step<S, E>>, n: nat, state: S, order: seq<nat>)
    requires n <= |steps|
  {
    && (forall k :: 0 <= k < |order| ==> order[k] < n && steps[order[k]].recorded(state).Some?)
    && (forall j, k :: 0 <= j < k < |order| ==> order[j] != order[k])
    && (forall i :: 0 <= i < n && steps[i].recorded(state).Some? ==> i in order)
  }

  /** A step performed among others might as well have been performed last. */
  lemma {:induction false} PerformedLast<S, E(!new), W(!new)>(
    steps: seq<Step<S, E>>, order: seq<nat>, at: nat, state: S, perform: (nat, E, W) -> W, w: W)
    requires Commutes(steps, perform) && at < |order|
    requires forall k :: 0 <= k < |order| ==> order[k] < |steps| && steps[order[k]].recorded(state).Some?
    requires forall j, k :: 0 <= j < k < |order| ==> order[j] != order[k]
    ensures PerformedIn(steps, order, state, perform, w) ==
            perform(order[at], steps[order[at]].recorded(state).value,
                    PerformedIn(steps, order[..at] + order[at + 1..], state, perform, w))
    decreases |order|
  {
    hide Commutes, Performed;
    var last := |order| - 1;
    if at == last {
      assert order[..at] + order[at + 1..] == order[..last];
    } else {
      PerformedLast(steps, order[..last], at, state, perform, w);
      var others, fewer := order[..at] + order[at + 1..], order[..last][..at] + order[..last][at + 1..];
      assert others[..|others| - 1] == fewer;
      assert others[|others| - 1] == order[last];
      Swapped(steps, perform, order[last], order[at], steps[order[last]].recorded(state).value,
              steps[order[at]].recorded(state).value, PerformedIn(steps, fewer, state, perform, w));
    }
  }

  lemma Swapped<S, E(!new), W(!new)>(
    steps: seq<Step<S, E>>, perform: (nat, E, W) -> W, i: nat, j: nat, d: E, e: E, w: W)
    requires Commutes(steps, perform) && i < |steps| && j < |steps| && i != j
    ensures perform(i, d, perform(j, e, w)) == perform(j, e, perform(i, d, w))
  {
  }

  lemma OthersEnumerate<S, E>(steps: seq<Step<S, E>>, n: nat, state: S, order: seq<nat>) returns (at: nat)
    requires 0 < n <= |steps| && Enumerates(steps, n, state, order) && steps[n - 1].recorded(state).Some?
    ensures at < |order| && order[at] == n - 1
    ensures Enumerates(steps, n - 1, state, order[..at] + order[at + 1..])
    ensures forall k :: 0 <= k < |order| ==> order[k] < |steps| && steps[order[k]].recorded(state).Some?
    ensures forall j, k :: 0 <= j < k < |order| ==> order[j] != order[k]
  {
    assert n - 1 in order;
    at :| 0 <= at < |order| && order[at] == n - 1;
    OthersRemain(steps, n, state, order, at);
  }

  lemma OthersRemain<S, E>(steps: seq<Step<S, E>>, n: nat, state: S, order: seq<nat>, at: nat)
    requires 0 < n <= |steps| && Enumerates(steps, n, state, order) && at < |order| && order[at] == n - 1
    ensures Enumerates(steps, n - 1, state, order[..at] + order[at + 1..])
  {
    var others := order[..at] + order[at + 1..];
    forall k | 0 <= k < |others|
      ensures others[k] == order[if k < at then k else k + 1] && others[k] < n - 1
    {
      var from := if k < at then k else k + 1;
      assert if from < at then order[from] != order[at] else order[at] != order[from];
    }
    forall i | 0 <= i < n - 1 && steps[i].recorded(state).Some?
      ensures i in others
    {
      assert i in order;
      var k :| 0 <= k < |order| && order[k] == i;
      assert others[if k < at then k else k - 1] == i;
    }
  }

  lemma OthersSkip<S, E>(steps: seq<Step<S, E>>, n: nat, state: S, order: seq<nat>)
    requires n <= |steps| && Enumerates(steps, n, state, order)
    requires 0 < n ==> steps[n - 1].recorded(state).None?
    ensures n == 0 ==> order == []
    ensures 0 < n ==> Enumerates(steps, n - 1, state, order)
  {
    if order != [] {
      assert order[0] < n;
    }
  }

  lemma {:induction false} AnyOrderPerforms<S, E(!new), W(!new)>(
    steps: seq<Step<S, E>>, n: nat, state: S, order: seq<nat>, perform: (nat, E, W) -> W, w: W)
    requires n <= |steps| && Commutes(steps, perform) && Enumerates(steps, n, state, order)
    requires forall k :: 0 <= k < |order| ==> order[k] < |steps| && steps[order[k]].recorded(state).Some?
    ensures PerformedIn(steps, order, state, perform, w) == Performed(steps, n, state, perform, w)
  {
    hide Enumerates;
    if n == 0 {
      OthersSkip(steps, n, state, order);
    } else if steps[n - 1].recorded(state).Some? {
      var at := OthersEnumerate(steps, n, state, order);
      PerformedLast(steps, order, at, state, perform, w);
      AnyOrderPerforms(steps, n - 1, state, order[..at] + order[at + 1..], perform, w);
    } else {
      OthersSkip(steps, n, state, order);
      AnyOrderPerforms(steps, n - 1, state, order, perform, w);
    }
  }

  /** Where what the steps do commutes, a rollback restores the world whatever order the
      completed steps were performed in. */
  lemma RollbackRestoresAnyOrder<S, E(!new), W(!new)>(
    steps: seq<Step<S, E>>, state: S, order: seq<nat>, perform: (nat, E, W) -> W, enact: (E, W) -> W, w: W)
    requires Reverses(steps, perform, enact) && Commutes(steps, perform)
    requires Enumerates(steps, |steps|, state, order)
    ensures Enact(enact, Undos(steps, |steps|, state), PerformedIn(steps, order, state, perform, w)) == w
  {
    AnyOrderPerforms(steps, |steps|, state, order, perform, w);
    RollbackRestores(steps, |steps|, state, perform, enact, w);
  }
}
