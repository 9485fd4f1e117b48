/** A component's descriptor, built from its dispatch table, or the first rule of the
    coordinator's it would break. */
module Describe {
  import opened Prelude
  import Errors
  import opened Host

  /** A state message: its name alone, or its class, with the resolutions its option lists. */
  datatype StateMessage = Named(name: string) | Class(fullName: string, declared: seq<int>)

  datatype Source = Source(
    name: string, kind: Option<Kind>, rulesVersion: string, inputDomain: string, domains: seq<string>,
    outputDomain: string, factoryState: StateMessage)

  /** What `describe` is given beside the table. */
  datatype Given = Given(
    rulesVersion: Option<string>, stateType: Option<StateMessage>, resolutions: Option<seq<int>>,
    startingTypes: seq<string>)

  datatype StateDescriptor = StateDescriptor(typeUrl: string, resolutions: seq<int>)
  datatype Described = Described(
    name: string, kind: Kind, rulesVersion: string, inputs: seq<string>, startingTypes: seq<string>,
    outputDomain: string, state: Option<StateDescriptor>)

  datatype Reason =
    | MissingRulesVersion | StartingTypesOnNonPm | MissingStateType | StateOnStatelessKind
    | PolicyInputCount(count: nat) | PolicyNoOutputDomain | OutputDomainOnNonPolicy
    | ResolutionUnspecified | ProjectorNoInputDomain | NotATable

  const UNSPECIFIED := 0

  predicate Stateful(kind: Kind) {
    kind == Aggregate || kind == ProcessManager
  }

  function FullName(state: StateMessage): string {
    match state
    case Named(name) => Errors.TypeName(name)
    case Class(fullName, _) => fullName
  }

  function DeclaredResolutions(state: StateMessage): seq<int> {
    match state
    case Named(_) => []
    case Class(_, declared) => declared
  }

  function Inputs(source: Source, kind: Kind): seq<string> {
    match kind
    case Policy => if source.inputDomain != "" then [source.inputDomain] else []
    case Projector => source.domains
    case _ => []
  }

  /** The coordinator's first refusal of a descriptor, in its order. */
  function Refusal(d: Described): Option<Reason> {
    if d.rulesVersion == "" then Some(MissingRulesVersion)
    else if d.kind != ProcessManager && d.startingTypes != [] then Some(StartingTypesOnNonPm)
    else if Stateful(d.kind) && d.state.None? then Some(MissingStateType)
    else if !Stateful(d.kind) && d.state.Some? then Some(StateOnStatelessKind)
    else if d.kind == Policy then
      if |d.inputs| != 1 then Some(PolicyInputCount(|d.inputs|))
      else if d.outputDomain == "" then Some(PolicyNoOutputDomain)
      else None
    else if d.outputDomain != "" then Some(OutputDomainOnNonPolicy)
    else None
  }

  // --------------------------------------------------------- canonical resolutions

  predicate Ascending(xs: seq<int>) {
    forall i, j :: 0 <= i < j < |xs| ==> xs[i] < xs[j]
  }

  function Insert(xs: seq<int>, x: int): seq<int> {
    if xs == [] then [x]
    else if x < xs[0] then [x] + xs
    else if x == xs[0] then xs
    else [xs[0]] + Insert(xs[1..], x)
  }

  /** `sorted(set(xs))`. */
  function Canonical(xs: seq<int>): seq<int> {
    if xs == [] then [] else Insert(Canonical(xs[1..]), xs[0])
  }

  lemma {:induction false} InsertIsAscending(xs: seq<int>, x: int)
    requires Ascending(xs)
    ensures Ascending(Insert(xs, x))
    ensures forall y :: y in Insert(xs, x) <==> y in xs || y == x
    decreases |xs|
  {
    if xs == [] || x <= xs[0] {
    } else {
      var rest, more := xs[1..], Insert(xs[1..], x);
      InsertIsAscending(rest, x);
      forall i | 0 <= i < |more|
        ensures xs[0] < more[i]
      {
        assert more[i] in more;
        if more[i] != x {
          var k :| 0 <= k < |rest| && rest[k] == more[i];
          assert rest[k] == xs[k + 1];
        }
      }
      assert xs == [xs[0]] + rest && Insert(xs, x) == [xs[0]] + more;
    }
  }

  lemma {:induction false} CanonicalIsAscending(xs: seq<int>)
    ensures Ascending(Canonical(xs)) && forall y :: y in Canonical(xs) <==> y in xs
    decreases |xs|
  {
    if xs == [] {
    } else {
      CanonicalIsAscending(xs[1..]);
      InsertIsAscending(Canonical(xs[1..]), xs[0]);
    }
  }

  lemma SomeOf(a: seq<int>, b: seq<int>)
    requires forall y :: y in b ==> y in a
    ensures b != [] ==> a != []
  {
    if b != [] {
      var first := b[0];
      assert first in b;
      var k :| 0 <= k < |a| && a[k] == first;
    }
  }

  lemma {:induction false} AscendingIsUnique(a: seq<int>, b: seq<int>)
    requires Ascending(a) && Ascending(b) && forall y :: y in a <==> y in b
    ensures a == b
    decreases |a|
  {
    SomeOf(a, b);
    if a == [] {
    } else {
      assert a[0] in b && b[0] in a;
      assert a[0] == b[0];
      assert forall y :: y in a[1..] <==> y in a && y != a[0];
      assert forall y :: y in b[1..] <==> y in b && y != b[0];
      AscendingIsUnique(a[1..], b[1..]);
    }
  }

  /** The list depends on which resolutions are listed, not on their order or repetition. */
  lemma CanonicalForgetsOrder(a: seq<int>, b: seq<int>)
    ensures Canonical(a) == Canonical(b) <==> forall y :: y in a <==> y in b
  {
    CanonicalIsAscending(a);
    CanonicalIsAscending(b);
    if forall y :: y in a <==> y in b {
      AscendingIsUnique(Canonical(a), Canonical(b));
    }
  }

  // -------------------------------------------------------------------- describing

  /** The resolutions listed beside the base, where a state is described at all. */
  function Listed(source: Source, given: Given): seq<int> {
    if given.resolutions.Some? then given.resolutions.value
    else if given.stateType.Some? then DeclaredResolutions(given.stateType.value)
    else DeclaredResolutions(source.factoryState)
  }

  predicate DescribesState(kind: Kind, given: Given) {
    Stateful(kind) || given.stateType.Some? || given.resolutions.Some?
  }

  function Version(source: Source, given: Given): string {
    if given.rulesVersion.Some? then given.rulesVersion.value else source.rulesVersion
  }

  /** The first rule a component breaks, read off what is given. */
  function FirstBroken(source: Source, given: Given): Option<Reason> {
    if source.kind.None? then Some(NotATable)
    else
      var kind := source.kind.value;
      if DescribesState(kind, given) && UNSPECIFIED in Listed(source, given) then Some(ResolutionUnspecified)
      else if Version(source, given) == "" then Some(MissingRulesVersion)
      else if kind != ProcessManager && given.startingTypes != [] then Some(StartingTypesOnNonPm)
      else if !Stateful(kind) && DescribesState(kind, given) then Some(StateOnStatelessKind)
      else if kind == Policy && source.inputDomain == "" then Some(PolicyInputCount(0))
      else if kind == Policy && source.outputDomain == "" then Some(PolicyNoOutputDomain)
      else if kind == Projector && source.domains == [] then Some(ProjectorNoInputDomain)
      else None
  }

  /** A descriptor the coordinator accepts, or the first rule broken; the two reasons a
      described component cannot break are never given. */
  method DescribeComponent(source: Source, given: Given, base: seq<int>)
    returns (described: Result<Described, Reason>)
    ensures described.Err? <==> FirstBroken(source, given).Some?
    ensures described.Err? ==> described.error == FirstBroken(source, given).value
    ensures described.Err? ==> described.error != MissingStateType && described.error != OutputDomainOnNonPolicy
    ensures described.Ok? ==>
              var d := described.value;
              && Refusal(d).None? && source.kind == Some(d.kind) && d.name == source.name
              && d.rulesVersion ==
                 (if given.rulesVersion == None then source.rulesVersion else given.rulesVersion.value)
              && d.inputs == (if d.kind == Policy then [source.inputDomain]
                              else if d.kind == Projector then source.domains else [])
              && |d.startingTypes| == |given.startingTypes|
              && (forall i :: 0 <= i < |given.startingTypes| ==>
                    d.startingTypes[i] == Errors.TypeName(given.startingTypes[i]))
              && d.outputDomain == (if d.kind == Policy then source.outputDomain else "")
              && (d.state.Some? <==> Stateful(d.kind))
              && (d.state.Some? ==>
                    var state := if given.stateType == None then source.factoryState else given.stateType.value;
                    var listed := if given.resolutions != None then given.resolutions.value
                                  else if state.Named? then [] else state.declared;
                    && d.state.value.typeUrl ==
                       "/" + (if state.Named? then Errors.TypeName(state.name) else state.fullName)
                    && Ascending(d.state.value.resolutions)
                    && forall y :: y in d.state.value.resolutions <==> y in base || y in listed)
  {
    if source.kind.None? {
      return Err(NotATable);
    }
    var kind := source.kind.value;
    var types := given.startingTypes;
    var d := Described(
      source.name, kind, if given.rulesVersion.None? then source.rulesVersion else given.rulesVersion.value,
      Inputs(source, kind), seq(|types|, i requires 0 <= i < |types| => Errors.TypeName(types[i])),
      if kind == Policy then source.outputDomain else "", None);
    if Stateful(kind) || given.stateType.Some? || given.resolutions.Some? {
      var state := given.stateType;
      if state.None? && Stateful(kind) {
        state := Some(source.factoryState);
      }
      var listed;
      if given.resolutions.None? {
        listed := DeclaredResolutions(state.value);
      } else {
        listed := given.resolutions.value;
      }
      if UNSPECIFIED in listed {
        return Err(ResolutionUnspecified);
      }
      var typeUrl := if state.Some? then "/" + FullName(state.value) else "";
      d := d.(state := Some(StateDescriptor(typeUrl, Canonical(base + listed))));
      CanonicalIsAscending(base + listed);
    }
    var refused := Refusal(d);
    if refused.Some? {
      return Err(refused.value);
    }
    if kind == Projector && d.inputs == [] {
      return Err(ProjectorNoInputDomain);
    }
    described := Ok(d);
  }

  // ----------------------------------------------------------- the rules, one by one

  /** The rules in the order they are checked. */
  const ORDER := [
    NotATable, ResolutionUnspecified, MissingRulesVersion, StartingTypesOnNonPm, StateOnStatelessKind,
    PolicyInputCount(0), PolicyNoOutputDomain, ProjectorNoInputDomain]

  /** Whether what is given breaks a rule, the others aside. */
  predicate Breaks(source: Source, given: Given, reason: Reason) {
    var kind := if source.kind == None then Aggregate else source.kind.value;
    var stateless := kind in {Policy, Projector};
    var described := !stateless || given.stateType != None || given.resolutions != None;
    var state := if given.stateType == None then source.factoryState else given.stateType.value;
    match reason
    case NotATable => source.kind == None
    case ResolutionUnspecified =>
      described &&
      if given.resolutions != None then 0 in given.resolutions.value else state.Class? && 0 in state.declared
    case MissingRulesVersion =>
      given.rulesVersion == Some("") || (given.rulesVersion == None && source.rulesVersion == "")
    case StartingTypesOnNonPm => kind != ProcessManager && |given.startingTypes| > 0
    case StateOnStatelessKind => stateless && described
    case PolicyInputCount(count) => kind == Policy && source.inputDomain == "" && count == 0
    case PolicyNoOutputDomain => kind == Policy && source.outputDomain == ""
    case ProjectorNoInputDomain => kind == Projector && |source.domains| == 0
    case MissingStateType => false
    case OutputDomainOnNonPolicy => false
  }

  /** A component is described exactly where it breaks no rule, and is refused for the first
      in their order that it breaks. */
  lemma FirstIsBroken(source: Source, given: Given)
    ensures FirstBroken(source, given).None? <==> forall i :: 0 <= i < |ORDER| ==> !Breaks(source, given, ORDER[i])
    ensures FirstBroken(source, given).Some? ==>
              exists i :: 0 <= i < |ORDER| && FirstBroken(source, given) == Some(ORDER[i]) &&
                Breaks(source, given, ORDER[i]) && forall j :: 0 <= j < i ==> !Breaks(source, given, ORDER[j])
  {
    hide Breaks, FirstBroken;
    BreaksInOrder(source, given);
  }

  lemma BreaksInOrder(source: Source, given: Given)
    ensures FirstBroken(source, given) ==
            if Breaks(source, given, ORDER[0]) then Some(ORDER[0])
            else if Breaks(source, given, ORDER[1]) then Some(ORDER[1])
            else if Breaks(source, given, ORDER[2]) then Some(ORDER[2])
            else if Breaks(source, given, ORDER[3]) then Some(ORDER[3])
            else if Breaks(source, given, ORDER[4]) then Some(ORDER[4])
            else if Breaks(source, given, ORDER[5]) then Some(ORDER[5])
            else if Breaks(source, given, ORDER[6]) then Some(ORDER[6])
            else if Breaks(source, given, ORDER[7]) then Some(ORDER[7])
            else None
  {
  }

  /** What the coordinator accepts. */
  lemma AcceptedExactly(d: Described)
    ensures Refusal(d).None? <==>
            && d.rulesVersion != ""
            && (d.startingTypes == [] || d.kind == ProcessManager)
            && (d.state != None <==> d.kind in {Aggregate, ProcessManager})
            && (if d.kind == Policy then |d.inputs| == 1 && d.outputDomain != "" else d.outputDomain == "")
  {
  }
}
