/** A component host: registration of the one component it serves, its start and stop, and the
    readiness supervisor that publishes its health between them. */
module Host {
  import opened Prelude
  import opened Errors
  import Dispatch

  datatype Kind = Aggregate | ProcessManager | Policy | Projector

  const COMPONENT_SERVICE := "io.angzarr.component.v1.ComponentService"
  const COMMAND_HANDLER_SERVICE := "io.angzarr.component.v1.CommandHandlerService"
  const POLICY_SERVICE := "io.angzarr.component.v1.PolicyService"
  const PROJECTOR_SERVICE := "io.angzarr.component.v1.ProjectorService"
  const UPCASTER_SERVICE := "io.angzarr.component.v1.UpcasterService"

  function ServiceOf(kind: Kind): string {
    match kind
    case Aggregate | ProcessManager => COMMAND_HANDLER_SERVICE
    case Policy => POLICY_SERVICE
    case Projector => PROJECTOR_SERVICE
  }

  datatype Error =
    | VersionMismatch | NoDomains | NoInputDomain | DuplicateComponent | UpcasterWithComponent
    | NoComponents | AlreadyStarted | NotBound | ServiceUnnamed
    | NoHandlersRegistered | NoComponentOfKind

  type Request = Dispatch.ContextualCommand
  type Answered = Result<Dispatch.Response, CodedError>

  /** A dispatch table, of any kind. `domains` is None for one that has no such field, as only
      a projector's has; `handle` is what a table that takes commands answers, reporting the
      version it is given. */
  datatype Table = Table(
    name: string, kind: Kind, domains: Option<seq<string>>, rulesVersion: string, handle: (string, Request) -> Answered)

  /** The table of a component whose commands are answered by a dispatch. */
  function Tabled<S(!new)>(name: string, kind: Kind, dispatch: Dispatch.Table<S>): Table {
    Table(name, kind, None, dispatch.rulesVersion,
          (version, request) => Dispatch.Answer(dispatch.(rulesVersion := version), request))
  }

  datatype Descriptor = Descriptor(name: string, rulesVersion: string, inputs: seq<string>)

  /** What `router.dispatch` answers: the hosted table's own answer, where one is hosted that
      takes commands. */
  function Delivered(hosted: Option<Table>, request: Request): Answered {
    if hosted.None? then Err(Keyed(NO_HANDLERS_REGISTERED, map[]))
    else if hosted.value.kind !in {Aggregate, ProcessManager} then Err(Keyed(NO_COMPONENT_OF_KIND, map[]))
    else hosted.value.handle(hosted.value.rulesVersion, request)
  }

  datatype Status = Serving | NotServing
  type History = map<string, seq<Status>>

  // ------------------------------------------------------------------ health histories

  function Published(history: History, name: string, status: Status): History {
    history[name := (if name in history then history[name] else []) + [status]]
  }

  /** `status` published under each of the first `n` names, in order. */
  function PublishedTo(history: History, names: seq<string>, n: nat, status: Status): History
    requires n <= |names|
  {
    if n == 0 then history else Published(PublishedTo(history, names, n - 1, status), names[n - 1], status)
  }

  // ---------------------------------------------------------------------- the host's state

  /** A host. `kind`, `descriptor` and `hosted` are the one component's; `refused` names the
      surplus; `health` is None before a start got as far as publishing; `supervised` holds
      the names a running supervisor publishes to. */
  datatype State = State(
    rulesVersion: string, ownsRouter: bool, hosted: Option<Table>,
    kind: Option<string>, descriptor: Option<Descriptor>, componentName: Option<string>,
    refused: seq<string>, upcaster: bool, apps: seq<string>,
    running: bool, stopped: bool, health: Option<History>, supervised: seq<string>)
  {
    /** Every name health is published under: the overall server, then every service. */
    function Names(): seq<string> {
      [""]
      + (if kind.Some? then [COMPONENT_SERVICE, kind.value] else [])
      + (if upcaster then [UPCASTER_SERVICE] else [])
      + apps
    }

    predicate Serves(name: string) {
      || name == ""
      || (kind.Some? && (name == COMPONENT_SERVICE || name == kind.value))
      || (upcaster && name == UPCASTER_SERVICE)
      || name in apps
    }
  }

  /** A fresh host over a fresh router. */
  function Fresh(rulesVersion: string, ownsRouter: bool): State {
    State(rulesVersion, ownsRouter, None, None, None, None, [], false, [], false, false, None, [])
  }

  /** What is asked of a host, by its application or by its event loop: a table is added by
      the method of a kind, which may not be the table's; a start may fail to bind; a tick of
      the supervisor has each probe's result, and is cancelled once it has published to some
      of its names. */
  datatype Event =
    | Add(via: Kind, table: Table, descriptor: Descriptor)
    | AddUpcaster
    | AddService(name: string)
    | Start(binds: bool)
    | Tick(probes: seq<bool>, upTo: nat)
    | Stop

  function Reported(h: State, table: Table): string {
    if table.rulesVersion != "" then table.rulesVersion else h.rulesVersion
  }

  /** What is wrong with a table and its descriptor, added to a host by the method of a kind. */
  function Misfit(h: State, via: Kind, table: Table, descriptor: Descriptor): Option<Error> {
    if descriptor.rulesVersion != Reported(h, table) then Some(VersionMismatch)
    else if via == Projector && table.domains.None? then Some(NoDomains)
    else if via == Projector && (table.domains.value == [] || descriptor.inputs == []) then Some(NoInputDomain)
    else None
  }

  /** A host whose router holds another's table claims a component it cannot host. */
  predicate Occupied(h: State) {
    h.componentName.None? && h.hosted.Some?
  }

  function AddRefusal(h: State, via: Kind, table: Table, descriptor: Descriptor): Option<Error> {
    if Misfit(h, via, table, descriptor).Some? then Misfit(h, via, table, descriptor)
    else if Occupied(h) then Some(DuplicateComponent)
    else None
  }

  function Added(h: State, via: Kind, table: Table, descriptor: Descriptor): State {
    if Misfit(h, via, table, descriptor).Some? then h else Accepted(h, via, table, descriptor)
  }

  function Accepted(h: State, via: Kind, table: Table, descriptor: Descriptor): State {
    if Occupied(h) then h.(componentName := Some(table.name))
    else if h.componentName.Some? then h.(refused := h.refused + [table.name])
    else
      h.(componentName := Some(table.name), kind := Some(ServiceOf(via)), descriptor := Some(descriptor),
         hosted := Some(table.(rulesVersion := Reported(h, table))))
  }

  function StartRefusal(h: State): Option<Error> {
    if h.kind.Some? && h.upcaster then Some(UpcasterWithComponent)
    else if h.kind.None? && !h.upcaster then Some(NoComponents)
    else if h.refused != [] then Some(DuplicateComponent)
    else if h.running then Some(AlreadyStarted)
    else None
  }

  function AllHold(probes: seq<bool>): bool {
    forall i :: 0 <= i < |probes| ==> probes[i]
  }

  function Stopping(h: State): State {
    if h.stopped then h
    else
      var health :=
        if h.running && h.health.Some? then Some(PublishedTo(h.health.value, h.Names(), |h.Names()|, NotServing))
        else h.health;
      h.(stopped := true, running := false, health := health, hosted := if h.ownsRouter then None else h.hosted)
  }

  function Next(h: State, e: Event): State {
    match e
    case Add(via, table, descriptor) => Added(h, via, table, descriptor)
    case AddUpcaster => h.(upcaster := true)
    case AddService(name) => if name == "" then h else h.(apps := h.apps + [name])
    case Start(binds) =>
      if StartRefusal(h).Some? then h
      else
        h.(health := Some(PublishedTo(map[], h.Names(), |h.Names()|, NotServing)),
           supervised := h.Names(), running := binds)
    case Tick(probes, upTo) =>
      if !h.running || h.health.None? then h
      else
        var status := if AllHold(probes) then Serving else NotServing;
        h.(health := Some(PublishedTo(h.health.value, h.supervised, Min(upTo, |h.supervised|), status)))
    case Stop => Stopping(h)
  }

  /** The state after the first `n` of what is asked of a fresh host. */
  function Run(rulesVersion: string, ownsRouter: bool, events: seq<Event>, n: nat): State
    requires n <= |events|
  {
    if n == 0 then Fresh(rulesVersion, ownsRouter)
    else Next(Run(rulesVersion, ownsRouter, events, n - 1), events[n - 1])
  }

  // ------------------------------------------------------------------- the classes

  class RecordingHealth {
    var history: History

    constructor ()
      ensures history == map[]
    {
      history := map[];
    }

    method Set(name: string, status: Status)
      modifies this
      ensures history == Published(old(history), name, status)
      ensures history.Keys == old(history).Keys + {name}
      ensures history[name] == (if name in old(history) then old(history)[name] else []) + [status]
      ensures forall other :: other in old(history) && other != name ==> history[other] == old(history)[other]
    {
      if name !in history {
        history := history[name := []];
      }
      history := history[name := history[name] + [status]];
    }

    method SetAll(names: seq<string>, n: nat, status: Status)
      requires n <= |names|
      modifies this
      ensures history == PublishedTo(old(history), names, n, status)
    {
      for i := 0 to n
        invariant history == PublishedTo(old(history), names, i, status)
      {
        Set(names[i], status);
      }
    }
  }

  class Router {
    var component: Option<Table>

    constructor ()
      ensures component == None
    {
      component := None;
    }

    method Register(table: Table) returns (error: Option<Error>)
      modifies this
      ensures error == if old(component).Some? then Some(DuplicateComponent) else None
      ensures component == if old(component).Some? then old(component) else Some(table)
    {
      if component.Some? {
        return Some(DuplicateComponent);
      }
      component := Some(table);
      error := None;
    }

    method Close()
      modifies this
      ensures component == None
    {
      component := None;
    }

    /** The component a delivery for one of `kinds` goes to. */
    method Hosted(kinds: set<Kind>) returns (r: Result<Table, Error>)
      ensures r.Ok? <==> component.Some? && component.value.kind in kinds
      ensures r.Ok? ==> component == Some(r.value)
      ensures r.Err? ==> r.error == if component.None? then NoHandlersRegistered else NoComponentOfKind
    {
      if component.None? {
        return Err(NoHandlersRegistered);
      }
      if component.value.kind !in kinds {
        return Err(NoComponentOfKind);
      }
      r := Ok(component.value);
    }

    /** One command or fact, answered by the hosted component. */
    method Deliver(request: Request) returns (answer: Answered)
      ensures answer == Delivered(component, request)
      ensures component == None ==>
                answer == Err(CodedError("ROUTER_REASON_NO_HANDLERS_REGISTERED", None, map[], None))
      ensures component.Some? && component.value.kind in {Policy, Projector} ==>
                answer == Err(CodedError("ROUTER_REASON_NO_COMPONENT_OF_KIND", None, map[], None))
      ensures component.Some? && component.value.kind in {Aggregate, ProcessManager} ==>
                answer == component.value.handle(component.value.rulesVersion, request)
    {
      var hosted := Hosted({Aggregate, ProcessManager});
      match hosted {
        case Ok(table) => answer := table.handle(table.rulesVersion, request);
        case Err(NoHandlersRegistered) => answer := Err(Keyed(NO_HANDLERS_REGISTERED, map[]));
        case Err(_) => answer := Err(Keyed(NO_COMPONENT_OF_KIND, map[]));
      }
    }
  }

  class ComponentHost {
    const router: Router
    const ownsRouter: bool
    const rulesVersion: string
    var kind: Option<string>
    var descriptor: Option<Descriptor>
    var componentName: Option<string>
    var refused: seq<string>
    var upcaster: bool
    var apps: seq<string>
    var running: bool
    var stopped: bool
    var health: RecordingHealth?
    var supervised: seq<string>

    function View(): State
      reads this, router, health
    {
      State(rulesVersion, ownsRouter, router.component, kind, descriptor, componentName, refused, upcaster, apps,
            running, stopped, if health == null then None else Some(health.history), supervised)
    }

    constructor (router: Router, ownsRouter: bool, rulesVersion: string)
      ensures this.router == router
      ensures View() == Fresh(rulesVersion, ownsRouter).(hosted := router.component)
    {
      this.router, this.ownsRouter, this.rulesVersion := router, ownsRouter, rulesVersion;
      kind, descriptor, componentName, refused, upcaster, apps := None, None, None, [], false, [];
      running, stopped, health, supervised := false, false, null, [];
    }

    /** Takes the first name claimed; keeps the others as surplus. */
    method Claim(name: string) returns (claimed: bool)
      modifies this
      ensures claimed == old(componentName).None?
      ensures View() == if claimed then old(View()).(componentName := Some(name))
                        else old(View()).(refused := old(refused) + [name])
      ensures health == old(health)
    {
      claimed := componentName.None?;
      if claimed {
        componentName := Some(name);
      } else {
        refused := refused + [name];
      }
    }

    /** Adds a table by the method of a kind. */
    method AddComponent(via: Kind, table: Table, description: Descriptor) returns (error: Option<Error>)
      modifies this, router
      ensures View() == Added(old(View()), via, table, description)
      ensures error == AddRefusal(old(View()), via, table, description)
      ensures error.Some? && error != Some(DuplicateComponent) ==> View() == old(View())
      ensures error == Some(DuplicateComponent) ==> View() == old(View()).(componentName := Some(table.name))
      ensures error == None && old(componentName) != None ==>
                View() == old(View()).(refused := old(refused) + [table.name])
      ensures error == None && old(componentName) == None ==>
                && router.component == Some(table.(rulesVersion := description.rulesVersion))
                && componentName == Some(table.name) && kind == Some(ServiceOf(via)) && descriptor == Some(description)
                && View() == old(View()).(hosted := router.component, componentName := componentName, kind := kind,
                                          descriptor := descriptor)
      ensures health == old(health)
    {
      hide ServiceOf, Accepted;
      var reported := if table.rulesVersion != "" then table.rulesVersion else rulesVersion;
      if description.rulesVersion != reported {
        return Some(VersionMismatch);
      }
      if via == Projector {
        if table.domains.None? {
          return Some(NoDomains);
        }
        if !(table.domains.value != [] && description.inputs != []) {
          return Some(NoInputDomain);
        }
      }
      error := Accept(via, table, description);
      AcceptedIs(old(View()), via, table, description);
    }

    /** Hosts an acceptable table, unless one is hosted already. */
    method Accept(via: Kind, table: Table, description: Descriptor) returns (error: Option<Error>)
      modifies this, router
      ensures View() == Accepted(old(View()), via, table, description)
      ensures error == if Occupied(old(View())) then Some(DuplicateComponent) else None
      ensures health == old(health)
    {
      hide ServiceOf;
      var claimed := Claim(table.name);
      error := None;
      if claimed {
        var versioned :=
          if rulesVersion != "" && table.rulesVersion == "" then table.(rulesVersion := rulesVersion) else table;
        error := router.Register(versioned);
        if error.None? {
          kind, descriptor := Some(ServiceOf(via)), Some(description);
        }
      }
    }

    method AddUpcaster()
      modifies this
      ensures View() == Next(old(View()), Event.AddUpcaster) && health == old(health)
    {
      upcaster := true;
    }

    method AddService(name: string) returns (error: Option<Error>)
      modifies this
      ensures View() == Next(old(View()), Event.AddService(name)) && health == old(health)
      ensures error == if name == "" then Some(ServiceUnnamed) else None
    {
      if name == "" {
        return Some(ServiceUnnamed);
      }
      apps := apps + [name];
      error := None;
    }

    method StartServing(binds: bool) returns (error: Option<Error>)
      modifies this
      ensures View() == Next(old(View()), Start(binds))
      ensures error == if StartRefusal(old(View())).Some? then StartRefusal(old(View()))
                       else if binds then None else Some(NotBound)
      ensures health == old(health) || fresh(health)
    {
      if kind.Some? && upcaster {
        return Some(UpcasterWithComponent);
      }
      if kind.None? && !upcaster {
        return Some(NoComponents);
      }
      if refused != [] {
        return Some(DuplicateComponent);
      }
      if running {
        return Some(AlreadyStarted);
      }
      var names := View().Names();
      var recording := new RecordingHealth();
      recording.SetAll(names, |names|, NotServing);
      health, supervised := recording, names;
      running := binds;
      error := if binds then None else Some(NotBound);
    }

    /** One round of the supervisor's loop, cancelled once it has published `upTo` times. */
    method SupervisorTick(probes: seq<bool>, upTo: nat)
      requires running && health != null
      modifies health
      ensures View() == Next(old(View()), Tick(probes, upTo))
    {
      var allOk := true;
      for i := 0 to |probes|
        invariant allOk == AllHold(probes[..i])
      {
        if !probes[i] {
          allOk := false;
        }
        assert probes[..i + 1] == probes[..i] + [probes[i]];
      }
      assert probes[..|probes|] == probes;
      health.SetAll(supervised, Min(upTo, |supervised|), if allOk then Serving else NotServing);
    }

    method StopServing()
      modifies this, router, health
      ensures View() == Next(old(View()), Stop)
      ensures health == old(health)
    {
      if stopped {
        return;
      }
      if running {
        if health != null {
          var names := View().Names();
          health.SetAll(names, |names|, NotServing);
        }
        running := false;
      }
      if ownsRouter {
        router.Close();
      }
      stopped := true;
    }
  }

  // ------------------------------------------------------- one component, one version

  /** What registration keeps: a hosted table is of the described version and the claimed
      name, and a kind is served exactly once a component is claimed and described. */
  predicate Registered(h: State) {
    && (h.hosted.Some? ==> h.descriptor.Some? && h.kind.Some?)
    && (h.hosted.Some? ==> h.hosted.value.rulesVersion == h.descriptor.value.rulesVersion
                           && h.componentName == Some(h.hosted.value.name))
    && (h.descriptor.Some? <==> h.kind.Some?)
    && (h.descriptor.Some? <==> h.componentName.Some?)
  }

  lemma NextStaysRegistered(h: State, e: Event)
    requires Registered(h)
    ensures Registered(Next(h, e)) && KeepsComponent(h, Next(h, e))
  {
    hide PublishedTo, h.Names;
  }

  lemma {:induction false} RunStaysRegistered(rulesVersion: string, ownsRouter: bool, events: seq<Event>, n: nat)
    requires n <= |events|
    ensures Registered(Run(rulesVersion, ownsRouter, events, n))
  {
    hide Next;
    if n == 0 {
    } else {
      RunStaysRegistered(rulesVersion, ownsRouter, events, n - 1);
      NextStaysRegistered(Run(rulesVersion, ownsRouter, events, n - 1), events[n - 1]);
    }
  }

  /** What an event leaves of the component registered before it. */
  ghost predicate KeepsComponent(before: State, after: State) {
    && (before.descriptor.Some? ==> after.descriptor == before.descriptor && after.kind == before.kind)
    && (before.hosted.Some? ==> after.hosted == before.hosted || after.hosted.None?)
    && (before.descriptor.Some? && before.hosted.None? ==> after.hosted.None?)
  }

  /** Over every sequence of registrations, starts and stops, a component once registered is
      the one hosted and described from then on, until an owned router is closed; surplus
      and refused registrations change neither. */
  lemma {:induction false} OneComponentForGood(
    rulesVersion: string, ownsRouter: bool, events: seq<Event>, m: nat, n: nat)
    requires m <= n <= |events|
    ensures KeepsComponent(Run(rulesVersion, ownsRouter, events, m), Run(rulesVersion, ownsRouter, events, n))
  {
    hide Next;
    if m == n {
    } else {
      OneComponentForGood(rulesVersion, ownsRouter, events, m, n - 1);
      RunStaysRegistered(rulesVersion, ownsRouter, events, m);
      RunStaysRegistered(rulesVersion, ownsRouter, events, n - 1);
      NextStaysRegistered(Run(rulesVersion, ownsRouter, events, n - 1), events[n - 1]);
    }
  }

  /** Whether an event adds a table the host accepts, to host it or as surplus. */
  predicate Accepts(h: State, e: Event) {
    e.Add? && AddRefusal(h, e.via, e.table, e.descriptor).None?
  }

  /** Whether an event registers the host's component: the first table it accepts. */
  predicate Registers(h: State, e: Event) {
    Accepts(h, e) && h.componentName.None?
  }

  /** Whether a host's component is what an event registered. */
  ghost predicate Holds(h: State, e: Event) {
    && e.Add?
    && h.hosted == Some(e.table.(rulesVersion := e.descriptor.rulesVersion))
    && h.descriptor == Some(e.descriptor)
    && h.kind == Some(ServiceOf(e.via))
  }

  lemma NextHolds(h: State, e: Event)
    requires Registered(h) && Next(h, e).hosted.Some?
    ensures var next := Next(h, e);
            if h.hosted.Some? then next.hosted == h.hosted && next.descriptor == h.descriptor && next.kind == h.kind
            else Registers(h, e) && Holds(next, e)
  {
    hide PublishedTo, h.Names, ServiceOf;
  }

  /** Over every run, what is hosted is the table of the one event that registered it, at the
      described version, beside that event's descriptor; the service it is served under is
      that of the method which added it. */
  lemma {:induction false} HostedIsRegistered(rulesVersion: string, ownsRouter: bool, events: seq<Event>, n: nat)
    requires n <= |events| && Run(rulesVersion, ownsRouter, events, n).hosted.Some?
    ensures exists m :: 0 <= m < n && Registers(Run(rulesVersion, ownsRouter, events, m), events[m])
                        && Holds(Run(rulesVersion, ownsRouter, events, n), events[m])
  {
    hide Next, Registers, Registered, ServiceOf;
    if n == 0 {
    } else {
      var h := Run(rulesVersion, ownsRouter, events, n - 1);
      RunStaysRegistered(rulesVersion, ownsRouter, events, n - 1);
      NextHolds(h, events[n - 1]);
      if h.hosted.Some? {
        HostedIsRegistered(rulesVersion, ownsRouter, events, n - 1);
        var m :|
          0 <= m < n - 1 && Registers(Run(rulesVersion, ownsRouter, events, m), events[m]) && Holds(h, events[m]);
        assert Holds(Run(rulesVersion, ownsRouter, events, n), events[m]);
      }
    }
  }

  /** At most one event of a run registers a component. */
  lemma RegistersOnce(rulesVersion: string, ownsRouter: bool, events: seq<Event>, i: nat, j: nat)
    requires i < j < |events| && Registers(Run(rulesVersion, ownsRouter, events, i), events[i])
    ensures !Registers(Run(rulesVersion, ownsRouter, events, j), events[j])
  {
    hide Next, Registers;
    RegistrationDescribes(Run(rulesVersion, ownsRouter, events, i), events[i]);
    OneComponentForGood(rulesVersion, ownsRouter, events, i + 1, j);
    RunStaysRegistered(rulesVersion, ownsRouter, events, j);
    DescribedIsClaimed(Run(rulesVersion, ownsRouter, events, j), events[j]);
  }

  lemma RegistrationDescribes(h: State, e: Event)
    requires Registers(h, e)
    ensures Next(h, e).descriptor.Some?
  {
    hide PublishedTo;
  }

  lemma DescribedIsClaimed(h: State, e: Event)
    requires Registered(h) && h.descriptor.Some?
    ensures !Registers(h, e)
  {
  }

  /** The service a host is served under is its table's own exactly when the table was added
      by the method of its kind, or of the other kind that takes commands. */
  lemma ServedKindIsHosted(rulesVersion: string, ownsRouter: bool, events: seq<Event>, n: nat)
    requires n <= |events| && Run(rulesVersion, ownsRouter, events, n).hosted.Some?
    ensures var h := Run(rulesVersion, ownsRouter, events, n);
            exists m :: 0 <= m < n && Registers(Run(rulesVersion, ownsRouter, events, m), events[m])
                        && (h.kind == Some(ServiceOf(h.hosted.value.kind)) <==>
                              || events[m].via == events[m].table.kind
                              || {events[m].via, events[m].table.kind} == {Aggregate, ProcessManager})
  {
    hide Run, Registers;
    HostedIsRegistered(rulesVersion, ownsRouter, events, n);
    var h := Run(rulesVersion, ownsRouter, events, n);
    var m :| 0 <= m < n && Registers(Run(rulesVersion, ownsRouter, events, m), events[m]) && Holds(h, events[m]);
    ServicesTellKinds(events[m].via, events[m].table.kind);
  }

  lemma ServicesTellKinds(a: Kind, b: Kind)
    ensures ServiceOf(a) == ServiceOf(b) <==> a == b || {a, b} == {Aggregate, ProcessManager}
  {
    assert COMMAND_HANDLER_SERVICE[24] != POLICY_SERVICE[24];
    assert COMMAND_HANDLER_SERVICE[24] != PROJECTOR_SERVICE[24];
    assert |POLICY_SERVICE| < |PROJECTOR_SERVICE|;
  }

  /** The kinds need not agree: an aggregate's table added as a policy's is accepted, hosted
      and served under the policies' service, while it takes only commands. */
  lemma KindsMayDiffer(table: Table, descriptor: Descriptor)
    requires table.kind == Aggregate && table.rulesVersion == descriptor.rulesVersion != ""
    ensures var h := Run("", true, [Add(Policy, table, descriptor)], 1);
            && h.hosted == Some(table) && h.kind == Some(POLICY_SERVICE)
            && forall request :: Delivered(h.hosted, request) == table.handle(table.rulesVersion, request)
  {
    var events := [Add(Policy, table, descriptor)];
    assert Run("", true, events, 1) == Next(Run("", true, events, 0), events[0]);
  }

  /** The services, by name: an aggregate's and a process manager's are the same. */
  lemma ServicesAre()
    ensures ServiceOf(Aggregate) == ServiceOf(ProcessManager) == "io.angzarr.component.v1.CommandHandlerService"
    ensures ServiceOf(Policy) == "io.angzarr.component.v1.PolicyService"
    ensures ServiceOf(Projector) == "io.angzarr.component.v1.ProjectorService"
  {
  }

  /** What an acceptable table leaves of a host: one over another's table only claims a name,
      one that claimed a component remembers a surplus, and any other hosts it. */
  lemma AcceptedIs(h: State, via: Kind, table: Table, descriptor: Descriptor)
    requires descriptor.rulesVersion == Reported(h, table)
    ensures var after := Accepted(h, via, table, descriptor);
            && (h.componentName == None && h.hosted.Some? ==> after == h.(componentName := Some(table.name)))
            && (h.componentName != None ==> after == h.(refused := h.refused + [table.name]))
            && (h.componentName == None && h.hosted.None? ==>
                  after == h.(componentName := Some(table.name), kind := Some(ServiceOf(via)),
                              descriptor := Some(descriptor),
                              hosted := Some(table.(rulesVersion := descriptor.rulesVersion))))
  {
  }

  /** Why a registration is refused, each reason exactly where those before it do not apply. */
  lemma AddRefusedExactly(h: State, via: Kind, table: Table, descriptor: Descriptor)
    ensures var refusal := AddRefusal(h, via, table, descriptor);
            var reported := if table.rulesVersion == "" then h.rulesVersion else table.rulesVersion;
            var matches := descriptor.rulesVersion == reported;
            var named := table.domains != None && table.domains.value != [] && descriptor.inputs != [];
            && (refusal == Some(VersionMismatch) <==> !matches)
            && (refusal == Some(NoDomains) <==> matches && via == Projector && table.domains == None)
            && (refusal == Some(NoInputDomain) <==> matches && via == Projector && table.domains != None && !named)
            && (refusal == Some(DuplicateComponent) <==>
                  matches && (via == Projector ==> named) && h.componentName == None && h.hosted.Some?)
            && (refusal == None <==>
                  matches && (via == Projector ==> named) && (h.componentName != None || h.hosted.None?))
  {
  }

  // ------------------------------------------------------ what a start and a delivery meet

  predicate RegistersAt(rulesVersion: string, ownsRouter: bool, events: seq<Event>, m: nat)
    requires m < |events|
  {
    Registers(Run(rulesVersion, ownsRouter, events, m), events[m])
  }

  /** Whether an event adds an acceptable table that is not the first. */
  predicate SurplusAt(rulesVersion: string, ownsRouter: bool, events: seq<Event>, m: nat)
    requires m < |events|
  {
    Accepts(Run(rulesVersion, ownsRouter, events, m), events[m]) && !RegistersAt(rulesVersion, ownsRouter, events, m)
  }

  lemma StepClaims(h: State, e: Event)
    requires Registered(h)
    ensures Next(h, e).kind.Some? <==> h.kind.Some? || Registers(h, e)
    ensures Next(h, e).upcaster <==> h.upcaster || e.AddUpcaster?
    ensures |Next(h, e).refused| == |h.refused| + if Accepts(h, e) && !Registers(h, e) then 1 else 0
    ensures Accepts(h, e) && !Registers(h, e) ==> Next(h, e).refused == h.refused + [e.table.name]
  {
    hide PublishedTo, h.Names, ServiceOf, Reported;
  }

  lemma {:induction false} ClaimsOfRun(rulesVersion: string, ownsRouter: bool, events: seq<Event>, n: nat)
    requires n <= |events|
    ensures var h := Run(rulesVersion, ownsRouter, events, n);
            && (h.kind.Some? <==> exists m :: 0 <= m < n && RegistersAt(rulesVersion, ownsRouter, events, m))
            && (h.upcaster <==> exists m :: 0 <= m < n && events[m].AddUpcaster?)
            && (h.refused != [] <==> exists m :: 0 <= m < n && SurplusAt(rulesVersion, ownsRouter, events, m))
  {
    hide Next, Registers, Accepts;
    if n == 0 {
    } else {
      ClaimsOfRun(rulesVersion, ownsRouter, events, n - 1);
      RunStaysRegistered(rulesVersion, ownsRouter, events, n - 1);
      var h, e := Run(rulesVersion, ownsRouter, events, n - 1), events[n - 1];
      StepClaims(h, e);
      assert RegistersAt(rulesVersion, ownsRouter, events, n - 1) <==> Registers(h, e);
      assert SurplusAt(rulesVersion, ownsRouter, events, n - 1) <==> Accepts(h, e) && !Registers(h, e);
    }
  }

  /** Why a start is refused after any run, each reason exactly where those before it do not
      apply: both a component and an upcaster, neither, a surplus component, or a host that
      runs already. */
  lemma StartRefusedExactly(rulesVersion: string, ownsRouter: bool, events: seq<Event>, n: nat)
    requires n <= |events|
    ensures var h := Run(rulesVersion, ownsRouter, events, n);
            var component := exists m :: 0 <= m < n && RegistersAt(rulesVersion, ownsRouter, events, m);
            var sidecar := exists m :: 0 <= m < n && events[m].AddUpcaster?;
            var surplus := exists m :: 0 <= m < n && SurplusAt(rulesVersion, ownsRouter, events, m);
            && (StartRefusal(h) == Some(UpcasterWithComponent) <==> component && sidecar)
            && (StartRefusal(h) == Some(NoComponents) <==> !component && !sidecar)
            && (StartRefusal(h) == Some(DuplicateComponent) <==> component != sidecar && surplus)
            && (StartRefusal(h) == Some(AlreadyStarted) <==> component != sidecar && !surplus && h.running)
            && (StartRefusal(h) == None <==> component != sidecar && !surplus && !h.running)
  {
    hide Run, RegistersAt, SurplusAt;
    ClaimsOfRun(rulesVersion, ownsRouter, events, n);
  }

  lemma StepServes(h: State, e: Event)
    ensures Next(h, e).apps == h.apps + if e.AddService? && e.name != "" then [e.name] else []
  {
    hide PublishedTo, h.Names;
  }

  /** The application's services are those named when added. */
  lemma {:induction false} AppsOfRun(rulesVersion: string, ownsRouter: bool, events: seq<Event>, n: nat, name: string)
    requires n <= |events|
    ensures name in Run(rulesVersion, ownsRouter, events, n).apps <==>
            name != "" && exists m :: 0 <= m < n && events[m] == Event.AddService(name)
  {
    hide Next;
    if n == 0 {
    } else {
      AppsOfRun(rulesVersion, ownsRouter, events, n - 1, name);
      StepServes(Run(rulesVersion, ownsRouter, events, n - 1), events[n - 1]);
    }
  }

  predicate StoppedBy(events: seq<Event>, n: nat)
    requires n <= |events|
  {
    exists k :: 0 <= k < n && events[k].Stop?
  }

  /** Whether what an event registered is closed by then: by the first stop, after it. */
  predicate ClosedBy(ownsRouter: bool, events: seq<Event>, m: nat, n: nat)
    requires m <= n <= |events|
  {
    ownsRouter && !StoppedBy(events, m) && StoppedBy(events, n)
  }

  lemma StepHosts(h: State, e: Event)
    requires Registered(h)
    ensures Next(h, e).hosted.Some? <==>
            (h.hosted.Some? || Registers(h, e)) && !(e.Stop? && h.ownsRouter && !h.stopped)
    ensures Next(h, e).ownsRouter == h.ownsRouter
    ensures Registers(h, e) ==> h.hosted.None? && !e.Stop?
  {
    hide PublishedTo, h.Names, ServiceOf, Reported;
  }

  lemma {:induction false} OwnedThroughout(rulesVersion: string, ownsRouter: bool, events: seq<Event>, n: nat)
    requires n <= |events|
    ensures Run(rulesVersion, ownsRouter, events, n).ownsRouter == ownsRouter
  {
    hide Next;
    if n == 0 {
    } else {
      OwnedThroughout(rulesVersion, ownsRouter, events, n - 1);
      RunStaysRegistered(rulesVersion, ownsRouter, events, n - 1);
      StepHosts(Run(rulesVersion, ownsRouter, events, n - 1), events[n - 1]);
    }
  }

  /** A component is hosted exactly from when it was registered until an owned router is
      closed, by the first stop there is, if that comes after. */
  lemma {:induction false} HostedExactly(rulesVersion: string, ownsRouter: bool, events: seq<Event>, n: nat)
    requires n <= |events|
    ensures Run(rulesVersion, ownsRouter, events, n).hosted.Some? <==>
            exists m :: 0 <= m < n && RegistersAt(rulesVersion, ownsRouter, events, m) &&
                        !ClosedBy(ownsRouter, events, m, n)
  {
    hide Next, Registers;
    if n == 0 {
    } else {
      var h, e := Run(rulesVersion, ownsRouter, events, n - 1), events[n - 1];
      HostedExactly(rulesVersion, ownsRouter, events, n - 1);
      RunStaysRegistered(rulesVersion, ownsRouter, events, n - 1);
      OwnedThroughout(rulesVersion, ownsRouter, events, n - 1);
      StoppedAfterStop(rulesVersion, ownsRouter, events, n - 1);
      StepHosts(h, e);
      StoppedMore(events, n);
      if RegistersAt(rulesVersion, ownsRouter, events, n - 1) {
        assert !ClosedBy(ownsRouter, events, n - 1, n);
      }
      forall m | 0 <= m < n - 1 && RegistersAt(rulesVersion, ownsRouter, events, m)
        ensures ClosedBy(ownsRouter, events, m, n) <==>
                ClosedBy(ownsRouter, events, m, n - 1) || (e.Stop? && ownsRouter && !StoppedBy(events, n - 1))
      {
        if StoppedBy(events, m) {
          StoppedStays(events, m, n - 1);
        }
      }
    }
  }

  lemma StoppedMore(events: seq<Event>, n: nat)
    requires 0 < n <= |events|
    ensures StoppedBy(events, n) <==> StoppedBy(events, n - 1) || events[n - 1].Stop?
  {
  }

  lemma StoppedStays(events: seq<Event>, m: nat, n: nat)
    requires m <= n <= |events| && StoppedBy(events, m)
    ensures StoppedBy(events, n)
  {
  }

  /** After any run a command or a fact is answered by the registered table, at the version
      described, if that is an aggregate's or a process manager's; a policy or a projector
      takes none, and a host with nothing registered, or closed, has no handlers. */
  lemma DeliveredByKind(rulesVersion: string, ownsRouter: bool, events: seq<Event>, n: nat, request: Request)
    requires n <= |events|
    ensures var h := Run(rulesVersion, ownsRouter, events, n);
            var answer := Delivered(h.hosted, request);
            if h.hosted == None then
              answer == Err(CodedError("ROUTER_REASON_NO_HANDLERS_REGISTERED", None, map[], None))
            else
              exists m :: 0 <= m < n && Registers(Run(rulesVersion, ownsRouter, events, m), events[m]) &&
                if events[m].table.kind in {Aggregate, ProcessManager}
                then answer == events[m].table.handle(events[m].descriptor.rulesVersion, request)
                else answer == Err(CodedError("ROUTER_REASON_NO_COMPONENT_OF_KIND", None, map[], None))
  {
    hide Run, Registers;
    var h := Run(rulesVersion, ownsRouter, events, n);
    if h.hosted.Some? {
      HostedIsRegistered(rulesVersion, ownsRouter, events, n);
      var m :| 0 <= m < n && Registers(Run(rulesVersion, ownsRouter, events, m), events[m]) && Holds(h, events[m]);
      assert events[m].Add?;
    }
  }

  // ------------------------------------------------------- the version answers report

  /** Whether what a table answers reports the version it is given. */
  ghost predicate Reports(table: Table) {
    forall version, request :: table.handle(version, request).Ok? ==>
      table.handle(version, request).value.rulesVersion == version
  }

  /** A dispatch's answers do. */
  lemma DispatchReports<S(!new)>(name: string, kind: Kind, dispatch: Dispatch.Table<S>)
    ensures Reports(Tabled(name, kind, dispatch))
  {
    var table := Tabled(name, kind, dispatch);
    forall version: string, request: Request
      ensures table.handle(version, request) == Dispatch.Answer(dispatch.(rulesVersion := version), request)
    {
    }
    forall version: string, request: Request | table.handle(version, request).Ok?
      ensures table.handle(version, request).value.rulesVersion == version
    {
      AnswerReports(dispatch.(rulesVersion := version), request);
    }
  }

  lemma AnswerReports<S(!new)>(table: Dispatch.Table<S>, request: Request)
    ensures Dispatch.Answer(table, request).Ok? ==>
              Dispatch.Answer(table, request).value.rulesVersion == table.rulesVersion
  {
    hide Dispatch.Route, Dispatch.RebuiltTo, Dispatch.Decide, Dispatch.Report, Dispatch.Given, Dispatch.Stamped;
  }

  /** One version end to end: over every run of registrations, starts and stops, whatever is
      delivered then and answered reports the version the host's descriptor describes. */
  lemma AnswersReportDescribedVersion(
    rulesVersion: string, ownsRouter: bool, events: seq<Event>, n: nat, request: Request)
    requires n <= |events|
    requires forall i :: 0 <= i < n && events[i].Add? ==> Reports(events[i].table)
    ensures var h := Run(rulesVersion, ownsRouter, events, n);
            Delivered(h.hosted, request).Ok? ==>
              && h.descriptor.Some?
              && Delivered(h.hosted, request).value.rulesVersion == h.descriptor.value.rulesVersion
  {
    hide Run, Registers;
    var h := Run(rulesVersion, ownsRouter, events, n);
    if h.hosted.Some? {
      HostedIsRegistered(rulesVersion, ownsRouter, events, n);
      var m :| 0 <= m < n && Registers(Run(rulesVersion, ownsRouter, events, m), events[m]) && Holds(h, events[m]);
      assert Reports(events[m].table);
    }
  }

  /** A start that serves has no surplus: every component ever accepted is the hosted one. */
  lemma {:induction false} StartMeansNoSurplus(
    rulesVersion: string, ownsRouter: bool, events: seq<Event>, n: nat, m: nat)
    requires m < n <= |events|
    requires StartRefusal(Run(rulesVersion, ownsRouter, events, n)).None?
    requires Accepts(Run(rulesVersion, ownsRouter, events, m), events[m])
    ensures Run(rulesVersion, ownsRouter, events, m).componentName.None?
    ensures Run(rulesVersion, ownsRouter, events, n).descriptor == Some(events[m].descriptor)
  {
    hide PublishedTo;
    OneComponentForGood(rulesVersion, ownsRouter, events, m + 1, n);
    RunStaysRegistered(rulesVersion, ownsRouter, events, m);
    RefusedStay(rulesVersion, ownsRouter, events, m + 1, n);
  }

  lemma {:induction false} RefusedStay(rulesVersion: string, ownsRouter: bool, events: seq<Event>, m: nat, n: nat)
    requires m <= n <= |events|
    ensures |Run(rulesVersion, ownsRouter, events, m).refused| <= |Run(rulesVersion, ownsRouter, events, n).refused|
  {
    hide PublishedTo;
    if m == n {
    } else {
      RefusedStay(rulesVersion, ownsRouter, events, m, n - 1);
    }
  }

  // ------------------------------------------------------------------- health over runs

  predicate Quiet(history: History) {
    forall name :: name in history ==> EndsIn(history[name], NotServing)
  }

  predicate StartsQuiet(history: History) {
    forall name :: name in history ==> history[name] != [] && history[name][0] == NotServing
  }

  predicate Covers(history: History, names: seq<string>) {
    forall i :: 0 <= i < |names| ==> names[i] in history
  }

  lemma {:induction false} PublishedNames(history: History, names: seq<string>, n: nat, status: Status)
    requires n <= |names|
    ensures var after := PublishedTo(history, names, n, status);
            && (forall name :: name in history ==> name in after)
            && (forall i :: 0 <= i < n ==> names[i] in after)
            && (forall name :: name in after ==> name in history || name in names)
  {
    if n == 0 {
    } else {
      PublishedNames(history, names, n - 1, status);
    }
  }

  lemma {:induction false} PublishedQuiet(history: History, names: seq<string>, n: nat)
    requires n <= |names|
    ensures var after := PublishedTo(history, names, n, NotServing);
            && (forall i :: 0 <= i < n ==> names[i] in after && EndsIn(after[names[i]], NotServing))
            && forall name :: name in after && name !in names ==> name in history && after[name] == history[name]
  {
    if n == 0 {
    } else {
      PublishedQuiet(history, names, n - 1);
    }
  }

  lemma {:induction false} PublishedStarts(history: History, names: seq<string>, n: nat, status: Status)
    requires n <= |names| && StartsQuiet(history) && (status == NotServing || Covers(history, names))
    ensures var after := PublishedTo(history, names, n, status);
            StartsQuiet(after) && (Covers(history, names) ==> Covers(after, names))
  {
    if n == 0 {
    } else {
      PublishedStarts(history, names, n - 1, status);
    }
  }

  /** What was published under a name, in order. */
  function Of(history: History, name: string): seq<Status> {
    if name in history then history[name] else []
  }

  /** A status over and over. */
  function Times(status: Status, n: nat): seq<Status> {
    seq(n, _ => status)
  }

  lemma TimesMore(status: Status, n: nat)
    ensures Times(status, 0) == [] && Times(status, n + 1) == Times(status, n) + [status]
  {
  }

  lemma OfPublished(history: History, under: string, status: Status, name: string)
    ensures Of(Published(history, under, status), name) == Of(history, name) + if under == name then [status] else []
  {
  }

  lemma OneMore(names: seq<string>, n: nat, name: string)
    requires 0 < n <= |names|
    ensures multiset(names[..n])[name] == multiset(names[..n - 1])[name] + if names[n - 1] == name then 1 else 0
  {
    assert names[..n] == names[..n - 1] + [names[n - 1]];
  }

  /** Publishing only appends, its own status, as often as a name is among those published
      under. */
  lemma {:induction false} PublishedAppends(history: History, names: seq<string>, n: nat, status: Status, name: string)
    requires n <= |names|
    ensures var before, after := Of(history, name), Of(PublishedTo(history, names, n, status), name);
            && after == before + Times(status, multiset(names[..n])[name])
            && (name in names[..n] <==> 0 < multiset(names[..n])[name])
  {
    hide Times, Published, Of;
    if n == 0 {
      TimesMore(status, 0);
    } else {
      PublishedAppends(history, names, n - 1, status, name);
      OfPublished(PublishedTo(history, names, n - 1, status), names[n - 1], status, name);
      OneMore(names, n, name);
      TimesMore(status, multiset(names[..n - 1])[name]);
    }
  }

  /** What every run keeps of health: a supervisor publishes only under names the host still
      serves, all published before; every history opens NOT_SERVING; and while nothing runs
      every history ends so. */
  predicate Sound(h: State) {
    && Registered(h)
    && (h.running ==> h.health.Some?)
    && (forall i :: 0 <= i < |h.supervised| ==> h.Serves(h.supervised[i]))
    && (h.health.Some? ==>
          && StartsQuiet(h.health.value)
          && Covers(h.health.value, h.supervised)
          && (forall name :: name in h.health.value ==> h.Serves(name))
          && (!h.running ==> Quiet(h.health.value)))
  }

  /** Health is published under the server's own name, each of the component's two services,
      the upcaster's and the application's, and no other. */
  lemma NamesServed(h: State)
    ensures forall name :: name in h.Names() <==> h.Serves(name)
    ensures forall name :: h.Serves(name) <==>
              || name == ""
              || (h.kind != None && (name == "io.angzarr.component.v1.ComponentService" || name == h.kind.value))
              || (h.upcaster && name == "io.angzarr.component.v1.UpcasterService")
              || name in h.apps
  {
    var own := if h.kind.Some? then [COMPONENT_SERVICE, h.kind.value] else [];
    var sidecar := if h.upcaster then [UPCASTER_SERVICE] else [];
    assert h.Names() == [""] + own + sidecar + h.apps;
  }

  /** What a host serves it goes on serving. */
  lemma ServesMore(h: State, e: Event, name: string)
    requires Registered(h) && h.Serves(name)
    ensures Next(h, e).Serves(name)
  {
    hide PublishedTo, h.Names;
  }

  lemma NextStaysSound(h: State, e: Event)
    requires Sound(h)
    ensures Sound(Next(h, e))
  {
    NextStaysRegistered(h, e);
    match e {
      case Start(_) => StartStaysSound(h, e);
      case Tick(_, _) => TickStaysSound(h, e);
      case Stop => StopStaysSound(h);
      case _ => ServingStaysSound(h, e);
    }
  }

  lemma ServingStaysSound(h: State, e: Event)
    requires Sound(h) && Registered(Next(h, e)) && !e.Start? && !e.Tick? && !e.Stop?
    ensures Sound(Next(h, e))
  {
    hide PublishedTo, Registered, h.Names, h.Serves, Quiet, StartsQuiet, Covers;
    forall name | h.Serves(name)
      ensures Next(h, e).Serves(name)
    {
      RegisteredOf(h);
      ServesMore(h, e, name);
    }
  }

  lemma RegisteredOf(h: State)
    requires Sound(h)
    ensures Registered(h)
  {
  }

  lemma StartStaysSound(h: State, e: Event)
    requires Sound(h) && Registered(Next(h, e)) && e.Start?
    ensures Sound(Next(h, e))
  {
    hide PublishedTo, Registered, h.Names;
    var names := h.Names();
    PublishedNames(map[], names, |names|, NotServing);
    PublishedQuiet(map[], names, |names|);
    PublishedStarts(map[], names, |names|, NotServing);
    NamesServed(h);
  }

  lemma TickStaysSound(h: State, e: Event)
    requires Sound(h) && Registered(Next(h, e)) && e.Tick?
    ensures Sound(Next(h, e))
  {
    hide PublishedTo, Registered, h.Names;
    if h.running {
      var status := if AllHold(e.probes) then Serving else NotServing;
      PublishedNames(h.health.value, h.supervised, Min(e.upTo, |h.supervised|), status);
      PublishedStarts(h.health.value, h.supervised, Min(e.upTo, |h.supervised|), status);
    }
  }

  lemma StopStaysSound(h: State)
    requires Sound(h) && Registered(Next(h, Stop))
    ensures Sound(Next(h, Stop))
  {
    hide PublishedTo, Registered, h.Names;
    if h.running {
      var names := h.Names();
      PublishedNames(h.health.value, names, |names|, NotServing);
      PublishedQuiet(h.health.value, names, |names|);
      PublishedStarts(h.health.value, names, |names|, NotServing);
      NamesServed(h);
    }
  }

  /** Over every interleaving of registrations, starts, supervisor ticks cut anywhere and
      stops, each name's first status is NOT_SERVING, and whatever is not running is last
      published NOT_SERVING under every name it was ever published under. */
  lemma {:induction false} RunStaysSound(rulesVersion: string, ownsRouter: bool, events: seq<Event>, n: nat)
    requires n <= |events|
    ensures Sound(Run(rulesVersion, ownsRouter, events, n))
  {
    hide Next;
    if 0 < n {
      RunStaysSound(rulesVersion, ownsRouter, events, n - 1);
      NextStaysSound(Run(rulesVersion, ownsRouter, events, n - 1), events[n - 1]);
    } else {
      FreshIsSound(rulesVersion, ownsRouter);
    }
  }

  lemma FreshIsSound(rulesVersion: string, ownsRouter: bool)
    ensures Sound(Fresh(rulesVersion, ownsRouter))
  {
  }

  /** What the host shows to have been published under a name, since its last start. */
  function Shown(h: State, name: string): seq<Status> {
    if h.health.None? then [] else Of(h.health.value, name)
  }

  /** A tick in which every probe held, of a host that was running. */
  predicate GoodTick(h: State, e: Event) {
    h.running && e.Tick? && AllHold(e.probes)
  }

  /** What is shown under a name after an event: a start that is not refused starts it anew,
      with NOT_SERVING under every name served; a tick of a running host adds one status for
      all its probes under the names it gets to; a first stop of a running host adds
      NOT_SERVING under every name now served; and nothing else changes what is shown. */
  lemma ShownExactly(h: State, e: Event, name: string)
    requires h.running ==> h.health.Some?
    ensures var before, after := Shown(h, name), Shown(Next(h, e), name);
            && (e.Start? && StartRefusal(h) == None ==> after == Times(NotServing, multiset(h.Names())[name]))
            && (e.Tick? && h.running ==>
                  var reached := h.supervised[..Min(e.upTo, |h.supervised|)];
                  after == before + Times(if false in e.probes then NotServing else Serving, multiset(reached)[name]))
            && (e.Stop? && h.running && !h.stopped ==>
                  after == before + Times(NotServing, multiset(h.Names())[name]))
            && (|| (e.Start? && StartRefusal(h) == None) || (e.Tick? && h.running)
                || (e.Stop? && h.running && !h.stopped) || after == before)
  {
    hide PublishedTo, h.Names, Added, StartRefusal;
    var names := h.Names();
    assert names[..|names|] == names;
    match e {
      case Start(_) => PublishedAppends(map[], names, |names|, NotServing, name);
      case Tick(probes, upTo) =>
        if h.running {
          var status := if AllHold(probes) then Serving else NotServing;
          PublishedAppends(h.health.value, h.supervised, Min(upTo, |h.supervised|), status, name);
        }
      case Stop =>
        if h.running && !h.stopped {
          PublishedAppends(h.health.value, names, |names|, NotServing, name);
        }
      case _ => AddingPublishesNothing(h, e);
    }
  }

  lemma StepRuns(h: State, e: Event)
    ensures Next(h, e).running <==>
            || (e == Start(true) && StartRefusal(h) == None)
            || (h.running && !(e.Stop? && !h.stopped))
    ensures e.Start? && StartRefusal(h) == None ==> Next(h, e).supervised == h.Names()
    ensures !(e.Start? && StartRefusal(h) == None) ==> Next(h, e).supervised == h.supervised
  {
    hide PublishedTo, h.Names;
  }

  /** Whether an event of a run starts the host: a start that is not refused, and binds. */
  predicate StartsAt(rulesVersion: string, ownsRouter: bool, events: seq<Event>, m: nat)
    requires m < |events|
  {
    events[m] == Start(true) && StartRefusal(Run(rulesVersion, ownsRouter, events, m)) == None
  }

  /** Whether an event of a run is a stop that stops: the first. */
  predicate StopsAt(rulesVersion: string, ownsRouter: bool, events: seq<Event>, m: nat)
    requires m < |events|
  {
    events[m].Stop? && !Run(rulesVersion, ownsRouter, events, m).stopped
  }

  /** A host runs exactly from a start that binds until the first stop. */
  lemma {:induction false} RunsExactly(rulesVersion: string, ownsRouter: bool, events: seq<Event>, n: nat)
    requires n <= |events|
    ensures Run(rulesVersion, ownsRouter, events, n).running <==>
            exists m :: 0 <= m < n && StartsAt(rulesVersion, ownsRouter, events, m) &&
              forall k :: m < k < n ==> !StopsAt(rulesVersion, ownsRouter, events, k)
  {
    hide Next, StartRefusal;
    if n == 0 {
    } else {
      var h, e := Run(rulesVersion, ownsRouter, events, n - 1), events[n - 1];
      RunsExactly(rulesVersion, ownsRouter, events, n - 1);
      StepRuns(h, e);
      assert StartsAt(rulesVersion, ownsRouter, events, n - 1) <==> e == Start(true) && StartRefusal(h) == None;
      assert StopsAt(rulesVersion, ownsRouter, events, n - 1) <==> e.Stop? && !h.stopped;
    }
  }

  /** Whether an event publishes SERVING under a name: `after` shows one that is not of what
      was shown before. */
  predicate Publishes(before: seq<Status>, after: seq<Status>) {
    exists j :: 0 <= j < |after| && after[j] == Serving && !(before <= after && j < |before|)
  }

  /** SERVING is published under a name by exactly the ticks of a running host in which every
      probe held, and which get to the name. */
  lemma GoodTicksServe(h: State, e: Event, name: string)
    requires h.running ==> h.health.Some?
    ensures Publishes(Shown(h, name), Shown(Next(h, e), name)) <==>
            GoodTick(h, e) && name in h.supervised[..Min(e.upTo, |h.supervised|)]
  {
    hide PublishedTo, h.Names, Added;
    var before, after := Shown(h, name), Shown(Next(h, e), name);
    match e {
      case Start(_) => PublishedAppends(map[], h.Names(), |h.Names()|, NotServing, name);
      case Tick(probes, upTo) =>
        if h.running {
          var status := if AllHold(probes) then Serving else NotServing;
          PublishedAppends(h.health.value, h.supervised, Min(upTo, |h.supervised|), status, name);
          if status == Serving && |before| < |after| {
            assert after[|before|] == Serving;
          }
        }
      case Stop =>
        if h.running && !h.stopped {
          PublishedAppends(h.health.value, h.Names(), |h.Names()|, NotServing, name);
        }
      case _ => AddingPublishesNothing(h, e);
    }
  }

  /** Whether the tick `k` of a run published the status shown at `j` after `n` events, and no
      start since has replaced what it published to. */
  predicate PublishedBy(
    rulesVersion: string, ownsRouter: bool, events: seq<Event>, k: nat, n: nat, name: string, j: nat)
    requires k < n <= |events|
  {
    var before, after := Run(rulesVersion, ownsRouter, events, k), Run(rulesVersion, ownsRouter, events, k + 1);
    && GoodTick(before, events[k])
    && |Shown(before, name)| <= j < |Shown(after, name)|
    && forall m :: k < m <= n ==> Shown(after, name) <= Shown(Run(rulesVersion, ownsRouter, events, m), name)
  }

  /** Every SERVING shown was published by a tick of its own in which every probe held, of the
      host's current start: nothing but such ticks, and no tick before a restart, accounts
      for one. */
  lemma {:induction false} ServingNeedsGoodTick(
    rulesVersion: string, ownsRouter: bool, events: seq<Event>, n: nat, name: string, j: nat)
    requires n <= |events|
    requires var shown := Shown(Run(rulesVersion, ownsRouter, events, n), name); j < |shown| && shown[j] == Serving
    ensures exists k :: 0 <= k < n && PublishedBy(rulesVersion, ownsRouter, events, k, n, name, j)
  {
    hide Next, Shown, Registered;
    if 0 < n {
      var h, e := Run(rulesVersion, ownsRouter, events, n - 1), events[n - 1];
      var before, after := Shown(h, name), Shown(Next(h, e), name);
      RunStaysSound(rulesVersion, ownsRouter, events, n - 1);
      if before <= after && j < |before| {
        ServingNeedsGoodTick(rulesVersion, ownsRouter, events, n - 1, name, j);
        var k :| 0 <= k < n - 1 && PublishedBy(rulesVersion, ownsRouter, events, k, n - 1, name, j);
        assert PublishedBy(rulesVersion, ownsRouter, events, k, n, name, j);
      } else {
        GoodTicksServe(h, e, name);
        TicksAppend(h, e, name);
        assert Run(rulesVersion, ownsRouter, events, n) == Next(h, e);
        assert PublishedBy(rulesVersion, ownsRouter, events, n - 1, n, name, j);
      }
    } else {
      NothingShown(rulesVersion, ownsRouter, name);
    }
  }

  lemma TicksAppend(h: State, e: Event, name: string)
    ensures e.Tick? ==> Shown(h, name) <= Shown(Next(h, e), name)
  {
    hide PublishedTo;
    if e.Tick? && h.running && h.health.Some? {
      var status := if AllHold(e.probes) then Serving else NotServing;
      PublishedAppends(h.health.value, h.supervised, Min(e.upTo, |h.supervised|), status, name);
    }
  }

  lemma NothingShown(rulesVersion: string, ownsRouter: bool, name: string)
    ensures Shown(Fresh(rulesVersion, ownsRouter), name) == []
  {
  }

  /** A stop stops, leaving every name last published NOT_SERVING, those the supervisor was
      started with among them, exactly when the host was not one stopped before and started
      again, which it does not touch. */
  lemma StopStopsUnlessRestarted(rulesVersion: string, ownsRouter: bool, events: seq<Event>, n: nat)
    requires n <= |events|
    ensures var h := Run(rulesVersion, ownsRouter, events, n);
            var after := Next(h, Stop);
            && (after.running <==> h.running && h.stopped)
            && (after.running ==> after == h)
            && (!after.running && after.health.Some? ==>
                  Quiet(after.health.value) && Covers(after.health.value, h.supervised))
  {
    hide PublishedTo, Registered;
    RunStaysSound(rulesVersion, ownsRouter, events, n);
    NextStaysSound(Run(rulesVersion, ownsRouter, events, n), Stop);
  }

  lemma AddingPublishesNothing(h: State, e: Event)
    ensures e.Add? ==> Next(h, e).running == h.running && Next(h, e).health == h.health
  {
  }

  /** Once stopped, and not started again, nothing more is published. */
  lemma {:induction false} StoppedStaysQuiet(rulesVersion: string, ownsRouter: bool, events: seq<Event>, m: nat, n: nat)
    requires m <= n <= |events| && !Run(rulesVersion, ownsRouter, events, m).running
    requires forall k :: m <= k < n ==> !events[k].Start?
    ensures !Run(rulesVersion, ownsRouter, events, n).running
    ensures Run(rulesVersion, ownsRouter, events, n).health == Run(rulesVersion, ownsRouter, events, m).health
  {
    hide PublishedTo, Added;
    if m == n {
    } else {
      AddingPublishesNothing(Run(rulesVersion, ownsRouter, events, n - 1), events[n - 1]);
      StoppedStaysQuiet(rulesVersion, ownsRouter, events, m, n - 1);
    }
  }

  /** No start follows a stop. */
  predicate NeverRestarted(events: seq<Event>) {
    forall i, j :: 0 <= i < j < |events| && events[i].Stop? ==> !events[j].Start?
  }

  lemma {:induction false} StoppedAfterStop(rulesVersion: string, ownsRouter: bool, events: seq<Event>, n: nat)
    requires n <= |events|
    ensures Run(rulesVersion, ownsRouter, events, n).stopped <==> exists k :: 0 <= k < n && events[k].Stop?
  {
    hide PublishedTo;
    if n == 0 {
    } else {
      StoppedAfterStop(rulesVersion, ownsRouter, events, n - 1);
    }
  }

  lemma StepStops(h: State, e: Event)
    requires h.stopped ==> !h.running && !e.Start?
    ensures Next(h, e).stopped ==> !Next(h, e).running
    ensures Next(h, Stop).stopped
  {
    hide PublishedTo;
  }

  /** In a run that never starts after a stop, every stop stops, for good. */
  lemma {:induction false} StopStops(rulesVersion: string, ownsRouter: bool, events: seq<Event>, n: nat)
    requires n <= |events| && NeverRestarted(events)
    ensures var h := Run(rulesVersion, ownsRouter, events, n);
            && (h.stopped ==> !h.running)
            && !Next(h, Stop).running
  {
    hide Next;
    if n == 0 {
    } else {
      var h, e := Run(rulesVersion, ownsRouter, events, n - 1), events[n - 1];
      StopStops(rulesVersion, ownsRouter, events, n - 1);
      StoppedAfterStop(rulesVersion, ownsRouter, events, n - 1);
      StepStops(h, e);
    }
    StepStops(Run(rulesVersion, ownsRouter, events, n), Stop);
  }

  /** A restarted host is left SERVING by its second stop: starting is not refused after a
      stop, and stopping again does nothing. */
  lemma RestartEscapesStop(rulesVersion: string)
    ensures var events := [AddUpcaster, Start(true), Stop, Start(true), Tick([true], 1), Stop];
            var h := Run(rulesVersion, true, events, 6);
            h.running && h.stopped && EndsIn(Shown(h, ""), Serving)
  {
    var events := [AddUpcaster, Start(true), Stop, Start(true), Tick([true], 1), Stop];
    var h1 := Next(Fresh(rulesVersion, true), AddUpcaster);
    var h4 := Next(Next(Next(h1, Start(true)), Stop), Start(true));
    RestartIsAccepted(h1);
    TickShows(h4);
    RunOf(rulesVersion, events);
  }

  lemma RunOf(rulesVersion: string, events: seq<Event>)
    requires |events| == 6
    ensures var h3 := Next(Next(Next(Fresh(rulesVersion, true), events[0]), events[1]), events[2]);
            Run(rulesVersion, true, events, 6) == Next(Next(Next(h3, events[3]), events[4]), events[5])
  {
    hide Next, Fresh;
    var h1 := Run(rulesVersion, true, events, 1);
    assert h1 == Next(Run(rulesVersion, true, events, 0), events[0]);
    var h3 := Run(rulesVersion, true, events, 3);
    assert h3 == Next(Run(rulesVersion, true, events, 2), events[2]) == Next(Next(h1, events[1]), events[2]);
    var h5 := Run(rulesVersion, true, events, 5);
    assert h5 == Next(Run(rulesVersion, true, events, 4), events[4]) == Next(Next(h3, events[3]), events[4]);
  }

  lemma RestartIsAccepted(h: State)
    requires !h.running && !h.stopped && h.kind.None? && h.upcaster && h.refused == []
    ensures var again := Next(Next(Next(h, Start(true)), Stop), Start(true));
            again.running && again.stopped && again.health.Some? && again.supervised == h.Names()
  {
    hide PublishedTo;
  }

  lemma TickShows(h: State)
    requires h.running && h.stopped && h.health.Some? && h.supervised != []
    ensures var after := Next(h, Tick([true], 1));
            && after.running && after.stopped && EndsIn(Shown(after, h.supervised[0]), Serving)
            && Next(after, Stop) == after
  {
    var name := h.supervised[0];
    assert PublishedTo(h.health.value, h.supervised, 1, Serving) ==
           Published(PublishedTo(h.health.value, h.supervised, 0, Serving), name, Serving);
    var after := Next(h, Tick([true], 1));
    assert name in after.health.value && EndsIn(after.health.value[name], Serving);
  }
}
