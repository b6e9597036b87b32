/**
 * Ingress of an app: the ingress part of PUT /api/apps/:slug (server/routes/apps.js), the port
 * registry behind it (server/services/tcpIngress.js), and the containers that bind the ports
 * (server/services/docker.js).
 */
module Ingress {
  import opened Text

  type AppId = nat

  datatype Env = Production | Sandbox

  /** The ingress columns of an apps row. */
  datatype Row = Row(
    ingressType: string, publicPort: Option<int>, sandboxPort: Option<int>, dataPlanePort: Option<int>, protocol: string)

  const CONTROL_PLANE_PORT := 3000
  const PUBLIC_PORT_MIN := 1024
  const PUBLIC_PORT_MAX := 65535
  const AUTO_PORT_MIN := 31000
  const AUTO_PORT_MAX := 31999

  // ---- what a row means ---------------------------------------------------------------------------

  predicate IngressType(value: string) {
    value == "http" || value == "tcp" || value == "dual"
  }

  function EffectiveType(row: Row): string {
    if IngressType(row.ingressType) then row.ingressType else "http"
  }

  predicate Publishes(row: Row) {
    EffectiveType(row) != "http"
  }

  function Held(row: Row, env: Env): Option<int> {
    if env == Production then row.publicPort else row.sandboxPort
  }

  function SetHeld(row: Row, env: Env, port: Option<int>): Row {
    if env == Production then row.(publicPort := port) else row.(sandboxPort := port)
  }

  function EffectiveDataPlane(row: Row): Option<int> {
    if EffectiveType(row) == "dual" then row.dataPlanePort else None
  }

  /** publishTargets: the two ends of the public publish, or None where nothing is published. */
  datatype Publish = Publish(host: int, container: int)

  function PublishOf(row: Row, env: Env): Option<Publish> {
    if !Publishes(row) || Held(row, env) == None then None
    else if EffectiveType(row) == "tcp" then Some(Publish(Held(row, env).value, CONTROL_PLANE_PORT))
    else if EffectiveDataPlane(row) == None || EffectiveDataPlane(row).value == CONTROL_PLANE_PORT then None
    else Some(Publish(Held(row, env).value, EffectiveDataPlane(row).value))
  }

  /** publicPortForApp: the host port the next container of this environment will bind. */
  function PublicPort(row: Row, env: Env): Option<int> {
    if PublishOf(row, env) == None then None else Some(PublishOf(row, env).value.host)
  }

  /** The number a row that stopped publishing still holds. */
  function PendingRelease(row: Row): Option<int> {
    if Publishes(row) then None else row.publicPort
  }

  function StoredProtocol(row: Row): string {
    if row.protocol == "udp" then "udp" else "tcp"
  }

  predicate DataPlanePort(port: int) {
    PUBLIC_PORT_MIN <= port <= PUBLIC_PORT_MAX && port != CONTROL_PLANE_PORT
  }

  /** What every read surface and every audit entry reports. */
  datatype Config = Config(
    ingressType: string, publicPort: Option<int>, sandboxPort: Option<int>, dataPlanePort: Option<int>, protocol: string)

  function ConfigOf(row: Row): Config {
    Config(
      EffectiveType(row), PublicPort(row, Production), PublicPort(row, Sandbox), EffectiveDataPlane(row),
      StoredProtocol(row))
  }

  // ---- the request ----------------------------------------------------------------------------------

  /** A JSON field: not sent, null, a value of the expected type, or some other value. */
  datatype Arg<T> = Absent | Null | Is(value: T) | Junk

  datatype Request = Request(
    platformAdmin: bool, ingressType: Arg<string>, publicPort: Arg<int>, sandboxPort: Arg<int>, dataPlanePort: Arg<int>,
    protocol: Arg<string>)

  predicate Differs<T(==)>(arg: Arg<T>, current: Option<T>) {
    match arg
    case Absent => false
    case Null => current != None
    case Is(v) => current != Some(v)
    case Junk => true
  }

  datatype Updates = Updates(ingressType: Option<string>, dataPlanePort: Option<Option<int>>, protocol: Option<string>)

  datatype Work = Assign(requested: Arg<int>, sandbox: Arg<int>) | StopPublishing

  datatype Plan = NoChange | Refuse(status: int) | Change(updates: Updates, work: Work)

  predicate WantsChange(seen: Row, req: Request) {
    || Differs(req.ingressType, Some(EffectiveType(seen)))
    || Differs(req.publicPort, PublicPort(seen, Production))
    || Differs(req.dataPlanePort, EffectiveDataPlane(seen))
    || Differs(req.protocol, Some(StoredProtocol(seen)))
    || Differs(req.sandboxPort, PublicPort(seen, Sandbox))
    || (req.ingressType == Is(EffectiveType(seen)) && Publishes(seen) && PublicPort(seen, Production) == None)
  }

  function NextType(seen: Row, req: Request): string {
    if req.ingressType.Is? then req.ingressType.value else EffectiveType(seen)
  }

  function UpdatesOf(req: Request, next: string): Updates {
    Updates(
      if req.ingressType.Is? then Some(req.ingressType.value) else None,
      if req.dataPlanePort == Null then Some(None)
      else if req.dataPlanePort.Is? then Some(Some(req.dataPlanePort.value))
      else None,
      if next == "dual" && req.protocol.Is? then Some(req.protocol.value) else None)
  }

  function ApplyUpdates(row: Row, u: Updates): Row {
    row.(ingressType := if u.ingressType == None then row.ingressType else u.ingressType.value,
         dataPlanePort := if u.dataPlanePort == None then row.dataPlanePort else u.dataPlanePort.value,
         protocol := if u.protocol == None then row.protocol else u.protocol.value)
  }

  /** The refusals before the transaction, in terms of the row the handler read. */
  predicate Invalid(seen: Row, req: Request) {
    var next := NextType(seen, req);
    var dataPlane := ApplyUpdates(seen, UpdatesOf(req, next)).dataPlanePort;
    || (req.ingressType != Absent && !(req.ingressType.Is? && IngressType(req.ingressType.value)))
    || (next == "http" && req.sandboxPort != Absent && req.sandboxPort != Null)
    || (req.publicPort != Absent && (next == "http" || req.publicPort == Null))
    || (req.dataPlanePort == Null && next == "dual")
    || (req.dataPlanePort != Absent && req.dataPlanePort != Null
        && !(next == "dual" && req.dataPlanePort.Is? && DataPlanePort(req.dataPlanePort.value)))
    || (req.protocol != Absent && next != "dual" && req.protocol != Is("tcp") && req.protocol != Is(StoredProtocol(seen)))
    || (req.protocol != Absent && next == "dual" && req.protocol != Is("tcp") && req.protocol != Is("udp"))
    || (next == "tcp" && dataPlane != None)
    || (next == "dual" && (dataPlane == None || !DataPlanePort(dataPlane.value)))
  }

  function PlanOf(seen: Row, req: Request): Plan {
    if !WantsChange(seen, req) then NoChange
    else if !req.platformAdmin then Refuse(403)
    else if Invalid(seen, req) then Refuse(400)
    else
      var next := NextType(seen, req);
      Change(UpdatesOf(req, next), if next == "http" then StopPublishing else Assign(req.publicPort, req.sandboxPort))
  }

  // ---- the port registry ------------------------------------------------------------------------------

  /** One app_host_ports row; host_port is the primary key, so the registry is a map. */
  datatype Reservation = Reservation(app: AppId, env: Env, draining: bool)

  type Ports = map<int, Reservation>

  predicate Owned(ports: Ports, port: int, app: AppId, env: Env) {
    port in ports && ports[port].app == app && ports[port].env == env
  }

  /** `blocked`: WHATWG-blocked ports, AppCrane's own, Caddy's admin port, and every slot's ports. */
  predicate Assignable(ports: Ports, port: int, app: AppId, env: Env, blocked: set<int>) {
    PUBLIC_PORT_MIN <= port <= PUBLIC_PORT_MAX && port !in blocked && (port in ports ==> Owned(ports, port, app, env))
  }

  function Allocate(ports: Ports, app: AppId, env: Env, blocked: set<int>, from: int): Option<int>
    decreases AUTO_PORT_MAX - from
  {
    if from > AUTO_PORT_MAX then None
    else if Assignable(ports, from, app, env, blocked) then Some(from)
    else Allocate(ports, app, env, blocked, from + 1)
  }

  function Unpin(ports: Ports, app: AppId, env: Env): Ports {
    map p | p in ports && ports[p] != Reservation(app, env, false) :: ports[p]
  }

  function Free(ports: Ports, app: AppId, env: Env): Ports {
    map p | p in ports && !Owned(ports, p, app, env) :: ports[p]
  }

  function FreeDraining(ports: Ports, app: AppId, env: Env): Ports {
    map p | p in ports && ports[p] != Reservation(app, env, true) :: ports[p]
  }

  function Drain(ports: Ports, app: AppId, env: Env, held: int): Ports {
    if exists p | p in ports :: ports[p] == Reservation(app, env, false)
    then map p | p in ports :: if ports[p] == Reservation(app, env, false) then Reservation(app, env, true) else ports[p]
    else if held in ports then ports
    else ports[held := Reservation(app, env, true)]
  }

  datatype Grant = Grant(ports: Ports, row: Row)

  /** Replaces the pinned port; None where the primary key refuses the insert. */
  function Claim(ports: Ports, row: Row, app: AppId, env: Env, port: int): Option<Grant> {
    var rest := Unpin(ports, app, env);
    if port in rest then None
    else Some(Grant(rest[port := Reservation(app, env, false)], SetHeld(row, env, Some(port))))
  }

  /** A re-pin of an environment with a live deployment keeps the old number reserved. */
  predicate Drains(row: Row, env: Env, live: bool, port: int) {
    Held(row, env) != None && Held(row, env) != Some(port) && Publishes(row) && live
  }

  /** assignPublicPort; None where it throws. */
  function AssignPort(ports: Ports, row: Row, app: AppId, env: Env, live: bool, requested: Arg<int>, blocked: set<int>)
    : Option<Grant>
  {
    match requested
    case Absent | Null =>
      if Held(row, env) != None then Some(Grant(ports, row))
      else
        var port := Allocate(ports, app, env, blocked, AUTO_PORT_MIN);
        if port == None then None else Claim(ports, row, app, env, port.value)
    case Is(port) =>
      var kept := if Drains(row, env, live, port) then Drain(ports, app, env, Held(row, env).value) else ports;
      if Assignable(kept, port, app, env, blocked) then Claim(kept, row, app, env, port) else None
    case Junk => None
  }

  function ReleasePort(ports: Ports, row: Row, app: AppId, env: Env): Grant {
    Grant(Free(ports, app, env), SetHeld(row, env, None))
  }

  // ---- the platform as a state machine -------------------------------------------------------------------

  datatype Entry = Entry(app: AppId, before: Config, pendingBefore: Option<int>, after: Config, pendingAfter: Option<int>)

  /** `bound` is the public port the running container of an environment was started with. */
  datatype State = State(
    rows: map<AppId, Row>, ports: Ports, live: set<(AppId, Env)>, bound: map<(AppId, Env), int>, audit: seq<Entry>)

  datatype Outcome = Unchanged | Refused | Accepted

  /** Everything the transaction does to the row and the registry; None where it rolls back. */
  function Transaction(s: State, app: AppId, u: Updates, w: Work, blocked: set<int>): Option<Grant>
    requires app in s.rows
  {
    var row := ApplyUpdates(s.rows[app], u);
    if w.StopPublishing? then Some(Grant(s.ports, row))
    else
      var first := AssignPort(s.ports, row, app, Production, (app, Production) in s.live, w.requested, blocked);
      if first == None || w.sandbox == Absent then first
      else if w.sandbox == Null then Some(ReleasePort(first.value.ports, first.value.row, app, Sandbox))
      else AssignPort(first.value.ports, first.value.row, app, Sandbox, (app, Sandbox) in s.live, w.sandbox, blocked)
  }

  /** `seen` is the row the handler read before it planned the change. */
  function Put(s: State, app: AppId, seen: Row, req: Request, blocked: set<int>): (State, Outcome) {
    if app !in s.rows then (s, Refused)
    else
      match PlanOf(seen, req)
      case NoChange => (s, Unchanged)
      case Refuse(_) => (s, Refused)
      case Change(u, w) =>
        var done := Transaction(s, app, u, w, blocked);
        if done == None then (s, Refused)
        else
          var row := done.value.row;
          var entry := Entry(app, ConfigOf(seen), PendingRelease(seen), ConfigOf(row), PendingRelease(row));
          (s.(rows := s.rows[app := row], ports := done.value.ports, audit := s.audit + [entry]), Accepted)
  }

  /** docker run: the old container is gone and the new one binds what the row publishes now. */
  function Launch(s: State, app: AppId, env: Env): State {
    if app !in s.rows then s
    else
      var port := PublicPort(s.rows[app], env);
      s.(bound := if port == None then s.bound - {(app, env)} else s.bound[(app, env) := port.value])
  }

  /** releasePendingPortAfterRecreate, which runs when docker run has returned. */
  function Settle(s: State, app: AppId, env: Env): State {
    if app !in s.rows then s
    else if env == Production && PendingRelease(s.rows[app]) != None then
      var g := ReleasePort(FreeDraining(s.ports, app, env), s.rows[app], app, env);
      s.(ports := g.ports, rows := s.rows[app := g.row])
    else s.(ports := FreeDraining(s.ports, app, env))
  }

  datatype Event =
    | PutIngress(app: AppId, seen: Row, req: Request, blocked: set<int>)
    | Launched(app: AppId, env: Env)
    | Settled(app: AppId, env: Env)
    | Stopped(app: AppId, env: Env)
    | Deployment(app: AppId, env: Env, live: bool)

  function Next(s: State, e: Event): State {
    match e
    case PutIngress(app, seen, req, blocked) => Put(s, app, seen, req, blocked).0
    case Launched(app, env) => Launch(s, app, env)
    case Settled(app, env) => Settle(s, app, env)
    case Stopped(app, env) => s.(bound := s.bound - {(app, env)})
    case Deployment(app, env, live) => s.(live := if live then s.live + {(app, env)} else s.live - {(app, env)})
  }

  function Run(s: State, es: seq<Event>): State {
    if es == [] then s else Next(Run(s, es[..|es| - 1]), es[|es| - 1])
  }

  // ---- columns and registry agree --------------------------------------------------------------------------

  /** One app and environment: the column is the pinned row, and without a column there is no row. */
  ghost predicate Agrees(ports: Ports, row: Row, app: AppId, env: Env) {
    && (forall p | p in ports :: ports[p] == Reservation(app, env, false) ==> Held(row, env) == Some(p))
    && (Held(row, env) != None ==>
          Held(row, env).value in ports && ports[Held(row, env).value] == Reservation(app, env, false))
    && (Held(row, env) == None ==> forall p | p in ports :: !Owned(ports, p, app, env))
  }

  ghost predicate AllAgree(ports: Ports, rows: map<AppId, Row>) {
    forall app, env | app in rows :: Agrees(ports, rows[app], app, env)
  }

  ghost predicate Registry(s: State) {
    AllAgree(s.ports, s.rows) && forall k | k in s.bound :: k.0 in s.rows
  }

  /** Nothing of any other app or environment is touched. */
  ghost predicate OthersKept(before: Ports, after: Ports, app: AppId, env: Env) {
    && (forall p | p in before && !Owned(before, p, app, env) :: p in after && after[p] == before[p])
    && (forall p | p in after && !Owned(after, p, app, env) :: p in before && after[p] == before[p])
  }

  /**
   * A port this app owned stays its own, unless it was the pinned number and the environment's
   * deployment was not live when another number was requested.
   */
  ghost predicate OwnKept(before: Ports, row: Row, after: Ports, app: AppId, env: Env, live: bool, requested: Arg<int>) {
    forall p | Owned(before, p, app, env) ::
      Owned(after, p, app, env) <==> !(requested.Is? && Held(row, env) == Some(p) && Loses(row, env, live, requested.value))
  }

  predicate Loses(row: Row, env: Env, live: bool, port: int) {
    Held(row, env) != None && Held(row, env) != Some(port) && !(Publishes(row) && live)
  }

  lemma {:induction false} AllocateAssignable(ports: Ports, app: AppId, env: Env, blocked: set<int>, from: int)
    ensures var port := Allocate(ports, app, env, blocked, from);
            port != None ==>
              && from <= port.value <= AUTO_PORT_MAX && Assignable(ports, port.value, app, env, blocked)
              && forall p | from <= p < port.value :: !Assignable(ports, p, app, env, blocked)
    decreases AUTO_PORT_MAX - from
  {
    if from <= AUTO_PORT_MAX && !Assignable(ports, from, app, env, blocked) {
      AllocateAssignable(ports, app, env, blocked, from + 1);
    }
  }

  lemma AssignAgrees(ports: Ports, row: Row, app: AppId, env: Env, live: bool, requested: Arg<int>, blocked: set<int>)
    requires Agrees(ports, row, app, env)
    ensures var g := AssignPort(ports, row, app, env, live, requested, blocked);
            g != None ==>
              && Agrees(g.value.ports, g.value.row, app, env)
              && Held(g.value.row, env) != None
              && g.value.row == SetHeld(row, env, Held(g.value.row, env))
              && OthersKept(ports, g.value.ports, app, env)
              && OwnKept(ports, row, g.value.ports, app, env, live, requested)
  {
    match requested
    case Absent | Null =>
      var port := Allocate(ports, app, env, blocked, AUTO_PORT_MIN);
      AllocateAssignable(ports, app, env, blocked, AUTO_PORT_MIN);
      if Held(row, env) == None && port != None { ClaimAgrees(ports, row, app, env, port.value, blocked); }
    case Is(port) =>
      var kept := if Drains(row, env, live, port) then Drain(ports, app, env, Held(row, env).value) else ports;
      DrainKeepsOwners(ports, row, app, env);
      if Assignable(kept, port, app, env, blocked) {
        ClaimAgrees(kept, row, app, env, port, blocked);
      }
    case Junk =>
  }

  /** Pinned numbers, of which there is at most the held one, move to draining; all owners stay. */
  lemma DrainKeepsOwners(ports: Ports, row: Row, app: AppId, env: Env)
    requires Agrees(ports, row, app, env)
    ensures Held(row, env) != None ==>
      var kept := Drain(ports, app, env, Held(row, env).value);
      && kept == ports[Held(row, env).value := Reservation(app, env, true)]
      && OthersKept(ports, kept, app, env) && forall p :: Owned(kept, p, app, env) <==> Owned(ports, p, app, env)
  {
    if Held(row, env) != None {
      var held := Held(row, env).value;
      var kept := Drain(ports, app, env, held);
      assert ports[held] == Reservation(app, env, false);
      assert kept.Keys == ports.Keys;
      forall p | p in ports ensures kept[p] == if p == held then Reservation(app, env, true) else ports[p] {
        assert ports[p] == Reservation(app, env, false) ==> p == held;
      }
    }
  }

  /** Claiming changes one environment's ports only: its pinned number is replaced. */
  lemma ClaimAgrees(ports: Ports, row: Row, app: AppId, env: Env, port: int, blocked: set<int>)
    requires Assignable(ports, port, app, env, blocked)
    ensures var g := Claim(ports, row, app, env, port);
            g != None ==>
              && Agrees(g.value.ports, g.value.row, app, env)
              && g.value.row == SetHeld(row, env, Some(port))
              && OthersKept(ports, g.value.ports, app, env)
              && forall p :: Owned(g.value.ports, p, app, env) <==>
                   p == port || (Owned(ports, p, app, env) && ports[p].draining)
  {
  }

  /**
   * A named number is granted exactly when it is in range, not blocked, and free or already this
   * environment's pinned one. A number of its own that is still draining passes the check for other
   * owners but not the primary key: moving back to it is refused until the container is recreated.
   */
  lemma NamedPortGrantedIff(ports: Ports, row: Row, app: AppId, env: Env, live: bool, port: int, blocked: set<int>)
    requires Agrees(ports, row, app, env)
    ensures var g := AssignPort(ports, row, app, env, live, Is(port), blocked);
            && (g != None <==>
                  1024 <= port <= 65535 && port !in blocked
                  && (port !in ports || Held(row, env) == Some(port)))
            && (g != None ==>
                  Held(g.value.row, env) == Some(port) && g.value.ports[port] == Reservation(app, env, false)
                  && (Drains(row, env, live, port) ==>
                        Owned(g.value.ports, Held(row, env).value, app, env)
                        && g.value.ports[Held(row, env).value].draining))
  {
  }

  lemma {:induction false} AllocateFinds(ports: Ports, app: AppId, env: Env, blocked: set<int>, from: int, p: int)
    requires from <= p <= AUTO_PORT_MAX && Assignable(ports, p, app, env, blocked)
    ensures Allocate(ports, app, env, blocked, from) != None
    decreases AUTO_PORT_MAX - from
  {
    if !Assignable(ports, from, app, env, blocked) { AllocateFinds(ports, app, env, blocked, from + 1, p); }
  }

  predicate FreeAuto(ports: Ports, blocked: set<int>, p: int) {
    31000 <= p <= 31999 && p !in blocked && p !in ports
  }

  /**
   * Without a named number a held one is returned with nothing touched; otherwise the lowest free
   * number of the automatic range is pinned, and the request fails only when there is none.
   */
  lemma UnnamedPortIsHeldOrLowestFree(ports: Ports, row: Row, app: AppId, env: Env, live: bool, blocked: set<int>)
    requires Agrees(ports, row, app, env)
    ensures var g := AssignPort(ports, row, app, env, live, Absent, blocked);
            && g == AssignPort(ports, row, app, env, live, Null, blocked)
            && (Held(row, env) != None ==> g == Some(Grant(ports, row)))
            && (Held(row, env) == None ==>
                  && (g == None <==> forall p :: !FreeAuto(ports, blocked, p))
                  && (g != None ==>
                        Held(g.value.row, env) != None
                        && var port := Held(g.value.row, env).value;
                           FreeAuto(ports, blocked, port) && (forall p | p < port :: !FreeAuto(ports, blocked, p))
                           && g.value.ports == ports[port := Reservation(app, env, false)]))
  {
    var port := Allocate(ports, app, env, blocked, AUTO_PORT_MIN);
    AllocateAssignable(ports, app, env, blocked, AUTO_PORT_MIN);
    if Held(row, env) == None {
      forall p | p in ports ensures ports[p] != Reservation(app, env, false) { assert !Owned(ports, p, app, env); }
      assert Unpin(ports, app, env) == ports;
      forall p ensures FreeAuto(ports, blocked, p) <==>
                       AUTO_PORT_MIN <= p <= AUTO_PORT_MAX && Assignable(ports, p, app, env, blocked)
      {
      }
      if p :| FreeAuto(ports, blocked, p) { AllocateFinds(ports, app, env, blocked, AUTO_PORT_MIN, p); }
    }
  }

  lemma ReleaseAgrees(ports: Ports, row: Row, app: AppId, env: Env)
    ensures var g := ReleasePort(ports, row, app, env);
            && Agrees(g.ports, g.row, app, env)
            && OthersKept(ports, g.ports, app, env)
            && forall p :: !Owned(g.ports, p, app, env)
  {
  }

  /** Changing one environment's ports leaves every other one's agreement alone. */
  lemma OthersAgree(before: Ports, after: Ports, app: AppId, env: Env, other: AppId, row: Row, otherEnv: Env)
    requires OthersKept(before, after, app, env) && (other, otherEnv) != (app, env)
    requires Agrees(before, row, other, otherEnv)
    ensures Agrees(after, row, other, otherEnv)
  {
    if Held(row, otherEnv) != None {
      var p := Held(row, otherEnv).value;
      assert !Owned(before, p, app, env);
    }
  }

  lemma GrantAgrees(ports: Ports, rows: map<AppId, Row>, app: AppId, env: Env, g: Grant)
    requires AllAgree(ports, rows) && app in rows && OthersKept(ports, g.ports, app, env)
    requires Agrees(g.ports, g.row, app, env) && g.row == SetHeld(rows[app], env, Held(g.row, env))
    ensures AllAgree(g.ports, rows[app := g.row])
  {
    var after := rows[app := g.row];
    forall other, otherEnv | other in after ensures Agrees(g.ports, after[other], other, otherEnv) {
      if (other, otherEnv) != (app, env) {
        OthersAgree(ports, g.ports, app, env, other, rows[other], otherEnv);
      }
    }
  }

  /** The two ways a change returns a number to the pool at once. */
  predicate LetsGo(s: State, app: AppId, u: Updates, w: Work, env: Env, port: int)
    requires app in s.rows
  {
    var row := ApplyUpdates(s.rows[app], u);
    w.Assign? &&
    var arg := if env == Production then w.requested else w.sandbox;
    || (env == Sandbox && arg == Null)
    || (arg.Is? && Held(row, env) == Some(port) && Loses(row, env, (app, env) in s.live, arg.value))
  }

  /** Columns and registry agree after the transaction, and it lets go of exactly those numbers. */
  lemma TransactionAgrees(s: State, app: AppId, u: Updates, w: Work, blocked: set<int>)
    requires app in s.rows && AllAgree(s.ports, s.rows)
    ensures var done := Transaction(s, app, u, w, blocked);
            done != None ==>
              && AllAgree(done.value.ports, s.rows[app := done.value.row])
              && forall other, env, p | Owned(s.ports, p, other, env) ::
                   Owned(done.value.ports, p, other, env) <==> !(other == app && LetsGo(s, app, u, w, env, p))
  {
    var row := ApplyUpdates(s.rows[app], u);
    var rows := s.rows[app := row];
    UpdatesAgree(s, app, u);
    if w.Assign? {
      var first := AssignPort(s.ports, row, app, Production, (app, Production) in s.live, w.requested, blocked);
      assert Agrees(s.ports, rows[app], app, Production);
      AssignAgrees(s.ports, row, app, Production, (app, Production) in s.live, w.requested, blocked);
      if first != None {
        GrantAgrees(s.ports, rows, app, Production, first.value);
        var mid := rows[app := first.value.row];
        assert mid == s.rows[app := first.value.row];
        SecondHalf(s, app, u, w, blocked, first.value);
      }
    }
  }

  lemma UpdatesAgree(s: State, app: AppId, u: Updates)
    requires app in s.rows && AllAgree(s.ports, s.rows)
    ensures AllAgree(s.ports, s.rows[app := ApplyUpdates(s.rows[app], u)])
  {
    var row := ApplyUpdates(s.rows[app], u);
    forall env ensures Agrees(s.ports, row, app, env) {
      assert Agrees(s.ports, s.rows[app], app, env) && Held(row, env) == Held(s.rows[app], env);
    }
  }

  lemma SecondHalf(s: State, app: AppId, u: Updates, w: Work, blocked: set<int>, first: Grant)
    requires app in s.rows && w.Assign? && AllAgree(first.ports, s.rows[app := first.row])
    requires var row := ApplyUpdates(s.rows[app], u);
             && first.row == SetHeld(row, Production, Held(first.row, Production))
             && OthersKept(s.ports, first.ports, app, Production)
             && OwnKept(s.ports, row, first.ports, app, Production, (app, Production) in s.live, w.requested)
             && AssignPort(s.ports, row, app, Production, (app, Production) in s.live, w.requested, blocked) == Some(first)
    ensures var done := Transaction(s, app, u, w, blocked);
            done != None ==>
              && AllAgree(done.value.ports, s.rows[app := done.value.row])
              && forall other, env, p | Owned(s.ports, p, other, env) ::
                   Owned(done.value.ports, p, other, env) <==> !(other == app && LetsGo(s, app, u, w, env, p))
  {
    var rows := s.rows[app := first.row];
    var done := Transaction(s, app, u, w, blocked);
    if done != None && w.sandbox != Absent {
      assert Agrees(first.ports, rows[app], app, Sandbox);
      ReleaseAgrees(first.ports, first.row, app, Sandbox);
      AssignAgrees(first.ports, first.row, app, Sandbox, (app, Sandbox) in s.live, w.sandbox, blocked);
      GrantAgrees(first.ports, rows, app, Sandbox, done.value);
      assert rows[app := done.value.row] == s.rows[app := done.value.row];
    }
  }

  // ---- bound ports stay reserved ------------------------------------------------------------------------

  /** Every host port a running container binds is reserved to that app and environment. */
  ghost predicate BoundReserved(s: State) {
    forall k | k in s.bound :: Owned(s.ports, s.bound[k], k.0, k.1)
  }

  /** Checkable before the step: what it would let go of is not bound by the running container. */
  predicate Safe(s: State, e: Event) {
    match e
    case PutIngress(app, seen, req, blocked) =>
      var plan := PlanOf(seen, req);
      app in s.rows && plan.Change? && Transaction(s, app, plan.updates, plan.work, blocked) != None ==>
        && ((app, Production) in s.bound ==>
              !LetsGo(s, app, plan.updates, plan.work, Production, s.bound[(app, Production)]))
        && ((app, Sandbox) in s.bound ==>
              !LetsGo(s, app, plan.updates, plan.work, Sandbox, s.bound[(app, Sandbox)]))
    case Settled(app, env) =>
      app in s.rows && (app, env) in s.bound ==>
        && !(s.bound[(app, env)] in s.ports && s.ports[s.bound[(app, env)]].draining)
        && !(env == Production && PendingRelease(s.rows[app]) != None)
    case _ => true
  }

  /** Whatever happens, columns and registry stay in agreement. */
  lemma StepKeepsRegistry(s: State, e: Event)
    requires Registry(s)
    ensures Registry(Next(s, e))
  {
    match e
    case PutIngress(app, seen, req, blocked) =>
      var plan := PlanOf(seen, req);
      if app in s.rows && plan.Change? { TransactionAgrees(s, app, plan.updates, plan.work, blocked); }
    case Settled(app, env) =>
      if app in s.rows { SettleAgrees(s, app, env); }
    case Launched(_, _) =>
    case Stopped(_, _) =>
    case Deployment(_, _, _) =>
  }

  lemma SettleAgrees(s: State, app: AppId, env: Env)
    requires Registry(s) && app in s.rows
    ensures Registry(Settle(s, app, env))
  {
    var freed := FreeDraining(s.ports, app, env);
    var row := s.rows[app];
    assert Agrees(s.ports, row, app, env);
    assert s.rows == s.rows[app := row];
    GrantAgrees(s.ports, s.rows, app, env, Grant(freed, row));
    if env == Production && PendingRelease(row) != None {
      ReleaseAgrees(freed, row, app, env);
      GrantAgrees(freed, s.rows, app, env, ReleasePort(freed, row, app, env));
    }
  }

  lemma PutKeepsBound(s: State, app: AppId, seen: Row, req: Request, blocked: set<int>)
    requires Registry(s) && BoundReserved(s)
    ensures BoundReserved(Put(s, app, seen, req, blocked).0) <==> Safe(s, PutIngress(app, seen, req, blocked))
  {
    var plan := PlanOf(seen, req);
    if app in s.rows && plan.Change? {
      TransactionAgrees(s, app, plan.updates, plan.work, blocked);
      var done := Transaction(s, app, plan.updates, plan.work, blocked);
      if done != None {
        var after := Put(s, app, seen, req, blocked).0;
        forall k | k in s.bound
          ensures Owned(after.ports, s.bound[k], k.0, k.1)
             <==> !(k.0 == app && LetsGo(s, app, plan.updates, plan.work, k.1, s.bound[k]))
        {
          assert Owned(s.ports, s.bound[k], k.0, k.1);
        }
      }
    }
  }

  lemma SettleKeepsBound(s: State, app: AppId, env: Env)
    requires Registry(s) && BoundReserved(s)
    ensures BoundReserved(Settle(s, app, env)) <==> Safe(s, Settled(app, env))
  {
    if app in s.rows {
      assert Agrees(s.ports, s.rows[app], app, env);
      forall k | k in s.bound && k != (app, env)
        ensures Owned(Settle(s, app, env).ports, s.bound[k], k.0, k.1)
      {
        assert Owned(s.ports, s.bound[k], k.0, k.1);
      }
      if (app, env) in s.bound {
        assert Owned(s.ports, s.bound[(app, env)], app, env);
      }
    }
  }

  /** One step keeps every bound port reserved if and only if it is safe. */
  lemma StepKeepsBoundIffSafe(s: State, e: Event)
    requires Registry(s) && BoundReserved(s)
    ensures BoundReserved(Next(s, e)) <==> Safe(s, e)
  {
    match e
    case PutIngress(app, seen, req, blocked) => PutKeepsBound(s, app, seen, req, blocked);
    case Settled(app, env) => SettleKeepsBound(s, app, env);
    case Launched(app, env) => LaunchKeepsBound(s, app, env);
    case Stopped(_, _) =>
    case Deployment(_, _, _) =>
  }

  lemma LaunchKeepsBound(s: State, app: AppId, env: Env)
    requires Registry(s) && BoundReserved(s)
    ensures BoundReserved(Launch(s, app, env))
    ensures Safe(Launch(s, app, env), Settled(app, env))
  {
    if app in s.rows && PublicPort(s.rows[app], env) != None {
      var p := PublicPort(s.rows[app], env).value;
      assert Agrees(s.ports, s.rows[app], app, env) && Held(s.rows[app], env) == Some(p);
      assert Owned(s.ports, p, app, env);
    }
  }

  /** Every step of a run was safe when it was taken. */
  predicate SafeRun(s: State, es: seq<Event>) {
    es == [] || (SafeRun(s, es[..|es| - 1]) && Safe(Run(s, es[..|es| - 1]), es[|es| - 1]))
  }

  /** In every state the run goes through. */
  ghost predicate ReservedThroughout(s: State, es: seq<Event>) {
    BoundReserved(Run(s, es)) && (es != [] ==> ReservedThroughout(s, es[..|es| - 1]))
  }

  /**
   * Every bound port stays reserved to its container throughout a run if and only if every step of
   * the run is safe; and then no two containers share a port.
   */
  lemma {:induction false} RunsKeepBoundIffSafe(s: State, es: seq<Event>)
    requires Registry(s) && BoundReserved(s)
    ensures Registry(Run(s, es)) && (ReservedThroughout(s, es) <==> SafeRun(s, es))
    ensures SafeRun(s, es) ==> NoSharedPort(Run(s, es).bound)
  {
    if es != [] {
      var front := es[..|es| - 1];
      RunsKeepBoundIffSafe(s, front);
      StepKeepsRegistry(Run(s, front), es[|es| - 1]);
      if ReservedThroughout(s, front) { StepKeepsBoundIffSafe(Run(s, front), es[|es| - 1]); }
    }
    if BoundReserved(Run(s, es)) { ReservedPortsAreDistinct(Run(s, es)); }
  }

  ghost predicate NoSharedPort(bound: map<(AppId, Env), int>) {
    forall j, k | j in bound && k in bound && j != k :: bound[j] != bound[k]
  }

  lemma ReservedPortsAreDistinct(s: State)
    requires BoundReserved(s)
    ensures NoSharedPort(s.bound)
  {
    forall j, k | j in s.bound && k in s.bound && s.bound[j] == s.bound[k] ensures j == k {
      assert Owned(s.ports, s.bound[j], j.0, j.1) && Owned(s.ports, s.bound[k], k.0, k.1);
    }
  }

  /**
   * What the flip to http and the draining re-pin were built for: changes that neither drop a
   * sandbox port nor move the number of an environment that is bound but has no live deployment
   * are safe, and so is a recreation with no change in between.
   */
  lemma OrdinaryStepsAreSafe(s: State, app: AppId, seen: Row, req: Request, blocked: set<int>, env: Env)
    requires Registry(s) && BoundReserved(s)
    ensures
      && req.sandboxPort != Null
      && (forall e: Env | (app, e) in s.bound :: (app, e) in s.live)
      && (app in s.rows ==> EffectiveType(seen) == EffectiveType(s.rows[app]))
      ==> Safe(s, PutIngress(app, seen, req, blocked))
    ensures Safe(Launch(s, app, env), Settled(app, env))
  {
    LaunchKeepsBound(s, app, env);
  }

  /**
   * A change between the start of a recreation and its release does break it: the new container was
   * started with the number, and the release takes that very number for the old container's.
   */
  lemma FlipDuringRecreateFreesTheBoundPort(s: State, app: AppId, blocked: set<int>)
    requires Registry(s) && app in s.rows && PublicPort(s.rows[app], Production) != None
    ensures var flip := Request(true, Is("http"), Absent, Absent, Absent, Absent);
            var flipped := Put(Launch(s, app, Production), app, s.rows[app], flip, blocked).0;
            var end := Settle(flipped, app, Production);
            var port := PublicPort(s.rows[app], Production).value;
            (app, Production) in end.bound && end.bound[(app, Production)] == port && port !in end.ports
  {
    var row := s.rows[app];
    var flip := Request(true, Is("http"), Absent, Absent, Absent, Absent);
    assert PlanOf(row, flip) == Change(Updates(Some("http"), None, None), StopPublishing);
    assert Agrees(s.ports, row, app, Production) && Owned(s.ports, row.publicPort.value, app, Production);
  }

  /** Any other publishing app can claim a number that the registry does not hold, and bind it. */
  lemma ClaimThenLaunch(s: State, app: AppId, port: int, blocked: set<int>)
    requires app in s.rows && EffectiveType(s.rows[app]) == "tcp" && s.rows[app].dataPlanePort == None
    requires PUBLIC_PORT_MIN <= port <= PUBLIC_PORT_MAX && port !in blocked && port !in s.ports
    requires s.rows[app].publicPort != Some(port) && (app, Production) !in s.live
    ensures var req := Request(true, Absent, Is(port), Absent, Absent, Absent);
            Launch(Put(s, app, s.rows[app], req, blocked).0, app, Production).bound == s.bound[(app, Production) := port]
  {
    var row := s.rows[app];
    var req := Request(true, Absent, Is(port), Absent, Absent, Absent);
    assert PlanOf(row, req) == Change(Updates(None, None, None), Assign(Is(port), Absent));
    assert port !in Unpin(s.ports, app, Production);
  }

  /** Dropping a sandbox port frees it although the running sandbox container still binds it. */
  lemma DroppedSandboxPortIsHandedOut()
    ensures Registry(TwoApps()) && BoundReserved(TwoApps()) && RowsOk(TwoApps())
    ensures var drop := Request(true, Absent, Absent, Null, Absent, Absent);
            var claim := Request(true, Absent, Is(8080), Absent, Absent, Absent);
            var mid := Put(TwoApps(), 1, App1(), drop, {}).0;
            Launch(Put(mid, 2, App2(), claim, {}).0, 2, Production).bound == map[(1, Sandbox) := 8080][(2, Production) := 8080]
  {
    var s := TwoApps();
    TwoAppsAreFine();
    assert s.rows[1] == App1() && s.rows[2] == App2();
    DropFrees(s, 1, {});
    var mid := Put(s, 1, App1(), Request(true, Absent, Absent, Null, Absent, Absent), {}).0;
    assert 2 in mid.rows && mid.rows[2] == App2() && 8080 !in mid.ports;
    ClaimThenLaunch(mid, 2, 8080, {});
  }

  lemma TwoAppsAreFine()
    ensures Registry(TwoApps()) && BoundReserved(TwoApps()) && RowsOk(TwoApps())
  {
    var s := TwoApps();
    assert s.rows[1] == App1() && s.rows[2] == App2();
    forall app, env | app in s.rows ensures Agrees(s.ports, s.rows[app], app, env) {
      assert app == 1 || app == 2;
    }
  }

  function App1(): Row {
    Row("tcp", Some(31000), Some(8080), None, "tcp")
  }

  function App2(): Row {
    Row("tcp", Some(31001), None, None, "tcp")
  }

  function TwoApps(): State {
    State(
      map[1 := App1(), 2 := App2()],
      map[31000 := Reservation(1, Production, false), 8080 := Reservation(1, Sandbox, false),
          31001 := Reservation(2, Production, false)],
      {(1, Sandbox)}, map[(1, Sandbox) := 8080], [])
  }

  lemma DropFrees(s: State, app: AppId, blocked: set<int>)
    requires app in s.rows && s.rows[app].ingressType == "tcp" && s.rows[app].dataPlanePort == None
    requires s.rows[app].publicPort != None && s.rows[app].sandboxPort != None
    ensures var req := Request(true, Absent, Absent, Null, Absent, Absent);
            var after := Put(s, app, s.rows[app], req, blocked).0;
            && after.ports == Free(s.ports, app, Sandbox) && after.bound == s.bound && after.live == s.live
            && after.rows == s.rows[app := s.rows[app].(sandboxPort := None)]
  {
    var row := s.rows[app];
    var req := Request(true, Absent, Absent, Null, Absent, Absent);
    assert PlanOf(row, req) == Change(Updates(None, None, None), Assign(Absent, Null));
  }

  // ---- what a recreation releases ---------------------------------------------------------------------------

  /**
   * A release after a recreation, whatever the container binds: the environment has no draining
   * number left; a production row that stopped publishing holds no number at all; otherwise row and
   * pinned number stay; and nothing of any other app or environment changes.
   */
  lemma SettleReleases(s: State, app: AppId, env: Env)
    requires Registry(s) && app in s.rows
    ensures var t, row := Next(s, Settled(app, env)), s.rows[app];
            var stopped := env == Production && row.ingressType !in {"tcp", "dual"};
            && (forall p | p in t.ports :: t.ports[p] != Reservation(app, env, true))
            && (stopped ==>
                  t.rows == s.rows[app := row.(publicPort := None)]
                  && forall p | p in t.ports :: !(t.ports[p].app == app && t.ports[p].env == Production))
            && (!stopped ==>
                  t.rows == s.rows
                  && forall p | p in s.ports && s.ports[p] == Reservation(app, env, false) ::
                       p in t.ports && t.ports[p] == s.ports[p])
            && (forall p | p in s.ports && (s.ports[p].app, s.ports[p].env) != (app, env) ::
                  p in t.ports && t.ports[p] == s.ports[p])
            && (forall p | p in t.ports :: p in s.ports && t.ports[p] == s.ports[p])
            && t.bound == s.bound && t.live == s.live && t.audit == s.audit
  {
    var row := s.rows[app];
    assert Agrees(s.ports, row, app, env);
    if env == Production && !Publishes(row) {
      assert row.publicPort == None ==> s.rows[app := row.(publicPort := None)] == s.rows by {
        if row.publicPort == None { assert row.(publicPort := None) == row; }
      }
      if row.publicPort == None {
        forall p | p in s.ports ensures !(s.ports[p].app == app && s.ports[p].env == Production) {
          assert !Owned(s.ports, p, app, Production);
        }
      }
    }
  }

  /** What a container start or stop leaves bound: what the row publishes, or nothing; others stay. */
  lemma StartsAndStopsBind(s: State, app: AppId, env: Env)
    requires app in s.rows && RowOk(s.rows[app])
    ensures var t, row := Next(s, Launched(app, env)), s.rows[app];
            && ((app, env) in t.bound <==> row.ingressType in {"tcp", "dual"} && Held(row, env) != None)
            && ((app, env) in t.bound ==> Some(t.bound[(app, env)]) == Held(row, env))
            && (forall k | k != (app, env) :: (k in t.bound <==> k in s.bound) && (k in s.bound ==> t.bound[k] == s.bound[k]))
            && t == s.(bound := t.bound)
    ensures var t := Next(s, Stopped(app, env));
            && (forall k :: k in t.bound <==> k in s.bound && k != (app, env))
            && (forall k | k in t.bound :: t.bound[k] == s.bound[k])
            && t == s.(bound := t.bound)
  {
    ControlPlaneStaysPrivate(s.rows[app], env);
  }

  lemma RunThree(s: State, a: Event, b: Event, c: Event)
    ensures Run(s, [a, b, c]) == Next(Next(Next(s, a), b), c)
  {
    assert [a, b, c][..2] == [a, b] && [a, b][..1] == [a] && [a][..0] == [];
    assert Run(s, []) == s && Run(s, [a]) == Next(s, a) && Run(s, [a, b]) == Next(Run(s, [a]), b);
  }

  /** Free again: any app and environment may have the number, unless it is blocked. */
  ghost predicate FreeForAll(ports: Ports, port: int) {
    forall app, env, blocked: set<int> | PUBLIC_PORT_MIN <= port <= PUBLIC_PORT_MAX && port !in blocked ::
      Assignable(ports, port, app, env, blocked)
  }

  /**
   * Flip, recreate, release: the number stays reserved until the container that bound it is gone,
   * and is then free for anyone; nothing is bound or held any more.
   */
  lemma FlippedPortComesFree(s: State, app: AppId, blocked: set<int>)
    requires Registry(s) && app in s.rows && RowOk(s.rows[app]) && Publishes(s.rows[app])
    ensures var flip := Request(true, Is("http"), Absent, Absent, Absent, Absent);
            var port := s.rows[app].publicPort.value;
            var flipped := Next(s, PutIngress(app, s.rows[app], flip, blocked));
            var end := Run(s, [PutIngress(app, s.rows[app], flip, blocked), Launched(app, Production), Settled(app, Production)]);
            && Owned(flipped.ports, port, app, Production) && flipped.bound == s.bound
            && FreeForAll(end.ports, port)
            && end.rows == s.rows[app := s.rows[app].(ingressType := "http", publicPort := None)]
            && (app, Production) !in end.bound
  {
    var row, flip := s.rows[app], Request(true, Is("http"), Absent, Absent, Absent, Absent);
    var put := PutIngress(app, row, flip, blocked);
    FlipKeepsPorts(s, app, blocked);
    StepKeepsRegistry(s, put);
    RunThree(s, put, Launched(app, Production), Settled(app, Production));
    StoppedPortComesFree(Next(s, put), app, row.publicPort.value);
  }

  /** The flip itself changes the type and nothing else of row, registry and containers. */
  lemma FlipKeepsPorts(s: State, app: AppId, blocked: set<int>)
    requires Registry(s) && app in s.rows && RowOk(s.rows[app]) && Publishes(s.rows[app])
    ensures var row := s.rows[app];
            var t := Next(s, PutIngress(app, row, Request(true, Is("http"), Absent, Absent, Absent, Absent), blocked));
            && t.rows == s.rows[app := row.(ingressType := "http")] && t.ports == s.ports && t.bound == s.bound
            && Owned(s.ports, row.publicPort.value, app, Production)
  {
    var row, flip := s.rows[app], Request(true, Is("http"), Absent, Absent, Absent, Absent);
    assert PlanOf(row, flip) == Change(Updates(Some("http"), None, None), StopPublishing);
    assert Agrees(s.ports, row, app, Production);
  }

  /** An app that stopped publishing is recreated: its number comes free. */
  lemma StoppedPortComesFree(s: State, app: AppId, port: int)
    requires Registry(s) && app in s.rows && s.rows[app].ingressType == "http" && s.rows[app].publicPort == Some(port)
    ensures var end := Next(Next(s, Launched(app, Production)), Settled(app, Production));
            && FreeForAll(end.ports, port) && (app, Production) !in end.bound
            && end.rows == s.rows[app := s.rows[app].(publicPort := None)]
  {
    var launched := Next(s, Launched(app, Production));
    StartsAndStopsBind(s, app, Production);
    StepKeepsRegistry(s, Launched(app, Production));
    SettleReleases(launched, app, Production);
    assert Agrees(s.ports, s.rows[app], app, Production);
    assert port in launched.ports && launched.ports[port] == Reservation(app, Production, false);
  }

  /**
   * Re-pin a live environment, recreate, release: the old number drains and stays reserved until
   * then, and is free for anyone afterwards; the new one is pinned and bound.
   */
  lemma RepinnedPortComesFree(s: State, app: AppId, port: int, blocked: set<int>)
    requires Registry(s) && app in s.rows && RowOk(s.rows[app]) && Publishes(s.rows[app]) && (app, Production) in s.live
    requires PUBLIC_PORT_MIN <= port <= PUBLIC_PORT_MAX && port !in blocked && port !in s.ports
    ensures var move := Request(true, Absent, Is(port), Absent, Absent, Absent);
            var former := s.rows[app].publicPort.value;
            var moved := Next(s, PutIngress(app, s.rows[app], move, blocked));
            var end := Run(s, [PutIngress(app, s.rows[app], move, blocked), Launched(app, Production), Settled(app, Production)]);
            && former in moved.ports && moved.ports[former] == Reservation(app, Production, true) && moved.bound == s.bound
            && FreeForAll(end.ports, former)
            && port in end.ports && end.ports[port] == Reservation(app, Production, false)
            && end.rows == s.rows[app := s.rows[app].(publicPort := Some(port))]
            && (app, Production) in end.bound && end.bound[(app, Production)] == port
  {
    var row, move := s.rows[app], Request(true, Absent, Is(port), Absent, Absent, Absent);
    var put := PutIngress(app, row, move, blocked);
    var former := row.publicPort.value;
    assert Agrees(s.ports, row, app, Production);
    ControlPlaneStaysPrivate(row, Production);
    assert PlanOf(row, move) == Change(Updates(None, None, None), Assign(Is(port), Absent));
    assert ApplyUpdates(row, Updates(None, None, None)) == row;
    NamedPortGrantedIff(s.ports, row, app, Production, true, port, blocked);
    var moved := Next(s, put);
    StepKeepsRegistry(s, put);
    AssignedRow(s.ports, row, app, Production, true, Is(port), blocked);
    StartsAndStopsBind(moved, app, Production);
    StepKeepsRegistry(moved, Launched(app, Production));
    var launched := Next(moved, Launched(app, Production));
    SettleReleases(launched, app, Production);
    RunThree(s, put, Launched(app, Production), Settled(app, Production));
    var end := Next(launched, Settled(app, Production));
    assert former in launched.ports && launched.ports[former] == Reservation(app, Production, true);
    assert end.rows == s.rows[app := row.(publicPort := Some(port))];
  }

  /**
   * Naming one number on a valid publishing row: nothing changes when it is the one reported, and
   * otherwise it is accepted for platform admins if and only if it is in range, free and not blocked.
   */
  lemma NamedNumberAcceptedIff(s: State, app: AppId, env: Env, port: int, platformAdmin: bool, blocked: set<int>)
    requires Registry(s) && app in s.rows && RowOk(s.rows[app]) && Publishes(s.rows[app])
    ensures var named := if env == Production then Request(platformAdmin, Absent, Is(port), Absent, Absent, Absent)
                         else Request(platformAdmin, Absent, Absent, Is(port), Absent, Absent);
            var r := Put(s, app, s.rows[app], named, blocked);
            && (r.1 == Unchanged <==> Held(s.rows[app], env) == Some(port))
            && (r.1 == Accepted <==>
                  platformAdmin && Held(s.rows[app], env) != Some(port)
                  && 1024 <= port <= 65535 && port !in blocked && port !in s.ports)
            && (r.1 == Accepted ==> Held(r.0.rows[app], env) == Some(port))
  {
    var row := s.rows[app];
    var named := if env == Production then Request(platformAdmin, Absent, Is(port), Absent, Absent, Absent)
                 else Request(platformAdmin, Absent, Absent, Is(port), Absent, Absent);
    ControlPlaneStaysPrivate(row, env);
    assert Agrees(s.ports, row, app, env);
    NamedPortGrantedIff(s.ports, row, app, env, (app, env) in s.live, port, blocked);
    if platformAdmin && Held(row, env) != Some(port) {
      assert PlanOf(row, named) ==
        Change(Updates(None, None, None), if env == Production then Assign(Is(port), Absent) else Assign(Absent, Is(port)));
      assert ApplyUpdates(row, Updates(None, None, None)) == row;
    }
  }

  /** No request is accepted that names what its ingress type has no use for, or takes what it needs. */
  lemma AcceptedRequestsMakeSense(s: State, app: AppId, seen: Row, req: Request, blocked: set<int>)
    requires app in s.rows && Put(s, app, seen, req, blocked).1 == Accepted
    ensures var next := if req.ingressType.Is? then req.ingressType.value else EffectiveType(seen);
            && next in {"http", "tcp", "dual"} && (req.ingressType.Is? || req.ingressType.Absent?)
            && (req.publicPort.Is? || req.publicPort.Absent?) && (req.publicPort.Is? ==> next != "http")
            && (req.sandboxPort.Is? ==> next != "http") && !req.sandboxPort.Junk?
            && (req.dataPlanePort.Is? ==>
                  next == "dual" && 1024 <= req.dataPlanePort.value <= 65535 && req.dataPlanePort.value != 3000)
            && (req.dataPlanePort.Null? ==> next != "dual") && !req.dataPlanePort.Junk?
            && (!req.protocol.Absent? ==>
                  req.protocol == Is("tcp") || (req.protocol == Is("udp") && (next == "dual" || seen.protocol == "udp")))
  {
  }

  /** Who is told what: a change is refused 403 to everyone but platform admins, and to them 400. */
  lemma RefusalTellsWhy(seen: Row, req: Request)
    ensures !req.platformAdmin ==> PlanOf(seen, req) in {NoChange, Refuse(403)}
    ensures req.platformAdmin && PlanOf(seen, req).Refuse? ==> PlanOf(seen, req) == Refuse(400)
    ensures PlanOf(seen, req).NoChange? <==> PlanOf(seen, req.(platformAdmin := !req.platformAdmin)).NoChange?
  {
  }

  /** The entry of an accepted request, read off the two rows: what is published, and what is only held. */
  lemma EntryTellsBothRows(s: State, app: AppId, seen: Row, req: Request, blocked: set<int>)
    requires app in s.rows && Put(s, app, seen, req, blocked).1 == Accepted
    ensures var t := Put(s, app, seen, req, blocked).0;
            var entry := t.audit[|t.audit| - 1];
            && |t.audit| == |s.audit| + 1 && entry.app == app
            && Tells(seen, entry.before, entry.pendingBefore) && Tells(t.rows[app], entry.after, entry.pendingAfter)
  {
  }

  ghost predicate Tells(row: Row, c: Config, pending: Option<int>) {
    var published := row.ingressType in {"tcp", "dual"};
    && c.ingressType == (if published then row.ingressType else "http")
    && pending == (if published then None else row.publicPort)
    && c.dataPlanePort == (if row.ingressType == "dual" then row.dataPlanePort else None)
    && (!published ==> c.publicPort == None && c.sandboxPort == None)
    && (published && RowOk(row) ==> c.publicPort == row.publicPort && c.sandboxPort == row.sandboxPort)
    && (c.protocol == "udp" <==> row.protocol == "udp") && c.protocol in {"udp", "tcp"}
  }

  // ---- valid rows, echoes and the audit trail --------------------------------------------------------------

  /** The exposures a row may have. */
  ghost predicate RowOk(row: Row) {
    && (EffectiveType(row) == "dual" ==> row.dataPlanePort != None && DataPlanePort(row.dataPlanePort.value))
    && (EffectiveType(row) == "tcp" ==> row.dataPlanePort == None)
    && (Publishes(row) ==> row.publicPort != None)
  }

  ghost predicate RowsOk(s: State) {
    forall app | app in s.rows :: RowOk(s.rows[app])
  }

  function LastConfig(audit: seq<Entry>, app: AppId): Option<Config> {
    if audit == [] then None
    else if audit[|audit| - 1].app == app then Some(audit[|audit| - 1].after)
    else LastConfig(audit[..|audit| - 1], app)
  }

  /** Each entry starts where the app's previous one ended, and the last one describes the row. */
  ghost predicate Trail(s: State) {
    && (forall i | 0 <= i < |s.audit| :: LastConfig(s.audit[..i], s.audit[i].app) in {None, Some(s.audit[i].before)})
    && (forall app | app in s.rows :: LastConfig(s.audit, app) in {None, Some(ConfigOf(s.rows[app]))})
  }

  lemma AssignedRow(ports: Ports, row: Row, app: AppId, env: Env, live: bool, requested: Arg<int>, blocked: set<int>)
    ensures var g := AssignPort(ports, row, app, env, live, requested, blocked);
            g != None ==> Held(g.value.row, env) != None && g.value.row == SetHeld(row, env, Held(g.value.row, env))
  {
  }

  lemma TransactionRow(s: State, app: AppId, u: Updates, w: Work, blocked: set<int>)
    requires app in s.rows
    ensures var row := ApplyUpdates(s.rows[app], u);
            var done := Transaction(s, app, u, w, blocked);
            done != None ==>
              && done.value.row == row.(publicPort := done.value.row.publicPort, sandboxPort := done.value.row.sandboxPort)
              && (w.Assign? ==> done.value.row.publicPort != None)
  {
    var row := ApplyUpdates(s.rows[app], u);
    if w.Assign? {
      AssignedRow(s.ports, row, app, Production, (app, Production) in s.live, w.requested, blocked);
      var first := AssignPort(s.ports, row, app, Production, (app, Production) in s.live, w.requested, blocked);
      if first != None {
        AssignedRow(first.value.ports, first.value.row, app, Sandbox, (app, Sandbox) in s.live, w.sandbox, blocked);
      }
    }
  }

  lemma PlannedRow(seen: Row, req: Request)
    requires PlanOf(seen, req).Change?
    ensures var row := ApplyUpdates(seen, PlanOf(seen, req).updates);
            && (EffectiveType(row) == "dual" ==> row.dataPlanePort != None && DataPlanePort(row.dataPlanePort.value))
            && (EffectiveType(row) == "tcp" ==> row.dataPlanePort == None)
            && (Publishes(row) <==> PlanOf(seen, req).work.Assign?)
  {
  }

  /** The request that asks for one exposure outright. */
  function Expose(ingressType: string, dataPlanePort: Option<int>, protocol: string): Request {
    Request(
      true, Is(ingressType), Absent, Absent,
      if ingressType == "dual" && dataPlanePort != None then Is(dataPlanePort.value) else Null,
      if ingressType == "dual" then Is(protocol) else Absent)
  }

  /**
   * The validation accepts an exposure exactly when it is a legal one: from any valid row one
   * request reaches each legal exposure, and asking for any other is refused.
   */
  lemma LegalExposuresAreReachable(seen: Row, ingressType: string, dataPlanePort: Option<int>, protocol: string)
    requires RowOk(seen) && IngressType(ingressType) && (ingressType != "dual" ==> dataPlanePort == None)
    ensures var plan := PlanOf(seen, Expose(ingressType, dataPlanePort, protocol));
            var row := if plan.Change? then ApplyUpdates(seen, plan.updates) else seen;
            && (plan.Refuse? <==>
                  ingressType == "dual"
                  && (dataPlanePort == None || !DataPlanePort(dataPlanePort.value) || protocol !in {"tcp", "udp"}))
            && (!plan.Refuse? ==>
                  EffectiveType(row) == ingressType && EffectiveDataPlane(row) == dataPlanePort
                  && (ingressType == "dual" ==> StoredProtocol(row) == protocol))
  {
  }

  /**
   * What an accepted request leaves behind, field by field, on whatever row the handler planned:
   * what it named, and nothing else. `seen` only decides which fields the request may name.
   */
  lemma AcceptedPutDoesWhatWasAsked(s: State, app: AppId, seen: Row, req: Request, blocked: set<int>)
    requires app in s.rows && Put(s, app, seen, req, blocked).1 == Accepted
    ensures var was, after := s.rows[app], Put(s, app, seen, req, blocked).0;
            var now, next := after.rows[app], NextType(seen, req);
            && req.platformAdmin
            && EffectiveType(now) == (if req.ingressType.Is? then req.ingressType.value else EffectiveType(was))
            && (req.publicPort.Is? ==> now.publicPort == Some(req.publicPort.value))
            && (!req.publicPort.Is? && (next == "http" || was.publicPort != None) ==> now.publicPort == was.publicPort)
            && now.sandboxPort == (match req.sandboxPort
                 case Is(port) => Some(port)
                 case Null => if next == "http" then was.sandboxPort else None
                 case _ => was.sandboxPort)
            && now.dataPlanePort == (match req.dataPlanePort
                 case Is(port) => Some(port)
                 case Null => None
                 case _ => was.dataPlanePort)
            && now.protocol == (if next == "dual" && req.protocol.Is? then req.protocol.value else was.protocol)
            && after.bound == s.bound && after.live == s.live
            && after.rows == s.rows[app := now]
            && (next == "http" ==> after.ports == s.ports)
  {
    var plan := PlanOf(seen, req);
    var u, w := plan.updates, plan.work;
    var row := ApplyUpdates(s.rows[app], u);
    TransactionRow(s, app, u, w, blocked);
    if w.Assign? {
      var first := AssignPort(s.ports, row, app, Production, (app, Production) in s.live, w.requested, blocked).value;
      AssignedRow(s.ports, row, app, Production, (app, Production) in s.live, w.requested, blocked);
      AssignedRow(first.ports, first.row, app, Sandbox, (app, Sandbox) in s.live, w.sandbox, blocked);
    }
  }

  /**
   * Checkable before the write: on the row as it is now, the planned updates give a legal exposure,
   * and one that publishes has a port or is being assigned one.
   */
  predicate RowFits(row: Row, plan: Plan)
    requires plan.Change?
  {
    var planned := ApplyUpdates(row, plan.updates);
    && (EffectiveType(planned) == "dual" ==>
          planned.dataPlanePort != None && DataPlanePort(planned.dataPlanePort.value))
    && (EffectiveType(planned) == "tcp" ==> planned.dataPlanePort == None)
    && (Publishes(planned) ==> plan.work.Assign? || row.publicPort != None)
  }

  /** An accepted request leaves valid rows if and only if its plan fits the row as it is now. */
  lemma PutKeepsRowsIff(s: State, app: AppId, seen: Row, req: Request, blocked: set<int>)
    requires RowsOk(s) && app in s.rows && Put(s, app, seen, req, blocked).1 == Accepted
    ensures RowsOk(Put(s, app, seen, req, blocked).0) <==> RowFits(s.rows[app], PlanOf(seen, req))
  {
    var plan := PlanOf(seen, req);
    var after := Put(s, app, seen, req, blocked).0;
    TransactionRow(s, app, plan.updates, plan.work, blocked);
    AcceptedPutDoesWhatWasAsked(s, app, seen, req, blocked);
    forall other | other in s.rows && other != app ensures RowOk(after.rows[other]) {
      assert after.rows[other] == s.rows[other];
    }
    assert RowOk(after.rows[app]) <==> RowFits(s.rows[app], plan);
  }

  lemma TrailExtends(audit: seq<Entry>, entry: Entry, app: AppId)
    ensures LastConfig(audit + [entry], app) == if entry.app == app then Some(entry.after) else LastConfig(audit, app)
  {
    assert (audit + [entry])[..|audit|] == audit;
  }

  /**
   * An accepted request adds one entry, and the trail stays unbroken if and only if the row it was
   * planned on reports what the app's last entry ended with. Any other request changes nothing.
   */
  lemma PutKeepsTrailIff(s: State, app: AppId, seen: Row, req: Request, blocked: set<int>)
    requires Trail(s) && app in s.rows
    ensures var r := Put(s, app, seen, req, blocked);
            && (r.1 == Accepted ==> r.0.audit[..|s.audit|] == s.audit && |r.0.audit| == |s.audit| + 1)
            && (r.1 == Accepted ==> (Trail(r.0) <==> LastConfig(s.audit, app) in {None, Some(ConfigOf(seen))}))
            && (r.1 != Accepted ==> r.0 == s)
  {
    var r := Put(s, app, seen, req, blocked);
    if r.1 == Accepted {
      var entry := r.0.audit[|s.audit|];
      forall i | 0 <= i < |s.audit| ensures r.0.audit[..i] == s.audit[..i] && r.0.audit[i] == s.audit[i] {
      }
      assert r.0.audit[..|s.audit|] == s.audit;
      assert entry.before == ConfigOf(seen);
      forall other | other in s.rows ensures LastConfig(r.0.audit, other) in {None, Some(ConfigOf(r.0.rows[other]))} {
        TrailExtends(s.audit, entry, other);
      }
    }
  }

  /** The step keeps rows and trail; only an accepted request can fail to. */
  predicate Fits(s: State, e: Event) {
    e.PutIngress? && e.app in s.rows && Put(s, e.app, e.seen, e.req, e.blocked).1 == Accepted ==>
      RowFits(s.rows[e.app], PlanOf(e.seen, e.req)) && LastConfig(s.audit, e.app) in {None, Some(ConfigOf(e.seen))}
  }

  lemma StepKeepsRowsAndTrailIff(s: State, e: Event)
    requires RowsOk(s) && Trail(s)
    ensures RowsOk(Next(s, e)) && Trail(Next(s, e)) <==> Fits(s, e)
  {
    match e
    case PutIngress(app, seen, req, blocked) =>
      if app in s.rows {
        if Put(s, app, seen, req, blocked).1 == Accepted { PutKeepsRowsIff(s, app, seen, req, blocked); }
        PutKeepsTrailIff(s, app, seen, req, blocked);
      }
    case Launched(_, _) =>
    case Settled(app, env) =>
      assert app in s.rows ==> ConfigOf(Settle(s, app, env).rows[app]) == ConfigOf(s.rows[app]);
    case Stopped(_, _) =>
    case Deployment(_, _, _) =>
  }

  /** A plan made on the row as it still is always fits. */
  lemma CurrentPlansFit(s: State, app: AppId, req: Request, blocked: set<int>)
    requires RowsOk(s) && Trail(s) && app in s.rows
    ensures Fits(s, PutIngress(app, s.rows[app], req, blocked))
  {
    if PlanOf(s.rows[app], req).Change? { PlannedRow(s.rows[app], req); }
  }

  predicate FittingRun(s: State, es: seq<Event>) {
    es == [] || (FittingRun(s, es[..|es| - 1]) && Fits(Run(s, es[..|es| - 1]), es[|es| - 1]))
  }

  /** In every state the run goes through. */
  ghost predicate SoundThroughout(s: State, es: seq<Event>) {
    RowsOk(Run(s, es)) && Trail(Run(s, es)) && (es != [] ==> SoundThroughout(s, es[..|es| - 1]))
  }

  /** Every state of a run has valid rows and an unbroken trail if and only if every step of it fits. */
  lemma {:induction false} RunsKeepRowsAndTrailIff(s: State, es: seq<Event>)
    requires RowsOk(s) && Trail(s)
    ensures SoundThroughout(s, es) <==> FittingRun(s, es)
  {
    if es != [] {
      var front := es[..|es| - 1];
      RunsKeepRowsAndTrailIff(s, front);
      if SoundThroughout(s, front) { StepKeepsRowsAndTrailIff(Run(s, front), es[|es| - 1]); }
    }
  }

  /**
   * A plan made on a row that another request changes meanwhile can break the rule: flipping a dual
   * app to tcp is refused, but not when the handler still sees the http row the app had before. The
   * number its clients use then leads to the control plane.
   */
  lemma StalePlanPublishesControlPlane(s: State, app: AppId, seen: Row, blocked: set<int>)
    requires app in s.rows && s.rows[app].ingressType == "dual" && RowOk(s.rows[app])
    requires seen.ingressType == "http" && seen.dataPlanePort == None
    ensures var req := Request(true, Is("tcp"), Absent, Absent, Absent, Absent);
            var row := s.rows[app];
            var r := Put(s, app, seen, req, blocked);
            && PlanOf(row, req) == Refuse(400)
            && r.1 == Accepted && r.0.rows[app] == row.(ingressType := "tcp") && !RowOk(r.0.rows[app])
            && PublishOf(r.0.rows[app], Production) == Some(Publish(row.publicPort.value, CONTROL_PLANE_PORT))
  {
    var req := Request(true, Is("tcp"), Absent, Absent, Absent, Absent);
    assert PlanOf(seen, req) == Change(Updates(Some("tcp"), None, None), Assign(Absent, Absent));
  }

  /**
   * The control plane is published only by an app whose type says so, whatever the row holds; and a
   * valid row publishes exactly the numbers it holds.
   */
  lemma ControlPlaneStaysPrivate(row: Row, env: Env)
    ensures var p := PublishOf(row, env);
            && (p != None && p.value.container == CONTROL_PLANE_PORT ==> row.ingressType == "tcp")
            && (p != None ==> Held(row, env) == Some(p.value.host))
            && (RowOk(row) ==> PublicPort(row, env) == if row.ingressType in {"tcp", "dual"} then Held(row, env) else None)
            && (RowOk(row) && row.ingressType == "dual" && p != None ==> Some(p.value.container) == row.dataPlanePort)
  {
  }

  function ToArg(port: Option<int>): Arg<int> {
    if port == None then Null else Is(port.value)
  }

  /** A client sending back what GET reported; the ports are withheld from callers without access. */
  function Echo(row: Row, seesPorts: bool, platformAdmin: bool): Request {
    var c := ConfigOf(row);
    if seesPorts then
      Request(
        platformAdmin, Is(c.ingressType), ToArg(c.publicPort), ToArg(c.sandboxPort), ToArg(c.dataPlanePort),
        Is(c.protocol))
    else Request(platformAdmin, Is(c.ingressType), Absent, Absent, Absent, Absent)
  }

  /** Echoing is a no-op for every role exactly when a publishing row has a port to publish. */
  lemma EchoIsNoChange(row: Row, seesPorts: bool, platformAdmin: bool)
    ensures PlanOf(row, Echo(row, seesPorts, platformAdmin)) == NoChange
       <==> (Publishes(row) ==> PublicPort(row, Production) != None)
    ensures RowOk(row) ==> PlanOf(row, Echo(row, seesPorts, platformAdmin)) == NoChange
  {
  }

  // ---- the code -----------------------------------------------------------------------------------------------

  class Platform {
    var rows: map<AppId, Row>
    var ports: Ports
    var live: set<(AppId, Env)>
    var bound: map<(AppId, Env), int>
    var audit: seq<Entry>

    function Now(): State
      reads this
    {
      State(rows, ports, live, bound, audit)
    }

    constructor (s: State)
      ensures Now() == s
    {
      rows, ports, live, bound, audit := s.rows, s.ports, s.live, s.bound, s.audit;
    }

    method AllocatePublicPort(app: AppId, env: Env, blocked: set<int>) returns (port: Option<int>)
      ensures port == Allocate(ports, app, env, blocked, AUTO_PORT_MIN)
    {
      var p := AUTO_PORT_MIN;
      while p <= AUTO_PORT_MAX
        invariant Allocate(ports, app, env, blocked, p) == Allocate(ports, app, env, blocked, AUTO_PORT_MIN)
      {
        if Assignable(ports, p, app, env, blocked) { return Some(p); }
        p := p + 1;
      }
      return None;
    }

    /** Runs in a savepoint of its own: when it throws, its writes are gone. */
    method AssignPublicPort(app: AppId, env: Env, requested: Arg<int>, blocked: set<int>) returns (ok: bool)
      requires app in rows
      modifies this`rows, this`ports
      ensures match AssignPort(old(ports), old(rows)[app], app, env, (app, env) in live, requested, blocked)
              case None => !ok && Now() == old(Now())
              case Some(g) => ok && Now() == old(Now()).(ports := g.ports, rows := old(rows)[app := g.row])
    {
      var row, savedPorts := rows[app], ports;
      var held, port := Held(row, env), 0;
      if requested.Absent? || requested.Null? {
        if held != None {
          assert rows == rows[app := row];
          return true;
        }
        var free := AllocatePublicPort(app, env, blocked);
        if free == None { return false; }
        port := free.value;
      } else {
        if requested.Junk? { return false; }
        port := requested.value;
        if held != None && held != Some(port) && Publishes(row) && (app, env) in live {
          ports := Drain(ports, app, env, held.value);
        }
        if !Assignable(ports, port, app, env, blocked) {
          ports := savedPorts;
          return false;
        }
      }
      ports := Unpin(ports, app, env);
      if port in ports {
        ports := savedPorts;
        return false;
      }
      ports := ports[port := Reservation(app, env, false)];
      rows := rows[app := SetHeld(row, env, Some(port))];
      return true;
    }

    method ReleasePublicPort(app: AppId, env: Env)
      requires app in rows
      modifies this`rows, this`ports
      ensures var g := ReleasePort(old(ports), old(rows)[app], app, env);
              Now() == old(Now()).(ports := g.ports, rows := old(rows)[app := g.row])
      ensures Held(rows[app], env) == None && OthersKept(old(ports), ports, app, env)
      ensures forall p :: !Owned(ports, p, app, env)
    {
      ReleaseAgrees(ports, rows[app], app, env);
      ports := Free(ports, app, env);
      rows := rows[app := SetHeld(rows[app], env, None)];
    }

    /** The whole transaction body; on a throw the caller rolls everything back. */
    method ApplyWrites(app: AppId, u: Updates, w: Work, blocked: set<int>) returns (ok: bool)
      requires app in rows
      modifies this`rows, this`ports
      ensures match Transaction(old(Now()), app, u, w, blocked)
              case None => !ok
              case Some(g) => ok && Now() == old(Now()).(ports := g.ports, rows := old(rows)[app := g.row])
    {
      rows := rows[app := ApplyUpdates(rows[app], u)];
      if w.StopPublishing? { return true; }
      ok := AssignPublicPort(app, Production, w.requested, blocked);
      if !ok || w.sandbox == Absent { return; }
      if w.sandbox == Null {
        ReleasePublicPort(app, Sandbox);
      } else {
        ok := AssignPublicPort(app, Sandbox, w.sandbox, blocked);
      }
    }

    method ChangeIngress(app: AppId, seen: Row, req: Request, blocked: set<int>) returns (outcome: Outcome)
      modifies this
      ensures (Now(), outcome) == Put(old(Now()), app, seen, req, blocked)
      ensures outcome != Accepted ==> Now() == old(Now())
    {
      if app !in rows { return Refused; }
      var plan := PlanOf(seen, req);
      if plan.NoChange? { return Unchanged; }
      if plan.Refuse? { return Refused; }
      var savedRows, savedPorts := rows, ports;
      var ok := ApplyWrites(app, plan.updates, plan.work, blocked);
      if !ok {
        rows, ports := savedRows, savedPorts;
        return Refused;
      }
      audit := audit + [Entry(app, ConfigOf(seen), PendingRelease(seen), ConfigOf(rows[app]), PendingRelease(rows[app]))];
      return Accepted;
    }

    method SettleAfterRecreate(app: AppId, env: Env)
      modifies this`rows, this`ports
      ensures Now() == Settle(old(Now()), app, env)
    {
      if app !in rows { return; }
      ports := FreeDraining(ports, app, env);
      if env == Production && PendingRelease(rows[app]) != None {
        ReleasePublicPort(app, env);
      }
    }
  }
}
