/** The daemon's session protocol (`src/daemon/mod.rs`) as a state machine.

    One step is one access to a lock or atomic of `Shared`, one queued message, or one event from
    outside (a frame, a hang-up, the clock). Steps of different connections interleave freely;
    nothing is assumed about scheduling. Random draws and whether a send finds its writer alive
    are parameters of a step. */
module Daemon {
  import opened Wrappers
  import opened Protocol
  import opened Registry
  import Slug

  const DAEMON_IDLE_TIMEOUT := 2000 // milliseconds

  type ConnId = nat

  /** One `Arc<Notify>`. */
  type Token = nat

  // ---------------------------------------------------------------------------------------------
  // Messages
  // ---------------------------------------------------------------------------------------------

  datatype ClientMessage =
    | Register(port: u16, slug: Option<string>, pid: nat)
    | Unregister(session: nat)
    | List
    | Stop(selector: StopSelector)
    | Kill
    | TerminateAcknowledged(session: nat)

  datatype TerminateReason = RemoteStop | DaemonKill

  datatype ErrorCode =
    | InvalidRequest | InvalidPort | InvalidSlug | DuplicateSlug | DuplicatePort
    | RouteNotFound | DaemonShuttingDown | Internal

  datatype ServerMessage =
    | Registered(route: Route)
    | Unregistered(session: nat)
    | RouteList(routes: Routes)
    | Stopped(route: Route)
    | KillAccepted(routeCount: nat)
    | Terminate(reason: TerminateReason)
    | Error(code: ErrorCode)
    | Fatal

  /** A message put into the outgoing queue of one connection, or of several. */
  datatype Sent = To(conn: ConnId, message: ServerMessage) | ToAll(conns: set<ConnId>, message: ServerMessage)

  function ErrorMessage(error: RegistryError): ServerMessage {
    match error
    case InvalidPort(_) => Error(ErrorCode.InvalidPort)
    case InvalidSlug(_, _) => Error(ErrorCode.InvalidSlug)
    case DuplicateSlug(_) => Error(ErrorCode.DuplicateSlug)
    case DuplicatePort(_, _) => Error(ErrorCode.DuplicatePort)
    case NamesExhausted => Error(Internal)
  }

  // ---------------------------------------------------------------------------------------------
  // State
  // ---------------------------------------------------------------------------------------------

  /** What remains of `remove_session`, and what its caller does next. */
  datatype Stage = AtRegistry | AtOwners | AtAcks | AtEmptyTest | AtIdleWrite

  datatype After =
    | ThenUnregistered
    | ThenReading
    | ThenClosed
    | ThenStopped(route: Route, token: Token)

  /** Where `handle_connection` stands: the access it performs next. */
  datatype Pc =
    | Reading
    | RegDraw(port: u16, slug: Option<string>, pid: nat)
    | RegInsert(session: nat, port: u16, slug: Option<string>, pid: nat)
    | RegOwner(route: Route)
    | RegActive(route: Route)
    | RegReply(route: Route)
    | Removing(session: nat, stage: Stage, after: After)
    | UnregReply(session: nat)
    | ListRead
    | StopResolve(selector: StopSelector)
    | StopInsert(route: Route)
    | StopLookup(route: Route, token: Token)
    | StopSend(route: Route, token: Token, owner: Option<ConnId>)
    | StopListen(route: Route, token: Token)
    | StopWait(route: Route, token: Token, woken: bool)
    | StopReply(route: Route)
    | KillSwap
    | KillClear
    | KillOwners(count: nat)
    | KillSend(count: nat, targets: set<ConnId>)
    | KillReply(count: nat)
    | Answer(message: ServerMessage)
    | Closed(clean: bool)

  datatype Conn = Conn(pc: Pc, owned: Option<nat>)

  /** The contents of `Shared`. */
  datatype Core = Core(
    routes: Routes,
    owners: map<nat, ConnId>,
    acks: map<nat, Token>,
    nextSession: nat,
    shuttingDown: bool,
    idleSince: Option<nat>)

  /** How a route left the registry. */
  datatype Cause = ByOwner(conn: ConnId) | ByStop(conn: ConnId) | ByKill(conn: ConnId) | ByFatal

  datatype KillStatus = NoKill | KillRunning(conn: ConnId) | KillOver

  /** The past, recorded for the statements about runs; no step depends on it, nor on the `kill` and
      `sent` parts of the state. */
  datatype History = History(
    minted: map<nat, ConnId>,   // the connection that drew each session id
    born: map<nat, Route>,      // the route each session registered
    gone: map<nat, Cause>,      // how that route left
    stopper: map<Token, ConnId>) // the connection whose stop created each token

  datatype MonitorPc = MonitorTick | MonitorFlag | MonitorCancel | MonitorOver

  datatype MainPc = MainPoll | FatalOwners | FatalSend(targets: set<ConnId>) | FatalClear | FatalCancel | MainFlag | MainOver

  /** The tasks beside the connections: whether the accept loop still runs, whether the daemon is
      cancelled or will be by a kill, and where the monitor and the main loop stand. */
  datatype Tasks = Tasks(accepting: bool, cancelled: bool, killTimer: bool, monitor: MonitorPc, main: MainPc)

  datatype State = State(
    core: Core,
    conns: map<ConnId, Conn>,
    nextToken: Token,
    now: nat,
    tasks: Tasks,
    past: History,
    kill: KillStatus,
    sent: seq<Sent>)

  /** The daemon when `run` starts accepting connections, at time `now`: idle since then. */
  ghost function Init(now: nat): State {
    State(
      Core(map[], map[], map[], 1, false, Some(now)), map[], 0, now, Tasks(true, false, false, MonitorTick, MainPoll),
      History(map[], map[], map[], map[]), NoKill, [])
  }

  // ---------------------------------------------------------------------------------------------
  // Steps of one connection
  // ---------------------------------------------------------------------------------------------

  /** Chance and the state of the writer tasks: the random draws, and whether a message to this
      connection or to the owner of a stopped route still finds its writer. */
  datatype Env = Env(draws: Slug.Draws, selfAlive: bool, ownerAlive: bool)

  ghost function Goto(s: State, c: ConnId, pc: Pc): State
    requires c in s.conns
  {
    s.(conns := s.conns[c := s.conns[c].(pc := pc)])
  }

  ghost function Log(s: State, entry: Sent): State {
    s.(sent := s.sent + [entry])
  }

  /** `send_response(..)?`: on success go on to `pc`, on failure abandon the connection. */
  ghost function Respond(s: State, c: ConnId, message: ServerMessage, env: Env, pc: Pc): State
    requires c in s.conns
  {
    if env.selfAlive then Goto(Log(s, To(c, message)), c, pc) else Goto(s, c, Closed(false))
  }

  ghost function OwnerIds(m: Routes): set<nat> {
    set k | k in m :: m[k].ownerSession
  }

  /** A frame arrives while the connection is reading. */
  ghost function Receive(s: State, c: ConnId, message: ClientMessage): State
    requires c in s.conns
  {
    var owned := s.conns[c].owned;
    match message
    case Register(port, slug, pid) =>
      Goto(s, c, if owned.Some? || s.core.shuttingDown then Answer(Error(DaemonShuttingDown)) else RegDraw(port, slug, pid))
    case Unregister(session) =>
      Goto(s, c, if owned == Some(session) then Removing(session, AtRegistry, ThenUnregistered) else Answer(Error(InvalidRequest)))
    case TerminateAcknowledged(session) =>
      Goto(s, c, if owned == Some(session) then Removing(session, AtRegistry, ThenReading) else Reading)
    case List => Goto(s, c, ListRead)
    case Stop(selector) => Goto(s, c, StopResolve(selector))
    case Kill => Goto(s, c, KillSwap)
  }

  /** The peer hangs up. */
  ghost function Hangup(s: State, c: ConnId): State
    requires c in s.conns
  {
    match s.conns[c].owned
    case Some(session) => Goto(s, c, Removing(session, AtRegistry, ThenClosed))
    case None => Goto(s, c, Closed(true))
  }

  /** `next_session.fetch_add`. */
  ghost function DrawSession(s: State, c: ConnId, port: u16, slug: Option<string>, pid: nat): State
    requires c in s.conns
  {
    var session := s.core.nextSession;
    Goto(
      s.(core := s.core.(nextSession := session + 1), past := s.past.(minted := s.past.minted[session := c])),
      c, RegInsert(session, port, slug, pid))
  }

  /** `registry.write().register`. */
  ghost function InsertRoute(s: State, c: ConnId, route: Route): State
    requires c in s.conns
  {
    s.(
      core := s.core.(routes := s.core.routes[route.slug := route]),
      conns := s.conns[c := Conn(RegOwner(route), Some(route.ownerSession))],
      past := s.past.(born := s.past.born[route.ownerSession := route]))
  }

  /** `notify_waiters`: every stop waiting on this token is woken. */
  ghost function Notify(conns: map<ConnId, Conn>, token: Token): map<ConnId, Conn> {
    map c | c in conns ::
      if conns[c].pc.StopWait? && conns[c].pc.token == token then
        conns[c].(pc := StopWait(conns[c].pc.route, token, true))
      else conns[c]
  }

  ghost function CauseOf(c: ConnId, after: After): Cause {
    if after.ThenStopped? then ByStop(c) else ByOwner(c)
  }

  ghost function GoneAfter(gone: map<nat, Cause>, owners: set<nat>, session: nat, cause: Cause): map<nat, Cause> {
    if session in owners then gone[session := cause] else gone
  }

  /** The first access of `remove_session`. */
  ghost function RemoveRoutes(s: State, c: ConnId, session: nat, after: After): State
    requires c in s.conns
  {
    Goto(
      s.(
        core := s.core.(routes := WithoutSession(s.core.routes, session)),
        past := s.past.(gone := GoneAfter(s.past.gone, OwnerIds(s.core.routes), session, CauseOf(c, after)))),
      c, Removing(session, AtOwners, after))
  }

  /** The third: take the acknowledgement entry out and notify it, under one lock. */
  ghost function RemoveAck(s: State, c: ConnId, session: nat, after: After): State
    requires c in s.conns
  {
    var woken := if session in s.core.acks then Notify(s.conns, s.core.acks[session]) else s.conns;
    Goto(
      s.(core := s.core.(acks := s.core.acks - {session}), conns := woken), c, Removing(session, AtEmptyTest, after))
  }

  /** What a caller of `remove_session` does when it returns. */
  ghost function Finish(s: State, c: ConnId, session: nat, after: After): State
    requires c in s.conns
  {
    match after
    case ThenUnregistered => Goto(s, c, UnregReply(session))
    case ThenReading => s.(conns := s.conns[c := Conn(Reading, None)])
    case ThenClosed => Goto(s, c, Closed(true))
    case ThenStopped(route, _) => Goto(s, c, StopReply(route))
  }

  /** The accesses of `remove_session`, one by one. */
  ghost function AdvanceRemove(s: State, c: ConnId, session: nat, stage: Stage, after: After): State
    requires c in s.conns
  {
    match stage
    case AtRegistry => RemoveRoutes(s, c, session, after)
    case AtOwners =>
      Goto(s.(core := s.core.(owners := s.core.owners - {session})), c, Removing(session, AtAcks, after))
    case AtAcks => RemoveAck(s, c, session, after)
    case AtEmptyTest =>
      if s.core.routes == map[] then Goto(s, c, Removing(session, AtIdleWrite, after))
      else Finish(s, c, session, after)
    case AtIdleWrite =>
      var idle := if s.core.idleSince.None? then Some(s.now) else s.core.idleSince;
      Finish(s.(core := s.core.(idleSince := idle)), c, session, after)
  }

  /** A stop enters its token, replacing any other under the same session. */
  ghost function InsertAck(s: State, c: ConnId, route: Route): State
    requires c in s.conns
  {
    Goto(
      s.(
        core := s.core.(acks := s.core.acks[route.ownerSession := s.nextToken]),
        nextToken := s.nextToken + 1,
        past := s.past.(stopper := s.past.stopper[s.nextToken := c])),
      c, StopLookup(route, s.nextToken))
  }

  /** `registry.write().clear`. */
  ghost function Cleared(s: State, cause: Cause): State {
    s.(
      core := s.core.(routes := map[]),
      past := s.past.(gone := s.past.gone + map i | i in OwnerIds(s.core.routes) :: cause))
  }

  ghost function KillRoutes(s: State, c: ConnId): State
    requires c in s.conns
  {
    Goto(Cleared(s, ByKill(c)), c, KillOwners(|s.core.routes|))
  }

  predicate InRegister(pc: Pc) {
    pc.RegDraw? || pc.RegInsert? || pc.RegOwner? || pc.RegActive? || pc.RegReply? || pc.UnregReply?
  }

  predicate InKill(pc: Pc) {
    pc.KillSwap? || pc.KillClear? || pc.KillOwners? || pc.KillSend? || pc.KillReply?
  }

  /** The accesses of a registration after the check for shutdown, and the reply to a removal. */
  ghost function AdvanceRegister(s: State, c: ConnId, env: Env): State
    requires c in s.conns && InRegister(s.conns[c].pc)
  {
    match s.conns[c].pc
    case RegDraw(port, slug, pid) => DrawSession(s, c, port, slug, pid)
    case RegInsert(session, port, slug, pid) => (
      match Registry.Register(s.core.routes, port, slug, session, pid, env.draws)
      case Ok(route) => InsertRoute(s, c, route)
      case Err(error) => Goto(s, c, Answer(ErrorMessage(error))))
    case RegOwner(route) =>
      Goto(s.(core := s.core.(owners := s.core.owners[route.ownerSession := c])), c, RegActive(route))
    case RegActive(route) => Goto(s.(core := s.core.(idleSince := None)), c, RegReply(route))
    case RegReply(route) => Respond(s, c, Registered(route), env, Reading)
    case UnregReply(session) =>
      if env.selfAlive then Log(s, To(c, Unregistered(session))).(conns := s.conns[c := Conn(Reading, None)])
      else Goto(s, c, Closed(false))
  }

  ghost function AdvanceKill(s: State, c: ConnId, env: Env): State
    requires c in s.conns && InKill(s.conns[c].pc)
  {
    match s.conns[c].pc
    case KillSwap =>
      if s.core.shuttingDown then Goto(s, c, Answer(Error(DaemonShuttingDown)))
      else Goto(s.(core := s.core.(shuttingDown := true), kill := KillRunning(c)), c, KillClear)
    case KillClear => KillRoutes(s, c)
    case KillOwners(count) => Goto(s, c, KillSend(count, s.core.owners.Values))
    case KillSend(count, targets) => Goto(Log(s, ToAll(targets, Terminate(DaemonKill))), c, KillReply(count))
    case KillReply(count) =>
      Respond(
        s.(kill := KillOver, tasks := s.tasks.(killTimer := s.tasks.killTimer || env.selfAlive)), c, KillAccepted(count), env, Reading)
  }

  /** The accesses of `stop_route` and of a listing, and plain answers. */
  ghost function AdvanceStop(s: State, c: ConnId, env: Env): State
    requires c in s.conns
  {
    match s.conns[c].pc
    case ListRead => Goto(s, c, Answer(RouteList(s.core.routes)))
    case Answer(message) => Respond(s, c, message, env, Reading)
    case StopResolve(selector) => (
      match Resolve(s.core.routes, selector)
      case Some(route) => Goto(s, c, StopInsert(route))
      case None => Goto(s, c, Answer(Error(RouteNotFound))))
    case StopInsert(route) => InsertAck(s, c, route)
    case StopLookup(route, token) =>
      var session := route.ownerSession;
      Goto(
        s, c,
        StopSend(route, token, if session in s.core.owners then Some(s.core.owners[session]) else None))
    case StopSend(route, token, owner) =>
      var s' := if owner.Some? && env.ownerAlive then Log(s, To(owner.value, Terminate(RemoteStop))) else s;
      Goto(s', c, StopListen(route, token))
    case StopListen(route, token) => Goto(s, c, StopWait(route, token, false))
    case StopReply(route) => Respond(s, c, Stopped(route), env, Reading)
    case _ => s
  }

  /** The connection's next access. */
  ghost function Advance(s: State, c: ConnId, env: Env): State
    requires c in s.conns
  {
    var pc := s.conns[c].pc;
    if pc.Removing? then AdvanceRemove(s, c, pc.session, pc.stage, pc.after)
    else if InRegister(pc) then AdvanceRegister(s, c, env)
    else if InKill(pc) then AdvanceKill(s, c, env)
    else AdvanceStop(s, c, env)
  }

  /** The connection waits for something other than its turn. */
  predicate Resting(pc: Pc) {
    pc.Reading? || pc.StopWait? || pc.Closed?
  }

  // ---------------------------------------------------------------------------------------------
  // Steps of the whole daemon
  // ---------------------------------------------------------------------------------------------

  datatype Action =
    | Connect(conn: ConnId)
    | AcceptEnds
    | Frame(conn: ConnId, message: ClientMessage)
    | Disconnect(conn: ConnId)
    | BadFrame(conn: ConnId)
    | Move(conn: ConnId, env: Env)
    | StopNotified(conn: ConnId)
    | StopTimedOut(conn: ConnId)
    | Pass(elapsed: nat)
    | Monitor
    | MonitorEnds
    | ChildExited
    | ChildFailed
    | MainStep
    | Signal
    | KillTimer

  ghost predicate Enabled(s: State, a: Action) {
    match a
    case Connect(c) => c !in s.conns && s.tasks.accepting
    case AcceptEnds => s.tasks.accepting
    case Frame(c, _) => c in s.conns && s.conns[c].pc.Reading?
    case Disconnect(c) => c in s.conns && s.conns[c].pc.Reading?
    case BadFrame(c) => c in s.conns && s.conns[c].pc.Reading?
    case Move(c, _) => c in s.conns && !Resting(s.conns[c].pc)
    case StopNotified(c) => c in s.conns && s.conns[c].pc.StopWait? && s.conns[c].pc.woken
    case StopTimedOut(c) => c in s.conns && s.conns[c].pc.StopWait? && !s.conns[c].pc.woken
    case Pass(_) => true
    case Monitor => !s.tasks.monitor.MonitorOver?
    case MonitorEnds => s.tasks.monitor.MonitorTick? && s.tasks.cancelled
    case ChildExited => s.tasks.main.MainPoll?
    case ChildFailed => s.tasks.main.MainPoll?
    case MainStep => !s.tasks.main.MainOver? && (s.tasks.main.MainPoll? ==> s.tasks.cancelled)
    case Signal => true
    case KillTimer => s.tasks.killTimer
  }

  ghost predicate IdleExpired(s: State) {
    s.core.idleSince.Some? && s.now - s.core.idleSince.value >= DAEMON_IDLE_TIMEOUT
  }

  /** The monitor's next access; a tick may still be taken when the daemon is cancelled already. */
  ghost function AdvanceMonitor(s: State): State {
    match s.tasks.monitor
    case MonitorTick =>
      if IdleExpired(s) then s.(tasks := s.tasks.(monitor := MonitorFlag))
      else s
    case MonitorFlag => s.(core := s.core.(shuttingDown := true), tasks := s.tasks.(monitor := MonitorCancel))
    case MonitorCancel => s.(tasks := s.tasks.(cancelled := true, monitor := MonitorOver))
    case MonitorOver => s
  }

  /** `broadcast_fatal` after its first access, and the end of the loop of `run`. */
  ghost function AdvanceMain(s: State): State {
    match s.tasks.main
    case FatalOwners => s.(tasks := s.tasks.(main := FatalSend(s.core.owners.Values)))
    case FatalSend(targets) => Log(s, ToAll(targets, Fatal)).(tasks := s.tasks.(main := FatalClear))
    case FatalClear => Cleared(s, ByFatal).(tasks := s.tasks.(main := FatalCancel))
    case FatalCancel => s.(tasks := s.tasks.(cancelled := true, main := MainFlag))
    case MainFlag => s.(core := s.core.(shuttingDown := true), tasks := s.tasks.(main := MainOver))
    case MainPoll => s.(tasks := s.tasks.(main := MainFlag))
    case MainOver => s
  }

  ghost function Step(s: State, a: Action): State
    requires Enabled(s, a)
  {
    match a
    case Connect(c) => s.(conns := s.conns[c := Conn(Reading, None)])
    case AcceptEnds => s.(tasks := s.tasks.(accepting := false))
    case Frame(c, message) => Receive(s, c, message)
    case Disconnect(c) => Hangup(s, c)
    case BadFrame(c) => Goto(s, c, Closed(false))
    case Move(c, env) => Advance(s, c, env)
    case StopNotified(c) => Goto(s, c, StopReply(s.conns[c].pc.route))
    case StopTimedOut(c) =>
      var StopWait(route, token, _) := s.conns[c].pc;
      Goto(s, c, Removing(route.ownerSession, AtRegistry, ThenStopped(route, token)))
    case Pass(elapsed) => s.(now := s.now + elapsed)
    case Monitor => AdvanceMonitor(s)
    case MonitorEnds => s.(tasks := s.tasks.(monitor := MonitorOver))
    case ChildExited => s.(core := s.core.(shuttingDown := true), tasks := s.tasks.(main := FatalOwners))
    case ChildFailed => s.(tasks := s.tasks.(cancelled := true, main := MainFlag))
    case MainStep => AdvanceMain(s)
    case Signal => s.(tasks := s.tasks.(cancelled := true))
    case KillTimer => s.(tasks := s.tasks.(cancelled := true))
  }

  /** The state a run of the daemon ends in, if each of its actions is possible in turn. */
  ghost function Exec(start: nat, actions: seq<Action>): Option<State> {
    if actions == [] then Some(Init(start))
    else
      var n := |actions| - 1;
      match Exec(start, actions[..n])
      case None => None
      case Some(s) => if Enabled(s, actions[n]) then Some(Step(s, actions[n])) else None
  }
}
