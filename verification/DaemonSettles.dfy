/** What each handler does when nothing overlaps it: to the shared core, to its own connection, to
    the stops it wakes, and to the outgoing queues. */
module DaemonSettles {
  import opened Wrappers
  import opened Protocol
  import opened Registry
  import opened Daemon
  import DaemonSafety
  import opened DaemonAtomic
  import Slug

  // ---------------------------------------------------------------------------------------------
  // Handlers as functions of the core
  // ---------------------------------------------------------------------------------------------

  function IdleIfEmpty(core: Core, now: nat): Core {
    if core.routes == map[] && core.idleSince.None? then core.(idleSince := Some(now)) else core
  }

  function Removed(core: Core, session: nat, now: nat): Core {
    IdleIfEmpty(
      core.(
        routes := WithoutSession(core.routes, session),
        owners := core.owners - {session},
        acks := core.acks - {session}),
      now)
  }

  function Inserted(core: Core, route: Route, conn: ConnId): Core {
    core.(
      routes := core.routes[route.slug := route],
      owners := core.owners[route.ownerSession := conn],
      nextSession := core.nextSession + 1,
      idleSince := None)
  }

  /** The core, the session the connection then owns, and the reply. */
  ghost function RegisterOutcome(
    core: Core, conn: ConnId, port: u16, slug: Option<string>, pid: nat, draws: Slug.Draws
  ): (Core, Option<nat>, ServerMessage) {
    if core.shuttingDown then (core, None, Error(DaemonShuttingDown))
    else
      match Registry.Register(core.routes, port, slug, core.nextSession, pid, draws)
      case Ok(route) => (Inserted(core, route, conn), Some(core.nextSession), Registered(route))
      case Err(error) => (core.(nextSession := core.nextSession + 1), None, ErrorMessage(error))
  }

  /** The core, the route found, and the connection to tell. */
  ghost function StopOutcome(core: Core, selector: StopSelector, token: Token): (Core, Option<Route>, Option<ConnId>) {
    match Resolve(core.routes, selector)
    case None => (core, None, None)
    case Some(route) =>
      var session := route.ownerSession;
      (core.(acks := core.acks[session := token]), Some(route),
       if session in core.owners then Some(core.owners[session]) else None)
  }

  /** The core, the connections to tell, and the reply. */
  function KillOutcome(core: Core): (Core, set<ConnId>, ServerMessage) {
    if core.shuttingDown then (core, {}, Error(DaemonShuttingDown))
    else (core.(shuttingDown := true, routes := map[]), core.owners.Values, KillAccepted(|core.routes|))
  }

  function Failed(core: Core): Core {
    core.(shuttingDown := true, routes := map[])
  }

  /** The core after a tick of the idle monitor, and whether it cancels the daemon. */
  function TickOutcome(core: Core, now: nat): (Core, bool) {
    var expired := core.idleSince.Some? && now - core.idleSince.value >= DAEMON_IDLE_TIMEOUT;
    (if expired then core.(shuttingDown := true) else core, expired)
  }

  /** A message that is sent if it is there and its writer is alive. */
  function SentIf(sent: seq<Sent>, conn: ConnId, message: Option<ServerMessage>, alive: bool): seq<Sent> {
    if message.Some? && alive then sent + [To(conn, message.value)] else sent
  }

  // ---------------------------------------------------------------------------------------------
  // Removals
  // ---------------------------------------------------------------------------------------------

  lemma Unfold(s: State, c: ConnId, env: Env, s': State)
    requires c in s.conns && !Resting(s.conns[c].pc) && s' == Advance(s, c, env)
    ensures c in s'.conns && Settle(s, c, env) == Settle(s', c, env)
  {
    hide Advance;
    AdvanceRank(s, c, env);
  }

  lemma Settled(s: State, c: ConnId, env: Env)
    requires c in s.conns && Resting(s.conns[c].pc)
    ensures Settle(s, c, env) == s
  {
  }

  function RemovalReply(session: nat, after: After): Option<ServerMessage> {
    match after
    case ThenUnregistered => Some(Unregistered(session))
    case ThenStopped(route, _) => Some(Stopped(route))
    case _ => None
  }

  /** The connection after a removal: a clean removal of its own session ends its ownership. */
  function RemovalEnd(owned: Option<nat>, after: After, alive: bool): Conn {
    match after
    case ThenUnregistered => if alive then Conn(Reading, None) else Conn(Closed(false), owned)
    case ThenReading => Conn(Reading, None)
    case ThenClosed => Conn(Closed(true), owned)
    case ThenStopped(_, _) => Conn(if alive then Reading else Closed(false), owned)
  }

  /** The connections after a removal: the stop holding the entry taken out is woken. */
  ghost function Woken(s: State, session: nat): map<ConnId, Conn> {
    if session in s.core.acks then Notify(s.conns, s.core.acks[session]) else s.conns
  }

  /** What is the same before and after: nothing but core, connections, queues and past changes. */
  ghost predicate SameRest(s: State, t: State) {
    t.nextToken == s.nextToken && t.now == s.now && t.tasks == s.tasks && t.kill == s.kill
  }

  /** The machine's `remove_session`, run to its end with what its caller does next. */
  lemma RemovalSettles(s: State, c: ConnId, session: nat, after: After, env: Env)
    requires c in s.conns && s.conns[c].pc == Removing(session, AtRegistry, after)
    ensures var t := Settle(s, c, env);
            && t.core == Removed(s.core, session, s.now)
            && t.conns == Woken(s, session)[c := RemovalEnd(s.conns[c].owned, after, env.selfAlive)]
            && t.sent == SentIf(s.sent, c, RemovalReply(session, after), env.selfAlive)
            && SameRest(s, t)
  {
    hide Settle;
    var s1 := RemoveRoutes(s, c, session, after);
    assert s1 == Advance(s, c, env);
    Unfold(s, c, env, s1);
    var s2 := Goto(s1.(core := s1.core.(owners := s1.core.owners - {session})), c, Removing(session, AtAcks, after));
    assert s2 == Advance(s1, c, env);
    Unfold(s1, c, env, s2);
    var s3 := RemoveAck(s2, c, session, after);
    assert s3 == Advance(s2, c, env);
    Unfold(s2, c, env, s3);
    WakingIgnores(s, c, session, after, s2, RemovalEnd(s.conns[c].owned, after, env.selfAlive));
    EmptinessSettles(s3, c, session, after, env);
  }

  /** The two accesses before the entry is taken out do not matter to who is woken. */
  lemma WakingIgnores(s: State, c: ConnId, session: nat, after: After, s2: State, k: Conn)
    requires c in s.conns && s.conns[c].pc == Removing(session, AtRegistry, after)
    requires s2.conns == s.conns[c := s.conns[c].(pc := Removing(session, AtAcks, after))]
    requires s2.core.acks == s.core.acks
    ensures RemoveAck(s2, c, session, after).conns[c := k] == Woken(s, session)[c := k]
    ensures RemoveAck(s2, c, session, after).conns[c] == s.conns[c].(pc := Removing(session, AtEmptyTest, after))
  {
    if session in s.core.acks {
      var token := s.core.acks[session];
      assert forall d :: d in s.conns && d != c ==> Notify(s2.conns, token)[d] == Notify(s.conns, token)[d];
    }
  }

  lemma EmptinessSettles(s: State, c: ConnId, session: nat, after: After, env: Env)
    requires c in s.conns && s.conns[c].pc == Removing(session, AtEmptyTest, after)
    ensures var t := Settle(s, c, env);
            && t.core == IdleIfEmpty(s.core, s.now)
            && t.conns == s.conns[c := RemovalEnd(s.conns[c].owned, after, env.selfAlive)]
            && t.sent == SentIf(s.sent, c, RemovalReply(session, after), env.selfAlive)
            && SameRest(s, t)
  {
    hide Settle;
    var s1 := AdvanceRemove(s, c, session, AtEmptyTest, after);
    Unfold(s, c, env, s1);
    if s.core.routes == map[] {
      var idle := if s.core.idleSince.None? then Some(s.now) else s.core.idleSince;
      var s2 := s1.(core := s1.core.(idleSince := idle));
      assert Finish(s2, c, session, after) == Advance(s1, c, env);
      Unfold(s1, c, env, Finish(s2, c, session, after));
      FinishSettles(s2, c, session, after, env);
      assert s1.conns[c := RemovalEnd(s.conns[c].owned, after, env.selfAlive)]
          == s.conns[c := RemovalEnd(s.conns[c].owned, after, env.selfAlive)];
    } else {
      assert s1 == Finish(s, c, session, after);
      FinishSettles(s, c, session, after, env);
    }
  }

  lemma FinishSettles(s: State, c: ConnId, session: nat, after: After, env: Env)
    requires c in s.conns
    ensures c in Finish(s, c, session, after).conns
    ensures var t := Settle(Finish(s, c, session, after), c, env);
            && t.core == s.core && t.now == s.now && t.nextToken == s.nextToken
            && t.conns == s.conns[c := RemovalEnd(s.conns[c].owned, after, env.selfAlive)]
            && t.sent == SentIf(s.sent, c, RemovalReply(session, after), env.selfAlive)
            && SameRest(s, t)
  {
    hide Settle;
    var u := Finish(s, c, session, after);
    match after
    case ThenUnregistered =>
      var t := AdvanceRegister(u, c, env);
      Unfold(u, c, env, t);
      Settled(t, c, env);
    case ThenReading => Settled(u, c, env);
    case ThenClosed => Settled(u, c, env);
    case ThenStopped(route, _) =>
      var t := AdvanceStop(u, c, env);
      Unfold(u, c, env, t);
      Settled(t, c, env);
  }

  /** A plain answer. */
  lemma AnswerSettles(s: State, c: ConnId, message: ServerMessage, env: Env)
    requires c in s.conns && s.conns[c].pc == Answer(message)
    ensures var t := Settle(s, c, env);
            && t.core == s.core && SameRest(s, t)
            && t.conns == s.conns[c := s.conns[c].(pc := if env.selfAlive then Reading else Closed(false))]
            && t.sent == SentIf(s.sent, c, Some(message), env.selfAlive)
  {
    hide Settle;
    var t := Respond(s, c, message, env, Reading);
    assert t == Advance(s, c, env);
    Unfold(s, c, env, t);
    Settled(t, c, env);
  }

  // ---------------------------------------------------------------------------------------------
  // Registrations
  // ---------------------------------------------------------------------------------------------

  /** The connection after its reply: abandoned if the reply found no writer. */
  function Replied(owned: Option<nat>, alive: bool): Conn {
    Conn(if alive then Reading else Closed(false), owned)
  }

  /** The machine's registration, run to its end: core, owned session, reply and nothing else. */
  lemma RegistrationSettles(s: State, c: ConnId, port: u16, slug: Option<string>, pid: nat, env: Env)
    requires c in s.conns && s.conns[c] == Conn(Reading, None)
    ensures var t := Settle(Receive(s, c, Register(port, slug, pid)), c, env);
            var (core, owned, reply) := RegisterOutcome(s.core, c, port, slug, pid, env.draws);
            && t.core == core
            && t.conns == s.conns[c := Replied(owned, env.selfAlive)]
            && t.sent == SentIf(s.sent, c, Some(reply), env.selfAlive)
            && SameRest(s, t)
  {
    hide Settle, Registry.Register;
    var s0 := Receive(s, c, Register(port, slug, pid));
    if s.core.shuttingDown {
      AnswerSettles(s0, c, Error(DaemonShuttingDown), env);
      assert s0.conns[c := Replied(None, env.selfAlive)] == s.conns[c := Replied(None, env.selfAlive)];
    } else {
      var s1 := DrawSession(s0, c, port, slug, pid);
      assert s1 == Advance(s0, c, env);
      Unfold(s0, c, env, s1);
      InsertionSettles(s1, c, s.core.nextSession, port, slug, pid, env);
      RegisterMeaning(s.core.routes, port, slug, s.core.nextSession, pid, env.draws);
      var k := Replied(RegisterOutcome(s.core, c, port, slug, pid, env.draws).1, env.selfAlive);
      assert s1.conns[c := k] == s.conns[c := k];
    }
  }

  lemma InsertionSettles(s: State, c: ConnId, session: nat, port: u16, slug: Option<string>, pid: nat, env: Env)
    requires c in s.conns && s.conns[c] == Conn(RegInsert(session, port, slug, pid), None)
    ensures var t := Settle(s, c, env);
            && SameRest(s, t)
            && match Registry.Register(s.core.routes, port, slug, session, pid, env.draws)
               case Ok(route) =>
                 && t.core == s.core.(
                   routes := s.core.routes[route.slug := route], owners := s.core.owners[session := c], idleSince := None)
                 && t.conns == s.conns[c := Replied(Some(session), env.selfAlive)]
                 && t.sent == SentIf(s.sent, c, Some(Registered(route)), env.selfAlive)
               case Err(error) =>
                 && t.core == s.core
                 && t.conns == s.conns[c := Replied(None, env.selfAlive)]
                 && t.sent == SentIf(s.sent, c, Some(ErrorMessage(error)), env.selfAlive)
  {
    hide Settle, Registry.Register;
    RegisterMeaning(s.core.routes, port, slug, session, pid, env.draws);
    match Registry.Register(s.core.routes, port, slug, session, pid, env.draws)
    case Err(error) =>
      var s1 := Goto(s, c, Answer(ErrorMessage(error)));
      assert s1 == Advance(s, c, env);
      Unfold(s, c, env, s1);
      AnswerSettles(s1, c, ErrorMessage(error), env);
      assert s1.conns[c := Replied(None, env.selfAlive)] == s.conns[c := Replied(None, env.selfAlive)];
    case Ok(route) =>
      var s1 := InsertRoute(s, c, route);
      assert s1 == Advance(s, c, env);
      Unfold(s, c, env, s1);
      OwningSettles(s1, c, route, env);
      assert s1.conns[c := Replied(Some(session), env.selfAlive)] == s.conns[c := Replied(Some(session), env.selfAlive)];
  }

  lemma OwningSettles(s: State, c: ConnId, route: Route, env: Env)
    requires c in s.conns && s.conns[c].pc == RegOwner(route)
    ensures var t := Settle(s, c, env);
            && t.core == s.core.(owners := s.core.owners[route.ownerSession := c], idleSince := None)
            && t.conns == s.conns[c := Replied(s.conns[c].owned, env.selfAlive)]
            && t.sent == SentIf(s.sent, c, Some(Registered(route)), env.selfAlive)
            && SameRest(s, t)
  {
    hide Settle;
    var s1 := AdvanceRegister(s, c, env);
    Unfold(s, c, env, s1);
    var s2 := AdvanceRegister(s1, c, env);
    Unfold(s1, c, env, s2);
    assert s2.conns == s.conns[c := s.conns[c].(pc := RegReply(route))];
    var s3 := AdvanceRegister(s2, c, env);
    Unfold(s2, c, env, s3);
    Settled(s3, c, env);
  }

  // ---------------------------------------------------------------------------------------------
  // Stops
  // ---------------------------------------------------------------------------------------------

  /** The machine's stop, run until it waits or has replied. */
  lemma StopSettles(s: State, c: ConnId, selector: StopSelector, env: Env)
    requires c in s.conns && s.conns[c].pc.Reading?
    ensures var t := Settle(Receive(s, c, Stop(selector)), c, env);
            var (core, route, owner) := StopOutcome(s.core, selector, s.nextToken);
            && t.core == core && t.now == s.now && t.tasks == s.tasks && t.kill == s.kill
            && t.nextToken == (if route.Some? then s.nextToken + 1 else s.nextToken)
            && match route
               case None =>
                 && t.conns == s.conns[c := Replied(s.conns[c].owned, env.selfAlive)]
                 && t.sent == SentIf(s.sent, c, Some(Error(RouteNotFound)), env.selfAlive)
               case Some(r) =>
                 && t.conns == s.conns[c := s.conns[c].(pc := StopWait(r, s.nextToken, false))]
                 && t.sent ==
                    if owner.Some? then SentIf(s.sent, owner.value, Some(Terminate(RemoteStop)), env.ownerAlive) else s.sent
  {
    hide Settle;
    var s0 := Receive(s, c, Stop(selector));
    var s1 := AdvanceStop(s0, c, env);
    Unfold(s0, c, env, s1);
    match Resolve(s.core.routes, selector)
    case None =>
      AnswerSettles(s1, c, Error(RouteNotFound), env);
      assert s1.conns[c := Replied(s.conns[c].owned, env.selfAlive)] == s.conns[c := Replied(s.conns[c].owned, env.selfAlive)];
    case Some(route) =>
      EntrySettles(s1, c, route, env);
      var k := s.conns[c].(pc := StopWait(route, s.nextToken, false));
      assert s1.conns[c := k] == s.conns[c := k];
  }

  lemma EntrySettles(s: State, c: ConnId, route: Route, env: Env)
    requires c in s.conns && s.conns[c].pc == StopInsert(route)
    ensures var t := Settle(s, c, env);
            var session := route.ownerSession;
            && t.core == s.core.(acks := s.core.acks[session := s.nextToken]) && t.nextToken == s.nextToken + 1
            && t.now == s.now && t.tasks == s.tasks && t.kill == s.kill
            && t.conns == s.conns[c := s.conns[c].(pc := StopWait(route, s.nextToken, false))]
            && t.sent ==
               if session in s.core.owners
               then SentIf(s.sent, s.core.owners[session], Some(Terminate(RemoteStop)), env.ownerAlive) else s.sent
  {
    hide Settle;
    var token := s.nextToken;
    var s1 := InsertAck(s, c, route);
    assert s1 == Advance(s, c, env);
    Unfold(s, c, env, s1);
    var session := route.ownerSession;
    var owner := if session in s.core.owners then Some(s.core.owners[session]) else None;
    var s2 := Goto(s1, c, StopSend(route, token, owner));
    assert s2 == Advance(s1, c, env);
    Unfold(s1, c, env, s2);
    SendingSettles(s2, c, route, token, owner, env);
    var k := s.conns[c].(pc := StopWait(route, token, false));
    assert s2.conns[c := k] == s.conns[c := k];
  }

  lemma SendingSettles(s: State, c: ConnId, route: Route, token: Token, owner: Option<ConnId>, env: Env)
    requires c in s.conns && s.conns[c].pc == StopSend(route, token, owner)
    ensures var t := Settle(s, c, env);
            && t.core == s.core && SameRest(s, t)
            && t.conns == s.conns[c := s.conns[c].(pc := StopWait(route, token, false))]
            && t.sent ==
               if owner.Some? then SentIf(s.sent, owner.value, Some(Terminate(RemoteStop)), env.ownerAlive) else s.sent
  {
    hide Settle;
    var s1 := AdvanceStop(s, c, env);
    Unfold(s, c, env, s1);
    var s2 := AdvanceStop(s1, c, env);
    Unfold(s1, c, env, s2);
    Settled(s2, c, env);
    assert s2.conns == s.conns[c := s.conns[c].(pc := StopWait(route, token, false))];
  }

  // ---------------------------------------------------------------------------------------------
  // Kills, the end of the child, and ticks
  // ---------------------------------------------------------------------------------------------

  /** The machine's kill, run to its end: the first tells all owners and replies with its count. */
  lemma KillSettles(s: State, c: ConnId, env: Env)
    requires c in s.conns && s.conns[c].pc.Reading?
    ensures var t := Settle(Receive(s, c, Kill), c, env);
            var (core, told, reply) := KillOutcome(s.core);
            var queued := if s.core.shuttingDown then s.sent else s.sent + [ToAll(told, Terminate(DaemonKill))];
            && t.core == core && t.now == s.now && t.nextToken == s.nextToken
            && t.conns == s.conns[c := Replied(s.conns[c].owned, env.selfAlive)]
            && t.sent == SentIf(queued, c, Some(reply), env.selfAlive)
            && t.tasks == s.tasks.(killTimer := s.tasks.killTimer || (env.selfAlive && !s.core.shuttingDown))
  {
    hide Settle;
    var s0 := Receive(s, c, Kill);
    var s1 := AdvanceKill(s0, c, env);
    Unfold(s0, c, env, s1);
    var k := Replied(s.conns[c].owned, env.selfAlive);
    if s.core.shuttingDown {
      AnswerSettles(s1, c, Error(DaemonShuttingDown), env);
    } else {
      assert s1.conns[c].pc.KillClear?;
      ClearSettles(s1, c, env);
    }
    assert s1.conns[c := k] == s.conns[c := k];
  }

  lemma ClearSettles(s: State, c: ConnId, env: Env)
    requires c in s.conns && s.conns[c].pc.KillClear?
    ensures var t := Settle(s, c, env);
            && t.core == s.core.(routes := map[]) && t.now == s.now && t.nextToken == s.nextToken
            && t.conns == s.conns[c := Replied(s.conns[c].owned, env.selfAlive)]
            && t.sent == SentIf(
              s.sent + [ToAll(s.core.owners.Values, Terminate(DaemonKill))], c, Some(KillAccepted(|s.core.routes|)), env.selfAlive)
            && t.tasks == s.tasks.(killTimer := s.tasks.killTimer || env.selfAlive)
  {
    hide Settle;
    DaemonSafety.KillClearAdvance(s, c, env);
    var s1 := KillRoutes(s, c);
    Unfold(s, c, env, s1);
    BroadcastSettles(s1, c, |s.core.routes|, env);
    var k := Replied(s.conns[c].owned, env.selfAlive);
    assert s1.conns[c := k] == s.conns[c := k];
  }

  lemma BroadcastSettles(s: State, c: ConnId, count: nat, env: Env)
    requires c in s.conns && s.conns[c].pc == KillOwners(count)
    ensures var t := Settle(s, c, env);
            && t.core == s.core && t.now == s.now && t.nextToken == s.nextToken
            && t.conns == s.conns[c := Replied(s.conns[c].owned, env.selfAlive)]
            && t.sent == SentIf(
              s.sent + [ToAll(s.core.owners.Values, Terminate(DaemonKill))], c, Some(KillAccepted(count)), env.selfAlive)
            && t.tasks == s.tasks.(killTimer := s.tasks.killTimer || env.selfAlive)
  {
    hide Settle, AdvanceRemove, AdvanceRegister, AdvanceStop, Notify;
    var s1 := AdvanceKill(s, c, env);
    Unfold(s, c, env, s1);
    var s2 := AdvanceKill(s1, c, env);
    Unfold(s1, c, env, s2);
    assert s2.conns[c].pc == KillReply(count);
    var s3 := AdvanceKill(s2, c, env);
    Unfold(s2, c, env, s3);
    Settled(s3, c, env);
    var k := Replied(s.conns[c].owned, env.selfAlive);
    assert s2.conns[c := k] == s.conns[c := k];
  }

  /** The end of the child, with `broadcast_fatal`, run to the end of the main loop. */
  lemma FatalSettles(s: State)
    requires s.tasks.main.MainPoll?
    ensures var t := SettleMain(Step(s, ChildExited));
            && t.core == Failed(s.core) && t.conns == s.conns && t.now == s.now && t.nextToken == s.nextToken
            && t.sent == s.sent + [ToAll(s.core.owners.Values, Fatal)]
            && t.tasks == s.tasks.(cancelled := true, main := MainOver)
  {
    var s0 := Step(s, ChildExited);
    var s1 := AdvanceMain(s0);
    assert s1.tasks.main == FatalSend(s.core.owners.Values);
    var s2 := AdvanceMain(s1);
    var s3 := AdvanceMain(s2);
    var s4 := AdvanceMain(s3);
    var s5 := AdvanceMain(s4);
    assert s3 == Cleared(s2, ByFatal).(tasks := s2.tasks.(main := FatalCancel));
    assert SettleMain(s5) == s5;
    assert SettleMain(s3) == SettleMain(s4) == SettleMain(s5);
    assert SettleMain(s1) == SettleMain(s2) == SettleMain(s3);
  }

  /** A tick of the idle monitor: it cancels exactly if the daemon has been idle for the timeout. */
  lemma TickSettles(s: State)
    requires s.tasks.monitor.MonitorTick?
    ensures var t := SettleMonitor(Step(s, Monitor));
            var (core, cancel) := TickOutcome(s.core, s.now);
            && t.core == core && t.conns == s.conns && t.sent == s.sent && t.now == s.now
            && t.tasks == if cancel then s.tasks.(cancelled := true, monitor := MonitorOver) else s.tasks
  {
    if IdleExpired(s) {
      var s1 := AdvanceMonitor(s);
      var s2 := AdvanceMonitor(s1);
      var s3 := AdvanceMonitor(s2);
      assert SettleMonitor(s1) == SettleMonitor(s2) == SettleMonitor(s3) == s3;
    }
  }

  // ---------------------------------------------------------------------------------------------
  // Exactness of the idle time
  // ---------------------------------------------------------------------------------------------

  /** Until shutdown, the idle time is set if and only if there is no route. */
  predicate Exact(core: Core) {
    !core.shuttingDown ==> (core.idleSince.Some? <==> core.routes == map[])
  }

  lemma RegisterKeepsExact(core: Core, conn: ConnId, port: u16, slug: Option<string>, pid: nat, draws: Slug.Draws)
    requires Exact(core)
    ensures Exact(RegisterOutcome(core, conn, port, slug, pid, draws).0)
  {
    hide Registry.Register;
    match Registry.Register(core.routes, port, slug, core.nextSession, pid, draws)
    case Ok(route) => assert route.slug in Inserted(core, route, conn).routes;
    case Err(_) =>
  }

  /** Every handler keeps the idle time exact; and a removal never moves one already set. */
  lemma HandlersKeepExact(core: Core, conn: ConnId, port: u16, slug: Option<string>, pid: nat, draws: Slug.Draws,
                          session: nat, now: nat, selector: StopSelector, token: Token)
    requires Exact(core)
    ensures Exact(Removed(core, session, now))
    ensures core.idleSince.Some? ==> Removed(core, session, now).idleSince == core.idleSince
    ensures Exact(RegisterOutcome(core, conn, port, slug, pid, draws).0)
    ensures Exact(StopOutcome(core, selector, token).0)
    ensures Exact(KillOutcome(core).0) && Exact(Failed(core)) && Exact(TickOutcome(core, now).0)
  {
    hide RegisterOutcome;
    assert core.routes == map[] ==> WithoutSession(core.routes, session) == map[];
    RegisterKeepsExact(core, conn, port, slug, pid, draws);
  }

  /** With an exact idle time, a tick cancels only a daemon without routes, and a daemon with a
      route is never cancelled by a tick, however late. */
  lemma TickSparesRoutes(core: Core, now: nat)
    requires Exact(core) && !core.shuttingDown
    ensures TickOutcome(core, now).1 ==> core.routes == map[] && core.idleSince.value + DAEMON_IDLE_TIMEOUT <= now
    ensures core.routes == map[] ==> forall later :: later >= core.idleSince.value + DAEMON_IDLE_TIMEOUT ==> TickOutcome(core, later).1
  {
  }
}
