/** Each event of the daemon, handled without interruption, from the state before to the state after:
    the core field by field, the connections, and what is sent. */
module DaemonEvents {
  import opened Wrappers
  import opened Text
  import opened Protocol
  import opened Registry
  import opened Daemon
  import opened DaemonAtomic
  import opened DaemonSettles
  import Slug

  // ---------------------------------------------------------------------------------------------
  // What an event may change
  // ---------------------------------------------------------------------------------------------

  /** No route, owner or acknowledgement of the session is left; every other one is as before; and a
      daemon without routes is idle from now on, unless it was already. */
  ghost predicate NoTrace(core: Core, core': Core, session: nat, now: nat) {
    && (forall k :: k in core'.routes <==> k in core.routes && core.routes[k].ownerSession != session)
    && (forall k :: k in core'.routes ==> core'.routes[k] == core.routes[k])
    && (forall i :: i in core'.owners <==> i in core.owners && i != session)
    && (forall i :: i in core'.owners ==> core'.owners[i] == core.owners[i])
    && (forall i :: i in core'.acks <==> i in core.acks && i != session)
    && (forall i :: i in core'.acks ==> core'.acks[i] == core.acks[i])
    && core'.nextSession == core.nextSession && core'.shuttingDown == core.shuttingDown
    && core'.idleSince == if |core'.routes| == 0 && core.idleSince == None then Some(now) else core.idleSince
  }

  /** Beside connection `c`, which becomes `k`, the only change is that the stops waiting on the
      session's acknowledgement are woken. */
  ghost predicate OnlyWakes(s: State, t: State, c: ConnId, k: Conn, session: nat) {
    && t.conns.Keys == s.conns.Keys
    && c in t.conns && t.conns[c] == k
    && (forall d :: d in s.conns && d != c ==>
          if s.conns[d].pc.StopWait? && session in s.core.acks && s.core.acks[session] == s.conns[d].pc.token
          then t.conns[d].owned == s.conns[d].owned
               && t.conns[d].pc == StopWait(s.conns[d].pc.route, s.conns[d].pc.token, true)
          else t.conns[d] == s.conns[d])
  }

  ghost predicate Ticks(s: State) {
    (s.tasks.main.MainPoll? || s.tasks.main.MainOver?) && (s.tasks.monitor.MonitorTick? || s.tasks.monitor.MonitorOver?)
  }

  /** Connection `c` is sent one message and goes on reading, or is abandoned if its writer is gone. */
  ghost predicate OnlyAnswers(s: State, t: State, c: ConnId, owned: Option<nat>, message: ServerMessage, alive: bool) {
    && t.conns == s.conns[c := if alive then Conn(Reading, owned) else Conn(Closed(false), owned)]
    && t.sent == (if alive then s.sent + [To(c, message)] else s.sent)
    && SameRest(s, t)
  }

  // ---------------------------------------------------------------------------------------------
  // The ends of a session
  // ---------------------------------------------------------------------------------------------

  lemma RemovedMeaning(core: Core, session: nat, now: nat)
    ensures NoTrace(core, Removed(core, session, now), session, now)
  {
  }

  lemma WokenMeaning(s: State, t: State, c: ConnId, k: Conn, session: nat)
    requires c in s.conns && t.conns == Woken(s, session)[c := k]
    ensures OnlyWakes(s, t, c, k, session)
  {
    assert Woken(s, session).Keys == s.conns.Keys;
    assert t.conns.Keys == s.conns.Keys;
  }

  lemma RemovalMeaning(s: State, c: ConnId, session: nat, after: After, env: Env)
    requires c in s.conns && s.conns[c].pc == Removing(session, AtRegistry, after)
    ensures var t := Settle(s, c, env);
            && NoTrace(s.core, t.core, session, s.now)
            && OnlyWakes(s, t, c, RemovalEnd(s.conns[c].owned, after, env.selfAlive), session)
            && t.sent == SentIf(s.sent, c, RemovalReply(session, after), env.selfAlive)
            && SameRest(s, t)
  {
    hide Settle, Removed, Woken, NoTrace, OnlyWakes;
    RemovalSettles(s, c, session, after, env);
    RemovedMeaning(s.core, session, s.now);
    WokenMeaning(s, Settle(s, c, env), c, RemovalEnd(s.conns[c].owned, after, env.selfAlive), session);
  }

  /** What else holds of the connections when `c` has just left its resting place. */
  lemma SameWakes(s: State, s0: State, t: State, c: ConnId, k: Conn, session: nat)
    requires c in s.conns && c in s0.conns && s0.conns == s.conns[c := s0.conns[c]] && s0.core == s.core
    requires OnlyWakes(s0, t, c, k, session)
    ensures OnlyWakes(s, t, c, k, session)
  {
    assert s0.conns.Keys == s.conns.Keys;
  }

  /** A client that hangs up leaves nothing of its session. */
  lemma HangupRemovesSession(s: State, c: ConnId, session: nat, env: Env)
    requires c in s.conns && s.conns[c] == Conn(Reading, Some(session))
    ensures Enabled(s, Disconnect(c))
    ensures var t := Handler(s, Disconnect(c), env);
            && NoTrace(s.core, t.core, session, s.now)
            && OnlyWakes(s, t, c, Conn(Closed(true), Some(session)), session)
            && t.sent == s.sent && SameRest(s, t)
  {
    hide Settle, NoTrace, OnlyWakes;
    var s0 := Step(s, Disconnect(c));
    RemovalMeaning(s0, c, session, ThenClosed, env);
    SameWakes(s, s0, Settle(s0, c, env), c, Conn(Closed(true), Some(session)), session);
  }

  /** One that owns no session just leaves. */
  lemma HangupWithoutSession(s: State, c: ConnId, env: Env)
    requires c in s.conns && s.conns[c] == Conn(Reading, None)
    ensures Enabled(s, Disconnect(c))
    ensures Handler(s, Disconnect(c), env) == s.(conns := s.conns[c := Conn(Closed(true), None)])
  {
    Settled(Step(s, Disconnect(c)), c, env);
  }

  /** A session is unregistered by the connection that owns it, which may register another then. */
  lemma UnregisterRemovesSession(s: State, c: ConnId, session: nat, env: Env)
    requires c in s.conns && s.conns[c] == Conn(Reading, Some(session))
    ensures Enabled(s, Frame(c, Unregister(session)))
    ensures var t := Handler(s, Frame(c, Unregister(session)), env);
            var k := if env.selfAlive then Conn(Reading, None) else Conn(Closed(false), Some(session));
            && NoTrace(s.core, t.core, session, s.now)
            && OnlyWakes(s, t, c, k, session)
            && t.sent == (if env.selfAlive then s.sent + [To(c, Unregistered(session))] else s.sent)
            && SameRest(s, t)
  {
    hide Settle, NoTrace, OnlyWakes;
    var s0 := Step(s, Frame(c, Unregister(session)));
    RemovalMeaning(s0, c, session, ThenUnregistered, env);
    SameWakes(s, s0, Settle(s0, c, env), c, RemovalEnd(Some(session), ThenUnregistered, env.selfAlive), session);
  }

  /** The same when it acknowledges a stop, without a reply. */
  lemma AcknowledgementRemovesSession(s: State, c: ConnId, session: nat, env: Env)
    requires c in s.conns && s.conns[c] == Conn(Reading, Some(session))
    ensures Enabled(s, Frame(c, TerminateAcknowledged(session)))
    ensures var t := Handler(s, Frame(c, TerminateAcknowledged(session)), env);
            && NoTrace(s.core, t.core, session, s.now)
            && OnlyWakes(s, t, c, Conn(Reading, None), session)
            && t.sent == s.sent && SameRest(s, t)
  {
    hide Settle, NoTrace, OnlyWakes;
    var s0 := Step(s, Frame(c, TerminateAcknowledged(session)));
    RemovalMeaning(s0, c, session, ThenReading, env);
    SameWakes(s, s0, Settle(s0, c, env), c, Conn(Reading, None), session);
  }

  /** Nobody ends a session of another: the frame is refused, or passed over. */
  lemma ForeignSessionIsSafe(s: State, c: ConnId, session: nat, env: Env)
    requires c in s.conns && s.conns[c].pc == Reading && s.conns[c].owned != Some(session)
    ensures Enabled(s, Frame(c, Unregister(session))) && Enabled(s, Frame(c, TerminateAcknowledged(session)))
    ensures var t := Handler(s, Frame(c, Unregister(session)), env);
            t.core == s.core && OnlyAnswers(s, t, c, s.conns[c].owned, Error(InvalidRequest), env.selfAlive)
    ensures Handler(s, Frame(c, TerminateAcknowledged(session)), env) == s
  {
    hide Settle;
    AnswerMeaning(s, c, Step(s, Frame(c, Unregister(session))), Error(InvalidRequest), env);
    var s0 := Step(s, Frame(c, TerminateAcknowledged(session)));
    Settled(s0, c, env);
    assert s0.conns == s.conns;
  }

  lemma AnswerMeaning(s: State, c: ConnId, s0: State, message: ServerMessage, env: Env)
    requires c in s.conns && s0 == Goto(s, c, Answer(message))
    ensures var t := Settle(s0, c, env);
            t.core == s.core && OnlyAnswers(s, t, c, s.conns[c].owned, message, env.selfAlive)
  {
    hide Settle;
    AnswerSettles(s0, c, message, env);
    var k := Conn(if env.selfAlive then Reading else Closed(false), s.conns[c].owned);
    assert s0.conns[c := k] == s.conns[c := k];
  }

  // ---------------------------------------------------------------------------------------------
  // Listings
  // ---------------------------------------------------------------------------------------------

  /** A listing shows exactly the routes registered, and changes nothing. */
  lemma ListShowsRegistry(s: State, c: ConnId, env: Env)
    requires c in s.conns && s.conns[c].pc == Reading
    ensures Enabled(s, Frame(c, List))
    ensures var t := Handler(s, Frame(c, List), env);
            t.core == s.core && OnlyAnswers(s, t, c, s.conns[c].owned, RouteList(s.core.routes), env.selfAlive)
  {
    hide Settle;
    var s0 := Step(s, Frame(c, List));
    var s1 := AdvanceStop(s0, c, env);
    Unfold(s0, c, env, s1);
    assert s1.conns == s.conns[c := s.conns[c].(pc := Answer(RouteList(s.core.routes)))];
    AnswerMeaning(s, c, s1, RouteList(s.core.routes), env);
  }

  // ---------------------------------------------------------------------------------------------
  // Registrations
  // ---------------------------------------------------------------------------------------------

  /** The code a registration is refused with, or none. */
  ghost function RefusalCode(routes: Routes, port: u16, slug: Option<string>): Option<ErrorCode> {
    if port == 0 then Some(ErrorCode.InvalidPort)
    else if exists k :: k in routes && routes[k].port == port then Some(ErrorCode.DuplicatePort)
    else
      match slug
      case Some(text) =>
        if !Slug.IsSlug(Lower(text)) then Some(ErrorCode.InvalidSlug)
        else if Lower(text) in routes then Some(ErrorCode.DuplicateSlug)
        else None
      case None => if forall draw: Slug.Draw :: Slug.GenerateSlug(draw) in routes then Some(Internal) else None
  }

  /** A connection that owns a session, or comes too late, is turned away. */
  lemma RegistrationTurnedAway(s: State, c: ConnId, port: u16, slug: Option<string>, pid: nat, env: Env)
    requires c in s.conns && s.conns[c].pc == Reading
    requires s.conns[c].owned.Some? || s.core.shuttingDown
    ensures Enabled(s, Frame(c, Register(port, slug, pid)))
    ensures var t := Handler(s, Frame(c, Register(port, slug, pid)), env);
            t.core == s.core && OnlyAnswers(s, t, c, s.conns[c].owned, Error(DaemonShuttingDown), env.selfAlive)
  {
    hide Settle;
    AnswerMeaning(s, c, Step(s, Frame(c, Register(port, slug, pid))), Error(DaemonShuttingDown), env);
  }

  lemma RegistrationHandled(s: State, c: ConnId, port: u16, slug: Option<string>, pid: nat, env: Env)
    requires c in s.conns && s.conns[c] == Conn(Reading, None)
    ensures Enabled(s, Frame(c, Register(port, slug, pid)))
    ensures var t := Handler(s, Frame(c, Register(port, slug, pid)), env);
            var (core, owned, reply) := RegisterOutcome(s.core, c, port, slug, pid, env.draws);
            t.core == core && OnlyAnswers(s, t, c, owned, reply, env.selfAlive)
  {
    hide Settle, RegisterOutcome;
    RegistrationSettles(s, c, port, slug, pid, env);
  }

  /** Any other request that is refused costs a session id, and changes nothing else. */
  lemma RegistrationRefused(s: State, c: ConnId, port: u16, slug: Option<string>, pid: nat, env: Env)
    requires c in s.conns && s.conns[c] == Conn(Reading, None) && !s.core.shuttingDown
    requires WellFormed(s.core.routes) && RefusalCode(s.core.routes, port, slug).Some?
    ensures Enabled(s, Frame(c, Register(port, slug, pid)))
    ensures var t := Handler(s, Frame(c, Register(port, slug, pid)), env);
            && t.core == s.core.(nextSession := s.core.nextSession + 1)
            && OnlyAnswers(s, t, c, None, Error(RefusalCode(s.core.routes, port, slug).value), env.selfAlive)
  {
    hide Settle, Handler, OnlyAnswers, Registry.Register;
    RegistrationHandled(s, c, port, slug, pid, env);
    RegisterRefuses(s.core.routes, port, slug, s.core.nextSession, pid, env.draws);
  }

  /** A request that is not refused enters: the connection owns a fresh session with the route on
      that port, under the name asked for or the one chosen, and the daemon is not idle. */
  lemma RegistrationEnters(s: State, c: ConnId, port: u16, slug: Option<string>, pid: nat, env: Env) returns (route: Route)
    requires c in s.conns && s.conns[c] == Conn(Reading, None) && !s.core.shuttingDown
    requires WellFormed(s.core.routes) && RefusalCode(s.core.routes, port, slug).None?
    ensures Enabled(s, Frame(c, Register(port, slug, pid)))
    ensures route.port == port && route.ownerSession == s.core.nextSession && route.ownerPid == pid
    ensures slug.Some? ==> route.slug == Lower(slug.value)
    ensures slug.None? ==> Slug.IsChoice(env.draws, s.core.routes.Keys, Some(route.slug))
    ensures var t := Handler(s, Frame(c, Register(port, slug, pid)), env);
            && t.core == Core(
              s.core.routes[route.slug := route], s.core.owners[s.core.nextSession := c], s.core.acks,
              s.core.nextSession + 1, false, None)
            && OnlyAnswers(s, t, c, Some(s.core.nextSession), Registered(route), env.selfAlive)
  {
    hide Settle, Handler, OnlyAnswers, Slug.IsChoice;
    RegistrationHandled(s, c, port, slug, pid, env);
    route := RegisterYields(s.core.routes, port, slug, s.core.nextSession, pid, env.draws);
  }

  lemma RegisterYields(m: Routes, port: u16, slug: Option<string>, session: nat, pid: nat, draws: Slug.Draws) returns (route: Route)
    requires WellFormed(m) && RefusalCode(m, port, slug).None?
    ensures Registry.Register(m, port, slug, session, pid, draws) == Ok(route)
    ensures route.port == port && route.ownerSession == session && route.ownerPid == pid
    ensures slug.Some? ==> route.slug == Lower(slug.value)
    ensures slug.None? ==> Slug.IsChoice(draws, m.Keys, Some(route.slug))
  {
    hide Slug.IsChoice, Slug.UniqueSlug;
    RegisterRefuses(m, port, slug, session, pid, draws);
    Slug.UniqueSlugIsChoice(draws, m.Keys);
    route := Registry.Register(m, port, slug, session, pid, draws).value;
  }

  // ---------------------------------------------------------------------------------------------
  // Stops
  // ---------------------------------------------------------------------------------------------

  ghost predicate Bears(route: Route, selector: StopSelector) {
    match selector
    case Slug(slug) => route.slug == slug
    case Port(port) => route.port == port
  }

  /** A stop of no active route is refused. */
  lemma StopFindsNone(s: State, c: ConnId, selector: StopSelector, env: Env)
    requires c in s.conns && s.conns[c].pc == Reading && WellFormed(s.core.routes)
    requires forall k :: k in s.core.routes ==> !Bears(s.core.routes[k], selector)
    ensures Enabled(s, Frame(c, Stop(selector)))
    ensures var t := Handler(s, Frame(c, Stop(selector)), env);
            t.core == s.core && OnlyAnswers(s, t, c, s.conns[c].owned, Error(RouteNotFound), env.selfAlive)
  {
    hide Settle, Resolve;
    ResolveAgrees(s.core.routes, selector);
    StopSettles(s, c, selector, env);
  }

  /** A stop of an active route waits on a fresh token, entered under the route's session, and the
      connection that owns the session is told. */
  lemma StopTellsOwner(s: State, c: ConnId, selector: StopSelector, k: string, env: Env)
    requires c in s.conns && s.conns[c].pc == Reading && WellFormed(s.core.routes)
    requires k in s.core.routes && Bears(s.core.routes[k], selector)
    ensures Enabled(s, Frame(c, Stop(selector)))
    ensures var t := Handler(s, Frame(c, Stop(selector)), env);
            var route := s.core.routes[k];
            var session := route.ownerSession;
            && t.core == s.core.(acks := s.core.acks[session := s.nextToken])
            && t.nextToken == s.nextToken + 1 && t.now == s.now && t.tasks == s.tasks
            && t.conns == s.conns[c := Conn(StopWait(route, s.nextToken, false), s.conns[c].owned)]
            && t.sent == if session in s.core.owners && env.ownerAlive
                         then s.sent + [To(s.core.owners[session], Terminate(RemoteStop))] else s.sent
  {
    hide Settle, Resolve;
    ResolveAgrees(s.core.routes, selector);
    StopSettles(s, c, selector, env);
  }

  /** A stop that was woken reports its route, and changes nothing. */
  lemma WokenStopReports(s: State, c: ConnId, route: Route, token: Token, env: Env)
    requires c in s.conns && s.conns[c].pc == StopWait(route, token, true)
    ensures Enabled(s, StopNotified(c)) && !Enabled(s, StopTimedOut(c))
    ensures var t := Handler(s, StopNotified(c), env);
            t.core == s.core && OnlyAnswers(s, t, c, s.conns[c].owned, Stopped(route), env.selfAlive)
  {
    hide Settle;
    var s0 := Step(s, StopNotified(c));
    var s1 := AdvanceStop(s0, c, env);
    Unfold(s0, c, env, s1);
    Settled(s1, c, env);
    assert s1.conns == s.conns[c := s1.conns[c]];
  }

  /** A stop that was not woken in time removes the session itself, and then reports. */
  lemma ExpiredStopRemovesSession(s: State, c: ConnId, route: Route, token: Token, env: Env)
    requires c in s.conns && s.conns[c].pc == StopWait(route, token, false)
    ensures Enabled(s, StopTimedOut(c)) && !Enabled(s, StopNotified(c))
    ensures var t := Handler(s, StopTimedOut(c), env);
            var k := Conn(if env.selfAlive then Reading else Closed(false), s.conns[c].owned);
            && NoTrace(s.core, t.core, route.ownerSession, s.now)
            && OnlyWakes(s, t, c, k, route.ownerSession)
            && t.sent == (if env.selfAlive then s.sent + [To(c, Stopped(route))] else s.sent)
            && SameRest(s, t)
  {
    hide Settle, NoTrace, OnlyWakes;
    var s0 := Step(s, StopTimedOut(c));
    RemovalMeaning(s0, c, route.ownerSession, ThenStopped(route, token), env);
    var k := Conn(if env.selfAlive then Reading else Closed(false), s.conns[c].owned);
    SameWakes(s, s0, Settle(s0, c, env), c, k, route.ownerSession);
  }

  // ---------------------------------------------------------------------------------------------
  // Kills, bad frames, and the tasks
  // ---------------------------------------------------------------------------------------------

  /** The first kill raises the flag, empties the registry and nothing else of the core, tells every
      connection that owns a session, and replies with the number of routes there were. */
  lemma FirstKillClears(s: State, c: ConnId, env: Env)
    requires c in s.conns && s.conns[c].pc == Reading && !s.core.shuttingDown
    ensures Enabled(s, Frame(c, Kill))
    ensures var t := Handler(s, Frame(c, Kill), env);
            && t.core == Core(map[], s.core.owners, s.core.acks, s.core.nextSession, true, s.core.idleSince)
            && t.now == s.now && t.nextToken == s.nextToken
            && t.conns == s.conns[c := Conn(if env.selfAlive then Reading else Closed(false), s.conns[c].owned)]
            && t.sent == s.sent + [ToAll(set i | i in s.core.owners :: s.core.owners[i], Terminate(DaemonKill))]
                         + (if env.selfAlive then [To(c, KillAccepted(|s.core.routes|))] else [])
            && t.tasks == s.tasks.(killTimer := s.tasks.killTimer || env.selfAlive)
  {
    hide Settle;
    assert s.core.owners.Values == set i | i in s.core.owners :: s.core.owners[i];
    KillSettles(s, c, env);
  }

  /** Any later one is refused. */
  lemma LaterKillRefused(s: State, c: ConnId, env: Env)
    requires c in s.conns && s.conns[c].pc == Reading && s.core.shuttingDown
    ensures Enabled(s, Frame(c, Kill))
    ensures var t := Handler(s, Frame(c, Kill), env);
            && t.core == s.core && t.now == s.now && t.tasks == s.tasks && t.nextToken == s.nextToken
            && t.conns == s.conns[c := Conn(if env.selfAlive then Reading else Closed(false), s.conns[c].owned)]
            && t.sent == if env.selfAlive then s.sent + [To(c, Error(DaemonShuttingDown))] else s.sent
  {
    hide Settle;
    KillSettles(s, c, env);
  }

  lemma TasksStay(s: State)
    requires Ticks(s)
    ensures SettleMain(SettleMonitor(s)) == s
  {
  }

  /** A frame that cannot be read ends the connection and leaves its session registered. */
  lemma BadFrameKeepsSession(s: State, c: ConnId, env: Env)
    requires c in s.conns && s.conns[c].pc == Reading && Ticks(s)
    ensures Enabled(s, BadFrame(c))
    ensures Handler(s, BadFrame(c), env) == s.(conns := s.conns[c := Conn(Closed(false), s.conns[c].owned)])
  {
    TasksStay(Step(s, BadFrame(c)));
  }

  /** A new connection owns no session. */
  lemma ConnectStartsReading(s: State, c: ConnId, env: Env)
    requires c !in s.conns && s.tasks.accepting && Ticks(s)
    ensures Enabled(s, Connect(c))
    ensures Handler(s, Connect(c), env) == s.(conns := s.conns[c := Conn(Reading, None)])
  {
    TasksStay(Step(s, Connect(c)));
  }

  /** A tick finds the daemon idle for two seconds, raises the flag and cancels; any other does nothing. */
  lemma TickCancelsIdle(s: State, env: Env)
    requires Ticks(s) && s.tasks.monitor.MonitorTick?
    ensures Enabled(s, Monitor)
    ensures Handler(s, Monitor, env) ==
            if s.core.idleSince.Some? && s.core.idleSince.value + 2000 <= s.now
            then s.(core := s.core.(shuttingDown := true), tasks := s.tasks.(cancelled := true, monitor := MonitorOver))
            else s
  {
    var s1 := Step(s, Monitor);
    if s1.tasks.monitor.MonitorFlag? {
      var s2 := AdvanceMonitor(s1);
      var s3 := AdvanceMonitor(s2);
      assert SettleMonitor(s1) == SettleMonitor(s2) == SettleMonitor(s3) == s3;
      TasksStay(s3);
    } else {
      TasksStay(s1);
    }
  }

  /** When the child ends, the flag is raised, every connection that owns a session told, the registry
      emptied and the daemon cancelled. */
  lemma ChildEndTellsOwners(s: State, env: Env)
    requires Ticks(s) && s.tasks.main.MainPoll?
    ensures Enabled(s, ChildExited)
    ensures var t := Handler(s, ChildExited, env);
            && t.core == Core(map[], s.core.owners, s.core.acks, s.core.nextSession, true, s.core.idleSince)
            && t.conns == s.conns && t.now == s.now && t.nextToken == s.nextToken
            && t.sent == s.sent + [ToAll(set i | i in s.core.owners :: s.core.owners[i], Fatal)]
            && t.tasks == s.tasks.(cancelled := true, main := MainOver)
  {
    hide SettleMain;
    assert s.core.owners.Values == set i | i in s.core.owners :: s.core.owners[i];
    assert SettleMonitor(Step(s, ChildExited)) == Step(s, ChildExited);
    FatalSettles(s);
  }

  /** When waiting for the child fails, or the main loop finds the daemon cancelled, the flag is raised
      and the loop ends; routes and owners stay, and nobody is told. */
  lemma MainLoopEnds(s: State, env: Env)
    requires Ticks(s) && s.tasks.main.MainPoll?
    ensures var t := s.(core := s.core.(shuttingDown := true), tasks := s.tasks.(cancelled := true, main := MainOver));
            && Enabled(s, ChildFailed) && Handler(s, ChildFailed, env) == t
            && (s.tasks.cancelled ==> Enabled(s, MainStep) && Handler(s, MainStep, env) == t)
  {
    var s1 := Step(s, ChildFailed);
    var s2 := AdvanceMain(s1);
    assert SettleMonitor(s1) == s1 && SettleMain(s1) == SettleMain(s2) == s2;
    if s.tasks.cancelled {
      assert Step(s, MainStep) == s1;
    }
  }

  /** A signal, and the end of a kill's delay, cancel the daemon and do nothing else. */
  lemma SignalCancels(s: State, env: Env)
    requires Ticks(s)
    ensures Enabled(s, Signal) && Handler(s, Signal, env) == s.(tasks := s.tasks.(cancelled := true))
    ensures s.tasks.killTimer ==>
              Enabled(s, KillTimer) && Handler(s, KillTimer, env) == s.(tasks := s.tasks.(cancelled := true))
  {
    hide SettleMain, SettleMonitor;
    TasksStay(s.(tasks := s.tasks.(cancelled := true)));
  }

  /** The accept loop and, once cancelled, the monitor end, and do nothing else. */
  lemma LoopsEnd(s: State, env: Env)
    requires Ticks(s)
    ensures s.tasks.accepting ==>
              Enabled(s, AcceptEnds) && Handler(s, AcceptEnds, env) == s.(tasks := s.tasks.(accepting := false))
    ensures s.tasks.monitor.MonitorTick? && s.tasks.cancelled ==>
              Enabled(s, MonitorEnds) && Handler(s, MonitorEnds, env) == s.(tasks := s.tasks.(monitor := MonitorOver))
  {
    hide SettleMain, SettleMonitor;
    TasksStay(s.(tasks := s.tasks.(accepting := false)));
    TasksStay(s.(tasks := s.tasks.(monitor := MonitorOver)));
  }
}
