/** What every run of the daemon keeps, whatever the interleaving of lock accesses. */
module DaemonSafety {
  import opened Wrappers
  import opened Protocol
  import opened Registry
  import opened Daemon
  import Slug

  // ---------------------------------------------------------------------------------------------
  // The invariant
  // ---------------------------------------------------------------------------------------------

  /** The registry holds exactly the routes registered and not yet gone, one per session. */
  ghost predicate RoutesOk(routes: Routes, nextSession: nat, h: History) {
    && nextSession >= 1
    && (forall i :: i in h.minted <==> 1 <= i < nextSession)
    && (forall i :: i in h.born ==> i in h.minted && h.born[i].ownerSession == i)
    && (forall i :: i in h.gone ==> i in h.born)
    && (forall k :: k in routes ==>
          var i := routes[k].ownerSession; i in h.born && i !in h.gone && h.born[i] == routes[k])
    && (forall i :: i in h.born && i !in h.gone ==>
          h.born[i].slug in routes && routes[h.born[i].slug] == h.born[i])
  }

  ghost predicate OwnersOk(owners: map<nat, ConnId>, h: History) {
    forall i :: i in owners ==> Holding(owners[i], i, h)
  }

  ghost predicate Known(route: Route, h: History) {
    route.ownerSession in h.born && h.born[route.ownerSession] == route
  }

  ghost predicate OwnToken(token: Token, c: ConnId, h: History) {
    token in h.stopper && h.stopper[token] == c
  }

  ghost predicate Holding(c: ConnId, session: nat, h: History) {
    session in h.born && session in h.minted && h.minted[session] == c
  }

  /** What the place of a connection says about its session and the route it is stopping. */
  ghost predicate PcOk(c: ConnId, pc: Pc, owned: Option<nat>, h: History) {
    match pc
    case RegDraw(_, _, _) => owned == None
    case RegInsert(session, _, _, _) =>
      owned == None && session in h.minted && h.minted[session] == c && session !in h.born
    case RegOwner(route) => owned == Some(route.ownerSession) && Known(route, h)
    case RegActive(route) => owned == Some(route.ownerSession) && Known(route, h)
    case RegReply(route) => owned == Some(route.ownerSession) && Known(route, h)
    case Removing(session, stage, after) =>
      && session in h.born
      && (!stage.AtRegistry? ==> session in h.gone)
      && (match after
          case ThenStopped(route, token) => route.ownerSession == session && Known(route, h) && OwnToken(token, c, h)
          case _ => owned == Some(session))
    case UnregReply(session) => owned == Some(session) && session in h.gone
    case StopInsert(route) => Known(route, h)
    case StopLookup(route, token) => Known(route, h) && OwnToken(token, c, h)
    case StopSend(route, token, owner) =>
      Known(route, h) && OwnToken(token, c, h) && (owner.Some? ==> Holding(owner.value, route.ownerSession, h))
    case StopListen(route, token) => Known(route, h) && OwnToken(token, c, h)
    case StopWait(route, token, woken) =>
      Known(route, h) && OwnToken(token, c, h) && (woken ==> route.ownerSession in h.gone)
    case StopReply(route) => Known(route, h) && route.ownerSession in h.gone
    case Answer(message) => message.Error? || message.RouteList?
    case Closed(clean) => clean && owned.Some? ==> owned.value in h.gone
    case _ => true
  }

  ghost predicate ConnOk(c: ConnId, k: Conn, h: History) {
    PcOk(c, k.pc, k.owned, h) && (k.owned.Some? ==> Holding(c, k.owned.value, h))
  }

  ghost predicate ConnsOk(conns: map<ConnId, Conn>, h: History) {
    forall c :: c in conns ==> ConnOk(c, conns[c], h)
  }

  /** The stop at `pc` has put `token` under `session` and not yet seen it taken out. */
  predicate Awaits(pc: Pc, session: nat, token: Token) {
    match pc
    case StopLookup(route, t) => route.ownerSession == session && t == token
    case StopSend(route, t, _) => route.ownerSession == session && t == token
    case StopListen(route, t) => route.ownerSession == session && t == token
    case StopWait(route, t, woken) => route.ownerSession == session && t == token && !woken
    case Removing(i, stage, ThenStopped(_, t)) =>
      i == session && t == token && (stage.AtRegistry? || stage.AtOwners? || stage.AtAcks?)
    case _ => false
  }

  /** Every acknowledgement entry belongs to a stop that still awaits it. */
  ghost predicate AcksOk(acks: map<nat, Token>, conns: map<ConnId, Conn>, nextToken: Token, stopper: map<Token, ConnId>) {
    && (forall t :: t in stopper ==> t < nextToken)
    && (forall i :: i in acks ==>
          && acks[i] in stopper
          && stopper[acks[i]] in conns
          && Awaits(conns[stopper[acks[i]]].pc, i, acks[i]))
  }

  /** A stop is reported only for a route that has gone; a registration only to the connection that
      made it; the end of a session only to its connection, once its route has gone. */
  ghost predicate Truthful(entry: Sent, h: History) {
    match entry.message
    case Stopped(route) => Known(route, h) && route.ownerSession in h.gone
    case Registered(route) => entry.To? && Known(route, h) && Holding(entry.conn, route.ownerSession, h)
    case Unregistered(session) => entry.To? && Holding(entry.conn, session, h) && session in h.gone
    case _ => true
  }

  ghost predicate ReportsOk(sent: seq<Sent>, h: History) {
    forall n :: 0 <= n < |sent| ==> Truthful(sent[n], h)
  }

  /** Past the swap: this is the one kill that goes through. */
  predicate Killing(pc: Pc) { pc.KillClear? || Counted(pc) }

  predicate Counted(pc: Pc) { pc.KillOwners? || pc.KillSend? || pc.KillReply? }

  /** The sessions whose routes a kill cleared. */
  ghost function ClearedByKill(gone: map<nat, Cause>): set<nat> {
    set i | i in gone && gone[i].ByKill?
  }

  ghost predicate KillSent(sent: seq<Sent>, n: int) {
    0 <= n < |sent| && sent[n].message.KillAccepted?
  }

  /** At most one kill is ever accepted, and it counts the routes it cleared. */
  ghost predicate KillLogOk(kill: KillStatus, sent: seq<Sent>, cleared: set<nat>) {
    && (kill.NoKill? ==> cleared == {})
    && (!kill.KillOver? ==> forall n :: !KillSent(sent, n))
    && (forall m, n :: KillSent(sent, m) && KillSent(sent, n) ==> m == n)
    && (forall n :: KillSent(sent, n) ==> sent[n].message.routeCount == |cleared|)
  }

  ghost predicate KillPcOk(c: ConnId, pc: Pc, kill: KillStatus, cleared: set<nat>) {
    && (Killing(pc) ==> kill == KillRunning(c))
    && (pc.KillClear? ==> cleared == {})
    && (Counted(pc) ==> pc.count == |cleared|)
  }

  ghost predicate KillConnsOk(conns: map<ConnId, Conn>, kill: KillStatus, cleared: set<nat>) {
    forall c :: c in conns ==> KillPcOk(c, conns[c].pc, kill, cleared)
  }

  ghost predicate Inv(s: State) {
    && WellFormed(s.core.routes)
    && RoutesOk(s.core.routes, s.core.nextSession, s.past)
    && OwnersOk(s.core.owners, s.past)
    && ConnsOk(s.conns, s.past)
    && AcksOk(s.core.acks, s.conns, s.nextToken, s.past.stopper)
    && ReportsOk(s.sent, s.past)
    && KillLogOk(s.kill, s.sent, ClearedByKill(s.past.gone))
    && KillConnsOk(s.conns, s.kill, ClearedByKill(s.past.gone))
    && (!s.core.shuttingDown ==> s.kill.NoKill?)
  }

  // ---------------------------------------------------------------------------------------------
  // Frames
  // ---------------------------------------------------------------------------------------------

  /** The past grew; only connection `c` may have registered a route. */
  ghost predicate Extends(h: History, h': History, c: ConnId) {
    && (forall i :: i in h.minted ==> i in h'.minted && h'.minted[i] == h.minted[i])
    && (forall i :: i in h.born ==> i in h'.born && h'.born[i] == h.born[i])
    && (forall i :: i in h'.born && i !in h.born ==> i in h'.minted && h'.minted[i] == c)
    && (forall i :: i in h.gone ==> i in h'.gone)
    && (forall t :: t in h.stopper ==> t in h'.stopper && h'.stopper[t] == h.stopper[t])
  }

  lemma ConnFrame(d: ConnId, k: Conn, h: History, h': History, c: ConnId)
    requires ConnOk(d, k, h) && Extends(h, h', c) && d != c
    ensures ConnOk(d, k, h')
  {
  }

  lemma ConnsFrame(conns: map<ConnId, Conn>, h: History, h': History, c: ConnId, k: Conn)
    requires ConnsOk(conns, h) && Extends(h, h', c) && ConnOk(c, k, h')
    ensures ConnsOk(conns[c := k], h')
  {
    forall d | d in conns && d != c ensures ConnOk(d, conns[d], h') {
      ConnFrame(d, conns[d], h, h', c);
    }
  }

  lemma AcksFrame(
    acks: map<nat, Token>, conns: map<ConnId, Conn>, nextToken: Token, stopper: map<Token, ConnId>, c: ConnId, k: Conn
  )
    requires AcksOk(acks, conns, nextToken, stopper)
    requires c in conns ==> forall i, t :: Awaits(conns[c].pc, i, t) ==> Awaits(k.pc, i, t)
    ensures AcksOk(acks, conns[c := k], nextToken, stopper)
  {
  }

  lemma PastFrame(owners: map<nat, ConnId>, sent: seq<Sent>, h: History, h': History, c: ConnId)
    requires OwnersOk(owners, h) && ReportsOk(sent, h) && Extends(h, h', c)
    ensures OwnersOk(owners, h') && ReportsOk(sent, h')
  {
  }

  // ---------------------------------------------------------------------------------------------
  // Steps that change one connection and at most append to the log
  // ---------------------------------------------------------------------------------------------

  /** A log entry that reports no stop too early and accepts no kill. */
  ghost predicate Benign(entry: Sent, h: History) {
    !entry.message.KillAccepted? && Truthful(entry, h)
  }

  lemma LogStep(s: State, entry: Sent)
    requires Inv(s) && Benign(entry, s.past)
    ensures Inv(Log(s, entry))
  {
    var sent' := s.sent + [entry];
    forall n ensures KillSent(sent', n) <==> KillSent(s.sent, n) {}
    forall n | KillSent(s.sent, n) ensures sent'[n] == s.sent[n] {}
  }

  lemma LocalStep(s: State, c: ConnId, k: Conn)
    requires Inv(s)
    requires ConnOk(c, k, s.past) && KillPcOk(c, k.pc, s.kill, ClearedByKill(s.past.gone))
    requires c in s.conns ==> forall i, t :: Awaits(s.conns[c].pc, i, t) ==> Awaits(k.pc, i, t)
    ensures Inv(s.(conns := s.conns[c := k]))
  {
    ConnsFrame(s.conns, s.past, s.past, c, k);
    AcksFrame(s.core.acks, s.conns, s.nextToken, s.past.stopper, c, k);
  }

  /** Steps that also change the registry and the past, but neither acknowledgements nor log. */
  lemma PastStep(s: State, s': State, c: ConnId)
    requires Inv(s) && c in s.conns && c in s'.conns
    requires s'.conns == s.conns[c := s'.conns[c]]
    requires s'.core.owners == s.core.owners && s'.core.acks == s.core.acks
    requires s'.core.shuttingDown == s.core.shuttingDown
    requires s'.nextToken == s.nextToken && s'.past.stopper == s.past.stopper
    requires s'.kill == s.kill && s'.sent == s.sent
    requires WellFormed(s'.core.routes)
    requires Extends(s.past, s'.past, c) && RoutesOk(s'.core.routes, s'.core.nextSession, s'.past)
    requires ClearedByKill(s'.past.gone) == ClearedByKill(s.past.gone)
    requires ConnOk(c, s'.conns[c], s'.past) && !Killing(s'.conns[c].pc)
    requires forall i, t :: Awaits(s.conns[c].pc, i, t) ==> Awaits(s'.conns[c].pc, i, t)
    ensures Inv(s')
  {
    ConnsFrame(s.conns, s.past, s'.past, c, s'.conns[c]);
    AcksFrame(s.core.acks, s.conns, s.nextToken, s.past.stopper, c, s'.conns[c]);
    PastFrame(s.core.owners, s.sent, s.past, s'.past, c);
  }

  lemma GotoStep(s: State, c: ConnId, pc: Pc)
    requires Inv(s) && c in s.conns
    requires PcOk(c, pc, s.conns[c].owned, s.past) && KillPcOk(c, pc, s.kill, ClearedByKill(s.past.gone))
    requires forall i, t :: Awaits(s.conns[c].pc, i, t) ==> Awaits(pc, i, t)
    ensures Inv(Goto(s, c, pc))
  {
    LocalStep(s, c, s.conns[c].(pc := pc));
  }

  lemma ConnIsOk(s: State, c: ConnId)
    requires Inv(s) && c in s.conns
    ensures ConnOk(c, s.conns[c], s.past)
  {
  }

  lemma ReceiveKeepsInv(s: State, c: ConnId, message: ClientMessage)
    requires Inv(s) && c in s.conns && s.conns[c].pc.Reading?
    ensures Inv(Receive(s, c, message))
  {
    hide Inv;
    ConnIsOk(s, c);
    var owned := s.conns[c].owned;
    match message
    case Register(port, slug, pid) =>
      GotoStep(
        s, c, if owned.Some? || s.core.shuttingDown then Answer(Error(DaemonShuttingDown)) else RegDraw(port, slug, pid));
    case Unregister(session) =>
      GotoStep(
        s, c,
        if owned == Some(session) then Removing(session, AtRegistry, ThenUnregistered) else Answer(Error(InvalidRequest)));
    case TerminateAcknowledged(session) =>
      GotoStep(s, c, if owned == Some(session) then Removing(session, AtRegistry, ThenReading) else Reading);
    case List => GotoStep(s, c, ListRead);
    case Stop(selector) => GotoStep(s, c, StopResolve(selector));
    case Kill => GotoStep(s, c, KillSwap);
  }

  lemma HangupKeepsInv(s: State, c: ConnId)
    requires Inv(s) && c in s.conns && s.conns[c].pc.Reading?
    ensures Inv(Hangup(s, c))
  {
    assert ConnOk(c, s.conns[c], s.past);
    match s.conns[c].owned
    case Some(session) => GotoStep(s, c, Removing(session, AtRegistry, ThenClosed));
    case None => GotoStep(s, c, Closed(true));
  }

  lemma RespondKeepsInv(s: State, c: ConnId, message: ServerMessage, env: Env)
    requires Inv(s) && c in s.conns && Benign(To(c, message), s.past)
    requires forall i, t :: !Awaits(s.conns[c].pc, i, t)
    ensures Inv(Respond(s, c, message, env, Reading))
  {
    if env.selfAlive {
      LogStep(s, To(c, message));
      GotoStep(Log(s, To(c, message)), c, Reading);
    } else {
      GotoStep(s, c, Closed(false));
    }
  }

  // ---------------------------------------------------------------------------------------------
  // Registration
  // ---------------------------------------------------------------------------------------------

  lemma DrawKeepsInv(s: State, c: ConnId, port: u16, slug: Option<string>, pid: nat)
    requires Inv(s) && c in s.conns && s.conns[c].pc == RegDraw(port, slug, pid)
    ensures Inv(DrawSession(s, c, port, slug, pid))
  {
    assert ConnOk(c, s.conns[c], s.past);
    PastStep(s, DrawSession(s, c, port, slug, pid), c);
  }

  /** A route enters the registry: under a session id that never had one. */
  lemma InsertKeepsRoutes(routes: Routes, nextSession: nat, h: History, route: Route)
    requires RoutesOk(routes, nextSession, h)
    requires route.slug !in routes && route.ownerSession in h.minted && route.ownerSession !in h.born
    ensures RoutesOk(routes[route.slug := route], nextSession, h.(born := h.born[route.ownerSession := route]))
  {
  }

  lemma InsertKeepsInv(s: State, c: ConnId, route: Route)
    requires Inv(s) && c in s.conns && s.conns[c].pc.RegInsert? && s.conns[c].pc.session == route.ownerSession
    requires route.slug !in s.core.routes && !PortTaken(s.core.routes, route.port)
    requires route.port != 0 && Slug.IsSlug(route.slug)
    ensures Inv(InsertRoute(s, c, route))
  {
    assert ConnOk(c, s.conns[c], s.past);
    InsertKeepsWellFormed(s.core.routes, route);
    InsertKeepsRoutes(s.core.routes, s.core.nextSession, s.past, route);
    PastStep(s, InsertRoute(s, c, route), c);
  }

  // ---------------------------------------------------------------------------------------------
  // Removal of a session
  // ---------------------------------------------------------------------------------------------

  lemma RemoveKeepsRoutes(routes: Routes, nextSession: nat, h: History, session: nat, cause: Cause)
    requires RoutesOk(routes, nextSession, h) && session in h.born
    ensures var gone := GoneAfter(h.gone, OwnerIds(routes), session, cause);
            RoutesOk(WithoutSession(routes, session), nextSession, h.(gone := gone)) && session in gone
  {
    if session !in h.gone {
      assert routes[h.born[session].slug].ownerSession in OwnerIds(routes);
    }
    forall k | k in routes ensures routes[k].ownerSession in OwnerIds(routes) {}
  }

  lemma RemovalIsNoKill(routes: Routes, nextSession: nat, h: History, session: nat, cause: Cause)
    requires RoutesOk(routes, nextSession, h) && !cause.ByKill?
    ensures ClearedByKill(GoneAfter(h.gone, OwnerIds(routes), session, cause)) == ClearedByKill(h.gone)
  {
  }

  lemma RemovingConn(c: ConnId, session: nat, after: After, owned: Option<nat>, h: History, h': History)
    requires ConnOk(c, Conn(Removing(session, AtRegistry, after), owned), h)
    requires h' == h.(gone := h'.gone) && session in h'.gone
    ensures ConnOk(c, Conn(Removing(session, AtOwners, after), owned), h')
  {
  }

  lemma GoneExtends(h: History, h': History, c: ConnId)
    requires h' == h.(gone := h'.gone) && forall i :: i in h.gone ==> i in h'.gone
    ensures Extends(h, h', c)
  {
  }

  lemma RemoveRoutesFacts(s: State, c: ConnId, session: nat, after: After)
    requires WellFormed(s.core.routes) && RoutesOk(s.core.routes, s.core.nextSession, s.past)
    requires c in s.conns && s.conns[c].pc == Removing(session, AtRegistry, after) && ConnOk(c, s.conns[c], s.past)
    ensures var s' := RemoveRoutes(s, c, session, after);
            && WellFormed(s'.core.routes) && RoutesOk(s'.core.routes, s'.core.nextSession, s'.past)
            && ClearedByKill(s'.past.gone) == ClearedByKill(s.past.gone)
            && Extends(s.past, s'.past, c)
            && ConnOk(c, s'.conns[c], s'.past)
  {
    SubmapKeepsWellFormed(s.core.routes, WithoutSession(s.core.routes, session));
    RemoveKeepsRoutes(s.core.routes, s.core.nextSession, s.past, session, CauseOf(c, after));
    RemovalIsNoKill(s.core.routes, s.core.nextSession, s.past, session, CauseOf(c, after));
    var s' := RemoveRoutes(s, c, session, after);
    RemovingConn(c, session, after, s.conns[c].owned, s.past, s'.past);
    GoneExtends(s.past, s'.past, c);
  }

  lemma RemoveRoutesKeepsInv(s: State, c: ConnId, session: nat, after: After)
    requires Inv(s) && c in s.conns && s.conns[c].pc == Removing(session, AtRegistry, after)
    ensures Inv(RemoveRoutes(s, c, session, after))
  {
    RemoveRoutesFacts(s, c, session, after);
    PastStep(s, RemoveRoutes(s, c, session, after), c);
  }

  lemma OwnersStep(s: State, owners: map<nat, ConnId>)
    requires Inv(s) && OwnersOk(owners, s.past)
    ensures Inv(s.(core := s.core.(owners := owners)))
  {
  }

  lemma IdleStep(s: State, idle: Option<nat>)
    requires Inv(s)
    ensures Inv(s.(core := s.core.(idleSince := idle)))
  {
  }

  /** Waking the stops that wait on the entry taken out. */
  lemma NotifyKeepsConns(conns: map<ConnId, Conn>, h: History, token: Token, session: nat)
    requires ConnsOk(conns, h) && token in h.stopper && h.stopper[token] in conns
    requires Awaits(conns[h.stopper[token]].pc, session, token) && session in h.gone
    ensures ConnsOk(Notify(conns, token), h)
  {
    forall d | d in conns ensures ConnOk(d, Notify(conns, token)[d], h) {
      assert ConnOk(d, conns[d], h);
    }
  }

  lemma RemoveAckKeepsAcks(s: State, c: ConnId, session: nat, after: After)
    requires AcksOk(s.core.acks, s.conns, s.nextToken, s.past.stopper)
    requires c in s.conns && s.conns[c].pc == Removing(session, AtAcks, after)
    ensures var s' := RemoveAck(s, c, session, after);
            AcksOk(s'.core.acks, s'.conns, s'.nextToken, s'.past.stopper)
  {
  }

  lemma NotifyKeepsKill(conns: map<ConnId, Conn>, token: Token, kill: KillStatus, cleared: set<nat>)
    requires KillConnsOk(conns, kill, cleared)
    ensures KillConnsOk(Notify(conns, token), kill, cleared)
  {
  }

  lemma RemoveAckKeepsConns(s: State, c: ConnId, session: nat, after: After)
    requires ConnsOk(s.conns, s.past) && AcksOk(s.core.acks, s.conns, s.nextToken, s.past.stopper)
    requires c in s.conns && s.conns[c].pc == Removing(session, AtAcks, after)
    ensures ConnsOk(RemoveAck(s, c, session, after).conns, s.past)
  {
    assert ConnOk(c, s.conns[c], s.past);
    var woken := if session in s.core.acks then Notify(s.conns, s.core.acks[session]) else s.conns;
    if session in s.core.acks {
      NotifyKeepsConns(s.conns, s.past, s.core.acks[session], session);
    }
    ConnsFrame(woken, s.past, s.past, c, s.conns[c].(pc := Removing(session, AtEmptyTest, after)));
  }

  lemma RemoveAckKeepsInv(s: State, c: ConnId, session: nat, after: After)
    requires Inv(s) && c in s.conns && s.conns[c].pc == Removing(session, AtAcks, after)
    ensures Inv(RemoveAck(s, c, session, after))
  {
    RemoveAckKeepsConns(s, c, session, after);
    RemoveAckKeepsAcks(s, c, session, after);
    if session in s.core.acks {
      NotifyKeepsKill(s.conns, s.core.acks[session], s.kill, ClearedByKill(s.past.gone));
    }
  }

  lemma FinishKeepsInv(s: State, c: ConnId, session: nat, stage: Stage, after: After)
    requires Inv(s) && c in s.conns && s.conns[c].pc == Removing(session, stage, after)
    requires stage.AtEmptyTest? || stage.AtIdleWrite?
    ensures Inv(Finish(s, c, session, after))
  {
    assert ConnOk(c, s.conns[c], s.past);
    match after
    case ThenUnregistered => GotoStep(s, c, UnregReply(session));
    case ThenReading => LocalStep(s, c, Conn(Reading, None));
    case ThenClosed => GotoStep(s, c, Closed(true));
    case ThenStopped(route, _) => GotoStep(s, c, StopReply(route));
  }

  lemma AdvanceRemoveKeepsInv(s: State, c: ConnId, session: nat, stage: Stage, after: After)
    requires Inv(s) && c in s.conns && s.conns[c].pc == Removing(session, stage, after)
    ensures Inv(AdvanceRemove(s, c, session, stage, after))
  {
    assert ConnOk(c, s.conns[c], s.past);
    match stage
    case AtRegistry => RemoveRoutesKeepsInv(s, c, session, after);
    case AtOwners =>
      OwnersStep(s, s.core.owners - {session});
      GotoStep(s.(core := s.core.(owners := s.core.owners - {session})), c, Removing(session, AtAcks, after));
    case AtAcks => RemoveAckKeepsInv(s, c, session, after);
    case AtEmptyTest =>
      if s.core.routes == map[] {
        GotoStep(s, c, Removing(session, AtIdleWrite, after));
      } else {
        FinishKeepsInv(s, c, session, stage, after);
      }
    case AtIdleWrite =>
      var idle := if s.core.idleSince.None? then Some(s.now) else s.core.idleSince;
      IdleStep(s, idle);
      FinishKeepsInv(s.(core := s.core.(idleSince := idle)), c, session, stage, after);
  }

  // ---------------------------------------------------------------------------------------------
  // Stops
  // ---------------------------------------------------------------------------------------------

  lemma InsertAckKeepsAcks(s: State, c: ConnId, route: Route)
    requires AcksOk(s.core.acks, s.conns, s.nextToken, s.past.stopper)
    requires c in s.conns && s.conns[c].pc == StopInsert(route)
    ensures var s' := InsertAck(s, c, route);
            AcksOk(s'.core.acks, s'.conns, s'.nextToken, s'.past.stopper)
  {
  }

  lemma InsertAckFacts(s: State, c: ConnId, route: Route)
    requires Inv(s) && c in s.conns && s.conns[c].pc == StopInsert(route)
    ensures var s' := InsertAck(s, c, route);
            && Extends(s.past, s'.past, c) && ConnOk(c, s'.conns[c], s'.past)
            && RoutesOk(s.core.routes, s.core.nextSession, s'.past)
            && KillConnsOk(s'.conns, s.kill, ClearedByKill(s.past.gone))
  {
    assert ConnOk(c, s.conns[c], s.past);
  }

  lemma InsertAckKeepsInv(s: State, c: ConnId, route: Route)
    requires Inv(s) && c in s.conns && s.conns[c].pc == StopInsert(route)
    ensures Inv(InsertAck(s, c, route))
  {
    hide ConnOk, RoutesOk, WellFormed, Extends, KillLogOk, KillConnsOk;
    var s' := InsertAck(s, c, route);
    InsertAckFacts(s, c, route);
    InsertAckKeepsAcks(s, c, route);
    ConnsFrame(s.conns, s.past, s'.past, c, s'.conns[c]);
    PastFrame(s.core.owners, s.sent, s.past, s'.past, c);
  }

  /** What a selector resolves to is a known route. */
  lemma ResolvedIsKnown(routes: Routes, nextSession: nat, h: History, selector: StopSelector)
    requires WellFormed(routes) && RoutesOk(routes, nextSession, h) && Resolve(routes, selector).Some?
    ensures Known(Resolve(routes, selector).value, h)
  {
    ResolveAgrees(routes, selector);
  }

  lemma StopResolveKeepsInv(s: State, c: ConnId, selector: StopSelector)
    requires Inv(s) && c in s.conns && s.conns[c].pc == StopResolve(selector)
    ensures match Resolve(s.core.routes, selector)
            case Some(route) => Inv(Goto(s, c, StopInsert(route)))
            case None => Inv(Goto(s, c, Answer(Error(RouteNotFound))))
  {
    match Resolve(s.core.routes, selector)
    case Some(route) =>
      ResolvedIsKnown(s.core.routes, s.core.nextSession, s.past, selector);
      GotoStep(s, c, StopInsert(route));
    case None => GotoStep(s, c, Answer(Error(RouteNotFound)));
  }

  lemma StopSendKeepsInv(s: State, c: ConnId, env: Env, route: Route, token: Token, owner: Option<ConnId>)
    requires Inv(s) && c in s.conns && s.conns[c].pc == StopSend(route, token, owner)
    ensures Inv(AdvanceStop(s, c, env))
  {
    assert ConnOk(c, s.conns[c], s.past);
    if owner.Some? && env.ownerAlive {
      LogStep(s, To(owner.value, Terminate(RemoteStop)));
      GotoStep(Log(s, To(owner.value, Terminate(RemoteStop))), c, StopListen(route, token));
    } else {
      GotoStep(s, c, StopListen(route, token));
    }
  }

  lemma StopListenKeepsInv(s: State, c: ConnId, route: Route, token: Token)
    requires Inv(s) && c in s.conns && s.conns[c].pc == StopListen(route, token)
    ensures Inv(Goto(s, c, StopWait(route, token, false)))
  {
    assert ConnOk(c, s.conns[c], s.past);
    GotoStep(s, c, StopWait(route, token, false));
  }

  lemma StopLookupKeepsInv(s: State, c: ConnId, env: Env, route: Route, token: Token)
    requires Inv(s) && c in s.conns && s.conns[c].pc == StopLookup(route, token)
    ensures Inv(AdvanceStop(s, c, env))
  {
    assert ConnOk(c, s.conns[c], s.past);
    var session := route.ownerSession;
    var owner := if session in s.core.owners then Some(s.core.owners[session]) else None;
    assert owner.Some? ==> Holding(owner.value, session, s.past);
    GotoStep(s, c, StopSend(route, token, owner));
  }

  lemma ListKeepsInv(s: State, c: ConnId)
    requires Inv(s) && c in s.conns && s.conns[c].pc == ListRead
    ensures Inv(Goto(s, c, Answer(RouteList(s.core.routes))))
  {
    GotoStep(s, c, Answer(RouteList(s.core.routes)));
  }

  lemma StopReplyKeepsInv(s: State, c: ConnId, env: Env, route: Route)
    requires Inv(s) && c in s.conns && s.conns[c].pc == StopReply(route)
    ensures Inv(Respond(s, c, Stopped(route), env, Reading))
  {
    assert ConnOk(c, s.conns[c], s.past);
    RespondKeepsInv(s, c, Stopped(route), env);
  }

  // ---------------------------------------------------------------------------------------------
  // Kill and fatal
  // ---------------------------------------------------------------------------------------------

  /** Clearing the registry sends every active route's session into the past. */
  lemma ClearKeepsRoutes(s: State, cause: Cause)
    requires RoutesOk(s.core.routes, s.core.nextSession, s.past)
    ensures RoutesOk(map[], s.core.nextSession, Cleared(s, cause).past)
    ensures forall c :: Extends(s.past, Cleared(s, cause).past, c)
    ensures ClearedByKill(Cleared(s, cause).past.gone) ==
            if cause.ByKill? then ClearedByKill(s.past.gone) + OwnerIds(s.core.routes) else ClearedByKill(s.past.gone)
  {
    forall k | k in s.core.routes ensures s.core.routes[k].ownerSession in OwnerIds(s.core.routes) {}
    var h' := Cleared(s, cause).past;
    forall i | i in s.past.born ensures i in h'.gone {
      if i !in s.past.gone {
        assert s.core.routes[s.past.born[i].slug].ownerSession == i;
      }
    }
    forall i | i in OwnerIds(s.core.routes) ensures i !in s.past.gone && i in s.past.born {
      var k :| k in s.core.routes && s.core.routes[k].ownerSession == i;
    }
  }

  /** Distinct routes have distinct owners. */
  lemma {:induction false} OwnerCount(m: Routes)
    requires forall k, l :: k in m && l in m && m[k].ownerSession == m[l].ownerSession ==> k == l
    ensures |OwnerIds(m)| == |m|
    decreases |m|
  {
    if m != map[] {
      var k :| k in m;
      var rest := m - {k};
      OwnerCount(rest);
      assert m.Keys == rest.Keys + {k};
      assert OwnerIds(m) == OwnerIds(rest) + {m[k].ownerSession};
    }
  }

  lemma ActiveCount(routes: Routes, nextSession: nat, h: History)
    requires WellFormed(routes) && RoutesOk(routes, nextSession, h)
    ensures |OwnerIds(routes)| == |routes|
  {
    OwnerCount(routes);
  }

  lemma ClearKeepsConns(s: State, cause: Cause, d: ConnId, k: Conn)
    requires RoutesOk(s.core.routes, s.core.nextSession, s.past) && ConnOk(d, k, s.past)
    ensures ConnOk(d, k, Cleared(s, cause).past)
  {
  }

  /** Apart from the accounting of kills, clearing the registry keeps everything. */
  lemma ClearedKeeps(s: State, cause: Cause)
    requires Inv(s)
    ensures var s' := Cleared(s, cause);
            && WellFormed(s'.core.routes) && RoutesOk(s'.core.routes, s'.core.nextSession, s'.past)
            && ConnsOk(s'.conns, s'.past)
            && OwnersOk(s'.core.owners, s'.past) && ReportsOk(s'.sent, s'.past)
  {
    ClearKeepsRoutes(s, cause);
    forall d | d in s.conns ensures ConnOk(d, s.conns[d], Cleared(s, cause).past) {
      ClearKeepsConns(s, cause, d, s.conns[d]);
    }
    PastFrame(s.core.owners, s.sent, s.past, Cleared(s, cause).past, 0);
  }

  lemma FatalClearKeepsInv(s: State)
    requires Inv(s)
    ensures Inv(Cleared(s, ByFatal))
  {
    ClearedKeeps(s, ByFatal);
    ClearKeepsRoutes(s, ByFatal);
  }

  lemma KillClearFacts(s: State, c: ConnId)
    requires Inv(s) && c in s.conns && s.conns[c].pc.KillClear?
    ensures s.kill == KillRunning(c)
    ensures ClearedByKill(Cleared(s, ByKill(c)).past.gone) == OwnerIds(s.core.routes)
    ensures |OwnerIds(s.core.routes)| == |s.core.routes|
  {
    assert KillPcOk(c, s.conns[c].pc, s.kill, ClearedByKill(s.past.gone));
    ClearKeepsRoutes(s, ByKill(c));
    ActiveCount(s.core.routes, s.core.nextSession, s.past);
  }

  /** While a kill runs, only its own connection depends on the count of cleared routes. */
  lemma KillerAlone(conns: map<ConnId, Conn>, sent: seq<Sent>, c: ConnId, k: Conn, cleared: set<nat>, cleared': set<nat>)
    requires KillConnsOk(conns, KillRunning(c), cleared) && KillLogOk(KillRunning(c), sent, cleared)
    requires KillPcOk(c, k.pc, KillRunning(c), cleared')
    ensures KillConnsOk(conns[c := k], KillRunning(c), cleared') && KillLogOk(KillRunning(c), sent, cleared')
  {
  }

  lemma KillClearKeepsConns(s: State, c: ConnId, pc: Pc)
    requires ConnsOk(s.conns, s.past) && AcksOk(s.core.acks, s.conns, s.nextToken, s.past.stopper)
    requires c in s.conns && s.conns[c].pc.KillClear? && pc.KillOwners?
    ensures ConnsOk(Goto(s, c, pc).conns, s.past)
    ensures AcksOk(s.core.acks, Goto(s, c, pc).conns, s.nextToken, s.past.stopper)
  {
    var k := s.conns[c].(pc := pc);
    assert ConnOk(c, s.conns[c], s.past);
    ConnsFrame(s.conns, s.past, s.past, c, k);
    AcksFrame(s.core.acks, s.conns, s.nextToken, s.past.stopper, c, k);
  }

  lemma KillClearKeepsInv(s: State, c: ConnId)
    requires Inv(s) && c in s.conns && s.conns[c].pc.KillClear?
    ensures Inv(KillRoutes(s, c))
  {
    KillClearFacts(s, c);
    ClearedKeeps(s, ByKill(c));
    var s1 := Cleared(s, ByKill(c));
    var pc := KillOwners(|s.core.routes|);
    KillClearKeepsConns(s1, c, pc);
    KillerAlone(
      s.conns, s.sent, c, s.conns[c].(pc := pc), ClearedByKill(s.past.gone), ClearedByKill(s1.past.gone));
  }

  lemma KillSwapKeepsInv(s: State, c: ConnId, env: Env)
    requires Inv(s) && c in s.conns && s.conns[c].pc.KillSwap?
    ensures Inv(AdvanceKill(s, c, env))
  {
    if s.core.shuttingDown {
      GotoStep(s, c, Answer(Error(DaemonShuttingDown)));
    } else {
      ConnsFrame(s.conns, s.past, s.past, c, s.conns[c].(pc := KillClear));
      AcksFrame(s.core.acks, s.conns, s.nextToken, s.past.stopper, c, s.conns[c].(pc := KillClear));
    }
  }

  lemma KillOwnersKeepsInv(s: State, c: ConnId, env: Env, count: nat)
    requires Inv(s) && c in s.conns && s.conns[c].pc == KillOwners(count)
    ensures Inv(AdvanceKill(s, c, env))
  {
    assert KillPcOk(c, s.conns[c].pc, s.kill, ClearedByKill(s.past.gone));
    GotoStep(s, c, KillSend(count, s.core.owners.Values));
  }

  lemma KillSendKeepsInv(s: State, c: ConnId, env: Env, count: nat, targets: set<ConnId>)
    requires Inv(s) && c in s.conns && s.conns[c].pc == KillSend(count, targets)
    ensures Inv(AdvanceKill(s, c, env))
  {
    assert KillPcOk(c, s.conns[c].pc, s.kill, ClearedByKill(s.past.gone));
    var entry := ToAll(targets, Terminate(DaemonKill));
    LogStep(s, entry);
    GotoStep(Log(s, entry), c, KillReply(count));
  }

  /** The reply ends the only kill: afterwards no connection is in one. */
  lemma KillReplyLog(s: State, c: ConnId, count: nat, k: Conn, sent': seq<Sent>)
    requires Inv(s) && c in s.conns && s.conns[c].pc == KillReply(count) && !Killing(k.pc)
    requires sent' == s.sent || sent' == s.sent + [To(c, KillAccepted(count))]
    ensures KillLogOk(KillOver, sent', ClearedByKill(s.past.gone))
    ensures KillConnsOk(s.conns[c := k], KillOver, ClearedByKill(s.past.gone))
    ensures s.core.shuttingDown && ReportsOk(sent', s.past)
  {
    var cleared := ClearedByKill(s.past.gone);
    assert KillPcOk(c, s.conns[c].pc, s.kill, cleared);
    forall n ensures KillSent(sent', n) ==> n == |s.sent| && sent'[n] == To(c, KillAccepted(count)) {
      assert !KillSent(s.sent, n);
    }
    forall d | d in s.conns && d != c ensures !Killing(s.conns[d].pc) {
      assert KillPcOk(d, s.conns[d].pc, s.kill, cleared);
    }
  }

  lemma KillReplyKeepsInv(s: State, c: ConnId, env: Env, count: nat)
    requires Inv(s) && c in s.conns && s.conns[c].pc == KillReply(count)
    ensures Inv(AdvanceKill(s, c, env))
  {
    var k := s.conns[c].(pc := if env.selfAlive then Reading else Closed(false));
    var sent' := if env.selfAlive then s.sent + [To(c, KillAccepted(count))] else s.sent;
    assert ConnOk(c, s.conns[c], s.past);
    KillReplyLog(s, c, count, k, sent');
    ConnsFrame(s.conns, s.past, s.past, c, k);
    AcksFrame(s.core.acks, s.conns, s.nextToken, s.past.stopper, c, k);
  }

  lemma FlagKeepsInv(s: State)
    requires Inv(s)
    ensures Inv(s.(core := s.core.(shuttingDown := true)))
  {
  }

  // ---------------------------------------------------------------------------------------------
  // Every step, every run
  // ---------------------------------------------------------------------------------------------

  lemma RegisterReplyKeepsInv(s: State, c: ConnId, env: Env, route: Route)
    requires Inv(s) && c in s.conns
    ensures s.conns[c].pc == RegOwner(route) ==> Inv(AdvanceRegister(s, c, env))
    ensures s.conns[c].pc == RegActive(route) ==> Inv(AdvanceRegister(s, c, env))
  {
    assert ConnOk(c, s.conns[c], s.past);
    if s.conns[c].pc == RegOwner(route) {
      OwnersStep(s, s.core.owners[route.ownerSession := c]);
      GotoStep(s.(core := s.core.(owners := s.core.owners[route.ownerSession := c])), c, RegActive(route));
    }
    if s.conns[c].pc == RegActive(route) {
      IdleStep(s, None);
      GotoStep(s.(core := s.core.(idleSince := None)), c, RegReply(route));
    }
  }

  lemma UnregReplyKeepsInv(s: State, c: ConnId, env: Env, session: nat)
    requires Inv(s) && c in s.conns && s.conns[c].pc == UnregReply(session)
    ensures Inv(AdvanceRegister(s, c, env))
  {
    if env.selfAlive {
      LogStep(s, To(c, Unregistered(session)));
      LocalStep(Log(s, To(c, Unregistered(session))), c, Conn(Reading, None));
    } else {
      GotoStep(s, c, Closed(false));
    }
  }

  lemma AnswerKeepsInv(s: State, c: ConnId, env: Env, message: ServerMessage)
    requires Inv(s) && c in s.conns && s.conns[c].pc == Answer(message)
    ensures Inv(Respond(s, c, message, env, Reading))
  {
    assert ConnOk(c, s.conns[c], s.past);
    RespondKeepsInv(s, c, message, env);
  }

  lemma RegInsertKeepsInv(s: State, c: ConnId, env: Env)
    requires Inv(s) && c in s.conns && s.conns[c].pc.RegInsert?
    ensures Inv(AdvanceRegister(s, c, env))
  {
    var RegInsert(session, port, slug, pid) := s.conns[c].pc;
    RegisterMeaning(s.core.routes, port, slug, session, pid, env.draws);
    match Registry.Register(s.core.routes, port, slug, session, pid, env.draws)
    case Ok(route) => InsertKeepsInv(s, c, route);
    case Err(error) => GotoStep(s, c, Answer(ErrorMessage(error)));
  }

  lemma RegisterAdvanceKeepsInv(s: State, c: ConnId, env: Env)
    requires Inv(s) && c in s.conns && InRegister(s.conns[c].pc)
    ensures Inv(AdvanceRegister(s, c, env))
  {
    match s.conns[c].pc
    case RegDraw(port, slug, pid) => DrawKeepsInv(s, c, port, slug, pid);
    case RegInsert(_, _, _, _) => RegInsertKeepsInv(s, c, env);
    case RegOwner(route) => RegisterReplyKeepsInv(s, c, env, route);
    case RegActive(route) => RegisterReplyKeepsInv(s, c, env, route);
    case RegReply(route) => RespondKeepsInv(s, c, Registered(route), env);
    case UnregReply(session) => UnregReplyKeepsInv(s, c, env, session);
  }

  lemma AdvanceKeepsInv(s: State, c: ConnId, env: Env)
    requires Inv(s) && c in s.conns
    ensures Inv(Advance(s, c, env))
  {
    var pc := s.conns[c].pc;
    if pc.Removing? {
      AdvanceRemoveKeepsInv(s, c, pc.session, pc.stage, pc.after);
    } else if InRegister(pc) {
      RegisterAdvanceKeepsInv(s, c, env);
    } else if InKill(pc) {
      KillAdvanceKeepsInv(s, c, env);
    } else {
      StopAdvanceKeepsInv(s, c, env);
    }
  }

  lemma StopAdvanceKeepsInv(s: State, c: ConnId, env: Env)
    requires Inv(s) && c in s.conns
    ensures Inv(AdvanceStop(s, c, env))
  {
    hide Inv;
    match s.conns[c].pc
    case ListRead => ListKeepsInv(s, c);
    case Answer(message) => AnswerKeepsInv(s, c, env, message);
    case StopResolve(selector) => StopResolveKeepsInv(s, c, selector);
    case StopInsert(route) => InsertAckKeepsInv(s, c, route);
    case StopLookup(route, token) => StopLookupKeepsInv(s, c, env, route, token);
    case StopSend(route, token, owner) => StopSendKeepsInv(s, c, env, route, token, owner);
    case StopListen(route, token) => StopListenKeepsInv(s, c, route, token);
    case StopReply(route) => StopReplyKeepsInv(s, c, env, route);
    case _ =>
  }

  lemma KillClearAdvance(s: State, c: ConnId, env: Env)
    requires c in s.conns && s.conns[c].pc.KillClear?
    ensures AdvanceKill(s, c, env) == KillRoutes(s, c)
  {
  }

  lemma KillAdvanceKeepsInv(s: State, c: ConnId, env: Env)
    requires Inv(s) && c in s.conns && InKill(s.conns[c].pc)
    ensures Inv(AdvanceKill(s, c, env))
  {
    match s.conns[c].pc
    case KillSwap => KillSwapKeepsInv(s, c, env);
    case KillClear =>
      KillClearKeepsInv(s, c);
      KillClearAdvance(s, c, env);
    case KillOwners(count) => KillOwnersKeepsInv(s, c, env, count);
    case KillSend(count, targets) => KillSendKeepsInv(s, c, env, count, targets);
    case KillReply(count) => KillReplyKeepsInv(s, c, env, count);
  }

  lemma WaitKeepsInv(s: State, c: ConnId)
    requires Inv(s) && c in s.conns && s.conns[c].pc.StopWait?
    ensures var StopWait(route, token, woken) := s.conns[c].pc;
            Inv(Goto(s, c, if woken then StopReply(route) else Removing(route.ownerSession, AtRegistry, ThenStopped(route, token))))
  {
    var StopWait(route, token, woken) := s.conns[c].pc;
    assert ConnOk(c, s.conns[c], s.past);
    if woken {
      GotoStep(s, c, StopReply(route));
    } else {
      GotoStep(s, c, Removing(route.ownerSession, AtRegistry, ThenStopped(route, token)));
    }
  }

  /** The rest of the state does not matter to the invariant. */
  lemma SameInv(s: State, s': State)
    requires Inv(s)
    requires s' == s.(now := s'.now, tasks := s'.tasks)
    ensures Inv(s')
  {
  }

  lemma MonitorKeepsInv(s: State)
    requires Inv(s)
    ensures Inv(AdvanceMonitor(s))
  {
    if s.tasks.monitor.MonitorFlag? {
      FlagKeepsInv(s);
      SameInv(s.(core := s.core.(shuttingDown := true)), AdvanceMonitor(s));
    } else {
      SameInv(s, AdvanceMonitor(s));
    }
  }

  lemma MainKeepsInv(s: State)
    requires Inv(s)
    ensures Inv(AdvanceMain(s))
  {
    match s.tasks.main
    case FatalSend(targets) =>
      LogStep(s, ToAll(targets, Fatal));
      SameInv(Log(s, ToAll(targets, Fatal)), AdvanceMain(s));
    case FatalClear =>
      FatalClearKeepsInv(s);
      SameInv(Cleared(s, ByFatal), AdvanceMain(s));
    case MainFlag =>
      FlagKeepsInv(s);
      SameInv(s.(core := s.core.(shuttingDown := true)), AdvanceMain(s));
    case _ => SameInv(s, AdvanceMain(s));
  }

  lemma ConnectKeepsInv(s: State, c: ConnId)
    requires Inv(s) && c !in s.conns
    ensures Inv(s.(conns := s.conns[c := Conn(Reading, None)]))
  {
    LocalStep(s, c, Conn(Reading, None));
  }

  lemma BadFrameKeepsInv(s: State, c: ConnId)
    requires Inv(s) && c in s.conns && s.conns[c].pc.Reading?
    ensures Inv(Goto(s, c, Closed(false)))
  {
    GotoStep(s, c, Closed(false));
  }

  lemma StepKeepsInv(s: State, a: Action)
    requires Inv(s) && Enabled(s, a)
    ensures Inv(Step(s, a))
  {
    hide Inv;
    match a
    case Connect(c) => ConnectKeepsInv(s, c);
    case Frame(c, message) => ReceiveKeepsInv(s, c, message);
    case Disconnect(c) => HangupKeepsInv(s, c);
    case BadFrame(c) => BadFrameKeepsInv(s, c);
    case Move(c, env) => AdvanceKeepsInv(s, c, env);
    case StopNotified(c) => WaitKeepsInv(s, c);
    case StopTimedOut(c) => WaitKeepsInv(s, c);
    case Monitor => MonitorKeepsInv(s);
    case ChildExited =>
      FlagKeepsInv(s);
      SameInv(s.(core := s.core.(shuttingDown := true)), Step(s, a));
    case MainStep => MainKeepsInv(s);
    case _ => SameInv(s, Step(s, a));
  }

  /** The invariant holds at the end of every run. */
  lemma {:induction false} ExecKeepsInv(start: nat, actions: seq<Action>)
    requires Exec(start, actions).Some?
    ensures Inv(Exec(start, actions).value)
    decreases |actions|
  {
    if actions != [] {
      var n := |actions| - 1;
      ExecKeepsInv(start, actions[..n]);
      StepKeepsInv(Exec(start, actions[..n]).value, actions[n]);
    }
  }
}
