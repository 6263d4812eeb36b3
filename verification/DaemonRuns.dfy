/** The theorems about lock-granular runs of the daemon. */
module DaemonRuns {
  import opened Wrappers
  import opened Text
  import opened Protocol
  import opened Registry
  import opened Daemon
  import opened DaemonSafety
  import Slug

  // ---------------------------------------------------------------------------------------------
  // Runs
  // ---------------------------------------------------------------------------------------------

  lemma OneMore(start: nat, actions: seq<Action>, a: Action)
    requires Exec(start, actions).Some? && Enabled(Exec(start, actions).value, a)
    ensures Exec(start, actions + [a]) == Some(Step(Exec(start, actions).value, a))
  {
    assert (actions + [a])[..|actions + [a]| - 1] == actions;
  }

  lemma {:induction false} ExecPrefix(start: nat, actions: seq<Action>, more: seq<Action>)
    requires Exec(start, actions + more).Some?
    ensures Exec(start, actions).Some?
    decreases |more|
  {
    if more == [] {
      assert actions + more == actions;
    } else {
      var n := |more| - 1;
      assert (actions + more)[..|actions + more| - 1] == actions + more[..n];
      ExecPrefix(start, actions, more[..n]);
    }
  }

  /** The past is never rewritten: ids, routes, departures and queued messages only accumulate. */
  ghost predicate Continues(s: State, t: State) {
    && s.sent <= t.sent
    && (forall i :: i in s.past.minted ==> i in t.past.minted && t.past.minted[i] == s.past.minted[i])
    && (forall i :: i in s.past.born ==> i in t.past.born && t.past.born[i] == s.past.born[i])
    && (forall i :: i in s.past.gone ==> i in t.past.gone && t.past.gone[i] == s.past.gone[i])
    && (s.core.shuttingDown ==> t.core.shuttingDown)
  }

  lemma ClearContinues(s: State, cause: Cause)
    requires Inv(s)
    ensures Continues(s, Cleared(s, cause))
  {
    forall i | i in OwnerIds(s.core.routes) ensures i !in s.past.gone {
      var k :| k in s.core.routes && s.core.routes[k].ownerSession == i;
    }
  }

  /** The accesses that mint a session id, or change the registry. */
  predicate Pivotal(pc: Pc) {
    pc.RegDraw? || pc.RegInsert? || (pc.Removing? && pc.stage.AtRegistry?) || pc.KillClear?
  }

  /** All others leave registry and past alone. */
  ghost predicate Quiet(s: State, s': State) {
    && s'.core.routes == s.core.routes
    && s'.past == s.past.(stopper := s'.past.stopper)
    && s.sent <= s'.sent
    && (s.core.shuttingDown ==> s'.core.shuttingDown)
  }

  lemma QuietRemove(s: State, c: ConnId, session: nat, stage: Stage, after: After)
    requires c in s.conns && !stage.AtRegistry?
    ensures Quiet(s, AdvanceRemove(s, c, session, stage, after))
  {
  }

  lemma QuietRegister(s: State, c: ConnId, env: Env)
    requires c in s.conns && InRegister(s.conns[c].pc) && !Pivotal(s.conns[c].pc)
    ensures Quiet(s, AdvanceRegister(s, c, env))
  {
  }

  lemma QuietKill(s: State, c: ConnId, env: Env)
    requires c in s.conns && InKill(s.conns[c].pc) && !Pivotal(s.conns[c].pc)
    ensures Quiet(s, AdvanceKill(s, c, env))
  {
  }

  lemma QuietStop(s: State, c: ConnId, env: Env)
    requires c in s.conns
    ensures Quiet(s, AdvanceStop(s, c, env))
  {
  }

  lemma QuietAdvance(s: State, c: ConnId, env: Env)
    requires c in s.conns && !Pivotal(s.conns[c].pc)
    ensures Quiet(s, Advance(s, c, env))
  {
    var pc := s.conns[c].pc;
    if pc.Removing? {
      QuietRemove(s, c, pc.session, pc.stage, pc.after);
    } else if InRegister(pc) {
      QuietRegister(s, c, env);
    } else if InKill(pc) {
      QuietKill(s, c, env);
    } else {
      QuietStop(s, c, env);
    }
  }

  lemma QuietStep(s: State, a: Action)
    requires Enabled(s, a)
    requires a.Move? ==> !Pivotal(s.conns[a.conn].pc)
    requires a.MainStep? ==> !s.tasks.main.FatalClear?
    ensures Quiet(s, Step(s, a))
  {
    if a.Move? {
      QuietAdvance(s, a.conn, a.env);
    }
  }

  lemma RegistrationContinues(s: State, c: ConnId, env: Env)
    requires Inv(s) && c in s.conns && (s.conns[c].pc.RegDraw? || s.conns[c].pc.RegInsert?)
    ensures Continues(s, AdvanceRegister(s, c, env))
  {
    assert ConnOk(c, s.conns[c], s.past);
    if s.conns[c].pc.RegInsert? {
      var RegInsert(session, port, slug, pid) := s.conns[c].pc;
      RegisterMeaning(s.core.routes, port, slug, session, pid, env.draws);
    }
  }

  lemma KillContinues(s: State, c: ConnId)
    requires Inv(s) && c in s.conns
    ensures Continues(s, KillRoutes(s, c))
  {
    ClearContinues(s, ByKill(c));
  }

  lemma PivotalContinues(s: State, c: ConnId, env: Env)
    requires Inv(s) && c in s.conns && Pivotal(s.conns[c].pc)
    ensures Continues(s, Advance(s, c, env))
  {
    var pc := s.conns[c].pc;
    if pc.Removing? {
      RemovalContinues(s, c, pc.session, pc.after);
    } else if InRegister(pc) {
      RegistrationContinues(s, c, env);
    } else {
      KillClearAdvance(s, c, env);
      KillContinues(s, c);
    }
  }

  lemma RemovalContinues(s: State, c: ConnId, session: nat, after: After)
    requires Inv(s) && c in s.conns
    ensures Continues(s, RemoveRoutes(s, c, session, after))
  {
    if session in OwnerIds(s.core.routes) {
      var k :| k in s.core.routes && s.core.routes[k].ownerSession == session;
      assert session !in s.past.gone;
    }
  }

  lemma StepContinues(s: State, a: Action)
    requires Inv(s) && Enabled(s, a)
    ensures Continues(s, Step(s, a))
  {
    if a.Move? && Pivotal(s.conns[a.conn].pc) {
      PivotalContinues(s, a.conn, a.env);
    } else if a.MainStep? && s.tasks.main.FatalClear? {
      ClearContinues(s, ByFatal);
    } else {
      QuietStep(s, a);
    }
  }

  lemma {:induction false} ExecContinues(start: nat, actions: seq<Action>, more: seq<Action>)
    requires Exec(start, actions + more).Some?
    ensures Exec(start, actions).Some?
    ensures Continues(Exec(start, actions).value, Exec(start, actions + more).value)
    decreases |more|
  {
    ExecPrefix(start, actions, more);
    if more == [] {
      assert actions + more == actions;
    } else {
      var n := |more| - 1;
      assert (actions + more)[..|actions + more| - 1] == actions + more[..n];
      ExecContinues(start, actions, more[..n]);
      ExecKeepsInv(start, actions + more[..n]);
      StepContinues(Exec(start, actions + more[..n]).value, more[n]);
    }
  }

  // ---------------------------------------------------------------------------------------------
  // Stops
  // ---------------------------------------------------------------------------------------------

  /** Once a `Stopped` reply is queued, the session of the route it reports has a past route - that
      one - and appears in none of the registry's indexes, then and in every continuation. */
  lemma StoppedSessionStaysOut(
    start: nat, actions: seq<Action>, more: seq<Action>, n: nat,
    ports: map<u16, string>, sessions: map<nat, set<string>>
  )
    requires Exec(start, actions + more).Some?
    requires Consistent(Exec(start, actions + more).value.core.routes, ports, sessions)
    ensures Exec(start, actions).Some?
    ensures var s, t := Exec(start, actions).value, Exec(start, actions + more).value;
            n < |s.sent| && s.sent[n].message.Stopped? ==>
              var route := s.sent[n].message.route;
              && NotIndexed(t.core.routes, ports, sessions, route.ownerSession)
              && route.ownerSession in t.past.gone
              && Known(route, t.past)
  {
    hide Exec;
    ExecContinues(start, actions, more);
    ExecKeepsInv(start, actions + more);
    var s, t := Exec(start, actions).value, Exec(start, actions + more).value;
    if n < |s.sent| && s.sent[n].message.Stopped? {
      assert t.sent[n] == s.sent[n];
      var session := s.sent[n].message.route.ownerSession;
      assert Truthful(t.sent[n], t.past);
      assert OfSession(t.core.routes, session) == map[];
      UnownedIsNotIndexed(t.core.routes, ports, sessions, session);
    }
  }

  /** Every acknowledgement entry was created by a stop still in flight; none outlives its stop. */
  lemma AcknowledgementsAreLive(start: nat, actions: seq<Action>)
    requires Exec(start, actions).Some?
    ensures var s := Exec(start, actions).value;
            && (forall i :: i in s.core.acks ==>
                  exists c :: c in s.conns && OwnToken(s.core.acks[i], c, s.past) && Awaits(s.conns[c].pc, i, s.core.acks[i]))
            && (forall i, c :: i in s.core.acks && c in s.conns && OwnToken(s.core.acks[i], c, s.past) ==>
                  !Resting(s.conns[c].pc) || s.conns[c].pc.StopWait?)
  {
    ExecKeepsInv(start, actions);
  }

  /** A step of connection `c` leaves connection `d` as it is. */
  ghost predicate Leaves(s: State, s': State, c: ConnId, d: ConnId) {
    d != c && d in s.conns ==> d in s'.conns && s'.conns[d] == s.conns[d]
  }

  lemma RemoveLeaves(s: State, c: ConnId, session: nat, stage: Stage, after: After, d: ConnId)
    requires c in s.conns && !stage.AtAcks?
    ensures Leaves(s, AdvanceRemove(s, c, session, stage, after), c, d)
  {
    match stage
    case AtRegistry =>
    case AtOwners =>
    case AtEmptyTest => match after { case ThenUnregistered => case ThenReading => case ThenClosed => case ThenStopped(_, _) => }
    case AtIdleWrite => match after { case ThenUnregistered => case ThenReading => case ThenClosed => case ThenStopped(_, _) => }
  }

  lemma RegisterLeaves(s: State, c: ConnId, env: Env, d: ConnId)
    requires c in s.conns && InRegister(s.conns[c].pc)
    ensures Leaves(s, AdvanceRegister(s, c, env), c, d)
  {
  }

  lemma KillLeaves(s: State, c: ConnId, env: Env, d: ConnId)
    requires c in s.conns && InKill(s.conns[c].pc)
    ensures Leaves(s, AdvanceKill(s, c, env), c, d)
  {
  }

  lemma StopLeaves(s: State, c: ConnId, env: Env, d: ConnId)
    requires c in s.conns
    ensures Leaves(s, AdvanceStop(s, c, env), c, d)
  {
  }

  lemma AdvanceLeaves(s: State, c: ConnId, env: Env, d: ConnId)
    requires c in s.conns && !(s.conns[c].pc.Removing? && s.conns[c].pc.stage.AtAcks?)
    ensures Leaves(s, Advance(s, c, env), c, d)
  {
    var pc := s.conns[c].pc;
    if pc.Removing? {
      RemoveLeaves(s, c, pc.session, pc.stage, pc.after, d);
    } else if InRegister(pc) {
      RegisterLeaves(s, c, env, d);
    } else if InKill(pc) {
      KillLeaves(s, c, env, d);
    } else {
      StopLeaves(s, c, env, d);
    }
  }

  lemma ReceiveLeaves(s: State, c: ConnId, message: ClientMessage, d: ConnId)
    requires c in s.conns
    ensures Leaves(s, Receive(s, c, message), c, d)
  {
  }

  lemma MainLeaves(s: State, d: ConnId)
    requires d in s.conns
    ensures d in AdvanceMain(s).conns && AdvanceMain(s).conns[d] == s.conns[d]
  {
  }

  /** The access of a removal that takes an acknowledgement entry out. */
  ghost predicate TakesAck(s: State, a: Action, session: nat, token: Token) {
    && a.Move? && a.conn in s.conns
    && s.conns[a.conn].pc.Removing? && s.conns[a.conn].pc.stage.AtAcks? && s.conns[a.conn].pc.session == session
    && session in s.core.acks && s.core.acks[session] == token
  }

  ghost predicate WokenAt(s: State, d: ConnId) {
    d in s.conns && s.conns[d].pc.StopWait? && s.conns[d].pc.woken
  }

  /** A waiting stop's token can only be under its own session. */
  lemma TokenUnderOwnSession(acks: map<nat, Token>, conns: map<ConnId, Conn>, nextToken: Token, h: History, d: ConnId, i: nat)
    requires AcksOk(acks, conns, nextToken, h.stopper)
    requires d in conns && conns[d].pc.StopWait? && ConnOk(d, conns[d], h)
    requires i in acks && acks[i] == conns[d].pc.token
    ensures conns[d].pc.route.ownerSession == i
  {
    assert Awaits(conns[h.stopper[acks[i]]].pc, i, acks[i]);
  }

  lemma NotifyWakes(conns: map<ConnId, Conn>, token: Token, d: ConnId)
    requires d in conns && conns[d].pc.StopWait? && !conns[d].pc.woken
    ensures var k := Notify(conns, token)[d]; k.pc.StopWait? && (k.pc.woken <==> conns[d].pc.token == token)
  {
  }

  lemma TakingWakes(s: State, c: ConnId, session: nat, after: After, d: ConnId)
    requires Inv(s) && c in s.conns && c != d
    requires d in s.conns && s.conns[d].pc.StopWait? && !s.conns[d].pc.woken
    ensures WokenAt(RemoveAck(s, c, session, after), d) <==>
            s.conns[d].pc.route.ownerSession == session && session in s.core.acks && s.core.acks[session] == s.conns[d].pc.token
  {
    if session in s.core.acks {
      NotifyWakes(s.conns, s.core.acks[session], d);
      if s.core.acks[session] == s.conns[d].pc.token {
        TokenUnderOwnSession(s.core.acks, s.conns, s.nextToken, s.past, d, session);
      }
    }
  }

  /** A waiting stop is woken by exactly one kind of step: a removal of its own session taking out
      the entry that still holds its token. */
  lemma WokenExactly(start: nat, actions: seq<Action>, a: Action, d: ConnId)
    requires Exec(start, actions).Some? && Enabled(Exec(start, actions).value, a)
    requires var s := Exec(start, actions).value; d in s.conns && s.conns[d].pc.StopWait? && !s.conns[d].pc.woken
    ensures var s := Exec(start, actions).value;
            WokenAt(Step(s, a), d) <==> TakesAck(s, a, s.conns[d].pc.route.ownerSession, s.conns[d].pc.token)
  {
    ExecKeepsInv(start, actions);
    WakingStep(Exec(start, actions).value, a, d);
  }

  lemma WakingStep(s: State, a: Action, d: ConnId)
    requires Inv(s) && Enabled(s, a)
    requires d in s.conns && s.conns[d].pc.StopWait? && !s.conns[d].pc.woken
    ensures WokenAt(Step(s, a), d) <==> TakesAck(s, a, s.conns[d].pc.route.ownerSession, s.conns[d].pc.token)
  {
    match a
    case Move(c, env) =>
      var pc := s.conns[c].pc;
      if pc.Removing? && pc.stage.AtAcks? {
        TakingWakes(s, c, pc.session, pc.after, d);
      } else {
        AdvanceLeaves(s, c, env, d);
      }
    case Frame(c, message) => ReceiveLeaves(s, c, message, d);
    case MainStep => MainLeaves(s, d);
    case _ =>
  }

  // ---------------------------------------------------------------------------------------------
  // Sessions
  // ---------------------------------------------------------------------------------------------

  /** The ways a session's route may leave: its own connection removes it, a stop of it times out,
      or the whole registry is cleared. */
  ghost predicate MayRemove(s: State, a: Action, session: nat) {
    || (&& a.Move? && a.conn in s.conns
        && s.conns[a.conn].pc.Removing? && s.conns[a.conn].pc.session == session && s.conns[a.conn].pc.stage.AtRegistry?
        && (s.conns[a.conn].pc.after.ThenStopped?
            || (s.conns[a.conn].owned == Some(session) && Holding(a.conn, session, s.past))))
    || (a.Move? && a.conn in s.conns && s.conns[a.conn].pc.KillClear?)
    || (a.MainStep? && s.tasks.main.FatalClear?)
  }

  /** The registry accepts the request of a registration, as `route`. */
  ghost predicate Accepted(routes: Routes, pc: Pc, env: Env, route: Route)
    requires pc.RegInsert?
  {
    Registry.Register(routes, pc.port, pc.slug, pc.session, pc.pid, env.draws) == Ok(route)
  }

  /** The way a route may enter: from the connection that drew its session, which never had one. */
  ghost predicate MayInsert(s: State, a: Action, route: Route) {
    && a.Move? && a.conn in s.conns && s.conns[a.conn].pc.RegInsert?
    && s.conns[a.conn].pc.session == route.ownerSession
    && route.ownerSession in s.past.minted && s.past.minted[route.ownerSession] == a.conn
    && route.ownerSession !in s.past.born
    && Accepted(s.core.routes, s.conns[a.conn].pc, a.env, route)
  }

  /** No route enters or leaves, or is replaced, in any other way. */
  ghost predicate Touches(s: State, a: Action, routes: Routes) {
    && (forall k :: k in s.core.routes && !(k in routes && routes[k] == s.core.routes[k]) ==>
          MayRemove(s, a, s.core.routes[k].ownerSession))
    && (forall k :: k in routes && !(k in s.core.routes && routes[k] == s.core.routes[k]) ==>
          MayInsert(s, a, routes[k]))
  }

  lemma RegistrationTouches(s: State, c: ConnId, env: Env)
    requires Inv(s) && c in s.conns && (s.conns[c].pc.RegDraw? || s.conns[c].pc.RegInsert?)
    ensures Touches(s, Move(c, env), AdvanceRegister(s, c, env).core.routes)
  {
    assert ConnOk(c, s.conns[c], s.past);
    if s.conns[c].pc.RegInsert? {
      var RegInsert(session, port, slug, pid) := s.conns[c].pc;
      RegisterMeaning(s.core.routes, port, slug, session, pid, env.draws);
    }
  }

  lemma RemovalTouches(s: State, c: ConnId, env: Env, session: nat, after: After)
    requires Inv(s) && c in s.conns && s.conns[c].pc == Removing(session, AtRegistry, after)
    ensures Touches(s, Move(c, env), RemoveRoutes(s, c, session, after).core.routes)
  {
    assert ConnOk(c, s.conns[c], s.past);
  }

  lemma PivotalTouches(s: State, c: ConnId, env: Env)
    requires Inv(s) && c in s.conns && Pivotal(s.conns[c].pc)
    ensures Touches(s, Move(c, env), Advance(s, c, env).core.routes)
  {
    var pc := s.conns[c].pc;
    if pc.Removing? {
      RemovalTouches(s, c, env, pc.session, pc.after);
    } else if InRegister(pc) {
      RegistrationTouches(s, c, env);
    } else {
      KillClearAdvance(s, c, env);
    }
  }

  /** Session exclusivity: in every run, a route enters the registry only from the connection that
      drew its session id, which had no route before, and leaves it only through that connection,
      an expired stop of it, or a kill or fatal clear. No step touches another session's route. */
  lemma SessionsAreExclusive(start: nat, actions: seq<Action>, a: Action)
    requires Exec(start, actions).Some? && Enabled(Exec(start, actions).value, a)
    ensures var s := Exec(start, actions).value;
            Touches(s, a, Step(s, a).core.routes)
  {
    ExecKeepsInv(start, actions);
    var s := Exec(start, actions).value;
    if a.Move? && Pivotal(s.conns[a.conn].pc) {
      PivotalTouches(s, a.conn, a.env);
    } else if !(a.MainStep? && s.tasks.main.FatalClear?) {
      QuietStep(s, a);
    }
  }

  /** Every session id belongs to one connection for good, and no id ever has a second route. */
  lemma SessionIdsAreUnique(start: nat, actions: seq<Action>, more: seq<Action>)
    requires Exec(start, actions + more).Some?
    ensures Exec(start, actions).Some?
    ensures var s, t := Exec(start, actions).value, Exec(start, actions + more).value;
            && (forall i :: i in t.past.minted <==> 1 <= i < t.core.nextSession)
            && (forall i :: i in s.past.minted ==> i in t.past.minted && t.past.minted[i] == s.past.minted[i])
            && (forall k, l ::
                  k in s.core.routes && l in t.core.routes
                  && s.core.routes[k].ownerSession == t.core.routes[l].ownerSession
                  ==> k == l && s.core.routes[k] == t.core.routes[l])
  {
    ExecContinues(start, actions, more);
    ExecKeepsInv(start, actions);
    ExecKeepsInv(start, actions + more);
  }

  // ---------------------------------------------------------------------------------------------
  // Leaving
  // ---------------------------------------------------------------------------------------------

  /** The connection that drew `session` still owns it. */
  ghost predicate Owns(conns: map<ConnId, Conn>, h: History, session: nat) {
    session in h.minted && h.minted[session] in conns && conns[h.minted[session]].owned == Some(session)
  }

  /** Every route still registered is owned by the connection that registered it. */
  ghost predicate Held(s: State) {
    forall i :: i in s.past.born && i !in s.past.gone ==> Owns(s.conns, s.past, i)
  }

  /** No connection loses a session before its route has gone. */
  ghost predicate KeepsOwned(s: State, conns: map<ConnId, Conn>) {
    forall d :: d in s.conns ==>
      d in conns && (conns[d].owned == s.conns[d].owned || (s.conns[d].owned.Some? && s.conns[d].owned.value in s.past.gone))
  }

  lemma RemoveKeepsOwned(s: State, c: ConnId, session: nat, stage: Stage, after: After)
    requires c in s.conns && s.conns[c].pc == Removing(session, stage, after) && ConnOk(c, s.conns[c], s.past)
    ensures KeepsOwned(s, AdvanceRemove(s, c, session, stage, after).conns)
  {
  }

  lemma RegisterKeepsOwned(s: State, c: ConnId, env: Env)
    requires c in s.conns && InRegister(s.conns[c].pc) && ConnOk(c, s.conns[c], s.past)
    requires !s.conns[c].pc.RegInsert?
    ensures KeepsOwned(s, AdvanceRegister(s, c, env).conns)
  {
  }

  lemma KillKeepsOwned(s: State, c: ConnId, env: Env)
    requires c in s.conns && InKill(s.conns[c].pc)
    ensures KeepsOwned(s, AdvanceKill(s, c, env).conns)
  {
  }

  lemma StopKeepsOwned(s: State, c: ConnId, env: Env)
    requires c in s.conns
    ensures KeepsOwned(s, AdvanceStop(s, c, env).conns)
  {
    match s.conns[c].pc
    case StopResolve(_) =>
    case StopInsert(_) =>
    case StopLookup(_, _) =>
    case StopSend(_, _, _) =>
    case _ =>
  }

  lemma AdvanceKeepsOwned(s: State, c: ConnId, env: Env)
    requires c in s.conns && ConnOk(c, s.conns[c], s.past) && !s.conns[c].pc.RegInsert?
    ensures KeepsOwned(s, Advance(s, c, env).conns)
  {
    hide KeepsOwned, ConnOk;
    var pc := s.conns[c].pc;
    if pc.Removing? {
      RemoveKeepsOwned(s, c, pc.session, pc.stage, pc.after);
    } else if InRegister(pc) {
      RegisterKeepsOwned(s, c, env);
    } else if InKill(pc) {
      KillKeepsOwned(s, c, env);
    } else {
      StopKeepsOwned(s, c, env);
    }
  }

  lemma StepKeepsOwned(s: State, a: Action)
    requires Inv(s) && Enabled(s, a) && !(a.Move? && s.conns[a.conn].pc.RegInsert?)
    ensures KeepsOwned(s, Step(s, a).conns)
  {
    hide Inv, Advance;
    if a.Move? {
      hide KeepsOwned;
      ConnIsOk(s, a.conn);
      AdvanceKeepsOwned(s, a.conn, a.env);
    }
  }

  /** Only an insertion makes a route, and it is its connection that owns it then. */
  lemma StepKeepsBorn(s: State, a: Action)
    requires Enabled(s, a) && !(a.Move? && s.conns[a.conn].pc.RegInsert?)
    ensures Step(s, a).past.born == s.past.born
  {
    if a.Move? && s.conns[a.conn].pc.KillClear? {
      KillClearAdvance(s, a.conn, a.env);
    } else if a.Move? && !Pivotal(s.conns[a.conn].pc) {
      QuietAdvance(s, a.conn, a.env);
    }
  }

  lemma InsertionHolds(s: State, c: ConnId, env: Env)
    requires Inv(s) && Held(s) && c in s.conns && s.conns[c].pc.RegInsert?
    ensures Held(AdvanceRegister(s, c, env))
  {
    ConnIsOk(s, c);
    var RegInsert(session, port, slug, pid) := s.conns[c].pc;
    RegisterMeaning(s.core.routes, port, slug, session, pid, env.draws);
  }

  lemma StepHolds(s: State, a: Action)
    requires Inv(s) && Held(s) && Enabled(s, a)
    ensures Held(Step(s, a))
  {
    hide Inv;
    if a.Move? && s.conns[a.conn].pc.RegInsert? {
      InsertionHolds(s, a.conn, a.env);
    } else {
      hide Step;
      StepKeepsOwned(s, a);
      StepKeepsBorn(s, a);
      StepContinues(s, a);
    }
  }

  lemma {:induction false} ExecHolds(start: nat, actions: seq<Action>)
    requires Exec(start, actions).Some?
    ensures Held(Exec(start, actions).value)
    decreases |actions|
  {
    hide Step, Enabled, Inv;
    if actions != [] {
      var n := |actions| - 1;
      ExecHolds(start, actions[..n]);
      ExecKeepsInv(start, actions[..n]);
      StepHolds(Exec(start, actions[..n]).value, actions[n]);
    }
  }

  /** Its connection still owns the route, and has not ended cleanly. */
  ghost predicate Attended(s: State, route: Route) {
    var session := route.ownerSession;
    Owns(s.conns, s.past, session) && s.conns[s.past.minted[session]].pc != Closed(true)
  }

  lemma HeldIsAttended(s: State, k: string)
    requires Inv(s) && Held(s) && k in s.core.routes
    ensures Attended(s, s.core.routes[k])
  {
    ConnIsOk(s, s.past.minted[s.core.routes[k].ownerSession]);
  }

  /** Every route has a connection to leave with: in every run the connection that registered a
      route still owns its session, and has not ended cleanly. */
  lemma RoutesAreAttended(start: nat, actions: seq<Action>, k: string)
    requires Exec(start, actions).Some?
    ensures var s := Exec(start, actions).value;
            k in s.core.routes ==> Attended(s, s.core.routes[k])
  {
    hide Exec, Inv, Held, Attended;
    ExecKeepsInv(start, actions);
    ExecHolds(start, actions);
    if k in Exec(start, actions).value.core.routes {
      HeldIsAttended(Exec(start, actions).value, k);
    }
  }

  /** A connection that has ended cleanly leaves nothing behind: no route of a session it drew. */
  lemma CleanExitLeavesNothing(start: nat, actions: seq<Action>, c: ConnId, k: string)
    requires Exec(start, actions).Some? && c in Exec(start, actions).value.conns
    requires Exec(start, actions).value.conns[c].pc == Closed(true)
    ensures var s := Exec(start, actions).value;
            k in s.core.routes ==> s.core.routes[k].ownerSession in s.past.minted
                                   && s.past.minted[s.core.routes[k].ownerSession] != c
  {
    hide Exec;
    RoutesAreAttended(start, actions, k);
  }

  // ---------------------------------------------------------------------------------------------
  // Replies
  // ---------------------------------------------------------------------------------------------

  /** Replies about sessions are true: `Registered` goes to the connection that drew the session
      and names the one route it ever has; `Unregistered` goes to that connection, when its route
      has gone. */
  lemma RepliesAreTrue(start: nat, actions: seq<Action>, n: nat)
    requires Exec(start, actions).Some? && n < |Exec(start, actions).value.sent|
    ensures var s := Exec(start, actions).value;
            match s.sent[n].message
            case Registered(route) =>
              s.sent[n].To? && Known(route, s.past) && Holding(s.sent[n].conn, route.ownerSession, s.past)
            case Unregistered(session) =>
              && s.sent[n].To? && session in s.past.gone && Holding(s.sent[n].conn, session, s.past)
              && (forall k :: k in s.core.routes ==> s.core.routes[k].ownerSession != session)
            case _ => true
  {
    ExecKeepsInv(start, actions);
    assert Truthful(Exec(start, actions).value.sent[n], Exec(start, actions).value.past);
  }

  /** The listing `m` is on its way to connection `c`, or was put into its queue. */
  ghost predicate Shows(s: State, c: ConnId, m: Routes) {
    (c in s.conns && s.conns[c].pc == Answer(RouteList(m))) || To(c, RouteList(m)) in s.sent
  }

  /** Connection `c` is at the access for its listing, and the registry holds `m`. */
  ghost predicate Sees(s: State, c: ConnId, m: Routes) {
    c in s.conns && s.conns[c].pc.ListRead? && s.core.routes == m
  }

  lemma RemoveShows(s: State, d: ConnId, session: nat, stage: Stage, after: After, c: ConnId, m: Routes)
    requires d in s.conns && Shows(AdvanceRemove(s, d, session, stage, after), c, m)
    ensures Shows(s, c, m)
  {
    if stage.AtAcks? && session in s.core.acks && c in s.conns {
      assert Notify(s.conns, s.core.acks[session])[c].pc.Answer? ==> s.conns[c].pc.Answer?;
    }
  }

  lemma RegisterShows(s: State, d: ConnId, env: Env, c: ConnId, m: Routes)
    requires d in s.conns && InRegister(s.conns[d].pc) && Shows(AdvanceRegister(s, d, env), c, m)
    ensures Shows(s, c, m)
  {
    hide Registry.Register;
  }

  lemma KillShows(s: State, d: ConnId, env: Env, c: ConnId, m: Routes)
    requires d in s.conns && InKill(s.conns[d].pc) && Shows(AdvanceKill(s, d, env), c, m)
    ensures Shows(s, c, m)
  {
  }

  lemma StopShows(s: State, d: ConnId, env: Env, c: ConnId, m: Routes)
    requires d in s.conns && Shows(AdvanceStop(s, d, env), c, m)
    ensures Shows(s, c, m) || Sees(s, c, m)
  {
    match s.conns[d].pc
    case ListRead =>
    case Answer(_) =>
    case StopResolve(_) =>
    case StopInsert(_) =>
    case StopLookup(_, _) =>
    case StopSend(_, _, _) =>
    case _ =>
  }

  lemma AdvanceShows(s: State, d: ConnId, env: Env, c: ConnId, m: Routes)
    requires d in s.conns && Shows(Advance(s, d, env), c, m)
    ensures Shows(s, c, m) || Sees(s, c, m)
  {
    hide Shows, Sees;
    var pc := s.conns[d].pc;
    if pc.Removing? {
      RemoveShows(s, d, pc.session, pc.stage, pc.after, c, m);
    } else if InRegister(pc) {
      RegisterShows(s, d, env, c, m);
    } else if InKill(pc) {
      KillShows(s, d, env, c, m);
    } else {
      StopShows(s, d, env, c, m);
    }
  }

  lemma StepShows(s: State, a: Action, c: ConnId, m: Routes)
    requires Enabled(s, a) && Shows(Step(s, a), c, m)
    ensures Shows(s, c, m) || Sees(s, c, m)
  {
    hide Advance;
    match a
    case Move(d, env) =>
      hide Shows, Sees;
      AdvanceShows(s, d, env, c, m);
    case Monitor =>
    case MainStep =>
    case _ =>
  }

  /** Listings are true: in every run, a listing sent to a connection is the whole registry as it was
      at a moment when that connection was being served a listing. */
  lemma {:induction false} ListingsAreSnapshots(start: nat, actions: seq<Action>, c: ConnId, m: Routes) returns (j: nat)
    requires Exec(start, actions).Some? && Shows(Exec(start, actions).value, c, m)
    ensures j <= |actions| && Exec(start, actions[..j]).Some? && Sees(Exec(start, actions[..j]).value, c, m)
    decreases |actions|
  {
    hide Step, Enabled, Sees;
    if actions != [] {
      var n := |actions| - 1;
      var s := Exec(start, actions[..n]).value;
      StepShows(s, actions[n], c, m);
      if Sees(s, c, m) {
        j := n;
      } else {
        j := ListingsAreSnapshots(start, actions[..n], c, m);
        assert actions[..n][..j] == actions[..j];
      }
    }
  }

  /** A stop tells the connection that registered the route it stops, and no other. */
  lemma RemoteStopGoesToOwner(start: nat, actions: seq<Action>, c: ConnId, env: Env)
    requires Exec(start, actions).Some? && c in Exec(start, actions).value.conns
    requires Exec(start, actions).value.conns[c].pc.StopSend?
    ensures var s := Exec(start, actions).value;
            var route := s.conns[c].pc.route;
            var sent' := Step(s, Move(c, env)).sent;
            && Known(route, s.past)
            && (sent' == s.sent
                || exists owner :: Holding(owner, route.ownerSession, s.past) && sent' == s.sent + [To(owner, Terminate(RemoteStop))])
  {
    hide Exec;
    ExecKeepsInv(start, actions);
    var s := Exec(start, actions).value;
    assert ConnOk(c, s.conns[c], s.past);
  }

  // ---------------------------------------------------------------------------------------------
  // Kills and accounting
  // ---------------------------------------------------------------------------------------------

  ghost function RemovedIds(gone: map<nat, Cause>): set<nat> {
    set i | i in gone && (gone[i].ByOwner? || gone[i].ByStop?)
  }

  ghost function ClearedIds(gone: map<nat, Cause>): set<nat> {
    set i | i in gone && (gone[i].ByKill? || gone[i].ByFatal?)
  }

  /** Kill accounting: at most one `KillAccepted` is ever queued, and it counts exactly the routes
      that kill cleared; and successful registrations are the active routes plus those removed with
      their session plus those cleared. */
  lemma KillAccounting(start: nat, actions: seq<Action>)
    requires Exec(start, actions).Some?
    ensures var s := Exec(start, actions).value;
            && (forall m, n :: KillSent(s.sent, m) && KillSent(s.sent, n) ==> m == n)
            && (forall n :: KillSent(s.sent, n) ==> s.sent[n].message.routeCount == |ClearedByKill(s.past.gone)|)
            && |s.past.born| == |s.core.routes| + |RemovedIds(s.past.gone)| + |ClearedIds(s.past.gone)|
  {
    ExecKeepsInv(start, actions);
    var s := Exec(start, actions).value;
    ActiveCount(s.core.routes, s.core.nextSession, s.past);
    BornSplit(s.core.routes, s.core.nextSession, s.past);
  }

  lemma BornSplit(routes: Routes, nextSession: nat, h: History)
    requires RoutesOk(routes, nextSession, h)
    ensures |h.born| == |OwnerIds(routes)| + |RemovedIds(h.gone)| + |ClearedIds(h.gone)|
  {
    var active := OwnerIds(routes);
    forall i ensures i in active <==> i in h.born && i !in h.gone {
      if i in active {
        var k :| k in routes && routes[k].ownerSession == i;
      }
      if i in h.born && i !in h.gone {
        assert routes[h.born[i].slug].ownerSession == i;
      }
    }
    forall i ensures i in h.gone <==> i in RemovedIds(h.gone) || i in ClearedIds(h.gone) {}
    ThreeParts(h.born.Keys, active, RemovedIds(h.gone), ClearedIds(h.gone));
  }

  lemma ThreeParts(all: set<nat>, a: set<nat>, b: set<nat>, c: set<nat>)
    requires forall i :: i in all <==> i in a || i in b || i in c
    requires a !! b && a !! c && b !! c
    ensures |all| == |a| + |b| + |c|
  {
    assert all == a + (b + c);
  }

  /** The kill's count is taken in the step that clears the registry, and is its size then. */
  lemma KillCountsWhatItClears(s: State, c: ConnId)
    requires Inv(s) && c in s.conns && s.conns[c].pc.KillClear?
    ensures var s' := KillRoutes(s, c);
            && s'.core.routes == map[]
            && s'.conns[c].pc == KillOwners(|s.core.routes|)
            && ClearedByKill(s'.past.gone) == OwnerIds(s.core.routes)
            && |OwnerIds(s.core.routes)| == |s.core.routes|
  {
    KillClearFacts(s, c);
  }

  // ---------------------------------------------------------------------------------------------
  // Shutdown at lock granularity
  // ---------------------------------------------------------------------------------------------

  /** A request that is not refused for what it asks: a nonzero port, and a valid name or none. */
  ghost predicate Serviceable(port: u16, requested: Option<string>) {
    port != 0 && (requested.Some? ==> Slug.IsSlug(Lower(requested.value)))
  }

  /** A registration with such a request has passed the check for shutdown but not yet reached the
      registry. */
  ghost predicate Pending(pc: Pc) { (pc.RegDraw? || pc.RegInsert?) && Serviceable(pc.port, pc.slug) }

  ghost predicate NonePending(conns: map<ConnId, Conn>) {
    forall c :: c in conns ==> !Pending(conns[c].pc)
  }

  lemma FinishPendsNone(s: State, c: ConnId, session: nat, after: After)
    requires c in s.conns && NonePending(s.conns)
    ensures NonePending(Finish(s, c, session, after).conns)
  {
    match after
    case ThenUnregistered =>
    case ThenReading =>
    case ThenClosed =>
    case ThenStopped(_, _) =>
  }

  lemma RemovePendsNone(s: State, c: ConnId, session: nat, stage: Stage, after: After)
    requires c in s.conns && NonePending(s.conns)
    ensures NonePending(AdvanceRemove(s, c, session, stage, after).conns)
  {
    match stage
    case AtRegistry =>
    case AtOwners =>
    case AtAcks =>
    case AtEmptyTest => FinishPendsNone(s, c, session, after);
    case AtIdleWrite =>
      var idle := if s.core.idleSince.None? then Some(s.now) else s.core.idleSince;
      FinishPendsNone(s.(core := s.core.(idleSince := idle)), c, session, after);
  }

  lemma RegisterPendsNone(s: State, c: ConnId, env: Env)
    requires c in s.conns && NonePending(s.conns) && InRegister(s.conns[c].pc)
    ensures NonePending(AdvanceRegister(s, c, env).conns)
  {
    hide Registry.Register;
    assert !Pending(s.conns[c].pc);
  }

  lemma KillPendsNone(s: State, c: ConnId, env: Env)
    requires c in s.conns && NonePending(s.conns) && InKill(s.conns[c].pc)
    ensures NonePending(AdvanceKill(s, c, env).conns)
  {
  }

  lemma StopPendsNone(s: State, c: ConnId, env: Env)
    requires c in s.conns && NonePending(s.conns)
    ensures NonePending(AdvanceStop(s, c, env).conns)
  {
    match s.conns[c].pc
    case StopResolve(_) =>
    case StopInsert(_) =>
    case StopLookup(_, _) =>
    case StopSend(_, _, _) =>
    case _ =>
  }

  lemma AdvancePendsNone(s: State, c: ConnId, env: Env)
    requires c in s.conns && NonePending(s.conns)
    ensures NonePending(Advance(s, c, env).conns)
  {
    hide NonePending;
    var pc := s.conns[c].pc;
    if pc.Removing? {
      RemovePendsNone(s, c, pc.session, pc.stage, pc.after);
    } else if InRegister(pc) {
      RegisterPendsNone(s, c, env);
    } else if InKill(pc) {
      KillPendsNone(s, c, env);
    } else {
      StopPendsNone(s, c, env);
    }
  }

  /** While the daemon shuts down, no connection gets past the check. */
  lemma StepPendsNone(s: State, a: Action)
    requires Enabled(s, a) && s.core.shuttingDown && NonePending(s.conns)
    ensures NonePending(Step(s, a).conns)
  {
    hide Advance;
    match a
    case Move(c, env) => AdvancePendsNone(s, c, env);
    case Monitor =>
    case MainStep =>
    case _ =>
  }

  /** A request that cannot be served is never accepted. */
  lemma AcceptedIsServiceable(routes: Routes, pc: Pc, env: Env, route: Route)
    requires pc.RegInsert? && Accepted(routes, pc, env, route)
    ensures Serviceable(pc.port, pc.slug)
  {
    RegisterAccepts(routes, pc.port, pc.slug, pc.session, pc.pid, env.draws);
  }

  /** All of `after` was in `before`. */
  ghost predicate NoNewRoute(before: Routes, after: Routes) {
    forall k :: k in after ==> k in before && after[k] == before[k]
  }

  lemma StepAddsNone(start: nat, actions: seq<Action>, a: Action)
    requires Exec(start, actions).Some? && Enabled(Exec(start, actions).value, a)
    requires NonePending(Exec(start, actions).value.conns)
    ensures NoNewRoute(Exec(start, actions).value.core.routes, Step(Exec(start, actions).value, a).core.routes)
  {
    hide Exec, Step, Enabled;
    var s := Exec(start, actions).value;
    var routes := Step(s, a).core.routes;
    SessionsAreExclusive(start, actions, a);
    forall k | k in routes ensures k in s.core.routes && routes[k] == s.core.routes[k] {
      if !(k in s.core.routes && routes[k] == s.core.routes[k]) {
        AcceptedIsServiceable(s.core.routes, s.conns[a.conn].pc, a.env, routes[k]);
        assert false;
      }
    }
  }

  /** Once the daemon shuts down and no serviceable registration is between the check and the
      registry, no route enters any more: in every continuation the routes are among those of now. */
  lemma {:induction false} NoRouteEntersAfterShutdown(start: nat, actions: seq<Action>, more: seq<Action>)
    requires Exec(start, actions + more).Some?
    ensures Exec(start, actions).Some?
    ensures var s, t := Exec(start, actions).value, Exec(start, actions + more).value;
            s.core.shuttingDown && NonePending(s.conns) ==>
              NoNewRoute(s.core.routes, t.core.routes) && t.core.shuttingDown && NonePending(t.conns)
    decreases |more|
  {
    hide Step, Enabled, NonePending;
    ExecPrefix(start, actions, more);
    if more == [] {
      assert actions + more == actions;
    } else {
      var n := |more| - 1;
      assert (actions + more)[..|actions + more| - 1] == actions + more[..n];
      NoRouteEntersAfterShutdown(start, actions, more[..n]);
      var s, u := Exec(start, actions).value, Exec(start, actions + more[..n]).value;
      if s.core.shuttingDown && NonePending(s.conns) {
        StepPendsNone(u, more[n]);
        StepAddsNone(start, actions + more[..n], more[n]);
        ExecKeepsInv(start, actions + more[..n]);
        StepContinues(u, more[n]);
      }
    }
  }
}
