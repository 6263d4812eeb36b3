/** Lock-granular runs in which two properties of handler-atomic runs fail: the check for shutdown
    is apart from the insertion it guards, and the test for emptiness from the write it guards. */
module DaemonRaces {
  import opened Wrappers
  import opened Text
  import opened Protocol
  import opened Registry
  import opened Daemon
  import DaemonSafety
  import opened DaemonRuns
  import DaemonAtomic
  import DaemonIdle
  import DaemonLate
  import Slug

  lemma Extend(start: nat, actions: seq<Action>, s: State, a: Action) returns (actions': seq<Action>, s': State)
    requires Exec(start, actions) == Some(s) && Enabled(s, a)
    ensures Exec(start, actions') == Some(s') && s' == Step(s, a) && actions' == actions + [a]
  {
    OneMore(start, actions, a);
    actions', s' := actions + [a], Step(s, a);
  }

  lemma RegisterMove(start: nat, actions: seq<Action>, s: State, c: ConnId, env: Env) returns (actions': seq<Action>, s': State)
    requires Exec(start, actions) == Some(s) && c in s.conns && InRegister(s.conns[c].pc)
    ensures Exec(start, actions') == Some(s') && s' == AdvanceRegister(s, c, env) && actions' == actions + [Move(c, env)]
  {
    actions', s' := Extend(start, actions, s, Move(c, env));
  }

  lemma KillMove(start: nat, actions: seq<Action>, s: State, c: ConnId, env: Env) returns (actions': seq<Action>, s': State)
    requires Exec(start, actions) == Some(s) && c in s.conns && InKill(s.conns[c].pc)
    ensures Exec(start, actions') == Some(s') && s' == AdvanceKill(s, c, env) && actions' == actions + [Move(c, env)]
  {
    hide Exec;
    actions', s' := Extend(start, actions, s, Move(c, env));
  }

  lemma RemoveMove(start: nat, actions: seq<Action>, s: State, c: ConnId, session: nat, stage: Stage, after: After, env: Env)
    returns (actions': seq<Action>, s': State)
    requires Exec(start, actions) == Some(s) && c in s.conns && s.conns[c].pc == Removing(session, stage, after)
    ensures Exec(start, actions') == Some(s') && actions' == actions + [Move(c, env)]
    ensures s' == AdvanceRemove(s, c, session, stage, after)
  {
    actions', s' := Extend(start, actions, s, Move(c, env));
  }

  /** A fresh connection gets past the shutdown check with a registration. */
  lemma PassCheck(start: nat, actions: seq<Action>, s: State, c: ConnId, port: u16, name: string)
    returns (actions': seq<Action>, t: State)
    requires Exec(start, actions) == Some(s) && c !in s.conns && s.tasks.accepting && !s.core.shuttingDown
    ensures Exec(start, actions') == Some(t) && actions <= actions'
    ensures t == s.(conns := s.conns[c := Conn(RegDraw(port, Some(name), 0), None)])
  {
    hide Exec;
    actions', t := Extend(start, actions, s, Connect(c));
    actions', t := Extend(start, actions', t, Frame(c, Register(port, Some(name), 0)));
    assert t.conns == s.conns[c := Conn(RegDraw(port, Some(name), 0), None)];
  }

  /** A registration past the check reaches the registry, whatever happened in between, and puts its
      route in if port and name are free. */
  lemma ReachRegistry(start: nat, actions: seq<Action>, s: State, c: ConnId, port: u16, name: string, env: Env)
    returns (actions': seq<Action>, t: State)
    requires Exec(start, actions) == Some(s) && c in s.conns && s.conns[c] == Conn(RegDraw(port, Some(name), 0), None)
    requires port != 0 && Slug.IsSlug(name) && !PortTaken(s.core.routes, port) && name !in s.core.routes
    ensures Exec(start, actions') == Some(t) && actions <= actions'
    ensures var route := Route(name, port, s.core.nextSession, 0);
            && t.core == s.core.(routes := s.core.routes[name := route], nextSession := s.core.nextSession + 1)
            && t.conns == s.conns[c := Conn(RegOwner(route), Some(s.core.nextSession))]
            && t.now == s.now && t.tasks == s.tasks
  {
    hide Exec;
    var session := s.core.nextSession;
    Slug.NormalizeSlugMeaning(name);
    Slug.SlugIsLower(name);
    RegisterAccepts(s.core.routes, port, Some(name), session, 0, env.draws);
    RegisterMeaning(s.core.routes, port, Some(name), session, 0, env.draws);
    actions', t := RegisterMove(start, actions, s, c, env);
    assert t.conns[c] == Conn(RegInsert(session, port, Some(name), 0), None);
    actions', t := RegisterMove(start, actions', t, c, env);
    var route := Route(name, port, session, 0);
    assert Registry.Register(s.core.routes, port, Some(name), session, 0, env.draws) == Ok(route);
    assert t.conns == s.conns[c := Conn(RegOwner(route), Some(session))];
  }

  lemma SlugA() ensures Slug.IsSlug("a") {
    assert !IsDigit("a"[0]);
  }

  /** A fresh connection asks for a kill, and sets the flag. */
  lemma AskForKill(start: nat, actions: seq<Action>, s: State, c: ConnId, env: Env) returns (actions': seq<Action>, t: State)
    requires Exec(start, actions) == Some(s) && c !in s.conns && s.tasks.accepting && !s.core.shuttingDown
    ensures Exec(start, actions') == Some(t) && actions <= actions'
    ensures t.core == s.core.(shuttingDown := true) && t.conns == s.conns[c := Conn(KillClear, None)]
  {
    hide Exec;
    actions', t := Extend(start, actions, s, Connect(c));
    actions', t := Extend(start, actions', t, Frame(c, Kill));
    assert t == s.(conns := s.conns[c := Conn(KillSwap, None)]);
    actions', t := KillMove(start, actions', t, c, env);
    assert t.conns == s.conns[c := Conn(KillClear, None)];
  }

  /** It then clears the registry. */
  lemma ClearByKill(start: nat, actions: seq<Action>, s: State, c: ConnId, env: Env) returns (actions': seq<Action>, t: State)
    requires Exec(start, actions) == Some(s) && c in s.conns && s.conns[c].pc.KillClear?
    ensures Exec(start, actions') == Some(t) && actions <= actions'
    ensures t.core == s.core.(routes := map[])
    ensures t.conns == s.conns[c := s.conns[c].(pc := KillOwners(|s.core.routes|))]
  {
    DaemonSafety.KillClearAdvance(s, c, env);
    actions', t := KillMove(start, actions, s, c, env);
  }

  /** A route can enter the registry after shutdown has begun, even after a kill has cleared it. */
  lemma RouteAfterKill(start: nat, env: Env) returns (before: seq<Action>, after: seq<Action>)
    ensures Exec(start, before).Some? && Exec(start, before + after).Some?
    ensures var s, t := Exec(start, before).value, Exec(start, before + after).value;
            s.core.shuttingDown && s.core.routes == map[] && t.core.routes.Keys == {"a"}
  {
    var s: State;
    before, s := PassCheck(start, [], Init(start), 0, 80, "a");
    before, s := AskForKill(start, before, s, 1, env);
    before, s := ClearByKill(start, before, s, 1, env);
    SlugA();
    var all, t := ReachRegistry(start, before, s, 0, 80, "a", env);
    after := all[|before|..];
    assert before + after == all;
  }

  // ---------------------------------------------------------------------------------------------

  /** The rest of a registration, up to its reply or all of it. */
  lemma FinishRegistration(start: nat, actions: seq<Action>, s: State, c: ConnId, route: Route, env: Env)
    returns (actions': seq<Action>, t: State)
    requires Exec(start, actions) == Some(s) && c in s.conns && s.conns[c] == Conn(RegOwner(route), Some(route.ownerSession))
    requires env.selfAlive
    ensures Exec(start, actions') == Some(t) && actions <= actions'
    ensures t.core == s.core.(owners := t.core.owners, idleSince := None)
    ensures t.conns == s.conns[c := Conn(Reading, Some(route.ownerSession))]
    ensures t.now == s.now && t.tasks == s.tasks
  {
    hide Exec;
    actions', t := RegisterMove(start, actions, s, c, env);
    assert t.conns[c].pc == RegActive(route);
    actions', t := RegisterMove(start, actions', t, c, env);
    assert t.conns[c].pc == RegReply(route);
    actions', t := RegisterMove(start, actions', t, c, env);
    assert t.conns == s.conns[c := Conn(Reading, Some(route.ownerSession))];
  }

  /** The owner of the only route unregisters, up to and including the test for emptiness. */
  lemma UnregisterToTest(start: nat, actions: seq<Action>, s: State, c: ConnId, session: nat, env: Env)
    returns (actions': seq<Action>, t: State)
    requires Exec(start, actions) == Some(s) && c in s.conns && s.conns[c] == Conn(Reading, Some(session))
    requires WithoutSession(s.core.routes, session) == map[]
    requires session !in s.core.acks
    ensures Exec(start, actions') == Some(t) && actions <= actions'
    ensures t.core == s.core.(routes := map[], owners := t.core.owners, acks := t.core.acks)
    ensures t.conns == s.conns[c := Conn(Removing(session, AtIdleWrite, ThenUnregistered), Some(session))]
    ensures t.now == s.now && t.tasks == s.tasks
  {
    hide Exec;
    actions', t := Extend(start, actions, s, Frame(c, Unregister(session)));
    assert t.conns[c].pc == Removing(session, AtRegistry, ThenUnregistered);
    actions', t := RemoveMove(start, actions', t, c, session, AtRegistry, ThenUnregistered, env);
    assert t.conns[c].pc == Removing(session, AtOwners, ThenUnregistered);
    actions', t := RemoveMove(start, actions', t, c, session, AtOwners, ThenUnregistered, env);
    assert t.conns[c].pc == Removing(session, AtAcks, ThenUnregistered);
    actions', t := TestEmptiness(start, actions', t, c, session, env);
    assert t.conns == s.conns[c := Conn(Removing(session, AtIdleWrite, ThenUnregistered), Some(session))];
  }

  lemma TestEmptiness(start: nat, actions: seq<Action>, s: State, c: ConnId, session: nat, env: Env)
    returns (actions': seq<Action>, t: State)
    requires Exec(start, actions) == Some(s) && c in s.conns && s.core.routes == map[] && session !in s.core.acks
    requires s.conns[c].pc == Removing(session, AtAcks, ThenUnregistered)
    ensures Exec(start, actions') == Some(t) && actions <= actions'
    ensures t.conns == s.conns[c := s.conns[c].(pc := Removing(session, AtIdleWrite, ThenUnregistered))]
    ensures t.core == s.core.(acks := t.core.acks)
    ensures t.now == s.now && t.tasks == s.tasks
  {
    hide Exec;
    actions', t := RemoveMove(start, actions, s, c, session, AtAcks, ThenUnregistered, env);
    assert t.conns[c].pc == Removing(session, AtEmptyTest, ThenUnregistered);
    actions', t := RemoveMove(start, actions', t, c, session, AtEmptyTest, ThenUnregistered, env);
    assert t.conns == s.conns[c := s.conns[c].(pc := Removing(session, AtIdleWrite, ThenUnregistered))];
  }

  /** An idle time can be set while a route is active: the route entered after the test. */
  lemma IdleWithRoute(start: nat, env: Env) returns (actions: seq<Action>, s: State)
    requires env.selfAlive
    ensures Exec(start, actions) == Some(s)
    ensures !s.core.shuttingDown && !s.tasks.cancelled && s.tasks.monitor.MonitorTick?
    ensures s.core.idleSince == Some(s.now) && s.core.routes.Keys == {"a"}
  {
    hide Exec;
    EmptyRun(start);
    SlugA();
    var route1, route2 := Route("a", 80, 1, 0), Route("a", 80, 2, 0);
    actions, s := PassCheck(start, [], Init(start), 0, 80, "a");
    actions, s := ReachRegistry(start, actions, s, 0, 80, "a", env);
    actions, s := FinishRegistration(start, actions, s, 0, route1, env);
    assert WithoutSession(s.core.routes, 1) == map[];
    actions, s := UnregisterToTest(start, actions, s, 0, 1, env);
    actions, s := PassCheck(start, actions, s, 1, 80, "a");
    actions, s := ReachRegistry(start, actions, s, 1, 80, "a", env);
    actions, s := FinishRegistration(start, actions, s, 1, route2, env);
    actions, s := RemoveMove(start, actions, s, 0, 1, AtIdleWrite, ThenUnregistered, env);
  }

  /** The monitor can cancel a daemon whose only route is active. */
  lemma CancelledWithRoute(start: nat, env: Env) returns (actions: seq<Action>, s: State)
    requires env.selfAlive
    ensures Exec(start, actions) == Some(s) && s.tasks.cancelled && s.core.routes.Keys == {"a"}
  {
    hide Exec;
    actions, s := IdleWithRoute(start, env);
    actions, s := Extend(start, actions, s, Pass(DAEMON_IDLE_TIMEOUT));
    actions, s := Extend(start, actions, s, Monitor);
    actions, s := Extend(start, actions, s, Monitor);
    actions, s := Extend(start, actions, s, Monitor);
  }

  /** So can it when the registration comes between its look at the idle time and its cancellation. */
  lemma CancelledOvertaken(start: nat, env: Env) returns (actions: seq<Action>, s: State)
    requires env.selfAlive
    ensures Exec(start, actions) == Some(s)
    ensures s.tasks.cancelled && s.core.routes.Keys == {"a"} && s.core.idleSince == None
  {
    hide Exec;
    SlugA();
    EmptyRun(start);
    actions, s := Extend(start, [], Init(start), Pass(DAEMON_IDLE_TIMEOUT));
    actions, s := Extend(start, actions, s, Monitor);
    actions, s := PassCheck(start, actions, s, 0, 80, "a");
    actions, s := ReachRegistry(start, actions, s, 0, 80, "a", env);
    actions, s := FinishRegistration(start, actions, s, 0, Route("a", 80, 1, 0), env);
    actions, s := Extend(start, actions, s, Monitor);
    actions, s := Extend(start, actions, s, Monitor);
  }

  /** And it can cancel under a registration that has put its route in and not yet marked the daemon
      active: the exception in `DaemonIdle.CancelSafety` is needed. */
  lemma CancelledWhileEntering(start: nat, env: Env) returns (actions: seq<Action>, s: State)
    ensures Exec(start, actions) == Some(s)
    ensures s.tasks.cancelled && s.core.routes.Keys == {"a"} && 0 in s.conns && s.conns[0].pc.RegOwner?
  {
    hide Exec;
    SlugA();
    EmptyRun(start);
    actions, s := PassCheck(start, [], Init(start), 0, 80, "a");
    actions, s := ReachRegistry(start, actions, s, 0, 80, "a", env);
    actions, s := Extend(start, actions, s, Pass(DAEMON_IDLE_TIMEOUT));
    actions, s := Extend(start, actions, s, Monitor);
    actions, s := Extend(start, actions, s, Monitor);
    actions, s := Extend(start, actions, s, Monitor);
  }

  /** A removal has found the registry empty, another connection has the route `a` active, and a
      third is still to mark its own route: the idle time is then written late all the same. */
  lemma IdleBesideEntering(start: nat, env: Env) returns (actions: seq<Action>, s: State)
    requires env.selfAlive
    ensures Exec(start, actions) == Some(s)
    ensures s.core.idleSince == Some(s.now) && !s.core.shuttingDown && s.tasks == Init(start).tasks
    ensures s.core.routes.Keys == {"a", "b"}
    ensures s.core.routes["a"] == Route("a", 80, 2, 0) && s.core.routes["b"] == Route("b", 81, 3, 0)
    ensures 1 in s.conns && s.conns[1] == Conn(Reading, Some(2))
    ensures 2 in s.conns && s.conns[2] == Conn(RegOwner(s.core.routes["b"]), Some(3))
    ensures forall c :: c in s.conns && c != 2 ==> !DaemonIdle.Entering(s.conns[c].pc)
  {
    hide Exec;
    SlugA();
    SlugB();
    EmptyRun(start);
    actions, s := PassCheck(start, [], Init(start), 0, 80, "a");
    actions, s := ReachRegistry(start, actions, s, 0, 80, "a", env);
    actions, s := FinishRegistration(start, actions, s, 0, Route("a", 80, 1, 0), env);
    assert WithoutSession(s.core.routes, 1) == map[];
    actions, s := UnregisterToTest(start, actions, s, 0, 1, env);
    actions, s := PassCheck(start, actions, s, 1, 80, "a");
    actions, s := ReachRegistry(start, actions, s, 1, 80, "a", env);
    actions, s := FinishRegistration(start, actions, s, 1, Route("a", 80, 2, 0), env);
    actions, s := PassCheck(start, actions, s, 2, 81, "b");
    actions, s := ReachRegistry(start, actions, s, 2, 81, "b", env);
    actions, s := RemoveMove(start, actions, s, 0, 1, AtIdleWrite, ThenUnregistered, env);
  }

  lemma SlugB() ensures Slug.IsSlug("b") {
    assert !IsDigit("b"[0]);
  }

  /** The monitor then cancels a daemon with a route active throughout; that another one is still to be
      marked excuses nothing. */
  lemma CancelledBesideEntering(start: nat, env: Env) returns (actions: seq<Action>, s: State)
    requires env.selfAlive
    ensures Exec(start, actions) == Some(s) && s.tasks.cancelled
    ensures "a" in s.core.routes && 1 in s.conns && s.conns[1] == Conn(Reading, Some(s.core.routes["a"].ownerSession))
    ensures 2 in s.conns && s.conns[2].pc.RegOwner? && !DaemonIdle.NoneMarked(s)
  {
    hide Exec;
    actions, s := IdleBesideEntering(start, env);
    var a := s.core.routes["a"];
    assert !DaemonIdle.Unmarked(s.conns, a);
    actions, s := Extend(start, actions, s, Pass(DAEMON_IDLE_TIMEOUT));
    actions, s := Extend(start, actions, s, Monitor);
    actions, s := Extend(start, actions, s, Monitor);
    actions, s := Extend(start, actions, s, Monitor);
    assert s.core.routes["a"] == a;
  }

  lemma EmptyRun(start: nat)
    ensures Exec(start, []) == Some(Init(start))
  {
  }

  /** The route of a registration still to be marked active is stopped by another connection. */
  lemma StoppedBeforeActive(start: nat, actions: seq<Action>, s: State, k: string, env: Env)
    returns (actions': seq<Action>, t: State)
    requires Exec(start, actions) == Some(s) && s.conns.Keys == {0} && s.tasks.accepting && env.selfAlive
    requires k in s.core.routes && WithoutSession(s.core.routes, s.core.routes[k].ownerSession) == map[]
    requires !s.conns[0].pc.StopWait?
    ensures Exec(start, actions') == Some(t)
    ensures t.core.routes == map[] && t.core.shuttingDown == s.core.shuttingDown && t.tasks == s.tasks
    ensures 0 in t.conns && t.conns[0] == s.conns[0]
  {
    hide Exec, DaemonAtomic.Handler;
    actions', t := Extend(start, actions, s, Connect(1));
    DaemonSafety.ExecKeepsInv(start, actions');
    var ask := Frame(1, Stop(StopSelector.Slug(k)));
    DaemonLate.StopRoute(t, 1, k, env);
    var more := DaemonAtomic.HandlerIsRun(start, actions', t, ask, env);
    actions', t := actions' + more, DaemonAtomic.Handler(t, ask, env);
    DaemonLate.TimeOut(t, 1, env);
    more := DaemonAtomic.HandlerIsRun(start, actions', t, StopTimedOut(1), env);
    actions', t := actions' + more, DaemonAtomic.Handler(t, StopTimedOut(1), env);
  }

  /** The daemon can be left without routes and without an idle time: a stop takes the route out
      between its insertion and the mark. */
  lemma EmptyNotIdle(start: nat, env: Env) returns (actions: seq<Action>, s: State)
    requires env.selfAlive
    ensures Exec(start, actions) == Some(s)
    ensures s.core.routes == map[] && s.core.idleSince == None && !s.core.shuttingDown && !s.tasks.cancelled
    ensures 0 in s.conns && s.conns[0] == Conn(Reading, Some(1))
  {
    hide Exec;
    SlugA();
    EmptyRun(start);
    var route := Route("a", 80, 1, 0);
    actions, s := PassCheck(start, [], Init(start), 0, 80, "a");
    actions, s := ReachRegistry(start, actions, s, 0, 80, "a", env);
    assert WithoutSession(s.core.routes, 1) == map[];
    actions, s := StoppedBeforeActive(start, actions, s, "a", env);
    actions, s := FinishRegistration(start, actions, s, 0, route, env);
  }
}
