/** Idle tracking between lock accesses: exactly which steps make it wrong, and what it guarantees
    in every run without such a step. */
module DaemonIdle {
  import opened Wrappers
  import opened Registry
  import opened Daemon
  import opened DaemonSafety
  import opened DaemonRuns
  import opened DaemonAtomic

  // ---------------------------------------------------------------------------------------------
  // What idle tracking promises, and the steps that break it
  // ---------------------------------------------------------------------------------------------

  /** A registration has put its route in and not yet marked the daemon active. */
  predicate Entering(pc: Pc) { pc.RegOwner? || pc.RegActive? }

  /** A removal has taken its routes out and not yet seen to the idle time. */
  predicate Tidying(pc: Pc) { pc.Removing? && !pc.stage.AtRegistry? }

  /** The registration of this route is still to mark the daemon active. */
  ghost predicate Unmarked(conns: map<ConnId, Conn>, route: Route) {
    exists c :: c in conns && Entering(conns[c].pc) && conns[c].pc.route == route
  }

  ghost predicate SomeTidying(conns: map<ConnId, Conn>) {
    exists c :: c in conns && Tidying(conns[c].pc)
  }

  /** No route but such whose own registration is still to mark the daemon active. */
  ghost predicate NoneMarked(s: State) {
    forall k :: k in s.core.routes ==> Unmarked(s.conns, s.core.routes[k])
  }

  ghost predicate InRegistry(routes: Routes, route: Route) {
    exists k :: k in routes && routes[k] == route
  }

  /** The idle time is set only with no route marked. */
  ghost predicate IdleOk(s: State) {
    s.core.idleSince.Some? ==> NoneMarked(s)
  }

  /** Without routes it is set, but for a removal still seeing to it, until shutdown. */
  ghost predicate BusyOk(s: State) {
    !s.core.shuttingDown && s.core.routes == map[] ==> s.core.idleSince.Some? || SomeTidying(s.conns)
  }

  predicate Cancelling(monitor: MonitorPc) { monitor.MonitorFlag? || monitor.MonitorCancel? }

  /** The monitor is about to cancel only with no route marked. */
  ghost predicate MonitorOk(s: State) {
    Cancelling(s.tasks.monitor) ==> NoneMarked(s)
  }

  /** A removal that found the registry empty writes the idle time with a route marked: in between a
      registration has put its route in and marked the daemon active. */
  ghost predicate LateWrite(s: State, a: Action) {
    && a.Move? && a.conn in s.conns
    && s.conns[a.conn].pc.Removing? && s.conns[a.conn].pc.stage.AtIdleWrite?
    && s.core.idleSince.None? && !NoneMarked(s)
  }

  /** A registration marks the daemon active when its route has gone again, and every removal has
      seen to the idle time already. */
  ghost predicate LateMark(s: State, a: Action) {
    && a.Move? && a.conn in s.conns && s.conns[a.conn].pc.RegActive?
    && !s.core.shuttingDown && s.core.routes == map[] && !SomeTidying(s.conns)
  }

  /** A registration whose route is still there marks the daemon active between the monitor's look at
      the idle time and its cancellation. */
  ghost predicate Overtakes(s: State, a: Action) {
    && a.Move? && a.conn in s.conns && s.conns[a.conn].pc.RegActive?
    && Cancelling(s.tasks.monitor) && InRegistry(s.core.routes, s.conns[a.conn].pc.route)
  }

  /** The monitor finds an idle time expired with a route marked. */
  ghost predicate Misled(s: State, a: Action) {
    a.Monitor? && s.tasks.monitor.MonitorTick? && IdleExpired(s) && !NoneMarked(s)
  }

  // ---------------------------------------------------------------------------------------------
  // One step
  // ---------------------------------------------------------------------------------------------

  /** The same of a route and the connections but `c`. */
  ghost predicate UnmarkedByOthers(conns: map<ConnId, Conn>, c: ConnId, route: Route) {
    exists d :: d in conns && d != c && Entering(conns[d].pc) && conns[d].pc.route == route
  }

  ghost predicate OthersTidying(conns: map<ConnId, Conn>, c: ConnId) {
    exists d :: d in conns && d != c && Tidying(conns[d].pc)
  }

  /** A step of `c` changes nothing about what the others are doing. */
  ghost predicate OthersStay(conns: map<ConnId, Conn>, conns': map<ConnId, Conn>, c: ConnId) {
    && c in conns'
    && (forall route ::
          Unmarked(conns', route) <==>
          UnmarkedByOthers(conns, c, route) || (Entering(conns'[c].pc) && conns'[c].pc.route == route))
    && (SomeTidying(conns') <==> OthersTidying(conns, c) || Tidying(conns'[c].pc))
  }

  lemma UpdateStays(conns: map<ConnId, Conn>, c: ConnId, k: Conn)
    ensures OthersStay(conns, conns[c := k], c)
  {
    var conns' := conns[c := k];
    forall route | UnmarkedByOthers(conns, c, route) ensures Unmarked(conns', route) {
      var d :| d in conns && d != c && Entering(conns[d].pc) && conns[d].pc.route == route;
      assert Entering(conns'[d].pc);
    }
    forall route | Entering(k.pc) && k.pc.route == route ensures Unmarked(conns', route) {
      assert Entering(conns'[c].pc);
    }
    if OthersTidying(conns, c) {
      var d :| d in conns && d != c && Tidying(conns[d].pc);
      assert Tidying(conns'[d].pc);
    }
  }

  /** Waking stops changes nothing either. */
  lemma NotifyStays(conns: map<ConnId, Conn>, token: Token, c: ConnId)
    ensures forall route :: UnmarkedByOthers(Notify(conns, token), c, route) <==> UnmarkedByOthers(conns, c, route)
    ensures OthersTidying(Notify(conns, token), c) <==> OthersTidying(conns, c)
  {
    var conns' := Notify(conns, token);
    forall route | UnmarkedByOthers(conns, c, route) ensures UnmarkedByOthers(conns', c, route) {
      var d :| d in conns && d != c && Entering(conns[d].pc) && conns[d].pc.route == route;
      assert Entering(conns'[d].pc);
    }
    if OthersTidying(conns, c) {
      var d :| d in conns && d != c && Tidying(conns[d].pc);
      assert Tidying(conns'[d].pc);
    }
  }

  /** What a step of `c` does to core and monitor is judged with `c` before and after, and what the
      others are doing. */
  ghost predicate Judged(s: State, s': State, c: ConnId, a: Action) {
    && (IdleOk(s) ==> (IdleOk(s') <==> !LateWrite(s, a)))
    && (BusyOk(s) ==> (BusyOk(s') <==> !LateMark(s, a)))
    && (MonitorOk(s) ==> (MonitorOk(s') <==> !Overtakes(s, a)))
  }

  lemma SplitSelf(conns: map<ConnId, Conn>, c: ConnId)
    requires c in conns
    ensures OthersStay(conns, conns, c)
  {
    UpdateStays(conns, c, conns[c]);
    assert conns[c := conns[c]] == conns;
  }

  /** A connection elsewhere than in registration and removal has no part in idle tracking. */
  lemma ElsewhereJudged(s: State, s': State, c: ConnId, k: Conn, a: Action)
    requires s'.conns == s.conns[c := k] && s'.core.routes == s.core.routes && s'.core.idleSince == s.core.idleSince
    requires s.core.shuttingDown ==> s'.core.shuttingDown
    requires s'.tasks.monitor == s.tasks.monitor
    requires c in s.conns ==> !Entering(s.conns[c].pc) && !Tidying(s.conns[c].pc)
    requires !Entering(k.pc) && !Tidying(k.pc)
    requires a.Move? ==> a.conn == c && c in s.conns
    ensures Judged(s, s', c, a)
  {
    UpdateStays(s.conns, c, k);
    if c in s.conns {
      SplitSelf(s.conns, c);
    } else {
      assert forall route :: Unmarked(s.conns, route) <==> UnmarkedByOthers(s.conns, c, route);
      assert SomeTidying(s.conns) <==> OthersTidying(s.conns, c);
    }
  }

  lemma RemoveRoutesJudged(s: State, c: ConnId, session: nat, after: After, env: Env)
    requires c in s.conns && s.conns[c].pc == Removing(session, AtRegistry, after)
    ensures Judged(s, RemoveRoutes(s, c, session, after), c, Move(c, env))
  {
    var s' := RemoveRoutes(s, c, session, after);
    UpdateStays(s.conns, c, s'.conns[c]);
    SplitSelf(s.conns, c);
    assert s.core.routes == map[] ==> s'.core.routes == map[];
  }

  lemma RemoveAckJudged(s: State, c: ConnId, session: nat, after: After, env: Env)
    requires c in s.conns && s.conns[c].pc == Removing(session, AtAcks, after)
    ensures Judged(s, RemoveAck(s, c, session, after), c, Move(c, env))
  {
    var woken := if session in s.core.acks then Notify(s.conns, s.core.acks[session]) else s.conns;
    var s' := RemoveAck(s, c, session, after);
    if session in s.core.acks {
      NotifyStays(s.conns, s.core.acks[session], c);
    }
    UpdateStays(woken, c, s'.conns[c]);
    SplitSelf(s.conns, c);
  }

  /** Between its accesses to the registry and to the idle time a removal stays at tidying. */
  lemma TidyingJudged(s: State, s': State, c: ConnId, k: Conn, env: Env)
    requires c in s.conns && Tidying(s.conns[c].pc) && !s.conns[c].pc.stage.AtIdleWrite?
    requires s'.conns == s.conns[c := k] && s'.core.routes == s.core.routes && s'.core.idleSince == s.core.idleSince
    requires s'.core.shuttingDown == s.core.shuttingDown && s'.tasks.monitor == s.tasks.monitor
    requires !Entering(k.pc) && (s.core.routes == map[] ==> Tidying(k.pc))
    ensures Judged(s, s', c, Move(c, env))
  {
    UpdateStays(s.conns, c, k);
    SplitSelf(s.conns, c);
  }

  lemma IdleWriteJudged(s: State, s': State, c: ConnId, k: Conn, env: Env)
    requires c in s.conns && s.conns[c].pc.Removing? && s.conns[c].pc.stage.AtIdleWrite?
    requires s'.conns == s.conns[c := k] && !Entering(k.pc)
    requires s'.core.routes == s.core.routes && s'.core.shuttingDown == s.core.shuttingDown
    requires s'.core.idleSince.Some? && s'.tasks.monitor == s.tasks.monitor
    ensures Judged(s, s', c, Move(c, env))
  {
    UpdateStays(s.conns, c, k);
    SplitSelf(s.conns, c);
  }

  lemma FinishFacts(s: State, c: ConnId, session: nat, after: After)
    requires c in s.conns
    ensures var s' := Finish(s, c, session, after);
            && c in s'.conns && s'.conns == s.conns[c := s'.conns[c]]
            && s'.core == s.core && s'.tasks == s.tasks
            && !Entering(s'.conns[c].pc) && !Tidying(s'.conns[c].pc)
  {
    match after
    case ThenUnregistered =>
    case ThenReading =>
    case ThenClosed =>
    case ThenStopped(_, _) =>
  }

  lemma RemoveJudged(s: State, c: ConnId, session: nat, stage: Stage, after: After, env: Env)
    requires c in s.conns && s.conns[c].pc == Removing(session, stage, after)
    ensures Judged(s, AdvanceRemove(s, c, session, stage, after), c, Move(c, env))
  {
    hide Judged;
    var s' := AdvanceRemove(s, c, session, stage, after);
    match stage
    case AtRegistry => RemoveRoutesJudged(s, c, session, after, env);
    case AtOwners => TidyingJudged(s, s', c, s'.conns[c], env);
    case AtAcks => RemoveAckJudged(s, c, session, after, env);
    case AtEmptyTest =>
      FinishFacts(s, c, session, after);
      TidyingJudged(s, s', c, s'.conns[c], env);
    case AtIdleWrite =>
      var idle := if s.core.idleSince.None? then Some(s.now) else s.core.idleSince;
      FinishFacts(s.(core := s.core.(idleSince := idle)), c, session, after);
      IdleWriteJudged(s, s', c, s'.conns[c], env);
  }

  lemma EnterJudged(s: State, c: ConnId, route: Route, env: Env)
    requires c in s.conns && s.conns[c].pc.RegInsert?
    ensures Judged(s, InsertRoute(s, c, route), c, Move(c, env))
  {
    var s' := InsertRoute(s, c, route);
    UpdateStays(s.conns, c, s'.conns[c]);
    SplitSelf(s.conns, c);
    assert route.slug in s'.core.routes;
  }

  lemma OwnJudged(s: State, s': State, c: ConnId, k: Conn, env: Env)
    requires c in s.conns && s.conns[c].pc.RegOwner?
    requires s'.conns == s.conns[c := k] && k.pc == RegActive(s.conns[c].pc.route)
    requires s'.core == s.core.(owners := s'.core.owners) && s'.tasks == s.tasks
    ensures Judged(s, s', c, Move(c, env))
  {
    UpdateStays(s.conns, c, k);
    SplitSelf(s.conns, c);
  }

  /** No two connections register the same route. */
  lemma OneMarks(s: State, c: ConnId, d: ConnId)
    requires Inv(s) && c in s.conns && d in s.conns && Entering(s.conns[c].pc) && Entering(s.conns[d].pc)
    requires s.conns[c].pc.route == s.conns[d].pc.route
    ensures c == d
  {
    hide Inv;
    ConnIsOk(s, c);
    ConnIsOk(s, d);
  }

  /** Marking active is right unless one of two races has happened. */
  lemma MarkJudged(s: State, s': State, c: ConnId, k: Conn, env: Env)
    requires Inv(s) && c in s.conns && s.conns[c].pc.RegActive?
    requires s'.conns == s.conns[c := k] && k.pc.RegReply?
    requires s'.core == s.core.(idleSince := None) && s'.tasks == s.tasks
    ensures Judged(s, s', c, Move(c, env))
  {
    hide Inv;
    UpdateStays(s.conns, c, k);
    SplitSelf(s.conns, c);
    MarksItsRoute(s, s', c);
  }

  /** After the mark of `c` no route is marked if and only if none was and its own has gone. */
  lemma MarksItsRoute(s: State, s': State, c: ConnId)
    requires Inv(s) && c in s.conns && Entering(s.conns[c].pc)
    requires s'.core.routes == s.core.routes && c in s'.conns && !Entering(s'.conns[c].pc)
    requires OthersStay(s.conns, s.conns, c) && OthersStay(s.conns, s'.conns, c)
    ensures NoneMarked(s) ==> (NoneMarked(s') <==> !InRegistry(s.core.routes, s.conns[c].pc.route))
  {
    hide Inv, OthersTidying, SomeTidying;
    var route := s.conns[c].pc.route;
    if UnmarkedByOthers(s.conns, c, route) {
      var d :| d in s.conns && d != c && Entering(s.conns[d].pc) && s.conns[d].pc.route == route;
      OneMarks(s, c, d);
    }
    if InRegistry(s.core.routes, route) {
      var k :| k in s.core.routes && s.core.routes[k] == route;
      assert !Unmarked(s'.conns, s'.core.routes[k]);
    } else if NoneMarked(s) {
      forall k | k in s'.core.routes ensures Unmarked(s'.conns, s'.core.routes[k]) {
        assert Unmarked(s.conns, s.core.routes[k]);
      }
    }
  }

  lemma RegisterJudged(s: State, c: ConnId, env: Env)
    requires Inv(s) && c in s.conns && InRegister(s.conns[c].pc)
    ensures Judged(s, AdvanceRegister(s, c, env), c, Move(c, env))
  {
    hide Judged, Inv, Registry.Register;
    var s' := AdvanceRegister(s, c, env);
    match s.conns[c].pc
    case RegDraw(port, slug, pid) => ElsewhereJudged(s, s', c, s'.conns[c], Move(c, env));
    case RegInsert(session, port, slug, pid) =>
      match Registry.Register(s.core.routes, port, slug, session, pid, env.draws) {
        case Ok(route) => EnterJudged(s, c, route, env);
        case Err(_) => ElsewhereJudged(s, s', c, s'.conns[c], Move(c, env));
      }
    case RegOwner(_) => OwnJudged(s, s', c, s'.conns[c], env);
    case RegActive(_) => MarkJudged(s, s', c, s'.conns[c], env);
    case RegReply(_) => ElsewhereJudged(s, s', c, s'.conns[c], Move(c, env));
    case UnregReply(_) => ElsewhereJudged(s, s', c, s'.conns[c], Move(c, env));
  }

  /** Clearing the registry during shutdown. */
  lemma ClearJudged(s: State, s': State, a: Action, c: ConnId)
    requires s'.core.routes == map[] && s'.core.shuttingDown
    requires !LateWrite(s, a) && !LateMark(s, a) && !Overtakes(s, a)
    ensures Judged(s, s', c, a)
  {
  }

  lemma KillJudged(s: State, c: ConnId, env: Env)
    requires Inv(s) && c in s.conns && InKill(s.conns[c].pc)
    ensures Judged(s, AdvanceKill(s, c, env), c, Move(c, env))
  {
    hide Judged, Inv;
    var s' := AdvanceKill(s, c, env);
    if s.conns[c].pc.KillClear? {
      KillingFlagged(s, c);
      KillClearAdvance(s, c, env);
      ClearJudged(s, s', Move(c, env), c);
    } else {
      ElsewhereJudged(s, s', c, s'.conns[c], Move(c, env));
    }
  }

  lemma KillingFlagged(s: State, c: ConnId)
    requires Inv(s) && c in s.conns && s.conns[c].pc.KillClear?
    ensures s.core.shuttingDown
  {
    assert KillPcOk(c, s.conns[c].pc, s.kill, ClearedByKill(s.past.gone));
  }

  lemma StopJudged(s: State, c: ConnId, env: Env)
    requires c in s.conns && !s.conns[c].pc.Removing? && !InRegister(s.conns[c].pc) && !InKill(s.conns[c].pc)
    ensures Judged(s, AdvanceStop(s, c, env), c, Move(c, env))
  {
    hide Judged;
    var s' := AdvanceStop(s, c, env);
    StopFacts(s, c, env);
    ElsewhereJudged(s, s', c, s'.conns[c], Move(c, env));
  }

  lemma StopFacts(s: State, c: ConnId, env: Env)
    requires c in s.conns && !s.conns[c].pc.Removing? && !InRegister(s.conns[c].pc) && !InKill(s.conns[c].pc)
    ensures var s' := AdvanceStop(s, c, env);
            && c in s'.conns && s'.conns == s.conns[c := s'.conns[c]]
            && s'.core == s.core.(acks := s'.core.acks) && s'.tasks == s.tasks
            && !Entering(s'.conns[c].pc) && !Tidying(s'.conns[c].pc)
  {
    match s.conns[c].pc
    case StopResolve(selector) =>
    case StopInsert(route) =>
    case StopLookup(route, token) =>
    case StopSend(route, token, owner) =>
    case _ =>
  }

  lemma AdvanceJudged(s: State, c: ConnId, env: Env)
    requires Inv(s) && c in s.conns
    ensures Judged(s, Advance(s, c, env), c, Move(c, env))
  {
    hide Inv, Judged;
    var pc := s.conns[c].pc;
    if pc.Removing? {
      RemoveJudged(s, c, pc.session, pc.stage, pc.after, env);
    } else if InRegister(pc) {
      RegisterJudged(s, c, env);
    } else if InKill(pc) {
      KillJudged(s, c, env);
    } else {
      StopJudged(s, c, env);
    }
  }

  /** The child's end sets the flag before it clears. */
  ghost predicate Flagged(s: State) {
    s.tasks.main.FatalOwners? || s.tasks.main.FatalSend? || s.tasks.main.FatalClear? ==> s.core.shuttingDown
  }

  lemma StepFlagged(s: State, a: Action)
    requires Inv(s) && Enabled(s, a) && Flagged(s)
    ensures Flagged(Step(s, a))
  {
    hide Inv, Advance;
    StepContinues(s, a);
    if a.Move? {
      AdvanceTasks(s, a.conn, a.env);
    }
  }

  /** Exactly which steps make idle tracking wrong. */
  lemma StepExactly(s: State, a: Action)
    requires Inv(s) && Flagged(s) && Enabled(s, a)
    ensures IdleOk(s) ==> (IdleOk(Step(s, a)) <==> !LateWrite(s, a))
    ensures BusyOk(s) ==> (BusyOk(Step(s, a)) <==> !LateMark(s, a))
    ensures MonitorOk(s) ==> (MonitorOk(Step(s, a)) <==> !Overtakes(s, a) && !Misled(s, a))
  {
    hide Inv, Advance, IdleOk, BusyOk, MonitorOk, LateWrite, LateMark, Overtakes;
    var s' := Step(s, a);
    match a
    case Move(c, env) => AdvanceJudged(s, c, env);
    case Connect(c) => ElsewhereJudged(s, s', c, s'.conns[c], a);
    case Frame(c, message) => ElsewhereJudged(s, s', c, s'.conns[c], a);
    case Disconnect(c) => ElsewhereJudged(s, s', c, s'.conns[c], a);
    case BadFrame(c) => ElsewhereJudged(s, s', c, s'.conns[c], a);
    case StopNotified(c) => ElsewhereJudged(s, s', c, s'.conns[c], a);
    case StopTimedOut(c) => ElsewhereJudged(s, s', c, s'.conns[c], a);
    case _ => TasksJudged(s, a);
  }

  /** The steps of no connection. */
  lemma TasksJudged(s: State, a: Action)
    requires Flagged(s) && Enabled(s, a)
    requires a.AcceptEnds? || a.Pass? || a.Monitor? || a.MonitorEnds? || a.ChildExited? || a.ChildFailed? || a.MainStep? || a.Signal? || a.KillTimer?
    ensures IdleOk(s) ==> (IdleOk(Step(s, a)) <==> !LateWrite(s, a))
    ensures BusyOk(s) ==> (BusyOk(Step(s, a)) <==> !LateMark(s, a))
    ensures MonitorOk(s) ==> (MonitorOk(Step(s, a)) <==> !Overtakes(s, a) && !Misled(s, a))
  {
    if a.MainStep? {
      MainJudged(s);
    }
  }

  lemma MainJudged(s: State)
    requires Flagged(s) && Enabled(s, MainStep)
    ensures IdleOk(s) ==> IdleOk(AdvanceMain(s))
    ensures BusyOk(s) ==> BusyOk(AdvanceMain(s))
    ensures MonitorOk(s) ==> MonitorOk(AdvanceMain(s))
  {
    match s.tasks.main
    case FatalClear =>
    case MainPoll =>
    case _ =>
  }

  // ---------------------------------------------------------------------------------------------
  // Whole runs
  // ---------------------------------------------------------------------------------------------

  /** The state after the first `k` actions. */
  ghost function At(start: nat, actions: seq<Action>, k: nat): State
    requires Exec(start, actions).Some? && k <= |actions|
  {
    Prefixed(start, actions, k);
    Exec(start, actions[..k]).value
  }

  lemma Prefixed(start: nat, actions: seq<Action>, k: nat)
    requires Exec(start, actions).Some? && k <= |actions|
    ensures Exec(start, actions[..k]).Some?
  {
    hide Exec;
    assert actions[..k] + actions[k..] == actions;
    ExecPrefix(start, actions[..k], actions[k..]);
  }

  lemma NextAt(start: nat, actions: seq<Action>, k: nat)
    requires Exec(start, actions).Some? && k < |actions|
    ensures Enabled(At(start, actions, k), actions[k])
    ensures At(start, actions, k + 1) == Step(At(start, actions, k), actions[k])
    ensures Inv(At(start, actions, k))
  {
    hide Enabled, Step, Inv;
    Prefixed(start, actions, k + 1);
    assert actions[..k + 1][..k] == actions[..k];
    ExecKeepsInv(start, actions[..k]);
  }

  lemma FirstAt(start: nat, actions: seq<Action>)
    requires Exec(start, actions).Some?
    ensures At(start, actions, 0) == Init(start)
  {
    hide Step, Enabled;
    assert actions[..0] == [];
  }

  lemma {:induction false} FlaggedAt(start: nat, actions: seq<Action>, k: nat)
    requires Exec(start, actions).Some? && k <= |actions|
    ensures Flagged(At(start, actions, k))
    decreases k
  {
    hide Exec, Step, Enabled, Inv;
    if k == 0 {
      FirstAt(start, actions);
    } else {
      FlaggedAt(start, actions, k - 1);
      NextAt(start, actions, k - 1);
      StepFlagged(At(start, actions, k - 1), actions[k - 1]);
    }
  }

  ghost predicate AlwaysIdleOk(start: nat, actions: seq<Action>)
    requires Exec(start, actions).Some?
  {
    forall k :: 0 <= k <= |actions| ==> IdleOk(At(start, actions, k))
  }

  ghost predicate AlwaysBusyOk(start: nat, actions: seq<Action>)
    requires Exec(start, actions).Some?
  {
    forall k :: 0 <= k <= |actions| ==> BusyOk(At(start, actions, k))
  }

  ghost predicate AlwaysMonitorOk(start: nat, actions: seq<Action>)
    requires Exec(start, actions).Some?
  {
    forall k :: 0 <= k <= |actions| ==> MonitorOk(At(start, actions, k))
  }

  ghost predicate NoLateWrite(start: nat, actions: seq<Action>)
    requires Exec(start, actions).Some?
  {
    forall k :: 0 <= k < |actions| ==> !LateWrite(At(start, actions, k), actions[k])
  }

  ghost predicate NoLateMark(start: nat, actions: seq<Action>)
    requires Exec(start, actions).Some?
  {
    forall k :: 0 <= k < |actions| ==> !LateMark(At(start, actions, k), actions[k])
  }

  ghost predicate NoneOvertakes(start: nat, actions: seq<Action>)
    requires Exec(start, actions).Some?
  {
    forall k :: 0 <= k < |actions| ==> !Overtakes(At(start, actions, k), actions[k])
  }

  ghost predicate NoneMisled(start: nat, actions: seq<Action>)
    requires Exec(start, actions).Some?
  {
    forall k :: 0 <= k < |actions| ==> !Misled(At(start, actions, k), actions[k])
  }

  lemma StepAt(start: nat, actions: seq<Action>, k: nat)
    requires Exec(start, actions).Some? && k < |actions|
    ensures var s, s', a := At(start, actions, k), At(start, actions, k + 1), actions[k];
            && (IdleOk(s) ==> (IdleOk(s') <==> !LateWrite(s, a)))
            && (BusyOk(s) ==> (BusyOk(s') <==> !LateMark(s, a)))
            && (MonitorOk(s) ==> (MonitorOk(s') <==> !Overtakes(s, a) && !Misled(s, a)))
  {
    hide Exec, Step, Enabled, Inv, Flagged, IdleOk, BusyOk, MonitorOk, LateWrite, LateMark, Overtakes, Misled;
    NextAt(start, actions, k);
    FlaggedAt(start, actions, k);
    StepExactly(At(start, actions, k), actions[k]);
  }

  lemma StartsOk(start: nat, actions: seq<Action>)
    requires Exec(start, actions).Some?
    ensures var s := At(start, actions, 0); IdleOk(s) && BusyOk(s) && MonitorOk(s)
  {
    hide Exec;
    FirstAt(start, actions);
  }

  lemma {:induction false} IdleOkUpTo(start: nat, actions: seq<Action>, k: nat)
    requires Exec(start, actions).Some? && NoLateWrite(start, actions) && k <= |actions|
    ensures IdleOk(At(start, actions, k))
    decreases k
  {
    hide Exec, IdleOk, LateWrite;
    if k == 0 {
      StartsOk(start, actions);
    } else {
      IdleOkUpTo(start, actions, k - 1);
      StepAt(start, actions, k - 1);
    }
  }

  lemma {:induction false} BusyOkUpTo(start: nat, actions: seq<Action>, k: nat)
    requires Exec(start, actions).Some? && NoLateMark(start, actions) && k <= |actions|
    ensures BusyOk(At(start, actions, k))
    decreases k
  {
    hide Exec, BusyOk, LateMark;
    if k == 0 {
      StartsOk(start, actions);
    } else {
      BusyOkUpTo(start, actions, k - 1);
      StepAt(start, actions, k - 1);
    }
  }

  lemma {:induction false} MonitorOkUpTo(start: nat, actions: seq<Action>, k: nat)
    requires Exec(start, actions).Some? && NoneOvertakes(start, actions) && NoneMisled(start, actions) && k <= |actions|
    ensures MonitorOk(At(start, actions, k))
    decreases k
  {
    hide Exec, MonitorOk, Overtakes, Misled;
    if k == 0 {
      StartsOk(start, actions);
    } else {
      MonitorOkUpTo(start, actions, k - 1);
      StepAt(start, actions, k - 1);
    }
  }

  /** In every run: the idle time is set only with no route marked if and only if no removal writes
      it late; it is set whenever there is no route if and only if no registration marks the daemon
      active late; and the monitor goes on to cancel only with no route marked if and only if no
      registration overtakes it and no wrong idle time misleads it. */
  lemma IdleTracksExactly(start: nat, actions: seq<Action>)
    requires Exec(start, actions).Some?
    ensures AlwaysIdleOk(start, actions) <==> NoLateWrite(start, actions)
    ensures AlwaysBusyOk(start, actions) <==> NoLateMark(start, actions)
    ensures AlwaysMonitorOk(start, actions) <==> NoneOvertakes(start, actions) && NoneMisled(start, actions)
  {
    hide Exec, IdleOk, BusyOk, MonitorOk, LateWrite, LateMark, Overtakes, Misled;
    forall k | 0 <= k < |actions|
      ensures AlwaysIdleOk(start, actions) ==> !LateWrite(At(start, actions, k), actions[k])
      ensures AlwaysBusyOk(start, actions) ==> !LateMark(At(start, actions, k), actions[k])
      ensures AlwaysMonitorOk(start, actions) ==>
                !Overtakes(At(start, actions, k), actions[k]) && !Misled(At(start, actions, k), actions[k])
    {
      StepAt(start, actions, k);
    }
    if NoLateWrite(start, actions) {
      forall k | 0 <= k <= |actions| ensures IdleOk(At(start, actions, k)) {
        IdleOkUpTo(start, actions, k);
      }
    }
    if NoLateMark(start, actions) {
      forall k | 0 <= k <= |actions| ensures BusyOk(At(start, actions, k)) {
        BusyOkUpTo(start, actions, k);
      }
    }
    if NoneOvertakes(start, actions) && NoneMisled(start, actions) {
      forall k | 0 <= k <= |actions| ensures MonitorOk(At(start, actions, k)) {
        MonitorOkUpTo(start, actions, k);
      }
    }
  }

  /** An idle time that is always right misleads no look. */
  lemma RightIdleMisleadsNone(start: nat, actions: seq<Action>)
    requires Exec(start, actions).Some? && AlwaysIdleOk(start, actions)
    ensures NoneMisled(start, actions)
    ensures AlwaysMonitorOk(start, actions) <==> NoneOvertakes(start, actions)
  {
    hide Exec, NoneMarked;
    forall k | 0 <= k < |actions| ensures !Misled(At(start, actions, k), actions[k]) {
      assert IdleOk(At(start, actions, k));
    }
    IdleTracksExactly(start, actions);
  }

  // ---------------------------------------------------------------------------------------------
  // Idle safety between lock accesses
  // ---------------------------------------------------------------------------------------------

  /** How clock, idle time and monitor move. */
  ghost predicate Ticks(s: State, s': State) {
    && s.now <= s'.now
    && (s'.core.idleSince.Some? ==> s'.core.idleSince == s.core.idleSince || s'.core.idleSince.value == s'.now)
    && (Cancelling(s'.tasks.monitor) ==> Cancelling(s.tasks.monitor) || (IdleExpired(s) && s'.now == s.now))
  }

  lemma RemoveTicks(s: State, c: ConnId, session: nat, stage: Stage, after: After)
    requires c in s.conns
    ensures Ticks(s, AdvanceRemove(s, c, session, stage, after))
  {
    match stage
    case AtRegistry =>
    case AtOwners =>
    case AtAcks =>
    case AtEmptyTest => FinishTicks(s, c, session, after);
    case AtIdleWrite =>
      var idle := if s.core.idleSince.None? then Some(s.now) else s.core.idleSince;
      FinishTicks(s.(core := s.core.(idleSince := idle)), c, session, after);
  }

  lemma FinishTicks(s: State, c: ConnId, session: nat, after: After)
    requires c in s.conns
    ensures var s' := Finish(s, c, session, after); s'.core == s.core && s'.now == s.now && s'.tasks == s.tasks
  {
    match after
    case ThenUnregistered =>
    case ThenReading =>
    case ThenClosed =>
    case ThenStopped(_, _) =>
  }

  lemma RegisterTicks(s: State, c: ConnId, env: Env)
    requires c in s.conns && InRegister(s.conns[c].pc)
    ensures Ticks(s, AdvanceRegister(s, c, env))
  {
  }

  lemma KillTicks(s: State, c: ConnId, env: Env)
    requires c in s.conns && InKill(s.conns[c].pc)
    ensures Ticks(s, AdvanceKill(s, c, env))
  {
  }

  lemma StopTicks(s: State, c: ConnId, env: Env)
    requires c in s.conns
    ensures Ticks(s, AdvanceStop(s, c, env))
  {
  }

  lemma AdvanceTicks(s: State, c: ConnId, env: Env)
    requires c in s.conns
    ensures Ticks(s, Advance(s, c, env))
  {
    hide Ticks;
    var pc := s.conns[c].pc;
    if pc.Removing? {
      RemoveTicks(s, c, pc.session, pc.stage, pc.after);
    } else if InRegister(pc) {
      RegisterTicks(s, c, env);
    } else if InKill(pc) {
      KillTicks(s, c, env);
    } else {
      StopTicks(s, c, env);
    }
  }

  lemma StepTicks(s: State, a: Action)
    requires Enabled(s, a)
    ensures Ticks(s, Step(s, a))
  {
    hide Advance;
    match a
    case Move(c, env) => AdvanceTicks(s, c, env);
    case MainStep =>
    case _ =>
  }

  lemma TicksAt(start: nat, actions: seq<Action>, k: nat)
    requires Exec(start, actions).Some? && k < |actions|
    ensures Ticks(At(start, actions, k), At(start, actions, k + 1))
  {
    hide Exec, Step, Enabled, Inv, Ticks;
    NextAt(start, actions, k);
    StepTicks(At(start, actions, k), actions[k]);
  }

  lemma {:induction false} TimePasses(start: nat, actions: seq<Action>, i: nat, n: nat)
    requires Exec(start, actions).Some? && i <= n <= |actions|
    ensures At(start, actions, i).now <= At(start, actions, n).now
    decreases n
  {
    hide Exec;
    if i < n {
      TimePasses(start, actions, i, n - 1);
      TicksAt(start, actions, n - 1);
    }
  }

  /** The step that set the idle time in force after `m` actions; -1 if it was set from the start. */
  ghost function SetAt(start: nat, actions: seq<Action>, m: nat): (w: int)
    requires Exec(start, actions).Some? && m <= |actions| && At(start, actions, m).core.idleSince.Some?
    ensures -1 <= w < m
    ensures forall j :: w < j <= m ==> At(start, actions, j).core.idleSince.Some?
    ensures w >= 0 ==> At(start, actions, w).core.idleSince.None?
    decreases m
  {
    if m == 0 then -1
    else if At(start, actions, m - 1).core.idleSince.None? then m - 1
    else SetAt(start, actions, m - 1)
  }

  /** The monitor's look that found the daemon expired. */
  ghost function LookedAt(start: nat, actions: seq<Action>, n: nat): (m: nat)
    requires Exec(start, actions).Some? && n <= |actions| && Cancelling(At(start, actions, n).tasks.monitor)
    ensures m < n && !Cancelling(At(start, actions, m).tasks.monitor)
    ensures forall j :: m < j <= n ==> Cancelling(At(start, actions, j).tasks.monitor)
    decreases n
  {
    NotFirst(start, actions, n);
    if Cancelling(At(start, actions, n - 1).tasks.monitor) then LookedAt(start, actions, n - 1) else n - 1
  }

  lemma NotFirst(start: nat, actions: seq<Action>, n: nat)
    requires Exec(start, actions).Some? && n <= |actions| && Cancelling(At(start, actions, n).tasks.monitor)
    ensures n > 0
  {
    hide Exec;
    FirstAt(start, actions);
  }

  /** The idle time the monitor went by, and the step that set it. */
  lemma LookFinds(start: nat, actions: seq<Action>, n: nat)
    requires Exec(start, actions).Some? && n <= |actions| && Cancelling(At(start, actions, n).tasks.monitor)
    ensures IdleExpired(At(start, actions, LookedAt(start, actions, n)))
  {
    hide Exec;
    TicksAt(start, actions, LookedAt(start, actions, n));
  }

  ghost function WrittenAt(start: nat, actions: seq<Action>, n: nat): (w: int)
    requires Exec(start, actions).Some? && n <= |actions| && Cancelling(At(start, actions, n).tasks.monitor)
    ensures -1 <= w < LookedAt(start, actions, n)
  {
    LookFinds(start, actions, n);
    SetAt(start, actions, LookedAt(start, actions, n))
  }

  /** Neither was the idle time the monitor went by written late, nor has a registration overtaken
      the monitor since its look. */
  ghost predicate CancelsRightly(start: nat, actions: seq<Action>, n: nat)
    requires Exec(start, actions).Some? && n <= |actions| && Cancelling(At(start, actions, n).tasks.monitor)
  {
    var m, w := LookedAt(start, actions, n), WrittenAt(start, actions, n);
    && (w >= 0 ==> !LateWrite(At(start, actions, w), actions[w]))
    && (forall k :: m < k < n ==> !Overtakes(At(start, actions, k), actions[k]))
  }

  /** While an idle time stays in force, it is right throughout if it was when it was set. */
  lemma {:induction false} RightWhileInForce(start: nat, actions: seq<Action>, m: nat, j: nat)
    requires Exec(start, actions).Some? && m <= |actions| && At(start, actions, m).core.idleSince.Some?
    requires var w := SetAt(start, actions, m); w < j <= m && (w >= 0 ==> !LateWrite(At(start, actions, w), actions[w]))
    ensures NoneMarked(At(start, actions, j))
    decreases j
  {
    hide Exec, NoneMarked;
    var w := SetAt(start, actions, m);
    if j == 0 {
      StartsOk(start, actions);
    } else {
      StepAt(start, actions, j - 1);
      if j - 1 > w {
        RightWhileInForce(start, actions, m, j - 1);
        assert At(start, actions, j - 1).core.idleSince.Some?;
      }
      assert IdleOk(At(start, actions, j));
    }
  }

  /** A look that is not misled leads to a cancellation with no route marked, until overtaken. */
  lemma {:induction false} RightSinceLook(start: nat, actions: seq<Action>, m: nat, j: nat)
    requires Exec(start, actions).Some? && m < j <= |actions|
    requires !Cancelling(At(start, actions, m).tasks.monitor) && NoneMarked(At(start, actions, m))
    requires forall k :: m < k <= j ==> Cancelling(At(start, actions, k).tasks.monitor)
    requires forall k :: m < k < j ==> !Overtakes(At(start, actions, k), actions[k])
    ensures NoneMarked(At(start, actions, j))
    decreases j
  {
    hide Exec, NoneMarked;
    StepAt(start, actions, j - 1);
    if j - 1 > m {
      RightSinceLook(start, actions, m, j - 1);
      assert Cancelling(At(start, actions, j - 1).tasks.monitor);
    }
    assert MonitorOk(At(start, actions, j));
  }

  /** Exactly when a cancellation for idleness is right: at no moment since the idle time the monitor
      went by was set did a route exist but such whose own registration was still to mark the daemon
      active, if and only if that idle time was not written late and no registration has overtaken
      the monitor. */
  lemma CancelExactly(start: nat, actions: seq<Action>, n: nat)
    requires Exec(start, actions).Some? && n <= |actions| && Cancelling(At(start, actions, n).tasks.monitor)
    ensures (forall j :: WrittenAt(start, actions, n) < j <= n ==> NoneMarked(At(start, actions, j)))
            <==> CancelsRightly(start, actions, n)
  {
    hide Exec, NoneMarked, LateWrite, Overtakes;
    LookFinds(start, actions, n);
    var m, w := LookedAt(start, actions, n), WrittenAt(start, actions, n);
    if CancelsRightly(start, actions, n) {
      forall j | w < j <= n ensures NoneMarked(At(start, actions, j)) {
        RightWhileInForce(start, actions, m, if j <= m then j else m);
        if j > m {
          RightSinceLook(start, actions, m, j);
        }
      }
    }
    if forall j :: w < j <= n ==> NoneMarked(At(start, actions, j)) {
      if w >= 0 {
        WriteIsRight(start, actions, w);
      }
      forall k | m < k < n ensures !Overtakes(At(start, actions, k), actions[k]) {
        assert NoneMarked(At(start, actions, k)) && NoneMarked(At(start, actions, k + 1));
        StepAt(start, actions, k);
      }
    }
  }

  lemma WriteIsRight(start: nat, actions: seq<Action>, w: nat)
    requires Exec(start, actions).Some? && w < |actions|
    requires At(start, actions, w).core.idleSince.None? && NoneMarked(At(start, actions, w + 1))
    ensures !LateWrite(At(start, actions, w), actions[w])
  {
    hide Exec, NoneMarked, LateWrite;
    StepAt(start, actions, w);
  }

  /** That stretch covers the idle timeout before the cancellation. */
  lemma TimeoutIsCovered(start: nat, actions: seq<Action>, n: nat, i: nat)
    requires Exec(start, actions).Some? && i <= n <= |actions| && Cancelling(At(start, actions, n).tasks.monitor)
    requires At(start, actions, i).now > At(start, actions, n).now - DAEMON_IDLE_TIMEOUT
    ensures WrittenAt(start, actions, n) < i
  {
    hide Exec;
    LookFinds(start, actions, n);
    var m, w := LookedAt(start, actions, n), WrittenAt(start, actions, n);
    if i <= w {
      TimePasses(start, actions, i, w);
      TicksAt(start, actions, w);
      SetAfter(start, actions, w, m);
      TimePasses(start, actions, m, n);
      assert false;
    }
  }

  lemma {:induction false} SetAfter(start: nat, actions: seq<Action>, w: nat, j: nat)
    requires Exec(start, actions).Some? && w < j <= |actions| && At(start, actions, w).core.idleSince.None?
    requires forall k :: w < k <= j ==> At(start, actions, k).core.idleSince.Some?
    ensures At(start, actions, w).now <= At(start, actions, j).core.idleSince.value
    decreases j
  {
    hide Exec;
    TicksAt(start, actions, j - 1);
    TimePasses(start, actions, w, j);
    if j - 1 > w {
      SetAfter(start, actions, w, j - 1);
    }
  }

  /** Idle safety between lock accesses: when the daemon is about to be cancelled for idleness, by an
      idle time not written late and not overtaken, no route existed at any moment of the idle timeout
      before, but such whose own registration was still to mark the daemon active. */
  lemma CancelSafety(start: nat, actions: seq<Action>, i: nat, n: nat)
    requires Exec(start, actions).Some? && i <= n <= |actions|
    requires Cancelling(At(start, actions, n).tasks.monitor) && CancelsRightly(start, actions, n)
    ensures At(start, actions, i).now > At(start, actions, n).now - DAEMON_IDLE_TIMEOUT ==> NoneMarked(At(start, actions, i))
  {
    hide Exec, NoneMarked, CancelsRightly;
    CancelExactly(start, actions, n);
    if At(start, actions, i).now > At(start, actions, n).now - DAEMON_IDLE_TIMEOUT {
      TimeoutIsCovered(start, actions, n, i);
    }
  }
}
