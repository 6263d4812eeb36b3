/** Runs in which handlers do not overlap: one message handled, one stop woken or timed out, one
    whole `remove_session`, is one step. Such runs are lock-granular runs, so they keep all of
    `DaemonSafety`; in them, moreover, idle tracking and the shutdown check are always right. */
module DaemonAtomic {
  import opened Wrappers
  import opened Registry
  import opened Daemon
  import opened DaemonRuns

  // ---------------------------------------------------------------------------------------------
  // Handlers
  // ---------------------------------------------------------------------------------------------

  function StageRank(stage: Stage): nat {
    match stage
    case AtRegistry => 6
    case AtOwners => 5
    case AtAcks => 4
    case AtEmptyTest => 3
    case AtIdleWrite => 2
  }

  /** How many accesses a handler still has, at most. */
  function Rank(pc: Pc): nat {
    match pc
    case Reading => 0
    case StopWait(_, _, _) => 0
    case Closed(_) => 0
    case RegDraw(_, _, _) => 5
    case RegInsert(_, _, _, _) => 4
    case RegOwner(_) => 3
    case RegActive(_) => 2
    case Removing(_, stage, _) => StageRank(stage)
    case ListRead => 2
    case StopResolve(_) => 5
    case StopInsert(_) => 4
    case StopLookup(_, _) => 3
    case StopSend(_, _, _) => 2
    case KillSwap => 5
    case KillClear => 4
    case KillOwners(_) => 3
    case KillSend(_, _) => 2
    case _ => 1
  }

  lemma RemoveRank(s: State, c: ConnId, session: nat, stage: Stage, after: After)
    requires c in s.conns && s.conns[c].pc == Removing(session, stage, after)
    ensures var s' := AdvanceRemove(s, c, session, stage, after); c in s'.conns && Rank(s'.conns[c].pc) < StageRank(stage)
  {
  }

  lemma RegisterRank(s: State, c: ConnId, env: Env)
    requires c in s.conns && InRegister(s.conns[c].pc)
    ensures var s' := AdvanceRegister(s, c, env); c in s'.conns && Rank(s'.conns[c].pc) < Rank(s.conns[c].pc)
  {
  }

  lemma KillRank(s: State, c: ConnId, env: Env)
    requires c in s.conns && InKill(s.conns[c].pc)
    ensures var s' := AdvanceKill(s, c, env); c in s'.conns && Rank(s'.conns[c].pc) < Rank(s.conns[c].pc)
  {
    match s.conns[c].pc
    case KillSwap =>
    case KillClear =>
    case KillOwners(count) =>
    case KillSend(count, targets) =>
    case KillReply(count) =>
  }

  lemma StopRank(s: State, c: ConnId, env: Env)
    requires c in s.conns && !Resting(s.conns[c].pc) && Rank(s.conns[c].pc) <= 5
    requires !s.conns[c].pc.Removing? && !InRegister(s.conns[c].pc) && !InKill(s.conns[c].pc)
    ensures var s' := AdvanceStop(s, c, env); c in s'.conns && Rank(s'.conns[c].pc) < Rank(s.conns[c].pc)
  {
  }

  /** Every access brings the handler closer to its end. */
  lemma AdvanceRank(s: State, c: ConnId, env: Env)
    requires c in s.conns && !Resting(s.conns[c].pc)
    ensures var s' := Advance(s, c, env); c in s'.conns && Rank(s'.conns[c].pc) < Rank(s.conns[c].pc)
  {
    var pc := s.conns[c].pc;
    if pc.Removing? {
      RemoveRank(s, c, pc.session, pc.stage, pc.after);
    } else if InRegister(pc) {
      RegisterRank(s, c, env);
    } else if InKill(pc) {
      KillRank(s, c, env);
    } else {
      StopRank(s, c, env);
    }
  }

  /** Connection `c` runs until it waits. */
  ghost function Settle(s: State, c: ConnId, env: Env): (r: State)
    requires c in s.conns
    ensures c in r.conns && Resting(r.conns[c].pc)
    decreases Rank(s.conns[c].pc)
  {
    if Resting(s.conns[c].pc) then s
    else
      AdvanceRank(s, c, env);
      Settle(Advance(s, c, env), c, env)
  }

  /** The monitor, and the main loop, run until they wait. */
  ghost function SettleMonitor(s: State): (r: State)
    ensures r.tasks.monitor.MonitorTick? || r.tasks.monitor.MonitorOver?
    decreases if s.tasks.monitor.MonitorFlag? then 2 else if s.tasks.monitor.MonitorCancel? then 1 else 0
  {
    if s.tasks.monitor.MonitorTick? || s.tasks.monitor.MonitorOver? then s else SettleMonitor(AdvanceMonitor(s))
  }

  function MainRank(pc: MainPc): nat {
    match pc
    case MainPoll => 0
    case FatalOwners => 5
    case FatalSend(_) => 4
    case FatalClear => 3
    case FatalCancel => 2
    case MainFlag => 1
    case MainOver => 0
  }

  ghost function SettleMain(s: State): (r: State)
    ensures MainRank(r.tasks.main) == 0
    decreases MainRank(s.tasks.main)
  {
    if MainRank(s.tasks.main) == 0 then s else SettleMain(AdvanceMain(s))
  }

  /** The events that set a connection going. */
  predicate StartsHandler(a: Action) {
    a.Frame? || a.Disconnect? || a.StopNotified? || a.StopTimedOut?
  }

  /** An event and everything its handler then does, undisturbed. */
  ghost function Handler(s: State, a: Action, env: Env): State
    requires Enabled(s, a) && !a.Move?
  {
    if StartsHandler(a) then Settle(Step(s, a), a.conn, env) else SettleMain(SettleMonitor(Step(s, a)))
  }

  datatype Event = Event(action: Action, env: Env)

  /** A handler-atomic run: the states between events. */
  ghost predicate IsRun(start: nat, states: seq<State>, events: seq<Event>) {
    && |states| == |events| + 1
    && states[0] == Init(start)
    && (forall i :: 0 <= i < |events| ==>
          && Enabled(states[i], events[i].action) && !events[i].action.Move?
          && states[i + 1] == Handler(states[i], events[i].action, events[i].env))
  }

  // ---------------------------------------------------------------------------------------------
  // Handler-atomic runs are lock-granular runs
  // ---------------------------------------------------------------------------------------------

  lemma {:induction false} SettleIsRun(start: nat, actions: seq<Action>, s: State, c: ConnId, env: Env) returns (more: seq<Action>)
    requires Exec(start, actions) == Some(s) && c in s.conns
    ensures Exec(start, actions + more) == Some(Settle(s, c, env))
    decreases Rank(s.conns[c].pc)
  {
    hide Exec, Advance;
    if Resting(s.conns[c].pc) {
      more := [];
      assert actions + more == actions;
    } else {
      var a := Move(c, env);
      OneMore(start, actions, a);
      AdvanceRank(s, c, env);
      var rest := SettleIsRun(start, actions + [a], Advance(s, c, env), c, env);
      more := [a] + rest;
      assert actions + [a] + rest == actions + more;
    }
  }

  lemma {:induction false} SettleMonitorIsRun(start: nat, actions: seq<Action>, s: State) returns (more: seq<Action>)
    requires Exec(start, actions) == Some(s)
    ensures Exec(start, actions + more) == Some(SettleMonitor(s))
    decreases if s.tasks.monitor.MonitorFlag? then 2 else if s.tasks.monitor.MonitorCancel? then 1 else 0
  {
    hide Exec;
    if s.tasks.monitor.MonitorTick? || s.tasks.monitor.MonitorOver? {
      more := [];
      assert actions + more == actions;
    } else {
      OneMore(start, actions, Monitor);
      var rest := SettleMonitorIsRun(start, actions + [Monitor], AdvanceMonitor(s));
      more := [Monitor] + rest;
      assert actions + [Monitor] + rest == actions + more;
    }
  }

  lemma {:induction false} SettleMainIsRun(start: nat, actions: seq<Action>, s: State) returns (more: seq<Action>)
    requires Exec(start, actions) == Some(s)
    ensures Exec(start, actions + more) == Some(SettleMain(s))
    decreases MainRank(s.tasks.main)
  {
    hide Exec;
    if MainRank(s.tasks.main) == 0 {
      more := [];
      assert actions + more == actions;
    } else {
      OneMore(start, actions, MainStep);
      var rest := SettleMainIsRun(start, actions + [MainStep], AdvanceMain(s));
      more := [MainStep] + rest;
      assert actions + [MainStep] + rest == actions + more;
    }
  }

  lemma StartsConn(s: State, a: Action)
    requires Enabled(s, a) && StartsHandler(a)
    ensures a.conn in Step(s, a).conns
  {
  }

  lemma HandlerIsRun(start: nat, actions: seq<Action>, s: State, a: Action, env: Env) returns (more: seq<Action>)
    requires Exec(start, actions) == Some(s) && Enabled(s, a) && !a.Move?
    ensures Exec(start, actions + more) == Some(Handler(s, a, env))
  {
    hide Exec, Step;
    OneMore(start, actions, a);
    var s' := Step(s, a);
    if StartsHandler(a) {
      StartsConn(s, a);
      var rest := SettleIsRun(start, actions + [a], s', a.conn, env);
      more := [a] + rest;
      assert actions + [a] + rest == actions + more;
    } else {
      var first := SettleMonitorIsRun(start, actions + [a], s');
      var second := SettleMainIsRun(start, actions + [a] + first, SettleMonitor(s'));
      more := [a] + first + second;
      assert actions + [a] + first + second == actions + more;
    }
  }

  lemma EmptyRun(start: nat)
    ensures Exec(start, [] + []) == Exec(start, []) == Some(Init(start))
  {
  }

  /** A handler-atomic run from its `i`-th to its `j`-th state is a lock-granular run. */
  lemma {:induction false} AtomicRunIsRun(start: nat, states: seq<State>, events: seq<Event>, i: nat, j: nat)
    returns (actions: seq<Action>, more: seq<Action>)
    requires IsRun(start, states, events) && i <= j < |states|
    ensures Exec(start, actions) == Some(states[i])
    ensures Exec(start, actions + more) == Some(states[j])
    decreases j
  {
    hide Exec, Handler, Enabled, Init;
    if j == 0 {
      actions, more := [], [];
      EmptyRun(start);
    } else if i == j {
      var before, rest := AtomicRunIsRun(start, states, events, j - 1, j - 1);
      var last := HandlerIsRun(start, before, states[j - 1], events[j - 1].action, events[j - 1].env);
      actions, more := before + last, [];
      assert actions + more == actions;
    } else {
      var rest;
      actions, rest := AtomicRunIsRun(start, states, events, i, j - 1);
      var last := HandlerIsRun(start, actions + rest, states[j - 1], events[j - 1].action, events[j - 1].env);
      more := rest + last;
      assert actions + rest + last == actions + more;
    }
  }

  // ---------------------------------------------------------------------------------------------
  // Between events every task waits
  // ---------------------------------------------------------------------------------------------

  /** Every connection but `c` waits. */
  ghost predicate OthersRest(conns: map<ConnId, Conn>, c: ConnId) {
    forall d :: d in conns && d != c ==> Resting(conns[d].pc)
  }

  ghost predicate AllRest(conns: map<ConnId, Conn>) {
    forall d :: d in conns ==> Resting(conns[d].pc)
  }

  lemma RemoveLeavesRest(s: State, c: ConnId, session: nat, stage: Stage, after: After)
    requires c in s.conns && OthersRest(s.conns, c)
    ensures OthersRest(AdvanceRemove(s, c, session, stage, after).conns, c)
  {
  }

  lemma RegisterLeavesRest(s: State, c: ConnId, env: Env)
    requires c in s.conns && OthersRest(s.conns, c) && InRegister(s.conns[c].pc)
    ensures OthersRest(AdvanceRegister(s, c, env).conns, c)
  {
  }

  lemma KillLeavesRest(s: State, c: ConnId, env: Env)
    requires c in s.conns && OthersRest(s.conns, c) && InKill(s.conns[c].pc)
    ensures OthersRest(AdvanceKill(s, c, env).conns, c)
  {
  }

  lemma StopLeavesRest(s: State, c: ConnId, env: Env)
    requires c in s.conns && OthersRest(s.conns, c)
    ensures OthersRest(AdvanceStop(s, c, env).conns, c)
  {
    match s.conns[c].pc
    case StopResolve(selector) =>
    case StopInsert(route) =>
    case StopSend(route, token, owner) =>
    case _ =>
  }

  lemma AdvanceLeavesRest(s: State, c: ConnId, env: Env)
    requires c in s.conns && OthersRest(s.conns, c)
    ensures OthersRest(Advance(s, c, env).conns, c)
  {
    var pc := s.conns[c].pc;
    if pc.Removing? {
      RemoveLeavesRest(s, c, pc.session, pc.stage, pc.after);
    } else if InRegister(pc) {
      RegisterLeavesRest(s, c, env);
    } else if InKill(pc) {
      KillLeavesRest(s, c, env);
    } else {
      StopLeavesRest(s, c, env);
    }
  }

  lemma {:induction false} SettleRests(s: State, c: ConnId, env: Env)
    requires c in s.conns && OthersRest(s.conns, c)
    ensures AllRest(Settle(s, c, env).conns)
    decreases Rank(s.conns[c].pc)
  {
    if !Resting(s.conns[c].pc) {
      AdvanceRank(s, c, env);
      AdvanceLeavesRest(s, c, env);
      SettleRests(Advance(s, c, env), c, env);
    }
  }

  // ---------------------------------------------------------------------------------------------
  // Idle tracking
  // ---------------------------------------------------------------------------------------------

  /** An idle time is set only while there is no route, and lies in the past. */
  ghost predicate IdleSound(core: Core, now: nat) {
    core.idleSince.Some? ==> core.routes == map[] && core.idleSince.value <= now
  }

  /** Between handlers, moreover, it is set whenever there is no route, until shutdown. */
  ghost predicate IdleExact(core: Core, now: nat) {
    IdleSound(core, now) && (!core.shuttingDown && core.routes == map[] ==> core.idleSince.Some?)
  }

  /** What holds while the handler of a connection at `pc` runs alone. */
  ghost predicate IdleDuring(core: Core, now: nat, pc: Pc) {
    match pc
    case RegOwner(route) => route.slug in core.routes
    case RegActive(route) => route.slug in core.routes
    case Removing(_, stage, _) =>
      if stage.AtRegistry? then IdleExact(core, now)
      else IdleSound(core, now) && (stage.AtIdleWrite? ==> core.routes == map[])
    case KillClear => IdleExact(core, now) && core.shuttingDown
    case _ => IdleExact(core, now)
  }

  /** The idle time is kept, unset, or set to the present. */
  ghost predicate IdleMoves(s: State, s': State) {
    s'.now == s.now && (s'.core.idleSince.Some? ==> s'.core.idleSince == s.core.idleSince || s'.core.idleSince.value == s.now)
  }

  ghost predicate IdleAt(s: State, c: ConnId) {
    c in s.conns && IdleDuring(s.core, s.now, s.conns[c].pc)
  }

  lemma RemoveIdle(s: State, c: ConnId, session: nat, stage: Stage, after: After)
    requires IdleAt(s, c) && s.conns[c].pc == Removing(session, stage, after)
    ensures var s' := AdvanceRemove(s, c, session, stage, after); IdleAt(s', c) && IdleMoves(s, s')
  {
    match stage
    case AtRegistry => assert s.core.routes == map[] ==> WithoutSession(s.core.routes, session) == map[];
    case _ =>
  }

  lemma RegisterIdle(s: State, c: ConnId, env: Env)
    requires IdleAt(s, c) && InRegister(s.conns[c].pc)
    ensures var s' := AdvanceRegister(s, c, env); IdleAt(s', c) && IdleMoves(s, s')
  {
    match s.conns[c].pc
    case RegInsert(session, port, slug, pid) =>
    case _ =>
  }

  lemma KillIdle(s: State, c: ConnId, env: Env)
    requires IdleAt(s, c) && InKill(s.conns[c].pc)
    ensures var s' := AdvanceKill(s, c, env); IdleAt(s', c) && IdleMoves(s, s')
  {
    match s.conns[c].pc
    case KillSwap =>
    case KillClear =>
    case _ =>
  }

  lemma StopIdle(s: State, c: ConnId, env: Env)
    requires IdleAt(s, c) && !s.conns[c].pc.Removing? && !InRegister(s.conns[c].pc) && !InKill(s.conns[c].pc)
    ensures var s' := AdvanceStop(s, c, env); IdleAt(s', c) && IdleMoves(s, s')
  {
    match s.conns[c].pc
    case StopResolve(selector) =>
    case StopInsert(route) =>
    case StopSend(route, token, owner) =>
    case _ =>
  }

  lemma AdvanceIdle(s: State, c: ConnId, env: Env)
    requires IdleAt(s, c)
    ensures var s' := Advance(s, c, env); IdleAt(s', c) && IdleMoves(s, s')
  {
    var pc := s.conns[c].pc;
    if pc.Removing? {
      RemoveIdle(s, c, pc.session, pc.stage, pc.after);
    } else if InRegister(pc) {
      RegisterIdle(s, c, env);
    } else if InKill(pc) {
      KillIdle(s, c, env);
    } else {
      StopIdle(s, c, env);
    }
  }

  lemma {:induction false} SettleIdle(s: State, c: ConnId, env: Env)
    requires IdleAt(s, c)
    ensures var s' := Settle(s, c, env); IdleExact(s'.core, s'.now) && IdleMoves(s, s')
    decreases Rank(s.conns[c].pc)
  {
    if !Resting(s.conns[c].pc) {
      AdvanceRank(s, c, env);
      AdvanceIdle(s, c, env);
      SettleIdle(Advance(s, c, env), c, env);
    }
  }

  /** The state between events. */
  ghost predicate AtRest(s: State) {
    && AllRest(s.conns)
    && MainRank(s.tasks.main) == 0
    && (s.tasks.monitor.MonitorTick? || s.tasks.monitor.MonitorOver?)
    && IdleExact(s.core, s.now)
  }

  lemma {:induction false} SettleMonitorIdle(s: State)
    requires IdleExact(s.core, s.now)
    ensures var s' := SettleMonitor(s);
            && IdleExact(s'.core, s'.now) && s'.conns == s.conns && s'.tasks.main == s.tasks.main && s'.now == s.now
            && s'.core.idleSince == s.core.idleSince && s'.core.routes == s.core.routes
    decreases if s.tasks.monitor.MonitorFlag? then 2 else if s.tasks.monitor.MonitorCancel? then 1 else 0
  {
    if !s.tasks.monitor.MonitorTick? && !s.tasks.monitor.MonitorOver? {
      SettleMonitorIdle(AdvanceMonitor(s));
    }
  }

  lemma {:induction false} SettleMainIdle(s: State)
    requires IdleExact(s.core, s.now) && (MainRank(s.tasks.main) >= 2 ==> s.core.shuttingDown)
    ensures var s' := SettleMain(s);
            && IdleExact(s'.core, s'.now) && s'.conns == s.conns && s'.tasks.monitor == s.tasks.monitor && s'.now == s.now
            && s'.core.idleSince == s.core.idleSince
    decreases MainRank(s.tasks.main)
  {
    if MainRank(s.tasks.main) != 0 {
      SettleMainIdle(AdvanceMain(s));
    }
  }

  /** The idle time after an event was set before, or now. */
  ghost predicate IdleSteps(s: State, s': State) {
    s.now <= s'.now &&
    (s'.core.idleSince.Some? ==> s'.core.idleSince == s.core.idleSince || s'.core.idleSince.value == s'.now)
  }

  lemma StartKeepsRest(s: State, a: Action)
    requires AtRest(s) && Enabled(s, a) && StartsHandler(a)
    ensures var s' := Step(s, a);
            && IdleAt(s', a.conn) && OthersRest(s'.conns, a.conn)
            && s'.core == s.core && s'.now == s.now && s'.tasks == s.tasks
  {
  }

  lemma {:induction false} SettleTasks(s: State, c: ConnId, env: Env)
    requires c in s.conns
    ensures Settle(s, c, env).tasks.main == s.tasks.main && Settle(s, c, env).tasks.monitor == s.tasks.monitor
    decreases Rank(s.conns[c].pc)
  {
    if !Resting(s.conns[c].pc) {
      AdvanceRank(s, c, env);
      AdvanceTasks(s, c, env);
      SettleTasks(Advance(s, c, env), c, env);
    }
  }

  lemma AdvanceTasks(s: State, c: ConnId, env: Env)
    requires c in s.conns
    ensures Advance(s, c, env).tasks.main == s.tasks.main && Advance(s, c, env).tasks.monitor == s.tasks.monitor
  {
  }

  lemma HandlerKeepsRest(s: State, a: Action, env: Env)
    requires AtRest(s) && Enabled(s, a) && !a.Move?
    ensures AtRest(Handler(s, a, env)) && IdleSteps(s, Handler(s, a, env))
  {
    if StartsHandler(a) {
      StartKeepsRest(s, a);
      SettleRests(Step(s, a), a.conn, env);
      SettleIdle(Step(s, a), a.conn, env);
      SettleTasks(Step(s, a), a.conn, env);
    } else {
      var s1 := Step(s, a);
      SettleMonitorIdle(s1);
      SettleMainIdle(SettleMonitor(s1));
    }
  }

  /** Idle exactness: between the events of every handler-atomic run, until shutdown, the idle time
      is set if and only if no route is registered. */
  lemma {:induction false} IdleIsExact(start: nat, states: seq<State>, events: seq<Event>, i: nat)
    requires IsRun(start, states, events) && i < |states|
    ensures AtRest(states[i])
    ensures !states[i].core.shuttingDown ==> (states[i].core.idleSince.Some? <==> states[i].core.routes == map[])
  {
    if i > 0 {
      IdleIsExact(start, states, events, i - 1);
      HandlerKeepsRest(states[i - 1], events[i - 1].action, events[i - 1].env);
    }
  }

  /** If the daemon is idle since `t`, no route existed at any moment after `t`. */
  lemma {:induction false} NoRouteSinceIdle(start: nat, states: seq<State>, events: seq<Event>, i: nat, n: nat)
    requires IsRun(start, states, events) && i <= n < |states|
    ensures states[i].now <= states[n].now && start <= states[n].now
    ensures states[n].core.idleSince.Some? ==> start <= states[n].core.idleSince.value
    ensures states[n].core.idleSince.Some? && states[i].now > states[n].core.idleSince.value ==>
              states[i].core.routes == map[]
    decreases n
  {
    IdleIsExact(start, states, events, n);
    if n > 0 {
      IdleIsExact(start, states, events, n - 1);
      HandlerKeepsRest(states[n - 1], events[n - 1].action, events[n - 1].env);
      NoRouteSinceIdle(start, states, events, if i < n then i else n - 1, n - 1);
    }
  }

  /** Idle safety: when the monitor cancels the daemon, it has run for the idle timeout at least, and
      at no moment of that last stretch did a route exist. */
  lemma IdleSafety(start: nat, states: seq<State>, events: seq<Event>, n: nat, i: nat)
    requires IsRun(start, states, events) && n < |events| && i <= n
    requires events[n].action.Monitor? && !states[n].tasks.cancelled && states[n + 1].tasks.cancelled
    ensures states[n].now >= start + DAEMON_IDLE_TIMEOUT
    ensures states[i].now > states[n].now - DAEMON_IDLE_TIMEOUT ==> states[i].core.routes == map[]
  {
    IdleIsExact(start, states, events, n);
    NoRouteSinceIdle(start, states, events, i, n);
  }

  /** In handler-atomic runs the registry never grows once the daemon shuts down. */
  lemma NoGrowthAfterShutdown(start: nat, states: seq<State>, events: seq<Event>, i: nat, j: nat)
    requires IsRun(start, states, events) && i <= j < |states| && states[i].core.shuttingDown
    ensures forall k :: k in states[j].core.routes ==> k in states[i].core.routes && states[j].core.routes[k] == states[i].core.routes[k]
  {
    var actions, more := AtomicRunIsRun(start, states, events, i, j);
    IdleIsExact(start, states, events, i);
    NoRouteEntersAfterShutdown(start, actions, more);
  }
}
