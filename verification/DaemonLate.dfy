/** Registrations that pass the check for shutdown and reach the registry late: exactly when one
    can still put a route in. */
module DaemonLate {
  import opened Wrappers
  import opened Text
  import opened Protocol
  import opened Registry
  import opened Daemon
  import opened DaemonSafety
  import opened DaemonRuns
  import opened DaemonAtomic
  import opened DaemonSettles
  import Slug

  /** The main loop may still clear the registry. */
  predicate ClearAhead(main: MainPc) { main.MainPoll? || main.FatalOwners? || main.FatalSend? || main.FatalClear? }

  /** The connection has not ended, nor its peer hung up. */
  predicate Live(pc: Pc) { !pc.Closed? && !(pc.Removing? && pc.after.ThenClosed?) }

  /** Something is left that can empty the registry: the accept loop, the main loop before its clear,
      or a second live connection. */
  ghost predicate Stirring(s: State) {
    || s.tasks.accepting
    || ClearAhead(s.tasks.main)
    || exists d, e :: d in s.conns && e in s.conns && d != e && Live(s.conns[d].pc) && Live(s.conns[e].pc)
  }

  /** A continuation in which some route enters. */
  ghost predicate Enters(start: nat, actions: seq<Action>, more: seq<Action>) {
    && Exec(start, actions).Some? && Exec(start, actions + more).Some?
    && !NoNewRoute(Exec(start, actions).value.core.routes, Exec(start, actions + more).value.core.routes)
  }

  /** `t` is reached from the end of `actions` by `more`. */
  ghost predicate Reaches(start: nat, actions: seq<Action>, more: seq<Action>, t: State) {
    Exec(start, actions + more) == Some(t)
  }

  lemma Onward(start: nat, actions: seq<Action>, more: seq<Action>, s: State, a: Action)
    requires Reaches(start, actions, more, s) && Enabled(s, a)
    ensures Reaches(start, actions, more + [a], Step(s, a))
  {
    hide Exec, Step, Enabled;
    OneMore(start, actions + more, a);
    assert actions + more + [a] == actions + (more + [a]);
  }

  lemma Handled(start: nat, actions: seq<Action>, more: seq<Action>, s: State, a: Action, env: Env) returns (more': seq<Action>)
    requires Reaches(start, actions, more, s) && Enabled(s, a) && !a.Move?
    ensures Reaches(start, actions, more', Handler(s, a, env))
  {
    hide Exec, Handler, Enabled;
    var rest := HandlerIsRun(start, actions + more, s, a, env);
    more' := more + rest;
    assert actions + more + rest == actions + more';
  }

  // ---------------------------------------------------------------------------------------------
  // Into the registry
  // ---------------------------------------------------------------------------------------------

  /** The registry takes such a request now. */
  ghost predicate Acceptable(m: Routes, port: u16, requested: Option<string>) {
    && port != 0 && !PortTaken(m, port)
    && match requested
       case Some(text) => Slug.IsSlug(Lower(text)) && Lower(text) !in m
       case None => exists draw: Slug.Draw :: Slug.GenerateSlug(draw) !in m
  }

  /** An empty registry takes every serviceable request; the fewer routes, the more it takes. */
  lemma AcceptableFacts(m: Routes, m': Routes, port: u16, requested: Option<string>)
    ensures Acceptable(map[], port, requested) <==> Serviceable(port, requested)
    ensures m'.Keys <= m.Keys && NoNewRoute(m, m') && Acceptable(m, port, requested) ==> Acceptable(m', port, requested)
  {
    var empty: Routes := map[];
    assert Slug.GenerateSlug(Slug.Draw(0, 0)) !in empty;
    if m'.Keys <= m.Keys && NoNewRoute(m, m') && Acceptable(m, port, requested) {
      assert PortTaken(m', port) ==> PortTaken(m, port);
      if requested.None? {
        var draw: Slug.Draw :| Slug.GenerateSlug(draw) !in m;
        assert Slug.GenerateSlug(draw) !in m';
      }
    }
  }

  /** A route whose session never had one before. */
  ghost predicate HasNew(before: History, routes: Routes) {
    exists k :: k in routes && routes[k].ownerSession !in before.born
  }

  lemma InsertEnters(s: State, c: ConnId, env: Env)
    requires Inv(s) && c in s.conns && s.conns[c].pc.RegInsert?
    requires Acceptable(s.core.routes, s.conns[c].pc.port, s.conns[c].pc.slug)
    ensures HasNew(s.past, AdvanceRegister(s, c, env).core.routes)
  {
    var RegInsert(session, port, slug, pid) := s.conns[c].pc;
    assert ConnOk(c, s.conns[c], s.past);
    RegisterAccepts(s.core.routes, port, slug, session, pid, env.draws);
    RegisterMeaning(s.core.routes, port, slug, session, pid, env.draws);
    hide Registry.Register;
    var route := Registry.Register(s.core.routes, port, slug, session, pid, env.draws).value;
    assert AdvanceRegister(s, c, env) == InsertRoute(s, c, route);
    assert route.slug in InsertRoute(s, c, route).core.routes;
  }

  lemma DrawFacts(s: State, c: ConnId, env: Env)
    requires c in s.conns && s.conns[c].pc.RegDraw?
    ensures var s' := AdvanceRegister(s, c, env);
            && c in s'.conns && s'.conns[c].pc.RegInsert?
            && s'.conns[c].pc.port == s.conns[c].pc.port && s'.conns[c].pc.slug == s.conns[c].pc.slug
            && s'.core.routes == s.core.routes && s'.past.born == s.past.born
            && s'.conns == s.conns[c := s'.conns[c]] && s'.tasks == s.tasks
  {
  }

  /** A registration past the check that the registry takes puts its route in. */
  lemma EntersNow(start: nat, actions: seq<Action>, more: seq<Action>, s: State, c: ConnId, env: Env)
    returns (more': seq<Action>, t: State)
    requires Reaches(start, actions, more, s) && Inv(s) && c in s.conns && Pending(s.conns[c].pc)
    requires Acceptable(s.core.routes, s.conns[c].pc.port, s.conns[c].pc.slug)
    ensures Reaches(start, actions, more', t) && HasNew(s.past, t.core.routes)
  {
    hide Exec, Inv, Serviceable, AdvanceRegister, Reaches, Acceptable;
    more', t := more, s;
    if s.conns[c].pc.RegDraw? {
      DrawFacts(s, c, env);
      Onward(start, actions, more', t, Move(c, env));
      more', t := more' + [Move(c, env)], AdvanceRegister(t, c, env);
      RegisterStepKeepsInv(s, c, env);
    }
    InsertEnters(t, c, env);
    Onward(start, actions, more', t, Move(c, env));
    more', t := more' + [Move(c, env)], AdvanceRegister(t, c, env);
  }

  lemma RegisterStepKeepsInv(s: State, c: ConnId, env: Env)
    requires Inv(s) && c in s.conns && s.conns[c].pc.RegDraw?
    ensures Inv(AdvanceRegister(s, c, env))
  {
    hide Inv;
    StepKeepsInv(s, Move(c, env));
  }

  // ---------------------------------------------------------------------------------------------
  // Emptying the registry
  // ---------------------------------------------------------------------------------------------

  /** The main loop does it, if the child exits or has exited. */
  lemma {:induction false} MainEmpties(start: nat, actions: seq<Action>, more: seq<Action>, s: State)
    returns (more': seq<Action>, t: State)
    requires Reaches(start, actions, more, s) && ClearAhead(s.tasks.main)
    ensures Reaches(start, actions, more', t) && t.core.routes == map[] && t.conns == s.conns
    decreases if s.tasks.main.MainPoll? then 10 else MainRank(s.tasks.main)
  {
    hide Exec, Reaches;
    var a := if s.tasks.main.MainPoll? then ChildExited else MainStep;
    Onward(start, actions, more, s, a);
    more', t := more + [a], Step(s, a);
    if !s.tasks.main.FatalClear? {
      more', t := MainEmpties(start, actions, more', t);
    }
  }

  lemma StopRoute(s: State, d: ConnId, k: string, env: Env)
    requires Inv(s) && d in s.conns && s.conns[d].pc.Reading? && k in s.core.routes
    ensures var a := Frame(d, Stop(StopSelector.Slug(k)));
            var t := Handler(s, a, env);
            && t.core.routes == s.core.routes && t.core.shuttingDown == s.core.shuttingDown && t.tasks == s.tasks
            && t.conns == s.conns[d := Conn(StopWait(s.core.routes[k], s.nextToken, false), s.conns[d].owned)]
  {
    hide Settle, Inv;
    StopSettles(s, d, StopSelector.Slug(k), env);
    InvWellFormed(s);
    ResolveAgrees(s.core.routes, StopSelector.Slug(k));
  }

  lemma InvWellFormed(s: State)
    requires Inv(s)
    ensures WellFormed(s.core.routes)
  {
  }

  /** A waiting stop that times out takes the route out, and its client is read from again; no other
      client is touched but to be woken. */
  lemma TimeOut(s: State, d: ConnId, env: Env)
    requires d in s.conns && s.conns[d].pc.StopWait? && !s.conns[d].pc.woken && env.selfAlive
    ensures var session := s.conns[d].pc.route.ownerSession;
            var t := Handler(s, StopTimedOut(d), env);
            && t.core.routes == WithoutSession(s.core.routes, session)
            && t.core.shuttingDown == s.core.shuttingDown && t.tasks == s.tasks
            && d in t.conns && t.conns[d].pc.Reading?
            && (forall c :: c in s.conns && c != d && !s.conns[c].pc.StopWait? ==> c in t.conns && t.conns[c] == s.conns[c])
  {
    hide Settle;
    var StopWait(route, token, _) := s.conns[d].pc;
    var after := ThenStopped(route, token);
    var u := Goto(s, d, Removing(route.ownerSession, AtRegistry, after));
    RemovalSettles(u, d, route.ownerSession, after, env);
  }

  lemma WokenEnds(s: State, d: ConnId, env: Env)
    requires d in s.conns && s.conns[d].pc.StopWait? && s.conns[d].pc.woken && env.selfAlive
    ensures var t := Handler(s, StopNotified(d), env);
            && d in t.conns && t.conns[d].pc.Reading?
            && (forall c :: c in s.conns && c != d ==> c in t.conns && t.conns[c] == s.conns[c])
  {
    var u := Goto(s, d, StopReply(s.conns[d].pc.route));
    var t := AdvanceStop(u, d, env);
    Unfold(u, d, env, t);
    Settled(t, d, env);
  }

  lemma FewerRoutes(m: Routes, k: string)
    requires k in m
    ensures |WithoutSession(m, m[k].ownerSession)| < |m|
  {
    var m' := WithoutSession(m, m[k].ownerSession);
    assert m'.Keys <= m.Keys - {k};
    Slug.SubsetSize(m'.Keys, m.Keys - {k});
    assert |m.Keys - {k}| < |m.Keys|;
  }

  /** Connection `d` can be read from, and the registration of `c` stands where it did. */
  ghost predicate Ready(s: State, d: ConnId, c: ConnId, k: Conn) {
    && d in s.conns && s.conns[d].pc.Reading?
    && c in s.conns && s.conns[c] == k
  }

  /** A client that is read from can stop any route, and is read from again. */
  lemma ClientStops(start: nat, actions: seq<Action>, more: seq<Action>, s: State, d: ConnId, c: ConnId, k: string, env: Env)
    returns (more': seq<Action>, t: State)
    requires Reaches(start, actions, more, s) && c in s.conns && Ready(s, d, c, s.conns[c]) && d != c && !s.conns[c].pc.StopWait?
    requires k in s.core.routes && env.selfAlive
    ensures Reaches(start, actions, more', t) && Ready(t, d, c, s.conns[c])
    ensures t.core.routes == WithoutSession(s.core.routes, s.core.routes[k].ownerSession)
  {
    hide Exec, Handler, Inv;
    ExecKeepsInv(start, actions + more);
    var a := Frame(d, Stop(StopSelector.Slug(k)));
    StopRoute(s, d, k, env);
    more' := Handled(start, actions, more, s, a, env);
    t := Handler(s, a, env);
    TimeOut(t, d, env);
    more' := Handled(start, actions, more', t, StopTimedOut(d), env);
    t := Handler(t, StopTimedOut(d), env);
  }

  /** It can stop one route after the other. */
  lemma {:induction false} ClientEmpties(
    start: nat, actions: seq<Action>, more: seq<Action>, s: State, d: ConnId, c: ConnId, env: Env
  )
    returns (more': seq<Action>, t: State)
    requires Reaches(start, actions, more, s) && c in s.conns && Ready(s, d, c, s.conns[c]) && d != c && !s.conns[c].pc.StopWait?
    requires env.selfAlive
    ensures Reaches(start, actions, more', t) && t.core.routes == map[]
    ensures c in t.conns && t.conns[c] == s.conns[c]
    decreases |s.core.routes|
  {
    hide Reaches;
    more', t := more, s;
    if s.core.routes != map[] {
      var k :| k in s.core.routes;
      more', t := ClientStops(start, actions, more, s, d, c, k, env);
      FewerRoutes(s.core.routes, k);
      more', t := ClientEmpties(start, actions, more', t, d, c, env);
    }
  }

  lemma Unused(used: set<nat>) returns (n: nat)
    ensures forall m :: m in used ==> m < n
  {
    n := 0;
    if used != {} {
      var m :| m in used;
      n := Unused(used - {m});
      assert forall l :: l in used ==> l == m || l in used - {m};
      n := if n <= m then m + 1 else n;
    }
  }

  lemma FinishLive(s: State, d: ConnId, session: nat, after: After)
    requires d in s.conns && !after.ThenClosed?
    ensures var s' := Finish(s, d, session, after); d in s'.conns && Live(s'.conns[d].pc)
  {
    match after
    case ThenUnregistered =>
    case ThenReading =>
    case ThenStopped(_, _) =>
  }

  lemma RemoveLive(s: State, d: ConnId, session: nat, stage: Stage, after: After)
    requires d in s.conns && s.conns[d].pc == Removing(session, stage, after) && !after.ThenClosed?
    ensures var s' := AdvanceRemove(s, d, session, stage, after); d in s'.conns && Live(s'.conns[d].pc)
  {
    match stage
    case AtRegistry =>
    case AtOwners =>
    case AtAcks =>
    case AtEmptyTest => FinishLive(s, d, session, after);
    case AtIdleWrite =>
      var idle := if s.core.idleSince.None? then Some(s.now) else s.core.idleSince;
      FinishLive(s.(core := s.core.(idleSince := idle)), d, session, after);
  }

  lemma RegisterLive(s: State, d: ConnId, env: Env)
    requires d in s.conns && InRegister(s.conns[d].pc) && env.selfAlive
    ensures var s' := AdvanceRegister(s, d, env); d in s'.conns && Live(s'.conns[d].pc)
  {
    hide Registry.Register;
  }

  lemma KillLive(s: State, d: ConnId, env: Env)
    requires d in s.conns && InKill(s.conns[d].pc) && env.selfAlive
    ensures var s' := AdvanceKill(s, d, env); d in s'.conns && Live(s'.conns[d].pc)
  {
  }

  lemma StopLive(s: State, d: ConnId, env: Env)
    requires d in s.conns && Live(s.conns[d].pc) && env.selfAlive
    requires !s.conns[d].pc.Removing? && !InRegister(s.conns[d].pc) && !InKill(s.conns[d].pc)
    ensures var s' := AdvanceStop(s, d, env); d in s'.conns && Live(s'.conns[d].pc)
  {
  }

  /** A step of a live connection whose writer is alive leaves it live, and a registration of another
      connection where it is. */
  lemma AdvanceLive(s: State, d: ConnId, c: ConnId, env: Env)
    requires d in s.conns && Live(s.conns[d].pc) && env.selfAlive
    requires c in s.conns && c != d && !s.conns[c].pc.StopWait?
    ensures var s' := Advance(s, d, env);
            && d in s'.conns && Live(s'.conns[d].pc)
            && c in s'.conns && s'.conns[c] == s.conns[c]
  {
    var pc := s.conns[d].pc;
    if pc.Removing? && pc.stage.AtAcks? {
      hide AdvanceRegister, AdvanceKill, AdvanceStop;
    } else {
      AdvanceLeaves(s, d, env, c);
      hide AdvanceRegister, AdvanceKill, AdvanceStop, AdvanceRemove;
      if pc.Removing? {
        RemoveLive(s, d, pc.session, pc.stage, pc.after);
      } else if InRegister(pc) {
        RegisterLive(s, d, env);
      } else if InKill(pc) {
        KillLive(s, d, env);
      } else {
        StopLive(s, d, env);
      }
    }
  }

  lemma {:induction false} SettleLive(s: State, d: ConnId, c: ConnId, env: Env)
    requires d in s.conns && Live(s.conns[d].pc) && env.selfAlive
    requires c in s.conns && c != d && !s.conns[c].pc.StopWait?
    ensures var t := Settle(s, d, env); Live(t.conns[d].pc) && c in t.conns && t.conns[c] == s.conns[c]
    decreases Rank(s.conns[d].pc)
  {
    hide Advance;
    if !Resting(s.conns[d].pc) {
      AdvanceRank(s, d, env);
      AdvanceLive(s, d, c, env);
      SettleLive(Advance(s, d, env), d, c, env);
    }
  }

  /** A live connection can be brought to where it is read from. */
  lemma BringToReading(start: nat, actions: seq<Action>, s: State, d: ConnId, c: ConnId, env: Env)
    returns (more: seq<Action>, t: State)
    requires Exec(start, actions) == Some(s) && c in s.conns && !s.conns[c].pc.StopWait? && env.selfAlive
    requires d in s.conns && d != c && Live(s.conns[d].pc)
    ensures Reaches(start, actions, more, t) && Ready(t, d, c, s.conns[c])
  {
    hide Exec, Handler, Settle;
    SettleLive(s, d, c, env);
    more := SettleIsRun(start, actions, s, d, env);
    t := Settle(s, d, env);
    if t.conns[d].pc.StopWait? {
      var a := if t.conns[d].pc.woken then StopNotified(d) else StopTimedOut(d);
      if t.conns[d].pc.woken {
        WokenEnds(t, d, env);
      } else {
        TimeOut(t, d, env);
      }
      more := Handled(start, actions, more, t, a, env);
      t := Handler(t, a, env);
    }
  }

  /** A client to read from: a new one, or one there already. */
  lemma FindClient(start: nat, actions: seq<Action>, s: State, c: ConnId, env: Env)
    returns (more: seq<Action>, t: State, d: ConnId)
    requires Exec(start, actions) == Some(s) && c in s.conns && Pending(s.conns[c].pc) && env.selfAlive
    requires Stirring(s) && !ClearAhead(s.tasks.main)
    ensures Reaches(start, actions, more, t) && Ready(t, d, c, s.conns[c])
  {
    hide Exec, Handler;
    if s.tasks.accepting {
      assert actions + [] == actions;
      d := Unused(s.conns.Keys);
      assert d !in s.conns;
      Onward(start, actions, [], s, Connect(d));
      more, t := [] + [Connect(d)], Step(s, Connect(d));
    } else {
      d :| d in s.conns && d != c && Live(s.conns[d].pc);
      more, t := BringToReading(start, actions, s, d, c, env);
    }
  }

  lemma Empties(start: nat, actions: seq<Action>, s: State, c: ConnId, env: Env) returns (more: seq<Action>, t: State)
    requires Exec(start, actions) == Some(s) && Stirring(s) && c in s.conns && Pending(s.conns[c].pc) && env.selfAlive
    ensures Reaches(start, actions, more, t) && t.core.routes == map[]
    ensures c in t.conns && t.conns[c] == s.conns[c]
  {
    hide Exec;
    assert actions + [] == actions;
    if ClearAhead(s.tasks.main) {
      more, t := MainEmpties(start, actions, [], s);
    } else {
      var d;
      more, t, d := FindClient(start, actions, s, c, env);
      more, t := ClientEmpties(start, actions, more, t, d, c, env);
    }
  }

  // ---------------------------------------------------------------------------------------------
  // Exactly when a route can enter late
  // ---------------------------------------------------------------------------------------------

  lemma NewIsNew(s: State, t: State, routes: Routes)
    requires Inv(s) && Continues(s, t) && HasNew(t.past, routes)
    ensures !NoNewRoute(s.core.routes, routes)
  {
    var k :| k in routes && routes[k].ownerSession !in t.past.born;
    assert k in s.core.routes ==> s.core.routes[k].ownerSession in s.past.born;
  }

  lemma PendingEnters(start: nat, actions: seq<Action>, c: ConnId, env: Env) returns (more: seq<Action>)
    requires Exec(start, actions).Some? && Stirring(Exec(start, actions).value) && env.selfAlive
    requires c in Exec(start, actions).value.conns && Pending(Exec(start, actions).value.conns[c].pc)
    ensures Enters(start, actions, more)
  {
    hide Exec, Inv, Stirring, Serviceable, NoNewRoute, HasNew, Continues;
    var s := Exec(start, actions).value;
    var t;
    more, t := Empties(start, actions, s, c, env);
    ExecKeepsInv(start, actions);
    ExecKeepsInv(start, actions + more);
    ExecContinues(start, actions, more);
    var u;
    AcceptableFacts(map[], map[], t.conns[c].pc.port, t.conns[c].pc.slug);
    more, u := EntersNow(start, actions, more, t, c, env);
    NewIsNew(s, t, u.core.routes);
  }

  // ---------------------------------------------------------------------------------------------
  // With nothing left but one live connection and others hanging up
  // ---------------------------------------------------------------------------------------------

  /** A connection whose peer hung up is about to take this session's routes out. */
  ghost predicate Leaving(conns: map<ConnId, Conn>, session: nat) {
    exists d :: d in conns && Departs(conns[d].pc) && conns[d].pc.session == session
  }

  predicate Departs(pc: Pc) { pc.Removing? && pc.stage.AtRegistry? && pc.after.ThenClosed? }

  /** The routes that stay when all those are gone. */
  ghost function Staying(s: State): Routes {
    map k | k in s.core.routes && !Leaving(s.conns, s.core.routes[k].ownerSession) :: s.core.routes[k]
  }

  /** Nothing but `c` is left to act on its own. */
  ghost predicate Alone(s: State, c: ConnId) {
    && !s.tasks.accepting && !ClearAhead(s.tasks.main)
    && c in s.conns
    && (forall d :: d in s.conns && d != c ==> !Live(s.conns[d].pc))
  }

  /** `c` still asks for this port and name, and all of `kept` is there to stay. */
  ghost predicate Waits(s: State, c: ConnId, port: u16, requested: Option<string>, kept: Routes) {
    && Alone(s, c)
    && (s.conns[c].pc.RegDraw? || s.conns[c].pc.RegInsert?)
    && s.conns[c].pc.port == port && s.conns[c].pc.slug == requested
    && NoNewRoute(s.core.routes, kept)
    && (forall k :: k in kept ==> !Leaving(s.conns, kept[k].ownerSession))
  }

  /** A hanging-up connection's next access. */
  lemma DepartureWaits(s: State, d: ConnId, env: Env, c: ConnId, port: u16, requested: Option<string>, kept: Routes)
    requires Waits(s, c, port, requested, kept) && d in s.conns && d != c && !Resting(s.conns[d].pc)
    ensures Waits(Advance(s, d, env), c, port, requested, kept)
    ensures NoNewRoute(s.core.routes, Advance(s, d, env).core.routes)
  {
    assert !Live(s.conns[d].pc);
    var Removing(session, stage, after) := s.conns[d].pc;
    var s' := AdvanceRemove(s, d, session, stage, after);
    match stage
    case AtRegistry =>
      assert forall k :: k in kept ==> kept[k].ownerSession != session by {
        assert Departs(s.conns[d].pc);
      }
      StillWaits(s, s', d, c, port, requested, kept);
    case AtOwners => StillWaits(s, s', d, c, port, requested, kept);
    case AtAcks => AckWaits(s, d, session, after, c, port, requested, kept);
    case AtEmptyTest => StillWaits(s, s', d, c, port, requested, kept);
    case AtIdleWrite => StillWaits(s, s', d, c, port, requested, kept);
  }

  /** Where nobody else hangs up, no other session leaves. */
  lemma FewerLeave(conns: map<ConnId, Conn>, conns': map<ConnId, Conn>)
    requires forall e :: e in conns' && Departs(conns'[e].pc) ==> e in conns && conns[e] == conns'[e]
    ensures forall i :: Leaving(conns', i) ==> Leaving(conns, i)
  {
    forall i | Leaving(conns', i) ensures Leaving(conns, i) {
      var e :| e in conns' && Departs(conns'[e].pc) && conns'[e].pc.session == i;
      assert Departs(conns[e].pc);
    }
  }

  lemma StillWaits(s: State, s': State, d: ConnId, c: ConnId, port: u16, requested: Option<string>, kept: Routes)
    requires Waits(s, c, port, requested, kept) && d in s.conns && d != c && d in s'.conns
    requires s'.conns == s.conns[d := s'.conns[d]] && s'.tasks == s.tasks
    requires !Live(s'.conns[d].pc) && !Departs(s'.conns[d].pc)
    requires NoNewRoute(s'.core.routes, kept)
    ensures Waits(s', c, port, requested, kept)
  {
    FewerLeave(s.conns, s'.conns);
  }

  lemma AckWaits(s: State, d: ConnId, session: nat, after: After, c: ConnId, port: u16, requested: Option<string>, kept: Routes)
    requires Waits(s, c, port, requested, kept) && d in s.conns && d != c
    requires s.conns[d].pc == Removing(session, AtAcks, after) && after.ThenClosed?
    ensures Waits(RemoveAck(s, d, session, after), c, port, requested, kept)
  {
    var s' := RemoveAck(s, d, session, after);
    forall e | e in s.conns && e != c && e != d ensures s'.conns[e] == s.conns[e] {
      assert !Live(s.conns[e].pc);
    }
    assert s'.conns == s.conns[d := s'.conns[d]];
    StillWaits(s, s', d, c, port, requested, kept);
  }

  /** `c` itself draws its session id, or asks the registry and is refused. */
  lemma AskingWaits(s: State, c: ConnId, env: Env, port: u16, requested: Option<string>, kept: Routes)
    requires Waits(s, c, port, requested, kept) && !Acceptable(kept, port, requested)
    ensures var s' := Advance(s, c, env);
            NoNewRoute(s.core.routes, s'.core.routes) && (Waits(s', c, port, requested, kept) || NonePending(s'.conns))
  {
    if s.conns[c].pc.RegDraw? {
      DrawFacts(s, c, env);
      DrawWaits(s, c, env, port, requested, kept);
    } else {
      var RegInsert(session, _, _, pid) := s.conns[c].pc;
      AcceptableFacts(s.core.routes, kept, port, requested);
      RegisterAccepts(s.core.routes, port, requested, session, pid, env.draws);
      hide Registry.Register;
      var error := Registry.Register(s.core.routes, port, requested, session, pid, env.draws).error;
      assert Advance(s, c, env) == Goto(s, c, Answer(ErrorMessage(error)));
    }
  }

  lemma DrawWaits(s: State, c: ConnId, env: Env, port: u16, requested: Option<string>, kept: Routes)
    requires Waits(s, c, port, requested, kept) && s.conns[c].pc.RegDraw?
    ensures Waits(AdvanceRegister(s, c, env), c, port, requested, kept)
  {
    var s' := AdvanceRegister(s, c, env);
    DrawFacts(s, c, env);
    hide AdvanceRegister;
    FewerLeave(s.conns, s'.conns);
  }

  lemma WaitingStep(s: State, a: Action, c: ConnId, port: u16, requested: Option<string>, kept: Routes)
    requires Waits(s, c, port, requested, kept) && !Acceptable(kept, port, requested) && Enabled(s, a)
    ensures var s' := Step(s, a);
            NoNewRoute(s.core.routes, s'.core.routes) && (Waits(s', c, port, requested, kept) || NonePending(s'.conns))
  {
    hide Advance, Acceptable;
    if a.Move? {
      hide Waits;
      if a.conn == c {
        AskingWaits(s, c, a.env, port, requested, kept);
      } else {
        DepartureWaits(s, a.conn, a.env, c, port, requested, kept);
      }
    } else {
      IdlyWaits(s, a, c, port, requested, kept);
    }
  }

  /** No other step is possible but those of monitor, main loop, signals and clock. */
  lemma IdlyWaits(s: State, a: Action, c: ConnId, port: u16, requested: Option<string>, kept: Routes)
    requires Waits(s, c, port, requested, kept) && Enabled(s, a) && !a.Move?
    ensures var s' := Step(s, a);
            s'.core.routes == s.core.routes && Waits(s', c, port, requested, kept)
  {
    assert forall d :: d in s.conns ==> !s.conns[d].pc.Reading? && !s.conns[d].pc.StopWait? by {
      assert forall d :: d in s.conns && d != c ==> !Live(s.conns[d].pc);
    }
    hide NoNewRoute;
    var s' := Step(s, a);
    assert s'.conns == s.conns && s'.core.routes == s.core.routes;
    assert !s'.tasks.accepting && !ClearAhead(s'.tasks.main);
  }

  lemma {:induction false} NoneEntersAlone(
    start: nat, actions: seq<Action>, more: seq<Action>, c: ConnId, port: u16, requested: Option<string>, kept: Routes
  )
    requires Exec(start, actions + more).Some? && Exec(start, actions).Some?
    requires var s := Exec(start, actions).value; s.core.shuttingDown && Waits(s, c, port, requested, kept)
    requires !Acceptable(kept, port, requested)
    ensures var s, t := Exec(start, actions).value, Exec(start, actions + more).value;
            NoNewRoute(s.core.routes, t.core.routes) && t.core.shuttingDown
            && (Waits(t, c, port, requested, kept) || NonePending(t.conns))
    decreases |more|
  {
    hide Step, Enabled, NonePending, Acceptable, Waits;
    if more == [] {
      assert actions + more == actions;
    } else {
      var n := |more| - 1;
      assert (actions + more)[..|actions + more| - 1] == actions + more[..n];
      NoneEntersAlone(start, actions, more[..n], c, port, requested, kept);
      var u := Exec(start, actions + more[..n]).value;
      ExecKeepsInv(start, actions + more[..n]);
      StepContinues(u, more[n]);
      if NonePending(u.conns) {
        StepPendsNone(u, more[n]);
        StepAddsNone(start, actions + more[..n], more[n]);
      } else {
        WaitingStep(u, more[n], c, port, requested, kept);
      }
    }
  }

  ghost function DepartingConns(conns: map<ConnId, Conn>): set<ConnId> {
    set d | d in conns && Departs(conns[d].pc)
  }

  /** Everything hanging up leaves; then no route of a leaving session is left. */
  lemma {:induction false} AllDepart(start: nat, actions: seq<Action>, more: seq<Action>, s: State, c: ConnId, env: Env, staying: Routes)
    returns (more': seq<Action>, t: State)
    requires Reaches(start, actions, more, s) && c in s.conns && !s.conns[c].pc.Removing?
    requires forall k :: k in s.core.routes && !Leaving(s.conns, s.core.routes[k].ownerSession) ==>
               k in staying && staying[k] == s.core.routes[k]
    ensures Reaches(start, actions, more', t) && c in t.conns && t.conns[c] == s.conns[c]
    ensures NoNewRoute(staying, t.core.routes)
    decreases |DepartingConns(s.conns)|
  {
    hide Exec;
    more', t := more, s;
    if DepartingConns(s.conns) == {} {
      forall k | k in s.core.routes ensures !Leaving(s.conns, s.core.routes[k].ownerSession) {
        assert forall d :: d in s.conns && Departs(s.conns[d].pc) ==> d in DepartingConns(s.conns);
      }
    } else {
      var d :| d in DepartingConns(s.conns);
      OneDeparts(s, d, env, staying);
      Onward(start, actions, more, s, Move(d, env));
      more', t := AllDepart(start, actions, more + [Move(d, env)], Advance(s, d, env), c, env, staying);
    }
  }

  lemma OneDeparts(s: State, d: ConnId, env: Env, staying: Routes)
    requires d in s.conns && Departs(s.conns[d].pc)
    requires forall k :: k in s.core.routes && !Leaving(s.conns, s.core.routes[k].ownerSession) ==>
               k in staying && staying[k] == s.core.routes[k]
    ensures var t := Advance(s, d, env);
            && (forall k :: k in t.core.routes && !Leaving(t.conns, t.core.routes[k].ownerSession) ==>
                  k in staying && staying[k] == t.core.routes[k])
            && (forall e :: e in s.conns && e != d ==> e in t.conns && t.conns[e] == s.conns[e])
            && |DepartingConns(t.conns)| < |DepartingConns(s.conns)|
  {
    var session, after := s.conns[d].pc.session, s.conns[d].pc.after;
    var t := RemoveRoutes(s, d, session, after);
    assert t == Advance(s, d, env);
    hide Advance;
    assert DepartingConns(t.conns) == DepartingConns(s.conns) - {d};
    forall i | Leaving(s.conns, i) && i != session ensures Leaving(t.conns, i) {
      var e :| e in s.conns && Departs(s.conns[e].pc) && s.conns[e].pc.session == i;
      assert Departs(t.conns[e].pc);
    }
  }

  lemma LonePendingEnters(start: nat, actions: seq<Action>, c: ConnId, env: Env) returns (more: seq<Action>)
    requires Exec(start, actions).Some?
    requires c in Exec(start, actions).value.conns && Pending(Exec(start, actions).value.conns[c].pc)
    requires var s := Exec(start, actions).value; Acceptable(Staying(s), s.conns[c].pc.port, s.conns[c].pc.slug)
    ensures Enters(start, actions, more)
  {
    hide Exec, Inv, Serviceable, HasNew, Continues, Acceptable;
    var s := Exec(start, actions).value;
    assert actions + [] == actions;
    var t;
    more, t := AllDepart(start, actions, [], s, c, env, Staying(s));
    ExecKeepsInv(start, actions);
    ExecKeepsInv(start, actions + more);
    ExecContinues(start, actions, more);
    AcceptableFacts(Staying(s), t.core.routes, s.conns[c].pc.port, s.conns[c].pc.slug);
    var u;
    more, u := EntersNow(start, actions, more, t, c, env);
    NewIsNew(s, t, u.core.routes);
  }

  // ---------------------------------------------------------------------------------------------
  // The exact condition
  // ---------------------------------------------------------------------------------------------

  /** A registration past the check whose request can still be met: with something left that can
      empty the registry, any serviceable one; otherwise one the registry takes once those hanging
      up have left. */
  ghost predicate CanEnter(s: State, c: ConnId) {
    && c in s.conns && Pending(s.conns[c].pc)
    && (Stirring(s) || Acceptable(Staying(s), s.conns[c].pc.port, s.conns[c].pc.slug))
  }

  lemma LoneIsAlone(s: State, c: ConnId)
    requires !Stirring(s) && c in s.conns && Pending(s.conns[c].pc)
    ensures Waits(s, c, s.conns[c].pc.port, s.conns[c].pc.slug, Staying(s))
  {
    assert Live(s.conns[c].pc);
  }

  lemma NoneCanEnter(start: nat, actions: seq<Action>, more: seq<Action>)
    requires Exec(start, actions + more).Some? && Exec(start, actions).Some?
    requires var s := Exec(start, actions).value; s.core.shuttingDown && forall c :: c in s.conns ==> !CanEnter(s, c)
    ensures NoNewRoute(Exec(start, actions).value.core.routes, Exec(start, actions + more).value.core.routes)
  {
    hide Exec, Stirring, Acceptable, Serviceable;
    var s := Exec(start, actions).value;
    if NonePending(s.conns) {
      NoRouteEntersAfterShutdown(start, actions, more);
    } else {
      var c :| c in s.conns && Pending(s.conns[c].pc);
      LoneIsAlone(s, c);
      NoneEntersAlone(start, actions, more, c, s.conns[c].pc.port, s.conns[c].pc.slug, Staying(s));
    }
  }

  /** While the daemon shuts down, some continuation lets a route in if and only if some registration
      past the check can still be met. */
  lemma EntersExactly(start: nat, actions: seq<Action>)
    requires Exec(start, actions).Some? && Exec(start, actions).value.core.shuttingDown
    ensures (exists more :: Enters(start, actions, more)) <==>
            var s := Exec(start, actions).value; exists c :: CanEnter(s, c)
  {
    hide Exec, Stirring, Pending, NoNewRoute, Acceptable, Staying;
    var s := Exec(start, actions).value;
    if c :| CanEnter(s, c) {
      var env := Env(seq(Slug.GENERATED_SLUG_RANDOM_ATTEMPTS, _ => Slug.Draw(0, 0)), true, true);
      if Stirring(s) {
        var _ := PendingEnters(start, actions, c, env);
      } else {
        var _ := LonePendingEnters(start, actions, c, env);
      }
    } else {
      forall more ensures !Enters(start, actions, more) {
        if Exec(start, actions + more).Some? {
          NoneCanEnter(start, actions, more);
        }
      }
    }
  }

  /** In particular, with something left that can empty the registry: if and only if any serviceable
      registration is past the check. */
  lemma EntersWhileStirring(start: nat, actions: seq<Action>)
    requires Exec(start, actions).Some? && Exec(start, actions).value.core.shuttingDown
    requires Stirring(Exec(start, actions).value)
    ensures (exists more :: Enters(start, actions, more)) <==> !NonePending(Exec(start, actions).value.conns)
  {
    hide Exec, Stirring, Pending, Enters, Acceptable;
    EntersExactly(start, actions);
    var s := Exec(start, actions).value;
    if !NonePending(s.conns) {
      var c :| c in s.conns && Pending(s.conns[c].pc);
      assert CanEnter(s, c);
    }
  }
}
