/** `Shared` and its handlers (`src/daemon/mod.rs`) in place: each method is one handler that no
    other overlaps, and does to the fields what `DaemonSettles` shows the state machine's handler,
    run through, to do to its core. */
module DaemonShared {
  import opened Wrappers
  import opened Protocol
  import opened Registry
  import opened Daemon
  import opened DaemonSettles
  import Slug

  class Shared {
    const registry: RouteRegistry
    var owners: map<nat, ConnId>
    var acknowledgements: map<nat, Token>
    var nextSession: nat
    var shuttingDown: bool
    var idleSince: Option<nat>

    ghost predicate Valid()
      reads this, registry
    {
      registry.Valid()
    }

    ghost function Contents(): Core
      reads this, registry
    {
      Core(registry.bySlug, owners, acknowledgements, nextSession, shuttingDown, idleSince)
    }

    constructor ()
      ensures Valid() && fresh(registry)
      ensures Contents() == Core(map[], map[], map[], 1, false, None)
    {
      registry := new RouteRegistry();
      owners, acknowledgements, nextSession, shuttingDown, idleSince := map[], map[], 1, false, None;
    }

    /** No tick cancels an active daemon, however late. */
    method MarkActive()
      requires Valid()
      modifies this`idleSince
      ensures Valid() && Contents() == old(Contents()).(idleSince := None)
      ensures forall now :: !TickOutcome(Contents(), now).1
    {
      idleSince := None;
    }

    /** Makes the idle time exact, unless it is set with a route active, and never moves one that
        is set. */
    method MarkIdleIfEmpty(now: nat)
      requires Valid()
      modifies this`idleSince
      ensures Valid() && Contents() == IdleIfEmpty(old(Contents()), now)
      ensures (old(idleSince).Some? ==> registry.bySlug == map[]) ==> (idleSince.Some? <==> registry.bySlug == map[])
      ensures old(idleSince).Some? ==> idleSince == old(idleSince)
    {
      if registry.bySlug == map[] {
        if idleSince.None? {
          idleSince := Some(now);
        }
      }
    }

    /** Also tells which token, if any, was notified. */
    method RemoveSession(session: nat, now: nat) returns (notified: Option<Token>)
      requires Valid()
      modifies this, registry
      ensures Valid() && Contents() == Removed(old(Contents()), session, now)
      ensures Exact(old(Contents())) ==> Exact(Contents())
      ensures notified ==
              if session in old(acknowledgements) then Some(old(acknowledgements)[session]) else None
    {
      var _ := registry.RemoveSession(session);
      owners := owners - {session};
      notified := if session in acknowledgements then Some(acknowledgements[session]) else None;
      acknowledgements := acknowledgements - {session};
      MarkIdleIfEmpty(now);
      assert old(registry.bySlug) == map[] ==> registry.bySlug == map[];
    }

    /** The `Register` arm, for a connection that owns no session. */
    method RegisterRoute(conn: ConnId, port: u16, slug: Option<string>, pid: nat, draws: Slug.Draws)
      returns (owned: Option<nat>, reply: ServerMessage)
      requires Valid()
      modifies this, registry
      ensures Valid()
      ensures (Contents(), owned, reply) == RegisterOutcome(old(Contents()), conn, port, slug, pid, draws)
    {
      hide Registry.Register;
      if shuttingDown {
        return None, Error(DaemonShuttingDown);
      }
      var session := nextSession;
      nextSession := nextSession + 1;
      RegisterMeaning(registry.bySlug, port, slug, session, pid, draws);
      var registration := registry.RegisterWithRng(port, slug, session, pid, draws);
      match registration {
        case Ok(route) =>
          owners := owners[session := conn];
          MarkActive();
          return Some(session), Registered(route);
        case Err(error) =>
          return None, ErrorMessage(error);
      }
    }

    /** The first half of `stop_route`: the route, and the owner to tell. */
    method RequestStop(selector: StopSelector, token: Token) returns (route: Option<Route>, owner: Option<ConnId>)
      requires Valid()
      modifies this`acknowledgements
      ensures Valid() && (Contents(), route, owner) == StopOutcome(old(Contents()), selector, token)
    {
      route := registry.ResolveSelector(selector);
      if route.None? {
        return route, None;
      }
      var session := route.value.ownerSession;
      acknowledgements := acknowledgements[session := token];
      owner := if session in owners then Some(owners[session]) else None;
    }

    /** `kill_daemon`: the connections to tell, and the reply. */
    method KillDaemon() returns (told: set<ConnId>, reply: ServerMessage)
      requires Valid()
      modifies this`shuttingDown, registry
      ensures Valid() && (Contents(), told, reply) == KillOutcome(old(Contents()))
    {
      if shuttingDown {
        return {}, Error(DaemonShuttingDown);
      }
      shuttingDown := true;
      var routes := registry.Clear();
      return owners.Values, KillAccepted(|routes|);
    }

    /** `broadcast_fatal`: the connections to tell. */
    method BroadcastFatal() returns (told: set<ConnId>)
      requires Valid()
      modifies this`shuttingDown, registry
      ensures Valid() && told == owners.Values && Contents() == Failed(old(Contents()))
    {
      shuttingDown := true;
      told := owners.Values;
      var _ := registry.Clear();
    }

    /** One tick of the idle monitor: with an exact idle time, only a daemon without routes is
        cancelled. */
    method IdleTick(now: nat) returns (cancel: bool)
      requires Valid()
      modifies this`shuttingDown
      ensures Valid() && (Contents(), cancel) == TickOutcome(old(Contents()), now)
      ensures Exact(old(Contents())) && !old(shuttingDown) && cancel ==> registry.bySlug == map[]
    {
      cancel := idleSince.Some? && now - idleSince.value >= DAEMON_IDLE_TIMEOUT;
      if cancel {
        shuttingDown := true;
      }
    }
  }
}
