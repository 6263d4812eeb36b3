/** The route registry (`src/registry.rs`).

    Specified by one map from slugs to routes; the class keeps three hash maps, and its
    invariant says that the other two are exactly the indexes of the first. */
module Registry {
  import opened Wrappers
  import opened Text
  import opened Protocol
  import Slug

  datatype Route = Route(slug: string, port: u16, ownerSession: nat, ownerPid: nat)

  type Routes = map<string, Route>

  datatype RegistryError =
    | InvalidPort(port: u16)
    | DuplicatePort(port: u16, slug: string)
    | InvalidSlug(input: string, reason: Slug.Reason)
    | DuplicateSlug(slug: string)
    | NamesExhausted

  // ---------------------------------------------------------------------------------------------
  // The specification: one map
  // ---------------------------------------------------------------------------------------------

  /** Routes are stored under their own slug, on nonzero ports ... */
  ghost predicate Stored(m: Routes) {
    forall k :: k in m ==> m[k].slug == k && m[k].port != 0
  }

  /** ... which are pairwise distinct ... */
  ghost predicate DistinctPorts(m: Routes) {
    forall k, l {:trigger m[k].port, m[l].port} :: k in m && l in m && m[k].port == m[l].port ==> k == l
  }

  /** ... and their slugs are valid. */
  ghost predicate ValidNames(m: Routes) {
    forall k {:trigger Slug.IsSlug(k)} :: k in m ==> Slug.IsSlug(k)
  }

  ghost predicate WellFormed(m: Routes) {
    Stored(m) && DistinctPorts(m) && ValidNames(m)
  }

  predicate PortTaken(m: Routes, port: u16) {
    exists k :: k in m && m[k].port == port
  }

  /** `ports` is the index of `m` by port. */
  ghost predicate IndexesPorts(ports: map<u16, string>, m: Routes) {
    && (forall p :: p in ports ==> ports[p] in m && m[ports[p]].port == p)
    && (forall k :: k in m ==> m[k].port in ports && ports[m[k].port] == k)
  }

  /** `sessions` is the index of `m` by owning session; no session has an empty set. */
  ghost predicate IndexesSessions(sessions: map<nat, set<string>>, m: Routes) {
    && (forall s :: s in sessions ==> sessions[s] != {})
    && (forall s, k :: s in sessions && k in sessions[s] ==> k in m && m[k].ownerSession == s)
    && (forall k :: k in m ==> m[k].ownerSession in sessions && k in sessions[m[k].ownerSession])
  }

  /** Three maps that are the indexes of one registry. */
  ghost predicate Consistent(m: Routes, ports: map<u16, string>, sessions: map<nat, set<string>>) {
    WellFormed(m) && IndexesPorts(ports, m) && IndexesSessions(sessions, m)
  }

  ghost function RouteOnPort(m: Routes, port: u16): Option<Route> {
    if PortTaken(m, port) then
      var k :| k in m && m[k].port == port;
      Some(m[k])
    else None
  }

  ghost function Resolve(m: Routes, selector: StopSelector): Option<Route> {
    match selector
    case Slug(slug) => if slug in m then Some(m[slug]) else None
    case Port(port) => RouteOnPort(m, port)
  }

  /** The slug a registration gets, or why it gets none. */
  function ChooseSlug(taken: set<string>, requested: Option<string>, draws: Slug.Draws): Result<string, RegistryError> {
    match requested
    case Some(text) => (
      match Slug.NormalizeSlug(text)
      case Err(error) => Err(InvalidSlug(error.input, error.reason))
      case Ok(slug) => if slug in taken then Err(DuplicateSlug(slug)) else Ok(slug))
    case None =>
      match Slug.UniqueSlug(draws, taken)
      case Some(slug) => Ok(slug)
      case None => Err(NamesExhausted)
  }

  ghost function Register(
    m: Routes, port: u16, requested: Option<string>, session: nat, pid: nat, draws: Slug.Draws
  ): Result<Route, RegistryError> {
    if port == 0 then Err(InvalidPort(port))
    else if PortTaken(m, port) then Err(DuplicatePort(port, RouteOnPort(m, port).value.slug))
    else
      match ChooseSlug(m.Keys, requested, draws)
      case Err(error) => Err(error)
      case Ok(slug) => Ok(Route(slug, port, session, pid))
  }

  function WithoutSession(m: Routes, session: nat): Routes {
    map k | k in m && m[k].ownerSession != session :: m[k]
  }

  function OfSession(m: Routes, session: nat): Routes {
    map k | k in m && m[k].ownerSession == session :: m[k]
  }

  /** `routes` lists every route of `m` once, in ascending order of slugs. */
  ghost predicate Lists(routes: seq<Route>, m: Routes) {
    && Keyed(routes, (r: Route) => r.slug)
    && (forall i :: 0 <= i < |routes| ==> routes[i].slug in m && m[routes[i].slug] == routes[i])
    && (forall k :: k in m ==> m[k] in routes)
  }

  function View(route: Route, baseDomain: string): RouteView {
    NewRouteView(route.slug, route.port, baseDomain)
  }

  /** `views` shows every route of `m` once, in ascending order of slugs. */
  ghost predicate ListsViews(views: seq<RouteView>, m: Routes, baseDomain: string) {
    && Keyed(views, (v: RouteView) => v.slug)
    && (forall i :: 0 <= i < |views| ==> views[i].slug in m && views[i] == View(m[views[i].slug], baseDomain))
    && (forall k :: k in m ==> View(m[k], baseDomain) in views)
  }

  /** Strictly ascending in the given key. */
  ghost predicate Keyed<T(!new)>(xs: seq<T>, key: T -> string) {
    forall i, j :: 0 <= i < j < |xs| ==> Less(key(xs[i]), key(xs[j]))
  }

  // ---------------------------------------------------------------------------------------------
  // Sorting by a key (`sort_unstable_by`)
  // ---------------------------------------------------------------------------------------------

  function Insert<T>(x: T, xs: seq<T>, key: T -> string): seq<T> {
    if xs == [] || Less(key(x), key(xs[0])) then [x] + xs else [xs[0]] + Insert(x, xs[1..], key)
  }

  function Sorted<T>(xs: seq<T>, key: T -> string): seq<T> {
    if xs == [] then [] else Insert(xs[0], Sorted(xs[1..], key), key)
  }

  lemma {:induction false} InsertKeyed<T(!new)>(x: T, xs: seq<T>, key: T -> string)
    requires Keyed(xs, key)
    requires forall y :: y in xs ==> key(y) != key(x)
    ensures Keyed(Insert(x, xs, key), key)
    ensures forall y :: y in Insert(x, xs, key) <==> y == x || y in xs
  {
    if xs == [] {
    } else if Less(key(x), key(xs[0])) {
      forall i | 0 < i < |xs| ensures Less(key(x), key(xs[i])) {
        LessTransitive(key(x), key(xs[0]), key(xs[i]));
      }
    } else {
      LessTrichotomy(key(x), key(xs[0]));
      assert xs == [xs[0]] + xs[1..];
      InsertKeyed(x, xs[1..], key);
      var rest := Insert(x, xs[1..], key);
      forall i | 0 <= i < |rest| ensures Less(key(xs[0]), key(rest[i])) {
        assert rest[i] in rest;
        if rest[i] != x {
          var j :| 0 <= j < |xs[1..]| && xs[1..][j] == rest[i];
          assert xs[j + 1] == rest[i];
        }
      }
    }
  }

  /** Sorting elements with distinct keys yields the same elements in strictly ascending order. */
  lemma {:induction false} SortedKeyed<T(!new)>(xs: seq<T>, key: T -> string)
    requires forall i, j :: 0 <= i < j < |xs| ==> key(xs[i]) != key(xs[j])
    ensures Keyed(Sorted(xs, key), key)
    ensures forall y :: y in Sorted(xs, key) <==> y in xs
  {
    if xs != [] {
      SortedKeyed(xs[1..], key);
      forall y | y in Sorted(xs[1..], key) ensures key(y) != key(xs[0]) {
        var j :| 0 <= j < |xs[1..]| && xs[1..][j] == y;
        assert xs[j + 1] == y;
      }
      InsertKeyed(xs[0], Sorted(xs[1..], key), key);
      assert xs == [xs[0]] + xs[1..];
    }
  }

  // ---------------------------------------------------------------------------------------------
  // The three indexes
  // ---------------------------------------------------------------------------------------------

  /** `routes` holds every route of `m` once, in some order. */
  ghost predicate Enumerates(routes: seq<Route>, m: Routes) {
    && (forall i :: 0 <= i < |routes| ==> routes[i].slug in m && m[routes[i].slug] == routes[i])
    && (forall k :: k in m ==> m[k] in routes)
    && (forall i, j :: 0 <= i < j < |routes| ==> routes[i].slug != routes[j].slug)
  }

  lemma SortingLists(routes: seq<Route>, m: Routes)
    requires Enumerates(routes, m)
    ensures Lists(Sorted(routes, (r: Route) => r.slug), m)
  {
    var key := (r: Route) => r.slug;
    SortedKeyed(routes, key);
    var sorted := Sorted(routes, key);
    forall i | 0 <= i < |sorted| ensures sorted[i].slug in m && m[sorted[i].slug] == sorted[i] {
      assert sorted[i] in routes;
    }
  }

  lemma EnumerateOneMore(routes: seq<Route>, m: Routes, rest: set<string>, slug: string)
    requires rest <= m.Keys && slug in rest && m[slug].slug == slug
    requires Enumerates(routes, m - rest)
    ensures Enumerates(routes + [m[slug]], m - (rest - {slug}))
  {
    var m' := m - (rest - {slug});
    var routes' := routes + [m[slug]];
    forall k | k in m' ensures m'[k] in routes' {
      if k == slug {
        assert routes'[|routes|] == m'[k];
      } else {
        assert k in m - rest;
        assert m'[k] in routes;
      }
    }
  }

  /** The values of a map, in the arbitrary order of a hash map's iterator. */
  method Values(m: Routes) returns (routes: seq<Route>)
    requires Stored(m)
    ensures Enumerates(routes, m)
  {
    routes := [];
    var keys := m.Keys;
    while keys != {}
      invariant keys <= m.Keys
      invariant Enumerates(routes, m - keys)
    {
      var k :| k in keys;
      EnumerateOneMore(routes, m, keys, k);
      keys := keys - {k};
      routes := routes + [m[k]];
    }
    assert m - keys == m;
  }

  // ---------------------------------------------------------------------------------------------
  // Properties of the specification and its indexes
  // ---------------------------------------------------------------------------------------------

  lemma RegisterMeaning(
    m: Routes, port: u16, requested: Option<string>, session: nat, pid: nat, draws: Slug.Draws
  )
    ensures var r := Register(m, port, requested, session, pid, draws);
            r.Ok? ==>
              && r.value.slug !in m && !PortTaken(m, port)
              && r.value == Route(r.value.slug, port, session, pid)
              && Slug.IsSlug(r.value.slug)
  {
    match requested
    case Some(text) => Slug.NormalizeSlugMeaning(text);
    case None => Slug.UniqueSlugComplete(draws, m.Keys);
  }

  /** The port index decides whether a port is taken, and by whom. */
  lemma PortIndexFinds(m: Routes, ports: map<u16, string>, port: u16)
    requires WellFormed(m) && IndexesPorts(ports, m)
    ensures port in ports <==> PortTaken(m, port)
    ensures RouteOnPort(m, port) == if port in ports then Some(m[ports[port]]) else None
  {
  }

  lemma ListingViews(routes: seq<Route>, m: Routes, baseDomain: string)
    requires Enumerates(routes, m)
    ensures var views := seq(|routes|, i requires 0 <= i < |routes| => View(routes[i], baseDomain));
            ListsViews(Sorted(views, (v: RouteView) => v.slug), m, baseDomain)
  {
    var key := (v: RouteView) => v.slug;
    var views := seq(|routes|, i requires 0 <= i < |routes| => View(routes[i], baseDomain));
    SortedKeyed(views, key);
    var sorted := Sorted(views, key);
    forall i | 0 <= i < |sorted|
      ensures sorted[i].slug in m && sorted[i] == View(m[sorted[i].slug], baseDomain)
    {
      assert sorted[i] in views;
    }
    forall k | k in m ensures View(m[k], baseDomain) in sorted {
      assert m[k] in routes;
      var i :| 0 <= i < |routes| && routes[i] == m[k];
      assert views[i] == View(m[k], baseDomain);
    }
  }

  /** What a listing says of each route: its slug, its port, a local URL that tells the port, and the
      public URL of its host name; one view for each route. */
  lemma ListedViewsMeaning(views: seq<RouteView>, m: Routes, baseDomain: string, i: nat)
    requires Stored(m) && ListsViews(views, m, baseDomain) && i < |views|
    ensures var v := views[i];
            && v.slug in m && v.port == m[v.slug].port
            && IsLocalUrl(v.localUrl, m[v.slug].port)
            && v.publicUrl == "https://" + v.slug + "." + baseDomain
    ensures forall k :: k in m ==> exists j :: 0 <= j < |views| && views[j].slug == k
  {
    LoopbackUrlMeaning(views[i].port, views[i].port);
    assert "https://" + (views[i].slug + "." + baseDomain) == "https://" + views[i].slug + "." + baseDomain;
    forall k | k in m ensures exists j :: 0 <= j < |views| && views[j].slug == k {
      assert View(m[k], baseDomain) in views;
    }
  }

  lemma InsertKeepsWellFormed(m: Routes, route: Route)
    requires WellFormed(m)
    requires route.slug !in m && !PortTaken(m, route.port) && route.port != 0 && Slug.IsSlug(route.slug)
    ensures WellFormed(m[route.slug := route])
  {
  }

  lemma SubmapKeepsWellFormed(m: Routes, m': Routes)
    requires WellFormed(m) && forall k :: k in m' ==> k in m && m'[k] == m[k]
    ensures WellFormed(m')
  {
  }

  lemma RemoveKeepsPorts(m: Routes, ports: map<u16, string>, slug: string)
    requires IndexesPorts(ports, m) && slug in m
    ensures IndexesPorts(ports - {m[slug].port}, m - {slug})
  {
  }

  /** Inserting a route on a free port keeps the indexes. */
  lemma InsertKeepsConsistent(m: Routes, ports: map<u16, string>, sessions: map<nat, set<string>>, route: Route)
    requires Consistent(m, ports, sessions)
    requires route.slug !in m && !PortTaken(m, route.port) && route.port != 0 && Slug.IsSlug(route.slug)
    ensures var slugs := if route.ownerSession in sessions then sessions[route.ownerSession] else {};
            Consistent(
              m[route.slug := route],
              ports[route.port := route.slug],
              sessions[route.ownerSession := slugs + {route.slug}])
  {
    assert forall k :: k in m ==> m[k].port != route.port;
    InsertKeepsWellFormed(m, route);
  }

  /** The sessions without one slug; a session left without any goes too. */
  function SessionsWithout(sessions: map<nat, set<string>>, s: nat, slug: string): map<nat, set<string>>
    requires s in sessions
  {
    var slugs := sessions[s] - {slug};
    if slugs == {} then sessions - {s} else sessions[s := slugs]
  }

  lemma RemoveKeepsSessions(m: Routes, sessions: map<nat, set<string>>, slug: string)
    requires IndexesSessions(sessions, m) && slug in m
    ensures m[slug].ownerSession in sessions
    ensures IndexesSessions(SessionsWithout(sessions, m[slug].ownerSession, slug), m - {slug})
  {
  }

  /** So does removing one route ... */
  lemma RemoveKeepsConsistent(m: Routes, ports: map<u16, string>, sessions: map<nat, set<string>>, slug: string)
    requires Consistent(m, ports, sessions) && slug in m
    ensures var s := m[slug].ownerSession;
            && s in sessions
            && var slugs := sessions[s] - {slug};
               var updated := sessions[s := slugs];
               Consistent(m - {slug}, ports - {m[slug].port}, if slugs == {} then updated - {s} else updated)
  {
    hide WellFormed, IndexesPorts, IndexesSessions;
    SubmapKeepsWellFormed(m, m - {slug});
    RemoveKeepsPorts(m, ports, slug);
    RemoveKeepsSessions(m, sessions, slug);
    var s := m[slug].ownerSession;
    assert sessions[s := sessions[s] - {slug}] - {s} == sessions - {s};
  }

  /** ... and removing all routes of a session. */
  lemma WithoutSessionKeepsConsistent(
    m: Routes, ports: map<u16, string>, ports': map<u16, string>, sessions: map<nat, set<string>>, session: nat
  )
    requires Consistent(m, ports, sessions) && IndexesPorts(ports', WithoutSession(m, session))
    ensures Consistent(WithoutSession(m, session), ports', sessions - {session})
  {
    SubmapKeepsWellFormed(m, WithoutSession(m, session));
  }

  lemma SessionSlugs(m: Routes, sessions: map<nat, set<string>>, session: nat)
    requires IndexesSessions(sessions, m)
    ensures OfSession(m, session).Keys == if session in sessions then sessions[session] else {}
    ensures m - OfSession(m, session).Keys == WithoutSession(m, session)
    ensures session !in sessions ==> WithoutSession(m, session) == m && OfSession(m, session) == map[]
  {
  }

  lemma EnumerateRest(routes: seq<Route>, m: Routes)
    requires Enumerates(routes, m) && Stored(m) && routes != []
    ensures routes[0].slug in m
    ensures Enumerates(routes[1..], m - {routes[0].slug})
  {
    var rest := m - {routes[0].slug};
    forall k | k in rest ensures rest[k] in routes[1..] {
      assert m[k] in routes;
      var i :| 0 <= i < |routes| && routes[i] == m[k];
      assert i != 0;
      assert routes[1..][i - 1] == m[k];
    }
  }

  lemma NothingEnumerated(m: Routes)
    requires Enumerates([], m)
    ensures m == map[]
  {
  }

  lemma {:induction false} EnumerationLength(routes: seq<Route>, m: Routes)
    requires Enumerates(routes, m) && Stored(m)
    ensures |routes| == |m|
    decreases |routes|
  {
    hide Enumerates;
    if routes == [] {
      NothingEnumerated(m);
    } else {
      var slug := routes[0].slug;
      var rest := m - {slug};
      EnumerateRest(routes, m);
      EnumerationLength(routes[1..], rest);
      assert m.Keys == rest.Keys + {slug};
    }
  }

  lemma ListingIsEnumeration(routes: seq<Route>, m: Routes)
    requires Lists(routes, m)
    ensures Enumerates(routes, m)
  {
    var key := (r: Route) => r.slug;
    forall i, j | 0 <= i < j < |routes| ensures routes[i].slug != routes[j].slug {
      assert Less(key(routes[i]), key(routes[j]));
      LessTrichotomy(routes[i].slug, routes[j].slug);
    }
  }

  class RouteRegistry {
    var bySlug: Routes
    var slugByPort: map<u16, string>
    var slugsBySession: map<nat, set<string>>

    ghost predicate Valid()
      reads this
    {
      Consistent(bySlug, slugByPort, slugsBySession)
    }

    constructor ()
      ensures Valid() && bySlug == map[]
    {
      bySlug, slugByPort, slugsBySession := map[], map[], map[];
    }

    method RegisterWithRng(port: u16, requested: Option<string>, session: nat, pid: nat, draws: Slug.Draws)
      returns (r: Result<Route, RegistryError>)
      requires Valid()
      modifies this
      ensures Valid()
      ensures r == Register(old(bySlug), port, requested, session, pid, draws)
      ensures bySlug == if r.Ok? then old(bySlug)[r.value.slug := r.value] else old(bySlug)
    {
      if port == 0 {
        return Err(InvalidPort(port));
      }
      PortIndexFinds(bySlug, slugByPort, port);
      if port in slugByPort {
        return Err(DuplicatePort(port, slugByPort[port]));
      }
      var choice := PickSlug(requested, draws);
      if choice.Err? {
        return Err(choice.error);
      }
      var slug := choice.value;
      var route := Route(slug, port, session, pid);
      RegisterMeaning(bySlug, port, requested, session, pid, draws);
      InsertKeepsConsistent(bySlug, slugByPort, slugsBySession, route);
      bySlug := bySlug[slug := route];
      slugByPort := slugByPort[port := slug];
      var slugs := if session in slugsBySession then slugsBySession[session] else {};
      slugsBySession := slugsBySession[session := slugs + {slug}];
      r := Ok(route);
    }

    /** The slug selection of `register_with_rng`. */
    method PickSlug(requested: Option<string>, draws: Slug.Draws) returns (r: Result<string, RegistryError>)
      ensures r == ChooseSlug(bySlug.Keys, requested, draws)
    {
      match requested {
        case Some(text) =>
          match Slug.NormalizeSlug(text) {
            case Err(error) => return Err(InvalidSlug(error.input, error.reason));
            case Ok(slug) =>
              if slug in bySlug {
                return Err(DuplicateSlug(slug));
              }
              return Ok(slug);
          }
        case None =>
          var generated := Slug.GenerateUniqueSlug(draws, bySlug.Keys);
          match generated {
            case None => return Err(NamesExhausted);
            case Some(slug) => return Ok(slug);
          }
      }
    }

    method RouteForSlug(slug: string) returns (r: Option<Route>)
      requires Valid()
      ensures r == Resolve(bySlug, StopSelector.Slug(slug))
    {
      r := if slug in bySlug then Some(bySlug[slug]) else None;
    }

    method RouteForPort(port: u16) returns (r: Option<Route>)
      requires Valid()
      ensures r == Resolve(bySlug, Port(port))
    {
      PortIndexFinds(bySlug, slugByPort, port);
      if port in slugByPort {
        var slug := slugByPort[port];
        r := if slug in bySlug then Some(bySlug[slug]) else None;
      } else {
        r := None;
      }
    }

    method ResolveSelector(selector: StopSelector) returns (r: Option<Route>)
      requires Valid()
      ensures r == Resolve(bySlug, selector)
    {
      match selector
      case Slug(slug) => r := RouteForSlug(slug);
      case Port(port) => r := RouteForPort(port);
    }

    method List(baseDomain: string) returns (views: seq<RouteView>)
      requires Valid()
      ensures ListsViews(views, bySlug, baseDomain)
    {
      var routes := Values(bySlug);
      ListingViews(routes, bySlug, baseDomain);
      views := seq(|routes|, i requires 0 <= i < |routes| => View(routes[i], baseDomain));
      views := Sorted(views, (v: RouteView) => v.slug);
    }

    method RemoveSlug(slug: string) returns (removed: Option<Route>)
      requires Valid()
      modifies this
      ensures Valid()
      ensures removed == Resolve(old(bySlug), StopSelector.Slug(slug))
      ensures bySlug == old(bySlug) - {slug}
    {
      if slug !in bySlug {
        assert bySlug - {slug} == bySlug;
        return None;
      }
      var route := bySlug[slug];
      RemoveKeepsConsistent(bySlug, slugByPort, slugsBySession, slug);
      bySlug := bySlug - {slug};
      slugByPort := slugByPort - {route.port};
      if route.ownerSession in slugsBySession {
        var slugs := slugsBySession[route.ownerSession] - {slug};
        slugsBySession := slugsBySession[route.ownerSession := slugs];
        if slugs == {} {
          slugsBySession := slugsBySession - {route.ownerSession};
        }
      }
      removed := Some(route);
    }

    method RemoveOwnedSlug(session: nat, slug: string) returns (removed: Option<Route>)
      requires Valid()
      modifies this
      ensures Valid()
      ensures removed.Some? <==> slug in OfSession(old(bySlug), session)
      ensures removed.Some? ==> removed.value == old(bySlug)[slug] && bySlug == old(bySlug) - {slug}
      ensures removed.None? ==> bySlug == old(bySlug)
    {
      if slug !in bySlug || bySlug[slug].ownerSession != session {
        return None;
      }
      removed := RemoveSlug(slug);
    }

    method RemoveSession(session: nat) returns (removed: seq<Route>)
      requires Valid()
      modifies this
      ensures Valid()
      ensures bySlug == WithoutSession(old(bySlug), session)
      ensures Lists(removed, OfSession(old(bySlug), session))
    {
      ghost var m, ports, sessions := bySlug, slugByPort, slugsBySession;
      SessionSlugs(m, sessions, session);
      if session !in slugsBySession {
        return [];
      }
      var slugs := slugsBySession[session];
      slugsBySession := slugsBySession - {session};
      removed := RemoveAll(slugs, OfSession(m, session));
      WithoutSessionKeepsConsistent(m, ports, slugByPort, sessions, session);
      SortingLists(removed, OfSession(m, session));
      removed := Sorted(removed, (r: Route) => r.slug);
    }

    /** The loop of `remove_session`: drop these slugs from the slug and port maps. */
    method RemoveAll(doomed: set<string>, ghost mine: Routes) returns (removed: seq<Route>)
      requires Stored(bySlug) && IndexesPorts(slugByPort, bySlug)
      requires mine.Keys == doomed && forall k :: k in mine ==> k in bySlug && bySlug[k] == mine[k]
      modifies this`bySlug, this`slugByPort
      ensures bySlug == old(bySlug) - doomed
      ensures IndexesPorts(slugByPort, bySlug)
      ensures Enumerates(removed, mine)
    {
      var slugs := doomed;
      removed := [];
      while slugs != {}
        invariant slugs <= doomed
        invariant bySlug == old(bySlug) - (doomed - slugs)
        invariant IndexesPorts(slugByPort, bySlug)
        invariant Enumerates(removed, mine - slugs)
      {
        var slug :| slug in slugs;
        EnumerateOneMore(removed, mine, slugs, slug);
        slugs := slugs - {slug};
        if slug in bySlug {
          var route := bySlug[slug];
          RemoveKeepsPorts(bySlug, slugByPort, slug);
          bySlug := bySlug - {slug};
          slugByPort := slugByPort - {route.port};
          removed := removed + [route];
        }
      }
      assert mine - slugs == mine;
    }

    method Clear() returns (removed: seq<Route>)
      requires Valid()
      modifies this
      ensures Valid()
      ensures bySlug == map[]
      ensures Lists(removed, old(bySlug)) && |removed| == |old(bySlug)|
    {
      removed := Values(bySlug);
      SortingLists(removed, bySlug);
      removed := Sorted(removed, (r: Route) => r.slug);
      ListingIsEnumeration(removed, bySlug);
      EnumerationLength(removed, bySlug);
      bySlug := map[];
      slugByPort := map[];
      slugsBySession := map[];
    }
  }


  // ---------------------------------------------------------------------------------------------
  // Theorems
  // ---------------------------------------------------------------------------------------------

  /** One call that changes the registry. */
  datatype Operation =
    | DoRegister(port: u16, requested: Option<string>, session: nat, pid: nat, draws: Slug.Draws)
    | DoRemoveSession(session: nat)
    | DoRemoveSlug(slug: string)
    | DoClear

  ghost function Apply(m: Routes, op: Operation): Routes {
    match op
    case DoRegister(port, requested, session, pid, draws) => (
      match Register(m, port, requested, session, pid, draws)
      case Ok(route) => m[route.slug := route]
      case Err(_) => m)
    case DoRemoveSession(session) => WithoutSession(m, session)
    case DoRemoveSlug(slug) => m - {slug}
    case DoClear => map[]
  }

  ghost function ApplyAll(m: Routes, ops: seq<Operation>): Routes
    decreases |ops|
  {
    if ops == [] then m else ApplyAll(Apply(m, ops[0]), ops[1..])
  }

  /** Any sequence of calls on the three-index registry does to its contents what it does to the
      one map, and keeps the indexes consistent. */
  method Replay(registry: RouteRegistry, ops: seq<Operation>)
    requires registry.Valid()
    modifies registry
    ensures registry.Valid()
    ensures registry.bySlug == ApplyAll(old(registry.bySlug), ops)
  {
    var i := 0;
    while i < |ops|
      invariant 0 <= i <= |ops|
      invariant registry.Valid()
      invariant ApplyAll(old(registry.bySlug), ops) == ApplyAll(registry.bySlug, ops[i..])
    {
      assert ops[i..][0] == ops[i] && ops[i..][1..] == ops[i + 1..];
      match ops[i] {
        case DoRegister(port, requested, session, pid, draws) =>
          var _ := registry.RegisterWithRng(port, requested, session, pid, draws);
        case DoRemoveSession(session) =>
          var _ := registry.RemoveSession(session);
        case DoRemoveSlug(slug) =>
          var _ := registry.RemoveSlug(slug);
        case DoClear =>
          var _ := registry.Clear();
      }
      i := i + 1;
    }
  }

  /** Every sequence of calls keeps one route per slug and port, under valid names. */
  lemma {:induction false} ApplyAllKeepsWellFormed(m: Routes, ops: seq<Operation>)
    requires WellFormed(m)
    ensures WellFormed(ApplyAll(m, ops))
    decreases |ops|
  {
    if ops != [] {
      match ops[0] {
        case DoRegister(port, requested, session, pid, draws) =>
          RegisterMeaning(m, port, requested, session, pid, draws);
          var r := Register(m, port, requested, session, pid, draws);
          if r.Ok? {
            InsertKeepsWellFormed(m, r.value);
          }
        case _ => SubmapKeepsWellFormed(m, Apply(m, ops[0]));
      }
      ApplyAllKeepsWellFormed(Apply(m, ops[0]), ops[1..]);
    }
  }

  /** Exactly when a registration succeeds. */
  lemma RegisterAccepts(m: Routes, port: u16, requested: Option<string>, session: nat, pid: nat, draws: Slug.Draws)
    ensures Register(m, port, requested, session, pid, draws).Ok? <==>
            && port != 0 && !PortTaken(m, port)
            && match requested
               case Some(text) => Slug.IsSlug(Lower(text)) && Lower(text) !in m
               case None => exists draw: Slug.Draw :: Slug.GenerateSlug(draw) !in m
  {
    match requested
    case Some(text) => Slug.NormalizeSlugMeaning(text);
    case None => Slug.UniqueSlugComplete(draws, m.Keys);
  }

  /** Why a registration is refused, in the order of the checks: the port, the route already on it, the
      name asked for, the route already under it, no name left. */
  lemma RegisterRefuses(m: Routes, port: u16, requested: Option<string>, session: nat, pid: nat, draws: Slug.Draws)
    requires WellFormed(m)
    ensures var r := Register(m, port, requested, session, pid, draws);
            if port == 0 then r == Err(InvalidPort(0))
            else if exists k :: k in m && m[k].port == port
              then r.Err? && r.error.DuplicatePort? && r.error.port == port
                   && r.error.slug in m && m[r.error.slug].port == port
            else
              match requested
              case Some(text) =>
                if !Slug.IsSlug(Lower(text)) then r.Err? && r.error.InvalidSlug? && r.error.input == text
                else if Lower(text) in m then r == Err(DuplicateSlug(Lower(text)))
                else r == Ok(Route(Lower(text), port, session, pid))
              case None =>
                if forall draw: Slug.Draw :: Slug.GenerateSlug(draw) in m then r == Err(NamesExhausted)
                else r.Ok? && r.value.port == port && r.value.ownerSession == session && r.value.slug !in m
  {
    match requested
    case Some(text) => Slug.NormalizeSlugMeaning(text);
    case None => Slug.UniqueSlugComplete(draws, m.Keys);
  }

  /** An unnamed route is named by the first draw whose name is free. */
  lemma UnnamedIsFirstFree(m: Routes, port: u16, session: nat, pid: nat, draws: Slug.Draws, i: nat)
    requires port != 0 && !PortTaken(m, port) && Slug.FirstFreeDraw(draws, m.Keys, i)
    ensures Register(m, port, None, session, pid, draws) == Ok(Route(Slug.GenerateSlug(draws[i]), port, session, pid))
  {
    Slug.DrawsComeFirst(draws, m.Keys, i);
  }

  /** With fewer active routes than word pairs, an unnamed registration of a free port succeeds. */
  lemma UnnamedRegistrationSucceeds(m: Routes, port: u16, session: nat, pid: nat, draws: Slug.Draws)
    requires port != 0 && !PortTaken(m, port) && |m| < Slug.NAME_COUNT
    ensures Register(m, port, None, session, pid, draws).Ok?
  {
    assert |m.Keys| == |m|;
    Slug.UniqueSlugSucceeds(draws, m.Keys);
  }

  /** Slug and port selectors agree: a route is found by either, and whatever is found is active
      and bears the selector. */
  lemma ResolveAgrees(m: Routes, selector: StopSelector)
    requires WellFormed(m)
    ensures forall k :: k in m ==>
              Resolve(m, StopSelector.Slug(k)) == Some(m[k]) == Resolve(m, Port(m[k].port))
    ensures match Resolve(m, selector)
            case Some(route) =>
              && route.slug in m && m[route.slug] == route
              && selector == if selector.Slug? then StopSelector.Slug(route.slug) else Port(route.port)
            case None =>
              forall k :: k in m ==> selector != StopSelector.Slug(k) && selector != Port(m[k].port)
  {
    forall k | k in m ensures Resolve(m, Port(m[k].port)) == Some(m[k]) {
      assert PortTaken(m, m[k].port);
    }
  }

  /** Removing a session takes exactly its routes, once and for all. */
  lemma RemoveSessionExact(m: Routes, session: nat)
    ensures WithoutSession(m, session).Keys !! OfSession(m, session).Keys
    ensures WithoutSession(m, session) + OfSession(m, session) == m
    ensures WithoutSession(WithoutSession(m, session), session) == WithoutSession(m, session)
    ensures OfSession(WithoutSession(m, session), session) == map[]
  {
  }

  lemma SameSequence(a: seq<Route>, b: seq<Route>)
    requires a != [] && b != [] && a[0] == b[0] && a[1..] == b[1..]
    ensures a == b
  {
    assert a == [a[0]] + a[1..] && b == [b[0]] + b[1..];
  }

  /** A listing is determined by the contents of the registry. */
  lemma {:induction false} ListingUnique(a: seq<Route>, b: seq<Route>, m: Routes)
    requires Lists(a, m) && Lists(b, m) && Stored(m)
    ensures a == b
    decreases |a|
  {
    hide Lists;
    ListingLength(a, m);
    ListingLength(b, m);
    if a != [] {
      FirstListed(a, b, m);
      ListRest(a, m);
      ListRest(b, m);
      ListingUnique(a[1..], b[1..], m - {a[0].slug});
      SameSequence(a, b);
    }
  }

  lemma ListingLength(a: seq<Route>, m: Routes)
    requires Lists(a, m) && Stored(m)
    ensures |a| == |m|
  {
    ListingIsEnumeration(a, m);
    EnumerationLength(a, m);
  }

  lemma FirstListed(a: seq<Route>, b: seq<Route>, m: Routes)
    requires Lists(a, m) && Lists(b, m) && a != [] && b != []
    ensures a[0] == b[0]
  {
    assert a[0] in b && b[0] in a;
    var i :| 0 <= i < |b| && b[i] == a[0];
    var j :| 0 <= j < |a| && a[j] == b[0];
    var key := (r: Route) => r.slug;
    if i != 0 && j != 0 {
      assert Less(key(b[0]), key(b[i])) && Less(key(a[0]), key(a[j]));
      LessTrichotomy(a[0].slug, b[0].slug);
    }
  }

  lemma ListRest(a: seq<Route>, m: Routes)
    requires Lists(a, m) && a != [] && Stored(m)
    ensures Lists(a[1..], m - {a[0].slug})
  {
    ListingIsEnumeration(a, m);
    EnumerateRest(a, m);
    var key := (r: Route) => r.slug;
    forall i, j | 0 <= i < j < |a[1..]| ensures Less(key(a[1..][i]), key(a[1..][j])) {
      assert Less(key(a[i + 1]), key(a[j + 1]));
    }
  }

  /** An unowned session appears in none of the three indexes. */
  ghost predicate NotIndexed(m: Routes, ports: map<u16, string>, sessions: map<nat, set<string>>, session: nat) {
    && (forall k :: k in m ==> m[k].ownerSession != session)
    && (forall p :: p in ports ==> ports[p] in m && m[ports[p]].ownerSession != session)
    && session !in sessions
  }

  lemma UnownedIsNotIndexed(m: Routes, ports: map<u16, string>, sessions: map<nat, set<string>>, session: nat)
    requires Consistent(m, ports, sessions) && OfSession(m, session) == map[]
    ensures NotIndexed(m, ports, sessions, session)
  {
    forall k | k in m ensures m[k].ownerSession != session {
      assert k !in OfSession(m, session);
    }
    if session in sessions {
      var k :| k in sessions[session];
      assert k in m;
    }
  }
}

/** The proxy's view of the registry (`src/daemon/lifecycle.rs`). */
module Lookup {
  import opened Wrappers
  import opened Text
  import opened Protocol
  import opened Registry
  import Headers

  function LookupPort(m: Routes, slug: string): Option<u16> {
    if slug in m then Some(m[slug].port) else None
  }

  /** Every registered route is reached under its public host name, in any spelling of upper and
      lower case, provided the base domain is in lower case. */
  lemma PublicNameReachesRoute(m: Routes, k: string, baseDomain: string, host: string)
    requires WellFormed(m) && k in m && Lower(baseDomain) == baseDomain
    requires Lower(host) == Lower(HostName(k, baseDomain))
    ensures View(m[k], baseDomain).publicUrl == "https://" + HostName(k, baseDomain)
    ensures Headers.ParsePublicHost(host, baseDomain) == Some(Headers.PublicHost(k, Lower(host)))
    ensures LookupPort(m, Headers.ParsePublicHost(host, baseDomain).value.slug) == Some(m[k].port)
  {
    Headers.PublicNameRoundTrip(k, baseDomain, host);
  }
}
