# A verified model of fw

`fw` forwards public host names, `<slug>.<base domain>`, to local ports. A daemon keeps the routes,
serves clients over a local socket, rewrites the tunnel's configuration and watches the tunnel
process. This project models the parts of it that carry logic and proves what they promise, for
every input, every run or every interleaving. `dafny verify dfyconfig.toml` checks all of it.

| files | what they model |
|---|---|
| `Wrappers`, `Text`, `Words` | options and results; strings as UTF-8 bytes; the two word lists |
| `Slug`, `Names` | slugs and their allocation; the command line's parsers; host names |
| `Registry` | the route registry, three indexes kept in place, against one map from slug to route |
| `Daemon` | the session protocol as a state machine, one lock access a step |
| `DaemonSafety`, `DaemonRuns` | its invariant, and the theorems about all its runs |
| `DaemonIdle` | idle tracking between lock accesses: the exact steps that break it, and its safety without them |
| `DaemonAtomic` | runs of undisturbed handlers, where nothing breaks it |
| `DaemonSettles` | what each undisturbed handler does: core, reply, ownership, stops woken, messages |
| `DaemonEvents` | every event from the state before to the state after, field by field |
| `DaemonLate` | exactly when a registration can still enter during shutdown |
| `DaemonRaces` | runs in which idle tracking and the shutdown check fail |
| `DaemonShared` | the daemon's shared object in place, handler by handler |
| `Ingress`, `IngressMeaning`, `IngressMatching` | the ingress normaliser; what it accepts; first-match meaning |
| `Forwarding` | configuration, registry and host names together |
| `Output`, `Capture`, `CaptureMeaning` | the bounded output log; splitting a stream into lines |
| `Frames` | length-prefixed frames |
| `Metrics` | byte counters under concurrent additions; rates |

## What turned out to hold only under a condition

- Normalising an ingress list moves specific rules ahead of the wildcard and the fallback behind
  both, and drops later fallbacks, so a request may be served by another rule than before.
  `IngressMatching.KeptExactly` gives the exact condition per request,
  `IngressMatching.AllKeptExactly` the exact rule lists for which every request is served as before:
  those in the normal order already, with a fallback, rules that repeat an earlier host name and path
  left aside.
- Between lock accesses the idle time can be wrong in both directions, and the monitor can cancel a
  daemon with a route active. `DaemonIdle.IdleTracksExactly` proves of every run that each of three
  promises is kept throughout if and only if the steps that break it do not occur. (1) The idle time
  is set only with no route marked, that is, with none but such whose own registration is still to
  mark the daemon active; broken by a removal that found the registry empty and writes it after
  another registration has put its route in and marked the daemon active. (2) It is set whenever
  there is no route, but for removals still to see to it; broken by a registration that marks the
  daemon active after its route has been taken out again and the removal has finished, which leaves
  an empty daemon up. (3) The monitor goes on to cancel only with no route marked; broken by a
  registration that becomes active, its route still there, between the monitor's look at the idle
  time and its cancellation, or by a look at an expired idle time that is wrong already, which (1)
  excludes.
- A cancellation for idleness is right, no marked route having existed since the idle time it went by
  was set, if and only if that idle time was not written late and no registration overtook the monitor
  (`DaemonIdle.CancelExactly`); that stretch covers the idle timeout (`DaemonIdle.CancelSafety`).
  `DaemonRaces` has a run for each failure. With handlers that do not overlap none occurs
  (`DaemonAtomic`).
- Between lock accesses a route can enter the registry during shutdown, even after a kill emptied it.
  `DaemonLate.EntersExactly` says when, for every state of every run: if and only if a registration
  with a nonzero port and a valid name, or none, has passed the check, and either something is left
  that can empty the registry (the accept loop, the main loop before its clear, a second live
  connection) or the registry takes it once the connections hanging up have left.
- A connection that ends cleanly leaves no route of any session it drew, in any run
  (`DaemonRuns.CleanExitLeavesNothing`). One that ends with an unreadable frame or without a writer
  skips the removal and leaves its route registered (`DaemonEvents.BadFrameKeepsSession`), until a
  stop, a kill or the end of the child.
- Captured pieces are the lines of the stream, however it is read, exactly if every line with its
  terminator is at most 8192 bytes and an unterminated tail is under 8192
  (`CaptureMeaning.ChunkIndependenceExactly`); for given reads the condition is that no read ends
  with 8192 unterminated bytes (`CaptureMeaning.CapturesLinesExactly`).
- A public host name is parsed back exactly if the base domain is in lower case
  (`Headers.PublicNameRoundTrip`); the normaliser only ever yields such domains.
- Rate times elapsed time adds up to the bytes recorded exactly if none were recorded up to a sample
  at which no time had passed (`Metrics.ConservedExactly`).
- The line just pushed survives in the output log exactly if its `[source] ` prefix alone is under
  the limit (`Output.PushSurvives`), as both prefixes in use are.
- A second registration on a connection that already owns a session is refused with the error code
  for shutting down, and the model does the same.

## Model

| member | source | states |
|---|---|---|
| Words.AdjectivesAscend | src/slug.rs:8-15 | the 60 adjectives are in strictly ascending order, hence distinct |
| Words.NounsAscend | src/slug.rs:17-24 | the 60 nouns are in strictly ascending order, hence distinct |
| Slug.ValidateAcceptsSlugs | src/slug.rs:35-55 | the validator accepts exactly the lower-case letter-digit-hyphen labels of 1 to 63 bytes (section 2.3.1 of RFC 1035 as relaxed by section 2.1 of RFC 1123) that are not all digits |
| Slug.NormalizeSlugMeaning | src/slug.rs:27-32 | normalising succeeds exactly if the lower-cased text is a slug, gives that text, and is idempotent |
| Slug.GenerateSlugInjective | src/slug.rs:58-62 | different draws give different names: the hyphen join of the word pairs is injective |
| Slug.GeneratedIsSlug | src/slug.rs:58-62 | every generated name is a valid slug |
| Slug.GenerateUniqueSlug | src/slug.rs:68-92 | the retry loop and the exhaustive loops return the name of the first free draw; if all draws are taken, the free pair smallest by adjective and then by noun; if there is none, nothing |
| Slug.DrawsComeFirst | src/slug.rs:73-78 | if draws before the i-th are taken and the i-th is free, the name is that of the i-th |
| Slug.PairsComeInOrder | src/slug.rs:80-90 | if all draws are taken, the free pair with the smallest adjective, then the smallest noun |
| Slug.NamesSpelled | src/slug.rs:58-62 | generated names written out, with the words of the lists in their places |
| Slug.UniqueSlugComplete | src/slug.rs:64-92 | a free generated name is returned whenever one exists; failure means all are taken |
| Slug.UniqueSlugSucceeds | src/slug.rs:64-92 | with fewer than 3600 names taken, by counting, allocation succeeds |
| Cli.NormalizersAgree | src/cli.rs:213-245 | the command line and the daemon accept the same slugs, normalise them alike and refuse for the same reason |
| Cli.ParsePortMeaning | src/cli.rs:204-209 | exactly the decimal forms of 1 to 65535 are ports, leading zeros and one plus sign allowed |
| Cli.SelectorRoundTrip | src/cli.rs:249-257 | every slug is read as that slug, the decimal form of every port 1 to 65535 as that port |
| Cli.SelectorMeaning | src/cli.rs:247-257 | what each outcome says about the text; no slug is ever read as a port, and all-digit text never as a slug |
| Headers.ValidSlugAcceptsSlugs | src/proxy/headers.rs:75-83 | the proxy's validator accepts exactly what the other two accept |
| Headers.ParsePublicHostMeaning | src/proxy/headers.rs:60-73 | a host parses to a slug exactly if its lower-case form is that valid slug, a dot and the base domain |
| Headers.PublicNameRoundTrip | src/proxy/headers.rs:60-73 | any spelling of a public host name parses back to its slug, if and only if the base domain is in lower case |
| Registry.RouteRegistry.RegisterWithRng | src/registry.rs:69-115 | registers in all three indexes or changes nothing; result and new map are those of the one-map registration |
| Registry.RouteRegistry.RouteForSlug | src/registry.rs:117-119 | the route of that slug in the one-map view |
| Registry.RouteRegistry.RouteForPort | src/registry.rs:121-125 | going through the port index finds the route on that port in the one-map view |
| Registry.RouteRegistry.ResolveSelector | src/registry.rs:133-138 | the route the selector denotes in the one-map view |
| Registry.RouteRegistry.List | src/registry.rs:140-148 | the views of all routes, each once, strictly ascending by slug, each with its route's port, a local URL that ends in that port's digits, and its public URL |
| Registry.ListedViewsMeaning | src/ipc/protocol.rs:162-171 | each view listed is of one active route: its port, `http://127.0.0.1:` and the digits of that port, `https://`, slug, dot, base domain |
| Protocol.LoopbackUrlMeaning | src/cloudflare_config.rs:158 | the local URL of a port is `http://127.0.0.1:` and digits that denote that port and no other; different ports have different URLs |
| Registry.RouteRegistry.RemoveSlug | src/registry.rs:152-168 | removes that route only, keeping the indexes consistent and leaving no empty session set |
| Registry.RouteRegistry.RemoveOwnedSlug | src/registry.rs:172-177 | removes the route exactly if the session owns it |
| Registry.RouteRegistry.RemoveSession | src/registry.rs:180-194 | removes exactly the session's routes and returns them, strictly ascending by slug |
| Registry.RouteRegistry.Clear | src/registry.rs:196-202 | empties all indexes and returns every route, strictly ascending by slug |
| Registry.Replay | src/registry.rs:69-202 | any sequence of operations on the three indexes does to them what it does to the one map |
| Registry.ApplyAllKeepsWellFormed | src/registry.rs:69-202 | after any sequence of operations ports are pairwise distinct and nonzero, and every key is the valid slug of its route |
| Registry.RegisterMeaning | src/registry.rs:77-114 | what a successful registration yields: a fresh valid slug, a free nonzero port, the caller's session |
| Registry.RegisterAccepts | src/registry.rs:77-96 | registration succeeds if and only if the port is nonzero and free and the name asked for is valid and free, or some generated name is free |
| Registry.RegisterRefuses | src/registry.rs:77-96 | the outcome case by case: bad port, port taken and by which route, bad name, name taken, names exhausted, in this order, or the route |
| Registry.UnnamedIsFirstFree | src/registry.rs:87-96 | an unnamed route bears the name of the first draw that is free |
| Registry.UnnamedRegistrationSucceeds | src/registry.rs:87-96 | with fewer routes than word pairs, an unnamed registration of a free nonzero port succeeds |
| Registry.ResolveAgrees | src/registry.rs:117-138 | by slug and by port the same route is found; what is found is active and bears the selector |
| Registry.RemoveSessionExact | src/registry.rs:179-194 | removal of a session splits the map in two, is exact and idempotent |
| Registry.ListingUnique | src/registry.rs:140-148 | strict order and completeness determine a listing, whatever order the hash map yields |
| Text.LessMeaning | src/registry.rs:140-148 | the order of listings: a proper beginning, or the smaller byte at the first difference |
| Registry.UnownedIsNotIndexed | src/registry.rs:35-40 | in consistent indexes a session without routes appears in none of the three |
| Lookup.PublicNameReachesRoute | src/daemon/lifecycle.rs:14-25 | every route is looked up under any spelling of the host in its public URL, for base domains in lower case |
| DaemonSafety.StepKeepsInv | src/daemon/mod.rs:253-540 | every lock-granular step of every connection, the monitor and the main loop keeps the protocol's invariant; in particular a connection ends cleanly only once the route of the session it owns has gone (270, 364-366) |
| DaemonSafety.ExecKeepsInv | src/daemon/mod.rs:146-177 | the invariant holds in every state of every run |
| DaemonRuns.StoppedSessionStaysOut | src/daemon/mod.rs:372-423 | once `Stopped` is sent, by wake-up or timeout, the session of that route is in no index then or ever after, under concurrent stops, overwritten entries, lost wake-ups, kills and disconnects |
| DaemonRuns.AcknowledgementsAreLive | src/daemon/mod.rs:395-414 | every acknowledgement entry was made by a stop still in flight |
| DaemonRuns.WokenExactly | src/daemon/mod.rs:74-81 | in every run a stop that has begun to wait (409) is woken if and only if a removal of its own session takes out the entry that still holds its token; a removal between its message (401-408) and its wait wakes nobody |
| DaemonRuns.SessionsAreExclusive | src/daemon/mod.rs:275-350 | a route enters only from the connection that drew its session id, which never had one, and leaves only by that connection, an expired stop of it, or a clear; no step touches another session's route |
| DaemonRuns.SessionIdsAreUnique | src/daemon/mod.rs:288-298 | an id belongs to one connection for good and has at most one route in all of a run |
| DaemonRuns.RepliesAreTrue | src/daemon/mod.rs:305-332 | in every run a `Registered` reply goes to the connection that drew the session and names its one route, an `Unregistered` reply to that connection once the route has gone; listings are `DaemonRuns.ListingsAreSnapshots`, stops `DaemonRuns.StoppedSessionStaysOut`, kills `DaemonRuns.KillAccounting` |
| DaemonRuns.ListingsAreSnapshots | src/daemon/mod.rs:351-354 | in every run a listing sent to a connection is the whole registry as it was at a moment at which that connection was being served a listing |
| DaemonRuns.CleanExitLeavesNothing | src/daemon/mod.rs:364-366 | in every run no route of a session drawn by a connection that has ended cleanly is registered |
| DaemonRuns.RoutesAreAttended | src/daemon/mod.rs:295-303 | in every run the connection that registered an active route still owns its session and has not ended cleanly |
| DaemonRuns.RemoteStopGoesToOwner | src/daemon/mod.rs:83-89 | in every run a stop tells the connection that registered the route it stops, and no other |
| DaemonRuns.KillAccounting | src/daemon/mod.rs:425-468 | at most one `KillAccepted` is sent and it counts exactly the routes cleared; registrations are active routes plus removed plus cleared ones |
| DaemonRuns.KillCountsWhatItClears | src/daemon/mod.rs:442-460 | the count is taken in the step that clears, and is the size of the registry then |
| DaemonRuns.NoRouteEntersAfterShutdown | src/daemon/mod.rs:276-294 | at lock granularity: once shutting down with no registration with a nonzero port and a valid name, or none, past the check, the registry never grows |
| DaemonRuns.ExecContinues | src/daemon/mod.rs:253-370 | session ids, registered routes, departures, sent messages and the shutdown flag are never taken back |
| DaemonLate.EntersExactly | src/daemon/mod.rs:276-294 | in every state of every run that is shutting down: some continuation lets a route in if and only if some registration past the check can still be met |
| DaemonLate.EntersWhileStirring | src/daemon/mod.rs:276-294 | with something left that can empty the registry: if and only if a registration with a nonzero port and a valid name, or none, is past the check |
| DaemonRaces.RouteAfterKill | src/daemon/mod.rs:276-294 | a run in which a registration past the check enters after a kill cleared the registry |
| DaemonIdle.StepExactly | src/daemon/mod.rs:61-81 | the exact steps that break each promise of idle tracking, in any state that keeps it: a late write (67-69); a late mark (62); for the monitor, a registration overtaking it (513-517) or its own look at a wrong idle time (513-514) |
| DaemonIdle.IdleTracksExactly | src/daemon/mod.rs:61-81 | of every run, without further condition: each promise is kept throughout if and only if none of its breaking steps occurs; the first and third are about every route but such whose own registration has not yet marked the daemon active |
| DaemonIdle.RightIdleMisleadsNone | src/daemon/mod.rs:512-519 | an idle time that is always right misleads no look, so then overtaking alone decides |
| DaemonIdle.CancelExactly | src/daemon/mod.rs:507-523 | since the idle time the monitor went by was set no route existed but such whose own registration had not yet marked the daemon active, if and only if that idle time was not written late and no registration overtook the monitor |
| DaemonIdle.CancelSafety | src/daemon/mod.rs:507-523 | then, in particular, no other route existed during the idle timeout before the cancellation |
| DaemonRaces.IdleWithRoute | src/daemon/mod.rs:65-72 | a run that ends idle with a route active, the emptiness test being apart from the write |
| DaemonRaces.CancelledWithRoute | src/daemon/mod.rs:507-523 | that run goes on to cancel the daemon with the route still active |
| DaemonRaces.CancelledOvertaken | src/daemon/mod.rs:513-517 | a run in which a registration completes between the monitor's look and its cancellation, which then hits an active route |
| DaemonRaces.CancelledWhileEntering | src/daemon/mod.rs:289-303 | a run that is cancelled under a registration whose route is in and not yet marked active |
| DaemonRaces.CancelledBesideEntering | src/daemon/mod.rs:65-72 | a run with a late write and an active route, cancelled while a third connection is still to mark its own route |
| DaemonRaces.EmptyNotIdle | src/daemon/mod.rs:289-303 | a run that ends without routes and without an idle time, a stop having taken the route out between its insertion and the mark |
| DaemonAtomic.AtomicRunIsRun | src/daemon/mod.rs:253-370 | runs of undisturbed handlers are lock-granular runs |
| DaemonAtomic.IdleIsExact | src/daemon/mod.rs:61-81 | handler by handler, while not shutting down, the idle time is set if and only if the registry is empty |
| DaemonAtomic.NoRouteSinceIdle | src/daemon/mod.rs:61-72 | no route existed at any moment since the idle time |
| DaemonAtomic.IdleSafety | src/daemon/mod.rs:507-523 | when the monitor cancels, no route existed during the whole preceding idle timeout |
| DaemonAtomic.NoGrowthAfterShutdown | src/daemon/mod.rs:276-287 | handler by handler, the registry never grows once shutting down |
| DaemonSettles.RemovalSettles | src/daemon/mod.rs:74-81 | the five accesses of a removal and what its caller does next, run through: session gone from registry, owners and acknowledgements, the waiting stop woken, ownership ended, reply sent, nothing else touched |
| DaemonSettles.EmptinessSettles | src/daemon/mod.rs:65-72 | the emptiness test and the write, run through, set the idle time exactly if there is no route and it is not set yet |
| DaemonSettles.RegistrationSettles | src/daemon/mod.rs:275-321 | a registration run through: core, session owned, reply, nothing else touched |
| DaemonSettles.StopSettles | src/daemon/mod.rs:378-409 | a stop run until it waits: entry replaced, owner told if there, waiting on its own token; or an error reply and nothing changed |
| DaemonSettles.KillSettles | src/daemon/mod.rs:425-468 | a kill run through: flag, empty registry, all owners told, reply with the count, cancellation scheduled; a second one changes nothing |
| DaemonSettles.FatalSettles | src/daemon/mod.rs:525-540 | the child's end run through: flag, all owners told, empty registry, cancelled |
| DaemonSettles.TickSettles | src/daemon/mod.rs:512-519 | a tick of the monitor run through cancels exactly if the daemon has been idle for the timeout |
| DaemonSettles.HandlersKeepExact | src/daemon/mod.rs:61-81 | every handler keeps "idle time set if and only if no route, until shutdown", marking active and idle included; a removal never moves an idle time already set |
| DaemonSettles.TickSparesRoutes | src/daemon/mod.rs:512-519 | with an exact idle time a tick cancels only without routes and after the timeout, and does cancel then |
| DaemonEvents.HangupRemovesSession | src/daemon/mod.rs:364-366 | a hang-up of a connection that owns a session: no route, owner or acknowledgement of it is left, all others stay, its waiting stop is woken, the idle time is set if no route is left, nothing is sent |
| DaemonEvents.UnregisterRemovesSession | src/daemon/mod.rs:323-332 | an unregistration by the owner: the same, with a reply, after which the connection owns nothing |
| DaemonEvents.AcknowledgementRemovesSession | src/daemon/mod.rs:345-350 | an acknowledgement by the owner: the same, without a reply |
| DaemonEvents.ForeignSessionIsSafe | src/daemon/mod.rs:333-350 | either frame for a session the connection does not own: an error `InvalidRequest`, or nothing; nothing else changes |
| DaemonEvents.HangupWithoutSession | src/daemon/mod.rs:364-369 | a hang-up without a session changes nothing but the connection |
| DaemonEvents.BadFrameKeepsSession | src/daemon/mod.rs:268-272 | a frame that cannot be read ends the connection and leaves everything registered |
| DaemonEvents.ListShowsRegistry | src/daemon/mod.rs:351-354 | a listing sends exactly the active routes, to that connection only, and changes nothing |
| DaemonEvents.RegistrationEnters | src/daemon/mod.rs:288-317 | a request not refused: fresh session, route on that port under the name asked for or the one chosen, owner set, idle time unset, reply |
| DaemonEvents.RegistrationRefused | src/daemon/mod.rs:318-320 | a refused request: which of five error codes, a session id spent, nothing else changed |
| DaemonEvents.RegistrationTurnedAway | src/daemon/mod.rs:276-287 | a connection that owns a session, or a daemon shutting down: `DaemonShuttingDown`, nothing changed |
| DaemonEvents.StopFindsNone | src/daemon/mod.rs:378-393 | a stop that no active route bears: `RouteNotFound`, nothing changed |
| DaemonEvents.StopTellsOwner | src/daemon/mod.rs:395-408 | a stop of an active route: a fresh token under its session, the owner told, waiting on that token |
| DaemonEvents.WokenStopReports | src/daemon/mod.rs:409-422 | a stop that was woken reports its route and changes nothing |
| DaemonEvents.ExpiredStopRemovesSession | src/daemon/mod.rs:409-422 | one not woken in time removes the session first, everywhere |
| DaemonEvents.FirstKillClears | src/daemon/mod.rs:442-467 | the first kill: flag, empty registry, owners and acknowledgements kept, each owner told, reply with the number of routes, cancellation scheduled |
| DaemonEvents.LaterKillRefused | src/daemon/mod.rs:430-440 | any later one: `DaemonShuttingDown`, nothing changed |
| DaemonEvents.TickCancelsIdle | src/daemon/mod.rs:512-519 | a tick cancels if the daemon has been idle for 2000 milliseconds or more, and otherwise does nothing |
| DaemonEvents.ChildEndTellsOwners | src/daemon/mod.rs:525-540 | the child's end: flag, every owner told, empty registry, cancelled, nothing else |
| DaemonEvents.MainLoopEnds | src/daemon/mod.rs:173-179 | when waiting for the child fails, or the loop finds the daemon cancelled: the flag is raised and the loop ends, with routes and owners kept and nobody told |
| DaemonEvents.SignalCancels | src/daemon/mod.rs:461-466 | the end of a kill's delay, or a signal, cancels the daemon and does nothing else |
| DaemonShared.Shared.RemoveSession | src/daemon/mod.rs:74-81 | removes the session everywhere, takes out and notifies its token, and updates the idle time |
| DaemonShared.Shared.RegisterRoute | src/daemon/mod.rs:275-321 | refuses when shutting down; otherwise draws an id, and on success registers, owns and marks active |
| DaemonShared.Shared.RequestStop | src/daemon/mod.rs:378-408 | replaces the token of the resolved route's session, or changes nothing |
| DaemonShared.Shared.KillDaemon | src/daemon/mod.rs:425-460 | the first kill sets the flag, clears the registry, tells all owners and counts what it cleared; later ones change nothing |
| DaemonShared.Shared.BroadcastFatal | src/daemon/mod.rs:525-540 | sets the flag, tells all owners, clears the registry |
| DaemonShared.Shared.IdleTick | src/daemon/mod.rs:512-519 | cancels exactly on an expired idle time, which with an exact idle time leaves a daemon with a route alone |
| Ingress.InsertMeaning | src/cloudflare_config.rs:202-203 | inserting changes one key in place or appends it, and the later of two insertions wins |
| Ingress.LabelsMeaning | src/cloudflare_config.rs:231-252 | the labels checked are the dotless pieces that joined by dots give the domain |
| Ingress.ReadWildcard | src/cloudflare_config.rs:184-192 | which rules count as wildcards, by host name and path |
| Ingress.SortRules | src/cloudflare_config.rs:160-210 | the loop finds the specific rules in order, the one managed rule and the first fallback, or the first rule at fault |
| Ingress.NormalizeValue | src/cloudflare_config.rs:143-229 | the normalised document and base domain, or the reason for refusal; the service set is pinned by `Protocol.LoopbackUrlMeaning` |
| IngressMeaning.ExactAcceptance | src/cloudflare_config.rs:143-252 | a document is accepted if and only if it is a mapping whose `ingress` is a sequence of mappings, hostless rules are `http_status:404`, pathless `*.` host names are valid, and there is exactly one |
| IngressMeaning.RefusalIsUnique | src/cloudflare_config.rs:143-219 | a refused document is refused for one reason only |
| IngressMeaning.RefusalMeaning | src/cloudflare_config.rs:143-219 | what a refusal says: the first rule at fault and its fault, or the two wildcards, or that there is none, or what is wrong with the document |
| IngressMeaning.RestIsKept | src/cloudflare_config.rs:227-228 | nothing outside `ingress` changes |
| IngressMeaning.BaseDomainIsLower | src/cloudflare_config.rs:231-252 | the base domain is a valid domain name in lower case |
| IngressMeaning.LabelsAndSlugs | src/cloudflare_config.rs:240-251 | a label of a domain is a slug but for upper case and for being all digits: this fourth validator agrees with the other three |
| IngressMeaning.DomainsSpelled | src/cloudflare_config.rs:231-252 | valid domains are labels of 1 to 63 letters, digits and inner hyphens joined by dots, in 1 to 253 bytes |
| IngressMeaning.PatchedKeepsRole | src/cloudflare_config.rs:202-203 | setting the service leaves host name and path, hence the kind of a rule, alone |
| IngressMeaning.PatchedKeepsRest | src/cloudflare_config.rs:202-203 | setting the service keeps every other key of the rule |
| IngressMeaning.NormalForm | src/cloudflare_config.rs:160-227 | rules already specific, managed, fallback are sorted into themselves |
| IngressMeaning.LastPortWins | src/cloudflare_config.rs:143-229 | normalising for p and then q is normalising for q, in rules, base domain and key order; with p = q, idempotence |
| IngressMatching.SpecificMatchIsKept | src/cloudflare_config.rs:210-227 | a request first matched by a specific rule is first matched by that same unchanged rule afterwards |
| IngressMatching.SpecificServes | src/cloudflare_config.rs:210-227 | a request some specific rule matches gets the first specific rule that does |
| IngressMatching.ManagedServes | src/cloudflare_config.rs:202-227 | a request no specific rule matches but the wildcard does gets the managed rule, with the service `http://127.0.0.1:` and the digits of the forwarder's port |
| IngressMatching.FallbackServes | src/cloudflare_config.rs:222-227 | any other request gets the first fallback, or the default one, or nothing |
| IngressMatching.KeptExactly | src/cloudflare_config.rs:160-227 | a request is served by the same rule as before if and only if nothing moved past that rule matches it |
| IngressMatching.AllKeptExactly | src/cloudflare_config.rs:160-227 | for every accepted rule list: every request is served as before if and only if the rules that do not repeat an earlier key were in the normal order already, with a fallback |
| Forwarding.WildcardIsBaseDomain | src/cloudflare_config.rs:231-252 | the managed rule's host name is `*.` and the base domain, but for upper and lower case |
| Forwarding.ConfiguredNamesReachRoutes | src/ipc/protocol.rs:162-171 | under any accepted configuration every route is reached under any spelling of its public name, and only names of the form slug, dot, base domain parse |
| Output.LineFits | src/cloudflared.rs:51-67 | a logged line is within the byte limit exactly if its prefix is |
| Output.WholeLine | src/cloudflared.rs:51-66 | valid text that fits is logged whole, less its terminator |
| Output.LongLine | src/cloudflared.rs:51-66 | of longer input the last bytes that fit beside the prefix are logged |
| Output.LineIsCharacters | src/cloudflared.rs:59-66 | a line is its prefix and the longest run of whole characters, at the end of the text, that fits |
| Output.BoundariesAreCharacters | src/cloudflared.rs:61-65 | in the UTF-8 of any text the boundaries are exactly the ends of characters (section 3 of RFC 3629) |
| Output.RecentMeaning | src/cloudflared.rs:69-80 | the log is the longest suffix of all lines pushed that fits 100 lines and 65536 bytes |
| Output.RecentSpelled | src/cloudflared.rs:69-80 | at most 100 lines and 65536 bytes, and one line more would break a limit |
| Output.RecentOfRecent | src/cloudflared.rs:69-80 | what was evicted earlier makes no difference to later pushes |
| Output.PushSurvives | src/cloudflared.rs:51-80 | the line just pushed is kept, unless its prefix alone is over the limit |
| Output.SnapshotIsBounded | src/cloudflared.rs:42-49 | a snapshot is shorter than the byte limit |
| Output.RecentOutput.Snapshot | src/cloudflared.rs:42-49 | the lines kept, joined by newlines |
| Output.RecentOutput.PushBytes | src/cloudflared.rs:51-80 | adds the one line made of the bytes to the history; the log stays its longest fitting suffix and `bytes` its exact size |
| Output.RecentOutput.Append | src/cloudflared.rs:68-79 | the eviction loop, whose saturating arithmetic never saturates |
| Capture.SplitMeaning | src/cloudflared.rs:299-302 | the lines and tail of a stream make it up; each line has one newline, at its end |
| Capture.SplitOfConcat | src/cloudflared.rs:297-302 | splitting can stop anywhere and go on from the tail |
| Capture.DrainLines | src/cloudflared.rs:299-302 | the inner loop pushes exactly the complete lines and leaves the tail |
| Capture.CaptureStream | src/cloudflared.rs:280-311 | what is pushed for a sequence of reads that ends with the stream or an error |
| CaptureMeaning.NothingLost | src/cloudflared.rs:288-310 | the pieces pushed, put together, are the bytes read |
| CaptureMeaning.PiecesExactly | src/cloudflared.rs:288-302 | the pieces a stream should be captured as are the one way to make it up from lines, the last of which may lack its newline but is not empty |
| CaptureMeaning.FailureLosesPending | src/cloudflared.rs:290-297 | a read error loses the pending bytes and nothing else |
| CaptureMeaning.CutsAreChunks | src/cloudflared.rs:304-308 | every piece pushed before the end is a line, or 4096 bytes without a newline cut off a longer one |
| CaptureMeaning.Bounded | src/cloudflared.rs:304-308 | less than 8192 bytes are pending between reads and no piece reaches 12288 |
| CaptureMeaning.CapturesLinesExactly | src/cloudflared.rs:288-310 | for given reads the pieces are the stream's lines if and only if no read ends with 8192 unterminated bytes |
| CaptureMeaning.ChunkIndependenceExactly | src/cloudflared.rs:288-310 | the pieces are the stream's lines however it is read if and only if its lines are at most, and its tail under, 8192 bytes |
| CaptureMeaning.CapturedLinesAreLines | src/cloudflared.rs:51-66 | no line logged for a stream holds a newline |
| CaptureMeaning.SnapshotShowsLines | src/cloudflared.rs:42-49 | such lines can be read off a snapshot |
| CaptureMeaning.SnapshotAfterCapture | src/cloudflared.rs:42-80 | after any stream is captured, a snapshot shows exactly the most recent lines, line by line |
| CaptureMeaning.CaptureAndShow | src/cloudflared.rs:280-311 | the same of the capture loop and the snapshot in place |
| Frames.EncodeFrame | src/ipc/framing.rs:11-20 | an envelope is encoded exactly if it has this version, is encodable and its payload is neither empty nor too long; otherwise the reason |
| Frames.EncodableSpelled | src/ipc/framing.rs:11-16 | version 1 and 1 to 65536 bytes of payload, or which of the four errors |
| Frames.BigEndianRoundTrip | src/ipc/framing.rs:17-30 | the length prefix is read back as written |
| Frames.HeaderSpelled | src/ipc/framing.rs:17 | the four header bytes one by one, most significant first |
| Frames.FrameSpelled | src/ipc/framing.rs:11-20 | a frame is those four bytes of the payload's length and the payload |
| Frames.DecodeSpelled | src/ipc/framing.rs:24-71 | what decoding and reading make of any bytes, error by error, with the length computed from the header bytes |
| Frames.Reader.ReadExact | src/ipc/framing.rs:63-68 | fills the buffer with the next bytes, or uses up a stream that is too short |
| Frames.Reader.ReadFrame | src/ipc/framing.rs:57-71 | reads as the stream function does, consuming what it consumes |
| Frames.ReadsBack | src/ipc/framing.rs:11-71 | a frame in front of anything is read back and nothing behind it is touched |
| Frames.TruncatedIsError | src/ipc/framing.rs:56-71 | a frame cut short is an error, never a message |
| Frames.StreamRoundTrip | src/ipc/framing.rs:11-71 | reading the frames of any envelopes gives exactly those in order and consumes every byte, also if the stream breaks off within one more |
| Frames.SentIsInjective | src/ipc/framing.rs:11-20 | the bytes sent determine the envelopes |
| Frames.PrefixFree | src/ipc/framing.rs:11-20 | no frame is a proper prefix of another |
| Frames.DecodeIsRead | src/ipc/framing.rs:24-43 | decoding a frame succeeds exactly if reading it does and leaves nothing; then version and length are right |
| Metrics.EveryAdditionAccounted | src/metrics.rs:44-48 | every addition begun is finished or under way, with all its bytes, however loads and exchanges interleave |
| Metrics.NoLostUpdate | src/metrics.rs:44-48 | the counter is the start value and all bytes begun but those under way, capped once; with none under way, all bytes begun |
| Metrics.RouteMetrics.RecordUpload | src/metrics.rs:31-33 | the upload counter stays the capped sum of its additions |
| Metrics.RouteMetrics.RecordDownload | src/metrics.rs:35-37 | the download counter stays the capped sum of its additions |
| Metrics.MetricsSampler.SampleAt | src/metrics.rs:76-98 | moves the baseline to the new sample and shows the route's two counters, and of each the rate: its growth times 10^9 over the nanoseconds since the last sample, or 0 |
| Metrics.ShownMeaning | src/metrics.rs:76-107 | rate times nanoseconds is the growth times 10^9, in both directions; totals are shown as they are |
| Metrics.CappedSpelled | src/metrics.rs:44-48 | the cap is 2^64 - 1 |
| Metrics.Conservation | src/metrics.rs:76-107 | the sum of rate times elapsed time is the bytes recorded since the baseline less those missed |
| Metrics.Observe | src/metrics.rs:31-98 | the samples taken of one route never fall, whatever is recorded in between, so conservation holds of them |
| Metrics.SamplesOfRun | src/metrics.rs:31-98 | nor do samples loaded at any points of any interleaving of loads and exchanges of any threads |
| Metrics.ConservedExactly | src/metrics.rs:76-107 | the sum is exact if and only if no bytes were recorded up to a sample at which no time had passed |

## Left out

- Sockets, named pipes, processes, signals, file locks and platform calls: foreign calls with little logic.
- HTTP forwarding, upgrades, request rewriting and the extraction of the authority of a request: library plumbing.
- Terminal output, number formatting, the clap wiring and the wording of error messages; errors are data here.
- Setup, installation, download and the atomic replacement of the configuration file: side effects.
- YAML and JSON text: the normaliser starts from parsed values, without tags, and frames take any payload codec that decodes what it encodes.
- `src/daemon/state.rs`: enumerations nothing uses.
- The client loops of `src/main.rs` (`run_owner_session`, `unregister`): the state machine lets clients send any frame at any time, so nothing proved depends on them.
- `spawn_stats` and channel back-pressure: outgoing queues are logs without bound, and whether a writer is still alive is a parameter of a step.
- Telling the owners of all sessions, in a kill or a fatal end, is one step rather than one per owner; the tasks touch nothing else in between.
- How often the accept loop still accepts after cancellation: it may, until it ends.
- The width of session ids: fewer than 2^64 registrations are assumed.
- Messages of the state machine carry routes, not views of routes; creation time and counters of a route do not appear.
- Strings hold one character for each UTF-8 byte; `from_utf8_lossy` is a parameter of the log.
- Stop selectors have a second parser in `src/ipc/protocol.rs`, compiled for unit tests only; the command line's is the one modelled.
- I/O errors of a frame stream other than its end.
- How the tunnel matches a request against a host name and path: requests are arbitrary predicates over the two.
- DaemonShared.Shared.RemoveSession: the object's methods are whole handlers that nothing interrupts; interruptions are the state machine's.
- Capture.CaptureStream: states what one stream pushes with no other pushing in between; the two streams of a child share one log, which then holds both interleaved.
- Metrics.MetricsSampler.SampleAt: rates are reals, without rounding.
