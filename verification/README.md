# Relay, port tracker, command line and build journal: a verified model

This project models the parts of the repository whose behaviour is decided by interleavings, in-place
data structures or non-obvious algorithms, and proves what they promise.

* **The relay** (`Tunnel*.dfy`, `Directory*.dfy`, `RelayDirectory.dfy`, `ProxyBridge.dfy`, `Routing.dfy`). A relay keeps one
  live socket per host and multiplexes requests and channels over it. The stretch of code between two awaits is one
  atomic step, every callback is a step, and a run is any interleaving of steps. The directory's scripts are one
  step each; a heartbeat is four separate calls, and any number of machines act on the tables. `RelayDirectory.dfy`
  runs one relay and the directory together. What a run lets others see, on every socket, at the directory and of every request,
  is in `TunnelTranscript.dfy`.
* **The port tracker** (`PortModel.dfy`, `PortManager.dfy`, `Procfs.dfy`, `Limiter.dfy`). A mutable index of listening ports,
  the event stream it emits, the merge of concurrent readlinks, and the limiter that bounds them.
* **The command line** (`EditDistance.dfy`, `Parser*.dfy`, `Router*.dfy`, `RoutedParse.dfy`). The edit-distance matrix, the
  argument parser, the command tree built in place, the walk over it, and parser and walk together.
* **Self-contained cores**: the build journal and the framing of what it hashes (`JournalModel.dfy`,
  `HashFraming.dfy`, `JournalRuns.dfy`, `BuildCheckpoints.dfy`), task search patterns (`TaskQuery.dfy`), searches of
  process, chunk and package graphs (`Reach.dfy`, `ProcessTree.dfy`, `Closures.dfy`), and the team membership kept by the
  organization hooks (`Teams.dfy`, `TeamLeaves.dfy`).

Where the source changes objects in place, a class has the same fields. The handlers of `TunnelManager`, `Directory`, `Bridge`,
`PromiseLimiter` and `Organizations` each equal a step of the model (`Abs() == Step(old(Abs()))`), keep the object valid or say when
they do, and say what the caller can see; what holds in every run is proved about the steps. A `TunnelManager` is valid when some run
of the protocol ends in its state, and a `BuildCheckpoints` when the killable steps it has taken lead to it. `PortManager`,
`CommandTree`, `PackageCopy` and `Feed` are proved against definitions of what their contents mean. Where the source loops, the
method loops, and is proved against a definition that does not mention the loop: least cost over edit scripts, the first least
record, reachability, a declarative tree.

## Where the code differs from what is said about it

* `apps/relay/src/directory.ts:100-103` says that a late heartbeat leaves META and TTL behind for about 90 seconds at worst,
  until a sweep reclaims them. The two writes are not ordered and may fail one by one: when the META write lands while there is no
  TTL entry, and none is written after it, no sweep, clear or unregister removes that META again (`ZombieMetaIsReachable`,
  `ZombieMetaIsNeverReclaimed`). In every run this is the only way (`MetaAloneExactly`); the heartbeat's own TTL write was then
  overtaken by a removal or failed (`LoneMetaExactly`, `FailedTtlLeavesMeta`). Writing META first closes the first of the two
  (`MetaFirstKeepsMetaTimed`).
* `apps/relay/src/tunnel.ts:87-91` rolls back by machine identity, so it can take away the entry of a newer registration of the
  same host on the same machine (`RollbackErasesNewerRegistration`), also of one that is installed only after the rollback began
  (`RollbackErasesLaterRegistration`). It does so exactly when, as the delete lands, the host has a tunnel and the directory
  names the machine (`LandingHitsExactly`). As the rollback begins this can be ruled out only while draining: when the host has no
  tunnel, or the directory does not name the machine and no other write for the host is to come (`RollbackHitsExactly`).
* `packages/port-scanner/src/procfs.ts:29-30` calls the readlinks bounded across all pids. A call made between a wake and the
  woken job's increment makes one too many run, whatever the limit (`LimitCanBeExceeded`); running and woken jobs fit the limit
  exactly as long as no such call starts (`RoomIsKeptUnlessBarged`, `OverrunIsAhead`).
* `packages/cli-framework/src/parser.ts:67` says everything after `--` is positional; a second `--`
  after it is dropped, so positionals come back exactly when none of them is `--` (`ParseUndoesRender`).
* `packages/cli-framework/src/runner.ts:117-123` lets global flags stand anywhere before the leaf command's own; a boolean
  global followed by the word `true` loses that word to the positionals, although the parser alone reads it as the value
  (`SwitchLosesItsWord`). Nothing else tells the two apart (`RoutedParsesAsTyped`).
* `packages/cli-framework/src/router.ts:61` keys commands by the joined path, which names a path only when its segments hold no
  slash and it is not the root (`JoinIsInjective`, `JoinCollides`, `RegisteredPathRunsLast`).
* `apps/relay/src/index.ts:138-148` replays by region and then by id. An entry with a wrong region sends a request round without
  end in exactly the fleets `MisplacedOwnerLoops` names; entries that machines write for themselves never do
  (`OwnEntriesCannotLoop`).
* `apps/relay/src/proxy.ts:3-4` describes the marker as a loop guard. It is seen exactly when the query gave the marker no other value
  before (`MarkerIsSeen`); with another value two relays that name each other hand the upgrade on without end
  (`OtherMarkerValueLoops`).
* `scripts/release/build-checkpoints.ts:13` says altered output is never reusable. The digest is fed paths and contents of files and
  nothing else, so empty directories do not show; every difference in paths or contents does, output by
  output (`FramesTellTreesApart`, `DigestsTellOutputsApart`).
* `packages/auth/src/server.ts:479-481` states that every member has a team. With each hook and its statement in one piece, they keep
  it when the organization has, or keeps, a team (`KeptExactlyWhenATeamRemains`). They are several statements: two leaves of one user
  that overlap can take the last team (`TwoLeavesAtOnceOrphan`), and so can a single leave during the deletion of the user's other
  team (`LeaveDuringDeletionOrphans`). Which statement takes a last team is known exactly (`DeleteOrphansExactly`,
  `CascadeOrphansExactly`, `EnrolHousesExactly`), and without such overlaps none does (`SeparateRemovalsKeepATeam`).

## Model

| member | source | states |
|---|---|---|
| TunnelInvariant.NextKeeps | apps/relay/src/tunnel.ts:56-451 | Every atomic step of register, unregister, drain, requests, channels and timers keeps all invariants of the protocol together. |
| TunnelRuns.RunsKeep | apps/relay/src/tunnel.ts:56-451 | The invariants hold after every interleaving. |
| TunnelRuns.InstalledIsCurrentOrDisposed | apps/relay/src/tunnel.ts:56-174 | Every tunnel ever installed is either its host's current entry or fully disposed (timer off, requests settled, clients and socket closed), never both; its ping timer is armed exactly while it is current. |
| TunnelRuns.SettledStaysSettled | apps/relay/src/tunnel.ts:242-263 | A settled request keeps its outcome through any later responses, timeouts and repeated disposals. |
| TunnelRuns.RequestsAreConserved | apps/relay/src/tunnel.ts:343-377 | Each accepted request either waits in a live tunnel with its timer armed or has exactly one outcome with its timer cleared; no tunnel holds more than 1000 pending. |
| TunnelRuns.OpenClientsAreHeld | apps/relay/src/tunnel.ts:379-450 | No channel client stays open without being listed by a current tunnel. |
| TunnelRuns.StaleCloseSparesSuccessor | apps/relay/src/tunnel.ts:156-165 | The close handler of a disposed socket changes nothing, so a successor is never removed. |
| TunnelRuns.NoTrafficCrosses | apps/relay/src/tunnel.ts:401-458 | Requests, channel opens and payloads are only ever sent on the socket they belong to. |
| TunnelRuns.SilentTunnelsAreShut | apps/relay/src/tunnel.ts:123-130 | A tunnel that missed three pings has been told to close. |
| TunnelRuns.RegistrationsEnd | apps/relay/src/tunnel.ts:73-97 | A finished registration is an installed tunnel or has its socket closed; it was rolled back exactly when its compare-and-delete was issued; and one whose write succeeded without being installed has had it issued. |
| TunnelRuns.WritesAreAnsweredFor | apps/relay/src/tunnel.ts:76-97 | From any state on, a registration whose directory write came back successful is installed or has its compare-and-delete issued. |
| TunnelRuns.DrainingRegistrationsAreShut | apps/relay/src/tunnel.ts:57-97 | Once draining, every registration that finishes without having been installed before has its socket shut. |
| TunnelRuns.DrainingInstallsNothing | apps/relay/src/tunnel.ts:57-97 | Once draining, no tunnel is installed, whichever registrations were suspended. |
| TunnelRuns.EmptyMapMeansDisposed | apps/relay/src/tunnel.ts:242-263 | With an empty map every tunnel is disposed, every request settled, every finished registration's socket and every client closed. |
| TunnelRuns.DrainedForGood | apps/relay/src/tunnel.ts:192-240 | From the moment drain has disposed its snapshot, in every continuation, the map is empty and nothing of any tunnel is left. |
| TunnelManagerClass.TunnelManager.DisposeTunnel | apps/relay/src/tunnel.ts:242-263 | The disposal loops stop the timer, reject each pending request, close each client and the socket, and touch no other tunnel. |
| TunnelEffects.DisposedIsDisposed | apps/relay/src/tunnel.ts:242-263 | Though the loops only look at what the tunnel still lists, nothing of it is left: every request of it has settled, every client of it is shut. |
| TunnelEffects.AttemptEffect | apps/relay/src/tunnel.ts:76-134 | In every reachable state, a socket becomes its host's tunnel exactly when its write succeeded, it is still open and nothing drains; the displaced tunnel is then disposed; otherwise no host changes, a late write is taken back, and a failed one is tried again exactly while it is not the third. |
| TunnelManagerClass.TunnelManager.RegisterUntilWrite | apps/relay/src/tunnel.ts:56-76 | From every reachable state to a reachable one: while draining the socket is shut and nothing else happens; otherwise the host has no tunnel, the one it had is fully disposed, other hosts keep theirs, and one write was issued. |
| TunnelManagerClass.TunnelManager.RegisterAfterAttempt | apps/relay/src/tunnel.ts:76-134 | From every reachable state to a reachable one: the socket becomes the host's tunnel exactly when the write succeeded, it is still open and nothing drains, and then the host's old tunnel is fully disposed; otherwise no host changes: a late write is taken back, the first two failures are tried again with nothing else touched, and the third shuts the socket. |
| TunnelManagerClass.TunnelManager.RegisterAfterRollback | apps/relay/src/tunnel.ts:88-97 | The registration is over with its socket shut, and no host's tunnel has changed. |
| TunnelManagerClass.TunnelManager.UnregisterTunnel | apps/relay/src/tunnel.ts:156-174 | A socket that is not the host's changes nothing; otherwise the host is free, its tunnel fully disposed, other hosts untouched and the entry given up by compare-and-delete. |
| TunnelManagerClass.TunnelManager.DrainUntilNotified | apps/relay/src/tunnel.ts:192-215 | Everything is refused from now on; the snapshot is exactly the current tunnels, and each open one is sent one notice. |
| TunnelManagerClass.TunnelManager.DrainClearsDirectory | apps/relay/src/tunnel.ts:217-223 | The clear is issued, and even after the wait the snapshot still covers every current tunnel. |
| TunnelManagerClass.TunnelManager.DrainAfterClear | apps/relay/src/tunnel.ts:225-228 | No host has a tunnel; every tunnel ever installed is disposed, every request settled and every channel client shut, not only those of the snapshot. Each open socket of the snapshot was closed with 4001, each open client of its tunnels with 1001, and no other socket was closed or sent anything. |
| TunnelManagerClass.TunnelManager.PingTimer | apps/relay/src/tunnel.ts:123-130 | The third miss leaves the socket shut; before that an open socket gets one ping; no other socket and no host is touched. |
| TunnelManagerClass.TunnelManager.SendHttpRequest | apps/relay/src/tunnel.ts:343-377 | Accepted exactly when the host is connected and below 1000 pending: then the request waits, timed and counted, and an open socket is sent it; refused, nothing changes. |
| TunnelManagerClass.TunnelManager.RequestTimer | apps/relay/src/tunnel.ts:362-365 | The request has timed out, unlisted and with its timer off, and every other request is as it was. |
| TunnelManagerClass.TunnelManager.OpenWsChannel | apps/relay/src/tunnel.ts:379-399 | Throws exactly when the host has no open socket, and then nothing has changed; otherwise the host has the new channel with this client, other channels are untouched and the host is told. The manager stays valid either way. |
| TunnelManagerClass.TunnelManager.ClientConnects | apps/relay/src/index.ts:373-379 | From every valid state to a valid one: the host has the new channel with this client, or the client is shut. |
| TunnelManagerClass.TunnelManager.CloseWsChannel | apps/relay/src/tunnel.ts:406-411 | Whatever the channel and its client: the host has the channel no more, every other channel is as it was, and an open host is told. The manager stays valid when the client is no longer open. |
| TunnelManagerClass.TunnelManager.HandleHttpResponse | apps/relay/src/tunnel.ts:427-433 | In every reachable state a request waiting in the host's tunnel resolves, its timer off and all others untouched; in every other case, a settled or another host's request included, no outcome changes. |
| TunnelManagerClass.TunnelManager.HandleWsFrame | apps/relay/src/tunnel.ts:434-443 | The client of the host's own channel gets the frame if open, and no other socket gets anything; a frame for another host's channel changes nothing. |
| TunnelManagerClass.TunnelManager.HandleWsClose | apps/relay/src/tunnel.ts:444-450 | The host's own channel is gone and its client, if open, was closed with the host's code, or 1000 when it gave none; a close of another host's channel changes nothing, and nobody is sent anything. |
| TunnelManagerClass.TunnelManager.SendWsFrame | apps/relay/src/tunnel.ts:401-404 | The host's socket, if open, is sent the frame after all it was sent before, and nothing else changes; for a host without a tunnel nothing changes. |
| TunnelManagerClass.TunnelManager.HandlePong | apps/relay/src/tunnel.ts:424-426 | The host's tunnel has missed no ping, no other tunnel's count changes, and one heartbeat is sent for the host; for a host without a tunnel nothing changes. |
| TunnelTranscript.RunsAreHeard | apps/relay/src/tunnel.ts:56-459 | Over every run from every state, what a socket is sent is exactly what each step lets it hear while it is open, in order: notices, pings, requests, channel opens, frames and closes for the socket of the host, payloads for the client. |
| TunnelTranscript.ClientFramesArrive | apps/relay/src/tunnel.ts:401-404 | Over every run, the frames of a channel that a socket carries are exactly those its client handed over while that socket served the host and was open, in order. |
| TunnelTranscript.StepShuts | apps/relay/src/tunnel.ts:56-459 | In every step an open socket is closed exactly when the step does away with its tunnel or its tunnel's channel, refuses, gives up or rolls back its registration while draining, misses its third ping, cannot open its channel or is told to by its host; and with exactly that reason's code. |
| TunnelTranscript.ShutOnce | apps/relay/src/tunnel.ts:56-459 | A socket keeps the first code it was closed with, in every run. |
| TunnelTranscript.StepSettles | apps/relay/src/tunnel.ts:242-263 | In every reachable state a waiting request is rejected exactly when its tunnel is done away with, resolved exactly by an answer of its own host, timed out exactly by its own timer, and waits on otherwise. |
| TunnelTranscript.StepCalls | apps/relay/src/tunnel.ts:56-240 | Each step calls the directory exactly so: a write as a registration begins or tries again, a compare-and-delete as one rolls back or a host unregisters, a clear while draining, a heartbeat at an answer. |
| TunnelTranscript.ThreeWritesAtMost | apps/relay/src/tunnel.ts:73-86 | In every run a registration writes at most three times, has written once more than it failed while it waits, and has given up exactly when three writes failed. |
| TunnelTranscript.MissedAreUnanswered | apps/relay/src/tunnel.ts:123-130 | In every run a tunnel has missed exactly the ticks of its timer since it was installed or its host last answered. |
| DirectoryModel.DecodeInvertsEncode | apps/relay/src/directory.ts:27-35 | An owner string is read back if and only if the region is non-empty and holds no colon. |
| DirectoryModel.EncodeIsInjective | apps/relay/src/directory.ts:27-29 | Such owners have distinct owner strings. |
| DirectoryModel.ColonRegionsCollide | apps/relay/src/directory.ts:27-29 | An owner shares its string with another one if and only if its region or its machine id holds a colon. |
| DirectoryRuns.OwnedIsReclaimable | apps/relay/src/directory.ts:37-133 | In every interleaving across machines, every host in OWNER is also in META and TTL. |
| DirectoryRuns.TtlIsLastStamp | apps/relay/src/directory.ts:99-114 | A TTL entry is the last applied stamp plus the grace period, however heartbeats interleave. |
| DirectoryRuns.UnownedBeatEnds | apps/relay/src/directory.ts:99-104 | A heartbeat that finds its host unowned changes nothing, and in every continuation writes nothing, to META or TTL, unless another heartbeat takes its name. |
| DirectoryRuns.BeatsAreForOwned | apps/relay/src/directory.ts:99-105 | In every run, a heartbeat past its first question was told, at the time it stamps, that its host has an owner. |
| DirectoryRuns.LoneBeatStamps | apps/relay/src/directory.ts:99-114 | Let finish alone, with its two writes in either order, a heartbeat sets an owned host's TTL to now and the grace and its last answer to now, keeps its registration time, and leaves everything of an unowned host as it was. |
| DirectoryRuns.SweepTakesExactlyTheStale | apps/relay/src/directory.ts:119-133 | A sweep removes exactly the hosts whose last applied stamp is at least 90 seconds old, and leaves other owners as they were. |
| DirectoryRuns.LookupNamesLastRegistrar | apps/relay/src/directory.ts:93-97 | A lookup names the machine that registered the host last, or nobody. |
| DirectoryRuns.EntryGoesOnlyBy | apps/relay/src/directory.ts:70-160 | A machine's entry goes if and only if that machine unregisters or clears, a sweep finds it stale, or another machine registers. |
| DirectoryRuns.ZombieMetaIsReachable | apps/relay/src/directory.ts:99-114 | For every host, a run that leaves META without TTL and OWNER. |
| DirectoryRuns.ZombieMetaIsNeverReclaimed | apps/relay/src/directory.ts:119-160 | No sweep, clear or unregister ever removes such META. |
| DirectoryMeta.OneStepBreaksExactly | apps/relay/src/directory.ts:99-160 | With META within TTL before it, a step leaves META within TTL if and only if it is not a heartbeat's META write for a host without TTL. |
| DirectoryMeta.MetaAloneExactly | apps/relay/src/directory.ts:99-160 | In every run, whatever is under way or was given up: a host has META without TTL if and only if some META write of it landed while it had no TTL entry, and none was written since. |
| DirectoryMeta.LoneMetaExactly | apps/relay/src/directory.ts:99-160 | In every run, once every heartbeat has ended: a host has META without TTL if and only if a META write landed late, with no TTL write since, of a heartbeat whose own TTL write was taken away before it or failed. |
| DirectoryMeta.MetaFirstKeepsMetaTimed | apps/relay/src/directory.ts:99-114 | Runs whose heartbeats write META before TTL, and in which no TTL write fails, leave META within TTL once every heartbeat has ended. |
| DirectoryMeta.FailedTtlLeavesMeta | apps/relay/src/directory.ts:104-114 | For every host, a run in which a heartbeat whose TTL write fails leaves META alone after an unregister. |
| RelayDirectory.EntryIsLostExactly | apps/relay/src/directory.ts:70-160 | In every joint run of a relay and the directory, a step takes the machine's entry for a host if and only if a delete this relay issued for the host or its clear lands, a sweep finds it 90 seconds old, or another machine registers the host. |
| RelayDirectory.DeletesAreOthers | apps/relay/src/tunnel.ts:87-174 | A delete that can land on a live tunnel's entry was always issued for another registration of the host. |
| RelayDirectory.AnswersFollowWrites | apps/relay/src/tunnel.ts:73-97 | In every joint run, a tunnel that is installed and a registration that is rolled back had a directory write of their host land before, in this machine's name. |
| RelayDirectory.DeletesLandOnce | apps/relay/src/tunnel.ts:87-174 | In every continuation, a delete that has landed never lands again. |
| RelayDirectory.LandingHitsExactly | apps/relay/src/directory.ts:70-91 | In every joint run, a delete that lands takes a live local tunnel's entry if and only if its own host has a tunnel at that moment and the directory names this machine; the tunnel is never the one the delete was issued for. |
| RelayDirectory.PendingDeleteHitsExactly | apps/relay/src/tunnel.ts:87-174 | For every delete issued and not yet landed, by rollback or unregister: some continuation has it take a live tunnel's entry if and only if nothing drains, or the host has a tunnel and the directory names this machine or a write for the host is still to come. |
| RelayDirectory.RollbackHitsExactly | apps/relay/src/tunnel.ts:87-97 | When a written registration takes the rollback branch, its delete may come to take a live local tunnel's entry, in some continuation, if and only if nothing drains, or the host has a tunnel then and the directory names this machine or another registration of the host still waits for its write. |
| RelayDirectory.RollbackErasesNewerRegistration | apps/relay/src/tunnel.ts:87-97 | For every host and any two sockets, a run that ends with the second one the host's open tunnel, the first one's compare-and-delete the last call, and no entry for the host. |
| RelayDirectory.RollbackErasesLaterRegistration | apps/relay/src/tunnel.ts:87-97 | For every host and any two sockets, a run in which the host has no tunnel as the rollback begins and, when its delete lands, loses the entry of the tunnel installed meanwhile. |
| DirectoryClass.Directory.Register | apps/relay/src/directory.ts:40-64 | The host is found at this machine if and only if the region can be carried, it is due for a sweep exactly from 90 seconds on, registered and last heard of now, no other host's lookup, META or due time changes, and every owned host stays in META and TTL. |
| DirectoryClass.Directory.Unregister | apps/relay/src/directory.ts:70-91 | When the entry is the caller's, nothing of the host is left in any of the three tables and everything of the others is; otherwise nothing changes. Every owned host stays in META and TTL. |
| DirectoryClass.Directory.SweepStale | apps/relay/src/directory.ts:119-133 | The sweep's loop leaves nothing of the members whose score is due in any table, and everything of the others, and counts them. |
| DirectoryClass.Directory.ClearStaleEntriesForMachine | apps/relay/src/directory.ts:145-173 | The clear's loop leaves nothing of the hosts with the caller's owner string in any table, and everything of the others, and counts them. |
| DirectoryClass.Directory.Heartbeat | apps/relay/src/directory.ts:99-114 | The same as one method: an owned host is due 90 seconds from now with its registration time kept; an unowned host's entries, and every other host's, are as they were. |
| ProxyBridge.SafeCloseCode | apps/relay/src/proxy.ts:21-33 | The code is always sendable under section 7.4 of RFC 6455, is 1000 only when the upstream's was, and is the upstream's own unless that is unsendable or unassigned. |
| ProxyBridge.NextKeeps | apps/relay/src/proxy.ts:51-136 | Every callback of the bridge keeps its invariants. |
| ProxyBridge.FramesReachUpstream | apps/relay/src/proxy.ts:87-116 | In every run the buffer holds at most 512 frames and the upstream gets two stretches of the client's frames in order; none is lost before it ends if and only if at most 512 arrived before it opened. |
| ProxyBridge.ClientIsClosedOnce | apps/relay/src/proxy.ts:92-107 | The client is closed at most once, with a sendable code, and gets a prefix of the upstream's frames. |
| ProxyBridge.NothingOutlivesTheClient | apps/relay/src/proxy.ts:61-134 | The open timer runs exactly while the upstream connects; a closed client leaves no timer and no connecting or open upstream. |
| ProxyBridge.TimerStaysOff | apps/relay/src/proxy.ts:61-86 | Once off, the timer is never armed again. |
| ProxyBridge.Bridge.OnOpen | apps/relay/src/proxy.ts:69-86 | The client is open with a connecting upstream and the timer on, or it is closed with 1011 alone and there is no upstream; the invariants of the bridge hold before and after every handler. |
| ProxyBridge.Bridge.OnMessage | apps/relay/src/proxy.ts:109-116 | The frame is sent at once when the upstream is open, buffered while there is room and dropped only when exactly 512 wait; the buffer never holds more. |
| ProxyBridge.Bridge.OnUpstreamOpen | apps/relay/src/proxy.ts:87-91 | What was sent is exactly what was buffered, in order; the buffer is empty and the timer off. |
| ProxyBridge.Bridge.OnUpstreamMessage | apps/relay/src/proxy.ts:92-95 | While the client is open it has been sent exactly the upstream's frames, and never anything else. |
| ProxyBridge.Bridge.OnUpstreamClose | apps/relay/src/proxy.ts:96-101 | The timer is off and the client no longer open; an open client was closed with one code, the safe form of the upstream's, any other not again. |
| ProxyBridge.Bridge.OnUpstreamError | apps/relay/src/proxy.ts:102-107 | The timer is off, neither end is open, and an open client was closed with 1011 and nothing else. |
| ProxyBridge.Bridge.OnTimer | apps/relay/src/proxy.ts:77-86 | A timeout finds the upstream never opened: nothing was sent, it is being closed, and an open client was closed with 1011 alone. |
| ProxyBridge.Bridge.OnClose | apps/relay/src/proxy.ts:117-134 | No timer and no connecting or open upstream is left, and the client is not closed a second time. |
| Routing.ReplaysEnd | apps/relay/src/index.ts:120-149 | With an unchanging directory, unless the fleet can loop, a request is replayed at most twice, first to a region and then to an instance; it ends at a tunnel holder or a 503, and at the holder whenever the owner holds the tunnel. |
| Routing.MisplacedOwnerLoops | apps/relay/src/index.ts:138-148 | For every fleet, holders and entry: replays are bounded by two from every start if and only if no machine without the tunnel has the owner's id in another region while another one without it sits in the owner's region; in every other fleet some request is replayed any number of times. |
| Routing.NoReplayToItself | apps/relay/src/index.ts:120-149 | A replay never goes back to the machine that asked for it. |
| Routing.OwnEntriesCannotLoop | apps/relay/src/index.ts:120-149 | An entry a machine of the fleet wrote for itself cannot loop when ids are distinct. |
| Routing.MarkerIsSeen | apps/relay/src/proxy.ts:7-17 | For any percent-decoding that leaves the marker alone, a bridged upgrade is recognised as a hop if and only if its query, decoded, gave the marker no other value first. |
| Routing.BridgedAtMostOnce | apps/relay/src/index.ts:178-211 | Then an upgrade is bridged at most once and never to the relay itself, even if the directory changes between any two visits. |
| Routing.UpgradesAreAnswered | apps/relay/src/index.ts:178-218 | A relay serves an upgrade exactly when it holds the tunnel, hands it on to exactly the other relay the directory names exactly when it was not handed on before, and refuses exactly the rest. |
| Routing.UpgradesReachHolders | apps/relay/src/index.ts:178-218 | While the directory names a relay that holds the tunnel, an upgrade whose query does not give the marker ends at a relay that holds the tunnel, at once or after one bridge to the relay named. |
| Routing.UpgradesAreServed | apps/relay/src/index.ts:178-218 | From every relay there is such a way to be served. |
| Routing.OtherMarkerValueLoops | apps/relay/src/index.ts:189-211 | Otherwise any two distinct relays that name each other can hand it on for any number of visits. |
| EditDistance.DamerauLevenshtein | packages/cli-framework/src/errors.ts:30-64 | The matrix loops return the least cost of a restricted edit script (keep, substitute, insert, delete, swap two neighbours) from one string to the other. |
| EditDistance.CellIsDistance | packages/cli-framework/src/errors.ts:46-61 | The recurrence of one cell is the least cost of its two prefixes. |
| EditDistance.DistanceIsSymmetric | packages/cli-framework/src/errors.ts:30-64 | The distance is symmetric. |
| EditDistance.DistanceBounds | packages/cli-framework/src/errors.ts:30-64 | It is zero exactly on equal strings and lies between the length difference and the larger length. |
| EditDistance.SuggestSimilar | packages/cli-framework/src/errors.ts:11-28 | The first candidate of least distance within the threshold, or nothing exactly when none is within it. |
| ParserLaws.SpellingsAgree | packages/cli-framework/src/parser.ts:64-172 | Anywhere before `--`, writing `flag value` as `flag=value` changes nothing, errors included, for options that take a value. |
| ParserLaws.SpellingsAgreeHere | packages/cli-framework/src/parser.ts:103-168 | The same at one place; a value that begins with a dash is refused in the spaced spelling only. |
| ParserLaws.NegationIsFalse | packages/cli-framework/src/parser.ts:93-123 | `--no-x` and `--x=false` parse alike. |
| ParserLaws.ParseUndoesRender | packages/cli-framework/src/parser.ts:31-230 | Typed values that fit their options, printed as `flag=text`, then `--`, then positionals, parse back to exactly those values, lists of variadic options in order, and to those positionals if and only if none is `--`; any printing of numbers that reads back will do. |
| ParserLaws.OneSettingComesBack | packages/cli-framework/src/parser.ts:103-121 | One value printed for one option parses to that value, and nothing else is set. |
| ParserLaws.StringsAreKept | packages/cli-framework/src/parser.ts:266-273 | For a string option a text becomes itself, unchanged, exactly when there is no list of values or it is in it, and is refused otherwise. |
| ParserLaws.NumbersAreRead | packages/cli-framework/src/parser.ts:237-257 | For a number option a text is taken exactly when it reads as a number that is whole if need be and within both bounds, and becomes that number; otherwise the error says which of the three failed, in that order. |
| ParserLaws.BooleansAreRead | packages/cli-framework/src/parser.ts:259-264 | For a boolean option `true` and `1` become true, `false` and `0` false, in any case, and everything else is refused. |
| ParserLaws.SwitchesAreSet | packages/cli-framework/src/parser.ts:132-145 | A boolean flag is true unless the next token spells a truth value, which is then taken as its value. |
| ParserLaws.UnknownFlagsAreRefused | packages/cli-framework/src/parser.ts:104-130 | A flag that nothing declares is refused by its name, alone and with a value. |
| ParserLaws.HelpAndVersion | packages/cli-framework/src/parser.ts:78-91 | Each is asked for by its flag or letter exactly when the command has no option of that flag. |
| ParserLaws.WordsArePositional | packages/cli-framework/src/parser.ts:67-76 | A token without a dash, or any token after `--` but another `--`, is the next positional. |
| ParserLaws.FlagsAreNamed | packages/cli-framework/src/parser.ts:48-59 | A name gets two dashes, a letter one, and a flag is left as it is. |
| ParserLaws.TablesAgree | packages/cli-framework/src/parser.ts:46-62 | With distinct keys, all flags and aliases of an option lead to the same entry. |
| ParserLaws.FinishFillsOnlyGaps | packages/cli-framework/src/parser.ts:174-227 | A successful parse keeps every given value, fills unset keys from the environment and then the default and adds no others, and meets every requirement and conflict rule. |
| ParserLaws.NothingMissing | packages/cli-framework/src/parser.ts:193-206 | The check of required options passes exactly when none is missing. |
| ParserLaws.NothingConflicts | packages/cli-framework/src/parser.ts:208-227 | The check of conflicts passes exactly when no option is set together with one it conflicts with. |
| ParserLaws.FirstMissingIsFirst | packages/cli-framework/src/parser.ts:193-206 | The missing option reported is the first one required and not set, an empty list counting as not set. |
| ParserLaws.FirstConflictIsFirst | packages/cli-framework/src/parser.ts:208-227 | The conflict reported is that of the first option set together with one it conflicts with, and the first such one. |
| ParserLaws.FinishFails | packages/cli-framework/src/parser.ts:174-227 | A parse whose tokens were read fails for a variable that does not read, or else for a missing option, or else for a conflict. |
| Parser.BuildFlags | packages/cli-framework/src/parser.ts:46-62 | A flag is in the table if and only if some option declares it, and leads to the last option that does. |
| Parser.ParseTokens | packages/cli-framework/src/parser.ts:64-172 | The token loop computes the declared reading of the tokens, whose meaning the laws of `ParserLaws` give case by case. |
| Parser.Parse | packages/cli-framework/src/parser.ts:31-230 | The whole parser, with the first error: tokens, environment, defaults and checks, in that order. |
| RouterClass.CommandTree.Build | packages/cli-framework/src/router.ts:16-65 | Inserting segment by segment into the mutable tree gives the declared tree of all groups and commands, and the map of the last command at each joined path. |
| RouterClass.CommandTree.RouteCommand | packages/cli-framework/src/router.ts:67-109 | The walk over the nodes is the declared routing. |
| RouterClass.CommandTree.GetNode | packages/cli-framework/src/runner.ts:164-175 | The node at a path, exactly when the tree has that path. |
| RouterClass.CommandTree.Insert | packages/cli-framework/src/router.ts:31-41 | A path is entered, every other node stays as it was. |
| RouterClass.SplitForRouting | packages/cli-framework/src/runner.ts:124-162 | The splitter's loop is the declared split. |
| RouterLaws.PathsArePrefixes | packages/cli-framework/src/router.ts:30-62 | The tree's paths are exactly the prefixes of the group and command paths. |
| RouterLaws.ChildrenAreListed | packages/cli-framework/src/router.ts:32-41 | A node lists a child exactly when the child's path is in the tree, and once. |
| RouterLaws.LaterChildrenFollow | packages/cli-framework/src/router.ts:31-41 | What is entered later comes after: a node's children keep their places, so the first alias and the suggestions go by the order of registration. |
| RouterLaws.PathsRouteToThemselves | packages/cli-framework/src/router.ts:75-108 | A path of the tree routes to itself with nothing left; a leaf gives back whatever follows it. |
| RouterLaws.RouteIsRight | packages/cli-framework/src/router.ts:67-109 | For all arguments: the walk descends one node per segment, by name before alias, and stops at the end, a flag or a leaf; it fails exactly on a segment that is no candidate of the node reached. |
| RouterLaws.AliasMatches | packages/cli-framework/src/router.ts:79-87 | An alias selects the first child, in insertion order, that has it. |
| RouterLaws.TreeIsMarked | packages/cli-framework/src/router.ts:42-63 | Every node of the tree has the aliases of the last command at its path that gives any, or else of the last group there, and is marked exactly when a command is registered there. |
| RouterLaws.CandidatesAre | packages/cli-framework/src/router.ts:89-95 | A wrong segment is compared with exactly the names and aliases of the node's children, the names first and in order. |
| RouterLaws.MapHoldsTheLast | packages/cli-framework/src/router.ts:61 | A joined path answers with the last command that joins to it. |
| RouterLaws.RegisteredPathRunsLast | packages/cli-framework/src/router.ts:46-62 | Typing a registered path, slashes in its segments included but none of them a flag, runs the command registered there if and only if no later command has the same joined path (commands being told apart by their configuration). |
| RouterLaws.SlashFreePathRunsItsLast | packages/cli-framework/src/router.ts:46-62 | With slash-free segments that is the last command registered at the path. |
| RouterLaws.JoinCollides | packages/cli-framework/src/router.ts:61 | A path shares its joined path with another if and only if it is not one non-empty segment without a slash. |
| RouterLaws.SplitDealsAll | packages/cli-framework/src/runner.ts:124-162 | The splitter deals every token to exactly one of two order-preserving subsequences. |
| RouterLaws.SegmentsAreWords | packages/cli-framework/src/runner.ts:136-141 | No flag is taken for a command name. |
| RouterLaws.GlobalsAreRead | packages/cli-framework/src/runner.ts:142-156 | A global goes to the parser by its name, with two dashes or one, with an equals sign and its value, or, when it takes a value, with the next token; reading goes on after it. |
| RouterLaws.OtherFlagsStop | packages/cli-framework/src/runner.ts:157-160 | Any other flag, in each of these spellings, ends the reading: it and all that follows go to the command's parser. |
| RouterLaws.GlobalsDoNotRoute | packages/cli-framework/src/runner.ts:117-156 | A global flag with its value can stand anywhere the splitter still reads without changing the command. |
| RouterLaws.LeafArgumentsComeBack | packages/cli-framework/src/runner.ts:235-240 | For a leaf command, the words and everything from the first unknown flag on reach the command's parser as typed. |
| RoutedParse.MovedAgrees | packages/cli-framework/src/runner.ts:117-156 | For every stretch the splitter reads and everything it stops at: parsing as typed and parsing after splitting differ exactly when the first succeeds and a boolean global is followed by a word that spells a truth value. |
| RoutedParse.RoutedParsesAsTyped | packages/cli-framework/src/runner.ts:117-240 | The arguments after a leaf command's path parse the same as typed and as split and routed if and only if they fail as typed or no boolean global stands before `true`, `false`, `1` or `0`, in any case. |
| RoutedParse.WholeParseAgrees | packages/cli-framework/src/runner.ts:235-240 | The same with environment, defaults and checks. |
| RoutedParse.SwitchLosesItsWord | packages/cli-framework/src/runner.ts:148-156 | For every boolean global, `flag word` sets the option to the word as typed, and to true with the word left as a positional once routed. |
| Basics.JoinIsInjective | packages/cli-framework/src/router.ts:61 | Slash-free paths that are not the root have distinct joined paths. |
| Basics.DecimalReads | packages/port-scanner/src/port-manager.ts:463-465 | A number is written in its own digits, without a leading zero. |
| Basics.LowerIsSmall | packages/cli-framework/src/parser.ts:259-264 | Lower case turns each of the 26 capital letters into its small one and leaves every other character. |
| PortManagerClass.PortManager.UpdatePortsForTerminal | packages/port-scanner/src/port-manager.ts:403-461 | The terminal tracks a port exactly when it has a winner, the first least record of a port that is not ignored, with the winner's process, name and address; whose it is and since when is kept from an entry there was. Other terminals are untouched. Exactly the changed entries are announced, each once as removed, as added or as both, and the events replay to the index. |
| PortManagerClass.PortManager.UpsertPort | packages/port-scanner/src/port-manager.ts:424-453 | The entry holds the port, process, name and address found; workspace and age are the old entry's, or else the caller's. A new one is announced as added, a changed one as removed and then added, an unchanged one not at all. |
| PortModel.ChangedIsVisible | packages/port-scanner/src/port-manager.ts:438-452 | A port tracked before and after an update is announced if and only if its winner's process, name or address is not the entry's. |
| PortManagerClass.PortManager.ScanEnd | packages/port-scanner/src/port-manager.ts:384-400 | After a scan every registered terminal tracks exactly its winners, each as it was found, or nothing, or what it had, even when sessions were removed mid-scan; every tracked port has a session. First exactly what the scan changed is announced, each entry once, and then exactly what no session claims. |
| PortManagerClass.PortManager.ScanBegin | packages/port-scanner/src/port-manager.ts:366-375 | At most one scan is in flight; a call during one queues one follow-up. |
| PortManagerClass.PortManager.UnregisterSession | packages/port-scanner/src/port-manager.ts:151-155 | The session and exactly its ports are forgotten, each announced as removed, once, and nothing else is announced. |
| PortManagerClass.PortManager.RemovePortsForTerminal | packages/port-scanner/src/port-manager.ts:467-480 | Ports are deleted first and announced after, each once; the stream still replays to the index. |
| PortManagerClass.PortManager.CleanupUnregisteredPorts | packages/port-scanner/src/port-manager.ts:357-364 | Exactly the ports without a session go, each announced once. |
| PortManagerClass.PortManager.UpsertSession | packages/port-scanner/src/port-manager.ts:139-146 | A session is entered; ports and events stay. |
| PortModel.DedupePortInfosByPort | packages/port-scanner/src/port-manager.ts:77-88 | For every port, the first of its least records under the comparison. |
| PortModel.BestIgnoresOrder | packages/port-scanner/src/port-manager.ts:67-88 | The winners do not depend on the order of the records, up to records that compare equal. |
| PortModel.BestIsUnique | packages/port-scanner/src/port-manager.ts:67-88 | They are the same records when the collation tells distinct strings apart. |
| PortModel.WinnerIsLeast | packages/port-scanner/src/port-manager.ts:67-75 | Of the records of a port the winner has the least process id, of those the least name, of those the nearest address, and of those the least. |
| PortModel.AddressesRank | packages/port-scanner/src/port-manager.ts:41-59 | This host comes before any address, any before another without a colon, and all without a colon before those with one, which are ordered likewise; letter case does not matter. |
| PortModel.MakeKeyIsInjective | packages/port-scanner/src/port-manager.ts:463-465 | String keys of distinct terminal and port pairs are distinct, whatever the ids hold. |
| PortModel.OwnedAre | packages/port-scanner/src/port-manager.ts:320-333 | The records grouped under a terminal are exactly those whose process it owns. |
| PortModel.OwnedInOrder | packages/port-scanner/src/port-manager.ts:320-333 | They are grouped one by one, in the order found, each as often as it was found. |
| PortModel.VisibleInOrder | packages/port-scanner/src/port-manager.ts:414-416 | Only records of ignored ports are left out, and the others keep their order. |
| Procfs.MergeAll | packages/port-scanner/src/procfs.ts:207-219 | The map updates in completion order. |
| Procfs.MergedIsLeast | packages/port-scanner/src/procfs.ts:207-219 | Every inode seen, and no other, goes to an observed pid that none observed there ranks before: to a ranked one of least rank as soon as any ranked one was observed there. |
| Procfs.OrderIsIrrelevantWithoutTies | packages/port-scanner/src/procfs.ts:207-219 | The map is the same for every completion order if and only if no inode has two least pids. |
| Procfs.RankedPidsDoNotTie | packages/port-scanner/src/procfs.ts:253-260 | The scan's ranks leave no ties. |
| Limiter.RunsKeep | packages/port-scanner/src/procfs.ts:149-170 | In every run `active` counts the running jobs, the queue holds each waiting job once and in order, and no place stays free while one waits. |
| Limiter.WokenInOrder | packages/port-scanner/src/procfs.ts:157-168 | Waiters are woken first in, first out. |
| Limiter.NoneStranded | packages/port-scanner/src/procfs.ts:156-168 | While a job waits, at least the limit run or are woken; when nothing does, nothing waits. |
| Limiter.RunsOnce | packages/port-scanner/src/procfs.ts:155-170 | A finished job never waits or runs again. |
| Limiter.RoomIsKeptUnlessBarged | packages/port-scanner/src/procfs.ts:156-162 | Running and woken stay within the limit after a step if and only if it is not a call that starts on a place already promised. |
| Limiter.OverrunIsAhead | packages/port-scanner/src/procfs.ts:156-168 | The jobs already in can exceed the limit if and only if running and woken together do. |
| Limiter.PromptRunsKeepTheLimit | packages/port-scanner/src/procfs.ts:149-170 | When nothing is called between a wake and its increment, running never exceeds the limit. |
| Limiter.LimitCanBeExceeded | packages/port-scanner/src/procfs.ts:156-168 | For every limit, a run in which one more than the limit run. |
| Limiter.PromiseLimiter.Enter | packages/port-scanner/src/procfs.ts:155-163 | The job starts exactly when fewer than the limit run, and then at most the limit do; otherwise it is last in the queue and at least the limit run or are woken. |
| Limiter.PromiseLimiter.GoOn | packages/port-scanner/src/procfs.ts:162 | The woken job runs on the place that was promised to it: running and woken together stay the same, and so does the queue. |
| Limiter.PromiseLimiter.Leave | packages/port-scanner/src/procfs.ts:166-169 | The job is done for good; whoever is woken is the one that waited longest, nobody only when nobody waited, and while others wait at least the limit run or are woken. |
| HashFraming.StreamIsInjective | scripts/release/build-checkpoints.ts:14-28 | Equal byte streams were fed by the same files with the same contents in the same order. |
| HashFraming.FramesTellTreesApart | scripts/release/build-checkpoints.ts:16-27 | Two trees feed the same files if and only if they are equal once empty directories are left out. |
| HashFraming.DigestsIdentify | scripts/release/build-checkpoints.ts:14-28 | With a collision-free digest, equal digests mean equal files. |
| HashFraming.DigestsTellOutputsApart | scripts/release/build-checkpoints.ts:13-28 | With a collision-free digest, two lists of outputs have the same digest if and only if each output is the same tree, once empty directories are left out: nothing moves from one output to another unseen. |
| JournalRuns.NextKeeps | scripts/release/build-checkpoints.ts:52-88 | Every step, kill, restart, file change and journal damage keeps the journal's invariants. |
| JournalRuns.JournalIsBacked | scripts/release/build-checkpoints.ts:52-88 | Every record on disk was made by a completed action of that step under that input. |
| JournalRuns.ReuseIsSound | scripts/release/build-checkpoints.ts:58-68 | A reused step's outputs are, file for file, what a completed action under the same input left when hashed. |
| JournalRuns.InterruptedIsNotReusable | scripts/release/build-checkpoints.ts:69-81 | From the start of an action until its own record is saved, no build reuses its step, through any kills and restarts. |
| JournalRuns.OtherStepsSurvive | scripts/release/build-checkpoints.ts:69-88 | Running other steps, killed anywhere, never loses or changes a step's record. |
| JournalRuns.FinishedRunIsReusable | scripts/release/build-checkpoints.ts:52-84 | A run let finish records its outputs, and the next such run may reuse them. |
| JournalRuns.DamageForgets | scripts/release/build-checkpoints.ts:43-51 | A build that opens on a damaged journal takes no record from it and reuses nothing. |
| BuildCheckpointsClass.BuildCheckpoints.Run | scripts/release/build-checkpoints.ts:52-84 | The object goes through exactly these killable steps of the journal: a reuse; or the old record cleared and saved before the action, then the action, the hash and the save of the new record; a throw ends after the action or the hash. Its outcome, records, files and timings follow from whether the outputs could be reused. |
| BuildCheckpointsClass.BuildCheckpoints.Save | scripts/release/build-checkpoints.ts:85-88 | The text is opened beside the journal, written there, and only then renamed over it, in this order. |
| BuildCheckpointsClass.HashFiles | scripts/release/build-checkpoints.ts:14-28 | The recursive feeding of the hash feeds exactly the framed files. |
| BuildCheckpointsClass.Feed.Add | scripts/release/build-checkpoints.ts:16-26 | One path, with all below it, is fed in order. |
| TaskQuery.EscapedMatchesOnlyItself | packages/db/src/task-list-query.ts:56-58 | An escaped string matches itself, up to case folding, and nothing else. |
| TaskQuery.ContainsPattern | packages/db/src/task-list-query.ts:106-115 | `%escaped%` matches exactly the texts that contain the string. |
| TaskQuery.PrefixPattern | packages/db/src/task-list-query.ts:121-128 | `escaped%` matches exactly the texts that begin with it. |
| TaskQuery.UnescapedIsExactOnlyIfPlain | packages/db/src/task-list-query.ts:56-58 | Unescaped, a string matches exactly itself if and only if it holds no special character. |
| TaskQuery.ConditionsMeanWanted | packages/db/src/task-list-query.ts:60-143 | The pushed conditions, under SQL's three-valued logic, select exactly the rows the filters ask for, and no search text makes one fail on any row. |
| TaskQuery.NoConditionFails | packages/db/src/task-list-query.ts:60-143 | For every filter and row, selected or not, every condition evaluates without failing. |
| TaskQuery.BuildConditions | packages/db/src/task-list-query.ts:60-143 | The conditions pushed select exactly the wanted rows of every table, and fail on none. |
| Reach.ClosedIsReachable | packages/pty-daemon/src/process-tree.ts:144-151 | A closed set of reachable nodes with the root is exactly the reachable ones: the reference for the searches. |
| ProcessTree.CollectProcessTree | packages/pty-daemon/src/process-tree.ts:132-154 | For any table, cycles and repeated rows included, exactly the pids reachable from the root, each once, parents before children. |
| ProcessTree.CollectSignalTargets | packages/pty-daemon/src/process-tree.ts:44-90 | Exactly the wanted groups and processes, no duplicates, groups first, no group 1 or below, never the caller's own group when known and excluded, never the root when excluded. |
| ProcessTree.CollectGroups | packages/pty-daemon/src/process-tree.ts:59-75 | The groups of the tree's members that may be signalled, each once, by the last row of each member. |
| Closures.FindOffenders | apps/desktop/scripts/validate-native-runtime.ts:369-389 | The worklist reports exactly the offending chunks the entry loads, each once. |
| Closures.PackageCopy.Copy | packages/cli/scripts/build-dist.ts:250-294 | On success the copied packages are closed under dependencies and installed peers despite cycles, and each new one is reachable from the one asked for through such needs. It throws only when the one asked for, or a dependency of one that it copied, is not installed. |
| Closures.PackageCopy.CopyAll | packages/cli/scripts/build-dist.ts:281-292 | The same for the needs of one package: each new one is reachable from it. |
| Teams.NextKeeps | packages/auth/src/server.ts:459-630 | Adding, removing, leaving and deleting keep every member in a team of the organization. |
| Teams.EveryMemberHasATeam | packages/auth/src/server.ts:459-630 | The same in every run that never deletes a last team. |
| Teams.KeptExactlyWhenATeamRemains | packages/auth/src/server.ts:459-630 | A step keeps it if and only if a team remains for those concerned, or no member was in the team deleted. |
| TeamLeaves.TwoLeavesAtOnceOrphan | packages/auth/src/server.ts:478-495 | From every database that houses its members: two leaves of a member of exactly two teams, both counted before either deletes, leave the member without a team. |
| TeamLeaves.DeleteOrphansExactly | packages/auth/src/server.ts:478-495 | Whatever happened since its count, the delete of a leave takes a member's last team if and only if the member is the one leaving and has no row in another team of the organization at that moment. |
| TeamLeaves.CascadeOrphansExactly | packages/auth/src/server.ts:497-547 | Whatever happened since the hook looked, the delete of a team takes a member's last team if and only if the member has no row in another team of the organization at that moment. |
| TeamLeaves.EnrolHousesExactly | packages/auth/src/server.ts:609-630 | A newcomer gets a team if and only if the one picked is still there when the row is written. |
| TeamLeaves.LeaveDuringDeletionOrphans | packages/auth/src/server.ts:478-547 | For every member of exactly two teams: a run with one leave only, complete between the look for other teams and the cascade of the other team's deletion, that leaves the member without a team while others remain. |
| TeamLeaves.SeparateRemovalsKeepATeam | packages/auth/src/server.ts:459-630 | With every hook and its library statement split into their queries and writes: in every run in which no removals overlap, no newcomer is given a team that is being deleted, and a team remains, every member who is not being added or removed has a team after every statement. |
| TeamLeaves.AloneIsNext | packages/auth/src/server.ts:459-630 | For every event and database, the statements of its hook and of the library, run with nothing in between, make exactly the change that the event stands for and leave nothing under way. |
| Teams.Organizations.AddMember | packages/auth/src/server.ts:609-630 | Everybody has a team afterwards if and only if the organization has one; then the newcomer is in the oldest; no other member's rows change. |
| Teams.Organizations.RemoveMember | packages/auth/src/server.ts:459-476 | Exactly the rows of this member in this organization go, whichever team they are of, and everybody who stays keeps a team. |
| Teams.Organizations.LeaveTeam | packages/auth/src/server.ts:478-495 | Refused exactly when the user is in no other team of the organization; otherwise exactly that row goes; everybody keeps a team. |
| Teams.Organizations.DeleteTeam | packages/auth/src/server.ts:497-547 | Exactly the team's rows go, and exactly those whose user was in no other team of the organization gain a row in the oldest other team; everybody keeps a team when another one remains. |

## Left out

- The online-status writer (`apps/relay/src/tunnel.ts:265-337`): its version counter restarts, so the natural claim about it is not an invariant.
- The back-off sleeps between directory write attempts: each attempt with its sleep is one suspended stretch.
- JWT verification, access checks, host-facing HTTP plumbing, error reporting and real timers: only socket states, integer time and the order of callbacks are kept.
- Frame encodings (base64, binary) and message contents beyond their kind, request, channel and text.
- `killPort`, scan child processes and their abort signals: a scan's answer is an arbitrary result, and all its updates share one time.
- `localeCompare` is taken as a comparison of collation keys; `dedupePortInfosByPort`'s final sort only fixes the order of the events.
- The hex decoding of addresses in `procfs.ts` and the column splitting of `/proc/net/tcp` rows: they would only add easy members.
- Parsing of numbers: `Number()` is a parameter; infinite values and the merge of global and command options are not modelled (the merged table is the input).
- A variadic boolean option negated by `--no-` and then given again: the source throws a TypeError there, the model starts a new list.
- Help and version output, output formatting, the option builders and positional binding of the command line.
- The web framework's query reader: it is taken to return the first parameter whose decoded name matches, and percent-decoding is a
  parameter that leaves the hop marker alone. The framework is not part of this model.
- The text of a routing error: the model's error carries the segment and the candidates that the suggestion is chosen from.
- The sizes hashed are those of the bytes read: a file that changes while it is being hashed is not modelled.
- The digest is a parameter; where collisions matter it is required to be injective.
- A journal altered into other valid JSON: damage makes the file unreadable. Hashing for a reuse and returning its answer are one step.
- Two builds writing one journal at the same time, and loss of unsynced writes at a power failure: a kill leaves every completed write.
- ILIKE folds character by character; collations that fold to several characters are not modelled, nor are ordering and date normalisation of task lists.
- PostgreSQL, Redis and Fly themselves: tables are maps and sets, a script or statement is one step, a replay arrives anywhere its header allows.
- The parsing of `ps` output, the signalling itself, and reading chunk sources for their requires.
- Closures.PackageCopy.Copy: packages are identified by name as in the source, so a second version of a copied name is not copied; copying of files is not modelled.
- Email, billing, rate limits and session building of the organization hooks, and the creation of an organization with its first team.
- A directory write that lands after its registration has given it up: a write lands while its registration still waits for one.
- An error on a client's socket that is still open: the error is taken to come as the socket closes. `CloseWsChannel` says what it does
  at any time, and that the manager stays valid once the client is not open.
- File modes and symbolic links among the hashed outputs: a link counts as the file or directory it leads to.
- The organization library's own checks before its inserts and deletes.
- The `/tunnel` socket handlers' authentication steps: a registration begins after them.
