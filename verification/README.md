# landscape-rill in Dafny

A Dafny 4.11 model of the I/O-free core of `landscape-rill` (a mesh coordinator with a dn42 leg), with proofs about
it. `dafny verify dfyconfig.toml` checks everything.

What is modelled, and the main result of each part:

- **Path service and network domain** (`PathModel`, `PathIds`, `PathMirror`, `PathVersions`, `PathShape`, `PathOrder`,
  `PathReplay`, `PathDivergence`, `PathService`, `NetworkDomain`, `RelayRoster`, `CoordPaths`, `RosterLogs`). In every
  run the events queued for a node rebuild exactly the server's candidate lists for its pairs; sets keep their shape,
  budget and roster; path ids never repeat; up to path ids nothing depends on hash-map order, and the ids do not
  exactly when at most one pair takes any; a proposed relay roster is exactly the closest eligible relays and the
  configured ones, each once, and paths go through registered relays exactly while no roster outlives a revocation.
- **BGP codec and framer** (`WireModel`, `WireRoundTrip`, `WireExact`, `WirePanics`, `FrameReader`, `Codec`), after
  sections 4.1 to 4.3 of RFC 4271, RFC 4760, RFC 6793, RFC 5492 and RFC 2918. A message comes back in normal form
  exactly when it is well formed; streams come back under every chunking; all chunkings of any bytes agree; the bytes
  on which decoding panics are exactly described.
- **Replicated coordinator** (`NetworkId`, `Registry`, `KeyRotation`, `Liveness`, `Directory`, `CoordCore`,
  `CoordinatorModel`, `NetmapEffects`, `Coordinator`, `Persistence`, `Recovery`, `KeyDrift`, `Machine`, `ReplicaRuns`,
  `StateMachine`, `Replicas`, `PathIdSplit`, `SnapshotInstall`, `Audit`, `WriteThrough`, `Lifecycle`, `SpentKeys`,
  `NetworkRotation`). Each log entry is applied exactly once over any crashes; replicas of one log agree on all but
  keys and path ids, whatever their hash maps, heartbeats and crashes; a saved state is accepted exactly when no public
  key lives in two networks; replicas never contradict each other in an audit except in one exactly described case; one
  version of the network map stands for one map; what is not written is already on file, so a crash loses nothing
  but leases while the networks stay; ids are never reissued; one-time keys admit once over all lives exactly when no
  two configured names hash to one id; rotations are delivered and spaced.
- **Local RIB with import policy** (`RibModel`, `Policy`, `Rib`, `LocRib`, `RibContents`). Replaying the change stream
  gives the best-path table; the counter is the number of stored pairs; contents are the last admitted announcements,
  for UPDATEs that hit the limit too.
- **Route map with flap damping** (`RouteMapModel`, `RouteMap`, `RouteSweeps`, `RouteReport`). Under a clock that
  never runs backwards, a route enters or leaves the table at most three times in any 600 seconds between sweeps of
  its node, and with sweeps at most two times more for each; both bounds are met. The table and the version after a
  report are given over the report and the table before it.
- **Prefix algebra and longest-prefix lookup** (`Prefix`, `RouteEngine`). Every law is stated with the exact pairs on
  which it fails.
- **Base32, auth keys, the Internet checksum** (`Base32`, `AuthKey`, `Icmp`), after section 6 of RFC 4648 and RFC
  1071.

Objects that the program mutates are classes whose methods are proved against functions; the functions carry the
theorems. Hash-map iteration orders, clocks and randomness are parameters or arbitrary choices. A signature is
modelled as the signed message itself, tagged; whether a claimed signature checks out is part of the claim.

## What the code does differently from its documentation

The model follows the code in each of these, and a lemma states when the documented behaviour holds.

- `::/0` compared with a single IPv6 address shifts a 128-bit word by 128 bits. A build with overflow checks panics
  there. A build without them, which is what is modelled, shifts by nothing, so `::/0` contains every IPv6 block but
  matches no address other than `::`. Containment is then not transitive, an IPv6 default route is never found for
  such an address, and a whitelist or bogon list with `::/0` misjudges single addresses (`Prefixes.DefaultMissesHost`,
  and the exact conditions in `Prefixes`, `RouteEngine`, `Policy` and `Registries`).
- Decoding is documented as free of panics; an UPDATE panics exactly when reading comes to an NLRI length octet above
  128 with enough bytes behind it (`WirePanics.DecodePanicsExactly`, `WirePanics.OverlongFramePanics`).
- An OPEN whose capabilities take 254 or 255 bytes is encoded without error and loses them, or is rejected, when read
  back (`WireExact.CapabilitiesLost`).
- The route map documents one version per change; a report that only renames next hops changes the table under an
  unchanged version, and one that withdraws just the routes it brings moves the version over an unchanged table
  (`RouteReport.SilentExactly`, `RouteReport.BumpExactly`).
- Flap damping forgets a node's history when its routes are swept, so every sweep allows two more moves in the window
  (`RouteSweeps.LimitHoldsExactly`, `RouteSweeps.BounceMoves`).
- The prefix count of the RIB includes entries that a refusal at the limit leaves without a path
  (`RibContents.RefusalLeavesEmptyEntry`).
- Spent one-time keys are documented never to revive. Saved state is matched to networks by the 32-bit hash of their
  names, which is checked for collisions only inside one configuration; after a restart under another name with the
  same id, the next operation that writes drops the spent keys from the file, and the old name brings the key back
  (`SpentKeys.OneTimeOnceExactly`, `SpentKeys.SpentKeyRevives`). A restart alone writes nothing, so without such a
  write the key stays spent, whatever the names (`SpentKeys.OneTimeOnceOnFile`, `SpentKeys.OnceAdmissions`).
- Two replicas can answer Verified and Conflict about one claim when the registration is the first entry of the log
  and one replica has applied nothing (`Audit.SplitVerdictExactly`, `Audit.FirstEntrySplits`). A log that openraft
  initialises starts with its membership, so there it does not arise (`Audit.NoSplitVerdict`).
- Replicas are documented to replay the log deterministically. They do so for everything but path ids and keys
  (`Replicas.RunsAgree`):
  - Each process visits the pairs of its own hash map while a new roster hands out path ids, so replicas give the same
    paths different ids as soon as one roster gives new ids to two pairs, and not before (`Replicas.OneCoreExactly`).
    Four registrations, two requests and one roster are enough (`PathIdSplit.ReplicasSplit`).
  - The replica that serves a heartbeat applies due key rotations outside the log
    (`ReplicaRuns.HeartbeatDriftsExactly`); nothing else ever depends on that (`KeyDrift.CommandSame`).
  - A replica that installs a snapshot starts without auth keys and whitelists, refuses every registration, and leaves
    agreement for good at the first one the others admit, unless its configuration is applied before
    (`SnapshotInstall.SnapshotAgrees`, `SnapshotInstall.InstallThenConfigure`).
- A revocation takes the node off the roster; a roster proposed before it and applied after it puts the node back
  (`RosterLogs.RostersServeExactly`).

## Model

| member | source | states |
|---|---|---|
| `PathMirror.RunMirrored` | rill-coord/src/path_service.rs:93-344 | in every run, replaying the events pushed to an end of a pair gives exactly the server's candidates of that pair |
| `PathMirror.StepCarries` | rill-coord/src/path_service.rs:93-344 | one operation's events turn the old candidates of a pair into the new ones at both ends, and ids stay distinct and fresh |
| `PathMirror.RunIdsNeverReissued` | rill-coord/src/path_service.rs:368-372 | path ids are pairwise distinct in every reachable table and an id that left never returns |
| `PathVersions.StepVersions` | rill-coord/src/path_service.rs:93-344 | a set that an operation changes and keeps gets a higher version, every other kept set is as it was |
| `PathService.QueuesBounded` | rill-coord/src/path_service.rs:165-172 | a queue never exceeds its capacity |
| `PathService.NothingLost` | rill-coord/src/path_service.rs:165-172 | a node whose queue was never full is handed every event once, in order |
| `PathService.PathService.QueueMirrors` | rill-coord/src/path_service.rs:145-172 | what was taken and what is pending together rebuild the server's candidates while the queue never saturated |
| `PathService.PathService.PushEvent` | rill-coord/src/path_service.rs:165-172 | appends to the queue below the cap, drops at it |
| `PathService.PathService.PushOnce` | rill-coord/src/path_service.rs:264-275 | each target gets the event once, in order of first mention |
| `PathService.PathService.Request` | rill-coord/src/path_service.rs:93-139 | does what the request function says and returns the stored candidates |
| `PathService.PathService.WithdrawNode` | rill-coord/src/path_service.rs:175-205 | visits every affected pair in some order; tables and events as specified |
| `PathService.PathService.WithdrawRelay` | rill-coord/src/path_service.rs:209-220 | visits every set through the relay in some order; tables and events as specified |
| `PathService.PathService.ShrinkSet` | rill-coord/src/path_service.rs:223-261 | withdraws candidates, drops an emptied set, re-announces what is left |
| `PathService.PathService.ExpandRelayCandidates` | rill-coord/src/path_service.rs:278-344 | visits every set once in some order; tables, ids and events as specified |
| `PathService.PathService.TakeEvents` | rill-coord/src/path_service.rs:347-349 | empties the queue of a node and returns it |
| `PathShape.RequestFills` | rill-coord/src/path_service.rs:93-139 | a live set is returned unchanged; a rebuilt one has min(budget, 1 + relays) candidates with consecutive fresh ids |
| `PathShape.RequestShaped` | rill-coord/src/path_service.rs:93-139 | a request keeps every set in shape over the roster |
| `PathShape.WithdrawNodeSwept` | rill-coord/src/path_service.rs:175-205 | after the pass no set touches the node and the others keep their shape |
| `PathShape.WithdrawRelaySwept` | rill-coord/src/path_service.rs:209-261 | after the pass no candidate passes through the relay and the others keep their shape |
| `PathShape.ExpandWell` | rill-coord/src/path_service.rs:278-344 | kept candidates stay in front with their ids and every unexpired set ends with min(budget, 1 + usable relays) candidates |
| `PathOrder.ExpansionOrderIndependent` | rill-coord/src/path_service.rs:278-344 | all visiting orders give the same sets up to path ids and the same final id counter |
| `PathReplay.OperationSame` | rill-coord/src/path_service.rs:175-344 | the same request, revocation or roster change keeps two tables equal up to path ids, with equal id counters, whatever the orders of the two hash maps |
| `PathReplay.WithdrawNodeGives` | rill-coord/src/path_service.rs:175-205 | under every order the result is the table without the node at an end or on a way, ids included |
| `PathReplay.WithdrawRelayGives` | rill-coord/src/path_service.rs:209-261 | under every order the result is the table without the candidates through the relay, ids included |
| `PathDivergence.OrderFreeExactly` | rill-coord/src/path_service.rs:278-344 | an expansion gives the same ids under all orders if and only if at most one pair takes new ids |
| `PathDivergence.RosterFreeExactly` | rill-coord/src/coordinator/mod.rs:790-803 | a whole roster change gives one table under all orders if and only if at most one pair takes new ids in it |
| `NetworkDomain.RunWellFormed` | rill-coord/src/path_service.rs:93-344 | after requests, revocations and duplicate-free roster changes every set is one direct candidate and distinct current relays, within budget, with distinct ids |
| `NetworkDomain.RebuiltExactly` | rill-coord/src/path_service.rs:102-122 | a set built by a request is well formed if and only if the first usable relays within the budget are distinct |
| `RelayRoster.Propose` | rill-coord/src/coordinator/mod.rs:746-784 | for every listing order the proposal is exactly the eligible, healthy relays that are configured or rank within the size limit by round-trip time, sorted, each once |
| `RelayRoster.ProposalUnique` | rill-coord/src/coordinator/mod.rs:746-784 | the proposal depends only on the nodes and what is known of them, and names no relay twice |
| `RosterLogs.ProposedPathsServe` | rilld/src/coord_run.rs:105-114 | over logs whose rosters were each proposed from the nodes of that network at their own or an earlier position and name nobody revoked since, every stored set is well formed and its relays are registered, relay-capable nodes of the network |
| `RosterLogs.RostersServeExactly` | rill-coord/src/coordinator/mod.rs:746-811 | in such logs all rosters in force name registered relays at every position if and only if no roster names a node that was revoked by the time it is applied |
| `RosterLogs.RosterServesExactly` | rill-coord/src/coordinator/mod.rs:790-811 | a roster change keeps rosters to registered relays if and only if all it names are registered in the network with the relay capability |
| `RosterLogs.CommandServes` | rill-coord/src/coordinator/mod.rs:984-1018 | no other command puts anybody else on a roster or leaves a revoked node on it |
| `NetworkDomain.RosterShaped` | rill-coord/src/coordinator/mod.rs:790-816 | a new roster drops the old relays from all sets and fills every unexpired set up |
| `NetworkDomain.RevokeShaped` | rill-coord/src/coordinator/mod.rs:984-1018 | after a revocation the node is in no pair, no candidate and not in the roster |
| `NetworkDomain.Domain.RequestPaths` | rill-coord/src/coordinator/mod.rs:639-671 | one more request of the run; returns the stored candidates |
| `NetworkDomain.Domain.Revoke` | rill-coord/src/coordinator/mod.rs:984-1012 | paths and roster lose the node, as one more step of the run |
| `NetworkDomain.Domain.ApplyRelayRoster` | rill-coord/src/domain.rs:92-101 | installs the roster in domain and path service; reports a change of the set of relays, not of their order |
| `CoordPaths.PathsWellFormed` | rill-coord/src/coordinator/mod.rs:639-671 | over whole command logs, every stored set of every network is well formed over the current roster |
| `WireRoundTrip.MessageRoundTrip` | rill-dn42/src/wire/mod.rs:65-144 | decoding the encoding of a well-formed message gives its normal form |
| `WireRoundTrip.NlrisRoundTrip` | rill-dn42/src/wire/mod.rs:537-560 | prefixes of one family survive write and read |
| `WireRoundTrip.SegmentsRoundTrip` | rill-dn42/src/wire/mod.rs:454-479 | AS path segments of at most 255 numbers survive write and read |
| `WireRoundTrip.HopRoundTrip` | rill-dn42/src/wire/mod.rs:518-535 | a next hop comes back, an IPv4-mapped one as IPv4 |
| `WireRoundTrip.AttrsRoundTrip` | rill-dn42/src/wire/mod.rs:389-451 | attributes come back in order with all communities merged at the end |
| `WireRoundTrip.HeaderRoundTrip` | rill-dn42/src/wire/mod.rs:562-643 | short and extended attribute headers split back into type, value and rest |
| `WireRoundTrip.CapabilitiesRoundTrip` | rill-dn42/src/wire/mod.rs:304-365 | capabilities come back and the last four-octet one gives the AS number |
| `WireExact.RoundTripExactly` | rill-dn42/src/wire/mod.rs:65-144 | an encodable message survives the round trip if and only if it is well formed |
| `WireExact.CapabilitiesLost` | rill-dn42/src/wire/mod.rs:83-89 | 254 capability bytes decode to none, 255 to an error |
| `WireExact.NormalIdempotent` | rill-dn42/src/wire/mod.rs:427-449 | a message that was read once is in normal form |
| `WirePanics.DecodePanicsExactly` | rill-dn42/src/wire/mod.rs:270-302 | decoding any bytes panics if and only if they are a whole UPDATE frame with a reachable overlong prefix; no other message type panics |
| `WirePanics.RunPanics` | rill-dn42/src/wire/mod.rs:537-552 | reading a run of prefixes panics if and only if a length octet it comes to is above 128 and its octets are there |
| `WirePanics.AttrsPanic` | rill-dn42/src/wire/mod.rs:389-451 | reading attributes panics if and only if all before are read and a multiprotocol attribute holds such a run |
| `WirePanics.OverlongFramePanics` | rill-dn42/src/wire/mod.rs:537-552 | the UPDATE that announces one prefix of length 129 makes decoding panic |
| `FrameReader.StreamRoundTrip` | rill-dn42/src/wire/mod.rs:245-267 | encodings of sendable messages fed in any chunking give exactly these messages and an empty buffer |
| `FrameReader.ParseMore` | rill-dn42/src/wire/mod.rs:246-267 | parsing a buffer and then more bytes equals parsing them together |
| `FrameReader.ChunkingsAgree` | rill-dn42/src/wire/mod.rs:245-267 | two chunkings of the same bytes give the same messages, the same error and the same rest |
| `FrameReader.FeedAllBounded` | rill-dn42/src/wire/mod.rs:245-267 | while the stream is good fewer than 4096 bytes stay buffered |
| `FrameReader.FrameReader.Feed` | rill-dn42/src/wire/mod.rs:246-267 | the loop over the buffer appends the messages of the parse and leaves its rest |
| `Codec.EncodeMessage` | rill-dn42/src/wire/mod.rs:65-144 | appends exactly the encoding, or reports the error; a message too long leaves the buffer as it was |
| `Codec.WriteAttrList` | rill-dn42/src/wire/mod.rs:562-643 | the loop writes the attributes in order or stops at the first one refused |
| `Codec.WriteSegmentList` | rill-dn42/src/wire/mod.rs:645-659 | the loop writes the segments in order |
| `Codec.WriteNlriList` | rill-dn42/src/wire/mod.rs:555-560 | the loop writes the prefixes in order |
| `Codec.ReadNlriList` | rill-dn42/src/wire/mod.rs:537-552 | the loop over the shrinking slice reads what the function reads, panics included |
| `Codec.ReadSegmentList` | rill-dn42/src/wire/mod.rs:454-479 | the loop reads segments until the slice is empty |
| `Codec.ReadAttrList` | rill-dn42/src/wire/mod.rs:389-451 | the loop gathers attributes and communities |
| `Codec.ReadParameterList` | rill-dn42/src/wire/mod.rs:318-360 | the loop reads optional parameters and the capabilities in them |
| `Codec.DecodeMessage` | rill-dn42/src/wire/mod.rs:270-302 | checks marker, length and type and decodes the body; panics exactly on frames that overrun |
| `CoordCore.AdmittedExactly` | rill-coord/src/coordinator/mod.rs:546-614 | a registration is admitted if and only if key, expiry, network, access control, public key and routes all allow it |
| `CoordCore.RegisterShape` | rill-coord/src/coordinator/mod.rs:546-614 | an admission adds one entry under the next id in the network of the key and spends a one-time key; anything else changes nothing |
| `CoordCore.ApplyOk` | rill-coord/src/raft/machine.rs:103-161 | every command keeps ids unique across networks, indexes inverse to entries, spent keys unusable and at home |
| `CoordCore.HomeOf` | rill-coord/src/coordinator/mod.rs:159-175 | the network a node's entry names is the only one that holds it |
| `Registries.RegisterOk` | rill-core/src/control/registry.rs:172-212 | registering keeps the index the exact inverse of the entries |
| `Registries.RegisterMeans` | rill-core/src/control/registry.rs:172-212 | what an admission stores, when a known key is returned, and which key is spent |
| `Registries.RoutesAllowed` | rill-core/src/control/registry.rs:154-167 | routes pass if and only if each parses and the containment test puts it under a whitelisted prefix |
| `Registries.RoutesExactly` | rill-core/src/control/registry.rs:154-167 | routes inside the whitelist's address blocks are those that pass, unless one is a single IPv6 address under `::/0` alone |
| `Registries.RevokeOk` | rill-core/src/control/registry.rs:223-227 | revoking removes the entry and its index and nothing else |
| `Registries.RestoreGives` | rill-core/src/control/registry.rs:243-251 | restoring a listing gives back the entries and an exact index |
| `Registries.RegistryObject.AddKey` | rill-core/src/control/registry.rs:115-121 | adds a key unless it is spent |
| `Registries.RegistryObject.FirstBadRoute` | rill-core/src/control/registry.rs:154-167 | the loop reports the first malformed or refused route |
| `Registries.RegistryObject.Admit` | rill-core/src/control/registry.rs:172-212 | the outcome and the new registry are those specified, and the invariant is kept |
| `Registries.RegistryObject.Remove` | rill-core/src/control/registry.rs:223-227 | removes entry and index |
| `Registries.RegistryObject.RestoreFrom` | rill-core/src/control/registry.rs:243-251 | the loop rebuilds entries and index |
| `KeyRotation.RotationDelivered` | rill-coord/src/keys.rs:43-70 | a flush at or after t + 60 leaves a later version than right after a revocation at t |
| `KeyRotation.RotationsSpaced` | rill-coord/src/keys.rs:50-66 | window rotations lie at least 60 seconds apart |
| `KeyRotation.BatchedOnce` | rill-coord/src/keys.rs:50-66 | revocations inside one window share one pending rotation |
| `KeyRotation.KeyManager.ArmRevokeRotation` | rill-coord/src/keys.rs:50-54 | the first deadline wins |
| `KeyRotation.KeyManager.TakeRevokeRotation` | rill-coord/src/keys.rs:57-65 | rotates once when due |
| `NetworkRotation.RevokedKeysRotate` | rill-coord/src/coordinator/mod.rs:984-1048 | in coordinator runs, the first flush or heartbeat at or after t + 60 rotates the keys of the revoked node's network |
| `NetworkRotation.WindowsSpaced` | rill-coord/src/coordinator/mod.rs:1022-1038 | window rotations of one network are at least 60 seconds apart in every coordinator run |
| `Liveness.HeartbeatSweeps` | rill-coord/src/liveness.rs:24-46 | after heartbeat and sweep the sender is online, expired leases are offline, nobody else changes, and the change is reported exactly |
| `Liveness.LivenessObject.Beat` | rill-coord/src/liveness.rs:24-29 | renews the lease and reports whether the node was offline |
| `Liveness.LivenessObject.SweepLeases` | rill-coord/src/liveness.rs:34-46 | marks exactly the expired leases, in any order, and returns the new ones |
| `Liveness.LivenessObject.MarkOffline` | rill-coord/src/liveness.rs:49-55 | marks a node once |
| `Directory.MergeNoRepeats` | rill-coord/src/directory.rs:20-28 | merging keeps all endpoints and adds no repetition |
| `Directory.DirectoryObject.MergedEndpoints` | rill-coord/src/directory.rs:60-65 | the loop returns local endpoints, then the new seen ones |
| `Directory.DirectoryObject.ReportEndpoints` | rill-coord/src/directory.rs:53-57 | stores the endpoints and bumps the version |
| `CoordinatorModel.SameVersionSameMap` | rill-coord/src/coordinator/mod.rs:848-914 | in every run two moments with the same version have the same map in every network |
| `CoordinatorModel.StepStamped` | rill-coord/src/coordinator/mod.rs:546-1048 | every operation leaves all maps as they were or increases the version |
| `CoordinatorModel.ProtocolUnstamped` | rill-coord/src/coordinator/mod.rs:375-377 | the protocol version changes without a bump |
| `NetmapEffects.AdmittedShown` | rill-coord/src/coordinator/mod.rs:546-614 | an admitted node shows up under the next id with what it registered, and no other row of its network changes |
| `NetmapEffects.RevokedGone` | rill-coord/src/coordinator/mod.rs:984-1018 | a revoked node is in no map and every other row stays |
| `NetmapEffects.TombstoneLeft` | rill-coord/src/coordinator/mod.rs:984-1018 | revoking leaves a tombstone at the log position exactly for a registered node |
| `NetmapEffects.EndpointsShown` | rill-coord/src/coordinator/mod.rs:629-632 | reported endpoints are what the row of the node shows, and no other row changes |
| `NetmapEffects.BeatShown` | rill-coord/src/coordinator/mod.rs:877-900 | a heartbeat shows its sender online, expired leases offline and everyone else as before |
| `NetmapEffects.ExitsShown` | rill-coord/src/coordinator/mod.rs:699-718 | the exit mark of a row is capability and permission together |
| `Coordinator.CoordinatorObject.RegisterNew` | rill-coord/src/coordinator/mod.rs:546-614 | the call is the registration step and answers as specified |
| `Coordinator.CoordinatorObject.FlushRotations` | rill-coord/src/coordinator/mod.rs:1022-1038 | the loop rotates exactly the networks that are due and reports whether any was |
| `Coordinator.CoordinatorObject.RevokeOne` | rill-coord/src/coordinator/mod.rs:984-1018 | the call is the revocation step: entry, lease, endpoints, paths and roster place go, tombstone and window are set |
| `Coordinator.CoordinatorObject.Beat` | rill-coord/src/coordinator/mod.rs:877-900 | the call is the heartbeat step and bumps exactly on a transition |
| `Coordinator.CoordinatorObject.MarkNodeOffline` | rill-coord/src/coordinator/mod.rs:902-914 | marks a known node once and bumps |
| `Coordinator.CoordinatorObject.ApplyRelayRoster` | rill-coord/src/coordinator/mod.rs:790-816 | the call is the roster step and bumps when the set of relays changes |
| `Coordinator.CoordinatorObject.AllowExitNodes` | rill-coord/src/coordinator/mod.rs:699-718 | bumps exactly when the effective exits change |
| `Coordinator.CoordinatorObject.NetmapSnapshot` | rill-coord/src/coordinator/mod.rs:848-871 | returns one row per entry of the network |
| `Recovery.RestoreSnapshot` | rill-coord/src/coordinator/mod.rs:178-360 | restoring a saved core into a fresh coordinator and configuring it again gives the core back |
| `Recovery.AcceptedExactly` | rill-coord/src/coordinator/mod.rs:178-207 | a saved good core is accepted if and only if no public key is in two networks, and refused only for that |
| `Recovery.CheckExact` | rill-coord/src/coordinator/mod.rs:186-207 | the node table passes if and only if ids and public keys are distinct and networks known |
| `Recovery.FilterLists` | rill-coord/src/coordinator/mod.rs:210-217 | the saved entries of a network list exactly its entries |
| `Recovery.HomeKeysGive` | rill-coord/src/coordinator/mod.rs:218-228 | spent keys return to exactly the network they came from |
| `Persistence.ConfigureGives` | rill-coord/src/config/mod.rs:423-448 | after configuring, the keys are the listed ones that are not spent, whatever was there |
| `ReplicaRuns.ExactlyOnce` | rill-coord/src/raft/machine.rs:66-101 | over every interleaving of applying, heartbeats, checkpointing, crashing and reopening, memory and disk hold each entry up to their position applied exactly once with the heartbeats where they came, which but for keys is the replay of the entries, and reopening is never refused |
| `ReplicaRuns.OnlyKeysDrift` | rill-mesh/src/control/server.rs:883-884 | whatever heartbeats come between, a replica differs from the replay of its entries in keys only |
| `ReplicaRuns.HeartbeatDriftsExactly` | rill-coord/src/coordinator/mod.rs:877-879 | a heartbeat takes a replica away from the log if and only if a rotation is due |
| `KeyDrift.CommandSame` | rill-coord/src/raft/machine.rs:103-161 | no command carries a difference in keys over to anything else |
| `Replicas.ReplicasAgree` | rill-coord/src/raft/machine.rs:103-161 | any two replicas of a log, with hash maps of their own, hold the same core up to path ids, with equal id counters |
| `Replicas.RunsAgree` | rill-coord/src/raft/machine.rs:66-101 | replicas at the same position agree on all but keys and path ids through whatever crashes, heartbeats and orders |
| `Replicas.OneOutcomeExactly` | rill-coord/src/raft/machine.rs:103-161 | a command gives one core under all orders if and only if it is no roster change that gives new ids to two pairs |
| `Replicas.OneCoreExactly` | rill-coord/src/raft/machine.rs:245-268 | all replicas are equal, ids included, after each of the first n entries if and only if none of them gives new ids to two pairs |
| `PathIdSplit.ReplicasSplit` | rill-coord/src/path_service.rs:278-334 | after four registrations, two requests and one roster in any network, two replicas hold different cores that agree up to path ids |
| `Machine.FoldOk` | rill-coord/src/raft/machine.rs:245-268 | after any prefix of the log the core is good, configured, and every entry stems from the registration at its anchor |
| `Machine.FoldApart` | rill-coord/src/coordinator/mod.rs:195-200 | a log that registers no public key under two networks keeps public keys in one network |
| `StateMachine.CoordStateMachine.ApplyBatch` | rill-coord/src/raft/machine.rs:245-268 | the loop applies a batch and writes state and position together |
| `StateMachine.CoordStateMachine.ApplyEntryNow` | rill-coord/src/raft/machine.rs:254-265 | one entry: nothing, membership or command |
| `StateMachine.CoordStateMachine.Reopen` | rill-coord/src/raft/machine.rs:66-86 | what the disk holds is accepted and gives the state of its position |
| `StateMachine.CoordStateMachine.Heartbeat` | rill-coord/src/coordinator/mod.rs:877-879 | flushes due rotations in memory only, as one more act of the run; nothing but keys changes |
| `StateMachine.CoordStateMachine.AuditClaim` | rill-coord/src/raft/backend.rs:149-185 | the verdict of the applied state; what it verifies stands in the log |
| `SnapshotInstall.Installed` | rill-coord/src/raft/machine.rs:282-300 | installing a snapshot gives the sender's core with the configuration of every network missing |
| `SnapshotInstall.InstallThenConfigure` | rill-coord/src/raft/machine.rs:282-300 | applying the configuration after installing makes the core the sender's |
| `SnapshotInstall.AgreesExactly` | rill-coord/src/raft/machine.rs:282-300 | each with its own orders, a replica without configuration still holds the others' core but for configuration and path ids after a command if and only if it is no admissible registration |
| `SnapshotInstall.AgreesUntilAdmission` | rill-coord/src/raft/machine.rs:282-300 | over the rest of the log, each with its own orders, it agrees but for configuration and path ids if and only if no registration was admissible on the way |
| `SnapshotInstall.SnapshotAgrees` | rill-coord/src/raft/machine.rs:282-300 | of three replicas of one log, one that installs the state of the second agrees with the third if and only if the log admitted nobody since |
| `Audit.SplitVerdictExactly` | rill-coord/src/raft/backend.rs:149-185 | where one replica verifies, another answers Conflict if and only if the claim names entry 0 and it has applied nothing |
| `Audit.NoSplitVerdict` | rill-coord/src/raft/backend.rs:149-185 | replicas of a log that starts with its membership never contradict each other |
| `Audit.VerifiedMeans` | rill-coord/src/raft/machine.rs:103-126 | a verified claim was registered at the index and term it names, for that public key |
| `Audit.FirstEntrySplits` | rill-coord/src/raft/backend.rs:129-136 | a registration as first entry is Verified by one replica and Conflict at a fresh one |
| `Audit.CommandLives` | rill-coord/src/raft/machine.rs:103-161 | entries never change, end only as tombstones, and new ones carry the anchor of their command |
| `WriteThrough.Unwritten` | rill-coord/src/coordinator/mod.rs:363-373 | an operation that does not write leaves everything a snapshot would take as it was |
| `WriteThrough.RestartGives` | rill-coord/src/coordinator/mod.rs:126-142 | reading a file back into its networks, under any settings, is accepted if and only if no public key is in two networks, and gives the core on file under those settings |
| `Lifecycle.FileCurrent` | rill-coord/src/coordinator/mod.rs:363-373 | in every life that keeps its networks the file tells all that memory holds |
| `Lifecycle.CrashLosesNothing` | rill-coord/src/coordinator/mod.rs:126-142 | a restart at any point of such a life comes up if and only if no public key is in two networks, with the core memory held and fresh leases |
| `Lifecycle.IdsNeverReissued` | rill-coord/src/coordinator/mod.rs:573-607 | over every life of process and file, with reloads, restarts under any configurations and refused starts, no node id is given out twice in any network |
| `SpentKeys.OneTimeOnce` | rill-core/src/control/registry.rs:115-121 | over every such life whose configured names have different ids, a key that admitted as one-time admits nobody else and is spent or out of reach on file and in memory |
| `SpentKeys.OneTimeOnceOnFile` | rill-coord/src/coordinator/mod.rs:218-238 | whatever the names, it admits nobody else as long as nothing is written while its network is away |
| `SpentKeys.OneTimeOnceExactly` | rill-coord/src/coordinator/mod.rs:218-238 | over all lives configured with a set of names, one-time keys admit once if and only if no two of the names hash to one id |
| `SpentKeys.SpentKeyRevives` | rill-coord/src/coordinator/mod.rs:629-632 | with two concrete names of one id, a life in which something is written while the key's network is away admits twice |
| `SpentKeys.OnceAdmissions` | rill-coord/src/coordinator/mod.rs:126-142 | the same life without the write admits once |
| `SpentKeys.NoReturn` | rill-coord/src/coordinator/mod.rs:229-238 | a network that the saved state does not have cannot be configured back |
| `NetworkIds.Collision` | rill-coord/src/domain.rs:27-38 | two valid names with the same FNV-1a id |
| `Lifecycle.SpentSurvives` | rill-coord/src/coordinator/mod.rs:218-229 | a restart keeps a key spent if and only if its configuration has the key's network |
| `Lifecycle.LifeOk` | rill-coord/src/coordinator/mod.rs:178-286 | over every life ids stay unique, indexes inverse and spent keys unusable, in memory and on file, and both have the same next id |
| `Rib.RunInStep` | rill-dn42/src/rib/mod.rs:94-177 | in every run, replaying all changes gives the best-path table, the counter is the number of stored pairs within the limit, and every stored path is admitted |
| `Rib.PurgeRemovesPeer` | rill-dn42/src/rib/mod.rs:140-155 | after a purge in any order no prefix holds the peer and the stream is in step |
| `Rib.As4PathWins` | rill-dn42/src/rib/mod.rs:202-213 | the path is the last non-empty AS4_PATH, else the first non-empty AS_PATH, wherever they stand |
| `Rib.ExtractAnnounced` | rill-dn42/src/rib/mod.rs:193-251 | the loops give the IPv4 prefixes with the common path, then those of the last multiprotocol family with its next hop |
| `Rib.ExtractWithdrawn` | rill-dn42/src/rib/mod.rs:254-267 | the loop gives the withdrawn prefixes, then the unreachable ones |
| `RibContents.UpdateStores` | rill-dn42/src/rib/mod.rs:94-137 | after any UPDATE: announced prefixes at the last path admitted before the first refused candidate, withdrawn ones gone unless one was refused, all else as before |
| `RibContents.AnnounceStores` | rill-dn42/src/rib/mod.rs:101-129 | an admitted candidate with room is stored and nothing else changes; only a full table stops the UPDATE |
| `RibContents.RefusalLeavesEmptyEntry` | rill-dn42/src/rib/mod.rs:107-123 | a new prefix ends without paths exactly when it is refused at the limit |
| `RibModel.SelectBestMeans` | rill-dn42/src/rib/mod.rs:59-68 | the selected peer is the one whose path is shortest, then whose name is smallest |
| `RibModel.RemoveOneOk` | rill-dn42/src/rib/mod.rs:157-177 | removing a peer keeps entries good, counts one less and emits what a follower needs |
| `LocRib.LocRib.Best` | rill-dn42/src/rib/mod.rs:80-87 | the entry of the best-path table |
| `LocRib.LocRib.RemovePeer` | rill-dn42/src/rib/mod.rs:157-177 | the table and changes of the removal, or nothing when the peer is absent |
| `LocRib.LocRib.AnnounceMany` | rill-dn42/src/rib/mod.rs:101-129 | the loop over candidates stops at the first that exceeds the limit |
| `LocRib.LocRib.ApplyUpdate` | rill-dn42/src/rib/mod.rs:94-137 | the outcome of the UPDATE; the follower stays in step and the counter exact |
| `LocRib.LocRib.PurgePeer` | rill-dn42/src/rib/mod.rs:140-155 | nothing of the peer remains and the follower is in step |
| `Policy.AdmitMeans` | rill-dn42/src/policy/mod.rs:113-129 | an admitted prefix has a next hop, no own AS, all its addresses in one whitelisted block, and lies in no bogon block but possibly `::/0` |
| `Policy.AdmitExactly` | rill-dn42/src/policy/mod.rs:113-129 | a route is admitted if and only if its path is clean and its block is inside the whitelist and outside the bogons, unless it is a single IPv6 address misjudged by `::/0` |
| `Policy.ImportPolicy.NoteAccepted` | rill-dn42/src/policy/mod.rs:88-96 | counts one more unless the limit is reached |
| `Policy.ImportPolicy.NoteWithdrawn` | rill-dn42/src/policy/mod.rs:99-101 | counts one less, never below zero |
| `RouteMapModel.RateBound` | rill-coord/src/route_map.rs:71-142 | under a nondecreasing clock, a key enters or leaves the table at most three times in any window of at most 600 seconds, counted since the last sweep of its node |
| `RouteSweeps.PresenceBound` | rill-coord/src/route_map.rs:71-167 | counting every entry and exit, at most three in such a window and two more per sweep of the node in it |
| `RouteSweeps.PresenceBoundSharp` | rill-coord/src/route_map.rs:71-167 | for every number of sweeps a run meets that bound |
| `RouteSweeps.LimitHoldsExactly` | rill-coord/src/route_map.rs:136-167 | the limit of three holds for all runs with a number of sweeps in the window if and only if the number is zero |
| `RouteSweeps.BounceMoves` | rill-coord/src/route_map.rs:156-167 | three announcements and two sweeps in one second are five moves without damping |
| `RouteMapModel.RateBoundSharp` | rill-coord/src/route_map.rs:136-142 | a window of 601 seconds can hold four transitions |
| `RouteMapModel.DampedAbsent` | rill-coord/src/route_map.rs:82-103 | a key inside its damping period is not in the table |
| `RouteMapModel.AnnounceTaken` | rill-coord/src/route_map.rs:82-110 | an announcement is stored exactly when undamped, inside a coverage block (not merely a single address under `::/0`) and either a refresh or within cap and flap limit |
| `RouteMapModel.DampingStarts` | rill-coord/src/route_map.rs:122-142 | withdrawing starts the damping exactly at the third flip in the window |
| `RouteMapModel.CountsExact` | rill-coord/src/route_map.rs:105-154 | the counter of a node is the number of its routes in every run |
| `RouteMapModel.GuardsHold` | rill-coord/src/route_map.rs:88-98 | routes stay within the cap and their addresses inside the announced coverage |
| `RouteMap.RouteMapService.ApplySync` | rill-coord/src/route_map.rs:71-133 | the loops take the steps of the report, count them, and bump the version exactly on a transition |
| `RouteMap.RouteMapService.Flip` | rill-coord/src/route_map.rs:136-142 | keeps the recent stamps, adds one, reports the limit |
| `RouteMap.RouteMapService.WithdrawNode` | rill-coord/src/route_map.rs:156-167 | nothing of the node stays; bumps exactly when something was there |
| `RouteReport.ReportTable` | rill-coord/src/route_map.rs:71-133 | the table after a report, key by key, over the report and the table before: which routes are held, with which next hop |
| `RouteReport.ReportMoves` | rill-coord/src/route_map.rs:71-133 | the version moves if and only if the report takes a new route or an old one leaves |
| `RouteReport.SilentExactly` | rill-coord/src/route_map.rs:105-133 | the table changes under an unchanged version if and only if the report only renames next hops |
| `RouteReport.BumpExactly` | rill-coord/src/route_map.rs:105-133 | the version moves over an unchanged table if and only if the report takes new routes, withdraws all of them and touches nothing else |
| `RouteReport.HopChangesSilently` | rill-coord/src/route_map.rs:105-110 | two concrete reports of which the second changes the table silently |
| `RouteReport.RoundTripBumps` | rill-coord/src/route_map.rs:105-133 | one concrete report that moves the version over an unchanged table |
| `Prefixes.NewCanonical` | rill-core/src/route/mod.rs:53-70 | building a prefix from its own fields gives it back |
| `Prefixes.ContainsIsIntervalInclusion` | rill-core/src/route/mod.rs:124-130 | containment is inclusion of address intervals within a family if and only if the pair is not `::/0` and a single address other than `::` |
| `Prefixes.DefaultMissesHost` | rill-core/src/route/mod.rs:124-130 | `::/0` contains `::/64`, which contains `::1`, which `::/0` neither contains nor matches |
| `Prefixes.CoveredExactly` | rill-core/src/route/mod.rs:145-148 | a list covers a prefix as its address blocks do if and only if it is not a single IPv6 address under `::/0` alone |
| `Prefixes.ContainsIsAddressInclusion` | rill-core/src/route/mod.rs:110-130 | containment is inclusion of the sets of matched addresses if and only if the pair is not skewed by `::/0`, which matches `::` alone |
| `Prefixes.MatchesIsMembership` | rill-core/src/route/mod.rs:110-113 | matching is membership in the interval if and only if it is not `::/0` against an address other than `::` |
| `Prefixes.NestedOrDisjoint` | rill-core/src/route/mod.rs:115-130 | two prefixes of a family are nested or match no common address; they are nested or have none in common if and only if they are not `::/0` and a single address |
| `Prefixes.ContainsPartialOrder` | rill-core/src/route/mod.rs:124-130 | containment is reflexive and antisymmetric, and transitive if and only if the chain does not lead from `::/0` over a block to a single address |
| `RouteEngine.LookupBestIsArgmax` | rill-core/src/route/mod.rs:235-244 | the result is the reachable match with the longest prefix, then the best source, then the earliest insertion; none only if nothing matches |
| `RouteEngine.LookupBestWanted` | rill-core/src/route/mod.rs:235-244 | it is the best reachable route whose block holds the address if and only if not only IPv6 default routes do; then it is none |
| `RouteEngine.LookupOrdered` | rill-core/src/route/mod.rs:184-232 | lookup lists exactly the matches, in that order |
| `RouteEngine.LookupFindsHolders` | rill-core/src/route/mod.rs:184-232 | these are exactly the routes whose block holds the address if and only if it is not an IPv6 address other than `::` with a default route in the table |
| `RouteEngine.TwoSorts` | rill-core/src/route/mod.rs:184-232 | two stable sorts give the lexicographic order |
| `RouteEngine.LpmTable.Insert` | rill-core/src/route/mod.rs:169-171 | appends the entry |
| `RouteEngine.LpmTable.Remove` | rill-core/src/route/mod.rs:173-178 | removes the matching entries and reports whether there were any |
| `Base32.DecodeEncode` | rill-coord/src/authkey/mod.rs:19-55 | decoding inverts encoding for every byte string |
| `Base32.EncodeDecodeExactly` | rill-coord/src/authkey/mod.rs:37-55 | an accepted text is the encoding of its value if and only if fewer than five bits are spare |
| `Base32.SecretsBijective` | rill-coord/src/authkey/mod.rs:94-110 | 52-character texts that decode and 32-byte values are in bijection |
| `Base32.ComputeEncode` | rill-coord/src/authkey/mod.rs:19-35 | the loops over the wrapping 64-bit buffer spell the padded bit string |
| `Base32.ComputeDecode` | rill-coord/src/authkey/mod.rs:37-55 | the loop over the wrapping 64-bit buffer gives the bytes or refuses, as the bit string says |
| `AuthKey.ParseFormat` | rill-coord/src/authkey/mod.rs:72-110 | parsing a generated key gives its network, expiry and secret |
| `AuthKey.ParsedMeans` | rill-coord/src/authkey/mod.rs:94-110 | an accepted key has the printed form with exactly one 32-byte secret behind it |
| `AuthKey.AcceptedExactly` | rill-coord/src/authkey/mod.rs:94-110 | a key is accepted if and only if it has the printed form |
| `AuthKey.SecretLengthImplied` | rill-coord/src/authkey/mod.rs:104-108 | the last length check never fires |
| `AuthKey.GeneratedExpiry` | rill-coord/src/authkey/mod.rs:72-118 | a generated key expires exactly after its last second, never for lifetime zero |
| `Icmp.EchoRoundTrip` | rill-ts2021/src/wg.rs:120-205 | a request sums to zero twice and its answer swaps addresses, keeps the payload, sums to zero twice and parses as the reply to it |
| `Icmp.SealedSumsToZero` | rill-ts2021/src/wg.rs:103-118 | a checksum written into its zero field makes the data sum to zero |
| `Icmp.AnswerSums` | rill-ts2021/src/wg.rs:181-199 | every answer sums to zero twice, whatever the request |
| `Icmp.AnswerHeaderLength` | rill-ts2021/src/wg.rs:181-199 | the header length of an answer is right if and only if the request had no options |
| `Icmp.ComputeChecksum16` | rill-ts2021/src/wg.rs:103-118 | the loops compute the one's complement of the end-around sum |
| `Icmp.BuildEchoRequest` | rill-ts2021/src/wg.rs:120-153 | filling and patching the buffers gives the specified packet |
| `Icmp.BuildAnswer` | rill-ts2021/src/wg.rs:181-199 | clearing, patching and reassembling gives the specified answer |

## Left out

- openraft itself, elections, log storage and RPC: one agreed log is taken as given.
- Snapshot metadata and transfer: an installed snapshot is the snapshot of some replica's core.
- Installing snapshots is not a step of the exactly-once runs, which it would break as stated above.
- The netmap version is not part of the exactly-once claim: applying the configuration on reopening and heartbeats bump it outside the log. Over restarts of one process it starts at any value.
- Key versions are part of the exactly-once claim only with the heartbeats that moved them; nothing in the program proposes `FlushRevokeRotations`.
- Results that commands return to clients, telemetry, reject counters, build versions and logging.
- redb and serde: of the store only "state and position are written together" is kept; saved tables keyed by network are maps, so the check for a repeated path pair has nothing to refuse.
- Failing writes: the program logs a failed write and goes on; here every write succeeds.
- Ed25519, HKDF and other cryptography, and with it master keys and derived keys; only key versions are kept.
- Configuration loading beyond what `ConfigOk` keeps of it: valid and unique names, ids that are the hashes of the names and unique, keys that name their network.
- Text parsing and printing of prefixes: a route carries what its text parses to. Auth keys are sequences of characters, so for non-ASCII text the reported error may differ.
- Builds with overflow checks: the one shift by a whole word follows a build without them; with them it would panic.
- Overflow of the 32- and 64-bit counters for ids, versions and accepted routes, and of deadlines near the end of the clock; the route map version saturates as in the code.
- Measuring round-trip times and counting misses, challenge and resume checks, ACL evaluation, exports, the FSM and session layers, tunnels, and the replay window.
- `snapshot` of the route map and its delivery to nodes: a sorted copy of the table.
- Route-map withdrawals that heartbeats and revocations trigger are steps of the route map, not tied to coordinator runs.
