# Verified models of the VPP forwarder's stateful parts

This Dafny project models the parts of sdk-vpp that keep state of their own which must agree with what VPP holds, and
proves how far it does, over arbitrary histories in which VPP calls may fail. `dafny verify dfyconfig.toml` checks all of
it.

VPP is a small state (interfaces, bridge domains and members, CNAT paths, access lists, tables, loopbacks, tunnels,
sockets, addresses). A call either takes its effect or fails without one. Which calls fail, and which free index a call
that allocates one returns, is decided by an oracle that is fixed in advance (`Vpp.dfy`), so that a lemma about all
oracles is a statement about every pattern of failures.

Each module has the same parts: the steps of the source as functions on values (`After...`), the invariants and the
theorems about every run, and, under "The program", the classes and methods in the source's own form (maps and fields
updated in place, loops, shared objects), each proved to change the state exactly as its function says.

| module | what it is about |
|---|---|
| `GoNet`, `IpTypes` | Go addresses and masks, their VPP forms, and both round trips |
| `Vl3lb`, `Vl3lbMonitor` | the vl3 load balancer: a stream of monitor events, the two-level server map, the update filter and the CNAT paths |
| `L2Vpp`, `L2BridgeDomain` | shared bridge domains with set-valued reference counts, under failures |
| `Vlan`, `VlanBridge`, `VlanNames` | VLAN sub-interfaces found again by name, the whole of client and bridge without failures, and which names that is right for |
| `Loopback`, `Vrf` | two reference-counting schemes over shared maps and per-connection metadata |
| `Acl` | what rule lists do to packets, and mirroring |
| `Pinhole`, `PinholeRace` | putting pinholes in front of access lists, and any number of requests doing so under one mutex |
| `MechanismChain` | chains of wireguard, peer, vxlan, kerneltap and memif elements that undo each other's work |
| `MechanismProvides` | what a successful request has made, in the terms of the mechanisms, and that a refresh leaves it |
| `MechanismWorld`, `MechanismCollision` | any number of connections with such chains over one VPP, and exactly when they get along |
| `LabeledCounter` | counters indexed by joined labels |
| `IpAddress` | installing addresses by repeated attempts |
| `TunnelMtu` | MTU negotiation over tunnels |
| `NsMonitor` | closing a connection when its client has gone: two goroutines for each watch |

## Main results

- `Vl3lb.InstalledPathsFollowFold`, `Vl3lbMonitor.ServersFollowOwnEvents`: the cache, the filter and failing updates agree with the
  plain fold of the events.
- `L2BridgeDomain.RunKeepsConsistent`, `VlanBridge.RunKeepsTidy`, `VlanNames.AlwaysKeptIff`: bridges, members and sub-interfaces,
  with and without failures.
- `Loopback.RunKeeps`, `Vrf.RunKeepsClean`, `Vrf.StepCleanIff`: both reference counts in every run.
- `Acl.MirrorIsExact`, `Pinhole.PinnedLets`: what rewriting the rule lists does to packets.
- `PinholeRace.RunKeeps`, `PinholeRace.RunLets`, `PinholeRace.AlwaysPassesIff`: any number of requests under every schedule.
- `MechanismChain.FirstRequestIsUndone`, `MechanismProvides.FirstRequestProvides`, `MechanismWorld.RunKeeps`, `MechanismCollision.AccountsIff`: chains of any length, failing at
  any call, of any number of connections.
- `LabeledCounter.ExactIff`, `IpAddress.AddsEachOnceIff`, `TunnelMtu.FitsIff`: exact conditions.
- `NsMonitor.ClosesOnlyAfterGone`, `NsMonitor.CloseIsOwn`, `NsMonitor.MissingClientIsClosed`: every interleaving of requests, closes and
  goroutines.

## Where the code does less than one might expect

- `Vl3lb.RepeatedAddIsNotRetried`, `Vl3lb.FailureIsRepairedIff`: after a failed CNAT update, reporting the same servers again does
  not retry it; exactly the calls that change something do.
- `Vl3lbMonitor.OneLoopIff`: an NSE that is announced, deleted and announced again is monitored twice.
- `L2BridgeDomain.EmptiedExactlyWhen`, `L2BridgeDomain.EmptyBridgeStaysIff`: a close can leave an empty bridge behind, which stays until
  a request joins its key.
- `VlanNames.SubstringFreeNamesDoNotSuffice`, `VlanNames.AlwaysKeptIff`: the search by name needs more than that no device
  name is a substring of another; the exact condition involves the VLAN number in the sub-interface's name.
- `Vrf.FailedRefreshStrandsTables`, `Vrf.FailedRequestCleanIff`: a request that fails further down is cleaned up under the
  service name of a missing connection.
- `Pinhole.SharedPortIsShadowed`, `PinholeRace.AlwaysPassesIff`: the tag of a pinhole names its port and not its address, so two
  addresses with one port on one interface compete for one pinhole.
- `MechanismCollision.OneConnectionCollides`, `MechanismCollision.TwoConnectionsCollide`: the record of a memif socket that a failed
  refresh has undone is used again, by the next request or close, whoever has its number by then.
- `Vrf.HalfOpenIsNotAttached`: after a request that failed for want of the IPv6 table, no later request attaches the side's interface.
- `LabeledCounter.ExactIff`: labels that contain the separator can share a key.
- `IpAddress.AddsEachOnceIff`: what repeated requests for one address add depends on the failures.
- `TunnelMtu.FitsIff`: a link no larger than the overhead gives no usable MTU.

## Model

| member | source | states |
|---|---|---|
| IpTypes.ToVppAddressRespectsEqual | pkg/tools/types/ip_types.go:26-40 | equal Go addresses of any length are one VPP address; for addresses of 4 or 16 bytes the converse holds too |
| IpTypes.RoundTripAddress | pkg/tools/types/ip_types.go:26-40 | an address comes back from VPP as an equal one if and only if it has 4 or 16 bytes |
| IpTypes.VppAddressRoundTrip | pkg/tools/types/ip_types.go:71-76 | a VPP address survives the trip through Go if and only if it is not IPv4-mapped and an IPv4 one has nothing beyond its four bytes |
| IpTypes.GoPrefixRoundTrip | pkg/tools/types/ip_types.go:48-58 | a Go network keeps its address and mask through VPP if and only if the address is well formed and the mask is contiguous and as wide as the family |
| IpTypes.VppPrefixRoundTrip | pkg/tools/types/ip_types.go:84-93 | a VPP prefix is unchanged by the trip through Go if and only if its length is in range and its address survives |
| GoNet.MaskLengthIsBits | pkg/tools/types/ip_types.go:48-58 | bit by bit: the length of a mask is `n` exactly if its first `n` bits are set and no other |
| GoNet.CIDRMaskIsBits | pkg/networkservice/pinhole/common.go:216-232 | bit by bit: the masks of the pinhole rules have their first bits set and no other |
| Vl3lb.PathsMembers | pkg/networkservice/vl3lb/handler.go:160-186 | the flattening of the two-level map contains exactly one kind of path: from the load balancer to the VPP address and port of some server of some NSE |
| Vl3lb.EqualsIsOnePath | pkg/networkservice/vl3lb/handler.go:44-46 | two servers with addresses of 4 or 16 bytes count as the same exactly if they give the same path |
| Vl3lb.DeletionLeaves | pkg/networkservice/vl3lb/handler.go:113-145 | a deletion takes the named ids of its NSE and nothing else away, and leaves no entry without servers |
| Vl3lb.LastDeletionIsFinal | pkg/networkservice/vl3lb/handler.go:113-145 | once its last server has been deleted an NSE has no entry, and deleting again makes no VPP call |
| Vl3lb.EntriesFollowFold | pkg/networkservice/vl3lb/handler.go:91-145 | after any run with any failures each NSE's entry is the plain fold of that NSE's own calls, up to `equals` |
| Vl3lb.SkippedAddKeepsPaths | pkg/networkservice/vl3lb/handler.go:91-110 | an update that is skipped because every server equals the stored one could not have changed any path |
| Vl3lb.InstalledPathsFollowFold | pkg/networkservice/vl3lb/handler.go:91-216 | in every run in which the last attempted update succeeded, the installed paths are as a multiset those of the plain fold of all calls |
| Vl3lb.OneSuccessRepairs | pkg/networkservice/vl3lb/handler.go:160-216 | a call that attempts an update, by the guard on what is stored and reported, and that VPP accepts, installs the paths of the fold of everything, whatever failed before |
| Vl3lb.StepAttempts | pkg/networkservice/vl3lb/handler.go:91-145 | a call attempts exactly one update if it reports a missing or different server or deletes ids of an NSE with an entry, and none otherwise |
| Vl3lb.FailureIsRepairedIff | pkg/networkservice/vl3lb/handler.go:91-216 | after a failed update a call repairs it if and only if it attempts one and VPP accepts; a call that attempts none leaves the old paths |
| Vl3lb.RepeatedAddIsNotRetried | pkg/networkservice/vl3lb/handler.go:91-110 | reporting the same servers again makes no VPP call and changes nothing, so a failed update is not repaired by a repetition |
| Vl3lb.Handler.AddServers | pkg/networkservice/vl3lb/handler.go:91-110 | the handler's map, VPP's paths and the result are those of the specified step |
| Vl3lb.Handler.StoreNews | pkg/networkservice/vl3lb/handler.go:92-104 | the loop stores exactly the servers that are missing or not equal, and reports whether there were any |
| Vl3lb.Handler.DeleteServers | pkg/networkservice/vl3lb/handler.go:113-145 | with repeated ids, or none for all servers, map, paths and result are those of the specified step |
| Vl3lb.Handler.GetServerIDsByVL3Name | pkg/networkservice/vl3lb/handler.go:148-158 | the ids of an NSE's servers, each once, in some order |
| Vl3lb.Handler.CollectPaths | pkg/networkservice/vl3lb/handler.go:163-186 | the nested loops collect, in whatever map order, exactly the multiset of paths of the map |
| Vl3lb.Handler.UpdateVppCnat | pkg/networkservice/vl3lb/handler.go:160-216 | VPP gets the paths of the map, or loses its translation when there are none, and the result tells whether it did |
| Vl3lbMonitor.EventCallsMeanEvent | pkg/networkservice/vl3lb/common.go:136-160 | adding the selected live connections and then deleting the selected dead ones is the meaning of the event |
| Vl3lbMonitor.EventDecides | pkg/networkservice/vl3lb/common.go:136-160 | for each connection, by its labels, state and the type of the event: a matching one that is deleted or down is listed for deletion and leaves the servers, a matching other one is added with its first source address and the target port, and one that does not match keeps its place |
| Vl3lbMonitor.ListedTimes | pkg/networkservice/vl3lb/common.go:138-158 | a connection is listed for deletion once for each label that matches in a deletion event, and once if it is down and some label matches |
| Vl3lbMonitor.StreamCallsMeanStream | pkg/networkservice/vl3lb/common.go:116-134 | the handler calls of a whole stream fold to the meaning of its events |
| Vl3lbMonitor.ServersFollowOwnEvents | pkg/networkservice/vl3lb/common.go:83-160 | however the calls of other NSEs interleave and whatever fails, an NSE's servers are the fold of its own events, up to `equals` |
| Vl3lbMonitor.EndedStreamLeavesNothing | pkg/networkservice/vl3lb/common.go:118-123 | once its stream has ended an NSE has no server, whatever the other monitors do |
| Vl3lbMonitor.FilterConnections | pkg/networkservice/vl3lb/common.go:136-160 | what is added, which ids are listed for deletion and how often each, for every iteration order of both maps |
| Vl3lbMonitor.FilterConnection | pkg/networkservice/vl3lb/common.go:138-158 | one connection: listed once for each matching label in a deletion event, once if it is down and selected, and otherwise added if selected |
| Vl3lbMonitor.OnEvent | pkg/networkservice/vl3lb/common.go:124-131 | one turn of the event loop makes the two handler calls of its event |
| Vl3lbMonitor.BalanceNSE | pkg/networkservice/vl3lb/common.go:116-134 | the event loop makes the calls of its whole stream and ends by removing all servers of its NSE |
| Vl3lbMonitor.MonitoredIff | pkg/networkservice/vl3lb/common.go:62-77 | a name is in the monitored-NSE map if and only if the NSE was announced and not deleted since |
| Vl3lbMonitor.LoopsExactly | pkg/networkservice/vl3lb/common.go:62-80 | an NSE gets exactly one event loop for each announcement that is its first message or follows a deletion |
| Vl3lbMonitor.OneLoopIff | pkg/networkservice/vl3lb/common.go:70-79 | it gets at most one if and only if it is not announced, then deleted, then announced again |
| Vl3lbMonitor.BalanceService | pkg/networkservice/vl3lb/common.go:62-80 | the registry loop: the map it keeps and the event loops it starts |
| L2BridgeDomain.RequestKeepsConsistent | pkg/networkservice/xconnect/l2bridgedomain/server.go:51-81 | whatever calls fail, a request keeps live domains in bijection with the map, VPP's members within `attached`, and `attached` within the members and the client interface |
| L2BridgeDomain.FirstRequestOutcome | pkg/networkservice/xconnect/l2bridgedomain/server.go:51-81 | a first request succeeds exactly if VPP accepts the bridge if it is new, the server interface, and the client interface if it is not attached; if the client interface is refused the server interface is detached again, and is attached nowhere and a member of no domain exactly if VPP accepts that; if something before is refused it is nowhere |
| L2BridgeDomain.OthersUnbridged | pkg/networkservice/xconnect/l2bridgedomain/server.go:51-92 | requests and closes without an Ethernet payload, a VLAN or both interfaces, and requests the next element fails, change nothing |
| L2BridgeDomain.CloseKeepsConsistent | pkg/networkservice/xconnect/l2bridgedomain/server.go:83-92 | whatever calls fail, a close keeps map and VPP in the same agreement |
| L2BridgeDomain.RunKeepsConsistent | pkg/networkservice/xconnect/l2bridgedomain/common.go:50-138 | in every reachable state of every run with any VPP calls failing, map and VPP are in that agreement |
| L2BridgeDomain.RemovedExactlyWhen | pkg/networkservice/xconnect/l2bridgedomain/common.go:96-138 | a close removes a key if and only if the client interface was the only other one attached and VPP accepts each call of the teardown, by its answers and the sub-interface's presence |
| L2BridgeDomain.EmptiedExactlyWhen | pkg/networkservice/xconnect/l2bridgedomain/common.go:96-138 | a close leaves an empty bridge if and only if the deletion of the domain alone fails, or only the server interface was attached and is detached |
| L2BridgeDomain.EmptyBridgeStaysIff | pkg/networkservice/xconnect/l2bridgedomain/common.go:96-138 | over every run and all answers of VPP an empty bridge and its domain stay if and only if no request of the run joins its key; no close deletes them |
| L2BridgeDomain.JoinSucceeds | pkg/networkservice/xconnect/l2bridgedomain/common.go:50-94 | without failures both interfaces end up attached to a bridge of their key and nothing else changes |
| L2BridgeDomain.DelSucceeds | pkg/networkservice/xconnect/l2bridgedomain/common.go:96-138 | without failures the server interface leaves, and bridge and sub-interface go if and only if that leaves the client interface alone |
| L2BridgeDomain.Server.Request | pkg/networkservice/xconnect/l2bridgedomain/server.go:51-81 | map, VPP, metadata and result are those of the specified request, close on failure included |
| L2BridgeDomain.Server.Close | pkg/networkservice/xconnect/l2bridgedomain/server.go:83-92 | map, VPP and metadata are those of the specified close, which drops errors |
| L2BridgeDomain.Server.AddBridgeDomain | pkg/networkservice/xconnect/l2bridgedomain/common.go:50-94 | map, VPP and result are those of the specified attachment, at every point of failure |
| L2BridgeDomain.Server.DelBridgeDomain | pkg/networkservice/xconnect/l2bridgedomain/common.go:96-138 | map, VPP, metadata and result are those of the specified detachment and teardown, at every point of failure |
| L2BridgeDomain.Server.DelVppSubIf | pkg/networkservice/xconnect/l2bridgedomain/common.go:183-201 | with a VLAN the sub-interface is deleted and the metadata stay; without one only the client index goes from the metadata |
| Vlan.GetHostOrVlanInterface | pkg/networkservice/mechanisms/vlan/common.go:83-116 | over every order of the dump: the first matching sub-interface, else the last host interface, else an error |
| Vlan.SearchMeans | pkg/networkservice/mechanisms/vlan/common.go:83-116 | what the search finds, in names: a sub-interface of that VLAN whose name contains the device name, or an interface named as the device or with "host-" in front |
| Vlan.AddSubIfSucceedsIff | pkg/networkservice/mechanisms/vlan/common.go:44-116 | exactly when the VLAN client succeeds: by its metadata, the device names, what the dump holds and the answers of VPP |
| Vlan.ForgottenIsNew | pkg/networkservice/mechanisms/vlan/common.go:44-81 | a request that has an index in its metadata asks nothing; once a close has removed it the next one asks again; an unknown device is an error |
| Vlan.AddSubIf | pkg/networkservice/mechanisms/vlan/common.go:44-81 | metadata, VPP and result of the VLAN client, with the sub-interface shared if it was found |
| Vlan.DelSubIf | pkg/networkservice/mechanisms/vlan/common.go:138-148 | only the metadata go |
| VlanBridge.LookupIsExact | pkg/networkservice/mechanisms/vlan/common.go:83-116 | in step with the open connections, the search finds the device's own sub-interface on that VLAN if there is one and otherwise the device's host interface |
| VlanBridge.OpenKeepsTidy | pkg/networkservice/mechanisms/vlan/common.go:44-81 | without failures a first request keeps bridges, sub-interfaces and open connections in step |
| VlanBridge.RefreshChangesNothing | pkg/networkservice/mechanisms/vlan/common.go:46-49 | a later request of an open connection changes nothing at all |
| VlanBridge.CloseKeepsTidy | pkg/networkservice/xconnect/l2bridgedomain/common.go:96-138 | a close keeps them in step: bridge and sub-interface go with the last connection on the key and not before |
| VlanBridge.RunKeepsTidy | pkg/networkservice/xconnect/l2bridgedomain/common.go:77-137 | in every failure-free run `attached` is the client interface and exactly the server interfaces of the open connections on the key, with at most one sub-interface for each device and VLAN |
| VlanNames.FindsOwnIff | pkg/networkservice/mechanisms/vlan/common.go:101-103 | the search by name finds a device's own sub-interface or none, for all sub-interfaces that may exist, if and only if no device's name occurs in the name of a sub-interface on another host interface, for any VLAN id |
| VlanNames.AlwaysKeptIff | pkg/networkservice/mechanisms/vlan/common.go:44-116 | all failure-free runs keep every connection on an interface of its own device, and bridges and sub-interfaces those of the open connections, if and only if the names are apart in that sense or there are not two server interfaces for two connections to be open |
| VlanNames.SubstringFreeNamesDoNotSuffice | pkg/networkservice/mechanisms/vlan/common.go:101-103 | device "10" on VLAN 100 is given the sub-interface of device "eth0" although neither name is a substring of the other |
| Loopback.CreateKeepsCounted | pkg/networkservice/loopback/common.go:33-54 | a side that is given a loopback is counted once, and the counter does not overflow below 2^32 - 1 sides |
| Loopback.DelKeepsCounted | pkg/networkservice/loopback/common.go:69-83 | a side that gives its loopback up is counted off once, and the counter never underflows |
| Loopback.StepKeeps | pkg/networkservice/loopback/server.go:52-71 | a request, its failing further down included, and a close keep counts and ownership |
| Loopback.RunKeeps | pkg/networkservice/loopback/server.go:52-71 | in every reachable state the count is the number of sides that hold the loopback, an entry exists if and only if some side does, all hold the same index, and every deletion finds its entry |
| Loopback.NothingStranded | pkg/networkservice/loopback/common.go:69-83 | without failures no loopback is ever left over |
| Loopback.FailedRequestUndone | pkg/networkservice/loopback/server.go:52-66 | a first request that VPP or the next element fails leaves the entries and the metadata as they were, and the loopbacks too unless VPP refuses to delete the one made for it |
| Loopback.FailedRefreshReleases | pkg/networkservice/loopback/server.go:52-66 | a failed refresh gives up the side's loopback |
| Loopback.Server.CreateLoopback | pkg/networkservice/loopback/common.go:33-54 | the shared entry, the metadata and VPP are those of the specified step; the entries are shared objects |
| Loopback.Server.Del | pkg/networkservice/loopback/common.go:69-83 | entry, metadata and VPP are those of the specified deletion, with the shared entry removed at zero |
| Loopback.Server.Request | pkg/networkservice/loopback/server.go:52-66 | entries, metadata, VPP and result are those of the specified request, undone if the next element fails |
| Loopback.Server.Close | pkg/networkservice/loopback/server.go:68-71 | entries, metadata and VPP are those of the specified deletion |
| Vrf.OpenKeepsClean | pkg/networkservice/vrf/server.go:57-100 | without failures a request makes the side open in both families and keeps each `attached` set exactly the loopback and the interfaces of the open sides |
| Vrf.CloseKeepsClean | pkg/networkservice/vrf/server.go:102-108 | without failures a close, of an open side or not, keeps both families clean |
| Vrf.LastCloseDeletesTables | pkg/networkservice/vrf/common.go:113-132 | entries and tables of both families go if and only if no other side of the service is open |
| Vrf.SameServices | pkg/networkservice/vrf/common.go:35-53 | both families have entries for the same services with the same interfaces attached |
| Vrf.FailedRequestCleanIff | pkg/networkservice/vrf/server.go:71-84 | a request that fails further down keeps the state clean if and only if it is the side's first and the service already has an entry |
| Vrf.FailedRequestForgets | pkg/networkservice/vrf/server.go:57-100 | a first request that fails once both tables are there leaves its side in neither family's metadata, and after a failed attachment its interface in neither entry; failing for want of a table it keeps the IPv4 table at most |
| Vrf.HalfOpenIsNotAttached | pkg/networkservice/vrf/server.go:57-100 | a side that has got only one table from a failed request gets the other by the next one, but its interface is never attached |
| Vrf.StepCleanIff | pkg/networkservice/vrf/server.go:57-108 | every step keeps the state clean if and only if it is not such a request |
| Vrf.RunKeepsClean | pkg/networkservice/vrf/server.go:57-108 | in every state of a run of such steps both families are clean and in lockstep |
| Vrf.FailedRefreshStrandsTables | pkg/networkservice/vrf/server.go:71-84 | a refresh that fails further down cleans up under the empty name of the missing connection: after the close, tables remain for which no side is open |
| Vrf.VrfMap.Create | pkg/networkservice/vrf/common.go:35-53 | entry, metadata and VPP of one family are those of the specified step |
| Vrf.VrfMap.Attach | pkg/networkservice/vrf/common.go:74-111 | entry and VPP of one family are those of the specified attachment |
| Vrf.VrfMap.Del | pkg/networkservice/vrf/common.go:113-132 | entry, metadata and VPP of one family are those of the specified deletion |
| Vrf.Server.Request | pkg/networkservice/vrf/server.go:57-100 | both families and the result are those of the specified request at every point of failure |
| Vrf.Server.CreateBoth | pkg/networkservice/vrf/server.go:61-69 | the loop over the families stops at the first failure |
| Vrf.Server.AttachBoth | pkg/networkservice/vrf/server.go:86-97 | the attachments in both families stop at the first failure |
| Vrf.Server.CloseTables | pkg/networkservice/vrf/common.go:154-157 | both families are closed |
| Acl.MirroredDecision | pkg/networkservice/acl/common.go:92-115 | the mirrored list decides the reversed packet as the list decides the packet, first match for first match |
| Acl.MirrorIsExact | pkg/networkservice/acl/common.go:101-113 | it does so for every list if and only if the packet's two fields are swapped by the reversal (TCP and UDP), or are equal, or no rule looks at them |
| Acl.MirrorTwice | pkg/networkservice/acl/common.go:101-113 | mirroring twice is the identity |
| Acl.InPrefixIsBits | pkg/networkservice/pinhole/common.go:216-247 | bit by bit: an address is in a prefix exactly if it is of its family and agrees with it up to its length |
| Acl.AclAdd | pkg/networkservice/acl/common.go:92-115 | the in-place loop over the copy yields the mirrored rules and leaves the caller's rules alone |
| Pinhole.PinholeRuleMeaning | pkg/networkservice/pinhole/common.go:215-256 | the rule matches exactly the UDP packets to the tunnel's address and port, on the way out from its address |
| Pinhole.ExtendResult | pkg/networkservice/pinhole/common.go:92-115 | a direction is left as it was if it is empty or has the tag, and otherwise gets one new list in front; other lists are not touched |
| Pinhole.SplitIsExact | pkg/networkservice/pinhole/common.go:62-75 | splitting the written list at `NInput` gives back the two intended lists if and only if there are fewer than 256 |
| Pinhole.CreateResult | pkg/networkservice/pinhole/common.go:44-90 | after a success both directions are extended as needed and nothing else has changed; after a failure at any call no list has |
| Pinhole.PinnedLets | pkg/networkservice/pinhole/common.go:44-90 | a direction lets through what it did before and, if it had lists and none with the tag, exactly the tunnel's packets as well |
| Pinhole.PinnedElsewhere | pkg/networkservice/pinhole/common.go:58-60 | other interfaces let through what they did before |
| Pinhole.TunnelServedIff | pkg/networkservice/pinhole/common.go:44-90 | after a success all packets of the tunnel pass if and only if a pinhole was put in or they passed anyway |
| Pinhole.SharedPortIsShadowed | pkg/networkservice/pinhole/common.go:97-99 | the tag names the port only: after a pinhole for one address, one for another address and the same port on that interface lets no packet of its tunnel pass that did not pass before both |
| Pinhole.ShadowedTunnel | pkg/networkservice/pinhole/common.go:92-115 | that happens, for any two addresses, any port and either direction |
| Pinhole.Conn.Create | pkg/networkservice/pinhole/common.go:44-90 | VPP's state and the result are those of the specified `create`, at every point of failure |
| Pinhole.Conn.AddToACLToACLListIfNeeded | pkg/networkservice/pinhole/common.go:92-115 | one direction's indices are those of the specified extension, with at most one new access list in VPP |
| Pinhole.Conn.InterfacesACLDetails | pkg/networkservice/pinhole/common.go:117-177 | the details of the two directions, split at `NInput`, or a failure of any of the dumps it takes |
| Pinhole.Conn.AclDetails | pkg/networkservice/pinhole/common.go:133-155 | one dump for each list, in order, up to the first that VPP fails or that finds no list |
| Pinhole.Conn.TunnelIPSwIfIndex | pkg/networkservice/pinhole/common.go:179-213 | one address dump for each interface up to the first that has the address; a failing dump ends the search with an error |
| Pinhole.LookupResult | pkg/networkservice/pinhole/common.go:179-213 | what the search finds is the first interface with the address, and it finds it whenever no dump fails |
| Pinhole.FoundIsFirst | pkg/networkservice/pinhole/common.go:179-213 | that is the first interface one of whose addresses, of the tunnel's family, equals the tunnel's |
| Pinhole.WriteIsSkippedIff | pkg/networkservice/pinhole/common.go:70-79 | nothing is written exactly if the numbers of lists before and after agree modulo 256 |
| Pinhole.DumpResult | pkg/networkservice/pinhole/common.go:117-177 | what the dumps give is exactly the two directions of the interface, and they only read |
| Pinhole.CreateACLAddReplace | pkg/networkservice/pinhole/common.go:215-256 | the request's one rule, its prefixes replaced in place for egress |
| PinholeRace.StepExclusive | pkg/networkservice/pinhole/server.go:69-83 | under every schedule the critical section has at most one thread, the holder of the mutex |
| PinholeRace.StepLinear | pkg/networkservice/pinhole/server.go:69-83 | the interleaved machine refines one in which `create` is a single step: each step is nothing to the settled state and the maps, or one whole `create` |
| PinholeRace.LayeredMeaning | pkg/networkservice/pinhole/common.go:215-256 | layers let through what the original list did and the packets of their tunnels, nothing else |
| PinholeRace.WholeKeeps | pkg/networkservice/pinhole/common.go:44-90 | a whole `create`, succeeding or failing anywhere, keeps the layers of all interfaces and every served tunnel served |
| PinholeRace.RunKeeps | pkg/networkservice/pinhole/server.go:60-102 | for any number of requests of client and server, under every schedule and with any failures, mutual exclusion, atomicity and layers hold in every state |
| PinholeRace.OriginalListsStay | pkg/networkservice/pinhole/common.go:157-177 | in every reachable state each direction is its original list, whole and in order, under pinholes with tags of their own, and the byte-sized split is exact |
| PinholeRace.RunLets | pkg/networkservice/pinhole/client.go:61-103 | in every reachable state a direction lets through exactly what it did at first and the packets of the tunnels whose pinholes it has, and every key in a map is served |
| PinholeRace.ServedTunnelPasses | pkg/networkservice/pinhole/client.go:73-100 | a served tunnel's packets pass in both directions if no tunnel of another address on the interface shares its port and its tag was not there from the start |
| PinholeRace.TunnelPassesIff | pkg/networkservice/pinhole/common.go:92-115 | in every reachable state all of a tunnel's packets pass if and only if they all did at first or a pinhole for its own address and port is in front |
| PinholeRace.AlwaysPassesIff | pkg/networkservice/pinhole/server.go:68-99 | a tunnel passes in every run in which it has been served, under all schedules and failures, if and only if it did at first, or there are lists, none with its tag, and no tunnel of another address on the interface has its port |
| PinholeRace.NoDeadlock | pkg/networkservice/pinhole/server.go:69-83 | while a request is unfinished some request can move |
| PinholeRace.SchedulesEnd | pkg/networkservice/pinhole/server.go:68-99 | no schedule can go on making steps for ever |
| PinholeRace.StepKeepsRest | pkg/networkservice/pinhole/client.go:75-100 | the machine's steps of one request add up to the request as the method below makes it |
| PinholeRace.Element.Request | pkg/networkservice/pinhole/server.go:68-99 | the loop over the keys, missing ones skipped, stops at the first failure; map and VPP are those of the specified request |
| PinholeRace.Element.RequestKey | pkg/networkservice/pinhole/server.go:76-97 | one key: nothing if it is in the map, otherwise one `create`, stored on success |
| MechanismChain.DelKeeps | pkg/networkservice/mechanisms/memif/common.go:211-221 | every element's undoing removes from the metadata exactly the things that element makes |
| MechanismChain.CreateHolds | pkg/networkservice/mechanisms/kernel/kerneltap/common.go:88-147 | every element's creation adds nothing but the things that element makes, even when it fails half way |
| MechanismChain.CloseKeeps | pkg/networkservice/mechanisms/wireguard/peer/client.go:68-71 | closing a chain of any length drops exactly what its elements make |
| MechanismChain.RequestKeeps | pkg/networkservice/mechanisms/wireguard/peer/client.go:46-66 | a request through a chain of any length keeps VPP what was there and what the metadata hold; after a failure at any call of any element these hold nothing they did not hold before |
| MechanismChain.FirstRequestIsUndone | pkg/networkservice/mechanisms/wireguard/client.go:61-113 | a failed first request through any chain of these elements, failing anywhere, leaves interfaces, peers and sockets as they were, and a successful one does after a close, provided deletes succeed |
| MechanismProvides.FirstRequestProvides | pkg/networkservice/mechanisms/wireguard/peer/common.go:40-97 | a first request that succeeds, through any chain, has made the interface each side's mechanism describes (wireguard address and port, tunnel ends and port, tap name and type, memif socket file) and, where the peer element is in front, a peer with the other side's key, address and port on it |
| MechanismProvides.AnsweredRequestProvides | pkg/networkservice/mechanisms/wireguard/peer/common.go:40-97 | and it does succeed if VPP answers every call and the connection has what its mechanisms need |
| MechanismProvides.RequestProvides | pkg/networkservice/mechanisms/vxlan/common.go:42-126 | the same for a request from any state in which what has been made so far is right |
| MechanismProvides.PeerMade | pkg/networkservice/mechanisms/wireguard/peer/common.go:40-97 | a peer is made on the side's interface with the destination's key, address and port for a client and the source's for a server |
| MechanismProvides.CreateSucceedsIff | pkg/networkservice/mechanisms/kernel/kerneltap/common.go:43-149 | exactly when a creation that has something to make succeeds: valid addresses or key, no such tunnel in VPP, and every one of its calls |
| MechanismProvides.MemifHasFile | pkg/networkservice/mechanisms/memif/common.go:179-209 | after a successful creation the socket record has the file name of the mechanism, whatever it had before |
| MechanismProvides.RefreshChangesNothing | pkg/networkservice/mechanisms/kernel/kerneltap/common.go:51-55 | a request of a connection that has everything changes nothing in VPP and in the metadata if nothing fails |
| MechanismProvides.RefreshAfterRequest | pkg/networkservice/mechanisms/wireguard/client.go:61-113 | so a refresh without failures after a successful first request changes nothing |
| MechanismWorld.OtherKeeps | pkg/networkservice/mechanisms/wireguard/peer/client.go:46-71 | a turn of one connection that leaves the rest of VPP as it was leaves every other connection in order with its own rest |
| MechanismWorld.StepKeeps | pkg/networkservice/mechanisms/wireguard/client.go:61-113 | a request or close of any connection, failing anywhere, keeps the accounts of all connections |
| MechanismWorld.RunKeeps | pkg/networkservice/mechanisms/wireguard/client.go:61-113 | after requests and closes of any connections in any order, any of which may have failed, each interface, peer and socket was there before or is held by one connection, once, if VPP keeps the sockets that are used or at most one side of one connection makes sockets |
| MechanismWorld.FailedFirstRequest | pkg/networkservice/mechanisms/wireguard/client.go:61-113 | a failed first request, whatever else is open, leaves no trace in VPP and none in the metadata |
| MechanismWorld.CloseTakesOwn | pkg/networkservice/mechanisms/wireguard/client.go:107-113 | so a close, whenever it comes, takes away what its connection has and nothing else |
| MechanismWorld.ClosedRestores | pkg/networkservice/mechanisms/wireguard/client.go:107-113 | and once every connection has been closed VPP is as it was before the first |
| MechanismCollision.AccountsIff | pkg/networkservice/mechanisms/memif/common.go:106-128 | the accounts hold in all runs, for all failures and numbers, if and only if VPP keeps the sockets that are used or at most one side of one connection makes sockets |
| MechanismCollision.Builds | pkg/networkservice/mechanisms/memif/common.go:179-209 | if VPP answers every call, a first request of a connection that has what its mechanisms need succeeds through any chain, and the sockets it makes have the hinted number and then the first one that is free |
| MechanismCollision.RequestAlike | pkg/networkservice/mechanisms/wireguard/client.go:61-113 | a request depends on the answers to the calls it makes and on no other |
| MechanismCollision.OneConnectionCollides | pkg/networkservice/mechanisms/memif/common.go:179-209 | a chain with sockets on both sides: a request, a refresh that fails at the outermost file name and a third request leave both records with one number |
| MechanismCollision.TwoConnectionsCollide | pkg/networkservice/mechanisms/memif/common.go:106-128 | sockets of two connections: after a failing refresh of one, the other is given its old number, and the close of the first deletes the socket under the other |
| MechanismCollision.FailingRefresh | pkg/networkservice/mechanisms/memif/common.go:179-209 | a refresh of what is up that fails at the outermost file name undoes every element from there on |
| MechanismChain.Chain.CreateWireguard | pkg/networkservice/mechanisms/wireguard/common.go:39-77 | metadata, VPP and result are exactly those of the specified step, at every point of failure |
| MechanismChain.Chain.DelWireguard | pkg/networkservice/mechanisms/wireguard/common.go:79-104 | metadata and VPP are exactly those of the specified step: the key goes first, then the index, then the interface if VPP agrees |
| MechanismChain.Chain.CreatePeer | pkg/networkservice/mechanisms/wireguard/peer/common.go:47-97 | metadata, VPP and result are exactly those of the specified step, at every point of failure |
| MechanismChain.Chain.DelPeer | pkg/networkservice/mechanisms/wireguard/peer/common.go:99-118 | metadata and VPP are exactly those of the specified step, with the error dropped |
| MechanismChain.Chain.AddDelVxlan | pkg/networkservice/mechanisms/vxlan/common.go:42-126 | metadata, VPP and result are exactly those of the specified step, at every point of failure, for adding and for deleting; a tunnel that VPP does not have is an error of its deletion |
| MechanismChain.Chain.CreateTap | pkg/networkservice/mechanisms/kernel/kerneltap/common.go:43-149 | metadata, VPP and result are exactly those of the specified step, at every point of failure, with the old interface deleted unless its link is found |
| MechanismChain.Chain.DelTap | pkg/networkservice/mechanisms/kernel/kerneltap/common.go:151-178 | metadata and VPP are exactly those of the specified step, with the error dropped |
| MechanismChain.Chain.CreateMemifSocket | pkg/networkservice/mechanisms/memif/common.go:74-104 | metadata, VPP and result are exactly those of the specified step, at every point of failure |
| MechanismChain.Chain.DeleteMemifSocket | pkg/networkservice/mechanisms/memif/common.go:106-128 | the record stays, no longer marked as added, and VPP is asked to delete by its number |
| MechanismChain.Chain.CreateMemif | pkg/networkservice/mechanisms/memif/common.go:179-209 | metadata, VPP and result are exactly those of the specified step, at every point of failure, with nothing done if the file name is that of the record |
| MechanismChain.Chain.DelMemif | pkg/networkservice/mechanisms/memif/common.go:211-221 | the interface goes first, and the socket only if VPP agreed to that |
| MechanismChain.Chain.Request | pkg/networkservice/mechanisms/vxlan/client.go:66-97 | the recursive request of the elements from one on, with close on failure, is the specified request of that part of the chain |
| MechanismChain.Chain.Close | pkg/networkservice/mechanisms/kernel/kerneltap/client.go:78-84 | the recursive close of the elements from one on is the specified close of that part of the chain |
| LabeledCounter.PlainKeysDiffer | pkg/networkservice/metrics/stats/prometheus.go:48-50 | label tuples of one length without the separator have equal keys if and only if they are equal |
| LabeledCounter.RunExact | pkg/networkservice/metrics/stats/prometheus.go:52-71 | with distinct keys, after any updates and deletes every series shows its last value, which is the largest reported since its last delete |
| LabeledCounter.ExactIff | pkg/networkservice/metrics/stats/prometheus.go:48-71 | for a set of label tuples that holds for every sequence of updates and deletes if and only if no two of them have the same key |
| LabeledCounter.PlainIsExact | pkg/networkservice/metrics/stats/prometheus.go:48-71 | so it holds for plain labels |
| LabeledCounter.LabeledCounter.Update | pkg/networkservice/metrics/stats/prometheus.go:52-63 | series and last values are those of the specified step |
| LabeledCounter.LabeledCounter.Delete | pkg/networkservice/metrics/stats/prometheus.go:65-71 | the labels' series and the last value under their key are gone, all else stays |
| IpAddress.AttemptsProgress | pkg/networkservice/connectioncontext/ipcontext/ipaddress/common.go:40-90 | if no two missing networks have one address: after any number of failed attempts the interface has its old addresses and the first of the missing ones, each added once in the whole run; after a success it has all |
| IpAddress.AddsEachOnceIff | pkg/networkservice/connectioncontext/ipcontext/ipaddress/common.go:40-90 | for every pattern of failures a run that ends in a success has added each missing network once, if and only if no two missing networks have one address |
| IpAddress.SuccessIsFinal | pkg/networkservice/connectioncontext/ipcontext/ipaddress/common.go:40-90 | after a success every requested address is installed and a further call adds nothing, repeated addresses or not |
| IpAddress.AddSucceedsIff | pkg/networkservice/connectioncontext/ipcontext/ipaddress/common.go:40-90 | a call succeeds exactly if there is an interface and either no networks or both dumps and every call that adds one succeed; without an interface or networks nothing happens |
| IpAddress.DeletesRequested | pkg/networkservice/connectioncontext/ipcontext/ipaddress/common.go:60-89 | removing, when no call fails, takes away exactly the requested networks |
| IpAddress.Conn.DumpIps | pkg/networkservice/connectioncontext/ipcontext/ipaddress/common.go:92-114 | the addresses of both families, IPv4 first, or a failure of either dump |
| IpAddress.Conn.AddDel | pkg/networkservice/connectioncontext/ipcontext/ipaddress/common.go:40-90 | addresses and result are those of the specified call, with the source networks for a client and the destination networks for a server |
| IpAddress.Conn.AddLoop | pkg/networkservice/connectioncontext/ipcontext/ipaddress/common.go:60-89 | the nested loops when adding |
| IpAddress.Conn.DelLoop | pkg/networkservice/connectioncontext/ipcontext/ipaddress/common.go:60-89 | the loop when deleting |
| TunnelMtu.NegotiatedIsMinimum | pkg/networkservice/mechanisms/vxlan/mtu/server.go:51-75 | over any number of hops of the three kinds, with links larger than their overheads, the connection's MTU is the least of the tunnels' and of its own if it had one |
| TunnelMtu.OrderDoesNotMatter | pkg/networkservice/mechanisms/vxlan/mtu/server.go:51-75 | the order of the hops, and repetitions, do not matter |
| TunnelMtu.RefreshKeeps | pkg/networkservice/mechanisms/vxlan/mtu/client.go:52-69 | a request that starts with the negotiated values leaves them |
| TunnelMtu.FitsIff | pkg/networkservice/mechanisms/wireguard/mtu/common.go:66-94 | the connection has an MTU that with each hop's overhead fits both its links, if and only if every link is larger than its overhead |
| TunnelMtu.Conn.GetMtu | pkg/networkservice/mechanisms/vxlan/mtu/common.go:33-72 | one address dump for each interface up to the first that has the address and an MTU, from which the overhead is subtracted modulo 2^32; a failing dump is an error |
| TunnelMtu.ScanFindsFirst | pkg/networkservice/mechanisms/vxlan/mtu/common.go:33-72 | what the scan finds is the first such interface, and it finds it whenever no dump fails |
| TunnelMtu.GetMtuMeans | pkg/networkservice/mechanisms/wireguard/mtu/common.go:31-95 | what `getMTU` gives, plus 54, 60 or 81 bytes and 20 more for an IPv6 tunnel, is the MTU of the first link with an MTU and the tunnel's address, if that is larger; and it is the MTU of that end in the theorems about hops |
| TunnelMtu.ElementsMakeHop | pkg/networkservice/mechanisms/vxlan/mtu/client.go:52-69 | a client element clamps mechanisms of its kind only, and with the server element after it makes one hop of those theorems |
| TunnelMtu.MtuElement.Init | pkg/networkservice/mechanisms/vxlan/mtu/server.go:81-97 | the MTU is worked out once; a failure is retried by the next call |
| TunnelMtu.MtuElement.ServerRequest | pkg/networkservice/mechanisms/vxlan/mtu/server.go:51-75 | mechanism and context are clamped; without a mechanism of the kind nothing changes |
| TunnelMtu.MtuElement.ClientRequest | pkg/networkservice/mechanisms/vxlan/mtu/client.go:52-69 | the mechanism and, in place, every preference of the kind are clamped, the others left alone |
| NsMonitor.RunKeeps | pkg/networkservice/nsmonitor/client.go:66-110 | under every interleaving each watch is in order, a watch that is not cancelled is the one the metadata hold, and the monitor is supplied once |
| NsMonitor.AtMostOneWatch | pkg/networkservice/nsmonitor/client.go:76-78 | a connection never has two watches that are not cancelled |
| NsMonitor.ClosesOnlyAfterGone | pkg/networkservice/nsmonitor/client.go:84-94 | a watch asks for a close at most once, only after its path was missing, and is not cancelled when it decides to |
| NsMonitor.CloseIsOwn | pkg/networkservice/nsmonitor/client.go:89-93 | a close that takes effect closes the connection of its own watch and touches no other watch |
| NsMonitor.SendNeverBlocks | pkg/networkservice/nsmonitor/monitor.go:43-58 | the watcher's one send always finds room in the channel |
| NsMonitor.CancelledWatchEnds | pkg/networkservice/nsmonitor/client.go:82-95 | once a watch is cancelled the select has a ready case and every step of both goroutines takes them nearer to their end |
| NsMonitor.EndedSelectorHasCancelled | pkg/networkservice/nsmonitor/client.go:83 | a selector that has ended has cancelled its watch, so its watcher ends too |
| NsMonitor.MissingIsClosed | pkg/networkservice/nsmonitor/client.go:84-94 | while the path of a found process stays missing and nobody cancels the watch, its goroutines have at most seven steps, one of them can move as long as no close has been asked for, and after the last the close has been asked for, whatever else happens in between |
| NsMonitor.RequestWatches | pkg/networkservice/nsmonitor/client.go:66-100 | a first request with an inode URL makes a current, uncancelled watch and starts both goroutines; without one it starts none; a request of an open connection makes nothing; the monitor is supplied |
| NsMonitor.RequestIsFound | pkg/networkservice/nsmonitor/client.go:79-95 | such a watch, while nobody cancels it and no watcher fails to find the process, goes on looking or has seen the path missing |
| NsMonitor.MissingClientIsClosed | pkg/networkservice/nsmonitor/client.go:66-100 | so from a first request with an inode URL on: once the path of the found process is missing and stays so, and nobody cancels the watch, its goroutines end in a request for a close, whatever else happens |
| NsMonitor.NetNSMonitorClient.Request | pkg/networkservice/nsmonitor/client.go:66-100 | metadata, monitor and new watch are those of the specified request; nothing happens if the next element fails |
| NsMonitor.NetNSMonitorClient.Close | pkg/networkservice/nsmonitor/client.go:102-110 | the metadata lose their watch and it is cancelled |

## Left out

Assumed about the environment:

- Requests and closes of one connection come one at a time, metadata are a map for each side of a connection, and the next
  element is called in turn; a close that the namespace monitor asks for is dropped if its context is cancelled by the time
  it is its turn. These are the sdk's `begin`, `metadata` and `next`.
- One load balancer handler for each VPP, so that the translation is number 0; its calls are atomic steps. The code takes no
  lock, so nothing is claimed about calls that overlap.
- A connection in a monitor event is keyed by its id, and one to be added has a source address (the code would panic).
- A server interface is used with one client interface at a time and outlives its membership in a bridge.
- VRF with `WithLoadInterface`: a common loopback for each service, interfaces of connections distinct from each other and
  from the loopbacks, non-empty service names, and no failing VPP call. Attaching while another connection deletes is not
  modelled.
- A connection's service name does not change, and there are fewer than 2^32 - 1 connection sides with a loopback.
- While pinholes are made, nothing else changes the access lists of the interfaces.
- VPP refuses to delete a bridge domain that has members and to add a vxlan tunnel it already has. Whether it refuses to delete a
  memif socket that an interface uses is a parameter of the mechanism modules.
- VPP accepts a second prefix with an address that the interface already has.
- VLAN ids are those of IEEE 802.1Q, 1 to 4094, and 0 for none.
- Nothing but the chains changes VPP's interfaces, peers and sockets in the statements about chains. A request or close of one
  connection is over before that of another begins, and deletes succeed.
- The metadata of a connection live from its first successful request to its close. That is the sdk's `metadata` element (go.mod:14),
  whose source is not part of this model; the client's metadata, which go with any close that reaches them, are kept as long as
  the server's here, which only keeps more old records.
- A connection keeps its mechanism, its payload and its wireguard keys for its life.
- Counter values are whole numbers below 2^53, where float64 arithmetic is exact.

Not modelled:

- The VPP binary API, gRPC, netlink, Prometheus registration, logging, durations and timeouts: only each call's effect or failure.
- Each dump is a call with a failure of its own, but an error in the middle of receiving one is not distinguished. In
  `PinholeRace` the dumps of one search, which only read, are one step.
- Nil pointers where Go would panic; a nil `*net.IPNet` given to `ToVppPrefix`. A nil and an empty byte slice are one value.
- The identity of bridge and VRF entry objects: they are values in their maps here, those of loopbacks are objects.
- Dialling the monitors and the registry query of `balanceService`. While an NSE has two event loops (`Vl3lbMonitor.OneLoopIff`) its
  calls are not those of one stream, and `Vl3lbMonitor.ServersFollowOwnEvents` says nothing about it.
- ipsec `create`, whose tunnel index is stored only at the end; `aclServer.Close`; the proxy's byte copying.
- The number of CNAT paths as a uint32.
- Wireguard key generation, memif's role, mode and direct mode and network namespaces, vxlan's next-node index, and what a tunnel's VNI is.
- The polling loop of the namespace monitor as a method: it has no bound, and is a state machine here.
- Option handling, chain assembly, up, tag, cross-connect and unnumbered elements: straight-line calls with little state.
- IpTypes.VppAddressRoundTrip: for IPv4 the union's other twelve bytes must be zero, which VPP does not promise.
- PinholeRace.RunKeeps: assumes that each interface's lists leave room for a pinhole of each tag of its tunnels in each direction within 255 entries;
  beyond that the byte-sized counts wrap around, see `Pinhole.SplitIsExact`.
- IpAddress.Conn.DelLoop: no caller removes addresses (client.go:87 and server.go:86 of that folder ask for adding only), so only
  `IpAddress.DeletesRequested` is proved about removing.
- MechanismCollision.AccountsIff: that the condition suffices (`MechanismWorld.RunKeeps`) is proved for all connections; that it is needed, where two
  connections that make sockets have what their mechanisms need (addresses, keys, a tunnel of its own for each side) and no vxlan
  tunnel in common. Others cannot be served, or not at one time.
- VlanBridge.RunKeepsTidy: covers runs without VPP failures; under failures only `L2BridgeDomain.RunKeepsConsistent` is claimed.
