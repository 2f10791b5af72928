# A verified model of the PeerCube overlay

PeerCube is a distributed hash table whose nodes are clusters of peers. A cluster has a bit-string
label, a core and spares whose identifiers start with the label, and a routing table with one entry per
label bit. Clusters split when both halves are large enough, merge when they run dry, repair their tables by
scanning the registry, and forward messages greedily by the XOR distance to a key. This project models the
`simulation` package, and the response quorum and message handlers of `peercube`, and proves what they promise.

The model has two layers.

* **Values.** `Network` is one instant of the overlay as a value (`Net`), with the atomic steps `Join`, `Split`,
  `Fix`, `Leave`, `Drop`, `Merge`, `Put` and `Delete`. `Inv` is the global invariant: the registry is keyed by
  label strings; labels form a complete prefix code; every table has one entry per label bit, leaving the label
  at that bit; members carry the label and have one role; core peers are replicas whose keys lie under the label;
  spares are empty; no cluster in service is left locked. M, SMin and TSplit are symbolic with 0 < SMin <= TSplit. Where the source ranges over a
  Go map, any order and any choice is allowed.
* **Objects.** `Cluster`, `Peer`, `MapWrapper`, `ClusterRegistry` and the handlers are classes with the source's
  fields and loops. `ClusterRegistry.View()` reads the objects as a `Net`, and every overlay operation is proved to
  take exactly one step, or a run of steps, of the value model, so what is proved of runs holds of the objects.
  `ClusterRegistry.Valid()` is `Inv` of that value, every peer with its own store and pointing at its cluster, and
  every cluster admitting newcomers by the vote count SafteyValue.

| module | source | content |
|---|---|---|
| Ids | simulation/route.go | identifiers, the truncating order, the documented distance |
| PrefixCode | simulation/cluster.go, simulation/merge.go | label sets that give every identifier one owner |
| Network, Invariant, Steps, SplitStep, MergeStep, Runs | simulation/cluster.go, simulation/registry.go, simulation/merge.go | the overlay as a value, its steps, the invariant over all runs |
| Routing, Relaying, Blocking | simulation/cluster.go, simulation/event.go, simulation/merge.go | greedy routing reaches the owner; what a merge does to it until the next repair |
| Undoing | simulation/cluster.go, simulation/merge.go | a split can be undone by a merge |
| Durability, Losses, Origins, Counterexamples, Reachability | simulation/cluster.go, simulation/merge.go | what becomes of stored entries and members, where they are lost, and where what is found comes from |
| DataStore, Objects, Bootstrap, Splitting, Merging, Membership, Joining, Forwarding | simulation/*.go | the mutating code, as objects |
| Votes | simulation/addHandler.go | the vote counter gating admission |
| Handlers, FanIn | simulation/eventhandler.go, simulation/eventregistry.go | fan-in handlers and their registry over all interleavings |
| PeercubeHandlers | peercube/eventhandler.go | the n-of-many handlers |
| Quorum | peercube/verify.go | the response tally |
| Cardinality | | sizes of finite sets and maps |

## What turned out false of the code

* A merge takes the cluster in the last routing-table slot for the sibling. Its label may be longer; then the
  labels stop being a prefix code. `MergeStep.MergeKeepsIff` gives the exact condition (equal label lengths),
  `Counterexamples.DeeperPartnerBreaks` an overlay and a merge. Runs are therefore stated over safe merges.
* A split copies each half's data from an arbitrary core peer picked after promotion, and a promoted spare has an
  empty store. `Durability.SplitKeepsEntryIff` says which entries survive a given split, `Losses.EverySplitKeepsIff` which
  survive every split the cluster may make, `Durability.SomeHalfPromotes` that one half always promotes, and
  `Counterexamples.SplitCanLose` shows a stored entry that is lost whatever is picked.
* A merge is not followed by a repair (simulation/cluster.go:103-110), so links may name clusters out of service until the
  next one: `Runs.MergeKeepsLinksLiveIff` says when, `Counterexamples.MergeLeavesDeadLink` shows it. Worse, a merge takes
  the partner's lock (simulation/merge.go:12) and never releases it, so whatever is sent to the partner waits for good
  (simulation/cluster.go:202). Until the next repair a message is lost exactly if its route comes to the partner from a
  cluster other than the leaver's (`Blocking.ArrivesIff`); `Counterexamples.MergeLosesMessage` is an instance. The leaver's
  cluster, which replaceVC unlocks, still takes messages, and its peers hand them on from the merged cluster.
* A merge drops the partner's spares: `Durability.MergeKeepsMembersIff`, and `Counterexamples.MergeDropsSpare`.
* Leaves that nobody replaces can empty a core, and a drop of the last core peer loses what the cluster stored:
  `Durability.StepKeepsEntryIff`.
* `JoinAckHandler.fire` does not look at `quit`, so a kill that comes before any hash reaches n acknowledgements
  makes it send a nil event: `PeercubeHandlers.SendsCrossingIff` and `PeercubeHandlers.KillSendsNil`. Nothing in the
  program kills this handler: `kill` is called only on handlers that the registry refuses (peercube/eventregistry.go:26-29),
  and this one is never registered (peercube/node.go:116). Without a kill it is right: `PeercubeHandlers.SendsCrossing`.
* A split tells the members of the new cluster their role (simulation/cluster.go:45-54) but not the spares promoted in the
  half that stays, which keep the type SPARE. `Splitting.SplitTypesIff` and `Splitting.Split` say when that happens: when
  fewer than SMin core members are on that side. `Counterexamples.SplitForgetsTypes` is an instance.
* `RespQuorum.Check` never accepts on a first call (peercube/verify.go:41-43), so a threshold of one acts as two. The
  program itself builds no RespQuorum outside its registry; the lemmas hold for any threshold.
* A put of the empty string under a missing key counts as "already there" and is not answered
  (simulation/event.go:113, simulation/datastore.go:44): `Objects.UnchangedIff`, with `Objects.EmptyPutUnnoticed`.
* BasicDescription.md defines the distance on full identifiers; the code truncates to the shorter argument. Both
  agree at full length (`Ids.CloserIsNumeric`); on labels the order is only partial, and the scans are right because
  labels are prefix-free (`Ids.CloserTotal`, `PrefixCode.NearestIffComparable`, `Routing.StrictlyClosest`).

## Model

| member | source | states |
|---|---|---|
| `Ids.EqualizeLength` | simulation/route.go:55-63 | only the first argument is ever shortened, to the shorter length |
| `Ids.Distance` | simulation/route.go:9-16 | the bitwise difference of the shared bits |
| `Ids.HammingDistance` | simulation/route.go:18-27 | the number of shared positions that differ |
| `Ids.Prefix` | simulation/route.go:74-84 | true exactly when the label is a prefix |
| `Ids.Lt` | simulation/route.go:86-94 | decided by the first differing shared bit, false if there is none |
| `Ids.Gt` | simulation/route.go:106-114 | the converse of `Lt` |
| `Ids.Gte` | simulation/route.go:116-124 | the negation of `Lt`, so true of identifiers one of which is a prefix of the other |
| `Ids.Eq` | simulation/route.go:126-137 | true exactly when the identifiers are equal, length included |
| `Ids.String` | simulation/route.go:138-148 | the string of the identifier |
| `Ids.IdFromString` | simulation/route.go:37-44 | the identifier a string denotes; anything but 1 reads as a zero bit |
| `Ids.StrRoundTrip` | simulation/route.go:37-44 | reading back an identifier's string gives the identifier |
| `Ids.ParseRoundTrip` | simulation/route.go:37-44 | writing back gives the string exactly when it is made of zeros and ones |
| `Ids.LessTransitive` | simulation/route.go:86-94 | `lt` is transitive although arguments of any lengths mix |
| `Ids.LessIrreflexive` | simulation/route.go:86-94 | `lt` is irreflexive |
| `Ids.UnorderedIffComparable` | simulation/route.go:86-94 | neither is less exactly when one is a prefix of the other |
| `Ids.UnorderedNotTransitive` | simulation/route.go:55-63 | being unordered is not transitive: `lt` is not a weak order |
| `Ids.CloserAt` | simulation/route.go:9-16 | where two labels part, the one following the target is strictly closer |
| `Ids.CloserTransitive` | simulation/route.go:86-94 | truncated closeness to a fixed target is transitive |
| `Ids.CloserTotal` | simulation/route.go:55-63 | of two labels neither of which extends the other exactly one is closer, if the target reaches as far as one of them |
| `Ids.CloserIsNumeric` | BasicDescription.md:11-15 | at full length, `lt` on distances is the numeric order of the documented D |
| `Ids.DistanceInvolution` | simulation/route.go:9-16 | b to distance(a, b) undoes itself, hence is a bijection |
| `Ids.NoTies` | BasicDescription.md:11-15 | D(a, b) = D(a, c) exactly when b = c |
| `Ids.DiffCountFlip` | simulation/route.go:18-27 | setting a wrong bit right lowers the Hamming distance by one |
| `Ids.DiffCountZero` | simulation/route.go:18-27 | at equal lengths the count is zero exactly for equal identifiers |
| `PrefixCode.UniqueOwner` | BasicDescription.md:22-26 | every m-bit identifier has exactly one label as prefix |
| `PrefixCode.AcrossAt` | simulation/registry.go:94-101 | what lies across from a label at any bit is inhabited by a label other than it |
| `PrefixCode.NearestIffComparable` | simulation/registry.go:97-100 | a label no other beats for the flipped ideal is exactly one comparable with the ideal, and it leaves the own label exactly at that bit |
| `PrefixCode.SplitKeepsCode` | simulation/cluster.go:226-236 | replacing a label by its two extensions keeps a complete prefix code |
| `PrefixCode.MergeKeepsCodeIff` | simulation/merge.go:15-25 | replacing two labels by the parent of the first keeps a complete prefix code exactly when the second is its sibling |
| `PrefixCode.SiblingMergeKeepsCode` | simulation/merge.go:15-25 | a merge of siblings keeps a complete prefix code |
| `PrefixCode.Across` | simulation/cluster.go:103 | the labels on the other side of the last bit all extend the sibling |
| `PrefixCode.LinkAtLastBit` | simulation/cluster.go:103 | the last slot lies under the sibling and is the sibling exactly when its label is as long |
| `PrefixCode.DeepestHasSibling` | simulation/cluster.go:103 | a longest label has its sibling in service, so a safe merge exists until one cluster is left |
| `PrefixCode.CompleteIffFullWeight` | simulation/cluster.go:226-236 | a prefix-free bounded label set is complete exactly when the 2^(m-|l|) sum to 2^m |
| `Invariant.MembersApart` | simulation/cluster.go:239-250 | clusters in service share no member |
| `Invariant.LabelOwner` | simulation/registry.go:41-54 | a label is in use exactly when the registry has its string, and the entry holds that label |
| `Invariant.SplitKeepsLinks` | simulation/cluster.go:282-289 | right after a split, before any repair, every link of the shrunken, the new and every third cluster still leaves its label at the right bit, and live links stay live |
| `Invariant.SplitTopology` | simulation/cluster.go:286-288 | after a split the registry is keyed by label strings, exactly the two halves replace the old label, all others stay in service |
| `Invariant.MergeTopology` | simulation/merge.go:49 | after a merge the two clusters are out of service, the merged one is in, all others as before |
| `Invariant.MergeKeepsLinks` | simulation/merge.go:22-25 | a merge with any partner keeps the link property of every table |
| `Invariant.PartnerIsSibling` | simulation/cluster.go:103 | the merge partner taken from the last slot lies under the sibling; it is the sibling exactly when as long |
| `Invariant.RepairedLinks` | simulation/registry.go:88-106 | a repaired table has live links, slot i comparable with the label with bit i flipped |
| `Steps.JoinCell` | simulation/cluster.go:141-144 | an admitted spare keeps its cluster's members keyed, roles apart, replicas equal and spares empty |
| `Steps.LeaveCell` | simulation/cluster.go:107-109 | after a nomination all core peers still agree, and the core size is kept |
| `Steps.DropCell` | simulation/cluster.go:95-98 | an unreplaced leave keeps the remaining core in agreement |
| `Steps.PutCell` | simulation/event.go:109-122 | a put at all core peers keeps them equal, and owns only keys under the label |
| `Steps.DeleteCell` | simulation/event.go:169-185 | a delete at all core peers keeps them equal |
| `Steps.LocalKeeps` | simulation/cluster.go:86-111 | joins, nominations, drops, puts and deletes keep the global invariant and touch one cluster |
| `Steps.FixKeeps` | simulation/registry.go:88-106 | a repair keeps the invariant and leaves every table repaired and live, from any tables of the right lengths |
| `SplitStep.SplitPartition` | simulation/cluster.go:239-263 | half b holds exactly the old members whose next bit is b, same peer, one role each |
| `SplitStep.HalfSizes` | simulation/cluster.go:251-263 | each half has at least TSplit members and exactly SMin core members |
| `SplitStep.HalvesApart` | simulation/cluster.go:239-250 | no member is in both halves and none is invented |
| `SplitStep.SplitStores` | simulation/cluster.go:265-280 | every core peer of a half holds that half's data, all other stores are untouched |
| `SplitStep.HalfCell` | simulation/cluster.go:233-280 | each half is again a cluster in good order |
| `SplitStep.SplitKeeps` | simulation/cluster.go:226-294 | a split keeps the whole invariant, and live links stay live |
| `MergeStep.MergedStores` | simulation/merge.go:27-48 | whichever copy peers are picked, every core peer of the merged cluster holds exactly the union and demoted peers hold nothing |
| `MergeStep.NothingOverwritten` | simulation/merge.go:39 | keys under different labels never collide, so the union keeps both sides' entries |
| `MergeStep.MergedCell` | simulation/merge.go:35-48 | the merged cluster is in good order with a full core |
| `MergeStep.MergeKeepsIff` | simulation/cluster.go:103 | a merge keeps the invariant exactly when the partner's label is as long as the leaver's; everything but the prefix code survives in any case |
| `MergeStep.MergeLive` | simulation/merge.go:49 | exactly the merged cluster replaces the two in service |
| `Runs.StepKeeps` | simulation/cluster.go:86-174 | every enabled safe step keeps the invariant; all but merges keep links live; a repair makes them live |
| `Runs.BootInv` | simulation/globals.go:33-44 | the first overlay satisfies the invariant |
| `Runs.RunsKeepInvariant` | simulation/cluster.go:86-294 | the invariant holds after every run of safe steps |
| `Runs.ReachableInv` | simulation/cluster.go:226-294 | in every reachable state the labels form a complete prefix code weighing 2^m and the registry is keyed by label |
| `Runs.MergeKeepsLinksLiveIff` | simulation/cluster.go:103-110 | live links stay live over a merge exactly when no third cluster in service points at either merged cluster |
| `Runs.RunsKeepLinksLive` | simulation/cluster.go:103-110 | after every run in which each merge has a later repair, and which starts with live links or contains a repair, links are live |
| `Routing.StrictlyClosest` | simulation/cluster.go:215-222 | the link at the first differing bit is strictly closer to the target than every other link |
| `Routing.LinkProgress` | simulation/cluster.go:209-224 | following that link lengthens the shared prefix |
| `Routing.HopProgress` | simulation/cluster.go:209-224 | each hop strictly lengthens the prefix shared with the target |
| `Routing.RouteProgresses` | simulation/event.go:45-62 | every cluster on a route is in service, hops are the greedy ones, the last label is a prefix of the target, hops are bounded |
| `Routing.NoRevisit` | simulation/event.go:45-62 | a route never returns to a cluster |
| `Routing.OwnerIfPrefix` | simulation/event.go:48 | at most one cluster in service has a label that prefixes the target |
| `Routing.RoutingReachesOwner` | simulation/event.go:45-62 | from any cluster, routing reaches the unique owner within |owner label| minus shared bits, less than m, hops and without revisiting |
| `Routing.JoinEndsAtOwner` | simulation/event.go:229-243 | a join is forwarded along the route, never answered JOINTEMP, and becomes JOINSPARE at the one cluster whose prefix test accepts the joiner |
| `Routing.NeverJoinTemp` | simulation/event.go:229-243 | with dead links too, no cluster answers a join with JOINTEMP, and it answers JOINSPARE exactly if its label prefixes the joiner |
| `Routing.FlipHop` | simulation/cluster.go:209-224 | with equal label lengths and repaired tables the next hop is the label with one bit flipped |
| `Routing.HopsAreHamming` | simulation/stdPeer.go:301 | with equal label lengths, routing takes exactly the Hamming distance of the timeout multiplier |
| `Durability.NoPromotionIff` | simulation/cluster.go:251-263 | a half promotes nobody exactly when SMin core members are already on its side |
| `Durability.PromotedIff` | simulation/cluster.go:251-263 | a split promotes exactly those spares of a side that have fewer lower spares on that side than its core members fall short of SMin |
| `Durability.SomeHalfPromotes` | simulation/cluster.go:251-263 | a core of SMin cannot fill two halves: one always promotes |
| `Durability.SplitKeepsEntryIff` | simulation/cluster.go:265-280 | a stored entry survives a split exactly when the copy peer on its side was core before |
| `Durability.SplitLosesNothingIff` | simulation/cluster.go:265-280 | a half keeps its data whichever copy peer is picked exactly when SMin core members are on its side or there is nothing to keep |
| `Durability.HalvesRestoreIff` | simulation/datastore.go:70-86 | filtering by label+0 and label+1 and merging is the identity exactly when every key is longer than the label |
| `Durability.MergeKeepsMembersIff` | simulation/merge.go:35-48 | a merge takes over exactly both cores less the leaver, each in one role; nobody else is lost exactly when the partner had no spares |
| `Durability.StepKeepsEntryIff` | simulation/cluster.go:86-294 | for every enabled step: a stored entry is stored after it exactly unless it puts another value or deletes it, takes the last core peer of its cluster, or splits that cluster copying from a promoted spare |
| `Durability.RunsKeepEntryIff` | simulation/cluster.go:86-294 | an entry stays stored throughout a run exactly if every step of the run is of the keeping kind |
| `Durability.PutStores` | simulation/event.go:109-122 | a put at the owner is stored at its whole core |
| `Durability.ReadYourWrites` | simulation/event.go:45-62 | after a put and any run that keeps the entry, a lookup from anywhere is routed to a cluster whose whole core answers the value |
| `Durability.OneStored` | simulation/event.go:45-62 | under one key at most one value is stored |
| `Losses.EverySplitKeepsIff` | simulation/cluster.go:251-280 | before the split: whatever it picks, a stored entry is kept exactly when SMin core members are on its side |
| `Losses.HalfExists` | simulation/cluster.go:251-263 | the promotion of the lowest spares can always be carried out when isSplit says so |
| `Losses.SplitEnabledIff` | simulation/cluster.go:153-174 | a cluster in service can split exactly when its label with one bit more is still shorter than M and TSplit members or more lie on either side |
| `Origins.StepStoresIff` | simulation/cluster.go:86-294 | for every enabled step: what is stored after it is exactly what was stored and the step keeps, and what the step puts at a core |
| `Origins.RunsStoreIff` | simulation/event.go:45-122 | after any run a value is stored exactly if it was stored before and every step keeps it, or some step put it at a core and every later step keeps it: nothing is lost, overwritten or invented otherwise |
| `Undoing.RunsKeepTwin` | simulation/cluster.go:103 | over any run that splits and merges neither of two sibling clusters they stay in service and each other's merge partner |
| `Undoing.MergeUndoesSplit` | simulation/merge.go:15-25 | after a split and any run that splits and merges neither half, a merge by either half picks the other, is safe and restores the label and the first |label| entries of the table; without repairs in between the table is the old one |
| `Undoing.SplitCanBeUndone` | simulation/cluster.go:89-103 | after every split such a run, of leaves alone, and such a merge exist |
| `Relaying.RelayProgress` | simulation/event.go:45-62 | even when the next hop was merged away, the cluster its peers belong to now shares strictly more leading bits with the target |
| `Relaying.RelayedProgresses` | simulation/event.go:45-62 | whichever peers take the message, it never comes back and its hops are bounded |
| `Relaying.LiveIsAnswering` | simulation/event.go:45-62 | with live links and no cluster in service without core, every slot leads to somebody |
| `Relaying.RelayReachesOwner` | simulation/event.go:45-62 | if every linked cluster is unlocked and some of its recorded core still belongs somewhere, a message gets from anywhere to the owner |
| `Relaying.ArrivesByPath` | simulation/event.go:45-62 | arriving means a path to the one owner along which messages are handed on, without revisits and within the bound of undisturbed routing |
| `Relaying.PathArrives` | simulation/event.go:45-62 | conversely, any such path makes a message arrive |
| `Relaying.RunsKeepCoresKeyed` | simulation/merge.go:35-48 | core members carry their cluster's label even out of service, in every reachable state |
| `Blocking.LeaverHands` | simulation/cluster.go:86-105 | after a merge the core of the leaver's cluster hands every message on from the merged cluster, and from nowhere else |
| `Blocking.PartnerBlocks` | simulation/merge.go:12 | whatever is sent to the partner after a merge reaches nobody |
| `Blocking.ArrivesIff` | simulation/merge.go:12 | until the next repair, a message from a third cluster arrives exactly if its route before the merge does not come to the partner from a cluster other than the leaver's |
| `Blocking.MergedArrives` | simulation/merge.go:40-44 | a message that starts at the merged cluster always arrives |
| `Blocking.FirstHopLost` | simulation/merge.go:12 | a message whose next hop is the partner is lost |
| `Blocking.MergeAnsweringIff` | simulation/merge.go:12 | after a safe merge every slot still leads to somebody exactly if no third cluster has the partner in its table |
| `Blocking.RepairUnblocks` | simulation/registry.go:88-106 | after a repair every message arrives again, as long as no core is empty |
| `Blocking.ReachableIsCalm` | simulation/cluster.go:103-110 | the hypotheses of these hold in every reachable state with live links and no empty core, for every safe merge |
| `Counterexamples.DeeperPartnerBreaks` | simulation/cluster.go:103 | an overlay that satisfies the invariant, an enabled merge, and the invariant broken after it |
| `Counterexamples.MergeLeavesDeadLink` | simulation/cluster.go:103-110 | an overlay with live links and a safe merge after which a table names a cluster out of service |
| `Counterexamples.MergeLosesMessage` | simulation/merge.go:12 | the same merge: messages from the third cluster to the other side arrived before and are lost after it |
| `Counterexamples.MergeDropsSpare` | simulation/merge.go:35-48 | an enabled merge after which no cluster in service has a spare that was there before |
| `Counterexamples.SplitCanLose` | simulation/cluster.go:265-280 | an overlay with SMin < TSplit and an enabled split after which an entry stored before is gone, whichever peer is copied from |
| `Counterexamples.SplitForgetsTypes` | simulation/cluster.go:286-292 | the same split: types agreed with roles before, and do not in the cluster that stays |
| `Reachability.ThreeReachable` | simulation/globals.go:33-44 | a legal run from a first overlay to the state of the merge counterexamples |
| `Reachability.OneReachable` | simulation/globals.go:33-44 | a legal run from a first overlay to the state of the split counterexamples |
| `DataStore.MapWrapper.Set` | simulation/datastore.go:21-25 | the key maps to the value, all else is kept |
| `DataStore.MapWrapper.Get` | simulation/datastore.go:27-32 | the value and whether the key is present |
| `DataStore.MapWrapper.Delete` | simulation/datastore.go:34-40 | returns what was there and removes it |
| `DataStore.MapWrapper.Swap` | simulation/datastore.go:42-48 | returns the old value, or the empty string, and stores the new one |
| `DataStore.MapWrapper.Copy` | simulation/datastore.go:60-68 | a new object with the same contents |
| `DataStore.MapWrapper.Filter` | simulation/datastore.go:70-78 | keeps exactly the entries whose key lies under the label |
| `DataStore.MapWrapper.Merge` | simulation/datastore.go:80-86 | becomes the union with another store, which wins |
| `Votes.PeerHandler.Add` | simulation/addHandler.go:20-37 | one vote: the counts and the pending peers after it, and whether it passed the threshold |
| `Votes.Admissions` | simulation/addHandler.go:20-37 | over any interleaving of votes, admissions of an id are the floor of its votes over threshold + 1, the residue at most the threshold |
| `Votes.QuorumsOverlap` | simulation/globals.go:9 | any two sets of core peers large enough to admit somebody share more than (SMin-1)/3 peers |
| `Votes.EnoughVotersIff` | simulation/globals.go:9 | the whole core is large enough to admit somebody for every SMin but 1, 2 and 4; without (SMin-1)/3 silent peers it is exactly when SMin is a multiple of 3, so not with SMin = 8 |
| `Objects.Peer.Put` | simulation/stdPeer.go:334-336 | stores the value and answers whether it counts as there already |
| `Objects.UnchangedIff` | simulation/datastore.go:42-48 | that answer says whether the key held the value exactly when the value is not empty or the key was there |
| `Objects.EmptyPutUnnoticed` | simulation/event.go:113 | the empty string put under a missing key changes the store and counts as there already |
| `Objects.Peer.Get` | simulation/stdPeer.go:338-340 | the stored value, or absence |
| `Objects.Peer.Delete` | simulation/stdPeer.go:342-344 | removes and returns the stored value |
| `Objects.ClusterRegistry.ServiceUnlocked` | simulation/merge.go:12 | no cluster in service is left locked |
| `Objects.ClusterRegistry.Update` | simulation/registry.go:41-46 | the cluster moves from its old label's key to the new one |
| `Objects.ClusterRegistry.Merge` | simulation/registry.go:48-54 | the merged cluster replaces the two |
| `Objects.ClusterRegistry.Register` | simulation/registry.go:77-86 | a key held by another cluster is refused |
| `Objects.ClusterRegistry.ScanNearest` | simulation/registry.go:97-101 | one scan in any order, started from any other cluster, ends at one nothing beats |
| `Objects.ClusterRegistry.FixTable` | simulation/registry.go:91-103 | every slot gets a nearest cluster in service although the minimum is carried from slot to slot |
| `Objects.ClusterRegistry.FixAllRT` | simulation/registry.go:88-106 | from arbitrary table contents, the new state is the repair step of the value model; members and stores are untouched |
| `Bootstrap.NewCluster` | simulation/cluster.go:23-34 | a registered cluster without label bits or members, with SafteyValue as its admission threshold |
| `Bootstrap.AddVc` | simulation/cluster.go:78-84 | the peer becomes core of the cluster and points back at it |
| `Bootstrap.Init` | simulation/globals.go:33-44 | from SMin distinct identifiers, a first overlay that satisfies the invariant with live links, every peer told it is core |
| `Splitting.IsSplit` | simulation/cluster.go:153-174 | true exactly when the label can grow by a bit and still be shorter than M, and TSplit members or more, core and spares counted together, have either value of the bit after the label |
| `Splitting.LowestOf` | simulation/cluster.go:253-258 | the scan finds the strictly lowest identifier in any order |
| `Splitting.Promote` | simulation/cluster.go:251-263 | the promotion loop terminates, never runs out of spares, moves exactly the lowest spares and ends with max(core, SMin) core members |
| `Splitting.MakeHalf` | simulation/cluster.go:233-270 | one half of a split, with any of its core peers as copy peer |
| `Splitting.Replicate` | simulation/cluster.go:276-280 | every core peer of a half gets its own copy of the copy peer's contents, distinct store objects stay distinct |
| `Splitting.CopyStores` | simulation/cluster.go:272-280 | both halves' cores hold their side of their copy peer's store |
| `Splitting.SplitCluster` | simulation/cluster.go:36-57 | the new cluster with its members rehomed and typed, and SafteyValue as its admission threshold |
| `Splitting.SetLabel` | simulation/cluster.go:59-64 | the registry entry moves and the label changes |
| `Splitting.Split` | simulation/cluster.go:226-294 | the objects go through exactly the split step and the invariant holds again; the labels, tables, members and marks of both clusters; if types agreed with roles before, they do in the cluster that stays exactly when SMin core members were on its side, and always in the new one |
| `Splitting.SplitTypesIff` | simulation/cluster.go:286-292 | that equivalence for the value model: promoted spares of the half that stays are not told their role |
| `Splitting.HousedSplit` | simulation/cluster.go:45-54 | after a split every member of a cluster in service points back at it: the members of the new cluster moved, nobody else |
| `Merging.MergeSide` | simulation/merge.go:35-48 | one pass: members become core while there is room, the others emptied spares |
| `Merging.MergePasses` | simulation/merge.go:28-48 | both passes: all of the first core and one of the second stay core, stores end up combined, and every member is told its role |
| `Merging.NewMerged` | simulation/merge.go:9-25 | the merged cluster before it has members: the label a bit shorter, the table entries that remain, SafteyValue as its threshold; the partner is marked and locked |
| `Merging.Merge` | simulation/merge.go:8-50 | registry, nodes, stores, peers' clusters and roles after a merge |
| `Merging.MergeView` | simulation/merge.go:8-50 | the objects go through exactly the merge of the value model |
| `Membership.LeaveNominating` | simulation/cluster.go:86-111 | the nomination step; the overlay stays valid; the nominee, and nobody else, is told it is core |
| `Membership.LeaveDropping` | simulation/cluster.go:95-98 | the unreplaced leave; the overlay stays valid |
| `Membership.LeaveMerging` | simulation/cluster.go:95-105 | the merge step; the overlay stays valid exactly when the partner is the true sibling; every member of the merged cluster has been told its role |
| `Membership.HousedMerge` | simulation/merge.go:40-44 | members of both cores but the leaver point at the merged cluster, everybody else where they did |
| `Membership.Repair` | simulation/registry.go:88-106 | repairing keeps the overlay valid and makes all links live |
| `Membership.MergeEnabledIff` | simulation/cluster.go:95-103 | a departure can be answered by a merge exactly when another core peer remains, there is no spare, the label has a bit, and neither the cluster nor the one in its last slot is marked as merging |
| `Membership.ReplaceVC` | simulation/cluster.go:86-111 | a nomination exactly when there is a spare, a merge exactly when the value model has an enabled one, for whatever new cluster, and otherwise a drop; the new state, and that it is valid exactly when the step was safe |
| `Membership.Nominate` | simulation/cluster.go:89-109 | a spare takes the leaver's place with a fresh copy of its store; one node and one store change |
| `Membership.Leave` | simulation/stdPeer.go:287-290 | the peer's cluster replaces it: by nomination exactly when there is a spare, by a merge exactly when one is enabled; the new state, and that it is valid exactly when the step was safe |
| `Membership.CoreMayLeave` | simulation/stdPeer.go:287-290 | in a valid overlay every core peer points at its cluster under its own key |
| `Joining.JoinStep` | simulation/cluster.go:141-144 | the peer becomes a spare of its cluster; the overlay stays valid |
| `Joining.Admit` | simulation/cluster.go:141-148 | admission, and then a split exactly when the label can grow and the members with the newcomer are TSplit or more on either side |
| `Joining.Add` | simulation/cluster.go:119-151 | admission comes on the vote after ((SMin-1)/3+1)*2 others for the identifier and resets its count, no other count changes; without it no step; with it a repair, preceded for a peer under the label by the join and, exactly when either side then has TSplit members or more and the label can grow, a split; the overlay stays valid with live links |
| `Forwarding.ClosestCluster` | simulation/cluster.go:209-224 | the scan over the table answers the next hop of the value model |
| `Forwarding.FireJoin` | simulation/event.go:229-243 | forward, JOINSPARE or JOINTEMP as the value model says |
| `Forwarding.Travel` | simulation/event.go:45-62 | hop by hop, the message takes the route of the value model to the owner |
| `Forwarding.PutAll` | simulation/event.go:109-122 | a put at each core peer rewrites exactly the core's stores; those answer that did not count the value as there |
| `Forwarding.Put` | simulation/event.go:109-122 | from any cluster: travels the route and is stored by the owner's core, all of which answers exactly unless the value is stored already, or is empty and nothing is stored; the overlay stays valid |
| `Forwarding.Delete` | simulation/event.go:169-185 | from any cluster: travels the route and is erased by the owner's core, all of which answers exactly when some value was stored; the overlay stays valid |
| `Forwarding.BelongsIsHome` | simulation/merge.go:40-44 | the cluster a peer is a member of is the one it points at |
| `Forwarding.Lookup` | simulation/event.go:45-62 | from any cluster: answered with v exactly when v is stored under the key, as missing exactly when nothing is and the owner has a core, and by nobody exactly when it has none |
| `Forwarding.LookupFindsPut` | simulation/event.go:45-62 | after a put that reached a core and any run that keeps the entry, a lookup is answered with the value put |
| `Forwarding.LookupFindsWritten` | simulation/event.go:45-62 | after any run from a first overlay, a lookup finds a value exactly if some step put it at a core and every later step kept it |
| `Handlers.StateFromHistory` | simulation/eventhandler.go:78-140 | the state after any interleaving is what its history says |
| `Handlers.EmitsIff` | simulation/eventhandler.go:109-140 | at most one event, sent exactly when a message found n before it, without kill or timeout, and the fire goroutine then ran before any kill; never after the timeout won |
| `Handlers.ReleasedOnce` | simulation/eventhandler.go:89-104 | the wait group is released by act or by the timeout, never by both, never below zero, and always once nothing is left to run |
| `Handlers.CleansUpIff` | simulation/eventhandler.go:89-126 | a handler that crossed the threshold or timed out has cleaned up or has a clean-up goroutine still to run, in all exactly one; nothing else but a kill cleans up |
| `Handlers.DoKeeps` | simulation/eventregistry.go:23-60 | a handler is registered under its hash exactly until its clean-up has run |
| `Handlers.CleanUpRemovesOwn` | simulation/eventregistry.go:31-35 | a clean-up removes its own handler, once, and never another |
| `Handlers.UnregisteredIff` | simulation/eventregistry.go:31-35 | with no clean-up left to run a handler is unregistered exactly if it crossed the threshold, timed out or was killed |
| `Handlers.FreeIff` | simulation/eventregistry.go:23-38 | with no clean-up left to run, a hash is free, so that Register makes a new handler, exactly when every handler made for it crossed the threshold, timed out or was killed |
| `Handlers.SeenAfter` | simulation/eventregistry.go:50-60 | handlers of a hash together received exactly the messages the registry accepted for it |
| `Handlers.EventsBounded` | simulation/eventregistry.go:23-60 | over any run: one handler per hash at a time, and events for a hash at most floor(messages accepted / (n+1)) |
| `FanIn.FanInHandler.Trigger` | simulation/eventhandler.go:109-126 | follows the history by one message; the fields are what the history says: done, the clean-up and the fire goroutine exactly from the message that crosses the threshold on |
| `FanIn.FanInHandler.Act` | simulation/eventhandler.go:128-140 | follows the history by one run of the goroutine, and sends the event exactly when the history does |
| `FanIn.FanInHandler.Timeout` | simulation/eventhandler.go:89-104 | follows the history by the timeout |
| `FanIn.FanInHandler.Kill` | simulation/eventhandler.go:46-59 | fills the semaphore and cleans up |
| `FanIn.FanInHandler.CleanUp` | simulation/eventhandler.go:67-71 | unregisters its hash, the first time only |
| `FanIn.MsgCount.Register` | simulation/eventregistry.go:23-38 | a new handler, with the event and queue given, exactly when every handler ever made for the hash has cleaned up or been killed |
| `FanIn.MsgCount.Check` | simulation/eventregistry.go:50-60 | the message goes to the registered handler, if any |
| `FanIn.MsgCount.CleanUp` | simulation/eventregistry.go:31-35 | registry and handler follow the clean-up step of the value model |
| `FanIn.MsgCount.Kill` | simulation/eventhandler.go:46-59 | registry and handler follow the kill step of the value model |
| `PeercubeHandlers.FanEmitsIff` | peercube/eventhandler.go:75-113 | any interleaving: the wait group is never released below zero, at most one event, sent exactly when the goroutine ran before any kill, after at least n messages |
| `PeercubeHandlers.CanFireIff` | peercube/eventhandler.go:86-105 | the goroutine can run exactly when it has not run and n messages and rounds of a kill have come; without a kill n messages suffice, and running sends the event |
| `PeercubeHandlers.KilledAtBirth` | peercube/eventregistry.go:26-29 | a handler refused by the registry never sends anything |
| `PeercubeHandlers.FanInHandler.Trigger` | peercube/eventhandler.go:96-105 | one message: a token if there is room |
| `PeercubeHandlers.FanInHandler.Kill` | peercube/eventhandler.go:39-50 | fills the semaphore, releasing the wait group once per token |
| `PeercubeHandlers.FanInHandler.Fire` | peercube/eventhandler.go:88-113 | sends the event unless killed |
| `PeercubeHandlers.SentOnce` | peercube/eventhandler.go:194-221 | at most one event, that of whatever took the token first, however many hashes cross later |
| `PeercubeHandlers.SendsCrossingIff` | peercube/eventhandler.go:194-221 | the event is that of the first message to bring a hash to n acknowledgements exactly when no kill came before it |
| `PeercubeHandlers.SendsCrossing` | peercube/eventhandler.go:194-221 | with no kill, as in the program: the goroutine can run exactly once some hash has n acknowledgements, and sends the event of the first message to get there |
| `PeercubeHandlers.KillSendsNil` | peercube/eventhandler.go:39-50 | a kill before any message makes the handler send a nil event |
| `PeercubeHandlers.JoinAckHandler.Trigger` | peercube/eventhandler.go:194-213 | counts the acknowledgement; a message of another type is an error and changes nothing |
| `PeercubeHandlers.JoinAckHandler.Fire` | peercube/eventhandler.go:215-221 | sends the held event whether or not killed |
| `Quorum.Equals` | peercube/resp.go:9-12 | true exactly for equal responses |
| `Quorum.RespQuorum.Check` | peercube/verify.go:23-44 | the tally refines the multiset of calls; true exactly when this response's multiplicity has reached the threshold and is at least two; then, and only then, every receiver waiting is handed the response, one each |
| `Quorum.RespQuorum.Wait` | peercube/verify.go:46-48 | one more receiver is blocked, to be served with the response at the place it is told |
| `Quorum.RespQuorum.Result` | peercube/verify.go:46-48 | what a served receiver gets is the response at its place, whose quorum was reached |
| `Quorum.OnlyRightAccepted` | peercube/verify.go:23-44 | with a threshold above the number of faulty senders only the right response is accepted |
| `Quorum.QuorumReachedIff` | peercube/verify.go:23-44 | with a threshold above the number of faulty senders some call is accepted exactly when enough right responses came in, and only the right one is |
| `Quorum.OnlyRightHanded` | peercube/verify.go:31-38 | with such a threshold whoever waits is handed the right response or nothing |
| `Quorum.FrequenciesSum` | peercube/verify.go:25-42 | the frequencies sum to the number of calls |

## Left out

- Concurrency inside the overlay: locks (except the one a merge leaves taken), goroutines, queues, message loss, latency and timeouts are not modelled; an overlay operation is one atomic step, and a put or delete reaches every core peer of the owner in one step.
- Membership.ReplaceVC: with SMin = 1 a due merge is excluded by its precondition, because the leaver was the only peer to copy from and the source dereferences a nil peer there; the step model and all other operations allow SMin = 1.
- Joining.Add: a vote that admits a peer under the label assumes that the peer is new to the overlay, with an empty store of its own and an M-bit identifier, and not core of the cluster; the source checks only the spares (simulation/cluster.go:122). Excluded is thus a peer that left, or was dropped by a merge, and joins again, which the source admits with its old store. Votes that admit nobody assume nothing.
- Votes.QuorumsOverlap: speaks of distinct voters; the counter counts votes and does not look at who cast them (simulation/addHandler.go:20-37), and neither does `Joining.Add`.
- Membership.Leave: assumes that the leaver is core of its cluster, as the source does; removal from the peer registry is not modelled.
- Splitting.Split: the types of peers are stated by the methods that change them; the value model has no types.
- FanIn.MsgCount.Register: the clean-up closure is set when the handler is made, in the same critical section; a timeout between the two is not modelled. The threshold n is one constant per registry, as in serve.
- Forwarding.Put: which core peers answer is stated; the tables of waiting requests and the RETURN messages themselves are not modelled.
- Forwarding.Delete: likewise.
- Blocking.ArrivesIff: one merge after a state with live links and no empty core (a core runs empty only after leaves that nobody replaced); one copy of a message counts as arriving, the thresholds of the fan-in handlers on copies are not part of it.
- Bootstrap.Init: the random identifiers are a parameter, required to be distinct.
- Ids.IdFromString: strings are ASCII; Go's iteration by byte offset over longer runes is not modelled.
- Quorum.RespQuorum.Check: the channel is a count of blocked receivers and the list of what was handed over; receivers that arrive while the loop sends are not modelled.
- PeercubeHandlers.FanInHandler.Kill: as a method it runs uninterrupted; the lemmas over histories interleave its rounds with other moves.
- The registry and counts are unbounded; 64-bit wrap-around of frequencies and counters is not modelled.
- The `dead` and `quit` flags and message queues of a peer.
- lte, IDFromUint64, rshift, lshift, the simulation FanInOutHandler and the flush-wait loops: unused, or never fire or never end.
- serve's dispatch of message kinds to handlers, including a first JOIN being fired at once, and Join's wait on `ready`.
- The peer registry, SizeAll, cluster sizes and the printing functions: easy members only.
- peercube/node.go's own split and its connect and disconnect messages, and RespQuorumRegistry: the split tests a different bit than it partitions on, and the registry's found test is inverted.
- The earlier drafts in node, nodeold and nodeimp, the measurement loop in sim and the documents in latex.
