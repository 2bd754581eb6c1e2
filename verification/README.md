# Hash-slot engine of the Redis cluster operator: model and proofs

The operator keeps a Redis Cluster at the size its custom resource asks for. What it must never get wrong is
who owns each of the 16384 hash slots and where the keys of a slot are. This project models that engine: the
initial allocation, the scale-up rebalancer, the scale-down planner and executor, the key migration protocol,
the text form of slots, the placement of masters and slaves, the HA status check, and `syncCluster` around them.
It proves what every run of them keeps. `dafny verify dfyconfig.toml` checks everything.

The main results, from the top:

* **Every sequence of runs** (`ClusterRuns.Runs`): from an empty cluster, for any finite sequence of create,
  scale-up, scale-slave and scale-down runs with any sizes from 1 to the number of slots, with clients writing and
  slaves being promoted in between and node records re-read from Redis before every run: where Redis commands do not
  fail, every run ends exactly as the pods, zones and slaves there are call for, the number of masters is the one the
  results call for, and from the first success on every slot has exactly one owner, the owners are one node in each of
  the first statefulsets, every key is with its owner, and every write is accepted. Every run that succeeds with too
  many statefulsets has deleted exactly the highest ones, and no other run deletes any of those wanted. Even after
  failures no accepted key is gone, and without failures no node was told of another owner of a slot while it had keys
  of it.
* **Scale-down** (`MigrationExec.DispatchSlotToNewMasters`): for every map order, every batch order and every early
  return, the slot lists stay the shares of one owner map, and every slot that was in some list is in the list of its
  old owner or of a new master; after success they partition the slots within one slot of the quota and removed masters
  are empty, so `scalingDown` never meets a node with slots. The commands of a batch and the requests of `scalingDown`
  are stated exactly, one by one.
* **Scale-up** (`Rebalance.RebalancedCluster`): the remainder is handed out round-robin, the two-pointer loop ends
  with all balances zero, and every master owns the rounded-down average plus its share of the remainder.
* **Crash points** (`CrashPoints.NeverOrphaned`): at no prefix of the commands of a whole allocation, rebalancing,
  dispatch or reconcile run is a slot that had an owner without one, provided that each SETSLOT NODE by which a node is
  told that it owns the slot itself takes effect there. That is what telling the target first is for.

Redis is one object: which node claims which slot, which node stores which key, the commands sent, and whether one
has failed. Where commands may fail at all, every one may, and a failed one may still have taken effect. Node records are objects shared
between the lists of a run, as in the source. Map iteration is a choice of any remaining key. `float64` arithmetic
is exact rational arithmetic, and `sort.Sort` is some sorted permutation.

## Model

| member | source | states |
|---|---|---|
| `SlotLists.Contains` | utils/redisutil/slot.go:198-206 | true exactly for members of the list |
| `SlotLists.RemoveSlots` | utils/redisutil/slot.go:159-173 | splicing while walking gives the order-keeping filter, with duplicates too (the comment in the source doubts that) |
| `SlotLists.RemoveSlot` | utils/redisutil/slot.go:175-186 | removes the first occurrence only; on a duplicate-free list that is the filter |
| `SlotLists.AddSlots` | utils/redisutil/slot.go:188-196 | duplicate-free union that keeps the old list as prefix; plain concatenation for disjoint lists |
| `SlotLists.BuildSlotSlice` | utils/redisutil/slot.go:208-215 | all slots of the range in order, empty for a reversed one |
| `SlotLists.SlotRangesFromSlots` | utils/redisutil/slot.go:132-157 | the ranges cover exactly the input; they are sorted and non-adjacent if and only if the largest uint64 occurs at most once (there max+1 wraps) |
| `SlotLists.CanonicalUnique` | utils/redisutil/slot.go:132-157 | sorted non-adjacent ranges are determined by the set they cover |
| `SlotLists.ExpandCanonical` | utils/redisutil/slot.go:132-157 | such ranges, expanded in order, are the strictly ascending list of what they cover |
| `SlotLists.AscendingUnique` | utils/redisutil/slot.go:132-157 | a strictly ascending list is determined by its elements |
| `Decimal.ParsePrinted` | utils/redisutil/slot.go:25-44 | parsing a printed slot gives it back, and an error exactly when it is out of range |
| `Decimal.ValuePositional` | utils/redisutil/slot.go:25-44 | a digit string is read in base 10: Value(a + b) is Value(a) times ten to the length of b, plus Value(b) |
| `Decimal.PrintCanonical` | utils/redisutil/slot.go:25-28 | a printed number has no superfluous leading zero |
| `SlotCodec.SlotRoundTrip` | utils/redisutil/slot.go:84-130 | a printed slot decodes to the one-slot range |
| `SlotCodec.RangeRoundTrip` | utils/redisutil/slot.go:52-55 | a printed range decodes to the same bounds, reversed ones included |
| `SlotCodec.DecodeMarked` | utils/redisutil/slot.go:84-130 | what the decoder makes of a marked entry, bare or bracketed, for every id |
| `SlotCodec.BareRoundTrip` | utils/redisutil/slot.go:62-82 | importing and migrating entries round-trip if and only if the id has no "-" and no trailing "]" |
| `SlotCodec.BracketedRoundTrip` | utils/redisutil/slot.go:84-130 | bracketed entries round-trip if and only if the id has no "-" |
| `SlotCodec.RangesRoundTrip` | utils/redisutil/slot.go:84-157 | list to canonical ranges to text and back gives the sorted duplicate-free list |
| `Nodes.GetNodeByID` | utils/redisutil/node.go:283-293 | the first node with that id, or none exactly if there is none |
| `Nodes.SlotHoldersMember` | utils/redisutil/node.go:264-270 | FilterByFunc(IsMasterWithSlot) keeps exactly the masters with slots |
| `Nodes.FilterMastersWithSlot` | utils/redisutil/node.go:305-314 | the loop computes that filter, in order |
| `Nodes.SortByFunc` | utils/redisutil/node.go:316-322 | a permutation ascending in the key |
| `RedisModel.Redis.SetSlots` | utils/redisutil/admin.go:362-396 | one SETSLOT per slot in order; on success all took effect, on failure any of them may have |
| `RedisModel.ReplaySetSlots` | utils/redisutil/admin.go:362-396 | a pipeline that took effect adds or removes exactly its slots; IMPORTING and MIGRATING change no owner |
| `RedisModel.Redis.AddSlots` | utils/redisutil/admin.go:342-360 | claims everything from the first to the last slot; nothing for an empty list |
| `KeyMigration.MigrateKeysInSlot` | utils/redisutil/admin.go:613-673 | no key of the pair is lost in any run; on success the source is empty and the count is the number of keys it had |
| `KeyMigration.MigrateKeys` | utils/redisutil/admin.go:552-611 | no key is lost in any run; without a failure the call succeeds, all keys of the slots are at the target, nothing else moved, and the count is the number of keys the slots had |
| `KeyMigration.MoveSlot` | controllers/clustering/rebalance.go:127-145 | every run: keys conserved, SETSLOT NODE sent only while the source has no key of the slot, commands a prefix of the four (all four on success) and in safe order, claims the replay of the commands; on success the source's list loses the slot |
| `Ownership.ReassignOneOwner` | controllers/clustering/rebalance.go:127-145 | handing over slots one owns keeps exactly one owner per slot |
| `Ownership.DrainKeysAtOwner` | controllers/clustering/rebalance.go:127-145 | keys that travel with their slots stay with the owner |
| `AllocSlots.CutStep` | controllers/clustering/rebalance.go:147-171 | every share has floor(H/n) or ceil(H/n) slots, at least one |
| `AllocSlots.SharesPartition` | controllers/clustering/rebalance.go:147-171 | the shares cover [0,H) and nothing else, each slot once |
| `AllocSlots.CommandDenotesList` | utils/redisutil/admin.go:351-353 | first and last slot of a consecutive list denote exactly that list |
| `AllocSlots.CommandExact` | utils/redisutil/admin.go:351-353 | for any ascending list the command denotes exactly the list if and only if the list has no gap |
| `AllocSlots.GapCommandNamesMore` | utils/redisutil/admin.go:351-353 | for the lost slots 0 and 2 the range that is sent contains slot 1 |
| `AllocSlots.LastOf` | controllers/clustering/rebalance.go:154-161 | the rounded end of a master's range is one before the next master's start |
| `AllocSlots.AllocSlots` | controllers/clustering/rebalance.go:147-171 | for 1 <= n <= H each master claims exactly its share of the partition; for n > H some list leaves the slot range; the commands are in safe order |
| `Reshard.QuotasTotal` | controllers/clustering/rebalance.go:103-123 | never more than numSlots; exactly numSlots for up to two sources; at most k-2 short for k sources |
| `Reshard.ComputeReshardTable` | controllers/clustering/rebalance.go:93-125 | the sources ascend in the length of their lists; takes a prefix of each list, within its length and the proportional quota; the three bounds on the size of the table |
| `Rebalance.HandOutRemainder` | controllers/clustering/rebalance.go:25-33 | hands out every unit of the remainder, one per pass to each under-full node in order |
| `Rebalance.RoundRobinFair` | controllers/clustering/rebalance.go:25-33 | two under-full nodes differ by at most one unit, the earlier one is not behind |
| `Rebalance.StuckWithoutUnderFull` | controllers/clustering/rebalance.go:25-33 | without an under-full node no number of passes hands out a unit, so the loop would not end on a remainder |
| `Rebalance.EvensOutIff` | controllers/clustering/rebalance.go:45-83 | from sorted balances the two-pointer loop ever reaches zero everywhere if and only if they add up to zero, that is if and only if the lists do not fall short of the averages |
| `Rebalance.ShortListsTakeFromUnderFull` | controllers/clustering/rebalance.go:45-83 | an input that falls short: two masters with 0 and 1 of 4 slots, where the loop takes a slot from an under-full master and then wants one from an empty one |
| `Rebalance.WindowEnds` | controllers/clustering/rebalance.go:48-83 | destination below zero and source above, or everything is zero |
| `Rebalance.WindowShrinks` | controllers/clustering/rebalance.go:74-82 | one round keeps the window sorted by sign with sum zero, overshoots nowhere and closes one end |
| `Rebalance.MoveBetween` | controllers/clustering/rebalance.go:59-71 | moves the first numSlots slots of the source, with their keys, and no others |
| `Rebalance.TwoPointers` | controllers/clustering/rebalance.go:45-83 | ends with all balances zero and every node at its goal |
| `Rebalance.RebalancedCluster` | controllers/clustering/rebalance.go:12-86 | whole scale-up: keys kept and commands in safe order in any run; without an error all balances zero; without failure keys moved before ownership, one owner per slot, keys with owners, each master at floor(H/n) plus its round-robin share |
| `MigrationPlan.RetrieveLostSlots` | controllers/clustering/migration.go:266-293 | strictly ascending and exactly the slots below nbSlots that no list has, duplicates included |
| `MigrationPlan.RetrieveSlotToMigrateFrom` | controllers/clustering/migration.go:224-238 | exactly the part of each list behind the quota |
| `MigrationPlan.RetrieveSlotToMigrateFromRemovedNodes` | controllers/clustering/migration.go:240-264 | exactly the lists of the masters that go |
| `MigrationPlan.PoolDisjoint` | controllers/clustering/migration.go:185-194 | no slot is offered twice |
| `MigrationPlan.PoolMembers` | controllers/clustering/migration.go:185-194 | a slot is offered if and only if nobody keeps it |
| `SlotPacking.BuildSlotByNodeFromAvailableSlots` | controllers/clustering/migration.go:295-326 | for every map order the pool's lists are handed out one after the other (`Walked`), so each offered slot is planned once, in consecutive segments per master |
| `SlotPacking.EnoughRoom` | controllers/clustering/migration.go:309-321 | with room for all, the over-filling branch is not reached and the last master is not topped up |
| `MigrationPlan.RoomSuffices` | controllers/clustering/migration.go:184-195 | the slots on offer fit into the room below the rounded-up quota |
| `MigrationPlan.FinalPartition` | controllers/clustering/migration.go:179-222 | kept and planned slots together partition [0,nbSlots) |
| `MigrationPlan.FinalBalanced` | controllers/clustering/migration.go:295-326 | at most ceil(nbSlots/n)+1 slots per master, at most ceil(nbSlots/n) for the first and the last |
| `MigrationPlan.BuildSlotsByNode` | controllers/clustering/migration.go:177-222 | the whole plan: partition, balance, no over-filling, lost slots planned in ascending order, nothing without new masters |
| `MigrationPlan.SegsAscend` | controllers/clustering/migration.go:190-195 | in every order of the pool, the lost slots of each segment are in ascending order |
| `MigrationBatches.FindSource` | controllers/clustering/migration.go:136-172 | finds the owner of a planned slot, tells when it is the master itself, and none exactly for lost slots |
| `MigrationBatches.FeedMigInfo` | controllers/clustering/migration.go:132-175 | the batches are exactly the difference between old and planned ownership, the true old owner or nil as source, nothing for slots that stay; lost slots ascend in their batches; the counter is their total size |
| `CrashPoints.OrphanExactly` | controllers/clustering/migration.go:93-102 | at a crash point a slot has no owner if and only if the source accepted the new owner and the target did not |
| `CrashPoints.CrashSafe` | controllers/clustering/migration.go:93-102 | with the target told first, and the command taking effect there, no prefix of the commands leaves a slot without owner |
| `CrashPoints.SourceFirstIsUnsafe` | controllers/clustering/migration.go:93-94 | in the other order a slot can be without owner although every command takes effect |
| `KeyMigration.MoveOrder` | controllers/clustering/rebalance.go:127-145 | however far moveSlot gets, its commands are in the safe order |
| `CrashPoints.InOrderIsSafe` | controllers/clustering/migration.go:93-102 | naming one target and telling it first is the order the crash results ask for, whatever the source |
| `CrashPoints.NeverOrphaned` | controllers/clustering/migration.go:93-102 | for any number of hand-overs one after the other, of the same or different slots, no prefix of the commands leaves a slot that had an owner without one, provided self-announcements take effect |
| `CrashPoints.NoCrashOrphans` | controllers/clustering/migration.go:93-102 | the same for all commands sent between two moments of a run; every method of the model that sends commands guarantees its premise |
| `CrashPoints.StillOrderly` | controllers/clustering/migration.go:85-102 | a whole trace keeps the safe order, and unless a command failed no node is told of another owner of a slot while it has keys of it |
| `MigrationExec.OpenSlots` | controllers/clustering/migration.go:72-83 | exactly IMPORTING for each slot on the target, then MIGRATING for each on the source, naming each other, or on an error a prefix of this; no owner changes |
| `MigrationExec.HandOverSlots` | controllers/clustering/migration.go:93-102 | exactly SETSLOT NODE for each slot on the target, then on the source; without failure exactly these slots change hands |
| `MigrationExec.TellOthers` | controllers/clustering/migration.go:107-124 | exactly the masters with slots other than source and target are told about every slot, in order; bystanders only ever lose these slots |
| `MigrationExec.OnlySource` | controllers/clustering/migration.go:107-124 | once a batch has moved, no node but source and target has keys of its slots, so telling the others takes nothing from anyone |
| `MigrationExec.Transfer` | controllers/clustering/migration.go:85-102 | keys first, then ownership: without failure the source has no key of the slots when it is told of the new owner |
| `MigrationExec.MoveBatch` | controllers/clustering/migration.go:71-125 | a batch sends exactly its commands: opened, handed over in safe order after the keys, others told; on an error only a prefix of the opening; claims are the replay of the commands; keys conserved; without failure whoever is told of another owner has no key of the slot; the source's list shrinks by the batch |
| `MigrationExec.RunBatch` | controllers/clustering/migration.go:62-128 | a finished batch moves its slots in the owner map, a failed one changes no list; its commands were sent one after the other, a single ADDSLOTSRANGE from first to last for lost slots |
| `MigrationExec.BatchDone` | controllers/clustering/migration.go:62-128 | whatever the order, a slot has changed owner if and only if its batch has been run |
| `MigrationExec.StillOwned` | controllers/clustering/migration.go:62-130 | at every point a slot that had an owner has its old owner or the planned one |
| `MigrationExec.RunBatches` | controllers/clustering/migration.go:62-130 | all batches in any order realise exactly the planned ownership, and the commands of each were sent; at an early return every slot has its old or its planned owner |
| `MigrationExec.DispatchSlotToNewMasters` | controllers/clustering/migration.go:56-130 | at every return: disjoint lists, every slot that was listed is in the list of its old owner or of a new master, no key lost, commands in safe order; on success partition, balance, empty removed masters, and the commands of exactly the batches between old and new ownership; without failures agreement with Redis, and keys moved before ownership |
| `StatefulSets.StsNameInjective` | resources/statefulsets/statefulset.go:228-230 | different numbers give different names, for any cluster name |
| `ScalingDown.ForgetNodes` | controllers/distributedrediscluster/sync_handler.go:302-310 | the requests are exactly: each node seen empty and forgotten, in order, up to the first one with slots or with an error |
| `ScalingDown.ClearedBefore` | controllers/distributedrediscluster/sync_handler.go:302-314 | at every deletion in a log all nodes of a statefulset of that name had been seen empty and forgotten |
| `ScalingDown.RemoveStatefulSet` | controllers/distributedrediscluster/sync_handler.go:296-314 | exactly the requests of a removal: looked up, cleared, deleted; or those up to where it stops, at a node with slots only if all before it were empty and forgotten |
| `ScalingDown.RunLogOrder` | controllers/distributedrediscluster/sync_handler.go:296-314 | the requests of a run delete the highest statefulsets without a gap, from the top, each after its nodes were cleared |
| `ScalingDown.RunLogConcerns` | controllers/distributedrediscluster/sync_handler.go:287-314 | no request of a run names a node or statefulset that stays; apart from closing connections, none names one below the statefulset where the run stops |
| `ScalingDown.FitsShows` | controllers/distributedrediscluster/sync_handler.go:302-310 | statefulsets that went had no slots, nor had the nodes cleared before the stop; the "not empty" exit is taken only if some node that should go has slots |
| `ScalingDown.ScaleDown` | controllers/distributedrediscluster/sync_handler.go:282-342 | the requests are exactly: the connections of all nodes that should go, then the removals from the top, until all are gone or one stops, at a node with slots exactly if it is the first; so the deletions are the highest statefulsets without a gap, all of them exactly on success, and nothing concerns what stays |
| `Grouping.MembersOfMember` | controllers/clustering/placement_v2.go:43-66 | a group has exactly the known nodes with its key |
| `PlacementV2.Ctx.SortRedisNodeByStatefulSet` | controllers/clustering/placement_v2.go:43-66 | groups the known nodes by statefulset and collects the slot holders |
| `PlacementV2.Ctx.PlaceMastersHA` | controllers/clustering/placement_v2.go:100-116 | the first node of the statefulset in the zone its number calls for, or none exactly if there is none |
| `PlacementV2.Ctx.PlaceMasters` | controllers/clustering/placement_v2.go:118-136 | the first node of the statefulset whose VM hosts no master; best effort and the first node exactly if there is none |
| `PlacementV2.Ctx.DispatchMasters` | controllers/clustering/placement_v2.go:68-98 | succeeds if and only if every expected statefulset has nodes, at most one slot holder and, by zone, a candidate; slot holders kept; each newcomer is the first node in its zone, or the first on a VM without slot holder or earlier master, or the first of all if there is none; best effort exactly if that last case occurs, which is exactly if some newcomer is not alone on its VM |
| `PlacementV2.MastersDistinct` | controllers/clustering/placement_v2.go:68-98 | masters of different statefulsets are different nodes of their own groups |
| `PlacementV2.Ctx.GetNewMasters` | controllers/clustering/placement_v2.go:167-173 | each chosen master once, in any order |
| `Zones.LessMeans` | controllers/clustering/placement_v2.go:107 | the order of zones: at the first position in which two names differ the smaller character decides, and a proper prefix comes first |
| `Zones.OrderedUnique` | controllers/clustering/placement_v2.go:103-107 | two independent sorts of the zone map agree |
| `Zones.SortZones` | controllers/clustering/placement_v2.go:103-107 | the zones in strictly ascending order, from any map order |
| `HaStatus.IndexOfName` | controllers/distributedrediscluster/status.go:174-192 | getSTSindex inverts the naming for any cluster name, up to the int range |
| `HaStatus.IndexNotNegative` | controllers/distributedrediscluster/status.go:174-192 | a parsed number is never negative, so the zone offset is valid |
| `HaStatus.RoleMastersMember` | controllers/distributedrediscluster/status.go:137-139 | the judged nodes are exactly those that report the role master |
| `HaStatus.RoleMastersOrder` | controllers/distributedrediscluster/status.go:137-139 | they keep their order |
| `HaStatus.MisplacedMember` | controllers/distributedrediscluster/status.go:146-161 | the nodes handed back are exactly the judged ones outside their zones |
| `HaStatus.BuildHaStatus` | controllers/distributedrediscluster/status.go:125-172 | the counting loop decides the verdict said directly, and hands back exactly the misplaced masters |
| `HaStatus.PlacementIsHealthy` | controllers/distributedrediscluster/status.go:146-170 | after a placement by zone the verdict is Healthy if and only if the kept masters are in their zones |
| `HaStatus.DispatchedIsHealthy` | controllers/distributedrediscluster/status.go:125-172 | if the nodes that report the role master are those placed by zone in a cluster without slot holders, BuildHaStatus's verdict is Healthy, for any cluster name and any order of the nodes |
| `HaStatus.ZoneShare` | controllers/clustering/placement_v2.go:100-116 | zone k gets floor(n/z) masters, the first n mod z zones one more |
| `PlacementV1.SortRedisNodeByVM` | controllers/clustering/placement.go:65-85 | groups the known nodes by VM, "unknown" for an empty name |
| `PlacementV1.Pass` | controllers/clustering/placement.go:29-47 | one pass in any order: at most one per VM, in the first pass one from every free VM; nothing left if it makes no progress at best effort |
| `PlacementV1.PlaceMasters` | controllers/clustering/placement.go:14-63 | exactly nbMaster nodes, the first current masters first, or an error if and only if current masters and known candidates are too few; additions on different VMs without current master unless best effort, which is reported if and only if there are too few such VMs |
| `SlavePlacement.AttachOld` | controllers/clustering/placement.go:110-128 | an old slave stays with its master exactly while that has room |
| `SlavePlacement.AttachApart` | controllers/clustering/placement.go:140-171 | a master with room whose own VM and slaves' VMs differ from the slave's, or none exactly if there is none |
| `SlavePlacement.AttachFree` | controllers/clustering/placement.go:184-194 | afterwards a new slave is unattached only if every master is full |
| `SlavePlacement.PlaceSlaves` | controllers/clustering/placement.go:87-198 | nobody attached twice, nobody above the replication factor, unattached only if all are full, old slaves kept, spread over VMs unless best effort, which is reported only if some new slave cannot be attached apart |
| `SlavePlacement.SpreadMeans` | controllers/clustering/placement.go:146-170 | with known nodes and named VMs: a new slave's VM differs from its master's and from those of the slaves before it |
| `ClusterView.NewRedisCluster` | controllers/distributedrediscluster/helper.go:58-80 | a table of the records; an error exactly if some node has no zone |
| `ClusterView.NewMasters` | controllers/distributedrediscluster/sync_handler.go:225-231 | chosen masters against the slot holders: holders stay, masters of further statefulsets have no slots |
| `SyncCluster.Create` | controllers/distributedrediscluster/sync_handler.go:232-244 | from no owner to one owner per slot, one per statefulset, each with floor or ceiling of the average; an error exactly if a command failed |
| `SyncCluster.ScaleUp` | controllers/distributedrediscluster/sync_handler.go:245-257 | keeps one owner per slot and gives every master at least floor(H/n) slots; without an error all balances are zero |
| `SyncCluster.MoveSlotsAway` | controllers/distributedrediscluster/sync_handler.go:267-274 | keeps one owner per slot, nobody has more than ceil(H/n)+1, the remaining masters keep some of theirs, all others end empty; keys before ownership |
| `SyncCluster.RemovedAreEmpty` | controllers/distributedrediscluster/sync_handler.go:302-306 | after the dispatch no node of a statefulset that goes has slots, slaves included |
| `SyncCluster.ScaleDownBranch` | controllers/distributedrediscluster/sync_handler.go:267-278 | slots first, then exactly the requests that remove the statefulsets from the top, all of them on success; nothing is asked if the slots did not move; the "not empty" exit is never taken |
| `SyncCluster.Sync` | controllers/distributedrediscluster/sync_handler.go:216-280 | the exact case of each kind of failure, otherwise success unless a command or the removal of statefulsets failed; exactly what is asked of Kubernetes: all statefulsets from the top down to the wanted size on success with too many, a part when stopped, nothing otherwise; from a settled cluster to a settled one of the size that goes with the result, with the slots shared out; no key lost and commands in safe order in any run, keys before ownership without failure |
| `SyncCluster.ReadyIsPlaceable` | controllers/clustering/placement_v2.go:68-98 | masters can be dispatched if and only if every expected statefulset has nodes, at most one slot holder and, by zone, a candidate, said of the node records alone |
| `ClusterRuns.ReadyFromPods` | controllers/distributedrediscluster/sync_handler.go:225-228 | in a settled cluster that holds if and only if every expected statefulset has a pod and, by zone, each one beyond the current size a pod in its zone |
| `ClusterRuns.Failover` | controllers/distributedrediscluster/sync_handler.go:216-231 | a slave promoted within its statefulset between runs leaves a settled cluster and all keys |
| `ClusterRuns.Run` | controllers/distributedrediscluster/sync_handler.go:216-280 | a run over freshly read records ends exactly as pods, zones, slaves and current size call for, asks of Kubernetes exactly what goes with that, and leaves what the next run needs |
| `ClusterRuns.SizeFacts` | controllers/distributedrediscluster/sync_handler.go:232-278 | after a success there are masters for ever; a success gives the wanted number unless slaves came first |
| `ClusterRuns.Runs` | controllers/distributedrediscluster/sync_handler.go:216-280 | any finite sequence of runs from nothing: all steps are run unless a command fails or an owner's pod is missing, each ends as it must and deletes exactly the statefulsets that go with its result, the cluster stays settled with the number of masters the results call for, one owner per slot from the first success on, every write from then on accepted, no accepted key ever gone, and all commands of all runs in safe order |

## Left out

- Kubernetes controllers, resource builders, CRDs, webhooks, metrics, backups: plumbing over libraries that are not part of this model.
- Connections, response validation, passwords, ACLs, configuration, MEET and failover commands; only the effects of SETSLOT, ADDSLOTSRANGE, GETKEYSINSLOT and MIGRATE are modelled.
- Rounding errors of `float64`; arithmetic is exact.
- Deletion of services, disruption budgets and volume claims, waiting for pods, and status updates in `scalingDown`, whose errors are only logged; closing connections, looking statefulsets up, forgetting nodes and asking for statefulsets to be deleted are modelled.
- Where clients are redirected while a slot is open on the scale-up path: `moveSlot` passes each node its own id for IMPORTING and MIGRATING.
- v2 `PlaceSlaves` and attaching slaves: in `syncCluster` a step that may fail and touches no slots. v2 `PlaceSlaves` dereferences nil for a statefulset without chosen master.
- Logging, the per-node totals that `BuildSlotsByNode` logs, and the in-place sorting that formatting a slot list for a log line causes.
- Sharing of backing arrays between Go slices: lists are values, nodes are shared objects.
- The first loop of v1 `PlaceSlaves` discards its filter result and so has no effect; old and new slaves are required to be disjoint instead.
- v1 `DispatchMasters`, which sorts the selection by id and sets status fields around `PlaceMasters`.
- SlotLists.BuildSlotSlice: does not model the largest uint64 as upper bound, for which the counter of the source wraps round and the loop does not end.
- MigrationPlan.RetrieveLostSlots: does not model slots equal to the largest uint64, for which last+1 wraps round.
- Rebalance.RebalancedCluster: requires that the lists do not fall short of the averages, as lists of all slots never do (`SurplusSum`), because otherwise the loop takes slots from under-full masters or indexes past a list (`ShortListsTakeFromUnderFull`, `EvensOutIff`); and that the remainder is zero or some master is under-full, as in every run with an empty master, because otherwise the loop over the remainder does not end (`StuckWithoutUnderFull`).
- Rebalance.HandOutRemainder: requires an under-full node for a remainder, for the same reason.
- Reshard.ComputeReshardTable: requires that no more slots are asked for than the sources have; otherwise the source indexes past a list.
- MigrationExec.DispatchSlotToNewMasters: the agreement with Redis is stated for clusters without lost slots, because ADDSLOTSRANGE names only the first and last slot of a batch of lost ones; with failing commands only the lists and the conservation of keys are stated, because the source logs these errors and goes on.
- HaStatus.BuildHaStatus: requires at least one zone; without zones the source divides by zero.
- SlavePlacement.PlaceSlaves: requires that the cluster knows all old slaves; for an unknown one of a full master the source dereferences nil.
- SlavePlacement.LayOut: the nested loops over VMs and their slaves are modelled as one loop over the slaves in an order that goes VM by VM; the slaves set aside are then taken in any order.
- ClusterRuns.Runs: a sequence stops at the first failed command and at a run for which the pod of a slot owner is missing. Between runs ownership changes only by promotion of a node of the same statefulset that has all keys; manual resharding and slaves that lag behind are not modelled.
- Nodes.SortByFunc: returns a new list; that the source also reorders its argument in place is not modelled.
