# A verified model of kaas

kaas is a Kafka-compatible broker cluster without a metadata quorum. One
elected controller computes which broker leads which partition and which
broker coordinates which consumer group, and publishes the result as a file
on a shared volume; every broker polls the file and drives its storage
engine to it. Transactions are finished by markers that brokers append
themselves or leave in each other's inbox on the same volume.

This project models that control plane and some self-contained parts of the
data path, and proves what they keep over every input, every run and every
interleaving.

- **The balancer** (`Levelling`, `Smoothing`, `PerTopic`, `Placement`,
  `Balance`, `Survivors`, `Convergence`, `Settling`): both smoothing passes
  terminate and do what they are for, the cluster-wide one with the fewest
  possible moves; partitions with a living leader are moved last; a
  recompute settles after two rounds; a settled assignment is a fixed point
  and growing it moves nothing.
- **The control plane as steps** (`Lease`, `Controller`, `Coordinator`,
  `Cluster`, `Takeover`, `GroupRouting`): one controller per epoch, one
  leader per partition epoch, rising versions, fenced applies, group
  coordinators that do not move without reason.
- **Transaction markers** (`Markers`, `MarkerDispatch`): which steps of the
  delivery protocol can lose a marker, exactly, and that no other run does.
- **Producer ids, the wire format, record batches, quotas, access rules**
  (`ProducerIds`, `Wire`, `Headers`, `RecordBatch`, `Quota`, `Acl`).

Code that updates things in place is modelled by methods and classes that do
the same, each proved equal to a specification function; what is promised is
then proved of those functions. `Totals`, `Slices`, `Layout`, `Ordering`
and `Assignments` hold what the others share.

Check the project with `dafny verify dfyconfig.toml`.

## Where the code falls short of what is said about it

Each of these is a lemma with a concrete run, beside a lemma that says
exactly when the property does hold.

- A lone per-topic move between brokers with equal totals takes the cluster
  gap from 0 to 2, although the comment at balancer.rs:527-529 says the gap
  merely changes sign (`PerTopic.EqualTotalsTipTheCluster`,
  `PerTopic.RepairKeepsClusterLevelIff`). The next recompute repairs it
  (`Settling.StandingRunSettles`).
- A partition that leaves the catalogue and comes back takes the epoch in
  its manifest, not the one after it, and may go to another broker at that
  epoch (`Cluster.ReaddCanReuseAnEpoch`, `Controller.ReaddKeepsOneLeaderIff`).
- A release by a process that has lost the lease rewinds the controller
  epoch (`Lease.LateReleaseRewindsTheCounter`, `Lease.ReleaseSafeIffHolder`).
- A queue file is named after the producer session, not the transaction: a
  second commit in one session can overwrite the first one's undelivered
  marker (`Markers.ReusedSessionLosesAMarker`). And a receiver drops the
  markers of partitions it no longer leads
  (`Markers.MovedLeadershipLosesAMarker`). `Markers.KeepsCoverageIff` says
  which steps lose something.
- A producer-id block whose end was never written is handed out again after
  a restart (`ProducerIds.LostWriteRepeatsAnId`,
  `ProducerIds.FreshAfterRestartIff`).
- The seeking record counter counts a batch whose header is in the file but
  whose body is not (`RecordBatch.TornTailIsCounted`, `RecordBatch.TornIff`;
  `RecordBatch.CountRecordsAt` states by how much).
- Fetch and produce share one refill time, so one can take away the other's
  refill (`Quota.FetchTakesTheRefill`, `Quota.RefillKeptIff`), and only the
  upper bound on charged bytes holds per direction.
- An empty pattern filter matches only literal and prefix entries, while the
  comment at acl_cr_writer.rs:40-43 says it matches every entry
  (`Acl.OtherPatternIsHidden`, `Acl.AnyListsAllIff`).
- Adding a rule that only a later entry of its shape has lists it twice
  (`Acl.LaterEntryListsTwice`, `Acl.AdditionSeenByAll`).

## Model

| member | source | states |
|---|---|---|
| Levelling.LevelIffCostZero | crates/kaas-controller/src/balancer.rs:447-519 | Counts differ by at most one exactly if their cost is zero, where the cost is the larger of the excess above the rounded-up mean and the shortfall below the rounded-down mean |
| Levelling.CostDropsByOne | crates/kaas-controller/src/balancer.rs:447-519 | Moving one from a maximum to a minimum at least two below lowers the cost by exactly one: the potential behind both passes |
| Levelling.DownhillNeverCosts | crates/kaas-controller/src/balancer.rs:601-620 | Moving one from any higher count to any lower one, as a swap does to its partner topic, never raises the cost |
| Levelling.ShiftSquares | crates/kaas-controller/src/balancer.rs:534-540 | The sum of squares, the other potential, changes by exactly minus twice the gap less one |
| Ordering.LessIsLexicographic | crates/kaas-controller/src/balancer.rs:500-502 | Names compare by their first difference, a prefix coming first |
| Smoothing.NextMoveIsOneMove | crates/kaas-controller/src/balancer.rs:447-519 | One round of the cluster-wide pass either finds the counts level or moves exactly one slot, lowering the cost by one and keeping every slot on an alive broker |
| Smoothing.SmoothedIsLevel | crates/kaas-controller/src/balancer.rs:447-519 | The pass ends with cluster counts within one of each other, the same slots, all on alive brokers, after exactly as many moves as the initial cost |
| Smoothing.SmoothedKeepsLevel | crates/kaas-controller/src/balancer.rs:447-519 | A level layout is left untouched |
| Smoothing.CostIsALowerBound | crates/kaas-controller/src/balancer.rs:447-519 | Any level layout of the same slots differs from the given one in at least cost many places, by whatever route it was reached |
| Smoothing.NoSlotMovesTwice | crates/kaas-controller/src/balancer.rs:447-519 | The number of slots that end elsewhere equals the number of moves, so none moved twice |
| Smoothing.FewestMoves | crates/kaas-controller/src/balancer.rs:447-519 | No sequence of single-partition moves that ends level is shorter |
| Smoothing.FreshBeforeInherited | crates/kaas-controller/src/balancer.rs:474-509 | While the heaviest broker has a slot that was placed in this round, an inherited one is not chosen |
| Smoothing.NoBetterVictim | crates/kaas-controller/src/balancer.rs:474-509 | Against every slot on the heaviest broker, from the slots' own fields: the victim is inherited only if that one is; then its topic leans if that one's does; then its score for the lightest broker is no lower; then its topic is lower, or the same with no higher partition |
| Smoothing.FirstOfEquals | crates/kaas-controller/src/balancer.rs:456-470 | Of equally loaded brokers the scans keep the first: every broker listed before the heaviest has fewer slots, every one before the lightest more |
| Smoothing.FindExtremes | crates/kaas-controller/src/balancer.rs:456-470 | The scan finds the first heaviest and the first lightest broker |
| Smoothing.CountPerBroker | crates/kaas-controller/src/balancer.rs:451-454 | The counts start as the number of slots on each alive broker |
| Smoothing.PickVictim | crates/kaas-controller/src/balancer.rs:478-509 | The victim scan over the slot vector finds the preferred slot on the heaviest broker, or none |
| Smoothing.SmoothOnce | crates/kaas-controller/src/balancer.rs:455-518 | One loop iteration on the slot array and its counts keeps them in step and makes one move, or reports that none is left |
| Smoothing.SmoothPartitions | crates/kaas-controller/src/balancer.rs:447-519 | The in-place loop terminates and leaves in the array exactly the specified layout |
| PerTopic.PartnerExists | crates/kaas-controller/src/balancer.rs:601-620 | If a topic leans to a broker that is not heavier overall, some other topic leans the other way, so a swap partner exists |
| PerTopic.RepairIffUneven | crates/kaas-controller/src/balancer.rs:562-623 | A repair of a topic is found exactly if its counts are two or more apart; it takes a slot of the topic from its fullest to its emptiest broker, alone exactly if the donor is at least as heavy |
| PerTopic.FirstRepairIffUneven | crates/kaas-controller/src/balancer.rs:562-623 | The scan over all topics finds no repair exactly if every topic is level |
| PerTopic.RepairCost | crates/kaas-controller/src/balancer.rs:562-623 | A repair lowers the cost of its topic by exactly one and raises that of no topic, the swap partner's included |
| PerTopic.RepairTotalCost | crates/kaas-controller/src/balancer.rs:534-558 | Summed over topics, every productive step lowers the cost |
| PerTopic.RepairSquares | crates/kaas-controller/src/balancer.rs:534-540 | Every repair lowers its topic's sum of squared counts by at least two and raises no other topic's |
| PerTopic.OwedIsNatural | crates/kaas-controller/src/balancer.rs:534-558 | The total cost is at most the number of slots, which is why that many steps suffice |
| PerTopic.LevelledIsLevel | crates/kaas-controller/src/balancer.rs:540-558 | The pass ends with every topic level, the same slots, all on alive brokers, within as many repairs as the initial total cost |
| PerTopic.LevelledKeepsLevel | crates/kaas-controller/src/balancer.rs:540-558 | A layout whose topics are all level is left untouched |
| PerTopic.FewPartitionsMove | crates/kaas-controller/src/balancer.rs:540-558 | The pass leaves at most two partitions on another broker for every unit the topics owed |
| PerTopic.RepairKeepsClusterLevelIff | crates/kaas-controller/src/balancer.rs:590-620 | From a level cluster, a repair keeps the cluster level exactly if it is a swap or the two brokers' totals differ: the comment's claim holds except on a tie |
| PerTopic.EqualTotalsTipTheCluster | crates/kaas-controller/src/balancer.rs:592-592 | The tie happens: two brokers with two slots each end with one and three |
| PerTopic.StrictRuleLevelsBoth | crates/kaas-controller/src/balancer.rs:592-592 | With a strict comparison in its place the pass ends with every topic and the cluster level; a variant, not the code |
| PerTopic.OnlyTiesUnsettle | crates/kaas-controller/src/balancer.rs:590-599 | As the code stands the cluster stays level if no lone move of the pass meets a tie |
| PerTopic.ClusterGapAtMostRagged | crates/kaas-controller/src/balancer.rs:521-558 | With every topic level, two brokers differ in total by at most the number of topics whose size the number of brokers does not divide |
| PerTopic.NoCheaperSlot | crates/kaas-controller/src/balancer.rs:625-634 | Against every slot of its topic on its broker: the donor is inherited only if that one is, and otherwise has no higher partition |
| PerTopic.NoCheaperPartner | crates/kaas-controller/src/balancer.rs:604-615 | Against every slot of another topic that the recipient has more of: the swap partner is inherited only if that one is, and otherwise is of a lower topic, or of the same with no higher partition |
| PerTopic.FirstUnevenTopic | crates/kaas-controller/src/balancer.rs:566-622 | The repair is of the first topic in the list that is not level |
| PerTopic.TopicListIsSorted | crates/kaas-controller/src/balancer.rs:544-546 | The topics are gone through in order, each once |
| PerTopic.FindTopicExtremes | crates/kaas-controller/src/balancer.rs:569-585 | The scan finds a topic's fullest and emptiest broker with their counts |
| PerTopic.ChooseRepair | crates/kaas-controller/src/balancer.rs:586-620 | The search over the slot array finds the specified repair of a topic |
| PerTopic.ImproveOneTopic | crates/kaas-controller/src/balancer.rs:562-623 | One call applies the first repair in place and says so, or changes nothing and says that |
| PerTopic.SmoothPartitionsPerTopic | crates/kaas-controller/src/balancer.rs:521-558 | The loop under its iteration cap leaves the specified layout, and the cap is never reached |
| Placement.Best | crates/kaas-controller/src/balancer.rs:390-414 | The broker chosen for a partition is alive and none has fewer of the topic, or as many and a smaller total |
| Placement.NoneBetterThanBest | crates/kaas-controller/src/balancer.rs:390-414 | Against every alive broker the chosen one has fewer of the topic, or as many and fewer overall, or as many of both and a score no lower |
| Placement.PlacedOnAlive | crates/kaas-controller/src/balancer.rs:370-421 | After placement every slot is on an alive broker and no pinned slot has changed its name or order |
| Placement.PlacedUpToFrame | crates/kaas-controller/src/balancer.rs:370-421 | Placing up to a point leaves later slots and all pinned slots as they were |
| Placement.PlaceKeepsSettled | crates/kaas-controller/src/balancer.rs:385-421 | Adding to a broker that is least loaded for the topic keeps cluster and topics level, provided the other topics' totals are level |
| Placement.PlacementStaysSettled | crates/kaas-controller/src/balancer.rs:370-421 | When whole new topics join a level layout, cluster and every topic are level after every single placement |
| Placement.CountPlaced | crates/kaas-controller/src/balancer.rs:374-384 | The running counts start as the counts of the slots that have a broker, per broker and per topic and broker |
| Placement.SeenCounts | crates/kaas-controller/src/balancer.rs:374-421 | What the running counts have seen is, for every broker with a name, all there is |
| Placement.FindBest | crates/kaas-controller/src/balancer.rs:390-414 | The inner scan picks the specified broker from the running counts |
| Placement.PlaceUnpinned | crates/kaas-controller/src/balancer.rs:370-421 | The loop over the slot array with running counts leaves the specified layout |
| Assignments.PartitionKeyInjective | crates/kaas-broker/src/coordinator.rs:433-439 | The key of a topic and partition determines both, even for topic names with slashes and for negative partitions |
| Assignments.ByKey | crates/kaas-controller/src/balancer.rs:130-145 | Every row's key is found, and what is found under a key is a row with it |
| Assignments.ByKeyLastWins | crates/kaas-controller/src/balancer.rs:130-145 | What is found is the last row with the key |
| Assignments.ByKeyFindsRow | crates/kaas-controller/src/balancer.rs:130-145 | If each key is listed once, looking a row's key up returns that row |
| Balance.PrevPartitions | crates/kaas-controller/src/balancer.rs:130-145 | The loop that indexes the previous rows builds the lookup, and an empty one without a previous assignment |
| Balance.PinTopic | crates/kaas-controller/src/balancer.rs:185-205 | One topic's slots: pinned to the previous leader if it is alive, else unplaced |
| Balance.PinSurvivors | crates/kaas-controller/src/balancer.rs:183-206 | The slots of all topics in order |
| Balance.StampAll | crates/kaas-controller/src/balancer.rs:221-248 | The last loop gives every slot its row with the specified epoch |
| Balance.BalancePartitions | crates/kaas-controller/src/balancer.rs:163-249 | The whole computation over one slot array: pin, place, smooth, level per topic, stamp |
| Balance.BalanceCovers | crates/kaas-controller/src/balancer.rs:163-249 | The result lists exactly the catalogue's partitions, in order, each on one of the given brokers |
| Balance.BalanceEpochs | crates/kaas-controller/src/balancer.rs:221-248 | An epoch is never below the floor or the previous epoch; it is unchanged exactly if the leader is and the floor is not above it; a row that changes has the larger of the floor and one more than before |
| Survivors.StickyIffSurvives | crates/kaas-controller/src/balancer.rs:183-206 | From the previous rows and the brokers alone: a partition counts as inherited, and starts on its previous leader, exactly if that leader is alive; else it starts without a broker |
| Survivors.RoundsReachTheEnd | crates/kaas-controller/src/balancer.rs:447-519 | The rounds of the cluster-wide pass, taken one at a time, keep the slots and end where the pass ends |
| Survivors.InheritedLeavesLast | crates/kaas-controller/src/balancer.rs:474-509 | From any previous assignment, a round moves a partition whose previous leader is alive only if every partition on that broker has one |
| Survivors.InheritedDonatesLast | crates/kaas-controller/src/balancer.rs:601-634 | A per-topic repair gives away, or takes in exchange, such a partition only if every other candidate is one |
| Convergence.BalanceLevelsTopics | crates/kaas-controller/src/balancer.rs:163-249 | Every result has every topic level and the cluster gap bounded by the number of topics that do not divide evenly |
| Convergence.FreshIsSettled | crates/kaas-controller/src/balancer.rs:163-249 | Without a previous assignment the result is level in cluster and topics and is the placement itself: neither smoothing pass moves anything |
| Convergence.SettledIsFixedPoint | crates/kaas-controller/src/balancer.rs:163-249 | Recomputing a settled assignment gives it back, rows, epochs and all |
| Convergence.TwoRecomputesConverge | crates/kaas-controller/src/balancer.rs:163-249 | From any previous assignment and whatever floor each recompute reads, the second recompute is settled, and a third whose floor is not above an assigned epoch changes nothing |
| Convergence.LevelTopicsSettle | crates/kaas-controller/src/balancer.rs:447-558 | If every topic is level, one recompute makes the cluster level too and keeps the topics so |
| Convergence.JoinTopics | crates/kaas-controller/src/balancer.rs:163-249 | If the survivors are settled, new topics settle around them: no surviving row changes |
| Convergence.AddingTopicsMovesNothing | crates/kaas-controller/src/balancer.rs:163-249 | Adding distinctly named topics to a settled assignment, anywhere among the old ones, leaves every old row unchanged under its key, and the result covers the new catalogue and is settled |
| Convergence.PinnedCountsOldRows | crates/kaas-controller/src/balancer.rs:183-206 | Among unplaced slots of new topics in any order, the pinned slots count as the old rows did |
| Settling.FloorSparesAssigned | crates/kaas-controller/src/assignment_writer.rs:386-417 | The floor a recompute reads names no assigned partition, so it never disturbs one |
| Settling.StandingRunSettles | crates/kaas-controller/src/assignment_writer.rs:268-378 | While brokers and catalogue stand, every recompute after a published one, in its stint or a later one, published or not, comes out with one and the same settled layout, epochs included |
| Settling.GrowingRunMovesNothing | crates/kaas-controller/src/assignment_writer.rs:268-378 | From a settled published assignment, while the brokers stand and topics come anywhere in the catalogue, no recompute of the run moves a partition or changes an epoch, and each is settled |
| Settling.GrowingFromNothing | crates/kaas-controller/src/assignment_writer.rs:242-378 | So a cluster that starts without a file and only gains topics never moves a partition |
| GroupRouting.PickIsAlive | crates/kaas-broker/src/group_hash.rs:45-104 | A pick is always an alive broker; there is none only if none is alive |
| GroupRouting.PickForgetsOrder | crates/kaas-broker/src/group_hash.rs:82-104 | The pick does not depend on the order of the broker rows |
| GroupRouting.OnlyOrphansMove | crates/kaas-broker/src/group_hash.rs:45-104 | From all alive, marking any brokers dead moves a key exactly if its own broker was marked |
| GroupRouting.PickByResidue | crates/kaas-broker/src/group_hash.rs:45-104 | With every broker alive a key goes to the broker whose place in sorted order is the hash modulo their number |
| GroupRouting.ResiduesAreBrokers | crates/kaas-broker/src/group_hash.rs:45-104 | Then two keys meet on a broker exactly if those residues are equal, and every broker has its residue |
| GroupRouting.AlternateByResidue | crates/kaas-broker/src/group_hash.rs:82-104 | If that broker is not alive, the residue, reduced by the number of alive brokers, is the place among them in sorted order |
| GroupRouting.BrokerSets | crates/kaas-broker/src/assignment.rs:101-109 | The loop builds the row ids and the alive flags |
| GroupRouting.Explicit | crates/kaas-broker/src/coordinator.rs:330-356 | The explicit entry is one of the group's rows, and is missing only if the group has none |
| GroupRouting.ListedGroupsFirst | crates/kaas-broker/src/coordinator.rs:330-356 | A listed group is coordinated by the broker of its first row, whatever the hash says |
| GroupRouting.PlaceReported | crates/kaas-controller/src/balancer.rs:300-324 | The loop over reported groups keeps entries on alive brokers and picks for the others, each group once |
| GroupRouting.BalanceGroups | crates/kaas-controller/src/balancer.rs:275-354 | The whole computation of the group rows, reported first, then surviving unreported ones in order |
| GroupRouting.ExplicitOfBalanced | crates/kaas-controller/src/balancer.rs:275-354 | What a recompute lists for any group: reported, kept because its broker is alive, or nothing |
| GroupRouting.ReportedGroupRow | crates/kaas-controller/src/balancer.rs:302-324 | A reported group keeps its row if its broker is alive; else it is where the hash sends it, one epoch on, or at epoch one if it had no row |
| GroupRouting.RecomputeMovesNoGroup | crates/kaas-controller/src/balancer.rs:275-354 | With unchanged rows and sound entries a recompute changes the coordinator of no group id, listed or hashed |
| GroupRouting.RecomputeKeepsRowsSound | crates/kaas-controller/src/balancer.rs:275-354 | If any broker is alive, the new entries are unique and on alive brokers, whatever the old ones were |
| GroupRouting.Residents.OnChange | crates/kaas-broker/src/group_takeover.rs:74-112 | After a change a broker holds exactly those of its groups it coordinates |
| GroupRouting.ResidencyIsExclusiveAndStable | crates/kaas-broker/src/group_takeover.rs:74-133 | Once two brokers have applied one assignment no group is on both, and a recompute moves none |
| Lease.NextKeepsInv | crates/kaas-controller/src/kube_election.rs:151-335 | Every acquire, renew, release or crash keeps one identity per counter value and raises the counter by at most one |
| Lease.EpochHasOneHolder | crates/kaas-controller/src/kube_election.rs:64-69 | In every run no counter value was ever held by two identities |
| Lease.EpochCountsHandovers | crates/kaas-controller/src/kube_election.rs:151-251 | The counter rises, by one, exactly when a new holder differs from the last one or the last one is unknown, and the new holder learns it |
| Lease.LiveHolderStays | crates/kaas-controller/src/kube_election.rs:189-194 | An acquire changes nothing while the lease names someone else and is not stale |
| Lease.OpenLeaseIsTaken | crates/kaas-controller/src/kube_election.rs:151-251 | An absent, released, stale or own lease is taken: it then names the process, which knows its counter |
| Lease.TenureEndsOnlyBy | crates/kaas-controller/src/kube_election.rs:151-335 | Over any run the lease stops naming a holder only if some step was another's acquire of a stale lease, or the holder's release |
| Lease.RenewalTells | crates/kaas-controller/src/kube_election.rs:257-288 | In every reachable state a renewal leaves the lease as it is, and the process still leads exactly if it did and the lease names it |
| Lease.HolderComesBack | crates/kaas-controller/src/kube_election.rs:151-251 | A crash leaves the lease as it is, and the holder acquires it again at once, under the same counter |
| Lease.CounterNeverFalls | crates/kaas-controller/src/kube_election.rs:151-335 | Along any run the counter never falls |
| Lease.LateReleaseRewindsTheCounter | crates/kaas-controller/src/kube_election.rs:299-335 | A release by a process that lost the lease writes its old counter back, and the next holder repeats one |
| Lease.ReleaseSafeIffHolder | crates/kaas-controller/src/kube_election.rs:299-335 | In every run, after a release no continuation ever gives a counter value to two identities, exactly if the Lease still named the releasing process |
| Lease.CounterClimbs | crates/kaas-controller/src/kube_election.rs:151-251 | Elections under other names take a rewound counter to any higher value |
| Controller.BrokerRowsCover | crates/kaas-controller/src/assignment_writer.rs:434-479 | There is a row for each registered or alive broker and no other; it is alive exactly if the broker is, unless it is a registered drainer |
| Controller.BrokerRowsSorted | crates/kaas-controller/src/assignment_writer.rs:434-479 | The rows are sorted by id; one is draining exactly if its broker is registered and drains, and alive exactly if it is in the alive set and not that |
| Controller.EpochFloorIs | crates/kaas-controller/src/assignment_writer.rs:386-417 | The floor holds exactly the manifest epochs, if positive and 32-bit, of catalogue partitions that are not assigned |
| Controller.ComputeEpochFloor | crates/kaas-controller/src/assignment_writer.rs:386-417 | The loop builds the specified floor |
| Controller.BuildBrokerEntries | crates/kaas-controller/src/assignment_writer.rs:434-479 | The loops build the specified rows in sorted order |
| Controller.AssignmentLoop.Start | crates/kaas-controller/src/assignment_writer.rs:242-258 | A stint adopts the lease epoch and carries on from the file if there is one, above its version |
| Controller.AssignmentLoop.UpdateAssignment | crates/kaas-controller/src/assignment_writer.rs:268-378 | A recompute takes the next version and is remembered even if publishing it fails |
| Controller.RunIsWellTraced | crates/kaas-controller/src/assignment_writer.rs:242-378 | In every run of stints each computed assignment derives from the last one of its stint, or from the last published one when the stint starts |
| Controller.VersionsRise | crates/kaas-controller/src/assignment_writer.rs:242-378 | Whatever is computed after a published assignment has a higher version |
| Controller.RecomputeEpochs | crates/kaas-controller/src/balancer.rs:221-248 | Across a recompute a listed partition's epoch never falls and stays exactly if its leader does; a new one starts at its manifest or at one |
| Controller.OneLeaderPerEpoch | crates/kaas-controller/src/assignment_writer.rs:268-417 | From a published assignment to any later one, epochs never fall and equal epochs mean equal leaders, while the partition stays assigned or its manifest has moved on when it comes back |
| Controller.ReaddStartsAtManifest | crates/kaas-controller/src/assignment_writer.rs:386-417 | A partition assigned anew starts at the epoch of its manifest, never below it |
| Controller.ReaddKeepsOneLeaderIff | crates/kaas-controller/src/assignment_writer.rs:386-417 | When a partition comes back and its earlier leader is not alive, one leader per epoch survives exactly if the manifest read then, or one, is past that leader's epoch |
| Coordinator.Broker.ApplyIfNew | crates/kaas-broker/src/coordinator.rs:248-319 | A poll applies a file exactly if it is new and not fenced, and then replaces snapshot, version and both indices together |
| Coordinator.Broker.BuildIndices | crates/kaas-broker/src/coordinator.rs:293-303 | The loop builds the owned epochs and the leaders by key |
| Coordinator.Broker.LookupsAreScans | crates/kaas-broker/src/coordinator.rs:196-213 | For a file that lists each partition once, owner, leader and epoch lookups equal a scan of the snapshot, hits and misses |
| Coordinator.AppliesAreFencedAndRising | crates/kaas-broker/src/coordinator.rs:248-319 | Once a lease epoch has been seen no assignment below it is applied, and consecutive applies in one controller epoch have rising versions |
| Coordinator.AppliesExactly | crates/kaas-broker/src/coordinator.rs:248-291 | A file below the lease epoch is not applied; else the first file, and one of another controller epoch, is applied whatever its version, and one of the same exactly if its version is higher |
| Coordinator.SnapshotStays | crates/kaas-broker/src/coordinator.rs:248-319 | Between applies the snapshot and its version stay |
| Cluster.NoTwoOwnersAtOneEpoch | crates/kaas-broker/src/coordinator.rs:196-213 | Two brokers that own a partition under any two published assignments own it at different epochs, the later one higher |
| Cluster.RecomputedListsOnce | crates/kaas-controller/src/assignment_writer.rs:268-378 | With distinct topic names a recompute lists each partition once, as the indices need |
| Cluster.ReaddCanReuseAnEpoch | crates/kaas-controller/src/assignment_writer.rs:386-417 | A partition that drops out and comes back can go to another broker at the same epoch |
| Cluster.PollMovesForward | crates/kaas-broker/src/coordinator.rs:248-319 | A poll that reads a published file applies it exactly if it is later in the run than the broker's own and not fenced off |
| Cluster.PollsMoveForward | crates/kaas-broker/src/coordinator.rs:248-319 | Over any sequence of polls from the start, with any lease readings and failed reads, a broker goes by the last file that was later than its own and not fenced off |
| Cluster.AppliedNeverFalls | crates/kaas-broker/src/coordinator.rs:248-319 | From one poll to any later one its place in the run never falls |
| Cluster.GroupsStayPut | crates/kaas-controller/src/balancer.rs:275-354 | While the broker rows stand, no recompute of a run changes any group's coordinator |
| Takeover.OwnedBy | crates/kaas-broker/src/takeover.rs:185-205 | The owned map holds exactly the partitions whose rows name this broker |
| Takeover.OnChange | crates/kaas-broker/src/takeover.rs:70-117 | The take-overs and relinquishes issued are exactly those that turn the old owned map into the new one |
| Takeover.NeedTakeOver | crates/kaas-broker/src/takeover.rs:74-97 | A partition is taken over if it is new or its epoch has changed |
| Takeover.NotKept | crates/kaas-broker/src/takeover.rs:99-116 | A partition is relinquished if it is no longer owned |
| Takeover.Reconcile | crates/kaas-broker/src/takeover.rs:147-183 | A pass re-drives exactly the owned partitions that are not open, or are open at a lower epoch than assigned; it returns zero exactly if there are none, and then every partition assigned to the broker is open |
| Takeover.NothingBehind | crates/kaas-broker/src/coordinator.rs:419-429 | If nothing lags, every owned partition is open, which is what serving asks |
| Takeover.PassConverges | crates/kaas-broker/src/takeover.rs:147-183 | Whatever succeeded is not re-driven again, and a pass whose calls all succeed is followed by one that returns zero |
| Markers.NextKeepsSound | crates/kaas-broker/src/txn_markers.rs:50-285 | Every step, by any number of attempts and receivers, keeps markers and entries within what their transactions owe |
| Markers.OnlyOwedMarkers | crates/kaas-broker/src/txn_markers.rs:50-285 | In every run no log or inbox holds a marker its transaction does not owe, or with the wrong outcome |
| Markers.KeepsCoverageIff | crates/kaas-coordinator/src/marker_queue.rs:80-92 | A step keeps every debt covered exactly if it does not overwrite or delete a queue file that holds the only copy of a marker |
| Markers.EveryDebtIsCovered | crates/kaas-broker/src/txn_markers.rs:241-285 | In every run without such a step each partition owed by a completed transaction has its marker in the log or in an inbox, and in the log once the session's files are gone |
| Markers.SteadyIsLossless | crates/kaas-broker/src/marker_watcher.rs:146-189 | With leadership fixed and no other transaction's file in the slot, no step is such a step, a crash between apply and delete included |
| Markers.SteadyClusterPaysEveryDebt | crates/kaas-broker/src/txn_markers.rs:50-285 | So in every such run, across failures, retries and crashes, every debt of a completed transaction stays covered |
| Markers.ReusedSessionLosesAMarker | crates/kaas-coordinator/src/marker_queue.rs:77-92 | A session that commits twice before the peer polls overwrites its queue file, and the first transaction's marker is nowhere |
| Markers.MovedLeadershipLosesAMarker | bins/kaas/src/cluster.rs:437-484 | If leadership moves before the peer polls, the peer drops the marker and deletes the file |
| MarkerDispatch.GroupByLeader | crates/kaas-broker/src/txn_markers.rs:67-76 | The grouping loop gives each leader exactly its partitions, in order, and makes no empty group |
| MarkerDispatch.SplitGroups | crates/kaas-broker/src/txn_markers.rs:78-91 | Partitions without a known leader and this broker's own are local, the rest are queued per leader, none lost or added |
| MarkerDispatch.PackByTopic | crates/kaas-broker/src/txn_markers.rs:196-204 | An entry's topic lists carry exactly the given partitions, each topic once |
| MarkerDispatch.PackedIsSame | crates/kaas-broker/src/txn_markers.rs:196-204 | Packing loses and adds no partition |
| MarkerDispatch.Volume.WriteLocal | crates/kaas-broker/src/txn_markers.rs:123-162 | Local appends happen in order and stop at the first that fails |
| MarkerDispatch.Volume.EnqueueAll | crates/kaas-broker/src/txn_markers.rs:172-225 | Queue files are written one per peer until one fails; only this session's files for owed peers change, and only to what they are owed |
| MarkerDispatch.Volume.Dispatch | crates/kaas-broker/src/txn_markers.rs:50-113 | A dispatch succeeds exactly if every partition without a leader or led here can be appended and every other one's leader has a name and can be written to; then every marker is placed, each local one once per listing; whatever happens nothing else changes, and nothing is queued unless all appends succeeded |
| MarkerDispatch.Volume.Reconcile | crates/kaas-broker/src/txn_markers.rs:241-285 | A sweep, whatever each dispatch meets, completes exactly the transactions whose markers could be placed and whose completion could be recorded, and counts them; each has its local markers in the log and a queue file, its own or a later one of its session, with every peer it owes |
| MarkerDispatch.PaidInFull | crates/kaas-broker/src/txn_markers.rs:241-285 | A completed transaction with no later one of its session in the sweep has exactly the files it owes |
| MarkerDispatch.Volume.ApplyEntry | bins/kaas/src/cluster.rs:437-484 | A receiver appends exactly the entry's partitions it leads, in order, up to the first that fails, and reports success exactly if none does |
| MarkerDispatch.Volume.ProcessOne | crates/kaas-broker/src/marker_watcher.rs:146-189 | If all this broker leads in a queue file can be appended, it is, in order, and the file goes unless it cannot be deleted; else the appends stop at the first failure and the file stays |
| MarkerDispatch.Volume.Tick | crates/kaas-broker/src/marker_watcher.rs:115-144 | A tick looks at every file of this broker's inbox: exactly those whose markers can be appended are delivered and gone, unless they cannot be deleted; nothing else is appended or removed |
| MarkerDispatch.PaidIsComplete | crates/kaas-broker/src/txn_markers.rs:50-113 | A successful dispatch has taken every step that completing the transaction waits for in the step model |
| ProducerIds.Allocator.constructor | crates/kaas-broker/src/producer_id.rs:120-145 | A boot starts where the file ends and burns a block at once, persisted or not |
| ProducerIds.Allocator.Next | crates/kaas-broker/src/producer_id.rs:150-158 | An allocation returns the next id of the slice, first replacing a used-up block |
| ProducerIds.Allocator.ReserveBlock | crates/kaas-broker/src/producer_id.rs:169-188 | A block is adopted whether or not its end could be written |
| ProducerIds.PidsDiffer | crates/kaas-broker/src/producer_id.rs:128-130 | For broker ids from 0 to 2^23-2 and local numbers below 2^40, ids are equal exactly if broker and number are, and none is 0 |
| ProducerIds.NoIdIsIssuedTwice | crates/kaas-broker/src/producer_id.rs:120-188 | Over every interleaving of boots, allocations and crashes of any brokers whose restarts find the file caught up, no id is issued twice and none is 0 |
| ProducerIds.KeptWritesSuffice | crates/kaas-broker/src/producer_id.rs:160-188 | It suffices that the last block write of each boot persisted; within a boot any write may fail |
| ProducerIds.LandedWritesSuffice | crates/kaas-broker/src/producer_id.rs:120-188 | If block writes land, crashes and restarts at any point repeat no id, and every file names the end of the block in use |
| ProducerIds.BlocksAreThousands | crates/kaas-broker/src/producer_id.rs:120-188 | A boot has a thousand ids from the end of the file on; an allocation takes one, and a new thousand when none is left |
| ProducerIds.FreshAfterRestartIff | crates/kaas-broker/src/producer_id.rs:160-188 | The first id after a restart is new exactly if the file had caught up with the ids handed out |
| ProducerIds.LostWriteRepeatsAnId | crates/kaas-broker/src/producer_id.rs:160-188 | A lost write and a restart hand out the same id again |
| ProducerIds.OutsideTheOrdinals | crates/kaas-broker/src/producer_id.rs:126-130 | From broker id 2^23-1 on every id saturates to one value, and every negative id shares broker 0's slice |
| Wire.ReaderInvertsWriter | crates/kaas-codec/src/primitives.rs:100-128 | Every 64-bit value written is read back, with any bytes after it left intact |
| Wire.WriterIsShortest | crates/kaas-codec/src/primitives.rs:100-128 | The written form is the shortest encoding that is read as its value and the only one of its length; an accepted input is it exactly if it is one byte or does not end in zero |
| Wire.ParsedFitsU64 | crates/kaas-codec/src/primitives.rs:100-117 | Whatever is read fits into 64 bits |
| Wire.ZigzagBijection | crates/kaas-codec/src/primitives.rs:131-141 | Zigzag sends a value to twice its magnitude, less one if negative, and is a bijection between signed and unsigned 64-bit values |
| Wire.VarintRoundTrip | crates/kaas-codec/src/primitives.rs:143-149 | Every signed 64-bit value is read back |
| Wire.NullableStringRoundTrip | crates/kaas-codec/src/primitives.rs:202-248 | A nullable string is read back, and cannot be written exactly if it is longer than 32767 bytes |
| Wire.CompactStringRoundTrip | crates/kaas-codec/src/primitives.rs:225-269 | A compact nullable string is read back |
| Wire.SignedRoundTrip | crates/kaas-codec/src/primitives.rs:195-248 | Fixed-width big-endian signed integers are read back |
| Wire.BigEndianByte | crates/kaas-codec/src/primitives.rs:71-76 | Byte by byte: each is the value's digit to base 256 of its place, the most significant first |
| Wire.FromBigEndianJoin | crates/kaas-codec/src/primitives.rs:71-76 | Reading two parts in a row weighs the first by 256 to the length of the second |
| Wire.SignedByte | crates/kaas-codec/src/primitives.rs:71-76 | The bytes of a signed field are those digits of its two's complement |
| Wire.UvarintByte | crates/kaas-codec/src/primitives.rs:119-128 | Byte by byte: seven bits of the value each, the least significant first, and all but the last say that more follow |
| Wire.NullableStringBytes | crates/kaas-codec/src/primitives.rs:236-246 | A legacy string is two bytes of length, the high one first, and its bytes; null is two bytes of ones |
| Headers.BlockRoundTrip | crates/kaas-codec/src/tagged.rs:45-81 | Any list of tagged fields is read back in order, with what follows left intact |
| Headers.RequestRoundTrip | crates/kaas-codec/src/headers.rs:52-92 | Every request header of every version is read back in front of any body, over whatever tagged fields a client adds; version 0 drops the client id; writing fails exactly if the client id is too long |
| Headers.RequestBytes | crates/kaas-codec/src/headers.rs:74-92 | Where everything is on the wire: key, version and correlation id at offsets 0, 2 and 4, the client id from 8 on, and the tagged fields last, in the flexible form only |
| Headers.ParsedIsHeader | crates/kaas-codec/src/headers.rs:52-72 | Whatever is read has numbers of the width of their fields and a client id that is valid text, if any |
| Headers.TaggedBytes | crates/kaas-codec/src/tagged.rs:64-81 | No fields are one zero byte; a short field is the count, its tag, its length and its bytes |
| Headers.ResponseRoundTrip | crates/kaas-codec/src/headers.rs:94-113 | Every response header is read back in front of any body |
| Headers.Buffer.ReadUvarint | crates/kaas-codec/src/primitives.rs:100-117 | The reading loop takes the same bytes and gives the same value or error as the value form |
| Headers.Buffer.WriteUvarint | crates/kaas-codec/src/primitives.rs:119-128 | The writing loop appends the value form |
| Headers.Buffer.ReadInto | crates/kaas-codec/src/tagged.rs:45-60 | The collecting loop gives the same fields or error as the value form |
| Headers.Buffer.Skip | crates/kaas-codec/src/tagged.rs:29-41 | Skipping takes the same bytes, and fails with the same error, as collecting |
| Headers.Buffer.WriteBlock | crates/kaas-codec/src/tagged.rs:71-81 | The writing loop appends the value form |
| Headers.Buffer.DecodeRequest | crates/kaas-codec/src/headers.rs:52-72 | The sequence of reads decodes as the value form, with its errors |
| Headers.Buffer.EncodeRequest | crates/kaas-codec/src/headers.rs:74-92 | The sequence of writes appends the value form; a client id that is too long leaves the fixed fields behind |
| RecordBatch.CountRecords | crates/kaas-codec/src/recordbatch_count.rs:39-61 | The in-memory walk returns the number of records in the complete batches, or 2^63-1 if that is less |
| RecordBatch.CountRecordsAt | crates/kaas-codec/src/recordbatch_count.rs:68-106 | The seeking walk returns the same for its window, plus the records of a batch whose header is in the file but whose body ends beyond it |
| RecordBatch.SeekingAgreesInside | crates/kaas-codec/src/recordbatch_count.rs:68-106 | For a window inside the file the two walks count the same |
| RecordBatch.TornIff | crates/kaas-codec/src/recordbatch_count.rs:68-106 | The two walks differ exactly if the walk over whole batches reaches a header in the file that counts records of a batch ending between the file's end and the window's |
| RecordBatch.TornTailIsCounted | crates/kaas-codec/src/recordbatch_count.rs:68-106 | They do for a file that ends inside a control batch |
| RecordBatch.RecordsAddUp | crates/kaas-codec/src/recordbatch_count.rs:39-61 | Counting is additive over whole batches |
| RecordBatch.OneBatch | crates/kaas-codec/src/recordbatch_count.rs:39-61 | A stream that is one batch long, by its length field, counts as many records as its count field says, none if that is negative |
| RecordBatch.BuildControlBatch | crates/kaas-broker/src/control_batch.rs:58-110 | The buffers filled field by field give the specified bytes |
| RecordBatch.ControlBatchCountsOne | crates/kaas-broker/src/control_batch.rs:58-128 | Every control batch is as long as its length field says, counts as exactly one record, and carries its producer id and epoch |
| RecordBatch.ControlBatchHeader | crates/kaas-broker/src/control_batch.rs:84-106 | The header has magic 2, the transactional and the control bit and no other, no sequence number, and the checksum of everything from the attributes on |
| RecordBatch.ControlBatchSaysWhich | crates/kaas-broker/src/control_batch.rs:64-80 | The record says commit or abort, and the coordinator epoch |
| Quota.Enforcer.Check | crates/kaas-auth/src/quota.rs:140-203 | A check refills, charges and throttles one principal's bucket, creating it full if it is new, and changes nothing else |
| Quota.Enforcer.SetUserQuota | crates/kaas-auth/src/quota.rs:100-117 | An override takes effect on a live bucket at once and leaves balances alone; every bucket keeps running at the described rate |
| Quota.FirstCheck | crates/kaas-auth/src/quota.rs:236-261 | On a principal's first check each direction lets through exactly its own quota unthrottled, and anything if it has none |
| Quota.ChargesAreBounded | crates/kaas-auth/src/quota.rs:140-203 | Bytes charged in one direction, under any interleaving with the other, are at most rate times one plus the elapsed seconds, plus the debt |
| Quota.SplitChargesAddUp | crates/kaas-auth/src/quota.rs:163-185 | A charge split among any number of calls at one instant ends in the same bucket as the sum |
| Quota.ThrottleIsExact | crates/kaas-auth/src/quota.rs:190-202 | An unsaturated throttle is the least whole number of milliseconds after which, without another call, the debt is gone |
| Quota.ThrottledIffInDebt | crates/kaas-auth/src/quota.rs:184-202 | There is a throttle exactly if there is debt |
| Quota.RefillKeptIff | crates/kaas-auth/src/quota.rs:163-180 | A check in one direction leaves the other's refill whole exactly if no time had passed since the last check or what still flows in fills the bucket anyway |
| Quota.FetchTakesTheRefill | crates/kaas-auth/src/quota.rs:163-164 | Otherwise a fetch takes away a produce's refill |
| Acl.SplitAgrees | crates/kaas-broker/src/acl_cr_writer.rs:242-269 | Splitting an entry's operations by a filter is filtering its bindings, matched and kept alike |
| Acl.DeletionRemoves | crates/kaas-broker/src/acl_cr_writer.rs:331-381 | After a deletion the bindings are those before it that the filter does not match, in order |
| Acl.DeletionSeenByAll | crates/kaas-broker/src/acl_cr_writer.rs:331-413 | For every filter, the listing after a deletion is the listing before it less what was deleted |
| Acl.ListedIff | crates/kaas-broker/src/acl_cr_writer.rs:97-119 | A listing has exactly the bindings each of whose fields the filter leaves empty or names, with a pattern it names, or literal or prefix where it names none or says match |
| Acl.DeletedIff | crates/kaas-broker/src/acl_cr_writer.rs:331-381 | After a deletion with a filter exactly the bindings a listing with it does not have are left |
| Acl.BindingsComeFromRecords | crates/kaas-broker/src/acl_cr_writer.rs:223-238 | There is a binding for each operation of each entry of each user not being deleted, with that user as principal, and no other |
| Acl.AddingKnownRule | crates/kaas-broker/src/acl_cr_writer.rs:307-315 | If the first entry of its shape has the operation, the rule is listed and adding it changes nothing |
| Acl.AddingAddsOne | crates/kaas-broker/src/acl_cr_writer.rs:273-329 | Otherwise adding it is exactly one binding more |
| Acl.LaterEntryListsTwice | crates/kaas-broker/src/acl_cr_writer.rs:307-315 | Even if a later entry of that shape has it: the rule is then listed twice |
| Acl.AddingTwiceIsOnce | crates/kaas-broker/src/acl_cr_writer.rs:273-329 | Adding the same rule again changes no entry |
| Acl.CreatingTwiceIsOnce | crates/kaas-broker/src/acl_cr_writer.rs:273-329 | Creating the same rule again leaves all records as they are |
| Acl.AdditionSeenByAll | crates/kaas-broker/src/acl_cr_writer.rs:273-329 | For every filter, the listing after an addition is the same if the filter does not match the rule or the first entry of its shape has the operation, else it has exactly one binding more |
| Acl.AnyListsAllIff | crates/kaas-broker/src/acl_cr_writer.rs:102-119 | A filter that asks for nothing lists every binding exactly if every listed entry with an operation has no pattern, literal or prefix |
| Acl.OtherPatternIsHidden | crates/kaas-broker/src/acl_cr_writer.rs:102-108 | An entry with another pattern is not listed by it |
| Acl.Directory.ListAcls | crates/kaas-broker/src/acl_cr_writer.rs:383-413 | The loops list exactly the matching bindings, in order; users being deleted are left out |
| Acl.Directory.DeleteAcls | crates/kaas-broker/src/acl_cr_writer.rs:331-381 | Returns exactly what a listing with the filter would have returned just before, in order, and removes exactly that |
| Acl.Directory.CreateAcl | crates/kaas-broker/src/acl_cr_writer.rs:273-329 | A malformed principal or an unknown user is refused without a change; else that user's entries gain the rule |

## Left out

- The rendezvous hash, FNV-1a and CRC32C are parameters: no result depends on their values.
- The computation is modelled for every broker list; that layouts settle is claimed for brokers whose ids are not empty, because the empty string also marks an unplaced slot.
- Epochs, versions and lease counters are unbounded integers; 32-bit overflow of an epoch that is raised by one is not modelled.
- Timestamps, roles, listeners and `last_seen` of broker rows and assignments.
- Lease reads and writes are single atomic steps and the Lease is never deleted; the code reads and then applies by force.
- Controller stints do not overlap; a stint that still publishes after it has lost the lease is not a step of the run.
- JSON and temporary files with rename: a file is replaced as a whole, or the write fails and it stays.
- The storage engine: an abstract map of open partitions that taking over never lowers, and an append-only log.
- The transaction state machine outside its prepared and completed states, the timeout reaper and offset hooks.
- Markers.SteadyClusterPaysEveryDebt: the entry's partitions are a set; lists and their order are in MarkerDispatch.
- MarkerDispatch.Volume.Reconcile: within one dispatch a partition or a peer fails always or never.
- A decode failure or an empty queue file, which the watcher leaves for the next tick, is the same as not reading it.
- `decide_alive` in bins/kaas/src/cluster.rs: it would only add easy members.
- Wire.ReaderInvertsWriter: bitwise or and shifts are written as sums and products with the same value.
- Legacy and compact byte strings, arrays, UUIDs and floats: the same shape as the strings that are modelled.
- UTF-8 validation is a parameter of the readers.
- RecordBatch.CountRecordsAt: positions are unbounded, so the saturation of file offsets at 64 bits is not modelled; nor are I/O errors other than the end of the file.
- Quota.ChargesAreBounded: real arithmetic, a positive rate that does not change during the run, and a clock that does not run backwards.
- Quota: listing all users' quotas, and stores that change under a live bucket.
- Acl.Directory.CreateAcl: user names are unique and every API write succeeds; conflicts and failed writes are not modelled.
- Kubernetes clients and watchers, gRPC streams, HTTP probes, SASL, OAuth, TLS, metrics and configuration.
