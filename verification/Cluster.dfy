/**
 Controllers and brokers together: the controllers publish, the brokers
 poll. What can be said about any two brokers at any two moments of any
 run.
 */
module Cluster {
  import opened Layout
  import opened Assignments
  import opened Balance
  import opened Controller
  import opened GroupRouting
  import Coordinator

  // ---- no two brokers lead a partition at the same epoch ----

  /**
   Brokers `x` and `y` go by assignments published at different points
   of the run. If both take themselves for the leader of a partition,
   the one with the later assignment has the higher epoch, unless the
   partition was assigned anew in between from an older manifest.
   */
  lemma NoTwoOwnersAtOneEpoch(h: Hashes, events: seq<Event>, i: nat, k: nat, x: string, y: string, topic: string, partition: int)
    requires i <= k < |Run(h, events).trace| && x != y
    requires var trace, key := Run(h, events).trace, PartitionKey(topic, partition);
             && trace[i].published && trace[k].published
             && ListsEachOnce(trace[i].out.partitions) && ListsEachOnce(trace[k].out.partitions)
             && key in Coordinator.OwnershipOf(trace[i].out.partitions, x)
             && key in Coordinator.OwnershipOf(trace[k].out.partitions, y)
             && key in ByKey(trace[i].out.partitions) && ManifestMovedOn(trace, i, k, key)
    ensures var trace, key := Run(h, events).trace, PartitionKey(topic, partition);
            Coordinator.OwnershipOf(trace[i].out.partitions, x)[key] < Coordinator.OwnershipOf(trace[k].out.partitions, y)[key]
  {
    hide Run;
    var trace, key := Run(h, events).trace, PartitionKey(topic, partition);
    OwnedRow(trace[i].out.partitions, x, key);
    OwnedRow(trace[k].out.partitions, y, key);
    OneLeaderPerEpoch(h, events, i, k, key);
  }

  lemma OwnedRow(ps: seq<PartitionRow>, self: string, key: string)
    requires ListsEachOnce(ps) && key in Coordinator.OwnershipOf(ps, self)
    ensures key in ByKey(ps) && ByKey(ps)[key].broker == self
    ensures Coordinator.OwnershipOf(ps, self)[key] == ByKey(ps)[key].epoch
  {
    var i :| 0 <= i < |ps| && KeyOf(ps[i]) == key && ps[i].broker == self;
    ByKeyFindsRow(ps, i);
    Coordinator.OwnershipFindsRow(ps, self, i);
  }

  /** With distinctly named topics every recompute lists each partition once. */
  lemma RecomputedListsOnce(h: Hashes, id: string, epoch: int, current: Option<Assignment>, version: int, inp: Inputs)
    requires DistinctNames(inp.topics)
    ensures ListsEachOnce(Recomputed(h, id, epoch, current, version, inp).partitions)
  {
    var prev := PartsOf(current);
    var floor := EpochFloor(inp.manifests, Catalogue(inp.topics), prev);
    var rows := Balanced(prev, inp.alive, inp.topics, floor, h.score);
    if inp.alive != [] {
      BalanceCovers(prev, inp.alive, inp.topics, floor, h.score);
      CatalogueShape(inp.topics);
      hide Balanced, Catalogue;
      forall i, j | 0 <= i < j < |rows|
        ensures KeyOf(rows[i]) != KeyOf(rows[j])
      {
        if KeyOf(rows[i]) == KeyOf(rows[j]) {
          PartitionKeyInjective(rows[i].topic, rows[i].partition, rows[j].topic, rows[j].partition);
          assert false;
        }
      }
    }
  }

  /**
   The exception is real: a partition that drops out of the catalogue
   and comes back takes up the epoch of its manifest, and the broker it
   goes to then need not be the one that led it at that epoch before.
   */
  lemma ReaddCanReuseAnEpoch(h: Hashes)
    ensures var one, two := ReaddInputs("b0"), ReaddInputs("b1");
            var events := [Start("c", 1, one, true), Update(one.(topics := []), true), Update(two, true)];
            var trace, key := Run(h, events).trace, PartitionKey("t", 0);
            && |trace| == 3 && trace[0].published && trace[2].published
            && key in ByKey(trace[0].out.partitions) && key in ByKey(trace[2].out.partitions)
            && ByKey(trace[0].out.partitions)[key].epoch == ByKey(trace[2].out.partitions)[key].epoch
            && ByKey(trace[0].out.partitions)[key].broker != ByKey(trace[2].out.partitions)[key].broker
  {
    hide Recomputed, ByKey, PartitionKey;
    var one, two, key := ReaddInputs("b0"), ReaddInputs("b1"), PartitionKey("t", 0);
    var events := [Start("c", 1, one, true), Update(one.(topics := []), true), Update(two, true)];
    assert events[..2][..1] == events[..1] && events[..1][..0] == [];
    var a0 := Recomputed(h, "c", 1, None, 1, one);
    var a1 := Recomputed(h, "c", 1, Some(a0), 2, one.(topics := []));
    var a2 := Recomputed(h, "c", 1, Some(a1), 3, two);
    assert Run(h, events[..0]) == EMPTY;
    assert Run(h, events[..1]).trace == [Computed(None, one, a0, true, true)];
    assert Run(h, events[..2]).trace == Run(h, events[..1]).trace + [Computed(Some(a0), one.(topics := []), a1, true, false)];
    assert Run(h, events).trace == Run(h, events[..2]).trace + [Computed(Some(a1), two, a2, true, false)];
    SinglePartition(h, None, 1, "b0");
    EmptyCatalogue(h, a0, one);
    SinglePartition(h, Some(a1), 3, "b1");
  }

  /** One broker, one partition, whose manifest carries epoch 1. */
  function ReaddInputs(b: string): Inputs {
    Inputs([b], [b], [], [TopicSpec("t", 1)], [], map[PartitionKey("t", 0) := 1])
  }

  lemma EmptyCatalogue(h: Hashes, a: Assignment, inp: Inputs)
    requires inp.alive != []
    ensures Recomputed(h, "c", 1, Some(a), 2, inp.(topics := [])).partitions == []
  {
    var floor := EpochFloor(inp.manifests, Catalogue([]), a.partitions);
    BalanceCovers(a.partitions, inp.alive, [], floor, h.score);
  }

  lemma SinglePartition(h: Hashes, current: Option<Assignment>, version: int, b: string)
    requires PartsOf(current) == []
    ensures var rows, key := Recomputed(h, "c", 1, current, version, ReaddInputs(b)).partitions, PartitionKey("t", 0);
            key in ByKey(rows) && ByKey(rows)[key].epoch == 1 && ByKey(rows)[key].broker == b
  {
    var inp, key := ReaddInputs(b), PartitionKey("t", 0);
    var out := Recomputed(h, "c", 1, current, version, inp);
    OnlyRow(h, current, version, b);
    hide Recomputed, PartitionKey, ByKey;
    assert KeyOf(out.partitions[0]) == key;
    RecomputeEpochs(h, Computed(current, inp, out, true, true), key);
    assert ByKey(out.partitions)[key] in out.partitions;
  }

  lemma OnlyRow(h: Hashes, current: Option<Assignment>, version: int, b: string)
    requires PartsOf(current) == []
    ensures var out := Recomputed(h, "c", 1, current, version, ReaddInputs(b));
            && |out.partitions| == 1 && out.partitions[0].topic == "t" && out.partitions[0].partition == 0 && out.partitions[0].broker == b
            && out.controller == "c" && out.controllerEpoch == 1 && out.version == version
  {
    var inp := ReaddInputs(b);
    assert Catalogue(inp.topics) == [("t", 0)];
    hide Balanced, EpochFloor, BrokerRows, BalancedGroups;
    BalanceCovers([], inp.alive, inp.topics, EpochFloor(inp.manifests, Catalogue(inp.topics), []), h.score);
  }

  // ---- brokers never go back ----

  /** Where in the run a broker's snapshot was published. */
  ghost predicate At(h: Hashes, events: seq<Event>, v: Coordinator.View, k: nat) {
    var trace := Run(h, events).trace;
    k < |trace| && trace[k].published && v == Coordinator.View(Some(trace[k].out), trace[k].out.version)
  }

  /**
   A broker going by the file published at `i` polls and reads the one
   published at `k`: it applies it exactly when that is a later one that
   the lease does not fence off. So its snapshots only move forward.
   */
  lemma PollMovesForward(h: Hashes, events: seq<Event>, v: Coordinator.View, i: nat, k: nat, leaseEpoch: int)
    requires At(h, events, v, i)
    requires i <= k < |Run(h, events).trace| && Run(h, events).trace[k].published
    ensures var file := Run(h, events).trace[k].out;
            var after := Coordinator.Poll(v, Some(file), leaseEpoch);
            if i < k && file.controllerEpoch >= leaseEpoch then At(h, events, after, k) else after == v
  {
    hide Run;
    if i < k {
      VersionsRise(h, events, i, k);
    }
  }

  /** A broker's polls: which published file each one polls, if any, and the lease epoch it knows. */
  datatype PollRead = PollRead(file: Option<nat>, leaseEpoch: int)

  /** Polls read published files, later ones later. */
  ghost predicate InOrder(trace: seq<Computed>, polls: seq<PollRead>) {
    && (forall n :: 0 <= n < |polls| && polls[n].file.Some? ==> polls[n].file.value < |trace| && trace[polls[n].file.value].published)
    && (forall m, n :: 0 <= m < n < |polls| && polls[m].file.Some? && polls[n].file.Some? ==> polls[m].file.value <= polls[n].file.value)
  }

  ghost function ReadingsOf(trace: seq<Computed>, polls: seq<PollRead>): (rs: seq<Coordinator.Reading>)
    requires InOrder(trace, polls)
    ensures |rs| == |polls|
  {
    seq(|polls|, n requires 0 <= n < |polls| =>
      Coordinator.Reading(if polls[n].file.Some? then Some(trace[polls[n].file.value].out) else None, polls[n].leaseEpoch))
  }

  /** The last file that is later than the one applied before it and not fenced off. */
  ghost function Applied(trace: seq<Computed>, polls: seq<PollRead>): Option<nat>
    requires InOrder(trace, polls)
  {
    if polls == [] then None
    else
      var before, last := Applied(trace, polls[..|polls| - 1]), polls[|polls| - 1];
      if last.file.Some? && trace[last.file.value].out.controllerEpoch >= last.leaseEpoch && (before.None? || before.value < last.file.value)
      then last.file
      else before
  }

  lemma {:induction false} AppliedIsRead(trace: seq<Computed>, polls: seq<PollRead>)
    requires InOrder(trace, polls) && Applied(trace, polls).Some?
    ensures exists n :: 0 <= n < |polls| && polls[n].file == Applied(trace, polls)
  {
    var n := |polls| - 1;
    if Applied(trace, polls) != polls[n].file {
      AppliedIsRead(trace, polls[..n]);
      var m :| 0 <= m < n && polls[..n][m].file == Applied(trace, polls[..n]);
      assert polls[m].file == Applied(trace, polls);
    }
  }

  lemma InOrderPrefix(trace: seq<Computed>, polls: seq<PollRead>, n: nat)
    requires InOrder(trace, polls) && n <= |polls|
    ensures InOrder(trace, polls[..n])
  {
  }

  /** The place of a broker in the run never falls from one poll to a later one. */
  lemma {:induction false} AppliedNeverFalls(trace: seq<Computed>, polls: seq<PollRead>, n: nat)
    requires InOrder(trace, polls) && n <= |polls|
    ensures InOrder(trace, polls[..n])
    ensures Applied(trace, polls[..n]).Some? ==>
              Applied(trace, polls).Some? && Applied(trace, polls[..n]).value <= Applied(trace, polls).value
  {
    InOrderPrefix(trace, polls, n);
    if n < |polls| {
      InOrderPrefix(trace, polls, |polls| - 1);
      hide InOrder;
      AppliedNeverFalls(trace, polls[..|polls| - 1], n);
      assert polls[..|polls| - 1][..n] == polls[..n];
    } else {
      assert polls[..n] == polls;
    }
  }

  /** A broker's view after some polls, in terms of the run. */
  ghost predicate Follows(h: Hashes, events: seq<Event>, v: Coordinator.View, k: Option<nat>) {
    match k
    case None => v == Coordinator.View(None, 0)
    case Some(i) => At(h, events, v, i)
  }

  /**
   Over any sequence of polls from the start, whatever the lease says and
   whichever reads fail, a broker goes by the last file that was later
   than its own and not fenced off.
   */
  lemma {:induction false} PollsMoveForward(h: Hashes, events: seq<Event>, polls: seq<PollRead>)
    requires InOrder(Run(h, events).trace, polls)
    ensures var trace := Run(h, events).trace;
            Follows(h, events, Coordinator.Polls(Coordinator.View(None, 0), ReadingsOf(trace, polls)), Applied(trace, polls))
  {
    hide Run;
    if polls != [] {
      var trace, n := Run(h, events).trace, |polls| - 1;
      InOrderPrefix(trace, polls, n);
      PollsMoveForward(h, events, polls[..n]);
      assert ReadingsOf(trace, polls)[..n] == ReadingsOf(trace, polls[..n]);
      var v, before := Coordinator.Polls(Coordinator.View(None, 0), ReadingsOf(trace, polls[..n])), Applied(trace, polls[..n]);
      if before.Some? && polls[n].file.Some? {
        AppliedIsRead(trace, polls[..n]);
        assert before.value <= polls[n].file.value;
      }
      hide Coordinator.Poll, Coordinator.Accepts;
      OnePoll(h, events, v, before, polls[n]);
    }
  }

  lemma OnePoll(h: Hashes, events: seq<Event>, v: Coordinator.View, before: Option<nat>, p: PollRead)
    requires Follows(h, events, v, before)
    requires p.file.Some? ==> p.file.value < |Run(h, events).trace| && Run(h, events).trace[p.file.value].published
    requires p.file.Some? && before.Some? ==> before.value <= p.file.value
    ensures var trace := Run(h, events).trace;
            var file := if p.file.Some? then Some(trace[p.file.value].out) else None;
            var takes := p.file.Some? && trace[p.file.value].out.controllerEpoch >= p.leaseEpoch && (before.None? || before.value < p.file.value);
            Follows(h, events, Coordinator.Poll(v, file, p.leaseEpoch), if takes then p.file else before)
  {
    hide Run;
    if p.file.Some? && before.Some? {
      PollMovesForward(h, events, v, before.value, p.file.value, p.leaseEpoch);
    }
  }

  // ---- groups stay with their coordinators ----

  ghost predicate SameRows(trace: seq<Computed>, i: nat, k: nat)
    requires i <= k < |trace|
  {
    forall m :: i <= m <= k ==> trace[m].out.brokers == trace[i].out.brokers
  }

  lemma RecomputedGroups(h: Hashes, c: Computed)
    requires c.out == Recomputed(h, c.out.controller, c.out.controllerEpoch, c.prev, c.out.version, c.inp)
    ensures c.out.groups == BalancedGroups(h.key, GroupsOf(c.prev), c.out.brokers, c.inp.groups)
    ensures SomeAlive(c.out.brokers) ==> EachGroupOnce(c.out.groups) && AllOnAlive(c.out.groups, c.out.brokers)
  {
    if SomeAlive(c.out.brokers) {
      RecomputeKeepsRowsSound(h.key, GroupsOf(c.prev), c.out.brokers, c.inp.groups);
    }
  }

  /**
   While the broker rows stay the same, no recompute of any stint moves
   any group, whatever groups are reported in the meantime.
   */
  lemma {:induction false} GroupsStayPut(h: Hashes, events: seq<Event>, i: nat, k: nat, g: string)
    requires i <= k < |Run(h, events).trace| && Run(h, events).trace[i].published
    requires SameRows(Run(h, events).trace, i, k) && SomeAlive(Run(h, events).trace[i].out.brokers)
    ensures GroupRouting.Coordinator(h.key, Run(h, events).trace[k].out, g)
         == GroupRouting.Coordinator(h.key, Run(h, events).trace[i].out, g)
    decreases k
  {
    hide Recomputed;
    if i < k {
      RunIsWellTraced(h, events);
      var trace := Run(h, events).trace;
      hide Run, GroupRouting.Coordinator;
      assert Chained(h, trace, k);
      var j := PredecessorIsLate(h, trace, i, k);
      assert Chained(h, trace, j);
      RecomputedGroups(h, trace[j]);
      RecomputedGroups(h, trace[k]);
      assert trace[j].out.brokers == trace[i].out.brokers == trace[k].out.brokers;
      RecomputeMovesNoGroup(h.key, trace[j].out, trace[k].out, trace[k].inp.groups, g);
      GroupsStayPut(h, events, i, j, g);
    }
  }
}
