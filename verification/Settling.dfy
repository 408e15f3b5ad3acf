/**
 What the controller's runs do to the layout when the brokers stand: with
 the same catalogue it settles and then stays, and a catalogue that only
 grows moves nothing. The epoch floor is the one each recompute reads from
 the manifests at its own time.
 */
module Settling {
  import opened Layout
  import opened Assignments
  import opened Balance
  import opened Controller
  import opened Convergence
  import Ordering
  import Placement

  // ---- the floor of a recompute ----

  /** The floor names no assigned partition. */
  lemma FloorSparesAssigned(manifests: map<string, int>, names: seq<(string, int)>, prev: seq<PartitionRow>)
    ensures FloorRespected(ByKey(prev), EpochFloor(manifests, names, prev))
  {
    hide ByKey;
    EpochFloorIs(manifests, names, prev);
  }

  /** Once the whole catalogue is assigned there is no floor. */
  lemma NoFloorWhenCovered(manifests: map<string, int>, prev: seq<PartitionRow>, brokers: seq<string>, topics: seq<TopicSpec>)
    requires Covers(prev, brokers, topics)
    ensures EpochFloor(manifests, Catalogue(topics), prev) == map[]
  {
    hide Catalogue, ByKey;
    forall i | 0 <= i < |prev|
      ensures PartitionKey(Catalogue(topics)[i].0, Catalogue(topics)[i].1) in ByKey(prev)
    {
      assert KeyOf(prev[i]) in ByKey(prev);
    }
    assert forall k :: k in Keys(Catalogue(topics)) ==> k in ByKey(prev);
    EpochFloorIs(manifests, Catalogue(topics), prev);
    hide EpochFloor;
    assert EpochFloor(manifests, Catalogue(topics), prev).Keys == {};
  }

  /** Only which brokers there are matters, not the order they are listed in. */
  lemma BrokersInAnyOrder(prev: seq<PartitionRow>, a: seq<string>, b: seq<string>, topics: seq<TopicSpec>,
                          floor: map<string, nat>, score: Score)
    requires multiset(a) == multiset(b)
    ensures Balanced(prev, a, topics, floor, score) == Balanced(prev, b, topics, floor, score)
    ensures Members(a) == Members(b) && (a == [] <==> b == [])
  {
    Ordering.SortForgetsOrder(a, b);
    assert forall x :: x in a <==> x in multiset(a);
    assert forall x :: x in b <==> x in multiset(b);
    assert |a| == |multiset(a)| == |multiset(b)| == |b|;
  }

  /** The partitions a recompute of a run comes out with. */
  lemma OutIs(h: Hashes, c: Computed)
    requires c.out == Recomputed(h, c.out.controller, c.out.controllerEpoch, c.prev, c.out.version, c.inp)
    ensures c.out.partitions ==
            Balanced(PartsOf(c.prev), c.inp.alive, c.inp.topics, EpochFloor(c.inp.manifests, Catalogue(c.inp.topics), PartsOf(c.prev)), h.score)
  {
    hide Balanced, EpochFloor, Catalogue;
  }

  ghost predicate Usable(inp: Inputs) {
    inp.alive != [] && Placement.UNPLACED !in inp.alive && DistinctNames(inp.topics)
  }

  // ---- the same brokers and catalogue ----

  /** From entry `i` to entry `k` every recompute sees the same brokers and the same catalogue. */
  ghost predicate Standing(trace: seq<Computed>, i: nat, k: nat)
    requires i <= k < |trace|
  {
    forall j :: i <= j <= k ==> multiset(trace[j].inp.alive) == multiset(trace[i].inp.alive) && trace[j].inp.topics == trace[i].inp.topics
  }

  /** The layout an entry leads to: its own, balanced once more. */
  ghost function Settlement(h: Hashes, c: Computed): seq<PartitionRow> {
    Balanced(c.out.partitions, c.inp.alive, c.inp.topics, map[], h.score)
  }

  lemma SettlementIsSettled(h: Hashes, c: Computed)
    requires c.out == Recomputed(h, c.out.controller, c.out.controllerEpoch, c.prev, c.out.version, c.inp) && Usable(c.inp)
    ensures Covers(c.out.partitions, c.inp.alive, c.inp.topics) && Covers(Settlement(h, c), c.inp.alive, c.inp.topics)
    ensures Placement.Settled(LayoutOf(Settlement(h, c)), Members(c.inp.alive))
    ensures Balanced(Settlement(h, c), c.inp.alive, c.inp.topics, map[], h.score) == Settlement(h, c)
  {
    OutIs(h, c);
    hide Balanced, Recomputed, Covers, TopicsLevel, Placement.Settled, EpochFloor, Catalogue;
    BalancedCoversLevel(PartsOf(c.prev), c.inp.alive, c.inp.topics, EpochFloor(c.inp.manifests, Catalogue(c.inp.topics), PartsOf(c.prev)), h.score);
    LevelTopicsSettle(c.out.partitions, c.inp.alive, c.inp.topics, map[], h.score);
    SettledIsFixedPoint(Settlement(h, c), c.inp.alive, c.inp.topics, map[], h.score);
  }

  /**
   While brokers and catalogue stand, every recompute after a published
   one, in its stint or a later one, published or not, comes out with one
   and the same settled layout, epochs included.
   */
  lemma {:induction false} StandingRunSettles(h: Hashes, events: seq<Event>, i: nat, k: nat)
    requires i < k < |Run(h, events).trace| && Run(h, events).trace[i].published
    requires Standing(Run(h, events).trace, i, k) && Usable(Run(h, events).trace[i].inp)
    ensures var trace := Run(h, events).trace;
            && trace[k].out.partitions == Settlement(h, trace[i])
            && Placement.Settled(LayoutOf(trace[k].out.partitions), Members(trace[k].inp.alive))
    decreases k
  {
    hide Recomputed, Settlement, Covers, Placement.Settled, Balanced, Run;
    RunIsWellTraced(h, events);
    var trace := Run(h, events).trace;
    assert Chained(h, trace, k) && Chained(h, trace, i);
    var j := PredecessorIsLate(h, trace, i, k);
    SettlementIsSettled(h, trace[i]);
    if j > i {
      assert Standing(trace, i, j);
      StandingRunSettles(h, events, i, j);
    }
    StandingStep(h, trace[i], trace[j], trace[k]);
  }

  lemma StandingStep(h: Hashes, start: Computed, before: Computed, now: Computed)
    requires now.out == Recomputed(h, now.out.controller, now.out.controllerEpoch, now.prev, now.out.version, now.inp)
    requires now.prev == Some(before.out) && (before == start || before.out.partitions == Settlement(h, start))
    requires multiset(now.inp.alive) == multiset(start.inp.alive) && now.inp.topics == start.inp.topics
    requires Covers(start.out.partitions, start.inp.alive, start.inp.topics) && Covers(Settlement(h, start), start.inp.alive, start.inp.topics)
    requires Placement.Settled(LayoutOf(Settlement(h, start)), Members(start.inp.alive))
    requires Balanced(Settlement(h, start), start.inp.alive, start.inp.topics, map[], h.score) == Settlement(h, start)
    ensures now.out.partitions == Settlement(h, start)
    ensures Placement.Settled(LayoutOf(now.out.partitions), Members(now.inp.alive))
  {
    OutIs(h, now);
    hide Recomputed, Balanced, Covers, EpochFloor, Catalogue, Placement.Settled;
    NoFloorWhenCovered(now.inp.manifests, before.out.partitions, start.inp.alive, start.inp.topics);
    BrokersInAnyOrder(before.out.partitions, now.inp.alive, start.inp.alive, start.inp.topics, map[], h.score);
  }

  // ---- a growing catalogue ----

  /** From entry `i` to entry `k` the brokers stand, and topics, wherever they are listed, only come. */
  ghost predicate Growing(trace: seq<Computed>, i: nat, k: nat)
    requires i <= k < |trace|
  {
    && (forall j :: i <= j <= k ==> multiset(trace[j].inp.alive) == multiset(trace[i].inp.alive) && DistinctNames(trace[j].inp.topics))
    && (forall a, b :: i <= a <= b <= k ==> Includes(trace[b].inp.topics, trace[a].inp.topics))
  }

  /**
   From a settled published assignment on, while the brokers stand and
   topics only come, no recompute moves a partition or changes an epoch,
   and every layout is settled again.
   */
  lemma {:induction false} GrowingRunMovesNothing(h: Hashes, events: seq<Event>, i: nat, k: nat)
    requires i <= k < |Run(h, events).trace| && Run(h, events).trace[i].published
    requires Growing(Run(h, events).trace, i, k) && Usable(Run(h, events).trace[i].inp)
    requires Placement.Settled(LayoutOf(Run(h, events).trace[i].out.partitions), Members(Run(h, events).trace[i].inp.alive))
    ensures var trace := Run(h, events).trace;
            Extends(trace[i], trace[k])
    decreases k
  {
    hide Recomputed, Covers, Placement.Settled, Extends, Run;
    RunIsWellTraced(h, events);
    var trace := Run(h, events).trace;
    assert Chained(h, trace, k);
    if i == k {
      ExtendsItself(h, trace[i]);
    } else {
      var j := PredecessorIsLate(h, trace, i, k);
      assert Growing(trace, i, j);
      GrowingRunMovesNothing(h, events, i, j);
      GrowingStep(h, trace[i], trace[j], trace[k]);
    }
  }

  /** The later assignment covers its catalogue, is settled, and has every row of the earlier one under its key. */
  ghost predicate Extends(was: Computed, now: Computed) {
    && Covers(now.out.partitions, was.inp.alive, now.inp.topics)
    && Placement.Settled(LayoutOf(now.out.partitions), Members(was.inp.alive))
    && forall r :: r in was.out.partitions ==>
         r in now.out.partitions && KeyOf(r) in ByKey(now.out.partitions) && ByKey(now.out.partitions)[KeyOf(r)] == r
  }

  lemma ExtendsItself(h: Hashes, c: Computed)
    requires c.out == Recomputed(h, c.out.controller, c.out.controllerEpoch, c.prev, c.out.version, c.inp) && Usable(c.inp)
    requires Placement.Settled(LayoutOf(c.out.partitions), Members(c.inp.alive))
    ensures Extends(c, c)
  {
    hide Recomputed, Settlement, Covers, Placement.Settled, ByKey;
    SettlementIsSettled(h, c);
    CoversListsOnce(c.out.partitions, c.inp.alive, c.inp.topics);
    RowsFoundByKey(c.out.partitions);
  }

  lemma RowsFoundByKey(rows: seq<PartitionRow>)
    requires ListsEachOnce(rows)
    ensures forall r :: r in rows ==> KeyOf(r) in ByKey(rows) && ByKey(rows)[KeyOf(r)] == r
  {
    hide ByKey, KeyOf;
    forall r | r in rows
      ensures KeyOf(r) in ByKey(rows) && ByKey(rows)[KeyOf(r)] == r
    {
      var i :| 0 <= i < |rows| && rows[i] == r;
      ByKeyFindsRow(rows, i);
    }
  }

  lemma GrowingStep(h: Hashes, start: Computed, before: Computed, now: Computed)
    requires now.out == Recomputed(h, now.out.controller, now.out.controllerEpoch, now.prev, now.out.version, now.inp)
    requires now.prev == Some(before.out) && Extends(start, before) && Usable(start.inp)
    requires multiset(now.inp.alive) == multiset(start.inp.alive)
    requires DistinctNames(now.inp.topics) && DistinctNames(before.inp.topics) && Includes(now.inp.topics, before.inp.topics)
    ensures Extends(start, now)
  {
    OutIs(h, now);
    hide Recomputed, Balanced, Covers, EpochFloor, Catalogue, Placement.Settled, ByKey, FloorRespected;
    var rows, floor := before.out.partitions, EpochFloor(now.inp.manifests, Catalogue(now.inp.topics), before.out.partitions);
    FloorSparesAssigned(now.inp.manifests, Catalogue(now.inp.topics), rows);
    BrokersInAnyOrder(rows, now.inp.alive, start.inp.alive, now.inp.topics, floor, h.score);
    AddingTopicsMovesNothing(rows, start.inp.alive, before.inp.topics, now.inp.topics, floor, h.score);
  }

  /** The first assignment of all is settled. */
  lemma FirstIsSettled(h: Hashes, events: seq<Event>)
    requires Run(h, events).trace != [] && Usable(Run(h, events).trace[0].inp)
    ensures var first := Run(h, events).trace[0];
            Placement.Settled(LayoutOf(first.out.partitions), Members(first.inp.alive))
  {
    RunIsWellTraced(h, events);
    var first := Run(h, events).trace[0];
    assert Chained(h, Run(h, events).trace, 0);
    assert LastPublished(Run(h, events).trace[..0]) == None;
    hide Run, Chained;
    OutIs(h, first);
    hide Recomputed, Balanced, EpochFloor, Catalogue, Placement.Settled;
    FreshIsSettled(first.inp.alive, first.inp.topics, EpochFloor(first.inp.manifests, Catalogue(first.inp.topics), []), h.score);
  }

  /** So a cluster that starts from nothing and only gains topics never moves a partition. */
  lemma GrowingFromNothing(h: Hashes, events: seq<Event>, k: nat)
    requires k < |Run(h, events).trace| && Run(h, events).trace[0].published
    requires Growing(Run(h, events).trace, 0, k) && Usable(Run(h, events).trace[0].inp)
    ensures Extends(Run(h, events).trace[0], Run(h, events).trace[k])
  {
    hide Run, Placement.Settled, Extends;
    FirstIsSettled(h, events);
    GrowingRunMovesNothing(h, events, 0, k);
  }
}
