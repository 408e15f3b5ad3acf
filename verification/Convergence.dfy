/**
 What recomputing the balance does over time: a fresh cluster comes out
 level, a level layout is a fixed point that new topics join without
 moving anything, and whatever the balancer produced, running it once
 more on its own output ends in such a layout.
 */
module Convergence {
  import opened Totals
  import opened Levelling
  import opened Layout
  import opened Assignments
  import opened Balance
  import Ordering
  import Slices
  import Placement
  import Smoothing
  import PerTopic

  /** Assignment rows seen as a layout. */
  ghost function LayoutOf(rows: seq<PartitionRow>): (s: seq<Slot>)
    ensures |s| == |rows|
    ensures forall i :: 0 <= i < |s| ==> s[i] == Slot(rows[i].topic, rows[i].partition, rows[i].broker, true)
  {
    seq(|rows|, i requires 0 <= i < |rows| => Slot(rows[i].topic, rows[i].partition, rows[i].broker, true))
  }

  ghost predicate TopicsLevel(s: seq<Slot>, bs: set<string>) {
    forall t: string :: Level(Table(s, Some(t), bs))
  }

  /** The same topics on the same brokers. */
  ghost predicate SamePlaces(s: seq<Slot>, r: seq<Slot>) {
    |s| == |r| && forall i :: 0 <= i < |s| ==> s[i].topic == r[i].topic && s[i].broker == r[i].broker
  }

  lemma {:induction false} SamePlacesSameCount(s: seq<Slot>, r: seq<Slot>, w: Where)
    requires SamePlaces(s, r)
    ensures Count(s, w) == Count(r, w)
  {
    if s != [] {
      SamePlacesSameCount(s[..|s| - 1], r[..|s| - 1], w);
    }
  }

  lemma SamePlacesSameTable(s: seq<Slot>, r: seq<Slot>, topic: Option<string>, bs: set<string>)
    requires SamePlaces(s, r)
    ensures Table(s, topic, bs) == Table(r, topic, bs)
  {
    forall b | b in bs
      ensures Count(s, Where(topic, Some(b))) == Count(r, Where(topic, Some(b)))
    {
      SamePlacesSameCount(s, r, Where(topic, Some(b)));
    }
  }

  lemma SamePlacesLevel(s: seq<Slot>, r: seq<Slot>, bs: set<string>)
    requires SamePlaces(s, r)
    ensures TopicsLevel(s, bs) <==> TopicsLevel(r, bs)
    ensures Placement.Settled(s, bs) <==> Placement.Settled(r, bs)
  {
    hide Table, Level;
    SamePlacesSameTable(s, r, None, bs);
    forall t: string
      ensures Table(s, Some(t), bs) == Table(r, Some(t), bs)
    {
      SamePlacesSameTable(s, r, Some(t), bs);
    }
    assert TopicsLevel(s, bs) ==> TopicsLevel(r, bs);
  }

  lemma SortedMembers(brokers: seq<string>)
    ensures Members(Ordering.Sort(brokers)) == Members(brokers) && |Ordering.Sort(brokers)| == |brokers|
  {
    Ordering.SortMembers(brokers);
  }

  /** The rows the balancer hands out say what it decided. */
  lemma RowsShowDecision(prev: seq<PartitionRow>, brokers: seq<string>, topics: seq<TopicSpec>,
                         floor: map<string, nat>, score: Score)
    requires brokers != []
    ensures SamePlaces(LayoutOf(Balanced(prev, brokers, topics, floor, score)), Decided(prev, brokers, topics, score))
  {
    hide Arranged, Catalogue;
    var alive, m, r := Ordering.Sort(brokers), ByKey(prev), Decided(prev, brokers, topics, score);
    forall i | 0 <= i < |r|
      ensures var row := Stamp(m, alive, floor, r[i]); row.topic == r[i].topic && row.broker == r[i].broker
    {
      StampKeepsName(m, alive, floor, r[i]);
    }
  }

  // ---- every output is level topic by topic ----

  lemma TopicsLevelledIsLevel(s: seq<Slot>, alive: seq<string>)
    requires alive != []
    ensures TopicsLevel(TopicsLevelled(s, alive), Members(alive))
  {
    hide PerTopic.Levelled, PerTopic.TopicList, TopicsLevel;
    if |alive| < 2 {
      OneBrokerIsLevel(s, alive);
    } else {
      hide SameSlots, AllOn, PerTopic.EveryTopicLevel;
      PerTopic.LevelledIsLevel(s, alive, PerTopic.TopicList(s), PerTopic.AtLeastAsHeavy);
      EveryTopicIsAll(s, TopicsLevelled(s, alive), alive);
    }
  }

  lemma OneBrokerIsLevel(s: seq<Slot>, alive: seq<string>)
    requires |alive| == 1
    ensures TopicsLevel(s, Members(alive))
  {
    hide Count;
    assert forall b :: b in Members(alive) ==> b == alive[0];
  }

  /** Topics that are not there are level, too. */
  lemma EveryTopicIsAll(s: seq<Slot>, r: seq<Slot>, alive: seq<string>)
    requires SameSlots(s, r) && PerTopic.EveryTopicLevel(r, alive, PerTopic.TopicList(s))
    ensures TopicsLevel(r, Members(alive))
  {
    hide PerTopic.TopicList, Table, Level, SameSlots;
    forall t: string
      ensures Level(Table(r, Some(t), Members(alive)))
    {
      if t !in PerTopic.TopicList(s) {
        AbsentTopicLevel(s, r, t, Members(alive));
      }
    }
  }

  lemma AbsentTopicLevel(s: seq<Slot>, r: seq<Slot>, t: string, bs: set<string>)
    requires SameSlots(s, r) && t !in PerTopic.TopicList(s)
    ensures Level(Table(r, Some(t), bs))
  {
    assert t !in PerTopic.TopicsOf(s) by {
      assert t !in Members(PerTopic.TopicList(s));
    }
    forall b | b in bs
      ensures Count(r, Where(Some(t), Some(b))) == 0
    {
      forall i | 0 <= i < |r|
        ensures r[i].topic != t
      {
        assert s[i].topic in PerTopic.TopicsOf(s);
      }
      CountZero(r, Where(Some(t), Some(b)));
    }
  }

  /**
   Whatever the previous assignment: no topic's partitions are spread
   more than one apart over the alive brokers, and two brokers differ
   overall by at most one partition per topic that cannot be shared out
   evenly.
   */
  lemma BalanceLevelsTopics(prev: seq<PartitionRow>, brokers: seq<string>, topics: seq<TopicSpec>,
                            floor: map<string, nat>, score: Score)
    requires brokers != []
    ensures var s, bs := LayoutOf(Balanced(prev, brokers, topics, floor, score)), Members(brokers);
            && TopicsLevel(s, bs) && AllOn(s, bs) && |bs| > 0
            && forall a, b :: a in bs && b in bs ==>
                 CountOn(s, a) - CountOn(s, b) <= |PerTopic.Ragged(s, PerTopic.TopicsOf(s), |bs|)|
  {
    hide Decided, Balanced, Catalogue, Table, Level, Count;
    var s, bs := LayoutOf(Balanced(prev, brokers, topics, floor, score)), Members(brokers);
    RowsShowDecision(prev, brokers, topics, floor, score);
    BalanceCovers(prev, brokers, topics, floor, score);
    DecidedIsLevel(prev, brokers, topics, score);
    SamePlacesLevel(s, Decided(prev, brokers, topics, score), bs);
    assert brokers[0] in bs;
    assert AllOn(s, bs);
    hide TopicsLevel, AllOn, LayoutOf;
    LevelTopicsGap(s, bs);
  }

  lemma DecidedIsLevel(prev: seq<PartitionRow>, brokers: seq<string>, topics: seq<TopicSpec>, score: Score)
    requires brokers != []
    ensures TopicsLevel(Decided(prev, brokers, topics, score), Members(brokers))
  {
    hide Smoothing.Smoothed, TopicsLevelled, Placement.Placed, Catalogue, TopicsLevel, Pinned;
    var alive := Ordering.Sort(brokers);
    SortedMembers(brokers);
    var pinned := Pinned(ByKey(prev), alive, Catalogue(topics));
    TopicsLevelledIsLevel(Smoothing.Smoothed(Placement.Placed(pinned, alive, score), alive, score), alive);
  }

  lemma LevelTopicsGap(s: seq<Slot>, bs: set<string>)
    requires TopicsLevel(s, bs) && AllOn(s, bs)
    ensures forall a, b :: a in bs && b in bs ==>
              CountOn(s, a) - CountOn(s, b) <= |PerTopic.Ragged(s, PerTopic.TopicsOf(s), |bs|)|
  {
    hide Table, Level, Count, AllOn;
    forall a, b | a in bs && b in bs
      ensures CountOn(s, a) - CountOn(s, b) <= |PerTopic.Ragged(s, PerTopic.TopicsOf(s), |bs|)|
    {
      PerTopic.ClusterGapAtMostRagged(s, PerTopic.TopicsOf(s), bs, a, b);
    }
  }

  // ---- a level layout is left alone, and new topics join it ----

  lemma {:induction false} NothingToPlace(s: seq<Slot>, k: nat, alive: seq<string>, score: Score)
    requires k <= |s| && alive != [] && forall i :: 0 <= i < |s| ==> s[i].broker != Placement.UNPLACED
    ensures Placement.PlacedUpTo(s, k, alive, score) == s
  {
    if k > 0 {
      NothingToPlace(s, k - 1, alive, score);
    }
  }

  lemma SettledPassesThrough(s: seq<Slot>, alive: seq<string>, score: Score)
    requires alive != [] && Placement.Settled(s, Members(alive))
    ensures TopicsLevelled(Smoothing.Smoothed(s, alive, score), alive) == s
  {
    Smoothing.SmoothedKeepsLevel(s, alive, score);
    if |alive| >= 2 {
      PerTopic.LevelledKeepsLevel(s, alive, PerTopic.TopicList(s), PerTopic.AtLeastAsHeavy);
    }
  }

  /** Whole topics joining a level layout are placed, and neither smoothing pass moves anything. */
  lemma JoinLayout(s: seq<Slot>, alive: seq<string>, score: Score)
    requires alive != [] && Placement.UNPLACED !in alive
    requires Placement.Settled(s, Members(alive)) && Placement.Grouped(s) && Placement.WholeTopics(s, 0)
    ensures Arranged(s, alive, score) == Placement.Placed(s, alive, score)
    ensures Placement.Settled(Arranged(s, alive, score), Members(alive))
  {
    Placement.PlacementStaysSettled(s, |s|, alive, score);
    SettledPassesThrough(Placement.Placed(s, alive, score), alive, score);
  }

  lemma PinnedGrouped(prev: map<string, PartitionRow>, alive: seq<string>, topics: seq<TopicSpec>)
    requires DistinctNames(topics)
    ensures Placement.Grouped(Pinned(prev, alive, Catalogue(topics)))
  {
    CatalogueShape(topics);
    hide Catalogue;
  }

  /** The surviving leaders form a level layout, and no topic has survived in part. */
  ghost predicate SurvivorsSettled(prev: seq<PartitionRow>, brokers: seq<string>, topics: seq<TopicSpec>) {
    var pinned := Pinned(ByKey(prev), Ordering.Sort(brokers), Catalogue(topics));
    Placement.Settled(pinned, Members(brokers)) && Placement.WholeTopics(pinned, 0)
  }

  /** The floor does not lie above an epoch already assigned. */
  ghost predicate FloorRespected(prev: map<string, PartitionRow>, floor: map<string, nat>) {
    forall k :: k in prev && k in floor ==> floor[k] <= prev[k].epoch
  }

  /** Then no surviving partition moves or changes its epoch, and the result is level again. */
  lemma JoinTopics(prev: seq<PartitionRow>, brokers: seq<string>, topics: seq<TopicSpec>,
                   floor: map<string, nat>, score: Score)
    requires brokers != [] && Placement.UNPLACED !in brokers && DistinctNames(topics)
    requires SurvivorsSettled(prev, brokers, topics) && FloorRespected(ByKey(prev), floor)
    ensures var rows, m := Balanced(prev, brokers, topics, floor, score), ByKey(prev);
            && |rows| == |Catalogue(topics)|
            && Placement.Settled(LayoutOf(rows), Members(brokers))
            && forall i :: 0 <= i < |rows| ==>
                 var key := PartitionKey(Catalogue(topics)[i].0, Catalogue(topics)[i].1);
                 key in m && m[key].broker in brokers ==> rows[i] == m[key]
  {
    var alive, m, names := Ordering.Sort(brokers), ByKey(prev), Catalogue(topics);
    SortedMembers(brokers);
    Ordering.SortMembers(brokers);
    var s := Pinned(m, alive, names);
    PinnedGrouped(m, alive, topics);
    JoinLayout(s, alive, score);
    RowsShowDecision(prev, brokers, topics, floor, score);
    SamePlacesLevel(LayoutOf(Balanced(prev, brokers, topics, floor, score)), Decided(prev, brokers, topics, score), Members(brokers));
    Placement.PlacedUpToFrame(s, |s|, alive, score);
    hide Catalogue, Placement.PlacedUpTo, Arranged, Placement.Settled;
    var rows := Balanced(prev, brokers, topics, floor, score);
    forall i | 0 <= i < |rows|
      ensures var key := PartitionKey(names[i].0, names[i].1);
              key in m && m[key].broker in brokers ==> rows[i] == m[key]
    {
      assert rows[i] == Stamp(m, alive, floor, Decided(prev, brokers, topics, score)[i]);
    }
  }

  // ---- a fresh cluster ----

  /** With no previous assignment the greedy placement alone leaves the cluster and every topic level. */
  lemma FreshIsSettled(brokers: seq<string>, topics: seq<TopicSpec>, floor: map<string, nat>, score: Score)
    requires brokers != [] && Placement.UNPLACED !in brokers && DistinctNames(topics)
    ensures var alive, rows := Ordering.Sort(brokers), Balanced([], brokers, topics, floor, score);
            && Placement.Settled(LayoutOf(rows), Members(brokers))
            && |alive| > 0
            && SamePlaces(LayoutOf(rows), Placement.Placed(Pinned(map[], alive, Catalogue(topics)), alive, score))
            && forall i :: 0 <= i < |rows| ==> rows[i].epoch == Max(1, FloorOf(floor, KeyOf(rows[i])))
  {
    var alive := Ordering.Sort(brokers);
    SortedMembers(brokers);
    Ordering.SortMembers(brokers);
    var s := Pinned(map[], alive, Catalogue(topics));
    hide Catalogue;
    Placement.NothingPlacedIsSettled(s, Members(brokers));
    JoinTopics([], brokers, topics, floor, score);
    PinnedGrouped(map[], alive, topics);
    JoinLayout(s, alive, score);
    RowsShowDecision([], brokers, topics, floor, score);
    var rows := Balanced([], brokers, topics, floor, score);
    forall i | 0 <= i < |rows|
      ensures rows[i].epoch == Max(1, FloorOf(floor, KeyOf(rows[i])))
    {
      BalanceEpochs([], brokers, topics, floor, score, i);
    }
  }

  // ---- running the balancer again on what it produced ----

  /** The rows list the catalogue in order, all on the given brokers. */
  ghost predicate Covers(rows: seq<PartitionRow>, brokers: seq<string>, topics: seq<TopicSpec>) {
    && |rows| == |Catalogue(topics)|
    && forall i :: 0 <= i < |rows| ==>
         (rows[i].topic, rows[i].partition) == Catalogue(topics)[i] && rows[i].broker in brokers
  }

  lemma CoversListsOnce(rows: seq<PartitionRow>, brokers: seq<string>, topics: seq<TopicSpec>)
    requires Covers(rows, brokers, topics) && DistinctNames(topics)
    ensures ListsEachOnce(rows)
  {
    CatalogueShape(topics);
    hide Catalogue;
    forall i, j | 0 <= i < j < |rows|
      ensures KeyOf(rows[i]) != KeyOf(rows[j])
    {
      if KeyOf(rows[i]) == KeyOf(rows[j]) {
        PartitionKeyInjective(rows[i].topic, rows[i].partition, rows[j].topic, rows[j].partition);
        assert Catalogue(topics)[i] != Catalogue(topics)[j];
        assert false;
      }
    }
  }

  /** Then every slot is pinned where it was. */
  lemma PinnedIsLayout(rows: seq<PartitionRow>, brokers: seq<string>, topics: seq<TopicSpec>)
    requires Covers(rows, brokers, topics) && DistinctNames(topics)
    ensures Pinned(ByKey(rows), Ordering.Sort(brokers), Catalogue(topics)) == LayoutOf(rows)
  {
    CoversListsOnce(rows, brokers, topics);
    Ordering.SortMembers(brokers);
    hide Catalogue;
    forall i | 0 <= i < |rows|
      ensures Pin(ByKey(rows), Ordering.Sort(brokers), Catalogue(topics)[i]) == LayoutOf(rows)[i]
    {
      ByKeyFindsRow(rows, i);
    }
  }

  /** A level assignment is a fixed point. */
  lemma SettledIsFixedPoint(rows: seq<PartitionRow>, brokers: seq<string>, topics: seq<TopicSpec>,
                            floor: map<string, nat>, score: Score)
    requires brokers != [] && Placement.UNPLACED !in brokers && DistinctNames(topics)
    requires Covers(rows, brokers, topics) && Placement.Settled(LayoutOf(rows), Members(brokers))
    requires FloorRespected(ByKey(rows), floor)
    ensures Balanced(rows, brokers, topics, floor, score) == rows
  {
    hide Catalogue, Balanced, Placement.Settled;
    PinnedIsLayout(rows, brokers, topics);
    CoversListsOnce(rows, brokers, topics);
    JoinTopics(rows, brokers, topics, floor, score);
    var again := Balanced(rows, brokers, topics, floor, score);
    forall i | 0 <= i < |rows|
      ensures again[i] == rows[i]
    {
      ByKeyFindsRow(rows, i);
    }
  }

  /** If one broker holds more than another, so does one of the topics on it. */
  lemma LeaningTopic(s: seq<Slot>, hi: string, lo: string) returns (i: nat)
    requires CountOn(s, hi) > CountOn(s, lo)
    ensures i < |s| && s[i].broker == hi && Smoothing.HelpsTopic(s, s[i].topic, hi, lo)
  {
    hide Total;
    var ts := PerTopic.TopicsOf(s);
    var onHi, onLo := TopicTable(s, Some(hi), ts), TopicTable(s, Some(lo), ts);
    SumOverTopics(s, Some(hi), ts);
    SumOverTopics(s, Some(lo), ts);
    if forall t :: t in ts ==> onHi[t] <= onLo[t] {
      TotalMonotone(onHi, onLo);
      assert false;
    }
    var t :| t in ts && onHi[t] > onLo[t];
    CountPositive(s, Where(Some(t), Some(hi)));
    i :| 0 <= i < |s| && Where(Some(t), Some(hi)).Matches(s[i]);
  }

  /** Among slots that were all inherited, one whose topic leans the same way is moved. */
  lemma {:induction false} VictimHelps(s: seq<Slot>, score: Score, hi: string, lo: string, n: nat, j: nat)
    requires n <= |s| && j < n && s[j].broker == hi && Smoothing.HelpsTopic(s, s[j].topic, hi, lo)
    requires forall i :: 0 <= i < |s| ==> s[i].sticky
    ensures Smoothing.VictimAmong(s, score, hi, lo, n).Some?
    ensures Smoothing.HelpsTopic(s, s[Smoothing.VictimAmong(s, score, hi, lo, n).value].topic, hi, lo)
  {
    hide Count;
    if j < n - 1 {
      VictimHelps(s, score, hi, lo, n - 1, j);
    }
  }

  lemma ShiftKeepsLevel(m: Counts, a: string, b: string)
    requires Level(m) && a in m && b in m && m[a] > m[b]
    ensures Level(Shift(m, a, b))
  {
    assert m[a] == m[b] + 1;
    assert Shift(m, a, b) == m[a := m[b]][b := m[a]];
  }

  lemma MoveKeepsTopicsLevel(s: seq<Slot>, i: nat, to: string, bs: set<string>)
    requires i < |s| && s[i].broker in bs && to in bs && TopicsLevel(s, bs)
    requires Smoothing.HelpsTopic(s, s[i].topic, s[i].broker, to)
    ensures TopicsLevel(Relocate(s, i, to), bs)
  {
    forall t: string
      ensures Level(Table(Relocate(s, i, to), Some(t), bs))
    {
      assert Level(Table(s, Some(t), bs));
      RelocateTable(s, i, to, Some(t), bs);
      if t == s[i].topic {
        ShiftKeepsLevel(Table(s, Some(t), bs), s[i].broker, to);
      }
    }
  }

  /** Inherited slots whose topics are level: smoothing the cluster keeps every topic level. */
  lemma {:induction false} SmoothingKeepsTopicsLevel(s: seq<Slot>, alive: seq<string>, score: Score)
    requires TopicsLevel(s, Members(alive)) && forall i :: 0 <= i < |s| ==> s[i].sticky
    ensures TopicsLevel(Smoothing.Smoothed(s, alive, score), Members(alive))
    decreases Smoothing.Rank(s, alive)
  {
    hide Smoothing.Rank, TopicsLevel;
    Smoothing.NextMoveIsOneMove(s, alive, score);
    match Smoothing.NextMove(s, alive, score)
    case None =>
    case Some(r) =>
      NextMoveKeepsTopicsLevel(s, alive, score);
      SmoothingKeepsTopicsLevel(r, alive, score);
  }

  lemma NextMoveKeepsTopicsLevel(s: seq<Slot>, alive: seq<string>, score: Score)
    requires TopicsLevel(s, Members(alive)) && forall i :: 0 <= i < |s| ==> s[i].sticky
    requires Smoothing.NextMove(s, alive, score).Some?
    ensures TopicsLevel(Smoothing.NextMove(s, alive, score).value, Members(alive))
  {
    hide TopicsLevel;
    var m := Table(s, None, Members(alive));
    var hi, lo := Smoothing.Hi(m, alive), Smoothing.Lo(m, alive);
    var j := LeaningTopic(s, hi, lo);
    VictimHelps(s, score, hi, lo, |s|, j);
    MoveKeepsTopicsLevel(s, Smoothing.VictimAmong(s, score, hi, lo, |s|).value, lo, Members(alive));
  }

  /** Rebalancing an assignment whose topics are level makes the cluster level as well. */
  lemma LevelTopicsSettle(rows: seq<PartitionRow>, brokers: seq<string>, topics: seq<TopicSpec>,
                          floor: map<string, nat>, score: Score)
    requires brokers != [] && Placement.UNPLACED !in brokers && DistinctNames(topics)
    requires Covers(rows, brokers, topics) && TopicsLevel(LayoutOf(rows), Members(brokers))
    ensures var again := Balanced(rows, brokers, topics, floor, score);
            Placement.Settled(LayoutOf(again), Members(brokers)) && Covers(again, brokers, topics)
  {
    hide Catalogue, Arranged, Placement.Settled, TopicsLevel, Pinned, ByKey, Balanced;
    var alive, s := Ordering.Sort(brokers), LayoutOf(rows);
    SortedMembers(brokers);
    PinnedIsLayout(rows, brokers, topics);
    LevelLayoutSettles(s, alive, score);
    RowsShowDecision(rows, brokers, topics, floor, score);
    SamePlacesLevel(LayoutOf(Balanced(rows, brokers, topics, floor, score)), Arranged(s, alive, score), Members(brokers));
    BalanceCovers(rows, brokers, topics, floor, score);
  }

  /** Inherited slots with level topics come out settled. */
  lemma LevelLayoutSettles(s: seq<Slot>, alive: seq<string>, score: Score)
    requires alive != [] && TopicsLevel(s, Members(alive))
    requires forall i :: 0 <= i < |s| ==> s[i].sticky && s[i].broker != Placement.UNPLACED
    ensures Placement.Settled(Arranged(s, alive, score), Members(alive))
  {
    hide Smoothing.Smoothed, TopicsLevelled, Table, Level;
    NothingToPlace(s, |s|, alive, score);
    SmoothingKeepsTopicsLevel(s, alive, score);
    Smoothing.SmoothedIsLevel(s, alive, score);
    var q := Smoothing.Smoothed(s, alive, score);
    assert Placement.Settled(q, Members(alive));
    hide Placement.Settled, TopicsLevel;
    Smoothing.SmoothedKeepsLevel(q, alive, score);
    SettledPassesThrough(q, alive, score);
  }

  /**
   From any previous assignment at all, two recomputes with the same
   brokers and catalogue end level, and a third changes nothing. Every
   recompute has its own floor; the third must not lie above an epoch
   that has just been assigned.
   */
  lemma TwoRecomputesConverge(prev: seq<PartitionRow>, brokers: seq<string>, topics: seq<TopicSpec>,
                              floor1: map<string, nat>, floor2: map<string, nat>, floor3: map<string, nat>, score: Score)
    requires brokers != [] && Placement.UNPLACED !in brokers && DistinctNames(topics)
    ensures var first := Balanced(prev, brokers, topics, floor1, score);
            var second := Balanced(first, brokers, topics, floor2, score);
            && Placement.Settled(LayoutOf(second), Members(brokers)) && Covers(second, brokers, topics)
            && (FloorRespected(ByKey(second), floor3) ==> Balanced(second, brokers, topics, floor3, score) == second)
  {
    hide Catalogue, Balanced, Placement.Settled, FloorRespected;
    var first := Balanced(prev, brokers, topics, floor1, score);
    BalancedCoversLevel(prev, brokers, topics, floor1, score);
    LevelTopicsSettle(first, brokers, topics, floor2, score);
    var second := Balanced(first, brokers, topics, floor2, score);
    if FloorRespected(ByKey(second), floor3) {
      SettledIsFixedPoint(second, brokers, topics, floor3, score);
    }
  }

  lemma BalancedCoversLevel(prev: seq<PartitionRow>, brokers: seq<string>, topics: seq<TopicSpec>,
                            floor: map<string, nat>, score: Score)
    requires brokers != []
    ensures var rows := Balanced(prev, brokers, topics, floor, score);
            Covers(rows, brokers, topics) && TopicsLevel(LayoutOf(rows), Members(brokers))
  {
    hide Catalogue, Balanced, TopicsLevel;
    BalanceCovers(prev, brokers, topics, floor, score);
    BalanceLevelsTopics(prev, brokers, topics, floor, score);
  }

  // ---- growing the catalogue ----

  /** Every topic of the old catalogue is in the new one, wherever it stands there. */
  ghost predicate Includes(all: seq<TopicSpec>, topics: seq<TopicSpec>) {
    forall t :: t in topics ==> t in all
  }

  ghost function TopicNames(t: TopicSpec): (names: seq<(string, int)>) {
    seq(if t.partitionCount < 0 then 0 else t.partitionCount, p => (t.name, p))
  }

  lemma CatalogueSnoc(topics: seq<TopicSpec>, t: TopicSpec)
    ensures Catalogue(topics + [t]) == Catalogue(topics) + TopicNames(t)
  {
    assert (topics + [t])[..|topics|] == topics;
  }

  lemma {:induction false} CatalogueHas(topics: seq<TopicSpec>, name: (string, int))
    ensures name in Catalogue(topics) <==> exists t :: t in topics && name in TopicNames(t)
  {
    if topics != [] {
      var rest, t := topics[..|topics| - 1], topics[|topics| - 1];
      CatalogueHas(rest, name);
      CatalogueSnoc(rest, t);
      hide Catalogue, TopicNames;
      assert topics == rest + [t];
    }
  }

  // Counting the pinned slots topic by topic, in whatever order the topics stand.

  ghost function Share(prev: map<string, PartitionRow>, alive: seq<string>, t: TopicSpec, w: Where): int {
    Count(Pinned(prev, alive, TopicNames(t)), w)
  }

  ghost function Shares(prev: map<string, PartitionRow>, alive: seq<string>, topics: seq<TopicSpec>, w: Where): map<TopicSpec, int> {
    map t | t in topics :: Share(prev, alive, t, w)
  }

  lemma {:induction false} PinnedCount(prev: map<string, PartitionRow>, alive: seq<string>, topics: seq<TopicSpec>, w: Where)
    requires DistinctNames(topics)
    ensures Count(Pinned(prev, alive, Catalogue(topics)), w) == Total(Shares(prev, alive, topics, w))
  {
    hide Total, Pin, Share;
    if topics == [] {
      TotalZero(Shares(prev, alive, topics, w));
    } else {
      var rest, t := topics[..|topics| - 1], topics[|topics| - 1];
      PinnedCount(prev, alive, rest, w);
      PinnedSnoc(prev, alive, rest, t, w);
      Slices.LastOff(topics);
      var shares := Shares(prev, alive, topics, w);
      TotalSplit(shares, t);
      hide Count, Catalogue, Pinned;
      assert forall u :: u in topics <==> u in rest || u == t;
      assert t !in rest;
      assert shares - {t} == Shares(prev, alive, rest, w);
    }
  }

  lemma PinnedSnoc(prev: map<string, PartitionRow>, alive: seq<string>, topics: seq<TopicSpec>, t: TopicSpec, w: Where)
    ensures Count(Pinned(prev, alive, Catalogue(topics + [t])), w) == Count(Pinned(prev, alive, Catalogue(topics)), w) + Share(prev, alive, t, w)
  {
    CatalogueSnoc(topics, t);
    var a, b := Catalogue(topics), TopicNames(t);
    hide Catalogue, TopicNames, Pin, Count;
    CountJoin(Pinned(prev, alive, a), Pinned(prev, alive, b), w);
    assert Pinned(prev, alive, a + b) == Pinned(prev, alive, a) + Pinned(prev, alive, b);
  }

  /** Where the rows of the old catalogue leave off, nothing is pinned. */
  lemma NewTopicHasNoShare(rows: seq<PartitionRow>, alive: seq<string>, t: TopicSpec, w: Where)
    requires w.broker.Some? && w.broker.value != Placement.UNPLACED && forall r :: r in rows ==> r.topic != t.name
    ensures Share(ByKey(rows), alive, t, w) == 0
  {
    var s := Pinned(ByKey(rows), alive, TopicNames(t));
    forall i | 0 <= i < |s|
      ensures !w.Matches(s[i])
    {
      NoRowForTopic(rows, t.name, i);
    }
    CountZero(s, w);
  }

  lemma OtherTopicsName(topics: seq<TopicSpec>, all: seq<TopicSpec>, t: TopicSpec)
    requires DistinctNames(all) && Includes(all, topics) && t in all
    ensures t.name in Names(topics) <==> t in topics
  {
    if t.name in Names(topics) {
      var u :| u in topics && u.name == t.name;
      var i :| 0 <= i < |all| && all[i] == t;
      var j :| 0 <= j < |all| && all[j] == u;
      assert i == j;
    }
  }

  /** Among new topics in any order, the old rows count as they did. */
  lemma PinnedCountsOldRows(rows: seq<PartitionRow>, brokers: seq<string>, topics: seq<TopicSpec>, all: seq<TopicSpec>, w: Where)
    requires DistinctNames(all) && DistinctNames(topics) && Includes(all, topics) && Covers(rows, brokers, topics)
    requires w.broker.Some? && w.broker.value != Placement.UNPLACED
    ensures Count(Pinned(ByKey(rows), Ordering.Sort(brokers), Catalogue(all)), w) == Count(LayoutOf(rows), w)
  {
    var prev, alive := ByKey(rows), Ordering.Sort(brokers);
    PinnedIsLayout(rows, brokers, topics);
    PinnedCount(prev, alive, topics, w);
    PinnedCount(prev, alive, all, w);
    CoveredTopics(rows, brokers, topics);
    hide Total, Catalogue, Share, Pinned, ByKey, Covers;
    forall t | t in all && t !in topics
      ensures Share(prev, alive, t, w) == 0
    {
      OtherTopicsName(topics, all, t);
      NewTopicHasNoShare(rows, alive, t, w);
    }
    TotalWithoutZeros(Shares(prev, alive, all, w), Shares(prev, alive, topics, w));
  }

  lemma PinnedTable(rows: seq<PartitionRow>, brokers: seq<string>, topics: seq<TopicSpec>, all: seq<TopicSpec>, topic: Option<string>)
    requires DistinctNames(all) && DistinctNames(topics) && Includes(all, topics) && Covers(rows, brokers, topics)
    requires Placement.UNPLACED !in brokers
    ensures Table(Pinned(ByKey(rows), Ordering.Sort(brokers), Catalogue(all)), topic, Members(brokers)) == Table(LayoutOf(rows), topic, Members(brokers))
  {
    hide Count, Catalogue, Pinned, ByKey, LayoutOf, Covers;
    forall b | b in Members(brokers)
      ensures Count(Pinned(ByKey(rows), Ordering.Sort(brokers), Catalogue(all)), Where(topic, Some(b))) == Count(LayoutOf(rows), Where(topic, Some(b)))
    {
      PinnedCountsOldRows(rows, brokers, topics, all, Where(topic, Some(b)));
    }
  }

  /** A slot of the new catalogue is pinned exactly if its topic is an old one. */
  lemma PinnedIffOld(rows: seq<PartitionRow>, brokers: seq<string>, topics: seq<TopicSpec>, all: seq<TopicSpec>, name: (string, int))
    requires DistinctNames(all) && DistinctNames(topics) && Includes(all, topics) && Covers(rows, brokers, topics)
    requires Placement.UNPLACED !in brokers && name in Catalogue(all)
    ensures Pin(ByKey(rows), Ordering.Sort(brokers), name).broker != Placement.UNPLACED <==> name.0 in Names(topics)
  {
    hide Catalogue;
    Ordering.SortMembers(brokers);
    CatalogueHas(all, name);
    var t :| t in all && name in TopicNames(t);
    OtherTopicsName(topics, all, t);
    if t in topics {
      CatalogueHas(topics, name);
      var i :| 0 <= i < |rows| && Catalogue(topics)[i] == name;
      CoversListsOnce(rows, brokers, topics);
      ByKeyFindsRow(rows, i);
    } else {
      CoveredTopics(rows, brokers, topics);
      NoRowForTopic(rows, name.0, name.1);
    }
  }

  lemma NewTopicsAreWhole(rows: seq<PartitionRow>, brokers: seq<string>, topics: seq<TopicSpec>, all: seq<TopicSpec>)
    requires Placement.UNPLACED !in brokers && DistinctNames(all) && DistinctNames(topics) && Includes(all, topics)
    requires Covers(rows, brokers, topics) && Placement.Settled(LayoutOf(rows), Members(brokers))
    ensures SurvivorsSettled(rows, brokers, all)
  {
    var names := Catalogue(all);
    var s, bs := Pinned(ByKey(rows), Ordering.Sort(brokers), names), Members(brokers);
    hide Catalogue, ByKey, Pin, Table, Level, Covers, LayoutOf;
    PinnedTable(rows, brokers, topics, all, None);
    forall t: string
      ensures Level(Table(s, Some(t), bs))
    {
      PinnedTable(rows, brokers, topics, all, Some(t));
      assert Level(Table(LayoutOf(rows), Some(t), bs));
    }
    forall i | 0 <= i < |s|
      ensures s[i].topic == names[i].0
      ensures s[i].broker != Placement.UNPLACED <==> s[i].topic in Names(topics)
    {
      PinKeepsName(ByKey(rows), Ordering.Sort(brokers), names[i]);
      PinnedIffOld(rows, brokers, topics, all, names[i]);
    }
  }

  lemma PinKeepsName(prev: map<string, PartitionRow>, alive: seq<string>, name: (string, int))
    ensures Pin(prev, alive, name).topic == name.0 && Pin(prev, alive, name).partition == name.1
  {
  }

  /**
   Adding newly named topics to a level assignment, anywhere in the
   catalogue: every old row stays as it is, and the whole is level.
   */
  lemma AddingTopicsMovesNothing(rows: seq<PartitionRow>, brokers: seq<string>, topics: seq<TopicSpec>,
                                 all: seq<TopicSpec>, floor: map<string, nat>, score: Score)
    requires brokers != [] && Placement.UNPLACED !in brokers
    requires DistinctNames(all) && DistinctNames(topics) && Includes(all, topics)
    requires Covers(rows, brokers, topics) && Placement.Settled(LayoutOf(rows), Members(brokers))
    requires FloorRespected(ByKey(rows), floor)
    ensures var grown := Balanced(rows, brokers, all, floor, score);
            && Covers(grown, brokers, all)
            && Placement.Settled(LayoutOf(grown), Members(brokers))
            && forall r :: r in rows ==> r in grown && KeyOf(r) in ByKey(grown) && ByKey(grown)[KeyOf(r)] == r
  {
    var grown := Balanced(rows, brokers, all, floor, score);
    hide Catalogue, Balanced, Placement.Settled;
    CoversListsOnce(rows, brokers, topics);
    NewTopicsAreWhole(rows, brokers, topics, all);
    JoinTopics(rows, brokers, all, floor, score);
    BalanceCovers(rows, brokers, all, floor, score);
    CoversListsOnce(grown, brokers, all);
    forall r | r in rows
      ensures r in grown && KeyOf(r) in ByKey(grown) && ByKey(grown)[KeyOf(r)] == r
    {
      var i :| 0 <= i < |rows| && rows[i] == r;
      ByKeyFindsRow(rows, i);
      OldNameStays(topics, all, Catalogue(topics)[i]);
      var j :| 0 <= j < |grown| && Catalogue(all)[j] == Catalogue(topics)[i];
      assert grown[j] == r;
      ByKeyFindsRow(grown, j);
    }
  }

  lemma OldNameStays(topics: seq<TopicSpec>, all: seq<TopicSpec>, name: (string, int))
    requires Includes(all, topics) && name in Catalogue(topics)
    ensures name in Catalogue(all)
  {
    CatalogueHas(topics, name);
    CatalogueHas(all, name);
  }

  lemma CoveredTopics(rows: seq<PartitionRow>, brokers: seq<string>, topics: seq<TopicSpec>)
    requires Covers(rows, brokers, topics)
    ensures forall r :: r in rows ==> r.topic in Names(topics)
  {
    CatalogueNames(topics);
  }

  lemma NoRowForTopic(rows: seq<PartitionRow>, topic: string, partition: int)
    requires forall r :: r in rows ==> r.topic != topic
    ensures PartitionKey(topic, partition) !in ByKey(rows)
  {
    var m, key := ByKey(rows), PartitionKey(topic, partition);
    if key in m {
      PartitionKeyInjective(m[key].topic, m[key].partition, topic, partition);
      assert false;
    }
  }
}
