/**
 The partition balancer as a whole: pin the surviving leaders, place the
 rest, smooth the cluster, smooth every topic, stamp the epochs.
 */
module Balance {
  import opened Levelling
  import opened Layout
  import opened Assignments
  import Ordering
  import Placement
  import Smoothing
  import PerTopic

  datatype TopicSpec = TopicSpec(name: string, partitionCount: int)

  /** Every partition of the catalogue, topic by topic. */
  function Catalogue(topics: seq<TopicSpec>): seq<(string, int)> {
    if topics == [] then []
    else
      var n := |topics| - 1;
      var count := if topics[n].partitionCount < 0 then 0 else topics[n].partitionCount;
      Catalogue(topics[..n]) + seq(count, p => (topics[n].name, p))
  }

  predicate DistinctNames(topics: seq<TopicSpec>) {
    forall i, j :: 0 <= i < j < |topics| ==> topics[i].name != topics[j].name
  }

  /** Phase 1: a partition whose previous leader is alive stays with it. */
  function Pin(prev: map<string, PartitionRow>, alive: seq<string>, name: (string, int)): Slot {
    var key := PartitionKey(name.0, name.1);
    if key in prev && prev[key].broker in alive
    then Slot(name.0, name.1, prev[key].broker, true)
    else Slot(name.0, name.1, Placement.UNPLACED, false)
  }

  function Pinned(prev: map<string, PartitionRow>, alive: seq<string>, names: seq<(string, int)>): (s: seq<Slot>)
    ensures |s| == |names|
    ensures forall i :: 0 <= i < |s| ==> s[i] == Pin(prev, alive, names[i])
  {
    seq(|names|, i requires 0 <= i < |names| => Pin(prev, alive, names[i]))
  }

  /** Phase 3b: the per-topic pass does nothing with fewer than two brokers. */
  ghost function TopicsLevelled(s: seq<Slot>, alive: seq<string>): seq<Slot> {
    if |alive| < 2 then s else PerTopic.Levelled(s, alive, PerTopic.TopicList(s), PerTopic.AtLeastAsHeavy)
  }

  /** Phases 2 and 3. */
  ghost function Arranged(s: seq<Slot>, alive: seq<string>, score: Score): seq<Slot>
    requires alive != []
  {
    TopicsLevelled(Smoothing.Smoothed(Placement.Placed(s, alive, score), alive, score), alive)
  }

  /** Phase 4: an untouched leader keeps its row; anything else gets a fresh epoch, never below the floor. */
  function Stamp(prev: map<string, PartitionRow>, alive: seq<string>, floor: map<string, nat>, s: Slot): PartitionRow {
    var key := PartitionKey(s.topic, s.partition);
    var least := if key in floor then floor[key] else 0;
    if key in prev && prev[key].broker in alive && prev[key].broker == s.broker && prev[key].epoch >= least
    then prev[key]
    else
      var base := if key in prev then prev[key].epoch + 1 else 1;
      PartitionRow(s.topic, s.partition, s.broker, if base < least then least else base)
  }

  function Stamped(prev: map<string, PartitionRow>, alive: seq<string>, floor: map<string, nat>, s: seq<Slot>): (rows: seq<PartitionRow>)
    ensures |rows| == |s|
    ensures forall i :: 0 <= i < |s| ==> rows[i] == Stamp(prev, alive, floor, s[i])
  {
    seq(|s|, i requires 0 <= i < |s| => Stamp(prev, alive, floor, s[i]))
  }

  /** The layout the balancer decides on. */
  ghost function Decided(prev: seq<PartitionRow>, brokers: seq<string>, topics: seq<TopicSpec>, score: Score): seq<Slot>
    requires brokers != []
  {
    var alive := Ordering.Sort(brokers);
    Ordering.SortMembers(brokers);
    Arranged(Pinned(ByKey(prev), alive, Catalogue(topics)), alive, score)
  }

  /** The balancer. A missing previous assignment is an empty list. */
  ghost function Balanced(prev: seq<PartitionRow>, brokers: seq<string>, topics: seq<TopicSpec>,
                          floor: map<string, nat>, score: Score): seq<PartitionRow> {
    if brokers == [] then []
    else Stamped(ByKey(prev), Ordering.Sort(brokers), floor, Decided(prev, brokers, topics, score))
  }

  // ---- the shape of the catalogue ----

  ghost function Names(topics: seq<TopicSpec>): set<string> {
    set t | t in topics :: t.name
  }

  /** The last topic's partitions follow all the others. */
  lemma CatalogueLast(topics: seq<TopicSpec>)
    requires topics != []
    ensures var n := |topics| - 1;
            var c, before := Catalogue(topics), Catalogue(topics[..n]);
            && |before| <= |c|
            && (forall i :: 0 <= i < |before| ==> c[i] == before[i])
            && (forall i :: |before| <= i < |c| ==> c[i] == (topics[n].name, i - |before|))
  {
  }

  lemma {:induction false} CatalogueNames(topics: seq<TopicSpec>)
    ensures forall i :: 0 <= i < |Catalogue(topics)| ==> Catalogue(topics)[i].0 in Names(topics)
  {
    if topics != [] {
      var n := |topics| - 1;
      CatalogueNames(topics[..n]);
      CatalogueLast(topics);
      assert Names(topics[..n]) <= Names(topics) && topics[n].name in Names(topics);
    }
  }

  /** With distinct names, each partition appears once and topics stand together. */
  lemma {:induction false} CatalogueShape(topics: seq<TopicSpec>)
    requires DistinctNames(topics)
    ensures var c := Catalogue(topics);
            && (forall i, j :: 0 <= i < j < |c| ==> c[i] != c[j])
            && (forall i, j, k :: 0 <= i < j < k < |c| && c[i].0 == c[k].0 ==> c[j].0 == c[i].0)
  {
    if topics != [] {
      var n := |topics| - 1;
      CatalogueShape(topics[..n]);
      CatalogueNames(topics[..n]);
      CatalogueLast(topics);
      assert topics[n].name !in Names(topics[..n]);
      hide Catalogue;
    }
  }

  // ---- every partition of the catalogue is assigned, to an alive broker ----

  lemma TopicsLevelledKeeps(s: seq<Slot>, alive: seq<string>)
    requires alive != [] && AllOn(s, Members(alive))
    ensures SameSlots(s, TopicsLevelled(s, alive)) && AllOn(TopicsLevelled(s, alive), Members(alive))
  {
    hide PerTopic.Levelled, PerTopic.TopicList, AllOn;
    if |alive| >= 2 {
      hide SameSlots;
      PerTopic.LevelledIsLevel(s, alive, PerTopic.TopicList(s), PerTopic.AtLeastAsHeavy);
    }
  }

  lemma SameSlotsChain(a: seq<Slot>, b: seq<Slot>, c: seq<Slot>)
    requires SameSlots(a, b) && SameSlots(b, c)
    ensures SameSlots(a, c)
  {
  }

  lemma ArrangedKeeps(s: seq<Slot>, alive: seq<string>, score: Score)
    requires alive != []
    requires forall i :: 0 <= i < |s| && s[i].broker != Placement.UNPLACED ==> s[i].broker in alive
    ensures SameSlots(s, Arranged(s, alive, score)) && AllOn(Arranged(s, alive, score), Members(alive))
  {
    hide Smoothing.Smoothed, TopicsLevelled, Placement.Placed, SameSlots, AllOn;
    Placement.PlacedOnAlive(s, alive, score);
    var p := Placement.Placed(s, alive, score);
    Smoothing.SmoothedIsLevel(p, alive, score);
    var q := Smoothing.Smoothed(p, alive, score);
    TopicsLevelledKeeps(q, alive);
    SameSlotsChain(s, p, q);
    SameSlotsChain(s, q, TopicsLevelled(q, alive));
  }

  lemma BalanceCovers(prev: seq<PartitionRow>, brokers: seq<string>, topics: seq<TopicSpec>,
                      floor: map<string, nat>, score: Score)
    requires brokers != []
    ensures var rows, names := Balanced(prev, brokers, topics, floor, score), Catalogue(topics);
            && |rows| == |names|
            && forall i :: 0 <= i < |rows| ==> (rows[i].topic, rows[i].partition) == names[i] && rows[i].broker in brokers
  {
    hide Arranged, Catalogue;
    var alive, m, names := Ordering.Sort(brokers), ByKey(prev), Catalogue(topics);
    Ordering.SortMembers(brokers);
    var s := Pinned(m, alive, names);
    ArrangedKeeps(s, alive, score);
    var r := Decided(prev, brokers, topics, score);
    forall i | 0 <= i < |r|
      ensures var row := Stamp(m, alive, floor, r[i]);
              (row.topic, row.partition) == names[i] && row.broker in brokers
    {
      StampKeepsName(m, alive, floor, r[i]);
      assert r[i] == s[i].(broker := r[i].broker);
    }
  }

  lemma StampKeepsName(prev: map<string, PartitionRow>, alive: seq<string>, floor: map<string, nat>, s: Slot)
    requires forall k :: k in prev ==> KeyOf(prev[k]) == k
    ensures var row := Stamp(prev, alive, floor, s);
            row.topic == s.topic && row.partition == s.partition && row.broker == s.broker
  {
    var key := PartitionKey(s.topic, s.partition);
    if key in prev {
      PartitionKeyInjective(prev[key].topic, prev[key].partition, s.topic, s.partition);
    }
  }

  // ---- epochs ----

  ghost function FloorOf(floor: map<string, nat>, key: string): nat {
    if key in floor then floor[key] else 0
  }

  /**
   How an epoch may change in one recompute. In particular the pair of
   partition and epoch never passes from one broker to another.
   */
  lemma BalanceEpochs(prev: seq<PartitionRow>, brokers: seq<string>, topics: seq<TopicSpec>,
                      floor: map<string, nat>, score: Score, i: nat)
    requires brokers != [] && i < |Balanced(prev, brokers, topics, floor, score)|
    ensures var row, m := Balanced(prev, brokers, topics, floor, score)[i], ByKey(prev);
            var key := KeyOf(row);
            && row.epoch >= FloorOf(floor, key)
            && (key !in m ==> row.epoch == Max(1, FloorOf(floor, key)))
            && (key in m ==>
                  && row.epoch >= m[key].epoch
                  && (row != m[key] ==> row.epoch == Max(m[key].epoch + 1, FloorOf(floor, key)))
                  && (row.epoch == m[key].epoch <==> row.broker == m[key].broker && m[key].epoch >= FloorOf(floor, key))
                  && (row.epoch == m[key].epoch ==> row == m[key]))
  {
    hide Decided, ByKey, Stamp, Balanced, PartitionKey;
    RowIsStamped(prev, brokers, topics, floor, score, i);
    StampEpochs(ByKey(prev), Ordering.Sort(brokers), floor, Decided(prev, brokers, topics, score)[i]);
  }

  lemma RowIsStamped(prev: seq<PartitionRow>, brokers: seq<string>, topics: seq<TopicSpec>,
                     floor: map<string, nat>, score: Score, i: nat)
    requires brokers != [] && i < |Balanced(prev, brokers, topics, floor, score)|
    ensures i < |Decided(prev, brokers, topics, score)|
    ensures var x := Decided(prev, brokers, topics, score)[i];
            x.broker in Ordering.Sort(brokers) && Balanced(prev, brokers, topics, floor, score)[i] == Stamp(ByKey(prev), Ordering.Sort(brokers), floor, x)
  {
    BalanceCovers(prev, brokers, topics, floor, score);
    Ordering.SortMembers(brokers);
    hide Decided, Catalogue, ByKey, Stamp;
    StampKeepsName(ByKey(prev), Ordering.Sort(brokers), floor, Decided(prev, brokers, topics, score)[i]);
  }

  /** How one row's epoch follows from the previous row and the floor. */
  lemma StampEpochs(m: map<string, PartitionRow>, alive: seq<string>, floor: map<string, nat>, x: Slot)
    requires x.broker in alive && forall k :: k in m ==> KeyOf(m[k]) == k
    ensures var row := Stamp(m, alive, floor, x);
            var key := KeyOf(row);
            && row.epoch >= FloorOf(floor, key)
            && (key !in m ==> row.epoch == Max(1, FloorOf(floor, key)))
            && (key in m ==>
                  && row.epoch >= m[key].epoch
                  && (row != m[key] ==> row.epoch == Max(m[key].epoch + 1, FloorOf(floor, key)))
                  && (row.epoch == m[key].epoch <==> row.broker == m[key].broker && m[key].epoch >= FloorOf(floor, key))
                  && (row.epoch == m[key].epoch ==> row == m[key]))
  {
    StampKeepsName(m, alive, floor, x);
    hide PartitionKey;
  }

  // ---- the balancer as the source runs it ----

  /** The previous rows by key, inserted one by one. */
  method PrevPartitions(prev: Option<seq<PartitionRow>>) returns (m: map<string, PartitionRow>)
    ensures m == ByKey(if prev.Some? then prev.value else [])
  {
    m := map[];
    if prev.Some? {
      for i := 0 to |prev.value|
        invariant m == ByKey(prev.value[..i])
      {
        assert prev.value[..i + 1][..i] == prev.value[..i];
        m := m[KeyOf(prev.value[i]) := prev.value[i]];
      }
      assert prev.value[..|prev.value|] == prev.value;
    }
  }

  /** Phase 1 for one topic, partition by partition. */
  method PinTopic(prev: map<string, PartitionRow>, alive: seq<string>, t: TopicSpec) returns (slots: seq<Slot>)
    ensures |slots| == if t.partitionCount < 0 then 0 else t.partitionCount
    ensures forall p :: 0 <= p < |slots| ==> slots[p] == Pin(prev, alive, (t.name, p))
  {
    slots := [];
    if t.partitionCount > 0 {
      for p := 0 to t.partitionCount
        invariant |slots| == p
        invariant forall q :: 0 <= q < p ==> slots[q] == Pin(prev, alive, (t.name, q))
      {
        slots := slots + [Pin(prev, alive, (t.name, p))];
      }
    }
  }

  method PinSurvivors(prev: map<string, PartitionRow>, alive: seq<string>, topics: seq<TopicSpec>)
    returns (slots: seq<Slot>)
    ensures slots == Pinned(prev, alive, Catalogue(topics))
  {
    slots := [];
    for k := 0 to |topics|
      invariant slots == Pinned(prev, alive, Catalogue(topics[..k]))
    {
      var more := PinTopic(prev, alive, topics[k]);
      hide Pin;
      assert topics[..k + 1][..k] == topics[..k];
      CatalogueLast(topics[..k + 1]);
      slots := slots + more;
    }
    assert topics[..|topics|] == topics;
  }

  /** Phase 4, row by row. */
  method StampAll(prev: map<string, PartitionRow>, alive: seq<string>, floor: map<string, nat>, slots: array<Slot>)
    returns (rows: seq<PartitionRow>)
    ensures rows == Stamped(prev, alive, floor, slots[..])
  {
    rows := [];
    for i := 0 to slots.Length
      invariant rows == Stamped(prev, alive, floor, slots[..i])
    {
      assert slots[..i + 1] == slots[..i] + [slots[i]];
      rows := rows + [Stamp(prev, alive, floor, slots[i])];
    }
    assert slots[..slots.Length] == slots[..];
  }

  method BalancePartitions(prev: Option<seq<PartitionRow>>, brokers: seq<string>, topics: seq<TopicSpec>,
                           floor: map<string, nat>, score: Score)
    returns (rows: seq<PartitionRow>)
    ensures rows == Balanced(if prev.Some? then prev.value else [], brokers, topics, floor, score)
  {
    if brokers == [] {
      return [];
    }
    var alive := Ordering.Sort(brokers);
    Ordering.SortMembers(brokers);
    var prevMap := PrevPartitions(prev);
    var pinned := PinSurvivors(prevMap, alive, topics);
    hide Placement.Placed, Smoothing.Smoothed, PerTopic.Levelled, PerTopic.TopicList, Catalogue, ByKey, Pinned;
    var slots := new Slot[|pinned|](i requires 0 <= i < |pinned| => pinned[i]);
    assert slots[..] == pinned;
    Placement.PlaceUnpinned(slots, alive, score);
    Smoothing.SmoothPartitions(slots, alive, score);
    var capped := PerTopic.SmoothPartitionsPerTopic(slots, alive);
    assert slots[..] == Arranged(pinned, alive, score);
    rows := StampAll(prevMap, alive, floor, slots);
  }
}
