/**
 Placing the partitions that have no surviving leader: each goes to the
 alive broker with the fewest partitions of its topic, then the fewest
 overall, then the highest rendezvous score.
 */
module Placement {
  import opened Levelling
  import opened Layout
  import Slices

  /** The broker field of a slot that has not been placed yet. */
  const UNPLACED := ""

  /** Is broker `a` preferred over broker `b` for this partition? */
  predicate Preferred(s: seq<Slot>, score: Score, topic: string, partition: int, a: string, b: string) {
    var (topicA, topicB) := (TopicCountOn(s, topic, a), TopicCountOn(s, topic, b));
    var (allA, allB) := (CountOn(s, a), CountOn(s, b));
    || topicA < topicB
    || (topicA == topicB && allA < allB)
    || (topicA == topicB && allA == allB && score(topic, partition, a) > score(topic, partition, b))
  }

  /** Fewest of the topic, then fewest overall: the part of the preference the balance rests on. */
  ghost predicate AtMostAsLoaded(s: seq<Slot>, topic: string, a: string, b: string) {
    || TopicCountOn(s, topic, a) < TopicCountOn(s, topic, b)
    || (TopicCountOn(s, topic, a) == TopicCountOn(s, topic, b) && CountOn(s, a) <= CountOn(s, b))
  }

  /** The preferred broker among the first `n`; the earlier one wins a complete tie. */
  function Best(s: seq<Slot>, score: Score, alive: seq<string>, topic: string, partition: int, n: nat): (b: string)
    requires 1 <= n <= |alive|
    ensures b in alive[..n]
    ensures forall c :: c in alive[..n] ==> AtMostAsLoaded(s, topic, b, c)
  {
    if n == 1 then alive[0]
    else
      var best := Best(s, score, alive, topic, partition, n - 1);
      assert alive[..n] == alive[..n - 1] + [alive[n - 1]];
      if Preferred(s, score, topic, partition, alive[n - 1], best) then alive[n - 1] else best
  }

  lemma {:induction false} BestIsBest(s: seq<Slot>, score: Score, alive: seq<string>, topic: string, partition: int, n: nat, j: nat)
    requires j < n <= |alive|
    ensures !Preferred(s, score, topic, partition, alive[j], Best(s, score, alive, topic, partition, n))
  {
    hide Count;
    if n > 1 && j < n - 1 {
      BestIsBest(s, score, alive, topic, partition, n - 1, j);
    }
  }

  /**
   The broker chosen against any alive one: fewer of the topic, or as many
   and fewer overall, or as many of both and no lower score.
   */
  lemma NoneBetterThanBest(s: seq<Slot>, score: Score, alive: seq<string>, topic: string, partition: int, n: nat, j: nat)
    requires j < n <= |alive|
    ensures var b, c := Best(s, score, alive, topic, partition, n), alive[j];
            || TopicCountOn(s, topic, b) < TopicCountOn(s, topic, c)
            || (TopicCountOn(s, topic, b) == TopicCountOn(s, topic, c) && CountOn(s, b) < CountOn(s, c))
            || (TopicCountOn(s, topic, b) == TopicCountOn(s, topic, c) && CountOn(s, b) == CountOn(s, c)
                && score(topic, partition, b) >= score(topic, partition, c))
  {
    BestIsBest(s, score, alive, topic, partition, n, j);
    hide Count;
  }

  /** The slots that have a broker. */
  function PlacedOnly(s: seq<Slot>): seq<Slot> {
    if s == [] then []
    else
      var rest := PlacedOnly(s[..|s| - 1]);
      if s[|s| - 1].broker == UNPLACED then rest else rest + [s[|s| - 1]]
  }

  /**
   What the running counts have seen when slot `i` is next: every slot
   already looked at, and of the others those that came with a broker.
   (Only a broker without a name makes this differ from the whole.)
   */
  function Seen(s: seq<Slot>, i: nat): seq<Slot>
    requires i <= |s|
  {
    s[..i] + PlacedOnly(s[i..])
  }

  lemma {:induction false} PlacedOnlyCounts(s: seq<Slot>, w: Where)
    requires w.broker.Some? && w.broker.value != UNPLACED
    ensures Count(PlacedOnly(s), w) == Count(s, w)
  {
    if s != [] {
      PlacedOnlyCounts(s[..|s| - 1], w);
      CountSnoc(PlacedOnly(s[..|s| - 1]), s[|s| - 1], w);
    }
  }

  /** A broker with a name is counted in full from the start. */
  lemma SeenCounts(s: seq<Slot>, i: nat, w: Where)
    requires i <= |s| && w.broker.Some? && w.broker.value != UNPLACED
    ensures Count(Seen(s, i), w) == Count(s, w)
  {
    PlacedOnlyCounts(s[i..], w);
    CountJoin(s[..i], PlacedOnly(s[i..]), w);
    CountJoin(s[..i], s[i..], w);
    hide PlacedOnly, Count;
    Slices.Halves(s, i);
  }

  lemma {:induction false} PlacedOnlyHead(x: Slot, s: seq<Slot>)
    ensures PlacedOnly([x] + s) == (if x.broker == UNPLACED then [] else [x]) + PlacedOnly(s)
  {
    if s == [] {
      assert [x] + s == [x] && [x][..0] == [];
    } else {
      PlacedOnlyHead(x, s[..|s| - 1]);
      assert ([x] + s)[..|s|] == [x] + s[..|s| - 1];
    }
  }

  /** A slot that came with a broker is already counted. */
  lemma SeenSkips(s: seq<Slot>, i: nat)
    requires i < |s| && s[i].broker != UNPLACED
    ensures Seen(s, i + 1) == Seen(s, i)
  {
    PlacedOnlyHead(s[i], s[i + 1..]);
    hide PlacedOnly;
    Slices.HeadOff(s, i);
    assert s[..i] + [s[i]] + PlacedOnly(s[i + 1..]) == s[..i] + ([s[i]] + PlacedOnly(s[i + 1..]));
  }

  /** Placing a slot adds it to what is counted. */
  lemma SeenPlaced(s: seq<Slot>, i: nat, b: string, w: Where)
    requires i < |s| && s[i].broker == UNPLACED
    ensures Count(Seen(Relocate(s, i, b), i + 1), w) == Count(Seen(s, i), w) + (if w.Matches(s[i].(broker := b)) then 1 else 0)
  {
    var front, tail, x := s[..i], s[i + 1..], s[i].(broker := b);
    PlacedOnlyHead(s[i], tail);
    hide PlacedOnly, Count;
    Slices.HeadOff(s, i);
    assert Seen(s, i) == front + PlacedOnly(tail);
    var r := Relocate(s, i, b);
    assert r[..i + 1] == front + [x] && r[i + 1..] == tail;
    CountJoin(front + [x], PlacedOnly(tail), w);
    CountSnoc(front, x, w);
    CountJoin(front, PlacedOnly(tail), w);
  }

  /** Give slot `i` a broker if it has none. */
  function PlaceSlot(s: seq<Slot>, i: nat, alive: seq<string>, score: Score): (r: seq<Slot>)
    requires i < |s| && alive != []
    ensures |r| == |s|
  {
    if s[i].broker != UNPLACED then s
    else Relocate(s, i, Best(Seen(s, i), score, alive, s[i].topic, s[i].partition, |alive|))
  }

  /** The layout after the first `k` slots have been looked at. */
  function PlacedUpTo(s: seq<Slot>, k: nat, alive: seq<string>, score: Score): (r: seq<Slot>)
    requires k <= |s| && alive != []
    ensures |r| == |s|
  {
    if k == 0 then s else PlaceSlot(PlacedUpTo(s, k - 1, alive, score), k - 1, alive, score)
  }

  function Placed(s: seq<Slot>, alive: seq<string>, score: Score): seq<Slot>
    requires alive != []
  {
    PlacedUpTo(s, |s|, alive, score)
  }

  lemma PlaceSlotFrame(s: seq<Slot>, i: nat, alive: seq<string>, score: Score)
    requires i < |s| && alive != []
    ensures var r := PlaceSlot(s, i, alive, score);
            && SameSlots(s, r) && (forall j :: 0 <= j < |s| && j != i ==> r[j] == s[j])
            && (if s[i].broker == UNPLACED then r[i].broker in alive else r[i] == s[i])
  {
    hide Seen;
    assert alive[..|alive|] == alive;
  }

  /** Slots already placed are left where they are, and every slot looked at ends up on an alive broker. */
  lemma {:induction false} PlacedUpToFrame(s: seq<Slot>, k: nat, alive: seq<string>, score: Score)
    requires k <= |s| && alive != []
    ensures var r := PlacedUpTo(s, k, alive, score);
            && SameSlots(s, r)
            && (forall i :: k <= i < |s| ==> r[i] == s[i])
            && (forall i :: 0 <= i < |s| && s[i].broker != UNPLACED ==> r[i] == s[i])
            && (forall i :: 0 <= i < k && s[i].broker == UNPLACED ==> r[i].broker in alive)
  {
    hide PlaceSlot;
    if k > 0 {
      PlacedUpToFrame(s, k - 1, alive, score);
      PlaceSlotFrame(PlacedUpTo(s, k - 1, alive, score), k - 1, alive, score);
    }
  }

  lemma PlacedOnAlive(s: seq<Slot>, alive: seq<string>, score: Score)
    requires alive != []
    requires forall i :: 0 <= i < |s| && s[i].broker != UNPLACED ==> s[i].broker in alive
    ensures AllOn(Placed(s, alive, score), Members(alive)) && SameSlots(s, Placed(s, alive, score))
  {
    PlacedUpToFrame(s, |s|, alive, score);
  }

  // ---- placing whole new topics never tips a level layout ----

  /** What the other topics put on each broker. */
  ghost function Others(s: seq<Slot>, topic: string, bs: set<string>): Counts {
    map b | b in bs :: CountOn(s, b) - TopicCountOn(s, topic, b)
  }

  /** The slots of a topic stand next to each other. */
  ghost predicate Grouped(s: seq<Slot>) {
    forall i, j, k :: 0 <= i < j < k < |s| && s[i].topic == s[k].topic ==> s[j].topic == s[i].topic
  }

  /** From `i` on, a topic is either placed throughout or not at all. */
  ghost predicate WholeTopics(s: seq<Slot>, i: nat) {
    forall j, k :: i <= j < |s| && i <= k < |s| && s[j].topic == s[k].topic
      ==> (s[j].broker == UNPLACED) == (s[k].broker == UNPLACED)
  }

  /** The cluster and every topic are level. */
  ghost predicate Settled(s: seq<Slot>, bs: set<string>) {
    && Level(Table(s, None, bs))
    && forall t: string :: Level(Table(s, Some(t), bs))
  }

  ghost predicate NotBegun(s: seq<Slot>, topic: string, bs: set<string>) {
    forall b :: b in bs ==> TopicCountOn(s, topic, b) == 0
  }

  /** What placement keeps: unplaced topics have not begun, save the current one, whose others are level. */
  ghost predicate Settling(s: seq<Slot>, i: nat, bs: set<string>) {
    && Settled(s, bs) && Grouped(s) && WholeTopics(s, i)
    && forall j :: i <= j < |s| && s[j].broker == UNPLACED ==>
         NotBegun(s, s[j].topic, bs) || (s[j].topic == s[i].topic && Level(Others(s, s[j].topic, bs)))
  }

  lemma NotBegunOthers(s: seq<Slot>, topic: string, bs: set<string>)
    requires NotBegun(s, topic, bs) && Level(Table(s, None, bs))
    ensures Level(Others(s, topic, bs))
  {
    assert Others(s, topic, bs) == Table(s, None, bs);
  }

  /** How one placement changes the counts. */
  lemma PlaceCounts(s: seq<Slot>, i: nat, b: string, w: Where)
    requires i < |s| && s[i].broker == UNPLACED && w.broker.Some? && w.broker.value != UNPLACED
    ensures Count(Relocate(s, i, b), w)
         == Count(s, w) + (if w.broker.value == b && (w.topic.None? || w.topic.value == s[i].topic) then 1 else 0)
  {
    CountUpdate(s, i, s[i].(broker := b), w);
  }

  lemma PlaceTable(s: seq<Slot>, i: nat, b: string, topic: Option<string>, bs: set<string>)
    requires i < |s| && s[i].broker == UNPLACED && UNPLACED !in bs && b in bs
    ensures Table(Relocate(s, i, b), topic, bs)
         == if topic.None? || topic.value == s[i].topic
            then Table(s, topic, bs)[b := Table(s, topic, bs)[b] + 1]
            else Table(s, topic, bs)
  {
    forall c | c in bs
      ensures Count(Relocate(s, i, b), Where(topic, Some(c)))
           == Count(s, Where(topic, Some(c))) + (if c == b && (topic.None? || topic.value == s[i].topic) then 1 else 0)
    {
      PlaceCounts(s, i, b, Where(topic, Some(c)));
    }
  }

  lemma PlaceOthers(s: seq<Slot>, i: nat, b: string, bs: set<string>)
    requires i < |s| && s[i].broker == UNPLACED && UNPLACED !in bs && b in bs
    ensures Others(Relocate(s, i, b), s[i].topic, bs) == Others(s, s[i].topic, bs)
  {
    forall c | c in bs
      ensures Others(Relocate(s, i, b), s[i].topic, bs)[c] == Others(s, s[i].topic, bs)[c]
    {
      PlaceCounts(s, i, b, Where(None, Some(c)));
      PlaceCounts(s, i, b, Where(Some(s[i].topic), Some(c)));
    }
  }

  /** Adding one at a lowest entry keeps a table level. */
  lemma LevelAddAtLowest(m: Counts, b: string)
    requires Level(m) && b in m && forall c :: c in m ==> m[b] <= m[c]
    ensures Level(m[b := m[b] + 1])
  {
  }

  /** The broker chosen for its topic count is a least loaded one overall, too. */
  lemma LeastOnBoth(s: seq<Slot>, topic: string, b: string, c: string, bs: set<string>)
    requires b in bs && c in bs && Level(Others(s, topic, bs)) && AtMostAsLoaded(s, topic, b, c)
    ensures CountOn(s, b) <= CountOn(s, c) && TopicCountOn(s, topic, b) <= TopicCountOn(s, topic, c)
  {
    var rest := Others(s, topic, bs);
    assert rest[b] - rest[c] <= 1;
  }

  /** A table stays level when the slot goes to its lowest entry, or belongs to another topic. */
  lemma PlaceKeepsLevel(s: seq<Slot>, i: nat, b: string, topic: Option<string>, bs: set<string>)
    requires i < |s| && s[i].broker == UNPLACED && UNPLACED !in bs && b in bs
    requires Level(Table(s, topic, bs))
    requires topic.None? || topic.value == s[i].topic ==>
               forall c :: c in bs ==> Count(s, Where(topic, Some(b))) <= Count(s, Where(topic, Some(c)))
    ensures Level(Table(Relocate(s, i, b), topic, bs))
  {
    hide Count;
    PlaceTable(s, i, b, topic, bs);
    if topic.None? || topic.value == s[i].topic {
      LevelAddAtLowest(Table(s, topic, bs), b);
    }
  }

  /** The least loaded broker takes the slot, and the cluster and every topic stay level. */
  lemma PlaceKeepsSettled(s: seq<Slot>, i: nat, b: string, bs: set<string>)
    requires i < |s| && s[i].broker == UNPLACED && UNPLACED !in bs && b in bs
    requires Settled(s, bs) && Level(Others(s, s[i].topic, bs))
    requires forall c :: c in bs ==> AtMostAsLoaded(s, s[i].topic, b, c)
    ensures Settled(Relocate(s, i, b), bs) && Level(Others(Relocate(s, i, b), s[i].topic, bs))
  {
    hide Table, Others, AtMostAsLoaded, Level, Count;
    var topic := s[i].topic;
    forall c | c in bs
      ensures CountOn(s, b) <= CountOn(s, c) && TopicCountOn(s, topic, b) <= TopicCountOn(s, topic, c)
    {
      LeastOnBoth(s, topic, b, c, bs);
    }
    PlaceOthers(s, i, b, bs);
    PlaceKeepsLevel(s, i, b, None, bs);
    forall t: string
      ensures Level(Table(Relocate(s, i, b), Some(t), bs))
    {
      assert Level(Table(s, Some(t), bs));
      PlaceKeepsLevel(s, i, b, Some(t), bs);
    }
  }

  /** Placing in one topic begins no other. */
  lemma PlaceBeginsNoOther(s: seq<Slot>, i: nat, b: string, t: string, bs: set<string>)
    requires i < |s| && s[i].broker == UNPLACED && UNPLACED !in bs && b in bs && t != s[i].topic
    requires NotBegun(s, t, bs)
    ensures NotBegun(Relocate(s, i, b), t, bs)
  {
    forall c | c in bs
      ensures TopicCountOn(Relocate(s, i, b), t, c) == 0
    {
      PlaceCounts(s, i, b, Where(Some(t), Some(c)));
    }
  }

  lemma LoadedAsSeen(s: seq<Slot>, i: nat, topic: string, b: string, c: string)
    requires i <= |s| && b != UNPLACED && c != UNPLACED
    ensures AtMostAsLoaded(s, topic, b, c) <==> AtMostAsLoaded(Seen(s, i), topic, b, c)
  {
    SeenCounts(s, i, Where(None, Some(b)));
    SeenCounts(s, i, Where(None, Some(c)));
    SeenCounts(s, i, Where(Some(topic), Some(b)));
    SeenCounts(s, i, Where(Some(topic), Some(c)));
  }

  lemma PlaceSlotKeepsSettling(s: seq<Slot>, i: nat, alive: seq<string>, score: Score)
    requires i < |s| && alive != [] && UNPLACED !in alive && Settling(s, i, Members(alive))
    ensures Settling(PlaceSlot(s, i, alive, score), i + 1, Members(alive))
  {
    var bs := Members(alive);
    hide Settled, Others, NotBegun, Level, AtMostAsLoaded;
    var r := PlaceSlot(s, i, alive, score);
    assert Grouped(r);
    if s[i].broker != UNPLACED {
      assert Settling(r, i + 1, bs);
    } else {
      var topic := s[i].topic;
      var b := Best(Seen(s, i), score, alive, topic, s[i].partition, |alive|);
      assert alive[..|alive|] == alive;
      forall c | c in bs
        ensures AtMostAsLoaded(s, topic, b, c)
      {
        LoadedAsSeen(s, i, topic, b, c);
      }
      if NotBegun(s, topic, bs) {
        assert Level(Others(s, topic, bs)) by { SettledCluster(s, bs); NotBegunOthers(s, topic, bs); }
      }
      PlaceKeepsSettled(s, i, b, bs);
      forall j | i + 1 <= j < |r| && r[j].broker == UNPLACED
        ensures NotBegun(r, r[j].topic, bs) || (r[j].topic == r[i + 1].topic && Level(Others(r, r[j].topic, bs)))
      {
        if r[j].topic != topic {
          PlaceBeginsNoOther(s, i, b, r[j].topic, bs);
        }
      }
    }
  }

  lemma SettledCluster(s: seq<Slot>, bs: set<string>)
    requires Settled(s, bs)
    ensures Level(Table(s, None, bs))
  {
  }

  /**
   Unplaced topics, whole and each named once, join a level layout: the
   cluster and every topic are level after every single placement.
   */
  lemma {:induction false} PlacementStaysSettled(s: seq<Slot>, k: nat, alive: seq<string>, score: Score)
    requires k <= |s| && alive != [] && UNPLACED !in alive
    requires Settled(s, Members(alive)) && Grouped(s) && WholeTopics(s, 0)
    ensures Settling(PlacedUpTo(s, k, alive, score), k, Members(alive))
    ensures Settled(PlacedUpTo(s, k, alive, score), Members(alive))
  {
    hide Settling, Settled, PlaceSlot, Grouped, WholeTopics;
    if k == 0 {
      StartsSettling(s, Members(alive));
    } else {
      PlacementStaysSettled(s, k - 1, alive, score);
      PlaceSlotKeepsSettling(PlacedUpTo(s, k - 1, alive, score), k - 1, alive, score);
    }
    SettlingIsSettled(PlacedUpTo(s, k, alive, score), k, Members(alive));
  }

  lemma StartsSettling(s: seq<Slot>, bs: set<string>)
    requires Settled(s, bs) && Grouped(s) && WholeTopics(s, 0) && UNPLACED !in bs
    ensures Settling(s, 0, bs)
  {
    hide Settled, Grouped, NotBegun;
    forall j | 0 <= j < |s| && s[j].broker == UNPLACED
      ensures NotBegun(s, s[j].topic, bs)
    {
      UnplacedNotBegun(s, j, bs);
    }
  }

  lemma SettlingIsSettled(s: seq<Slot>, i: nat, bs: set<string>)
    requires Settling(s, i, bs)
    ensures Settled(s, bs)
  {
  }

  lemma UnplacedNotBegun(s: seq<Slot>, j: nat, bs: set<string>)
    requires j < |s| && s[j].broker == UNPLACED && WholeTopics(s, 0) && UNPLACED !in bs
    ensures NotBegun(s, s[j].topic, bs)
  {
    forall b | b in bs
      ensures TopicCountOn(s, s[j].topic, b) == 0
    {
      CountZero(s, Where(Some(s[j].topic), Some(b)));
    }
  }

  /** With nothing placed at all, every table is zero. */
  lemma NothingPlacedIsSettled(s: seq<Slot>, bs: set<string>)
    requires UNPLACED !in bs && forall i :: 0 <= i < |s| ==> s[i].broker == UNPLACED
    ensures Settled(s, bs)
  {
    forall t: Option<string>, b | b in bs
      ensures Count(s, Where(t, Some(b))) == 0
    {
      CountZero(s, Where(t, Some(b)));
    }
  }

  // ---- the loop itself, updating the slots and the running counts in place ----

  /** The running counts agree with the slots on every alive broker. */
  ghost predicate InStep(total: map<string, int>, perTopic: map<(string, string), int>, s: seq<Slot>, alive: seq<string>) {
    forall b :: b in alive ==>
      && b in total && total[b] == CountOn(s, b)
      && forall t: string :: Tally(perTopic, (t, b)) == TopicCountOn(s, t, b)
  }

  /** The first loop: count what is pinned. */
  method CountPlaced(slots: array<Slot>, alive: seq<string>)
    returns (total: map<string, int>, perTopic: map<(string, string), int>)
    ensures InStep(total, perTopic, PlacedOnly(slots[..]), alive)
  {
    total := map b | b in alive :: 0;
    perTopic := map[];
    for i := 0 to slots.Length
      invariant InStep(total, perTopic, PlacedOnly(slots[..i]), alive)
    {
      var x := slots[i];
      assert slots[..i + 1][..i] == slots[..i];
      if x.broker == UNPLACED {
        continue;
      }
      CountedOneMore(total, perTopic, PlacedOnly(slots[..i]), x, alive);
      total := Bump(total, x.broker);
      perTopic := Bump(perTopic, (x.topic, x.broker));
    }
    assert slots[..slots.Length] == slots[..];
  }

  /** A missing entry counts as zero. */
  function Tally<K>(m: map<K, int>, k: K): int {
    if k in m then m[k] else 0
  }

  function Bump<K>(m: map<K, int>, k: K): map<K, int> {
    m[k := Tally(m, k) + 1]
  }

  lemma CountedOneMore(total: map<string, int>, perTopic: map<(string, string), int>, s: seq<Slot>, x: Slot, alive: seq<string>)
    requires InStep(total, perTopic, s, alive)
    ensures InStep(Bump(total, x.broker), Bump(perTopic, (x.topic, x.broker)), s + [x], alive)
  {
    forall w: Where
      ensures Count(s + [x], w) == Count(s, w) + (if w.Matches(x) then 1 else 0)
    {
      CountSnoc(s, x, w);
    }
    BumpedInStep(total, perTopic, s, s + [x], x.topic, x.broker, alive);
  }

  /** Counts that have grown by one slot of a topic on a broker. */
  lemma BumpedInStep(total: map<string, int>, perTopic: map<(string, string), int>, s: seq<Slot>, r: seq<Slot>,
                     topic: string, b: string, alive: seq<string>)
    requires InStep(total, perTopic, s, alive)
    requires forall w: Where :: w.broker.Some? ==>
               Count(r, w) == Count(s, w) + (if w.broker.value == b && (w.topic.None? || w.topic.value == topic) then 1 else 0)
    ensures InStep(Bump(total, b), Bump(perTopic, (topic, b)), r, alive)
  {
    hide Count;
    forall c | c in alive
      ensures CountOn(r, c) == CountOn(s, c) + (if c == b then 1 else 0)
    {
      assert Where(None, Some(c)).broker.Some?;
    }
    forall t: string, c | c in alive
      ensures TopicCountOn(r, t, c) == TopicCountOn(s, t, c) + (if c == b && t == topic then 1 else 0)
    {
      assert Where(Some(t), Some(c)).broker.Some?;
    }
  }

  lemma PlacedOneMore(total: map<string, int>, perTopic: map<(string, string), int>, s: seq<Slot>, i: nat, b: string, alive: seq<string>)
    requires i < |s| && s[i].broker == UNPLACED && InStep(total, perTopic, Seen(s, i), alive)
    ensures InStep(Bump(total, b), Bump(perTopic, (s[i].topic, b)), Seen(Relocate(s, i, b), i + 1), alive)
  {
    hide Seen, Count;
    forall w: Where | w.broker.Some?
      ensures Count(Seen(Relocate(s, i, b), i + 1), w)
           == Count(Seen(s, i), w) + (if w.broker.value == b && (w.topic.None? || w.topic.value == s[i].topic) then 1 else 0)
    {
      SeenPlaced(s, i, b, w);
    }
    BumpedInStep(total, perTopic, Seen(s, i), Seen(Relocate(s, i, b), i + 1), s[i].topic, b, alive);
  }

  /** The inner loop: scan the alive brokers for the best one. */
  method FindBest(total: map<string, int>, perTopic: map<(string, string), int>, ghost s: seq<Slot>, alive: seq<string>,
                  score: Score, topic: string, partition: int)
    returns (best: string)
    requires alive != [] && InStep(total, perTopic, s, alive)
    ensures best == Best(s, score, alive, topic, partition, |alive|)
  {
    best := alive[0];
    for k := 1 to |alive|
      invariant best == Best(s, score, alive, topic, partition, k) && best in alive
    {
      var b := alive[k];
      var topicB, topicBest := Tally(perTopic, (topic, b)), Tally(perTopic, (topic, best));
      if || topicB < topicBest
         || (topicB == topicBest && total[b] < total[best])
         || (topicB == topicBest && total[b] == total[best] && score(topic, partition, b) > score(topic, partition, best)) {
        best := b;
      }
    }
  }

  method PlaceUnpinned(slots: array<Slot>, alive: seq<string>, score: Score)
    modifies slots
    ensures slots[..] == if alive == [] then old(slots[..]) else Placed(old(slots[..]), alive, score)
  {
    if alive == [] {
      return;
    }
    ghost var s := slots[..];
    var total, perTopic := CountPlaced(slots, alive);
    assert Seen(s, 0) == PlacedOnly(s) by { assert s[0..] == s && s[..0] == []; }
    for i := 0 to slots.Length
      invariant InStep(total, perTopic, Seen(slots[..], i), alive)
      invariant slots[..] == PlacedUpTo(s, i, alive, score)
    {
      ghost var before := slots[..];
      if slots[i].broker != UNPLACED {
        SeenSkips(before, i);
        continue;
      }
      var b := FindBest(total, perTopic, Seen(before, i), alive, score, slots[i].topic, slots[i].partition);
      PlacedOneMore(total, perTopic, before, i, b, alive);
      total := Bump(total, b);
      perTopic := Bump(perTopic, (slots[i].topic, b));
      slots[i] := slots[i].(broker := b);
      assert slots[..] == Relocate(before, i, b);
    }
  }
}
