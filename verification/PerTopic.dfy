/**
 The per-topic smoothing pass: level every topic over the alive brokers,
 by moving one partition, or by swapping it against a partition of
 another topic when a plain move would tip the cluster-wide balance.
 */
module PerTopic {
  import opened Totals
  import opened Levelling
  import opened Layout
  import Ordering
  import Smoothing

  /**
   When may a repair be a plain move? The source asks that the donor
   hold at least as many partitions as the recipient. The stricter rule
   is not in the source: it is the variant under which the cluster stays
   level (StrictRuleLevelsBoth), where the source's rule does not
   (EqualTotalsTipTheCluster).
   */
  datatype MoveRule = AtLeastAsHeavy | StrictlyHeavier

  predicate MoveOk(s: seq<Slot>, hi: string, lo: string, rule: MoveRule) {
    if rule.AtLeastAsHeavy? then CountOn(s, hi) >= CountOn(s, lo) else CountOn(s, hi) > CountOn(s, lo)
  }

  /** Lowest `(sticky, partition)` among the first `n` slots of `topic` on `broker`. */
  function PickSlot(s: seq<Slot>, topic: string, broker: string, n: nat): (v: Option<nat>)
    requires n <= |s|
    ensures v.Some? ==> v.value < n && s[v.value].topic == topic && s[v.value].broker == broker
    ensures v.None? ==> forall i :: 0 <= i < n ==> !(s[i].topic == topic && s[i].broker == broker)
  {
    if n == 0 then None
    else
      var best := PickSlot(s, topic, broker, n - 1);
      var x := s[n - 1];
      if !(x.topic == topic && x.broker == broker) then best
      else if best.None? || Cheaper(x, s[best.value]) then Some(n - 1)
      else best
  }

  /** Freshly placed before inherited, then the lower topic, then the lower partition. */
  predicate Cheaper(a: Slot, b: Slot) {
    if a.sticky != b.sticky then !a.sticky
    else Ordering.Less(a.topic, b.topic) || (a.topic == b.topic && a.partition < b.partition)
  }

  /** A slot that may come back in exchange: another topic's, over-represented on the recipient. */
  predicate MayComeBack(s: seq<Slot>, topic: string, hi: string, lo: string, x: Slot) {
    && x.broker == lo
    && x.topic != topic
    && TopicCountOn(s, x.topic, lo) > TopicCountOn(s, x.topic, hi)
  }

  function PickPartner(s: seq<Slot>, topic: string, hi: string, lo: string, n: nat): (v: Option<nat>)
    requires n <= |s|
    ensures v.Some? ==> v.value < n && MayComeBack(s, topic, hi, lo, s[v.value])
    ensures v.None? ==> forall i :: 0 <= i < n ==> !MayComeBack(s, topic, hi, lo, s[i])
  {
    if n == 0 then None
    else
      var best := PickPartner(s, topic, hi, lo, n - 1);
      if !MayComeBack(s, topic, hi, lo, s[n - 1]) then best
      else if best.None? || Cheaper(s[n - 1], s[best.value]) then Some(n - 1)
      else best
  }

  lemma CheaperIsTransitive(a: Slot, b: Slot, c: Slot)
    requires Cheaper(a, b) && Cheaper(b, c)
    ensures Cheaper(a, c)
  {
    hide Ordering.Less;
    if Ordering.Less(a.topic, b.topic) && Ordering.Less(b.topic, c.topic) {
      Ordering.LessTransitive(a.topic, b.topic, c.topic);
    }
  }

  lemma NotCheaperThanItself(a: Slot)
    ensures !Cheaper(a, a)
  {
    if Cheaper(a, a) {
      Ordering.LessAsymmetric(a.topic, a.topic);
      assert false;
    }
  }

  lemma {:induction false} SlotIsCheapest(s: seq<Slot>, topic: string, broker: string, n: nat, j: nat)
    requires j < n <= |s| && s[j].topic == topic && s[j].broker == broker
    ensures PickSlot(s, topic, broker, n).Some?
    ensures !Cheaper(s[j], s[PickSlot(s, topic, broker, n).value])
  {
    hide Cheaper;
    var x := s[n - 1];
    NotCheaperThanItself(x);
    if j < n - 1 {
      SlotIsCheapest(s, topic, broker, n - 1, j);
      var best := s[PickSlot(s, topic, broker, n - 1).value];
      if Cheaper(x, best) && Cheaper(s[j], x) {
        CheaperIsTransitive(s[j], x, best);
      }
    }
  }

  lemma {:induction false} PartnerIsCheapest(s: seq<Slot>, topic: string, hi: string, lo: string, n: nat, j: nat)
    requires j < n <= |s| && MayComeBack(s, topic, hi, lo, s[j])
    ensures PickPartner(s, topic, hi, lo, n).Some?
    ensures !Cheaper(s[j], s[PickPartner(s, topic, hi, lo, n).value])
  {
    hide Cheaper, MayComeBack;
    var x := s[n - 1];
    NotCheaperThanItself(x);
    if j < n - 1 {
      PartnerIsCheapest(s, topic, hi, lo, n - 1, j);
      var best := s[PickPartner(s, topic, hi, lo, n - 1).value];
      if Cheaper(x, best) && Cheaper(s[j], x) {
        CheaperIsTransitive(s[j], x, best);
      }
    }
  }

  /** The donor against any slot of its topic on its broker: inherited only if that is, then the lower partition. */
  lemma NoCheaperSlot(s: seq<Slot>, topic: string, broker: string, n: nat, j: nat)
    requires j < n <= |s| && s[j].topic == topic && s[j].broker == broker
    ensures PickSlot(s, topic, broker, n).Some?
    ensures var v, x := s[PickSlot(s, topic, broker, n).value], s[j];
            && v.topic == topic && v.broker == broker
            && (v.sticky ==> x.sticky)
            && (v.sticky == x.sticky ==> v.partition <= x.partition)
  {
    SlotIsCheapest(s, topic, broker, n, j);
  }

  /**
   The partner against any slot of another topic on the recipient that has
   more there than on the donor: inherited only if that is, then the lower
   topic, then the lower partition.
   */
  lemma NoCheaperPartner(s: seq<Slot>, topic: string, hi: string, lo: string, n: nat, j: nat)
    requires j < n <= |s| && s[j].broker == lo && s[j].topic != topic
    requires TopicCountOn(s, s[j].topic, lo) > TopicCountOn(s, s[j].topic, hi)
    ensures PickPartner(s, topic, hi, lo, n).Some?
    ensures var v, x := s[PickPartner(s, topic, hi, lo, n).value], s[j];
            && v.broker == lo && v.topic != topic && TopicCountOn(s, v.topic, lo) > TopicCountOn(s, v.topic, hi)
            && (v.sticky ==> x.sticky)
            && (v.sticky == x.sticky ==> (v.topic == x.topic && v.partition <= x.partition) || Ordering.Less(v.topic, x.topic))
  {
    PartnerIsCheapest(s, topic, hi, lo, n, j);
    hide Count, Ordering.Less;
    Ordering.LessTotal(s[PickPartner(s, topic, hi, lo, n).value].topic, s[j].topic);
  }

  /** One repair: `donor` goes from `hi` to `lo`, and `partner`, if any, comes back. */
  datatype Repair = Repair(donor: nat, hi: string, lo: string, partner: Option<nat>)

  /** What a repair picked by the pass looks like. */
  ghost predicate Sound(s: seq<Slot>, f: Repair) {
    && f.hi != f.lo
    && f.donor < |s| && s[f.donor].broker == f.hi
    && (f.partner.Some? ==>
          f.partner.value < |s| && MayComeBack(s, s[f.donor].topic, f.hi, f.lo, s[f.partner.value]))
  }

  function Apply(s: seq<Slot>, f: Repair): seq<Slot>
    requires f.donor < |s| && (f.partner.Some? ==> f.partner.value < |s|)
  {
    var moved := Relocate(s, f.donor, f.lo);
    if f.partner.None? then moved else Relocate(moved, f.partner.value, f.hi)
  }

  /** The repair the pass would make for `topic`, or None when it leaves the topic alone. */
  ghost function FindRepair(s: seq<Slot>, alive: seq<string>, topic: string, rule: MoveRule): Option<Repair>
    requires alive != []
  {
    var m := Table(s, Some(topic), Members(alive));
    var hi, lo := Smoothing.Hi(m, alive), Smoothing.Lo(m, alive);
    if m[hi] - m[lo] <= 1 then None
    else
      match PickSlot(s, topic, hi, |s|)
      case None => None
      case Some(donor) =>
        if MoveOk(s, hi, lo, rule) then Some(Repair(donor, hi, lo, None))
        else
          match PickPartner(s, topic, hi, lo, |s|)
          case None => None
          case Some(partner) => Some(Repair(donor, hi, lo, Some(partner)))
  }

  /** The first repair over the topics in order. */
  ghost function FirstRepair(s: seq<Slot>, alive: seq<string>, topics: seq<string>, rule: MoveRule): Option<Repair>
    requires alive != []
  {
    if topics == [] then None
    else
      var f := FindRepair(s, alive, topics[0], rule);
      if f.Some? then f else FirstRepair(s, alive, topics[1..], rule)
  }

  // ---- a swap partner always exists ----

  ghost function TopicsOf(s: seq<Slot>): set<string> {
    set i | 0 <= i < |s| :: s[i].topic
  }

  /**
   When a topic leans to `hi` although `lo` holds at least as many
   partitions overall, some other topic leans the other way: otherwise
   the topics would add up to more on `hi`.
   */
  lemma PartnerExists(s: seq<Slot>, topic: string, hi: string, lo: string)
    requires TopicCountOn(s, topic, hi) > TopicCountOn(s, topic, lo)
    requires CountOn(s, hi) <= CountOn(s, lo)
    ensures PickPartner(s, topic, hi, lo, |s|).Some?
  {
    hide Total;
    var ts := TopicsOf(s);
    var onHi, onLo := TopicTable(s, Some(hi), ts), TopicTable(s, Some(lo), ts);
    SumOverTopics(s, Some(hi), ts);
    SumOverTopics(s, Some(lo), ts);
    CountPositive(s, Where(Some(topic), Some(hi)));
    assert topic in ts;
    if forall t :: t in ts ==> onLo[t] <= onHi[t] {
      var lower := onHi[topic := onLo[topic]];
      TotalUpdate(onHi, topic, onLo[topic]);
      TotalMonotone(onLo, lower);
      assert false;
    }
    var t :| t in ts && onLo[t] > onHi[t];
    CountPositive(s, Where(Some(t), Some(lo)));
    var i :| 0 <= i < |s| && Where(Some(t), Some(lo)).Matches(s[i]);
    assert MayComeBack(s, topic, hi, lo, s[i]);
  }

  /** The pass repairs a topic exactly when the topic is uneven; no uneven topic is ever given up on. */
  lemma RepairIffUneven(s: seq<Slot>, alive: seq<string>, topic: string, rule: MoveRule)
    requires alive != []
    ensures var m := Table(s, Some(topic), Members(alive));
            match FindRepair(s, alive, topic, rule)
            case None => Level(m)
            case Some(f) =>
              && Sound(s, f) && s[f.donor].topic == topic
              && Extremes(m, f.hi, f.lo) && m[f.hi] - m[f.lo] >= 2
              && (f.partner.None? <==> MoveOk(s, f.hi, f.lo, rule))
  {
    var m := Table(s, Some(topic), Members(alive));
    var hi, lo := Smoothing.Hi(m, alive), Smoothing.Lo(m, alive);
    if m[hi] - m[lo] >= 2 {
      CountPositive(s, Where(Some(topic), Some(hi)));
      if !MoveOk(s, hi, lo, rule) {
        PartnerExists(s, topic, hi, lo);
      }
    }
  }

  // ---- what a repair does to the counts ----

  /** Cluster-wide, a move shifts one unit and a swap changes nothing. */
  lemma RepairClusterTable(s: seq<Slot>, f: Repair, bs: set<string>)
    requires Sound(s, f) && f.hi in bs && f.lo in bs
    ensures Table(Apply(s, f), None, bs)
         == if f.partner.None? then Shift(Table(s, None, bs), f.hi, f.lo) else Table(s, None, bs)
  {
    RelocateTable(s, f.donor, f.lo, None, bs);
    if f.partner.Some? {
      RelocateTable(Relocate(s, f.donor, f.lo), f.partner.value, f.hi, None, bs);
    }
  }

  /** Per topic, the repaired topic shifts one way, the partner's the other way, and the rest stay. */
  lemma RepairTopicTable(s: seq<Slot>, f: Repair, t: string, bs: set<string>)
    requires Sound(s, f) && f.hi in bs && f.lo in bs
    ensures Table(Apply(s, f), Some(t), bs)
         == if t == s[f.donor].topic then Shift(Table(s, Some(t), bs), f.hi, f.lo)
            else if f.partner.Some? && t == s[f.partner.value].topic then Shift(Table(s, Some(t), bs), f.lo, f.hi)
            else Table(s, Some(t), bs)
  {
    RelocateTable(s, f.donor, f.lo, Some(t), bs);
    if f.partner.Some? {
      RelocateTable(Relocate(s, f.donor, f.lo), f.partner.value, f.hi, Some(t), bs);
    }
  }

  // ---- the pass terminates, and quickly ----

  ghost function CostOf(s: seq<Slot>, t: string, bs: set<string>): int
    requires bs != {}
  {
    TableSize(s, Some(t), bs);
    Cost(Table(s, Some(t), bs))
  }

  ghost function TopicCosts(s: seq<Slot>, ts: set<string>, bs: set<string>): Counts
    requires bs != {}
  {
    map t | t in ts :: CostOf(s, t, bs)
  }

  /** A repair brings its topic one step closer to level and never sets another topic back. */
  lemma RepairCost(s: seq<Slot>, f: Repair, t: string, bs: set<string>)
    requires Sound(s, f) && f.hi in bs && f.lo in bs
    requires Extremes(Table(s, Some(s[f.donor].topic), bs), f.hi, f.lo)
    requires TopicCountOn(s, s[f.donor].topic, f.hi) - TopicCountOn(s, s[f.donor].topic, f.lo) >= 2
    ensures if t == s[f.donor].topic then CostOf(Apply(s, f), t, bs) == CostOf(s, t, bs) - 1
            else CostOf(Apply(s, f), t, bs) <= CostOf(s, t, bs)
  {
    hide Cost;
    RepairTopicTable(s, f, t, bs);
    var m := Table(s, Some(t), bs);
    if t == s[f.donor].topic {
      CostDropsByOne(m, f.hi, f.lo);
    } else if f.partner.Some? && t == s[f.partner.value].topic {
      DownhillNeverCosts(m, f.lo, f.hi);
    }
  }

  lemma RepairTotalCost(s: seq<Slot>, f: Repair, ts: set<string>, bs: set<string>)
    requires Sound(s, f) && f.hi in bs && f.lo in bs && s[f.donor].topic in ts
    requires Extremes(Table(s, Some(s[f.donor].topic), bs), f.hi, f.lo)
    requires TopicCountOn(s, s[f.donor].topic, f.hi) - TopicCountOn(s, s[f.donor].topic, f.lo) >= 2
    ensures Total(TopicCosts(Apply(s, f), ts, bs)) <= Total(TopicCosts(s, ts, bs)) - 1
  {
    hide Total, CostOf, Extremes, Table;
    var before, after := TopicCosts(s, ts, bs), TopicCosts(Apply(s, f), ts, bs);
    var topic := s[f.donor].topic;
    forall t | t in ts
      ensures after[t] <= if t == topic then before[t] - 1 else before[t]
    {
      RepairCost(s, f, t, bs);
    }
    TotalUpdate(before, topic, before[topic] - 1);
    TotalMonotone(after, before[topic := before[topic] - 1]);
  }

  /** To begin with there are at most as many repairs to make as there are slots. */
  lemma TotalCostAtMostSlots(s: seq<Slot>, ts: set<string>, bs: set<string>)
    requires bs != {} && TopicsOf(s) <= ts
    ensures 0 <= Total(TopicCosts(s, ts, bs)) <= |s|
  {
    hide Total, Cost;
    var costs, counts := TopicCosts(s, ts, bs), TopicTable(s, None, ts);
    forall t | t in ts
      ensures 0 <= costs[t] <= counts[t]
    {
      TableSize(s, Some(t), bs);
      CostAtMostTotal(Table(s, Some(t), bs));
      LevelIffCostZero(Table(s, Some(t), bs));
      SumOverBrokers(s, Some(t), bs);
    }
    TotalMonotone(costs, counts);
    var zeros := map t | t in ts :: 0;
    TotalMonotone(zeros, costs);
    TotalZero(zeros);
    SumOverTopics(s, None, ts);
    CountAll(s);
  }

  /** How many repairs the topics still need, all together. */
  ghost function Owed(s: seq<Slot>, alive: seq<string>, topics: seq<string>): int {
    if alive == [] then 0
    else
      assert alive[0] in Members(alive);
      Total(TopicCosts(s, Members(topics), Members(alive)))
  }

  lemma OwedIsNatural(s: seq<Slot>, alive: seq<string>, topics: seq<string>)
    ensures 0 <= Owed(s, alive, topics)
    ensures TopicsOf(s) <= Members(topics) ==> Owed(s, alive, topics) <= |s|
  {
    if alive != [] {
      assert alive[0] in Members(alive);
      var ts, bs := Members(topics), Members(alive);
      var zeros := map t | t in ts :: 0;
      forall t | t in ts
        ensures 0 <= CostOf(s, t, bs)
      {
        TableSize(s, Some(t), bs);
        LevelIffCostZero(Table(s, Some(t), bs));
      }
      TotalMonotone(zeros, TopicCosts(s, ts, bs));
      TotalZero(zeros);
      if TopicsOf(s) <= ts {
        TotalCostAtMostSlots(s, ts, bs);
      }
    }
  }

  ghost predicate EveryTopicLevel(s: seq<Slot>, alive: seq<string>, topics: seq<string>) {
    forall t :: t in topics ==> Level(Table(s, Some(t), Members(alive)))
  }

  /** The pass's choice, summed up: it stops exactly when every topic is level. */
  lemma {:induction false} FirstRepairIffUneven(s: seq<Slot>, alive: seq<string>, topics: seq<string>, rule: MoveRule)
    requires alive != []
    ensures match FirstRepair(s, alive, topics, rule)
            case None => EveryTopicLevel(s, alive, topics)
            case Some(f) =>
              && Sound(s, f) && s[f.donor].topic in topics
              && Extremes(Table(s, Some(s[f.donor].topic), Members(alive)), f.hi, f.lo)
              && TopicCountOn(s, s[f.donor].topic, f.hi) - TopicCountOn(s, s[f.donor].topic, f.lo) >= 2
              && (f.partner.None? <==> MoveOk(s, f.hi, f.lo, rule))
  {
    hide Table, Extremes, Level, MoveOk, FindRepair;
    if topics != [] {
      RepairIffUnevenCounts(s, alive, topics[0], rule);
      FirstRepairIffUneven(s, alive, topics[1..], rule);
      assert topics == [topics[0]] + topics[1..];
    }
  }

  /** The repair is of the first topic that is not level. */
  lemma {:induction false} FirstUnevenTopic(s: seq<Slot>, alive: seq<string>, topics: seq<string>, rule: MoveRule)
    requires alive != [] && FirstRepair(s, alive, topics, rule).Some?
    ensures var f := FirstRepair(s, alive, topics, rule).value;
            f.donor < |s| && exists k :: 0 <= k < |topics| && topics[k] == s[f.donor].topic && EveryTopicLevel(s, alive, topics[..k])
  {
    hide Table, Extremes, Level, MoveOk, FindRepair;
    RepairIffUnevenCounts(s, alive, topics[0], rule);
    if FindRepair(s, alive, topics[0], rule).Some? {
      assert topics[..0] == [] && EveryTopicLevel(s, alive, topics[..0]);
    } else {
      var rest := topics[1..];
      FirstUnevenTopic(s, alive, rest, rule);
      var f := FirstRepair(s, alive, topics, rule).value;
      var k :| 0 <= k < |rest| && rest[k] == s[f.donor].topic && EveryTopicLevel(s, alive, rest[..k]);
      assert topics[..k + 1] == [topics[0]] + rest[..k];
      assert topics[k + 1] == rest[k] && EveryTopicLevel(s, alive, topics[..k + 1]);
    }
  }

  lemma RepairIffUnevenCounts(s: seq<Slot>, alive: seq<string>, topic: string, rule: MoveRule)
    requires alive != []
    ensures var m := Table(s, Some(topic), Members(alive));
            match FindRepair(s, alive, topic, rule)
            case None => Level(m)
            case Some(f) =>
              && Sound(s, f) && s[f.donor].topic == topic
              && Extremes(m, f.hi, f.lo)
              && TopicCountOn(s, topic, f.hi) - TopicCountOn(s, topic, f.lo) >= 2
              && (f.partner.None? <==> MoveOk(s, f.hi, f.lo, rule))
  {
    RepairIffUneven(s, alive, topic, rule);
  }

  lemma RepairPaysOff(s: seq<Slot>, alive: seq<string>, topics: seq<string>, rule: MoveRule)
    requires alive != []
    ensures match FirstRepair(s, alive, topics, rule)
            case None => true
            case Some(f) =>
              && Sound(s, f) && f.hi in alive && f.lo in alive
              && 0 <= Owed(Apply(s, f), alive, topics) < Owed(s, alive, topics)
  {
    hide Total, CostOf;
    FirstRepairIffUneven(s, alive, topics, rule);
    match FirstRepair(s, alive, topics, rule)
    case None =>
    case Some(f) =>
      OwedIsNatural(Apply(s, f), alive, topics);
      RepairTotalCost(s, f, Members(topics), Members(alive));
  }

  /** Where the pass ends up when it is left to run. */
  ghost function Levelled(s: seq<Slot>, alive: seq<string>, topics: seq<string>, rule: MoveRule): seq<Slot>
    requires alive != []
    decreases Owed(s, alive, topics)
  {
    RepairPaysOff(s, alive, topics, rule);
    match FirstRepair(s, alive, topics, rule)
    case None => s
    case Some(f) => Levelled(Apply(s, f), alive, topics, rule)
  }

  /** How many repairs it makes. */
  ghost function Repairs(s: seq<Slot>, alive: seq<string>, topics: seq<string>, rule: MoveRule): nat
    requires alive != []
    decreases Owed(s, alive, topics)
  {
    RepairPaysOff(s, alive, topics, rule);
    match FirstRepair(s, alive, topics, rule)
    case None => 0
    case Some(f) => 1 + Repairs(Apply(s, f), alive, topics, rule)
  }

  /** The pass ends with every topic level, after no more repairs than the topics owed. */
  lemma {:induction false} LevelledIsLevel(s: seq<Slot>, alive: seq<string>, topics: seq<string>, rule: MoveRule)
    requires alive != []
    ensures var r := Levelled(s, alive, topics, rule);
            && EveryTopicLevel(r, alive, topics)
            && SameSlots(s, r)
            && (AllOn(s, Members(alive)) ==> AllOn(r, Members(alive)))
    ensures Repairs(s, alive, topics, rule) <= Owed(s, alive, topics)
    decreases Owed(s, alive, topics)
  {
    hide EveryTopicLevel, Owed, FirstRepair, TopicCountOn, Extremes, Table;
    FirstRepairIffUneven(s, alive, topics, rule);
    RepairPaysOff(s, alive, topics, rule);
    OwedIsNatural(s, alive, topics);
    match FirstRepair(s, alive, topics, rule)
    case None =>
    case Some(f) =>
      ApplyKeepsSlots(s, f);
      LevelledIsLevel(Apply(s, f), alive, topics, rule);
  }

  lemma ApplyKeepsSlots(s: seq<Slot>, f: Repair)
    requires Sound(s, f)
    ensures SameSlots(s, Apply(s, f))
    ensures forall bs: set<string> :: f.hi in bs && f.lo in bs && AllOn(s, bs) ==> AllOn(Apply(s, f), bs)
  {
  }

  lemma ApplyChangesTwo(was: seq<Slot>, s: seq<Slot>, f: Repair)
    requires |was| == |s| && f.donor < |s| && (f.partner.Some? ==> f.partner.value < |s|)
    ensures |Apply(s, f)| == |s| && Changed(was, Apply(s, f)) <= Changed(was, s) + 2
  {
    hide Changed;
    ChangedRelocate(was, s, f.donor, f.lo);
    if f.partner.Some? {
      ChangedRelocate(was, Relocate(s, f.donor, f.lo), f.partner.value, f.hi);
    }
  }

  lemma {:induction false} ChangesPerRepair(was: seq<Slot>, s: seq<Slot>, alive: seq<string>, topics: seq<string>, rule: MoveRule)
    requires alive != [] && |was| == |s|
    ensures |Levelled(s, alive, topics, rule)| == |s|
    ensures Changed(was, Levelled(s, alive, topics, rule)) <= Changed(was, s) + 2 * Repairs(s, alive, topics, rule)
    decreases Owed(s, alive, topics)
  {
    RepairPaysOff(s, alive, topics, rule);
    hide Owed, FirstRepair, Changed, Apply, Sound, MayComeBack;
    match FirstRepair(s, alive, topics, rule)
    case None =>
    case Some(f) =>
      SoundFits(s, f);
      ApplyChangesTwo(was, s, f);
      ChangesPerRepair(was, Apply(s, f), alive, topics, rule);
  }

  lemma SoundFits(s: seq<Slot>, f: Repair)
    requires Sound(s, f)
    ensures f.donor < |s| && (f.partner.Some? ==> f.partner.value < |s|)
  {
  }

  /** The pass moves at most two partitions for every unit the topics owed. */
  lemma FewPartitionsMove(s: seq<Slot>, alive: seq<string>, topics: seq<string>, rule: MoveRule)
    requires alive != []
    ensures |Levelled(s, alive, topics, rule)| == |s|
    ensures Changed(s, Levelled(s, alive, topics, rule)) <= 2 * Owed(s, alive, topics)
  {
    hide Owed, Levelled, Repairs, EveryTopicLevel;
    ChangedSame(s);
    ChangesPerRepair(s, s, alive, topics, rule);
    LevelledIsLevel(s, alive, topics, rule);
  }

  /** A layout whose topics are level is left exactly as it was. */
  lemma {:induction false} LevelledKeepsLevel(s: seq<Slot>, alive: seq<string>, topics: seq<string>, rule: MoveRule)
    requires alive != [] && EveryTopicLevel(s, alive, topics)
    ensures FirstRepair(s, alive, topics, rule) == None && Levelled(s, alive, topics, rule) == s
    decreases topics
  {
    if topics != [] {
      var m := Table(s, Some(topics[0]), Members(alive));
      assert Level(m);
      assert m[Smoothing.Hi(m, alive)] - m[Smoothing.Lo(m, alive)] <= 1;
      LevelledKeepsLevel(s, alive, topics[1..], rule);
    }
  }

  /** The source's own potential: each repair lowers the sum of squared counts by at least two. */
  lemma RepairSquares(s: seq<Slot>, f: Repair, t: string, bs: set<string>)
    requires Sound(s, f) && f.hi in bs && f.lo in bs
    requires TopicCountOn(s, s[f.donor].topic, f.hi) - TopicCountOn(s, s[f.donor].topic, f.lo) >= 2
    ensures Total(Squares(Table(Apply(s, f), Some(t), bs)))
         <= Total(Squares(Table(s, Some(t), bs))) - (if t == s[f.donor].topic then 2 else 0)
  {
    hide Total, Squares;
    RepairTopicTable(s, f, t, bs);
    var m := Table(s, Some(t), bs);
    if t == s[f.donor].topic {
      ShiftSquares(m, f.hi, f.lo);
    } else if f.partner.Some? && t == s[f.partner.value].topic {
      ShiftSquares(m, f.lo, f.hi);
    }
  }

  // ---- what becomes of the cluster-wide balance ----

  /**
   Starting from a level cluster, a repair leaves it level exactly when
   the two brokers do not hold equally many partitions, or it was a swap.
   */
  lemma RepairKeepsClusterLevelIff(s: seq<Slot>, f: Repair, bs: set<string>, rule: MoveRule)
    requires Sound(s, f) && f.hi in bs && f.lo in bs
    requires f.partner.None? <==> MoveOk(s, f.hi, f.lo, rule)
    requires Level(Table(s, None, bs))
    ensures Level(Table(Apply(s, f), None, bs)) <==> (f.partner.Some? || CountOn(s, f.hi) != CountOn(s, f.lo))
  {
    RepairClusterTable(s, f, bs);
    var m := Table(s, None, bs);
    if f.partner.None? {
      var n := Shift(m, f.hi, f.lo);
      assert n == m[f.hi := m[f.hi] - 1][f.lo := m[f.lo] + 1];
      if m[f.hi] == m[f.lo] {
        assert n[f.lo] - n[f.hi] == 2;
      } else {
        assert m[f.hi] == m[f.lo] + 1;
        assert n == m[f.hi := m[f.lo]][f.lo := m[f.hi]];
      }
    }
  }

  /** Under the strict rule the cluster stays level through the whole pass. */
  lemma {:induction false} StrictRuleLevelsBoth(s: seq<Slot>, alive: seq<string>, topics: seq<string>)
    requires alive != [] && Level(Table(s, None, Members(alive)))
    ensures var r := Levelled(s, alive, topics, StrictlyHeavier);
            Level(Table(r, None, Members(alive))) && EveryTopicLevel(r, alive, topics)
    decreases Owed(s, alive, topics)
  {
    hide Owed, Level, Table, EveryTopicLevel;
    LevelledIsLevel(s, alive, topics, StrictlyHeavier);
    FirstRepairIffUneven(s, alive, topics, StrictlyHeavier);
    RepairPaysOff(s, alive, topics, StrictlyHeavier);
    match FirstRepair(s, alive, topics, StrictlyHeavier)
    case None =>
    case Some(f) =>
      RepairKeepsClusterLevelIff(s, f, Members(alive), StrictlyHeavier);
      StrictRuleLevelsBoth(Apply(s, f), alive, topics);
  }

  /** No repair in the run moves a partition between brokers that hold equally many. */
  ghost predicate NeverTied(s: seq<Slot>, alive: seq<string>, topics: seq<string>)
    requires alive != []
    decreases Owed(s, alive, topics)
  {
    RepairPaysOff(s, alive, topics, AtLeastAsHeavy);
    match FirstRepair(s, alive, topics, AtLeastAsHeavy)
    case None => true
    case Some(f) =>
      && (f.partner.Some? || CountOn(s, f.hi) != CountOn(s, f.lo))
      && NeverTied(Apply(s, f), alive, topics)
  }

  /** Under the source's rule a tie is the only way the pass can unsettle a level cluster. */
  lemma {:induction false} OnlyTiesUnsettle(s: seq<Slot>, alive: seq<string>, topics: seq<string>)
    requires alive != [] && Level(Table(s, None, Members(alive)))
    requires NeverTied(s, alive, topics)
    ensures Level(Table(Levelled(s, alive, topics, AtLeastAsHeavy), None, Members(alive)))
    decreases Owed(s, alive, topics)
  {
    hide Owed, Level, Table;
    FirstRepairIffUneven(s, alive, topics, AtLeastAsHeavy);
    RepairPaysOff(s, alive, topics, AtLeastAsHeavy);
    match FirstRepair(s, alive, topics, AtLeastAsHeavy)
    case None =>
    case Some(f) =>
      RepairKeepsClusterLevelIff(s, f, Members(alive), AtLeastAsHeavy);
      OnlyTiesUnsettle(Apply(s, f), alive, topics);
  }

  /** Topics whose partitions cannot be shared out evenly. */
  ghost function Ragged(s: seq<Slot>, ts: set<string>, n: nat): set<string>
    requires n > 0
  {
    set t | t in ts && Count(s, Where(Some(t), None)) % n != 0
  }

  /**
   Whatever happened on the way, once every topic is level two brokers
   differ by at most one partition for each topic that cannot be shared
   out evenly.
   */
  lemma ClusterGapAtMostRagged(s: seq<Slot>, ts: set<string>, bs: set<string>, a: string, b: string)
    requires a in bs && b in bs && AllOn(s, bs) && TopicsOf(s) <= ts
    requires forall t :: t in ts ==> Level(Table(s, Some(t), bs))
    ensures CountOn(s, a) - CountOn(s, b) <= |Ragged(s, ts, |bs|)|
  {
    hide Total, Level;
    var onA, onB := TopicTable(s, Some(a), ts), TopicTable(s, Some(b), ts);
    var ragged := Ragged(s, ts, |bs|);
    var slack := map t | t in ts :: if t in ragged then 1 else 0;
    var most := map t | t in ts :: onB[t] + slack[t];
    forall t | t in ts
      ensures onA[t] <= most[t]
    {
      TopicGap(s, t, bs, a, b);
    }
    TotalMonotone(onA, most);
    TotalPlus(onB, slack, most);
    TotalOfOnes(slack, ragged);
    SumOverTopics(s, Some(a), ts);
    SumOverTopics(s, Some(b), ts);
  }

  lemma TopicGap(s: seq<Slot>, t: string, bs: set<string>, a: string, b: string)
    requires a in bs && b in bs && AllOn(s, bs) && Level(Table(s, Some(t), bs))
    ensures TopicCountOn(s, t, a) - TopicCountOn(s, t, b)
         <= if Count(s, Where(Some(t), None)) % |bs| != 0 then 1 else 0
  {
    hide Total;
    TableSize(s, Some(t), bs);
    SumOverBrokers(s, Some(t), bs);
    LevelIsBetween(Table(s, Some(t), bs));
  }

  lemma {:induction false} TotalOfOnes(m: Counts, ones: set<string>)
    requires ones <= m.Keys
    requires forall t :: t in m ==> m[t] == if t in ones then 1 else 0
    ensures Total(m) == |ones|
    decreases |ones|
  {
    if ones == {} {
      TotalZero(m);
    } else {
      var t :| t in ones;
      TotalUpdate(m, t, 0);
      TotalOfOnes(m[t := 0], ones - {t});
    }
  }

  // ---- the claim in the source's comment fails on a tie ----

  const TIED: seq<Slot> := [Slot("A", 0, "b0", true), Slot("A", 1, "b0", true),
                            Slot("B", 0, "b1", true), Slot("C", 0, "b1", true)]

  /**
   Two brokers with two partitions each, both of topic A on the first:
   the repair is a plain move, and the totals become one and three.
   */
  lemma EqualTotalsTipTheCluster()
    ensures var alive := ["b0", "b1"];
            && AllOn(TIED, Members(alive))
            && Level(Table(TIED, None, Members(alive)))
            && exists f :: FirstRepair(TIED, alive, ["A", "B", "C"], AtLeastAsHeavy) == Some(f)
                 && Sound(TIED, f) && f.partner.None?
                 && CountOn(Apply(TIED, f), "b0") == 1 && CountOn(Apply(TIED, f), "b1") == 3
  {
    var alive := ["b0", "b1"];
    TiedTables(Members(alive));
    var f := TiedRepair(alive);
    assert FirstRepair(TIED, alive, ["A", "B", "C"], AtLeastAsHeavy) == Some(f) by {
      hide FindRepair;
    }
  }

  lemma TiedTables(bs: set<string>)
    requires bs == Members(["b0", "b1"])
    ensures "b0" in bs && "b1" in bs && forall b :: b in bs ==> b == "b0" || b == "b1"
    ensures AllOn(TIED, bs) && Level(Table(TIED, None, bs))
    ensures CountOn(TIED, "b0") == CountOn(TIED, "b1") == 2
    ensures TopicCountOn(TIED, "A", "b0") == 2 && TopicCountOn(TIED, "A", "b1") == 0
  {
    var alive := ["b0", "b1"];
    assert alive[0] in bs && alive[1] in bs;
    TiedCount(Where(Some("A"), Some("b0")));
    TiedCount(Where(Some("A"), Some("b1")));
    TiedCount(Where(None, Some("b0")));
    TiedCount(Where(None, Some("b1")));
  }

  lemma TiedRepair(alive: seq<string>) returns (f: Repair)
    requires alive == ["b0", "b1"]
    ensures FindRepair(TIED, alive, "A", AtLeastAsHeavy) == Some(f)
    ensures Sound(TIED, f) && f.partner.None?
    ensures CountOn(Apply(TIED, f), "b0") == 1 && CountOn(Apply(TIED, f), "b1") == 3
  {
    hide Count, FindRepair;
    var bs := Members(alive);
    TiedTables(bs);
    var m := Table(TIED, Some("A"), bs);
    assert m["b0"] == 2 && m["b1"] == 0;
    RepairIffUneven(TIED, alive, "A", AtLeastAsHeavy);
    f := FindRepair(TIED, alive, "A", AtLeastAsHeavy).value;
    assert f.hi == "b0" && f.lo == "b1";
    RepairClusterTable(TIED, f, bs);
    assert Table(Apply(TIED, f), None, bs)["b0"] == 1;
    assert Table(Apply(TIED, f), None, bs)["b1"] == 3;
  }

  lemma TiedCount(w: Where)
    ensures Count(TIED, w)
         == (if w.Matches(TIED[0]) then 1 else 0) + (if w.Matches(TIED[1]) then 1 else 0)
          + (if w.Matches(TIED[2]) then 1 else 0) + (if w.Matches(TIED[3]) then 1 else 0)
  {
    var s := TIED;
    assert s[..1] == [] + [s[0]] && s[..2] == s[..1] + [s[1]] && s[..3] == s[..2] + [s[2]] && s == s[..3] + [s[3]];
    CountSnoc([], s[0], w);
    CountSnoc(s[..1], s[1], w);
    CountSnoc(s[..2], s[2], w);
    CountSnoc(s[..3], s[3], w);
  }

  // ---- the pass itself, updating the slots in place ----

  method FindTopicExtremes(slots: array<Slot>, topic: string, alive: seq<string>)
    returns (hi: string, lo: string, hiCount: int, loCount: int)
    requires alive != []
    ensures var m := Table(slots[..], Some(topic), Members(alive));
            && hi == Smoothing.Hi(m, alive) && lo == Smoothing.Lo(m, alive)
            && hiCount == m[hi] && loCount == m[lo]
  {
    ghost var m := Table(slots[..], Some(topic), Members(alive));
    hi, lo := alive[0], alive[0];
    hiCount := TopicCountOn(slots[..], topic, hi);
    loCount := hiCount;
    assert hi == Smoothing.Hi(m, alive[..1]) && lo == Smoothing.Lo(m, alive[..1]);
    hide Smoothing.Hi, Smoothing.Lo, Count;
    for k := 1 to |alive|
      invariant hi == Smoothing.Hi(m, alive[..k]) && lo == Smoothing.Lo(m, alive[..k])
      invariant hiCount == m[hi] && loCount == m[lo]
    {
      var b := alive[k];
      Smoothing.ExtremesStep(m, alive, k);
      var c := TopicCountOn(slots[..], topic, b);
      if c > hiCount {
        hi, hiCount := b, c;
      }
      if c < loCount {
        lo, loCount := b, c;
      }
    }
    assert alive[..|alive|] == alive;
  }

  /** What is picked for one topic, given the cluster totals. */
  method ChooseRepair(slots: array<Slot>, alive: seq<string>, topic: string, totals: map<string, int>)
    returns (f: Option<Repair>)
    requires alive != []
    requires forall b :: b in alive ==> b in totals && totals[b] == CountOn(slots[..], b)
    ensures f == FindRepair(slots[..], alive, topic, AtLeastAsHeavy)
  {
    var hi, lo, hiCount, loCount := FindTopicExtremes(slots, topic, alive);
    if hiCount - loCount <= 1 {
      return None;
    }
    var donor := PickSlot(slots[..], topic, hi, slots.Length);
    if donor.None? {
      return None;
    }
    if totals[hi] >= totals[lo] {
      return Some(Repair(donor.value, hi, lo, None));
    }
    var partner := PickPartner(slots[..], topic, hi, lo, slots.Length);
    if partner.None? {
      return None;
    }
    return Some(Repair(donor.value, hi, lo, partner));
  }

  /** One repair step; the answer says whether there was anything to repair. */
  method ImproveOneTopic(slots: array<Slot>, alive: seq<string>, topics: seq<string>) returns (changed: bool)
    requires alive != []
    modifies slots
    ensures match FirstRepair(old(slots[..]), alive, topics, AtLeastAsHeavy)
            case None => !changed && slots[..] == old(slots[..])
            case Some(f) => changed && Sound(old(slots[..]), f) && slots[..] == Apply(old(slots[..]), f)
  {
    ghost var s := slots[..];
    var totals := Smoothing.CountPerBroker(slots, alive);
    hide FindRepair, Table, Count;
    for k := 0 to |topics|
      invariant slots[..] == s
      invariant FirstRepair(s, alive, topics, AtLeastAsHeavy) == FirstRepair(s, alive, topics[k..], AtLeastAsHeavy)
    {
      assert topics[k..][1..] == topics[k + 1..];
      RepairIffUnevenCounts(s, alive, topics[k], AtLeastAsHeavy);
      var f := ChooseRepair(slots, alive, topics[k], totals);
      if f.Some? {
        slots[f.value.donor] := slots[f.value.donor].(broker := f.value.lo);
        if f.value.partner.Some? {
          slots[f.value.partner.value] := slots[f.value.partner.value].(broker := f.value.hi);
        }
        assert slots[..] == Apply(s, f.value);
        return true;
      }
    }
    return false;
  }

  function TopicOfEach(s: seq<Slot>): seq<string> {
    seq(|s|, i requires 0 <= i < |s| => s[i].topic)
  }

  /** The topics of the slots, sorted and without repeats. */
  function TopicList(s: seq<Slot>): (topics: seq<string>)
    ensures Members(topics) == TopicsOf(s)
  {
    var names := TopicOfEach(s);
    Ordering.SortMembers(names);
    assert forall i :: 0 <= i < |s| ==> names[i] == s[i].topic;
    Ordering.Dedup(Ordering.Sort(names))
  }

  /** In order, each once. */
  lemma TopicListIsSorted(s: seq<Slot>)
    ensures Ordering.Strict(TopicList(s))
  {
    hide Ordering.Strict;
    Ordering.SortIsSorted(TopicOfEach(s));
    Ordering.DedupIsStrict(Ordering.Sort(TopicOfEach(s)));
  }

  lemma CapIsEnough(s: seq<Slot>, alive: seq<string>)
    requires alive != []
    ensures 0 <= Owed(s, alive, TopicList(s)) < |s| * |alive| + 16
  {
    hide Owed, TopicList;
    OwedIsNatural(s, alive, TopicList(s));
    assert |s| * |alive| >= |s| * 1;
  }

  /** The pass, with the iteration cap the source puts on it; `capped` stands for the warning. */
  method SmoothPartitionsPerTopic(slots: array<Slot>, alive: seq<string>) returns (capped: bool)
    modifies slots
    ensures slots[..] == if |alive| < 2 then old(slots[..])
                         else Levelled(old(slots[..]), alive, TopicList(old(slots[..])), AtLeastAsHeavy)
    ensures !capped
  {
    if |alive| < 2 {
      return false;
    }
    hide Levelled, Owed, FirstRepair, TopicList;
    ghost var s := slots[..];
    var topics := TopicList(slots[..]);
    if slots.Length == 0 {
      LevelledKeepsEmpty(s, alive);
      return false;
    }
    var cap := slots.Length * |alive| + 16;
    CapIsEnough(s, alive);
    for k := 0 to cap
      invariant Levelled(slots[..], alive, topics, AtLeastAsHeavy) == Levelled(s, alive, topics, AtLeastAsHeavy)
      invariant 0 <= Owed(slots[..], alive, topics) < cap - k
    {
      LevelledUnfolds(slots[..], alive, topics);
      var changed := ImproveOneTopic(slots, alive, topics);
      if !changed {
        return false;
      }
    }
    return true;
  }

  lemma LevelledUnfolds(s: seq<Slot>, alive: seq<string>, topics: seq<string>)
    requires alive != []
    ensures match FirstRepair(s, alive, topics, AtLeastAsHeavy)
            case None => Levelled(s, alive, topics, AtLeastAsHeavy) == s
            case Some(f) =>
              && Sound(s, f)
              && Levelled(s, alive, topics, AtLeastAsHeavy) == Levelled(Apply(s, f), alive, topics, AtLeastAsHeavy)
              && 0 <= Owed(Apply(s, f), alive, topics) < Owed(s, alive, topics)
  {
    RepairPaysOff(s, alive, topics, AtLeastAsHeavy);
  }

  lemma LevelledKeepsEmpty(s: seq<Slot>, alive: seq<string>)
    requires s == [] && alive != []
    ensures Levelled(s, alive, TopicList(s), AtLeastAsHeavy) == s
  {
    assert TopicList(s) == [];
  }
}
