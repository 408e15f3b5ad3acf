/**
 Who is moved first: a partition whose previous leader is alive stays with
 it as long as a partition without one can be moved instead. Stated from
 the previous assignment and the brokers alone.
 */
module Survivors {
  import opened Layout
  import opened Assignments
  import opened Balance
  import Ordering
  import Placement
  import Smoothing
  import PerTopic

  /** The partition's previous leader is among the brokers. */
  ghost predicate Survives(prev: seq<PartitionRow>, brokers: seq<string>, name: (string, int)) {
    var key := PartitionKey(name.0, name.1);
    key in ByKey(prev) && ByKey(prev)[key].broker in brokers
  }

  /** The slots a balance starts from. */
  ghost function Start(prev: seq<PartitionRow>, brokers: seq<string>, topics: seq<TopicSpec>): seq<Slot> {
    Pinned(ByKey(prev), Ordering.Sort(brokers), Catalogue(topics))
  }

  /** A slot counts as inherited, and starts on a broker, exactly if its previous leader is alive; and that is the broker. */
  lemma StickyIffSurvives(prev: seq<PartitionRow>, brokers: seq<string>, topics: seq<TopicSpec>, i: nat)
    requires i < |Catalogue(topics)|
    ensures |Start(prev, brokers, topics)| == |Catalogue(topics)|
    ensures var x, name := Start(prev, brokers, topics)[i], Catalogue(topics)[i];
            && (x.topic, x.partition) == name
            && (x.sticky <==> Survives(prev, brokers, name))
            && x.broker == if Survives(prev, brokers, name) then ByKey(prev)[PartitionKey(name.0, name.1)].broker else ""
  {
    hide Catalogue, ByKey;
    Ordering.SortMembers(brokers);
  }

  lemma StickyStays(prev: seq<PartitionRow>, brokers: seq<string>, topics: seq<TopicSpec>, s: seq<Slot>)
    requires SameSlots(Start(prev, brokers, topics), s)
    ensures |s| == |Catalogue(topics)|
    ensures forall i :: 0 <= i < |s| ==> (s[i].sticky <==> Survives(prev, brokers, Catalogue(topics)[i]))
  {
    hide Catalogue, Survives, ByKey;
    forall i | 0 <= i < |s|
      ensures s[i].sticky <==> Survives(prev, brokers, Catalogue(topics)[i])
    {
      StickyIffSurvives(prev, brokers, topics, i);
    }
  }

  // ---- the cluster-wide pass, round by round ----

  ghost function Rounds(s: seq<Slot>, alive: seq<string>, score: Score, k: nat): seq<Slot> {
    if k == 0 then s
    else
      var before := Rounds(s, alive, score, k - 1);
      match Smoothing.NextMove(before, alive, score)
      case None => before
      case Some(r) => r
  }

  /** The rounds are those of the pass: they end where it ends. */
  lemma {:induction false} RoundsReachTheEnd(s: seq<Slot>, alive: seq<string>, score: Score, k: nat)
    ensures Smoothing.Smoothed(Rounds(s, alive, score, k), alive, score) == Smoothing.Smoothed(s, alive, score)
    ensures SameSlots(s, Rounds(s, alive, score, k))
    ensures k >= Smoothing.Rank(s, alive) ==> Rounds(s, alive, score, k) == Smoothing.Smoothed(s, alive, score)
    ensures Smoothing.Rank(Rounds(s, alive, score, k), alive) <= if k >= Smoothing.Rank(s, alive) then 0 else Smoothing.Rank(s, alive) - k
  {
    hide Smoothing.Rank, Smoothing.NextMove;
    if k > 0 {
      RoundsReachTheEnd(s, alive, score, k - 1);
      var before := Rounds(s, alive, score, k - 1);
      Smoothing.NextMoveIsOneMove(before, alive, score);
      SameSlotsChain(s, before, Rounds(s, alive, score, k));
    }
    var now := Rounds(s, alive, score, k);
    Smoothing.NextMoveIsOneMove(now, alive, score);
    if Smoothing.NextMove(now, alive, score).Some? {
      Smoothing.NextMoveIsOneMove(Smoothing.NextMove(now, alive, score).value, alive, score);
    }
  }

  /** The slot a round moves was on the fullest broker, and is a fresh one if any is there. */
  lemma MovedLast(s: seq<Slot>, alive: seq<string>, score: Score, i: nat, j: nat)
    requires Smoothing.NextMove(s, alive, score).Some? && |Smoothing.NextMove(s, alive, score).value| == |s|
    requires i < |s| && j < |s| && Smoothing.NextMove(s, alive, score).value[i].broker != s[i].broker
    requires s[j].broker == s[i].broker && s[i].sticky
    ensures s[j].sticky
  {
    var m := Table(s, None, Members(alive));
    var hi, lo := Smoothing.Hi(m, alive), Smoothing.Lo(m, alive);
    hide Table, Smoothing.Hi, Smoothing.Lo;
    if !s[j].sticky && s[j].broker == hi {
      Smoothing.FreshBeforeInherited(s, score, hi, lo, |s|, j);
    }
  }

  /**
   From any previous assignment: a round of the pass moves a partition
   whose previous leader is alive only if every partition on that broker
   has a previous leader that is.
   */
  lemma InheritedLeavesLast(prev: seq<PartitionRow>, brokers: seq<string>, topics: seq<TopicSpec>, score: Score, k: nat, i: nat, j: nat)
    requires brokers != []
    ensures Ordering.Sort(brokers) != []
    ensures var alive := Ordering.Sort(brokers);
            var s := Rounds(Placement.Placed(Start(prev, brokers, topics), alive, score), alive, score, k);
            && |s| == |Catalogue(topics)|
            && (i < |s| && j < |s| && Smoothing.NextMove(s, alive, score).Some? ==>
                  var r := Smoothing.NextMove(s, alive, score).value;
                  && |r| == |s|
                  && (r[i].broker != s[i].broker && Survives(prev, brokers, Catalogue(topics)[i]) && s[j].broker == s[i].broker
                      ==> Survives(prev, brokers, Catalogue(topics)[j])))
  {
    Ordering.SortMembers(brokers);
    var alive, start := Ordering.Sort(brokers), Start(prev, brokers, topics);
    hide Smoothing.NextMove, Survives, Start, Catalogue, Placement.Placed, SameSlots, Smoothing.Rank;
    var placed := Placement.Placed(start, alive, score);
    PlacedSame(start, alive, score);
    RoundsReachTheEnd(placed, alive, score, k);
    var s := Rounds(placed, alive, score, k);
    SameSlotsChain(start, placed, s);
    StickyStays(prev, brokers, topics, s);
    Smoothing.NextMoveIsOneMove(s, alive, score);
    if i < |s| && j < |s| && Smoothing.NextMove(s, alive, score).Some? {
      SameLength(s, Smoothing.NextMove(s, alive, score).value);
      if Smoothing.NextMove(s, alive, score).value[i].broker != s[i].broker && s[j].broker == s[i].broker && s[i].sticky {
        MovedLast(s, alive, score, i, j);
      }
    }
  }

  lemma PlacedSame(s: seq<Slot>, alive: seq<string>, score: Score)
    requires alive != []
    ensures SameSlots(s, Placement.Placed(s, alive, score))
  {
    Placement.PlacedUpToFrame(s, |s|, alive, score);
  }

  lemma SameLength(s: seq<Slot>, r: seq<Slot>)
    requires SameSlots(s, r)
    ensures |s| == |r|
  {
  }

  // ---- the per-topic pass ----

  lemma RepairPicks(s: seq<Slot>, alive: seq<string>, topic: string, rule: PerTopic.MoveRule)
    requires alive != [] && PerTopic.FindRepair(s, alive, topic, rule).Some?
    ensures var f := PerTopic.FindRepair(s, alive, topic, rule).value;
            && PerTopic.PickSlot(s, topic, f.hi, |s|) == Some(f.donor)
            && (f.partner.Some? ==> PerTopic.PickPartner(s, topic, f.hi, f.lo, |s|) == f.partner)
  {
    hide Table, Count, PerTopic.MoveOk, PerTopic.PickSlot, PerTopic.PickPartner, Smoothing.Hi, Smoothing.Lo;
  }

  /** A repair gives away, or brings back, an inherited slot only if every other candidate is inherited. */
  lemma InheritedDonatesLast(prev: seq<PartitionRow>, brokers: seq<string>, topics: seq<TopicSpec>, s: seq<Slot>, alive: seq<string>,
                             topic: string, rule: PerTopic.MoveRule, j: nat)
    requires SameSlots(Start(prev, brokers, topics), s) && alive != [] && j < |s| && PerTopic.FindRepair(s, alive, topic, rule).Some?
    ensures |s| == |Catalogue(topics)|
    ensures var f := PerTopic.FindRepair(s, alive, topic, rule).value;
            && f.donor < |s| && (f.partner.Some? ==> f.partner.value < |s|)
            && (Survives(prev, brokers, Catalogue(topics)[f.donor]) && s[j].topic == topic && s[j].broker == f.hi
                ==> Survives(prev, brokers, Catalogue(topics)[j]))
            && (f.partner.Some? && Survives(prev, brokers, Catalogue(topics)[f.partner.value])
                && s[j].broker == f.lo && s[j].topic != topic && TopicCountOn(s, s[j].topic, f.lo) > TopicCountOn(s, s[j].topic, f.hi)
                ==> Survives(prev, brokers, Catalogue(topics)[j]))
  {
    RepairPicks(s, alive, topic, rule);
    StickyStays(prev, brokers, topics, s);
    hide Survives, Start, Catalogue, Count, SameSlots, PerTopic.FindRepair, PerTopic.PickSlot, PerTopic.PickPartner;
    var f := PerTopic.FindRepair(s, alive, topic, rule).value;
    if s[j].topic == topic && s[j].broker == f.hi {
      PerTopic.NoCheaperSlot(s, topic, f.hi, |s|, j);
    }
    if f.partner.Some? && PerTopic.MayComeBack(s, topic, f.hi, f.lo, s[j]) {
      PerTopic.NoCheaperPartner(s, topic, f.hi, f.lo, |s|, j);
    }
  }
}
