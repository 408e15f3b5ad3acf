/**
 The balancer's working layout: a list of partition slots, each on a
 broker, and the counts every phase reads off it.
 */
module Layout {
  import opened Totals
  import opened Levelling

  datatype Option<+T> = None | Some(value: T)

  /** One partition and the broker it currently sits on; an empty broker means "not placed yet". */
  datatype Slot = Slot(topic: string, partition: int, broker: string, sticky: bool)

  /** The rendezvous hash, left uninterpreted: everything below holds for every scoring function. */
  type Score = (string, int, string) -> nat

  /** Which slots to count: all of them, one topic's, one broker's, or one topic's on one broker. */
  datatype Where = Where(topic: Option<string>, broker: Option<string>) {
    predicate Matches(s: Slot) {
      && (topic.Some? ==> s.topic == topic.value)
      && (broker.Some? ==> s.broker == broker.value)
    }
  }

  function Count(s: seq<Slot>, w: Where): nat {
    if s == [] then 0
    else Count(s[..|s| - 1], w) + (if w.Matches(s[|s| - 1]) then 1 else 0)
  }

  /** Partitions on `broker`, of every topic. */
  function CountOn(s: seq<Slot>, broker: string): nat {
    Count(s, Where(None, Some(broker)))
  }

  /** Partitions of `topic` on `broker`. */
  function TopicCountOn(s: seq<Slot>, topic: string, broker: string): nat {
    Count(s, Where(Some(topic), Some(broker)))
  }

  function Members(alive: seq<string>): set<string> {
    set b | b in alive
  }

  /** The count of every broker in `bs`, for one topic or (with None) for the whole cluster. */
  ghost function Table(s: seq<Slot>, topic: Option<string>, bs: set<string>): Counts {
    map b | b in bs :: Count(s, Where(topic, Some(b)))
  }

  lemma TableSize(s: seq<Slot>, topic: Option<string>, bs: set<string>)
    ensures Table(s, topic, bs).Keys == bs
    ensures |Table(s, topic, bs)| == |bs|
    ensures bs != {} ==> |Table(s, topic, bs)| > 0
  {
    assert Table(s, topic, bs).Keys == bs;
  }

  ghost predicate AllOn(s: seq<Slot>, bs: set<string>) {
    forall i :: 0 <= i < |s| ==> s[i].broker in bs
  }

  /** `r` is `s` with at most the brokers changed. */
  ghost predicate SameSlots(s: seq<Slot>, r: seq<Slot>) {
    && |r| == |s|
    && forall i :: 0 <= i < |s| ==> r[i] == s[i].(broker := r[i].broker)
  }

  function Relocate(s: seq<Slot>, i: nat, broker: string): (r: seq<Slot>)
    requires i < |s|
  {
    s[i := s[i].(broker := broker)]
  }

  lemma CountSnoc(s: seq<Slot>, x: Slot, w: Where)
    ensures Count(s + [x], w) == Count(s, w) + (if w.Matches(x) then 1 else 0)
  {
    assert (s + [x])[..|s|] == s;
  }

  lemma {:induction false} CountJoin(s: seq<Slot>, r: seq<Slot>, w: Where)
    ensures Count(s + r, w) == Count(s, w) + Count(r, w)
  {
    if r == [] {
      assert s + r == s;
    } else {
      var n := |r| - 1;
      CountJoin(s, r[..n], w);
      assert (s + r)[..|s + r| - 1] == s + r[..n];
    }
  }

  lemma {:induction false} CountUpdate(s: seq<Slot>, i: nat, x: Slot, w: Where)
    requires i < |s|
    ensures Count(s[i := x], w)
         == Count(s, w) - (if w.Matches(s[i]) then 1 else 0) + (if w.Matches(x) then 1 else 0)
  {
    var n := |s| - 1;
    if i == n {
      assert s[i := x][..n] == s[..n];
    } else {
      CountUpdate(s[..n], i, x, w);
      assert s[i := x][..n] == s[..n][i := x];
    }
  }

  lemma {:induction false} CountPositive(s: seq<Slot>, w: Where)
    requires Count(s, w) > 0
    ensures exists i :: 0 <= i < |s| && w.Matches(s[i])
  {
    var n := |s| - 1;
    if !w.Matches(s[n]) {
      CountPositive(s[..n], w);
      var i :| 0 <= i < |s[..n]| && w.Matches(s[..n][i]);
      assert w.Matches(s[i]);
    }
  }

  lemma {:induction false} CountZero(s: seq<Slot>, w: Where)
    requires forall i :: 0 <= i < |s| ==> !w.Matches(s[i])
    ensures Count(s, w) == 0
  {
    if s != [] {
      CountZero(s[..|s| - 1], w);
    }
  }

  lemma {:induction false} CountAll(s: seq<Slot>)
    ensures Count(s, Where(None, None)) == |s|
  {
    if s != [] {
      CountAll(s[..|s| - 1]);
    }
  }

  /** Counts are about topics only where brokers are not asked for. */
  lemma {:induction false} CountSameSlots(s: seq<Slot>, r: seq<Slot>, topic: Option<string>)
    requires SameSlots(s, r)
    ensures Count(s, Where(topic, None)) == Count(r, Where(topic, None))
  {
    if s != [] {
      var n := |s| - 1;
      CountSameSlots(s[..n], r[..n], topic);
      assert r[n].topic == s[n].topic;
    }
  }

  /** Every slot lies on exactly one broker, so the per-broker counts add up. */
  lemma {:induction false} SumOverBrokers(s: seq<Slot>, topic: Option<string>, bs: set<string>)
    ensures Total(Table(s, topic, bs)) <= Count(s, Where(topic, None))
    ensures AllOn(s, bs) ==> Total(Table(s, topic, bs)) == Count(s, Where(topic, None))
  {
    hide Total;
    if s == [] {
      TotalZero(Table(s, topic, bs));
    } else {
      var n := |s| - 1;
      var x := s[n];
      SumOverBrokers(s[..n], topic, bs);
      var before := Table(s[..n], topic, bs);
      if Where(topic, None).Matches(x) && x.broker in bs {
        TotalUpdate(before, x.broker, before[x.broker] + 1);
        assert Table(s, topic, bs) == before[x.broker := before[x.broker] + 1];
      } else {
        assert Table(s, topic, bs) == before;
      }
    }
  }

  ghost function TopicTable(s: seq<Slot>, broker: Option<string>, ts: set<string>): Counts {
    map t | t in ts :: Count(s, Where(Some(t), broker))
  }

  /** Every slot belongs to exactly one topic, so the per-topic counts add up. */
  lemma {:induction false} SumOverTopics(s: seq<Slot>, broker: Option<string>, ts: set<string>)
    requires forall i :: 0 <= i < |s| ==> s[i].topic in ts
    ensures Total(TopicTable(s, broker, ts)) == Count(s, Where(None, broker))
  {
    hide Total;
    if s == [] {
      TotalZero(TopicTable(s, broker, ts));
    } else {
      var n := |s| - 1;
      var x := s[n];
      SumOverTopics(s[..n], broker, ts);
      var before := TopicTable(s[..n], broker, ts);
      assert x.topic in ts;
      if Where(None, broker).Matches(x) {
        TotalUpdate(before, x.topic, before[x.topic] + 1);
        assert TopicTable(s, broker, ts) == before[x.topic := before[x.topic] + 1];
      } else {
        assert TopicTable(s, broker, ts) == before;
      }
    }
  }

  /** Moving one slot shifts one unit in the tables it belongs to and leaves the others alone. */
  lemma RelocateTable(s: seq<Slot>, i: nat, to: string, topic: Option<string>, bs: set<string>)
    requires i < |s| && s[i].broker != to && s[i].broker in bs && to in bs
    ensures Table(Relocate(s, i, to), topic, bs)
         == if topic.None? || topic.value == s[i].topic
            then Shift(Table(s, topic, bs), s[i].broker, to)
            else Table(s, topic, bs)
  {
    forall b | b in bs
      ensures Count(Relocate(s, i, to), Where(topic, Some(b)))
           == if topic.None? || topic.value == s[i].topic
              then Shift(Table(s, topic, bs), s[i].broker, to)[b]
              else Table(s, topic, bs)[b]
    {
      CountUpdate(s, i, s[i].(broker := to), Where(topic, Some(b)));
    }
  }

  /** How many slots two layouts put on different brokers. */
  ghost function Changed(s: seq<Slot>, r: seq<Slot>): nat
    requires |s| == |r|
  {
    if s == [] then 0
    else
      Changed(s[..|s| - 1], r[..|s| - 1])
      + (if s[|s| - 1].broker != r[|s| - 1].broker then 1 else 0)
  }

  lemma {:induction false} ChangedSame(s: seq<Slot>)
    ensures Changed(s, s) == 0
  {
    if s != [] {
      ChangedSame(s[..|s| - 1]);
    }
  }

  /** One more relocation changes at most one more slot. */
  lemma {:induction false} ChangedRelocate(s: seq<Slot>, r: seq<Slot>, i: nat, to: string)
    requires |s| == |r| && i < |r|
    ensures Changed(s, Relocate(r, i, to)) <= Changed(s, r) + 1
  {
    var n := |s| - 1;
    if i == n {
      assert Relocate(r, i, to)[..n] == r[..n];
    } else {
      ChangedRelocate(s[..n], r[..n], i, to);
      assert Relocate(r, i, to)[..n] == Relocate(r[..n], i, to);
    }
  }
}
