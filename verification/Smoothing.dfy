/**
 The cluster-wide smoothing pass: move partitions from a fullest broker
 to an emptiest one until no two alive brokers differ by more than one.
 */
module Smoothing {
  import opened Totals
  import opened Levelling
  import opened Layout
  import Ordering

  /** The first broker of `bs` with the highest count. */
  ghost function Hi(m: Counts, bs: seq<string>): (h: string)
    requires bs != [] && forall b :: b in bs ==> b in m
    ensures h in bs && forall b :: b in bs ==> m[b] <= m[h]
  {
    var n := |bs| - 1;
    if n == 0 then bs[0]
    else
      var h := Hi(m, bs[..n]);
      assert bs == bs[..n] + [bs[n]];
      if m[bs[n]] > m[h] then bs[n] else h
  }

  /** The first broker of `bs` with the lowest count. */
  ghost function Lo(m: Counts, bs: seq<string>): (l: string)
    requires bs != [] && forall b :: b in bs ==> b in m
    ensures l in bs && forall b :: b in bs ==> m[l] <= m[b]
  {
    var n := |bs| - 1;
    if n == 0 then bs[0]
    else
      var l := Lo(m, bs[..n]);
      assert bs == bs[..n] + [bs[n]];
      if m[bs[n]] < m[l] then bs[n] else l
  }

  ghost predicate FewerBefore(m: Counts, bs: seq<string>, i: int)
    requires forall b :: b in bs ==> b in m
  {
    0 <= i < |bs| && forall j :: 0 <= j < i ==> m[bs[j]] < m[bs[i]]
  }

  ghost predicate MoreBefore(m: Counts, bs: seq<string>, i: int)
    requires forall b :: b in bs ==> b in m
  {
    0 <= i < |bs| && forall j :: 0 <= j < i ==> m[bs[j]] > m[bs[i]]
  }

  /** Is this slot's topic over-represented on the donor? Then moving it also helps the topic. */
  predicate HelpsTopic(s: seq<Slot>, topic: string, hi: string, lo: string) {
    TopicCountOn(s, topic, hi) > TopicCountOn(s, topic, lo)
  }

  /** Is moving `a` from `hi` to `lo` preferred over moving `b`? */
  predicate BetterVictim(s: seq<Slot>, score: Score, hi: string, lo: string, a: Slot, b: Slot) {
    var helpsA := HelpsTopic(s, a.topic, hi, lo);
    var helpsB := HelpsTopic(s, b.topic, hi, lo);
    if a.sticky != b.sticky then !a.sticky
    else if helpsA != helpsB then helpsA
    else if score(a.topic, a.partition, lo) != score(b.topic, b.partition, lo) then
      score(a.topic, a.partition, lo) > score(b.topic, b.partition, lo)
    else
      Ordering.Less(a.topic, b.topic) || (a.topic == b.topic && a.partition < b.partition)
  }

  /** The preferred victim among the first `n` slots. */
  function VictimAmong(s: seq<Slot>, score: Score, hi: string, lo: string, n: nat): (v: Option<nat>)
    requires n <= |s|
    ensures v.Some? ==> v.value < n && s[v.value].broker == hi
    ensures v.None? ==> forall i :: 0 <= i < n ==> s[i].broker != hi
  {
    if n == 0 then None
    else
      var best := VictimAmong(s, score, hi, lo, n - 1);
      if s[n - 1].broker != hi then best
      else if best.None? || BetterVictim(s, score, hi, lo, s[n - 1], s[best.value]) then Some(n - 1)
      else best
  }

  lemma BetterIsTransitive(s: seq<Slot>, score: Score, hi: string, lo: string, a: Slot, b: Slot, c: Slot)
    requires BetterVictim(s, score, hi, lo, a, b) && BetterVictim(s, score, hi, lo, b, c)
    ensures BetterVictim(s, score, hi, lo, a, c)
  {
    hide HelpsTopic, Ordering.Less;
    if Ordering.Less(a.topic, b.topic) && Ordering.Less(b.topic, c.topic) {
      Ordering.LessTransitive(a.topic, b.topic, c.topic);
    }
  }

  lemma {:induction false} VictimIsBest(s: seq<Slot>, score: Score, hi: string, lo: string, n: nat, j: nat)
    requires j < n <= |s| && s[j].broker == hi
    ensures VictimAmong(s, score, hi, lo, n).Some?
    ensures !BetterVictim(s, score, hi, lo, s[j], s[VictimAmong(s, score, hi, lo, n).value])
  {
    hide HelpsTopic;
    var x := s[n - 1];
    if j < n - 1 {
      VictimIsBest(s, score, hi, lo, n - 1, j);
      var best := s[VictimAmong(s, score, hi, lo, n - 1).value];
      if x.broker == hi && BetterVictim(s, score, hi, lo, x, best) && BetterVictim(s, score, hi, lo, s[j], x) {
        BetterIsTransitive(s, score, hi, lo, s[j], x, best);
        assert false;
      }
    } else if BetterVictim(s, score, hi, lo, x, x) {
      Ordering.LessAsymmetric(x.topic, x.topic);
      assert false;
    }
  }

  /**
   The victim against any slot on the heaviest broker, field by field: an
   inherited one only if that is, one whose topic does not lean only if
   that one's does not, then the higher score for the lightest broker,
   then the lower topic, then the lower partition.
   */
  lemma NoBetterVictim(s: seq<Slot>, score: Score, hi: string, lo: string, n: nat, j: nat)
    requires j < n <= |s| && s[j].broker == hi
    ensures VictimAmong(s, score, hi, lo, n).Some?
    ensures var v, x := s[VictimAmong(s, score, hi, lo, n).value], s[j];
            var leansV, leansX := TopicCountOn(s, v.topic, hi) > TopicCountOn(s, v.topic, lo), TopicCountOn(s, x.topic, hi) > TopicCountOn(s, x.topic, lo);
            var scoreV, scoreX := score(v.topic, v.partition, lo), score(x.topic, x.partition, lo);
            && (v.sticky ==> x.sticky)
            && (v.sticky == x.sticky && leansX ==> leansV)
            && (v.sticky == x.sticky && leansX == leansV ==> scoreV >= scoreX)
            && (v.sticky == x.sticky && leansX == leansV && scoreV == scoreX ==>
                  (v.topic == x.topic && v.partition <= x.partition) || Ordering.Less(v.topic, x.topic))
  {
    VictimIsBest(s, score, hi, lo, n, j);
    hide Count, Ordering.Less;
    Ordering.LessTotal(s[VictimAmong(s, score, hi, lo, n).value].topic, s[j].topic);
  }

  /** One iteration of the pass, or None when it is done. */
  ghost function NextMove(s: seq<Slot>, alive: seq<string>, score: Score): Option<seq<Slot>> {
    if |alive| < 2 || s == [] then None
    else
      var m := Table(s, None, Members(alive));
      var hi, lo := Hi(m, alive), Lo(m, alive);
      if m[hi] - m[lo] <= 1 then None
      else
        match VictimAmong(s, score, hi, lo, |s|)
        case None => None
        case Some(i) => Some(Relocate(s, i, lo))
  }

  /** `r` is `s` with a single slot put elsewhere. */
  ghost predicate OneMove(s: seq<Slot>, r: seq<Slot>) {
    exists i: nat, b: string :: i < |s| && r == Relocate(s, i, b)
  }

  /** How far the cluster is from level. */
  ghost function Rank(s: seq<Slot>, alive: seq<string>): int {
    if alive == [] then 0
    else
      assert alive[0] in Members(alive);
      TableSize(s, None, Members(alive));
      Cost(Table(s, None, Members(alive)))
  }

  /** Where the pass ends up. */
  ghost function Smoothed(s: seq<Slot>, alive: seq<string>, score: Score): seq<Slot>
    decreases Rank(s, alive)
  {
    match NextMove(s, alive, score)
    case None => s
    case Some(r) => NextMoveIsOneMove(s, alive, score); Smoothed(r, alive, score)
  }

  /** How many partitions the pass moves. */
  ghost function SmoothMoves(s: seq<Slot>, alive: seq<string>, score: Score): nat
    decreases Rank(s, alive)
  {
    match NextMove(s, alive, score)
    case None => 0
    case Some(r) => NextMoveIsOneMove(s, alive, score); 1 + SmoothMoves(r, alive, score)
  }

  /** One iteration moves one slot between alive brokers and brings the cluster one move closer to level. */
  lemma NextMoveIsOneMove(s: seq<Slot>, alive: seq<string>, score: Score)
    ensures Rank(s, alive) >= 0
    ensures match NextMove(s, alive, score)
            case None => Level(Table(s, None, Members(alive))) && Rank(s, alive) == 0
            case Some(r) =>
              && Rank(r, alive) == Rank(s, alive) - 1
              && SameSlots(s, r)
              && (AllOn(s, Members(alive)) ==> AllOn(r, Members(alive)))
              && OneMove(s, r)
  {
    hide Cost;
    var bs := Members(alive);
    var m := Table(s, None, bs);
    if alive != [] {
      assert alive[0] in bs;
      TableSize(s, None, bs);
      LevelIffCostZero(m);
    }
    if |alive| >= 2 && s != [] {
      var hi, lo := Hi(m, alive), Lo(m, alive);
      if m[hi] - m[lo] >= 2 {
        CountPositive(s, Where(None, Some(hi)));
        var i := VictimAmong(s, score, hi, lo, |s|).value;
        RelocateTable(s, i, lo, None, bs);
        CostDropsByOne(m, hi, lo);
        LevelIffCostZero(Shift(m, hi, lo));
      }
    }
  }

  /** The pass ends with the alive brokers level, having changed nothing but brokers. */
  lemma {:induction false} SmoothedIsLevel(s: seq<Slot>, alive: seq<string>, score: Score)
    ensures Level(Table(Smoothed(s, alive, score), None, Members(alive)))
    ensures SameSlots(s, Smoothed(s, alive, score))
    ensures AllOn(s, Members(alive)) ==> AllOn(Smoothed(s, alive, score), Members(alive))
    ensures SmoothMoves(s, alive, score) == Rank(s, alive)
    decreases Rank(s, alive)
  {
    hide Table, Cost;
    NextMoveIsOneMove(s, alive, score);
    match NextMove(s, alive, score)
    case None =>
    case Some(r) => SmoothedIsLevel(r, alive, score);
  }

  /** A layout that is already level is left exactly as it was. */
  lemma SmoothedKeepsLevel(s: seq<Slot>, alive: seq<string>, score: Score)
    requires Level(Table(s, None, Members(alive)))
    ensures Smoothed(s, alive, score) == s
  {
    if |alive| >= 2 {
      var m := Table(s, None, Members(alive));
      assert alive[0] in m;
      assert m[Hi(m, alive)] - m[Lo(m, alive)] <= 1;
    }
  }

  // ---- the pass moves as little as any sequence of moves could ----

  /** `s` with the first `k` slots already where `r` has them. */
  ghost function Mixed(s: seq<Slot>, r: seq<Slot>, k: nat): (x: seq<Slot>)
    requires SameSlots(s, r) && k <= |s|
    ensures |x| == |s|
  {
    r[..k] + s[k..]
  }

  lemma MixedStep(s: seq<Slot>, r: seq<Slot>, k: nat)
    requires SameSlots(s, r) && k < |s|
    ensures Mixed(s, r, k + 1) == Relocate(Mixed(s, r, k), k, r[k].broker)
  {
  }

  /** Each changed slot can lower the excess and the shortfall by at most one. */
  lemma {:induction false} ChangesPayForCost(s: seq<Slot>, r: seq<Slot>, bs: set<string>, c: int, f: int, k: nat)
    requires SameSlots(s, r) && AllOn(s, bs) && AllOn(r, bs) && k <= |s|
    ensures Excess(Table(s, None, bs), c) <= Excess(Table(Mixed(s, r, k), None, bs), c) + Changed(s[..k], r[..k])
    ensures Shortfall(Table(s, None, bs), f) <= Shortfall(Table(Mixed(s, r, k), None, bs), f) + Changed(s[..k], r[..k])
  {
    hide Total;
    if k == 0 {
      assert Mixed(s, r, 0) == s;
    } else {
      var j := k - 1;
      ChangesPayForCost(s, r, bs, c, f, j);
      MixedStep(s, r, j);
      assert s[..k][..j] == s[..j] && r[..k][..j] == r[..j];
      var x := Mixed(s, r, j);
      assert x[j] == s[j];
      if s[j].broker != r[j].broker {
        RelocateTable(x, j, r[j].broker, None, bs);
        ShiftExcess(Table(x, None, bs), s[j].broker, r[j].broker, c);
        ShiftShortfall(Table(x, None, bs), s[j].broker, r[j].broker, f);
      } else {
        assert Relocate(x, j, r[j].broker) == x;
      }
    }
  }

  lemma SameMean(s: seq<Slot>, r: seq<Slot>, bs: set<string>)
    requires bs != {} && SameSlots(s, r) && AllOn(s, bs) && AllOn(r, bs)
    ensures |Table(s, None, bs)| == |Table(r, None, bs)| > 0
    ensures Ceiling(Table(s, None, bs)) == Ceiling(Table(r, None, bs))
    ensures Floor(Table(s, None, bs)) == Floor(Table(r, None, bs))
  {
    TableSize(s, None, bs);
    TableSize(r, None, bs);
    SumOverBrokers(s, None, bs);
    SumOverBrokers(r, None, bs);
    CountSameSlots(s, r, None);
  }

  /** No level layout of the same slots differs in fewer places than the cost of levelling. */
  lemma CostIsALowerBound(s: seq<Slot>, r: seq<Slot>, bs: set<string>)
    requires bs != {} && SameSlots(s, r) && AllOn(s, bs) && AllOn(r, bs)
    requires Level(Table(r, None, bs))
    ensures |Table(s, None, bs)| > 0
    ensures Cost(Table(s, None, bs)) <= Changed(s, r)
  {
    hide Table, Excess, Shortfall, Floor, Ceiling, Changed;
    SameMean(s, r, bs);
    var m, n := Table(s, None, bs), Table(r, None, bs);
    LevelIffCostZero(n);
    ChangesPayForCost(s, r, bs, Ceiling(m), Floor(m), |s|);
    assert Mixed(s, r, |s|) == r && s[..|s|] == s && r[..|s|] == r;
  }

  /** The number of moves bounds the number of slots that end up elsewhere. */
  lemma {:induction false} ChangedAtMostMoves(s0: seq<Slot>, s: seq<Slot>, alive: seq<string>, score: Score)
    requires |s0| == |s|
    ensures |Smoothed(s, alive, score)| == |s|
    ensures Changed(s0, Smoothed(s, alive, score)) <= Changed(s0, s) + SmoothMoves(s, alive, score)
    decreases Rank(s, alive)
  {
    NextMoveIsOneMove(s, alive, score);
    match NextMove(s, alive, score)
    case None =>
    case Some(r) =>
      var i: nat, b: string :| i < |s| && r == Relocate(s, i, b);
      ChangedRelocate(s0, s, i, b);
      ChangedAtMostMoves(s0, r, alive, score);
  }

  /** No slot is moved twice: there are exactly as many moves as slots that end up elsewhere. */
  lemma NoSlotMovesTwice(s: seq<Slot>, alive: seq<string>, score: Score)
    requires alive != [] && AllOn(s, Members(alive))
    ensures |Smoothed(s, alive, score)| == |s|
    ensures Changed(s, Smoothed(s, alive, score)) == SmoothMoves(s, alive, score)
  {
    assert alive[0] in Members(alive);
    SmoothedIsLevel(s, alive, score);
    CostIsALowerBound(s, Smoothed(s, alive, score), Members(alive));
    ChangedAtMostMoves(s, s, alive, score);
    ChangedSame(s);
  }

  /** A sequence of layouts in which each one moves a single slot of the one before. */
  ghost predicate MoveSequence(path: seq<seq<Slot>>) {
    path != [] && forall k :: 0 <= k < |path| - 1 ==> OneMove(path[k], path[k + 1])
  }

  lemma {:induction false} MoveSequenceChanges(path: seq<seq<Slot>>)
    requires MoveSequence(path)
    ensures SameSlots(path[0], path[|path| - 1])
    ensures Changed(path[0], path[|path| - 1]) <= |path| - 1
  {
    var n := |path| - 1;
    if n == 0 {
      ChangedSame(path[0]);
    } else {
      MoveSequenceChanges(path[..n]);
      var k := n - 1;
      assert OneMove(path[k], path[k + 1]);
      var i: nat, b: string :| i < |path[k]| && path[k + 1] == Relocate(path[k], i, b);
      ChangedRelocate(path[0], path[k], i, b);
    }
  }

  /** Whoever levels the cluster by moving one partition at a time needs at least as many moves as the pass. */
  lemma FewestMoves(path: seq<seq<Slot>>, alive: seq<string>, score: Score)
    requires MoveSequence(path) && alive != []
    requires AllOn(path[0], Members(alive)) && AllOn(path[|path| - 1], Members(alive))
    requires Level(Table(path[|path| - 1], None, Members(alive)))
    ensures SmoothMoves(path[0], alive, score) <= |path| - 1
  {
    assert alive[0] in Members(alive);
    MoveSequenceChanges(path);
    CostIsALowerBound(path[0], path[|path| - 1], Members(alive));
    SmoothedIsLevel(path[0], alive, score);
  }

  // ---- which slot is moved ----

  /** The victim is not beaten on stickiness: a slot inherited from the previous assignment moves only if every slot on the donor was inherited. */
  lemma {:induction false} FreshBeforeInherited(s: seq<Slot>, score: Score, hi: string, lo: string, n: nat, j: nat)
    requires n <= |s| && j < n && s[j].broker == hi && !s[j].sticky
    ensures VictimAmong(s, score, hi, lo, n).Some?
    ensures !s[VictimAmong(s, score, hi, lo, n).value].sticky
  {
    if j < n - 1 {
      FreshBeforeInherited(s, score, hi, lo, n - 1, j);
    }
  }

  // ---- the pass itself, updating the slots in place ----

  lemma {:induction false} ExtremesAgree(m: Counts, n: Counts, bs: seq<string>)
    requires bs != [] && forall b :: b in bs ==> b in m && b in n && m[b] == n[b]
    ensures Hi(m, bs) == Hi(n, bs) && Lo(m, bs) == Lo(n, bs)
  {
    if |bs| > 1 {
      ExtremesAgree(m, n, bs[..|bs| - 1]);
    }
  }

  /** Looking at one more broker. */
  lemma ExtremesStep(m: Counts, bs: seq<string>, k: nat)
    requires 1 <= k < |bs| && forall b :: b in bs ==> b in m
    ensures var h, l, b := Hi(m, bs[..k]), Lo(m, bs[..k]), bs[k];
            && Hi(m, bs[..k + 1]) == (if m[b] > m[h] then b else h)
            && Lo(m, bs[..k + 1]) == (if m[b] < m[l] then b else l)
  {
    assert bs[..k + 1][..k] == bs[..k];
  }

  lemma FewerThen(m: Counts, front: seq<string>, b: string, i: nat)
    requires b in m && (forall c :: c in front ==> c in m) && FewerBefore(m, front, i)
    ensures FewerBefore(m, front + [b], i)
    ensures (forall c :: c in front ==> m[c] < m[b]) ==> FewerBefore(m, front + [b], |front|)
  {
  }

  lemma {:induction false} FirstHeaviest(m: Counts, bs: seq<string>) returns (i: nat)
    requires bs != [] && forall b :: b in bs ==> b in m
    ensures FewerBefore(m, bs, i) && bs[i] == Hi(m, bs)
  {
    var n := |bs| - 1;
    if n == 0 {
      i := 0;
    } else {
      var front := bs[..n];
      assert bs == front + [bs[n]];
      i := FirstHeaviest(m, front);
      FewerThen(m, front, bs[n], i);
      hide FewerBefore;
      i := if m[bs[n]] > m[bs[i]] then n else i;
    }
  }

  lemma MoreThen(m: Counts, front: seq<string>, b: string, i: nat)
    requires b in m && (forall c :: c in front ==> c in m) && MoreBefore(m, front, i)
    ensures MoreBefore(m, front + [b], i)
    ensures (forall c :: c in front ==> m[c] > m[b]) ==> MoreBefore(m, front + [b], |front|)
  {
  }

  lemma {:induction false} FirstLightest(m: Counts, bs: seq<string>) returns (i: nat)
    requires bs != [] && forall b :: b in bs ==> b in m
    ensures MoreBefore(m, bs, i) && bs[i] == Lo(m, bs)
  {
    var n := |bs| - 1;
    if n == 0 {
      i := 0;
    } else {
      var front := bs[..n];
      assert bs == front + [bs[n]];
      i := FirstLightest(m, front);
      MoreThen(m, front, bs[n], i);
      hide MoreBefore;
      i := if m[bs[n]] < m[bs[i]] then n else i;
    }
  }

  /** Among equals both scans keep the first: every broker before the heaviest has fewer, and before the lightest more. */
  lemma FirstOfEquals(m: Counts, bs: seq<string>) returns (i: nat, j: nat)
    requires bs != [] && forall b :: b in bs ==> b in m
    ensures FewerBefore(m, bs, i) && bs[i] == Hi(m, bs)
    ensures MoreBefore(m, bs, j) && bs[j] == Lo(m, bs)
  {
    i := FirstHeaviest(m, bs);
    j := FirstLightest(m, bs);
  }

  /** The fullest and the emptiest broker; the first one wins a tie at either end. */
  method FindExtremes(counts: map<string, int>, alive: seq<string>) returns (hi: string, lo: string)
    requires alive != [] && forall b :: b in alive ==> b in counts
    ensures hi == Hi(counts, alive) && lo == Lo(counts, alive)
  {
    hi, lo := alive[0], alive[0];
    assert hi == Hi(counts, alive[..1]) && lo == Lo(counts, alive[..1]);
    hide Hi, Lo;
    for k := 1 to |alive|
      invariant hi == Hi(counts, alive[..k]) && lo == Lo(counts, alive[..k])
    {
      var b := alive[k];
      ExtremesStep(counts, alive, k);
      if counts[b] > counts[hi] {
        hi := b;
      }
      if counts[b] < counts[lo] {
        lo := b;
      }
    }
    assert alive[..|alive|] == alive;
  }

  /** How many slots each broker holds, with an entry for every alive broker. */
  method CountPerBroker(slots: array<Slot>, alive: seq<string>) returns (counts: map<string, int>)
    ensures forall b :: b in alive ==> b in counts
    ensures forall b :: b in counts ==> counts[b] == CountOn(slots[..], b)
  {
    counts := map b | b in alive :: 0;
    for i := 0 to slots.Length
      invariant forall b :: b in alive ==> b in counts
      invariant forall b :: b in counts ==> counts[b] == CountOn(slots[..i], b)
      invariant forall j :: 0 <= j < i ==> slots[j].broker in counts
    {
      var b := slots[i].broker;
      assert slots[..i + 1][..i] == slots[..i];
      if b !in counts {
        CountZero(slots[..i], Where(None, Some(b)));
      }
      counts := counts[b := (if b in counts then counts[b] else 0) + 1];
    }
    assert slots[..slots.Length] == slots[..];
  }

  method PickVictim(slots: array<Slot>, score: Score, hi: string, lo: string) returns (v: Option<nat>)
    ensures v == VictimAmong(slots[..], score, hi, lo, slots.Length)
  {
    v := None;
    for i := 0 to slots.Length
      invariant v == VictimAmong(slots[..], score, hi, lo, i)
    {
      if slots[i].broker == hi {
        if v.None? || BetterVictim(slots[..], score, hi, lo, slots[i], slots[v.value]) {
          v := Some(i);
        }
      }
    }
  }

  /** The count map agrees with the slots on every alive broker. */
  ghost predicate InStep(counts: map<string, int>, s: seq<Slot>, alive: seq<string>) {
    forall b :: b in alive ==> b in counts && counts[b] == CountOn(s, b)
  }

  /** One iteration of the loop computes NextMove. */
  lemma IterationIsNextMove(s: seq<Slot>, alive: seq<string>, score: Score, counts: map<string, int>)
    requires |alive| >= 2 && s != [] && InStep(counts, s, alive)
    ensures var hi, lo := Hi(counts, alive), Lo(counts, alive);
            if counts[hi] - counts[lo] <= 1 then Smoothed(s, alive, score) == s
            else
              var v := VictimAmong(s, score, hi, lo, |s|);
              && v.Some? && hi != lo
              && Smoothed(s, alive, score) == Smoothed(Relocate(s, v.value, lo), alive, score)
              && 0 <= Rank(Relocate(s, v.value, lo), alive) < Rank(s, alive)
  {
    ExtremesAgree(counts, Table(s, None, Members(alive)), alive);
    NextMoveIsOneMove(s, alive, score);
    var hi, lo := Hi(counts, alive), Lo(counts, alive);
    if counts[hi] - counts[lo] > 1 {
      CountPositive(s, Where(None, Some(hi)));
      NextMoveIsOneMove(Relocate(s, VictimAmong(s, score, hi, lo, |s|).value, lo), alive, score);
    }
  }

  /** The count map is kept in step with the slots by adjusting two entries. */
  lemma CountsFollow(s: seq<Slot>, i: nat, to: string, alive: seq<string>, counts: map<string, int>)
    requires i < |s| && s[i].broker != to && s[i].broker in alive && to in alive
    requires InStep(counts, s, alive)
    ensures var from := s[i].broker;
            InStep(counts[from := counts[from] - 1][to := counts[to] + 1], Relocate(s, i, to), alive)
  {
    forall b | b in alive
      ensures CountOn(Relocate(s, i, to), b)
           == CountOn(s, b) - (if s[i].broker == b then 1 else 0) + (if to == b then 1 else 0)
    {
      CountUpdate(s, i, s[i].(broker := to), Where(None, Some(b)));
    }
  }

  /** The body of the loop: one move, or the news that there is nothing left to move. */
  method SmoothOnce(slots: array<Slot>, alive: seq<string>, score: Score, counts: map<string, int>)
    returns (done: bool, counts': map<string, int>)
    requires |alive| >= 2 && slots.Length > 0 && InStep(counts, slots[..], alive)
    modifies slots
    ensures Smoothed(slots[..], alive, score) == Smoothed(old(slots[..]), alive, score)
    ensures done ==> slots[..] == Smoothed(slots[..], alive, score)
    ensures !done ==> 0 <= Rank(slots[..], alive) < Rank(old(slots[..]), alive)
    ensures !done ==> InStep(counts', slots[..], alive)
  {
    hide Smoothed, Rank, Hi, Lo, VictimAmong, CountOn;
    ghost var s := slots[..];
    var hi, lo := FindExtremes(counts, alive);
    IterationIsNextMove(s, alive, score, counts);
    if counts[hi] - counts[lo] <= 1 {
      return true, counts;
    }
    var v := PickVictim(slots, score, hi, lo);
    var i := v.value;
    CountsFollow(s, i, lo, alive, counts);
    slots[i] := slots[i].(broker := lo);
    assert slots[..] == Relocate(s, i, lo);
    counts' := counts[hi := counts[hi] - 1];
    counts' := counts'[lo := counts[lo] + 1];
    return false, counts';
  }

  method SmoothPartitions(slots: array<Slot>, alive: seq<string>, score: Score)
    modifies slots
    ensures slots[..] == Smoothed(old(slots[..]), alive, score)
  {
    if |alive| < 2 || slots.Length == 0 {
      return;
    }
    var counts := CountPerBroker(slots, alive);
    var done := false;
    assert InStep(counts, slots[..], alive);
    hide Smoothed, Rank, InStep;
    while !done
      invariant !done ==> InStep(counts, slots[..], alive)
      invariant Smoothed(slots[..], alive, score) == Smoothed(old(slots[..]), alive, score)
      invariant done ==> slots[..] == Smoothed(slots[..], alive, score)
      decreases !done, Rank(slots[..], alive)
    {
      done, counts := SmoothOnce(slots, alive, score, counts);
    }
  }
}
