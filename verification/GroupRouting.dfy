/**
 Which broker coordinates a consumer group (or a transactional id): an
 explicit row of the assignment first, a hash over the registered
 brokers otherwise.
 */
module GroupRouting {
  import Slices
  import opened Layout
  import opened Assignments
  import opened Ordering

  /** The 32-bit key hash, left uninterpreted. */
  type KeyHash = string -> nat

  function SlotFor(hash: KeyHash, key: string, brokers: nat): (slot: nat)
    ensures brokers > 0 ==> slot < brokers
  {
    if brokers == 0 then 0 else hash(key) % brokers
  }

  predicate IsAlive(alive: map<string, bool>, b: string) {
    b in alive && alive[b]
  }

  function AliveOf(brokers: seq<string>, alive: map<string, bool>): (r: seq<string>)
    ensures forall b :: b in r <==> b in brokers && IsAlive(alive, b)
  {
    if brokers == [] then []
    else
      assert brokers == [brokers[0]] + brokers[1..];
      (if IsAlive(alive, brokers[0]) then [brokers[0]] else []) + AliveOf(brokers[1..], alive)
  }

  /** The preferred broker if it is alive, else a fixed alternate among the alive ones. */
  function Pick(hash: KeyHash, key: string, brokers: seq<string>, alive: map<string, bool>): Option<string> {
    if brokers == [] then None
    else
      var sorted := Sort(brokers);
      SortMembers(brokers);
      var slot := SlotFor(hash, key, |sorted|);
      if IsAlive(alive, sorted[slot]) then Some(sorted[slot])
      else
        var rest := AliveOf(sorted, alive);
        if rest == [] then None else Some(rest[slot % |rest|])
  }

  /** The pick is a registered, alive broker, and it is missing only when no broker is alive. */
  lemma PickIsAlive(hash: KeyHash, key: string, brokers: seq<string>, alive: map<string, bool>)
    ensures match Pick(hash, key, brokers, alive)
            case Some(b) => b in brokers && IsAlive(alive, b)
            case None => forall b :: b in brokers ==> !IsAlive(alive, b)
  {
    SortMembers(brokers);
  }

  /** The order in which the brokers are listed does not matter. */
  lemma PickForgetsOrder(hash: KeyHash, key: string, a: seq<string>, b: seq<string>, alive: map<string, bool>)
    requires multiset(a) == multiset(b)
    ensures Pick(hash, key, a, alive) == Pick(hash, key, b, alive)
  {
    assert |a| == |multiset(a)| == |multiset(b)| == |b|;
    SortForgetsOrder(a, b);
  }

  /**
   From a cluster with every broker alive: whichever brokers go down
   (keeping their rows), only the keys they coordinated move. When they
   come back, everything is where it was.
   */
  lemma OnlyOrphansMove(hash: KeyHash, key: string, brokers: seq<string>, before: map<string, bool>, after: map<string, bool>)
    requires forall b :: b in brokers ==> IsAlive(before, b)
    ensures match Pick(hash, key, brokers, before)
            case None => brokers == []
            case Some(b) => IsAlive(after, b) <==> Pick(hash, key, brokers, after) == Some(b)
  {
    SortMembers(brokers);
    if brokers != [] {
      var sorted := Sort(brokers);
      var slot := SlotFor(hash, key, |sorted|);
      assert sorted[slot] in brokers;
      PickIsAlive(hash, key, brokers, after);
    }
  }

  /** With everyone alive the key's residue decides: it is the place of the broker in the sorted list. */
  lemma PickByResidue(hash: KeyHash, key: string, brokers: seq<string>, alive: map<string, bool>)
    requires brokers != [] && forall b :: b in brokers ==> IsAlive(alive, b)
    ensures |Sort(brokers)| == |brokers| && Sorted(Sort(brokers)) && multiset(Sort(brokers)) == multiset(brokers)
    ensures Pick(hash, key, brokers, alive) == Some(Sort(brokers)[hash(key) % |brokers|])
  {
    SortMembers(brokers);
    SortIsSorted(brokers);
    assert Sort(brokers)[hash(key) % |brokers|] in brokers;
  }

  lemma {:induction false} AliveOfCounts(brokers: seq<string>, alive: map<string, bool>, b: string)
    ensures multiset(AliveOf(brokers, alive))[b] == if IsAlive(alive, b) then multiset(brokers)[b] else 0
  {
    if brokers != [] {
      var x, rest := brokers[0], brokers[1..];
      AliveOfCounts(rest, alive, b);
      assert brokers == [x] + rest;
      var kept := AliveOf(rest, alive);
      hide AliveOf;
      assert multiset([x] + kept)[b] == multiset([x])[b] + multiset(kept)[b];
    }
  }

  lemma {:induction false} AliveOfSorted(brokers: seq<string>, alive: map<string, bool>)
    requires Sorted(brokers)
    ensures Sorted(AliveOf(brokers, alive))
  {
    hide Leq;
    if brokers != [] {
      var x, rest := brokers[0], brokers[1..];
      AliveOfSorted(rest, alive);
      var kept := AliveOf(rest, alive);
      forall b | b in kept
        ensures Leq(x, b)
      {
        var k :| 0 <= k < |rest| && rest[k] == b;
        assert brokers[k + 1] == b;
      }
      PrependSorted(x, kept);
    }
  }

  lemma PrependSorted(x: string, s: seq<string>)
    requires Sorted(s) && forall b :: b in s ==> Leq(x, b)
    ensures Sorted([x] + s)
  {
    hide Leq;
  }

  /**
   If the key's own broker is not alive, the same residue, reduced by the
   number of those that are, gives its place among them in order.
   */
  lemma AlternateByResidue(hash: KeyHash, key: string, brokers: seq<string>, alive: map<string, bool>, live: seq<string>)
    requires brokers != [] && |Sort(brokers)| == |brokers| && !IsAlive(alive, Sort(brokers)[hash(key) % |brokers|])
    requires Sorted(live) && live != [] && forall b :: multiset(live)[b] == if IsAlive(alive, b) then multiset(brokers)[b] else 0
    ensures Pick(hash, key, brokers, alive) == Some(live[hash(key) % |brokers| % |live|])
  {
    SortIsSorted(brokers);
    var rest := AliveOf(Sort(brokers), alive);
    AliveOfSorted(Sort(brokers), alive);
    hide Sort, AliveOf, Sorted, IsAlive;
    forall b
      ensures multiset(rest)[b] == multiset(live)[b]
    {
      AliveOfCounts(Sort(brokers), alive, b);
    }
    assert multiset(rest) == multiset(live);
    SortedUnique(rest, live);
  }

  /** With distinct brokers, all alive, keys meet on a broker exactly if their residues do, and every broker has its residue. */
  lemma ResiduesAreBrokers(hash: KeyHash, k: string, l: string, brokers: seq<string>, alive: map<string, bool>)
    requires brokers != [] && Distinct(brokers) && forall b :: b in brokers ==> IsAlive(alive, b)
    ensures Pick(hash, k, brokers, alive) == Pick(hash, l, brokers, alive) <==> hash(k) % |brokers| == hash(l) % |brokers|
    ensures |Sort(brokers)| == |brokers| && forall b :: b in brokers ==> exists i :: 0 <= i < |brokers| && Sort(brokers)[i] == b
  {
    PickByResidue(hash, k, brokers, alive);
    PickByResidue(hash, l, brokers, alive);
    SortMembers(brokers);
    SortDistinct(brokers);
    hide Sort, Pick;
    DistinctIs(Sort(brokers));
    var i, j := hash(k) % |brokers|, hash(l) % |brokers|;
    assert i < j ==> Sort(brokers)[i] != Sort(brokers)[j];
    assert j < i ==> Sort(brokers)[j] != Sort(brokers)[i];
  }

  // ---- the broker rows of an assignment ----

  function Ids(rows: seq<BrokerRow>): (ids: seq<string>)
    ensures |ids| == |rows| && forall i :: 0 <= i < |ids| ==> ids[i] == rows[i].id
  {
    seq(|rows|, i requires 0 <= i < |rows| => rows[i].id)
  }

  /** Who counts as alive; the last row of an id wins. */
  function AliveMap(rows: seq<BrokerRow>): (m: map<string, bool>)
    ensures forall i :: 0 <= i < |rows| ==> rows[i].id in m
  {
    if rows == [] then map[]
    else
      var n := |rows| - 1;
      AliveMap(rows[..n])[rows[n].id := rows[n].health.Alive?]
  }

  predicate AliveIn(rows: seq<BrokerRow>, b: string) {
    IsAlive(AliveMap(rows), b)
  }

  /** `broker_sets`, as the source fills it row by row. */
  method BrokerSets(rows: seq<BrokerRow>) returns (ids: seq<string>, alive: map<string, bool>)
    ensures ids == Ids(rows) && alive == AliveMap(rows)
  {
    ids, alive := [], map[];
    for i := 0 to |rows|
      invariant ids == Ids(rows[..i]) && alive == AliveMap(rows[..i])
    {
      assert rows[..i + 1][..i] == rows[..i];
      ids := ids + [rows[i].id];
      alive := alive[rows[i].id := rows[i].health.Alive?];
    }
    assert rows[..|rows|] == rows;
  }

  // ---- two-tier resolution ----

  /** The first explicit row of a group. */
  function Explicit(groups: seq<GroupRow>, g: string): (r: Option<GroupRow>)
    ensures r.Some? ==> r.value in groups && r.value.groupId == g
    ensures r.None? <==> forall i :: 0 <= i < |groups| ==> groups[i].groupId != g
  {
    if groups == [] then None
    else if groups[0].groupId == g then Some(groups[0])
    else
      assert groups == [groups[0]] + groups[1..];
      Explicit(groups[1..], g)
  }

  /** The broker that coordinates `g` under `a`. */
  function Coordinator(hash: KeyHash, a: Assignment, g: string): Option<string> {
    match Explicit(a.groups, g)
    case Some(row) => Some(row.broker)
    case None => Pick(hash, g, Ids(a.brokers), AliveMap(a.brokers))
  }

  lemma {:induction false} ExplicitIsFirst(groups: seq<GroupRow>, g: string, i: nat)
    requires i < |groups| && groups[i].groupId == g && forall j :: 0 <= j < i ==> groups[j].groupId != g
    ensures Explicit(groups, g) == Some(groups[i])
  {
    if i > 0 {
      ExplicitIsFirst(groups[1..], g, i - 1);
    }
  }

  /** A listed group is coordinated by the broker of its first row, alive or not, whatever the hash says. */
  lemma ListedGroupsFirst(hash: KeyHash, a: Assignment, g: string, i: nat)
    requires i < |a.groups| && a.groups[i].groupId == g && forall j :: 0 <= j < i ==> a.groups[j].groupId != g
    ensures Coordinator(hash, a, g) == Some(a.groups[i].broker)
  {
    ExplicitIsFirst(a.groups, g, i);
  }

  // ---- assigning groups ----

  predicate EachGroupOnce(groups: seq<GroupRow>) {
    forall i, j :: 0 <= i < j < |groups| ==> groups[i].groupId != groups[j].groupId
  }

  /** Prior rows by group; the last row of a group wins. */
  function ByGroup(groups: seq<GroupRow>): (m: map<string, GroupRow>)
    ensures forall g :: g in m ==> m[g] in groups && m[g].groupId == g
    ensures forall i :: 0 <= i < |groups| ==> groups[i].groupId in m
  {
    if groups == [] then map[]
    else
      var n := |groups| - 1;
      assert groups == groups[..n] + [groups[n]];
      ByGroup(groups[..n])[groups[n].groupId := groups[n]]
  }

  /** The row for a reported group: the prior one if its broker is alive, else where the hash already sends it. */
  function RowFor(hash: KeyHash, prev: map<string, GroupRow>, rows: seq<BrokerRow>, g: string): (r: GroupRow)
    ensures r.groupId == g || (g in prev && r == prev[g])
  {
    if g in prev && prev[g].broker in Ids(rows) && AliveIn(rows, prev[g].broker) then prev[g]
    else
      var broker := match Pick(hash, g, Ids(rows), AliveMap(rows)) case Some(b) => b case None => "";
      GroupRow(g, broker, if g in prev then prev[g].epoch + 1 else 1)
  }

  /** Rows for the reported groups, each group once, in order of first report. */
  function Reported(hash: KeyHash, prev: map<string, GroupRow>, rows: seq<BrokerRow>, groups: seq<string>): seq<GroupRow> {
    if groups == [] then []
    else
      var n := |groups| - 1;
      var before := Reported(hash, prev, rows, groups[..n]);
      if groups[n] in groups[..n] then before else before + [RowFor(hash, prev, rows, groups[n])]
  }

  /** The distinct group ids of the prior rows that are carried forward although nobody reported them. */
  function Absent(prev: seq<GroupRow>, rows: seq<BrokerRow>, groups: seq<string>): seq<string> {
    if prev == [] then []
    else
      var n := |prev| - 1;
      var g := prev[n].groupId;
      var before := Absent(prev[..n], rows, groups);
      var without := Without(before, g);
      if g !in groups && prev[n].broker in Ids(rows) && AliveIn(rows, prev[n].broker) then without + [g] else without
  }

  ghost predicate Distinct(s: seq<string>) {
    forall i, j :: 0 <= i < j < |s| ==> s[i] != s[j]
  }

  lemma {:induction false} WithoutDistinct(s: seq<string>, x: string)
    requires Distinct(s)
    ensures Distinct(Without(s, x))
  {
    if s != [] {
      WithoutDistinct(s[1..], x);
      assert s[0] !in s[1..];
    }
  }

  function Without(s: seq<string>, x: string): (r: seq<string>)
    ensures forall y :: y in r <==> y in s && y != x
  {
    if s == [] then []
    else
      assert s == [s[0]] + s[1..];
      (if s[0] == x then [] else [s[0]]) + Without(s[1..], x)
  }

  function RowsOf(m: map<string, GroupRow>, ids: seq<string>): (r: seq<GroupRow>)
    requires forall g :: g in ids ==> g in m
    ensures |r| == |ids| && forall i :: 0 <= i < |r| ==> r[i] == m[ids[i]]
  {
    seq(|ids|, i requires 0 <= i < |ids| => m[ids[i]])
  }

  lemma {:induction false} AbsentShape(prev: seq<GroupRow>, rows: seq<BrokerRow>, groups: seq<string>)
    ensures var ids, m := Absent(prev, rows, groups), ByGroup(prev);
            && Distinct(ids)
            && (forall g :: g in ids <==>
                  g in m && g !in groups && m[g].broker in Ids(rows) && AliveIn(rows, m[g].broker))
  {
    if prev != [] {
      var n := |prev| - 1;
      AbsentShape(prev[..n], rows, groups);
      WithoutDistinct(Absent(prev[..n], rows, groups), prev[n].groupId);
      hide AliveIn;
    }
  }

  /** The whole of `balance_groups`. The carried rows are sorted by group id. */
  function BalancedGroups(hash: KeyHash, prev: seq<GroupRow>, rows: seq<BrokerRow>, groups: seq<string>): seq<GroupRow> {
    if rows == [] then []
    else
      AbsentShape(prev, rows, groups);
      var ids := Absent(prev, rows, groups);
      SortMembers(ids);
      Reported(hash, ByGroup(prev), rows, groups) + RowsOf(ByGroup(prev), Sort(ids))
  }

  lemma {:induction false} ExplicitAppend(a: seq<GroupRow>, b: seq<GroupRow>, g: string)
    ensures Explicit(a + b, g) == if Explicit(a, g).Some? then Explicit(a, g) else Explicit(b, g)
  {
    if a == [] {
      assert a + b == b;
    } else {
      ExplicitAppend(a[1..], b, g);
      assert (a + b)[1..] == a[1..] + b;
    }
  }

  lemma {:induction false} ExplicitReported(hash: KeyHash, prev: map<string, GroupRow>, rows: seq<BrokerRow>, groups: seq<string>, g: string)
    requires forall k :: k in prev ==> prev[k].groupId == k
    ensures Explicit(Reported(hash, prev, rows, groups), g)
         == if g in groups then Some(RowFor(hash, prev, rows, g)) else None
  {
    if groups != [] {
      var n := |groups| - 1;
      ExplicitReported(hash, prev, rows, groups[..n], g);
      assert groups == groups[..n] + [groups[n]];
      if groups[n] !in groups[..n] {
        hide RowFor;
        ExplicitAppend(Reported(hash, prev, rows, groups[..n]), [RowFor(hash, prev, rows, groups[n])], g);
      }
    }
  }

  lemma {:induction false} ExplicitRowsOf(m: map<string, GroupRow>, ids: seq<string>, g: string)
    requires forall k :: k in m ==> m[k].groupId == k
    requires forall k :: k in ids ==> k in m
    ensures Explicit(RowsOf(m, ids), g) == if g in ids then Some(m[g]) else None
  {
    if ids != [] {
      assert ids == [ids[0]] + ids[1..];
      assert RowsOf(m, ids)[1..] == RowsOf(m, ids[1..]);
      ExplicitRowsOf(m, ids[1..], g);
    }
  }

  /** What the assigner writes for a group. */
  lemma ExplicitOfBalanced(hash: KeyHash, prev: seq<GroupRow>, rows: seq<BrokerRow>, groups: seq<string>, g: string)
    requires rows != []
    ensures Explicit(BalancedGroups(hash, prev, rows, groups), g)
         == if g in groups then Some(RowFor(hash, ByGroup(prev), rows, g))
            else if g in ByGroup(prev) && ByGroup(prev)[g].broker in Ids(rows) && AliveIn(rows, ByGroup(prev)[g].broker)
            then Some(ByGroup(prev)[g])
            else None
  {
    hide RowFor, AliveIn;
    var m, ids := ByGroup(prev), Absent(prev, rows, groups);
    AbsentShape(prev, rows, groups);
    SortMembers(ids);
    ExplicitReported(hash, m, rows, groups, g);
    ExplicitRowsOf(m, Sort(ids), g);
    ExplicitAppend(Reported(hash, m, rows, groups), RowsOf(m, Sort(ids)), g);
  }

  lemma EachGroupOncePrefix(groups: seq<GroupRow>)
    requires EachGroupOnce(groups) && groups != []
    ensures EachGroupOnce(groups[..|groups| - 1])
  {
  }

  lemma ByGroupSteps(groups: seq<GroupRow>, g: string)
    requires groups != []
    ensures var rest, last := groups[..|groups| - 1], groups[|groups| - 1];
            && ByGroup(groups) == ByGroup(rest)[last.groupId := last]
            && Explicit([last], g) == (if last.groupId == g then Some(last) else None)
  {
  }

  lemma {:induction false} ByGroupFindsRow(groups: seq<GroupRow>, g: string)
    requires EachGroupOnce(groups)
    ensures Explicit(groups, g) == if g in ByGroup(groups) then Some(ByGroup(groups)[g]) else None
  {
    if groups != [] {
      assert groups[|groups| - 1].groupId == g ==> g !in ByGroup(groups[..|groups| - 1]);
      hide Explicit, ByGroup, EachGroupOnce;
      assert EachGroupOnce(groups[..|groups| - 1]) by { EachGroupOncePrefix(groups); }
      var rest, last := groups[..|groups| - 1], groups[|groups| - 1];
      ByGroupFindsRow(rest, g);
      ByGroupSteps(groups, g);
      ExplicitAppend(rest, [last], g);
      Slices.LastOff(groups);
    }
  }

  /**
   A reported group keeps its row if its broker is alive. Otherwise it is
   where the hash sends it, one epoch on, or at epoch one if it is new.
   */
  lemma ReportedGroupRow(hash: KeyHash, prev: seq<GroupRow>, rows: seq<BrokerRow>, groups: seq<string>, g: string)
    requires rows != [] && g in groups && SomeAlive(rows)
    ensures var row, m := Explicit(BalancedGroups(hash, prev, rows, groups), g), ByGroup(prev);
            && row.Some? && row.value.groupId == g
            && (if g in m && m[g].broker in Ids(rows) && AliveIn(rows, m[g].broker) then row.value == m[g]
                else
                  && Some(row.value.broker) == Pick(hash, g, Ids(rows), AliveMap(rows))
                  && row.value.epoch == if g in m then m[g].epoch + 1 else 1)
  {
    ExplicitOfBalanced(hash, prev, rows, groups, g);
    PickIsAlive(hash, g, Ids(rows), AliveMap(rows));
  }

  /** Every row names an alive broker. */
  ghost predicate AllOnAlive(groups: seq<GroupRow>, rows: seq<BrokerRow>) {
    forall i :: 0 <= i < |groups| ==> groups[i].broker in Ids(rows) && AliveIn(rows, groups[i].broker)
  }

  ghost predicate SomeAlive(rows: seq<BrokerRow>) {
    exists b :: b in Ids(rows) && AliveIn(rows, b)
  }

  /**
   Recomputing the groups under unchanged broker rows moves no group:
   not one that was reported, nor one that nobody reported, nor one that
   never had a row.
   */
  lemma RecomputeMovesNoGroup(hash: KeyHash, a: Assignment, next: Assignment, groups: seq<string>, g: string)
    requires SomeAlive(a.brokers) && EachGroupOnce(a.groups) && AllOnAlive(a.groups, a.brokers)
    requires next.brokers == a.brokers && next.groups == BalancedGroups(hash, a.groups, a.brokers, groups)
    ensures Coordinator(hash, next, g) == Coordinator(hash, a, g)
  {
    ExplicitOfBalanced(hash, a.groups, a.brokers, groups, g);
    ByGroupFindsRow(a.groups, g);
    PickIsAlive(hash, g, Ids(a.brokers), AliveMap(a.brokers));
  }

  // ---- the conditions of that theorem hold again afterwards ----

  lemma {:induction false} ReportedShape(hash: KeyHash, prev: map<string, GroupRow>, rows: seq<BrokerRow>, groups: seq<string>)
    requires SomeAlive(rows) && forall k :: k in prev ==> prev[k].groupId == k
    ensures var r := Reported(hash, prev, rows, groups);
            && EachGroupOnce(r) && AllOnAlive(r, rows)
            && forall i :: 0 <= i < |r| ==> r[i].groupId in groups
  {
    if groups != [] {
      hide EachGroupOnce, AllOnAlive, RowFor, SomeAlive;
      var n := |groups| - 1;
      var before := Reported(hash, prev, rows, groups[..n]);
      ReportedShape(hash, prev, rows, groups[..n]);
      RowForIsSound(hash, prev, rows, groups[n]);
      Slices.LastOff(groups);
      assert forall i :: 0 <= i < |before| ==> before[i].groupId in groups[..n];
      if groups[n] !in groups[..n] {
        OneRowMore(before, RowFor(hash, prev, rows, groups[n]), rows);
      }
    } else {
      NoRowsSound(rows);
    }
  }

  lemma NoRowsSound(rows: seq<BrokerRow>)
    ensures EachGroupOnce([]) && AllOnAlive([], rows)
  {
  }

  lemma OneRowMore(before: seq<GroupRow>, row: GroupRow, rows: seq<BrokerRow>)
    requires EachGroupOnce(before) && AllOnAlive(before, rows) && row.broker in Ids(rows) && AliveIn(rows, row.broker)
    requires forall i :: 0 <= i < |before| ==> before[i].groupId != row.groupId
    ensures EachGroupOnce(before + [row]) && AllOnAlive(before + [row], rows)
  {
    hide AliveIn;
  }

  lemma RowForIsSound(hash: KeyHash, prev: map<string, GroupRow>, rows: seq<BrokerRow>, g: string)
    requires SomeAlive(rows) && forall k :: k in prev ==> prev[k].groupId == k
    ensures var r := RowFor(hash, prev, rows, g);
            r.groupId == g && r.broker in Ids(rows) && AliveIn(rows, r.broker)
  {
    PickIsAlive(hash, g, Ids(rows), AliveMap(rows));
  }

  /** Each group has one row again, and every row names an alive broker. */
  lemma RecomputeKeepsRowsSound(hash: KeyHash, prev: seq<GroupRow>, rows: seq<BrokerRow>, groups: seq<string>)
    requires SomeAlive(rows)
    ensures EachGroupOnce(BalancedGroups(hash, prev, rows, groups))
    ensures AllOnAlive(BalancedGroups(hash, prev, rows, groups), rows)
  {
    var m, ids := ByGroup(prev), Absent(prev, rows, groups);
    AbsentShape(prev, rows, groups);
    SortMembers(ids);
    SortDistinct(ids);
    ReportedShape(hash, m, rows, groups);
    hide AliveIn, Reported, Absent, ByGroup, Sort;
    var sorted := Sort(ids);
    assert forall i :: 0 <= i < |sorted| ==> sorted[i] in ids;
    hide RowsOf, EachGroupOnce, AllOnAlive;
    RowsJoinSound(Reported(hash, m, rows, groups), m, sorted, rows, groups);
  }

  /** Carried rows beside reported ones. */
  lemma RowsJoinSound(reported: seq<GroupRow>, m: map<string, GroupRow>, ids: seq<string>, rows: seq<BrokerRow>, groups: seq<string>)
    requires EachGroupOnce(reported) && AllOnAlive(reported, rows) && Distinct(ids)
    requires forall i :: 0 <= i < |reported| ==> reported[i].groupId in groups
    requires forall g :: g in m ==> m[g].groupId == g
    requires forall i :: 0 <= i < |ids| ==>
               ids[i] in m && ids[i] !in groups && m[ids[i]].broker in Ids(rows) && AliveIn(rows, m[ids[i]].broker)
    ensures EachGroupOnce(reported + RowsOf(m, ids)) && AllOnAlive(reported + RowsOf(m, ids), rows)
  {
    hide AliveIn;
  }

  lemma DistinctIs(s: seq<string>)
    ensures Distinct(s) <==> forall i, j :: 0 <= i < j < |s| ==> s[i] != s[j]
  {
  }

  lemma SortDistinct(s: seq<string>)
    requires Distinct(s)
    ensures Distinct(Sort(s))
  {
    SortIsSorted(s);
    hide Sort, Distinct, Sorted;
    var r := Sort(s);
    assert Distinct(r) <==> (forall i, j :: 0 <= i < j < |r| ==> r[i] != r[j]) by { DistinctIs(r); }
    forall i, j | 0 <= i < j < |r|
      ensures r[i] != r[j]
    {
      if r[i] == r[j] {
        Slices.Twice(r, i, j);
        DistinctOnce(s, r[i]);
        assert false;
      }
    }
  }

  lemma {:induction false} DistinctOnce(s: seq<string>, x: string)
    requires Distinct(s)
    ensures multiset(s)[x] <= 1
  {
    if s != [] {
      DistinctOnce(s[1..], x);
      assert s == [s[0]] + s[1..];
      if s[0] == x {
        assert x !in s[1..];
        assert x !in multiset(s[1..]);
      }
    }
  }

  // ---- the assigner as the source runs it ----

  /** The first loop: one row per reported group, skipping repeats through the `placed` set. */
  method PlaceReported(hash: KeyHash, prev: map<string, GroupRow>, rows: seq<BrokerRow>, groups: seq<string>)
    returns (out: seq<GroupRow>, placed: set<string>)
    ensures out == Reported(hash, prev, rows, groups)
    ensures placed == set g | g in groups
  {
    out, placed := [], {};
    for i := 0 to |groups|
      invariant out == Reported(hash, prev, rows, groups[..i])
      invariant placed == set g | g in groups[..i]
    {
      var g := groups[i];
      assert groups[..i + 1][..i] == groups[..i] && groups[..i + 1] == groups[..i] + [g];
      if g !in placed {
        out := out + [RowFor(hash, prev, rows, g)];
      }
      placed := placed + {g};
    }
    assert groups[..|groups|] == groups;
  }

  method BalanceGroups(hash: KeyHash, prev: Option<seq<GroupRow>>, rows: seq<BrokerRow>, groups: seq<string>)
    returns (out: seq<GroupRow>)
    ensures out == BalancedGroups(hash, if prev.Some? then prev.value else [], rows, groups)
  {
    if rows == [] {
      return [];
    }
    var before := if prev.Some? then prev.value else [];
    var prevMap := ByGroup(before);
    var reported, placed := PlaceReported(hash, prevMap, rows, groups);
    AbsentShape(before, rows, groups);
    var ids := Absent(before, rows, groups);
    SortMembers(ids);
    out := reported + RowsOf(prevMap, Sort(ids));
  }

  // ---- residency: who keeps a group in memory ----

  /**
   The groups one broker holds in memory. The manager is created empty,
   a handler adds a group it coordinates, and every assignment change
   lets go of the groups that have moved away.
   */
  class Residents {
    const hash: KeyHash
    const brokerId: string
    var groups: set<string>

    constructor (hash: KeyHash, brokerId: string)
      ensures this.hash == hash && this.brokerId == brokerId && groups == {}
    {
      this.hash, this.brokerId, groups := hash, brokerId, {};
    }

    /** One pass over what is resident, relinquishing what `next` gives to another broker. */
    method OnChange(next: Assignment, listing: seq<string>)
      requires groups == set g | g in listing
      modifies this`groups
      ensures groups == set g | g in old(groups) && Coordinator(hash, next, g) == Some(brokerId)
    {
      var seen: set<string> := {};
      for i := 0 to |listing|
        invariant seen == set g | g in listing[..i]
        invariant groups == set g | g in old(groups) && (g in seen ==> Coordinator(hash, next, g) == Some(brokerId))
      {
        var g := listing[i];
        assert listing[..i + 1] == listing[..i] + [g];
        if g in seen {
          continue;
        }
        seen := seen + {g};
        if Coordinator(hash, next, g) == Some(brokerId) {
          continue;
        }
        groups := groups - {g};
      }
      assert listing[..|listing|] == listing;
    }
  }

  /** What is resident on a broker after it has applied an assignment. */
  ghost function Kept(hash: KeyHash, next: Assignment, brokerId: string, resident: set<string>): set<string> {
    set g | g in resident && Coordinator(hash, next, g) == Some(brokerId)
  }

  /**
   Brokers apply `a` with whatever residents they had, then recompute
   under unchanged rows: no group is resident on two brokers, and the
   recompute makes no broker let go of a group it rightly holds.
   */
  lemma ResidencyIsExclusiveAndStable(hash: KeyHash, a: Assignment, next: Assignment, groups: seq<string>,
                                      b: string, c: string, onB: set<string>, onC: set<string>)
    requires SomeAlive(a.brokers) && EachGroupOnce(a.groups) && AllOnAlive(a.groups, a.brokers)
    requires next.brokers == a.brokers && next.groups == BalancedGroups(hash, a.groups, a.brokers, groups)
    ensures b != c ==> Kept(hash, a, b, onB) !! Kept(hash, a, c, onC)
    ensures Kept(hash, next, b, Kept(hash, a, b, onB)) == Kept(hash, a, b, onB)
  {
    hide Coordinator, BalancedGroups;
    forall g: string
      ensures Coordinator(hash, next, g) == Coordinator(hash, a, g)
    {
      RecomputeMovesNoGroup(hash, a, next, groups, g);
    }
  }
}
