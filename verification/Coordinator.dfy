/**
 The broker's view of the assignment: it applies a file that is neither
 from a deposed controller nor one it has applied already, and answers
 ownership questions from two indices built while applying.
 */
module Coordinator {
  import opened Layout
  import opened Assignments

  /** Partitions led by `self`, by key, with their epoch. */
  function OwnershipOf(ps: seq<PartitionRow>, self: string): (m: map<string, nat>)
    ensures forall i :: 0 <= i < |ps| && ps[i].broker == self ==> KeyOf(ps[i]) in m
    ensures forall k :: k in m ==> exists i :: 0 <= i < |ps| && KeyOf(ps[i]) == k && ps[i].broker == self
  {
    if ps == [] then map[]
    else
      var n := |ps| - 1;
      var before := OwnershipOf(ps[..n], self);
      assert forall i :: 0 <= i < n ==> ps[i] == ps[..n][i];
      if ps[n].broker == self then before[KeyOf(ps[n]) := ps[n].epoch] else before
  }

  /** The leader of every partition, by key. */
  function LeadersOf(ps: seq<PartitionRow>): (m: map<string, string>)
    ensures forall k :: k in m <==> k in ByKey(ps)
    ensures forall k :: k in m ==> m[k] == ByKey(ps)[k].broker
  {
    if ps == [] then map[] else LeadersOf(ps[..|ps| - 1])[KeyOf(ps[|ps| - 1]) := ps[|ps| - 1].broker]
  }

  /** What a broker has applied, as a value: the snapshot and the version it remembers. */
  datatype View = View(current: Option<Assignment>, lastVersion: int)

  predicate Accepts(v: View, a: Assignment, leaseEpoch: int) {
    && a.controllerEpoch >= leaseEpoch
    && !(v.current.Some? && a.controllerEpoch == v.current.value.controllerEpoch && a.version <= v.lastVersion)
  }

  /** One poll; `file` is missing when it cannot be read or parsed. */
  function Poll(v: View, file: Option<Assignment>, leaseEpoch: int): View {
    if file.Some? && Accepts(v, file.value, leaseEpoch) then View(file, file.value.version) else v
  }

  /**
   A file below the lease epoch is never applied. Otherwise the first file
   and one of another controller epoch are applied whatever their version,
   and one of the same controller epoch exactly if its version is higher.
   */
  lemma AppliesExactly(v: View, a: Assignment, leaseEpoch: int)
    ensures a.controllerEpoch < leaseEpoch ==> Poll(v, Some(a), leaseEpoch) == v
    ensures a.controllerEpoch >= leaseEpoch && (v.current.None? || v.current.value.controllerEpoch != a.controllerEpoch) ==>
              Poll(v, Some(a), leaseEpoch) == View(Some(a), a.version)
    ensures a.controllerEpoch >= leaseEpoch && v.current.Some? && v.current.value.controllerEpoch == a.controllerEpoch ==>
              Poll(v, Some(a), leaseEpoch) == if a.version > v.lastVersion then View(Some(a), a.version) else v
  {
  }

  class Broker {
    const selfId: string
    var ownership: map<string, nat>
    var leaders: map<string, string>
    var lastAppliedVersion: int
    var current: Option<Assignment>

    /** The indices describe the snapshot. */
    ghost predicate Valid()
      reads this
    {
      var ps := if current.Some? then current.value.partitions else [];
      ownership == OwnershipOf(ps, selfId) && leaders == LeadersOf(ps)
    }

    ghost function Seen(): View
      reads this
    {
      View(current, lastAppliedVersion)
    }

    constructor (selfId: string)
      ensures Valid() && this.selfId == selfId && Seen() == View(None, 0)
    {
      this.selfId := selfId;
      ownership, leaders, lastAppliedVersion, current := map[], map[], 0, None;
    }

    method ApplyIfNew(file: Option<Assignment>, leaseEpoch: int) returns (applied: bool)
      requires Valid()
      modifies this
      ensures Valid()
      ensures Seen() == Poll(old(Seen()), file, leaseEpoch)
      ensures applied <==> file.Some? && Accepts(old(Seen()), file.value, leaseEpoch)
    {
      if file.None? {
        return false;
      }
      var parsed := file.value;
      if parsed.controllerEpoch < leaseEpoch {
        return false;
      }
      if current.Some? {
        if parsed.controllerEpoch == current.value.controllerEpoch && parsed.version <= lastAppliedVersion {
          return false;
        }
      }
      var owned, led := BuildIndices(parsed.partitions);
      ownership, leaders, lastAppliedVersion := owned, led, parsed.version;
      current := Some(parsed);
      return true;
    }

    method BuildIndices(ps: seq<PartitionRow>) returns (owned: map<string, nat>, led: map<string, string>)
      ensures owned == OwnershipOf(ps, selfId) && led == LeadersOf(ps)
    {
      owned, led := map[], map[];
      for i := 0 to |ps|
        invariant owned == OwnershipOf(ps[..i], selfId) && led == LeadersOf(ps[..i])
      {
        assert ps[..i + 1][..i] == ps[..i];
        var k := KeyOf(ps[i]);
        if ps[i].broker == selfId {
          owned := owned[k := ps[i].epoch];
        }
        led := led[k := ps[i].broker];
      }
      assert ps[..|ps|] == ps;
    }

    predicate Owns(topic: string, partition: int)
      reads this
    {
      PartitionKey(topic, partition) in ownership
    }

    function CurrentEpoch(topic: string, partition: int): Option<nat>
      reads this
    {
      var k := PartitionKey(topic, partition);
      if k in ownership then Some(ownership[k]) else None
    }

    function LeaderFor(topic: string, partition: int): Option<string>
      reads this
    {
      var k := PartitionKey(topic, partition);
      if k in leaders then Some(leaders[k]) else None
    }

    /**
     For a file that lists each partition once, every lookup answers what
     a scan of the snapshot would: the row decides the leader, the owner
     and the epoch, and without a row there is neither.
     */
    lemma LookupsAreScans(topic: string, partition: int)
      requires Valid() && current.Some? && ListsEachOnce(current.value.partitions)
      ensures forall i :: 0 <= i < |current.value.partitions| ==>
                var row := current.value.partitions[i];
                row.topic == topic && row.partition == partition ==>
                  && LeaderFor(topic, partition) == Some(row.broker)
                  && (Owns(topic, partition) <==> row.broker == selfId)
                  && CurrentEpoch(topic, partition) == (if row.broker == selfId then Some(row.epoch) else None)
      ensures (forall i :: 0 <= i < |current.value.partitions| ==>
                 current.value.partitions[i].topic != topic || current.value.partitions[i].partition != partition)
              ==> LeaderFor(topic, partition) == None && !Owns(topic, partition) && CurrentEpoch(topic, partition) == None
    {
      var ps := current.value.partitions;
      var key := PartitionKey(topic, partition);
      forall i | 0 <= i < |ps| && KeyOf(ps[i]) == key
        ensures ps[i].topic == topic && ps[i].partition == partition
        ensures LeaderFor(topic, partition) == Some(ps[i].broker)
        ensures CurrentEpoch(topic, partition) == (if ps[i].broker == selfId then Some(ps[i].epoch) else None)
      {
        PartitionKeyInjective(ps[i].topic, ps[i].partition, topic, partition);
        ByKeyFindsRow(ps, i);
        OwnershipFindsRow(ps, selfId, i);
      }
    }
  }

  lemma OwnershipSteps(ps: seq<PartitionRow>, self: string)
    requires ps != []
    ensures var before, last := OwnershipOf(ps[..|ps| - 1], self), ps[|ps| - 1];
            OwnershipOf(ps, self) == if last.broker == self then before[KeyOf(last) := last.epoch] else before
  {
  }

  lemma OwnershipSkips(ps: seq<PartitionRow>, self: string, key: string)
    requires forall i :: 0 <= i < |ps| ==> KeyOf(ps[i]) != key
    ensures key !in OwnershipOf(ps, self)
  {
  }

  lemma {:induction false} OwnershipFindsRow(ps: seq<PartitionRow>, self: string, i: nat)
    requires ListsEachOnce(ps) && i < |ps|
    ensures var m, k := OwnershipOf(ps, self), KeyOf(ps[i]);
            if ps[i].broker == self then k in m && m[k] == ps[i].epoch else k !in m
  {
    hide KeyOf, OwnershipOf;
    var n := |ps| - 1;
    OwnershipSteps(ps, self);
    if i < n {
      OwnershipFindsRow(ps[..n], self, i);
    } else {
      OwnershipSkips(ps[..n], self, KeyOf(ps[n]));
    }
  }

  // ---- sequences of polls ----

  datatype Reading = Reading(file: Option<Assignment>, leaseEpoch: int)

  function Polls(v: View, rs: seq<Reading>): View {
    if rs == [] then v
    else Poll(Polls(v, rs[..|rs| - 1]), rs[|rs| - 1].file, rs[|rs| - 1].leaseEpoch)
  }

  predicate AppliedAt(rs: seq<Reading>, k: nat)
    requires k < |rs|
  {
    rs[k].file.Some? && Accepts(Polls(View(None, 0), rs[..k]), rs[k].file.value, rs[k].leaseEpoch)
  }

  ghost predicate LeaseNeverFalls(rs: seq<Reading>) {
    forall i, j :: 0 <= i < j < |rs| ==> rs[i].leaseEpoch <= rs[j].leaseEpoch
  }

  /** Applied at `i`, and nothing since: then that file is still the snapshot at `k`. */
  lemma {:induction false} SnapshotStays(rs: seq<Reading>, i: nat, k: nat)
    requires i < k <= |rs| && AppliedAt(rs, i) && forall j :: i < j < k ==> !AppliedAt(rs, j)
    ensures Polls(View(None, 0), rs[..k]) == View(rs[i].file, rs[i].file.value.version)
  {
    assert rs[..k][..k - 1] == rs[..k - 1];
    if i < k - 1 {
      SnapshotStays(rs, i, k - 1);
      assert !AppliedAt(rs, k - 1);
    }
  }

  /**
   For every sequence of files and every non-decreasing sequence of lease
   readings: once a lease epoch has been seen, nothing below it is
   applied; and of two applies in a row from the same controller epoch,
   the later has the higher version.
   */
  lemma AppliesAreFencedAndRising(rs: seq<Reading>, i: nat, k: nat)
    requires LeaseNeverFalls(rs) && i < k < |rs| && AppliedAt(rs, k)
    ensures rs[k].file.value.controllerEpoch >= rs[i].leaseEpoch
    ensures AppliedAt(rs, i) && (forall j :: i < j < k ==> !AppliedAt(rs, j))
            && rs[i].file.value.controllerEpoch == rs[k].file.value.controllerEpoch
            ==> rs[i].file.value.version < rs[k].file.value.version
  {
    if AppliedAt(rs, i) && forall j :: i < j < k ==> !AppliedAt(rs, j) {
      SnapshotStays(rs, i, k);
    }
  }
}
