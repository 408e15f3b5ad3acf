/**
 Driving the storage engine to the assignment: open what this broker
 leads at the right epoch, let go of what it no longer leads, and retry
 whatever failed.

 The engine itself is abstract: what it holds open, at which epoch if it
 reports one, and the promise that taking over is idempotent and never
 lowers an epoch.
 */
module Takeover {
  import opened Layout
  import opened Assignments

  type PartitionId = (string, int)

  /** Open partitions; the epoch is missing for engines that do not report one. */
  type Engine = map<PartitionId, Option<int>>

  /** The partitions an assignment gives to `self`, by key; the last row of a key wins. */
  function OwnedBy(ps: seq<PartitionRow>, self: string): (m: map<string, PartitionRow>)
    ensures forall k :: k in m ==> m[k] in ps && KeyOf(m[k]) == k && m[k].broker == self
    ensures forall i :: 0 <= i < |ps| && ps[i].broker == self ==> KeyOf(ps[i]) in m
  {
    if ps == [] then map[]
    else
      var n := |ps| - 1;
      assert ps == ps[..n] + [ps[n]];
      var before := OwnedBy(ps[..n], self);
      if ps[n].broker == self then before[KeyOf(ps[n]) := ps[n]] else before
  }

  function IdOf(row: PartitionRow): PartitionId {
    (row.topic, row.partition)
  }

  function OwnedIn(a: Option<Assignment>, self: string): map<string, PartitionRow> {
    OwnedBy(if a.Some? then a.value.partitions else [], self)
  }

  lemma OwnedRowsAgree(a: PartitionRow, b: PartitionRow)
    requires KeyOf(a) == KeyOf(b) && a.broker == b.broker
    ensures a == b <==> a.epoch == b.epoch
  {
    PartitionKeyInjective(a.topic, a.partition, b.topic, b.partition);
  }

  // ---- reacting to a change ----

  /**
   The take-overs and relinquishes the driver issues when the assignment
   changes, by key. Carried out on the old owned partitions they give
   exactly the new ones, and none of them is superfluous.
   */
  method OnChange(prev: Option<Assignment>, next: Assignment, self: string)
    returns (take: map<string, PartitionRow>, drop: map<string, PartitionRow>)
    ensures (OwnedIn(prev, self) - drop.Keys) + take == OwnedIn(Some(next), self)
    ensures forall k :: k in take ==> !(k in OwnedIn(prev, self) && OwnedIn(prev, self)[k] == take[k])
    ensures forall k :: k in drop ==> k in OwnedIn(prev, self) && k !in OwnedIn(Some(next), self) && drop[k] == OwnedIn(prev, self)[k]
  {
    var before, after := OwnedIn(prev, self), OwnedIn(Some(next), self);
    take := NeedTakeOver(before, after);
    drop := NotKept(before, after);
    hide OwnedIn;
    forall k | k in before && k in after
      ensures before[k] == after[k] <==> before[k].epoch == after[k].epoch
    {
      assert before[k].broker == after[k].broker by { OwnedInIs(prev, self); OwnedInIs(Some(next), self); }
      assert KeyOf(before[k]) == KeyOf(after[k]) by { OwnedInIs(prev, self); OwnedInIs(Some(next), self); }
      OwnedRowsAgree(before[k], after[k]);
    }
    assert (before - drop.Keys) + take == after;
  }

  lemma OwnedInIs(a: Option<Assignment>, self: string)
    ensures forall k :: k in OwnedIn(a, self) ==> KeyOf(OwnedIn(a, self)[k]) == k && OwnedIn(a, self)[k].broker == self
  {
  }

  /** The loop over the new partitions: those that are new or change their epoch. */
  method NeedTakeOver(before: map<string, PartitionRow>, after: map<string, PartitionRow>) returns (take: map<string, PartitionRow>)
    ensures take == map k | k in after && !(k in before && before[k].epoch == after[k].epoch) :: after[k]
  {
    take := map[];
    var todo := after.Keys;
    while todo != {}
      invariant todo <= after.Keys
      invariant take == map k | k in after.Keys - todo && !(k in before && before[k].epoch == after[k].epoch) :: after[k]
      decreases |todo|
    {
      var k :| k in todo;
      todo := todo - {k};
      if !(k in before && before[k].epoch == after[k].epoch) {
        take := take[k := after[k]];
      }
    }
  }

  /** The loop over the old partitions: those that are gone. */
  method NotKept(before: map<string, PartitionRow>, after: map<string, PartitionRow>) returns (drop: map<string, PartitionRow>)
    ensures drop == map k | k in before && k !in after :: before[k]
  {
    drop := map[];
    var todo := before.Keys;
    while todo != {}
      invariant todo <= before.Keys
      invariant drop == map k | k in before.Keys - todo && k !in after :: before[k]
      decreases |todo|
    {
      var k :| k in todo;
      todo := todo - {k};
      if k !in after {
        drop := drop[k := before[k]];
      }
    }
  }

  // ---- retrying ----

  /** Open, and not at a lower epoch than assigned. */
  predicate Converged(engine: Engine, row: PartitionRow) {
    && IdOf(row) in engine
    && !(engine[IdOf(row)].Some? && engine[IdOf(row)].value < row.epoch)
  }

  /** Every partition the assignment gives to `self` is open. */
  ghost predicate Serving(engine: Engine, a: Assignment, self: string) {
    forall i :: 0 <= i < |a.partitions| && a.partitions[i].broker == self ==> IdOf(a.partitions[i]) in engine
  }

  /** The partitions a reconcile pass takes over again. */
  function Behind(engine: Engine, owned: map<string, PartitionRow>): map<string, PartitionRow> {
    map k | k in owned && !Converged(engine, owned[k]) :: owned[k]
  }

  /** The loop over the owned partitions. */
  method FindBehind(engine: Engine, owned: map<string, PartitionRow>) returns (redriven: nat, calls: map<string, PartitionRow>)
    ensures calls == Behind(engine, owned) && redriven == |calls|
  {
    hide Converged;
    redriven, calls := 0, map[];
    var todo := owned.Keys;
    while todo != {}
      invariant todo <= owned.Keys && redriven == |calls|
      invariant calls == map k | k in owned.Keys - todo && !Converged(engine, owned[k]) :: owned[k]
      decreases |todo|
    {
      var k :| k in todo;
      todo := todo - {k};
      if !Converged(engine, owned[k]) {
        redriven := redriven + 1;
        assert k !in calls;
        calls := calls[k := owned[k]];
      }
    }
  }

  /** Not open, or reported open at a lower epoch. */
  predicate Lags(engine: Engine, topic: string, partition: int, epoch: int) {
    || (topic, partition) !in engine
    || (engine[(topic, partition)].Some? && engine[(topic, partition)].value < epoch)
  }

  lemma LagsIff(engine: Engine)
    ensures forall row: PartitionRow :: Converged(engine, row) <==> !Lags(engine, row.topic, row.partition, row.epoch)
  {
  }

  lemma ServingMeans(engine: Engine, a: Assignment, self: string)
    requires Serving(engine, a, self)
    ensures forall i :: 0 <= i < |a.partitions| && a.partitions[i].broker == self ==>
              (a.partitions[i].topic, a.partitions[i].partition) in engine
  {
  }

  /** One pass: how many partitions were not where they should be, and which. */
  method Reconcile(engine: Engine, next: Assignment, self: string) returns (redriven: nat, calls: map<string, PartitionRow>)
    ensures calls == Behind(engine, OwnedIn(Some(next), self)) && redriven == |calls|
    ensures redriven == 0 <==> forall k :: k in OwnedIn(Some(next), self) ==> Converged(engine, OwnedIn(Some(next), self)[k])
    ensures redriven == 0 ==> Serving(engine, next, self)
    ensures forall k :: k in calls <==>
              k in OwnedIn(Some(next), self) && var row := OwnedIn(Some(next), self)[k]; Lags(engine, row.topic, row.partition, row.epoch)
    ensures redriven == 0 ==>
              forall i :: 0 <= i < |next.partitions| && next.partitions[i].broker == self ==>
                (next.partitions[i].topic, next.partitions[i].partition) in engine
  {
    LagsIff(engine);
    hide Converged, Serving, OwnedIn, Lags;
    redriven, calls := FindBehind(engine, OwnedIn(Some(next), self));
    if redriven == 0 {
      NothingBehind(engine, next, self);
      ServingMeans(engine, next, self);
    } else {
      var k :| k in calls;
      assert !Converged(engine, OwnedIn(Some(next), self)[k]);
    }
  }

  lemma NothingBehind(engine: Engine, next: Assignment, self: string)
    requires |Behind(engine, OwnedIn(Some(next), self))| == 0
    ensures forall k :: k in OwnedIn(Some(next), self) ==> Converged(engine, OwnedIn(Some(next), self)[k])
    ensures Serving(engine, next, self)
  {
    var owned := OwnedIn(Some(next), self);
    assert Behind(engine, owned) == map[];
    forall k | k in owned
      ensures Converged(engine, owned[k])
    {
      assert k !in Behind(engine, owned);
    }
    var ps := next.partitions;
    forall i | 0 <= i < |ps| && ps[i].broker == self
      ensures IdOf(ps[i]) in engine
    {
      var k := KeyOf(ps[i]);
      assert k in owned;
      PartitionKeyInjective(owned[k].topic, owned[k].partition, ps[i].topic, ps[i].partition);
    }
  }

  /** The engine promises never to lower an epoch, and nothing is closed in the meantime. */
  ghost predicate Monotone(before: Engine, after: Engine) {
    forall id :: id in before ==>
      id in after && (before[id].Some? && after[id].Some? ==> before[id].value <= after[id].value)
      && (before[id].None? ==> after[id].None?)
  }

  /** A successful take-over leaves the partition open at no lower epoch. */
  ghost predicate Succeeded(after: Engine, row: PartitionRow) {
    IdOf(row) in after && (after[IdOf(row)].Some? ==> after[IdOf(row)].value >= row.epoch)
  }

  /**
   After a pass whose take-overs all succeed, the next pass finds
   nothing to do. A pass in which some fail leaves exactly those to the
   next one: what was converged stays so.
   */
  lemma PassConverges(before: Engine, after: Engine, next: Assignment, self: string)
    requires Monotone(before, after)
    ensures var owned := OwnedIn(Some(next), self);
            var calls := Behind(before, owned);
            && Behind(after, owned).Keys <= calls.Keys
            && (forall k :: k in calls && Succeeded(after, calls[k]) ==> k !in Behind(after, owned))
            && ((forall k :: k in calls ==> Succeeded(after, calls[k])) ==> Behind(after, owned) == map[] && Serving(after, next, self))
  {
    var owned := OwnedIn(Some(next), self);
    var calls := Behind(before, owned);
    forall k | k in owned && k !in calls
      ensures Converged(after, owned[k])
    {
      assert Converged(before, owned[k]);
    }
    if forall k :: k in calls ==> Succeeded(after, calls[k]) {
      assert Behind(after, owned) == map[];
      NothingBehind(after, next, self);
    }
  }
}
