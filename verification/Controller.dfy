/**
 The controller's recompute-and-publish loop, and what holds over whole
 runs of it: any number of stints, any inputs, writes that fail at any
 point.
 */
module Controller {
  import opened Levelling
  import opened Layout
  import opened Assignments
  import opened Balance
  import opened GroupRouting
  import Ordering

  /** What one recompute reads. `manifests` holds the epoch in each partition's manifest under the data dir. */
  datatype Inputs = Inputs(
    alive: seq<string>,
    registered: seq<string>,
    draining: seq<string>,
    topics: seq<TopicSpec>,
    groups: seq<string>,
    manifests: map<string, int>)

  /** The two hashes, fixed for the whole cluster. */
  datatype Hashes = Hashes(score: Score, key: KeyHash)

  // ---- broker rows ----

  function HealthOf(inp: Inputs, b: string): BrokerHealth {
    if b in inp.registered && b in inp.draining then Draining
    else if b in inp.alive then Alive
    else Dead
  }

  /** Alive brokers missing from the registered ones, each once. */
  function Unregistered(alive: seq<string>, registered: seq<string>): (r: seq<string>)
    ensures forall b :: b in r <==> b in alive && b !in registered
  {
    if alive == [] then []
    else
      var n := |alive| - 1;
      assert alive == alive[..n] + [alive[n]];
      var before := Unregistered(alive[..n], registered);
      if alive[n] in registered || alive[n] in before then before else before + [alive[n]]
  }

  /** One row per registered or alive broker, sorted by id. */
  function BrokerRows(inp: Inputs): (rows: seq<BrokerRow>) {
    var ids := Ordering.Sort(inp.registered + Unregistered(inp.alive, inp.registered));
    seq(|ids|, i requires 0 <= i < |ids| => BrokerRow(ids[i], HealthOf(inp, ids[i])))
  }

  lemma {:induction false} AliveMapIs(rows: seq<BrokerRow>, inp: Inputs, b: string)
    requires forall i :: 0 <= i < |rows| ==> rows[i].health == HealthOf(inp, rows[i].id)
    ensures IsAlive(AliveMap(rows), b) <==> b in Ids(rows) && HealthOf(inp, b).Alive?
  {
    if rows != [] {
      var n := |rows| - 1;
      AliveMapIs(rows[..n], inp, b);
      assert Ids(rows) == Ids(rows[..n]) + [rows[n].id];
    }
  }

  /** Every broker that partitions are placed on has a row, and a broker counts as alive exactly when it is alive and not a registered drainer. */
  lemma BrokerRowsCover(inp: Inputs, b: string)
    ensures b in Ids(BrokerRows(inp)) <==> b in inp.registered || b in inp.alive
    ensures AliveIn(BrokerRows(inp), b) <==> b in inp.alive && !(b in inp.registered && b in inp.draining)
  {
    var all := inp.registered + Unregistered(inp.alive, inp.registered);
    Ordering.SortMembers(all);
    assert Ids(BrokerRows(inp)) == Ordering.Sort(all);
    AliveMapIs(BrokerRows(inp), inp, b);
  }

  /** The rows are in order. */
  lemma BrokerRowsSorted(inp: Inputs)
    ensures Ordering.Sorted(Ids(BrokerRows(inp)))
    ensures forall row :: row in BrokerRows(inp) ==>
              && (row.health.Draining? <==> row.id in inp.registered && row.id in inp.draining)
              && (row.health.Alive? <==> row.id in inp.alive && !(row.id in inp.registered && row.id in inp.draining))
  {
    var all := inp.registered + Unregistered(inp.alive, inp.registered);
    Ordering.SortIsSorted(all);
    assert Ids(BrokerRows(inp)) == Ordering.Sort(all);
  }

  // ---- the epoch floor ----

  const U32_LIMIT: int := 0x1_0000_0000

  predicate GivesFloor(manifests: map<string, int>, prev: seq<PartitionRow>, key: string) {
    && key !in ByKey(prev)
    && key in manifests && 0 < manifests[key] < U32_LIMIT
  }

  /** For every partition of the catalogue not yet in the assignment: the epoch its manifest carries. */
  function EpochFloor(manifests: map<string, int>, names: seq<(string, int)>, prev: seq<PartitionRow>): (m: map<string, nat>) {
    if names == [] then map[]
    else
      var n := |names| - 1;
      var before := EpochFloor(manifests, names[..n], prev);
      var key := PartitionKey(names[n].0, names[n].1);
      if GivesFloor(manifests, prev, key) then before[key := manifests[key]] else before
  }

  function Keys(names: seq<(string, int)>): set<string> {
    set i | 0 <= i < |names| :: PartitionKey(names[i].0, names[i].1)
  }

  lemma {:induction false} EpochFloorIs(manifests: map<string, int>, names: seq<(string, int)>, prev: seq<PartitionRow>)
    ensures var m := EpochFloor(manifests, names, prev);
            && (forall k :: k in m ==> GivesFloor(manifests, prev, k) && m[k] == manifests[k] && k in Keys(names))
            && (forall i :: 0 <= i < |names| && GivesFloor(manifests, prev, PartitionKey(names[i].0, names[i].1))
                  ==> PartitionKey(names[i].0, names[i].1) in m)
  {
    hide PartitionKey, ByKey, GivesFloor;
    if names != [] {
      var n := |names| - 1;
      EpochFloorIs(manifests, names[..n], prev);
      assert forall i :: 0 <= i < n ==> names[..n][i] == names[i];
      assert Keys(names) == Keys(names[..n]) + {PartitionKey(names[n].0, names[n].1)};
    }
  }

  // ---- one recompute ----

  function PartsOf(a: Option<Assignment>): seq<PartitionRow> {
    if a.Some? then a.value.partitions else []
  }

  function GroupsOf(a: Option<Assignment>): seq<GroupRow> {
    if a.Some? then a.value.groups else []
  }

  ghost function Recomputed(h: Hashes, id: string, epoch: int, current: Option<Assignment>, version: int, inp: Inputs): Assignment {
    var prev := PartsOf(current);
    var floor := EpochFloor(inp.manifests, Catalogue(inp.topics), prev);
    Assignment(
      epoch, version, id, BrokerRows(inp),
      Balanced(prev, inp.alive, inp.topics, floor, h.score),
      BalancedGroups(h.key, GroupsOf(current), BrokerRows(inp), inp.groups))
  }

  /** The shared volume's one file. Replacing it is atomic and may fail before it takes effect. */
  class ClusterDir {
    var file: Option<Assignment>

    constructor ()
      ensures file == None
    {
      file := None;
    }

    method Replace(a: Assignment, works: bool)
      modifies this
      ensures file == if works then Some(a) else old(file)
    {
      if works {
        file := Some(a);
      }
    }
  }

  class AssignmentLoop {
    const hashes: Hashes
    const controllerId: string
    var controllerEpoch: int
    var current: Option<Assignment>
    var versionCounter: int

    constructor (hashes: Hashes, controllerId: string)
      ensures this.hashes == hashes && this.controllerId == controllerId
      ensures controllerEpoch == 0 && current == None && versionCounter == 0
    {
      this.hashes, this.controllerId := hashes, controllerId;
      controllerEpoch, current, versionCounter := 0, None, 0;
    }

    /** Adopt the epoch of the lease, carry on from the file if there is one, and publish. */
    method Start(dir: ClusterDir, epoch: int, inp: Inputs, works: bool) returns (version: Option<int>)
      modifies this, dir
      ensures var counter := if old(dir.file).Some? then Max(old(versionCounter), old(dir.file).value.version) else old(versionCounter);
              var from := if old(dir.file).Some? then old(dir.file) else old(current);
              && controllerEpoch == epoch
              && versionCounter == counter + 1
              && current == Some(Recomputed(hashes, controllerId, epoch, from, counter + 1, inp))
      ensures dir.file == if works then current else old(dir.file)
      ensures version == if works then Some(versionCounter) else None
    {
      controllerEpoch := epoch;
      if dir.file.Some? {
        if dir.file.value.version > versionCounter {
          versionCounter := dir.file.value.version;
        }
        current := dir.file;
      }
      version := UpdateAssignment(dir, inp, works);
    }

    /** Recompute, remember, publish. What is remembered stands even if the write fails. */
    method UpdateAssignment(dir: ClusterDir, inp: Inputs, works: bool) returns (version: Option<int>)
      modifies this`current, this`versionCounter, dir
      ensures versionCounter == old(versionCounter) + 1
      ensures current == Some(Recomputed(hashes, controllerId, controllerEpoch, old(current), versionCounter, inp))
      ensures dir.file == if works then current else old(dir.file)
      ensures version == if works then Some(versionCounter) else None
    {
      var floor := ComputeEpochFloor(inp.manifests, inp.topics, PartsOf(current));
      versionCounter := versionCounter + 1;
      var rows := BuildBrokerEntries(inp);
      var parts := BalancePartitions(
        if current.Some? then Some(current.value.partitions) else None, inp.alive, inp.topics, floor, hashes.score);
      var groups := BalanceGroups(
        hashes.key, if current.Some? then Some(current.value.groups) else None, rows, inp.groups);
      var a := Assignment(controllerEpoch, versionCounter, controllerId, rows, parts, groups);
      current := Some(a);
      dir.Replace(a, works);
      version := if works then Some(versionCounter) else None;
    }
  }

  lemma KeysAre(prev: seq<PartitionRow>)
    ensures (set p | p in prev :: KeyOf(p)) == ByKey(prev).Keys
  {
    assert forall k :: k in (set p | p in prev :: KeyOf(p)) <==> k in ByKey(prev);
  }

  lemma EpochFloorSteps(manifests: map<string, int>, names: seq<(string, int)>, prev: seq<PartitionRow>)
    ensures EpochFloor(manifests, names, prev) ==
            if names == [] then map[]
            else
              var n := |names| - 1;
              var before, key := EpochFloor(manifests, names[..n], prev), PartitionKey(names[n].0, names[n].1);
              if GivesFloor(manifests, prev, key) then before[key := manifests[key]] else before
  {
    hide GivesFloor, PartitionKey;
  }

  /** The floor as the source fills it, topic by topic. */
  method ComputeEpochFloor(manifests: map<string, int>, topics: seq<TopicSpec>, prev: seq<PartitionRow>)
    returns (floor: map<string, nat>)
    ensures floor == EpochFloor(manifests, Catalogue(topics), prev)
  {
    hide ByKey, PartitionKey, Catalogue, EpochFloor, KeyOf;
    var names := Catalogue(topics);
    var prevKeys := set p | p in prev :: KeyOf(p);
    KeysAre(prev);
    floor := map[];
    EpochFloorSteps(manifests, [], prev);
    for i := 0 to |names|
      invariant floor == EpochFloor(manifests, names[..i], prev)
    {
      EpochFloorSteps(manifests, names[..i + 1], prev);
      assert names[..i + 1][..i] == names[..i];
      var key := PartitionKey(names[i].0, names[i].1);
      if key in prevKeys {
        continue;
      }
      if key in manifests && 0 < manifests[key] < U32_LIMIT {
        floor := floor[key := manifests[key]];
      }
    }
    assert names[..|names|] == names;
  }

  /** The rows as the source builds them: the registered brokers, then the missing alive ones, sorted. */
  method BuildBrokerEntries(inp: Inputs) returns (rows: seq<BrokerRow>)
    ensures rows == BrokerRows(inp)
  {
    var ids := inp.registered;
    for i := 0 to |inp.alive|
      invariant ids == inp.registered + Unregistered(inp.alive[..i], inp.registered)
    {
      var b := inp.alive[i];
      assert inp.alive[..i + 1][..i] == inp.alive[..i];
      if b !in ids {
        ids := ids + [b];
      }
    }
    assert inp.alive[..|inp.alive|] == inp.alive;
    var sorted := Ordering.Sort(ids);
    rows := seq(|sorted|, i requires 0 <= i < |sorted| => BrokerRow(sorted[i], HealthOf(inp, sorted[i])));
  }

  // ---- runs ----

  /** The loop's own state; it is lost when the stint ends. */
  datatype LoopState = LoopState(id: string, epoch: int, current: Option<Assignment>, version: int)

  /** One recompute of a run: what it started from, what came out, whether it reached the file. */
  datatype Computed = Computed(prev: Option<Assignment>, inp: Inputs, out: Assignment, published: bool, starts: bool)

  datatype Event =
    | Start(id: string, epoch: int, inp: Inputs, works: bool)
    | Update(inp: Inputs, works: bool)
    | Stop

  datatype World = World(file: Option<Assignment>, loop: Option<LoopState>, trace: seq<Computed>)

  const EMPTY := World(None, None, [])

  ghost function Publish(w: World, h: Hashes, l: LoopState, inp: Inputs, works: bool, starts: bool): World {
    var out := Recomputed(h, l.id, l.epoch, l.current, l.version + 1, inp);
    World(
      if works then Some(out) else w.file,
      if starts && !works then None else Some(l.(current := Some(out), version := l.version + 1)),
      w.trace + [Computed(l.current, inp, out, works, starts)])
  }

  /**
   One event. Every stint has a fresh loop that reads back the file, and
   stints do not overlap; a stint whose first write fails is given up.
   */
  ghost function Next(w: World, h: Hashes, e: Event): World {
    match e
    case Start(id, epoch, inp, works) =>
      var counter := if w.file.Some? then Max(0, w.file.value.version) else 0;
      Publish(w, h, LoopState(id, epoch, w.file, counter), inp, works, true)
    case Update(inp, works) =>
      if w.loop.None? then w else Publish(w, h, w.loop.value, inp, works, false)
    case Stop => w.(loop := None)
  }

  ghost function Run(h: Hashes, events: seq<Event>): World {
    if events == [] then EMPTY else Next(Run(h, events[..|events| - 1]), h, events[|events| - 1])
  }

  ghost function LastPublished(trace: seq<Computed>): Option<Assignment> {
    if trace == [] then None
    else if trace[|trace| - 1].published then Some(trace[|trace| - 1].out)
    else LastPublished(trace[..|trace| - 1])
  }

  /** Each entry continues the one before it, or a new stint continues the last published file. */
  ghost predicate Chained(h: Hashes, trace: seq<Computed>, k: nat)
    requires k < |trace|
  {
    var c := trace[k];
    && c.prev == (if c.starts || k == 0 then LastPublished(trace[..k]) else Some(trace[k - 1].out))
    && (c.prev.Some? ==> c.out.version > c.prev.value.version)
    && c.out == Recomputed(h, c.out.controller, c.out.controllerEpoch, c.prev, c.out.version, c.inp)
  }

  ghost predicate WellTraced(h: Hashes, w: World) {
    && (forall k :: 0 <= k < |w.trace| ==> Chained(h, w.trace, k))
    && w.file == LastPublished(w.trace)
    && (w.loop.Some? ==>
          && w.trace != []
          && w.loop.value.current == Some(w.trace[|w.trace| - 1].out)
          && w.loop.value.version == w.trace[|w.trace| - 1].out.version)
  }

  lemma ChainedExtends(h: Hashes, trace: seq<Computed>, c: Computed, k: nat)
    requires k < |trace| && Chained(h, trace, k)
    ensures Chained(h, trace + [c], k)
  {
    assert (trace + [c])[..k] == trace[..k];
  }

  lemma PublishIsWellTraced(h: Hashes, w: World, l: LoopState, inp: Inputs, works: bool, starts: bool)
    requires WellTraced(h, w)
    requires starts ==> l.current == w.file
    requires !starts ==> w.loop == Some(l)
    requires l.current.Some? ==> l.version >= l.current.value.version
    ensures WellTraced(h, Publish(w, h, l, inp, works, starts))
  {
    var v := Publish(w, h, l, inp, works, starts);
    RecomputedStamps(h, l, inp);
    hide Recomputed;
    var c := v.trace[|w.trace|];
    assert v.trace == w.trace + [c] && v.trace[..|w.trace|] == w.trace;
    forall k | 0 <= k < |w.trace|
      ensures Chained(h, v.trace, k)
    {
      ChainedExtends(h, w.trace, c, k);
    }
    assert Chained(h, v.trace, |w.trace|);
  }

  lemma RecomputedStamps(h: Hashes, l: LoopState, inp: Inputs)
    ensures var out := Recomputed(h, l.id, l.epoch, l.current, l.version + 1, inp);
            out.controller == l.id && out.controllerEpoch == l.epoch && out.version == l.version + 1
  {
  }

  lemma {:induction false} RunIsWellTraced(h: Hashes, events: seq<Event>)
    ensures WellTraced(h, Run(h, events))
  {
    if events != [] {
      var n := |events| - 1;
      RunIsWellTraced(h, events[..n]);
      var w := Run(h, events[..n]);
      hide WellTraced, Publish;
      match events[n]
      case Start(id, epoch, inp, works) =>
        var counter := if w.file.Some? then Max(0, w.file.value.version) else 0;
        PublishIsWellTraced(h, w, LoopState(id, epoch, w.file, counter), inp, works, true);
      case Update(inp, works) =>
        if w.loop.Some? {
          LoopInStep(h, w);
          PublishIsWellTraced(h, w, w.loop.value, inp, works, false);
        }
      case Stop =>
        StopIsWellTraced(h, w);
    }
  }

  lemma LoopInStep(h: Hashes, w: World)
    requires WellTraced(h, w) && w.loop.Some?
    ensures w.loop.value.current.Some? && w.loop.value.version == w.loop.value.current.value.version
  {
  }

  lemma StopIsWellTraced(h: Hashes, w: World)
    requires WellTraced(h, w)
    ensures WellTraced(h, w.(loop := None))
  {
  }

  /** Where an entry's predecessor sits, given an earlier published entry. */
  lemma {:induction false} LastPublishedIsLate(trace: seq<Computed>, i: nat) returns (j: nat)
    requires i < |trace| && trace[i].published
    ensures i <= j < |trace| && trace[j].published && LastPublished(trace) == Some(trace[j].out)
  {
    var n := |trace| - 1;
    if trace[n].published {
      j := n;
    } else {
      j := LastPublishedIsLate(trace[..n], i);
    }
  }

  lemma PredecessorIsLate(h: Hashes, trace: seq<Computed>, i: nat, k: nat) returns (j: nat)
    requires i < k < |trace| && trace[i].published && Chained(h, trace, k)
    ensures i <= j < k && trace[k].prev == Some(trace[j].out)
  {
    hide Recomputed;
    if trace[k].starts {
      j := LastPublishedIsLate(trace[..k], i);
    } else {
      j := k - 1;
    }
  }

  /** Versions: whatever is computed after a publication is numbered above it. */
  lemma {:induction false} VersionsRise(h: Hashes, events: seq<Event>, i: nat, k: nat)
    requires i < k < |Run(h, events).trace| && Run(h, events).trace[i].published
    ensures Run(h, events).trace[i].out.version < Run(h, events).trace[k].out.version
    decreases k
  {
    hide Recomputed;
    RunIsWellTraced(h, events);
    var trace := Run(h, events).trace;
    hide Run;
    assert Chained(h, trace, k);
    var j := PredecessorIsLate(h, trace, i, k);
    if i < j {
      VersionsRise(h, events, i, j);
    }
  }

  /** The recompute found the partition unassigned and assigned it anew. */
  ghost predicate Readds(c: Computed, key: string) {
    key in ByKey(c.out.partitions) && key !in ByKey(PartsOf(c.prev))
  }

  /** The epoch a partition gets when it is assigned anew: the one in its manifest, or one. */
  function FirstEpoch(inp: Inputs, key: string): nat {
    if key in inp.manifests && 0 < inp.manifests[key] < U32_LIMIT then inp.manifests[key] else 1
  }

  /** One recompute, seen through the lookup: epochs never fall and change hands only by rising. */
  lemma RecomputeEpochs(h: Hashes, c: Computed, key: string)
    requires c.out == Recomputed(h, c.out.controller, c.out.controllerEpoch, c.prev, c.out.version, c.inp)
    requires key in ByKey(c.out.partitions)
    ensures key in ByKey(PartsOf(c.prev)) ==>
              var was, now := ByKey(PartsOf(c.prev))[key], ByKey(c.out.partitions)[key];
              was.epoch <= now.epoch && (was.epoch == now.epoch <==> was.broker == now.broker)
    ensures key !in ByKey(PartsOf(c.prev)) ==>
              ByKey(c.out.partitions)[key].epoch == FirstEpoch(c.inp, key)
  {
    hide ByKey;
    var prev, rows := PartsOf(c.prev), c.out.partitions;
    var names := Catalogue(c.inp.topics);
    var floor := EpochFloor(c.inp.manifests, names, prev);
    hide Balanced, Catalogue, EpochFloor;
    var i :| 0 <= i < |rows| && rows[i] == ByKey(rows)[key];
    assert c.inp.alive != [] by {
      NoBrokersNoRows(prev, c.inp, floor, h.score);
    }
    BalanceEpochs(prev, c.inp.alive, c.inp.topics, floor, h.score, i);
    BalanceCovers(prev, c.inp.alive, c.inp.topics, floor, h.score);
    EpochFloorIs(c.inp.manifests, names, prev);
    assert PartitionKey(names[i].0, names[i].1) == key;
  }

  lemma NoBrokersNoRows(prev: seq<PartitionRow>, inp: Inputs, floor: map<string, nat>, score: Score)
    ensures inp.alive == [] ==> Balanced(prev, inp.alive, inp.topics, floor, score) == []
  {
  }

  /** Epochs have not fallen, and the same epoch means the same leader. */
  ghost predicate OneLeaderKept(was: PartitionRow, now: PartitionRow) {
    was.epoch <= now.epoch && (was.epoch == now.epoch ==> was.broker == now.broker)
  }

  /** Whenever the partition was assigned anew after entry `i`, its manifest had moved past the epoch of entry `i`. */
  ghost predicate ManifestMovedOn(trace: seq<Computed>, i: nat, k: nat, key: string)
    requires i <= k < |trace| && key in ByKey(trace[i].out.partitions)
  {
    forall m :: i < m <= k && Readds(trace[m], key) ==>
      FirstEpoch(trace[m].inp, key) > ByKey(trace[i].out.partitions)[key].epoch
  }

  /**
   One leader per partition epoch. Between a published assignment and
   anything computed later, in the same stint or another, the epoch of a
   partition has not fallen, and it is the same only if the leader is:
   without condition while the partition stays assigned, and across a
   drop and re-add if the manifest was past the published epoch by then.
   */
  lemma {:induction false} OneLeaderPerEpoch(h: Hashes, events: seq<Event>, i: nat, k: nat, key: string)
    requires i <= k < |Run(h, events).trace| && Run(h, events).trace[i].published
    requires var trace := Run(h, events).trace;
             && key in ByKey(trace[i].out.partitions) && key in ByKey(trace[k].out.partitions)
             && ManifestMovedOn(trace, i, k, key)
    ensures var trace := Run(h, events).trace;
            var was, now := ByKey(trace[i].out.partitions)[key], ByKey(trace[k].out.partitions)[key];
            OneLeaderKept(was, now)
    decreases k
  {
    hide Recomputed, ByKey, FirstEpoch;
    if i < k {
      RunIsWellTraced(h, events);
      var trace := Run(h, events).trace;
      hide Run;
      assert Chained(h, trace, k);
      RecomputeEpochs(h, trace[k], key);
      if !Readds(trace[k], key) {
        var j := PredecessorIsLate(h, trace, i, k);
        OneLeaderPerEpoch(h, events, i, j, key);
      }
    }
  }

  /** A partition assigned anew starts at the epoch in its manifest, or at one; never below what a leader has committed. */
  lemma ReaddStartsAtManifest(h: Hashes, events: seq<Event>, k: nat, key: string)
    requires k < |Run(h, events).trace| && Readds(Run(h, events).trace[k], key)
    ensures var c := Run(h, events).trace[k];
            && ByKey(c.out.partitions)[key].epoch == FirstEpoch(c.inp, key)
            && (key in c.inp.manifests && c.inp.manifests[key] < 0x1_0000_0000 ==> FirstEpoch(c.inp, key) >= c.inp.manifests[key])
  {
    hide Recomputed, ByKey;
    RunIsWellTraced(h, events);
    assert Chained(h, Run(h, events).trace, k);
    RecomputeEpochs(h, Run(h, events).trace[k], key);
  }

  lemma RecomputedOnAlive(h: Hashes, c: Computed, key: string)
    requires c.out == Recomputed(h, c.out.controller, c.out.controllerEpoch, c.prev, c.out.version, c.inp)
    requires key in ByKey(c.out.partitions)
    ensures ByKey(c.out.partitions)[key].broker in c.inp.alive
  {
    var floor := EpochFloor(c.inp.manifests, Catalogue(c.inp.topics), PartsOf(c.prev));
    NoBrokersNoRows(PartsOf(c.prev), c.inp, floor, h.score);
    var row := ByKey(c.out.partitions)[key];
    if c.inp.alive != [] {
      BalanceCovers(PartsOf(c.prev), c.inp.alive, c.inp.topics, floor, h.score);
      hide Balanced, EpochFloor, Catalogue, ByKey;
      assert row in c.out.partitions;
    }
  }

  /**
   When a partition comes back and its earlier leader is gone, one leader
   per epoch survives exactly if the manifest read at that time, or one,
   is past that leader's epoch.
   */
  lemma ReaddKeepsOneLeaderIff(h: Hashes, events: seq<Event>, i: nat, k: nat, key: string)
    requires i < k < |Run(h, events).trace| && Readds(Run(h, events).trace[k], key)
    requires key in ByKey(Run(h, events).trace[i].out.partitions)
    requires ByKey(Run(h, events).trace[i].out.partitions)[key].broker !in Run(h, events).trace[k].inp.alive
    ensures var trace := Run(h, events).trace;
            var was, now := ByKey(trace[i].out.partitions)[key], ByKey(trace[k].out.partitions)[key];
            OneLeaderKept(was, now) <==> FirstEpoch(trace[k].inp, key) > was.epoch
  {
    hide Run, ByKey, FirstEpoch, Recomputed;
    ReaddStartsAtManifest(h, events, k, key);
    RunIsWellTraced(h, events);
    var trace := Run(h, events).trace;
    assert Chained(h, trace, k);
    RecomputedOnAlive(h, trace[k], key);
  }
}
