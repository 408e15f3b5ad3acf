/**
 Producer ids handed out by brokers without a shared counter: every broker
 owns a slice of the id space and a block file, and persists the end of a
 block before it uses the block. A write that fails is only logged.
 */
module ProducerIds {
  import opened Layout

  const PID_STRIDE := 0x100_0000_0000
  const PID_BLOCK := 1000
  const I64_MAX := 0x7FFF_FFFF_FFFF_FFFF

  function SatAdd(x: int, y: int): int
  {
    if x + y > I64_MAX then I64_MAX else x + y
  }

  function SatMul(x: nat, y: nat): int {
    if x * y > I64_MAX then I64_MAX else x * y
  }

  function Base(broker: int): int {
    SatMul(SatAdd(if broker < 0 then 0 else broker, 1), PID_STRIDE)
  }

  function Pid(broker: int, local: int): int {
    SatAdd(Base(broker), local)
  }

  /** The allocator's counters. `start` is where this boot began. */
  datatype Counters = Counters(start: nat, next: nat, blockEnd: nat)

  /** What a missing, or a negative, block file stands for. */
  function Persisted(file: Option<int>): nat {
    match file
    case None => 0
    case Some(n) => if n < 0 then 0 else n
  }

  function Reserve(c: Counters): Counters {
    c.(blockEnd := SatAdd(c.blockEnd, PID_BLOCK))
  }

  // ---- the allocator as it runs ----

  class BlockFile {
    var content: Option<int>
  }

  class Allocator {
    const broker: int
    const base: int
    const file: BlockFile
    var next: nat
    var blockEnd: nat
    ghost const start: nat

    ghost function State(): Counters
      reads this
    {
      Counters(start, next, blockEnd)
    }

    /** Starts where the file ends, and burns a block at once. */
    constructor (broker: int, file: BlockFile, writes: bool)
      modifies file
      ensures this.broker == broker && this.base == Base(broker) && this.file == file
      ensures State() == Booted(old(file.content))
      ensures file.content == if writes then Some(blockEnd) else old(file.content)
    {
      this.broker, this.file := broker, file;
      this.base := Base(broker);
      var persisted := Persisted(file.content);
      this.next, this.start := persisted, persisted;
      var newEnd := SatAdd(persisted, PID_BLOCK);
      this.blockEnd := newEnd;
      new;
      if writes {
        file.content := Some(newEnd);
      }
    }

    /** The id at `next`; a used-up block is first replaced by the one after it. */
    method Next(writes: bool) returns (pid: int)
      requires base == Base(broker)
      modifies this, file
      ensures State() == Taken(old(State())) && pid == Pid(broker, old(next))
      ensures file.content == if old(next >= blockEnd) && writes then Some(blockEnd) else old(file.content)
    {
      if next >= blockEnd {
        ReserveBlock(writes);
      }
      pid := SatAdd(base, next);
      next := next + 1;
    }

    method ReserveBlock(writes: bool)
      modifies this`blockEnd, file
      ensures State() == Reserve(old(State()))
      ensures file.content == if writes then Some(blockEnd) else old(file.content)
    {
      var newEnd := SatAdd(blockEnd, PID_BLOCK);
      if writes {
        file.content := Some(newEnd);
      }
      blockEnd := newEnd;
    }
  }

  function Booted(file: Option<int>): Counters {
    Reserve(Counters(Persisted(file), Persisted(file), Persisted(file)))
  }

  function Taken(c: Counters): Counters {
    var d := if c.next >= c.blockEnd then Reserve(c) else c;
    d.(next := c.next + 1)
  }

  /** A boot starts where the file ends, with a thousand ids ahead of it; an allocation takes one, and a new block of a thousand when none is left. */
  lemma BlocksAreThousands(file: Option<int>, c: Counters)
    ensures Persisted(file) < PID_STRIDE ==> Booted(file) == Counters(Persisted(file), Persisted(file), Persisted(file) + 1000)
    ensures c.next < c.blockEnd ==> Taken(c) == Counters(c.start, c.next + 1, c.blockEnd)
    ensures c.next == c.blockEnd < PID_STRIDE ==> Taken(c) == Counters(c.start, c.next + 1, c.next + 1000)
  {
  }

  // ---- every interleaving of boots, allocations and crashes of any brokers ----

  /** A broker's file, and the counters of its last boot. */
  datatype World = World(files: map<int, int>, boots: map<int, Counters>, running: set<int>, issued: seq<int>)

  const EMPTY := World(map[], map[], {}, [])

  datatype Step = Boot(broker: int, writes: bool) | Allocate(broker: int, writes: bool) | Crash(broker: int)

  function File(w: World, broker: int): Option<int> {
    if broker in w.files then Some(w.files[broker]) else None
  }

  predicate Enabled(w: World, step: Step) {
    match step
    case Boot(b, _) => b !in w.running
    case Allocate(b, _) => b in w.running && b in w.boots
    case Crash(b) => b in w.running
  }

  function Next(w: World, step: Step): World
    requires Enabled(w, step)
  {
    match step
    case Boot(b, writes) =>
      var c := Booted(File(w, b));
      w.(boots := w.boots[b := c], running := w.running + {b}, files := if writes then w.files[b := c.blockEnd] else w.files)
    case Allocate(b, writes) =>
      var c := Taken(w.boots[b]);
      w.(boots := w.boots[b := c], issued := w.issued + [Pid(b, w.boots[b].next)],
         files := if writes && w.boots[b].next >= w.boots[b].blockEnd then w.files[b := c.blockEnd] else w.files)
    case Crash(b) => w.(running := w.running - {b})
  }

  ghost predicate ValidRun(w: World, steps: seq<Step>)
    decreases |steps|
  {
    steps == [] || (Enabled(w, steps[0]) && ValidRun(Next(w, steps[0]), steps[1..]))
  }

  ghost function Run(w: World, steps: seq<Step>): World
    requires ValidRun(w, steps)
    decreases |steps|
  {
    if steps == [] then w else Run(Next(w, steps[0]), steps[1..])
  }

  /** Broker ids whose slice fits into 63 bits. */
  predicate Ordinal(broker: int) {
    0 <= broker <= 0x7F_FFFE
  }

  predicate InSlice(local: int) {
    0 <= local < PID_STRIDE
  }

  /** Slices do not overlap, and none reaches 0. */
  lemma PidsDiffer(a: int, l: int, b: int, m: int)
    requires Ordinal(a) && Ordinal(b) && InSlice(l) && InSlice(m)
    ensures Pid(a, l) == (a + 1) * PID_STRIDE + l > 0
    ensures Pid(a, l) == Pid(b, m) <==> a == b && l == m
  {
  }

  /** What one broker's counters and file say about the ids it has issued. */
  ghost predicate BrokerInv(w: World, b: int) {
    if b in w.boots then
      var c := w.boots[b];
      && Ordinal(b) && c.start <= c.next <= PID_STRIDE && c.next <= c.blockEnd < I64_MAX - PID_BLOCK
      && c.start <= Persisted(File(w, b)) <= c.blockEnd
      && forall l :: c.start <= l < c.next ==> Pid(b, l) in w.issued
    else b !in w.files && b !in w.running
  }

  ghost predicate IssuedBy(w: World, b: int, l: int, pid: int) {
    b in w.boots && Ordinal(b) && InSlice(l) && l < w.boots[b].next && pid == Pid(b, l)
  }

  ghost predicate Distinct(s: seq<int>) {
    forall i, j :: 0 <= i < j < |s| ==> s[i] != s[j]
  }

  ghost predicate Inv(w: World) {
    && (forall b :: BrokerInv(w, b))
    && (forall pid :: pid in w.issued ==> exists b, l :: IssuedBy(w, b, l, pid))
    && Distinct(w.issued)
  }

  /** A broker restarts only with a file at or above everything its last boot handed out, and no slice runs out. */
  ghost predicate Careful(w: World, step: Step)
    requires Enabled(w, step)
  {
    match step
    case Boot(b, _) =>
      Ordinal(b) && Persisted(File(w, b)) < PID_STRIDE && (b in w.boots ==> w.boots[b].next <= Persisted(File(w, b)))
    case Allocate(b, _) => InSlice(w.boots[b].next)
    case Crash(_) => true
  }

  /** The id at a local number not below `next` has not been issued. */
  lemma NotYetIssued(w: World, b: int, l: int)
    requires Inv(w) && Ordinal(b) && InSlice(l) && (b in w.boots ==> w.boots[b].next <= l)
    ensures Pid(b, l) !in w.issued
  {
    if Pid(b, l) in w.issued {
      var a, m :| IssuedBy(w, a, m, Pid(b, l));
      PidsDiffer(b, l, a, m);
      assert false;
    }
  }

  lemma CarefulKeepsBrokers(w: World, step: Step, b: int)
    requires Inv(w) && Enabled(w, step) && Careful(w, step)
    ensures BrokerInv(Next(w, step), b)
  {
    hide Pid;
    assert BrokerInv(w, b);
  }

  lemma CarefulKeepsIssued(w: World, step: Step, pid: int)
    requires Inv(w) && Enabled(w, step) && Careful(w, step) && pid in Next(w, step).issued
    ensures exists b, l :: IssuedBy(Next(w, step), b, l, pid)
  {
    hide Pid, BrokerInv;
    if pid in w.issued {
      var b, l :| IssuedBy(w, b, l, pid);
      assert IssuedBy(Next(w, step), b, l, pid);
    } else {
      assert BrokerInv(w, step.broker);
      BootedBrokersAreOrdinal(w, step.broker);
      assert IssuedBy(Next(w, step), step.broker, w.boots[step.broker].next, pid);
    }
  }

  lemma BootedBrokersAreOrdinal(w: World, b: int)
    requires BrokerInv(w, b) && b in w.boots
    ensures Ordinal(b)
  {
  }

  lemma CarefulKeepsInv(w: World, step: Step)
    requires Inv(w) && Enabled(w, step) && Careful(w, step)
    ensures Inv(Next(w, step))
  {
    forall b
      ensures BrokerInv(Next(w, step), b)
    {
      CarefulKeepsBrokers(w, step, b);
    }
    forall pid | pid in Next(w, step).issued
      ensures exists b, l :: IssuedBy(Next(w, step), b, l, pid)
    {
      CarefulKeepsIssued(w, step, pid);
    }
    if step.Allocate? {
      assert BrokerInv(w, step.broker);
      NotYetIssued(w, step.broker, w.boots[step.broker].next);
    }
  }

  ghost predicate CarefulRun(w: World, steps: seq<Step>)
    requires ValidRun(w, steps)
    decreases |steps|
  {
    steps == [] || (Careful(w, steps[0]) && CarefulRun(Next(w, steps[0]), steps[1..]))
  }

  lemma {:induction false} RunKeepsInv(w: World, steps: seq<Step>)
    requires Inv(w) && ValidRun(w, steps) && CarefulRun(w, steps)
    ensures Inv(Run(w, steps))
    decreases |steps|
  {
    hide Inv, Careful, Enabled;
    if steps != [] {
      CarefulKeepsInv(w, steps[0]);
      RunKeepsInv(Next(w, steps[0]), steps[1..]);
    }
  }

  /** In every careful run no two allocations, on any brokers and in any boots, return the same id, and none returns 0. */
  lemma NoIdIsIssuedTwice(steps: seq<Step>)
    requires ValidRun(EMPTY, steps) && CarefulRun(EMPTY, steps)
    ensures var pids := Run(EMPTY, steps).issued;
            0 !in pids && forall i, j :: 0 <= i < j < |pids| ==> pids[i] != pids[j]
  {
    RunKeepsInv(EMPTY, steps);
    var w := Run(EMPTY, steps);
    if 0 in w.issued {
      var b, l :| IssuedBy(w, b, l, 0);
      PidsDiffer(b, l, b, l);
      assert false;
    }
  }

  /** The first id after a restart is a new one exactly if the file had caught up with the ids handed out. */
  lemma FreshAfterRestartIff(w: World, b: int)
    requires Inv(w) && b in w.boots && Persisted(File(w, b)) < PID_STRIDE
    ensures Pid(b, Booted(File(w, b)).next) !in w.issued <==> w.boots[b].next <= Persisted(File(w, b))
  {
    assert BrokerInv(w, b);
    if w.boots[b].next <= Persisted(File(w, b)) {
      NotYetIssued(w, b, Persisted(File(w, b)));
    }
  }

  /** Every restart finds the last block write of the boot before it on disk. Writes before that may have failed. */
  ghost predicate LastWriteKept(w: World, step: Step)
    requires Enabled(w, step)
  {
    match step
    case Boot(b, _) =>
      Ordinal(b) && Persisted(File(w, b)) < PID_STRIDE && (b in w.boots ==> File(w, b) == Some(w.boots[b].blockEnd))
    case Allocate(b, _) => InSlice(w.boots[b].next)
    case Crash(_) => true
  }

  ghost predicate KeptRun(w: World, steps: seq<Step>)
    requires ValidRun(w, steps)
    decreases |steps|
  {
    steps == [] || (LastWriteKept(w, steps[0]) && KeptRun(Next(w, steps[0]), steps[1..]))
  }

  lemma {:induction false} KeptRunIsCareful(w: World, steps: seq<Step>)
    requires Inv(w) && ValidRun(w, steps) && KeptRun(w, steps)
    ensures CarefulRun(w, steps)
    decreases |steps|
  {
    if steps != [] {
      assert BrokerInv(w, steps[0].broker);
      hide Inv, Enabled;
      CarefulKeepsInv(w, steps[0]);
      KeptRunIsCareful(Next(w, steps[0]), steps[1..]);
    }
  }

  lemma KeptWritesSuffice(steps: seq<Step>)
    requires ValidRun(EMPTY, steps) && KeptRun(EMPTY, steps)
    ensures Distinct(Run(EMPTY, steps).issued)
  {
    KeptRunIsCareful(EMPTY, steps);
    NoIdIsIssuedTwice(steps);
  }

  /** The step's block write, if it makes one, lands; no slice runs out. */
  ghost predicate Lands(w: World, step: Step)
    requires Enabled(w, step)
  {
    match step
    case Boot(b, writes) => writes && Ordinal(b) && Persisted(File(w, b)) < PID_STRIDE
    case Allocate(b, writes) => writes && InSlice(w.boots[b].next)
    case Crash(_) => true
  }

  ghost predicate LandingRun(w: World, steps: seq<Step>)
    requires ValidRun(w, steps)
    decreases |steps|
  {
    steps == [] || (Lands(w, steps[0]) && LandingRun(Next(w, steps[0]), steps[1..]))
  }

  /** Every broker that ever booted has its block's end on disk. */
  ghost predicate OnDisk(w: World) {
    forall b :: b in w.boots ==> File(w, b) == Some(w.boots[b].blockEnd)
  }

  lemma {:induction false} LandingRunIsKept(w: World, steps: seq<Step>)
    requires OnDisk(w) && ValidRun(w, steps) && LandingRun(w, steps)
    ensures KeptRun(w, steps) && OnDisk(Run(w, steps))
    decreases |steps|
  {
    if steps != [] {
      LandingRunIsKept(Next(w, steps[0]), steps[1..]);
    }
  }

  /** If the writes land, crashes and restarts at any points repeat no id, and the files name the blocks in use. */
  lemma LandedWritesSuffice(steps: seq<Step>)
    requires ValidRun(EMPTY, steps) && LandingRun(EMPTY, steps)
    ensures Distinct(Run(EMPTY, steps).issued) && OnDisk(Run(EMPTY, steps))
  {
    LandingRunIsKept(EMPTY, steps);
    KeptWritesSuffice(steps);
  }

  // ---- the conditions are needed ----

  lemma RunOneMore(w: World, step: Step, rest: seq<Step>)
    requires Enabled(w, step) && ValidRun(Next(w, step), rest)
    ensures ValidRun(w, [step] + rest) && Run(w, [step] + rest) == Run(Next(w, step), rest)
  {
    assert ([step] + rest)[1..] == rest;
  }

  /** A block write that never lands, and a restart: the same id again. */
  lemma LostWriteRepeatsAnId()
    ensures var steps := [Boot(0, false), Allocate(0, false), Crash(0), Boot(0, true), Allocate(0, true)];
            ValidRun(EMPTY, steps) && Run(EMPTY, steps).issued == [PID_STRIDE, PID_STRIDE]
  {
    var s1, s2, s3, s4, s5 := Boot(0, false), Allocate(0, false), Crash(0), Boot(0, true), Allocate(0, true);
    var w1 := Next(EMPTY, s1);
    var w2 := Next(w1, s2);
    var w3 := Next(w2, s3);
    var w4 := Next(w3, s4);
    var w5 := Next(w4, s5);
    assert w5.issued == [PID_STRIDE, PID_STRIDE];
    hide Next, Enabled;
    RunOneMore(w4, s5, []);
    RunOneMore(w3, s4, [s5] + []);
    RunOneMore(w2, s3, [s4] + ([s5] + []));
    RunOneMore(w1, s2, [s3] + ([s4] + ([s5] + [])));
    RunOneMore(EMPTY, s1, [s2] + ([s3] + ([s4] + ([s5] + []))));
    assert [s1] + ([s2] + ([s3] + ([s4] + ([s5] + [])))) == [s1, s2, s3, s4, s5];
  }

  /** From the next broker id on, the arithmetic saturates and every id is the same; every negative id shares broker 0's slice. */
  lemma OutsideTheOrdinals(broker: int, local: nat)
    requires !Ordinal(broker)
    ensures broker > 0 ==> Pid(broker, local) == I64_MAX
    ensures broker < 0 ==> Pid(broker, local) == Pid(0, local)
  {
    if broker > 0 {
      assert SatAdd(broker, 1) >= 0x80_0000;
      assert SatAdd(broker, 1) * PID_STRIDE >= 0x80_0000 * PID_STRIDE;
    }
  }
}
