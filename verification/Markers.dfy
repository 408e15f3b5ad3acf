/**
 Paying a prepared transaction's marker debt: every partition it touched
 is owed a COMMIT or ABORT marker, appended locally if this broker leads
 the partition, or left in the inbox of the broker that does.

 Every durable action is a step of its own, so any number of dispatch
 attempts, retries, receivers and crashes interleave in any order. A
 producer session runs any number of transactions, one after another, and
 every attempt has its own view of who leads what.
 */
module Markers {
  type PartitionId = (string, int)

  type Leaders = map<PartitionId, string>

  /** A producer session; the name of a queue file. */
  datatype Producer = Producer(pid: int, epoch: int)

  /** One transaction of a session. The number is in no file: it tells the transactions apart. */
  datatype TxnId = TxnId(producer: Producer, number: nat)

  datatype Txn = Txn(commit: bool, partitions: set<PartitionId>)

  /** A marker in a partition's log. */
  datatype Marker = Marker(partition: PartitionId, id: TxnId, commit: bool)

  datatype Entry = Entry(id: TxnId, commit: bool, partitions: set<PartitionId>)

  /** A queue file: the target's directory and the session's name. */
  datatype Inbox = Inbox(target: string, producer: Producer)

  /** What a dispatch attempt on one broker has made durable so far. */
  datatype Attempt = Attempt(broker: string, id: TxnId, view: Leaders, appended: set<PartitionId>, enqueued: set<string>)

  /** What a receiver has appended of an entry it read. */
  datatype Applying = Applying(broker: string, entry: Entry, appended: set<PartitionId>)

  datatype World = World(
    txns: map<TxnId, Txn>,
    prepared: set<TxnId>,
    completed: set<TxnId>,
    log: set<Marker>,
    inbox: map<Inbox, Entry>,
    attempts: set<Attempt>,
    applying: set<Applying>)

  const EMPTY := World(map[], {}, {}, {}, map[], {}, {})

  /** Partitions a dispatch on `broker` appends itself: those it leads and those without a known leader. */
  function Local(view: Leaders, broker: string, txn: Txn): set<PartitionId> {
    set p | p in txn.partitions && (p !in view || view[p] == broker)
  }

  function Queued(view: Leaders, target: string, txn: Txn): set<PartitionId> {
    set p | p in txn.partitions && p in view && view[p] == target
  }

  function Targets(view: Leaders, broker: string, txn: Txn): set<string> {
    set p | p in txn.partitions && p in view && view[p] != broker :: view[p]
  }

  datatype Step =
    | Prepare(id: TxnId, txn: Txn)
    | BeginDispatch(broker: string, id: TxnId, view: Leaders)
    | AppendLocal(attempt: Attempt, partition: PartitionId)
    | Enqueue(attempt: Attempt, target: string)
    | Complete(attempt: Attempt)
    | Abandon(attempt: Attempt)
    | ReadInbox(slot: Inbox)
    | AppendQueued(receiver: Applying, partition: PartitionId)
    | DeleteEntry(receiver: Applying, skipped: set<PartitionId>)
    | GiveUp(receiver: Applying)

  /**
   When a step can happen. A session prepares a transaction only after
   the one before it is complete. A broker's watcher works on one entry
   at a time, and drops the partitions it believes it does not lead.
   */
  predicate Enabled(w: World, step: Step) {
    match step
    case Prepare(id, txn) => id !in w.txns && forall other :: other in w.prepared ==> other.producer != id.producer
    case BeginDispatch(broker, id, view) => id in w.prepared && id in w.txns
    case AppendLocal(a, p) => a in w.attempts && a.id in w.txns && p in Local(a.view, a.broker, w.txns[a.id])
    case Enqueue(a, target) =>
      && a in w.attempts && a.id in w.txns && target in Targets(a.view, a.broker, w.txns[a.id])
      && Local(a.view, a.broker, w.txns[a.id]) <= a.appended
    case Complete(a) =>
      && a in w.attempts && a.id in w.prepared && a.id in w.txns
      && Local(a.view, a.broker, w.txns[a.id]) <= a.appended
      && Targets(a.view, a.broker, w.txns[a.id]) <= a.enqueued
    case Abandon(a) => a in w.attempts
    case ReadInbox(slot) => slot in w.inbox && forall r :: r in w.applying ==> r.broker != slot.target
    case AppendQueued(r, p) => r in w.applying && p in r.entry.partitions
    case DeleteEntry(r, skipped) => r in w.applying && r.entry.partitions <= r.appended + skipped
    case GiveUp(r) => r in w.applying
  }

  function Next(w: World, step: Step): World
    requires Enabled(w, step)
  {
    match step
    case Prepare(id, txn) => w.(txns := w.txns[id := txn], prepared := w.prepared + {id})
    case BeginDispatch(broker, id, view) => w.(attempts := w.attempts + {Attempt(broker, id, view, {}, {})})
    case AppendLocal(a, p) =>
      w.(log := w.log + {Marker(p, a.id, w.txns[a.id].commit)},
         attempts := w.attempts - {a} + {a.(appended := a.appended + {p})})
    case Enqueue(a, target) =>
      w.(inbox := w.inbox[Inbox(target, a.id.producer) :=
                            Entry(a.id, w.txns[a.id].commit, Queued(a.view, target, w.txns[a.id]))],
         attempts := w.attempts - {a} + {a.(enqueued := a.enqueued + {target})})
    case Complete(a) =>
      w.(completed := w.completed + {a.id}, prepared := w.prepared - {a.id}, attempts := w.attempts - {a})
    case Abandon(a) => w.(attempts := w.attempts - {a})
    case ReadInbox(slot) => w.(applying := w.applying + {Applying(slot.target, w.inbox[slot], {})})
    case AppendQueued(r, p) =>
      w.(log := w.log + {Marker(p, r.entry.id, r.entry.commit)},
         applying := w.applying - {r} + {r.(appended := r.appended + {p})})
    case DeleteEntry(r, _) =>
      w.(inbox := w.inbox - {Inbox(r.broker, r.entry.id.producer)}, applying := w.applying - {r})
    case GiveUp(r) => w.(applying := w.applying - {r})
  }

  ghost predicate ValidRun(w: World, steps: seq<Step>)
    decreases |steps|
  {
    steps == [] || (Enabled(w, steps[0]) && ValidRun(Next(w, steps[0]), steps[1..]))
  }

  ghost function Run(w: World, steps: seq<Step>): World
    requires ValidRun(w, steps)
    decreases |steps|
  {
    if steps == [] then w else Run(Next(w, steps[0]), steps[1..])
  }

  // ---- what every run keeps, whatever happens ----

  ghost predicate TrueEntry(w: World, e: Entry) {
    e.id in w.txns && e.commit == w.txns[e.id].commit && e.partitions <= w.txns[e.id].partitions
  }

  ghost predicate MarkerOwed(w: World, m: Marker) {
    m.id in w.txns && m.commit == w.txns[m.id].commit && m.partition in w.txns[m.id].partitions
  }

  ghost predicate Appended(w: World, id: TxnId, ps: set<PartitionId>) {
    id in w.txns && forall p :: p in ps ==> Marker(p, id, w.txns[id].commit) in w.log
  }

  ghost predicate Sound(w: World) {
    && w.completed <= w.txns.Keys
    && (forall slot :: slot in w.inbox ==> w.inbox[slot].id.producer == slot.producer && TrueEntry(w, w.inbox[slot]))
    && (forall a :: a in w.attempts ==> Appended(w, a.id, a.appended))
    && (forall r :: r in w.applying ==> TrueEntry(w, r.entry) && Appended(w, r.entry.id, r.appended))
    && (forall m :: m in w.log ==> MarkerOwed(w, m))
  }

  /** Transactions never change and markers never go away. */
  lemma StepCarries(w: World, step: Step)
    requires Enabled(w, step)
    ensures forall e :: TrueEntry(w, e) ==> TrueEntry(Next(w, step), e)
    ensures forall id, ps :: Appended(w, id, ps) ==> Appended(Next(w, step), id, ps)
    ensures forall m :: MarkerOwed(w, m) ==> MarkerOwed(Next(w, step), m)
  {
    var v := Next(w, step);
    assert forall id :: id in w.txns ==> id in v.txns && v.txns[id] == w.txns[id];
    assert w.log <= v.log;
  }

  lemma NextKeepsSound(w: World, step: Step)
    requires Sound(w) && Enabled(w, step)
    ensures Sound(Next(w, step))
  {
    var v := Next(w, step);
    StepCarries(w, step);
    hide Targets, MarkerOwed;
    match step
    case AppendLocal(a, p) =>
      AppendedMore(v, a.id, a.appended, p);
      MarkerOwedIf(v, p, a.id);
    case AppendQueued(r, p) =>
      AppendedMore(v, r.entry.id, r.appended, p);
      MarkerOwedIf(v, p, r.entry.id);
    case Enqueue(a, target) =>
      hide Appended;
      assert TrueEntry(v, v.inbox[Inbox(target, a.id.producer)]);
    case _ =>
      hide TrueEntry;
  }

  lemma AppendedMore(w: World, id: TxnId, ps: set<PartitionId>, p: PartitionId)
    requires Appended(w, id, ps) && Marker(p, id, w.txns[id].commit) in w.log
    ensures Appended(w, id, ps + {p})
  {
  }

  lemma MarkerOwedIf(w: World, p: PartitionId, id: TxnId)
    requires id in w.txns && p in w.txns[id].partitions
    ensures MarkerOwed(w, Marker(p, id, w.txns[id].commit))
  {
  }

  // ---- which steps lose a debt ----

  /** Some inbox still holds this marker for delivery. */
  ghost predicate Held(w: World, target: string, id: TxnId, p: PartitionId) {
    var slot := Inbox(target, id.producer);
    slot in w.inbox && w.inbox[slot].id == id && p in w.inbox[slot].partitions
  }

  /** The marker is in the partition's log, or waits in some broker's inbox. */
  ghost predicate Covered(w: World, id: TxnId, p: PartitionId)
    requires id in w.txns
  {
    Marker(p, id, w.txns[id].commit) in w.log || exists target :: Held(w, target, id, p)
  }

  /** Every partition a completed transaction owes a marker is covered. */
  ghost predicate DebtCovered(w: World)
    requires w.completed <= w.txns.Keys
  {
    forall id, p :: id in w.completed && p in w.txns[id].partitions ==> Covered(w, id, p)
  }

  ghost predicate KeepsCoverage(w: World, v: World) {
    forall id, p :: id in w.txns && Covered(w, id, p) ==> id in v.txns && Covered(v, id, p)
  }

  /** The only copy of partition `p`'s marker is the entry in `slot`. */
  ghost predicate OnlyCopy(w: World, slot: Inbox, p: PartitionId) {
    && slot in w.inbox && p in w.inbox[slot].partitions
    && Marker(p, w.inbox[slot].id, w.inbox[slot].commit) !in w.log
    && forall t :: t != slot.target ==> !Held(w, t, w.inbox[slot].id, p)
  }

  /** A queue file about to be replaced by another content, or removed, with the only copy of a marker in it. */
  ghost predicate Loses(w: World, step: Step, p: PartitionId)
    requires Enabled(w, step)
  {
    match step
    case Enqueue(a, target) =>
      var slot := Inbox(target, a.id.producer);
      OnlyCopy(w, slot, p) && !(w.inbox[slot].id == a.id && p in Queued(a.view, target, w.txns[a.id]))
    case DeleteEntry(r, _) => OnlyCopy(w, Inbox(r.broker, r.entry.id.producer), p)
    case _ => false
  }

  ghost predicate Lossless(w: World, step: Step)
    requires Enabled(w, step)
  {
    forall p :: !Loses(w, step, p)
  }

  lemma LosslessKeeps(w: World, step: Step, id: TxnId, p: PartitionId)
    requires Sound(w) && Enabled(w, step) && Lossless(w, step)
    requires id in w.txns && Covered(w, id, p)
    ensures Covered(Next(w, step), id, p)
  {
    var v, m := Next(w, step), Marker(p, id, w.txns[id].commit);
    hide Queued, Targets, Local;
    if m in w.log {
      assert m in v.log;
    } else if step.Enqueue? || step.DeleteEntry? {
      var slot := if step.Enqueue? then Inbox(step.target, step.attempt.id.producer)
                  else Inbox(step.receiver.broker, step.receiver.entry.id.producer);
      var t :| Held(w, t, id, p);
      if Inbox(t, id.producer) != slot {
        assert Held(v, t, id, p);
      } else {
        assert w.inbox[slot].commit == w.txns[id].commit;
        assert !Loses(w, step, p);
        if other :| other != t && Held(w, other, id, p) {
          assert Held(v, other, id, p);
        } else {
          assert OnlyCopy(w, slot, p);
          assert Held(v, t, id, p);
        }
      }
    } else {
      var t :| Held(w, t, id, p);
      assert Held(v, t, id, p);
    }
  }

  lemma LosingLoses(w: World, step: Step, p: PartitionId)
    requires Sound(w) && Enabled(w, step) && Loses(w, step, p)
    ensures !KeepsCoverage(w, Next(w, step))
  {
    var v := Next(w, step);
    var slot := if step.Enqueue? then Inbox(step.target, step.attempt.id.producer)
                else Inbox(step.receiver.broker, step.receiver.entry.id.producer);
    var id := w.inbox[slot].id;
    assert Held(w, slot.target, id, p);
    assert Covered(w, id, p);
    assert !Covered(v, id, p) by {
      forall t
        ensures !Held(v, t, id, p)
      {
        assert t != slot.target ==> !Held(w, t, id, p);
      }
    }
  }

  /** A step keeps every debt covered exactly if it does not replace or remove the only copy of a marker. */
  lemma KeepsCoverageIff(w: World, step: Step)
    requires Sound(w) && Enabled(w, step)
    ensures KeepsCoverage(w, Next(w, step)) <==> Lossless(w, step)
  {
    if Lossless(w, step) {
      forall id, p | id in w.txns && Covered(w, id, p)
        ensures id in Next(w, step).txns && Covered(Next(w, step), id, p)
      {
        LosslessKeeps(w, step, id, p);
      }
    } else {
      var p :| Loses(w, step, p);
      LosingLoses(w, step, p);
    }
  }

  // ---- runs that lose nothing ----

  /** What an attempt has put into inboxes is still covered. */
  ghost predicate AttemptCovered(w: World, a: Attempt) {
    a.id in w.txns &&
    forall t, p :: t in a.enqueued && p in Queued(a.view, t, w.txns[a.id]) ==> Covered(w, a.id, p)
  }

  ghost predicate Inv(w: World) {
    Sound(w) && DebtCovered(w) && forall a :: a in w.attempts ==> AttemptCovered(w, a)
  }

  lemma CompletedIsCovered(w: World, a: Attempt, p: PartitionId)
    requires Sound(w) && AttemptCovered(w, a) && Enabled(w, Complete(a)) && p in w.txns[a.id].partitions
    ensures Covered(w, a.id, p)
  {
    if p in a.view && a.view[p] != a.broker {
      assert a.view[p] in Targets(a.view, a.broker, w.txns[a.id]);
      assert p in Queued(a.view, a.view[p], w.txns[a.id]);
    } else {
      assert p in Local(a.view, a.broker, w.txns[a.id]);
      assert Appended(w, a.id, a.appended);
    }
  }

  lemma EnqueuedIsCovered(w: World, a: Attempt, target: string, p: PartitionId)
    requires Enabled(w, Enqueue(a, target)) && p in Queued(a.view, target, w.txns[a.id])
    ensures Covered(Next(w, Enqueue(a, target)), a.id, p)
  {
    assert Held(Next(w, Enqueue(a, target)), target, a.id, p);
  }

  lemma AttemptsStayCovered(w: World, step: Step)
    requires Inv(w) && Enabled(w, step) && KeepsCoverage(w, Next(w, step))
    ensures forall a :: a in Next(w, step).attempts ==> AttemptCovered(Next(w, step), a)
  {
    var v := Next(w, step);
    hide Covered, Queued, Local, Targets;
    assert forall a :: a in w.attempts ==> AttemptCovered(v, a) by {
      assert forall a :: a in w.attempts ==> a.id in v.txns && v.txns[a.id] == w.txns[a.id];
    }
    if step.Enqueue? {
      var a, target := step.attempt, step.target;
      assert AttemptCovered(v, a);
      forall p | p in Queued(a.view, target, v.txns[a.id])
        ensures Covered(v, a.id, p)
      {
        EnqueuedIsCovered(w, a, target, p);
      }
      assert AttemptCovered(v, a.(enqueued := a.enqueued + {target}));
    } else if step.AppendLocal? {
      assert AttemptCovered(v, step.attempt);
      assert AttemptCovered(v, step.attempt.(appended := step.attempt.appended + {step.partition}));
    }
  }

  lemma LosslessKeepsInv(w: World, step: Step)
    requires Inv(w) && Enabled(w, step) && Lossless(w, step)
    ensures Inv(Next(w, step))
  {
    var v := Next(w, step);
    NextKeepsSound(w, step);
    KeepsCoverageIff(w, step);
    AttemptsStayCovered(w, step);
    forall id, p | id in v.completed && p in v.txns[id].partitions
      ensures Covered(v, id, p)
    {
      hide Covered, Sound, Queued, Local, Targets, Lossless;
      assert w.txns.Keys <= v.txns.Keys && (id in w.txns ==> v.txns[id] == w.txns[id]);
      if id !in w.completed {
        CompletedIsCovered(w, step.attempt, p);
      }
    }
  }

  ghost predicate LosslessRun(w: World, steps: seq<Step>)
    requires ValidRun(w, steps)
    decreases |steps|
  {
    steps == [] || (Lossless(w, steps[0]) && LosslessRun(Next(w, steps[0]), steps[1..]))
  }

  lemma {:induction false} RunKeepsInv(w: World, steps: seq<Step>)
    requires Inv(w) && ValidRun(w, steps) && LosslessRun(w, steps)
    ensures Inv(Run(w, steps))
    decreases |steps|
  {
    hide Inv, Lossless, Enabled;
    if steps != [] {
      LosslessKeepsInv(w, steps[0]);
      RunKeepsInv(Next(w, steps[0]), steps[1..]);
    }
  }

  lemma {:induction false} RunKeepsSound(w: World, steps: seq<Step>)
    requires Sound(w) && ValidRun(w, steps)
    ensures Sound(Run(w, steps))
    decreases |steps|
  {
    hide Sound, Enabled;
    if steps != [] {
      NextKeepsSound(w, steps[0]);
      RunKeepsSound(Next(w, steps[0]), steps[1..]);
    }
  }

  /** No run whatever puts a marker into a log, or an entry into an inbox, that its transaction does not owe. */
  lemma OnlyOwedMarkers(steps: seq<Step>)
    requires ValidRun(EMPTY, steps)
    ensures var w := Run(EMPTY, steps);
            && (forall m :: m in w.log ==> MarkerOwed(w, m))
            && (forall slot :: slot in w.inbox ==> TrueEntry(w, w.inbox[slot]))
  {
    RunKeepsSound(EMPTY, steps);
  }

  ghost predicate NothingWaits(w: World, producer: Producer) {
    forall slot :: slot in w.inbox ==> slot.producer != producer
  }

  /**
   In a run that never replaces or removes the only copy of a marker, each
   partition a completed transaction owes a marker has it in its log or in
   an inbox; and once the session's inbox entries are gone, in its log.
   */
  lemma EveryDebtIsCovered(steps: seq<Step>)
    requires ValidRun(EMPTY, steps) && LosslessRun(EMPTY, steps)
    ensures Run(EMPTY, steps).completed <= Run(EMPTY, steps).txns.Keys
    ensures DebtCovered(Run(EMPTY, steps))
    ensures var w := Run(EMPTY, steps);
            forall id, p :: id in w.completed && p in w.txns[id].partitions && NothingWaits(w, id.producer) ==>
                Marker(p, id, w.txns[id].commit) in w.log
  {
    assert Inv(EMPTY);
    RunKeepsInv(EMPTY, steps);
    var w := Run(EMPTY, steps);
    forall id, p | id in w.completed && p in w.txns[id].partitions && NothingWaits(w, id.producer)
      ensures Marker(p, id, w.txns[id].commit) in w.log
    {
      assert Covered(w, id, p);
      assert forall t :: Held(w, t, id, p) ==> Inbox(t, id.producer) in w.inbox;
    }
  }

  // ---- when nothing is lost ----

  /**
   Leadership does not move: every dispatch and every receiver sees
   `leaders`. And no entry of an earlier transaction of the session is
   still waiting where a new one is put.
   */
  ghost predicate Steady(leaders: Leaders, w: World, step: Step)
    requires Enabled(w, step)
  {
    match step
    case BeginDispatch(_, _, view) => view == leaders
    case Enqueue(a, target) =>
      var slot := Inbox(target, a.id.producer);
      slot in w.inbox ==> w.inbox[slot].id == a.id
    case DeleteEntry(r, skipped) => forall p :: p in skipped ==> p !in leaders || leaders[p] != r.broker
    case _ => true
  }

  ghost predicate SteadyEntry(leaders: Leaders, w: World, target: string, e: Entry) {
    e.id in w.txns && e.partitions == Queued(leaders, target, w.txns[e.id])
  }

  /** Each broker's watcher is busy with an entry that is still there. */
  ghost predicate ReceiversHold(w: World) {
    && (forall r :: r in w.applying ==> Inbox(r.broker, r.entry.id.producer) in w.inbox && w.inbox[Inbox(r.broker, r.entry.id.producer)] == r.entry)
    && (forall r, q :: r in w.applying && q in w.applying && r.broker == q.broker ==> r == q)
  }

  ghost predicate SteadyInv(leaders: Leaders, w: World) {
    && Sound(w)
    && (forall a :: a in w.attempts ==> a.view == leaders)
    && (forall slot :: slot in w.inbox ==> SteadyEntry(leaders, w, slot.target, w.inbox[slot]))
    && ReceiversHold(w)
  }

  lemma SteadyIsLossless(leaders: Leaders, w: World, step: Step)
    requires SteadyInv(leaders, w) && Enabled(w, step) && Steady(leaders, w, step)
    ensures Lossless(w, step)
  {
    if step.DeleteEntry? {
      var r := step.receiver;
      forall p | p in r.entry.partitions
        ensures Marker(p, r.entry.id, r.entry.commit) in w.log
      {
        assert p in Queued(leaders, r.broker, w.txns[r.entry.id]);
        assert Appended(w, r.entry.id, r.appended);
      }
    }
  }

  lemma SteadyReceivers(leaders: Leaders, w: World, step: Step)
    requires SteadyInv(leaders, w) && Enabled(w, step) && Steady(leaders, w, step)
    ensures ReceiversHold(Next(w, step))
  {
    hide Local, Targets, Appended, MarkerOwed, Queued;
    if step.Enqueue? {
      var slot := Inbox(step.target, step.attempt.id.producer);
      assert slot in w.inbox ==> w.inbox[slot] == Next(w, step).inbox[slot];
    } else {
      hide Sound, SteadyEntry;
      assert SteadyInv(leaders, w);
    }
  }

  lemma SteadyKeepsInv(leaders: Leaders, w: World, step: Step)
    requires SteadyInv(leaders, w) && Enabled(w, step) && Steady(leaders, w, step)
    ensures SteadyInv(leaders, Next(w, step))
  {
    var v := Next(w, step);
    NextKeepsSound(w, step);
    SteadyReceivers(leaders, w, step);
    hide Local, Targets, Sound, Queued, ReceiversHold;
    assert forall e, t :: SteadyEntry(leaders, w, t, e) ==> SteadyEntry(leaders, v, t, e);
  }

  ghost predicate SteadyRun(leaders: Leaders, w: World, steps: seq<Step>)
    requires ValidRun(w, steps)
    decreases |steps|
  {
    steps == [] || (Steady(leaders, w, steps[0]) && SteadyRun(leaders, Next(w, steps[0]), steps[1..]))
  }

  lemma {:induction false} SteadyRunIsLossless(leaders: Leaders, w: World, steps: seq<Step>)
    requires SteadyInv(leaders, w) && ValidRun(w, steps) && SteadyRun(leaders, w, steps)
    ensures LosslessRun(w, steps)
    decreases |steps|
  {
    hide SteadyInv, Lossless, Enabled, Steady;
    if steps != [] {
      SteadyIsLossless(leaders, w, steps[0]);
      SteadyKeepsInv(leaders, w, steps[0]);
      SteadyRunIsLossless(leaders, Next(w, steps[0]), steps[1..]);
    }
  }

  /** While leadership stands and sessions wait for their own queue files, no crash, retry or interleaving loses a marker. */
  lemma SteadyClusterPaysEveryDebt(leaders: Leaders, steps: seq<Step>)
    requires ValidRun(EMPTY, steps) && SteadyRun(leaders, EMPTY, steps)
    ensures LosslessRun(EMPTY, steps)
    ensures Run(EMPTY, steps).completed <= Run(EMPTY, steps).txns.Keys && DebtCovered(Run(EMPTY, steps))
  {
    SteadyRunIsLossless(leaders, EMPTY, steps);
    EveryDebtIsCovered(steps);
  }

  // ---- both premises are needed ----

  lemma RunOneMore(w: World, step: Step, rest: seq<Step>)
    requires Enabled(w, step) && ValidRun(Next(w, step), rest)
    ensures ValidRun(w, [step] + rest) && Run(w, [step] + rest) == Run(Next(w, step), rest)
  {
    assert ([step] + rest)[1..] == rest;
  }

  const HERE := ("t", 0)
  const THERE := ("t", 1)
  const SESSION := Producer(7, 0)
  const FIRST := TxnId(SESSION, 0)
  const SECOND := TxnId(SESSION, 1)

  /** A single partition led by a peer, dispatched and completed from this broker. */
  ghost function QueueAndComplete(id: TxnId, p: PartitionId): seq<Step> {
    var view: Leaders := map[p := "peer"];
    var a := Attempt("self", id, view, {}, {});
    [Prepare(id, Txn(true, {p})), BeginDispatch("self", id, view), Enqueue(a, "peer"), Complete(a.(enqueued := {"peer"}))]
  }

  lemma QueueAndCompleteRuns(w: World, id: TxnId, p: PartitionId, rest: seq<Step>)
    requires id !in w.txns && w.prepared == {} && w.attempts == {}
    requires ValidRun(Queuing(w, id, p), rest)
    ensures ValidRun(w, QueueAndComplete(id, p) + rest)
    ensures Run(w, QueueAndComplete(id, p) + rest) == Run(Queuing(w, id, p), rest)
  {
    var view: Leaders := map[p := "peer"];
    var txn := Txn(true, {p});
    var a := Attempt("self", id, view, {}, {});
    var b := a.(enqueued := {"peer"});
    assert Local(view, "self", txn) == {};
    assert p in txn.partitions && view[p] == "peer";
    assert Targets(view, "self", txn) == {"peer"};
    assert Queued(view, "peer", txn) == {p};
    var w1 := w.(txns := w.txns[id := txn], prepared := {id});
    var w2 := w1.(attempts := {a});
    var w3 := w2.(inbox := w.inbox[Inbox("peer", id.producer) := Entry(id, true, {p})], attempts := {b});
    var s1, s2, s3, s4 := Prepare(id, txn), BeginDispatch("self", id, view), Enqueue(a, "peer"), Complete(b);
    assert Next(w, s1) == w1;
    assert Next(w1, s2) == w2;
    assert Next(w2, s3) == w3 by {
      assert a.enqueued + {"peer"} == {"peer"};
    }
    assert Next(w3, s4) == Queuing(w, id, p);
    hide Next, Enabled;
    RunOneMore(w3, s4, rest);
    RunOneMore(w2, s3, [s4] + rest);
    RunOneMore(w1, s2, [s3] + ([s4] + rest));
    RunOneMore(w, s1, [s2] + ([s3] + ([s4] + rest)));
    assert [s1] + ([s2] + ([s3] + ([s4] + rest))) == QueueAndComplete(id, p) + rest;
  }

  ghost function Queuing(w: World, id: TxnId, p: PartitionId): World {
    w.(txns := w.txns[id := Txn(true, {p})],
       completed := w.completed + {id},
       inbox := w.inbox[Inbox("peer", id.producer) := Entry(id, true, {p})],
       prepared := {}, attempts := {})
  }

  /**
   A session commits twice before the peer has polled: the second queue
   file replaces the first, and the first transaction is complete with its
   marker nowhere.
   */
  lemma ReusedSessionLosesAMarker()
    ensures var steps := QueueAndComplete(FIRST, HERE) + QueueAndComplete(SECOND, THERE);
            ValidRun(EMPTY, steps) &&
            var w := Run(EMPTY, steps);
            FIRST in w.completed && FIRST in w.txns && HERE in w.txns[FIRST].partitions && !Covered(w, FIRST, HERE)
  {
    var w1 := Queuing(EMPTY, FIRST, HERE);
    var w2 := Queuing(w1, SECOND, THERE);
    var second := QueueAndComplete(SECOND, THERE);
    assert second + [] == second;
    QueueAndCompleteRuns(w1, SECOND, THERE, []);
    QueueAndCompleteRuns(EMPTY, FIRST, HERE, second);
    assert forall t :: Held(w2, t, FIRST, HERE) ==> t == "peer";
    assert !Held(w2, "peer", FIRST, HERE);
  }

  /**
   Leadership moves between the dispatch and the poll: the old leader
   drops the partition it no longer leads and deletes the file.
   */
  lemma MovedLeadershipLosesAMarker()
    ensures var r := Applying("peer", Entry(FIRST, true, {HERE}), {});
            var steps := QueueAndComplete(FIRST, HERE) + [ReadInbox(Inbox("peer", SESSION)), DeleteEntry(r, {HERE})];
            ValidRun(EMPTY, steps) &&
            var w := Run(EMPTY, steps);
            FIRST in w.completed && FIRST in w.txns && HERE in w.txns[FIRST].partitions && !Covered(w, FIRST, HERE)
  {
    var r := Applying("peer", Entry(FIRST, true, {HERE}), {});
    var w1 := Queuing(EMPTY, FIRST, HERE);
    var w2 := w1.(applying := {r});
    var w3 := w2.(inbox := map[], applying := {});
    var s1, s2 := ReadInbox(Inbox("peer", SESSION)), DeleteEntry(r, {HERE});
    assert Next(w1, s1) == w2;
    assert Next(w2, s2) == w3;
    RunOneMore(w2, s2, []);
    RunOneMore(w1, s1, [s2]);
    assert [s1] + [s2] == [s1, s2] && [s2] + [] == [s2];
    QueueAndCompleteRuns(EMPTY, FIRST, HERE, [s1, s2]);
    assert forall t :: !Held(w3, t, FIRST, HERE);
  }
}
