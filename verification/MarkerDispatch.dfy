/**
 One dispatch attempt as the code runs it: group the owed partitions by
 leader, append the local markers, then write one queue file per peer,
 stopping at the first failure; and the sweep that retries every prepared
 transaction.

 Which appends, queue writes and completions fail is a parameter. The
 order in which a hash map is walked is left open.
 */
module MarkerDispatch {
  import opened Layout
  import Markers
  import Slices

  type PartitionId = Markers.PartitionId
  type Leaders = Markers.Leaders

  datatype TxnTopic = TxnTopic(topic: string, partitions: seq<int>)

  datatype MarkerEntry = MarkerEntry(producer: Markers.Producer, commit: bool, topics: seq<TxnTopic>)

  /** A control batch appended to a partition. */
  datatype Placed = Placed(partition: PartitionId, producer: Markers.Producer, commit: bool)

  datatype Faults = Faults(appends: set<PartitionId>, wired: bool, targets: set<string>, completions: set<string>)

  datatype Pending = Pending(txnId: string, producer: Markers.Producer, commit: bool, topics: seq<TxnTopic>)

  /** One transaction of a sweep, with what its dispatch meets: who leads what by then, and what fails. */
  datatype Try = Try(pending: Pending, view: Leaders, faults: Faults)

  // ---- the owed partitions, as a list ----

  function Pairs(topic: string, ps: seq<int>): seq<PartitionId> {
    seq(|ps|, i requires 0 <= i < |ps| => (topic, ps[i]))
  }

  function Flatten(topics: seq<TxnTopic>): seq<PartitionId> {
    if topics == [] then []
    else Flatten(topics[..|topics| - 1]) + Pairs(topics[|topics| - 1].topic, topics[|topics| - 1].partitions)
  }

  function LeaderOf(view: Leaders, p: PartitionId): Option<string> {
    if p in view then Some(view[p]) else None
  }

  /** The partitions with a given leader, in order. */
  function LedBy(view: Leaders, ps: seq<PartitionId>, leader: Option<string>): seq<PartitionId> {
    if ps == [] then []
    else
      var rest := LedBy(view, ps[..|ps| - 1], leader);
      if LeaderOf(view, ps[|ps| - 1]) == leader then rest + [ps[|ps| - 1]] else rest
  }

  lemma LedBySnoc(view: Leaders, ps: seq<PartitionId>, p: PartitionId, leader: Option<string>)
    ensures LedBy(view, ps + [p], leader) ==
            if LeaderOf(view, p) == leader then LedBy(view, ps, leader) + [p] else LedBy(view, ps, leader)
  {
    assert (ps + [p])[..|ps|] == ps;
  }

  lemma {:induction false} LedByMembers(view: Leaders, ps: seq<PartitionId>, leader: Option<string>)
    ensures forall p :: p in LedBy(view, ps, leader) <==> p in ps && LeaderOf(view, p) == leader
  {
    if ps != [] {
      LedByMembers(view, ps[..|ps| - 1], leader);
      assert ps == ps[..|ps| - 1] + [ps[|ps| - 1]];
    }
  }

  function OfTopic(ps: seq<PartitionId>, topic: string): seq<int> {
    if ps == [] then []
    else
      var rest := OfTopic(ps[..|ps| - 1], topic);
      if ps[|ps| - 1].0 == topic then rest + [ps[|ps| - 1].1] else rest
  }

  lemma {:induction false} OfTopicHas(ps: seq<PartitionId>, p: PartitionId)
    ensures p.1 in OfTopic(ps, p.0) <==> p in ps
  {
    if ps != [] {
      OfTopicHas(ps[..|ps| - 1], p);
      assert ps == ps[..|ps| - 1] + [ps[|ps| - 1]];
      assert forall q: PartitionId :: q.0 == p.0 && q.1 == p.1 ==> q == p;
    }
  }

  // ---- grouping ----

  ghost predicate Grouped(view: Leaders, ps: seq<PartitionId>, groups: map<Option<string>, seq<PartitionId>>) {
    forall k :: (k in groups <==> LedBy(view, ps, k) != []) && (k in groups ==> groups[k] == LedBy(view, ps, k))
  }

  lemma GroupedSnoc(view: Leaders, ps: seq<PartitionId>, groups: map<Option<string>, seq<PartitionId>>, p: PartitionId)
    requires Grouped(view, ps, groups)
    ensures var leader := LeaderOf(view, p);
            Grouped(view, ps + [p], groups[leader := (if leader in groups then groups[leader] else []) + [p]])
  {
    hide LedBy, LeaderOf;
    var leader := LeaderOf(view, p);
    var after := groups[leader := (if leader in groups then groups[leader] else []) + [p]];
    forall k
      ensures (k in after <==> LedBy(view, ps + [p], k) != []) && (k in after ==> after[k] == LedBy(view, ps + [p], k))
    {
      LedBySnoc(view, ps, p, k);
    }
  }

  lemma NoneGrouped(view: Leaders)
    ensures Grouped(view, [], map[])
  {
  }

  /** The grouping loop: each leader's group is exactly its partitions, in order, and no group is empty. */
  method GroupByLeader(view: Leaders, topics: seq<TxnTopic>) returns (groups: map<Option<string>, seq<PartitionId>>)
    ensures Grouped(view, Flatten(topics), groups)
  {
    hide LedBy, LeaderOf, Grouped;
    groups := map[];
    NoneGrouped(view);
    ghost var done: seq<PartitionId> := [];
    for i := 0 to |topics|
      invariant done == Flatten(topics[..i])
      invariant Grouped(view, done, groups)
    {
      ghost var before := done;
      var t := topics[i];
      for j := 0 to |t.partitions|
        invariant done == before + Pairs(t.topic, t.partitions[..j])
        invariant Grouped(view, done, groups)
      {
        var p := (t.topic, t.partitions[j]);
        var leader := LeaderOf(view, p);
        GroupedSnoc(view, done, groups, p);
        groups := groups[leader := (if leader in groups then groups[leader] else []) + [p]];
        done := done + [p];
      }
      assert t.partitions[..|t.partitions|] == t.partitions;
      assert topics[..i + 1][..i] == topics[..i];
    }
    assert topics[..|topics|] == topics;
  }

  /** The markers to append here are those without a leader and this broker's own, in either order; the rest are queued. */
  method SplitGroups(view: Leaders, self: string, ghost ps: seq<PartitionId>, groups: map<Option<string>, seq<PartitionId>>)
    returns (here: seq<PartitionId>, queued: map<string, seq<PartitionId>>)
    requires Grouped(view, ps, groups)
    ensures || here == LedBy(view, ps, None) + LedBy(view, ps, Some(self))
            || here == LedBy(view, ps, Some(self)) + LedBy(view, ps, None)
    ensures forall t :: t in queued <==> t != self && LedBy(view, ps, Some(t)) != []
    ensures forall t :: t in queued ==> queued[t] == LedBy(view, ps, Some(t))
  {
    here, queued := [], map[];
    var left := groups.Keys;
    ghost var nones: seq<PartitionId>, selves: seq<PartitionId> := [], [];
    while left != {}
      invariant left <= groups.Keys
      invariant nones == if None in groups && None !in left then groups[None] else []
      invariant selves == if Some(self) in groups && Some(self) !in left then groups[Some(self)] else []
      invariant here == nones + selves || here == selves + nones
      invariant forall t :: t in queued <==> t != self && Some(t) in groups && Some(t) !in left
      invariant forall t :: t in queued ==> queued[t] == groups[Some(t)]
    {
      var k :| k in left;
      left := left - {k};
      match k
      case None =>
        assert here == selves;
        here, nones := here + groups[k], groups[k];
      case Some(id) =>
        if id == self {
          assert here == nones;
          here, selves := here + groups[k], groups[k];
        } else {
          queued := queued[id := groups[k]];
        }
    }
  }

  /** An entry's topic lists carry exactly the given partitions, each topic once. */
  ghost predicate Packs(topics: seq<TxnTopic>, ps: seq<PartitionId>) {
    && (forall i, j :: 0 <= i < j < |topics| ==> topics[i].topic != topics[j].topic)
    && (forall i :: 0 <= i < |topics| ==> topics[i].partitions == OfTopic(ps, topics[i].topic) != [])
    && (forall p :: p in ps ==> exists i :: 0 <= i < |topics| && topics[i].topic == p.0)
  }

  ghost predicate TopicGroups(byTopic: map<string, seq<int>>, ps: seq<PartitionId>) {
    forall t :: (t in byTopic <==> OfTopic(ps, t) != []) && (t in byTopic ==> byTopic[t] == OfTopic(ps, t))
  }

  method PackByTopic(ps: seq<PartitionId>) returns (topics: seq<TxnTopic>)
    ensures Packs(topics, ps)
  {
    var byTopic: map<string, seq<int>> := map[];
    for i := 0 to |ps|
      invariant TopicGroups(byTopic, ps[..i])
    {
      var t := ps[i].0;
      assert ps[..i + 1][..i] == ps[..i];
      byTopic := byTopic[t := (if t in byTopic then byTopic[t] else []) + [ps[i].1]];
    }
    assert ps[..|ps|] == ps;
    topics := ListTopics(ps, byTopic);
  }

  method ListTopics(ghost ps: seq<PartitionId>, byTopic: map<string, seq<int>>) returns (topics: seq<TxnTopic>)
    requires TopicGroups(byTopic, ps)
    ensures Packs(topics, ps)
  {
    topics := [];
    var left := byTopic.Keys;
    while left != {}
      invariant left <= byTopic.Keys
      invariant forall i :: 0 <= i < |topics| ==>
                              topics[i].topic in byTopic && topics[i].topic !in left && topics[i].partitions == byTopic[topics[i].topic]
      invariant forall i, j :: 0 <= i < j < |topics| ==> topics[i].topic != topics[j].topic
      invariant forall t :: t in byTopic && t !in left ==> exists i :: 0 <= i < |topics| && topics[i].topic == t
    {
      var t :| t in left;
      left := left - {t};
      ghost var before := topics;
      topics := topics + [TxnTopic(t, byTopic[t])];
      assert topics[|before|].topic == t;
      assert forall i :: 0 <= i < |before| ==> topics[i] == before[i];
    }
    forall p | p in ps
      ensures p.0 in byTopic
    {
      OfTopicHas(ps, p);
    }
  }

  lemma {:induction false} FlattenMembers(topics: seq<TxnTopic>)
    ensures forall p :: p in Flatten(topics) <==> exists i :: 0 <= i < |topics| && p.0 == topics[i].topic && p.1 in topics[i].partitions
  {
    if topics != [] {
      var n := |topics| - 1;
      FlattenMembers(topics[..n]);
      forall p
        ensures p in Pairs(topics[n].topic, topics[n].partitions) <==> p.0 == topics[n].topic && p.1 in topics[n].partitions
      {
        var pairs := Pairs(topics[n].topic, topics[n].partitions);
        if p.0 == topics[n].topic && p.1 in topics[n].partitions {
          var k :| 0 <= k < |topics[n].partitions| && topics[n].partitions[k] == p.1;
          assert pairs[k] == p;
        }
      }
    }
  }

  /** Packing loses no partition and adds none. */
  lemma PackedIsSame(topics: seq<TxnTopic>, ps: seq<PartitionId>)
    requires Packs(topics, ps)
    ensures forall p :: p in Flatten(topics) <==> p in ps
  {
    FlattenMembers(topics);
    forall p
      ensures p in Flatten(topics) <==> p in ps
    {
      OfTopicHas(ps, p);
      if p in ps {
        var i :| 0 <= i < |topics| && topics[i].topic == p.0;
        assert p.1 in topics[i].partitions;
      }
    }
  }

  // ---- one attempt ----

  predicate LocalTo(view: Leaders, self: string, p: PartitionId) {
    p !in view || view[p] == self
  }

  ghost predicate Target(view: Leaders, self: string, ps: seq<PartitionId>, t: string) {
    t != self && LedBy(view, ps, Some(t)) != []
  }

  function Marks(ps: seq<PartitionId>, producer: Markers.Producer, commit: bool): seq<Placed> {
    seq(|ps|, i requires 0 <= i < |ps| => Placed(ps[i], producer, commit))
  }

  ghost predicate EntryFor(e: MarkerEntry, view: Leaders, ps: seq<PartitionId>, t: string, producer: Markers.Producer, commit: bool) {
    e.producer == producer && e.commit == commit && Packs(e.topics, LedBy(view, ps, Some(t)))
  }

  type Inboxes = map<Markers.Inbox, MarkerEntry>

  ghost predicate SameSlot(before: Inboxes, after: Inboxes, slot: Markers.Inbox) {
    (slot in before <==> slot in after) && (slot in before ==> before[slot] == after[slot])
  }

  /** Only this session's files change, only for brokers that are owed one, and only to what they are owed. */
  ghost predicate OnlyOwedFiles(before: Inboxes, after: Inboxes, view: Leaders, self: string, ps: seq<PartitionId>, producer: Markers.Producer, commit: bool) {
    forall slot ::
      || SameSlot(before, after, slot)
      || (slot.producer == producer && Target(view, self, ps, slot.target)
          && slot in after && EntryFor(after[slot], view, ps, slot.target, producer, commit))
  }

  /** Every owed marker is in the log or in its leader's inbox. */
  ghost predicate Paid(log: seq<Placed>, inbox: Inboxes, view: Leaders, self: string, ps: seq<PartitionId>, producer: Markers.Producer, commit: bool) {
    && (forall p :: p in ps && LocalTo(view, self, p) ==> Placed(p, producer, commit) in log)
    && (forall t :: Target(view, self, ps, t) ==>
          var slot := Markers.Inbox(t, producer);
          slot in inbox && EntryFor(inbox[slot], view, ps, t, producer, commit))
  }

  lemma NothingWritten(inbox: Inboxes, view: Leaders, self: string, ps: seq<PartitionId>, producer: Markers.Producer, commit: bool)
    ensures OnlyOwedFiles(inbox, inbox, view, self, ps, producer, commit)
  {
    hide EntryFor, Target;
  }

  /** Writing a peer the file it is owed. */
  lemma FileWritten(before: Inboxes, inbox: Inboxes, view: Leaders, self: string, ps: seq<PartitionId>,
                    slot: Markers.Inbox, e: MarkerEntry, producer: Markers.Producer, commit: bool)
    requires OnlyOwedFiles(before, inbox, view, self, ps, producer, commit)
    requires slot.producer == producer && Target(view, self, ps, slot.target)
    requires e.producer == producer && e.commit == commit && Packs(e.topics, LedBy(view, ps, Some(slot.target)))
    ensures OnlyOwedFiles(before, inbox[slot := e], view, self, ps, producer, commit)
    ensures EntryFor(e, view, ps, slot.target, producer, commit)
  {
    hide Packs, LedBy, Target;
    var after := inbox[slot := e];
    forall other
      ensures SameSlot(before, after, other)
           || (other.producer == producer && Target(view, self, ps, other.target)
               && other in after && EntryFor(after[other], view, ps, other.target, producer, commit))
    {
      assert other != slot ==> SameSlot(inbox, after, other);
    }
  }

  predicate CanAppend(view: Leaders, self: string, faults: Faults, ps: seq<PartitionId>) {
    forall p :: p in ps && LocalTo(view, self, p) ==> p !in faults.appends
  }

  predicate Reachable(faults: Faults, t: string) {
    faults.wired && t != "" && t !in faults.targets
  }

  predicate CanQueue(view: Leaders, self: string, faults: Faults, ps: seq<PartitionId>) {
    forall p :: p in ps && !LocalTo(view, self, p) ==> Reachable(faults, view[p])
  }

  lemma CanDispatch(faults: Faults, view: Leaders, self: string, ps: seq<PartitionId>)
    ensures CanAppend(view, self, faults, ps) && CanQueue(view, self, faults, ps) <==>
            forall p :: p in ps ==>
              if p !in view || view[p] == self then p !in faults.appends
              else faults.wired && view[p] != "" && view[p] !in faults.targets
  {
  }

  class Volume {
    var log: seq<Placed>
    var inbox: Inboxes
    var completed: set<string>

    /** Appends in order, stopping at the first that fails. */
    method WriteLocal(faults: Faults, ps: seq<PartitionId>, producer: Markers.Producer, commit: bool) returns (ok: bool)
      modifies this`log
      ensures ok <==> forall p :: p in ps ==> p !in faults.appends
      ensures old(log) <= log <= old(log) + Marks(ps, producer, commit)
      ensures ok ==> log == old(log) + Marks(ps, producer, commit)
    {
      for i := 0 to |ps|
        invariant log == old(log) + Marks(ps[..i], producer, commit)
        invariant forall j :: 0 <= j < i ==> ps[j] !in faults.appends
      {
        if ps[i] in faults.appends {
          return false;
        }
        log := log + [Placed(ps[i], producer, commit)];
      }
      return true;
    }

    /** One queue file per peer, stopping at the first that fails. */
    method EnqueueAll(faults: Faults, ghost view: Leaders, ghost self: string, ghost ps: seq<PartitionId>,
                      queued: map<string, seq<PartitionId>>, producer: Markers.Producer, commit: bool)
      returns (ok: bool)
      requires forall t :: t in queued <==> Target(view, self, ps, t)
      requires forall t :: t in queued ==> queued[t] == LedBy(view, ps, Some(t))
      modifies this`inbox
      ensures ok <==> forall t :: t in queued ==> Reachable(faults, t)
      ensures OnlyOwedFiles(old(inbox), inbox, view, self, ps, producer, commit)
      ensures ok ==> forall t :: t in queued ==>
                var slot := Markers.Inbox(t, producer);
                slot in inbox && EntryFor(inbox[slot], view, ps, t, producer, commit)
    {
      hide LedBy, EntryFor, OnlyOwedFiles, Target, Reachable;
      NothingWritten(inbox, view, self, ps, producer, commit);
      var left := queued.Keys;
      while left != {}
        invariant left <= queued.Keys
        invariant OnlyOwedFiles(old(inbox), inbox, view, self, ps, producer, commit)
        invariant forall t :: t in queued && t !in left ==>
                    && Reachable(faults, t)
                    && Markers.Inbox(t, producer) in inbox
                    && EntryFor(inbox[Markers.Inbox(t, producer)], view, ps, t, producer, commit)
      {
        var t :| t in left;
        if !Reachable(faults, t) {
          return false;
        }
        var topics := PackByTopic(queued[t]);
        var slot := Markers.Inbox(t, producer);
        var e := MarkerEntry(producer, commit, topics);
        FileWritten(old(inbox), inbox, view, self, ps, slot, e, producer, commit);
        inbox := inbox[slot := e];
        left := left - {t};
      }
      return true;
    }

    /**
     Succeeds exactly if every local append and every needed queue write
     can, and then every owed marker is placed: each local partition is
     appended once per listing. Whatever happens nothing else is touched.
     */
    method Dispatch(faults: Faults, view: Leaders, self: string, producer: Markers.Producer, commit: bool, topics: seq<TxnTopic>)
      returns (ok: bool)
      modifies this`log, this`inbox
      ensures ok <==> CanAppend(view, self, faults, Flatten(topics)) && CanQueue(view, self, faults, Flatten(topics))
      ensures ok <==> forall p :: p in Flatten(topics) ==>
                        if p !in view || view[p] == self then p !in faults.appends
                        else faults.wired && view[p] != "" && view[p] !in faults.targets
      ensures ok ==> Paid(log, inbox, view, self, Flatten(topics), producer, commit)
      ensures ok ==> multiset(log) == multiset(old(log))
                       + multiset(Marks(LedBy(view, Flatten(topics), None), producer, commit))
                       + multiset(Marks(LedBy(view, Flatten(topics), Some(self)), producer, commit))
      ensures old(log) <= log
      ensures forall m :: m in log[|old(log)|..] ==>
                m.partition in Flatten(topics) && LocalTo(view, self, m.partition) && m.producer == producer && m.commit == commit
      ensures OnlyOwedFiles(old(inbox), inbox, view, self, Flatten(topics), producer, commit)
      ensures !CanAppend(view, self, faults, Flatten(topics)) ==> inbox == old(inbox)
    {
      hide Flatten, LedBy, Packs, Grouped, EntryFor;
      ghost var ps := Flatten(topics);
      var groups := GroupByLeader(view, topics);
      var here, queued := SplitGroups(view, self, ps, groups);
      Splits(faults, view, self, ps, here, producer, commit);
      CanDispatch(faults, view, self, ps);
      var placed := WriteLocal(faults, here, producer, commit);
      WrittenIs(old(log), log, here, producer, commit);
      if !placed {
        return false;
      }
      ok := EnqueueAll(faults, view, self, ps, queued, producer, commit);
    }

    /**
     One sweep over the prepared transactions. Those completed are exactly
     those whose markers could all be placed and whose completion could be
     recorded. Each of them has its local markers in the log and, for
     every peer it owes, a queue file of its own or of a later transaction
     of its session.
     */
    method Reconcile(self: string, tries: seq<Try>) returns (count: nat)
      modifies this
      ensures completed == old(completed) + set id | id in Completed(self, tries)
      ensures count == |Completed(self, tries)|
      ensures forall i :: 0 <= i < |tries| && Completes(self, tries[i]) ==> PaidOrReplaced(log, inbox, self, tries, i)
    {
      hide Paid, OnlyOwedFiles, Completes, PaidOrReplaced, Flatten;
      count := 0;
      for k := 0 to |tries|
        invariant completed == old(completed) + set id | id in Completed(self, tries[..k])
        invariant count == |Completed(self, tries[..k])|
        invariant forall i :: 0 <= i < k && Completes(self, tries[i]) ==> PaidOrReplaced(log, inbox, self, tries[..k], i)
      {
        var p := tries[k].pending;
        ghost var log0, inbox0 := log, inbox;
        var ok := Dispatch(tries[k].faults, tries[k].view, self, p.producer, p.commit, p.topics);
        assert tries[..k + 1] == tries[..k] + [tries[k]] && tries[..k + 1][..k] == tries[..k];
        forall i | 0 <= i < k && Completes(self, tries[i])
          ensures PaidOrReplaced(log, inbox, self, tries[..k + 1], i)
        {
          StillPaid(log0, inbox0, log, inbox, self, tries[..k], tries[k], i);
        }
        CompletesIff(self, tries[k]);
        if ok {
          PaidNow(log, inbox, self, tries[..k + 1], k);
        }
        if ok && p.txnId !in tries[k].faults.completions {
          completed := completed + {p.txnId};
          count := count + 1;
        }
      }
      assert tries[..|tries|] == tries;
    }

    /** The receiver's side: append what this broker leads, in order, and stop at the first failure; the rest is dropped. */
    method ApplyEntry(faults: Faults, owns: PartitionId -> bool, e: MarkerEntry) returns (applied: bool)
      modifies this`log
      ensures applied <==> forall p :: p in Owned(owns, Flatten(e.topics)) ==> p !in faults.appends
      ensures old(log) <= log <= old(log) + Marks(Owned(owns, Flatten(e.topics)), e.producer, e.commit)
      ensures applied ==> log == old(log) + Marks(Owned(owns, Flatten(e.topics)), e.producer, e.commit)
    {
      hide Owned, Flatten, Marks;
      ghost var before := log;
      OwnedNone(owns, e.producer, e.commit);
      assert before + [] == before && e.topics[..0] == [];
      for i := 0 to |e.topics|
        invariant log == before + Marks(Owned(owns, Flatten(e.topics[..i])), e.producer, e.commit)
        invariant forall p :: p in Owned(owns, Flatten(e.topics[..i])) ==> p !in faults.appends
      {
        var t := e.topics[i];
        FlattenSteps(e.topics, i);
        OwnedJoin(owns, Flatten(e.topics[..i]), Pairs(t.topic, t.partitions));
        ghost var mine, theirs := Owned(owns, Flatten(e.topics[..i])), Owned(owns, Pairs(t.topic, t.partitions));
        MarksJoin(mine, theirs, e.producer, e.commit);
        var ok := ApplyOwned(faults, owns, Pairs(t.topic, t.partitions), e.producer, e.commit);
        if !ok {
          FlattenPrefix(e.topics, i + 1);
          OwnedPrefix(owns, Flatten(e.topics[..i + 1]), Flatten(e.topics));
          MarksPrefix(mine + theirs, Owned(owns, Flatten(e.topics)), e.producer, e.commit);
          assert log <= before + Marks(mine + theirs, e.producer, e.commit);
          ghost var p :| p in theirs && p in faults.appends;
          assert p in mine + theirs;
          return false;
        }
      }
      assert e.topics[..|e.topics|] == e.topics;
      return true;
    }

    method ApplyOwned(faults: Faults, owns: PartitionId -> bool, ps: seq<PartitionId>, producer: Markers.Producer, commit: bool)
      returns (ok: bool)
      modifies this`log
      ensures ok <==> forall p :: p in Owned(owns, ps) ==> p !in faults.appends
      ensures old(log) <= log <= old(log) + Marks(Owned(owns, ps), producer, commit)
      ensures ok ==> log == old(log) + Marks(Owned(owns, ps), producer, commit)
    {
      OwnedNone(owns, producer, commit);
      hide Owned, Flatten;
      for j := 0 to |ps|
        invariant log == old(log) + Marks(Owned(owns, ps[..j]), producer, commit)
        invariant forall p :: p in Owned(owns, ps[..j]) ==> p !in faults.appends
      {
        Slices.HeadOff(ps, j);
        OwnedSnoc(owns, ps[..j], ps[j]);
        if owns(ps[j]) {
          if ps[j] in faults.appends {
            OwnedPrefix(owns, ps[..j], ps);
            OwnedMembers(owns, ps);
            MarksPrefix(Owned(owns, ps[..j]), Owned(owns, ps), producer, commit);
            return false;
          }
          log := log + [Placed(ps[j], producer, commit)];
        }
      }
      assert ps[..|ps|] == ps;
      return true;
    }

    /**
     One queue file. If everything this broker leads in it can be
     appended, it is, in order, and the file goes if it can be deleted;
     otherwise the appends stop at the first failure and the file stays.
     */
    method ProcessOne(faults: Faults, owns: PartitionId -> bool, slot: Markers.Inbox, deletes: bool)
      modifies this`log, this`inbox
      ensures slot !in old(inbox) ==> log == old(log) && inbox == old(inbox)
      ensures slot in old(inbox) ==>
                var e := old(inbox)[slot];
                var marks := Marks(Owned(owns, Flatten(e.topics)), e.producer, e.commit);
                if Appliable(faults, owns, e)
                then log == old(log) + marks && inbox == if deletes then old(inbox) - {slot} else old(inbox)
                else old(log) <= log <= old(log) + marks && inbox == old(inbox)
    {
      if slot !in inbox {
        return;
      }
      var e := inbox[slot];
      OwnedMembers(owns, Flatten(e.topics));
      hide Flatten, Owned, Marks;
      var applied := ApplyEntry(faults, owns, e);
      if applied && deletes {
        inbox := inbox - {slot};
      }
    }

    /**
     One tick of the watcher: every file of this broker's inbox is looked
     at. Those whose markers can all be appended are applied, and gone
     unless they cannot be deleted; all other files stay as they are, and
     nothing is appended that no file asked for.
     */
    method Tick(self: string, faults: Faults, owns: PartitionId -> bool, stuck: set<Markers.Inbox>)
      modifies this`log, this`inbox
      ensures forall slot :: slot in inbox <==>
                slot in old(inbox) && !(slot.target == self && slot !in stuck && Appliable(faults, owns, old(inbox)[slot]))
      ensures forall slot :: slot in inbox ==> inbox[slot] == old(inbox)[slot]
      ensures old(log) <= log
      ensures forall slot :: slot in old(inbox) && slot.target == self && Appliable(faults, owns, old(inbox)[slot]) ==>
                Delivered(log, owns, old(inbox)[slot])
      ensures forall m :: m in log[|old(log)|..] ==> exists slot :: slot in old(inbox) && slot.target == self && Asked(owns, old(inbox)[slot], m)
    {
      hide Flatten, Owned, Marks, Appliable, Delivered, Asked;
      var files := set slot | slot in inbox && slot.target == self;
      ghost var all, start := inbox, log;
      ghost var done: set<Markers.Inbox> := {};
      while files != {}
        invariant files !! done && forall slot :: slot in files || slot in done <==> slot in all && slot.target == self
        invariant forall slot :: slot in inbox <==> slot in all && !(slot in done && slot !in stuck && Appliable(faults, owns, all[slot]))
        invariant forall slot :: slot in inbox ==> inbox[slot] == all[slot]
        invariant start <= log
        invariant forall slot :: slot in done && Appliable(faults, owns, all[slot]) ==> Delivered(log, owns, all[slot])
        invariant forall m :: m in log[|start|..] ==> exists slot :: slot in done && Asked(owns, all[slot], m)
        decreases |files|
      {
        var slot :| slot in files;
        files := files - {slot};
        ghost var log0 := log;
        ProcessOne(faults, owns, slot, slot !in stuck);
        ProcessedIs(log0, log, faults, owns, all[slot]);
        forall other | other in done && Appliable(faults, owns, all[other])
          ensures Delivered(log, owns, all[other])
        {
          DeliveredStays(log0, log, owns, all[other]);
        }
        SplitLog(start, log0, log);
        done := done + {slot};
      }
    }
  }

  ghost predicate Appliable(faults: Faults, owns: PartitionId -> bool, e: MarkerEntry) {
    forall p :: p in Flatten(e.topics) && owns(p) ==> p !in faults.appends
  }

  /** Every partition of the entry that this broker leads has its marker. */
  ghost predicate Delivered(log: seq<Placed>, owns: PartitionId -> bool, e: MarkerEntry) {
    forall p :: p in Flatten(e.topics) && owns(p) ==> Placed(p, e.producer, e.commit) in log
  }

  ghost predicate Asked(owns: PartitionId -> bool, e: MarkerEntry, m: Placed) {
    m.partition in Flatten(e.topics) && owns(m.partition) && m.producer == e.producer && m.commit == e.commit
  }

  lemma SplitLog(start: seq<Placed>, before: seq<Placed>, after: seq<Placed>)
    requires start <= before <= after
    ensures forall m :: m in after[|start|..] ==> m in before[|start|..] || m in after[|before|..]
  {
    assert after[|start|..] == before[|start|..] + after[|before|..];
  }

  lemma DeliveredStays(log: seq<Placed>, log2: seq<Placed>, owns: PartitionId -> bool, e: MarkerEntry)
    requires log <= log2 && Delivered(log, owns, e)
    ensures Delivered(log2, owns, e)
  {
    hide Flatten;
  }

  lemma ProcessedIs(before: seq<Placed>, after: seq<Placed>, faults: Faults, owns: PartitionId -> bool, e: MarkerEntry)
    requires var marks := Marks(Owned(owns, Flatten(e.topics)), e.producer, e.commit);
             before <= after <= before + marks && (Appliable(faults, owns, e) ==> after == before + marks)
    ensures Appliable(faults, owns, e) ==> Delivered(after, owns, e)
    ensures forall m :: m in after[|before|..] ==> Asked(owns, e, m)
  {
    OwnedMembers(owns, Flatten(e.topics));
    WrittenIs(before, after, Owned(owns, Flatten(e.topics)), e.producer, e.commit);
    hide Flatten, Owned, Marks;
  }

  /** The queue file for a peer is what a transaction owes that peer. */
  ghost predicate FileOf(inbox: Inboxes, slot: Markers.Inbox, self: string, y: Try) {
    var ps := Flatten(y.pending.topics);
    && slot.producer == y.pending.producer && Target(y.view, self, ps, slot.target)
    && slot in inbox && EntryFor(inbox[slot], y.view, ps, slot.target, y.pending.producer, y.pending.commit)
  }

  ghost predicate PaidOrReplaced(log: seq<Placed>, inbox: Inboxes, self: string, tries: seq<Try>, i: nat)
    requires i < |tries|
  {
    var p, ps := tries[i].pending, Flatten(tries[i].pending.topics);
    && (forall q :: q in ps && LocalTo(tries[i].view, self, q) ==> Placed(q, p.producer, p.commit) in log)
    && (forall t :: Target(tries[i].view, self, ps, t) ==>
          exists j :: i <= j < |tries| && FileOf(inbox, Markers.Inbox(t, p.producer), self, tries[j]))
  }

  /** With one transaction per session, that is what was owed. */
  lemma PaidInFull(log: seq<Placed>, inbox: Inboxes, self: string, tries: seq<Try>, i: nat)
    requires i < |tries| && PaidOrReplaced(log, inbox, self, tries, i)
    requires forall j :: i < j < |tries| ==> tries[j].pending.producer != tries[i].pending.producer
    ensures var p := tries[i].pending;
            Paid(log, inbox, tries[i].view, self, Flatten(p.topics), p.producer, p.commit)
  {
    hide EntryFor, Flatten, Target;
    var p := tries[i].pending;
    forall t | Target(tries[i].view, self, Flatten(p.topics), t)
      ensures var slot := Markers.Inbox(t, p.producer);
              slot in inbox && EntryFor(inbox[slot], tries[i].view, Flatten(p.topics), t, p.producer, p.commit)
    {
      var j :| i <= j < |tries| && FileOf(inbox, Markers.Inbox(t, p.producer), self, tries[j]);
      assert j == i;
    }
  }

  lemma PaidNow(log: seq<Placed>, inbox: Inboxes, self: string, tries: seq<Try>, i: nat)
    requires i < |tries|
    requires var p := tries[i].pending; Paid(log, inbox, tries[i].view, self, Flatten(p.topics), p.producer, p.commit)
    ensures PaidOrReplaced(log, inbox, self, tries, i)
  {
    hide EntryFor, Flatten, Target;
    var p := tries[i].pending;
    forall t | Target(tries[i].view, self, Flatten(p.topics), t)
      ensures exists j :: i <= j < |tries| && FileOf(inbox, Markers.Inbox(t, p.producer), self, tries[j])
    {
      assert FileOf(inbox, Markers.Inbox(t, p.producer), self, tries[i]);
    }
  }

  /** A later dispatch leaves a file as it is, or puts its own in its place. */
  lemma StillPaid(log: seq<Placed>, inbox: Inboxes, log2: seq<Placed>, inbox2: Inboxes, self: string, tries: seq<Try>, y: Try, i: nat)
    requires i < |tries| && PaidOrReplaced(log, inbox, self, tries, i) && log <= log2
    requires OnlyOwedFiles(inbox, inbox2, y.view, self, Flatten(y.pending.topics), y.pending.producer, y.pending.commit)
    ensures PaidOrReplaced(log2, inbox2, self, tries + [y], i)
  {
    hide EntryFor, Flatten, Target;
    var p, all := tries[i].pending, tries + [y];
    forall t | Target(tries[i].view, self, Flatten(p.topics), t)
      ensures exists j :: i <= j < |all| && FileOf(inbox2, Markers.Inbox(t, p.producer), self, all[j])
    {
      var slot := Markers.Inbox(t, p.producer);
      var j :| i <= j < |tries| && FileOf(inbox, slot, self, tries[j]);
      if SameSlot(inbox, inbox2, slot) {
        assert all[j] == tries[j];
        assert FileOf(inbox2, slot, self, all[j]);
      } else {
        assert FileOf(inbox2, slot, self, all[|tries|]);
      }
    }
  }

  predicate Completes(self: string, y: Try) {
    && CanAppend(y.view, self, y.faults, Flatten(y.pending.topics)) && CanQueue(y.view, self, y.faults, Flatten(y.pending.topics))
    && y.pending.txnId !in y.faults.completions
  }

  /** The transactions a sweep completes, in order. */
  function Completed(self: string, tries: seq<Try>): seq<string> {
    if tries == [] then []
    else
      var rest, last := Completed(self, tries[..|tries| - 1]), tries[|tries| - 1];
      if Completes(self, last) then rest + [last.pending.txnId] else rest
  }

  lemma CompletesIff(self: string, y: Try)
    ensures Completes(self, y) <==>
              && CanAppend(y.view, self, y.faults, Flatten(y.pending.topics)) && CanQueue(y.view, self, y.faults, Flatten(y.pending.topics))
              && y.pending.txnId !in y.faults.completions
  {
  }

  lemma LocalsAre(view: Leaders, self: string, ps: seq<PartitionId>, here: seq<PartitionId>)
    requires || here == LedBy(view, ps, None) + LedBy(view, ps, Some(self))
             || here == LedBy(view, ps, Some(self)) + LedBy(view, ps, None)
    ensures forall p :: p in here <==> p in ps && LocalTo(view, self, p)
  {
    LedByMembers(view, ps, None);
    LedByMembers(view, ps, Some(self));
  }

  lemma TargetsAre(view: Leaders, self: string, ps: seq<PartitionId>)
    ensures forall t :: Target(view, self, ps, t) <==> exists p :: p in ps && !LocalTo(view, self, p) && view[p] == t
  {
    forall t
      ensures Target(view, self, ps, t) <==> exists p :: p in ps && !LocalTo(view, self, p) && view[p] == t
    {
      LedByMembers(view, ps, Some(t));
      var led := LedBy(view, ps, Some(t));
      if led != [] {
        assert led[0] in led;
      }
    }
  }

  /** What the two-way split means for success and for what a full local write appends. */
  lemma Splits(faults: Faults, view: Leaders, self: string, ps: seq<PartitionId>, here: seq<PartitionId>, producer: Markers.Producer, commit: bool)
    requires || here == LedBy(view, ps, None) + LedBy(view, ps, Some(self))
             || here == LedBy(view, ps, Some(self)) + LedBy(view, ps, None)
    ensures forall p :: p in here <==> p in ps && LocalTo(view, self, p)
    ensures (forall p :: p in here ==> p !in faults.appends) <==> CanAppend(view, self, faults, ps)
    ensures (forall t :: Target(view, self, ps, t) ==> Reachable(faults, t)) <==> CanQueue(view, self, faults, ps)
    ensures multiset(Marks(here, producer, commit)) ==
            multiset(Marks(LedBy(view, ps, None), producer, commit)) + multiset(Marks(LedBy(view, ps, Some(self)), producer, commit))
  {
    hide LedBy, Reachable;
    LocalsAre(view, self, ps, here);
    TargetsAre(view, self, ps);
    var nones, selves := LedBy(view, ps, None), LedBy(view, ps, Some(self));
    assert Marks(nones + selves, producer, commit) == Marks(nones, producer, commit) + Marks(selves, producer, commit);
    assert Marks(selves + nones, producer, commit) == Marks(selves, producer, commit) + Marks(nones, producer, commit);
    if CanQueue(view, self, faults, ps) {
      forall t | Target(view, self, ps, t)
        ensures Reachable(faults, t)
      {
        var p :| p in ps && !LocalTo(view, self, p) && view[p] == t;
      }
    } else {
      var p :| p in ps && !LocalTo(view, self, p) && !Reachable(faults, view[p]);
      assert Target(view, self, ps, view[p]);
    }
  }

  /** The partitions this broker believes it leads, in order. */
  function Owned(owns: PartitionId -> bool, ps: seq<PartitionId>): seq<PartitionId> {
    if ps == [] then []
    else
      var rest := Owned(owns, ps[..|ps| - 1]);
      if owns(ps[|ps| - 1]) then rest + [ps[|ps| - 1]] else rest
  }

  lemma OwnedSnoc(owns: PartitionId -> bool, ps: seq<PartitionId>, p: PartitionId)
    ensures Owned(owns, ps + [p]) == if owns(p) then Owned(owns, ps) + [p] else Owned(owns, ps)
  {
    assert (ps + [p])[..|ps|] == ps;
  }

  lemma {:induction false} OwnedMembers(owns: PartitionId -> bool, ps: seq<PartitionId>)
    ensures forall p :: p in Owned(owns, ps) <==> p in ps && owns(p)
  {
    if ps != [] {
      OwnedMembers(owns, ps[..|ps| - 1]);
      assert ps == ps[..|ps| - 1] + [ps[|ps| - 1]];
    }
  }

  lemma {:induction false} OwnedPrefix(owns: PartitionId -> bool, a: seq<PartitionId>, b: seq<PartitionId>)
    requires a <= b
    ensures Owned(owns, a) <= Owned(owns, b)
  {
    if |a| < |b| {
      OwnedPrefix(owns, a, b[..|b| - 1]);
      assert Owned(owns, b[..|b| - 1]) <= Owned(owns, b);
    } else {
      assert a == b;
    }
  }

  lemma MarksPrefix(a: seq<PartitionId>, b: seq<PartitionId>, producer: Markers.Producer, commit: bool)
    requires a <= b
    ensures Marks(a, producer, commit) <= Marks(b, producer, commit)
  {
  }

  lemma {:induction false} FlattenPrefix(topics: seq<TxnTopic>, n: nat)
    requires n <= |topics|
    ensures Flatten(topics[..n]) <= Flatten(topics)
  {
    if n < |topics| {
      var m := |topics| - 1;
      FlattenPrefix(topics[..m], n);
      assert topics[..m][..n] == topics[..n];
      assert Flatten(topics[..m]) <= Flatten(topics);
    } else {
      assert topics[..n] == topics;
    }
  }

  lemma FlattenSteps(topics: seq<TxnTopic>, i: nat)
    requires i < |topics|
    ensures Flatten(topics[..i + 1]) == Flatten(topics[..i]) + Pairs(topics[i].topic, topics[i].partitions)
  {
    assert topics[..i + 1][..i] == topics[..i];
  }

  lemma OwnedNothing(owns: PartitionId -> bool)
    ensures Owned(owns, []) == []
  {
  }

  lemma {:induction false} OwnedJoin(owns: PartitionId -> bool, a: seq<PartitionId>, b: seq<PartitionId>)
    ensures Owned(owns, a + b) == Owned(owns, a) + Owned(owns, b)
  {
    OwnedNothing(owns);
    hide Owned;
    if b == [] {
      assert a + b == a;
    } else {
      var rest, p := b[..|b| - 1], b[|b| - 1];
      OwnedJoin(owns, a, rest);
      OwnedSnoc(owns, a + rest, p);
      OwnedSnoc(owns, rest, p);
      assert a + b == a + rest + [p] && b == rest + [p];
    }
  }

  lemma MarksJoin(a: seq<PartitionId>, b: seq<PartitionId>, producer: Markers.Producer, commit: bool)
    ensures Marks(a + b, producer, commit) == Marks(a, producer, commit) + Marks(b, producer, commit)
  {
  }

  lemma OwnedNone(owns: PartitionId -> bool, producer: Markers.Producer, commit: bool)
    ensures Flatten([]) == [] && Owned(owns, []) == [] && Marks([], producer, commit) == []
  {
  }

  lemma WrittenIs(before: seq<Placed>, after: seq<Placed>, here: seq<PartitionId>, producer: Markers.Producer, commit: bool)
    requires before <= after <= before + Marks(here, producer, commit)
    ensures forall m :: m in after[|before|..] ==> m.partition in here && m.producer == producer && m.commit == commit
    ensures after == before + Marks(here, producer, commit) ==> forall p :: p in here ==> Placed(p, producer, commit) in after
  {
    var marks := Marks(here, producer, commit);
    forall m | m in after[|before|..]
      ensures m.partition in here && m.producer == producer && m.commit == commit
    {
      var i :| 0 <= i < |after[|before|..]| && after[|before|..][i] == m;
      assert m == marks[i] == Placed(here[i], producer, commit);
    }
    if after == before + marks {
      forall p | p in here
        ensures Placed(p, producer, commit) in after
      {
        var i :| 0 <= i < |here| && here[i] == p;
        assert after[|before| + i] == marks[i];
      }
    }
  }

  /** A paid dispatch has taken every step that completing the transaction waits for. */
  lemma PaidIsComplete(log: seq<Placed>, inbox: Inboxes, view: Leaders, self: string, ps: seq<PartitionId>, producer: Markers.Producer, commit: bool)
    requires Paid(log, inbox, view, self, ps, producer, commit)
    ensures var txn := Markers.Txn(commit, set p | p in ps);
            && (forall p :: p in Markers.Local(view, self, txn) ==> Placed(p, producer, commit) in log)
            && (forall t :: t in Markers.Targets(view, self, txn) ==>
                  var slot := Markers.Inbox(t, producer);
                  && slot in inbox && inbox[slot].commit == commit
                  && (set p | p in Flatten(inbox[slot].topics)) == Markers.Queued(view, t, txn))
  {
    hide Flatten, LedBy, Packs;
    var txn := Markers.Txn(commit, set p | p in ps);
    TargetsAre(view, self, ps);
    forall t | t in Markers.Targets(view, self, txn)
      ensures var slot := Markers.Inbox(t, producer);
              && slot in inbox && inbox[slot].commit == commit
              && (set p | p in Flatten(inbox[slot].topics)) == Markers.Queued(view, t, txn)
    {
      assert Target(view, self, ps, t);
      PackedIsSame(inbox[Markers.Inbox(t, producer)].topics, LedBy(view, ps, Some(t)));
      LedByMembers(view, ps, Some(t));
    }
  }
}
