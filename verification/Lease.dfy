/**
 The controller election: a Lease object that candidates acquire, renew
 and release. Its `leaseTransitions` counter is the controller epoch.

 Each read-and-write of the Lease is taken as one atomic step, and the
 Lease is never deleted. `stale` stands for the clock: whether the last
 renewal is older than the lease window when the step reads it.
 */
module Lease {
  import opened Layout

  /** `holder` is empty after a release; `lastHolder` is the annotation a release leaves behind. */
  datatype LeaseObject = LeaseObject(holder: string, transitions: int, lastHolder: Option<string>)

  /**
   `leading` maps each process that believes it leads to the counter it
   last saw. `held` records every (counter, identity) pair that was ever
   the live state of the Lease.
   */
  datatype World = World(lease: Option<LeaseObject>, leading: map<string, int>, held: set<(int, string)>)

  datatype Step =
    | Acquire(id: string, stale: bool)
    | Renew(id: string)
    | Release(id: string)
    | Crash(id: string)

  function NextTransitions(prevHolder: Option<string>, identity: string, current: int): int {
    if prevHolder == Some(identity) then current else current + 1
  }

  /** Who held the Lease last: the live holder, else whoever signed the release. */
  function PrevHolder(lease: Option<LeaseObject>): Option<string> {
    match lease
    case None => None
    case Some(l) => if l.holder != "" then Some(l.holder) else l.lastHolder
  }

  function Counter(lease: Option<LeaseObject>): int {
    if lease.None? then 0 else lease.value.transitions
  }

  /** May `id` take the Lease now? */
  predicate Free(lease: Option<LeaseObject>, id: string, stale: bool) {
    lease.None? || lease.value.holder == id || stale || lease.value.holder == ""
  }

  function TryAcquire(w: World, id: string, stale: bool): World {
    if !Free(w.lease, id, stale) then w
    else
      var t := NextTransitions(PrevHolder(w.lease), id, Counter(w.lease));
      World(Some(LeaseObject(id, t, None)), w.leading[id := t], w.held + {(t, id)})
  }

  function TryRenew(w: World, id: string): World {
    if id !in w.leading then w
    else if w.lease.None? || w.lease.value.holder != id then w.(leading := w.leading - {id})
    else
      var t := w.lease.value.transitions;
      w.(lease := Some(LeaseObject(id, t, None)), leading := w.leading[id := t])
  }

  /** Blank the holder and sign, writing back the counter this process last saw. */
  function DoRelease(w: World, id: string): World
    requires id in w.leading
  {
    World(Some(LeaseObject("", w.leading[id], Some(id))), w.leading - {id}, w.held)
  }

  /** One step. A process releases only while the Lease still names it. */
  function Next(w: World, step: Step): World {
    match step
    case Acquire(id, stale) => TryAcquire(w, id, stale)
    case Renew(id) => TryRenew(w, id)
    case Release(id) =>
      if id in w.leading && w.lease.Some? && w.lease.value.holder == id then DoRelease(w, id) else w
    case Crash(id) => w.(leading := w.leading - {id})
  }

  function Run(w: World, steps: seq<Step>): World
    decreases |steps|
  {
    if steps == [] then w else Next(Run(w, steps[..|steps| - 1]), steps[|steps| - 1])
  }

  /** Any Lease to begin with: absent, held, released with or without a signature. */
  ghost predicate Initial(w: World) {
    && w.leading == map[]
    && (w.lease.Some? && w.lease.value.holder != "" ==> w.lease.value.lastHolder == None)
    && (w.lease.Some? && w.lease.value.lastHolder.Some? ==> w.lease.value.lastHolder.value != "")
    && w.held == (if PrevHolder(w.lease).Some? then {(Counter(w.lease), PrevHolder(w.lease).value)} else {})
  }

  ghost predicate NamesItself(step: Step) {
    step.id != ""
  }

  /** No counter value has been held by two identities. */
  ghost predicate OneHolderPerEpoch(w: World) {
    forall p, q :: p in w.held && q in w.held && p.0 == q.0 ==> p.1 == q.1
  }

  ghost predicate Inv(w: World) {
    && OneHolderPerEpoch(w)
    && (forall p :: p in w.held ==> p.0 <= Counter(w.lease) && p.1 != "")
    && (forall p :: p in w.held && p.0 == Counter(w.lease) ==> PrevHolder(w.lease) == Some(p.1))
    && (PrevHolder(w.lease).Some? ==> (Counter(w.lease), PrevHolder(w.lease).value) in w.held)
    && (w.lease.Some? && w.lease.value.holder != "" ==> w.lease.value.lastHolder == None)
    && "" !in w.leading
    && (forall id :: id in w.leading && w.lease.Some? && w.lease.value.holder == id ==> w.leading[id] == Counter(w.lease))
  }

  lemma NextKeepsInv(w: World, step: Step)
    requires Inv(w) && NamesItself(step)
    ensures Inv(Next(w, step))
    ensures w.held <= Next(w, step).held
    ensures Counter(w.lease) <= Counter(Next(w, step).lease) <= Counter(w.lease) + 1
  {
  }

  ghost predicate AllNamed(steps: seq<Step>) {
    forall i :: 0 <= i < |steps| ==> NamesItself(steps[i])
  }

  lemma {:induction false} RunKeepsInv(w: World, steps: seq<Step>)
    requires Inv(w) && AllNamed(steps)
    ensures Inv(Run(w, steps))
    decreases |steps|
  {
    hide Inv;
    if steps != [] {
      var n := |steps| - 1;
      RunKeepsInv(w, steps[..n]);
      NextKeepsInv(Run(w, steps[..n]), steps[n]);
    }
  }

  /** In every run no epoch is ever held by two identities. */
  lemma EpochHasOneHolder(w: World, steps: seq<Step>)
    requires Initial(w) && AllNamed(steps)
    ensures OneHolderPerEpoch(Run(w, steps))
  {
    RunKeepsInv(w, steps);
  }

  /**
   In every run, a step changes the counter only by electing someone,
   and raises it by one exactly when the last holder was someone else or
   is not known; re-electing the last holder leaves it alone.
   */
  lemma EpochCountsHandovers(w: World, steps: seq<Step>, step: Step)
    requires Initial(w) && AllNamed(steps) && NamesItself(step)
    ensures var before := Run(w, steps);
            var after := Next(before, step);
            && Counter(after.lease) ==
                 Counter(before.lease)
                 + (if step.Acquire? && Free(before.lease, step.id, step.stale) && PrevHolder(before.lease) != Some(step.id) then 1 else 0)
            && (step.Acquire? && Free(before.lease, step.id, step.stale) ==>
                  PrevHolder(after.lease) == Some(step.id) && step.id in after.leading && after.leading[step.id] == Counter(after.lease))
            && (!step.Acquire? && PrevHolder(before.lease).Some? ==> PrevHolder(after.lease) == PrevHolder(before.lease))
  {
    RunKeepsInv(w, steps);
  }

  lemma {:induction false} RunSplits(w: World, a: seq<Step>, b: seq<Step>)
    ensures Run(w, a + b) == Run(Run(w, a), b)
    decreases |b|
  {
    if b == [] {
      assert a + b == a;
    } else {
      var n := |b| - 1;
      RunSplits(w, a, b[..n]);
      assert (a + b)[..|a + b| - 1] == a + b[..n];
    }
  }

  /** The epochs handed out over a run never fall. */
  lemma {:induction false} CounterNeverFalls(w: World, a: seq<Step>, b: seq<Step>)
    requires Initial(w) && AllNamed(a + b)
    ensures Counter(Run(w, a).lease) <= Counter(Run(w, a + b).lease)
    decreases |b|
  {
    if b == [] {
      assert a + b == a;
    } else {
      var n := |b| - 1;
      var front := a + b[..n];
      assert (a + b)[..|a + b| - 1] == front;
      assert forall i :: 0 <= i < |front| ==> front[i] == (a + b)[i];
      assert (a + b)[|a + b| - 1] == b[n];
      CounterNeverFalls(w, a, b[..n]);
      RunKeepsInv(w, front);
      NextKeepsInv(Run(w, front), b[n]);
    }
  }

  // ---- who may take the Lease ----

  /** A Lease that names someone else and is not stale is left alone. */
  lemma LiveHolderStays(w: World, id: string)
    requires w.lease.Some? && w.lease.value.holder != "" && w.lease.value.holder != id
    ensures Next(w, Acquire(id, false)) == w
  {
  }

  /** An absent, released, stale or own Lease is taken, and whoever takes it knows its counter. */
  lemma OpenLeaseIsTaken(w: World, id: string, stale: bool)
    requires w.lease.None? || w.lease.value.holder == "" || w.lease.value.holder == id || stale
    ensures var v := Next(w, Acquire(id, stale));
            && v.lease.Some? && v.lease.value.holder == id
            && id in v.leading && v.leading[id] == v.lease.value.transitions && (v.lease.value.transitions, id) in v.held
            && forall other :: other != id ==> (other in v.leading <==> other in w.leading)
  {
  }

  /** A renewal changes neither holder nor counter, and tells a process whether it still leads. */
  lemma RenewalTells(w: World, id: string)
    requires Inv(w)
    ensures var v := Next(w, Renew(id));
            && (id in v.leading <==> id in w.leading && w.lease.Some? && w.lease.value.holder == id)
            && v.lease == w.lease
            && (id in v.leading ==> v.leading[id] == Counter(w.lease))
            && forall other :: other != id ==> (other in v.leading <==> other in w.leading)
  {
  }

  ghost predicate Names(w: World, id: string) {
    w.lease.Some? && w.lease.value.holder == id
  }

  /** A crash leaves the Lease as it was, and a holder that comes back leads again under the same counter. */
  lemma HolderComesBack(w: World, id: string)
    requires id != "" && Names(w, id)
    ensures var down := Next(w, Crash(id));
            var back := Next(down, Acquire(id, false));
            && id !in down.leading && down.lease == w.lease
            && Names(back, id) && Counter(back.lease) == Counter(w.lease)
            && id in back.leading && back.leading[id] == Counter(w.lease)
  {
  }

  /** What can end a tenure: a stale takeover by someone else, or the holder's own release. */
  ghost predicate Ends(step: Step, id: string) {
    (step.Acquire? && step.stale && step.id != id) || step == Release(id)
  }

  /** Over any run the Lease stops naming its live holder only by a stale takeover or after the holder's release. */
  lemma {:induction false} TenureEndsOnlyBy(w: World, steps: seq<Step>, id: string)
    requires id != "" && Names(w, id) && !Names(Run(w, steps), id)
    ensures exists i :: 0 <= i < |steps| && Ends(steps[i], id)
    decreases |steps|
  {
    var n := |steps| - 1;
    if Names(Run(w, steps[..n]), id) {
      assert Ends(steps[n], id);
    } else {
      TenureEndsOnlyBy(w, steps[..n], id);
      var i :| 0 <= i < n && Ends(steps[..n][i], id);
      assert Ends(steps[i], id);
    }
  }

  /**
   The condition on releases is needed. The source's release does not
   look at the holder: a process that lost the Lease without noticing
   rewinds the counter, and the next epoch is then held twice.
   */
  lemma LateReleaseRewindsTheCounter()
    ensures var start := World(None, map[], {});
            var lost := Next(Next(start, Acquire("a", false)), Acquire("b", true));
            && "a" in lost.leading && lost.lease.value.holder == "b"
            && !OneHolderPerEpoch(Next(DoRelease(lost, "a"), Acquire("c", false)))
  {
    var start := World(None, map[], {});
    var lost := Next(Next(start, Acquire("a", false)), Acquire("b", true));
    var after := Next(DoRelease(lost, "a"), Acquire("c", false));
    assert (2, "b") in after.held && (2, "c") in after.held;
  }

  // ---- when a release is safe ----

  /** Whoever believes to lead has held the counter they know, and whoever signed a release no longer does. */
  ghost predicate Remembered(w: World) {
    && (forall id :: id in w.leading ==> (w.leading[id], id) in w.held)
    && (w.held != {} ==> PrevHolder(w.lease).Some?)
    && (w.lease.Some? && w.lease.value.holder == "" && w.lease.value.lastHolder.Some? ==> w.lease.value.lastHolder.value !in w.leading)
  }

  lemma {:induction false} RunRemembers(w: World, steps: seq<Step>)
    requires Initial(w) && AllNamed(steps)
    ensures Inv(Run(w, steps)) && Remembered(Run(w, steps))
    decreases |steps|
  {
    RunKeepsInv(w, steps);
    if steps != [] {
      var n := |steps| - 1;
      RunRemembers(w, steps[..n]);
      NextRemembers(Run(w, steps[..n]), steps[n]);
    }
  }

  lemma NextRemembers(w: World, step: Step)
    requires Inv(w) && Remembered(w) && NamesItself(step)
    ensures Remembered(Next(w, step))
  {
  }

  /** No continuation by processes that name themselves ever gives a counter value to two identities. */
  ghost predicate SafeFromHere(w: World) {
    forall steps: seq<Step> :: AllNamed(steps) ==> OneHolderPerEpoch(Run(w, steps))
  }

  /** Some identity other than two given ones. */
  function SomeoneElse(a: string, b: string): (c: string)
    ensures c != "" && c != a && c != b
  {
    if "x" != a && "x" != b then "x" else if "y" != a && "y" != b then "y" else "z"
  }

  /** Elections by anyone but the known holders take the counter to any higher value, under another name. */
  lemma {:induction false} CounterClimbs(w: World, target: int, taken: string) returns (steps: seq<Step>)
    requires w.lease.Some? && PrevHolder(w.lease).Some? && Counter(w.lease) < target
    ensures AllNamed(steps) && w.held <= Run(w, steps).held
    ensures exists id :: id != taken && (target, id) in Run(w, steps).held
    decreases target - Counter(w.lease)
  {
    var step := Acquire(SomeoneElse(PrevHolder(w.lease).value, taken), true);
    var v := Next(w, step);
    assert Counter(v.lease) == Counter(w.lease) + 1 && (Counter(v.lease), step.id) in v.held;
    if Counter(v.lease) == target {
      steps := [step];
      assert Run(w, []) == w && [step][..0] == [];
      assert Run(w, steps) == v;
    } else {
      var rest := CounterClimbs(v, target, taken);
      steps := [step] + rest;
      RunSplits(w, [step], rest);
      assert Run(w, []) == w && [step][..0] == [];
      assert Run(w, [step]) == v;
    }
  }

  /**
   In every run: a process may release, and no epoch will ever be held
   twice whatever happens afterwards, exactly if the Lease still names it.
   */
  lemma ReleaseSafeIffHolder(start: World, before: seq<Step>, id: string)
    requires Initial(start) && AllNamed(before) && id in Run(start, before).leading
    ensures var w := Run(start, before);
            SafeFromHere(DoRelease(w, id)) <==> w.lease.Some? && w.lease.value.holder == id
  {
    var w := Run(start, before);
    RunRemembers(start, before);
    var r := DoRelease(w, id);
    if w.lease.Some? && w.lease.value.holder == id {
      assert Inv(r);
      forall steps: seq<Step> | AllNamed(steps)
        ensures OneHolderPerEpoch(Run(r, steps))
      {
        RunKeepsInv(r, steps);
      }
    } else {
      assert (w.leading[id], id) in w.held;
      var top := (Counter(w.lease), PrevHolder(w.lease).value);
      assert top in r.held && Counter(r.lease) < top.0;
      var steps := CounterClimbs(r, top.0, top.1);
      assert !OneHolderPerEpoch(Run(r, steps));
    }
  }
}
