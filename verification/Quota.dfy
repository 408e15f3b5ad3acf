/**
 The byte-rate quota of a principal: one bucket with a balance per
 direction, refilled up to a second's worth, charged without a limit, and
 carrying a negative balance forward as debt. Times are in seconds;
 arithmetic is over the reals. Both directions share one refill time.
 */
module Quota {
  import opened Layout

  datatype Side = Produce | Fetch

  datatype Quotas = Quotas(producer: Option<int>, consumer: Option<int>)

  datatype Bucket = Bucket(produceTokens: real, fetchTokens: real, lastRefill: real, produceRate: real, fetchRate: real)

  const I32_MAX := 0x7FFF_FFFF

  function Rate(quotas: Option<Quotas>, side: Side): real {
    match quotas
    case None => 0.0
    case Some(q) =>
      match (if side.Produce? then q.producer else q.consumer)
      case None => 0.0
      case Some(n) => n as real
  }

  function RateOf(b: Bucket, side: Side): real {
    if side.Produce? then b.produceRate else b.fetchRate
  }

  function Tokens(b: Bucket, side: Side): real {
    if side.Produce? then b.produceTokens else b.fetchTokens
  }

  function WithTokens(b: Bucket, side: Side, tokens: real): Bucket {
    if side.Produce? then b.(produceTokens := tokens) else b.(fetchTokens := tokens)
  }

  function WithRates(b: Bucket, quotas: Option<Quotas>): Bucket {
    b.(produceRate := Rate(quotas, Produce), fetchRate := Rate(quotas, Fetch))
  }

  function NewBucket(now: real, quotas: Option<Quotas>): Bucket {
    Bucket(Rate(quotas, Produce), Rate(quotas, Fetch), now, Rate(quotas, Produce), Rate(quotas, Fetch))
  }

  function Min(a: real, b: real): real {
    if a > b then b else a
  }

  function Elapsed(b: Bucket, now: real): real {
    if now > b.lastRefill then now - b.lastRefill else 0.0
  }

  /** What flows in over a time. */
  function Inflow(rate: real, elapsed: real): real {
    rate * elapsed
  }

  /** The balance a check starts from. */
  function Refilled(b: Bucket, now: real, side: Side): real {
    Min(Tokens(b, side) + Inflow(RateOf(b, side), Elapsed(b, now)), RateOf(b, side))
  }

  /** A rate of 0 is no quota at all: nothing but the refill time changes. */
  function Charged(b: Bucket, now: real, bytes: nat, side: Side): Bucket {
    var c := b.(lastRefill := now);
    if RateOf(b, side) == 0.0 then c else WithTokens(c, side, Refilled(b, now, side) - bytes as real)
  }

  function Ceiling(x: real): int {
    -((-x).Floor)
  }

  /** Milliseconds until the balance is back at 0. */
  function Throttle(tokens: real, rate: real): int {
    if rate == 0.0 || tokens >= 0.0 then 0
    else
      var ms := Ceiling(-tokens / rate * 1000.0);
      if ms <= 0 then 0 else if ms >= I32_MAX then I32_MAX else ms
  }

  lemma ThrottleFree(tokens: real)
    ensures Throttle(tokens, 0.0) == 0
  {
  }

  class Enforcer {
    const store: map<string, Quotas>
    var overrides: map<string, Quotas>
    var buckets: map<string, Bucket>

    /** Override, then store. */
    function Describe(user: string): Option<Quotas>
      reads this
    {
      if user in overrides then Some(overrides[user]) else if user in store then Some(store[user]) else None
    }

    /** Every bucket runs at the rates an administrator is told. */
    ghost predicate Valid()
      reads this
    {
      forall user :: user in buckets ==>
        RateOf(buckets[user], Produce) == Rate(Describe(user), Produce) && RateOf(buckets[user], Fetch) == Rate(Describe(user), Fetch)
    }

    constructor (store: map<string, Quotas>)
      ensures Valid() && this.store == store && buckets == map[] && overrides == map[]
    {
      this.store := store;
      overrides, buckets := map[], map[];
    }

    method Check(user: string, now: real, bytes: nat, side: Side) returns (throttle: int)
      requires Valid()
      modifies this
      ensures Valid() && overrides == old(overrides)
      ensures var b := old(if user in buckets then buckets[user] else NewBucket(now, Describe(user)));
              && buckets == old(buckets)[user := Charged(b, now, bytes, side)]
              && throttle == Throttle(Tokens(buckets[user], side), RateOf(b, side))
    {
      hide Throttle, Rate, Inflow, Elapsed;
      var b := if user in buckets then buckets[user] else NewBucket(now, Describe(user));
      var elapsed := Elapsed(b, now);
      var rate := RateOf(b, side);
      var c := b.(lastRefill := now);
      if rate == 0.0 {
        buckets := buckets[user := c];
        ThrottleFree(Tokens(c, side));
        return 0;
      }
      var tokens := Tokens(c, side) + Inflow(rate, elapsed);
      if tokens > rate {
        tokens := rate;
      }
      tokens := tokens - bytes as real;
      buckets := buckets[user := WithTokens(c, side, tokens)];
      throttle := Throttle(tokens, rate);
    }

    /** Takes effect on a live bucket at once, and leaves its balances alone. */
    method SetUserQuota(user: string, quotas: Option<Quotas>)
      requires Valid()
      modifies this
      ensures Valid()
      ensures Describe(user) == (match quotas case Some(q) => Some(q) case None => if user in store then Some(store[user]) else None)
      ensures forall other :: other != user ==> Describe(other) == old(Describe(other))
      ensures buckets.Keys == old(buckets.Keys)
      ensures forall u :: u in buckets ==>
                buckets[u] == if u == user then WithRates(old(buckets)[u], Describe(u)) else old(buckets)[u]
    {
      match quotas {
        case None => overrides := overrides - {user};
        case Some(q) => overrides := overrides[user := q];
      }
      if user in buckets {
        buckets := buckets[user := WithRates(buckets[user], Describe(user))];
      }
    }
  }

  /**
   The first check of a principal: in each direction its own quota's worth
   passes freely, one byte more is throttled, and without a quota anything
   passes.
   */
  lemma FirstCheck(now: real, quotas: Quotas, bytes: nat)
    ensures var produced := Charged(NewBucket(now, Some(quotas)), now, bytes, Produce);
            match quotas.producer
            case None => Throttle(Tokens(produced, Produce), RateOf(produced, Produce)) == 0
            case Some(n) => n > 0 ==> (Throttle(Tokens(produced, Produce), RateOf(produced, Produce)) > 0 <==> bytes > n)
    ensures var fetched := Charged(NewBucket(now, Some(quotas)), now, bytes, Fetch);
            match quotas.consumer
            case None => Throttle(Tokens(fetched, Fetch), RateOf(fetched, Fetch)) == 0
            case Some(n) => n > 0 ==> (Throttle(Tokens(fetched, Fetch), RateOf(fetched, Fetch)) > 0 <==> bytes > n)
  {
    FirstCheckOf(now, quotas, bytes, Produce);
    FirstCheckOf(now, quotas, bytes, Fetch);
  }

  lemma FirstCheckOf(now: real, quotas: Quotas, bytes: nat, side: Side)
    ensures var b := Charged(NewBucket(now, Some(quotas)), now, bytes, side);
            match (if side.Produce? then quotas.producer else quotas.consumer)
            case None => Throttle(Tokens(b, side), RateOf(b, side)) == 0
            case Some(n) => n > 0 ==> (Throttle(Tokens(b, side), RateOf(b, side)) > 0 <==> bytes > n)
  {
    var first := NewBucket(now, Some(quotas));
    var b := Charged(first, now, bytes, side);
    match (if side.Produce? then quotas.producer else quotas.consumer)
    case None =>
    case Some(n) =>
      if n > 0 {
        assert Inflow(n as real, 0.0) == 0.0;
        hide Inflow;
        assert Tokens(b, side) == n as real - bytes as real;
        ThrottledIffInDebt(Tokens(b, side), n as real);
      }
  }

  // ---- any interleaving of checks on one bucket ----

  datatype Call = Call(now: real, bytes: nat, side: Side)

  function After(b: Bucket, calls: seq<Call>): Bucket {
    if calls == [] then b
    else
      var last := calls[|calls| - 1];
      Charged(After(b, calls[..|calls| - 1]), last.now, last.bytes, last.side)
  }

  function Bytes(calls: seq<Call>, side: Side): nat {
    if calls == [] then 0
    else
      var last := calls[|calls| - 1];
      Bytes(calls[..|calls| - 1], side) + if last.side == side then last.bytes else 0
  }

  /** The clock does not run backwards. */
  ghost predicate InOrder(start: real, calls: seq<Call>) {
    && (forall i :: 0 <= i < |calls| ==> start <= calls[i].now)
    && (forall i, j :: 0 <= i < j < |calls| ==> calls[i].now <= calls[j].now)
  }

  lemma {:induction false} LastCall(b: Bucket, calls: seq<Call>)
    ensures After(b, calls).lastRefill == if calls == [] then b.lastRefill else calls[|calls| - 1].now
    ensures RateOf(After(b, calls), Produce) == RateOf(b, Produce) && RateOf(After(b, calls), Fetch) == RateOf(b, Fetch)
  {
    if calls != [] {
      LastCall(b, calls[..|calls| - 1]);
    }
  }

  /** A second's burst, and the rate over time. */
  function Allowance(rate: real, since: real): real {
    rate * (1.0 + since)
  }

  lemma AllowanceGrows(rate: real, since: real, elapsed: real)
    requires rate > 0.0 && elapsed >= 0.0
    ensures Allowance(rate, since + elapsed) == Allowance(rate, since) + Inflow(rate, elapsed) && Inflow(rate, elapsed) >= 0.0
    ensures Allowance(rate, 0.0) == rate
  {
    assert rate * (1.0 + (since + elapsed)) == rate * (1.0 + since) + rate * elapsed;
  }

  lemma ChargeStep(b: Bucket, call: Call, side: Side, charged: real, since: real)
    requires RateOf(b, side) > 0.0 && b.lastRefill <= call.now
    requires charged + Tokens(b, side) <= Allowance(RateOf(b, side), since)
    ensures var c := Charged(b, call.now, call.bytes, call.side);
            charged + (if call.side == side then call.bytes as real else 0.0) + Tokens(c, side)
              <= Allowance(RateOf(b, side), since + (call.now - b.lastRefill))
  {
    AllowanceGrows(RateOf(b, side), since, call.now - b.lastRefill);
    hide Allowance, Inflow;
  }

  /** Bytes charged in one direction, whatever happens in the other, are at most a second's burst, the rate over time, and the debt. */
  lemma {:induction false} ChargesAreBounded(b: Bucket, calls: seq<Call>, side: Side)
    requires RateOf(b, side) > 0.0 && Tokens(b, side) <= RateOf(b, side) && InOrder(b.lastRefill, calls)
    ensures Bytes(calls, side) as real + Tokens(After(b, calls), side)
              <= Allowance(RateOf(b, side), After(b, calls).lastRefill - b.lastRefill)
  {
    AllowanceGrows(RateOf(b, side), 0.0, 0.0);
    hide Charged, Allowance;
    if calls != [] {
      var before, last := calls[..|calls| - 1], calls[|calls| - 1];
      assert InOrder(b.lastRefill, before);
      ChargesAreBounded(b, before, side);
      LastCall(b, before);
      LastCall(b, calls);
      ChargeStep(After(b, before), last, side, Bytes(before, side) as real, After(b, before).lastRefill - b.lastRefill);
    }
  }

  // ---- splitting a charge ----

  function Sum(parts: seq<nat>): nat {
    if parts == [] then 0 else Sum(parts[..|parts| - 1]) + parts[|parts| - 1]
  }

  function AtOnce(parts: seq<nat>, now: real, side: Side): seq<Call> {
    seq(|parts|, i requires 0 <= i < |parts| => Call(now, parts[i], side))
  }

  lemma TwoAreOne(b: Bucket, now: real, x: nat, y: nat, side: Side)
    requires RateOf(b, side) > 0.0
    ensures Charged(Charged(b, now, x, side), now, y, side) == Charged(b, now, x + y, side)
  {
    var r := RateOf(b, side);
    assert r * 0.0 == 0.0;
  }

  /** However many clients share a charge at one instant, the balance, and so the throttle the last one sees, is that of the whole. */
  lemma {:induction false} SplitChargesAddUp(b: Bucket, parts: seq<nat>, now: real, side: Side)
    requires RateOf(b, side) > 0.0 && parts != []
    ensures After(b, AtOnce(parts, now, side)) == Charged(b, now, Sum(parts), side)
  {
    hide Charged;
    var n := |parts| - 1;
    var calls := AtOnce(parts, now, side);
    assert calls[..n] == AtOnce(parts[..n], now, side);
    if n == 0 {
      assert Sum(parts[..0]) == 0;
    } else {
      SplitChargesAddUp(b, parts[..n], now, side);
      TwoAreOne(b, now, Sum(parts[..n]), parts[n], side);
    }
  }

  // ---- waiting out a throttle ----

  lemma CeilingIs(x: real, n: int)
    ensures n >= Ceiling(x) <==> n as real >= x
  {
  }

  lemma Scaled(t: real, r: real, w: real)
    requires r > 0.0
    ensures w >= -t / r * 1000.0 <==> t + r * (w / 1000.0) >= 0.0
  {
    var q := -t / r;
    assert q * r == -t;
    if w / 1000.0 >= q {
      assert r * (w / 1000.0) >= r * q;
    } else {
      assert r * (w / 1000.0) < r * q;
    }
  }

  /** An unsaturated throttle is exactly the whole milliseconds, without another call, after which the debt is gone. */
  lemma ThrottleIsExact(b: Bucket, side: Side, wait: nat)
    requires RateOf(b, side) > 0.0 && 0 < Throttle(Tokens(b, side), RateOf(b, side)) < 0x7FFF_FFFF
    ensures Refilled(b, b.lastRefill + wait as real / 1000.0, side) >= 0.0 <==> wait >= Throttle(Tokens(b, side), RateOf(b, side))
  {
    var t, r := Tokens(b, side), RateOf(b, side);
    CeilingIs(-t / r * 1000.0, wait);
    Scaled(t, r, wait as real);
    assert wait == 0 ==> r * 0.0 == 0.0;
  }

  /** There is a throttle exactly if there is debt. */
  lemma ThrottledIffInDebt(tokens: real, rate: real)
    requires rate > 0.0
    ensures Throttle(tokens, rate) > 0 <==> tokens < 0.0
  {
    if tokens < 0.0 {
      CeilingIs(-tokens / rate * 1000.0, 0);
      Scaled(tokens, rate, 0.0);
      assert rate * 0.0 == 0.0;
    }
  }

  function Other(side: Side): Side {
    if side.Produce? then Fetch else Produce
  }

  lemma InflowSplits(rate: real, a: real, b: real)
    requires rate > 0.0 && a >= 0.0
    ensures Inflow(rate, a + b) == Inflow(rate, a) + Inflow(rate, b) && Inflow(rate, a) >= 0.0
    ensures Inflow(rate, a) == 0.0 <==> a == 0.0
  {
    assert rate * (a + b) == rate * a + rate * b;
  }

  /**
   Both directions share one refill time. A check in one direction leaves
   the other's refill whole exactly if no time had passed since the last
   check, or if what still flows in after it fills the bucket anyway.
   */
  lemma RefillKeptIff(b: Bucket, t1: real, t2: real, bytes: nat, side: Side)
    requires RateOf(b, side) > 0.0 && b.lastRefill <= t1 <= t2
    ensures Refilled(Charged(b, t1, bytes, Other(side)), t2, side) == Refilled(b, t2, side) <==>
              t1 == b.lastRefill || Tokens(b, side) + Inflow(RateOf(b, side), t2 - t1) >= RateOf(b, side)
  {
    InflowSplits(RateOf(b, side), t1 - b.lastRefill, t2 - t1);
    hide Inflow;
    var c := Charged(b, t1, bytes, Other(side));
    assert Elapsed(c, t2) == t2 - t1 && Elapsed(b, t2) == (t1 - b.lastRefill) + (t2 - t1);
  }

  /** The shared refill time: a fetch just before a produce takes away the produce's refill. */
  lemma FetchTakesTheRefill()
    ensures var b := Bucket(0.0, 0.0, 0.0, 10.0, 10.0);
            && Tokens(After(b, [Call(1.0, 10, Produce)]), Produce) == 0.0
            && Tokens(After(b, [Call(1.0, 0, Fetch), Call(1.0, 10, Produce)]), Produce) == -10.0
  {
    var b := Bucket(0.0, 0.0, 0.0, 10.0, 10.0);
    var c1, c2 := Call(1.0, 0, Fetch), Call(1.0, 10, Produce);
    assert [c2][..0] == [] && [c1, c2][..1] == [c1] && [c1][..0] == [];
    assert After(b, [c1]) == Charged(b, 1.0, 0, Fetch);
    assert After(b, [c1, c2]) == Charged(Charged(b, 1.0, 0, Fetch), 1.0, 10, Produce);
  }
}
