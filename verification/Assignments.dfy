/**
 The contents of `assignment.json`: which broker leads which partition
 and coordinates which group, at which epoch, as decided by which
 controller. Timestamps are left out; the only role a partition can have
 is leader, so it is not recorded.
 */
module Assignments {
  import opened Layout

  datatype BrokerHealth = Alive | Draining | Dead

  datatype BrokerRow = BrokerRow(id: string, health: BrokerHealth)

  datatype PartitionRow = PartitionRow(topic: string, partition: int, broker: string, epoch: nat)

  datatype GroupRow = GroupRow(groupId: string, broker: string, epoch: nat)

  datatype Assignment = Assignment(
    controllerEpoch: int,
    version: int,
    controller: string,
    brokers: seq<BrokerRow>,
    partitions: seq<PartitionRow>,
    groups: seq<GroupRow>)

  // ---- the lookup key "topic/partition" ----

  function Digits(n: nat): (s: string)
    ensures s != [] && forall i :: 0 <= i < |s| ==> '0' <= s[i] <= '9'
  {
    var last := ['0' + (n % 10) as char];
    if n < 10 then last else Digits(n / 10) + last
  }

  function Decimal(n: int): string {
    if n < 0 then "-" + Digits(-n) else Digits(n)
  }

  function PartitionKey(topic: string, partition: int): string {
    topic + "/" + Decimal(partition)
  }

  lemma {:induction false} DigitsInjective(m: nat, n: nat)
    requires Digits(m) == Digits(n)
    ensures m == n
  {
    var s := Digits(m);
    assert s[|s| - 1] == '0' + (m % 10) as char == '0' + (n % 10) as char;
    assert m % 10 == n % 10;
    if m >= 10 && n >= 10 {
      assert Digits(m / 10) == s[..|s| - 1] == Digits(n / 10);
      DigitsInjective(m / 10, n / 10);
    }
  }

  lemma DecimalInjective(m: int, n: int)
    requires Decimal(m) == Decimal(n)
    ensures m == n
  {
    assert m < 0 <==> Decimal(m)[0] == '-';
    assert n < 0 <==> Decimal(n)[0] == '-';
    if m < 0 {
      assert Digits(-m) == Decimal(m)[1..] == Digits(-n);
      DigitsInjective(-m, -n);
    } else {
      DigitsInjective(m, n);
    }
  }

  /** The slash that ends the topic is the last one in the key. */
  lemma LastSlash(t: string, p: int)
    ensures var k := PartitionKey(t, p);
            |t| < |k| && k[|t|] == '/' && forall j :: |t| < j < |k| ==> k[j] != '/'
  {
    var k := PartitionKey(t, p);
    assert forall j :: |t| < j < |k| ==> k[j] == Decimal(p)[j - |t| - 1];
  }

  /** The key names one partition, even for a topic whose own name contains a slash. */
  lemma PartitionKeyInjective(t: string, p: int, t': string, p': int)
    requires PartitionKey(t, p) == PartitionKey(t', p')
    ensures t == t' && p == p'
  {
    var k := PartitionKey(t, p);
    LastSlash(t, p);
    LastSlash(t', p');
    assert t == k[..|t|] == t';
    assert Decimal(p) == k[|t| + 1..] == Decimal(p');
    DecimalInjective(p, p');
  }

  /** The key of a row. */
  function KeyOf(p: PartitionRow): string {
    PartitionKey(p.topic, p.partition)
  }

  /** Each partition is listed at most once. */
  ghost predicate ListsEachOnce(ps: seq<PartitionRow>) {
    forall i, j :: 0 <= i < j < |ps| ==> KeyOf(ps[i]) != KeyOf(ps[j])
  }

  /** Rows by key; the last row of a key wins, as when inserting one by one. */
  function ByKey(ps: seq<PartitionRow>): (m: map<string, PartitionRow>)
    ensures forall k :: k in m ==> m[k] in ps && KeyOf(m[k]) == k
    ensures forall i :: 0 <= i < |ps| ==> KeyOf(ps[i]) in m
  {
    if ps == [] then map[]
    else
      var n := |ps| - 1;
      assert ps == ps[..n] + [ps[n]];
      ByKey(ps[..n])[KeyOf(ps[n]) := ps[n]]
  }

  lemma ByKeySteps(ps: seq<PartitionRow>)
    requires ps != []
    ensures ByKey(ps) == ByKey(ps[..|ps| - 1])[KeyOf(ps[|ps| - 1]) := ps[|ps| - 1]]
  {
  }

  /** The last row with a key is the one found under it. */
  lemma {:induction false} ByKeyLastWins(ps: seq<PartitionRow>, i: nat)
    requires i < |ps| && forall j :: i < j < |ps| ==> KeyOf(ps[j]) != KeyOf(ps[i])
    ensures ByKey(ps)[KeyOf(ps[i])] == ps[i]
  {
    ByKeySteps(ps);
    hide KeyOf, ByKey;
    var n := |ps| - 1;
    if i < n {
      ByKeyLastWins(ps[..n], i);
    }
  }

  /** Where each partition is listed once, the lookup finds exactly that row. */
  lemma ByKeyFindsRow(ps: seq<PartitionRow>, i: nat)
    requires ListsEachOnce(ps) && i < |ps|
    ensures ByKey(ps)[KeyOf(ps[i])] == ps[i]
  {
    hide ByKey, KeyOf;
    ByKeyLastWins(ps, i);
  }
}
