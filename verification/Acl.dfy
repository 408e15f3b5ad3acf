/**
 Access rules kept inline on each user's record: listing them as flat
 bindings, deleting by filter, and adding one. Deletion splits an entry's
 operations, listing expands them; the two must agree on what a filter
 matches.
 */
module Acl {
  import opened Layout
  import Slices

  datatype Binding = Binding(principal: string, resourceType: string, resourceName: string, patternType: string,
                             operation: string, permission: string, host: string)

  /** An empty string matches anything along that axis. */
  datatype Filter = Filter(principal: string, resourceType: string, resourceName: string, patternType: string,
                           operation: string, permission: string, host: string)

  datatype Entry = Entry(resourceType: string, resourceName: string, patternType: string, operations: seq<string>, kind: string, host: string)

  datatype User = User(name: string, deleting: bool, acls: Option<seq<Entry>>)

  datatype Error = UnknownPrincipal | InvalidPrincipal

  function Lower(s: string): string {
    seq(|s|, i requires 0 <= i < |s| => if 'A' <= s[i] <= 'Z' then (s[i] as int + 32) as char else s[i])
  }

  function Permission(kind: string): string {
    if Lower(kind) == "deny" then "Deny" else "Allow"
  }

  function Or(s: string, default: string): string {
    if s == "" then default else s
  }

  predicate MatchString(filter: string, value: string) {
    filter == "" || filter == value
  }

  /** "match", like no pattern at all, means literal or prefix. */
  predicate MatchPattern(filter: string, value: string) {
    if filter == "" || filter == "match" then value == "literal" || value == "prefix" else filter == value
  }

  predicate Matches(f: Filter, b: Binding) {
    && MatchString(f.principal, b.principal)
    && MatchString(f.resourceType, b.resourceType)
    && MatchString(f.resourceName, b.resourceName)
    && MatchPattern(f.patternType, b.patternType)
    && MatchString(f.operation, b.operation)
    && MatchString(f.permission, b.permission)
    && MatchString(f.host, b.host)
  }

  function BindingOf(principal: string, e: Entry, op: string): Binding {
    Binding(principal, e.resourceType, e.resourceName, Or(e.patternType, "literal"), op, Permission(e.kind), e.host)
  }

  function Principal(u: User): string {
    "User:" + u.name
  }

  // ---- everything as one list of bindings ----

  function EntryBindings(principal: string, e: Entry, ops: seq<string>): seq<Binding> {
    if ops == [] then [] else EntryBindings(principal, e, ops[..|ops| - 1]) + [BindingOf(principal, e, ops[|ops| - 1])]
  }

  function AclBindings(principal: string, acls: seq<Entry>): seq<Binding> {
    if acls == [] then []
    else
      var e := acls[|acls| - 1];
      AclBindings(principal, acls[..|acls| - 1]) + EntryBindings(principal, e, e.operations)
  }

  function UserBindings(u: User): seq<Binding> {
    if u.deleting || u.acls.None? then [] else AclBindings(Principal(u), u.acls.value)
  }

  function AllBindings(users: seq<User>): seq<Binding> {
    if users == [] then [] else AllBindings(users[..|users| - 1]) + UserBindings(users[|users| - 1])
  }

  /** The bindings a filter matches, or those it does not, in order. */
  function Select(f: Filter, matching: bool, bs: seq<Binding>): seq<Binding> {
    if bs == [] then []
    else
      var rest := Select(f, matching, bs[..|bs| - 1]);
      if Matches(f, bs[|bs| - 1]) == matching then rest + [bs[|bs| - 1]] else rest
  }

  lemma {:induction false} SelectJoin(f: Filter, matching: bool, a: seq<Binding>, b: seq<Binding>)
    ensures Select(f, matching, a + b) == Select(f, matching, a) + Select(f, matching, b)
    decreases |b|
  {
    if b == [] {
      assert a + b == a;
    } else {
      var n := |b| - 1;
      SelectJoin(f, matching, a, b[..n]);
      assert (a + b)[..|a| + n] == a + b[..n];
    }
  }

  lemma {:induction false} SelectsCommute(f: Filter, g: Filter, bs: seq<Binding>)
    ensures Select(g, true, Select(f, false, bs)) == Select(f, false, Select(g, true, bs))
  {
    if bs != [] {
      var rest, last := bs[..|bs| - 1], bs[|bs| - 1];
      SelectsCommute(f, g, rest);
      SelectJoin(g, true, Select(f, false, rest), [last]);
      SelectJoin(f, false, Select(g, true, rest), [last]);
    }
  }

  // ---- deleting, as values ----

  /** Everything a filter asks of an entry, apart from the operation. */
  predicate EntryMatches(f: Filter, principal: string, e: Entry) {
    && MatchString(f.principal, principal) && MatchString(f.resourceType, e.resourceType) && MatchString(f.resourceName, e.resourceName)
    && MatchPattern(f.patternType, Or(e.patternType, "literal"))
    && MatchString(f.permission, Permission(e.kind)) && MatchString(f.host, e.host)
  }

  /** The operations a filter matches in an entry, or those it leaves, in order. */
  function SplitOps(f: Filter, principal: string, e: Entry, ops: seq<string>, matching: bool): seq<string> {
    if ops == [] then []
    else
      var rest, op := SplitOps(f, principal, e, ops[..|ops| - 1], matching), ops[|ops| - 1];
      if (EntryMatches(f, principal, e) && MatchString(f.operation, op)) == matching then rest + [op] else rest
  }

  /** Splitting an entry's operations is filtering its bindings. */
  lemma {:induction false} SplitAgrees(f: Filter, principal: string, e: Entry, ops: seq<string>, matching: bool)
    ensures EntryBindings(principal, e, SplitOps(f, principal, e, ops, matching)) == Select(f, matching, EntryBindings(principal, e, ops))
  {
    if ops != [] {
      var n := |ops| - 1;
      SplitAgrees(f, principal, e, ops[..n], matching);
      SelectJoin(f, matching, EntryBindings(principal, e, ops[..n]), [BindingOf(principal, e, ops[n])]);
      var rest := SplitOps(f, principal, e, ops[..n], matching);
      assert (rest + [ops[n]])[..|rest|] == rest;
    }
  }

  /** What is left of an entry: nothing, if every operation it had was matched. */
  function Kept(f: Filter, principal: string, e: Entry): seq<Entry> {
    var kept := SplitOps(f, principal, e, e.operations, false);
    if SplitOps(f, principal, e, e.operations, true) == [] then [e]
    else if kept == [] then []
    else [e.(operations := kept)]
  }

  function KeptAcls(f: Filter, principal: string, acls: seq<Entry>): seq<Entry> {
    if acls == [] then [] else KeptAcls(f, principal, acls[..|acls| - 1]) + Kept(f, principal, acls[|acls| - 1])
  }

  function KeptUser(f: Filter, u: User): User {
    if u.deleting || u.acls.None? then u else u.(acls := Some(KeptAcls(f, Principal(u), u.acls.value)))
  }

  function KeptUsers(f: Filter, users: seq<User>): seq<User> {
    seq(|users|, i requires 0 <= i < |users| => KeptUser(f, users[i]))
  }

  lemma {:induction false} AclBindingsJoin(principal: string, a: seq<Entry>, b: seq<Entry>)
    ensures AclBindings(principal, a + b) == AclBindings(principal, a) + AclBindings(principal, b)
    decreases |b|
  {
    NoBindings(principal);
    hide AclBindings, EntryBindings;
    if b == [] {
      assert a + b == a;
    } else {
      var rest, e := b[..|b| - 1], b[|b| - 1];
      AclBindingsJoin(principal, a, rest);
      AclBindingsSnoc(principal, a + rest, e);
      AclBindingsSnoc(principal, rest, e);
      assert a + b == a + rest + [e] && b == rest + [e];
    }
  }

  lemma AclBindingsSnoc(principal: string, acls: seq<Entry>, e: Entry)
    ensures AclBindings(principal, acls + [e]) == AclBindings(principal, acls) + EntryBindings(principal, e, e.operations)
  {
    assert (acls + [e])[..|acls|] == acls;
  }

  /** If nothing in an entry matches, everything is kept. */
  lemma {:induction false} NoneMatched(f: Filter, principal: string, e: Entry, ops: seq<string>)
    requires SplitOps(f, principal, e, ops, true) == []
    ensures SplitOps(f, principal, e, ops, false) == ops
  {
    if ops != [] {
      NoneMatched(f, principal, e, ops[..|ops| - 1]);
    }
  }

  lemma KeptEntry(f: Filter, principal: string, e: Entry)
    ensures AclBindings(principal, Kept(f, principal, e)) == Select(f, false, EntryBindings(principal, e, e.operations))
  {
    SplitAgrees(f, principal, e, e.operations, false);
    var kept := SplitOps(f, principal, e, e.operations, false);
    if SplitOps(f, principal, e, e.operations, true) == [] {
      NoneMatched(f, principal, e, e.operations);
    } else if kept != [] {
      SameBindings(principal, e, kept, kept);
    }
  }

  lemma {:induction false} SameBindings(principal: string, e: Entry, kept: seq<string>, ops: seq<string>)
    ensures EntryBindings(principal, e.(operations := kept), ops) == EntryBindings(principal, e, ops)
  {
    if ops != [] {
      SameBindings(principal, e, kept, ops[..|ops| - 1]);
    }
  }

  lemma {:induction false} KeptAclsBindings(f: Filter, principal: string, acls: seq<Entry>)
    ensures AclBindings(principal, KeptAcls(f, principal, acls)) == Select(f, false, AclBindings(principal, acls))
  {
    hide Kept;
    if acls != [] {
      var rest, e := acls[..|acls| - 1], acls[|acls| - 1];
      KeptAclsBindings(f, principal, rest);
      KeptEntry(f, principal, e);
      AclBindingsJoin(principal, KeptAcls(f, principal, rest), Kept(f, principal, e));
      SelectJoin(f, false, AclBindings(principal, rest), EntryBindings(principal, e, e.operations));
    }
  }

  /** After a deletion the bindings are those before it that the filter does not match, in order. */
  lemma {:induction false} DeletionRemoves(f: Filter, users: seq<User>)
    ensures AllBindings(KeptUsers(f, users)) == Select(f, false, AllBindings(users))
  {
    hide KeptAcls, AclBindings;
    if users != [] {
      var rest, u := users[..|users| - 1], users[|users| - 1];
      DeletionRemoves(f, rest);
      assert KeptUsers(f, users)[..|users| - 1] == KeptUsers(f, rest);
      if !u.deleting && u.acls.Some? {
        KeptAclsBindings(f, Principal(u), u.acls.value);
      }
      SelectJoin(f, false, AllBindings(rest), UserBindings(u));
    }
  }

  function ListOf(users: seq<User>, f: Filter): seq<Binding> {
    Select(f, true, AllBindings(users))
  }

  /** What every other filter lists after a deletion is what it listed before, less what was deleted. */
  lemma DeletionSeenByAll(f: Filter, g: Filter, users: seq<User>)
    ensures ListOf(KeptUsers(f, users), g) == Select(f, false, ListOf(users, g))
  {
    DeletionRemoves(f, users);
    SelectsCommute(f, g, AllBindings(users));
  }

  // ---- adding one, as values ----

  /** How a rule is written down: defaults filled in, the permission in lower case. */
  function WrittenKind(b: Binding): string {
    if b.permission == "" then "allow" else Lower(b.permission)
  }

  function Written(b: Binding): Entry {
    Entry(b.resourceType, b.resourceName, Or(b.patternType, "literal"), [b.operation], WrittenKind(b), b.host)
  }

  /** The same rule but for the operations. */
  predicate SameShape(e: Entry, b: Binding) {
    && e.resourceType == b.resourceType && e.resourceName == b.resourceName
    && Or(e.patternType, "literal") == Or(b.patternType, "literal")
    && (if e.kind == "" then "allow" else Lower(e.kind)) == WrittenKind(b)
    && e.host == b.host
  }

  /** The operation goes into the first entry of its shape, or into a new one at the end. */
  function Added(acls: seq<Entry>, b: Binding): seq<Entry> {
    if acls == [] then [Written(b)]
    else if !SameShape(acls[0], b) then [acls[0]] + Added(acls[1..], b)
    else if b.operation in acls[0].operations then acls
    else [acls[0].(operations := acls[0].operations + [b.operation])] + acls[1..]
  }

  lemma {:induction false} LowerTwice(s: string)
    ensures Lower(Lower(s)) == Lower(s)
  {
  }

  lemma ShapeFixesBinding(principal: string, e: Entry, b: Binding)
    requires SameShape(e, b)
    ensures BindingOf(principal, e, b.operation) == BindingOf(principal, Written(b), b.operation)
  {
    LowerTwice(b.permission);
    LowerTwice(e.kind);
    if e.kind == "" {
      assert |Lower(e.kind)| == 0;
    }
    assert Lower("allow") == "allow";
  }

  /** The first entry of the rule's shape has its operation already. */
  predicate Has(acls: seq<Entry>, b: Binding) {
    acls != [] && if SameShape(acls[0], b) then b.operation in acls[0].operations else Has(acls[1..], b)
  }

  /** One binding more somewhere, and no other change. */
  ghost predicate OneMore(before: seq<Binding>, after: seq<Binding>, x: Binding) {
    exists k :: InsertedAt(before, after, x, k)
  }

  ghost predicate InsertedAt(before: seq<Binding>, after: seq<Binding>, x: Binding, k: nat) {
    k <= |before| && after == before[..k] + [x] + before[k..]
  }

  lemma OneMoreInside(a: seq<Binding>, before: seq<Binding>, after: seq<Binding>, c: seq<Binding>, x: Binding)
    requires OneMore(before, after, x)
    ensures OneMore(a + before + c, a + after + c, x)
  {
    var k: nat :| InsertedAt(before, after, x, k);
    var whole := a + before + c;
    assert whole[..|a| + k] == a + before[..k];
    assert whole[|a| + k..] == before[k..] + c;
    assert InsertedAt(whole, a + after + c, x, |a| + k);
  }

  lemma {:induction false} EntryHas(principal: string, e: Entry, ops: seq<string>, op: string)
    requires op in ops
    ensures BindingOf(principal, e, op) in EntryBindings(principal, e, ops)
  {
    if op != ops[|ops| - 1] {
      EntryHas(principal, e, ops[..|ops| - 1], op);
    }
  }

  lemma OneEntry(principal: string, e: Entry)
    ensures AclBindings(principal, [e]) == EntryBindings(principal, e, e.operations)
  {
    assert [e][..0] == [];
  }

  lemma WidenedEntry(principal: string, e: Entry, op: string)
    ensures AclBindings(principal, [e.(operations := e.operations + [op])]) == AclBindings(principal, [e]) + [BindingOf(principal, e, op)]
  {
    var more := e.operations + [op];
    OneEntry(principal, e);
    OneEntry(principal, e.(operations := more));
    SameBindings(principal, e, more, more);
    assert more[..|e.operations|] == e.operations;
  }

  /** A rule whose operation the first entry of its shape has is there, and adding it changes nothing. */
  lemma {:induction false} AddingKnownRule(principal: string, acls: seq<Entry>, b: Binding)
    requires Has(acls, b)
    ensures Added(acls, b) == acls
    ensures BindingOf(principal, Written(b), b.operation) in AclBindings(principal, acls)
  {
    var e, rest := acls[0], acls[1..];
    assert acls == [e] + rest;
    AclBindingsJoin(principal, [e], rest);
    hide AclBindings, EntryBindings, SameShape, BindingOf;
    if SameShape(e, b) {
      ShapeFixesBinding(principal, e, b);
      EntryHas(principal, e, e.operations, b.operation);
      OneEntry(principal, e);
    } else {
      AddingKnownRule(principal, rest, b);
    }
  }

  /** Any other rule becomes exactly one binding more. */
  lemma {:induction false} AddingAddsOne(principal: string, acls: seq<Entry>, b: Binding)
    requires !Has(acls, b)
    ensures OneMore(AclBindings(principal, acls), AclBindings(principal, Added(acls, b)), BindingOf(principal, Written(b), b.operation))
  {
    hide AclBindings, EntryBindings, SameShape, BindingOf, OneMore;
    var x := BindingOf(principal, Written(b), b.operation);
    if acls == [] {
      OneFromNone(principal, b);
    } else {
      var e, rest := acls[0], acls[1..];
      assert acls == [e] + rest;
      AclBindingsJoin(principal, [e], rest);
      var mine, theirs := AclBindings(principal, [e]), AclBindings(principal, rest);
      if !SameShape(e, b) {
        AddingAddsOne(principal, rest, b);
        AclBindingsJoin(principal, [e], Added(rest, b));
        OneMoreInside(mine, theirs, AclBindings(principal, Added(rest, b)), [], x);
        assert mine + theirs + [] == mine + theirs;
        assert mine + AclBindings(principal, Added(rest, b)) + [] == mine + AclBindings(principal, Added(rest, b));
      } else {
        ShapeFixesBinding(principal, e, b);
        var wide := e.(operations := e.operations + [b.operation]);
        WidenedEntry(principal, e, b.operation);
        AclBindingsJoin(principal, [wide], rest);
        InsertedBetween(mine, x, theirs);
      }
    }
  }

  lemma OneFromNone(principal: string, b: Binding)
    ensures OneMore(AclBindings(principal, []), AclBindings(principal, [Written(b)]), BindingOf(principal, Written(b), b.operation))
  {
    OneEntry(principal, Written(b));
    var x := BindingOf(principal, Written(b), b.operation);
    assert [b.operation][..0] == [];
    InsertedBetween([], x, []);
    assert [] + [x] + [] == [x] && AclBindings(principal, [Written(b)]) == [x];
  }

  lemma InsertedBetween(a: seq<Binding>, x: Binding, c: seq<Binding>)
    ensures OneMore(a + c, a + [x] + c, x)
  {
    assert InsertedAt(a + c, a + [x] + c, x, |a|);
  }

  /** Adding the same rule again changes nothing. */
  lemma {:induction false} AddingTwiceIsOnce(acls: seq<Entry>, b: Binding)
    ensures Added(Added(acls, b), b) == Added(acls, b)
  {
    if acls == [] {
      LowerTwice(b.permission);
      assert SameShape(Written(b), b) by { assert Lower("allow") == "allow"; }
    } else if !SameShape(acls[0], b) {
      AddingTwiceIsOnce(acls[1..], b);
      var after := [acls[0]] + Added(acls[1..], b);
      assert after[1..] == Added(acls[1..], b);
    }
  }

  /** What a filter lists after an addition: one binding more if it matches, else the same. */
  lemma OneMoreSeen(before: seq<Binding>, after: seq<Binding>, x: Binding, g: Filter)
    requires OneMore(before, after, x)
    ensures if Matches(g, x) then OneMore(Select(g, true, before), Select(g, true, after), x)
            else Select(g, true, before) == Select(g, true, after)
  {
    hide Select, Matches;
    var k: nat :| InsertedAt(before, after, x, k);
    var a, c := before[..k], before[k..];
    SelectJoin(g, true, a, c);
    SelectJoin(g, true, a + [x], c);
    SelectJoin(g, true, a, [x]);
    SelectOne(g, x);
    assert before == a + c;
    if Matches(g, x) {
      InsertedBetween(Select(g, true, a), x, Select(g, true, c));
    } else {
      assert Select(g, true, a) + [] == Select(g, true, a);
    }
  }

  lemma SelectOne(g: Filter, x: Binding)
    ensures Select(g, true, [x]) == if Matches(g, x) then [x] else []
  {
    assert [x][..0] == [];
  }

  // ---- the user records, edited in place ----

  datatype Outcome = Done | Failed(error: Error)

  lemma SelectSnoc(f: Filter, matching: bool, bs: seq<Binding>, b: Binding)
    ensures Select(f, matching, bs + [b]) == if Matches(f, b) == matching then Select(f, matching, bs) + [b] else Select(f, matching, bs)
  {
    assert (bs + [b])[..|bs|] == bs;
  }

  lemma {:induction false} WrongPrincipal(f: Filter, principal: string, acls: seq<Entry>)
    requires !MatchString(f.principal, principal)
    ensures Select(f, true, AclBindings(principal, acls)) == []
  {
    if acls != [] {
      var e := acls[|acls| - 1];
      WrongPrincipal(f, principal, acls[..|acls| - 1]);
      WrongPrincipalOps(f, principal, e, e.operations);
      SelectJoin(f, true, AclBindings(principal, acls[..|acls| - 1]), EntryBindings(principal, e, e.operations));
    }
  }

  lemma {:induction false} WrongPrincipalOps(f: Filter, principal: string, e: Entry, ops: seq<string>)
    requires !MatchString(f.principal, principal)
    ensures Select(f, true, EntryBindings(principal, e, ops)) == []
  {
    if ops != [] {
      WrongPrincipalOps(f, principal, e, ops[..|ops| - 1]);
      SelectSnoc(f, true, EntryBindings(principal, e, ops[..|ops| - 1]), BindingOf(principal, e, ops[|ops| - 1]));
    }
  }

  /** Deleting nothing changes nothing. */
  lemma {:induction false} NothingMatched(f: Filter, principal: string, acls: seq<Entry>)
    requires Select(f, true, AclBindings(principal, acls)) == []
    ensures KeptAcls(f, principal, acls) == acls
  {
    hide Select, EntryBindings, SplitOps;
    if acls != [] {
      var rest, e := acls[..|acls| - 1], acls[|acls| - 1];
      SelectJoin(f, true, AclBindings(principal, rest), EntryBindings(principal, e, e.operations));
      NothingMatched(f, principal, rest);
      SplitAgrees(f, principal, e, e.operations, true);
      NoBindingsNoOps(principal, e, SplitOps(f, principal, e, e.operations, true));
      Slices.LastOff(acls);
    }
  }

  lemma NoBindingsNoOps(principal: string, e: Entry, ops: seq<string>)
    requires EntryBindings(principal, e, ops) == []
    ensures ops == []
  {
  }

  method ListEntry(u: User, e: Entry, f: Filter) returns (out: seq<Binding>)
    ensures out == Select(f, true, EntryBindings(Principal(u), e, e.operations))
  {
    hide Matches, BindingOf, Select;
    out := [];
    SelectNothing(f);
    for j := 0 to |e.operations|
      invariant out == Select(f, true, EntryBindings(Principal(u), e, e.operations[..j]))
    {
      var b := BindingOf(Principal(u), e, e.operations[j]);
      SelectSnoc(f, true, EntryBindings(Principal(u), e, e.operations[..j]), b);
      assert e.operations[..j + 1][..j] == e.operations[..j];
      if Matches(f, b) {
        out := out + [b];
      }
    }
    assert e.operations[..|e.operations|] == e.operations;
  }

  method ListUser(u: User, acls: seq<Entry>, f: Filter) returns (out: seq<Binding>)
    ensures out == Select(f, true, AclBindings(Principal(u), acls))
  {
    hide Matches, BindingOf, Select, EntryBindings;
    out := [];
    SelectNothing(f);
    for i := 0 to |acls|
      invariant out == Select(f, true, AclBindings(Principal(u), acls[..i]))
    {
      var mine := ListEntry(u, acls[i], f);
      SelectJoin(f, true, AclBindings(Principal(u), acls[..i]), EntryBindings(Principal(u), acls[i], acls[i].operations));
      assert acls[..i + 1][..i] == acls[..i];
      out := out + mine;
    }
    assert acls[..|acls|] == acls;
  }

  /** Splits every entry of a user under the filter. */
  method SplitUser(u: User, acls: seq<Entry>, f: Filter) returns (kept: seq<Entry>, removed: seq<Binding>)
    ensures kept == KeptAcls(f, Principal(u), acls)
    ensures removed == Select(f, true, AclBindings(Principal(u), acls))
  {
    hide Kept, EntryBindings, SplitOps;
    kept, removed := [], [];
    for i := 0 to |acls|
      invariant kept == KeptAcls(f, Principal(u), acls[..i])
      invariant removed == Select(f, true, AclBindings(Principal(u), acls[..i]))
    {
      var e := acls[i];
      var left, gone := SplitEntry(u, e, f);
      SelectJoin(f, true, AclBindings(Principal(u), acls[..i]), EntryBindings(Principal(u), e, e.operations));
      assert acls[..i + 1][..i] == acls[..i];
      kept, removed := kept + left, removed + gone;
    }
    assert acls[..|acls|] == acls;
  }

  method SplitEntry(u: User, e: Entry, f: Filter) returns (left: seq<Entry>, gone: seq<Binding>)
    ensures left == Kept(f, Principal(u), e)
    ensures gone == Select(f, true, EntryBindings(Principal(u), e, e.operations))
  {
    var matched: seq<string>, kept: seq<string> := [], [];
    for j := 0 to |e.operations|
      invariant matched == SplitOps(f, Principal(u), e, e.operations[..j], true)
      invariant kept == SplitOps(f, Principal(u), e, e.operations[..j], false)
    {
      var op := e.operations[j];
      assert e.operations[..j + 1][..j] == e.operations[..j];
      if EntryMatches(f, Principal(u), e) && MatchString(f.operation, op) {
        matched := matched + [op];
      } else {
        kept := kept + [op];
      }
    }
    assert e.operations[..|e.operations|] == e.operations;
    gone := [];
    for j := 0 to |matched|
      invariant gone == EntryBindings(Principal(u), e, matched[..j])
    {
      assert matched[..j + 1][..j] == matched[..j];
      gone := gone + [BindingOf(Principal(u), e, matched[j])];
    }
    assert matched[..|matched|] == matched;
    SplitAgrees(f, Principal(u), e, e.operations, true);
    left := if matched == [] then [e] else if kept == [] then [] else [e.(operations := kept)];
  }

  class Directory {
    var users: seq<User>

    method ListAcls(f: Filter) returns (out: seq<Binding>)
      ensures out == ListOf(users, f)
    {
      hide Select, AclBindings;
      out := [];
      SelectNothing(f);
      for i := 0 to |users|
        invariant out == Select(f, true, AllBindings(users[..i]))
      {
        var u := users[i];
        assert users[..i + 1][..i] == users[..i];
        SelectJoin(f, true, AllBindings(users[..i]), UserBindings(u));
        SelectNothing(f);
        if !u.deleting && u.acls.Some? {
          if MatchString(f.principal, Principal(u)) {
            var mine := ListUser(u, u.acls.value, f);
            out := out + mine;
          } else {
            WrongPrincipal(f, Principal(u), u.acls.value);
          }
        }
      }
      assert users[..|users|] == users;
    }

    /** Removes, from every user, exactly what a listing with the same filter would have shown, and reports it. */
    method DeleteAcls(f: Filter) returns (removed: seq<Binding>)
      modifies this
      ensures removed == ListOf(old(users), f)
      ensures users == KeptUsers(f, old(users))
    {
      hide Select, AclBindings, KeptAcls;
      removed := [];
      SelectNothing(f);
      for i := 0 to |users|
        invariant |users| == |old(users)|
        invariant forall j :: 0 <= j < |users| ==> users[j] == if j < i then KeptUser(f, old(users)[j]) else old(users)[j]
        invariant removed == Select(f, true, AllBindings(old(users)[..i]))
      {
        var u := users[i];
        assert old(users)[..i + 1][..i] == old(users)[..i];
        SelectJoin(f, true, AllBindings(old(users)[..i]), UserBindings(u));
        SelectNothing(f);
        if !u.deleting && u.acls.Some? {
          if MatchString(f.principal, Principal(u)) {
            var kept, gone := SplitUser(u, u.acls.value, f);
            removed := removed + gone;
            if gone == [] {
              NothingMatched(f, Principal(u), u.acls.value);
            } else {
              users := users[i := u.(acls := Some(kept))];
            }
          } else {
            WrongPrincipal(f, Principal(u), u.acls.value);
            NothingMatched(f, Principal(u), u.acls.value);
          }
        }
      }
      assert old(users)[..|users|] == old(users);
    }

    /** Adds a rule to the record of the user it names. */
    method CreateAcl(b: Binding) returns (r: Outcome)
      modifies this
      ensures |users| == |old(users)|
      ensures |b.principal| <= 5 || b.principal[..5] != "User:" <==> r == Failed(InvalidPrincipal)
      ensures r == Failed(UnknownPrincipal) ==> forall u :: u in users ==> Principal(u) != b.principal
      ensures r.Failed? ==> users == old(users)
      ensures r.Done? ==> exists i :: AddedTo(old(users), users, i, b)
    {
      if |b.principal| <= 5 || b.principal[..5] != "User:" {
        return Failed(InvalidPrincipal);
      }
      var name := b.principal[5..];
      assert b.principal == "User:" + name;
      for i := 0 to |users|
        invariant users == old(users)
        invariant forall j :: 0 <= j < i ==> users[j].name != name
      {
        if users[i].name == name {
          var acls := AddTo(match users[i].acls case Some(a) => a case None => [], b);
          users := users[i := users[i].(acls := Some(acls))];
          assert AddedTo(old(users), users, i, b);
          return Done;
        }
      }
      forall u | u in users
        ensures Principal(u) != b.principal
      {
        assert Principal(u)[5..] == u.name;
      }
      return Failed(UnknownPrincipal);
    }
  }

  lemma {:induction false} AddedAtEnd(acls: seq<Entry>, b: Binding)
    requires forall j :: 0 <= j < |acls| ==> !SameShape(acls[j], b)
    ensures Added(acls, b) == acls + [Written(b)]
  {
    hide SameShape, Written;
    if acls != [] {
      AddedAtEnd(acls[1..], b);
    }
  }

  lemma {:induction false} AddedAt(acls: seq<Entry>, b: Binding, i: nat)
    requires i < |acls| && SameShape(acls[i], b) && forall j :: 0 <= j < i ==> !SameShape(acls[j], b)
    ensures Added(acls, b) ==
            if b.operation in acls[i].operations then acls
            else acls[i := acls[i].(operations := acls[i].operations + [b.operation])]
  {
    hide SameShape, Written;
    if i > 0 {
      AddedAt(acls[1..], b, i - 1);
      assert acls == [acls[0]] + acls[1..];
    }
  }

  method AddTo(acls: seq<Entry>, b: Binding) returns (r: seq<Entry>)
    ensures r == Added(acls, b)
  {
    hide Added, SameShape, Written;
    for i := 0 to |acls|
      invariant forall j :: 0 <= j < i ==> !SameShape(acls[j], b)
    {
      if SameShape(acls[i], b) {
        AddedAt(acls, b, i);
        if b.operation in acls[i].operations {
          return acls;
        }
        return acls[i := acls[i].(operations := acls[i].operations + [b.operation])];
      }
    }
    AddedAtEnd(acls, b);
    r := acls + [Written(b)];
  }

  lemma SelectNothing(f: Filter)
    ensures Select(f, true, []) == []
  {
  }

  function Acls(u: User): seq<Entry> {
    match u.acls
    case Some(a) => a
    case None => []
  }

  ghost predicate AddedTo(before: seq<User>, after: seq<User>, i: nat, b: Binding) {
    && i < |before| && Principal(before[i]) == b.principal
    && after == before[i := before[i].(acls := Some(Added(Acls(before[i]), b)))]
  }

  lemma NoUsers()
    ensures AllBindings([]) == []
  {
  }

  lemma {:induction false} AllBindingsJoin(a: seq<User>, b: seq<User>)
    ensures AllBindings(a + b) == AllBindings(a) + AllBindings(b)
    decreases |b|
  {
    NoUsers();
    hide AllBindings, UserBindings;
    if b == [] {
      assert a + b == a;
    } else {
      var rest, u := b[..|b| - 1], b[|b| - 1];
      AllBindingsJoin(a, rest);
      AllBindingsSnoc(a + rest, u);
      AllBindingsSnoc(rest, u);
      assert a + b == a + rest + [u] && b == rest + [u];
    }
  }

  lemma AllBindingsAt(users: seq<User>, i: nat)
    requires i < |users|
    ensures AllBindings(users) == AllBindings(users[..i]) + UserBindings(users[i]) + AllBindings(users[i + 1..])
  {
    hide AllBindings, UserBindings;
    AllBindingsAround(users[..i], users[i], users[i + 1..]);
    Slices.Around(users, i);
  }

  lemma AllBindingsAround(a: seq<User>, u: User, c: seq<User>)
    ensures AllBindings(a + [u] + c) == AllBindings(a) + UserBindings(u) + AllBindings(c)
  {
    hide AllBindings, UserBindings;
    AllBindingsJoin(a + [u], c);
    AllBindingsSnoc(a, u);
  }

  lemma AllBindingsSnoc(users: seq<User>, u: User)
    ensures AllBindings(users + [u]) == AllBindings(users) + UserBindings(u)
  {
    assert (users + [u])[..|users|] == users;
  }

  /**
   If the first entry of the rule's shape has its operation, adding the
   rule changes no record. Otherwise every filter that matches it lists
   exactly one binding more, and every other filter the same.
   */
  lemma AdditionSeenByAll(before: seq<User>, after: seq<User>, i: nat, b: Binding, g: Filter)
    requires AddedTo(before, after, i, b) && !before[i].deleting
    ensures var x := BindingOf(b.principal, Written(b), b.operation);
            if Has(Acls(before[i]), b) || !Matches(g, x) then ListOf(after, g) == ListOf(before, g)
            else OneMore(ListOf(before, g), ListOf(after, g), x)
    ensures Has(Acls(before[i]), b) ==> AllBindings(after) == AllBindings(before)
  {
    hide AclBindings, EntryBindings, OneMore, Added, BindingOf, Matches, Has;
    var x := BindingOf(b.principal, Written(b), b.operation);
    var u, v := before[i], after[i];
    NoBindings(b.principal);
    assert Principal(v) == b.principal;
    AllBindingsAt(before, i);
    AllBindingsAt(after, i);
    assert before[..i] == after[..i] && before[i + 1..] == after[i + 1..];
    if Has(Acls(u), b) {
      AddingKnownRule(b.principal, Acls(u), b);
      assert UserBindings(v) == UserBindings(u);
    } else {
      AddingAddsOne(b.principal, Acls(u), b);
      OneMoreInside(AllBindings(before[..i]), UserBindings(u), UserBindings(v), AllBindings(before[i + 1..]), x);
      OneMoreSeen(AllBindings(before), AllBindings(after), x, g);
    }
  }

  /** A rule listed under a later entry of its shape is listed twice. */
  lemma LaterEntryListsTwice()
    ensures var read := Entry("topic", "t", "literal", ["Read"], "allow", "*");
            var write := read.(operations := ["Write"]);
            var b := Binding("User:u", "topic", "t", "literal", "Write", "Allow", "*");
            var before := AclBindings("User:u", [read, write]);
            && BindingOf("User:u", Written(b), "Write") in before
            && OneMore(before, AclBindings("User:u", Added([read, write], b)), BindingOf("User:u", Written(b), "Write"))
  {
    var read := Entry("topic", "t", "literal", ["Read"], "allow", "*");
    var write := read.(operations := ["Write"]);
    var b := Binding("User:u", "topic", "t", "literal", "Write", "Allow", "*");
    assert Lower("allow") == "allow" && Lower("Allow") == "allow";
    assert SameShape(read, b) && SameShape(write, b);
    assert !Has([read, write], b);
    AddingAddsOne("User:u", [read, write], b);
    ShapeFixesBinding("User:u", write, b);
    EntryHas("User:u", write, write.operations, "Write");
    OneEntry("User:u", write);
    AclBindingsJoin("User:u", [read], [write]);
    assert [read] + [write] == [read, write];
  }

  // ---- what a filter selects, field by field ----

  lemma {:induction false} SelectHas(f: Filter, matching: bool, bs: seq<Binding>, b: Binding)
    ensures b in Select(f, matching, bs) <==> b in bs && Matches(f, b) == matching
  {
    hide Matches;
    if bs != [] {
      SelectHas(f, matching, bs[..|bs| - 1], b);
      Slices.LastOff(bs);
    }
  }

  /**
   A listing has exactly the bindings whose every field the filter leaves
   open or names, and whose pattern it names, or is literal or prefix
   where the filter leaves it open or says "match".
   */
  lemma ListedIff(users: seq<User>, f: Filter, b: Binding)
    ensures b in ListOf(users, f) <==>
              && b in AllBindings(users)
              && (f.principal != "" ==> f.principal == b.principal)
              && (f.resourceType != "" ==> f.resourceType == b.resourceType)
              && (f.resourceName != "" ==> f.resourceName == b.resourceName)
              && (f.operation != "" ==> f.operation == b.operation)
              && (f.permission != "" ==> f.permission == b.permission)
              && (f.host != "" ==> f.host == b.host)
              && (if f.patternType == "" || f.patternType == "match" then b.patternType == "literal" || b.patternType == "prefix"
                  else b.patternType == f.patternType)
  {
    SelectHas(f, true, AllBindings(users), b);
  }

  /** A deletion takes away exactly those, and leaves all others. */
  lemma DeletedIff(users: seq<User>, f: Filter, b: Binding)
    ensures b in AllBindings(KeptUsers(f, users)) <==> b in AllBindings(users) && b !in ListOf(users, f)
  {
    DeletionRemoves(f, users);
    SelectHas(f, true, AllBindings(users), b);
    SelectHas(f, false, AllBindings(users), b);
  }

  predicate SaysDeny(kind: string) {
    && |kind| == 4 && (kind[0] == 'd' || kind[0] == 'D') && (kind[1] == 'e' || kind[1] == 'E')
    && (kind[2] == 'n' || kind[2] == 'N') && (kind[3] == 'y' || kind[3] == 'Y')
  }

  lemma PermissionIs(kind: string)
    ensures Permission(kind) == if SaysDeny(kind) then "Deny" else "Allow"
  {
    var low := Lower(kind);
    if |kind| == 4 {
      assert low == [low[0], low[1], low[2], low[3]];
    }
  }

  /** An entry of a record grants this binding. */
  ghost predicate Grants(u: User, e: Entry, op: string, b: Binding) {
    && !u.deleting && u.acls.Some? && e in u.acls.value && op in e.operations
    && b == Binding("User:" + u.name, e.resourceType, e.resourceName, if e.patternType == "" then "literal" else e.patternType,
                    op, if SaysDeny(e.kind) then "Deny" else "Allow", e.host)
  }

  lemma {:induction false} AclBindingsHas(u: User, acls: seq<Entry>, b: Binding)
    requires !u.deleting && u.acls.Some? && forall e :: e in acls ==> e in u.acls.value
    ensures b in AclBindings(Principal(u), acls) <==> exists e, op :: e in acls && Grants(u, e, op, b)
  {
    if acls != [] {
      var rest, last := acls[..|acls| - 1], acls[|acls| - 1];
      Slices.LastOff(acls);
      AclBindingsHas(u, rest, b);
      EntryListed(Principal(u), last, last.operations, b);
      PermissionIs(last.kind);
      hide Permission, EntryBindings;
      assert (exists op :: op in last.operations && b == BindingOf(Principal(u), last, op)) <==> exists op :: Grants(u, last, op, b) by {
        assert forall op :: op in last.operations ==> (b == BindingOf(Principal(u), last, op) <==> Grants(u, last, op, b));
      }
    }
  }

  /** The bindings there are come from the records: one per entry and operation of users that are not being deleted. */
  lemma {:induction false} BindingsComeFromRecords(users: seq<User>, b: Binding)
    ensures b in AllBindings(users) <==> exists u, e, op :: u in users && Grants(u, e, op, b)
  {
    if users != [] {
      var rest, u := users[..|users| - 1], users[|users| - 1];
      Slices.LastOff(users);
      BindingsComeFromRecords(rest, b);
      if !u.deleting && u.acls.Some? {
        AclBindingsHas(u, u.acls.value, b);
      }
      hide AclBindings;
      assert b in UserBindings(u) <==> exists e, op :: Grants(u, e, op, b);
    }
  }

  // ---- the filter that asks for nothing ----

  const ANY := Filter("", "", "", "", "", "", "")

  /** The patterns a filter without a pattern knows. */
  predicate KnownPattern(e: Entry) {
    e.patternType == "" || e.patternType == "literal" || e.patternType == "prefix"
  }

  lemma AnyMatchesIff(principal: string, e: Entry, op: string)
    ensures Matches(ANY, BindingOf(principal, e, op)) <==> KnownPattern(e)
  {
  }

  lemma {:induction false} SelectsAllIff(f: Filter, bs: seq<Binding>)
    ensures Select(f, true, bs) == bs <==> forall b :: b in bs ==> Matches(f, b)
    ensures |Select(f, true, bs)| <= |bs|
  {
    hide Matches;
    if bs != [] {
      var rest, b := bs[..|bs| - 1], bs[|bs| - 1];
      SelectsAllIff(f, rest);
      assert bs == rest + [b];
      if Select(f, true, bs) == bs {
        assert |Select(f, true, rest)| == |rest| && Select(f, true, bs) == Select(f, true, rest) + [b];
        assert Select(f, true, rest) == bs[..|rest|];
      }
    }
  }

  lemma {:induction false} EntryListed(principal: string, e: Entry, ops: seq<string>, b: Binding)
    ensures b in EntryBindings(principal, e, ops) <==> exists op :: op in ops && b == BindingOf(principal, e, op)
  {
    hide BindingOf;
    if ops != [] {
      EntryListed(principal, e, ops[..|ops| - 1], b);
      assert ops == ops[..|ops| - 1] + [ops[|ops| - 1]];
    }
  }

  /** Every binding of these entries is matched exactly if every entry with an operation has a known pattern. */
  lemma {:induction false} AclsAllKnown(principal: string, acls: seq<Entry>)
    ensures (forall b :: b in AclBindings(principal, acls) ==> Matches(ANY, b)) <==>
              forall e :: e in acls && e.operations != [] ==> KnownPattern(e)
  {
    hide Matches, KnownPattern, BindingOf, EntryBindings;
    if acls != [] {
      var rest, e := acls[..|acls| - 1], acls[|acls| - 1];
      AclsAllKnown(principal, rest);
      EntryAllKnown(principal, e);
      assert acls == rest + [e];
      var mine, theirs := EntryBindings(principal, e, e.operations), AclBindings(principal, rest);
      assert forall b :: b in AclBindings(principal, acls) <==> b in theirs || b in mine;
    }
  }

  lemma EntryAllKnown(principal: string, e: Entry)
    ensures (forall b :: b in EntryBindings(principal, e, e.operations) ==> Matches(ANY, b)) <==> (e.operations != [] ==> KnownPattern(e))
  {
    hide Matches, KnownPattern, BindingOf, EntryBindings;
    forall b | b in EntryBindings(principal, e, e.operations)
      ensures Matches(ANY, b) <==> KnownPattern(e)
    {
      EntryListed(principal, e, e.operations, b);
      var op :| op in e.operations && b == BindingOf(principal, e, op);
      AnyMatchesIff(principal, e, op);
    }
    if e.operations != [] {
      EntryHas(principal, e, e.operations, e.operations[0]);
    } else {
      NoOperations(principal, e);
    }
  }

  lemma NoOperations(principal: string, e: Entry)
    ensures EntryBindings(principal, e, []) == []
  {
  }

  /** Every entry that is listed has a known pattern. */
  ghost predicate AllKnown(users: seq<User>) {
    forall u, e :: u in users && !u.deleting && e in Acls(u) && e.operations != [] ==> KnownPattern(e)
  }

  /** A filter that asks for nothing lists everything exactly if every listed entry with an operation has a known pattern. */
  lemma {:induction false} AnyListsAllIff(users: seq<User>)
    ensures ListOf(users, ANY) == AllBindings(users) <==> AllKnown(users)
  {
    SelectsAllIff(ANY, AllBindings(users));
    AllMatchedIff(users);
  }

  lemma {:induction false} AllMatchedIff(users: seq<User>)
    ensures (forall b :: b in AllBindings(users) ==> Matches(ANY, b)) <==> AllKnown(users)
  {
    hide Matches, KnownPattern, AclBindings;
    if users != [] {
      var rest, u := users[..|users| - 1], users[|users| - 1];
      AllMatchedIff(rest);
      NoBindings(Principal(u));
      AclsAllKnown(Principal(u), Acls(u));
      assert users == rest + [u];
      assert forall b :: b in AllBindings(users) <==> b in AllBindings(rest) || b in UserBindings(u);
      assert u.deleting || UserBindings(u) == AclBindings(Principal(u), Acls(u));
      assert AllKnown(users) <==> AllKnown(rest) && (u.deleting || forall e :: e in Acls(u) && e.operations != [] ==> KnownPattern(e));
    }
  }

  /** It happens: an entry with another pattern is not listed by the filter that asks for nothing. */
  lemma OtherPatternIsHidden()
    ensures var u := User("u", false, Some([Entry("topic", "t", "prefixed", ["Read"], "allow", "*")]));
            ListOf([u], ANY) == [] && AllBindings([u]) != []
  {
    var e := Entry("topic", "t", "prefixed", ["Read"], "allow", "*");
    var u := User("u", false, Some([e]));
    var b := BindingOf("User:u", e, "Read");
    OneEntry("User:u", e);
    assert ["Read"][..0] == [] && [u][..0] == [];
    assert Principal(u) == "User:u";
    assert EntryBindings("User:u", e, ["Read"]) == [] + [b];
    assert AllBindings([u]) == [] + UserBindings(u) == [b];
    SelectOne(ANY, b);
  }

  lemma NoBindings(principal: string)
    ensures AclBindings(principal, []) == []
  {
  }

  /** Creating the same rule again leaves the records as they are. */
  lemma CreatingTwiceIsOnce(before: seq<User>, once: seq<User>, twice: seq<User>, i: nat, b: Binding)
    requires AddedTo(before, once, i, b) && AddedTo(once, twice, i, b)
    ensures twice == once
  {
    hide Added;
    AddingTwiceIsOnce(Acls(before[i]), b);
    assert Acls(once[i]) == Added(Acls(before[i]), b);
  }
}
