/** pkg/mailings/plan.go: the difference between the directory and the subscribers of
    the two mailing lists, and what executing it leads to. */
module MailingPlan {
  import opened Wrappers
  import Strings

  datatype Member = Member(id: string, email: string, bureau: bool, name: string)

  datatype Config = Config(domain: string, members: string, bureau: string)

  datatype InvalidMember = InvalidMember(id: string, name: string, reason: string)

  const REASON := "missing or invalid address"

  datatype ListPlan = ListPlan(group: string, name: string, expected: seq<string>, current: seq<string>,
                               add: seq<string>, remove: seq<string>, pendingTasks: seq<int>)

  datatype Plan = Plan(configured: bool, domain: string, lists: seq<ListPlan>, invalid: seq<InvalidMember>, token: string, canApply: bool)

  /** The hash over the plan, the members in ID order and the configuration. */
  type Token = (Plan, seq<Member>, Config) -> string

  /** `Canonical`: the normal form of an address, if it is one. */
  type Canon = string -> Option<string>

  ghost predicate Idempotent(canon: Canon) {
    forall e :: canon(e).Some? ==> canon(canon(e).value) == canon(e)
  }

  // ---- What the plan should contain ----

  function Expected(canon: Canon, members: seq<Member>, bureauOnly: bool): set<string> {
    set i | 0 <= i < |members| && canon(members[i].email).Some? && (bureauOnly ==> members[i].bureau)
      :: canon(members[i].email).value
  }

  function Have(canon: Canon, current: seq<string>): set<string> {
    set i | 0 <= i < |current| && canon(current[i]).Some? :: canon(current[i]).value
  }

  function Invalid(canon: Canon, members: seq<Member>): seq<InvalidMember> {
    if members == [] then []
    else
      var m := members[|members| - 1];
      Invalid(canon, members[..|members| - 1]) + if canon(m.email).None? then [InvalidMember(m.id, m.name, REASON)] else []
  }

  predicate Wanted(canon: Canon, expected: set<string>, email: string) {
    canon(email).Some? && canon(email).value in expected
  }

  function Unwanted(canon: Canon, expected: set<string>, current: seq<string>): seq<string> {
    if current == [] then []
    else
      var e := current[|current| - 1];
      Unwanted(canon, expected, current[..|current| - 1]) + if Wanted(canon, expected, e) then [] else [e]
  }

  ghost predicate Distinct(s: seq<string>) {
    forall e :: multiset(s)[e] <= 1
  }

  /** The plan of one list: expected addresses, those to add, and the subscribers to remove. */
  ghost predicate IsListPlan(canon: Canon, expected: set<string>, current: seq<string>, p: ListPlan) {
    && (forall e :: e in p.expected <==> e in expected) && Distinct(p.expected)
    && multiset(p.current) == multiset(current)
    && (forall e :: e in p.add <==> e in expected && e !in Have(canon, current)) && Distinct(p.add)
    && multiset(p.remove) == multiset(Unwanted(canon, expected, current))
    && Strings.Ascending(p.expected) && Strings.Ascending(p.current) && Strings.Ascending(p.add)
    && Strings.Ascending(p.remove)
  }

  ghost predicate IsPlan(canon: Canon, cfg: Config, members: seq<Member>, current: map<string, seq<string>>,
                         pending: map<string, seq<int>>, p: Plan) {
    && p.configured && p.domain == cfg.domain
    && |p.lists| == 2 && p.lists[0].group == "membres" && p.lists[1].group == "bureau"
    && p.lists[0].name == cfg.members && p.lists[1].name == cfg.bureau
    && IsListPlan(canon, Expected(canon, members, false), Get(current, cfg.members), p.lists[0])
    && IsListPlan(canon, Expected(canon, members, true), Get(current, cfg.bureau), p.lists[1])
    && multiset(p.lists[0].pendingTasks) == multiset(Get(pending, cfg.members))
    && multiset(p.lists[1].pendingTasks) == multiset(Get(pending, cfg.bureau))
    && multiset(p.invalid) == multiset(Invalid(canon, members)) && Strings.AscendingBy(InvalidId, p.invalid)
    && (p.canApply <==>
          && p.invalid == [] && p.lists[0].pendingTasks == [] && p.lists[1].pendingTasks == []
          && |p.lists[0].add| + |p.lists[0].remove| + |p.lists[1].add| + |p.lists[1].remove| > 0)
  }

  function InvalidId(m: InvalidMember): string {
    m.id
  }

  function MemberId(m: Member): string {
    m.id
  }

  /** What the hash covers: the plan before it has a token. */
  ghost predicate HasToken(token: Token, cfg: Config, members: seq<Member>, p: Plan) {
    p.token == token(p.(token := ""), Strings.SortBy(MemberId, members), cfg)
  }

  function Get<T>(m: map<string, seq<T>>, name: string): seq<T> {
    if name in m then m[name] else []
  }

  // ---- BuildPlan ----

  /** The elements of a Go map, in some order. */
  method Elements(s: set<string>) returns (r: seq<string>)
    ensures multiset(r) == multiset(s)
    ensures forall e :: e in r <==> e in s
  {
    r := [];
    var rest := s;
    while rest != {}
      invariant rest <= s
      invariant forall e :: multiset(r)[e] == if e in s && e !in rest then 1 else 0
    {
      var e :| e in rest;
      r, rest := r + [e], rest - {e};
    }
    assert forall e :: e in r <==> e in multiset(r);
  }

  function InsertId(x: int, s: seq<int>): (r: seq<int>)
    ensures multiset(r) == multiset(s + [x])
  {
    if s == [] || x < s[0] then [x] + s
    else
      assert s == [s[0]] + s[1..];
      [s[0]] + InsertId(x, s[1..])
  }

  function SortIds(s: seq<int>): (r: seq<int>)
    ensures multiset(r) == multiset(s)
  {
    if s == [] then []
    else
      var n := |s| - 1;
      assert s[..n] + [s[n]] == s;
      InsertId(s[n], SortIds(s[..n]))
  }

  method BuildListPlan(canon: Canon, group: string, name: string, expected: set<string>, current: seq<string>, pending: seq<int>)
    returns (p: ListPlan)
    ensures IsListPlan(canon, expected, current, p) && p.group == group && p.name == name
    ensures multiset(p.pendingTasks) == multiset(pending)
  {
    var have: set<string> := {};
    var remove: seq<string> := [];
    for i := 0 to |current|
      invariant have == Have(canon, current[..i])
      invariant remove == Unwanted(canon, expected, current[..i])
    {
      assert current[..i + 1][..i] == current[..i];
      HaveNext(canon, current, i);
      var normalized := canon(current[i]);
      if normalized.Some? {
        have := have + {normalized.value};
      }
      if normalized.None? || normalized.value !in expected {
        remove := remove + [current[i]];
      } else {
        assert remove + [] == remove;
      }
    }
    assert current[..|current|] == current;
    var all := Elements(expected);
    var add: seq<string> := [];
    for i := 0 to |all|
      invariant forall e :: e in add <==> e in all[..i] && e !in have
      invariant multiset(add) <= multiset(all[..i])
    {
      assert all[..i + 1] == all[..i] + [all[i]];
      if all[i] !in have {
        add := add + [all[i]];
      }
    }
    assert all[..|all|] == all;
    p := ListPlan(group, name, Strings.Sort(all), Strings.Sort(current), Strings.Sort(add), Strings.Sort(remove),
                  SortIds(pending));
  }

  lemma HaveNext(canon: Canon, current: seq<string>, i: nat)
    requires i < |current|
    ensures Have(canon, current[..i + 1])
         == Have(canon, current[..i]) + if canon(current[i]).Some? then {canon(current[i]).value} else {}
  {
    var a, b := current[..i + 1], current[..i];
    forall e | e in Have(canon, b)
      ensures e in Have(canon, a)
    {
      var j :| 0 <= j < i && canon(b[j]).Some? && canon(b[j]).value == e;
      assert a[j] == b[j];
    }
    if canon(current[i]).Some? {
      assert a[i] == current[i];
      assert canon(current[i]).value in Have(canon, a);
    }
    forall e | e in Have(canon, a)
      ensures e in Have(canon, b) || (canon(current[i]).Some? && canon(current[i]).value == e)
    {
      var j :| 0 <= j <= i && canon(a[j]).Some? && canon(a[j]).value == e;
      if j < i {
        assert b[j] == a[j];
      }
    }
  }

  lemma ExpectedNext(canon: Canon, members: seq<Member>, bureauOnly: bool, i: nat)
    requires i < |members|
    ensures Expected(canon, members[..i + 1], bureauOnly)
         == Expected(canon, members[..i], bureauOnly)
            + if canon(members[i].email).Some? && (bureauOnly ==> members[i].bureau) then {canon(members[i].email).value} else {}
  {
    var a, b := members[..i + 1], members[..i];
    forall e | e in Expected(canon, b, bureauOnly)
      ensures e in Expected(canon, a, bureauOnly)
    {
      var j :| 0 <= j < i && canon(b[j].email).Some? && (bureauOnly ==> b[j].bureau) && canon(b[j].email).value == e;
      assert a[j] == b[j];
    }
    if canon(members[i].email).Some? && (bureauOnly ==> members[i].bureau) {
      assert a[i] == members[i];
      assert canon(members[i].email).value in Expected(canon, a, bureauOnly);
    }
    forall e | e in Expected(canon, a, bureauOnly)
      ensures e in Expected(canon, b, bureauOnly)
              || (canon(members[i].email).Some? && (bureauOnly ==> members[i].bureau) && canon(members[i].email).value == e)
    {
      var j :| 0 <= j <= i && canon(a[j].email).Some? && (bureauOnly ==> a[j].bureau) && canon(a[j].email).value == e;
      if j < i {
        assert b[j] == a[j];
      }
    }
  }

  /** The first loop of BuildPlan: whom each list should reach, and who cannot be reached. */
  method Addresses(canon: Canon, members: seq<Member>) returns (all: set<string>, bureau: set<string>, invalid: seq<InvalidMember>)
    ensures all == Expected(canon, members, false) && bureau == Expected(canon, members, true)
    ensures invalid == Invalid(canon, members)
  {
    all, bureau, invalid := {}, {}, [];
    for i := 0 to |members|
      invariant all == Expected(canon, members[..i], false) && bureau == Expected(canon, members[..i], true)
      invariant invalid == Invalid(canon, members[..i])
    {
      assert members[..i + 1][..i] == members[..i];
      ExpectedNext(canon, members, false, i);
      ExpectedNext(canon, members, true, i);
      var email := canon(members[i].email);
      if email.None? {
        invalid := invalid + [InvalidMember(members[i].id, members[i].name, REASON)];
      } else {
        assert invalid + [] == invalid;
        all := all + {email.value};
        if members[i].bureau {
          bureau := bureau + {email.value};
        }
      }
    }
    assert members[..|members|] == members;
  }

  /** The second loop: a plan may be applied when everyone can be reached, nothing is
      under way, and something is to be done. */
  method Applicable(lists: seq<ListPlan>, invalid: seq<InvalidMember>) returns (canApply: bool)
    requires |lists| == 2
    ensures canApply <==>
              && invalid == [] && lists[0].pendingTasks == [] && lists[1].pendingTasks == []
              && |lists[0].add| + |lists[0].remove| + |lists[1].add| + |lists[1].remove| > 0
  {
    var changes := 0;
    canApply := invalid == [];
    for i := 0 to |lists|
      invariant changes == (if i > 0 then |lists[0].add| + |lists[0].remove| else 0) + if i > 1 then |lists[1].add| + |lists[1].remove| else 0
      invariant canApply <==> invalid == [] && (i > 0 ==> lists[0].pendingTasks == []) && (i > 1 ==> lists[1].pendingTasks == [])
    {
      changes := changes + |lists[i].add| + |lists[i].remove|;
      if |lists[i].pendingTasks| > 0 {
        canApply := false;
      }
    }
    canApply := canApply && changes > 0;
  }

  method BuildPlan(canon: Canon, token: Token, cfg: Config, members: seq<Member>,
                   current: map<string, seq<string>>, pending: map<string, seq<int>>) returns (p: Plan)
    ensures IsPlan(canon, cfg, members, current, pending, p)
    ensures HasToken(token, cfg, members, p)
  {
    hide Expected, Have, Invalid, Unwanted, Strings.SortBy;
    var all, bureau, invalid := Addresses(canon, members);
    var first := BuildListPlan(canon, "membres", cfg.members, all, Get(current, cfg.members), Get(pending, cfg.members));
    var second := BuildListPlan(canon, "bureau", cfg.bureau, bureau, Get(current, cfg.bureau), Get(pending, cfg.bureau));
    var sorted := Strings.SortBy(InvalidId, invalid);
    var canApply := Applicable([first, second], sorted);
    p := Plan(true, cfg.domain, [first, second], sorted, "", canApply);
    p := p.(token := token(p, Strings.SortBy(MemberId, members), cfg));
  }

  // ---- Executing a plan ----

  datatype Op = Add(email: string) | Remove(email: string)

  function Drop(s: seq<string>, email: string): seq<string> {
    if s == [] then [] else (if s[0] == email then [] else [s[0]]) + Drop(s[1..], email)
  }

  /** What the provider does to the subscribers of a list. */
  function ApplyOp(subscribers: seq<string>, op: Op): seq<string> {
    match op
    case Add(email) => if email in subscribers then subscribers else subscribers + [email]
    case Remove(email) => Drop(subscribers, email)
  }

  function ApplyAll(subscribers: seq<string>, ops: seq<Op>): seq<string> {
    if ops == [] then subscribers else ApplyOp(ApplyAll(subscribers, ops[..|ops| - 1]), ops[|ops| - 1])
  }

  lemma {:induction false} Dropped(s: seq<string>, email: string, e: string)
    ensures e in Drop(s, email) <==> e in s && e != email
  {
    if s != [] {
      Dropped(s[1..], email, e);
    }
  }

  /** Operations that a plan asks for. */
  predicate FromPlan(p: ListPlan, ops: seq<Op>) {
    forall i :: 0 <= i < |ops| ==> match ops[i] case Add(e) => e in p.add case Remove(e) => e in p.remove
  }

  predicate Inside(s: seq<string>, t: seq<string>) {
    forall e :: e in s ==> e in t
  }

  lemma {:induction false} UnwantedMember(canon: Canon, expected: set<string>, current: seq<string>, e: string)
    ensures e in Unwanted(canon, expected, current) <==> e in current && !Wanted(canon, expected, e)
    decreases |current|
  {
    if current != [] {
      UnwantedMember(canon, expected, current[..|current| - 1], e);
    }
  }

  /** Whether an address ends up subscribed only depends on which operations ran. */
  lemma {:induction false} SubscribedAfter(canon: Canon, expected: set<string>, current: seq<string>, p: ListPlan, ops: seq<Op>, e: string)
    requires Idempotent(canon) && IsListPlan(canon, expected, current, p) && FromPlan(p, ops)
    requires forall x :: x in expected ==> canon(x) == Some(x)
    ensures e in ApplyAll(current, ops) <==>
              (e in current || Add(e) in ops) && Remove(e) !in ops
    decreases |ops|
  {
    if ops != [] {
      var n := |ops| - 1;
      SubscribedAfter(canon, expected, current, p, ops[..n], e);
      var before := ApplyAll(current, ops[..n]);
      assert forall op :: op in ops <==> op in ops[..n] || op == ops[n];
      match ops[n]
      case Add(x) =>
        assert x in p.add;
        AddsAreNotRemoved(canon, expected, current, p, x);
        assert Remove(x) !in ops[..n];
      case Remove(x) =>
        assert x in p.remove;
        Dropped(before, x, e);
    }
  }

  /** Adds and removes of a plan are disjoint. */
  lemma AddsAreNotRemoved(canon: Canon, expected: set<string>, current: seq<string>, p: ListPlan, e: string)
    requires IsListPlan(canon, expected, current, p) && e in p.add
    requires forall x :: x in expected ==> canon(x) == Some(x)
    ensures e !in p.remove
  {
    UnwantedMember(canon, expected, current, e);
    assert e in p.remove <==> e in multiset(p.remove);
    assert e in Unwanted(canon, expected, current) <==> e in multiset(Unwanted(canon, expected, current));
  }

  lemma RemovesAreUnwanted(canon: Canon, expected: set<string>, current: seq<string>, p: ListPlan, e: string)
    requires IsListPlan(canon, expected, current, p)
    ensures e in p.remove <==> e in current && !Wanted(canon, expected, e)
  {
    UnwantedMember(canon, expected, current, e);
    assert e in p.remove <==> e in multiset(p.remove);
    assert e in Unwanted(canon, expected, current) <==> e in multiset(Unwanted(canon, expected, current));
  }

  /** Expected addresses are in normal form. */
  lemma ExpectedIsCanonical(canon: Canon, members: seq<Member>, bureauOnly: bool)
    requires Idempotent(canon)
    ensures forall x :: x in Expected(canon, members, bureauOnly) ==> canon(x) == Some(x)
  {}

  lemma HaveMember(canon: Canon, current: seq<string>, e: string)
    requires e in current && canon(e).Some?
    ensures canon(e).value in Have(canon, current)
  {
    var i :| 0 <= i < |current| && current[i] == e;
    assert canon(current[i]).value in Have(canon, current);
  }

  /** Progress: after any of the planned operations, in any order and however often, the
      next plan asks for nothing new, and no subscriber that is still expected was dropped. */
  lemma PartialRunConverges(canon: Canon, expected: set<string>, current: seq<string>, p: ListPlan, ops: seq<Op>, next: ListPlan)
    requires Idempotent(canon) && (forall x :: x in expected ==> canon(x) == Some(x))
    requires IsListPlan(canon, expected, current, p) && FromPlan(p, ops)
    requires IsListPlan(canon, expected, ApplyAll(current, ops), next)
    ensures Inside(next.add, p.add) && Inside(next.remove, p.remove)
    ensures forall e :: e in current && Wanted(canon, expected, e) ==> e in ApplyAll(current, ops)
  {
    var after := ApplyAll(current, ops);
    forall e | e in current && Wanted(canon, expected, e)
      ensures e in after
    {
      SubscribedAfter(canon, expected, current, p, ops, e);
      RemovesAreUnwanted(canon, expected, current, p, e);
    }
    forall e | e in expected && e in Have(canon, current)
      ensures e in Have(canon, after)
    {
      var i :| 0 <= i < |current| && canon(current[i]).Some? && canon(current[i]).value == e;
      HaveMember(canon, after, current[i]);
    }
    forall e | e in next.remove
      ensures e in p.remove
    {
      RemovesAreUnwanted(canon, expected, after, next, e);
      RemovesAreUnwanted(canon, expected, current, p, e);
      SubscribedAfter(canon, expected, current, p, ops, e);
      assert Add(e) in ops ==> e in p.add;
    }
  }

  /** Confluence: once every planned operation ran, in whatever order, nothing is left to
      add or to remove. */
  lemma FullRunIsInSync(canon: Canon, expected: set<string>, current: seq<string>, p: ListPlan, ops: seq<Op>, next: ListPlan)
    requires Idempotent(canon) && (forall x :: x in expected ==> canon(x) == Some(x))
    requires IsListPlan(canon, expected, current, p) && FromPlan(p, ops)
    requires (forall e :: e in p.add ==> Add(e) in ops) && (forall e :: e in p.remove ==> Remove(e) in ops)
    requires IsListPlan(canon, expected, ApplyAll(current, ops), next)
    ensures next.add == [] && next.remove == []
  {
    var after := ApplyAll(current, ops);
    PartialRunConverges(canon, expected, current, p, ops, next);
    forall e | e in p.add
      ensures e !in next.add
    {
      AddsAreNotRemoved(canon, expected, current, p, e);
      SubscribedAfter(canon, expected, current, p, ops, e);
      HaveMember(canon, after, e);
    }
    forall e | e in p.remove
      ensures e !in next.remove
    {
      SubscribedAfter(canon, expected, current, p, ops, e);
      RemovesAreUnwanted(canon, expected, after, next, e);
    }
    Empty(next.add);
    Empty(next.remove);
  }

  lemma Empty<T>(s: seq<T>)
    requires forall e :: e !in s
    ensures s == []
  {
    assert forall e :: e in multiset(s) <==> e in s;
    assert multiset(s) == multiset{};
    assert |multiset(s)| == |s|;
  }

  /** An empty plan means that the subscribers are exactly the expected addresses. */
  lemma EmptyPlanIsInSync(canon: Canon, expected: set<string>, current: seq<string>, p: ListPlan)
    requires IsListPlan(canon, expected, current, p)
    ensures p.add == [] && p.remove == [] <==>
              Have(canon, current) == expected && forall i :: 0 <= i < |current| ==> canon(current[i]).Some?
  {
    if p.add == [] && p.remove == [] {
      forall i | 0 <= i < |current|
        ensures Wanted(canon, expected, current[i])
      {
        RemovesAreUnwanted(canon, expected, current, p, current[i]);
        assert current[i] in current;
      }
      assert forall e :: e in expected ==> e in Have(canon, current);
    }
    if Have(canon, current) == expected && forall i :: 0 <= i < |current| ==> canon(current[i]).Some? {
      forall e
        ensures e !in p.remove
      {
        RemovesAreUnwanted(canon, expected, current, p, e);
        assert e in current ==> Wanted(canon, expected, e) by {
          if e in current {
            HaveMember(canon, current, e);
          }
        }
      }
      Empty(p.add);
      Empty(p.remove);
    }
  }
}
