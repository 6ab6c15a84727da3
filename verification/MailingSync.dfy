/** controllers/mailings.go: applying a reviewed plan, adds before removes, stopping at
    the first failure, and reading the lists back. */
module MailingSync {
  import opened Wrappers
  import opened MailingPlan
  import opened MailingProvider
  import opened MailingConvergence
  import opened MailingReading
  import Strings

  datatype Request = Request(list: string, op: Op)

  function Requests(name: string, ops: seq<Op>): seq<Request> {
    seq(|ops|, i requires 0 <= i < |ops| => Request(name, ops[i]))
  }

  function Adds(emails: seq<string>): seq<Op> {
    seq(|emails|, i requires 0 <= i < |emails| => Add(emails[i]))
  }

  function Removes(emails: seq<string>): seq<Op> {
    seq(|emails|, i requires 0 <= i < |emails| => Remove(emails[i]))
  }

  /** Everything a plan asks for: the adds of both lists, then the removes of both. */
  function Work(p: Plan): seq<Request>
    requires |p.lists| == 2
  {
    Requests(p.lists[0].name, Adds(p.lists[0].add)) + Requests(p.lists[1].name, Adds(p.lists[1].add))
    + Requests(p.lists[0].name, Removes(p.lists[0].remove)) + Requests(p.lists[1].name, Removes(p.lists[1].remove))
  }

  /** The requests are sent in order, up to and including the first one that fails. */
  ghost predicate InOrder(work: seq<Request>, sent: seq<Sent>, failed: bool) {
    && |sent| <= |work|
    && (forall i :: 0 <= i < |sent| ==> Request(sent[i].list, sent[i].op) == work[i])
    && (forall i :: 0 <= i < |sent| - 1 ==> sent[i].accepted)
    && (failed ==> sent != [] && !sent[|sent| - 1].accepted)
    && (!failed ==> |sent| == |work| && (sent != [] ==> sent[|sent| - 1].accepted))
  }

  lemma InOrderThen(a: seq<Request>, b: seq<Request>, sent: seq<Sent>, more: seq<Sent>, failed: bool)
    requires InOrder(a, sent, false) && InOrder(b, more, failed)
    ensures InOrder(a + b, sent + more, failed)
  {
    var all := sent + more;
    forall i | 0 <= i < |all|
      ensures Request(all[i].list, all[i].op) == (a + b)[i]
      ensures i < |all| - 1 ==> all[i].accepted
    {
      if i < |sent| {
        assert all[i] == sent[i];
      } else {
        assert all[i] == more[i - |sent|];
      }
    }
  }

  lemma InOrderStopped(a: seq<Request>, b: seq<Request>, sent: seq<Sent>)
    requires InOrder(a, sent, true)
    ensures InOrder(a + b, sent, true)
  {}

  // ---- Progress of both lists while requests go out ----

  function AcceptedOn(sent: seq<Sent>, list: string): set<Op> {
    set i | 0 <= i < |sent| && sent[i].accepted && sent[i].list == list :: sent[i].op
  }

  /** What the subscribers were when the plan was made. */
  datatype Known = Known(ofMembers: seq<string>, ofBureau: seq<string>)

  ghost predicate BothProgress(p: Plan, known: Known, sent: seq<Sent>, s: Server) {
    && |p.lists| == 2
    && Progress(p.lists[0], known.ofMembers, AcceptedOn(sent, p.lists[0].name), s)
    && Progress(p.lists[1], known.ofBureau, AcceptedOn(sent, p.lists[1].name), s)
  }

  ghost predicate Asked(p: Plan, name: string, op: Op) {
    forall k :: 0 <= k < |p.lists| && p.lists[k].name == name ==> Planned(p.lists[k], op)
  }

  lemma AcceptedOnNext(sent: seq<Sent>, next: Sent, list: string)
    ensures AcceptedOn(sent + [next], list)
         == AcceptedOn(sent, list) + if next.accepted && next.list == list then {next.op} else {}
  {
    var all := sent + [next];
    forall op | op in AcceptedOn(sent, list)
      ensures op in AcceptedOn(all, list)
    {
      var i :| 0 <= i < |sent| && sent[i].accepted && sent[i].list == list && sent[i].op == op;
      assert all[i] == sent[i];
    }
    assert all[|sent|] == next;
    if next.accepted && next.list == list {
      assert next.op in AcceptedOn(all, list);
    }
    forall op | op in AcceptedOn(all, list)
      ensures op in AcceptedOn(sent, list) || (next.accepted && next.list == list && op == next.op)
    {
      var i :| 0 <= i < |all| && all[i].accepted && all[i].list == list && all[i].op == op;
      if i < |sent| {
        assert sent[i] == all[i];
      }
    }
  }

  lemma SendKeepsList(p: ListPlan, known: seq<string>, sent: seq<Sent>, s: Server, w: Weather, name: string, op: Op, ok: bool)
    requires Progress(p, known, AcceptedOn(sent, p.name), s) && (name == p.name ==> Planned(p, op))
    requires ok ==> !w.wire.RequestLost? && Accepts(Settle(s, w.due), name, op)
    ensures Progress(p, known, AcceptedOn(sent + [Sent(name, op, ok)], p.name),
                     if w.wire.RequestLost? then s else Received(Settle(s, w.due), name, op))
  {
    hide Progress, Settle, Received;
    AcceptedOnNext(sent, Sent(name, op, ok), p.name);
    var accepted := AcceptedOn(sent, p.name);
    assert accepted + {} == accepted;
    if !w.wire.RequestLost? {
      SettleKeepsProgress(p, known, accepted, s, w.due);
      ReceivedKeepsProgress(p, known, accepted, Settle(s, w.due), name, op);
    }
  }

  /** One inner loop of SyncMailingLists. */
  method SendEach(client: Client, name: string, ops: seq<Op>, ghost p: Plan, ghost known: Known, ghost start: nat)
    returns (failed: bool)
    requires start <= |client.log| && forall op :: op in ops ==> Asked(p, name, op)
    requires BothProgress(p, known, client.log[start..], client.server.State())
    modifies client, client.server
    ensures client.calls >= old(client.calls) && |client.log| >= |old(client.log)|
    ensures client.log[..|old(client.log)|] == old(client.log)
    ensures InOrder(Requests(name, ops), client.log[|old(client.log)|..], failed)
    ensures BothProgress(p, known, client.log[start..], client.server.State())
  {
    hide Progress, Settle, Received, AcceptedOn;
    failed := false;
    ghost var was := client.log;
    for i := 0 to |ops|
      invariant client.calls >= old(client.calls) && |client.log| == |was| + i && client.log[..|was|] == was
      invariant forall j :: 0 <= j < i ==> client.log[|was| + j] == Sent(name, ops[j], true)
      invariant BothProgress(p, known, client.log[start..], client.server.State())
    {
      ghost var sent, s, w := client.log[start..], client.server.State(), client.weather(client.calls);
      assert ops[i] in ops;
      var ok := client.Send(name, ops[i]);
      SendKeepsList(p.lists[0], known.ofMembers, sent, s, w, name, ops[i], ok);
      SendKeepsList(p.lists[1], known.ofBureau, sent, s, w, name, ops[i], ok);
      assert client.log[start..] == sent + [Sent(name, ops[i], ok)];
      if !ok {
        return true;
      }
    }
  }

  /** A further loop of SyncMailingLists, entered only while nothing failed. */
  method SendNext(client: Client, name: string, ops: seq<Op>, failed: bool, ghost p: Plan, ghost known: Known, ghost start: nat,
                  ghost done: seq<Request>) returns (fails: bool)
    requires start <= |client.log| && forall op :: op in ops ==> Asked(p, name, op)
    requires BothProgress(p, known, client.log[start..], client.server.State())
    requires InOrder(done, client.log[start..], failed)
    modifies client, client.server
    ensures client.calls >= old(client.calls) && |client.log| >= start && client.log[..start] == old(client.log[..start])
    ensures InOrder(done + Requests(name, ops), client.log[start..], fails)
    ensures BothProgress(p, known, client.log[start..], client.server.State())
  {
    hide Progress, InOrder, AcceptedOn, Requests;
    ghost var sent, was := client.log[start..], client.log;
    if failed {
      InOrderStopped(done, Requests(name, ops), sent);
      return true;
    }
    fails := SendEach(client, name, ops, p, known, start);
    InOrderThen(done, Requests(name, ops), sent, client.log[|was|..], fails);
    assert client.log[..start] == client.log[..|was|][..start];
    assert client.log == was + client.log[|was|..];
    assert client.log[start..] == sent + client.log[|was|..];
  }

  lemma StartInOrder()
    ensures InOrder([], [], false)
  {}

  lemma WorkInParts(p: Plan)
    requires |p.lists| == 2
    ensures Work(p) == Requests(p.lists[0].name, Adds(p.lists[0].add)) + Requests(p.lists[1].name, Adds(p.lists[1].add))
                       + Requests(p.lists[0].name, Removes(p.lists[0].remove)) + Requests(p.lists[1].name, Removes(p.lists[1].remove))
  {}

  lemma WorkIsAsked(p: Plan, k: nat)
    requires |p.lists| == 2 && p.lists[0].name != p.lists[1].name && k < 2
    ensures forall op :: op in Adds(p.lists[k].add) ==> Asked(p, p.lists[k].name, op)
    ensures forall op :: op in Removes(p.lists[k].remove) ==> Asked(p, p.lists[k].name, op)
  {}

  /** The loops of SyncMailingLists: adds on both lists, then removes on both. */
  method SendPlan(client: Client, p: Plan, ghost known: Known) returns (failed: bool)
    requires |p.lists| == 2 && p.lists[0].name != p.lists[1].name
    requires BothProgress(p, known, [], client.server.State())
    modifies client, client.server
    ensures client.calls >= old(client.calls) && |client.log| >= |old(client.log)|
    ensures client.log[..|old(client.log)|] == old(client.log)
    ensures InOrder(Work(p), client.log[|old(client.log)|..], failed)
    ensures BothProgress(p, known, client.log[|old(client.log)|..], client.server.State())
  {
    WorkIsAsked(p, 0);
    WorkIsAsked(p, 1);
    WorkInParts(p);
    StartInOrder();
    hide *;
    ghost var start := |client.log|;
    assert client.log[start..] == [];
    var first, second := p.lists[0], p.lists[1];
    ghost var a, b := Requests(first.name, Adds(first.add)), Requests(second.name, Adds(second.add));
    ghost var c := Requests(first.name, Removes(first.remove));
    failed := SendNext(client, first.name, Adds(first.add), false, p, known, start, []);
    assert [] + a == a;
    failed := SendNext(client, second.name, Adds(second.add), failed, p, known, start, a);
    failed := SendNext(client, first.name, Removes(first.remove), failed, p, known, start, a + b);
    failed := SendNext(client, second.name, Removes(second.remove), failed, p, known, start, a + b + c);
  }

  /** No remove is ever sent before every add was accepted. */
  lemma RemovesComeLast(p: Plan, sent: seq<Sent>, failed: bool, i: nat)
    requires |p.lists| == 2 && InOrder(Work(p), sent, failed)
    requires i < |sent| && sent[i].op.Remove?
    ensures forall e :: e in p.lists[0].add ==> Sent(p.lists[0].name, Add(e), true) in sent[..i]
    ensures forall e :: e in p.lists[1].add ==> Sent(p.lists[1].name, Add(e), true) in sent[..i]
  {
    var work := Work(p);
    var n, m := |p.lists[0].add|, |p.lists[1].add|;
    assert i >= n + m by {
      assert forall k :: 0 <= k < n + m ==> work[k].op.Add?;
    }
    forall k | 0 <= k < n
      ensures Sent(p.lists[0].name, Add(p.lists[0].add[k]), true) in sent[..i]
    {
      assert work[k] == Request(p.lists[0].name, Add(p.lists[0].add[k]));
      assert sent[..i][k] == sent[k];
    }
    forall k | 0 <= k < m
      ensures Sent(p.lists[1].name, Add(p.lists[1].add[k]), true) in sent[..i]
    {
      assert work[n + k] == Request(p.lists[1].name, Add(p.lists[1].add[k]));
      assert sent[..i][n + k] == sent[n + k];
    }
  }

  /** When nothing failed, the provider accepted every operation of the plan. */
  lemma AllAccepted(p: Plan, sent: seq<Sent>, k: nat)
    requires |p.lists| == 2 && k < 2 && InOrder(Work(p), sent, false)
    ensures forall e :: e in p.lists[k].add ==> Add(e) in AcceptedOn(sent, p.lists[k].name)
    ensures forall e :: e in p.lists[k].remove ==> Remove(e) in AcceptedOn(sent, p.lists[k].name)
  {
    var work, l := Work(p), p.lists[k];
    var n, m, r := |p.lists[0].add|, |p.lists[1].add|, |p.lists[0].remove|;
    forall i | 0 <= i < |l.add|
      ensures Add(l.add[i]) in AcceptedOn(sent, l.name)
    {
      var at := if k == 0 then i else n + i;
      assert work[at] == Request(l.name, Add(l.add[i]));
      assert sent[at].accepted;
    }
    forall i | 0 <= i < |l.remove|
      ensures Remove(l.remove[i]) in AcceptedOn(sent, l.name)
    {
      var at := n + m + if k == 0 then i else r + i;
      assert work[at] == Request(l.name, Remove(l.remove[i]));
      assert sent[at].accepted;
    }
  }

  // ---- The whole synchronisation ----

  /** How the transaction starts, and whether the advisory lock is free. */
  datatype Gate = CannotStart | LockFails | Held | Free

  /** The state of the provider when the second reading starts, and its first exchange. */
  datatype Again = Again(server: Server, first: nat)

  /** The first reading can be made. */
  ghost predicate MayRead(gate: Gate, config: Result<Option<Config>>, reachable: bool, members: Result<seq<Member>>,
                          s: Server, weather: nat -> Weather, first: nat) {
    && gate == Free && config.Ok? && config.value.Some? && reachable && members.Ok?
    && BothReadable(s, config.value.value, weather, first)
  }

  lemma MayReadIs(gate: Gate, config: Result<Option<Config>>, reachable: bool, members: Result<seq<Member>>,
                  s: Server, weather: nat -> Weather, first: nat)
    ensures MayRead(gate, config, reachable, members, s, weather, first)
       <==> gate == Free && config.Ok? && config.value.Some? && reachable && members.Ok?
            && BothReadable(s, config.value.value, weather, first)
  {}

  datatype SyncResult = SyncResult(plan: Option<Plan>, verified: bool, partial: bool)

  /** `membersBefore` and `membersAfter` are the member rows at the two readings;
      `commits` says whether the closing commit succeeds. `canon` and `token` are given. */
  method SyncMailingLists(client: Client, canon: Canon, token: Token, gate: Gate, config: Result<Option<Config>>, reachable: bool,
                          expected: string, membersBefore: Result<seq<Member>>, membersAfter: Result<seq<Member>>, commits: bool)
    returns (r: Result<SyncResult>, ghost before: Plan, ghost failed: bool, ghost again: Again)
    requires Idempotent(canon)
    requires config.Ok? && config.value.Some? ==> config.value.value.members != config.value.value.bureau
    modifies client, client.server
    ensures |client.log| >= |old(client.log)| && client.log[..|old(client.log)|] == old(client.log)
    ensures r.Err? ==> client.log == old(client.log)
    ensures var readable := MayRead(gate, config, reachable, membersBefore, old(client.server.State()), client.weather, old(client.calls));
            && (r.Ok? <==> readable && before.canApply && before.token == expected && expected != "")
            && (readable ==>
                  && IsReading(canon, config.value.value, membersBefore.value, old(client.server.State()), client.weather,
                               old(client.calls), before)
                  && HasToken(token, config.value.value, membersBefore.value, before))
    ensures r.Ok? ==> InOrder(Work(before), client.log[|old(client.log)|..], failed)
    ensures r.Ok? ==> BothProgress(before, KnownAt(config.value.value, old(client.server.State()), client.weather, old(client.calls)),
                                   client.log[|old(client.log)|..], client.server.State())
    ensures r.Ok? && r.value.verified ==> membersAfter.Ok? && InSync(canon, config.value.value, membersAfter.value, client.server.State())
    ensures r.Ok? ==> client.server.State() == Passed(again.server, client.weather, again.first, client.calls)
    ensures r.Ok? ==> BothProgress(before, KnownAt(config.value.value, old(client.server.State()), client.weather, old(client.calls)),
                                   client.log[|old(client.log)|..], again.server)
    ensures r.Ok? ==>
              (r.value.plan.Some? <==>
               commits && membersAfter.Ok? && BothReadable(again.server, config.value.value, client.weather, again.first))
    ensures r.Ok? && r.value.plan.Some? ==>
              && IsReading(canon, config.value.value, membersAfter.value, again.server, client.weather, again.first, r.value.plan.value)
              && (r.value.verified <==>
                  ShownInSync(canon, config.value.value, membersAfter.value,
                              Shown(again.server, config.value.value, client.weather, again.first)))
              && (r.value.partial <==> failed && !r.value.verified)
    ensures r.Ok? && r.value.plan.None? ==> r.value.partial && !r.value.verified
  {
    hide *;
    MayReadIs(gate, config, reachable, membersBefore, client.server.State(), client.weather, client.calls);
    before, failed, again := Plan(false, "", [], [], "", false), false, Again(client.server.State(), client.calls);
    match gate {
      case CannotStart => return Err("transaction"), before, failed, again;
      case LockFails => return Err("transaction"), before, failed, again;
      case Held => return Err("already synchronising"), before, failed, again;
      case Free =>
    }
    if config.Err? || config.value.None? {
      return Err("configuration"), before, failed, again;
    }
    var cfg := config.value.value;
    if !reachable {
      return Err("client"), before, failed, again;
    }
    ghost var s, first := client.server.State(), client.calls;
    var reading := ReadPlan(client, canon, token, cfg, membersBefore);
    if reading.Err? {
      return Err(reading.message), before, failed, again;
    }
    var plan := reading.value;
    before := plan;
    if expected == "" || expected != plan.token {
      return Err("the reviewed plan is out of date"), before, failed, again;
    }
    if !plan.canApply {
      return Err("nothing to apply"), before, failed, again;
    }
    ReadingStartsProgress(canon, cfg, membersBefore.value, s, client.weather, first, plan);
    var stopped := SendPlan(client, plan, KnownAt(cfg, s, client.weather, first));
    failed := stopped;
    ghost var middle, second := client.server.State(), client.calls;
    again := Again(middle, second);
    var reread := ReadPlan(client, canon, token, cfg, membersAfter);
    BothPassed(plan, KnownAt(cfg, s, client.weather, first), client.log[|old(client.log)|..], middle, client.weather, second, client.calls);
    var result := SyncResult(None, false, true);
    if reread.Ok? {
      var verified := MailingVerified(reread.value);
      VerifiedIff(canon, cfg, membersAfter.value, middle, client.weather, second, reread.value);
      if verified {
        NothingToDoIsInSync(canon, cfg, membersAfter.value, middle, client.weather, second, reread.value);
      }
      result := SyncResult(Some(reread.value), verified, stopped && !verified);
    }
    if !commits {
      result := SyncResult(None, false, true);
    }
    return Ok(result), before, failed, again;
  }

  lemma BothPassed(p: Plan, known: Known, sent: seq<Sent>, s: Server, weather: nat -> Weather, first: nat, last: nat)
    requires BothProgress(p, known, sent, s)
    ensures BothProgress(p, known, sent, Passed(s, weather, first, last))
  {
    hide Progress, Passed, AcceptedOn;
    PassedKeepsProgress(p.lists[0], known.ofMembers, AcceptedOn(sent, p.lists[0].name), s, weather, first, last);
    PassedKeepsProgress(p.lists[1], known.ofBureau, AcceptedOn(sent, p.lists[1].name), s, weather, first, last);
  }

  function KnownAt(cfg: Config, s: Server, weather: nat -> Weather, first: nat): Known {
    var shown := Shown(s, cfg, weather, first);
    Known(Get(shown.0, cfg.members), Get(shown.0, cfg.bureau))
  }

  lemma ReadingStartsProgress(canon: Canon, cfg: Config, members: seq<Member>, s: Server, weather: nat -> Weather, first: nat, p: Plan)
    requires Idempotent(canon) && cfg.members != cfg.bureau && IsReading(canon, cfg, members, s, weather, first, p) && p.canApply
    ensures |p.lists| == 2 && p.lists[0].name != p.lists[1].name
    ensures BothProgress(p, KnownAt(cfg, s, weather, first), [], Passed(s, weather, first, first + 4))
  {
    hide Passed, TasksOf, Progress, Idempotent, Expected, IsListPlan, Shown;
    QuietReading(canon, cfg, members, s, weather, first, p);
    ExpectedIsCanonical(canon, members, false);
    ExpectedIsCanonical(canon, members, true);
    var known := KnownAt(cfg, s, weather, first);
    var end := Passed(s, weather, first, first + 4);
    PlanStartsProgress(canon, Expected(canon, members, false), known.ofMembers, p.lists[0], end);
    PlanStartsProgress(canon, Expected(canon, members, true), known.ofBureau, p.lists[1], end);
    assert AcceptedOn([], p.lists[0].name) == {} && AcceptedOn([], p.lists[1].name) == {};
  }

  // ---- What a run leaves for the next one ----

  lemma ListLater(canon: Canon, expected: set<string>, current: seq<string>, p: ListPlan, sent: seq<Sent>, failed: bool, s: Server,
                  weather: nat -> Weather, first: nat, at: nat, next: ListPlan)
    requires IsListPlan(canon, expected, current, p) && (forall x :: x in expected ==> canon(x) == Some(x))
    requires Progress(p, current, AcceptedOn(sent, p.name), s)
    requires !failed ==> (forall e :: e in p.add ==> Add(e) in AcceptedOn(sent, p.name))
                         && (forall e :: e in p.remove ==> Remove(e) in AcceptedOn(sent, p.name))
    requires first <= at
    requires multiset(next.pendingTasks) == multiset(TasksOf(Passed(s, weather, first, at + 1).tasks, p.name))
    requires IsListPlan(canon, expected, Strings.Sort(Get(Passed(s, weather, first, at + 2).lists, p.name)), next)
    ensures Inside(next.add, p.add) && Inside(next.remove, p.remove)
    ensures !failed && next.pendingTasks == [] ==> next.add == [] && next.remove == []
  {
    hide IsListPlan, Progress, Passed, TasksOf, Strings.Sort;
    var accepted := AcceptedOn(sent, p.name);
    var read := Passed(s, weather, first, at + 2);
    PassedKeepsProgress(p, current, accepted, s, weather, first, at + 2);
    ProgressOnlyShrinksPlans(canon, expected, current, p, accepted, read, Strings.Sort(Get(read.lists, p.name)), next);
    if !failed && next.pendingTasks == [] {
      NoneLeft(next.pendingTasks, TasksOf(Passed(s, weather, first, at + 1).tasks, p.name));
      PassedInTwo(s, weather, first, at + 1, at + 2);
      QuietStays(Passed(s, weather, first, at + 1), weather, at + 1, at + 2, p.name);
      AcceptedPlanLands(canon, expected, current, p, accepted, read, Strings.Sort(Get(read.lists, p.name)), next);
    }
  }

  /** What each list plan of a reading was computed from. */
  lemma ReadingParts(canon: Canon, cfg: Config, members: seq<Member>, s: Server, weather: nat -> Weather, first: nat, p: Plan)
    requires cfg.members != cfg.bureau && IsReading(canon, cfg, members, s, weather, first, p)
    ensures |p.lists| == 2 && p.lists[0].name == cfg.members && p.lists[1].name == cfg.bureau
    ensures var known := KnownAt(cfg, s, weather, first);
            && known.ofMembers == Strings.Sort(Get(Passed(s, weather, first, first + 2).lists, cfg.members))
            && known.ofBureau == Strings.Sort(Get(Passed(s, weather, first, first + 4).lists, cfg.bureau))
            && IsListPlan(canon, Expected(canon, members, false), known.ofMembers, p.lists[0])
            && IsListPlan(canon, Expected(canon, members, true), known.ofBureau, p.lists[1])
    ensures multiset(p.lists[0].pendingTasks) == multiset(TasksOf(Passed(s, weather, first, first + 1).tasks, cfg.members))
    ensures multiset(p.lists[1].pendingTasks) == multiset(TasksOf(Passed(s, weather, first, first + 3).tasks, cfg.bureau))
  {
    hide Passed, TasksOf, Expected, IsListPlan, Strings.Sort;
  }

  /** Any later plan for the same members, whether the run was complete, stopped or
      interrupted by lost answers, asks for nothing that the reviewed plan did not ask
      for; and after a complete run it asks for nothing once no task is shown. */
  lemma LaterPlansShrink(canon: Canon, cfg: Config, members: seq<Member>, s0: Server, weather: nat -> Weather, first: nat,
                         before: Plan, sent: seq<Sent>, failed: bool, s: Server, second: nat, next: Plan)
    requires Idempotent(canon) && cfg.members != cfg.bureau
    requires IsReading(canon, cfg, members, s0, weather, first, before) && InOrder(Work(before), sent, failed)
    requires BothProgress(before, KnownAt(cfg, s0, weather, first), sent, s)
    requires IsReading(canon, cfg, members, s, weather, second, next)
    ensures |next.lists| == 2
    ensures Inside(next.lists[0].add, before.lists[0].add) && Inside(next.lists[0].remove, before.lists[0].remove)
    ensures Inside(next.lists[1].add, before.lists[1].add) && Inside(next.lists[1].remove, before.lists[1].remove)
    ensures forall l :: !failed && l in next.lists && l.pendingTasks == [] ==> l.add == [] && l.remove == []
  {
    hide *;
    ExpectedIsCanonical(canon, members, false);
    ExpectedIsCanonical(canon, members, true);
    ReadingParts(canon, cfg, members, s0, weather, first, before);
    ReadingParts(canon, cfg, members, s, weather, second, next);
    var known := KnownAt(cfg, s0, weather, first);
    BothParts(before, known, sent, s);
    if !failed {
      AllAccepted(before, sent, 0);
      AllAccepted(before, sent, 1);
    }
    ListLater(canon, Expected(canon, members, false), known.ofMembers, before.lists[0], sent, failed, s, weather, second, second,
              next.lists[0]);
    ListLater(canon, Expected(canon, members, true), known.ofBureau, before.lists[1], sent, failed, s, weather, second, second + 2,
              next.lists[1]);
  }

  lemma BothParts(p: Plan, known: Known, sent: seq<Sent>, s: Server)
    requires BothProgress(p, known, sent, s)
    ensures |p.lists| == 2
    ensures Progress(p.lists[0], known.ofMembers, AcceptedOn(sent, p.lists[0].name), s)
    ensures Progress(p.lists[1], known.ofBureau, AcceptedOn(sent, p.lists[1].name), s)
  {
    hide Progress, AcceptedOn;
  }

  /** The hash tells its inputs apart. */
  ghost predicate TellsApart(token: Token) {
    forall p: Plan, m: seq<Member>, c: Config, p': Plan, m': seq<Member>, c': Config ::
      token(p, m, c) == token(p', m', c') ==> p == p' && m == m' && c == c'
  }

  /** What is applied is what was reviewed: a synchronisation only goes on with the token
      of an earlier preview when the plan, the members and the configuration are the same,
      and so are all the requests it will send. */
  lemma AppliedIsReviewed(token: Token, cfg: Config, members: seq<Member>, reviewed: Plan,
                          cfg': Config, members': seq<Member>, before: Plan)
    requires TellsApart(token) && HasToken(token, cfg, members, reviewed) && HasToken(token, cfg', members', before)
    requires before.token == reviewed.token
    ensures before == reviewed && cfg' == cfg && multiset(members') == multiset(members)
    ensures |reviewed.lists| == 2 ==> Work(before) == Work(reviewed)
  {
    assert token(reviewed.(token := ""), Strings.SortBy(MemberId, members), cfg)
        == token(before.(token := ""), Strings.SortBy(MemberId, members'), cfg');
    assert before == before.(token := "").(token := before.token);
    assert reviewed == reviewed.(token := "").(token := reviewed.token);
  }
}
