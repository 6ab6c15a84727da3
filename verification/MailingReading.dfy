/** controllers/mailings.go: reading a plan from the provider, and what a plan without any
    difference says about the lists. */
module MailingReading {
  import opened Wrappers
  import opened MailingPlan
  import opened MailingProvider
  import opened MailingConvergence
  import Strings

  // ---- Reading a plan ----

  function Both<T>(cfg: Config, ofMembers: T, ofBureau: T): map<string, T> {
    map[cfg.members := ofMembers, cfg.bureau := ofBureau]
  }

  /** The subscribers and tasks that the four requests of one reading show. */
  function Shown(s: Server, cfg: Config, weather: nat -> Weather, first: nat): (map<string, seq<string>>, map<string, seq<int>>) {
    var listed := Passed(s, weather, first, first + 2).lists;
    var bureau := Passed(s, weather, first, first + 4).lists;
    (Both(cfg, Strings.Sort(Get(listed, cfg.members)), Strings.Sort(Get(bureau, cfg.bureau))),
     Both(cfg, TasksOf(Passed(s, weather, first, first + 1).tasks, cfg.members),
          TasksOf(Passed(s, weather, first, first + 3).tasks, cfg.bureau)))
  }

  ghost predicate IsReading(canon: Canon, cfg: Config, members: seq<Member>, s: Server, weather: nat -> Weather, first: nat, p: Plan) {
    var shown := Shown(s, cfg, weather, first);
    IsPlan(canon, cfg, members, shown.0, shown.1, p)
  }

  lemma {:induction false} NamesStay(lists: map<string, seq<string>>, tasks: seq<Task>, due: set<int>)
    ensures lists.Keys <= Executed(lists, tasks, due).Keys
    decreases |tasks|
  {
    if tasks != [] {
      NamesStay(lists, tasks[..|tasks| - 1], due);
    }
  }

  lemma {:induction false} PassedInTwo(s: Server, weather: nat -> Weather, first: nat, middle: nat, last: nat)
    requires first <= middle <= last
    ensures Passed(Passed(s, weather, first, middle), weather, middle, last) == Passed(s, weather, first, last)
    decreases last
  {
    if middle < last {
      PassedInTwo(s, weather, first, middle, last - 1);
    }
  }

  lemma PassedNothing(s: Server, weather: nat -> Weather, n: nat)
    ensures Passed(s, weather, n, n) == s
  {}

  lemma ShownIs(s: Server, cfg: Config, weather: nat -> Weather, first: nat, ofMembers: (seq<int>, seq<string>),
                ofBureau: (seq<int>, seq<string>))
    requires cfg.members in Passed(s, weather, first, first + 2).lists && cfg.bureau in Passed(s, weather, first, first + 4).lists
    requires ofMembers.0 == TasksOf(Passed(s, weather, first, first + 1).tasks, cfg.members)
    requires ofMembers.1 == Strings.Sort(Passed(s, weather, first, first + 2).lists[cfg.members])
    requires ofBureau.0 == TasksOf(Passed(s, weather, first, first + 3).tasks, cfg.bureau)
    requires ofBureau.1 == Strings.Sort(Passed(s, weather, first, first + 4).lists[cfg.bureau])
    ensures Shown(s, cfg, weather, first) == (Both(cfg, ofMembers.1, ofBureau.1), Both(cfg, ofMembers.0, ofBureau.0))
  {
    hide Passed, TasksOf, Strings.Sort;
  }

  lemma IsReadingIs(canon: Canon, cfg: Config, members: seq<Member>, s: Server, weather: nat -> Weather, first: nat,
                    current: map<string, seq<string>>, pending: map<string, seq<int>>, p: Plan)
    requires Shown(s, cfg, weather, first) == (current, pending) && IsPlan(canon, cfg, members, current, pending, p)
    ensures IsReading(canon, cfg, members, s, weather, first, p)
  {
    hide Shown, IsPlan;
  }

  /** Two requests about a known list from now on are both answered. */
  predicate Readable(s: Server, weather: nat -> Weather, first: nat, name: string) {
    && weather(first).wire.Answered? && weather(first + 1).wire.Answered?
    && name in Passed(s, weather, first, first + 1).lists
  }

  predicate BothReadable(s: Server, cfg: Config, weather: nat -> Weather, first: nat) {
    && Readable(s, weather, first, cfg.members)
    && Readable(Passed(s, weather, first, first + 2), weather, first + 2, cfg.bureau)
  }

  lemma ReadableIs(s: Server, cfg: Config, weather: nat -> Weather, first: nat)
    ensures BothReadable(s, cfg, weather, first)
       <==> Readable(s, weather, first, cfg.members) && Readable(Passed(s, weather, first, first + 2), weather, first + 2, cfg.bureau)
  {}

  /** One turn of the loop of mailingPlan: the tasks of a list first, then its subscribers. */
  method ReadList(client: Client, name: string) returns (r: Result<(seq<int>, seq<string>)>)
    modifies client, client.server
    ensures client.calls >= old(client.calls) && client.log == old(client.log)
    ensures client.server.State() == Passed(old(client.server.State()), client.weather, old(client.calls), client.calls)
    ensures r.Ok? <==> Readable(old(client.server.State()), client.weather, old(client.calls), name)
    ensures r.Ok? ==> client.calls == old(client.calls) + 2 && name in client.server.State().lists
    ensures r.Ok? ==> r.value.0 == TasksOf(Passed(old(client.server.State()), client.weather, old(client.calls), old(client.calls) + 1).tasks, name)
    ensures r.Ok? ==> r.value.1 == Strings.Sort(client.server.State().lists[name])
    ensures old(client.server.State()).lists.Keys <= client.server.State().lists.Keys
  {
    ghost var s0 := client.server.State();
    NamesStay(s0.lists, s0.tasks, client.weather(client.calls).due);
    var tasks := client.Pending(name);
    if tasks.Err? {
      return Err("tasks cannot be checked");
    }
    ghost var s1 := client.server.State();
    assert s1 == Passed(s0, client.weather, old(client.calls), client.calls);
    NamesStay(s1.lists, s1.tasks, client.weather(client.calls).due);
    var subscribers := client.Subscribers(name);
    if subscribers.Err? {
      return Err("subscribers cannot be read");
    }
    return Ok((tasks.value, subscribers.value));
  }

  /** mailingPlan. */
  method ReadPlan(client: Client, canon: Canon, token: Token, cfg: Config, members: Result<seq<Member>>) returns (r: Result<Plan>)
    requires cfg.members != cfg.bureau
    modifies client, client.server
    ensures client.calls >= old(client.calls) && client.log == old(client.log)
    ensures client.server.State() == Passed(old(client.server.State()), client.weather, old(client.calls), client.calls)
    ensures r.Ok? <==> members.Ok? && BothReadable(old(client.server.State()), cfg, client.weather, old(client.calls))
    ensures r.Ok? ==> client.calls == old(client.calls) + 4
    ensures r.Ok? ==> cfg.members in client.server.State().lists && cfg.bureau in client.server.State().lists
    ensures r.Ok? ==> IsReading(canon, cfg, members.value, old(client.server.State()), client.weather, old(client.calls), r.value)
    ensures r.Ok? ==> HasToken(token, cfg, members.value, r.value)
  {
    hide *;
    ghost var s, first := client.server.State(), client.calls;
    ReadableIs(s, cfg, client.weather, first);
    if members.Err? {
      PassedNothing(s, client.weather, first);
      return Err(members.message);
    }
    var ofMembers := ReadList(client, cfg.members);
    if ofMembers.Err? {
      return Err(ofMembers.message);
    }
    ghost var middle := client.server.State();
    var ofBureau := ReadList(client, cfg.bureau);
    PassedInTwo(s, client.weather, first, first + 2, client.calls);
    if ofBureau.Err? {
      return Err(ofBureau.message);
    }
    PassedInTwo(s, client.weather, first, first + 2, first + 3);
    var current := Both(cfg, ofMembers.value.1, ofBureau.value.1);
    var pending := Both(cfg, ofMembers.value.0, ofBureau.value.0);
    ShownIs(s, cfg, client.weather, first, ofMembers.value, ofBureau.value);
    var p := BuildPlan(canon, token, cfg, members.value, current, pending);
    IsReadingIs(canon, cfg, members.value, s, client.weather, first, current, pending, p);
    return Ok(p);
  }

  // ---- A quiet list ----

  lemma {:induction false} QuietUnchanged(lists: map<string, seq<string>>, tasks: seq<Task>, due: set<int>, name: string)
    requires forall t :: t in tasks ==> t.list != name
    ensures Get(Executed(lists, tasks, due), name) == Get(lists, name)
    ensures forall t :: t in Left(tasks, due) ==> t.list != name
    decreases |tasks|
  {
    if tasks != [] {
      var n := |tasks| - 1;
      assert forall t :: t in tasks[..n] ==> t in tasks;
      QuietUnchanged(lists, tasks[..n], due, name);
      assert tasks[n] in tasks;
    }
  }

  /** A list without tasks keeps its subscribers, and stays without tasks, as long as
      nobody sends anything. */
  lemma {:induction false} QuietStays(s: Server, weather: nat -> Weather, first: nat, last: nat, name: string)
    requires TasksOf(s.tasks, name) == []
    ensures TasksOf(Passed(s, weather, first, last).tasks, name) == []
    ensures Get(Passed(s, weather, first, last).lists, name) == Get(s.lists, name)
    decreases last
  {
    if first < last {
      QuietStays(s, weather, first, last - 1, name);
      var before := Passed(s, weather, first, last - 1);
      NoTasks(before.tasks, name);
      QuietUnchanged(before.lists, before.tasks, weather(last - 1).due, name);
      NoTasks(Left(before.tasks, weather(last - 1).due), name);
    }
  }

  lemma NoneLeft(a: seq<int>, b: seq<int>)
    requires multiset(a) == multiset(b) && a == []
    ensures b == []
  {
    assert |multiset(b)| == |b|;
  }

  /** Because tasks are read before subscribers, a reading that shows no task shows the
      subscribers as they still are when the reading ends. */
  lemma QuietReading(canon: Canon, cfg: Config, members: seq<Member>, s: Server, weather: nat -> Weather, first: nat, p: Plan)
    requires cfg.members != cfg.bureau && IsReading(canon, cfg, members, s, weather, first, p)
    requires p.lists[0].pendingTasks == [] && p.lists[1].pendingTasks == []
    ensures var end := Passed(s, weather, first, first + 4);
            var shown := Shown(s, cfg, weather, first);
            && TasksOf(end.tasks, cfg.members) == [] && TasksOf(end.tasks, cfg.bureau) == []
            && Get(shown.0, cfg.members) == Strings.Sort(Get(end.lists, cfg.members))
            && Get(shown.0, cfg.bureau) == Strings.Sort(Get(end.lists, cfg.bureau))
  {
    hide Passed, TasksOf, Strings.Sort, IsListPlan, Expected;
    var shown := Shown(s, cfg, weather, first);
    NoneLeft(p.lists[0].pendingTasks, Get(shown.1, cfg.members));
    NoneLeft(p.lists[1].pendingTasks, Get(shown.1, cfg.bureau));
    PassedInTwo(s, weather, first, first + 1, first + 2);
    PassedInTwo(s, weather, first, first + 1, first + 4);
    PassedInTwo(s, weather, first, first + 3, first + 4);
    QuietStays(Passed(s, weather, first, first + 1), weather, first + 1, first + 2, cfg.members);
    QuietStays(Passed(s, weather, first, first + 1), weather, first + 1, first + 4, cfg.members);
    QuietStays(Passed(s, weather, first, first + 3), weather, first + 3, first + 4, cfg.bureau);
  }

  /** What one reading showed: no task of either list, exactly the expected addresses, and
      an address of every member. */
  ghost predicate ShownInSync(canon: Canon, cfg: Config, members: seq<Member>,
                              shown: (map<string, seq<string>>, map<string, seq<int>>)) {
    && Get(shown.1, cfg.members) == [] && Get(shown.1, cfg.bureau) == []
    && OnlyExpected(canon, Expected(canon, members, false), Get(shown.0, cfg.members))
    && OnlyExpected(canon, Expected(canon, members, true), Get(shown.0, cfg.bureau))
    && forall i :: 0 <= i < |members| ==> canon(members[i].email).Some?
  }

  ghost predicate OnlyExpected(canon: Canon, expected: set<string>, subscribers: seq<string>) {
    Have(canon, subscribers) == expected && forall i :: 0 <= i < |subscribers| ==> canon(subscribers[i]).Some?
  }

  lemma {:induction false} NobodyInvalid(canon: Canon, members: seq<Member>)
    ensures Invalid(canon, members) == [] <==> forall i :: 0 <= i < |members| ==> canon(members[i].email).Some?
  {
    if members != [] {
      var n := |members| - 1;
      NobodyInvalid(canon, members[..n]);
      if forall i :: 0 <= i < n ==> canon(members[..n][i].email).Some? {
        assert forall i :: 0 <= i < n ==> members[i] == members[..n][i];
      }
    }
  }

  lemma SameNone<T>(a: seq<T>, b: seq<T>)
    requires multiset(a) == multiset(b)
    ensures a == [] <==> b == []
  {
    assert |multiset(a)| == |a| && |multiset(b)| == |b|;
  }

  /** The exact condition of mailingVerified, in terms of what was read. */
  lemma VerifiedIff(canon: Canon, cfg: Config, members: seq<Member>, s: Server, weather: nat -> Weather, first: nat, p: Plan)
    requires cfg.members != cfg.bureau && IsReading(canon, cfg, members, s, weather, first, p)
    ensures NothingToDo(p) <==> ShownInSync(canon, cfg, members, Shown(s, cfg, weather, first))
  {
    hide Passed, TasksOf, Strings.Sort, IsListPlan, Expected, Shown, Have, Invalid;
    var shown := Shown(s, cfg, weather, first);
    SameNone(p.invalid, Invalid(canon, members));
    NobodyInvalid(canon, members);
    SameNone(p.lists[0].pendingTasks, Get(shown.1, cfg.members));
    SameNone(p.lists[1].pendingTasks, Get(shown.1, cfg.bureau));
    EmptyPlanIsInSync(canon, Expected(canon, members, false), Get(shown.0, cfg.members), p.lists[0]);
    EmptyPlanIsInSync(canon, Expected(canon, members, true), Get(shown.0, cfg.bureau), p.lists[1]);
  }

  predicate NothingToDo(p: Plan) {
    p.configured && p.invalid == [] && forall i :: 0 <= i < |p.lists| ==> p.lists[i].add == [] && p.lists[i].remove == [] && p.lists[i].pendingTasks == []
  }

  /** No task is outstanding and the subscribers are exactly the expected addresses. */
  ghost predicate ListInSync(canon: Canon, expected: set<string>, name: string, s: Server) {
    && TasksOf(s.tasks, name) == []
    && Have(canon, Get(s.lists, name)) == expected
    && forall e :: e in Get(s.lists, name) ==> canon(e).Some?
  }

  ghost predicate InSync(canon: Canon, cfg: Config, members: seq<Member>, s: Server) {
    && ListInSync(canon, Expected(canon, members, false), cfg.members, s)
    && ListInSync(canon, Expected(canon, members, true), cfg.bureau, s)
  }

  lemma SameAddresses(canon: Canon, a: seq<string>, b: seq<string>)
    requires forall e :: e in a ==> e in b
    ensures Have(canon, a) <= Have(canon, b)
  {
    forall x | x in Have(canon, a)
      ensures x in Have(canon, b)
    {
      var i :| 0 <= i < |a| && canon(a[i]).Some? && canon(a[i]).value == x;
      HaveMember(canon, b, a[i]);
    }
  }

  lemma NothingToDoIsListInSync(canon: Canon, expected: set<string>, p: ListPlan, s: Server, name: string)
    requires IsListPlan(canon, expected, Strings.Sort(Get(s.lists, name)), p) && p.add == [] && p.remove == []
    requires TasksOf(s.tasks, name) == []
    ensures ListInSync(canon, expected, name, s)
  {
    var now := Get(s.lists, name);
    EmptyPlanIsInSync(canon, expected, Strings.Sort(now), p);
    SameAddresses(canon, now, Strings.Sort(now));
    SameAddresses(canon, Strings.Sort(now), now);
  }

  /** What mailingVerified sees is what there is. */
  lemma NothingToDoIsInSync(canon: Canon, cfg: Config, members: seq<Member>, s: Server, weather: nat -> Weather, first: nat, p: Plan)
    requires cfg.members != cfg.bureau && IsReading(canon, cfg, members, s, weather, first, p) && NothingToDo(p)
    ensures InSync(canon, cfg, members, Passed(s, weather, first, first + 4))
  {
    hide Passed, TasksOf, Strings.Sort, IsListPlan, Expected, Shown;
    QuietReading(canon, cfg, members, s, weather, first, p);
    var end := Passed(s, weather, first, first + 4);
    NothingToDoIsListInSync(canon, Expected(canon, members, false), p.lists[0], end, cfg.members);
    NothingToDoIsListInSync(canon, Expected(canon, members, true), p.lists[1], end, cfg.bureau);
  }

  method MailingVerified(p: Plan) returns (verified: bool)
    ensures verified <==> NothingToDo(p)
  {
    if !p.configured || |p.invalid| > 0 {
      return false;
    }
    for i := 0 to |p.lists|
      invariant forall j :: 0 <= j < i ==> p.lists[j].add == [] && p.lists[j].remove == [] && p.lists[j].pendingTasks == []
    {
      if |p.lists[i].add| + |p.lists[i].remove| + |p.lists[i].pendingTasks| > 0 {
        return false;
      }
    }
    return true;
  }

  const UNCONFIGURED := Plan(false, "", [], [], "", false)

  lemma NothingConfigured()
    ensures var p := UNCONFIGURED; !p.configured && p.lists == [] && p.invalid == [] && !p.canApply && !NothingToDo(p)
  {}

  lemma ReadingIsConfigured(canon: Canon, cfg: Config, members: seq<Member>, s: Server, weather: nat -> Weather, first: nat, p: Plan)
    requires IsReading(canon, cfg, members, s, weather, first, p)
    ensures p.configured
  {
    hide Shown, IsListPlan;
  }

  /** PreviewMailingLists: without configuration, a plan that says so. */
  method PreviewMailingLists(client: Client, canon: Canon, token: Token, config: Result<Option<Config>>, reachable: bool,
                             members: Result<seq<Member>>) returns (r: Result<Plan>)
    requires config.Ok? && config.value.Some? ==> config.value.value.members != config.value.value.bureau
    modifies client, client.server
    ensures client.log == old(client.log)
    ensures config.Err? || (config.value.Some? && !reachable) ==> r.Err? && client.calls == old(client.calls)
    ensures config.Ok? && config.value.None? ==>
              && r.Ok? && !r.value.configured && r.value.lists == [] && r.value.invalid == [] && !r.value.canApply
              && !NothingToDo(r.value) && client.calls == old(client.calls)
    ensures config.Ok? && config.value.Some? && reachable ==>
              (r.Ok? <==> members.Ok? && BothReadable(old(client.server.State()), config.value.value, client.weather, old(client.calls)))
    ensures r.Ok? && config.value.Some? ==> r.value.configured
    ensures r.Ok? && r.value.configured ==>
              && config.Ok? && config.value.Some? && members.Ok?
              && IsReading(canon, config.value.value, members.value, old(client.server.State()), client.weather, old(client.calls), r.value)
              && HasToken(token, config.value.value, members.value, r.value)
  {
    hide *;
    NothingConfigured();
    if config.Err? {
      return Err("configuration");
    }
    if config.value.None? {
      return Ok(UNCONFIGURED);
    }
    if !reachable {
      return Err("client");
    }
    ghost var s, first := client.server.State(), client.calls;
    r := ReadPlan(client, canon, token, config.value.value, members);
    if r.Ok? {
      ReadingIsConfigured(canon, config.value.value, members.value, s, client.weather, first, r.value);
    }
  }

  /** Subscribers first and tasks second would not do: a task that completes in between is
      no longer shown, and its subscriber not yet. */
  lemma ReverseOrderIsStale(weather: nat -> Weather, name: string, email: string)
    requires weather(0) == Weather({}, Answered) && weather(1) == Weather({1}, Answered)
    ensures var s := Server(map[name := []], [Task(1, name, Add(email))], 1);
            && Get(Passed(s, weather, 0, 1).lists, name) == []
            && TasksOf(Passed(s, weather, 0, 2).tasks, name) == []
            && Get(Passed(s, weather, 0, 2).lists, name) == [email]
  {
    var t := Task(1, name, Add(email));
    var s := Server(map[name := []], [t], 1);
    SettleOne(s, t, {});
    SettleOne(s, t, {1});
    PassedNothing(s, weather, 0);
    assert Get(s.lists, name) == [] && [] + [email] == [email];
    assert ApplyOp([], Add(email)) == [email];
    assert Execute(s.lists, t) == map[name := [email]];
    PassedNext(s, weather, 0, 0);
    PassedNext(s, weather, 0, 1);
  }

  lemma PassedNext(s: Server, weather: nat -> Weather, first: nat, last: nat)
    requires first <= last
    ensures Passed(s, weather, first, last + 1) == Reached(Passed(s, weather, first, last), weather(last))
  {}

  lemma SettleOne(s: Server, t: Task, due: set<int>)
    requires s.tasks == [t]
    ensures Settle(s, due) == if t.id in due then Server(Execute(s.lists, t), [], s.next) else s
  {
    assert s.tasks[..0] == [];
    assert Executed(s.lists, [], due) == s.lists && Left([], due) == [];
  }
}
