/** What an asynchronous provider does to a list while the operations of one plan are
    under way, at any moment and in any order of completion. */
module MailingConvergence {
  import opened Wrappers
  import opened MailingPlan
  import opened MailingProvider

  predicate Planned(p: ListPlan, op: Op) {
    match op
    case Add(e) => e in p.add
    case Remove(e) => e in p.remove
  }

  predicate Holds(subscribers: seq<string>, op: Op) {
    match op
    case Add(e) => e in subscribers
    case Remove(e) => e !in subscribers
  }

  predicate Outstanding(tasks: seq<Task>, list: string, op: Op) {
    exists i :: 0 <= i < |tasks| && tasks[i].list == list && tasks[i].op == op
  }

  /** Where a list stands between the moment its plan was made and the moment every
      accepted operation took effect. */
  ghost predicate Progress(p: ListPlan, current: seq<string>, accepted: set<Op>, s: Server) {
    var actual := Get(s.lists, p.name);
    && (forall e :: e in p.add ==> e !in p.remove)
    && (forall t :: t in s.tasks && t.list == p.name ==> Planned(p, t.op))
    && (forall e :: e in actual ==> e in current || e in p.add)
    && (forall e :: e in current && e !in p.remove ==> e in actual)
    && (forall op :: op in accepted ==> Planned(p, op) && (Outstanding(s.tasks, p.name, op) || Holds(actual, op)))
  }

  // ---- One task at a time ----

  lemma ExecuteMembers(lists: map<string, seq<string>>, t: Task, name: string, e: string)
    ensures e in Get(Execute(lists, t), name) <==>
              if t.list != name then e in Get(lists, name)
              else match t.op
                   case Add(x) => e in Get(lists, name) || e == x
                   case Remove(x) => e in Get(lists, name) && e != x
  {
    if t.op.Remove? {
      Dropped(Get(lists, t.list), t.op.email, e);
    }
  }

  lemma TaskKeepsProgress(p: ListPlan, current: seq<string>, accepted: set<Op>, lists: map<string, seq<string>>,
                          done: seq<Task>, t: Task, rest: seq<Task>, next: int)
    requires Progress(p, current, accepted, Server(lists, done + [t] + rest, next))
    ensures Progress(p, current, accepted, Server(Execute(lists, t), done + rest, next))
  {
    var before, after := done + [t] + rest, done + rest;
    var actual, now := Get(lists, p.name), Get(Execute(lists, t), p.name);
    forall e
      ensures e in now <==> if t.list != p.name then e in actual
                            else match t.op
                                 case Add(x) => e in actual || e == x
                                 case Remove(x) => e in actual && e != x
    {
      ExecuteMembers(lists, t, p.name, e);
    }
    assert before[|done|] == t;
    assert forall x :: x in after ==> x in before;
    forall op | op in accepted
      ensures Planned(p, op) && (Outstanding(after, p.name, op) || Holds(now, op))
    {
      if Outstanding(before, p.name, op) {
        var i :| 0 <= i < |before| && before[i].list == p.name && before[i].op == op;
        if i < |done| {
          assert after[i] == before[i];
        } else if i > |done| {
          assert after[i - 1] == before[i];
        }
      }
    }
  }

  lemma {:induction false} RunKeepsProgress(p: ListPlan, current: seq<string>, accepted: set<Op>, s: Server, due: set<int>, n: nat)
    requires n <= |s.tasks| && Progress(p, current, accepted, s)
    ensures Progress(p, current, accepted,
                     Server(Executed(s.lists, s.tasks[..n], due), Left(s.tasks[..n], due) + s.tasks[n..], s.next))
    decreases n
  {
    if n == 0 {
      assert Left([], due) + s.tasks[0..] == s.tasks;
    } else {
      var k := n - 1;
      RunKeepsProgress(p, current, accepted, s, due, k);
      assert s.tasks[..n][..k] == s.tasks[..k];
      var lists, done, t := Executed(s.lists, s.tasks[..k], due), Left(s.tasks[..k], due), s.tasks[k];
      assert done + s.tasks[k..] == done + [t] + s.tasks[n..];
      if t.id in due {
        TaskKeepsProgress(p, current, accepted, lists, done, t, s.tasks[n..], s.next);
        assert done + [] == done;
      }
    }
  }

  /** Time passing keeps the progress made so far. */
  lemma SettleKeepsProgress(p: ListPlan, current: seq<string>, accepted: set<Op>, s: Server, due: set<int>)
    requires Progress(p, current, accepted, s)
    ensures Progress(p, current, accepted, Settle(s, due))
  {
    var n := |s.tasks|;
    RunKeepsProgress(p, current, accepted, s, due, n);
    assert s.tasks[..n] == s.tasks;
    assert Left(s.tasks, due) + s.tasks[n..] == Left(s.tasks, due);
  }

  lemma {:induction false} PassedKeepsProgress(p: ListPlan, current: seq<string>, accepted: set<Op>, s: Server,
                                               weather: nat -> Weather, first: nat, last: nat)
    requires Progress(p, current, accepted, s)
    ensures Progress(p, current, accepted, Passed(s, weather, first, last))
    decreases last
  {
    if first < last {
      PassedKeepsProgress(p, current, accepted, s, weather, first, last - 1);
      SettleKeepsProgress(p, current, accepted, Passed(s, weather, first, last - 1), weather(last - 1).due);
    }
  }

  /** So does sending one more operation: a planned one when it is for this list. */
  lemma ReceivedKeepsProgress(p: ListPlan, current: seq<string>, accepted: set<Op>, s: Server, list: string, op: Op)
    requires Progress(p, current, accepted, s) && (list == p.name ==> Planned(p, op))
    ensures Progress(p, current, accepted, Received(s, list, op))
    ensures Accepts(s, list, op) && list == p.name ==> Progress(p, current, accepted + {op}, Received(s, list, op))
  {
    if Accepts(s, list, op) {
      var t := Task(s.next + 1, list, op);
      var after := s.tasks + [t];
      assert after[|s.tasks|] == t;
      forall x | Outstanding(s.tasks, p.name, x)
        ensures Outstanding(after, p.name, x)
      {
        var i :| 0 <= i < |s.tasks| && s.tasks[i].list == p.name && s.tasks[i].op == x;
        assert after[i] == s.tasks[i];
      }
      assert list == p.name ==> Outstanding(after, p.name, op);
    }
  }

  lemma {:induction false} NoTasks(tasks: seq<Task>, list: string)
    ensures TasksOf(tasks, list) == [] <==> forall t :: t in tasks ==> t.list != list
  {
    if tasks != [] {
      var n := |tasks| - 1;
      NoTasks(tasks[..n], list);
      assert tasks == tasks[..n] + [tasks[n]];
    }
  }

  /** A plan read when the list has no task starts with nothing done. */
  lemma PlanStartsProgress(canon: Canon, expected: set<string>, current: seq<string>, p: ListPlan, s: Server)
    requires IsListPlan(canon, expected, current, p) && (forall x :: x in expected ==> canon(x) == Some(x))
    requires TasksOf(s.tasks, p.name) == [] && (forall e :: e in current <==> e in Get(s.lists, p.name))
    ensures Progress(p, current, {}, s)
  {
    NoTasks(s.tasks, p.name);
    forall e | e in p.add
      ensures e !in p.remove
    {
      AddsAreNotRemoved(canon, expected, current, p, e);
    }
  }

  // ---- What progress means for the next plan ----

  /** At any later moment, with tasks still outstanding or not, the next plan for the same
      members adds and removes nothing new, and every subscriber that is still expected
      is still there. */
  lemma ProgressOnlyShrinksPlans(canon: Canon, expected: set<string>, current: seq<string>, p: ListPlan,
                                 accepted: set<Op>, s: Server, seen: seq<string>, next: ListPlan)
    requires IsListPlan(canon, expected, current, p) && (forall x :: x in expected ==> canon(x) == Some(x))
    requires Progress(p, current, accepted, s)
    requires (forall e :: e in seen <==> e in Get(s.lists, p.name)) && IsListPlan(canon, expected, seen, next)
    ensures Inside(next.add, p.add) && Inside(next.remove, p.remove)
    ensures forall e :: e in current && Wanted(canon, expected, e) ==> e in Get(s.lists, p.name)
  {
    forall e | e in current && Wanted(canon, expected, e)
      ensures e in Get(s.lists, p.name)
    {
      RemovesAreUnwanted(canon, expected, current, p, e);
    }
    forall e | e in expected && e in Have(canon, current)
      ensures e in Have(canon, seen)
    {
      var i :| 0 <= i < |current| && canon(current[i]).Some? && canon(current[i]).value == e;
      HaveMember(canon, seen, current[i]);
    }
    forall e | e in next.remove
      ensures e in p.remove
    {
      RemovesAreUnwanted(canon, expected, seen, next, e);
      RemovesAreUnwanted(canon, expected, current, p, e);
    }
  }

  /** Once the whole plan was accepted and the list has no task left, nothing remains to
      be done, whatever the order in which the tasks completed. */
  lemma AcceptedPlanLands(canon: Canon, expected: set<string>, current: seq<string>, p: ListPlan,
                          accepted: set<Op>, s: Server, seen: seq<string>, next: ListPlan)
    requires IsListPlan(canon, expected, current, p) && (forall x :: x in expected ==> canon(x) == Some(x))
    requires Progress(p, current, accepted, s) && TasksOf(s.tasks, p.name) == []
    requires (forall e :: e in p.add ==> Add(e) in accepted) && (forall e :: e in p.remove ==> Remove(e) in accepted)
    requires (forall e :: e in seen <==> e in Get(s.lists, p.name)) && IsListPlan(canon, expected, seen, next)
    ensures next.add == [] && next.remove == []
  {
    NoTasks(s.tasks, p.name);
    ProgressOnlyShrinksPlans(canon, expected, current, p, accepted, s, seen, next);
    forall op
      ensures !Outstanding(s.tasks, p.name, op)
    {}
    forall e | e in p.add
      ensures e !in next.add
    {
      assert Holds(Get(s.lists, p.name), Add(e));
      HaveMember(canon, seen, e);
    }
    forall e | e in p.remove
      ensures e !in next.remove
    {
      assert Holds(Get(s.lists, p.name), Remove(e));
      RemovesAreUnwanted(canon, expected, seen, next, e);
    }
    Empty(next.add);
    Empty(next.remove);
  }
}
