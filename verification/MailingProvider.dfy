/** The asynchronous provider of mailing lists (dev/ovh-fixture/main.go) and the client
    that talks to it over a network that loses requests and answers
    (pkg/mailings/client.go). */
module MailingProvider {
  import opened Wrappers
  import opened MailingPlan
  import Strings

  datatype Task = Task(id: int, list: string, op: Op)

  /** The lists, the queue of accepted tasks, and the last task number given out. */
  datatype Server = Server(lists: map<string, seq<string>>, tasks: seq<Task>, next: int)

  // ---- What requests mean ----

  function Execute(lists: map<string, seq<string>>, t: Task): map<string, seq<string>> {
    lists[t.list := ApplyOp(Get(lists, t.list), t.op)]
  }

  /** The due tasks of the queue run in queue order. */
  function Executed(lists: map<string, seq<string>>, tasks: seq<Task>, due: set<int>): map<string, seq<string>> {
    if tasks == [] then lists
    else
      var n := |tasks| - 1;
      var earlier := Executed(lists, tasks[..n], due);
      if tasks[n].id in due then Execute(earlier, tasks[n]) else earlier
  }

  function Left(tasks: seq<Task>, due: set<int>): seq<Task> {
    if tasks == [] then []
    else
      var n := |tasks| - 1;
      Left(tasks[..n], due) + if tasks[n].id in due then [] else [tasks[n]]
  }

  function Settle(s: Server, due: set<int>): Server {
    Server(Executed(s.lists, s.tasks, due), Left(s.tasks, due), s.next)
  }

  function TasksOf(tasks: seq<Task>, list: string): seq<int> {
    if tasks == [] then []
    else
      var n := |tasks| - 1;
      TasksOf(tasks[..n], list) + if tasks[n].list == list then [tasks[n].id] else []
  }


  /** The last due task of the queue about an address on a list. */
  function LastAbout(tasks: seq<Task>, due: set<int>, list: string, email: string): Option<Op> {
    if tasks == [] then None
    else
      var t := tasks[|tasks| - 1];
      if t.id in due && t.list == list && t.op.email == email then Some(t.op) else LastAbout(tasks[..|tasks| - 1], due, list, email)
  }

  /** Queue order matters: that task alone decides whether the address is subscribed. */
  lemma {:induction false} LastTaskDecides(lists: map<string, seq<string>>, tasks: seq<Task>, due: set<int>, list: string, email: string)
    ensures var last := LastAbout(tasks, due, list, email);
            email in Get(Executed(lists, tasks, due), list) <==> if last.Some? then last.value.Add? else email in Get(lists, list)
    decreases |tasks|
  {
    if tasks != [] {
      var n := |tasks| - 1;
      LastTaskDecides(lists, tasks[..n], due, list, email);
      if tasks[n].op.Remove? {
        Dropped(Get(Executed(lists, tasks[..n], due), list), tasks[n].op.email, email);
      }
    }
  }

  /** No task subscribes anybody twice. */
  lemma {:induction false} NobodyTwice(lists: map<string, seq<string>>, tasks: seq<Task>, due: set<int>, list: string)
    requires Distinct(Get(lists, list))
    ensures Distinct(Get(Executed(lists, tasks, due), list))
    decreases |tasks|
  {
    if tasks != [] {
      var n := |tasks| - 1;
      NobodyTwice(lists, tasks[..n], due, list);
      OperationKeepsDistinct(Get(Executed(lists, tasks[..n], due), list), tasks[n].op);
    }
  }

  lemma OperationKeepsDistinct(s: seq<string>, op: Op)
    requires Distinct(s)
    ensures Distinct(ApplyOp(s, op))
  {
    if op.Add? {
      assert op.email !in s ==> multiset(s)[op.email] == 0;
    } else {
      forall e: string
        ensures multiset(Drop(s, op.email))[e] <= 1
      {
        DropKeepsAtMost(s, op.email, e);
        assert multiset(s)[e] <= 1;
      }
    }
  }

  lemma {:induction false} DropKeepsAtMost(s: seq<string>, email: string, e: string)
    ensures multiset(Drop(s, email))[e] <= multiset(s)[e]
  {
    if s != [] {
      DropKeepsAtMost(s[1..], email, e);
      assert s == [s[0]] + s[1..];
    }
  }

  predicate Accepts(s: Server, list: string, op: Op) {
    list in s.lists && op.email != "" && (op.Remove? ==> '/' !in op.email)
  }

  function Received(s: Server, list: string, op: Op): Server {
    if Accepts(s, list, op) then s.(tasks := s.tasks + [Task(s.next + 1, list, op)], next := s.next + 1) else s
  }

  /** ServeHTTP. Time passes between requests: `due` is the set of tasks whose delay is
      over when the request arrives. */
  class Fixture {
    var lists: map<string, seq<string>>
    var tasks: seq<Task>
    var next: int

    constructor (initial: map<string, seq<string>>)
      ensures State() == Server(initial, [], 0)
    {
      lists, tasks, next := initial, [], 0;
    }

    ghost function State(): Server
      reads this
    {
      Server(lists, tasks, next)
    }

    method CompleteDue(due: set<int>)
      modifies this
      ensures State() == Settle(old(State()), due)
    {
      var remaining: seq<Task> := [];
      for i := 0 to |tasks|
        invariant tasks == old(tasks) && next == old(next)
        invariant lists == Executed(old(lists), tasks[..i], due) && remaining == Left(tasks[..i], due)
      {
        var task := tasks[i];
        assert tasks[..i + 1][..i] == tasks[..i];
        if task.id !in due {
          remaining := remaining + [task];
        } else {
          assert remaining + [] == remaining;
          if task.op.Add? && task.op.email !in Get(lists, task.list) {
            lists := lists[task.list := Get(lists, task.list) + [task.op.email]];
          } else if task.op.Remove? {
            lists := lists[task.list := Drop(Get(lists, task.list), task.op.email)];
          }
        }
      }
      assert tasks[..|tasks|] == tasks;
      tasks := remaining;
    }

    method ListTasks(list: string, due: set<int>) returns (r: Result<seq<int>>)
      modifies this
      ensures State() == Settle(old(State()), due)
      ensures r.Ok? <==> list in lists
      ensures r.Ok? ==> r.value == TasksOf(tasks, list)
    {
      CompleteDue(due);
      if list !in lists {
        return Err("unknown list");
      }
      var ids: seq<int> := [];
      for i := 0 to |tasks|
        invariant ids == TasksOf(tasks[..i], list)
        invariant State() == Settle(old(State()), due)
      {
        assert tasks[..i + 1][..i] == tasks[..i];
        if tasks[i].list == list {
          ids := ids + [tasks[i].id];
        } else {
          assert ids + [] == ids;
        }
      }
      assert tasks[..|tasks|] == tasks;
      return Ok(ids);
    }

    method ListSubscribers(list: string, due: set<int>) returns (r: Result<seq<string>>)
      modifies this
      ensures State() == Settle(old(State()), due)
      ensures r.Ok? <==> list in lists
      ensures r.Ok? ==> r.value == Strings.Sort(lists[list])
    {
      CompleteDue(due);
      if list !in lists {
        return Err("not found");
      }
      return Ok(Strings.Sort(lists[list]));
    }

    /** POST with a body, DELETE with the address in the path. */
    method Enqueue(list: string, op: Op, due: set<int>) returns (ok: bool)
      modifies this
      ensures State() == Received(Settle(old(State()), due), list, op)
      ensures ok <==> Accepts(Settle(old(State()), due), list, op)
    {
      CompleteDue(due);
      if op.Remove? && '/' in op.email {
        return false;
      }
      if list !in lists {
        return false;
      }
      if op.email == "" {
        return false;
      }
      next := next + 1;
      tasks := tasks + [Task(next, list, op)];
      return true;
    }
  }

  // ---- The client ----

  /** What the network does to one exchange. */
  datatype Wire = Answered | RequestLost | AnswerLost

  datatype Weather = Weather(due: set<int>, wire: Wire)

  /** A request that only reads still lets the server notice its due tasks. */
  function Reached(s: Server, w: Weather): Server {
    if w.wire.RequestLost? then s else Settle(s, w.due)
  }

  /** Exchanges number `first` up to `last` all only read. */
  function Passed(s: Server, weather: nat -> Weather, first: nat, last: nat): Server
    decreases last
  {
    if last <= first then s else Reached(Passed(s, weather, first, last - 1), weather(last - 1))
  }

  /** An operation sent, and whether the client saw it accepted. */
  datatype Sent = Sent(list: string, op: Op, accepted: bool)

  class Client {
    const server: Fixture
    const weather: nat -> Weather
    var calls: nat
    ghost var log: seq<Sent>

    constructor (server: Fixture, weather: nat -> Weather)
      ensures this.server == server && this.weather == weather && calls == 0 && log == []
    {
      this.server, this.weather, calls, log := server, weather, 0, [];
    }

    method Pending(list: string) returns (r: Result<seq<int>>)
      modifies this, server
      ensures calls == old(calls) + 1 && log == old(log)
      ensures server.State() == Reached(old(server.State()), weather(old(calls)))
      ensures r.Ok? <==> weather(old(calls)).wire.Answered? && list in server.lists
      ensures r.Ok? ==> r.value == TasksOf(server.tasks, list)
    {
      var w := weather(calls);
      calls := calls + 1;
      if w.wire.RequestLost? {
        return Err("no answer");
      }
      r := server.ListTasks(list, w.due);
      if w.wire.AnswerLost? {
        r := Err("no answer");
      }
    }

    method Subscribers(list: string) returns (r: Result<seq<string>>)
      modifies this, server
      ensures calls == old(calls) + 1 && log == old(log)
      ensures server.State() == Reached(old(server.State()), weather(old(calls)))
      ensures r.Ok? <==> weather(old(calls)).wire.Answered? && list in server.lists
      ensures r.Ok? ==> r.value == Strings.Sort(server.lists[list])
    {
      var w := weather(calls);
      calls := calls + 1;
      if w.wire.RequestLost? {
        return Err("no answer");
      }
      r := server.ListSubscribers(list, w.due);
      if w.wire.AnswerLost? {
        r := Err("no answer");
      }
    }

    /** Add and Remove. */
    method Send(list: string, op: Op) returns (ok: bool)
      modifies this, server
      ensures calls == old(calls) + 1
      ensures log == old(log) + [Sent(list, op, ok)]
      ensures server.State() == if weather(old(calls)).wire.RequestLost? then old(server.State())
                                else Received(Settle(old(server.State()), weather(old(calls)).due), list, op)
      ensures ok <==> && weather(old(calls)).wire.Answered?
                      && Accepts(Settle(old(server.State()), weather(old(calls)).due), list, op)
    {
      var w := weather(calls);
      calls := calls + 1;
      ok := false;
      if !w.wire.RequestLost? {
        ok := server.Enqueue(list, op, w.due);
      }
      if w.wire.AnswerLost? {
        ok := false;
      }
      log := log + [Sent(list, op, ok)];
    }
  }
}
