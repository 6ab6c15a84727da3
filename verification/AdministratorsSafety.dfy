/** What every run of the account administration keeps, and what it does not. */
module AdministratorsSafety {
  import opened Wrappers
  import opened Administrators

  // ---- There is always an administrator ----

  /** The guard refuses exactly the writes that would leave no active administrator. */
  lemma GuardIsExact(s: System, id: string, u: User)
    requires ActiveAdmins(s) != {} && Exists(s, id)
    ensures IsLast(s, id, !u.deleted && u.enabled, u.admin) <==> ActiveAdmins(s.(users := s.users[id := u])) == {}
  {
    var before, after := ActiveAdmins(s), ActiveAdmins(s.(users := s.users[id := u]));
    assert after == if IsActive(u) then before + {id} else before - {id};
    if IsActive(s.users[id]) {
      assert id in before;
      assert |before - {id}| == |before| - 1;
    } else {
      assert id !in before;
    }
  }

  lemma EffectKeepsAdministrator(s: System, env: Env, op: Operation, now: nat)
    requires ActiveAdmins(s) != {} && Accepts(s, env, op)
    ensures ActiveAdmins(Effect(s, env, op, now)) != {}
  {
    var after := Effect(s, env, op, now);
    match op
    case Create(id, input) =>
      assert ActiveAdmins(s) <= ActiveAdmins(after);
    case Update(id, _, d, input) =>
      var u := Written(s.users[id], env, input, now);
      GuardIsExact(s, id, u);
      assert ActiveAdmins(after) == ActiveAdmins(s.(users := s.users[id := u]));
    case Delete(id) =>
      var u := s.users[id].(deleted := true);
      GuardIsExact(s, id, u);
      assert ActiveAdmins(after) == ActiveAdmins(s.(users := s.users[id := u]));
  }

  lemma StepKeepsAdministrator(s: System, env: Env, step: Step)
    requires ActiveAdmins(s) != {}
    ensures ActiveAdmins(Next(s, env, step)) != {}
  {
    hide Accepts, Effect;
    match step
    case Perform(req, now, stored) =>
      if req in s.admitted {
        var t := s.(admitted := s.admitted - {req});
        assert ActiveAdmins(t) == ActiveAdmins(s);
        if Accepts(t, env, s.admitted[req].op) {
          EffectKeepsAdministrator(t, env, s.admitted[req].op, now);
        }
      }
    case SignUp(_, _, _, _) =>
      assert ActiveAdmins(s) <= ActiveAdmins(Next(s, env, step));
    case _ =>
      assert ActiveAdmins(Next(s, env, step)) == ActiveAdmins(s);
  }

  /** Once an active administrator exists, no run leaves none. */
  lemma {:induction false} AdministratorRemains(s: System, env: Env, steps: seq<Step>)
    requires ActiveAdmins(s) != {}
    ensures ActiveAdmins(Run(s, env, steps)) != {}
    decreases |steps|
  {
    hide Next;
    if steps != [] {
      AdministratorRemains(s, env, steps[..|steps| - 1]);
      StepKeepsAdministrator(Run(s, env, steps[..|steps| - 1]), env, steps[|steps| - 1]);
    }
  }

  // ---- Who changes accounts ----

  /** A step changes an account that existed, or gives someone the rights of an active
      administrator. */
  predicate Changes(s: System, env: Env, step: Step) {
    var t := Next(s, env, step);
    (exists id :: id in s.users && (id !in t.users || t.users[id] != s.users[id])) || !(ActiveAdmins(t) <= ActiveAdmins(s))
  }

  /** Only a request whose actor is an active administrator at that moment does. */
  predicate Authorised(s: System, step: Step) {
    step.Perform? && step.req in s.admitted && s.admitted[step.req].actor in ActiveAdmins(s)
  }

  lemma UnauthorisedChangesNothing(s: System, env: Env, step: Step)
    requires !Authorised(s, step)
    ensures !Changes(s, env, step)
  {
    hide Accepts, Effect;
    if step.Perform? && step.req in s.admitted {
      assert !MayWrite(s.(admitted := s.admitted - {step.req}), s.admitted[step.req].actor);
    }
  }

  lemma OnlyAdministratorsWrite(s: System, env: Env, step: Step)
    requires Changes(s, env, step)
    ensures Authorised(s, step)
  {
    if !Authorised(s, step) {
      UnauthorisedChangesNothing(s, env, step);
    }
  }

  /** A request was admitted at some step of a run, for a session whose account was an
      active administrator then. */
  predicate WasAdmitted(s: System, env: Env, steps: seq<Step>, req: nat, r: Request) {
    exists k :: 0 <= k < |steps| && AdmittedAt(s, env, steps, k, req, r)
  }

  predicate AdmittedAt(s: System, env: Env, steps: seq<Step>, k: nat, req: nat, r: Request)
    requires k < |steps|
  {
    && steps[k].Admit? && steps[k].req == req && steps[k].op == r.op
    && r.actor in ActiveAdmins(Run(s, env, steps[..k]))
    && Authenticate(Run(s, env, steps[..k]), steps[k].token) == Some(r.actor)
  }

  lemma {:induction false} EveryRequestWasAdmitted(s: System, env: Env, steps: seq<Step>, req: nat)
    requires Initial(s) && req in Run(s, env, steps).admitted
    ensures WasAdmitted(s, env, steps, req, Run(s, env, steps).admitted[req])
    decreases |steps|
  {
    hide Accepts, Effect, Authenticate, ActiveAdmins;
    var n := |steps| - 1;
    var front := steps[..n];
    var before, r := Run(s, env, front), Run(s, env, steps).admitted[req];
    OnlyAdmissionAdmits(before, env, steps[n], req);
    if req in before.admitted {
      EveryRequestWasAdmitted(s, env, front, req);
      var k :| 0 <= k < |front| && AdmittedAt(s, env, front, k, req, r);
      assert front[..k] == steps[..k];
      assert AdmittedAt(s, env, steps, k, req, r);
    } else {
      AdmissionIsByAdministrator(before, steps[n].token);
      assert AdmittedAt(s, env, steps, n, req, r);
    }
  }

  lemma AdmissionIsByAdministrator(s: System, token: string)
    requires MayAdmit(s, token)
    ensures Authenticate(s, token).value in ActiveAdmins(s)
  {}

  lemma OnlyAdmissionAdmits(s: System, env: Env, step: Step, req: nat)
    requires req in Next(s, env, step).admitted
    ensures req in s.admitted ==> Next(s, env, step).admitted[req] == s.admitted[req]
    ensures req !in s.admitted ==> step.Admit? && step.req == req && MayAdmit(s, step.token)
                                   && Next(s, env, step).admitted[req] == Request(Authenticate(s, step.token).value, step.op)
  {
    hide Accepts, MayAdmit, Authenticate;
  }

  /** Over every run: an account changes, or rights appear, only by a request that was
      admitted for an active administrator and whose actor still is one when it is
      performed, however long it waited in between. */
  lemma ChangesAreAuthorised(s: System, env: Env, steps: seq<Step>, step: Step)
    requires Initial(s) && Changes(Run(s, env, steps), env, step)
    ensures step.Perform? && step.req in Run(s, env, steps).admitted
    ensures var r := Run(s, env, steps).admitted[step.req];
            r.actor in ActiveAdmins(Run(s, env, steps)) && WasAdmitted(s, env, steps, step.req, r)
  {
    OnlyAdministratorsWrite(Run(s, env, steps), env, step);
    EveryRequestWasAdmitted(s, env, steps, step.req);
  }

  // ---- Why the actor is read again ----

  /** Two administrators with a session each, and a third account. */
  predicate TwoAdministrators(s: System, a: string, b: string, c: string, ta: string, tb: string) {
    && a in ActiveAdmins(s) && b in ActiveAdmins(s) && a != b
    && Exists(s, c) && c != a && c != b && !IsActive(s.users[c])
    && Authenticate(s, ta) == Some(a) && Authenticate(s, tb) == Some(b)
    && s.admitted == map[] && c !in s.requests
  }

  /** `b` asks for `c` to become an administrator, and `a` for `b` no longer to be one. */
  function Demotion(s: System, b: string): Operation
    requires b in s.users
  {
    Update(b, None, NoDecision, Input(s.users[b].username, true, false, []))
  }

  function Promotion(s: System, c: string): Operation
    requires c in s.users
  {
    Update(c, None, NoDecision, Input(s.users[c].username, true, true, []))
  }

  /** Both requests are admitted, then the one of `a` is performed. */
  function Race(s: System, a: string, b: string, c: string, ta: string, tb: string): seq<Step>
    requires TwoAdministrators(s, a, b, c, ta, tb)
  {
    [Admit(0, tb, Promotion(s, c)), Admit(1, ta, Demotion(s, b)), Perform(1, 0, true)]
  }

  lemma {:induction false} RunNext(s: System, env: Env, steps: seq<Step>, step: Step)
    ensures Run(s, env, steps + [step]) == Next(Run(s, env, steps), env, step)
  {
    assert (steps + [step])[..|steps|] == steps;
  }

  lemma RunOfFirst(s: System, env: Env, step: Step)
    ensures Run(s, env, [step]) == Next(s, env, step)
  {
    RunNext(s, env, [], step);
    assert [] + [step] == [step];
  }

  lemma BothAdmitted(s: System, env: Env, a: string, b: string, c: string, ta: string, tb: string)
    requires TwoAdministrators(s, a, b, c, ta, tb)
    ensures Run(s, env, [Admit(0, tb, Promotion(s, c)), Admit(1, ta, Demotion(s, b))])
         == s.(admitted := map[0 := Request(b, Promotion(s, c)), 1 := Request(a, Demotion(s, b))])
  {
    var first, second := Admit(0, tb, Promotion(s, c)), Admit(1, ta, Demotion(s, b));
    RunOfFirst(s, env, first);
    RunNext(s, env, [first], second);
    assert [first] + [second] == [first, second];
  }

  lemma RaceRuns(s: System, env: Env, a: string, b: string, c: string, ta: string, tb: string) returns (end: System)
    requires TwoAdministrators(s, a, b, c, ta, tb)
    requires AcceptsInput(env, Demotion(s, b).input, []) && AcceptsInput(env, Promotion(s, c).input, [])
    ensures end == Run(s, env, Race(s, a, b, c, ta, tb))
    ensures end.admitted == map[0 := Request(b, Promotion(s, c))]
    ensures end.users == s.users[b := Written(s.users[b], env, Demotion(s, b).input, 0)]
    ensures Accepts(end, env, Promotion(s, c))
  {
    hide Run, AcceptsInput;
    var steps := Race(s, a, b, c, ta, tb);
    BothAdmitted(s, env, a, b, c, ta, tb);
    RunNext(s, env, steps[..2], steps[2]);
    assert steps[..2] + [steps[2]] == steps;
    var t := s.(admitted := map[0 := Request(b, Promotion(s, c))]);
    assert map[0 := Request(b, Promotion(s, c)), 1 := Request(a, Demotion(s, b))] - {1} == t.admitted;
    TwoAtLeast(ActiveAdmins(t), a, b);
    SameInput(env, Demotion(s, b).input, t.users[b].actions);
    SameInput(env, Promotion(s, c).input, t.users[c].actions);
    end := Performed(t, env, a, Demotion(s, b), 0, true);
    assert steps[..2] == [Admit(0, tb, Promotion(s, c)), Admit(1, ta, Demotion(s, b))];
  }

  lemma SameInput(env: Env, input: Input, had: seq<string>)
    requires AcceptsInput(env, input, [])
    ensures AcceptsInput(env, input, had)
  {}

  lemma TwoAtLeast(s: set<string>, a: string, b: string)
    requires a in s && b in s && a != b
    ensures |s| >= 2
  {
    assert |s - {a, b}| + 2 == |s|;
  }

  /** The waiting request of the former administrator: performed without reading its actor
      again it would still make `c` an administrator; as it is, it changes nothing. */
  lemma RecheckMatters(s: System, env: Env, a: string, b: string, c: string, ta: string, tb: string)
    requires TwoAdministrators(s, a, b, c, ta, tb)
    requires AcceptsInput(env, Demotion(s, b).input, []) && AcceptsInput(env, Promotion(s, c).input, [])
    ensures var end := Run(s, env, Race(s, a, b, c, ta, tb));
            && 0 in end.admitted && end.admitted[0].actor == b && b !in ActiveAdmins(end)
            && c !in ActiveAdmins(end)
            && c in ActiveAdmins(WithoutRecheck(end, env, end.admitted[0].op, 0, true))
            && Next(end, env, Perform(0, 0, true)).users == end.users
  {
    var end := RaceRuns(s, env, a, b, c, ta, tb);
    hide Run, Accepts, AcceptsInput, AcceptsDecision;
  }

  // ---- Requests and accounts agree ----

  /** An account with an access request is enabled exactly when the request is approved. */
  predicate Agrees(s: System) {
    && s.requests.Keys <= s.users.Keys
    && forall id :: id in s.requests ==> (s.users[id].enabled <==> s.requests[id] == APPROVED)
  }

  lemma EffectAgrees(s: System, env: Env, op: Operation, now: nat)
    requires Agrees(s) && Accepts(s, env, op)
    ensures Agrees(Effect(s, env, op, now))
  {}

  /** What a decision is for: the access that the account page shows before and after. */
  predicate Turns(d: Decision, before: Access, after: Access) {
    match d
    case NoDecision => true
    case Approve => before == Waiting && after == Active
    case Reject => before == Waiting && after == Refused
    case Disable => before == Active && after == Inactive
    case Reactivate => (before == Inactive || before == Refused) && after == Active
    case Unknown => false
  }

  /** A decision is accepted exactly when the update that comes with it makes that turn. */
  lemma DecisionIff(s: System, env: Env, id: string, d: Decision, input: Input, now: nat)
    requires Agrees(s) && Exists(s, id)
    ensures AcceptsDecision(s, id, d, input.enabled) <==> Turns(d, AccessOf(s, id), AccessOf(Updated(s, env, id, d, input, now), id))
  {}

  lemma StepAgrees(s: System, env: Env, step: Step)
    requires Agrees(s)
    ensures Agrees(Next(s, env, step))
  {
    hide Accepts, Effect;
    if step.Perform? && step.req in s.admitted {
      var t := s.(admitted := s.admitted - {step.req});
      if Accepts(t, env, s.admitted[step.req].op) {
        EffectAgrees(t, env, s.admitted[step.req].op, step.now);
      }
    }
  }

  lemma {:induction false} AccessAgrees(s: System, env: Env, steps: seq<Step>)
    requires Agrees(s)
    ensures Agrees(Run(s, env, steps))
    decreases |steps|
  {
    hide Next;
    if steps != [] {
      AccessAgrees(s, env, steps[..|steps| - 1]);
      StepAgrees(Run(s, env, steps[..|steps| - 1]), env, steps[|steps| - 1]);
    }
  }

  // ---- Sessions ----

  /** Every session belongs to an account that was not deleted. */
  predicate NoGhostSessions(s: System) {
    forall token :: token in s.sessions ==> Exists(s, s.sessions[token])
  }

  /** Storing a session is the one step that may break this, and it does exactly when the
      account of the sign-in was deleted in between. */
  lemma StoreKeepsIff(s: System, env: Env, signIn: nat, token: string, former: string)
    requires NoGhostSessions(s) && MayStore(s, signIn, token)
    ensures NoGhostSessions(Next(s, env, StoreSession(signIn, token, former))) <==> Exists(s, s.signIns[signIn])
  {
    var after := Next(s, env, StoreSession(signIn, token, former));
    assert token in after.sessions && after.sessions[token] == s.signIns[signIn];
  }

  lemma EffectKeepsSessions(s: System, env: Env, op: Operation, now: nat)
    requires NoGhostSessions(s) && Accepts(s, env, op)
    ensures NoGhostSessions(Effect(s, env, op, now))
  {}

  lemma OtherStepsKeepSessions(s: System, env: Env, step: Step)
    requires NoGhostSessions(s) && !step.StoreSession?
    ensures NoGhostSessions(Next(s, env, step))
  {
    hide Accepts, Effect;
    if step.Perform? && step.req in s.admitted {
      var t := s.(admitted := s.admitted - {step.req});
      if Accepts(t, env, s.admitted[step.req].op) {
        EffectKeepsSessions(t, env, s.admitted[step.req].op, step.now);
      }
    }
  }

  /** The step does not store a session for a deleted account. */
  predicate StoresLive(s: System, step: Step) {
    step.StoreSession? && MayStore(s, step.signIn, step.token) ==> Exists(s, s.signIns[step.signIn])
  }

  lemma StepKeepsSessionsIff(s: System, env: Env, step: Step)
    requires NoGhostSessions(s)
    ensures NoGhostSessions(Next(s, env, step)) <==> StoresLive(s, step)
  {
    hide NoGhostSessions, Next, Exists;
    if step.StoreSession? {
      if MayStore(s, step.signIn, step.token) {
        StoreKeepsIff(s, env, step.signIn, step.token, step.former);
      } else {
        NotStored(s, env, step);
      }
    } else {
      OtherStepsKeepSessions(s, env, step);
    }
  }

  lemma NotStored(s: System, env: Env, step: Step)
    requires step.StoreSession? && !MayStore(s, step.signIn, step.token)
    ensures Next(s, env, step) == s
  {}

  /** The state of a run before its step `k`, or at its end. */
  predicate LiveAt(s: System, env: Env, steps: seq<Step>, k: nat)
    requires k <= |steps|
  {
    NoGhostSessions(Run(s, env, steps[..k]))
  }

  predicate FoundAt(s: System, env: Env, steps: seq<Step>, k: nat)
    requires k < |steps|
  {
    StoresLive(Run(s, env, steps[..k]), steps[k])
  }

  lemma LiveNext(s: System, env: Env, steps: seq<Step>, k: nat)
    requires k < |steps| && LiveAt(s, env, steps, k)
    ensures LiveAt(s, env, steps, k + 1) <==> FoundAt(s, env, steps, k)
  {
    hide NoGhostSessions, Next, StoresLive;
    StepKeepsSessionsIff(Run(s, env, steps[..k]), env, steps[k]);
    RunNext(s, env, steps[..k], steps[k]);
    assert steps[..k] + [steps[k]] == steps[..k + 1];
  }

  lemma {:induction false} LiveUpTo(s: System, env: Env, steps: seq<Step>, n: nat)
    requires n <= |steps| && LiveAt(s, env, steps, 0)
    ensures (forall k :: 0 <= k <= n ==> LiveAt(s, env, steps, k)) <==> (forall k :: 0 <= k < n ==> FoundAt(s, env, steps, k))
  {
    hide LiveAt, FoundAt;
    if n > 0 {
      LiveUpTo(s, env, steps, n - 1);
      if LiveAt(s, env, steps, n - 1) {
        LiveNext(s, env, steps, n - 1);
      }
    }
  }

  /** Over every run, the exact condition: no state of it has a session of a deleted
      account if and only if every sign-in that stores its session still finds its account. */
  lemma SessionsStayLiveIff(s: System, env: Env, steps: seq<Step>)
    requires NoGhostSessions(s)
    ensures (forall k :: 0 <= k <= |steps| ==> LiveAt(s, env, steps, k)) <==> (forall k :: 0 <= k < |steps| ==> FoundAt(s, env, steps, k))
  {
    assert steps[..0] == [];
    LiveUpTo(s, env, steps, |steps|);
  }

  /** The run in which it fails: an account resolves its sign-in, is deleted, and then its
      session is stored. That session never authenticates. */
  lemma SignInRace(s: System, env: Env, a: string, ta: string, b: string, token: string)
    requires s.admitted == map[] && s.signIns == map[] && NoGhostSessions(s)
    requires a in ActiveAdmins(s) && Authenticate(s, ta) == Some(a)
    requires Exists(s, b) && b != a && !IsActive(s.users[b]) && token !in s.sessions && token != ta
    ensures var steps := [SignIn(0, b), Admit(0, ta, Delete(b)), Perform(0, 0, true), StoreSession(0, token, "")];
            var end := Run(s, env, steps);
            && token in end.sessions && end.sessions[token] == b && !Exists(end, b)
            && !NoGhostSessions(end) && Authenticate(end, token).None?
  {
    hide Run;
    var x0, x1, x2, x3 := SignIn(0, b), Admit(0, ta, Delete(b)), Perform(0, 0, true), StoreSession(0, token, "");
    RunOfFirst(s, env, x0);
    RunNext(s, env, [x0], x1);
    RunNext(s, env, [x0, x1], x2);
    RunNext(s, env, [x0, x1, x2], x3);
    assert [x0] + [x1] == [x0, x1] && [x0, x1] + [x2] == [x0, x1, x2] && [x0, x1, x2] + [x3] == [x0, x1, x2, x3];
    var s1 := s.(signIns := map[0 := b]);
    assert Next(s, env, x0) == s1;
    var s2 := s1.(admitted := map[0 := Request(a, Delete(b))]);
    assert Next(s1, env, x1) == s2;
    assert Next(s2, env, x2) == Removed(s1, b) by {
      assert map[0 := Request(a, Delete(b))] - {0} == s1.admitted;
    }
  }

  /** A deleted account stays deleted, and no session of it ever authenticates again,
      those stored after the deletion included. */
  lemma {:induction false} DeletedStaysOut(s: System, env: Env, steps: seq<Step>, id: string)
    requires id in s.users && s.users[id].deleted
    ensures id in Run(s, env, steps).users && Run(s, env, steps).users[id].deleted
    ensures forall token :: Authenticate(Run(s, env, steps), token) != Some(id)
    decreases |steps|
  {
    hide Next;
    if steps != [] {
      DeletedStaysOut(s, env, steps[..|steps| - 1], id);
      DeletedStays(Run(s, env, steps[..|steps| - 1]), env, steps[|steps| - 1], id);
    }
  }

  lemma DeletedStays(s: System, env: Env, step: Step, id: string)
    requires id in s.users && s.users[id].deleted
    ensures id in Next(s, env, step).users && Next(s, env, step).users[id].deleted
  {}
}
