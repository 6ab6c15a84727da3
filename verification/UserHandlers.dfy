/** The account handlers in their own form: the checks one after the other inside the
    administrative transaction, then the writes; and the two transactions of a sign-in.
    Each is proved to be its step of Administrators. */
module UserHandlers {
  import opened Wrappers
  import opened Administrators
  import Strings

  /** What an update leaves and what it changes. */
  lemma UpdatedParts(s: System, env: Env, id: string, d: Decision, input: Input, now: nat)
    requires id in s.users
    ensures var t := Updated(s, env, id, d, input, now);
            && t.signIns == s.signIns && t.admitted == s.admitted
            && t.users == s.users[id := User(env.trim(input.username), input.enabled, input.admin, input.actions, now, s.users[id].deleted)]
            && t.requests.Keys == s.requests.Keys
            && (forall r :: r in t.requests && r != id ==> t.requests[r] == s.requests[r])
            && (s.users[id].enabled == input.enabled && d == NoDecision ==> t.requests == s.requests && t.sessions == s.sessions)
            && (input.enabled ==> t.sessions == s.sessions)
            && (!input.enabled && (s.users[id].enabled || d != NoDecision) ==>
                  && (forall token :: token in t.sessions ==> t.sessions[token] != id)
                  && (forall token :: token in s.sessions && s.sessions[token] != id ==>
                        token in t.sessions && t.sessions[token] == s.sessions[token]))
  {}

  class Accounts {
    const env: Env
    var users: map<string, User>
    var requests: map<string, Status>
    var sessions: map<string, string>
    var signIns: map<nat, string>
    var admitted: map<nat, Request>

    constructor (env: Env, users: map<string, User>)
      ensures this.env == env && State() == System(users, map[], map[], map[], map[])
    {
      this.env, this.users, requests, sessions, signIns, admitted := env, users, map[], map[], map[], map[];
    }

    ghost function State(): System
      reads this
    {
      System(users, requests, sessions, signIns, admitted)
    }

    // ---- Sessions ----

    /** Authenticate: the session first, then its account, which must still exist. */
    method FindAccount(token: string) returns (id: Option<string>)
      ensures id == Authenticate(State(), token)
    {
      if token !in sessions {
        return None;
      }
      var owner := sessions[token];
      if owner !in users || users[owner].deleted {
        return None;
      }
      return Some(owner);
    }

    /** The first transaction of a sign-in, for an identity that is linked. */
    method ResolveSignIn(signIn: nat, id: string) returns (ok: bool)
      requires signIn !in signIns
      modifies this
      ensures State() == Next(old(State()), env, SignIn(signIn, id)) && (ok <==> Exists(old(State()), id))
    {
      ok := id in users && !users[id].deleted;
      if ok {
        signIns := signIns[signIn := id];
      }
    }

    /** The second one: rotate the former session, store the new one. */
    method StoreNewSession(signIn: nat, token: string, former: string)
      requires MayStore(State(), signIn, token)
      modifies this
      ensures State() == Next(old(State()), env, StoreSession(signIn, token, former))
    {
      sessions := sessions - {former};
      sessions := sessions[token := signIns[signIn]];
      signIns := signIns - {signIn};
    }

    /** RequireAuthentication and RequireAdministrator. */
    method AdmitRequest(req: nat, token: string, op: Operation) returns (ok: bool)
      requires req !in admitted
      modifies this
      ensures State() == Next(old(State()), env, Admit(req, token, op)) && (ok <==> MayAdmit(old(State()), token))
    {
      var actor := FindAccount(token);
      if actor.None? || !users[actor.value].enabled || !users[actor.value].admin {
        return false;
      }
      admitted := admitted[req := Request(actor.value, op)];
      return true;
    }

    // ---- Checks ----

    /** The head of administrativeWrite: the actor is read again under the lock. */
    method CheckActor(actor: string) returns (ok: bool)
      ensures ok <==> MayWrite(State(), actor)
      ensures ok <==> actor in users && !users[actor].deleted && users[actor].enabled && users[actor].admin
    {
      if actor !in users || users[actor].deleted {
        return false;
      }
      return users[actor].enabled && users[actor].admin;
    }

    method ProtectLastAdministrator(id: string, enabled: bool, admin: bool) returns (ok: bool)
      requires id in users
      ensures ok <==> !IsLast(State(), id, enabled, admin)
    {
      if !users[id].enabled || !users[id].admin || (enabled && admin) {
        return true;
      }
      var count := |set u | u in users && !users[u].deleted && users[u].enabled && users[u].admin|;
      assert (set u | u in users && !users[u].deleted && users[u].enabled && users[u].admin) == ActiveAdmins(State());
      return count > 1;
    }

    method ValidateUserInput(input: Input, had: seq<string>) returns (ok: bool)
      ensures ok <==> AcceptsInput(env, input, had)
      ensures ok <==> 0 < Strings.Bytes(env.trim(input.username)) <= 320
                      && forall a :: a in input.actions ==> a in env.known || a in had
    {
      var name := env.trim(input.username);
      if Strings.Bytes(name) == 0 || Strings.Bytes(name) > 320 {
        return false;
      }
      for i := 0 to |input.actions|
        invariant forall j :: 0 <= j < i ==> input.actions[j] in env.known || input.actions[j] in had
      {
        if input.actions[i] !in env.known && input.actions[i] !in had {
          return false;
        }
      }
      return true;
    }

    method ValidateAccessDecision(id: string, d: Decision, enabled: bool) returns (valid: bool)
      requires id in users
      ensures valid <==> AcceptsDecision(State(), id, d, enabled)
    {
      var row, status := users[id], AccessOf(System(users, requests, sessions, signIns, admitted), id);
      valid := d.NoDecision?;
      match d {
        case Approve => valid := status == Waiting && enabled;
        case Reject => valid := status == Waiting && !enabled;
        case Disable => valid := row.enabled && !enabled;
        case Reactivate => valid := !row.enabled && status != Waiting && enabled;
        case _ =>
      }
    }

    // ---- Writes ----

    method ResolveAccess(id: string)
      requires id in users
      modifies this
      ensures users == old(users) && sessions == old(sessions) && signIns == old(signIns) && admitted == old(admitted)
      ensures requests == if id in old(requests) then old(requests)[id := Resolved(old(requests)[id], users[id].enabled)]
                          else old(requests)
    {
      if id !in requests {
        return;
      }
      var status := DISABLED;
      if users[id].enabled {
        status := APPROVED;
      } else if requests[id] == PENDING || requests[id] == REJECTED {
        status := REJECTED;
      }
      requests := requests[id := status];
    }

    method RevokeDisabledSessions(id: string)
      requires id in users
      modifies this
      ensures users == old(users) && requests == old(requests) && signIns == old(signIns) && admitted == old(admitted)
      ensures sessions == if users[id].enabled then old(sessions) else WithoutSessions(old(sessions), id)
    {
      if users[id].enabled {
        return;
      }
      sessions := map token | token in sessions && sessions[token] != id :: sessions[token];
    }

    method CreateUser(actor: string, id: string, input: Input, now: nat, stored: bool) returns (ok: bool)
      requires id !in users && id !in requests
      modifies this
      ensures State() == Performed(old(State()), env, actor, Create(id, input), now, stored)
      ensures ok <==> MayWrite(old(State()), actor) && AcceptsInput(env, input, []) && stored
      ensures ok ==> State() == old(State()).(users := old(users)[id := User(env.trim(input.username), input.enabled, input.admin,
                                                                             input.actions, now, false)])
      ensures !ok ==> State() == old(State())
    {
      ok := CheckActor(actor);
      if !ok {
        return;
      }
      ok := ValidateUserInput(input, []);
      if !ok || !stored {
        return false;
      }
      users := users[id := User(env.trim(input.username), input.enabled, input.admin, input.actions, now, false)];
    }

    /** What UpdateUser writes once every check passed. */
    method StoreUpdate(id: string, d: Decision, input: Input, now: nat)
      requires id in users
      modifies this
      ensures State() == Updated(old(State()), env, id, d, input, now)
    {
      var wasEnabled := users[id].enabled;
      users := users[id := users[id].(username := env.trim(input.username), enabled := input.enabled, admin := input.admin,
                                      actions := input.actions, updatedAt := now)];
      if wasEnabled != users[id].enabled || d != NoDecision {
        ResolveAccess(id);
        RevokeDisabledSessions(id);
      }
    }

    method UpdateUser(actor: string, id: string, expected: Option<nat>, d: Decision, input: Input, now: nat, stored: bool)
      returns (ok: bool)
      modifies this
      ensures State() == Performed(old(State()), env, actor, Update(id, expected, d, input), now, stored)
      ensures ok <==> MayWrite(old(State()), actor) && Accepts(old(State()), env, Update(id, expected, d, input)) && stored
      ensures !ok ==> State() == old(State())
      ensures ok ==>
                && id in old(users) && signIns == old(signIns) && admitted == old(admitted)
                && users == old(users)[id := User(env.trim(input.username), input.enabled, input.admin, input.actions, now,
                                                  old(users)[id].deleted)]
                && requests.Keys == old(requests).Keys
                && (forall r :: r in requests && r != id ==> requests[r] == old(requests)[r])
                && (old(users)[id].enabled == input.enabled && d == NoDecision ==> requests == old(requests) && sessions == old(sessions))
      ensures ok && expected.Some? ==> old(users)[id].updatedAt == expected.value
      ensures ok && input.enabled ==> sessions == old(sessions)
      ensures ok && !input.enabled && (old(id in users && users[id].enabled) || d != NoDecision) ==>
                && (forall token :: token in sessions ==> sessions[token] != id)
                && (forall token :: token in old(sessions) && old(sessions)[token] != id ==>
                      token in sessions && sessions[token] == old(sessions)[token])
    {
      hide Updated;
      ok := CheckActor(actor);
      if !ok {
        return;
      }
      if id !in users || users[id].deleted {
        return false;
      }
      if expected.Some? && users[id].updatedAt != expected.value {
        return false;
      }
      ok := ValidateAccessDecision(id, d, input.enabled);
      if !ok {
        return;
      }
      ok := ValidateUserInput(input, users[id].actions);
      if !ok {
        return;
      }
      ok := ProtectLastAdministrator(id, input.enabled, input.admin);
      if !ok || !stored {
        return false;
      }
      UpdatedParts(State(), env, id, d, input, now);
      StoreUpdate(id, d, input, now);
    }

    method DeleteUser(actor: string, id: string, now: nat, stored: bool) returns (ok: bool)
      modifies this
      ensures State() == Performed(old(State()), env, actor, Delete(id), now, stored)
      ensures ok <==> MayWrite(old(State()), actor) && Accepts(old(State()), env, Delete(id)) && stored
      ensures !ok ==> State() == old(State())
      ensures ok ==>
                && id in old(users) && users == old(users)[id := old(users)[id].(deleted := true)]
                && requests == old(requests) && signIns == old(signIns) && admitted == old(admitted)
                && (forall token :: token in sessions <==> token in old(sessions) && old(sessions)[token] != id)
                && (forall token :: token in sessions ==> sessions[token] == old(sessions)[token])
    {
      ok := CheckActor(actor);
      if !ok {
        return;
      }
      if id !in users || users[id].deleted {
        return false;
      }
      ok := ProtectLastAdministrator(id, false, false);
      if !ok || !stored {
        return false;
      }
      sessions := WithoutSessions(sessions, id);
      users := users[id := users[id].(deleted := true)];
    }
  
    /** An admitted request reaches its handler. */
    method Handle(req: nat, now: nat, stored: bool) returns (ok: bool)
      requires req in admitted
      requires admitted[req].op.Create? ==> admitted[req].op.id !in users && admitted[req].op.id !in requests
      modifies this
      ensures State() == Next(old(State()), env, Perform(req, now, stored))
      ensures ok ==> old(admitted)[req].actor in ActiveAdmins(old(State()))
    {
      hide Effect, Accepts;
      var r := admitted[req];
      admitted := admitted - {req};
      match r.op {
        case Create(id, input) => ok := CreateUser(r.actor, id, input, now, stored);
        case Update(id, expected, d, input) => ok := UpdateUser(r.actor, id, expected, d, input, now, stored);
        case Delete(id) => ok := DeleteUser(r.actor, id, now, stored);
      }
    }
  }
}
