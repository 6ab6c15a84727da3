/** server/auth/user_administration.go and auth.go, with the sign-in of
    pkg/auth/oidc_login.go: accounts, access requests and sessions.

    A request is admitted when its session belongs to an administrator, and performed
    later: one at a time under an advisory lock, after its actor was read again. A sign-in
    resolves its account in one transaction and stores its session in another. Between
    any two of these steps anything else may happen. */
module Administrators {
  import opened Wrappers
  import Strings

  datatype User = User(username: string, enabled: bool, admin: bool, actions: seq<string>, updatedAt: nat, deleted: bool)

  datatype Status = PENDING | APPROVED | REJECTED | DISABLED

  datatype Input = Input(username: string, enabled: bool, admin: bool, actions: seq<string>)

  datatype Decision = NoDecision | Approve | Reject | Disable | Reactivate | Unknown

  datatype Operation =
    | Create(id: string, input: Input)
    | Update(id: string, expected: Option<nat>, decision: Decision, input: Input)
    | Delete(id: string)

  datatype Request = Request(actor: string, op: Operation)

  /** The stored rows, with a session mapping its token to its account; then the sign-ins
      that know their account but have no session yet, and the admitted requests. */
  datatype System = System(users: map<string, User>, requests: map<string, Status>, sessions: map<string, string>,
                           signIns: map<nat, string>, admitted: map<nat, Request>)

  /** What the process knows: how it trims names, and the registered actions. */
  datatype Env = Env(trim: string -> string, known: seq<string>)

  predicate IsActive(u: User) {
    !u.deleted && u.enabled && u.admin
  }

  function ActiveAdmins(s: System): set<string> {
    set id | id in s.users && IsActive(s.users[id])
  }

  predicate Exists(s: System, id: string) {
    id in s.users && !s.users[id].deleted
  }

  // ---- The checks ----

  /** Authenticate: a session counts only while its account exists. */
  function Authenticate(s: System, token: string): Option<string> {
    if token in s.sessions && Exists(s, s.sessions[token]) then Some(s.sessions[token]) else None
  }

  /** administrativeWrite: the actor as stored once the lock is held. */
  predicate MayWrite(s: System, actor: string) {
    Exists(s, actor) && s.users[actor].enabled && s.users[actor].admin
  }

  /** protectLastAdministrator refuses. */
  predicate IsLast(s: System, id: string, enabled: bool, admin: bool)
    requires id in s.users
  {
    s.users[id].enabled && s.users[id].admin && !(enabled && admin) && |ActiveAdmins(s)| <= 1
  }

  predicate AcceptsInput(env: Env, input: Input, had: seq<string>) {
    && 0 < Strings.Bytes(env.trim(input.username)) <= 320
    && forall i :: 0 <= i < |input.actions| ==> input.actions[i] in env.known || input.actions[i] in had
  }

  /** EnrichAccess: what the account page shows. */
  datatype Access = Active | Inactive | Waiting | Refused

  function AccessOf(s: System, id: string): Access
    requires id in s.users
  {
    if s.users[id].enabled then Active
    else if id in s.requests && s.requests[id] == PENDING then Waiting
    else if id in s.requests && s.requests[id] == REJECTED then Refused
    else Inactive
  }

  predicate AcceptsDecision(s: System, id: string, d: Decision, enabled: bool)
    requires id in s.users
  {
    match d
    case NoDecision => true
    case Approve => AccessOf(s, id) == Waiting && enabled
    case Reject => AccessOf(s, id) == Waiting && !enabled
    case Disable => s.users[id].enabled && !enabled
    case Reactivate => !s.users[id].enabled && AccessOf(s, id) != Waiting && enabled
    case Unknown => false
  }

  /** Everything that the handlers check apart from their actor. */
  predicate Accepts(s: System, env: Env, op: Operation) {
    match op
    case Create(id, input) => id !in s.users && id !in s.requests && AcceptsInput(env, input, [])
    case Update(id, expected, d, input) =>
      && Exists(s, id)
      && (expected.Some? ==> s.users[id].updatedAt == expected.value)
      && AcceptsDecision(s, id, d, input.enabled)
      && AcceptsInput(env, input, s.users[id].actions)
      && !IsLast(s, id, input.enabled, input.admin)
    case Delete(id) => Exists(s, id) && !IsLast(s, id, false, false)
  }

  // ---- The writes ----

  function Resolved(status: Status, enabled: bool): Status {
    if enabled then APPROVED
    else if status == PENDING || status == REJECTED then REJECTED
    else DISABLED
  }

  function WithoutSessions(sessions: map<string, string>, id: string): map<string, string> {
    map token | token in sessions && sessions[token] != id :: sessions[token]
  }

  function Written(u: User, env: Env, input: Input, now: nat): User {
    u.(username := env.trim(input.username), enabled := input.enabled, admin := input.admin, actions := input.actions, updatedAt := now)
  }

  function Updated(s: System, env: Env, id: string, d: Decision, input: Input, now: nat): System
    requires id in s.users
  {
    var t := s.(users := s.users[id := Written(s.users[id], env, input, now)]);
    if s.users[id].enabled == input.enabled && d == NoDecision then t
    else
      t.(requests := if id in s.requests then s.requests[id := Resolved(s.requests[id], input.enabled)] else s.requests,
         sessions := if input.enabled then s.sessions else WithoutSessions(s.sessions, id))
  }

  function Removed(s: System, id: string): System
    requires id in s.users
  {
    s.(users := s.users[id := s.users[id].(deleted := true)], sessions := WithoutSessions(s.sessions, id))
  }

  function Effect(s: System, env: Env, op: Operation, now: nat): System
    requires Accepts(s, env, op)
  {
    match op
    case Create(id, input) =>
      s.(users := s.users[id := User(env.trim(input.username), input.enabled, input.admin, input.actions, now, false)])
    case Update(id, _, d, input) => Updated(s, env, id, d, input, now)
    case Delete(id) => Removed(s, id)
  }

  /** A handler under the lock; `stored` says whether the database takes the write. */
  function Performed(s: System, env: Env, actor: string, op: Operation, now: nat, stored: bool): System {
    if MayWrite(s, actor) then WithoutRecheck(s, env, op, now, stored) else s
  }

  /** The same handler if it trusted the admission of its request. */
  function WithoutRecheck(s: System, env: Env, op: Operation, now: nat, stored: bool): System {
    if Accepts(s, env, op) && stored then Effect(s, env, op, now) else s
  }

  // ---- Steps ----

  datatype Step =
    | Admit(req: nat, token: string, op: Operation)
    | Perform(req: nat, now: nat, stored: bool)
    | SignUp(signIn: nat, id: string, email: string, now: nat)
    | SignIn(signIn: nat, id: string)
    | StoreSession(signIn: nat, token: string, former: string)
    | Logout(token: string)

  /** RequireAuthentication and RequireAdministrator in front of a handler. */
  predicate MayAdmit(s: System, token: string) {
    Authenticate(s, token).Some? && MayWrite(s, Authenticate(s, token).value)
  }

  function Admitted(s: System, req: nat, token: string, op: Operation): System {
    if req !in s.admitted && MayAdmit(s, token) then
      s.(admitted := s.admitted[req := Request(Authenticate(s, token).value, op)])
    else s
  }

  /** The second transaction of a sign-in: it reads no account again. */
  predicate MayStore(s: System, signIn: nat, token: string) {
    signIn in s.signIns && token !in s.sessions
  }

  function Stored(s: System, signIn: nat, token: string, former: string): System
    requires MayStore(s, signIn, token)
  {
    s.(sessions := (s.sessions - {former})[token := s.signIns[signIn]], signIns := s.signIns - {signIn})
  }

  function Next(s: System, env: Env, step: Step): System {
    match step
    case Admit(req, token, op) => Admitted(s, req, token, op)
    case Perform(req, now, stored) =>
      if req !in s.admitted then s
      else Performed(s.(admitted := s.admitted - {req}), env, s.admitted[req].actor, s.admitted[req].op, now, stored)
    case SignUp(signIn, id, email, now) =>
      if signIn in s.signIns || id in s.users || id in s.requests then s
      else s.(users := s.users[id := User(email, false, false, [], now, false)], requests := s.requests[id := PENDING],
              signIns := s.signIns[signIn := id])
    case SignIn(signIn, id) =>
      if signIn !in s.signIns && Exists(s, id) then s.(signIns := s.signIns[signIn := id]) else s
    case StoreSession(signIn, token, former) =>
      if MayStore(s, signIn, token) then Stored(s, signIn, token, former) else s
    case Logout(token) => s.(sessions := s.sessions - {token})
  }

  function Run(s: System, env: Env, steps: seq<Step>): System {
    if steps == [] then s else Next(Run(s, env, steps[..|steps| - 1]), env, steps[|steps| - 1])
  }

  /** Accounts as they are before any connection and any request. */
  predicate Initial(s: System) {
    s.requests == map[] && s.sessions == map[] && s.signIns == map[] && s.admitted == map[]
  }
}
