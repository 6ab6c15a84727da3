/** The delivery protocol over all interleavings: any number of senders claim e-mails,
    talk to SMTP, crash, lose acknowledgements, and save their outcome through a
    database that may commit and still report an error; operators reset, read, delete
    and recover. Every step of a sender is one database statement or one SMTP event. */
module EmailDelivery {
  import opened Wrappers
  import opened EmailStore

  /** Where a sender is. Transmitting covers everything after DATA was granted. */
  datatype Phase = Preparing | Transmitting | Saving(outcome: Outcome) | FallingBack | Done | Crashed

  /** `wrote` holds the outcomes that the attempt brought into the row. */
  datatype Attempt = Attempt(phase: Phase, fate: Fate, wrote: set<Outcome>)

  /** One e-mail: its row, every attempt ever started, and how often it was reset. */
  datatype Mail = Mail(row: Row, attempts: seq<Attempt>, resets: nat)

  type World = map<string, Mail>

  datatype Step =
    | Claim(db: Db)
    | PrepareFails(i: nat)
    | BeginData(i: nat)
    | ServerAccepts(i: nat)
    | ServerRefuses(i: nat)
    | Sees(i: nat, outcome: Outcome)
    | Save(i: nat, error: string, content: Option<(string, string)>, db: Db)
    | Fallback(i: nat, content: Option<(string, string)>, db: Db)
    | Crash(i: nat)
    | Reset(db: Db)
    | MarkRead(db: Db)
    | Delete(db: Db)
    | Recover(db: Db)

  const STARTED := Attempt(Preparing, NotSent, {})

  function With(m: Mail, i: nat, a: Attempt): Mail
    requires i < |m.attempts|
  {
    m.(attempts := m.attempts[i := a])
  }

  predicate AtPhase(m: Mail, i: nat, p: Phase) {
    i < |m.attempts| && m.attempts[i].phase == p
  }

  predicate Enabled(m: Mail, s: Step) {
    match s
    case PrepareFails(i) => AtPhase(m, i, Preparing)
    case BeginData(i) => AtPhase(m, i, Preparing)
    case ServerAccepts(i) => i < |m.attempts| && m.attempts[i].fate.Undecided?
    case ServerRefuses(i) => i < |m.attempts| && m.attempts[i].fate.Undecided?
    case Sees(i, o) => AtPhase(m, i, Transmitting) && MaySee(m.attempts[i].fate, o)
    case Save(i, _, _, _) => i < |m.attempts| && m.attempts[i].phase.Saving?
    case Fallback(i, _, _) => AtPhase(m, i, FallingBack)
    case Crash(i) => i < |m.attempts|
    case _ => true
  }

  /** The claim that commits without an error report starts an attempt; a message that
      enters DATA may be accepted at any later time, whatever its sender does. */
  function Apply(m: Mail, s: Step): Mail
    requires Enabled(m, s)
  {
    match s
    case Claim(db) =>
      var m1 := m.(row := Through(db, m.row, ClaimRow(m.row)));
      if Sendable(m.row) && db.Committed? then m1.(attempts := m.attempts + [STARTED]) else m1
    case PrepareFails(i) => With(m, i, m.attempts[i].(phase := Saving(Failed)))
    case BeginData(i) => With(m, i, m.attempts[i].(phase := Transmitting, fate := Undecided))
    case ServerAccepts(i) => With(m, i, m.attempts[i].(fate := Accepted))
    case ServerRefuses(i) => With(m, i, m.attempts[i].(fate := Refused))
    case Sees(i, o) => With(m, i, m.attempts[i].(phase := Saving(o)))
    case Save(i, error, content, db) =>
      var stored := db.Committed? && Claimed(m.row);
      var m1 := m.(row := Through(db, m.row, SaveRow(m.row, StateFor(m.attempts[i].phase.outcome), error, content)));
      With(m1, i, m.attempts[i].(phase := if stored then Done else FallingBack,
                                 wrote := m.attempts[i].wrote + if Commits(db) && Claimed(m.row) then {m.attempts[i].phase.outcome} else {}))
    case Fallback(i, content, db) =>
      var m1 := m.(row := Through(db, m.row, SaveRow(m.row, UNKNOWN, CHECK, content)));
      With(m1, i, m.attempts[i].(phase := Done,
                                 wrote := m.attempts[i].wrote + if Commits(db) && Claimed(m.row) then {Uncertain} else {}))
    case Crash(i) => With(m, i, m.attempts[i].(phase := Crashed))
    case Reset(db) =>
      m.(row := Through(db, m.row, ResetRow(m.row)),
         resets := if Commits(db) && Resettable(m.row) then m.resets + 1 else m.resets)
    case MarkRead(db) => m.(row := Through(db, m.row, ReadRow(m.row)))
    case Delete(db) => m.(row := Through(db, m.row, DeleteRow(m.row)))
    case Recover(db) => m.(row := Through(db, m.row, RecoverRow(m.row)))
  }

  // ---- The potential ----

  /** An attempt holds a token while its message was or may yet be accepted, or while
      it may still make the row sendable again. */
  function Token(a: Attempt): nat {
    if a.fate.Accepted? || a.fate.Undecided? || a.phase.Preparing? || a.phase.Transmitting? || a.phase == Saving(Failed)
    then 1 else 0
  }

  function Tokens(attempts: seq<Attempt>): nat {
    if attempts == [] then 0 else Token(attempts[0]) + Tokens(attempts[1..])
  }

  /** How often the SMTP server accepted the message. */
  function Acceptances(attempts: seq<Attempt>): nat {
    if attempts == [] then 0 else (if attempts[0].fate.Accepted? then 1 else 0) + Acceptances(attempts[1..])
  }

  function CanSend(row: Row): nat {
    if Sendable(row) then 1 else 0
  }

  /** What a sender believes agrees with the fate of its message. */
  predicate Coherent(a: Attempt) {
    && (a.phase == Saving(Failed) || Failed in a.wrote ==> a.fate.NotSent? || a.fate.Refused?)
    && (a.phase == Saving(Delivered) || Delivered in a.wrote ==> a.fate.Accepted?)
    && (a.wrote != {} ==> a.phase.FallingBack? || a.phase.Done? || a.phase.Crashed?)
    && (a.phase.Preparing? ==> a.fate.NotSent?)
  }

  predicate Invariant(m: Mail) {
    && Tokens(m.attempts) + CanSend(m.row) <= 1 + m.resets
    && (forall i :: 0 <= i < |m.attempts| ==> Coherent(m.attempts[i]))
    && (m.row.state == SENT || m.row.state == READ ==> Acceptances(m.attempts) > 0)
  }

  lemma {:induction false} TokensUpdate(s: seq<Attempt>, i: nat, a: Attempt)
    requires i < |s|
    ensures Tokens(s[i := a]) == Tokens(s) - Token(s[i]) + Token(a)
    ensures !(s[i].fate.Accepted? && !a.fate.Accepted?) ==> Acceptances(s) <= Acceptances(s[i := a])
    ensures a.fate.Accepted? ==> Acceptances(s[i := a]) > 0
  {
    if i == 0 {
      assert s[i := a][1..] == s[1..];
    } else {
      assert s[i := a][1..] == s[1..][i - 1 := a];
      TokensUpdate(s[1..], i - 1, a);
    }
  }

  lemma {:induction false} TokensAppend(s: seq<Attempt>, a: Attempt)
    ensures Tokens(s + [a]) == Tokens(s) + Token(a)
    ensures Acceptances(s) <= Acceptances(s + [a])
  {
    if s == [] {
      assert s + [a] == [a];
    } else {
      assert (s + [a])[1..] == s[1..] + [a];
      TokensAppend(s[1..], a);
    }
  }

  lemma {:induction false} AcceptancesWithinTokens(s: seq<Attempt>)
    ensures Acceptances(s) <= Tokens(s)
  {
    if s != [] {
      AcceptancesWithinTokens(s[1..]);
    }
  }

  /** A step of one sender keeps the invariant when its token covers what it gives the row. */
  lemma SenderStep(m: Mail, m': Mail, i: nat, a: Attempt)
    requires Invariant(m) && i < |m.attempts|
    requires m'.attempts == m.attempts[i := a] && m'.resets == m.resets && Coherent(a)
    requires Token(a) + CanSend(m'.row) <= Token(m.attempts[i]) + CanSend(m.row)
    requires m.attempts[i].fate.Accepted? ==> a.fate.Accepted?
    requires m'.row.state == SENT || m'.row.state == READ ==> m.row.state == SENT || m.row.state == READ || a.fate.Accepted?
    ensures Invariant(m')
  {
    TokensUpdate(m.attempts, i, a);
  }

  lemma SmtpStep(m: Mail, s: Step)
    requires Invariant(m) && Enabled(m, s)
    requires s.PrepareFails? || s.BeginData? || s.ServerAccepts? || s.ServerRefuses? || s.Sees? || s.Crash?
    ensures Invariant(Apply(m, s))
  {
    SenderStep(m, Apply(m, s), s.i, Apply(m, s).attempts[s.i]);
  }

  lemma SaveStep(m: Mail, s: Step)
    requires Invariant(m) && Enabled(m, s) && s.Save?
    ensures Invariant(Apply(m, s))
  {
    assert Coherent(m.attempts[s.i]);
    SenderStep(m, Apply(m, s), s.i, Apply(m, s).attempts[s.i]);
  }

  lemma FallbackStep(m: Mail, s: Step)
    requires Invariant(m) && Enabled(m, s) && s.Fallback?
    ensures Invariant(Apply(m, s))
  {
    SenderStep(m, Apply(m, s), s.i, Apply(m, s).attempts[s.i]);
  }

  lemma RowStep(m: Mail, s: Step)
    requires Invariant(m) && (s.Claim? || s.Reset? || s.MarkRead? || s.Delete? || s.Recover?)
    ensures Invariant(Apply(m, s))
  {
    TokensAppend(m.attempts, STARTED);
  }

  /** Every step keeps the potential. */
  lemma StepKeepsInvariant(m: Mail, s: Step)
    requires Invariant(m) && Enabled(m, s)
    ensures Invariant(Apply(m, s))
  {
    if s.Save? {
      SaveStep(m, s);
    } else if s.Fallback? {
      FallbackStep(m, s);
    } else if s.Claim? || s.Reset? || s.MarkRead? || s.Delete? || s.Recover? {
      RowStep(m, s);
    } else {
      SmtpStep(m, s);
    }
  }

  // ---- Whole runs over all e-mails ----

  predicate NewMail(m: Mail) {
    m.row.state == WAITING && m.attempts == [] && m.resets == 0
  }

  /** An e-mail is created, or one step happens to one e-mail. */
  ghost predicate Next(w: World, w': World) {
    || (exists id, m :: id !in w && NewMail(m) && w' == w[id := m])
    || (exists id, s :: id in w && Enabled(w[id], s) && w' == w[id := Apply(w[id], s)])
  }

  ghost predicate IsRun(run: seq<World>) {
    && run != []
    && run[0] == map[]
    && forall k :: 0 <= k < |run| - 1 ==> Next(run[k], run[k + 1])
  }

  lemma NextKeepsInvariant(w: World, w': World)
    requires Next(w, w') && forall id :: id in w ==> Invariant(w[id])
    ensures forall id :: id in w' ==> Invariant(w'[id])
  {
    if id, m :| id !in w && NewMail(m) && w' == w[id := m] {
    } else {
      var id, s :| id in w && Enabled(w[id], s) && w' == w[id := Apply(w[id], s)];
      StepKeepsInvariant(w[id], s);
    }
  }

  lemma {:induction false} RunsKeepInvariant(run: seq<World>, k: nat)
    requires IsRun(run) && k < |run|
    ensures forall id :: id in run[k] ==> Invariant(run[k][id])
  {
    if k > 0 {
      RunsKeepInvariant(run, k - 1);
      NextKeepsInvariant(run[k - 1], run[k]);
    }
  }

  /** At-most-once delivery: in every run, the server accepts each e-mail at most once
      more than operators reset it. */
  lemma AtMostOnceUnlessReset(run: seq<World>, k: nat, id: string)
    requires IsRun(run) && k < |run| && id in run[k]
    ensures Acceptances(run[k][id].attempts) <= 1 + run[k][id].resets
  {
    RunsKeepInvariant(run, k);
    AcceptancesWithinTokens(run[k][id].attempts);
  }

  /** An e-mail that was never reset and can be sent again was never accepted, and none
      of its messages can still be accepted. */
  lemma RetryIsSafe(run: seq<World>, k: nat, id: string, i: nat)
    requires IsRun(run) && k < |run| && id in run[k]
    requires run[k][id].resets == 0 && Sendable(run[k][id].row) && i < |run[k][id].attempts|
    ensures run[k][id].attempts[i].fate.NotSent? || run[k][id].attempts[i].fate.Refused?
    ensures !run[k][id].attempts[i].phase.Preparing? && !run[k][id].attempts[i].phase.Transmitting?
  {
    RunsKeepInvariant(run, k);
    TokenBelowSum(run[k][id].attempts, i);
  }

  lemma {:induction false} TokenBelowSum(s: seq<Attempt>, i: nat)
    requires i < |s|
    ensures Token(s[i]) <= Tokens(s)
  {
    if i > 0 {
      TokenBelowSum(s[1..], i - 1);
    }
  }

  /** A success is only recorded for a message that the server accepted. */
  lemma SentWasAccepted(run: seq<World>, k: nat, id: string)
    requires IsRun(run) && k < |run| && id in run[k]
    requires run[k][id].row.state == SENT || run[k][id].row.state == READ
    ensures Acceptances(run[k][id].attempts) >= 1
  {
    RunsKeepInvariant(run, k);
  }

  // ---- What is recorded ----

  /** The life of a row, statement by statement. */
  predicate Arrow(m: Mail, s: Step, to: Row) {
    var row := m.row;
    match s
    case Claim(db) =>
      to == if Commits(db) && !row.deleted && (row.state == WAITING || row.state == ERROR) then row.(state := SENDING, error := "") else row
    case Save(i, error, content, db) =>
      && to.deleted == row.deleted
      && (!Commits(db) || row.deleted || row.state != SENDING ==> to == row)
      && (Commits(db) && !row.deleted && row.state == SENDING ==>
            && to.error == error && i < |m.attempts|
            && (to.state == SENT <==> m.attempts[i].phase == Saving(Delivered))
            && (to.state == ERROR <==> m.attempts[i].phase == Saving(Failed))
            && (to.state == UNKNOWN <==> m.attempts[i].phase == Saving(Uncertain))
            && (to.subject, to.message) == if content.Some? then (Some(content.value.0), Some(content.value.1)) else (row.subject, row.message))
    case Fallback(_, content, db) =>
      && to.deleted == row.deleted
      && (!Commits(db) || row.deleted || row.state != SENDING ==> to == row)
      && (Commits(db) && !row.deleted && row.state == SENDING ==> to.state == UNKNOWN && to.error == CHECK)
    case Reset(db) =>
      to == if Commits(db) && !row.deleted && (row.state == SENT || row.state == READ || row.state == UNKNOWN)
            then row.(state := ERROR, error := "", subject := None, message := None) else row
    case MarkRead(db) => to == if Commits(db) && !row.deleted && row.state == SENT then row.(state := READ) else row
    case Delete(db) => to == if Commits(db) && !row.deleted && row.state != SENDING then row.(deleted := true) else row
    case Recover(db) => to == if Commits(db) && !row.deleted && row.state == SENDING then row.(state := UNKNOWN, error := INTERRUPTED) else row
    case _ => to == row
  }

  lemma StepFollowsArrow(m: Mail, s: Step)
    requires Enabled(m, s)
    ensures Arrow(m, s, Apply(m, s).row)
  {}

  /** Some attempt brought this outcome into the row. */
  predicate Recorded(attempts: seq<Attempt>, o: Outcome) {
    exists i :: 0 <= i < |attempts| && o in attempts[i].wrote
  }

  /** The row tells what was recorded; only a reset makes it forget. */
  predicate Telling(m: Mail) {
    && (m.row.state == WAITING ==> m.attempts == [])
    && (m.row.state == SENT || m.row.state == READ ==> Recorded(m.attempts, Delivered))
    && (m.row.state == ERROR ==> m.resets > 0 || Recorded(m.attempts, Failed))
    && (m.resets == 0 && Recorded(m.attempts, Delivered) ==> m.row.state == SENT || m.row.state == READ)
    && (m.resets == 0 && Recorded(m.attempts, Uncertain) ==> m.row.state == UNKNOWN)
  }

  lemma RecordedUpdate(s: seq<Attempt>, i: nat, a: Attempt, o: Outcome)
    requires i < |s| && s[i].wrote <= a.wrote
    ensures Recorded(s[i := a], o) <==> Recorded(s, o) || o in a.wrote
  {
    var t := s[i := a];
    assert t[i] == a;
    if j :| 0 <= j < |s| && o in s[j].wrote {
      assert o in t[j].wrote;
    }
    if j :| 0 <= j < |t| && o in t[j].wrote && o !in a.wrote {
      assert o in s[j].wrote;
    }
  }

  lemma RecordedAppend(s: seq<Attempt>, a: Attempt, o: Outcome)
    requires a.wrote == {}
    ensures Recorded(s + [a], o) <==> Recorded(s, o)
  {
    if j :| 0 <= j < |s| && o in s[j].wrote {
      assert o in (s + [a])[j].wrote;
    }
    if j :| 0 <= j < |s + [a]| && o in (s + [a])[j].wrote {
      assert o in s[j].wrote;
    }
  }

  /** A statement of a sender records what it writes, and nothing is forgotten. */
  lemma SenderRecords(m: Mail, s: Step, o: Outcome)
    requires Enabled(m, s) && !s.Claim? && !s.Reset? && !s.MarkRead? && !s.Delete? && !s.Recover?
    ensures Recorded(Apply(m, s).attempts, o) <==>
              || Recorded(m.attempts, o)
              || (s.Save? && Commits(s.db) && Claimed(m.row) && m.attempts[s.i].phase.outcome == o)
              || (s.Fallback? && Commits(s.db) && Claimed(m.row) && o == Uncertain)
  {
    RecordedUpdate(m.attempts, s.i, Apply(m, s).attempts[s.i], o);
    if o in m.attempts[s.i].wrote {
      assert Recorded(m.attempts, o);
    }
  }

  lemma StepKeepsTelling(m: Mail, s: Step)
    requires Telling(m) && Enabled(m, s)
    ensures Telling(Apply(m, s))
  {
    hide Recorded;
    if s.Claim? {
      RecordedAppend(m.attempts, STARTED, Delivered);
      RecordedAppend(m.attempts, STARTED, Failed);
      RecordedAppend(m.attempts, STARTED, Uncertain);
    } else if !s.Reset? && !s.MarkRead? && !s.Delete? && !s.Recover? {
      SenderRecords(m, s, Delivered);
      SenderRecords(m, s, Failed);
      SenderRecords(m, s, Uncertain);
    }
  }

  lemma {:induction false} RunsTell(run: seq<World>, k: nat)
    requires IsRun(run) && k < |run|
    ensures forall id :: id in run[k] ==> Telling(run[k][id])
  {
    hide Telling, Apply, Enabled;
    if k > 0 {
      RunsTell(run, k - 1);
      assert Next(run[k - 1], run[k]);
      NextKeepsTelling(run[k - 1], run[k]);
    }
  }

  lemma NewIsTelling(m: Mail)
    requires NewMail(m)
    ensures Telling(m)
  {}

  lemma NextKeepsTelling(w: World, w': World)
    requires Next(w, w') && forall id :: id in w ==> Telling(w[id])
    ensures forall id :: id in w' ==> Telling(w'[id])
  {
    hide Telling, Apply, Enabled;
    if id, m :| id !in w && NewMail(m) && w' == w[id := m] {
      NewIsTelling(m);
    } else {
      var id, s :| id in w && Enabled(w[id], s) && w' == w[id := Apply(w[id], s)];
      StepKeepsTelling(w[id], s);
    }
  }

  /** Over every run, an e-mail that no operator reset is recorded as sent or read exactly
      when some attempt recorded its delivery, which the server then accepted; it is
      unknown once an attempt recorded that, and in error only when one recorded a failure,
      which the server then did not accept. */
  lemma RecordTells(run: seq<World>, k: nat, id: string)
    requires IsRun(run) && k < |run| && id in run[k] && run[k][id].resets == 0
    ensures var m := run[k][id];
            && (m.row.state == SENT || m.row.state == READ <==> Recorded(m.attempts, Delivered))
            && (Recorded(m.attempts, Uncertain) ==> m.row.state == UNKNOWN)
            && (m.row.state == ERROR ==> Recorded(m.attempts, Failed))
    ensures forall i :: 0 <= i < |run[k][id].attempts| ==>
              var a := run[k][id].attempts[i];
              && (Delivered in a.wrote ==> a.fate.Accepted?)
              && (Failed in a.wrote ==> a.fate.NotSent? || a.fate.Refused?)
  {
    RunsTell(run, k);
    RunsKeepInvariant(run, k);
    hide Tokens, Acceptances, Recorded, IsRun;
    assert Telling(run[k][id]) && Invariant(run[k][id]);
    assert forall i :: 0 <= i < |run[k][id].attempts| ==> Coherent(run[k][id].attempts[i]);
  }

  /** Over every run, a row changes only along the arrows of its life. */
  lemma RunsFollowArrows(run: seq<World>, k: nat, id: string)
    requires IsRun(run) && k + 1 < |run| && id in run[k]
    ensures id in run[k + 1]
    ensures run[k + 1][id] == run[k][id]
         || exists s :: Enabled(run[k][id], s) && run[k + 1][id] == Apply(run[k][id], s) && Arrow(run[k][id], s, run[k + 1][id].row)
  {
    hide Apply, Arrow, Enabled;
    var w, w' := run[k], run[k + 1];
    assert Next(w, w');
    if other, m :| other !in w && NewMail(m) && w' == w[other := m] {
      assert id != other;
    } else {
      var other, s :| other in w && Enabled(w[other], s) && w' == w[other := Apply(w[other], s)];
      if other == id {
        StepFollowsArrow(w[id], s);
      }
    }
  }
}
