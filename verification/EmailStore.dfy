/** The e-mail table and its conditional updates (controllers/emails.go), and the SMTP
    dialogue with its three outcomes (pkg/smtp/smtp.go). */
module EmailStore {
  import opened Wrappers

  datatype EmailState = WAITING | SENDING | UNKNOWN | SENT | ERROR | READ

  datatype Row = Row(state: EmailState, error: string, subject: Option<string>, message: Option<string>, deleted: bool)

  /** How the database answers a write: it may commit and still report an error. */
  datatype Db = Committed | NotCommitted | CommittedButReported

  predicate Commits(db: Db) {
    !db.NotCommitted?
  }

  predicate Reports(db: Db) {
    !db.Committed?
  }

  // ---- SMTP ----

  /** The answer to one exchange: success, an SMTP reply with its code, or a broken
      connection (timeouts and cancellations included). */
  datatype Reply = Fine | Code(code: nat) | Broken

  /** All exchanges of one delivery, in order; TLS and AUTH only when configured. */
  datatype Dialogue = Dialogue(opening: seq<Reply>, write: Reply, close: Reply)

  /** What the server did with the message. */
  datatype Fate = NotSent | Undecided | Accepted | Refused

  datatype Outcome = Delivered | Failed | Uncertain

  predicate Opened(d: Dialogue) {
    forall i :: 0 <= i < |d.opening| ==> d.opening[i].Fine?
  }

  /** What the protocol guarantees about the fate of a message, given the dialogue: the
      server can only decide once DATA began, and a final reply tells its decision. */
  predicate Consistent(d: Dialogue, fate: Fate) {
    && (!Opened(d) ==> fate.NotSent?)
    && (Opened(d) && d.write.Fine? && d.close.Fine? ==> fate.Accepted?)
    && (Opened(d) && d.write.Fine? && d.close.Code? && d.close.code >= 400 ==> fate.Refused?)
  }

  /** A sender may believe what the final reply told it, or nothing at all. */
  predicate MaySee(fate: Fate, o: Outcome) {
    match o
    case Delivered => fate.Accepted?
    case Failed => fate.Refused?
    case Uncertain => true
  }

  /** sendEmail: dial, deadline, greeting, TLS, AUTH, MAIL, RCPT and DATA are the
      opening; then the message is written and closed. */
  method SendMessage(d: Dialogue) returns (o: Outcome)
    ensures Opened(d) ==> forall fate :: Consistent(d, fate) ==> MaySee(fate, o)
    ensures !Opened(d) ==> o.Failed?
    ensures o.Uncertain? <==> Consistent(d, Accepted) && Consistent(d, Refused)
  {
    for i := 0 to |d.opening|
      invariant forall j :: 0 <= j < i ==> d.opening[j].Fine?
    {
      if !d.opening[i].Fine? {
        assert Consistent(d, NotSent);
        return Failed;
      }
    }
    assert Opened(d);
    if !d.write.Fine? {
      assert Consistent(d, Undecided);
      return Uncertain;
    }
    if !d.close.Fine? {
      if d.close.Code? && d.close.code >= 400 {
        assert Consistent(d, Refused);
        return Failed;
      }
      assert Consistent(d, Undecided);
      return Uncertain;
    }
    return Delivered;
  }

  // ---- Conditional updates of one row ----

  predicate Sendable(row: Row) {
    !row.deleted && (row.state == WAITING || row.state == ERROR)
  }

  predicate Claimed(row: Row) {
    !row.deleted && row.state == SENDING
  }

  function ClaimRow(row: Row): Row {
    if Sendable(row) then row.(state := SENDING, error := "") else row
  }

  function StateFor(o: Outcome): EmailState {
    match o
    case Delivered => SENT
    case Failed => ERROR
    case Uncertain => UNKNOWN
  }

  /** The outcome is saved only while the row is still claimed. */
  function SaveRow(row: Row, state: EmailState, error: string, content: Option<(string, string)>): Row {
    if !Claimed(row) then row
    else if content.None? then row.(state := state, error := error)
    else row.(state := state, error := error, subject := Some(content.value.0), message := Some(content.value.1))
  }

  predicate Resettable(row: Row) {
    !row.deleted && (row.state == SENT || row.state == READ || row.state == UNKNOWN)
  }

  function ResetRow(row: Row): Row {
    if Resettable(row) then row.(state := ERROR, error := "", subject := None, message := None) else row
  }

  function ReadRow(row: Row): Row {
    if !row.deleted && row.state == SENT then row.(state := READ) else row
  }

  function DeleteRow(row: Row): Row {
    if !row.deleted && row.state != SENDING then row.(deleted := true) else row
  }

  const INTERRUPTED := "interrupted: check delivery"

  /** dev/recover-email.sql: an interrupted claim becomes uncertain. */
  function RecoverRow(row: Row): Row {
    if Claimed(row) then row.(state := UNKNOWN, error := INTERRUPTED) else row
  }

  /** A write through the database: the row only changes when the write commits. */
  function Through(db: Db, before: Row, after: Row): Row {
    if Commits(db) then after else before
  }

  const CHECK := "check before any resend"

  datatype SendResult = Started | DbError | NotFound | WrongState(state: EmailState)

  class EmailTable {
    var rows: map<string, Row>

    constructor ()
      ensures rows == map[]
    {
      rows := map[];
    }

    /** SendEmail up to the claim: at most one caller can turn a sendable row into a
        claimed one, and only that caller goes on to SMTP. */
    method Claim(id: string, db: Db) returns (r: SendResult)
      modifies this
      ensures id !in old(rows) ==> rows == old(rows)
      ensures id in old(rows) ==>
                var row := old(rows)[id];
                rows == old(rows)[id := if Commits(db) && !row.deleted && (row.state == WAITING || row.state == ERROR)
                                        then row.(state := SENDING, error := "") else row]
      ensures r.Started? <==> id in old(rows) && Sendable(old(rows)[id]) && db.Committed?
      ensures r.WrongState? ==> id in old(rows) && !old(rows)[id].deleted && r.state == old(rows)[id].state && !Sendable(old(rows)[id])
      ensures r.NotFound? ==> id !in old(rows) || old(rows)[id].deleted
      ensures r.DbError? <==> Reports(db)
    {
      var affected := 0;
      if Commits(db) && id in rows && Sendable(rows[id]) {
        rows := rows[id := rows[id].(state := SENDING, error := "")];
        affected := 1;
      }
      if Reports(db) {
        return DbError;
      }
      if affected != 1 {
        if id !in rows || rows[id].deleted {
          return NotFound;
        }
        return WrongState(rows[id].state);
      }
      return Started;
    }

    /** sendClaimedEmail, once the outcome is known: persist it, and fall back to
        UNKNOWN when that may not have worked. Returns whether the outcome is stored. */
    method SaveOutcome(id: string, o: Outcome, error: string, content: Option<(string, string)>, db: Db, fallback: Db)
      returns (stored: bool)
      requires id in rows
      modifies this
      ensures stored <==> db.Committed? && Claimed(old(rows)[id])
      ensures id in rows && rows == old(rows)[id := rows[id]] && rows[id].deleted == old(rows)[id].deleted
      ensures stored ==>
                && (rows[id].state == SENT <==> o.Delivered?) && (rows[id].state == ERROR <==> o.Failed?)
                && (rows[id].state == UNKNOWN <==> o.Uncertain?) && rows[id].error == error
      ensures !Claimed(old(rows)[id]) || (!Commits(db) && !Commits(fallback)) ==> rows[id] == old(rows)[id]
      ensures !stored && Claimed(old(rows)[id]) && !Commits(db) && Commits(fallback) ==> rows[id].state == UNKNOWN && rows[id].error == CHECK
      ensures !stored && Claimed(old(rows)[id]) && Commits(db) ==>
                (rows[id].state == SENT <==> o.Delivered?) && (rows[id].state == ERROR <==> o.Failed?) && (rows[id].state == UNKNOWN <==> o.Uncertain?)
      ensures rows[id] != old(rows)[id] && content.Some? ==>
                rows[id].subject == Some(content.value.0) && rows[id].message == Some(content.value.1)
      ensures content.None? ==> rows[id].subject == old(rows)[id].subject && rows[id].message == old(rows)[id].message
      ensures var saved := Through(db, old(rows)[id], SaveRow(old(rows)[id], StateFor(o), error, content));
              rows == old(rows)[id := if stored then saved
                                      else Through(fallback, saved, SaveRow(saved, UNKNOWN, CHECK, content))]
    {
      var affected := 0;
      if Commits(db) && Claimed(rows[id]) {
        rows := rows[id := SaveRow(rows[id], StateFor(o), error, content)];
        affected := 1;
      }
      stored := !Reports(db) && affected == 1;
      if !stored && Commits(fallback) && Claimed(rows[id]) {
        rows := rows[id := SaveRow(rows[id], UNKNOWN, CHECK, content)];
      }
    }

    method MarkAsError(id: string, db: Db) returns (done: bool)
      modifies this
      ensures id !in old(rows) ==> rows == old(rows) && !done
      ensures id in old(rows) ==>
                var row := old(rows)[id];
                rows == old(rows)[id := if Commits(db) && !row.deleted && (row.state == SENT || row.state == READ || row.state == UNKNOWN)
                                        then row.(state := ERROR, error := "", subject := None, message := None) else row]
      ensures done <==> id in old(rows) && Resettable(old(rows)[id]) && db.Committed?
    {
      var affected := 0;
      if Commits(db) && id in rows && Resettable(rows[id]) {
        rows := rows[id := rows[id].(state := ERROR, error := "", subject := None, message := None)];
        affected := 1;
      }
      done := !Reports(db) && affected == 1;
    }

    method MarkAsRead(id: string, db: Db)
      modifies this
      ensures id !in old(rows) ==> rows == old(rows)
      ensures id in old(rows) ==>
                var row := old(rows)[id];
                rows == old(rows)[id := if Commits(db) && !row.deleted && row.state == SENT then row.(state := READ) else row]
    {
      if Commits(db) && id in rows && !rows[id].deleted && rows[id].state == SENT {
        rows := rows[id := rows[id].(state := READ)];
      }
    }

    method DeleteEmail(id: string, db: Db) returns (done: bool)
      modifies this
      ensures id !in old(rows) ==> rows == old(rows) && !done
      ensures id in old(rows) ==>
                var row := old(rows)[id];
                rows == old(rows)[id := if Commits(db) && !row.deleted && row.state != SENDING then row.(deleted := true) else row]
      ensures done <==> id in old(rows) && !old(rows)[id].deleted && old(rows)[id].state != SENDING && db.Committed?
    {
      var affected := 0;
      if Commits(db) && id in rows && !rows[id].deleted && rows[id].state != SENDING {
        rows := rows[id := rows[id].(deleted := true)];
        affected := 1;
      }
      done := !Reports(db) && affected == 1;
    }
  }
}
