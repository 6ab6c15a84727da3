/** pkg/db/migrations.go: the migration ledger. Every attempt runs in one transaction
    under an advisory lock, so a run of the system is a sequence of attempts, each of
    which commits as a whole or changes nothing. */
module Migrations {
  import opened Wrappers

  datatype Migration = Migration(version: int, name: string, sql: string, checksum: string)

  datatype Applied = Applied(version: int, name: string, checksum: string)

  /** What the database can do: run a script on a schema, recognise the tables of an
      unversioned installation, and compare a schema with the frozen first one. */
  datatype Engine<!S> = Engine(exec: (S, string) -> Option<S>, legacy: S -> bool, matches: S -> bool)

  /** The schema and the ledger table, if it exists; then, for the statements only, the
      migrations that were recorded, the scripts that ran, and the schema they ran on. */
  datatype Db<S> = Db(schema: S, rows: Option<seq<Applied>>, history: seq<Migration>, ran: seq<string>, origin: S)

  /** What fails around the scripts during one attempt. */
  datatype Io = Io(locks: bool, listed: bool, creates: bool, inserts: nat -> bool, commits: bool)

  function Rows<S>(db: Db<S>): seq<Applied> {
    if db.rows.None? then [] else db.rows.value
  }

  function Record(m: Migration): Applied {
    Applied(m.version, m.name, m.checksum)
  }

  function Records(ms: seq<Migration>): seq<Applied> {
    seq(|ms|, i requires 0 <= i < |ms| => Record(ms[i]))
  }

  function Scripts(ms: seq<Migration>): seq<string> {
    seq(|ms|, i requires 0 <= i < |ms| => ms[i].sql)
  }

  /** What loadMigrations returns: contiguous versions, at least one, and checksums by an
      injective hash. */
  ghost predicate Loaded(hash: string -> string, ms: seq<Migration>) {
    && ms != []
    && forall i :: 0 <= i < |ms| ==> ms[i].version == i + 1 && ms[i].checksum == hash(ms[i].sql)
  }

  ghost predicate Injective(hash: string -> string) {
    forall a, b :: hash(a) == hash(b) ==> a == b
  }

  // ---- The attempts ----

  predicate ValidHistory(ms: seq<Migration>, rows: seq<Applied>) {
    |rows| <= |ms| && forall i :: 0 <= i < |rows| ==> rows[i] == Record(ms[i])
  }

  /** Running scripts one after the other, from the first that fails on nothing. */
  function Replay<S>(exec: (S, string) -> Option<S>, schema: S, scripts: seq<string>): Option<S> {
    if scripts == [] then Some(schema)
    else
      var before := Replay(exec, schema, scripts[..|scripts| - 1]);
      if before.None? then None else exec(before.value, scripts[|scripts| - 1])
  }

  predicate MayMigrate<S>(e: Engine<S>, db: Db<S>, ms: seq<Migration>, io: Io) {
    && io.locks && io.listed && ValidHistory(ms, Rows(db))
    && (Rows(db) == [] ==> !e.legacy(db.schema))
    && io.creates && io.commits
    && (forall i :: |Rows(db)| <= i < |ms| ==> io.inserts(i))
    && Replay(e.exec, db.schema, Scripts(ms[|Rows(db)|..])).Some?
  }

  /** applyMigrations, as a whole. */
  function Migrated<S>(e: Engine<S>, db: Db<S>, ms: seq<Migration>, io: Io): Db<S> {
    if !MayMigrate(e, db, ms, io) then db
    else
      var pending := ms[|Rows(db)|..];
      Grown(db, pending, Replay(e.exec, db.schema, Scripts(pending)).value)
  }

  predicate MayAdopt<S>(e: Engine<S>, db: Db<S>, ms: seq<Migration>, io: Io) {
    && io.locks && io.listed && ValidHistory(ms, Rows(db)) && Rows(db) == []
    && e.matches(db.schema) && io.creates && io.inserts(0) && io.commits
  }

  /** Baseline: adopts the first migration without running it. */
  function Adopted<S>(e: Engine<S>, db: Db<S>, ms: seq<Migration>, io: Io): Db<S>
    requires ms != []
  {
    if MayAdopt(e, db, ms, io) then db.(rows := Some([Record(ms[0])]), history := [ms[0]]) else db
  }

  // ---- The invariant ----

  /** Whether the first recorded migration was adopted instead of run. */
  predicate WasAdopted<S>(db: Db<S>) {
    |db.ran| < |db.history|
  }

  ghost predicate Good<S>(e: Engine<S>, hash: string -> string, db: Db<S>) {
    && Rows(db) == Records(db.history)
    && (db.history != [] ==> Loaded(hash, db.history))
    && |db.history| <= |db.ran| + 1
    && (WasAdopted(db) ==> e.matches(db.origin))
    && db.ran == Scripts(db.history[if WasAdopted(db) then 1 else 0..])
    && Replay(e.exec, db.origin, db.ran) == Some(db.schema)
  }

  lemma {:induction false} ReplayInTwo<S>(exec: (S, string) -> Option<S>, schema: S, a: seq<string>, b: seq<string>)
    requires Replay(exec, schema, a).Some?
    ensures Replay(exec, schema, a + b) == Replay(exec, Replay(exec, schema, a).value, b)
    decreases |b|
  {
    if b == [] {
      assert a + b == a;
    } else {
      ReplayInTwo(exec, schema, a, b[..|b| - 1]);
      assert (a + b)[..|a + b| - 1] == a + b[..|b| - 1];
    }
  }

  /** The recorded migrations are a prefix of the list of any application that accepts
      the ledger: same scripts, not only same names. */
  lemma AcceptedIsPrefix<S>(e: Engine<S>, hash: string -> string, db: Db<S>, ms: seq<Migration>)
    requires Good(e, hash, db) && Injective(hash) && Loaded(hash, ms)
    ensures ValidHistory(ms, Rows(db)) <==> db.history <= ms
  {
    if ValidHistory(ms, Rows(db)) {
      forall i | 0 <= i < |db.history|
        ensures db.history[i] == ms[i]
      {
        assert Records(db.history)[i] == Record(ms[i]);
        assert hash(db.history[i].sql) == hash(ms[i].sql);
      }
    }
    if db.history <= ms {
      forall i | 0 <= i < |Rows(db)|
        ensures Rows(db)[i] == Record(ms[i])
      {
        assert db.history[i] == ms[i];
      }
    }
  }

  function Grown<S>(db: Db<S>, pending: seq<Migration>, schema: S): Db<S> {
    Db(schema, Some(Rows(db) + Records(pending)), db.history + pending, db.ran + Scripts(pending), db.origin)
  }

  lemma RecordsOfBoth(a: seq<Migration>, b: seq<Migration>)
    ensures Records(a + b) == Records(a) + Records(b)
  {}

  lemma ScriptsOfBoth(a: seq<Migration>, b: seq<Migration>)
    ensures Scripts(a + b) == Scripts(a) + Scripts(b)
  {}

  lemma GrowKeepsGood<S>(e: Engine<S>, hash: string -> string, db: Db<S>, pending: seq<Migration>, schema: S)
    requires Good(e, hash, db) && Loaded(hash, db.history + pending)
    requires Replay(e.exec, db.schema, Scripts(pending)) == Some(schema)
    ensures Good(e, hash, Grown(db, pending, schema))
  {
    ReplayInTwo(e.exec, db.origin, db.ran, Scripts(pending));
    hide Loaded, Replay;
    RecordsOfBoth(db.history, pending);
    var k := if WasAdopted(db) then 1 else 0;
    assert |db.ran| + k == |db.history|;
    assert (db.history + pending)[k..] == db.history[k..] + pending;
    ScriptsOfBoth(db.history[k..], pending);
  }

  /** An attempt to migrate either brings the ledger to the whole list, running exactly
      the scripts that were missing, or changes nothing. */
  lemma MigrateKeepsGood<S>(e: Engine<S>, hash: string -> string, db: Db<S>, ms: seq<Migration>, io: Io)
    requires Good(e, hash, db) && Injective(hash) && Loaded(hash, ms)
    ensures Good(e, hash, Migrated(e, db, ms, io))
    ensures if !MayMigrate(e, db, ms, io) then Migrated(e, db, ms, io) == db
            else
              && db.history <= ms && Migrated(e, db, ms, io).history == ms
              && Migrated(e, db, ms, io).ran == db.ran + Scripts(ms[|db.history|..])
  {
    AcceptedIsPrefix(e, hash, db, ms);
    if MayMigrate(e, db, ms, io) {
      var pending := ms[|Rows(db)|..];
      assert db.history + pending == ms;
      GrowKeepsGood(e, hash, db, pending, Replay(e.exec, db.schema, Scripts(pending)).value);
    }
  }

  /** Baseline records the first migration of an equivalent schema, without running it,
      only when nothing was recorded before. */
  lemma AdoptKeepsGood<S>(e: Engine<S>, hash: string -> string, db: Db<S>, ms: seq<Migration>, io: Io)
    requires Good(e, hash, db) && Injective(hash) && Loaded(hash, ms)
    ensures Good(e, hash, Adopted(e, db, ms, io))
    ensures if MayAdopt(e, db, ms, io) then db.history == [] && Adopted(e, db, ms, io).history == ms[..1]
            else Adopted(e, db, ms, io) == db
    ensures Adopted(e, db, ms, io).schema == db.schema && Adopted(e, db, ms, io).ran == db.ran
  {
    if MayAdopt(e, db, ms, io) {
      assert |Records(db.history)| == 0;
      assert Records([ms[0]]) == [Record(ms[0])];
      assert [ms[0]][1..] == [];
    }
  }

  // ---- Every run ----

  /** Attempts by any number of application instances, each with its own list. */
  datatype Attempt = Migrate(ms: seq<Migration>, io: Io) | Baseline(ms: seq<Migration>, io: Io)

  function Try<S>(e: Engine<S>, db: Db<S>, a: Attempt): Db<S> {
    if a.ms == [] then db
    else match a
         case Migrate(ms, io) => Migrated(e, db, ms, io)
         case Baseline(ms, io) => Adopted(e, db, ms, io)
  }

  function Run<S>(e: Engine<S>, db: Db<S>, attempts: seq<Attempt>): Db<S> {
    if attempts == [] then db else Try(e, Run(e, db, attempts[..|attempts| - 1]), attempts[|attempts| - 1])
  }

  /** A database whose ledger was never created. */
  function Fresh<S>(schema: S): Db<S> {
    Db(schema, None, [], [], schema)
  }

  lemma FreshIsGood<S>(e: Engine<S>, hash: string -> string, schema: S)
    ensures Good(e, hash, Fresh(schema))
  {
    var scripts := Scripts([]);
    assert scripts == [];
  }

  /** Over every run, whatever the lists and the failures: the ledger only grows, what it
      records was run exactly once and in order (the first may have been adopted from an
      equivalent schema), and the schema is the result of exactly those scripts. */
  lemma {:induction false} LedgerIsOrdered<S>(e: Engine<S>, hash: string -> string, db: Db<S>, attempts: seq<Attempt>)
    requires Good(e, hash, db) && Injective(hash)
    requires forall i :: 0 <= i < |attempts| ==> attempts[i].ms == [] || Loaded(hash, attempts[i].ms)
    ensures Good(e, hash, Run(e, db, attempts))
    ensures db.history <= Run(e, db, attempts).history && db.ran <= Run(e, db, attempts).ran
    ensures db.history != [] ==> (WasAdopted(Run(e, db, attempts)) <==> WasAdopted(db))
    decreases |attempts|
  {
    hide Migrated, Adopted, MayMigrate, MayAdopt, Loaded, Injective, Replay;
    if attempts != [] {
      var n := |attempts| - 1;
      LedgerIsOrdered(e, hash, db, attempts[..n]);
      var before, a := Run(e, db, attempts[..n]), attempts[n];
      if a.ms != [] {
        match a
        case Migrate(ms, io) => MigrateKeepsGood(e, hash, before, ms, io);
        case Baseline(ms, io) => AdoptKeepsGood(e, hash, before, ms, io);
      }
    }
  }

  /** Tables of a time before the ledger keep every migration away until the schema has
      been adopted. */
  lemma {:induction false} LegacyIsOnlyAdopted<S>(e: Engine<S>, hash: string -> string, schema: S, attempts: seq<Attempt>)
    requires Injective(hash) && e.legacy(schema)
    requires forall i :: 0 <= i < |attempts| ==> attempts[i].ms == [] || Loaded(hash, attempts[i].ms)
    ensures var db := Run(e, Fresh(schema), attempts);
            (Rows(db) == [] ==> db == Fresh(schema)) && (Rows(db) != [] ==> WasAdopted(db) && e.matches(schema))
    decreases |attempts|
  {
    hide Loaded, Replay, Injective;
    if attempts != [] {
      var n := |attempts| - 1;
      LegacyIsOnlyAdopted(e, hash, schema, attempts[..n]);
      FreshIsGood(e, hash, schema);
      LedgerIsOrdered(e, hash, Fresh(schema), attempts[..n]);
      LedgerIsOrdered(e, hash, Run(e, Fresh(schema), attempts[..n]), [attempts[n]]);
      OriginStays(e, Fresh(schema), attempts);
      OneAttempt(e, Run(e, Fresh(schema), attempts[..n]), attempts[n]);
      NoRowsNoHistory(e, hash, Run(e, Fresh(schema), attempts[..n]));
      NoRowsNoHistory(e, hash, Run(e, Fresh(schema), attempts));
      LegacyAttempt(e, hash, Run(e, Fresh(schema), attempts[..n]), attempts[n], schema);
    }
  }

  lemma OneAttempt<S>(e: Engine<S>, db: Db<S>, a: Attempt)
    ensures Run(e, db, [a]) == Try(e, db, a)
  {
    assert [a][..0] == [];
  }

  lemma NoRowsNoHistory<S>(e: Engine<S>, hash: string -> string, db: Db<S>)
    requires Good(e, hash, db)
    ensures Rows(db) == [] <==> db.history == []
  {
    assert |Rows(db)| == |db.history|;
  }

  /** One attempt on a schema with legacy tables and an empty ledger. */
  lemma LegacyAttempt<S>(e: Engine<S>, hash: string -> string, db: Db<S>, a: Attempt, schema: S)
    requires Good(e, hash, db) && (a.ms == [] || Loaded(hash, a.ms)) && Injective(hash)
    ensures db == Fresh(schema) && e.legacy(schema) ==>
              Try(e, db, a) == db || (Rows(Try(e, db, a)) != [] && WasAdopted(Try(e, db, a)) && e.matches(schema))
  {
    if a.ms != [] && db == Fresh(schema) && a.Baseline? {
      AdoptKeepsGood(e, hash, db, a.ms, a.io);
    }
  }

  /** When nothing fails around the scripts, an attempt brings the ledger to its list
      exactly when the ledger is a prefix of it, no legacy table stands without a ledger,
      and the missing scripts run. */
  lemma MigratesIff<S>(e: Engine<S>, hash: string -> string, db: Db<S>, ms: seq<Migration>, io: Io)
    requires Good(e, hash, db) && Injective(hash) && Loaded(hash, ms)
    requires io.locks && io.listed && io.creates && io.commits && forall i: nat :: io.inserts(i)
    ensures Migrated(e, db, ms, io).history == ms <==>
              || db.history == ms
              || (db.history <= ms && (db.history == [] ==> !e.legacy(db.schema))
                  && Replay(e.exec, db.schema, Scripts(ms[|db.history|..])).Some?)
  {
    AcceptedIsPrefix(e, hash, db, ms);
    MigrateKeepsGood(e, hash, db, ms, io);
    NoRowsNoHistory(e, hash, db);
    assert |Rows(db)| == |db.history|;
  }

  /** When nothing fails around it, a baseline takes effect exactly on an empty ledger and
      an equivalent schema. */
  lemma AdoptsIff<S>(e: Engine<S>, hash: string -> string, db: Db<S>, ms: seq<Migration>, io: Io)
    requires Good(e, hash, db) && Injective(hash) && Loaded(hash, ms)
    requires io.locks && io.listed && io.creates && io.commits && io.inserts(0)
    ensures Adopted(e, db, ms, io) != db <==> db.history == [] && e.matches(db.schema)
  {
    NoRowsNoHistory(e, hash, db);
  }

  /** From a new database: the rows are the records of the migrations, in order, and the
      schema is what their scripts make of the first one, possibly without the script of
      a first migration whose schema was already there. */
  lemma LedgerTellsSchema<S>(e: Engine<S>, hash: string -> string, schema: S, attempts: seq<Attempt>)
    requires Injective(hash)
    requires forall i :: 0 <= i < |attempts| ==> attempts[i].ms == [] || Loaded(hash, attempts[i].ms)
    ensures var db := Run(e, Fresh(schema), attempts);
            && Rows(db) == Records(db.history)
            && ((Replay(e.exec, schema, Scripts(db.history)) == Some(db.schema))
                || (db.history != [] && e.matches(schema)
                    && Replay(e.exec, schema, Scripts(db.history[1..])) == Some(db.schema)))
  {
    hide Run, Loaded, Replay, Injective;
    FreshIsGood(e, hash, schema);
    LedgerIsOrdered(e, hash, Fresh(schema), attempts);
    var db := Run(e, Fresh(schema), attempts);
    OriginStays(e, Fresh(schema), attempts);
    assert db.history[0..] == db.history;
  }

  lemma {:induction false} OriginStays<S>(e: Engine<S>, db: Db<S>, attempts: seq<Attempt>)
    ensures Run(e, db, attempts).origin == db.origin
    decreases |attempts|
  {
    hide Replay;
    if attempts != [] {
      OriginStays(e, db, attempts[..|attempts| - 1]);
    }
  }

  // ---- The attempts, statement by statement ----

  method CheckHistory(ms: seq<Migration>, rows: seq<Applied>) returns (ok: bool)
    ensures ok <==> ValidHistory(ms, rows)
  {
    if |rows| > |ms| {
      return false;
    }
    for i := 0 to |rows|
      invariant forall j :: 0 <= j < i ==> rows[j] == Record(ms[j])
    {
      if rows[i].version != ms[i].version || rows[i].name != ms[i].name || rows[i].checksum != ms[i].checksum {
        return false;
      }
    }
    return true;
  }

  class Database<!S> {
    const engine: Engine<S>
    var schema: S
    var rows: Option<seq<Applied>>
    ghost var history: seq<Migration>
    ghost var ran: seq<string>
    ghost const origin: S

    constructor (engine: Engine<S>, schema: S)
      ensures this.engine == engine && State() == Db(schema, None, [], [], schema)
    {
      this.engine, this.schema, rows, history, ran, origin := engine, schema, None, [], [], schema;
    }

    ghost function State(): Db<S>
      reads this
    {
      Db(schema, rows, history, ran, origin)
    }

    method AppliedRows(io: Io) returns (r: Result<seq<Applied>>)
      ensures r.Ok? <==> io.listed
      ensures r.Ok? ==> r.value == Rows(State())
    {
      if !io.listed {
        return Err("ledger");
      }
      return Ok(if rows.None? then [] else rows.value);
    }

    /** The loop of applyMigrations, on the state of the open transaction. */
    method RunPending(pending: seq<Migration>, applied: seq<Applied>, io: Io) returns (r: Option<(S, seq<Applied>)>)
      ensures r.Some? <==> Replay(engine.exec, schema, Scripts(pending)).Some?
                           && forall j :: |applied| <= j < |applied| + |pending| ==> io.inserts(j)
      ensures r.Some? ==> Replay(engine.exec, schema, Scripts(pending)) == Some(r.value.0)
      ensures r.Some? ==> r.value.1 == applied + Records(pending)
    {
      hide Replay, Records, Scripts;
      var written, recorded := schema, applied;
      NothingPending(engine, schema, pending, applied);
      for i := 0 to |pending|
        invariant Replay(engine.exec, schema, Scripts(pending[..i])) == Some(written)
        invariant recorded == applied + Records(pending[..i])
        invariant forall j :: |applied| <= j < |applied| + i ==> io.inserts(j)
      {
        PendingNext(engine, schema, pending, i, applied);
        var next := engine.exec(written, pending[i].sql);
        if next.None? {
          PendingStops(engine, schema, pending, i + 1);
          return None;
        }
        written := next.value;
        if !io.inserts(|applied| + i) {
          return None;
        }
        recorded := recorded + [Record(pending[i])];
      }
      assert pending[..|pending|] == pending;
      return Some((written, recorded));
    }

    /** applyMigrations: scripts and records are written in one transaction. */
    method ApplyMigrations(ms: seq<Migration>, io: Io) returns (ok: bool)
      requires ms != []
      modifies this
      ensures State() == Try(engine, old(State()), Migrate(ms, io)) && (ok <==> MayMigrate(engine, old(State()), ms, io))
    {
      hide Replay, Records, Scripts, ValidHistory;
      if !io.locks {
        return false;
      }
      var applied := AppliedRows(io);
      if applied.Err? {
        return false;
      }
      var valid := CheckHistory(ms, applied.value);
      if !valid {
        return false;
      }
      if |applied.value| == 0 && engine.legacy(schema) {
        return false;
      }
      if !io.creates {
        return false;
      }
      HistoryFits(ms, applied.value);
      var pending := ms[|applied.value|..];
      var done := RunPending(pending, applied.value, io);
      if done.None? || !io.commits {
        return false;
      }
      schema, rows := done.value.0, Some(done.value.1);
      history, ran := history + pending, ran + Scripts(pending);
      return true;
    }

    /** Baseline: an already versioned database is left alone, without error. */
    method BaselineSchema(ms: seq<Migration>, io: Io) returns (ok: bool)
      requires ms != []
      modifies this
      ensures State() == Try(engine, old(State()), Baseline(ms, io))
      ensures ok <==> MayAdopt(engine, old(State()), ms, io)
                      || (io.locks && io.listed && io.commits && ValidHistory(ms, Rows(old(State()))) && Rows(old(State())) != [])
    {
      if !io.locks {
        return false;
      }
      var applied := AppliedRows(io);
      if applied.Err? {
        return false;
      }
      var valid := CheckHistory(ms, applied.value);
      if !valid {
        return false;
      }
      if |applied.value| != 0 {
        return io.commits;
      }
      if !engine.matches(schema) || !io.creates || !io.inserts(0) || !io.commits {
        return false;
      }
      rows, history := Some([Record(ms[0])]), [ms[0]];
      return true;
    }
  }

  lemma NothingPending<S>(e: Engine<S>, schema: S, pending: seq<Migration>, applied: seq<Applied>)
    ensures Replay(e.exec, schema, Scripts(pending[..0])) == Some(schema) && applied == applied + Records(pending[..0])
  {}

  lemma PendingNext<S>(e: Engine<S>, schema: S, pending: seq<Migration>, i: nat, applied: seq<Applied>)
    requires i < |pending| && Replay(e.exec, schema, Scripts(pending[..i])).Some?
    ensures Replay(e.exec, schema, Scripts(pending[..i + 1]))
         == e.exec(Replay(e.exec, schema, Scripts(pending[..i])).value, pending[i].sql)
    ensures applied + Records(pending[..i + 1]) == applied + Records(pending[..i]) + [Record(pending[i])]
  {
    ScriptsNext(pending, i);
    assert Records(pending[..i + 1]) == Records(pending[..i]) + [Record(pending[i])];
  }

  lemma PendingStops<S>(e: Engine<S>, schema: S, pending: seq<Migration>, k: nat)
    requires k <= |pending| && Replay(e.exec, schema, Scripts(pending[..k])).None?
    ensures Replay(e.exec, schema, Scripts(pending)).None?
  {
    assert Scripts(pending)[..k] == Scripts(pending[..k]);
    ReplayStops(e.exec, schema, Scripts(pending), k);
  }

  lemma HistoryFits(ms: seq<Migration>, rows: seq<Applied>)
    requires ValidHistory(ms, rows)
    ensures |rows| <= |ms|
  {}

  lemma ScriptsNext(ms: seq<Migration>, i: nat)
    requires i < |ms|
    ensures Scripts(ms[..i + 1])[..i] == Scripts(ms[..i]) && Scripts(ms[..i + 1])[i] == ms[i].sql
    ensures Scripts(ms)[..i + 1] == Scripts(ms[..i + 1])
  {}

  lemma {:induction false} ReplayStops<S>(exec: (S, string) -> Option<S>, schema: S, scripts: seq<string>, k: nat)
    requires k <= |scripts| && Replay(exec, schema, scripts[..k]).None?
    ensures Replay(exec, schema, scripts).None?
    decreases |scripts|
  {
    if k < |scripts| {
      assert scripts[..|scripts| - 1][..k] == scripts[..k];
      ReplayStops(exec, schema, scripts[..|scripts| - 1], k);
    } else {
      assert scripts[..k] == scripts;
    }
  }
}
