/**
 The forward-only migration runner of cmd/migrate/engine/runner.go.

 The database is a schema (object name to definition), the recorded versions, and a count of the
 outside operations so far.  An oracle decides the fate of each outside operation: it succeeds, or
 it is reported failed and either took effect or did not.  A crash is a reported failure that
 nobody reads.
 */
module Runner {
  import opened Wrappers
  import opened Catalog
  import Splitter

  datatype Fate = Done | FailedUndone | FailedDone

  /** What a create-if-absent statement creates. */
  datatype Creation = Creation(target: string, definition: string)

  datatype Record = Record(version: nat, name: string, checksum: string)

  datatype Db = Db(
    schema: map<string, string>,
    recorded: seq<Record>,
    hasMetadata: bool,
    attempted: seq<string>,
    time: nat)

  /** The files, and the three functions the runner calls but does not define. */
  datatype World = World(
    bases: seq<string>,
    files: map<string, string>,
    fate: nat -> Fate,
    creates: string -> Creation,
    checksum: string -> string)

  datatype UpError =
    | BootstrapFailed
    | CatalogUnreadable
    | CatalogInvalid
    | AppliedUnreadable
    | ChecksumFailed(name: string)
    | FileUnreadable(name: string)
    | StatementFailed(name: string, position: nat, total: nat)
    | RecordFailed(name: string)

  datatype Outcome = Outcome(db: Db, err: Option<UpError>)

  // ---------------------------------------------------------------- one run, as a function

  function Create(schema: map<string, string>, c: Creation): map<string, string> {
    if c.target in schema then schema else schema[c.target := c.definition]
  }

  function Tick(db: Db): Db {
    db.(time := db.time + 1)
  }

  function Exec(w: World, db: Db, stmt: string): Db {
    var tried := Tick(db).(attempted := db.attempted + [stmt]);
    if w.fate(db.time).FailedUndone? then tried else tried.(schema := Create(db.schema, w.creates(stmt)))
  }

  function InsertRecord(w: World, db: Db, r: Record): Db {
    if w.fate(db.time).FailedUndone? then Tick(db) else Tick(db).(recorded := db.recorded + [r])
  }

  function Bootstrap(w: World, db: Db): Db {
    if w.fate(db.time).FailedUndone? then Tick(db) else Tick(db).(hasMetadata := true)
  }

  function ExecFrom(w: World, name: string, stmts: seq<string>, i: nat, db: Db): (o: Outcome)
    requires i <= |stmts|
    ensures o.db.recorded == db.recorded
    decreases |stmts| - i
  {
    if i == |stmts| then Outcome(db, None)
    else
      var after := Exec(w, db, stmts[i]);
      if w.fate(db.time).Done? then ExecFrom(w, name, stmts, i + 1, after)
      else Outcome(after, Some(StatementFailed(name, i + 1, |stmts|)))
  }

  /** The statements of a migration file; a missing file is reported when it is read. */
  function StatementsOf(w: World, m: Migration): seq<string> {
    if m.path in w.files then Splitter.Statements(w.files[m.path]) else []
  }

  function Apply(w: World, m: Migration, dryRun: bool, db: Db): Outcome {
    if !w.fate(db.time).Done? || m.path !in w.files then Outcome(Tick(db), Some(ChecksumFailed(m.name)))
    else if dryRun then Outcome(Tick(db), None)
    else if !w.fate(db.time + 1).Done? then Outcome(Tick(Tick(db)), Some(FileUnreadable(m.name)))
    else
      var o := ExecFrom(w, m.name, StatementsOf(w, m), 0, Tick(Tick(db)));
      if o.err.Some? then o
      else
        var after := InsertRecord(w, o.db, Record(m.version, m.name, w.checksum(w.files[m.path])));
        Outcome(after, if w.fate(o.db.time).Done? then None else Some(RecordFailed(m.name)))
  }

  function ApplyFrom(w: World, catalog: seq<Migration>, i: nat, applied: set<nat>, dryRun: bool, db: Db): Outcome
    requires i <= |catalog|
    decreases |catalog| - i
  {
    if i == |catalog| then Outcome(db, None)
    else if catalog[i].version in applied then ApplyFrom(w, catalog, i + 1, applied, dryRun, db)
    else
      var o := Apply(w, catalog[i], dryRun, db);
      if o.err.Some? then o else ApplyFrom(w, catalog, i + 1, applied, dryRun, o.db)
  }

  function Versions(recorded: seq<Record>): set<nat> {
    set r | r in recorded :: r.version
  }

  /** Each version is mapped to a record of it. */
  predicate Tabulates(table: map<nat, Record>, recorded: seq<Record>) {
    forall v | v in table :: table[v] in recorded && table[v].version == v
  }

  function UpRun(w: World, dryRun: bool, db: Db): Outcome {
    var b := Bootstrap(w, db);
    if !w.fate(db.time).Done? then Outcome(b, Some(BootstrapFailed))
    else if !w.fate(b.time).Done? then Outcome(Tick(b), Some(CatalogUnreadable))
    else if !Acceptable(w.bases, |w.bases|) then Outcome(Tick(b), Some(CatalogInvalid))
    else
      var q := Tick(b);
      if !w.fate(q.time).Done? || !q.hasMetadata then Outcome(Tick(q), Some(AppliedUnreadable))
      else ApplyFrom(w, Load(w.bases), 0, Versions(q.recorded), dryRun, Tick(q))
  }

  // ---------------------------------------------------------------- the runner

  class Runner {
    var db: Db
    const w: World

    constructor (w: World, db: Db)
      ensures this.w == w && this.db == db
    {
      this.w := w;
      this.db := db;
    }

    /** Executes one statement and reports whether it succeeded. */
    method ExecContext(stmt: string) returns (ok: bool)
      modifies this
      ensures db == Exec(w, old(db), stmt) && ok == w.fate(old(db).time).Done?
    {
      ok := w.fate(db.time).Done?;
      db := Exec(w, db, stmt);
    }

    method Applied() returns (r: Option<map<nat, Record>>)
      modifies this
      ensures db == Tick(old(db))
      ensures r.None? <==> !w.fate(old(db).time).Done? || !db.hasMetadata
      ensures r.Some? ==> r.value.Keys == Versions(db.recorded)
      ensures r.Some? ==> Tabulates(r.value, db.recorded)
    {
      var ok := w.fate(db.time).Done? && db.hasMetadata;
      db := Tick(db);
      if !ok {
        return None;
      }
      var result: map<nat, Record> := map[];
      for i := 0 to |db.recorded|
        invariant result.Keys == Versions(db.recorded[..i])
        invariant Tabulates(result, db.recorded)
      {
        assert db.recorded[..i + 1] == db.recorded[..i] + [db.recorded[i]];
        result := result[db.recorded[i].version := db.recorded[i]];
      }
      assert db.recorded[..|db.recorded|] == db.recorded;
      return Some(result);
    }

    /** One pending migration: its statements in order, then its record; only its checksum in a dry run. */
    method ApplyOne(m: Migration, dryRun: bool) returns (err: Option<UpError>)
      modifies this
      ensures Outcome(db, err) == Apply(w, m, dryRun, old(db))
    {
      hide Exec, InsertRecord, Splitter.Statements;
      var ok := w.fate(db.time).Done? && m.path in w.files;
      db := Tick(db);
      if !ok {
        return Some(ChecksumFailed(m.name));
      }
      var checksum := w.checksum(w.files[m.path]);
      if dryRun {
        return None;
      }
      ok := w.fate(db.time).Done?;
      db := Tick(db);
      if !ok {
        return Some(FileUnreadable(m.name));
      }
      var stmts := Splitter.SplitStatements(w.files[m.path]);
      ghost var loaded := db;
      var s := 0;
      while s < |stmts|
        invariant 0 <= s <= |stmts|
        invariant ExecFrom(w, m.name, stmts, 0, loaded) == ExecFrom(w, m.name, stmts, s, db)
      {
        ok := ExecContext(stmts[s]);
        if !ok {
          return Some(StatementFailed(m.name, s + 1, |stmts|));
        }
        s := s + 1;
      }
      ok := w.fate(db.time).Done?;
      db := InsertRecord(w, db, Record(m.version, m.name, checksum));
      if !ok {
        return Some(RecordFailed(m.name));
      }
      return None;
    }

    method Up(dryRun: bool) returns (err: Option<UpError>)
      modifies this
      ensures Outcome(db, err) == UpRun(w, dryRun, old(db))
    {
      hide Tabulates, Versions, Bootstrap, Apply, Acceptable, Load, Complaint;
      ghost var start := db;
      var ok := w.fate(db.time).Done?;
      db := Bootstrap(w, db);
      if !ok {
        return Some(BootstrapFailed);
      }
      ok := w.fate(db.time).Done?;
      db := Tick(db);
      if !ok {
        return Some(CatalogUnreadable);
      }
      var read := ReadCatalog(w.bases);
      if read.Failure? {
        return Some(CatalogInvalid);
      }
      var catalog := read.value;
      var applied := Applied();
      if applied.None? {
        return Some(AppliedUnreadable);
      }
      var i := 0;
      while i < |catalog|
        invariant 0 <= i <= |catalog|
        invariant UpRun(w, dryRun, start) == ApplyFrom(w, catalog, i, applied.value.Keys, dryRun, db)
      {
        var m := catalog[i];
        if m.version in applied.value {
          i := i + 1;
          continue;
        }
        var failed := ApplyOne(m, dryRun);
        if failed.Some? {
          return failed;
        }
        i := i + 1;
      }
      return None;
    }
  }
}
