/** Any number of interrupted migration runs, then one that succeeds, is one clean run. */
module RunnerLaws {
  import opened Wrappers
  import opened Catalog
  import opened Runner

  /** What the statements of a migration create, in order. */
  function Creations(w: World, m: Migration): seq<Creation> {
    var stmts := StatementsOf(w, m);
    seq(|stmts|, i requires 0 <= i < |stmts| => w.creates(stmts[i]))
  }

  /** What the first `n` migrations create, in order. */
  function Flat(w: World, catalog: seq<Migration>, n: nat): seq<Creation>
    requires n <= |catalog|
  {
    if n == 0 then [] else Flat(w, catalog, n - 1) + Creations(w, catalog[n - 1])
  }

  /** The effect on a schema of a list of create-if-absent statements. */
  function CreateAll(schema: map<string, string>, cs: seq<Creation>): map<string, string> {
    if cs == [] then schema else Create(CreateAll(schema, cs[..|cs| - 1]), cs[|cs| - 1])
  }

  lemma {:induction false} FlatIsPrefix(w: World, catalog: seq<Migration>, m: nat, n: nat)
    requires m <= n <= |catalog|
    ensures Flat(w, catalog, m) <= Flat(w, catalog, n)
  {
    if m < n {
      FlatIsPrefix(w, catalog, m, n - 1);
    }
  }

  /** An object is there once its statement has been executed. */
  lemma {:induction false} Present(schema: map<string, string>, cs: seq<Creation>, i: nat)
    requires i < |cs|
    ensures cs[i].target in CreateAll(schema, cs)
  {
    if i < |cs| - 1 {
      Present(schema, cs[..|cs| - 1], i);
    }
  }

  /** The records are those of the first `n` migrations, in the order of the catalog; their files are there. */
  predicate RecordedFirst(w: World, catalog: seq<Migration>, recorded: seq<Record>, n: nat)
    requires n <= |catalog|
  {
    && |recorded| == n
    && forall i | 0 <= i < n ::
         && catalog[i].path in w.files
         && recorded[i] == Record(catalog[i].version, catalog[i].name, w.checksum(w.files[catalog[i].path]))
  }

  /**
   How far a database has got: `n` versions are recorded, the first ones of the catalog and in its
   order, and `k` statements have taken effect, the first ones too and including all those of the
   recorded versions.
   */
  ghost predicate Reached(w: World, catalog: seq<Migration>, schema: map<string, string>, db: Db, n: nat, k: nat) {
    && n <= |catalog| && RecordedFirst(w, catalog, db.recorded, n)
    && |Flat(w, catalog, n)| <= k <= |Flat(w, catalog, |catalog|)|
    && db.schema == CreateAll(schema, Flat(w, catalog, |catalog|)[..k])
  }

  /** Executing statement `j` of the whole list, all earlier ones having taken effect. */
  lemma ExecKeeps(w: World, all: seq<Creation>, schema: map<string, string>, db: Db, stmt: string, j: nat, k: nat)
    returns (k': nat)
    requires j <= k <= |all| && j < |all| && all[j] == w.creates(stmt)
    requires db.schema == CreateAll(schema, all[..k])
    ensures k <= k' <= |all| && (w.fate(db.time).Done? ==> j + 1 <= k')
    ensures Exec(w, db, stmt).schema == CreateAll(schema, all[..k']) && Exec(w, db, stmt).recorded == db.recorded
  {
    k' := k;
    if j < k {
      assert all[..k][j] == all[j];
      Present(schema, all[..k], j);
    } else if !w.fate(db.time).FailedUndone? {
      k' := k + 1;
      assert all[..k + 1][..k] == all[..k];
    }
  }

  lemma {:induction false} ExecFromKeeps(w: World, catalog: seq<Migration>, schema: map<string, string>, db: Db,
      n: nat, k: nat, i: nat) returns (k': nat)
    requires n < |catalog| && Reached(w, catalog, schema, db, n, k)
    requires i <= |StatementsOf(w, catalog[n])| && |Flat(w, catalog, n)| + i <= k
    ensures var o := ExecFrom(w, catalog[n].name, StatementsOf(w, catalog[n]), i, db);
            && Reached(w, catalog, schema, o.db, n, k')
            && (o.err.None? ==> |Flat(w, catalog, n + 1)| <= k')
    decreases |StatementsOf(w, catalog[n])| - i
  {
    hide StatementsOf, RecordedFirst, CreateAll, Exec;
    var m, stmts, all := catalog[n], StatementsOf(w, catalog[n]), Flat(w, catalog, |catalog|);
    FlatIsPrefix(w, catalog, n + 1, |catalog|);
    var j := |Flat(w, catalog, n)| + i;
    if i == |stmts| {
      k' := k;
    } else {
      assert all[j] == Flat(w, catalog, n + 1)[j] == Creations(w, m)[i];
      k' := ExecKeeps(w, all, schema, db, stmts[i], j, k);
      var after := Exec(w, db, stmts[i]);
      if w.fate(db.time).Done? {
        k' := ExecFromKeeps(w, catalog, schema, after, n, k', i + 1);
      }
    }
  }

  /** The clock and the log are no part of the progress. */
  lemma SameProgress(w: World, catalog: seq<Migration>, schema: map<string, string>, db: Db, db': Db, n: nat, k: nat)
    requires Reached(w, catalog, schema, db, n, k)
    requires db'.schema == db.schema && db'.recorded == db.recorded
    ensures Reached(w, catalog, schema, db', n, k)
  {}

  lemma RecordKeeps(w: World, catalog: seq<Migration>, schema: map<string, string>, db: Db, checksum: string, n: nat,
      k: nat)
    requires n < |catalog| && Reached(w, catalog, schema, db, n, k) && |Flat(w, catalog, n + 1)| <= k
    requires catalog[n].path in w.files && checksum == w.checksum(w.files[catalog[n].path])
    ensures var after := InsertRecord(w, db, Record(catalog[n].version, catalog[n].name, checksum));
            Reached(w, catalog, schema, after, if w.fate(db.time).FailedUndone? then n else n + 1, k)
  {
    hide Flat, CreateAll;
  }

  /**
   One pending migration: its version is recorded, or only some of its statements take effect.
   In a dry run nothing happens.
   */
  lemma ApplyKeeps(w: World, catalog: seq<Migration>, schema: map<string, string>, db: Db,
      dryRun: bool, n: nat, k: nat, i: nat) returns (n': nat, k': nat)
    requires n <= i < |catalog| && Reached(w, catalog, schema, db, n, k) && (n == i || dryRun)
    ensures var o := Apply(w, catalog[i], dryRun, db);
            && Reached(w, catalog, schema, o.db, n', k')
            && n <= n' && (dryRun ==> n' == n)
            && (o.err.None? && !dryRun ==> n' == n + 1)
  {
    hide Reached, ExecFrom, InsertRecord, StatementsOf;
    n', k' := n, k;
    var m := catalog[i];
    if !w.fate(db.time).Done? || m.path !in w.files || dryRun {
      SameProgress(w, catalog, schema, db, Tick(db), n, k);
    } else {
      var ready := Tick(Tick(db));
      SameProgress(w, catalog, schema, db, ready, n, k);
      if w.fate(db.time + 1).Done? {
        ProgressBounds(w, catalog, schema, db, n, k);
        k' := ExecFromKeeps(w, catalog, schema, ready, n, k, 0);
        var o := ExecFrom(w, m.name, StatementsOf(w, m), 0, ready);
        if o.err.None? {
          RecordKeeps(w, catalog, schema, o.db, w.checksum(w.files[m.path]), n, k');
          n' := if w.fate(o.db.time).FailedUndone? then n else n + 1;
        }
      }
    }
  }

  lemma ProgressBounds(w: World, catalog: seq<Migration>, schema: map<string, string>, db: Db, n: nat, k: nat)
    requires Reached(w, catalog, schema, db, n, k)
    ensures n <= |catalog| && |Flat(w, catalog, n)| <= k
  {}

  /** The rest of a run that found `done` versions recorded and has reached migration `i`. */
  lemma {:induction false} ApplyFromKeeps(w: World, catalog: seq<Migration>, schema: map<string, string>, db: Db,
      applied: set<nat>, dryRun: bool, done: nat, i: nat, n: nat, k: nat) returns (n': nat, k': nat)
    requires Ascending(catalog) && done <= |catalog| && i <= |catalog|
    requires applied == set v | 0 <= v < done :: catalog[v].version
    requires Reached(w, catalog, schema, db, n, k)
    requires n == if i < done || dryRun then done else i
    ensures var o := ApplyFrom(w, catalog, i, applied, dryRun, db);
            && Reached(w, catalog, schema, o.db, n', k')
            && n <= n' && (dryRun ==> n' == n)
            && (o.err.None? && !dryRun ==> n' == |catalog|)
    decreases |catalog| - i
  {
    hide Reached, Apply;
    n', k' := n, k;
    if i < |catalog| {
      AppliedUpTo(catalog, applied, done, i);
      if i < done {
        n', k' := ApplyFromKeeps(w, catalog, schema, db, applied, dryRun, done, i + 1, n, k);
      } else {
        n', k' := ApplyKeeps(w, catalog, schema, db, dryRun, n, k, i);
        var o := Apply(w, catalog[i], dryRun, db);
        if o.err.None? {
          n', k' := ApplyFromKeeps(w, catalog, schema, o.db, applied, dryRun, done, i + 1, n', k');
        }
      }
    }
  }

  lemma AppliedUpTo(catalog: seq<Migration>, applied: set<nat>, done: nat, i: nat)
    requires Ascending(catalog) && done <= |catalog| && i < |catalog|
    requires applied == set v | 0 <= v < done :: catalog[v].version
    ensures catalog[i].version in applied <==> i < done
  {}

  /** One run of `Up`, whatever goes wrong in it. */
  lemma UpKeeps(w: World, schema: map<string, string>, db: Db, dryRun: bool, n: nat, k: nat) returns (n': nat, k': nat)
    requires Acceptable(w.bases, |w.bases|)
    requires Reached(w, Load(w.bases), schema, db, n, k)
    ensures var o := UpRun(w, dryRun, db);
            && Reached(w, Load(w.bases), schema, o.db, n', k')
            && n <= n' && (dryRun ==> n' == n)
            && (o.err.None? && !dryRun ==> n' == |w.bases|)
  {
    hide Reached, ApplyFrom, Load, Versions, Acceptable;
    LoadIsCatalog(w.bases);
    var catalog, o := Load(w.bases), UpRun(w, dryRun, db);
    n', k' := n, k;
    var b := Bootstrap(w, db);
    var q := Tick(Tick(b));
    SameProgress(w, catalog, schema, db, q, n, k);
    if w.fate(db.time).Done? && w.fate(b.time).Done? && w.fate(b.time + 1).Done? && b.hasMetadata {
      ReachedVersions(w, catalog, schema, q, n, k);
      n', k' := ApplyFromKeeps(w, catalog, schema, q, Versions(q.recorded), dryRun, n, 0, n, k);
    } else {
      assert o.err.Some?;
      SameProgress(w, catalog, schema, db, o.db, n, k);
    }
  }

  lemma ReachedVersions(w: World, catalog: seq<Migration>, schema: map<string, string>, db: Db, n: nat, k: nat)
    requires Reached(w, catalog, schema, db, n, k)
    ensures n <= |catalog| && Versions(db.recorded) == set v | 0 <= v < n :: catalog[v].version
  {
    AppliedVersions(catalog, db.recorded, n);
  }

  lemma AppliedVersions(catalog: seq<Migration>, recorded: seq<Record>, n: nat)
    requires n <= |catalog| && |recorded| == n
    requires forall i | 0 <= i < n :: recorded[i].version == catalog[i].version
    ensures Versions(recorded) == set v | 0 <= v < n :: catalog[v].version
  {
    forall x
      ensures x in Versions(recorded) <==> x in set v | 0 <= v < n :: catalog[v].version
    {
      if x in Versions(recorded) {
        var r :| r in recorded && r.version == x;
        var i :| 0 <= i < n && recorded[i] == r;
        assert catalog[i].version == x;
      }
      if v :| 0 <= v < n && catalog[v].version == x {
        assert recorded[v] in recorded;
      }
    }
  }

  /** The database after a number of runs; each one may be dry and may be cut short anywhere. */
  function Runs(w: World, plan: seq<bool>, db: Db): Db {
    if plan == [] then db else Runs(w, plan[1..], UpRun(w, plan[0], db).db)
  }

  lemma {:induction false} RunsKeep(w: World, plan: seq<bool>, schema: map<string, string>, db: Db, n: nat, k: nat)
    returns (n': nat, k': nat)
    requires Acceptable(w.bases, |w.bases|)
    requires Reached(w, Load(w.bases), schema, db, n, k)
    ensures Reached(w, Load(w.bases), schema, Runs(w, plan, db), n', k') && n <= n'
  {
    n', k' := n, k;
    if plan != [] {
      n', k' := UpKeeps(w, schema, db, plan[0], n, k);
      n', k' := RunsKeep(w, plan[1..], schema, UpRun(w, plan[0], db).db, n', k');
    }
  }

  /** The versions recorded are always a prefix of the catalog, and all their statements have taken effect. */
  lemma RecordedIsPrefix(w: World, plan: seq<bool>, db: Db) returns (n: nat, k: nat)
    requires Acceptable(w.bases, |w.bases|) && db.recorded == []
    ensures Reached(w, Load(w.bases), db.schema, Runs(w, plan, db), n, k)
  {
    var all := Flat(w, Load(w.bases), |Load(w.bases)|);
    assert all[..0] == [];
    n, k := RunsKeep(w, plan, db.schema, db, 0, 0);
  }

  /** The schema the catalog stands for. */
  function Migrated(w: World, schema: map<string, string>): map<string, string>
    requires Acceptable(w.bases, |w.bases|)
  {
    CreateAll(schema, Flat(w, Load(w.bases), |Load(w.bases)|))
  }

  /**
   Crash convergence: whatever runs went before and however they were cut short, a run without
   error leaves the schema of the whole catalog and the whole catalog recorded.
   */
  lemma CrashConvergence(w: World, plan: seq<bool>, db: Db)
    requires Acceptable(w.bases, |w.bases|) && db.recorded == []
    requires UpRun(w, false, Runs(w, plan, db)).err.None?
    ensures var end := UpRun(w, false, Runs(w, plan, db)).db;
            && end.schema == Migrated(w, db.schema)
            && |end.recorded| == |Load(w.bases)| == |w.bases|
            && RecordedFirst(w, Load(w.bases), end.recorded, |w.bases|)
  {
    LoadIsCatalog(w.bases);
    var n, k := RecordedIsPrefix(w, plan, db);
    n, k := UpKeeps(w, db.schema, Runs(w, plan, db), false, n, k);
    var all := Flat(w, Load(w.bases), |Load(w.bases)|);
    assert all[..k] == all;
  }

  // ---------------------------------------------------------------- what is attempted

  /** The statements of the migrations from number `i` on, in order. */
  function Script(w: World, catalog: seq<Migration>, i: nat): seq<string>
    requires i <= |catalog|
    decreases |catalog| - i
  {
    if i == |catalog| then [] else StatementsOf(w, catalog[i]) + Script(w, catalog, i + 1)
  }

  /** `after` adds to the statements attempted a beginning of `script`, and all of it without an error. */
  predicate Attempts(before: Db, after: Db, err: Option<UpError>, script: seq<string>) {
    && before.attempted <= after.attempted <= before.attempted + script
    && (err.None? ==> after.attempted == before.attempted + script)
  }

  /** An error names the number of the last statement attempted. */
  lemma {:induction false} ExecAttempts(w: World, name: string, stmts: seq<string>, i: nat, db: Db)
    requires i <= |stmts|
    ensures var o := ExecFrom(w, name, stmts, i, db);
            && Attempts(db, o.db, o.err, stmts[i..])
            && (o.err.Some? ==>
                  o.err.value == StatementFailed(name, i + |o.db.attempted| - |db.attempted|, |stmts|))
    decreases |stmts| - i
  {
    if i < |stmts| {
      var after := Exec(w, db, stmts[i]);
      assert db.attempted + stmts[i..] == after.attempted + stmts[i + 1..];
      if w.fate(db.time).Done? {
        ExecAttempts(w, name, stmts, i + 1, after);
      }
    }
  }

  lemma ApplyAttempts(w: World, m: Migration, dryRun: bool, db: Db)
    ensures var o := Apply(w, m, dryRun, db);
            Attempts(db, o.db, o.err, if dryRun then [] else StatementsOf(w, m))
  {
    hide StatementsOf, ExecFrom, Exec;
    var stmts := StatementsOf(w, m);
    ExecAttempts(w, m.name, stmts, 0, Tick(Tick(db)));
    assert stmts[0..] == stmts;
  }

  lemma AttemptsChain(a: Db, b: Db, c: Db, err: Option<UpError>, first: seq<string>, rest: seq<string>)
    requires Attempts(a, b, None, first) && Attempts(b, c, err, rest)
    ensures Attempts(a, c, err, first + rest)
  {
    assert (a.attempted + first) + rest == a.attempted + (first + rest);
  }

  lemma {:induction false} ApplyFromAttempts(w: World, catalog: seq<Migration>, i: nat, applied: set<nat>, done: nat,
      dryRun: bool, db: Db)
    requires Ascending(catalog) && done <= |catalog| && i <= |catalog|
    requires applied == set v | 0 <= v < done :: catalog[v].version
    ensures var o := ApplyFrom(w, catalog, i, applied, dryRun, db);
            Attempts(db, o.db, o.err, if dryRun then [] else Script(w, catalog, if i < done then done else i))
    decreases |catalog| - i
  {
    hide Apply, StatementsOf;
    if i < |catalog| {
      AppliedUpTo(catalog, applied, done, i);
      if i < done {
        ApplyFromAttempts(w, catalog, i + 1, applied, done, dryRun, db);
      } else {
        ApplyAttempts(w, catalog[i], dryRun, db);
        var o := Apply(w, catalog[i], dryRun, db);
        if o.err.None? {
          ApplyFromAttempts(w, catalog, i + 1, applied, done, dryRun, o.db);
          var end := ApplyFrom(w, catalog, i, applied, dryRun, db);
          if !dryRun {
            AttemptsChain(db, o.db, end.db, end.err, StatementsOf(w, catalog[i]), Script(w, catalog, i + 1));
          }
        }
      }
    }
  }

  /**
   The statements that one run attempts, whatever fails in it: those of the pending migrations, in
   order, from the first one on and without a gap; all of them when it returns no error.
   */
  lemma UpAttempts(w: World, schema: map<string, string>, db: Db, dryRun: bool, n: nat, k: nat)
    requires Acceptable(w.bases, |w.bases|)
    requires Reached(w, Load(w.bases), schema, db, n, k)
    ensures var o := UpRun(w, dryRun, db);
            Attempts(db, o.db, o.err, if dryRun then [] else Script(w, Load(w.bases), n))
  {
    hide Reached, ApplyFrom, Load, Versions, Acceptable;
    LoadIsCatalog(w.bases);
    var catalog := Load(w.bases);
    var q := Tick(Tick(Bootstrap(w, db)));
    SameProgress(w, catalog, schema, db, q, n, k);
    ReachedVersions(w, catalog, schema, q, n, k);
    ApplyFromAttempts(w, catalog, 0, Versions(q.recorded), n, dryRun, q);
  }

  // ---------------------------------------------------------------- when a run succeeds

  /** Every outside operation from number `from` up to `to` succeeded. */
  predicate AllDone(w: World, from: nat, to: nat) {
    forall t | from <= t < to :: w.fate(t).Done?
  }

  lemma AllDoneParts(w: World, from: nat, mid: nat, to: nat)
    requires from <= mid <= to
    ensures AllDone(w, from, to) <==> AllDone(w, from, mid) && AllDone(w, mid, to)
  {
  }

  lemma OneDone(w: World, t: nat)
    ensures AllDone(w, t, t) && (AllDone(w, t, t + 1) <==> w.fate(t).Done?)
  {
  }

  lemma {:induction false} ExecSucceeds(w: World, name: string, stmts: seq<string>, i: nat, db: Db)
    requires i <= |stmts|
    ensures var o := ExecFrom(w, name, stmts, i, db);
            db.time <= o.db.time && (o.err.None? <==> AllDone(w, db.time, o.db.time))
    decreases |stmts| - i
  {
    hide AllDone;
    OneDone(w, db.time);
    if i < |stmts| {
      var after := Exec(w, db, stmts[i]);
      if w.fate(db.time).Done? {
        ExecSucceeds(w, name, stmts, i + 1, after);
        AllDoneParts(w, db.time, after.time, ExecFrom(w, name, stmts, i + 1, after).db.time);
      }
    }
  }

  lemma ApplySucceeds(w: World, m: Migration, dryRun: bool, db: Db)
    ensures var o := Apply(w, m, dryRun, db);
            && db.time <= o.db.time
            && (o.err.None? <==> AllDone(w, db.time, o.db.time) && m.path in w.files)
  {
    hide AllDone, ExecFrom, StatementsOf;
    var o := Apply(w, m, dryRun, db);
    OneDone(w, db.time);
    OneDone(w, db.time + 1);
    if w.fate(db.time).Done? && m.path in w.files && !dryRun {
      AllDoneParts(w, db.time, db.time + 1, db.time + 2);
      if w.fate(db.time + 1).Done? {
        var ready := Tick(Tick(db));
        ExecSucceeds(w, m.name, StatementsOf(w, m), 0, ready);
        var e := ExecFrom(w, m.name, StatementsOf(w, m), 0, ready);
        OneDone(w, e.db.time);
        AllDoneParts(w, db.time, db.time + 2, o.db.time);
        AllDoneParts(w, db.time + 2, e.db.time, o.db.time);
      }
    }
  }

  /** The files of the migrations from number `i` on that are not applied are there. */
  predicate PendingFiles(w: World, catalog: seq<Migration>, i: nat, applied: set<nat>) {
    forall j | i <= j < |catalog| :: catalog[j].version in applied || catalog[j].path in w.files
  }

  lemma {:induction false} ApplyFromSucceeds(w: World, catalog: seq<Migration>, i: nat, applied: set<nat>, dryRun: bool,
      db: Db)
    requires i <= |catalog|
    ensures var o := ApplyFrom(w, catalog, i, applied, dryRun, db);
            && db.time <= o.db.time
            && (o.err.None? <==> AllDone(w, db.time, o.db.time) && PendingFiles(w, catalog, i, applied))
    decreases |catalog| - i
  {
    hide AllDone, Apply;
    OneDone(w, db.time);
    if i < |catalog| {
      assert PendingFiles(w, catalog, i, applied) <==>
          (catalog[i].version in applied || catalog[i].path in w.files) && PendingFiles(w, catalog, i + 1, applied);
      if catalog[i].version in applied {
        ApplyFromSucceeds(w, catalog, i + 1, applied, dryRun, db);
      } else {
        ApplySucceeds(w, catalog[i], dryRun, db);
        var o := Apply(w, catalog[i], dryRun, db);
        if o.err.None? {
          ApplyFromSucceeds(w, catalog, i + 1, applied, dryRun, o.db);
          AllDoneParts(w, db.time, o.db.time, ApplyFrom(w, catalog, i + 1, applied, dryRun, o.db).db.time);
        }
      }
    }
  }

  /**
   A run returns no error if and only if every outside operation it made succeeded, the file names are
   acceptable, and the files of the migrations that are not recorded are there.
   */
  lemma SucceedsIff(w: World, dryRun: bool, db: Db)
    ensures var o := UpRun(w, dryRun, db);
            o.err.None? <==>
              && AllDone(w, db.time, o.db.time) && Acceptable(w.bases, |w.bases|)
              && PendingFiles(w, Load(w.bases), 0, Versions(db.recorded))
  {
    hide AllDone, ApplyFrom, Load, Acceptable, PendingFiles, Versions;
    var o := UpRun(w, dryRun, db);
    OneDone(w, db.time);
    OneDone(w, db.time + 1);
    OneDone(w, db.time + 2);
    AllDoneParts(w, db.time, db.time + 1, db.time + 2);
    AllDoneParts(w, db.time, db.time + 2, db.time + 3);
    if w.fate(db.time).Done? && w.fate(db.time + 1).Done? && Acceptable(w.bases, |w.bases|) {
      var q := Tick(Tick(Bootstrap(w, db)));
      if w.fate(db.time + 2).Done? {
        ApplyFromSucceeds(w, Load(w.bases), 0, Versions(q.recorded), dryRun, q);
        AllDoneParts(w, db.time, db.time + 3, o.db.time);
      }
    }
  }

  /** After that, a run executes no statement and changes neither schema nor records. */
  lemma NothingLeftToDo(w: World, plan: seq<bool>, db: Db, dryRun: bool)
    requires Acceptable(w.bases, |w.bases|) && db.recorded == []
    requires UpRun(w, false, Runs(w, plan, db)).err.None?
    ensures var end := UpRun(w, false, Runs(w, plan, db)).db;
            var again := UpRun(w, dryRun, end).db;
            again.attempted == end.attempted && again.schema == end.schema && again.recorded == end.recorded
  {
    hide Apply, Flat, CreateAll;
    CrashConvergence(w, plan, db);
    LoadIsCatalog(w.bases);
    var end := UpRun(w, false, Runs(w, plan, db)).db;
    var q := Tick(Tick(Bootstrap(w, end)));
    AppliedVersions(Load(w.bases), q.recorded, |w.bases|);
    AllSkipped(w, Load(w.bases), 0, Versions(q.recorded), dryRun, q);
  }

  lemma {:induction false} AllSkipped(w: World, catalog: seq<Migration>, i: nat, applied: set<nat>, dryRun: bool,
      db: Db)
    requires i <= |catalog|
    requires forall j | 0 <= j < |catalog| :: catalog[j].version in applied
    ensures ApplyFrom(w, catalog, i, applied, dryRun, db) == Outcome(db, None)
    decreases |catalog| - i
  {
    if i < |catalog| {
      AllSkipped(w, catalog, i + 1, applied, dryRun, db);
    }
  }

  /** A dry run executes no statement and changes neither schema nor records, whatever fails in it. */
  lemma DryRunChangesNothing(w: World, db: Db)
    ensures var after := UpRun(w, true, db).db;
            after.attempted == db.attempted && after.schema == db.schema && after.recorded == db.recorded
  {
    if Acceptable(w.bases, |w.bases|) {
      var q := Tick(Tick(Bootstrap(w, db)));
      DryRest(w, Load(w.bases), 0, Versions(q.recorded), Tick(Tick(Bootstrap(w, db))));
    }
  }

  lemma {:induction false} DryRest(w: World, catalog: seq<Migration>, i: nat, applied: set<nat>, db: Db)
    requires i <= |catalog|
    ensures var after := ApplyFrom(w, catalog, i, applied, true, db).db;
            after.attempted == db.attempted && after.schema == db.schema && after.recorded == db.recorded
    decreases |catalog| - i
  {
    if i < |catalog| {
      DryRest(w, catalog, i + 1, applied, db);
      DryRest(w, catalog, i + 1, applied, Apply(w, catalog[i], true, db).db);
    }
  }

  /** The same world in which nothing ever fails. */
  function Fair(w: World): World {
    w.(fate := _ => Done)
  }

  lemma {:induction false} FairExecs(w: World, name: string, stmts: seq<string>, i: nat, db: Db)
    requires i <= |stmts|
    ensures ExecFrom(Fair(w), name, stmts, i, db).err.None?
    decreases |stmts| - i
  {
    if i < |stmts| {
      FairExecs(w, name, stmts, i + 1, Exec(Fair(w), db, stmts[i]));
    }
  }

  lemma {:induction false} FairApplies(w: World, catalog: seq<Migration>, i: nat, applied: set<nat>, db: Db)
    requires i <= |catalog| && forall j | 0 <= j < |catalog| :: catalog[j].path in w.files
    ensures ApplyFrom(Fair(w), catalog, i, applied, false, db).err.None?
    decreases |catalog| - i
  {
    if i < |catalog| {
      if catalog[i].version in applied {
        FairApplies(w, catalog, i + 1, applied, db);
      } else {
        FairExecs(w, catalog[i].name, StatementsOf(Fair(w), catalog[i]), 0, Tick(Tick(db)));
        FairApplies(w, catalog, i + 1, applied, Apply(Fair(w), catalog[i], false, db).db);
      }
    }
  }

  lemma {:induction false} FlatIgnoresFate(w: World, catalog: seq<Migration>, n: nat)
    requires n <= |catalog|
    ensures Flat(Fair(w), catalog, n) == Flat(w, catalog, n)
  {
    if n > 0 {
      FlatIgnoresFate(w, catalog, n - 1);
      assert Creations(Fair(w), catalog[n - 1]) == Creations(w, catalog[n - 1]);
    }
  }

  /**
   A version is only recorded after its file has been read, so after a successful run every file is known
   to be there.
   */
  lemma FilesAreThere(w: World, plan: seq<bool>, db: Db)
    requires Acceptable(w.bases, |w.bases|) && db.recorded == []
    requires UpRun(w, false, Runs(w, plan, db)).err.None?
    ensures forall j | 0 <= j < |Load(w.bases)| :: Load(w.bases)[j].path in w.files
  {
    hide UpRun, Runs, Flat, CreateAll, Load;
    LoadIsCatalog(w.bases);
    var n, k := RecordedIsPrefix(w, plan, db);
    var n', k' := UpKeeps(w, db.schema, Runs(w, plan, db), false, n, k);
  }

  /**
   The interrupted runs end as one clean run from the same start would: in a world without
   failures a single run succeeds, and its schema is that of any successful run after crashes.
   */
  lemma SameAsCleanRun(w: World, plan: seq<bool>, db: Db)
    requires Acceptable(w.bases, |w.bases|) && db.recorded == []
    requires UpRun(w, false, Runs(w, plan, db)).err.None?
    ensures UpRun(Fair(w), false, db).err.None?
    ensures UpRun(w, false, Runs(w, plan, db)).db.schema == UpRun(Fair(w), false, db).db.schema
  {
    var catalog := Load(w.bases);
    LoadIsCatalog(w.bases);
    FilesAreThere(w, plan, db);
    var q := Tick(Tick(Bootstrap(Fair(w), db)));
    FairApplies(w, catalog, 0, Versions(q.recorded), q);
    CrashConvergence(w, plan, db);
    CrashConvergence(Fair(w), [], db);
    FlatIgnoresFate(w, catalog, |catalog|);
  }
}
