/** The SQL migration runner of scripts/migrate.py on its PostgreSQL branch: one transaction per file.
    A migration is a partial function on schemas: it fails on some, deterministically. */
module MigrationSpec {
  import opened Seqs

  /** What the database holds durably; `ready` says whether the ledger table exists. */
  datatype Db<S> = Db(ready: bool, ledger: seq<string>, schema: S)

  datatype Outcome = Exit(code: int) | Raised

  type Sql<!S> = (string, S) -> Option<S>

  /** How far a run gets: the number of database calls answered, and whether a commit that raises was carried out
      all the same. */
  datatype Fate = Fate(answered: nat, lostReply: bool)

  function NotIn(ledger: seq<string>): string -> bool { (f: string) => f !in ledger }

  function PendingFiles(files: seq<string>, ledger: seq<string>): seq<string> { Filter(NotIn(ledger), files) }

  /** Runs one statement with `n` calls left; commit is the only call whose effect can survive its failure. */
  function Commit<S>(before: Db<S>, after: Db<S>, n: nat, fate: Fate): Db<S> {
    if n > 0 || fate.lostReply then after else before
  }

  /** Applies the pending files in order; three database calls for each: execute, insert, commit. */
  function ApplyFiles<S>(pending: seq<string>, sql: Sql<S>, db: Db<S>, n: nat, fate: Fate): (Db<S>, Outcome) {
    if pending == [] then (db, Exit(0))
    else if n == 0 || sql(pending[0], db.schema).None? then (db, Exit(1))
    else if n == 1 then (db, Raised)
    else
      var done := db.(ledger := db.ledger + [pending[0]], schema := sql(pending[0], db.schema).value);
      if n == 2 then (Commit(db, done, 0, fate), Raised)
      else ApplyFiles(pending[1..], sql, done, n - 3, fate)
  }

  /** One invocation: create the ledger table, commit, read the ledger, apply what is pending. */
  function Migrate<S>(files: seq<string>, sql: Sql<S>, db: Db<S>, fate: Fate): (Db<S>, Outcome) {
    if files == [] then (db, Exit(0))
    else if fate.answered == 0 then (db, Raised)
    else if fate.answered == 1 then (Commit(db, db.(ready := true), 0, fate), Raised)
    else if fate.answered == 2 then (db.(ready := true), Raised)
    else
      ApplyFiles(PendingFiles(files, db.ledger), sql, db.(ready := true), fate.answered - 3, fate)
  }

  /** A series of invocations on an unchanged file set. */
  function Series<S>(files: seq<string>, sql: Sql<S>, db: Db<S>, fates: seq<Fate>): Db<S> {
    if fates == [] then db
    else Migrate(files, sql, Series(files, sql, db, fates[..|fates| - 1]), fates[|fates| - 1]).0
  }

  /** The schema that the ledgered migrations make out of a given one, in ledger order. */
  function Replay<S>(ledger: seq<string>, sql: Sql<S>, schema: S): Option<S> {
    if ledger == [] then Some(schema)
    else
      match Replay(ledger[..|ledger| - 1], sql, schema)
      case None => None
      case Some(s) => sql(ledger[|ledger| - 1], s)
  }

  predicate NoDuplicates(names: seq<string>) { forall i, j :: 0 <= i < j < |names| ==> names[i] != names[j] }

  /** Every call answered. */
  function Undisturbed(files: seq<string>): Fate { Fate(3 + 3 * |files|, false) }
}

module MigrationLaws {
  import opened Seqs
  import opened MigrationSpec

  lemma {:induction false} FilterDistinct(p: string -> bool, s: seq<string>)
    requires NoDuplicates(s)
    ensures NoDuplicates(Filter(p, s)) && |Filter(p, s)| <= |s|
  {
    if s != [] {
      FilterDistinct(p, s[1..]);
      forall x | x in Filter(p, s[1..]) ensures x != s[0] { FilterMember(p, s[1..], x); }
      var rest := Filter(p, s[1..]);
      assert forall i :: 0 <= i < |rest| ==> rest[i] in rest;
    }
  }

  lemma {:induction false} ReplayConcat<S>(a: seq<string>, b: seq<string>, sql: Sql<S>, schema: S)
    requires Replay(a, sql, schema).Some?
    ensures Replay(a + b, sql, schema) == Replay(b, sql, Replay(a, sql, schema).value)
  {
    if b == [] {
      assert a + b == a;
    } else {
      assert (a + b)[..|a + b| - 1] == a + b[..|b| - 1];
      ReplayConcat(a, b[..|b| - 1], sql, schema);
    }
  }

  lemma ReplayNone<S>(sql: Sql<S>, schema: S)
    ensures Replay([], sql, schema) == Some(schema)
  {
  }

  lemma ReplayOne<S>(f: string, sql: Sql<S>, schema: S)
    ensures Replay([f], sql, schema) == sql(f, schema)
  {
  }

  /** How many of the pending files a run completes. */
  function Progress<S>(pending: seq<string>, sql: Sql<S>, schema: S, n: nat, fate: Fate): nat {
    if pending == [] || n < 2 || sql(pending[0], schema).None? then 0
    else if n == 2 then (if fate.lostReply then 1 else 0)
    else 1 + Progress(pending[1..], sql, sql(pending[0], schema).value, n - 3, fate)
  }

  lemma FirstApplied<S>(pending: seq<string>, sql: Sql<S>, db: Db<S>, k: nat)
    requires k < |pending| && sql(pending[0], db.schema).Some?
    ensures pending[..k + 1] == [pending[0]] + pending[1..][..k]
    ensures Replay(pending[..k + 1], sql, db.schema) == Replay(pending[1..][..k], sql, sql(pending[0], db.schema).value)
  {
    assert pending[..k + 1] == [pending[0]] + pending[1..][..k];
    ReplayOne(pending[0], sql, db.schema);
    ReplayConcat([pending[0]], pending[1..][..k], sql, db.schema);
  }

  lemma {:induction false} ApplyAdvances<S>(pending: seq<string>, sql: Sql<S>, db: Db<S>, n: nat, fate: Fate)
    ensures
      var k := Progress(pending, sql, db.schema, n, fate);
      var (after, outcome) := ApplyFiles(pending, sql, db, n, fate);
      && k <= |pending|
      && after.ledger == db.ledger + pending[..k]
      && Replay(pending[..k], sql, db.schema) == Some(after.schema)
      && after.ready == db.ready
      && (outcome == Exit(0) ==> k == |pending|)
    decreases |pending|
  {
    hide Replay;
    if pending == [] || n < 2 || sql(pending[0], db.schema).None? {
      ReplayNone(sql, db.schema);
    } else {
      var f := pending[0];
      if n == 2 {
        ReplayNone(sql, db.schema);
        ReplayOne(f, sql, db.schema);
        assert pending[..1] == [f];
      } else {
        var done := db.(ledger := db.ledger + [f], schema := sql(f, db.schema).value);
        ApplyAdvances(pending[1..], sql, done, n - 3, fate);
        FirstApplied(pending, sql, db, Progress(pending[1..], sql, done.schema, n - 3, fate));
      }
    }
  }

  /** The invariant of the database: no file twice, and the schema is the replay of the ledger. */
  predicate Sound<S(==)>(db: Db<S>, sql: Sql<S>, base: S) {
    NoDuplicates(db.ledger) && Replay(db.ledger, sql, base) == Some(db.schema)
  }

  /** A prefix of the pending files can be appended to the ledger without repeating a name. */
  lemma LedgerStaysDistinct(files: seq<string>, ledger: seq<string>, k: nat)
    requires NoDuplicates(files) && NoDuplicates(ledger) && k <= |PendingFiles(files, ledger)|
    ensures NoDuplicates(ledger + PendingFiles(files, ledger)[..k])
  {
    var pending := PendingFiles(files, ledger);
    FilterDistinct(NotIn(ledger), files);
    forall i | 0 <= i < k ensures pending[i] !in ledger {
      FilterMember(NotIn(ledger), files, pending[i]);
    }
  }

  lemma AllLedgered(files: seq<string>, ledger: seq<string>)
    ensures forall f :: f in files ==> f in ledger + PendingFiles(files, ledger)
  {
    forall f | f in files ensures f in ledger + PendingFiles(files, ledger) {
      FilterMember(NotIn(ledger), files, f);
    }
  }

  predicate Covers(ledger: seq<string>, files: seq<string>) { forall f :: f in files ==> f in ledger }

  /** Every invocation keeps the invariant and the ledger so far; exit code 0 means that every file is ledgered. */
  lemma MigrateSound<S>(files: seq<string>, sql: Sql<S>, db: Db<S>, fate: Fate, base: S)
    requires NoDuplicates(files) && Sound(db, sql, base)
    ensures Sound(Migrate(files, sql, db, fate).0, sql, base)
    ensures Migrate(files, sql, db, fate).1 == Exit(0) ==> Covers(Migrate(files, sql, db, fate).0.ledger, files)
    ensures db.ledger <= Migrate(files, sql, db, fate).0.ledger
  {
    hide ApplyFiles, Progress, PendingFiles, NoDuplicates;
    if files != [] && fate.answered >= 3 {
      var pending := PendingFiles(files, db.ledger);
      var n := fate.answered - 3;
      ApplyAdvances(pending, sql, db.(ready := true), n, fate);
      var k := Progress(pending, sql, db.schema, n, fate);
      LedgerStaysDistinct(files, db.ledger, k);
      ReplayConcat(db.ledger, pending[..k], sql, base);
      AllLedgered(files, db.ledger);
      assert k == |pending| ==> pending[..k] == pending;
    }
  }

  /** Over any series of failing and restarted runs the ledger has no duplicates and the schema is the fold of the
      ledgered migrations in ledger order. */
  lemma {:induction false} SeriesSound<S>(files: seq<string>, sql: Sql<S>, db: Db<S>, fates: seq<Fate>, base: S)
    requires NoDuplicates(files) && Sound(db, sql, base)
    ensures Sound(Series(files, sql, db, fates), sql, base)
  {
    if fates != [] {
      SeriesSound(files, sql, db, fates[..|fates| - 1], base);
      MigrateSound(files, sql, Series(files, sql, db, fates[..|fates| - 1]), fates[|fates| - 1], base);
    }
  }

  /** A series runs one invocation after the other, each on what the one before has left. */
  lemma SeriesSnoc<S>(files: seq<string>, sql: Sql<S>, db: Db<S>, fates: seq<Fate>, fate: Fate)
    ensures Series(files, sql, db, []) == db
    ensures Series(files, sql, db, fates + [fate]) == Migrate(files, sql, Series(files, sql, db, fates), fate).0
  {
    assert (fates + [fate])[..|fates|] == fates;
  }

  // ---- restart ----

  lemma {:induction false} MoreCallsSame<S>(pending: seq<string>, sql: Sql<S>, db: Db<S>,
      n: nat, m: nat, fate: Fate, other: Fate)
    requires 3 * |pending| <= n && 3 * |pending| <= m
    ensures ApplyFiles(pending, sql, db, n, fate) == ApplyFiles(pending, sql, db, m, other)
    decreases |pending|
  {
    if pending != [] && sql(pending[0], db.schema).Some? {
      var done := db.(ledger := db.ledger + [pending[0]], schema := sql(pending[0], db.schema).value);
      MoreCallsSame(pending[1..], sql, done, n - 3, m - 3, fate, other);
    }
  }

  /** Applying the rest after an interrupted attempt is the same as applying everything at once. */
  lemma {:induction false} Resume<S>(pending: seq<string>, sql: Sql<S>, db: Db<S>, n: nat,
      fate: Fate, m: nat, full: Fate)
    requires 3 * |pending| <= m
    ensures
      var k := Progress(pending, sql, db.schema, n, fate);
      k <= |pending| &&
      ApplyFiles(pending[k..], sql, ApplyFiles(pending, sql, db, n, fate).0, m, full)
        == ApplyFiles(pending, sql, db, m, full)
    decreases |pending|
  {
    if pending == [] || n < 2 || sql(pending[0], db.schema).None? {
      assert pending[0..] == pending;
    } else {
      var done := db.(ledger := db.ledger + [pending[0]], schema := sql(pending[0], db.schema).value);
      if n == 2 {
        assert pending[0..] == pending;
        if fate.lostReply {
          MoreCallsSame(pending[1..], sql, done, m, m - 3, full, full);
        }
      } else {
        Resume(pending[1..], sql, done, n - 3, fate, m - 3, full);
        var k := Progress(pending[1..], sql, done.schema, n - 3, fate);
        assert pending[k + 1..] == pending[1..][k..];
        MoreCallsSame(pending[k + 1..], sql, ApplyFiles(pending, sql, db, n, fate).0, m, m - 3, full, full);
      }
    }
  }

  /** What is pending after k of the pending files have been ledgered: the others. */
  lemma {:induction false} PendingAfter(files: seq<string>, ledger: seq<string>, k: nat)
    requires NoDuplicates(files) && k <= |PendingFiles(files, ledger)|
    ensures PendingFiles(files, ledger + PendingFiles(files, ledger)[..k]) == PendingFiles(files, ledger)[k..]
  {
    var pending := PendingFiles(files, ledger);
    if files != [] && k > 0 {
      var f, rest := files[0], files[1..];
      var done := ledger + pending[..k];
      if f in ledger {
        PendingAfter(rest, ledger, k);
      } else {
        PendingAfter(rest, ledger, k - 1);
        var others := PendingFiles(rest, ledger);
        assert pending == [f] + others && pending[..k] == [f] + others[..k - 1] && pending[k..] == others[k - 1..];
        forall x | x in rest ensures NotIn(done)(x) == NotIn(ledger + others[..k - 1])(x) {
          assert x != f;
        }
        FilterSame(NotIn(done), NotIn(ledger + others[..k - 1]), rest);
      }
    } else {
      assert ledger + pending[..0] == ledger && pending[0..] == pending;
    }
  }

  lemma PendingFew(files: seq<string>, ledger: seq<string>)
    requires NoDuplicates(files)
    ensures |PendingFiles(files, ledger)| <= |files|
  {
    FilterDistinct(NotIn(ledger), files);
  }

  /** One disturbed run before an undisturbed one makes no difference to where the undisturbed one ends. */
  lemma OneRestart<S>(files: seq<string>, sql: Sql<S>, db: Db<S>, fate: Fate)
    requires NoDuplicates(files)
    ensures Migrate(files, sql, Migrate(files, sql, db, fate).0, Undisturbed(files))
        == Migrate(files, sql, db, Undisturbed(files))
  {
    hide ApplyFiles, Progress, PendingFiles, Replay;
    if files != [] && fate.answered >= 3 {
      var pending := PendingFiles(files, db.ledger);
      var start := db.(ready := true);
      var n := fate.answered - 3;
      var k := Progress(pending, sql, db.schema, n, fate);
      PendingFew(files, db.ledger);
      ApplyAdvances(pending, sql, start, n, fate);
      PendingAfter(files, db.ledger, k);
      Resume(pending, sql, start, n, fate, 3 * |files|, Undisturbed(files));
    }
  }

  /** Fail and rerun, as often as you like: an undisturbed run at the end leaves the same database and the same exit
      code as a single undisturbed run would have. */
  lemma {:induction false} RestartEquivalence<S>(files: seq<string>, sql: Sql<S>, db: Db<S>, fates: seq<Fate>)
    requires NoDuplicates(files)
    ensures Migrate(files, sql, Series(files, sql, db, fates), Undisturbed(files))
        == Migrate(files, sql, db, Undisturbed(files))
  {
    if fates != [] {
      var before := Series(files, sql, db, fates[..|fates| - 1]);
      RestartEquivalence(files, sql, db, fates[..|fates| - 1]);
      OneRestart(files, sql, before, fates[|fates| - 1]);
    }
  }
}

/** Where exactly a run ends. */
module MigrationOutcomes {
  import opened Seqs
  import opened MigrationSpec
  import opened MigrationLaws

  /** The first `good` pending files can be applied one after the other, and the next one, if any, cannot. */
  predicate FailsAt<S(==)>(pending: seq<string>, sql: Sql<S>, schema: S, good: nat) {
    && good <= |pending| && Replay(pending[..good], sql, schema).Some?
    && (good < |pending| ==> Replay(pending[..good + 1], sql, schema).None?)
  }

  /** How many files are ledgered when n calls are answered: three calls complete a file, and a commit that raises may
      have been carried out all the same. */
  function Completed(good: nat, n: nat, fate: Fate): nat {
    if n >= 3 * good then good else n / 3 + (if n % 3 == 2 && fate.lostReply then 1 else 0)
  }

  lemma FailsAtRest<S>(pending: seq<string>, sql: Sql<S>, schema: S, good: nat)
    requires FailsAt(pending, sql, schema, good) && pending != []
    ensures good == 0 <==> sql(pending[0], schema).None?
    ensures good > 0 ==> FailsAt(pending[1..], sql, sql(pending[0], schema).value, good - 1)
  {
    assert pending[..0] == [] && pending[..1] == [pending[0]];
    ReplayOne(pending[0], sql, schema);
    if good > 0 {
      FirstGood(pending, sql, schema, good);
      FirstApplied(pending, sql, Db(true, [], schema), good - 1);
      if good < |pending| {
        FirstApplied(pending, sql, Db(true, [], schema), good);
      }
    }
  }

  /** A replay that succeeds starts with a file that does. */
  lemma {:induction false} FirstGood<S>(pending: seq<string>, sql: Sql<S>, schema: S, k: nat)
    requires 0 < k <= |pending| && Replay(pending[..k], sql, schema).Some?
    ensures sql(pending[0], schema).Some?
  {
    assert pending[..k][..k - 1] == pending[..k - 1];
    if k == 1 {
      assert pending[..1] == [pending[0]];
      ReplayOne(pending[0], sql, schema);
    } else {
      FirstGood(pending, sql, schema, k - 1);
    }
  }

  /** The loop in closed form. With enough calls it stops at the first file that cannot be applied, exit code 1, or at
      the end, exit code 0; with fewer it stops in the file whose calls are not all answered. */
  lemma {:induction false} ApplyExactly<S>(pending: seq<string>, sql: Sql<S>, db: Db<S>, n: nat, fate: Fate, good: nat)
    requires FailsAt(pending, sql, db.schema, good)
    ensures
      var (after, outcome) := ApplyFiles(pending, sql, db, n, fate);
      var k := Completed(good, n, fate);
      && k <= |pending| && after.ledger == db.ledger + pending[..k]
      && Replay(pending[..k], sql, db.schema) == Some(after.schema)
      && (outcome == Exit(0) <==> good == |pending| && n >= 3 * good)
      && (outcome == Raised <==> n < 3 * good && n % 3 != 0)
      && (outcome == Exit(0) || outcome == Exit(1) || outcome == Raised)
    decreases |pending|
  {
    ApplyAdvances(pending, sql, db, n, fate);
    ApplyEnds(pending, sql, db, n, fate, good);
  }

  lemma {:induction false} ApplyEnds<S>(pending: seq<string>, sql: Sql<S>, db: Db<S>, n: nat, fate: Fate, good: nat)
    requires FailsAt(pending, sql, db.schema, good)
    ensures Progress(pending, sql, db.schema, n, fate) == Completed(good, n, fate)
    ensures
      var outcome := ApplyFiles(pending, sql, db, n, fate).1;
      && (outcome == Exit(0) <==> good == |pending| && n >= 3 * good)
      && (outcome == Raised <==> n < 3 * good && n % 3 != 0)
      && (outcome == Exit(0) || outcome == Exit(1) || outcome == Raised)
    decreases |pending|
  {
    hide FailsAt, Replay;
    if pending != [] {
      FailsAtRest(pending, sql, db.schema, good);
      if good > 0 && n >= 3 {
        var done := db.(ledger := db.ledger + [pending[0]], schema := sql(pending[0], db.schema).value);
        ApplyEnds(pending[1..], sql, done, n - 3, fate, good - 1);
      }
    } else {
      NoneGood(sql, db.schema, good);
    }
  }

  lemma NoneGood<S>(sql: Sql<S>, schema: S, good: nat)
    requires FailsAt([], sql, schema, good)
    ensures good == 0
  {
  }

  /** An undisturbed run exits 0 exactly when all its pending files can be applied in order, and then has ledgered them
      all; otherwise it exits 1 with exactly the files before the first that cannot. */
  lemma UndisturbedExit<S>(files: seq<string>, sql: Sql<S>, db: Db<S>, good: nat)
    requires NoDuplicates(files) && FailsAt(PendingFiles(files, db.ledger), sql, db.schema, good)
    ensures
      var (pending, (after, outcome)) :=
        (PendingFiles(files, db.ledger), Migrate(files, sql, db, Undisturbed(files)));
      && outcome == (if good == |pending| then Exit(0) else Exit(1))
      && after.ledger == db.ledger + pending[..good]
      && Replay(pending[..good], sql, db.schema) == Some(after.schema)
      && (files != [] ==> after.ready)
  {
    hide ApplyFiles, Replay;
    var pending := PendingFiles(files, db.ledger);
    PendingFew(files, db.ledger);
    ApplyExactly(pending, sql, db.(ready := true), 3 * |files|, Undisturbed(files), good);
    ApplyAdvances(pending, sql, db.(ready := true), 3 * |files|, Undisturbed(files));
    if files == [] {
      assert pending[..good] == [] && db.ledger + [] == db.ledger;
      ReplayNone(sql, db.schema);
    }
  }

  /** The ledger table exists after a run exactly when it did before or its creation was committed; calls that raise
      before the first file end the run without an exit code. */
  lemma SetupIs<S>(files: seq<string>, sql: Sql<S>, db: Db<S>, fate: Fate)
    requires files != []
    ensures
      var (after, outcome) := Migrate(files, sql, db, fate);
      && (after.ready <==> db.ready || fate.answered >= 2 || (fate.answered == 1 && fate.lostReply))
      && (fate.answered < 3 ==> outcome == Raised && after.ledger == db.ledger && after.schema == db.schema)
  {
    if fate.answered >= 3 {
      ApplyAdvances(PendingFiles(files, db.ledger), sql, db.(ready := true), fate.answered - 3, fate);
    }
  }
}

/** The runner, call by call, against a connection with an open transaction. */
module MigrationRunner {
  import opened Seqs
  import opened MigrationSpec

  class Connection<S> {
    var committed: Db<S>
    var working: Db<S>
    /** Database calls still to be answered. */
    var left: nat

    constructor (db: Db<S>, left: nat)
      ensures committed == working == db && this.left == left
    {
      this.committed, this.working, this.left := db, db, left;
    }

    /** The effect of a statement inside the transaction; false if it raises. */
    method Execute(after: Db<S>) returns (ok: bool)
      modifies this
      ensures committed == old(committed)
      ensures ok <==> old(left) > 0
      ensures ok ==> left == old(left) - 1 && working == after
      ensures !ok ==> left == old(left) && working == old(working)
    {
      ok := left > 0;
      if ok { working, left := after, left - 1; }
    }

    method Commit(fate: Fate) returns (ok: bool)
      modifies this
      ensures ok <==> old(left) > 0
      ensures committed == MigrationSpec.Commit(old(committed), old(working), old(left), fate)
      ensures ok ==> left == old(left) - 1 && working == old(working)
    {
      ok := left > 0;
      if ok || fate.lostReply { committed := working; }
      if ok { left := left - 1; }
    }

    /** Rolling back, or closing with a transaction open. */
    method Rollback()
      modifies this
      ensures committed == old(committed) && working == committed
    {
      working := committed;
    }
  }

  method SqlMigrate<S>(files: seq<string>, sql: Sql<S>, db: Db<S>, fate: Fate) returns (after: Db<S>, outcome: Outcome)
    ensures (after, outcome) == Migrate(files, sql, db, fate)
  {
    var conn := new Connection(db, fate.answered);
    outcome := RunFiles(files, sql, conn, fate);
    conn.Rollback();
    after := conn.committed;
  }

  method RunFiles<S>(files: seq<string>, sql: Sql<S>, conn: Connection<S>, fate: Fate) returns (outcome: Outcome)
    requires conn.committed == conn.working && conn.left == fate.answered
    modifies conn
    ensures (conn.committed, outcome) == Migrate(files, sql, old(conn.committed), fate)
  {
    hide ApplyFiles, PendingFiles;
    if files == [] { return Exit(0); }
    var ok := conn.Execute(conn.working.(ready := true));
    if !ok { return Raised; }
    ok := conn.Commit(fate);
    if !ok { return Raised; }
    var applied := conn.working.ledger;
    ok := conn.Execute(conn.working);
    if !ok { return Raised; }
    outcome := ApplyPending(PendingFiles(files, applied), sql, conn, fate);
  }

  /** The loop over the pending files. */
  method ApplyPending<S>(pending: seq<string>, sql: Sql<S>, conn: Connection<S>, fate: Fate) returns (outcome: Outcome)
    requires conn.committed == conn.working
    modifies conn
    ensures (conn.committed, outcome) == ApplyFiles(pending, sql, old(conn.committed), old(conn.left), fate)
  {
    ghost var total := ApplyFiles(pending, sql, conn.committed, conn.left, fate);
    for i := 0 to |pending|
      invariant conn.committed == conn.working
      invariant ApplyFiles(pending[i..], sql, conn.committed, conn.left, fate) == total
    {
      assert pending[i..][0] == pending[i] && pending[i..][1..] == pending[i + 1..];
      var failed := ApplyFile(pending[i], sql, conn, fate);
      if failed.Some? { return failed.value; }
    }
    outcome := Exit(0);
  }

  /** One file in its own transaction; the result says how the run ends if it does not go through. */
  method ApplyFile<S>(f: string, sql: Sql<S>, conn: Connection<S>, fate: Fate) returns (failed: Option<Outcome>)
    requires conn.committed == conn.working
    modifies conn
    ensures
      var (db, n) := (old(conn.committed), old(conn.left));
      if n == 0 || sql(f, db.schema).None? then failed == Some(Exit(1)) && conn.committed == db
      else
        var done := db.(ledger := db.ledger + [f], schema := sql(f, db.schema).value);
        if n == 1 then failed == Some(Raised) && conn.committed == db
        else if n == 2 then failed == Some(Raised) && conn.committed == MigrationSpec.Commit(db, done, 0, fate)
        else failed == None && conn.committed == conn.working == done && conn.left == n - 3
  {
    var result := sql(f, conn.working.schema);
    var ok := false;
    if result.Some? {
      ok := conn.Execute(conn.working.(schema := result.value));
    }
    if !ok {
      conn.Rollback();
      return Some(Exit(1));
    }
    ok := conn.Execute(conn.working.(ledger := conn.working.ledger + [f]));
    if !ok { return Some(Raised); }
    ok := conn.Commit(fate);
    failed := if ok then None else Some(Raised);
  }
}
