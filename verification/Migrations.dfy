/**
 * Schema migrations of server/db.js, runMigrations: files applied in name order, each recorded in
 * _migrations. The process may be cut off before any write, and any SQL statement may throw, which
 * ends the boot. A boot is described by how many writes it gets to make.
 */
module Migrations {
  import opened Text

  /** One SQL statement on the schema; None where it throws, which leaves the schema as it was. */
  type Exec<!S, !D> = (S, D) -> Option<D>

  /** A file runs in one transaction with its row, unless it opens with the no-transaction mark. */
  datatype MigrationFile<S> = MigrationFile(name: string, noTransaction: bool, sql: seq<S>)

  /** The schema, and the rows of _migrations once that table exists. */
  datatype Database<D> = Database(schema: D, table: Option<seq<string>>)

  /** What a boot leaves behind, and whether it got through. */
  datatype Outcome<D> = Outcome(db: Database<D>, finished: bool)

  function Rows<D>(db: Database<D>): seq<string> {
    if db.table == None then [] else db.table.value
  }

  function Names<S>(files: seq<MigrationFile<S>>): seq<string> {
    seq(|files|, i requires 0 <= i < |files| => files[i].name)
  }

  /** pendingMigrationNames: reads only, and takes an absent table to mean nothing was applied. */
  function Pending<S, D>(db: Database<D>, files: seq<MigrationFile<S>>): seq<string> {
    if db.table == None then Names(files) else NotIn(Names(files), db.table.value)
  }

  function NotIn(names: seq<string>, applied: seq<string>): seq<string> {
    if names == [] then []
    else (if names[0] in applied then [] else [names[0]]) + NotIn(names[1..], applied)
  }

  /** All statements in order; None where one throws. */
  function RunSql<S, D>(exec: Exec<S, D>, sql: seq<S>, d: D): Option<D> {
    if sql == [] then Some(d)
    else
      match exec(sql[0], d)
      case None => None
      case Some(e) => RunSql(exec, sql[1..], e)
  }

  /** What the statements leave behind outside a transaction: those before the one that throws. */
  function Reach<S, D>(exec: Exec<S, D>, sql: seq<S>, d: D): D {
    if sql == [] then d
    else
      match exec(sql[0], d)
      case None => d
      case Some(e) => Reach(exec, sql[1..], e)
  }

  /** One clean in-order run of the files. */
  function Clean<S, D>(exec: Exec<S, D>, files: seq<MigrationFile<S>>, empty: D): Option<D> {
    if files == [] then Some(empty)
    else
      match Clean(exec, files[..|files| - 1], empty)
      case None => None
      case Some(d) => RunSql(exec, files[|files| - 1].sql, d)
  }

  /** Writes one file needs: one commit, or one per statement and one for the row. */
  function Writes<S>(f: MigrationFile<S>): nat {
    if f.noTransaction then |f.sql| + 1 else 1
  }

  function Min(a: nat, b: nat): nat {
    if a < b then a else b
  }

  /** A file given `n` writes: applied with its row, or cut off, or thrown out of. */
  function Apply<S, D>(exec: Exec<S, D>, f: MigrationFile<S>, db: Database<D>, n: nat): Outcome<D> {
    var done := RunSql(exec, f.sql, db.schema);
    if n >= Writes(f) && done != None then Outcome(Database(done.value, Some(Rows(db) + [f.name])), true)
    else if f.noTransaction then Outcome(db.(schema := Reach(exec, f.sql[..Min(n, |f.sql|)], db.schema)), false)
    else Outcome(db, false)
  }

  function ApplyAll<S, D>(exec: Exec<S, D>, files: seq<MigrationFile<S>>, applied: seq<string>, db: Database<D>, n: nat)
    : Outcome<D>
    decreases |files|
  {
    if files == [] then Outcome(db, true)
    else if files[0].name in applied then ApplyAll(exec, files[1..], applied, db, n)
    else
      var step := Apply(exec, files[0], db, n);
      if !step.finished then step else ApplyAll(exec, files[1..], applied, step.db, n - Writes(files[0]))
  }

  /** One boot that is cut off after `n` writes; creating the table is the first of them. */
  function Boot<S, D>(exec: Exec<S, D>, files: seq<MigrationFile<S>>, db: Database<D>, n: nat): Outcome<D> {
    if db.table == None && n == 0 then Outcome(db, false)
    else
      var ready := if db.table == None then db.(table := Some([])) else db;
      ApplyAll(exec, files, Rows(db), ready, if db.table == None then n - 1 else n)
  }

  function Boots<S, D>(exec: Exec<S, D>, files: seq<MigrationFile<S>>, db: Database<D>, cuts: seq<nat>): Database<D> {
    if cuts == [] then db
    else Boot(exec, files, Boots(exec, files, db, cuts[..|cuts| - 1]), cuts[|cuts| - 1]).db
  }

  function AllWrites<S>(files: seq<MigrationFile<S>>): nat {
    if files == [] then 0 else Writes(files[0]) + AllWrites(files[1..])
  }

  ghost predicate DistinctNames<S>(files: seq<MigrationFile<S>>) {
    forall i, j | 0 <= i < j < |files| :: files[i].name != files[j].name
  }

  // ---- the applied set is always a prefix --------------------------------------------------------

  lemma NotInSkipsPrefix(names: seq<string>, p: nat)
    requires p <= |names| && forall i, j | 0 <= i < j < |names| :: names[i] != names[j]
    ensures NotIn(names, names[..p]) == names[p..]
  {
    NotInFrom(names, p, 0);
    assert names[0..] == names;
  }

  lemma {:induction false} NotInFrom(names: seq<string>, p: nat, i: nat)
    requires p <= |names| && i <= |names| && forall k, l | 0 <= k < l < |names| :: names[k] != names[l]
    ensures NotIn(names[i..], names[..p]) == if i < p then names[p..] else names[i..]
    decreases |names| - i
  {
    if i < |names| {
      assert names[i..][0] == names[i] && names[i..][1..] == names[i + 1..];
      assert names[i] in names[..p] <==> i < p by {
        if i < p { assert names[..p][i] == names[i]; }
      }
      NotInFrom(names, p, i + 1);
    }
  }

  /** With a prefix applied, table or no table, the pending list is exactly the rest. */
  lemma PendingIsTheRest<S, D>(files: seq<MigrationFile<S>>, db: Database<D>, p: nat)
    requires DistinctNames(files) && p <= |files| && Rows(db) == Names(files[..p])
    ensures Pending(db, files) == Names(files)[p..]
  {
    assert Names(files)[..p] == Names(files[..p]);
    NotInSkipsPrefix(Names(files), p);
    if db.table == None { assert |Names(files[..p])| == p; }
  }

  /** The files from p on, one at a time: the loop once the applied files are skipped. */
  function From<S, D>(exec: Exec<S, D>, files: seq<MigrationFile<S>>, p: nat, db: Database<D>, n: nat): Outcome<D>
    requires p <= |files|
    decreases |files| - p
  {
    if p == |files| then Outcome(db, true)
    else
      var step := Apply(exec, files[p], db, n);
      if !step.finished then step else From(exec, files, p + 1, step.db, n - Writes(files[p]))
  }

  lemma {:induction false} ApplyAllIsFrom<S, D>(
    exec: Exec<S, D>, files: seq<MigrationFile<S>>, applied: nat, i: nat, db: Database<D>, n: nat)
    requires DistinctNames(files) && applied <= |files| && i <= |files|
    ensures ApplyAll(exec, files[i..], Names(files[..applied]), db, n) ==
            From(exec, files, if i < applied then applied else i, db, n)
    decreases |files| - i
  {
    if i < |files| {
      assert files[i..][0] == files[i] && files[i..][1..] == files[i + 1..];
      if i < applied {
        assert Names(files[..applied])[i] == files[i].name;
      } else {
        assert files[i].name !in Names(files[..applied]);
      }
      var step := Apply(exec, files[i], db, n);
      ApplyAllIsFrom(exec, files, applied, i + 1, db, n);
      if step.finished { ApplyAllIsFrom(exec, files, applied, i + 1, step.db, n - Writes(files[i])); }
    }
  }

  /** A boot over a database with p files applied goes straight to file p. */
  lemma BootFrom<S, D>(exec: Exec<S, D>, files: seq<MigrationFile<S>>, db: Database<D>, p: nat, n: nat)
    requires DistinctNames(files) && p <= |files| && Rows(db) == Names(files[..p]) && (db.table != None || n > 0)
    ensures Boot(exec, files, db, n) ==
      From(exec, files, p, if db.table == None then db.(table := Some([])) else db, if db.table == None then n - 1 else n)
  {
    var ready := if db.table == None then db.(table := Some([])) else db;
    ApplyAllIsFrom(exec, files, p, 0, ready, if db.table == None then n - 1 else n);
    assert files[0..] == files;
  }

  lemma {:induction false} FromKeepsPrefix<S, D>(
    exec: Exec<S, D>, files: seq<MigrationFile<S>>, db: Database<D>, p: nat, n: nat)
    returns (q: nat)
    requires p <= |files| && Rows(db) == Names(files[..p]) && db.table != None
    ensures var r := From(exec, files, p, db, n);
            && p <= q <= |files| && Rows(r.db) == Names(files[..q]) && r.db.table != None
            && (r.finished <==> q == |files|)
    decreases |files| - p
  {
    q := p;
    if p < |files| {
      var step := Apply(exec, files[p], db, n);
      if step.finished {
        assert Names(files[..p]) + [files[p].name] == Names(files[..p + 1]);
        q := FromKeepsPrefix(exec, files, step.db, p + 1, n - Writes(files[p]));
      }
    }
  }

  /** One boot, wherever it ends: the applied prefix only grows, and it is whole iff the boot got through. */
  lemma BootKeepsPrefix<S, D>(exec: Exec<S, D>, files: seq<MigrationFile<S>>, db: Database<D>, p: nat, n: nat)
    returns (q: nat)
    requires DistinctNames(files) && p <= |files| && Rows(db) == Names(files[..p])
    ensures var r := Boot(exec, files, db, n);
            && p <= q <= |files| && Rows(r.db) == Names(files[..q])
            && (r.finished <==> q == |files| && (db.table != None || n > 0))
  {
    q := p;
    if db.table != None || n > 0 {
      BootFrom(exec, files, db, p, n);
      var ready := if db.table == None then db.(table := Some([])) else db;
      q := FromKeepsPrefix(exec, files, ready, p, if db.table == None then n - 1 else n);
    }
  }

  /**
   * Whatever the files do, and wherever each boot was cut off or thrown out: the applied set is a
   * prefix of the files in order, and the pending list is exactly the rest.
   */
  lemma {:induction false} BootsKeepPrefix<S, D>(
    exec: Exec<S, D>, files: seq<MigrationFile<S>>, empty: D, cuts: seq<nat>)
    returns (p: nat)
    requires DistinctNames(files)
    ensures var db := Boots(exec, files, Database(empty, None), cuts);
            p <= |files| && Rows(db) == Names(files[..p]) && Pending(db, files) == Names(files)[p..]
  {
    p := 0;
    if cuts == [] {
      assert Names(files[..0]) == [];
    } else {
      var before := Boots(exec, files, Database(empty, None), cuts[..|cuts| - 1]);
      var q := BootsKeepPrefix(exec, files, empty, cuts[..|cuts| - 1]);
      p := BootKeepsPrefix(exec, files, before, q, cuts[|cuts| - 1]);
    }
    PendingIsTheRest(files, Boots(exec, files, Database(empty, None), cuts), p);
  }

  // ---- what partial runs of a file can leave ---------------------------------------------------------

  /** The schema after runs of one file outside a transaction, each cut off or thrown out somewhere. */
  function Reruns<S, D>(exec: Exec<S, D>, sql: seq<S>, d: D, ks: seq<nat>): D {
    if ks == [] then d
    else Reach(exec, sql[..Min(ks[|ks| - 1], |sql|)], Reruns(exec, sql, d, ks[..|ks| - 1]))
  }

  ghost predicate Partway<S, D(!new)>(exec: Exec<S, D>, f: MigrationFile<S>, start: D, d: D) {
    exists ks: seq<nat> :: Reruns(exec, f.sql, start, ks) == d
  }

  /**
   * What "safely re-runnable" has to mean for a file that starts on `start`: from whatever its own
   * partial runs can leave there, one whole run gives what it gives on `start`.
   */
  ghost predicate Recovers<S, D(!new)>(exec: Exec<S, D>, f: MigrationFile<S>, start: D) {
    forall d | Partway(exec, f, start, d) :: RunSql(exec, f.sql, d) == RunSql(exec, f.sql, start)
  }

  lemma PartwayOn<S, D(!new)>(exec: Exec<S, D>, f: MigrationFile<S>, start: D, d: D, n: nat)
    requires Partway(exec, f, start, d)
    ensures Partway(exec, f, start, Reach(exec, f.sql[..Min(n, |f.sql|)], d))
  {
    var ks: seq<nat> :| Reruns(exec, f.sql, start, ks) == d;
    assert (ks + [n])[..|ks + [n]| - 1] == ks;
    assert Reruns(exec, f.sql, start, ks + [n]) == Reach(exec, f.sql[..Min(n, |f.sql|)], d);
  }

  lemma PartwayStart<S, D(!new)>(exec: Exec<S, D>, f: MigrationFile<S>, start: D)
    ensures Partway(exec, f, start, start)
  {
    assert Reruns(exec, f.sql, start, []) == start;
  }

  ghost predicate FileRecovers<S, D(!new)>(exec: Exec<S, D>, files: seq<MigrationFile<S>>, empty: D, i: nat)
    requires i < |files|
  {
    Clean(exec, files[..i], empty) != None && Recovers(exec, files[i], Clean(exec, files[..i], empty).value)
  }

  ghost predicate AllRecover<S, D(!new)>(exec: Exec<S, D>, files: seq<MigrationFile<S>>, empty: D) {
    forall i | 0 <= i < |files| && files[i].noTransaction :: FileRecovers(exec, files, empty, i)
  }

  /** The first p files are applied, and the schema is theirs, up to partial runs of the next file. */
  ghost predicate At<S, D(!new)>(exec: Exec<S, D>, files: seq<MigrationFile<S>>, empty: D, db: Database<D>, p: nat) {
    && p <= |files| && Rows(db) == Names(files[..p])
    && Clean(exec, files[..p], empty) != None
    && if p < |files| && files[p].noTransaction
       then Partway(exec, files[p], Clean(exec, files[..p], empty).value, db.schema)
       else Some(db.schema) == Clean(exec, files[..p], empty)
  }

  lemma {:induction false} CleanPrefix<S, D>(exec: Exec<S, D>, files: seq<MigrationFile<S>>, empty: D, p: nat)
    requires Clean(exec, files, empty) != None && p <= |files|
    ensures Clean(exec, files[..p], empty) != None
    decreases |files|
  {
    if p == |files| {
      assert files[..p] == files;
    } else {
      CleanPrefix(exec, files[..|files| - 1], empty, p);
      assert files[..|files| - 1][..p] == files[..p];
    }
  }

  lemma CleanNext<S, D>(exec: Exec<S, D>, files: seq<MigrationFile<S>>, empty: D, p: nat)
    requires Clean(exec, files, empty) != None && p < |files|
    ensures Clean(exec, files[..p], empty) != None && Clean(exec, files[..p + 1], empty) != None
    ensures Clean(exec, files[..p + 1], empty) == RunSql(exec, files[p].sql, Clean(exec, files[..p], empty).value)
  {
    CleanPrefix(exec, files, empty, p);
    CleanPrefix(exec, files, empty, p + 1);
    assert files[..p + 1][..p] == files[..p];
  }

  lemma ReachAt<S, D(!new)>(exec: Exec<S, D>, files: seq<MigrationFile<S>>, empty: D, db: Database<D>, p: nat)
    requires p <= |files| && Rows(db) == Names(files[..p]) && Some(db.schema) == Clean(exec, files[..p], empty)
    ensures At(exec, files, empty, db, p)
  {
    if p < |files| { PartwayStart(exec, files[p], db.schema); }
  }

  /** From a settled state a whole run of file p gives the next clean schema. */
  lemma FileGetsThrough<S, D(!new)>(exec: Exec<S, D>, files: seq<MigrationFile<S>>, empty: D, db: Database<D>, p: nat)
    requires Clean(exec, files, empty) != None && AllRecover(exec, files, empty)
    requires At(exec, files, empty, db, p) && p < |files|
    ensures Clean(exec, files[..p + 1], empty) != None
    ensures RunSql(exec, files[p].sql, db.schema) == Clean(exec, files[..p + 1], empty)
  {
    CleanNext(exec, files, empty, p);
    if files[p].noTransaction {
      assert FileRecovers(exec, files, empty, p);
    }
  }

  lemma StaysPartway<S, D(!new)>(
    exec: Exec<S, D>, files: seq<MigrationFile<S>>, empty: D, db: Database<D>, p: nat, n: nat)
    requires At(exec, files, empty, db, p) && p < |files| && !Apply(exec, files[p], db, n).finished
    ensures At(exec, files, empty, Apply(exec, files[p], db, n).db, p)
  {
    if files[p].noTransaction {
      PartwayOn(exec, files[p], Clean(exec, files[..p], empty).value, db.schema, n);
    }
  }

  lemma MovesOn<S, D(!new)>(
    exec: Exec<S, D>, files: seq<MigrationFile<S>>, empty: D, db: Database<D>, p: nat, n: nat)
    requires p < |files| && Rows(db) == Names(files[..p]) && n >= Writes(files[p])
    requires RunSql(exec, files[p].sql, db.schema) == Clean(exec, files[..p + 1], empty) != None
    ensures Apply(exec, files[p], db, n).finished
    ensures At(exec, files, empty, Apply(exec, files[p], db, n).db, p + 1)
  {
    assert Names(files[..p]) + [files[p].name] == Names(files[..p + 1]);
    ReachAt(exec, files, empty, Apply(exec, files[p], db, n).db, p + 1);
  }

  /** Applying file p from a settled state: enough writes move it to p + 1, fewer leave it at p. */
  lemma ApplySettles<S, D(!new)>(
    exec: Exec<S, D>, files: seq<MigrationFile<S>>, empty: D, db: Database<D>, p: nat, n: nat)
    returns (step: Outcome<D>)
    requires Clean(exec, files, empty) != None && AllRecover(exec, files, empty)
    requires At(exec, files, empty, db, p) && p < |files|
    ensures step == Apply(exec, files[p], db, n) && (step.finished <==> n >= Writes(files[p]))
    ensures At(exec, files, empty, step.db, if step.finished then p + 1 else p)
  {
    step := Apply(exec, files[p], db, n);
    FileGetsThrough(exec, files, empty, db, p);
    if n >= Writes(files[p]) {
      MovesOn(exec, files, empty, db, p, n);
    } else {
      StaysPartway(exec, files, empty, db, p, n);
    }
  }

  lemma {:induction false} FromSettles<S, D(!new)>(
    exec: Exec<S, D>, files: seq<MigrationFile<S>>, empty: D, db: Database<D>, p: nat, n: nat)
    returns (q: nat)
    requires Clean(exec, files, empty) != None && AllRecover(exec, files, empty)
    requires At(exec, files, empty, db, p)
    ensures p <= q && At(exec, files, empty, From(exec, files, p, db, n).db, q)
    ensures n >= AllWrites(files[p..]) ==> q == |files| && From(exec, files, p, db, n).finished
    decreases |files| - p
  {
    q := p;
    if p < |files| {
      AllWritesFrom(files, p);
      var step := ApplySettles(exec, files, empty, db, p, n);
      if step.finished {
        q := FromSettles(exec, files, empty, step.db, p + 1, n - Writes(files[p]));
      }
    }
  }

  lemma AllWritesFrom<S>(files: seq<MigrationFile<S>>, p: nat)
    requires p < |files|
    ensures AllWrites(files[p..]) == Writes(files[p]) + AllWrites(files[p + 1..])
  {
    assert files[p..][0] == files[p] && files[p..][1..] == files[p + 1..];
  }

  lemma BootSettles<S, D(!new)>(
    exec: Exec<S, D>, files: seq<MigrationFile<S>>, empty: D, db: Database<D>, p: nat, n: nat)
    returns (q: nat)
    requires DistinctNames(files) && Clean(exec, files, empty) != None && AllRecover(exec, files, empty)
    requires At(exec, files, empty, db, p)
    ensures var r := Boot(exec, files, db, n);
            && p <= q && At(exec, files, empty, r.db, q)
            && (n > AllWrites(files) ==> q == |files| && r.finished)
  {
    q := p;
    if db.table != None || n > 0 {
      BootFrom(exec, files, db, p, n);
      AllWritesSplit(files, p);
      var ready := if db.table == None then db.(table := Some([])) else db;
      q := FromSettles(exec, files, empty, ready, p, if db.table == None then n - 1 else n);
    }
  }

  lemma {:induction false} AllWritesSplit<S>(files: seq<MigrationFile<S>>, p: nat)
    requires p <= |files|
    ensures AllWrites(files) == AllWrites(files[..p]) + AllWrites(files[p..])
  {
    if p == 0 {
      assert files[0..] == files && files[..0] == [];
    } else {
      AllWritesSplit(files[1..], p - 1);
      assert files[1..][..p - 1] == files[..p][1..] && files[1..][p - 1..] == files[p..];
    }
  }

  lemma {:induction false} BootsSettle<S, D(!new)>(
    exec: Exec<S, D>, files: seq<MigrationFile<S>>, empty: D, cuts: seq<nat>)
    returns (p: nat)
    requires DistinctNames(files) && Clean(exec, files, empty) != None && AllRecover(exec, files, empty)
    ensures At(exec, files, empty, Boots(exec, files, Database(empty, None), cuts), p)
  {
    if cuts == [] {
      p := 0;
      assert files[..0] == [];
      ReachAt(exec, files, empty, Database(empty, None), 0);
    } else {
      var q := BootsSettle(exec, files, empty, cuts[..|cuts| - 1]);
      p := BootSettles(exec, files, empty, Boots(exec, files, Database(empty, None), cuts[..|cuts| - 1]), q, cuts[|cuts| - 1]);
    }
  }

  // ---- when a boot always ends on the clean schema ------------------------------------------------------

  /** However earlier boots were cut off, a boot that is let run gets through, on the clean schema. */
  ghost predicate AlwaysRecovers<S, D(!new)>(exec: Exec<S, D>, files: seq<MigrationFile<S>>, empty: D)
    requires Clean(exec, files, empty) != None
  {
    forall cuts: seq<nat>, n: nat | n > AllWrites(files) ::
      Boot(exec, files, Boots(exec, files, Database(empty, None), cuts), n)
        == Outcome(Database(Clean(exec, files, empty).value, Some(Names(files))), true)
  }

  lemma BootMakesTable<S, D>(exec: Exec<S, D>, files: seq<MigrationFile<S>>, db: Database<D>, p: nat, n: nat)
    requires DistinctNames(files) && p <= |files| && Rows(db) == Names(files[..p]) && n > 0
    ensures Boot(exec, files, db, n).db.table != None
  {
    BootFrom(exec, files, db, p, n);
    var ready := if db.table == None then db.(table := Some([])) else db;
    var q := FromKeepsPrefix(exec, files, ready, p, if db.table == None then n - 1 else n);
  }

  lemma RecoveringFilesSuffice<S, D(!new)>(exec: Exec<S, D>, files: seq<MigrationFile<S>>, empty: D)
    requires DistinctNames(files) && Clean(exec, files, empty) != None && AllRecover(exec, files, empty)
    ensures AlwaysRecovers(exec, files, empty)
  {
    forall cuts: seq<nat>, n: nat | n > AllWrites(files)
      ensures Boot(exec, files, Boots(exec, files, Database(empty, None), cuts), n)
           == Outcome(Database(Clean(exec, files, empty).value, Some(Names(files))), true)
    {
      var before := Boots(exec, files, Database(empty, None), cuts);
      var p := BootsSettle(exec, files, empty, cuts);
      var q := BootSettles(exec, files, empty, before, p, n);
      assert files[..|files|] == files;
      BootMakesTable(exec, files, before, p, n);
    }
  }

  /** The database with the first p files cleanly applied. */
  ghost function CleanAt<S, D>(exec: Exec<S, D>, files: seq<MigrationFile<S>>, empty: D, p: nat): Database<D>
    requires p <= |files| && Clean(exec, files[..p], empty) != None
  {
    Database(Clean(exec, files[..p], empty).value, Some(Names(files[..p])))
  }

  lemma CleanStep<S, D>(exec: Exec<S, D>, files: seq<MigrationFile<S>>, empty: D, p: nat, n: nat)
    requires Clean(exec, files, empty) != None && p < |files| && n >= Writes(files[p])
    ensures Clean(exec, files[..p], empty) != None && Clean(exec, files[..p + 1], empty) != None
    ensures From(exec, files, p, CleanAt(exec, files, empty, p), n)
         == From(exec, files, p + 1, CleanAt(exec, files, empty, p + 1), n - Writes(files[p]))
  {
    CleanNext(exec, files, empty, p);
    assert Names(files[..p]) + [files[p].name] == Names(files[..p + 1]);
  }

  /** Undisturbed, the first files are applied cleanly and their writes are used up. */
  lemma {:induction false} CleanRun<S, D>(exec: Exec<S, D>, files: seq<MigrationFile<S>>, empty: D, i: nat, p: nat)
    requires Clean(exec, files, empty) != None && p <= i <= |files|
    ensures Clean(exec, files[..p], empty) != None && Clean(exec, files[..i], empty) != None
    ensures From(exec, files, p, CleanAt(exec, files, empty, p), AllWrites(files[p..i]))
         == From(exec, files, i, CleanAt(exec, files, empty, i), 0)
    decreases i - p
  {
    CleanPrefix(exec, files, empty, p);
    CleanPrefix(exec, files, empty, i);
    if p < i {
      assert files[p..i][0] == files[p] && files[p..i][1..] == files[p + 1..i];
      CleanStep(exec, files, empty, p, AllWrites(files[p..i]));
      CleanRun(exec, files, empty, i, p + 1);
    } else {
      assert files[p..i] == [];
    }
  }

  /** Boots that reach the last file, which is outside a transaction, and then are cut off in it. */
  lemma {:induction false} CutsInLastFile<S, D>(
    exec: Exec<S, D>, files: seq<MigrationFile<S>>, empty: D, ks: seq<nat>)
    returns (cuts: seq<nat>)
    requires DistinctNames(files) && Clean(exec, files, empty) != None
    requires files != [] && files[|files| - 1].noTransaction
    requires forall j | 0 <= j < |ks| :: ks[j] <= |files[|files| - 1].sql|
    ensures var i := |files| - 1;
            Clean(exec, files[..i], empty) != None &&
            Boots(exec, files, Database(empty, None), cuts) ==
              Database(Reruns(exec, files[i].sql, Clean(exec, files[..i], empty).value, ks), Some(Names(files[..i])))
  {
    var i := |files| - 1;
    var f := files[i];
    CleanNext(exec, files, empty, i);
    if ks == [] {
      var n := AllWrites(files[..i]);
      cuts := [n + 1];
      assert cuts[..0] == [] && files[0..i] == files[..i] && Names(files[..0]) == [] && files[..0] == [];
      BootFrom(exec, files, Database(empty, None), 0, n + 1);
      CleanRun(exec, files, empty, i, 0);
      assert f.sql[..0] == [];
      assert Boots(exec, files, Database(empty, None), []) == Database(empty, None);
    } else {
      var k := ks[|ks| - 1];
      var front := CutsInLastFile(exec, files, empty, ks[..|ks| - 1]);
      cuts := front + [k];
      assert cuts[..|cuts| - 1] == front;
      var before := Boots(exec, files, Database(empty, None), front);
      BootFrom(exec, files, before, i, k);
    }
  }

  /** Counts past the end of a file are cuts at its end. */
  lemma {:induction false} RerunsWithin<S, D>(exec: Exec<S, D>, sql: seq<S>, d: D, ks: seq<nat>)
    returns (within: seq<nat>)
    ensures Reruns(exec, sql, d, within) == Reruns(exec, sql, d, ks)
    ensures forall j | 0 <= j < |within| :: within[j] <= |sql|
  {
    within := [];
    if ks != [] {
      var front := RerunsWithin(exec, sql, d, ks[..|ks| - 1]);
      within := front + [Min(ks[|ks| - 1], |sql|)];
      assert within[..|within| - 1] == front;
    }
  }

  /** A boot let run in front of the last file gets through only if that file runs. */
  lemma BootAtLastFile<S, D>(exec: Exec<S, D>, files: seq<MigrationFile<S>>, db: Database<D>, n: nat)
    requires DistinctNames(files) && files != [] && db.table == Some(Names(files[..|files| - 1]))
    ensures var r := Boot(exec, files, db, n);
            r.finished ==> Some(r.db.schema) == RunSql(exec, files[|files| - 1].sql, db.schema)
  {
    var i := |files| - 1;
    BootFrom(exec, files, db, i, n);
  }

  lemma PartwayRecovers<S, D(!new)>(exec: Exec<S, D>, files: seq<MigrationFile<S>>, empty: D, ks: seq<nat>)
    requires DistinctNames(files) && Clean(exec, files, empty) != None && AlwaysRecovers(exec, files, empty)
    requires files != [] && files[|files| - 1].noTransaction
    ensures Clean(exec, files[..|files| - 1], empty) != None
    ensures var sql, start := files[|files| - 1].sql, Clean(exec, files[..|files| - 1], empty).value;
            RunSql(exec, sql, Reruns(exec, sql, start, ks)) == Clean(exec, files, empty)
  {
    var i := |files| - 1;
    CleanPrefix(exec, files, empty, i);
    var within := RerunsWithin(exec, files[i].sql, Clean(exec, files[..i], empty).value, ks);
    var cuts := CutsInLastFile(exec, files, empty, within);
    BootAtLastFile(exec, files, Boots(exec, files, Database(empty, None), cuts), AllWrites(files) + 1);
  }

  lemma LastFileMustRecover<S, D(!new)>(exec: Exec<S, D>, files: seq<MigrationFile<S>>, empty: D)
    requires DistinctNames(files) && Clean(exec, files, empty) != None && AlwaysRecovers(exec, files, empty)
    requires files != [] && files[|files| - 1].noTransaction
    ensures Clean(exec, files[..|files| - 1], empty) != None
    ensures Recovers(exec, files[|files| - 1], Clean(exec, files[..|files| - 1], empty).value)
  {
    var i := |files| - 1;
    CleanNext(exec, files, empty, i);
    assert files[..i + 1] == files;
    var start := Clean(exec, files[..i], empty).value;
    forall d | Partway(exec, files[i], start, d)
      ensures RunSql(exec, files[i].sql, d) == RunSql(exec, files[i].sql, start)
    {
      var ks: seq<nat> :| Reruns(exec, files[i].sql, start, ks) == d;
      PartwayRecovers(exec, files, empty, ks);
    }
  }

  /**
   * For every release's files to always recover from cut-off boots it is enough, and needed, that
   * each file outside a transaction recovers from its own partial runs where it starts. Files in a
   * transaction need nothing.
   */
  lemma RecoveryIff<S, D(!new)>(exec: Exec<S, D>, files: seq<MigrationFile<S>>, empty: D)
    requires DistinctNames(files) && Clean(exec, files, empty) != None
    ensures EveryReleaseRecovers(exec, files, empty) <==> AllRecover(exec, files, empty)
  {
    if AllRecover(exec, files, empty) {
      forall m | 0 <= m <= |files| ensures ReleaseRecovers(exec, files, empty, m) {
        EarlierReleaseRecovers(exec, files, empty, m);
      }
    }
    if EveryReleaseRecovers(exec, files, empty) {
      forall i | 0 <= i < |files| && files[i].noTransaction ensures FileRecovers(exec, files, empty, i) {
        assert ReleaseRecovers(exec, files, empty, i + 1);
        assert files[..i + 1][..i] == files[..i];
        LastFileMustRecover(exec, files[..i + 1], empty);
      }
    }
  }

  ghost predicate ReleaseRecovers<S, D(!new)>(exec: Exec<S, D>, files: seq<MigrationFile<S>>, empty: D, m: nat)
    requires m <= |files|
  {
    Clean(exec, files[..m], empty) != None && AlwaysRecovers(exec, files[..m], empty)
  }

  /** Files are only ever added at the end: every earlier release ships a prefix. */
  ghost predicate EveryReleaseRecovers<S, D(!new)>(exec: Exec<S, D>, files: seq<MigrationFile<S>>, empty: D) {
    forall m | 0 <= m <= |files| :: ReleaseRecovers(exec, files, empty, m)
  }

  lemma EarlierReleaseRecovers<S, D(!new)>(exec: Exec<S, D>, files: seq<MigrationFile<S>>, empty: D, m: nat)
    requires DistinctNames(files) && Clean(exec, files, empty) != None && AllRecover(exec, files, empty) && m <= |files|
    ensures ReleaseRecovers(exec, files, empty, m)
  {
    CleanPrefix(exec, files, empty, m);
    forall i | 0 <= i < m && files[..m][i].noTransaction ensures FileRecovers(exec, files[..m], empty, i) {
      assert files[..m][..i] == files[..i] && FileRecovers(exec, files, empty, i);
    }
    RecoveringFilesSuffice(exec, files[..m], empty);
  }

  /**
   * A file that throws on this schema before it changes anything is stuck: no later boot, however
   * long, changes anything or applies it.
   */
  lemma {:induction false} StuckForGood<S, D>(
    exec: Exec<S, D>, files: seq<MigrationFile<S>>, db: Database<D>, p: nat, cuts: seq<nat>)
    requires DistinctNames(files) && p < |files| && Rows(db) == Names(files[..p]) && db.table != None
    requires RunSql(exec, files[p].sql, db.schema) == None
    requires forall k: nat :: Reach(exec, files[p].sql[..Min(k, |files[p].sql|)], db.schema) == db.schema
    ensures Boots(exec, files, db, cuts) == db
    ensures forall n: nat :: !Boot(exec, files, db, n).finished
  {
    forall n: nat ensures Boot(exec, files, db, n) == Outcome(db, false) {
      BootFrom(exec, files, db, p, n);
    }
    if cuts != [] { StuckForGood(exec, files, db, p, cuts[..|cuts| - 1]); }
  }

  // ---- the files that run outside a transaction ------------------------------------------------------

  datatype Table = Table(rows: set<nat>, columns: set<string>)

  /** Tables by name; rows stand for their keys. */
  type Schema = map<string, Table>

  /** The statements of the table rebuilds. PRAGMA and CREATE INDEX IF NOT EXISTS change no table. */
  datatype Statement =
    | Harmless
    | Create(name: string, columns: set<string>, ifNotExists: bool)
    | Copy(source: string, target: string, orIgnore: bool)
    | Drop(name: string)
    | Rename(source: string, target: string)
    | AddColumn(name: string, column: string)

  function Execute(st: Statement, d: Schema): Option<Schema> {
    match st
    case Harmless => Some(d)
    case Create(name, columns, ifNotExists) =>
      if name !in d then Some(d[name := Table({}, columns)]) else if ifNotExists then Some(d) else None
    case Copy(source, target, orIgnore) =>
      if source !in d || target !in d || (!orIgnore && d[source].rows * d[target].rows != {}) then None
      else Some(d[target := d[target].(rows := d[target].rows + d[source].rows)])
    case Drop(name) => if name in d then Some(d - {name}) else None
    case Rename(source, target) =>
      if source !in d || target in d then None else Some((d - {source})[target := d[source]])
    case AddColumn(name, column) =>
      if name !in d || column in d[name].columns then None
      else Some(d[name := d[name].(columns := d[name].columns + {column})])
  }

  /** 046, 048, 052, 081, 083, 086, 088, 090, 102 and 156: a new table, the rows copied, the old one dropped. */
  function Rebuild(table: string, temp: string, columns: set<string>): seq<Statement> {
    [Harmless, Create(temp, columns, false), Copy(table, temp, false), Drop(table), Rename(temp, table)]
  }

  /** 077 guards its CREATE and its INSERT. */
  function GuardedRebuild(table: string, temp: string, columns: set<string>): seq<Statement> {
    [Harmless, Create(temp, columns, true), Copy(table, temp, true), Drop(table), Rename(temp, table)]
  }

  lemma {:induction false} RunConcat<S, D>(exec: Exec<S, D>, a: seq<S>, b: seq<S>, d: D)
    ensures RunSql(exec, a + b, d) ==
      match RunSql(exec, a, d) case None => None case Some(e) => RunSql(exec, b, e)
  {
    if a == [] {
      assert a + b == b;
    } else {
      assert (a + b)[0] == a[0] && (a + b)[1..] == a[1..] + b;
      if exec(a[0], d) != None { RunConcat(exec, a[1..], b, exec(a[0], d).value); }
    }
  }

  /** Outside a transaction a whole run leaves its result, a run that throws what came before. */
  lemma {:induction false} ReachIsRun<S, D>(exec: Exec<S, D>, sql: seq<S>, d: D)
    ensures RunSql(exec, sql, d) != None ==> Reach(exec, sql, d) == RunSql(exec, sql, d).value
  {
    if sql != [] && exec(sql[0], d) != None { ReachIsRun(exec, sql[1..], exec(sql[0], d).value); }
  }

  /** Where the second statement throws and the first does nothing, no run gets anywhere. */
  lemma ThrowsAtSecond<S, D>(exec: Exec<S, D>, sql: seq<S>, d: D, k: nat)
    requires |sql| >= 2 && exec(sql[0], d) == Some(d) && exec(sql[1], d) == None
    ensures RunSql(exec, sql, d) == None && Reach(exec, sql[..Min(k, |sql|)], d) == d
  {
    assert sql[1..][0] == sql[1];
    var cut := sql[..Min(k, |sql|)];
    if |cut| >= 2 {
      assert cut[0] == sql[0] && cut[1..][0] == sql[1];
    } else if |cut| == 1 {
      assert cut[0] == sql[0] && cut[1..] == [];
    }
  }

  lemma ReachStep<S, D>(exec: Exec<S, D>, sql: seq<S>, d: D, k: nat)
    requires k < |sql| && RunSql(exec, sql[..k], d) != None
    ensures RunSql(exec, sql[..k + 1], d) == exec(sql[k], RunSql(exec, sql[..k], d).value)
  {
    assert sql[..k + 1] == sql[..k] + [sql[k]];
    RunConcat(exec, sql[..k], [sql[k]], d);
    var e := RunSql(exec, sql[..k], d).value;
    assert [sql[k]][1..] == [];
    assert exec(sql[k], e) != None ==> RunSql(exec, [], exec(sql[k], e).value) == exec(sql[k], e);
  }

  /** The schemas a rebuild goes through. */
  lemma RebuildSteps(sql: seq<Statement>, table: string, temp: string, columns: set<string>, d: Schema)
    requires Rebuild(table, temp, columns) <= sql || GuardedRebuild(table, temp, columns) <= sql
    requires table in d && temp !in d
    ensures var made := d[temp := Table({}, columns)];
            var copied := d[temp := Table(d[table].rows, columns)];
            && RunSql(Execute, sql[..1], d) == Some(d)
            && RunSql(Execute, sql[..2], d) == Some(made)
            && RunSql(Execute, sql[..3], d) == Some(copied)
            && RunSql(Execute, sql[..4], d) == Some(copied - {table})
            && RunSql(Execute, sql[..5], d) == Some(d[table := Table(d[table].rows, columns)])
  {
    var made := d[temp := Table({}, columns)];
    var copied := d[temp := Table(d[table].rows, columns)];
    assert sql[0] == Harmless && sql[3] == Drop(table) && sql[4] == Rename(temp, table);
    assert sql[1].Create? && sql[1].name == temp && sql[1].columns == columns;
    assert sql[2].Copy? && sql[2].source == table && sql[2].target == temp;
    assert RunSql(Execute, sql[..0], d) == Some(d);
    ReachStep(Execute, sql, d, 0);
    ReachStep(Execute, sql, d, 1);
    assert {} + d[table].rows == d[table].rows && d[table].rows * {} == {};
    assert made[temp := Table(d[table].rows, columns)] == copied;
    ReachStep(Execute, sql, d, 2);
    ReachStep(Execute, sql, d, 3);
    ReachStep(Execute, sql, d, 4);
    assert (copied - {table} - {temp})[table := copied[temp]] == d[table := Table(d[table].rows, columns)];
  }

  /** The cuts after which a rebuild cannot start over. */
  predicate StuckCut(guarded: bool, k: nat) {
    if guarded then k == 4 else 2 <= k <= 4
  }

  /**
   * A rebuild cut off between its CREATE and its RENAME, for the guarded one between DROP and
   * RENAME, throws on every later run and changes nothing. Cut off anywhere else in the rebuild, it
   * starts over and ends where an undisturbed run does.
   */
  lemma RebuildRecoversIff(guarded: bool, table: string, temp: string, columns: set<string>, d: Schema, k: nat)
    requires table in d && temp !in d && k <= 5
    ensures var sql := if guarded then GuardedRebuild(table, temp, columns) else Rebuild(table, temp, columns);
            var cut := Reach(Execute, sql[..k], d);
            && RunSql(Execute, sql, d) != None
            && (RunSql(Execute, sql, cut) == RunSql(Execute, sql, d) <==> !StuckCut(guarded, k))
            && (StuckCut(guarded, k) ==> RunSql(Execute, sql, cut) == None)
  {
    var sql := if guarded then GuardedRebuild(table, temp, columns) else Rebuild(table, temp, columns);
    var cut := Reach(Execute, sql[..k], d);
    RebuildSteps(sql, table, temp, columns, d);
    assert sql[..5] == sql;
    ReachIsRun(Execute, sql[..k], d);
    if k == 0 {
      assert sql[..0] == [];
    } else if k == 5 {
      assert cut == d[table := Table(d[table].rows, columns)];
      RebuildSteps(sql, table, temp, columns, cut);
      assert cut[table := Table(cut[table].rows, columns)] == cut;
    } else if guarded && 2 <= k {
      if k == 4 {
        GuardedRestartFails(sql, table, temp, columns, cut);
      } else {
        GuardedRestart(sql, table, temp, columns, d, cut);
      }
    } else if k >= 2 {
      ThrowsAtSecond(Execute, sql, cut, |sql|);
    }
  }

  /** With the new table there and empty or filled, the guarded CREATE and INSERT do no harm. */
  lemma GuardedRestart(sql: seq<Statement>, table: string, temp: string, columns: set<string>, d: Schema, cut: Schema)
    requires sql == GuardedRebuild(table, temp, columns) && table in d && temp !in d
    requires cut == d[temp := Table({}, columns)] || cut == d[temp := Table(d[table].rows, columns)]
    ensures RunSql(Execute, sql, cut) == Some(d[table := Table(d[table].rows, columns)])
  {
    var copied := d[temp := Table(d[table].rows, columns)];
    assert cut[table] == d[table] && cut[temp].rows + d[table].rows == d[table].rows;
    assert cut[temp := Table(d[table].rows, columns)] == copied;
    assert RunSql(Execute, sql[..0], cut) == Some(cut);
    ReachStep(Execute, sql, cut, 0);
    ReachStep(Execute, sql, cut, 1);
    ReachStep(Execute, sql, cut, 2);
    RebuildSteps(sql, table, temp, columns, d);
    assert sql == sql[..3] + sql[3..] && sql[..5] == sql;
    RunConcat(Execute, sql[..3], sql[3..], cut);
    RunConcat(Execute, sql[..3], sql[3..], d);
  }

  /** With the old table gone, the INSERT has nothing to read. */
  lemma GuardedRestartFails(sql: seq<Statement>, table: string, temp: string, columns: set<string>, cut: Schema)
    requires sql == GuardedRebuild(table, temp, columns) && table !in cut && temp in cut
    ensures RunSql(Execute, sql, cut) == None
  {
    assert RunSql(Execute, sql[..0], cut) == Some(cut);
    ReachStep(Execute, sql, cut, 0);
    ReachStep(Execute, sql, cut, 1);
    ReachStep(Execute, sql, cut, 2);
    assert sql == sql[..3] + sql[3..];
    RunConcat(Execute, sql[..3], sql[3..], cut);
  }

  /**
   * Ten shipped files start with an unguarded rebuild: a boot cut off in it leaves a database that
   * no later boot, however many and however long, brings any further.
   */
  lemma RebuildGetsStuck(
    files: seq<MigrationFile<Statement>>, db: Database<Schema>, p: nat, table: string, temp: string, columns: set<string>,
    n: nat, cuts: seq<nat>)
    requires DistinctNames(files) && p < |files| && db.table == Some(Names(files[..p]))
    requires files[p].noTransaction && Rebuild(table, temp, columns) <= files[p].sql
    requires table in db.schema && temp !in db.schema && StuckCut(false, n)
    ensures var cut := Boot(Execute, files, db, n).db;
            && Boots(Execute, files, cut, cuts) == cut
            && forall m: nat :: !Boot(Execute, files, cut, m).finished
    ensures !Recovers(Execute, files[p], db.schema) || RunSql(Execute, files[p].sql, db.schema) == None
  {
    var sql := files[p].sql;
    BootFrom(Execute, files, db, p, n);
    RebuildSteps(sql, table, temp, columns, db.schema);
    ReachIsRun(Execute, sql[..n], db.schema);
    var cut := Boot(Execute, files, db, n).db;
    assert temp in cut.schema;
    forall k: nat ensures Reach(Execute, sql[..Min(k, |sql|)], cut.schema) == cut.schema {
      ThrowsAtSecond(Execute, sql, cut.schema, k);
    }
    ThrowsAtSecond(Execute, sql, cut.schema, |sql|);
    assert sql[..|sql|] == sql;
    StuckForGood(Execute, files, cut, p, cuts);
    PartwayStart(Execute, files[p], db.schema);
    PartwayOn(Execute, files[p], db.schema, db.schema, n);
  }

  predicate Touches(st: Statement, table: string) {
    match st
    case Harmless => false
    case Create(name, _, _) => name == table
    case Copy(_, target, _) => target == table
    case Drop(name) => name == table
    case Rename(source, target) => source == table || target == table
    case AddColumn(name, _) => name == table
  }

  lemma {:induction false} UntouchedStays(sql: seq<Statement>, table: string, d: Schema)
    requires table in d && forall i | 0 <= i < |sql| :: !Touches(sql[i], table)
    requires RunSql(Execute, sql, d) != None
    ensures table in RunSql(Execute, sql, d).value && RunSql(Execute, sql, d).value[table] == d[table]
  {
    if sql != [] { UntouchedStays(sql[1..], table, Execute(sql[0], d).value); }
  }

  ghost predicate HasColumn(d: Schema, table: string, column: string) {
    table in d && column in d[table].columns
  }

  /** What stays behind of statements that do not touch the table, or only add that column, has it still. */
  lemma {:induction false} ReachKeepsColumn(sql: seq<Statement>, table: string, column: string, d: Schema)
    requires HasColumn(d, table, column)
    requires forall i | 0 <= i < |sql| :: !Touches(sql[i], table) || sql[i] == AddColumn(table, column)
    ensures HasColumn(Reach(Execute, sql, d), table, column)
  {
    if sql != [] && Execute(sql[0], d) != None {
      ReachKeepsColumn(sql[1..], table, column, Execute(sql[0], d).value);
    }
  }

  lemma AddColumnThrows(body: seq<Statement>, table: string, column: string, d: Schema)
    requires HasColumn(d, table, column) && forall i | 0 <= i < |body| :: !Touches(body[i], table)
    ensures RunSql(Execute, body + [AddColumn(table, column)], d) == None
  {
    RunConcat(Execute, body, [AddColumn(table, column)], d);
    if RunSql(Execute, body, d) != None { UntouchedStays(body, table, d); }
  }

  /**
   * A file ending in ADD COLUMN, once the column is there, throws on every run, after any number of
   * further runs that were cut off or thrown out anywhere.
   */
  lemma {:induction false} AddColumnNeverRunsAgain(
    body: seq<Statement>, table: string, column: string, d: Schema, ks: seq<nat>)
    requires HasColumn(d, table, column) && forall i | 0 <= i < |body| :: !Touches(body[i], table)
    ensures var sql := body + [AddColumn(table, column)];
            var after := Reruns(Execute, sql, d, ks);
            HasColumn(after, table, column) && RunSql(Execute, sql, after) == None
  {
    var sql := body + [AddColumn(table, column)];
    if ks != [] {
      AddColumnNeverRunsAgain(body, table, column, d, ks[..|ks| - 1]);
      ReachKeepsColumn(sql[..Min(ks[|ks| - 1], |sql|)], table, column, Reruns(Execute, sql, d, ks[..|ks| - 1]));
    }
    AddColumnThrows(body, table, column, Reruns(Execute, sql, d, ks));
  }

  /** A database on which such a file stands next, with the column there already. */
  ghost predicate AwaitsAddColumn(
    files: seq<MigrationFile<Statement>>, db: Database<Schema>, p: nat, body: seq<Statement>, table: string, column: string)
  {
    && DistinctNames(files) && p < |files| && db.table == Some(Names(files[..p]))
    && files[p].noTransaction && files[p].sql == body + [AddColumn(table, column)]
    && (forall i | 0 <= i < |body| :: !Touches(body[i], table))
    && HasColumn(db.schema, table, column)
  }

  lemma BootStillAwaits(
    files: seq<MigrationFile<Statement>>, db: Database<Schema>, p: nat, body: seq<Statement>, table: string, column: string,
    n: nat)
    requires AwaitsAddColumn(files, db, p, body, table, column)
    ensures var r := Boot(Execute, files, db, n);
            !r.finished && AwaitsAddColumn(files, r.db, p, body, table, column)
  {
    var sql := files[p].sql;
    BootFrom(Execute, files, db, p, n);
    AddColumnThrows(body, table, column, db.schema);
    ReachKeepsColumn(sql[..Min(n, |sql|)], table, column, db.schema);
  }

  lemma {:induction false} BootsStillAwait(
    files: seq<MigrationFile<Statement>>, db: Database<Schema>, p: nat, body: seq<Statement>, table: string, column: string,
    cuts: seq<nat>)
    requires AwaitsAddColumn(files, db, p, body, table, column)
    ensures AwaitsAddColumn(files, Boots(Execute, files, db, cuts), p, body, table, column)
  {
    if cuts != [] {
      BootsStillAwait(files, db, p, body, table, column, cuts[..|cuts| - 1]);
      BootStillAwaits(
        files, Boots(Execute, files, db, cuts[..|cuts| - 1]), p, body, table, column, cuts[|cuts| - 1]);
    }
  }

  /**
   * 083 ends in an ADD COLUMN: a boot cut off after its last statement and before its row leaves a
   * database on which no later boot, however many and however long, ever gets through or records it.
   */
  lemma AddColumnGetsStuck(
    files: seq<MigrationFile<Statement>>, db: Database<Schema>, p: nat, body: seq<Statement>, table: string, column: string,
    cuts: seq<nat>)
    requires DistinctNames(files) && p < |files| && db.table == Some(Names(files[..p]))
    requires files[p].noTransaction && files[p].sql == body + [AddColumn(table, column)]
    requires forall i | 0 <= i < |body| :: !Touches(body[i], table)
    requires RunSql(Execute, files[p].sql, db.schema) != None
    ensures var later := Boots(Execute, files, Boot(Execute, files, db, |files[p].sql|).db, cuts);
            later.table == db.table && forall m: nat :: !Boot(Execute, files, later, m).finished
  {
    var sql, last := files[p].sql, [AddColumn(table, column)];
    var cut := Boot(Execute, files, db, |sql|).db;
    BootFrom(Execute, files, db, p, |sql|);
    assert sql[..|sql|] == sql && last[1..] == [];
    ReachIsRun(Execute, sql, db.schema);
    RunConcat(Execute, body, last, db.schema);
    assert HasColumn(cut.schema, table, column);
    BootsStillAwait(files, cut, p, body, table, column, cuts);
    var later := Boots(Execute, files, cut, cuts);
    forall m: nat ensures !Boot(Execute, files, later, m).finished {
      BootStillAwaits(files, later, p, body, table, column, m);
    }
  }

  // ---- the code ---------------------------------------------------------------------------------

  class Store<S, D> {
    var schema: D
    var table: Option<seq<string>>

    function State(): Database<D>
      reads this
    {
      Database(schema, table)
    }

    constructor (schema: D)
      ensures State() == Database(schema, None)
    {
      this.schema, this.table := schema, None;
    }

    /** Runs statements of one file until one throws; `writes` is what the process may still write. */
    method ExecSql(exec: Exec<S, D>, sql: seq<S>, writes: nat) returns (ok: bool)
      requires writes <= |sql|
      modifies this`schema
      ensures ok <==> RunSql(exec, sql[..writes], old(schema)) != None
      ensures schema == Reach(exec, sql[..writes], old(schema))
      ensures ok ==> Some(schema) == RunSql(exec, sql[..writes], old(schema))
    {
      var i := 0;
      while i < writes
        invariant 0 <= i <= writes
        invariant RunSql(exec, sql[i..writes], schema) == RunSql(exec, sql[..writes], old(schema))
        invariant Reach(exec, sql[i..writes], schema) == Reach(exec, sql[..writes], old(schema))
      {
        assert sql[i..writes][0] == sql[i] && sql[i..writes][1..] == sql[i + 1..writes];
        var r := exec(sql[i], schema);
        if r == None { return false; }
        schema := r.value;
        i := i + 1;
      }
      return true;
    }

    /** One file; false where the boot ends in it. A transaction rolls back what it did not commit. */
    method ApplyFile(exec: Exec<S, D>, f: MigrationFile<S>, writes: nat) returns (done: bool)
      requires table != None
      modifies this
      ensures Outcome(State(), done) == Apply(exec, f, old(State()), writes)
    {
      var saved := schema;
      var ok := ExecSql(exec, f.sql, if f.noTransaction then Min(writes, |f.sql|) else |f.sql|);
      assert f.sql[..|f.sql|] == f.sql;
      if ok && writes >= Writes(f) {
        table := Some(table.value + [f.name]);
        return true;
      }
      if !f.noTransaction { schema := saved; }
      return false;
    }

    method RunMigrations(exec: Exec<S, D>, files: seq<MigrationFile<S>>, writes: nat) returns (finished: bool)
      modifies this
      ensures Outcome(State(), finished) == Boot(exec, files, old(State()), writes)
    {
      var left: nat := writes;
      if table == None {
        if left == 0 { return false; }
        table := Some([]);
        left := left - 1;
      }
      var applied := table.value;
      var i := 0;
      while i < |files|
        invariant 0 <= i <= |files| && table != None
        invariant ApplyAll(exec, files[i..], applied, State(), left) == Boot(exec, files, old(State()), writes)
      {
        var f := files[i];
        assert files[i..][0] == f && files[i..][1..] == files[i + 1..];
        if f.name !in applied {
          var done := ApplyFile(exec, f, left);
          if !done { return false; }
          left := left - Writes(f);
        }
        i := i + 1;
      }
      return true;
    }
  }
}
