/**
 * What running migrations does to the ledger and the user schema: one
 * script, a run of scripts, apply-all, the by-id guards and revert-latest.
 */
module MigrationFacts {
  import opened Wrappers
  import opened Values
  import opened Schema
  import opened Config
  import opened Strings
  import opened NumericOrder
  import opened Server
  import opened Catalog
  import opened PendingWalk
  import opened Migration

  /** Recording an id adds exactly that id to the ledger. */
  lemma InsertSortedMembers(l: seq<string>, x: string)
    ensures forall y :: y in InsertSorted(l, x) <==> y in l || y == x
  {
    var r := InsertSorted(l, x);
    forall y ensures y in r <==> y in l || y == x {
      assert y in r <==> y in multiset(r);
      assert y in l <==> y in multiset(l);
    }
  }

  /** A sorted ledger without repetitions loses its last id, and only that,
      when the last id is deleted. */
  lemma {:induction false} RemoveLast(l: seq<string>)
    requires LedgerSorted(l) && l != []
    ensures Remove(l, l[|l| - 1]) == l[..|l| - 1]
  {
    var x := l[|l| - 1];
    if |l| == 1 {
      assert l[1..] == [];
    } else {
      var tail := l[1..];
      assert NumLess(l[0], x);
      NumLessIrreflexive(x);
      assert LedgerSorted(tail) by {
        forall i, j | 0 <= i < j < |tail| ensures NumLess(tail[i], tail[j]) {
          assert tail[i] == l[i + 1] && tail[j] == l[j + 1];
        }
      }
      RemoveLast(tail);
      assert tail[|tail| - 1] == x;
      assert l[..|l| - 1] == [l[0]] + tail[..|tail| - 1];
    }
  }

  /** The last id of a sorted ledger is its numeric maximum: the row
      `ORDER BY id DESC LIMIT 1` returns. */
  lemma LastIsLatest(l: seq<string>)
    requires LedgerSorted(l) && l != []
    ensures forall k :: 0 <= k < |l| - 1 ==> NumLess(l[k], l[|l| - 1])
  {
  }

  /** A successful `up` outside a transaction records exactly the file's id
      and keeps the schema the script built. */
  lemma RunOneUpRecords(st: ServerState, scripts: Scripts, file: string)
    requires st.tableExists && st.openTx.None?
    requires scripts(file, Up, st.schema).ok && IdOf(file) !in st.ledger
    ensures var r := RunOne(st, scripts, file, Up);
            r.ledger == InsertSorted(st.ledger, IdOf(file)) &&
            (forall y :: y in r.ledger <==> y in st.ledger || y == IdOf(file)) &&
            r.schema == scripts(file, Up, st.schema).schema &&
            r.tableExists && r.openTx.None? && r.databases == st.databases
  {
    InsertSortedMembers(st.ledger, IdOf(file));
  }

  /** A successful `down` outside a transaction forgets exactly the file's
      id. */
  lemma RunOneDownForgets(st: ServerState, scripts: Scripts, file: string)
    requires st.tableExists && st.openTx.None?
    requires scripts(file, Down, st.schema).ok
    ensures var r := RunOne(st, scripts, file, Down);
            r.ledger == Remove(st.ledger, IdOf(file)) &&
            (forall y :: y in r.ledger <==> y in st.ledger && y != IdOf(file)) &&
            r.schema == scripts(file, Down, st.schema).schema &&
            r.tableExists && r.openTx.None? && r.databases == st.databases
  {
  }

  /** Since no transaction is ever begun, the rollback after a failing
      script undoes nothing: the statements it ran before throwing stay,
      and the ledger is untouched. */
  lemma RunOneFailureKeepsPartialWork(st: ServerState, scripts: Scripts, file: string, dir: Direction)
    requires st.openTx.None?
    requires !scripts(file, dir, st.schema).ok
    ensures RunOne(st, scripts, file, dir) == st.(schema := scripts(file, dir, st.schema).schema)
  {
  }

  /** Inside a transaction that was already open, a failing script is rolled
      back to the snapshot, ledger and schema both. */
  lemma RunOneFailureInTransaction(st: ServerState, scripts: Scripts, file: string, dir: Direction)
    requires st.openTx.Some?
    requires !scripts(file, dir, st.schema).ok
    ensures RunOne(st, scripts, file, dir) ==
            st.(ledger := st.openTx.value.ledger, schema := st.openTx.value.schema, openTx := None)
  {
  }

  /** Going up on a file whose id is already recorded runs the script again;
      the insert then fails on the primary key and its rollback undoes
      nothing, so the script's changes stay while the ledger is unchanged. */
  lemma RunOneRecordedUpReruns(st: ServerState, scripts: Scripts, file: string)
    requires st.tableExists && st.openTx.None?
    requires IdOf(file) in st.ledger
    ensures RunOne(st, scripts, file, Up) == st.(schema := scripts(file, Up, st.schema).schema)
  {
  }

  /** One migration keeps the ledger sorted and free of repetitions. */
  lemma RunOneKeepsValid(st: ServerState, scripts: Scripts, file: string, dir: Direction)
    requires st.Valid() && st.tableExists
    ensures RunOne(st, scripts, file, dir).Valid() && RunOne(st, scripts, file, dir).tableExists
  {
    var ran := st.(schema := scripts(file, dir, st.schema).schema);
    ExecKeepsValid(ran, LedgerStatement(IdOf(file), dir));
  }

  lemma {:induction false} RunAllKeepsValid(st: ServerState, scripts: Scripts, files: seq<string>, dir: Direction)
    requires st.Valid() && st.tableExists
    ensures RunAll(st, scripts, files, dir).Valid() && RunAll(st, scripts, files, dir).tableExists
    decreases |files|
  {
    if files != [] {
      var init := files[..|files| - 1];
      RunAllKeepsValid(st, scripts, init, dir);
      RunOneKeepsValid(RunAll(st, scripts, init, dir), scripts, files[|files| - 1], dir);
    }
  }

  /** One `up` outside a transaction: the ledger gains the file's id exactly
      when the script succeeds. */
  lemma RunOneUpLedger(st: ServerState, scripts: Scripts, file: string)
    requires st.tableExists && st.openTx.None?
    ensures var r := RunOne(st, scripts, file, Up);
            r.tableExists && r.openTx.None? &&
            forall y :: y in r.ledger <==> y in st.ledger || (scripts(file, Up, st.schema).ok && y == IdOf(file))
  {
    InsertSortedMembers(st.ledger, IdOf(file));
  }

  /** A run of `up` migrations whose scripts succeed or fail by file: the
      ledger ends up with the earlier ids and the ids of every succeeding
      file, whatever failed before or after it. */
  lemma {:induction false} RunAllUpLedger(st: ServerState, scripts: Scripts, files: seq<string>, good: string -> bool)
    requires st.tableExists && st.openTx.None?
    requires forall f, sc :: scripts(f, Up, sc).ok == good(f)
    ensures RunAll(st, scripts, files, Up).tableExists && RunAll(st, scripts, files, Up).openTx.None?
    ensures forall y :: y in RunAll(st, scripts, files, Up).ledger <==>
              y in st.ledger || exists k :: 0 <= k < |files| && good(files[k]) && IdOf(files[k]) == y
    decreases |files|
  {
    if files != [] {
      var init, last := files[..|files| - 1], files[|files| - 1];
      RunAllUpLedger(st, scripts, init, good);
      var mid := RunAll(st, scripts, init, Up);
      RunOneUpLedger(mid, scripts, last);
      forall y ensures y in RunAll(st, scripts, files, Up).ledger <==>
                       y in st.ledger || exists k :: 0 <= k < |files| && good(files[k]) && IdOf(files[k]) == y
      {
        if exists k :: 0 <= k < |files| && good(files[k]) && IdOf(files[k]) == y {
          var k :| 0 <= k < |files| && good(files[k]) && IdOf(files[k]) == y;
          if k < |init| {
            assert init[k] == files[k];
          }
        }
        if exists k :: 0 <= k < |init| && good(init[k]) && IdOf(init[k]) == y {
          var k :| 0 <= k < |init| && good(init[k]) && IdOf(init[k]) == y;
          assert files[k] == init[k];
        }
      }
    }
  }

  /** Apply-all when scripts succeed or fail by file: every catalog file
      whose script succeeds ends up recorded, even after an earlier file
      failed, and nothing else is added to the ledger. */
  lemma UpAllRecords(st: ServerState, scripts: Scripts, folder: seq<string>, good: string -> bool)
    requires st.tableExists && st.openTx.None?
    requires forall f, sc :: scripts(f, Up, sc).ok == good(f)
    ensures var after := UpPlan(st, scripts, folder, None).1;
            (forall f :: f in folder && good(f) ==> IdOf(f) in after.ledger) &&
            (forall y :: y in after.ledger ==> y in st.ledger || exists f :: f in folder && good(f) && IdOf(f) == y)
  {
    var sorted := SortById(folder);
    if sorted != [] {
      var attempted := Pending(sorted, st.ledger);
      RunAllUpLedger(st, scripts, attempted, good);
      UnrecordedAttempted(sorted, st.ledger);
      var after := RunAll(st, scripts, attempted, Up);
      forall f | f in folder && good(f) ensures IdOf(f) in after.ledger {
        assert f in multiset(folder);
        assert f in sorted;
        if IdOf(f) !in st.ledger {
          var k :| 0 <= k < |sorted| && sorted[k] == f;
          assert f in attempted;
          var m :| 0 <= m < |attempted| && attempted[m] == f;
          assert good(attempted[m]) && IdOf(attempted[m]) == IdOf(f);
        }
      }
      forall y | y in after.ledger ensures y in st.ledger || exists f :: f in folder && good(f) && IdOf(f) == y {
        if y !in st.ledger {
          var k :| 0 <= k < |attempted| && good(attempted[k]) && IdOf(attempted[k]) == y;
          assert attempted[k] in sorted;
          assert attempted[k] in multiset(sorted);
          assert attempted[k] in folder;
        }
      }
    } else {
      assert |folder| == |multiset(folder)| == |multiset(sorted)| == 0;
    }
  }

  /** `migration:up --id x`: the first file named `x_…` decides. None gives
      an invalid id; otherwise the ledger is asked about that file's own id
      (the text before its first `_`), which is recorded exactly when the
      outcome is "already ran"; only a run changes anything, and a
      successful one records exactly that id. */
  lemma UpById(st: ServerState, scripts: Scripts, folder: seq<string>, x: string)
    requires st.tableExists && st.openTx.None?
    ensures var (o, after) := UpPlan(st, scripts, folder, Some(x));
            var file := FindFile(folder, x + "_");
            (o == InvalidMigrationId <==> forall k :: 0 <= k < |folder| ==> !(x + "_" <= folder[k])) &&
            (file.Some? ==>
               var id := IdOf(file.value);
               file.value in folder && x + "_" <= file.value &&
               (o == AlreadyRan <==> id in st.ledger) &&
               (o.Ran? <==> id !in st.ledger) &&
               (o.Ran? ==> o.files == [file.value]) &&
               (o.Ran? && scripts(file.value, Up, st.schema).ok ==>
                  forall y :: y in after.ledger <==> y in st.ledger || y == id)) &&
            (!o.Ran? ==> after == st)
  {
    var file := FindFile(folder, x + "_");
    if file.Some? && IdOf(file.value) !in st.ledger && scripts(file.value, Up, st.schema).ok {
      RunOneUpRecords(st, scripts, file.value);
    }
  }

  /** For an id without `_`, the file's own id is the given id: the outcome
      is "already ran" exactly when a file `x_…` exists and `x` is
      recorded. */
  lemma UpByPlainId(st: ServerState, scripts: Scripts, folder: seq<string>, x: string)
    requires '_' !in x && st.tableExists && st.openTx.None?
    ensures var (o, after) := UpPlan(st, scripts, folder, Some(x));
            (o == InvalidMigrationId <==> forall k :: 0 <= k < |folder| ==> !(x + "_" <= folder[k])) &&
            (o == AlreadyRan <==> (x in st.ledger && exists k :: 0 <= k < |folder| && x + "_" <= folder[k])) &&
            (o.Ran? ==> |o.files| == 1 && o.files[0] in folder && x + "_" <= o.files[0] && x !in st.ledger) &&
            (o.Ran? && scripts(o.files[0], Up, st.schema).ok ==>
               forall y :: y in after.ledger <==> y in st.ledger || y == x) &&
            (o == InvalidMigrationId || o == AlreadyRan || o.Ran?) &&
            (!o.Ran? ==> after == st)
  {
    UpById(st, scripts, folder, x);
    var file := FindFile(folder, x + "_");
    if file.Some? {
      IdOfStartsWith(file.value, x);
    }
  }

  /** An id with `_` in it: with only `a` recorded, `migration:up --id a_b`
      finds the file `a_b_c`, asks the ledger about its id `a`, and reports
      it as already ran although `a_b` is not recorded. */
  lemma UnderscoreIdAsksFileId(st: ServerState, scripts: Scripts, a: string, b: string, c: string)
    requires '_' !in a && st.tableExists && st.openTx.None?
    requires st.ledger == [a]
    ensures a + "_" + b !in st.ledger
    ensures UpPlan(st, scripts, [a + "_" + b + "_" + c], Some(a + "_" + b)).0 == AlreadyRan
  {
    var file := a + "_" + b + "_" + c;
    assert a + "_" + b + "_" <= file;
    assert FindFile([file], a + "_" + b + "_") == Some(file);
    assert file == a + "_" + (b + "_" + c);
    IdOfPrefix(a, b + "_" + c);
  }

  /** `migration:down --id x`: the mirror image. The file's own id must be
      recorded, else "not ran"; a successful revert forgets exactly that
      id. */
  lemma DownById(st: ServerState, scripts: Scripts, folder: seq<string>, x: string)
    requires st.tableExists && st.openTx.None?
    ensures var (o, after) := DownPlan(st, scripts, folder, Some(x));
            var file := FindFile(folder, x + "_");
            (o == InvalidMigrationId <==> forall k :: 0 <= k < |folder| ==> !(x + "_" <= folder[k])) &&
            (file.Some? ==>
               var id := IdOf(file.value);
               file.value in folder && x + "_" <= file.value &&
               (o == NotRan <==> id !in st.ledger) &&
               (o.Ran? <==> id in st.ledger) &&
               (o.Ran? ==> o.files == [file.value]) &&
               (o.Ran? && scripts(file.value, Down, st.schema).ok ==>
                  forall y :: y in after.ledger <==> y in st.ledger && y != id)) &&
            (!o.Ran? ==> after == st)
  {
  }

  /** For an id without `_`: the outcome is "not ran" exactly when a file
      `x_…` exists and `x` is not recorded. */
  lemma DownByPlainId(st: ServerState, scripts: Scripts, folder: seq<string>, x: string)
    requires '_' !in x && st.tableExists && st.openTx.None?
    ensures var (o, after) := DownPlan(st, scripts, folder, Some(x));
            (o == InvalidMigrationId <==> forall k :: 0 <= k < |folder| ==> !(x + "_" <= folder[k])) &&
            (o == NotRan <==> (x !in st.ledger && exists k :: 0 <= k < |folder| && x + "_" <= folder[k])) &&
            (o.Ran? ==> |o.files| == 1 && o.files[0] in folder && x + "_" <= o.files[0] && x in st.ledger) &&
            (o.Ran? && scripts(o.files[0], Down, st.schema).ok ==>
               forall y :: y in after.ledger <==> y in st.ledger && y != x) &&
            (o == InvalidMigrationId || o == NotRan || o.Ran?) &&
            (!o.Ran? ==> after == st)
  {
    DownById(st, scripts, folder, x);
    var file := FindFile(folder, x + "_");
    if file.Some? {
      IdOfStartsWith(file.value, x);
    }
  }

  /** `migration:down` without an id reverts the numerically latest recorded
      id: only that id leaves the ledger; it crashes, changing nothing, when
      no file carries that id; and an empty ledger changes nothing. */
  lemma RevertLatest(st: ServerState, scripts: Scripts, folder: seq<string>)
    requires st.Valid() && st.tableExists && st.openTx.None?
    requires forall y :: y in st.ledger ==> '_' !in y
    ensures var (o, after) := DownPlan(st, scripts, folder, None);
            (o == NothingToRevert <==> st.ledger == []) &&
            (st.ledger != [] ==>
               var latest := st.ledger[|st.ledger| - 1];
               (o == MissingFile(latest) <==> forall k :: 0 <= k < |folder| ==> !(latest + "_" <= folder[k])) &&
               (o.Ran? <==> exists k :: 0 <= k < |folder| && latest + "_" <= folder[k]) &&
               (o.Ran? ==> o.files == [FindFile(folder, latest + "_").value]) &&
               (o.Ran? ==> |o.files| == 1 && o.files[0] in folder && IdOf(o.files[0]) == latest) &&
               (o.Ran? && scripts(o.files[0], Down, st.schema).ok ==> after.ledger == st.ledger[..|st.ledger| - 1])) &&
            (o == NothingToRevert || o.MissingFile? || o.Ran?) &&
            (!o.Ran? ==> after == st)
  {
    if st.ledger != [] {
      var latest := st.ledger[|st.ledger| - 1];
      var file := FindFile(folder, latest + "_");
      if file.Some? {
        IdOfStartsWith(file.value, latest);
        RemoveLast(st.ledger);
      }
    }
  }

  /** Ledger ids of one width (every id the tool creates is a 17-digit
      stamp) sorted numerically are sorted as strings too, which is the
      order apply-all's walk compares against. */
  lemma {:induction false} SameWidthIncreasing(l: seq<string>, w: nat)
    requires LedgerSorted(l)
    requires forall k :: 0 <= k < |l| ==> |l[k]| == w
    ensures Increasing(l)
  {
    forall i, j | 0 <= i < j < |l| ensures Less(l[i], l[j]) {
      assert NumLess(l[i], l[j]);
    }
  }

  /** A sorted catalog with distinct ids is strictly increasing by id. */
  lemma DistinctSortedIncreasing(files: seq<string>)
    requires SortedById(files) && Distinct(Ids(files))
    ensures Increasing(Ids(files))
  {
    var ids := Ids(files);
    forall i, j | 0 <= i < j < |ids| ensures Less(ids[i], ids[j]) {
      LessTotal(ids[i], ids[j]);
    }
  }

  /** With distinct catalog ids and a ledger of one width that records only
      catalog ids, apply-all attempts exactly the files the ledger does not
      record. */
  lemma UpAllAttemptsUnrecorded(st: ServerState, folder: seq<string>, w: nat)
    requires LedgerSorted(st.ledger)
    requires forall k :: 0 <= k < |st.ledger| ==> |st.ledger[k]| == w
    requires Distinct(Ids(SortById(folder)))
    requires forall y :: y in st.ledger ==> y in Ids(SortById(folder))
    ensures Pending(SortById(folder), st.ledger) == Unrecorded(SortById(folder), st.ledger)
  {
    SameWidthIncreasing(st.ledger, w);
    DistinctSortedIncreasing(SortById(folder));
    ConsistentLedgerPending(SortById(folder), st.ledger);
  }

  /** A config `addAction` has just stored is found by `getConfigDetails`
      as a valid pool profile holding exactly the stored fields, whatever
      the folder held before; every other name finds what it found before. */
  lemma ConfigDetailsAfterAdd(files: map<string, Record>, options: Record)
    requires ValidConfig(Obj(CoerceNumbers(options)))
    ensures var opts := CoerceNumbers(options);
            var name := opts["name"].s;
            var after := files[FileName(name) := StoredRecord(opts)];
            ValidPoolProfile(ConfigDetails(after, name)) &&
            ConfigDetails(after, name).fields == StoredRecord(opts) &&
            forall n :: n != name ==> ConfigDetails(after, n) == ConfigDetails(files, n)
  {
    var opts := CoerceNumbers(options);
    var name := opts["name"].s;
    StoredRecordIsPoolProfile(opts);
    forall n | n != name
      ensures ConfigDetails(files[FileName(name) := StoredRecord(opts)], n) == ConfigDetails(files, n)
    {
      FileNameInjective(n, name);
    }
  }

  /** Checking for the ledger table a second time changes nothing. */
  lemma LedgerTableReadyIdempotent(st: ServerState)
    ensures LedgerTableReady(LedgerTableReady(st)) == LedgerTableReady(st)
    ensures !st.tableExists ==> LedgerTableReady(st).ledger == []
  {
  }

  /** Apply-all: an empty folder is reported as such; otherwise the files
      are attempted in ascending id order, each one from the folder, every
      file whose id the ledger lacks among them, and "no pending
      migrations" means the ledger records every file's id. */
  lemma UpAllAttempts(st: ServerState, scripts: Scripts, folder: seq<string>)
    ensures var o := UpPlan(st, scripts, folder, None).0;
            (o == NoMigrations <==> folder == []) &&
            (o == NoMigrations || o == NoPending || o.Ran?) &&
            (o.Ran? ==> o.files != [] && SortedById(o.files) && (forall f :: f in o.files ==> f in folder) &&
                        forall f :: f in folder && IdOf(f) !in st.ledger ==> f in o.files) &&
            (o == NoPending ==> forall f :: f in folder ==> IdOf(f) in st.ledger)
  {
    var sorted := SortById(folder);
    assert |folder| == |multiset(folder)| == |multiset(sorted)| == |sorted|;
    if sorted != [] {
      var attempted := Pending(sorted, st.ledger);
      PendingSorted(sorted, st.ledger);
      UnrecordedAttempted(sorted, st.ledger);
      forall f | f in folder ensures f in sorted {
        assert f in multiset(folder);
      }
      forall f | f in attempted ensures f in folder {
        assert f in multiset(sorted);
      }
      forall f | f in folder && IdOf(f) !in st.ledger ensures f in attempted {
        var k :| 0 <= k < |sorted| && sorted[k] == f;
      }
    }
  }

  /** Three pending files A, B, C where only B's `up` throws: the run goes
      on past B, and the ledger ends up holding exactly A and C. */
  lemma MiddleFailureDoesNotStop(st: ServerState, scripts: Scripts, a: string, b: string, c: string,
                                 na: string, nb: string, nc: string)
    requires st.tableExists && st.openTx.None? && st.ledger == []
    requires '_' !in a && '_' !in b && '_' !in c && a != b && c != b
    requires forall f, sc :: scripts(f, Up, sc).ok == (f != b + "_" + nb)
    ensures forall y :: y in RunAll(st, scripts, [a + "_" + na, b + "_" + nb, c + "_" + nc], Up).ledger <==>
                        y == a || y == c
  {
    var fa, fb, fc := a + "_" + na, b + "_" + nb, c + "_" + nc;
    var files := [fa, fb, fc];
    var good := (f: string) => f != fb;
    IdOfPrefix(a, na);
    IdOfPrefix(b, nb);
    IdOfPrefix(c, nc);
    RunAllUpLedger(st, scripts, files, good);
    assert good(files[0]) && IdOf(files[0]) == a;
    assert good(files[2]) && IdOf(files[2]) == c;
    assert !good(files[1]);
  }
}
