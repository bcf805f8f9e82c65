/**
 * The migration catalog: file names of new migrations, the id a file name
 * carries, the order files are run in, and lookup by id.
 */
module Catalog {
  import opened Wrappers
  import opened Values
  import opened Strings

  // ---------------------------------------------------------------------
  // Migration ids: the UTC stamp YYYYMMDDHHmmssSSS
  // ---------------------------------------------------------------------

  /** A UTC calendar time at millisecond precision, as the clock reports it. */
  datatype Timestamp = Timestamp(year: nat, month: nat, day: nat,
                                 hour: nat, minute: nat, second: nat, millis: nat)

  predicate ValidTimestamp(t: Timestamp)
  {
    t.year <= 9999 && 1 <= t.month <= 12 && 1 <= t.day <= 31 &&
    t.hour <= 23 && t.minute <= 59 && t.second <= 59 && t.millis <= 999
  }

  /** The calendar fields from most to least significant. */
  function Fields(t: Timestamp): seq<nat>
  {
    [t.year, t.month, t.day, t.hour, t.minute, t.second, t.millis]
  }

  /** The widths of YYYY, MM, DD, HH, mm, ss and SSS. */
  const Widths: seq<nat> := [4, 2, 2, 2, 2, 2, 3]

  /** Lexicographic order of equally long sequences of numbers. */
  predicate NatLexLess(a: seq<nat>, b: seq<nat>)
    requires |a| == |b|
  {
    |a| > 0 && (a[0] < b[0] || (a[0] == b[0] && NatLexLess(a[1..], b[1..])))
  }

  /** `t1` is an earlier moment than `t2`: the most significant field that
      differs is smaller. */
  predicate Before(t1: Timestamp, t2: Timestamp)
  {
    NatLexLess(Fields(t1), Fields(t2))
  }

  predicate FitsWidths(fs: seq<nat>, ws: seq<nat>)
  {
    |fs| == |ws| && forall k :: 0 <= k < |fs| ==> fs[k] < Pow10(ws[k])
  }

  /** Each field padded to its width, concatenated. */
  function PadFields(fs: seq<nat>, ws: seq<nat>): (s: string)
    requires |fs| == |ws|
    ensures AllDigits(s)
  {
    if fs == [] then [] else Pad(fs[0], ws[0]) + PadFields(fs[1..], ws[1..])
  }

  /** moment's `format('YYYYMMDDHHmmssSSS')` of a UTC time. */
  function Stamp(t: Timestamp): (s: string)
    ensures AllDigits(s)
  {
    PadFields(Fields(t), Widths)
  }

  lemma {:induction false} PadFieldsLength(fs: seq<nat>, ws: seq<nat>)
    requires |fs| == |ws|
    ensures |PadFields(fs, ws)| == Sum(ws)
  {
    if fs != [] { PadFieldsLength(fs[1..], ws[1..]); }
  }

  function Sum(ws: seq<nat>): nat
  {
    if ws == [] then 0 else ws[0] + Sum(ws[1..])
  }

  lemma FitsWidthsTail(fs: seq<nat>, ws: seq<nat>)
    requires FitsWidths(fs, ws) && fs != []
    ensures FitsWidths(fs[1..], ws[1..]) && fs[0] < Pow10(ws[0])
  {
    forall k | 0 <= k < |fs| - 1 ensures fs[1..][k] < Pow10(ws[1..][k]) {
      assert fs[1..][k] == fs[k + 1] && ws[1..][k] == ws[k + 1];
    }
  }

  /** Two concatenations with equal-length heads are equal exactly when
      both parts are. */
  lemma ConcatEqual(x1: string, y1: string, x2: string, y2: string)
    requires |x1| == |x2|
    ensures x1 + y1 == x2 + y2 <==> x1 == x2 && y1 == y2
  {
    if x1 + y1 == x2 + y2 {
      assert x1 == (x1 + y1)[..|x1|] && x2 == (x2 + y2)[..|x2|];
      assert y1 == (x1 + y1)[|x1|..] && y2 == (x2 + y2)[|x2|..];
    }
  }

  lemma {:induction false} PadFieldsOrder(f1: seq<nat>, f2: seq<nat>, ws: seq<nat>)
    requires FitsWidths(f1, ws) && FitsWidths(f2, ws)
    ensures Less(PadFields(f1, ws), PadFields(f2, ws)) <==> NatLexLess(f1, f2)
    ensures PadFields(f1, ws) == PadFields(f2, ws) <==> f1 == f2
  {
    if f1 != [] {
      FitsWidthsTail(f1, ws);
      FitsWidthsTail(f2, ws);
      PadFieldsOrder(f1[1..], f2[1..], ws[1..]);
      PadLess(f1[0], f2[0], ws[0]);
      PadInjective(f1[0], f2[0], ws[0]);
      var x1, x2 := Pad(f1[0], ws[0]), Pad(f2[0], ws[0]);
      var y1, y2 := PadFields(f1[1..], ws[1..]), PadFields(f2[1..], ws[1..]);
      LessConcat(x1, y1, x2, y2);
      ConcatEqual(x1, y1, x2, y2);
      assert f1 == [f1[0]] + f1[1..] && f2 == [f2[0]] + f2[1..];
    }
  }

  lemma FieldsFit(t: Timestamp)
    requires ValidTimestamp(t)
    ensures FitsWidths(Fields(t), Widths)
  {
    assert Pow10(1) == 10;
    assert Pow10(2) == 100;
    assert Pow10(3) == 1000;
    assert Pow10(4) == 10000;
  }

  /** A stamp is 17 digits, so it holds no `_`. */
  lemma StampShape(t: Timestamp)
    ensures |Stamp(t)| == 17 && AllDigits(Stamp(t)) && '_' !in Stamp(t)
  {
    PadFieldsLength(Fields(t), Widths);
    assert Sum(Widths) == 17;
  }

  /** String order of stamps is chronological order, and two stamps are equal
      only for the same millisecond. */
  lemma StampOrder(t1: Timestamp, t2: Timestamp)
    requires ValidTimestamp(t1) && ValidTimestamp(t2)
    ensures Less(Stamp(t1), Stamp(t2)) <==> Before(t1, t2)
    ensures Stamp(t1) == Stamp(t2) <==> t1 == t2
  {
    FieldsFit(t1);
    FieldsFit(t2);
    PadFieldsOrder(Fields(t1), Fields(t2), Widths);
    if Fields(t1) == Fields(t2) {
      assert Fields(t1)[0] == Fields(t2)[0] && Fields(t1)[1] == Fields(t2)[1];
      assert Fields(t1)[2] == Fields(t2)[2] && Fields(t1)[3] == Fields(t2)[3];
      assert Fields(t1)[4] == Fields(t2)[4] && Fields(t1)[5] == Fields(t2)[5];
      assert Fields(t1)[6] == Fields(t2)[6];
    }
  }

  // ---------------------------------------------------------------------
  // File names
  // ---------------------------------------------------------------------

  /** A character of the regular-expression class `\w`. */
  predicate IsWordChar(c: char)
  {
    'a' <= c <= 'z' || 'A' <= c <= 'Z' || '0' <= c <= '9' || c == '_'
  }

  /** `name.replace(/\W/g, '_')`. */
  function Sanitise(name: string): (r: string)
    ensures |r| == |name|
    ensures forall k :: 0 <= k < |r| ==> IsWordChar(r[k])
    ensures forall k :: 0 <= k < |r| ==> (r[k] == name[k] <==> IsWordChar(name[k]))
    ensures forall k :: 0 <= k < |r| && !IsWordChar(name[k]) ==> r[k] == '_'
  {
    seq(|name|, k requires 0 <= k < |name| => if IsWordChar(name[k]) then name[k] else '_')
  }

  /** Sanitising twice is sanitising once, and a name of word characters is
      kept as it is. */
  lemma SanitiseIdempotent(name: string)
    ensures Sanitise(Sanitise(name)) == Sanitise(name)
    ensures (forall k :: 0 <= k < |name| ==> IsWordChar(name[k])) ==> Sanitise(name) == name
  {
  }

  /** The file name `createAction` writes for a migration called `name` at
      time `t`. */
  function MigrationFileName(t: Timestamp, name: string): string
  {
    Stamp(t) + "_" + Sanitise(name) + ".js"
  }

  /** `file.split('_')[0]`: the text before the first `_`. */
  function IdOf(file: string): (id: string)
    ensures id <= file && '_' !in id
    ensures |id| < |file| ==> file[|id|] == '_'
  {
    if file == [] || file[0] == '_' then [] else [file[0]] + IdOf(file[1..])
  }

  lemma {:induction false} IdOfPrefix(id: string, rest: string)
    requires '_' !in id
    ensures IdOf(id + "_" + rest) == id
  {
    if id != [] {
      assert (id + "_" + rest)[1..] == id[1..] + "_" + rest;
      IdOfPrefix(id[1..], rest);
    }
  }

  /** A created file carries its stamp as id, and the rest of its name is the
      sanitised name: word characters only, as long as the name. */
  lemma CreatedFileName(t: Timestamp, name: string)
    ensures IdOf(MigrationFileName(t, name)) == Stamp(t)
    ensures MigrationFileName(t, name) == Stamp(t) + "_" + Sanitise(name) + ".js"
    ensures |MigrationFileName(t, name)| == 17 + 1 + |name| + 3
  {
    StampShape(t);
    assert MigrationFileName(t, name) == Stamp(t) + "_" + (Sanitise(name) + ".js");
    IdOfPrefix(Stamp(t), Sanitise(name) + ".js");
  }

  /** A file that starts with `<id>_` has that id, provided the id holds no
      `_` of its own. */
  lemma IdOfStartsWith(file: string, id: string)
    requires id + "_" <= file && '_' !in id
    ensures IdOf(file) == id
  {
    var rest := file[|id| + 1..];
    assert file == id + "_" + rest;
    IdOfPrefix(id, rest);
  }

  // ---------------------------------------------------------------------
  // Ordering and lookup
  // ---------------------------------------------------------------------

  /** Ids never decrease along `files`. */
  predicate SortedById(files: seq<string>)
  {
    forall i, j :: 0 <= i < j < |files| ==> !Less(IdOf(files[j]), IdOf(files[i]))
  }

  function InsertById(f: string, sorted: seq<string>): (r: seq<string>)
    ensures multiset(r) == multiset(sorted) + multiset{f}
  {
    if sorted == [] || Less(IdOf(f), IdOf(sorted[0])) then [f] + sorted
    else
      assert sorted == [sorted[0]] + sorted[1..];
      [sorted[0]] + InsertById(f, sorted[1..])
  }

  /** A sorted list stays sorted when an element no greater than all of it
      is put in front. */
  lemma SortedCons(x: string, rest: seq<string>)
    requires SortedById(rest)
    requires forall j :: 0 <= j < |rest| ==> !Less(IdOf(rest[j]), IdOf(x))
    ensures SortedById([x] + rest)
  {
    var r := [x] + rest;
    forall i, j | 0 <= i < j < |r| ensures !Less(IdOf(r[j]), IdOf(r[i])) {
      assert r[j] == rest[j - 1];
      if i > 0 { assert r[i] == rest[i - 1]; }
    }
  }

  lemma {:induction false} InsertByIdSorted(f: string, sorted: seq<string>)
    requires SortedById(sorted)
    ensures SortedById(InsertById(f, sorted))
  {
    if sorted == [] || Less(IdOf(f), IdOf(sorted[0])) {
      forall j | 0 <= j < |sorted| ensures !Less(IdOf(sorted[j]), IdOf(f)) {
        var g := sorted[j];
        if j == 0 {
          LessAsymmetric(IdOf(f), IdOf(g));
        } else {
          assert !Less(IdOf(g), IdOf(sorted[0]));
          if Less(IdOf(g), IdOf(f)) {
            LessTransitive(IdOf(g), IdOf(f), IdOf(sorted[0]));
          }
        }
      }
      SortedCons(f, sorted);
    } else {
      var s0, tail := sorted[0], sorted[1..];
      assert SortedById(tail) by {
        forall i, j | 0 <= i < j < |tail| ensures !Less(IdOf(tail[j]), IdOf(tail[i])) {
          assert tail[i] == sorted[i + 1] && tail[j] == sorted[j + 1];
        }
      }
      var rest := InsertById(f, tail);
      InsertByIdSorted(f, tail);
      LessTotal(IdOf(f), IdOf(s0));
      forall j | 0 <= j < |rest| ensures !Less(IdOf(rest[j]), IdOf(s0)) {
        var x := rest[j];
        assert x in multiset(rest);
        if x != f {
          assert x in multiset(tail);
          var k :| 0 <= k < |tail| && tail[k] == x;
          assert sorted[k + 1] == x;
        } else if IdOf(f) == IdOf(s0) {
          LessIrreflexive(IdOf(s0));
        }
      }
      SortedCons(s0, rest);
    }
  }

  /** `readdirSync(...).sort(...)` with the comparator `id1 < id2 ? -1 : 1`:
      a permutation of the listing whose ids never decrease. */
  function SortById(files: seq<string>): (r: seq<string>)
    ensures multiset(r) == multiset(files)
    ensures SortedById(r)
  {
    if files == [] then []
    else
      assert files == [files[0]] + files[1..];
      InsertByIdSorted(files[0], SortById(files[1..]));
      InsertById(files[0], SortById(files[1..]))
  }

  /** The position of the first listed file that starts with `prefix`. */
  function FindIndex(files: seq<string>, prefix: string): (r: Option<nat>)
    ensures r.None? <==> forall k :: 0 <= k < |files| ==> !(prefix <= files[k])
    ensures r.Some? ==> r.value < |files| && prefix <= files[r.value] &&
                        forall m :: 0 <= m < r.value ==> !(prefix <= files[m])
  {
    if files == [] then None
    else if prefix <= files[0] then Some(0)
    else
      var r := FindIndex(files[1..], prefix);
      assert forall k :: 0 < k < |files| ==> files[k] == files[1..][k - 1];
      if r.Some? then Some(r.value + 1) else None
  }

  /** `files.find(file => file.startsWith(prefix))`: the first listed file
      that starts with `prefix`. */
  function FindFile(files: seq<string>, prefix: string): (r: Option<string>)
    ensures r.None? <==> forall k :: 0 <= k < |files| ==> !(prefix <= files[k])
    ensures r.Some? ==> exists k :: 0 <= k < |files| && files[k] == r.value && prefix <= r.value &&
                                    forall m :: 0 <= m < k ==> !(prefix <= files[m])
  {
    var i := FindIndex(files, prefix);
    if i.None? then None else Some(files[i.value])
  }
}

/**
 * Which catalog files apply-all attempts: the merge walk of the sorted file
 * list against the ledger rows.
 */
module PendingWalk {
  import opened Strings
  import opened Catalog

  /** The files the `for (i, j)` loop hands to `runMigration`: the ledger
      row index advances only when the current file's id is exactly the row it
      points at; every other file is attempted. */
  function Pending(files: seq<string>, rows: seq<string>): (r: seq<string>)
    ensures |r| <= |files|
    ensures forall x :: x in r ==> x in files
  {
    if files == [] then []
    else if rows != [] && IdOf(files[0]) == rows[0] then Pending(files[1..], rows[1..])
    else [files[0]] + Pending(files[1..], rows)
  }

  /** The files whose id is not among the ledger rows, in catalog order. */
  function Unrecorded(files: seq<string>, rows: seq<string>): seq<string>
  {
    if files == [] then []
    else (if IdOf(files[0]) in rows then [] else [files[0]]) + Unrecorded(files[1..], rows)
  }

  function Ids(files: seq<string>): (ids: seq<string>)
    ensures |ids| == |files| && forall k :: 0 <= k < |files| ==> ids[k] == IdOf(files[k])
  {
    seq(|files|, k requires 0 <= k < |files| => IdOf(files[k]))
  }

  /** `xs` can be obtained from `ys` by deleting elements. */
  predicate Subseq(xs: seq<string>, ys: seq<string>)
  {
    if xs == [] then true
    else if ys == [] then false
    else if xs[0] == ys[0] then Subseq(xs[1..], ys[1..])
    else Subseq(xs, ys[1..])
  }

  predicate Distinct(s: seq<string>)
  {
    forall i, j :: 0 <= i < j < |s| ==> s[i] != s[j]
  }

  predicate Increasing(s: seq<string>)
  {
    forall i, j :: 0 <= i < j < |s| ==> Less(s[i], s[j])
  }

  lemma {:induction false} SubseqMembers(xs: seq<string>, ys: seq<string>)
    requires Subseq(xs, ys)
    ensures forall x :: x in xs ==> x in ys
  {
    if xs != [] && ys != [] {
      if xs[0] == ys[0] {
        SubseqMembers(xs[1..], ys[1..]);
        assert forall x :: x in xs ==> x == xs[0] || x in xs[1..];
      } else {
        SubseqMembers(xs, ys[1..]);
      }
    }
  }

  /** The walk preserves catalog order: on a sorted catalog the attempted
      files are in ascending id order. */
  lemma {:induction false} PendingSorted(files: seq<string>, rows: seq<string>)
    requires SortedById(files)
    ensures SortedById(Pending(files, rows))
  {
    if files != [] {
      var tail := files[1..];
      assert SortedById(tail) by {
        forall i, j | 0 <= i < j < |tail| ensures !Less(IdOf(tail[j]), IdOf(tail[i])) {
          assert tail[i] == files[i + 1] && tail[j] == files[j + 1];
        }
      }
      if rows != [] && IdOf(files[0]) == rows[0] {
        PendingSorted(tail, rows[1..]);
      } else {
        var rest := Pending(tail, rows);
        PendingSorted(tail, rows);
        forall j | 0 <= j < |rest| ensures !Less(IdOf(rest[j]), IdOf(files[0])) {
          assert rest[j] in tail;
          var k :| 0 <= k < |tail| && tail[k] == rest[j];
          assert files[k + 1] == rest[j];
        }
        SortedCons(files[0], rest);
      }
    }
  }

  /** Every file whose id is absent from the ledger rows is attempted, however
      the rows are ordered. */
  lemma {:induction false} UnrecordedAttempted(files: seq<string>, rows: seq<string>)
    ensures forall k :: 0 <= k < |files| && IdOf(files[k]) !in rows ==> files[k] in Pending(files, rows)
  {
    if files != [] {
      var tail := files[1..];
      forall k | 0 < k < |files| ensures files[k] == tail[k - 1] { }
      if rows != [] && IdOf(files[0]) == rows[0] {
        UnrecordedAttempted(tail, rows[1..]);
        assert forall x :: x !in rows ==> x !in rows[1..];
      } else {
        UnrecordedAttempted(tail, rows);
      }
    }
  }

  lemma {:induction false} UnrecordedAgree(files: seq<string>, r1: seq<string>, r2: seq<string>)
    requires forall k :: 0 <= k < |files| ==> (IdOf(files[k]) in r1 <==> IdOf(files[k]) in r2)
    ensures Unrecorded(files, r1) == Unrecorded(files, r2)
  {
    if files != [] {
      forall k | 0 < k < |files| ensures files[k] == files[1..][k - 1] { }
      UnrecordedAgree(files[1..], r1, r2);
    }
  }

  /** When the ledger rows are a subsequence of the catalog's distinct ids,
      exactly the unrecorded files are attempted. */
  lemma {:induction false} PendingExact(files: seq<string>, rows: seq<string>)
    requires Distinct(Ids(files)) && Subseq(rows, Ids(files))
    ensures Pending(files, rows) == Unrecorded(files, rows)
  {
    if files != [] {
      var ids, tail := Ids(files), files[1..];
      assert Ids(tail) == ids[1..];
      assert Distinct(Ids(tail));
      if rows != [] && IdOf(files[0]) == rows[0] {
        PendingExact(tail, rows[1..]);
        forall k | 0 <= k < |tail| ensures IdOf(tail[k]) in rows[1..] <==> IdOf(tail[k]) in rows {
          assert IdOf(tail[k]) == ids[k + 1] && ids[k + 1] != ids[0];
          assert rows == [rows[0]] + rows[1..];
        }
        UnrecordedAgree(tail, rows[1..], rows);
      } else {
        if rows != [] {
          assert Subseq(rows, ids[1..]);
          SubseqMembers(rows, ids[1..]);
          forall x | x in ids[1..] ensures x != ids[0] {
            var k :| 0 <= k < |ids[1..]| && ids[1..][k] == x;
            assert ids[k + 1] == x;
          }
        }
        PendingExact(tail, rows);
      }
    }
  }

  /** A sorted ledger whose ids all appear in a sorted catalog of distinct ids
      is a subsequence of the catalog ids. */
  lemma {:induction false} SortedLedgerIsSubsequence(rows: seq<string>, ids: seq<string>)
    requires Increasing(ids) && Increasing(rows)
    requires forall x :: x in rows ==> x in ids
    ensures Subseq(rows, ids)
    decreases |ids|
  {
    if rows != [] {
      assert rows[0] in rows;
    }
    if rows != [] && ids != [] {
      if rows[0] == ids[0] {
        forall x | x in rows[1..] ensures x in ids[1..] {
          var k :| 0 <= k < |rows[1..]| && rows[1..][k] == x;
          assert Less(rows[0], rows[k + 1]);
          LessIrreflexive(x);
          assert x in ids;
          var m :| 0 <= m < |ids| && ids[m] == x;
          assert m > 0 && ids[1..][m - 1] == x;
        }
        SortedLedgerIsSubsequence(rows[1..], ids[1..]);
      } else {
        var m :| 0 <= m < |ids| && ids[m] == rows[0];
        assert m > 0;
        assert Less(ids[0], rows[0]);
        forall x | x in rows ensures x in ids[1..] {
          var k :| 0 <= k < |rows| && rows[k] == x;
          if k > 0 {
            LessTransitive(ids[0], rows[0], rows[k]);
          }
          LessIrreflexive(ids[0]);
          assert x != ids[0];
          var n :| 0 <= n < |ids| && ids[n] == x;
          assert n > 0 && ids[1..][n - 1] == x;
        }
        SortedLedgerIsSubsequence(rows, ids[1..]);
      }
    }
  }

  lemma IncreasingDistinct(s: seq<string>)
    requires Increasing(s)
    ensures Distinct(s)
  {
    forall i, j | 0 <= i < j < |s| ensures s[i] != s[j] {
      LessIrreflexive(s[i]);
    }
  }

  /** The consistent case: a sorted ledger over a sorted catalog of distinct
      ids makes the walk attempt exactly the unrecorded files. */
  lemma ConsistentLedgerPending(files: seq<string>, rows: seq<string>)
    requires Increasing(Ids(files)) && Increasing(rows)
    requires forall x :: x in rows ==> x in Ids(files)
    ensures Pending(files, rows) == Unrecorded(files, rows)
  {
    SortedLedgerIsSubsequence(rows, Ids(files));
    IncreasingDistinct(Ids(files));
    PendingExact(files, rows);
  }

  /** A ledger that skips a catalog id: rows A, C against files A, B, C
      attempt only B (ids hold no `_`; `na`, `nb`, `nc` are the rest of the
      file names). */
  lemma NonPrefixLedger(a: string, b: string, c: string, na: string, nb: string, nc: string)
    requires '_' !in a && '_' !in b && '_' !in c
    requires b != c
    ensures Pending([a + "_" + na, b + "_" + nb, c + "_" + nc], [a, c]) == [b + "_" + nb]
  {
    var fa, fb, fc := a + "_" + na, b + "_" + nb, c + "_" + nc;
    IdOfPrefix(a, na);
    IdOfPrefix(b, nb);
    IdOfPrefix(c, nc);
    calc {
      Pending([fa, fb, fc], [a, c]);
      { assert [fa, fb, fc][1..] == [fb, fc] && [a, c][1..] == [c]; }
      Pending([fb, fc], [c]);
      { assert [fb, fc][1..] == [fc]; }
      [fb] + Pending([fc], [c]);
      { assert [fc][1..] == [] && [c][1..] == []; }
      [fb] + Pending([], []);
    }
  }

  /** A ledger row below every catalog id (a file that was deleted after it
      ran) keeps the row index from ever advancing, so the recorded file `b`
      is attempted again. */
  lemma StrayRowReattempts(x: string, b: string, nb: string)
    requires '_' !in b && x != b
    ensures Pending([b + "_" + nb], [x, b]) == [b + "_" + nb]
  {
    var fb := b + "_" + nb;
    IdOfPrefix(b, nb);
    assert [fb][1..] == [];
    assert Pending([fb], [x, b]) == [fb] + Pending([], [x, b]);
  }
}
