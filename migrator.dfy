/** The schema migrator of `internal/migrator`: it reads which files the
    migrations table records as applied, lists the `.sql` files of the
    migrations directory in ascending name order, and applies each file not
    yet recorded in a transaction of its own that runs the file and records
    it. A failure before the first file makes `Migrate` return an error; a
    failure while applying a file makes it panic, after its transaction has
    been rolled back. The directory listing and the failures of each step are
    arguments. */
module Migrator {
  import opened Common

  // ---------------------------------------------------------------------
  // String order and sorting (`sort.Strings`).

  /** Go's `<=` on strings: byte-wise lexicographic order, which is the order
      of the characters' code points. */
  predicate LessEq(a: string, b: string) {
    if a == [] then true
    else if b == [] then false
    else if a[0] != b[0] then a[0] < b[0]
    else LessEq(a[1..], b[1..])
  }

  lemma {:induction false} LessEqTotal(a: string, b: string)
    ensures LessEq(a, b) || LessEq(b, a)
    decreases |a|
  {
    if a != [] && b != [] && a[0] == b[0] {
      LessEqTotal(a[1..], b[1..]);
    }
  }

  lemma {:induction false} LessEqTransitive(a: string, b: string, c: string)
    requires LessEq(a, b) && LessEq(b, c)
    ensures LessEq(a, c)
    decreases |a|
  {
    if a != [] && b != [] && c != [] && a[0] == b[0] && b[0] == c[0] {
      LessEqTransitive(a[1..], b[1..], c[1..]);
    }
  }

  lemma {:induction false} LessEqAntisymmetric(a: string, b: string)
    requires LessEq(a, b) && LessEq(b, a)
    ensures a == b
    decreases |a|
  {
    if a != [] && b != [] {
      LessEqAntisymmetric(a[1..], b[1..]);
      assert a == [a[0]] + a[1..] && b == [b[0]] + b[1..];
    }
  }

  predicate Sorted(s: seq<string>) {
    forall i, j :: 0 <= i < j < |s| ==> LessEq(s[i], s[j])
  }

  /** Inserts x into a sorted sequence, before the first element above it. */
  function Insert(x: string, s: seq<string>): (r: seq<string>)
    requires Sorted(s)
    ensures Sorted(r)
    ensures multiset(r) == multiset(s) + multiset{x}
  {
    if s == [] then [x]
    else if LessEq(x, s[0]) then
      InsertFront(x, s);
      [x] + s
    else
      LessEqTotal(x, s[0]);
      var rest := Insert(x, s[1..]);
      assert s == [s[0]] + s[1..];
      SortedCons(s[0], rest, s[1..]);
      [s[0]] + rest
  }

  lemma InsertFront(x: string, s: seq<string>)
    requires Sorted(s) && s != [] && LessEq(x, s[0])
    ensures Sorted([x] + s)
  {
    forall j | 0 < j < |[x] + s|
      ensures LessEq(x, ([x] + s)[j])
    {
      if j > 1 {
        LessEqTransitive(x, s[0], s[j - 1]);
      }
    }
  }

  /** Putting h before a sorted sequence whose elements are x or elements of
      t keeps it sorted, when h is at most x and at most every element of t. */
  lemma SortedCons(h: string, rest: seq<string>, t: seq<string>)
    requires Sorted(rest) && Sorted([h] + t)
    requires forall y :: y in multiset(rest) ==> y in multiset(t) || LessEq(h, y)
    ensures Sorted([h] + rest)
  {
    forall j | 0 < j < |[h] + rest|
      ensures LessEq(h, ([h] + rest)[j])
    {
      var y := rest[j - 1];
      assert ([h] + rest)[j] == y;
      assert y in multiset(rest);
      if y in multiset(t) {
        assert y in t;
        var k :| 0 <= k < |t| && t[k] == y;
        assert ([h] + t)[0] == h && ([h] + t)[k + 1] == y;
      }
    }
  }

  /** `sort.Strings`, as an insertion sort: the same names in ascending order. */
  function SortStrings(s: seq<string>): (r: seq<string>)
    ensures Sorted(r)
    ensures multiset(r) == multiset(s)
  {
    if s == [] then []
    else
      assert s == s[..|s| - 1] + [s[|s| - 1]];
      Insert(s[|s| - 1], SortStrings(s[..|s| - 1]))
  }

  // ---------------------------------------------------------------------
  // The plan.

  predicate Distinct(s: seq<string>) {
    forall i, j :: 0 <= i < j < |s| ==> s[i] != s[j]
  }

  /** `strings.HasSuffix(name, ".sql")`. */
  predicate IsSql(name: string) {
    |name| >= 4 && name[|name| - 4..] == ".sql"
  }

  /** The directory entries that are migration files, in listing order. */
  function SqlFiles(entries: seq<string>): (r: seq<string>)
    ensures forall x :: x in r <==> x in entries && IsSql(x)
  {
    if entries == [] then []
    else
      var init := entries[..|entries| - 1];
      var last := entries[|entries| - 1];
      assert entries == init + [last];
      SqlFiles(init) + if IsSql(last) then [last] else []
  }

  /** The files of a sequence that are not yet applied, in order. */
  function Pending(files: seq<string>, applied: set<string>): (r: seq<string>)
    ensures forall x :: x in r <==> x in files && x !in applied
  {
    if files == [] then []
    else (if files[0] in applied then [] else [files[0]]) + Pending(files[1..], applied)
  }

  /** What a run applies: the migration files of the directory, in ascending
      order, without those the table already records. */
  function Plan(entries: seq<string>, recorded: seq<string>): seq<string> {
    Pending(SortStrings(SqlFiles(entries)), set f | f in recorded)
  }

  /** A failure that happens before any migration is applied. */
  datatype SetupFault = Connect | CreateTable | QueryApplied | ScanApplied | ReadDir

  /** The step at which applying one file fails, if any. */
  datatype FileFault = Applies | ReadFile | Begin | Exec | Record | Commit

  datatype Outcome = Done | Failed(setupStep: SetupFault) | Panicked(file: string, step: FileFault)

  /** Applying a plan in order until the first file whose transaction fails:
      the files applied, and how the run ends. */
  function Run(plan: seq<string>, fault: string -> FileFault): (seq<string>, Outcome) {
    if plan == [] then ([], Done)
    else if fault(plan[0]) != Applies then ([], Panicked(plan[0], fault(plan[0])))
    else
      var rest := Run(plan[1..], fault);
      ([plan[0]] + rest.0, rest.1)
  }

  // ---------------------------------------------------------------------
  // What the plan and a run promise.

  /** A run applies a prefix of its plan. If it ends well it applied the
      whole plan; if it panics, it panics on the first file that fails, and
      it did apply every file before it. */
  lemma {:induction false} RunAppliesPrefix(plan: seq<string>, fault: string -> FileFault)
    ensures |Run(plan, fault).0| <= |plan|
    ensures Run(plan, fault).0 == plan[..|Run(plan, fault).0|]
    ensures forall f :: f in Run(plan, fault).0 ==> fault(f) == Applies
    ensures Run(plan, fault).1.Failed? == false
    ensures Run(plan, fault).1 == Done <==> Run(plan, fault).0 == plan
    ensures Run(plan, fault).1.Panicked? ==>
      var k := |Run(plan, fault).0|;
      k < |plan| && Run(plan, fault).1 == Panicked(plan[k], fault(plan[k])) && fault(plan[k]) != Applies
  {
    if plan != [] && fault(plan[0]) == Applies {
      RunAppliesPrefix(plan[1..], fault);
    }
  }

  /** The plan lists its files in ascending order. */
  lemma PlanSorted(entries: seq<string>, recorded: seq<string>)
    ensures Sorted(Plan(entries, recorded))
  {
    PendingSorted(SortStrings(SqlFiles(entries)), set f | f in recorded);
  }

  lemma {:induction false} PendingSorted(files: seq<string>, applied: set<string>)
    requires Sorted(files)
    ensures Sorted(Pending(files, applied))
  {
    if files != [] {
      var rest := Pending(files[1..], applied);
      assert Sorted(files[1..]) by {
        forall i, j | 0 <= i < j < |files[1..]| ensures LessEq(files[1..][i], files[1..][j]) {
          assert files[1..][i] == files[i + 1] && files[1..][j] == files[j + 1];
        }
      }
      PendingSorted(files[1..], applied);
      if files[0] !in applied {
        forall j | 0 <= j < |rest| ensures LessEq(files[0], rest[j]) {
          assert rest[j] in rest;
          var k :| 0 <= k < |files[1..]| && files[1..][k] == rest[j];
          assert files[k + 1] == rest[j];
        }
      }
    }
  }

  /** The plan holds exactly the migration files of the directory that the
      table does not record. */
  lemma PlanContents(entries: seq<string>, recorded: seq<string>)
    ensures forall f :: f in Plan(entries, recorded) <==> f in entries && IsSql(f) && f !in recorded
  {
    var sorted := SortStrings(SqlFiles(entries));
    forall f ensures f in sorted <==> f in SqlFiles(entries) {
      assert f in sorted <==> f in multiset(sorted);
      assert f in SqlFiles(entries) <==> f in multiset(SqlFiles(entries));
    }
  }

  lemma {:induction false} SqlFilesDistinct(entries: seq<string>)
    requires Distinct(entries)
    ensures Distinct(SqlFiles(entries))
  {
    if entries != [] {
      var init := entries[..|entries| - 1];
      assert Distinct(init) by {
        forall i, j | 0 <= i < j < |init| ensures init[i] != init[j] {
          assert init[i] == entries[i] && init[j] == entries[j];
        }
      }
      SqlFilesDistinct(init);
    }
  }

  /** In a distinct sequence every element occurs once. */
  lemma {:induction false} DistinctCounts(s: seq<string>)
    requires Distinct(s)
    ensures forall x :: multiset(s)[x] <= 1
  {
    if s != [] {
      var t := s[1..];
      assert s == [s[0]] + t;
      assert Distinct(t) by {
        forall i, j | 0 <= i < j < |t| ensures t[i] != t[j] {
          assert t[i] == s[i + 1] && t[j] == s[j + 1];
        }
      }
      DistinctCounts(t);
      assert s[0] !in t by {
        forall k | 0 <= k < |t| ensures t[k] != s[0] {
          assert t[k] == s[k + 1];
        }
      }
    }
  }

  lemma TwoOccurrences(s: seq<string>, i: nat, j: nat)
    requires i < j < |s| && s[i] == s[j]
    ensures multiset(s)[s[i]] >= 2
  {
    var a, b := s[..j], s[j..];
    assert s == a + b;
    assert a[i] == s[i] && b[0] == s[j];
    assert s[i] in multiset(a) && s[i] in multiset(b);
  }

  /** A sequence in which no element occurs twice is distinct. */
  lemma CountsDistinct(s: seq<string>)
    requires forall x :: multiset(s)[x] <= 1
    ensures Distinct(s)
  {
    forall i, j | 0 <= i < j < |s| ensures s[i] != s[j] {
      if s[i] == s[j] {
        TwoOccurrences(s, i, j);
      }
    }
  }

  lemma {:induction false} PendingDistinct(files: seq<string>, applied: set<string>)
    requires Distinct(files)
    ensures Distinct(Pending(files, applied))
  {
    if files != [] {
      var t := files[1..];
      assert Distinct(t) by {
        forall i, j | 0 <= i < j < |t| ensures t[i] != t[j] {
          assert t[i] == files[i + 1] && t[j] == files[j + 1];
        }
      }
      PendingDistinct(t, applied);
      var rest := Pending(t, applied);
      assert files[0] !in t by {
        forall k | 0 <= k < |t| ensures t[k] != files[0] {
          assert t[k] == files[k + 1];
        }
      }
      var r := Pending(files, applied);
      forall i, j | 0 <= i < j < |r| ensures r[i] != r[j] {
        if files[0] !in applied && i == 0 {
          assert r[j] == rest[j - 1];
        }
      }
    }
  }

  /** With a distinct directory listing, the plan names each file once. */
  lemma PlanDistinct(entries: seq<string>, recorded: seq<string>)
    requires Distinct(entries)
    ensures Distinct(Plan(entries, recorded))
  {
    var files := SqlFiles(entries);
    SqlFilesDistinct(entries);
    DistinctCounts(files);
    CountsDistinct(SortStrings(files));
    PendingDistinct(SortStrings(files), set f | f in recorded);
  }

  /** A run records each file once: if the table named every file at most
      once before, it still does after the run. */
  lemma RecordedOnce(entries: seq<string>, recorded: seq<string>, fault: string -> FileFault)
    requires Distinct(entries) && Distinct(recorded)
    ensures Distinct(recorded + Run(Plan(entries, recorded), fault).0)
  {
    var plan := Plan(entries, recorded);
    var done := Run(plan, fault).0;
    RunAppliesPrefix(plan, fault);
    PlanDistinct(entries, recorded);
    PlanContents(entries, recorded);
    var s := recorded + done;
    forall i, j | 0 <= i < j < |s| ensures s[i] != s[j] {
      if j >= |recorded| {
        assert s[j] == plan[j - |recorded|];
        if i >= |recorded| {
          assert s[i] == plan[i - |recorded|];
        } else {
          assert s[i] in recorded;
        }
      }
    }
  }

  /** After a run that ends well, every migration file of the directory is
      recorded, and each file the run added is a migration file of the
      directory that was not recorded before. */
  lemma DoneRecordsEverySqlFile(entries: seq<string>, recorded: seq<string>, fault: string -> FileFault)
    requires Run(Plan(entries, recorded), fault).1 == Done
    ensures forall f :: f in entries && IsSql(f) ==> f in recorded + Run(Plan(entries, recorded), fault).0
    ensures forall f :: f in Run(Plan(entries, recorded), fault).0 ==> f in entries && IsSql(f) && f !in recorded
  {
    RunAppliesPrefix(Plan(entries, recorded), fault);
    PlanContents(entries, recorded);
  }

  /** A directory without migration files applies nothing and ends well. */
  lemma NoSqlFilesNoRun(entries: seq<string>, recorded: seq<string>, fault: string -> FileFault)
    requires forall f :: f in entries ==> !IsSql(f)
    ensures Run(Plan(entries, recorded), fault) == ([], Done)
  {
    SqlFilesEmpty(entries);
  }

  lemma {:induction false} SqlFilesEmpty(entries: seq<string>)
    requires forall f :: f in entries ==> !IsSql(f)
    ensures SqlFiles(entries) == []
  {
    if entries != [] {
      var init := entries[..|entries| - 1];
      assert entries == init + [entries[|entries| - 1]];
      SqlFilesEmpty(init);
    }
  }

  // ---------------------------------------------------------------------
  // The migrator.

  /** The database as the migrator sees it: the `file` column of the
      migrations table in insertion order, and the files whose statements
      have taken effect, in the order they did. */
  class Database {
    var migrations: seq<string>
    var schema: seq<string>

    constructor (migrations: seq<string>, schema: seq<string>)
      ensures this.migrations == migrations && this.schema == schema
    {
      this.migrations := migrations;
      this.schema := schema;
    }
  }

  lemma PendingStep(files: seq<string>, applied: set<string>, i: nat)
    requires i < |files|
    ensures Pending(files[i..], applied) ==
      (if files[i] in applied then [] else [files[i]]) + Pending(files[i + 1..], applied)
  {
    assert files[i..][1..] == files[i + 1..];
  }

  /** How a run over the files from i on begins: a file already applied is
      skipped, a file that fails stops the run, and any other file is applied
      before the rest. */
  lemma RunStep(files: seq<string>, applied: set<string>, i: nat, fault: string -> FileFault)
    requires i < |files|
    ensures var next := Run(Pending(files[i + 1..], applied), fault);
      Run(Pending(files[i..], applied), fault) ==
        if files[i] in applied then next
        else if fault(files[i]) != Applies then ([], Panicked(files[i], fault(files[i])))
        else ([files[i]] + next.0, next.1)
  {
    var rest := Pending(files[i + 1..], applied);
    var p := Pending(files[i..], applied);
    PendingStep(files, applied, i);
    if files[i] in applied {
      assert p == [] + rest;
      assert p == rest;
    } else {
      assert p == [files[i]] + rest;
      assert p[0] == files[i] && p[1..] == rest;
    }
  }

  lemma {:induction false} PendingAppend(files: seq<string>, x: string, applied: set<string>)
    ensures Pending(files + [x], applied) == Pending(files, applied) + (if x in applied then [] else [x])
  {
    if files != [] {
      assert (files + [x])[1..] == files[1..] + [x];
      PendingAppend(files[1..], x, applied);
    }
  }

  /** The loop over the rows of the migrations table: the set of files it
      records. */
  method AppliedFiles(migrations: seq<string>) returns (applied: set<string>)
    ensures applied == set f | f in migrations
  {
    applied := {};
    for i := 0 to |migrations|
      invariant applied == set f | f in migrations[..i]
    {
      assert migrations[..i + 1] == migrations[..i] + [migrations[i]];
      applied := applied + {migrations[i]};
    }
    assert migrations[..|migrations|] == migrations;
  }

  /** The loop over the directory entries: the `.sql` files, in listing order. */
  method CollectSqlFiles(entries: seq<string>) returns (files: seq<string>)
    ensures files == SqlFiles(entries)
  {
    files := [];
    for i := 0 to |entries|
      invariant files == SqlFiles(entries[..i])
    {
      assert entries[..i + 1][..i] == entries[..i];
      if IsSql(entries[i]) {
        files := files + [entries[i]];
      }
    }
    assert entries[..|entries|] == entries;
  }

  /** The apply loop: each file not yet applied is run and recorded in one
      transaction, until the first transaction that fails. */
  method ApplyFiles(db: Database, files: seq<string>, applied: set<string>,
                    fault: string -> FileFault) returns (o: Outcome)
    modifies db
    ensures o == Run(Pending(files, applied), fault).1
    ensures db.migrations == old(db.migrations) + Run(Pending(files, applied), fault).0
    ensures db.schema == old(db.schema) + Run(Pending(files, applied), fault).0
  {
    ghost var run := Run(Pending(files, applied), fault);
    ghost var done: seq<string> := [];
    var i := 0;
    assert files[..0] == [] && files[0..] == files;
    assert [] + run.0 == run.0;
    while i < |files|
      invariant 0 <= i <= |files|
      invariant done == Pending(files[..i], applied)
      invariant db.migrations == old(db.migrations) + done
      invariant db.schema == old(db.schema) + done
      invariant run.0 == done + Run(Pending(files[i..], applied), fault).0
      invariant run.1 == Run(Pending(files[i..], applied), fault).1
    {
      var file := files[i];
      if file in applied {
        SkipStep(files, applied, i, fault);
        i := i + 1;
        continue;
      }
      if fault(file) != Applies {
        // the transaction is rolled back, and the migrator panics
        FailStep(files, applied, i, fault);
        assert done + [] == done;
        return Panicked(file, fault(file));
      }
      ghost var next := Run(Pending(files[i + 1..], applied), fault);
      ApplyStep(files, applied, i, fault);
      AppendOne(done, [file], next.0);
      AppendOne(old(db.migrations), done, [file]);
      AppendOne(old(db.schema), done, [file]);
      db.schema := db.schema + [file];
      db.migrations := db.migrations + [file];
      done := done + [file];
      i := i + 1;
    }
    assert files[..i] == files;
    return Done;
  }

  /** One turn of the apply loop: the prefix it has gone through and the run
      still ahead. */
  lemma LoopStep(files: seq<string>, applied: set<string>, i: nat, fault: string -> FileFault)
    requires i < |files|
    ensures Pending(files[..i + 1], applied) ==
      Pending(files[..i], applied) + (if files[i] in applied then [] else [files[i]])
    ensures var next := Run(Pending(files[i + 1..], applied), fault);
      Run(Pending(files[i..], applied), fault) ==
        if files[i] in applied then next
        else if fault(files[i]) != Applies then ([], Panicked(files[i], fault(files[i])))
        else ([files[i]] + next.0, next.1)
  {
    PendingAppend(files[..i], files[i], applied);
    assert files[..i + 1] == files[..i] + [files[i]];
    RunStep(files, applied, i, fault);
  }

  /** A file already applied is skipped. */
  lemma SkipStep(files: seq<string>, applied: set<string>, i: nat, fault: string -> FileFault)
    requires i < |files| && files[i] in applied
    ensures Pending(files[..i + 1], applied) == Pending(files[..i], applied)
    ensures Run(Pending(files[i..], applied), fault) == Run(Pending(files[i + 1..], applied), fault)
  {
    LoopStep(files, applied, i, fault);
  }

  /** A pending file whose transaction fails ends the run, with nothing more applied. */
  lemma FailStep(files: seq<string>, applied: set<string>, i: nat, fault: string -> FileFault)
    requires i < |files| && files[i] !in applied && fault(files[i]) != Applies
    ensures Run(Pending(files[i..], applied), fault) == ([], Panicked(files[i], fault(files[i])))
  {
    LoopStep(files, applied, i, fault);
  }

  /** A pending file whose transaction commits is applied before the rest. */
  lemma ApplyStep(files: seq<string>, applied: set<string>, i: nat, fault: string -> FileFault)
    requires i < |files| && files[i] !in applied && fault(files[i]) == Applies
    ensures Pending(files[..i + 1], applied) == Pending(files[..i], applied) + [files[i]]
    ensures var next := Run(Pending(files[i + 1..], applied), fault);
      Run(Pending(files[i..], applied), fault) == ([files[i]] + next.0, next.1)
  {
    LoopStep(files, applied, i, fault);
  }

  lemma AppendOne(a: seq<string>, b: seq<string>, c: seq<string>)
    ensures (a + b) + c == a + (b + c)
  {
  }

  /** `Migrate`: a setup failure changes nothing; otherwise the plan is run. */
  method Migrate(db: Database, entries: seq<string>, setup: Option<SetupFault>,
                 fault: string -> FileFault) returns (o: Outcome)
    modifies db
    ensures setup.Some? ==> o == Failed(setup.value) && db.migrations == old(db.migrations) && db.schema == old(db.schema)
    ensures setup.None? ==>
      var run := Run(Plan(entries, old(db.migrations)), fault);
      && o == run.1
      && db.migrations == old(db.migrations) + run.0
      && db.schema == old(db.schema) + run.0
  {
    if setup.Some? {
      return Failed(setup.value);
    }
    var applied := AppliedFiles(db.migrations);
    var files := CollectSqlFiles(entries);
    files := SortStrings(files);
    if |files| == 0 {
      return Done;
    }
    o := ApplyFiles(db, files, applied, fault);
  }
}
