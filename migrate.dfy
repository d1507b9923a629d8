/**
 * Schema migrations: the migration files of a directory, selected by name
 * and sorted, and `migrate`, which runs every migration not yet recorded in
 * the `migrations` table inside one transaction.  The directory listing,
 * the file contents, whether a script runs without error and the clock are
 * parameters; the database is the `migrations` table plus the sequence of
 * scripts executed against it.
 */
module Migrate {
  import opened Wrappers
  import opened Strings
  import opened Sorting

  // ---- file names: /^\d+_.+\.sql$/ ----

  /** The characters `.` does not match in a JavaScript regular expression. */
  predicate IsLineTerminator(c: char) {
    c == '\n' || c == '\r' || c == '\U{2028}' || c == '\U{2029}'
  }

  /** The number of leading decimal digits. */
  function LeadingDigits(s: string): (k: nat)
    ensures k <= |s| && AllDigits(s[..k])
    ensures k < |s| ==> !IsDigit(s[k])
    decreases |s|
  {
    if |s| > 0 && IsDigit(s[0]) then
      var k := 1 + LeadingDigits(s[1..]);
      assert s[..k] == [s[0]] + s[1..][..k - 1];
      k
    else 0
  }

  /** `/^\d+_.+\.sql$/.test(f)`: digits, an underscore, at least one character other than a line terminator, `.sql`. */
  predicate IsMigrationFileName(f: string) {
    var k := LeadingDigits(f);
    && 1 <= k && k + 6 <= |f|
    && f[k] == '_'
    && f[|f| - 4..] == ".sql"
    && forall i :: k + 1 <= i < |f| - 4 ==> !IsLineTerminator(f[i])
  }

  lemma {:induction false} LeadingDigitsOf(d: string, rest: string)
    requires AllDigits(d) && (|rest| == 0 || !IsDigit(rest[0]))
    ensures LeadingDigits(d + rest) == |d|
    decreases |d|
  {
    if |d| > 0 {
      assert (d + rest)[1..] == d[1..] + rest;
      LeadingDigitsOf(d[1..], rest);
    }
  }

  /** Every name of the form digits, `_`, a stem, `.sql` is selected ... */
  lemma MigrationNameMatches(d: string, x: string)
    requires |d| >= 1 && AllDigits(d) && |x| >= 1
    requires forall i :: 0 <= i < |x| ==> !IsLineTerminator(x[i])
    ensures IsMigrationFileName(d + "_" + x + ".sql")
  {
    var f := d + "_" + x + ".sql";
    assert f == d + ("_" + x + ".sql");
    LeadingDigitsOf(d, "_" + x + ".sql");
    assert f[|f| - 4..] == ".sql";
    forall i | |d| + 1 <= i < |f| - 4 ensures !IsLineTerminator(f[i]) {
      assert f[i] == x[i - |d| - 1];
    }
  }

  /** ... and every selected name has that form. */
  lemma MigrationNameSplits(f: string)
    requires IsMigrationFileName(f)
    ensures var k := LeadingDigits(f);
            var x := f[k + 1..|f| - 4];
            && k >= 1 && AllDigits(f[..k]) && |x| >= 1
            && (forall i :: 0 <= i < |x| ==> !IsLineTerminator(x[i]))
            && f == f[..k] + "_" + x + ".sql"
  {
    var k := LeadingDigits(f);
    var x := f[k + 1..|f| - 4];
    assert f == f[..k] + [f[k]] + x + f[|f| - 4..];
  }

  // ---- ordering: Array.prototype.sort() on strings ----

  /** Lexicographic order on characters. */
  function StrLe(a: string, b: string): bool
    decreases |a|
  {
    if |a| == 0 then true
    else if |b| == 0 then false
    else if a[0] != b[0] then a[0] < b[0]
    else StrLe(a[1..], b[1..])
  }

  lemma {:induction false} StrLeTotal(a: string, b: string)
    ensures StrLe(a, b) || StrLe(b, a)
    decreases |a|
  {
    if |a| > 0 && |b| > 0 && a[0] == b[0] {
      StrLeTotal(a[1..], b[1..]);
    }
  }

  lemma {:induction false} StrLeTransitive(a: string, b: string, c: string)
    requires StrLe(a, b) && StrLe(b, c)
    ensures StrLe(a, c)
    decreases |a|
  {
    if |a| > 0 && |b| > 0 && |c| > 0 && a[0] == b[0] && b[0] == c[0] {
      StrLeTransitive(a[1..], b[1..], c[1..]);
    }
  }

  lemma StrLeOrder()
    ensures Total(StrLe) && Transitive(StrLe)
  {
    forall a, b ensures StrLe(a, b) || StrLe(b, a) {
      StrLeTotal(a, b);
    }
    forall a, b, c | StrLe(a, b) && StrLe(b, c) ensures StrLe(a, c) {
      StrLeTransitive(a, b, c);
    }
  }

  // ---- listMigrationFiles ----

  /** The directory entries whose names match, in listing order. */
  function MatchingNames(entries: seq<string>): (r: seq<string>)
    ensures forall i :: 0 <= i < |r| ==> IsMigrationFileName(r[i])
    ensures |r| <= |entries|
    ensures forall f :: f in entries && IsMigrationFileName(f) <==> f in r
  {
    if |entries| == 0 then []
    else
      var rest := MatchingNames(entries[1..]);
      assert forall f :: f in entries <==> f == entries[0] || f in entries[1..];
      if IsMigrationFileName(entries[0]) then [entries[0]] + rest else rest
  }

  /** The matching names, sorted ascending. */
  function SortedNames(entries: seq<string>): (r: seq<string>)
    ensures multiset(r) == multiset(MatchingNames(entries))
    ensures PairwiseSortedBy(r, StrLe)
    ensures forall i :: 0 <= i < |r| ==> IsMigrationFileName(r[i])
  {
    var names := MatchingNames(entries);
    StrLeOrder();
    InsertionSortSorted(names, StrLe);
    SortedPairwise(InsertionSort(names, StrLe), StrLe);
    var r := InsertionSort(names, StrLe);
    assert forall i :: 0 <= i < |r| ==> r[i] in multiset(names);
    r
  }

  /** One selected migration: its id and its path. */
  datatype MigrationFile = MigrationFile(id: string, file: string)

  /** `path.join(dir, f)` for a directory without a trailing separator. */
  function PathJoin(dir: string, f: string): string {
    dir + "/" + f
  }

  /** `f.split('.sql')[0]`. */
  function MigrationId(f: string): (id: string)
    requires IsMigrationFileName(f)
    ensures StartsWith(f, id) && |id| < |f|
    ensures StartsWith(f[|id|..], ".sql")
    ensures forall i :: 0 <= i < |id| ==> !OccursAt(f, ".sql", i)
  {
    assert OccursAt(f, ".sql", |f| - 4);
    ContainsIff(f, ".sql");
    BeforeFirstStops(f, ".sql");
    BeforeFirst(f, ".sql")
  }

  /**
   * `listMigrationFiles()` over the directory listing `entries`: the
   * matching names in ascending order, each with its id and path.
   */
  function ListMigrationFiles(entries: seq<string>, dir: string): (r: seq<MigrationFile>)
    ensures var names := SortedNames(entries);
            |r| == |names|
            && forall i :: 0 <= i < |r| ==> r[i] == MigrationFile(MigrationId(names[i]), PathJoin(dir, names[i]))
  {
    var names := SortedNames(entries);
    seq(|names|, i requires 0 <= i < |names| => MigrationFile(MigrationId(names[i]), PathJoin(dir, names[i])))
  }

  // ---- the apply loop ----

  /** The files whose id is not in the `applied` snapshot, in order. */
  function Pending(files: seq<MigrationFile>, applied: set<string>): seq<MigrationFile>
    decreases |files|
  {
    if |files| == 0 then []
    else
      var last := files[|files| - 1];
      Pending(files[..|files| - 1], applied) + (if last.id in applied then [] else [last])
  }

  /** A file is pending exactly when it is listed and its id is not in the snapshot. */
  lemma {:induction false} PendingMembers(files: seq<MigrationFile>, applied: set<string>)
    ensures forall m :: m in Pending(files, applied) <==> m in files && m.id !in applied
    decreases |files|
  {
    if |files| > 0 {
      var last := files[|files| - 1];
      assert forall m :: m in files <==> m in files[..|files| - 1] || m == last;
      PendingMembers(files[..|files| - 1], applied);
    }
  }

  function Ids(ms: seq<MigrationFile>): (ids: seq<string>)
    ensures |ids| == |ms| && forall i :: 0 <= i < |ms| ==> ids[i] == ms[i].id
    decreases |ms|
  {
    if |ms| == 0 then [] else Ids(ms[..|ms| - 1]) + [ms[|ms| - 1].id]
  }

  /** The scripts of the migrations, in order. */
  function Scripts(ms: seq<MigrationFile>, readFile: string -> string): (s: seq<string>)
    ensures |s| == |ms| && forall i :: 0 <= i < |ms| ==> s[i] == readFile(ms[i].file)
    decreases |ms|
  {
    if |ms| == 0 then [] else Scripts(ms[..|ms| - 1], readFile) + [readFile(ms[|ms| - 1].file)]
  }

  /** The `migrations` table after recording each migration at time `now`. */
  function Record(applied: map<string, int>, ms: seq<MigrationFile>, now: int): map<string, int>
    decreases |ms|
  {
    if |ms| == 0 then applied
    else Record(applied, ms[..|ms| - 1], now)[ms[|ms| - 1].id := now]
  }

  /**
   * Recording adds exactly the ids of the run, each with time `now`, and
   * leaves every earlier row not re-recorded as it was.
   */
  lemma {:induction false} RecordRows(applied: map<string, int>, ms: seq<MigrationFile>, now: int)
    ensures var t := Record(applied, ms, now);
            && (forall k :: k in t <==> k in applied || k in Ids(ms))
            && (forall i :: 0 <= i < |ms| ==> t[Ids(ms)[i]] == now)
            && (forall k :: k in applied && k !in Ids(ms) ==> t[k] == applied[k])
    decreases |ms|
  {
    if |ms| > 0 {
      var prefix := ms[..|ms| - 1];
      RecordRows(applied, prefix, now);
      assert forall k :: k in Ids(ms) <==> k in Ids(prefix) || k == ms[|ms| - 1].id by {
        assert Ids(ms) == Ids(prefix) + [ms[|ms| - 1].id];
      }
      var t := Record(applied, ms, now);
      forall i | 0 <= i < |ms| ensures t[Ids(ms)[i]] == now {
        if i < |ms| - 1 {
          assert Ids(ms)[i] == Ids(prefix)[i];
        }
      }
    }
  }

  /**
   * Every script runs without error, and every insert into `migrations`
   * finds its id free: neither in `taken` nor recorded earlier in the run.
   */
  predicate StepsSucceed(ms: seq<MigrationFile>, readFile: string -> string, execOk: string -> bool, taken: set<string>)
    decreases |ms|
  {
    |ms| == 0
    || (var prefix := ms[..|ms| - 1];
        var last := ms[|ms| - 1];
        && StepsSucceed(prefix, readFile, execOk, taken)
        && execOk(readFile(last.file))
        && last.id !in taken && last.id !in Ids(prefix))
  }

  lemma {:induction false} PendingConcat(a: seq<MigrationFile>, b: seq<MigrationFile>, applied: set<string>)
    ensures Pending(a + b, applied) == Pending(a, applied) + Pending(b, applied)
    decreases |b|
  {
    if |b| > 0 {
      assert (a + b)[..|a + b| - 1] == a + b[..|b| - 1];
      PendingConcat(a, b[..|b| - 1], applied);
    } else {
      assert a + b == a;
    }
  }

  lemma {:induction false} StepsSucceedPrefix(a: seq<MigrationFile>, b: seq<MigrationFile>, readFile: string -> string,
                                              execOk: string -> bool, taken: set<string>)
    requires StepsSucceed(a + b, readFile, execOk, taken)
    ensures StepsSucceed(a, readFile, execOk, taken)
    decreases |b|
  {
    if |b| > 0 {
      assert (a + b)[..|a + b| - 1] == a + b[..|b| - 1];
      StepsSucceedPrefix(a, b[..|b| - 1], readFile, execOk, taken);
    } else {
      assert a + b == a;
    }
  }

  /** A successful run records each migration once: the applied ids are distinct. */
  lemma {:induction false} StepsSucceedDistinct(ms: seq<MigrationFile>, readFile: string -> string,
                                                execOk: string -> bool, taken: set<string>)
    requires StepsSucceed(ms, readFile, execOk, taken)
    ensures forall i, j :: 0 <= i < j < |ms| ==> ms[i].id != ms[j].id
    ensures forall i :: 0 <= i < |ms| ==> ms[i].id !in taken
    decreases |ms|
  {
    if |ms| > 0 {
      var prefix := ms[..|ms| - 1];
      StepsSucceedDistinct(prefix, readFile, execOk, taken);
      forall i, j | 0 <= i < j < |ms| ensures ms[i].id != ms[j].id {
        if j == |ms| - 1 {
          assert Ids(prefix)[i] == ms[i].id;
        } else {
          assert prefix[i] == ms[i] && prefix[j] == ms[j];
        }
      }
      forall i | 0 <= i < |ms| ensures ms[i].id !in taken {
        if i < |ms| - 1 {
          assert prefix[i] == ms[i];
        }
      }
    }
  }

  /** Two pending migrations with the same id make the run fail (the second insert violates the primary key). */
  lemma DuplicateIdFails(ms: seq<MigrationFile>, readFile: string -> string, execOk: string -> bool,
                         taken: set<string>, i: nat, j: nat)
    requires i < j < |ms| && ms[i].id == ms[j].id
    ensures !StepsSucceed(ms, readFile, execOk, taken)
  {
    if StepsSucceed(ms, readFile, execOk, taken) {
      StepsSucceedDistinct(ms, readFile, execOk, taken);
    }
  }

  /** After a successful run every listed id is recorded, so the same listing has nothing pending. */
  lemma RunTwiceAppliesNothing(files: seq<MigrationFile>, applied: map<string, int>, now: int)
    ensures Pending(files, Record(applied, Pending(files, applied.Keys), now).Keys) == []
  {
    var after := Record(applied, Pending(files, applied.Keys), now);
    RecordRows(applied, Pending(files, applied.Keys), now);
    PendingMembers(files, applied.Keys);
    forall m | m in files ensures m.id in after.Keys {
      if m.id !in applied.Keys {
        assert m in Pending(files, applied.Keys);
      }
    }
    PendingAllTaken(files, after.Keys);
  }

  lemma {:induction false} PendingAllTaken(files: seq<MigrationFile>, taken: set<string>)
    requires forall m :: m in files ==> m.id in taken
    ensures Pending(files, taken) == []
    decreases |files|
  {
    if |files| > 0 {
      assert files[|files| - 1] in files;
      assert forall m :: m in files[..|files| - 1] ==> m in files;
      PendingAllTaken(files[..|files| - 1], taken);
    }
  }

  /** The database: the `migrations` table (id to `appliedAt`) and the scripts executed so far. */
  class MigrationDb {
    var applied: map<string, int>
    var executed: seq<string>

    constructor()
      ensures applied == map[] && executed == []
    {
      applied := map[];
      executed := [];
    }

    /**
     * One migration of the loop in `migrate()`: read its script, execute
     * it, then insert its id into `migrations`.  `pend` are the migrations
     * this run applied before it, on top of `applied0` and `executed0`.
     */
    method ApplyOne(m: MigrationFile, readFile: string -> string, execOk: string -> bool, now: int,
                    ghost pend: seq<MigrationFile>, ghost applied0: map<string, int>, ghost executed0: seq<string>)
      returns (err: Option<string>)
      requires m.id !in applied0
      requires applied == Record(applied0, pend, now) && executed == executed0 + Scripts(pend, readFile)
      modifies this
      ensures err.None? <==> execOk(readFile(m.file)) && m.id !in Ids(pend)
      ensures err.None? ==> && applied == Record(applied0, pend + [m], now)
                            && executed == executed0 + Scripts(pend + [m], readFile)
    {
      var sql := readFile(m.file);
      RecordedInRun(applied0, pend, m, now);
      if !execOk(sql) {
        return Some("migration " + m.id + " failed");
      }
      executed := executed + [sql];
      if m.id in applied {
        return Some("UNIQUE constraint failed: migrations.id");
      }
      applied := applied[m.id := now];
      StepExtends(applied0, pend, m, readFile, now);
      ScriptsStep(executed0, pend, m, readFile);
      return None;
    }

    /**
     * The body of the transaction in `migrate()`: runs and records, in
     * order, every listed file whose id is not in `snapshot`, and stops at
     * the first script or insert that throws.  On success it returns the
     * ids it applied (the ids the `[migrate] applied` lines name); on
     * failure the effects so far stay for the caller to roll back.
     */
    method RunPending(files: seq<MigrationFile>, snapshot: set<string>, readFile: string -> string,
                      execOk: string -> bool, now: int)
      returns (err: Option<string>, done: seq<string>)
      requires snapshot == applied.Keys
      modifies this
      ensures var pending := Pending(files, snapshot);
              err.None? <==> StepsSucceed(pending, readFile, execOk, snapshot)
      ensures var pending := Pending(files, snapshot);
              err.None? ==> && applied == Record(old(applied), pending, now)
                            && executed == old(executed) + Scripts(pending, readFile)
                            && done == Ids(pending)
    {
      done := [];
      ghost var pend: seq<MigrationFile> := [];
      var i := 0;
      while i < |files|
        invariant 0 <= i <= |files|
        invariant pend == Pending(files[..i], snapshot)
        invariant StepsSucceed(pend, readFile, execOk, snapshot)
        invariant applied == Record(old(applied), pend, now)
        invariant executed == old(executed) + Scripts(pend, readFile)
        invariant done == Ids(pend)
      {
        var m := files[i];
        PendingSnoc(files, i, snapshot);
        if m.id !in snapshot {
          err := ApplyOne(m, readFile, execOk, now, pend, old(applied), old(executed));
          if err.Some? {
            StepFails(pend, m, readFile, execOk, snapshot);
            FailureIsFinal(files, i, readFile, execOk, snapshot);
            return err, done;
          }
          done := done + [m.id];
          StepExtends(old(applied), pend, m, readFile, now);
          StepSucceeds(pend, m, readFile, execOk, snapshot);
          pend := pend + [m];
        }
        i := i + 1;
      }
      PendingWhole(files, snapshot);
      return None, done;
    }

    /**
     * The transaction of `migrate()` over the listed files: BEGIN, the
     * body above, then COMMIT; when the body throws, ROLLBACK restores the
     * table and the error is rethrown.
     */
    method ApplyMigrations(files: seq<MigrationFile>, readFile: string -> string, execOk: string -> bool, now: int)
      returns (r: Result<seq<string>, string>)
      modifies this
      ensures var pending := Pending(files, old(applied).Keys);
              r.Ok? <==> StepsSucceed(pending, readFile, execOk, old(applied).Keys)
      ensures var pending := Pending(files, old(applied).Keys);
              r.Ok? ==> && applied == Record(old(applied), pending, now)
                        && executed == old(executed) + Scripts(pending, readFile)
                        && r.value == Ids(pending)
      ensures r.Err? ==> applied == old(applied) && executed == old(executed)
    {
      // `new Set(SELECT id FROM migrations)`, taken once before the transaction
      var snapshot := applied.Keys;
      // BEGIN
      var savedApplied, savedExecuted := applied, executed;
      var err, done := RunPending(files, snapshot, readFile, execOk, now);
      if err.Some? {
        applied, executed := savedApplied, savedExecuted;  // ROLLBACK
        return Err(err.value);
      }
      // COMMIT
      return Ok(done);
    }

    /** `migrate()` on the directory listing `entries`. */
    method Migrate(entries: seq<string>, dir: string, readFile: string -> string, execOk: string -> bool, now: int)
      returns (r: Result<seq<string>, string>)
      modifies this
      ensures var pending := Pending(ListMigrationFiles(entries, dir), old(applied).Keys);
              r.Ok? <==> StepsSucceed(pending, readFile, execOk, old(applied).Keys)
      ensures var pending := Pending(ListMigrationFiles(entries, dir), old(applied).Keys);
              r.Ok? ==> && applied == Record(old(applied), pending, now)
                        && executed == old(executed) + Scripts(pending, readFile)
                        && r.value == Ids(pending)
      ensures r.Err? ==> applied == old(applied) && executed == old(executed)
    {
      var files := ListMigrationFiles(entries, dir);
      r := ApplyMigrations(files, readFile, execOk, now);
    }
  }

  /** Appending one migration appends its id, its script and its record. */
  lemma StepExtends(applied: map<string, int>, before: seq<MigrationFile>, m: MigrationFile,
                    readFile: string -> string, now: int)
    ensures Ids(before + [m]) == Ids(before) + [m.id]
    ensures Scripts(before + [m], readFile) == Scripts(before, readFile) + [readFile(m.file)]
    ensures Record(applied, before + [m], now) == Record(applied, before, now)[m.id := now]
  {
    DropLast(before, m);
  }

  lemma StepSucceeds(before: seq<MigrationFile>, m: MigrationFile, readFile: string -> string,
                     execOk: string -> bool, taken: set<string>)
    requires StepsSucceed(before, readFile, execOk, taken)
    requires execOk(readFile(m.file)) && m.id !in taken && m.id !in Ids(before)
    ensures StepsSucceed(before + [m], readFile, execOk, taken)
  {
    DropLast(before, m);
  }

  lemma StepFails(before: seq<MigrationFile>, m: MigrationFile, readFile: string -> string,
                  execOk: string -> bool, taken: set<string>)
    requires !execOk(readFile(m.file)) || m.id in taken || m.id in Ids(before)
    ensures !StepsSucceed(before + [m], readFile, execOk, taken)
  {
    DropLast(before, m);
  }

  /** An id absent from the table before the run is in the table during it exactly when the run recorded it. */
  lemma RecordedInRun(applied: map<string, int>, pend: seq<MigrationFile>, m: MigrationFile, now: int)
    requires m.id !in applied
    ensures m.id in Record(applied, pend, now) <==> m.id in Ids(pend)
  {
    RecordRows(applied, pend, now);
  }

  lemma PendingWhole(files: seq<MigrationFile>, taken: set<string>)
    ensures Pending(files[..|files|], taken) == Pending(files, taken)
  {
    assert files[..|files|] == files;
  }

  /** Scanning one more file adds it to the pending ones unless its id was recorded. */
  lemma PendingSnoc(files: seq<MigrationFile>, i: nat, taken: set<string>)
    requires i < |files|
    ensures Pending(files[..i + 1], taken)
            == Pending(files[..i], taken) + (if files[i].id in taken then [] else [files[i]])
  {
    assert files[..i + 1][..i] == files[..i];
  }

  lemma DropLast<T>(s: seq<T>, x: T)
    ensures (s + [x])[..|s|] == s
  {
  }

  /** Running one more migration appends its script to those executed. */
  lemma ScriptsStep(executed: seq<string>, before: seq<MigrationFile>, m: MigrationFile, readFile: string -> string)
    ensures executed + Scripts(before + [m], readFile) == (executed + Scripts(before, readFile)) + [readFile(m.file)]
  {
    DropLast(before, m);
  }

  lemma SplitAt<T>(s: seq<T>, k: nat)
    requires k <= |s|
    ensures s == s[..k] + s[k..]
  {
  }

  /** A run whose first `i + 1` files already fail fails as a whole. */
  lemma FailureIsFinal(files: seq<MigrationFile>, i: nat, readFile: string -> string, execOk: string -> bool,
                       taken: set<string>)
    requires i < |files|
    requires !StepsSucceed(Pending(files[..i + 1], taken), readFile, execOk, taken)
    ensures !StepsSucceed(Pending(files, taken), readFile, execOk, taken)
  {
    var front, back := files[..i + 1], files[i + 1..];
    SplitAt(files, i + 1);
    PendingConcat(front, back, taken);
    var a, b := Pending(front, taken), Pending(back, taken);
    assert Pending(files, taken) == a + b;
    if StepsSucceed(a + b, readFile, execOk, taken) {
      StepsSucceedPrefix(a, b, readFile, execOk, taken);
    }
  }
}
