/** The migration files, the migrations table, and the runs that bring one up to the other. */
module Migrations {
  import opened Text

  datatype DirEntry = DirEntry(name: string, isDir: bool, content: string)

  datatype MigrationInfo = MigrationInfo(number: nat, filename: string, content: string)

  // Loading

  /** ^\d{6}\.sql$ */
  predicate IsMigrationName(name: string) {
    |name| == 10 && name[6..] == ".sql" && forall i | 0 <= i < 6 :: IsDigit(name[i])
  }

  function Info(e: DirEntry): MigrationInfo
    requires IsMigrationName(e.name)
  {
    MigrationInfo(NatOf(e.name[..6]), e.name, e.content)
  }

  function Collected(entries: seq<DirEntry>): seq<MigrationInfo> {
    if entries == [] then []
    else
      var e := entries[|entries| - 1];
      Collected(entries[..|entries| - 1]) + (if !e.isDir && IsMigrationName(e.name) then [Info(e)] else [])
  }

  predicate NotDescending(list: seq<MigrationInfo>) {
    forall i, j | 0 <= i < j < |list| :: list[i].number <= list[j].number
  }

  function InsertByNumber(list: seq<MigrationInfo>, m: MigrationInfo): (r: seq<MigrationInfo>)
    requires NotDescending(list)
    ensures NotDescending(r) && |r| == |list| + 1 && forall x :: x in r <==> x == m || x in list
  {
    if list == [] || m.number <= list[0].number then [m] + list
    else
      var rest := InsertByNumber(list[1..], m);
      assert forall x | x in rest :: list[0].number <= x.number;
      [list[0]] + rest
  }

  /** sort.Slice, of which only the order and the members matter here. */
  function SortByNumber(list: seq<MigrationInfo>): (r: seq<MigrationInfo>)
    ensures NotDescending(r) && |r| == |list| && forall x :: x in r <==> x in list
  {
    if list == [] then [] else InsertByNumber(SortByNumber(list[1..]), list[0])
  }

  function Loaded(entries: seq<DirEntry>): seq<MigrationInfo> {
    SortByNumber(Collected(entries))
  }

  predicate Ascends(list: seq<MigrationInfo>) {
    forall i, j | 0 <= i < j < |list| :: list[i].number < list[j].number
  }

  lemma {:induction false} DigitsTellNumber(a: string, b: string)
    requires |a| == |b| && (forall i | 0 <= i < |a| :: IsDigit(a[i]) && IsDigit(b[i])) && NatOf(a) == NatOf(b)
    ensures a == b
  {
    if a != "" {
      var n := |a| - 1;
      assert IsDigit(a[n]) && IsDigit(b[n]);
      DigitsTellNumber(a[..n], b[..n]);
      assert a == a[..n] + [a[n]] && b == b[..n] + [b[n]];
    }
  }

  lemma NamesTellNumbers(a: DirEntry, b: DirEntry)
    requires IsMigrationName(a.name) && IsMigrationName(b.name) && Info(a).number == Info(b).number
    ensures a.name == b.name
  {
    DigitsTellNumber(a.name[..6], b.name[..6]);
    assert a.name == a.name[..6] + a.name[6..] && b.name == b.name[..6] + b.name[6..];
  }

  predicate DistinctNames(entries: seq<DirEntry>) {
    forall i, j | 0 <= i < j < |entries| :: entries[i].name != entries[j].name
  }

  lemma {:induction false} CollectedAre(entries: seq<DirEntry>, m: MigrationInfo)
    ensures m in Collected(entries) <==> exists e :: e in entries && !e.isDir && IsMigrationName(e.name) && m == Info(e)
  {
    if entries != [] {
      var n := |entries| - 1;
      CollectedAre(entries[..n], m);
      assert entries == entries[..n] + [entries[n]];
    }
  }

  lemma {:induction false} CollectedDistinct(entries: seq<DirEntry>)
    requires DistinctNames(entries)
    ensures forall i, j | 0 <= i < j < |Collected(entries)| ::
      Collected(entries)[i].number != Collected(entries)[j].number
  {
    if entries != [] {
      var n := |entries| - 1;
      var before, e := Collected(entries[..n]), entries[n];
      CollectedDistinct(entries[..n]);
      if !e.isDir && IsMigrationName(e.name) {
        forall i | 0 <= i < |before| ensures before[i].number != Info(e).number {
          CollectedAre(entries[..n], before[i]);
          var d :| d in entries[..n] && !d.isDir && IsMigrationName(d.name) && before[i] == Info(d);
          if Info(d).number == Info(e).number { NamesTellNumbers(d, e); }
        }
      }
    }
  }

  lemma {:induction false} InsertAscends(list: seq<MigrationInfo>, m: MigrationInfo)
    requires Ascends(list) && forall x | x in list :: x.number != m.number
    ensures Ascends(InsertByNumber(list, m))
  {
    if list != [] && m.number > list[0].number {
      InsertAscends(list[1..], m);
      var rest := InsertByNumber(list[1..], m);
      assert forall x | x in rest :: list[0].number < x.number;
    }
  }

  lemma {:induction false} SortAscends(list: seq<MigrationInfo>)
    requires forall i, j | 0 <= i < j < |list| :: list[i].number != list[j].number
    ensures Ascends(SortByNumber(list))
  {
    if list != [] {
      SortAscends(list[1..]);
      assert forall x | x in SortByNumber(list[1..]) :: x.number != list[0].number;
      InsertAscends(SortByNumber(list[1..]), list[0]);
    }
  }

  predicate Comes(a: string, b: string) {
    exists k | 0 <= k < |a| && k < |b| :: a[..k] == b[..k] && a[k] < b[k]
  }

  /** Numerals of one length are in the same order as texts and as numbers. */
  lemma {:induction false} NumeralsInOrder(a: string, b: string)
    requires |a| == |b| && (forall i | 0 <= i < |a| :: IsDigit(a[i]) && IsDigit(b[i])) && NatOf(a) < NatOf(b)
    ensures Comes(a, b)
  {
    var n := |a| - 1;
    assert IsDigit(a[n]) && IsDigit(b[n]);
    if NatOf(a[..n]) == NatOf(b[..n]) {
      DigitsTellNumber(a[..n], b[..n]);
      assert a[n] < b[n];
    } else {
      NumeralsInOrder(a[..n], b[..n]);
      var k :| 0 <= k < n && a[..n][..k] == b[..n][..k] && a[..n][k] < b[..n][k];
      assert a[..k] == a[..n][..k] && b[..k] == b[..n][..k];
    }
  }

  /** The number, name and content of a file, without the pattern. */
  ghost predicate IsMigrationOf(e: DirEntry, digits: string, m: MigrationInfo) {
    && !e.isDir && e.name == digits + ".sql" && |digits| == 6 && IsNumeral(digits)
    && m.number == NatOf(digits) && m.filename == e.name && m.content == e.content
  }

  lemma InfoIsMigration(e: DirEntry, m: MigrationInfo)
    ensures !e.isDir && IsMigrationName(e.name) && m == Info(e) <==> exists digits :: IsMigrationOf(e, digits, m)
  {
    if IsMigrationName(e.name) {
      assert e.name == e.name[..6] + ".sql";
    }
    if digits :| IsMigrationOf(e, digits, m) {
      assert e.name[..6] == digits && e.name[6..] == ".sql";
      assert forall i | 0 <= i < 6 :: e.name[i] == digits[i];
    }
    if !e.isDir && IsMigrationName(e.name) && m == Info(e) {
      assert IsMigrationOf(e, e.name[..6], m);
    }
  }

  lemma MigrationsInOrder(d: DirEntry, x: string, m: MigrationInfo, e: DirEntry, y: string, n: MigrationInfo)
    requires IsMigrationOf(d, x, m) && IsMigrationOf(e, y, n) && m.number < n.number
    ensures Comes(m.filename, n.filename)
  {
    NumeralsInOrder(x, y);
    var k :| 0 <= k < 6 && x[..k] == y[..k] && x[k] < y[k];
    assert m.filename[..k] == x[..k] && n.filename[..k] == y[..k];
  }

  /**
   * In a directory no two names are equal: the migrations are those of the files named by six digits and .sql,
   * each with its number, name and content, in strictly ascending order of numbers and of names.
   */
  lemma LoadedAscends(entries: seq<DirEntry>)
    requires DistinctNames(entries)
    ensures Ascends(Loaded(entries))
    ensures forall m :: m in Loaded(entries) <==> exists e, digits :: e in entries && IsMigrationOf(e, digits, m)
    ensures forall i, j | 0 <= i < j < |Loaded(entries)| ::
      Comes(Loaded(entries)[i].filename, Loaded(entries)[j].filename)
  {
    CollectedDistinct(entries);
    SortAscends(Collected(entries));
    forall m ensures m in Loaded(entries) <==> exists e, digits :: e in entries && IsMigrationOf(e, digits, m) {
      LoadedAre(entries, m);
    }
    var list := Loaded(entries);
    forall i, j | 0 <= i < j < |list| ensures Comes(list[i].filename, list[j].filename) {
      assert list[i] in list && list[j] in list;
      var d, x :| d in entries && IsMigrationOf(d, x, list[i]);
      var e, y :| e in entries && IsMigrationOf(e, y, list[j]);
      MigrationsInOrder(d, x, list[i], e, y, list[j]);
    }
  }

  lemma LoadedAre(entries: seq<DirEntry>, m: MigrationInfo)
    ensures m in Loaded(entries) <==> exists e, digits :: e in entries && IsMigrationOf(e, digits, m)
  {
    CollectedAre(entries, m);
    forall e: DirEntry
      ensures !e.isDir && IsMigrationName(e.name) && m == Info(e) <==> exists digits :: IsMigrationOf(e, digits, m)
    {
      InfoIsMigration(e, m);
    }
    if e, digits :| e in entries && IsMigrationOf(e, digits, m) {
      assert !e.isDir && IsMigrationName(e.name) && m == Info(e);
    }
  }

  // The database

  /**
   * No schema; a schema without the table; or the table, with the migrations whose transactions committed, in
   * order.
   */
  datatype Db = Absent | Bare | Installed(applied: seq<MigrationInfo>)

  predicate Recorded(applied: seq<MigrationInfo>, id: nat) {
    exists k | 0 <= k < |applied| :: applied[k].number == id
  }

  /** The largest id in the table. */
  function Latest(applied: seq<MigrationInfo>): (n: nat)
    requires applied != []
    ensures Recorded(applied, n) && forall k | 0 <= k < |applied| :: applied[k].number <= n
  {
    var last := applied[|applied| - 1];
    if |applied| == 1 then last.number
    else
      var n := Latest(applied[..|applied| - 1]);
      if last.number > n then last.number else n
  }

  /** A transaction commits, leaves nothing, or commits while the caller sees an error. */
  datatype Outcome = Commits | RollsBack | CommitsUnseen

  /** What goes well in one run: a connection, the query for the latest id, the base schema, and each migration. */
  datatype Run = Run(connects: bool, queries: bool, install: Outcome, migration: nat -> Outcome)

  /** The loop from migration k on. */
  function ApplyFrom(
    list: seq<MigrationInfo>, latest: nat, applied: seq<MigrationInfo>, run: Run, k: nat): (seq<MigrationInfo>, bool)
    requires k <= |list|
    decreases |list| - k
  {
    if k == |list| then (applied, true)
    else if list[k].number <= latest then ApplyFrom(list, latest, applied, run, k + 1)
    else if Recorded(applied, list[k].number) then (applied, false)
    else
      match run.migration(k)
      case RollsBack => (applied, false)
      case CommitsUnseen => (applied + [list[k]], false)
      case Commits => ApplyFrom(list, latest, applied + [list[k]], run, k + 1)
  }

  /** A table without a row makes the query for the latest id fail; an existing schema makes the base schema fail. */
  function Migrated(list: seq<MigrationInfo>, db: Db, run: Run): (Db, bool) {
    if !run.connects || !run.queries then (db, false)
    else
      match db
      case Bare => (Bare, false)
      case Absent => (
        match run.install
        case RollsBack => (Absent, false)
        case CommitsUnseen => (Installed([]), false)
        case Commits => var (applied, ok) := ApplyFrom(list, 0, [], run, 0); (Installed(applied), ok))
      case Installed(applied) =>
        if applied == [] then (db, false)
        else var (more, ok) := ApplyFrom(list, Latest(applied), applied, run, 0); (Installed(more), ok)
  }

  function AfterRuns(list: seq<MigrationInfo>, db: Db, runs: seq<Run>): Db {
    if runs == [] then db
    else Migrated(list, AfterRuns(list, db, runs[..|runs| - 1]), runs[|runs| - 1]).0
  }

  class Migrator {
    const entries: seq<DirEntry>
    var db: Db

    constructor (entries: seq<DirEntry>, db: Db)
      ensures this.entries == entries && this.db == db
    {
      this.entries, this.db := entries, db;
    }

    method LoadMigrations() returns (migrations: seq<MigrationInfo>)
      ensures migrations == Loaded(entries)
    {
      migrations := [];
      for k := 0 to |entries|
        invariant migrations == Collected(entries[..k])
      {
        assert entries[..k + 1][..k] == entries[..k];
        if !entries[k].isDir && IsMigrationName(entries[k].name) {
          migrations := migrations + [Info(entries[k])];
        }
      }
      assert entries[..|entries|] == entries;
      migrations := SortByNumber(migrations);
    }

    /** The latest id and whether the table exists; ok is false if the query fails. */
    method GetLatestMigration() returns (latest: nat, schemaExists: bool, ok: bool)
      ensures schemaExists ==> ok && db.Installed? && Recorded(db.applied, latest)
      ensures schemaExists ==> forall k | 0 <= k < |db.applied| :: db.applied[k].number <= latest
      ensures ok && !schemaExists ==> !db.Installed? && latest == 0
      ensures !ok <==> db == Installed([])
    {
      latest, schemaExists, ok := 0, false, true;
      if db.Installed? {
        if db.applied == [] {
          ok := false;
        } else {
          latest, schemaExists := Latest(db.applied), true;
        }
      }
    }

    method Migrate(run: Run) returns (ok: bool)
      modifies this`db
      ensures (db, ok) == Migrated(Loaded(entries), old(db), run)
    {
      if !run.connects || !run.queries {
        return false;
      }
      var latest, schemaExists, read := GetLatestMigration();
      if !read {
        return false;
      }
      if !schemaExists {
        if db.Bare? || run.install.RollsBack? {
          return false;
        }
        db := Installed([]);
        if run.install.CommitsUnseen? {
          return false;
        }
        latest := 0;
      }
      assert db.applied != [] ==> LatestIs(db.applied, latest);
      var migrations := LoadMigrations();
      ghost var final := ApplyFrom(migrations, latest, db.applied, run, 0);
      for k := 0 to |migrations|
        invariant db.Installed? && ApplyFrom(migrations, latest, db.applied, run, k) == final
      {
        if migrations[k].number > latest {
          if Recorded(db.applied, migrations[k].number) || run.migration(k).RollsBack? {
            return false;
          }
          db := Installed(db.applied + [migrations[k]]);
          if run.migration(k).CommitsUnseen? {
            return false;
          }
        }
      }
      return true;
    }
  }

  predicate LatestIs(applied: seq<MigrationInfo>, n: nat)
    requires applied != []
  {
    Latest(applied) == n
  }

  // The runs

  /** A migration numbered 0 is not above the latest id of an empty table. */
  function Skipped(list: seq<MigrationInfo>): (z: nat)
    ensures z <= |list|
  {
    if list != [] && list[0].number == 0 then 1 else 0
  }

  function Positive(list: seq<MigrationInfo>): seq<MigrationInfo> {
    list[Skipped(list)..]
  }

  predicate IsPrefix(applied: seq<MigrationInfo>, list: seq<MigrationInfo>) {
    applied <= Positive(list)
  }

  lemma {:induction false} ApplySkips(
    list: seq<MigrationInfo>, latest: nat, applied: seq<MigrationInfo>, run: Run, k: nat, p: nat)
    requires k <= p <= |list| && forall i | k <= i < p :: list[i].number <= latest
    ensures ApplyFrom(list, latest, applied, run, k) == ApplyFrom(list, latest, applied, run, p)
    decreases p - k
  {
    if k < p {
      ApplySkips(list, latest, applied, run, k + 1, p);
    }
  }

  lemma SliceStep(list: seq<MigrationInfo>, z: nat, k: nat)
    requires z <= k < |list|
    ensures list[z..k] + [list[k]] == list[z..k + 1]
  {}

  lemma AllOf(list: seq<MigrationInfo>, z: nat)
    requires z <= |list|
    ensures list[z..|list|] == list[z..]
  {}

  /** A run applies the migrations from k to n and stops there, at the end of the list or at the first failure. */
  predicate Stops(run: Run, k: nat, n: nat, end: nat, ok: bool) {
    && (forall i | k <= i < n :: run.migration(i).Commits? || (i == n - 1 && run.migration(i).CommitsUnseen?))
    && (ok <==> n == end && forall i | k <= i < n :: run.migration(i).Commits?)
    && (!ok ==> (n > k && run.migration(n - 1).CommitsUnseen?) || (n < end && run.migration(n).RollsBack?))
  }

  /** From the first migration above the latest on: n of the list are then applied. */
  lemma {:induction false} ApplyContinues(list: seq<MigrationInfo>, latest: nat, run: Run, k: nat) returns (n: nat)
    requires Ascends(list) && Skipped(list) <= k <= |list| && forall i | k <= i < |list| :: list[i].number > latest
    ensures k <= n <= |list|
    ensures ApplyFrom(list, latest, list[Skipped(list)..k], run, k)
      == (list[Skipped(list)..n], n == |list| && ApplyFrom(list, latest, list[Skipped(list)..k], run, k).1)
    ensures n == k <==> k == |list| || run.migration(k).RollsBack?
    ensures (forall i: nat :: run.migration(i).Commits?) ==>
      ApplyFrom(list, latest, list[Skipped(list)..k], run, k) == (Positive(list), true)
    ensures Stops(run, k, n, |list|, ApplyFrom(list, latest, list[Skipped(list)..k], run, k).1)
    decreases |list| - k
  {
    var z := Skipped(list);
    var applied := list[z..k];
    n := k;
    if k < |list| {
      assert !Recorded(applied, list[k].number);
      SliceStep(list, z, k);
      if run.migration(k).Commits? {
        n := ApplyContinues(list, latest, run, k + 1);
      } else if run.migration(k).CommitsUnseen? {
        n := k + 1;
      }
    } else {
      AllOf(list, z);
    }
  }

  lemma PrefixLength(applied: seq<MigrationInfo>, list: seq<MigrationInfo>) returns (k: nat)
    requires IsPrefix(applied, list)
    ensures Skipped(list) <= k <= |list| && applied == list[Skipped(list)..k]
  {
    k := Skipped(list) + |applied|;
    assert Positive(list)[..|applied|] == list[Skipped(list)..k];
  }

  /** Where the loop starts: at the first migration of the list that is not recorded. */
  lemma ResumesAfterPrefix(list: seq<MigrationInfo>, applied: seq<MigrationInfo>, run: Run) returns (k: nat, n: nat)
    requires Ascends(list) && IsPrefix(applied, list)
    ensures Skipped(list) <= k <= n <= |list| && applied == list[Skipped(list)..k]
    ensures var (more, ok) := ApplyFrom(list, if applied == [] then 0 else Latest(applied), applied, run, 0);
      && more == list[Skipped(list)..n]
      && (ok ==> n == |list|)
      && (n == k <==> k == |list| || run.migration(k).RollsBack?)
      && Stops(run, k, n, |list|, ok)
      && ((forall i: nat :: run.migration(i).Commits?) ==> ok)
  {
    var latest := if applied == [] then 0 else Latest(applied);
    k := PrefixLength(applied, list);
    if applied != [] {
      assert applied[|applied| - 1] == list[k - 1];
      assert latest == list[k - 1].number;
    }
    ApplySkips(list, latest, applied, run, 0, k);
    n := ApplyContinues(list, latest, run, k);
  }

  predicate Sound(list: seq<MigrationInfo>, db: Db) {
    db.Installed? ==> IsPrefix(db.applied, list)
  }

  lemma PrefixOfPositive(list: seq<MigrationInfo>, k: nat, n: nat)
    requires Skipped(list) <= k <= n <= |list|
    ensures IsPrefix(list[Skipped(list)..n], list) && list[Skipped(list)..k] <= list[Skipped(list)..n]
    ensures n == |list| <==> list[Skipped(list)..n] == Positive(list)
    ensures n == k <==> list[Skipped(list)..n] == list[Skipped(list)..k]
  {}

  /** The table exists without a row, or cannot be created: no run gets past this. */
  predicate Stuck(db: Db) {
    db == Installed([]) || db == Bare
  }

  /** This run creates the table. */
  predicate Installs(run: Run) {
    run.connects && run.queries && !run.install.RollsBack?
  }

  /** It creates the table, and then does not commit a migration. */
  predicate LeavesItEmpty(list: seq<MigrationInfo>, run: Run) {
    Installs(run) && (run.install.CommitsUnseen? || Positive(list) == [] || run.migration(Skipped(list)).RollsBack?)
  }

  ghost predicate Clean(run: Run) {
    run.connects && run.queries && run.install.Commits? && forall k: nat :: run.migration(k).Commits?
  }

  lemma AbsentRun(list: seq<MigrationInfo>, run: Run)
    requires Ascends(list)
    ensures var (after, ok) := Migrated(list, Absent, run);
      && Sound(list, after)
      && (ok ==> after == Installed(Positive(list)))
      && after == (if Installs(run) then Installed(after.applied) else Absent)
      && (after == Installed([]) <==> LeavesItEmpty(list, run))
      && (Clean(run) ==> ok)
  {
    if run.connects && run.queries && run.install.Commits? {
      var k, n := ResumesAfterPrefix(list, [], run);
      PrefixOfPositive(list, k, n);
    }
  }

  lemma InstalledRun(list: seq<MigrationInfo>, applied: seq<MigrationInfo>, run: Run)
    requires Ascends(list) && IsPrefix(applied, list) && applied != []
    ensures var (after, ok) := Migrated(list, Installed(applied), run);
      && after.Installed? && IsPrefix(after.applied, list) && applied <= after.applied
      && (ok ==> after.applied == Positive(list))
      && (applied == Positive(list) ==> after.applied == applied && ok == (run.connects && run.queries))
      && (Clean(run) ==> ok)
  {
    var k, n := ResumesAfterPrefix(list, applied, run);
    PrefixOfPositive(list, k, n);
    PrefixOfPositive(list, k, k);
  }

  /** From a table with rows: the migrations not recorded yet, in order, up to the first that fails. */
  lemma RunAppliesUntilFailure(list: seq<MigrationInfo>, applied: seq<MigrationInfo>, run: Run) returns (k: nat, n: nat)
    requires Ascends(list) && IsPrefix(applied, list) && applied != [] && run.connects && run.queries
    ensures Skipped(list) <= k <= n <= |list| && applied == list[Skipped(list)..k]
    ensures var (after, ok) := Migrated(list, Installed(applied), run);
      after == Installed(list[Skipped(list)..n]) && Stops(run, k, n, |list|, ok)
  {
    k, n := ResumesAfterPrefix(list, applied, run);
  }

  /** So from no schema, once the base schema is there. */
  lemma FirstRunAppliesUntilFailure(list: seq<MigrationInfo>, run: Run) returns (n: nat)
    requires Ascends(list) && run.connects && run.queries && run.install.Commits?
    ensures Skipped(list) <= n <= |list|
    ensures var (after, ok) := Migrated(list, Absent, run);
      after == Installed(list[Skipped(list)..n]) && Stops(run, Skipped(list), n, |list|, ok)
  {
    var k;
    k, n := ResumesAfterPrefix(list, [], run);
  }

  /** What every run keeps, whatever fails in it: nothing recorded is lost, and success means all of the list. */
  lemma RunKeeps(list: seq<MigrationInfo>, db: Db, run: Run)
    requires Ascends(list) && Sound(list, db)
    ensures var (after, ok) := Migrated(list, db, run);
      && Sound(list, after)
      && (ok ==> after == Installed(Positive(list)))
      && (db.Installed? ==> after.Installed? && db.applied <= after.applied)
      && (Stuck(db) ==> after == db && !ok)
      && (db.Installed? && db.applied == Positive(list) ==> after == db)
      && (!Stuck(db) && Clean(run) ==> ok)
  {
    match db {
      case Absent => AbsentRun(list, run);
      case Bare =>
      case Installed(applied) => if applied != [] { InstalledRun(list, applied, run); }
    }
  }

  // Over any number of runs

  lemma {:induction false} RecordedIsPrefix(list: seq<MigrationInfo>, db: Db, runs: seq<Run>)
    requires Ascends(list) && Sound(list, db)
    ensures Sound(list, AfterRuns(list, db, runs))
    ensures Stuck(db) || (db.Installed? && db.applied == Positive(list)) ==> AfterRuns(list, db, runs) == db
  {
    if runs != [] {
      RecordedIsPrefix(list, db, runs[..|runs| - 1]);
      RunKeeps(list, AfterRuns(list, db, runs[..|runs| - 1]), runs[|runs| - 1]);
    }
  }

  lemma {:induction false} RunsCompose(list: seq<MigrationInfo>, db: Db, runs: seq<Run>, more: seq<Run>)
    ensures AfterRuns(list, db, runs + more) == AfterRuns(list, AfterRuns(list, db, runs), more)
    decreases |more|
  {
    if more == [] {
      assert runs + more == runs;
    } else {
      RunsCompose(list, db, runs, more[..|more| - 1]);
      assert (runs + more)[..|runs + more| - 1] == runs + more[..|more| - 1];
    }
  }

  const CLEAN: Run := Run(true, true, Commits, k => Commits)

  lemma OneRun(list: seq<MigrationInfo>, db: Db, run: Run)
    ensures AfterRuns(list, db, [run]) == Migrated(list, db, run).0
  {}

  /** Exactly when the recorded migrations are always the first ones of the list: a migration 0 is passed over. */
  lemma PrefixOfWholeList(list: seq<MigrationInfo>)
    requires Ascends(list)
    ensures (forall runs :: var db := AfterRuns(list, Absent, runs); db.Installed? ==> db.applied <= list)
         <==> !(|list| >= 2 && list[0].number == 0)
  {
    if |list| >= 2 && list[0].number == 0 {
      AbsentRun(list, CLEAN);
      OneRun(list, Absent, CLEAN);
      assert list[1..][0] == list[1];
    } else {
      forall runs ensures var db := AfterRuns(list, Absent, runs); db.Installed? ==> db.applied <= list {
        RecordedIsPrefix(list, Absent, runs);
      }
    }
  }

  /**
   * However many runs failed before: one that succeeds ends in the schema of a single clean run, and later runs
   * change nothing.
   */
  lemma MigrationsResume(list: seq<MigrationInfo>, runs: seq<Run>, last: Run, more: seq<Run>)
    requires Ascends(list) && Migrated(list, AfterRuns(list, Absent, runs), last).1
    ensures AfterRuns(list, Absent, runs + [last] + more) == Installed(Positive(list))
    ensures Migrated(list, Absent, CLEAN).0 == Installed(Positive(list))
  {
    RecordedIsPrefix(list, Absent, runs);
    RunKeeps(list, AfterRuns(list, Absent, runs), last);
    assert (runs + [last])[..|runs|] == runs;
    RecordedIsPrefix(list, Installed(Positive(list)), more);
    RunsCompose(list, Absent, runs + [last], more);
    AbsentRun(list, CLEAN);
  }

  /** The first run that created the table did not commit a migration. */
  predicate Wedged(list: seq<MigrationInfo>, runs: seq<Run>) {
    exists k | 0 <= k < |runs| :: LeavesItEmpty(list, runs[k]) && forall j | 0 <= j < k :: !Installs(runs[j])
  }

  lemma {:induction false} NothingInstalled(list: seq<MigrationInfo>, runs: seq<Run>)
    requires Ascends(list)
    ensures AfterRuns(list, Absent, runs) == Absent <==> forall j | 0 <= j < |runs| :: !Installs(runs[j])
  {
    if runs != [] {
      var n := |runs| - 1;
      NothingInstalled(list, runs[..n]);
      RecordedIsPrefix(list, Absent, runs[..n]);
      AbsentRun(list, runs[n]);
      RunKeeps(list, AfterRuns(list, Absent, runs[..n]), runs[n]);
      assert forall j | 0 <= j < n :: runs[..n][j] == runs[j];
    }
  }

  lemma WedgedStep(list: seq<MigrationInfo>, runs: seq<Run>, n: nat)
    requires |runs| == n + 1
    ensures Wedged(list, runs) <==>
      Wedged(list, runs[..n]) || (LeavesItEmpty(list, runs[n]) && forall j | 0 <= j < n :: !Installs(runs[j]))
  {}

  /** Exactly when the table is left without a row for good. */
  lemma {:induction false} StuckExactly(list: seq<MigrationInfo>, runs: seq<Run>)
    requires Ascends(list)
    ensures Stuck(AfterRuns(list, Absent, runs)) <==> Wedged(list, runs)
  {
    if runs != [] {
      var n := |runs| - 1;
      var before := AfterRuns(list, Absent, runs[..n]);
      StuckExactly(list, runs[..n]);
      WedgedStep(list, runs, n);
      NothingInstalled(list, runs[..n]);
      assert forall j | 0 <= j < n :: runs[..n][j] == runs[j];
      RecordedIsPrefix(list, Absent, runs[..n]);
      AbsentRun(list, runs[n]);
      RunKeeps(list, before, runs[n]);
    }
  }

  /** A run with nothing failing succeeds exactly if no earlier run left the table empty. */
  lemma RecoversExactly(list: seq<MigrationInfo>, runs: seq<Run>)
    requires Ascends(list)
    ensures Migrated(list, AfterRuns(list, Absent, runs), CLEAN).1 <==> !Wedged(list, runs)
  {
    StuckExactly(list, runs);
    RecordedIsPrefix(list, Absent, runs);
    RunKeeps(list, AfterRuns(list, Absent, runs), CLEAN);
  }
}
