/** Applying the migrations of the embedded directory to a database, each in a transaction
    together with its history row. */
module Migrate {
  import opened Domain
  import opened Text
  import opened SqlStatements
  import opened FileName
  import opened Listing

  const DIR := "migrations"
  const MAX_INT32 := 0x7FFF_FFFF

  /** The embedded directory; `crc` stands for the CRC-32 of a file. */
  datatype Source = Source(entries: seq<DirEntry>, content: string -> string, crc: string -> nat)

  /** A row of flyway_schema_history. */
  datatype Row = Row(
    rank: int,
    version: Option<string>,
    description: string,
    script: string,
    checksum: Option<int>,
    success: bool)

  /** What is durable: the history table and the migration statements executed, in order. */
  datatype Schema = Schema(history: seq<Row>, durable: seq<string>)

  const EMPTY_SCHEMA := Schema([], [])

  function Checksum(src: Source, m: Migration): nat {
    src.crc(src.content(m.path))
  }

  function ScriptName(path: string): string {
    var parts := Split(path, '/');
    parts[|parts| - 1]
  }

  function MaxRank(history: seq<Row>): int {
    if history == [] then 0
    else if |history| == 1 then history[0].rank
    else
      var before := MaxRank(history[..|history| - 1]);
      if history[|history| - 1].rank > before then history[|history| - 1].rank else before
  }

  function RowFor(src: Source, history: seq<Row>, m: Migration): Row {
    Row(MaxRank(history) + 1, Some(m.version), m.description, ScriptName(m.path), Some(Checksum(src, m)), true)
  }

  /** The column widths of the history table. */
  predicate Fits(row: Row) {
    && row.rank <= MAX_INT32
    && (row.version.Some? ==> |row.version.value| <= 50)
    && |row.description| <= 200 && |row.script| <= 1000
    && (row.checksum.Some? ==> row.checksum.value <= MAX_INT32)
  }

  /** The next rank is above every rank in the table, so the primary key is never violated. */
  lemma {:induction false} RankIsFresh(history: seq<Row>)
    ensures forall row | row in history :: row.rank <= MaxRank(history)
    ensures history != [] ==> exists row | row in history :: row.rank == MaxRank(history)
  {
    if |history| > 1 {
      var n := |history| - 1;
      RankIsFresh(history[..n]);
      var best :| best in history[..n] && best.rank == MaxRank(history[..n]);
      assert best in history && history[n] in history;
    } else if history != [] {
      assert history[0] in history;
    }
  }

  lemma LastPart(a: string, sep: char, b: string)
    requires sep !in b
    ensures var parts := Split(a + [sep] + b, sep);
            parts[|parts| - 1] == b
  {
    SplitAtSeparator(a, b, sep);
    SplitWithoutSeparator(b, sep);
  }

  /** The script of a listed migration is its file name. */
  lemma ScriptIsFileName(dir: string, fileName: string)
    requires '/' !in fileName
    ensures ScriptName(dir + "/" + fileName) == fileName
  {
    LastPart(dir, '/', fileName);
  }

  // ---- The applied versions ----

  predicate Counts(row: Row) {
    row.success && row.version.Some?
  }

  /** A row that counts but holds no checksum cannot be read. */
  predicate Scannable(history: seq<Row>) {
    forall row | row in history && Counts(row) :: row.checksum.Some?
  }

  function Applied(history: seq<Row>): map<string, int> {
    if history == [] then map[]
    else
      var before, row := Applied(history[..|history| - 1]), history[|history| - 1];
      if Counts(row) && row.checksum.Some? then before[row.version.value := row.checksum.value] else before
  }

  /** Row `k` is the last successful one with this version and a checksum. */
  ghost predicate LastApplied(history: seq<Row>, version: string, k: int) {
    && 0 <= k < |history|
    && history[k].success && history[k].version == Some(version) && history[k].checksum.Some?
    && forall j | k < j < |history| ::
         !(history[j].success && history[j].version == Some(version) && history[j].checksum.Some?)
  }

  /** A version is applied exactly if a successful row says so, whatever failed rows say, and the last
      such row's checksum counts. */
  lemma {:induction false} AppliedIsRecorded(history: seq<Row>, version: string)
    ensures version in Applied(history) <==> exists k :: LastApplied(history, version, k)
    ensures forall k | LastApplied(history, version, k) :: Applied(history)[version] == history[k].checksum.value
  {
    if history != [] {
      var n := |history| - 1;
      AppliedIsRecorded(history[..n], version);
      var row := history[n];
      if row.success && row.version == Some(version) && row.checksum.Some? {
        assert LastApplied(history, version, n);
      } else {
        forall k ensures LastApplied(history, version, k) <==> LastApplied(history[..n], version, k) {}
      }
    }
  }

  /** Only a successful row with a version and no checksum stops the reading. */
  lemma ScannableMeaning(history: seq<Row>)
    ensures Scannable(history) <==>
            forall row | row in history :: row.success && row.version.Some? ==> row.checksum.Some?
  {
  }

  /** A row is taken exactly if rank and checksum are 32-bit signed and the texts no longer than the
      columns. */
  lemma FitsMeaning(src: Source, history: seq<Row>, m: Migration)
    ensures Fits(RowFor(src, history, m)) <==>
            && MaxRank(history) < 2147483647 && src.crc(src.content(m.path)) < 2147483648
            && |m.version| <= 50 && |m.description| <= 200 && |ScriptName(m.path)| <= 1000
  {
  }

  // ---- One uninterrupted migration ----

  function AddMigration(src: Source, s: Schema, m: Migration): Schema {
    Schema(s.history + [RowFor(src, s.history, m)], s.durable + Statements(src.content(m.path)))
  }

  /** `step` taken with each of the first `j` migrations that `applied` does not hold. */
  function TakeSteps<S>(step: (S, Migration) -> S, ms: seq<Migration>, applied: map<string, int>, s: S, j: nat): S
    requires j <= |ms|
  {
    if j == 0 then s
    else
      var before := TakeSteps(step, ms, applied, s, j - 1);
      if ms[j - 1].version in applied then before else step(before, ms[j - 1])
  }

  function Adding(src: Source): (Schema, Migration) -> Schema {
    (s, m) => AddMigration(src, s, m)
  }

  /** The schema once the first `j` migrations have been gone through, those in `applied` skipped. */
  function Advance(src: Source, ms: seq<Migration>, applied: map<string, int>, s: Schema, j: nat): Schema
    requires j <= |ms|
  {
    TakeSteps(Adding(src), ms, applied, s, j)
  }

  lemma AdvanceStep(src: Source, ms: seq<Migration>, applied: map<string, int>, s: Schema, j: nat)
    requires 0 < j <= |ms|
    ensures var before := Advance(src, ms, applied, s, j - 1);
            Advance(src, ms, applied, s, j) ==
            if ms[j - 1].version in applied then before else AddMigration(src, before, ms[j - 1])
  {
  }

  predicate Matches(src: Source, applied: map<string, int>, m: Migration) {
    m.version in applied ==> applied[m.version] == Checksum(src, m)
  }

  predicate MatchBefore(src: Source, ms: seq<Migration>, applied: map<string, int>, j: nat)
    requires j <= |ms|
  {
    forall i | 0 <= i < j :: Matches(src, applied, ms[i])
  }

  datatype Outcome =
    | Migrated
    | CallFailed
    | ListingFailed(error: ListError)
    | UnreadableHistory
    | ChecksumMismatch(position: nat)

  /** From `s` the first `j` migrations were gone through, which left `s'` and met no mismatch. */
  ghost predicate GotThrough(src: Source, ms: seq<Migration>, applied: map<string, int>, s: Schema, s': Schema, j: nat) {
    j <= |ms| && s' == Advance(src, ms, applied, s, j) && MatchBefore(src, ms, applied, j)
  }

  /** What a run of `Migrate` that got through `reached` migrations means. */
  ghost predicate RunResult(src: Source, ms: seq<Migration>, s: Schema, s': Schema, r: Outcome, reached: nat) {
    && GotThrough(src, ms, Applied(s.history), s, s', reached)
    && (r.Migrated? ==> reached == |ms| && Scannable(s.history))
    && (r.ChecksumMismatch? ==>
          reached == r.position < |ms| && !Matches(src, Applied(s.history), ms[r.position]))
    && (r.UnreadableHistory? ==> !Scannable(s.history) && reached == 0)
    && !r.ListingFailed?
  }

  /** The next migration is pending and its history row is refused by the table. */
  predicate Misfit(src: Source, ms: seq<Migration>, s: Schema, s': Schema, reached: nat) {
    && reached < |ms| && ms[reached].version !in Applied(s.history)
    && !Fits(RowFor(src, s'.history, ms[reached]))
  }

  lemma GetsThrough(src: Source, ms: seq<Migration>, applied: map<string, int>, s: Schema, m: Schema, s': Schema, j: nat)
    requires j < |ms| && GotThrough(src, ms, applied, s, m, j) && Matches(src, applied, ms[j])
    requires s' == if ms[j].version in applied then m else AddMigration(src, m, ms[j])
    ensures GotThrough(src, ms, applied, s, s', j + 1)
  {
  }

  lemma AddedIsApplied(src: Source, s: Schema, m: Migration)
    ensures Applied(AddMigration(src, s, m).history) == Applied(s.history)[m.version := Checksum(src, m)]
  {
    var row := RowFor(src, s.history, m);
    assert (s.history + [row])[..|s.history|] == s.history;
  }

  /** The applied versions once the first `n` migrations have been gone through. */
  function AppliedWith(src: Source, ms: seq<Migration>, applied: map<string, int>, n: nat): map<string, int>
    requires n <= |ms|
  {
    if n == 0 then applied
    else
      var before := AppliedWith(src, ms, applied, n - 1);
      if ms[n - 1].version in applied then before else before[ms[n - 1].version := Checksum(src, ms[n - 1])]
  }

  lemma {:induction false} AppliedAfter(src: Source, ms: seq<Migration>, s: Schema, applied: map<string, int>, n: nat)
    requires n <= |ms| && applied == Applied(s.history)
    ensures Applied(Advance(src, ms, applied, s, n).history) == AppliedWith(src, ms, applied, n)
  {
    if n > 0 {
      AppliedAfter(src, ms, s, applied, n - 1);
      AdvanceStep(src, ms, applied, s, n);
      if ms[n - 1].version !in applied {
        AddedIsApplied(src, Advance(src, ms, applied, s, n - 1), ms[n - 1]);
      }
    }
  }

  /** Of the listed versions those applied before and the first `n` are applied then, the pending
      ones with their own checksums. */
  lemma {:induction false} AppliedMeaning(src: Source, ms: seq<Migration>, applied: map<string, int>, n: nat)
    requires n <= |ms| && DistinctVersions(ms)
    ensures var after := AppliedWith(src, ms, applied, n);
            && (forall v | v in applied :: v in after && after[v] == applied[v])
            && (forall i | 0 <= i < |ms| :: ms[i].version in after <==> i < n || ms[i].version in applied)
            && (forall i | 0 <= i < n && ms[i].version !in applied :: after[ms[i].version] == Checksum(src, ms[i]))
  {
    if n > 0 { AppliedMeaning(src, ms, applied, n - 1); }
  }

  /** Once the whole list was gone through every listed version is recorded with its file's checksum. */
  lemma MigratedMatches(src: Source, ms: seq<Migration>, s: Schema, s': Schema)
    requires DistinctVersions(ms) && GotThrough(src, ms, Applied(s.history), s, s', |ms|)
    ensures forall m | m in ms :: m.version in Applied(s'.history) && Applied(s'.history)[m.version] == src.crc(src.content(m.path))
  {
    AppliedAfter(src, ms, s, Applied(s.history), |ms|);
    AppliedMeaning(src, ms, Applied(s.history), |ms|);
    forall m | m in ms ensures m.version in Applied(s'.history) && Applied(s'.history)[m.version] == src.crc(src.content(m.path)) {
      var i :| 0 <= i < |ms| && ms[i] == m;
      assert Matches(src, Applied(s.history), ms[i]);
    }
  }

  class Migrator {
    const src: Source
    const sort: Sorter
    /** Whether every call that can succeed does. */
    const reliable: bool
    var schema: Schema
    /** Every migration statement ever sent, committed or not. */
    var sent: seq<string>

    constructor (src: Source, sort: Sorter, reliable: bool, schema: Schema)
      ensures this.src == src && this.sort == sort && this.reliable == reliable
      ensures this.schema == schema && sent == []
    {
      this.src := src;
      this.sort := sort;
      this.reliable := reliable;
      this.schema := schema;
      sent := [];
    }

    method LoadAppliedMigrations() returns (applied: map<string, int>, ok: bool)
      ensures ok ==> applied == Applied(schema.history)
      ensures ok <==> Scannable(schema.history)
    {
      var rows := schema.history;
      applied := map[];
      for i := 0 to |rows|
        invariant applied == Applied(rows[..i]) && Scannable(rows[..i])
      {
        assert rows[..i + 1][..i] == rows[..i];
        var row := rows[i];
        if Counts(row) {
          if row.checksum.None? { return applied, false; }
          applied := applied[row.version.value := row.checksum.value];
        }
      }
      assert rows[..|rows|] == rows;
      ok := true;
    }

    /** All statements and the history row in one transaction: all of it becomes durable or none.
        A commit that lands may report an error. */
    method ApplyMigration(m: Migration) returns (ok: bool, ghost landed: bool)
      modifies this
      ensures schema == if landed then AddMigration(src, old(schema), m) else old(schema)
      ensures landed ==> schema.durable == old(schema).durable + Statements(src.content(m.path))
      ensures landed ==> schema.history == old(schema).history +
                                           [Row(MaxRank(old(schema).history) + 1, Some(m.version), m.description,
                                                ScriptName(m.path), Some(src.crc(src.content(m.path))), true)]
      ensures ok ==> landed
      ensures landed ==> Fits(RowFor(src, old(schema).history, m))
      ensures reliable && Fits(RowFor(src, old(schema).history, m)) ==> ok
      ensures old(sent) <= sent
    {
      ok, landed := false, false;
      var began: bool := *;
      if !began && !reliable { return; }
      var pending: seq<string> := [];
      var statements := SplitSqlStatements(src.content(m.path));
      for i := 0 to |statements|
        invariant pending == statements[..i]
        invariant old(sent) <= sent && schema == old(schema)
      {
        sent := sent + [statements[i]];
        var executed: bool := *;
        if !executed && !reliable { return; }
        pending := pending + [statements[i]];
      }
      var row := RowFor(src, schema.history, m);
      var inserted: bool := *;
      if (!inserted && !reliable) || !Fits(row) { return; }
      var committed: bool := *;
      if !committed && !reliable { return; }
      schema := Schema(schema.history + [row], schema.durable + pending);
      landed := true;
      var reported: bool := *;
      ok := reported || reliable;
    }

    /** One migration of the list: checked when it is applied, applied when it is not. `start` is
        what the run found. */
    method CheckOrApply(migrations: seq<Migration>, j: nat, applied: map<string, int>, ghost start: Schema)
      returns (r: Outcome, ghost passed: bool)
      requires j < |migrations| && GotThrough(src, migrations, applied, start, schema, j)
      modifies this
      ensures GotThrough(src, migrations, applied, start, schema, if passed then j + 1 else j)
      ensures r.Migrated? ==> passed
      ensures r.Migrated? || r.CallFailed? || (r == ChecksumMismatch(j) && !Matches(src, applied, migrations[j]) && !passed)
      ensures reliable && r.CallFailed? ==>
                !passed && migrations[j].version !in applied && !Fits(RowFor(src, schema.history, migrations[j]))
      ensures old(sent) <= sent
      ensures migrations[j].version in applied ==> sent == old(sent)
    {
      var m := migrations[j];
      var read: bool := *;
      if !read && !reliable { return CallFailed, false; }
      var checksum := src.crc(src.content(m.path));
      if m.version in applied {
        if applied[m.version] != checksum { return ChecksumMismatch(j), false; }
        GetsThrough(src, migrations, applied, start, schema, schema, j);
        return Migrated, true;
      }
      ghost var before := schema;
      var ok;
      ok, passed := ApplyMigration(m);
      if passed { GetsThrough(src, migrations, applied, start, before, schema, j); }
      r := if ok then Migrated else CallFailed;
    }

    /** The loop over the sorted list: check what is applied, apply what is not. */
    method ApplyPending(migrations: seq<Migration>, applied: map<string, int>) returns (r: Outcome, ghost reached: nat)
      requires applied == Applied(schema.history) && Scannable(schema.history)
      modifies this
      ensures RunResult(src, migrations, old(schema), schema, r, reached)
      ensures reliable && r.CallFailed? ==> Misfit(src, migrations, old(schema), schema, reached)
      ensures !r.UnreadableHistory?
      ensures old(sent) <= sent
      ensures (forall m | m in migrations :: m.version in applied) ==> sent == old(sent)
    {
      reached := 0;
      for j := 0 to |migrations|
        invariant reached == j
        invariant GotThrough(src, migrations, applied, old(schema), schema, j)
        invariant old(sent) <= sent
        invariant (forall m | m in migrations :: m.version in applied) ==> sent == old(sent)
      {
        assert migrations[j] in migrations;
        ghost var passed;
        r, passed := CheckOrApply(migrations, j, applied, old(schema));
        if passed { reached := j + 1; }
        if !r.Migrated? { return; }
      }
      r := Migrated;
    }

    /** From any history and whatever fails: the durable effect is that of an uninterrupted
        migration stopped at some point, nil means the whole list was gone through, and a mismatch
        stops before its migration and is never passed. */
    method Migrate() returns (r: Outcome, ghost reached: nat)
      modifies this
      ensures ListingOf(sort, src.entries, DIR).ListFailed? ==> schema == old(schema) && !r.Migrated?
      ensures ListingOf(sort, src.entries, DIR).Listed? ==>
                RunResult(src, ListingOf(sort, src.entries, DIR).migrations, old(schema), schema, r, reached)
      ensures reliable ==>
                match ListingOf(sort, src.entries, DIR)
                case ListFailed(error) => r == ListingFailed(error)
                case Listed(ms) =>
                  if Scannable(old(schema).history) then r.CallFailed? ==> Misfit(src, ms, old(schema), schema, reached)
                  else r.UnreadableHistory?
      ensures r.Migrated? ==>
                forall m | m in ListingOf(sort, src.entries, DIR).migrations ::
                  m.version in Applied(schema.history)
                  && Applied(schema.history)[m.version] == src.crc(src.content(m.path))
      ensures old(sent) <= sent
      ensures ListingOf(sort, src.entries, DIR).Listed?
              && (forall m | m in ListingOf(sort, src.entries, DIR).migrations :: m.version in Applied(old(schema).history)) ==>
                sent == old(sent)
    {
      reached := 0;
      var locked: bool := *;
      if !locked && !reliable { return CallFailed, 0; }
      var ensured: bool := *;
      if !ensured && !reliable { return CallFailed, 0; }
      var listed := ListMigrations(sort, src.entries, DIR);
      if listed.ListFailed? { return ListingFailed(listed.error), 0; }
      var migrations := listed.migrations;
      var queried: bool := *;
      if !queried && !reliable { return CallFailed, 0; }
      var applied, scanned := LoadAppliedMigrations();
      if !scanned { return UnreadableHistory, 0; }
      ghost var before := schema;
      r, reached := ApplyPending(migrations, applied);
      if r.Migrated? {
        ListedVersionsAreDistinct(sort, src.entries, DIR);
        MigratedMatches(src, migrations, before, schema);
      }
    }
  }

  /** Every listed migration is a file of the directory, under its path in the embedded tree. */
  lemma ListedPath(sort: Sorter, src: Source, m: Migration)
    requires ListingOf(sort, src.entries, DIR).Listed? && m in ListingOf(sort, src.entries, DIR).migrations
    ensures exists e | e in src.entries :: IsMigrationFile(e) && m.path == "migrations/" + e.name
  {
    ListingMeaning(sort, src.entries, src.entries, DIR);
    assert m in multiset(ListingOf(sort, src.entries, DIR).migrations);
    EntryExists(src.entries, DIR, m);
    var e :| ReadFrom(src.entries, DIR, e, m);
    NameMeaning(e.name, DIR);
    assert "migrations" + "/" == "migrations/";
  }

  // ---- Stopping and resuming ----

  /** Migrations already applied change nothing. */
  lemma {:induction false} NoSteps<S>(
    step: (S, Migration) -> S,
    ms: seq<Migration>,
    applied: map<string, int>,
    s: S,
    j: nat)
    requires j <= |ms| && forall i | 0 <= i < j :: ms[i].version in applied
    ensures TakeSteps(step, ms, applied, s, j) == s
  {
    if j > 0 { NoSteps(step, ms, applied, s, j - 1); }
  }

  /** Beyond the place where the earlier run stopped both go on alike. */
  lemma {:induction false} StepsBeyond<S>(
    step: (S, Migration) -> S,
    ms: seq<Migration>,
    applied: map<string, int>,
    after: map<string, int>,
    s: S,
    n: nat,
    j: nat)
    requires n <= j <= |ms|
    requires forall i | 0 <= i < |ms| :: ms[i].version in after <==> i < n || ms[i].version in applied
    ensures TakeSteps(step, ms, after, TakeSteps(step, ms, applied, s, n), j) == TakeSteps(step, ms, applied, s, j)
  {
    if j == n {
      NoSteps(step, ms, after, TakeSteps(step, ms, applied, s, n), j);
    } else {
      StepsBeyond(step, ms, applied, after, s, n, j - 1);
    }
  }

  /** A run that starts where an earlier one stopped does what the earlier one would have gone on
      to do: the two together are one uninterrupted run. */
  lemma Resume(src: Source, ms: seq<Migration>, s: Schema, n: nat, j: nat)
    requires n <= |ms| && j <= |ms| && DistinctVersions(ms)
    ensures var stopped := Advance(src, ms, Applied(s.history), s, n);
            Advance(src, ms, Applied(stopped.history), stopped, j) ==
            Advance(src, ms, Applied(s.history), s, if n < j then j else n)
  {
    AppliedAfter(src, ms, s, Applied(s.history), n);
    AppliedMeaning(src, ms, Applied(s.history), n);
    var after := AppliedWith(src, ms, Applied(s.history), n);
    if n < j {
      StepsBeyond(Adding(src), ms, Applied(s.history), after, s, n, j);
    } else {
      NoSteps(Adding(src), ms, after, Advance(src, ms, Applied(s.history), s, n), j);
    }
  }

  /** Resuming neither hides a mismatch nor makes one up. */
  lemma ResumeMatches(src: Source, ms: seq<Migration>, s: Schema, n: nat, j: nat)
    requires n <= |ms| && j <= |ms| && DistinctVersions(ms) && MatchBefore(src, ms, Applied(s.history), n)
    ensures MatchBefore(src, ms, Applied(Advance(src, ms, Applied(s.history), s, n).history), j) <==>
            MatchBefore(src, ms, Applied(s.history), j)
  {
    AppliedAfter(src, ms, s, Applied(s.history), n);
    AppliedMeaning(src, ms, Applied(s.history), n);
    var before, after := Applied(s.history), AppliedWith(src, ms, Applied(s.history), n);
    forall i | 0 <= i < |ms| ensures Matches(src, after, ms[i]) <==> Matches(src, before, ms[i]) {}
  }

  /** Two runs, one behind the other, are one. */
  lemma ResumedRun(src: Source, ms: seq<Migration>, s: Schema, m: Schema, s': Schema, n: nat, j: nat)
    requires DistinctVersions(ms)
    requires GotThrough(src, ms, Applied(s.history), s, m, n) && GotThrough(src, ms, Applied(m.history), m, s', j)
    ensures GotThrough(src, ms, Applied(s.history), s, s', if n < j then j else n)
  {
    Resume(src, ms, s, n, j);
    ResumeMatches(src, ms, s, n, j);
  }

  // ---- What an uninterrupted run leaves ----

  function AllStatements(src: Source, ms: seq<Migration>): seq<string> {
    if ms == [] then []
    else AllStatements(src, ms[..|ms| - 1]) + Statements(src.content(ms[|ms| - 1].path))
  }

  /** The history of `n` migrations from nothing: one row a migration, with ranks 1, 2, 3 ... */
  ghost predicate PrefixHistory(src: Source, ms: seq<Migration>, history: seq<Row>) {
    && |history| <= |ms|
    && forall i | 0 <= i < |history| ::
         history[i] == Row(i + 1, Some(ms[i].version), ms[i].description, ScriptName(ms[i].path),
                           Some(src.crc(src.content(ms[i].path))), true)
  }

  lemma {:induction false} RanksCount(src: Source, ms: seq<Migration>, history: seq<Row>)
    requires PrefixHistory(src, ms, history)
    ensures MaxRank(history) == |history|
  {
    if |history| > 1 { RanksCount(src, ms, history[..|history| - 1]); }
  }

  lemma PrefixGrows(src: Source, ms: seq<Migration>, s: Schema)
    requires |s.history| < |ms| && PrefixHistory(src, ms, s.history)
    requires s.durable == AllStatements(src, ms[..|s.history|])
    ensures var s' := AddMigration(src, s, ms[|s.history|]);
            && |s'.history| == |s.history| + 1 && PrefixHistory(src, ms, s'.history)
            && s'.durable == AllStatements(src, ms[..|s'.history|])
  {
    var n := |s.history|;
    RanksCount(src, ms, s.history);
    assert ms[..n + 1][..n] == ms[..n];
  }

  /** From an empty database the history is a prefix of the sorted list and the durable statements
      are that prefix's statements in order. */
  lemma {:induction false} PrefixFromEmpty(src: Source, ms: seq<Migration>, n: nat)
    requires n <= |ms|
    ensures var s := Advance(src, ms, map[], EMPTY_SCHEMA, n);
            |s.history| == n && PrefixHistory(src, ms, s.history) && s.durable == AllStatements(src, ms[..n])
  {
    if n > 0 {
      PrefixFromEmpty(src, ms, n - 1);
      var before := Advance(src, ms, map[], EMPTY_SCHEMA, n - 1);
      PrefixGrows(src, ms, before);
      AdvanceStep(src, ms, map[], EMPTY_SCHEMA, n);
      assert Advance(src, ms, map[], EMPTY_SCHEMA, n) == AddMigration(src, before, ms[n - 1]);
    } else {
      assert Advance(src, ms, map[], EMPTY_SCHEMA, 0) == EMPTY_SCHEMA;
    }
  }

  /** The first mismatch at position `k`: no run is nil, none touches `k` or anything behind it, and
      one that reports it has applied exactly the pending migrations before it. */
  lemma MismatchGuards(src: Source, ms: seq<Migration>, s: Schema, s': Schema, r: Outcome, reached: nat, k: nat)
    requires RunResult(src, ms, s, s', r, reached)
    requires k < |ms| && ms[k].version in Applied(s.history)
    requires Applied(s.history)[ms[k].version] != src.crc(src.content(ms[k].path))
    requires MatchBefore(src, ms, Applied(s.history), k)
    ensures !r.Migrated? && reached <= k
    ensures r.ChecksumMismatch? ==> r.position == k && s' == Advance(src, ms, Applied(s.history), s, k)
  {
    assert !Matches(src, Applied(s.history), ms[k]);
  }
}
