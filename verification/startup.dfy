/** `migrateWithRetry`: migrating again until it works or time is up, in idealised time. */
module Startup {
  import opened Domain
  import opened FileName
  import opened Listing
  import opened Migrate

  ghost predicate StoppedAt(src: Source, ms: seq<Migration>, s: Schema, s': Schema, n: nat) {
    GotThrough(src, ms, Applied(s.history), s, s', n)
  }

  ghost predicate Stopped(src: Source, ms: seq<Migration>, s: Schema, s': Schema) {
    exists n: nat :: StoppedAt(src, ms, s, s', n)
  }

  /** All runs so far, together, are one uninterrupted run from `s` stopped at some point. */
  ghost predicate OneRun(sort: Sorter, src: Source, s: Schema, s': Schema) {
    match ListingOf(sort, src.entries, DIR)
    case ListFailed(_) => s' == s
    case Listed(ms) => Stopped(src, ms, s, s')
  }

  /** The whole list was gone through. */
  ghost predicate Complete(sort: Sorter, src: Source, s: Schema, s': Schema) {
    && ListingOf(sort, src.entries, DIR).Listed?
    && var ms := ListingOf(sort, src.entries, DIR).migrations;
       StoppedAt(src, ms, s, s', |ms|)
  }

  lemma GoesOn(src: Source, ms: seq<Migration>, s: Schema, m: Schema, s': Schema, reached: nat)
    requires DistinctVersions(ms) && Stopped(src, ms, s, m) && StoppedAt(src, ms, m, s', reached)
    ensures Stopped(src, ms, s, s')
    ensures reached == |ms| ==> StoppedAt(src, ms, s, s', |ms|)
  {
    var n: nat :| StoppedAt(src, ms, s, m, n);
    ResumedRun(src, ms, s, m, s', n, reached);
    assert StoppedAt(src, ms, s, s', if n < reached then reached else n);
  }

  /** Whatever a further run returns, the whole series is still one run, and nil means complete. */
  lemma NextRun(sort: Sorter, src: Source, s: Schema, m: Schema, s': Schema, r: Outcome, reached: nat)
    requires OneRun(sort, src, s, m)
    requires ListingOf(sort, src.entries, DIR).ListFailed? ==> s' == m && !r.Migrated?
    requires ListingOf(sort, src.entries, DIR).Listed? ==>
               && StoppedAt(src, ListingOf(sort, src.entries, DIR).migrations, m, s', reached)
               && (r.Migrated? ==> reached == |ListingOf(sort, src.entries, DIR).migrations|)
    ensures OneRun(sort, src, s, s')
    ensures r.Migrated? ==> Complete(sort, src, s, s')
  {
    if ListingOf(sort, src.entries, DIR).Listed? {
      ListedVersionsAreDistinct(sort, src.entries, DIR);
      GoesOn(src, ListingOf(sort, src.entries, DIR).migrations, s, m, s', reached);
    }
  }

  /** The time `n` waits take. */
  function Waits(n: nat, interval: int): int {
    if n == 0 then 0 else Waits(n - 1, interval) + interval
  }

  predicate FewEnough(attempts: nat, maxWait: int, interval: int)
    requires interval > 0
  {
    if maxWait < 0 then attempts == 1 else attempts <= maxWait / interval + 1
  }

  /** How long a wait takes: not at all for an interval of zero or less. */
  function Pause(retryInterval: int): nat {
    if retryInterval > 0 then retryInterval else 0
  }

  /** The least time from the start of one attempt to the next. Without waits between them an attempt
      is taken to last one unit of time at least. */
  function Pace(retryInterval: int): nat {
    if retryInterval > 0 then retryInterval else 1
  }

  /** Time passes during the attempt; then, unless the deadline comes first, one wait more. */
  method WaitAgain(started: int, maxWait: int, retryInterval: int)
    returns (now: int, again: bool, ghost finished: int, ghost cancelled: bool)
    ensures finished >= started + Pace(retryInterval) - Pause(retryInterval)
    ensures again ==> now == finished + (if retryInterval > 0 then retryInterval else 0) <= maxWait
    ensures again ==> now >= started + Pace(retryInterval)
    ensures !again ==> now == finished && (cancelled || now + Pause(retryInterval) >= maxWait)
  {
    var duration: int := *;
    var least := Pace(retryInterval) - Pause(retryInterval);
    now := started + if duration > least then duration else least;
    finished := now;
    // The parent context may be cancelled at any time, during the attempt or the wait.
    var stop: bool := *;
    cancelled := stop;
    if stop || now >= maxWait { return now, false, finished, cancelled; }
    var fires := now + Pause(retryInterval);
    if fires > maxWait { return now, false, finished, cancelled; }
    // At the very deadline either channel may be picked.
    if fires == maxWait {
      var deadlineFirst: bool := *;
      if deadlineFirst { return now, false, finished, cancelled; }
    }
    return fires, true, finished, cancelled;
  }

  lemma NotStarted(sort: Sorter, src: Source, s: Schema)
    ensures OneRun(sort, src, s, s)
  {
    if ListingOf(sort, src.entries, DIR).Listed? {
      assert StoppedAt(src, ListingOf(sort, src.entries, DIR).migrations, s, s, 0);
    }
  }

  lemma QuotientBound(k: nat, n: nat, d: nat)
    requires d > 0 && k * d <= n
    ensures k <= n / d
  {
    var q := n / d;
    assert n == q * d + n % d;
    assert k > q ==> (k - q - 1) * d >= 0;
    assert k * d == q * d + d + (k - q - 1) * d;
  }

  lemma {:induction false} WaitsMultiply(n: nat, interval: int)
    ensures Waits(n, interval) == n * interval
  {
    if n > 0 { WaitsMultiply(n - 1, interval); }
  }

  lemma AttemptsFit(attempts: nat, started: int, maxWait: int, interval: int)
    requires interval > 0 && attempts >= 1
    requires started >= Waits(attempts - 1, interval)
    requires attempts > 1 ==> started <= maxWait
    ensures FewEnough(attempts, maxWait, interval)
  {
    if attempts > 1 {
      var k := attempts - 1;
      WaitsMultiply(k, interval);
      assert k * interval >= interval;
      QuotientBound(k, maxWait, interval);
    }
  }

  /** From any database: once a run has returned nil every listed version is recorded with its file's
      checksum. */
  lemma CompleteMatches(sort: Sorter, src: Source, s: Schema, s': Schema)
    requires Complete(sort, src, s, s')
    ensures forall m | m in ListingOf(sort, src.entries, DIR).migrations ::
              m.version in Applied(s'.history) && Applied(s'.history)[m.version] == src.crc(src.content(m.path))
  {
    ListedVersionsAreDistinct(sort, src.entries, DIR);
    MigratedMatches(src, ListingOf(sort, src.entries, DIR).migrations, s, s');
  }

  /** One attempt more in a series that began at `start`. */
  method AttemptOnce(migrator: Migrator, ghost start: Schema) returns (r: Outcome)
    requires OneRun(migrator.sort, migrator.src, start, migrator.schema)
    modifies migrator
    ensures OneRun(migrator.sort, migrator.src, start, migrator.schema)
    ensures r.Migrated? ==> Complete(migrator.sort, migrator.src, start, migrator.schema)
  {
    ghost var before := migrator.schema;
    ghost var reached;
    r, reached := migrator.Migrate();
    NextRun(migrator.sort, migrator.src, start, before, migrator.schema, r, reached);
  }

  /** Attempts start at least one interval apart, and none but the first starts after the deadline. */
  method MigrateWithRetry(migrator: Migrator, maxWait: int, retryInterval: int)
    returns (last: Outcome, attempts: nat, ghost results: seq<Outcome>, ghost ended: int, ghost cancelled: bool)
    modifies migrator
    ensures attempts >= 1 && (maxWait < 0 ==> attempts == 1)
    ensures maxWait >= 0 && retryInterval > 0 ==> attempts <= maxWait / retryInterval + 1
    ensures maxWait >= 0 && retryInterval <= 0 ==> attempts <= maxWait + 1
    ensures |results| == attempts && last == results[attempts - 1]
    ensures forall i | 0 <= i < attempts - 1 :: !results[i].Migrated?
    ensures !last.Migrated? && !cancelled ==> ended + (if retryInterval > 0 then retryInterval else 0) >= maxWait
    ensures OneRun(migrator.sort, migrator.src, old(migrator.schema), migrator.schema)
    ensures last.Migrated? ==> Complete(migrator.sort, migrator.src, old(migrator.schema), migrator.schema)
  {
    var now: int := 0;
    attempts, results, ended, cancelled := 0, [], 0, false;
    NotStarted(migrator.sort, migrator.src, migrator.schema);
    while true
      invariant now >= Waits(attempts, Pace(retryInterval))
      invariant attempts > 0 ==> now <= maxWait
      invariant |results| == attempts && forall r | r in results :: !r.Migrated?
      invariant OneRun(migrator.sort, migrator.src, old(migrator.schema), migrator.schema)
      decreases if attempts == 0 then 1 else 0, if now > maxWait then 0 else maxWait - now
    {
      last := AttemptOnce(migrator, old(migrator.schema));
      attempts, results := attempts + 1, results + [last];
      AttemptsFit(attempts, now, maxWait, Pace(retryInterval));
      if last.Migrated? { return; }
      var again;
      ghost var finished;
      now, again, finished, cancelled := WaitAgain(now, maxWait, retryInterval);
      ended := now;
      if !again { return; }
    }
  }

  /** From an empty database a series of runs leaves a prefix of the list, each migration once and in
      order, and it is complete exactly when that prefix is the whole list. */
  lemma SeriesFromEmpty(sort: Sorter, src: Source, s: Schema)
    requires OneRun(sort, src, EMPTY_SCHEMA, s) && ListingOf(sort, src.entries, DIR).Listed?
    ensures var ms := ListingOf(sort, src.entries, DIR).migrations;
            && PrefixHistory(src, ms, s.history)
            && s.durable == AllStatements(src, ms[..|s.history|])
            && (Complete(sort, src, EMPTY_SCHEMA, s) <==> |s.history| == |ms|)
  {
    var ms := ListingOf(sort, src.entries, DIR).migrations;
    var n: nat :| StoppedAt(src, ms, EMPTY_SCHEMA, s, n);
    assert Applied([]) == map[];
    PrefixFromEmpty(src, ms, n);
    PrefixFromEmpty(src, ms, |ms|);
  }

  /** A file whose text was changed after it was applied: once the first source was gone through, no
      run over the second one returns nil. */
  lemma EditedFileIsCaught(
    sort: Sorter,
    first: Source,
    second: Source,
    s: Schema,
    applied: Schema,
    after: Schema,
    r: Outcome,
    reached: nat,
    m: Migration)
    requires Complete(sort, first, s, applied) && second == first.(content := second.content)
    requires m in ListingOf(sort, first.entries, DIR).migrations
    requires first.crc(second.content(m.path)) != first.crc(first.content(m.path))
    requires RunResult(second, ListingOf(sort, second.entries, DIR).migrations, applied, after, r, reached)
    ensures !r.Migrated?
  {
    CompleteMatches(sort, first, s, applied);
    var ms := ListingOf(sort, second.entries, DIR).migrations;
    var k :| 0 <= k < |ms| && ms[k] == m;
    assert !Matches(second, Applied(applied.history), ms[k]);
  }
}
