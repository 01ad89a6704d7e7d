/** The migrations of a directory, in version order. */
module Listing {
  import opened Domain
  import opened Text
  import opened Version
  import opened FileName

  datatype DirEntry = DirEntry(name: string, isDir: bool)

  datatype ListError = BadName(error: NameError) | DuplicateVersion(version: string)

  datatype Listed = Listed(migrations: seq<Migration>) | ListFailed(error: ListError)

  predicate IsMigrationFile(e: DirEntry) {
    !e.isDir && HasSuffix(e.name, SUFFIX)
  }

  function Versions(ms: seq<Migration>): set<string> {
    set m | m in ms :: m.version
  }

  // ---- Collecting ----

  /** The migrations in directory order; the first bad name or repeated version stops it. */
  function Collect(entries: seq<DirEntry>, dir: string): Listed {
    if entries == [] then Listed([])
    else
      var e := entries[|entries| - 1];
      match Collect(entries[..|entries| - 1], dir)
      case ListFailed(error) => ListFailed(error)
      case Listed(ms) =>
        if !IsMigrationFile(e) then Listed(ms)
        else match ParseName(e.name, dir)
          case Rejected(error) => ListFailed(BadName(error))
          case Named(m) => if m.version in Versions(ms) then ListFailed(DuplicateVersion(m.version)) else Listed(ms + [m])
  }

  /** The first failing entry decides. */
  lemma {:induction false} FirstFailure(entries: seq<DirEntry>, dir: string, i: nat)
    requires i <= |entries| && Collect(entries[..i], dir).ListFailed?
    ensures Collect(entries, dir) == Collect(entries[..i], dir)
    decreases |entries|
  {
    if i == |entries| {
      assert entries[..i] == entries;
    } else {
      assert entries[..|entries| - 1][..i] == entries[..i];
      FirstFailure(entries[..|entries| - 1], dir, i);
    }
  }

  /** Files are told by their last four characters, and directories never count. */
  lemma MigrationFileMeaning(e: DirEntry)
    ensures IsMigrationFile(e) <==>
            && !e.isDir && |e.name| >= 4
            && e.name[|e.name| - 4] == '.' && e.name[|e.name| - 3] == 's'
            && e.name[|e.name| - 2] == 'q' && e.name[|e.name| - 1] == 'l'
  {
    if |e.name| >= 4 {
      var last := e.name[|e.name| - 4..];
      assert last == [e.name[|e.name| - 4], e.name[|e.name| - 3], e.name[|e.name| - 2], e.name[|e.name| - 1]];
      assert SUFFIX == ['.', 's', 'q', 'l'];
    }
  }

  /** Everything before entry `i` is accepted, and entry `i` is not, for this reason. */
  ghost predicate FirstRefused(entries: seq<DirEntry>, dir: string, i: nat, error: ListError) {
    && i < |entries| && IsMigrationFile(entries[i]) && Collect(entries[..i], dir).Listed?
    && match ParseName(entries[i].name, dir)
       case Rejected(e) => error == BadName(e)
       case Named(m) => error == DuplicateVersion(m.version) && m.version in Versions(Collect(entries[..i], dir).migrations)
  }

  lemma {:induction false} FailureMeaning(entries: seq<DirEntry>, dir: string)
    requires Collect(entries, dir).ListFailed?
    ensures exists i: nat :: FirstRefused(entries, dir, i, Collect(entries, dir).error)
  {
    var n := |entries| - 1;
    if Collect(entries[..n], dir).ListFailed? {
      FailureMeaning(entries[..n], dir);
      var i: nat :| FirstRefused(entries[..n], dir, i, Collect(entries[..n], dir).error);
      assert entries[..n][..i] == entries[..i];
      assert FirstRefused(entries, dir, i, Collect(entries, dir).error);
    } else {
      assert FirstRefused(entries, dir, n, Collect(entries, dir).error);
    }
  }

  // ---- Sorting ----

  predicate Before(a: Migration, b: Migration) {
    Compare(a.parts, b.parts) < 0
  }

  predicate NotAfter(a: Migration, b: Migration) {
    Compare(a.parts, b.parts) <= 0
  }

  predicate Sorted(ms: seq<Migration>) {
    forall i, j | 0 <= i < j < |ms| :: NotAfter(ms[i], ms[j])
  }

  predicate StrictlyIncreasing(ms: seq<Migration>) {
    forall i, j | 0 <= i < j < |ms| :: Before(ms[i], ms[j])
  }

  /** `m` goes behind everything that is not after it. */
  function Insert(ms: seq<Migration>, m: Migration): seq<Migration> {
    if ms != [] && Before(m, ms[|ms| - 1]) then Insert(ms[..|ms| - 1], m) + [ms[|ms| - 1]] else ms + [m]
  }

  function Sort(ms: seq<Migration>): seq<Migration> {
    if ms == [] then [] else Insert(Sort(ms[..|ms| - 1]), ms[|ms| - 1])
  }

  lemma {:induction false} InsertAdds(ms: seq<Migration>, m: Migration)
    ensures multiset(Insert(ms, m)) == multiset(ms) + multiset{m}
  {
    if ms != [] && Before(m, ms[|ms| - 1]) {
      InsertAdds(ms[..|ms| - 1], m);
      assert ms == ms[..|ms| - 1] + [ms[|ms| - 1]];
    }
  }

  /** Behind a list that ends no later than `last`, `last` may follow. */
  lemma AppendSorted(ms: seq<Migration>, last: Migration)
    requires Sorted(ms) && forall i | 0 <= i < |ms| :: NotAfter(ms[i], last)
    ensures Sorted(ms + [last])
  {
  }

  lemma InsertedNotAfter(ms: seq<Migration>, m: Migration, last: Migration)
    requires forall i | 0 <= i < |ms| :: NotAfter(ms[i], last)
    requires NotAfter(m, last)
    ensures forall i | 0 <= i < |Insert(ms, m)| :: NotAfter(Insert(ms, m)[i], last)
  {
    InsertAdds(ms, m);
    var r := Insert(ms, m);
    forall i | 0 <= i < |r| ensures NotAfter(r[i], last) {
      assert r[i] in multiset(r);
      assert r[i] == m || r[i] in ms;
    }
  }

  lemma EverythingNotAfter(ms: seq<Migration>, m: Migration)
    requires Sorted(ms) && ms != [] && !Before(m, ms[|ms| - 1])
    ensures forall i | 0 <= i < |ms| :: NotAfter(ms[i], m)
  {
    var last := ms[|ms| - 1];
    CompareIsPreorder(last.parts, m.parts, m.parts);
    forall i | 0 <= i < |ms| ensures NotAfter(ms[i], m) {
      CompareIsPreorder(ms[i].parts, last.parts, m.parts);
    }
  }

  lemma {:induction false} InsertSorts(ms: seq<Migration>, m: Migration)
    requires Sorted(ms)
    ensures Sorted(Insert(ms, m))
  {
    if ms != [] && Before(m, ms[|ms| - 1]) {
      var init, last := ms[..|ms| - 1], ms[|ms| - 1];
      InsertSorts(init, m);
      InsertedNotAfter(init, m, last);
      AppendSorted(Insert(init, m), last);
    } else {
      if ms != [] { EverythingNotAfter(ms, m); }
      AppendSorted(ms, m);
    }
  }

  lemma AddLast<T>(a: seq<T>)
    requires a != []
    ensures multiset(a) == multiset(a[..|a| - 1]) + multiset{a[|a| - 1]}
  {
    assert a == a[..|a| - 1] + [a[|a| - 1]];
  }

  lemma {:induction false} SortSorts(ms: seq<Migration>)
    ensures Sorted(Sort(ms)) && multiset(Sort(ms)) == multiset(ms)
  {
    if ms != [] {
      var init, last := ms[..|ms| - 1], ms[|ms| - 1];
      SortSorts(init);
      InsertSorts(Sort(init), last);
      InsertAdds(Sort(init), last);
      AddLast(ms);
      assert Sort(ms) == Insert(Sort(init), last);
    }
  }

  /** Two versions that compare equal, like 1 and 1.0. */
  ghost predicate NoEquivalents(ms: seq<Migration>) {
    forall i, j | 0 <= i < j < |ms| :: Compare(ms[i].parts, ms[j].parts) != 0
  }

  ghost predicate NoEquivalentsIn(ms: multiset<Migration>) {
    && (forall a, b | a in ms && b in ms && a != b :: Compare(a.parts, b.parts) != 0)
    && (forall a | a in ms :: ms[a] == 1)
  }

  lemma LastIsGreatest(ms: seq<Migration>, m: Migration)
    requires Sorted(ms) && m in multiset(ms)
    ensures NotAfter(m, ms[|ms| - 1])
  {
    var k :| 0 <= k < |ms| && ms[k] == m;
    CompareIsPreorder(m.parts, m.parts, m.parts);
  }

  lemma LastsAgree(a: seq<Migration>, b: seq<Migration>)
    requires Sorted(a) && Sorted(b) && multiset(a) == multiset(b) && NoEquivalentsIn(multiset(a)) && a != [] && b != []
    ensures a[|a| - 1] == b[|b| - 1]
  {
    var x, y := a[|a| - 1], b[|b| - 1];
    assert x in multiset(a) && y in multiset(b);
    LastIsGreatest(a, y);
    LastIsGreatest(b, x);
    CompareIsPreorder(x.parts, y.parts, y.parts);
  }

  lemma FewerStillUnequal(ms: multiset<Migration>, m: Migration)
    requires NoEquivalentsIn(ms) && m in ms
    ensures NoEquivalentsIn(ms - multiset{m})
  {
    forall a | a in ms - multiset{m} ensures (ms - multiset{m})[a] == 1 { assert a in ms; }
    forall a, b | a in ms - multiset{m} && b in ms - multiset{m} && a != b ensures Compare(a.parts, b.parts) != 0 {
      assert a in ms && b in ms;
    }
  }

  lemma InitAndLast<T>(a: seq<T>, b: seq<T>)
    requires a != [] && b != [] && a[..|a| - 1] == b[..|b| - 1] && a[|a| - 1] == b[|b| - 1]
    ensures a == b
  {
    assert a == a[..|a| - 1] + [a[|a| - 1]] && b == b[..|b| - 1] + [b[|b| - 1]];
  }

  lemma InitSorted(ms: seq<Migration>)
    requires Sorted(ms) && ms != []
    ensures Sorted(ms[..|ms| - 1])
  {
  }

  lemma InitsAgree(a: seq<Migration>, b: seq<Migration>)
    requires multiset(a) == multiset(b) && NoEquivalentsIn(multiset(a))
    requires a != [] && b != [] && a[|a| - 1] == b[|b| - 1]
    ensures multiset(a[..|a| - 1]) == multiset(b[..|b| - 1]) && NoEquivalentsIn(multiset(a[..|a| - 1]))
  {
    AddLast(a);
    AddLast(b);
    assert multiset(a[..|a| - 1]) == multiset(a) - multiset{a[|a| - 1]};
    assert multiset(b[..|b| - 1]) == multiset(b) - multiset{b[|b| - 1]};
    assert a[|a| - 1] in multiset(a);
    FewerStillUnequal(multiset(a), a[|a| - 1]);
  }

  lemma SameSizes<T>(a: seq<T>, b: seq<T>)
    requires multiset(a) == multiset(b)
    ensures |a| == |b|
  {
    assert |a| == |multiset(a)| == |multiset(b)| == |b|;
  }

  /** There is only one way to sort migrations without equivalents. */
  lemma {:induction false} SortedIsUnique(a: seq<Migration>, b: seq<Migration>)
    requires Sorted(a) && Sorted(b) && multiset(a) == multiset(b) && NoEquivalentsIn(multiset(a))
    ensures a == b
  {
    SameSizes(a, b);
    if a != [] {
      LastsAgree(a, b);
      InitsAgree(a, b);
      InitSorted(a);
      InitSorted(b);
      SortedIsUnique(a[..|a| - 1], b[..|b| - 1]);
      InitAndLast(a, b);
    }
  }

  // ---- Sorting by comparisons alone ----

  function Exchange<T(==)>(x: T, y: T, e: T): T {
    if e == x then y else if e == y then x else e
  }

  /** `y` for `x` and `x` for `y` throughout. */
  function ExchangeAll<T(==)>(x: T, y: T, s: seq<T>): (r: seq<T>)
    ensures |r| == |s|
    ensures forall i | 0 <= i < |s| :: r[i] == Exchange(x, y, s[i])
  {
    seq(|s|, i requires 0 <= i < |s| => Exchange(x, y, s[i]))
  }

  ghost predicate Arranges(f: seq<Migration> -> seq<Migration>) {
    forall ms :: Sorted(f(ms)) && multiset(f(ms)) == multiset(ms)
  }

  /** What is done to a list depends only on how its elements compare: trading two elements that
      compare equal trades them in the result. */
  ghost predicate ComparesOnly(f: seq<Migration> -> seq<Migration>) {
    forall x: Migration, y: Migration, ms | Compare(x.parts, y.parts) == 0 :: f(ExchangeAll(x, y, ms)) == ExchangeAll(x, y, f(ms))
  }

  lemma ExchangeLast<T>(x: T, y: T, s: seq<T>, last: T)
    ensures ExchangeAll(x, y, s + [last]) == ExchangeAll(x, y, s) + [Exchange(x, y, last)]
  {
  }

  lemma ExchangeKeepsOrder(x: Migration, y: Migration, a: Migration, b: Migration)
    requires Compare(x.parts, y.parts) == 0
    ensures Before(Exchange(x, y, a), Exchange(x, y, b)) <==> Before(a, b)
  {
    var a', b' := Exchange(x, y, a), Exchange(x, y, b);
    CompareIsPreorder(x.parts, y.parts, y.parts);
    CompareIsPreorder(a.parts, a.parts, a.parts);
    CompareIsPreorder(b.parts, b.parts, b.parts);
    assert Compare(a.parts, a'.parts) == 0 && Compare(a'.parts, a.parts) == 0;
    assert Compare(b.parts, b'.parts) == 0 && Compare(b'.parts, b.parts) == 0;
    CompareIsPreorder(a.parts, b.parts, b'.parts);
    CompareIsPreorder(a'.parts, a.parts, b'.parts);
    CompareIsPreorder(a'.parts, b'.parts, b.parts);
    CompareIsPreorder(a.parts, a'.parts, b.parts);
  }

  lemma {:induction false} InsertExchanges(x: Migration, y: Migration, ms: seq<Migration>, m: Migration)
    requires Compare(x.parts, y.parts) == 0
    ensures Insert(ExchangeAll(x, y, ms), Exchange(x, y, m)) == ExchangeAll(x, y, Insert(ms, m))
  {
    if ms == [] {
      ExchangeLast(x, y, ms, m);
    } else {
      var init, last := ms[..|ms| - 1], ms[|ms| - 1];
      assert ms == init + [last];
      ExchangeLast(x, y, init, last);
      ExchangeKeepsOrder(x, y, m, last);
      var ms' := ExchangeAll(x, y, ms);
      assert ms'[..|ms'| - 1] == ExchangeAll(x, y, init);
      if Before(m, last) {
        InsertExchanges(x, y, init, m);
        ExchangeLast(x, y, Insert(init, m), last);
      } else {
        ExchangeLast(x, y, ms, m);
      }
    }
  }

  lemma {:induction false} SortExchanges(x: Migration, y: Migration, ms: seq<Migration>)
    requires Compare(x.parts, y.parts) == 0
    ensures Sort(ExchangeAll(x, y, ms)) == ExchangeAll(x, y, Sort(ms))
  {
    if ms == [] {
      assert ExchangeAll(x, y, ms) == [];
    } else {
      var init, last := ms[..|ms| - 1], ms[|ms| - 1];
      assert ms == init + [last];
      ExchangeLast(x, y, init, last);
      SortExchanges(x, y, init);
      InsertExchanges(x, y, Sort(init), last);
      assert ExchangeAll(x, y, ms)[..|ms| - 1] == ExchangeAll(x, y, init);
    }
  }

  lemma SortIsSorter()
    ensures Arranges(Sort) && ComparesOnly(Sort)
  {
    forall ms ensures Sorted(Sort(ms)) && multiset(Sort(ms)) == multiset(ms) { SortSorts(ms); }
    forall x: Migration, y: Migration, ms | Compare(x.parts, y.parts) == 0 ensures Sort(ExchangeAll(x, y, ms)) == ExchangeAll(x, y, Sort(ms)) {
      SortExchanges(x, y, ms);
    }
  }

  /** Insertion sort is one. */
  function StableSort(): (f: seq<Migration> -> seq<Migration>)
    ensures Arranges(f) && ComparesOnly(f)
  {
    SortIsSorter();
    Sort
  }

  /** Any deterministic sort that looks at its elements by comparing them, as `sort.Slice` does. Where
      it puts elements that compare equal is left open. */
  type Sorter = f: seq<Migration> -> seq<Migration> | Arranges(f) && ComparesOnly(f) witness StableSort()

  // ---- The listing ----

  function ListingOf(sort: Sorter, entries: seq<DirEntry>, dir: string): Listed {
    match Collect(entries, dir)
    case ListFailed(error) => ListFailed(error)
    case Listed(ms) => Listed(sort(ms))
  }

  method ListMigrations(sort: Sorter, entries: seq<DirEntry>, dir: string) returns (r: Listed)
    ensures r == ListingOf(sort, entries, dir)
  {
    var migrations: seq<Migration> := [];
    var seenVersions: set<string> := {};
    for i := 0 to |entries|
      invariant Collect(entries[..i], dir) == Listed(migrations)
      invariant seenVersions == Versions(migrations)
    {
      assert entries[..i + 1][..i] == entries[..i];
      if !IsMigrationFile(entries[i]) { continue; }
      var parsed := ParseName(entries[i].name, dir);
      if parsed.Rejected? {
        FirstFailure(entries, dir, i + 1);
        return ListFailed(BadName(parsed.error));
      }
      var m := parsed.migration;
      if m.version in seenVersions {
        FirstFailure(entries, dir, i + 1);
        return ListFailed(DuplicateVersion(m.version));
      }
      seenVersions := seenVersions + {m.version};
      migrations := migrations + [m];
    }
    assert entries[..|entries|] == entries;
    r := Listed(sort(migrations));
  }

  // ---- What the directory contributes, in any order ----

  /** What one entry contributes. */
  function Contribution(e: DirEntry, dir: string): multiset<Migration> {
    if !IsMigrationFile(e) then multiset{}
    else match ParseName(e.name, dir)
      case Rejected(_) => multiset{}
      case Named(m) => multiset{m}
  }

  function Contributions(entries: seq<DirEntry>, dir: string): multiset<Migration> {
    if entries == [] then multiset{}
    else Contributions(entries[..|entries| - 1], dir) + Contribution(entries[|entries| - 1], dir)
  }

  ghost predicate Readable(e: DirEntry, dir: string) {
    IsMigrationFile(e) ==> ParseName(e.name, dir).Named?
  }

  ghost predicate VersionsOnce(ms: multiset<Migration>) {
    && (forall a, b | a in ms && b in ms && a.version == b.version :: a == b)
    && (forall a | a in ms :: ms[a] == 1)
  }

  /** Every file has a readable name and no version occurs twice. */
  ghost predicate Acceptable(entries: seq<DirEntry>, dir: string) {
    && (forall e | e in entries :: Readable(e, dir))
    && VersionsOnce(Contributions(entries, dir))
  }

  lemma AddVersion(ms: seq<Migration>, m: Migration)
    requires VersionsOnce(multiset(ms))
    ensures m.version !in Versions(ms) <==> VersionsOnce(multiset(ms) + multiset{m})
  {
    var all := multiset(ms) + multiset{m};
    if m.version in Versions(ms) {
      var a :| a in ms && a.version == m.version;
      assert a in multiset(ms) && a in all && m in all;
      assert a == m ==> all[m] >= 2;
    } else {
      assert m !in multiset(ms);
      forall a | a in all ensures all[a] == 1 { assert a != m ==> a in multiset(ms); }
      forall a, b | a in all && b in all && a.version == b.version ensures a == b {
        assert a != m ==> a in ms;
        assert b != m ==> b in ms;
      }
    }
  }

  lemma LastEntryDecides(entries: seq<DirEntry>, dir: string)
    requires entries != [] && Acceptable(entries[..|entries| - 1], dir)
    requires Collect(entries[..|entries| - 1], dir).Listed?
    requires multiset(Collect(entries[..|entries| - 1], dir).migrations) == Contributions(entries[..|entries| - 1], dir)
    ensures Collect(entries, dir).Listed? <==> Acceptable(entries, dir)
    ensures Collect(entries, dir).Listed? ==> multiset(Collect(entries, dir).migrations) == Contributions(entries, dir)
  {
    var init, e := entries[..|entries| - 1], entries[|entries| - 1];
    var ms := Collect(init, dir).migrations;
    assert forall x | x in entries :: x in init || x == e;
    assert e in entries;
    if IsMigrationFile(e) && ParseName(e.name, dir).Named? {
      AddVersion(ms, ParseName(e.name, dir).migration);
    } else {
      assert Contributions(entries, dir) == Contributions(init, dir);
    }
  }

  lemma InitIsAcceptable(entries: seq<DirEntry>, dir: string)
    requires entries != [] && Acceptable(entries, dir)
    ensures Acceptable(entries[..|entries| - 1], dir)
  {
    var init, e := entries[..|entries| - 1], entries[|entries| - 1];
    InitIn(entries);
    forall a | a in Contributions(init, dir) ensures Contributions(init, dir)[a] == 1 {
      assert a in Contributions(entries, dir);
    }
    forall a, b | a in Contributions(init, dir) && b in Contributions(init, dir) && a.version == b.version ensures a == b {
      assert a in Contributions(entries, dir) && b in Contributions(entries, dir);
    }
  }

  lemma {:induction false} CollectMeaning(entries: seq<DirEntry>, dir: string)
    ensures Collect(entries, dir).Listed? <==> Acceptable(entries, dir)
    ensures Collect(entries, dir).Listed? ==> multiset(Collect(entries, dir).migrations) == Contributions(entries, dir)
  {
    if entries != [] {
      var init, e := entries[..|entries| - 1], entries[|entries| - 1];
      assert entries == init + [e];
      CollectMeaning(init, dir);
      if Acceptable(entries, dir) {
        InitIsAcceptable(entries, dir);
      }
      if Acceptable(init, dir) {
        LastEntryDecides(entries, dir);
      }
    }
  }

  function Total<T, U>(s: seq<T>, f: T -> multiset<U>): multiset<U> {
    if s == [] then multiset{} else Total(s[..|s| - 1], f) + f(s[|s| - 1])
  }

  lemma RemoveFromInit<T>(s: seq<T>, k: nat)
    requires k < |s| - 1
    ensures var init, without := s[..|s| - 1], s[..k] + s[k + 1..];
            && without[..|without| - 1] == init[..k] + init[k + 1..] && without[|without| - 1] == s[|s| - 1]
            && init[k] == s[k]
  {
  }

  lemma {:induction false} TotalRemove<T, U>(s: seq<T>, f: T -> multiset<U>, k: nat)
    requires k < |s|
    ensures Total(s, f) == Total(s[..k] + s[k + 1..], f) + f(s[k])
  {
    var n := |s| - 1;
    if k == n {
      assert s[..k] + s[k + 1..] == s[..n];
    } else {
      TotalRemove(s[..n], f, k);
      RemoveFromInit(s, k);
    }
  }

  lemma WithoutOne<T>(b: seq<T>, k: nat)
    requires k < |b|
    ensures multiset(b[..k] + b[k + 1..]) == multiset(b) - multiset{b[k]}
  {
    assert b == b[..k] + [b[k]] + b[k + 1..];
  }

  lemma {:induction false} TotalPermutes<T, U>(a: seq<T>, b: seq<T>, f: T -> multiset<U>)
    requires multiset(a) == multiset(b)
    ensures Total(a, f) == Total(b, f)
  {
    SameSizes(a, b);
    if a != [] {
      var n := |a| - 1;
      assert a[n] in multiset(b);
      var k :| 0 <= k < |b| && b[k] == a[n];
      AddLast(a);
      WithoutOne(b, k);
      TotalPermutes(a[..n], b[..k] + b[k + 1..], f);
      TotalRemove(b, f, k);
    }
  }

  function ContributionIn(dir: string): DirEntry -> multiset<Migration> {
    e => Contribution(e, dir)
  }

  lemma {:induction false} ContributionsAreTotal(entries: seq<DirEntry>, dir: string)
    ensures Contributions(entries, dir) == Total(entries, ContributionIn(dir))
  {
    if entries != [] { ContributionsAreTotal(entries[..|entries| - 1], dir); }
  }

  lemma ContributionsPermute(a: seq<DirEntry>, b: seq<DirEntry>, dir: string)
    requires multiset(a) == multiset(b)
    ensures Contributions(a, dir) == Contributions(b, dir)
  {
    ContributionsAreTotal(a, dir);
    ContributionsAreTotal(b, dir);
    TotalPermutes(a, b, ContributionIn(dir));
  }

  lemma ReadAlike(a: seq<DirEntry>, b: seq<DirEntry>, dir: string)
    requires multiset(a) == multiset(b)
    ensures Acceptable(a, dir) <==> Acceptable(b, dir)
  {
    ContributionsPermute(a, b, dir);
    assert (forall e | e in a :: e in multiset(a)) && (forall e | e in b :: e in multiset(b));
    assert (forall e | e in multiset(a) :: e in a) && (forall e | e in multiset(b) :: e in b);
  }

  /** In every order the directory is read the listing succeeds or fails alike, and it is a sorted
      arrangement of the files' migrations. */
  lemma ListingMeaning(sort: Sorter, a: seq<DirEntry>, b: seq<DirEntry>, dir: string)
    requires multiset(a) == multiset(b)
    ensures ListingOf(sort, a, dir).Listed? <==> ListingOf(sort, b, dir).Listed?
    ensures ListingOf(sort, a, dir).Listed? <==> Acceptable(a, dir)
    ensures ListingOf(sort, a, dir).Listed? ==>
              var ms := ListingOf(sort, a, dir).migrations;
              && Sorted(ms) && multiset(ms) == Contributions(a, dir) && VersionsOnce(multiset(ms))
              && forall i, j | 0 <= i < j < |ms| :: Compare(ms[i].parts, ms[j].parts) <= 0
  {
    CollectMeaning(a, dir);
    CollectMeaning(b, dir);
    ReadAlike(a, b, dir);
  }

  ghost predicate DistinctVersions(ms: seq<Migration>) {
    forall i, j | 0 <= i < j < |ms| :: ms[i].version != ms[j].version
  }

  lemma TwicePresent<T>(xs: seq<T>, i: nat, j: nat)
    requires i < j < |xs| && xs[i] == xs[j]
    ensures multiset(xs)[xs[i]] >= 2
  {
    assert xs[i] in multiset(xs[..j]);
    assert xs == xs[..j] + [xs[j]] + xs[j + 1..];
  }

  lemma OnceIsDistinct(ms: seq<Migration>)
    requires VersionsOnce(multiset(ms))
    ensures DistinctVersions(ms)
  {
    forall i, j | 0 <= i < j < |ms| ensures ms[i].version != ms[j].version {
      assert ms[i] in multiset(ms) && ms[j] in multiset(ms);
      if ms[i] == ms[j] { TwicePresent(ms, i, j); }
    }
  }

  lemma ListedVersionsAreDistinct(sort: Sorter, entries: seq<DirEntry>, dir: string)
    requires ListingOf(sort, entries, dir).Listed?
    ensures DistinctVersions(ListingOf(sort, entries, dir).migrations)
  {
    ListingMeaning(sort, entries, entries, dir);
    OnceIsDistinct(ListingOf(sort, entries, dir).migrations);
  }

  lemma NoEquivalentsAsBag(ms: seq<Migration>)
    requires NoEquivalents(ms) && VersionsOnce(multiset(ms))
    ensures NoEquivalentsIn(multiset(ms))
  {
    forall a, b | a in multiset(ms) && b in multiset(ms) && a != b ensures Compare(a.parts, b.parts) != 0 {
      var i :| 0 <= i < |ms| && ms[i] == a;
      var j :| 0 <= j < |ms| && ms[j] == b;
      CompareIsPreorder(a.parts, b.parts, b.parts);
    }
  }

  lemma OneListing(sort: Sorter, a: seq<DirEntry>, b: seq<DirEntry>, dir: string)
    requires multiset(a) == multiset(b) && ListingOf(sort, a, dir).Listed?
    requires NoEquivalents(ListingOf(sort, a, dir).migrations)
    ensures ListingOf(sort, b, dir) == ListingOf(sort, a, dir)
  {
    ListingMeaning(sort, a, b, dir);
    ListingMeaning(sort, b, a, dir);
    ContributionsPermute(a, b, dir);
    NoEquivalentsAsBag(ListingOf(sort, a, dir).migrations);
    SortedIsUnique(ListingOf(sort, a, dir).migrations, ListingOf(sort, b, dir).migrations);
  }

  /** Sorted without equivalents is strictly increasing, and the other way round. */
  lemma StrictWithoutEquivalents(ms: seq<Migration>)
    requires Sorted(ms)
    ensures StrictlyIncreasing(ms) <==> NoEquivalents(ms)
  {
    if NoEquivalents(ms) {
      forall i, j | 0 <= i < j < |ms| ensures Before(ms[i], ms[j]) { assert NotAfter(ms[i], ms[j]); }
    } else {
      var i, j :| 0 <= i < j < |ms| && Compare(ms[i].parts, ms[j].parts) == 0;
      assert !Before(ms[i], ms[j]);
    }
  }

  // ---- Equivalent versions make it matter ----

  /** An entry is read as a migration. */
  ghost predicate ReadsAs(e: DirEntry, dir: string, m: Migration) {
    IsMigrationFile(e) && ParseName(e.name, dir) == Named(m)
  }

  /** The entry a migration was read from. */
  ghost predicate ReadFrom(entries: seq<DirEntry>, dir: string, e: DirEntry, m: Migration) {
    e in entries && ReadsAs(e, dir, m)
  }

  lemma {:induction false} EntryExists(entries: seq<DirEntry>, dir: string, m: Migration)
    requires m in Contributions(entries, dir)
    ensures exists e :: ReadFrom(entries, dir, e, m)
  {
    var init, last := entries[..|entries| - 1], entries[|entries| - 1];
    InitIn(entries);
    if m in Contributions(init, dir) {
      EntryExists(init, dir, m);
      var e :| ReadFrom(init, dir, e, m);
      assert ReadFrom(entries, dir, e, m);
    } else {
      assert m in Contribution(last, dir);
      assert ReadFrom(entries, dir, last, m);
    }
  }

  lemma {:induction false} EntryCounts(entries: seq<DirEntry>, dir: string, e: DirEntry, m: Migration)
    requires ReadsAs(e, dir, m)
    ensures multiset(entries)[e] <= Contributions(entries, dir)[m]
  {
    if entries != [] {
      EntryCounts(entries[..|entries| - 1], dir, e, m);
      AddLast(entries);
    }
  }

  /** The name is part of the migration's path. */
  lemma NamedAfterFile(a: DirEntry, b: DirEntry, dir: string)
    requires IsMigrationFile(a) && IsMigrationFile(b)
    requires ParseName(a.name, dir).Named? && ParseName(b.name, dir) == ParseName(a.name, dir)
    ensures a == b
  {
    var prefix := dir + "/";
    assert (prefix + a.name)[|prefix|..] == a.name && (prefix + b.name)[|prefix|..] == b.name;
  }

  lemma {:induction false} ExchangeBag<T>(x: T, y: T, s: seq<T>, e: T)
    ensures multiset(ExchangeAll(x, y, s))[e] == multiset(s)[Exchange(x, y, e)]
  {
    if s != [] {
      var init, last := s[..|s| - 1], s[|s| - 1];
      assert s == init + [last];
      ExchangeLast(x, y, init, last);
      ExchangeBag(x, y, init, e);
    }
  }

  function Read(e: DirEntry, dir: string): seq<Migration> {
    if IsMigrationFile(e) && ParseName(e.name, dir).Named? then [ParseName(e.name, dir).migration] else []
  }

  function ReadAll(entries: seq<DirEntry>, dir: string): seq<Migration> {
    if entries == [] then []
    else ReadAll(entries[..|entries| - 1], dir) + Read(entries[|entries| - 1], dir)
  }

  lemma {:induction false} CollectReads(entries: seq<DirEntry>, dir: string)
    requires Collect(entries, dir).Listed?
    ensures Collect(entries, dir).migrations == ReadAll(entries, dir)
  {
    if entries != [] { CollectReads(entries[..|entries| - 1], dir); }
  }

  lemma ReadOne(e: DirEntry, dir: string, m: Migration)
    ensures ReadsAs(e, dir, m) <==> Read(e, dir) == [m]
  {
  }

  lemma ReadExchanges(last: DirEntry, dir: string, e: DirEntry, f: DirEntry, x: Migration, y: Migration)
    requires ReadsAs(e, dir, x) && ReadsAs(f, dir, y)
    ensures Read(Exchange(e, f, last), dir) == ExchangeAll(x, y, Read(last, dir))
  {
    ReadOne(e, dir, x);
    ReadOne(f, dir, y);
    if last != e && last != f && Read(last, dir) != [] {
      var m := Read(last, dir)[0];
      ReadOne(last, dir, m);
      if m == x {
        NamedAfterFile(e, last, dir);
      } else if m == y {
        NamedAfterFile(f, last, dir);
      }
    }
  }

  lemma ExchangeAdds<T>(x: T, y: T, a: seq<T>, b: seq<T>)
    ensures ExchangeAll(x, y, a + b) == ExchangeAll(x, y, a) + ExchangeAll(x, y, b)
  {
  }

  /** Trading the entries of two migrations trades the migrations. */
  lemma {:induction false} ReadAllExchanges(
    entries: seq<DirEntry>,
    dir: string,
    e: DirEntry,
    f: DirEntry,
    x: Migration,
    y: Migration)
    requires ReadsAs(e, dir, x) && ReadsAs(f, dir, y)
    ensures ReadAll(ExchangeAll(e, f, entries), dir) == ExchangeAll(x, y, ReadAll(entries, dir))
  {
    if entries == [] {
      assert ExchangeAll(e, f, entries) == [];
    } else {
      var init, last := entries[..|entries| - 1], entries[|entries| - 1];
      assert ExchangeAll(e, f, entries)[..|init|] == ExchangeAll(e, f, init);
      ReadAllExchanges(init, dir, e, f, x, y);
      ReadExchanges(last, dir, e, f, x, y);
      ExchangeAdds(x, y, ReadAll(init, dir), Read(last, dir));
    }
  }

  lemma TradingKeepsDirectory(entries: seq<DirEntry>, dir: string, e: DirEntry, f: DirEntry, x: Migration, y: Migration)
    requires ReadFrom(entries, dir, e, x) && ReadFrom(entries, dir, f, y)
    requires VersionsOnce(Contributions(entries, dir))
    ensures multiset(ExchangeAll(e, f, entries)) == multiset(entries)
  {
    EntryCounts(entries, dir, e, x);
    EntryCounts(entries, dir, f, y);
    assert e in multiset(entries) && f in multiset(entries);
    assert Contributions(entries, dir)[x] == 1 && Contributions(entries, dir)[y] == 1;
    forall v ensures multiset(ExchangeAll(e, f, entries))[v] == multiset(entries)[v] {
      ExchangeBag(e, f, entries, v);
    }
  }

  /** Two listed migrations that compare equal: trading their files trades them in the listing. */
  lemma TradedListing(sort: Sorter, entries: seq<DirEntry>, dir: string, x: Migration, y: Migration)
    returns (traded: seq<DirEntry>)
    requires ListingOf(sort, entries, dir).Listed? && Compare(x.parts, y.parts) == 0
    requires x in ListingOf(sort, entries, dir).migrations && y in ListingOf(sort, entries, dir).migrations
    ensures multiset(traded) == multiset(entries)
    ensures ListingOf(sort, traded, dir) == Listed(ExchangeAll(x, y, ListingOf(sort, entries, dir).migrations))
  {
    ListingMeaning(sort, entries, entries, dir);
    assert x in multiset(ListingOf(sort, entries, dir).migrations) && y in multiset(ListingOf(sort, entries, dir).migrations);
    EntryExists(entries, dir, x);
    EntryExists(entries, dir, y);
    var e :| ReadFrom(entries, dir, e, x);
    var f :| ReadFrom(entries, dir, f, y);
    traded := ExchangeAll(e, f, entries);
    TradingKeepsDirectory(entries, dir, e, f, x, y);
    ListingMeaning(sort, entries, traded, dir);
    ReadAllExchanges(entries, dir, e, f, x, y);
    CollectReads(entries, dir);
    CollectReads(traded, dir);
  }

  ghost predicate DirectoryOrderIgnored(sort: Sorter, a: seq<DirEntry>, dir: string) {
    forall b | multiset(b) == multiset(a) :: ListingOf(sort, b, dir) == ListingOf(sort, a, dir)
  }

  /** For every accepted directory: the listing is the same in every order the directory is read
      exactly if no two versions are equivalent, which is exactly if the list is strictly
      increasing. */
  lemma ListingIgnoresDirectoryOrder(sort: Sorter, a: seq<DirEntry>, dir: string)
    requires ListingOf(sort, a, dir).Listed?
    ensures var ms := ListingOf(sort, a, dir).migrations;
            && (NoEquivalents(ms) <==> DirectoryOrderIgnored(sort, a, dir))
            && (NoEquivalents(ms) <==> forall i, j | 0 <= i < j < |ms| :: Compare(ms[i].parts, ms[j].parts) < 0)
  {
    var ms := ListingOf(sort, a, dir).migrations;
    ListingMeaning(sort, a, a, dir);
    StrictWithoutEquivalents(ms);
    assert StrictlyIncreasing(ms) <==> forall i, j | 0 <= i < j < |ms| :: Compare(ms[i].parts, ms[j].parts) < 0;
    if NoEquivalents(ms) {
      forall b | multiset(b) == multiset(a) ensures ListingOf(sort, b, dir) == ListingOf(sort, a, dir) {
        OneListing(sort, a, b, dir);
      }
    } else {
      var i, j :| 0 <= i < j < |ms| && Compare(ms[i].parts, ms[j].parts) == 0;
      var traded := TradedListing(sort, a, dir, ms[i], ms[j]);
      OnceIsDistinct(ms);
      assert ExchangeAll(ms[i], ms[j], ms)[i] == ms[j];
      assert ListingOf(sort, traded, dir) != ListingOf(sort, a, dir);
    }
  }

  lemma ComparesEqual(n: int)
    ensures Compare([n], [n, 0]) == 0 && Compare([n, 0], [n]) == 0
  {
    CompareZero([n], [n, 0]);
    CompareZero([n, 0], [n]);
    assert [n, 0][..1] == [n] && Strip([n, 0]) == Strip([n]);
  }

  function Plain(version: string, description: string): DirEntry {
    DirEntry(PrintName(version, description), false)
  }

  lemma PlainIsMigration(version: string, description: string)
    ensures IsMigrationFile(Plain(version, description))
  {
    NameParts(version, description);
  }

  lemma LongerText(n: nat)
    ensures PrintVersion([Itoa(n), "0"], ['.']) != PrintVersion([Itoa(n)], [])
  {
    assert |PrintVersion([Itoa(n), "0"], ['.'])| > |Itoa(n)|;
  }

  lemma ZeroIsNumber()
    ensures AllDigits("0") && DigitsValue("0") == 0
  {
    assert "0"[..0] == "";
    assert DigitsValue("0"[..0]) == 0;
  }

  lemma CollectTwo(a: DirEntry, b: DirEntry, x: Migration, y: Migration, dir: string)
    requires IsMigrationFile(a) && IsMigrationFile(b) && x.version != y.version
    requires ParseName(a.name, dir) == Named(x) && ParseName(b.name, dir) == Named(y)
    ensures Collect([a, b], dir) == Listed([x, y])
  {
    assert [a][..0] == [] && [a, b][..1] == [a];
    assert Collect([], dir) == Listed([]);
    assert Collect([a], dir) == Listed([x]);
  }

  lemma SortTwoEquals(sort: Sorter, x: Migration, y: Migration)
    requires Compare(x.parts, y.parts) == 0 && x != y
    ensures sort([x, y]) != sort([y, x])
  {
    assert ExchangeAll(x, y, [x, y]) == [y, x];
    assert sort([y, x]) == ExchangeAll(x, y, sort([x, y]));
    var first := sort([x, y]);
    assert multiset(first) == multiset([x, y]);
    SameSizes(first, [x, y]);
    assert first[0] in multiset(first);
    assert ExchangeAll(x, y, first)[0] != first[0];
  }

  lemma TwoVersions(n: nat, description: string, dir: string) returns (x: Migration, y: Migration)
    requires n <= MAX_INT && ReadsBack(description)
    ensures ParseName(PrintName(PrintVersion([Itoa(n)], []), description), dir) == Named(x)
    ensures ParseName(PrintName(PrintVersion([Itoa(n), "0"], ['.']), description), dir) == Named(y)
    ensures x.version != y.version && x.parts == [n] && y.parts == [n, 0]
  {
    ItoaValue(n);
    ZeroIsNumber();
    NameRoundTrip([Itoa(n)], [], description, dir);
    NameRoundTrip([Itoa(n), "0"], ['.'], description, dir);
    LongerText(n);
    x := ParseName(PrintName(PrintVersion([Itoa(n)], []), description), dir).migration;
    y := ParseName(PrintName(PrintVersion([Itoa(n), "0"], ['.']), description), dir).migration;
  }

  /** Accepted versions are distinct as texts, which still allows n next to n.0: both files are
      listed, and the directory decides which comes first. */
  lemma EquivalentVersionsKeepDirectoryOrder(sort: Sorter, n: nat, description: string, dir: string)
    requires n <= MAX_INT && ReadsBack(description)
    ensures var a, b := Plain(PrintVersion([Itoa(n)], []), description), Plain(PrintVersion([Itoa(n), "0"], ['.']), description);
            && ListingOf(sort, [a, b], dir).Listed? && ListingOf(sort, [b, a], dir).Listed?
            && ListingOf(sort, [a, b], dir) != ListingOf(sort, [b, a], dir)
  {
    var v, w := PrintVersion([Itoa(n)], []), PrintVersion([Itoa(n), "0"], ['.']);
    var x, y := TwoVersions(n, description, dir);
    PlainIsMigration(v, description);
    PlainIsMigration(w, description);
    ComparesEqual(n);
    CollectTwo(Plain(v, description), Plain(w, description), x, y, dir);
    CollectTwo(Plain(w, description), Plain(v, description), y, x, dir);
    SortTwoEquals(sort, x, y);
  }
}
