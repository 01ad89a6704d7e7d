/** Migration file names: V<version>__<description>.sql. */
module FileName {
  import opened Domain
  import opened Text
  import opened Version

  const SUFFIX := ".sql"

  datatype Migration = Migration(path: string, version: string, description: string, parts: seq<int>)

  datatype NameError = InvalidName | InvalidVersion(error: VersionError)

  datatype ParsedName = Named(migration: Migration) | Rejected(error: NameError)

  predicate DotFree(s: string) {
    '.' !in s
  }

  predicate HasSuffix(s: string, suffix: string) {
    |suffix| <= |s| && s[|s| - |suffix|..] == suffix
  }

  predicate VersionChars(s: string) {
    forall i | 0 <= i < |s| :: IsVersionChar(s[i])
  }

  /** Whether the pattern matches with a version group of `n` characters. */
  predicate MatchesAt(name: string, n: nat) {
    && 1 <= n && n + 3 + |SUFFIX| < |name| && HasSuffix(name, SUFFIX)
    && name[0] == 'V' && IsDigit(name[1])
    && (forall i | 1 <= i <= n :: IsVersionChar(name[i]))
    && name[n + 1] == '_' && name[n + 2] == '_'
    && (forall i | n + 3 <= i < |name| - |SUFFIX| :: name[i] != '.')
  }

  /** The groups are matched greedily: the longest version group that works, up to `n`. */
  function LongestMatch(name: string, n: nat): Option<nat> {
    if MatchesAt(name, n) then Some(n) else if n == 0 then None else LongestMatch(name, n - 1)
  }

  function Match(name: string): Option<nat> {
    LongestMatch(name, |name|)
  }

  function VersionGroup(name: string, n: nat): string
    requires MatchesAt(name, n)
  {
    name[1..n + 1]
  }

  function DescriptionGroup(name: string, n: nat): string
    requires MatchesAt(name, n)
  {
    name[n + 3..|name| - |SUFFIX|]
  }

  lemma {:induction false} LongestMatchMatches(name: string, n: nat)
    ensures LongestMatch(name, n).Some? ==> MatchesAt(name, LongestMatch(name, n).value)
    ensures forall m | (if LongestMatch(name, n).Some? then LongestMatch(name, n).value else -1) < m <= n :: !MatchesAt(name, m)
  {
    if n > 0 && !MatchesAt(name, n) { LongestMatchMatches(name, n - 1); }
  }

  function ParseName(fileName: string, dir: string): ParsedName {
    match Match(fileName)
    case None => Rejected(InvalidName)
    case Some(n) =>
      if !MatchesAt(fileName, n) then Rejected(InvalidName)
      else match ParseParts(VersionGroup(fileName, n))
        case Bad(e) => Rejected(InvalidVersion(e))
        case Parts(parts) =>
          Named(Migration(dir + "/" + fileName, VersionGroup(fileName, n),
                          ReplaceAll(DescriptionGroup(fileName, n), '_', ' '), parts))
  }

  // ---- What a name means ----

  /** V, a version of digits and separators that starts with a digit, two underscores, a description
      without dots, .sql. */
  ghost predicate Decomposes(name: string, version: string, description: string) {
    && name == ['V'] + version + ['_', '_'] + description + ['.', 's', 'q', 'l']
    && version != "" && '0' <= version[0] <= '9'
    && (forall c | c in version :: '0' <= c <= '9' || c == '.' || c == '-' || c == '_')
    && description != "" && '.' !in description
  }

  lemma Pieces(name: string, n: nat)
    requires n + 7 < |name|
    ensures name == [name[0]] + name[1..n + 1] + [name[n + 1], name[n + 2]] + name[n + 3..|name| - 4] + name[|name| - 4..]
  {
  }

  lemma GroupShapes(name: string, n: nat)
    requires MatchesAt(name, n)
    ensures var version, description := VersionGroup(name, n), DescriptionGroup(name, n);
            && |version| == n && '0' <= version[0] <= '9'
            && (forall c | c in version :: '0' <= c <= '9' || c == '.' || c == '-' || c == '_')
            && description != "" && '.' !in description
  {
    var version, description := VersionGroup(name, n), DescriptionGroup(name, n);
    assert forall k | 0 <= k < |description| :: description[k] == name[n + 3 + k];
    assert forall k | 0 <= k < n :: version[k] == name[k + 1];
  }

  lemma MatchDecomposes(name: string, n: nat)
    requires MatchesAt(name, n)
    ensures Decomposes(name, VersionGroup(name, n), DescriptionGroup(name, n)) && |VersionGroup(name, n)| == n
  {
    Pieces(name, n);
    GroupShapes(name, n);
    assert name[|name| - 4..] == ['.', 's', 'q', 'l'];
  }

  lemma DecomposedMatches(name: string, version: string, description: string)
    requires Decomposes(name, version, description)
    ensures MatchesAt(name, |version|)
    ensures VersionGroup(name, |version|) == version && DescriptionGroup(name, |version|) == description
  {
    var n := |version|;
    assert |name| == n + |description| + 7;
    assert name[|name| - 4..] == ['.', 's', 'q', 'l'];
    assert forall k | 0 <= k < n :: name[k + 1] == version[k];
    assert forall k | 0 <= k < |description| :: name[n + 3 + k] == description[k];
    assert name[1] == version[0];
    assert name[1..n + 1] == version && name[n + 3..|name| - 4] == description;
    forall i | 1 <= i <= n ensures IsVersionChar(name[i]) {
      assert name[i] == version[i - 1] && version[i - 1] in version;
    }
    forall i | n + 3 <= i < |name| - 4 ensures name[i] != '.' { assert name[i] == description[i - n - 3]; }
  }

  /** Of all ways to take the name apart the one with the longest version. */
  ghost predicate Greedy(name: string, version: string, description: string) {
    && Decomposes(name, version, description)
    && forall v, d | Decomposes(name, v, d) :: |v| <= |version|
  }

  lemma MatchIsGreedy(name: string)
    ensures match Match(name)
            case None => forall v, d :: !Decomposes(name, v, d)
            case Some(n) =>
              MatchesAt(name, n) && Greedy(name, VersionGroup(name, n), DescriptionGroup(name, n))
  {
    LongestMatchMatches(name, |name|);
    forall v, d | Decomposes(name, v, d) ensures Match(name).Some? && |v| <= Match(name).value {
      DecomposedMatches(name, v, d);
      assert |v| <= |name|;
    }
    if Match(name).Some? { MatchDecomposes(name, Match(name).value); }
  }

  /** A name is accepted exactly if it can be taken apart and its longest version is readable, and
      then the migration holds just what the name says. */
  lemma NameMeaning(name: string, dir: string)
    ensures match ParseName(name, dir)
            case Rejected(InvalidName) => forall v, d :: !Decomposes(name, v, d)
            case Rejected(InvalidVersion(e)) => exists v, d :: Greedy(name, v, d) && ParseParts(v) == Bad(e)
            case Named(m) =>
              && m.path == dir + "/" + name && ParseParts(m.version) == Parts(m.parts)
              && exists d :: Greedy(name, m.version, d) && m.description == ReplaceAll(d, '_', ' ')
  {
    MatchIsGreedy(name);
  }

  // ---- Printing and reading back ----

  function PrintName(version: string, description: string): string {
    "V" + version + "__" + description + SUFFIX
  }

  predicate CutsAt(description: string, m: nat) {
    && m + 2 < |description| && description[m] == '_' && description[m + 1] == '_'
    && forall i | 0 <= i < m :: IsVersionChar(description[i])
  }

  /** With the two underscores in front of it, the description can be cut a second time, further
      right, and the greedy version group takes that cut. */
  ghost predicate Shadowed(description: string) {
    || (|description| >= 2 && description[0] == '_')
    || exists m: nat :: CutsAt(description, m)
  }

  ghost predicate ReadsBack(description: string) {
    description != "" && DotFree(description) && !Shadowed(description)
  }

  lemma NameParts(version: string, description: string)
    ensures var name, v := PrintName(version, description), |version|;
            && |name| == v + |description| + 7 && HasSuffix(name, SUFFIX)
            && name[0] == 'V' && name[v + 1] == '_' && name[v + 2] == '_'
            && (forall i | 0 <= i < v :: name[i + 1] == version[i])
            && (forall i | 0 <= i < |description| :: name[v + 3 + i] == description[i])
            && name[1..v + 1] == version && name[v + 3..|name| - |SUFFIX|] == description
  {
  }

  lemma OwnMatch(version: string, description: string)
    requires version != "" && IsDigit(version[0]) && VersionChars(version)
    ensures MatchesAt(PrintName(version, description), |version|) <==> description != "" && DotFree(description)
  {
    var name, v := PrintName(version, description), |version|;
    NameParts(version, description);
    assert name[1] == version[0];
    forall i | 1 <= i <= v ensures IsVersionChar(name[i]) { assert name[i] == version[i - 1]; }
    assert forall i | v + 3 <= i < |name| - |SUFFIX| :: name[i] == description[i - v - 3];
    assert forall i | 0 <= i < |description| :: description[i] == name[v + 3 + i];
  }

  /** No cut lies inside a printed version. */
  lemma NoShorterMatch(version: string, description: string, n: nat)
    requires version != "" && IsDigit(version[|version| - 1]) && NoDoubleUnderscore(version) && n < |version|
    ensures !MatchesAt(PrintName(version, description), n)
  {
    var name := PrintName(version, description);
    NameParts(version, description);
    assert name[n + 1] == version[n];
    assert n + 1 < |version| ==> name[n + 2] == version[n + 1];
  }

  /** A longer match leaves a version group that does not parse. */
  lemma LongerMatchIsBad(version: string, description: string, n: nat)
    requires n > |version| && MatchesAt(PrintName(version, description), n)
    ensures ParseParts(VersionGroup(PrintName(version, description), n)).Bad?
  {
    var name, v := PrintName(version, description), |version|;
    NameParts(version, description);
    var tail := name[v + 2..n + 1];
    assert name[1..n + 1] == name[1..v + 1] + [name[v + 1]] + tail;
    assert tail != "" ==> tail[0] == name[v + 2];
    TrailingUnderscoreIsBad(version, tail);
  }

  lemma MatchShadows(version: string, description: string, n: nat)
    requires n > |version| && MatchesAt(PrintName(version, description), n)
    ensures Shadowed(description)
  {
    var name, v := PrintName(version, description), |version|;
    NameParts(version, description);
    if n == v + 1 {
      assert name[v + 3 + 0] == description[0];
    } else {
      var m := n - v - 2;
      assert name[v + 3 + m] == description[m] && name[v + 3 + (m + 1)] == description[m + 1];
      forall i | 0 <= i < m ensures IsVersionChar(description[i]) { assert name[v + 3 + i] == description[i]; }
      assert CutsAt(description, m);
    }
  }

  lemma ShadowMatches(version: string, description: string, k: nat)
    requires version != "" && IsDigit(version[0]) && VersionChars(version) && DotFree(description)
    requires if k == 1 then |description| >= 2 && description[0] == '_' else k >= 2 && CutsAt(description, k - 2)
    ensures MatchesAt(PrintName(version, description), |version| + k)
  {
    var name, v := PrintName(version, description), |version|;
    NameParts(version, description);
    assert name[1] == version[0];
    forall i | 1 <= i <= v + k ensures IsVersionChar(name[i]) {
      if i <= v {
        assert name[i] == version[i - 1];
      } else if i > v + 2 {
        assert name[i] == description[i - v - 3];
      }
    }
    assert name[v + 3 + (k - 1)] == description[k - 1];
    assert k >= 2 ==> name[v + 3 + (k - 2)] == description[k - 2];
    assert forall i | v + k + 3 <= i < |name| - |SUFFIX| :: name[i] == description[i - v - 3];
  }

  /** There is a longer match exactly if the description is shadowed. */
  lemma LongerMatchIsShadow(version: string, description: string)
    requires version != "" && IsDigit(version[0]) && VersionChars(version) && DotFree(description)
    ensures (exists n: nat :: n > |version| && MatchesAt(PrintName(version, description), n)) <==> Shadowed(description)
  {
    if n: nat :| n > |version| && MatchesAt(PrintName(version, description), n) {
      MatchShadows(version, description, n);
    }
    if |description| >= 2 && description[0] == '_' {
      ShadowMatches(version, description, 1);
    } else if m: nat :| CutsAt(description, m) {
      ShadowMatches(version, description, m + 2);
    }
  }

  /** For every description: the printed name is accepted exactly if the description is non-empty,
      dot-free and not shadowed, and then parsing gives back the version, the numbers and the
      description with spaces for underscores. */
  lemma NameRoundTrip(tokens: seq<string>, seps: seq<char>, description: string, dir: string)
    requires Printable(tokens, seps)
    ensures var version := PrintVersion(tokens, seps);
            var name := PrintName(version, description);
            if ReadsBack(description) then
              ParseName(name, dir) ==
              Named(Migration(dir + "/" + name, version, ReplaceAll(description, '_', ' '), Values(tokens)))
            else ParseName(name, dir).Rejected?
  {
    var version := PrintVersion(tokens, seps);
    var name := PrintName(version, description);
    PrintedVersionShape(tokens, seps);
    assert VersionChars(version);
    LongestMatchMatches(name, |name|);
    OwnMatch(version, description);
    forall n: nat | n < |version| ensures !MatchesAt(name, n) { NoShorterMatch(version, description, n); }
    forall n: nat | n > |version| && MatchesAt(name, n) ensures ParseParts(VersionGroup(name, n)).Bad? {
      LongerMatchIsBad(version, description, n);
    }
    if description != "" && DotFree(description) { LongerMatchIsShadow(version, description); }
    if ReadsBack(description) {
      assert Match(name) == Some(|version|);
      NameParts(version, description);
      assert DescriptionGroup(name, |version|) == description;
      PrintedVersionReadsBack(tokens, seps);
    }
  }

  /** A description that starts with no version character is never shadowed. */
  lemma PlainDescriptionsReadBack(description: string)
    requires description != "" && DotFree(description) && !IsVersionChar(description[0])
    ensures ReadsBack(description)
  {
  }

  lemma DigitTokens(version: string)
    requires VersionChars(version)
    ensures forall token | token in Split(Normalized(version), '.') :: OnlyDigits(token)
  {
    var text := Normalized(version);
    assert forall i | 0 <= i < |text| :: IsDigit(text[i]) || text[i] == '.';
    PartsHaveNoSeparator(text, '.');
    PartsHoldOnly(text, '.');
  }

  /** An accepted name carries a non-empty list of numbers, none negative. */
  lemma NamedPartsAreNonNegative(name: string, dir: string)
    ensures ParseName(name, dir).Named? ==>
              NonNegative(ParseName(name, dir).migration.parts) && ParseName(name, dir).migration.parts != []
  {
    if ParseName(name, dir).Named? {
      var n := Match(name).value;
      DigitTokens(VersionGroup(name, n));
      ParsedTokensAreNonNegative(Split(Normalized(VersionGroup(name, n)), '.'));
      ParsedMeaning(Split(Normalized(VersionGroup(name, n)), '.'));
    }
  }
}
