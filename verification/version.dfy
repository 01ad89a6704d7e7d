/** Version numbers of migrations: reading them, printing them and ordering them. */
module Version {
  import opened Domain
  import opened Text

  const MAX_INT := 0x7FFF_FFFF_FFFF_FFFF
  const MIN_INT := -0x8000_0000_0000_0000

  predicate IsDigit(c: char) {
    '0' <= c <= '9'
  }

  predicate OnlyDigits(s: string) {
    forall c | c in s :: IsDigit(c)
  }

  predicate AllDigits(s: string) {
    s != "" && OnlyDigits(s)
  }

  function DigitValue(c: char): (d: nat)
    requires IsDigit(c)
    ensures d <= 9
  {
    c as int - '0' as int
  }

  function DigitsValue(s: string): nat
    requires OnlyDigits(s)
  {
    if s == "" then 0
    else
      assert s[|s| - 1] in s;
      10 * DigitsValue(s[..|s| - 1]) + DigitValue(s[|s| - 1])
  }

  /** strconv.Atoi on a 64-bit platform: an optional sign and digits, within range. */
  function Atoi(s: string): Option<int> {
    var negative := s != "" && s[0] == '-';
    var digits := if s != "" && (s[0] == '-' || s[0] == '+') then s[1..] else s;
    if !AllDigits(digits) then None
    else
      var value: int := DigitsValue(digits);
      var n := if negative then -value else value;
      if MIN_INT <= n <= MAX_INT then Some(n) else None
  }

  function Itoa(n: nat): (s: string)
    ensures AllDigits(s)
  {
    var last := [(n % 10 + '0' as int) as char];
    if n < 10 then last else Itoa(n / 10) + last
  }

  lemma {:induction false} ItoaValue(n: nat)
    ensures DigitsValue(Itoa(n)) == n
  {
    if n >= 10 {
      ItoaValue(n / 10);
      assert Itoa(n)[..|Itoa(n)| - 1] == Itoa(n / 10);
    } else {
      assert Itoa(n)[..0] == "";
    }
  }

  lemma AtoiItoa(n: nat)
    requires n <= MAX_INT
    ensures Atoi(Itoa(n)) == Some(n)
  {
    ItoaValue(n);
    assert IsDigit(Itoa(n)[0]);
  }

  /** The ten digits, by their codes, and what each is worth. */
  lemma DigitMeaning(c: char)
    ensures IsDigit(c) <==> 48 <= c as int <= 57
    ensures IsDigit(c) ==> DigitValue(c) == c as int - 48
  {
  }

  function Power10(n: nat): nat {
    if n == 0 then 1 else 10 * Power10(n - 1)
  }

  lemma DigitsAppend(s: string, c: char)
    requires IsDigit(c) && OnlyDigits(s)
    ensures OnlyDigits(s + [c]) && DigitsValue(s + [c]) == 10 * DigitsValue(s) + DigitValue(c)
  {
    assert (s + [c])[..|s|] == s;
  }

  lemma Tenfold(d: nat, p: nat, v: nat, last: nat)
    ensures 10 * (d * p + v) + last == d * (10 * p) + (10 * v + last)
  {
  }

  /** A digit is worth ten times as much for every digit behind it. */
  lemma {:induction false} DigitsFromLeft(c: char, s: string)
    requires IsDigit(c) && OnlyDigits(s)
    ensures OnlyDigits([c] + s) && DigitsValue([c] + s) == DigitValue(c) * Power10(|s|) + DigitsValue(s)
  {
    if s == "" {
      DigitsAppend("", c);
      assert [c] + s == "" + [c];
    } else {
      var init, last := s[..|s| - 1], s[|s| - 1];
      InitIn(s);
      assert last in s;
      assert s == init + [last] && [c] + s == ([c] + init) + [last];
      DigitsFromLeft(c, init);
      DigitsAppend(init, last);
      DigitsAppend([c] + init, last);
      Tenfold(DigitValue(c), Power10(|init|), DigitsValue(init), DigitValue(last));
    }
  }

  /** Digits are read as the number they write if it is a 64-bit number. */
  lemma AtoiMeaning(s: string)
    requires AllDigits(s)
    ensures Atoi(s) == if DigitsValue(s) <= 9223372036854775807 then Some(DigitsValue(s)) else None
  {
    assert s[0] in s;
  }

  /** So they are with a sign in front. */
  lemma SignedMeaning(s: string)
    requires AllDigits(s)
    ensures Atoi(['+'] + s) == if DigitsValue(s) <= 9223372036854775807 then Some(DigitsValue(s)) else None
    ensures var value: int := DigitsValue(s);
            Atoi(['-'] + s) == if value <= 9223372036854775808 then Some(-value) else None
  {
    assert (['+'] + s)[1..] == s && (['-'] + s)[1..] == s;
  }

  /** Nothing else is read. */
  lemma OnlyNumbersAreRead(s: string)
    requires Atoi(s).Some?
    ensures AllDigits(s) || (s != "" && (s[0] == '-' || s[0] == '+') && AllDigits(s[1..]))
  {
  }

  /** Leading zeros do not matter. */
  lemma LeadingZero(s: string)
    requires AllDigits(s)
    ensures Atoi(['0'] + s) == Atoi(s)
  {
    var longer := ['0'] + s;
    DigitsFromLeft('0', s);
    AtoiMeaning(s);
    AtoiMeaning(longer);
  }

  // ---- Reading ----

  datatype VersionError = EmptyToken | NotANumber

  datatype Parsed = Parts(parts: seq<int>) | Bad(error: VersionError)

  function ParseTokens(tokens: seq<string>): Parsed {
    if tokens == [] then Parts([])
    else
      var token := tokens[|tokens| - 1];
      match ParseTokens(tokens[..|tokens| - 1])
      case Bad(e) => Bad(e)
      case Parts(parts) =>
        if token == "" then Bad(EmptyToken)
        else match Atoi(token)
          case None => Bad(NotANumber)
          case Some(n) => Parts(parts + [n])
  }

  function Normalized(version: string): string {
    ReplaceAll(ReplaceAll(version, '-', '.'), '_', '.')
  }

  function ParseParts(version: string): Parsed {
    ParseTokens(Split(Normalized(version), '.'))
  }

  /** The first bad token decides. */
  lemma {:induction false} FirstError(tokens: seq<string>, i: nat)
    requires i <= |tokens| && ParseTokens(tokens[..i]).Bad?
    ensures ParseTokens(tokens) == ParseTokens(tokens[..i])
    decreases |tokens|
  {
    if i == |tokens| {
      assert tokens[..i] == tokens;
    } else {
      assert tokens[..|tokens| - 1][..i] == tokens[..i];
      FirstError(tokens[..|tokens| - 1], i);
    }
  }

  method ParseVersionParts(version: string) returns (r: Parsed)
    ensures r == ParseParts(version)
  {
    var tokens := Split(Normalized(version), '.');
    var parts: seq<int> := [];
    for i := 0 to |tokens|
      invariant ParseTokens(tokens[..i]) == Parts(parts)
    {
      assert tokens[..i + 1][..i] == tokens[..i];
      var token := tokens[i];
      if token == "" {
        FirstError(tokens, i + 1);
        return Bad(EmptyToken);
      }
      var n := Atoi(token);
      if n.None? {
        FirstError(tokens, i + 1);
        return Bad(NotANumber);
      }
      parts := parts + [n.value];
    }
    assert tokens[..|tokens|] == tokens;
    r := Parts(parts);
  }

  /** A token of digits alone that writes a 64-bit number, with as many zeros in front as one likes. */
  predicate IsNumber(token: string) {
    AllDigits(token) && DigitsValue(token) <= 9223372036854775807
  }

  function NumberIn(token: string): nat {
    if OnlyDigits(token) then DigitsValue(token) else 0
  }

  function Values(tokens: seq<string>): (parts: seq<int>)
    ensures |parts| == |tokens|
    ensures forall i | 0 <= i < |tokens| :: parts[i] == NumberIn(tokens[i])
  {
    seq(|tokens|, i requires 0 <= i < |tokens| => NumberIn(tokens[i]))
  }

  /** `e` is the error of the first token that is not read. */
  ghost predicate FirstUnread(tokens: seq<string>, i: nat, e: VersionError) {
    && i < |tokens| && Atoi(tokens[i]).None?
    && (forall j | 0 <= j < i :: Atoi(tokens[j]).Some?)
    && e == if tokens[i] == "" then EmptyToken else NotANumber
  }

  /** The tokens are read one by one, and the first that is not decides the error. */
  lemma {:induction false} ParsedMeaning(tokens: seq<string>)
    ensures ParseTokens(tokens).Parts? ==>
              var parts := ParseTokens(tokens).parts;
              |parts| == |tokens| && forall i | 0 <= i < |tokens| :: Atoi(tokens[i]) == Some(parts[i])
    ensures ParseTokens(tokens).Bad? ==> exists i: nat :: FirstUnread(tokens, i, ParseTokens(tokens).error)
  {
    if tokens != [] {
      var init := tokens[..|tokens| - 1];
      ParsedMeaning(init);
      if ParseTokens(init).Bad? {
        var e := ParseTokens(init).error;
        var i: nat :| FirstUnread(init, i, e);
        assert ParseTokens(tokens) == Bad(e);
        assert forall j | 0 <= j < |init| :: tokens[j] == init[j];
        assert FirstUnread(tokens, i, e);
      } else if ParseTokens(tokens).Bad? {
        assert FirstUnread(tokens, |init|, ParseTokens(tokens).error);
      }
    }
  }

  /** A hyphen or an underscore is as good as a dot. */
  lemma NormalizedMeaning(version: string)
    ensures |Normalized(version)| == |version|
    ensures forall i | 0 <= i < |version| ::
              Normalized(version)[i] == if version[i] == '-' || version[i] == '_' then '.' else version[i]
  {
  }

  lemma {:induction false} TokensReadBack(tokens: seq<string>, parts: seq<int>)
    requires |tokens| == |parts|
    requires forall i | 0 <= i < |tokens| :: tokens[i] != "" && Atoi(tokens[i]) == Some(parts[i])
    ensures ParseTokens(tokens) == Parts(parts)
  {
    if tokens != [] {
      TokensReadBack(tokens[..|tokens| - 1], parts[..|parts| - 1]);
      assert parts == parts[..|parts| - 1] + [parts[|parts| - 1]];
    }
  }

  lemma {:induction false} EmptyTokenIsBad(tokens: seq<string>)
    requires "" in tokens
    ensures ParseTokens(tokens).Bad?
  {
    var token := tokens[|tokens| - 1];
    if token != "" {
      assert "" in tokens[..|tokens| - 1];
      EmptyTokenIsBad(tokens[..|tokens| - 1]);
    }
  }

  // ---- Printing ----

  predicate IsSeparator(c: char) {
    c == '.' || c == '-' || c == '_'
  }

  predicate IsVersionChar(c: char) {
    IsDigit(c) || IsSeparator(c)
  }

  /** The tokens with one separator of any kind between neighbours. */
  function PrintVersion(tokens: seq<string>, seps: seq<char>): string
    requires |tokens| == |seps| + 1
  {
    if seps == [] then tokens[0]
    else tokens[0] + [seps[0]] + PrintVersion(tokens[1..], seps[1..])
  }

  ghost predicate Printable(tokens: seq<string>, seps: seq<char>) {
    && |tokens| == |seps| + 1
    && (forall token | token in tokens :: IsNumber(token))
    && (forall c | c in seps :: IsSeparator(c))
  }

  lemma NumberIsPlain(token: string)
    requires AllDigits(token)
    ensures Normalized(token) == token && '.' !in token
  {
    assert forall i | 0 <= i < |token| :: IsDigit(token[i]) by {
      forall i | 0 <= i < |token| ensures IsDigit(token[i]) { assert token[i] in token; }
    }
  }

  lemma NormalizedJoin(first: string, c: char, rest: string)
    requires Normalized(first) == first && IsSeparator(c)
    ensures Normalized(first + [c] + rest) == first + ['.'] + Normalized(rest)
  {
    forall i | 0 <= i < |first| ensures Normalized(first + [c] + rest)[i] == first[i] {
      assert Normalized(first)[i] == first[i];
    }
  }

  lemma FirstToken(first: string, c: char, rest: string)
    requires AllDigits(first) && IsSeparator(c)
    ensures Split(Normalized(first + [c] + rest), '.') == [first] + Split(Normalized(rest), '.')
  {
    NumberIsPlain(first);
    NormalizedJoin(first, c, rest);
    SplitAtSeparator(first, Normalized(rest), '.');
    SplitWithoutSeparator(first, '.');
  }

  lemma {:induction false} PrintedTokens(tokens: seq<string>, seps: seq<char>)
    requires Printable(tokens, seps)
    ensures Split(Normalized(PrintVersion(tokens, seps)), '.') == tokens
  {
    assert tokens[0] in tokens;
    if seps == [] {
      NumberIsPlain(tokens[0]);
      SplitWithoutSeparator(tokens[0], '.');
      assert tokens == [tokens[0]];
    } else {
      TailIn(tokens);
      TailIn(seps);
      PrintedTokens(tokens[1..], seps[1..]);
      assert seps[0] in seps;
      FirstToken(tokens[0], seps[0], PrintVersion(tokens[1..], seps[1..]));
      assert tokens == [tokens[0]] + tokens[1..];
    }
  }

  /** Reading a printed version gives the numbers its tokens write. */
  lemma PrintedVersionReadsBack(tokens: seq<string>, seps: seq<char>)
    requires Printable(tokens, seps)
    ensures ParseParts(PrintVersion(tokens, seps)) == Parts(Values(tokens))
  {
    PrintedTokens(tokens, seps);
    forall i | 0 <= i < |tokens| ensures Atoi(tokens[i]) == Some(Values(tokens)[i]) {
      assert tokens[i] in tokens;
      AtoiMeaning(tokens[i]);
    }
    TokensReadBack(tokens, Values(tokens));
  }

  predicate NoDoubleUnderscore(s: string) {
    forall i | 0 <= i < |s| - 1 :: !(s[i] == '_' && s[i + 1] == '_')
  }

  /** A printed version starts and ends with a digit, holds version characters only and never two
      underscores in a row. */
  lemma {:induction false} PrintedVersionShape(tokens: seq<string>, seps: seq<char>)
    requires Printable(tokens, seps)
    ensures var s := PrintVersion(tokens, seps);
            && s != "" && IsDigit(s[0]) && IsDigit(s[|s| - 1])
            && (forall c | c in s :: IsVersionChar(c)) && NoDoubleUnderscore(s)
  {
    var first := tokens[0];
    assert first in tokens;
    assert first[0] in first && first[|first| - 1] in first;
    assert forall c | c in first :: IsVersionChar(c) && c != '_';
    assert forall i | 0 <= i < |first| :: first[i] != '_' by {
      forall i | 0 <= i < |first| ensures first[i] != '_' { assert first[i] in first; }
    }
    if seps != [] {
      var rest := PrintVersion(tokens[1..], seps[1..]);
      TailIn(tokens);
      TailIn(seps);
      PrintedVersionShape(tokens[1..], seps[1..]);
      assert seps[0] in seps;
      var s := first + [seps[0]] + rest;
      forall i | 0 <= i < |s| - 1 ensures !(s[i] == '_' && s[i + 1] == '_') {
        if i < |first| {
          assert s[i] in first;
        } else if i > |first| {
          assert s[i] == rest[i - |first| - 1] && s[i + 1] == rest[i - |first|];
        }
      }
    }
  }

  lemma EmptyFirstToken(s: string)
    requires s == "" || s[0] == '.'
    ensures "" in Split(s, '.')
  {
    assert Split(s, '.')[0] == "";
  }

  lemma NormalizedAround(s: string, tail: string)
    ensures Normalized(s + "_" + tail) == Normalized(s) + ['.'] + Normalized(tail)
  {
  }

  /** A version followed by an underscore and either nothing or another separator has an empty token. */
  lemma TrailingUnderscoreIsBad(s: string, tail: string)
    requires tail == "" || IsSeparator(tail[0])
    ensures ParseParts(s + "_" + tail).Bad?
  {
    NormalizedAround(s, tail);
    SplitAtSeparator(Normalized(s), Normalized(tail), '.');
    EmptyFirstToken(Normalized(tail));
    EmptyTokenIsBad(Split(Normalized(s + "_" + tail), '.'));
  }

  // ---- Order ----

  /** The i-th number, with zeros behind the last one. */
  function Part(a: seq<int>, i: nat): int {
    if i < |a| then a[i] else 0
  }

  function Longest(a: seq<int>, b: seq<int>): nat {
    if |b| > |a| then |b| else |a|
  }

  function CompareFrom(a: seq<int>, b: seq<int>, i: nat): int
    decreases Longest(a, b) - i
  {
    if i >= Longest(a, b) then 0
    else if Part(a, i) < Part(b, i) then -1
    else if Part(a, i) > Part(b, i) then 1
    else CompareFrom(a, b, i + 1)
  }

  function Compare(a: seq<int>, b: seq<int>): int {
    CompareFrom(a, b, 0)
  }

  method CompareVersionParts(a: seq<int>, b: seq<int>) returns (r: int)
    ensures r == Compare(a, b)
  {
    var maxParts := |a|;
    if |b| > maxParts { maxParts := |b|; }
    for i := 0 to maxParts
      invariant Compare(a, b) == CompareFrom(a, b, i)
    {
      var av := 0;
      if i < |a| { av := a[i]; }
      var bv := 0;
      if i < |b| { bv := b[i]; }
      if av < bv { return -1; }
      if av > bv { return 1; }
    }
    r := 0;
  }

  /** The numbers agree before place `i`. */
  ghost predicate AgreeBefore(a: seq<int>, b: seq<int>, i: nat) {
    forall j: nat | j < i :: Part(a, j) == Part(b, j)
  }

  ghost predicate FirstDifference(a: seq<int>, b: seq<int>, i: nat) {
    AgreeBefore(a, b, i) && Part(a, i) != Part(b, i)
  }

  lemma {:induction false} CompareFromMeaning(a: seq<int>, b: seq<int>, i: nat)
    requires AgreeBefore(a, b, i)
    ensures CompareFrom(a, b, i) == 0 ==> forall j: nat :: Part(a, j) == Part(b, j)
    ensures CompareFrom(a, b, i) != 0 ==>
              exists k: nat :: FirstDifference(a, b, k)
                               && CompareFrom(a, b, i) == if Part(a, k) < Part(b, k) then -1 else 1
    decreases Longest(a, b) - i
  {
    if i < Longest(a, b) {
      if Part(a, i) != Part(b, i) {
        assert FirstDifference(a, b, i);
      } else {
        CompareFromMeaning(a, b, i + 1);
      }
    }
  }

  /** The sign of the first difference decides, whichever place it is found at. */
  lemma CompareAt(a: seq<int>, b: seq<int>, k: nat)
    requires FirstDifference(a, b, k)
    ensures Compare(a, b) == if Part(a, k) < Part(b, k) then -1 else 1
  {
    CompareFromMeaning(a, b, 0);
    var i: nat :| FirstDifference(a, b, i) && Compare(a, b) == if Part(a, i) < Part(b, i) then -1 else 1;
    assert i == k;
  }

  /** Comparing is a total preorder: reflexive, antisymmetric in sign, transitive, total. */
  lemma CompareIsPreorder(a: seq<int>, b: seq<int>, c: seq<int>)
    ensures Compare(a, a) == 0
    ensures Compare(b, a) == -Compare(a, b)
    ensures Compare(a, b) <= 0 && Compare(b, c) <= 0 ==> Compare(a, c) <= 0
    ensures Compare(a, b) <= 0 && Compare(b, c) < 0 ==> Compare(a, c) < 0
    ensures Compare(a, b) < 0 && Compare(b, c) <= 0 ==> Compare(a, c) < 0
    ensures Compare(a, b) <= 0 || Compare(b, a) <= 0
  {
    CompareFromMeaning(a, a, 0);
    CompareFromMeaning(a, b, 0);
    CompareFromMeaning(b, a, 0);
    CompareFromMeaning(b, c, 0);
    CompareFromMeaning(a, c, 0);
    if i: nat :| FirstDifference(a, b, i) {
      assert FirstDifference(b, a, i);
      CompareAt(a, b, i);
      CompareAt(b, a, i);
      if k: nat :| FirstDifference(b, c, k) {
        CompareAt(b, c, k);
        if Compare(a, b) == Compare(b, c) {
          var first := if i < k then i else k;
          assert FirstDifference(a, c, first);
          CompareAt(a, c, first);
        }
      } else {
        assert FirstDifference(a, c, i);
        CompareAt(a, c, i);
      }
    } else if k: nat :| FirstDifference(b, c, k) {
      CompareAt(b, c, k);
      assert FirstDifference(a, c, k);
      CompareAt(a, c, k);
    }
  }

  function Strip(a: seq<int>): seq<int> {
    if a != [] && a[|a| - 1] == 0 then Strip(a[..|a| - 1]) else a
  }

  /** Lexicographic order, a proper prefix coming first. */
  function Lexicographic(a: seq<int>, b: seq<int>): int {
    if a == [] then (if b == [] then 0 else -1)
    else if b == [] then 1
    else if a[0] != b[0] then (if a[0] < b[0] then -1 else 1)
    else Lexicographic(a[1..], b[1..])
  }

  lemma {:induction false} StripKeepsParts(a: seq<int>)
    ensures forall i: nat :: Part(Strip(a), i) == Part(a, i)
    ensures Strip(a) != [] ==> Strip(a)[|Strip(a)| - 1] != 0
    ensures forall x | x in Strip(a) :: x in a
  {
    if a != [] && a[|a| - 1] == 0 {
      StripKeepsParts(a[..|a| - 1]);
      forall i: nat ensures Part(Strip(a), i) == Part(a, i) {
        assert Part(a[..|a| - 1], i) == Part(a, i);
      }
    }
  }

  /** Two lists without trailing zeros that agree everywhere are equal. */
  lemma StrippedEqual(a: seq<int>, b: seq<int>)
    requires forall i: nat :: Part(a, i) == Part(b, i)
    requires a != [] ==> a[|a| - 1] != 0
    requires b != [] ==> b[|b| - 1] != 0
    ensures a == b
  {
    assert |a| > |b| ==> Part(a, |a| - 1) == Part(b, |a| - 1);
    assert |b| > |a| ==> Part(a, |b| - 1) == Part(b, |b| - 1);
    forall i | 0 <= i < |a| && i < |b| ensures a[i] == b[i] { assert Part(a, i) == Part(b, i); }
  }

  /** Zero means: the same list up to trailing zeros. */
  lemma CompareZero(a: seq<int>, b: seq<int>)
    ensures Compare(a, b) == 0 <==> Strip(a) == Strip(b)
  {
    StripKeepsParts(a);
    StripKeepsParts(b);
    CompareFromMeaning(a, b, 0);
    if Compare(a, b) == 0 {
      StrippedEqual(Strip(a), Strip(b));
    } else {
      var k: nat :| FirstDifference(a, b, k);
      assert Part(Strip(a), k) != Part(Strip(b), k);
    }
  }

  lemma CompareOnlySeesParts(a: seq<int>, b: seq<int>, x: seq<int>, y: seq<int>)
    requires forall i: nat :: Part(a, i) == Part(x, i)
    requires forall i: nat :: Part(b, i) == Part(y, i)
    ensures Compare(a, b) == Compare(x, y)
  {
    CompareFromMeaning(a, b, 0);
    CompareFromMeaning(x, y, 0);
    if k: nat :| FirstDifference(a, b, k) {
      assert FirstDifference(x, y, k);
      CompareAt(a, b, k);
      CompareAt(x, y, k);
    } else {
      assert forall k: nat :: FirstDifference(x, y, k) ==> FirstDifference(a, b, k);
    }
  }

  ghost predicate NonNegative(a: seq<int>) {
    forall x | x in a :: x >= 0
  }

  lemma CompareWithEmpty(b: seq<int>)
    requires NonNegative(b) && (b != [] ==> b[|b| - 1] != 0)
    ensures Compare([], b) == if b == [] then 0 else -1
  {
    CompareFromMeaning([], b, 0);
    if b != [] {
      assert Part([], |b| - 1) != Part(b, |b| - 1);
      var k: nat :| FirstDifference([], b, k) && Compare([], b) == if Part([], k) < Part(b, k) then -1 else 1;
      assert k < |b| && b[k] in b;
    }
  }

  lemma TailDifference(a: seq<int>, b: seq<int>, k: nat)
    requires a != [] && b != [] && a[0] == b[0]
    ensures FirstDifference(a[1..], b[1..], k) <==> FirstDifference(a, b, k + 1)
  {
    assert forall i: nat :: Part(a[1..], i) == Part(a, i + 1) && Part(b[1..], i) == Part(b, i + 1);
    assert Part(a, 0) == Part(b, 0);
    if AgreeBefore(a[1..], b[1..], k) {
      forall j: nat | j < k + 1 ensures Part(a, j) == Part(b, j) {
        assert j > 0 ==> Part(a[1..], j - 1) == Part(b[1..], j - 1);
      }
    }
    if AgreeBefore(a, b, k + 1) {
      forall j: nat | j < k ensures Part(a[1..], j) == Part(b[1..], j) { assert Part(a, j + 1) == Part(b, j + 1); }
    }
  }

  lemma CompareTails(a: seq<int>, b: seq<int>)
    requires a != [] && b != [] && a[0] == b[0]
    ensures Compare(a, b) == Compare(a[1..], b[1..])
  {
    CompareFromMeaning(a, b, 0);
    CompareFromMeaning(a[1..], b[1..], 0);
    if k: nat :| FirstDifference(a, b, k) {
      assert k > 0;
      TailDifference(a, b, k - 1);
      CompareAt(a, b, k);
      CompareAt(a[1..], b[1..], k - 1);
    } else {
      forall k: nat ensures !FirstDifference(a[1..], b[1..], k) { TailDifference(a, b, k); }
    }
  }

  /** On lists of non-negative numbers without trailing zeros, padding with zeros and comparing is
      lexicographic order. */
  lemma {:induction false} CompareStripped(a: seq<int>, b: seq<int>)
    requires NonNegative(a) && NonNegative(b)
    requires a != [] ==> a[|a| - 1] != 0
    requires b != [] ==> b[|b| - 1] != 0
    ensures Compare(a, b) == Lexicographic(a, b)
  {
    if a == [] || b == [] {
      CompareWithEmpty(a);
      CompareWithEmpty(b);
      CompareIsPreorder(a, b, b);
    } else if a[0] != b[0] {
      assert FirstDifference(a, b, 0);
      CompareAt(a, b, 0);
    } else {
      TailIn(a);
      TailIn(b);
      CompareStripped(a[1..], b[1..]);
      CompareTails(a, b);
    }
  }

  /** Version order is lexicographic order once trailing zeros are gone. */
  lemma CompareIsLexicographic(a: seq<int>, b: seq<int>)
    requires NonNegative(a) && NonNegative(b)
    ensures Compare(a, b) == Lexicographic(Strip(a), Strip(b))
  {
    StripKeepsParts(a);
    StripKeepsParts(b);
    CompareOnlySeesParts(a, b, Strip(a), Strip(b));
    CompareStripped(Strip(a), Strip(b));
  }

  /** Parsing a version made of version characters yields non-negative numbers only. */
  lemma {:induction false} ParsedTokensAreNonNegative(tokens: seq<string>)
    requires forall token | token in tokens :: OnlyDigits(token)
    ensures ParseTokens(tokens).Parts? ==> NonNegative(ParseTokens(tokens).parts)
  {
    if tokens != [] {
      InitIn(tokens);
      ParsedTokensAreNonNegative(tokens[..|tokens| - 1]);
      var token := tokens[|tokens| - 1];
      assert token in tokens && (token != "" ==> token[0] in token);
    }
  }
}
