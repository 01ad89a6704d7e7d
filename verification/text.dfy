/** Splitting and trimming text as Go's `strings` package does. */
module Text {

  lemma TailIn<T>(s: seq<T>)
    requires s != []
    ensures forall x | x in s[1..] :: x in s
  {
  }

  lemma InitIn<T>(s: seq<T>)
    requires s != []
    ensures forall x | x in s[..|s| - 1] :: x in s
  {
  }

  function Split(s: string, sep: char): (parts: seq<string>)
    ensures |parts| >= 1
  {
    if s == "" then [""]
    else
      var rest := Split(s[1..], sep);
      if s[0] == sep then [""] + rest else [[s[0]] + rest[0]] + rest[1..]
  }

  function Join(parts: seq<string>, sep: char): string {
    if parts == [] then ""
    else if |parts| == 1 then parts[0]
    else parts[0] + [sep] + Join(parts[1..], sep)
  }

  function ReplaceAll(s: string, from: char, to: char): (r: string)
    ensures |r| == |s|
    ensures forall i | 0 <= i < |s| :: r[i] == if s[i] == from then to else s[i]
  {
    seq(|s|, i requires 0 <= i < |s| => if s[i] == from then to else s[i])
  }

  /** unicode.IsSpace */
  predicate IsSpace(c: char) {
    var n := c as int;
    9 <= n <= 13 || n == 0x20 || n == 0x85 || n == 0xA0 || n == 0x1680 || 0x2000 <= n <= 0x200A
    || n == 0x2028 || n == 0x2029 || n == 0x202F || n == 0x205F || n == 0x3000
  }

  /** Space is the white space of Unicode, code point by code point. */
  lemma SpaceMeaning(c: char)
    ensures IsSpace(c) <==>
            c as int in {0x09, 0x0A, 0x0B, 0x0C, 0x0D, 0x20, 0x85, 0xA0, 0x1680,
                         0x2000, 0x2001, 0x2002, 0x2003, 0x2004, 0x2005, 0x2006, 0x2007, 0x2008, 0x2009, 0x200A,
                         0x2028, 0x2029, 0x202F, 0x205F, 0x3000}
  {
  }

  function TrimLeft(s: string): string {
    if s != "" && IsSpace(s[0]) then TrimLeft(s[1..]) else s
  }

  function TrimRight(s: string): string {
    if s != "" && IsSpace(s[|s| - 1]) then TrimRight(s[..|s| - 1]) else s
  }

  function TrimSpace(s: string): string {
    TrimRight(TrimLeft(s))
  }

  predicate Trimmed(s: string) {
    s != "" ==> !IsSpace(s[0]) && !IsSpace(s[|s| - 1])
  }

  lemma {:induction false} TrimLeftStops(s: string)
    ensures TrimLeft(s) != "" ==> !IsSpace(TrimLeft(s)[0])
    ensures forall c | c in TrimLeft(s) :: c in s
  {
    if s != "" && IsSpace(s[0]) { TrimLeftStops(s[1..]); }
  }

  lemma {:induction false} TrimRightStops(s: string)
    ensures TrimRight(s) != "" ==> !IsSpace(TrimRight(s)[|TrimRight(s)| - 1]) && TrimRight(s)[0] == s[0]
    ensures forall c | c in TrimRight(s) :: c in s
  {
    if s != "" && IsSpace(s[|s| - 1]) { TrimRightStops(s[..|s| - 1]); }
  }

  lemma {:induction false} TrimLeftCuts(s: string) returns (i: nat)
    ensures i <= |s| && TrimLeft(s) == s[i..] && forall k | 0 <= k < i :: IsSpace(s[k])
  {
    i := 0;
    if s != "" && IsSpace(s[0]) {
      var j := TrimLeftCuts(s[1..]);
      i := j + 1;
      assert s[1..][j..] == s[i..];
      forall k | 0 <= k < i ensures IsSpace(s[k]) { assert k > 0 ==> s[1..][k - 1] == s[k]; }
    }
  }

  lemma {:induction false} TrimRightCuts(s: string) returns (j: nat)
    ensures j <= |s| && TrimRight(s) == s[..j] && forall k | j <= k < |s| :: IsSpace(s[k])
  {
    j := |s|;
    if s != "" && IsSpace(s[|s| - 1]) {
      j := TrimRightCuts(s[..|s| - 1]);
      assert s[..|s| - 1][..j] == s[..j];
      forall k | j <= k < |s| ensures IsSpace(s[k]) { assert k < |s| - 1 ==> s[..|s| - 1][k] == s[k]; }
    }
  }

  lemma TrimSpaceCuts(s: string) returns (i: nat, j: nat)
    ensures i <= j <= |s| && TrimSpace(s) == s[i..j]
    ensures forall k | 0 <= k < |s| && !(i <= k < j) :: IsSpace(s[k])
  {
    i := TrimLeftCuts(s);
    var rest := s[i..];
    var n := TrimRightCuts(rest);
    j := i + n;
    assert rest[..n] == s[i..j];
    forall k | j <= k < |s| ensures IsSpace(s[k]) { assert rest[k - i] == s[k]; }
  }

  lemma TrimSpaceAround(s: string) returns (before: string, after: string)
    ensures s == before + TrimSpace(s) + after
    ensures forall k | 0 <= k < |before| :: IsSpace(before[k])
    ensures forall k | 0 <= k < |after| :: IsSpace(after[k])
  {
    var i, j := TrimSpaceCuts(s);
    before, after := s[..i], s[j..];
  }

  lemma TrimSpaceStops(s: string)
    ensures Trimmed(TrimSpace(s)) && forall c | c in TrimSpace(s) :: c in s
  {
    TrimLeftStops(s);
    TrimRightStops(TrimLeft(s));
  }

  /** Trimming cuts off white space at both ends and nothing else: what is left is trimmed, and
      trimmed text stays as it is. */
  lemma TrimSpaceTrims(s: string) returns (i: nat, j: nat)
    ensures i <= j <= |s| && TrimSpace(s) == s[i..j]
    ensures forall k | 0 <= k < |s| && !(i <= k < j) :: IsSpace(s[k])
    ensures Trimmed(TrimSpace(s))
    ensures forall c | c in TrimSpace(s) :: c in s
    ensures Trimmed(s) ==> TrimSpace(s) == s
  {
    i, j := TrimSpaceCuts(s);
    TrimSpaceStops(s);
    if Trimmed(s) && s != "" {
      assert i == 0 && j == |s|;
    }
  }

  /** Only white space is cut off, by its code points. */
  lemma OnlyWhiteSpaceIsCut(s: string) returns (i: nat, j: nat)
    ensures i <= j <= |s| && TrimSpace(s) == s[i..j]
    ensures forall k | 0 <= k < |s| && !(i <= k < j) ::
              s[k] as int in {0x09, 0x0A, 0x0B, 0x0C, 0x0D, 0x20, 0x85, 0xA0, 0x1680,
                              0x2000, 0x2001, 0x2002, 0x2003, 0x2004, 0x2005, 0x2006, 0x2007, 0x2008, 0x2009, 0x200A,
                              0x2028, 0x2029, 0x202F, 0x205F, 0x3000}
  {
    i, j := TrimSpaceCuts(s);
    forall k | 0 <= k < |s| && !(i <= k < j)
      ensures s[k] as int in {0x09, 0x0A, 0x0B, 0x0C, 0x0D, 0x20, 0x85, 0xA0, 0x1680,
                              0x2000, 0x2001, 0x2002, 0x2003, 0x2004, 0x2005, 0x2006, 0x2007, 0x2008, 0x2009, 0x200A,
                              0x2028, 0x2029, 0x202F, 0x205F, 0x3000}
    {
      SpaceMeaning(s[k]);
    }
  }

  /** `c` in front of the parts of the rest. */
  function Front(c: char, rest: seq<string>, sep: char): seq<string>
    requires rest != []
  {
    if c == sep then [""] + rest else [[c] + rest[0]] + rest[1..]
  }

  lemma SplitFront(c: char, t: string, sep: char)
    ensures Split([c] + t, sep) == Front(c, Split(t, sep), sep)
  {
    assert ([c] + t)[1..] == t;
  }

  lemma FrontAppend(c: char, a: seq<string>, b: seq<string>, sep: char)
    requires a != []
    ensures Front(c, a + b, sep) == Front(c, a, sep) + b
  {
    assert (a + b)[1..] == a[1..] + b;
    assert [""] + (a + b) == [""] + a + b;
  }

  lemma {:induction false} SplitAtSeparator(a: string, b: string, sep: char)
    ensures Split(a + [sep] + b, sep) == Split(a, sep) + Split(b, sep)
  {
    if a == "" {
      assert a + [sep] + b == [sep] + b;
      SplitFront(sep, b, sep);
    } else {
      SplitAtSeparator(a[1..], b, sep);
      assert a + [sep] + b == [a[0]] + (a[1..] + [sep] + b);
      SplitFront(a[0], a[1..] + [sep] + b, sep);
      FrontAppend(a[0], Split(a[1..], sep), Split(b, sep), sep);
    }
  }

  lemma {:induction false} SplitWithoutSeparator(s: string, sep: char)
    requires sep !in s
    ensures Split(s, sep) == [s]
  {
    if s != "" {
      SplitWithoutSeparator(s[1..], sep);
      assert s == [s[0]] + s[1..];
    }
  }

  lemma {:induction false} PartsHaveNoSeparator(s: string, sep: char)
    ensures forall part | part in Split(s, sep) :: sep !in part
  {
    if s != "" {
      PartsHaveNoSeparator(s[1..], sep);
      var rest := Split(s[1..], sep);
      assert rest[0] in rest;
      forall part | part in Split(s, sep) ensures sep !in part {
        if s[0] != sep {
          assert part == [s[0]] + rest[0] || part in rest;
        }
      }
    }
  }

  /** Splitting undoes joining when no part holds the separator. */
  lemma {:induction false} SplitJoin(parts: seq<string>, sep: char)
    requires parts != [] && forall part | part in parts :: sep !in part
    ensures Split(Join(parts, sep), sep) == parts
  {
    assert parts[0] in parts;
    SplitWithoutSeparator(parts[0], sep);
    if |parts| > 1 {
      SplitJoin(parts[1..], sep);
      SplitAtSeparator(parts[0], Join(parts[1..], sep), sep);
    }
  }

  /** Joining undoes splitting, for every text. */
  lemma {:induction false} JoinSplit(s: string, sep: char)
    ensures Join(Split(s, sep), sep) == s
  {
    if s != "" {
      JoinSplit(s[1..], sep);
      var rest := Split(s[1..], sep);
      assert Split(s, sep)[1..] == if s[0] == sep then rest else rest[1..];
      assert s == [s[0]] + s[1..];
    }
  }

  /** The parts hold no characters of their own. */
  lemma {:induction false} PartsHoldOnly(s: string, sep: char)
    ensures forall part, c | part in Split(s, sep) && c in part :: c in s
  {
    if s != "" {
      PartsHoldOnly(s[1..], sep);
      var rest := Split(s[1..], sep);
      TailIn(s);
      forall part, c | part in Split(s, sep) && c in part ensures c in s {
        if s[0] != sep && part == [s[0]] + rest[0] {
          assert c == s[0] || c in rest[0];
        } else {
          assert part in rest || part == "";
        }
      }
    }
  }

  lemma {:induction false} JoinLast(parts: seq<string>, last: string, sep: char)
    ensures Join(parts + [last], sep) == if parts == [] then last else Join(parts, sep) + [sep] + last
  {
    if parts != [] {
      var first, rest := parts[0], parts[1..];
      JoinLast(rest, last, sep);
      assert (parts + [last])[1..] == rest + [last];
      if rest == [] {
        assert rest + [last] == [last];
      } else {
        assert first + [sep] + (Join(rest, sep) + [sep] + last) == first + [sep] + Join(rest, sep) + [sep] + last;
      }
    }
  }
}
