/** How a migration file is cut into SQL statements. */
module SqlStatements {
  import opened Text

  const SEMICOLON := ';'

  /** The trimmed, non-empty parts, in order. */
  function NonBlank(parts: seq<string>): seq<string> {
    if parts == [] then []
    else
      var last := TrimSpace(parts[|parts| - 1]);
      NonBlank(parts[..|parts| - 1]) + (if last == "" then [] else [last])
  }

  function Statements(src: string): seq<string> {
    NonBlank(Split(src, SEMICOLON))
  }

  method SplitSqlStatements(src: string) returns (out: seq<string>)
    ensures out == Statements(src)
  {
    var parts := Split(src, SEMICOLON);
    out := [];
    for i := 0 to |parts|
      invariant out == NonBlank(parts[..i])
    {
      assert parts[..i + 1][..i] == parts[..i];
      var s := TrimSpace(parts[i]);
      if s == "" { continue; }
      out := out + [s];
    }
    assert parts[..|parts|] == parts;
  }

  lemma {:induction false} NonBlankAdds(a: seq<string>, b: seq<string>)
    ensures NonBlank(a + b) == NonBlank(a) + NonBlank(b)
  {
    if b == [] {
      assert a + b == a;
    } else {
      NonBlankAdds(a, b[..|b| - 1]);
      assert (a + b)[..|a + b| - 1] == a + b[..|b| - 1];
    }
  }

  predicate IsStatement(s: string) {
    s != "" && Trimmed(s) && ';' !in s
  }

  lemma {:induction false} NonBlankAreStatements(parts: seq<string>)
    requires forall part | part in parts :: SEMICOLON !in part
    ensures forall s | s in NonBlank(parts) :: IsStatement(s)
  {
    if parts != [] {
      NonBlankAreStatements(parts[..|parts| - 1]);
      var i, j := TrimSpaceTrims(parts[|parts| - 1]);
    }
  }

  /** Every statement is non-empty, trimmed and free of semicolons. */
  lemma StatementsAreClean(src: string)
    ensures forall s | s in Statements(src) :: IsStatement(s)
  {
    PartsHaveNoSeparator(src, SEMICOLON);
    NonBlankAreStatements(Split(src, SEMICOLON));
  }

  lemma {:induction false} NonBlankKeepsStatements(parts: seq<string>)
    requires forall s | s in parts :: IsStatement(s)
    ensures NonBlank(parts) == parts
  {
    if parts != [] {
      NonBlankKeepsStatements(parts[..|parts| - 1]);
      assert parts[|parts| - 1] in parts;
      var i, j := TrimSpaceTrims(parts[|parts| - 1]);
      assert parts == parts[..|parts| - 1] + [parts[|parts| - 1]];
    }
  }

  /** Cutting a text at a semicolon cuts its statements there. */
  lemma StatementsConcatenate(a: string, b: string)
    ensures Statements(a + [';'] + b) == Statements(a) + Statements(b)
  {
    SplitAtSeparator(a, b, SEMICOLON);
    NonBlankAdds(Split(a, SEMICOLON), Split(b, SEMICOLON));
  }

  /** Joining the statements of any text and splitting again gives the same statements. */
  lemma StatementsRoundTrip(src: string)
    ensures Statements(Join(Statements(src), ';')) == Statements(src)
  {
    var list := Statements(src);
    StatementsAreClean(src);
    if list == [] {
      assert Split("", SEMICOLON) == [""];
      assert TrimSpace("") == "";
      assert [""][..0] == [];
    } else {
      SplitJoin(list, SEMICOLON);
      NonBlankKeepsStatements(list);
    }
  }

  // ---- Nothing is lost ----

  /** White space or a semicolon. */
  predicate IsFiller(c: char) {
    IsSpace(c) || c == SEMICOLON
  }

  lemma FillerMeaning(c: char)
    ensures IsFiller(c) <==>
            c as int in {0x09, 0x0A, 0x0B, 0x0C, 0x0D, 0x20, 0x85, 0xA0, 0x1680,
                         0x2000, 0x2001, 0x2002, 0x2003, 0x2004, 0x2005, 0x2006, 0x2007, 0x2008, 0x2009, 0x200A,
                         0x2028, 0x2029, 0x202F, 0x205F, 0x3000, 0x3B}
  {
    SpaceMeaning(c);
  }

  function SolidChar(c: char): string {
    if IsFiller(c) then "" else [c]
  }

  /** The characters that are neither space nor semicolons. */
  function Solid(s: string): string {
    if s == "" then "" else SolidChar(s[0]) + Solid(s[1..])
  }

  lemma SolidFirst(c: char, s: string)
    ensures Solid([c] + s) == SolidChar(c) + Solid(s)
  {
    assert ([c] + s)[1..] == s;
  }

  lemma {:induction false} SolidAdds(a: string, b: string)
    ensures Solid(a + b) == Solid(a) + Solid(b)
  {
    if a == "" {
      assert a + b == b;
    } else {
      var c, rest := a[0], a[1..];
      assert a == [c] + rest && a + b == [c] + (rest + b);
      SolidAdds(rest, b);
      SolidFirst(c, rest);
      SolidFirst(c, rest + b);
    }
  }

  lemma {:induction false} FillerOnly(s: string)
    requires forall k | 0 <= k < |s| :: IsFiller(s[k])
    ensures Solid(s) == ""
  {
    if s != "" { FillerOnly(s[1..]); }
  }

  lemma SolidInside(a: string, inside: string, b: string)
    requires forall k | 0 <= k < |a| :: IsFiller(a[k])
    requires forall k | 0 <= k < |b| :: IsFiller(b[k])
    ensures Solid(a + inside + b) == Solid(inside)
  {
    FillerOnly(a);
    FillerOnly(b);
    SolidAdds(a, inside);
    SolidAdds(a + inside, b);
  }

  lemma SolidTrimmed(s: string)
    ensures Solid(TrimSpace(s)) == Solid(s)
  {
    var before, after := TrimSpaceAround(s);
    SolidInside(before, TrimSpace(s), after);
  }

  lemma SolidAround(a: string, c: char, b: string)
    requires IsFiller(c)
    ensures Solid(a + [c] + b) == Solid(a) + Solid(b)
  {
    FillerOnly([c]);
    SolidAdds(a, [c]);
    SolidAdds(a + [c], b);
  }

  lemma SolidFront(part: string, rest: string)
    ensures Solid(part + [SEMICOLON] + rest) == Solid(part) + Solid(rest)
  {
    SolidAround(part, SEMICOLON, rest);
  }

  lemma SolidJoin(parts: seq<string>, last: string)
    ensures Solid(Join(parts + [last], SEMICOLON)) == Solid(Join(parts, SEMICOLON)) + Solid(last)
  {
    JoinLast(parts, last, SEMICOLON);
    if parts == [] {
      assert Join(parts, SEMICOLON) == "";
    } else {
      SolidFront(Join(parts, SEMICOLON), last);
    }
  }

  lemma SolidBlank(parts: seq<string>, last: string)
    ensures Solid(Join(NonBlank(parts + [last]), SEMICOLON)) == Solid(Join(NonBlank(parts), SEMICOLON)) + Solid(last)
  {
    var kept := TrimSpace(last);
    assert (parts + [last])[..|parts|] == parts;
    SolidTrimmed(last);
    if kept == "" {
      assert NonBlank(parts + [last]) == NonBlank(parts);
    } else {
      assert NonBlank(parts + [last]) == NonBlank(parts) + [kept];
      SolidJoin(NonBlank(parts), kept);
    }
  }

  lemma {:induction false} NonBlankSolid(parts: seq<string>)
    ensures Solid(Join(NonBlank(parts), SEMICOLON)) == Solid(Join(parts, SEMICOLON))
  {
    if parts != [] {
      var init, last := parts[..|parts| - 1], parts[|parts| - 1];
      NonBlankSolid(init);
      SolidBlank(init, last);
      SolidJoin(init, last);
      assert parts == init + [last];
    }
  }

  /** Apart from space and semicolons every character of the text is in its statements, in order. */
  lemma NothingLost(src: string)
    ensures Solid(Join(Statements(src), ';')) == Solid(src)
  {
    NonBlankSolid(Split(src, SEMICOLON));
    JoinSplit(src, SEMICOLON);
  }

  /** A text without semicolons that neither begins nor ends with white space is one statement, sent
      as it stands. */
  lemma StandsAsItIs(s: string)
    requires s != "" && ';' !in s
    requires s[0] as int !in {0x09, 0x0A, 0x0B, 0x0C, 0x0D, 0x20, 0x85, 0xA0, 0x1680,
                               0x2000, 0x2001, 0x2002, 0x2003, 0x2004, 0x2005, 0x2006, 0x2007, 0x2008, 0x2009, 0x200A,
                               0x2028, 0x2029, 0x202F, 0x205F, 0x3000}
    requires s[|s| - 1] as int !in {0x09, 0x0A, 0x0B, 0x0C, 0x0D, 0x20, 0x85, 0xA0, 0x1680,
                                     0x2000, 0x2001, 0x2002, 0x2003, 0x2004, 0x2005, 0x2006, 0x2007, 0x2008, 0x2009, 0x200A,
                                     0x2028, 0x2029, 0x202F, 0x205F, 0x3000}
    ensures Statements(s) == [s]
  {
    SpaceMeaning(s[0]);
    SpaceMeaning(s[|s| - 1]);
    SplitWithoutSeparator(s, SEMICOLON);
    assert Trimmed(s);
    var i, j := TrimSpaceTrims(s);
    assert [s][..0] == [];
    assert NonBlank([s][..0]) == [];
  }
}
