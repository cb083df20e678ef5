/** The SQL script splitter. */
module Migrate {
  import opened Text

  predicate Comment(line: string) { HasPrefix(Trim(line), "--") }

  /** The lines that are not full-line comments. */
  function Kept(lines: seq<string>): seq<string> {
    if lines == [] then [] else
      Kept(lines[..|lines| - 1]) + if Comment(lines[|lines| - 1]) then [] else [lines[|lines| - 1]]
  }

  /** The pieces, trimmed, without the empty ones. */
  function Trimmed(parts: seq<string>): seq<string> {
    if parts == [] then [] else
      Trimmed(parts[..|parts| - 1]) + if Trim(parts[|parts| - 1]) == "" then [] else [Trim(parts[|parts| - 1])]
  }

  function Cleaned(script: string): string { Join(Kept(Split(script, '\n')), "\n") }

  function Statements(script: string): seq<string> { Trimmed(Split(Cleaned(script), ';')) }

  method SplitStatements(script: string) returns (out: seq<string>)
    ensures out == Statements(script)
  {
    var all := Split(script, '\n');
    var lines: seq<string> := [];
    for i := 0 to |all|
      invariant lines == Kept(all[..i])
    {
      assert all[..i + 1][..i] == all[..i];
      if HasPrefix(Trim(all[i]), "--") {
        continue;
      }
      lines := lines + [all[i]];
    }
    assert all[..|all|] == all;
    var parts := Split(Join(lines, "\n"), ';');
    out := [];
    for i := 0 to |parts|
      invariant out == Trimmed(parts[..i])
    {
      assert parts[..i + 1][..i] == parts[..i];
      var s := Trim(parts[i]);
      if s != "" {
        out := out + [s];
      }
    }
    assert parts[..|parts|] == parts;
  }

  // ----- Round trip -----

  lemma {:induction false} KeptConcat(a: seq<string>, b: seq<string>)
    ensures Kept(a + b) == Kept(a) + Kept(b)
  {
    if b == [] {
      assert a + b == a;
    } else {
      assert (a + b)[..|a + b| - 1] == a + b[..|b| - 1];
      KeptConcat(a, b[..|b| - 1]);
    }
  }

  lemma {:induction false} TrimmedConcat(a: seq<string>, b: seq<string>)
    ensures Trimmed(a + b) == Trimmed(a) + Trimmed(b)
  {
    if b == [] {
      assert a + b == a;
    } else {
      assert (a + b)[..|a + b| - 1] == a + b[..|b| - 1];
      TrimmedConcat(a, b[..|b| - 1]);
    }
  }

  lemma {:induction false} AllKept(lines: seq<string>)
    requires forall l | l in lines :: !Comment(l)
    ensures Kept(lines) == lines
  {
    if lines != [] {
      var front, last := lines[..|lines| - 1], lines[|lines| - 1];
      assert lines == front + [last];
      assert last in lines && forall l | l in front :: l in lines;
      AllKept(front);
    }
  }

  /** `lines` is `base` with full-line comments put in at line boundaries. */
  predicate AddsComments(base: seq<string>, lines: seq<string>) {
    if lines == [] then base == [] else
      (Comment(lines[0]) && AddsComments(base, lines[1..]))
      || (base != [] && base[0] == lines[0] && AddsComments(base[1..], lines[1..]))
  }

  lemma {:induction false} CommentsDrop(base: seq<string>, lines: seq<string>)
    requires AddsComments(base, lines)
    ensures Kept(lines) == Kept(base)
    decreases |lines|
  {
    if lines != [] {
      assert lines == [lines[0]] + lines[1..];
      KeptConcat([lines[0]], lines[1..]);
      assert [lines[0]][..0] == [];
      if Comment(lines[0]) && AddsComments(base, lines[1..]) {
        CommentsDrop(base, lines[1..]);
      } else {
        assert base == [base[0]] + base[1..];
        KeptConcat([base[0]], base[1..]);
        CommentsDrop(base[1..], lines[1..]);
      }
    }
  }

  /** A statement the splitter hands back as it is. */
  predicate Plain(s: string) {
    && s != "" && Trim(s) == s && ';' !in s
    && forall l | l in Split(s, '\n') :: !Comment(l)
  }

  lemma {:induction false} TrimRightPrefix(s: string)
    ensures TrimRight(s) <= s
    ensures forall i | 0 <= i < |s| && !IsSpace(s[i]) :: i < |TrimRight(s)|
  {
    if s != "" && IsSpace(s[|s| - 1]) {
      TrimRightPrefix(s[..|s| - 1]);
      forall i | 0 <= i < |s| && !IsSpace(s[i]) ensures i < |TrimRight(s)| {
        assert s[..|s| - 1][i] == s[i];
      }
    }
  }

  lemma {:induction false} TrimLeftOf(a: string, b: string)
    requires AllSpace(a) && b != "" && !IsSpace(b[0])
    ensures TrimLeft(a + b) == b
  {
    if a == "" {
      assert a + b == b;
    } else {
      assert (a + b)[1..] == a[1..] + b;
      TrimLeftOf(a[1..], b);
    }
  }

  /** A comment line is white space, two dashes and anything. */
  lemma CommentIsDashes(line: string)
    ensures Comment(line) <==> exists a, rest :: AllSpace(a) && line == a + "--" + rest
  {
    if Comment(line) {
      var a, b := TrimCuts(line);
      var rest := Trim(line)[2..] + b;
      assert Trim(line) == "--" + Trim(line)[2..];
      assert line == a + "--" + rest;
    }
    if a, rest :| AllSpace(a) && line == a + "--" + rest {
      var dashes := "--" + rest;
      assert line == a + dashes;
      TrimLeftOf(a, dashes);
      TrimRightPrefix(dashes);
      assert dashes[0] == '-' && dashes[1] == '-';
      assert |TrimRight(dashes)| >= 2;
      assert "--" <= TrimRight(dashes);
    }
  }

  lemma {:induction false} TrimLeftSemi(s: string)
    ensures TrimLeft(s + ";") == TrimLeft(s) + ";"
  {
    if s != "" && IsSpace(s[0]) {
      assert (s + ";")[1..] == s[1..] + ";";
      TrimLeftSemi(s[1..]);
    }
  }

  /** Ending a line with a semicolon does not make it a comment. */
  lemma SemiComment(l: string)
    requires Comment(l + ";")
    ensures Comment(l)
  {
    TrimLeftSemi(l);
    var x := TrimLeft(l);
    assert Trim(l + ";") == x + ";";
    assert (x + ";")[0] == '-' && (x + ";")[1] == '-';
    assert |x| >= 2 && x[0] == '-' && x[1] == '-';
    TrimRightPrefix(x);
    assert TrimRight(x)[..2] == x[..2];
  }

  lemma {:induction false} SplitSemi(s: string)
    ensures var lines := Split(s, '\n'); Split(s + ";", '\n') == lines[..|lines| - 1] + [lines[|lines| - 1] + ";"]
  {
    if s == "" {
      assert s + ";" == ";";
      SplitWhole(";", '\n');
    } else {
      assert (s + ";")[1..] == s[1..] + ";";
      SplitSemi(s[1..]);
      var rest := Split(s[1..], '\n');
      if s[0] != '\n' && |rest| == 1 {
        assert [s[0]] + (rest[0] + ";") == [s[0]] + rest[0] + ";";
      }
    }
  }

  /** Statements joined by semicolon and newline. */
  function Script(stmts: seq<string>): string { Join(stmts, ";\n") }

  lemma {:induction false} ScriptHasNoComments(stmts: seq<string>)
    requires forall s | s in stmts :: Plain(s)
    ensures forall l | l in Split(Script(stmts), '\n') :: !Comment(l)
  {
    if stmts == [] {
      assert Split("", '\n') == [""];
    } else {
      var s := stmts[0];
      assert s in stmts && Plain(s);
      if |stmts| > 1 {
        ScriptHasNoComments(stmts[1..]);
        var rest := Script(stmts[1..]);
        assert Script(stmts) == (s + ";") + ['\n'] + rest;
        SplitAt(s + ";", '\n', rest);
        SplitSemi(s);
        var last := Split(s, '\n')[|Split(s, '\n')| - 1];
        if Comment(last + ";") {
          SemiComment(last);
        }
      }
    }
  }

  lemma TrimNewline(s: string)
    ensures Trim("\n" + s) == Trim(s)
  {
    assert ("\n" + s)[1..] == s;
  }

  lemma PieceOf(s: string, lead: string)
    requires Plain(s) && (lead == "" || lead == "\n")
    ensures Split(lead + s, ';') == [lead + s] && Trimmed([lead + s]) == [s]
  {
    SplitWhole(lead + s, ';');
    TrimNewline(s);
    assert "" + s == s;
    assert [lead + s][..0] == [];
  }

  lemma NoPieces(lead: string)
    requires lead == "" || lead == "\n"
    ensures Trimmed(Split(lead, ';')) == []
  {
    SplitWhole(lead, ';');
    assert [lead][..0] == [];
    assert "\n" + "" == "\n";
    TrimNewline("");
  }

  lemma PiecesOfTwo(s: string, later: seq<string>, lead: string)
    requires Split(lead + s, ';') == [lead + s] && later != []
    ensures Trimmed(Split(lead + Script([s] + later), ';')) ==
        Trimmed([lead + s]) + Trimmed(Split("\n" + Script(later), ';'))
  {
    var rest := "\n" + Script(later);
    JoinCons(s, later, ";\n");
    assert lead + Script([s] + later) == (lead + s) + [';'] + rest;
    SplitAt(lead + s, ';', rest);
    TrimmedConcat([lead + s], Split(rest, ';'));
  }

  lemma {:induction false} ScriptPieces(stmts: seq<string>, lead: string)
    requires forall s | s in stmts :: Plain(s)
    requires lead == "" || lead == "\n"
    ensures Trimmed(Split(lead + Script(stmts), ';')) == stmts
  {
    if stmts == [] {
      assert lead + Script(stmts) == lead;
      NoPieces(lead);
    } else {
      var s, later := stmts[0], stmts[1..];
      assert stmts == [s] + later;
      assert s in stmts;
      PieceOf(s, lead);
      if later != [] {
        forall t | t in later ensures Plain(t) {
          assert t in stmts;
        }
        ScriptPieces(later, "\n");
        PiecesOfTwo(s, later, lead);
      }
    }
  }

  /**
   Round trip: plain statements joined by ";\n", with any full-line comments put in at line boundaries, split back
   into exactly those statements.
   */
  lemma SplitScript(stmts: seq<string>, lines: seq<string>)
    requires forall s | s in stmts :: Plain(s)
    requires AddsComments(Split(Script(stmts), '\n'), lines) && forall l | l in lines :: '\n' !in l
    ensures Statements(Join(lines, "\n")) == stmts
  {
    var base := Split(Script(stmts), '\n');
    assert lines != [];
    SplitJoin(lines, '\n');
    CommentsDrop(base, lines);
    ScriptHasNoComments(stmts);
    AllKept(base);
    JoinSplit(Script(stmts), '\n');
    assert "" + Script(stmts) == Script(stmts);
    ScriptPieces(stmts, "");
  }

  // ----- Nothing else is lost or added -----

  /** The characters of `s` that are not white space. */
  function NonSpace(s: string): string {
    if s == "" then "" else (if IsSpace(s[0]) then "" else [s[0]]) + NonSpace(s[1..])
  }

  /** The characters of `s` that are neither white space nor a semicolon. */
  function Solid(s: string): string {
    if s == "" then "" else (if IsSpace(s[0]) || s[0] == ';' then "" else [s[0]]) + Solid(s[1..])
  }

  function Flat(parts: seq<string>): string {
    if parts == [] then "" else Flat(parts[..|parts| - 1]) + parts[|parts| - 1]
  }

  lemma {:induction false} SolidConcat(a: string, b: string)
    ensures Solid(a + b) == Solid(a) + Solid(b)
  {
    if a == "" {
      assert a + b == b;
    } else {
      assert (a + b)[1..] == a[1..] + b;
      SolidConcat(a[1..], b);
    }
  }

  lemma {:induction false} SolidTrimLeft(s: string)
    ensures Solid(TrimLeft(s)) == Solid(s)
  {
    if s != "" && IsSpace(s[0]) {
      SolidTrimLeft(s[1..]);
    }
  }

  lemma {:induction false} SolidTrimRight(s: string)
    ensures Solid(TrimRight(s)) == Solid(s)
  {
    if s != "" && IsSpace(s[|s| - 1]) {
      var front, last := s[..|s| - 1], [s[|s| - 1]];
      SolidTrimRight(front);
      SolidConcat(front, last);
      assert s == front + last;
    }
  }

  lemma {:induction false} SolidTrim(s: string)
    ensures Solid(Trim(s)) == Solid(s)
  {
    SolidTrimLeft(s);
    SolidTrimRight(TrimLeft(s));
  }

  lemma FlatSnoc(front: seq<string>, last: string)
    ensures Flat(front + [last]) == Flat(front) + last
  {
    assert (front + [last])[..|front|] == front;
  }

  lemma {:induction false} FlatCons(first: string, rest: seq<string>)
    ensures Flat([first] + rest) == first + Flat(rest)
  {
    if rest == [] {
      assert [first] + rest == [first] && [first][..0] == [];
    } else {
      assert ([first] + rest)[..|rest|] == [first] + rest[..|rest| - 1];
      FlatCons(first, rest[..|rest| - 1]);
    }
  }

  lemma {:induction false} SolidJoin(parts: seq<string>, sep: string)
    requires Solid(sep) == ""
    ensures Solid(Join(parts, sep)) == Solid(Flat(parts))
  {
    if |parts| == 1 {
      FlatSnoc([], parts[0]);
      assert [] + [parts[0]] == parts && Flat([]) + parts[0] == parts[0];
    } else if |parts| > 1 {
      SolidJoin(parts[1..], sep);
      assert parts == [parts[0]] + parts[1..];
      FlatCons(parts[0], parts[1..]);
      SolidConcat(parts[0] + sep, Join(parts[1..], sep));
      SolidConcat(parts[0], sep);
      SolidConcat(parts[0], Flat(parts[1..]));
    }
  }

  lemma {:induction false} SolidTrimmed(parts: seq<string>)
    ensures Solid(Flat(Trimmed(parts))) == Solid(Flat(parts))
  {
    if parts != [] {
      var front, last := parts[..|parts| - 1], parts[|parts| - 1];
      SolidTrimmed(front);
      SolidTrim(last);
      SolidConcat(Flat(front), last);
      if Trim(last) == "" {
        assert Trimmed(parts) == Trimmed(front);
        assert Solid(last) == "";
      } else {
        FlatSnoc(Trimmed(front), Trim(last));
        SolidConcat(Flat(Trimmed(front)), Trim(last));
      }
    }
  }

  lemma {:induction false} NoSemi(s: string)
    requires ';' !in s
    ensures NonSpace(s) == Solid(s)
  {
    if s != "" {
      NoSemi(s[1..]);
    }
  }

  lemma {:induction false} TrimLeftFree(s: string, c: char)
    requires c !in s
    ensures c !in TrimLeft(s)
  {
    if s != "" && IsSpace(s[0]) {
      TrimLeftFree(s[1..], c);
    }
  }

  lemma {:induction false} TrimKeepsFree(s: string, c: char)
    requires c !in s
    ensures c !in Trim(s)
  {
    TrimRightPrefix(TrimLeft(s));
    TrimLeftFree(s, c);
  }

  lemma {:induction false} TrimmedFree(parts: seq<string>)
    requires forall p | p in parts :: ';' !in p
    ensures forall s | s in Trimmed(parts) :: s != "" && ';' !in s
  {
    if parts != [] {
      assert parts[|parts| - 1] in parts;
      TrimmedFree(parts[..|parts| - 1]);
      TrimKeepsFree(parts[|parts| - 1], ';');
    }
  }

  lemma {:induction false} FlatFree(parts: seq<string>, c: char)
    requires forall p | p in parts :: c !in p
    ensures c !in Flat(parts)
  {
    if parts != [] {
      assert parts[|parts| - 1] in parts;
      FlatFree(parts[..|parts| - 1], c);
    }
  }

  /**
   For every script: the statements are non-empty and free of semicolons, and their non-space characters, in order,
   are exactly those of the kept lines without the semicolons.
   */
  lemma SplitLosesNothing(script: string)
    ensures NonSpace(Flat(Statements(script))) == Solid(Flat(Kept(Split(script, '\n'))))
    ensures forall s | s in Statements(script) :: s != "" && ';' !in s
  {
    var kept := Kept(Split(script, '\n'));
    var parts := Split(Join(kept, "\n"), ';');
    SplitFree(Join(kept, "\n"), ';');
    TrimmedFree(parts);
    FlatFree(Trimmed(parts), ';');
    NoSemi(Flat(Trimmed(parts)));
    SolidTrimmed(parts);
    SolidJoin(parts, ";");
    JoinSplit(Join(kept, "\n"), ';');
    SolidJoin(kept, "\n");
  }
}
