/** Strings as the Go standard library handles them: joining, splitting on one character, trimming white space. */
module Text {
  import opened Ordering

  function Join(parts: seq<string>, sep: string): string {
    if parts == [] then "" else if |parts| == 1 then parts[0] else parts[0] + sep + Join(parts[1..], sep)
  }

  function Count(s: string, c: char): nat {
    if s == "" then 0 else (if s[0] == c then 1 else 0) + Count(s[1..], c)
  }

  lemma CountFrom(s: string, i: nat, c: char)
    requires i < |s|
    ensures Count(s[i..], c) == (if s[i] == c then 1 else 0) + Count(s[i + 1..], c)
  {
    assert s[i..][1..] == s[i + 1..];
  }

  lemma {:induction false} CountConcat(a: string, b: string, c: char)
    ensures Count(a + b, c) == Count(a, c) + Count(b, c)
  {
    if a == "" {
      assert a + b == b;
    } else {
      assert (a + b)[1..] == a[1..] + b;
      CountConcat(a[1..], b, c);
    }
  }

  // ----- Splitting on one character -----

  /** strings.Split with a one-character separator: always at least one piece. */
  function Split(s: string, c: char): (parts: seq<string>)
    ensures |parts| >= 1
  {
    if s == "" then [""]
    else if s[0] == c then [""] + Split(s[1..], c)
    else
      var rest := Split(s[1..], c);
      [[s[0]] + rest[0]] + rest[1..]
  }

  lemma {:induction false} SplitWhole(s: string, c: char)
    requires c !in s
    ensures Split(s, c) == [s]
  {
    if s != "" {
      assert s[0] in s;
      SplitWhole(s[1..], c);
      assert [s[0]] + s[1..] == s;
    }
  }

  lemma SplitCons(x: char, s: string, c: char)
    ensures Split([x] + s, c) == if x == c then [""] + Split(s, c) else [[x] + Split(s, c)[0]] + Split(s, c)[1..]
  {
    assert ([x] + s)[1..] == s;
  }

  lemma CutFirst(head: string, x: seq<string>, y: seq<string>)
    requires x != []
    ensures [head + (x + y)[0]] + (x + y)[1..] == [head + x[0]] + x[1..] + y
    ensures [""] + (x + y) == [""] + x + y
  {
    assert (x + y)[1..] == x[1..] + y;
  }

  /** A separator cuts the split in two. */
  lemma {:induction false} SplitAt(a: string, c: char, b: string)
    ensures Split(a + [c] + b, c) == Split(a, c) + Split(b, c)
  {
    SplitCons(c, b, c);
    if a == "" {
      assert a + [c] + b == [c] + b;
    } else {
      var rest := a[1..];
      SplitAt(rest, c, b);
      assert a + [c] + b == [a[0]] + (rest + [c] + b) && a == [a[0]] + rest;
      SplitCons(a[0], rest + [c] + b, c);
      SplitCons(a[0], rest, c);
      CutFirst([a[0]], Split(rest, c), Split(b, c));
    }
  }

  lemma {:induction false} JoinCons(first: string, rest: seq<string>, sep: string)
    requires rest != []
    ensures Join([first] + rest, sep) == first + sep + Join(rest, sep)
  {
    assert ([first] + rest)[1..] == rest;
  }

  /** Joining the pieces gives the text back. */
  lemma {:induction false} JoinSplit(s: string, c: char)
    ensures Join(Split(s, c), [c]) == s
  {
    if s != "" {
      JoinSplit(s[1..], c);
      var rest := Split(s[1..], c);
      if s[0] == c {
        JoinCons("", rest, [c]);
      } else if |rest| > 1 {
        assert rest == [rest[0]] + rest[1..];
        JoinCons(rest[0], rest[1..], [c]);
        JoinCons([s[0]] + rest[0], rest[1..], [c]);
      }
    }
  }

  /** Pieces without the separator survive joining and splitting. */
  lemma {:induction false} SplitJoin(parts: seq<string>, c: char)
    requires parts != [] && forall p | p in parts :: c !in p
    ensures Split(Join(parts, [c]), c) == parts
  {
    assert parts[0] in parts;
    SplitWhole(parts[0], c);
    if |parts| > 1 {
      forall p | p in parts[1..] ensures c !in p {
        assert p in parts;
      }
      SplitJoin(parts[1..], c);
      SplitAt(parts[0], c, Join(parts[1..], [c]));
    }
  }

  lemma {:induction false} SplitFree(s: string, c: char)
    ensures forall p | p in Split(s, c) :: c !in p
  {
    if s != "" {
      SplitFree(s[1..], c);
      var rest := Split(s[1..], c);
      assert rest[0] in rest;
      forall p | p in Split(s, c) ensures c !in p {
        if s[0] != c {
          var i :| 0 <= i < |Split(s, c)| && Split(s, c)[i] == p;
          assert i > 0 ==> p == rest[i] && rest[i] in rest;
        }
      }
    }
  }

  // ----- Trimming -----

  /** White space as strings.TrimSpace cuts it. */
  predicate IsSpace(c: char) {
    c in {' ', '\t', '\n', '\r', '\U{000B}', '\U{000C}', '\U{0085}', '\U{00A0}', '\U{1680}', '\U{2028}', '\U{2029}',
          '\U{202F}', '\U{205F}', '\U{3000}'}
    || '\U{2000}' <= c <= '\U{200A}'
  }

  function TrimLeft(s: string): string {
    if s == "" || !IsSpace(s[0]) then s else TrimLeft(s[1..])
  }

  function TrimRight(s: string): string {
    if s == "" || !IsSpace(s[|s| - 1]) then s else TrimRight(s[..|s| - 1])
  }

  function Trim(s: string): string { TrimRight(TrimLeft(s)) }

  predicate AllSpace(s: string) { forall c | c in s :: IsSpace(c) }

  lemma {:induction false} TrimLeftCuts(s: string) returns (a: string)
    ensures s == a + TrimLeft(s) && AllSpace(a)
    ensures TrimLeft(s) != "" ==> !IsSpace(TrimLeft(s)[0])
  {
    a := "";
    if s != "" && IsSpace(s[0]) {
      var rest := TrimLeftCuts(s[1..]);
      a := [s[0]] + rest;
      assert s == [s[0]] + s[1..];
    }
  }

  lemma {:induction false} TrimRightCuts(s: string) returns (b: string)
    ensures s == TrimRight(s) + b && AllSpace(b)
    ensures TrimRight(s) != "" ==> !IsSpace(TrimRight(s)[|TrimRight(s)| - 1])
  {
    b := "";
    if s != "" && IsSpace(s[|s| - 1]) {
      var rest := TrimRightCuts(s[..|s| - 1]);
      b := rest + [s[|s| - 1]];
      assert s == s[..|s| - 1] + [s[|s| - 1]];
    }
  }

  /** What trimming is: white space cut off both ends, and none left there. */
  lemma TrimCuts(s: string) returns (a: string, b: string)
    ensures s == a + Trim(s) + b && AllSpace(a) && AllSpace(b)
    ensures Trim(s) != "" ==> !IsSpace(Trim(s)[0]) && !IsSpace(Trim(s)[|Trim(s)| - 1])
  {
    a := TrimLeftCuts(s);
    b := TrimRightCuts(TrimLeft(s));
    assert Trim(s) != "" ==> Trim(s)[0] == TrimLeft(s)[0];
  }

  /** White space by code point, as Unicode lists it. */
  lemma SpaceByCodePoint(c: char)
    ensures IsSpace(c) <==>
      var p := c as int;
      || 0x09 <= p <= 0x0D || p == 0x20 || p == 0x85 || p == 0xA0 || p == 0x1680 || 0x2000 <= p <= 0x200A
      || p == 0x2028 || p == 0x2029 || p == 0x202F || p == 0x205F || p == 0x3000
  {
  }

  predicate HasPrefix(s: string, p: string) { p <= s }

  predicate HasSuffix(s: string, p: string) { |p| <= |s| && s[|s| - |p|..] == p }

  // ----- Order -----

  /** The order of sort.Strings: by the first character in which two strings differ, a proper prefix first. */
  predicate StringLess(a: string, b: string) {
    b != "" && (a == "" || a[0] < b[0] || (a[0] == b[0] && StringLess(a[1..], b[1..])))
  }

  predicate SplitsAt(a: string, b: string, k: nat) {
    && k <= |a| && k <= |b| && a[..k] == b[..k]
    && (if k == |a| then |a| < |b| else k < |b| && a[k] < b[k])
  }

  /** `a` comes before `b`: a proper prefix of it, or smaller in the first character in which they differ. */
  ghost predicate Before(a: string, b: string) {
    exists k: nat :: SplitsAt(a, b, k)
  }

  lemma {:induction false} StringLessIsBefore(a: string, b: string)
    requires StringLess(a, b)
    ensures Before(a, b)
  {
    if a == "" || a[0] < b[0] {
      assert SplitsAt(a, b, 0);
    } else {
      StringLessIsBefore(a[1..], b[1..]);
      var k: nat :| SplitsAt(a[1..], b[1..], k);
      assert a[..k + 1] == [a[0]] + a[1..][..k] && b[..k + 1] == [b[0]] + b[1..][..k];
      assert SplitsAt(a, b, k + 1);
    }
  }

  lemma {:induction false} StringLessStrict(a: string)
    ensures !StringLess(a, a)
  {
    if a != "" {
      StringLessStrict(a[1..]);
    }
  }

  lemma {:induction false} StringLessDecides(a: string, b: string)
    requires a != b
    ensures StringLess(a, b) || StringLess(b, a)
  {
    if a != "" && b != "" && a[0] == b[0] {
      assert a == [a[0]] + a[1..] && b == [b[0]] + b[1..];
      StringLessDecides(a[1..], b[1..]);
    }
  }

  lemma {:induction false} StringLessChains(a: string, b: string, c: string)
    requires StringLess(a, b) && StringLess(b, c)
    ensures StringLess(a, c)
  {
    if a != "" && a[0] == b[0] == c[0] {
      StringLessChains(a[1..], b[1..], c[1..]);
    }
  }

  lemma {:induction false} StringsTotal(s: set<string>)
    ensures TotalOn(s, StringLess)
  {
    forall x | x in s ensures !StringLess(x, x) {
      StringLessStrict(x);
    }
    forall x, y | x in s && y in s && x != y ensures StringLess(x, y) || StringLess(y, x) {
      StringLessDecides(x, y);
    }
    forall x, y, z | x in s && y in s && z in s && StringLess(x, y) && StringLess(y, z) ensures StringLess(x, z) {
      StringLessChains(x, y, z);
    }
  }
}
