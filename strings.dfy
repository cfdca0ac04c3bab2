/** The few Python `str` builtins the compiler relies on, with the exact
    character classes CPython uses (`str.isspace`, `str.splitlines`). */
module Strings {

  /** Characters for which Python's `str.isspace()` holds. */
  predicate IsSpace(c: char) {
    ('\t' <= c <= '\r') || ('\U{1C}' <= c <= ' ') || c == '\U{85}' || c == '\U{A0}'
    || c == '\U{1680}' || ('\U{2000}' <= c <= '\U{200A}') || c == '\U{2028}' || c == '\U{2029}'
    || c == '\U{202F}' || c == '\U{205F}' || c == '\U{3000}'
  }

  /** Characters at which Python's `str.splitlines()` breaks a line. */
  predicate IsLineBoundary(c: char) {
    ('\n' <= c <= '\r') || ('\U{1C}' <= c <= '\U{1E}') || c == '\U{85}'
    || c == '\U{2028}' || c == '\U{2029}'
  }

  predicate StartsWith(s: string, prefix: string) {
    |prefix| <= |s| && s[..|prefix|] == prefix
  }

  predicate EndsWith(s: string, suffix: string) {
    |suffix| <= |s| && s[|s| - |suffix|..] == suffix
  }

  /** `needle` occurs in `s` starting at index i. */
  predicate OccursAt(s: string, needle: string, i: int) {
    0 <= i && i + |needle| <= |s| && s[i..i + |needle|] == needle
  }

  /** `needle in s` */
  predicate Contains(s: string, needle: string) {
    exists i | 0 <= i <= |s| :: OccursAt(s, needle, i)
  }

  /** `s.lstrip(c)` */
  function LStripChar(s: string, c: char): (r: string)
    ensures |r| <= |s| && r == s[|s| - |r|..]
    ensures r == [] || r[0] != c
    ensures forall i :: 0 <= i < |s| - |r| ==> s[i] == c
  {
    if s != [] && s[0] == c then LStripChar(s[1..], c) else s
  }

  /** `s.rstrip(c)` */
  function RStripChar(s: string, c: char): (r: string)
    ensures |r| <= |s| && r == s[..|r|]
    ensures r == [] || r[|r| - 1] != c
    ensures forall i :: |r| <= i < |s| ==> s[i] == c
  {
    if s != [] && s[|s| - 1] == c then RStripChar(s[..|s| - 1], c) else s
  }

  /** `r` is `s[i..i + |r|]` and everything of `s` around it is `c`. */
  predicate TrimmedOf(s: string, r: string, i: int, c: char) {
    0 <= i && i + |r| <= |s| && s[i..i + |r|] == r
    && (forall k :: 0 <= k < i ==> s[k] == c)
    && (forall k :: i + |r| <= k < |s| ==> s[k] == c)
  }

  /** `s.strip(c)` */
  function StripChar(s: string, c: char): (r: string)
    ensures r == [] || (r[0] != c && r[|r| - 1] != c)
    ensures c !in s ==> r == s
  {
    RStripChar(LStripChar(s, c), c)
  }

  /** What `strip(c)` removes: only `c`s, on both sides of the text it
      keeps. */
  lemma StripCharTrims(s: string, c: char)
    ensures TrimmedOf(s, StripChar(s, c), |s| - |LStripChar(s, c)|, c)
  {
    var l := LStripChar(s, c);
    var r := RStripChar(l, c);
    var i := |s| - |l|;
    assert r == StripChar(s, c);
    assert s[i..i + |r|] == r by {
      assert s[i..i + |r|] == s[i..][..|r|];
    }
    forall k | i + |r| <= k < |s| ensures s[k] == c {
      assert s[k] == l[k - i];
    }
    TrimmedIntro(s, r, i, c);
  }

  lemma TrimmedIntro(s: string, r: string, i: int, c: char)
    requires 0 <= i && i + |r| <= |s| && s[i..i + |r|] == r
    requires forall k :: 0 <= k < i ==> s[k] == c
    requires forall k :: i + |r| <= k < |s| ==> s[k] == c
    ensures TrimmedOf(s, r, i, c)
  {
  }

  /** `s.lstrip()` */
  function LStrip(s: string): (r: string)
    ensures |r| <= |s| && r == s[|s| - |r|..]
    ensures r == [] || !IsSpace(r[0])
  {
    if s != [] && IsSpace(s[0]) then LStrip(s[1..]) else s
  }

  /** `s.rstrip()` */
  function RStrip(s: string): (r: string)
    ensures |r| <= |s| && r == s[..|r|]
    ensures r == [] || !IsSpace(r[|r| - 1])
    ensures forall i :: |r| <= i < |s| ==> IsSpace(s[i])
  {
    if s != [] && IsSpace(s[|s| - 1]) then RStrip(s[..|s| - 1]) else s
  }

  /** `r` is `s[i..i + |r|]` and everything of `s` around it is whitespace. */
  predicate SpaceTrimmedOf(s: string, r: string, i: int) {
    0 <= i && i + |r| <= |s| && s[i..i + |r|] == r
    && (forall k :: 0 <= k < i ==> IsSpace(s[k]))
    && (forall k :: i + |r| <= k < |s| ==> IsSpace(s[k]))
  }

  /** `s.strip()`: no whitespace at either end. */
  function Strip(s: string): (r: string)
    ensures r == [] || (!IsSpace(r[0]) && !IsSpace(r[|r| - 1]))
    ensures |r| <= |s|
  {
    RStrip(LStrip(s))
  }

  /** What `strip()` removes: only whitespace, on both sides of the text it
      keeps. */
  lemma StripTrims(s: string)
    ensures SpaceTrimmedOf(s, Strip(s), |s| - |LStrip(s)|)
  {
    var l := LStrip(s);
    var r := RStrip(l);
    var i := |s| - |l|;
    assert r == Strip(s);
    StripMiddle(s, l, r, i);
    LStripOnlySpace(s);
    StripRight(s, l, r, i);
    SpaceTrimmedIntro(s, r, i);
  }

  lemma SpaceTrimmedIntro(s: string, r: string, i: int)
    requires 0 <= i && i + |r| <= |s| && s[i..i + |r|] == r
    requires forall k :: 0 <= k < i ==> IsSpace(s[k])
    requires forall k :: i + |r| <= k < |s| ==> IsSpace(s[k])
    ensures SpaceTrimmedOf(s, r, i)
  {
  }

  lemma StripMiddle(s: string, l: string, r: string, i: int)
    requires 0 <= i <= |s| && l == s[i..] && |r| <= |l| && r == l[..|r|]
    ensures s[i..i + |r|] == r
  {
    assert s[i..i + |r|] == s[i..][..|r|];
  }

  lemma StripRight(s: string, l: string, r: string, i: int)
    requires 0 <= i <= |s| && l == s[i..] && |r| <= |l| && r == RStrip(l)
    ensures forall k :: i + |r| <= k < |s| ==> IsSpace(s[k])
  {
    forall k | i + |r| <= k < |s| ensures IsSpace(s[k]) {
      assert s[k] == l[k - i];
    }
  }

  lemma {:induction false} LStripOnlySpace(s: string)
    ensures forall k :: 0 <= k < |s| - |LStrip(s)| ==> IsSpace(s[k])
  {
    if s != [] && IsSpace(s[0]) {
      LStripOnlySpace(s[1..]);
      forall k | 1 <= k < |s| - |LStrip(s)| ensures IsSpace(s[k]) {
        assert s[k] == s[1..][k - 1];
      }
    }
  }

  /** `s.replace(a, b)` for single characters. */
  function ReplaceChar(s: string, a: char, b: char): (r: string)
    ensures |r| == |s|
    ensures forall i :: 0 <= i < |s| ==> r[i] == if s[i] == a then b else s[i]
  {
    if s == [] then [] else [if s[0] == a then b else s[0]] + ReplaceChar(s[1..], a, b)
  }

  /** `s.split(c)` for a single-character separator: never empty, and no
      piece holds the separator. */
  function Split(s: string, c: char): (r: seq<string>)
    ensures |r| >= 1
    ensures forall i :: 0 <= i < |r| ==> c !in r[i]
  {
    if s == [] then [[]]
    else
      var rest := Split(s[1..], c);
      if s[0] == c then [[]] + rest else [[s[0]] + rest[0]] + rest[1..]
  }

  /** `sep.join(parts)` */
  function Join(parts: seq<string>, sep: string): string {
    if parts == [] then []
    else if |parts| == 1 then parts[0]
    else parts[0] + sep + Join(parts[1..], sep)
  }

  lemma {:induction false} SplitJoin(s: string, c: char)
    ensures Join(Split(s, c), [c]) == s
  {
    if s != [] {
      SplitJoin(s[1..], c);
      var rest := Split(s[1..], c);
      if s[0] != c {
        if |rest| > 1 {
          assert Join(rest, [c]) == rest[0] + [c] + Join(rest[1..], [c]);
        }
      }
    }
  }

  /** A text without the separator is one piece. */
  lemma {:induction false} SplitNone(s: string, c: char)
    requires c !in s
    ensures Split(s, c) == [s]
  {
    if s != [] {
      SplitNone(s[1..], c);
      assert [s[0]] + s[1..] == s;
    }
  }

  /** Splitting at the first separator. */
  lemma {:induction false} SplitAt(a: string, b: string, c: char)
    requires c !in a
    ensures Split(a + [c] + b, c) == [a] + Split(b, c)
  {
    var s := a + [c] + b;
    if a == [] {
      assert s[1..] == b;
    } else {
      assert s[0] == a[0] && s[1..] == a[1..] + [c] + b;
      SplitAt(a[1..], b, c);
      assert [a[0]] + a[1..] == a;
    }
  }

  lemma {:induction false} JoinNoChar(parts: seq<string>, sep: string, c: char)
    requires c !in sep
    requires forall i :: 0 <= i < |parts| ==> c !in parts[i]
    ensures c !in Join(parts, sep)
  {
    if |parts| > 1 {
      JoinNoChar(parts[1..], sep, c);
    }
  }

  /** `c.lower()` wherever the result holds an ASCII character: A-Z, the
      Kelvin sign and capital I with dot above. Every other character is
      kept; its lower-case form, like itself, holds no ASCII character, so
      comparisons against ASCII text come out as in Python. */
  function LowerChar(c: char): (r: string)
    ensures forall j :: 0 <= j < |r| ==> !('A' <= r[j] <= 'Z')
  {
    if 'A' <= c <= 'Z' then [(c as int + 32) as char]
    else if c == '\U{212A}' then "k"
    else if c == '\U{0130}' then "i\U{0307}"
    else [c]
  }

  /** `c.upper()` wherever the result holds an ASCII character: a-z, dotless
      i, long s, sharp s, the Latin f/s ligatures and the letters whose
      upper-case form is an ASCII letter plus a combining mark. Every other
      character is kept; its upper-case form, like itself, holds no ASCII
      character. */
  function UpperChar(c: char): (r: string)
    ensures forall j :: 0 <= j < |r| ==> !('a' <= r[j] <= 'z')
  {
    if 'a' <= c <= 'z' then [(c as int - 32) as char]
    else if c == '\U{0131}' then "I"
    else if c == '\U{017F}' then "S"
    else if c == '\U{00DF}' then "SS"
    else if c == '\U{0149}' then "\U{02BC}N"
    else if c == '\U{01F0}' then "J\U{030C}"
    else if c == '\U{1E96}' then "H\U{0331}"
    else if c == '\U{1E97}' then "T\U{0308}"
    else if c == '\U{1E98}' then "W\U{030A}"
    else if c == '\U{1E99}' then "Y\U{030A}"
    else if c == '\U{1E9A}' then "A\U{02BE}"
    else if c == '\U{FB00}' then "FF"
    else if c == '\U{FB01}' then "FI"
    else if c == '\U{FB02}' then "FL"
    else if c == '\U{FB03}' then "FFI"
    else if c == '\U{FB04}' then "FFL"
    else if c == '\U{FB05}' || c == '\U{FB06}' then "ST"
    else [c]
  }

  predicate IsAscii(s: string) {
    forall i :: 0 <= i < |s| ==> s[i] < '\U{80}'
  }

  /** `r` is `s` with every letter A-Z replaced by its lower case. */
  predicate LoweredAscii(s: string, r: string) {
    |r| == |s| && forall i :: 0 <= i < |s| ==>
      r[i] == if 'A' <= s[i] <= 'Z' then (s[i] as int + 32) as char else s[i]
  }

  /** `r` is `s` with every letter a-z replaced by its upper case. */
  predicate RaisedAscii(s: string, r: string) {
    |r| == |s| && forall i :: 0 <= i < |s| ==>
      r[i] == if 'a' <= s[i] <= 'z' then (s[i] as int - 32) as char else s[i]
  }

  /** `s.lower()`, as LowerChar describes: no upper-case ASCII letter
      survives, and an ASCII text is lowered letter by letter. */
  function Lower(s: string): (r: string)
    ensures forall j :: 0 <= j < |r| ==> !('A' <= r[j] <= 'Z')
    ensures IsAscii(s) ==> LoweredAscii(s, r)
  {
    if s == [] then [] else LowerChar(s[0]) + Lower(s[1..])
  }

  /** `s.upper()`, as UpperChar describes: no lower-case ASCII letter
      survives, and an ASCII text is raised letter by letter. */
  function Upper(s: string): (r: string)
    ensures forall j :: 0 <= j < |r| ==> !('a' <= r[j] <= 'z')
    ensures IsAscii(s) ==> RaisedAscii(s, r)
  {
    if s == [] then [] else UpperChar(s[0]) + Upper(s[1..])
  }

  /** Lowering goes character by character: the lowered form of a
      concatenation is the concatenation of the lowered forms. */
  lemma {:induction false} LowerAppend(a: string, b: string)
    ensures Lower(a + b) == Lower(a) + Lower(b)
  {
    if a != [] {
      assert (a + b)[0] == a[0] && (a + b)[1..] == a[1..] + b;
      LowerAppend(a[1..], b);
      assert Lower(a + b) == LowerChar(a[0]) + (Lower(a[1..]) + Lower(b));
    } else {
      assert a + b == b;
    }
  }

  /** Raising goes character by character: the raised form of a
      concatenation is the concatenation of the raised forms. */
  lemma {:induction false} UpperAppend(a: string, b: string)
    ensures Upper(a + b) == Upper(a) + Upper(b)
  {
    if a != [] {
      assert (a + b)[0] == a[0] && (a + b)[1..] == a[1..] + b;
      UpperAppend(a[1..], b);
      assert Upper(a + b) == UpperChar(a[0]) + (Upper(a[1..]) + Upper(b));
    } else {
      assert a + b == b;
    }
  }

  /** `s.count(c)`: the number of times `c` occurs in `s`. */
  function CountChar(s: string, c: char): (n: nat)
    ensures n == multiset(s)[c]
    ensures n <= |s|
    ensures n == 0 <==> c !in s
  {
    if s == [] then 0
    else
      assert s == [s[0]] + s[1..];
      (if s[0] == c then 1 else 0) + CountChar(s[1..], c)
  }

  /** `s.rfind(c)`: the last index holding c, or -1. */
  function RFind(s: string, c: char): (r: int)
    ensures -1 <= r < |s|
    ensures r >= 0 ==> s[r] == c
    ensures forall i :: r < i < |s| ==> s[i] != c
  {
    if s == [] then -1 else if s[|s| - 1] == c then |s| - 1 else RFind(s[..|s| - 1], c)
  }

  /** Index of the first occurrence of `needle` at or after i, or |s| + 1
      when there is none. */
  function FindFrom(s: string, needle: string, i: nat): (r: nat)
    requires i <= |s| + 1
    ensures i <= r <= |s| + 1
    ensures r <= |s| ==> OccursAt(s, needle, r)
    ensures forall j :: i <= j < r ==> !OccursAt(s, needle, j)
    decreases |s| + 1 - i
  {
    if i + |needle| > |s| then |s| + 1
    else if s[i..i + |needle|] == needle then i
    else FindFrom(s, needle, i + 1)
  }

  /** `s.split(needle, 1)[1]` when `needle in s`: the flag says whether the
      needle occurs, the text is what follows its first occurrence. */
  function AfterFirst(s: string, needle: string): (r: (bool, string))
    ensures r.0 <==> Contains(s, needle)
    ensures r.0 ==> exists i :: OccursAt(s, needle, i) && r.1 == s[i + |needle|..]
                               && forall j :: 0 <= j < i ==> !OccursAt(s, needle, j)
  {
    var k := FindFrom(s, needle, 0);
    if k <= |s| then (true, s[k + |needle|..]) else (false, [])
  }

  // ---------------------------------------------------------------- splitlines

  /** Index of the first line boundary at or after i, or |s|. */
  function BoundaryFrom(s: string, i: nat): (k: nat)
    requires i <= |s|
    ensures i <= k <= |s|
    ensures k < |s| ==> IsLineBoundary(s[k])
    ensures forall j :: i <= j < k ==> !IsLineBoundary(s[j])
    decreases |s| - i
  {
    if i == |s| || IsLineBoundary(s[i]) then i else BoundaryFrom(s, i + 1)
  }

  /** `s.splitlines()`: lines without their terminators; "\r\n" ends one line;
      a final terminator does not open an empty last line. */
  function SplitLines(s: string): (r: seq<string>)
    ensures forall i, j :: 0 <= i < |r| && 0 <= j < |r[i]| ==> !IsLineBoundary(r[i][j])
    ensures s == [] <==> r == []
    decreases |s|
  {
    if s == [] then []
    else
      var k := BoundaryFrom(s, 0);
      if k == |s| then [s]
      else
        var skip := if s[k] == '\r' && k + 1 < |s| && s[k + 1] == '\n' then 2 else 1;
        [s[..k]] + SplitLines(s[k + skip..])
  }

  /** "\n".join(lines) */
  function JoinLines(lines: seq<string>): string {
    Join(lines, "\n")
  }

  predicate NoBoundary(line: string) {
    forall j :: 0 <= j < |line| ==> !IsLineBoundary(line[j])
  }

  /** Re-splitting lines that `splitlines` produced gives them back, except that
      a last empty line is absorbed by the terminator before it. */
  lemma {:induction false} SplitLinesJoin(lines: seq<string>)
    requires forall i :: 0 <= i < |lines| ==> NoBoundary(lines[i])
    ensures SplitLines(JoinLines(lines)) == DropLastEmpty(lines)
  {
    if lines == [] {
    } else if |lines| == 1 {
      var s := lines[0];
      if s != [] {
        BoundaryNone(s, 0);
      }
    } else {
      var rest := lines[1..];
      assert forall i :: 0 <= i < |rest| ==> NoBoundary(rest[i]) by {
        forall i | 0 <= i < |rest| ensures NoBoundary(rest[i]) {
          assert rest[i] == lines[i + 1];
        }
      }
      SplitLinesJoin(rest);
      SplitLinesJoinStep(lines[0], rest);
      assert [lines[0]] + rest == lines;
    }
  }

  /** The lines without a last empty one. */
  function DropLastEmpty(lines: seq<string>): seq<string> {
    if lines != [] && lines[|lines| - 1] == [] then lines[..|lines| - 1] else lines
  }

  lemma SplitLinesJoinStep(first: string, rest: seq<string>)
    requires NoBoundary(first) && rest != []
    requires SplitLines(JoinLines(rest)) == DropLastEmpty(rest)
    ensures SplitLines(JoinLines([first] + rest)) == DropLastEmpty([first] + rest)
  {
    var lines := [first] + rest;
    assert lines[1..] == rest;
    assert JoinLines(lines) == first + "\n" + JoinLines(rest);
    SplitLinesCons(first, JoinLines(rest));
    assert lines[|lines| - 1] == rest[|rest| - 1];
    if rest[|rest| - 1] == [] {
      assert lines[..|lines| - 1] == [first] + rest[..|rest| - 1];
    }
  }

  lemma SplitLinesCons(l: string, tail: string)
    requires NoBoundary(l)
    ensures SplitLines(l + "\n" + tail) == [l] + SplitLines(tail)
  {
    var s := l + "\n" + tail;
    assert s == l + ("\n" + tail);
    BoundaryAt(l, "\n" + tail);
    assert s[|l|] == '\n';
    assert s[..|l|] == l;
    assert s[|l| + 1..] == tail;
  }

  lemma BoundaryNone(s: string, i: nat)
    requires i <= |s| && NoBoundary(s)
    ensures BoundaryFrom(s, i) == |s|
    decreases |s| - i
  {
    if i < |s| { BoundaryNone(s, i + 1); }
  }

  lemma BoundaryAt(l: string, t: string)
    requires NoBoundary(l) && t != [] && IsLineBoundary(t[0])
    ensures BoundaryFrom(l + t, 0) == |l|
  {
    var s := l + t;
    assert forall j :: 0 <= j < |l| ==> s[j] == l[j];
    assert s[|l|] == t[0];
    BoundaryStops(s, 0, |l|);
  }

  lemma BoundaryStops(s: string, i: nat, k: nat)
    requires i <= k < |s| && IsLineBoundary(s[k])
    requires forall j :: i <= j < k ==> !IsLineBoundary(s[j])
    ensures BoundaryFrom(s, i) == k
    decreases k - i
  {
    if i < k { BoundaryStops(s, i + 1, k); }
  }
}
