/** Path helpers (ontocode/paths.py) and the text of a `pathlib.PurePosixPath`. */
module Paths {

  import opened Strings
  import Quoting

  /** `_normalize_relative`: back-slashes become slashes, then leading
      slashes go. */
  function NormalizeRelative(path: string): string {
    LStripChar(ReplaceChar(path, '\\', '/'), '/')
  }

  lemma NormalizeRelativeShape(path: string)
    ensures '\\' !in NormalizeRelative(path)
    ensures NormalizeRelative(path) == [] || NormalizeRelative(path)[0] != '/'
  {
    var r := ReplaceChar(path, '\\', '/');
    var n := NormalizeRelative(path);
    assert n == r[|r| - |n|..];
  }

  /** Normalising twice is normalising once. */
  lemma NormalizeRelativeIdempotent(path: string)
    ensures NormalizeRelative(NormalizeRelative(path)) == NormalizeRelative(path)
  {
    var n := NormalizeRelative(path);
    NormalizeRelativeShape(path);
    assert ReplaceChar(n, '\\', '/') == n;
  }

  /** `encode_path_for_graph`, applied to the text of a path: back-slashes
      become slashes, then everything outside the unreserved set is
      percent-encoded, the slashes included. */
  function EncodePathForGraph(pathText: string): string {
    Quoting.Quote(ReplaceChar(pathText, '\\', '/'))
  }

  /** The encoding is one IRI segment: it holds no '/'. */
  lemma EncodePathHasNoSlash(pathText: string)
    ensures '/' !in EncodePathForGraph(pathText)
  {
    Quoting.QuoteHasNoSlash(ReplaceChar(pathText, '\\', '/'));
  }

  /** Writing the separators as back-slashes does not change the encoding. */
  lemma EncodePathIgnoresBackslashes(pathText: string)
    ensures EncodePathForGraph(ReplaceChar(pathText, '\\', '/')) == EncodePathForGraph(pathText)
  {
    var r := ReplaceChar(pathText, '\\', '/');
    assert ReplaceChar(r, '\\', '/') == r;
  }

  /** Two path texts get the same encoding exactly when they agree once
      back-slashes are read as slashes. */
  lemma EncodePathInjective(p: string, q: string)
    ensures EncodePathForGraph(p) == EncodePathForGraph(q) <==>
            ReplaceChar(p, '\\', '/') == ReplaceChar(q, '\\', '/')
  {
    if EncodePathForGraph(p) == EncodePathForGraph(q) {
      Quoting.QuoteInjective(ReplaceChar(p, '\\', '/'), ReplaceChar(q, '\\', '/'));
    }
  }

  /** The non-empty parts, in order (`[s for s in parts if s]`). */
  function NonEmpty(parts: seq<string>): (r: seq<string>)
    ensures forall i :: 0 <= i < |r| ==> r[i] != []
    ensures forall i :: 0 <= i < |r| ==> r[i] in parts
  {
    if parts == [] then []
    else if parts[0] == [] then NonEmpty(parts[1..])
    else [parts[0]] + NonEmpty(parts[1..])
  }

  /** Filtering a list with one more part at its end. */
  lemma {:induction false} NonEmptySnoc(parts: seq<string>, x: string)
    ensures NonEmpty(parts + [x]) == NonEmpty(parts) + (if x != [] then [x] else [])
  {
    if parts == [] {
      assert [x][1..] == [];
    } else {
      assert (parts + [x])[1..] == parts[1..] + [x];
      NonEmptySnoc(parts[1..], x);
    }
  }

  /** `flatten_relative_path` */
  function FlattenRelativePath(path: string): string {
    var normalized := NormalizeRelative(path);
    if normalized == [] then "_"
    else Join(NonEmpty(Split(normalized, '/')), "__")
  }

  /** An empty normalised path flattens to "_"; any other one to its
      non-empty segments joined by "__", which is never empty and holds
      neither '/' nor '\'. */
  lemma FlattenRelativePathShape(path: string)
    ensures NormalizeRelative(path) == [] ==> FlattenRelativePath(path) == "_"
    ensures NormalizeRelative(path) != [] ==>
              FlattenRelativePath(path) == Join(NonEmpty(Split(NormalizeRelative(path), '/')), "__")
    ensures FlattenRelativePath(path) != []
    ensures '/' !in FlattenRelativePath(path) && '\\' !in FlattenRelativePath(path)
  {
    var n := NormalizeRelative(path);
    NormalizeRelativeShape(path);
    if n != [] {
      var parts := Split(n, '/');
      FirstSplitPiece(n, '/');
      var kept := NonEmpty(parts);
      assert kept != [] && kept[0] == parts[0];
      JoinNoChar(kept, "__", '/');
      forall i | 0 <= i < |kept| ensures '\\' !in kept[i] {
        SplitPiecesWithin(n, '/', '\\');
      }
      JoinNoChar(kept, "__", '\\');
      assert Join(kept, "__") != [] by { JoinFirst(kept, "__"); }
    }
  }

  lemma FirstSplitPiece(s: string, c: char)
    requires s != [] && s[0] != c
    ensures Split(s, c)[0] != [] && Split(s, c)[0][0] == s[0]
  {
  }

  lemma {:induction false} SplitPiecesWithin(s: string, c: char, d: char)
    requires d !in s
    ensures forall i :: 0 <= i < |Split(s, c)| ==> d !in Split(s, c)[i]
  {
    if s != [] {
      SplitPiecesWithin(s[1..], c, d);
    }
  }

  lemma JoinFirst(parts: seq<string>, sep: string)
    requires parts != []
    ensures |Join(parts, sep)| >= |parts[0]|
  {
  }

  /** Flattening is not injective: "a/b__c" and "a__b/c" share a shard name. */
  lemma FlattenCollision()
    ensures FlattenRelativePath("a/b__c") == FlattenRelativePath("a__b/c") == "a__b__c"
  {
    FlattenLeft();
    FlattenRight();
  }

  lemma FlattenLeft()
    ensures FlattenRelativePath("a/b__c") == "a__b__c"
  {
    var x, y := "a", "b__c";
    assert '/' !in y && '\\' !in y;
    var p := x + "/" + y;
    assert p == "a/b__c";
    FlattenTwo(x, y);
    assert FlattenRelativePath(p) == x + "__" + y;
    assert x + "__" + y == "a__b__c";
  }

  lemma FlattenRight()
    ensures FlattenRelativePath("a__b/c") == "a__b__c"
  {
    var x, y := "a__b", "c";
    assert '/' !in x && '\\' !in x;
    assert "a__b/c" == x + "/" + y;
    FlattenTwo(x, y);
  }

  lemma FlattenTwo(x: string, y: string)
    requires x != [] && y != [] && x[0] != '/'
    requires '/' !in x && '/' !in y && '\\' !in x && '\\' !in y
    ensures FlattenRelativePath(x + "/" + y) == x + "__" + y
  {
    var p := x + "/" + y;
    assert ReplaceChar(p, '\\', '/') == p;
    assert LStripChar(p, '/') == p;
    SplitAt(x, y, '/');
    SplitNone(y, '/');
    assert [x, y][1..] == [y] && [y][1..] == [];
    assert NonEmpty([y]) == [y];
    assert NonEmpty([x, y]) == [x, y];
    assert Join([x, y], "__") == x + "__" + Join([y], "__");
  }

  /** The empty path and "_" share a shard name too. */
  lemma FlattenEmptyCollision()
    ensures FlattenRelativePath("") == FlattenRelativePath("_") == "_"
  {
    assert ReplaceChar("_", '\\', '/') == "_";
    SplitNone("_", '/');
  }

  // ------------------------------------------------------- pathlib text

  /** The root `str(Path(text))` keeps: "//" for exactly two leading
      slashes, "/" for one or three and more, "" for none. */
  function PosixRoot(text: string): string {
    if |text| >= 2 && text[0] == '/' && text[1] == '/' && (|text| == 2 || text[2] != '/') then "//"
    else if text != [] && text[0] == '/' then "/"
    else ""
  }

  /** `str(Path(text))` on POSIX: the root, then the parts that are neither
      empty nor ".", joined by "/"; "." when nothing is left. The printed
      text has the same root and, read back, the same parts. */
  function PosixPathString(text: string): (r: string)
    ensures r != []
    ensures PosixRoot(r) == PosixRoot(text)
    ensures Proper(Split(r, '/')) == Proper(Split(text, '/'))
    ensures r == "." <==> PosixRoot(text) == [] && Proper(Split(text, '/')) == []
  {
    var root := PosixRoot(text);
    var parts := Proper(Split(text, '/'));
    ProperPartsNoSlash(Split(text, '/'));
    var s := root + Join(parts, "/");
    PrintedForm(root, parts);
    if s == [] then
      SplitNone(".", '/');
      assert Proper(["."]) == [];
      "."
    else s
  }

  /** Printing a path twice prints it once. */
  lemma PosixPathStringIdempotent(text: string)
    ensures PosixPathString(PosixPathString(text)) == PosixPathString(text)
  {
  }

  /** The parts pathlib keeps: exactly those that are not empty and not ".",
      in order. */
  function Proper(parts: seq<string>): (r: seq<string>)
    ensures forall i :: 0 <= i < |r| ==> r[i] != [] && r[i] != "."
    ensures forall x :: x in r <==> x in parts && x != [] && x != "."
  {
    if parts == [] then []
    else if parts[0] == [] || parts[0] == "." then Proper(parts[1..])
    else [parts[0]] + Proper(parts[1..])
  }

  /** Filtering keeps the order: the parts of a concatenation are the parts
      of each side. */
  lemma {:induction false} ProperAppend(a: seq<string>, b: seq<string>)
    ensures Proper(a + b) == Proper(a) + Proper(b)
  {
    if a == [] {
      assert a + b == b;
    } else {
      assert (a + b)[0] == a[0] && (a + b)[1..] == a[1..] + b;
      ProperAppend(a[1..], b);
    }
  }

  lemma {:induction false} ProperKeepsProper(parts: seq<string>)
    requires forall i :: 0 <= i < |parts| ==> parts[i] != [] && parts[i] != "."
    ensures Proper(parts) == parts
  {
    if parts != [] {
      ProperKeepsProper(parts[1..]);
    }
  }

  lemma ProperPartsNoSlash(pieces: seq<string>)
    requires forall i :: 0 <= i < |pieces| ==> '/' !in pieces[i]
    ensures forall i :: 0 <= i < |Proper(pieces)| ==> '/' !in Proper(pieces)[i]
  {
    var r := Proper(pieces);
    forall i | 0 <= i < |r| ensures '/' !in r[i] {
      assert r[i] in pieces;
    }
  }

  /** Joining pieces without the separator and splitting again gives them
      back. */
  lemma {:induction false} SplitOfJoin(parts: seq<string>, c: char)
    requires parts != []
    requires forall i :: 0 <= i < |parts| ==> c !in parts[i]
    ensures Split(Join(parts, [c]), c) == parts
  {
    if |parts| == 1 {
      SplitNone(parts[0], c);
    } else {
      SplitOfJoin(parts[1..], c);
      SplitAt(parts[0], Join(parts[1..], [c]), c);
      assert Join(parts, [c]) == parts[0] + [c] + Join(parts[1..], [c]);
      assert [parts[0]] + parts[1..] == parts;
    }
  }

  /** The text a root followed by proper parts prints as: it keeps the root
      and reads back as those parts. */
  lemma PrintedForm(root: string, parts: seq<string>)
    requires root == "" || root == "/" || root == "//"
    requires forall i :: 0 <= i < |parts| ==> parts[i] != [] && parts[i] != "." && '/' !in parts[i]
    ensures var s := root + Join(parts, "/");
      && (s != [] ==> PosixRoot(s) == root)
      && Proper(Split(s, '/')) == parts
      && (s == [] <==> root == [] && parts == [])
  {
    if parts == [] {
      PrintedRootOnly(root);
    } else {
      JoinStart(parts);
      SplitOfJoin(parts, '/');
      ProperKeepsProper(parts);
      PrintedWithParts(root, Join(parts, "/"), parts);
    }
  }

  lemma PrintedRootOnly(root: string)
    requires root == "" || root == "/" || root == "//"
    ensures root != [] ==> PosixRoot(root) == root
    ensures Proper(Split(root, '/')) == []
  {
    if root == "/" {
      SplitAt("", "", '/');
      assert "" + "/" + "" == "/";
    } else if root == "//" {
      SplitAt("", "", '/');
      SplitAt("", "/", '/');
      assert "" + "/" + "/" == "//";
      assert "" + "/" + "" == "/";
    }
  }

  lemma JoinStart(parts: seq<string>)
    requires parts != [] && parts[0] != [] && '/' !in parts[0]
    ensures Join(parts, "/") != [] && Join(parts, "/")[0] != '/'
  {
    assert parts[0][0] in parts[0];
    if |parts| > 1 {
      assert Join(parts, "/") == parts[0] + "/" + Join(parts[1..], "/");
    }
  }

  lemma PrintedWithParts(root: string, j: string, parts: seq<string>)
    requires root == "" || root == "/" || root == "//"
    requires j != [] && j[0] != '/'
    requires Split(j, '/') == parts && Proper(parts) == parts
    ensures PosixRoot(root + j) == root
    ensures Proper(Split(root + j, '/')) == parts
  {
    if root == "/" {
      assert root + j == "" + "/" + j;
      SplitAt("", j, '/');
      assert Proper([[]] + parts) == Proper(parts);
    } else if root == "//" {
      assert root + j == "" + "/" + ("" + "/" + j);
      SplitAt("", "/" + j, '/');
      assert "/" + j == "" + "/" + j;
      SplitAt("", j, '/');
      assert Proper([[]] + ([[]] + parts)) == Proper(parts);
    } else {
      assert root + j == j;
    }
  }
}
