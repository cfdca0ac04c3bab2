/** What the derivation rules of ontocode/cli.py promise: the shape of a
    route pattern, the meaning of each dynamic segment, which units receive
    which Next.js triples, and the lists built from the options. */
module CliProperties {

  import opened Wrappers
  import opened Strings
  import opened Rdf
  import opened Cli
  import opened Paths
  import RulesRunner

  // ------------------------------------------------------ tagged units

  lemma TaggedHas(units: set<Term>, tags: seq<(Term, Term)>, u: Term, k: nat)
    requires u in units && k < |tags|
    ensures Triple(u, tags[k].0, tags[k].1) in Tagged(units, tags)
  {
    assert Triple(u, tags[k].0, tags[k].1) in UnitTags(u, tags);
  }

  /** A triple is tagged exactly when its subject is one of the units and
      its (predicate, object) pair is one of the tags. */
  lemma TaggedMembers(units: set<Term>, tags: seq<(Term, Term)>, t: Triple)
    ensures t in Tagged(units, tags) <==> t.s in units && exists k :: 0 <= k < |tags| && (t.p, t.o) == tags[k]
  {
    if t in Tagged(units, tags) {
      var u :| u in units && t in UnitTags(u, tags);
      var k :| 0 <= k < |tags| && t == Triple(u, tags[k].0, tags[k].1);
      assert (t.p, t.o) == tags[k];
    }
    if t.s in units && exists k :: 0 <= k < |tags| && (t.p, t.o) == tags[k] {
      var k :| 0 <= k < |tags| && (t.p, t.o) == tags[k];
      TaggedHas(units, tags, t.s, k);
    }
  }

  // --------------------------------------------------- file kinds

  /** The path holds "app/" with text after it, and that text, lowered,
      passes `kind`. */
  predicate AppFile(path: string, kind: string -> bool) {
    var (inApp, suffix) := AfterFirst(path, "app/");
    inApp && suffix != [] && kind(Lower(suffix))
  }

  /** The text after the first "pages/" of the path starts with "api/". */
  predicate PagesApi(path: string) {
    var (inPages, suffix) := AfterFirst(path, "pages/");
    inPages && StartsWith(suffix, "api/")
  }

  /** The triples derived for a file, in terms of what its path says
      (page, layout, route file, API file), its default and defined units,
      its route pattern and its "use client" flag. */
  function Derive(page: bool, layout: bool, route: bool, api: bool, defaults: set<Term>,
                  defined: set<Term>, pattern: string, client: bool): Graph {
    (if page then Tagged(defaults, PageTags(pattern, client)) else {})
    + (if layout then Tagged(defaults, LayoutTags()) else {})
    + (if route then Tagged(defined, RouteTags(pattern)) else {})
    + (if api then Tagged(defaults, RouteTags(pattern)) else {})
  }

  /** The four sources of the triples derived from one file. */
  lemma FileInferenceDerive(facts: Graph, file: Term, path: string)
    ensures FileInference(facts, file, path) ==
              Derive(AppFile(path, IsPage), AppFile(path, IsLayout), AppFile(path, IsRoute), PagesApi(path),
                     DefaultUnits(facts, file), DefinedUnits(facts, file), RoutePattern(path), UsesClient(facts, file))
  {
  }

  lemma NextNames()
    ensures Next("Page") != Next("Layout") && Next("Page") != Next("APIRoute") && Next("Layout") != Next("APIRoute")
    ensures Next("usesClient") != Next("segmentType") && Next("usesClient") != Next("routePattern")
    ensures Next("routePattern") != Next("segmentType")
    ensures RdfType != Next("usesClient") && RdfType != Next("routePattern") && RdfType != Next("segmentType")
  {
    NextInjective("Page", "Layout");
    NextInjective("Page", "APIRoute");
    NextInjective("Layout", "APIRoute");
    NextInjective("usesClient", "segmentType");
    NextInjective("usesClient", "routePattern");
    NextInjective("routePattern", "segmentType");
    TypeNotNext("usesClient");
    TypeNotNext("routePattern");
    TypeNotNext("segmentType");
  }

  /** Membership in a derivation, source by source. */
  lemma DeriveMembers(page: bool, layout: bool, route: bool, api: bool, defaults: set<Term>,
                      defined: set<Term>, pattern: string, client: bool, t: Triple)
    ensures t in Derive(page, layout, route, api, defaults, defined, pattern, client) <==>
              (page && t in Tagged(defaults, PageTags(pattern, client)))
              || (layout && t in Tagged(defaults, LayoutTags()))
              || (route && t in Tagged(defined, RouteTags(pattern)))
              || (api && t in Tagged(defaults, RouteTags(pattern)))
  {
  }

  lemma DeriveTyped(page: bool, layout: bool, route: bool, api: bool, defaults: set<Term>,
                    defined: set<Term>, pattern: string, client: bool, u: Term)
    ensures Triple(u, RdfType, Next("Page")) in Derive(page, layout, route, api, defaults, defined, pattern, client)
            <==> page && u in defaults
    ensures Triple(u, RdfType, Next("Layout")) in Derive(page, layout, route, api, defaults, defined, pattern, client)
            <==> layout && u in defaults
    ensures Triple(u, RdfType, Next("APIRoute")) in Derive(page, layout, route, api, defaults, defined, pattern, client)
            <==> (route && u in defined) || (api && u in defaults)
    ensures Triple(u, Next("usesClient"), BoolLit(true)) in Derive(page, layout, route, api, defaults, defined, pattern, client)
            <==> page && u in defaults && client
  {
    DerivePage(page, layout, route, api, defaults, defined, pattern, client, u);
    DeriveLayout(page, layout, route, api, defaults, defined, pattern, client, u);
    DeriveApiRoute(page, layout, route, api, defaults, defined, pattern, client, u);
    DeriveClient(page, layout, route, api, defaults, defined, pattern, client, u);
  }

  lemma DerivePage(page: bool, layout: bool, route: bool, api: bool, defaults: set<Term>,
                    defined: set<Term>, pattern: string, client: bool, u: Term)
    ensures Triple(u, RdfType, Next("Page")) in Derive(page, layout, route, api, defaults, defined, pattern, client) <==> page && u in defaults
  {
    NextNames();
    DeriveTags(page, layout, route, api, defaults, defined, pattern, client, Triple(u, RdfType, Next("Page")));
  }

  lemma DeriveLayout(page: bool, layout: bool, route: bool, api: bool, defaults: set<Term>,
                    defined: set<Term>, pattern: string, client: bool, u: Term)
    ensures Triple(u, RdfType, Next("Layout")) in Derive(page, layout, route, api, defaults, defined, pattern, client) <==> layout && u in defaults
  {
    NextNames();
    DeriveTags(page, layout, route, api, defaults, defined, pattern, client, Triple(u, RdfType, Next("Layout")));
  }

  lemma DeriveApiRoute(page: bool, layout: bool, route: bool, api: bool, defaults: set<Term>,
                    defined: set<Term>, pattern: string, client: bool, u: Term)
    ensures Triple(u, RdfType, Next("APIRoute")) in Derive(page, layout, route, api, defaults, defined, pattern, client) <==> (route && u in defined) || (api && u in defaults)
  {
    NextNames();
    DeriveTags(page, layout, route, api, defaults, defined, pattern, client, Triple(u, RdfType, Next("APIRoute")));
  }

  lemma DeriveClient(page: bool, layout: bool, route: bool, api: bool, defaults: set<Term>,
                    defined: set<Term>, pattern: string, client: bool, u: Term)
    ensures Triple(u, Next("usesClient"), BoolLit(true)) in Derive(page, layout, route, api, defaults, defined, pattern, client) <==> page && u in defaults && client
  {
    NextNames();
    DeriveTags(page, layout, route, api, defaults, defined, pattern, client, Triple(u, Next("usesClient"), BoolLit(true)));
  }

  /** Membership in a derivation, as a (predicate, object) pair of one of
      the tag lists. */
  lemma DeriveTags(page: bool, layout: bool, route: bool, api: bool, defaults: set<Term>,
                   defined: set<Term>, pattern: string, client: bool, t: Triple)
    ensures t in Derive(page, layout, route, api, defaults, defined, pattern, client) <==>
              (page && t.s in defaults && (t.p, t.o) in PageTags(pattern, client))
              || (layout && t.s in defaults && (t.p, t.o) in LayoutTags())
              || (route && t.s in defined && (t.p, t.o) in RouteTags(pattern))
              || (api && t.s in defaults && (t.p, t.o) in RouteTags(pattern))
  {
    DeriveMembers(page, layout, route, api, defaults, defined, pattern, client, t);
    TaggedMembers(defaults, PageTags(pattern, client), t);
    TaggedMembers(defaults, LayoutTags(), t);
    TaggedMembers(defined, RouteTags(pattern), t);
    TaggedMembers(defaults, RouteTags(pattern), t);
  }

  /** Which units a file's triples type as next:Page, next:Layout and
      next:APIRoute, and which are marked next:usesClient. */
  lemma TypedUnits(facts: Graph, file: Term, path: string, u: Term)
    ensures Triple(u, RdfType, Next("Page")) in FileInference(facts, file, path) <==>
              AppFile(path, IsPage) && u in DefaultUnits(facts, file)
    ensures Triple(u, RdfType, Next("Layout")) in FileInference(facts, file, path) <==>
              AppFile(path, IsLayout) && u in DefaultUnits(facts, file)
    ensures Triple(u, RdfType, Next("APIRoute")) in FileInference(facts, file, path) <==>
              (AppFile(path, IsRoute) && u in DefinedUnits(facts, file))
              || (PagesApi(path) && u in DefaultUnits(facts, file))
    ensures Triple(u, Next("usesClient"), BoolLit(true)) in FileInference(facts, file, path) <==>
              AppFile(path, IsPage) && u in DefaultUnits(facts, file) && UsesClient(facts, file)
  {
    FileInferenceDerive(facts, file, path);
    DeriveTyped(AppFile(path, IsPage), AppFile(path, IsLayout), AppFile(path, IsRoute), PagesApi(path),
                DefaultUnits(facts, file), DefinedUnits(facts, file), RoutePattern(path), UsesClient(facts, file), u);
  }

  /** Every route pattern a derivation states is its pattern. */
  lemma DerivePattern(page: bool, layout: bool, route: bool, api: bool, defaults: set<Term>,
                      defined: set<Term>, pattern: string, client: bool, t: Triple)
    requires t in Derive(page, layout, route, api, defaults, defined, pattern, client)
    requires t.p == Next("routePattern")
    ensures t.o == Lit(pattern)
  {
    NextNames();
    DeriveMembers(page, layout, route, api, defaults, defined, pattern, client, t);
    TaggedMembers(defaults, PageTags(pattern, client), t);
    TaggedMembers(defaults, LayoutTags(), t);
    TaggedMembers(defined, RouteTags(pattern), t);
    TaggedMembers(defaults, RouteTags(pattern), t);
  }

  /** Every route pattern a file states is the one derived from its path. */
  lemma RoutePatternTriple(facts: Graph, file: Term, path: string, t: Triple)
    requires t in FileInference(facts, file, path) && t.p == Next("routePattern")
    ensures t.o == Lit(RoutePattern(path))
  {
    FileInferenceDerive(facts, file, path);
    DerivePattern(AppFile(path, IsPage), AppFile(path, IsLayout), AppFile(path, IsRoute), PagesApi(path),
                  DefaultUnits(facts, file), DefinedUnits(facts, file), RoutePattern(path), UsesClient(facts, file), t);
  }

  /** Every triple a derivation states is about one of the defined units
      (the default ones are among them). */
  lemma DeriveSubjects(page: bool, layout: bool, route: bool, api: bool, defaults: set<Term>,
                       defined: set<Term>, pattern: string, client: bool, t: Triple)
    requires defaults <= defined
    requires t in Derive(page, layout, route, api, defaults, defined, pattern, client)
    ensures t.s in defined
  {
    DeriveMembers(page, layout, route, api, defaults, defined, pattern, client, t);
    TaggedMembers(defaults, PageTags(pattern, client), t);
    TaggedMembers(defaults, LayoutTags(), t);
    TaggedMembers(defined, RouteTags(pattern), t);
    TaggedMembers(defaults, RouteTags(pattern), t);
  }

  /** Every derived triple is about a unit some chosen source file defines. */
  lemma InferredSubjects(facts: Graph, chosen: map<Term, Term>, t: Triple)
    requires t in InferenceWith(facts, chosen)
    ensures exists f :: f in chosen && t.s in DefinedUnits(facts, f)
  {
    var f :| f in chosen && t in FileInference(facts, f, Text(chosen[f]));
    var path := Text(chosen[f]);
    FileInferenceDerive(facts, f, path);
    DeriveSubjects(AppFile(path, IsPage), AppFile(path, IsLayout), AppFile(path, IsRoute), PagesApi(path),
                   DefaultUnits(facts, f), DefinedUnits(facts, f), RoutePattern(path), UsesClient(facts, f), t);
  }

  // ------------------------------------------------------ route patterns

  /** No two slashes in a row. */
  predicate NoDoubleSlash(s: string) {
    forall i :: 0 <= i < |s| - 1 ==> !(s[i] == '/' && s[i + 1] == '/')
  }

  lemma {:induction false} CollapseFirst(s: string)
    requires s != []
    ensures CollapseSlashes(s) != [] && CollapseSlashes(s)[0] == s[0]
  {
    if |s| >= 2 && s[0] == '/' && s[1] == '/' {
      CollapseFirst(s[1..]);
    }
  }

  /** Collapsing leaves no doubled slash. */
  lemma {:induction false} CollapseNoDouble(s: string)
    ensures NoDoubleSlash(CollapseSlashes(s))
  {
    if |s| >= 2 {
      CollapseNoDouble(s[1..]);
      if !(s[0] == '/' && s[1] == '/') {
        CollapseFirst(s[1..]);
        var r := CollapseSlashes(s);
        assert r == [s[0]] + CollapseSlashes(s[1..]);
        forall i | 0 <= i < |r| - 1 ensures !(r[i] == '/' && r[i + 1] == '/') {
          if i > 0 {
            assert r[i] == CollapseSlashes(s[1..])[i - 1];
          }
        }
      }
    }
  }

  /** A text without a doubled slash is left as it is, so collapsing twice
      is collapsing once. */
  lemma {:induction false} CollapseKeeps(s: string)
    requires NoDoubleSlash(s)
    ensures CollapseSlashes(s) == s
  {
    if |s| >= 2 {
      assert NoDoubleSlash(s[1..]) by {
        forall i | 0 <= i < |s[1..]| - 1 ensures !(s[1..][i] == '/' && s[1..][i + 1] == '/') {
          assert s[1..][i] == s[i + 1] && s[1..][i + 1] == s[i + 2];
        }
      }
      CollapseKeeps(s[1..]);
    }
  }

  lemma CollapseIdempotent(s: string)
    ensures CollapseSlashes(CollapseSlashes(s)) == CollapseSlashes(s)
  {
    CollapseNoDouble(s);
    CollapseKeeps(CollapseSlashes(s));
  }

  /** Every route pattern starts with '/' and has no doubled slash. */
  lemma RoutePatternShape(path: string)
    ensures RoutePattern(path) != [] && RoutePattern(path)[0] == '/'
    ensures NoDoubleSlash(RoutePattern(path))
  {
    var cleaned := StripChar(path, '/');
    if cleaned != [] {
      var (inApp, rs) := RouteSegments(Split(cleaned, '/'));
      var normalized := Normalized(rs, inApp, |rs|);
      if normalized != [] {
        CollapseFirst("/" + Join(normalized, "/"));
        CollapseNoDouble("/" + Join(normalized, "/"));
      }
    }
  }

  /** The rewritten segments of a path that survive. */
  function KeptSegments(path: string): seq<string> {
    var (inApp, rs) := RouteSegments(Split(StripChar(path, '/'), '/'));
    Normalized(rs, inApp, |rs|)
  }

  lemma StripExtensionNoSlash(segment: string)
    requires '/' !in segment
    ensures '/' !in StripExtension(segment)
  {
    var (body, tail) := if segment != [] && segment[|segment| - 1] == '\n'
                        then (segment[..|segment| - 1], "\n") else (segment, "");
    assert '/' !in body;
    var k := |body| - ExtensionLength(body);
    assert forall i :: 0 <= i < k ==> body[..k][i] == body[i];
  }

  lemma RewriteSegmentShape(base: string)
    requires base != [] && '/' !in base
    ensures RewriteSegment(base) != [] && '/' !in RewriteSegment(base)
  {
  }

  lemma RewriteAsWrittenShape(base: string)
    requires base != [] && '/' !in base
    ensures RewriteAsWritten(base) != [] && '/' !in RewriteAsWritten(base)
  {
    if StartsWith(base, "[[...") && EndsWith(base, "]]") {
      assert base[..5][3] == '.' && base[..5][4] == '.';
      assert base[|base| - 2..][0] == ']';
      assert |base| >= 7 && base[4..|base| - 2][0] == base[4];
    } else {
      RewriteSegmentShape(base);
    }
  }

  lemma RouteSegmentsNoSlash(segments: seq<string>)
    requires forall i :: 0 <= i < |segments| ==> '/' !in segments[i]
    ensures forall i :: 0 <= i < |RouteSegments(segments).1| ==> '/' !in RouteSegments(segments).1[i]
  {
  }

  /** Every kept segment is non-empty and holds no slash. */
  lemma {:induction false} NormalizedSegments(rs: seq<string>, inApp: bool, n: nat)
    requires n <= |rs|
    requires forall i :: 0 <= i < |rs| ==> '/' !in rs[i]
    ensures forall k :: 0 <= k < |Normalized(rs, inApp, n)| ==>
              Normalized(rs, inApp, n)[k] != [] && '/' !in Normalized(rs, inApp, n)[k]
  {
    if n > 0 {
      NormalizedSegments(rs, inApp, n - 1);
      if !Dropped(rs, n - 1, inApp, Normalized(rs, inApp, n - 1)) {
        StripExtensionNoSlash(rs[n - 1]);
        RewriteAsWrittenShape(StripExtension(rs[n - 1]));
      }
    }
  }

  lemma KeptSegmentsShape(path: string)
    ensures forall k :: 0 <= k < |KeptSegments(path)| ==>
              KeptSegments(path)[k] != [] && '/' !in KeptSegments(path)[k]
  {
    var segments := Split(StripChar(path, '/'), '/');
    RouteSegmentsNoSlash(segments);
    var (inApp, rs) := RouteSegments(segments);
    NormalizedSegments(rs, inApp, |rs|);
  }

  /** A slash followed by non-empty, slash-free parts joined by slashes has
      no doubled slash. */
  lemma {:induction false} JoinedNoDouble(parts: seq<string>)
    requires forall k :: 0 <= k < |parts| ==> parts[k] != [] && '/' !in parts[k]
    ensures NoDoubleSlash("/" + Join(parts, "/"))
  {
    if |parts| > 1 {
      JoinedNoDouble(parts[1..]);
      var a := "/" + parts[0];
      var b := "/" + Join(parts[1..], "/");
      assert "/" + Join(parts, "/") == a + b;
      forall i | 0 <= i < |a + b| - 1 ensures !((a + b)[i] == '/' && (a + b)[i + 1] == '/') {
        if i + 1 < |a| {
          assert (a + b)[i + 1] == parts[0][i];
        } else if i + 1 == |a| {
          assert (a + b)[i] == parts[0][|parts[0]| - 1];
        } else {
          assert (a + b)[i] == b[i - |a|] && (a + b)[i + 1] == b[i + 1 - |a|];
        }
      }
    } else if |parts| == 1 {
      var p := "/" + parts[0];
      forall i | 1 <= i < |p| ensures p[i] != '/' {
        assert p[i] == parts[0][i - 1];
      }
    }
  }

  /** The pattern is a slash followed by the kept segments joined by
      slashes, or "/" when none is kept: collapsing slashes never has
      anything to do. */
  lemma RoutePatternKept(path: string)
    ensures RoutePattern(path) == if KeptSegments(path) == [] then "/" else "/" + Join(KeptSegments(path), "/")
  {
    var cleaned := StripChar(path, '/');
    if cleaned == [] {
      var rs: seq<string> := [[]];
      assert Split(cleaned, '/') == rs;
      assert RouteSegments(rs) == (false, rs);
      assert StripExtension(rs[0]) == [];
      assert Normalized(rs, false, 1) == [];
    } else {
      var kept := KeptSegments(path);
      if kept != [] {
        KeptSegmentsShape(path);
        JoinedNoDouble(kept);
        CollapseKeeps("/" + Join(kept, "/"));
      }
    }
  }

  lemma SplitThree(a: string, b: string, c: string, sep: char)
    requires sep !in a && sep !in b && sep !in c
    ensures Split(a + [sep] + (b + [sep] + c), sep) == [a, b, c]
  {
    SplitNone(c, sep);
    SplitAt(b, c, sep);
    SplitAt(a, b + [sep] + c, sep);
  }

  lemma SplitFour(a: string, b: string, c: string, d: string, sep: char)
    requires sep !in a && sep !in b && sep !in c && sep !in d
    ensures Split(a + [sep] + (b + [sep] + (c + [sep] + d)), sep) == [a, b, c, d]
  {
    SplitThree(b, c, d, sep);
    SplitAt(a, b + [sep] + (c + [sep] + d), sep);
  }

  /** A text that neither starts nor ends with `c` is its own strip. */
  lemma StripUnchanged(s: string, c: char)
    requires s != [] && s[0] != c && s[|s| - 1] != c
    ensures StripChar(s, c) == s
  {
    assert LStripChar(s, c) == s;
  }

  /** A path of three slash-free parts, the outer ones non-empty, splits
      into those parts. */
  lemma SplitPathThree(path: string, a: string, b: string, c: string)
    requires '/' !in a && '/' !in b && '/' !in c && a != [] && c != []
    requires path == a + "/" + (b + "/" + c)
    ensures Split(StripChar(path, '/'), '/') == [a, b, c]
  {
    assert path[0] == a[0] && path[|path| - 1] == c[|c| - 1];
    StripUnchanged(path, '/');
    SplitThree(a, b, c, '/');
  }

  lemma SplitPathFour(path: string, a: string, b: string, c: string, d: string)
    requires '/' !in a && '/' !in b && '/' !in c && '/' !in d && a != [] && d != []
    requires path == a + "/" + (b + "/" + (c + "/" + d))
    ensures Split(StripChar(path, '/'), '/') == [a, b, c, d]
  {
    assert path[0] == a[0] && path[|path| - 1] == d[|d| - 1];
    StripUnchanged(path, '/');
    SplitFour(a, b, c, d, '/');
  }

  /** The pattern of a path, from its pieces, its router root and the
      segments that root keeps. */
  lemma PatternFrom(path: string, segments: seq<string>, inApp: bool, rs: seq<string>, kept: seq<string>)
    requires Split(StripChar(path, '/'), '/') == segments
    requires RouteSegments(segments) == (inApp, rs)
    requires Normalized(rs, inApp, |rs|) == kept
    requires kept != []
    ensures RoutePattern(path) == "/" + Join(kept, "/")
  {
    assert KeptSegments(path) == kept;
    RoutePatternKept(path);
  }

  lemma AppPagePieces()
    ensures Split(StripChar("app/home/page.tsx", '/'), '/') == ["app", "home", "page.tsx"]
  {
    SplitPathThree("app/home/page.tsx", "app", "home", "page.tsx");
  }

  lemma AppPageRoot()
    ensures RouteSegments(["app", "home", "page.tsx"]) == (true, ["home", "page.tsx"])
  {
  }

  lemma AppPageKept()
    ensures Normalized(["home", "page.tsx"], true, 2) == ["home"]
  {
    assert StripExtension("home") == "home";
    assert StripExtension("page.tsx") == "page";
    assert !Dropped(["home", "page.tsx"], 0, true, []);
    assert Normalized(["home", "page.tsx"], true, 1) == ["home"];
    assert Dropped(["home", "page.tsx"], 1, true, ["home"]);
  }

  lemma AppPageJoined()
    ensures "/" + Join(["home"], "/") == "/home"
  {
  }

  /** The app router: the page of a directory is the directory's route. */
  lemma RouteExampleAppPage()
    ensures RoutePattern("app/home/page.tsx") == "/home"
  {
    AppPagePieces();
    AppPageRoot();
    AppPageKept();
    PatternFrom("app/home/page.tsx", ["app", "home", "page.tsx"], true, ["home", "page.tsx"], ["home"]);
    AppPageJoined();
  }

  lemma PagesApiPieces()
    ensures Split(StripChar("pages/api/hello.ts", '/'), '/') == ["pages", "api", "hello.ts"]
  {
    SplitPathThree("pages/api/hello.ts", "pages", "api", "hello.ts");
  }

  lemma PagesApiRoot()
    ensures RouteSegments(["pages", "api", "hello.ts"]) == (false, ["api", "hello.ts"])
  {
    assert "app" !in ["pages", "api", "hello.ts"];
  }

  lemma PagesApiKept()
    ensures Normalized(["api", "hello.ts"], false, 2) == ["api", "hello"]
  {
    assert StripExtension("api") == "api";
    assert StripExtension("hello.ts") == "hello";
    assert !Dropped(["api", "hello.ts"], 0, false, []);
    assert Normalized(["api", "hello.ts"], false, 1) == ["api"];
    assert !Dropped(["api", "hello.ts"], 1, false, ["api"]);
  }

  lemma PagesApiJoined()
    ensures "/" + Join(["api", "hello"], "/") == "/api/hello"
  {
    assert ["api", "hello"][1..] == ["hello"];
  }

  /** The pages router: the leading "pages" goes, the extension too. */
  lemma RouteExamplePagesApi()
    ensures RoutePattern("pages/api/hello.ts") == "/api/hello"
  {
    PagesApiPieces();
    PagesApiRoot();
    PagesApiKept();
    PatternFrom("pages/api/hello.ts", ["pages", "api", "hello.ts"], false, ["api", "hello.ts"], ["api", "hello"]);
    PagesApiJoined();
  }

  lemma CatchAllPieces()
    ensures Split(StripChar("app/shop/[[...rest]]/page.tsx", '/'), '/') == ["app", "shop", "[[...rest]]", "page.tsx"]
  {
    CatchAllSpelled();
    SplitPathFour("app/shop/[[...rest]]/page.tsx", "app", "shop", "[[...rest]]", "page.tsx");
  }

  lemma CatchAllSpelled()
    ensures "app/shop/[[...rest]]/page.tsx" == "app" + "/" + ("shop" + "/" + ("[[...rest]]" + "/" + "page.tsx"))
  {
  }

  lemma CatchAllRoot()
    ensures RouteSegments(["app", "shop", "[[...rest]]", "page.tsx"]) == (true, ["shop", "[[...rest]]", "page.tsx"])
  {
  }

  lemma CatchAllKept()
    ensures Normalized(["shop", "[[...rest]]", "page.tsx"], true, 3) == ["shop", "*.rest"]
  {
    var rs := ["shop", "[[...rest]]", "page.tsx"];
    CatchAllSegment();
    assert StripExtension("shop") == "shop";
    assert StripExtension("page.tsx") == "page";
    assert !Dropped(rs, 0, true, []);
    assert Normalized(rs, true, 1) == ["shop"];
    assert !Dropped(rs, 1, true, ["shop"]);
    assert Normalized(rs, true, 2) == ["shop", "*.rest"];
    assert Dropped(rs, 2, true, ["shop", "*.rest"]);
  }

  lemma CatchAllSegment()
    ensures StripExtension("[[...rest]]") == "[[...rest]]"
    ensures RewriteAsWritten("[[...rest]]") == "*.rest"
  {
    CatchAllRewrite();
  }

  lemma CatchAllRewrite()
    ensures RewriteAsWritten("[[...rest]]") == "*.rest"
  {
    var base := "[[...rest]]";
    assert StartsWith(base, "[[...") && EndsWith(base, "]]");
    assert base[4..|base| - 2] == ".rest";
  }

  lemma CatchAllJoined()
    ensures "/" + Join(["shop", "*.rest"], "/") == "/shop/*.rest"
  {
    assert ["shop", "*.rest"][1..] == ["*.rest"];
  }

  /** As written, an optional catch-all keeps the dot that the three dots
      of `[[...` leave after `[[..` is cut. */
  lemma RouteExampleOptionalCatchAll()
    ensures RoutePattern("app/shop/[[...rest]]/page.tsx") == "/shop/*.rest"
  {
    CatchAllPieces();
    CatchAllRoot();
    CatchAllKept();
    PatternFrom("app/shop/[[...rest]]/page.tsx", ["app", "shop", "[[...rest]]", "page.tsx"], true, ["shop", "[[...rest]]", "page.tsx"], ["shop", "*.rest"]);
    CatchAllJoined();
  }

  /** The pattern is "/" exactly when no segment survives. */
  lemma RoutePatternRoot(path: string)
    ensures RoutePattern(path) == "/" <==> KeptSegments(path) == []
  {
    RoutePatternKept(path);
    var kept := KeptSegments(path);
    if kept != [] {
      KeptSegmentsShape(path);
      JoinFirst(kept, "/");
    }
  }

  /** A ".ts", ".tsx", ".js" or ".jsx" ending, in any case, is removed
      and nothing else is. */
  lemma StripKnownExtension(stem: string, ext: string)
    requires SpellsExt(ext, "tsx") || SpellsExt(ext, "jsx") || SpellsExt(ext, "ts") || SpellsExt(ext, "js")
    ensures StripExtension(stem + "." + ext) == stem
  {
    var body := stem + "." + ext;
    assert body[|body| - 1] == ext[|ext| - 1];
    assert body[|body| - |ext|..] == ext;
    assert body[|body| - |ext| - 1] == '.';
    if |ext| == 2 {
      assert body[|body| - 3..][0] == '.';
    }
    assert body[..|body| - |ext| - 1] == stem;
  }

  /** `[x]` is the dynamic segment `:x`. */
  lemma RewriteDynamic(x: string)
    requires !StartsWith(x, "...") && !StartsWith(x, "[")
    ensures RewriteAsWritten("[" + x + "]") == RewriteSegment("[" + x + "]") == ":" + x
  {
    var base := "[" + x + "]";
    if x != [] {
      assert base[1] == x[0];
    }
    if |x| >= 3 {
      assert base[1..4] == x[..3];
    } else if |x| == 2 {
      assert base[3] == ']';
    }
    assert base[1..|base| - 1] == x;
  }

  /** `[...x]` is the catch-all `*x`. */
  lemma RewriteCatchAll(x: string)
    ensures RewriteAsWritten("[..." + x + "]") == RewriteSegment("[..." + x + "]") == "*" + x
  {
    var base := "[..." + x + "]";
    assert base[1] == '.';
    assert base[4..|base| - 1] == x;
  }

  /** `[[...x]]` is the optional catch-all `*x`. */
  lemma RewriteOptionalCatchAll(x: string)
    ensures RewriteSegment("[[..." + x + "]]") == "*" + x
  {
    var base := "[[..." + x + "]]";
    assert base[..5] == "[[...";
    assert base[5..|base| - 2] == x;
  }

  /** As written, the optional catch-all keeps a dot: `[[...x]]` becomes
      `*.x`, never the `*x` of the catch-all. */
  lemma RewriteAsWrittenKeepsDot(x: string)
    ensures RewriteAsWritten("[[..." + x + "]]") == "*." + x
  {
    var base := "[[..." + x + "]]";
    assert base[..5] == "[[...";
    assert base[|base| - 2..] == "]]";
    assert base[4..|base| - 2] == "." + x;
  }

  /** So the code as written and the intended rewrite disagree on every
      optional catch-all segment. */
  lemma RewriteAsWrittenDiffers(x: string)
    ensures RewriteAsWritten("[[..." + x + "]]") != RewriteSegment("[[..." + x + "]]")
  {
    RewriteAsWrittenKeepsDot(x);
    RewriteOptionalCatchAll(x);
    assert |"*." + x| != |"*" + x|;
  }

  /** A segment not opened by '[' is kept as it is. */
  lemma RewritePlain(base: string)
    requires base == [] || base[0] != '['
    ensures RewriteAsWritten(base) == RewriteSegment(base) == base
  {
  }

  // ------------------------------------------------------ option lists

  /** `_collect_matchers` keeps exactly the non-empty patterns. */
  lemma {:induction false} NonEmptyMembers(xs: seq<string>)
    ensures forall s :: s in NonEmpty(xs) <==> s in xs && s != []
  {
    if xs != [] {
      NonEmptyMembers(xs[1..]);
      assert xs == [xs[0]] + xs[1..];
    }
  }

  /** The pieces of Strip(s) are pieces of s. */
  lemma StripWithin(s: string, c: char)
    requires c !in s
    ensures c !in Strip(s)
  {
    var l := LStrip(s);
    assert l == s[|s| - |l|..];
    var r := RStrip(l);
    assert r == l[..|r|];
  }

  lemma {:induction false} StrippedPiecesClean(pieces: seq<string>, c: char)
    requires forall i :: 0 <= i < |pieces| ==> c !in pieces[i]
    ensures forall i :: 0 <= i < |StrippedPieces(pieces)| ==>
              StrippedPieces(pieces)[i] != [] && Strip(StrippedPieces(pieces)[i]) == StrippedPieces(pieces)[i]
              && c !in StrippedPieces(pieces)[i]
  {
    if pieces != [] {
      var last := pieces[|pieces| - 1];
      var init := StrippedPieces(pieces[..|pieces| - 1]);
      StrippedPiecesClean(pieces[..|pieces| - 1], c);
      var s := Strip(last);
      RulesRunner.StripIdempotent(last);
      StripWithin(last, c);
      var r := StrippedPieces(pieces);
      assert r == init + (if s != [] then [s] else []);
      forall i | 0 <= i < |r| ensures r[i] != [] && Strip(r[i]) == r[i] && c !in r[i] {
        if i < |init| {
          assert r[i] == init[i];
        } else {
          assert r[i] == s;
        }
      }
    }
  }

  /** Every language named by `--langs` is non-empty, has no surrounding
      space and holds no comma. */
  lemma SplitLangsClean(langs: string)
    ensures forall i :: 0 <= i < |SplitLangs(langs)| ==>
              SplitLangs(langs)[i] != [] && Strip(SplitLangs(langs)[i]) == SplitLangs(langs)[i]
              && ',' !in SplitLangs(langs)[i]
  {
    StrippedPiecesClean(Split(langs, ','), ',');
  }

  /** Every piece stripped, in order. */
  function StripAll(pieces: seq<string>): (r: seq<string>)
    ensures |r| == |pieces| && forall k :: 0 <= k < |pieces| ==> r[k] == Strip(pieces[k])
    decreases |pieces|
  {
    if pieces == [] then [] else StripAll(pieces[..|pieces| - 1]) + [Strip(pieces[|pieces| - 1])]
  }

  /** Keeping the non-empty stripped pieces is stripping every piece and
      then keeping the non-empty ones, in order. */
  lemma {:induction false} StrippedPiecesFilter(pieces: seq<string>)
    ensures StrippedPieces(pieces) == NonEmpty(StripAll(pieces))
    decreases |pieces|
  {
    if pieces != [] {
      var init := pieces[..|pieces| - 1];
      StrippedPiecesFilter(init);
      NonEmptySnoc(StripAll(init), Strip(pieces[|pieces| - 1]));
    }
  }

  /** `--langs`: the languages are the stripped comma-separated pieces that
      are not empty, in the order of the pieces; a text is listed exactly
      when it is one of them. */
  lemma SplitLangsContent(langs: string)
    ensures SplitLangs(langs) == NonEmpty(StripAll(Split(langs, ',')))
    ensures forall x :: x in SplitLangs(langs) <==> x in StripAll(Split(langs, ',')) && x != []
  {
    StrippedPiecesFilter(Split(langs, ','));
    NonEmptyMembers(StripAll(Split(langs, ',')));
  }

  // ------------------------------------------------------ inferred graph

  /** As written, the build's inferred graph is the Python-side inference
      alone, whatever the rules would derive. */
  lemma InferredAsWrittenIgnoresRules(emitInferred: bool, nextjs: bool, facts: Graph, core: string,
                                      next: string, query: RulesRunner.Query, python: Graph)
    ensures InferredGraphAsWritten(emitInferred, nextjs, facts, core, next, query, python)
            == if emitInferred then python else {}
  {
  }

  /** A triple the rules derive and the Python-side inference does not is
      in the inferred graph, and missing from it as written. */
  lemma InferredAsWrittenLosesRuleTriple(nextjs: bool, facts: Graph, core: string, next: string,
                                         query: RulesRunner.Query, python: Graph, t: Triple)
    requires RulesRunner.RunRulePacksSpec(facts, RuleFiles(nextjs, core, next), query).Ok?
    requires t in RulesRunner.RunRulePacksSpec(facts, RuleFiles(nextjs, core, next), query).value
    requires t !in python
    ensures t in InferredGraph(true, nextjs, facts, core, next, query, python)
    ensures t !in InferredGraphAsWritten(true, nextjs, facts, core, next, query, python)
  {
  }

  /** The inferred graph of a build: nothing when it is not requested;
      otherwise it holds the Python-side inference, and only that when a
      rule fails. */
  lemma InferredGraphContents(emitInferred: bool, nextjs: bool, facts: Graph, core: string,
                              next: string, query: RulesRunner.Query, python: Graph)
    ensures !emitInferred ==> InferredGraph(emitInferred, nextjs, facts, core, next, query, python) == {}
    ensures emitInferred ==> python <= InferredGraph(emitInferred, nextjs, facts, core, next, query, python)
    ensures emitInferred && RulesRunner.RunRulePacksSpec(facts, RuleFiles(nextjs, core, next), query).Err? ==>
              InferredGraph(emitInferred, nextjs, facts, core, next, query, python) == python
  {
  }

  /** When every rule succeeds, the facts together with the inferred graph
      are the final working graph of the rules together with the
      Python-side inference. */
  lemma InferredWorkingGraph(nextjs: bool, facts: Graph, core: string, next: string,
                             query: RulesRunner.Query, python: Graph)
    ensures var run := RulesRunner.RunQueries(query, RulesRunner.AllQueries(RuleFiles(nextjs, core, next)),
                                              RulesRunner.Chain(facts, {}));
      run.Ok? ==> facts + InferredGraph(true, nextjs, facts, core, next, query, python) == run.value.working + python
  {
    WorkingPlus(facts, RuleFiles(nextjs, core, next), query, python);
  }

  lemma WorkingPlus(facts: Graph, files: seq<string>, query: RulesRunner.Query, python: Graph)
    ensures var run := RulesRunner.RunQueries(query, RulesRunner.AllQueries(files), RulesRunner.Chain(facts, {}));
      run.Ok? ==> RulesRunner.RunRulePacksSpec(facts, files, query) == Ok(run.value.inferred)
                  && facts + (run.value.inferred + python) == run.value.working + python
  {
    RulesRunner.RulePacksWorkingGraph(facts, files, query);
  }

  /** When every rule succeeds, what each rule of either pack constructs,
      over the working graph the rules before it left, is in the inferred
      graph. */
  lemma InferredHoldsEveryRule(nextjs: bool, facts: Graph, core: string, next: string,
                               query: RulesRunner.Query, python: Graph, k: nat)
    requires var qs := RulesRunner.AllQueries(RuleFiles(nextjs, core, next));
      k < |qs| && RulesRunner.RunQueries(query, qs, RulesRunner.Chain(facts, {})).Ok?
    ensures var qs := RulesRunner.AllQueries(RuleFiles(nextjs, core, next));
      var before := RulesRunner.RunQueries(query, qs[..k], RulesRunner.Chain(facts, {}));
      && before.Ok? && query(before.value.working, qs[k]).Ok?
      && query(before.value.working, qs[k]).value <= InferredGraph(true, nextjs, facts, core, next, query, python)
  {
    var qs := RulesRunner.AllQueries(RuleFiles(nextjs, core, next));
    RulesRunner.RunQueriesCollects(query, qs, RulesRunner.Chain(facts, {}), k);
  }
}
