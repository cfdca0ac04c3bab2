/** The framework-derivation rules of the command line (ontocode/cli.py):
    the route pattern of a Next.js file, the Page/Layout/APIRoute triples
    derived from the fact graph, the ignore-pattern and language lists, and
    the step that assembles the inferred graph. */
module Cli {

  import opened Wrappers
  import opened Strings
  import opened Rdf
  import RulesRunner
  import opened Paths

  // ------------------------------------------------------ route patterns

  /** A character the case-insensitive pattern letter `l` (an ASCII
      lower-case letter) matches: `l`, its upper case, and for 's' also the
      long s, which `re.IGNORECASE` folds to 's'. */
  predicate SameLetter(c: char, l: char)
    requires 'a' <= l <= 'z'
  {
    c == l || c as int == l as int - 32 || (l == 's' && c == '\U{017F}')
  }

  /** `s` spells the extension `ext` (lower-case ASCII) in any case. */
  predicate SpellsExt(s: string, ext: string)
    requires forall i :: 0 <= i < |ext| ==> 'a' <= ext[i] <= 'z'
  {
    |s| == |ext| && forall i :: 0 <= i < |s| ==> SameLetter(s[i], ext[i])
  }

  /** The length of the ".tsx", ".jsx", ".ts" or ".js" (any case) that ends
      `body`, or 0; the longer extensions are tried first, as the leftmost
      match of the regular expression starts earlier. */
  function ExtensionLength(body: string): (n: nat)
    ensures n <= |body|
    ensures n != 0 ==> body[|body| - n] == '.'
  {
    if |body| >= 4 && body[|body| - 4] == '.'
       && (SpellsExt(body[|body| - 3..], "tsx") || SpellsExt(body[|body| - 3..], "jsx")) then 4
    else if |body| >= 3 && body[|body| - 3] == '.'
       && (SpellsExt(body[|body| - 2..], "ts") || SpellsExt(body[|body| - 2..], "js")) then 3
    else 0
  }

  /** `re.sub(r"\.(tsx|jsx|ts|js)$", "", segment, flags=re.IGNORECASE)`:
      `$` also matches before a final newline, which stays. */
  function StripExtension(segment: string): string {
    var (body, tail) := if segment != [] && segment[|segment| - 1] == '\n'
                        then (segment[..|segment| - 1], "\n") else (segment, "");
    body[..|body| - ExtensionLength(body)] + tail
  }

  /** Index of the first `x` in `xs`, or |xs|. */
  function FirstIndex(xs: seq<string>, x: string): (k: nat)
    ensures k <= |xs|
    ensures k < |xs| ==> xs[k] == x
    ensures forall i :: 0 <= i < k ==> xs[i] != x
  {
    if xs == [] then 0 else if xs[0] == x then 0 else 1 + FirstIndex(xs[1..], x)
  }

  /** The router root: under the app router (some segment is "app") the
      segments after the first "app"; otherwise the segments without a
      leading "pages". */
  function RouteSegments(segments: seq<string>): (r: (bool, seq<string>))
    ensures r.0 <==> "app" in segments
  {
    if "app" in segments then (true, segments[FirstIndex(segments, "app") + 1..])
    else if segments != [] && segments[0] == "pages" then (false, segments[1..])
    else (false, segments)
  }

  /** A base name the app router gives a meaning of its own. */
  predicate ConventionFile(base: string) {
    base == "page" || base == "layout" || base == "route" || base == "default"
  }

  /** The segment rewrite as the code writes it: `"*" + base[4:-2]` for an
      optional catch-all keeps the third dot. */
  function RewriteAsWritten(base: string): string {
    if StartsWith(base, "[[...") && EndsWith(base, "]]") then
      assert base[3] == '.';
      "*" + base[4..|base| - 2]
    else RewriteSegment(base)
  }

  /** The segment rewrite: `[[...x]]` and `[...x]` become `*x`, `[x]`
      becomes `:x`, anything else stays. */
  function RewriteSegment(base: string): string {
    if StartsWith(base, "[[...") && EndsWith(base, "]]") then
      assert base[3] == '.' && base[4] == '.';
      "*" + base[5..|base| - 2]
    else if StartsWith(base, "[...") && EndsWith(base, "]") then
      assert base[3] == '.';
      "*" + base[4..|base| - 1]
    else if StartsWith(base, "[") && EndsWith(base, "]") then
      assert base[0] == '[';
      ":" + base[1..|base| - 1]
    else base
  }

  /** Whether the segment at index i of the route segments is dropped,
      given what has been kept before it. */
  predicate Dropped(rs: seq<string>, i: nat, inApp: bool, kept: seq<string>)
    requires i < |rs|
  {
    var base := StripExtension(rs[i]);
    base == []
    || (inApp && ConventionFile(base))
    || (base == "index" && (kept != [] || i == |rs| - 1))
  }

  /** The kept, rewritten segments among the first n route segments. */
  function Normalized(rs: seq<string>, inApp: bool, n: nat): seq<string>
    requires n <= |rs|
  {
    if n == 0 then []
    else
      var kept := Normalized(rs, inApp, n - 1);
      if Dropped(rs, n - 1, inApp, kept) then kept
      else kept + [RewriteAsWritten(StripExtension(rs[n - 1]))]
  }

  /** `re.sub(r"/{2,}", "/", s)`: every run of slashes becomes one. */
  function CollapseSlashes(s: string): string {
    if |s| < 2 then s
    else if s[0] == '/' && s[1] == '/' then CollapseSlashes(s[1..])
    else [s[0]] + CollapseSlashes(s[1..])
  }

  /** What `_derive_route_pattern` returns for a repository-relative path. */
  function RoutePattern(path: string): string {
    var cleaned := StripChar(path, '/');
    if cleaned == [] then "/"
    else
      var (inApp, rs) := RouteSegments(Split(cleaned, '/'));
      var normalized := Normalized(rs, inApp, |rs|);
      if normalized == [] then "/" else CollapseSlashes("/" + Join(normalized, "/"))
  }

  /** `_derive_route_pattern` */
  method DeriveRoutePattern(path: string) returns (pattern: string)
    ensures pattern == RoutePattern(path)
  {
    var cleaned := StripChar(path, '/');
    if cleaned == [] {
      return "/";
    }
    var segments := Split(cleaned, '/');
    var inApp, rs := RouteSegments(segments).0, RouteSegments(segments).1;
    var normalized: seq<string> := [];
    for i := 0 to |rs|
      invariant normalized == Normalized(rs, inApp, i)
    {
      var base := StripExtension(rs[i]);
      assert Normalized(rs, inApp, i + 1)
             == if Dropped(rs, i, inApp, normalized) then normalized else normalized + [RewriteAsWritten(base)];
      if base == [] {
        continue;
      }
      if inApp && ConventionFile(base) {
        continue;
      }
      if base == "index" && (normalized != [] || i == |rs| - 1) {
        continue;
      }
      normalized := normalized + [RewriteAsWritten(base)];
    }
    pattern := CollapseSlashes("/" + Join(normalized, "/"));
    if normalized == [] {
      pattern := "/";
    }
  }

  // ---------------------------------------------------- Next.js inference

  /** The units a file defines. */
  function DefinedUnits(facts: Graph, file: Term): set<Term> {
    Objects(facts, file, Laco("defines"))
  }

  /** The units a file defines that are its default export. */
  function DefaultUnits(facts: Graph, file: Term): (r: set<Term>)
    ensures r <= DefinedUnits(facts, file)
  {
    set u | u in DefinedUnits(facts, file) && Triple(u, Laco("isExportedDefault"), BoolLit(true)) in facts
  }

  /** One unit given every (predicate, object) pair. */
  function UnitTags(u: Term, tags: seq<(Term, Term)>): Graph {
    set k | 0 <= k < |tags| :: Triple(u, tags[k].0, tags[k].1)
  }

  /** Every unit given every (predicate, object) pair. */
  function Tagged(units: set<Term>, tags: seq<(Term, Term)>): Graph {
    set u, t | u in units && t in UnitTags(u, tags) :: t
  }

  function PageTags(route: string, client: bool): seq<(Term, Term)> {
    [(RdfType, Next("Page")), (Next("segmentType"), Lit("page")), (Next("routePattern"), Lit(route))]
    + (if client then [(Next("usesClient"), BoolLit(true))] else [])
  }

  function LayoutTags(): seq<(Term, Term)> {
    [(RdfType, Next("Layout")), (Next("segmentType"), Lit("layout"))]
  }

  function RouteTags(route: string): seq<(Term, Term)> {
    [(RdfType, Next("APIRoute")), (Next("segmentType"), Lit("route")), (Next("routePattern"), Lit(route))]
  }

  predicate IsPage(lowerSuffix: string) {
    EndsWith(lowerSuffix, "page.tsx") || EndsWith(lowerSuffix, "page.jsx") || EndsWith(lowerSuffix, "page.ts")
  }

  predicate IsLayout(lowerSuffix: string) {
    EndsWith(lowerSuffix, "layout.tsx") || EndsWith(lowerSuffix, "layout.jsx")
  }

  predicate IsRoute(lowerSuffix: string) {
    EndsWith(lowerSuffix, "route.ts") || EndsWith(lowerSuffix, "route.js")
    || EndsWith(lowerSuffix, "route.tsx") || EndsWith(lowerSuffix, "route.jsx")
  }

  /** Whether the file carries `ts:hasUseClientDirective true`. */
  predicate UsesClient(facts: Graph, file: Term) {
    Triple(file, Ts("hasUseClientDirective"), BoolLit(true)) in facts
  }

  /** The triples the app router derives for a file whose path is `path`:
      nothing unless the path holds "app/" with text after it. */
  function AppInference(facts: Graph, file: Term, path: string): Graph {
    var (inApp, appSuffix) := AfterFirst(path, "app/");
    if inApp && appSuffix != [] then AppTags(facts, file, Lower(appSuffix), RoutePattern(path))
    else {}
  }

  /** The app-router triples of a file whose lower-cased text after "app/"
      is `lower` and whose route pattern is `route`. */
  function AppTags(facts: Graph, file: Term, lower: string, route: string): Graph {
    var defaults := DefaultUnits(facts, file);
    (if IsPage(lower) then Tagged(defaults, PageTags(route, UsesClient(facts, file))) else {})
    + (if IsLayout(lower) then Tagged(defaults, LayoutTags()) else {})
    + (if IsRoute(lower) then Tagged(DefinedUnits(facts, file), RouteTags(route)) else {})
  }

  /** The triples the pages router derives: API routes for the default
      units of a file whose text after the first "pages/" starts with
      "api/". */
  function PagesInference(facts: Graph, file: Term, path: string): Graph {
    var (inPages, pagesSuffix) := AfterFirst(path, "pages/");
    if inPages && StartsWith(pagesSuffix, "api/") then Tagged(DefaultUnits(facts, file), RouteTags(RoutePattern(path)))
    else {}
  }

  /** The triples derived from one source file whose path is `path`. */
  function FileInference(facts: Graph, file: Term, path: string): Graph {
    AppInference(facts, file, path) + PagesInference(facts, file, path)
  }

  /** The source files of the fact graph. */
  function SourceFiles(facts: Graph): set<Term> {
    Subjects(facts, RdfType, Laco("SourceFile"))
  }

  /** A choice of one `dct:path` value for every source file that has one;
      rdflib's `Graph.value` returns one of them. */
  ghost predicate PathChoice(facts: Graph, chosen: map<Term, Term>) {
    (forall f :: f in chosen <==> f in SourceFiles(facts) && Objects(facts, f, DctPath) != {})
    && forall f :: f in chosen ==> Triple(f, DctPath, chosen[f]) in facts
  }

  /** The union of `per(facts, f, str(chosen[f]))` over the chosen files. */
  function Gather(facts: Graph, chosen: map<Term, Term>, per: (Graph, Term, string) -> Graph): Graph {
    set f, t | f in chosen && t in per(facts, f, Text(chosen[f])) :: t
  }

  /** The triples derived from every file, under the given path choice. */
  function InferenceWith(facts: Graph, chosen: map<Term, Term>): Graph {
    Gather(facts, chosen, FileInference)
  }

  lemma TaggedAdd(done: set<Term>, u: Term, tags: seq<(Term, Term)>)
    ensures Tagged(done + {u}, tags) == Tagged(done, tags) + UnitTags(u, tags)
  {
    forall t | t in Tagged(done + {u}, tags) ensures t in Tagged(done, tags) + UnitTags(u, tags) {
      var v :| v in done + {u} && t in UnitTags(v, tags);
      if v != u {
        assert t in Tagged(done, tags);
      }
    }
  }

  /** Tags every unit of `units` with every pair of `tags`. */
  method AddTags(graph: Graph, units: set<Term>, tags: seq<(Term, Term)>) returns (g: Graph)
    ensures g == graph + Tagged(units, tags)
  {
    g := graph;
    var remaining := units;
    ghost var done: set<Term> := {};
    while remaining != {}
      invariant remaining !! done && remaining + done == units
      invariant g == graph + Tagged(done, tags)
      decreases remaining
    {
      var u :| u in remaining;
      g := g + UnitTags(u, tags);
      TaggedAdd(done, u, tags);
      remaining, done := remaining - {u}, done + {u};
    }
  }

  lemma UnionAssoc<T>(a: set<T>, b: set<T>, c: set<T>, d: set<T>)
    ensures a + (b + c + d) == a + b + c + d
  {
  }

  /** The app-router part of `_python_inference` for one file. */
  method InferAppRouter(facts: Graph, file: Term, path: string, graph: Graph) returns (g: Graph)
    ensures g == graph + AppInference(facts, file, path)
  {
    g := graph;
    var (inApp, appSuffix) := AfterFirst(path, "app/");
    if inApp && appSuffix != [] {
      g := AddAppTags(facts, file, Lower(appSuffix), RoutePattern(path), g);
    }
  }

  /** The page, layout and route tags of one app-router file. */
  method AddAppTags(facts: Graph, file: Term, lower: string, route: string, graph: Graph) returns (g: Graph)
    ensures g == graph + AppTags(facts, file, lower, route)
  {
    g := graph;
    var defaults := DefaultUnits(facts, file);
    ghost var page := if IsPage(lower) then Tagged(defaults, PageTags(route, UsesClient(facts, file))) else {};
    ghost var layout := if IsLayout(lower) then Tagged(defaults, LayoutTags()) else {};
    ghost var api := if IsRoute(lower) then Tagged(DefinedUnits(facts, file), RouteTags(route)) else {};
    if IsPage(lower) {
      g := AddTags(g, defaults, PageTags(route, UsesClient(facts, file)));
    }
    assert g == graph + page;
    if IsLayout(lower) {
      g := AddTags(g, defaults, LayoutTags());
    }
    assert g == graph + page + layout;
    if IsRoute(lower) {
      g := AddTags(g, DefinedUnits(facts, file), RouteTags(route));
    }
    assert g == graph + page + layout + api;
    UnionAssoc(graph, page, layout, api);
  }

  /** The body of `_python_inference` for one file. */
  method InferForFile(facts: Graph, file: Term, path: string, graph: Graph) returns (g: Graph)
    ensures g == graph + FileInference(facts, file, path)
  {
    g := InferAppRouter(facts, file, path, graph);
    var (inPages, pagesSuffix) := AfterFirst(path, "pages/");
    if inPages && StartsWith(pagesSuffix, "api/") {
      g := AddTags(g, DefaultUnits(facts, file), RouteTags(RoutePattern(path)));
    }
  }

  /** Choosing one more file adds exactly the triples derived from it. */
  lemma GatherAdd(facts: Graph, chosen: map<Term, Term>, f: Term, p: Term, per: (Graph, Term, string) -> Graph)
    requires f !in chosen
    ensures Gather(facts, chosen[f := p], per) == Gather(facts, chosen, per) + per(facts, f, Text(p))
  {
    var after := chosen[f := p];
    forall t | t in Gather(facts, after, per) ensures t in Gather(facts, chosen, per) + per(facts, f, Text(p)) {
      var h :| h in after && t in per(facts, h, Text(after[h]));
      if h != f {
        assert t in per(facts, h, Text(chosen[h]));
      }
    }
    forall t | t in Gather(facts, chosen, per) ensures t in Gather(facts, after, per) {
      var h :| h in chosen && t in per(facts, h, Text(chosen[h]));
      assert after[h] == chosen[h];
    }
    forall t | t in per(facts, f, Text(p)) ensures t in Gather(facts, after, per) {
      assert after[f] == p;
    }
  }

  /** One round of `_python_inference`: a file with a `dct:path` value
      adds the triples derived under that value; one without is skipped. */
  method VisitFile(facts: Graph, file: Term, inferred: Graph, ghost chosen: map<Term, Term>)
    returns (inferred': Graph, ghost chosen': map<Term, Term>)
    requires file !in chosen && inferred == InferenceWith(facts, chosen)
    ensures inferred' == InferenceWith(facts, chosen')
    ensures Objects(facts, file, DctPath) == {} ==> chosen' == chosen
    ensures Objects(facts, file, DctPath) != {} ==>
              file in chosen' && chosen' == chosen[file := chosen'[file]] && Triple(file, DctPath, chosen'[file]) in facts
  {
    inferred', chosen' := inferred, chosen;
    var paths := Objects(facts, file, DctPath);
    if paths != {} {
      var p :| p in paths;
      inferred' := InferForFile(facts, file, Text(p), inferred);
      GatherAdd(facts, chosen, file, p, FileInference);
      chosen' := chosen[file := p];
    }
  }

  /** `_python_inference`: the derived triples, in a graph of their own;
      `chosen` records the `dct:path` value read for each file. */
  method PythonInference(facts: Graph) returns (inferred: Graph, ghost chosen: map<Term, Term>)
    ensures PathChoice(facts, chosen)
    ensures inferred == InferenceWith(facts, chosen)
  {
    inferred, chosen := InferOver(facts, SourceFiles(facts));
    ChoiceComplete(facts, chosen);
  }

  /** The path choice made so far: the files read that have a `dct:path`
      value are chosen, with one of their values. */
  ghost predicate Scanned(facts: Graph, seen: set<Term>, chosen: map<Term, Term>) {
    chosen.Keys <= seen
    && (forall f :: f in seen && f !in chosen ==> Objects(facts, f, DctPath) == {})
    && forall f :: f in chosen ==> Triple(f, DctPath, chosen[f]) in facts
  }

  lemma ScannedStep(facts: Graph, seen: set<Term>, chosen: map<Term, Term>, file: Term, chosen': map<Term, Term>)
    requires Scanned(facts, seen, chosen) && file !in seen
    requires Objects(facts, file, DctPath) == {} ==> chosen' == chosen
    requires Objects(facts, file, DctPath) != {} ==>
               file in chosen' && chosen' == chosen[file := chosen'[file]] && Triple(file, DctPath, chosen'[file]) in facts
    ensures Scanned(facts, seen + {file}, chosen')
  {
  }

  /** The loop of `_python_inference` over the given files. */
  method InferOver(facts: Graph, files: set<Term>) returns (inferred: Graph, ghost chosen: map<Term, Term>)
    ensures Scanned(facts, files, chosen)
    ensures inferred == InferenceWith(facts, chosen)
  {
    inferred, chosen := {}, map[];
    var remaining := files;
    ghost var seen: set<Term> := {};
    while remaining != {}
      invariant remaining !! seen && remaining + seen == files
      invariant Scanned(facts, seen, chosen)
      invariant inferred == InferenceWith(facts, chosen)
      decreases remaining
    {
      var file :| file in remaining;
      ghost var before := chosen;
      inferred, chosen := VisitFile(facts, file, inferred, chosen);
      ScannedStep(facts, seen, before, file, chosen);
      assert (remaining - {file}) + (seen + {file}) == remaining + seen;
      remaining, seen := remaining - {file}, seen + {file};
    }
  }

  lemma ChoiceComplete(facts: Graph, chosen: map<Term, Term>)
    requires Scanned(facts, SourceFiles(facts), chosen)
    ensures PathChoice(facts, chosen)
  {
    forall f | f in chosen ensures Objects(facts, f, DctPath) != {} {
      assert chosen[f] in Objects(facts, f, DctPath);
    }
  }

  // -------------------------------------------------- option lists

  /** `_collect_matchers`: the non-empty patterns, in order. */
  method CollectMatchers(ignore: seq<string>) returns (patterns: seq<string>)
    ensures patterns == NonEmpty(ignore)
  {
    patterns := [];
    for i := 0 to |ignore|
      invariant patterns == NonEmpty(ignore[..i])
    {
      if ignore[i] != [] {
        patterns := patterns + [ignore[i]];
      }
      assert ignore[..i + 1] == ignore[..i] + [ignore[i]];
      NonEmptySnoc(ignore[..i], ignore[i]);
    }
    assert ignore[..|ignore|] == ignore;
  }

  /** The stripped pieces of a list that are not empty, in order. */
  function StrippedPieces(pieces: seq<string>): seq<string>
    decreases |pieces|
  {
    if pieces == [] then []
    else
      var s := Strip(pieces[|pieces| - 1]);
      StrippedPieces(pieces[..|pieces| - 1]) + (if s != [] then [s] else [])
  }

  /** `[part.strip() for part in langs.split(",") if part.strip()]` */
  function SplitLangs(langs: string): seq<string> {
    StrippedPieces(Split(langs, ','))
  }

  // ---------------------------------------------------- inferred graph

  /** The rule files the build runs: the core pack, then the Next.js pack
      when that is enabled. */
  function RuleFiles(nextjs: bool, core: string, next: string): seq<string> {
    [core] + (if nextjs then [next] else [])
  }

  /** The inferred graph of a build, as the code writes it: the call to
      `run_rule_packs` passes a keyword argument the function does not
      take, so it raises before any rule runs and the handler leaves the
      rule output empty. `python` is what `_python_inference` returns
      (see BuildInferredGraph). The rule files,
      the facts and the query engine are parameters only so that this
      definition and the intended one take the same inputs: as written,
      none of them is read. */
  function InferredGraphAsWritten(emitInferred: bool, nextjs: bool, facts: Graph, core: string,
                                  next: string, query: RulesRunner.Query, python: Graph): Graph {
    if !emitInferred then {}
    else
      var ruleOutput: Result<Graph, string> := Err("unexpected keyword argument 'on_rule_finished'");
      var fromRules := if ruleOutput.Ok? then ruleOutput.value else {};
      fromRules + python
  }

  /** The inferred graph of a build: the rule output (empty when a rule
      fails) together with the Python-side inference `python`. */
  function InferredGraph(emitInferred: bool, nextjs: bool, facts: Graph, core: string,
                         next: string, query: RulesRunner.Query, python: Graph): Graph {
    if !emitInferred then {}
    else
      var ruleOutput := RulesRunner.RunRulePacksSpec(facts, RuleFiles(nextjs, core, next), query);
      var fromRules := if ruleOutput.Ok? then ruleOutput.value else {};
      fromRules + python
  }

  /** The inferred-graph step of `build`, with the rule packs called as
      `run_rule_packs(facts, rule_files)`: the rule output, or nothing when
      a rule fails, then `_python_inference` added. */
  method BuildInferredGraph(emitInferred: bool, nextjs: bool, facts: Graph, core: string,
                            next: string, query: RulesRunner.Query)
    returns (inferred: Graph, ghost chosen: map<Term, Term>)
    ensures emitInferred ==> PathChoice(facts, chosen)
    ensures inferred == InferredGraph(emitInferred, nextjs, facts, core, next, query, InferenceWith(facts, chosen))
  {
    inferred, chosen := {}, map[];
    if emitInferred {
      var ruleFiles := [core];
      if nextjs {
        ruleFiles := ruleFiles + [next];
      }
      assert ruleFiles == RuleFiles(nextjs, core, next);
      var out := RulesRunner.RunRulePacks(facts, ruleFiles, query);
      inferred := if out.Ok? then out.value else {};
      var python;
      python, chosen := PythonInference(facts);
      inferred := inferred + python;
      InferredGraphFrom(nextjs, facts, core, next, query, out, python);
    }
  }

  lemma InferredGraphFrom(nextjs: bool, facts: Graph, core: string, next: string, query: RulesRunner.Query,
                          out: Result<Graph, string>, python: Graph)
    requires out == RulesRunner.RunRulePacksSpec(facts, RuleFiles(nextjs, core, next), query)
    ensures InferredGraph(true, nextjs, facts, core, next, query, python)
            == (if out.Ok? then out.value else {}) + python
  {
  }
}
