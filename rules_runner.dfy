/** The rule pipeline (ontocode/rdf/rules_runner.py): rule files are split
    into SPARQL CONSTRUCT queries, which run one after the other against a
    working graph that grows with every result. The SPARQL engine itself is
    a parameter: `query(g, text)` is the graph a CONSTRUCT query builds over
    g, or the error it raises. */
module RulesRunner {

  import opened Wrappers
  import opened Strings
  import opened Rdf

  // ------------------------------------------------- splitting a body

  /** A line after which a query ends: its stripped text ends with ';'. */
  predicate ClosesQuery(line: string) {
    EndsWith(Strip(line), ";")
  }

  /** The lines of a body cut into groups: the closed groups, each ending at
      a line for which `closes` holds, and the open group of lines after the
      last one. The body is cut with `closes` = ClosesQuery. */
  function Groups(lines: seq<string>, closes: string -> bool): (seq<seq<string>>, seq<string>)
    decreases |lines|
  {
    if lines == [] then ([], [])
    else
      var (closed, open) := Groups(lines[..|lines| - 1], closes);
      var line := lines[|lines| - 1];
      if closes(line) then (closed + [open + [line]], []) else (closed, open + [line])
  }

  /** The query text of a closed group: the lines joined, trailing ';'
      removed, then stripped. */
  function Snippet(group: seq<string>): string {
    Strip(RStripChar(JoinLines(group), ';'))
  }

  /** The non-empty snippets of the closed groups, in order. */
  function Snippets(groups: seq<seq<string>>): (r: seq<string>)
    ensures |r| <= |groups|
    ensures forall i :: 0 <= i < |r| ==> r[i] != [] && r[i] == Strip(r[i])
    decreases |groups|
  {
    if groups == [] then []
    else
      var s := Snippet(groups[|groups| - 1]);
      Snippets(groups[..|groups| - 1]) + (if s != [] then [s] else [])
  }

  /** What `_split_constructs` returns for a body: the non-empty snippets of
      the closed groups, then the stripped open group if it is not empty. */
  function SplitConstructsSpec(body: string): seq<string> {
    var (closed, open) := Groups(SplitLines(body), ClosesQuery);
    var remainder := Strip(JoinLines(open));
    Snippets(closed) + (if remainder != [] then [remainder] else [])
  }

  /** `_split_constructs` */
  method SplitConstructs(body: string) returns (segments: seq<string>)
    ensures segments == SplitConstructsSpec(body)
  {
    var lines := SplitLines(body);
    segments := [];
    var current: seq<string> := [];
    for i := 0 to |lines|
      invariant current == Groups(lines[..i], ClosesQuery).1
      invariant segments == Snippets(Groups(lines[..i], ClosesQuery).0)
    {
      var line := lines[i];
      ghost var (closed, open) := Groups(lines[..i], ClosesQuery);
      assert lines[..i + 1] == lines[..i] + [line];
      GroupsSnoc(lines[..i], line, ClosesQuery);
      current := current + [line];
      if ClosesQuery(line) {
        var snippet := Strip(RStripChar(JoinLines(current), ';'));
        assert (closed + [current])[..|closed|] == closed;
        assert Snippets(closed + [current]) == segments + (if snippet != [] then [snippet] else []);
        if snippet != [] {
          segments := segments + [snippet];
        }
        current := [];
      }
    }
    assert lines[..|lines|] == lines;
    var remainder := Strip(JoinLines(current));
    if remainder != [] {
      segments := segments + [remainder];
    }
  }

  // -------------------------------------------------- prefix handling

  /** A line that declares a prefix: its stripped, upper-cased text starts
      with "PREFIX". */
  predicate IsPrefixLine(line: string) {
    StartsWith(Upper(Strip(line)), "PREFIX")
  }

  /** The lines for which `test` gives `side`, in order. */
  function Pick(lines: seq<string>, test: string -> bool, side: bool): seq<string>
    decreases |lines|
  {
    if lines == [] then []
    else Pick(lines[..|lines| - 1], test, side)
         + (if test(lines[|lines| - 1]) == side then [lines[|lines| - 1]] else [])
  }

  /** The prefix lines of a rule file, in order. */
  function PrefixLines(lines: seq<string>): seq<string> {
    Pick(lines, IsPrefixLine, true)
  }

  /** The other lines of a rule file, in order. */
  function BodyLines(lines: seq<string>): seq<string> {
    Pick(lines, IsPrefixLine, false)
  }

  /** The full query texts for the given rule bodies: the file's prefix
      lines, then the body; empty bodies are skipped. */
  function QueryTexts(prefixes: seq<string>, bodies: seq<string>): seq<string>
    decreases |bodies|
  {
    if bodies == [] then []
    else
      var b := bodies[|bodies| - 1];
      QueryTexts(prefixes, bodies[..|bodies| - 1]) + (if b != [] then [JoinLines(prefixes + [b])] else [])
  }

  /** The queries of one rule file, in order. */
  function FileQueries(text: string): seq<string> {
    var lines := SplitLines(text);
    QueryTexts(PrefixLines(lines), SplitConstructsSpec(JoinLines(BodyLines(lines))))
  }

  /** The queries of several rule files: file by file, each in its order. */
  function AllQueries(files: seq<string>): seq<string>
    decreases |files|
  {
    if files == [] then [] else AllQueries(files[..|files| - 1]) + FileQueries(files[|files| - 1])
  }

  // ------------------------------------------------- forward chaining

  /** The SPARQL engine: the graph a CONSTRUCT query builds, or its error. */
  type Query = (Graph, string) -> Result<Graph, string>

  /** The two graphs `run_rule_packs` keeps. */
  datatype Chain = Chain(working: Graph, inferred: Graph)

  /** Runs the queries in order, each over the working graph left by the
      ones before; the first error stops the run. */
  function RunQueries(query: Query, queries: seq<string>, start: Chain): Result<Chain, string>
    decreases |queries|
  {
    if queries == [] then Ok(start)
    else
      match RunQueries(query, queries[..|queries| - 1], start)
      case Err(e) => Err(e)
      case Ok(c) =>
        match query(c.working, queries[|queries| - 1])
        case Err(e) => Err(e)
        case Ok(g) => Ok(Chain(c.working + g, c.inferred + g))
  }

  /** What `run_rule_packs` returns: the union of every query's result, or
      the error of the first query that fails. */
  function RunRulePacksSpec(facts: Graph, files: seq<string>, query: Query): Result<Graph, string> {
    match RunQueries(query, AllQueries(files), Chain(facts, {}))
    case Err(e) => Err(e)
    case Ok(c) => Ok(c.inferred)
  }

  /** The prefix and body lines of one rule file. */
  method SplitPrefixes(lines: seq<string>) returns (prefixes: seq<string>, body: seq<string>)
    ensures prefixes == PrefixLines(lines) && body == BodyLines(lines)
  {
    prefixes, body := Partition(lines, IsPrefixLine);
  }

  /** The loop that sends each line, in order, to the lines for which
      `test` holds or to the others. */
  method Partition(lines: seq<string>, test: string -> bool) returns (yes: seq<string>, no: seq<string>)
    ensures yes == Pick(lines, test, true) && no == Pick(lines, test, false)
  {
    yes, no := [], [];
    for i := 0 to |lines|
      invariant yes == Pick(lines[..i], test, true) && no == Pick(lines[..i], test, false)
    {
      var line := lines[i];
      assert lines[..i + 1] == lines[..i] + [line];
      PickSnoc(lines[..i], line, test, true);
      PickSnoc(lines[..i], line, test, false);
      if test(line) {
        yes := yes + [line];
      } else {
        no := no + [line];
      }
    }
    assert lines[..|lines|] == lines;
  }

  /** The queries of one rule file (its prefix lines and its bodies) run
      over the working graph, continuing the run of the queries `done` that
      came before. */
  method RunFile(query: Query, facts: Graph, ghost done: seq<string>, prefixes: seq<string>,
                 bodies: seq<string>, working0: Graph, inferred0: Graph) returns (r: Result<Chain, string>)
    requires RunQueries(query, done, Chain(facts, {})) == Ok(Chain(working0, inferred0))
    ensures r == RunQueries(query, done + QueryTexts(prefixes, bodies), Chain(facts, {}))
  {
    var working, inferred := working0, inferred0;
    assert done + QueryTexts(prefixes, bodies[..0]) == done;
    for j := 0 to |bodies|
      invariant RunQueries(query, done + QueryTexts(prefixes, bodies[..j]), Chain(facts, {}))
                == Ok(Chain(working, inferred))
    {
      var b := bodies[j];
      QueryTextsSnoc(prefixes, bodies, j);
      if b != [] {
        var q := JoinLines(prefixes + [b]);
        ghost var qs := done + QueryTexts(prefixes, bodies[..j]);
        assert done + QueryTexts(prefixes, bodies[..j + 1]) == qs + [q];
        RunQueriesSnoc(query, qs, q, Chain(facts, {}));
        var res := query(working, q);
        if res.Err? {
          FileAborts(query, Chain(facts, {}), done, prefixes, bodies, j + 1);
          return Err(res.error);
        }
        working, inferred := working + res.value, inferred + res.value;
        assert RunQueries(query, qs + [q], Chain(facts, {})) == Ok(Chain(working, inferred));
      } else {
        assert done + QueryTexts(prefixes, bodies[..j + 1]) == done + QueryTexts(prefixes, bodies[..j]);
      }
    }
    assert bodies[..|bodies|] == bodies;
    return Ok(Chain(working, inferred));
  }

  /** One more query: it runs over the graph the ones before it left. */
  lemma RunQueriesSnoc(query: Query, qs: seq<string>, q: string, start: Chain)
    ensures RunQueries(query, qs + [q], start) ==
            match RunQueries(query, qs, start)
            case Err(e) => Err(e)
            case Ok(c) =>
              match query(c.working, q)
              case Err(e) => Err(e)
              case Ok(g) => Ok(Chain(c.working + g, c.inferred + g))
  {
    assert (qs + [q])[..|qs|] == qs;
  }

  /** A failure among the queries of the first n bodies is the failure of
      the whole file. */
  lemma FileAborts(query: Query, start: Chain, done: seq<string>, prefixes: seq<string>, bodies: seq<string>, n: nat)
    requires n <= |bodies|
    requires RunQueries(query, done + QueryTexts(prefixes, bodies[..n]), start).Err?
    ensures RunQueries(query, done + QueryTexts(prefixes, bodies), start)
            == RunQueries(query, done + QueryTexts(prefixes, bodies[..n]), start)
  {
    QueryTextsPrefix(prefixes, bodies, n);
    var part := done + QueryTexts(prefixes, bodies[..n]);
    var all := done + QueryTexts(prefixes, bodies);
    assert all[..|part|] == part;
    AbortPersists(query, part, all, start);
  }

  lemma QueryTextsSnoc(prefixes: seq<string>, bodies: seq<string>, j: nat)
    requires j < |bodies|
    ensures QueryTexts(prefixes, bodies[..j + 1]) ==
            QueryTexts(prefixes, bodies[..j]) + (if bodies[j] != [] then [JoinLines(prefixes + [bodies[j]])] else [])
  {
    assert bodies[..j + 1][..j] == bodies[..j];
  }

  /** The texts of the first n bodies come first among all the texts. */
  lemma {:induction false} QueryTextsPrefix(prefixes: seq<string>, bodies: seq<string>, n: nat)
    requires n <= |bodies|
    ensures |QueryTexts(prefixes, bodies[..n])| <= |QueryTexts(prefixes, bodies)|
    ensures QueryTexts(prefixes, bodies)[..|QueryTexts(prefixes, bodies[..n])|] == QueryTexts(prefixes, bodies[..n])
    decreases |bodies|
  {
    if n < |bodies| {
      var init := bodies[..|bodies| - 1];
      assert init[..n] == bodies[..n];
      QueryTextsPrefix(prefixes, init, n);
    } else {
      assert bodies[..n] == bodies;
    }
  }

  /** `run_rule_packs`, with the rule files given by their text. */
  method RunRulePacks(facts: Graph, files: seq<string>, query: Query) returns (r: Result<Graph, string>)
    ensures r == RunRulePacksSpec(facts, files, query)
  {
    var working := facts;
    var inferred: Graph := {};
    for i := 0 to |files|
      invariant RunQueries(query, AllQueries(files[..i]), Chain(facts, {})) == Ok(Chain(working, inferred))
    {
      assert files[..i + 1][..i] == files[..i];
      var prefixes, body := SplitPrefixes(SplitLines(files[i]));
      var bodies := SplitConstructs(JoinLines(body));
      assert FileQueries(files[i]) == QueryTexts(prefixes, bodies);
      var step := RunFile(query, facts, AllQueries(files[..i]), prefixes, bodies, working, inferred);
      if step.Err? {
        assert files[..|files|] == files;
        AllQueriesPrefix(files, i + 1);
        AbortPersists(query, AllQueries(files[..i + 1]), AllQueries(files), Chain(facts, {}));
        return Err(step.error);
      }
      working, inferred := step.value.working, step.value.inferred;
    }
    assert files[..|files|] == files;
    return Ok(inferred);
  }

  /** The queries of the first n files come first among all queries. */
  lemma {:induction false} AllQueriesPrefix(files: seq<string>, n: nat)
    requires n <= |files|
    ensures |AllQueries(files[..n])| <= |AllQueries(files)|
    ensures AllQueries(files)[..|AllQueries(files[..n])|] == AllQueries(files[..n])
    decreases |files|
  {
    if n < |files| {
      var init := files[..|files| - 1];
      assert init[..n] == files[..n];
      AllQueriesPrefix(init, n);
    } else {
      assert files[..n] == files;
    }
  }

  /** A failed run stays failed, with the same error, however many queries
      follow. */
  lemma {:induction false} AbortPersists(query: Query, done: seq<string>, all: seq<string>, start: Chain)
    requires RunQueries(query, done, start).Err?
    requires |done| <= |all| && all[..|done|] == done
    ensures RunQueries(query, all, start) == RunQueries(query, done, start)
    decreases |all|
  {
    if |all| > |done| {
      var init := all[..|all| - 1];
      assert init[..|done|] == done;
      AbortPersists(query, done, init, start);
    } else {
      assert all == done;
    }
  }

  // -------------------------------------------------------- properties

  /** The groups laid end to end. */
  function Concat(groups: seq<seq<string>>): (r: seq<string>)
    decreases |groups|
  {
    if groups == [] then [] else Concat(groups[..|groups| - 1]) + groups[|groups| - 1]
  }

  /** A closed group: not empty, its last line closes and no other line
      does. */
  predicate ClosedGroup(g: seq<string>, closes: string -> bool) {
    g != [] && closes(g[|g| - 1]) && forall k :: 0 <= k < |g| - 1 ==> !closes(g[k])
  }

  /** One more line: a closing line closes the open group, any other line
      joins it. */
  lemma GroupsSnoc(init: seq<string>, line: string, closes: string -> bool)
    ensures Groups(init + [line], closes) ==
            if closes(line) then (Groups(init, closes).0 + [Groups(init, closes).1 + [line]], [])
            else (Groups(init, closes).0, Groups(init, closes).1 + [line])
  {
    assert (init + [line])[..|init|] == init;
  }

  /** Grouping loses and adds nothing: the groups laid end to end give the
      lines back. */
  lemma {:induction false} GroupsConcat(lines: seq<string>, closes: string -> bool)
    ensures Concat(Groups(lines, closes).0) + Groups(lines, closes).1 == lines
    decreases |lines|
  {
    if lines != [] {
      var init := lines[..|lines| - 1];
      var line := lines[|lines| - 1];
      GroupsConcat(init, closes);
      GroupsSnoc(init, line, closes);
      assert init + [line] == lines;
      var (closed, open) := Groups(init, closes);
      if closes(line) {
        assert (closed + [open + [line]])[..|closed|] == closed;
        assert Concat(closed + [open + [line]]) == Concat(closed) + (open + [line]);
      }
    }
  }

  /** Grouping cuts exactly after each closing line: every closed group ends
      at its only closing line, and the open group holds none. */
  lemma {:induction false} GroupsCut(lines: seq<string>, closes: string -> bool)
    ensures forall i :: 0 <= i < |Groups(lines, closes).0| ==> ClosedGroup(Groups(lines, closes).0[i], closes)
    ensures forall k :: 0 <= k < |Groups(lines, closes).1| ==> !closes(Groups(lines, closes).1[k])
    decreases |lines|
  {
    if lines != [] {
      var init := lines[..|lines| - 1];
      var line := lines[|lines| - 1];
      GroupsCut(init, closes);
      GroupsSnoc(init, line, closes);
      assert init + [line] == lines;
      var (closed, open) := Groups(init, closes);
      var g := open + [line];
      assert forall k :: 0 <= k < |g| - 1 ==> g[k] == open[k];
      if closes(line) {
        assert ClosedGroup(g, closes);
      }
    }
  }

  /** With no closing line there is no closed group. */
  lemma {:induction false} GroupsUnclosed(lines: seq<string>, closes: string -> bool)
    requires forall k :: 0 <= k < |lines| ==> !closes(lines[k])
    ensures Groups(lines, closes) == ([], lines)
    decreases |lines|
  {
    if lines != [] {
      var init := lines[..|lines| - 1];
      var line := lines[|lines| - 1];
      assert forall k :: 0 <= k < |init| ==> init[k] == lines[k];
      GroupsUnclosed(init, closes);
      GroupsSnoc(init, line, closes);
      assert init + [line] == lines;
    }
  }

  /** The lines of a body cut into queries: laid end to end the groups give
      the lines back, each closed group ends at its only line whose
      stripped text ends with ';', and the lines after the last such line
      hold none. */
  lemma BodyGroups(body: string)
    ensures Concat(Groups(SplitLines(body), ClosesQuery).0) + Groups(SplitLines(body), ClosesQuery).1 == SplitLines(body)
    ensures forall i :: 0 <= i < |Groups(SplitLines(body), ClosesQuery).0| ==>
              ClosedGroup(Groups(SplitLines(body), ClosesQuery).0[i], ClosesQuery)
    ensures forall k :: 0 <= k < |Groups(SplitLines(body), ClosesQuery).1| ==>
              !ClosesQuery(Groups(SplitLines(body), ClosesQuery).1[k])
  {
    GroupsConcat(SplitLines(body), ClosesQuery);
    GroupsCut(SplitLines(body), ClosesQuery);
  }

  /** Every query a body yields is non-empty and has no whitespace at either
      end, and there is at most one more query than closing lines. */
  lemma SplitConstructsClean(body: string)
    ensures forall i :: 0 <= i < |SplitConstructsSpec(body)| ==>
              SplitConstructsSpec(body)[i] != [] && SplitConstructsSpec(body)[i] == Strip(SplitConstructsSpec(body)[i])
    ensures |SplitConstructsSpec(body)| <= |Groups(SplitLines(body), ClosesQuery).0| + 1
  {
    var (closed, open) := Groups(SplitLines(body), ClosesQuery);
    var remainder := Strip(JoinLines(open));
    StripIdempotent(JoinLines(open));
    var r := SplitConstructsSpec(body);
    assert r == Snippets(closed) + (if remainder != [] then [remainder] else []);
  }

  /** Stripping twice is stripping once. */
  lemma StripIdempotent(s: string)
    ensures Strip(Strip(s)) == Strip(s)
  {
    var t := Strip(s);
    assert t == [] || !IsSpace(t[0]);
    assert LStrip(t) == t;
  }

  /** A body with no closing line is one query: the whole body, stripped. */
  lemma SplitConstructsUnclosed(body: string)
    requires forall k :: 0 <= k < |SplitLines(body)| ==> !ClosesQuery(SplitLines(body)[k])
    ensures SplitConstructsSpec(body) == if Strip(JoinLines(SplitLines(body))) == [] then [] else [Strip(JoinLines(SplitLines(body)))]
  {
    GroupsUnclosed(SplitLines(body), ClosesQuery);
  }

  lemma PickSnoc(init: seq<string>, line: string, test: string -> bool, side: bool)
    ensures Pick(init + [line], test, side) == Pick(init, test, side) + (if test(line) == side then [line] else [])
  {
    assert (init + [line])[..|init|] == init;
  }

  /** Picking keeps exactly the lines on the asked side. */
  lemma {:induction false} PickSide(lines: seq<string>, test: string -> bool, side: bool)
    ensures forall k :: 0 <= k < |Pick(lines, test, side)| ==> test(Pick(lines, test, side)[k]) == side
    decreases |lines|
  {
    if lines != [] {
      var init := lines[..|lines| - 1];
      PickSide(init, test, side);
      PickSnoc(init, lines[|lines| - 1], test, side);
      assert init + [lines[|lines| - 1]] == lines;
    }
  }

  /** The two sides together hold every line once. */
  lemma {:induction false} PickPartition(lines: seq<string>, test: string -> bool)
    ensures multiset(Pick(lines, test, true)) + multiset(Pick(lines, test, false)) == multiset(lines)
    decreases |lines|
  {
    if lines != [] {
      var init := lines[..|lines| - 1];
      var line := lines[|lines| - 1];
      PickPartition(init, test);
      var t := Pick(init, test, true);
      var f := Pick(init, test, false);
      assert lines == init + [line];
      assert multiset(lines) == multiset(init) + multiset{line};
      if test(line) {
        assert Pick(lines, test, true) == t + [line] && Pick(lines, test, false) == f;
        assert multiset(t + [line]) == multiset(t) + multiset{line};
      } else {
        assert Pick(lines, test, true) == t && Pick(lines, test, false) == f + [line];
        assert multiset(f + [line]) == multiset(f) + multiset{line};
      }
    }
  }

  /** The prefix lines are the lines that declare a prefix, the body lines
      are the others, and every line of the file goes to exactly one side. */
  lemma PrefixBodyPartition(lines: seq<string>)
    ensures forall k :: 0 <= k < |PrefixLines(lines)| ==> IsPrefixLine(PrefixLines(lines)[k])
    ensures forall k :: 0 <= k < |BodyLines(lines)| ==> !IsPrefixLine(BodyLines(lines)[k])
    ensures multiset(PrefixLines(lines)) + multiset(BodyLines(lines)) == multiset(lines)
  {
    PickSide(lines, IsPrefixLine, true);
    PickSide(lines, IsPrefixLine, false);
    PickPartition(lines, IsPrefixLine);
  }

  /** The chain only grows: what the working graph holds beyond the start is
      exactly what was inferred beyond the start. */
  lemma {:induction false} RunQueriesGrows(query: Query, qs: seq<string>, start: Chain)
    ensures RunQueries(query, qs, start).Ok? ==>
              var c := RunQueries(query, qs, start).value;
              start.working <= c.working && start.inferred <= c.inferred
              && c.working + start.inferred == start.working + c.inferred
    decreases |qs|
  {
    if qs != [] {
      RunQueriesGrows(query, qs[..|qs| - 1], start);
    }
  }

  /** On success the working graph is the facts plus everything inferred. */
  lemma RulePacksWorkingGraph(facts: Graph, files: seq<string>, query: Query)
    ensures RunQueries(query, AllQueries(files), Chain(facts, {})).Ok? ==>
              RunQueries(query, AllQueries(files), Chain(facts, {})).value.working ==
              facts + RunQueries(query, AllQueries(files), Chain(facts, {})).value.inferred
  {
    RunQueriesGrows(query, AllQueries(files), Chain(facts, {}));
  }

  /** A run that succeeds ran every query successfully, each over the
      working graph its predecessors left. */
  lemma {:induction false} RunQueriesSucceeds(query: Query, qs: seq<string>, start: Chain, k: nat)
    requires k < |qs|
    ensures RunQueries(query, qs, start).Ok? ==>
              RunQueries(query, qs[..k], start).Ok? &&
              query(RunQueries(query, qs[..k], start).value.working, qs[k]).Ok?
    decreases |qs|
  {
    var init := qs[..|qs| - 1];
    if k < |qs| - 1 {
      RunQueriesSucceeds(query, init, start, k);
      assert init[..k] == qs[..k];
    } else {
      assert qs[..k] == init;
    }
  }

  /** In a run that succeeds, everything each query constructs over the
      working graph left by its predecessors ends up in the inferred graph. */
  lemma {:induction false} RunQueriesCollects(query: Query, qs: seq<string>, start: Chain, k: nat)
    requires k < |qs|
    requires RunQueries(query, qs, start).Ok?
    ensures RunQueries(query, qs[..k], start).Ok?
    ensures query(RunQueries(query, qs[..k], start).value.working, qs[k]).Ok?
    ensures query(RunQueries(query, qs[..k], start).value.working, qs[k]).value
            <= RunQueries(query, qs, start).value.inferred
    decreases |qs|
  {
    var init := qs[..|qs| - 1];
    if k < |qs| - 1 {
      RunQueriesCollects(query, init, start, k);
      assert init[..k] == qs[..k];
    } else {
      assert qs[..k] == init;
    }
  }

  /** A query that fails over the working graph of its predecessors makes
      the run fail with that query's error. */
  lemma RunQueriesFails(query: Query, qs: seq<string>, start: Chain, k: nat)
    requires k < |qs|
    requires RunQueries(query, qs[..k], start).Ok?
    requires query(RunQueries(query, qs[..k], start).value.working, qs[k]).Err?
    ensures RunQueries(query, qs, start) == Err(query(RunQueries(query, qs[..k], start).value.working, qs[k]).error)
  {
    assert qs[..k + 1][..k] == qs[..k];
    AbortPersists(query, qs[..k + 1], qs, start);
  }
}
