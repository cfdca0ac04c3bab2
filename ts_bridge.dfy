/** The bridge to the TypeScript extractor (ontocode/extract/ts_bridge.py):
    the decision between the Node extractor's output and the Python
    fallback, and the helpers of the fallback analyzer that name modules,
    mint symbol ids, place spans, spot the "use client" directive, list
    default exports and resolve the callees of a file's calls. */
module TsBridge {

  import opened Wrappers
  import opened Strings
  import opened Facts
  import Utf8
  import Base64

  // ------------------------------------------------------------ names

  /** `s.rsplit(".", 1)[0]`: the text before the last '.', or all of it. */
  function BeforeLastDot(s: string): (r: string)
    ensures '.' !in s ==> r == s
    ensures '.' in s ==> |r| < |s| && r == s[..|r|] && s[|r|] == '.' && '.' !in s[|r| + 1..]
  {
    var k := RFind(s, '.');
    if k < 0 then s else s[..k]
  }

  /** `_module_name`: the relative path without its extension, with every
      '/' read as '.'. */
  function ModuleName(relative: string): (r: string)
    ensures '/' !in r && |r| <= |relative|
  {
    ReplaceChar(BeforeLastDot(relative), '/', '.')
  }

  /** Dropping an extension: a path `stem.ext`, `ext` free of dots, names
      the module of `stem`. */
  lemma ModuleNameDropsExtension(stem: string, ext: string)
    requires '.' !in ext
    ensures ModuleName(stem + "." + ext) == ReplaceChar(stem, '/', '.')
  {
    var s := stem + "." + ext;
    assert s[|stem|] == '.';
    var r := BeforeLastDot(s);
    assert s[|stem| + 1..] == ext;
    assert r == stem;
  }

  /** The text a symbol id encodes. */
  function SymbolText(kind: string, qualifiedName: string): string {
    "ts:" + kind + ":" + qualifiedName
  }

  /** `_base64_symbol`: the URL-safe base64 of the UTF-8 bytes of
      "ts:<kind>:<qualified name>", with the '=' padding stripped. */
  function Base64Symbol(kind: string, qualifiedName: string): (r: string)
    ensures r == Base64.Encode(Utf8.Encode(SymbolText(kind, qualifiedName)))
  {
    var raw := Utf8.Encode(SymbolText(kind, qualifiedName));
    Base64.StripPadding(raw);
    RStripChar(Base64.PaddedEncode(raw), '=')
  }

  /** A symbol id is made of the URL-safe alphabet, so it holds no '=',
      and decoding it gives back the text it encodes. */
  lemma Base64SymbolRoundTrip(kind: string, qualifiedName: string)
    ensures forall i :: 0 <= i < |Base64Symbol(kind, qualifiedName)| ==> Base64.IsLetter(Base64Symbol(kind, qualifiedName)[i])
    ensures '=' !in Base64Symbol(kind, qualifiedName)
    ensures Base64.Decode(Base64Symbol(kind, qualifiedName)) == Some(Utf8.Encode(SymbolText(kind, qualifiedName)))
    ensures Utf8.Decode(Utf8.Encode(SymbolText(kind, qualifiedName))) == Some(SymbolText(kind, qualifiedName))
  {
    var raw := Utf8.Encode(SymbolText(kind, qualifiedName));
    Base64.EncodeAlphabet(raw);
    Base64.DecodeEncode(raw);
    Utf8.DecodeEncode(SymbolText(kind, qualifiedName));
  }

  /** Distinct texts get distinct symbol ids. */
  lemma Base64SymbolInjective(k1: string, q1: string, k2: string, q2: string)
    requires Base64Symbol(k1, q1) == Base64Symbol(k2, q2)
    ensures SymbolText(k1, q1) == SymbolText(k2, q2)
  {
    Base64.EncodeInjective(Utf8.Encode(SymbolText(k1, q1)), Utf8.Encode(SymbolText(k2, q2)));
    Utf8.EncodeInjective(SymbolText(k1, q1), SymbolText(k2, q2));
  }

  // ------------------------------------------------------------ spans

  /** `source[:match_start]` */
  function Before(source: string, matchStart: nat): string {
    if matchStart <= |source| then source[..matchStart] else source
  }

  /** `_span_for`: the 1-based line and column of an offset, as a span one
      column wide. */
  function SpanFor(source: string, matchStart: nat): (r: Span)
    ensures r.startLine == Some(CountChar(Before(source, matchStart), '\n') + 1)
    ensures r.startCol.Some? && r.startCol.value >= 1
    ensures r.endLine == r.startLine && r.endCol == Some(r.startCol.value + 1)
  {
    var before := Before(source, matchStart);
    var line := CountChar(before, '\n') + 1;
    var lastNewline := RFind(before, '\n');
    var col := if lastNewline == -1 then matchStart + 1 else matchStart - lastNewline;
    Span(Some(line), Some(line), Some(col), Some(col + 1))
  }

  /** The column counts from the character after the last newline before
      the offset (or from the start of the text): the col - 1 characters
      before the offset hold no newline, and the one before them is a
      newline unless they reach back to the start. */
  lemma SpanColumn(source: string, matchStart: nat)
    requires matchStart <= |source|
    ensures var col := SpanFor(source, matchStart).startCol.value;
            col <= matchStart + 1
            && (forall j :: matchStart - (col - 1) <= j < matchStart ==> source[j] != '\n')
            && (col == matchStart + 1 || source[matchStart - col] == '\n')
  {
    var before := source[..matchStart];
    var k := RFind(before, '\n');
    if k >= 0 {
      assert source[k] == before[k];
    }
    forall j | k < j < matchStart ensures source[j] != '\n' {
      assert source[j] == before[j];
    }
  }

  /** Lines count the newlines before the offset: an offset just after a
      newline starts a new line at column 1. */
  lemma {:induction false} SpanAfterNewline(head: string, tail: string)
    ensures SpanFor(head + "\n" + tail, |head| + 1).startLine == Some(CountChar(head, '\n') + 2)
    ensures SpanFor(head + "\n" + tail, |head| + 1).startCol == Some(1)
  {
    var s := head + "\n" + tail;
    var before := s[..|head| + 1];
    assert before == head + ['\n'];
    CountCharSnoc(head, '\n');
  }

  lemma {:induction false} CountCharSnoc(s: string, c: char)
    ensures CountChar(s + [c], c) == CountChar(s, c) + 1
    decreases |s|
  {
    if s == [] {
      assert s + [c] == [c];
    } else {
      assert (s + [c])[1..] == s[1..] + [c];
      CountCharSnoc(s[1..], c);
    }
  }

  // ------------------------------------------------------ "use client"

  /** The four spellings of the directive. */
  const UseClientForms: set<string> := {"'use client';", "\"use client\";", "'use client'", "\"use client\""}

  /** The loop of `_has_use_client` over the lines, for a normalisation
      `norm` (there `str.strip`) and a set of accepted lines: lines that
      normalise to nothing are skipped, the first other line decides. */
  function FirstLineDecides(lines: seq<string>, norm: string -> string, accept: set<string>): bool {
    if lines == [] then false
    else if norm(lines[0]) == [] then FirstLineDecides(lines[1..], norm, accept)
    else norm(lines[0]) in accept
  }

  /** `_has_use_client` */
  function HasUseClient(text: string): bool {
    FirstLineDecides(SplitLines(text), Strip, UseClientForms)
  }

  /** Index of the first line that does not normalise to nothing, or |lines|. */
  function FirstNonBlank(lines: seq<string>, norm: string -> string): (k: nat)
    ensures k <= |lines|
    ensures k < |lines| ==> norm(lines[k]) != []
    ensures forall j :: 0 <= j < k ==> norm(lines[j]) == []
  {
    if lines == [] then 0 else if norm(lines[0]) != [] then 0 else 1 + FirstNonBlank(lines[1..], norm)
  }

  lemma {:induction false} DecidesAtFirstNonBlank(lines: seq<string>, norm: string -> string, accept: set<string>)
    ensures FirstLineDecides(lines, norm, accept) <==>
              FirstNonBlank(lines, norm) < |lines| && norm(lines[FirstNonBlank(lines, norm)]) in accept
  {
    if lines != [] && norm(lines[0]) == [] {
      DecidesAtFirstNonBlank(lines[1..], norm, accept);
    }
  }

  /** The answer is yes exactly when some line normalises to an accepted
      one and every line before it normalises to nothing. */
  lemma FirstLineMeaning(lines: seq<string>, norm: string -> string, accept: set<string>)
    requires [] !in accept
    ensures FirstLineDecides(lines, norm, accept) <==>
              exists i :: 0 <= i < |lines| && norm(lines[i]) in accept
                          && forall j :: 0 <= j < i ==> norm(lines[j]) == []
  {
    DecidesAtFirstNonBlank(lines, norm, accept);
    var k := FirstNonBlank(lines, norm);
    if exists i :: 0 <= i < |lines| && norm(lines[i]) in accept
                   && forall j :: 0 <= j < i ==> norm(lines[j]) == [] {
      var i :| 0 <= i < |lines| && norm(lines[i]) in accept
               && forall j :: 0 <= j < i ==> norm(lines[j]) == [];
      assert !(k < i) && !(i < k);
    }
  }

  /** Only the first line that normalises to something is read: what
      follows it never matters. */
  lemma {:induction false} LaterLinesIgnored(blank: seq<string>, line: string, rest: seq<string>,
                                              norm: string -> string, accept: set<string>)
    requires forall j :: 0 <= j < |blank| ==> norm(blank[j]) == []
    requires norm(line) != []
    ensures FirstLineDecides(blank + [line] + rest, norm, accept) == (norm(line) in accept)
    decreases |blank|
  {
    var lines := blank + [line] + rest;
    if blank == [] {
      assert lines[0] == line && lines[1..] == rest;
    } else {
      assert lines[0] == blank[0];
      assert lines[1..] == blank[1..] + [line] + rest;
      LaterLinesIgnored(blank[1..], line, rest, norm, accept);
    }
  }

  /** On a text: a first line carrying the directive decides, whatever
      follows. */
  lemma HasUseClientFirst(first: string, tail: string)
    requires NoBoundary(first) && Strip(first) != []
    ensures HasUseClient(first + "\n" + tail) == (Strip(first) in UseClientForms)
  {
    var lines := [first] + SplitLines(tail);
    assert SplitLines(first + "\n" + tail) == lines by {
      SplitLinesCons(first, tail);
    }
    assert FirstLineDecides(lines, Strip, UseClientForms) == (Strip(first) in UseClientForms) by {
      LaterLinesIgnored([], first, SplitLines(tail), Strip, UseClientForms);
      assert [] + [first] + SplitLines(tail) == lines;
    }
  }

  // ------------------------------------------------------------ exports

  /** Python truthiness of the unit's `isExportedDefault`. */
  predicate IsDefault(u: Unit) {
    u.isExportedDefault == Some(true)
  }

  /** The export record of a default unit. */
  function DefaultExport(u: Unit): Export {
    Export(Some("default"), u.symbolId)
  }

  /** One export per default unit, in unit order. */
  function DefaultExports(units: seq<Unit>): seq<Export>
    decreases |units|
  {
    if units == [] then []
    else
      var u := units[|units| - 1];
      DefaultExports(units[..|units| - 1]) + (if IsDefault(u) then [DefaultExport(u)] else [])
  }

  /** `_collect_exports` */
  method CollectExports(units: seq<Unit>) returns (exports: seq<Export>)
    ensures exports == DefaultExports(units)
  {
    exports := [];
    for i := 0 to |units|
      invariant exports == DefaultExports(units[..i])
    {
      if IsDefault(units[i]) {
        exports := exports + [DefaultExport(units[i])];
      }
      assert units[..i + 1][..i] == units[..i];
    }
    assert units[..|units|] == units;
  }

  /** The exports of two runs of units follow each other, so the order of
      the units is kept. */
  lemma {:induction false} DefaultExportsAppend(a: seq<Unit>, b: seq<Unit>)
    ensures DefaultExports(a + b) == DefaultExports(a) + DefaultExports(b)
    decreases |b|
  {
    if b == [] {
      assert a + b == a;
    } else {
      var init := b[..|b| - 1];
      assert (a + b)[..|a + b| - 1] == a + init;
      assert (a + b)[|a + b| - 1] == b[|b| - 1];
      DefaultExportsAppend(a, init);
    }
  }

  /** An export is listed exactly when some unit is a default export with
      that record. */
  lemma {:induction false} DefaultExportsMembers(units: seq<Unit>)
    ensures forall e :: e in DefaultExports(units) <==>
              exists i :: 0 <= i < |units| && IsDefault(units[i]) && e == DefaultExport(units[i])
    decreases |units|
  {
    if units != [] {
      var init := units[..|units| - 1];
      DefaultExportsMembers(init);
      forall e | e in DefaultExports(units)
        ensures exists i :: 0 <= i < |units| && IsDefault(units[i]) && e == DefaultExport(units[i])
      {
        if e in DefaultExports(init) {
          var i :| 0 <= i < |init| && IsDefault(init[i]) && e == DefaultExport(init[i]);
          assert units[i] == init[i];
        } else {
          assert IsDefault(units[|units| - 1]) && e == DefaultExport(units[|units| - 1]);
        }
      }
      forall e | exists i :: 0 <= i < |units| && IsDefault(units[i]) && e == DefaultExport(units[i])
        ensures e in DefaultExports(units)
      {
        var i :| 0 <= i < |units| && IsDefault(units[i]) && e == DefaultExport(units[i]);
        if i < |init| {
          assert init[i] == units[i];
        }
      }
    }
  }

  // ------------------------------------------------------------ subject

  /** Index of the first default unit, or |units|. */
  function FirstDefault(units: seq<Unit>): (k: nat)
    ensures k <= |units|
    ensures k < |units| ==> IsDefault(units[k])
    ensures forall j :: 0 <= j < k ==> !IsDefault(units[j])
  {
    if units == [] then 0 else if IsDefault(units[0]) then 0 else 1 + FirstDefault(units[1..])
  }

  /** The subject of a file's calls: the symbol id of its first default
      unit, when that id is a non-empty string; a later default unit is
      never consulted. */
  function SubjectSymbol(units: seq<Unit>): Option<string> {
    var k := FirstDefault(units);
    if k < |units| && Truthy(units[k].symbolId) then Some(units[k].symbolId.value) else None
  }

  /** The subject is `s` exactly when the first default unit carries the
      symbol id `s`, and `s` is not empty. */
  lemma SubjectIsFirstDefault(units: seq<Unit>, s: string)
    ensures SubjectSymbol(units) == Some(s) <==>
              exists k :: 0 <= k < |units| && IsDefault(units[k]) && (forall j :: 0 <= j < k ==> !IsDefault(units[j]))
                          && units[k].symbolId == Some(s) && s != []
  {
    var k := FirstDefault(units);
    if exists k' :: 0 <= k' < |units| && IsDefault(units[k']) && (forall j :: 0 <= j < k' ==> !IsDefault(units[j]))
                    && units[k'].symbolId == Some(s) && s != [] {
      var k' :| 0 <= k' < |units| && IsDefault(units[k']) && (forall j :: 0 <= j < k' ==> !IsDefault(units[j]))
                && units[k'].symbolId == Some(s) && s != [];
      assert !(k < k') && !(k' < k);
    }
  }

  // ------------------------------------------------------- call targets

  /** The symbol index as its items, in insertion order: (qualified name,
      symbol id), no name twice. */
  type SymbolItems = seq<(string, string)>

  /** The entry a callee resolves to: the name ends with "." + callee. */
  predicate Resolves(qname: string, callee: string) {
    EndsWith(qname, "." + callee)
  }

  /** Index of the first entry the callee resolves to, or |items|. */
  function FirstResolving(items: SymbolItems, callee: string): (k: nat)
    ensures k <= |items|
    ensures k < |items| ==> Resolves(items[k].0, callee)
    ensures forall j :: 0 <= j < k ==> !Resolves(items[j].0, callee)
  {
    if items == [] then 0
    else if Resolves(items[0].0, callee) then 0
    else 1 + FirstResolving(items[1..], callee)
  }

  /** The (objectQName, objectSymbolId) of a call: the first entry the
      callee resolves to, or the bare callee with no symbol. */
  function Resolution(items: SymbolItems, callee: string): (string, Option<string>) {
    var k := FirstResolving(items, callee);
    if k < |items| then (items[k].0, Some(items[k].1)) else (callee, None)
  }

  /** The resolution loop of `_collect_occurrences`. */
  method ResolveCallee(items: SymbolItems, callee: string) returns (qualified: string, objectSymbol: Option<string>)
    ensures (qualified, objectSymbol) == Resolution(items, callee)
  {
    qualified, objectSymbol := callee, None;
    var i := 0;
    while i < |items|
      invariant 0 <= i <= |items|
      invariant forall j :: 0 <= j < i ==> !Resolves(items[j].0, callee)
    {
      if EndsWith(items[i].0, "." + callee) {
        qualified, objectSymbol := items[i].0, Some(items[i].1);
        FirstResolvingAt(items, callee, i);
        return;
      }
      i := i + 1;
    }
    FirstResolvingAt(items, callee, |items|);
  }

  lemma {:induction false} FirstResolvingAt(items: SymbolItems, callee: string, i: nat)
    requires i <= |items|
    requires i < |items| ==> Resolves(items[i].0, callee)
    requires forall j :: 0 <= j < i ==> !Resolves(items[j].0, callee)
    ensures FirstResolving(items, callee) == i
  {
    var k := FirstResolving(items, callee);
    assert !(k < i) && !(i < k);
  }

  /** A call resolves to a symbol exactly when some entry ends with
      "." + callee, and then to the earliest one; otherwise it keeps the
      bare callee. */
  lemma ResolutionMeaning(items: SymbolItems, callee: string)
    ensures Resolution(items, callee).1.Some? <==> exists j :: 0 <= j < |items| && Resolves(items[j].0, callee)
    ensures Resolution(items, callee).1.None? ==> Resolution(items, callee).0 == callee
    ensures Resolution(items, callee).1.Some? ==>
              exists k :: 0 <= k < |items| && Resolution(items, callee) == (items[k].0, Some(items[k].1))
                          && Resolves(items[k].0, callee) && forall j :: 0 <= j < k ==> !Resolves(items[j].0, callee)
  {
    var k := FirstResolving(items, callee);
    if exists j :: 0 <= j < |items| && Resolves(items[j].0, callee) {
      var j :| 0 <= j < |items| && Resolves(items[j].0, callee);
      assert k <= j;
    }
  }

  // ------------------------------------------------------- occurrences

  /** One match of `([A-Za-z0-9_]+)\s*\(` in the text: the callee and the
      offset the match starts at. */
  datatype Call = Call(callee: string, start: nat)

  /** The occurrence a call of the subject records. */
  function CallOccurrence(text: string, subject: string, items: SymbolItems, c: Call): Occurrence {
    var (qualified, objectSymbol) := Resolution(items, c.callee);
    Occurrence(Some("calls"), Some(subject), objectSymbol, Some(qualified), Some(SpanFor(text, c.start)))
  }

  /** The occurrences of the calls, in order, the calls of "function"
      left out. */
  function CallOccurrences(text: string, subject: string, items: SymbolItems, calls: seq<Call>): seq<Occurrence>
    decreases |calls|
  {
    if calls == [] then []
    else
      var c := calls[|calls| - 1];
      CallOccurrences(text, subject, items, calls[..|calls| - 1])
      + (if c.callee == "function" then [] else [CallOccurrence(text, subject, items, c)])
  }

  /** The loop over the calls of one file. */
  method CollectCallOccurrences(text: string, subject: string, items: SymbolItems, calls: seq<Call>)
    returns (occurrences: seq<Occurrence>)
    ensures occurrences == CallOccurrences(text, subject, items, calls)
  {
    occurrences := [];
    for i := 0 to |calls|
      invariant occurrences == CallOccurrences(text, subject, items, calls[..i])
    {
      assert calls[..i + 1][..i] == calls[..i];
      var callee := calls[i].callee;
      if callee == "function" {
        continue;
      }
      var qualified, objectSymbol := ResolveCallee(items, callee);
      var span := SpanFor(text, calls[i].start);
      occurrences := occurrences + [Occurrence(Some("calls"), Some(subject), objectSymbol, Some(qualified), Some(span))];
    }
    assert calls[..|calls|] == calls;
  }

  /** The calls that are recorded: every one but those of "function". */
  function Recorded(calls: seq<Call>): seq<Call>
    decreases |calls|
  {
    if calls == [] then []
    else
      Recorded(calls[..|calls| - 1]) + (if calls[|calls| - 1].callee == "function" then [] else [calls[|calls| - 1]])
  }

  /** One occurrence per recorded call, in order, each about the subject,
      placed at its call and resolved as its callee. */
  lemma {:induction false} CallOccurrencesMeaning(text: string, subject: string, items: SymbolItems, calls: seq<Call>)
    ensures |CallOccurrences(text, subject, items, calls)| == |Recorded(calls)|
    ensures forall i :: 0 <= i < |Recorded(calls)| ==>
              CallOccurrences(text, subject, items, calls)[i] == CallOccurrence(text, subject, items, Recorded(calls)[i])
    ensures forall i :: 0 <= i < |Recorded(calls)| ==> Recorded(calls)[i].callee != "function"
    decreases |calls|
  {
    if calls != [] {
      var init, c := calls[..|calls| - 1], calls[|calls| - 1];
      CallOccurrencesMeaning(text, subject, items, init);
      var r0, o0 := Recorded(init), CallOccurrences(text, subject, items, init);
      var tail := if c.callee == "function" then [] else [c];
      assert Recorded(calls) == r0 + tail;
      assert CallOccurrences(text, subject, items, calls)
             == o0 + (if c.callee == "function" then [] else [CallOccurrence(text, subject, items, c)]);
      forall i | 0 <= i < |Recorded(calls)|
        ensures CallOccurrences(text, subject, items, calls)[i] == CallOccurrence(text, subject, items, Recorded(calls)[i])
        ensures Recorded(calls)[i].callee != "function"
      {
        if i < |r0| {
          assert Recorded(calls)[i] == r0[i];
          assert CallOccurrences(text, subject, items, calls)[i] == o0[i];
        }
      }
    }
  }

  /** `_collect_occurrences` for one file: a file whose units give no
      subject keeps its payload; any other gets the occurrences of its
      calls. */
  method CollectOccurrences(payload: Payload, text: string, items: SymbolItems, calls: seq<Call>)
    returns (result: Payload)
    ensures SubjectSymbol(payload.units).None? ==> result == payload
    ensures SubjectSymbol(payload.units).Some? ==>
              result == payload.(occurrences := CallOccurrences(text, SubjectSymbol(payload.units).value, items, calls))
  {
    result := payload;
    var subject: Option<string> := None;
    for i := 0 to |payload.units|
      invariant i <= FirstDefault(payload.units)
      invariant subject.None?
    {
      if IsDefault(payload.units[i]) {
        subject := if Truthy(payload.units[i].symbolId) then Some(payload.units[i].symbolId.value) else None;
        FirstDefaultAt(payload.units, i);
        break;
      }
    }
    if subject.None? {
      return;
    }
    var occurrences := CollectCallOccurrences(text, subject.value, items, calls);
    result := payload.(occurrences := occurrences);
  }

  lemma FirstDefaultAt(units: seq<Unit>, i: nat)
    requires i < |units| && IsDefault(units[i])
    requires forall j :: 0 <= j < i ==> !IsDefault(units[j])
    ensures FirstDefault(units) == i
  {
    var k := FirstDefault(units);
    assert !(k < i) && !(i < k);
  }

  // ------------------------------------------------------------ run

  /** What one stripped, non-blank output line gives: a record; text that
      is not JSON, which is logged and skipped; or JSON that is not an
      object, on which `data.get("filePath")` raises AttributeError. */
  datatype Parsed<R> = Record(record: R) | InvalidJson | NotAnObject

  /** The records read so far, and whether a line that is not a JSON
      object has raised out of the reading loop. */
  datatype Collection<R> = Collection(results: seq<R>, raised: bool)

  /** One turn of the reading loop: the line is stripped, a blank one is
      skipped, and so is one that is not JSON; once the loop has raised no
      further line is read. */
  function Step<R>(c: Collection<R>, line: string, parse: string -> Parsed<R>): Collection<R> {
    if c.raised then c
    else
      var payload := Strip(line);
      if payload == [] then c
      else match parse(payload)
        case Record(x) => Collection(c.results + [x], false)
        case InvalidJson => c
        case NotAnObject => Collection(c.results, true)
  }

  /** The reading loop over the extractor's output lines. */
  function Collected<R>(lines: seq<string>, parse: string -> Parsed<R>): Collection<R>
    decreases |lines|
  {
    if lines == [] then Collection([], false)
    else Step(Collected(lines[..|lines| - 1], parse), lines[|lines| - 1], parse)
  }

  /** How `TsExtractorRunner.run` ends: with a list of results, or with the
      AttributeError of a non-object line propagating to the caller. */
  datatype RunOutcome<R> = Returned(results: seq<R>) | Raised

  /** What `TsExtractorRunner.run` does. `ready` is `_ensure_ready()`
      (node on the path and the script present), `lines` the extractor's
      output, `fallback` what the fallback analyzer returns for the
      files. The `finally` block runs whether or not the loop raised, and
      its `return` of the fallback (a failing exit with no results)
      discards a pending exception. */
  function RunResult<R>(files: seq<string>, ready: bool, lines: seq<string>, parse: string -> Parsed<R>,
                        exitCode: int, fallback: seq<R>): RunOutcome<R> {
    if files == [] then Returned([])
    else if !ready then Returned(fallback)
    else
      var c := Collected(lines, parse);
      if exitCode != 0 && c.results == [] then Returned(fallback)
      else if c.raised then Raised
      else if c.results == [] then Returned(fallback)
      else Returned(c.results)
  }

  /** `TsExtractorRunner.run` */
  method Run<R>(files: seq<string>, nodeFound: bool, scriptExists: bool, lines: seq<string>,
                parse: string -> Parsed<R>, exitCode: int, fallback: seq<R>) returns (outcome: RunOutcome<R>)
    ensures outcome == RunResult(files, nodeFound && scriptExists, lines, parse, exitCode, fallback)
  {
    if |files| == 0 {
      return Returned([]);
    }
    if !nodeFound || !scriptExists {
      return Returned(fallback);
    }
    var results: seq<R> := [];
    var raised := false;
    var i := 0;
    while i < |lines| && !raised
      invariant 0 <= i <= |lines|
      invariant Collected(lines[..i], parse) == Collection(results, raised)
    {
      assert lines[..i + 1][..i] == lines[..i];
      var payload := Strip(lines[i]);
      i := i + 1;
      if payload == [] {
        continue;
      }
      var data := parse(payload);
      if data.InvalidJson? {
        continue;
      }
      if data.NotAnObject? {
        raised := true;
      } else {
        results := results + [data.record];
      }
    }
    if raised {
      CollectedStays(lines[..i], lines[i..], parse);
      assert lines[..i] + lines[i..] == lines;
    } else {
      assert lines[..i] == lines;
    }
    // the `finally` block
    if exitCode != 0 {
      if results == [] {
        return Returned(fallback);
      }
    }
    if raised {
      return Raised;
    }
    if results == [] {
      return Returned(fallback);
    }
    return Returned(results);
  }

  /** Once the loop has raised, later lines change nothing. */
  lemma {:induction false} CollectedStays<R>(a: seq<string>, b: seq<string>, parse: string -> Parsed<R>)
    ensures Collected(a, parse).raised ==> Collected(a + b, parse) == Collected(a, parse)
    decreases |b|
  {
    if b == [] {
      assert a + b == a;
    } else {
      var init := b[..|b| - 1];
      assert (a + b)[..|a + b| - 1] == a + init;
      CollectedStays(a, init, parse);
    }
  }

  /** No files, no results; a missing node or script means the fallback's
      results. Otherwise: an output with no records falls back, unless a
      non-object line raised under exit code 0; an output that raised
      with records raises; and an output that did not raise keeps its
      records, even after a failing exit. */
  lemma RunDecision<R>(files: seq<string>, ready: bool, lines: seq<string>, parse: string -> Parsed<R>,
                       exitCode: int, fallback: seq<R>)
    ensures files == [] ==> RunResult(files, ready, lines, parse, exitCode, fallback) == Returned([])
    ensures files != [] && !ready ==> RunResult(files, ready, lines, parse, exitCode, fallback) == Returned(fallback)
    ensures files != [] && ready && Collected(lines, parse).results == [] ==>
              RunResult(files, ready, lines, parse, exitCode, fallback)
              == if Collected(lines, parse).raised && exitCode == 0 then Raised else Returned(fallback)
    ensures files != [] && ready && Collected(lines, parse).results != [] ==>
              RunResult(files, ready, lines, parse, exitCode, fallback)
              == if Collected(lines, parse).raised then Raised else Returned(Collected(lines, parse).results)
  {
  }

  /** The exit code changes what `run` does only when a non-object line
      raised before any record was read: a failing exit then returns the
      fallback, a clean one lets the exception out. */
  lemma RunExitCode<R>(files: seq<string>, ready: bool, lines: seq<string>, parse: string -> Parsed<R>,
                       code1: int, code2: int, fallback: seq<R>)
    ensures RunResult(files, ready, lines, parse, code1, fallback) != RunResult(files, ready, lines, parse, code2, fallback)
            <==> files != [] && ready && Collected(lines, parse) == Collection([], true) && (code1 == 0) != (code2 == 0)
  {
  }

  /** The records are those of the non-blank lines that parse to one, in
      order, up to the first line that is not a JSON object. */
  lemma {:induction false} CollectedAppend<R>(a: seq<string>, b: seq<string>, parse: string -> Parsed<R>)
    ensures Collected(a + b, parse) ==
              if Collected(a, parse).raised then Collected(a, parse)
              else Collection(Collected(a, parse).results + Collected(b, parse).results, Collected(b, parse).raised)
    decreases |b|
  {
    if b == [] {
      assert a + b == a;
    } else {
      var init := b[..|b| - 1];
      assert (a + b)[..|a + b| - 1] == a + init;
      assert (a + b)[|a + b| - 1] == b[|b| - 1];
      CollectedAppend(a, init, parse);
      if !Collected(a, parse).raised && !Collected(init, parse).raised {
        var ra, ri := Collected(a, parse).results, Collected(init, parse).results;
        var payload := Strip(b[|b| - 1]);
        if payload != [] && parse(payload).Record? {
          assert ra + ri + [parse(payload).record] == ra + (ri + [parse(payload).record]);
        }
      }
    }
  }

  /** A single line yields its record when it is not blank and parses to
      one, raises when it parses to something other than an object, and
      is skipped otherwise. */
  lemma CollectedLine<R>(line: string, parse: string -> Parsed<R>)
    ensures Collected([line], parse) ==
              if Strip(line) == [] then Collection([], false)
              else match parse(Strip(line))
                case Record(x) => Collection([x], false)
                case InvalidJson => Collection([], false)
                case NotAnObject => Collection([], true)
  {
    assert [line][..0] == [];
  }
}
