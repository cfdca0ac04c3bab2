# OntoCodeIndex fact-graph compiler, modelled in Dafny

OntoCodeIndex turns a TypeScript/Next.js repository into an RDF knowledge
graph. This project models the core of that graph compiler.

- **Symbol resolver and per-file mapper.** A commit-scoped `SymbolIndex` maps
  symbol ids and qualified names to IRIs. It creates placeholder ("dangling")
  IRIs for names it cannot resolve. `apply_mapping` turns one file's extractor
  record into triples under a fixed identifier scheme. It updates the index as
  it goes.
- **Framework-derivation rules.** `_derive_route_pattern` rewrites a Next.js
  file path into a URL template. `_python_inference` derives `next:Page`,
  `next:Layout` and `next:APIRoute` statements from the fact graph. The build
  step puts these together with the output of the rule packs.
- **Rule pipeline.** `_split_constructs` cuts a SPARQL rule file into
  statements. `run_rule_packs` runs them in order: each result is added both to
  the working graph and to the inferred graph.
- **Path helpers.** These normalise, flatten and percent-encode repository
  paths. `quote(..., safe="")` follows sections 2.1 and 2.3 of RFC 3986: every
  byte except the unreserved set becomes `%XX`. The model applies it to the
  UTF-8 bytes of the text.
- **Fallback extractor helpers.** These derive module names, make the
  unpadded base64url symbol ids of section 5 of RFC 4648, and compute spans.
  They also detect the `"use client"` directive, collect default exports and
  resolve callees. `run` holds the decision between the Node extractor and the
  fallback.

A graph is a `set<Triple>` over a `Term` datatype: IRI, string literal,
boolean literal, integer literal and numbered blank node.
- Fresh blank nodes come from a counter threaded through the mapper.
- The SPARQL engine is a function parameter `query`: given a graph and a query
  text, it returns a graph or an error.
- The extractor's JSON lines are decoded by a `parse` parameter. It tells a
  record from text that is not JSON and from JSON that is not an object.

Every state-changing operation appears twice: as an imperative method
(`SymbolIndex`, `ApplyMapping`, `DeriveRoutePattern`, `PythonInference`,
`SplitConstructs`, `RunRulePacks`, `CollectExports`, `Run`, …) and as a pure
specification function. Each method is proved equal to its specification, and
the lemmas state what the specification promises.

Where the repository's description and its code differ, the model follows the
code:
- **Index segments.** `_derive_route_pattern` drops an `index` segment whenever
  it is the last segment or any segment has been kept before it, not only a
  trailing one (ontocode/cli.py:132-133).
- **File IRIs.** `file_iri` passes the relative path through `Path(...)` before
  encoding it. The model therefore normalises it as `PurePosixPath` prints it:
  repeated slashes and `.` segments go (ontocode/plugins/typescript/mapping.py:95).
- **Optional catch-all.** The code rewrites `[[...x]]` to `*.x`, not `*x`, and
  the route pattern is modelled as the code computes it. See "Findings".

## Model

| member | source | states |
|---|---|---|
| Strings.LStripChar | ontocode/paths.py:11 | `lstrip(c)`: the result is a suffix of the input, does not start with `c`, and only `c`s were removed |
| Strings.RStripChar | ontocode/rdf/rules_runner.py:17 | `rstrip(c)`: the result is a prefix of the input, does not end with `c`, and only `c`s were removed |
| Strings.StripChar | ontocode/cli.py:107 | `strip(c)`: the result neither starts nor ends with `c`; a text without `c` is unchanged (what it removes: Strings.StripCharTrims) |
| Strings.StripCharTrims | ontocode/cli.py:107 | `strip(c)` removes exactly the runs of `c` at both ends: the result is a slice of the input with only `c` before and after it |
| Strings.RStrip | ontocode/rdf/rules_runner.py:16 | whitespace `rstrip`: a prefix of the input that does not end in whitespace, and only whitespace was removed |
| Strings.Strip | ontocode/rdf/rules_runner.py:17 | whitespace `strip`: the result neither starts nor ends with whitespace and is no longer than the input (what it removes: Strings.StripTrims) |
| Strings.StripTrims | ontocode/rdf/rules_runner.py:17 | whitespace `strip` removes exactly the whitespace at both ends: the result is a slice of the input with only whitespace before and after it |
| Strings.ReplaceChar | ontocode/paths.py:11 | `replace(a, b)` on one character: same length, every `a` becomes `b`, every other character stays |
| Strings.Split | ontocode/cli.py:111 | `split(c)`: at least one piece, and no piece holds the separator |
| Strings.SplitJoin | ontocode/paths.py:32-33 | joining the pieces of `split(c)` with `c` gives the text back |
| Strings.SplitNone | ontocode/cli.py:111 | a text without the separator splits into itself alone |
| Strings.SplitAt | ontocode/cli.py:111 | splitting at the first separator gives the text before it, then the split of the rest |
| Strings.JoinNoChar | ontocode/paths.py:33 | a join introduces no character that neither the parts nor the separator hold |
| Strings.Lower | ontocode/cli.py:170 | `lower()` on ASCII text: every upper-case letter becomes its lower-case letter and every other character stays, position by position |
| Strings.Upper | ontocode/rdf/rules_runner.py:37 | `upper()` on ASCII text: every lower-case letter becomes its upper-case letter and every other character stays, position by position |
| Strings.LowerAppend | ontocode/cli.py:170 | `lower()` maps a concatenation piece by piece |
| Strings.UpperAppend | ontocode/rdf/rules_runner.py:37 | `upper()` maps a concatenation piece by piece |
| Strings.CountChar | ontocode/extract/ts_bridge.py:166 | `count(c)`: the number of times `c` occurs in the text (its multiplicity), so zero exactly when `c` does not occur |
| Strings.RFind | ontocode/extract/ts_bridge.py:167 | `rfind(c)`: -1 or the index of the last `c` |
| Strings.FindFrom | ontocode/cli.py:166-167 | the first occurrence of a substring at or after a position, or one past the end |
| Strings.AfterFirst | ontocode/cli.py:166-167 | `"x" in s` then `s.split("x", 1)[1]`: found exactly when the needle occurs; then the text after an occurrence with no occurrence before it |
| Strings.SplitLines | ontocode/rdf/rules_runner.py:14 | `splitlines()`: no line holds a line boundary; empty exactly for the empty text |
| Strings.SplitLinesJoin | ontocode/rdf/rules_runner.py:21 | `"\n".join` followed by `splitlines()` gives the lines back, less a final empty one |
| Strings.SplitLinesCons | ontocode/extract/ts_bridge.py:248 | a text whose first line ends in `\n` splits into that line followed by the lines of the rest |
| Utf8.EncodeChar | ontocode/extract/ts_bridge.py:160 | UTF-8 encoding of one character: 1 to 4 bytes, one byte exactly for ASCII, continuation bytes after the first |
| Utf8.DecodeEncode | ontocode/extract/ts_bridge.py:160 | decoding the UTF-8 encoding of a text gives the text back |
| Utf8.EncodeInjective | ontocode/extract/ts_bridge.py:160 | distinct texts have distinct UTF-8 encodings |
| Utf8.EncodeAppend | ontocode/extract/ts_bridge.py:160 | the encoding of a concatenation is the concatenation of the encodings |
| Utf8.DecodeFirstEncodeChar | ontocode/extract/ts_bridge.py:160 | the first character decoded from an encoded character is that character, with its byte length |
| Quoting.EncodeByte | ontocode/paths.py:23 | `quote` on one byte: an unreserved byte stays as itself, any other becomes three characters starting with `%` |
| Quoting.PercentEncodeShape | ontocode/paths.py:23 | every percent-encoding is made of unreserved characters and `%XX` triples |
| Quoting.QuoteHasNoSlash | ontocode/paths.py:23 | `quote(s, safe="")` never contains `/` |
| Quoting.EncodeByteDecodes | ontocode/paths.py:23 | decoding an encoded byte in front of any text gives the byte in front of the decoding of that text |
| Quoting.PercentRoundTrip | ontocode/paths.py:23 | percent-decoding undoes percent-encoding |
| Quoting.QuoteRoundTrip | ontocode/plugins/typescript/mapping.py:76 | unquoting undoes `quote(s, safe="")` |
| Quoting.QuoteInjective | ontocode/plugins/typescript/mapping.py:163 | distinct texts quote differently |
| Quoting.QuoteIdentityOnUnreserved | ontocode/paths.py:23 | a text of unreserved ASCII characters quotes to itself |
| Paths.NormalizeRelativeShape | ontocode/paths.py:9-11 | `_normalize_relative` output has no back-slash and does not start with `/` |
| Paths.NormalizeRelativeIdempotent | ontocode/paths.py:11 | normalising twice is normalising once |
| Paths.EncodePathHasNoSlash | ontocode/paths.py:21-23 | `encode_path_for_graph` output holds no `/` |
| Paths.EncodePathIgnoresBackslashes | ontocode/paths.py:23 | a path written with back-slashes encodes like the same path with slashes |
| Paths.EncodePathInjective | ontocode/paths.py:21-23 | two paths encode the same exactly when they agree once back-slashes are read as slashes |
| Paths.NonEmpty | ontocode/paths.py:32 | the comprehension `[s for s in parts if s]`: every kept part is non-empty and comes from the list |
| Paths.NonEmptySnoc | ontocode/cli.py:78-80 | filtering a list with one more element keeps that element exactly when it is non-empty |
| Paths.FlattenRelativePathShape | ontocode/paths.py:26-34 | `flatten_relative_path` is `"_"` exactly when the normalised path is empty; otherwise it is the non-empty segments joined by `"__"`; never empty, never holds `/` or `\` |
| Paths.FlattenCollision | ontocode/paths.py:32-33 | `a/b__c` and `a__b/c` flatten to the same token: flattening is not injective |
| Paths.FlattenTwo | ontocode/paths.py:32-33 | two plain segments flatten to the first, `"__"`, then the second |
| Paths.FlattenEmptyCollision | ontocode/paths.py:29-31 | the empty path and the path `_` both flatten to `"_"` |
| Paths.PosixPathString | ontocode/plugins/typescript/mapping.py:95 | `str(PurePosixPath(p))`: never empty; it keeps the root (`//`, `/` or none) and the parts that are neither empty nor `.`; it is `.` exactly when there is neither a root nor such a part |
| Paths.PosixPathStringIdempotent | ontocode/plugins/typescript/mapping.py:95 | printing a printed path again changes nothing |
| Paths.Proper | ontocode/plugins/typescript/mapping.py:95 | the parts `PurePosixPath` keeps: exactly the input parts that are neither empty nor `.`, none of them empty or `.` |
| Paths.ProperAppend | ontocode/plugins/typescript/mapping.py:95 | the parts kept from a concatenation are those kept from each side, in order |
| Rdf.Objects | ontocode/cli.py:161 | `facts.objects(s, p)`: exactly the objects of the statements with that subject and predicate |
| Rdf.Subjects | ontocode/cli.py:154 | `facts.subjects(p, o)`: exactly the subjects of the statements with that predicate and object |
| Mapping.ForSymbol | ontocode/plugins/typescript/mapping.py:63-66 | `for_symbol`: None for None; a result exactly when the id is registered, and then its IRI |
| Mapping.ForQualifiedName | ontocode/plugins/typescript/mapping.py:68-71 | `for_qualified_name`: None for None and for `""`; otherwise a result exactly when the name is registered |
| Mapping.EmptyIndex | ontocode/plugins/typescript/mapping.py:42-47 | a fresh index satisfies the resolver invariant |
| Mapping.SymbolIndex.constructor | ontocode/plugins/typescript/mapping.py:42-47 | a new index holds the empty resolver state for its repository and commit |
| Mapping.SymbolIndex.RegisterPayload | ontocode/plugins/typescript/mapping.py:49-58 | the fields after `register_payload` are the registration of the units applied to the fields before |
| Mapping.SymbolIndex.EnsureDangling | ontocode/plugins/typescript/mapping.py:73-82 | the fields and the returned IRI are those of `ensure_dangling` applied to the fields before |
| Mapping.AddSpan | ontocode/plugins/typescript/mapping.py:112-118 | `add_span` adds exactly the span triples: the `laco:span` link to the fresh node and one integer per field present |
| Mapping.AddUnit | ontocode/plugins/typescript/mapping.py:133-154 | the loop body over units adds exactly what the unit specification adds and draws the blank nodes it draws |
| Mapping.AddImport | ontocode/plugins/typescript/mapping.py:156-172 | an import with an empty `from` adds nothing; any other adds its import triples |
| Mapping.ResolveOccurrenceObject | ontocode/plugins/typescript/mapping.py:186-193 | object resolution on the index fields agrees with the specification, in its result, in whether it created a dangling name, and in the new state |
| Mapping.AddOccurrenceRecord | ontocode/plugins/typescript/mapping.py:200-211 | a recorded occurrence adds its relation edge, its occurrence node and its span, and uses one or two blank nodes |
| Mapping.AddOccurrence | ontocode/plugins/typescript/mapping.py:182-211 | the loop body over occurrences agrees with the occurrence specification on graph, index and blank counter |
| Mapping.AddUnits | ontocode/plugins/typescript/mapping.py:133-154 | the units loop agrees with the units specification |
| Mapping.AddImports | ontocode/plugins/typescript/mapping.py:156-172 | the imports loop agrees with the imports specification |
| Mapping.AddExports | ontocode/plugins/typescript/mapping.py:174-180 | the exports loop agrees with the exports specification |
| Mapping.AddOccurrences | ontocode/plugins/typescript/mapping.py:182-211 | the occurrences loop agrees with the occurrences specification, including the index it updates |
| Mapping.ApplyMapping | ontocode/plugins/typescript/mapping.py:121-213 | `apply_mapping` returns the graph, and leaves the index, that the file specification gives for the index before |
| MappingProperties.DeclaredSnoc | ontocode/plugins/typescript/mapping.py:52-55 | a unit adds its id and name to the declared ones exactly when it has both |
| MappingProperties.RegisterUnitsEffect | ontocode/plugins/typescript/mapping.py:49-58 | registration adds exactly the ids of units that have an id and a name, each mapped to its unit IRI (the last registration wins, all map to the same IRI); other ids keep theirs; it adds their names without changing a registered name; the dangling records are untouched |
| MappingProperties.RegisterUnitsValid | ontocode/plugins/typescript/mapping.py:49-58 | registration keeps the resolver invariant |
| MappingProperties.RegisterFirstNameWins | ontocode/plugins/typescript/mapping.py:58 | a qualified name keeps the IRI it had, or else gets the IRI of the first unit that declares it (`setdefault`) |
| MappingProperties.RegisterNamesEffect | ontocode/plugins/typescript/mapping.py:58 | registration adds the declared names and never changes the IRI of a name already registered |
| MappingProperties.DanglingForEffect | ontocode/plugins/typescript/mapping.py:73-82 | `ensure_dangling(q)` returns the placeholder IRI and records it. Afterwards the name resolves, an existing name registration is kept, and symbol ids and emitted names are untouched. A second call changes nothing and returns the same IRI |
| MappingProperties.SpanFieldTriplesMembers | ontocode/plugins/typescript/mapping.py:115-118 | the span node has one integer triple per listed field that the span has, and no other |
| MappingProperties.SpanTriplesPresent | ontocode/plugins/typescript/mapping.py:115-118 | a span field's triple is present exactly when the span has that field with that value |
| MappingProperties.SpanTriplesShape | ontocode/plugins/typescript/mapping.py:112-118 | every span triple is the `laco:span` link or an integer statement about the span node |
| MappingProperties.MapUnitsFrame | ontocode/plugins/typescript/mapping.py:133-154 | the units section only adds triples and does not touch the index |
| MappingProperties.MapImportsFrame | ontocode/plugins/typescript/mapping.py:156-172 | the imports section only adds triples and uses neither the index nor blank nodes |
| MappingProperties.MapExportsFrame | ontocode/plugins/typescript/mapping.py:174-180 | the exports section only adds triples and uses neither the index nor blank nodes |
| MappingProperties.ResolveObjectFrame | ontocode/plugins/typescript/mapping.py:186-193 | resolving an object only adds dangling names: symbol ids, registered names and the invariant are kept |
| MappingProperties.MapOccurrenceFrame | ontocode/plugins/typescript/mapping.py:182-211 | one occurrence only adds triples, only draws fresh blank nodes and only grows the index |
| MappingProperties.MapOccurrencesFrame | ontocode/plugins/typescript/mapping.py:182-211 | the same holds for all occurrences of a file |
| MappingProperties.MapFileFrame | ontocode/plugins/typescript/mapping.py:121-213 | a file's graph contains its four header statements, and mapping only grows the index |
| MappingProperties.FileAlwaysDescribed | ontocode/plugins/typescript/mapping.py:124-128 | every file gets `rdf:type laco:SourceFile`, `dct:path`, `laco:sha256` and `laco:atCommit` |
| MappingProperties.MapUnitNoFlag | ontocode/plugins/typescript/mapping.py:133-154 | a unit never adds the `use client` flag of the file |
| MappingProperties.MapUnitsNoFlag | ontocode/plugins/typescript/mapping.py:133-154 | no unit adds the flag |
| MappingProperties.MapImportsNoFlag | ontocode/plugins/typescript/mapping.py:156-172 | no import adds the flag |
| MappingProperties.MapExportsNoFlag | ontocode/plugins/typescript/mapping.py:174-180 | no export adds the flag |
| MappingProperties.MapOccurrenceNoFlag | ontocode/plugins/typescript/mapping.py:182-211 | an occurrence never adds the flag |
| MappingProperties.MapOccurrencesNoFlag | ontocode/plugins/typescript/mapping.py:182-211 | no occurrence adds the flag |
| MappingProperties.ClientDirectiveExactly | ontocode/plugins/typescript/mapping.py:130-131 | the file's `ts:hasUseClientDirective true` is in its graph exactly when the record's value is `True` (absent, false or any other value gives nothing) |
| MappingProperties.UnitTypeFallback | ontocode/plugins/typescript/mapping.py:29-35 | a unit is typed `laco:Unit` exactly when its kind is not one of the five known kinds, so no unit is left untyped |
| MappingProperties.MapUnitsDeclare | ontocode/plugins/typescript/mapping.py:138-144 | each unit with an id and a name gets its core statements in the units section |
| MappingProperties.UnitDeclared | ontocode/plugins/typescript/mapping.py:133-154 | every unit with a symbol id and a qualified name is typed, declared in its file, named, identified, dated, and defined by the file |
| MappingProperties.FileIriInjective | ontocode/plugins/typescript/mapping.py:94-98 | two relative paths get the same file IRI exactly when `Path` prints them the same once back-slashes are read as slashes |
| MappingProperties.ImportTargetsDistinct | ontocode/plugins/typescript/mapping.py:162-172 | package, file and external import targets never coincide |
| MappingProperties.ImportTargetsInjective | ontocode/plugins/typescript/mapping.py:163 | distinct specifiers give distinct package IRIs and distinct external IRIs |
| MappingProperties.ImportShape | ontocode/plugins/typescript/mapping.py:156-172 | an import adds exactly one `laco:importsFrom` edge. Its target is the package IRI, the resolved file's IRI or the external IRI. Only a package gets `laco:Package` and `dct:title` |
| MappingProperties.ImportSkipped | ontocode/plugins/typescript/mapping.py:160-161 | an import with a missing or empty `from` adds nothing |
| MappingProperties.ExportEdges | ontocode/plugins/typescript/mapping.py:174-180 | the `laco:exports` edges added are exactly the IRIs that the records' unit symbol ids resolve to; an unresolved or empty id adds nothing |
| MappingProperties.ResolveObjectOrder | ontocode/plugins/typescript/mapping.py:186-195 | the object resolves by symbol id first, then by qualified name, then to a new dangling unit; it resolves at all exactly when the id resolves or the name is non-empty |
| MappingProperties.RelationPredicateRange | ontocode/plugins/typescript/mapping.py:22-27 | exactly `calls`, `references`, `reads` and `writes` have a predicate, and it is one of the four relation predicates |
| MappingProperties.NotRelationPredicate | ontocode/plugins/typescript/mapping.py:196-211 | none of the other predicates the mapper writes for an occurrence is a relation predicate |
| MappingProperties.OccurrenceRecorded | ontocode/plugins/typescript/mapping.py:182-211 | an occurrence is recorded exactly when its subject is registered and its object resolves. Otherwise it adds nothing, and with no subject it also leaves the index alone. A recorded one carries its relation (`calls` when none is given), subject, object and file, and uses one blank node, or two with a span |
| MappingProperties.OccurrenceEdge | ontocode/plugins/typescript/mapping.py:200-203 | a known relation links subject to object by its predicate; an unknown one adds no relation edge at all |
| MappingProperties.OccurrenceDeclaresOnce | ontocode/plugins/typescript/mapping.py:196-199 | one occurrence emits at most one dangling declaration (type and name), and only for a name not emitted before |
| MappingProperties.OccurrencesDeclareOnce | ontocode/plugins/typescript/mapping.py:182-199 | across a file's occurrences, every new `laco:Unit` typing declares a newly emitted dangling name, and every such name is declared |
| MappingProperties.DanglingDeclaredOnceAcrossFiles | ontocode/plugins/typescript/mapping.py:196-199 | for two files mapped one after the other over one index, the occurrences of each add the `laco:Unit` typing of the dangling IRI of a name only when the index had not yet emitted that name, so the two never both add it |
| MappingProperties.OccurrencesDeclareNew | ontocode/plugins/typescript/mapping.py:196-199 | the occurrences of a file add the dangling `laco:Unit` typing of a name only when the name was not emitted before and is emitted after |
| MappingProperties.DanglingIriInjective | ontocode/plugins/typescript/mapping.py:196 | distinct names get distinct dangling IRIs |
| MappingProperties.SpanBlanks | ontocode/plugins/typescript/mapping.py:113 | a span's triples mention no blank node outside the range holding its own node and its parent |
| MappingProperties.MapUnitBlanks | ontocode/plugins/typescript/mapping.py:148-149 | a unit's triples use only blank nodes drawn while mapping it |
| MappingProperties.MapUnitsBlanks | ontocode/plugins/typescript/mapping.py:133-154 | the units section uses only freshly drawn blank nodes |
| MappingProperties.MapImportsBlanks | ontocode/plugins/typescript/mapping.py:156-172 | the imports section introduces no blank node outside the range already drawn |
| MappingProperties.MapExportsBlanks | ontocode/plugins/typescript/mapping.py:174-180 | the exports section introduces no blank node outside the range already drawn |
| MappingProperties.MapOccurrenceBlanks | ontocode/plugins/typescript/mapping.py:204-211 | an occurrence uses only the blank nodes it draws |
| MappingProperties.MapOccurrencesBlanks | ontocode/plugins/typescript/mapping.py:182-211 | the occurrences section uses only freshly drawn blank nodes |
| MappingProperties.MapFileBlanks | ontocode/plugins/typescript/mapping.py:121-213 | every blank node of a file's graph was drawn while mapping that file, so `BNode()` never repeats across files |
| RulesRunner.Snippets | ontocode/rdf/rules_runner.py:17-19 | every kept snippet is non-empty and already stripped |
| RulesRunner.SplitConstructs | ontocode/rdf/rules_runner.py:11-24 | `_split_constructs` returns the segments of the specification: closed groups with trailing `;` removed and stripped, then the stripped remainder, empty ones dropped |
| RulesRunner.GroupsSnoc | ontocode/rdf/rules_runner.py:15-20 | a line ending in `;` closes the current group; any other line extends it |
| RulesRunner.GroupsConcat | ontocode/rdf/rules_runner.py:14-21 | the groups, followed by the remainder, are the body lines in order |
| RulesRunner.GroupsCut | ontocode/rdf/rules_runner.py:16 | every group ends at its first closing line, and the remainder holds none |
| RulesRunner.GroupsUnclosed | ontocode/rdf/rules_runner.py:21-23 | without a closing line everything is remainder |
| RulesRunner.BodyGroups | ontocode/rdf/rules_runner.py:14-21 | the groups of a body cover its lines in order, each ending at its first `;`-terminated line |
| RulesRunner.SplitConstructsClean | ontocode/rdf/rules_runner.py:17-23 | every segment is non-empty and stripped; there is at most one per closed group, plus one |
| RulesRunner.SplitConstructsUnclosed | ontocode/rdf/rules_runner.py:21-23 | a body with no `;`-terminated line is one segment, its stripped text, or none |
| RulesRunner.SplitPrefixes | ontocode/rdf/rules_runner.py:34-40 | the prefix and body lists are the prefix lines and the other lines, each in file order |
| RulesRunner.Partition | ontocode/rdf/rules_runner.py:36-40 | each line goes, in order, to the lines the test accepts or to the others |
| RulesRunner.PickSnoc | ontocode/rdf/rules_runner.py:36-40 | a line goes to the side its test selects |
| RulesRunner.PickSide | ontocode/rdf/rules_runner.py:36-40 | every line on a side passes that side's test |
| RulesRunner.PickPartition | ontocode/rdf/rules_runner.py:36-40 | the two sides together are a permutation of the lines |
| RulesRunner.PrefixBodyPartition | ontocode/rdf/rules_runner.py:34-40 | prefix lines are exactly the lines whose stripped, upper-cased text starts with `PREFIX`; no body line is one; together they are the file's lines |
| RulesRunner.QueryTextsSnoc | ontocode/rdf/rules_runner.py:41-44 | each non-empty segment gives one query: the file's prefix lines followed by the segment |
| RulesRunner.RunFile | ontocode/rdf/rules_runner.py:41-53 | running one file's queries continues the chain of all queries so far, or stops at the first error |
| RulesRunner.RunQueriesSnoc | ontocode/rdf/rules_runner.py:45-53 | one more query runs on the working graph, and its result joins both the working and the inferred graph |
| RulesRunner.FileAborts | ontocode/rdf/rules_runner.py:45 | a failing query ends the run: later queries of the file change nothing |
| RulesRunner.AbortPersists | ontocode/rdf/rules_runner.py:45 | once a run has failed, later files change nothing |
| RulesRunner.RunRulePacks | ontocode/rdf/rules_runner.py:27-54 | `run_rule_packs` returns the inferred graph of running every query of every file in order, or the first query error |
| RulesRunner.RunQueriesCollects | ontocode/rdf/rules_runner.py:45-53 | when every query succeeds, the result of each query, run over the working graph its predecessors left, is part of the inferred graph |
| RulesRunner.RunQueriesGrows | ontocode/rdf/rules_runner.py:52-53 | a successful run only adds to both graphs, and what it adds to one it adds to the other |
| RulesRunner.RulePacksWorkingGraph | ontocode/rdf/rules_runner.py:29-31 | at the end the working graph is the facts together with everything inferred |
| RulesRunner.RunQueriesSucceeds | ontocode/rdf/rules_runner.py:45-53 | in a successful run every query succeeded on the working graph left by the queries before it |
| RulesRunner.RunQueriesFails | ontocode/rdf/rules_runner.py:45 | a run whose k-th query fails, after k successful ones, returns that query's error |
| Cli.ExtensionLength | ontocode/cli.py:127 | the matched extension, if any, starts with a `.` inside the segment |
| Cli.FirstIndex | ontocode/cli.py:116 | `segments.index("app")`: the first position holding the value, or the length |
| Cli.RouteSegments | ontocode/cli.py:111-122 | the app router is chosen exactly when some segment equals `app` |
| Cli.DeriveRoutePattern | ontocode/cli.py:106-146 | `_derive_route_pattern` returns the route pattern of the specification, with the optional catch-all rewritten as the code writes it |
| Cli.DefaultUnits | ontocode/cli.py:159-163 | the default units of a file are among the units it defines |
| Cli.AddTags | ontocode/cli.py:172-186 | the tagging loop adds exactly each tag for each unit |
| Cli.InferAppRouter | ontocode/cli.py:165-186 | the app-router branch adds exactly the app-router triples of the file |
| Cli.AddAppTags | ontocode/cli.py:169-186 | the page, layout and route tests add exactly the tags their suffix tests select |
| Cli.InferForFile | ontocode/cli.py:159-196 | one file adds exactly the triples its path, units and flag derive |
| Cli.VisitFile | ontocode/cli.py:155-196 | a file without `dct:path` is skipped; otherwise one of its paths is chosen and its triples are added |
| Cli.PythonInference | ontocode/cli.py:149-197 | `_python_inference` returns the union of the triples derived for every source file, with one chosen path for each file that has one |
| Cli.InferOver | ontocode/cli.py:154-196 | the loop over source files keeps the derived triples of exactly the files seen |
| Cli.ChoiceComplete | ontocode/cli.py:154-158 | after the loop every source file with a path has one chosen, and nothing else |
| Cli.CollectMatchers | ontocode/cli.py:76-81 | `_collect_matchers` keeps exactly the non-empty patterns, in order |
| CliProperties.FileInferenceDerive | ontocode/cli.py:165-196 | a file's triples are determined by four tests on its path, its default and defined units, its route pattern and its client flag |
| CliProperties.DeriveTyped | ontocode/cli.py:169-196 | the `Page`, `Layout`, `APIRoute` and `usesClient` statements appear exactly as the four branches give them |
| CliProperties.DerivePage | ontocode/cli.py:171-175 | a unit is a `next:Page` exactly when the file is an app-router page and the unit is a default export |
| CliProperties.DeriveLayout | ontocode/cli.py:178-181 | a unit is a `next:Layout` exactly when the file is an app-router layout and the unit is a default export |
| CliProperties.DeriveApiRoute | ontocode/cli.py:182-196 | a unit is a `next:APIRoute` exactly when it is defined in an app-router route file, or is a default export of a `pages/api/` file |
| CliProperties.DeriveClient | ontocode/cli.py:176-177 | `next:usesClient true` is given exactly to default exports of an app-router page whose file has the `use client` flag |
| CliProperties.DeriveTags | ontocode/cli.py:169-196 | a triple is derived exactly when its unit is in the branch's units and its predicate and object are one of that branch's tags |
| CliProperties.TypedUnits | ontocode/cli.py:165-196 | the same four iff statements for a file of the fact graph, in terms of its path |
| CliProperties.DerivePattern | ontocode/cli.py:175 | every `next:routePattern` statement carries the file's route pattern |
| CliProperties.RoutePatternTriple | ontocode/cli.py:175 | every route-pattern triple derived for a file carries the pattern of its path |
| CliProperties.DeriveSubjects | ontocode/cli.py:172-196 | every derived triple is about a unit the file defines |
| CliProperties.InferredSubjects | ontocode/cli.py:154-197 | every inferred triple is about a unit that some source file defines |
| CliProperties.CollapseNoDouble | ontocode/cli.py:145 | after `re.sub(r"/{2,}", "/", …)` no two slashes are adjacent |
| CliProperties.CollapseKeeps | ontocode/cli.py:145 | a text without a doubled slash is left as it is |
| CliProperties.CollapseIdempotent | ontocode/cli.py:145 | collapsing twice is collapsing once |
| CliProperties.RoutePatternShape | ontocode/cli.py:144-146 | every route pattern starts with `/` and has no doubled slash |
| CliProperties.KeptSegmentsShape | ontocode/cli.py:124-142 | every kept segment is non-empty and holds no slash |
| CliProperties.RoutePatternKept | ontocode/cli.py:144-146 | the pattern is a slash followed by the kept segments joined by slashes, or `/` when none is kept |
| CliProperties.RoutePatternRoot | ontocode/cli.py:107-109 | the pattern is `/` exactly when no segment survives, an empty path included |
| CliProperties.RouteExampleAppPage | ontocode/cli.py:106-146 | `app/home/page.tsx` has the route `/home` |
| CliProperties.RouteExamplePagesApi | ontocode/cli.py:106-146 | `pages/api/hello.ts` has the route `/api/hello` |
| CliProperties.RouteExampleOptionalCatchAll | ontocode/cli.py:106-146 | as written, `app/shop/[[...rest]]/page.tsx` has the route `/shop/*.rest` |
| CliProperties.StripKnownExtension | ontocode/cli.py:127 | `.ts`, `.tsx`, `.js` and `.jsx`, in any case, are removed from a segment |
| CliProperties.RewriteDynamic | ontocode/cli.py:139-140 | `[x]` becomes `:x` |
| CliProperties.RewriteCatchAll | ontocode/cli.py:137-138 | `[...x]` becomes `*x` |
| CliProperties.RewriteOptionalCatchAll | ontocode/cli.py:135-136 | the corrected rewrite turns `[[...x]]` into `*x` |
| CliProperties.RewriteAsWrittenKeepsDot | ontocode/cli.py:135-136 | as written, `[[...x]]` becomes `*.x` |
| CliProperties.RewriteAsWrittenDiffers | ontocode/cli.py:135-136 | as written, every optional catch-all differs from the intended `*x` |
| CliProperties.RewritePlain | ontocode/cli.py:141-142 | a segment not opened by `[` is kept literally |
| CliProperties.NonEmptyMembers | ontocode/cli.py:76-81 | the collected patterns are exactly the non-empty ones |
| CliProperties.StrippedPiecesClean | ontocode/cli.py:69 | every language name kept is non-empty, stripped, and free of the separator |
| CliProperties.SplitLangsClean | ontocode/cli.py:461 | every language from the comma-split is non-empty, stripped, and holds no comma |
| CliProperties.StrippedPiecesFilter | ontocode/cli.py:69 | the languages kept are the stripped pieces, in order, with the empty ones dropped |
| CliProperties.SplitLangsContent | ontocode/cli.py:461 | the `--langs` list is the comma-separated pieces stripped, the empty ones dropped, in order; a name is listed exactly when it is a non-empty stripped piece |
| CliProperties.InferredAsWrittenIgnoresRules | ontocode/cli.py:575-590 | as written, the inferred graph is only the Python-side inference, whatever the rules would give |
| CliProperties.InferredAsWrittenLosesRuleTriple | ontocode/cli.py:581-588 | for some rule pack and facts, a triple the rules infer is in the intended inferred graph but missing from the graph as written |
| CliProperties.InferredGraphContents | ontocode/cli.py:575-590 | nothing is inferred when inference is off. Otherwise the Python-side inference is always part of the graph, and it is all of it when a rule fails |
| CliProperties.InferredWorkingGraph | ontocode/cli.py:575-590 | when every rule succeeds, the facts together with the inferred graph are the rules' final working graph together with the Python-side inference |
| CliProperties.InferredHoldsEveryRule | ontocode/cli.py:575-590 | when every rule succeeds, the output of each rule, run over the working graph its predecessors left, is in the inferred graph |
| Cli.BuildInferredGraph | ontocode/cli.py:575-590 | the inferred-graph step of `build` returns the specified inferred graph, with the Python-side inference computed for one admissible choice of path per file |
| Base64.LetterValue | ontocode/extract/ts_bridge.py:161 | every six-bit value has a letter of the URL-safe alphabet, and that letter reads back as the value |
| Base64.StripPadding | ontocode/extract/ts_bridge.py:161 | `rstrip("=")` of the padded encoding is exactly the unpadded encoding |
| Base64.EncodeAlphabet | ontocode/extract/ts_bridge.py:161 | the unpadded encoding uses only `A-Z a-z 0-9 - _` and has ⌈4n/3⌉ letters |
| Base64.QuadTriplet | ontocode/extract/ts_bridge.py:161 | the four letter values of three bytes give the three bytes back |
| Base64.DecodeEncode | ontocode/extract/ts_bridge.py:161 | decoding undoes the unpadded encoding |
| Base64.EncodeInjective | ontocode/extract/ts_bridge.py:161 | distinct byte strings encode differently |
| TsBridge.BeforeLastDot | ontocode/extract/ts_bridge.py:156 | `rsplit(".", 1)[0]`: the text itself without a dot; otherwise the prefix before the last dot |
| TsBridge.ModuleName | ontocode/extract/ts_bridge.py:155-156 | `_module_name` holds no `/` and is no longer than the path |
| TsBridge.ModuleNameDropsExtension | ontocode/extract/ts_bridge.py:155-156 | the extension after the last dot goes and every `/` becomes `.` |
| TsBridge.Base64Symbol | ontocode/extract/ts_bridge.py:159-161 | `_base64_symbol` is the unpadded base64url encoding of the UTF-8 bytes of `ts:<kind>:<name>` |
| TsBridge.Base64SymbolRoundTrip | ontocode/extract/ts_bridge.py:159-161 | a symbol id uses only the URL-safe alphabet, has no `=`, and decodes to the UTF-8 bytes of `ts:<kind>:<name>` |
| TsBridge.Base64SymbolInjective | ontocode/extract/ts_bridge.py:159-161 | two kind/name pairs share a symbol id only if their `ts:<kind>:<name>` texts are equal |
| TsBridge.SpanFor | ontocode/extract/ts_bridge.py:164-177 | `startLine` is one more than the newlines before the offset; `startCol` is at least 1; the span ends on the same line, one column later |
| TsBridge.SpanColumn | ontocode/extract/ts_bridge.py:167-171 | `startCol - 1` characters, none a newline, stand before the offset on its line; a newline or the start of the text comes before them |
| TsBridge.SpanAfterNewline | ontocode/extract/ts_bridge.py:164-177 | the offset just after a newline is column 1 of the next line |
| TsBridge.DecidesAtFirstNonBlank | ontocode/extract/ts_bridge.py:248-255 | the answer is decided by the first line that is not blank after stripping |
| TsBridge.FirstLineMeaning | ontocode/extract/ts_bridge.py:248-255 | the scan accepts exactly when some line is accepted and every line before it is blank |
| TsBridge.LaterLinesIgnored | ontocode/extract/ts_bridge.py:254 | lines after the first non-blank one are never examined |
| TsBridge.HasUseClientFirst | ontocode/extract/ts_bridge.py:247-255 | `_has_use_client` of a text whose first line is non-blank is whether that line, stripped, is one of the four `use client` forms |
| TsBridge.CollectExports | ontocode/extract/ts_bridge.py:239-244 | `_collect_exports` returns one default export record per default-exported unit, in unit order |
| TsBridge.DefaultExportsAppend | ontocode/extract/ts_bridge.py:241-243 | the exports of two unit lists are the exports of each, in order |
| TsBridge.DefaultExportsMembers | ontocode/extract/ts_bridge.py:239-244 | an export record is produced exactly for each default-exported unit |
| TsBridge.FirstDefault | ontocode/extract/ts_bridge.py:262-265 | the position of the first default-exported unit, or the length |
| TsBridge.SubjectIsFirstDefault | ontocode/extract/ts_bridge.py:261-267 | the subject is the symbol id of the first default-exported unit, provided that id is non-empty; otherwise there is none |
| TsBridge.FirstResolving | ontocode/extract/ts_bridge.py:275-279 | the position of the first index entry whose name ends in `.callee`, or the length |
| TsBridge.ResolveCallee | ontocode/extract/ts_bridge.py:273-281 | the resolution loop returns the specification's qualified name and object symbol |
| TsBridge.ResolutionMeaning | ontocode/extract/ts_bridge.py:273-281 | a callee resolves exactly when some entry's name ends in `.callee`. Then the first such entry gives both the name and the symbol. Otherwise the name is the bare callee and there is no symbol |
| TsBridge.CollectCallOccurrences | ontocode/extract/ts_bridge.py:268-291 | the call loop returns the occurrences of the specification |
| TsBridge.CallOccurrencesMeaning | ontocode/extract/ts_bridge.py:269-291 | one occurrence per call other than `function`, in order. Each is a `calls` occurrence of the subject with the callee's resolution and the call's span |
| TsBridge.CollectOccurrences | ontocode/extract/ts_bridge.py:257-292 | a file without a default-exported subject keeps its record; otherwise its occurrences become those of its calls |
| TsBridge.Run | ontocode/extract/ts_bridge.py:53-129 | `run` returns, or raises, as the decision specification says for the file list, readiness, output lines and exit code; the loop stops at a line that is not a JSON object |
| TsBridge.RunDecision | ontocode/extract/ts_bridge.py:60-129 | no files give no results; an extractor that is not ready gives the fallback. With no records the fallback is returned unless a non-object line raised under exit code 0; with records, a raised exception propagates and otherwise the records are kept |
| TsBridge.RunExitCode | ontocode/extract/ts_bridge.py:114-125 | the exit code changes the outcome exactly when a non-object line raised before any record was read: then a failing exit returns the fallback and a clean one raises |
| TsBridge.CollectedAppend | ontocode/extract/ts_bridge.py:102-113 | the records of the output lines are collected line by line, in order, and nothing after a line that raised is read |
| TsBridge.CollectedStays | ontocode/extract/ts_bridge.py:102-113 | once a line has raised, later lines change nothing |
| TsBridge.CollectedLine | ontocode/extract/ts_bridge.py:103-113 | a blank line or one that is not JSON is skipped, a JSON object gives one record, and other JSON raises |

## Left out

- **Databases and serialisation.** The rdflib store, SPARQL evaluation, Turtle/JSON writing, metadata files and SHACL validation are foreign libraries. The engine is the `query` parameter, and validation is not modelled.
- **Node extractor plumbing.** The subprocess, its environment and stderr, and the reading of files are I/O. `run` is modelled on its inputs: whether `node` and the script exist, the output lines, a `parse` function standing for `orjson.loads`, and the exit code.
- **Fallback scanning.** The `_FUNCTION_RE` and `_IMPORT_RE` scanning in `_scan_units`, and the filesystem probing of `_collect_imports`, are not part of this model. The calls found in a text are a parameter of `_collect_occurrences`, and so is the symbol index, given as its insertion-ordered entries.
- **`_sha256`.** An opaque hash; a payload's `sha256` is a field.
- **`build` orchestration.** Configuration loading (yaml, pydantic), language file globbing, `fnmatch` ignores, timestamps, git and logging are left out. Only the inferred-graph step, the ignore-pattern list and the `langs` split are modelled.
- **`max_workers`.** Accepted and unused by the source; the model has no concurrency.
- **Result graphs without a `graph` attribute.** The fallback at ontocode/rdf/rules_runner.py:46-51 copies a SELECT-style result into a graph. The `query` parameter returns a graph directly.
- **Case mapping.** `lower()`, `upper()` and `re.IGNORECASE` are modelled for ASCII letters, plus the long s that IGNORECASE folds to `s`. Other Unicode case mappings are left out.
- Cli.PythonInference: the path used for a file is a ghost choice. `facts.value(file, dct:path)` picks one literal when a file has several, and the model does not fix which one it picks.
- Mapping.ForSymbol: Python truthiness is not modelled. A registered IRI is always non-empty, so "found" is modelled as `Some`.
- **Unit ids that are not strings.** `str(unit_symbol)` is modelled on strings; the extractor record's fields are typed (`Facts.Unit`, `Facts.Occurrence`).
- Mapping.AddSpan: a span member that is present with value `null` makes `int(None)` raise `TypeError` at ontocode/plugins/typescript/mapping.py:116-118. The fact record has no way to tell `null` from a missing member, so the model reads such a member as missing and adds no triple for it.
- **Extractor payloads that are JSON objects.** What `orjson.loads` accepts and which values are objects is left to the `parse` parameter of `TsBridge.Run`; the model distinguishes only its three outcomes.
- **Graph binding of prefixes** (`initialise_graph`, `inferred.bind`). Only affects serialisation.

## Findings

| source | as written | input that shows it | evidently intended | confidence | as-written member | corrected member |
|---|---|---|---|---|---|---|
| ontocode/cli.py:135-136 | `"*" + base[4:-2]` strips only `[[..` from an optional catch-all | `app/shop/[[...rest]]/page.tsx` gives `/shop/*.rest` | `*rest`, like `[...rest]` at ontocode/cli.py:137-138 and as the repository describes it | not executed | Cli.RewriteAsWritten, which the route pattern uses (CliProperties.RewriteAsWrittenKeepsDot, CliProperties.RewriteAsWrittenDiffers, CliProperties.RouteExampleOptionalCatchAll) | Cli.RewriteSegment (CliProperties.RewriteOptionalCatchAll) |
| ontocode/cli.py:581-588 | `run_rule_packs(..., on_rule_finished=_record_rule)` passes a keyword that `run_rule_packs` (ontocode/rdf/rules_runner.py:27) does not accept; the `TypeError` is caught and the rule output replaced by an empty graph | any build with `emit_inferred`: a core rule that infers a triple from the facts loses it | the rule packs' output joins the Python-side inference | not executed | Cli.InferredGraphAsWritten (CliProperties.InferredAsWrittenIgnoresRules, CliProperties.InferredAsWrittenLosesRuleTriple) | Cli.InferredGraph (CliProperties.InferredGraphContents) |
