/** The global symbol resolver and the per-file fact mapper
    (ontocode/plugins/typescript/mapping.py). The resolver's state is a value
    (IndexState) that the pure specification threads from call to call; the
    class SymbolIndex holds the same state in fields that its methods and
    ApplyMapping update in place. */
module Mapping {

  import opened Wrappers
  import opened Rdf
  import opened Facts
  import Paths
  import Quoting

  // ------------------------------------------------------------ tables

  /** RELATION_TO_PREDICATE */
  function RelationPredicate(relation: string): Option<Term> {
    if relation == "calls" then Some(Laco("calls"))
    else if relation == "references" then Some(Laco("references"))
    else if relation == "reads" then Some(Laco("readsFrom"))
    else if relation == "writes" then Some(Laco("writesTo"))
    else None
  }

  /** The unit kinds UNIT_KIND_TO_TYPE lists. */
  const KnownKinds: set<string> := {"callable", "classifier", "variable", "parameter", "type"}

  /** UNIT_KIND_TO_TYPE.get(str(kind), LACO.Unit): a known kind gets its own
      class, and every other kind (a missing one included) the generic one. */
  function UnitType(kind: Option<string>): Term {
    var k := Str(kind);
    if k == "callable" then Laco("Callable")
    else if k == "classifier" then Laco("Classifier")
    else if k == "variable" then Laco("Variable")
    else if k == "parameter" then Laco("Parameter")
    else if k == "type" then Laco("Type")
    else Laco("Unit")
  }

  // ------------------------------------------------------- identifiers

  function UnitIri(repoName: string, commitSha: string, symbolId: string): string {
    "laco://sym/" + repoName + "/" + commitSha + "/" + symbolId
  }

  function DanglingIri(repoName: string, commitSha: string, qname: string): string {
    "laco://sym/" + repoName + "/" + commitSha + "/dangling/" + Quoting.Quote(qname)
  }

  function PackageIri(specifier: string): string {
    "laco://pkg/" + Quoting.Quote(specifier)
  }

  function ExternalIri(specifier: string): string {
    "laco://ext/" + Quoting.Quote(specifier)
  }

  /** The commit-scoped names a build maps under (MappingContext without its
      symbol index, which is passed beside it). */
  datatype MappingContext = MappingContext(
    repoName: string,
    commitSha: string,
    commitIri: string,
    repoIri: string)
  {
    /** `file_iri`: the relative path goes through `Path(...)` and is then
        encoded as one IRI segment. */
    function FileIri(relativePath: string): string {
      "laco://repo/" + repoName + "/commit/" + commitSha + "/file/"
      + Paths.EncodePathForGraph(Paths.PosixPathString(relativePath))
    }
  }

  // ---------------------------------------------------- resolver state

  datatype IndexState = IndexState(
    repoName: string,
    commitSha: string,
    bySymbol: map<string, string>,
    byQname: map<string, string>,
    dangling: map<string, string>,
    danglingEmitted: set<string>)
  {
    function MakeUnitUri(symbolId: string): string {
      UnitIri(repoName, commitSha, symbolId)
    }

    /** `for_symbol`: None for None; otherwise whatever is registered. */
    function ForSymbol(symbolId: Option<string>): (r: Option<string>)
      ensures r.Some? <==> symbolId.Some? && symbolId.value in bySymbol
      ensures r.Some? ==> r.value == bySymbol[symbolId.value]
    {
      if symbolId.None? then None
      else if symbolId.value in bySymbol then Some(bySymbol[symbolId.value])
      else None
    }

    /** `for_qualified_name`: None for None and for ""; otherwise whatever is
        registered. */
    function ForQualifiedName(qname: Option<string>): (r: Option<string>)
      ensures r.Some? <==> Truthy(qname) && qname.value in byQname
      ensures r.Some? ==> r.value == byQname[qname.value]
    {
      if !Truthy(qname) then None
      else if qname.value in byQname then Some(byQname[qname.value])
      else None
    }

    /** The resolver's invariant: symbol ids map to their unit IRI, dangling
        names to their placeholder IRI; every emitted name is dangling and
        every dangling name is resolvable by name. */
    ghost predicate Valid() {
      && (forall s :: s in bySymbol ==> bySymbol[s] == MakeUnitUri(s))
      && (forall q :: q in dangling ==> dangling[q] == DanglingIri(repoName, commitSha, q))
      && danglingEmitted <= dangling.Keys
      && dangling.Keys <= byQname.Keys
    }
  }

  function EmptyIndex(repoName: string, commitSha: string): (st: IndexState)
    ensures st.Valid()
  {
    IndexState(repoName, commitSha, map[], map[], map[], {})
  }

  /** Registration of one unit: by symbol id the latest registration is kept,
      by qualified name the first (`setdefault`). */
  function RegisterUnit(st: IndexState, u: Unit): IndexState {
    if !Declarable(u) then st
    else
      var sid := u.symbolId.value;
      var q := u.qualifiedName.value;
      var uri := st.MakeUnitUri(sid);
      st.(bySymbol := st.bySymbol[sid := uri],
          byQname := if q in st.byQname then st.byQname else st.byQname[q := uri])
  }

  /** `register_payload`, unit by unit in order. */
  function RegisterUnits(st: IndexState, units: seq<Unit>): IndexState
    decreases |units|
  {
    if units == [] then st
    else RegisterUnit(RegisterUnits(st, units[..|units| - 1]), units[|units| - 1])
  }

  /** `ensure_dangling`: the memoised placeholder IRI for a name, and the
      state after recording it. */
  function DanglingFor(st: IndexState, qname: string): (IndexState, string) {
    if qname in st.dangling then (st, st.dangling[qname])
    else
      var uri := DanglingIri(st.repoName, st.commitSha, qname);
      (st.(dangling := st.dangling[qname := uri],
           byQname := if qname in st.byQname then st.byQname else st.byQname[qname := uri]),
       uri)
  }

  // -------------------------------------------------------- the mapper

  /** What the mapper has built so far: the file's graph, the resolver state
      and the next unused blank-node number. */
  datatype Acc = Acc(graph: Graph, index: IndexState, nextBlank: nat)

  /** Python truthiness of a looked-up IRI. */
  predicate Found(r: Option<string>) {
    r.Some? && r.value != []
  }

  const SpanFields: seq<string> := ["startLine", "endLine", "startCol", "endCol"]

  /** `span[name]` for the four span members. */
  function SpanField(span: Span, name: string): Option<int> {
    if name == "startLine" then span.startLine
    else if name == "endLine" then span.endLine
    else if name == "startCol" then span.startCol
    else if name == "endCol" then span.endCol
    else None
  }

  /** The member triples of a span node, for the listed member names that
      the span has. */
  function SpanFieldTriples(span: Span, node: nat, names: seq<string>): Graph
    decreases |names|
  {
    if names == [] then {}
    else
      var last := names[|names| - 1];
      SpanFieldTriples(span, node, names[..|names| - 1])
      + (match SpanField(span, last)
         case None => {}
         case Some(v) => {Triple(Blank(node), Laco(last), IntLit(v))})
  }

  /** `add_span`: a fresh node hung off the parent, with one triple per
      member that is present. */
  function SpanTriples(parent: Term, span: Span, node: nat): Graph {
    {Triple(parent, Laco("span"), Blank(node))} + SpanFieldTriples(span, node, SpanFields)
  }

  /** The statements `apply_mapping` always makes about the file. */
  function Header(ctx: MappingContext, p: Payload): Graph {
    var file := Iri(ctx.FileIri(p.filePath));
    {Triple(file, RdfType, Laco("SourceFile")),
     Triple(file, DctPath, Lit(p.filePath)),
     Triple(file, Laco("sha256"), Lit(Str(p.sha256))),
     Triple(file, Laco("atCommit"), Iri(ctx.commitIri))}
    + (if p.hasUseClientDirective == Some(true)
       then {Triple(file, Ts("hasUseClientDirective"), BoolLit(true))} else {})
  }

  /** The statements every declared unit gets, whatever else it has. */
  function UnitCore(ctx: MappingContext, unitIri: Term, file: Term, u: Unit): Graph
    requires Declarable(u)
  {
    {Triple(unitIri, RdfType, UnitType(u.kind)),
     Triple(unitIri, Laco("declaredIn"), file),
     Triple(unitIri, Laco("qualifiedName"), Lit(u.qualifiedName.value)),
     Triple(unitIri, Laco("symbolId"), Lit(u.symbolId.value)),
     Triple(unitIri, Laco("atCommit"), Iri(ctx.commitIri)),
     Triple(file, Laco("defines"), unitIri)}
  }

  /** The optional statements about a declared unit. */
  function UnitExtras(unitIri: Term, u: Unit): Graph {
    (if Truthy(u.astPath) then {Triple(unitIri, Laco("astPath"), Lit(u.astPath.value))} else {})
    + (if u.isExportedDefault == Some(true)
       then {Triple(unitIri, Laco("isExportedDefault"), BoolLit(true))} else {})
    + (if u.isAsync == Some(true) then {Triple(unitIri, Ts("isAsync"), BoolLit(true))} else {})
  }

  function MapUnit(ctx: MappingContext, file: Term, u: Unit, acc: Acc): Acc {
    if !Declarable(u) then acc
    else
      var unitIri := Iri(acc.index.MakeUnitUri(u.symbolId.value));
      var spanPart := if u.span.Some? then SpanTriples(unitIri, u.span.value, acc.nextBlank) else {};
      Acc(acc.graph + UnitCore(ctx, unitIri, file, u) + UnitExtras(unitIri, u) + spanPart,
          acc.index,
          if u.span.Some? then acc.nextBlank + 1 else acc.nextBlank)
  }

  function MapUnits(ctx: MappingContext, file: Term, units: seq<Unit>, acc: Acc): Acc
    decreases |units|
  {
    if units == [] then acc
    else MapUnit(ctx, file, units[|units| - 1], MapUnits(ctx, file, units[..|units| - 1], acc))
  }

  /** The statements one import makes: a package, a file of the repository,
      or an unresolved external module. */
  function ImportTriples(ctx: MappingContext, file: Term, imp: Import): Graph
    requires Truthy(imp.specifier)
  {
    var spec := imp.specifier.value;
    if imp.resolvedKind == Some("package") then
      var pkg := Iri(PackageIri(spec));
      {Triple(pkg, RdfType, Laco("Package")),
       Triple(pkg, DctTitle, Lit(spec)),
       Triple(file, Laco("importsFrom"), pkg)}
    else if imp.resolvedKind == Some("file") && imp.resolved.Some? then
      {Triple(file, Laco("importsFrom"), Iri(ctx.FileIri(imp.resolved.value)))}
    else
      {Triple(file, Laco("importsFrom"), Iri(ExternalIri(spec)))}
  }

  function MapImport(ctx: MappingContext, file: Term, imp: Import, acc: Acc): Acc {
    if !Truthy(imp.specifier) then acc
    else acc.(graph := acc.graph + ImportTriples(ctx, file, imp))
  }

  function MapImports(ctx: MappingContext, file: Term, imports: seq<Import>, acc: Acc): Acc
    decreases |imports|
  {
    if imports == [] then acc
    else MapImport(ctx, file, imports[|imports| - 1], MapImports(ctx, file, imports[..|imports| - 1], acc))
  }

  function MapExport(file: Term, e: Export, acc: Acc): Acc {
    if !Truthy(e.unitSymbolId) then acc
    else
      var target := acc.index.ForSymbol(e.unitSymbolId);
      if Found(target) then acc.(graph := acc.graph + {Triple(file, Laco("exports"), Iri(target.value))})
      else acc
  }

  function MapExports(file: Term, exports: seq<Export>, acc: Acc): Acc
    decreases |exports|
  {
    if exports == [] then acc
    else MapExport(file, exports[|exports| - 1], MapExports(file, exports[..|exports| - 1], acc))
  }

  /** How an occurrence's object resolves: by symbol id, else by qualified
      name, else as a newly ensured dangling unit. Gives the IRI (if any),
      whether `ensure_dangling` was called, and the resolver state after. */
  datatype Resolution = Resolution(obj: Option<string>, createdDangling: bool, index: IndexState)

  function ResolveObject(st: IndexState, o: Occurrence): Resolution {
    var bySymbol := st.ForSymbol(o.objectSymbolId);
    if !Found(bySymbol) && Truthy(o.objectQName) then
      var byName := st.ForQualifiedName(Some(o.objectQName.value));
      if Found(byName) then Resolution(byName, false, st)
      else
        var (st', uri) := DanglingFor(st, o.objectQName.value);
        Resolution(Some(uri), true, st')
    else Resolution(bySymbol, false, st)
  }

  /** The relation name an occurrence is recorded under ("calls" when the
      record has none). */
  function RelationOf(o: Occurrence): string {
    if Truthy(o.relation) then o.relation.value else "calls"
  }

  /** The declaration of a dangling unit. */
  function DanglingDeclaration(obj: Term, qname: string): Graph {
    {Triple(obj, RdfType, Laco("Unit")), Triple(obj, Laco("qualifiedName"), Lit(qname))}
  }

  /** The anonymous Occurrence record. */
  function OccurrenceNode(node: nat, relation: string, subject: Term, obj: Term, file: Term): Graph {
    {Triple(Blank(node), RdfType, Laco("Occurrence")),
     Triple(Blank(node), Laco("ofRelation"), Lit(relation)),
     Triple(Blank(node), Laco("subject"), subject),
     Triple(Blank(node), Laco("object"), obj),
     Triple(Blank(node), Laco("inFile"), file)}
  }

  function RelationEdge(subject: Term, relation: string, obj: Term): Graph {
    match RelationPredicate(relation)
    case None => {}
    case Some(p) => {Triple(subject, p, obj)}
  }

  function MapOccurrence(file: Term, o: Occurrence, acc: Acc): Acc {
    var subject := acc.index.ForSymbol(o.subjectSymbolId);
    if !Found(subject) then acc
    else
      var res := ResolveObject(acc.index, o);
      if !Found(res.obj) then acc.(index := res.index)
      else
        var obj := Iri(res.obj.value);
        var declare := res.createdDangling && o.objectQName.Some?
                       && o.objectQName.value !in res.index.danglingEmitted;
        var decl := if declare then DanglingDeclaration(obj, o.objectQName.value) else {};
        var st := if declare
                  then res.index.(danglingEmitted := res.index.danglingEmitted + {o.objectQName.value})
                  else res.index;
        var relation := RelationOf(o);
        var n := acc.nextBlank;
        var spanPart := if o.span.Some? then SpanTriples(Blank(n), o.span.value, n + 1) else {};
        Acc(acc.graph + decl + RelationEdge(Iri(subject.value), relation, obj)
            + OccurrenceNode(n, relation, Iri(subject.value), obj, file) + spanPart,
            st,
            if o.span.Some? then n + 2 else n + 1)
  }

  function MapOccurrences(file: Term, occurrences: seq<Occurrence>, acc: Acc): Acc
    decreases |occurrences|
  {
    if occurrences == [] then acc
    else MapOccurrence(file, occurrences[|occurrences| - 1],
                       MapOccurrences(file, occurrences[..|occurrences| - 1], acc))
  }

  /** `apply_mapping`: the file's graph, the resolver state afterwards and the
      next free blank-node number, from the state and counter before. */
  function MapFile(ctx: MappingContext, p: Payload, st: IndexState, blank: nat): Acc {
    var file := Iri(ctx.FileIri(p.filePath));
    var a1 := MapUnits(ctx, file, p.units, Acc(Header(ctx, p), st, blank));
    var a2 := MapImports(ctx, file, p.imports, a1);
    var a3 := MapExports(file, p.exports, a2);
    MapOccurrences(file, p.occurrences, a3)
  }

  // ------------------------------------------------ the stateful index

  /** SymbolIndex: the resolver shared by every file of a build. */
  class SymbolIndex {
    const repoName: string
    const commitSha: string
    var bySymbol: map<string, string>
    var byQname: map<string, string>
    var dangling: map<string, string>
    var danglingEmitted: set<string>

    /** The fields as a value. */
    function State(): IndexState
      reads this
    {
      IndexState(repoName, commitSha, bySymbol, byQname, dangling, danglingEmitted)
    }

    constructor(repoName: string, commitSha: string)
      ensures State() == EmptyIndex(repoName, commitSha)
    {
      this.repoName := repoName;
      this.commitSha := commitSha;
      bySymbol := map[];
      byQname := map[];
      dangling := map[];
      danglingEmitted := {};
    }

    /** `register_payload` */
    method RegisterPayload(units: seq<Unit>)
      modifies this
      ensures State() == RegisterUnits(old(State()), units)
    {
      for i := 0 to |units|
        invariant State() == RegisterUnits(old(State()), units[..i])
      {
        var u := units[i];
        if Declarable(u) {
          var uri := State().MakeUnitUri(u.symbolId.value);
          bySymbol := bySymbol[u.symbolId.value := uri];
          if u.qualifiedName.value !in byQname {
            byQname := byQname[u.qualifiedName.value := uri];
          }
        }
        assert units[..i + 1][..i] == units[..i];
      }
      assert units[..|units|] == units;
    }

    /** `ensure_dangling` */
    method EnsureDangling(qname: string) returns (uri: string)
      modifies this
      ensures (State(), uri) == DanglingFor(old(State()), qname)
    {
      if qname in dangling {
        return dangling[qname];
      }
      uri := DanglingIri(repoName, commitSha, qname);
      dangling := dangling[qname := uri];
      if qname !in byQname {
        byQname := byQname[qname := uri];
      }
    }
  }

  /** `add_span`, with the span node's number given by the caller. */
  method AddSpan(graph: Graph, parent: Term, span: Span, node: nat) returns (g: Graph)
    ensures g == graph + SpanTriples(parent, span, node)
  {
    g := graph + {Triple(parent, Laco("span"), Blank(node))};
    for i := 0 to |SpanFields|
      invariant g == graph + {Triple(parent, Laco("span"), Blank(node))}
                     + SpanFieldTriples(span, node, SpanFields[..i])
    {
      var name := SpanFields[i];
      match SpanField(span, name) {
        case Some(v) => g := g + {Triple(Blank(node), Laco(name), IntLit(v))};
        case None =>
      }
      assert SpanFields[..i + 1][..i] == SpanFields[..i];
    }
    assert SpanFields[..|SpanFields|] == SpanFields;
  }

  /** The statements about one unit (the body of the first loop of
      `apply_mapping`). */
  method AddUnit(ctx: MappingContext, file: Term, u: Unit, index: SymbolIndex, graph: Graph, blank: nat)
    returns (g: Graph, nextBlank: nat)
    ensures Acc(g, index.State(), nextBlank) == MapUnit(ctx, file, u, Acc(graph, index.State(), blank))
  {
    g, nextBlank := graph, blank;
    if !Declarable(u) {
      return;
    }
    var unitIri := Iri(index.State().MakeUnitUri(u.symbolId.value));
    g := g + {Triple(unitIri, RdfType, UnitType(u.kind))};
    g := g + {Triple(unitIri, Laco("declaredIn"), file)};
    g := g + {Triple(unitIri, Laco("qualifiedName"), Lit(u.qualifiedName.value))};
    g := g + {Triple(unitIri, Laco("symbolId"), Lit(u.symbolId.value))};
    g := g + {Triple(unitIri, Laco("atCommit"), Iri(ctx.commitIri))};
    ghost var core := UnitCore(ctx, unitIri, file, u);
    ghost var defines := {Triple(file, Laco("defines"), unitIri)};
    ghost var head := g;
    assert head + defines == graph + core;
    ghost var astPart: Graph := if Truthy(u.astPath) then {Triple(unitIri, Laco("astPath"), Lit(u.astPath.value))} else {};
    if Truthy(u.astPath) {
      g := g + {Triple(unitIri, Laco("astPath"), Lit(u.astPath.value))};
    }
    assert g == head + astPart;
    ghost var g2 := g;
    ghost var spanPart: Graph := if u.span.Some? then SpanTriples(unitIri, u.span.value, blank) else {};
    if u.span.Some? {
      g := AddSpan(g, unitIri, u.span.value, nextBlank);
      nextBlank := nextBlank + 1;
    }
    assert g == g2 + spanPart;
    ghost var g3 := g;
    ghost var defaultPart: Graph := if u.isExportedDefault == Some(true) then {Triple(unitIri, Laco("isExportedDefault"), BoolLit(true))} else {};
    if u.isExportedDefault == Some(true) {
      g := g + {Triple(unitIri, Laco("isExportedDefault"), BoolLit(true))};
    }
    assert g == g3 + defaultPart;
    ghost var g4 := g;
    ghost var asyncPart: Graph := if u.isAsync == Some(true) then {Triple(unitIri, Ts("isAsync"), BoolLit(true))} else {};
    if u.isAsync == Some(true) {
      g := g + {Triple(unitIri, Ts("isAsync"), BoolLit(true))};
    }
    assert g == g4 + asyncPart;
    g := g + {Triple(file, Laco("defines"), unitIri)};
    assert UnitExtras(unitIri, u) == astPart + defaultPart + asyncPart;
    Regroup(head, defines, astPart, spanPart, defaultPart, asyncPart);
  }

  /** Union is associative and commutative, so the optional parts of a unit
      may be added in any order. */
  lemma Regroup(head: Graph, d: Graph, a: Graph, s: Graph, e: Graph, y: Graph)
    ensures head + a + s + e + y + d == (head + d) + (a + e + y) + s
  {
  }

  /** The statements about one import record. */
  method AddImport(ctx: MappingContext, file: Term, imp: Import, graph: Graph) returns (g: Graph)
    ensures g == graph + (if Truthy(imp.specifier) then ImportTriples(ctx, file, imp) else {})
  {
    g := graph;
    if !Truthy(imp.specifier) {
      return;
    }
    var spec := imp.specifier.value;
    if imp.resolvedKind == Some("package") {
      var pkg := Iri(PackageIri(spec));
      g := g + {Triple(pkg, RdfType, Laco("Package"))};
      g := g + {Triple(pkg, DctTitle, Lit(spec))};
      g := g + {Triple(file, Laco("importsFrom"), pkg)};
    } else if imp.resolvedKind == Some("file") && imp.resolved.Some? {
      g := g + {Triple(file, Laco("importsFrom"), Iri(ctx.FileIri(imp.resolved.value)))};
    } else {
      g := g + {Triple(file, Laco("importsFrom"), Iri(ExternalIri(spec)))};
    }
  }

  /** The object lookup of one occurrence: by symbol id, then by qualified
      name, then `ensure_dangling`. */
  method ResolveOccurrenceObject(o: Occurrence, index: SymbolIndex) returns (obj: Option<string>, created: bool)
    modifies index
    ensures Resolution(obj, created, index.State()) == ResolveObject(old(index.State()), o)
  {
    obj := index.State().ForSymbol(o.objectSymbolId);
    created := false;
    if !Found(obj) && Truthy(o.objectQName) {
      obj := index.State().ForQualifiedName(Some(o.objectQName.value));
      if !Found(obj) {
        var d := index.EnsureDangling(o.objectQName.value);
        obj := Some(d);
        created := true;
      }
    }
  }

  /** The statements about one resolved occurrence, from the relation edge
      on (the blank node of the occurrence is `node`). */
  method AddOccurrenceRecord(file: Term, o: Occurrence, subject: Term, obj: Term, graph: Graph, node: nat)
    returns (g: Graph, nextBlank: nat)
    ensures g == graph + RelationEdge(subject, RelationOf(o), obj)
                 + OccurrenceNode(node, RelationOf(o), subject, obj, file)
                 + (if o.span.Some? then SpanTriples(Blank(node), o.span.value, node + 1) else {})
    ensures nextBlank == if o.span.Some? then node + 2 else node + 1
  {
    g := graph;
    var relation := RelationOf(o);
    match RelationPredicate(relation) {
      case Some(pred) => g := g + {Triple(subject, pred, obj)};
      case None =>
    }
    nextBlank := node + 1;
    g := g + {Triple(Blank(node), RdfType, Laco("Occurrence"))};
    g := g + {Triple(Blank(node), Laco("ofRelation"), Lit(relation))};
    g := g + {Triple(Blank(node), Laco("subject"), subject)};
    g := g + {Triple(Blank(node), Laco("object"), obj)};
    g := g + {Triple(Blank(node), Laco("inFile"), file)};
    if o.span.Some? {
      g := AddSpan(g, Blank(node), o.span.value, nextBlank);
      nextBlank := nextBlank + 1;
    }
  }

  /** The statements about one occurrence record; may record a dangling
      name in the index. */
  method AddOccurrence(file: Term, o: Occurrence, index: SymbolIndex, graph: Graph, blank: nat)
    returns (g: Graph, nextBlank: nat)
    modifies index
    ensures Acc(g, index.State(), nextBlank) == MapOccurrence(file, o, Acc(graph, old(index.State()), blank))
  {
    g, nextBlank := graph, blank;
    var subject := index.State().ForSymbol(o.subjectSymbolId);
    if !Found(subject) {
      return;
    }
    ghost var res := ResolveObject(index.State(), o);
    var obj, created := ResolveOccurrenceObject(o, index);
    assert obj == res.obj && created == res.createdDangling && index.State() == res.index;
    if !Found(obj) {
      return;
    }
    var objIri := Iri(obj.value);
    ghost var declare := created && o.objectQName.Some? && o.objectQName.value !in index.danglingEmitted;
    if created && o.objectQName.Some? && o.objectQName.value !in index.danglingEmitted {
      g := g + DanglingDeclaration(objIri, o.objectQName.value);
      index.danglingEmitted := index.danglingEmitted + {o.objectQName.value};
    }
    assert g == graph + (if declare then DanglingDeclaration(objIri, o.objectQName.value) else {});
    assert index.State() == if declare
      then res.index.(danglingEmitted := res.index.danglingEmitted + {o.objectQName.value})
      else res.index;
    g, nextBlank := AddOccurrenceRecord(file, o, Iri(subject.value), objIri, g, nextBlank);
  }

  /** The first loop of `apply_mapping`. */
  method AddUnits(ctx: MappingContext, file: Term, units: seq<Unit>, index: SymbolIndex, graph: Graph, blank: nat)
    returns (g: Graph, nextBlank: nat)
    ensures Acc(g, index.State(), nextBlank) == MapUnits(ctx, file, units, Acc(graph, index.State(), blank))
  {
    g, nextBlank := graph, blank;
    for i := 0 to |units|
      invariant Acc(g, index.State(), nextBlank) == MapUnits(ctx, file, units[..i], Acc(graph, index.State(), blank))
    {
      g, nextBlank := AddUnit(ctx, file, units[i], index, g, nextBlank);
      assert units[..i + 1][..i] == units[..i];
    }
    assert units[..|units|] == units;
  }

  /** The second loop of `apply_mapping`. */
  method AddImports(ctx: MappingContext, file: Term, imports: seq<Import>, index: SymbolIndex, graph: Graph, blank: nat)
    returns (g: Graph)
    ensures Acc(g, index.State(), blank) == MapImports(ctx, file, imports, Acc(graph, index.State(), blank))
  {
    g := graph;
    for i := 0 to |imports|
      invariant Acc(g, index.State(), blank) == MapImports(ctx, file, imports[..i], Acc(graph, index.State(), blank))
    {
      g := AddImport(ctx, file, imports[i], g);
      assert imports[..i + 1][..i] == imports[..i];
    }
    assert imports[..|imports|] == imports;
  }

  /** The third loop of `apply_mapping`. */
  method AddExports(file: Term, exports: seq<Export>, index: SymbolIndex, graph: Graph, blank: nat)
    returns (g: Graph)
    ensures Acc(g, index.State(), blank) == MapExports(file, exports, Acc(graph, index.State(), blank))
  {
    g := graph;
    for i := 0 to |exports|
      invariant Acc(g, index.State(), blank) == MapExports(file, exports[..i], Acc(graph, index.State(), blank))
    {
      var e := exports[i];
      if Truthy(e.unitSymbolId) {
        var target := index.State().ForSymbol(e.unitSymbolId);
        if Found(target) {
          g := g + {Triple(file, Laco("exports"), Iri(target.value))};
        }
      }
      assert exports[..i + 1][..i] == exports[..i];
    }
    assert exports[..|exports|] == exports;
  }

  /** The fourth loop of `apply_mapping`. */
  method AddOccurrences(file: Term, occurrences: seq<Occurrence>, index: SymbolIndex, graph: Graph, blank: nat)
    returns (g: Graph, nextBlank: nat)
    modifies index
    ensures Acc(g, index.State(), nextBlank)
            == MapOccurrences(file, occurrences, Acc(graph, old(index.State()), blank))
  {
    g, nextBlank := graph, blank;
    for i := 0 to |occurrences|
      invariant Acc(g, index.State(), nextBlank)
                == MapOccurrences(file, occurrences[..i], Acc(graph, old(index.State()), blank))
    {
      g, nextBlank := AddOccurrence(file, occurrences[i], index, g, nextBlank);
      assert occurrences[..i + 1][..i] == occurrences[..i];
    }
    assert occurrences[..|occurrences|] == occurrences;
  }

  /** `apply_mapping`: builds one file's graph, drawing blank nodes from
      `blank` on and updating the shared index. */
  method ApplyMapping(p: Payload, ctx: MappingContext, index: SymbolIndex, blank: nat)
    returns (graph: Graph, nextBlank: nat)
    modifies index
    ensures Acc(graph, index.State(), nextBlank) == MapFile(ctx, p, old(index.State()), blank)
  {
    var file := Iri(ctx.FileIri(p.filePath));
    graph := {Triple(file, RdfType, Laco("SourceFile"))};
    graph := graph + {Triple(file, DctPath, Lit(p.filePath))};
    graph := graph + {Triple(file, Laco("sha256"), Lit(Str(p.sha256)))};
    graph := graph + {Triple(file, Laco("atCommit"), Iri(ctx.commitIri))};
    if p.hasUseClientDirective == Some(true) {
      graph := graph + {Triple(file, Ts("hasUseClientDirective"), BoolLit(true))};
    }
    assert graph == Header(ctx, p);
    graph, nextBlank := AddUnits(ctx, file, p.units, index, graph, blank);
    graph := AddImports(ctx, file, p.imports, index, graph, nextBlank);
    graph := AddExports(file, p.exports, index, graph, nextBlank);
    graph, nextBlank := AddOccurrences(file, p.occurrences, index, graph, nextBlank);
  }
}
