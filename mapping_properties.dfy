/** What the symbol resolver and the fact mapper promise, proved about the
    specification functions of module Mapping (and so, through the
    postconditions of its methods, about SymbolIndex and ApplyMapping). */
module MappingProperties {

  import opened Wrappers
  import opened Rdf
  import opened Facts
  import opened Mapping
  import Strings
  import Paths

  // ------------------------------------------------------ registration

  /** The symbol ids of the units the index registers. */
  ghost function DeclaredIds(units: seq<Unit>): set<string> {
    set i | 0 <= i < |units| && Declarable(units[i]) :: units[i].symbolId.value
  }

  /** The qualified names of the units the index registers. */
  ghost function DeclaredNames(units: seq<Unit>): set<string> {
    set i | 0 <= i < |units| && Declarable(units[i]) :: units[i].qualifiedName.value
  }

  lemma DeclaredSnoc(units: seq<Unit>)
    requires units != []
    ensures var init, last := units[..|units| - 1], units[|units| - 1];
      && DeclaredIds(units) == DeclaredIds(init) + (if Declarable(last) then {last.symbolId.value} else {})
      && DeclaredNames(units) == DeclaredNames(init) + (if Declarable(last) then {last.qualifiedName.value} else {})
  {
    var init, last := units[..|units| - 1], units[|units| - 1];
    forall x | x in DeclaredIds(units)
      ensures x in DeclaredIds(init) + (if Declarable(last) then {last.symbolId.value} else {})
    {
      var i :| 0 <= i < |units| && Declarable(units[i]) && units[i].symbolId.value == x;
      if i < |init| {
        assert init[i] == units[i];
      }
    }
    forall x | x in DeclaredIds(init) ensures x in DeclaredIds(units) {
      var i :| 0 <= i < |init| && Declarable(init[i]) && init[i].symbolId.value == x;
      assert units[i] == init[i];
    }
    forall x | x in DeclaredNames(units)
      ensures x in DeclaredNames(init) + (if Declarable(last) then {last.qualifiedName.value} else {})
    {
      var i :| 0 <= i < |units| && Declarable(units[i]) && units[i].qualifiedName.value == x;
      if i < |init| {
        assert init[i] == units[i];
      }
    }
    forall x | x in DeclaredNames(init) ensures x in DeclaredNames(units) {
      var i :| 0 <= i < |init| && Declarable(init[i]) && init[i].qualifiedName.value == x;
      assert units[i] == init[i];
    }
  }

  /** `register_payload` registers exactly the units with a symbol id and a
      qualified name: each such id maps to its unit IRI, every other entry
      is kept, a name already registered keeps its IRI, and the dangling
      records are untouched. */
  lemma {:induction false} RegisterUnitsEffect(st: IndexState, units: seq<Unit>)
    ensures var r := RegisterUnits(st, units);
      && r.repoName == st.repoName && r.commitSha == st.commitSha
      && r.dangling == st.dangling && r.danglingEmitted == st.danglingEmitted
      && r.bySymbol.Keys == st.bySymbol.Keys + DeclaredIds(units)
      && (forall sid :: sid in DeclaredIds(units) ==> r.bySymbol[sid] == st.MakeUnitUri(sid))
      && (forall sid :: sid in st.bySymbol && sid !in DeclaredIds(units) ==> r.bySymbol[sid] == st.bySymbol[sid])
      && r.byQname.Keys == st.byQname.Keys + DeclaredNames(units)
      && (forall q :: q in st.byQname ==> r.byQname[q] == st.byQname[q])
    decreases |units|
  {
    if units != [] {
      RegisterUnitsEffect(st, units[..|units| - 1]);
      DeclaredSnoc(units);
    }
  }

  /** Registration keeps the resolver invariant. */
  lemma RegisterUnitsValid(st: IndexState, units: seq<Unit>)
    requires st.Valid()
    ensures RegisterUnits(st, units).Valid()
  {
    RegisterUnitsEffect(st, units);
  }

  /** By qualified name the first registered unit wins: the name keeps the
      IRI it had, or else gets the IRI of the first unit declaring it. */
  lemma {:induction false} RegisterFirstNameWins(st: IndexState, units: seq<Unit>, j: nat)
    requires j < |units| && Declarable(units[j])
    requires forall k | 0 <= k < j :: !(Declarable(units[k]) && units[k].qualifiedName == units[j].qualifiedName)
    ensures var q := units[j].qualifiedName.value;
      && q in RegisterUnits(st, units).byQname
      && RegisterUnits(st, units).byQname[q]
      == if q in st.byQname then st.byQname[q] else st.MakeUnitUri(units[j].symbolId.value)
    decreases |units|
  {
    var q := units[j].qualifiedName.value;
    var init := units[..|units| - 1];
    var mid := RegisterUnits(st, init);
    assert RegisterUnits(st, units) == RegisterUnit(mid, units[|units| - 1]);
    RegisterNamesEffect(st, init);
    if j == |units| - 1 {
      assert q !in DeclaredNames(init) by {
        forall k | 0 <= k < |init|
          ensures !(Declarable(init[k]) && init[k].qualifiedName.value == q)
        {
          assert init[k] == units[k];
        }
      }
    } else {
      forall k | 0 <= k < j
        ensures !(Declarable(init[k]) && init[k].qualifiedName == init[j].qualifiedName)
      {
        assert init[k] == units[k];
      }
      RegisterFirstNameWins(st, init, j);
    }
  }

  /** What registration does to the names, and nothing else. */
  lemma RegisterNamesEffect(st: IndexState, units: seq<Unit>)
    ensures var r := RegisterUnits(st, units);
      && r.repoName == st.repoName && r.commitSha == st.commitSha
      && r.byQname.Keys == st.byQname.Keys + DeclaredNames(units)
      && (forall q :: q in st.byQname ==> r.byQname[q] == st.byQname[q])
  {
    RegisterUnitsEffect(st, units);
  }

  // --------------------------------------------------- dangling names

  /** `ensure_dangling` gives the name's placeholder IRI, records it, makes
      the name resolvable without overwriting an existing registration, and
      keeps the resolver invariant; calling it again changes nothing. */
  lemma DanglingForEffect(st: IndexState, q: string)
    requires st.Valid()
    ensures var (st1, uri) := DanglingFor(st, q);
      && st1.Valid()
      && uri == DanglingIri(st.repoName, st.commitSha, q)
      && q in st1.dangling && st1.dangling[q] == uri
      && (q != [] ==> st1.ForQualifiedName(Some(q)).Some?)
      && st1.byQname[q] == (if q in st.byQname then st.byQname[q] else uri)
      && st1.bySymbol == st.bySymbol && st1.danglingEmitted == st.danglingEmitted
      && st1.repoName == st.repoName && st1.commitSha == st.commitSha
      && DanglingFor(st1, q) == (st1, uri)
  {
  }

  // ----------------------------------------------------------- spans

  /** The member triples of a span node are exactly one per listed member
      that the span has. */
  lemma {:induction false} SpanFieldTriplesMembers(span: Span, node: nat, names: seq<string>, t: Triple)
    ensures t in SpanFieldTriples(span, node, names)
            <==> exists k :: 0 <= k < |names| && SpanField(span, names[k]).Some?
                             && t == Triple(Blank(node), Laco(names[k]), IntLit(SpanField(span, names[k]).value))
    decreases |names|
  {
    if names != [] {
      var init := names[..|names| - 1];
      SpanFieldTriplesMembers(span, node, init, t);
      if exists k :: 0 <= k < |names| && SpanField(span, names[k]).Some?
                    && t == Triple(Blank(node), Laco(names[k]), IntLit(SpanField(span, names[k]).value)) {
        var k :| 0 <= k < |names| && SpanField(span, names[k]).Some?
                 && t == Triple(Blank(node), Laco(names[k]), IntLit(SpanField(span, names[k]).value));
        if k < |init| {
          assert init[k] == names[k];
        }
      }
    }
  }

  /** `add_span` hangs one node off the parent and gives it a triple for a
      member exactly when the span has that member, with its value. */
  lemma SpanTriplesPresent(parent: Term, span: Span, node: nat, name: string, v: int)
    requires name in SpanFields
    ensures Triple(Blank(node), Laco(name), IntLit(v)) in SpanTriples(parent, span, node)
            <==> SpanField(span, name) == Some(v)
  {
    var t := Triple(Blank(node), Laco(name), IntLit(v));
    SpanFieldTriplesMembers(span, node, SpanFields, t);
    if t in SpanFieldTriples(span, node, SpanFields) {
      var k :| 0 <= k < |SpanFields| && SpanField(span, SpanFields[k]).Some?
               && t == Triple(Blank(node), Laco(SpanFields[k]), IntLit(SpanField(span, SpanFields[k]).value));
      LacoInjective(SpanFields[k], name);
    }
    if SpanField(span, name) == Some(v) {
      var k :| 0 <= k < |SpanFields| && SpanFields[k] == name;
      assert t == Triple(Blank(node), Laco(SpanFields[k]), IntLit(SpanField(span, SpanFields[k]).value));
    }
  }

  /** Every span triple is the link from the parent or a member triple of the
      span node. */
  lemma SpanTriplesShape(parent: Term, span: Span, node: nat, t: Triple)
    ensures t in SpanTriples(parent, span, node)
            ==> t == Triple(parent, Laco("span"), Blank(node)) || (t.s == Blank(node) && t.o.IntLit?)
  {
    SpanFieldTriplesMembers(span, node, SpanFields, t);
  }

  // ---------------------------------------------------------- frames

  /** What mapping a payload may change in the resolver: it adds dangling
      names and emitted names, never touches the symbol ids, and keeps the
      invariant and every name already resolvable. */
  ghost predicate IndexGrows(before: IndexState, after: IndexState) {
    && after.repoName == before.repoName
    && after.commitSha == before.commitSha
    && after.bySymbol == before.bySymbol
    && before.danglingEmitted <= after.danglingEmitted
    && (forall q :: q in before.byQname ==> q in after.byQname && after.byQname[q] == before.byQname[q])
    && (forall q :: q in before.dangling ==> q in after.dangling && after.dangling[q] == before.dangling[q])
    && (before.Valid() ==> after.Valid())
  }

  lemma IndexGrowsTransitive(a: IndexState, b: IndexState, c: IndexState)
    requires IndexGrows(a, b) && IndexGrows(b, c)
    ensures IndexGrows(a, c)
  {
  }

  lemma {:induction false} MapUnitsFrame(ctx: MappingContext, file: Term, units: seq<Unit>, acc: Acc)
    ensures var r := MapUnits(ctx, file, units, acc);
      acc.graph <= r.graph && r.index == acc.index && acc.nextBlank <= r.nextBlank
    decreases |units|
  {
    if units != [] {
      MapUnitsFrame(ctx, file, units[..|units| - 1], acc);
    }
  }

  lemma {:induction false} MapImportsFrame(ctx: MappingContext, file: Term, imports: seq<Import>, acc: Acc)
    ensures var r := MapImports(ctx, file, imports, acc);
      acc.graph <= r.graph && r.index == acc.index && r.nextBlank == acc.nextBlank
    decreases |imports|
  {
    if imports != [] {
      MapImportsFrame(ctx, file, imports[..|imports| - 1], acc);
    }
  }

  lemma {:induction false} MapExportsFrame(file: Term, exports: seq<Export>, acc: Acc)
    ensures var r := MapExports(file, exports, acc);
      acc.graph <= r.graph && r.index == acc.index && r.nextBlank == acc.nextBlank
    decreases |exports|
  {
    if exports != [] {
      MapExportsFrame(file, exports[..|exports| - 1], acc);
    }
  }

  lemma ResolveObjectFrame(st: IndexState, o: Occurrence)
    ensures IndexGrows(st, ResolveObject(st, o).index)
  {
    if !Found(st.ForSymbol(o.objectSymbolId)) && Truthy(o.objectQName)
       && !Found(st.ForQualifiedName(Some(o.objectQName.value))) && st.Valid() {
      DanglingForEffect(st, o.objectQName.value);
    }
  }

  lemma MapOccurrenceFrame(file: Term, o: Occurrence, acc: Acc)
    ensures var r := MapOccurrence(file, o, acc);
      acc.graph <= r.graph && acc.nextBlank <= r.nextBlank && IndexGrows(acc.index, r.index)
  {
    if Found(acc.index.ForSymbol(o.subjectSymbolId)) {
      var res := ResolveObject(acc.index, o);
      ResolveObjectFrame(acc.index, o);
      if Found(res.obj) && res.createdDangling && o.objectQName.Some?
         && o.objectQName.value !in res.index.danglingEmitted {
        var st := res.index.(danglingEmitted := res.index.danglingEmitted + {o.objectQName.value});
        assert MapOccurrence(file, o, acc).index == st;
        EmitGrows(acc.index, res.index, o.objectQName.value);
      }
    }
  }

  /** Recording a name as emitted keeps the resolver growing, provided the
      name is dangling by then. */
  lemma EmitGrows(before: IndexState, mid: IndexState, q: string)
    requires IndexGrows(before, mid)
    requires before.Valid() ==> q in mid.dangling
    ensures IndexGrows(before, mid.(danglingEmitted := mid.danglingEmitted + {q}))
  {
  }

  lemma {:induction false} MapOccurrencesFrame(file: Term, occurrences: seq<Occurrence>, acc: Acc)
    ensures var r := MapOccurrences(file, occurrences, acc);
      acc.graph <= r.graph && acc.nextBlank <= r.nextBlank && IndexGrows(acc.index, r.index)
    decreases |occurrences|
  {
    if occurrences != [] {
      var init := occurrences[..|occurrences| - 1];
      MapOccurrencesFrame(file, init, acc);
      var mid := MapOccurrences(file, init, acc);
      MapOccurrenceFrame(file, occurrences[|occurrences| - 1], mid);
      IndexGrowsTransitive(acc.index, mid.index, MapOccurrences(file, occurrences, acc).index);
    }
  }

  /** The accumulator after each section of `apply_mapping`. */
  function Sections(ctx: MappingContext, p: Payload, st: IndexState, blank: nat): (Acc, Acc, Acc) {
    var file := Iri(ctx.FileIri(p.filePath));
    var a1 := MapUnits(ctx, file, p.units, Acc(Header(ctx, p), st, blank));
    var a2 := MapImports(ctx, file, p.imports, a1);
    (a1, a2, MapExports(file, p.exports, a2))
  }

  /** `apply_mapping` always states the file's type, path, hash and commit;
      it only adds to the resolver, and keeps its invariant. */
  lemma MapFileFrame(ctx: MappingContext, p: Payload, st: IndexState, blank: nat)
    ensures var r := MapFile(ctx, p, st, blank);
      && Header(ctx, p) <= r.graph
      && blank <= r.nextBlank
      && IndexGrows(st, r.index)
  {
    var file := Iri(ctx.FileIri(p.filePath));
    var (a1, a2, a3) := Sections(ctx, p, st, blank);
    MapUnitsFrame(ctx, file, p.units, Acc(Header(ctx, p), st, blank));
    MapImportsFrame(ctx, file, p.imports, a1);
    MapExportsFrame(file, p.exports, a2);
    MapOccurrencesFrame(file, p.occurrences, a3);
  }

  /** The four statements every file gets. */
  lemma FileAlwaysDescribed(ctx: MappingContext, p: Payload, st: IndexState, blank: nat)
    ensures var g := MapFile(ctx, p, st, blank).graph;
      var file := Iri(ctx.FileIri(p.filePath));
      && Triple(file, RdfType, Laco("SourceFile")) in g
      && Triple(file, DctPath, Lit(p.filePath)) in g
      && Triple(file, Laco("sha256"), Lit(Str(p.sha256))) in g
      && Triple(file, Laco("atCommit"), Iri(ctx.commitIri)) in g
  {
    MapFileFrame(ctx, p, st, blank);
  }

  // --------------------------------------------------- client directive

  function FlagTriple(file: Term): Triple {
    Triple(file, Ts("hasUseClientDirective"), BoolLit(true))
  }

  lemma MapUnitNoFlag(ctx: MappingContext, file: Term, u: Unit, acc: Acc)
    ensures FlagTriple(file) in MapUnit(ctx, file, u, acc).graph ==> FlagTriple(file) in acc.graph
  {
    if Declarable(u) {
      var unitIri := Iri(acc.index.MakeUnitUri(u.symbolId.value));
      var spanPart := if u.span.Some? then SpanTriples(unitIri, u.span.value, acc.nextBlank) else {};
      assert MapUnit(ctx, file, u, acc).graph
             == acc.graph + UnitCore(ctx, unitIri, file, u) + UnitExtras(unitIri, u) + spanPart;
      UnitNoFlag(ctx, unitIri, file, u);
      if u.span.Some? {
        SpanNoFlag(unitIri, u.span.value, acc.nextBlank, file);
      }
    }
  }

  lemma UnitNoFlag(ctx: MappingContext, unitIri: Term, file: Term, u: Unit)
    requires Declarable(u)
    ensures FlagTriple(file) !in UnitCore(ctx, unitIri, file, u) + UnitExtras(unitIri, u)
  {
    var flag := "hasUseClientDirective";
    assert FlagTriple(file) !in UnitCore(ctx, unitIri, file, u) by {
      TypeNotTs(flag);
      TsNotLaco(flag, "declaredIn");
      TsNotLaco(flag, "qualifiedName");
      TsNotLaco(flag, "symbolId");
      TsNotLaco(flag, "atCommit");
      TsNotLaco(flag, "defines");
    }
    assert FlagTriple(file) !in UnitExtras(unitIri, u) by {
      TsNotLaco(flag, "astPath");
      TsNotLaco(flag, "isExportedDefault");
      assert (TsNs + "isAsync")[|TsNs|] != (TsNs + flag)[|TsNs|];
    }
  }

  lemma SpanNoFlag(parent: Term, span: Span, node: nat, file: Term)
    ensures FlagTriple(file) !in SpanTriples(parent, span, node)
  {
    SpanTriplesShape(parent, span, node, FlagTriple(file));
    TsNotLaco("hasUseClientDirective", "span");
  }

  lemma {:induction false} MapUnitsNoFlag(ctx: MappingContext, file: Term, units: seq<Unit>, acc: Acc)
    ensures FlagTriple(file) in MapUnits(ctx, file, units, acc).graph ==> FlagTriple(file) in acc.graph
    decreases |units|
  {
    if units != [] {
      MapUnitsNoFlag(ctx, file, units[..|units| - 1], acc);
      MapUnitNoFlag(ctx, file, units[|units| - 1], MapUnits(ctx, file, units[..|units| - 1], acc));
    }
  }

  lemma {:induction false} MapImportsNoFlag(ctx: MappingContext, file: Term, imports: seq<Import>, acc: Acc)
    ensures FlagTriple(file) in MapImports(ctx, file, imports, acc).graph ==> FlagTriple(file) in acc.graph
    decreases |imports|
  {
    if imports != [] {
      MapImportsNoFlag(ctx, file, imports[..|imports| - 1], acc);
    }
  }

  lemma {:induction false} MapExportsNoFlag(file: Term, exports: seq<Export>, acc: Acc)
    ensures FlagTriple(file) in MapExports(file, exports, acc).graph ==> FlagTriple(file) in acc.graph
    decreases |exports|
  {
    if exports != [] {
      MapExportsNoFlag(file, exports[..|exports| - 1], acc);
    }
  }

  lemma MapOccurrenceNoFlag(file: Term, o: Occurrence, acc: Acc)
    ensures FlagTriple(file) in MapOccurrence(file, o, acc).graph ==> FlagTriple(file) in acc.graph
  {
    if Found(acc.index.ForSymbol(o.subjectSymbolId)) && Found(ResolveObject(acc.index, o).obj) {
      var subject, obj, declared := MapOccurrenceParts(file, o, acc);
      RecordNoFlag(acc.graph, subject, obj, file, RelationOf(o), declared, o.span, acc.nextBlank);
    } else {
      assert MapOccurrence(file, o, acc).graph == acc.graph;
    }
  }

  /** Recording an occurrence never marks a file as a client component. */
  lemma RecordNoFlag(g: Graph, subject: Term, obj: Term, file: Term, relation: string,
                     declared: Option<string>, span: Option<Span>, n: nat)
    ensures var all := g + DeclOf(obj, declared) + RelationEdge(subject, relation, obj)
                       + OccurrenceNode(n, relation, subject, obj, file) + SpanPartOf(n, span);
      FlagTriple(file) in all ==> FlagTriple(file) in g
  {
    var flag := "hasUseClientDirective";
    TypeNotTs(flag);
    TsNotLaco(flag, "qualifiedName");
    TsNotLaco(flag, "calls");
    TsNotLaco(flag, "references");
    TsNotLaco(flag, "readsFrom");
    TsNotLaco(flag, "writesTo");
    TsNotLaco(flag, "ofRelation");
    TsNotLaco(flag, "subject");
    TsNotLaco(flag, "object");
    TsNotLaco(flag, "inFile");
    if span.Some? {
      SpanNoFlag(Blank(n), span.value, n + 1, file);
    }
  }

  lemma {:induction false} MapOccurrencesNoFlag(file: Term, occurrences: seq<Occurrence>, acc: Acc)
    ensures FlagTriple(file) in MapOccurrences(file, occurrences, acc).graph ==> FlagTriple(file) in acc.graph
    decreases |occurrences|
  {
    if occurrences != [] {
      var init := occurrences[..|occurrences| - 1];
      MapOccurrencesNoFlag(file, init, acc);
      MapOccurrenceNoFlag(file, occurrences[|occurrences| - 1], MapOccurrences(file, init, acc));
    }
  }

  /** The file is marked as a client component exactly when its record says
      `hasUseClientDirective` is true. */
  lemma ClientDirectiveExactly(ctx: MappingContext, p: Payload, st: IndexState, blank: nat)
    ensures var file := Iri(ctx.FileIri(p.filePath));
      FlagTriple(file) in MapFile(ctx, p, st, blank).graph <==> p.hasUseClientDirective == Some(true)
  {
    var file := Iri(ctx.FileIri(p.filePath));
    var (a1, a2, a3) := Sections(ctx, p, st, blank);
    MapFileFrame(ctx, p, st, blank);
    MapUnitsNoFlag(ctx, file, p.units, Acc(Header(ctx, p), st, blank));
    MapImportsNoFlag(ctx, file, p.imports, a1);
    MapExportsNoFlag(file, p.exports, a2);
    MapOccurrencesNoFlag(file, p.occurrences, a3);
  }

  // ----------------------------------------------------------- units

  /** A unit is never left untyped: a known kind gets its own class and
      every other kind (a missing one included) the generic laco:Unit. */
  lemma UnitTypeFallback(kind: Option<string>)
    ensures UnitType(kind) == Laco("Unit") <==> Str(kind) !in KnownKinds
  {
    assert Laco("Type").iri[|LacoNs|] == 'T';
    assert Laco("Unit").iri[|LacoNs|] == 'U';
  }

  lemma {:induction false} MapUnitsDeclare(ctx: MappingContext, file: Term, units: seq<Unit>, acc: Acc, j: nat)
    requires j < |units| && Declarable(units[j])
    ensures UnitCore(ctx, Iri(acc.index.MakeUnitUri(units[j].symbolId.value)), file, units[j])
            <= MapUnits(ctx, file, units, acc).graph
    decreases |units|
  {
    var init := units[..|units| - 1];
    MapUnitsFrame(ctx, file, init, acc);
    if j < |init| {
      assert init[j] == units[j];
      MapUnitsDeclare(ctx, file, init, acc, j);
    }
  }

  /** Every unit with a symbol id and a qualified name is typed (generically
      if its kind is unknown), placed in its file, named, identified and
      dated, and the file defines it. */
  lemma UnitDeclared(ctx: MappingContext, p: Payload, st: IndexState, blank: nat, j: nat)
    requires j < |p.units| && Declarable(p.units[j])
    ensures var u := p.units[j];
      var unitIri := Iri(UnitIri(st.repoName, st.commitSha, u.symbolId.value));
      var file := Iri(ctx.FileIri(p.filePath));
      var g := MapFile(ctx, p, st, blank).graph;
      && Triple(unitIri, RdfType, UnitType(u.kind)) in g
      && Triple(unitIri, Laco("declaredIn"), file) in g
      && Triple(unitIri, Laco("qualifiedName"), Lit(u.qualifiedName.value)) in g
      && Triple(unitIri, Laco("symbolId"), Lit(u.symbolId.value)) in g
      && Triple(unitIri, Laco("atCommit"), Iri(ctx.commitIri)) in g
      && Triple(file, Laco("defines"), unitIri) in g
  {
    var file := Iri(ctx.FileIri(p.filePath));
    var (a1, a2, a3) := Sections(ctx, p, st, blank);
    MapUnitsDeclare(ctx, file, p.units, Acc(Header(ctx, p), st, blank), j);
    MapImportsFrame(ctx, file, p.imports, a1);
    MapExportsFrame(file, p.exports, a2);
    MapOccurrencesFrame(file, p.occurrences, a3);
  }

  // ----------------------------------------------------------- files

  /** Two relative paths name the same file IRI exactly when pathlib prints
      them the same once back-slashes are read as slashes. */
  lemma FileIriInjective(ctx: MappingContext, x: string, y: string)
    ensures ctx.FileIri(x) == ctx.FileIri(y) <==>
            Strings.ReplaceChar(Paths.PosixPathString(x), '\\', '/')
            == Strings.ReplaceChar(Paths.PosixPathString(y), '\\', '/')
  {
    var pre := "laco://repo/" + ctx.repoName + "/commit/" + ctx.commitSha + "/file/";
    var ex := Paths.EncodePathForGraph(Paths.PosixPathString(x));
    var ey := Paths.EncodePathForGraph(Paths.PosixPathString(y));
    assert ctx.FileIri(x) == pre + ex;
    assert ctx.FileIri(y) == pre + ey;
    if ctx.FileIri(x) == ctx.FileIri(y) {
      assert ex == (pre + ex)[|pre|..];
      assert ey == (pre + ey)[|pre|..];
    }
    Paths.EncodePathInjective(Paths.PosixPathString(x), Paths.PosixPathString(y));
  }

  // --------------------------------------------------------- imports

  /** Package, file and external targets never coincide. */
  lemma ImportTargetsDistinct(ctx: MappingContext, a: string, b: string, path: string)
    ensures PackageIri(a) != ExternalIri(b)
    ensures ctx.FileIri(path) != PackageIri(a)
    ensures ctx.FileIri(path) != ExternalIri(b)
  {
    assert PackageIri(a)[7] == 'p';
    assert ExternalIri(b)[7] == 'e';
    assert ctx.FileIri(path)[7] == 'r';
  }

  /** Distinct specifiers give distinct package and external IRIs. */
  lemma ImportTargetsInjective(a: string, b: string)
    ensures PackageIri(a) == PackageIri(b) ==> a == b
    ensures ExternalIri(a) == ExternalIri(b) ==> a == b
  {
    var pre := "laco://pkg/";
    if PackageIri(a) == PackageIri(b) {
      assert Quoting.Quote(a) == PackageIri(a)[|pre|..];
      assert Quoting.Quote(b) == PackageIri(b)[|pre|..];
      Quoting.QuoteInjective(a, b);
    }
    if ExternalIri(a) == ExternalIri(b) {
      assert Quoting.Quote(a) == ExternalIri(a)[|pre|..];
      assert Quoting.Quote(b) == ExternalIri(b)[|pre|..];
      Quoting.QuoteInjective(a, b);
    }
  }

  /** An import with a specifier gives the file exactly one `importsFrom`
      target: the package (declared as such, titled by the specifier) for a
      package import, the repository file for a resolved file import, and
      the external module otherwise. */
  lemma ImportShape(ctx: MappingContext, file: Term, imp: Import)
    requires Truthy(imp.specifier)
    ensures var g := ImportTriples(ctx, file, imp);
      var spec := imp.specifier.value;
      var target := if imp.resolvedKind == Some("package") then PackageIri(spec)
                    else if imp.resolvedKind == Some("file") && imp.resolved.Some?
                    then ctx.FileIri(imp.resolved.value)
                    else ExternalIri(spec);
      && Objects(g, file, Laco("importsFrom")) == {Iri(target)}
      && (imp.resolvedKind == Some("package") <==>
            Triple(Iri(target), RdfType, Laco("Package")) in g && Triple(Iri(target), DctTitle, Lit(spec)) in g)
  {
    var spec := imp.specifier.value;
    if imp.resolvedKind == Some("package") {
      PackageShape(file, Iri(PackageIri(spec)), spec);
    } else if imp.resolvedKind == Some("file") && imp.resolved.Some? {
      SingleImportShape(file, Iri(ctx.FileIri(imp.resolved.value)));
    } else {
      SingleImportShape(file, Iri(ExternalIri(spec)));
    }
  }

  lemma PackageShape(file: Term, pkg: Term, spec: string)
    ensures var g := {Triple(pkg, RdfType, Laco("Package")), Triple(pkg, DctTitle, Lit(spec)),
                      Triple(file, Laco("importsFrom"), pkg)};
      Objects(g, file, Laco("importsFrom")) == {pkg}
  {
    TypeNotLaco("importsFrom");
    assert |DctTitle.iri| != |Laco("importsFrom").iri|;
  }

  lemma SingleImportShape(file: Term, target: Term)
    ensures var g := {Triple(file, Laco("importsFrom"), target)};
      Objects(g, file, Laco("importsFrom")) == {target} && Triple(target, RdfType, Laco("Package")) !in g
  {
    TypeNotLaco("importsFrom");
    LacoInjective("importsFrom", "Package");
  }

  /** An import without a specifier adds nothing. */
  lemma ImportSkipped(ctx: MappingContext, file: Term, imp: Import, acc: Acc)
    requires !Truthy(imp.specifier)
    ensures MapImport(ctx, file, imp, acc) == acc
  {
  }

  // --------------------------------------------------------- exports

  /** The `exports` edges the export records add are exactly the IRIs their
      unit symbol ids resolve to; a record that does not resolve adds nothing. */
  lemma {:induction false} ExportEdges(file: Term, exports: seq<Export>, acc: Acc, x: Term)
    ensures var r := MapExports(file, exports, acc);
      Triple(file, Laco("exports"), x) in r.graph
      <==> Triple(file, Laco("exports"), x) in acc.graph
           || exists k :: 0 <= k < |exports| && Truthy(exports[k].unitSymbolId)
                          && Found(acc.index.ForSymbol(exports[k].unitSymbolId))
                          && x == Iri(acc.index.ForSymbol(exports[k].unitSymbolId).value)
    decreases |exports|
  {
    if exports != [] {
      var init := exports[..|exports| - 1];
      ExportEdges(file, init, acc, x);
      MapExportsFrame(file, init, acc);
      if exists k :: 0 <= k < |exports| && Truthy(exports[k].unitSymbolId)
                     && Found(acc.index.ForSymbol(exports[k].unitSymbolId))
                     && x == Iri(acc.index.ForSymbol(exports[k].unitSymbolId).value) {
        var k :| 0 <= k < |exports| && Truthy(exports[k].unitSymbolId)
                 && Found(acc.index.ForSymbol(exports[k].unitSymbolId))
                 && x == Iri(acc.index.ForSymbol(exports[k].unitSymbolId).value);
        if k < |init| {
          assert init[k] == exports[k];
        }
      }
      forall k | 0 <= k < |init| ensures init[k] == exports[k] { }
    }
  }

  // ----------------------------------------------------- occurrences

  /** The object of an occurrence resolves by symbol id first, then by
      qualified name, then to a newly ensured dangling unit; it resolves at
      all exactly when one of the first two succeeds or it has a name. */
  lemma ResolveObjectOrder(st: IndexState, o: Occurrence)
    requires st.Valid()
    ensures var res := ResolveObject(st, o);
      var bySymbol := st.ForSymbol(o.objectSymbolId);
      var byName := st.ForQualifiedName(o.objectQName);
      && (Found(bySymbol) ==> res == Resolution(bySymbol, false, st))
      && (!Found(bySymbol) && Found(byName) ==> res == Resolution(byName, false, st))
      && (!Found(bySymbol) && !Found(byName) && Truthy(o.objectQName) ==>
            && res.obj == Some(DanglingIri(st.repoName, st.commitSha, o.objectQName.value))
            && res.createdDangling
            && res.index == DanglingFor(st, o.objectQName.value).0)
      && (Found(res.obj) <==> Found(bySymbol) || Truthy(o.objectQName))
      && res.index.Valid()
  {
    if !Found(st.ForSymbol(o.objectSymbolId)) && Truthy(o.objectQName) {
      DanglingForEffect(st, o.objectQName.value);
    }
  }

  /** The predicates of the four known relations. */
  const RelationPredicates: set<Term> :=
    {Laco("calls"), Laco("references"), Laco("readsFrom"), Laco("writesTo")}

  /** The known relations map onto the four relation predicates, one each. */
  lemma RelationPredicateRange(relation: string)
    ensures RelationPredicate(relation).Some? <==> relation in {"calls", "references", "reads", "writes"}
    ensures RelationPredicate(relation).Some? ==> RelationPredicate(relation).value in RelationPredicates
  {
  }

  /** No other statement the mapper makes about an occurrence uses a
      relation predicate. */
  lemma NotRelationPredicate(name: string)
    requires name in {"qualifiedName", "ofRelation", "subject", "object", "inFile", "span"} || name in SpanFields
    ensures Laco(name) !in RelationPredicates
  {
    LacoInjective(name, "calls");
    LacoInjective(name, "references");
    LacoInjective(name, "readsFrom");
    LacoInjective(name, "writesTo");
  }

  /** An occurrence is recorded (its node added, a blank node drawn) exactly
      when its subject is registered and its object resolves; otherwise the
      graph and the counter are untouched. A recorded occurrence carries
      its relation ("calls" when the record has none), subject, object and
      file. */
  lemma OccurrenceRecorded(file: Term, o: Occurrence, acc: Acc)
    requires acc.index.Valid()
    ensures var r := MapOccurrence(file, o, acc);
      var subject := acc.index.ForSymbol(o.subjectSymbolId);
      var recorded := Found(subject) && (Found(acc.index.ForSymbol(o.objectSymbolId)) || Truthy(o.objectQName));
      && (recorded <==> r.nextBlank > acc.nextBlank)
      && (!recorded ==> r.graph == acc.graph && r.nextBlank == acc.nextBlank)
      && (!Found(subject) ==> r == acc)
      && (recorded ==>
            && OccurrenceNode(acc.nextBlank, RelationOf(o), Iri(subject.value),
                              Iri(ResolveObject(acc.index, o).obj.value), file) <= r.graph
            && (!Truthy(o.relation) ==> RelationOf(o) == "calls")
            && r.nextBlank == (if o.span.Some? then acc.nextBlank + 2 else acc.nextBlank + 1))
  {
    ResolveObjectOrder(acc.index, o);
  }

  /** A recorded occurrence links subject to object by its relation's
      predicate when the relation is known, and by no relation predicate at
      all when it is not. */
  lemma OccurrenceEdge(file: Term, o: Occurrence, acc: Acc)
    requires acc.index.Valid()
    requires Found(acc.index.ForSymbol(o.subjectSymbolId))
    requires Found(acc.index.ForSymbol(o.objectSymbolId)) || Truthy(o.objectQName)
    ensures var r := MapOccurrence(file, o, acc);
      var subject := Iri(acc.index.ForSymbol(o.subjectSymbolId).value);
      var obj := Iri(ResolveObject(acc.index, o).obj.value);
      && (RelationPredicate(RelationOf(o)).Some? ==>
            Triple(subject, RelationPredicate(RelationOf(o)).value, obj) in r.graph)
      && (RelationPredicate(RelationOf(o)).None? ==>
            forall t :: t in r.graph && t.p in RelationPredicates ==> t in acc.graph)
  {
    ResolveObjectOrder(acc.index, o);
    var subject, obj, declared := MapOccurrenceParts(file, o, acc);
    if RelationPredicate(RelationOf(o)).None? {
      RecordNoRelation(acc.graph, subject, obj, file, RelationOf(o), declared, o.span, acc.nextBlank);
    }
  }

  /** No statement of g uses a relation predicate. */
  ghost predicate NoRelationIn(g: Graph) {
    forall t :: t in g ==> t.p !in RelationPredicates
  }

  /** Without a known relation, none of the statements recording an
      occurrence uses a relation predicate. */
  lemma RecordNoRelation(g: Graph, subject: Term, obj: Term, file: Term, relation: string,
                         declared: Option<string>, span: Option<Span>, n: nat)
    requires RelationPredicate(relation).None?
    ensures var all := g + DeclOf(obj, declared) + RelationEdge(subject, relation, obj)
                       + OccurrenceNode(n, relation, subject, obj, file) + SpanPartOf(n, span);
      forall t :: t in all && t.p in RelationPredicates ==> t in g
  {
    DeclNoRelation(obj, declared);
    NodeNoRelation(n, relation, subject, obj, file);
    SpanPartNoRelation(n, span);
    NoRelationAdded(g, DeclOf(obj, declared), RelationEdge(subject, relation, obj),
                    OccurrenceNode(n, relation, subject, obj, file), SpanPartOf(n, span));
  }

  lemma DeclNoRelation(obj: Term, declared: Option<string>)
    ensures NoRelationIn(DeclOf(obj, declared))
  {
    NotRelationPredicate("qualifiedName");
  }

  lemma NodeNoRelation(n: nat, relation: string, subject: Term, obj: Term, file: Term)
    ensures NoRelationIn(OccurrenceNode(n, relation, subject, obj, file))
  {
    NotRelationPredicate("ofRelation");
    NotRelationPredicate("subject");
    NotRelationPredicate("object");
    NotRelationPredicate("inFile");
  }

  lemma NoRelationAdded(g: Graph, a: Graph, b: Graph, c: Graph, d: Graph)
    requires NoRelationIn(a) && b == {} && NoRelationIn(c) && NoRelationIn(d)
    ensures forall t :: t in g + a + b + c + d && t.p in RelationPredicates ==> t in g
  {
  }

  lemma SpanPartNoRelation(n: nat, span: Option<Span>)
    ensures NoRelationIn(SpanPartOf(n, span))
  {
    if span.Some? {
      NotRelationPredicate("span");
      forall t | t in SpanFieldTriples(span.value, n + 1, SpanFields) ensures t.p !in RelationPredicates {
        SpanFieldTriplesMembers(span.value, n + 1, SpanFields, t);
        var k :| 0 <= k < |SpanFields| && SpanField(span.value, SpanFields[k]).Some?
                 && t == Triple(Blank(n + 1), Laco(SpanFields[k]), IntLit(SpanField(span.value, SpanFields[k]).value));
        NotRelationPredicate(SpanFields[k]);
      }
    }
  }

  // --------------------------------------------- dangling declarations

  function UnitTyping(x: Term): Triple {
    Triple(x, RdfType, Laco("Unit"))
  }

  /** One occurrence emits at most one dangling declaration: it adds a
      laco:Unit typing only when it records its object's name as emitted,
      and then it declares that name's dangling unit (type and name). */
  lemma OccurrenceDeclaresOnce(file: Term, o: Occurrence, acc: Acc)
    requires acc.index.Valid()
    ensures var r := MapOccurrence(file, o, acc);
      var before, after := acc.index.danglingEmitted, r.index.danglingEmitted;
      && (after == before
          || (o.objectQName.Some? && o.objectQName.value !in before && after == before + {o.objectQName.value}))
      && (after != before ==>
            DanglingDeclaration(Iri(DanglingIri(acc.index.repoName, acc.index.commitSha, o.objectQName.value)),
                                o.objectQName.value) <= r.graph)
      && (forall x :: UnitTyping(x) in r.graph && UnitTyping(x) !in acc.graph ==>
            after != before && x == Iri(DanglingIri(acc.index.repoName, acc.index.commitSha, o.objectQName.value)))
  {
    ResolveObjectOrder(acc.index, o);
    ResolveObjectFrame(acc.index, o);
    var res := ResolveObject(acc.index, o);
    assert res.index.danglingEmitted == acc.index.danglingEmitted;
    if Found(acc.index.ForSymbol(o.subjectSymbolId)) && Found(res.obj) {
      var subject, obj, declared := MapOccurrenceParts(file, o, acc);
      RecordTypings(acc.graph, subject, obj, file, RelationOf(o), declared, o.span, acc.nextBlank);
    } else {
      assert MapOccurrence(file, o, acc).graph == acc.graph;
      assert MapOccurrence(file, o, acc).index.danglingEmitted == acc.index.danglingEmitted;
    }
  }

  /** The only laco:Unit typing recording an occurrence can add is that of
      its object, and only with a dangling declaration. */
  lemma RecordTypings(g: Graph, subject: Term, obj: Term, file: Term, relation: string,
                      declared: Option<string>, span: Option<Span>, n: nat)
    ensures var all := g + DeclOf(obj, declared) + RelationEdge(subject, relation, obj)
                       + OccurrenceNode(n, relation, subject, obj, file) + SpanPartOf(n, span);
      forall x :: UnitTyping(x) in all && UnitTyping(x) !in g ==> declared.Some? && x == obj
  {
    EdgeTypings(subject, relation, obj);
    NodeTypings(n, relation, subject, obj, file);
    SpanTypings(n, span);
    TypingsAdded(g, DeclOf(obj, declared), RelationEdge(subject, relation, obj),
                 OccurrenceNode(n, relation, subject, obj, file), SpanPartOf(n, span), obj, declared.Some?);
  }

  /** g holds no laco:Unit typing. */
  ghost predicate NoTyping(g: Graph) {
    forall x :: UnitTyping(x) !in g
  }

  lemma EdgeTypings(subject: Term, relation: string, obj: Term)
    ensures NoTyping(RelationEdge(subject, relation, obj))
  {
    RelationPredicateRange(relation);
    if RelationPredicate(relation).Some? {
      var p := RelationPredicate(relation).value;
      TypeNotLaco("calls");
      TypeNotLaco("references");
      TypeNotLaco("readsFrom");
      TypeNotLaco("writesTo");
      assert p != RdfType;
    }
  }

  lemma NodeTypings(n: nat, relation: string, subject: Term, obj: Term, file: Term)
    ensures NoTyping(OccurrenceNode(n, relation, subject, obj, file))
  {
    LacoInjective("Occurrence", "Unit");
  }

  lemma SpanTypings(n: nat, span: Option<Span>)
    ensures NoTyping(SpanPartOf(n, span))
  {
    if span.Some? {
      forall x | true ensures UnitTyping(x) !in SpanPartOf(n, span) {
        SpanTriplesShape(Blank(n), span.value, n + 1, UnitTyping(x));
        TypeNotLaco("span");
      }
    }
  }

  lemma TypingsAdded(g: Graph, a: Graph, b: Graph, c: Graph, d: Graph, obj: Term, declares: bool)
    requires forall x :: UnitTyping(x) in a ==> declares && x == obj
    requires NoTyping(b) && NoTyping(c) && NoTyping(d)
    ensures forall x :: UnitTyping(x) in g + a + b + c + d && UnitTyping(x) !in g ==> declares && x == obj
  {
  }

  /** Across the occurrences of a file: every laco:Unit typing they add is
      the declaration of a dangling name they newly record as emitted, and
      every such name is declared. */
  lemma {:induction false} OccurrencesDeclareOnce(file: Term, occurrences: seq<Occurrence>, acc: Acc)
    requires acc.index.Valid()
    ensures var r := MapOccurrences(file, occurrences, acc);
      var st := acc.index;
      var added := r.index.danglingEmitted - st.danglingEmitted;
      && (forall q :: q in added ==>
            DanglingDeclaration(Iri(DanglingIri(st.repoName, st.commitSha, q)), q) <= r.graph)
      && (forall x :: UnitTyping(x) in r.graph && UnitTyping(x) !in acc.graph ==>
            exists q :: q in added && x == Iri(DanglingIri(st.repoName, st.commitSha, q)))
    decreases |occurrences|
  {
    if occurrences != [] {
      var init := occurrences[..|occurrences| - 1];
      var mid := MapOccurrences(file, init, acc);
      var r := MapOccurrences(file, occurrences, acc);
      OccurrencesDeclareOnce(file, init, acc);
      MapOccurrencesFrame(file, init, acc);
      OccurrenceDeclaresOnce(file, occurrences[|occurrences| - 1], mid);
      MapOccurrenceFrame(file, occurrences[|occurrences| - 1], mid);
      var st := acc.index;
      forall x | UnitTyping(x) in r.graph && UnitTyping(x) !in acc.graph
        ensures exists q :: q in r.index.danglingEmitted - st.danglingEmitted
                            && x == Iri(DanglingIri(st.repoName, st.commitSha, q))
      {
        if UnitTyping(x) !in mid.graph {
          var q := occurrences[|occurrences| - 1].objectQName.value;
          assert q in r.index.danglingEmitted - st.danglingEmitted;
        }
      }
    }
  }

  /** Distinct names have distinct dangling IRIs. */
  lemma DanglingIriInjective(repoName: string, commitSha: string, a: string, b: string)
    ensures DanglingIri(repoName, commitSha, a) == DanglingIri(repoName, commitSha, b) ==> a == b
  {
    var pre := "laco://sym/" + repoName + "/" + commitSha + "/dangling/";
    assert DanglingIri(repoName, commitSha, a) == pre + Quoting.Quote(a);
    assert DanglingIri(repoName, commitSha, b) == pre + Quoting.Quote(b);
    if DanglingIri(repoName, commitSha, a) == DanglingIri(repoName, commitSha, b) {
      assert Quoting.Quote(a) == (pre + Quoting.Quote(a))[|pre|..];
      assert Quoting.Quote(b) == (pre + Quoting.Quote(b))[|pre|..];
      Quoting.QuoteInjective(a, b);
    }
  }

  /** The occurrences of a file declare the dangling unit of `q` (its
      laco:Unit typing) only when `q` was not emitted before and is emitted
      after. */
  lemma OccurrencesDeclareNew(file: Term, occurrences: seq<Occurrence>, acc: Acc, q: string)
    requires acc.index.Valid()
    ensures var r := MapOccurrences(file, occurrences, acc);
      var d := UnitTyping(Iri(DanglingIri(acc.index.repoName, acc.index.commitSha, q)));
      d in r.graph && d !in acc.graph ==>
        q !in acc.index.danglingEmitted && q in r.index.danglingEmitted
  {
    var st := acc.index;
    var r := MapOccurrences(file, occurrences, acc);
    var x := Iri(DanglingIri(st.repoName, st.commitSha, q));
    OccurrencesDeclareOnce(file, occurrences, acc);
    if UnitTyping(x) in r.graph && UnitTyping(x) !in acc.graph {
      var q' :| q' in r.index.danglingEmitted - st.danglingEmitted
                && x == Iri(DanglingIri(st.repoName, st.commitSha, q'));
      DanglingIriInjective(st.repoName, st.commitSha, q, q');
    }
  }

  /** Two files mapped one after the other with a shared index never both
      declare the same dangling unit: the occurrences of the second file
      declare the dangling unit of `q` only if the first file has not
      emitted `q`, and the occurrences of the first declare it only if the
      index had not emitted it before. */
  lemma DanglingDeclaredOnceAcrossFiles(ctx: MappingContext, p1: Payload, p2: Payload, st: IndexState,
                                        blank: nat, q: string)
    requires st.Valid()
    ensures var r1 := MapFile(ctx, p1, st, blank);
      var r2 := MapFile(ctx, p2, r1.index, r1.nextBlank);
      var before1 := Sections(ctx, p1, st, blank).2.graph;
      var before2 := Sections(ctx, p2, r1.index, r1.nextBlank).2.graph;
      var d := UnitTyping(Iri(DanglingIri(st.repoName, st.commitSha, q)));
      && (d in r1.graph && d !in before1 ==> q !in st.danglingEmitted && q in r1.index.danglingEmitted)
      && (d in r2.graph && d !in before2 ==> q !in r1.index.danglingEmitted)
      && !(d in r1.graph && d !in before1 && d in r2.graph && d !in before2)
  {
    var r1 := MapFile(ctx, p1, st, blank);
    var s1 := Sections(ctx, p1, st, blank).2;
    var s2 := Sections(ctx, p2, r1.index, r1.nextBlank).2;
    SectionsKeepIndex(ctx, p1, st, blank);
    SectionsKeepIndex(ctx, p2, r1.index, r1.nextBlank);
    MapFileFrame(ctx, p1, st, blank);
    OccurrencesDeclareNew(Iri(ctx.FileIri(p1.filePath)), p1.occurrences, s1, q);
    OccurrencesDeclareNew(Iri(ctx.FileIri(p2.filePath)), p2.occurrences, s2, q);
  }

  /** The sections before the occurrences leave the index as it was, and
      the file's graph is what the occurrences add to them. */
  lemma SectionsKeepIndex(ctx: MappingContext, p: Payload, st: IndexState, blank: nat)
    ensures var a3 := Sections(ctx, p, st, blank).2;
      a3.index == st
      && MapFile(ctx, p, st, blank) == MapOccurrences(Iri(ctx.FileIri(p.filePath)), p.occurrences, a3)
  {
    var file := Iri(ctx.FileIri(p.filePath));
    var (a1, a2, a3) := Sections(ctx, p, st, blank);
    MapUnitsFrame(ctx, file, p.units, Acc(Header(ctx, p), st, blank));
    MapImportsFrame(ctx, file, p.imports, a1);
    MapExportsFrame(file, p.exports, a2);
  }

  // ------------------------------------------------------- blank nodes

  /** Every blank node in g is numbered in [lo, hi). */
  ghost predicate BlanksWithin(g: Graph, lo: nat, hi: nat) {
    forall t :: t in g ==> (t.s.Blank? ==> lo <= t.s.id < hi) && (t.o.Blank? ==> lo <= t.o.id < hi)
  }

  lemma SpanBlanks(parent: Term, span: Span, node: nat, lo: nat, hi: nat)
    requires parent.Blank? ==> lo <= parent.id < hi
    requires lo <= node < hi
    ensures BlanksWithin(SpanTriples(parent, span, node), lo, hi)
  {
    forall t | t in SpanTriples(parent, span, node)
      ensures (t.s.Blank? ==> lo <= t.s.id < hi) && (t.o.Blank? ==> lo <= t.o.id < hi)
    {
      SpanTriplesShape(parent, span, node, t);
    }
  }

  lemma BlanksUnion(a: Graph, b: Graph, lo: nat, hi: nat)
    requires BlanksWithin(a, lo, hi) && BlanksWithin(b, lo, hi)
    ensures BlanksWithin(a + b, lo, hi)
  {
  }

  lemma BlanksWiden(g: Graph, lo: nat, hi: nat, hi': nat)
    requires hi <= hi' && BlanksWithin(g, lo, hi)
    ensures BlanksWithin(g, lo, hi')
  {
  }

  lemma MapUnitBlanks(ctx: MappingContext, file: Term, u: Unit, acc: Acc, lo: nat)
    requires !file.Blank?
    requires lo <= acc.nextBlank && BlanksWithin(acc.graph, lo, acc.nextBlank)
    ensures var r := MapUnit(ctx, file, u, acc); BlanksWithin(r.graph, lo, r.nextBlank)
  {
    if Declarable(u) {
      var r := MapUnit(ctx, file, u, acc);
      var unitIri := Iri(acc.index.MakeUnitUri(u.symbolId.value));
      var hi := r.nextBlank;
      var core := UnitCore(ctx, unitIri, file, u);
      var extras := UnitExtras(unitIri, u);
      var spanPart := if u.span.Some? then SpanTriples(unitIri, u.span.value, acc.nextBlank) else {};
      assert r.graph == acc.graph + core + extras + spanPart;
      BlanksWiden(acc.graph, lo, acc.nextBlank, hi);
      assert BlanksWithin(core, lo, hi);
      assert BlanksWithin(extras, lo, hi);
      if u.span.Some? {
        SpanBlanks(unitIri, u.span.value, acc.nextBlank, lo, hi);
      }
      BlanksUnion(acc.graph, core, lo, hi);
      BlanksUnion(acc.graph + core, extras, lo, hi);
      BlanksUnion(acc.graph + core + extras, spanPart, lo, hi);
    }
  }

  lemma {:induction false} MapUnitsBlanks(ctx: MappingContext, file: Term, units: seq<Unit>, acc: Acc, lo: nat)
    requires !file.Blank?
    requires lo <= acc.nextBlank && BlanksWithin(acc.graph, lo, acc.nextBlank)
    ensures var r := MapUnits(ctx, file, units, acc); BlanksWithin(r.graph, lo, r.nextBlank)
    decreases |units|
  {
    if units != [] {
      var init := units[..|units| - 1];
      MapUnitsBlanks(ctx, file, init, acc, lo);
      MapUnitsFrame(ctx, file, init, acc);
      MapUnitBlanks(ctx, file, units[|units| - 1], MapUnits(ctx, file, init, acc), lo);
    }
  }

  lemma {:induction false} MapImportsBlanks(ctx: MappingContext, file: Term, imports: seq<Import>, acc: Acc, lo: nat)
    requires !file.Blank?
    requires BlanksWithin(acc.graph, lo, acc.nextBlank)
    ensures var r := MapImports(ctx, file, imports, acc); BlanksWithin(r.graph, lo, r.nextBlank)
    decreases |imports|
  {
    if imports != [] {
      MapImportsBlanks(ctx, file, imports[..|imports| - 1], acc, lo);
      MapImportsFrame(ctx, file, imports[..|imports| - 1], acc);
    }
  }

  lemma {:induction false} MapExportsBlanks(file: Term, exports: seq<Export>, acc: Acc, lo: nat)
    requires !file.Blank?
    requires BlanksWithin(acc.graph, lo, acc.nextBlank)
    ensures var r := MapExports(file, exports, acc); BlanksWithin(r.graph, lo, r.nextBlank)
    decreases |exports|
  {
    if exports != [] {
      MapExportsBlanks(file, exports[..|exports| - 1], acc, lo);
      MapExportsFrame(file, exports[..|exports| - 1], acc);
    }
  }

  /** The dangling declaration an occurrence adds, if any. */
  function DeclOf(obj: Term, declared: Option<string>): Graph {
    if declared.Some? then DanglingDeclaration(obj, declared.value) else {}
  }

  /** The statements about an occurrence's span, if it has one. */
  function SpanPartOf(n: nat, span: Option<Span>): Graph {
    if span.Some? then SpanTriples(Blank(n), span.value, n + 1) else {}
  }

  /** The statements a recorded occurrence adds, part by part. */
  lemma MapOccurrenceParts(file: Term, o: Occurrence, acc: Acc) returns (subject: Term, obj: Term, declared: Option<string>)
    requires Found(acc.index.ForSymbol(o.subjectSymbolId)) && Found(ResolveObject(acc.index, o).obj)
    ensures subject == Iri(acc.index.ForSymbol(o.subjectSymbolId).value)
    ensures obj == Iri(ResolveObject(acc.index, o).obj.value)
    ensures declared.Some? ==> declared == o.objectQName && ResolveObject(acc.index, o).createdDangling
    ensures MapOccurrence(file, o, acc).index.danglingEmitted
            == ResolveObject(acc.index, o).index.danglingEmitted + (if declared.Some? then {declared.value} else {})
    ensures declared.Some? ==> declared.value !in ResolveObject(acc.index, o).index.danglingEmitted
    ensures MapOccurrence(file, o, acc).graph
            == acc.graph + DeclOf(obj, declared) + RelationEdge(subject, RelationOf(o), obj)
               + OccurrenceNode(acc.nextBlank, RelationOf(o), subject, obj, file) + SpanPartOf(acc.nextBlank, o.span)
    ensures MapOccurrence(file, o, acc).nextBlank == if o.span.Some? then acc.nextBlank + 2 else acc.nextBlank + 1
  {
    var res := ResolveObject(acc.index, o);
    subject := Iri(acc.index.ForSymbol(o.subjectSymbolId).value);
    obj := Iri(res.obj.value);
    var declare := res.createdDangling && o.objectQName.Some? && o.objectQName.value !in res.index.danglingEmitted;
    declared := if declare then o.objectQName else None;
  }

  /** The blank nodes of a recorded occurrence: its own node n and, with a
      span, the span's node n + 1. */
  lemma RecordBlanks(g: Graph, subject: Term, obj: Term, file: Term, relation: string,
                     declared: Option<string>, span: Option<Span>, n: nat, lo: nat)
    requires !subject.Blank? && !obj.Blank? && !file.Blank?
    requires lo <= n && BlanksWithin(g, lo, n)
    ensures var hi := if span.Some? then n + 2 else n + 1;
      BlanksWithin(g + DeclOf(obj, declared) + RelationEdge(subject, relation, obj)
                   + OccurrenceNode(n, relation, subject, obj, file) + SpanPartOf(n, span), lo, hi)
  {
    var hi := if span.Some? then n + 2 else n + 1;
    BlanksWiden(g, lo, n, hi);
    assert BlanksWithin(DeclOf(obj, declared), lo, hi);
    EdgeBlanks(subject, relation, obj, lo, hi);
    NodeBlanks(n, relation, subject, obj, file, lo, hi);
    if span.Some? {
      SpanBlanks(Blank(n), span.value, n + 1, lo, hi);
    }
    BlanksUnion5(g, DeclOf(obj, declared), RelationEdge(subject, relation, obj),
                 OccurrenceNode(n, relation, subject, obj, file), SpanPartOf(n, span), lo, hi);
  }

  lemma EdgeBlanks(subject: Term, relation: string, obj: Term, lo: nat, hi: nat)
    requires !subject.Blank? && !obj.Blank?
    ensures BlanksWithin(RelationEdge(subject, relation, obj), lo, hi)
  {
  }

  lemma NodeBlanks(n: nat, relation: string, subject: Term, obj: Term, file: Term, lo: nat, hi: nat)
    requires !subject.Blank? && !obj.Blank? && !file.Blank? && lo <= n < hi
    ensures BlanksWithin(OccurrenceNode(n, relation, subject, obj, file), lo, hi)
  {
  }

  lemma BlanksUnion5(a: Graph, b: Graph, c: Graph, d: Graph, e: Graph, lo: nat, hi: nat)
    requires BlanksWithin(a, lo, hi) && BlanksWithin(b, lo, hi) && BlanksWithin(c, lo, hi)
    requires BlanksWithin(d, lo, hi) && BlanksWithin(e, lo, hi)
    ensures BlanksWithin(a + b + c + d + e, lo, hi)
  {
    BlanksUnion(a, b, lo, hi);
    BlanksUnion(a + b, c, lo, hi);
    BlanksUnion(a + b + c, d, lo, hi);
    BlanksUnion(a + b + c + d, e, lo, hi);
  }

  lemma MapOccurrenceBlanks(file: Term, o: Occurrence, acc: Acc, lo: nat)
    requires !file.Blank?
    requires lo <= acc.nextBlank && BlanksWithin(acc.graph, lo, acc.nextBlank)
    ensures var r := MapOccurrence(file, o, acc); BlanksWithin(r.graph, lo, r.nextBlank)
  {
    if Found(acc.index.ForSymbol(o.subjectSymbolId)) && Found(ResolveObject(acc.index, o).obj) {
      var subject, obj, declared := MapOccurrenceParts(file, o, acc);
      RecordBlanks(acc.graph, subject, obj, file, RelationOf(o), declared, o.span, acc.nextBlank, lo);
    } else {
      assert MapOccurrence(file, o, acc).graph == acc.graph;
      assert MapOccurrence(file, o, acc).nextBlank == acc.nextBlank;
    }
  }

  lemma {:induction false} MapOccurrencesBlanks(file: Term, occurrences: seq<Occurrence>, acc: Acc, lo: nat)
    requires !file.Blank?
    requires lo <= acc.nextBlank && BlanksWithin(acc.graph, lo, acc.nextBlank)
    ensures var r := MapOccurrences(file, occurrences, acc); BlanksWithin(r.graph, lo, r.nextBlank)
    decreases |occurrences|
  {
    if occurrences != [] {
      var init := occurrences[..|occurrences| - 1];
      MapOccurrencesBlanks(file, init, acc, lo);
      MapOccurrencesFrame(file, init, acc);
      MapOccurrenceBlanks(file, occurrences[|occurrences| - 1], MapOccurrences(file, init, acc), lo);
    }
  }

  /** The blank nodes of a file's graph are exactly drawn from the numbers
      the call reserves, [blank, nextBlank): files mapped one after the other
      never share a blank node. */
  lemma MapFileBlanks(ctx: MappingContext, p: Payload, st: IndexState, blank: nat)
    ensures var r := MapFile(ctx, p, st, blank); blank <= r.nextBlank && BlanksWithin(r.graph, blank, r.nextBlank)
  {
    var file := Iri(ctx.FileIri(p.filePath));
    var (a1, a2, a3) := Sections(ctx, p, st, blank);
    MapFileFrame(ctx, p, st, blank);
    MapUnitsFrame(ctx, file, p.units, Acc(Header(ctx, p), st, blank));
    MapImportsFrame(ctx, file, p.imports, a1);
    MapExportsFrame(file, p.exports, a2);
    MapUnitsBlanks(ctx, file, p.units, Acc(Header(ctx, p), st, blank), blank);
    MapImportsBlanks(ctx, file, p.imports, a1, blank);
    MapExportsBlanks(file, p.exports, a2, blank);
    MapOccurrencesBlanks(file, p.occurrences, a3, blank);
  }
}
