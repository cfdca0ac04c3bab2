/** The raw fact record an extractor delivers for one source file, one JSON
    object per file. Every optional JSON member is an Option; a missing
    member and JSON null are both None. The one place where the mapping
    tells them apart is a span: there a member present with value null
    makes `int(None)` raise TypeError, which this record cannot express,
    so such a member is read as missing. */
module Facts {

  import opened Wrappers

  datatype Span = Span(
    startLine: Option<int>,
    endLine: Option<int>,
    startCol: Option<int>,
    endCol: Option<int>)

  datatype Unit = Unit(
    kind: Option<string>,
    name: Option<string>,
    qualifiedName: Option<string>,
    symbolId: Option<string>,
    span: Option<Span>,
    astPath: Option<string>,
    isExportedDefault: Option<bool>,
    isAsync: Option<bool>)

  datatype Import = Import(
    specifier: Option<string>,      // the JSON member "from"
    resolvedKind: Option<string>,
    resolved: Option<string>)

  datatype Export = Export(
    name: Option<string>,
    unitSymbolId: Option<string>)

  datatype Occurrence = Occurrence(
    relation: Option<string>,
    subjectSymbolId: Option<string>,
    objectSymbolId: Option<string>,
    objectQName: Option<string>,
    span: Option<Span>)

  datatype Payload = Payload(
    filePath: string,
    sha256: Option<string>,
    units: seq<Unit>,
    imports: seq<Import>,
    exports: seq<Export>,
    occurrences: seq<Occurrence>,
    hasUseClientDirective: Option<bool>)

  /** Python truthiness of an optional string: present and non-empty. */
  predicate Truthy(s: Option<string>) {
    s.Some? && s.value != []
  }

  /** A unit the index registers and the mapper declares: one that has both a
      symbol id and a qualified name. */
  predicate Declarable(u: Unit) {
    Truthy(u.symbolId) && Truthy(u.qualifiedName)
  }

  /** `str(value)` of an optional string (None prints as "None"). */
  function Str(s: Option<string>): string {
    match s
    case None => "None"
    case Some(v) => v
  }
}
