/** RDF terms, triples and graphs, and the vocabulary the compiler writes.
    A graph is a set of triples; blank nodes are numbered from a counter. */
module Rdf {

  datatype Term =
    | Iri(iri: string)
    | Lit(text: string)     // plain string literal
    | BoolLit(b: bool)      // xsd:boolean literal
    | IntLit(n: int)        // xsd:integer literal
    | Blank(id: nat)        // blank node

  datatype Triple = Triple(s: Term, p: Term, o: Term)

  type Graph = set<Triple>

  const RdfNs := "http://www.w3.org/1999/02/22-rdf-syntax-ns#"
  const LacoNs := "https://example.org/laco#"
  const NextNs := "https://example.org/next#"
  const DctNs := "http://purl.org/dc/terms/"
  const TsNs := "https://example.org/laco/ts#"

  function Laco(local: string): Term { Iri(LacoNs + local) }
  function Next(local: string): Term { Iri(NextNs + local) }
  function Ts(local: string): Term { Iri(TsNs + local) }

  const RdfType := Iri(RdfNs + "type")
  const DctPath := Iri(DctNs + "path")
  const DctTitle := Iri(DctNs + "title")

  /** Decimal digits of an integer, as `str(n)` writes them. */
  function DecimalString(n: int): string
    decreases if n < 0 then -n + 1 else n
  {
    if n < 0 then "-" + DecimalString(-n)
    else if n < 10 then [('0' as int + n) as char]
    else DecimalString(n / 10) + [('0' as int + n % 10) as char]
  }

  /** `str(term)`: the lexical form of a term. */
  function Text(t: Term): string {
    match t
    case Iri(s) => s
    case Lit(s) => s
    case BoolLit(b) => if b then "true" else "false"
    case IntLit(n) => DecimalString(n)
    case Blank(id) => "N" + DecimalString(id)
  }

  /** The objects of (s, p, _) in g. */
  function Objects(g: Graph, s: Term, p: Term): (r: set<Term>)
    ensures forall o :: o in r <==> Triple(s, p, o) in g
  {
    set t | t in g && t.s == s && t.p == p :: t.o
  }

  /** The subjects of (_, p, o) in g. */
  function Subjects(g: Graph, p: Term, o: Term): (r: set<Term>)
    ensures forall s :: s in r <==> Triple(s, p, o) in g
  {
    set t | t in g && t.p == p && t.o == o :: t.s
  }

  /** Every blank node g mentions is numbered below n. */
  ghost predicate BlanksBelow(g: Graph, n: nat) {
    forall t :: t in g ==> (t.s.Blank? ==> t.s.id < n) && (t.o.Blank? ==> t.o.id < n)
  }

  /** Local names in the laco namespace name distinct terms. */
  lemma LacoInjective(a: string, b: string)
    ensures Laco(a) == Laco(b) ==> a == b
  {
    assert a == (LacoNs + a)[|LacoNs|..];
    assert b == (LacoNs + b)[|LacoNs|..];
  }

  /** Local names in the Next.js namespace name distinct terms. */
  lemma NextInjective(a: string, b: string)
    ensures Next(a) == Next(b) ==> a == b
  {
    assert a == (NextNs + a)[|NextNs|..];
    assert b == (NextNs + b)[|NextNs|..];
  }

  /** `rdf:type` is not a term of the Next.js namespace. */
  lemma TypeNotNext(a: string)
    ensures RdfType != Next(a)
  {
    assert (RdfNs + "type")[4] != (NextNs + a)[4];
  }

  /** `rdf:type` is not a term of the laco namespace. */
  lemma TypeNotLaco(a: string)
    ensures RdfType != Laco(a)
  {
    assert (RdfNs + "type")[4] != (LacoNs + a)[4];
  }

  /** The TypeScript namespace and the laco namespace share no term. */
  lemma TsNotLaco(a: string, b: string)
    ensures Ts(a) != Laco(b)
  {
    assert (TsNs + a)[24] != (LacoNs + b)[24];
  }

  /** `rdf:type` is not a term of the TypeScript namespace. */
  lemma TypeNotTs(a: string)
    ensures RdfType != Ts(a)
  {
    assert (RdfNs + "type")[4] != (TsNs + a)[4];
  }
}
