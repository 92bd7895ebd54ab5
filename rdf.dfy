/**
 * The RDF vocabulary the populator writes: resources in its own namespace, the
 * handful of RDF, RDFS, OWL and XSD terms it uses, string and date literals,
 * and graphs as sets of triples (an rdflib `Graph` has set semantics).
 */
module Rdf {

  /** A calendar date, as Python's `datetime.date`. */
  datatype Date = Date(year: int, month: int, day: int)

  datatype Term =
    | Sw(local: string)    // http://www.example.org/software-review#<local>
    | RdfType              // rdf:type
    | RdfsDomain           // rdfs:domain
    | RdfsRange            // rdfs:range
    | OwlClass             // owl:Class
    | OwlObjectProperty    // owl:ObjectProperty
    | OwlDatatypeProperty  // owl:DatatypeProperty
    | XsdString            // xsd:string
    | XsdDate              // xsd:date
    | Lit(text: string)    // a plain string literal
    | DateLit(date: Date)  // a literal typed xsd:date

  datatype Triple = Triple(s: Term, p: Term, o: Term)

  /** The subjects `x` with a triple `x rdf:type cls` in `g`. */
  function SubjectsOfType(g: set<Triple>, cls: Term): (xs: set<Term>)
    ensures forall x :: x in xs <==> Triple(x, RdfType, cls) in g
  {
    set t | t in g && t.p == RdfType && t.o == cls :: t.s
  }

  /** Adding triples whose only `cls`-typed subject is `x` adds `x` to the subjects of that type. */
  lemma SubjectsOfTypeAddOne(g: set<Triple>, added: set<Triple>, cls: Term, x: Term)
    requires Triple(x, RdfType, cls) in added
    requires forall t | t in added :: t.p == RdfType && t.o == cls ==> t.s == x
    ensures SubjectsOfType(g + added, cls) == SubjectsOfType(g, cls) + {x}
  {
    forall y ensures Triple(y, RdfType, cls) in g + added <==> Triple(y, RdfType, cls) in g || y == x {
      if y != x {
        assert Triple(y, RdfType, cls) !in added;
      }
    }
  }

  /** Adding triples none of which types anything as `cls` leaves the subjects of that type alone. */
  lemma SubjectsOfTypeUnchanged(g: set<Triple>, added: set<Triple>, cls: Term)
    requires forall t | t in added :: t.p == RdfType ==> t.o != cls
    ensures SubjectsOfType(g + added, cls) == SubjectsOfType(g, cls)
  {
    forall x ensures Triple(x, RdfType, cls) in g + added <==> Triple(x, RdfType, cls) in g {
      assert Triple(x, RdfType, cls) !in added;
    }
  }
}
