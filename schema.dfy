/**
 * The fixed vocabulary the populator declares once, at construction: three OWL
 * classes, two object properties and fifteen datatype properties, each
 * property with its domain and range.
 */
module Schema {
  import opened Rdf

  // Classes.
  const SoftwareClass := Sw("Software")
  const ReviewClass := Sw("Review")
  const ReviewerClass := Sw("Reviewer")

  // Object properties.
  const HasReview := Sw("hasReview")
  const MadeBy := Sw("madeBy")

  // Datatype properties.
  const SoftwareIdProp := Sw("software_id")
  const NameProp := Sw("name")
  const PaginaProp := Sw("pagina")
  const FonteProp := Sw("fonte")
  const RecomendacaoProp := Sw("recomendacao")
  const DataAvaliacaoProp := Sw("data_avaliacao")
  const ComentarioProp := Sw("comentario")
  const VantagemProp := Sw("vantagem")
  const DesvantagemProp := Sw("desvantagem")
  const SftAnteriorProp := Sw("sft_anterior")
  const MotivoMudancaProp := Sw("motivo_mudanca")
  const SetorProp := Sw("setor")
  const PorteProp := Sw("porte")
  const FrequenciaProp := Sw("frequencia")
  const FrequenciaComplementarProp := Sw("frequencia_complementar")

  /** A property declaration: the property's local name, its domain class's local name, its range. */
  datatype PropertyDecl = PropertyDecl(name: string, domain: string, range: Term)

  /** The classes, in declaration order. */
  const ClassNames: seq<string> := ["Software", "Review", "Reviewer"]

  /** The object properties, in declaration order. */
  const ObjectProperties: seq<PropertyDecl> := [
    PropertyDecl("hasReview", "Software", ReviewClass),
    PropertyDecl("madeBy", "Review", ReviewerClass)
  ]

  /** The datatype properties, in declaration order. */
  const DatatypeProperties: seq<PropertyDecl> := [
    PropertyDecl("software_id", "Software", XsdString),
    PropertyDecl("name", "Software", XsdString),
    PropertyDecl("pagina", "Software", XsdString),
    PropertyDecl("fonte", "Review", XsdString),
    PropertyDecl("recomendacao", "Review", XsdString),
    PropertyDecl("data_avaliacao", "Review", XsdDate),
    PropertyDecl("comentario", "Review", XsdString),
    PropertyDecl("vantagem", "Review", XsdString),
    PropertyDecl("desvantagem", "Review", XsdString),
    PropertyDecl("sft_anterior", "Review", XsdString),
    PropertyDecl("motivo_mudanca", "Review", XsdString),
    PropertyDecl("setor", "Reviewer", XsdString),
    PropertyDecl("porte", "Reviewer", XsdString),
    PropertyDecl("frequencia", "Reviewer", XsdString),
    PropertyDecl("frequencia_complementar", "Reviewer", XsdString)
  ]

  /** The triple declaring one class. */
  function ClassTriple(name: string): Triple {
    Triple(Sw(name), RdfType, OwlClass)
  }

  /** The three triples declaring one property of the given kind. */
  function DeclTriples(d: PropertyDecl, kind: Term): set<Triple> {
    {Triple(Sw(d.name), RdfType, kind), Triple(Sw(d.name), RdfsDomain, Sw(d.domain)), Triple(Sw(d.name), RdfsRange, d.range)}
  }

  /** The triples declaring every class in `names`. */
  function ClassTriples(names: seq<string>): set<Triple> {
    if names == [] then {} else ClassTriples(names[..|names| - 1]) + {ClassTriple(names[|names| - 1])}
  }

  /** The triples declaring every property in `decls` as a property of the given kind. */
  function PropertyTriples(decls: seq<PropertyDecl>, kind: Term): set<Triple> {
    if decls == [] then {} else PropertyTriples(decls[..|decls| - 1], kind) + DeclTriples(decls[|decls| - 1], kind)
  }

  /** Every schema triple. */
  function SchemaTriples(): set<Triple> {
    ClassTriples(ClassNames)
    + PropertyTriples(ObjectProperties, OwlObjectProperty)
    + PropertyTriples(DatatypeProperties, OwlDatatypeProperty)
  }

  /** The local names of the properties in `decls`. */
  function Names(decls: seq<PropertyDecl>): set<string> {
    set d | d in decls :: d.name
  }

  lemma {:induction false} NamesSize(decls: seq<PropertyDecl>)
    ensures |Names(decls)| <= |decls|
  {
    if decls != [] {
      var init := decls[..|decls| - 1];
      assert Names(decls) == Names(init) + {decls[|decls| - 1].name} by {
        assert decls == init + [decls[|decls| - 1]];
      }
      NamesSize(init);
    }
  }

  /** Every triple of `ClassTriples(names)` declares one of `names` as an OWL class. */
  lemma {:induction false} ClassTriplesShape(names: seq<string>)
    ensures forall t | t in ClassTriples(names) :: t.s.Sw? && t.s.local in names && t.p == RdfType && t.o == OwlClass
  {
    if names != [] {
      ClassTriplesShape(names[..|names| - 1]);
    }
  }

  /** Every triple of `PropertyTriples(decls, kind)` has a property of `decls` as subject, and types it as `kind`. */
  lemma {:induction false} PropertyTriplesShape(decls: seq<PropertyDecl>, kind: Term)
    ensures forall t | t in PropertyTriples(decls, kind) ::
      t.s.Sw? && t.s.local in Names(decls) && (t.p == RdfType ==> t.o == kind)
  {
    if decls != [] {
      var init := decls[..|decls| - 1];
      PropertyTriplesShape(init, kind);
      assert Names(init) <= Names(decls) by {
        forall d | d in init ensures d in decls { }
      }
    }
  }

  /** Distinct class names give one triple each. */
  lemma {:induction false} ClassTriplesSize(names: seq<string>)
    requires |set n | n in names| == |names|
    ensures |ClassTriples(names)| == |names|
  {
    if names != [] {
      var init, last := names[..|names| - 1], names[|names| - 1];
      assert names == init + [last];
      assert (set n | n in names) == (set n | n in init) + {last};
      assert |set n | n in init| <= |init| by {
        SetOfSeqSize(init);
      }
      assert last !in (set n | n in init);
      ClassTriplesSize(init);
      ClassTriplesShape(init);
    }
  }

  lemma {:induction false} SetOfSeqSize(s: seq<string>)
    ensures |set n | n in s| <= |s|
  {
    if s != [] {
      var init := s[..|s| - 1];
      assert s == init + [s[|s| - 1]];
      assert (set n | n in s) == (set n | n in init) + {s[|s| - 1]};
      SetOfSeqSize(init);
    }
  }

  lemma DeclTriplesSize(d: PropertyDecl, kind: Term)
    ensures |DeclTriples(d, kind)| == 3
  {
    var x := Sw(d.name);
    var a, b, c := Triple(x, RdfType, kind), Triple(x, RdfsDomain, Sw(d.domain)), Triple(x, RdfsRange, d.range);
    assert a != b && a != c && b != c;
    assert |{a, b}| == 2;
    assert {a, b, c} == {a, b} + {c};
  }

  /** Adding `x` to `a` grows it by one exactly when `x` is new. */
  lemma AddOneSize<T>(a: set<T>, x: T, n: nat)
    requires |a| <= n && |a + {x}| == n + 1
    ensures x !in a && |a| == n
  {
  }

  /** Properties with distinct names give three triples each. */
  lemma {:induction false} PropertyTriplesSize(decls: seq<PropertyDecl>, kind: Term)
    requires |Names(decls)| == |decls|
    ensures |PropertyTriples(decls, kind)| == 3 * |decls|
  {
    if decls != [] {
      var init, last := decls[..|decls| - 1], decls[|decls| - 1];
      NamesOfInit(decls);
      PropertyTriplesSize(init, kind);
      DeclTriplesFresh(init, last, kind);
      DeclTriplesSize(last, kind);
    }
  }

  /** Distinct names stay distinct without the last declaration, whose name is not among the others. */
  lemma NamesOfInit(decls: seq<PropertyDecl>)
    requires decls != [] && |Names(decls)| == |decls|
    ensures var init := decls[..|decls| - 1];
      |Names(init)| == |init| && decls[|decls| - 1].name !in Names(init)
  {
    var init, last := decls[..|decls| - 1], decls[|decls| - 1];
    assert Names(decls) == Names(init) + {last.name} by {
      assert decls == init + [last];
    }
    NamesSize(init);
    AddOneSize(Names(init), last.name, |init|);
  }

  /** A declaration whose name is new adds triples none of which were there. */
  lemma DeclTriplesFresh(init: seq<PropertyDecl>, last: PropertyDecl, kind: Term)
    requires last.name !in Names(init)
    ensures PropertyTriples(init, kind) !! DeclTriples(last, kind)
  {
    PropertyTriplesShape(init, kind);
    forall t | t in DeclTriples(last, kind) ensures t !in PropertyTriples(init, kind) {
      assert t.s == Sw(last.name);
    }
  }

  lemma ClassSchemaSize()
    ensures |ClassTriples(ClassNames)| == 3
  {
    assert (set n | n in ClassNames) == {"Software", "Review", "Reviewer"};
    ClassTriplesSize(ClassNames);
  }

  lemma ObjectPropertySchemaSize()
    ensures |PropertyTriples(ObjectProperties, OwlObjectProperty)| == 6
  {
    ObjectPropertyNamesAre();
    PropertyTriplesSize(ObjectProperties, OwlObjectProperty);
  }

  /** The local names of the datatype properties, as a set. */
  function DatatypePropertyNameSet(): set<string> {
    {"software_id", "name", "pagina", "fonte", "recomendacao", "data_avaliacao",
     "comentario", "vantagem", "desvantagem", "sft_anterior", "motivo_mudanca",
     "setor", "porte", "frequencia", "frequencia_complementar"}
  }

  lemma DatatypePropertyNameSetSize()
    ensures |DatatypePropertyNameSet()| == 15
  {
    var a := {"software_id", "name", "pagina", "fonte", "recomendacao"};
    var b := {"data_avaliacao", "comentario", "vantagem", "desvantagem", "sft_anterior"};
    var c := {"motivo_mudanca", "setor", "porte", "frequencia", "frequencia_complementar"};
    assert |a| == 5 && |b| == 5 && |c| == 5;
    assert a !! b && a !! c && b !! c;
    assert DatatypePropertyNameSet() == a + b + c;
  }

  lemma DatatypePropertyNamesAre()
    ensures Names(DatatypeProperties) == DatatypePropertyNameSet()
  {
    DatatypePropertyNamesWithin();
    NamesWithin(DatatypeProperties, DatatypePropertyNameSet());
    DatatypePropertyNamesDeclared();
  }

  lemma DatatypePropertyNamesWithin()
    ensures forall i | 0 <= i < |DatatypeProperties| :: DatatypeProperties[i].name in DatatypePropertyNameSet()
  {
  }

  lemma NamesWithin(ds: seq<PropertyDecl>, names: set<string>)
    requires forall i | 0 <= i < |ds| :: ds[i].name in names
    ensures Names(ds) <= names
  {
    forall n | n in Names(ds) ensures n in names {
      var d :| d in ds && d.name == n;
      var i :| 0 <= i < |ds| && ds[i] == d;
    }
  }

  /** The name of each declaration is among the names. */
  lemma NameAt(ds: seq<PropertyDecl>, i: nat)
    requires i < |ds|
    ensures ds[i].name in Names(ds)
  {
    assert ds[i] in ds;
  }

  /** The datatype properties in declaration order, five at a time. */
  lemma FirstDatatypePropertyNames()
    ensures var ds := DatatypeProperties;
      && ds[0].name == "software_id" && ds[1].name == "name" && ds[2].name == "pagina"
      && ds[3].name == "fonte" && ds[4].name == "recomendacao"
  {
  }

  lemma MiddleDatatypePropertyNames()
    ensures var ds := DatatypeProperties;
      && ds[5].name == "data_avaliacao" && ds[6].name == "comentario" && ds[7].name == "vantagem"
      && ds[8].name == "desvantagem" && ds[9].name == "sft_anterior"
  {
  }

  lemma LastDatatypePropertyNames()
    ensures var ds := DatatypeProperties;
      && ds[10].name == "motivo_mudanca" && ds[11].name == "setor" && ds[12].name == "porte"
      && ds[13].name == "frequencia" && ds[14].name == "frequencia_complementar"
  {
  }

  /** Every one of the fifteen names is declared. */
  lemma DatatypePropertyNamesDeclared()
    ensures DatatypePropertyNameSet() <= Names(DatatypeProperties)
  {
    FirstDatatypePropertyNames();
    MiddleDatatypePropertyNames();
    LastDatatypePropertyNames();
    forall i | 0 <= i < |DatatypeProperties| ensures DatatypeProperties[i].name in Names(DatatypeProperties) {
      NameAt(DatatypeProperties, i);
    }
  }

  /** The fifteen datatype properties have distinct names. */
  lemma DatatypePropertyNames()
    ensures |Names(DatatypeProperties)| == 15
  {
    DatatypePropertyNamesAre();
    DatatypePropertyNameSetSize();
  }

  lemma DatatypePropertySchemaSize()
    ensures |PropertyTriples(DatatypeProperties, OwlDatatypeProperty)| == 45
  {
    DatatypePropertyNames();
    PropertyTriplesSize(DatatypeProperties, OwlDatatypeProperty);
  }

  /** No object property shares its name with a datatype property. */
  lemma PropertyNamesDisjoint()
    ensures Names(ObjectProperties) !! Names(DatatypeProperties)
  {
    ObjectPropertyNamesAre();
    DatatypePropertyNamesAre();
    forall n | n in Names(ObjectProperties) ensures n !in Names(DatatypeProperties) {
      ObjectPropertyNameNotDatatype(n);
    }
  }

  lemma ObjectPropertyNamesAre()
    ensures Names(ObjectProperties) == {"hasReview", "madeBy"}
  {
  }

  lemma ObjectPropertyNameNotDatatype(n: string)
    requires n == "hasReview" || n == "madeBy"
    ensures n !in DatatypePropertyNameSet()
  {
  }

  /** A class triple is never a property triple: its object is `owl:Class`. */
  lemma ClassAndPropertyTriplesDisjoint(decls: seq<PropertyDecl>, kind: Term)
    requires kind != OwlClass
    ensures ClassTriples(ClassNames) !! PropertyTriples(decls, kind)
  {
    ClassTriplesShape(ClassNames);
    PropertyTriplesShape(decls, kind);
  }

  /**
   * The schema holds 3 class triples, 6 object-property triples and 45
   * datatype-property triples, 54 distinct triples in all.
   */
  lemma SchemaSize()
    ensures |ClassTriples(ClassNames)| == 3
    ensures |PropertyTriples(ObjectProperties, OwlObjectProperty)| == 6
    ensures |PropertyTriples(DatatypeProperties, OwlDatatypeProperty)| == 45
    ensures |SchemaTriples()| == 54
  {
    ClassSchemaSize();
    ObjectPropertySchemaSize();
    DatatypePropertySchemaSize();
    var c, o, d := ClassTriples(ClassNames), PropertyTriples(ObjectProperties, OwlObjectProperty),
      PropertyTriples(DatatypeProperties, OwlDatatypeProperty);
    ClassAndPropertyTriplesDisjoint(ObjectProperties, OwlObjectProperty);
    ClassAndPropertyTriplesDisjoint(DatatypeProperties, OwlDatatypeProperty);
    assert o !! d by {
      PropertyTriplesShape(ObjectProperties, OwlObjectProperty);
      PropertyTriplesShape(DatatypeProperties, OwlDatatypeProperty);
      PropertyNamesDisjoint();
    }
    assert |c + o| == 9;
  }

  /**
   * A property of terms that holds of every subject and object of the schema
   * when it holds of every name, domain and range the declarations mention.
   */
  lemma {:induction false} PropertyTriplesTerms(decls: seq<PropertyDecl>, kind: Term, P: Term -> bool)
    requires P(kind)
    requires forall d | d in decls :: P(Sw(d.name)) && P(Sw(d.domain)) && P(d.range)
    ensures forall t | t in PropertyTriples(decls, kind) :: P(t.s) && P(t.o)
  {
    if decls != [] {
      PropertyTriplesTerms(decls[..|decls| - 1], kind, P);
    }
  }

  lemma {:induction false} ClassTriplesTerms(names: seq<string>, P: Term -> bool)
    requires P(OwlClass)
    requires forall n | n in names :: P(Sw(n))
    ensures forall t | t in ClassTriples(names) :: P(t.s) && P(t.o)
  {
    if names != [] {
      ClassTriplesTerms(names[..|names| - 1], P);
    }
  }

  /** Every `rdf:type` triple of the schema declares a class or a property, never an instance. */
  lemma SchemaTypesAreDeclarations()
    ensures forall t | t in SchemaTriples() && t.p == RdfType :: t.o in {OwlClass, OwlObjectProperty, OwlDatatypeProperty}
  {
    ClassTriplesTypes(ClassNames);
    PropertyTriplesTypes(ObjectProperties, OwlObjectProperty);
    PropertyTriplesTypes(DatatypeProperties, OwlDatatypeProperty);
  }

  lemma {:induction false} ClassTriplesTypes(names: seq<string>)
    ensures forall t | t in ClassTriples(names) :: t.p == RdfType && t.o == OwlClass
  {
    if names != [] {
      ClassTriplesTypes(names[..|names| - 1]);
    }
  }

  lemma {:induction false} PropertyTriplesTypes(decls: seq<PropertyDecl>, kind: Term)
    ensures forall t | t in PropertyTriples(decls, kind) && t.p == RdfType :: t.o == kind
  {
    if decls != [] {
      PropertyTriplesTypes(decls[..|decls| - 1], kind);
    }
  }

  /** The schema only types resources and gives properties a domain and a range. */
  lemma SchemaPredicates()
    ensures forall t | t in SchemaTriples() :: t.p == RdfType || t.p == RdfsDomain || t.p == RdfsRange
  {
    ClassTriplesTypes(ClassNames);
    PropertyTriplesPredicates(ObjectProperties, OwlObjectProperty);
    PropertyTriplesPredicates(DatatypeProperties, OwlDatatypeProperty);
  }

  lemma {:induction false} PropertyTriplesPredicates(decls: seq<PropertyDecl>, kind: Term)
    ensures forall t | t in PropertyTriples(decls, kind) :: t.p == RdfType || t.p == RdfsDomain || t.p == RdfsRange
  {
    if decls != [] {
      PropertyTriplesPredicates(decls[..|decls| - 1], kind);
    }
  }
}
