/**
 * The populator object itself: a triple store and a reviewer cache that its
 * methods update in place. Each method is proved to change the two fields
 * exactly as the matching function of module Ingestion says, so every
 * property proved there about the functions holds of the object.
 */
module Populator {
  import opened Wrappers
  import opened Rdf
  import opened Schema
  import opened Ingestion
  import opened StepProperties
  import opened IngestProperties

  class CsvOntologyPopulator {
    /** The RDF graph, a set of triples. */
    var graph: set<Triple>
    /** Reviewer attribute tuple to the reviewer resource minted for it. */
    var reviewerCache: map<ReviewerKey, Term>

    /** The two fields, as a value. */
    function Snapshot(): State
      reads this
    {
      State(graph, reviewerCache)
    }

    /** The object invariant: the cache and the reviewer resources in the graph agree. */
    ghost predicate Valid()
      reads this
    {
      Ingestion.Valid(Snapshot())
    }

    /** A new populator: the schema declared, no instance yet, an empty cache. */
    constructor ()
      ensures Snapshot() == Initial()
      ensures Valid()
    {
      graph := {};
      new;
      InitializeOntology();
      reviewerCache := map[];
      assert Snapshot() == Initial();
      assert Ingestion.Valid(Initial()) by {
        InitialState();
      }
    }

    /** Declares the classes, then the object properties, then the datatype properties. */
    method InitializeOntology()
      modifies this
      ensures graph == old(graph) + SchemaTriples()
      ensures reviewerCache == old(reviewerCache)
    {
      DeclareClasses(ClassNames);
      DeclareProperties(ObjectProperties, OwlObjectProperty);
      DeclareProperties(DatatypeProperties, OwlDatatypeProperty);
    }

    /** One `owl:Class` triple per name, in order. */
    method DeclareClasses(names: seq<string>)
      modifies this
      ensures graph == old(graph) + ClassTriples(names)
      ensures reviewerCache == old(reviewerCache)
    {
      for i := 0 to |names|
        invariant graph == old(graph) + ClassTriples(names[..i])
        invariant reviewerCache == old(reviewerCache)
      {
        assert names[..i + 1][..i] == names[..i];
        graph := graph + {Triple(Sw(names[i]), RdfType, OwlClass)};
      }
      assert names[..|names|] == names;
    }

    /** The type, domain and range triples of each property, in order. */
    method DeclareProperties(decls: seq<PropertyDecl>, kind: Term)
      modifies this
      ensures graph == old(graph) + PropertyTriples(decls, kind)
      ensures reviewerCache == old(reviewerCache)
    {
      for i := 0 to |decls|
        invariant graph == old(graph) + PropertyTriples(decls[..i], kind)
        invariant reviewerCache == old(reviewerCache)
      {
        assert decls[..i + 1][..i] == decls[..i];
        var d := decls[i];
        ghost var before := graph;
        graph := graph + {Triple(Sw(d.name), RdfType, kind)};
        graph := graph + {Triple(Sw(d.name), RdfsDomain, Sw(d.domain))};
        graph := graph + {Triple(Sw(d.name), RdfsRange, d.range)};
        assert graph == before + DeclTriples(d, kind);
      }
      assert decls[..|decls|] == decls;
    }

    /** The reviewer with these four attributes: the cached one, or a new `reviewer_<n+1>`. */
    method GetOrCreateReviewer(setor: string, porte: string, frequencia: string, frequenciaComplementar: string)
      returns (reviewer: Term)
      modifies this
      ensures (Snapshot(), reviewer) == ReviewerStep(old(Snapshot()), ReviewerKey(setor, porte, frequencia, frequenciaComplementar))
    {
      var key := ReviewerKey(setor, porte, frequencia, frequenciaComplementar);
      if key in reviewerCache {
        return reviewerCache[key];
      }
      reviewer := ReviewerUri(|reviewerCache| + 1);
      graph := graph + {Triple(reviewer, RdfType, ReviewerClass)};
      graph := graph + {Triple(reviewer, SetorProp, Lit(setor))};
      graph := graph + {Triple(reviewer, PorteProp, Lit(porte))};
      graph := graph + {Triple(reviewer, FrequenciaProp, Lit(frequencia))};
      graph := graph + {Triple(reviewer, FrequenciaComplementarProp, Lit(frequenciaComplementar))};
      reviewerCache := reviewerCache[key := reviewer];
      assert graph == old(graph) + ReviewerTriples(reviewer, key);
    }

    /** The software `software_<id>`, created with its id, name and (if truthy) page unless already typed. */
    method GetOrCreateSoftware(softwareId: string, name: string, pagina: Option<string>) returns (software: Term)
      modifies this
      ensures (Snapshot(), software) == SoftwareStep(old(Snapshot()), softwareId, name, pagina)
    {
      software := SoftwareUri(softwareId);
      if Triple(software, RdfType, SoftwareClass) !in graph {
        graph := graph + {Triple(software, RdfType, SoftwareClass)};
        graph := graph + {Triple(software, SoftwareIdProp, Lit(softwareId))};
        graph := graph + {Triple(software, NameProp, Lit(name))};
        if Truthy(pagina) {
          graph := graph + {Triple(software, PaginaProp, Lit(pagina.value))};
        }
        assert graph == old(graph) + SoftwareTriples(software, softwareId, name, pagina);
      }
    }

    /**
     * The body of the `process_csv` loop for the row numbered `k`. A lookup of
     * a column the row lacks ends the row at once, reported for that column;
     * what the earlier lookups added stays.
     */
    method ProcessRow(k: nat, row: Row, parseDate: string -> Option<Date>, today: Date) returns (outcome: RowOutcome)
      modifies this
      ensures (Snapshot(), outcome) == RowStep(old(Snapshot()), k, row, parseDate, today)
    {
      if "software_id" !in row {
        return Skipped("software_id");
      }
      var software := GetOrCreateSoftware(row["software_id"], SoftwareName(row), Get(row, "pagina"));
      var missing := FirstMissing(row, ReviewerColumns);
      if missing.Some? {
        return Skipped(missing.value);
      }
      var reviewer := GetOrCreateReviewer(row["setor"], row["porte"], row["frequencia"], row["frequencia_complementar"]);
      var review := ReviewUri(k);
      if "data_avaliacao" !in row {
        return Skipped("data_avaliacao");
      }
      var date := match parseDate(row["data_avaliacao"]) case Some(d) => d case None => today;
      outcome := AddReview(review, software, reviewer, row, date);
    }

    /**
     * The review triples of one row, in source order, up to the first attribute
     * column the row lacks. They are collected in `added` and put into the
     * graph when the row ends, normally or at the failed lookup.
     */
    method AddReview(review: Term, software: Term, reviewer: Term, row: Row, date: Date) returns (outcome: RowOutcome)
      modifies this
      ensures graph == old(graph) + ReviewTriples(review, software, reviewer, row, date).0
      ensures outcome == ReviewTriples(review, software, reviewer, row, date).1
      ensures reviewerCache == old(reviewerCache)
    {
      var added := {Triple(review, RdfType, ReviewClass)};
      if "fonte" !in row {
        graph := graph + added;
        return Skipped("fonte");
      }
      added := added + {Triple(review, FonteProp, Lit(row["fonte"]))};
      if "recomendacao" !in row {
        graph := graph + added;
        return Skipped("recomendacao");
      }
      added := added + {Triple(review, RecomendacaoProp, Lit(row["recomendacao"])), Triple(review, DataAvaliacaoProp, DateLit(date))};
      if "comentario" !in row {
        graph := graph + added;
        return Skipped("comentario");
      }
      added := added + {Triple(review, ComentarioProp, Lit(row["comentario"]))};
      if "vantagem" !in row {
        graph := graph + added;
        return Skipped("vantagem");
      }
      added := added + {Triple(review, VantagemProp, Lit(row["vantagem"]))};
      if "desvantagem" !in row {
        graph := graph + added;
        return Skipped("desvantagem");
      }
      added := added + {Triple(review, DesvantagemProp, Lit(row["desvantagem"]))};
      var optional: set<Triple> := {};
      if Truthy(Get(row, "sft_anterior")) {
        optional := optional + {Triple(review, SftAnteriorProp, Lit(row["sft_anterior"]))};
      }
      if Truthy(Get(row, "motivo_mudanca")) {
        optional := optional + {Triple(review, MotivoMudancaProp, Lit(row["motivo_mudanca"]))};
      }
      added := added + optional;
      added := added + {Triple(software, HasReview, review), Triple(review, MadeBy, reviewer)};
      graph := graph + added;
      outcome := Ingested;
    }

    /**
     * `process_csv` over the rows of one file, numbered from 1: every row goes
     * through the row body in order, and each skipped row is reported with
     * its number and the column it lacks.
     */
    method ProcessCsv(rows: seq<Row>, parseDate: string -> Option<Date>, today: Date) returns (errors: seq<RowError>)
      modifies this
      ensures (Snapshot(), errors) == Ingest(old(Snapshot()), rows, 1, parseDate, today)
      ensures errors == RowErrors(rows, 1)
      ensures old(Valid()) ==> Valid()
    {
      ghost var start := Snapshot();
      errors := [];
      for i := 0 to |rows|
        invariant (Snapshot(), errors) == Ingest(start, rows[..i], 1, parseDate, today)
      {
        errors := ProcessNumberedRow(start, rows, i, parseDate, today, errors);
      }
      assert rows[..|rows|] == rows;
      IngestErrors(start, rows, 1, parseDate, today);
      if old(Valid()) {
        IngestPreservesValid(start, rows, 1, parseDate, today);
      }
    }

    /**
     * One turn of the `process_csv` loop: row `i` of `rows`, numbered `i + 1`,
     * goes through the row body and, if skipped, is reported.
     */
    method ProcessNumberedRow(ghost start: State, rows: seq<Row>, i: nat, parseDate: string -> Option<Date>, today: Date,
                              errors: seq<RowError>) returns (errors': seq<RowError>)
      requires i < |rows|
      requires (Snapshot(), errors) == Ingest(start, rows[..i], 1, parseDate, today)
      modifies this
      ensures (Snapshot(), errors') == Ingest(start, rows[..i + 1], 1, parseDate, today)
    {
      ghost var before := Snapshot();
      var outcome := ProcessRow(i + 1, rows[i], parseDate, today);
      errors' := errors;
      if outcome.Skipped? {
        errors' := errors + [MissingColumn(i + 1, outcome.column)];
      }
      assert errors' == errors + OutcomeErrors(1 + i, outcome);
      IngestStep(start, rows, 1, parseDate, today, i, before, errors, Snapshot(), outcome);
    }

    /** The three counts `print_statistics` reports: typed software, reviews and reviewers. */
    method PrintStatistics() returns (softwareCount: nat, reviewCount: nat, reviewerCount: nat)
      ensures softwareCount == |SubjectsOfType(graph, SoftwareClass)|
      ensures reviewCount == |SubjectsOfType(graph, ReviewClass)|
      ensures reviewerCount == |SubjectsOfType(graph, ReviewerClass)|
      ensures Valid() ==> reviewerCount == |reviewerCache|
    {
      softwareCount := |SubjectsOfType(graph, SoftwareClass)|;
      reviewCount := |SubjectsOfType(graph, ReviewClass)|;
      reviewerCount := |SubjectsOfType(graph, ReviewerClass)|;
      if Valid() {
        ReviewerCountIsCacheSize(Snapshot());
      }
    }
  }
}
