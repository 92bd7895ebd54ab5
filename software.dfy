/**
 * What a whole run says about one software: the resource `software_<id>` is
 * described by the first row that carries `id`. Later rows with the same id
 * find its type triple and leave its id, name and page as they were.
 */
module SoftwareProperties {
  import opened Wrappers
  import opened Rdf
  import opened Schema
  import opened Ingestion
  import opened StepProperties
  import opened IngestProperties

  /** The row names the software `id`. */
  predicate HasId(row: Row, id: string) {
    "software_id" in row && row["software_id"] == id
  }

  /** The id, name and page triples that `g` holds about `uri`. */
  function Attributes(g: set<Triple>, uri: Term): set<Triple> {
    set t | t in g && t.s == uri && (t.p == SoftwareIdProp || t.p == NameProp || t.p == PaginaProp)
  }

  /** `uri` is typed Software in `g`, which is what the software step looks for. */
  predicate Typed(g: set<Triple>, uri: Term) {
    Triple(uri, RdfType, SoftwareClass) in g
  }

  /** The index of the first row that names the software `id`. */
  ghost function FirstWith(rows: seq<Row>, id: string): (j: nat)
    requires id in SoftwareIds(rows)
    ensures j < |rows| && HasId(rows[j], id)
    ensures forall j' | 0 <= j' < j :: !HasId(rows[j'], id)
    decreases |rows|
  {
    if HasId(rows[0], id) then 0
    else
      assert id in SoftwareIds(rows[1..]) by {
        var i :| 0 <= i < |rows| && "software_id" in rows[i] && rows[i]["software_id"] == id;
        assert rows[1..][i - 1] == rows[i];
      }
      1 + FirstWith(rows[1..], id)
  }

  /**
   * For every software of a run from the freshly built ontology, the id, name
   * and page triples of `software_<id>` are exactly those the software step
   * wrote for the first row with that id: the name and page of any later row
   * with the same id are ignored.
   */
  lemma FirstRowWins(rows: seq<Row>, first: nat, parseDate: string -> Option<Date>, today: Date, id: string)
    requires id in SoftwareIds(rows)
    ensures var j := FirstWith(rows, id);
      Attributes(Ingest(Initial(), rows, first, parseDate, today).0.graph, SoftwareUri(id)) ==
      Attributes(SoftwareTriples(SoftwareUri(id), id, SoftwareName(rows[j]), Get(rows[j], "pagina")), SoftwareUri(id))
  {
    var j := FirstWith(rows, id);
    var st := Initial();
    InitialUndescribed(SoftwareUri(id));
    FirstRowAttributes(st, rows, first, parseDate, today, id, j, |rows|);
    assert rows[..|rows|] == rows;
  }

  /**
   * From a state where `software_<id>` is neither typed nor described, and
   * with `j` the first row naming `id`: before row `j` the prefix leaves it
   * so, and from row `j` on it is typed and described by row `j`.
   */
  lemma {:induction false} FirstRowAttributes(st: State, rows: seq<Row>, first: nat, parseDate: string -> Option<Date>,
                                              today: Date, id: string, j: nat, i: nat)
    requires j < |rows| && HasId(rows[j], id) && forall j' | 0 <= j' < j :: !HasId(rows[j'], id)
    requires Attributes(st.graph, SoftwareUri(id)) == {} && !Typed(st.graph, SoftwareUri(id))
    requires i <= |rows|
    ensures DescribedAfter(Ingest(st, rows[..i], first, parseDate, today).0.graph, rows, id, j, i)
    decreases i
  {
    if i == 0 {
      assert rows[..0] == [];
    } else {
      var n: nat := i - 1;
      FirstRowAttributes(st, rows, first, parseDate, today, id, j, n);
      var before := Ingest(st, rows[..n], first, parseDate, today).0;
      IngestNext(st, rows, first, parseDate, today, n);
      DescribedStep(before, Ingest(st, rows[..i], first, parseDate, today).0.graph, first + n, rows, parseDate, today, id, j, n);
    }
  }

  /** The state after `n + 1` rows is the row body applied to the state after `n` rows. */
  lemma IngestNext(st: State, rows: seq<Row>, first: nat, parseDate: string -> Option<Date>, today: Date, n: nat)
    requires n < |rows|
    ensures Ingest(st, rows[..n + 1], first, parseDate, today).0.graph ==
      RowStep(Ingest(st, rows[..n], first, parseDate, today).0, first + n, rows[n], parseDate, today).0.graph
  {
    var (before, errors) := Ingest(st, rows[..n], first, parseDate, today);
    var (after, outcome) := RowStep(before, first + n, rows[n], parseDate, today);
    IngestStep(st, rows, first, parseDate, today, n, before, errors, after, outcome);
  }

  /** The freshly built ontology neither types nor describes any software. */
  lemma InitialUndescribed(uri: Term)
    ensures Attributes(Initial().graph, uri) == {} && !Typed(Initial().graph, uri)
  {
    SchemaPredicates();
    SchemaTypesAreDeclarations();
  }

  /**
   * What the first `i` rows leave of `software_<id>`, whose first row is `j`:
   * nothing before row `j` is processed, and afterwards its type and the id,
   * name and page triples of row `j`.
   */
  ghost predicate DescribedAfter(g: set<Triple>, rows: seq<Row>, id: string, j: nat, i: nat)
    requires j < |rows| && HasId(rows[j], id)
  {
    && (i <= j ==> Attributes(g, SoftwareUri(id)) == {} && !Typed(g, SoftwareUri(id)))
    && (j < i ==> Typed(g, SoftwareUri(id)))
    && (j < i ==>
          Attributes(g, SoftwareUri(id)) ==
          Attributes(SoftwareTriples(SoftwareUri(id), id, SoftwareName(rows[j]), Get(rows[j], "pagina")), SoftwareUri(id)))
  }

  lemma DescribedStep(st: State, g': set<Triple>, k: nat, rows: seq<Row>, parseDate: string -> Option<Date>, today: Date,
                      id: string, j: nat, n: nat)
    requires j < |rows| && HasId(rows[j], id) && forall j' | 0 <= j' < j :: !HasId(rows[j'], id)
    requires n < |rows| && DescribedAfter(st.graph, rows, id, j, n)
    requires g' == RowStep(st, k, rows[n], parseDate, today).0.graph
    ensures DescribedAfter(g', rows, id, j, n + 1)
  {
    RowStepAttributes(st, k, rows[n], parseDate, today, id);
  }

  /**
   * One row body and the software `id`: a row naming another software, or
   * none, leaves its triples as they were; a row naming it types it, and
   * adds its id, name and page only when it was not typed before.
   */
  lemma RowStepAttributes(st: State, k: nat, row: Row, parseDate: string -> Option<Date>, today: Date, id: string)
    ensures var uri := SoftwareUri(id);
      var g := st.graph;
      var g' := RowStep(st, k, row, parseDate, today).0.graph;
      && (!HasId(row, id) ==> Attributes(g', uri) == Attributes(g, uri) && (Typed(g', uri) <==> Typed(g, uri)))
      && (HasId(row, id) ==> Typed(g', uri))
      && (HasId(row, id) && Typed(g, uri) ==> Attributes(g', uri) == Attributes(g, uri))
      && (HasId(row, id) && !Typed(g, uri) ==>
            Attributes(g', uri) == Attributes(g, uri) + Attributes(SoftwareTriples(uri, id, SoftwareName(row), Get(row, "pagina")), uri))
  {
    var uri := SoftwareUri(id);
    var g' := RowStep(st, k, row, parseDate, today).0.graph;
    MintedUrisDistinct(id, 0, 0);
    if "software_id" in row {
      var g1 := SoftwareStep(st, row["software_id"], SoftwareName(row), Get(row, "pagina")).0.graph;
      assert Attributes(g', uri) == Attributes(g1, uri) && (Typed(g', uri) <==> Typed(g1, uri)) by {
        RowStepAfterSoftware(st, k, row, parseDate, today);
        AttributesKept(g1, g', uri);
      }
      SoftwareStepAttributes(st, row["software_id"], SoftwareName(row), Get(row, "pagina"), id);
    } else {
      assert g' == st.graph;
    }
  }

  /**
   * The software step for `other` and the software `id`: another id leaves the
   * triples of `software_<id>` as they were; the same id types it, and adds its
   * id, name and page only when it was not typed before.
   */
  lemma SoftwareStepAttributes(st: State, other: string, name: string, pagina: Option<string>, id: string)
    ensures var uri := SoftwareUri(id);
      var g := st.graph;
      var g1 := SoftwareStep(st, other, name, pagina).0.graph;
      && (other != id ==> Attributes(g1, uri) == Attributes(g, uri) && (Typed(g1, uri) <==> Typed(g, uri)))
      && (other == id ==> Typed(g1, uri))
      && (other == id && Typed(g, uri) ==> g1 == g)
      && (other == id && !Typed(g, uri) ==> Attributes(g1, uri) == Attributes(g, uri) + Attributes(SoftwareTriples(uri, id, name, pagina), uri))
  {
    var uri := SoftwareUri(id);
    var g1 := SoftwareStep(st, other, name, pagina).0.graph;
    if other == id {
      if !Typed(st.graph, uri) {
        AttributesAdded(st.graph, SoftwareTriples(uri, id, name, pagina), uri);
      }
    } else {
      SoftwareUriInjective(other, id);
      AttributesKept(st.graph, g1, uri);
    }
  }

  /**
   * After its software step, a row body only adds triples about reviewer and
   * review resources, and the `hasReview` link.
   */
  lemma RowStepAfterSoftware(st: State, k: nat, row: Row, parseDate: string -> Option<Date>, today: Date)
    requires "software_id" in row
    ensures var st1 := SoftwareStep(st, row["software_id"], SoftwareName(row), Get(row, "pagina")).0;
      var g' := RowStep(st, k, row, parseDate, today).0.graph;
      && st1.graph <= g'
      && forall t | t in g' - st1.graph :: RevPrefixed(t.s) || t.p == HasReview
  {
    var (st1, software) := SoftwareStep(st, row["software_id"], SoftwareName(row), Get(row, "pagina"));
    if FirstMissing(row, ReviewerColumns).None? {
      var key := ReviewerKeyOf(row);
      var (st2, reviewer) := ReviewerStep(st1, key);
      ReviewerStepRevPrefixed(st1, key);
      if "data_avaliacao" in row {
        var date := EvaluationDate(row["data_avaliacao"], parseDate, today);
        ReviewTriplesSubjects(ReviewUri(k), software, reviewer, row, date);
        MintedUrisDistinct("", 0, k);
      }
    }
  }

  /** The reviewer step only adds triples about reviewer resources. */
  lemma ReviewerStepRevPrefixed(st: State, key: ReviewerKey)
    ensures forall t | t in ReviewerStep(st, key).0.graph - st.graph :: RevPrefixed(t.s)
  {
    MintedUrisDistinct("", |st.reviewerCache| + 1, 0);
  }

  /** Triples about other resources, or `hasReview` links, change neither the attributes nor the type of `uri`. */
  lemma AttributesKept(g: set<Triple>, g': set<Triple>, uri: Term)
    requires g <= g'
    requires forall t | t in g' - g :: t.s != uri || t.p == HasReview
    ensures Attributes(g', uri) == Attributes(g, uri)
    ensures Typed(g', uri) <==> Typed(g, uri)
  {
  }

  lemma AttributesAdded(g: set<Triple>, added: set<Triple>, uri: Term)
    ensures Attributes(g + added, uri) == Attributes(g, uri) + Attributes(added, uri)
  {
  }
}
