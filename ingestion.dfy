/**
 * What the populator does to its state, as pure functions of the old state:
 * the reviewer and software get-or-create steps, the effect of one CSV row,
 * and the effect of a whole sequence of rows. The class in module Populator
 * is proved to change its fields exactly as these functions say.
 */
module Ingestion {
  import opened Wrappers
  import opened Rdf
  import opened Decimal
  import opened Schema

  /** A CSV row: column name to cell text. A column the row lacks is absent from the map. */
  type Row = map<string, string>

  /** A reviewer's identity: the four attributes, compared by value. */
  datatype ReviewerKey = ReviewerKey(setor: string, porte: string, frequencia: string, frequenciaComplementar: string)

  /** The populator's mutable state: the triple store and the reviewer cache. */
  datatype State = State(graph: set<Triple>, reviewerCache: map<ReviewerKey, Term>)

  /** How a row ended: fully ingested, or skipped at the first required column it lacks. */
  datatype RowOutcome = Ingested | Skipped(column: string)

  /** A reported row failure: the row's 1-based number and the missing column. */
  datatype RowError = MissingColumn(row: nat, column: string)

  /** The resource of the software with natural key `id`. */
  function SoftwareUri(id: string): Term {
    Sw("software_" + id)
  }

  /** The resource of the `n`-th reviewer created. */
  function ReviewerUri(n: nat): Term {
    Sw("reviewer_" + NatToString(n))
  }

  /** The resource of the review read from the row numbered `k`. */
  function ReviewUri(k: nat): Term {
    Sw("review_" + NatToString(k))
  }

  /** `row.get(column)`. */
  function Get(row: Row, column: string): Option<string> {
    if column in row then Some(row[column]) else None
  }

  /** Python truthiness of an optional string: present and non-empty. */
  predicate Truthy(v: Option<string>) {
    v.Some? && v.value != ""
  }

  // ---------------------------------------------------------------- Reviewers

  /** The type triple and the four attribute triples of a new reviewer. */
  function ReviewerTriples(uri: Term, key: ReviewerKey): set<Triple> {
    {
      Triple(uri, RdfType, ReviewerClass),
      Triple(uri, SetorProp, Lit(key.setor)),
      Triple(uri, PorteProp, Lit(key.porte)),
      Triple(uri, FrequenciaProp, Lit(key.frequencia)),
      Triple(uri, FrequenciaComplementarProp, Lit(key.frequenciaComplementar))
    }
  }

  /**
   * Get-or-create of the reviewer identified by `key`: the new state and the
   * reviewer's resource, which the cache then holds for `key`. Nothing is
   * removed from the graph, and no cached tuple changes its resource.
   */
  function ReviewerStep(st: State, key: ReviewerKey): (r: (State, Term))
    ensures st.graph <= r.0.graph
    ensures key in r.0.reviewerCache && r.0.reviewerCache[key] == r.1
    ensures forall k | k in st.reviewerCache :: k in r.0.reviewerCache && r.0.reviewerCache[k] == st.reviewerCache[k]
  {
    if key in st.reviewerCache then
      (st, st.reviewerCache[key])
    else
      var uri := ReviewerUri(|st.reviewerCache| + 1);
      (State(st.graph + ReviewerTriples(uri, key), st.reviewerCache[key := uri]), uri)
  }

  // ----------------------------------------------------------------- Software

  /** The triples of a new software: type, id and name always, the page only when truthy. */
  function SoftwareTriples(uri: Term, id: string, name: string, pagina: Option<string>): set<Triple> {
    {Triple(uri, RdfType, SoftwareClass), Triple(uri, SoftwareIdProp, Lit(id)), Triple(uri, NameProp, Lit(name))}
    + if Truthy(pagina) then {Triple(uri, PaginaProp, Lit(pagina.value))} else {}
  }

  /**
   * Get-or-create of the software `id`: created only if its type triple is not
   * yet in the graph. Afterwards `software_<id>` is typed Software, nothing is
   * removed from the graph, and the reviewer cache is untouched.
   */
  function SoftwareStep(st: State, id: string, name: string, pagina: Option<string>): (r: (State, Term))
    ensures r.1 == SoftwareUri(id) && Triple(r.1, RdfType, SoftwareClass) in r.0.graph
    ensures st.graph <= r.0.graph && r.0.reviewerCache == st.reviewerCache
  {
    var uri := SoftwareUri(id);
    if Triple(uri, RdfType, SoftwareClass) in st.graph then
      (st, uri)
    else
      (st.(graph := st.graph + SoftwareTriples(uri, id, name, pagina)), uri)
  }

  // --------------------------------------------------------------------- Rows

  /** The reviewer columns, in the order the row body looks them up. */
  const ReviewerColumns: seq<string> := ["setor", "porte", "frequencia", "frequencia_complementar"]

  /** Every column the row body looks up with `row[...]`, in lookup order. */
  const RequiredColumns: seq<string> := [
    "software_id", "setor", "porte", "frequencia", "frequencia_complementar",
    "data_avaliacao", "fonte", "recomendacao", "comentario", "vantagem", "desvantagem"
  ]

  /** The first of `columns` that `row` lacks, if any. */
  function FirstMissing(row: Row, columns: seq<string>): (r: Option<string>)
    ensures r.None? ==> forall c | c in columns :: c in row
    ensures r.Some? ==> r.value in columns && r.value !in row
  {
    if columns == [] then None
    else if columns[0] !in row then Some(columns[0])
    else FirstMissing(row, columns[1..])
  }

  /**
   * The first missing column is missing, every column before it is present,
   * and there is none exactly when the row has every column.
   */
  lemma {:induction false} FirstMissingSpec(row: Row, columns: seq<string>)
    ensures FirstMissing(row, columns).None? <==> forall c | c in columns :: c in row
    ensures FirstMissing(row, columns).Some? ==>
      exists j | 0 <= j < |columns| :: columns[j] == FirstMissing(row, columns).value && columns[j] !in row
        && forall j' | 0 <= j' < j :: columns[j'] in row
  {
    if columns != [] && columns[0] in row {
      FirstMissingSpec(row, columns[1..]);
      if FirstMissing(row, columns).Some? {
        var j :| 0 <= j < |columns[1..]| && columns[1..][j] == FirstMissing(row, columns).value && columns[1..][j] !in row
          && forall j' | 0 <= j' < j :: columns[1..][j'] in row;
        assert columns[j + 1] == FirstMissing(row, columns).value;
        forall j' | 0 <= j' < j + 1 ensures columns[j'] in row {
          if j' > 0 {
            assert columns[j'] == columns[1..][j' - 1];
          }
        }
      }
    } else if columns != [] {
      assert columns[0] == FirstMissing(row, columns).value;
    }
  }

  /** The software name: the `name` cell when the column exists (even if empty), else "Software <id>". */
  function SoftwareName(row: Row): (name: string)
    requires "software_id" in row
    ensures "name" in row ==> name == row["name"]
    ensures "name" !in row ==> |name| >= 9 && name[..9] == "Software " && name[9..] == row["software_id"]
  {
    if "name" in row then row["name"] else "Software " + row["software_id"]
  }

  function ReviewerKeyOf(row: Row): ReviewerKey
    requires forall c | c in ReviewerColumns :: c in row
  {
    ReviewerKey(row["setor"], row["porte"], row["frequencia"], row["frequencia_complementar"])
  }

  /** The review date: the parsed cell, or `today` when the cell does not parse. */
  function EvaluationDate(cell: string, parseDate: string -> Option<Date>, today: Date): (date: Date)
    ensures parseDate(cell).Some? ==> date == parseDate(cell).value
    ensures parseDate(cell).None? ==> date == today
  {
    parseDate(cell).GetOr(today)
  }

  /** The two optional review attributes, each only when truthy. */
  function OptionalReviewTriples(review: Term, row: Row): set<Triple> {
    (if Truthy(Get(row, "sft_anterior")) then {Triple(review, SftAnteriorProp, Lit(row["sft_anterior"]))} else {})
    + (if Truthy(Get(row, "motivo_mudanca")) then {Triple(review, MotivoMudancaProp, Lit(row["motivo_mudanca"]))} else {})
  }

  /**
   * The review part of a row body: the triples added, in order, up to the first
   * attribute column the row lacks, and how the row ends.
   */
  function ReviewTriples(review: Term, software: Term, reviewer: Term, row: Row, date: Date): (r: (set<Triple>, RowOutcome))
    ensures Triple(review, RdfType, ReviewClass) in r.0
    ensures r.1.Skipped? ==> r.1.column !in row
    ensures r.1 == Ingested ==> Triple(software, HasReview, review) in r.0 && Triple(review, MadeBy, reviewer) in r.0
  {
    var typed := {Triple(review, RdfType, ReviewClass)};
    if "fonte" !in row then (typed, Skipped("fonte")) else
    var g1 := typed + {Triple(review, FonteProp, Lit(row["fonte"]))};
    if "recomendacao" !in row then (g1, Skipped("recomendacao")) else
    var g2 := g1 + {Triple(review, RecomendacaoProp, Lit(row["recomendacao"])), Triple(review, DataAvaliacaoProp, DateLit(date))};
    if "comentario" !in row then (g2, Skipped("comentario")) else
    var g3 := g2 + {Triple(review, ComentarioProp, Lit(row["comentario"]))};
    if "vantagem" !in row then (g3, Skipped("vantagem")) else
    var g4 := g3 + {Triple(review, VantagemProp, Lit(row["vantagem"]))};
    if "desvantagem" !in row then (g4, Skipped("desvantagem")) else
    var g5 := g4 + {Triple(review, DesvantagemProp, Lit(row["desvantagem"]))} + OptionalReviewTriples(review, row);
    (g5 + {Triple(software, HasReview, review), Triple(review, MadeBy, reviewer)}, Ingested)
  }

  /**
   * One row body, numbered `k`: software, then reviewer, then review. A missing
   * column stops the row where its lookup happens; what was added before stays.
   */
  function RowStep(st: State, k: nat, row: Row, parseDate: string -> Option<Date>, today: Date): (r: (State, RowOutcome))
    ensures st.graph <= r.0.graph
    ensures r.1.Skipped? ==> r.1.column !in row
  {
    if "software_id" !in row then (st, Skipped("software_id"))
    else
      var (st1, software) := SoftwareStep(st, row["software_id"], SoftwareName(row), Get(row, "pagina"));
      match FirstMissing(row, ReviewerColumns)
      case Some(column) => (st1, Skipped(column))
      case None =>
        var (st2, reviewer) := ReviewerStep(st1, ReviewerKeyOf(row));
        if "data_avaliacao" !in row then (st2, Skipped("data_avaliacao"))
        else
          var date := EvaluationDate(row["data_avaliacao"], parseDate, today);
          var (added, outcome) := ReviewTriples(ReviewUri(k), software, reviewer, row, date);
          (st2.(graph := st2.graph + added), outcome)
  }

  /** A row body: from the state, the row's number and the row, to the new state and how the row ended. */
  type RowBody = (State, nat, Row) -> (State, RowOutcome)

  /**
   * The loop of `process_csv`: the rows handed to `body` in order, the `i`-th
   * numbered `first + i`, and an error reported for each row that ends skipped.
   */
  function Run(st: State, rows: seq<Row>, first: nat, body: RowBody): (r: (State, seq<RowError>))
    ensures |r.1| <= |rows|
    decreases |rows|
  {
    if rows == [] then (st, [])
    else
      var n := |rows| - 1;
      var prev := Run(st, rows[..n], first, body);
      var step := body(prev.0, first + n, rows[n]);
      (step.0, prev.1 + OutcomeErrors(first + n, step.1))
  }

  /** The errors one row adds to a run's list: its own, if it was skipped. */
  function OutcomeErrors(k: nat, outcome: RowOutcome): seq<RowError> {
    if outcome.Skipped? then [MissingColumn(k, outcome.column)] else []
  }

  /** The row body of `process_csv`, for one parsing function and one `today`. */
  function Body(parseDate: string -> Option<Date>, today: Date): RowBody {
    (s: State, k: nat, r: Row) => RowStep(s, k, r, parseDate, today)
  }

  /** The rows processed in order by the row body: final state and reported errors. */
  function Ingest(st: State, rows: seq<Row>, first: nat, parseDate: string -> Option<Date>, today: Date): (r: (State, seq<RowError>))
    ensures |r.1| <= |rows|
  {
    Run(st, rows, first, Body(parseDate, today))
  }

  // ---------------------------------------------------------------- Invariant

  /** `reviewer_1` .. `reviewer_n`. */
  ghost function ReviewerUris(n: nat): set<Term> {
    set i | 1 <= i <= n :: ReviewerUri(i)
  }

  ghost predicate Injective(m: map<ReviewerKey, Term>) {
    forall a, b | a in m && b in m && a != b :: m[a] != m[b]
  }

  /** No triple of `g` is about a reviewer numbered above `n`. */
  ghost predicate NoReviewerAbove(g: set<Triple>, n: nat) {
    forall t, i | t in g && n < i :: t.s != ReviewerUri(i)
  }

  /**
   * The reviewer cache invariant: its values are exactly `reviewer_1` .. `reviewer_n`
   * for `n` entries, distinct tuples have distinct resources, the Reviewer-typed
   * subjects of the graph are exactly the cached resources, and no triple is about
   * a reviewer not yet minted.
   */
  ghost predicate Valid(st: State) {
    && st.reviewerCache.Values == ReviewerUris(|st.reviewerCache|)
    && Injective(st.reviewerCache)
    && SubjectsOfType(st.graph, ReviewerClass) == st.reviewerCache.Values
    && NoReviewerAbove(st.graph, |st.reviewerCache|)
  }

  // -------------------------------------------------------------- Identifiers

  lemma PrefixCancel(p: string, a: string, b: string)
    requires p + a == p + b
    ensures a == b
  {
    assert a == (p + a)[|p|..];
    assert b == (p + b)[|p|..];
  }

  /** Software resources are one-to-one with software ids. */
  lemma SoftwareUriInjective(a: string, b: string)
    ensures SoftwareUri(a) == SoftwareUri(b) <==> a == b
  {
    if SoftwareUri(a) == SoftwareUri(b) {
      PrefixCancel("software_", a, b);
    }
  }

  /** Reviewer resources are one-to-one with their sequence numbers. */
  lemma ReviewerUriInjective(a: nat, b: nat)
    ensures ReviewerUri(a) == ReviewerUri(b) <==> a == b
  {
    if ReviewerUri(a) == ReviewerUri(b) {
      PrefixCancel("reviewer_", NatToString(a), NatToString(b));
      NatToStringInjective(a, b);
    }
  }

  /** Review resources are one-to-one with row numbers. */
  lemma ReviewUriInjective(a: nat, b: nat)
    ensures ReviewUri(a) == ReviewUri(b) <==> a == b
  {
    if ReviewUri(a) == ReviewUri(b) {
      PrefixCancel("review_", NatToString(a), NatToString(b));
      NatToStringInjective(a, b);
    }
  }

  /** A resource whose local name starts with "rev": every review and reviewer resource. */
  predicate RevPrefixed(x: Term) {
    x.Sw? && 3 <= |x.local| && x.local[0] == 'r' && x.local[1] == 'e' && x.local[2] == 'v'
  }

  predicate NotRevPrefixed(x: Term) {
    !RevPrefixed(x)
  }

  /** Software, reviewer and review resources never coincide; the last two are "rev"-prefixed. */
  lemma MintedUrisDistinct(id: string, n: nat, k: nat)
    ensures SoftwareUri(id) != ReviewerUri(n) && SoftwareUri(id) != ReviewUri(k) && ReviewUri(k) != ReviewerUri(n)
    ensures !RevPrefixed(SoftwareUri(id)) && RevPrefixed(ReviewerUri(n)) && RevPrefixed(ReviewUri(k))
  {
    assert SoftwareUri(id).local[0] == 's';
    assert ReviewerUri(n).local[6] == 'e';
    assert ReviewUri(k).local[6] == '_';
  }

  lemma ClassTriplesNotRevPrefixed()
    ensures forall t | t in ClassTriples(ClassNames) :: !RevPrefixed(t.s) && !RevPrefixed(t.o)
  {
    var P := NotRevPrefixed;
    forall n | n in ClassNames ensures P(Sw(n)) {
      assert n[0] == 'S' || n[0] == 'R';
    }
    ClassTriplesTerms(ClassNames, P);
  }

  lemma ObjectPropertyTriplesNotRevPrefixed()
    ensures forall t | t in PropertyTriples(ObjectProperties, OwlObjectProperty) :: !RevPrefixed(t.s) && !RevPrefixed(t.o)
  {
    var P := NotRevPrefixed;
    forall d | d in ObjectProperties ensures P(Sw(d.name)) && P(Sw(d.domain)) && P(d.range) {
      assert d.domain[0] == 'S' || d.domain[0] == 'R';
    }
    PropertyTriplesTerms(ObjectProperties, OwlObjectProperty, P);
  }

  lemma DatatypePropertyTriplesNotRevPrefixed()
    ensures forall t | t in PropertyTriples(DatatypeProperties, OwlDatatypeProperty) :: !RevPrefixed(t.s) && !RevPrefixed(t.o)
  {
    var P := NotRevPrefixed;
    var ds := DatatypeProperties;
    DatatypePropertyNamesNotRev();
    DatatypePropertyDomains();
    DeclsNotRevPrefixed(ds);
    PropertyTriplesTerms(ds, OwlDatatypeProperty, P);
  }

  lemma DatatypePropertyNamesNotRev()
    ensures forall i | 0 <= i < |DatatypeProperties| :: var n := DatatypeProperties[i].name; 3 <= |n| ==> n[0] != 'r' || n[2] != 'v'
  {
  }

  lemma DatatypePropertyDomains()
    ensures forall i | 0 <= i < |DatatypeProperties| :: DatatypeProperties[i].domain in ClassNames && !DatatypeProperties[i].range.Sw?
  {
  }

  /** Declarations whose names do not start with "rev", over the schema's classes and a datatype range. */
  lemma DeclsNotRevPrefixed(ds: seq<PropertyDecl>)
    requires forall i | 0 <= i < |ds| :: var n := ds[i].name; 3 <= |n| ==> n[0] != 'r' || n[2] != 'v'
    requires forall i | 0 <= i < |ds| :: ds[i].domain in ClassNames && !ds[i].range.Sw?
    ensures forall d | d in ds :: NotRevPrefixed(Sw(d.name)) && NotRevPrefixed(Sw(d.domain)) && NotRevPrefixed(d.range)
  {
    forall d | d in ds ensures NotRevPrefixed(Sw(d.name)) && NotRevPrefixed(Sw(d.domain)) && NotRevPrefixed(d.range) {
      var i :| 0 <= i < |ds| && ds[i] == d;
      assert d.domain[0] == 'S' || d.domain[0] == 'R';
    }
  }

  /** No subject or object of the schema is a review or reviewer resource. */
  lemma SchemaNotRevPrefixed()
    ensures forall t | t in SchemaTriples() :: !RevPrefixed(t.s) && !RevPrefixed(t.o)
  {
    ClassTriplesNotRevPrefixed();
    ObjectPropertyTriplesNotRevPrefixed();
    DatatypePropertyTriplesNotRevPrefixed();
  }
}
