/**
 * Properties of a whole run: the rows of one `process_csv` call folded
 * through the row body, starting from any state that keeps the reviewer
 * cache invariant, and in particular from the freshly built ontology.
 */
module IngestProperties {
  import opened Wrappers
  import opened Rdf
  import opened Schema
  import opened Ingestion
  import opened StepProperties

  /** The state right after construction: the schema triples and an empty reviewer cache. */
  function Initial(): State {
    State(SchemaTriples(), map[])
  }

  /**
   * The schema declares classes and properties but no instance: every count is
   * zero, the cache invariant holds, and no review resource is mentioned yet.
   */
  lemma InitialState()
    ensures Valid(Initial())
    ensures SubjectsOfType(Initial().graph, SoftwareClass) == {}
    ensures SubjectsOfType(Initial().graph, ReviewClass) == {}
    ensures SubjectsOfType(Initial().graph, ReviewerClass) == {}
    ensures forall k :: Unused(Initial().graph, ReviewUri(k))
  {
    SchemaTypesAreDeclarations();
    SchemaNotRevPrefixed();
    assert ReviewerUris(0) == {};
    forall i ensures RevPrefixed(ReviewerUri(i)) {
      MintedUrisDistinct("", i, 0);
    }
    forall k ensures Unused(Initial().graph, ReviewUri(k)) {
      MintedUrisDistinct("", 0, k);
    }
  }

  // ------------------------------------------------------- Any row body, folded

  /** `b` extends `a`: no triple removed, no cached tuple removed or rebound. */
  predicate Extends(a: State, b: State) {
    && a.graph <= b.graph
    && forall key | key in a.reviewerCache :: key in b.reviewerCache && b.reviewerCache[key] == a.reviewerCache[key]
  }

  /** The outcome the row body gives a row: skipped at the first required column it lacks. */
  function OutcomeOf(row: Row): RowOutcome {
    if MissingColumnOf(row).Some? then Skipped(MissingColumnOf(row).value) else Ingested
  }

  /** The software resource a row names, if it has a `software_id`. */
  function RowSoftware(row: Row): set<Term> {
    if "software_id" in row then {SoftwareUri(row["software_id"])} else {}
  }

  /** The review resource of the row numbered `k`, if it gets that far. */
  function RowReview(k: nat, row: Row): set<Term> {
    if ReachesReview(row) then {ReviewUri(k)} else {}
  }

  /** The reviewer tuple of a row, if it gets as far as the reviewer lookup. */
  function RowReviewerKey(row: Row): set<ReviewerKey> {
    if "software_id" in row && FirstMissing(row, ReviewerColumns).None? then {ReviewerKeyOf(row)} else {}
  }

  /** The first `i + 1` rows are the first `i`, then row `i`. */
  lemma RunStep(st: State, rows: seq<Row>, first: nat, body: RowBody, i: nat)
    requires i < |rows|
    ensures var prev := Run(st, rows[..i], first, body);
      var step := body(prev.0, first + i, rows[i]);
      Run(st, rows[..i + 1], first, body) == (step.0, prev.1 + OutcomeErrors(first + i, step.1))
  {
    assert rows[..i + 1][..i] == rows[..i];
  }

  lemma {:induction false} RunPreservesValid(st: State, rows: seq<Row>, first: nat, body: RowBody)
    requires Valid(st)
    requires forall s, k, r | Valid(s) :: Valid(body(s, k, r).0)
    ensures Valid(Run(st, rows, first, body).0)
    decreases |rows|
  {
    if rows != [] {
      RunPreservesValid(st, rows[..|rows| - 1], first, body);
    }
  }

  lemma {:induction false} RunExtends(st: State, rows: seq<Row>, first: nat, body: RowBody)
    requires forall s, k, r :: Extends(s, body(s, k, r).0)
    ensures Extends(st, Run(st, rows, first, body).0)
    decreases |rows|
  {
    if rows != [] {
      RunExtends(st, rows[..|rows| - 1], first, body);
    }
  }

  lemma {:induction false} RunErrors(st: State, rows: seq<Row>, first: nat, body: RowBody)
    requires forall s, k, r :: body(s, k, r).1 == OutcomeOf(r)
    ensures Run(st, rows, first, body).1 == RowErrors(rows, first)
    decreases |rows|
  {
    if rows != [] {
      RunErrors(st, rows[..|rows| - 1], first, body);
    }
  }

  lemma {:induction false} RunSoftware(st: State, rows: seq<Row>, first: nat, body: RowBody)
    requires forall s, k, r :: SubjectsOfType(body(s, k, r).0.graph, SoftwareClass) == SubjectsOfType(s.graph, SoftwareClass) + RowSoftware(r)
    ensures SubjectsOfType(Run(st, rows, first, body).0.graph, SoftwareClass) == SubjectsOfType(st.graph, SoftwareClass) + SoftwareOf(rows)
    decreases |rows|
  {
    if rows != [] {
      RunSoftware(st, rows[..|rows| - 1], first, body);
      SoftwareOfLast(rows);
    } else {
      assert SoftwareOf(rows) == {};
    }
  }

  lemma {:induction false} RunReviews(st: State, rows: seq<Row>, first: nat, body: RowBody)
    requires forall s, k, r :: SubjectsOfType(body(s, k, r).0.graph, ReviewClass) == SubjectsOfType(s.graph, ReviewClass) + RowReview(k, r)
    ensures SubjectsOfType(Run(st, rows, first, body).0.graph, ReviewClass) == SubjectsOfType(st.graph, ReviewClass) + ReviewsOf(rows, first)
    decreases |rows|
  {
    if rows != [] {
      RunReviews(st, rows[..|rows| - 1], first, body);
    } else {
      assert ReviewsOf(rows, first) == {};
    }
  }

  lemma {:induction false} RunReviewerKeys(st: State, rows: seq<Row>, first: nat, body: RowBody)
    requires forall s, k, r :: body(s, k, r).0.reviewerCache.Keys == s.reviewerCache.Keys + RowReviewerKey(r)
    ensures Run(st, rows, first, body).0.reviewerCache.Keys == st.reviewerCache.Keys + ReviewerKeysOf(rows)
    decreases |rows|
  {
    if rows != [] {
      RunReviewerKeys(st, rows[..|rows| - 1], first, body);
      ReviewerKeysOfLast(rows);
    } else {
      assert ReviewerKeysOf(rows) == {};
    }
  }

  lemma {:induction false} RunNotAbout(st: State, rows: seq<Row>, first: nat, body: RowBody, m: nat)
    requires Valid(st)
    requires forall s, k, r | Valid(s) :: Valid(body(s, k, r).0)
    requires forall s, k, r, m' | Valid(s) && k != m' :: Unused(body(s, k, r).0.graph - s.graph, ReviewUri(m'))
    requires m < first || first + |rows| <= m
    ensures Unused(Run(st, rows, first, body).0.graph - st.graph, ReviewUri(m))
    decreases |rows|
  {
    if rows != [] {
      var n := |rows| - 1;
      RunNotAbout(st, rows[..n], first, body, m);
      RunPreservesValid(st, rows[..n], first, body);
    }
  }

  // ------------------------------------------------- The row body of process_csv

  lemma IngestPreservesValid(st: State, rows: seq<Row>, first: nat, parseDate: string -> Option<Date>, today: Date)
    requires Valid(st)
    ensures Valid(Ingest(st, rows, first, parseDate, today).0)
  {
    BodyPreservesValid(parseDate, today);
    RunPreservesValid(st, rows, first, Body(parseDate, today));
  }

  lemma BodyPreservesValid(parseDate: string -> Option<Date>, today: Date)
    ensures forall s, k, r | Valid(s) :: Valid(Body(parseDate, today)(s, k, r).0)
  {
    forall s, k, r | Valid(s) ensures Valid(Body(parseDate, today)(s, k, r).0) {
      RowStepPreservesValid(s, k, r, parseDate, today);
    }
  }

  lemma BodyExtends(parseDate: string -> Option<Date>, today: Date)
    ensures forall s, k, r :: Extends(s, Body(parseDate, today)(s, k, r).0)
  {
    forall s, k, r ensures Extends(s, Body(parseDate, today)(s, k, r).0) {
      RowStepGrows(s, k, r, parseDate, today);
    }
  }

  lemma BodyNotAbout(parseDate: string -> Option<Date>, today: Date)
    ensures forall s, k, r, m | Valid(s) && k != m :: Unused(Body(parseDate, today)(s, k, r).0.graph - s.graph, ReviewUri(m))
  {
    forall s, k, r, m | Valid(s) && k != m ensures Unused(Body(parseDate, today)(s, k, r).0.graph - s.graph, ReviewUri(m)) {
      RowStepNotAbout(s, k, r, parseDate, today, m);
    }
  }

  /** Nothing is ever removed: the graph only grows and a cached tuple keeps its reviewer. */
  lemma IngestExtends(st: State, rows: seq<Row>, first: nat, parseDate: string -> Option<Date>, today: Date)
    ensures Extends(st, Ingest(st, rows, first, parseDate, today).0)
  {
    BodyExtends(parseDate, today);
    RunExtends(st, rows, first, Body(parseDate, today));
  }

  /** The errors a run reports depend on the rows alone, and are exactly the reference list. */
  lemma IngestErrors(st: State, rows: seq<Row>, first: nat, parseDate: string -> Option<Date>, today: Date)
    ensures Ingest(st, rows, first, parseDate, today).1 == RowErrors(rows, first)
  {
    forall s, k, r ensures Body(parseDate, today)(s, k, r).1 == OutcomeOf(r) {
      RowOutcomeIsFirstMissing(s, k, r, parseDate, today);
    }
    RunErrors(st, rows, first, Body(parseDate, today));
  }

  /** A run adds to the Software count exactly the software resources its rows name. */
  lemma IngestSoftware(st: State, rows: seq<Row>, first: nat, parseDate: string -> Option<Date>, today: Date)
    ensures SubjectsOfType(Ingest(st, rows, first, parseDate, today).0.graph, SoftwareClass) ==
      SubjectsOfType(st.graph, SoftwareClass) + SoftwareOf(rows)
  {
    forall s, k, r
      ensures SubjectsOfType(Body(parseDate, today)(s, k, r).0.graph, SoftwareClass) == SubjectsOfType(s.graph, SoftwareClass) + RowSoftware(r)
    {
      RowTypedSubjects(s, k, r, parseDate, today);
    }
    RunSoftware(st, rows, first, Body(parseDate, today));
  }

  /** A run adds to the Review count exactly the reviews of its rows that get that far. */
  lemma IngestReviews(st: State, rows: seq<Row>, first: nat, parseDate: string -> Option<Date>, today: Date)
    ensures SubjectsOfType(Ingest(st, rows, first, parseDate, today).0.graph, ReviewClass) ==
      SubjectsOfType(st.graph, ReviewClass) + ReviewsOf(rows, first)
  {
    forall s, k, r
      ensures SubjectsOfType(Body(parseDate, today)(s, k, r).0.graph, ReviewClass) == SubjectsOfType(s.graph, ReviewClass) + RowReview(k, r)
    {
      RowTypedSubjects(s, k, r, parseDate, today);
    }
    RunReviews(st, rows, first, Body(parseDate, today));
  }

  /** A run adds to the reviewer cache exactly the reviewer tuples of its rows. */
  lemma IngestReviewerKeys(st: State, rows: seq<Row>, first: nat, parseDate: string -> Option<Date>, today: Date)
    ensures Ingest(st, rows, first, parseDate, today).0.reviewerCache.Keys == st.reviewerCache.Keys + ReviewerKeysOf(rows)
  {
    forall s, k, r ensures Body(parseDate, today)(s, k, r).0.reviewerCache.Keys == s.reviewerCache.Keys + RowReviewerKey(r) {
      RowCacheKeys(s, k, r, parseDate, today);
    }
    RunReviewerKeys(st, rows, first, Body(parseDate, today));
  }

  /** Rows numbered outside `first ..` add nothing that mentions the review resource numbered `m`. */
  lemma IngestNotAbout(st: State, rows: seq<Row>, first: nat, parseDate: string -> Option<Date>, today: Date, m: nat)
    requires Valid(st)
    requires m < first || first + |rows| <= m
    ensures Unused(Ingest(st, rows, first, parseDate, today).0.graph - st.graph, ReviewUri(m))
  {
    BodyPreservesValid(parseDate, today);
    BodyNotAbout(parseDate, today);
    RunNotAbout(st, rows, first, Body(parseDate, today), m);
  }

  /** The loop step of `process_csv`: the first `i + 1` rows are the first `i`, then the row body on row `i`. */
  lemma IngestStep(st: State, rows: seq<Row>, first: nat, parseDate: string -> Option<Date>, today: Date, i: nat,
                   before: State, errors: seq<RowError>, after: State, outcome: RowOutcome)
    requires i < |rows|
    requires (before, errors) == Ingest(st, rows[..i], first, parseDate, today)
    requires (after, outcome) == RowStep(before, first + i, rows[i], parseDate, today)
    ensures Ingest(st, rows[..i + 1], first, parseDate, today) == (after, errors + OutcomeErrors(first + i, outcome))
  {
    var body := Body(parseDate, today);
    assert body(before, first + i, rows[i]) == (after, outcome);
    RunStepFrom(st, rows, first, body, i, before, errors, after, outcome);
  }

  lemma RunStepFrom(st: State, rows: seq<Row>, first: nat, body: RowBody, i: nat,
                    before: State, errors: seq<RowError>, after: State, outcome: RowOutcome)
    requires i < |rows|
    requires (before, errors) == Run(st, rows[..i], first, body)
    requires (after, outcome) == body(before, first + i, rows[i])
    ensures Run(st, rows[..i + 1], first, body) == (after, errors + OutcomeErrors(first + i, outcome))
  {
    RunStep(st, rows, first, body, i);
  }

  /** Triples added without mentioning `x` leave what the graph says about `x` as it was. */
  lemma AboutUnchanged(g: set<Triple>, g': set<Triple>, x: Term)
    requires g <= g' && Unused(g' - g, x)
    ensures (set t | t in g' && t.s == x) == (set t | t in g && t.s == x)
    ensures (set t | t in g' && t.o == x) == (set t | t in g && t.o == x)
  {
  }

  /**
   * `st'` describes the review of the complete row numbered `k` exactly as the
   * row body writes it: its attributes, the reviewer cached for the row's
   * reviewer tuple, and the link from the row's software.
   */
  ghost predicate ReviewDescribed(st': State, k: nat, row: Row, parseDate: string -> Option<Date>, today: Date) {
    && "software_id" in row && "data_avaliacao" in row && FirstMissing(row, ReviewerColumns).None?
    && HasReviewColumns(row)
    && ReviewerKeyOf(row) in st'.reviewerCache
    && (set t | t in st'.graph && t.s == ReviewUri(k)) ==
         RequiredReviewTriples(ReviewUri(k), row, EvaluationDate(row["data_avaliacao"], parseDate, today))
         + OptionalReviewTriples(ReviewUri(k), row)
         + {Triple(ReviewUri(k), MadeBy, st'.reviewerCache[ReviewerKeyOf(row)])}
    && (set t | t in st'.graph && t.o == ReviewUri(k)) == {Triple(SoftwareUri(row["software_id"]), HasReview, ReviewUri(k))}
  }

  /** A later state that extends `after` without mentioning review `k` still describes it. */
  lemma ReviewDescribedKept(after: State, final: State, k: nat, row: Row, parseDate: string -> Option<Date>, today: Date)
    requires ReviewDescribed(after, k, row, parseDate, today)
    requires Extends(after, final) && Unused(final.graph - after.graph, ReviewUri(k))
    ensures ReviewDescribed(final, k, row, parseDate, today)
  {
    AboutUnchanged(after.graph, final.graph, ReviewUri(k));
  }

  /** `Extends` is transitive. */
  lemma ExtendsTransitive(a: State, b: State, c: State)
    requires Extends(a, b) && Extends(b, c)
    ensures Extends(a, c)
  {
  }

  /** Two additions that do not mention `x` make one that does not either. */
  lemma UnusedTransitive(ga: set<Triple>, gb: set<Triple>, gc: set<Triple>, x: Term)
    requires ga <= gb && Unused(gb - ga, x) && Unused(gc - gb, x)
    ensures Unused(gc - ga, x)
  {
    forall t | t in gc - ga
      ensures t.s != x && t.o != x
    {
      if t in gb {
        assert t in gb - ga;
      } else {
        assert t in gc - gb;
      }
    }
  }

  /**
   * Generic form of `IngestCompleteRow`: once row `i` leaves its review
   * described, the later rows, which never touch other review numbers, leave
   * it described at the end.
   */
  lemma RunCompleteRow(st: State, rows: seq<Row>, first: nat, body: RowBody, parseDate: string -> Option<Date>, today: Date, i: nat)
    requires i < |rows|
    requires forall n | i < n < |rows| :: StepKeeps(st, rows, first, body, i, n)
    requires ReviewDescribed(body(Run(st, rows[..i], first, body).0, first + i, rows[i]).0, first + i, rows[i], parseDate, today)
    ensures ReviewDescribed(Run(st, rows, first, body).0, first + i, rows[i], parseDate, today)
  {
    RunKeepsAfter(st, rows, first, body, i);
    ReviewDescribedKept(body(Run(st, rows[..i], first, body).0, first + i, rows[i]).0, Run(st, rows, first, body).0,
                        first + i, rows[i], parseDate, today);
  }

  /** The rows after row `i` extend the state row `i` left without mentioning review `first + i`. */
  lemma RunKeepsAfter(st: State, rows: seq<Row>, first: nat, body: RowBody, i: nat)
    requires i < |rows|
    requires forall n | i < n < |rows| :: StepKeeps(st, rows, first, body, i, n)
    ensures var mid := body(Run(st, rows[..i], first, body).0, first + i, rows[i]).0;
      var final := Run(st, rows, first, body).0;
      Extends(mid, final) && Unused(final.graph - mid.graph, ReviewUri(first + i))
  {
    RunStep(st, rows, first, body, i);
    RunKeepsFrom(st, rows, first, body, i, |rows|);
    assert rows[..|rows|] == rows;
  }

  /** Every row after row `i` keeps review `first + i` as it was: it carries another review number. */
  lemma RunStepsKeep(st: State, rows: seq<Row>, first: nat, body: RowBody, i: nat)
    requires Valid(st)
    requires forall s, k, r | Valid(s) :: Valid(body(s, k, r).0)
    requires forall s, k, r :: Extends(s, body(s, k, r).0)
    requires forall s, k, r, m | Valid(s) && k != m :: Unused(body(s, k, r).0.graph - s.graph, ReviewUri(m))
    ensures forall n | i < n < |rows| :: StepKeeps(st, rows, first, body, i, n)
  {
    forall n | i < n < |rows|
      ensures StepKeeps(st, rows, first, body, i, n)
    {
      RunStepUnused(st, rows, first, body, i, n);
    }
  }

  /** The state row `i` starts from is valid and does not mention review `first + i` yet. */
  lemma RunUnusedBefore(st: State, rows: seq<Row>, first: nat, body: RowBody, i: nat)
    requires Valid(st)
    requires forall k | first <= k < first + |rows| :: Unused(st.graph, ReviewUri(k))
    requires i < |rows|
    requires forall s, k, r | Valid(s) :: Valid(body(s, k, r).0)
    requires forall s, k, r :: Extends(s, body(s, k, r).0)
    requires forall s, k, r, m | Valid(s) && k != m :: Unused(body(s, k, r).0.graph - s.graph, ReviewUri(m))
    ensures Valid(Run(st, rows[..i], first, body).0)
    ensures Unused(Run(st, rows[..i], first, body).0.graph, ReviewUri(first + i))
  {
    var k: nat := first + i;
    var prev := Run(st, rows[..i], first, body).0;
    assert Valid(prev) by {
      RunPreservesValid(st, rows[..i], first, body);
    }
    assert Unused(prev.graph - st.graph, ReviewUri(k)) by {
      RunNotAbout(st, rows[..i], first, body, k);
    }
    assert Unused(st.graph, ReviewUri(k));
    UnusedUnion(st.graph, prev.graph, ReviewUri(k));
  }

  /** A graph, and what was added to it, that do not mention `x` make one that does not. */
  lemma UnusedUnion(g: set<Triple>, g': set<Triple>, x: Term)
    requires Unused(g, x) && Unused(g' - g, x)
    ensures Unused(g', x)
  {
    forall t | t in g'
      ensures t.s != x && t.o != x
    {
      if t !in g {
        assert t in g' - g;
      }
    }
  }

  /** Row `n` of `rows` extends the state without mentioning the review of row `i`. */
  ghost predicate StepKeeps(st: State, rows: seq<Row>, first: nat, body: RowBody, i: nat, n: nat)
    requires n < |rows|
  {
    var prev := Run(st, rows[..n], first, body).0;
    var next := Run(st, rows[..n + 1], first, body).0;
    Extends(prev, next) && Unused(next.graph - prev.graph, ReviewUri(first + i))
  }

  /** Rows `i + 1` to `j - 1`, each keeping the review of row `i` as it was, together keep it too. */
  lemma {:induction false} RunKeepsFrom(st: State, rows: seq<Row>, first: nat, body: RowBody, i: nat, j: nat)
    requires i < j <= |rows|
    requires forall n | i < n < j :: StepKeeps(st, rows, first, body, i, n)
    ensures var mid := Run(st, rows[..i + 1], first, body).0;
      var final := Run(st, rows[..j], first, body).0;
      Extends(mid, final) && Unused(final.graph - mid.graph, ReviewUri(first + i))
    decreases j
  {
    if j > i + 1 {
      RunKeepsFrom(st, rows, first, body, i, j - 1);
      var last: nat := j - 1;
      assert StepKeeps(st, rows, first, body, i, last);
      var mid := Run(st, rows[..i + 1], first, body).0;
      var prev := Run(st, rows[..last], first, body).0;
      var next := Run(st, rows[..last + 1], first, body).0;
      ExtendsTransitive(mid, prev, next);
      UnusedTransitive(mid.graph, prev.graph, next.graph, ReviewUri(first + i));
    }
  }

  /** Row `last` extends the state without mentioning the review of another row `i`. */
  lemma RunStepUnused(st: State, rows: seq<Row>, first: nat, body: RowBody, i: nat, last: nat)
    requires Valid(st)
    requires last < |rows| && last != i
    requires forall s, k, r | Valid(s) :: Valid(body(s, k, r).0)
    requires forall s, k, r :: Extends(s, body(s, k, r).0)
    requires forall s, k, r, m' | Valid(s) && k != m' :: Unused(body(s, k, r).0.graph - s.graph, ReviewUri(m'))
    ensures StepKeeps(st, rows, first, body, i, last)
  {
    RunStep(st, rows, first, body, last);
    RunPreservesValid(st, rows[..last], first, body);
  }

  /**
   * A complete row, anywhere in a run over review numbers not used before,
   * leaves its review described exactly as the row body describes it: the
   * rows after it never touch that review, nor rebind its reviewer tuple.
   */
  lemma IngestCompleteRow(st: State, rows: seq<Row>, first: nat, parseDate: string -> Option<Date>, today: Date, i: nat)
    requires Valid(st)
    requires forall k | first <= k < first + |rows| :: Unused(st.graph, ReviewUri(k))
    requires i < |rows| && MissingColumnOf(rows[i]).None?
    ensures ReviewDescribed(Ingest(st, rows, first, parseDate, today).0, first + i, rows[i], parseDate, today)
  {
    var body := Body(parseDate, today);
    BodyPreservesValid(parseDate, today);
    BodyExtends(parseDate, today);
    BodyNotAbout(parseDate, today);
    var k: nat := first + i;
    var prev := Run(st, rows[..i], first, body).0;
    assert Valid(prev) && Unused(prev.graph, ReviewUri(k)) by {
      RunUnusedBefore(st, rows, first, body, i);
    }
    BodyDescribes(prev, k, rows[i], parseDate, today);
    RunStepsKeep(st, rows, first, body, i);
    RunCompleteRow(st, rows, first, body, parseDate, today, i);
  }

  /** The row body describes the review of a complete row it numbers with an unused review number. */
  lemma BodyDescribes(s: State, k: nat, r: Row, parseDate: string -> Option<Date>, today: Date)
    requires Valid(s) && Unused(s.graph, ReviewUri(k)) && MissingColumnOf(r).None?
    ensures ReviewDescribed(Body(parseDate, today)(s, k, r).0, k, r, parseDate, today)
  {
    CompleteRowTriples(s, k, r, parseDate, today);
  }

  /** Rows numbered after `m` leave what the graph says about review `m`, and the cached reviewers, as they were. */
  lemma IngestKeepsAbout(st: State, rows: seq<Row>, first: nat, parseDate: string -> Option<Date>, today: Date, m: nat)
    requires Valid(st) && m < first
    ensures var st' := Ingest(st, rows, first, parseDate, today).0;
      && Extends(st, st')
      && (set t | t in st'.graph && t.s == ReviewUri(m)) == (set t | t in st.graph && t.s == ReviewUri(m))
      && (set t | t in st'.graph && t.o == ReviewUri(m)) == (set t | t in st.graph && t.o == ReviewUri(m))
  {
    var st' := Ingest(st, rows, first, parseDate, today).0;
    IngestExtends(st, rows, first, parseDate, today);
    IngestNotAbout(st, rows, first, parseDate, today, m);
    AboutUnchanged(st.graph, st'.graph, ReviewUri(m));
  }

  // ------------------------------------------------------------------- Errors

  /** The error list entry for the row numbered `k`, given the column it lacks, if any. */
  function MissedAt(k: nat, column: Option<string>): seq<RowError> {
    if column.Some? then [MissingColumn(k, column.value)] else []
  }

  /** The errors for `rows`, numbered from `first`, when `missing` names the column a row lacks. */
  function Reported(rows: seq<Row>, first: nat, missing: Row -> Option<string>): seq<RowError>
    decreases |rows|
  {
    if rows == [] then []
    else
      var n := |rows| - 1;
      Reported(rows[..n], first, missing) + MissedAt(first + n, missing(rows[n]))
  }

  /** The reference list of reported rows: each row that lacks a required column, with the first such column. */
  /**
   * The errors of a run: each names a row of the run and the first required
   * column that row lacks, and they come in increasing row order.
   */
  function RowErrors(rows: seq<Row>, first: nat): (errors: seq<RowError>)
    ensures |errors| <= |rows|
    ensures forall e | e in errors :: first <= e.row < first + |rows| && MissingColumnOf(rows[e.row - first]) == Some(e.column)
    ensures Ascending(errors)
  {
    ReportedSound(rows, first, MissingColumnOf);
    ReportedOrdered(rows, first, MissingColumnOf);
    Reported(rows, first, MissingColumnOf)
  }

  lemma {:induction false} ReportedSound(rows: seq<Row>, first: nat, missing: Row -> Option<string>)
    ensures var errors := Reported(rows, first, missing);
      && |errors| <= |rows|
      && (forall e | e in errors :: first <= e.row < first + |rows| && missing(rows[e.row - first]) == Some(e.column))
    decreases |rows|
  {
    if rows != [] {
      var n := |rows| - 1;
      ReportedSound(rows[..n], first, missing);
      var prior := Reported(rows[..n], first, missing);
      var last := MissedAt(first + n, missing(rows[n]));
      assert Reported(rows, first, missing) == prior + last;
      forall e: RowError | e in prior + last
        ensures first <= e.row < first + |rows| && missing(rows[e.row - first]) == Some(e.column)
      {
        if e in prior {
          assert rows[..n][e.row - first] == rows[e.row - first];
        }
      }
    }
  }

  /** The errors name their rows in strictly ascending order. */
  predicate Ascending(errors: seq<RowError>) {
    forall j, j' | 0 <= j < j' < |errors| :: errors[j].row < errors[j'].row
  }

  /** Rows in ascending order, followed by at most one row numbered above them all, stay in ascending order. */
  lemma AscendingAppend(prior: seq<RowError>, last: seq<RowError>, bound: int)
    requires Ascending(prior)
    requires forall j | 0 <= j < |prior| :: prior[j].row < bound
    requires |last| <= 1 && forall j | 0 <= j < |last| :: last[j].row == bound
    ensures Ascending(prior + last)
  {
    var errors := prior + last;
    forall j, j' | 0 <= j < j' < |errors| ensures errors[j].row < errors[j'].row {
      assert j < |prior|;
      assert errors[j] == prior[j];
      if j' < |prior| {
        assert errors[j'] == prior[j'];
      } else {
        assert errors[j'] == last[j' - |prior|];
      }
    }
  }

  lemma {:induction false} ReportedOrdered(rows: seq<Row>, first: nat, missing: Row -> Option<string>)
    ensures Ascending(Reported(rows, first, missing))
    decreases |rows|
  {
    if rows != [] {
      var n := |rows| - 1;
      ReportedOrdered(rows[..n], first, missing);
      var prior := Reported(rows[..n], first, missing);
      var last := MissedAt(first + n, missing(rows[n]));
      var errors := prior + last;
      assert forall j | 0 <= j < |prior| :: prior[j].row < first + n by {
        ReportedSound(rows[..n], first, missing);
        assert forall j | 0 <= j < |prior| :: prior[j] in prior;
      }
      assert Reported(rows, first, missing) == errors;
      AscendingAppend(prior, last, first + n);
    }
  }

  lemma {:induction false} ReportedComplete(rows: seq<Row>, first: nat, missing: Row -> Option<string>)
    ensures forall i | 0 <= i < |rows| && missing(rows[i]).Some? ::
      MissingColumn(first + i, missing(rows[i]).value) in Reported(rows, first, missing)
    decreases |rows|
  {
    if rows != [] {
      var n := |rows| - 1;
      var prior := Reported(rows[..n], first, missing);
      ReportedComplete(rows[..n], first, missing);
      forall i | 0 <= i < |rows| && missing(rows[i]).Some?
        ensures MissingColumn(first + i, missing(rows[i]).value) in Reported(rows, first, missing)
      {
        if i < n {
          assert rows[..n][i] == rows[i];
          assert MissingColumn(first + i, missing(rows[i]).value) in prior;
        }
      }
    }
  }

  /** Every row that lacks a required column is reported, with that column. */
  lemma RowErrorsComplete(rows: seq<Row>, first: nat)
    ensures forall i | 0 <= i < |rows| && MissingColumnOf(rows[i]).Some? ::
      MissingColumn(first + i, MissingColumnOf(rows[i]).value) in RowErrors(rows, first)
  {
    ReportedComplete(rows, first, MissingColumnOf);
  }

  /** A run reports nothing exactly when every row has every required column. */
  lemma RowErrorsEmpty(rows: seq<Row>, first: nat)
    ensures RowErrors(rows, first) == [] <==> forall i | 0 <= i < |rows| :: MissingColumnOf(rows[i]).None?
  {
    var errors := RowErrors(rows, first);
    if errors != [] {
      ReportedSound(rows, first, MissingColumnOf);
      assert errors[0] in errors;
      var i := errors[0].row - first;
      assert 0 <= i < |rows| && MissingColumnOf(rows[i]).Some?;
    } else {
      ReportedComplete(rows, first, MissingColumnOf);
    }
  }

  // ------------------------------------------------------------ What a run creates

  /** The software resources named by the rows that have a `software_id`. */
  function SoftwareOf(rows: seq<Row>): set<Term> {
    set i | 0 <= i < |rows| && "software_id" in rows[i] :: SoftwareUri(rows[i]["software_id"])
  }

  /** The distinct `software_id` values of the rows. */
  function SoftwareIds(rows: seq<Row>): set<string> {
    set i | 0 <= i < |rows| && "software_id" in rows[i] :: rows[i]["software_id"]
  }

  /** The review resources of the rows, numbered from `first`, that get as far as their review. */
  function ReviewsOf(rows: seq<Row>, first: nat): set<Term>
    decreases |rows|
  {
    if rows == [] then {}
    else ReviewsOf(rows[..|rows| - 1], first) + RowReview(first + (|rows| - 1), rows[|rows| - 1])
  }

  /** The distinct reviewer tuples of the rows that get as far as the reviewer lookup. */
  function ReviewerKeysOf(rows: seq<Row>): set<ReviewerKey> {
    set i | 0 <= i < |rows| && "software_id" in rows[i] && FirstMissing(rows[i], ReviewerColumns).None? :: ReviewerKeyOf(rows[i])
  }

  /** How many rows get as far as their review. */
  function Reaching(rows: seq<Row>): nat
    decreases |rows|
  {
    if rows == [] then 0
    else Reaching(rows[..|rows| - 1]) + (if ReachesReview(rows[|rows| - 1]) then 1 else 0)
  }

  lemma SoftwareOfLast(rows: seq<Row>)
    requires rows != []
    ensures var n := |rows| - 1;
      && SoftwareOf(rows) == SoftwareOf(rows[..n]) + RowSoftware(rows[n])
      && SoftwareIds(rows) == SoftwareIds(rows[..n]) + (if "software_id" in rows[n] then {rows[n]["software_id"]} else {})
  {
    var n := |rows| - 1;
    assert forall i | 0 <= i < n :: rows[..n][i] == rows[i];
  }

  lemma ReviewerKeysOfLast(rows: seq<Row>)
    requires rows != []
    ensures var n := |rows| - 1;
      ReviewerKeysOf(rows) == ReviewerKeysOf(rows[..n]) + RowReviewerKey(rows[n])
  {
    var n := |rows| - 1;
    assert forall i | 0 <= i < n :: rows[..n][i] == rows[i];
  }

  /** A software resource is named by the rows exactly when its id occurs in them. */
  lemma SoftwareOfMatchesIds(rows: seq<Row>, id: string)
    ensures SoftwareUri(id) in SoftwareOf(rows) <==> id in SoftwareIds(rows)
  {
    if SoftwareUri(id) in SoftwareOf(rows) {
      var i :| 0 <= i < |rows| && "software_id" in rows[i] && SoftwareUri(rows[i]["software_id"]) == SoftwareUri(id);
      SoftwareUriInjective(rows[i]["software_id"], id);
    }
    if id in SoftwareIds(rows) {
      var i :| 0 <= i < |rows| && "software_id" in rows[i] && rows[i]["software_id"] == id;
      assert SoftwareUri(id) in SoftwareOf(rows);
    }
  }

  /** Distinct ids give distinct software resources, so there are as many as there are ids. */
  lemma {:induction false} SoftwareOfSize(rows: seq<Row>)
    ensures |SoftwareOf(rows)| == |SoftwareIds(rows)|
    decreases |rows|
  {
    if rows != [] {
      var n := |rows| - 1;
      var prefix := rows[..n];
      SoftwareOfSize(prefix);
      SoftwareOfLast(rows);
      if "software_id" in rows[n] {
        var id := rows[n]["software_id"];
        assert SoftwareOf(rows) == SoftwareOf(prefix) + {SoftwareUri(id)};
        assert SoftwareIds(rows) == SoftwareIds(prefix) + {id};
        SoftwareOfMatchesIds(prefix, id);
        if SoftwareUri(id) in SoftwareOf(prefix) {
          assert SoftwareOf(rows) == SoftwareOf(prefix);
          assert SoftwareIds(rows) == SoftwareIds(prefix);
        } else {
          assert |SoftwareOf(rows)| == |SoftwareOf(prefix)| + 1;
          assert |SoftwareIds(rows)| == |SoftwareIds(prefix)| + 1;
        }
      }
    }
  }

  /** Every row has its own review number, so the reviews created are as many as the rows that reach them. */
  lemma {:induction false} ReviewsOfSize(rows: seq<Row>, first: nat)
    ensures |ReviewsOf(rows, first)| == Reaching(rows)
    decreases |rows|
  {
    if rows != [] {
      var n := |rows| - 1;
      ReviewsOfSize(rows[..n], first);
      ReviewsOfGrowth(rows, first);
    }
  }

  /** The last row adds its review number, which is new, exactly when it reaches its review. */
  lemma ReviewsOfGrowth(rows: seq<Row>, first: nat)
    requires rows != []
    ensures var n := |rows| - 1;
      |ReviewsOf(rows, first)| == |ReviewsOf(rows[..n], first)| + (if ReachesReview(rows[n]) then 1 else 0)
  {
    var n := |rows| - 1;
    ReviewsOfFresh(rows[..n], first, n);
    AddedCount(ReviewsOf(rows[..n], first), ReviewsOf(rows, first), ReviewUri(first + n), ReachesReview(rows[n]));
  }

  /** Adding an element not already there grows a set by one. */
  lemma AddedCount<T>(prior: set<T>, now: set<T>, x: T, added: bool)
    requires x !in prior
    requires now == prior + (if added then {x} else {})
    ensures |now| == |prior| + (if added then 1 else 0)
  {
    if !added {
      assert now == prior;
    }
  }

  /** A review number past the rows is not among theirs. */
  lemma {:induction false} ReviewsOfFresh(rows: seq<Row>, first: nat, m: nat)
    requires |rows| <= m
    ensures ReviewUri(first + m) !in ReviewsOf(rows, first)
    decreases |rows|
  {
    if rows != [] {
      var n := |rows| - 1;
      ReviewsOfFresh(rows[..n], first, m);
      ReviewUriInjective(first + n, first + m);
    }
  }

  /** A row with every required column gets as far as its review. */
  lemma {:induction false} ReachingComplete(rows: seq<Row>)
    requires forall i | 0 <= i < |rows| :: MissingColumnOf(rows[i]).None?
    ensures Reaching(rows) == |rows|
    decreases |rows|
  {
    if rows != [] {
      var n := |rows| - 1;
      assert Reaching(rows[..n]) == n by {
        assert forall i | 0 <= i < n :: rows[..n][i] == rows[i];
        ReachingComplete(rows[..n]);
      }
      assert ReachesReview(rows[n]) by {
        MissingColumnOrder(rows[n]);
      }
    }
  }

  /**
   * The counts `print_statistics` reports after one `process_csv` call on a
   * fresh populator: the distinct software ids, the rows that reached their
   * review, and the distinct reviewer tuples; the errors are the reference list.
   */
  lemma RunStatistics(rows: seq<Row>, parseDate: string -> Option<Date>, today: Date)
    ensures var (st', errors) := Ingest(Initial(), rows, 1, parseDate, today);
      && |SubjectsOfType(st'.graph, SoftwareClass)| == |SoftwareIds(rows)|
      && |SubjectsOfType(st'.graph, ReviewClass)| == Reaching(rows)
      && |SubjectsOfType(st'.graph, ReviewerClass)| == |ReviewerKeysOf(rows)|
      && errors == RowErrors(rows, 1)
  {
    RunSoftwareCount(rows, parseDate, today);
    RunReviewCount(rows, parseDate, today);
    RunReviewerCount(rows, parseDate, today);
    IngestErrors(Initial(), rows, 1, parseDate, today);
  }

  lemma RunSoftwareCount(rows: seq<Row>, parseDate: string -> Option<Date>, today: Date)
    ensures |SubjectsOfType(Ingest(Initial(), rows, 1, parseDate, today).0.graph, SoftwareClass)| == |SoftwareIds(rows)|
  {
    var g := Ingest(Initial(), rows, 1, parseDate, today).0.graph;
    assert SubjectsOfType(g, SoftwareClass) == SoftwareOf(rows) by {
      InitialState();
      IngestSoftware(Initial(), rows, 1, parseDate, today);
    }
    SoftwareOfSize(rows);
  }

  lemma RunReviewCount(rows: seq<Row>, parseDate: string -> Option<Date>, today: Date)
    ensures |SubjectsOfType(Ingest(Initial(), rows, 1, parseDate, today).0.graph, ReviewClass)| == Reaching(rows)
  {
    var g := Ingest(Initial(), rows, 1, parseDate, today).0.graph;
    assert SubjectsOfType(g, ReviewClass) == ReviewsOf(rows, 1) by {
      InitialState();
      IngestReviews(Initial(), rows, 1, parseDate, today);
    }
    ReviewsOfSize(rows, 1);
  }

  lemma RunReviewerCount(rows: seq<Row>, parseDate: string -> Option<Date>, today: Date)
    ensures |SubjectsOfType(Ingest(Initial(), rows, 1, parseDate, today).0.graph, ReviewerClass)| == |ReviewerKeysOf(rows)|
  {
    var st' := Ingest(Initial(), rows, 1, parseDate, today).0;
    InitialState();
    IngestReviewerKeys(Initial(), rows, 1, parseDate, today);
    IngestPreservesValid(Initial(), rows, 1, parseDate, today);
    ReviewerCountIsCacheSize(st');
    assert |st'.reviewerCache| == |st'.reviewerCache.Keys|;
  }

  /** A file whose every row is complete reports no error and creates one review per row. */
  lemma CompleteRun(rows: seq<Row>, parseDate: string -> Option<Date>, today: Date)
    requires forall i | 0 <= i < |rows| :: MissingColumnOf(rows[i]).None?
    ensures var (st', errors) := Ingest(Initial(), rows, 1, parseDate, today);
      errors == [] && |SubjectsOfType(st'.graph, ReviewClass)| == |rows|
  {
    RunStatistics(rows, parseDate, today);
    RowErrorsEmpty(rows, 1);
    ReachingComplete(rows);
  }
}
