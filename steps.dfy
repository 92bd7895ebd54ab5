/**
 * Properties of one get-or-create step and of one row: which triples each adds,
 * stable identities, and preservation of the reviewer cache invariant.
 */
module StepProperties {
  import opened Wrappers
  import opened Rdf
  import opened Schema
  import opened Ingestion

  // ---------------------------------------------------------------- Reviewers

  /** `reviewer_1` .. `reviewer_n` are `n` distinct resources. */
  lemma {:induction false} ReviewerUrisSize(n: nat)
    ensures |ReviewerUris(n)| == n
  {
    if n > 0 {
      ReviewerUrisSize(n - 1);
      assert ReviewerUris(n) == ReviewerUris(n - 1) + {ReviewerUri(n)};
      forall i | 1 <= i <= n - 1 ensures ReviewerUri(i) != ReviewerUri(n) {
        ReviewerUriInjective(i, n);
      }
    }
  }

  /** A new reviewer gets five distinct triples, all about it. */
  lemma ReviewerTriplesSize(uri: Term, key: ReviewerKey)
    ensures |ReviewerTriples(uri, key)| == 5
    ensures forall t | t in ReviewerTriples(uri, key) :: t.s == uri
  {
    var a := {Triple(uri, RdfType, ReviewerClass), Triple(uri, SetorProp, Lit(key.setor))};
    var b := {Triple(uri, PorteProp, Lit(key.porte)), Triple(uri, FrequenciaProp, Lit(key.frequencia))};
    var c := Triple(uri, FrequenciaComplementarProp, Lit(key.frequenciaComplementar));
    assert |a| == 2 && |b| == 2 && a !! b;
    assert c !in a + b;
    assert ReviewerTriples(uri, key) == a + b + {c};
  }

  /**
   * Reviewer get-or-create. A cached tuple returns its resource and changes
   * nothing. A new tuple mints `reviewer_<n+1>` for a cache of `n` entries, a
   * resource not cached before; the cache grows by that one entry and keeps the
   * others; the graph gains exactly the five new triples of the reviewer.
   */
  lemma ReviewerStepSpec(st: State, key: ReviewerKey)
    requires Valid(st)
    ensures key in st.reviewerCache ==> ReviewerStep(st, key) == (st, st.reviewerCache[key])
    ensures key !in st.reviewerCache ==>
      var uri := ReviewerUri(|st.reviewerCache| + 1);
      && ReviewerStep(st, key).1 == uri
      && ReviewerStep(st, key).0.graph == st.graph + ReviewerTriples(uri, key)
      && ReviewerStep(st, key).0.reviewerCache == st.reviewerCache[key := uri]
      && uri !in st.reviewerCache.Values
      && |st.reviewerCache[key := uri]| == |st.reviewerCache| + 1
      && st.graph !! ReviewerTriples(uri, key)
      && |st.graph + ReviewerTriples(uri, key)| == |st.graph| + 5
  {
    if key !in st.reviewerCache {
      var uri := ReviewerUri(|st.reviewerCache| + 1);
      var step := ReviewerStep(st, key);
      assert step.0 == State(st.graph + ReviewerTriples(uri, key), st.reviewerCache[key := uri]);
      NewReviewerIsFresh(st, key);
    }
  }

  /** The resource minted for a new tuple is not cached yet, and none of its triples is in the graph. */
  lemma NewReviewerIsFresh(st: State, key: ReviewerKey)
    requires Valid(st) && key !in st.reviewerCache
    ensures var uri := ReviewerUri(|st.reviewerCache| + 1);
      && uri !in st.reviewerCache.Values
      && st.graph !! ReviewerTriples(uri, key)
      && |st.graph + ReviewerTriples(uri, key)| == |st.graph| + 5
  {
    var n := |st.reviewerCache|;
    var uri := ReviewerUri(n + 1);
    var added := ReviewerTriples(uri, key);
    assert uri !in st.reviewerCache.Values by {
      forall i | 1 <= i <= n ensures ReviewerUri(i) != uri {
        ReviewerUriInjective(i, n + 1);
      }
    }
    ReviewerTriplesSize(uri, key);
    assert st.graph !! added by {
      forall t | t in added ensures t !in st.graph {
        assert t.s == ReviewerUri(n + 1);
      }
    }
  }

  lemma MapValuesAddFresh<K, V>(m: map<K, V>, k: K, v: V)
    requires k !in m
    ensures m[k := v].Values == m.Values + {v}
  {
    var c := m[k := v];
    forall x | x in c.Values ensures x in m.Values + {v} {
      var k' :| k' in c && c[k'] == x;
      if k' != k {
        assert m[k'] == x;
      }
    }
    forall x | x in m.Values + {v} ensures x in c.Values {
      if x == v {
        assert c[k] == v;
      } else {
        var k' :| k' in m && m[k'] == x;
        assert c[k'] == x;
      }
    }
  }

  lemma ReviewerUrisNext(n: nat)
    ensures ReviewerUris(n + 1) == ReviewerUris(n) + {ReviewerUri(n + 1)}
  {
  }

  lemma NewReviewerCache(cache: map<ReviewerKey, Term>, key: ReviewerKey)
    requires cache.Values == ReviewerUris(|cache|) && Injective(cache) && key !in cache
    ensures var c := cache[key := ReviewerUri(|cache| + 1)];
      c.Values == ReviewerUris(|c|) && Injective(c)
  {
    var n := |cache|;
    var uri := ReviewerUri(n + 1);
    var c := cache[key := uri];
    assert uri !in cache.Values by {
      forall i | 1 <= i <= n ensures ReviewerUri(i) != uri {
        ReviewerUriInjective(i, n + 1);
      }
    }
    assert c.Values == ReviewerUris(n + 1) by {
      MapValuesAddFresh(cache, key, uri);
      ReviewerUrisNext(n);
    }
    assert |c| == n + 1;
    assert Injective(c) by {
      forall a, b | a in c && b in c && a != b ensures c[a] != c[b] {
        if a != key && b != key {
          assert c[a] == cache[a] && c[b] == cache[b];
        }
      }
    }
  }

  lemma NewReviewerTyped(g: set<Triple>, cache: map<ReviewerKey, Term>, key: ReviewerKey)
    requires SubjectsOfType(g, ReviewerClass) == cache.Values && key !in cache
    ensures var uri := ReviewerUri(|cache| + 1);
      SubjectsOfType(g + ReviewerTriples(uri, key), ReviewerClass) == cache[key := uri].Values
  {
    var uri := ReviewerUri(|cache| + 1);
    assert forall t | t in ReviewerTriples(uri, key) :: t.s == uri;
    SubjectsOfTypeAddOne(g, ReviewerTriples(uri, key), ReviewerClass, uri);
    MapValuesAddFresh(cache, key, uri);
  }

  lemma NewReviewerFresh(g: set<Triple>, n: nat, key: ReviewerKey)
    requires NoReviewerAbove(g, n)
    ensures NoReviewerAbove(g + ReviewerTriples(ReviewerUri(n + 1), key), n + 1)
  {
    var uri := ReviewerUri(n + 1);
    assert forall t | t in ReviewerTriples(uri, key) :: t.s == uri;
    forall t, i | t in g + ReviewerTriples(uri, key) && n + 1 < i ensures t.s != ReviewerUri(i) {
      if t !in g {
        ReviewerUriInjective(n + 1, i);
      }
    }
  }

  /** The reviewer step keeps the cache invariant. */
  lemma ReviewerStepPreservesValid(st: State, key: ReviewerKey)
    requires Valid(st)
    ensures Valid(ReviewerStep(st, key).0)
  {
    if key !in st.reviewerCache {
      var uri := ReviewerUri(|st.reviewerCache| + 1);
      assert ReviewerStep(st, key).0 == State(st.graph + ReviewerTriples(uri, key), st.reviewerCache[key := uri]);
      NewReviewerValid(st.graph, st.reviewerCache, key);
    }
  }

  /** Minting the next reviewer resource for an uncached tuple keeps the invariant. */
  lemma NewReviewerValid(graph: set<Triple>, cache: map<ReviewerKey, Term>, key: ReviewerKey)
    requires Valid(State(graph, cache)) && key !in cache
    ensures var uri := ReviewerUri(|cache| + 1);
      Valid(State(graph + ReviewerTriples(uri, key), cache[key := uri]))
  {
    var n := |cache|;
    var uri := ReviewerUri(n + 1);
    var cache' := cache[key := uri];
    var graph' := graph + ReviewerTriples(uri, key);
    assert |cache'| == n + 1;
    assert cache'.Values == ReviewerUris(n + 1) && Injective(cache') by {
      NewReviewerCache(cache, key);
    }
    assert SubjectsOfType(graph', ReviewerClass) == cache'.Values by {
      NewReviewerTyped(graph, cache, key);
    }
    assert NoReviewerAbove(graph', n + 1) by {
      NewReviewerFresh(graph, n, key);
    }
  }

  /** The number of Reviewer-typed subjects equals the number of cached tuples. */
  lemma ReviewerCountIsCacheSize(st: State)
    requires Valid(st)
    ensures |SubjectsOfType(st.graph, ReviewerClass)| == |st.reviewerCache|
    ensures forall key | key in st.reviewerCache :: Triple(st.reviewerCache[key], RdfType, ReviewerClass) in st.graph
  {
    ReviewerUrisSize(|st.reviewerCache|);
  }

  // ----------------------------------------------------------------- Software

  /** Adding triples that neither type a Reviewer nor are about any reviewer resource keeps the invariant. */
  lemma AddPreservesValid(st: State, added: set<Triple>)
    requires Valid(st)
    requires forall t, i | t in added :: t.s != ReviewerUri(i)
    requires forall t | t in added :: !(t.p == RdfType && t.o == ReviewerClass)
    ensures Valid(st.(graph := st.graph + added))
  {
    var st' := st.(graph := st.graph + added);
    SubjectsOfTypeUnchanged(st.graph, added, ReviewerClass);
  }

  /**
   * Software get-or-create. The resource is always `software_<id>`. If that
   * resource already has its Software type triple, nothing changes, so a later
   * name or page is ignored. Otherwise the graph gains the type, id and name
   * triples, plus the page triple exactly when the page is truthy.
   */
  lemma SoftwareStepSpec(st: State, id: string, name: string, pagina: Option<string>)
    ensures var (st', uri) := SoftwareStep(st, id, name, pagina);
      && uri == SoftwareUri(id)
      && st'.reviewerCache == st.reviewerCache
      && (Triple(uri, RdfType, SoftwareClass) in st.graph ==> st' == st)
      && Triple(uri, RdfType, SoftwareClass) in st'.graph
      && (Triple(uri, RdfType, SoftwareClass) !in st.graph ==>
            && st'.graph == st.graph + SoftwareTriples(uri, id, name, pagina)
            && Triple(uri, SoftwareIdProp, Lit(id)) in st'.graph
            && Triple(uri, NameProp, Lit(name)) in st'.graph
            && (forall p :: Triple(uri, PaginaProp, Lit(p)) in SoftwareTriples(uri, id, name, pagina) <==> pagina == Some(p) && p != ""))
  {
  }

  /** The software step keeps the cache invariant. */
  lemma SoftwareStepPreservesValid(st: State, id: string, name: string, pagina: Option<string>)
    requires Valid(st)
    ensures Valid(SoftwareStep(st, id, name, pagina).0)
  {
    var uri := SoftwareUri(id);
    if Triple(uri, RdfType, SoftwareClass) !in st.graph {
      assert SoftwareStep(st, id, name, pagina).0 == st.(graph := st.graph + SoftwareTriples(uri, id, name, pagina));
      SoftwareTriplesNotReviewer(id, name, pagina);
      AddPreservesValid(st, SoftwareTriples(uri, id, name, pagina));
    }
  }

  /** The triples of a new software neither type a Reviewer nor are about a reviewer resource. */
  lemma SoftwareTriplesNotReviewer(id: string, name: string, pagina: Option<string>)
    ensures forall t, i | t in SoftwareTriples(SoftwareUri(id), id, name, pagina) :: t.s != ReviewerUri(i)
    ensures forall t | t in SoftwareTriples(SoftwareUri(id), id, name, pagina) :: !(t.p == RdfType && t.o == ReviewerClass)
  {
    var uri := SoftwareUri(id);
    var added := SoftwareTriples(uri, id, name, pagina);
    assert forall t | t in added :: t.s == uri && (t.o == SoftwareClass || t.o.Lit?);
    forall i ensures uri != ReviewerUri(i) {
      MintedUrisDistinct(id, i, 0);
    }
  }

  // --------------------------------------------------------------------- Rows

  /** The attribute columns of a review, in lookup order. */
  const ReviewColumns: seq<string> := ["fonte", "recomendacao", "comentario", "vantagem", "desvantagem"]

  /** The row has every attribute column of a review. */
  predicate HasReviewColumns(row: Row) {
    "fonte" in row && "recomendacao" in row && "comentario" in row && "vantagem" in row && "desvantagem" in row
  }

  /** The column whose lookup fails first in a row body, if any. */
  function MissingColumnOf(row: Row): Option<string> {
    FirstMissing(row, RequiredColumns)
  }

  /** The row gets as far as creating its review resource. */
  predicate ReachesReview(row: Row) {
    "software_id" in row && FirstMissing(row, ReviewerColumns).None? && "data_avaliacao" in row
  }

  /** The type triple and the six required attribute triples of a review. */
  function RequiredReviewTriples(review: Term, row: Row, date: Date): set<Triple>
    requires HasReviewColumns(row)
  {
    {
      Triple(review, RdfType, ReviewClass),
      Triple(review, FonteProp, Lit(row["fonte"])),
      Triple(review, RecomendacaoProp, Lit(row["recomendacao"])),
      Triple(review, DataAvaliacaoProp, DateLit(date)),
      Triple(review, ComentarioProp, Lit(row["comentario"])),
      Triple(review, VantagemProp, Lit(row["vantagem"])),
      Triple(review, DesvantagemProp, Lit(row["desvantagem"]))
    }
  }

  lemma {:induction false} FirstMissingAppend(row: Row, a: seq<string>, b: seq<string>)
    ensures FirstMissing(row, a + b) == if FirstMissing(row, a).Some? then FirstMissing(row, a) else FirstMissing(row, b)
  {
    if a == [] {
      assert a + b == b;
    } else {
      assert (a + b)[0] == a[0];
      assert (a + b)[1..] == a[1..] + b;
      FirstMissingAppend(row, a[1..], b);
    }
  }

  /** The lookup order of a row body: software id, reviewer columns, date, review columns. */
  lemma MissingColumnOrder(row: Row)
    ensures MissingColumnOf(row) ==
      if "software_id" !in row then Some("software_id")
      else if FirstMissing(row, ReviewerColumns).Some? then FirstMissing(row, ReviewerColumns)
      else if "data_avaliacao" !in row then Some("data_avaliacao")
      else FirstMissing(row, ReviewColumns)
  {
    assert RequiredColumns == ["software_id"] + (ReviewerColumns + (["data_avaliacao"] + ReviewColumns));
    FirstMissingAppend(row, ["software_id"], ReviewerColumns + (["data_avaliacao"] + ReviewColumns));
    FirstMissingAppend(row, ReviewerColumns, ["data_avaliacao"] + ReviewColumns);
    FirstMissingAppend(row, ["data_avaliacao"], ReviewColumns);
  }

  /** The review columns are looked up in the order fonte, recomendacao, comentario, vantagem, desvantagem. */
  lemma ReviewColumnsOrder(row: Row)
    ensures FirstMissing(row, ReviewColumns) ==
      if "fonte" !in row then Some("fonte")
      else if "recomendacao" !in row then Some("recomendacao")
      else if "comentario" !in row then Some("comentario")
      else if "vantagem" !in row then Some("vantagem")
      else if "desvantagem" !in row then Some("desvantagem")
      else None
  {
    var c4 := ["desvantagem"];
    var c3 := ["vantagem"] + c4;
    var c2 := ["comentario"] + c3;
    var c1 := ["recomendacao"] + c2;
    assert ReviewColumns == ["fonte"] + c1;
    assert FirstMissing(row, c4) == if "desvantagem" !in row then Some("desvantagem") else None;
    FirstMissingAppend(row, ["vantagem"], c4);
    FirstMissingAppend(row, ["comentario"], c3);
    FirstMissingAppend(row, ["recomendacao"], c2);
    FirstMissingAppend(row, ["fonte"], c1);
  }

  /**
   * The review part of a row ends at the first review column the row lacks, and
   * whatever it adds is about the review, bar the one `hasReview` link.
   */
  lemma ReviewTriplesShape(review: Term, software: Term, reviewer: Term, row: Row, date: Date)
    ensures var (added, outcome) := ReviewTriples(review, software, reviewer, row, date);
      && Triple(review, RdfType, ReviewClass) in added
      && outcome == (if FirstMissing(row, ReviewColumns).Some? then Skipped(FirstMissing(row, ReviewColumns).value) else Ingested)
      && (forall t | t in added :: t.s == review || t == Triple(software, HasReview, review))
      && (forall t | t in added && t.p == RdfType :: t == Triple(review, RdfType, ReviewClass))
  {
    ReviewTriplesOutcome(review, software, reviewer, row, date);
    ReviewTriplesAbout(review, software, reviewer, row, date);
  }

  lemma ReviewTriplesOutcome(review: Term, software: Term, reviewer: Term, row: Row, date: Date)
    ensures ReviewTriples(review, software, reviewer, row, date).1 ==
      if FirstMissing(row, ReviewColumns).Some? then Skipped(FirstMissing(row, ReviewColumns).value) else Ingested
  {
    ReviewColumnsOrder(row);
  }

  lemma ReviewTriplesAbout(review: Term, software: Term, reviewer: Term, row: Row, date: Date)
    ensures var added := ReviewTriples(review, software, reviewer, row, date).0;
      && Triple(review, RdfType, ReviewClass) in added
      && (forall t | t in added :: t.s == review || t == Triple(software, HasReview, review))
      && (forall t | t in added && t.p == RdfType :: t == Triple(review, RdfType, ReviewClass))
  {
    ReviewTriplesTyped(review, software, reviewer, row, date);
    ReviewTriplesSubjects(review, software, reviewer, row, date);
    ReviewTriplesTypeTriples(review, software, reviewer, row, date);
  }

  lemma ReviewTriplesTyped(review: Term, software: Term, reviewer: Term, row: Row, date: Date)
    ensures Triple(review, RdfType, ReviewClass) in ReviewTriples(review, software, reviewer, row, date).0
  {
  }

  lemma ReviewTriplesSubjects(review: Term, software: Term, reviewer: Term, row: Row, date: Date)
    ensures forall t | t in ReviewTriples(review, software, reviewer, row, date).0 :: t.s == review || t == Triple(software, HasReview, review)
  {
    ReviewColumnsOrder(row);
    if FirstMissing(row, ReviewColumns).None? {
      ReviewTriplesComplete(review, software, reviewer, row, date);
      ReviewColumnsPresent(row);
      CompleteReviewSubjects(review, software, reviewer, row, date);
    } else {
      ReviewTriplesStoppedTerms(review, software, reviewer, row, date);
    }
  }

  lemma CompleteReviewSubjects(review: Term, software: Term, reviewer: Term, row: Row, date: Date)
    requires HasReviewColumns(row)
    ensures forall t | t in RequiredReviewTriples(review, row, date) + OptionalReviewTriples(review, row)
      + {Triple(software, HasReview, review), Triple(review, MadeBy, reviewer)} :: t.s == review || t == Triple(software, HasReview, review)
  {
    RequiredAttributeTerms(review, row, date);
    OptionalAttributeTerms(review, row);
  }

  lemma ReviewTriplesTypeTriples(review: Term, software: Term, reviewer: Term, row: Row, date: Date)
    ensures forall t | t in ReviewTriples(review, software, reviewer, row, date).0 :: t.p == RdfType ==> t.o == ReviewClass
  {
    if "fonte" in row && "recomendacao" in row && "comentario" in row {
      LateTypeTriples(review, software, reviewer, row, date);
    } else {
      EarlyTypeTriples(review, software, reviewer, row, date);
    }
  }

  lemma EarlyTypeTriples(review: Term, software: Term, reviewer: Term, row: Row, date: Date)
    requires !("fonte" in row && "recomendacao" in row && "comentario" in row)
    ensures forall t | t in ReviewTriples(review, software, reviewer, row, date).0 :: t.p == RdfType ==> t.o == ReviewClass
  {
  }

  lemma LateTypeTriples(review: Term, software: Term, reviewer: Term, row: Row, date: Date)
    requires "fonte" in row && "recomendacao" in row && "comentario" in row
    ensures forall t | t in ReviewTriples(review, software, reviewer, row, date).0 :: t.p == RdfType ==> t.o == ReviewClass
  {
    if "vantagem" in row && "desvantagem" in row {
      assert HasReviewColumns(row);
      CompleteTypeTriples(review, software, reviewer, row, date);
    }
  }

  lemma CompleteTypeTriples(review: Term, software: Term, reviewer: Term, row: Row, date: Date)
    requires HasReviewColumns(row)
    ensures forall t | t in ReviewTriples(review, software, reviewer, row, date).0 :: t.p == RdfType ==> t.o == ReviewClass
  {
    ReviewColumnsOrder(row);
    ReviewTriplesComplete(review, software, reviewer, row, date);
    RequiredTypes(review, row, date);
    OptionalUntyped(review, row);
    TypesOnlyUnion(RequiredReviewTriples(review, row, date), OptionalReviewTriples(review, row), {Triple(software, HasReview, review), Triple(review, MadeBy, reviewer)});
  }

  lemma RequiredTypes(review: Term, row: Row, date: Date)
    requires HasReviewColumns(row)
    ensures forall t | t in RequiredReviewTriples(review, row, date) :: t.p == RdfType ==> t.o == ReviewClass
  {
  }

  lemma OptionalUntyped(review: Term, row: Row)
    ensures forall t | t in OptionalReviewTriples(review, row) :: t.p != RdfType
  {
  }

  lemma TypesOnlyUnion(a: set<Triple>, b: set<Triple>, c: set<Triple>)
    requires forall t | t in a :: t.p == RdfType ==> t.o == ReviewClass
    requires forall t | t in b :: t.p != RdfType
    requires forall t | t in c :: t.p != RdfType
    ensures forall t | t in a + b + c :: t.p == RdfType ==> t.o == ReviewClass
  {
  }

  lemma ReviewTriplesStopped(review: Term, software: Term, reviewer: Term, row: Row, date: Date)
    requires FirstMissing(row, ReviewColumns).Some?
    requires review.Sw? && review.local != "Review"
    ensures forall t | t in ReviewTriples(review, software, reviewer, row, date).0 :: t.s == review && t.p != MadeBy && t.o != review
  {
    ReviewColumnsOrder(row);
    ReviewTriplesStoppedTerms(review, software, reviewer, row, date);
  }

  /** A review part that completes adds the required and optional attributes and the two links. */
  lemma ReviewTriplesComplete(review: Term, software: Term, reviewer: Term, row: Row, date: Date)
    requires FirstMissing(row, ReviewColumns).None?
    ensures ReviewTriples(review, software, reviewer, row, date).0 ==
      RequiredReviewTriples(review, row, date) + OptionalReviewTriples(review, row)
      + {Triple(software, HasReview, review), Triple(review, MadeBy, reviewer)}
  {
    ReviewColumnsPresent(row);
    RequiredReviewTriplesInOrder(review, row, date);
    assert ReviewTriples(review, software, reviewer, row, date).0 == RequiredReviewTriples(review, row, date) + OptionalReviewTriples(review, row)
      + {Triple(software, HasReview, review), Triple(review, MadeBy, reviewer)};
  }

  lemma ReviewColumnsPresent(row: Row)
    requires FirstMissing(row, ReviewColumns).None?
    ensures "fonte" in row && "recomendacao" in row && "comentario" in row && "vantagem" in row && "desvantagem" in row
  {
    assert ReviewColumns[0] == "fonte" && ReviewColumns[1] == "recomendacao" && ReviewColumns[2] == "comentario";
    assert ReviewColumns[3] == "vantagem" && ReviewColumns[4] == "desvantagem";
  }

  /** The required triples, in the order the review part adds them. */
  lemma RequiredReviewTriplesInOrder(review: Term, row: Row, date: Date)
    requires "fonte" in row && "recomendacao" in row && "comentario" in row && "vantagem" in row && "desvantagem" in row
    ensures RequiredReviewTriples(review, row, date) == {Triple(review, RdfType, ReviewClass)}
      + {Triple(review, FonteProp, Lit(row["fonte"]))}
      + {Triple(review, RecomendacaoProp, Lit(row["recomendacao"])), Triple(review, DataAvaliacaoProp, DateLit(date))}
      + {Triple(review, ComentarioProp, Lit(row["comentario"]))}
      + {Triple(review, VantagemProp, Lit(row["vantagem"]))}
      + {Triple(review, DesvantagemProp, Lit(row["desvantagem"]))}
  {
  }

  /** No triple of `g` mentions `review` as subject or object. */
  ghost predicate Unused(g: set<Triple>, review: Term) {
    forall t | t in g :: t.s != review && t.o != review
  }

  /** A row that lacks `software_id` changes nothing and is reported for that column. */
  lemma RowWithoutSoftwareId(st: State, k: nat, row: Row, parseDate: string -> Option<Date>, today: Date)
    requires "software_id" !in row
    ensures RowStep(st, k, row, parseDate, today) == (st, Skipped("software_id"))
    ensures MissingColumnOf(row) == Some("software_id")
  {
    MissingColumnOrder(row);
  }

  /** A row is skipped exactly when a required lookup fails, and is reported for the first such column. */
  lemma RowOutcomeIsFirstMissing(st: State, k: nat, row: Row, parseDate: string -> Option<Date>, today: Date)
    ensures RowStep(st, k, row, parseDate, today).1 ==
      if MissingColumnOf(row).Some? then Skipped(MissingColumnOf(row).value) else Ingested
  {
    MissingColumnOrder(row);
    if ReachesReview(row) {
      var (st1, software) := SoftwareStep(st, row["software_id"], SoftwareName(row), Get(row, "pagina"));
      var (st2, reviewer) := ReviewerStep(st1, ReviewerKeyOf(row));
      ReviewTriplesShape(ReviewUri(k), software, reviewer, row, EvaluationDate(row["data_avaliacao"], parseDate, today));
    }
  }

  /** One row keeps the cache invariant. */
  lemma RowStepPreservesValid(st: State, k: nat, row: Row, parseDate: string -> Option<Date>, today: Date)
    requires Valid(st)
    ensures Valid(RowStep(st, k, row, parseDate, today).0)
  {
    if "software_id" in row {
      var (st1, software) := SoftwareStep(st, row["software_id"], SoftwareName(row), Get(row, "pagina"));
      SoftwareStepPreservesValid(st, row["software_id"], SoftwareName(row), Get(row, "pagina"));
      if FirstMissing(row, ReviewerColumns).None? {
        var (st2, reviewer) := ReviewerStep(st1, ReviewerKeyOf(row));
        ReviewerStepPreservesValid(st1, ReviewerKeyOf(row));
        if "data_avaliacao" in row {
          var review := ReviewUri(k);
          var date := EvaluationDate(row["data_avaliacao"], parseDate, today);
          var added := ReviewTriples(review, software, reviewer, row, date).0;
          assert Valid(st2.(graph := st2.graph + added)) by {
            assert software == SoftwareUri(row["software_id"]);
            ReviewTriplesShape(review, software, reviewer, row, date);
            AddReviewPartPreservesValid(st2, added, row["software_id"], k);
          }
          RowStepReachingReview(st, k, row, parseDate, today);
        }
      }
    }
  }

  /** Adding triples about a review and its software, typing only reviews, keeps the invariant. */
  lemma AddReviewPartPreservesValid(st: State, added: set<Triple>, id: string, k: nat)
    requires Valid(st)
    requires forall t | t in added :: t.s == ReviewUri(k) || t == Triple(SoftwareUri(id), HasReview, ReviewUri(k))
    requires forall t | t in added && t.p == RdfType :: t == Triple(ReviewUri(k), RdfType, ReviewClass)
    ensures Valid(st.(graph := st.graph + added))
  {
    forall i ensures ReviewUri(k) != ReviewerUri(i) && SoftwareUri(id) != ReviewerUri(i) {
      MintedUrisDistinct(id, i, k);
    }
    AddPreservesValid(st, added);
  }

  /** A row only adds triples and only adds cache entries: earlier identities are kept. */
  lemma RowStepGrows(st: State, k: nat, row: Row, parseDate: string -> Option<Date>, today: Date)
    ensures var st' := RowStep(st, k, row, parseDate, today).0;
      && st.graph <= st'.graph
      && (forall key | key in st.reviewerCache :: key in st'.reviewerCache && st'.reviewerCache[key] == st.reviewerCache[key])
  {
    if "software_id" in row {
      var (st1, software) := SoftwareStep(st, row["software_id"], SoftwareName(row), Get(row, "pagina"));
      assert st.graph <= st1.graph && st1.reviewerCache == st.reviewerCache;
      if FirstMissing(row, ReviewerColumns).None? {
        var (st2, reviewer) := ReviewerStep(st1, ReviewerKeyOf(row));
        assert st1.graph <= st2.graph;
      }
    }
  }

  // Per-step facts used by the row lemmas below.

  lemma SoftwareStepTypes(st: State, id: string, name: string, pagina: Option<string>)
    ensures var g' := SoftwareStep(st, id, name, pagina).0.graph;
      && SubjectsOfType(g', SoftwareClass) == SubjectsOfType(st.graph, SoftwareClass) + {SoftwareUri(id)}
      && SubjectsOfType(g', ReviewClass) == SubjectsOfType(st.graph, ReviewClass)
  {
    var uri := SoftwareUri(id);
    if Triple(uri, RdfType, SoftwareClass) !in st.graph {
      var added := SoftwareTriples(uri, id, name, pagina);
      assert forall t | t in added :: t.s == uri && (t.p == RdfType ==> t.o == SoftwareClass);
      SubjectsOfTypeAddOne(st.graph, added, SoftwareClass, uri);
      SubjectsOfTypeUnchanged(st.graph, added, ReviewClass);
    }
  }

  lemma ReviewerStepTypes(st: State, key: ReviewerKey)
    ensures var g' := ReviewerStep(st, key).0.graph;
      && SubjectsOfType(g', SoftwareClass) == SubjectsOfType(st.graph, SoftwareClass)
      && SubjectsOfType(g', ReviewClass) == SubjectsOfType(st.graph, ReviewClass)
  {
    if key !in st.reviewerCache {
      var added := ReviewerTriples(ReviewerUri(|st.reviewerCache| + 1), key);
      assert forall t | t in added :: t.p == RdfType ==> t.o == ReviewerClass;
      SubjectsOfTypeUnchanged(st.graph, added, SoftwareClass);
      SubjectsOfTypeUnchanged(st.graph, added, ReviewClass);
    }
  }

  lemma ReviewPartTypes(g: set<Triple>, review: Term, software: Term, reviewer: Term, row: Row, date: Date)
    ensures var g' := g + ReviewTriples(review, software, reviewer, row, date).0;
      && SubjectsOfType(g', SoftwareClass) == SubjectsOfType(g, SoftwareClass)
      && SubjectsOfType(g', ReviewClass) == SubjectsOfType(g, ReviewClass) + {review}
  {
    var added := ReviewTriples(review, software, reviewer, row, date).0;
    ReviewTriplesAbout(review, software, reviewer, row, date);
    SubjectsOfTypeUnchanged(g, added, SoftwareClass);
    SubjectsOfTypeAddOne(g, added, ReviewClass, review);
  }

  /** The software step adds nothing about a review resource. */
  lemma SoftwareStepKeepsUnused(st: State, id: string, name: string, pagina: Option<string>, k: nat)
    requires Unused(st.graph, ReviewUri(k))
    ensures Unused(SoftwareStep(st, id, name, pagina).0.graph, ReviewUri(k))
  {
    var uri := SoftwareUri(id);
    MintedUrisDistinct(id, 0, k);
    assert !RevPrefixed(SoftwareClass);
  }

  /** The reviewer step adds nothing about a review resource. */
  lemma ReviewerStepKeepsUnused(st: State, key: ReviewerKey, k: nat)
    requires Unused(st.graph, ReviewUri(k))
    ensures Unused(ReviewerStep(st, key).0.graph, ReviewUri(k))
  {
    if key !in st.reviewerCache {
      var uri := ReviewerUri(|st.reviewerCache| + 1);
      assert ReviewerStep(st, key).0.graph == st.graph + ReviewerTriples(uri, key);
      NewReviewerKeepsUnused(st.graph, |st.reviewerCache| + 1, key, k);
    } else {
      assert ReviewerStep(st, key).0 == st;
    }
  }

  /** Adding a reviewer's triples keeps a review resource unused. */
  lemma NewReviewerKeepsUnused(g: set<Triple>, n: nat, key: ReviewerKey, k: nat)
    requires Unused(g, ReviewUri(k))
    ensures Unused(g + ReviewerTriples(ReviewerUri(n), key), ReviewUri(k))
  {
    MintedUrisDistinct("", n, k);
    ReviewerTriplesAvoid(ReviewerUri(n), key, ReviewUri(k));
    UnusedAdd(g, ReviewerTriples(ReviewerUri(n), key), ReviewUri(k));
  }

  /** The triples of a reviewer mention no resource other than it and its class. */
  lemma ReviewerTriplesAvoid(uri: Term, key: ReviewerKey, x: Term)
    requires x.Sw? && x != uri && x != ReviewerClass
    ensures forall t | t in ReviewerTriples(uri, key) :: t.s != x && t.o != x
  {
    assert forall t | t in ReviewerTriples(uri, key) :: t.s == uri && (t.o == ReviewerClass || t.o.Lit?);
  }

  /** Adding triples that do not mention `x` keeps it unused. */
  lemma UnusedAdd(g: set<Triple>, added: set<Triple>, x: Term)
    requires Unused(g, x)
    requires forall t | t in added :: t.s != x && t.o != x
    ensures Unused(g + added, x)
  {
  }

  /**
   * What one row adds to the statistics: its software when it has a
   * `software_id`, and its review when it gets as far as the review.
   */
  lemma RowTypedSubjects(st: State, k: nat, row: Row, parseDate: string -> Option<Date>, today: Date)
    ensures var st' := RowStep(st, k, row, parseDate, today).0;
      && SubjectsOfType(st'.graph, SoftwareClass) ==
           SubjectsOfType(st.graph, SoftwareClass) + (if "software_id" in row then {SoftwareUri(row["software_id"])} else {})
      && SubjectsOfType(st'.graph, ReviewClass) ==
           SubjectsOfType(st.graph, ReviewClass) + (if ReachesReview(row) then {ReviewUri(k)} else {})
  {
    if "software_id" in row {
      var id := row["software_id"];
      var (st1, software) := SoftwareStep(st, id, SoftwareName(row), Get(row, "pagina"));
      SoftwareStepTypes(st, id, SoftwareName(row), Get(row, "pagina"));
      if FirstMissing(row, ReviewerColumns).None? {
        var (st2, reviewer) := ReviewerStep(st1, ReviewerKeyOf(row));
        ReviewerStepTypes(st1, ReviewerKeyOf(row));
        if "data_avaliacao" in row {
          ReviewPartTypes(st2.graph, ReviewUri(k), software, reviewer, row, EvaluationDate(row["data_avaliacao"], parseDate, today));
        }
      }
    }
  }

  /** A row adds its reviewer tuple to the cache exactly when all four reviewer columns are present. */
  lemma RowCacheKeys(st: State, k: nat, row: Row, parseDate: string -> Option<Date>, today: Date)
    ensures RowStep(st, k, row, parseDate, today).0.reviewerCache.Keys ==
      st.reviewerCache.Keys + (if "software_id" in row && FirstMissing(row, ReviewerColumns).None? then {ReviewerKeyOf(row)} else {})
  {
  }

  /** The reviewer a step returns is always one of the minted `reviewer_i`, never a review resource. */
  lemma ReviewerStepIsMinted(st: State, key: ReviewerKey, k: nat)
    requires Valid(st)
    ensures ReviewerStep(st, key).1 != ReviewUri(k)
  {
    if key in st.reviewerCache {
      var r := st.reviewerCache[key];
      assert r in ReviewerUris(|st.reviewerCache|);
      var i :| 1 <= i <= |st.reviewerCache| && r == ReviewerUri(i);
      MintedUrisDistinct("", i, k);
    } else {
      MintedUrisDistinct("", |st.reviewerCache| + 1, k);
    }
  }

  /** A row that reaches its review: the two entity steps, then the review part added to the graph. */
  lemma RowStepReachingReview(st: State, k: nat, row: Row, parseDate: string -> Option<Date>, today: Date)
    requires ReachesReview(row)
    ensures var (st1, software) := SoftwareStep(st, row["software_id"], SoftwareName(row), Get(row, "pagina"));
      var (st2, reviewer) := ReviewerStep(st1, ReviewerKeyOf(row));
      var part := ReviewTriples(ReviewUri(k), software, reviewer, row, EvaluationDate(row["data_avaliacao"], parseDate, today));
      RowStep(st, k, row, parseDate, today) == (State(st2.graph + part.0, st2.reviewerCache), part.1)
  {
  }

  /** Triples about an unused resource in `g + added` all come from `added`. */
  lemma AboutUnused(g: set<Triple>, added: set<Triple>, review: Term)
    requires Unused(g, review)
    ensures (set t | t in g + added && t.s == review) == (set t | t in added && t.s == review)
    ensures (set t | t in g + added && t.o == review) == (set t | t in added && t.o == review)
  {
  }

  /** In a complete review part, the review's own triples and the one triple pointing at it. */
  lemma CompleteReviewAbout(review: Term, software: Term, reviewer: Term, row: Row, date: Date)
    requires FirstMissing(row, ReviewColumns).None?
    requires review.Sw? && review.local != "Review"
    requires software != review && reviewer != review
    ensures HasReviewColumns(row)
    ensures var added := ReviewTriples(review, software, reviewer, row, date).0;
      && (set t | t in added && t.s == review) ==
           RequiredReviewTriples(review, row, date) + OptionalReviewTriples(review, row) + {Triple(review, MadeBy, reviewer)}
      && (set t | t in added && t.o == review) == {Triple(software, HasReview, review)}
  {
    ReviewTriplesComplete(review, software, reviewer, row, date);
    var attributes := RequiredReviewTriples(review, row, date) + OptionalReviewTriples(review, row);
    assert forall t | t in attributes :: t.s == review && t.o != review by {
      RequiredAttributeTerms(review, row, date);
      OptionalAttributeTerms(review, row);
    }
    LinkedAttributesAbout(attributes, review, software, reviewer);
  }

  /** Attributes of `review` plus its two links: what is about it, and what points at it. */
  lemma LinkedAttributesAbout(attributes: set<Triple>, review: Term, software: Term, reviewer: Term)
    requires forall t | t in attributes :: t.s == review && t.o != review
    requires software != review && reviewer != review
    ensures var all := attributes + {Triple(software, HasReview, review), Triple(review, MadeBy, reviewer)};
      && (set t | t in all && t.s == review) == attributes + {Triple(review, MadeBy, reviewer)}
      && (set t | t in all && t.o == review) == {Triple(software, HasReview, review)}
  {
    var links := {Triple(software, HasReview, review), Triple(review, MadeBy, reviewer)};
    AboutOnly(attributes, review);
    AboutUnion(attributes, links, review);
    assert (set t | t in links && t.s == review) == {Triple(review, MadeBy, reviewer)};
    assert (set t | t in links && t.o == review) == {Triple(software, HasReview, review)};
  }

  /** A set of triples all about `x`, none pointing at it. */
  lemma AboutOnly(a: set<Triple>, x: Term)
    requires forall t | t in a :: t.s == x && t.o != x
    ensures (set t | t in a && t.s == x) == a
    ensures (set t | t in a && t.o == x) == {}
  {
  }

  /** Selecting the triples about a resource distributes over union. */
  lemma AboutUnion(a: set<Triple>, b: set<Triple>, x: Term)
    ensures (set t | t in a + b && t.s == x) == (set t | t in a && t.s == x) + (set t | t in b && t.s == x)
    ensures (set t | t in a + b && t.o == x) == (set t | t in a && t.o == x) + (set t | t in b && t.o == x)
  {
  }

  /**
   * A complete row numbered `k`, whose review resource was unused, ends
   * Ingested. Its review then carries exactly: the type and six required
   * attributes (the date being the parsed cell or `today`), each optional
   * attribute only when truthy, and one `madeBy` link to the reviewer cached for
   * its tuple; and exactly one triple points at it: `hasReview` from its software.
   */
  lemma CompleteRowTriples(st: State, k: nat, row: Row, parseDate: string -> Option<Date>, today: Date)
    requires MissingColumnOf(row).None?
    requires Valid(st) && Unused(st.graph, ReviewUri(k))
    ensures "software_id" in row && "data_avaliacao" in row && FirstMissing(row, ReviewerColumns).None?
    ensures HasReviewColumns(row)
    ensures var (st', outcome) := RowStep(st, k, row, parseDate, today);
      var review := ReviewUri(k);
      && outcome == Ingested
      && ReviewerKeyOf(row) in st'.reviewerCache
      && (set t | t in st'.graph && t.s == review) ==
           RequiredReviewTriples(review, row, EvaluationDate(row["data_avaliacao"], parseDate, today))
           + OptionalReviewTriples(review, row)
           + {Triple(review, MadeBy, st'.reviewerCache[ReviewerKeyOf(row)])}
      && (set t | t in st'.graph && t.o == review) == {Triple(SoftwareUri(row["software_id"]), HasReview, review)}
  {
    MissingColumnOrder(row);
    var id := row["software_id"];
    var review := ReviewUri(k);
    var (st1, software) := SoftwareStep(st, id, SoftwareName(row), Get(row, "pagina"));
    SoftwareStepKeepsUnused(st, id, SoftwareName(row), Get(row, "pagina"), k);
    SoftwareStepPreservesValid(st, id, SoftwareName(row), Get(row, "pagina"));
    var key := ReviewerKeyOf(row);
    var (st2, reviewer) := ReviewerStep(st1, key);
    ReviewerStepKeepsUnused(st1, key, k);
    ReviewerStepIsMinted(st1, key, k);
    MintedUrisDistinct(id, 0, k);
    assert review.local[6] == '_';
    ReviewPartInGraph(st2.graph, review, software, reviewer, row, EvaluationDate(row["data_avaliacao"], parseDate, today));
    RowStepReachingReview(st, k, row, parseDate, today);
    RowOutcomeIsFirstMissing(st, k, row, parseDate, today);
  }

  /** A complete review part added to a graph where its review was unused: what is about the review. */
  lemma ReviewPartInGraph(g: set<Triple>, review: Term, software: Term, reviewer: Term, row: Row, date: Date)
    requires FirstMissing(row, ReviewColumns).None? && Unused(g, review)
    requires review.Sw? && review.local != "Review"
    requires software != review && reviewer != review
    ensures HasReviewColumns(row)
    ensures var g' := g + ReviewTriples(review, software, reviewer, row, date).0;
      && (set t | t in g' && t.s == review) ==
           RequiredReviewTriples(review, row, date) + OptionalReviewTriples(review, row) + {Triple(review, MadeBy, reviewer)}
      && (set t | t in g' && t.o == review) == {Triple(software, HasReview, review)}
  {
    CompleteReviewAbout(review, software, reviewer, row, date);
    AboutUnused(g, ReviewTriples(review, software, reviewer, row, date).0, review);
  }

  /**
   * A row that gets as far as its review but then lacks a review column is
   * reported, yet its software, its reviewer and its typed review stay in the
   * graph: the review is counted, with no `hasReview` or `madeBy` link.
   */
  lemma PartialRowKeepsReview(st: State, k: nat, row: Row, parseDate: string -> Option<Date>, today: Date)
    requires ReachesReview(row) && MissingColumnOf(row).Some?
    requires Unused(st.graph, ReviewUri(k))
    ensures var (st', outcome) := RowStep(st, k, row, parseDate, today);
      var review := ReviewUri(k);
      && outcome == Skipped(MissingColumnOf(row).value)
      && MissingColumnOf(row).value in ReviewColumns
      && SoftwareUri(row["software_id"]) in SubjectsOfType(st'.graph, SoftwareClass)
      && ReviewerKeyOf(row) in st'.reviewerCache
      && review in SubjectsOfType(st'.graph, ReviewClass)
      && (forall t | t in st'.graph && t.s == review :: t.p != MadeBy)
      && (forall t | t in st'.graph :: t.o != review)
  {
    PartialRowOutcome(st, k, row, parseDate, today);
    ReachingRowEntities(st, k, row, parseDate, today);
    PartialRowReview(st, k, row, parseDate, today);
  }

  lemma PartialRowOutcome(st: State, k: nat, row: Row, parseDate: string -> Option<Date>, today: Date)
    requires ReachesReview(row) && MissingColumnOf(row).Some?
    ensures RowStep(st, k, row, parseDate, today).1 == Skipped(MissingColumnOf(row).value)
    ensures MissingColumnOf(row).value in ReviewColumns
  {
    MissingColumnOrder(row);
    RowOutcomeIsFirstMissing(st, k, row, parseDate, today);
    FirstMissingSpec(row, ReviewColumns);
  }

  /** A row that reaches its review leaves its software typed and its reviewer cached. */
  lemma ReachingRowEntities(st: State, k: nat, row: Row, parseDate: string -> Option<Date>, today: Date)
    requires ReachesReview(row)
    ensures Triple(SoftwareUri(row["software_id"]), RdfType, SoftwareClass) in RowStep(st, k, row, parseDate, today).0.graph
    ensures ReviewerKeyOf(row) in RowStep(st, k, row, parseDate, today).0.reviewerCache
  {
    var id := row["software_id"];
    var (st1, software) := SoftwareStep(st, id, SoftwareName(row), Get(row, "pagina"));
    var (st2, reviewer) := ReviewerStep(st1, ReviewerKeyOf(row));
    assert Triple(SoftwareUri(id), RdfType, SoftwareClass) in st1.graph by {
      SoftwareStepSpec(st, id, SoftwareName(row), Get(row, "pagina"));
    }
    assert st1.graph <= st2.graph && ReviewerKeyOf(row) in st2.reviewerCache;
    RowStepReachingReview(st, k, row, parseDate, today);
  }

  /** A row that stops inside its review part leaves the review typed but unlinked. */
  lemma PartialRowReview(st: State, k: nat, row: Row, parseDate: string -> Option<Date>, today: Date)
    requires ReachesReview(row) && MissingColumnOf(row).Some?
    requires Unused(st.graph, ReviewUri(k))
    ensures var g := RowStep(st, k, row, parseDate, today).0.graph;
      && Triple(ReviewUri(k), RdfType, ReviewClass) in g
      && (forall t | t in g && t.s == ReviewUri(k) :: t.p != MadeBy)
      && (forall t | t in g :: t.o != ReviewUri(k))
  {
    MissingColumnOrder(row);
    var id := row["software_id"];
    var review := ReviewUri(k);
    var (st1, software) := SoftwareStep(st, id, SoftwareName(row), Get(row, "pagina"));
    var (st2, reviewer) := ReviewerStep(st1, ReviewerKeyOf(row));
    var date := EvaluationDate(row["data_avaliacao"], parseDate, today);
    RowStepReachingReview(st, k, row, parseDate, today);
    assert Unused(st2.graph, review) by {
      SoftwareStepKeepsUnused(st, id, SoftwareName(row), Get(row, "pagina"), k);
      ReviewerStepKeepsUnused(st1, ReviewerKeyOf(row), k);
    }
    assert review.local[6] == '_';
    ReviewPartStoppedInGraph(st2.graph, review, software, reviewer, row, date);
  }

  /** A review part that stops early, added to a graph where its review was unused: the review is typed but unlinked. */
  lemma ReviewPartStoppedInGraph(g: set<Triple>, review: Term, software: Term, reviewer: Term, row: Row, date: Date)
    requires FirstMissing(row, ReviewColumns).Some? && Unused(g, review)
    requires review.Sw? && review.local != "Review"
    ensures var g' := g + ReviewTriples(review, software, reviewer, row, date).0;
      && Triple(review, RdfType, ReviewClass) in g'
      && (forall t | t in g' && t.s == review :: t.p != MadeBy)
      && (forall t | t in g' :: t.o != review)
  {
    ReviewTriplesShape(review, software, reviewer, row, date);
    ReviewTriplesStopped(review, software, reviewer, row, date);
  }

  // ------------------------------------------------ What a row leaves untouched

  /** The software step adds no triple mentioning a review resource. */
  lemma SoftwareStepNotAbout(st: State, id: string, name: string, pagina: Option<string>, m: nat)
    ensures Unused(SoftwareStep(st, id, name, pagina).0.graph - st.graph, ReviewUri(m))
  {
    MintedUrisDistinct(id, 0, m);
    assert !RevPrefixed(SoftwareClass);
  }

  /** The reviewer step adds no triple mentioning a review resource. */
  lemma ReviewerStepNotAbout(st: State, key: ReviewerKey, m: nat)
    ensures Unused(ReviewerStep(st, key).0.graph - st.graph, ReviewUri(m))
  {
    MintedUrisDistinct("", |st.reviewerCache| + 1, m);
    assert !RevPrefixed(ReviewerClass);
  }

  /** The review part of a row mentions only its own review, its software and its reviewer. */
  lemma ReviewTriplesNotAbout(review: Term, software: Term, reviewer: Term, row: Row, date: Date, x: Term)
    requires x.Sw? && x.local != "Review"
    requires review != x && software != x && reviewer != x
    ensures Unused(ReviewTriples(review, software, reviewer, row, date).0, x)
  {
    ReviewTriplesTerms(review, software, reviewer, row, date);
  }

  /** The subjects and objects the review part of a row can mention. */
  lemma ReviewTriplesTerms(review: Term, software: Term, reviewer: Term, row: Row, date: Date)
    ensures forall t | t in ReviewTriples(review, software, reviewer, row, date).0 ::
      && (t.s == review || t.s == software)
      && (t.o == ReviewClass || t.o == review || t.o == reviewer || !t.o.Sw?)
  {
    if HasReviewColumns(row) {
      CompleteReviewTerms(review, software, reviewer, row, date);
    } else {
      ReviewTriplesStoppedTerms(review, software, reviewer, row, date);
    }
  }

  lemma CompleteReviewTerms(review: Term, software: Term, reviewer: Term, row: Row, date: Date)
    requires HasReviewColumns(row)
    ensures forall t | t in ReviewTriples(review, software, reviewer, row, date).0 ::
      && (t.s == review || t.s == software)
      && (t.o == ReviewClass || t.o == review || t.o == reviewer || !t.o.Sw?)
  {
    ReviewColumnsOrder(row);
    ReviewTriplesComplete(review, software, reviewer, row, date);
    RequiredAttributeTerms(review, row, date);
    OptionalAttributeTerms(review, row);
    LinkedTerms(ReviewTriples(review, software, reviewer, row, date).0,
      RequiredReviewTriples(review, row, date), OptionalReviewTriples(review, row), review, software, reviewer);
  }

  /** A review's attributes plus its two links mention only the review, its software, its reviewer and literals. */
  lemma LinkedTerms(added: set<Triple>, required: set<Triple>, optional: set<Triple>, review: Term, software: Term, reviewer: Term)
    requires added == required + optional + {Triple(software, HasReview, review), Triple(review, MadeBy, reviewer)}
    requires forall t | t in required :: t.s == review && (t.o == ReviewClass || !t.o.Sw?)
    requires forall t | t in optional :: t.s == review && !t.o.Sw?
    ensures forall t | t in added ::
      && (t.s == review || t.s == software)
      && (t.o == ReviewClass || t.o == review || t.o == reviewer || !t.o.Sw?)
  {
  }

  lemma RequiredAttributeTerms(review: Term, row: Row, date: Date)
    requires HasReviewColumns(row)
    ensures forall t | t in RequiredReviewTriples(review, row, date) :: t.s == review && (t.o == ReviewClass || !t.o.Sw?)
  {
  }

  lemma OptionalAttributeTerms(review: Term, row: Row)
    ensures forall t | t in OptionalReviewTriples(review, row) :: t.s == review && !t.o.Sw?
  {
  }

  lemma ReviewTriplesStoppedTerms(review: Term, software: Term, reviewer: Term, row: Row, date: Date)
    requires !("fonte" in row && "recomendacao" in row && "comentario" in row && "vantagem" in row && "desvantagem" in row)
    ensures forall t | t in ReviewTriples(review, software, reviewer, row, date).0 :: t.s == review && t.p != MadeBy && (t.o == ReviewClass || !t.o.Sw?)
  {
    var added := ReviewTriples(review, software, reviewer, row, date).0;
    var g := {
      Triple(review, RdfType, ReviewClass),
      Triple(review, FonteProp, Lit(Get(row, "fonte").GetOr(""))),
      Triple(review, RecomendacaoProp, Lit(Get(row, "recomendacao").GetOr(""))),
      Triple(review, DataAvaliacaoProp, DateLit(date)),
      Triple(review, ComentarioProp, Lit(Get(row, "comentario").GetOr(""))),
      Triple(review, VantagemProp, Lit(Get(row, "vantagem").GetOr("")))
    };
    assert added <= g;
  }

  /** A row numbered `k` adds no triple mentioning the review resource of another row. */
  lemma RowStepNotAbout(st: State, k: nat, row: Row, parseDate: string -> Option<Date>, today: Date, m: nat)
    requires Valid(st) && k != m
    ensures Unused(RowStep(st, k, row, parseDate, today).0.graph - st.graph, ReviewUri(m))
  {
    if "software_id" in row {
      var id := row["software_id"];
      var (st1, software) := SoftwareStep(st, id, SoftwareName(row), Get(row, "pagina"));
      SoftwareStepNotAbout(st, id, SoftwareName(row), Get(row, "pagina"), m);
      if FirstMissing(row, ReviewerColumns).None? {
        var key := ReviewerKeyOf(row);
        var (st2, reviewer) := ReviewerStep(st1, key);
        ReviewerStepNotAbout(st1, key, m);
        if "data_avaliacao" in row {
          SoftwareStepPreservesValid(st, id, SoftwareName(row), Get(row, "pagina"));
          ReviewerStepIsMinted(st1, key, m);
          ReviewUriInjective(k, m);
          MintedUrisDistinct(id, 0, m);
          var x := ReviewUri(m);
          assert x.local[6] == '_';
          var date := EvaluationDate(row["data_avaliacao"], parseDate, today);
          ReviewTriplesNotAbout(ReviewUri(k), software, reviewer, row, date, x);
          RowStepReachingReview(st, k, row, parseDate, today);
        }
      }
    }
  }
}
