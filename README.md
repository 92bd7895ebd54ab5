# CSV-to-ontology populator, modelled in Dafny

The system reads a CSV file of software reviews and turns it into an OWL
ontology held in an RDF graph. Its core is the class `CSVOntologyPopulator`,
which keeps two pieces of mutable state:

- an RDF graph, which is a set of (subject, predicate, object) triples;
- a reviewer cache, which maps a reviewer's four attributes (`setor`, `porte`,
  `frequencia`, `frequencia_complementar`) to the resource minted for that
  reviewer.

Construction declares a fixed schema of 3 classes, 2 object properties and 15
datatype properties. Each CSV row then goes through a get-or-create step for
its software (`software_<id>`, first row wins) and one for its reviewer
(`reviewer_<n>`, numbered in order of first appearance). The row then adds a
review `review_<k>`, where `k` is the row's 1-based number. A row that lacks a
required column is reported and skipped. Whatever the row had already added
stays in the graph: a row that fails at a review column leaves a Review-typed
`review_k` with no `hasReview` or `madeBy` link, and `print_statistics`, which
counts the typed subjects of each class, counts it.

The model has nine modules:

- `Rdf`: terms, triples and `SubjectsOfType`.
- `Decimal`: the decimal rendering used in the minted names.
- `Wrappers`: `Option`.
- `Schema`: the declared vocabulary and its triples.
- `Ingestion`: the state as a value, with each step of the populator as a pure
  function of the old state, and the cache invariant `Valid`.
- `StepProperties`: what one reviewer, software or row step does.
- `IngestProperties`: what a whole sequence of rows does.
- `SoftwareProperties`: what a whole sequence of rows leaves of one software.
- `Populator`: the class `CsvOntologyPopulator`. It has the fields `graph` and
  `reviewerCache`, which its methods update in place. Each method is proved to
  change those fields exactly as the matching `Schema` or `Ingestion` function
  says, so every lemma about the functions is a statement about the object.

The code declares fifteen datatype properties (csv_to_ontology.py:34-50), so
the schema has 3 + 6 + 45 = 54 distinct triples.

## Model

| member | source | states |
|---|---|---|
| Populator.CsvOntologyPopulator.constructor | csv_to_ontology.py:8-12 | A new populator holds exactly the schema triples and an empty reviewer cache, and the cache invariant holds. |
| Populator.CsvOntologyPopulator.InitializeOntology | csv_to_ontology.py:14-54 | Adds exactly the schema triples (classes, then object properties, then datatype properties) and leaves the cache alone. |
| Populator.CsvOntologyPopulator.DeclareClasses | csv_to_ontology.py:19-21 | The loop adds one `owl:Class` triple per class name and nothing else. |
| Populator.CsvOntologyPopulator.DeclareProperties | csv_to_ontology.py:24-54 | The loop adds the type, domain and range triples of each declared property and nothing else. |
| Populator.CsvOntologyPopulator.GetOrCreateReviewer | csv_to_ontology.py:56-75 | Graph, cache and returned resource are exactly those of the reviewer get-or-create step on the old state (see `StepProperties.ReviewerStepSpec`). |
| Populator.CsvOntologyPopulator.GetOrCreateSoftware | csv_to_ontology.py:77-90 | Graph, cache and returned resource are exactly those of the software get-or-create step on the old state (see `StepProperties.SoftwareStepSpec`). |
| Populator.CsvOntologyPopulator.ProcessRow | csv_to_ontology.py:98-144 | One row body: software, then reviewer, then review. The new state and outcome are those of `Ingestion.RowStep`, and a failed column lookup ends the row with what it already added kept. |
| Populator.CsvOntologyPopulator.AddReview | csv_to_ontology.py:124-140 | Adds exactly the review triples of the row up to the first attribute column it lacks, and returns whether the row completed. |
| Populator.CsvOntologyPopulator.ProcessCsv | csv_to_ontology.py:92-147 | Every row, numbered from 1, goes through the row body in order. The reported errors are exactly the rows lacking a required column, each with the first such column. The cache invariant is preserved. |
| Populator.CsvOntologyPopulator.ProcessNumberedRow | csv_to_ontology.py:97-144 | One turn of the loop: row `i` is processed as row number `i + 1` and reported if skipped, which extends the run by one row. |
| Populator.CsvOntologyPopulator.PrintStatistics | csv_to_ontology.py:154-158 | Returns the number of Software-, Review- and Reviewer-typed subjects; under the invariant the reviewer count equals the cache size. |
| Rdf.SubjectsOfType | csv_to_ontology.py:156-158 | `x` is counted exactly when the triple `x rdf:type cls` is in the graph. |
| Rdf.SubjectsOfTypeAddOne | csv_to_ontology.py:156-158 | Adding triples whose only `cls`-typed subject is `x` adds exactly `x` to that class's count set. |
| Rdf.SubjectsOfTypeUnchanged | csv_to_ontology.py:156-158 | Adding triples that type nothing as `cls` leaves that class's count set unchanged. |
| Decimal.NatToString | csv_to_ontology.py:65 | The decimal rendering is non-empty, is one digit exactly for numbers below ten, and ends in the digit of `n % 10`. |
| Decimal.NatToStringInjective | csv_to_ontology.py:65 | Distinct numbers have distinct renderings. |
| Schema.SchemaSize | csv_to_ontology.py:14-54 | The schema has 3 class triples, 6 object-property triples and 45 datatype-property triples: 54 distinct triples. |
| Schema.SchemaTypesAreDeclarations | csv_to_ontology.py:14-54 | Every `rdf:type` triple of the schema declares a class or a property, never an instance, so the schema adds nothing to the statistics. |
| Schema.ClassTriplesShape | csv_to_ontology.py:19-21 | Every class-declaration triple types one of the listed names as `owl:Class`. |
| Schema.PropertyTriplesShape | csv_to_ontology.py:28-31 | Every property-declaration triple has one of the declared properties as its subject. |
| Schema.DatatypePropertyNames | csv_to_ontology.py:34-50 | The fifteen datatype properties have fifteen distinct names. |
| Schema.PropertyNamesDisjoint | csv_to_ontology.py:24-50 | No name is declared both as an object property and as a datatype property. |
| Ingestion.FirstMissing | csv_to_ontology.py:107-112 | When no column is reported missing, the row has every listed column. |
| Ingestion.FirstMissingSpec | csv_to_ontology.py:107-112 | Nothing is missing exactly when every column is present. Otherwise the reported column is absent and every column before it is present. |
| Ingestion.SoftwareUriInjective | csv_to_ontology.py:79 | `software_<a>` and `software_<b>` are the same resource exactly when the ids are equal. |
| Ingestion.ReviewerUriInjective | csv_to_ontology.py:65-66 | `reviewer_<a>` and `reviewer_<b>` are the same resource exactly when `a == b`. |
| Ingestion.ReviewUriInjective | csv_to_ontology.py:115-116 | `review_<a>` and `review_<b>` are the same resource exactly when `a == b`. |
| Ingestion.MintedUrisDistinct | csv_to_ontology.py:115-116 | A software, a reviewer and a review resource never coincide. |
| Ingestion.ReviewerStep | csv_to_ontology.py:56-75 | The returned resource is what the cache then holds for the tuple. No triple is removed and no cached tuple changes its resource. |
| Ingestion.SoftwareStep | csv_to_ontology.py:77-90 | The returned resource is `software_<id>`, which is then typed Software. No triple is removed and the reviewer cache is untouched. |
| Ingestion.SoftwareName | csv_to_ontology.py:102 | The name is the `name` cell whenever the column exists, even when the cell is empty. Only a row without the column gets "Software " followed by its id. |
| Ingestion.EvaluationDate | csv_to_ontology.py:119-122 | The review date is the parsed cell when it parses, and today otherwise. |
| Ingestion.ReviewTriples | csv_to_ontology.py:124-140 | The review part always types the review. A part cut short is cut at a column the row lacks. A completed part links the software to the review and the review to its reviewer. |
| Ingestion.RowStep | csv_to_ontology.py:98-144 | A row body never removes a triple, and a skipped row is skipped for a column it lacks. |
| Ingestion.Run | csv_to_ontology.py:97-147 | The loop reports at most one error per row. Which errors it reports is `IngestProperties.IngestErrors`. |
| Ingestion.Ingest | csv_to_ontology.py:97-147 | A call of `process_csv` reports at most one error per row. Which errors it reports is `IngestProperties.IngestErrors`. |
| StepProperties.ReviewerStepSpec | csv_to_ontology.py:56-75 | A cached tuple returns its resource and changes nothing. A new tuple mints `reviewer_<n+1>`, which is not yet cached, grows the cache by one entry, and adds exactly five new triples (the type and four attributes). |
| StepProperties.ReviewerTriplesSize | csv_to_ontology.py:68-72 | A new reviewer's triples are five, all about that reviewer. |
| StepProperties.ReviewerUrisSize | csv_to_ontology.py:65 | `reviewer_1` .. `reviewer_n` are `n` distinct resources. |
| StepProperties.ReviewerStepPreservesValid | csv_to_ontology.py:59-74 | The reviewer step keeps the cache invariant: the values are `reviewer_1..n`, injective, and exactly the Reviewer-typed subjects. |
| StepProperties.NewReviewerValid | csv_to_ontology.py:65-74 | Adding a new reviewer's triples and cache entry keeps the cache invariant. |
| StepProperties.ReviewerCountIsCacheSize | csv_to_ontology.py:158 | Under the invariant, the Reviewer count equals the cache size and every cached resource is typed Reviewer. |
| StepProperties.ReviewerStepIsMinted | csv_to_ontology.py:62-66 | Under the invariant, the resource the reviewer step returns is never a review resource. |
| StepProperties.SoftwareStepSpec | csv_to_ontology.py:77-90 | Always returns `software_<id>` and leaves the cache alone. An already typed software leaves the state unchanged. A new one gets its type, id and name triples, plus the page exactly when it is present and non-empty. |
| StepProperties.SoftwareStepPreservesValid | csv_to_ontology.py:77-90 | The software step keeps the cache invariant. |
| StepProperties.SoftwareStepTypes | csv_to_ontology.py:82-83 | The software step adds exactly its resource to the Software count and leaves the Review count unchanged. |
| StepProperties.ReviewerStepTypes | csv_to_ontology.py:68 | The reviewer step changes neither the Software nor the Review count. |
| StepProperties.MissingColumnOrder | csv_to_ontology.py:100-131 | The column a row is reported for is the first one the row body looks up and does not find: `software_id`, then the reviewer columns, then `data_avaliacao`, then the review columns. |
| StepProperties.ReviewColumnsOrder | csv_to_ontology.py:126-131 | Among the review columns, the reported one is the first of `fonte`, `recomendacao`, `comentario`, `vantagem`, `desvantagem` that is absent. |
| StepProperties.ReviewTriplesShape | csv_to_ontology.py:124-140 | The review part always types the review. Every triple it adds is about the review, except the `hasReview` link. It types nothing else. It ends at the first missing review column. |
| StepProperties.ReviewTriplesComplete | csv_to_ontology.py:124-140 | With every review column present, it adds exactly the six required attributes and the type, the truthy optional attributes, and the `hasReview` and `madeBy` links. |
| StepProperties.ReviewTriplesStopped | csv_to_ontology.py:124-131 | A review part cut short adds only triples about the review, with no `madeBy` and nothing pointing at the review. |
| StepProperties.ReviewTriplesTerms | csv_to_ontology.py:124-140 | Every triple the review part adds has the review or the software as its subject. Its object is the Review class, the review, the reviewer or a literal. |
| StepProperties.OptionalUntyped | csv_to_ontology.py:133-136 | The optional attributes are never `rdf:type` triples. |
| StepProperties.RowWithoutSoftwareId | csv_to_ontology.py:100-101 | A row lacking `software_id` changes nothing and is reported for that column. |
| StepProperties.RowOutcomeIsFirstMissing | csv_to_ontology.py:98-144 | A row is skipped, for its first missing required column, exactly when it lacks one. Otherwise it is ingested. |
| StepProperties.RowStepPreservesValid | csv_to_ontology.py:98-140 | A row keeps the cache invariant. |
| StepProperties.RowStepGrows | csv_to_ontology.py:98-147 | A row never removes a triple, never removes a cache entry and never rebinds one: there is no rollback. |
| StepProperties.RowTypedSubjects | csv_to_ontology.py:98-140 | A row adds its software to the Software count when it has `software_id`. It adds `review_k` to the Review count exactly when it gets as far as the review. Nothing else is added to either count. |
| StepProperties.RowCacheKeys | csv_to_ontology.py:107-112 | A row adds its reviewer tuple to the cache exactly when it reaches the reviewer lookup with all four columns present. |
| StepProperties.RowStepReachingReview | csv_to_ontology.py:100-140 | A row that reaches its review is the software step, then the reviewer step, then the review part with the parsed-or-today date. |
| StepProperties.RowStepNotAbout | csv_to_ontology.py:115-140 | Row `k` adds no triple that mentions another row's review resource. |
| StepProperties.CompleteRowTriples | csv_to_ontology.py:115-140 | A complete row on an unused review number is ingested. The triples about `review_k` are exactly its required and optional attributes plus `madeBy` to its cached reviewer. The only triple pointing at it is `hasReview` from its software. |
| StepProperties.PartialRowKeepsReview | csv_to_ontology.py:124-147 | A row that fails at a review column is reported for it. Its software, reviewer and Review-typed `review_k` stay, with no `madeBy` and nothing pointing at the review. |
| IngestProperties.InitialState | csv_to_ontology.py:8-54 | After construction all three counts are zero, the invariant holds and no review resource is mentioned. |
| IngestProperties.IngestPreservesValid | csv_to_ontology.py:97-147 | Processing any rows keeps the cache invariant. |
| IngestProperties.IngestExtends | csv_to_ontology.py:97-147 | Processing rows only adds triples and cache entries, and never rebinds a cached tuple. |
| IngestProperties.IngestErrors | csv_to_ontology.py:142-144 | The errors a run reports are exactly the reference list of rows lacking a required column. |
| IngestProperties.IngestStep | csv_to_ontology.py:97-144 | Processing the first `i + 1` rows is processing the first `i` rows, then row `i` with number `first + i`. |
| IngestProperties.IngestSoftware | csv_to_ontology.py:100-104 | A run adds exactly the `software_<id>` of every row with a `software_id` to the Software count. |
| IngestProperties.IngestReviews | csv_to_ontology.py:114-125 | A run adds exactly the `review_k` of every row that reaches its review to the Review count. |
| IngestProperties.IngestReviewerKeys | csv_to_ontology.py:107-112 | A run adds exactly the reviewer tuples of the rows that reach the reviewer lookup to the cache keys. |
| IngestProperties.IngestNotAbout | csv_to_ontology.py:115-116 | Rows numbered outside the review number `m` add nothing that mentions `review_m`. |
| IngestProperties.IngestCompleteRow | csv_to_ontology.py:97-140 | After the whole run, each complete row's review is still described exactly as its row wrote it, because later rows never touch it. |
| IngestProperties.IngestKeepsAbout | csv_to_ontology.py:97-147 | Rows numbered after `m` leave what the graph says about `review_m` unchanged. |
| IngestProperties.RowErrors | csv_to_ontology.py:142-144 | Every reported error names a row of the run and the first required column that row lacks. There is at most one error per row, and the errors are in increasing row order. |
| IngestProperties.RowErrorsComplete | csv_to_ontology.py:142-144 | Every row that lacks a required column is reported with that column. |
| IngestProperties.RowErrorsEmpty | csv_to_ontology.py:142-144 | No error is reported exactly when every row has every required column. |
| IngestProperties.SoftwareOfSize | csv_to_ontology.py:79 | The software resources of the rows are as many as their distinct `software_id` values. |
| IngestProperties.ReviewsOfSize | csv_to_ontology.py:115-116 | The review resources of the rows are as many as the rows that reach their review: review numbers never collide. |
| IngestProperties.RunStatistics | csv_to_ontology.py:154-158 | From a fresh populator, the counts are the number of distinct `software_id` values, the number of rows that reach their review, and the number of distinct reviewer tuples. The errors are the reference list. |
| IngestProperties.CompleteRun | csv_to_ontology.py:97-158 | If every row is complete, a fresh populator reports no error and counts one review per row. |
| Schema.SchemaPredicates | csv_to_ontology.py:14-54 | The schema only types resources and gives properties a domain and a range. |
| SoftwareProperties.FirstWith | csv_to_ontology.py:97-104 | For an id some row carries, the index of the first row with that id: it carries the id, and no earlier row does. |
| SoftwareProperties.FirstRowWins | csv_to_ontology.py:77-104 | After a run from a fresh populator, the id, name and page triples of `software_<id>` are exactly those the first row with that id produced. The name and page of every later row with the same id are ignored. |
| SoftwareProperties.FirstRowAttributes | csv_to_ontology.py:97-104 | From a state where `software_<id>` is neither typed nor described: the rows before the first one with the id leave it so, and from that row on it is typed and carries that row's id, name and page. |
| SoftwareProperties.RowStepAttributes | csv_to_ontology.py:77-140 | A row naming another software, or none, leaves the type, id, name and page triples of `software_<id>` as they were. A row naming it types it, and adds its id, name and page only if it was not typed before. |
| SoftwareProperties.SoftwareStepAttributes | csv_to_ontology.py:77-90 | The software step for another id leaves `software_<id>` as it was. For the same id it types it, changes nothing if it was typed, and otherwise adds its id, name and page. |
| SoftwareProperties.RowStepAfterSoftware | csv_to_ontology.py:106-140 | After its software step, a row only adds triples about reviewer and review resources, and the `hasReview` link. |
| SoftwareProperties.ReviewerStepRevPrefixed | csv_to_ontology.py:56-75 | The reviewer step only adds triples about reviewer resources. |
| SoftwareProperties.InitialUndescribed | csv_to_ontology.py:8-54 | The freshly built ontology neither types nor describes any software. |

## Left out

- Reading the file and parsing the CSV with `csv.DictReader` (csv_to_ontology.py:94-95) are left out. The rows are given as a sequence of maps from column to cell. A column missing from the header is absent from the map. The `None` filler `DictReader` gives the cells of a short row is not modelled.
- `save_ontology` (csv_to_ontology.py:149-152) is left out. It only serialises the graph through rdflib.
- Printed output is left out (csv_to_ontology.py:143, 146, 152, 160-163):
  - `ProcessCsv` returns the reported rows as a list of (row number, column) errors instead of printing them;
  - `PrintStatistics` returns the three counts.
- `datetime.strptime` is a parameter `parseDate: string -> Option<Date>` (csv_to_ontology.py:119-122). `datetime.now().date()` is a parameter `today`, fixed for one call of `ProcessCsv`.
- The catch-all `except Exception` (csv_to_ontology.py:145-147) is left out. The exceptions it could catch come from library code not part of this model, and the only failures modelled are the missing-column lookups.
- The rdflib internals are left out (csv_to_ontology.py:9-10, 16, 66, 79): `Namespace` string concatenation, `Literal` datatype inference and `bind`. Resources are the datatype `Term`, with `Sw(local)` standing for the namespaced URI.
- The `__main__` block (csv_to_ontology.py:167-177) is left out.
- Populator.CsvOntologyPopulator.AddReview collects one row's review triples in a local set and adds them to the graph when the row ends, normally or at the failed lookup. The source adds them one at a time. The graph between rows is the same, but the states inside a row are not modelled.
- Populator.CsvOntologyPopulator.ProcessCsv numbers the rows of each call from 1, as the source does. The model proves nothing about a second call on the same object reusing the review numbers of the first, beyond the invariant and the state equation.
