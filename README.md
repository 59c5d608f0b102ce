# simple-lucene, modelled in Dafny

simple-lucene is a Java layer over Lucene. It gives a caller leases on the
index's searcher and writer, schemas that turn a domain value into Lucene
fields and back, identity policies that decide how a value is added,
updated and deleted (a bucket, a set, a collection), a `java.util.Collection`
facade over an index, and query executors that page through the hits.

This project models that layer over an abstract index and proves what the
layer promises:

- **Index** (`index.dfy`): a document is a sequence of physical fields. The
  writer holds a sequence of documents. `addDocument` appends, `updateDocument`
  removes the documents carrying a term and appends, and `deleteDocuments`
  removes the matching documents. A commit copies the writer into the committed
  state, and a refresh makes the writer's documents the snapshot that new
  searchers see. Every engine call is logged. The calls named in `faults`
  throw an IOException, so every failure path can be followed.
- **Outcomes and numbers** (`outcomes.dfy`): a Java call returns or throws
  (`Outcome`). An effectful call also hands back the engine it leaves
  (`Ran`). Java's 32- and 64-bit arithmetic is written out explicitly.
- **Leases** (`leases.dfy`, `backend.dfy`): lease functions and their
  composition, lease factories, `DefaultLease` (its release log and
  swallowed release failures), and `DefaultLuceneBackend`. That covers the
  search lease, the update lease whose release commits, commits the taxonomy
  and refreshes in that order, and the ordered shutdown.
- **Schema** (`schema.dfy`, `builders.dfy`): sub-field naming and
  expansion, the single- and multi-valued readers, the field descriptor
  builders, and the document descriptor builder with its facet registration.
- **Domain marshalling** (`domain.dfy`): the default id, the id of a map
  (id fields sorted by key and joined with `.`), and `createDocument` and
  `readDocument` of `MapDomainOperations`.
- **Identity policies** (`updates.dfy`): `UpdateOperations.chain` and the
  bucket, set-like and collection-like update operations.
- **Collection facade** (`collection.dfy`): `AbstractLuceneCollection` and its
  set and collection wirings.
- **Queries** (`queries.dfy`, `executors.dfy`, `results.dfy`, `paging.dfy`):
  - the query factories;
  - the executor wrappers and query options;
  - results and their adapters;
  - `DefaultQueryExecutor`, including its lease leak when query translation
    fails;
  - `DefaultPagedQueryExecutor`. Its stream is proved to yield every hit
    exactly once, in order, in pages of `maxHits`, over one shared lease
    that is released once.

The model does what the Java does, including what looks unintended: the
set-like and collection-like policies run `deleteAll` as written, and the
facade runs `containsAll` as written. Four such places are under
"## Findings". For each, the model proves what the code as written does and
states a corrected definition beside it with the intended property proved.

The `com.github` and `io.github` trees of the source are two copies of the
same library. Where a member models code present in both copies, its row
cites the one copy the model follows.

## Model

| member | source | states |
|---|---|---|
| Index.GetFields | simple-lucene-core/src/main/java/io/github/iamnicknack/slc/core/document/SingleValueFieldReader.java:21 | getFields(name) gives fields of that name only, no more of them than the document has |
| Index.GetFieldsMembers | simple-lucene-core/src/main/java/io/github/iamnicknack/slc/core/document/SingleValueFieldReader.java:21 | a field is among getFields(name) exactly when the document has it and it carries the name |
| Index.GetFieldsOne | simple-lucene-core/src/main/java/io/github/iamnicknack/slc/core/document/SingleValueFieldReader.java:21 | a one-field document gives that field when it carries the name and nothing otherwise, so with GetFieldsConcat the fields come in document order |
| Index.GetFieldsConcat | simple-lucene-core/src/main/java/io/github/iamnicknack/slc/core/document/MultiValueFieldReader.java:22 | the fields of a name in two documents joined are those of the first followed by those of the second |
| Index.GetFieldsNone | simple-lucene-core/src/main/java/io/github/iamnicknack/slc/core/document/SingleValueFieldReader.java:21 | a document with no field of the name has none to give |
| Index.StoredFields | simple-lucene-core/src/main/java/io/github/iamnicknack/slc/core/query/DefaultResult.java:50-51 | the document a searcher hands back holds only stored fields |
| Index.StoredFieldsMembers | simple-lucene-core/src/main/java/io/github/iamnicknack/slc/core/query/DefaultResult.java:50-51 | a field is handed back exactly when the document has it and it is stored |
| Index.StoredFieldsKeep | simple-lucene-core/src/main/java/io/github/iamnicknack/slc/core/query/DefaultResult.java:50-51 | when every field with a name is stored, the searcher hands back the same fields with that name, in the same order |
| Index.CountTrue | simple-lucene-core/src/main/java/com/github/iamnicknack/slc/core/collection/AbstractLuceneCollection.java:89 | the count of matching clauses is at most the number of clauses |
| Index.CountTruePositive | simple-lucene-core/src/main/java/com/github/iamnicknack/slc/core/collection/AbstractLuceneCollection.java:89 | the count of matching clauses is positive exactly when some clause matches |
| Index.CountTrueAll | simple-lucene-core/src/main/java/com/github/iamnicknack/slc/core/collection/AbstractLuceneCollection.java:89 | the count of matching clauses is the number of clauses exactly when every clause matches |
| Index.Remove | simple-lucene-core/src/main/java/io/github/iamnicknack/slc/core/index/SetLikeUpdateOperations.java:122 | a delete-by-query leaves no more documents than there were, and none of them matches |
| Index.RemoveMembers | simple-lucene-core/src/main/java/io/github/iamnicknack/slc/core/index/SetLikeUpdateOperations.java:122 | a document survives a delete-by-query exactly when it was there and does not match |
| Index.HitsFrom | simple-lucene-core/src/main/java/io/github/iamnicknack/slc/core/query/DefaultPagedQueryExecutor.java:31 | the hits from a document on are document numbers from there to the end of the index |
| Index.HitsFromAscending | simple-lucene-core/src/main/java/io/github/iamnicknack/slc/core/query/DefaultPagedQueryExecutor.java:31 | the hits come in document order, each document once |
| Index.HitsFromMatch | simple-lucene-core/src/main/java/com/github/iamnicknack/slc/core/collection/AbstractLuceneCollection.java:81 | a document is among the hits exactly when it is in range and matches the query |
| Index.ToScoreDocs | simple-lucene-core/src/main/java/io/github/iamnicknack/slc/core/query/DefaultQueryExecutor.java:34 | one ScoreDoc per hit, in order, each with the engine's score |
| Leases.AndThenIsFlippedCompose | simple-lucene-api/src/main/java/io/github/iamnicknack/slc/api/lease/Lease.java:63-65 | `f.andThen(g)` behaves exactly as `g.compose(f)`, so it applies `g` to `f`'s result |
| Leases.ComposeAssociative | simple-lucene-api/src/main/java/io/github/iamnicknack/slc/api/lease/Lease.java:54-56 | how a chain of compositions is bracketed does not change what it does |
| Leases.ComposeIdentity | simple-lucene-api/src/main/java/io/github/iamnicknack/slc/api/lease/Lease.java:54-56 | composing with `value -> value` on either side changes nothing |
| Leases.DefaultLease.constructor | simple-lucene-api/src/main/java/com/github/iamnicknack/slc/api/lease/DefaultLease.java:16-20 | the lease holds the given value and releaser and has not yet released or warned |
| Leases.DefaultLease.Execute | simple-lucene-api/src/main/java/com/github/iamnicknack/slc/api/lease/DefaultLease.java:22-29 | the function runs on the leased value; its result comes back unchanged, and its exception comes back as a LeaseException("Failed to execute function with lease") whose cause is that exception; the releaser is not called |
| Leases.DefaultLease.Close | simple-lucene-api/src/main/java/com/github/iamnicknack/slc/api/lease/DefaultLease.java:31-38 | every call hands the leased value to the releaser once more and keeps its effect; a releaser exception only adds the warning "Release failed: <message>" |
| Leases.LeaseFactory.Lease | simple-lucene-api/src/main/java/io/github/iamnicknack/slc/api/lease/LeaseFactory.java:20-27 | the supplier is called once; its value goes into a fresh, unreleased lease with the factory's releaser; its exception becomes LeaseException("Failed to acquire lease") with that cause, and no lease exists |
| Leases.LeaseFactory.WithLease | simple-lucene-api/src/main/java/io/github/iamnicknack/slc/api/backend/LuceneBackend.java:55-59 | try-with-resources on a lease: if acquisition fails nothing runs and nothing is released; otherwise the function runs on the supplied value and the releaser runs once afterwards, whether the function returned or threw |
| Leases.LeaseFactory.Run | simple-lucene-api/src/main/java/io/github/iamnicknack/slc/api/lease/LeaseFactory.java:43-50 | the default `execute`: on success the function's result is returned unchanged and the lease is released once; a failure of acquisition or of the function comes out as LeaseException("Failed to execute lease") around the inner LeaseException |
| Leases.LeaseFactory.Execute | simple-lucene-api/src/main/java/io/github/iamnicknack/slc/api/lease/LeaseFactory.java:43-50 | the method acquires, executes and closes, with the outcome of `Run`; a lease exists exactly when the supplier succeeded, and it was released exactly once |
| Backend.UpdateReleaseOrder | simple-lucene-core/src/main/java/io/github/iamnicknack/slc/core/backend/DefaultLuceneBackend.java:54-58 | releasing an update lease calls writer commit, then taxonomy commit, then `maybeRefresh`, stopping at the first failure; the release succeeds only if all three do; the committed documents are the writer's once the commit succeeds; searchers see them only after a complete sequence |
| Backend.UpdatePublishesWrites | simple-lucene-api/src/main/java/io/github/iamnicknack/slc/api/backend/LuceneBackend.java:36-41 | when the release steps succeed, the documents that the function left in the writer are exactly what searchers acquired after `update` see |
| Backend.SearchLeaseProtocol | simple-lucene-core/src/main/java/io/github/iamnicknack/slc/core/backend/DefaultLuceneBackend.java:43-46 | a search lease hands the function a searcher over the snapshot current at acquisition and logs one release of it afterwards; if acquisition fails, the function never runs |
| Backend.DefaultLuceneBackend.constructor | simple-lucene-core/src/main/java/io/github/iamnicknack/slc/core/backend/DefaultLuceneBackend.java:33-75 | the two lease factories are built once, so the accessors always return the same ones |
| Backend.DefaultLuceneBackend.Search | simple-lucene-api/src/main/java/io/github/iamnicknack/slc/api/backend/LuceneBackend.java:55-59 | `search(fn)` leases, executes and closes step by step, ending in the state and outcome that `WithLease` gives for the search factory |
| Backend.DefaultLuceneBackend.Update | simple-lucene-api/src/main/java/io/github/iamnicknack/slc/api/backend/LuceneBackend.java:68-72 | `update(fn)` does the same with the update factory, so closing the lease is the commit and refresh |
| Backend.DefaultLuceneBackend.Close | simple-lucene-core/src/main/java/io/github/iamnicknack/slc/core/backend/DefaultLuceneBackend.java:77-94 | `close()` calls flush, forceMerge and the manager's close in order, and an IOException from any of them propagates and stops the rest; then it closes the index writer (committing it) and the taxonomy writer, and a failure of either only adds its "Failed to close …" warning; afterwards the manager is closed and each writer is closed unless its close failed |
| Backend.DefaultLuceneBackend.StopManager | simple-lucene-core/src/main/java/io/github/iamnicknack/slc/core/backend/DefaultLuceneBackend.java:79-82 | flush, forceMerge and the manager close run in order up to the first failure, which is rethrown; only the log and the manager flag change |
| Backend.DefaultLuceneBackend.CloseWriters | simple-lucene-core/src/main/java/io/github/iamnicknack/slc/core/backend/DefaultLuceneBackend.java:83-93 | both writer closes are always attempted; each failure becomes a warning with the exception's message, and the other close still runs |
| Schema.FieldOf | simple-lucene-core/src/main/java/com/github/iamnicknack/slc/core/document/SubFieldDescriptors.java:58-65 | a sub-field turns a value into one physical field that carries the sub-field's name and the Lucene field class the sub-field declares |
| Schema.SubFieldFactories | simple-lucene-core/src/main/java/com/github/iamnicknack/slc/core/document/SubFieldDescriptors.java:12-41 | the string factories: stored fields keep the plain name and are the only ones stored; text, keyword and facet fields add the ".text", ".keyword" and ".value" suffixes; an alias is named by the alias alone, whatever the field name |
| Schema.NumericSubFieldFactories | simple-lucene-core/src/main/java/com/github/iamnicknack/slc/core/document/SubFieldDescriptors.java:16-56 | the numeric factories: stored ints and longs keep the name; facets go under ".value" as the long value of an int or a long; points go under ".point"; a stored-int factory given a long fails with a ClassCastException |
| Schema.SingleRead | simple-lucene-core/src/main/java/io/github/iamnicknack/slc/core/document/SingleValueFieldReader.java:20-25 | without a field of that name the result is null; otherwise it is the parse of the first such field, and the parser's exception propagates |
| Schema.ParseAll | simple-lucene-core/src/main/java/com/github/iamnicknack/slc/core/document/MultiValueFieldReader.java:18-23 | the result succeeds exactly when every field parses, and then it is the parse of each field, in order and of the same length |
| Schema.MultiRead | simple-lucene-core/src/main/java/io/github/iamnicknack/slc/core/document/MultiValueFieldReader.java:21-25 | a multi-value read always yields a list, an empty one when no field has the name, never null |
| Schema.MultiReadIsArrayRead | simple-lucene-core/src/main/java/io/github/iamnicknack/slc/core/document/MultiValueFieldReader.java:21-25 | the named reader is the array reader applied to the document's fields with that name: it fails exactly when that one does and otherwise gives the same list |
| Schema.ReadsFieldsOnly | simple-lucene-core/src/main/java/io/github/iamnicknack/slc/core/document/MultiValueFieldReader.java:21-25 | a reader sees only the fields that carry its name: two documents with the same such fields read alike |
| Schema.ReadStored | simple-lucene-core/src/main/java/io/github/iamnicknack/slc/core/query/DefaultResult.java:50-51 | a reader whose fields are all stored reads from what a searcher hands back what it reads from the document as written |
| Schema.FieldsOfScalar | simple-lucene-core/src/main/java/io/github/iamnicknack/slc/core/document/FieldDescriptorBuilder.java:331-336 | one value yields one field per sub-field, in sub-field order; it fails exactly when some sub-field cannot take the value |
| Schema.FieldsOfAll | simple-lucene-core/src/main/java/io/github/iamnicknack/slc/core/document/FieldDescriptorBuilder.java:329-336 | a collection succeeds exactly when each element does, and yields one block of fields per element |
| Schema.FieldsOfAllAt | simple-lucene-core/src/main/java/io/github/iamnicknack/slc/core/document/FieldDescriptorBuilder.java:333-336 | the flat map is element-major: field j of element i sits at position i times the sub-field count plus j, and is sub-field j applied to element i |
| Schema.FieldsCount | simple-lucene-core/src/main/java/io/github/iamnicknack/slc/core/document/FieldDescriptorBuilder.java:325-337 | null stores nothing; a single value stores one field per sub-field; a collection of n values stores n fields per sub-field |
| Schema.FieldsIgnoreMultiValue | simple-lucene-core/src/main/java/io/github/iamnicknack/slc/core/document/FieldDescriptorBuilder.java:329-331 | whether a value is expanded element by element depends on its being a collection, never on the descriptor's multiValue flag |
| Builders.FieldDescriptorBuilder.constructor | simple-lucene-core/src/main/java/io/github/iamnicknack/slc/core/document/FieldDescriptorBuilder.java:22-28 | a new builder has no name and every flag off |
| Builders.FieldDescriptorBuilder.Name | simple-lucene-core/src/main/java/io/github/iamnicknack/slc/core/document/FieldDescriptorBuilder.java:34-37 | sets the name and leaves the flags as they were |
| Builders.FieldDescriptorBuilder.Id | simple-lucene-core/src/main/java/io/github/iamnicknack/slc/core/document/FieldDescriptorBuilder.java:42-45 | sets the id flag and nothing else |
| Builders.FieldDescriptorBuilder.MultiValue | simple-lucene-core/src/main/java/io/github/iamnicknack/slc/core/document/FieldDescriptorBuilder.java:50-53 | sets the multiValue flag and nothing else |
| Builders.FieldDescriptorBuilder.Exclude | simple-lucene-core/src/main/java/io/github/iamnicknack/slc/core/document/FieldDescriptorBuilder.java:58-61 | sets the exclude flag and nothing else |
| Builders.FieldDescriptorBuilder.StringField | simple-lucene-core/src/main/java/io/github/iamnicknack/slc/core/document/FieldDescriptorBuilder.java:93-99 | a fresh string builder tied to this builder; it starts with a stored sub-field, or with an alias to the field's own name when the field is excluded at that moment |
| Builders.FieldDescriptorBuilder.IntField | simple-lucene-core/src/main/java/io/github/iamnicknack/slc/core/document/FieldDescriptorBuilder.java:145-149 | a fresh int builder starting with a stored int sub-field, or with none when excluded |
| Builders.FieldDescriptorBuilder.LongField | simple-lucene-core/src/main/java/io/github/iamnicknack/slc/core/document/FieldDescriptorBuilder.java:170-174 | a fresh long builder starting with a stored long sub-field, or with none when excluded |
| Builders.FieldDescriptorBuilder.ZonedDateTime | simple-lucene-core/src/main/java/io/github/iamnicknack/slc/core/document/FieldDescriptorBuilder.java:210-223 | a fresh date builder starting with the stored ISO text and the stored ".millis" long, or with none when excluded |
| Builders.TypedFieldDescriptorBuilder.constructor | simple-lucene-core/src/main/java/io/github/iamnicknack/slc/core/document/FieldDescriptorBuilder.java:271-275 | the typed builder reads the outer builder's exclude flag once, when it is created, to pick its first factories |
| Builders.TypedFieldDescriptorBuilder.Text | simple-lucene-core/src/main/java/io/github/iamnicknack/slc/core/document/FieldDescriptorBuilder.java:104-107 | appends a text factory, unless the field is excluded, in which case nothing changes |
| Builders.TypedFieldDescriptorBuilder.Keyword | simple-lucene-core/src/main/java/io/github/iamnicknack/slc/core/document/FieldDescriptorBuilder.java:112-115 | appends a keyword factory, excluded or not |
| Builders.TypedFieldDescriptorBuilder.Facet | simple-lucene-core/src/main/java/io/github/iamnicknack/slc/core/document/FieldDescriptorBuilder.java:120-123 | appends a string facet for strings, a numeric facet for ints and longs, and a facet on the epoch millis for dates |
| Builders.TypedFieldDescriptorBuilder.Point | simple-lucene-core/src/main/java/io/github/iamnicknack/slc/core/document/FieldDescriptorBuilder.java:156-159 | appends an int point, a long point, or a long point on the epoch millis for dates |
| Builders.TypedFieldDescriptorBuilder.Alias | simple-lucene-core/src/main/java/io/github/iamnicknack/slc/core/document/FieldDescriptorBuilder.java:129-134 | appends one alias factory per given name, in the given order, after the factories already there |
| Builders.TypedFieldDescriptorBuilder.Name | simple-lucene-core/src/main/java/io/github/iamnicknack/slc/core/document/FieldDescriptorBuilder.java:277-280 | naming through a typed builder sets the outer builder's name and nothing else |
| Builders.TypedFieldDescriptorBuilder.Build | simple-lucene-core/src/main/java/io/github/iamnicknack/slc/core/document/FieldDescriptorBuilder.java:282-307 | without a name, a NullPointerException; otherwise a descriptor with the name, the id and multiValue flags, facetable exactly for strings, every factory applied to the name in order, and a reader that is multi-valued exactly for multi-value non-date fields, dates reading "<name>.millis" |
| Builders.FirstRepeat | simple-lucene-core/src/main/java/io/github/iamnicknack/slc/core/document/DocumentDescriptorBuilder.java:48-49 | the key that collecting into a map reports as duplicate is one of the names |
| Builders.FirstRepeatNone | simple-lucene-core/src/main/java/io/github/iamnicknack/slc/core/document/DocumentDescriptorBuilder.java:48-49 | no key is reported exactly when no name is already seen and no two names are equal |
| Builders.DuplicateCheck | simple-lucene-core/src/main/java/io/github/iamnicknack/slc/core/document/DocumentDescriptorBuilder.java:48-49 | the duplicate check rejects exactly the descriptor lists in which two descriptors share a name |
| Builders.FieldMapContents | simple-lucene-core/src/main/java/io/github/iamnicknack/slc/core/document/DocumentDescriptorBuilder.java:48-49 | with distinct names, the field map's keys are exactly the descriptors' names, and each name maps to its own descriptor |
| Builders.NoFacetNoChange | simple-lucene-core/src/main/java/io/github/iamnicknack/slc/core/document/DocumentDescriptorBuilder.java:53-58 | a descriptor without a facet sub-field registers nothing |
| Builders.SubsValue | simple-lucene-core/src/main/java/io/github/iamnicknack/slc/core/document/DocumentDescriptorBuilder.java:59-64 | a facet sub-field registers the descriptor's name as the dimension for the sub-field's index field, and the sub-field's name as multi-valued exactly when the descriptor is |
| Builders.SubsPreserve | simple-lucene-core/src/main/java/io/github/iamnicknack/slc/core/document/DocumentDescriptorBuilder.java:53-64 | registering one descriptor changes the entries for its own dimension and its facet sub-fields' names, and no others |
| Builders.RegisteredFacet | simple-lucene-core/src/main/java/io/github/iamnicknack/slc/core/document/DocumentDescriptorBuilder.java:53-64 | after building, every facetable descriptor with one facet sub-field has its dimension and multi-value flag registered, provided no other descriptor uses the same facet sub-field name |
| Builders.DocumentDescriptorBuilder.constructor | simple-lucene-core/src/main/java/io/github/iamnicknack/slc/core/document/DocumentDescriptorBuilder.java:29-31 | a new builder holds the backend and no descriptors |
| Builders.DocumentDescriptorBuilder.Field | simple-lucene-core/src/main/java/io/github/iamnicknack/slc/core/document/DocumentDescriptorBuilder.java:38-41 | appends the descriptor |
| Builders.DocumentDescriptorBuilder.Build | simple-lucene-core/src/main/java/io/github/iamnicknack/slc/core/document/DocumentDescriptorBuilder.java:47-67 | a repeated name fails with IllegalStateException "Duplicate key <name>" before the facet configuration is touched; otherwise each facet pair is registered in the backend's facet configuration and the descriptor holds every field descriptor |
| Builders.StringFieldExample | simple-lucene-core/src/test/java/io/github/iamnicknack/slc/core/document/FieldDescriptorBuilderTest.java:49-68 | a string id field with two aliases, a keyword, text and a facet has six sub-fields in factory order, the last one a facet under "foo.value" |
| Builders.ExcludedFieldExample | simple-lucene-core/src/test/java/io/github/iamnicknack/slc/core/document/FieldDescriptorBuilderTest.java:94-111 | an excluded string field has one unstored text sub-field, an alias to its own name; text() adds nothing |
| Builders.IntFieldExample | simple-lucene-core/src/test/java/io/github/iamnicknack/slc/core/document/FieldDescriptorBuilderTest.java:116-134 | an int field named after its options has stored, ".value" and ".point" sub-fields, is not facetable, and reads one value |
| Builders.DateFieldExample | simple-lucene-core/src/test/java/io/github/iamnicknack/slc/core/document/FieldDescriptorBuilderTest.java:160-189 | a date field has the stored text, the ".millis" field, a point and a facet, and reads back from ".millis" |
| Builders.UnnamedFieldExample | simple-lucene-core/src/main/java/io/github/iamnicknack/slc/core/document/FieldDescriptorBuilder.java:282-283 | building a field that was never named fails with a NullPointerException |
| Domain.DefaultIdRoundTrip | simple-lucene-api/src/main/java/com/github/iamnicknack/slc/api/index/DomainOperations.java:35-38 | the default id of a non-null value is the decimal text of its hash code and parses back to it, so distinct hash codes give distinct ids; a null value fails with NullPointerException |
| Domain.LexIrreflexive | simple-lucene-core/src/main/java/io/github/iamnicknack/slc/core/index/MapDomainOperations.java:35 | no key sorts before itself |
| Domain.LexTransitive | simple-lucene-core/src/main/java/io/github/iamnicknack/slc/core/index/MapDomainOperations.java:35 | the key order is transitive |
| Domain.LexTotal | simple-lucene-core/src/main/java/io/github/iamnicknack/slc/core/index/MapDomainOperations.java:35 | any two different keys are ordered one way or the other |
| Domain.SortStringsSorted | simple-lucene-core/src/main/java/io/github/iamnicknack/slc/core/index/MapDomainOperations.java:35 | sorting distinct keys yields them in strictly ascending order, as the same multiset |
| Domain.SortedUnique | simple-lucene-core/src/main/java/io/github/iamnicknack/slc/core/index/MapDomainOperations.java:35 | two strictly ascending sequences with the same elements are equal, so the sorted key order is determined by the keys alone |
| Domain.IdKeys | simple-lucene-core/src/main/java/io/github/iamnicknack/slc/core/index/MapDomainOperations.java:34 | the keys taken for the id are exactly the names of id descriptors that the map contains |
| Domain.IdKeysDistinct | simple-lucene-core/src/main/java/io/github/iamnicknack/slc/core/index/MapDomainOperations.java:32-34 | with distinct descriptor names, no key is taken twice |
| Domain.IdIndependentOfOrder | simple-lucene-core/src/main/java/io/github/iamnicknack/slc/core/index/MapDomainOperations.java:32-37 | the id is the same whatever order the descriptor map iterates in |
| Domain.NoIdFields | simple-lucene-core/src/main/java/io/github/iamnicknack/slc/core/index/MapDomainOperations.java:39-40 | a map with no id field fails with RuntimeException "No fields available to create id" |
| Domain.SingleIdField | simple-lucene-core/src/main/java/io/github/iamnicknack/slc/core/index/MapDomainOperations.java:32-40 | with exactly one id field present, holding non-empty text, the id is that text |
| Domain.CreateDocument | simple-lucene-core/src/main/java/io/github/iamnicknack/slc/core/index/MapDomainOperations.java:45-56 | the document gets, descriptor by descriptor, the fields of the values whose keys the map has; the first failing field conversion propagates |
| Domain.FailureSticks | simple-lucene-core/src/main/java/io/github/iamnicknack/slc/core/index/MapDomainOperations.java:48-53 | once a descriptor's fields fail, createDocument fails with that exception whatever comes after |
| Domain.UndescribedKeysIgnored | simple-lucene-core/src/main/java/io/github/iamnicknack/slc/core/index/MapDomainOperations.java:48-50 | map entries that no descriptor names do not change the document |
| Domain.ReadDocumentOk | simple-lucene-core/src/main/java/io/github/iamnicknack/slc/core/index/MapDomainOperations.java:61-64 | readDocument succeeds exactly when every descriptor's read does |
| Domain.ReadDocumentKeys | simple-lucene-core/src/main/java/io/github/iamnicknack/slc/core/index/MapDomainOperations.java:61-64 | the map read back has only keys that some descriptor names |
| Domain.ReadDocumentEntry | simple-lucene-core/src/main/java/io/github/iamnicknack/slc/core/index/MapDomainOperations.java:61-64 | a descriptor's name is a key of the map read back exactly when its read is not null, and then it maps to what was read |
| Domain.MultiValuedAlwaysRead | simple-lucene-core/src/main/java/io/github/iamnicknack/slc/core/index/MapDomainOperations.java:61-64 | a multi-valued field is always in the map read back, as a list |
| Domain.DocumentOmits | simple-lucene-core/src/main/java/io/github/iamnicknack/slc/core/index/MapDomainOperations.java:48-53 | if no descriptor has a sub-field of some name, the created document has no field of that name |
| Domain.DocumentFieldsFrom | simple-lucene-core/src/main/java/io/github/iamnicknack/slc/core/index/MapDomainOperations.java:48-53 | when only one descriptor writes fields of some name, the document's fields of that name are exactly that descriptor's |
| Domain.RoundTrip | simple-lucene-core/src/main/java/io/github/iamnicknack/slc/core/index/MapDomainOperations.java:45-64 | reading a created document gives back a value whenever its descriptor reads what it stores and no other descriptor writes under the reader's name |
| Domain.RoundTripStored | simple-lucene-core/src/main/java/io/github/iamnicknack/slc/core/index/MapDomainOperations.java:45-64 | when the sub-field the reader reads is stored, reading the stored fields of a created document, which is what a search hands back, gives the value back too |
| Domain.ReaderFieldsStored | simple-lucene-core/src/main/java/io/github/iamnicknack/slc/core/index/MapDomainOperations.java:45-64 | every field of a created document named like a reader's field comes from that reader's sub-field, so it is stored when that sub-field is |
| Domain.SelfFieldsStored | simple-lucene-core/src/main/java/io/github/iamnicknack/slc/core/document/FieldDescriptorBuilder.java:93-257 | the fields a descriptor writes under its reader's name are all stored when the reader's sub-field is a stored one |
| Domain.StoredReadsBack | simple-lucene-core/src/main/java/io/github/iamnicknack/slc/core/document/FieldDescriptorBuilder.java:93-257 | for each builder type, the stored sub-field carries the name the reader reads, is stored, and parses back to the value it was given |
| Updates.Requests | simple-lucene-api/src/main/java/io/github/iamnicknack/slc/api/index/UpdateOperations.java:71-72 | the operation is requested for every value, in order; the whole fails exactly when some request throws, and otherwise holds one function per value |
| Updates.RequestsTwice | simple-lucene-api/src/main/java/io/github/iamnicknack/slc/api/index/UpdateOperations.java:71-72 | a value given twice is requested twice |
| Updates.ChainRequestFails | simple-lucene-api/src/main/java/io/github/iamnicknack/slc/api/index/UpdateOperations.java:70-72 | requests are made while the chain is being built, so the first request that throws is what building the chain throws |
| Updates.FoldRunsReversed | simple-lucene-api/src/main/java/io/github/iamnicknack/slc/api/index/UpdateOperations.java:73-74 | reducing with compose runs the functions from last to first on the one leased value |
| Updates.ChainRunsReversed | simple-lucene-api/src/main/java/io/github/iamnicknack/slc/api/index/UpdateOperations.java:70-76 | a chain runs each value's function once, in reverse order of the values; the first that throws stops the rest and its exception comes out; otherwise the answer is the number of values |
| Updates.ChainEmpty | simple-lucene-api/src/main/java/io/github/iamnicknack/slc/api/index/UpdateOperations.java:70-76 | chaining no values runs nothing and answers 0 |
| Updates.ChainTwice | simple-lucene-api/src/main/java/io/github/iamnicknack/slc/api/index/UpdateOperations.java:70-76 | chaining one value twice runs its function twice, the second time on the state the first run left, and answers 2 |
| Updates.DefaultsRefuse | simple-lucene-api/src/main/java/io/github/iamnicknack/slc/api/index/UpdateOperations.java:34-53 | with the interface defaults, update and delete throw UnsupportedOperationException when requested, so their batch forms fail exactly for a non-empty batch; an empty batch answers 0 |
| Updates.BucketAddAppends | simple-lucene-core/src/main/java/com/github/iamnicknack/slc/core/index/BucketUpdateOperations.java:33-39 | a bucket add appends exactly the created document, with no id field; a document that cannot be created writes nothing and its exception propagates |
| Updates.BucketRunAppends | simple-lucene-core/src/main/java/com/github/iamnicknack/slc/core/index/BucketUpdateOperations.java:33-39 | a run of bucket adds appends their documents in run order |
| Updates.BucketAddAllReversed | simple-lucene-api/src/main/java/io/github/iamnicknack/slc/api/index/UpdateOperations.java:25-27 | addAll on the bucket policy adds one document per value, checks nothing for duplicates and answers the count; the documents land in reverse order |
| Updates.CountOnSnapshot | simple-lucene-core/src/main/java/io/github/iamnicknack/slc/core/index/SetLikeUpdateOperations.java:53-54 | the duplicate count takes a searcher lease of its own, counts on the search snapshot, and releases the searcher |
| Updates.IdsQuery | simple-lucene-core/src/main/java/io/github/iamnicknack/slc/core/index/SetLikeUpdateOperations.java:114-119 | the deletion query has one SHOULD term clause on "_id" per value, in order, repeats kept, and no other clause |
| Updates.Distinct | simple-lucene-core/src/main/java/io/github/iamnicknack/slc/core/index/SetLikeUpdateOperations.java:109 | the distinct ids are exactly the ids, each once, and never more of them |
| Updates.SetLikeRequests | simple-lucene-core/src/main/java/io/github/iamnicknack/slc/core/index/SetLikeUpdateOperations.java:48-104 | requesting add, update or delete on the set-like policy does no work; the work happens when the returned function runs |
| Updates.SetAddRefusesDuplicate | simple-lucene-core/src/main/java/io/github/iamnicknack/slc/core/index/SetLikeUpdateOperations.java:53-58 | an id already in the search snapshot makes add throw IllegalArgumentException "Value already exists" after the count's searcher is released; nothing is written |
| Updates.SetAddWrites | simple-lucene-core/src/main/java/io/github/iamnicknack/slc/core/index/SetLikeUpdateOperations.java:50-65 | an id absent from the search snapshot: the created document is appended with a stored "_id" field holding the id |
| Updates.SetBatchAdmitsDuplicates | simple-lucene-core/src/main/java/io/github/iamnicknack/slc/core/index/SetLikeUpdateOperations.java:46-67 | the duplicate check sees only the search snapshot, not the batch's own writes, so addAll of one value twice writes two documents with the same id |
| Updates.SetUpdateUpserts | simple-lucene-core/src/main/java/io/github/iamnicknack/slc/core/index/SetLikeUpdateOperations.java:76-86 | update replaces every document with the id by the new one, whether the id existed or not; afterwards the new one is the only document in the writer with the id |
| Updates.SetDeleteRemoves | simple-lucene-core/src/main/java/io/github/iamnicknack/slc/core/index/SetLikeUpdateOperations.java:96-104 | delete removes every document with the id and keeps every other one; an absent id changes nothing but the log |
| Updates.IdsQueryMatches | simple-lucene-core/src/main/java/io/github/iamnicknack/slc/core/index/SetLikeUpdateOperations.java:114-122 | a document matches the deletion query exactly when it carries one of the ids |
| Updates.DeleteAllRemoves | simple-lucene-core/src/main/java/io/github/iamnicknack/slc/core/index/SetLikeUpdateOperations.java:106-125 | the corrected deleteAll removes exactly the documents carrying one of the ids and keeps every other one, and answers the number of distinct ids |
| Updates.DeleteAllAsWrittenRemoves | simple-lucene-core/src/main/java/io/github/iamnicknack/slc/core/index/SetLikeUpdateOperations.java:106-125 | deleteAll as written, for any values whose ids can be computed, removes exactly the documents carrying one of the ids, keeps every other one, and answers the number of values |
| Updates.DeleteAllEager | simple-lucene-core/src/main/java/io/github/iamnicknack/slc/core/index/SetLikeUpdateOperations.java:113-119 | ids are computed when the operation is built, so building deleteAll, as written or corrected, fails exactly when some id cannot be computed |
| Updates.DeleteAllCountsValues | simple-lucene-core/src/main/java/io/github/iamnicknack/slc/core/index/SetLikeUpdateOperations.java:121-124 | as written, deleteAll answers one per value: given one value twice it answers 2, though the query holds one distinct term |
| Updates.DeleteAllAgreesOnDistinct | simple-lucene-core/src/main/java/io/github/iamnicknack/slc/core/index/SetLikeUpdateOperations.java:121-124 | without repeated ids, the written answer equals the documented one |
| Updates.CollectionLikeRequests | simple-lucene-core/src/main/java/com/github/iamnicknack/slc/core/index/CollectionLikeUpdateOperations.java:64-126 | requesting add, update or delete on the collection-like policy does no work; the work happens when the returned function runs |
| Updates.CollectionAddTags | simple-lucene-core/src/main/java/com/github/iamnicknack/slc/core/index/CollectionLikeUpdateOperations.java:66-77 | add appends the created document with "_id" and a "_serial" of "<id>.<counter>"; the counter moves on by one even when the document cannot be created, and then nothing is written |
| Updates.SerialInjective | simple-lucene-core/src/main/java/com/github/iamnicknack/slc/core/index/CollectionLikeUpdateOperations.java:69 | two serials are equal only for the same id and the same counter value |
| Updates.CollectionAddTwice | simple-lucene-core/src/main/java/com/github/iamnicknack/slc/core/index/CollectionLikeUpdateOperations.java:59-77 | adding one value twice writes two copies with the same id and different serials, and answers 2 |
| Updates.LookupTopHit | simple-lucene-core/src/main/java/com/github/iamnicknack/slc/core/index/CollectionLikeUpdateOperations.java:53-56 | the lookup is a top-1 search for the id on the search snapshot: its total is the number of documents with the id, its first hit is the earliest of them, and closing it releases the searcher |
| Updates.CollectionDeleteOne | simple-lucene-core/src/main/java/com/github/iamnicknack/slc/core/index/CollectionLikeUpdateOperations.java:113-126 | with no copy found, delete only takes and releases a searcher; otherwise it deletes the documents carrying the first copy's serial and keeps every other document, other copies included |
| Updates.CollectionUpdateOne | simple-lucene-core/src/main/java/com/github/iamnicknack/slc/core/index/CollectionLikeUpdateOperations.java:85-106 | with no copy found, update is add; otherwise it replaces the documents carrying the first copy's serial with the new document plus that copy's "_id" and "_serial" fields, and the counter does not move |
| Collections.AbstractLuceneCollection.constructor | simple-lucene-core/src/main/java/com/github/iamnicknack/slc/core/collection/AbstractLuceneCollection.java:29-35 | the collection holds the domain operations, the backend and the update policy it is given |
| Collections.AbstractLuceneCollection.LuceneCollection | simple-lucene-core/src/main/java/com/github/iamnicknack/slc/core/collection/LuceneCollection.java:9-12 | a LuceneCollection is the collection over the collection-like policy on the backend's search leases |
| Collections.AbstractLuceneCollection.LuceneSet | simple-lucene-core/src/main/java/com/github/iamnicknack/slc/core/collection/LuceneSet.java:11-14 | a LuceneSet is the collection over the set-like policy on the backend's search leases |
| Collections.AbstractLuceneCollection.Mutate | simple-lucene-core/src/main/java/com/github/iamnicknack/slc/core/collection/AbstractLuceneCollection.java:39-41 | requesting the operation may throw before any lease is taken; otherwise it runs on an update lease through the lease factory's execute, and the answer is given only if that did not throw |
| Collections.AbstractLuceneCollection.Add | simple-lucene-core/src/main/java/com/github/iamnicknack/slc/core/collection/AbstractLuceneCollection.java:37-42 | add requests the policy's add and runs it on an update lease, as AddRun describes |
| Collections.AbstractLuceneCollection.AddAll | simple-lucene-core/src/main/java/com/github/iamnicknack/slc/core/collection/AbstractLuceneCollection.java:44-51 | addAll does the same with the policy's addAll |
| Collections.AbstractLuceneCollection.Remove | simple-lucene-core/src/main/java/com/github/iamnicknack/slc/core/collection/AbstractLuceneCollection.java:54-61 | remove does the same with the policy's delete |
| Collections.AbstractLuceneCollection.RemoveAll | simple-lucene-core/src/main/java/com/github/iamnicknack/slc/core/collection/AbstractLuceneCollection.java:63-74 | removeAll does the same with the policy's deleteAll and answers whether it was given any values |
| Collections.AbstractLuceneCollection.QueryForCollection | simple-lucene-core/src/main/java/com/github/iamnicknack/slc/core/collection/AbstractLuceneCollection.java:172-185 | the query built in a loop is the collection query: one SHOULD "_id" term per distinct id, in order of first occurrence, at least one required |
| Collections.AbstractLuceneCollection.RetainAll | simple-lucene-core/src/main/java/com/github/iamnicknack/slc/core/collection/AbstractLuceneCollection.java:92-102 | retainAll deletes, on an update lease, every document that matches none of the collection's ids, and answers true |
| Collections.AbstractLuceneCollection.Clear | simple-lucene-core/src/main/java/com/github/iamnicknack/slc/core/collection/AbstractLuceneCollection.java:104-108 | clear deletes every document on an update lease |
| Collections.AbstractLuceneCollection.Size | simple-lucene-core/src/main/java/com/github/iamnicknack/slc/core/collection/AbstractLuceneCollection.java:110-114 | size counts every document on a search lease |
| Collections.AbstractLuceneCollection.IsEmpty | simple-lucene-core/src/main/java/com/github/iamnicknack/slc/core/collection/AbstractLuceneCollection.java:116-119 | isEmpty is size() == 0, with size's effects and exceptions |
| Collections.AbstractLuceneCollection.Contains | simple-lucene-core/src/main/java/com/github/iamnicknack/slc/core/collection/AbstractLuceneCollection.java:76-82 | contains computes the id, then counts the documents with it on a search lease and answers whether there are any |
| Collections.AbstractLuceneCollection.ContainsAll | simple-lucene-core/src/main/java/com/github/iamnicknack/slc/core/collection/AbstractLuceneCollection.java:84-90 | containsAll as written: the collection query, then on one search lease the count of its matches compared with its number of clauses |
| Collections.AbstractLuceneCollection.ToArray | simple-lucene-core/src/main/java/com/github/iamnicknack/slc/core/collection/AbstractLuceneCollection.java:142-155 | every toArray form throws UnsupportedOperationException and changes nothing |
| Collections.AllPresent | simple-lucene-core/src/main/java/com/github/iamnicknack/slc/core/collection/AbstractLuceneCollection.java:84-90 | the corrected check holds exactly when each id has a positive count |
| Collections.HitsFromAll | simple-lucene-core/src/main/java/com/github/iamnicknack/slc/core/collection/AbstractLuceneCollection.java:110-114 | match-all hits every document from a position on |
| Collections.CountAll | simple-lucene-core/src/main/java/com/github/iamnicknack/slc/core/collection/AbstractLuceneCollection.java:110-114 | counting match-all counts the whole snapshot |
| Collections.CountPositive | simple-lucene-core/src/main/java/com/github/iamnicknack/slc/core/collection/AbstractLuceneCollection.java:76-82 | a count is positive exactly when some document of the snapshot matches |
| Collections.CountRun | simple-lucene-core/src/main/java/com/github/iamnicknack/slc/core/collection/AbstractLuceneCollection.java:80-81 | a count on a search lease is the count over the snapshot at acquisition; the searcher is taken and released |
| Collections.MutatorsAnswer | simple-lucene-core/src/main/java/com/github/iamnicknack/slc/core/collection/AbstractLuceneCollection.java:37-74 | add, addAll and remove answer true whenever they do not throw; removeAll answers whether it was given any values |
| Collections.MutationFailure | simple-lucene-core/src/main/java/com/github/iamnicknack/slc/core/collection/AbstractLuceneCollection.java:39-41 | a mutation throws what the request throws, or the function's exception inside "Failed to execute function with lease" inside "Failed to execute lease"; otherwise it answers; either way the update lease is released |
| Collections.SizeCounts | simple-lucene-core/src/main/java/com/github/iamnicknack/slc/core/collection/AbstractLuceneCollection.java:110-119 | size is the number of documents in the search snapshot, and isEmpty holds exactly when the snapshot is empty |
| Collections.IsEmptyIsSizeZero | simple-lucene-core/src/main/java/com/github/iamnicknack/slc/core/collection/AbstractLuceneCollection.java:116-119 | isEmpty answers true exactly when size answers 0, fails exactly when size fails, and has the same effects |
| Collections.ContainsIff | simple-lucene-core/src/main/java/com/github/iamnicknack/slc/core/collection/AbstractLuceneCollection.java:76-82 | contains(v) holds exactly when some document of the search snapshot carries v's id |
| Collections.MinShouldOne | simple-lucene-core/src/main/java/com/github/iamnicknack/slc/core/collection/AbstractLuceneCollection.java:184 | requiring one SHOULD clause changes nothing for a query without MUST clauses |
| Collections.SomeIdDistinct | simple-lucene-core/src/main/java/com/github/iamnicknack/slc/core/collection/AbstractLuceneCollection.java:174-178 | a document carries one of the distinct ids exactly when it carries one of the ids |
| Collections.CollectionQueryMatches | simple-lucene-core/src/main/java/com/github/iamnicknack/slc/core/collection/AbstractLuceneCollection.java:172-185 | the collection query matches exactly the documents carrying one of the ids, and has one clause per distinct id |
| Collections.MutationPublishes | simple-lucene-core/src/main/java/com/github/iamnicknack/slc/core/collection/AbstractLuceneCollection.java:39-41 | when the update lease's release succeeds, what the function left in the writer is what searchers see afterwards |
| Collections.RemoveEverything | simple-lucene-core/src/main/java/com/github/iamnicknack/slc/core/collection/AbstractLuceneCollection.java:104-108 | deleting by match-all leaves no document |
| Collections.RetainQueryMatches | simple-lucene-core/src/main/java/com/github/iamnicknack/slc/core/collection/AbstractLuceneCollection.java:94-97 | retainAll's query matches exactly the documents that the collection query does not |
| Collections.ClearEmpties | simple-lucene-core/src/test/java/io/github/iamnicknack/slc/core/collection/LuceneCollectionTest.java:170-179 | after clear, with no failing call, the writer and the search snapshot are empty, size() is 0 and isEmpty() holds |
| Collections.RetainAllKeeps | simple-lucene-core/src/main/java/com/github/iamnicknack/slc/core/collection/AbstractLuceneCollection.java:92-102 | retainAll keeps, in the writer and in the search snapshot, exactly the documents carrying one of the ids; the others are deleted |
| Collections.SetAddThenContains | simple-lucene-core/src/main/java/com/github/iamnicknack/slc/core/collection/LuceneSet.java:11-14 | a LuceneSet's add of a new id writes and publishes one document, so contains then holds; an id already present is refused with the lease's wrapping and the writer is unchanged |
| Collections.CollectionAddThenContains | simple-lucene-core/src/main/java/com/github/iamnicknack/slc/core/collection/LuceneCollection.java:9-12 | a LuceneCollection's add always writes and publishes one tagged copy, so contains then holds |
| Collections.AllPresentRun | simple-lucene-core/src/main/java/com/github/iamnicknack/slc/core/collection/AbstractLuceneCollection.java:88-89 | the corrected check on a search lease looks at the snapshot at acquisition |
| Collections.AllPresentIsPresentAll | simple-lucene-core/src/main/java/com/github/iamnicknack/slc/core/collection/AbstractLuceneCollection.java:84-90 | counting each id finds them all exactly when each of them is present |
| Collections.PresentAllDistinct | simple-lucene-core/src/main/java/com/github/iamnicknack/slc/core/collection/AbstractLuceneCollection.java:174-176 | every distinct id is present exactly when every id is |
| Collections.ContainsAllIff | simple-lucene-core/src/main/java/com/github/iamnicknack/slc/core/collection/AbstractLuceneCollection.java:84-90 | the corrected containsAll holds exactly when every value's id is in the search snapshot |
| Collections.ContainsAllIsEachContains | simple-lucene-core/src/main/java/com/github/iamnicknack/slc/core/collection/AbstractLuceneCollection.java:76-90 | the corrected containsAll holds exactly when contains holds for each value |
| Collections.CountTwoCopies | simple-lucene-core/src/main/java/com/github/iamnicknack/slc/core/collection/AbstractLuceneCollection.java:88-89 | two copies of one matching document count twice |
| Collections.TwoIds | simple-lucene-core/src/main/java/com/github/iamnicknack/slc/core/collection/AbstractLuceneCollection.java:174-178 | two values with different ids give two distinct ids |
| Collections.ContainsAllAsWrittenAnswers | simple-lucene-core/src/main/java/com/github/iamnicknack/slc/core/collection/AbstractLuceneCollection.java:84-90 | for every collection whose ids can be computed, containsAll as written answers whether the documents carrying any of the ids are as many as the distinct ids, taking and releasing one searcher |
| Collections.ContainsAllIdFailure | simple-lucene-core/src/main/java/com/github/iamnicknack/slc/core/collection/AbstractLuceneCollection.java:84-90 | an id that cannot be computed is thrown by containsAll before any lease is taken, as written and corrected alike |
| Collections.HitsCountCarried | simple-lucene-core/src/main/java/com/github/iamnicknack/slc/core/collection/AbstractLuceneCollection.java:84-90 | when each document carries at most one id and no id is carried twice, the documents matching any id of a set are as many as the ids of the set that are carried |
| Collections.CarriedStepCarrying | simple-lucene-core/src/main/java/com/github/iamnicknack/slc/core/collection/AbstractLuceneCollection.java:84-90 | a document carrying an id adds that id, which no later document carries, to the ids carried and nothing else |
| Collections.CarriedStepNone | simple-lucene-core/src/main/java/com/github/iamnicknack/slc/core/collection/AbstractLuceneCollection.java:84-90 | a document carrying none of the ids adds nothing to the ids carried |
| Collections.CarriedAll | simple-lucene-core/src/main/java/com/github/iamnicknack/slc/core/collection/AbstractLuceneCollection.java:84-90 | every id is carried exactly when every id is present |
| Collections.DistinctCard | simple-lucene-core/src/main/java/com/github/iamnicknack/slc/core/collection/AbstractLuceneCollection.java:84-90 | a list of ids without repeats has as many ids as its set |
| Collections.SubsetCardEq | simple-lucene-core/src/main/java/com/github/iamnicknack/slc/core/collection/AbstractLuceneCollection.java:84-90 | a subset of the ids as large as the set is the set |
| Collections.ContainsAllAgreesOnOneCopy | simple-lucene-core/src/main/java/com/github/iamnicknack/slc/core/collection/AbstractLuceneCollection.java:84-90 | when each document carries at most one id and no id is carried twice, as in a LuceneSet, containsAll as written answers what the corrected containsAll answers |
| Collections.ContainsAllCountsCopies | simple-lucene-core/src/main/java/com/github/iamnicknack/slc/core/collection/AbstractLuceneCollection.java:84-90 | as written, containsAll compares a count of documents with a count of ids: with two copies of a and no b in the snapshot, containsAll([a, b]) answers true though contains(b) is false; the corrected one answers false |
| Executors.WithOptionsNeverNests | simple-lucene-api/src/main/java/com/github/iamnicknack/slc/api/query/QueryExecutor.java:47-51 | withOptions never stacks Wrappers: an implementation gets one, and a Wrapper is replaced by one over its own delegate with the new options |
| Executors.LastOptionsWin | simple-lucene-api/src/main/java/io/github/iamnicknack/slc/api/query/PagedQueryExecutor.java:38-57 | any chain of withOptions calls leaves one Wrapper over the same implementation, and the implementation runs with the last options given |
| Executors.AdaptersCompose | simple-lucene-api/src/main/java/com/github/iamnicknack/slc/api/query/QueryExecutor.java:37-40 | an executor adapted by mapping(f) and then by mapping(g) runs like one adapted once by the composition |
| Executors.InnerOptionsWin | simple-lucene-api/src/main/java/com/github/iamnicknack/slc/api/query/QueryExecutor.java:37-51 | withIterator builds a new implementation rather than a Wrapper, so options set before it win over options set after it |
| Executors.DefaultQueryExecutor.constructor | simple-lucene-core/src/main/java/io/github/iamnicknack/slc/core/query/DefaultQueryExecutor.java:23-27 | the executor holds the query factory and the search lease factory it is given |
| Executors.DefaultQueryExecutor.Execute | simple-lucene-core/src/main/java/io/github/iamnicknack/slc/core/query/DefaultQueryExecutor.java:30-38 | each call leases a searcher, translates the query, searches for at most maxHits hits through the lease and returns a fresh result holding that lease open, unreleased |
| Executors.DefaultQueryBounded | simple-lucene-core/src/main/java/io/github/iamnicknack/slc/core/query/DefaultQueryExecutor.java:30-38 | on the backend's search leases, with a query that translates and maxHits at least 1: the result holds the first maxHits matches in document order with their stored fields, reports the total number of matches in the snapshot, and releases its searcher once when listed |
| Executors.DefaultQueryFull | simple-lucene-core/src/main/java/io/github/iamnicknack/slc/core/query/DefaultQueryExecutor.java:33-35 | with at least maxHits matches, the result holds exactly maxHits hits |
| Executors.LuceneQueryRun | simple-lucene-core/src/main/java/io/github/iamnicknack/slc/core/query/QueryFactories.java:38-40 | an executor over lucene() never fails to translate and searches for the very query it is given: its result holds that query's first maxHits matches and its total |
| Executors.DefaultQueryLeaksOnTranslation | simple-lucene-core/src/main/java/io/github/iamnicknack/slc/core/query/DefaultQueryExecutor.java:31-32 | a query that fails to translate propagates its own exception unwrapped, after the lease was acquired, and the lease is never released |
| Executors.DefaultQueryLeaksOnSearch | simple-lucene-core/src/main/java/io/github/iamnicknack/slc/core/query/DefaultQueryExecutor.java:33-35 | a search for no more than zero hits fails with IllegalArgumentException wrapped by the lease, and the lease is again never released |
| Executors.DefaultQueryNoLease | simple-lucene-core/src/main/java/io/github/iamnicknack/slc/core/query/DefaultQueryExecutor.java:31 | failing to acquire a searcher fails with LeaseException "Failed to acquire lease" before the query is translated |
| Results.MapHits | simple-lucene-api/src/main/java/io/github/iamnicknack/slc/api/query/Result.java:96-99 | mapping keeps the number of hits and each hit's score, and maps each value |
| Results.MappedList | simple-lucene-api/src/main/java/io/github/iamnicknack/slc/api/query/Result.java:88-101 | a mapped result lists as many hits as the original, with the same scores and mapped values, fails exactly when the original does, and closes the same |
| Results.MapHitsThrough | simple-lucene-api/src/main/java/io/github/iamnicknack/slc/api/query/Result.java:88-101 | mapping by f and then by g is mapping by any function equal to their composition |
| Results.MappedTwice | simple-lucene-api/src/main/java/io/github/iamnicknack/slc/api/query/Result.java:88-101 | adapting a result by mapping(f) and the adapter by mapping(g) is adapting it once by the composition: the same hits, total and close |
| Results.MapHitsCompose | simple-lucene-api/src/main/java/io/github/iamnicknack/slc/api/query/Result.java:88-101 | mapping by f and then by g is mapping by their composition |
| Results.FetchHit | simple-lucene-core/src/main/java/io/github/iamnicknack/slc/core/query/DefaultResult.java:46-51 | one next() gives the score doc's score and the stored fields of its document, read through the lease without changing the engine; a document the searcher does not have fails, wrapped by the lease |
| Results.FetchHits | simple-lucene-core/src/main/java/io/github/iamnicknack/slc/core/query/DefaultResult.java:36-53 | iterating to the end succeeds exactly when every score doc names a document of the searcher, and then yields each one's hit in order; otherwise it fails with the first fetch's failure |
| Results.DefaultResult.constructor | simple-lucene-core/src/main/java/io/github/iamnicknack/slc/core/query/DefaultResult.java:19-23 | the result holds the search's TopDocs and the lease it ran on |
| Results.DefaultResult.Close | simple-lucene-core/src/main/java/io/github/iamnicknack/slc/core/query/DefaultResult.java:31-33 | closing releases the lease once more each time; a page's close does nothing |
| Results.DefaultResult.Iterator | simple-lucene-core/src/main/java/io/github/iamnicknack/slc/core/query/DefaultResult.java:36-38 | every iterator() call gives a fresh iterator starting at index 0 |
| Results.DefaultResult.List | simple-lucene-api/src/main/java/io/github/iamnicknack/slc/api/query/Result.java:33-46 | list() collects the stream, which drains a new iterator up to the first exception and then closes the result, on either path, as ListOf describes |
| Results.HitIterator.constructor | simple-lucene-core/src/main/java/io/github/iamnicknack/slc/core/query/DefaultResult.java:37-38 | a new iterator starts at index 0 |
| Results.HitIterator.Next | simple-lucene-core/src/main/java/io/github/iamnicknack/slc/core/query/DefaultResult.java:46-51 | next() moves the index on by one even when it is past the end; past the end it throws ArrayIndexOutOfBoundsException with Java's message, otherwise it gives the fetched hit |
| Paging.Select | simple-lucene-core/src/main/java/io/github/iamnicknack/slc/core/query/DefaultPagedQueryExecutor.java:30-32 | every selected position lies between the starting point and the end of the flags |
| Paging.HitsFromSelect | simple-lucene-core/src/main/java/io/github/iamnicknack/slc/core/query/DefaultPagedQueryExecutor.java:30-32 | the engine's hits from a document on are the matching positions from there on |
| Paging.SelectAfter | simple-lucene-core/src/main/java/io/github/iamnicknack/slc/core/query/DefaultPagedQueryExecutor.java:30-32 | resuming the selection just after a selected position gives the selected positions that follow it |
| Paging.HitsAfterSeen | simple-lucene-core/src/main/java/io/github/iamnicknack/slc/core/query/DefaultPagedQueryExecutor.java:30-32 | searchAfter the c-th hit gives exactly the hits after the first c |
| Paging.PageIds | simple-lucene-core/src/main/java/io/github/iamnicknack/slc/core/query/DefaultPagedQueryExecutor.java:54-85 | the pages of the hits from an offset, n to a page, are never an empty list of pages |
| Paging.PageCount | simple-lucene-core/src/main/java/io/github/iamnicknack/slc/core/query/DefaultPagedQueryExecutor.java:61-65 | the pages needed for k hits are at least one, counting the page an empty result still has |
| Paging.PagesCover | simple-lucene-core/src/main/java/io/github/iamnicknack/slc/core/query/DefaultPagedQueryExecutor.java:54-85 | the pages laid end to end are exactly the hits, in order, so every hit appears once |
| Paging.PageSizes | simple-lucene-core/src/main/java/io/github/iamnicknack/slc/core/query/DefaultPagedQueryExecutor.java:54-85 | every page holds maxHits hits except the last, which holds at most that many |
| Paging.PagesCount | simple-lucene-core/src/main/java/io/github/iamnicknack/slc/core/query/DefaultPagedQueryExecutor.java:61-65 | the number of pages is PageCount of the hits |
| Paging.PageCountIsCeiling | simple-lucene-core/src/main/java/io/github/iamnicknack/slc/core/query/DefaultPagedQueryExecutor.java:61-65 | PageCount is the ceiling of k over n for k >= 1, and 1 when there are no hits |
| Paging.ThirtyOneHits | simple-lucene-core/src/main/java/io/github/iamnicknack/slc/core/query/DefaultPagedQueryExecutor.java:54-85 | 31 hits in pages of 10 make four pages, the last holding one hit |
| Paging.StoredHits | simple-lucene-core/src/main/java/io/github/iamnicknack/slc/core/query/DefaultResult.java:46-51 | the hits of given documents are, position by position, each document's score and stored fields |
| Paging.NextPageIs | simple-lucene-core/src/main/java/io/github/iamnicknack/slc/core/query/DefaultPagedQueryExecutor.java:30-32 | after c hits seen, with the last of them as the search-after point, the next page is the next maxHits hits (or the rest) with the engine total |
| Paging.PageIdsUnfold | simple-lucene-core/src/main/java/io/github/iamnicknack/slc/core/query/DefaultPagedQueryExecutor.java:54-85 | the pages from the start of a page are that page followed by the pages after it |
| Paging.PagesStep | simple-lucene-core/src/main/java/io/github/iamnicknack/slc/core/query/DefaultPagedQueryExecutor.java:68-77 | taking one more page keeps the pages taken followed by the pages to come equal to all the pages |
| Paging.AppendPage | simple-lucene-core/src/main/java/io/github/iamnicknack/slc/core/query/DefaultPagedQueryExecutor.java:68-77 | appending a page's fetched hits extends the hits collected so far by that page's documents |
| Paging.SeenNext | simple-lucene-core/src/main/java/io/github/iamnicknack/slc/core/query/DefaultPagedQueryExecutor.java:68-83 | while the iterator has a next page, lastDoc succeeds and the next page is the next maxHits hits, all of which can be fetched |
| Paging.SeenStep | simple-lucene-core/src/main/java/io/github/iamnicknack/slc/core/query/DefaultPagedQueryExecutor.java:68-77 | taking that page and listing its hits moves the paging state on by one page |
| Paging.DefaultPagedQueryExecutor.constructor | simple-lucene-core/src/main/java/io/github/iamnicknack/slc/core/query/DefaultPagedQueryExecutor.java:19-23 | the executor holds the query factory and the searcher lease factory |
| Paging.DefaultPagedQueryExecutor.Execute | simple-lucene-core/src/main/java/io/github/iamnicknack/slc/core/query/DefaultPagedQueryExecutor.java:26-35 | one searcher lease and one translated query serve every page; an acquire failure or a translation failure is rethrown, the latter leaving the lease unreleased; no search runs yet |
| Paging.PagedResultImpl.constructor | simple-lucene-core/src/main/java/io/github/iamnicknack/slc/core/query/DefaultPagedQueryExecutor.java:42-46 | the paged result holds the shared lease, the query and the page size |
| Paging.PagedResultImpl.NextPage | simple-lucene-core/src/main/java/io/github/iamnicknack/slc/core/query/DefaultPagedQueryExecutor.java:30-32 | the page factory searches after the given ScoreDoc through the shared lease without changing the engine, and a search failure comes back wrapped by the lease |
| Paging.PagedResultImpl.Close | simple-lucene-core/src/main/java/io/github/iamnicknack/slc/core/query/DefaultPagedQueryExecutor.java:49-51 | closing the paged result releases the shared lease once |
| Paging.PagedResultImpl.Iterator | simple-lucene-core/src/main/java/io/github/iamnicknack/slc/core/query/DefaultPagedQueryExecutor.java:54-59 | each iterator starts before the first page with no hits seen |
| Paging.PagedResultImpl.Stream | simple-lucene-api/src/main/java/io/github/iamnicknack/slc/api/query/PagedResult.java:18-22 | streaming the pages yields every hit exactly once and in order, as the pages PageIds describes, then releases the lease once; with a page size below 1 the first page fails and the lease is still released |
| Paging.PagedResultImpl.Turn | simple-lucene-api/src/main/java/io/github/iamnicknack/slc/api/query/PagedResult.java:18-22 | one element of the stream keeps the paging state and, unless it fails, fetches a page and moves the hits seen forward |
| Paging.PageIterator.constructor | simple-lucene-core/src/main/java/io/github/iamnicknack/slc/core/query/DefaultPagedQueryExecutor.java:56-59 | a new page iterator has no last page and no hits seen |
| Paging.PageIterator.Next | simple-lucene-core/src/main/java/io/github/iamnicknack/slc/core/query/DefaultPagedQueryExecutor.java:68-83 | next fetches the page after the previous page's last hit, remembers it, counts its hits, and returns it as a result on the shared lease whose close does nothing; an empty previous page (lastDoc) or a failed search throws and leaves the iterator as it was |
| QueryFactories.Lower | simple-lucene-core/src/main/java/io/github/iamnicknack/slc/core/query/QueryFactories.java:27 | lower-casing keeps the length and lower-cases each character |
| QueryFactories.KeywordMatches | simple-lucene-core/src/main/java/io/github/iamnicknack/slc/core/query/QueryFactories.java:19-21 | keyword never fails, and its query matches exactly the documents holding that untokenised term on the field |
| QueryFactories.LowerIdempotent | simple-lucene-core/src/main/java/io/github/iamnicknack/slc/core/query/QueryFactories.java:27 | lower-casing twice is lower-casing once |
| QueryFactories.TextTranslation | simple-lucene-core/src/main/java/io/github/iamnicknack/slc/core/query/QueryFactories.java:23-31 | text parses the lower-cased value, so values equal up to case translate alike; the parser's query comes back unchanged, a ParseException comes back as a QueryException caused by it, other failures pass through |
| QueryFactories.AfterMatches | simple-lucene-core/src/main/java/io/github/iamnicknack/slc/core/query/QueryFactories.java:47 | after(d) never fails and matches a long point exactly when it is on or after d |
| QueryFactories.BeforeWrapsAtMin | simple-lucene-core/src/main/java/io/github/iamnicknack/slc/core/query/QueryFactories.java:55 | as written, before(Long.MIN_VALUE) wraps its upper bound to Long.MAX_VALUE and matches every long point, though no long is before it |
| QueryFactories.BeforeAgreesAboveMin | simple-lucene-core/src/main/java/io/github/iamnicknack/slc/core/query/QueryFactories.java:55 | above Long.MIN_VALUE the written before() and the corrected one build the same query |
| QueryFactories.BeforeMatches | simple-lucene-core/src/main/java/io/github/iamnicknack/slc/core/query/QueryFactories.java:55 | the corrected before(d) matches a long point exactly when it is strictly before d |
| QueryFactories.BetweenNeedsTwo | simple-lucene-core/src/main/java/io/github/iamnicknack/slc/core/query/QueryFactories.java:65-67 | between refuses anything other than two dates with a QueryException saying so, written and corrected alike |
| QueryFactories.BetweenWrapsAtMin | simple-lucene-core/src/main/java/io/github/iamnicknack/slc/core/query/QueryFactories.java:69 | as written, between([a, Long.MIN_VALUE]) wraps its upper bound and matches every long point from a on, though none is before the second date |
| QueryFactories.BetweenAgreesAboveMin | simple-lucene-core/src/main/java/io/github/iamnicknack/slc/core/query/QueryFactories.java:69 | unless the second date is Long.MIN_VALUE the written between() and the corrected one build the same query |
| QueryFactories.BetweenMatches | simple-lucene-core/src/main/java/io/github/iamnicknack/slc/core/query/QueryFactories.java:63-70 | the corrected between([a, b]) matches a long point exactly when a <= it < b |
| Numbers.WrapInt | simple-lucene-core/src/main/java/io/github/iamnicknack/slc/core/document/FieldDescriptorBuilder.java:163 | narrowing to an int gives an int congruent to the value modulo 2^32, and the value itself when it already fits |
| Numbers.WrapLong | simple-lucene-core/src/main/java/io/github/iamnicknack/slc/core/query/QueryFactories.java:55 | long arithmetic gives a long congruent to the exact value modulo 2^64, and the value itself when it already fits |
| Numbers.NatToString | simple-lucene-api/src/main/java/com/github/iamnicknack/slc/api/index/DomainOperations.java:37 | the decimal form of a natural number is a non-empty string of digits |
| Numbers.ParseInt | simple-lucene-api/src/main/java/com/github/iamnicknack/slc/api/index/DomainOperations.java:37 | a parse that succeeds gives a value in the int range |
| Numbers.DigitsOfNat | simple-lucene-api/src/main/java/com/github/iamnicknack/slc/api/index/DomainOperations.java:37 | the digits of a natural number read back as that number |
| Numbers.ParseIntToString | simple-lucene-api/src/main/java/com/github/iamnicknack/slc/api/index/DomainOperations.java:37 | parsing the decimal form of an int gives the int back |

## Left out

- Lucene itself: the IndexWriter, the IndexSearcher, the SearcherTaxonomyManager, segments and merging are replaced by the abstract index above. Analyzers and tokenisation are left out, so a TextField is never matched by a term query. The classic query parser is a parameter of `QueryFactories.Text`, since only the mapping of its exception is the library's own.
- `FacetsConfig.build` (the conversion of facet fields into taxonomy ordinals on write) and facet counting are Lucene's; facet fields are written to the document as they are.
- Lucene's limit of 1024 clauses in a boolean query (TooManyClauses) is not modelled, so a query of many ids never throws it.
- Scores are floats in Lucene; the engine gives every hit the same constant score, and hits come in document order.
- Dates are epoch milliseconds in the long range. The ISO 8601 text of `ZonedDateTime.toString`, the zone and the `Clock` are not modelled; the decimal digits of the milliseconds stand in for the text (`Schema.DateText`).
- `toLowerCase` is modelled for ASCII letters only; Unicode case mapping is not.
- Concurrency is left out: a lease is used by one thread, and the `AtomicLong` serial is a plain counter.
- The collection-like `_serial` counter lives in the engine, one per index, rather than one per collection-like operations object; with one such object per index, as the collection wiring has, the two agree.
- Logging in `DefaultLease`, `DefaultLuceneBackend` and the set-like operations is a side effect only; the model keeps the warnings of a swallowed release failure but not the other log lines.
- The lazy `iterator`, `stream`, `forEach`, `query`, `queryFirst` and `queryStream` of the collection facade are not modelled; the facade's mutators and queries of size and membership are.
- Results.DefaultResult.List: a stream is modelled only as collected to the end and then closed, which is what `list()` does; a stream abandoned half way, or a lazily mapped one, is not modelled.
- The three `toArray` overloads of the collection facade all throw UnsupportedOperationException and are modelled as one method.
- A null answer of `getField` and the NullPointerException it then causes are modelled as a missing field; the null message of an UnsupportedOperationException is modelled as the empty string.
- Builders.DocumentDescriptorBuilder.Build: the duplicate-name failure carries Java's leading message but not the "attempted merging values" suffix that the map collector appends.
- The iteration order of a Java HashMap is unspecified; the model iterates a descriptor's fields in registration order, and `Domain.IdIndependentOfOrder` shows that the id does not depend on that order.
- The anonymous subclass of `DefaultResult` whose `close` does nothing, used for pages, is modelled by the `closes` flag of one class.
- Lucene's collector counts the total exactly only up to 1000 hits (TOTAL_HITS_THRESHOLD) and reports a lower bound beyond that; the model's engine always reports the exact count. The paged executor's loop relies on that total, so its every-hit-once guarantee holds for the exact total only.
- The IllegalArgumentException messages of a search for no hits ("numHits must be > 0") and of fetching a missing document ("docID must be >= 0 and < maxDoc") are shorter than Lucene's, which go on with a hint or with the offending numbers.
- A point range query matches a field of either point width: an IntPoint under a long range (or a LongPoint under an int range) matches in the model, where Lucene compares encodings of one width.
- Reflection-driven schemas (the annotations module), the AOP aspects, the sandbox's grouped executor, the construction of backends from directories, the example programs and the interface-only `com` copy of `LuceneBackend` are not part of this model.

## Findings

| source | as written | input that shows it | evidently intended | confidence | as-written member | corrected member |
|---|---|---|---|---|---|---|
| simple-lucene-core/src/main/java/io/github/iamnicknack/slc/core/query/QueryFactories.java:55 | `before(d)` is the range from Long.MIN_VALUE to `millis(d) - 1` in long arithmetic | a date at Long.MIN_VALUE milliseconds: `millis - 1` wraps to Long.MAX_VALUE and every date matches | no date is before Long.MIN_VALUE, so the range is empty | not executed | QueryFactories.BeforeWrapsAtMin | QueryFactories.BeforeMatches |
| simple-lucene-core/src/main/java/io/github/iamnicknack/slc/core/query/QueryFactories.java:69 | `between([a, b])` is the range from `millis(a)` to `millis(b) - 1` in long arithmetic | b at Long.MIN_VALUE milliseconds: the upper bound wraps and every date from a on matches | the dates from a on and strictly before b, none here | not executed | QueryFactories.BetweenWrapsAtMin | QueryFactories.BetweenMatches |
| simple-lucene-core/src/main/java/io/github/iamnicknack/slc/core/index/SetLikeUpdateOperations.java:121-124 | `deleteAll` answers the number of clauses of its query, one per value passed in | `deleteAll([v, v])` answers 2 though it deletes by one id | the number of distinct terms, as the method's own documentation at line 109 says | not executed | Updates.DeleteAllAsWrittenRemoves | Updates.DeleteAllRemoves |
| simple-lucene-core/src/main/java/com/github/iamnicknack/slc/core/collection/AbstractLuceneCollection.java:84-90 | `containsAll(c)` compares the count of documents matching any of the ids with the number of ids | a collection holding two copies of a and no b answers true to `containsAll([a, b])` | true exactly when every id is present, as `java.util.Collection` requires | not executed | Collections.ContainsAllAsWrittenAnswers | Collections.ContainsAllIff |
