# Verified model of the advisory ingestion and read API

The project models the part of the SecurityPortal API that keeps a public store of CSAF security
advisories in step with a provider, and answers queries over it:

- `Text`, `Csaf`, `Config`: ASCII text, the CSAF document as ingestion and the triggers see it, and the
  TLP publish gate on both its sides (Go and SQL).
- `ProductTree`: the recursive query that walks `product_tree` to (vendor, product) pairs.
- `FacetIndex`: the shared CVE dictionary, its link table and the product rows, the triggers that maintain
  them, and the backfill of migration 002.
- `Tables`, `Store`, `History`: the `advisories` and `documents` tables with the takeover and delete
  triggers; the transactions of `store.go` as methods of a class over those tables; every history of
  stores, sweeps and deletes.
- `Download`: the size-capped, teed body read for every split of the body, and the digest and signature checks.
- `Ingest`, `Cycles`, `Agreement`, `Replay`, `Recovery`, `Journal`, `Provenance`, `Outcomes`: one ingestion
  cycle with every answer of the provider and every fault around it as an input; what any sequence of cycles
  keeps, repeats and recovers from; where stored revisions come from, and exactly when a cycle fails.
- `Witnesses`: concrete inputs for the exceptional cases of the cycle.
- `Filters`, `Listing`, `Facets`, `Permalink`: the filter compiler and its SQL conditions in three-valued
  logic, the ordered and paged list, facet counts, and permalink lookups.
- `Migrations`: the migration runner with a crash possible before every commit.

The code that changes state is a class or a method with loops, proved equal to a function on values
(`Store.Database.StoreDocument` to `Store.StoredDb`, `Ingest.RunOnce` to `Ingest.CycleDone`,
`Migrations.Runner.Migrate` to `Migrations.Migrated`, and so on). The theorems are about those functions, over
all inputs and all runs.

HTTP, the clock, OpenPGP, the hash functions and full-text search are inputs: responses and the time are
arguments, and the hash, signature, match and rank functions are function-typed arguments.

Hypotheses the code needs appear as preconditions, each with a lemma showing what happens without it:

- Release date, history length and status are not NULL (section 3.2.1.12 of CSAF 2.0):
  `History.ReplayConflictsIff`, `History.HeadCanBeSupersededIff`, `Replay.NullKeyIsStoredAgain`.
- A revision key identifies its document: `History.FirstArrivalWins`.
- TLP labels carry no surrounding blanks: `Config.GateAgreement`, `Config.GatesDisagreeOnBlanks`,
  `Permalink.PermalinkStability`, `Witnesses.BlankLabelIsUnknown`.
- Scores lie on the tenths grid of section 5 of CVSS v3.1: `Facets.FacetMatchesFilterIff`.
- A feed answers the health probe as it answered the enumeration: `Agreement.SweepAgreesIff`,
  `Witnesses.RecoveredFeedIsWithdrawn`.
- No blank but the space, which `btrim` removes, surrounds a vendor name: `Facets.NameCountIsAtMostTotalIff`,
  `Facets.TabbedVendorIsMissed`.

Where the code and its own comments disagree, the model follows the code:

- pkg/ingest/poll.go:191-195 says a failed cycle never tombstones. It can, when recording the watermark
  fails after the sweep (`Cycles.FailedCycleWithdrawsIff` gives the exact condition, and
  `Witnesses.FailedCycleWithdraws` an input). That the next cycle resumes cleanly does hold
  (`Recovery.RecoveryIsClean`).
- pkg/ingest/poll.go:37-39 says a refused large retirement converges over later cycles. While the provider
  answers the same it never does, whichever later cycles fail (`Replay.RefusedSweepStaysRefused`, and
  `Witnesses.TenStayForever` for an input).
- pkg/ingest/poll.go:159-162 calls the guard's number an upper bound. For an arbitrary present list it is a lower
  bound (`Cycles.GuardFormulaIff`); at the point where `RunOnce` uses it, it is exact (`Cycles.GuardIsExact`).
- pkg/database/filters.go:28 calls the CVE filter a prefix match. It is one only for a text without LIKE
  metacharacters (`Filters.CveFilterIsPrefixIff`, and `Filters.MisledRow` for a row it finds otherwise).
- pkg/web/links.go:86-88 says `prev` lands on the nearest page boundary below an unaligned offset. It lands
  one page earlier (`Listing.PrevIsNearestIff`, and `Listing.PrevSkipsAPage` for the comment's own example).
- pkg/database/facets.go:30-32 says the capped flag tells whether values were cut. Category, TLP and language
  facets are cut at 51 values and never flagged (`Facets.FlagIsRightIff` gives the exact condition, and
  `Facets.FiftyTwoCategoriesAreCut` an input).

## Model

| member | source | states |
|---|---|---|
| History.HeadsOverRuns | pkg/database/migrations/000-setup.sql:138-210 | in every state that stores, sweeps and single-row deletes reach, each advisory has exactly one latest row, `latest_document_id` names it, and no revision is newer than it, NULLs or not; if no stored document lacks a release date or a history length it is the lexicographic maximum of the two |
| Tables.TakeoverKeepsIndex | pkg/database/migrations/000-setup.sql:164-174 | the partial unique index holds before, between and after the two updates of a takeover, and would be violated by the other order |
| Tables.StoredNewRevision | pkg/database/migrations/000-setup.sql:145-184 | storing a new revision adds exactly one row, keeps all others, clears the tombstone, and the new head is the newer of the old head and the new row |
| Tables.StoredDuplicate | pkg/database/store.go:62-78 | a revision already there only clears the tombstone |
| Tables.StoredKeepsHeads | pkg/database/migrations/000-setup.sql:145-184 | no store leaves a revision newer than its head, NULLs or not; without NULLs each head also stays strictly newer than all that came before it |
| Tables.DeletedKeepsInv | pkg/database/migrations/000-setup.sql:188-210 | a delete, whichever row the sort puts first on ties and wherever it puts NULLs, leaves a head that no revision is newer than, or removes the orphaned advisory |
| Tables.DeletedRows | pkg/database/migrations/000-setup.sql:188-220 | a delete takes away exactly its row, and an advisory exactly with its last row; no tombstone moves |
| Tables.DeletePromotesFirst | pkg/database/migrations/000-setup.sql:194-203 | the row promoted is first by falling release date and history length, NULLs before every value |
| Tables.SweptIsIntersection | pkg/database/store.go:180-187 | a sweep leaves active who was active and is listed, and revives nobody |
| Store.Database.SetLatest | pkg/database/migrations/000-setup.sql:138-140 | a flag update demands that no other row of the advisory is latest, which is the partial unique index |
| Store.Database.UpdateAdvisory | pkg/database/migrations/000-setup.sql:145-184 | the insert trigger, reading the head through the latest flags and updating row by row, does what `latest_document_id` prescribes |
| Store.Database.UpsertAdvisory | pkg/database/store.go:92-105 | the parent exists afterwards and is not withdrawn; nothing else changes |
| Store.Database.InsertDocument | pkg/database/migrations/000-setup.sql:212-215 | an insert appends one row and fires the three triggers |
| Store.Database.StoreDocument | pkg/database/store.go:42-87 | inserted, duplicate or failed exactly as key conflict, NOT NULL, casts and commit decide; a failure rolls back tables and derived tables |
| Store.OutcomeIff | pkg/database/store.go:59-84 | a store is a duplicate exactly when a row of the advisory has the same three columns, none NULL, and fails exactly when it cannot commit, lacks a version, or does not cast |
| Store.Database.CountActiveAdvisories | pkg/database/store.go:150-157 | the number of advisories not withdrawn |
| Store.Database.TombstoneAbsent | pkg/database/store.go:169-194 | withdraws exactly the active keys not present and returns how many |
| Store.UnnestGivesKeys | pkg/database/store.go:172-179 | the two parallel arrays pair up to the present keys again |
| Store.Database.SetWatermark | pkg/database/store.go:133-144 | records the time and changes nothing else |
| Store.Database.DeleteDocument | pkg/database/migrations/000-setup.sql:188-220 | a row delete cascades to the derived tables and promotes a first row by date or drops the advisory |
| History.SameContents | pkg/database/store.go:42-87 | any two orders of the same arrivals, with any repeats, leave the same advisories and revisions |
| History.SameHeads | pkg/database/migrations/000-setup.sql:163-181 | where release date and history length are there, they leave heads of the same rank and, where ranks are distinct, the same heads |
| History.HeadIsFirstBest | pkg/database/migrations/000-setup.sql:163-181 | on ties the earliest arrival stays head |
| History.ReplayConflictsIff | pkg/database/migrations/000-setup.sql:134 | a stored revision conflicts with itself exactly when version, history length and status are not NULL |
| History.HeadCanBeSupersededIff | pkg/database/migrations/000-setup.sql:163-167 | some document can take over from a head exactly when the head's release date is not NULL |
| History.FirstArrivalWins | pkg/database/store.go:59-68 | of two documents sharing a revision key the first is the one row that is stored |
| History.EveryRevisionIsHeld | pkg/database/migrations/000-setup.sql:134 | whatever arrives in whatever order, for each arrival a row with its version, history length and status is there; rows come from arrivals, and no two of an advisory agree in all three columns unless one is NULL |
| History.TwoRevisionsTwoRows | pkg/database/migrations/000-setup.sql:134 | two documents of one key that differ in version, history length or status both end up in rows of their own |
| ProductTree.Tree | pkg/database/migrations/000-setup.sql:322-338 | the level-by-level evaluation of the recursive query terminates on every finite tree and returns all its rows |
| ProductTree.DocumentProductPairs | pkg/database/migrations/000-setup.sql:320-364 | the whole query returns the pairs of the document |
| ProductTree.PairsAreThePaths | pkg/database/migrations/002-facets-and-fts.sql:115-125 | a pair is returned if and only if it is not all NULL and comes from a product node with its nearest enclosing vendor, a vendor node alone, or a full product name alone |
| ProductTree.CleanMeans | pkg/database/migrations/000-setup.sql:358-363 | a name is NULL if missing or spaces alone, and otherwise what is between its outer spaces |
| ProductTree.TrailIsVisited | pkg/database/migrations/000-setup.sql:329-337 | every path's end node is reached with its nearest vendor |
| ProductTree.VisitedHasTrail | pkg/database/migrations/000-setup.sql:329-337 | every row of the walk ends such a path |
| FacetIndex.FacetTables.ExtractCves | pkg/database/migrations/000-setup.sql:258-290 | under snapshot semantics the union of selected and inserted rows links the document to all its CVEs |
| FacetIndex.InsertCves | pkg/database/migrations/000-setup.sql:269-274 | the insert returns exactly the rows that were new |
| FacetIndex.LearnGrows | pkg/database/migrations/000-setup.sql:243-246 | the dictionary keeps its entries, gains exactly the new CVEs, and hands out fresh ids |
| FacetIndex.LearnIsInjective | pkg/database/migrations/000-setup.sql:243-246 | it stays a bijection |
| FacetIndex.ExtractionIsExactAndLocal | pkg/database/migrations/000-setup.sql:258-290 | the document joins to exactly its CVEs, and no other document's set changes |
| FacetIndex.FacetTables.ExtractProducts | pkg/database/migrations/000-setup.sql:366-375 | the document's product rows are its pairs, each once |
| FacetIndex.FacetTables.Backfill | pkg/database/migrations/002-facets-and-fts.sql:297-334 | the statements of the backfill, for any order in which DISTINCT delivers the CVEs |
| FacetIndex.BackfillAgreesIff | pkg/database/migrations/002-facets-and-fts.sql:291-334 | the backfill reaches the contents the triggers keep exactly when no stale link row was there |
| FacetIndex.BackfillIsIdempotent | pkg/database/migrations/002-facets-and-fts.sql:313-334 | a second backfill changes no table |
| FacetIndex.ReinsertIsNoOpIff | pkg/database/migrations/002-facets-and-fts.sql:323-329 | inserting the pairs again with ON CONFLICT DO NOTHING is harmless exactly when no pair bears a NULL |
| FacetIndex.IndexAgreesOverRuns | pkg/database/migrations/000-setup.sql:292-301 | after any inserts, updates, deletes and backfills the derived tables hold exactly the CVEs and pairs of the stored documents |
| Config.PublishableTlpSet | pkg/config/config.go:195-206 | the SQL label set holds the configured labels, and CLEAR whenever it holds WHITE |
| Config.ParseTlpLabels | pkg/config/config.go:222-242 | succeeds exactly when every non-blank part is a known label and there is one, and yields canonical labels |
| Config.GateAgreement | pkg/config/config.go:169-206 | the SQL gate admits a label if and only if the Go gate does and no blank surrounds it |
| Config.GatesDisagreeOnBlanks | pkg/database/filters.go:144 | a WHITE label with a leading blank passes the Go gate only |
| Config.GateMeans | pkg/config/config.go:169-187 | a label passes the Go gate exactly if, trimmed and in upper case, it is configured, or CLEAR where WHITE is |
| Config.TlpSetMeans | pkg/config/config.go:195-206 | the SQL label set is the configured labels, and CLEAR where WHITE is |
| Config.PartMeans | pkg/config/config.go:226-236 | a part is accepted exactly if blank or, ignoring case and outer blanks, one of the six labels |
| Config.LabelsRoundTrip | pkg/config/config.go:222-242 | a list of canonical labels written out with commas parses to itself |
| Config.SplitIsExact | pkg/config/config.go:223 | the parts are the text between the commas |
| Text.TrimSpaceIsExact | pkg/config/config.go:170 | only blanks go, only at the two ends, and all that are there |
| Text.CaseMaps | pkg/database/filters.go:158 | the two ASCII alphabets map onto each other letter by letter and nothing else changes |
| Download.TeeReader.Read | pkg/ingest/download.go:295-327 | one read delivers the next chunk cut at the limit, and counter and copy stay in step |
| Download.FetchDocument | pkg/ingest/download.go:282-314 | for every split of the body and every amount the decoder reads, it succeeds exactly for a complete decodable body within the cap, and the copy is then the whole body |
| Download.VerifyFile | pkg/ingest/download.go:205-275 | hands on a document exactly if the whole body arrived within 32 MiB and decodes, the content of the strongest hash file offered is that hash of the body, and the signature loaded and verifies over it |
| Download.ConcatJoins | pkg/ingest/download.go:295-314 | the body is its chunks one after the other |
| Download.ConcatOne | pkg/ingest/download.go:295-314 | and of one chunk that chunk |
| Csaf.AdvisoryKey | pkg/ingest/persist.go:153-179 | there is a key exactly if tracking id and publisher name are present and not blank, and it is the two trimmed |
| Ingest.Persister.Handle | pkg/ingest/persist.go:78-115 | gates, stores, counts and remembers the key as specified, and reports failed stores |
| Ingest.Persister.Present | pkg/ingest/persist.go:121-127 | lists each present key once |
| Ingest.ProcessFile | pkg/ingest/download.go:205-275 | the handler is called only with a verified advisory |
| Ingest.ProcessFeed | pkg/ingest/download.go:148-171 | the callback skips a restricted feed and otherwise processes its files until one fails or the run is cancelled |
| Ingest.Run | pkg/ingest/download.go:142-176 | processes every delivered feed in order until one fails |
| Ingest.CheckFeedHealth | pkg/ingest/feedhealth.go:54-96 | healthy exactly if some listed feed has a URL and a publishable label and every such feed loads on the probe; the two counters are the numbers of such feeds and of those that load |
| Ingest.FeedsAreListed | pkg/ingest/feedhealth.go:62-68 | the feeds of a provider are those of all its distributions |
| Ingest.FeedsFlatten | pkg/ingest/feedhealth.go:62-68 | in the order of the distributions |
| Ingest.FetchAndVerify | pkg/ingest/ingest.go:32-77 | the probe runs after the enumeration and only if that succeeded |
| Ingest.MaybeSweep | pkg/ingest/poll.go:133-189 | the decision of the guards, and a sweep to the present keys exactly when they let it through |
| Ingest.RunOnce | pkg/ingest/poll.go:80-126 | one cycle leaves the state, counts and error that the specification of a cycle gives |
| Cycles.Poll | pkg/ingest/poll.go:196-231 | with a valid configuration the loop runs every cycle, failed ones included |
| Cycles.RunContinues | pkg/ingest/poll.go:201-229 | the next cycle starts on what the last one left, whether that failed or not |
| Cycles.StoredDbEffect | pkg/database/store.go:42-105 | a store keeps tables and derived tables consistent, loses nothing and activates exactly its key |
| Cycles.DeletedDbConsistent | pkg/database/migrations/000-setup.sql:188-220 | a single-row delete keeps them consistent too |
| Cycles.FilesEffect | pkg/ingest/download.go:156-169 | after any prefix of the files: verified equals stored plus duplicate plus gated, present keys are active and no more than the stores, and nothing was lost or withdrawn |
| Cycles.FeedsEffect | pkg/ingest/download.go:142-176 | the same after any prefix of the feeds, and without an error every delivered file is counted |
| Cycles.CycleEffect | pkg/ingest/poll.go:80-126 | every cycle, failing or not, stays consistent and loses no key or revision; without a sweep it withdraws nobody; the watermark advances exactly when it returns no error |
| Cycles.CycleConserves | pkg/ingest/persist.go:78-115 | the counts of any run add up |
| Cycles.GuardIsExact | pkg/ingest/poll.go:159-171 | active minus present is exactly the number the sweep withdraws, and the sweep leaves the present keys active |
| Cycles.GuardFormulaIff | pkg/ingest/poll.go:159-171 | for arbitrary present keys that number is a lower bound, exact if and only if all are active |
| Cycles.SweepsIff | pkg/ingest/poll.go:133-189 | when a cycle sweeps, in terms of what the sweep would withdraw |
| Cycles.SweepIsBounded | pkg/ingest/poll.go:44-51 | a sweep leaves exactly the non-empty present set, and withdraws at most half of ten or more |
| Cycles.FailedCycleWithdrawsIff | pkg/ingest/poll.go:100-109 | a cycle fails and yet withdraws somebody exactly when the watermark cannot be recorded, the sweep was due, and some active key was not present |
| Cycles.CycleHalvesAtMost | pkg/ingest/poll.go:44-51 | one cycle at most halves a corpus of ten or more and never empties it |
| Cycles.SafetyOverRuns | pkg/ingest/poll.go:44-51 | no sequence of cycles loses a key or revision or empties the portal; n active fall below ten in k cycles only if n < 10 * 2^k |
| Cycles.PortalFromNew | pkg/ingest/poll.go:196-231 | after any cycles from an empty database each advisory has one head that no revision is newer than, and the derived tables agree |
| Cycles.DerivedFromNew | pkg/database/migrations/000-setup.sql:258-301 | after any cycles from an empty database each document is joined to exactly the CVEs it names and has each of its pairs once, and no derived row is without a document |
| Agreement.FeedsPresent | pkg/ingest/persist.go:99-114 | a run that does not fail has present exactly the keys that arrived |
| Agreement.SweepAgreesIff | pkg/ingest/feedhealth.go:54-96 | after a sweep nothing unpublished is active, and everything published is active exactly when each key arrived through a loaded feed and a verified file |
| Agreement.ProviderAgreement | pkg/ingest/poll.go:67-78 | with stable answers and no skipped file the active set is exactly what the provider publishes |
| Agreement.FaultFreeCycleSucceedsIff | pkg/ingest/persist.go:104-107 | with no fault around it a cycle succeeds exactly if configured, the metadata loads, and no admitted document is rejected by the insert |
| Replay.ReplayIsNoOp | pkg/ingest/poll.go:80-189 | after a cycle that swept or succeeded, a second one over the same answers stores nothing and leaves revisions, heads, tombstones and derived tables as they are, whatever it meets itself; if it gets through it counts as duplicates what the first stored or found |
| Replay.ReplaysConverge | pkg/ingest/poll.go:196-231 | after a cycle that swept or succeeded no later cycle over the same answers changes the tables, wherever it fails |
| Replay.RefusedSweepStaysRefused | pkg/ingest/poll.go:31-39 | if the fraction guard refused the first sweep, every active key is still active after any later cycles over the same answers |
| Replay.FeedsCounted | pkg/ingest/persist.go:99-114 | a run that does not fail makes one successful store call for each verified and admitted file |
| Replay.NullKeyIsStoredAgain | pkg/database/migrations/000-setup.sql:134 | a document with a NULL in its revision key is stored anew each time |
| Recovery.FeedsInStep | pkg/ingest/download.go:142-176 | whether a run fails, where, and which keys it has present does not depend on the database |
| Recovery.FeedsResumed | pkg/ingest/download.go:142-176 | a run that starts over on what an interrupted run left ends with the tables of one that was never interrupted |
| Recovery.RecoveryIsClean | pkg/ingest/poll.go:191-195 | after any cycles over the same answers, failed or not, a cycle fails exactly when it would have without them, and otherwise leaves exactly the state it would have left without them |
| Journal.RunRecorded | pkg/ingest/persist.go:99-114 | whatever was swept, failed or repeated in between, a run of cycles leaves the revisions and heads that its successful stores leave by themselves |
| Journal.SameStoresSameOutcome | pkg/database/migrations/000-setup.sql:145-184 | two runs of cycles from an empty database that stored the same documents in whatever order leave the same advisories and revisions and heads of the same rank |
| Provenance.CycleStoresWhatIsOffered | pkg/ingest/download.go:142-176 | a cycle stores only verified documents of loaded publishable feeds that are publishable, named and insertable, and all of those that are offered if it does not fail |
| Provenance.RunStoresWhatIsOffered | pkg/ingest/download.go:205-275 | every store of a run was offered in one of its cycles, with its checksum and signature verified |
| Provenance.RowsWereOffered | pkg/ingest/persist.go:78-115 | so was every row of a portal that started empty |
| Provenance.RunHoldsEveryRevision | pkg/database/migrations/000-setup.sql:134 | over any run from an empty database each store call has a row with its version, history length and status, and an advisory is there exactly if some call named its key |
| Provenance.SweepLeavesOffered | pkg/ingest/poll.go:172-188 | a sweep leaves active exactly the keys the provider offers |
| Outcomes.CycleFailsIff | pkg/ingest/poll.go:80-189 | exactly when a cycle fails: configuration, metadata, a rejected document, the failing store call or cancellation before a file it comes upon, the file processor, the count, the sweep, the watermark |
| Outcomes.FeedsOutcome | pkg/ingest/download.go:142-176 | exactly when an enumeration fails |
| Outcomes.FeedsTallied | pkg/ingest/download.go:148-171 | what a run that does not fail counts as verified, skipped, skipped with its feed, and gated |
| Outcomes.StoredCountsRows | pkg/ingest/persist.go:104-112 | a cycle adds exactly as many rows as it counts as stored |
| Outcomes.RestrictedFeedIsIgnored | pkg/ingest/feedhealth.go:73-83 | a cycle does the same with and without a feed whose labels are not publishable |
| Outcomes.RestrictedAnswersAreIgnored | pkg/ingest/feedhealth.go:73-83 | and whatever such a feed answers, to the enumeration or the probe |
| Witnesses.RetirementIsRefused | pkg/ingest/poll.go:31-39 | a portal of ten or more whose provider lists one advisory: the cycle succeeds and nobody is withdrawn, then or in any later cycle |
| Witnesses.FailedCycleWithdraws | pkg/ingest/poll.go:191-195 | a small portal with a watermark that cannot be recorded: the cycle fails and an advisory no longer listed is withdrawn |
| Witnesses.RecoveredFeedIsWithdrawn | pkg/ingest/ingest.go:55-64 | a feed that fails at the enumeration and recovers for the probe has its active advisory withdrawn although it is published |
| Witnesses.TenStayForever | pkg/ingest/poll.go:31-39 | such a portal of ten, built from nothing, and its refused retirement |
| Witnesses.BlankLabelIsUnknown | pkg/database/filters.go:144 | a document with a blank before its label WHITE passes the Go gate, is stored and active, and its permalink answers 404 |
| Filters.NewFilteredWhere | pkg/database/filters.go:138-222 | the compiled conditions under the bound arguments keep a row if and only if the filter selects it, every placeholder is bound to an argument of its type, and the query text is where the rank expression looks |
| Filters.QueryBuilder.Bind | pkg/database/filters.go:105-108 | appends the argument and returns its position from 1 |
| Filters.QueryBuilder.BandClauses | pkg/database/filters.go:271-295 | one clause for each recognised band, true for exactly the scores of some requested band |
| Filters.EvalStable | pkg/database/queries.go:173-175 | later binds change the value of no earlier condition |
| Filters.NoFiltersSelect | pkg/database/filters.go:138-144 | without filters the latest, not withdrawn rows of a publishable label are selected |
| Filters.QueryNarrows | pkg/database/filters.go:148-152 | a query keeps of the selected rows those that match its trimmed text |
| Filters.CveNarrows | pkg/database/filters.go:156-163 | a CVE text keeps those with an id like it, in upper case, at the start |
| Filters.SeverityNarrows | pkg/database/filters.go:271-295 | ratings, in any case and with outer blanks, keep the scores of their ranges; names of no rating keep all |
| Filters.ScoreMinNarrows | pkg/database/filters.go:172-174 | a least score keeps the scores not below it |
| Filters.ScoreMaxNarrows | pkg/database/filters.go:175-177 | a greatest score keeps the scores not above it |
| Filters.FromNarrows | pkg/database/filters.go:180-182 | a first date keeps the dates not before it |
| Filters.ToNarrows | pkg/database/filters.go:183-185 | a last date keeps the dates not after it |
| Filters.ProductNarrows | pkg/database/filters.go:189-194 | a product keeps the rows with that product, ignoring case |
| Filters.VendorNarrows | pkg/database/filters.go:195-200 | a vendor keeps the rows with that vendor, ignoring case |
| Filters.PublisherNarrows | pkg/database/filters.go:202-204 | a publisher keeps the rows of exactly that publisher |
| Filters.TlpNarrows | pkg/database/filters.go:210-212 | labels keep the rows with one of them, ignoring case |
| Filters.CategoryNarrows | pkg/database/filters.go:214-216 | a category keeps the rows of exactly that category |
| Filters.LangNarrows | pkg/database/filters.go:217-219 | a language keeps the rows of exactly that language |
| Filters.CveFilterIsPrefixIff | pkg/database/filters.go:156-162 | the CVE filter keeps exactly the rows with a CVE that begins with the text in either case, for every row, if and only if the trimmed text has no LIKE metacharacter |
| Listing.ListAdvisories | pkg/database/queries.go:145-237 | total and page are of the same set of selected rows, and the page is a slice of its unique ordering: without a query by the release date or the score, as asked, NULLs last and ties by falling id, and with one by falling rank |
| Listing.OrderMeans | pkg/database/queries.go:113-125 | the order compares the column that was asked for, or the rank of the trimmed query first |
| Listing.BeforeIsStrictTotal | pkg/database/queries.go:113-125 | the order is a strict total order on rows of distinct ids |
| Listing.ListingIsOrdered | pkg/database/queries.go:113-125 | by falling rank; without a query, as many rows as have a sort value come first in the requested direction, the NULLs last, and equal values by falling id |
| Listing.ListingIsUnique | pkg/database/queries.go:113-125 | two executions of the query return the same sequence |
| Listing.ParseLimit | pkg/web/handlers.go:255-265 | a limit is refused exactly if it is no number or negative, defaults to 25, is kept from 1 to 100, and is 100 otherwise |
| Listing.ParseOffset | pkg/web/handlers.go:267-281 | an offset is accepted and kept exactly if it is a number from 0 to 10000, and defaults to 0 |
| Listing.BuildCollectionLinks | pkg/web/links.go:80-114 | the offsets of the previous and next links |
| Listing.LinksMean | pkg/web/links.go:83-107 | only offset 0 has no prev, and next leads one limit on exactly while rows are left |
| Listing.PrevIsNearestIff | pkg/web/links.go:83-101 | prev is a smaller multiple of the limit, the greatest that is a whole page back, and the nearest lower one exactly on aligned offsets and the first page |
| Listing.PrevSkipsAPage | pkg/web/links.go:86-88 | from offset 30 with limit 25 prev leads to 0 |
| Listing.PrevMovesIff | pkg/web/links.go:94-97 | prev leads back exactly if the limit is not 0 |
| Listing.PrevReachesFirst | pkg/web/links.go:83-101 | following prev reaches offset 0 over page boundaries only |
| Listing.PrevInvertsNext | pkg/web/links.go:83-107 | on aligned offsets prev undoes next |
| Listing.FollowNext | pkg/web/links.go:102-107 | following next from 0 visits the rows in order, each once, in the least number of pages, and all of them exactly when the last page starts at an accepted offset |
| Facets.FacetSeverity | pkg/database/facets.go:172-223 | each band's count is the number of selected rows it classifies, in canonical order, zeros included |
| Facets.SeverityCountsSum | pkg/database/facets.go:169-171 | the band counts sum to the list total, whatever the scores |
| Facets.FacetMatchesFilterIff | pkg/database/filters.go:66-72 | facet and filter put a score in the same band exactly if it is missing or lies outside the gaps between the bands |
| Facets.BandCountIsTotal | pkg/database/facets.go:181-195 | on the tenths grid a band counts exactly the rows selected with that band added |
| Facets.ColumnCountIsTotalIff | pkg/database/facets.go:115-138 | a counted publisher, category or language counts exactly the rows selected with it added, if and only if no blank surrounds it or, for a value of blanks alone, every selected row has it |
| Facets.TlpCountIsTotalIff | pkg/database/facets.go:83 | a counted label counts exactly the rows selected with it added, if and only if no blank surrounds it |
| Facets.NameCountIsAtMostTotalIff | pkg/database/facets.go:144-167 | a vendor or product counts at most the rows selected with it added, which ignores case, if and only if no outer blank is in its name, nothing else is, or each counted row also has the trimmed name |
| Facets.TabbedVendorIsMissed | pkg/database/migrations/000-setup.sql:358-363 | a vendor name that starts with a tab is stored as it is, counted by the facet, and not found by the filter |
| Facets.ScanFacetGroup | pkg/database/facets.go:228-261 | a cappable facet shows the most frequent 50 values and flags exactly more than 50; another shows 51 and is never flagged |
| Facets.FacetOf | pkg/database/facets.go:115-167 | a facet shows the most frequent values of the rows the list selects for the same filter, each with the positive number of those rows that have it, by falling number, none left out being more frequent, and all of them if it is neither flagged nor full; only publisher, vendor and product are ever flagged |
| Facets.FlagIsRightIff | pkg/database/facets.go:30-36 | the flag tells whether something was cut if and only if the facet is cappable or has at most 51 values |
| Facets.FiftyTwoCategoriesAreCut | pkg/database/facets.go:80 | of rows in 52 categories the facet leaves one out and is not flagged |
| Facets.GroupIsCompleteIff | pkg/database/facets.go:127-135 | a group shows every value exactly when there are no more than the query returns |
| Permalink.GetByPublisherTrackingId | pkg/database/queries.go:339-361 | unknown exactly if no latest row of that publisher and id has a publishable label; otherwise that row's document, or gone if its advisory is withdrawn |
| Permalink.LoadedGatesAgree | pkg/database/filters.go:141-144 | the gates agree for every loaded configuration and its label set |
| Permalink.RunGated | pkg/ingest/persist.go:82-97 | over any run every stored label passes the Go gate, and on trimmed labels stays trimmed |
| Permalink.PermalinkStability | pkg/database/queries.go:339-361 | after any cycles the lookup of a stored key is unknown exactly when blanks surround the label of its head, otherwise found while active and withdrawn while not, and found exactly when its head row is in the unfiltered list |
| Permalink.TrimmedIsNeverUnknown | pkg/database/queries.go:339-361 | where no label has outer blanks a stored key is never unknown again |
| Permalink.StatusOverRuns | pkg/web/handlers.go:480-532 | after any cycles a key answers 400 exactly if a part is empty or over 256 bytes, otherwise 404 exactly if it is not stored or blanks surround the label of its head, and else 200 while active and 410 while withdrawn |
| Permalink.UnknownKeyIs404 | pkg/web/handlers.go:522-526 | from an empty database, a key no store call named answers 404, and one that answers 200 or 410 was named |
| Migrations.Runner.ApplyMigration | pkg/database/migrations.go:130-160 | one transaction applies a script and its versions row or neither; setup is recorded as the latest version |
| Migrations.Runner.Migrate | pkg/database/migrations.go:48-104 | a call commits as many of its transactions as it gets to |
| Migrations.MigratedIsGood | pkg/database/migrations.go:48-104 | a call by any release, cut off anywhere, keeps the schema a prefix of the known changes; it commits what is missing as far as it gets and succeeds exactly if it gets all of it, so no versions key collides; a fresh database runs only setup |
| Migrations.MigratedRecorded | pkg/database/migrations.go:130-160 | whatever its list and wherever it is cut off, a call leaves one row for each committed script and none besides, and takes none away |
| Migrations.CallsRecorded | pkg/database/migrations.go:130-160 | so does any sequence of calls |
| Migrations.IdleCalls | pkg/database/migrations.go:53-85 | an empty list, a first migration that is not setup and an empty versions table are errors; a version as new as the list is success without a transaction |
| Migrations.CallsKeepGood | pkg/database/migrations.go:48-104 | the same over any sequence of releases and crashes, and no committed script is undone |
| Migrations.CompletedRun | pkg/database/migrations.go:74-82 | a completed call leaves every change of its release in the schema exactly once, and an immediate rerun commits nothing |

## Left out

- HTTP clients, the file processor of gocsaf, OpenPGP and the hash functions: foreign code; their answers are inputs.
- PostgreSQL isolation and several workers: statements and transactions are atomic and there is one ingest worker.
- Full-text search: `tsv`, `fts_config` and ranking are one match and one rank function.
- The JSON tree of a document: it is a record of the values read from it; which enclosing object is missing is not told apart, since every such case is skipped alike.
- SQL casts: whether all generated-column and trigger expressions of a document evaluate is one Boolean of it.
- The columns `recent`, `withdrawn_at`, `title`, `initial_release_date`, `original` and `signature`: written and never read by the modelled decisions.
- Gaps in the sequences of document and CVE ids after conflicts and rollbacks: a sequence keeps its place there, and the model takes it back. Only the order of document ids and the distinctness of CVE ids matter here, so an equality of states, as in `Recovery.RecoveryIsClean`, is meant up to those ids.
- Floating point: the withdrawal fraction and scores are real numbers.
- Non-ASCII case mapping and blanks.
- `FetchAndVerify` with a watermark: `RunOnce` always asks for a complete pull.
- `GetDocument` and `GetByTrackingID`: the same gate as the permalink lookup.
- The order of equally frequent facet values: the SQL breaks ties by the value under the database's collation, `Facets.FacetOf` any way.
- `listMigrations`: a binary's list of versions is given, strictly increasing.
- `parseFilters`, `parseSort`, link strings, headers, CSV and Atom rendering, authentication roles, `LastIngest`, `Ping`: they would only add easy members.
