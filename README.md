# Daily seller settlement, modelled in Dafny

The system settles marketplace sellers once per calendar day. A Spring Batch job runs two
steps in order:

- **settlementStep.** A paging reader groups the day's qualifying order items by seller.
  The paging reader is a JDBC query: DELIVERED, SHIPPED or PAID orders, placed inside the
  day's half-open window, joined to the seller's grade. For each seller it reads the summed
  line totals, the distinct order count and the item count, sorted by seller id. A processor
  turns each group into a PENDING `Settlement`:
  - the commission rate comes from the seller's grade;
  - `commission = totalSales × rate`;
  - `netAmount = totalSales − commission`.

  A writer upserts each chunk of 100 settlements on the key (seller, settlement date). It
  fetches the chunk's existing rows in one query, updates matched rows in place and inserts
  the rest.
- **verificationStep.** A tasklet recomputes the day's ledger total straight from the order
  items and compares it with the sum of `total_sales` in the settlements table.
  - If they differ, it reports the absolute difference and up to ten per-seller mismatch
    rows, then fails.
  - Otherwise it reports the day's settlement statistics.

## Modules

| file | module | what it holds |
|---|---|---|
| `wrappers.dfy` | `Wrappers` | `Option` |
| `sums.dfy` | `Sums` | Keyed sums: `SUM` and `GROUP BY`. It proves partition, append and sorted-key lemmas for them. |
| `grades.dfy` | `Grades` | The `SellerGrade` enum, its rates and `valueOf`. |
| `ledger.dfy` | `Ledger` | Orders, order items, the day window and the status filter. |
| `aggregation.dfy` | `Aggregation` | The `SellerAggregation` DTO. |
| `settlement.dfy` | `Settlements` | The `Settlement` entity as a class that `update` changes in place, plus its value `SettlementRow`. |
| `processor.dfy` | `Processor` | The target date, `Long.intValue` and `process`. |
| `repository.dfy` | `Repository` | The repository queries on the table's value. It also holds a `SettlementStore` class over entity objects, with `saveAll`. |
| `writer.dfy` | `Writer` | The upsert as a function on values (`Upsert`). It also holds the imperative `SettlementWriter.Write`, which is proved equal to `Upsert`. |
| `verification.dfy` | `Verification` | The verification tasklet: both totals, the mismatch query, the statistics and the verdict. |
| `job.dfy` | `Job` | The reader query, the chunked settlement step, and the job that runs both steps. |

### Representation

- **Money.** Amounts are integers in cents. A rate is in hundredths (0.15 is 15).
  - `BigDecimal.multiply` of two scale-2 numbers has scale 4. So `commission` and
    `netAmount` are kept in units of 1/10000, and `commission + netAmount == totalSales * 100`
    holds exactly, with no rounding.
- **Time.** A date is a day number and a timestamp a count of seconds. Day `d` starts at
  `d * 86400`.
- **Clocks.** `LocalDate.now()` and `LocalDateTime.now()` become parameters. Each
  step-scoped bean computes its own date from the `targetDate` job parameter and its own
  "today", and the model keeps that (`Job.Clock`).
- **Tables.** A table is a sequence of rows in table order. The sellers table appears only
  as its grade column (`map<int, string>`).

## Model

| member | source | states |
|---|---|---|
| Grades.CommissionRate | src/main/java/com/settlement/enums/SellerGrade.java:5-19 | Every grade's rate is a fraction strictly between 0 and 1 (BRONZE 0.15, SILVER 0.12, GOLD 0.10, PLATINUM 0.08). |
| Grades.ValueOf | src/main/java/com/settlement/enums/SellerGrade.java:5-9 | `valueOf` succeeds exactly when the string is a constant's name, and returns that constant. Any other string is the IllegalArgumentException case (None). |
| Grades.NameRoundTrip | src/main/java/com/settlement/enums/SellerGrade.java:5-9 | Parsing a grade's own name gives the grade back. |
| Grades.RatesDecrease | src/main/java/com/settlement/enums/SellerGrade.java:6-9 | A grade declared later always has a strictly lower commission rate. |
| Ledger.NewOrder | src/main/java/com/settlement/domain/Order/Order.java:48-59 | A null shipping fee or coupon discount is stored as zero and a given one is kept. The other fields are stored as given, and both timestamps are now. |
| Ledger.NewOrderItem | src/main/java/com/settlement/domain/OrderItem/OrderItem.java:43-53 | The line total is always `unitPrice × quantity`. It is non-negative for non-negative inputs and equals the unit price for quantity 1. |
| Ledger.WindowIsDay | src/main/java/com/settlement/batch/job/SettlementJobConfig.java:90-91 | A timestamp lies in `[d 00:00, d+1 00:00)` exactly when it falls on day `d`. |
| Ledger.QualifyingItems | src/main/java/com/settlement/batch/tasklet/SettlementVerificationTasklet.java:80-87 | An item is selected iff:<br>• its order exists;<br>• the order is DELIVERED, SHIPPED or PAID;<br>• the order was placed in the day's window. |
| Ledger.UnsettleableExcluded | src/main/java/com/settlement/batch/job/SettlementJobConfig.java:106-110 | An item of a PENDING, REFUNDED or CANCELLED order is never selected, on any date. |
| Ledger.QualifiesOnOneDay | src/main/java/com/settlement/batch/job/SettlementJobConfig.java:106-108 | No item qualifies on two different dates. |
| Aggregation.NewSellerAggregation | src/main/java/com/settlement/batch/dto/SellerAggregation.java:21-28 | The aggregate is built iff the grade string is exactly a grade's name. The name then round-trips and the other fields are stored as given. Otherwise the failure carries the rejected string. |
| Settlements.CommissionBounds | src/main/java/com/settlement/domain/Settlement/Settlement.java:65-66 | For a rate in [0, 1] and non-negative sales, both commission and net amount lie in [0, sales]. |
| Settlements.NewRow | src/main/java/com/settlement/domain/Settlement/Settlement.java:58-72 | A built settlement:<br>• is balanced: `commission = sales × rate` and `commission + net = sales`;<br>• is PENDING;<br>• carries its arguments;<br>• is stamped with now for both timestamps. |
| Settlements.Updated | src/main/java/com/settlement/domain/Settlement/Settlement.java:77-87 | An updated row:<br>• is balanced and PENDING, whatever its status was;<br>• carries the new money and counts;<br>• keeps seller, date and createdAt;<br>• gets a fresh updatedAt. |
| Settlements.UpdateTwice | src/main/java/com/settlement/domain/Settlement/Settlement.java:77-87 | Updating twice with the same values gives the same row as updating once, apart from updatedAt. |
| Settlements.UpdateWithOwnValues | src/main/java/com/settlement/domain/Settlement/Settlement.java:77-87 | Re-applying a balanced PENDING row's own values changes only updatedAt. |
| Settlements.Settlement.constructor | src/main/java/com/settlement/domain/Settlement/Settlement.java:58-72 | The new entity is valid (balanced) and its state is `NewRow` of the arguments. |
| Settlements.Settlement.Update | src/main/java/com/settlement/domain/Settlement/Settlement.java:77-87 | The entity's new state is `Updated` of its old state. It stays balanced. |
| Processor.TargetDate | src/main/java/com/settlement/batch/processor/SettlementProcessor.java:24-29 | The date is the `targetDate` parameter when one is given, otherwise the day before today. |
| Processor.IntValue | src/main/java/com/settlement/batch/processor/SettlementProcessor.java:38-39 | `Long.intValue` gives a 32-bit value congruent to its argument mod 2^32. It is the identity on values that fit in an int. |
| Processor.ProcessedRow | src/main/java/com/settlement/batch/processor/SettlementProcessor.java:32-41 | The processed row:<br>• has the aggregate's seller, sales and the grade's rate;<br>• has the step's date;<br>• is balanced and PENDING;<br>• has the aggregate's counts whenever they fit in an int. |
| Processor.ProcessedWithinSales | src/main/java/com/settlement/batch/processor/SettlementProcessor.java:32-41 | With non-negative sales, the processed commission and net amount both lie in [0, sales]. |
| Processor.Process | src/main/java/com/settlement/batch/processor/SettlementProcessor.java:32-41 | `process` allocates a fresh valid entity whose state is `ProcessedRow`. |
| Repository.FindBySettlementDateAndSellerIdIn | src/main/java/com/settlement/domain/Settlement/SettlementRepository.java:20-23 | Returns exactly the rows of the date whose seller is in the list. |
| Repository.FindBySellerIdAndSettlementDate | src/main/java/com/settlement/domain/Settlement/SettlementRepository.java:13 | Returns:<br>• empty iff no row has the key;<br>• the one row when exactly one has it;<br>• the non-unique-result failure iff two or more rows have it. |
| Repository.UniqueKeysSingleMatch | src/main/java/com/settlement/domain/Settlement/SettlementRepository.java:13 | On a table with unique (seller, date) keys, at most one row matches and the lookup never fails. |
| Repository.ExistsBySettlementDate | src/main/java/com/settlement/domain/Settlement/SettlementRepository.java:15 | True iff some row has the date. |
| Repository.CountKeyZero | src/main/java/com/settlement/domain/Settlement/SettlementRepository.java:13 | A key is counted zero times iff no row carries it. |
| Repository.MatchingViews | src/main/java/com/settlement/domain/Settlement/SettlementRepository.java:20-23 | The query over entity objects returns the entities whose values are the value query's result. |
| Repository.Persisted | src/main/java/com/settlement/batch/writer/SettlementWriter.java:77-78 | `saveAll` keeps the stored entities as a prefix and adds at most the saved ones. Every saved entity is held afterwards, and nothing else is added. |
| Repository.PersistedAppendsNew | src/main/java/com/settlement/batch/writer/SettlementWriter.java:77-78 | `saveAll` keeps the managed entities and appends each new one once, in order. |
| Repository.SettlementStore.constructor | src/main/java/com/settlement/domain/Settlement/SettlementRepository.java:11 | An empty store is valid. |
| Repository.SettlementStore.FindBySettlementDateAndSellerIdIn | src/main/java/com/settlement/domain/Settlement/SettlementRepository.java:20-23 | Returns every stored entity of the date whose seller is listed, and only those. |
| Repository.SettlementStore.SaveAll | src/main/java/com/settlement/batch/writer/SettlementWriter.java:77-78 | The stored sequence becomes the old one followed by the entities not stored yet. |
| Writer.FirstDuplicateSpec | src/main/java/com/settlement/batch/writer/SettlementWriter.java:47-50 | `toMap` reports no duplicate iff the fetched rows' seller ids are distinct. A reported duplicate is one of them. |
| Writer.Upsert | src/main/java/com/settlement/batch/writer/SettlementWriter.java:32-81 | An empty chunk changes nothing. A saved write has `inserts + updates = chunk size` and grows the table by the inserts. A duplicate fetched key leaves the table unchanged. |
| Writer.UnmatchedSound | src/main/java/com/settlement/batch/writer/SettlementWriter.java:70-74 | Every staged insert is a chunk item whose seller has no fetched row. |
| Writer.UnmatchedComplete | src/main/java/com/settlement/batch/writer/SettlementWriter.java:70-74 | Every chunk item whose seller has no fetched row is staged for insert. |
| Writer.ApplyItemsInserts | src/main/java/com/settlement/batch/writer/SettlementWriter.java:57-75 | The loop's staged inserts are exactly the unmatched items, in chunk order. |
| Writer.ApplyItemsUpdatesMatched | src/main/java/com/settlement/batch/writer/SettlementWriter.java:58-69 | A fetched row of an item's seller ends up updated with that item's values. |
| Writer.UpsertSavesOnUniqueTable | src/main/java/com/settlement/batch/writer/SettlementWriter.java:47-50 | On a table with unique keys, `toMap` never throws and the write always saves. |
| Writer.UpsertKeepsUniqueKeys | src/main/java/com/settlement/batch/writer/SettlementWriter.java:32-81 | A chunk of distinct sellers on one date keeps the table's (seller, date) keys unique. |
| Writer.StagedInsert | src/main/java/com/settlement/batch/writer/SettlementWriter.java:70-74 | A staged insert comes from the chunk, carries the chunk's date and has no row with its key in the table. |
| Writer.UpsertCarriesIncoming | src/main/java/com/settlement/batch/writer/SettlementWriter.java:57-78 | After the write, each chunk item's key has a row carrying that item's money, counts and PENDING status. This holds whether the row was updated or inserted. |
| Writer.UpsertLeavesOthers | src/main/java/com/settlement/batch/writer/SettlementWriter.java:46-78 | A row whose key is not in the chunk is left unchanged, at its position. |
| Writer.UpsertIntoFreshKeys | src/main/java/com/settlement/batch/writer/SettlementWriter.java:57-78 | When no chunk key exists yet, the write inserts the whole chunk and appends it to the table. |
| Writer.UpsertTwice | src/main/java/com/settlement/batch/writer/SettlementWriter.java:32-81 | Writing the same chunk a second time updates every row and inserts nothing. The table is unchanged apart from updatedAt. This is one chunk; Job.StepRerun and Job.JobRerun state it for a whole step and a whole run. |
| Writer.UpsertOverCarried | src/main/java/com/settlement/batch/writer/SettlementWriter.java:57-78 | When every item of a chunk already has a row of its key that carries its values, the write updates every row, inserts nothing and changes nothing but updatedAt. |
| Writer.ApplyItems | src/main/java/com/settlement/batch/writer/SettlementWriter.java:57-75 | The loop keeps the table's length and counts each item exactly once, as an update or as an insert. |
| Writer.Stage | src/main/java/com/settlement/batch/writer/SettlementWriter.java:52-75 | The loop over entities updates the fetched entities in place so that the store's views are the value model's rows. It collects the updated and the new entities in chunk order, with the value model's counts. |
| Writer.ToMap | src/main/java/com/settlement/batch/writer/SettlementWriter.java:47-50 | `toMap` either reports the first repeated seller or maps each fetched seller to its entity. |
| Writer.SettlementWriter.FetchExisting | src/main/java/com/settlement/batch/writer/SettlementWriter.java:40-50 | The date is the first item's. The duplicate report is the value model's. The map's keys are the fetched sellers, each mapped to its stored entity. |
| Writer.SettlementWriter.SaveStaged | src/main/java/com/settlement/batch/writer/SettlementWriter.java:52-78 | The loop and `saveAll` leave the store holding the updated rows followed by the inserts, and return the value model's counts. |
| Writer.SettlementWriter.Write | src/main/java/com/settlement/batch/writer/SettlementWriter.java:32-81 | `write` changes the store, returns the counts or throws the duplicate key exactly as `Upsert` does on the table's value. The store stays valid. |
| Verification.LedgerTotal | src/main/java/com/settlement/batch/tasklet/SettlementVerificationTasklet.java:79-92 | The ledger total sums the qualifying items' line totals. It is 0 (COALESCE) when none qualify. |
| Verification.LedgerSellers | src/main/java/com/settlement/batch/tasklet/SettlementVerificationTasklet.java:118-124 | The GROUP BY keys are distinct and are exactly the sellers of qualifying items. |
| Verification.LedgerTotalByGroups | src/main/java/com/settlement/batch/tasklet/SettlementVerificationTasklet.java:118-124 | The ledger total equals the sum of the per-seller group totals. |
| Verification.SettlementTotal | src/main/java/com/settlement/batch/tasklet/SettlementVerificationTasklet.java:97-105 | The settlement total sums `total_sales` over the date's rows. It is 0 (COALESCE) when there are none. |
| Verification.SellerMismatches | src/main/java/com/settlement/batch/tasklet/SettlementVerificationTasklet.java:115-127 | Each row the join gives a ledger seller has that seller, its ledger total, an unequal settlement total and the signed difference. With no settlement row, the seller is listed once against 0 exactly when its ledger total is non-zero. |
| Verification.StoredMismatchesSound | src/main/java/com/settlement/batch/tasklet/SettlementVerificationTasklet.java:115-127 | A listed row of a stored seller comes from a row of that key whose total differs from the ledger total. |
| Verification.StoredMismatchesComplete | src/main/java/com/settlement/batch/tasklet/SettlementVerificationTasklet.java:115-127 | Every stored row of the key whose total differs from the ledger total is listed. |
| Verification.CandidatesSound | src/main/java/com/settlement/batch/tasklet/SettlementVerificationTasklet.java:111-129 | Every row of the mismatch query belongs to a ledger seller and carries its ledger total. Its two totals differ and the diff is their signed difference. The settlement total is 0 for a seller without a row, and otherwise a stored row's total. |
| Verification.CandidatesComplete | src/main/java/com/settlement/batch/tasklet/SettlementVerificationTasklet.java:111-129 | Every mismatch of a ledger seller is in the query's result. |
| Verification.StoredMismatchListed | src/main/java/com/settlement/batch/tasklet/SettlementVerificationTasklet.java:111-129 | A ledger seller's stored row whose total differs from the ledger total is reported with both totals and their difference. |
| Verification.MissingRowListed | src/main/java/com/settlement/batch/tasklet/SettlementVerificationTasklet.java:115-127 | A ledger seller with a non-zero total and no settlement row is reported against 0 (LEFT JOIN with COALESCE). |
| Verification.ListedSellersAreLedgerSellers | src/main/java/com/settlement/batch/tasklet/SettlementVerificationTasklet.java:117-127 | Every reported row is a ledger seller's, with that seller's ledger total and unequal totals. |
| Verification.StaleRowUnlisted | src/main/java/com/settlement/batch/tasklet/SettlementVerificationTasklet.java:117-127 | A row for a seller with no ledger items shifts the settlement total, but the report never lists it. |
| Verification.MismatchDetected | src/main/java/com/settlement/batch/tasklet/SettlementVerificationTasklet.java:55-66 | With unique keys and no stale rows, unequal totals always produce at least one mismatch row. |
| Verification.SettlementStatistics | src/main/java/com/settlement/batch/tasklet/SettlementVerificationTasklet.java:150-163 | The seller count is the number of the date's rows. Every sum is NULL exactly when there are no rows. |
| Verification.StatisticsAgree | src/main/java/com/settlement/batch/tasklet/SettlementVerificationTasklet.java:150-163 | The statistics' sales sum is the settlement total. On balanced rows the commission and net sums add up to it. |
| Verification.Verify | src/main/java/com/settlement/batch/tasklet/SettlementVerificationTasklet.java:35-73 | The step finishes, with the statistics, iff the two totals are equal. Otherwise:<br>• the diff is the positive absolute difference;<br>• the details are the first ten mismatch rows, and all of them when there are fewer. |
| Job.CountsBounded | src/main/java/com/settlement/batch/job/SettlementJobConfig.java:98-99 | A group's distinct order count is at least 1 and at most its item count. |
| Job.ReaderRows | src/main/java/com/settlement/batch/job/SettlementJobConfig.java:94-112 | The reader's rows are strictly ascending by seller. Their sellers are exactly those with a joined qualifying item. |
| Job.ReaderRowGroup | src/main/java/com/settlement/batch/job/SettlementJobConfig.java:94-111 | Each result row carries:<br>• its seller's grade column;<br>• the seller's summed line totals;<br>• the seller's item count;<br>• an order count between 1 and the item count. |
| Job.ReaderConserves | src/main/java/com/settlement/batch/job/SettlementJobConfig.java:94-111 | The result rows' sales add up to the joined items' line totals. |
| Job.LedgerTotalDecomposes | src/main/java/com/settlement/batch/job/SettlementJobConfig.java:101-105 | The verifier's ledger total is the reader's total plus the items whose seller is missing from the sellers table. |
| Job.ReaderMatchesLedger | src/main/java/com/settlement/batch/job/SettlementJobConfig.java:101-110 | When every qualifying item's seller exists, the reader's total equals the ledger total. |
| Job.MapRow | src/main/java/com/settlement/batch/job/SettlementJobConfig.java:120-126 | The row mapper builds an aggregation iff the grade column names a grade. The aggregation then carries the row's seller, sales and counts and that grade; otherwise the failure names the column's value. |
| Job.ReadPage | src/main/java/com/settlement/batch/job/SettlementJobConfig.java:120-126 | A page maps iff every row's grade parses. The aggregates are then the mapped rows in order. Otherwise the failure names a rejected grade from the page. |
| Job.SettlementStep | src/main/java/com/settlement/batch/job/SettlementJobConfig.java:71-78 | The step only ever adds rows, at most one per reader row. With no reader rows it completes and leaves the table as it was. |
| Job.StepKeepsUniqueKeys | src/main/java/com/settlement/batch/job/SettlementJobConfig.java:71-78 | Over ascending reader rows, the step keeps the table's keys unique and can only fail on an illegal grade. |
| Job.StepIntoFreshDate | src/main/java/com/settlement/batch/job/SettlementJobConfig.java:71-78 | On a date with no rows for the reader's sellers, the step completes and appends the processed rows in reader order. |
| Job.ProcessedTotals | src/main/java/com/settlement/batch/processor/SettlementProcessor.java:32-41 | The processed rows' total for the date equals the reader rows' total. |
| Job.StepLeavesOthers | src/main/java/com/settlement/batch/job/SettlementJobConfig.java:71-78 | A row whose key no reader row has on the step's date keeps its position and value. |
| Job.StepCompletedCarries | src/main/java/com/settlement/batch/job/SettlementJobConfig.java:71-78 | After a completed step, every reader row has a row of its key on the date that carries its processed values. |
| Job.StepOverCarried | src/main/java/com/settlement/batch/job/SettlementJobConfig.java:71-78 | When every reader row already has such a row, the step completes and changes nothing but updatedAt. |
| Job.StepRerun | src/main/java/com/settlement/batch/job/SettlementJobConfig.java:71-78 | Running the step again over the table a completed step left completes too, and changes that table only in updatedAt. |
| Job.SameExceptVerifies | src/main/java/com/settlement/batch/tasklet/SettlementVerificationTasklet.java:97-105 | Tables equal apart from updatedAt have the same settlement total and the same statistics for every date. |
| Job.RunJob | src/main/java/com/settlement/batch/job/SettlementJobConfig.java:54-61 | The job fails in the settlement step iff that step fails. The returned table is the settlement step's table. A completed job has equal ledger and settlement totals for the verifier's date and returns the statistics of that date. A failed verification reports a positive diff. |
| Job.JobReconcilesFreshDate | src/main/java/com/settlement/batch/job/SettlementJobConfig.java:54-61 | For a date not yet settled, when every seller is known, every grade parses and all beans agree on the date, the job completes and adds one row per reader row. |
| Job.JobRerun | src/main/java/com/settlement/batch/job/SettlementJobConfig.java:54-61 | Running the job again for the same date over the table a completed run left completes too. The table changes only in updatedAt, and the statistics are the same. |

## Left out

- Paging mechanics. The reader's keyset paging, its JDBC cursor and the 100-row page are
  modelled as slicing the sorted result into chunks of 100. This holds because the page
  size equals the chunk size. Ledger rows inserted while a run is in progress are not modelled.
- Transactions. Spring Batch's chunk transactions, rollback and restart are not modelled.
  Each step runs over one consistent table value. A failing chunk leaves the table as the
  chunks committed before it left it.
- Persistence internals. JPA dirty checking, the persistence context, generated ids and
  the SQL that `saveAll` issues are not modelled. The store is a sequence of entity
  objects, and `saveAll` appends the ones not stored yet.
- Decimal columns. DECIMAL column precision, scale and rounding on storage are not modelled.
  Amounts are exact integers at the scale the arithmetic produces.
- Date parsing. `LocalDate.parse` of a malformed `targetDate` parameter is not modelled;
  the parameter is an optional day number.
- Logging and the statistics output. The statistics are returned as a value instead.
- The job listener, controller, scheduler, runner, service and test-data generator are not
  modelled; they trigger or report on the job.
- Product and Seller entities. Only the sellers table's `grade` column enters the model.
- Writer.SettlementWriter.Write requires the chunk's entities to be distinct, valid and
  not yet stored. The processor always builds fresh entities, so this holds in the job. The
  store is taken to hold valid entities, each once.
- Job.SettlementStep uses one "now" for every entity timestamp in a step, and so do
  Writer.Upsert and Writer.SettlementWriter.Write for a chunk. The source reads the clock per
  entity.
- Writer.Upsert reports, on a duplicate key, the first seller that repeats in table order. The
  query at src/main/java/com/settlement/domain/Settlement/SettlementRepository.java:20-23 has no
  ORDER BY, so the seller Collectors.toMap names depends on the order the database returns.
- Settlement status values other than PENDING. The `SettlementStatus` enum file is not part
  of this model, so its other constants are one opaque `OtherStatus`. Nothing in the core
  sets them.
- Processor.ProcessedRow states its counts only when they fit in an int. Outside that range
  `IntValue` models the truncation. Long overflow of the SQL counts and BigDecimal scale
  growth are not modelled.
- Verification.Verify takes the mismatch query's `LIMIT 10` as the first ten rows in
  ascending seller order. The SQL has no ORDER BY, so the database may return any ten.
- Three beans each evaluate "today" separately: the reader, the processor and the tasklet.
  `Job.Clock` keeps the three apart. Job.JobReconcilesFreshDate requires that they agree, which
  can fail across midnight.
