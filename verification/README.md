# Gestionale materiali — a Dafny model of the inventory core

The system tracks refurbished goods bought in batches. A purchase batch
(`Acquisto`) holds items (`Prodotto`), and each item may carry sales
(`Vendita`). The ORM classes compute the batch's cost, revenue and margin,
its waiting and stock days, whether it is "problematic", a textual problem
list and a 0-100 urgency score. The same classes compute an item's unit
cost, margin and days to sale, and a sale's margin, tier and speed. Two HTTP
endpoints take records from a local sync script and insert batches with
their items and sales.

The model covers three parts:

- **Computed properties.** These are pure functions over an immutable
  snapshot of one batch: `Entities.Purchase` holds its items, and each item
  holds its sales. They cover the current revision (`Valuation`,
  `PurchaseMetrics`, `ItemMetrics`, `SaleMetrics`) and the legacy revision
  (`LegacyMetrics`).
- **Import endpoints.** Each endpoint is modelled as a pure function from a
  `Sync.Store` and a list of input records to a new store plus the counters
  it reports. The laws about them are in `SyncLaws`.
- **Text helpers.** `Text` supplies Python's `strip`, `title`, `replace` and
  integer printing, limited to what the properties use.

Modelling choices:

- Money is `real` and dates are integer day numbers.
- "Today" is an explicit parameter `today`.
- Python's `x or 0` on a nullable column is written out as `GetOr(0.0)`.
- The database session runs with `autoflush=False` (app/database.py:15), so
  a query sees only flushed rows. `Sync.Visibility` selects between two
  behaviours:
  - `FlushedOnly` is the code as written.
  - `IncludePending` also shows unflushed rows, which is what the duplicate
    checks evidently intend.
- The endpoints import the legacy classes (app/routes/api_routes.py:9) but
  build sales as `Vendita(prodotto_id=...)`, the current revision's
  signature. `Sync.Schema` makes the table classes a parameter:
  - `Legacy` is what the code imports. Its sale class has no `prodotto_id`
    (app/models/models.py:78-94), so every sale constructor raises. Its
    serial column is not unique (app/models/models.py:58).
  - `Current` is app/models/model_nuovo.py. A sale names its item by
    `prodotto_id`, and the serial column is unique
    (app/models/model_nuovo.py:234). A request that would store two items
    with one serial fails at the flush or the commit, and the rollback
    leaves the store as it was (app/routes/api_routes.py:137-147).

## Model

| member | source | states |
|---|---|---|
| Entities.PlaceholderIffPadded | app/models/model_nuovo.py:45-48 | A serial counts as missing exactly when it is one of "", "???", "N/A" surrounded only by whitespace. |
| PurchaseMetrics.MissingSerialPartition | app/models/model_nuovo.py:45-48 | Items without a real serial and items with one together make up the whole batch. |
| PurchaseMetrics.SoldUnsoldPartition | app/models/model_nuovo.py:40-43 | Sold and unsold items together are exactly the items of the batch. |
| PurchaseMetrics.FullySoldIffNothingLeft | app/models/model_nuovo.py:50-55 | A batch is fully sold iff it is non-empty and no item is left unsold, i.e. iff the sold count equals the item count. |
| Valuation.UnitCost | app/models/model_nuovo.py:262-267 | The unit cost times the number of items gives back the batch's total cost. An empty batch has unit cost 0. |
| Valuation.UnitCostsSumToTotal | app/models/model_nuovo.py:262-267 | Equal allocation conserves cost: the unit costs of a batch's items add up to its total cost. |
| Valuation.SalesRevenueSign | app/models/model_nuovo.py:316-319 | Net revenue is non-negative while no commission exceeds its price. A single sale is negative exactly when its commission exceeds its price (no clamping). |
| PurchaseMetrics.RevenueOfSoldIsAllSales | app/models/model_nuovo.py:62-65 | Summing over sold items only equals the net revenue of every sale of the batch. |
| PurchaseMetrics.MarginPct | app/models/model_nuovo.py:72-77 | The percentage times the total cost is 100 times (revenue minus cost). It is 0 when the cost is 0. |
| PurchaseMetrics.MarginPctSign | app/models/model_nuovo.py:62-77 | For a batch with positive cost, the margin percentage is non-negative iff its sales brought back at least the cost. |
| PurchaseMetrics.WaitingDays | app/models/model_nuovo.py:79-90 | Defined exactly while the batch has not arrived. It counts from the payment date, or from the creation date when no payment date is known. |
| PurchaseMetrics.StockDays | app/models/model_nuovo.py:92-97 | Defined exactly once the batch has arrived, and counts from the delivery date. |
| PurchaseMetrics.AvgStockDaysWithin | app/models/model_nuovo.py:99-119 | Defined iff the batch arrived and has a non-service sale. The mean lies between the earliest and latest such sale, measured from arrival. |
| PurchaseMetrics.BusinessInvestmentIsShare | app/models/model_nuovo.py:152-158 | The business investment is the business items' proportional share of the total cost. |
| PurchaseMetrics.LowMarginMeansUnderQuarterMarkup | app/models/model_nuovo.py:156-163 | The low-margin condition holds iff business revenue is below 1.25 times the business investment. |
| PurchaseMetrics.AddingServiceItem | app/models/model_nuovo.py:144-163 | An item consumed by repairs leaves business revenue and the business item count unchanged. It dilutes the business investment by n/(n+1). |
| PurchaseMetrics.ProblemTags | app/models/model_nuovo.py:121-165 | Each reason is collected iff its condition holds, and none is collected twice. |
| PurchaseMetrics.ProblematicIff | app/models/model_nuovo.py:121-165 | Problematic iff any of five holds: a problem was reported, the batch has not arrived, an item lacks a serial, it sells slowly, or the business margin is low. |
| PurchaseMetrics.ProblemList | app/models/model_nuovo.py:167-188 | Each entry appears iff its condition holds. "Not arrived" is suppressed by a reported problem, the missing-serial entry carries the exact count, and the slow-sale entries are exclusive at 30/60 days. |
| PurchaseMetrics.ProblemListOrdered | app/models/model_nuovo.py:167-188 | Entries come in the fixed order reported problem, not arrived, missing serials, slow sale. No entry repeats, and a reported entry carries the batch's own problem kind. |
| PurchaseMetrics.MissingSerialsTextNamesCount | app/models/model_nuovo.py:179-180 | The missing-serial text is the decimal count followed by " senza seriali", and reading the digits back gives the count. |
| PurchaseMetrics.ListedImpliesProblematic | app/models/model_nuovo.py:121-188 | Anything in the problem list makes the batch problematic. |
| PurchaseMetrics.UrgencyScore | app/models/model_nuovo.py:190-227 | The score lies in 0..100. It is the sum of the four terms unless capped at 100. |
| PurchaseMetrics.LostParcelScoresEighty | app/models/model_nuovo.py:190-227 | Take a lost or damaged parcel with all serials present that is not arrived, empty, fully sold or in stock under 45 days. Its score is exactly 80, however long it has waited. |
| PurchaseMetrics.ReportedIgnoresWaiting | app/models/model_nuovo.py:207-215 | With a reported problem the waiting term is 0, and the score does not depend on payment or creation dates. |
| PurchaseMetrics.UrgencyGrowsWhileWaiting | app/models/model_nuovo.py:207-215 | While an unreported batch is in transit, its score never decreases as days pass. |
| PurchaseMetrics.NoSlowPenaltyBefore45Days | app/models/model_nuovo.py:221-225 | A batch not arrived, empty, fully sold, or in stock under 45 days gets no slow-sale points. |
| PurchaseMetrics.SerialsAloneDriveScore | app/models/model_nuovo.py:190-227 | An arrived batch with no reported problem that is empty, fully sold or in stock under 45 days scores exactly min(30, 10 × items without serial). |
| PurchaseMetrics.LosingASerialRaisesScore | app/models/model_nuovo.py:190-227 | Dropping the real serial of one item never lowers the score and raises it by at most 10 points. |
| ItemMetrics.ItemMarginPct | app/models/model_nuovo.py:269-279 | The percentage times the unit cost is 100 times (revenue minus unit cost). It is 0 whenever the unit cost is 0. |
| ItemMetrics.UnsoldItemLosesItsCost | app/models/model_nuovo.py:269-279 | An unsold item in a batch with non-zero unit cost has margin -100 %. |
| ItemMetrics.DaysInStock | app/models/model_nuovo.py:255-260 | Defined iff the item is unsold and the batch arrived. It then counts days since delivery. |
| PurchaseMetrics.ItemStockDaysAreBatchStockDays | app/models/model_nuovo.py:92-97 | An unsold item has been in stock exactly as long as its batch. |
| ItemMetrics.AvgDaysToSaleWithin | app/models/model_nuovo.py:281-295 | Defined iff the batch arrived and the item has a non-service sale. The mean lies between its earliest and latest such sale. |
| SaleMetrics.SaleMarginPct | app/models/model_nuovo.py:326-338 | The percentage times the unit cost is 100 times the sale's margin. It is 0 whenever the unit cost is 0. |
| SaleMetrics.ZeroCostSaleIsCritical | app/models/model_nuovo.py:334-364 | A business sale from a batch of zero unit cost is always "critica", whatever it earned. |
| SaleMetrics.MarginPctAtLeast | app/models/model_nuovo.py:326-338 | For positive unit cost, a margin of at least t % means net revenue of at least the unit cost times (1 + t/100). |
| SaleMetrics.SaleDays | app/models/model_nuovo.py:340-345 | Defined exactly once the batch arrived. Arrival plus the days gives the sale date. |
| SaleMetrics.SaleType | app/models/model_nuovo.py:352-364 | A sale is "fotorip" iff it is on the service channel. Otherwise its tier is fixed by the 25/15/5 % thresholds, each tier as an iff. |
| SaleMetrics.SaleTypeMonotone | app/models/model_nuovo.py:352-364 | A higher margin never yields a lower tier. |
| SaleMetrics.SaleSpeed | app/models/model_nuovo.py:366-381 | A sale's speed is unknown iff the batch has not arrived. Otherwise the bucket is fixed by 7/30/60/90 days, each as an iff. |
| SaleMetrics.SaleSpeedMonotone | app/models/model_nuovo.py:366-381 | A later sale from the same batch is never classified faster. |
| LegacyMetrics.SoldPlusInStock | app/models/models.py:33-39 | Sold plus in-stock items is the item count. |
| LegacyMetrics.FullySoldIffNoStock | app/models/models.py:41-43 | A batch is fully sold iff it is non-empty with nothing in stock. |
| LegacyMetrics.MarginIsRevenueMinusCost | app/models/models.py:45-51 | Margin plus cost is the revenue of all items. A batch without sales has margin equal to minus its cost. |
| LegacyMetrics.RevisionsAgree | app/models/models.py:25-76 | The legacy and current revisions agree on cost, sold and in-stock counts, "fully sold", item revenue, batch revenue and margin. |
| Sync.FindItem | app/routes/api_routes.py:174 | The serial lookup (also the duplicate check at line 98). An item is found iff some item carries the serial, and the one returned is the earliest row carrying it. |
| Sync.ItemStep | app/routes/api_routes.py:86-130 | An item without description is skipped. A visible duplicate serial on a non-fotorip item is reported by name and nothing is written. Otherwise one row is added under a fresh id. With the current classes a fotorip item also gets one service sale at the batch cost with external id FOTORIP_<id>; with the legacy classes it is flushed and building its sale aborts the batch. |
| Sync.ImportPurchase | app/routes/api_routes.py:38-133 | A known code counts as updated and writes nothing. Costs that do not convert give an error and write nothing. A new batch row is appended and its code becomes known; rows already stored are kept as they were, and every new item row belongs to the new batch. It counts as inserted, unless the legacy classes meet a fotorip item: then the batch ends with an error naming its code and is not counted. |
| Sync.PurchaseEndpoint | app/routes/api_routes.py:19-147 | The request fails iff its rows break the unique serial column. A failed request leaves the store unchanged and reports an error. Otherwise the store and counters are those of the loop. The legacy classes never fail here. |
| Sync.ImportSale | app/routes/api_routes.py:167-203 | Checks run in order: missing serial, then unknown serial, then known external id (counted as updated), then unparsable fields or the legacy constructor, then insert. Exactly one counter grows, and only an insert writes a row, for the earliest item with that serial. |
| SyncLaws.ImportItemsConserves | app/routes/api_routes.py:86-130 | In a batch, rows written equal the counters. Every described item record is either inserted or reported, unless the batch aborts and skips the rest. |
| SyncLaws.PurchaseCountersMatchStore | app/routes/api_routes.py:29-135 | New items and synthetic sales equal the reported counters. New batches equal the inserted count plus the batches aborted by the legacy classes; with the current classes, exactly the inserted count. Every record is inserted, updated or failed exactly once. |
| SyncLaws.PurchaseImportIdempotent | app/routes/api_routes.py:38-47 | Importing the same batches again writes nothing and reports nothing inserted. |
| SyncLaws.PendingImportKeepsSerialsDistinct | app/routes/api_routes.py:96-100 | With unflushed rows visible, a request whose serials all go through the check keeps the stored serials distinct. |
| SyncLaws.PendingRequestCommits | app/routes/api_routes.py:96-147 | With unflushed rows visible, such a request always succeeds, also against a unique serial column. |
| SyncLaws.SameBatchDuplicateSerialInserted | app/routes/api_routes.py:96-109 | As written, two ordinary items with one serial in one batch both pass the check, with no error. |
| SyncLaws.SameBatchDuplicateSerialOutcome | app/routes/api_routes.py:96-147 | As written, the legacy classes store both items. The current classes reject the whole request and store nothing. |
| SyncLaws.SameBatchDuplicateSerialRejected | app/routes/api_routes.py:96-109 | With unflushed rows visible, the second of those items is rejected with "serial already exists" and the request succeeds. |
| SyncLaws.LegacyFotoripBatchUncounted | app/routes/api_routes.py:111-133 | As written, a batch with a fotorip item keeps its row and its first item, stores no sale, is reported only as an error and is not counted as inserted. |
| SyncLaws.CurrentFotoripBatchCounted | app/routes/api_routes.py:86-133 | With the current classes the same batch stores both items and the synthetic sale, and counts as inserted. |
| SyncLaws.FotoripIdsDistinct | app/routes/api_routes.py:111-126 | Synthetic sales of different items never share an external id. |
| SyncLaws.SaleCountersMatchStore | app/routes/api_routes.py:159-203 | Inserted plus updated plus errors is the number of records. Rows written equal the inserted count, and items are untouched. |
| SyncLaws.LegacySalesWriteNothing | app/routes/api_routes.py:188-203 | As written, with the legacy classes, the sale import never stores a sale. |
| SyncLaws.LegacyInvoiceLineFails | app/routes/api_routes.py:167-203 | As written, an invoice line for an existing item is reported as an error naming its id and not stored. |
| SyncLaws.SaleImportIdempotent | app/routes/api_routes.py:181-187 | Importing the same sales again writes nothing and reports nothing inserted. |
| SyncLaws.PendingSaleImportKeepsIdsUnique | app/routes/api_routes.py:181-200 | With unflushed rows visible, the import keeps external ids unique. |
| SyncLaws.SameRequestDuplicateSaleInserted | app/routes/api_routes.py:181-200 | With the current classes, one invoice line sent twice in one request is stored twice under the same external id. |
| SyncLaws.SameRequestDuplicateSaleCountedOnce | app/routes/api_routes.py:181-200 | With unflushed rows visible, the repeat counts as updated and one row is stored. |
| Text.StripRemovesOnlySpace | app/models/model_nuovo.py:48 | `strip()` removes only whitespace: the input is the stripped text with whitespace on either side. |
| Text.StripOfPadded | app/models/model_nuovo.py:48 | Stripping whitespace from both ends gives back the padded trimmed text. |
| Text.TitleIdempotent | app/models/model_nuovo.py:173-174 | Title-casing twice is title-casing once. |
| Text.NatToStringRoundTrip | app/models/model_nuovo.py:179-180 | The decimal digits printed for a count read back to that count. |

## Left out

- Debug endpoints, the HTTP layer and its fixed token, app/main.py, the
  routers, and the sync script (scripts/) are not part of this model. They
  are transport and I/O only.
- The database itself is left out: sessions, autoincrement and server
  defaults. A store holds rows in insertion order plus the next ids. Of
  `commit` and `rollback` only the unique serial column is modelled, by
  `Sync.PurchaseEndpoint`.
- `.first()` without `ORDER BY` is modelled as the earliest stored row. A
  real database may return any matching row.
- Parsing is left out (`request.json()`, `strptime`, `float()`, `str(id)`).
  A value the parser rejects arrives as `None`. A malformed payment or
  delivery date arrives already dropped, as the code does.
- Money is `real`, not binary floating point, so rounding differences of
  `float` are not modelled.
- `str.title` and `str.isspace` are modelled for ASCII letters and Python's
  whitespace set. Unicode case rules are not modelled.
- A purchase record's shop and seller are strings in the model. A missing
  `dove_acquistato` or `venditore` is read with the default `""`
  (app/routes/api_routes.py:72-73), which is what the model stores.
- Sync.PurchaseEndpoint: records without a code are not modelled, so its
  promise that the legacy classes never fail holds only for requests in
  which no record has a missing or JSON `null` `id_acquisto_univoco` and
  none has a JSON `null` `dove_acquistato` or `venditore`. Each of these
  three inputs reaches a NOT NULL column (app/models/models.py:11-13,
  app/models/model_nuovo.py:12-14), so the flush at
  app/routes/api_routes.py:83 raises. The error is caught at line 134, but
  the session then refuses every further statement and the commit. The
  whole request ends in `{"status": "error"}` with nothing stored, under
  either set of classes.
- Sync.ImportSale: an error entry names the sale by its stored id
  `str(id)`, which is `""` for a record without `id`
  (app/routes/api_routes.py:180). The source's message at line 203 says
  `unknown` there instead. Error texts are not modelled; the counters and
  the store do not depend on them.
- Of the exceptions in the middle of a batch, only the legacy sale
  constructor is modelled, as `PurchaseAborted`. The up-front cost
  conversion failure is modelled as `PurchaseFailed`. Other exceptions
  (a database error, say) are not modelled.
- Sync.PurchaseEndpoint: with a unique serial column, a duplicate can
  already fail the flush of a later batch or fotorip item (lines 83 and
  114). That error is caught per batch, but the session then refuses every
  further statement, so the request still ends in an error with nothing
  stored. The model only states that end result, not the per-batch
  messages on the way.
- Which table classes run is a deployment fact the source leaves open:
  the import names the legacy module, while the constructor calls fit the
  current one. Every law about stored sales and counted batches therefore
  says which `Schema` it assumes. SyncLaws.PurchaseCountersMatchStore is
  stated for both. The sale laws that store rows
  (SyncLaws.PendingSaleImportKeepsIdsUnique,
  SyncLaws.SameRequestDuplicateSaleInserted,
  SyncLaws.SameRequestDuplicateSaleCountedOnce) hold only with the current
  classes. With the legacy classes nothing is stored
  (SyncLaws.LegacySalesWriteNothing).
- A sale record whose channel is explicitly `null` fails the NOT NULL
  constraint only at commit, which rolls back the whole request. The
  channel is modelled as a plain string.
- PurchaseMetrics.AvgStockDaysWithin and ItemMetrics.AvgDaysToSaleWithin
  bound the mean by the sale dates rather than computing its exact value.
  The exact value is the definition itself.
- Sync.ItemStep: the synthetic sale is priced at the whole batch cost, as
  the code writes it (app/routes/api_routes.py:116-122). Its note calls it
  margin-neutral ("margine neutro"), but the price is not the item's unit
  cost. Service sales are excluded from every business figure, so the
  margin checks are unaffected.
- PurchaseMetrics.AddingServiceItem: the comment at app/models/model_nuovo.py:152 asks
  for a cost proportional to the business items only. The code still
  divides the batch cost over all items, consumed ones included
  (lines 156-158), so a consumed item lowers the business investment. The
  lemma states what the code does.

## Findings

| source | as written | input that shows it | evidently intended | confidence | as-written member | corrected member |
|---|---|---|---|---|---|---|
| app/routes/api_routes.py:9 | The endpoints import the legacy classes, whose sale has no `prodotto_id` (app/models/models.py:78-94), yet build every sale with one (lines 118 and 188), which raises `TypeError` | one new batch with a fotorip item SN5 before an ordinary item SN6, or one invoice line for a stored item | The batch stores both items and the synthetic sale and counts as inserted; the invoice line is stored | not executed | SyncLaws.LegacyFotoripBatchUncounted | SyncLaws.CurrentFotoripBatchCounted |
| app/routes/api_routes.py:181-200 | The external-id check queries a session with `autoflush=False`, and the endpoint never flushes, so sales added earlier in the same request are invisible to it | one request with the same invoice line (id "7", serial SN1) twice | The repeat is counted as updated and the sale is stored once | not executed | SyncLaws.SameRequestDuplicateSaleInserted | SyncLaws.PendingSaleImportKeepsIdsUnique |
| app/routes/api_routes.py:96-109 | The duplicate-serial check sees items of the current batch only after a flush, which happens only after a fotorip item. Both items pass; the legacy classes store both, and the current classes' unique column makes the whole request fail and roll back | one batch with two ordinary items both carrying serial SN9 | The second item is rejected with "Seriale SN9 già esistente" and the rest of the request is stored | not executed | SyncLaws.SameBatchDuplicateSerialOutcome | SyncLaws.PendingRequestCommits |
