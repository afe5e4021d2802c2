/** The per-record decisions of the two import endpoints
    (app/routes/api_routes.py): `ricevi_acquisti_da_script` (batches with their
    items, lines 37-135) and `ricevi_vendite_da_script` (sales, lines 166-203).

    The database becomes an in-memory `Store` of table rows and each endpoint a
    function from a store and a list of records to a new store plus the result
    counters. The session is opened with `autoflush=False` (app/database.py:15),
    so a query sees only rows already flushed; `Visibility` says whether the
    model follows that (`FlushedOnly`, the code as written) or lets queries see
    rows added earlier in the same request (`IncludePending`, the behaviour the
    checks evidently intend). `Schema` says which table classes the endpoints
    run against. Parsing of JSON, numbers and dates happens before the model:
    a value that `float()` or `strptime` rejects arrives as `None`. */
module Sync {
  import opened Wrappers
  import opened Text
  import opened Entities

  // ---------------------------------------------------------------------------
  // Store, input records, results
  // ---------------------------------------------------------------------------

  /** A row of the purchase table as the importer writes it. */
  datatype PurchaseRow = PurchaseRow(
    id: nat,
    code: string,
    source: string,
    seller: string,
    baseCost: real,
    accessoryCost: real,
    paymentDate: Option<int>,
    deliveryDate: Option<int>,
    note: Option<string>,
    createdAt: int)

  /** A row of the item table. */
  datatype ItemRow = ItemRow(id: nat, purchaseId: nat, serial: Option<string>, description: string, note: Option<string>)

  /** A row of the sale table: the sale and the id of its item. */
  datatype SaleRow = SaleRow(itemId: nat, sale: Sale)

  /** The three tables in insertion order, and the next autoincrement ids. */
  datatype Store = Store(
    purchases: seq<PurchaseRow>,
    items: seq<ItemRow>,
    sales: seq<SaleRow>,
    nextPurchaseId: nat,
    nextItemId: nat)

  /** Whether a query sees rows added but not yet flushed. */
  datatype Visibility = FlushedOnly | IncludePending

  /** The table classes behind the endpoints. `Legacy` is app/models/models.py,
      the module api_routes.py:9 imports: its sale class has no `prodotto_id`
      (models.py:78-94), so building a sale with one raises `TypeError`, and
      its serial column is not unique (models.py:58). `Current` is
      app/models/model_nuovo.py: a sale names its item by `prodotto_id`
      (model_nuovo.py:301) and the serial column is unique (model_nuovo.py:234). */
  datatype Schema = Legacy | Current

  /** One entry of `prodotti`; an absent or null description is the empty string. */
  datatype ItemRecord = ItemRecord(serial: Option<string>, description: string, note: Option<string>, isFotorip: bool)

  /** One entry of `acquisti`. A missing cost reads as 0; `None` is a cost
      `float()` rejects. */
  datatype PurchaseRecord = PurchaseRecord(
    code: string,
    source: string,
    seller: string,
    baseCost: Option<real>,
    accessoryCost: Option<real>,
    paymentDate: Option<int>,
    deliveryDate: Option<int>,
    note: Option<string>,
    items: seq<ItemRecord>)

  /** One entry of `vendite`. `externalId` is `str(id)` (the empty string when
      absent); `None` in a date or amount is a value the parser rejects. */
  datatype SaleRecord = SaleRecord(
    serial: Option<string>,
    externalId: string,
    saleDate: Option<int>,
    channel: string,
    price: Option<real>,
    commission: Option<real>,
    note: Option<string>)

  /** The messages appended to `errori`, each naming what it concerns. */
  datatype ImportError =
    | DuplicateSerial(serial: string)
    // a cost that does not convert: raised before anything of the batch is added
    | PurchaseFailed(code: string)
    // a raise after the batch row was flushed: the row and its flushed items stay
    | PurchaseAborted(code: string)
    | MissingSerial
    | ItemNotFound(serial: string)
    | SaleFailed(id: string)

  /** `risultati` of the purchase import. */
  datatype PurchaseCounters = PurchaseCounters(
    inserted: nat,
    itemsInserted: nat,
    fotoripSold: nat,
    updated: nat,
    errors: seq<ImportError>)

  /** `risultati` of the sale import. */
  datatype SaleCounters = SaleCounters(inserted: nat, updated: nat, errors: seq<ImportError>)

  /** A store after an import, with the counters reported. */
  datatype Outcome<C> = Outcome(store: Store, counters: C)

  // ---------------------------------------------------------------------------
  // Lookups
  // ---------------------------------------------------------------------------

  predicate CodeTaken(st: Store, code: string) {
    exists i :: 0 <= i < |st.purchases| && st.purchases[i].code == code
  }

  predicate SerialTaken(items: seq<ItemRow>, s: string) {
    exists i :: 0 <= i < |items| && items[i].serial == Some(s)
  }

  predicate IdTaken(sales: seq<SaleRow>, id: string) {
    exists i :: 0 <= i < |sales| && sales[i].sale.invoicexId == Some(id)
  }

  /** `items[i]` is the first item carrying serial `s`. */
  predicate FirstWithSerial(items: seq<ItemRow>, s: string, i: int) {
    0 <= i < |items| && items[i].serial == Some(s) && forall j :: 0 <= j < i ==> items[j].serial != Some(s)
  }

  /** `query(Prodotto).filter(seriale == s).first()` (lines 98 and 174): the
      query has no ORDER BY; the model returns the earliest row inserted. */
  function FindItem(items: seq<ItemRow>, s: string): (r: Option<ItemRow>)
    ensures r.None? <==> !SerialTaken(items, s)
    ensures r.Some? ==> exists i :: FirstWithSerial(items, s, i) && items[i] == r.value
  {
    if items == [] then None
    else if items[0].serial == Some(s) then Some(items[0])
    else
      var r := FindItem(items[1..], s);
      assert forall i :: 1 <= i < |items| ==> items[i] == items[1..][i - 1];
      assert SerialTaken(items[1..], s) ==> SerialTaken(items, s);
      if r.Some? then
        var i :| FirstWithSerial(items[1..], s, i) && items[1..][i] == r.value;
        assert FirstWithSerial(items, s, i + 1);
        r
      else r
  }

  // ---------------------------------------------------------------------------
  // ricevi_acquisti_da_script
  // ---------------------------------------------------------------------------

  /** Note stored on the synthetic sale of a fotorip item. */
  const FotoripNote: string := "Prodotto utilizzato per riparazioni - margine neutro - importato da Excel"

  /** The synthetic sale created for a fotorip item of batch `row`: on the
      service channel, at the whole batch cost, no commission, dated at
      delivery (or today), with external id `FOTORIP_<item id>`. */
  function FotoripSale(row: PurchaseRow, itemId: nat, today: int): Sale {
    Sale(
      date := row.deliveryDate.GetOr(today),
      channel := ServiceChannel,
      price := row.baseCost + row.accessoryCost,
      commission := Some(0.0),
      note := Some(FotoripNote),
      syncedFromInvoicex := false,
      invoicexId := Some("FOTORIP_" + NatToString(itemId)))
  }

  /** The session while the items of one batch are added: `flushed` items of
      the store have been written to the database, the rest are pending;
      `aborted` once building a synthetic sale has raised, which ends the batch. */
  datatype BatchState = BatchState(store: Store, flushed: nat, counters: PurchaseCounters, aborted: bool)

  predicate ValidBatch(b: BatchState) {
    b.flushed <= |b.store.items|
  }

  /** The items the serial query can see. */
  function VisibleItems(b: BatchState, vis: Visibility): seq<ItemRow>
    requires ValidBatch(b)
  {
    if vis == FlushedOnly then b.store.items[..b.flushed] else b.store.items
  }

  /** Whether the duplicate-serial check rejects the item: it has a non-empty
      serial, is not fotorip, and a visible item already has that serial. */
  predicate RejectsSerial(b: BatchState, rec: ItemRecord, vis: Visibility)
    requires ValidBatch(b)
  {
    rec.serial.Some? && rec.serial.value != [] && !rec.isFotorip && SerialTaken(VisibleItems(b, vis), rec.serial.value)
  }

  /** Whether the item is written: it has a description and passes the check. */
  predicate Inserts(b: BatchState, rec: ItemRecord, vis: Visibility)
    requires ValidBatch(b)
  {
    rec.description != [] && !RejectsSerial(b, rec, vis)
  }

  /** A fotorip record with a description: the check never rejects it, so it
      is always written and always asks for a synthetic sale. */
  predicate AsksForSale(rec: ItemRecord) {
    rec.description != [] && rec.isFotorip
  }

  /** One entry of `prodotti` (lines 87-130). */
  function ItemStep(b: BatchState, row: PurchaseRow, rec: ItemRecord, vis: Visibility, schema: Schema, today: int): (r: BatchState)
    requires ValidBatch(b) && !b.aborted
    ensures ValidBatch(r)
    ensures r.store.purchases == b.store.purchases
    ensures r.counters.inserted == b.counters.inserted && r.counters.updated == b.counters.updated
    // an item without description is skipped without trace
    ensures rec.description == [] ==> r == b
    // a duplicate serial is reported by name and nothing is written
    ensures rec.description != [] && RejectsSerial(b, rec, vis) ==>
              && r.store == b.store && !r.aborted
              && r.counters == b.counters.(errors := b.counters.errors + [DuplicateSerial(rec.serial.value)])
    // otherwise the item is inserted into the batch, under a fresh id
    ensures Inserts(b, rec, vis) ==>
              var item := ItemRow(b.store.nextItemId, row.id, rec.serial, rec.description, rec.note);
              && r.store.items == b.store.items + [item]
              && r.store.nextItemId == b.store.nextItemId + 1
              && r.counters.itemsInserted == b.counters.itemsInserted + 1
              && r.counters.errors == b.counters.errors
    // a fotorip item gets exactly one synthetic sale with the current classes;
    // with the legacy classes building it raises once the item is flushed
    ensures AsksForSale(rec) && schema == Current ==>
              && r.store.sales == b.store.sales + [SaleRow(b.store.nextItemId, FotoripSale(row, b.store.nextItemId, today))]
              && r.counters.fotoripSold == b.counters.fotoripSold + 1
              && !r.aborted
    ensures AsksForSale(rec) && schema == Legacy ==>
              && r.store.sales == b.store.sales
              && r.counters.fotoripSold == b.counters.fotoripSold
              && r.aborted && r.flushed == |r.store.items|
    // an ordinary item never touches the sales and never aborts
    ensures !AsksForSale(rec) ==>
              r.store.sales == b.store.sales && r.counters.fotoripSold == b.counters.fotoripSold && !r.aborted
  {
    if rec.description == [] then b
    else if RejectsSerial(b, rec, vis) then
      b.(counters := b.counters.(errors := b.counters.errors + [DuplicateSerial(rec.serial.value)]))
    else
      var item := ItemRow(b.store.nextItemId, row.id, rec.serial, rec.description, rec.note);
      var st := b.store.(items := b.store.items + [item], nextItemId := b.store.nextItemId + 1);
      var c := b.counters.(itemsInserted := b.counters.itemsInserted + 1);
      if !rec.isFotorip then BatchState(st, b.flushed, c, false)
      // the item is flushed to obtain its id, then the sale is built
      else if schema == Legacy then BatchState(st, |st.items|, c, true)
      else
        var sale := SaleRow(item.id, FotoripSale(row, item.id, today));
        BatchState(st.(sales := st.sales + [sale]), |st.items|, c.(fotoripSold := c.fotoripSold + 1), false)
  }

  /** The entries of `prodotti` of one batch, in order, until one raises. */
  function ImportItems(b: BatchState, row: PurchaseRow, recs: seq<ItemRecord>, vis: Visibility, schema: Schema, today: int): (r: BatchState)
    requires ValidBatch(b)
    ensures ValidBatch(r)
    ensures r.store.purchases == b.store.purchases
    ensures r.counters.inserted == b.counters.inserted && r.counters.updated == b.counters.updated
    // rows already stored stay as they were; the new item rows belong to the batch
    ensures b.store.items <= r.store.items && b.store.sales <= r.store.sales
    ensures forall k :: |b.store.items| <= k < |r.store.items| ==> r.store.items[k].purchaseId == row.id
    // the batch is aborted exactly when the legacy classes meet a fotorip record
    ensures r.aborted <==> b.aborted || (schema == Legacy && exists k :: 0 <= k < |recs| && AsksForSale(recs[k]))
    decreases |recs|
  {
    if recs == [] || b.aborted then b
    else
      var r := ImportItems(ItemStep(b, row, recs[0], vis, schema, today), row, recs[1..], vis, schema, today);
      assert forall k :: 1 <= k < |recs| ==> recs[k] == recs[1..][k - 1];
      assert (exists k :: 0 <= k < |recs[1..]| && AsksForSale(recs[1..][k])) ==> exists k :: 0 <= k < |recs| && AsksForSale(recs[k]);
      r
  }

  /** Whether both costs of the record converted to numbers. */
  predicate CostsValid(rec: PurchaseRecord) {
    rec.baseCost.Some? && rec.accessoryCost.Some?
  }

  /** The row written for a new batch; `created_at` is the delivery date when
      known, otherwise today. */
  function NewPurchaseRow(st: Store, rec: PurchaseRecord, today: int): PurchaseRow
    requires CostsValid(rec)
  {
    PurchaseRow(
      st.nextPurchaseId, rec.code, rec.source, rec.seller, rec.baseCost.value, rec.accessoryCost.value,
      rec.paymentDate, rec.deliveryDate, rec.note, rec.deliveryDate.GetOr(today))
  }

  /** One entry of `acquisti` (lines 38-135). */
  function ImportPurchase(st: Store, c: PurchaseCounters, rec: PurchaseRecord, vis: Visibility, schema: Schema, today: int): (r: Outcome<PurchaseCounters>)
    // a known code adds nothing and only counts as updated
    ensures CodeTaken(st, rec.code) ==> r == Outcome(st, c.(updated := c.updated + 1))
    // costs that do not convert: an error naming the batch, nothing written
    ensures !CodeTaken(st, rec.code) && !CostsValid(rec) ==>
              r == Outcome(st, c.(errors := c.errors + [PurchaseFailed(rec.code)]))
    // a new batch is written once, with its code
    ensures !CodeTaken(st, rec.code) && CostsValid(rec) ==>
              && r.store.purchases == st.purchases + [NewPurchaseRow(st, rec, today)]
              && r.counters.updated == c.updated
    // it counts as inserted unless the legacy classes meet a fotorip item, which
    // ends it with an error while its row and flushed items stay
    ensures !CodeTaken(st, rec.code) && CostsValid(rec) ==>
              if schema == Legacy && exists k :: 0 <= k < |rec.items| && AsksForSale(rec.items[k]) then
                && r.counters.inserted == c.inserted
                && |r.counters.errors| > 0 && r.counters.errors[|r.counters.errors| - 1] == PurchaseAborted(rec.code)
              else
                r.counters.inserted == c.inserted + 1
    ensures st.purchases <= r.store.purchases
    // rows already stored stay as they were; the new item rows belong to the new batch
    ensures st.items <= r.store.items && st.sales <= r.store.sales
    ensures forall k :: |st.items| <= k < |r.store.items| ==> r.store.items[k].purchaseId == st.nextPurchaseId
    ensures CostsValid(rec) ==> CodeTaken(r.store, rec.code)
  {
    if CodeTaken(st, rec.code) then Outcome(st, c.(updated := c.updated + 1))
    else if !CostsValid(rec) then Outcome(st, c.(errors := c.errors + [PurchaseFailed(rec.code)]))
    else
      var row := NewPurchaseRow(st, rec, today);
      var st1 := st.(purchases := st.purchases + [row], nextPurchaseId := st.nextPurchaseId + 1);
      // the batch is flushed to obtain its id: every earlier row becomes visible
      var b := ImportItems(BatchState(st1, |st1.items|, c, false), row, rec.items, vis, schema, today);
      assert b.store.purchases[|st.purchases|] == row;
      if b.aborted then Outcome(b.store, b.counters.(errors := b.counters.errors + [PurchaseAborted(rec.code)]))
      else Outcome(b.store, b.counters.(inserted := b.counters.inserted + 1))
  }

  function ImportPurchasesFrom(st: Store, c: PurchaseCounters, recs: seq<PurchaseRecord>, vis: Visibility, schema: Schema, today: int): (r: Outcome<PurchaseCounters>)
    ensures st.purchases <= r.store.purchases && st.items <= r.store.items && st.sales <= r.store.sales
    decreases |recs|
  {
    if recs == [] then Outcome(st, c)
    else
      var o := ImportPurchase(st, c, recs[0], vis, schema, today);
      ImportPurchasesFrom(o.store, o.counters, recs[1..], vis, schema, today)
  }

  /** The loop of `ricevi_acquisti_da_script` over a list of batch records. */
  function ImportPurchases(st: Store, recs: seq<PurchaseRecord>, vis: Visibility, schema: Schema, today: int): Outcome<PurchaseCounters> {
    ImportPurchasesFrom(st, PurchaseCounters(0, 0, 0, 0, []), recs, vis, schema, today)
  }

  /** No two items share a non-null serial: what a UNIQUE column admits. */
  predicate DistinctSerials(items: seq<ItemRow>) {
    forall i, j :: 0 <= i < j < |items| && items[i].serial.Some? ==> items[i].serial != items[j].serial
  }

  /** Whether the rows the request wrote can be stored: the flush and the
      commit (line 137) fail on a second item with the same serial when the
      column is unique. */
  predicate Commits(items: seq<ItemRow>, schema: Schema) {
    schema == Legacy || DistinctSerials(items)
  }

  /** The endpoint's answer: the counters under status "success", or status
      "error" after a failed flush or commit. */
  datatype Response<C> = Success(counters: C) | Failure

  /** The store after a request, and the answer. */
  datatype Reply<C> = Reply(store: Store, response: Response<C>)

  /** `ricevi_acquisti_da_script` (lines 19-147): the loop, then the commit;
      when the commit fails the rollback at line 146 leaves the store as it
      was and the whole request, valid batches included, is lost. */
  function PurchaseEndpoint(st: Store, recs: seq<PurchaseRecord>, vis: Visibility, schema: Schema, today: int): (r: Reply<PurchaseCounters>)
    ensures r.response.Failure? <==> !Commits(ImportPurchases(st, recs, vis, schema, today).store.items, schema)
    ensures r.response.Failure? ==> r.store == st
    ensures r.response.Success? ==>
              var o := ImportPurchases(st, recs, vis, schema, today);
              r.store == o.store && r.response.counters == o.counters
    ensures schema == Legacy ==> r.response.Success?
  {
    var o := ImportPurchases(st, recs, vis, schema, today);
    if Commits(o.store.items, schema) then Reply(o.store, Success(o.counters)) else Reply(st, Failure)
  }

  // ---------------------------------------------------------------------------
  // ricevi_vendite_da_script
  // ---------------------------------------------------------------------------

  /** Whether date, price and commission all parsed. */
  predicate SaleFieldsValid(rec: SaleRecord) {
    rec.saleDate.Some? && rec.price.Some? && rec.commission.Some?
  }

  /** The sale row written for a record whose item was found. */
  function NewSaleRow(item: ItemRow, rec: SaleRecord): SaleRow
    requires SaleFieldsValid(rec)
  {
    SaleRow(item.id, Sale(
      date := rec.saleDate.value,
      channel := rec.channel,
      price := rec.price.value,
      commission := rec.commission,
      note := rec.note,
      syncedFromInvoicex := true,
      invoicexId := Some(rec.externalId)))
  }

  /** The sales the external-id query can see: with `FlushedOnly` only the
      `committed` rows present when the request started. */
  function VisibleSales(st: Store, committed: nat, vis: Visibility): seq<SaleRow>
    requires committed <= |st.sales|
  {
    if vis == FlushedOnly then st.sales[..committed] else st.sales
  }

  /** Whether the record names a usable serial. */
  predicate HasSerial(rec: SaleRecord) {
    rec.serial.Some? && rec.serial.value != []
  }

  /** One entry of `vendite` (lines 167-203). */
  function ImportSale(st: Store, c: SaleCounters, rec: SaleRecord, committed: nat, vis: Visibility, schema: Schema): (r: Outcome<SaleCounters>)
    requires committed <= |st.sales|
    ensures r.store.items == st.items && st.sales <= r.store.sales
    // exactly one bucket grows by one
    ensures r.counters.inserted + r.counters.updated + |r.counters.errors| == c.inserted + c.updated + |c.errors| + 1
    ensures c.errors <= r.counters.errors
    ensures |r.store.sales| == |st.sales| + (r.counters.inserted - c.inserted)
    // no serial: rejected, nothing written
    ensures !HasSerial(rec) ==> r == Outcome(st, c.(errors := c.errors + [MissingSerial]))
    // a serial no item carries: rejected by name, nothing written
    ensures HasSerial(rec) && !SerialTaken(st.items, rec.serial.value) ==>
              r == Outcome(st, c.(errors := c.errors + [ItemNotFound(rec.serial.value)]))
    // a known external id: nothing written, counted as updated
    ensures HasSerial(rec) && SerialTaken(st.items, rec.serial.value) && IdTaken(VisibleSales(st, committed, vis), rec.externalId) ==>
              r == Outcome(st, c.(updated := c.updated + 1))
    // a new sale is written once, for the earliest item with that serial, when
    // its fields parse and the sale class has `prodotto_id`; otherwise building
    // it raises and the record ends as an error naming its id
    ensures HasSerial(rec) && SerialTaken(st.items, rec.serial.value) && !IdTaken(VisibleSales(st, committed, vis), rec.externalId) ==>
              if SaleFieldsValid(rec) && schema == Current then
                && r.store.sales == st.sales + [NewSaleRow(FindItem(st.items, rec.serial.value).value, rec)]
                && r.counters == c.(inserted := c.inserted + 1)
              else
                r == Outcome(st, c.(errors := c.errors + [SaleFailed(rec.externalId)]))
  {
    if !HasSerial(rec) then Outcome(st, c.(errors := c.errors + [MissingSerial]))
    else
      match FindItem(st.items, rec.serial.value)
      case None => Outcome(st, c.(errors := c.errors + [ItemNotFound(rec.serial.value)]))
      case Some(item) =>
        if IdTaken(VisibleSales(st, committed, vis), rec.externalId) then Outcome(st, c.(updated := c.updated + 1))
        else if !SaleFieldsValid(rec) || schema != Current then Outcome(st, c.(errors := c.errors + [SaleFailed(rec.externalId)]))
        else Outcome(st.(sales := st.sales + [NewSaleRow(item, rec)]), c.(inserted := c.inserted + 1))
  }

  function ImportSalesFrom(st: Store, c: SaleCounters, recs: seq<SaleRecord>, committed: nat, vis: Visibility, schema: Schema): (r: Outcome<SaleCounters>)
    requires committed <= |st.sales|
    ensures r.store.items == st.items && st.sales <= r.store.sales
    decreases |recs|
  {
    if recs == [] then Outcome(st, c)
    else
      var o := ImportSale(st, c, recs[0], committed, vis, schema);
      ImportSalesFrom(o.store, o.counters, recs[1..], committed, vis, schema)
  }

  /** `ricevi_vendite_da_script` on a list of sale records. Its commit adds
      only sales, which no unique column constrains, so it does not fail. */
  function ImportSales(st: Store, recs: seq<SaleRecord>, vis: Visibility, schema: Schema): Outcome<SaleCounters> {
    ImportSalesFrom(st, SaleCounters(0, 0, []), recs, |st.sales|, vis, schema)
  }
}
