/** Properties of the two import endpoints modelled in `Sync`: the counters
    account for every record and every row written, a second import of the
    same records writes nothing, and the consequences of queries that do not
    see unflushed rows. */
module SyncLaws {
  import opened Wrappers
  import opened Text
  import opened Entities
  import opened Sync

  // ---------------------------------------------------------------------------
  // Counting helpers
  // ---------------------------------------------------------------------------

  /** Number of item records with a description, the ones not skipped. */
  function Described(recs: seq<ItemRecord>): nat {
    if recs == [] then 0 else (if recs[0].description != [] then 1 else 0) + Described(recs[1..])
  }

  /** Number of batch-level errors (`PurchaseFailed` or `PurchaseAborted`) in
      an error list: the batch records that were neither inserted nor updated. */
  function FailedCount(errs: seq<ImportError>): nat {
    if errs == [] then 0
    else FailedCount(errs[..|errs| - 1]) + (if errs[|errs| - 1].PurchaseFailed? || errs[|errs| - 1].PurchaseAborted? then 1 else 0)
  }

  /** Number of `PurchaseAborted` errors: batches whose row was stored although
      they are reported as failed. */
  function AbortedCount(errs: seq<ImportError>): nat {
    if errs == [] then 0
    else AbortedCount(errs[..|errs| - 1]) + (if errs[|errs| - 1].PurchaseAborted? then 1 else 0)
  }

  lemma ErrorCountsSnoc(errs: seq<ImportError>, e: ImportError)
    ensures FailedCount(errs + [e]) == FailedCount(errs) + (if e.PurchaseFailed? || e.PurchaseAborted? then 1 else 0)
    ensures AbortedCount(errs + [e]) == AbortedCount(errs) + (if e.PurchaseAborted? then 1 else 0)
  {
    assert (errs + [e])[..|errs|] == errs;
  }

  // ---------------------------------------------------------------------------
  // Purchase import: conservation
  // ---------------------------------------------------------------------------

  /** Within one batch: every item row and every synthetic sale written is
      counted, no batch-level error is produced, and every described record is
      either inserted or rejected, unless the batch aborts and skips the rest. */
  lemma ImportItemsConserves(b: BatchState, row: PurchaseRow, recs: seq<ItemRecord>, vis: Visibility, schema: Schema, today: int)
    requires ValidBatch(b)
    ensures var r := ImportItems(b, row, recs, vis, schema, today);
            && |r.store.items| - |b.store.items| == r.counters.itemsInserted - b.counters.itemsInserted
            && |r.store.sales| - |b.store.sales| == r.counters.fotoripSold - b.counters.fotoripSold
            && b.counters.errors <= r.counters.errors
            && FailedCount(r.counters.errors) == FailedCount(b.counters.errors)
            && AbortedCount(r.counters.errors) == AbortedCount(b.counters.errors)
            && (r.counters.itemsInserted - b.counters.itemsInserted) + (|r.counters.errors| - |b.counters.errors|) <= Described(recs)
            && (!r.aborted ==>
                  (r.counters.itemsInserted - b.counters.itemsInserted) + (|r.counters.errors| - |b.counters.errors|) == Described(recs))
  {
    ImportItemsCountsRows(b, row, recs, vis, schema, today);
    ImportItemsCountsRecords(b, row, recs, vis, schema, today);
  }

  /** The rows a batch writes are the ones its counters report, and it adds no
      batch-level error. */
  lemma {:induction false} ImportItemsCountsRows(b: BatchState, row: PurchaseRow, recs: seq<ItemRecord>, vis: Visibility, schema: Schema, today: int)
    requires ValidBatch(b)
    ensures var r := ImportItems(b, row, recs, vis, schema, today);
            && |r.store.items| - |b.store.items| == r.counters.itemsInserted - b.counters.itemsInserted
            && |r.store.sales| - |b.store.sales| == r.counters.fotoripSold - b.counters.fotoripSold
            && b.counters.errors <= r.counters.errors
            && FailedCount(r.counters.errors) == FailedCount(b.counters.errors)
            && AbortedCount(r.counters.errors) == AbortedCount(b.counters.errors)
    decreases |recs|
  {
    if recs != [] && !b.aborted {
      var b1 := ItemStep(b, row, recs[0], vis, schema, today);
      if recs[0].description != [] && RejectsSerial(b, recs[0], vis) {
        ErrorCountsSnoc(b.counters.errors, DuplicateSerial(recs[0].serial.value));
      }
      ImportItemsCountsRows(b1, row, recs[1..], vis, schema, today);
    }
  }

  /** Every described item record is inserted or reported, unless the batch
      aborts and skips the rest. */
  lemma {:induction false} ImportItemsCountsRecords(b: BatchState, row: PurchaseRow, recs: seq<ItemRecord>, vis: Visibility, schema: Schema, today: int)
    requires ValidBatch(b)
    ensures var r := ImportItems(b, row, recs, vis, schema, today);
            && b.counters.itemsInserted <= r.counters.itemsInserted
            && |b.counters.errors| <= |r.counters.errors|
            && (r.counters.itemsInserted - b.counters.itemsInserted) + (|r.counters.errors| - |b.counters.errors|) <= Described(recs)
            && (!r.aborted ==>
                  (r.counters.itemsInserted - b.counters.itemsInserted) + (|r.counters.errors| - |b.counters.errors|) == Described(recs))
    decreases |recs|
  {
    if recs != [] && !b.aborted {
      var b1 := ItemStep(b, row, recs[0], vis, schema, today);
      ImportItemsCountsRecords(b1, row, recs[1..], vis, schema, today);
    }
  }

  /** One batch record: the item rows and synthetic sales written are the ones
      counted; the batch rows written are the inserted batches plus the aborted
      ones; and the record lands in exactly one of inserted, updated and failed. */
  lemma ImportPurchaseConserves(st: Store, c: PurchaseCounters, rec: PurchaseRecord, vis: Visibility, schema: Schema, today: int)
    ensures var r := ImportPurchase(st, c, rec, vis, schema, today);
            && |r.store.purchases| - |st.purchases| == (r.counters.inserted - c.inserted) + (AbortedCount(r.counters.errors) - AbortedCount(c.errors))
            && |r.store.items| - |st.items| == r.counters.itemsInserted - c.itemsInserted
            && |r.store.sales| - |st.sales| == r.counters.fotoripSold - c.fotoripSold
            && c.errors <= r.counters.errors
            && AbortedCount(c.errors) <= AbortedCount(r.counters.errors)
            && (schema == Current ==> AbortedCount(r.counters.errors) == AbortedCount(c.errors))
            && (r.counters.inserted - c.inserted) + (r.counters.updated - c.updated)
               + (FailedCount(r.counters.errors) - FailedCount(c.errors)) == 1
  {
    if !CodeTaken(st, rec.code) {
      if CostsValid(rec) {
        NewBatchConserves(st, c, rec, vis, schema, today);
      } else {
        ErrorCountsSnoc(c.errors, PurchaseFailed(rec.code));
      }
    }
  }

  /** The new-batch branch of `ImportPurchaseConserves`. */
  lemma NewBatchConserves(st: Store, c: PurchaseCounters, rec: PurchaseRecord, vis: Visibility, schema: Schema, today: int)
    requires !CodeTaken(st, rec.code) && CostsValid(rec)
    ensures var r := ImportPurchase(st, c, rec, vis, schema, today);
            && |r.store.purchases| - |st.purchases| == (r.counters.inserted - c.inserted) + (AbortedCount(r.counters.errors) - AbortedCount(c.errors))
            && |r.store.items| - |st.items| == r.counters.itemsInserted - c.itemsInserted
            && |r.store.sales| - |st.sales| == r.counters.fotoripSold - c.fotoripSold
            && c.errors <= r.counters.errors
            && AbortedCount(c.errors) <= AbortedCount(r.counters.errors)
            && (schema == Current ==> AbortedCount(r.counters.errors) == AbortedCount(c.errors))
            && (r.counters.inserted - c.inserted) + (r.counters.updated - c.updated)
               + (FailedCount(r.counters.errors) - FailedCount(c.errors)) == 1
  {
    var row := NewPurchaseRow(st, rec, today);
    var st1 := st.(purchases := st.purchases + [row], nextPurchaseId := st.nextPurchaseId + 1);
    var b0 := BatchState(st1, |st1.items|, c, false);
    var b := ImportItems(b0, row, rec.items, vis, schema, today);
    ImportItemsConserves(b0, row, rec.items, vis, schema, today);
    NewBatchOutcome(st, c, rec, vis, schema, today);
    if b.aborted {
      ErrorCountsSnoc(b.counters.errors, PurchaseAborted(rec.code));
    }
  }

  /** A new batch with valid costs ends as its items left it, with the batch
      counted as inserted or, when its items aborted it, as an error. */
  lemma NewBatchOutcome(st: Store, c: PurchaseCounters, rec: PurchaseRecord, vis: Visibility, schema: Schema, today: int)
    requires !CodeTaken(st, rec.code) && CostsValid(rec)
    ensures var row := NewPurchaseRow(st, rec, today);
            var st1 := st.(purchases := st.purchases + [row], nextPurchaseId := st.nextPurchaseId + 1);
            var b := ImportItems(BatchState(st1, |st1.items|, c, false), row, rec.items, vis, schema, today);
            ImportPurchase(st, c, rec, vis, schema, today)
              == if b.aborted then Outcome(b.store, b.counters.(errors := b.counters.errors + [PurchaseAborted(rec.code)]))
                 else Outcome(b.store, b.counters.(inserted := b.counters.inserted + 1))
  {
  }

  lemma {:induction false} ImportPurchasesFromConserves(st: Store, c: PurchaseCounters, recs: seq<PurchaseRecord>, vis: Visibility, schema: Schema, today: int)
    ensures var r := ImportPurchasesFrom(st, c, recs, vis, schema, today);
            && |r.store.purchases| - |st.purchases| == (r.counters.inserted - c.inserted) + (AbortedCount(r.counters.errors) - AbortedCount(c.errors))
            && |r.store.items| - |st.items| == r.counters.itemsInserted - c.itemsInserted
            && |r.store.sales| - |st.sales| == r.counters.fotoripSold - c.fotoripSold
            && AbortedCount(c.errors) <= AbortedCount(r.counters.errors)
            && (schema == Current ==> AbortedCount(r.counters.errors) == AbortedCount(c.errors))
            && (r.counters.inserted - c.inserted) + (r.counters.updated - c.updated)
               + (FailedCount(r.counters.errors) - FailedCount(c.errors)) == |recs|
    decreases |recs|
  {
    if recs != [] {
      var o := ImportPurchase(st, c, recs[0], vis, schema, today);
      ImportPurchaseConserves(st, c, recs[0], vis, schema, today);
      ImportPurchasesFromConserves(o.store, o.counters, recs[1..], vis, schema, today);
    }
  }

  /** The reported counters match the rows written: `prodotti_inseriti` new
      items, `prodotti_fotorip_venduti` new sales, and `acquisti_inseriti` new
      batches, except that with the legacy classes a batch aborted by its
      fotorip item is stored but reported only as an error; every batch record
      is counted once as inserted, updated or failed. */
  lemma PurchaseCountersMatchStore(st: Store, recs: seq<PurchaseRecord>, vis: Visibility, schema: Schema, today: int)
    ensures var r := ImportPurchases(st, recs, vis, schema, today);
            && |r.store.purchases| == |st.purchases| + r.counters.inserted + AbortedCount(r.counters.errors)
            && (schema == Current ==> |r.store.purchases| == |st.purchases| + r.counters.inserted)
            && |r.store.items| == |st.items| + r.counters.itemsInserted
            && |r.store.sales| == |st.sales| + r.counters.fotoripSold
            && r.counters.inserted + r.counters.updated + FailedCount(r.counters.errors) == |recs|
  {
    ImportPurchasesFromConserves(st, PurchaseCounters(0, 0, 0, 0, []), recs, vis, schema, today);
  }

  // ---------------------------------------------------------------------------
  // Purchase import: a second run writes nothing
  // ---------------------------------------------------------------------------

  lemma CodeTakenGrows(s1: Store, s2: Store, code: string)
    requires s1.purchases <= s2.purchases
    requires CodeTaken(s1, code)
    ensures CodeTaken(s2, code)
  {
    var i :| 0 <= i < |s1.purchases| && s1.purchases[i].code == code;
    assert s2.purchases[i] == s1.purchases[i];
  }

  /** After an import, every batch record with valid costs has its code in
      the store, and no earlier batch was lost. */
  lemma {:induction false} CodesRecorded(st: Store, c: PurchaseCounters, recs: seq<PurchaseRecord>, vis: Visibility, schema: Schema, today: int)
    ensures var r := ImportPurchasesFrom(st, c, recs, vis, schema, today);
            && st.purchases <= r.store.purchases
            && forall k :: 0 <= k < |recs| && CostsValid(recs[k]) ==> CodeTaken(r.store, recs[k].code)
    decreases |recs|
  {
    if recs != [] {
      var o := ImportPurchase(st, c, recs[0], vis, schema, today);
      var r := ImportPurchasesFrom(o.store, o.counters, recs[1..], vis, schema, today);
      CodesRecorded(o.store, o.counters, recs[1..], vis, schema, today);
      forall k | 0 <= k < |recs| && CostsValid(recs[k])
        ensures CodeTaken(r.store, recs[k].code)
      {
        if k == 0 {
          CodeTakenGrows(o.store, r.store, recs[0].code);
        } else {
          assert recs[k] == recs[1..][k - 1];
        }
      }
    }
  }

  /** Records whose code is already known, or whose costs do not convert,
      write nothing and insert nothing. */
  lemma {:induction false} KnownCodesWriteNothing(st: Store, c: PurchaseCounters, recs: seq<PurchaseRecord>, vis: Visibility, schema: Schema, today: int)
    requires forall k :: 0 <= k < |recs| && CostsValid(recs[k]) ==> CodeTaken(st, recs[k].code)
    ensures var r := ImportPurchasesFrom(st, c, recs, vis, schema, today);
            && r.store == st
            && r.counters.inserted == c.inserted
            && r.counters.itemsInserted == c.itemsInserted
            && r.counters.fotoripSold == c.fotoripSold
    decreases |recs|
  {
    if recs != [] {
      var o := ImportPurchase(st, c, recs[0], vis, schema, today);
      assert o.store == st;
      forall k | 0 <= k < |recs[1..]| && CostsValid(recs[1..][k])
        ensures CodeTaken(st, recs[1..][k].code)
      {
        assert recs[1..][k] == recs[k + 1];
      }
      KnownCodesWriteNothing(o.store, o.counters, recs[1..], vis, schema, today);
    }
  }

  /** Sending the same batches twice is harmless: the second import writes no
      row and reports nothing inserted. */
  lemma PurchaseImportIdempotent(st: Store, recs: seq<PurchaseRecord>, vis: Visibility, schema: Schema, today: int, later: int)
    ensures var once := ImportPurchases(st, recs, vis, schema, today);
            var twice := ImportPurchases(once.store, recs, vis, schema, later);
            && twice.store == once.store
            && twice.counters.inserted == 0
            && twice.counters.itemsInserted == 0
            && twice.counters.fotoripSold == 0
  {
    var zero := PurchaseCounters(0, 0, 0, 0, []);
    var once := ImportPurchases(st, recs, vis, schema, today);
    CodesRecorded(st, zero, recs, vis, schema, today);
    KnownCodesWriteNothing(once.store, zero, recs, vis, schema, later);
  }

  // ---------------------------------------------------------------------------
  // Purchase import: distinct serials, the flush points and the commit
  // ---------------------------------------------------------------------------

  /** Every item record that carries a serial carries a non-empty one and is
      not fotorip, so the duplicate check of line 97 looks at it. */
  predicate CheckedSerials(recs: seq<ItemRecord>) {
    forall k :: 0 <= k < |recs| && recs[k].serial.Some? ==> recs[k].serial.value != [] && !recs[k].isFotorip
  }

  predicate AllCheckedSerials(recs: seq<PurchaseRecord>) {
    forall k :: 0 <= k < |recs| ==> CheckedSerials(recs[k].items)
  }

  lemma DistinctSnoc(items: seq<ItemRow>, it: ItemRow)
    requires DistinctSerials(items)
    requires it.serial.Some? ==> !SerialTaken(items, it.serial.value)
    ensures DistinctSerials(items + [it])
  {
    var all := items + [it];
    forall i, j | 0 <= i < j < |all| && all[i].serial.Some?
      ensures all[i].serial != all[j].serial
    {
      assert all[i] == items[i];
      if j < |items| {
        assert all[j] == items[j];
      }
    }
  }

  /** With unflushed rows visible, a batch whose serials all go through the
      check keeps the serials of the store distinct. */
  lemma {:induction false} PendingCheckKeepsSerialsDistinct(b: BatchState, row: PurchaseRow, recs: seq<ItemRecord>, schema: Schema, today: int)
    requires ValidBatch(b) && DistinctSerials(b.store.items) && CheckedSerials(recs)
    ensures DistinctSerials(ImportItems(b, row, recs, IncludePending, schema, today).store.items)
    decreases |recs|
  {
    if recs != [] && !b.aborted {
      var rec := recs[0];
      var b1 := ItemStep(b, row, rec, IncludePending, schema, today);
      if Inserts(b, rec, IncludePending) {
        DistinctSnoc(b.store.items, ItemRow(b.store.nextItemId, row.id, rec.serial, rec.description, rec.note));
      }
      forall k | 0 <= k < |recs[1..]| && recs[1..][k].serial.Some?
        ensures recs[1..][k].serial.value != [] && !recs[1..][k].isFotorip
      {
        assert recs[1..][k] == recs[k + 1];
      }
      PendingCheckKeepsSerialsDistinct(b1, row, recs[1..], schema, today);
    }
  }

  /** The same across a whole request. */
  lemma {:induction false} PendingImportKeepsSerialsDistinct(st: Store, c: PurchaseCounters, recs: seq<PurchaseRecord>, schema: Schema, today: int)
    requires DistinctSerials(st.items) && AllCheckedSerials(recs)
    ensures DistinctSerials(ImportPurchasesFrom(st, c, recs, IncludePending, schema, today).store.items)
    decreases |recs|
  {
    if recs != [] {
      var rec := recs[0];
      var o := ImportPurchase(st, c, rec, IncludePending, schema, today);
      PendingBatchKeepsSerialsDistinct(st, c, rec, schema, today);
      forall k | 0 <= k < |recs[1..]|
        ensures CheckedSerials(recs[1..][k].items)
      {
        assert recs[1..][k] == recs[k + 1];
      }
      PendingImportKeepsSerialsDistinct(o.store, o.counters, recs[1..], schema, today);
    }
  }

  /** One batch record of such a request. */
  lemma PendingBatchKeepsSerialsDistinct(st: Store, c: PurchaseCounters, rec: PurchaseRecord, schema: Schema, today: int)
    requires DistinctSerials(st.items) && CheckedSerials(rec.items)
    ensures DistinctSerials(ImportPurchase(st, c, rec, IncludePending, schema, today).store.items)
  {
    if !CodeTaken(st, rec.code) && CostsValid(rec) {
      var row := NewPurchaseRow(st, rec, today);
      var st1 := st.(purchases := st.purchases + [row], nextPurchaseId := st.nextPurchaseId + 1);
      PendingCheckKeepsSerialsDistinct(BatchState(st1, |st1.items|, c, false), row, rec.items, schema, today);
    }
  }

  /** With unflushed rows visible, a request whose serials all go through the
      check always commits, also against a unique serial column. */
  lemma PendingRequestCommits(st: Store, recs: seq<PurchaseRecord>, schema: Schema, today: int)
    requires DistinctSerials(st.items) && AllCheckedSerials(recs)
    ensures PurchaseEndpoint(st, recs, IncludePending, schema, today).response.Success?
  {
    PendingImportKeepsSerialsDistinct(st, PurchaseCounters(0, 0, 0, 0, []), recs, schema, today);
  }

  /** Two ordinary items with the same serial in one batch. */
  function DuplicateBatch(): PurchaseRecord {
    var phone := ItemRecord(Some("SN9"), "iPhone 12", None, false);
    PurchaseRecord("A-1", "eBay", "mario", Some(100.0), Some(0.0), None, Some(10), None, [phone, phone])
  }

  const EmptyStore: Store := Store([], [], [], 1, 1)

  /** As written: the first item is still pending when the second is checked,
      so the loop inserts both and reports no error, on either schema. */
  lemma SameBatchDuplicateSerialInserted(schema: Schema)
    ensures var r := ImportPurchases(EmptyStore, [DuplicateBatch()], FlushedOnly, schema, 20);
            && |r.store.items| == 2
            && r.store.items[0].serial == r.store.items[1].serial == Some("SN9")
            && r.counters.itemsInserted == 2
            && r.counters.errors == []
            && !DistinctSerials(r.store.items)
  {
    var rec := DuplicateBatch();
    var row := NewPurchaseRow(EmptyStore, rec, 20);
    var st1 := EmptyStore.(purchases := [row], nextPurchaseId := 2);
    var b0 := BatchState(st1, 0, PurchaseCounters(0, 0, 0, 0, []), false);
    var b1 := ItemStep(b0, row, rec.items[0], FlushedOnly, schema, 20);
    assert b1.flushed == 0 && !b1.aborted;
    assert !RejectsSerial(b1, rec.items[1], FlushedOnly);
    var b2 := ItemStep(b1, row, rec.items[1], FlushedOnly, schema, 20);
    assert ImportItems(b0, row, rec.items, FlushedOnly, schema, 20) == b2 by {
      assert rec.items[1..][1..] == [];
    }
  }

  /** What the duplicate then does to the request: with the legacy classes both
      items are stored; with the unique serial column of the current classes
      the commit fails and the rollback leaves the store as it was. */
  lemma SameBatchDuplicateSerialOutcome()
    ensures var r := PurchaseEndpoint(EmptyStore, [DuplicateBatch()], FlushedOnly, Legacy, 20);
            r.response.Success? && |r.store.items| == 2
    ensures PurchaseEndpoint(EmptyStore, [DuplicateBatch()], FlushedOnly, Current, 20) == Reply(EmptyStore, Failure)
    ensures AllCheckedSerials([DuplicateBatch()])
  {
    SameBatchDuplicateSerialInserted(Legacy);
    SameBatchDuplicateSerialInserted(Current);
    var current := ImportPurchases(EmptyStore, [DuplicateBatch()], FlushedOnly, Current, 20);
    assert !Commits(current.store.items, Current);
    assert CheckedSerials(DuplicateBatch().items);
  }

  /** With pending rows visible, the second item is rejected by name and the
      request commits on either schema. */
  lemma SameBatchDuplicateSerialRejected(schema: Schema)
    ensures var r := PurchaseEndpoint(EmptyStore, [DuplicateBatch()], IncludePending, schema, 20);
            && r.response.Success?
            && |r.store.items| == 1
            && r.response.counters.itemsInserted == 1
            && r.response.counters.errors == [DuplicateSerial("SN9")]
  {
    var rec := DuplicateBatch();
    var row := NewPurchaseRow(EmptyStore, rec, 20);
    var st1 := EmptyStore.(purchases := [row], nextPurchaseId := 2);
    var b0 := BatchState(st1, 0, PurchaseCounters(0, 0, 0, 0, []), false);
    var b1 := ItemStep(b0, row, rec.items[0], IncludePending, schema, 20);
    assert b1.store.items[0].serial == Some("SN9");
    assert RejectsSerial(b1, rec.items[1], IncludePending);
    var b2 := ItemStep(b1, row, rec.items[1], IncludePending, schema, 20);
    assert ImportItems(b0, row, rec.items, IncludePending, schema, 20) == b2 by {
      assert rec.items[1..][1..] == [];
    }
    assert DistinctSerials(b2.store.items);
  }

  /** A batch whose first item is consumed internally, then an ordinary item. */
  function FotoripBatch(): PurchaseRecord {
    var part := ItemRecord(Some("SN5"), "Scheda madre", None, true);
    var phone := ItemRecord(Some("SN6"), "iPhone 11", None, false);
    PurchaseRecord("B-2", "eBay", "luigi", Some(80.0), Some(5.0), None, Some(10), None, [part, phone])
  }

  /** As written (legacy classes): building the synthetic sale raises, the
      batch row and the flushed fotorip item stay, the next item is skipped,
      and the stored batch is reported only as an error. */
  lemma LegacyFotoripBatchUncounted()
    ensures var r := PurchaseEndpoint(EmptyStore, [FotoripBatch()], FlushedOnly, Legacy, 20);
            && r.response.Success?
            && |r.store.purchases| == 1 && |r.store.items| == 1 && |r.store.sales| == 0
            && r.response.counters.inserted == 0
            && r.response.counters.errors == [PurchaseAborted("B-2")]
  {
    var rec := FotoripBatch();
    var row := NewPurchaseRow(EmptyStore, rec, 20);
    var st1 := EmptyStore.(purchases := [row], nextPurchaseId := 2);
    var b0 := BatchState(st1, 0, PurchaseCounters(0, 0, 0, 0, []), false);
    var b1 := ItemStep(b0, row, rec.items[0], FlushedOnly, Legacy, 20);
    assert b1.aborted && |b1.store.items| == 1;
    assert ImportItems(b0, row, rec.items, FlushedOnly, Legacy, 20) == b1;
  }

  /** With the current classes the same batch is inserted whole, with its
      synthetic sale, and counted. */
  lemma CurrentFotoripBatchCounted()
    ensures var r := PurchaseEndpoint(EmptyStore, [FotoripBatch()], FlushedOnly, Current, 20);
            && r.response.Success?
            && |r.store.purchases| == 1 && |r.store.items| == 2 && |r.store.sales| == 1
            && r.response.counters.inserted == 1 && r.response.counters.fotoripSold == 1
            && r.response.counters.errors == []
  {
    var rec := FotoripBatch();
    var row := NewPurchaseRow(EmptyStore, rec, 20);
    var st1 := EmptyStore.(purchases := [row], nextPurchaseId := 2);
    var b0 := BatchState(st1, 0, PurchaseCounters(0, 0, 0, 0, []), false);
    var b1 := ItemStep(b0, row, rec.items[0], FlushedOnly, Current, 20);
    assert !b1.aborted && b1.flushed == 1 && b1.store.items[0].serial == Some("SN5");
    assert !RejectsSerial(b1, rec.items[1], FlushedOnly);
    var b2 := ItemStep(b1, row, rec.items[1], FlushedOnly, Current, 20);
    assert ImportItems(b0, row, rec.items, FlushedOnly, Current, 20) == b2 by {
      assert rec.items[1..][1..] == [];
    }
    assert b2.store.items[1].serial == Some("SN6");
    assert DistinctSerials(b2.store.items);
  }

  /** Synthetic sales of different items never share an external id. */
  lemma FotoripIdsDistinct(row1: PurchaseRow, id1: nat, row2: PurchaseRow, id2: nat, today: int)
    requires id1 != id2
    ensures FotoripSale(row1, id1, today).invoicexId != FotoripSale(row2, id2, today).invoicexId
  {
    if FotoripSale(row1, id1, today).invoicexId == FotoripSale(row2, id2, today).invoicexId {
      PrefixedInjective("FOTORIP_", NatToString(id1), NatToString(id2));
      NatToStringInjective(id1, id2);
    }
  }

  // ---------------------------------------------------------------------------
  // Sale import
  // ---------------------------------------------------------------------------

  /** Every sale record is counted once as inserted, updated or an error, and
      the rows written are the ones counted as inserted. */
  lemma {:induction false} ImportSalesFromConserves(st: Store, c: SaleCounters, recs: seq<SaleRecord>, committed: nat, vis: Visibility, schema: Schema)
    requires committed <= |st.sales|
    ensures var r := ImportSalesFrom(st, c, recs, committed, vis, schema);
            && r.counters.inserted + r.counters.updated + |r.counters.errors| == c.inserted + c.updated + |c.errors| + |recs|
            && |r.store.sales| - |st.sales| == r.counters.inserted - c.inserted
            && c.errors <= r.counters.errors
    decreases |recs|
  {
    if recs != [] {
      var o := ImportSale(st, c, recs[0], committed, vis, schema);
      ImportSalesFromConserves(o.store, o.counters, recs[1..], committed, vis, schema);
    }
  }

  /** `vendite_inserite + vendite_aggiornate + len(errori)` is the number of
      records sent, and `vendite_inserite` is the number of rows written. */
  lemma SaleCountersMatchStore(st: Store, recs: seq<SaleRecord>, vis: Visibility, schema: Schema)
    ensures var r := ImportSales(st, recs, vis, schema);
            && r.counters.inserted + r.counters.updated + |r.counters.errors| == |recs|
            && |r.store.sales| == |st.sales| + r.counters.inserted
            && r.store.items == st.items
  {
    ImportSalesFromConserves(st, SaleCounters(0, 0, []), recs, |st.sales|, vis, schema);
  }

  /** As written, with the legacy classes, no sale is ever stored: every record
      that passes the serial, item and id checks fails when the sale is built. */
  lemma {:induction false} LegacySalesWriteNothing(st: Store, c: SaleCounters, recs: seq<SaleRecord>, committed: nat, vis: Visibility)
    requires committed <= |st.sales|
    ensures var r := ImportSalesFrom(st, c, recs, committed, vis, Legacy);
            r.store == st && r.counters.inserted == c.inserted
    decreases |recs|
  {
    if recs != [] {
      var o := ImportSale(st, c, recs[0], committed, vis, Legacy);
      assert o.store == st;
      LegacySalesWriteNothing(o.store, o.counters, recs[1..], committed, vis);
    }
  }

  /** Whether the record would be written if its external id were new. */
  predicate Insertable(st: Store, rec: SaleRecord) {
    HasSerial(rec) && SerialTaken(st.items, rec.serial.value) && SaleFieldsValid(rec)
  }

  lemma IdTakenGrows(a: seq<SaleRow>, b: seq<SaleRow>, id: string)
    requires a <= b && IdTaken(a, id)
    ensures IdTaken(b, id)
  {
    var i :| 0 <= i < |a| && a[i].sale.invoicexId == Some(id);
    assert b[i] == a[i];
  }

  /** After an import with the current classes, the external id of every
      insertable record is in the store. */
  lemma {:induction false} IdsRecorded(st: Store, c: SaleCounters, recs: seq<SaleRecord>, committed: nat, vis: Visibility, schema: Schema)
    requires committed <= |st.sales| && schema == Current
    ensures var r := ImportSalesFrom(st, c, recs, committed, vis, schema);
            forall k :: 0 <= k < |recs| && Insertable(st, recs[k]) ==> IdTaken(r.store.sales, recs[k].externalId)
    decreases |recs|
  {
    if recs != [] {
      var rec := recs[0];
      var o := ImportSale(st, c, rec, committed, vis, schema);
      var r := ImportSalesFrom(o.store, o.counters, recs[1..], committed, vis, schema);
      IdsRecorded(o.store, o.counters, recs[1..], committed, vis, schema);
      forall k | 0 <= k < |recs| && Insertable(st, recs[k])
        ensures IdTaken(r.store.sales, recs[k].externalId)
      {
        if k == 0 {
          var visible := VisibleSales(st, committed, vis);
          if IdTaken(visible, rec.externalId) {
            IdTakenGrows(visible, st.sales, rec.externalId);
            IdTakenGrows(st.sales, r.store.sales, rec.externalId);
          } else {
            assert o.store.sales[|st.sales|].sale.invoicexId == Some(rec.externalId);
            IdTakenGrows(o.store.sales, r.store.sales, rec.externalId);
          }
        } else {
          assert recs[k] == recs[1..][k - 1];
        }
      }
    }
  }

  /** When every row is visible and every insertable record's id is already
      stored, an import writes nothing and inserts nothing. */
  lemma {:induction false} KnownIdsWriteNothing(st: Store, c: SaleCounters, recs: seq<SaleRecord>, vis: Visibility, schema: Schema)
    requires forall k :: 0 <= k < |recs| && Insertable(st, recs[k]) ==> IdTaken(st.sales, recs[k].externalId)
    ensures var r := ImportSalesFrom(st, c, recs, |st.sales|, vis, schema);
            r.store == st && r.counters.inserted == c.inserted
    decreases |recs|
  {
    if recs != [] {
      assert VisibleSales(st, |st.sales|, vis) == st.sales;
      var o := ImportSale(st, c, recs[0], |st.sales|, vis, schema);
      assert o.store == st;
      forall k | 0 <= k < |recs[1..]| && Insertable(st, recs[1..][k])
        ensures IdTaken(st.sales, recs[1..][k].externalId)
      {
        assert recs[1..][k] == recs[k + 1];
      }
      KnownIdsWriteNothing(o.store, o.counters, recs[1..], vis, schema);
    }
  }

  /** Sending the same sales twice is harmless: the second import writes no
      row and reports nothing inserted. */
  lemma SaleImportIdempotent(st: Store, recs: seq<SaleRecord>, vis: Visibility, schema: Schema)
    ensures var once := ImportSales(st, recs, vis, schema);
            var twice := ImportSales(once.store, recs, vis, schema);
            twice.store == once.store && twice.counters.inserted == 0
  {
    var zero := SaleCounters(0, 0, []);
    var once := ImportSales(st, recs, vis, schema);
    if schema == Legacy {
      LegacySalesWriteNothing(st, zero, recs, |st.sales|, vis);
      LegacySalesWriteNothing(once.store, zero, recs, |once.store.sales|, vis);
    } else {
      IdsRecorded(st, zero, recs, |st.sales|, vis, schema);
      assert once.store.items == st.items;
      KnownIdsWriteNothing(once.store, zero, recs, vis, schema);
    }
  }

  /** No two stored sales share an external id. */
  predicate UniqueExternalIds(sales: seq<SaleRow>) {
    forall i, j :: 0 <= i < j < |sales| && sales[i].sale.invoicexId.Some? ==> sales[i].sale.invoicexId != sales[j].sale.invoicexId
  }

  /** With every row visible, the sale import keeps external ids unique. */
  lemma {:induction false} PendingSaleImportKeepsIdsUnique(st: Store, c: SaleCounters, recs: seq<SaleRecord>, committed: nat, schema: Schema)
    requires committed <= |st.sales|
    requires UniqueExternalIds(st.sales)
    ensures UniqueExternalIds(ImportSalesFrom(st, c, recs, committed, IncludePending, schema).store.sales)
    decreases |recs|
  {
    if recs != [] {
      var o := ImportSale(st, c, recs[0], committed, IncludePending, schema);
      if o.store.sales != st.sales {
        var n := |st.sales|;
        var id := recs[0].externalId;
        assert !IdTaken(st.sales, id);
        assert o.store.sales[n].sale.invoicexId == Some(id);
        forall i, j | 0 <= i < j < |o.store.sales| && o.store.sales[i].sale.invoicexId.Some?
          ensures o.store.sales[i].sale.invoicexId != o.store.sales[j].sale.invoicexId
        {
          if j == n {
            assert o.store.sales[i] == st.sales[i];
          } else {
            assert o.store.sales[i] == st.sales[i] && o.store.sales[j] == st.sales[j];
          }
        }
      }
      PendingSaleImportKeepsIdsUnique(o.store, o.counters, recs[1..], committed, schema);
    }
  }

  /** A store holding one item with serial SN1. */
  const OneItemStore: Store := Store([], [ItemRow(1, 1, Some("SN1"), "iPhone 12", None)], [], 2, 2)

  /** An invoice line for that item. */
  const InvoiceLine: SaleRecord := SaleRecord(Some("SN1"), "7", Some(100), "eBay", Some(250.0), Some(20.0), None)

  /** As written: the first sale is still pending when the repeated line is
      checked, so the same external id is stored twice. */
  lemma SameRequestDuplicateSaleInserted()
    ensures var r := ImportSales(OneItemStore, [InvoiceLine, InvoiceLine], FlushedOnly, Current);
            && |r.store.sales| == 2
            && r.store.sales[0].sale.invoicexId == r.store.sales[1].sale.invoicexId == Some("7")
            && r.counters.inserted == 2
            && !UniqueExternalIds(r.store.sales)
  {
    var zero := SaleCounters(0, 0, []);
    var o1 := ImportSale(OneItemStore, zero, InvoiceLine, 0, FlushedOnly, Current);
    assert o1.store.sales == [NewSaleRow(OneItemStore.items[0], InvoiceLine)];
    assert VisibleSales(o1.store, 0, FlushedOnly) == [];
    var o2 := ImportSale(o1.store, o1.counters, InvoiceLine, 0, FlushedOnly, Current);
    var recs := [InvoiceLine, InvoiceLine];
    assert recs[1..] == [InvoiceLine] && recs[1..][1..] == [];
    assert ImportSalesFrom(o2.store, o2.counters, [], 0, FlushedOnly, Current) == o2;
    assert ImportSalesFrom(o1.store, o1.counters, recs[1..], 0, FlushedOnly, Current) == o2;
    assert ImportSales(OneItemStore, recs, FlushedOnly, Current) == o2;
  }

  /** With pending rows visible, the repeated line only counts as updated. */
  lemma SameRequestDuplicateSaleCountedOnce()
    ensures var r := ImportSales(OneItemStore, [InvoiceLine, InvoiceLine], IncludePending, Current);
            && |r.store.sales| == 1
            && r.counters.inserted == 1
            && r.counters.updated == 1
  {
    var zero := SaleCounters(0, 0, []);
    var o1 := ImportSale(OneItemStore, zero, InvoiceLine, 0, IncludePending, Current);
    assert o1.store.sales == [NewSaleRow(OneItemStore.items[0], InvoiceLine)];
    assert o1.store.sales[0].sale.invoicexId == Some("7");
    assert IdTaken(VisibleSales(o1.store, 0, IncludePending), "7");
    var o2 := ImportSale(o1.store, o1.counters, InvoiceLine, 0, IncludePending, Current);
    var recs := [InvoiceLine, InvoiceLine];
    assert recs[1..] == [InvoiceLine] && recs[1..][1..] == [];
    assert ImportSalesFrom(o2.store, o2.counters, [], 0, IncludePending, Current) == o2;
    assert ImportSalesFrom(o1.store, o1.counters, recs[1..], 0, IncludePending, Current) == o2;
    assert ImportSales(OneItemStore, recs, IncludePending, Current) == o2;
  }

  /** As written, the invoice line for an existing item is reported as an
      error naming its id and not stored. */
  lemma LegacyInvoiceLineFails()
    ensures var r := ImportSales(OneItemStore, [InvoiceLine], FlushedOnly, Legacy);
            r.store == OneItemStore && r.counters == SaleCounters(0, 0, [SaleFailed("7")])
  {
    var o := ImportSale(OneItemStore, SaleCounters(0, 0, []), InvoiceLine, 0, FlushedOnly, Legacy);
    assert o.counters == SaleCounters(0, 0, [SaleFailed("7")]);
    assert [InvoiceLine][1..] == [];
    assert ImportSalesFrom(o.store, o.counters, [], 0, FlushedOnly, Legacy) == o;
  }
}
