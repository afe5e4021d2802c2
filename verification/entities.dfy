/** The three records of the inventory (app/models/model_nuovo.py): a purchase
    batch (`Acquisto`) owns its items (`Prodotto`), an item owns its sales
    (`Vendita`). A value of `Purchase` is an immutable snapshot of one batch
    with everything below it; the back-references of the ORM (`prodotto.acquisto`,
    `vendita.prodotto`) become an explicit `Purchase` argument of the metrics.

    Days are integers (day numbers), money is `real`. */
module Entities {
  import opened Wrappers
  import opened Text

  /** Sales channel of the synthetic sale that marks an item as consumed by
      internal repairs ("fotorip"). */
  const ServiceChannel: string := "RIPARAZIONI"

  /** Stripped serial values that mean "no serial". */
  predicate PlaceholderText(t: string) {
    t == "" || t == "???" || t == "N/A"
  }

  /** A `Vendita`. `commission` is nullable in the schema and read as 0 when absent. */
  datatype Sale = Sale(
    date: int,
    channel: string,
    price: real,
    commission: Option<real>,
    note: Option<string>,
    syncedFromInvoicex: bool,
    invoicexId: Option<string>)

  /** A `Prodotto`. */
  datatype Item = Item(
    serial: Option<string>,
    description: string,
    note: Option<string>,
    sales: seq<Sale>)

  /** An `Acquisto` together with its items. `baseCost` is a NOT NULL column;
      `accessoryCost` is nullable and read as 0 when absent. `createdAt` is the
      day part of the creation timestamp. */
  datatype Purchase = Purchase(
    code: string,
    source: string,
    seller: string,
    baseCost: real,
    accessoryCost: Option<real>,
    paymentDate: Option<int>,
    deliveryDate: Option<int>,
    note: Option<string>,
    buyer: string,
    problemReported: bool,
    problemKind: Option<string>,
    problemDescription: Option<string>,
    createdAt: int,
    items: seq<Item>)

  /** `Prodotto.venduto`: at least one sale is attached. */
  predicate Sold(it: Item) {
    |it.sales| > 0
  }

  /** The batch has a delivery date. */
  predicate Arrived(p: Purchase) {
    p.deliveryDate.Some?
  }

  predicate IsServiceSale(s: Sale) {
    s.channel == ServiceChannel
  }

  /** An item consumed internally: one of its sales went to the service channel. */
  predicate IsServiceItem(it: Item) {
    exists k :: 0 <= k < |it.sales| && IsServiceSale(it.sales[k])
  }

  /** A serial value that does not identify anything: empty, or a placeholder
      once surrounding whitespace is stripped. */
  predicate IsPlaceholderSerial(s: string) {
    s == [] || PlaceholderText(Strip(s))
  }

  /** The item counts as "without serial" (model_nuovo.py:48). */
  predicate LacksSerial(it: Item) {
    match it.serial
    case None => true
    case Some(s) => IsPlaceholderSerial(s)
  }

  /** `s` is one of the placeholders surrounded by whitespace only. */
  ghost predicate PaddedPlaceholder(s: string) {
    exists a, t, b :: s == a + t + b && AllSpace(a) && PlaceholderText(t) && AllSpace(b)
  }

  lemma PlaceholderIsPadded(s: string)
    requires IsPlaceholderSerial(s)
    ensures PaddedPlaceholder(s)
  {
    if s == [] {
      assert s == [] + [] + [];
    } else {
      var a, b := StripRemovesOnlySpace(s);
    }
  }

  lemma PaddedIsPlaceholder(s: string)
    requires PaddedPlaceholder(s)
    ensures IsPlaceholderSerial(s)
  {
    var a, t, b :| s == a + t + b && AllSpace(a) && PlaceholderText(t) && AllSpace(b);
    assert Trimmed(t) by {
      assert t == "" || t == "???" || t == "N/A";
    }
    StripOfPadded(a, t, b);
  }

  /** A serial is a placeholder exactly when it is a placeholder padded with
      whitespace on either side. */
  lemma PlaceholderIffPadded(s: string)
    ensures IsPlaceholderSerial(s) <==> PaddedPlaceholder(s)
  {
    if IsPlaceholderSerial(s) {
      PlaceholderIsPadded(s);
    }
    if PaddedPlaceholder(s) {
      PaddedIsPlaceholder(s);
    }
  }
}
