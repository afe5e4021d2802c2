/** The earlier revision of the same entities (app/models/models.py). Its
    computed properties are a subset of the current ones, written slightly
    differently; the lemmas here show the two revisions agree. */
module LegacyMetrics {
  import opened Wrappers
  import opened Entities
  import Valuation
  import PurchaseMetrics

  /** `Vendita.ricavo_netto` (models.py:96-98). */
  function NetRevenue(s: Sale): real {
    s.price - s.commission.GetOr(0.0)
  }

  /** `Prodotto.ricavo_vendita` (models.py:72-76): 0 with no sale, otherwise
      the sum of price minus commission. */
  function ItemRevenue(it: Item): real {
    if it.sales == [] then 0.0 else SumNet(it.sales)
  }

  function SumNet(sales: seq<Sale>): real {
    if sales == [] then 0.0 else NetRevenue(sales[0]) + SumNet(sales[1..])
  }

  /** `Acquisto.costo_totale` (models.py:25-27). */
  function TotalCost(p: Purchase): real {
    p.baseCost + p.accessoryCost.GetOr(0.0)
  }

  /** `prodotti_venduti` (models.py:33-35). */
  function SoldCount(items: seq<Item>): nat {
    if items == [] then 0 else (if Sold(items[0]) then 1 else 0) + SoldCount(items[1..])
  }

  /** `prodotti_in_stock` (models.py:37-39). */
  function InStockCount(items: seq<Item>): nat {
    if items == [] then 0 else (if !Sold(items[0]) then 1 else 0) + InStockCount(items[1..])
  }

  /** Sold and in-stock items always add up to `numero_prodotti`. */
  lemma {:induction false} SoldPlusInStock(items: seq<Item>)
    ensures SoldCount(items) + InStockCount(items) == |items|
    decreases |items|
  {
    if items != [] {
      SoldPlusInStock(items[1..]);
    }
  }

  /** `completamente_venduto` (models.py:41-43). */
  predicate FullySold(p: Purchase) {
    |p.items| > 0 && forall i :: 0 <= i < |p.items| ==> Sold(p.items[i])
  }

  lemma {:induction false} NoStockMeansAllSold(items: seq<Item>)
    ensures InStockCount(items) == 0 <==> forall i :: 0 <= i < |items| ==> Sold(items[i])
    decreases |items|
  {
    if items != [] {
      NoStockMeansAllSold(items[1..]);
      assert forall i :: 1 <= i < |items| ==> items[i] == items[1..][i - 1];
    }
  }

  /** Fully sold exactly when the batch is non-empty and nothing is in stock. */
  lemma FullySoldIffNoStock(p: Purchase)
    ensures FullySold(p) <==> |p.items| > 0 && InStockCount(p.items) == 0
    ensures FullySold(p) <==> |p.items| > 0 && SoldCount(p.items) == |p.items|
  {
    NoStockMeansAllSold(p.items);
    SoldPlusInStock(p.items);
  }

  /** `ricavo_totale` (models.py:45-47): revenue of the sold items only. */
  function RevenueOfSold(items: seq<Item>): real {
    if items == [] then 0.0
    else (if Sold(items[0]) then ItemRevenue(items[0]) else 0.0) + RevenueOfSold(items[1..])
  }

  /** Revenue of every item, sold or not. */
  function RevenueOfAll(items: seq<Item>): real {
    if items == [] then 0.0 else ItemRevenue(items[0]) + RevenueOfAll(items[1..])
  }

  /** Unsold items contribute nothing, so summing over sold items only equals
      summing over all items. */
  lemma {:induction false} RevenueOfSoldIsRevenueOfAll(items: seq<Item>)
    ensures RevenueOfSold(items) == RevenueOfAll(items)
    decreases |items|
  {
    if items != [] {
      RevenueOfSoldIsRevenueOfAll(items[1..]);
    }
  }

  /** `ricavo_totale` of a batch. */
  function TotalRevenue(p: Purchase): real {
    RevenueOfSold(p.items)
  }

  /** `margine_totale` (models.py:49-51). */
  function TotalMargin(p: Purchase): real {
    TotalRevenue(p) - TotalCost(p)
  }

  /** The margin is what all sales brought in minus what the batch cost; in
      particular a batch without sales has margin minus its total cost. */
  lemma MarginIsRevenueMinusCost(p: Purchase)
    ensures TotalMargin(p) + TotalCost(p) == RevenueOfAll(p.items)
    ensures SoldCount(p.items) == 0 ==> TotalMargin(p) == -TotalCost(p)
  {
    RevenueOfSoldIsRevenueOfAll(p.items);
    if SoldCount(p.items) == 0 {
      NoRevenueWithoutSales(p.items);
    }
  }

  lemma {:induction false} NoRevenueWithoutSales(items: seq<Item>)
    requires SoldCount(items) == 0
    ensures RevenueOfSold(items) == 0.0
    decreases |items|
  {
    if items != [] {
      NoRevenueWithoutSales(items[1..]);
    }
  }

  lemma {:induction false} SumNetAgrees(sales: seq<Sale>)
    ensures SumNet(sales) == Valuation.SalesRevenue(sales)
    decreases |sales|
  {
    if sales != [] {
      SumNetAgrees(sales[1..]);
    }
  }

  lemma {:induction false} RevenueOfSoldAgrees(items: seq<Item>)
    ensures RevenueOfSold(items) == PurchaseMetrics.RevenueOfSold(items)
    decreases |items|
  {
    if items != [] {
      SumNetAgrees(items[0].sales);
      RevenueOfSoldAgrees(items[1..]);
    }
  }

  lemma {:induction false} CountsAgree(items: seq<Item>)
    ensures SoldCount(items) == PurchaseMetrics.SoldCount(items)
    ensures InStockCount(items) == PurchaseMetrics.UnsoldCount(items)
    decreases |items|
  {
    if items != [] {
      CountsAgree(items[1..]);
    }
  }

  /** The two revisions compute the same cost, counts, revenue and margin for
      every batch snapshot. */
  lemma RevisionsAgree(p: Purchase)
    ensures TotalCost(p) == Valuation.TotalCost(p)
    ensures SoldCount(p.items) == PurchaseMetrics.SoldCount(p.items)
    ensures InStockCount(p.items) == PurchaseMetrics.UnsoldCount(p.items)
    ensures FullySold(p) == PurchaseMetrics.FullySold(p)
    ensures forall i :: 0 <= i < |p.items| ==> ItemRevenue(p.items[i]) == Valuation.ItemRevenue(p.items[i])
    ensures TotalRevenue(p) == PurchaseMetrics.TotalRevenue(p)
    ensures TotalMargin(p) == PurchaseMetrics.TotalMargin(p)
  {
    CountsAgree(p.items);
    RevenueOfSoldAgrees(p.items);
    forall i | 0 <= i < |p.items|
      ensures ItemRevenue(p.items[i]) == Valuation.ItemRevenue(p.items[i])
    {
      SumNetAgrees(p.items[i].sales);
    }
  }
}
