/** Computed properties of one item (`Prodotto`, model_nuovo.py:245-295). The
    item `it` belongs to the batch `p`. */
module ItemMetrics {
  import opened Wrappers
  import opened Entities
  import opened Valuation

  /** `Prodotto.margine_vendita`: revenue minus the unit cost of the batch. */
  function ItemMargin(p: Purchase, it: Item): real {
    ItemRevenue(it) - UnitCost(p)
  }

  /** `Prodotto.margine_percentuale`: the margin as a percentage of the unit
      cost, 0 when the unit cost is 0 (in particular for an empty batch). */
  function ItemMarginPct(p: Purchase, it: Item): (pct: real)
    ensures UnitCost(p) != 0.0 ==> pct * UnitCost(p) == (ItemRevenue(it) - UnitCost(p)) * 100.0
    ensures UnitCost(p) == 0.0 ==> pct == 0.0
  {
    if UnitCost(p) == 0.0 then 0.0 else ItemMargin(p, it) / UnitCost(p) * 100.0
  }

  /** An item with no sale has margin percentage -100 whenever its batch has a
      non-zero unit cost: its whole allocated cost is a loss. */
  lemma UnsoldItemLosesItsCost(p: Purchase, it: Item)
    requires !Sold(it) && UnitCost(p) != 0.0
    ensures ItemMarginPct(p, it) == -100.0
  {
    var u := UnitCost(p);
    assert ItemRevenue(it) == 0.0;
    assert ItemMargin(p, it) == -u;
    assert (0.0 - u) / u == -1.0;
  }

  /** `Prodotto.giorni_in_stock`: days since arrival for an unsold item of an
      arrived batch; undefined for a sold item or a batch still in transit. */
  function DaysInStock(p: Purchase, it: Item, today: int): (d: Option<int>)
    ensures d.Some? <==> !Sold(it) && Arrived(p)
    ensures d.Some? ==> d.value == today - p.deliveryDate.value
  {
    if Sold(it) || p.deliveryDate.None? then None else Some(today - p.deliveryDate.value)
  }

  /** Sum, over the sales not on the service channel, of the days from
      `arrival` to the sale. */
  function BusinessDayTotal(sales: seq<Sale>, arrival: int): int {
    if sales == [] then 0
    else (if IsServiceSale(sales[0]) then 0 else sales[0].date - arrival) + BusinessDayTotal(sales[1..], arrival)
  }

  /** Number of sales not on the service channel. */
  function BusinessSaleCount(sales: seq<Sale>): nat {
    if sales == [] then 0
    else (if IsServiceSale(sales[0]) then 0 else 1) + BusinessSaleCount(sales[1..])
  }

  lemma {:induction false} BusinessDaysAppend(a: seq<Sale>, b: seq<Sale>, arrival: int)
    ensures BusinessDayTotal(a + b, arrival) == BusinessDayTotal(a, arrival) + BusinessDayTotal(b, arrival)
    ensures BusinessSaleCount(a + b) == BusinessSaleCount(a) + BusinessSaleCount(b)
    decreases |a|
  {
    if a == [] {
      assert a + b == b;
    } else {
      assert (a + b)[1..] == a[1..] + b;
      BusinessDaysAppend(a[1..], b, arrival);
    }
  }

  /** Every business sale of `sales` is dated within `[lo, hi]`. */
  predicate BusinessDatesWithin(sales: seq<Sale>, lo: int, hi: int) {
    forall k :: 0 <= k < |sales| && !IsServiceSale(sales[k]) ==> lo <= sales[k].date <= hi
  }

  lemma {:induction false} BusinessDayTotalBounds(sales: seq<Sale>, arrival: int, lo: int, hi: int)
    requires BusinessDatesWithin(sales, lo, hi)
    ensures BusinessSaleCount(sales) * (lo - arrival) <= BusinessDayTotal(sales, arrival)
    ensures BusinessDayTotal(sales, arrival) <= BusinessSaleCount(sales) * (hi - arrival)
    decreases |sales|
  {
    if sales != [] {
      assert BusinessDatesWithin(sales[1..], lo, hi) by {
        forall k | 0 <= k < |sales[1..]| && !IsServiceSale(sales[1..][k])
          ensures lo <= sales[1..][k].date <= hi
        {
          assert sales[1..][k] == sales[k + 1];
        }
      }
      BusinessDayTotalBounds(sales[1..], arrival, lo, hi);
      var c := BusinessSaleCount(sales[1..]);
      if !IsServiceSale(sales[0]) {
        assert (c + 1) * (lo - arrival) == c * (lo - arrival) + (lo - arrival);
        assert (c + 1) * (hi - arrival) == c * (hi - arrival) + (hi - arrival);
      }
    }
  }

  /** Integer mean of a total over a positive count, as a real. */
  function Mean(total: int, count: nat): real
    requires count > 0
  {
    (total as real) / (count as real)
  }

  /** A mean of values each within `[lo, hi]` stays within `[lo, hi]`. */
  lemma MeanWithin(total: int, count: nat, lo: int, hi: int)
    requires count > 0
    requires count * lo <= total <= count * hi
    ensures lo as real <= Mean(total, count) <= hi as real
  {
    var c := count as real;
    assert (lo as real) * c == (count * lo) as real;
    assert (hi as real) * c == (count * hi) as real;
    QuotientBounds(total as real, c, lo as real, hi as real);
  }

  /** `Prodotto.giorni_vendita_media`: mean days from arrival to the sale over
      the item's business sales; undefined with no sale, before arrival, or
      when every sale is a service sale. */
  function AvgDaysToSale(p: Purchase, it: Item): Option<real> {
    if it.sales == [] || p.deliveryDate.None? then None
    else
      var count := BusinessSaleCount(it.sales);
      if count > 0 then Some(Mean(BusinessDayTotal(it.sales, p.deliveryDate.value), count)) else None
  }

  /** The mean lies between the earliest and the latest business sale date,
      measured from arrival; it is defined exactly when the batch arrived and
      the item has a business sale. */
  lemma AvgDaysToSaleWithin(p: Purchase, it: Item, lo: int, hi: int)
    requires BusinessDatesWithin(it.sales, lo, hi)
    ensures AvgDaysToSale(p, it).Some? <==> Arrived(p) && BusinessSaleCount(it.sales) > 0
    ensures AvgDaysToSale(p, it).Some? ==>
              var arrival := p.deliveryDate.value;
              (lo - arrival) as real <= AvgDaysToSale(p, it).value <= (hi - arrival) as real
  {
    if AvgDaysToSale(p, it).Some? {
      var arrival := p.deliveryDate.value;
      BusinessDayTotalBounds(it.sales, arrival, lo, hi);
      MeanWithin(BusinessDayTotal(it.sales, arrival), BusinessSaleCount(it.sales), lo - arrival, hi - arrival);
    }
  }
}
