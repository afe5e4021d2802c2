/** Money arithmetic shared by every revision of the models: a sale's net
    revenue, an item's revenue, a batch's total cost and its equal per-item
    allocation (model_nuovo.py:57-60, 250-253, 262-267, 316-319). */
module Valuation {
  import opened Wrappers
  import opened Entities

  /** `Vendita.ricavo_netto`: price minus commission, an absent commission read as 0. */
  function NetRevenue(s: Sale): real {
    s.price - s.commission.GetOr(0.0)
  }

  /** Sum of the net revenues of a list of sales. */
  function SalesRevenue(sales: seq<Sale>): real {
    if sales == [] then 0.0 else NetRevenue(sales[0]) + SalesRevenue(sales[1..])
  }

  /** `Prodotto.ricavo_vendita`. */
  function ItemRevenue(it: Item): real {
    SalesRevenue(it.sales)
  }

  /** `Acquisto.costo_totale`: base cost plus accessory cost, an absent
      accessory cost read as 0. */
  function TotalCost(p: Purchase): real {
    p.baseCost + p.accessoryCost.GetOr(0.0)
  }

  /** `Prodotto.costo_unitario`: the batch cost split equally over every item
      of the batch; 0 for an empty batch instead of a division by zero. */
  function UnitCost(p: Purchase): (u: real)
    ensures |p.items| == 0 ==> u == 0.0
    ensures |p.items| > 0 ==> u * (|p.items| as real) == TotalCost(p)
  {
    if |p.items| == 0 then 0.0 else TotalCost(p) / (|p.items| as real)
  }

  /** Revenue of a concatenation is the sum of the revenues. */
  lemma {:induction false} SalesRevenueAppend(a: seq<Sale>, b: seq<Sale>)
    ensures SalesRevenue(a + b) == SalesRevenue(a) + SalesRevenue(b)
    decreases |a|
  {
    if a == [] {
      assert a + b == b;
    } else {
      assert (a + b)[1..] == a[1..] + b;
      SalesRevenueAppend(a[1..], b);
    }
  }

  /** Revenue is never negative while no commission exceeds its price, and a
      single sale whose commission exceeds its price gives a negative revenue:
      the source does not clamp. */
  lemma {:induction false} SalesRevenueSign(sales: seq<Sale>)
    ensures (forall k :: 0 <= k < |sales| ==> sales[k].commission.GetOr(0.0) <= sales[k].price)
              ==> SalesRevenue(sales) >= 0.0
    ensures |sales| == 1 ==> (SalesRevenue(sales) < 0.0 <==> sales[0].commission.GetOr(0.0) > sales[0].price)
    decreases |sales|
  {
    if sales != [] {
      SalesRevenueSign(sales[1..]);
      if |sales| == 1 {
        assert sales[1..] == [];
      }
    }
  }

  /** Sum of `UnitCost(p)` over a list of items (the share of the batch cost
      they carry). */
  function AllocatedCost(p: Purchase, items: seq<Item>): real {
    if items == [] then 0.0 else UnitCost(p) + AllocatedCost(p, items[1..])
  }

  lemma {:induction false} AllocatedCostIsMultiple(p: Purchase, items: seq<Item>)
    ensures AllocatedCost(p, items) == (|items| as real) * UnitCost(p)
    decreases |items|
  {
    if items != [] {
      AllocatedCostIsMultiple(p, items[1..]);
    }
  }

  /** Equal allocation conserves cost: over the items of a non-empty batch the
      unit costs add up to the total cost. */
  lemma UnitCostsSumToTotal(p: Purchase)
    requires |p.items| > 0
    ensures AllocatedCost(p, p.items) == TotalCost(p)
  {
    AllocatedCostIsMultiple(p, p.items);
  }

  /** For a positive base, `x` is at least `t` percent of the base exactly
      when `x / base * 100` is at least `t`. */
  lemma PercentAtLeast(x: real, base: real, t: real)
    requires base > 0.0
    ensures x / base * 100.0 >= t <==> x * 100.0 >= t * base
  {
    var q := x / base;
    assert q * base == x;
    if q * 100.0 < t {
      assert (t - q * 100.0) * base > 0.0;
    } else {
      assert (q * 100.0 - t) * base >= 0.0;
    }
  }

  /** Dividing by a positive `c` keeps `x` between `a` and `b` when `x` lies
      between `a * c` and `b * c`. */
  lemma QuotientBounds(x: real, c: real, a: real, b: real)
    requires c > 0.0 && a * c <= x <= b * c
    ensures a <= x / c <= b
  {
    var q := x / c;
    assert q * c == x;
  }
}
