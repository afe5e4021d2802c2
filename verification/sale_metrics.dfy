/** Computed properties of one sale (`Vendita`, model_nuovo.py:316-381). The
    sale's item belongs to the batch `p`, whose unit cost it is measured against. */
module SaleMetrics {
  import opened Wrappers
  import opened Entities
  import opened Valuation

  /** `Vendita.margine`: net revenue minus the unit cost of the batch. */
  function SaleMargin(p: Purchase, s: Sale): real {
    NetRevenue(s) - UnitCost(p)
  }

  /** `Vendita.margine_percentuale` (and its alias `roi_percentuale`): the margin
      as a percentage of the unit cost, 0 when the unit cost is 0. */
  function SaleMarginPct(p: Purchase, s: Sale): (pct: real)
    ensures UnitCost(p) != 0.0 ==> pct * UnitCost(p) == SaleMargin(p, s) * 100.0
    ensures UnitCost(p) == 0.0 ==> pct == 0.0
  {
    if UnitCost(p) == 0.0 then 0.0 else SaleMargin(p, s) / UnitCost(p) * 100.0
  }

  /** For a batch with a positive unit cost, a margin of at least `t` percent
      means the sale recovered its allocated cost plus `t` percent of it. */
  lemma MarginPctAtLeast(p: Purchase, s: Sale, t: real)
    requires UnitCost(p) > 0.0
    ensures SaleMarginPct(p, s) >= t <==> NetRevenue(s) >= UnitCost(p) * (1.0 + t / 100.0)
  {
    var u := UnitCost(p);
    var m := SaleMargin(p, s);
    PercentAtLeast(m, u, t);
  }

  /** `Vendita.giorni_vendita`: days from the batch's arrival to the sale;
      undefined while the batch has not arrived. */
  function SaleDays(p: Purchase, s: Sale): (d: Option<int>)
    ensures d.Some? <==> Arrived(p)
    ensures Arrived(p) ==> d.value + p.deliveryDate.value == s.date
  {
    match p.deliveryDate
    case None => None
    case Some(arrival) => Some(s.date - arrival)
  }

  /** The classes of `Vendita.tipo_vendita`. */
  datatype SaleTier = Fotorip | Ottima | Buona | Accettabile | Critica {
    /** Business tiers ordered from worst (0) to best (3); the service tier is apart. */
    function Rank(): int {
      match this
      case Fotorip => -1
      case Critica => 0
      case Accettabile => 1
      case Buona => 2
      case Ottima => 3
    }
  }

  /** `Vendita.tipo_vendita`: "fotorip" for the service channel, otherwise the
      margin tier with thresholds 25 / 15 / 5 percent. */
  function SaleType(p: Purchase, s: Sale): (t: SaleTier)
    ensures t == Fotorip <==> IsServiceSale(s)
    ensures !IsServiceSale(s) ==>
              (t == Ottima <==> SaleMarginPct(p, s) >= 25.0)
              && (t == Buona <==> 15.0 <= SaleMarginPct(p, s) < 25.0)
              && (t == Accettabile <==> 5.0 <= SaleMarginPct(p, s) < 15.0)
              && (t == Critica <==> SaleMarginPct(p, s) < 5.0)
  {
    if s.channel == ServiceChannel then Fotorip
    else if SaleMarginPct(p, s) >= 25.0 then Ottima
    else if SaleMarginPct(p, s) >= 15.0 then Buona
    else if SaleMarginPct(p, s) >= 5.0 then Accettabile
    else Critica
  }

  /** A business sale from a batch of zero unit cost (an empty or free batch)
      has margin percentage 0 and is therefore always "critica", however much
      it earned. */
  lemma ZeroCostSaleIsCritical(p: Purchase, s: Sale)
    requires UnitCost(p) == 0.0 && !IsServiceSale(s)
    ensures SaleType(p, s) == Critica
  {
  }

  /** A business sale with a higher margin never lands in a lower tier. */
  lemma SaleTypeMonotone(p: Purchase, s1: Sale, q: Purchase, s2: Sale)
    requires !IsServiceSale(s1) && !IsServiceSale(s2)
    requires SaleMarginPct(p, s1) <= SaleMarginPct(q, s2)
    ensures SaleType(p, s1).Rank() <= SaleType(q, s2).Rank()
  {
  }

  /** The classes of `Vendita.velocita_vendita`. */
  datatype Speed = Sconosciuta | MoltoVeloce | Veloce | Normale | Lenta | MoltoLenta {
    /** Known speeds ordered from fastest (0) to slowest (4). */
    function Rank(): int {
      match this
      case Sconosciuta => -1
      case MoltoVeloce => 0
      case Veloce => 1
      case Normale => 2
      case Lenta => 3
      case MoltoLenta => 4
    }
  }

  /** `Vendita.velocita_vendita`: unknown before arrival, otherwise the bucket
      of the days to sale with bounds 7 / 30 / 60 / 90. */
  function SaleSpeed(p: Purchase, s: Sale): (v: Speed)
    ensures v == Sconosciuta <==> !Arrived(p)
    ensures Arrived(p) ==>
              var d := s.date - p.deliveryDate.value;
              (v == MoltoVeloce <==> d <= 7)
              && (v == Veloce <==> 7 < d <= 30)
              && (v == Normale <==> 30 < d <= 60)
              && (v == Lenta <==> 60 < d <= 90)
              && (v == MoltoLenta <==> 90 < d)
  {
    match SaleDays(p, s)
    case None => Sconosciuta
    case Some(d) =>
      if d <= 7 then MoltoVeloce
      else if d <= 30 then Veloce
      else if d <= 60 then Normale
      else if d <= 90 then Lenta
      else MoltoLenta
  }

  /** Of two sales from the same arrived batch, the later one is never
      classified faster. */
  lemma SaleSpeedMonotone(p: Purchase, s1: Sale, s2: Sale)
    requires Arrived(p)
    requires s1.date <= s2.date
    ensures 0 <= SaleSpeed(p, s1).Rank() <= SaleSpeed(p, s2).Rank()
  {
  }
}
