/** Computed properties of a purchase batch (`Acquisto`, model_nuovo.py:35-227):
    counts, revenue and margin, waiting and stock days, the "problematic"
    predicate with its business-only margin, the textual problem list and the
    0-100 urgency score. "Today" is the explicit parameter `today`. */
module PurchaseMetrics {
  import opened Wrappers
  import opened Text
  import opened Entities
  import opened Valuation
  import opened ItemMetrics

  // ---------------------------------------------------------------------------
  // Counts over the items of a batch
  // ---------------------------------------------------------------------------

  /** `prodotti_venduti`: items with at least one sale. */
  function SoldCount(items: seq<Item>): nat {
    if items == [] then 0 else (if Sold(items[0]) then 1 else 0) + SoldCount(items[1..])
  }

  /** Items with no sale (`prodotti_non_venduti` inside `urgenza_score`). */
  function UnsoldCount(items: seq<Item>): nat {
    if items == [] then 0 else (if Sold(items[0]) then 0 else 1) + UnsoldCount(items[1..])
  }

  /** Every item is either sold or unsold, never both. */
  lemma {:induction false} SoldUnsoldPartition(items: seq<Item>)
    ensures SoldCount(items) + UnsoldCount(items) == |items|
    decreases |items|
  {
    if items != [] {
      SoldUnsoldPartition(items[1..]);
    }
  }

  lemma {:induction false} NoUnsoldMeansAllSold(items: seq<Item>)
    ensures UnsoldCount(items) == 0 <==> forall i :: 0 <= i < |items| ==> Sold(items[i])
    decreases |items|
  {
    if items != [] {
      NoUnsoldMeansAllSold(items[1..]);
      assert forall i :: 1 <= i < |items| ==> items[i] == items[1..][i - 1];
    }
  }

  /** `completamente_venduto`: a non-empty batch whose every item is sold. */
  predicate FullySold(p: Purchase) {
    |p.items| > 0 && forall i :: 0 <= i < |p.items| ==> Sold(p.items[i])
  }

  /** Fully sold means: something was bought and nothing is left in stock; an
      empty batch is never fully sold. */
  lemma FullySoldIffNothingLeft(p: Purchase)
    ensures FullySold(p) <==> |p.items| > 0 && UnsoldCount(p.items) == 0
    ensures FullySold(p) <==> |p.items| > 0 && SoldCount(p.items) == |p.items|
  {
    NoUnsoldMeansAllSold(p.items);
    SoldUnsoldPartition(p.items);
  }

  /** `prodotti_senza_seriali`: items whose serial is absent or a placeholder. */
  function MissingSerialCount(items: seq<Item>): nat {
    if items == [] then 0 else (if LacksSerial(items[0]) then 1 else 0) + MissingSerialCount(items[1..])
  }

  /** Items carrying a serial that is not a whitespace-padded placeholder. */
  ghost function SerialisedCount(items: seq<Item>): nat {
    if items == [] then 0
    else (if items[0].serial.Some? && !PaddedPlaceholder(items[0].serial.value) then 1 else 0) + SerialisedCount(items[1..])
  }

  /** The missing-serial count and the count of items with a real serial
      partition the batch. */
  lemma {:induction false} MissingSerialPartition(items: seq<Item>)
    ensures MissingSerialCount(items) + SerialisedCount(items) == |items|
    decreases |items|
  {
    if items != [] {
      if items[0].serial.Some? {
        PlaceholderIffPadded(items[0].serial.value);
      }
      MissingSerialPartition(items[1..]);
    }
  }

  // ---------------------------------------------------------------------------
  // Revenue and margin of the whole batch
  // ---------------------------------------------------------------------------

  /** Sum of `ItemRevenue` over the sold items only, as `ricavo_totale` does. */
  function RevenueOfSold(items: seq<Item>): real {
    if items == [] then 0.0
    else (if Sold(items[0]) then ItemRevenue(items[0]) else 0.0) + RevenueOfSold(items[1..])
  }

  /** `ricavo_totale`. */
  function TotalRevenue(p: Purchase): real {
    RevenueOfSold(p.items)
  }

  /** `margine_totale`. */
  function TotalMargin(p: Purchase): real {
    TotalRevenue(p) - TotalCost(p)
  }

  /** `margine_percentuale`: the margin as a percentage of the total cost, 0
      when the total cost is 0. */
  function MarginPct(p: Purchase): (pct: real)
    ensures TotalCost(p) == 0.0 ==> pct == 0.0
    ensures TotalCost(p) != 0.0 ==> pct * TotalCost(p) == (TotalRevenue(p) - TotalCost(p)) * 100.0
  {
    if TotalCost(p) == 0.0 then 0.0 else TotalMargin(p) / TotalCost(p) * 100.0
  }

  /** Every sale of every item, in item order. */
  function AllSales(items: seq<Item>): seq<Sale> {
    if items == [] then [] else items[0].sales + AllSales(items[1..])
  }

  /** Restricting the sum to sold items loses nothing: the batch revenue is
      the net revenue of all its sales. */
  lemma {:induction false} RevenueOfSoldIsAllSales(items: seq<Item>)
    ensures RevenueOfSold(items) == SalesRevenue(AllSales(items))
    decreases |items|
  {
    if items != [] {
      RevenueOfSoldIsAllSales(items[1..]);
      SalesRevenueAppend(items[0].sales, AllSales(items[1..]));
    }
  }

  /** A batch with a positive cost shows a non-negative margin percentage
      exactly when its sales brought back at least the cost. */
  lemma MarginPctSign(p: Purchase)
    requires TotalCost(p) > 0.0
    ensures MarginPct(p) >= 0.0 <==> SalesRevenue(AllSales(p.items)) >= TotalCost(p)
  {
    RevenueOfSoldIsAllSales(p.items);
    var c := TotalCost(p);
    var m := MarginPct(p);
    if m >= 0.0 {
      assert m * c >= 0.0;
    } else {
      assert m * c < 0.0;
    }
  }

  // ---------------------------------------------------------------------------
  // Waiting and stock days
  // ---------------------------------------------------------------------------

  /** `giorni_attesa`: undefined once the batch has arrived; otherwise the days
      since payment, or since creation when no payment date is recorded. */
  function WaitingDays(p: Purchase, today: int): (w: Option<int>)
    ensures w.None? <==> Arrived(p)
    ensures !Arrived(p) && p.paymentDate.Some? ==> w.value + p.paymentDate.value == today
    ensures !Arrived(p) && p.paymentDate.None? ==> w.value + p.createdAt == today
  {
    if p.deliveryDate.Some? then None
    else if p.paymentDate.Some? then Some(today - p.paymentDate.value)
    else Some(today - p.createdAt)
  }

  /** `giorni_stock`: days since arrival, undefined before arrival. */
  function StockDays(p: Purchase, today: int): (d: Option<int>)
    ensures d.Some? <==> Arrived(p)
    ensures Arrived(p) ==> d.value + p.deliveryDate.value == today
  {
    if p.deliveryDate.None? then None else Some(today - p.deliveryDate.value)
  }

  /** Waiting and stock days both advance one for one with the calendar. */
  lemma DaysAdvanceWithToday(p: Purchase, today: int, k: int)
    ensures WaitingDays(p, today + k).Some? ==> WaitingDays(p, today + k).value == WaitingDays(p, today).value + k
    ensures StockDays(p, today + k).Some? ==> StockDays(p, today + k).value == StockDays(p, today).value + k
  {
  }

  /** Every unsold item of an arrived batch has been in stock as long as the batch. */
  lemma ItemStockDaysAreBatchStockDays(p: Purchase, i: int, today: int)
    requires 0 <= i < |p.items|
    ensures DaysInStock(p, p.items[i], today) == (if Sold(p.items[i]) then None else StockDays(p, today))
  {
  }

  /** `giorni_stock_medio`: mean days from arrival to sale over every business
      sale of the batch; undefined before arrival, with no sold item, or when
      every sale is a service sale. */
  function AvgStockDays(p: Purchase): Option<real> {
    if p.deliveryDate.None? then None
    else if SoldCount(p.items) == 0 then None
    else
      var sales := AllSales(p.items);
      var count := BusinessSaleCount(sales);
      if count > 0 then Some(Mean(BusinessDayTotal(sales, p.deliveryDate.value), count)) else None
  }

  lemma {:induction false} NoSoldItemNoSales(items: seq<Item>)
    requires SoldCount(items) == 0
    ensures AllSales(items) == []
    decreases |items|
  {
    if items != [] {
      NoSoldItemNoSales(items[1..]);
    }
  }

  /** The batch mean lies between the earliest and latest business sale date,
      measured from arrival, and is defined exactly when the batch arrived and
      has a business sale. */
  lemma AvgStockDaysWithin(p: Purchase, lo: int, hi: int)
    requires BusinessDatesWithin(AllSales(p.items), lo, hi)
    ensures AvgStockDays(p).Some? <==> Arrived(p) && BusinessSaleCount(AllSales(p.items)) > 0
    ensures AvgStockDays(p).Some? ==>
              var arrival := p.deliveryDate.value;
              (lo - arrival) as real <= AvgStockDays(p).value <= (hi - arrival) as real
  {
    var sales := AllSales(p.items);
    if SoldCount(p.items) == 0 {
      NoSoldItemNoSales(p.items);
    }
    if AvgStockDays(p).Some? {
      var arrival := p.deliveryDate.value;
      BusinessDayTotalBounds(sales, arrival, lo, hi);
      MeanWithin(BusinessDayTotal(sales, arrival), BusinessSaleCount(sales), lo - arrival, hi - arrival);
    }
  }

  // ---------------------------------------------------------------------------
  // Business-only margin and the "problematic" predicate
  // ---------------------------------------------------------------------------

  /** Net revenue of the sales that are not on the service channel. */
  function BusinessSalesRevenue(sales: seq<Sale>): real {
    if sales == [] then 0.0
    else (if IsServiceSale(sales[0]) then 0.0 else NetRevenue(sales[0])) + BusinessSalesRevenue(sales[1..])
  }

  /** `ricavi_business`: business sale revenue over the items with sales. */
  function BusinessRevenue(items: seq<Item>): real {
    if items == [] then 0.0
    else (if Sold(items[0]) then BusinessSalesRevenue(items[0].sales) else 0.0) + BusinessRevenue(items[1..])
  }

  /** `len(prodotti_business)`: items with no service sale (sold or not). */
  function BusinessItemCount(items: seq<Item>): nat {
    if items == [] then 0 else (if IsServiceItem(items[0]) then 0 else 1) + BusinessItemCount(items[1..])
  }

  lemma {:induction false} BusinessItemCountBound(items: seq<Item>)
    ensures BusinessItemCount(items) <= |items|
    decreases |items|
  {
    if items != [] {
      BusinessItemCountBound(items[1..]);
    }
  }

  /** `investimento_business`: the full-batch unit cost times the number of
      business items; the cost is not re-divided over the business subset. */
  function BusinessInvestment(p: Purchase): real {
    UnitCost(p) * (BusinessItemCount(p.items) as real)
  }

  /** The business investment is the business items' share of the total cost:
      `investment * items == total * business items`. */
  lemma BusinessInvestmentIsShare(p: Purchase)
    ensures BusinessInvestment(p) * (|p.items| as real) == TotalCost(p) * (BusinessItemCount(p.items) as real)
  {
    BusinessItemCountBound(p.items);
    var n := |p.items| as real;
    var b := BusinessItemCount(p.items) as real;
    if |p.items| > 0 {
      assert UnitCost(p) * n == TotalCost(p);
      assert BusinessInvestment(p) * n == UnitCost(p) * n * b;
    }
  }

  /** The business margin percentage of `problematico`, defined when there is a
      positive business investment. */
  function BusinessMarginPct(p: Purchase): real
    requires BusinessInvestment(p) > 0.0
  {
    (BusinessRevenue(p.items) - BusinessInvestment(p)) / BusinessInvestment(p) * 100.0
  }

  /** The `margine_basso` condition: some item sold, there are business items,
      a positive business investment and a business margin under 25%. */
  predicate LowMargin(p: Purchase) {
    && SoldCount(p.items) > 0
    && BusinessItemCount(p.items) > 0
    && BusinessInvestment(p) > 0.0
    && BusinessMarginPct(p) < 25.0
  }

  /** Low margin means the business sales brought back less than the business
      share of the cost plus a quarter. */
  lemma LowMarginMeansUnderQuarterMarkup(p: Purchase)
    requires SoldCount(p.items) > 0 && BusinessItemCount(p.items) > 0 && BusinessInvestment(p) > 0.0
    ensures LowMargin(p) <==> BusinessRevenue(p.items) < BusinessInvestment(p) * 1.25
  {
    var inv := BusinessInvestment(p);
    var rev := BusinessRevenue(p.items);
    PercentAtLeast(rev - inv, inv, 25.0);
  }

  /** An item consumed internally whose every sale is a service sale, as the
      importer creates it. */
  predicate PureServiceItem(it: Item) {
    |it.sales| > 0 && forall k :: 0 <= k < |it.sales| ==> IsServiceSale(it.sales[k])
  }

  lemma {:induction false} ServiceSalesEarnNoBusinessRevenue(sales: seq<Sale>)
    requires forall k :: 0 <= k < |sales| ==> IsServiceSale(sales[k])
    ensures BusinessSalesRevenue(sales) == 0.0
    decreases |sales|
  {
    if sales != [] {
      assert forall k :: 0 <= k < |sales[1..]| ==> sales[1..][k] == sales[k + 1];
      ServiceSalesEarnNoBusinessRevenue(sales[1..]);
    }
  }

  lemma {:induction false} BusinessAppend(a: seq<Item>, b: seq<Item>)
    ensures BusinessRevenue(a + b) == BusinessRevenue(a) + BusinessRevenue(b)
    ensures BusinessItemCount(a + b) == BusinessItemCount(a) + BusinessItemCount(b)
    decreases |a|
  {
    if a == [] {
      assert a + b == b;
    } else {
      assert (a + b)[1..] == a[1..] + b;
      BusinessAppend(a[1..], b);
    }
  }

  /** Adding an item consumed internally to a batch leaves the business revenue
      and the business item count alone, but the batch cost is now split over
      one more item, so the business investment shrinks by the factor n/(n+1). */
  lemma AddingServiceItem(p: Purchase, it: Item)
    requires PureServiceItem(it)
    ensures var q := p.(items := p.items + [it]);
            && BusinessRevenue(q.items) == BusinessRevenue(p.items)
            && BusinessItemCount(q.items) == BusinessItemCount(p.items)
            && BusinessInvestment(q) * ((|p.items| + 1) as real) == BusinessInvestment(p) * (|p.items| as real)
  {
    var q := p.(items := p.items + [it]);
    ServiceItemKeepsBusiness(p.items, it);
    calc {
      BusinessInvestment(q) * ((|p.items| + 1) as real);
      { assert |q.items| == |p.items| + 1; }
      BusinessInvestment(q) * (|q.items| as real);
      { BusinessInvestmentIsShare(q); }
      TotalCost(q) * (BusinessItemCount(q.items) as real);
      { assert TotalCost(q) == TotalCost(p); }
      TotalCost(p) * (BusinessItemCount(p.items) as real);
      { BusinessInvestmentIsShare(p); }
      BusinessInvestment(p) * (|p.items| as real);
    }
  }

  /** Appending an item consumed internally adds no business revenue and no
      business item. */
  lemma ServiceItemKeepsBusiness(items: seq<Item>, it: Item)
    requires PureServiceItem(it)
    ensures BusinessRevenue(items + [it]) == BusinessRevenue(items)
    ensures BusinessItemCount(items + [it]) == BusinessItemCount(items)
  {
    BusinessAppend(items, [it]);
    ServiceSalesEarnNoBusinessRevenue(it.sales);
    assert IsServiceItem(it) by {
      assert IsServiceSale(it.sales[0]);
    }
    assert BusinessRevenue([it]) == 0.0;
    assert BusinessItemCount([it]) == 0;
  }

  /** The reasons `problematico` collects, in the order it collects them. */
  datatype ProblemTag = ReportedProblem | NotArrived | WithoutSerials | SlowSale | LowMarginTag

  /** `vendita_lenta`: arrived more than 30 days ago and not fully sold. */
  predicate SellsSlowly(p: Purchase, today: int) {
    p.deliveryDate.Some? && !FullySold(p) && today - p.deliveryDate.value > 30
  }

  /** The tags whose conditions hold, in collection order, each at most once. */
  function CollectTags(reported: bool, notArrived: bool, noSerials: bool, slow: bool, low: bool): (r: seq<ProblemTag>)
    ensures ReportedProblem in r <==> reported
    ensures NotArrived in r <==> notArrived
    ensures WithoutSerials in r <==> noSerials
    ensures SlowSale in r <==> slow
    ensures LowMarginTag in r <==> low
    ensures forall i, j :: 0 <= i < j < |r| ==> r[i] != r[j]
  {
    (if reported then [ReportedProblem] else [])
    + (if notArrived then [NotArrived] else [])
    + (if noSerials then [WithoutSerials] else [])
    + (if slow then [SlowSale] else [])
    + (if low then [LowMarginTag] else [])
  }

  /** The list `problemi` built by `problematico`. */
  function ProblemTags(p: Purchase, today: int): (r: seq<ProblemTag>)
    ensures ReportedProblem in r <==> p.problemReported
    ensures NotArrived in r <==> !Arrived(p)
    ensures WithoutSerials in r <==> MissingSerialCount(p.items) > 0
    ensures SlowSale in r <==> SellsSlowly(p, today)
    ensures LowMarginTag in r <==> LowMargin(p)
    ensures forall i, j :: 0 <= i < j < |r| ==> r[i] != r[j]
  {
    CollectTags(p.problemReported, p.deliveryDate.None?, MissingSerialCount(p.items) > 0, SellsSlowly(p, today), LowMargin(p))
  }

  /** `problematico`: at least one reason was collected. */
  predicate Problematic(p: Purchase, today: int) {
    |ProblemTags(p, today)| > 0
  }

  /** A batch is problematic exactly when a problem was reported, it has not
      arrived, an item lacks a serial, it sells slowly, or its business margin
      is low. */
  lemma ProblematicIff(p: Purchase, today: int)
    ensures Problematic(p, today) <==>
              p.problemReported || !Arrived(p) || MissingSerialCount(p.items) > 0 || SellsSlowly(p, today) || LowMargin(p)
  {
    var r := ProblemTags(p, today);
    if |r| > 0 {
      assert r[0] in r;
    }
  }

  // ---------------------------------------------------------------------------
  // The textual problem list
  // ---------------------------------------------------------------------------

  /** The entries of `problemi_list`. */
  datatype Issue = Reported(kind: string) | NotYetArrived | MissingSerials(count: nat) | VerySlowSelling | SlowSelling

  /** The text `problemi_list` shows for an entry. */
  function IssueText(i: Issue): string {
    match i
    case Reported(kind) => Title(ReplaceChar(kind, '_', ' '))
    case NotYetArrived => "Non arrivato"
    case MissingSerials(n) => NatToString(n) + " senza seriali"
    case VerySlowSelling => "Vendita molto lenta"
    case SlowSelling => "Vendita lenta"
  }

  /** The missing-serial entry spells out the count it carries. */
  lemma MissingSerialsTextNamesCount(n: nat)
    ensures var t := IssueText(MissingSerials(n));
            |t| > 14 && AllDigits(t[..|t| - 14]) && DigitsValue(t[..|t| - 14]) == n && t[|t| - 14..] == " senza seriali"
  {
    var t := IssueText(MissingSerials(n));
    assert t[..|t| - 14] == NatToString(n);
    NatToStringRoundTrip(n);
  }

  /** The slow-sale entry for a batch `days` after arrival, if any. */
  function SlowEntry(days: int): (r: seq<Issue>)
    ensures |r| <= 1
    ensures VerySlowSelling in r <==> days > 60
    ensures SlowSelling in r <==> 30 < days <= 60
    ensures forall i :: i in r ==> i.VerySlowSelling? || i.SlowSelling?
  {
    if days > 60 then [VerySlowSelling] else if days > 30 then [SlowSelling] else []
  }

  /** Position of an entry's kind in the order `problemi_list` appends them:
      reported problem, not arrived, missing serials, slow sale. */
  function IssueRank(i: Issue): nat {
    match i
    case Reported(_) => 0
    case NotYetArrived => 1
    case MissingSerials(_) => 2
    case VerySlowSelling => 3
    case SlowSelling => 3
  }

  /** Entries listed in strictly increasing rank. */
  predicate Ascending(r: seq<Issue>) {
    forall i, j :: 0 <= i < j < |r| ==> IssueRank(r[i]) < IssueRank(r[j])
  }

  /** Two ascending lists, every rank of the first under `k` and every rank of
      the second at least `k`, concatenate to an ascending list. */
  lemma AscendingConcat(x: seq<Issue>, y: seq<Issue>, k: nat)
    requires Ascending(x) && Ascending(y)
    requires forall i :: 0 <= i < |x| ==> IssueRank(x[i]) < k
    requires forall i :: 0 <= i < |y| ==> k <= IssueRank(y[i])
    ensures Ascending(x + y)
  {
  }

  /** The entries for the given conditions, in the order `problemi_list`
      appends them. */
  function CollectIssues(kind: Option<string>, notArrived: bool, missing: nat, slow: seq<Issue>): (r: seq<Issue>)
    requires |slow| <= 1 && forall i :: i in slow ==> i.VerySlowSelling? || i.SlowSelling?
    ensures |r| <= 4
    ensures (exists k :: Reported(k) in r) <==> kind.Some?
    ensures NotYetArrived in r <==> notArrived
    ensures (exists n :: MissingSerials(n) in r) <==> missing > 0
    ensures forall n :: MissingSerials(n) in r ==> n == missing
    ensures VerySlowSelling in r <==> VerySlowSelling in slow
    ensures SlowSelling in r <==> SlowSelling in slow
  {
    var a := if kind.Some? then [Reported(kind.value)] else [];
    var b := if notArrived then [NotYetArrived] else [];
    var c := if missing > 0 then [MissingSerials(missing)] else [];
    assert kind.Some? ==> Reported(kind.value) in a;
    assert missing > 0 ==> MissingSerials(missing) in c;
    a + b + c + slow
  }

  /** The collected entries come in the fixed order reported problem, not
      arrived, missing serials, slow sale; hence no entry repeats, and a
      reported entry carries the given kind. */
  lemma CollectIssuesOrdered(kind: Option<string>, notArrived: bool, missing: nat, slow: seq<Issue>)
    requires |slow| <= 1 && forall i :: i in slow ==> i.VerySlowSelling? || i.SlowSelling?
    ensures var r := CollectIssues(kind, notArrived, missing, slow);
            && Ascending(r)
            && (forall i, j :: 0 <= i < j < |r| ==> r[i] != r[j])
            && (forall k :: Reported(k) in r ==> kind == Some(k))
  {
    var a := if kind.Some? then [Reported(kind.value)] else [];
    var b := if notArrived then [NotYetArrived] else [];
    var c := if missing > 0 then [MissingSerials(missing)] else [];
    var r := CollectIssues(kind, notArrived, missing, slow);
    assert r == a + b + c + slow;
    assert forall i :: 0 <= i < |slow| ==> slow[i] in slow;
    RankedPartsAscending(a, b, c, slow);
    AscendingDistinct(r);
    ReportedFromFirstPart(kind, b, c, slow);
  }

  /** Only the first part can hold a reported entry, so each one in the whole
      list carries `kind`. */
  lemma ReportedFromFirstPart(kind: Option<string>, b: seq<Issue>, c: seq<Issue>, d: seq<Issue>)
    requires forall i :: 0 <= i < |b| ==> !b[i].Reported?
    requires forall i :: 0 <= i < |c| ==> !c[i].Reported?
    requires forall i :: 0 <= i < |d| ==> !d[i].Reported?
    ensures var r := (if kind.Some? then [Reported(kind.value)] else []) + b + c + d;
            forall k :: Reported(k) in r ==> kind == Some(k)
  {
    var a := if kind.Some? then [Reported(kind.value)] else [];
    var r := a + b + c + d;
    forall k | Reported(k) in r
      ensures kind == Some(k)
    {
      var i :| 0 <= i < |r| && r[i] == Reported(k);
      assert i < |a|;
    }
  }

  /** At most one entry of each rank 0, 1, 2 and 3, put in that order, are
      ascending. */
  lemma RankedPartsAscending(a: seq<Issue>, b: seq<Issue>, c: seq<Issue>, d: seq<Issue>)
    requires |a| <= 1 && |b| <= 1 && |c| <= 1 && |d| <= 1
    requires forall i :: 0 <= i < |a| ==> IssueRank(a[i]) == 0
    requires forall i :: 0 <= i < |b| ==> IssueRank(b[i]) == 1
    requires forall i :: 0 <= i < |c| ==> IssueRank(c[i]) == 2
    requires forall i :: 0 <= i < |d| ==> IssueRank(d[i]) == 3
    ensures Ascending(a + b + c + d)
  {
    AscendingConcat(a, b, 1);
    AscendingConcat(a + b, c, 2);
    AscendingConcat(a + b + c, d, 3);
  }

  /** Strictly increasing ranks rule out a repeated entry. */
  lemma AscendingDistinct(r: seq<Issue>)
    requires Ascending(r)
    ensures forall i, j :: 0 <= i < j < |r| ==> r[i] != r[j]
  {
  }

  /** `problemi_list`, as entries. */
  function ProblemList(p: Purchase, today: int): (r: seq<Issue>)
    ensures |r| <= 4
    ensures (exists k :: Reported(k) in r) <==> p.problemReported && p.problemKind.Some? && p.problemKind.value != []
    ensures NotYetArrived in r <==> !Arrived(p) && !p.problemReported
    ensures (exists n :: MissingSerials(n) in r) <==> MissingSerialCount(p.items) > 0
    ensures forall n :: MissingSerials(n) in r ==> n == MissingSerialCount(p.items)
    ensures VerySlowSelling in r <==> Arrived(p) && !FullySold(p) && today - p.deliveryDate.value > 60
    ensures SlowSelling in r <==> Arrived(p) && !FullySold(p) && 30 < today - p.deliveryDate.value <= 60
  {
    var kind := if p.problemReported && p.problemKind.Some? && p.problemKind.value != [] then p.problemKind else None;
    var slow := if p.deliveryDate.Some? && !FullySold(p) then SlowEntry(today - p.deliveryDate.value) else [];
    CollectIssues(kind, p.deliveryDate.None? && !p.problemReported, MissingSerialCount(p.items), slow)
  }

  /** `problemi_list` appends its entries in a fixed order: the reported
      problem with its own kind, then not arrived, then the missing serials,
      then one slow-sale entry; no entry appears twice. */
  lemma ProblemListOrdered(p: Purchase, today: int)
    ensures var r := ProblemList(p, today);
            && Ascending(r)
            && (forall i, j :: 0 <= i < j < |r| ==> r[i] != r[j])
            && (forall k :: Reported(k) in r ==> p.problemKind == Some(k))
  {
    var kind := if p.problemReported && p.problemKind.Some? && p.problemKind.value != [] then p.problemKind else None;
    var slow := if p.deliveryDate.Some? && !FullySold(p) then SlowEntry(today - p.deliveryDate.value) else [];
    CollectIssuesOrdered(kind, p.deliveryDate.None? && !p.problemReported, MissingSerialCount(p.items), slow);
  }

  /** `problemi_list` rendered as text. */
  function ProblemTexts(p: Purchase, today: int): seq<string> {
    var issues := ProblemList(p, today);
    seq(|issues|, i requires 0 <= i < |issues| => IssueText(issues[i]))
  }

  /** Whatever the problem list shows, `problematico` holds too; the converse
      fails, for a low margin or a reported problem without a kind is not listed. */
  lemma ListedImpliesProblematic(p: Purchase, today: int)
    requires |ProblemList(p, today)| > 0
    ensures Problematic(p, today)
  {
    var r := ProblemList(p, today);
    ProblematicIff(p, today);
    assert r[0] in r;
    match r[0]
    case Reported(k) =>
    case NotYetArrived =>
    case MissingSerials(n) =>
    case VerySlowSelling =>
    case SlowSelling =>
  }

  // ---------------------------------------------------------------------------
  // Urgency score
  // ---------------------------------------------------------------------------

  /** Base 50 for a reported problem plus the bonus of its kind. */
  function ReportTerm(p: Purchase): nat {
    var bonus :=
      if p.problemKind == Some("pacco_perso") || p.problemKind == Some("prodotti_danneggiati") then 30
      else if p.problemKind == Some("prodotti_non_conformi") || p.problemKind == Some("problema_venditore") then 20
      else if p.problemKind == Some("ritardo_consegna") then 15
      else 0;
    if p.problemReported then 50 + bonus else 0
  }

  /** The not-arrived term, only when no problem is reported. */
  function WaitingTerm(p: Purchase, today: int): nat {
    if p.deliveryDate.Some? || p.problemReported then 0
    else
      var w := WaitingDays(p, today).GetOr(0);
      if w > 21 then 40 else if w > 14 then 30 else if w > 7 then 20 else 0
  }

  function Min(a: int, b: int): int {
    if a <= b then a else b
  }

  /** Ten points per item without serial, at most 30. */
  function SerialTerm(p: Purchase): nat {
    var missing := MissingSerialCount(p.items);
    if missing > 0 then Min(30, missing * 10) else 0
  }

  /** Slow-sale penalty: ten points per full 15 days beyond 30 days in stock,
      at most 30, for an arrived batch that still has an unsold item. */
  function SlowTerm(p: Purchase, today: int): nat {
    match StockDays(p, today)
    case None => 0
    case Some(days) =>
      if days != 0 && days > 30 && !FullySold(p) && UnsoldCount(p.items) > 0 then Min(30, (days - 30) / 15 * 10) else 0
  }

  /** `urgenza_score`: the sum of the four terms, capped at 100. */
  function UrgencyScore(p: Purchase, today: int): (score: int)
    ensures 0 <= score <= 100
    ensures score <= ReportTerm(p) + WaitingTerm(p, today) + SerialTerm(p) + SlowTerm(p, today)
    ensures score == 100 || score == ReportTerm(p) + WaitingTerm(p, today) + SerialTerm(p) + SlowTerm(p, today)
  {
    Min(100, ReportTerm(p) + WaitingTerm(p, today) + SerialTerm(p) + SlowTerm(p, today))
  }

  /** A lost or damaged parcel with every serial present and no slow-sale
      penalty (not arrived, empty, fully sold, or in stock under 45 days) scores
      exactly 50 + 30 = 80, however long it has been waiting. */
  lemma LostParcelScoresEighty(p: Purchase, today: int)
    requires p.problemReported
    requires p.problemKind == Some("pacco_perso") || p.problemKind == Some("prodotti_danneggiati")
    requires MissingSerialCount(p.items) == 0
    requires p.deliveryDate.None? || |p.items| == 0 || FullySold(p) || today - p.deliveryDate.value < 45
    ensures UrgencyScore(p, today) == 80
  {
    assert ReportTerm(p) == 80;
    assert WaitingTerm(p, today) == 0;
    assert SerialTerm(p) == 0;
    NoSlowPenaltyBefore45Days(p, today);
  }

  /** A batch not arrived, empty, fully sold, or in stock under 45 days
      carries no slow-sale penalty. */
  lemma NoSlowPenaltyBefore45Days(p: Purchase, today: int)
    requires p.deliveryDate.None? || |p.items| == 0 || FullySold(p) || today - p.deliveryDate.value < 45
    ensures SlowTerm(p, today) == 0
  {
    if p.deliveryDate.Some? && |p.items| > 0 && !FullySold(p) {
      var days := today - p.deliveryDate.value;
      assert StockDays(p, today) == Some(days);
      assert days <= 30 || (days - 30) / 15 == 0;
    }
  }

  /** With a reported problem the not-arrived term is never added: the score
      does not depend on the payment or creation date. */
  lemma ReportedIgnoresWaiting(p: Purchase, today: int, paid: Option<int>, created: int)
    requires p.problemReported
    ensures WaitingTerm(p, today) == 0
    ensures UrgencyScore(p, today) == UrgencyScore(p.(paymentDate := paid, createdAt := created), today)
  {
    var q := p.(paymentDate := paid, createdAt := created);
    assert WaitingTerm(q, today) == 0;
    assert ReportTerm(q) == ReportTerm(p);
    assert SerialTerm(q) == SerialTerm(p);
    assert StockDays(q, today) == StockDays(p, today);
    assert FullySold(q) == FullySold(p);
    assert SlowTerm(q, today) == SlowTerm(p, today);
  }

  /** While a batch without reported problem is in transit, its urgency never
      drops as the days go by. */
  lemma UrgencyGrowsWhileWaiting(p: Purchase, today: int, later: int)
    requires !Arrived(p) && !p.problemReported
    requires today <= later
    ensures UrgencyScore(p, today) <= UrgencyScore(p, later)
  {
  }

  /** For an arrived batch without reported problem that is empty, fully sold
      or in stock under 45 days the score is driven by the serials alone: ten
      points per item without serial, at most 30. */
  lemma SerialsAloneDriveScore(p: Purchase, today: int)
    requires !p.problemReported && Arrived(p)
    requires |p.items| == 0 || FullySold(p) || today - p.deliveryDate.value < 45
    ensures UrgencyScore(p, today) == Min(30, 10 * MissingSerialCount(p.items))
  {
    assert ReportTerm(p) == 0;
    assert WaitingTerm(p, today) == 0;
    NoSlowPenaltyBefore45Days(p, today);
  }

  /** Dropping the serial of one item that had a real one never lowers the
      score and raises it by at most ten points. */
  lemma LosingASerialRaisesScore(p: Purchase, i: int, today: int)
    requires 0 <= i < |p.items| && !LacksSerial(p.items[i])
    ensures var q := p.(items := p.items[i := p.items[i].(serial := None)]);
            UrgencyScore(p, today) <= UrgencyScore(q, today) <= UrgencyScore(p, today) + 10
  {
    var it := p.items[i].(serial := None);
    var q := p.(items := p.items[i := it]);
    CountsAfterUpdate(p.items, i, it);
    SameStockSameTerms(p, q.items, today);
    ScoreFollowsOneMoreMissing(p, q, today);
  }

  /** With every other term equal, one more item without serial moves the
      score up by at most ten points. */
  lemma ScoreFollowsOneMoreMissing(p: Purchase, q: Purchase, today: int)
    requires MissingSerialCount(q.items) == MissingSerialCount(p.items) + 1
    requires ReportTerm(q) == ReportTerm(p) && WaitingTerm(q, today) == WaitingTerm(p, today)
    requires SlowTerm(q, today) == SlowTerm(p, today)
    ensures UrgencyScore(p, today) <= UrgencyScore(q, today) <= UrgencyScore(p, today) + 10
  {
    assert SerialTerm(p) <= SerialTerm(q) <= SerialTerm(p) + 10;
  }

  /** Items replaced by as many with the same unsold count leave every term
      but the serial one alone. */
  lemma SameStockSameTerms(p: Purchase, items: seq<Item>, today: int)
    requires |items| == |p.items| && UnsoldCount(items) == UnsoldCount(p.items)
    ensures var q := p.(items := items);
            && ReportTerm(q) == ReportTerm(p)
            && WaitingTerm(q, today) == WaitingTerm(p, today)
            && SlowTerm(q, today) == SlowTerm(p, today)
  {
    var q := p.(items := items);
    FullySoldIffNothingLeft(p);
    FullySoldIffNothingLeft(q);
    assert FullySold(q) == FullySold(p);
    assert StockDays(q, today) == StockDays(p, today);
  }

  /** Replacing one item by one with the same sales keeps the unsold count and
      moves the missing-serial count by the change at that position. */
  lemma CountsAfterUpdate(items: seq<Item>, i: int, it: Item)
    requires 0 <= i < |items| && it.sales == items[i].sales
    ensures UnsoldCount(items[i := it]) == UnsoldCount(items)
    ensures MissingSerialCount(items[i := it]) + (if LacksSerial(items[i]) then 1 else 0)
            == MissingSerialCount(items) + (if LacksSerial(it) then 1 else 0)
  {
    UnsoldAfterUpdate(items, i, it);
    MissingAfterUpdate(items, i, it);
  }

  lemma {:induction false} UnsoldAfterUpdate(items: seq<Item>, i: int, it: Item)
    requires 0 <= i < |items| && it.sales == items[i].sales
    ensures UnsoldCount(items[i := it]) == UnsoldCount(items)
    decreases |items|
  {
    var u := items[i := it];
    if i > 0 {
      assert u[0] == items[0];
      assert u[1..] == items[1..][i - 1 := it];
      UnsoldAfterUpdate(items[1..], i - 1, it);
    } else {
      assert u[1..] == items[1..];
      assert Sold(u[0]) == Sold(items[0]);
    }
  }

  lemma {:induction false} MissingAfterUpdate(items: seq<Item>, i: int, it: Item)
    requires 0 <= i < |items|
    ensures MissingSerialCount(items[i := it]) + (if LacksSerial(items[i]) then 1 else 0)
            == MissingSerialCount(items) + (if LacksSerial(it) then 1 else 0)
    decreases |items|
  {
    var u := items[i := it];
    if i > 0 {
      assert u[0] == items[0];
      assert u[1..] == items[1..][i - 1 := it];
      MissingAfterUpdate(items[1..], i - 1, it);
    } else {
      assert u[1..] == items[1..];
    }
  }
}
