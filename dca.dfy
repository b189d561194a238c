/** The dollar-cost-averaging simulator (`calculate_dca`): for each scheduled
    day, the price to buy at, the bitcoin bought with a fixed amount of
    dollars, and the running totals. Prices are a map from day number to
    closing price; dollar and bitcoin amounts are `real`. */
module Dca {
  import opened Calendar
  import opened Sorting
  import opened PurchaseDates

  datatype Option<T> = None | Some(value: T)

  /** One row of the purchase table. */
  datatype Purchase = Purchase(date: int, price: real, amountUsd: real, btcBought: real)

  /** `(total_btc, total_invested, purchases)`. */
  datatype DcaResult = DcaResult(totalBtc: real, totalInvested: real, purchases: seq<Purchase>)

  // ---------------------------------------------------------------------------
  // Which price a day is bought at

  /** `k` is the latest day with a price that is not after `target`. */
  ghost predicate IsLatestOnOrBefore(prices: map<int, real>, target: int, k: int) {
    k in prices && k <= target && forall k' :: k' in prices && k' <= target ==> k' <= k
  }

  /** `k` is the earliest day with a price. */
  ghost predicate IsEarliest(prices: map<int, real>, k: int) {
    k in prices && forall k' :: k' in prices ==> k <= k'
  }

  lemma HasElement(s: set<int>)
    requires s != {}
    ensures exists y :: y in s
  {
    if forall y :: y !in s {
      assert false;
    }
  }

  lemma {:induction false} LargestExists(s: set<int>)
    requires s != {}
    ensures exists m :: m in s && forall x :: x in s ==> x <= m
    decreases |s|
  {
    HasElement(s);
    var y :| y in s;
    if s != {y} {
      LargestExists(s - {y});
      var m :| m in s - {y} && forall x :: x in s - {y} ==> x <= m;
      var top := if y <= m then m else y;
      forall x | x in s ensures x <= top {
        if x != y {
          assert x in s - {y};
        }
      }
    } else {
      assert forall x :: x in s ==> x <= y;
    }
  }

  lemma {:induction false} SmallestExists(s: set<int>)
    requires s != {}
    ensures exists m :: m in s && forall x :: x in s ==> m <= x
    decreases |s|
  {
    HasElement(s);
    var y :| y in s;
    if s != {y} {
      SmallestExists(s - {y});
      var m :| m in s - {y} && forall x :: x in s - {y} ==> m <= x;
      var bottom := if y <= m then y else m;
      forall x | x in s ensures bottom <= x {
        if x != y {
          assert x in s - {y};
        }
      }
    } else {
      assert forall x :: x in s ==> y <= x;
    }
  }

  lemma LatestExists(prices: map<int, real>, target: int)
    requires exists k :: k in prices && k <= target
    ensures exists k :: IsLatestOnOrBefore(prices, target, k)
  {
    var before := set k | k in prices && k <= target;
    var k0 :| k0 in prices && k0 <= target;
    assert k0 in before;
    LargestExists(before);
    var m :| m in before && forall x :: x in before ==> x <= m;
    forall k' | k' in prices && k' <= target ensures k' <= m {
      assert k' in before;
    }
    assert IsLatestOnOrBefore(prices, target, m);
  }

  lemma EarliestExists(prices: map<int, real>)
    requires prices != map[]
    ensures exists k :: IsEarliest(prices, k)
  {
    if forall k :: k !in prices {
      assert false;
    }
    SmallestExists(prices.Keys);
    var m :| m in prices.Keys && forall x :: x in prices.Keys ==> m <= x;
    assert IsEarliest(prices, m);
  }

  /** The price a day is bought at: the price of the latest day with a price
      that is not after it, else (the day is before every known price) the
      earliest price, else (no prices at all) none. */
  ghost function ResolvedPrice(prices: map<int, real>, target: int): Option<real> {
    if exists k :: k in prices && k <= target then
      LatestExists(prices, target);
      var k :| IsLatestOnOrBefore(prices, target, k);
      Some(prices[k])
    else if prices != map[] then
      EarliestExists(prices);
      var k :| IsEarliest(prices, k);
      Some(prices[k])
    else None
  }

  lemma LatestIsUnique(prices: map<int, real>, target: int, k: int)
    requires IsLatestOnOrBefore(prices, target, k)
    ensures ResolvedPrice(prices, target) == Some(prices[k])
  {
  }

  lemma EarliestIsUnique(prices: map<int, real>, target: int, k: int)
    requires IsEarliest(prices, k) && target < k
    ensures ResolvedPrice(prices, target) == Some(prices[k])
  {
  }

  /** A day that has its own price is bought at that price. */
  lemma ExactPriceWins(prices: map<int, real>, target: int)
    requires target in prices
    ensures ResolvedPrice(prices, target) == Some(prices[target])
  {
    LatestIsUnique(prices, target, target);
  }

  /** With a single price in the table, every day resolves to it, whether it
      comes before, on or after that price's day. */
  lemma SinglePriceEverywhere(day: int, price: real, target: int)
    ensures ResolvedPrice(map[day := price], target) == Some(price)
  {
    var prices := map[day := price];
    if day <= target {
      LatestIsUnique(prices, target, day);
    } else {
      EarliestIsUnique(prices, target, day);
    }
  }

  /** Every day resolves to a price exactly when the table is not empty. */
  lemma ResolvesIffPrices(prices: map<int, real>, target: int)
    ensures ResolvedPrice(prices, target).Some? <==> prices != map[]
    ensures ResolvedPrice(prices, target).Some? ==> ResolvedPrice(prices, target).value in prices.Values
  {
  }

  // ---------------------------------------------------------------------------
  // The lookup of `calculate_dca`: sorted keys, exact match, reverse scan, first key

  /** `sorted(bitcoin_prices.keys())`. */
  method SortedKeys(prices: map<int, real>) returns (keys: seq<int>)
    ensures StrictlyIncreasing(keys)
    ensures forall k :: k in keys <==> k in prices
  {
    keys := [];
    var rest := prices.Keys;
    while rest != {}
      invariant rest <= prices.Keys
      invariant StrictlyIncreasing(keys)
      invariant forall k :: k in keys <==> k in prices && k !in rest
      decreases |rest|
    {
      HasElement(rest);
      var k :| k in rest;
      keys := Insert(k, keys);
      rest := rest - {k};
    }
  }

  method LookupPrice(prices: map<int, real>, keys: seq<int>, target: int) returns (price: Option<real>)
    requires StrictlyIncreasing(keys)
    requires forall k :: k in keys <==> k in prices
    ensures price == ResolvedPrice(prices, target)
  {
    price := None;
    if target in prices {
      price := Some(prices[target]);
      ExactPriceWins(prices, target);
    } else {
      var i := |keys|;
      while i > 0
        invariant 0 <= i <= |keys|
        invariant forall j :: i <= j < |keys| ==> keys[j] > target
      {
        i := i - 1;
        if keys[i] <= target {
          price := Some(prices[keys[i]]);
          assert forall k' :: k' in prices && k' <= target ==> k' <= keys[i] by {
            forall k' | k' in prices && k' <= target ensures k' <= keys[i] {
              var j :| 0 <= j < |keys| && keys[j] == k';
            }
          }
          LatestIsUnique(prices, target, keys[i]);
          return;
        }
      }
      assert forall k :: k in prices ==> k > target by {
        forall k | k in prices ensures k > target {
          var j :| 0 <= j < |keys| && keys[j] == k;
        }
      }
    }
    if price.None? && |keys| > 0 {
      price := Some(prices[keys[0]]);
      assert IsEarliest(prices, keys[0]) by {
        forall k | k in prices ensures keys[0] <= k {
          var j :| 0 <= j < |keys| && keys[j] == k;
        }
      }
      EarliestIsUnique(prices, target, keys[0]);
    }
  }

  // ---------------------------------------------------------------------------
  // The purchases and their totals

  /** The purchases the simulation records for `schedule`, in schedule order:
      one per day whose resolved price is positive. */
  ghost function PlannedPurchases(schedule: seq<int>, prices: map<int, real>, amountUsd: real): seq<Purchase> {
    if schedule == [] then []
    else PlannedPurchases(schedule[..|schedule| - 1], prices, amountUsd)
           + PurchaseOn(schedule[|schedule| - 1], prices, amountUsd)
  }

  /** The purchase made on `day`: none unless its resolved price is positive. */
  ghost function PurchaseOn(day: int, prices: map<int, real>, amountUsd: real): seq<Purchase> {
    PurchaseAt(day, ResolvedPrice(prices, day), amountUsd)
  }

  /** The purchase recorded for `day` once its price is known: one purchase
      of `amountUsd / price` bitcoin when there is a positive price, else none. */
  function PurchaseAt(day: int, price: Option<real>, amountUsd: real): (bought: seq<Purchase>)
    ensures |bought| <= 1
    ensures bought != [] <==> price.Some? && price.value > 0.0
    ensures bought != [] ==>
      bought[0].date == day && bought[0].price == price.value && bought[0].amountUsd == amountUsd
    ensures bought != [] ==> bought[0].price * bought[0].btcBought == amountUsd
  {
    if price.Some? && price.value > 0.0 then [Purchase(day, price.value, amountUsd, amountUsd / price.value)] else []
  }

  lemma PlannedPurchasesStep(schedule: seq<int>, n: int, prices: map<int, real>, amountUsd: real)
    requires 0 <= n < |schedule|
    ensures PlannedPurchases(schedule[..n + 1], prices, amountUsd)
      == PlannedPurchases(schedule[..n], prices, amountUsd) + PurchaseOn(schedule[n], prices, amountUsd)
  {
    assert schedule[..n + 1][..n] == schedule[..n];
  }

  lemma TotalsAppend(purchases: seq<Purchase>, p: Purchase)
    ensures TotalBtc(purchases + [p]) == TotalBtc(purchases) + p.btcBought
    ensures TotalInvested(purchases + [p]) == TotalInvested(purchases) + p.amountUsd
  {
    assert (purchases + [p])[..|purchases|] == purchases;
  }

  function TotalBtc(purchases: seq<Purchase>): real {
    if purchases == [] then 0.0
    else TotalBtc(purchases[..|purchases| - 1]) + purchases[|purchases| - 1].btcBought
  }

  function TotalInvested(purchases: seq<Purchase>): real {
    if purchases == [] then 0.0
    else TotalInvested(purchases[..|purchases| - 1]) + purchases[|purchases| - 1].amountUsd
  }

  /** Every purchase spends the same amount, so the amount invested is that
      amount times the number of purchases. */
  lemma {:induction false} InvestedIsAmountTimesCount(purchases: seq<Purchase>, amountUsd: real)
    requires forall p :: p in purchases ==> p.amountUsd == amountUsd
    ensures TotalInvested(purchases) == amountUsd * |purchases| as real
  {
    if purchases != [] {
      var init := purchases[..|purchases| - 1];
      assert forall p :: p in init ==> p in purchases;
      InvestedIsAmountTimesCount(init, amountUsd);
      assert purchases[|purchases| - 1] in purchases;
      var n := |init| as real;
      assert |purchases| as real == n + 1.0;
      assert amountUsd * (n + 1.0) == amountUsd * n + amountUsd;
    }
  }

  function DatesOf(purchases: seq<Purchase>): (dates: seq<int>)
    ensures |dates| == |purchases|
    ensures forall i :: 0 <= i < |purchases| ==> dates[i] == purchases[i].date
  {
    seq(|purchases|, i requires 0 <= i < |purchases| => purchases[i].date)
  }

  /** The body of the loop of `calculate_dca` once the day's price is looked
      up: a purchase when the price is positive, added to the totals. */
  method Record(day: int, price: Option<real>, amountUsd: real,
                totalBtc: real, totalInvested: real, purchases: seq<Purchase>)
    returns (totalBtc': real, totalInvested': real, purchases': seq<Purchase>)
    requires totalBtc == TotalBtc(purchases) && totalInvested == TotalInvested(purchases)
    ensures purchases' == purchases + PurchaseAt(day, price, amountUsd)
    ensures totalBtc' == TotalBtc(purchases') && totalInvested' == TotalInvested(purchases')
  {
    totalBtc', totalInvested', purchases' := totalBtc, totalInvested, purchases;
    if price.Some? && price.value > 0.0 {
      var btcBought := amountUsd / price.value;
      totalBtc' := totalBtc + btcBought;
      totalInvested' := totalInvested + amountUsd;
      var bought := Purchase(day, price.value, amountUsd, btcBought);
      TotalsAppend(purchases, bought);
      purchases' := purchases + [bought];
    } else {
      assert purchases' == purchases + [];
    }
  }

  /** The loop of `calculate_dca` over the schedule. */
  method SimulatePurchases(schedule: seq<int>, prices: map<int, real>, amountUsd: real) returns (result: DcaResult)
    ensures result.purchases == PlannedPurchases(schedule, prices, amountUsd)
    ensures result.totalBtc == TotalBtc(result.purchases)
    ensures result.totalInvested == TotalInvested(result.purchases)
  {
    var totalBtc: real := 0.0;
    var totalInvested: real := 0.0;
    var purchases: seq<Purchase> := [];
    var bitcoinDates := SortedKeys(prices);
    var n := 0;
    while n < |schedule|
      invariant 0 <= n <= |schedule|
      invariant purchases == PlannedPurchases(schedule[..n], prices, amountUsd)
      invariant totalBtc == TotalBtc(purchases)
      invariant totalInvested == TotalInvested(purchases)
    {
      var price := LookupPrice(prices, bitcoinDates, schedule[n]);
      PlannedPurchasesStep(schedule, n, prices, amountUsd);
      totalBtc, totalInvested, purchases := Record(schedule[n], price, amountUsd, totalBtc, totalInvested, purchases);
      n := n + 1;
    }
    assert schedule[..n] == schedule;
    result := DcaResult(totalBtc, totalInvested, purchases);
  }

  /** `calculate_dca`: no prices means no purchases (before the schedule is
      even generated), an empty schedule means no purchases, and otherwise the
      simulation over the schedule. */
  method CalculateDca(start: Date, end: Date, amountUsd: real, frequency: string, dayOfWeek: int,
                      dayOfMonth: int, prices: map<int, real>) returns (r: Result<DcaResult>)
    requires IsValid(start) && IsValid(end)
    ensures prices == map[] ==> r == Ok(DcaResult(0.0, 0.0, []))
    ensures prices != map[] ==> (r.Err? <==> ScheduleRaises(start, end, frequency))
    ensures r.Ok? ==> r.value.totalInvested == TotalInvested(r.value.purchases)
    ensures r.Ok? ==> r.value.totalBtc == TotalBtc(r.value.purchases)
    ensures r.Ok? ==> StrictlyIncreasing(DatesOf(r.value.purchases))
    ensures r.Ok? ==> forall p :: p in r.value.purchases ==>
      IsScheduled(start, end, frequency, dayOfWeek, dayOfMonth, p.date) && WellPriced(p, prices, amountUsd)
    ensures r.Ok? ==> forall x :: x in DatesOf(r.value.purchases) <==>
      IsScheduled(start, end, frequency, dayOfWeek, dayOfMonth, x) && PositivelyPriced(prices, x)
    ensures r.Ok? && amountUsd >= 0.0 ==> r.value.totalBtc >= 0.0
  {
    if prices == map[] {
      return Ok(DcaResult(0.0, 0.0, []));
    }
    var schedule := GetPurchaseDates(start, end, frequency, dayOfWeek, dayOfMonth);
    if schedule.Err? {
      return Err(schedule.error);
    }
    if schedule.value == [] {
      return Ok(DcaResult(0.0, 0.0, []));
    }
    var result := SimulatePurchases(schedule.value, prices, amountUsd);
    PurchasesOnSchedule(start, end, frequency, dayOfWeek, dayOfMonth, schedule.value, prices, amountUsd);
    return Ok(result);
  }

  // ---------------------------------------------------------------------------
  // Properties of the purchases

  /** The price provider's promise: every price is positive. */
  ghost predicate AllPositive(prices: map<int, real>) {
    forall k :: k in prices ==> prices[k] > 0.0
  }

  /** Day `x` resolves to a positive price, so the loop buys on it. */
  ghost predicate PositivelyPriced(prices: map<int, real>, x: int) {
    ResolvedPrice(prices, x).Some? && ResolvedPrice(prices, x).value > 0.0
  }

  /** A purchase bought at its day's resolved price, which is positive, with
      the configured amount, getting amount / price bitcoin. */
  ghost predicate WellPriced(p: Purchase, prices: map<int, real>, amountUsd: real) {
    && ResolvedPrice(prices, p.date) == Some(p.price)
    && p.price > 0.0
    && p.amountUsd == amountUsd
    && p.btcBought == amountUsd / p.price
  }

  /** Every recorded purchase is for a scheduled day, at that day's resolved
      positive price. */
  lemma {:induction false} PurchasesFollowSchedule(schedule: seq<int>, prices: map<int, real>, amountUsd: real)
    ensures forall p :: p in PlannedPurchases(schedule, prices, amountUsd) ==>
      p.date in schedule && WellPriced(p, prices, amountUsd)
  {
    if schedule != [] {
      var init, last := schedule[..|schedule| - 1], schedule[|schedule| - 1];
      PurchasesFollowSchedule(init, prices, amountUsd);
      forall p | p in PlannedPurchases(schedule, prices, amountUsd)
        ensures p.date in schedule && WellPriced(p, prices, amountUsd)
      {
        if p in PlannedPurchases(init, prices, amountUsd) {
          assert p.date in init;
        } else {
          assert p in PurchaseOn(last, prices, amountUsd);
        }
      }
    }
  }

  /** Purchases keep the schedule's order. */
  lemma {:induction false} PurchasesInOrder(schedule: seq<int>, prices: map<int, real>, amountUsd: real)
    requires StrictlyIncreasing(schedule)
    ensures StrictlyIncreasing(DatesOf(PlannedPurchases(schedule, prices, amountUsd)))
  {
    if schedule != [] {
      var init, last := schedule[..|schedule| - 1], schedule[|schedule| - 1];
      var earlier := PlannedPurchases(init, prices, amountUsd);
      PurchasesInOrder(init, prices, amountUsd);
      PurchasesFollowSchedule(init, prices, amountUsd);
      if PurchaseOn(last, prices, amountUsd) != [] {
        var dates := DatesOf(earlier);
        forall i | 0 <= i < |dates| ensures dates[i] < last {
          assert earlier[i] in earlier;
          assert dates[i] in init;
        }
        assert DatesOf(PlannedPurchases(schedule, prices, amountUsd)) == dates + [last];
      } else {
        assert PlannedPurchases(schedule, prices, amountUsd) == earlier;
      }
    }
  }

  /** What the simulation buys, stated against the schedule's definition. */
  lemma PurchasesOnSchedule(start: Date, end: Date, frequency: string, dayOfWeek: int, dayOfMonth: int,
                            schedule: seq<int>, prices: map<int, real>, amountUsd: real)
    requires IsValid(start) && IsValid(end)
    requires StrictlyIncreasing(schedule)
    requires forall x :: x in schedule <==> IsScheduled(start, end, frequency, dayOfWeek, dayOfMonth, x)
    ensures StrictlyIncreasing(DatesOf(PlannedPurchases(schedule, prices, amountUsd)))
    ensures forall p :: p in PlannedPurchases(schedule, prices, amountUsd) ==>
      IsScheduled(start, end, frequency, dayOfWeek, dayOfMonth, p.date) && WellPriced(p, prices, amountUsd)
    ensures forall x :: x in DatesOf(PlannedPurchases(schedule, prices, amountUsd)) <==>
      IsScheduled(start, end, frequency, dayOfWeek, dayOfMonth, x) && PositivelyPriced(prices, x)
    ensures amountUsd >= 0.0 ==> TotalBtc(PlannedPurchases(schedule, prices, amountUsd)) >= 0.0
  {
    PurchasesFollowSchedule(schedule, prices, amountUsd);
    PurchasesInOrder(schedule, prices, amountUsd);
    BoughtDays(schedule, prices, amountUsd);
    if amountUsd >= 0.0 {
      WellPricedBtcNonNegative(PlannedPurchases(schedule, prices, amountUsd), prices, amountUsd);
    }
  }

  lemma DatesOfAppend(a: seq<Purchase>, b: seq<Purchase>)
    ensures DatesOf(a + b) == DatesOf(a) + DatesOf(b)
  {
  }

  /** The days bought are exactly the scheduled days whose resolved price is positive. */
  lemma {:induction false} BoughtDays(schedule: seq<int>, prices: map<int, real>, amountUsd: real)
    ensures forall x :: x in DatesOf(PlannedPurchases(schedule, prices, amountUsd)) <==>
      x in schedule && PositivelyPriced(prices, x)
  {
    if schedule != [] {
      var init, last := schedule[..|schedule| - 1], schedule[|schedule| - 1];
      BoughtDays(init, prices, amountUsd);
      DatesOfAppend(PlannedPurchases(init, prices, amountUsd), PurchaseOn(last, prices, amountUsd));
      assert schedule == init + [last];
      if PositivelyPriced(prices, last) {
        assert DatesOf(PurchaseOn(last, prices, amountUsd)) == [last];
      } else {
        assert PurchaseOn(last, prices, amountUsd) == [];
      }
    }
  }

  /** Purchases at positive prices with a non-negative amount buy non-negative bitcoin. */
  lemma WellPricedBtcNonNegative(purchases: seq<Purchase>, prices: map<int, real>, amountUsd: real)
    requires amountUsd >= 0.0
    requires forall p :: p in purchases ==> WellPriced(p, prices, amountUsd)
    ensures TotalBtc(purchases) >= 0.0
  {
    forall p | p in purchases ensures p.btcBought >= 0.0 {
      assert p.btcBought * p.price == amountUsd;
    }
    TotalBtcNonNegative(purchases);
  }

  /** With positive prices and a non-empty table, every scheduled day is bought. */
  lemma {:induction false} PositivePricesBuyEveryDay(schedule: seq<int>, prices: map<int, real>, amountUsd: real)
    requires prices != map[] && AllPositive(prices)
    ensures DatesOf(PlannedPurchases(schedule, prices, amountUsd)) == schedule
  {
    if schedule != [] {
      var init := schedule[..|schedule| - 1];
      PositivePricesBuyEveryDay(init, prices, amountUsd);
      ResolvesIffPrices(prices, schedule[|schedule| - 1]);
      assert schedule == init + [schedule[|schedule| - 1]];
    }
  }

  /** An empty price table records no purchase. */
  lemma {:induction false} NoPricesNoPurchases(schedule: seq<int>, amountUsd: real)
    ensures PlannedPurchases(schedule, map[], amountUsd) == []
  {
    if schedule != [] {
      NoPricesNoPurchases(schedule[..|schedule| - 1], amountUsd);
    }
  }

  /** With one positive price in the table, every scheduled day is bought at that price. */
  lemma {:induction false} SinglePriceBuysAll(schedule: seq<int>, day: int, price: real, amountUsd: real)
    requires price > 0.0
    ensures |PlannedPurchases(schedule, map[day := price], amountUsd)| == |schedule|
    ensures forall p :: p in PlannedPurchases(schedule, map[day := price], amountUsd) ==>
      p.price == price && p.btcBought == amountUsd / price
  {
    if schedule != [] {
      SinglePriceBuysAll(schedule[..|schedule| - 1], day, price, amountUsd);
      SinglePriceEverywhere(day, price, schedule[|schedule| - 1]);
    }
  }

  /** Buying with a non-negative amount never makes the bitcoin total negative. */
  lemma {:induction false} TotalBtcNonNegative(purchases: seq<Purchase>)
    requires forall p :: p in purchases ==> p.btcBought >= 0.0
    ensures TotalBtc(purchases) >= 0.0
  {
    if purchases != [] {
      var init := purchases[..|purchases| - 1];
      assert forall p :: p in init ==> p in purchases;
      TotalBtcNonNegative(init);
      assert purchases[|purchases| - 1] in purchases;
    }
  }
}
