/** Broker order prioritisation: the expected-profit estimate, the split of
    orders into priority-client and regular groups, the per-mode ordering of
    each group, and the two entry points that pick orders for pricing and for
    committing. */
module Prioritization {
  import opened Wrappers
  import opened Ints
  import opened Sorting

  /** The parts of an order request the prioritisation reads. */
  datatype OrderRequest = OrderRequest(
    clientAddress: Address,
    expiry: u64,
    maxPrice: u256,
    totalCycles: Option<u64>)

  /** The market configuration entries the prioritisation reads.
      `mcyclePrice` is the outcome of parsing the configured ether amount:
      `None` when it does not parse. */
  datatype MarketConf = MarketConf(
    mcyclePrice: Option<u256>,
    lockinGasEstimate: u64,
    fulfillGasEstimate: u64,
    groth16VerifyGasEstimate: u64)

  datatype UnifiedPriorityMode = Random | TimeOrdered | ShortestExpiry | HighestExpectedValue

  datatype OrderPricingPriority = Random | ObservationTime | ShortestExpiry | HighestExpectedValue

  datatype OrderCommitmentPriority = Random | ShortestExpiry | HighestExpectedValue

  function FromPricing(p: OrderPricingPriority): UnifiedPriorityMode
  {
    match p
    case Random => UnifiedPriorityMode.Random
    case ObservationTime => UnifiedPriorityMode.TimeOrdered
    case ShortestExpiry => UnifiedPriorityMode.ShortestExpiry
    case HighestExpectedValue => UnifiedPriorityMode.HighestExpectedValue
  }

  function FromCommitment(p: OrderCommitmentPriority): UnifiedPriorityMode
  {
    match p
    case Random => UnifiedPriorityMode.Random
    case ShortestExpiry => UnifiedPriorityMode.ShortestExpiry
    case HighestExpectedValue => UnifiedPriorityMode.HighestExpectedValue
  }

  /** The random numbers a shuffle consumes; the first sequence serves the
      first `sort_by_mode` call of a prioritisation, the second the second. */
  datatype RandomDraws = RandomDraws(first: seq<nat>, second: seq<nat>)

  // ---------------------------------------------------------------------------
  // Expected profit
  // ---------------------------------------------------------------------------

  const CYCLES_PER_MCYCLE: nat := 1_000_000
  /** `parse_ether("0.00001")` in wei. */
  const DEFAULT_MCYCLE_PRICE_WEI: u256 := 10_000_000_000_000
  /** 20 gwei. */
  const GAS_PRICE_WEI: u256 := 20_000_000_000
  /** `calculate_success_probability` is the constant 1.0. */
  const SUCCESS_PROBABILITY: u256 := 1

  function ProvingCost(totalCycles: Option<u64>, mcyclePrice: u256): u256
  {
    match totalCycles
    case Some(cycles) => WrappingMul(mcyclePrice, cycles / CYCLES_PER_MCYCLE)
    case None => 0
  }

  function GasCost(lockinGas: u64, fulfillGas: u64, verifyGas: u64, gasPrice: u256): u256
  {
    WrappingMul(lockinGas + fulfillGas + verifyGas, gasPrice)
  }

  /** `calculate_expected_profit`: revenue minus proving and gas costs,
      saturating at zero, in `U256` arithmetic. */
  function ExpectedProfit(order: OrderRequest, mcyclePrice: u256, gasPrice: u256,
                          lockinGas: u64, fulfillGas: u64, verifyGas: u64): (r: u256)
    ensures r <= order.maxPrice
  {
    var totalCost := WrappingAdd(ProvingCost(order.totalCycles, mcyclePrice),
                                 GasCost(lockinGas, fulfillGas, verifyGas, gasPrice));
    TimesOne(SaturatingSub(order.maxPrice, totalCost));
    WrappingMul(SaturatingSub(order.maxPrice, totalCost), SUCCESS_PROBABILITY)
  }

  lemma TimesOne(x: u256)
    ensures WrappingMul(x, SUCCESS_PROBABILITY) == x
  {
  }

  /** The cost as an unbounded integer. */
  function ExactCost(order: OrderRequest, mcyclePrice: u256, gasPrice: u256,
                     lockinGas: u64, fulfillGas: u64, verifyGas: u64): nat
  {
    (match order.totalCycles
     case Some(cycles) => mcyclePrice * (cycles / CYCLES_PER_MCYCLE)
     case None => 0)
    + (lockinGas + fulfillGas + verifyGas) * gasPrice
  }

  /** Whenever the cost fits in 256 bits, the expected profit is the maximum
      price minus `mcyclePrice * floor(cycles / 10^6) + total gas * gasPrice`,
      floored at zero. */
  lemma ProfitIsFlooredMargin(order: OrderRequest, mcyclePrice: u256, gasPrice: u256,
                              lockinGas: u64, fulfillGas: u64, verifyGas: u64)
    requires ExactCost(order, mcyclePrice, gasPrice, lockinGas, fulfillGas, verifyGas) < U256_LIMIT
    ensures var cost := ExactCost(order, mcyclePrice, gasPrice, lockinGas, fulfillGas, verifyGas);
            var r := ExpectedProfit(order, mcyclePrice, gasPrice, lockinGas, fulfillGas, verifyGas);
            (cost <= order.maxPrice ==> r == order.maxPrice - cost)
            && (order.maxPrice <= cost ==> r == 0)
  {
    var proving := ProvingCost(order.totalCycles, mcyclePrice);
    var gas := GasCost(lockinGas, fulfillGas, verifyGas, gasPrice);
    CostsDoNotWrap(order, mcyclePrice, gasPrice, lockinGas, fulfillGas, verifyGas);
    assert WrappingAdd(proving, gas) == proving + gas;
    TimesOne(SaturatingSub(order.maxPrice, proving + gas));
  }

  /** Below 2^256 neither product of the cost wraps. */
  lemma CostsDoNotWrap(order: OrderRequest, mcyclePrice: u256, gasPrice: u256,
                       lockinGas: u64, fulfillGas: u64, verifyGas: u64)
    requires ExactCost(order, mcyclePrice, gasPrice, lockinGas, fulfillGas, verifyGas) < U256_LIMIT
    ensures ProvingCost(order.totalCycles, mcyclePrice) + GasCost(lockinGas, fulfillGas, verifyGas, gasPrice)
            == ExactCost(order, mcyclePrice, gasPrice, lockinGas, fulfillGas, verifyGas)
  {
    var gas := lockinGas + fulfillGas + verifyGas;
    if order.totalCycles.Some? {
      var mcycles := order.totalCycles.value / CYCLES_PER_MCYCLE;
      MulIsNat(mcyclePrice, mcycles);
      MulIsNat(gas, gasPrice);
      WrappingMulExact(mcyclePrice, mcycles);
      WrappingMulExact(gas, gasPrice);
    } else {
      WrappingMulExact(gas, gasPrice);
    }
  }

  lemma MulIsNat(a: nat, b: nat)
    ensures a * b >= 0
  {
  }

  /** An order whose cycle count is unknown, or below one million, carries no
      proving cost: only gas is charged against its price. */
  lemma NoCyclesNoProvingCost(order: OrderRequest, mcyclePrice: u256, gasPrice: u256,
                              lockinGas: u64, fulfillGas: u64, verifyGas: u64)
    requires order.totalCycles.None? || order.totalCycles.value < CYCLES_PER_MCYCLE
    ensures ExpectedProfit(order, mcyclePrice, gasPrice, lockinGas, fulfillGas, verifyGas)
            == SaturatingSub(order.maxPrice, GasCost(lockinGas, fulfillGas, verifyGas, gasPrice))
  {
    var gas := GasCost(lockinGas, fulfillGas, verifyGas, gasPrice);
    assert ProvingCost(order.totalCycles, mcyclePrice) == 0;
    assert WrappingAdd(0, gas) == gas;
    TimesOne(SaturatingSub(order.maxPrice, gas));
  }

  // ---------------------------------------------------------------------------
  // Ordering by mode
  // ---------------------------------------------------------------------------

  function Swap<T>(s: seq<T>, i: nat, j: nat): (r: seq<T>)
    requires i < |s| && j < |s|
    ensures |r| == |s| && multiset(r) == multiset(s)
  {
    s[i := s[j]][j := s[i]]
  }

  function Draw(draws: seq<nat>, k: nat): nat
  {
    if k < |draws| then draws[k] else 0
  }

  /** Fisher-Yates over the first `n` positions: position `n - 1` is swapped
      with a drawn position in `[0, n - 1]`, then the first `n - 1` positions
      are shuffled. */
  function ShuffleDown<T>(s: seq<T>, draws: seq<nat>, n: nat): seq<T>
    requires n <= |s|
    decreases n
  {
    if n <= 1 then s else ShuffleDown(Swap(s, n - 1, Draw(draws, n - 1) % n), draws, n - 1)
  }

  /** `shuffle`, driven by the given random draws. */
  function Shuffled<T>(s: seq<T>, draws: seq<nat>): seq<T>
  {
    ShuffleDown(s, draws, |s|)
  }

  lemma {:induction false} ShuffleDownPermutes<T>(s: seq<T>, draws: seq<nat>, n: nat)
    requires n <= |s|
    ensures |ShuffleDown(s, draws, n)| == |s|
    ensures multiset(ShuffleDown(s, draws, n)) == multiset(s)
    decreases n
  {
    if n > 1 {
      ShuffleDownPermutes(Swap(s, n - 1, Draw(draws, n - 1) % n), draws, n - 1);
    }
  }

  /** Whatever the draws, a shuffle only reorders. */
  lemma ShuffledPermutes<T>(s: seq<T>, draws: seq<nat>)
    ensures |Shuffled(s, draws)| == |s|
    ensures multiset(Shuffled(s, draws)) == multiset(s)
  {
    ShuffleDownPermutes(s, draws, |s|);
  }

  function ExpiryKey(o: OrderRequest): int
  {
    o.expiry
  }

  function McyclePrice(config: MarketConf): u256
  {
    match config.mcyclePrice
    case Some(price) => price
    case None => DEFAULT_MCYCLE_PRICE_WEI
  }

  /** The expected profit `HighestExpectedValue` ranks by. */
  function Profit(config: MarketConf, o: OrderRequest): u256
  {
    ExpectedProfit(o, McyclePrice(config), GAS_PRICE_WEI, config.lockinGasEstimate,
                   config.fulfillGasEstimate, config.groth16VerifyGasEstimate)
  }

  /** `Reverse(profit)` as a sort key. */
  function ProfitKey(config: MarketConf): OrderRequest -> int
  {
    o => -(Profit(config, o) as int)
  }

  /** `sort_by_mode` on a sequence of orders. */
  function ByMode(s: seq<OrderRequest>, mode: UnifiedPriorityMode, config: MarketConf,
                  draws: seq<nat>): seq<OrderRequest>
  {
    match mode
    case Random => Shuffled(s, draws)
    case TimeOrdered => s
    case ShortestExpiry => SortBy(s, ExpiryKey)
    case HighestExpectedValue => SortBy(s, ProfitKey(config))
  }

  /** Every mode only reorders. */
  lemma ByModePermutes(s: seq<OrderRequest>, mode: UnifiedPriorityMode, config: MarketConf,
                       draws: seq<nat>)
    ensures |ByMode(s, mode, config, draws)| == |s|
    ensures multiset(ByMode(s, mode, config, draws)) == multiset(s)
  {
    match mode
    case Random => ShuffledPermutes(s, draws);
    case TimeOrdered =>
    case ShortestExpiry => SortByPermutes(s, ExpiryKey);
    case HighestExpectedValue => SortByPermutes(s, ProfitKey(config));
  }

  /** `ShortestExpiry`: expiry never decreases along the result, and orders
      with equal expiry keep their input order. */
  lemma ShortestExpiryOrder(s: seq<OrderRequest>, config: MarketConf, draws: seq<nat>)
    ensures var r := ByMode(s, UnifiedPriorityMode.ShortestExpiry, config, draws);
            (forall i, j :: 0 <= i < j < |r| ==> r[i].expiry <= r[j].expiry)
            && (forall e: int :: WithKey(r, ExpiryKey, e) == WithKey(s, ExpiryKey, e))
  {
    var r := SortBy(s, ExpiryKey);
    SortBySorts(s, ExpiryKey);
    forall i, j | 0 <= i < j < |r| ensures r[i].expiry <= r[j].expiry {
      assert ExpiryKey(r[i]) <= ExpiryKey(r[j]);
    }
    forall e: int ensures WithKey(r, ExpiryKey, e) == WithKey(s, ExpiryKey, e) {
      SortByStable(s, ExpiryKey, e);
    }
  }

  /** `HighestExpectedValue`: expected profit never increases along the
      result, so orders with zero profit come after every profitable one, and
      orders with equal profit keep their input order. */
  lemma HighestValueOrder(s: seq<OrderRequest>, config: MarketConf, draws: seq<nat>)
    ensures var r := ByMode(s, UnifiedPriorityMode.HighestExpectedValue, config, draws);
            (forall i, j :: 0 <= i < j < |r| ==> Profit(config, r[i]) >= Profit(config, r[j]))
            && (forall i, j :: 0 <= i < j < |r| && Profit(config, r[i]) == 0 ==> Profit(config, r[j]) == 0)
            && (forall k: int :: WithKey(r, ProfitKey(config), k) == WithKey(s, ProfitKey(config), k))
  {
    var key := ProfitKey(config);
    var r := SortBy(s, key);
    SortBySorts(s, key);
    forall i, j | 0 <= i < j < |r| ensures Profit(config, r[i]) >= Profit(config, r[j]) {
      assert key(r[i]) <= key(r[j]);
    }
    forall k: int ensures WithKey(r, key, k) == WithKey(s, key, k) {
      SortByStable(s, key, k);
    }
  }

  /** `TimeOrdered` keeps the observation order. */
  lemma TimeOrderedKeepsOrder(s: seq<OrderRequest>, config: MarketConf, draws: RandomDraws)
    ensures Prioritized(s, None, UnifiedPriorityMode.TimeOrdered, config, draws) == s
  {
  }

  // ---------------------------------------------------------------------------
  // Priority clients
  // ---------------------------------------------------------------------------

  /** The orders whose client is listed, in their input order. */
  function PriorityOrders(s: seq<OrderRequest>, addrs: seq<Address>): seq<OrderRequest>
  {
    if s == [] then []
    else PriorityOrders(s[..|s| - 1], addrs)
         + (if s[|s| - 1].clientAddress in addrs then [s[|s| - 1]] else [])
  }

  /** The orders whose client is not listed, in their input order. */
  function RegularOrders(s: seq<OrderRequest>, addrs: seq<Address>): seq<OrderRequest>
  {
    if s == [] then []
    else RegularOrders(s[..|s| - 1], addrs)
         + (if s[|s| - 1].clientAddress in addrs then [] else [s[|s| - 1]])
  }

  /** `partition` only splits: together the two groups hold the input. */
  lemma {:induction false} PartitionPermutes(s: seq<OrderRequest>, addrs: seq<Address>)
    ensures multiset(PriorityOrders(s, addrs)) + multiset(RegularOrders(s, addrs)) == multiset(s)
  {
    if s != [] {
      var init, last := s[..|s| - 1], s[|s| - 1];
      PartitionPermutes(init, addrs);
      assert s == init + [last];
      assert multiset(s) == multiset(init) + multiset{last};
      var p, q := PriorityOrders(init, addrs), RegularOrders(init, addrs);
      if last.clientAddress in addrs {
        assert PriorityOrders(s, addrs) == p + [last];
        assert RegularOrders(s, addrs) == q + [];
        assert multiset(p + [last]) == multiset(p) + multiset{last};
        assert q + [] == q;
      } else {
        assert PriorityOrders(s, addrs) == p + [];
        assert RegularOrders(s, addrs) == q + [last];
        assert multiset(q + [last]) == multiset(q) + multiset{last};
        assert p + [] == p;
      }
    }
  }

  /** `partition` splits by whether the client is listed. */
  lemma {:induction false} PartitionSeparates(s: seq<OrderRequest>, addrs: seq<Address>)
    ensures forall o :: o in PriorityOrders(s, addrs) ==> o.clientAddress in addrs
    ensures forall o :: o in RegularOrders(s, addrs) ==> o.clientAddress !in addrs
  {
    if s != [] {
      PartitionSeparates(s[..|s| - 1], addrs);
    }
  }

  /** `sort_orders_by_priority_and_mode` on a sequence of orders. */
  function Prioritized(s: seq<OrderRequest>, priority: Option<seq<Address>>,
                       mode: UnifiedPriorityMode, config: MarketConf,
                       draws: RandomDraws): seq<OrderRequest>
  {
    match priority
    case None => ByMode(s, mode, config, draws.first)
    case Some(addrs) =>
      ByMode(PriorityOrders(s, addrs), mode, config, draws.first)
      + ByMode(RegularOrders(s, addrs), mode, config, draws.second)
  }

  /** Prioritisation only reorders. */
  lemma PrioritizedPermutes(s: seq<OrderRequest>, priority: Option<seq<Address>>,
                            mode: UnifiedPriorityMode, config: MarketConf, draws: RandomDraws)
    ensures |Prioritized(s, priority, mode, config, draws)| == |s|
    ensures multiset(Prioritized(s, priority, mode, config, draws)) == multiset(s)
  {
    match priority
    case None => ByModePermutes(s, mode, config, draws.first);
    case Some(addrs) =>
      var p, q := PriorityOrders(s, addrs), RegularOrders(s, addrs);
      var bp, bq := ByMode(p, mode, config, draws.first), ByMode(q, mode, config, draws.second);
      var r := bp + bq;
      assert Prioritized(s, priority, mode, config, draws) == r;
      ByModePermutes(p, mode, config, draws.first);
      ByModePermutes(q, mode, config, draws.second);
      PartitionPermutes(s, addrs);
      assert multiset(r) == multiset(bp) + multiset(bq);
      assert multiset(r) == multiset(s);
      assert |multiset(r)| == |r| && |multiset(s)| == |s|;
  }

  /** Two groups, each reordered, and put one after the other: the positions
      before the first group's length are the listed clients. */
  lemma GroupsInPlace(bp: seq<OrderRequest>, bq: seq<OrderRequest>,
                      p: seq<OrderRequest>, q: seq<OrderRequest>, addrs: seq<Address>)
    requires multiset(bp) == multiset(p) && multiset(bq) == multiset(q)
    requires forall o :: o in p ==> o.clientAddress in addrs
    requires forall o :: o in q ==> o.clientAddress !in addrs
    ensures |p| <= |bp + bq|
    ensures forall i :: 0 <= i < |bp + bq| ==> ((bp + bq)[i].clientAddress in addrs <==> i < |p|)
  {
    assert |multiset(bp)| == |bp| && |multiset(p)| == |p|;
    var r := bp + bq;
    forall i | 0 <= i < |r| ensures r[i].clientAddress in addrs <==> i < |p| {
      if i < |p| {
        assert r[i] == bp[i];
        assert bp[i] in multiset(bp);
        assert bp[i] in p;
      } else {
        assert r[i] == bq[i - |p|];
        assert bq[i - |p|] in multiset(bq);
        assert bq[i - |p|] in q;
      }
    }
  }

  /** With priority addresses, the first `k` orders of the result are exactly
      those whose client is listed, where `k` is how many inputs have a listed
      client. */
  lemma PriorityClientsFirst(s: seq<OrderRequest>, addrs: seq<Address>,
                             mode: UnifiedPriorityMode, config: MarketConf, draws: RandomDraws)
    ensures var r := Prioritized(s, Some(addrs), mode, config, draws);
            var k := |PriorityOrders(s, addrs)|;
            k <= |r|
            && forall i :: 0 <= i < |r| ==> (r[i].clientAddress in addrs <==> i < k)
  {
    var p, q := PriorityOrders(s, addrs), RegularOrders(s, addrs);
    var bp, bq := ByMode(p, mode, config, draws.first), ByMode(q, mode, config, draws.second);
    assert Prioritized(s, Some(addrs), mode, config, draws) == bp + bq;
    ByModePermutes(p, mode, config, draws.first);
    ByModePermutes(q, mode, config, draws.second);
    PartitionSeparates(s, addrs);
    GroupsInPlace(bp, bq, p, q, addrs);
  }

  /** The order each mode promises on one group. */
  predicate ModeOrdered(r: seq<OrderRequest>, mode: UnifiedPriorityMode, config: MarketConf)
  {
    match mode
    case ShortestExpiry => forall i, j :: 0 <= i < j < |r| ==> r[i].expiry <= r[j].expiry
    case HighestExpectedValue =>
      forall i, j :: 0 <= i < j < |r| ==> Profit(config, r[i]) >= Profit(config, r[j])
    case _ => true
  }

  lemma ByModeOrdered(s: seq<OrderRequest>, mode: UnifiedPriorityMode, config: MarketConf,
                      draws: seq<nat>)
    ensures ModeOrdered(ByMode(s, mode, config, draws), mode, config)
  {
    match mode
    case ShortestExpiry => ShortestExpiryOrder(s, config, draws);
    case HighestExpectedValue => HighestValueOrder(s, config, draws);
    case _ =>
  }

  /** Each group is ordered by the mode, and under `TimeOrdered` each group
      keeps the input order. */
  lemma PrioritizedGroupsOrdered(s: seq<OrderRequest>, addrs: seq<Address>,
                                 mode: UnifiedPriorityMode, config: MarketConf,
                                 draws: RandomDraws)
    ensures var r := Prioritized(s, Some(addrs), mode, config, draws);
            var k := |PriorityOrders(s, addrs)|;
            k <= |r|
            && ModeOrdered(r[..k], mode, config) && ModeOrdered(r[k..], mode, config)
            && (mode.TimeOrdered? ==> r == PriorityOrders(s, addrs) + RegularOrders(s, addrs))
  {
    var p, q := PriorityOrders(s, addrs), RegularOrders(s, addrs);
    var bp, bq := ByMode(p, mode, config, draws.first), ByMode(q, mode, config, draws.second);
    ByModePermutes(p, mode, config, draws.first);
    ByModeOrdered(p, mode, config, draws.first);
    ByModeOrdered(q, mode, config, draws.second);
    var r := bp + bq;
    assert r[..|p|] == bp;
    assert r[|p|..] == bq;
  }

  // ---------------------------------------------------------------------------
  // In-place operations
  // ---------------------------------------------------------------------------

  /** A `Vec` of orders the caller owns and the operations below rearrange,
      drain and refill. */
  class OrderVec {
    var items: seq<OrderRequest>

    constructor (items0: seq<OrderRequest>)
      ensures items == items0
    {
      items := items0;
    }
  }

  /** `shuffle` of a slice: Fisher-Yates from the last position down. */
  method Shuffle(a: array<OrderRequest>, draws: seq<nat>)
    modifies a
    ensures a[..] == Shuffled(old(a[..]), draws)
  {
    var n: nat := a.Length;
    while n > 1
      invariant n <= a.Length
      invariant ShuffleDown(a[..], draws, n) == Shuffled(old(a[..]), draws)
      decreases n
    {
      var j := Draw(draws, n - 1) % n;
      ghost var before := a[..];
      a[n - 1], a[j] := a[j], a[n - 1];
      assert a[..] == Swap(before, n - 1, j);
      n := n - 1;
    }
  }

  /** `sort_by_mode`, in place on a slice. */
  method SortByMode(a: array<OrderRequest>, mode: UnifiedPriorityMode, config: MarketConf,
                    draws: seq<nat>)
    modifies a
    ensures a[..] == ByMode(old(a[..]), mode, config, draws)
  {
    match mode {
      case Random =>
        Shuffle(a, draws);
      case TimeOrdered =>
      case ShortestExpiry =>
        var sorted := SortBy(a[..], ExpiryKey);
        SortByPermutes(a[..], ExpiryKey);
        forall i | 0 <= i < a.Length {
          a[i] := sorted[i];
        }
        assert a[..] == sorted;
      case HighestExpectedValue =>
        var sorted := SortBy(a[..], ProfitKey(config));
        SortByPermutes(a[..], ProfitKey(config));
        forall i | 0 <= i < a.Length {
          a[i] := sorted[i];
        }
        assert a[..] == sorted;
    }
  }

  /** `sort_by_mode` applied to the storage of a `Vec` holding `s`. */
  method SortSlice(s: seq<OrderRequest>, mode: UnifiedPriorityMode, config: MarketConf,
                   draws: seq<nat>)
    returns (r: seq<OrderRequest>)
    ensures r == ByMode(s, mode, config, draws)
  {
    var a := new OrderRequest[|s|](i requires 0 <= i < |s| => s[i]);
    assert a[..] == s;
    SortByMode(a, mode, config, draws);
    r := a[..];
  }

  /** `partition` of the drained orders by whether their client is listed. */
  method Partition(s: seq<OrderRequest>, addrs: seq<Address>)
    returns (p: seq<OrderRequest>, q: seq<OrderRequest>)
    ensures p == PriorityOrders(s, addrs)
    ensures q == RegularOrders(s, addrs)
  {
    p, q := [], [];
    for i := 0 to |s|
      invariant p == PriorityOrders(s[..i], addrs)
      invariant q == RegularOrders(s[..i], addrs)
    {
      assert s[..i + 1][..i] == s[..i];
      if s[i].clientAddress in addrs {
        p := p + [s[i]];
      } else {
        q := q + [s[i]];
      }
    }
    assert s[..|s|] == s;
  }

  /** `sort_orders_by_priority_and_mode`: without priority addresses the whole
      vector is sorted by the mode; otherwise it is drained, partitioned by
      client, each group sorted by the mode, and refilled with the priority
      group followed by the regular one. */
  method SortOrdersByPriorityAndMode(orders: OrderVec, priority: Option<seq<Address>>,
                                     mode: UnifiedPriorityMode, config: MarketConf,
                                     draws: RandomDraws)
    modifies orders
    ensures orders.items == Prioritized(old(orders.items), priority, mode, config, draws)
  {
    var s := orders.items;
    match priority {
      case None =>
        orders.items := SortSlice(s, mode, config, draws.first);
      case Some(addrs) =>
        orders.items := [];
        var p, q := Partition(s, addrs);
        p := SortSlice(p, mode, config, draws.first);
        q := SortSlice(q, mode, config, draws.second);
        orders.items := orders.items + p;
        orders.items := orders.items + q;
    }
  }

  /** `select_pricing_orders`: nothing is taken from an empty vector or with no
      capacity, and the vector is then left as it was; otherwise the vector is
      prioritised, its first `min(capacity, len)` orders are removed and
      returned, and the rest stay behind in order. */
  method SelectPricingOrders(orders: OrderVec, priorityMode: OrderPricingPriority,
                             priority: Option<seq<Address>>, capacity: nat,
                             config: MarketConf, draws: RandomDraws)
    returns (taken: seq<OrderRequest>)
    modifies orders
    ensures old(orders.items) == [] || capacity == 0 ==>
              taken == [] && orders.items == old(orders.items)
    ensures old(orders.items) != [] && capacity > 0 ==>
              |taken| == Min(capacity, |old(orders.items)|)
              && taken + orders.items
                 == Prioritized(old(orders.items), priority, FromPricing(priorityMode), config, draws)
  {
    if orders.items == [] || capacity == 0 {
      return [];
    }
    ghost var input := orders.items;
    SortOrdersByPriorityAndMode(orders, priority, FromPricing(priorityMode), config, draws);
    var sorted := orders.items;
    PrioritizedPermutes(input, priority, FromPricing(priorityMode), config, draws);
    var takeCount := Min(capacity, |sorted|);
    taken := sorted[..takeCount];
    orders.items := sorted[takeCount..];
    assert taken + orders.items == sorted;
  }

  /** `prioritize_orders`: the orders in commitment order. */
  method PrioritizeOrders(orders: seq<OrderRequest>, priorityMode: OrderCommitmentPriority,
                          priority: Option<seq<Address>>, config: MarketConf,
                          draws: RandomDraws)
    returns (r: seq<OrderRequest>)
    ensures r == Prioritized(orders, priority, FromCommitment(priorityMode), config, draws)
  {
    var v := new OrderVec(orders);
    SortOrdersByPriorityAndMode(v, priority, FromCommitment(priorityMode), config, draws);
    r := v.items;
  }
}
