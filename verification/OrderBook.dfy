/**
 * research/reference-packages/markets-sdk-0.28.1/src/derivedReads.ts: resting levels, the grid a pool enforces and
 * the sweep that turns a stake into a quantity. Prices and quantities are raw bigints; `one` is one whole share.
 */
module OrderBook {
  import opened Arithmetic

  const BPS_DENOMINATOR: nat := 10000

  datatype Level = Level(price: int, quantity: int)

  datatype Book = Book(yesBids: seq<Level>, yesAsks: seq<Level>, noBids: seq<Level>, noAsks: seq<Level>)

  datatype Outcome = Yes | No

  /** The slippage policy is the caller's and not negative; the defaults are 300 bps and 10 ticks. */
  datatype Params = Params(tickSize: int, lotSize: int, minQuantity: int, slippageBps: nat, slippageMinTicks: nat)

  predicate Degenerate(params: Params, one: int, amount: int) {
    params.tickSize <= 0 || params.lotSize <= 0 || one <= 0 || amount <= 0
  }

  /** A real crossing: some quantity at a price strictly between nothing and one share. */
  predicate Usable(level: Level, one: int) {
    0 < level.price < one && level.quantity > 0
  }

  function Slippage(price: int, params: Params): int {
    var percent, floor := Trunc(price * params.slippageBps, BPS_DENOMINATOR), params.slippageMinTicks * params.tickSize;
    if percent > floor then percent else floor
  }

  lemma SlippageNotNegative(price: int, params: Params)
    requires params.tickSize > 0
    ensures Slippage(price, params) >= 0
  {
    MulMono(0, params.slippageMinTicks, params.tickSize);
  }

  // ---- depth ----

  /** What the usable levels among the first n hold. */
  function Depth(levels: seq<Level>, n: nat, one: int): int
    requires n <= |levels|
  {
    if n == 0 then 0
    else Depth(levels, n - 1, one) + if Usable(levels[n - 1], one) then levels[n - 1].quantity else 0
  }

  lemma {:induction false} DepthMono(levels: seq<Level>, m: nat, n: nat, one: int)
    requires m <= n <= |levels|
    ensures 0 <= Depth(levels, m, one) <= Depth(levels, n, one)
    decreases n
  {
    if m < n {
      DepthMono(levels, m, n - 1, one);
    } else if m > 0 {
      DepthMono(levels, m - 1, m - 1, one);
    }
  }

  /** Best price first on the ask side: cheapest first. */
  ghost predicate Ascending(levels: seq<Level>, one: int) {
    forall i, j :: 0 <= i < j < |levels| && Usable(levels[i], one) && Usable(levels[j], one) ==>
      levels[i].price <= levels[j].price
  }

  // ---- the sweep of a stake ----

  datatype Swept = Swept(quantity: int, limit: int)

  /** What the loop over the levels from i on makes of the running quantity and limit. */
  function Sweep(levels: seq<Level>, i: nat, stake: int, one: int, acc: Swept): Swept
    requires i <= |levels|
    decreases |levels| - i
  {
    if i == |levels| then acc
    else if !Usable(levels[i], one) then Sweep(levels, i + 1, stake, one, acc)
    else
      var most := stake * one / levels[i].price;
      if most <= acc.quantity then acc
      else
        var take := Min(levels[i].quantity, most - acc.quantity);
        var next := Swept(acc.quantity + take, levels[i].price);
        if take < levels[i].quantity then next else Sweep(levels, i + 1, stake, one, next)
  }

  method SweepAsks(levels: seq<Level>, stake: int, one: int) returns (quantity: int, limit: int)
    requires stake > 0 && one > 0
    ensures Swept(quantity, limit) == Sweep(levels, 0, stake, one, Swept(0, 0))
  {
    quantity, limit := 0, 0;
    var i := 0;
    while i < |levels|
      invariant i <= |levels|
      invariant Sweep(levels, i, stake, one, Swept(quantity, limit)) == Sweep(levels, 0, stake, one, Swept(0, 0))
    {
      var level := levels[i];
      if Usable(level, one) {
        var maxQuantity := stake * one / level.price;
        if maxQuantity <= quantity {
          break;
        }
        var headroom := maxQuantity - quantity;
        var take := if level.quantity < headroom then level.quantity else headroom;
        quantity := quantity + take;
        limit := level.price;
        if take < level.quantity {
          break;
        }
      }
      i := i + 1;
    }
  }

  /** What can be bought at level k's price: no more than is offered up to it, nor than the stake escrows at it. */
  function Reach(levels: seq<Level>, k: nat, stake: int, one: int): int
    requires k < |levels| && Usable(levels[k], one)
  {
    Min(Depth(levels, k + 1, one), stake * one / levels[k].price)
  }

  /** Level k is the first one whose reach is the quantity, and the limit is its price. */
  ghost predicate Attains(levels: seq<Level>, k: nat, stake: int, one: int, r: Swept) {
    && k < |levels| && Usable(levels[k], one) && levels[k].price == r.limit
       && Reach(levels, k, stake, one) == r.quantity
    && forall m :: 0 <= m < k && Usable(levels[m], one) ==> Reach(levels, m, stake, one) < r.quantity
  }

  /** The greatest reach of any level among the first n. */
  ghost predicate Greatest(levels: seq<Level>, n: nat, stake: int, one: int, r: Swept)
    requires n <= |levels|
  {
    && (forall k :: 0 <= k < n && Usable(levels[k], one) ==> Reach(levels, k, stake, one) <= r.quantity)
    && (r.quantity > 0 ==> exists k: nat :: k < n && Attains(levels, k, stake, one, r))
    && (r.quantity <= 0 ==> r == Swept(0, 0))
  }

  lemma PricierReachesLess(levels: seq<Level>, i: nat, k: nat, stake: int, one: int)
    requires i <= k < |levels| && Usable(levels[i], one) && Usable(levels[k], one) && Ascending(levels, one)
    requires stake > 0 && one > 0
    ensures Reach(levels, k, stake, one) <= stake * one / levels[k].price <= stake * one / levels[i].price
  {
    var x, p, q := stake * one, levels[i].price, levels[k].price;
    MulMono(0, stake, one);
    FloorBounds(x, q);
    MulMono(p, q, x / q);
    FloorGalois(x, p, x / q);
  }

  /** The state in front of level i when everything before it was taken whole. */
  ghost predicate AllTaken(levels: seq<Level>, i: nat, stake: int, one: int, acc: Swept) {
    && i <= |levels| && acc.quantity == Depth(levels, i, one) && Greatest(levels, i, stake, one, acc)
  }

  lemma SweepStops(levels: seq<Level>, i: nat, stake: int, one: int, r: Swept)
    requires i < |levels| && Usable(levels[i], one) && Ascending(levels, one) && stake > 0 && one > 0
    requires stake * one / levels[i].price <= r.quantity && Greatest(levels, i, stake, one, r)
    ensures Greatest(levels, |levels|, stake, one, r)
  {
    forall k | i <= k < |levels| && Usable(levels[k], one) ensures Reach(levels, k, stake, one) <= r.quantity {
      PricierReachesLess(levels, i, k, stake, one);
    }
  }

  lemma TakeMore(levels: seq<Level>, i: nat, stake: int, one: int, acc: Swept)
    requires AllTaken(levels, i, stake, one, acc) && i < |levels| && Usable(levels[i], one)
    requires stake * one / levels[i].price > acc.quantity
    ensures var next := Swept(Reach(levels, i, stake, one), levels[i].price);
            next.quantity > acc.quantity && Greatest(levels, i + 1, stake, one, next)
              && Attains(levels, i, stake, one, next)
  {
    DepthMono(levels, i, i, one);
    var next := Swept(Reach(levels, i, stake, one), levels[i].price);
    assert Depth(levels, i + 1, one) == acc.quantity + levels[i].quantity;
    assert Attains(levels, i, stake, one, next);
  }

  lemma {:induction false} SweepFrom(levels: seq<Level>, i: nat, stake: int, one: int, acc: Swept)
    requires AllTaken(levels, i, stake, one, acc) && Ascending(levels, one) && stake > 0 && one > 0
    ensures Greatest(levels, |levels|, stake, one, Sweep(levels, i, stake, one, acc))
    decreases |levels| - i
  {
    if i < |levels| {
      if !Usable(levels[i], one) {
        SweepFrom(levels, i + 1, stake, one, acc);
      } else if stake * one / levels[i].price <= acc.quantity {
        SweepStops(levels, i, stake, one, acc);
      } else {
        TakeMore(levels, i, stake, one, acc);
        var next := Swept(Reach(levels, i, stake, one), levels[i].price);
        if next.quantity < acc.quantity + levels[i].quantity {
          SweepTail(levels, i, stake, one, next);
        } else {
          SweepFrom(levels, i + 1, stake, one, next);
        }
      }
    }
  }

  lemma SweepTail(levels: seq<Level>, i: nat, stake: int, one: int, r: Swept)
    requires i < |levels| && Usable(levels[i], one) && Ascending(levels, one) && stake > 0 && one > 0
    requires r.quantity > 0 && Attains(levels, i, stake, one, r) && stake * one / levels[i].price <= r.quantity
    ensures Greatest(levels, |levels|, stake, one, r)
  {
    forall k | i <= k < |levels| && Usable(levels[k], one) ensures Reach(levels, k, stake, one) <= r.quantity {
      PricierReachesLess(levels, i, k, stake, one);
    }
  }

  /**
   * With the asks cheapest-first the sweep finds the greatest quantity over all levels of the smaller of what is
   * offered up to the level and what the stake escrows at its price, and limits at the first level that reaches it.
   */
  lemma SweepIsGreatest(levels: seq<Level>, stake: int, one: int)
    requires Ascending(levels, one) && stake > 0 && one > 0
    ensures Greatest(levels, |levels|, stake, one, Sweep(levels, 0, stake, one, Swept(0, 0)))
  {
    SweepFrom(levels, 0, stake, one, Swept(0, 0));
  }

  // ---- independent of the levels' bookkeeping: the best uniform limit price ----

  /** What is offered at the price or below it. */
  function DepthAt(levels: seq<Level>, n: nat, price: int, one: int): int
    requires n <= |levels|
  {
    if n == 0 then 0
    else
      DepthAt(levels, n - 1, price, one)
      + if Usable(levels[n - 1], one) && levels[n - 1].price <= price then levels[n - 1].quantity else 0
  }

  lemma {:induction false} DepthAtNotNegative(levels: seq<Level>, n: nat, price: int, one: int)
    requires n <= |levels|
    ensures 0 <= DepthAt(levels, n, price, one)
  {
    if n > 0 {
      DepthAtNotNegative(levels, n - 1, price, one);
    }
  }

  lemma {:induction false} AllCheaper(levels: seq<Level>, n: nat, price: int, one: int)
    requires n <= |levels| && forall k :: 0 <= k < n && Usable(levels[k], one) ==> levels[k].price <= price
    ensures DepthAt(levels, n, price, one) == Depth(levels, n, one)
  {
    if n > 0 {
      AllCheaper(levels, n - 1, price, one);
    }
  }

  /** At any price either nothing is offered, or exactly the depth up to some level no dearer. */
  lemma {:induction false} DepthAtIsDepth(levels: seq<Level>, n: nat, price: int, one: int) returns (k: nat)
    requires n <= |levels| && Ascending(levels, one)
    ensures DepthAt(levels, n, price, one) > 0 ==>
              k < n && Usable(levels[k], one) && levels[k].price <= price
              && DepthAt(levels, n, price, one) == Depth(levels, k + 1, one)
  {
    k := 0;
    if n > 0 {
      if Usable(levels[n - 1], one) && levels[n - 1].price <= price {
        k := n - 1;
        AllCheaper(levels, n, price, one);
      } else {
        k := DepthAtIsDepth(levels, n - 1, price, one);
      }
    }
  }

  lemma DepthWithinDepthAt(levels: seq<Level>, k: nat, n: nat, price: int, one: int)
    requires k <= n <= |levels| && forall m :: 0 <= m < k && Usable(levels[m], one) ==> levels[m].price <= price
    ensures Depth(levels, k, one) <= DepthAt(levels, n, price, one)
    decreases n
  {
    if k < n {
      DepthWithinDepthAt(levels, k, n - 1, price, one);
    } else {
      AllCheaper(levels, n, price, one);
    }
  }

  /** A quantity can be bought at a limit price: it is on offer and its escrow stays within the stake. */
  predicate Feasible(levels: seq<Level>, quantity: int, price: int, stake: int, one: int) {
    quantity <= DepthAt(levels, |levels|, price, one) && quantity * price <= stake * one
  }

  /** The swept quantity is the most that any single limit price can buy within the stake, and its own limit does. */
  lemma SweepIsOptimal(levels: seq<Level>, stake: int, one: int, quantity: int, price: int)
    requires Ascending(levels, one) && stake > 0 && one > 0
    ensures var r := Sweep(levels, 0, stake, one, Swept(0, 0));
            && Feasible(levels, r.quantity, r.limit, stake, one)
            && (price > 0 && Feasible(levels, quantity, price, stake, one) ==> quantity <= r.quantity)
  {
    var r := Sweep(levels, 0, stake, one, Swept(0, 0));
    SweepIsGreatest(levels, stake, one);
    MulMono(0, stake, one);
    if r.quantity > 0 {
      var k: nat :| k < |levels| && Attains(levels, k, stake, one, r);
      DepthWithinDepthAt(levels, k + 1, |levels|, r.limit, one);
      FloorGalois(stake * one, r.limit, r.quantity);
    } else {
      DepthAtNotNegative(levels, |levels|, r.limit, one);
    }
    if price > 0 && Feasible(levels, quantity, price, stake, one) && quantity > 0 {
      var k := DepthAtIsDepth(levels, |levels|, price, one);
      var p := levels[k].price;
      MulMono(p, price, quantity);
      FloorGalois(stake * one, p, quantity);
      assert quantity <= Reach(levels, k, stake, one);
    }
  }
}
