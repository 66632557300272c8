/** derivedReads.ts, `quoteBinaryOrderOverBook`: what a market order of a given quantity crosses and costs. */
module OrderQuote {
  import opened Arithmetic
  import opened OrderBook
  import opened Wrappers

  datatype Side = Side(buy: bool, outcome: Outcome)

  datatype Quote = Quote(avgPrice: int, cost: int, filledQuantity: int, wouldRest: int, levelsConsumed: nat,
                         slippageVsMid: int)

  /** A buy consumes the asks of its outcome, a sell the bids. */
  function LevelsToCross(book: Book, side: Side): seq<Level> {
    match side
    case Side(true, Yes) => book.yesAsks
    case Side(false, Yes) => book.yesBids
    case Side(true, No) => book.noAsks
    case Side(false, No) => book.noBids
  }

  function BookMid(book: Book, side: Side): Option<int> {
    var bids := if side.outcome.No? then book.noBids else book.yesBids;
    var asks := if side.outcome.No? then book.noAsks else book.yesAsks;
    if bids == [] || asks == [] then None else Some(Trunc(bids[0].price + asks[0].price, 2))
  }

  /** Everything on offer: levels without quantity are skipped. */
  function Offered(levels: seq<Level>, i: nat): nat
    requires i <= |levels|
    decreases |levels| - i
  {
    if i == |levels| then 0 else Offered(levels, i + 1) + if levels[i].quantity > 0 then levels[i].quantity else 0
  }

  datatype Crossing = Crossing(cost: int, filled: nat, consumed: nat)

  /** What an order for the remaining quantity crosses from level i on. */
  function Cross(levels: seq<Level>, i: nat, remaining: int, one: int): Crossing
    requires i <= |levels| && one > 0
    decreases |levels| - i
  {
    if i == |levels| || remaining <= 0 then Crossing(0, 0, 0)
    else
      var take := Min(levels[i].quantity, remaining);
      if take <= 0 then Cross(levels, i + 1, remaining, one)
      else
        var rest := Cross(levels, i + 1, remaining - take, one);
        Crossing(Trunc(take * levels[i].price, one) + rest.cost, take + rest.filled, 1 + rest.consumed)
  }

  /** How much worse than the middle of the best bid and ask the average is; nothing without a middle or a fill. */
  function SlippageOf(quote: Quote, buy: bool, bids: seq<Level>, asks: seq<Level>): int {
    if bids == [] || asks == [] || quote.filledQuantity == 0 then 0
    else
      var mid := Trunc(bids[0].price + asks[0].price, 2);
      if buy then quote.avgPrice - mid else mid - quote.avgPrice
  }

  method QuoteOrder(book: Book, side: Side, quantity: int, one: int) returns (quote: Quote)
    requires one > 0
    ensures var wanted := if quantity > 0 then quantity else 0;
            var levels := match side.outcome
              case Yes => if side.buy then book.yesAsks else book.yesBids
              case No => if side.buy then book.noAsks else book.noBids;
            var crossing := Cross(levels, 0, wanted, one);
            && quote.filledQuantity == Min(wanted, Offered(levels, 0))
            && quote.wouldRest == wanted - quote.filledQuantity
            && quote.cost == crossing.cost && quote.levelsConsumed == crossing.consumed
            && quote.avgPrice == (if quote.filledQuantity > 0 then Trunc(quote.cost * one, quote.filledQuantity) else 0)
            && quote.slippageVsMid
               == (if side.outcome.Yes? then SlippageOf(quote, side.buy, book.yesBids, book.yesAsks)
                   else SlippageOf(quote, side.buy, book.noBids, book.noAsks))
  {
    var levels := LevelsToCross(book, side);
    var wanted := if quantity > 0 then quantity else 0;
    CrossFills(levels, 0, wanted, one);
    var remaining, cost, filled, consumed := wanted, 0, 0, 0;
    var i := 0;
    while i < |levels| && remaining > 0
      invariant i <= |levels| && remaining >= 0
      invariant var rest := Cross(levels, i, remaining, one);
                Cross(levels, 0, wanted, one)
                  == Crossing(cost + rest.cost, filled + rest.filled, consumed + rest.consumed)
    {
      var level := levels[i];
      var take := if level.quantity < remaining then level.quantity else remaining;
      if take > 0 {
        cost := cost + Trunc(take * level.price, one);
        filled := filled + take;
        remaining := remaining - take;
        consumed := consumed + 1;
      }
      i := i + 1;
    }
    var avgPrice := if filled > 0 then Trunc(cost * one, filled) else 0;
    var slippage := match BookMid(book, side)
      case None => 0
      case Some(mid) => if filled == 0 then 0 else if side.buy then avgPrice - mid else mid - avgPrice;
    quote := Quote(avgPrice, cost, filled, if quantity > filled then quantity - filled else 0, consumed, slippage);
  }

  /** An order fills completely or takes everything on offer. */
  lemma {:induction false} CrossFills(levels: seq<Level>, i: nat, remaining: int, one: int)
    requires i <= |levels| && one > 0 && remaining >= 0
    ensures Cross(levels, i, remaining, one).filled == Min(remaining, Offered(levels, i))
    decreases |levels| - i
  {
    if i < |levels| {
      var take := Min(levels[i].quantity, remaining);
      CrossFills(levels, i + 1, if take > 0 then remaining - take else remaining, one);
    }
  }

  // ---- the crossing level by level ----

  /** What the first n levels have on offer. */
  function OfferedBefore(levels: seq<Level>, n: nat): nat
    requires n <= |levels|
  {
    if n == 0 then 0 else OfferedBefore(levels, n - 1) + Max(levels[n - 1].quantity, 0)
  }

  /** What an order for `wanted` takes of level k: its share of the book between two depths. */
  function TakenAt(levels: seq<Level>, k: nat, wanted: nat): int
    requires k < |levels|
  {
    Min(OfferedBefore(levels, k + 1), wanted) - Min(OfferedBefore(levels, k), wanted)
  }

  function CostFrom(levels: seq<Level>, i: nat, wanted: nat, one: int): int
    requires i <= |levels| && one > 0
    decreases |levels| - i
  {
    if i == |levels| then 0
    else Trunc(TakenAt(levels, i, wanted) * levels[i].price, one) + CostFrom(levels, i + 1, wanted, one)
  }

  function TouchedFrom(levels: seq<Level>, i: nat, wanted: nat): nat
    requires i <= |levels|
    decreases |levels| - i
  {
    if i == |levels| then 0 else TouchedFrom(levels, i + 1, wanted) + if TakenAt(levels, i, wanted) > 0 then 1 else 0
  }

  lemma EmptyShare(taken: int, price: int, one: int)
    requires one > 0
    ensures taken == 0 ==> Trunc(taken * price, one) == 0
  {
    if taken == 0 {
      assert taken * price == 0;
    }
  }

  lemma {:induction false} NothingLeft(levels: seq<Level>, i: nat, wanted: nat, one: int)
    requires i <= |levels| && one > 0 && wanted <= OfferedBefore(levels, i)
    ensures CostFrom(levels, i, wanted, one) == 0 && TouchedFrom(levels, i, wanted) == 0
    decreases |levels| - i
  {
    if i < |levels| {
      EmptyShare(TakenAt(levels, i, wanted), levels[i].price, one);
      NothingLeft(levels, i + 1, wanted, one);
    }
  }

  /**
   * The crossing level by level: each level is taken for its share of the book up to the order's quantity, pays that
   * share at its own price, rounded by itself, and counts as consumed if the share is not empty.
   */
  lemma {:induction false} CrossByLevel(levels: seq<Level>, i: nat, wanted: nat, one: int)
    requires i <= |levels| && one > 0
    ensures var crossing := Cross(levels, i, wanted - Min(OfferedBefore(levels, i), wanted), one);
            crossing.cost == CostFrom(levels, i, wanted, one) && crossing.consumed == TouchedFrom(levels, i, wanted)
    decreases |levels| - i
  {
    if wanted <= OfferedBefore(levels, i) {
      NothingLeft(levels, i, wanted, one);
    } else if i < |levels| {
      CrossByLevel(levels, i + 1, wanted, one);
      EmptyShare(TakenAt(levels, i, wanted), levels[i].price, one);
    }
  }

  /** Cheapest first among the levels that hold something. */
  ghost predicate CheapestFirst(levels: seq<Level>) {
    forall i, j :: 0 <= i < j < |levels| && levels[i].quantity > 0 && levels[j].quantity > 0 ==>
                     levels[i].price <= levels[j].price
  }

  /** An order that fits into the first n levels costs at most its quantity at the dearest of their prices. */
  lemma {:induction false} CrossCost(levels: seq<Level>, i: nat, n: nat, remaining: int, price: int, one: int)
    requires i <= n <= |levels| && one > 0 && price >= 0
    requires 0 <= remaining <= Depth(levels, n, one) - Depth(levels, i, one)
    requires forall k :: i <= k < n && levels[k].quantity > 0 ==> levels[k].price <= price
    ensures Cross(levels, i, remaining, one).filled == remaining
    ensures Cross(levels, i, remaining, one).cost * one <= remaining * price
    decreases n - i
  {
    if remaining == 0 {
      assert Cross(levels, i, 0, one) == Crossing(0, 0, 0);
    } else {
      var take := Min(levels[i].quantity, remaining);
      LeftAfter(levels, i, n, remaining, one);
      if take > 0 {
        CrossCost(levels, i + 1, n, remaining - take, price, one);
        LevelCost(take, levels[i].price, price, one);
        var first, rest := Trunc(take * levels[i].price, one), Cross(levels, i + 1, remaining - take, one);
        assert Cross(levels, i, remaining, one).cost == first + rest.cost;
        CostStep(first, rest.cost, take, remaining, price, one);
      } else {
        CrossCost(levels, i + 1, n, remaining, price, one);
      }
    }
  }

  /** What is still wanted after level i fits into the levels behind it. */
  lemma LeftAfter(levels: seq<Level>, i: nat, n: nat, remaining: int, one: int)
    requires i <= n <= |levels| && 0 < remaining <= Depth(levels, n, one) - Depth(levels, i, one)
    ensures i < n
    ensures var take := Min(levels[i].quantity, remaining);
            (if take > 0 then remaining - take else remaining) <= Depth(levels, n, one) - Depth(levels, i + 1, one)
  {
    DepthMono(levels, i + 1, n, one);
  }

  lemma CostStep(first: int, rest: int, take: int, remaining: int, price: int, one: int)
    requires first * one <= take * price && rest * one <= (remaining - take) * price
    ensures (first + rest) * one <= remaining * price
  {
    assert (first + rest) * one == first * one + rest * one;
    assert take * price + (remaining - take) * price == remaining * price;
  }

  lemma LevelCost(take: int, price: int, dearest: int, one: int)
    requires one > 0 && take >= 0 && price <= dearest && dearest >= 0
    ensures Trunc(take * price, one) * one <= take * dearest
  {
    MulMono(price, dearest, take);
    MulMono(0, dearest, take);
    if take * price >= 0 {
      FloorBounds(take * price, one);
    } else {
      FloorBounds(-(take * price), one);
      MulMono(Trunc(take * price, one), 0, one);
    }
  }

  ghost predicate NoneNegative(levels: seq<Level>, i: nat) {
    forall k :: i <= k < |levels| && levels[k].quantity > 0 ==> levels[k].price >= 0
  }

  /** Levels that hold something at no negative price cost nothing negative. */
  lemma {:induction false} CrossNotNegative(levels: seq<Level>, i: nat, remaining: int, one: int)
    requires i <= |levels| && one > 0 && NoneNegative(levels, i)
    ensures Cross(levels, i, remaining, one).cost >= 0
    decreases |levels| - i
  {
    if i < |levels| && remaining > 0 {
      var take := Min(levels[i].quantity, remaining);
      CrossNotNegative(levels, i + 1, if take <= 0 then remaining else remaining - take, one);
      if take > 0 {
        MulMono(0, levels[i].price, take);
      }
    }
  }
}
