/** derivedReads.ts, `quoteBinaryStakeOverBook`: a collateral stake as a market buy with a protective limit. */
module StakeQuote {
  import opened Arithmetic
  import opened OrderBook
  import opened OrderQuote
  import opened Wrappers

  datatype StakeQuote = StakeQuote(side: Outcome, yesPrice: int, limitPrice: int, quantity: int, escrow: int)

  function Asks(book: Book, side: Outcome): seq<Level> {
    if side.Yes? then book.yesAsks else book.noAsks
  }

  function AlignedUp(limit: int, params: Params): int
    requires params.tickSize > 0
  {
    CeilDiv(limit + Slippage(limit, params), params.tickSize) * params.tickSize
  }

  /** The swept limit with its slippage cushion, up to the tick and at most a tick below one share. */
  function PaddedLimit(limit: int, one: int, params: Params): int
    requires params.tickSize > 0
  {
    var highest := one - params.tickSize;
    if AlignedUp(limit, params) > highest then highest else AlignedUp(limit, params)
  }

  /** A quantity the pool accepts, that was swept, and whose escrow at the limit stays within the stake. */
  predicate Fits(quantity: int, swept: int, limit: int, stake: int, one: int, params: Params)
    requires params.lotSize > 0
  {
    && quantity > 0 && quantity % params.lotSize == 0 && quantity >= params.minQuantity
    && quantity <= swept && quantity * limit <= stake * one
  }

  /** Crossing these asks with the quoted quantity fills it within the stake. */
  predicate Buys(asks: seq<Level>, quote: StakeQuote, stake: int, one: int) {
    && one > 0
    && var crossing := Cross(asks, 0, quote.quantity, one);
    && crossing.filled == quote.quantity && crossing.cost <= stake
  }

  /** A quote exists exactly when some acceptable quantity fits, and it is the greatest one. */
  method QuoteStake(book: Book, side: Outcome, stake: int, one: int, params: Params) returns (quote: Option<StakeQuote>)
    ensures Degenerate(params, one, stake) ==> quote.None?
    ensures !Degenerate(params, one, stake) ==>
              var asks := if side.Yes? then book.yesAsks else book.noAsks;
              var swept := Sweep(asks, 0, stake, one, Swept(0, 0));
              var limit := PaddedLimit(swept.limit, one, params);
              && (quote.Some? <==> swept.quantity > 0 && swept.limit > 0 && limit > 0
                                   && exists q :: Fits(q, swept.quantity, limit, stake, one, params))
              && (quote.Some? ==>
                    var q := quote.value;
                    && q.side == side && q.limitPrice == limit
                       && q.yesPrice == (if side.Yes? then limit else one - limit)
                    && Fits(q.quantity, swept.quantity, limit, stake, one, params)
                    && q.quantity > 0 && q.quantity % params.lotSize == 0 && q.quantity >= params.minQuantity
                    && q.quantity <= swept.quantity && q.quantity * limit <= stake * one
                    && (forall other :: Fits(other, swept.quantity, limit, stake, one, params) ==> other <= q.quantity)
                    && q.escrow == CeilDiv(q.quantity * limit, one) && 0 < q.escrow <= stake)
    ensures quote.Some? && side.Yes? && CheapestFirst(book.yesAsks) ==> Buys(book.yesAsks, quote.value, stake, one)
    ensures quote.Some? && side.No? && CheapestFirst(book.noAsks) ==> Buys(book.noAsks, quote.value, stake, one)
  {
    if Degenerate(params, one, stake) {
      return None;
    }
    var quantity, limit := SweepAsks(Asks(book, side), stake, one);
    if quantity <= 0 || limit <= 0 {
      return None;
    }
    var maxPrice := one - params.tickSize;
    var paddedRaw := limit + Slippage(limit, params);
    var alignedUp := (paddedRaw + params.tickSize - 1) / params.tickSize * params.tickSize;
    var padded := if alignedUp > maxPrice then maxPrice else alignedUp;
    if padded <= 0 {
      return None;
    }
    Refit(quantity, padded, stake, one, params);
    var affordable := stake * one / padded;
    var capped := if affordable < quantity then affordable else quantity;
    var final := capped / params.lotSize * params.lotSize;
    if final <= 0 || final < params.minQuantity {
      return None;
    }
    var escrow := (final * padded + one - 1) / one;
    EscrowWithinStake(final, padded, stake, one);
    if CheapestFirst(Asks(book, side)) {
      QuoteIsHonest(Asks(book, side), stake, one, params, final);
    }
    return Some(StakeQuote(side, if side.Yes? then padded else one - padded, padded, final, escrow));
  }

  /** The re-fit and the snap down yield the greatest quantity that fits, if there is one. */
  lemma Refit(quantity: int, padded: int, stake: int, one: int, params: Params)
    requires params.lotSize > 0 && padded > 0 && one > 0 && stake > 0 && quantity > 0
    ensures var affordable := stake * one / padded;
            var final := (if affordable < quantity then affordable else quantity) / params.lotSize * params.lotSize;
            && (forall q :: Fits(q, quantity, padded, stake, one, params) ==> q <= final)
            && (final > 0 && final >= params.minQuantity ==> Fits(final, quantity, padded, stake, one, params))
  {
    MulMono(0, stake, one);
    FloorBounds(stake * one, padded);
    var affordable := stake * one / padded;
    var capped := if affordable < quantity then affordable else quantity;
    var final := capped / params.lotSize * params.lotSize;
    forall q | Fits(q, quantity, padded, stake, one, params) ensures q <= final {
      FloorGalois(stake * one, padded, q);
      SnapDown(capped, params.lotSize, q);
    }
    SnapDown(capped, params.lotSize, 0);
    FloorGalois(stake * one, padded, final);
  }

  lemma EscrowWithinStake(quantity: int, limit: int, stake: int, one: int)
    requires quantity > 0 && limit > 0 && one > 0 && quantity * limit <= stake * one
    ensures 0 < CeilDiv(quantity * limit, one) <= stake
  {
    MulMono(1, quantity, limit);
    CeilGalois(quantity * limit, one, stake);
    CeilGalois(quantity * limit, one, 0);
  }

  // ---- the protective limit ----

  /**
   * The limit stays at or above the dearest swept level if and only if that level lies at least a tick below one
   * share, and it is on the tick grid if and only if the cap does not apply or one share is.
   */
  lemma LimitIsProtective(limit: int, one: int, params: Params)
    requires params.tickSize > 0 && limit > 0
    ensures PaddedLimit(limit, one, params) >= limit <==> limit <= one - params.tickSize
    ensures PaddedLimit(limit, one, params) % params.tickSize == 0 <==>
            AlignedUp(limit, params) <= one - params.tickSize || one % params.tickSize == 0
  {
    var tick := params.tickSize;
    SlippageNotNegative(limit, params);
    var padded := limit + Slippage(limit, params);
    CeilGalois(padded, tick, CeilDiv(padded, tick));
    MultipleMod(CeilDiv(padded, tick), tick);
    AddStep(one - tick, tick);
  }

  /** Tick-aligned prices below a tick-aligned share are a whole tick below it. */
  lemma GridGap(price: int, one: int, tick: int)
    requires tick > 0 && price < one && price % tick == 0 && one % tick == 0
    ensures price <= one - tick
  {
    var a, b := price / tick, one / tick;
    assert price == a * tick && one == b * tick;
    LessFromProduct(a, b, tick);
    MulMono(a + 1, b, tick);
  }

  /** A tick multiple that leaves both the percentage and the minimum number of ticks above the swept level. */
  predicate Cushioned(x: int, limit: int, params: Params)
    requires params.tickSize > 0
  {
    && x % params.tickSize == 0 && limit + limit * params.slippageBps / 10000 <= x
    && limit + params.slippageMinTicks * params.tickSize <= x
  }

  /** Before the cap the limit is the least price with its cushion. */
  lemma CushionIsLeast(limit: int, params: Params, m: int)
    requires params.tickSize > 0 && limit > 0
    ensures Cushioned(AlignedUp(limit, params), limit, params)
    ensures Cushioned(m, limit, params) ==> AlignedUp(limit, params) <= m
  {
    var tick := params.tickSize;
    MulMono(0, limit, params.slippageBps);
    SlippageNotNegative(limit, params);
    var padded := limit + Slippage(limit, params);
    CeilGalois(padded, tick, CeilDiv(padded, tick));
    MultipleMod(CeilDiv(padded, tick), tick);
    if m % tick == 0 && padded <= m {
      assert m == (m / tick) * tick;
      CeilGalois(padded, tick, m / tick);
      MulMono(CeilDiv(padded, tick), m / tick, tick);
    }
  }

  ghost predicate OnGrid(levels: seq<Level>, one: int, tick: int)
    requires tick > 0
  {
    one % tick == 0 && forall k :: 0 <= k < |levels| && Usable(levels[k], one) ==> levels[k].price % tick == 0
  }

  /** On a tick grid that divides one share the limit is on the grid and crosses every level up to the swept one. */
  lemma LimitOnGrid(levels: seq<Level>, stake: int, one: int, params: Params)
    requires params.tickSize > 0 && stake > 0 && one > 0
    requires Ascending(levels, one) && OnGrid(levels, one, params.tickSize)
    requires Sweep(levels, 0, stake, one, Swept(0, 0)).quantity > 0
    ensures var r := Sweep(levels, 0, stake, one, Swept(0, 0));
            && PaddedLimit(r.limit, one, params) % params.tickSize == 0
            && r.limit <= PaddedLimit(r.limit, one, params) < one
            && forall k :: 0 <= k < |levels| && Usable(levels[k], one) && Depth(levels, k, one) < r.quantity ==>
                             levels[k].price <= PaddedLimit(r.limit, one, params)
  {
    var r := Sweep(levels, 0, stake, one, Swept(0, 0));
    SweepIsGreatest(levels, stake, one);
    var j: nat :| j < |levels| && Attains(levels, j, stake, one, r);
    GridGap(r.limit, one, params.tickSize);
    LimitIsProtective(r.limit, one, params);
    forall k | 0 <= k < |levels| && Usable(levels[k], one) && Depth(levels, k, one) < r.quantity
      ensures levels[k].price <= r.limit
    {
      if k > j {
        DepthMono(levels, j + 1, k, one);
      }
    }
  }

  // ---- the quote against the book it was made from ----

  /**
   * Honesty: crossing the same book with the quoted quantity fills all of it and costs no more than the stake,
   * nor than the quoted escrow when the limit protects the swept levels.
   */
  lemma QuoteIsHonest(levels: seq<Level>, stake: int, one: int, params: Params, quantity: int)
    requires params.tickSize > 0 && params.lotSize > 0 && stake > 0 && one > 0 && CheapestFirst(levels)
    requires var r := Sweep(levels, 0, stake, one, Swept(0, 0));
             Fits(quantity, r.quantity, PaddedLimit(r.limit, one, params), stake, one, params)
    ensures var r, crossing := Sweep(levels, 0, stake, one, Swept(0, 0)), Cross(levels, 0, quantity, one);
            var limit := PaddedLimit(r.limit, one, params);
            && crossing.filled == quantity && crossing.cost <= stake
            && (NoneNegative(levels, 0) ==> 0 <= crossing.cost)
            && (r.limit <= one - params.tickSize ==> crossing.cost <= CeilDiv(quantity * limit, one))
  {
    var r := Sweep(levels, 0, stake, one, Swept(0, 0));
    CrossSwept(levels, stake, one, quantity);
    var cost := Cross(levels, 0, quantity, one).cost;
    WithinStake(cost, quantity, r.quantity, r.limit, stake, one);
    if NoneNegative(levels, 0) {
      CrossNotNegative(levels, 0, quantity, one);
    }
    if r.limit <= one - params.tickSize {
      LimitIsProtective(r.limit, one, params);
      WithinEscrow(cost, quantity, r.limit, PaddedLimit(r.limit, one, params), one);
    }
  }

  /** The escrow can fall short when the cap pulls the limit below a swept level: off the tick grid it does here. */
  lemma EscrowFallsShort()
    ensures var levels, one, params := [Level(95, 100)], 100, Params(10, 1, 0, 0, 0);
            var r, crossing := Sweep(levels, 0, 95, one, Swept(0, 0)), Cross(levels, 0, 100, one);
            var limit := PaddedLimit(r.limit, one, params);
            && Fits(100, r.quantity, limit, 95, one, params)
            && crossing.filled == 100 && crossing.cost == 95 && CeilDiv(100 * limit, one) == 90
  {
    var levels, one, params := [Level(95, 100)], 100, Params(10, 1, 0, 0, 0);
    var r := Sweep(levels, 0, 95, one, Swept(0, 0));
    assert r == Swept(100, 95);
  }

  lemma CrossSwept(levels: seq<Level>, stake: int, one: int, quantity: int)
    requires stake > 0 && one > 0 && CheapestFirst(levels)
    requires 0 < quantity <= Sweep(levels, 0, stake, one, Swept(0, 0)).quantity
    ensures var r, crossing := Sweep(levels, 0, stake, one, Swept(0, 0)), Cross(levels, 0, quantity, one);
            && crossing.filled == quantity && crossing.cost * one <= quantity * r.limit
            && r.limit > 0 && r.quantity <= stake * one / r.limit
  {
    var r := Sweep(levels, 0, stake, one, Swept(0, 0));
    SweepIsGreatest(levels, stake, one);
    var k: nat :| k < |levels| && Attains(levels, k, stake, one, r);
    CrossCost(levels, 0, k + 1, quantity, r.limit, one);
  }

  lemma WithinEscrow(cost: int, quantity: int, swept: int, limit: int, one: int)
    requires one > 0 && quantity >= 0 && 0 <= swept <= limit && cost * one <= quantity * swept
    ensures cost <= CeilDiv(quantity * limit, one)
  {
    MulMono(0, quantity, limit);
    MulMono(swept, limit, quantity);
    CeilGalois(quantity * limit, one, CeilDiv(quantity * limit, one));
    AtMostFromProduct(cost, CeilDiv(quantity * limit, one), one);
  }

  lemma WithinStake(cost: int, quantity: int, swept: int, limit: int, stake: int, one: int)
    requires one > 0 && stake > 0 && limit > 0 && 0 <= quantity <= swept <= stake * one / limit
    requires cost * one <= quantity * limit
    ensures cost <= stake
  {
    MulMono(0, stake, one);
    FloorGalois(stake * one, limit, swept);
    MulMono(quantity, swept, limit);
    AtMostFromProduct(cost, stake, one);
  }
}
