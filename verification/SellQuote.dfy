/** derivedReads.ts, `quoteBinarySellOverBook`: unwinding a position into the bids above a protective floor. */
module SellQuote {
  import opened Arithmetic
  import opened OrderBook
  import opened OrderQuote
  import opened Wrappers

  datatype SellQuote = SellQuote(
    side: Outcome, yesPrice: int, limitPrice: int, quantity: int, fillableQuantity: int, estProceeds: int)

  function Bids(book: Book, side: Outcome): seq<Level> {
    if side.Yes? then book.yesBids else book.noBids
  }

  /** The best bid less its cushion, down to the tick but at least one tick. */
  function FloorPrice(bestBid: int, params: Params): int
    requires params.tickSize > 0
  {
    var slip := Slippage(bestBid, params);
    var raw := if bestBid > slip then bestBid - slip else params.tickSize;
    var aligned := raw / params.tickSize * params.tickSize;
    if aligned < params.tickSize then params.tickSize else aligned
  }

  predicate Sellable(q: int, quantity: int, params: Params)
    requires params.lotSize > 0
  {
    q > 0 && q % params.lotSize == 0 && q >= params.minQuantity && q <= quantity
  }

  datatype Unwinding = Unwinding(filled: int, proceeds: int)

  /** What the bids from level i on absorb of the remaining quantity at the floor or better. */
  function Unwind(levels: seq<Level>, i: nat, floor: int, remaining: int, one: int): Unwinding
    requires i <= |levels| && one > 0 && floor > 0
    decreases |levels| - i
  {
    if i == |levels| || levels[i].price < floor then Unwinding(0, 0)
    else if levels[i].price >= one || levels[i].quantity <= 0 then Unwind(levels, i + 1, floor, remaining, one)
    else if remaining <= 0 then Unwinding(0, 0)
    else
      var take := Min(levels[i].quantity, remaining);
      var rest := Unwind(levels, i + 1, floor, remaining - take, one);
      Unwinding(take + rest.filled, take * levels[i].price / one + rest.proceeds)
  }

  method QuoteSell(
    book: Book, side: Outcome, quantity: int, one: int, params: Params)
    returns (quote: Option<SellQuote>)
    ensures Degenerate(params, one, quantity) || (if side.Yes? then book.yesBids else book.noBids) == [] ==> quote.None?
    ensures !Degenerate(params, one, quantity) && (if side.Yes? then book.yesBids else book.noBids) != [] ==>
              var bids := if side.Yes? then book.yesBids else book.noBids;
              var floor := FloorPrice(bids[0].price, params);
              && (quote.Some? <==> bids[0].price > 0 && floor < one && exists q :: Sellable(q, quantity, params))
              && (quote.Some? ==>
                    var q := quote.value;
                    && q.side == side && q.limitPrice == floor
                       && q.yesPrice == (if side.Yes? then floor else one - floor)
                    && Sellable(q.quantity, quantity, params)
                    && q.quantity > 0 && q.quantity % params.lotSize == 0
                    && params.minQuantity <= q.quantity <= quantity
                    && (forall other :: Sellable(other, quantity, params) ==> other <= q.quantity)
                    && floor > 0 && Unwinding(q.fillableQuantity, q.estProceeds)
                       == Unwind(bids, 0, floor, q.quantity, one))
  {
    if Degenerate(params, one, quantity) {
      return None;
    }
    var bids := Bids(book, side);
    if bids == [] || bids[0].price <= 0 {
      return None;
    }
    var floor := FloorPrice(bids[0].price, params);
    var yesPrice := if side.Yes? then floor else one - floor;
    if yesPrice <= 0 || yesPrice >= one {
      return None;
    }
    var lots := quantity / params.lotSize * params.lotSize;
    SnapDown(quantity, params.lotSize, 0);
    forall q | Sellable(q, quantity, params) ensures q <= lots {
      SnapDown(quantity, params.lotSize, q);
    }
    if lots <= 0 || lots < params.minQuantity {
      return None;
    }
    assert Sellable(lots, quantity, params);
    var filled, proceeds := WalkBids(bids, floor, lots, one);
    return Some(SellQuote(side, yesPrice, floor, lots, filled, proceeds));
  }

  method WalkBids(bids: seq<Level>, floor: int, lots: int, one: int) returns (filled: int, proceeds: int)
    requires one > 0 && floor > 0
    ensures Unwinding(filled, proceeds) == Unwind(bids, 0, floor, lots, one)
  {
    filled, proceeds := 0, 0;
    var i := 0;
    while i < |bids|
      invariant i <= |bids|
      invariant var rest := Unwind(bids, i, floor, lots - filled, one);
                Unwind(bids, 0, floor, lots, one) == Unwinding(filled + rest.filled, proceeds + rest.proceeds)
    {
      var level := bids[i];
      if level.price < floor {
        break;
      }
      if level.price < one && level.quantity > 0 {
        var headroom := lots - filled;
        if headroom <= 0 {
          break;
        }
        var take := if level.quantity < headroom then level.quantity else headroom;
        filled := filled + take;
        proceeds := proceeds + take * level.price / one;
      }
      i := i + 1;
    }
  }

  // ---- the floor ----

  /**
   * The floor is on the tick grid, at least one tick, and at or below the best bid if and only if the best bid is at
   * least a tick; where the cushion leaves room it gives up less than one further tick.
   */
  lemma FloorIsProtective(bestBid: int, params: Params)
    requires params.tickSize > 0 && bestBid > 0
    ensures var floor, slip := FloorPrice(bestBid, params), Slippage(bestBid, params);
            && floor % params.tickSize == 0 && floor >= params.tickSize
            && (floor <= bestBid <==> bestBid >= params.tickSize)
            && (bestBid - slip >= params.tickSize ==> bestBid - slip - params.tickSize < floor <= bestBid - slip)
  {
    var tick, slip := params.tickSize, Slippage(bestBid, params);
    SlippageNotNegative(bestBid, params);
    var raw := if bestBid > slip then bestBid - slip else tick;
    FloorBounds(raw, tick);
    MultipleMod(raw / tick, tick);
    MultipleMod(1, tick);
  }

  // ---- the fill ----

  /** Best price first on the bid side: dearest first. */
  ghost predicate Descending(levels: seq<Level>) {
    forall i, j :: 0 <= i < j < |levels| ==> levels[i].price >= levels[j].price
  }

  /** What the usable bids at the floor or better hold. */
  function DepthFrom(levels: seq<Level>, i: nat, floor: int, one: int): nat
    requires i <= |levels|
    decreases |levels| - i
  {
    if i == |levels| then 0
    else
      DepthFrom(levels, i + 1, floor, one)
      + if Usable(levels[i], one) && levels[i].price >= floor then levels[i].quantity else 0
  }

  lemma {:induction false} NothingDeeper(levels: seq<Level>, i: nat, floor: int, one: int)
    requires i <= |levels| && forall k :: i <= k < |levels| ==> levels[k].price < floor
    ensures DepthFrom(levels, i, floor, one) == 0
    decreases |levels| - i
  {
    if i < |levels| {
      NothingDeeper(levels, i + 1, floor, one);
    }
  }

  /**
   * With the bids best-first the quote reports exactly what can cross: the position, or all that is bid above the
   * floor.
   */
  lemma {:induction false} UnwindFills(levels: seq<Level>, i: nat, floor: int, remaining: int, one: int)
    requires i <= |levels| && one > 0 && floor > 0 && remaining >= 0 && Descending(levels)
    ensures Unwind(levels, i, floor, remaining, one).filled == Min(remaining, DepthFrom(levels, i, floor, one))
    decreases |levels| - i
  {
    if i < |levels| {
      if levels[i].price < floor {
        NothingDeeper(levels, i, floor, one);
      } else if levels[i].price >= one || levels[i].quantity <= 0 {
        UnwindFills(levels, i + 1, floor, remaining, one);
      } else if remaining > 0 {
        UnwindFills(levels, i + 1, floor, remaining - Min(levels[i].quantity, remaining), one);
      }
    }
  }

  /** The proceeds lie between the fill at the floor, less one unit for each level, and the fill at the best bid. */
  lemma {:induction false} ProceedsBounds(levels: seq<Level>, i: nat, floor: int, remaining: int, one: int, best: int)
    requires i <= |levels| && one > 0 && floor > 0 && forall k :: i <= k < |levels| ==> levels[k].price <= best
    ensures var u := Unwind(levels, i, floor, remaining, one);
            && u.filled >= 0
            && u.filled * floor - (|levels| - i) * one <= u.proceeds * one <= u.filled * best
    decreases |levels| - i
  {
    if i < |levels| && levels[i].price >= floor {
      if levels[i].price >= one || levels[i].quantity <= 0 {
        ProceedsBounds(levels, i + 1, floor, remaining, one, best);
        assert (|levels| - i) * one == (|levels| - i - 1) * one + one;
      } else if remaining > 0 {
        var take := Min(levels[i].quantity, remaining);
        ProceedsBounds(levels, i + 1, floor, remaining - take, one, best);
        ProceedsStep(take, levels[i].price, Unwind(levels, i + 1, floor, remaining - take, one), |levels| - i - 1,
                     floor, best, one);
      } else {
        MulMono(0, |levels| - i, one);
      }
    } else {
      MulMono(0, |levels| - i, one);
    }
  }

  lemma ProceedsStep(take: int, price: int, rest: Unwinding, left: int, floor: int, best: int, one: int)
    requires one > 0 && take > 0 && 0 < floor <= price <= best
    requires rest.filled * floor - left * one <= rest.proceeds * one <= rest.filled * best
    ensures (take + rest.filled) * floor - (left + 1) * one <= (take * price / one + rest.proceeds) * one
            <= (take + rest.filled) * best
  {
    MulMono(floor, price, take);
    MulMono(price, best, take);
    MulMono(0, price, take);
    FloorBounds(take * price, one);
    assert (take + rest.filled) * floor == take * floor + rest.filled * floor;
    assert (take + rest.filled) * best == take * best + rest.filled * best;
    assert (take * price / one + rest.proceeds) * one == (take * price / one) * one + rest.proceeds * one;
    assert (left + 1) * one == left * one + one;
    assert (take * price / one + 1) * one == (take * price / one) * one + one;
  }

  // ---- against the order quote for the same fill ----

  /** No bid at or above one share holds anything. */
  ghost predicate NoneAbove(levels: seq<Level>, i: nat, one: int) {
    forall k :: i <= k < |levels| && levels[k].quantity > 0 ==> levels[k].price < one
  }

  /** The unwinding fills between nothing and what is asked, and pays less than a share for each one sold. */
  lemma {:induction false} UnwindWithin(levels: seq<Level>, i: nat, floor: int, remaining: int, one: int)
    requires i <= |levels| && one > 0 && floor > 0 && remaining >= 0
    ensures var u := Unwind(levels, i, floor, remaining, one);
            0 <= u.filled <= remaining && 0 <= u.proceeds && (u.filled > 0 ==> u.proceeds < u.filled)
            && (u.filled == 0 ==> u.proceeds == 0)
    decreases |levels| - i
  {
    if i < |levels| && levels[i].price >= floor {
      if levels[i].price >= one || levels[i].quantity <= 0 {
        UnwindWithin(levels, i + 1, floor, remaining, one);
      } else if remaining > 0 {
        var take := Min(levels[i].quantity, remaining);
        UnwindWithin(levels, i + 1, floor, remaining - take, one);
        BelowShare(take, levels[i].price, one);
      }
    }
  }

  lemma BelowShare(take: int, price: int, one: int)
    requires one > 0 && take > 0 && 0 < price < one
    ensures 0 <= take * price / one < take
  {
    MulMono(0, price, take);
    MulMono(price, one - 1, take);
    assert take * (one - 1) == take * one - take;
    FloorBounds(take * price, one);
    LessFromProduct(take * price / one, take, one);
  }

  lemma AtLeastShare(take: int, price: int, one: int)
    requires one > 0 && take >= 0 && price >= one
    ensures Trunc(take * price, one) >= take
  {
    MulMono(one, price, take);
    MulMono(0, take, one);
    FloorGalois(take * price, one, take);
  }

  /** Asking for more sells more, and pays at most one unit more for each share more. */
  lemma {:induction false} MoreSells(levels: seq<Level>, i: nat, floor: int, r: int, more: int, one: int)
    requires i <= |levels| && one > 0 && floor > 0 && r >= 0 && more >= 0
    ensures var u, v := Unwind(levels, i, floor, r, one), Unwind(levels, i, floor, r + more, one);
            u.filled <= v.filled <= u.filled + more && v.proceeds - u.proceeds <= v.filled - u.filled
    decreases |levels| - i
  {
    if i < |levels| && levels[i].price >= floor {
      if levels[i].price >= one || levels[i].quantity <= 0 {
        MoreSells(levels, i + 1, floor, r, more, one);
      } else if r == 0 {
        UnwindWithin(levels, i, floor, more, one);
      } else if levels[i].quantity <= r {
        MoreSells(levels, i + 1, floor, r - levels[i].quantity, more, one);
      } else {
        var take := Min(levels[i].quantity, r + more);
        UnwindWithin(levels, i + 1, floor, r + more - take, one);
        UnwindWithin(levels, i + 1, floor, 0, one);
        PartOfLevel(r, take, levels[i].price, one);
      }
    }
  }

  lemma PartOfLevel(r: int, take: int, price: int, one: int)
    requires one > 0 && 0 <= r <= take && 0 < price < one
    ensures take * price / one - r * price / one <= take - r
  {
    var more := take - r;
    MulMono(0, price, r);
    MulMono(0, price, more);
    MulMono(price, one, more);
    assert take * price == r * price + more * price;
    FloorShift(r * price, more * price, one, more);
  }

  /** Asking for exactly what can be filled changes nothing. */
  lemma {:induction false} AskForFill(levels: seq<Level>, i: nat, floor: int, remaining: int, one: int)
    requires i <= |levels| && one > 0 && floor > 0 && remaining >= 0
    ensures var u := Unwind(levels, i, floor, remaining, one);
            Unwind(levels, i, floor, u.filled, one) == u
    decreases |levels| - i
  {
    UnwindWithin(levels, i, floor, remaining, one);
    if i < |levels| && levels[i].price >= floor {
      if levels[i].price >= one || levels[i].quantity <= 0 {
        AskForFill(levels, i + 1, floor, remaining, one);
      } else if remaining > 0 {
        var take := Min(levels[i].quantity, remaining);
        UnwindWithin(levels, i + 1, floor, remaining - take, one);
        AskForFill(levels, i + 1, floor, remaining - take, one);
      }
    }
  }

  /** Both walks take the same from a bid below one share. */
  lemma SharedLevel(levels: seq<Level>, i: nat, floor: int, fill: int, one: int)
    requires i < |levels| && one > 0 && 0 < floor <= levels[i].price < one && levels[i].quantity > 0 && fill > 0
    ensures var take := Min(levels[i].quantity, fill);
            var paid, rest := take * levels[i].price / one, fill - take;
            var crossed, unwound := Cross(levels, i + 1, rest, one), Unwind(levels, i + 1, floor, rest, one);
            && Cross(levels, i, fill, one) == Crossing(paid + crossed.cost, take + crossed.filled, 1 + crossed.consumed)
            && Unwind(levels, i, floor, fill, one) == Unwinding(take + unwound.filled, paid + unwound.proceeds)
  {
    MulMono(0, levels[i].price, Min(levels[i].quantity, fill));
  }

  /** The order quote fills what the unwinding can, and never pays less for it. */
  lemma {:induction false} CrossCovers(levels: seq<Level>, i: nat, floor: int, fill: int, one: int)
    requires i <= |levels| && one > 0 && floor > 0 && fill >= 0
    requires Unwind(levels, i, floor, fill, one).filled == fill
    ensures Cross(levels, i, fill, one).filled == fill
    ensures Cross(levels, i, fill, one).cost >= Unwind(levels, i, floor, fill, one).proceeds
    ensures NoneAbove(levels, i, one) ==>
              Cross(levels, i, fill, one).cost == Unwind(levels, i, floor, fill, one).proceeds
    decreases |levels| - i
  {
    if fill == 0 {
      UnwindWithin(levels, i, floor, 0, one);
      assert Cross(levels, i, 0, one) == Crossing(0, 0, 0);
    } else if i < |levels| && levels[i].price >= floor {
      if levels[i].quantity <= 0 {
        CrossCovers(levels, i + 1, floor, fill, one);
      } else if levels[i].price < one {
        CrossCovers(levels, i + 1, floor, fill - Min(levels[i].quantity, fill), one);
        SharedLevel(levels, i, floor, fill, one);
      } else {
        SkippedCovers(levels, i, floor, fill, one);
      }
    }
  }

  /** At a bid of a share or more the order quote takes at least a unit a share, where the unwinding takes less. */
  lemma {:induction false} SkippedCovers(levels: seq<Level>, i: nat, floor: int, fill: int, one: int)
    requires i < |levels| && one > 0 && 0 < floor <= levels[i].price && fill > 0
    requires levels[i].quantity > 0 && levels[i].price >= one
    requires Unwind(levels, i, floor, fill, one).filled == fill
    ensures Cross(levels, i, fill, one).filled == fill
    ensures Cross(levels, i, fill, one).cost >= Unwind(levels, i, floor, fill, one).proceeds
    decreases |levels| - i, 0
  {
    var take := Min(levels[i].quantity, fill);
    AtLeastShare(take, levels[i].price, one);
    MoreSells(levels, i + 1, floor, fill - take, take, one);
    UnwindWithin(levels, i + 1, floor, fill - take, one);
    CrossCovers(levels, i + 1, floor, fill - take, one);
  }

  /**
   * Against `quoteBinaryOrderOverBook` for the fillable quantity in the same bids: both fill it, and the estimate is
   * never above the order quote. Without a bid at or above one share, which the unwinding skips, they are equal.
   */
  lemma SellAgreesWithOrder(levels: seq<Level>, i: nat, floor: int, remaining: int, one: int)
    requires i <= |levels| && one > 0 && floor > 0 && remaining >= 0
    ensures var u := Unwind(levels, i, floor, remaining, one);
            var crossing := Cross(levels, i, u.filled, one);
            && 0 <= u.filled <= remaining && crossing.filled == u.filled && crossing.cost >= u.proceeds
            && (NoneAbove(levels, i, one) ==> crossing.cost == u.proceeds)
  {
    UnwindWithin(levels, i, floor, remaining, one);
    AskForFill(levels, i, floor, remaining, one);
    CrossCovers(levels, i, floor, Unwind(levels, i, floor, remaining, one).filled, one);
  }

  /** They do differ as soon as the best bid is at or above one share and would take the whole fill. */
  lemma SellUnderstates(levels: seq<Level>, floor: int, remaining: int, one: int)
    requires levels != [] && one > 0 && 0 < floor <= levels[0].price && remaining >= 0
    requires levels[0].price >= one && levels[0].quantity >= Unwind(levels, 0, floor, remaining, one).filled > 0
    ensures var u := Unwind(levels, 0, floor, remaining, one);
            Cross(levels, 0, u.filled, one).cost > u.proceeds
  {
    var u := Unwind(levels, 0, floor, remaining, one);
    UnwindWithin(levels, 0, floor, remaining, one);
    AtLeastShare(u.filled, levels[0].price, one);
    assert Cross(levels, 1, 0, one) == Crossing(0, 0, 0);
  }
}
