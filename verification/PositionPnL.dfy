/** derivedReads.ts, `computePositionPnL`: the average-cost fold over an account's events in one market. */
module PositionPnL {
  import opened Arithmetic
  import opened OrderBook
  import opened Wrappers

  /** Fill prices are in YES terms. */
  datatype Event =
    | Buy(outcome: Outcome, quantity: nat, price: int)
    | Sell(outcome: Outcome, quantity: nat, price: int)
    | Mint(quantity: nat)
    | Merge(quantity: nat)

  datatype SideBook = SideBook(qty: int, cost: int, realized: int)

  datatype Market = Market(voided: bool, winningOutcome: Option<Outcome>, yesMark: int)

  datatype PnL = PnL(costBasis: int, avgCost: int, markValue: int, unrealizedPnl: int, realizedPnl: int)

  function PriceIn(outcome: Outcome, yesPrice: int, one: int): int {
    if outcome.No? then one - yesPrice else yesPrice
  }

  function Average(b: SideBook, one: int): int
    requires one > 0
  {
    if b.qty > 0 then Trunc(b.cost * one, b.qty) else 0
  }

  function ApplyBuy(b: SideBook, quantity: int, price: int, one: int): SideBook
    requires one > 0
  {
    SideBook(b.qty + quantity, b.cost + Trunc(quantity * price, one), b.realized)
  }

  function CostOut(b: SideBook, sold: int, one: int): int
    requires one > 0
  {
    Trunc(sold * Average(b, one), one)
  }

  /** A sale beyond the quantity held sells what is held. */
  function ApplySell(b: SideBook, quantity: int, price: int, one: int): SideBook
    requires one > 0
  {
    var sold := Min(quantity, b.qty);
    var proceeds, costOut := Trunc(sold * price, one), CostOut(b, sold, one);
    SideBook(b.qty - sold, b.cost - costOut, b.realized + proceeds - costOut)
  }

  function Apply(b: SideBook, e: Event, outcome: Outcome, one: int): SideBook
    requires one > 0
  {
    match e
    case Mint(quantity) => ApplyBuy(b, quantity, one / 2, one)
    case Merge(quantity) => ApplySell(b, quantity, one / 2, one)
    case Buy(o, quantity, price) => if o == outcome then ApplyBuy(b, quantity, PriceIn(o, price, one), one) else b
    case Sell(o, quantity, price) => if o == outcome then ApplySell(b, quantity, PriceIn(o, price, one), one) else b
  }

  function BookOf(events: seq<Event>, outcome: Outcome, one: int): SideBook
    requires one > 0
  {
    if events == [] then SideBook(0, 0, 0)
    else Apply(BookOf(events[..|events| - 1], outcome, one), events[|events| - 1], outcome, one)
  }

  function MarkFor(market: Market, outcome: Outcome, one: int): int {
    if market.voided then one / 2
    else if market.winningOutcome.Some? then (if market.winningOutcome.value == outcome then one else 0)
    else if outcome.Yes? then market.yesMark else one - market.yesMark
  }

  function MarkValue(market: Market, balanceYes: nat, balanceNo: nat, one: int): int
    requires one > 0
  {
    Trunc(balanceYes * MarkFor(market, Yes, one), one) + Trunc(balanceNo * MarkFor(market, No, one), one)
  }

  /** After a result exactly the winning outcome counts, a whole share for each unit held. */
  lemma WinnerTakesAll(market: Market, balanceYes: nat, balanceNo: nat, one: int)
    requires one > 0 && !market.voided && market.winningOutcome.Some?
    ensures MarkValue(market, balanceYes, balanceNo, one)
            == if market.winningOutcome.value.Yes? then balanceYes else balanceNo
  {
    FloorUnique(balanceYes * one, one, balanceYes);
    FloorUnique(balanceNo * one, one, balanceNo);
    FloorUnique(0, one, 0);
    MulMono(0, balanceYes, one);
    MulMono(0, balanceNo, one);
  }

  lemma HalfOf(balance: nat, one: int)
    requires one > 0 && one % 2 == 0
    ensures Trunc(balance * (one / 2), one) == balance / 2
  {
    var half := one / 2;
    MulMono(0, balance, half);
    assert one == 2 * half;
    var q := balance / 2;
    assert q * one == (2 * q) * half;
    MulMono(2 * q, balance, half);
    MulMono(balance, 2 * q + 1, half);
    assert (2 * q + 1) * half == (2 * q) * half + half;
    FloorUnique(balance * half, one, q);
  }

  /** In a voided market both outcomes are marked at half a share, whatever the last price or a recorded winner. */
  lemma VoidPaysHalf(market: Market, balanceYes: nat, balanceNo: nat, one: int)
    requires one > 0 && one % 2 == 0 && market.voided
    ensures MarkValue(market, balanceYes, balanceNo, one) == balanceYes / 2 + balanceNo / 2
  {
    HalfOf(balanceYes, one);
    HalfOf(balanceNo, one);
  }

  /** The two parts of a product of one, each rounded down, are the whole less at most one. */
  lemma SplitFloors(y: int, n: int, one: int, balance: nat)
    requires one > 0 && y >= 0 && n >= 0 && y + n == balance * one
    ensures balance - 1 <= y / one + n / one <= balance
    ensures y % one == 0 ==> y / one + n / one == balance
  {
    FloorUnique(balance * one, one, balance);
    FloorAdd(y, n, one);
    if y % one == 0 {
      var q := y / one;
      assert y == q * one;
      assert (balance - q) * one == balance * one - q * one;
      assert (balance - q + 1) * one == (balance - q) * one + one;
      FloorUnique(n, one, balance - q);
    }
  }

  /** While a market trades, YES counts at the mark and NO at the rest of a share. */
  lemma TradingMarks(market: Market, yes: nat, no: nat, one: int)
    requires one > 0 && !market.voided && market.winningOutcome.None? && 0 <= market.yesMark <= one
    ensures MarkValue(market, yes, no, one) == yes * market.yesMark / one + no * (one - market.yesMark) / one
  {
    MulMono(0, yes, market.yesMark);
    MulMono(0, no, one - market.yesMark);
  }

  /** So q complete sets count at q, less at most a unit of rounding. */
  lemma SetsAreWorthOne(market: Market, sets: nat, one: int)
    requires one > 0 && !market.voided && market.winningOutcome.None? && 0 <= market.yesMark <= one
    ensures sets - 1 <= MarkValue(market, sets, sets, one) <= sets
    ensures sets * market.yesMark % one == 0 ==> MarkValue(market, sets, sets, one) == sets
  {
    TradingMarks(market, sets, sets, one);
    MulMono(0, sets, market.yesMark);
    MulMono(0, sets, one - market.yesMark);
    assert sets * market.yesMark + sets * (one - market.yesMark) == sets * one;
    SplitFloors(sets * market.yesMark, sets * (one - market.yesMark), one, sets);
  }

  /** The cost of the current balance at the book's average. */
  function HeldCost(b: SideBook, held: int, one: int): int
    requires one > 0
  {
    Trunc(held * Average(b, one), one)
  }

  method ComputePositionPnL(
    events: seq<Event>, balanceYes: nat, balanceNo: nat, market: Market, one: int)
    returns (pnl: PnL)
    requires one > 0
    ensures var yes, no := BookOf(events, Yes, one), BookOf(events, No, one);
            && pnl.realizedPnl == yes.realized + no.realized
            && pnl.costBasis == HeldCost(yes, balanceYes, one) + HeldCost(no, balanceNo, one)
            && pnl.markValue == MarkValue(market, balanceYes, balanceNo, one)
            && pnl.unrealizedPnl == pnl.markValue - pnl.costBasis
            && pnl.avgCost
               == if balanceYes + balanceNo > 0 then Trunc(pnl.costBasis * one, balanceYes + balanceNo) else 0
  {
    var yes, no := SideBook(0, 0, 0), SideBook(0, 0, 0);
    for i := 0 to |events|
      invariant yes == BookOf(events[..i], Yes, one) && no == BookOf(events[..i], No, one)
    {
      assert events[..i + 1][..i] == events[..i];
      match events[i] {
        case Mint(quantity) =>
          var each := one / 2;
          yes := ApplyBuy(yes, quantity, each, one);
          no := ApplyBuy(no, quantity, each, one);
        case Merge(quantity) =>
          var each := one / 2;
          yes := ApplySell(yes, quantity, each, one);
          no := ApplySell(no, quantity, each, one);
        case Buy(outcome, quantity, yesPrice) =>
          var price := PriceIn(outcome, yesPrice, one);
          if outcome.Yes? {
            yes := ApplyBuy(yes, quantity, price, one);
          } else {
            no := ApplyBuy(no, quantity, price, one);
          }
        case Sell(outcome, quantity, yesPrice) =>
          var price := PriceIn(outcome, yesPrice, one);
          if outcome.Yes? {
            yes := ApplySell(yes, quantity, price, one);
          } else {
            no := ApplySell(no, quantity, price, one);
          }
      }
    }
    assert events[..|events|] == events;
    var costBasis := HeldCost(yes, balanceYes, one) + HeldCost(no, balanceNo, one);
    var markValue := Trunc(balanceYes * MarkFor(market, Yes, one), one)
      + Trunc(balanceNo * MarkFor(market, No, one), one);
    var totalHeld := balanceYes + balanceNo;
    var avgCost := if totalHeld > 0 then Trunc(costBasis * one, totalHeld) else 0;
    pnl := PnL(costBasis, avgCost, markValue, markValue - costBasis, yes.realized + no.realized);
  }

  // ---- totals that know nothing of average cost ----

  datatype Trade = Bought(quantity: nat, price: int) | Sold(quantity: nat, price: int) | Elsewhere

  /** A fill at a YES price is one at the rest of a share for NO. */
  function OwnPrice(o: Outcome, yesPrice: int, one: int): int {
    match o case Yes => yesPrice case No => one - yesPrice
  }

  /** What an event means for one outcome, in that outcome's own terms. */
  function TradeOf(e: Event, outcome: Outcome, one: int): Trade {
    match e
    case Mint(quantity) => Bought(quantity, one / 2)
    case Merge(quantity) => Sold(quantity, one / 2)
    case Buy(o, quantity, price) => if o == outcome then Bought(quantity, OwnPrice(o, price, one)) else Elsewhere
    case Sell(o, quantity, price) => if o == outcome then Sold(quantity, OwnPrice(o, price, one)) else Elsewhere
  }

  function Held(events: seq<Event>, outcome: Outcome, one: int): nat {
    if events == [] then 0
    else
      var before := Held(events[..|events| - 1], outcome, one);
      match TradeOf(events[|events| - 1], outcome, one)
      case Bought(quantity, _) => before + quantity
      case Sold(quantity, _) => before - Min(quantity, before)
      case Elsewhere => before
  }

  /** Everything paid for the outcome. */
  function Spent(events: seq<Event>, outcome: Outcome, one: int): int
    requires one > 0
  {
    if events == [] then 0
    else
      Spent(events[..|events| - 1], outcome, one)
      + match TradeOf(events[|events| - 1], outcome, one)
        case Bought(quantity, price) => Trunc(quantity * price, one)
        case _ => 0
  }

  /** Everything received for the outcome. */
  function Received(events: seq<Event>, outcome: Outcome, one: int): int
    requires one > 0
  {
    if events == [] then 0
    else
      Received(events[..|events| - 1], outcome, one)
      + match TradeOf(events[|events| - 1], outcome, one)
        case Sold(quantity, price) => Trunc(Min(quantity, Held(events[..|events| - 1], outcome, one)) * price, one)
        case _ => 0
  }

  // ---- conservation ----

  predicate InPriceRange(e: Event, one: int) {
    e.Buy? || e.Sell? ==> 0 <= e.price <= one
  }

  predicate Sane(b: SideBook) { b.qty >= 0 && b.cost >= 0 }

  /** A sale never takes out more cost than the book holds, nor more than its share of it. */
  lemma CostOutBounds(b: SideBook, sold: int, one: int)
    requires one > 0 && Sane(b) && 0 <= sold <= b.qty
    ensures 0 <= CostOut(b, sold, one) <= b.cost
    ensures CostOut(b, sold, one) * b.qty <= sold * b.cost
  {
    if b.qty > 0 {
      AverageBounds(b, one);
      TakenBounds(sold, Average(b, one), one);
      ShareOut(CostOut(b, sold, one), Average(b, one), sold, b.qty, b.cost, one);
      WithinWhole(CostOut(b, sold, one), sold, b.qty, b.cost);
    }
  }

  lemma AverageBounds(b: SideBook, one: int)
    requires one > 0 && Sane(b) && b.qty > 0
    ensures 0 <= Average(b, one) && Average(b, one) * b.qty <= b.cost * one
  {
    MulMono(0, b.cost, one);
    FloorBounds(b.cost * one, b.qty);
  }

  lemma TakenBounds(sold: int, avg: int, one: int)
    requires one > 0 && sold >= 0 && avg >= 0
    ensures 0 <= Trunc(sold * avg, one) && Trunc(sold * avg, one) * one <= sold * avg
  {
    MulMono(0, sold, avg);
    FloorBounds(sold * avg, one);
  }

  lemma WithinWhole(out: int, sold: int, qty: int, cost: int)
    requires qty > 0 && sold <= qty && cost >= 0 && out * qty <= sold * cost
    ensures out <= cost
  {
    MulMono(sold, qty, cost);
    AtMostFromProduct(out, cost, qty);
  }

  lemma ShareOut(out: int, avg: int, sold: int, qty: int, cost: int, one: int)
    requires one > 0 && qty > 0 && sold >= 0 && out * one <= sold * avg && avg * qty <= cost * one
    ensures out * qty <= sold * cost
  {
    MulMono(out * one, sold * avg, qty);
    MulMono(avg * qty, cost * one, sold);
    assert (out * one) * qty == (out * qty) * one;
    assert (sold * avg) * qty == (avg * qty) * sold;
    assert (cost * one) * sold == (sold * cost) * one;
    AtMostFromProduct(out * qty, sold * cost, one);
  }

  lemma BuyKeepsSane(b: SideBook, quantity: int, price: int, one: int)
    requires one > 0 && Sane(b) && quantity >= 0 && price >= 0
    ensures Sane(ApplyBuy(b, quantity, price, one))
  {
    MulMono(0, quantity, price);
  }

  lemma SellKeepsSane(b: SideBook, quantity: int, price: int, one: int)
    requires one > 0 && Sane(b) && quantity >= 0
    ensures Sane(ApplySell(b, quantity, price, one))
  {
    CostOutBounds(b, Min(quantity, b.qty), one);
  }

  lemma StepConserves(b: SideBook, e: Event, outcome: Outcome, one: int)
    requires one > 0 && Sane(b) && InPriceRange(e, one)
    ensures var after := Apply(b, e, outcome, one);
            && Sane(after)
            && match TradeOf(e, outcome, one)
               case Bought(quantity, price) =>
                 after.qty == b.qty + quantity
                 && after.cost - after.realized == b.cost - b.realized + Trunc(quantity * price, one)
               case Sold(quantity, price) =>
                 after.qty == b.qty - Min(quantity, b.qty)
                 && after.cost - after.realized == b.cost - b.realized - Trunc(Min(quantity, b.qty) * price, one)
               case Elsewhere => after == b
  {
    match TradeOf(e, outcome, one)
    case Bought(quantity, price) => BuyKeepsSane(b, quantity, price, one);
    case Sold(quantity, price) => SellKeepsSane(b, quantity, price, one);
    case Elsewhere =>
  }

  /**
   * Conservation under rounding: per outcome, the book's cost less the realized profit is exactly what was spent
   * less what was received, the quantity is what was bought and not sold, and neither quantity nor cost is negative.
   */
  lemma {:induction false} BookConserves(events: seq<Event>, outcome: Outcome, one: int)
    requires one > 0 && forall e :: e in events ==> InPriceRange(e, one)
    ensures var b := BookOf(events, outcome, one);
            && Sane(b) && b.qty == Held(events, outcome, one)
            && b.cost - b.realized == Spent(events, outcome, one) - Received(events, outcome, one)
  {
    if events != [] {
      var n := |events| - 1;
      assert events[n] in events;
      assert forall d :: d in events[..n] ==> d in events;
      BookConserves(events[..n], outcome, one);
      StepConserves(BookOf(events[..n], outcome, one), events[n], outcome, one);
    }
  }

  // ---- dust ----

  lemma AverageFallsShort(b: SideBook, one: int)
    requires one > 0 && Sane(b) && b.qty > 0
    ensures Average(b, one) >= 0 && b.qty * Average(b, one) >= b.cost * one - (b.qty - 1)
  {
    MulMono(0, b.cost, one);
    FloorBounds(b.cost * one, b.qty);
    var avg := Average(b, one);
    assert (avg + 1) * b.qty == b.qty * avg + b.qty;
  }

  lemma TakenAtLeast(qty: int, avg: int, cost: int, one: int)
    requires one > 0 && qty > 0 && avg >= 0 && qty * avg >= cost * one - (qty - 1)
    ensures cost - Trunc(qty * avg, one) <= CeilDiv(qty - 1, one)
  {
    var c := CeilDiv(qty - 1, one);
    CeilGalois(qty - 1, one, c);
    assert (cost - c) * one == cost * one - c * one;
    MulMono(0, avg, qty);
    assert qty * avg == avg * qty;
    FloorGalois(qty * avg, one, cost - c);
  }

  /** The cost of a whole holding at its average is short of its cost by at most (q - 1) / one, rounded up. */
  lemma WholeHolding(b: SideBook, one: int)
    requires one > 0 && Sane(b) && b.qty > 0
    ensures 0 <= b.cost - CostOut(b, b.qty, one) <= CeilDiv(b.qty - 1, one)
  {
    CostOutBounds(b, b.qty, one);
    AverageFallsShort(b, one);
    TakenAtLeast(b.qty, Average(b, one), b.cost, one);
  }

  /** Selling a whole holding of q leaves no quantity and at most (q - 1) / one, rounded up, of cost. */
  lemma SellingAllLeavesDust(b: SideBook, quantity: int, price: int, one: int)
    requires one > 0 && Sane(b) && 0 < b.qty <= quantity
    ensures var after := ApplySell(b, quantity, price, one);
            after.qty == 0 && 0 <= after.cost <= CeilDiv(b.qty - 1, one)
  {
    WholeHolding(b, one);
  }

  /** What rounding hides of one outcome: all the cost left in an empty book, or the shortfall of the average. */
  function Dust(b: SideBook, one: int): int
    requires one > 0
  {
    b.cost - HeldCost(b, b.qty, one)
  }

  /** At most (q - 1) / one, rounded up, for a holding of q. */
  function DustOf(q: nat, one: int): int
    requires one > 0
  {
    if q == 0 then 0 else CeilDiv(q - 1, one)
  }

  lemma DustMono(q: nat, m: nat, one: int)
    requires one > 0 && q <= m
    ensures 0 <= DustOf(q, one) <= DustOf(m, one)
  {
    if m > 0 {
      CeilGalois(m - 1, one, DustOf(m, one));
      CeilGalois(m - 1, one, -1);
    }
    if q > 0 {
      CeilGalois(q - 1, one, DustOf(m, one));
      CeilGalois(q - 1, one, -1);
    }
  }

  /** The largest quantity held at any time. */
  function Peak(events: seq<Event>, outcome: Outcome, one: int): (m: nat)
    ensures Held(events, outcome, one) <= m
  {
    if events == [] then 0 else Max(Peak(events[..|events| - 1], outcome, one), Held(events, outcome, one))
  }

  lemma BuyKeepsDust(b: SideBook, quantity: nat, price: int, dust: int, one: int)
    requires one > 0 && Sane(b) && (b.qty == 0 ==> b.cost <= dust)
    ensures ApplyBuy(b, quantity, price, one).qty == 0 ==> ApplyBuy(b, quantity, price, one).cost <= dust
  {
    if quantity == 0 {
      assert quantity * price == 0;
    }
  }

  lemma SellKeepsDust(b: SideBook, quantity: nat, price: int, m: nat, one: int)
    requires one > 0 && Sane(b) && b.qty <= m && (b.qty == 0 ==> b.cost <= DustOf(m, one))
    ensures ApplySell(b, quantity, price, one).qty == 0 ==> ApplySell(b, quantity, price, one).cost <= DustOf(m, one)
  {
    if b.qty == 0 {
      CostOutBounds(b, 0, one);
    } else if b.qty <= quantity {
      SellingAllLeavesDust(b, quantity, price, one);
      DustMono(b.qty, m, one);
    }
  }

  lemma AppliesTrade(b: SideBook, e: Event, outcome: Outcome, one: int)
    requires one > 0
    ensures Apply(b, e, outcome, one)
            == match TradeOf(e, outcome, one)
               case Bought(quantity, price) => ApplyBuy(b, quantity, price, one)
               case Sold(quantity, price) => ApplySell(b, quantity, price, one)
               case Elsewhere => b
  {}

  lemma TradeKeepsDust(b: SideBook, e: Event, outcome: Outcome, m: nat, one: int)
    requires one > 0 && Sane(b) && b.qty <= m && (b.qty == 0 ==> b.cost <= DustOf(m, one))
    ensures var after := Apply(b, e, outcome, one);
            after.qty == 0 ==> after.cost <= DustOf(m, one)
  {
    AppliesTrade(b, e, outcome, one);
    match TradeOf(e, outcome, one)
    case Bought(quantity, price) => BuyKeepsDust(b, quantity, price, DustOf(m, one), one);
    case Sold(quantity, price) => SellKeepsDust(b, quantity, price, m, one);
    case Elsewhere =>
  }

  /** Dust does not pile up: however often a book was emptied, it keeps no more than its largest holding leaves. */
  lemma {:induction false} EmptiedBookDust(events: seq<Event>, outcome: Outcome, one: int)
    requires one > 0 && forall e :: e in events ==> InPriceRange(e, one)
    requires BookOf(events, outcome, one).qty == 0
    ensures 0 <= BookOf(events, outcome, one).cost <= DustOf(Peak(events, outcome, one), one)
  {
    BookConserves(events, outcome, one);
    if events != [] {
      var front, last := events[..|events| - 1], events[|events| - 1];
      assert last in events && forall d :: d in front ==> d in events;
      BookConserves(front, outcome, one);
      if BookOf(front, outcome, one).qty == 0 {
        EmptiedBookDust(front, outcome, one);
      }
      TradeKeepsDust(BookOf(front, outcome, one), last, outcome, Peak(front, outcome, one), one);
      DustMono(Peak(front, outcome, one), Peak(events, outcome, one), one);
    }
  }

  /** The dust of a book is below its holding's bound, or below the bound of its largest holding when it is empty. */
  lemma DustBounds(events: seq<Event>, outcome: Outcome, one: int)
    requires one > 0 && forall e :: e in events ==> InPriceRange(e, one)
    ensures 0 <= Dust(BookOf(events, outcome, one), one) <= DustOf(DustyHolding(events, outcome, one), one)
  {
    BookConserves(events, outcome, one);
    var b := BookOf(events, outcome, one);
    if b.qty > 0 {
      WholeHolding(b, one);
    } else {
      EmptiedBookDust(events, outcome, one);
    }
  }

  function DustyHolding(events: seq<Event>, outcome: Outcome, one: int): nat {
    var held := Held(events, outcome, one);
    if held > 0 then held else Peak(events, outcome, one)
  }

  /** What a wallet's holding is worth, up to the rounding of each outcome. */
  predicate Worth(value: int, market: Market, yes: nat, no: nat, one: int)
    requires one > 0
  {
    if market.voided then one % 2 == 0 ==> value == yes / 2 + no / 2
    else if market.winningOutcome.Some? then value == if market.winningOutcome.value.Yes? then yes else no
    else 0 <= market.yesMark <= one ==>
           value == yes * market.yesMark / one + no * (one - market.yesMark) / one
           && (yes == no ==> yes - 1 <= value <= yes)
  }

  lemma WorthOf(market: Market, yes: nat, no: nat, one: int)
    requires one > 0
    ensures Worth(MarkValue(market, yes, no, one), market, yes, no, one)
  {
    if market.voided {
      if one % 2 == 0 {
        VoidPaysHalf(market, yes, no, one);
      }
    } else if market.winningOutcome.Some? {
      WinnerTakesAll(market, yes, no, one);
    } else if 0 <= market.yesMark <= one {
      TradingMarks(market, yes, no, one);
      if yes == no {
        SetsAreWorthOne(market, yes, one);
      }
    }
  }

  /**
   * The profit reported for a wallet that holds what it traded, realized and unrealized together, is the worth of its
   * holding plus everything received less everything spent, up to the dust of the two averages: for each outcome at
   * most (q - 1) / one, rounded up, for the q held, or for the largest q ever held when nothing is. The worth is the
   * winning balance after a result, half of both in a voided market, and q for q complete sets while trading, less at
   * most a unit.
   */
  lemma ProfitIsAccounted(events: seq<Event>, market: Market, one: int)
    requires one > 0 && forall e :: e in events ==> InPriceRange(e, one)
    ensures var yes, no := BookOf(events, Yes, one), BookOf(events, No, one);
            var heldYes, heldNo := Held(events, Yes, one), Held(events, No, one);
            var basis := HeldCost(yes, heldYes, one) + HeldCost(no, heldNo, one);
            var value := MarkValue(market, heldYes, heldNo, one);
            && (yes.realized + no.realized) + (value - basis)
               == value + Received(events, Yes, one) + Received(events, No, one)
                  - Spent(events, Yes, one) - Spent(events, No, one)
                  + Dust(yes, one) + Dust(no, one)
            && Worth(value, market, heldYes, heldNo, one)
            && 0 <= Dust(yes, one) <= DustOf(DustyHolding(events, Yes, one), one)
            && 0 <= Dust(no, one) <= DustOf(DustyHolding(events, No, one), one)
  {
    BookConserves(events, Yes, one);
    BookConserves(events, No, one);
    DustBounds(events, Yes, one);
    DustBounds(events, No, one);
    WorthOf(market, Held(events, Yes, one), Held(events, No, one), one);
  }
}
