/**
 The engine's rules for leaving, sizing and entering positions, stated from prices, positions and draws alone,
 for an engine with the source's own simulator and cost model.
 */
module BacktestRules {
  import opened Common
  import opened Costs
  import opened FillSimulation
  import opened Backtest

  /** A cost model at a spread, and a fill simulator with its draws from position `base` on. */
  datatype Rules = Rules(costs: CostModel, spread: real, fills: FillConfig, draws: nat -> real, base: nat)

  ghost predicate Follows(w: World, k: Rules) {
    && w.fill == FillRuleOf(k.fills, k.draws, k.base) && UnitDraws(k.draws)
    && w.fillPrice == PriceRuleOf(k.costs, k.spread) && w.oneWay == CostRuleOf(k.costs, k.spread)
    && k.costs.Charges(Some(k.spread))
  }

  function Worst(k: Rules): real {
    k.costs.WorstFraction(Some(k.spread))
  }

  function SaleFee(k: Rules, price: real, qty: int, adv: real): real {
    k.costs.EstimateOneWay(Sell, Notional(price, qty), qty as real, adv, Some(k.spread)).total
  }

  function PurchaseFee(k: Rules, price: real, qty: int, adv: real): real {
    k.costs.EstimateOneWay(Buy, Notional(price, qty), qty as real, adv, Some(k.spread)).total
  }

  /** The draw that decides whether the next order is filled at all. */
  predicate NextFillFails(k: Rules, s: Sim) {
    k.draws(k.base + s.cursor + 1) > k.fills.marketableFillProb
  }

  // ----- Prices --------------------------------------------------------------------------------

  predicate IsLastOn(rows: seq<Bar>, d: int, i: int) {
    0 <= i < |rows| && rows[i].date == d && forall j :: i < j < |rows| ==> rows[j].date != d
  }

  /** The row of a date is the last one with that date, and there is none exactly if no row has it. */
  lemma {:induction false} RowOnIsLast(rows: seq<Bar>, d: int)
    ensures RowOn(rows, d).None? <==> forall i :: 0 <= i < |rows| ==> rows[i].date != d
    ensures RowOn(rows, d).Some? ==> exists i :: IsLastOn(rows, d, i) && RowOn(rows, d).value == rows[i]
  {
    if rows != [] {
      var k := |rows| - 1;
      if rows[k].date == d {
        assert IsLastOn(rows, d, k);
      } else {
        RowOnIsLast(rows[..k], d);
        if RowOn(rows, d).Some? {
          var i :| IsLastOn(rows[..k], d, i) && RowOn(rows[..k], d).value == rows[..k][i];
          assert IsLastOn(rows, d, i);
        }
      }
    }
  }

  /** Rows before the last twenty do not enter the average daily volume. */
  lemma {:induction false} AdvIgnoresOlder(older: seq<Bar>, recent: seq<Bar>)
    requires |recent| == 20
    ensures AverageDailyVolume(older + recent) == AverageDailyVolume(recent)
  {
    assert (older + recent)[|older + recent| - 20..] == recent;
    assert recent[0..] == recent;
  }

  /** It is the mean volume times the mean close of up to twenty rows. */
  lemma {:induction false} AdvOfRecent(rows: seq<Bar>)
    requires 0 < |rows| <= 20
    ensures AverageDailyVolume(rows) * (|rows| * |rows|) as real == TotalVolume(rows) * TotalClose(rows)
  {
    var n := |rows| as real;
    assert |rows| == 20 ==> rows[|rows| - 20..] == rows;
    assert (|rows| * |rows|) as real == n * n;
  }

  // ----- Leaving -------------------------------------------------------------------------------

  function Older(p: Position): Position {
    p.(daysHeld := p.daysHeld + 1)
  }

  /** Neither stop nor target is reached, and the time is not up. */
  predicate Stays(bar: Bar, p: Position) {
    bar.low > p.stopPrice && bar.close < p.takeProfitPrice && p.daysHeld + 1 < p.ttlDays
  }

  /** A leaving position's reason and the price at which it is offered. */
  predicate Offered(bar: Bar, p: Position, reason: ExitReason, price: real) {
    && (bar.low <= p.stopPrice ==> reason == Stop && price == p.stopPrice)
    && (bar.low > p.stopPrice && bar.close >= p.takeProfitPrice ==> reason == TakeProfit && price == p.takeProfitPrice)
    && (bar.low > p.stopPrice && bar.close < p.takeProfitPrice ==> reason == Ttl && price == bar.close)
  }

  /** The trade that a leaving position makes when it is offered at `price`. */
  ghost predicate SoldAt(k: Rules, bar: Bar, adv: real, d: int, p: Position, price: real, x: Trade) {
    && x.symbol == p.symbol && x.strategy == p.strategy
    && x.entryDate == p.entryDate && x.exitDate == d && x.entryPrice == p.entryPrice
    && (price >= 0.0 ==> Part(price, 1.0 - Worst(k)) <= x.exitPrice <= price)
    && x.exitPrice == Part(price, 1.0 - Fraction(k.costs, Notional(price, p.qty), adv, Some(k.spread)))
    && 0 <= x.qty <= p.qty && x.qty <= MaxFillable(k.fills, adv / Max(price, 1.0), Max(bar.volume, 1.0))
    && x.cost == p.costEntry + SaleFee(k, price, p.qty, adv)
    && x.pnlGross == Notional(x.exitPrice, x.qty) - Notional(p.entryPrice, x.qty)
    && x.pnlNet == x.pnlGross - x.cost
  }

  /** The books `t` after `x` was sold of `p`: the proceeds less the fee are in cash, and the unsold part stays. */
  predicate BookedSale(s: Sim, t: Sim, p: Position, x: Trade, fee: real) {
    && t.trades == s.trades + [x]
    && t.cash == s.cash + Notional(x.exitPrice, x.qty) - fee
    && t.open == (if x.qty < p.qty then s.open + [Older(p).(qty := p.qty - x.qty, costEntry := 0.0)] else s.open)
    && t.bought == s.bought
  }

  ghost predicate LeftBy(
    k: Rules, bar: Bar, adv: real, d: int, s: Sim, p: Position, t: Sim, reason: ExitReason, price: real)
  {
    && Offered(bar, p, reason, price)
    && |t.trades| == |s.trades| + 1
    && var x := t.trades[|s.trades|];
    && x.reason == reason && SoldAt(k, bar, adv, d, p, price, x)
    && (x.qty == 0 <==> NextFillFails(k, s))
    && BookedSale(s, t, p, x, SaleFee(k, price, p.qty, adv))
  }

  ghost predicate LeavesBook(k: Rules, bar: Bar, adv: real, d: int, s: Sim, p: Position, t: Sim) {
    exists reason, price :: LeftBy(k, bar, adv, d, s, p, t, reason, price)
  }

  /**
   The exit check of one position, from the day's row and the position alone. Without a price nothing happens to
   it; one that stays is a day older; one that leaves makes a trade at the price of what made it leave.
   */
  ghost predicate ExitFollows(k: Rules, row: Option<Bar>, adv: real, d: int, s: Sim, p: Position, t: Sim) {
    if row.None? || row.value.close <= 0.0 then t == s.(open := s.open + [p])
    else if Stays(row.value, p) then t == s.(open := s.open + [Older(p)])
    else LeavesBook(k, row.value, adv, d, s, p, t)
  }

  lemma {:induction false} ExitIsExact(w: World, k: Rules, d: int, s: Sim, p: Position)
    requires Follows(w, k) && p.qty > 0
    ensures ExitFollows(k, RowOn(Rows(w.market, p.symbol), d), Adv(w, p.symbol), d, s, p, Exit(w, d, s, p))
  {
    var row, adv := RowOn(Rows(w.market, p.symbol), d), Adv(w, p.symbol);
    if row.Some? && row.value.close > 0.0 && !Stays(row.value, p) {
      var (reason, price) := ExitTrigger(Older(p), row.value.low, row.value.close).value;
      LeavingTrades(w, k, row.value, d, s, p, reason, price);
      assert LeftBy(k, row.value, adv, d, s, p, Exit(w, d, s, p), reason, price);
    }
  }

  lemma {:induction false} LeavingTrades(
    w: World, k: Rules, bar: Bar, d: int, s: Sim, p: Position, reason: ExitReason, price: real)
    requires Follows(w, k) && p.qty > 0
    requires RowOn(Rows(w.market, p.symbol), d) == Some(bar) && bar.close > 0.0
    requires ExitTrigger(Older(p), bar.low, bar.close) == Some((reason, price))
    ensures LeftBy(k, bar, Adv(w, p.symbol), d, s, p, Exit(w, d, s, p), reason, price)
  {
    var adv, o := Adv(w, p.symbol), ExitOrder(w, Older(p), price, bar.volume);
    var (fill, used) := Outcome(k.fills, k.draws, k.base + s.cursor, o);
    SaleFill(k, price, p.qty, adv, bar.volume, s, o);
    assert w.fill(s.cursor, o) == (fill, used);
    SettleSells(k, bar, adv, d, s, p, price, fill.filledQty, fill.fillPrice, reason);
    assert Exit(w, d, s, p) == Settle(s, Older(p), d, fill.filledQty, p.qty - fill.filledQty, fill.fillPrice,
                                      SaleFee(k, price, p.qty, adv), reason).(cursor := s.cursor + used);
  }

  /** What the simulator makes of an order to sell. */
  ghost predicate FillsSale(
    k: Rules, price: real, qty: int, adv: real, volume: real, s: Sim, filled: int, fillPrice: real)
  {
    && 0 <= filled <= qty && filled <= MaxFillable(k.fills, adv / Max(price, 1.0), Max(volume, 1.0))
    && (price >= 0.0 ==> Part(price, 1.0 - Worst(k)) <= fillPrice <= price)
    && fillPrice == Part(price, 1.0 - Fraction(k.costs, Notional(price, qty), adv, Some(k.spread)))
    && (filled == 0 <==> NextFillFails(k, s))
  }

  lemma {:induction false} SaleFill(k: Rules, price: real, qty: int, adv: real, volume: real, s: Sim, o: Order)
    requires UnitDraws(k.draws) && k.costs.Charges(Some(k.spread)) && qty > 0
    requires o == Order(qty, k.costs.ApplyFillPrice(price, Sell, adv, Notional(price, qty), Some(k.spread)),
                        adv / Max(price, 1.0), Max(volume, 1.0), true)
    ensures var fill := Outcome(k.fills, k.draws, k.base + s.cursor, o).0;
            && fill.filledQty + fill.remainingQty == qty
            && FillsSale(k, price, qty, adv, volume, s, fill.filledQty, fill.fillPrice)
  {
    FillConservesShares(k.fills, k.draws, k.base + s.cursor, o);
    NothingFilledIff(k.fills, k.draws, k.base + s.cursor, o);
    OneFraction(k.costs, price, Notional(price, qty), qty as real, adv, Some(k.spread));
    if price >= 0.0 {
      FillPriceBounds(k.costs, price, adv, Notional(price, qty), Some(k.spread));
    }
  }

  lemma SettleSells(k: Rules, bar: Bar, adv: real, d: int, s: Sim, p: Position, price: real,
                    filled: int, fillPrice: real, reason: ExitReason)
    requires FillsSale(k, price, p.qty, adv, bar.volume, s, filled, fillPrice)
    ensures var fee := SaleFee(k, price, p.qty, adv);
            var t := Settle(s, Older(p), d, filled, p.qty - filled, fillPrice, fee, reason);
            var x := t.trades[|s.trades|];
            && SoldAt(k, bar, adv, d, p, price, x) && x.reason == reason && x.qty == filled
            && BookedSale(s, t, p, x, fee)
  {
  }

  /** A position is traded exactly on a day with a price on which it does not stay. */
  lemma {:induction false} TradesIff(w: World, k: Rules, d: int, s: Sim, p: Position)
    requires Follows(w, k) && p.qty > 0
    ensures var row := RowOn(Rows(w.market, p.symbol), d);
            |Exit(w, d, s, p).trades| == |s.trades| + 1 <==>
            row.Some? && row.value.close > 0.0 &&
            (row.value.low <= p.stopPrice || row.value.close >= p.takeProfitPrice || p.daysHeld + 1 >= p.ttlDays)
  {
    ExitIsExact(w, k, d, s, p);
  }

  /** The forced close sells a whole position at the last close, at no spread or impact, if there is one. */
  lemma {:induction false} ForceCloseIsExact(w: World, k: Rules, last: int, s: Sim, p: Position)
    requires Follows(w, k)
    ensures var close, t := Close(w.market, p.symbol, last), ForceClose(w, last, s, p);
            var fee := SaleFee(k, close, p.qty, Adv(w, p.symbol));
            var gross := Notional(close, p.qty) - Notional(p.entryPrice, p.qty);
            if close <= 0.0 then t == s.(open := s.open + [p])
            else
              && t.open == s.open
              && t.cash == s.cash + Notional(close, p.qty) - fee
              && t.trades == s.trades + [Trade(p.symbol, p.strategy, p.entryDate, last, p.qty, p.entryPrice, close,
                                               p.costEntry + fee, gross, gross - (p.costEntry + fee), Eod)]
  {
  }

  // ----- Sizing and entering -------------------------------------------------------------------

  /** The largest number of shares that the money covers at this price, but at least one. */
  predicate IsLargest(price: real, money: real, n: int) {
    n >= 1 && (n == 1 || Notional(price, n) <= money) && money < Notional(price, n + 1)
  }

  lemma FloorIsLargest(price: real, money: real)
    requires price > 0.0
    ensures IsLargest(price, money, SharesFor(money, price))
  {
    var x, n := money / price, SharesFor(money, price);
    OneOrFloor(x);
    assert x * price == money;
    NotionalOrdered(x, n, price);
    NotionalOrdered(x, n + 1, price);
  }

  lemma NotionalOrdered(x: real, n: int, price: real)
    requires price > 0.0
    ensures n as real <= x ==> Notional(price, n) <= x * price
    ensures x < n as real ==> x * price < Notional(price, n)
  {
    var y := n as real;
    assert Notional(price, n) - x * price == (y - x) * price;
  }

  /**
   The size of an order: the most that the risked part of the equity covers at the loss per share to the stop,
   and if that is worth more than an equal share of the equity, the most that such a share buys.
   */
  lemma {:induction false} OrderSizeIsLargest(st: Settings, equity: real, close: real, stop: real) returns (q: int)
    requires st.maxOpenPositions > 0
    ensures IsLargest(Max(Part(close, stop), 1.0), Part(equity, st.riskPerTrade), q)
    ensures var share := equity / st.maxOpenPositions as real;
            if Notional(close, q) <= share then OrderSize(st, equity, close, stop) == q
            else IsLargest(Max(close, 1.0), share, OrderSize(st, equity, close, stop))
  {
    var share := equity / st.maxOpenPositions as real;
    q := SharesFor(Part(equity, st.riskPerTrade), Max(Part(close, stop), 1.0));
    FloorIsLargest(Max(Part(close, stop), 1.0), Part(equity, st.riskPerTrade));
    FloorIsLargest(Max(close, 1.0), share);
  }

  /** The position that a filled order for `qty` shares opens. */
  ghost predicate OpenedBy(
    k: Rules, adv: real, volume: real, d: int, strategy: string, sig: Signal, qty: int, close: real, p: Position)
  {
    var stop := if sig.stopDistancePct in {None, Some(0.0)} then 0.03 else sig.stopDistancePct.value;
    && p.symbol == sig.symbol && p.strategy == strategy && p.entryDate == d && p.daysHeld == 0
    && 0 < p.qty <= qty && p.qty <= MaxFillable(k.fills, adv / Max(p.entryPrice, 1.0), Max(volume, 1.0))
    && close <= p.entryPrice <= Part(close, 1.0 + Worst(k))
    && p.entryPrice == Part(close, 1.0 + Fraction(k.costs, Notional(close, qty), adv, Some(k.spread)))
    && p.entryPrice - p.stopPrice == Part(p.entryPrice, stop)
    && p.takeProfitPrice - p.entryPrice == 2.0 * (p.entryPrice - p.stopPrice)
    && p.ttlDays >= 1 && (p.ttlDays == 1 || p.ttlDays * 86400 <= sig.ttlSeconds)
    && sig.ttlSeconds < (p.ttlDays + 1) * 86400
    && p.costEntry == PurchaseFee(k, p.entryPrice, p.qty, adv)
  }

  /** The symbol is not held, there is a free place and a price, the cash covers the order, and it is filled. */
  predicate WillOpen(w: World, k: Rules, d: int, s: Sim, sig: Signal) {
    var close := Close(w.market, sig.symbol, d);
    && (forall p :: p in s.open ==> p.symbol != sig.symbol)
    && |s.open| < w.settings.maxOpenPositions && close > 0.0
    && Notional(close, OrderSize(w.settings, Equity(w, s, d), close, StopDistance(sig))) <= s.cash
    && !NextFillFails(k, s)
  }

  ghost predicate EnteredWith(
    w: World, k: Rules, d: int, s: Sim, strategy: string, sig: Signal, qty: int, t: Sim, p: Position)
  {
    && OpenedBy(k, Adv(w, sig.symbol), EntryVolume(w.market, sig.symbol), d, strategy, sig, qty,
                Close(w.market, sig.symbol, d), p)
    && t.open == s.open + [p] && t.bought == s.bought + [(p.symbol, p.qty)]
    && t.cash == s.cash - Notional(p.entryPrice, p.qty) - p.costEntry
  }

  /** A signal opens a position, and pays for it, exactly when it can; otherwise it changes nothing. */
  lemma {:induction false} EnterIsExact(w: World, k: Rules, d: int, s: Sim, strategy: string, sig: Signal)
    requires Follows(w, k)
    ensures var t := Enter(w, d, s, strategy, sig);
            && t.trades == s.trades
            && (!WillOpen(w, k, d, s, sig) ==> t.open == s.open && t.cash == s.cash && t.bought == s.bought)
            && (WillOpen(w, k, d, s, sig) ==>
                var close := Close(w.market, sig.symbol, d);
                var qty := OrderSize(w.settings, Equity(w, s, d), close, StopDistance(sig));
                t.open != [] && EnteredWith(w, k, d, s, strategy, sig, qty, t, t.open[|t.open| - 1]))
  {
    if Considers(w, d, s, sig) {
      var close := Close(w.market, sig.symbol, d);
      var qty := EntrySize(w, d, s, sig);
      AttemptIsExact(w, k, d, s, strategy, sig, qty, close);
    }
  }

  lemma {:induction false} AttemptIsExact(
    w: World, k: Rules, d: int, s: Sim, strategy: string, sig: Signal, qty: int, close: real)
    requires Follows(w, k) && qty >= 1 && close > 0.0 && close == Close(w.market, sig.symbol, d)
    ensures var t := Attempt(w, d, s, strategy, sig, qty, close);
            && t.trades == s.trades
            && (s.cash < Notional(close, qty) || NextFillFails(k, s) ==>
                t.open == s.open && t.cash == s.cash && t.bought == s.bought)
            && (s.cash >= Notional(close, qty) && !NextFillFails(k, s) ==>
                t.open != [] && EnteredWith(w, k, d, s, strategy, sig, qty, t, t.open[|t.open| - 1]))
  {
    if s.cash >= Notional(close, qty) {
      var adv, o := Adv(w, sig.symbol), EntryOrder(w, sig.symbol, qty, close);
      var (fill, used) := Outcome(k.fills, k.draws, k.base + s.cursor, o);
      PurchaseFill(k, close, qty, adv, EntryVolume(w.market, sig.symbol), s, o);
      assert w.fill(s.cursor, o) == (fill, used);
      if fill.filledQty > 0 {
        NewPositionIs(k, adv, EntryVolume(w.market, sig.symbol), d, s, strategy, sig, qty, close, fill.filledQty,
                      fill.fillPrice);
      }
    }
  }

  /** What the simulator makes of an order to buy. */
  ghost predicate FillsPurchase(
    k: Rules, close: real, qty: int, adv: real, volume: real, s: Sim, filled: int, price: real)
  {
    && 0 <= filled <= qty && filled <= MaxFillable(k.fills, adv / Max(price, 1.0), Max(volume, 1.0))
    && close <= price <= Part(close, 1.0 + Worst(k))
    && price == Part(close, 1.0 + Fraction(k.costs, Notional(close, qty), adv, Some(k.spread)))
    && (filled == 0 <==> NextFillFails(k, s))
  }

  lemma {:induction false} PurchaseFill(k: Rules, close: real, qty: int, adv: real, volume: real, s: Sim, o: Order)
    requires UnitDraws(k.draws) && k.costs.Charges(Some(k.spread)) && qty > 0 && close > 0.0
    requires o.price == k.costs.ApplyFillPrice(close, Buy, adv, Notional(close, qty), Some(k.spread))
    requires o == Order(qty, o.price, adv / Max(o.price, 1.0), Max(volume, 1.0), true)
    ensures var fill := Outcome(k.fills, k.draws, k.base + s.cursor, o).0;
            FillsPurchase(k, close, qty, adv, volume, s, fill.filledQty, fill.fillPrice)
  {
    FillConservesShares(k.fills, k.draws, k.base + s.cursor, o);
    NothingFilledIff(k.fills, k.draws, k.base + s.cursor, o);
    OneFraction(k.costs, close, Notional(close, qty), qty as real, adv, Some(k.spread));
    FillPriceBounds(k.costs, close, adv, Notional(close, qty), Some(k.spread));
  }

  lemma NewPositionIs(k: Rules, adv: real, volume: real, d: int, s: Sim, strategy: string, sig: Signal, qty: int,
                      close: real, filled: int, price: real)
    requires FillsPurchase(k, close, qty, adv, volume, s, filled, price) && filled > 0
    ensures OpenedBy(k, adv, volume, d, strategy, sig, qty, close,
                     NewPosition(sig, strategy, d, filled, price, PurchaseFee(k, price, filled, adv)))
  {
    var p := NewPosition(sig, strategy, d, filled, price, PurchaseFee(k, price, filled, adv));
    StopAndTarget(sig, strategy, d, filled, price, p.costEntry);
  }

  lemma StopAndTarget(sig: Signal, strategy: string, d: int, filled: int, price: real, cost: real)
    ensures var p := NewPosition(sig, strategy, d, filled, price, cost);
            && p.entryPrice - p.stopPrice == Part(price, StopDistance(sig))
            && p.takeProfitPrice - p.entryPrice == 2.0 * (p.entryPrice - p.stopPrice)
  {
  }

  // ----- The order of things -------------------------------------------------------------------

  /** Positions are dealt with in the order in which they are held. */
  lemma {:induction false} ExitsInTurn(w: World, d: int, s: Sim, a: seq<Position>, b: seq<Position>)
    ensures Exits(w, d, s, a + b) == Exits(w, d, Exits(w, d, s, a), b)
  {
    if b == [] {
      assert a + b == a;
    } else {
      assert (a + b)[..|a + b| - 1] == a + b[..|b| - 1];
      ExitsInTurn(w, d, s, a, b[..|b| - 1]);
    }
  }

  /** Signals are taken in the order given. */
  lemma {:induction false} SignalsInTurn(
    w: World, d: int, s: Sim, strategy: string, a: seq<Signal>, b: seq<Signal>)
    ensures EnterAll(w, d, s, strategy, a + b) == EnterAll(w, d, EnterAll(w, d, s, strategy, a), strategy, b)
  {
    if b == [] {
      assert a + b == a;
    } else {
      assert (a + b)[..|a + b| - 1] == a + b[..|b| - 1];
      SignalsInTurn(w, d, s, strategy, a, b[..|b| - 1]);
    }
  }

  /** Strategies come in the order given, and one that raised is as if it were not there. */
  lemma {:induction false} StrategiesInTurn(w: World, d: int, s: Sim, a: seq<StrategyDay>, b: seq<StrategyDay>)
    ensures Strategies(w, d, s, a + b) == Strategies(w, d, Strategies(w, d, s, a), b)
    ensures forall name :: Strategies(w, d, s, a + [StrategyDay(name, None)] + b) == Strategies(w, d, s, a + b)
  {
    if b == [] {
      assert a + b == a;
      forall name ensures Strategies(w, d, s, a + [StrategyDay(name, None)] + b) == Strategies(w, d, s, a + b) {
        assert (a + [StrategyDay(name, None)])[..|a|] == a;
        assert a + [StrategyDay(name, None)] + b == a + [StrategyDay(name, None)];
      }
    } else {
      var init := b[..|b| - 1];
      assert (a + b)[..|a + b| - 1] == a + init;
      StrategiesInTurn(w, d, s, a, init);
      forall name ensures Strategies(w, d, s, a + [StrategyDay(name, None)] + b) == Strategies(w, d, s, a + b) {
        var c := a + [StrategyDay(name, None)];
        assert (c + b)[..|c + b| - 1] == c + init;
      }
    }
  }

  // ----- Ages ----------------------------------------------------------------------------------

  /** The dates after `since` on which the symbol has a price. */
  function PricedDays(m: Market, symbol: string, since: int, dates: seq<int>): nat {
    if dates == [] then 0
    else
      var last := dates[|dates| - 1];
      PricedDays(m, symbol, since, dates[..|dates| - 1]) + if last > since && Close(m, symbol, last) > 0.0 then 1 else 0
  }

  /** `q` is `p`, or what is left of it, after the exit check of a day. */
  predicate CarriedFrom(m: Market, d: int, p: Position, q: Position) {
    q == p.(qty := q.qty, costEntry := q.costEntry,
            daysHeld := p.daysHeld + if Close(m, p.symbol, d) > 0.0 then 1 else 0)
  }

  ghost predicate Carried(m: Market, d: int, held: seq<Position>, q: Position) {
    exists p :: p in held && CarriedFrom(m, d, p, q)
  }

  lemma {:induction false} ExitsCarry(w: World, d: int, s: Sim, held: seq<Position>, q: Position)
    requires q in Exits(w, d, s, held).open
    ensures q in s.open || Carried(w.market, d, held, q)
  {
    if held != [] {
      var init, p := held[..|held| - 1], held[|held| - 1];
      assert held == init + [p];
      var before := Exits(w, d, s, init);
      if q in before.open {
        ExitsCarry(w, d, s, init, q);
      } else {
        ExitCarries(w, d, before, p, q);
      }
    }
  }

  lemma ExitCarries(w: World, d: int, s: Sim, p: Position, q: Position)
    requires q in Exit(w, d, s, p).open && q !in s.open
    ensures CarriedFrom(w.market, d, p, q)
  {
  }

  /** A position that was opened on this day. */
  predicate BornOn(d: int, q: Position) {
    q.entryDate == d && q.daysHeld == 0
  }

  lemma {:induction false} SignalsOpenNew(w: World, d: int, s: Sim, strategy: string, sigs: seq<Signal>, q: Position)
    requires q in EnterAll(w, d, s, strategy, sigs).open
    ensures q in s.open || BornOn(d, q)
  {
    if sigs != [] {
      var before := EnterAll(w, d, s, strategy, sigs[..|sigs| - 1]);
      if q in before.open {
        SignalsOpenNew(w, d, s, strategy, sigs[..|sigs| - 1], q);
      }
    }
  }

  lemma {:induction false} StrategiesOpenNew(w: World, d: int, s: Sim, desk: seq<StrategyDay>, q: Position)
    requires q in Strategies(w, d, s, desk).open
    ensures q in s.open || BornOn(d, q)
  {
    if desk != [] {
      var before, last := Strategies(w, d, s, desk[..|desk| - 1]), desk[|desk| - 1];
      if last.signals.Some? && q !in before.open {
        SignalsOpenNew(w, d, before, last.name, last.signals.value, q);
      } else {
        StrategiesOpenNew(w, d, s, desk[..|desk| - 1], q);
      }
    }
  }

  predicate Rising(dates: seq<int>) {
    forall i, j :: 0 <= i < j < |dates| ==> dates[i] < dates[j]
  }

  predicate IsOfAge(m: Market, dates: seq<int>, q: Position) {
    q.entryDate in dates && q.daysHeld == PricedDays(m, q.symbol, q.entryDate, dates)
  }

  lemma {:induction false} NoDayAfterLast(m: Market, symbol: string, since: int, dates: seq<int>)
    requires forall d :: d in dates ==> d <= since
    ensures PricedDays(m, symbol, since, dates) == 0
  {
    if dates != [] {
      var init, last := dates[..|dates| - 1], dates[|dates| - 1];
      assert last in dates && forall d :: d in init ==> d in dates;
      NoDayAfterLast(m, symbol, since, init);
    }
  }

  /**
   On every day of a run, each open position was opened on one of its dates, and its age is the number of later
   dates with a price: a position ages once a day, not on the day it is opened, and not on a day without a price.
   */
  lemma {:induction false} AgesArePricedDays(w: World, dates: seq<int>, q: Position)
    requires Rising(dates) && q in Days(w, dates).open
    ensures IsOfAge(w.market, dates, q)
  {
    var init, d := dates[..|dates| - 1], dates[|dates| - 1];
    assert dates == init + [d];
    if BornOn(d, q) {
      NoDayAfterLast(w.market, q.symbol, d, dates);
    } else {
      var p := WasOpen(w, d, Days(w, init), q);
      AgesArePricedDays(w, init, p);
      assert p.entryDate < d;
    }
  }

  lemma {:induction false} WasOpen(w: World, d: int, s: Sim, q: Position) returns (p: Position)
    requires q in Day(w, d, s).open && !BornOn(d, q)
    ensures p in s.open && CarriedFrom(w.market, d, p, q)
  {
    var mid := ExitPhase(w, d, s);
    if |mid.open| < w.settings.maxOpenPositions {
      StrategiesOpenNew(w, d, mid, Desk(w, d), q);
    }
    ExitsCarry(w, d, s.(open := []), s.open, q);
    p :| p in s.open && CarriedFrom(w.market, d, p, q);
  }

  // ----- Equity --------------------------------------------------------------------------------

  /** What the open positions would gain if they were sold at the close, for free. */
  function OpenGain(m: Market, open: seq<Position>, d: int): real {
    if open == [] then 0.0
    else
      var p := open[|open| - 1];
      OpenGain(m, open[..|open| - 1], d) + Notional(Close(m, p.symbol, d) - p.entryPrice, p.qty) - p.costEntry
  }

  lemma {:induction false} ValueIsGain(m: Market, open: seq<Position>, d: int)
    ensures Value(m, open, d) - BasisOf(open) == OpenGain(m, open, d)
  {
    if open != [] {
      ValueIsGain(m, open[..|open| - 1], d);
    }
  }

  /** Every point of the equity curve is the capital, the profit of the trades so far, and the open gain. */
  lemma {:induction false} EquityIsProfit(w: World, dates: seq<int>, i: nat)
    requires Conserves(w.fill) && i < |dates|
    ensures var s := Days(w, dates[..i + 1]);
            Curve(w, dates)[i] == w.settings.initialCapital + NetOf(s.trades) + OpenGain(w.market, s.open, dates[i])
  {
    CurveIsProfit(w, dates, i);
    ValueIsGain(w.market, Days(w, dates[..i + 1]).open, dates[i]);
  }
}
