/** The engine that runs the backtest: its loops, proved against the day loop's functions. */
module Engine {
  import opened Common
  import opened Costs
  import opened FillSimulation
  import opened Backtest
  import BacktestRules

  datatype BacktestResult = BacktestResult(initialCapital: real, finalCapital: real, trades: seq<Trade>,
                                           equityCurve: seq<real>)

  class BacktestEngine {
    const settings: Settings
    const fillPrice: PriceRule
    const oneWay: CostRule
    const simulator: FillSimulator

    constructor (settings: Settings, costs: CostModel, spread: real, simulator: FillSimulator)
      ensures this.settings == settings && this.simulator == simulator
      ensures fillPrice == PriceRuleOf(costs, spread) && oneWay == CostRuleOf(costs, spread)
    {
      this.settings, this.simulator := settings, simulator;
      fillPrice, oneWay := PriceRuleOf(costs, spread), CostRuleOf(costs, spread);
    }

    /** The world of a run that starts when the simulator has handed out `base` draws. */
    function WorldFrom(base: nat, market: Market, feed: map<int, seq<StrategyDay>>): World {
      World(settings, market, feed, fillPrice, oneWay, FillRuleOf(simulator.config, simulator.draws, base))
    }

    /** The state that the engine's variables amount to. */
    ghost predicate IsAt(s: Sim, base: nat, cash: real, open: seq<Position>, trades: seq<Trade>)
      reads simulator
    {
      s.cash == cash && s.open == open && s.trades == trades && base + s.cursor == simulator.cursor
    }

    /** Book a sale: proceeds less cost into cash, the trade recorded, the unsold part still open. */
    method Record(ghost s: Sim, cash: real, stillOpen: seq<Position>, trades: seq<Trade>, pos: Position, d: int,
                  filled: int, left: int, price: real, exitCost: real, reason: ExitReason)
      returns (cash': real, stillOpen': seq<Position>, trades': seq<Trade>)
      requires s.cash == cash && s.open == stillOpen && s.trades == trades
      ensures var t := Settle(s, pos, d, filled, left, price, exitCost, reason);
              t.cash == cash' && t.open == stillOpen' && t.trades == trades'
    {
      var totalCost := pos.costEntry + exitCost;
      var gross := Gross(price, pos.entryPrice, filled);
      cash' := cash + (Notional(price, filled) - exitCost);
      trades' := trades + [Trade(pos.symbol, pos.strategy, pos.entryDate, d, filled, pos.entryPrice,
                                 price, totalCost, gross, gross - totalCost, reason)];
      stillOpen' := stillOpen;
      if left > 0 {
        stillOpen' := stillOpen + [pos.(qty := left, costEntry := 0.0)];
      }
    }

    /** The fill of an order, from the simulator's current position. */
    method Fill(ghost w: World, ghost base: nat, ghost at: nat, o: Order) returns (fill: FillResult)
      requires w.fill == FillRuleOf(simulator.config, simulator.draws, base)
      requires base + at == simulator.cursor
      modifies simulator
      ensures fill == w.fill(at, o).0 && base + at + w.fill(at, o).1 == simulator.cursor
    {
      assert w.fill(at, o) == Outcome(simulator.config, simulator.draws, base + at, o);
      fill := simulator.SimulateFill(o.qty, o.price, o.advShares, o.barVolume, o.isMarketable);
    }

    /** The exit check of one held position. */
    method CheckExit(ghost w: World, ghost base: nat, market: Market, d: int, ghost s: Sim,
                     cash: real, stillOpen: seq<Position>, trades: seq<Trade>, p: Position)
      returns (cash': real, stillOpen': seq<Position>, trades': seq<Trade>)
      requires w == WorldFrom(base, market, w.feed)
      requires IsAt(s, base, cash, stillOpen, trades)
      modifies simulator
      ensures IsAt(Exit(w, d, s, p), base, cash', stillOpen', trades')
    {
      cash', stillOpen', trades' := cash, stillOpen, trades;
      var row := RowOn(Rows(market, p.symbol), d);
      if row.None? || row.value.close <= 0.0 {
        stillOpen' := stillOpen + [p];
        return;
      }
      var pos := p.(daysHeld := p.daysHeld + 1);
      var trigger := ExitTrigger(pos, row.value.low, row.value.close);
      if trigger.None? {
        stillOpen' := stillOpen + [pos];
        return;
      }
      var (reason, exitPrice) := trigger.value;
      var notional, adv := Notional(exitPrice, pos.qty), AdvOf(market, pos.symbol);
      var realistic := fillPrice(exitPrice, Sell, adv, notional);
      var order := Order(pos.qty, realistic, adv / Max(exitPrice, 1.0), Max(row.value.volume, 1.0), true);
      assert order == ExitOrder(w, pos, exitPrice, row.value.volume);
      var fill := Fill(w, base, s.cursor, order);
      var exitCost := oneWay(Sell, notional, pos.qty as real, adv);
      cash', stillOpen', trades' := Record(s, cash, stillOpen, trades, pos, d, fill.filledQty, fill.remainingQty,
                                           fill.fillPrice, exitCost, reason);
    }

    function AdvOf(market: Market, symbol: string): real {
      AdvIn(settings, market, symbol)
    }

    method ManageExits(ghost w: World, ghost base: nat, market: Market, d: int, ghost s: Sim,
                       cash: real, open: seq<Position>, trades: seq<Trade>)
      returns (cash': real, open': seq<Position>, trades': seq<Trade>)
      requires w == WorldFrom(base, market, w.feed)
      requires IsAt(s, base, cash, open, trades)
      modifies simulator
      ensures IsAt(ExitPhase(w, d, s), base, cash', open', trades')
    {
      cash', open', trades' := cash, [], trades;
      ghost var t := s.(open := []);
      for i := 0 to |open|
        invariant t == Exits(w, d, s.(open := []), open[..i])
        invariant IsAt(t, base, cash', open', trades')
      {
        assert open[..i + 1][..i] == open[..i];
        cash', open', trades' := CheckExit(w, base, market, d, t, cash', open', trades', open[i]);
        t := Exit(w, d, t, open[i]);
      }
      assert open[..|open|] == open;
    }

    /** Try to fill an order for `qty` shares, and open a position for what was filled. */
    method AttemptEntry(ghost w: World, ghost base: nat, market: Market, d: int, ghost s: Sim,
                        cash: real, open: seq<Position>, strategy: string, sig: Signal, qty: int, close: real)
      returns (cash': real, open': seq<Position>)
      requires w == WorldFrom(base, market, w.feed)
      requires IsAt(s, base, cash, open, s.trades)
      modifies simulator
      ensures IsAt(Attempt(w, d, s, strategy, sig, qty, close), base, cash', open', s.trades)
    {
      cash', open' := cash, open;
      var notional := Notional(close, qty);
      if cash < notional {
        return;
      }
      var adv := AdvOf(market, sig.symbol);
      var realistic := fillPrice(close, Buy, adv, notional);
      var order := Order(qty, realistic, adv / Max(realistic, 1.0), Max(EntryVolume(market, sig.symbol), 1.0), true);
      assert order == EntryOrder(w, sig.symbol, qty, close);
      var fill := Fill(w, base, s.cursor, order);
      if fill.filledQty == 0 {
        return;
      }
      var entryCost := oneWay(Buy, Notional(fill.fillPrice, fill.filledQty), fill.filledQty as real, adv);
      var position := NewPosition(sig, strategy, d, fill.filledQty, fill.fillPrice, entryCost);
      cash' := cash - (Notional(position.entryPrice, position.qty) + position.costEntry);
      open' := open + [position];
    }

    /** Size one signal and try to enter it. */
    method TakeSignal(ghost w: World, ghost base: nat, market: Market, d: int, ghost s: Sim,
                      cash: real, open: seq<Position>, strategy: string, sig: Signal, close: real)
      returns (cash': real, open': seq<Position>)
      requires w == WorldFrom(base, market, w.feed)
      requires IsAt(s, base, cash, open, s.trades)
      requires Considers(w, d, s, sig) && close == Close(market, sig.symbol, d)
      modifies simulator
      ensures IsAt(Enter(w, d, s, strategy, sig), base, cash', open', s.trades)
    {
      var equity := cash + Value(market, open, d);
      var qty := OrderSize(settings, equity, close, StopDistance(sig));
      assert qty == EntrySize(w, d, s, sig);
      cash', open' := AttemptEntry(w, base, market, d, s, cash, open, strategy, sig, qty, close);
    }

    /** One signal of a strategy; a full book makes the loop end. */
    method TakeNext(ghost w: World, ghost base: nat, market: Market, d: int, ghost s: Sim,
                    cash: real, open: seq<Position>, strategy: string, sig: Signal)
      returns (cash': real, open': seq<Position>, full: bool)
      requires w == WorldFrom(base, market, w.feed)
      requires IsAt(s, base, cash, open, s.trades)
      modifies simulator
      ensures full ==> |s.open| >= settings.maxOpenPositions
      ensures IsAt(Enter(w, d, s, strategy, sig), base, cash', open', s.trades)
    {
      cash', open', full := cash, open, false;
      if sig.symbol in Symbols(open) {
        return;
      }
      if |open| >= settings.maxOpenPositions {
        full := true;
        return;
      }
      var close := Close(market, sig.symbol, d);
      if close > 0.0 {
        cash', open' := TakeSignal(w, base, market, d, s, cash, open, strategy, sig, close);
      }
    }

    /** One strategy's signals; the loop ends early once the book is full. */
    method TakeSignals(ghost w: World, ghost base: nat, market: Market, d: int, ghost s: Sim,
                       cash: real, open: seq<Position>, strategy: string, sigs: seq<Signal>)
      returns (cash': real, open': seq<Position>)
      requires w == WorldFrom(base, market, w.feed)
      requires IsAt(s, base, cash, open, s.trades)
      modifies simulator
      ensures IsAt(EnterAll(w, d, s, strategy, sigs), base, cash', open', s.trades)
    {
      cash', open' := cash, open;
      ghost var t := s;
      var i, full := 0, false;
      while i < |sigs| && !full
        invariant 0 <= i <= |sigs|
        invariant t == EnterAll(w, d, s, strategy, sigs[..i])
        invariant IsAt(t, base, cash', open', s.trades)
        invariant full ==> |t.open| >= settings.maxOpenPositions
        decreases |sigs| - i
      {
        EnterAllSnoc(w, d, s, strategy, sigs, i);
        cash', open', full := TakeNext(w, base, market, d, t, cash', open', strategy, sigs[i]);
        t := Enter(w, d, t, strategy, sigs[i]);
        i := i + 1;
      }
      if full {
        FullBookTakesNothing(w, d, s, strategy, sigs, i);
      }
      assert i == |sigs| ==> sigs[..i] == sigs;
    }

    method TakeEntries(ghost w: World, ghost base: nat, market: Market, d: int, ghost s: Sim,
                       cash: real, open: seq<Position>, desk: seq<StrategyDay>)
      returns (cash': real, open': seq<Position>)
      requires w == WorldFrom(base, market, w.feed)
      requires IsAt(s, base, cash, open, s.trades)
      modifies simulator
      ensures IsAt(Strategies(w, d, s, desk), base, cash', open', s.trades)
    {
      cash', open' := cash, open;
      ghost var t := s;
      for i := 0 to |desk|
        invariant t == Strategies(w, d, s, desk[..i])
        invariant IsAt(t, base, cash', open', s.trades)
      {
        assert desk[..i + 1][..i] == desk[..i];
        if desk[i].signals.Some? {
          cash', open' := TakeSignals(w, base, market, d, t, cash', open', desk[i].name, desk[i].signals.value);
          t := EnterAll(w, d, t, desk[i].name, desk[i].signals.value);
        }
      }
      assert desk[..|desk|] == desk;
    }

    method ForceCloseOne(
      ghost w: World, market: Market, last: int, ghost s: Sim, cash: real, trades: seq<Trade>, p: Position)
      returns (cash': real, trades': seq<Trade>)
      requires w.market == market && w.settings == settings && w.oneWay == oneWay
      requires s.cash == cash && s.trades == trades
      ensures ForceClose(w, last, s, p).cash == cash' && ForceClose(w, last, s, p).trades == trades'
    {
      cash', trades' := cash, trades;
      var close := Close(market, p.symbol, last);
      if close > 0.0 {
        var exitCost := oneWay(Sell, Notional(close, p.qty), p.qty as real, AdvOf(market, p.symbol));
        assert exitCost == ExitCost(w, p, close);
        var unsold;
        cash', unsold, trades' := Record(s.(open := []), cash, [], trades, p, last, p.qty, 0, close, exitCost, Eod);
      }
    }

    method ForceCloseAll(ghost w: World, market: Market, last: int, ghost s: Sim,
                         cash: real, open: seq<Position>, trades: seq<Trade>)
      returns (cash': real, trades': seq<Trade>)
      requires w.market == market && w.settings == settings && w.oneWay == oneWay
      requires s.cash == cash && s.open == open && s.trades == trades
      ensures var t := ForceCloses(w, last, s.(open := []), open);
              t.cash == cash' && t.trades == trades'
    {
      cash', trades' := cash, trades;
      ghost var t := s.(open := []);
      for i := 0 to |open|
        invariant t == ForceCloses(w, last, s.(open := []), open[..i])
        invariant t.cash == cash' && t.trades == trades'
      {
        assert open[..i + 1][..i] == open[..i];
        cash', trades' := ForceCloseOne(w, market, last, t, cash', trades', open[i]);
        t := ForceClose(w, last, t, open[i]);
      }
      assert open[..|open|] == open;
    }

    /** One trading date: exits first, then entries while there is room. */
    method RunDay(ghost w: World, ghost base: nat, market: Market, feed: map<int, seq<StrategyDay>>, d: int,
                  ghost s: Sim,
                  cash: real, open: seq<Position>, trades: seq<Trade>)
      returns (cash': real, open': seq<Position>, trades': seq<Trade>)
      requires w == WorldFrom(base, market, feed)
      requires IsAt(s, base, cash, open, trades)
      modifies simulator
      ensures IsAt(Day(w, d, s), base, cash', open', trades')
    {
      cash', open', trades' := ManageExits(w, base, market, d, s, cash, open, trades);
      ghost var mid := ExitPhase(w, d, s);
      if |open'| < settings.maxOpenPositions {
        var desk := if d in feed then feed[d] else [];
        assert desk == Desk(w, d);
        cash', open' := TakeEntries(w, base, market, d, mid, cash', open', desk);
      }
    }

    /** A trading date with the equity it ends in. */
    method RecordDay(ghost w: World, ghost base: nat, market: Market, feed: map<int, seq<StrategyDay>>, d: int,
                     ghost s: Sim,
                     cash: real, open: seq<Position>, trades: seq<Trade>)
      returns (cash': real, open': seq<Position>, trades': seq<Trade>, equity: real)
      requires w == WorldFrom(base, market, feed)
      requires IsAt(s, base, cash, open, trades)
      modifies simulator
      ensures IsAt(Day(w, d, s), base, cash', open', trades')
      ensures equity == Equity(w, Day(w, d, s), d)
    {
      cash', open', trades' := RunDay(w, base, market, feed, d, s, cash, open, trades);
      equity := cash' + Value(market, open', d);
    }

    /** The main loop over the dates. */
    method RunDays(ghost w: World, ghost base: nat, market: Market, feed: map<int, seq<StrategyDay>>, dates: seq<int>)
      returns (cash: real, open: seq<Position>, trades: seq<Trade>, curve: seq<real>)
      requires w == WorldFrom(base, market, feed) && base == simulator.cursor
      modifies simulator
      ensures IsAt(Days(w, dates), base, cash, open, trades)
      ensures curve == Curve(w, dates)
    {
      cash, open, trades, curve := settings.initialCapital, [], [], [];
      ghost var s := Days(w, []);
      for i := 0 to |dates|
        invariant s == Days(w, dates[..i]) && IsAt(s, base, cash, open, trades)
        invariant curve == Curve(w, dates[..i])
      {
        var equity: real;
        cash, open, trades, equity := RecordDay(w, base, market, feed, dates[i], s, cash, open, trades);
        DaySnoc(w, dates, i);
        s := Day(w, dates[i], s);
        curve := curve + [equity];
      }
      assert dates[..|dates|] == dates;
    }

    /** The whole backtest over sorted dates; without dates the capital comes back untouched. */
    method Run(market: Market, feed: map<int, seq<StrategyDay>>, dates: seq<int>) returns (result: BacktestResult)
      modifies simulator
      ensures result.initialCapital == settings.initialCapital
      ensures dates == [] ==> result == BacktestResult(settings.initialCapital, settings.initialCapital, [], [])
      ensures var w := WorldFrom(old(simulator.cursor), market, feed);
              && (dates != [] ==> result.finalCapital == WholeRun(w, dates).cash)
              && (dates != [] ==> result.trades == WholeRun(w, dates).trades)
              && result.equityCurve == Curve(w, dates)
    {
      if dates == [] {
        return BacktestResult(settings.initialCapital, settings.initialCapital, [], []);
      }
      ghost var w := WorldFrom(simulator.cursor, market, feed);
      var cash, open, trades, curve := RunDays(w, simulator.cursor, market, feed, dates);
      var final, allTrades := ForceCloseAll(w, market, dates[|dates| - 1], Days(w, dates), cash, open, trades);
      result := BacktestResult(settings.initialCapital, final, allTrades, curve);
    }
  }

  /** Any run of the engine with its own simulator balances, at the end and on every day. */
  lemma EngineAccounts(
    engine: BacktestEngine, base: nat, market: Market, feed: map<int, seq<StrategyDay>>, dates: seq<int>)
    requires UnitDraws(engine.simulator.draws) && dates != []
    ensures var w := engine.WorldFrom(base, market, feed);
            && Sound(w, Days(w, dates))
            && WholeRun(w, dates).cash - engine.settings.initialCapital
               == NetOf(WholeRun(w, dates).trades) - BasisOf(WholeRun(w, dates).open)
  {
    var w := engine.WorldFrom(base, market, feed);
    SimulatorFits(engine.simulator.config, engine.simulator.draws, base);
    DaysAreSound(w, dates);
    RunAccounts(w, dates);
  }

  /** One entry of the engine overdraws cash by no more than its cost model's worst margins on the order's notional. */
  lemma EngineOverdraft(engine: BacktestEngine, costs: CostModel, spread: real, base: nat, market: Market,
                        feed: map<int, seq<StrategyDay>>, d: int, s: Sim, strategy: string, sig: Signal)
    requires engine.fillPrice == PriceRuleOf(costs, spread) && engine.oneWay == CostRuleOf(costs, spread)
    requires costs.Charges(Some(spread)) && UnitDraws(engine.simulator.draws)
    requires var w := engine.WorldFrom(base, market, feed);
             Considers(w, d, s, sig) && Enter(w, d, s, strategy, sig).open != s.open
    ensures var w := engine.WorldFrom(base, market, feed);
            OverdrawnAtMost(Enter(w, d, s, strategy, sig).cash,
                            Notional(Close(market, sig.symbol, d), EntrySize(w, d, s, sig)),
                            costs.WorstFraction(Some(spread)))
  {
    var w := engine.WorldFrom(base, market, feed);
    SimulatorFits(engine.simulator.config, engine.simulator.draws, base);
    CostModelFits(w, costs, spread);
    EntryOverdraft(w, costs.WorstFraction(Some(spread)), d, s, strategy, sig, EntrySize(w, d, s, sig),
                   Close(market, sig.symbol, d));
  }

  /** Every run of an engine with the source's costs follows its rules, whatever its simulator drew before. */
  lemma EngineFollows(engine: BacktestEngine, costs: CostModel, spread: real, base: nat, market: Market,
                      feed: map<int, seq<StrategyDay>>)
    requires engine.fillPrice == PriceRuleOf(costs, spread) && engine.oneWay == CostRuleOf(costs, spread)
    requires costs.Charges(Some(spread)) && UnitDraws(engine.simulator.draws)
    ensures BacktestRules.Follows(
              engine.WorldFrom(base, market, feed),
              BacktestRules.Rules(costs, spread, engine.simulator.config, engine.simulator.draws, base))
  {
  }
}
