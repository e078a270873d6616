/**
 The daily backtest: exits, entries, and the forced close on the last date.

 `Sim` is the engine's running state. Each step of the engine is a function on it, the methods of
 `BacktestEngine` are the engine's loops, and the lemmas say what every step and so every run keeps.
 */
module Backtest {
  import opened Common
  import opened Costs
  import opened FillSimulation

  datatype Bar = Bar(date: int, low: real, close: real, volume: real)

  /** Price rows by symbol, in index order. */
  datatype Market = Market(bars: map<string, seq<Bar>>)

  datatype Signal = Signal(symbol: string, stopDistancePct: Option<real>, ttlSeconds: int)

  /** What one strategy produced on one date; none when it raised. */
  datatype StrategyDay = StrategyDay(name: string, signals: Option<seq<Signal>>)

  datatype Settings = Settings(
    initialCapital: real,
    riskPerTrade: real,
    maxOpenPositions: int,
    advUsdDefault: real)

  datatype Position = Position(
    symbol: string, strategy: string, entryDate: int, qty: int, entryPrice: real,
    stopPrice: real, takeProfitPrice: real, ttlDays: int, costEntry: real, daysHeld: int)

  datatype ExitReason = Stop | TakeProfit | Ttl | Eod

  datatype Trade = Trade(
    symbol: string, strategy: string, entryDate: int, exitDate: int, qty: int,
    entryPrice: real, exitPrice: real, cost: real, pnlGross: real, pnlNet: real, reason: ExitReason)

  type PriceRule = (real, Side, real, real) -> real

  type CostRule = (Side, real, real, real) -> real

  /**
   Everything a run is given from outside. The engine accepts any cost model and any fill simulator:
   `fillPrice` takes the nominal price, side, ADV and notional, `oneWay` the side, notional, shares
   and ADV, and `fill` the position in the stream of random draws and the order.
   */
  datatype World = World(
    settings: Settings,
    market: Market,
    feed: map<int, seq<StrategyDay>>,
    fillPrice: PriceRule,
    oneWay: CostRule,
    fill: (nat, Order) -> (FillResult, nat))

  /** The running state, and a log of shares bought that only the proofs read. */
  datatype Sim = Sim(cash: real, open: seq<Position>, trades: seq<Trade>, cursor: nat, bought: seq<(string, int)>)

  /** Every fill accounts for every share of its order. */
  ghost predicate Conserves(fill: (nat, Order) -> (FillResult, nat)) {
    forall at: nat, o: Order :: o.qty >= 0 ==>
      var r := fill(at, o).0;
      r.filledQty + r.remainingQty == o.qty && r.filledQty >= 0 && r.remainingQty >= 0
  }

  // ----- Prices --------------------------------------------------------------------------------

  function RowOn(rows: seq<Bar>, d: int): Option<Bar> {
    if rows == [] then None
    else if rows[|rows| - 1].date == d then Some(rows[|rows| - 1])
    else RowOn(rows[..|rows| - 1], d)
  }

  function Rows(m: Market, symbol: string): seq<Bar> {
    if symbol in m.bars then m.bars[symbol] else []
  }

  /** The close on a date, or zero when there is none. */
  function Close(m: Market, symbol: string, d: int): real {
    var row := RowOn(Rows(m, symbol), d);
    if row.Some? then row.value.close else 0.0
  }

  function TotalVolume(rows: seq<Bar>): real {
    if rows == [] then 0.0 else TotalVolume(rows[..|rows| - 1]) + rows[|rows| - 1].volume
  }

  function TotalClose(rows: seq<Bar>): real {
    if rows == [] then 0.0 else TotalClose(rows[..|rows| - 1]) + rows[|rows| - 1].close
  }

  /** Mean volume times mean close, over the last twenty rows or all if there are fewer. */
  function AverageDailyVolume(rows: seq<Bar>): real
    requires rows != []
  {
    var recent := if |rows| >= 20 then rows[|rows| - 20..] else rows;
    (TotalVolume(recent) / |recent| as real) * (TotalClose(recent) / |recent| as real)
  }

  /** The engine asks this of the whole data set, on whatever date it trades. */
  function AdvIn(st: Settings, m: Market, symbol: string): real {
    var rows := Rows(m, symbol);
    if rows == [] then st.advUsdDefault else AverageDailyVolume(rows)
  }

  function Adv(w: World, symbol: string): real {
    AdvIn(w.settings, w.market, symbol)
  }

  function EntryVolume(m: Market, symbol: string): real {
    var rows := Rows(m, symbol);
    if rows == [] then 1.0 else rows[|rows| - 1].volume
  }

  function Value(m: Market, open: seq<Position>, d: int): real {
    if open == [] then 0.0
    else Value(m, open[..|open| - 1], d) + open[|open| - 1].qty as real * Close(m, open[|open| - 1].symbol, d)
  }

  function Equity(w: World, s: Sim, d: int): real {
    s.cash + Value(w.market, s.open, d)
  }

  // ----- Exits ---------------------------------------------------------------------------------

  /** Why a held position leaves, and at which price it is offered; a stop goes before a target. */
  function ExitTrigger(p: Position, low: real, close: real): Option<(ExitReason, real)> {
    if low <= p.stopPrice then Some((Stop, p.stopPrice))
    else if close >= p.takeProfitPrice then Some((TakeProfit, p.takeProfitPrice))
    else if p.daysHeld >= p.ttlDays then Some((Ttl, close))
    else None
  }

  function Gross(exit: real, entry: real, qty: int): real {
    (exit - entry) * qty as real
  }

  function Notional(price: real, qty: int): real {
    price * qty as real
  }

  function ExitOrder(w: World, p: Position, price: real, volume: real): Order {
    var adv := Adv(w, p.symbol);
    Order(p.qty,
          w.fillPrice(price, Sell, adv, Notional(price, p.qty)),
          adv / Max(price, 1.0), Max(volume, 1.0), true)
  }

  function ExitCost(w: World, p: Position, price: real): real {
    w.oneWay(Sell, Notional(price, p.qty), p.qty as real, Adv(w, p.symbol))
  }

  /**
   The books after a sale of part of a position: the trade is recorded, what is unsold stays open at no
   further entry cost.
   */
  function Settle(
    s: Sim, p: Position, d: int, filled: int, left: int, price: real, exitCost: real, reason: ExitReason): Sim {
    var gross := Gross(price, p.entryPrice, filled);
    var cost := p.costEntry + exitCost;
    var trade := Trade(p.symbol, p.strategy, p.entryDate, d, filled, p.entryPrice, price, cost, gross, gross - cost,
                       reason);
    s.(cash := s.cash + (Notional(price, filled) - exitCost),
       trades := s.trades + [trade],
       open := if left > 0 then s.open + [p.(qty := left, costEntry := 0.0)] else s.open)
  }

  function Exit(w: World, d: int, s: Sim, p: Position): Sim {
    var row := RowOn(Rows(w.market, p.symbol), d);
    if row.None? || row.value.close <= 0.0 then s.(open := s.open + [p])
    else
      var held := p.(daysHeld := p.daysHeld + 1);
      var trigger := ExitTrigger(held, row.value.low, row.value.close);
      if trigger.None? then s.(open := s.open + [held])
      else
        var (reason, price) := trigger.value;
        var (fill, used) := w.fill(s.cursor, ExitOrder(w, held, price, row.value.volume));
        Settle(s, held, d, fill.filledQty, fill.remainingQty, fill.fillPrice, ExitCost(w, held, price), reason)
        .(cursor := s.cursor + used)
  }

  function Exits(w: World, d: int, s: Sim, held: seq<Position>): Sim {
    if held == [] then s else Exit(w, d, Exits(w, d, s, held[..|held| - 1]), held[|held| - 1])
  }

  // ----- Entries -------------------------------------------------------------------------------

  function Symbols(open: seq<Position>): set<string> {
    set p | p in open :: p.symbol
  }

  function StopDistance(sig: Signal): real {
    if sig.stopDistancePct.Some? && sig.stopDistancePct.value != 0.0 then sig.stopDistancePct.value else 0.03
  }

  /** Whole shares that the money covers, at least one. */
  function SharesFor(money: real, price: real): (n: int)
    requires price > 0.0
    ensures n >= 1
  {
    AtLeastOne(Trunc(money / price))
  }

  /** Fixed-fractional size, at least one share, within an equal share of the equity. */
  function OrderSize(st: Settings, equity: real, close: real, stop: real): (qty: int)
    requires st.maxOpenPositions > 0
    ensures qty >= 1
  {
    var qty := SharesFor(Part(equity, st.riskPerTrade), Max(Part(close, stop), 1.0));
    var limit := equity / st.maxOpenPositions as real;
    if Notional(close, qty) > limit then SharesFor(limit, Max(close, 1.0)) else qty
  }

  function EntryPrice(w: World, symbol: string, close: real, notional: real): real {
    w.fillPrice(close, Buy, Adv(w, symbol), notional)
  }

  function EntryCost(w: World, symbol: string, filled: int, price: real): real {
    w.oneWay(Buy, Notional(price, filled), filled as real, Adv(w, symbol))
  }

  function NewPosition(sig: Signal, strategy: string, d: int, filled: int, price: real, cost: real): Position {
    var ttl := AtLeastOne(sig.ttlSeconds / 86400);
    var stop := StopDistance(sig);
    Position(sig.symbol, strategy, d, filled, price, price * (1.0 - stop), price * (1.0 + stop * 2.0), ttl, cost, 0)
  }

  /** Whether a signal is acted on, before the fill is known. */
  predicate Considers(w: World, d: int, s: Sim, sig: Signal) {
    sig.symbol !in Symbols(s.open) && |s.open| < w.settings.maxOpenPositions && Close(w.market, sig.symbol, d) > 0.0
  }

  function EntrySize(w: World, d: int, s: Sim, sig: Signal): (qty: int)
    requires Considers(w, d, s, sig)
    ensures qty >= 1
  {
    OrderSize(w.settings, Equity(w, s, d), Close(w.market, sig.symbol, d), StopDistance(sig))
  }

  function EntryOrder(w: World, symbol: string, qty: int, close: real): Order {
    var price := EntryPrice(w, symbol, close, Notional(close, qty));
    Order(qty, price, Adv(w, symbol) / Max(price, 1.0), Max(EntryVolume(w.market, symbol), 1.0), true)
  }

  function Open(w: World, s: Sim, p: Position): Sim {
    s.(cash := s.cash - (Notional(p.entryPrice, p.qty) + p.costEntry),
       open := s.open + [p],
       bought := s.bought + [(p.symbol, p.qty)])
  }

  /** An order for `qty` shares, if the cash covers them at the close. */
  function Attempt(w: World, d: int, s: Sim, strategy: string, sig: Signal, qty: int, close: real): Sim {
    if s.cash < Notional(close, qty) then s
    else
      var (fill, used) := w.fill(s.cursor, EntryOrder(w, sig.symbol, qty, close));
      var after := s.(cursor := s.cursor + used);
      if fill.filledQty == 0 then after
      else
        var cost := EntryCost(w, sig.symbol, fill.filledQty, fill.fillPrice);
        Open(w, after, NewPosition(sig, strategy, d, fill.filledQty, fill.fillPrice, cost))
  }

  function Enter(w: World, d: int, s: Sim, strategy: string, sig: Signal): Sim {
    if Considers(w, d, s, sig) then
      Attempt(w, d, s, strategy, sig, EntrySize(w, d, s, sig), Close(w.market, sig.symbol, d))
    else s
  }

  function EnterAll(w: World, d: int, s: Sim, strategy: string, sigs: seq<Signal>): Sim {
    if sigs == [] then s
    else Enter(w, d, EnterAll(w, d, s, strategy, sigs[..|sigs| - 1]), strategy, sigs[|sigs| - 1])
  }

  function Strategies(w: World, d: int, s: Sim, desk: seq<StrategyDay>): Sim {
    if desk == [] then s
    else
      var before := Strategies(w, d, s, desk[..|desk| - 1]);
      var last := desk[|desk| - 1];
      if last.signals.None? then before else EnterAll(w, d, before, last.name, last.signals.value)
  }

  // ----- Days ----------------------------------------------------------------------------------

  function Desk(w: World, d: int): seq<StrategyDay> {
    if d in w.feed then w.feed[d] else []
  }

  function ExitPhase(w: World, d: int, s: Sim): Sim {
    Exits(w, d, s.(open := []), s.open)
  }

  function EntryPhase(w: World, d: int, s: Sim): Sim {
    if |s.open| < w.settings.maxOpenPositions then Strategies(w, d, s, Desk(w, d)) else s
  }

  function Day(w: World, d: int, s: Sim): Sim {
    EntryPhase(w, d, ExitPhase(w, d, s))
  }

  function Days(w: World, dates: seq<int>): Sim {
    if dates == [] then Sim(w.settings.initialCapital, [], [], 0, [])
    else Day(w, dates[|dates| - 1], Days(w, dates[..|dates| - 1]))
  }

  /** The equity recorded at the end of each day. */
  function Curve(w: World, dates: seq<int>): (curve: seq<real>)
    ensures |curve| == |dates|
  {
    if dates == [] then []
    else Curve(w, dates[..|dates| - 1]) + [Equity(w, Days(w, dates), dates[|dates| - 1])]
  }

  /** A position that is closed at the last close, in full; one without a price is carried. */
  function ForceClose(w: World, last: int, s: Sim, p: Position): Sim {
    var close := Close(w.market, p.symbol, last);
    if close <= 0.0 then s.(open := s.open + [p])
    else Settle(s, p, last, p.qty, 0, close, ExitCost(w, p, close), Eod)
  }

  function ForceCloses(w: World, last: int, s: Sim, held: seq<Position>): Sim {
    if held == [] then s else ForceClose(w, last, ForceCloses(w, last, s, held[..|held| - 1]), held[|held| - 1])
  }

  /** The whole run; `open` is what is carried for want of a price on the last date. */
  function WholeRun(w: World, dates: seq<int>): Sim
    requires dates != []
  {
    var s := Days(w, dates);
    ForceCloses(w, dates[|dates| - 1], s.(open := []), s.open)
  }

  // ----- The accounting identity ---------------------------------------------------------------

  /** What was paid for a position and is not yet in any trade. */
  function Basis(p: Position): real {
    Notional(p.entryPrice, p.qty) + p.costEntry
  }

  function BasisOf(open: seq<Position>): real {
    if open == [] then 0.0 else BasisOf(open[..|open| - 1]) + Basis(open[|open| - 1])
  }

  function NetOf(trades: seq<Trade>): real {
    if trades == [] then 0.0 else NetOf(trades[..|trades| - 1]) + trades[|trades| - 1].pnlNet
  }

  /** Cash, plus what is tied up in open positions, less what trades have earned. */
  function Balance(s: Sim): real {
    s.cash + BasisOf(s.open) - NetOf(s.trades)
  }

  lemma BasisSnoc(open: seq<Position>, p: Position)
    ensures BasisOf(open + [p]) == BasisOf(open) + Basis(p)
  {
    assert (open + [p])[..|open|] == open;
  }

  /** Settling a sale moves a position's basis into cash and trades without creating or losing money. */
  lemma {:induction false} SettleKeepsBalance(
    s: Sim, p: Position, d: int, filled: int, left: int, price: real, exitCost: real, reason: ExitReason)
    requires filled + left == p.qty && left >= 0
    ensures Balance(Settle(s, p, d, filled, left, price, exitCost, reason)) == Balance(s) + Basis(p)
  {
    if left > 0 {
      BasisSnoc(s.open, p.(qty := left, costEntry := 0.0));
    }
  }

  datatype Sale = Sale(filled: int, left: int, price: real, cost: real, reason: ExitReason, used: nat)

  /**
   `s'` is `s` after dealing with position `p`: kept, up to its age, or settled by a sale that accounts for
   every share.
   */
  ghost predicate DealtWith(s: Sim, s': Sim, p: Position, d: int, q: Position, x: Option<Sale>) {
    && q == p.(daysHeld := q.daysHeld)
    && match x
       case None => s' == s.(open := s.open + [q])
       case Some(v) =>
         && v.filled + v.left == p.qty && v.filled >= 0 && v.left >= 0
         && s' == Settle(s, q, d, v.filled, v.left, v.price, v.cost, v.reason).(cursor := s.cursor + v.used)
  }

  lemma {:induction false} ExitDealsWith(w: World, d: int, s: Sim, p: Position) returns (q: Position, x: Option<Sale>)
    requires Conserves(w.fill) && p.qty > 0
    ensures DealtWith(s, Exit(w, d, s, p), p, d, q, x)
  {
    var row := RowOn(Rows(w.market, p.symbol), d);
    q, x := p, None;
    if row.Some? && row.value.close > 0.0 {
      q := p.(daysHeld := p.daysHeld + 1);
      var trigger := ExitTrigger(q, row.value.low, row.value.close);
      if trigger.Some? {
        var (reason, price) := trigger.value;
        var (fill, used) := w.fill(s.cursor, ExitOrder(w, q, price, row.value.volume));
        x := Some(Sale(fill.filledQty, fill.remainingQty, fill.fillPrice, ExitCost(w, q, price), reason, used));
      }
    }
  }

  lemma {:induction false} ForceCloseDealsWith(
    w: World, d: int, s: Sim, p: Position) returns (q: Position, x: Option<Sale>)
    requires p.qty > 0
    ensures DealtWith(s, ForceClose(w, d, s, p), p, d, q, x)
    ensures x.None? ==> q == p && Close(w.market, p.symbol, d) <= 0.0
    ensures x.Some? ==> x.value.left == 0
  {
    q, x := p, None;
    var close := Close(w.market, p.symbol, d);
    if close > 0.0 {
      x := Some(Sale(p.qty, 0, close, ExitCost(w, p, close), Eod, 0));
    }
  }

  lemma {:induction false} DealtWithBalance(s: Sim, s': Sim, p: Position, d: int, q: Position, x: Option<Sale>)
    requires DealtWith(s, s', p, d, q, x)
    ensures Balance(s') == Balance(s) + Basis(p)
  {
    assert Basis(q) == Basis(p);
    match x
    case None => BasisSnoc(s.open, q);
    case Some(v) =>
      SettleKeepsBalance(s, q, d, v.filled, v.left, v.price, v.cost, v.reason);
  }

  ghost predicate AllPositive(open: seq<Position>) {
    forall p :: p in open ==> p.qty > 0
  }

  ghost predicate DistinctSymbols(open: seq<Position>) {
    forall i, j :: 0 <= i < j < |open| ==> open[i].symbol != open[j].symbol
  }

  // ----- Shares --------------------------------------------------------------------------------

  function HeldShares(open: seq<Position>, symbol: string): int {
    if open == [] then 0
    else HeldShares(open[..|open| - 1], symbol) + if open[|open| - 1].symbol == symbol then open[|open| - 1].qty else 0
  }

  function TradedShares(trades: seq<Trade>, symbol: string): int {
    if trades == [] then 0
    else
      var last := trades[|trades| - 1];
      TradedShares(trades[..|trades| - 1], symbol) + if last.symbol == symbol then last.qty else 0
  }

  function BoughtShares(bought: seq<(string, int)>, symbol: string): int {
    if bought == [] then 0
    else
      var last := bought[|bought| - 1];
      BoughtShares(bought[..|bought| - 1], symbol) + if last.0 == symbol then last.1 else 0
  }

  /** Shares of a symbol that are open or traded, less those ever bought. */
  function Surplus(s: Sim, symbol: string): int {
    HeldShares(s.open, symbol) + TradedShares(s.trades, symbol) - BoughtShares(s.bought, symbol)
  }

  lemma HeldSnoc(open: seq<Position>, p: Position, symbol: string)
    ensures HeldShares(open + [p], symbol) == HeldShares(open, symbol) + if p.symbol == symbol then p.qty else 0
  {
    assert (open + [p])[..|open|] == open;
  }

  // ----- What the exit phase keeps -------------------------------------------------------------

  /** From a book without the positions `held`, `s'` has dealt with each of them. */
  ghost predicate DealtWithAll(s: Sim, s': Sim, held: seq<Position>) {
    && Balance(s') == Balance(s) + BasisOf(held)
    && (forall symbol :: Surplus(s', symbol) == Surplus(s, symbol) + HeldShares(held, symbol))
    && s'.bought == s.bought && s.trades <= s'.trades
    && AllPositive(s'.open) && DistinctSymbols(s'.open)
    && |s'.open| <= |held| && Symbols(s'.open) <= Symbols(held)
  }

  lemma {:induction false} DealWithOneMore(
    s: Sim, s0: Sim, s1: Sim, init: seq<Position>, p: Position, d: int, q: Position, x: Option<Sale>)
    requires DealtWithAll(s, s0, init) && DealtWith(s0, s1, p, d, q, x)
    requires p.qty > 0 && p.symbol !in Symbols(init)
    ensures DealtWithAll(s, s1, init + [p])
  {
    var held := init + [p];
    DealtWithBalance(s0, s1, p, d, q, x);
    BasisSnoc(init, p);
    forall symbol ensures Surplus(s1, symbol) == Surplus(s, symbol) + HeldShares(held, symbol) {
      HeldSnoc(init, p, symbol);
    }
    SymbolsSnoc(init, p);
    DealtWithStructure(s0, s1, p, d, q, x);
  }

  lemma SymbolsSnoc(open: seq<Position>, p: Position)
    ensures Symbols(open + [p]) == Symbols(open) + {p.symbol}
  {
    assert forall q :: q in open + [p] <==> q in open || q == p;
    assert p in open + [p];
  }

  lemma {:induction false} DealtWithStructure(s: Sim, s': Sim, p: Position, d: int, q: Position, x: Option<Sale>)
    requires DealtWith(s, s', p, d, q, x)
    requires AllPositive(s.open) && DistinctSymbols(s.open)
    requires p.qty > 0 && p.symbol !in Symbols(s.open)
    ensures AllPositive(s'.open) && DistinctSymbols(s'.open)
    ensures |s'.open| <= |s.open| + 1 && Symbols(s'.open) <= Symbols(s.open) + {p.symbol}
    ensures s'.bought == s.bought && s.trades <= s'.trades
  {
    if x.None? || x.value.left > 0 {
      var r := if x.None? then q else q.(qty := x.value.left, costEntry := 0.0);
      assert s'.open == s.open + [r];
      SymbolsSnoc(s.open, r);
      assert forall o :: o in s.open ==> o.symbol in Symbols(s.open);
    }
  }

  lemma {:induction false} ExitsDealWithAll(w: World, d: int, s: Sim, held: seq<Position>)
    requires Conserves(w.fill) && s.open == []
    requires AllPositive(held) && DistinctSymbols(held)
    ensures DealtWithAll(s, Exits(w, d, s, held), held)
  {
    if held == [] {
      assert HeldShares(held, "") == 0;
    } else {
      var init, p := held[..|held| - 1], held[|held| - 1];
      assert held == init + [p];
      ExitsDealWithAll(w, d, s, init);
      var s0, s1 := Exits(w, d, s, init), Exits(w, d, s, held);
      var q, x := ExitDealsWith(w, d, s0, p);
      DealWithOneMore(s, s0, s1, init, p, d, q, x);
    }
  }

  lemma {:induction false} ForceClosesDealWithAll(w: World, d: int, s: Sim, held: seq<Position>)
    requires s.open == []
    requires AllPositive(held) && DistinctSymbols(held)
    ensures DealtWithAll(s, ForceCloses(w, d, s, held), held)
    ensures forall p :: p in ForceCloses(w, d, s, held).open <==> p in held && Close(w.market, p.symbol, d) <= 0.0
  {
    if held != [] {
      var init, p := held[..|held| - 1], held[|held| - 1];
      assert held == init + [p];
      ForceClosesDealWithAll(w, d, s, init);
      var s0, s1 := ForceCloses(w, d, s, init), ForceCloses(w, d, s, held);
      var q, x := ForceCloseDealsWith(w, d, s0, p);
      DealWithOneMore(s, s0, s1, init, p, d, q, x);
    }
  }

  // ----- What every day keeps ------------------------------------------------------------------

  /** The books balance, every share bought is open or traded, and the open positions are well formed. */
  ghost predicate Sound(w: World, s: Sim) {
    && Balance(s) == w.settings.initialCapital
    && (forall symbol :: Surplus(s, symbol) == 0)
    && AllPositive(s.open) && DistinctSymbols(s.open)
    && (s.open != [] ==> |s.open| <= w.settings.maxOpenPositions)
  }

  lemma {:induction false} OpenKeepsSound(w: World, s: Sim, p: Position)
    requires Sound(w, s) && p.qty > 0
    requires p.symbol !in Symbols(s.open) && |s.open| < w.settings.maxOpenPositions
    ensures Sound(w, Open(w, s, p))
  {
    var t := Open(w, s, p);
    BasisSnoc(s.open, p);
    forall symbol ensures Surplus(t, symbol) == 0 {
      HeldSnoc(s.open, p, symbol);
      assert t.bought[..|s.bought|] == s.bought;
      assert Surplus(s, symbol) == 0;
    }
    assert forall o :: o in s.open ==> o.symbol in Symbols(s.open);
  }

  lemma {:induction false} AttemptShape(w: World, d: int, s: Sim, strategy: string, sig: Signal, qty: int, close: real)
    returns (used: nat, p: Option<Position>)
    requires Conserves(w.fill) && qty >= 1
    ensures p.None? ==> Attempt(w, d, s, strategy, sig, qty, close) == s.(cursor := s.cursor + used)
    ensures p.Some? ==>
              && p.value.symbol == sig.symbol && p.value.qty > 0
              && Attempt(w, d, s, strategy, sig, qty, close) == Open(w, s.(cursor := s.cursor + used), p.value)
  {
    used, p := 0, None;
    if s.cash >= Notional(close, qty) {
      var (fill, n) := w.fill(s.cursor, EntryOrder(w, sig.symbol, qty, close));
      used := n;
      if fill.filledQty != 0 {
        p := Some(NewPosition(sig, strategy, d, fill.filledQty, fill.fillPrice,
                              EntryCost(w, sig.symbol, fill.filledQty, fill.fillPrice)));
      }
    }
  }

  lemma {:induction false} AttemptKeepsSound(
    w: World, d: int, s: Sim, strategy: string, sig: Signal, qty: int, close: real)
    requires Conserves(w.fill) && qty >= 1 && Sound(w, s)
    requires sig.symbol !in Symbols(s.open) && |s.open| < w.settings.maxOpenPositions
    ensures Sound(w, Attempt(w, d, s, strategy, sig, qty, close))
  {
    var used, p := AttemptShape(w, d, s, strategy, sig, qty, close);
    SoundIgnoresCursor(w, s, s.cursor + used);
    if p.Some? {
      OpenKeepsSound(w, s.(cursor := s.cursor + used), p.value);
    }
  }

  lemma SoundIgnoresCursor(w: World, s: Sim, n: nat)
    requires Sound(w, s)
    ensures Sound(w, s.(cursor := n))
  {
    var t := s.(cursor := n);
    forall symbol ensures Surplus(t, symbol) == 0 {
      assert Surplus(s, symbol) == 0;
    }
  }

  lemma {:induction false} EnterAllKeepsSound(w: World, d: int, s: Sim, strategy: string, sigs: seq<Signal>)
    requires Conserves(w.fill) && Sound(w, s)
    ensures Sound(w, EnterAll(w, d, s, strategy, sigs))
  {
    if sigs != [] {
      var init, sig := sigs[..|sigs| - 1], sigs[|sigs| - 1];
      EnterAllKeepsSound(w, d, s, strategy, init);
      var before := EnterAll(w, d, s, strategy, init);
      if Considers(w, d, before, sig) {
        AttemptKeepsSound(w, d, before, strategy, sig, EntrySize(w, d, before, sig), Close(w.market, sig.symbol, d));
      }
    }
  }

  lemma {:induction false} StrategiesKeepSound(w: World, d: int, s: Sim, desk: seq<StrategyDay>)
    requires Conserves(w.fill) && Sound(w, s)
    ensures Sound(w, Strategies(w, d, s, desk))
  {
    if desk != [] {
      StrategiesKeepSound(w, d, s, desk[..|desk| - 1]);
      var last := desk[|desk| - 1];
      if last.signals.Some? {
        EnterAllKeepsSound(w, d, Strategies(w, d, s, desk[..|desk| - 1]), last.name, last.signals.value);
      }
    }
  }

  /** Taking the open positions aside and dealing with each of them keeps the books sound. */
  lemma {:induction false} DealtWithAllIsSound(w: World, s: Sim, s': Sim)
    requires Sound(w, s)
    requires DealtWithAll(s.(open := []), s', s.open)
    ensures Sound(w, s')
  {
    var aside := s.(open := []);
    assert Balance(aside) + BasisOf(s.open) == Balance(s);
    forall symbol ensures Surplus(s', symbol) == 0 {
      assert Surplus(s, symbol) == 0;
      assert Surplus(s', symbol) == Surplus(aside, symbol) + HeldShares(s.open, symbol);
    }
  }

  lemma {:induction false} ExitPhaseKeepsSound(w: World, d: int, s: Sim)
    requires Conserves(w.fill) && Sound(w, s)
    ensures Sound(w, ExitPhase(w, d, s))
  {
    ExitsDealWithAll(w, d, s.(open := []), s.open);
    DealtWithAllIsSound(w, s, ExitPhase(w, d, s));
  }

  /**
   The accounting identity and the shape of the book hold at the end of every day, for any dates, prices and
   signals.
   */
  lemma {:induction false} DaysAreSound(w: World, dates: seq<int>)
    requires Conserves(w.fill)
    ensures Sound(w, Days(w, dates))
  {
    if dates != [] {
      var before, d := Days(w, dates[..|dates| - 1]), dates[|dates| - 1];
      DaysAreSound(w, dates[..|dates| - 1]);
      ExitPhaseKeepsSound(w, d, before);
      var mid := ExitPhase(w, d, before);
      if |mid.open| < w.settings.maxOpenPositions {
        StrategiesKeepSound(w, d, mid, Desk(w, d));
      }
    }
  }

  /**
   Over a whole run, the change in cash is the net profit of the recorded trades less what was paid
   for positions that have no price on the last date; with a price for each, there are none.
   */
  lemma {:induction false} RunAccounts(w: World, dates: seq<int>)
    requires Conserves(w.fill) && dates != []
    ensures var f, last := WholeRun(w, dates), dates[|dates| - 1];
            && f.cash - w.settings.initialCapital == NetOf(f.trades) - BasisOf(f.open)
            && (forall p :: p in f.open <==> p in Days(w, dates).open && Close(w.market, p.symbol, last) <= 0.0)
            && (forall symbol ::
                  BoughtShares(f.bought, symbol) == TradedShares(f.trades, symbol) + HeldShares(f.open, symbol))
    ensures (forall p :: p in Days(w, dates).open ==> Close(w.market, p.symbol, dates[|dates| - 1]) > 0.0) ==>
              WholeRun(w, dates).cash - w.settings.initialCapital == NetOf(WholeRun(w, dates).trades)
  {
    var s, last := Days(w, dates), dates[|dates| - 1];
    DaysAreSound(w, dates);
    ForceClosesDealWithAll(w, last, s.(open := []), s.open);
    DealtWithAllIsSound(w, s, WholeRun(w, dates));
    var f := WholeRun(w, dates);
    forall symbol
      ensures BoughtShares(f.bought, symbol) == TradedShares(f.trades, symbol) + HeldShares(f.open, symbol)
    {
      assert Surplus(f, symbol) == 0;
    }
    if forall p :: p in s.open ==> Close(w.market, p.symbol, last) > 0.0 {
      HeadIsMember(f.open);
    }
  }

  /**
   Every point of the equity curve is the capital, plus the profit of the trades so far, plus the open
   positions' gain on what was paid for them.
   */
  lemma {:induction false} CurveIsProfit(w: World, dates: seq<int>, i: nat)
    requires Conserves(w.fill) && i < |dates|
    ensures var s := Days(w, dates[..i + 1]);
            Curve(w, dates)[i] == w.settings.initialCapital + NetOf(s.trades) +
              (Value(w.market, s.open, dates[i]) - BasisOf(s.open))
    decreases |dates|
  {
    if i == |dates| - 1 {
      assert dates[..i + 1] == dates;
      DaysAreSound(w, dates);
    } else {
      assert dates[..|dates| - 1][..i + 1] == dates[..i + 1];
      CurveIsProfit(w, dates[..|dates| - 1], i);
    }
  }

  // ----- How far one entry can overdraw --------------------------------------------------------

  /** Purchases are priced at most the fraction `a` above nominal. */
  ghost predicate PricesAtMost(fillPrice: PriceRule, a: real) {
    forall nominal: real, adv: real, notional: real :: nominal >= 0.0 ==>
      nominal <= fillPrice(nominal, Buy, adv, notional) <= Part(nominal, 1.0 + a)
  }

  /** Purchases are charged at most the fraction `a` of their notional. */
  ghost predicate CostsAtMost(oneWay: CostRule, a: real) {
    forall notional: real, shares: real, adv: real ::
      oneWay(Buy, notional, shares, adv) <= Part(Max(notional, MIN_NOTIONAL), a)
  }

  ghost predicate ChargesAtMost(w: World, a: real) {
    a >= 0.0 && PricesAtMost(w.fillPrice, a) && CostsAtMost(w.oneWay, a)
  }

  ghost predicate FillsAtPrice(fill: (nat, Order) -> (FillResult, nat)) {
    forall at: nat, o: Order :: o.qty >= 0 ==> fill(at, o).0.fillPrice == o.price && fill(at, o).0.filledQty <= o.qty
  }

  /** A purchase of `filled` of `qty` shares, priced and charged at most the fraction `a` above the close. */
  ghost predicate Pays(close: real, qty: int, a: real, filled: int, price: real, cost: real) {
    && close > 0.0 && 0 < filled <= qty && a >= 0.0
    && close <= price <= Part(close, 1.0 + a)
    && cost <= Part(Max(Notional(price, filled), MIN_NOTIONAL), a)
  }

  lemma NotionalGrows(price: real, worst: real, filled: int, qty: int)
    requires 0.0 <= price <= worst && 0 <= filled <= qty
    ensures Notional(price, filled) <= Notional(worst, filled) <= Notional(worst, qty)
  {
    ScaleBy(price, worst, filled as real);
    ScaleUp(worst, filled as real, qty as real);
  }

  lemma {:induction false} SpentOnShares(close: real, qty: int, a: real, filled: int, price: real, cost: real)
    requires Pays(close, qty, a, filled, price, cost)
    ensures Notional(price, filled) <= Part(Notional(close, qty), 1.0 + a)
  {
    NotionalGrows(price, Part(close, 1.0 + a), filled, qty);
  }

  /** The cash after a purchase that the cash covered at the close. */
  ghost predicate OverdrawnAtMost(after: real, notional: real, a: real) {
    && after >= -(Part(notional, a) + Part(Max(Part(notional, 1.0 + a), MIN_NOTIONAL), a))
    && (Part(notional, 1.0 + a) >= MIN_NOTIONAL ==> after >= -Part(notional, 2.0 * a + a * a))
  }

  lemma {:induction false} OverdraftBound(cash: real, after: real, notional: real, a: real, spent: real, cost: real)
    requires a >= 0.0 && notional <= cash && after == cash - (spent + cost)
    requires spent <= Part(notional, 1.0 + a) && cost <= Part(Max(spent, MIN_NOTIONAL), a)
    ensures OverdrawnAtMost(after, notional, a)
  {
  }

  lemma {:induction false} AttemptPays(
    w: World, a: real, d: int, s: Sim, strategy: string, sig: Signal, qty: int, close: real)
    returns (filled: int, price: real, cost: real)
    requires Conserves(w.fill) && FillsAtPrice(w.fill) && ChargesAtMost(w, a)
    requires qty >= 1 && close > 0.0
    requires Attempt(w, d, s, strategy, sig, qty, close).open != s.open
    ensures Pays(close, qty, a, filled, price, cost) && Notional(close, qty) <= s.cash
    ensures Attempt(w, d, s, strategy, sig, qty, close).cash == s.cash - (Notional(price, filled) + cost)
  {
    var order := EntryOrder(w, sig.symbol, qty, close);
    var fill := w.fill(s.cursor, order).0;
    filled, price := fill.filledQty, fill.fillPrice;
    cost := EntryCost(w, sig.symbol, filled, price);
  }

  /** One entry leaves cash no lower than the price and cost margins on its notional. */
  lemma {:induction false} EntryOverdraft(
    w: World, a: real, d: int, s: Sim, strategy: string, sig: Signal, qty: int, close: real)
    requires Conserves(w.fill) && FillsAtPrice(w.fill) && ChargesAtMost(w, a)
    requires qty >= 1 && close > 0.0
    requires Attempt(w, d, s, strategy, sig, qty, close).open != s.open
    ensures OverdrawnAtMost(Attempt(w, d, s, strategy, sig, qty, close).cash, Notional(close, qty), a)
  {
    var filled, price, cost := AttemptPays(w, a, d, s, strategy, sig, qty, close);
    SpentOnShares(close, qty, a, filled, price, cost);
    OverdraftBound(s.cash, Attempt(w, d, s, strategy, sig, qty, close).cash, Notional(close, qty), a,
                   Notional(price, filled), cost);
  }

  // ----- The engine ----------------------------------------------------------------------------

  /** The source's cost model at a given spread, as the rules an engine applies. */
  function PriceRuleOf(costs: CostModel, spread: real): PriceRule {
    (nominal: real, side: Side, adv: real, notional: real) =>
      costs.ApplyFillPrice(nominal, side, adv, notional, Some(spread))
  }

  function CostRuleOf(costs: CostModel, spread: real): CostRule {
    (side: Side, notional: real, shares: real, adv: real) =>
      costs.EstimateOneWay(side, notional, shares, adv, Some(spread)).total
  }

  /** The source's fill simulator, with its draws from position `base` on. */
  function FillRuleOf(fills: FillConfig, draws: nat -> real, base: nat): (nat, Order) -> (FillResult, nat) {
    (at: nat, o: Order) => Outcome(fills, draws, base + at, o)
  }

  lemma {:induction false} SimulatorFits(fills: FillConfig, draws: nat -> real, base: nat)
    requires UnitDraws(draws)
    ensures Conserves(FillRuleOf(fills, draws, base)) && FillsAtPrice(FillRuleOf(fills, draws, base))
  {
    forall at: nat, o: Order | o.qty >= 0
      ensures var r := FillRuleOf(fills, draws, base)(at, o).0;
              && r.filledQty + r.remainingQty == o.qty && 0 <= r.filledQty <= o.qty && r.fillPrice == o.price
    {
      FillConservesShares(fills, draws, base + at, o);
    }
  }

  lemma {:induction false} CostRuleFits(costs: CostModel, spread: real)
    requires costs.Charges(Some(spread))
    ensures CostsAtMost(CostRuleOf(costs, spread), costs.WorstFraction(Some(spread)))
  {
    var rule := CostRuleOf(costs, spread);
    forall notional: real, shares: real, adv: real
      ensures rule(Buy, notional, shares, adv) <= Part(Max(notional, MIN_NOTIONAL), costs.WorstFraction(Some(spread)))
    {
      PurchaseCostBounds(costs, notional, shares, adv, Some(spread));
    }
  }

  lemma {:induction false} CostModelFits(w: World, costs: CostModel, spread: real)
    requires costs.Charges(Some(spread))
    requires w.fillPrice == PriceRuleOf(costs, spread) && w.oneWay == CostRuleOf(costs, spread)
    ensures ChargesAtMost(w, costs.WorstFraction(Some(spread)))
  {
    CostRuleFits(costs, spread);
  }

  // ----- Exits that find no fill ---------------------------------------------------------------

  /** The position is priced on the date and has reached its stop, target or age. */
  predicate Leaves(w: World, d: int, p: Position) {
    var row := RowOn(Rows(w.market, p.symbol), d);
    row.Some? && row.value.close > 0.0 && ExitTrigger(Aged(p), row.value.low, row.value.close).Some?
  }

  function Aged(p: Position): Position {
    p.(daysHeld := p.daysHeld + 1)
  }

  /** The price at which a leaving position is offered. */
  function OfferedAt(w: World, d: int, p: Position): real
    requires Leaves(w, d, p)
  {
    var row := RowOn(Rows(w.market, p.symbol), d).value;
    ExitTrigger(Aged(p), row.low, row.close).value.1
  }

  /** The simulator sells nothing exactly when the draw after the latency's exceeds the fill probability. */
  lemma {:induction false} NothingFilledIff(fills: FillConfig, draws: nat -> real, at: nat, o: Order)
    requires UnitDraws(draws) && o.qty > 0 && o.isMarketable
    ensures Outcome(fills, draws, at, o).0.filledQty == 0 <==> draws(at + 1) > fills.marketableFillProb
  {
    FillConservesShares(fills, draws, at, o);
    CapacityPositive(fills, o.advShares, o.barVolume);
  }

  /**
   A position that leaves always makes a trade. The trade is of no shares exactly when the fill draw
   fails, and then the exit costs as much as a full one and the shares stay, their entry cost charged.
   */
  lemma {:induction false} UnfilledExitStillPays(
    w: World, fills: FillConfig, draws: nat -> real, base: nat, d: int, s: Sim, p: Position)
    requires w.fill == FillRuleOf(fills, draws, base) && UnitDraws(draws)
    requires p.qty > 0 && Leaves(w, d, p)
    ensures var t := Exit(w, d, s, p);
            && |t.trades| == |s.trades| + 1
            && (t.trades[|s.trades|].qty == 0 <==> draws(base + s.cursor + 1) > fills.marketableFillProb)
    ensures draws(base + s.cursor + 1) > fills.marketableFillProb ==>
              var t, cost := Exit(w, d, s, p), ExitCost(w, Aged(p), OfferedAt(w, d, p));
              && t.cash == s.cash - cost
              && t.trades[|s.trades|].pnlNet == -(p.costEntry + cost)
              && t.open == s.open + [Aged(p).(costEntry := 0.0)]
  {
    var row := RowOn(Rows(w.market, p.symbol), d).value;
    var order := ExitOrder(w, Aged(p), OfferedAt(w, d, p), row.volume);
    NothingFilledIff(fills, draws, base + s.cursor, order);
    FillConservesShares(fills, draws, base + s.cursor, order);
  }

  // ----- What a run knows of the future --------------------------------------------------------

  /** The markets differ at most in their rows after `last`. */
  ghost predicate SameUntil(m: Market, n: Market, last: int) {
    forall symbol, d :: d <= last ==> RowOn(Rows(m, symbol), d) == RowOn(Rows(n, symbol), d)
  }

  /** The volume that an entry order is limited by. */
  function UsedVolume(m: Market, symbol: string): real {
    Max(EntryVolume(m, symbol), 1.0)
  }

  predicate LiquidityAgrees(m: Market, n: Market, symbol: string) {
    && Rows(m, symbol) != [] && Rows(n, symbol) != []
    && AverageDailyVolume(Rows(m, symbol)) == AverageDailyVolume(Rows(n, symbol))
    && UsedVolume(m, symbol) == UsedVolume(n, symbol)
  }

  /** What the engine takes from the end of the data is the same, for every symbol that can be traded by then. */
  ghost predicate SameLiquidity(m: Market, n: Market, last: int) {
    forall symbol, d :: d <= last && Close(m, symbol, d) > 0.0 ==> LiquidityAgrees(m, n, symbol)
  }

  /** The same settings, signals and rules over another market. */
  function Over(w: World, n: Market): World {
    w.(market := n)
  }

  lemma {:induction false} SameValue(m: Market, n: Market, last: int, open: seq<Position>, d: int)
    requires SameUntil(m, n, last) && d <= last
    ensures Value(m, open, d) == Value(n, open, d)
  {
    if open != [] {
      SameValue(m, n, last, open[..|open| - 1], d);
    }
  }

  lemma {:induction false} SameExit(w: World, n: Market, last: int, d: int, s: Sim, p: Position)
    requires SameUntil(w.market, n, last) && SameLiquidity(w.market, n, last) && d <= last
    ensures Exit(w, d, s, p) == Exit(Over(w, n), d, s, p)
  {
    assert Close(w.market, p.symbol, d) > 0.0 ==> LiquidityAgrees(w.market, n, p.symbol);
  }

  lemma {:induction false} SameExits(w: World, n: Market, last: int, d: int, s: Sim, held: seq<Position>)
    requires SameUntil(w.market, n, last) && SameLiquidity(w.market, n, last) && d <= last
    ensures Exits(w, d, s, held) == Exits(Over(w, n), d, s, held)
  {
    if held != [] {
      SameExits(w, n, last, d, s, held[..|held| - 1]);
      SameExit(w, n, last, d, Exits(w, d, s, held[..|held| - 1]), held[|held| - 1]);
    }
  }

  lemma {:induction false} SameEnter(w: World, n: Market, last: int, d: int, s: Sim, strategy: string, sig: Signal)
    requires SameUntil(w.market, n, last) && SameLiquidity(w.market, n, last) && d <= last
    ensures Enter(w, d, s, strategy, sig) == Enter(Over(w, n), d, s, strategy, sig)
  {
    SameValue(w.market, n, last, s.open, d);
    assert Close(w.market, sig.symbol, d) == Close(n, sig.symbol, d);
  }

  lemma {:induction false} SameEnterAll(
    w: World, n: Market, last: int, d: int, s: Sim, strategy: string, sigs: seq<Signal>)
    requires SameUntil(w.market, n, last) && SameLiquidity(w.market, n, last) && d <= last
    ensures EnterAll(w, d, s, strategy, sigs) == EnterAll(Over(w, n), d, s, strategy, sigs)
  {
    if sigs != [] {
      var init, sig := sigs[..|sigs| - 1], sigs[|sigs| - 1];
      SameEnterAll(w, n, last, d, s, strategy, init);
      SameEnter(w, n, last, d, EnterAll(w, d, s, strategy, init), strategy, sig);
    }
  }

  lemma {:induction false} SameStrategies(w: World, n: Market, last: int, d: int, s: Sim, desk: seq<StrategyDay>)
    requires SameUntil(w.market, n, last) && SameLiquidity(w.market, n, last) && d <= last
    ensures Strategies(w, d, s, desk) == Strategies(Over(w, n), d, s, desk)
  {
    if desk != [] {
      var init, day := desk[..|desk| - 1], desk[|desk| - 1];
      SameStrategies(w, n, last, d, s, init);
      if day.signals.Some? {
        SameEnterAll(w, n, last, d, Strategies(w, d, s, init), day.name, day.signals.value);
      }
    }
  }

  lemma {:induction false} SameDay(w: World, n: Market, last: int, d: int, s: Sim)
    requires SameUntil(w.market, n, last) && SameLiquidity(w.market, n, last) && d <= last
    ensures Day(w, d, s) == Day(Over(w, n), d, s)
    ensures Equity(w, Day(w, d, s), d) == Equity(Over(w, n), Day(w, d, s), d)
  {
    SameExits(w, n, last, d, s.(open := []), s.open);
    SameStrategies(w, n, last, d, ExitPhase(w, d, s), Desk(w, d));
    SameValue(w.market, n, last, Day(w, d, s).open, d);
  }

  lemma {:induction false} SameForceCloses(w: World, n: Market, last: int, d: int, s: Sim, held: seq<Position>)
    requires SameUntil(w.market, n, last) && SameLiquidity(w.market, n, last) && d <= last
    ensures ForceCloses(w, d, s, held) == ForceCloses(Over(w, n), d, s, held)
  {
    if held != [] {
      var p := held[|held| - 1];
      SameForceCloses(w, n, last, d, s, held[..|held| - 1]);
      assert Close(w.market, p.symbol, d) == Close(n, p.symbol, d);
      assert Close(w.market, p.symbol, d) > 0.0 ==> LiquidityAgrees(w.market, n, p.symbol);
    }
  }

  /** A run sees nothing of later rows but what they do to the liquidity figures. */
  lemma {:induction false} NoLookAhead(w: World, n: Market, last: int, dates: seq<int>)
    requires SameUntil(w.market, n, last) && SameLiquidity(w.market, n, last) && EndsBy(dates, last)
    ensures Days(w, dates) == Days(Over(w, n), dates)
    ensures Curve(w, dates) == Curve(Over(w, n), dates)
    ensures dates != [] ==> WholeRun(w, dates) == WholeRun(Over(w, n), dates)
  {
    if dates != [] {
      var k := |dates| - 1;
      NoLookAhead(w, n, last, dates[..k]);
      SameDay(w, n, last, dates[k], Days(w, dates[..k]));
      var s := Days(w, dates);
      SameForceCloses(w, n, last, dates[k], s.(open := []), s.open);
    }
  }

  /** Two orders for a symbol are the same exactly when those figures are, as the engine uses them. */
  lemma {:induction false} EntryOrderIff(w: World, v: World, symbol: string, qty: int, close: real)
    requires w.fillPrice == v.fillPrice
    ensures EntryOrder(w, symbol, qty, close) == EntryOrder(v, symbol, qty, close)
            <==> Adv(w, symbol) == Adv(v, symbol) && UsedVolume(w.market, symbol) == UsedVolume(v.market, symbol)
  {
    if EntryOrder(w, symbol, qty, close) == EntryOrder(v, symbol, qty, close) {
      var price := EntryPrice(w, symbol, close, Notional(close, qty));
      assert price == EntryPrice(v, symbol, close, Notional(close, qty));
    }
  }

  predicate EndsBy(dates: seq<int>, last: int) {
    forall i :: 0 <= i < |dates| ==> dates[i] <= last
  }

  /** Whatever the settings, signals and rules, a run up to `last` is the same over both markets. */
  ghost predicate AlwaysBlind(m: Market, n: Market, last: int) {
    forall w: World, dates: seq<int> :: w.market == m && EndsBy(dates, last) ==>
      Days(w, dates) == Days(Over(w, n), dates)
  }

  /** A world that buys one share of a symbol on one date, if the order is the expected one. */
  function Probe(m: Market, symbol: string, d: int, expected: Order): World {
    World(Settings(Close(m, symbol, d), 0.0, 1, 0.0), m,
          map[d := [StrategyDay("", Some([Signal(symbol, None, 0)]))]],
          (nominal: real, side: Side, adv: real, notional: real) => nominal,
          (side: Side, notional: real, shares: real, adv: real) => 0.0,
          (at: nat, o: Order) => (if o == expected then Filled(o, o.qty) else NoFill(o), 2))
  }

  /** The first day of a run that gets one signal is that signal's entry. */
  lemma {:induction false} FirstDayEnters(w: World, d: int, strategy: string, sig: Signal)
    requires w.settings.maxOpenPositions > 0 && d in w.feed && w.feed[d] == [StrategyDay(strategy, Some([sig]))]
    ensures Days(w, [d]) == Enter(w, d, Days(w, []), strategy, sig)
  {
    var start, desk := Days(w, []), w.feed[d];
    assert [d][..0] == [] && desk[..0] == [] && [sig][..0] == [];
    assert ExitPhase(w, d, start) == start;
    assert EnterAll(w, d, start, strategy, [sig]) == Enter(w, d, start, strategy, sig);
    assert Strategies(w, d, start, desk) == EnterAll(w, d, start, strategy, [sig]);
  }

  /** The order for one share that a probe places. */
  function ProbeOrder(m: Market, symbol: string, close: real): Order
    requires Rows(m, symbol) != []
  {
    Order(1, close, AverageDailyVolume(Rows(m, symbol)) / Max(close, 1.0), UsedVolume(m, symbol), true)
  }

  lemma {:induction false} ProbeOrderIff(m: Market, n: Market, symbol: string, close: real)
    requires Rows(m, symbol) != [] && Rows(n, symbol) != []
    ensures ProbeOrder(m, symbol, close) == ProbeOrder(n, symbol, close) <==> LiquidityAgrees(m, n, symbol)
  {
  }

  lemma {:induction false} ProbeBuysIff(m: Market, symbol: string, d: int, expected: Order)
    requires Close(m, symbol, d) > 0.0
    ensures Days(Probe(m, symbol, d, expected), [d]).open != []
            <==> ProbeOrder(m, symbol, Close(m, symbol, d)) == expected
  {
    var w, sig := Probe(m, symbol, d, expected), Signal(symbol, None, 0);
    FirstDayEnters(w, d, "", sig);
    assert EntryOrder(w, symbol, 1, Close(m, symbol, d)) == ProbeOrder(m, symbol, Close(m, symbol, d));
  }

  /**
   Two markets that agree until `last` are told apart by no run until then exactly when the liquidity figures
   agree.
   */
  lemma {:induction false} NoLookAheadIff(m: Market, n: Market, last: int)
    requires SameUntil(m, n, last)
    ensures AlwaysBlind(m, n, last) <==> SameLiquidity(m, n, last)
  {
    if SameLiquidity(m, n, last) {
      forall w: World, dates: seq<int> | w.market == m && EndsBy(dates, last)
        ensures Days(w, dates) == Days(Over(w, n), dates)
      {
        NoLookAhead(w, n, last, dates);
      }
      assert AlwaysBlind(m, n, last);
    } else {
      var symbol, d :| d <= last && Close(m, symbol, d) > 0.0 && !LiquidityAgrees(m, n, symbol);
      LiquidityShows(m, n, last, symbol, d);
    }
  }

  lemma ToldApart(w: World, n: Market, last: int, d: int)
    requires d <= last && Days(w, [d]) != Days(Over(w, n), [d])
    ensures !AlwaysBlind(w.market, n, last)
  {
    assert EndsBy([d], last);
  }

  lemma {:induction false} LiquidityShows(m: Market, n: Market, last: int, symbol: string, d: int)
    requires SameUntil(m, n, last) && d <= last && Close(m, symbol, d) > 0.0 && !LiquidityAgrees(m, n, symbol)
    ensures !AlwaysBlind(m, n, last)
  {
    assert Close(n, symbol, d) == Close(m, symbol, d);
    var expected := ProbeOrder(m, symbol, Close(m, symbol, d));
    ProbeBuysIff(m, symbol, d, expected);
    ProbeBuysIff(n, symbol, d, expected);
    ProbeOrderIff(m, n, symbol, Close(m, symbol, d));
    assert Over(Probe(m, symbol, d, expected), n) == Probe(n, symbol, d, expected);
    ToldApart(Probe(m, symbol, d, expected), n, last, d);
  }

  // A market of one symbol on date 1, the same with a row for date 2, and a run on date 1 with the source's defaults.

  const TODAY := Bar(1, 10.0, 10.0, 1000.0)
  const TOMORROW := Bar(2, 10.0, 10.0, 1000000.0)
  const DEFAULT_COSTS := CostModel(5.0, 3.0)
  const DEFAULT_FILLS := FillConfig(0.02, 0.01, 0.40, 0.95)
  const DEFAULT_SETTINGS := Settings(100000.0, 0.01, 10, 50000000.0)

  function Defaults(rows: seq<Bar>): World {
    World(DEFAULT_SETTINGS, Market(map["A" := rows]), map[1 := [StrategyDay("S", Some([Signal("A", None, 86400)]))]],
          PriceRuleOf(DEFAULT_COSTS, 5.0), CostRuleOf(DEFAULT_COSTS, 5.0),
          FillRuleOf(DEFAULT_FILLS, (i: nat) => 0.5, 0))
  }

  lemma RowsOfOneOrTwo(d: int)
    requires d <= 1
    ensures RowOn([TODAY, TOMORROW], d) == RowOn([TODAY], d) == if d == 1 then Some(TODAY) else None
  {
    assert [TODAY, TOMORROW][..1] == [TODAY] && [TODAY][..0] == [];
  }

  lemma VolumesOfOneOrTwo()
    ensures AverageDailyVolume([TODAY]) == 10000.0 && AverageDailyVolume([TODAY, TOMORROW]) == 5005000.0
  {
    assert [TODAY, TOMORROW][..1] == [TODAY] && [TODAY][..0] == [];
    assert TotalVolume([TODAY]) == 1000.0 && TotalClose([TODAY]) == 10.0;
    assert TotalVolume([TODAY, TOMORROW]) == 1001000.0 && TotalClose([TODAY, TOMORROW]) == 20.0;
  }

  /** The default order for the symbol, with each of the two data sets. */
  lemma DefaultOrders()
    ensures EntryOrder(Defaults([TODAY]), "A", 1000, 10.0) == Order(1000, 10.0155, 10000.0 / 10.0155, 1000.0, true)
    ensures EntryOrder(Defaults([TODAY, TOMORROW]), "A", 1000, 10.0) ==
            Order(1000, 10.0055, 5005000.0 / 10.0055, 1000000.0, true)
  {
    VolumesOfOneOrTwo();
    assert DEFAULT_COSTS.ImpactBps(10000.0 / 10000.0) == 13.0;
    assert DEFAULT_COSTS.ImpactBps(10000.0 / 5005000.0) == 3.0;
  }

  lemma DefaultEntry(rows: seq<Bar>)
    requires rows == [TODAY] || rows == [TODAY, TOMORROW]
    ensures var w := Defaults(rows);
            && Considers(w, 1, Days(w, []), Signal("A", None, 86400))
            && EntrySize(w, 1, Days(w, []), Signal("A", None, 86400)) == 1000
            && Close(w.market, "A", 1) == 10.0
  {
    RowsOfOneOrTwo(1);
    var w := Defaults(rows);
    assert Equity(w, Days(w, []), 1) == 100000.0;
  }

  /** A row for tomorrow lets the engine buy a thousand shares today instead of ten. */
  lemma {:induction false} TomorrowChangesToday()
    ensures SameUntil(Market(map["A" := [TODAY]]), Market(map["A" := [TODAY, TOMORROW]]), 1)
    ensures Days(Defaults([TODAY]), [1]).bought == [("A", 10)]
    ensures Days(Defaults([TODAY, TOMORROW]), [1]).bought == [("A", 1000)]
  {
    forall symbol, d | d <= 1
      ensures RowOn(Rows(Market(map["A" := [TODAY]]), symbol), d) ==
              RowOn(Rows(Market(map["A" := [TODAY, TOMORROW]]), symbol), d)
    {
      RowsOfOneOrTwo(d);
    }
    DefaultDay([TODAY], 10);
    DefaultDay([TODAY, TOMORROW], 1000);
  }

  lemma DefaultDay(rows: seq<Bar>, shares: int)
    requires (rows == [TODAY] && shares == 10) || (rows == [TODAY, TOMORROW] && shares == 1000)
    ensures Days(Defaults(rows), [1]).bought == [("A", shares)]
  {
    FirstDayEnters(Defaults(rows), 1, "S", Signal("A", None, 86400));
    DefaultEntry(rows);
    DefaultOrders();
  }

  // A position at its stop on a day whose fill draw fails, with the source's default costs and fills.

  const AT_ITS_STOP := Position("A", "S", 0, 100, 10.5, 10.0, 11.5, 5, 2.0, 0)

  function UnluckyWorld(): World {
    Defaults([TODAY]).(fill := FillRuleOf(DEFAULT_FILLS, (i: nat) => 0.99, 0))
  }

  /** A hundred shares offered at their stop are not sold, and cash falls by the cost of selling them. */
  lemma {:induction false} FailedDrawStillPays(s: Sim)
    requires s.cursor == 0
    ensures var t := Exit(UnluckyWorld(), 1, s, AT_ITS_STOP);
            && |t.trades| == |s.trades| + 1 && t.trades[|s.trades|].qty == 0
            && t.trades[|s.trades|].pnlNet == -3.5944 && t.trades[|s.trades|].reason == Stop
            && t.cash == s.cash - 1.5944
            && t.open == s.open + [AT_ITS_STOP.(daysHeld := 1, costEntry := 0.0)]
  {
    var w := UnluckyWorld();
    RowsOfOneOrTwo(1);
    assert Leaves(w, 1, AT_ITS_STOP) && OfferedAt(w, 1, AT_ITS_STOP) == 10.0;
    UnfilledExitStillPays(w, DEFAULT_FILLS, (i: nat) => 0.99, 0, 1, s, AT_ITS_STOP);
  }

  lemma DaySnoc(w: World, dates: seq<int>, i: nat)
    requires i < |dates|
    ensures Days(w, dates[..i + 1]) == Day(w, dates[i], Days(w, dates[..i]))
    ensures Curve(w, dates[..i + 1]) == Curve(w, dates[..i]) + [Equity(w, Days(w, dates[..i + 1]), dates[i])]
  {
    assert dates[..i + 1][..i] == dates[..i];
  }

  lemma EnterAllSnoc(w: World, d: int, s: Sim, strategy: string, sigs: seq<Signal>, i: nat)
    requires i < |sigs|
    ensures EnterAll(w, d, s, strategy, sigs[..i + 1]) ==
            Enter(w, d, EnterAll(w, d, s, strategy, sigs[..i]), strategy, sigs[i])
  {
    assert sigs[..i + 1][..i] == sigs[..i];
  }

  lemma {:induction false} FullBookTakesNothing(w: World, d: int, s: Sim, strategy: string, sigs: seq<Signal>, k: nat)
    requires k <= |sigs|
    requires |EnterAll(w, d, s, strategy, sigs[..k]).open| >= w.settings.maxOpenPositions
    ensures EnterAll(w, d, s, strategy, sigs) == EnterAll(w, d, s, strategy, sigs[..k])
    decreases |sigs|
  {
    if k == |sigs| {
      assert sigs[..k] == sigs;
    } else {
      assert sigs[..|sigs| - 1][..k] == sigs[..k];
      FullBookTakesNothing(w, d, s, strategy, sigs[..|sigs| - 1], k);
    }
  }

}
