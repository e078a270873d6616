/** Open positions in memory and their copy in the shared store; the risk budget over a run of trades. */
module Portfolio {
  import opened Common
  import opened Sizing

  datatype Side = Buy | Sell

  datatype Position = Position(symbol: string, side: string, qty: int, avgEntryPrice: real, stopDistance: real,
                               strategy: string, orderId: string)

  datatype Fill = Fill(orderId: string, symbol: string, side: Side, qty: int, price: real, strategy: string, stop: real)

  datatype Settings = Settings(risk: RiskConfig, maxPositions: int, pdtProtection: bool)

  const PDT_LIMIT := 3

  type Book = map<string, Position>

  function Basis(p: Position): real {
    p.avgEntryPrice * p.qty as real
  }

  function RiskOf(p: Position): real {
    Basis(p) * p.stopDistance
  }

  /** The risk of every open position together. */
  ghost function TotalRisk(book: Book): real {
    if book == map[] then 0.0
    else
      var s :| s in book;
      RiskOf(book[s]) + TotalRisk(book - {s})
  }

  /** The total can be taken from any position first. */
  lemma {:induction false} TotalRiskSplits(book: Book, s: string)
    requires s in book
    ensures TotalRisk(book) == RiskOf(book[s]) + TotalRisk(book - {s})
    decreases |book|
  {
    var first :| first in book && TotalRisk(book) == RiskOf(book[first]) + TotalRisk(book - {first});
    if first != s {
      TotalRiskSplits(book - {first}, s);
      TotalRiskSplits(book - {s}, first);
      assert book - {first} - {s} == book - {s} - {first};
    }
  }

  lemma TotalRiskOpens(book: Book, s: string, p: Position)
    requires s !in book
    ensures TotalRisk(book[s := p]) == RiskOf(p) + TotalRisk(book)
  {
    TotalRiskSplits(book[s := p], s);
    assert book[s := p] - {s} == book;
  }

  ghost function OpenRisk(book: Book, equity: real): real {
    if equity <= 0.0 then 0.0 else TotalRisk(book) / equity
  }

  // ----- The manager ---------------------------------------------------------------------------

  function AveragePrice(p: Position, qty: int, price: real): real
    requires p.qty + qty != 0
  {
    (Basis(p) + price * qty as real) / (p.qty + qty) as real
  }

  /** What a purchase adds to the position already held in its symbol, or the position it opens. */
  function Bought(book: Book, f: Fill): Position
    requires f.symbol in book ==> book[f.symbol].qty + f.qty != 0
  {
    if f.symbol in book then
      var p := book[f.symbol];
      p.(qty := p.qty + f.qty, avgEntryPrice := AveragePrice(p, f.qty, f.price))
    else
      Position(f.symbol, "buy", f.qty, f.price, f.stop, f.strategy, f.orderId)
  }

  /** Averaging divides by the new quantity. */
  predicate Raises(book: Book, f: Fill) {
    f.side.Buy? && f.symbol in book && book[f.symbol].qty + f.qty == 0
  }

  /** The positions after a fill; a sale closes the whole position. */
  function AfterFill(book: Book, f: Fill): Book {
    if Raises(book, f) then book
    else if f.side.Buy? then book[f.symbol := Bought(book, f)]
    else book - {f.symbol}
  }

  /** A purchase adds its cost to the position's basis and its quantity to the position's. */
  lemma {:induction false} BasisIsConserved(book: Book, f: Fill)
    requires f.side.Buy? && !Raises(book, f)
    ensures var held := if f.symbol in book then (book[f.symbol].qty, Basis(book[f.symbol])) else (0, 0.0);
            var p := AfterFill(book, f)[f.symbol];
            p.qty == held.0 + f.qty && Basis(p) == held.1 + f.price * f.qty as real
  {
  }

  /**
   What a fill does: a sale closes its symbol's whole position; a purchase of a new symbol opens a position with
   the fill's terms; one of a held symbol keeps all terms but quantity and price. No other position changes.
   */
  lemma {:induction false} FillEffects(book: Book, f: Fill)
    ensures forall s :: s != f.symbol ==>
            (s in AfterFill(book, f) <==> s in book) && (s in book ==> AfterFill(book, f)[s] == book[s])
    ensures f.side.Sell? ==> f.symbol !in AfterFill(book, f)
    ensures f.side.Buy? && f.symbol !in book ==>
            f.symbol in AfterFill(book, f) &&
            AfterFill(book, f)[f.symbol] == Position(f.symbol, "buy", f.qty, f.price, f.stop, f.strategy, f.orderId)
    ensures f.side.Buy? && f.symbol in book ==>
            && f.symbol in AfterFill(book, f)
            && var p, q := book[f.symbol], AfterFill(book, f)[f.symbol];
            && q == p.(qty := q.qty, avgEntryPrice := q.avgEntryPrice)
            && (p.qty + f.qty == 0 ==> q == p)
            && (p.qty + f.qty != 0 ==>
                && q.qty == p.qty + f.qty
                && q.avgEntryPrice * q.qty as real == p.avgEntryPrice * p.qty as real + f.price * f.qty as real)
  {
    if f.side.Buy? && !Raises(book, f) {
      BasisIsConserved(book, f);
    }
  }

  /** A position risks its cost times its stop distance, and that over the equity is the open risk it makes. */
  lemma {:induction false} OnePositionRisk(s: string, p: Position, equity: real)
    requires equity > 0.0
    ensures OpenRisk(map[s := p], equity) * equity == p.avgEntryPrice * p.qty as real * p.stopDistance
  {
    TotalRiskSplits(map[s := p], s);
    assert map[s := p] - {s} == map[];
    var total := TotalRisk(map[s := p]);
    assert total / equity * equity == total;
  }

  function Imported(symbol: string, qty: int, price: real): Position {
    Position(symbol, "buy", qty, price, 0.03, "reconcile", "")
  }

  ghost predicate KeyedBySymbol(book: Book) {
    forall s :: s in book ==> book[s].symbol == s
  }

  /** The shared store, which outlives the process. */
  class Store {
    var positions: Book
    var equity: Option<real>
    var daytrades: int

    constructor ()
      ensures positions == map[] && equity == None && daytrades == 0
    {
      positions, equity, daytrades := map[], None, 0;
    }
  }

  class PortfolioManager {
    const store: Store
    const settings: Settings
    var positions: Book
    var equity: real
    var pdtCount: int

    constructor (store: Store, settings: Settings)
      ensures this.store == store && this.settings == settings
      ensures positions == map[] && equity == 0.0 && pdtCount == 0
    {
      this.store, this.settings := store, settings;
      positions, equity, pdtCount := map[], 0.0, 0;
    }

    /** Memory and store hold the same positions. */
    ghost predicate Mirrored()
      reads this, store
    {
      positions == store.positions && KeyedBySymbol(positions)
    }

    /** A fresh manager takes over exactly what the store holds. */
    method LoadState()
      requires KeyedBySymbol(store.positions)
      modifies this
      ensures positions == old(positions) + store.positions
      ensures old(positions) == map[] ==> Mirrored()
      ensures equity == if store.equity.Some? then store.equity.value else old(equity)
      ensures pdtCount == old(pdtCount)
    {
      if store.equity.Some? {
        equity := store.equity.value;
      }
      var keys := store.positions.Keys;
      while keys != {}
        invariant keys <= store.positions.Keys
        invariant positions == old(positions) + (store.positions - keys)
        invariant equity == if store.equity.Some? then store.equity.value else old(equity)
        invariant pdtCount == old(pdtCount)
      {
        var key :| key in keys;
        var p := store.positions[key];
        positions := positions[p.symbol := p];
        keys := keys - {key};
      }
    }

    method GetOpenRisk() returns (risk: real)
      ensures risk == OpenRisk(positions, equity)
    {
      if equity <= 0.0 {
        return 0.0;
      }
      var total := 0.0;
      var rest := positions;
      while rest != map[]
        invariant rest.Keys <= positions.Keys && forall s :: s in rest ==> rest[s] == positions[s]
        invariant total + TotalRisk(rest) == TotalRisk(positions)
        decreases |rest|
      {
        var s :| s in rest;
        TotalRiskSplits(rest, s);
        total := total + RiskOf(rest[s]);
        rest := rest - {s};
      }
      return total / equity;
    }

    /** A new position needs an unheld symbol, a free slot, and day trades to spare when they are protected. */
    method CanOpenPosition(symbol: string) returns (allowed: bool)
      modifies this`pdtCount
      ensures allowed == MayOpen(positions, symbol, settings, store.daytrades)
      ensures allowed <==> symbol !in positions && |positions| < settings.maxPositions
                           && !(store.daytrades >= 3 && settings.pdtProtection)
      ensures pdtCount ==
              if symbol in positions || |positions| >= settings.maxPositions then old(pdtCount) else store.daytrades
    {
      if symbol in positions {
        return false;
      }
      if |positions| >= settings.maxPositions {
        return false;
      }
      pdtCount := store.daytrades;
      if pdtCount >= PDT_LIMIT && settings.pdtProtection {
        return false;
      }
      return true;
    }

    method SizeSignal(stop: Option<real>, price: real) returns (shares: nat)
      ensures shares == CalculatePositionSize(stop, equity, OpenRisk(positions, equity), settings.risk, price)
    {
      var risk := GetOpenRisk();
      shares := CalculatePositionSize(stop, equity, risk, settings.risk, price);
    }

    method RecordFill(f: Fill) returns (raised: bool)
      requires Mirrored()
      modifies this`positions, store`positions
      ensures Mirrored()
      ensures raised == Raises(old(positions), f)
      ensures positions == AfterFill(old(positions), f)
    {
      raised := false;
      if f.side.Buy? {
        if f.symbol in positions {
          var p := positions[f.symbol];
          var totalQty := p.qty + f.qty;
          if totalQty == 0 {
            return true;
          }
          positions := positions[f.symbol := p.(qty := totalQty, avgEntryPrice := AveragePrice(p, f.qty, f.price))];
        } else {
          positions := positions[f.symbol := Position(f.symbol, "buy", f.qty, f.price, f.stop, f.strategy, f.orderId)];
        }
        PersistPosition(positions[f.symbol]);
      } else if f.symbol in positions {
        positions := positions - {f.symbol};
        store.positions := store.positions - {f.symbol};
      } else {
        assert positions - {f.symbol} == positions;
      }
    }

    method UpdateEquity(equity: real)
      modifies this`equity, store`equity
      ensures this.equity == equity && store.equity == Some(equity)
    {
      this.equity := equity;
      store.equity := Some(equity);
    }

    method ImportPosition(symbol: string, qty: int, price: real)
      requires Mirrored()
      modifies this`positions, store`positions
      ensures Mirrored()
      ensures positions == old(positions)[symbol := Imported(symbol, qty, price)]
      ensures positions[symbol] == Position(symbol, "buy", qty, price, 0.03, "reconcile", "")
    {
      var p := Imported(symbol, qty, price);
      positions := positions[symbol := p];
      PersistPosition(p);
    }

    method RemovePosition(symbol: string)
      requires Mirrored()
      modifies this`positions, store`positions
      ensures Mirrored()
      ensures positions == old(positions) - {symbol}
    {
      positions := positions - {symbol};
      store.positions := store.positions - {symbol};
    }

    method UpdatePositionQty(symbol: string, qty: int)
      requires Mirrored()
      modifies this`positions, store`positions
      ensures Mirrored()
      ensures positions ==
              if symbol in old(positions) then old(positions)[symbol := old(positions)[symbol].(qty := qty)]
              else old(positions)
    {
      if symbol in positions {
        positions := positions[symbol := positions[symbol].(qty := qty)];
        PersistPosition(positions[symbol]);
      }
    }

    method PersistPosition(p: Position)
      modifies store`positions
      ensures store.positions == old(store.positions)[p.symbol := p]
    {
      store.positions := store.positions[p.symbol := p];
    }
  }

  predicate MayOpen(book: Book, symbol: string, settings: Settings, daytrades: int) {
    && symbol !in book
    && |book| < settings.maxPositions
    && (daytrades < PDT_LIMIT || !settings.pdtProtection)
  }
}

/** The global risk budget over a whole run of sized purchases and sales. */
module RiskBudget {
  import opened Common
  import opened Sizing
  import opened Portfolio

  /** A signal with the price and stop it is sized at and the fill it ends in, or a sale. */
  datatype Trade = Open(stop: Option<real>, price: real, daytrades: int, fill: Fill) | Close(fill: Fill)

  /** The signal is admitted, and filled at no more than the size, the price and the stop it was sized with. */
  ghost predicate Admitted(book: Book, t: Trade, equity: real, settings: Settings) {
    match t
    case Open(stop, price, daytrades, fill) =>
      && fill.side.Buy? && MayOpen(book, fill.symbol, settings, daytrades)
      && 0 <= fill.qty <= CalculatePositionSize(stop, equity, OpenRisk(book, equity), settings.risk, price)
      && 0.0 <= fill.price <= price
      && 0.0 <= fill.stop <= StopUsed(stop, settings.risk)
    case Close(fill) => fill.side.Sell?
  }

  function Run(book: Book, trades: seq<Trade>): Book {
    if trades == [] then book else AfterFill(Run(book, trades[..|trades| - 1]), trades[|trades| - 1].fill)
  }

  /** Each trade is admitted against the positions that the ones before it leave. */
  ghost predicate AdmittedRun(book: Book, trades: seq<Trade>, equity: real, settings: Settings) {
    trades != [] ==>
      && AdmittedRun(book, trades[..|trades| - 1], equity, settings)
      && Admitted(Run(book, trades[..|trades| - 1]), trades[|trades| - 1], equity, settings)
  }

  ghost predicate WithinBudget(book: Book, equity: real, settings: Settings) {
    && (forall s :: s in book ==> RiskOf(book[s]) >= 0.0)
    && OpenRisk(book, equity) <= settings.risk.maxOpenRisk
    && |book| <= settings.maxPositions
  }

  lemma {:induction false} OpeningRisk(p: Position, price: real, used: real, budget: real)
    requires p.qty >= 0 && 0.0 <= p.avgEntryPrice <= price && 0.0 <= p.stopDistance <= used
    ensures 0.0 <= RiskOf(p)
    ensures p.qty == 0 ==> RiskOf(p) == 0.0
    ensures RisksAtMost(Cost(p.qty, price), used, budget) ==> RiskOf(p) <= budget
  {
  }

  lemma OpenRiskAfter(book: Book, s: string, p: Position, equity: real, most: real)
    requires s !in book && equity > 0.0 && RiskOf(p) <= Part(equity, most - OpenRisk(book, equity))
    ensures OpenRisk(book[s := p], equity) <= most
  {
    TotalRiskOpens(book, s, p);
    Fraction(TotalRisk(book), RiskOf(p), equity, most);
  }

  lemma Fraction(total: real, extra: real, equity: real, most: real)
    requires equity > 0.0 && extra <= Part(equity, most - total / equity)
    ensures (extra + total) / equity <= most
  {
    assert (total / equity) * equity == total;
    assert equity * (most - total / equity) == equity * most - total;
    AtMostQuotient(-most, -(extra + total), equity);
  }

  /** A sized purchase that takes the risk budget's remainder at most. */
  lemma {:induction false} SizedPurchaseFits(book: Book, t: Trade, equity: real, settings: Settings)
    requires t.Open? && Admitted(book, t, equity, settings)
    ensures RiskOf(Bought(book, t.fill)) >= 0.0
    ensures t.fill.qty > 0 && equity > 0.0 ==>
              RiskOf(Bought(book, t.fill)) <= Part(equity, settings.risk.maxOpenRisk - OpenRisk(book, equity))
    ensures t.fill.qty == 0 ==> RiskOf(Bought(book, t.fill)) == 0.0
  {
    var open := OpenRisk(book, equity);
    OpeningRisk(Bought(book, t.fill), t.price, StopUsed(t.stop, settings.risk),
                Part(equity, settings.risk.maxOpenRisk - open));
    if t.fill.qty > 0 && equity > 0.0 {
      SizeIsLargestAffordable(t.stop, equity, open, settings.risk, t.price, t.fill.qty);
    }
  }

  lemma {:induction false} OpeningStaysWithin(book: Book, t: Trade, equity: real, settings: Settings)
    requires t.Open? && Admitted(book, t, equity, settings) && WithinBudget(book, equity, settings)
    ensures WithinBudget(AfterFill(book, t.fill), equity, settings)
  {
    var p := Bought(book, t.fill);
    SizedPurchaseFits(book, t, equity, settings);
    if equity > 0.0 {
      if t.fill.qty == 0 {
        TotalRiskOpens(book, t.fill.symbol, p);
      } else {
        OpenRiskAfter(book, t.fill.symbol, p, equity, settings.risk.maxOpenRisk);
      }
    }
  }

  lemma SmallerFraction(less: real, total: real, equity: real)
    requires less <= total && equity > 0.0
    ensures less / equity <= total / equity
  {
    AtMostQuotient(less / equity, total, equity);
  }

  lemma {:induction false} ClosingStaysWithin(book: Book, fill: Fill, equity: real, settings: Settings)
    requires fill.side.Sell? && WithinBudget(book, equity, settings)
    ensures WithinBudget(AfterFill(book, fill), equity, settings)
  {
    var left := book - {fill.symbol};
    if fill.symbol in book {
      TotalRiskSplits(book, fill.symbol);
      assert left.Keys == book.Keys - {fill.symbol};
      if equity > 0.0 {
        SmallerFraction(TotalRisk(left), TotalRisk(book), equity);
      }
    } else {
      assert left == book;
    }
  }

  /** No run of admitted trades ever takes open risk over the global budget or the positions over their limit. */
  lemma {:induction false} RunStaysWithinBudget(book: Book, trades: seq<Trade>, equity: real, settings: Settings)
    requires WithinBudget(book, equity, settings) && AdmittedRun(book, trades, equity, settings)
    ensures WithinBudget(Run(book, trades), equity, settings)
  {
    if trades != [] {
      var before, t := trades[..|trades| - 1], trades[|trades| - 1];
      RunStaysWithinBudget(book, before, equity, settings);
      if t.Open? {
        OpeningStaysWithin(Run(book, before), t, equity, settings);
      } else {
        ClosingStaysWithin(Run(book, before), t.fill, equity, settings);
      }
    }
  }
}
