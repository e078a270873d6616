/** Startup reconciliation: one pass brings the portfolio's positions in line with the broker's. */
module Reconciliation {
  import opened Common
  import opened Portfolio

  datatype BrokerPosition = BrokerPosition(symbol: string, qty: real, avgEntryPrice: real)

  datatype Summary = Summary(imported: nat, closed: nat, updated: nat)

  type AtBroker = map<string, BrokerPosition>

  /** The broker's list by symbol; the last entry for a symbol counts. */
  function BySymbol(listed: seq<BrokerPosition>): AtBroker {
    if listed == [] then map[]
    else
      var last := listed[|listed| - 1];
      BySymbol(listed[..|listed| - 1])[last.symbol := last]
  }

  lemma {:induction false} LastListedCounts(listed: seq<BrokerPosition>, i: nat)
    requires i < |listed| && forall j :: i < j < |listed| ==> listed[j].symbol != listed[i].symbol
    ensures listed[i].symbol in BySymbol(listed) && BySymbol(listed)[listed[i].symbol] == listed[i]
  {
    if i < |listed| - 1 {
      LastListedCounts(listed[..|listed| - 1], i);
    }
  }

  lemma {:induction false} ExactlyTheListed(listed: seq<BrokerPosition>, s: string)
    ensures s in BySymbol(listed) <==> exists i :: 0 <= i < |listed| && listed[i].symbol == s
  {
    if listed != [] {
      var n := |listed| - 1;
      ExactlyTheListed(listed[..n], s);
      assert forall i :: 0 <= i < n ==> listed[..n][i] == listed[i];
      if s in BySymbol(listed) && listed[n].symbol != s {
        var i :| 0 <= i < n && listed[..n][i].symbol == s;
        assert listed[i].symbol == s;
      }
    }
  }

  function WholeQty(bp: BrokerPosition): int {
    Trunc(bp.qty)
  }

  /** The fraction is dropped, towards zero for either sign. */
  lemma {:induction false} WholeQtyIsTowardsZero(bp: BrokerPosition)
    ensures bp.qty >= 0.0 ==> 0.0 <= WholeQty(bp) as real <= bp.qty < WholeQty(bp) as real + 1.0
    ensures bp.qty <= 0.0 ==> WholeQty(bp) as real - 1.0 < bp.qty <= WholeQty(bp) as real <= 0.0
  {
  }

  ghost function NotHeld(held: Book, broker: AtBroker): set<string> {
    broker.Keys - held.Keys
  }

  ghost function NotAtBroker(held: Book, broker: AtBroker): set<string> {
    held.Keys - broker.Keys
  }

  predicate Differs(held: Book, broker: AtBroker, s: string) {
    s in held && s in broker && WholeQty(broker[s]) != held[s].qty
  }

  ghost function Differing(held: Book, broker: AtBroker): set<string> {
    set s | s in held && Differs(held, broker, s)
  }

  /** The broker's symbols and whole quantities, and all else about a position as it was held. */
  ghost predicate Reconciles(held: Book, broker: AtBroker, now: Book) {
    && now.Keys == broker.Keys
    && forall s :: s in broker ==>
         now[s] == if s in held then held[s].(qty := WholeQty(broker[s]))
                   else Imported(s, WholeQty(broker[s]), broker[s].avgEntryPrice)
  }

  // ----- The three cases, with `todo` still to look at -----------------------------------------

  ghost predicate ImportedBut(held: Book, broker: AtBroker, todo: set<string>, now: Book) {
    && now.Keys == held.Keys + (broker.Keys - todo)
    && (forall s :: s in held ==> now[s] == held[s])
    && (forall s :: s in now && s !in held ==> now[s] == Imported(s, WholeQty(broker[s]), broker[s].avgEntryPrice))
  }

  ghost predicate ClosedBut(before: Book, broker: AtBroker, todo: set<string>, now: Book) {
    now.Keys == broker.Keys + todo && now.Keys <= before.Keys && forall s :: s in now ==> now[s] == before[s]
  }

  ghost predicate UpdatedBut(held: Book, before: Book, broker: AtBroker, todo: set<string>, now: Book) {
    && now.Keys == broker.Keys == before.Keys
    && forall s :: s in broker ==>
         now[s] == if s in held && s !in todo then held[s].(qty := WholeQty(broker[s])) else before[s]
  }

  lemma ImportStart(held: Book, broker: AtBroker)
    ensures ImportedBut(held, broker, broker.Keys, held)
  {
  }

  lemma CloseStart(held: Book, broker: AtBroker, before: Book)
    requires before.Keys == held.Keys + broker.Keys
    ensures ClosedBut(before, broker, held.Keys, before)
  {
  }

  lemma ImportStep(held: Book, broker: AtBroker, todo: set<string>, now: Book, s: string)
    requires todo <= broker.Keys && s in todo && ImportedBut(held, broker, todo, now)
    ensures ImportedBut(held, broker, todo - {s},
                        if s in held then now else now[s := Imported(s, WholeQty(broker[s]), broker[s].avgEntryPrice)])
  {
  }

  lemma CloseStep(before: Book, broker: AtBroker, todo: set<string>, now: Book, s: string)
    requires s in todo && ClosedBut(before, broker, todo, now)
    ensures ClosedBut(before, broker, todo - {s}, if s in broker then now else now - {s})
  {
  }

  lemma UpdateStep(held: Book, before: Book, broker: AtBroker, todo: set<string>, now: Book, s: string)
    requires todo <= held.Keys * broker.Keys && s in todo && UpdatedBut(held, before, broker, todo, now)
    requires before[s] == held[s]
    ensures UpdatedBut(held, before, broker, todo - {s},
                       if Differs(held, broker, s) then now[s := now[s].(qty := WholeQty(broker[s]))] else now)
  {
  }

  lemma StartAndEnd(all: set<string>, todo: set<string>)
    ensures all <= todo ==> |all - todo| == 0
    ensures |all - {}| == |all|
  {
    assert all - {} == all;
    if all <= todo {
      assert all - todo == {};
    }
  }

  /** Counting the members of `all` one by one. */
  lemma CountStep(all: set<string>, todo: set<string>, s: string)
    requires s in todo
    ensures |all - (todo - {s})| == |all - todo| + if s in all then 1 else 0
  {
    if s in all {
      assert all - (todo - {s}) == (all - todo) + {s};
    } else {
      assert all - (todo - {s}) == all - todo;
    }
  }

  class ReconciliationService {
    const portfolio: PortfolioManager

    constructor (portfolio: PortfolioManager)
      ensures this.portfolio == portfolio
    {
      this.portfolio := portfolio;
    }

    /** One pass over the positions; nothing changes when they cannot be fetched. */
    method Run(fetched: Option<seq<BrokerPosition>>) returns (summary: Summary)
      requires portfolio.Mirrored()
      modifies portfolio`positions, portfolio.store`positions
      ensures portfolio.Mirrored()
      ensures fetched.None? ==> portfolio.positions == old(portfolio.positions) && summary == Summary(0, 0, 0)
      ensures fetched.Some? ==>
                var held, broker := old(portfolio.positions), BySymbol(fetched.value);
                && Reconciles(held, broker, portfolio.positions)
                && summary == Summary(|NotHeld(held, broker)|, |NotAtBroker(held, broker)|, |Differing(held, broker)|)
    {
      if fetched.None? {
        return Summary(0, 0, 0);
      }
      var broker := BySymbol(fetched.value);
      var held := portfolio.positions;
      var imported := ImportMissing(held, broker);
      var closed := CloseAbsent(held, broker);
      var updated := UpdateDiffering(held, broker);
      summary := Summary(imported, closed, updated);
    }

    method ImportMissing(held: Book, broker: AtBroker) returns (imported: nat)
      requires portfolio.Mirrored() && portfolio.positions == held
      modifies portfolio`positions, portfolio.store`positions
      ensures portfolio.Mirrored()
      ensures ImportedBut(held, broker, {}, portfolio.positions)
      ensures imported == |NotHeld(held, broker)|
    {
      imported := 0;
      var todo := broker.Keys;
      StartAndEnd(NotHeld(held, broker), todo);
      ImportStart(held, broker);
      while todo != {}
        invariant portfolio.Mirrored() && todo <= broker.Keys
        invariant ImportedBut(held, broker, todo, portfolio.positions)
        invariant imported == |NotHeld(held, broker) - todo|
      {
        var symbol :| symbol in todo;
        ImportStep(held, broker, todo, portfolio.positions, symbol);
        CountStep(NotHeld(held, broker), todo, symbol);
        if symbol !in held {
          portfolio.ImportPosition(symbol, WholeQty(broker[symbol]), broker[symbol].avgEntryPrice);
          imported := imported + 1;
        }
        todo := todo - {symbol};
      }
    }

    method CloseAbsent(held: Book, broker: AtBroker) returns (closed: nat)
      requires portfolio.Mirrored() && portfolio.positions.Keys == held.Keys + broker.Keys
      modifies portfolio`positions, portfolio.store`positions
      ensures portfolio.Mirrored()
      ensures ClosedBut(old(portfolio.positions), broker, {}, portfolio.positions)
      ensures closed == |NotAtBroker(held, broker)|
    {
      closed := 0;
      var todo := held.Keys;
      StartAndEnd(NotAtBroker(held, broker), todo);
      CloseStart(held, broker, portfolio.positions);
      while todo != {}
        invariant portfolio.Mirrored() && todo <= held.Keys
        invariant ClosedBut(old(portfolio.positions), broker, todo, portfolio.positions)
        invariant closed == |NotAtBroker(held, broker) - todo|
      {
        var symbol :| symbol in todo;
        CloseStep(old(portfolio.positions), broker, todo, portfolio.positions, symbol);
        CountStep(NotAtBroker(held, broker), todo, symbol);
        if symbol !in broker {
          portfolio.RemovePosition(symbol);
          closed := closed + 1;
        }
        todo := todo - {symbol};
      }
    }

    method UpdateDiffering(held: Book, broker: AtBroker) returns (updated: nat)
      requires portfolio.Mirrored() && portfolio.positions.Keys == broker.Keys
      requires forall s :: s in held && s in broker ==> portfolio.positions[s] == held[s]
      modifies portfolio`positions, portfolio.store`positions
      ensures portfolio.Mirrored()
      ensures UpdatedBut(held, old(portfolio.positions), broker, {}, portfolio.positions)
      ensures updated == |Differing(held, broker)|
    {
      updated := 0;
      var todo := broker.Keys * held.Keys;
      StartAndEnd(Differing(held, broker), todo);
      while todo != {}
        invariant portfolio.Mirrored() && todo <= broker.Keys * held.Keys
        invariant UpdatedBut(held, old(portfolio.positions), broker, todo, portfolio.positions)
        invariant updated == |Differing(held, broker) - todo|
      {
        var symbol :| symbol in todo;
        UpdateStep(held, old(portfolio.positions), broker, todo, portfolio.positions, symbol);
        CountStep(Differing(held, broker), todo, symbol);
        if Differs(held, broker, symbol) {
          portfolio.UpdatePositionQty(symbol, WholeQty(broker[symbol]));
          updated := updated + 1;
        }
        todo := todo - {symbol};
      }
    }
  }

  /** One pass converges: a second against the same broker finds nothing to do and leaves every position as it is. */
  lemma {:induction false} SecondPassIsQuiet(held: Book, broker: AtBroker, now: Book, again: Book)
    requires Reconciles(held, broker, now) && Reconciles(now, broker, again)
    ensures NotHeld(now, broker) == {} && NotAtBroker(now, broker) == {} && Differing(now, broker) == {}
    ensures again == now
  {
    forall s | s in broker ensures again[s] == now[s] {
      assert now[s].qty == WholeQty(broker[s]);
    }
  }

  /** A pass is quiet exactly when the positions were already the broker's. */
  lemma {:induction false} QuietIffInLine(held: Book, broker: AtBroker, now: Book)
    requires Reconciles(held, broker, now)
    ensures NotHeld(held, broker) == {} && NotAtBroker(held, broker) == {} && Differing(held, broker) == {}
            <==> now == held
  {
    if NotHeld(held, broker) == {} && NotAtBroker(held, broker) == {} && Differing(held, broker) == {} {
      assert held.Keys == broker.Keys;
      forall s | s in broker ensures now[s] == held[s] {
        assert s !in Differing(held, broker);
      }
    }
  }
}
