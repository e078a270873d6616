/**
 Realised profit and loss from fills, by first-in-first-out lot matching.

 `ComputeTradePnl` is the source's algorithm over queues of lots. The reference is share by share
 and has no queue: the k-th matched share sold of a symbol is paired with the k-th share bought.
 */
module TradePnl {
  import opened Common

  datatype Fill = Fill(symbol: string, strategy: string, day: int, side: string, qty: real, price: real)

  datatype Lot = Lot(qty: real, price: real)

  function Profit(entry: real, qty: real, price: real): real {
    (price - entry) * qty
  }

  datatype Record = Record(symbol: string, strategy: string, pnl: real, exitDay: int)

  // ----- Lot matching --------------------------------------------------------------------------

  /** What a sale leaves of the lots, and the profit on each match, oldest lot first. */
  function Match(lots: seq<Lot>, remaining: real, price: real): (seq<Lot>, seq<real>) {
    if remaining <= 0.0 || lots == [] then (lots, [])
    else
      var matched := Min(remaining, lots[0].qty);
      var pnl := Profit(lots[0].price, matched, price);
      if lots[0].qty - matched <= 0.0 then
        var (left, pnls) := Match(lots[1..], remaining - matched, price);
        (left, [pnl] + pnls)
      else
        ([Lot(lots[0].qty - matched, lots[0].price)] + lots[1..], [pnl])
  }

  datatype Books = Books(open: map<string, seq<Lot>>, records: seq<Record>)

  function LotsOf(open: map<string, seq<Lot>>, symbol: string): seq<Lot> {
    if symbol in open then open[symbol] else []
  }

  function RecordsFor(f: Fill, pnls: seq<real>): seq<Record> {
    seq(|pnls|, i requires 0 <= i < |pnls| => Record(f.symbol, f.strategy, pnls[i], f.day))
  }

  function Post(b: Books, f: Fill): Books {
    var lots := LotsOf(b.open, f.symbol);
    if f.side == "buy" then
      b.(open := b.open[f.symbol := lots + [Lot(f.qty, f.price)]])
    else if f.side == "sell" && lots != [] then
      var (left, pnls) := Match(lots, f.qty, f.price);
      Books(b.open[f.symbol := left], b.records + RecordsFor(f, pnls))
    else b
  }

  function PostAll(fills: seq<Fill>): Books {
    if fills == [] then Books(map[], []) else Post(PostAll(fills[..|fills| - 1]), fills[|fills| - 1])
  }

  /** The matching loop of one sale. */
  method MatchLots(oldLots: seq<Lot>, qty: real, price: real) returns (lots: seq<Lot>, pnls: seq<real>)
    ensures (lots, pnls) == Match(oldLots, qty, price)
  {
    var remaining := qty;
    lots, pnls := oldLots, [];
    while remaining > 0.0 && lots != []
      invariant Match(oldLots, qty, price).0 == Match(lots, remaining, price).0
      invariant Match(oldLots, qty, price).1 == pnls + Match(lots, remaining, price).1
      decreases |lots|, if remaining > 0.0 then 1 else 0
    {
      var entry := lots[0];
      var matched := Min(remaining, entry.qty);
      var pnl := Profit(entry.price, matched, price);
      assert forall rest: seq<real> :: pnls + ([pnl] + rest) == (pnls + [pnl]) + rest;
      pnls := pnls + [pnl];
      assert pnls + [] == pnls;
      remaining := remaining - matched;
      if entry.qty - matched <= 0.0 {
        lots := lots[1..];
      } else {
        lots := [Lot(entry.qty - matched, entry.price)] + lots[1..];
      }
    }
    assert pnls + [] == pnls;
  }

  method ComputeTradePnl(fills: seq<Fill>) returns (records: seq<Record>)
    ensures records == PostAll(fills).records
  {
    records := [];
    var open: map<string, seq<Lot>> := map[];
    for i := 0 to |fills|
      invariant Books(open, records) == PostAll(fills[..i])
    {
      assert fills[..i + 1][..i] == fills[..i];
      var f := fills[i];
      if f.side == "buy" {
        open := open[f.symbol := LotsOf(open, f.symbol) + [Lot(f.qty, f.price)]];
      } else if f.side == "sell" && LotsOf(open, f.symbol) != [] {
        var lots, pnls := MatchLots(open[f.symbol], f.qty, f.price);
        open := open[f.symbol := lots];
        records := records + RecordsFor(f, pnls);
      }
    }
    assert fills[..|fills|] == fills;
  }

  // ----- The share-level reference -------------------------------------------------------------

  predicate IsWhole(q: real) {
    q >= 0.0 && q == q.Floor as real
  }

  /** One symbol's shares: the price of each share bought, and of each share sold out of a holding, in order. */
  datatype Desk = Desk(bought: seq<real>, sold: seq<real>)

  function Repeat(price: real, n: nat): seq<real> {
    seq(n, _ => price)
  }

  /** A sale sells no more shares than are held; the rest is ignored. */
  function Trade(d: Desk, f: Fill): Desk
    requires IsWhole(f.qty) && |d.sold| <= |d.bought|
  {
    if f.side == "buy" then
      d.(bought := d.bought + Repeat(f.price, f.qty.Floor))
    else if f.side == "sell" then
      d.(sold := d.sold + Repeat(f.price, Least(f.qty.Floor, |d.bought| - |d.sold|)))
    else d
  }

  ghost predicate AllWhole(fills: seq<Fill>) {
    forall f :: f in fills ==> IsWhole(f.qty)
  }

  /** The shares of one symbol, from that symbol's fills only. */
  ghost function TradeAll(fills: seq<Fill>, symbol: string): (d: Desk)
    requires AllWhole(fills)
    ensures |d.sold| <= |d.bought|
  {
    if fills == [] then Desk([], [])
    else
      var before := TradeAll(fills[..|fills| - 1], symbol);
      if fills[|fills| - 1].symbol == symbol then Trade(before, fills[|fills| - 1]) else before
  }

  /** The profit of pairing the k-th share sold with the k-th share bought. */
  function Paired(bought: seq<real>, sold: seq<real>): real
    requires |sold| <= |bought|
  {
    if sold == [] then 0.0
    else Paired(bought, sold[..|sold| - 1]) + (sold[|sold| - 1] - bought[|sold| - 1])
  }

  // ----- Refinement ----------------------------------------------------------------------------

  ghost predicate WholeLots(lots: seq<Lot>) {
    forall i :: 0 <= i < |lots| ==> IsWhole(lots[i].qty)
  }

  function Shares(lots: seq<Lot>): seq<real>
    requires WholeLots(lots)
  {
    if lots == [] then [] else Repeat(lots[0].price, lots[0].qty.Floor) + Shares(lots[1..])
  }

  function Sum(xs: seq<real>): real {
    if xs == [] then 0.0 else xs[0] + Sum(xs[1..])
  }

  /** The profit of selling each of these shares at one price. */
  function Gain(shares: seq<real>, price: real): real {
    if shares == [] then 0.0 else (price - shares[0]) + Gain(shares[1..], price)
  }

  lemma {:induction false} GainOfRepeat(p: real, n: nat, price: real)
    ensures Gain(Repeat(p, n), price) == Profit(p, n as real, price)
  {
    if n > 0 {
      assert Repeat(p, n)[1..] == Repeat(p, n - 1);
      GainOfRepeat(p, n - 1, price);
      OneMoreShare(p, n, price);
    }
  }

  lemma OneMoreShare(entry: real, n: nat, price: real)
    requires n > 0
    ensures Profit(entry, n as real, price) == (price - entry) + Profit(entry, (n - 1) as real, price)
  {
    assert n as real == 1.0 + (n - 1) as real;
  }

  lemma {:induction false} GainAppend(a: seq<real>, b: seq<real>, price: real)
    ensures Gain(a + b, price) == Gain(a, price) + Gain(b, price)
  {
    if a == [] {
      assert a + b == b;
    } else {
      assert (a + b)[1..] == a[1..] + b;
      GainAppend(a[1..], b, price);
    }
  }

  /** What a sale of `n` shares at one price does to the shares held. */
  ghost predicate SellsOldest(shares: seq<real>, n: nat, price: real, left: seq<Lot>, pnls: seq<real>) {
    var k := Least(n, |shares|);
    WholeLots(left) && Shares(left) == shares[k..] && Sum(pnls) == Gain(shares[..k], price)
  }

  lemma {:induction false} SellPartOfLot(lot: Lot, rest: seq<Lot>, n: nat, price: real)
    requires IsWhole(lot.qty) && WholeLots(rest) && n < lot.qty.Floor
    ensures SellsOldest(Shares([lot] + rest), n, price,
                        [Lot(lot.qty - n as real, lot.price)] + rest, [Profit(lot.price, n as real, price)])
  {
    var q, tail := lot.qty.Floor, Shares(rest);
    var left := [Lot(lot.qty - n as real, lot.price)] + rest;
    assert left[1..] == rest && ([lot] + rest)[1..] == rest;
    assert (lot.qty - n as real).Floor == q - n;
    var shares := Repeat(lot.price, q) + tail;
    assert shares[..n] == Repeat(lot.price, n);
    assert shares[n..] == Repeat(lot.price, q - n) + tail;
    GainOfRepeat(lot.price, n, price);
  }

  lemma {:induction false} SellWholeLot(lot: Lot, rest: seq<Lot>, n: nat, price: real, left: seq<Lot>, pnls: seq<real>)
    requires IsWhole(lot.qty) && WholeLots(rest) && n >= lot.qty.Floor
    requires SellsOldest(Shares(rest), n - lot.qty.Floor, price, left, pnls)
    ensures SellsOldest(Shares([lot] + rest), n, price, left, [Profit(lot.price, lot.qty, price)] + pnls)
  {
    assert ([lot] + rest)[1..] == rest;
    var head, pnl := Repeat(lot.price, lot.qty.Floor), Profit(lot.price, lot.qty, price);
    assert Gain(head, price) == pnl by { GainOfRepeat(lot.price, lot.qty.Floor, price); }
    SellPrefix(head, Shares(rest), n, price, left, pnl, pnls);
  }

  lemma SlicesPastHead(head: seq<real>, tail: seq<real>, k: nat)
    requires k <= |tail|
    ensures (head + tail)[..|head| + k] == head + tail[..k]
    ensures (head + tail)[|head| + k..] == tail[k..]
  {
  }

  lemma {:induction false} SellPrefix(
    head: seq<real>, tail: seq<real>, n: nat, price: real, left: seq<Lot>, pnl: real, pnls: seq<real>)
    requires n >= |head| && Gain(head, price) == pnl
    requires SellsOldest(tail, n - |head|, price, left, pnls)
    ensures SellsOldest(head + tail, n, price, left, [pnl] + pnls)
  {
    var k := Least(n - |head|, |tail|);
    SlicesPastHead(head, tail, k);
    assert ([pnl] + pnls)[1..] == pnls;
    GainAppend(head, tail[..k], price);
  }

  lemma MatchHead(lot: Lot, rest: seq<Lot>, remaining: real, price: real)
    requires remaining > 0.0
    ensures lot.qty <= remaining ==>
              Match([lot] + rest, remaining, price) ==
              (Match(rest, remaining - lot.qty, price).0,
               [Profit(lot.price, lot.qty, price)] + Match(rest, remaining - lot.qty, price).1)
    ensures lot.qty > remaining ==>
              Match([lot] + rest, remaining, price) ==
              ([Lot(lot.qty - remaining, lot.price)] + rest, [Profit(lot.price, remaining, price)])
  {
    assert ([lot] + rest)[1..] == rest;
  }

  lemma WholeDifference(a: real, b: real)
    requires IsWhole(a) && IsWhole(b) && b <= a
    ensures IsWhole(a - b) && (a - b).Floor == a.Floor - b.Floor
  {
    assert a - b == (a.Floor - b.Floor) as real;
  }

  /** Matching lots sells the oldest shares, and its records add up to the gain on exactly those. */
  lemma {:induction false} MatchSellsOldestWhole(lots: seq<Lot>, remaining: real, price: real)
    requires WholeLots(lots) && IsWhole(remaining)
    ensures SellsOldest(Shares(lots), remaining.Floor, price,
                        Match(lots, remaining, price).0, Match(lots, remaining, price).1)
    decreases |lots|
  {
    if remaining > 0.0 && lots != [] {
      var lot, rest := lots[0], lots[1..];
      assert lots == [lot] + rest;
      MatchHead(lot, rest, remaining, price);
      if lot.qty <= remaining {
        WholeDifference(remaining, lot.qty);
        MatchSellsOldestWhole(rest, remaining - lot.qty, price);
        var (left, pnls) := Match(rest, remaining - lot.qty, price);
        SellWholeLot(lot, rest, remaining.Floor, price, left, pnls);
      } else {
        SellPartOfLot(lot, rest, remaining.Floor, price);
      }
    }
  }

  lemma {:induction false} PairedIgnoresLater(bought: seq<real>, more: seq<real>, sold: seq<real>)
    requires |sold| <= |bought|
    ensures Paired(bought + more, sold) == Paired(bought, sold)
  {
    if sold != [] {
      PairedIgnoresLater(bought, more, sold[..|sold| - 1]);
    }
  }

  lemma {:induction false} PairedSale(bought: seq<real>, sold: seq<real>, price: real, n: nat)
    requires |sold| + n <= |bought|
    ensures Paired(bought, sold + Repeat(price, n)) == Paired(bought, sold) + Gain(bought[|sold|..|sold| + n], price)
  {
    if n == 0 {
      assert sold + Repeat(price, 0) == sold;
    } else {
      PairedSale(bought, sold, price, n - 1);
      var m := |sold|;
      assert (sold + Repeat(price, n))[..m + n - 1] == sold + Repeat(price, n - 1);
      assert bought[m..m + n] == bought[m..m + n - 1] + [bought[m + n - 1]];
      GainAppend(bought[m..m + n - 1], [bought[m + n - 1]], price);
      assert Gain([bought[m + n - 1]], price) == price - bought[m + n - 1];
    }
  }

  lemma {:induction false} SharesAppend(lots: seq<Lot>, l: Lot)
    requires WholeLots(lots) && IsWhole(l.qty)
    ensures WholeLots(lots + [l]) && Shares(lots + [l]) == Shares(lots) + Repeat(l.price, l.qty.Floor)
  {
    if lots == [] {
      assert lots + [l] == [l] && Shares([l][1..]) == [];
    } else {
      assert (lots + [l])[1..] == lots[1..] + [l];
      SharesAppend(lots[1..], l);
    }
  }

  /** Total profit recorded for one symbol. */
  function Realised(records: seq<Record>, symbol: string): real {
    if records == [] then 0.0
    else Realised(records[..|records| - 1], symbol) +
         if records[|records| - 1].symbol == symbol then records[|records| - 1].pnl else 0.0
  }

  lemma {:induction false} RealisedAppend(records: seq<Record>, f: Fill, pnls: seq<real>, symbol: string)
    ensures Realised(records + RecordsFor(f, pnls), symbol)
         == Realised(records, symbol) + if f.symbol == symbol then Sum(pnls) else 0.0
    decreases |pnls|
  {
    if pnls == [] {
      assert records + RecordsFor(f, pnls) == records;
    } else {
      var first := Record(f.symbol, f.strategy, pnls[0], f.day);
      assert records + RecordsFor(f, pnls) == (records + [first]) + RecordsFor(f, pnls[1..]);
      RealisedAppend(records + [first], f, pnls[1..], symbol);
      assert (records + [first])[..|records|] == records;
    }
  }

  /**
   For whole non-negative quantities, the profit recorded for a symbol is that of pairing its k-th
   share sold with its k-th share bought, the open lots are the shares bought and not yet paired,
   and fills of other symbols have no part in either.
   */
  lemma {:induction false} WholeLotsRefineShares(fills: seq<Fill>, symbol: string)
    requires AllWhole(fills)
    ensures Agree(PostAll(fills), TradeAll(fills, symbol), symbol)
  {
    if fills != [] {
      var init, f := fills[..|fills| - 1], fills[|fills| - 1];
      assert f in fills;
      assert forall g :: g in init ==> g in fills;
      WholeLotsRefineShares(init, symbol);
      PostRefines(PostAll(init), TradeAll(init, symbol), f, symbol);
    }
  }

  ghost predicate Agree(b: Books, d: Desk, symbol: string) {
    && |d.sold| <= |d.bought|
    && WholeLots(LotsOf(b.open, symbol))
    && Shares(LotsOf(b.open, symbol)) == d.bought[|d.sold|..]
    && Realised(b.records, symbol) == Paired(d.bought, d.sold)
  }

  lemma {:induction false} PostRefines(b: Books, d: Desk, f: Fill, symbol: string)
    requires IsWhole(f.qty) && Agree(b, d, symbol)
    ensures Agree(Post(b, f), if f.symbol == symbol then Trade(d, f) else d, symbol)
  {
    if f.symbol != symbol {
      RealisedAppend(b.records, f, Match(LotsOf(b.open, f.symbol), f.qty, f.price).1, symbol);
    } else if f.side == "buy" {
      PostBuyRefines(b, d, f);
    } else if f.side == "sell" {
      PostSellRefines(b, d, f);
    }
  }

  lemma {:induction false} PostBuyRefines(b: Books, d: Desk, f: Fill)
    requires IsWhole(f.qty) && Agree(b, d, f.symbol) && f.side == "buy"
    ensures Agree(Post(b, f), Trade(d, f), f.symbol)
  {
    var more := Repeat(f.price, f.qty.Floor);
    SharesAppend(LotsOf(b.open, f.symbol), Lot(f.qty, f.price));
    PairedIgnoresLater(d.bought, more, d.sold);
    assert (d.bought + more)[|d.sold|..] == d.bought[|d.sold|..] + more;
  }

  lemma {:induction false} PostSellRefines(b: Books, d: Desk, f: Fill)
    requires IsWhole(f.qty) && Agree(b, d, f.symbol) && f.side == "sell"
    ensures Agree(Post(b, f), Trade(d, f), f.symbol)
  {
    var lots := LotsOf(b.open, f.symbol);
    var (left, pnls) := Match(lots, f.qty, f.price);
    RealisedAppend(b.records, f, pnls, f.symbol);
    MatchSellsOldestWhole(lots, f.qty, f.price);
    TradeSells(d, f, left, pnls);
    if lots == [] {
      assert Trade(d, f) == d;
    }
  }

  lemma {:induction false} TradeSells(d: Desk, f: Fill, left: seq<Lot>, pnls: seq<real>)
    requires IsWhole(f.qty) && |d.sold| <= |d.bought| && f.side == "sell"
    requires SellsOldest(d.bought[|d.sold|..], f.qty.Floor, f.price, left, pnls)
    ensures var d' := Trade(d, f);
            && Shares(left) == d'.bought[|d'.sold|..]
            && Paired(d'.bought, d'.sold) == Paired(d.bought, d.sold) + Sum(pnls)
  {
    PairedOldest(d.bought, d.sold, f.qty.Floor, f.price, left, pnls);
  }

  lemma {:induction false} PairedOldest(
    bought: seq<real>, sold: seq<real>, n: nat, price: real, left: seq<Lot>, pnls: seq<real>)
    requires |sold| <= |bought| && SellsOldest(bought[|sold|..], n, price, left, pnls)
    ensures var more := sold + Repeat(price, Least(n, |bought| - |sold|));
            && Shares(left) == bought[|more|..]
            && Paired(bought, more) == Paired(bought, sold) + Sum(pnls)
  {
    var k := Least(n, |bought| - |sold|);
    PairedSale(bought, sold, price, k);
    SliceOfSlice(bought, |sold|, k);
  }

  lemma SliceOfSlice(s: seq<real>, m: nat, k: nat)
    requires m + k <= |s|
    ensures s[m..][..k] == s[m..m + k] && s[m..][k..] == s[m + k..]
  {
  }

  // ----- Fractions of a share ------------------------------------------------------------------

  /** All quantities multiplied by `unit`. */
  function LotsTimes(lots: seq<Lot>, unit: real): (r: seq<Lot>)
    ensures |r| == |lots|
  {
    if lots == [] then [] else [Lot(Part(lots[0].qty, unit), lots[0].price)] + LotsTimes(lots[1..], unit)
  }

  function PnlsTimes(pnls: seq<real>, unit: real): (r: seq<real>)
    ensures |r| == |pnls| && forall i :: 0 <= i < |pnls| ==> r[i] == Part(pnls[i], unit)
  {
    if pnls == [] then [] else [Part(pnls[0], unit)] + PnlsTimes(pnls[1..], unit)
  }

  lemma UnitsKeepOrder(a: real, b: real, unit: real)
    requires unit > 0.0
    ensures Part(a, unit) <= Part(b, unit) <==> a <= b
    ensures Part(a, unit) - Part(b, unit) == Part(a - b, unit)
    ensures Min(Part(a, unit), Part(b, unit)) == Part(Min(a, b), unit)
  {
    if a <= b {
      ScaleBy(a, b, unit);
    } else {
      ScaleBy(b, a, unit);
    }
  }

  lemma ProfitInUnits(entry: real, qty: real, price: real, unit: real)
    ensures Profit(entry, Part(qty, unit), price) == Part(Profit(entry, qty, price), unit)
  {
  }

  lemma LastLotInUnits(lot: Lot, rest: seq<Lot>, remaining: real, price: real, unit: real)
    requires unit > 0.0 && remaining > 0.0 && lot.qty > remaining
    ensures Match(LotsTimes([lot] + rest, unit), Part(remaining, unit), price)
         == (LotsTimes([Lot(lot.qty - remaining, lot.price)] + rest, unit),
             PnlsTimes([Profit(lot.price, remaining, price)], unit))
  {
    UnitsKeepOrder(remaining, 0.0, unit);
    UnitsKeepOrder(lot.qty, remaining, unit);
    ProfitInUnits(lot.price, remaining, price, unit);
    assert PnlsTimes([Profit(lot.price, remaining, price)], unit) == [Part(Profit(lot.price, remaining, price), unit)];
    MatchHead(Lot(Part(lot.qty, unit), lot.price), LotsTimes(rest, unit), Part(remaining, unit), price);
  }

  lemma FirstLotInUnits(lot: Lot, rest: seq<Lot>, remaining: real, price: real, unit: real)
    requires unit > 0.0 && remaining > 0.0 && lot.qty <= remaining
    ensures var (left, pnls) := Match(LotsTimes(rest, unit), Part(remaining - lot.qty, unit), price);
            Match(LotsTimes([lot] + rest, unit), Part(remaining, unit), price) ==
            (left, [Part(Profit(lot.price, lot.qty, price), unit)] + pnls)
  {
    UnitsKeepOrder(remaining, 0.0, unit);
    UnitsKeepOrder(lot.qty, remaining, unit);
    UnitsKeepOrder(remaining, lot.qty, unit);
    ProfitInUnits(lot.price, lot.qty, price, unit);
    MatchHead(Lot(Part(lot.qty, unit), lot.price), LotsTimes(rest, unit), Part(remaining, unit), price);
  }

  /** Matching does not depend on the unit that quantities are counted in. */
  lemma {:induction false} MatchInUnits(lots: seq<Lot>, remaining: real, price: real, unit: real)
    requires unit > 0.0
    ensures Match(LotsTimes(lots, unit), Part(remaining, unit), price)
         == (LotsTimes(Match(lots, remaining, price).0, unit), PnlsTimes(Match(lots, remaining, price).1, unit))
    decreases |lots|
  {
    UnitsKeepOrder(remaining, 0.0, unit);
    if remaining > 0.0 && lots != [] {
      var lot, rest := lots[0], lots[1..];
      assert lots == [lot] + rest;
      MatchHead(lot, rest, remaining, price);
      if lot.qty <= remaining {
        FirstLotInUnits(lot, rest, remaining, price, unit);
        MatchInUnits(rest, remaining - lot.qty, price, unit);
      } else {
        LastLotInUnits(lot, rest, remaining, price, unit);
      }
    }
  }

  type Filed = map<string, seq<Lot>>

  /** `open` files the lots of `whole` with all quantities multiplied by `unit`. */
  ghost predicate FiledAlike(open: Filed, whole: Filed, unit: real) {
    forall symbol :: LotsOf(open, symbol) == LotsTimes(LotsOf(whole, symbol), unit)
  }

  /** `b` is `w` with all quantities multiplied by `unit`. */
  ghost predicate InUnits(b: Books, w: Books, unit: real) {
    && |b.records| == |w.records|
    && (forall i :: 0 <= i < |b.records| ==> b.records[i] == w.records[i].(pnl := Part(w.records[i].pnl, unit)))
    && FiledAlike(b.open, w.open, unit)
  }

  lemma {:induction false} LotsTimesSnoc(lots: seq<Lot>, l: Lot, unit: real)
    ensures LotsTimes(lots + [l], unit) == LotsTimes(lots, unit) + [Lot(Part(l.qty, unit), l.price)]
  {
    if lots != [] {
      assert (lots + [l])[1..] == lots[1..] + [l];
      LotsTimesSnoc(lots[1..], l, unit);
    }
  }

  lemma {:induction false} PostInUnits(b: Books, w: Books, f: Fill, g: Fill, unit: real)
    requires unit > 0.0 && InUnits(b, w, unit) && f == g.(qty := Part(g.qty, unit))
    ensures InUnits(Post(b, f), Post(w, g), unit)
  {
    assert LotsOf(b.open, g.symbol) == LotsTimes(LotsOf(w.open, g.symbol), unit);
    if g.side == "buy" {
      LotsTimesSnoc(LotsOf(w.open, g.symbol), Lot(g.qty, g.price), unit);
      FiledInUnits(b.open, w.open, g.symbol, LotsOf(b.open, g.symbol) + [Lot(f.qty, f.price)],
                   LotsOf(w.open, g.symbol) + [Lot(g.qty, g.price)], unit);
    } else if g.side == "sell" {
      MatchInUnits(LotsOf(w.open, g.symbol), g.qty, g.price, unit);
      FiledInUnits(b.open, w.open, g.symbol, Match(LotsOf(b.open, g.symbol), f.qty, f.price).0,
                   Match(LotsOf(w.open, g.symbol), g.qty, g.price).0, unit);
    }
  }

  lemma FiledInUnits(open: Filed, whole: Filed, symbol: string, lots: seq<Lot>, left: seq<Lot>, unit: real)
    requires lots == LotsTimes(left, unit) && FiledAlike(open, whole, unit)
    ensures FiledAlike(open[symbol := lots], whole[symbol := left], unit)
  {
    var filed, others := open[symbol := lots], whole[symbol := left];
    forall s ensures LotsOf(filed, s) == LotsTimes(LotsOf(others, s), unit) {
      assert LotsOf(open, s) == LotsTimes(LotsOf(whole, s), unit);
    }
  }

  /** The fills with their quantities counted in units. */
  function Counted(fills: seq<Fill>, unit: real): (r: seq<Fill>)
    requires unit > 0.0
    ensures |r| == |fills| && forall i :: 0 <= i < |fills| ==> r[i] == fills[i].(qty := fills[i].qty / unit)
  {
    seq(|fills|, i requires 0 <= i < |fills| => fills[i].(qty := fills[i].qty / unit))
  }

  lemma {:induction false} PostAllInUnits(fills: seq<Fill>, unit: real)
    requires unit > 0.0
    ensures InUnits(PostAll(fills), PostAll(Counted(fills, unit)), unit)
  {
    if fills != [] {
      var k := |fills| - 1;
      PostAllInUnits(fills[..k], unit);
      assert Counted(fills, unit)[..k] == Counted(fills[..k], unit);
      assert Part(fills[k].qty / unit, unit) == fills[k].qty;
      PostInUnits(PostAll(fills[..k]), PostAll(Counted(fills[..k], unit)), fills[k], Counted(fills, unit)[k], unit);
    }
  }

  lemma {:induction false} RealisedInUnits(records: seq<Record>, whole: seq<Record>, symbol: string, unit: real)
    requires |records| == |whole|
    requires forall i :: 0 <= i < |records| ==> records[i] == whole[i].(pnl := Part(whole[i].pnl, unit))
    ensures Realised(records, symbol) == Part(Realised(whole, symbol), unit)
  {
    if records != [] {
      var k := |records| - 1;
      RealisedInUnits(records[..k], whole[..k], symbol, unit);
    }
  }

  /** The fills are multiples of one unit, as any finitely many floating-point quantities are. */
  ghost predicate Commensurable(fills: seq<Fill>, unit: real) {
    unit > 0.0 && AllWhole(Counted(fills, unit))
  }

  /**
   With the unit for a share: the profit recorded for a symbol is that of pairing its k-th share sold
   with its k-th share bought, the open lots are the shares bought and not yet paired, and fills of
   other symbols have no part in either.
   */
  lemma {:induction false} LotsRefineShares(fills: seq<Fill>, unit: real, symbol: string) returns (lots: seq<Lot>)
    requires Commensurable(fills, unit)
    ensures var d := TradeAll(Counted(fills, unit), symbol);
            && Realised(PostAll(fills).records, symbol) == Part(Paired(d.bought, d.sold), unit)
            && LotsOf(PostAll(fills).open, symbol) == LotsTimes(lots, unit)
            && WholeLots(lots) && Shares(lots) == d.bought[|d.sold|..]
  {
    var whole := Counted(fills, unit);
    WholeLotsRefineShares(whole, symbol);
    PostAllInUnits(fills, unit);
    RealisedInUnits(PostAll(fills).records, PostAll(whole).records, symbol, unit);
    lots := LotsOf(PostAll(whole).open, symbol);
  }

  /** One sale consumes the oldest shares, counted in units, and realises exactly their gain. */
  lemma {:induction false} MatchSellsOldest(whole: seq<Lot>, n: nat, price: real, unit: real) returns (rest: seq<Lot>)
    requires unit > 0.0 && WholeLots(whole)
    ensures var (left, pnls) := Match(LotsTimes(whole, unit), Part(n as real, unit), price);
            var k := Least(n, |Shares(whole)|);
            && left == LotsTimes(rest, unit) && WholeLots(rest) && Shares(rest) == Shares(whole)[k..]
            && Sum(pnls) == Part(Gain(Shares(whole)[..k], price), unit)
  {
    MatchSellsOldestWhole(whole, n as real, price);
    MatchInUnits(whole, n as real, price, unit);
    rest := Match(whole, n as real, price).0;
    SumInUnits(Match(whole, n as real, price).1, unit);
  }

  lemma {:induction false} SumInUnits(pnls: seq<real>, unit: real)
    ensures Sum(PnlsTimes(pnls, unit)) == Part(Sum(pnls), unit)
  {
    if pnls != [] {
      SumInUnits(pnls[1..], unit);
      assert PnlsTimes(pnls, unit)[1..] == PnlsTimes(pnls[1..], unit);
    }
  }

  /** Every share bought is either paired with a share sold or still open. */
  lemma {:induction false} SharesConserved(fills: seq<Fill>, unit: real, symbol: string) returns (lots: seq<Lot>)
    requires Commensurable(fills, unit)
    ensures WholeLots(lots) && LotsOf(PostAll(fills).open, symbol) == LotsTimes(lots, unit)
    ensures var d := TradeAll(Counted(fills, unit), symbol); |d.bought| == |d.sold| + |Shares(lots)|
  {
    lots := LotsRefineShares(fills, unit, symbol);
  }

  /**
   Records come from sales alone: each carries the symbol, the strategy and the day of the sale that made it, a
   sale adds to those before it, and its new records add up to what it earned on the symbol.
   */
  lemma {:induction false} SalesMakeRecords(fills: seq<Fill>, f: Fill)
    ensures var before, after := PostAll(fills).records, PostAll(fills + [f]).records;
            && before <= after
            && (f.side != "sell" ==> after == before)
            && (forall i :: |before| <= i < |after| ==>
                after[i].symbol == f.symbol && after[i].strategy == f.strategy && after[i].exitDay == f.day)
            && Realised(after, f.symbol) == Realised(before, f.symbol) + Earned(after[|before|..])
  {
    assert (fills + [f])[..|fills|] == fills;
    var before, after := PostAll(fills).records, PostAll(fills + [f]).records;
    var pnls := Match(LotsOf(PostAll(fills).open, f.symbol), f.qty, f.price).1;
    if after != before {
      RealisedAppend(before, f, pnls, f.symbol);
      assert after[|before|..] == RecordsFor(f, pnls);
      EarnedIsSum(f, pnls);
    } else {
      assert after[|before|..] == [];
    }
  }

  function Earned(records: seq<Record>): real {
    if records == [] then 0.0 else records[0].pnl + Earned(records[1..])
  }

  lemma {:induction false} EarnedIsSum(f: Fill, pnls: seq<real>)
    ensures Earned(RecordsFor(f, pnls)) == Sum(pnls)
  {
    if pnls != [] {
      assert RecordsFor(f, pnls)[1..] == RecordsFor(f, pnls[1..]);
      EarnedIsSum(f, pnls[1..]);
    }
  }
}
