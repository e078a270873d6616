/** Fill simulation for one bar: probabilistic fills under a capacity limit. */
module FillSimulation {
  import opened Common

  datatype FillStatus = FULL | PARTIAL | NO_FILL

  datatype FillResult = FillResult(status: FillStatus, filledQty: int, remainingQty: int, fillPrice: real)

  datatype FillConfig = FillConfig(
    maxAdvFillPct: real,
    maxBarVolFillPct: real,
    partialFillProb: real,
    marketableFillProb: real)

  function AtLeastOne(x: int): int {
    if x >= 1 then x else 1
  }

  function Smaller(a: int, b: int): int {
    if a <= b then a else b
  }

  function MaxFillable(c: FillConfig, advShares: real, barVolume: real): int {
    Smaller(AtLeastOne(Trunc(advShares * c.maxAdvFillPct)), AtLeastOne(Trunc(barVolume * c.maxBarVolFillPct)))
  }

  /** Between half the capacity and all of it. */
  function PartOf(capacity: int, u: real): int {
    Trunc(Part(capacity as real, 0.5 + 0.5 * u))
  }

  function PartialSize(capacity: int, u: real, qty: int): int {
    AtLeastOne(Smaller(PartOf(capacity, u), qty))
  }

  datatype Order = Order(qty: int, price: real, advShares: real, barVolume: real, isMarketable: bool)

  /** The uniform random numbers that a seeded generator hands out one after the other. */
  ghost predicate UnitDraws(draws: nat -> real) {
    forall i: nat :: 0.0 <= draws(i) < 1.0
  }

  function NoFill(o: Order): FillResult {
    FillResult(NO_FILL, 0, if o.qty >= 0 then o.qty else 0, o.price)
  }

  function Filled(o: Order, filled: int): FillResult {
    FillResult(if filled == o.qty then FULL else PARTIAL, filled, o.qty - filled, o.price)
  }

  /** A fill that goes through, of which `part` is executed if it is cut short at random. */
  function Executed(o: Order, capacity: int, cut: bool, part: int): FillResult {
    if o.qty <= capacity then Filled(o.(qty := if o.qty >= 0 then o.qty else 0), if o.qty >= 0 then o.qty else 0)
    else if cut then FillResult(PARTIAL, part, o.qty - part, o.price)
    else Filled(o, capacity)
  }

  /** The outcome of an order, and how many draws it took; the first draw is the latency's. */
  function Outcome(c: FillConfig, draws: nat -> real, at: nat, o: Order): (FillResult, nat) {
    var base := if o.isMarketable then at + 1 else at + 2;
    var capacity := MaxFillable(c, o.advShares, o.barVolume);
    if !o.isMarketable && draws(at + 1) > 0.70 then (NoFill(o), 2)
    else if draws(base) > c.marketableFillProb then (NoFill(o), base + 1 - at)
    else
      var cut := draws(base + 1) < c.partialFillProb;
      (Executed(o, capacity, cut, PartialSize(capacity, draws(base + 2), o.qty)),
       base - at + if o.qty <= capacity then 1 else if cut then 3 else 2)
  }

  class FillSimulator {
    const config: FillConfig
    const draws: nat -> real
    var cursor: nat

    constructor (config: FillConfig, draws: nat -> real)
      ensures this.config == config && this.draws == draws && cursor == 0
    {
      this.config, this.draws, cursor := config, draws, 0;
    }

    method Random() returns (u: real)
      modifies this
      ensures u == draws(old(cursor)) && cursor == old(cursor) + 1
    {
      u := draws(cursor);
      cursor := cursor + 1;
    }

    method SimulateFill(orderQty: int, price: real, advShares: real, barVolume: real, isMarketable: bool)
      returns (r: FillResult)
      modifies this
      ensures var (outcome, used) := Outcome(config, draws, old(cursor),
                                             Order(orderQty, price, advShares, barVolume, isMarketable));
              r == outcome && cursor == old(cursor) + used
    {
      var latencyDraw := Random();
      var qty := if orderQty >= 0 then orderQty else 0;
      if !isMarketable {
        var passive := Random();
        if passive > 0.70 {
          return FillResult(NO_FILL, 0, qty, price);
        }
      }
      var fillDraw := Random();
      if fillDraw > config.marketableFillProb {
        return FillResult(NO_FILL, 0, qty, price);
      }
      var capacity := MaxFillable(config, advShares, barVolume);
      if qty <= capacity {
        return FillResult(FULL, qty, 0, price);
      }
      var partialDraw := Random();
      if partialDraw < config.partialFillProb {
        var fraction := Random();
        var filled := PartialSize(capacity, fraction, qty);
        return FillResult(PARTIAL, filled, qty - filled, price);
      }
      var filled := Smaller(capacity, qty);
      r := FillResult(if filled == qty then FULL else PARTIAL, filled, qty - filled, price);
    }
  }

  lemma CapacityPositive(c: FillConfig, advShares: real, barVolume: real)
    ensures MaxFillable(c, advShares, barVolume) >= 1
  {
  }

  lemma HalfToAll(whole: real, fraction: real)
    requires whole >= 0.0 && 0.5 <= fraction <= 1.0
    ensures Part(whole, 0.5) <= Part(whole, fraction) <= whole
  {
    ScaleUp(whole, 0.5, fraction);
    ScaleUp(whole, fraction, 1.0);
  }

  lemma PartOfCapacity(capacity: int, u: real)
    requires capacity >= 1 && 0.0 <= u < 1.0
    ensures capacity / 2 <= PartOf(capacity, u) <= capacity
  {
    HalfToAll(capacity as real, 0.5 + 0.5 * u);
    assert (capacity / 2) as real <= Part(capacity as real, 0.5);
    TruncBetween(capacity / 2, Part(capacity as real, 0.5 + 0.5 * u), capacity);
  }

  /** What every fill result says about its order. */
  predicate Conserving(r: FillResult, o: Order, capacity: int) {
    && r.filledQty + r.remainingQty == o.qty
    && 0 <= r.filledQty <= o.qty && r.filledQty <= capacity
    && r.fillPrice == o.price
    && (r.status == NO_FILL ==> r.filledQty == 0)
    && (r.status == FULL <==> r.status != NO_FILL && r.remainingQty == 0)
    && (r.status == PARTIAL ==> r.filledQty >= 1 && r.filledQty >= capacity / 2)
  }

  lemma PartialSizeBounds(capacity: int, u: real, qty: int)
    requires qty > capacity >= 1 && 0.0 <= u < 1.0
    ensures 1 <= PartialSize(capacity, u, qty) <= capacity && PartialSize(capacity, u, qty) >= capacity / 2
  {
    PartOfCapacity(capacity, u);
  }

  /**
   Whatever is drawn: filled and remaining shares add up to the order, nothing is filled beyond the
   capacity, an order is full exactly when nothing remains of it, and a fill at all gets at least
   one share and half the capacity, or the whole order.
   */
  lemma {:induction false} FillConservesShares(c: FillConfig, draws: nat -> real, at: nat, o: Order)
    requires UnitDraws(draws) && o.qty >= 0
    ensures Conserving(Outcome(c, draws, at, o).0, o, MaxFillable(c, o.advShares, o.barVolume))
    ensures 2 <= Outcome(c, draws, at, o).1 <= 5
  {
    var base := if o.isMarketable then at + 1 else at + 2;
    var capacity := MaxFillable(c, o.advShares, o.barVolume);
    CapacityPositive(c, o.advShares, o.barVolume);
    if o.qty > capacity {
      PartialSizeBounds(capacity, draws(base + 2), o.qty);
    }
  }

  /** The capacity is the largest number of shares within both limits, or one. */
  lemma {:induction false} CapacityIsLargest(c: FillConfig, advShares: real, barVolume: real)
    ensures var n := MaxFillable(c, advShares, barVolume);
            && n >= 1
            && (n == 1 || (n as real <= advShares * c.maxAdvFillPct && n as real <= barVolume * c.maxBarVolFillPct))
            && (advShares * c.maxAdvFillPct < (n + 1) as real || barVolume * c.maxBarVolFillPct < (n + 1) as real)
  {
    OneOrFloor(advShares * c.maxAdvFillPct);
    OneOrFloor(barVolume * c.maxBarVolFillPct);
  }

  lemma OneOrFloor(x: real)
    ensures AtLeastOne(Trunc(x)) == 1 || AtLeastOne(Trunc(x)) as real <= x
    ensures x < (AtLeastOne(Trunc(x)) + 1) as real
  {
  }

  /** The draw that decides whether there is a fill at all; a passive order must pass one before it. */
  function FillDraw(at: nat, o: Order): nat {
    if o.isMarketable then at + 1 else at + 2
  }

  predicate Misses(c: FillConfig, draws: nat -> real, at: nat, o: Order) {
    (!o.isMarketable && draws(at + 1) > 0.70) || draws(FillDraw(at, o)) > c.marketableFillProb
  }

  /** The whole shares of a part `u` of the way from half the capacity to all of it; at least one. */
  predicate IsCut(capacity: int, u: real, filled: int) {
    && filled >= 1
    && (filled == 1 || filled as real <= Part(capacity as real, 0.5 + 0.5 * u))
    && Part(capacity as real, 0.5 + 0.5 * u) < (filled + 1) as real
  }

  /**
   The draws decide: nothing is filled exactly on a miss; otherwise an order within the capacity is filled
   whole, and a larger one up to the capacity or, if the next draw says so, cut to a part of it.
   */
  lemma {:induction false} DrawsDecide(c: FillConfig, draws: nat -> real, at: nat, o: Order)
    requires UnitDraws(draws) && o.qty >= 0
    ensures var (r, used) := Outcome(c, draws, at, o);
            var capacity, k := MaxFillable(c, o.advShares, o.barVolume), FillDraw(at, o);
            && (r.status == NO_FILL <==> Misses(c, draws, at, o))
            && (!Misses(c, draws, at, o) ==>
                && (o.qty <= capacity ==> r.filledQty == o.qty && at + used == k + 1)
                && (o.qty > capacity && draws(k + 1) >= c.partialFillProb ==>
                    r.filledQty == capacity && at + used == k + 2)
                && (o.qty > capacity && draws(k + 1) < c.partialFillProb ==>
                    IsCut(capacity, draws(k + 2), r.filledQty) && at + used == k + 3))
  {
    CapacityPositive(c, o.advShares, o.barVolume);
    var capacity, k := MaxFillable(c, o.advShares, o.barVolume), FillDraw(at, o);
    if o.qty > capacity {
      CutIsFloor(capacity, draws(k + 2), o.qty);
    }
  }

  lemma CutIsFloor(capacity: int, u: real, qty: int)
    requires qty > capacity >= 1 && 0.0 <= u < 1.0
    ensures IsCut(capacity, u, PartialSize(capacity, u, qty))
  {
    PartOfCapacity(capacity, u);
    OneOrFloor(Part(capacity as real, 0.5 + 0.5 * u));
  }
}
