/** Share counts: the flat sizing formula, the five-step pipeline that replaces it, and when the two agree. */
module Sizing {
  import opened Common

  const HARD_STOP_FLOOR := 0.005

  datatype RiskConfig = RiskConfig(maxRisk: real, maxPositionPct: real, maxOpenRisk: real, stopFloor: real)

  datatype Context = Context(portfolioValue: real, openRisk: real, realizedVol: real, advDollars: real)

  /** A missing stop and a zero stop both fall through to the default. */
  function StopOr(stop: Option<real>, default: real): real {
    if stop.Some? && stop.value != 0.0 then stop.value else default
  }

  // ----- The flat formula ----------------------------------------------------------------------

  /** The stop that the flat formula sizes with. */
  function StopUsed(stop: Option<real>, cfg: RiskConfig): real {
    Max(StopOr(stop, cfg.stopFloor), HARD_STOP_FLOOR)
  }

  function CalculatePositionSize(stop: Option<real>, value: real, openRisk: real, cfg: RiskConfig, price: real): nat {
    if value <= 0.0 || price <= 0.0 then 0
    else if cfg.maxOpenRisk - openRisk <= 0.0 then 0
    else WholeShares(FlatDollars(stop, value, openRisk, cfg), price)
  }

  function FlatDollars(stop: Option<real>, value: real, openRisk: real, cfg: RiskConfig): real {
    var used := StopUsed(stop, cfg);
    var position := Min(Part(value, cfg.maxRisk) / used, Part(value, cfg.maxPositionPct));
    Scaled(position, used, Part(value, cfg.maxOpenRisk - openRisk))
  }

  function Cost(n: nat, price: real): real {
    (n as real) * price
  }

  function Scaled(position: real, used: real, allowed: real): real
    requires used > 0.0
  {
    if position * used > allowed then allowed / used else position
  }

  function WholeShares(dollars: real, price: real): nat
    requires price > 0.0
  {
    var shares := (dollars / price).Floor;
    if shares <= 0 then 0 else shares
  }

  lemma Multiply(a: real, b: real, c: real)
    requires c > 0.0
    ensures a * c <= b * c <==> a <= b
    ensures a * c < b * c <==> a < b
  {
  }

  lemma AtMostQuotient(x: real, a: real, b: real)
    requires b > 0.0
    ensures x <= a / b <==> x * b <= a
  {
    Multiply(x, a / b, b);
  }

  lemma WholeSharesAreMost(dollars: real, price: real, n: nat)
    requires price > 0.0 && n > 0
    ensures n <= WholeShares(dollars, price) <==> (n as real) * price <= dollars
  {
    AtMostQuotient(n as real, dollars, price);
  }

  predicate RisksAtMost(cost: real, used: real, budget: real) {
    cost * used <= budget
  }

  /** A purchase that costs no more than the cap and risks no more than either budget. */
  predicate Fits(cost: real, used: real, cap: real, budget: real, allowed: real) {
    cost <= cap && RisksAtMost(cost, used, budget) && RisksAtMost(cost, used, allowed)
  }

  /** Buying `n` shares keeps within the cap, the risk per trade and what is left of the global risk budget. */
  predicate Affordable(n: nat, stop: Option<real>, value: real, openRisk: real, cfg: RiskConfig, price: real) {
    Fits(Cost(n, price), StopUsed(stop, cfg), Part(value, cfg.maxPositionPct), Part(value, cfg.maxRisk),
         Part(value, cfg.maxOpenRisk - openRisk))
  }

  lemma ScaledWithin(cost: real, position: real, used: real, allowed: real)
    requires used > 0.0
    ensures cost <= Scaled(position, used, allowed) <==> cost <= position && RisksAtMost(cost, used, allowed)
  {
    AtMostQuotient(cost, allowed, used);
    AtMostQuotient(position, allowed, used);
    Multiply(cost, position, used);
  }

  lemma SharesWithin(n: nat, price: real, used: real, budget: real, cap: real, allowed: real)
    requires n > 0 && price > 0.0 && used > 0.0
    ensures n <= WholeShares(Scaled(Min(budget / used, cap), used, allowed), price)
            <==> Fits(Cost(n, price), used, cap, budget, allowed)
  {
    WholeSharesAreMost(Scaled(Min(budget / used, cap), used, allowed), price, n);
  }

  lemma NothingAllowed(n: nat, price: real, used: real, budget: real, cap: real, remaining: real, value: real)
    requires n > 0 && price > 0.0 && used > 0.0 && value > 0.0 && remaining <= 0.0
    ensures !Fits(Cost(n, price), used, cap, budget, Part(value, remaining))
  {
    Multiply(0.0, n as real, price);
    Multiply(0.0, (n as real) * price, used);
    Multiply(remaining, 0.0, value);
  }

  /** The formula returns the largest affordable number of shares. */
  lemma {:induction false} SizeIsLargestAffordable(
    stop: Option<real>, value: real, openRisk: real, cfg: RiskConfig, price: real, n: nat)
    requires value > 0.0 && price > 0.0 && n > 0
    ensures n <= CalculatePositionSize(stop, value, openRisk, cfg, price)
            <==> Affordable(n, stop, value, openRisk, cfg, price)
  {
    var used, remaining := StopUsed(stop, cfg), cfg.maxOpenRisk - openRisk;
    var budget, cap := Part(value, cfg.maxRisk), Part(value, cfg.maxPositionPct);
    if remaining <= 0.0 {
      NothingAllowed(n, price, used, budget, cap, remaining, value);
    } else {
      SharesWithin(n, price, used, budget, cap, Part(value, remaining));
    }
  }

  // ----- The pipeline --------------------------------------------------------------------------

  datatype Step =
    | FixedFractional(maxRisk: real, maxPositionPct: real, floor: real)
    | VolScale(targetVol: real, minScale: real, maxScale: real)
    | LiquidityCap(advFraction: real)
    | GlobalRiskBudget(maxOpenRisk: real)
    | HardCap(capPct: real)
  {
    /** The adjusted dollar size; nothing when the step divides by zero. */
    function Apply(size: real, stop: Option<real>, ctx: Context): Option<real> {
      match this
      case FixedFractional(maxRisk, maxPositionPct, floor) =>
        if ctx.portfolioValue <= 0.0 then Some(0.0)
        else if BaseStop(stop, floor) == 0.0 then None
        else Some(Min(Part(ctx.portfolioValue, maxRisk) / BaseStop(stop, floor),
                      Part(ctx.portfolioValue, maxPositionPct)))
      case VolScale(targetVol, minScale, maxScale) =>
        if ctx.realizedVol <= 0.0 then Some(size)
        else Some(Part(size, Min(Max(targetVol / ctx.realizedVol, minScale), maxScale)))
      case LiquidityCap(advFraction) =>
        if ctx.advDollars <= 0.0 then Some(size) else Some(Min(size, Part(ctx.advDollars, advFraction)))
      case GlobalRiskBudget(maxOpenRisk) =>
        if ctx.portfolioValue <= 0.0 then Some(0.0)
        else if maxOpenRisk - ctx.openRisk <= 0.0 then Some(0.0)
        else Some(Throttled(size, BudgetStop(stop), ctx.portfolioValue, maxOpenRisk - ctx.openRisk))
      case HardCap(capPct) =>
        Some(Min(size, Part(ctx.portfolioValue, capPct)))
    }
  }

  /** The stop that the first step divides by. */
  function BaseStop(stop: Option<real>, floor: real): real {
    Max(StopOr(stop, floor), floor)
  }

  /** The stop that the budget step weighs the size with. */
  function BudgetStop(stop: Option<real>): real {
    Max(StopOr(stop, HARD_STOP_FLOOR), HARD_STOP_FLOOR)
  }

  function Throttled(size: real, used: real, value: real, remaining: real): real
    requires value > 0.0 && remaining > 0.0
  {
    var sizeRisk := size * used / value;
    if sizeRisk > remaining then size * (remaining / sizeRisk) else size
  }

  function DefaultSteps(cfg: RiskConfig, targetVol: real, advFraction: real): seq<Step> {
    [ FixedFractional(cfg.maxRisk, cfg.maxPositionPct, cfg.stopFloor),
      VolScale(targetVol, 0.5, 2.0),
      LiquidityCap(advFraction),
      GlobalRiskBudget(cfg.maxOpenRisk),
      HardCap(cfg.maxPositionPct) ]
  }

  /** The steps in order; a step that leaves nothing ends the run, and nothing is returned when one raises. */
  function RunSteps(steps: seq<Step>, size: real, stop: Option<real>, ctx: Context): Option<real> {
    if steps == [] then Some(size)
    else
      var next := steps[0].Apply(size, stop, ctx);
      if next.None? then None
      else if next.value <= 0.0 then Some(0.0)
      else RunSteps(steps[1..], next.value, stop, ctx)
  }

  function PipelineSize(steps: seq<Step>, stop: Option<real>, ctx: Context, price: real): Option<nat> {
    if price <= 0.0 then Some(0)
    else
      var size := RunSteps(steps, 0.0, stop, ctx);
      if size.None? then None else Some(WholeShares(size.value, price))
  }

  /** The pipeline's loop over its steps. */
  method Size(steps: seq<Step>, stop: Option<real>, ctx: Context, price: real) returns (shares: Option<nat>)
    ensures shares == PipelineSize(steps, stop, ctx, price)
  {
    if price <= 0.0 {
      return Some(0);
    }
    var size := 0.0;
    for i := 0 to |steps|
      invariant RunSteps(steps, 0.0, stop, ctx) == RunSteps(steps[i..], size, stop, ctx)
    {
      assert steps[i..][1..] == steps[i + 1..];
      var next := steps[i].Apply(size, stop, ctx);
      if next.None? {
        return None;
      }
      size := next.value;
      if size <= 0.0 {
        return Some(0);
      }
    }
    var shares' := (size / price).Floor;
    if shares' <= 0 {
      return Some(0);
    }
    return Some(shares');
  }

  // ----- Agreement -----------------------------------------------------------------------------

  lemma ScalesAlike(size: real, used: real, value: real, remaining: real)
    requires size > 0.0 && used > 0.0 && value > 0.0 && remaining > 0.0
    ensures Throttled(size, used, value, remaining) == Scaled(size, used, Part(value, remaining))
    ensures 0.0 < Throttled(size, used, value, remaining) <= size
  {
    var risk := size * used / value;
    AtMostQuotient(remaining, size * used, value);
    Multiply(0.0, size, used);
    if risk > remaining {
      var scale := remaining / risk;
      assert scale * risk == remaining;
      AtMostQuotient(1.0, remaining, risk);
      Multiply(0.0, scale, risk);
      Multiply(scale, 1.0, size);
      Multiply(0.0, scale, size);
    }
  }

  function BaseDollars(stop: Option<real>, value: real, cfg: RiskConfig): real
    requires BaseStop(stop, cfg.stopFloor) != 0.0
  {
    Min(Part(value, cfg.maxRisk) / BaseStop(stop, cfg.stopFloor), Part(value, cfg.maxPositionPct))
  }

  /** No volatility and no volume data reach the pipeline. */
  predicate Plain(ctx: Context) {
    ctx.realizedVol <= 0.0 && ctx.advDollars <= 0.0
  }

  lemma {:induction false} PlainRun(
    stop: Option<real>, ctx: Context, cfg: RiskConfig, targetVol: real, advFraction: real)
    requires Plain(ctx) && ctx.portfolioValue > 0.0 && BaseStop(stop, cfg.stopFloor) != 0.0
    ensures RunSteps(DefaultSteps(cfg, targetVol, advFraction), 0.0, stop, ctx) ==
            var base, remaining := BaseDollars(stop, ctx.portfolioValue, cfg), cfg.maxOpenRisk - ctx.openRisk;
            if base <= 0.0 || remaining <= 0.0 then Some(0.0)
            else Some(Scaled(base, BudgetStop(stop), Part(ctx.portfolioValue, remaining)))
  {
    var steps := DefaultSteps(cfg, targetVol, advFraction);
    var base, remaining := BaseDollars(stop, ctx.portfolioValue, cfg), cfg.maxOpenRisk - ctx.openRisk;
    assert steps[0].Apply(0.0, stop, ctx) == Some(base);
    if base > 0.0 {
      assert steps[1].Apply(base, stop, ctx) == Some(base);
      assert steps[2].Apply(base, stop, ctx) == Some(base);
      assert RunSteps(steps[3..], base, stop, ctx) ==
             RunSteps(steps[2..], base, stop, ctx) by { assert steps[2..][1..] == steps[3..]; }
      assert RunSteps(steps[2..], base, stop, ctx) ==
             RunSteps(steps[1..], base, stop, ctx) by { assert steps[1..][1..] == steps[2..]; }
      if remaining > 0.0 {
        var size := Throttled(base, BudgetStop(stop), ctx.portfolioValue, remaining);
        ScalesAlike(base, BudgetStop(stop), ctx.portfolioValue, remaining);
        assert steps[3].Apply(base, stop, ctx) == Some(size);
        assert steps[3..][1..] == steps[4..] && steps[4..] == [HardCap(cfg.maxPositionPct)];
        assert steps[4].Apply(size, stop, ctx) == Some(size);
        assert RunSteps(steps[4..], size, stop, ctx) == Some(size) by { assert steps[4..][1..] == []; }
      }
    }
  }

  /** The pipeline in closed form when it has no market data to scale by. */
  lemma {:induction false} PlainPipeline(
    stop: Option<real>, ctx: Context, cfg: RiskConfig, price: real, targetVol: real, advFraction: real)
    requires Plain(ctx) && ctx.portfolioValue > 0.0 && price > 0.0 && BaseStop(stop, cfg.stopFloor) != 0.0
    ensures PipelineSize(DefaultSteps(cfg, targetVol, advFraction), stop, ctx, price) ==
            var remaining := cfg.maxOpenRisk - ctx.openRisk;
            if remaining <= 0.0 then Some(0)
            else Some(WholeShares(Scaled(BaseDollars(stop, ctx.portfolioValue, cfg), BudgetStop(stop),
                                         Part(ctx.portfolioValue, remaining)), price))
  {
    PlainRun(stop, ctx, cfg, targetVol, advFraction);
  }

  // What the two sizings come to, per dollar of account value.

  /** The dollars to invest for each dollar of value, before the risk budget. */
  function Portion(cfg: RiskConfig, used: real): real
    requires used != 0.0
  {
    Min(cfg.maxRisk / used, cfg.maxPositionPct)
  }

  /** The shares bought with this portion, thinned out at this stop to fit the remaining budget. */
  function Purchase(value: real, portion: real, used: real, remaining: real, price: real): nat
    requires used > 0.0 && price > 0.0
  {
    if remaining <= 0.0 then 0 else WholeShares(Scaled(Part(value, portion), used, Part(value, remaining)), price)
  }

  lemma SmallerPart(value: real, a: real, b: real)
    requires value > 0.0
    ensures Min(Part(value, a), Part(value, b)) == Part(value, Min(a, b))
  {
    if a <= b {
      ScaleUp(value, a, b);
    } else {
      ScaleUp(value, b, a);
    }
  }

  lemma DollarsPerDollar(value: real, cfg: RiskConfig, used: real)
    requires value > 0.0 && used != 0.0
    ensures Min(Part(value, cfg.maxRisk) / used, Part(value, cfg.maxPositionPct)) == Part(value, Portion(cfg, used))
  {
    SmallerPart(value, cfg.maxRisk / used, cfg.maxPositionPct);
  }

  lemma FlatPurchase(stop: Option<real>, value: real, openRisk: real, cfg: RiskConfig, price: real)
    requires value > 0.0 && price > 0.0
    ensures var used := StopUsed(stop, cfg);
            CalculatePositionSize(stop, value, openRisk, cfg, price) ==
            Purchase(value, Portion(cfg, used), used, cfg.maxOpenRisk - openRisk, price)
  {
    DollarsPerDollar(value, cfg, StopUsed(stop, cfg));
  }

  lemma PipelinePurchase(
    stop: Option<real>, ctx: Context, cfg: RiskConfig, price: real, targetVol: real, advFraction: real)
    requires Plain(ctx) && ctx.portfolioValue > 0.0 && price > 0.0 && BaseStop(stop, cfg.stopFloor) != 0.0
    ensures PipelineSize(DefaultSteps(cfg, targetVol, advFraction), stop, ctx, price) ==
            Some(Purchase(ctx.portfolioValue, Portion(cfg, BaseStop(stop, cfg.stopFloor)), BudgetStop(stop),
                          cfg.maxOpenRisk - ctx.openRisk, price))
  {
    PlainPipeline(stop, ctx, cfg, price, targetVol, advFraction);
    DollarsPerDollar(ctx.portfolioValue, cfg, BaseStop(stop, cfg.stopFloor));
  }

  lemma NoPortion(value: real, portion: real, used: real, remaining: real, price: real)
    requires portion <= 0.0 && value > 0.0 && used > 0.0 && price > 0.0
    ensures Purchase(value, portion, used, remaining, price) == 0
  {
    ScaleUp(value, portion, 0.0);
  }

  /**
   The stops and the settings make no difference: nothing to invest either way, or the same portion at the
   same stop.
   */
  predicate SameSizes(stop: Option<real>, cfg: RiskConfig) {
    && BaseStop(stop, cfg.stopFloor) != 0.0
    && var flat, base := Portion(cfg, StopUsed(stop, cfg)), Portion(cfg, BaseStop(stop, cfg.stopFloor));
       if flat <= 0.0 then base <= 0.0 else flat == base && StopUsed(stop, cfg) == BudgetStop(stop)
  }

  lemma AgreesWithFlat(
    stop: Option<real>, ctx: Context, cfg: RiskConfig, price: real, targetVol: real, advFraction: real)
    requires Plain(ctx) && SameSizes(stop, cfg)
    ensures PipelineSize(DefaultSteps(cfg, targetVol, advFraction), stop, ctx, price)
            == Some(CalculatePositionSize(stop, ctx.portfolioValue, ctx.openRisk, cfg, price))
  {
    var value, remaining := ctx.portfolioValue, cfg.maxOpenRisk - ctx.openRisk;
    var flat, base := Portion(cfg, StopUsed(stop, cfg)), Portion(cfg, BaseStop(stop, cfg.stopFloor));
    if price > 0.0 {
      if value > 0.0 {
        FlatPurchase(stop, value, ctx.openRisk, cfg, price);
        PipelinePurchase(stop, ctx, cfg, price, targetVol, advFraction);
        if flat <= 0.0 {
          NoPortion(value, flat, StopUsed(stop, cfg), remaining, price);
          NoPortion(value, base, BudgetStop(stop), remaining, price);
        }
      } else {
        assert DefaultSteps(cfg, targetVol, advFraction)[0].Apply(0.0, stop, ctx) == Some(0.0);
      }
    }
  }

  /** One dollar of value buys a share exactly when the portion and the budget reach its price. */
  lemma OneDollarBuysIff(portion: real, used: real, remaining: real, price: real)
    requires used > 0.0 && price > 0.0 && remaining > 0.0
    ensures Purchase(1.0, portion, used, remaining, price) >= 1 <==>
            price <= portion && RisksAtMost(price, used, remaining)
  {
    WholeSharesAreMost(Scaled(Part(1.0, portion), used, Part(1.0, remaining)), price, 1);
    ScaledWithin(price, Part(1.0, portion), used, Part(1.0, remaining));
  }

  /** Risking `price` at one stop is within a budget for risking it at another exactly when the stop is no greater. */
  lemma StopsCompare(price: real, used: real, most: real)
    requires price > 0.0 && used > 0.0 && most > 0.0
    ensures Part(price, most) > 0.0 && (RisksAtMost(price, used, Part(price, most)) <==> used <= most)
  {
    Multiply(used, most, price);
    Multiply(0.0, most, price);
  }

  /** A price and a remaining budget at which a dollar buys a share by only one of two ways of sizing. */
  lemma ToldApart(flat: real, base: real, used: real, budget: real) returns (price: real, remaining: real)
    requires used > 0.0 && budget > 0.0
    requires if flat <= 0.0 then base > 0.0 else flat != base || used != budget
    ensures price > 0.0 && remaining > 0.0
    ensures (Purchase(1.0, flat, used, remaining, price) >= 1) != (Purchase(1.0, base, budget, remaining, price) >= 1)
  {
    price := Max(flat, base);
    var most := if flat == base then Min(used, budget) else Max(used, budget);
    remaining := Part(price, most);
    StopsCompare(price, used, most);
    StopsCompare(price, budget, most);
    OneDollarBuysIff(flat, used, remaining, price);
    OneDollarBuysIff(base, budget, remaining, price);
  }

  /** An account of one dollar whose open risk leaves just so much of the budget. */
  function OneDollar(cfg: RiskConfig, remaining: real): Context {
    Context(1.0, cfg.maxOpenRisk - remaining, 0.0, 0.0)
  }

  /** Under any other stop and settings, an account and a price at which the two differ. */
  lemma {:induction false} Disagreement(stop: Option<real>, cfg: RiskConfig) returns (ctx: Context, price: real)
    requires !SameSizes(stop, cfg)
    ensures Plain(ctx)
    ensures PipelineSize(DefaultSteps(cfg, 0.15, 0.05), stop, ctx, price)
            != Some(CalculatePositionSize(stop, ctx.portfolioValue, ctx.openRisk, cfg, price))
  {
    if BaseStop(stop, cfg.stopFloor) == 0.0 {
      ctx, price := OneDollar(cfg, 1.0), 1.0;
      assert DefaultSteps(cfg, 0.15, 0.05)[0].Apply(0.0, stop, ctx) == None;
    } else {
      var flat, base := Portion(cfg, StopUsed(stop, cfg)), Portion(cfg, BaseStop(stop, cfg.stopFloor));
      var remaining;
      price, remaining := ToldApart(flat, base, StopUsed(stop, cfg), BudgetStop(stop));
      ctx := OneDollar(cfg, remaining);
      assert cfg.maxOpenRisk - ctx.openRisk == remaining;
      FlatPurchase(stop, 1.0, ctx.openRisk, cfg, price);
      PipelinePurchase(stop, ctx, cfg, price, 0.15, 0.05);
    }
  }

  /** With these settings the pipeline gives the flat formula's share count for every account and price. */
  ghost predicate AgreeWith(stop: Option<real>, cfg: RiskConfig) {
    forall ctx: Context, price: real, targetVol: real, advFraction: real :: Plain(ctx) ==>
      PipelineSize(DefaultSteps(cfg, targetVol, advFraction), stop, ctx, price)
      == Some(CalculatePositionSize(stop, ctx.portfolioValue, ctx.openRisk, cfg, price))
  }

  /**
   For given settings, the refactoring keeps the formula's meaning exactly when stop and settings make
   no difference between the two.
   */
  lemma {:induction false} PipelineAgreesIff(stop: Option<real>, cfg: RiskConfig)
    ensures AgreeWith(stop, cfg) <==> SameSizes(stop, cfg)
  {
    if SameSizes(stop, cfg) {
      forall ctx: Context, price: real, targetVol: real, advFraction: real | Plain(ctx)
        ensures PipelineSize(DefaultSteps(cfg, targetVol, advFraction), stop, ctx, price)
                == Some(CalculatePositionSize(stop, ctx.portfolioValue, ctx.openRisk, cfg, price))
      {
        AgreesWithFlat(stop, ctx, cfg, price, targetVol, advFraction);
      }
    } else {
      var ctx, price := Disagreement(stop, cfg);
    }
  }

  /** Both sizings work with the same stop: the floors coincide, or the signal's own stop is above both. */
  predicate SameStops(stop: Option<real>, floor: real) {
    floor == HARD_STOP_FLOOR || (stop.Some? && stop.value >= floor && stop.value >= HARD_STOP_FLOOR)
  }

  lemma RoomyDiffers(stop: Option<real>, floor: real) returns (cfg: RiskConfig)
    requires !SameStops(stop, floor)
    ensures cfg.stopFloor == floor && !SameSizes(stop, cfg)
  {
    var used, base := StopUsed(stop, RiskConfig(1.0, 1.0, 1.0, floor)), BaseStop(stop, floor);
    if base == 0.0 {
      cfg := RiskConfig(1.0, 1.0, 1.0, floor);
    } else {
      cfg := RiskConfig(1.0, Max(1.0 / used, 1.0 / base), 1.0, floor);
      assert (1.0 / used) * used == 1.0 && (1.0 / base) * base == 1.0;
    }
  }

  /** Under a given floor and all other settings, it does so exactly when the stops coincide. */
  lemma {:induction false} PipelineRefinesFlatIff(stop: Option<real>, floor: real)
    ensures (forall cfg: RiskConfig :: cfg.stopFloor == floor ==> AgreeWith(stop, cfg)) <==> SameStops(stop, floor)
  {
    if SameStops(stop, floor) {
      forall cfg: RiskConfig | cfg.stopFloor == floor ensures AgreeWith(stop, cfg) {
        assert BaseStop(stop, floor) == StopUsed(stop, cfg) == BudgetStop(stop);
        PipelineAgreesIff(stop, cfg);
      }
    } else {
      var cfg := RoomyDiffers(stop, floor);
      PipelineAgreesIff(stop, cfg);
    }
  }

  /** The repository's own risk settings. */
  const DEFAULT_RISK := RiskConfig(0.01, 0.03, 0.02, 0.03)

  /** With them the two agree on exactly the signals that bring a stop of their own. */
  lemma {:induction false} DefaultSettingsAgreeIff(stop: Option<real>)
    ensures AgreeWith(stop, DEFAULT_RISK) <==> stop.Some? && stop.value != 0.0
  {
    PipelineAgreesIff(stop, DEFAULT_RISK);
  }

  /** An account of 100 000 dollars with 0.05% of its risk budget left. */
  const NEARLY_SPENT := Context(100000.0, 0.0195, 0.0, 0.0)

  /**
   A signal without a stop, at 100 dollars a share: the pipeline buys 30 shares, which overrun the budget,
   the formula 16.
   */
  lemma NearlySpentBudget()
    ensures CalculatePositionSize(None, 100000.0, 0.0195, DEFAULT_RISK, 100.0) == 16
    ensures PipelineSize(DefaultSteps(DEFAULT_RISK, 0.15, 0.05), None, NEARLY_SPENT, 100.0) == Some(30)
    ensures !RisksAtMost(Cost(30, 100.0), 0.03, Part(100000.0, 0.02 - 0.0195))
  {
    FlatPurchase(None, 100000.0, 0.0195, DEFAULT_RISK, 100.0);
    PipelinePurchase(None, NEARLY_SPENT, DEFAULT_RISK, 100.0, 0.15, 0.05);
    assert Part(100000.0, 0.03) == 3000.0 && Part(100000.0, 0.02 - 0.0195) == 50.0;
    assert Scaled(3000.0, 0.03, 50.0) == 50.0 / 0.03 && Scaled(3000.0, 0.005, 50.0) == 3000.0;
  }

  // ----- Limits --------------------------------------------------------------------------------

  /** A run that leaves something to buy left something after its first step. */
  lemma FirstStepLeaves(steps: seq<Step>, size: real, stop: Option<real>, ctx: Context, last: real) returns (next: real)
    requires steps != [] && last > 0.0 && RunSteps(steps, size, stop, ctx) == Some(last)
    ensures steps[0].Apply(size, stop, ctx) == Some(next) && next > 0.0
    ensures RunSteps(steps[1..], next, stop, ctx) == Some(last)
  {
    next := steps[0].Apply(size, stop, ctx).value;
  }

  lemma BudgetStepLimits(maxOpenRisk: real, size: real, stop: Option<real>, ctx: Context, next: real)
    requires size > 0.0 && next > 0.0 && GlobalRiskBudget(maxOpenRisk).Apply(size, stop, ctx) == Some(next)
    ensures next <= size
    ensures next * BudgetStop(stop) <= Part(ctx.portfolioValue, maxOpenRisk - ctx.openRisk)
  {
    ScalesAlike(size, BudgetStop(stop), ctx.portfolioValue, maxOpenRisk - ctx.openRisk);
  }

  lemma VolStepLimits(targetVol: real, size: real, stop: Option<real>, ctx: Context, next: real)
    requires size > 0.0 && VolScale(targetVol, 0.5, 2.0).Apply(size, stop, ctx) == Some(next)
    ensures next <= Part(size, 2.0)
    ensures CalmEnough(ctx, targetVol) ==> next <= size
  {
    if ctx.realizedVol > 0.0 {
      AtMostQuotient(targetVol / ctx.realizedVol, targetVol, ctx.realizedVol);
      Multiply(targetVol / ctx.realizedVol, 1.0, ctx.realizedVol);
      var scale := Min(Max(targetVol / ctx.realizedVol, 0.5), 2.0);
      ScaleUp(size, scale, 2.0);
      if CalmEnough(ctx, targetVol) {
        ScaleUp(size, scale, 1.0);
      }
    }
  }

  /** The volatility step has no reason to enlarge the size. */
  predicate CalmEnough(ctx: Context, targetVol: real) {
    ctx.realizedVol <= 0.0 || targetVol <= ctx.realizedVol
  }

  /** What a default run leaves to spend, between the limits of its steps. */
  lemma DefaultRunLimits(
    stop: Option<real>, ctx: Context, cfg: RiskConfig, targetVol: real, advFraction: real, last: real)
    returns (base: real, before: real)
    requires last > 0.0 && RunSteps(DefaultSteps(cfg, targetVol, advFraction), 0.0, stop, ctx) == Some(last)
    ensures ctx.portfolioValue > 0.0 && BaseStop(stop, cfg.stopFloor) != 0.0
    ensures base == BaseDollars(stop, ctx.portfolioValue, cfg) > 0.0
    ensures last <= Part(base, 2.0) && (CalmEnough(ctx, targetVol) ==> last <= base)
    ensures last <= before && last <= Part(ctx.portfolioValue, cfg.maxPositionPct)
    ensures RisksAtMost(before, BudgetStop(stop), Part(ctx.portfolioValue, cfg.maxOpenRisk - ctx.openRisk))
    ensures ctx.advDollars > 0.0 ==> last <= Part(ctx.advDollars, advFraction)
  {
    var steps := DefaultSteps(cfg, targetVol, advFraction);
    base := FirstStepLeaves(steps, 0.0, stop, ctx, last);
    var scaled := FirstStepLeaves(steps[1..], base, stop, ctx, last);
    VolStepLimits(targetVol, base, stop, ctx, scaled);
    assert steps[1..][1..] == steps[2..];
    var capped := FirstStepLeaves(steps[2..], scaled, stop, ctx, last);
    assert steps[2..][1..] == steps[3..];
    before := FirstStepLeaves(steps[3..], capped, stop, ctx, last);
    assert steps[3..][1..] == steps[4..] && steps[4..][1..] == [];
    BudgetStepLimits(cfg.maxOpenRisk, capped, stop, ctx, before);
    var least := FirstStepLeaves(steps[4..], before, stop, ctx, last);
    assert steps[4] == HardCap(cfg.maxPositionPct) && last == least;
  }

  lemma RisksLess(cost: real, more: real, used: real, budget: real)
    requires cost <= more && used > 0.0 && RisksAtMost(more, used, budget)
    ensures RisksAtMost(cost, used, budget)
  {
    Multiply(cost, more, used);
  }

  lemma SharesCost(dollars: real, price: real, n: nat)
    requires price > 0.0 && n > 0 && WholeShares(dollars, price) == n
    ensures 0.0 < Cost(n, price) <= dollars
  {
    WholeSharesAreMost(dollars, price, n);
    Multiply(0.0, n as real, price);
  }

  /**
   Whatever the market data, the pipeline's purchases keep within the cap, the liquidity limit and the risk
   budget.
   */
  lemma {:induction false} PipelineKeepsLimits(
    stop: Option<real>, ctx: Context, cfg: RiskConfig, price: real, targetVol: real, advFraction: real, n: nat)
    requires n > 0 && PipelineSize(DefaultSteps(cfg, targetVol, advFraction), stop, ctx, price) == Some(n)
    ensures Cost(n, price) <= Part(ctx.portfolioValue, cfg.maxPositionPct)
    ensures RisksAtMost(Cost(n, price), BudgetStop(stop), Part(ctx.portfolioValue, cfg.maxOpenRisk - ctx.openRisk))
    ensures ctx.advDollars > 0.0 ==> Cost(n, price) <= Part(ctx.advDollars, advFraction)
  {
    var last := RunSteps(DefaultSteps(cfg, targetVol, advFraction), 0.0, stop, ctx).value;
    SharesCost(last, price, n);
    var base, before := DefaultRunLimits(stop, ctx, cfg, targetVol, advFraction, last);
    RisksLess(Cost(n, price), before, BudgetStop(stop), Part(ctx.portfolioValue, cfg.maxOpenRisk - ctx.openRisk));
  }

  lemma BaseRisk(value: real, cfg: RiskConfig, base: real, used: real)
    requires used > 0.0 && base <= Part(value, cfg.maxRisk) / used
    ensures RisksAtMost(base, used, Part(value, cfg.maxRisk))
    ensures RisksAtMost(Part(base, 2.0), used, Part(Part(value, cfg.maxRisk), 2.0))
  {
    AtMostQuotient(base, Part(value, cfg.maxRisk), used);
  }

  /**
   At the stop it is sized with, a purchase risks at most twice the risk per trade, and no more than that
   when volatility is not below its target.
   */
  lemma {:induction false} PipelineRiskPerTrade(
    stop: Option<real>, ctx: Context, cfg: RiskConfig, price: real, targetVol: real, advFraction: real, n: nat)
    requires n > 0 && PipelineSize(DefaultSteps(cfg, targetVol, advFraction), stop, ctx, price) == Some(n)
    requires BaseStop(stop, cfg.stopFloor) > 0.0
    ensures var used, risk := BaseStop(stop, cfg.stopFloor), Part(ctx.portfolioValue, cfg.maxRisk);
            && RisksAtMost(Cost(n, price), used, Part(risk, 2.0))
            && (CalmEnough(ctx, targetVol) ==> RisksAtMost(Cost(n, price), used, risk))
  {
    var used, risk := BaseStop(stop, cfg.stopFloor), Part(ctx.portfolioValue, cfg.maxRisk);
    var last := RunSteps(DefaultSteps(cfg, targetVol, advFraction), 0.0, stop, ctx).value;
    SharesCost(last, price, n);
    var base, before := DefaultRunLimits(stop, ctx, cfg, targetVol, advFraction, last);
    BaseRisk(ctx.portfolioValue, cfg, base, used);
    RisksLess(Cost(n, price), Part(base, 2.0), used, Part(risk, 2.0));
    if CalmEnough(ctx, targetVol) {
      RisksLess(Cost(n, price), base, used, risk);
    }
  }

  lemma SmallerStop(cost: real, less: real, more: real, budget: real)
    requires cost >= 0.0 && less <= more && RisksAtMost(cost, more, budget)
    ensures RisksAtMost(cost, less, budget)
  {
    ScaleUp(cost, less, more);
  }

  /** A purchase keeps within the remaining budget at the stop it is sized with. */
  predicate InBudget(stop: Option<real>, ctx: Context, cfg: RiskConfig, price: real, n: nat) {
    RisksAtMost(Cost(n, price), BaseStop(stop, cfg.stopFloor), Part(ctx.portfolioValue, cfg.maxOpenRisk - ctx.openRisk))
  }

  ghost predicate KeepsBudget(stop: Option<real>, cfg: RiskConfig) {
    forall ctx: Context, price: real, targetVol: real, advFraction: real, n: nat ::
      n > 0 && PipelineSize(DefaultSteps(cfg, targetVol, advFraction), stop, ctx, price) == Some(n) ==>
        InBudget(stop, ctx, cfg, price, n)
  }

  lemma {:induction false} SmallerStopKeepsBudget(
    stop: Option<real>, ctx: Context, cfg: RiskConfig, price: real, targetVol: real, advFraction: real, n: nat)
    requires n > 0 && PipelineSize(DefaultSteps(cfg, targetVol, advFraction), stop, ctx, price) == Some(n)
    requires BaseStop(stop, cfg.stopFloor) <= BudgetStop(stop) || Portion(cfg, BaseStop(stop, cfg.stopFloor)) <= 0.0
    ensures InBudget(stop, ctx, cfg, price, n)
  {
    var last := RunSteps(DefaultSteps(cfg, targetVol, advFraction), 0.0, stop, ctx).value;
    SharesCost(last, price, n);
    var base, before := DefaultRunLimits(stop, ctx, cfg, targetVol, advFraction, last);
    DollarsPerDollar(ctx.portfolioValue, cfg, BaseStop(stop, cfg.stopFloor));
    Multiply(Portion(cfg, BaseStop(stop, cfg.stopFloor)), 0.0, ctx.portfolioValue);
    PipelineKeepsLimits(stop, ctx, cfg, price, targetVol, advFraction, n);
    SmallerStop(Cost(n, price), BaseStop(stop, cfg.stopFloor), BudgetStop(stop),
                Part(ctx.portfolioValue, cfg.maxOpenRisk - ctx.openRisk));
  }

  lemma {:induction false} GreaterStopOverruns(stop: Option<real>, cfg: RiskConfig)
    returns (ctx: Context, price: real, n: nat)
    requires BaseStop(stop, cfg.stopFloor) > BudgetStop(stop) && Portion(cfg, BaseStop(stop, cfg.stopFloor)) > 0.0
    ensures n > 0 && PipelineSize(DefaultSteps(cfg, 0.15, 0.05), stop, ctx, price) == Some(n)
    ensures !InBudget(stop, ctx, cfg, price, n)
  {
    var used, budget := BaseStop(stop, cfg.stopFloor), BudgetStop(stop);
    price := Portion(cfg, used);
    var remaining := Part(price, budget);
    StopsCompare(price, budget, budget);
    StopsCompare(price, used, budget);
    OneDollarBuysIff(price, budget, remaining, price);
    ctx := OneDollar(cfg, remaining);
    assert cfg.maxOpenRisk - ctx.openRisk == remaining && Part(1.0, remaining) == remaining;
    PipelinePurchase(stop, ctx, cfg, price, 0.15, 0.05);
    n := Purchase(1.0, price, budget, remaining, price);
    AtLeastThePrice(n, price);
    MoreOverruns(price, Cost(n, price), used, remaining);
  }

  lemma AtLeastThePrice(n: nat, price: real)
    requires n >= 1 && price > 0.0
    ensures Cost(n, price) >= price
  {
    Multiply(1.0, n as real, price);
  }

  lemma MoreOverruns(cost: real, more: real, used: real, budget: real)
    requires cost <= more && used > 0.0 && !RisksAtMost(cost, used, budget)
    ensures !RisksAtMost(more, used, budget)
  {
    Multiply(cost, more, used);
  }

  /**
   At the stop they are sized with, all purchases keep within the remaining budget, for every account,
   price and market data, exactly when that stop is no greater than the one the budget is weighed with,
   or the settings leave nothing to invest.
   */
  lemma {:induction false} KeepsBudgetIff(stop: Option<real>, cfg: RiskConfig)
    ensures KeepsBudget(stop, cfg) <==>
            BaseStop(stop, cfg.stopFloor) <= BudgetStop(stop) || Portion(cfg, BaseStop(stop, cfg.stopFloor)) <= 0.0
  {
    if BaseStop(stop, cfg.stopFloor) <= BudgetStop(stop) || Portion(cfg, BaseStop(stop, cfg.stopFloor)) <= 0.0 {
      forall ctx: Context, price: real, targetVol: real, advFraction: real, n: nat
        | n > 0 && PipelineSize(DefaultSteps(cfg, targetVol, advFraction), stop, ctx, price) == Some(n)
        ensures InBudget(stop, ctx, cfg, price, n)
      {
        SmallerStopKeepsBudget(stop, ctx, cfg, price, targetVol, advFraction, n);
      }
    } else {
      var ctx, price, n := GreaterStopOverruns(stop, cfg);
    }
  }

  // ----- The pipeline's exact size -------------------------------------------------------------

  /** What the run leaves covers the cost. */
  predicate Covers(left: Option<real>, cost: real) {
    left.Some? && cost <= left.value
  }

  lemma RunFirst(step: Step, rest: seq<Step>, size: real, stop: Option<real>, ctx: Context, next: real, cost: real)
    requires step.Apply(size, stop, ctx) == Some(next) && cost > 0.0
    ensures Covers(RunSteps([step] + rest, size, stop, ctx), cost) <==>
            next > 0.0 && Covers(RunSteps(rest, next, stop, ctx), cost)
  {
    assert ([step] + rest)[1..] == rest;
  }

  function Last(cfg: RiskConfig): seq<Step> {
    [HardCap(cfg.maxPositionPct)]
  }

  lemma LastCovers(cfg: RiskConfig, size: real, stop: Option<real>, ctx: Context, cost: real)
    requires cost > 0.0
    ensures Covers(RunSteps(Last(cfg), size, stop, ctx), cost) <==>
            cost <= size && cost <= Part(ctx.portfolioValue, cfg.maxPositionPct)
  {
    RunFirst(HardCap(cfg.maxPositionPct), [], size, stop, ctx, Min(size, Part(ctx.portfolioValue, cfg.maxPositionPct)),
             cost);
    assert Last(cfg) == [HardCap(cfg.maxPositionPct)] + [];
  }

  lemma BudgetCovers(cfg: RiskConfig, size: real, stop: Option<real>, ctx: Context, cost: real)
    requires cost > 0.0 && size > 0.0 && ctx.portfolioValue > 0.0
    ensures Covers(RunSteps([GlobalRiskBudget(cfg.maxOpenRisk)] + Last(cfg), size, stop, ctx), cost) <==>
            && cost <= size && cost <= Part(ctx.portfolioValue, cfg.maxPositionPct)
            && RisksAtMost(cost, BudgetStop(stop), Part(ctx.portfolioValue, cfg.maxOpenRisk - ctx.openRisk))
  {
    var used, remaining := BudgetStop(stop), cfg.maxOpenRisk - ctx.openRisk;
    var next := GlobalRiskBudget(cfg.maxOpenRisk).Apply(size, stop, ctx).value;
    RunFirst(GlobalRiskBudget(cfg.maxOpenRisk), Last(cfg), size, stop, ctx, next, cost);
    if remaining <= 0.0 {
      Multiply(0.0, cost, used);
      Multiply(remaining, 0.0, ctx.portfolioValue);
    } else {
      ScalesAlike(size, used, ctx.portfolioValue, remaining);
      ScaledWithin(cost, size, used, Part(ctx.portfolioValue, remaining));
      LastCovers(cfg, next, stop, ctx, cost);
    }
  }

  lemma LiquidityCovers(cfg: RiskConfig, advFraction: real, size: real, stop: Option<real>, ctx: Context, cost: real)
    requires cost > 0.0 && size > 0.0 && ctx.portfolioValue > 0.0
    ensures Covers(RunSteps([LiquidityCap(advFraction)] + ([GlobalRiskBudget(cfg.maxOpenRisk)] + Last(cfg)),
                            size, stop, ctx), cost) <==>
            && cost <= size && cost <= Part(ctx.portfolioValue, cfg.maxPositionPct)
            && (ctx.advDollars > 0.0 ==> cost <= Part(ctx.advDollars, advFraction))
            && RisksAtMost(cost, BudgetStop(stop), Part(ctx.portfolioValue, cfg.maxOpenRisk - ctx.openRisk))
  {
    var rest := [GlobalRiskBudget(cfg.maxOpenRisk)] + Last(cfg);
    var next := LiquidityCap(advFraction).Apply(size, stop, ctx).value;
    RunFirst(LiquidityCap(advFraction), rest, size, stop, ctx, next, cost);
    if next > 0.0 {
      BudgetCovers(cfg, next, stop, ctx, cost);
    }
  }

  /**
   The volatility factor: one without data, otherwise what would bring the volatility to its target, but no less
   than a half and no more than two.
   */
  predicate IsVolFactor(ctx: Context, targetVol: real, f: real) {
    if ctx.realizedVol <= 0.0 then f == 1.0
    else
      && 0.5 <= f <= 2.0
      && (f > 0.5 ==> Part(f, ctx.realizedVol) <= targetVol)
      && (f < 2.0 ==> Part(f, ctx.realizedVol) >= targetVol)
  }

  lemma VolFactorExists(ctx: Context, targetVol: real, size: real, stop: Option<real>) returns (f: real)
    ensures IsVolFactor(ctx, targetVol, f)
    ensures VolScale(targetVol, 0.5, 2.0).Apply(size, stop, ctx) == Some(Part(size, f))
  {
    if ctx.realizedVol <= 0.0 {
      f := 1.0;
    } else {
      f := Min(Max(targetVol / ctx.realizedVol, 0.5), 2.0);
      AtMostQuotient(f, targetVol, ctx.realizedVol);
      Multiply(targetVol / ctx.realizedVol, f, ctx.realizedVol);
    }
  }

  lemma VolCovers(
    cfg: RiskConfig, targetVol: real, advFraction: real, size: real, stop: Option<real>, ctx: Context, cost: real)
    returns (f: real)
    requires cost > 0.0 && size > 0.0 && ctx.portfolioValue > 0.0
    ensures IsVolFactor(ctx, targetVol, f)
    ensures Covers(RunSteps([VolScale(targetVol, 0.5, 2.0)] + ([LiquidityCap(advFraction)] +
                            ([GlobalRiskBudget(cfg.maxOpenRisk)] + Last(cfg))), size, stop, ctx), cost) <==>
            && cost <= Part(size, f) && cost <= Part(ctx.portfolioValue, cfg.maxPositionPct)
            && (ctx.advDollars > 0.0 ==> cost <= Part(ctx.advDollars, advFraction))
            && RisksAtMost(cost, BudgetStop(stop), Part(ctx.portfolioValue, cfg.maxOpenRisk - ctx.openRisk))
  {
    f := VolFactorExists(ctx, targetVol, size, stop);
    var rest := [LiquidityCap(advFraction)] + ([GlobalRiskBudget(cfg.maxOpenRisk)] + Last(cfg));
    RunFirst(VolScale(targetVol, 0.5, 2.0), rest, size, stop, ctx, Part(size, f), cost);
    Multiply(0.0, size, f);
    LiquidityCovers(cfg, advFraction, Part(size, f), stop, ctx, cost);
  }

  lemma NegativePart(size: real, f: real)
    requires size <= 0.0 && f > 0.0
    ensures Part(size, f) <= 0.0
  {
    Multiply(size, 0.0, f);
  }

  /** With any market data, the pipeline buys the largest number of shares within all the limits of its steps. */
  lemma {:induction false} PipelineIsLargest(
    stop: Option<real>, ctx: Context, cfg: RiskConfig, price: real, targetVol: real, advFraction: real, n: nat)
    returns (f: real)
    requires ctx.portfolioValue > 0.0 && price > 0.0 && n > 0 && BaseStop(stop, cfg.stopFloor) != 0.0
    ensures IsVolFactor(ctx, targetVol, f)
    ensures var bought := PipelineSize(DefaultSteps(cfg, targetVol, advFraction), stop, ctx, price);
            var cost := Cost(n, price);
            bought.Some? &&
            (n <= bought.value <==>
             && cost <= Part(BaseDollars(stop, ctx.portfolioValue, cfg), f)
             && cost <= Part(ctx.portfolioValue, cfg.maxPositionPct)
             && (ctx.advDollars > 0.0 ==> cost <= Part(ctx.advDollars, advFraction))
             && RisksAtMost(cost, BudgetStop(stop), Part(ctx.portfolioValue, cfg.maxOpenRisk - ctx.openRisk)))
  {
    var base, cost := BaseDollars(stop, ctx.portfolioValue, cfg), Cost(n, price);
    var first := FixedFractional(cfg.maxRisk, cfg.maxPositionPct, cfg.stopFloor);
    var rest := [VolScale(targetVol, 0.5, 2.0)] + ([LiquidityCap(advFraction)] +
                ([GlobalRiskBudget(cfg.maxOpenRisk)] + Last(cfg)));
    assert DefaultSteps(cfg, targetVol, advFraction) == [first] + rest;
    Multiply(0.0, n as real, price);
    RunFirst(first, rest, 0.0, stop, ctx, base, cost);
    if base > 0.0 {
      f := VolCovers(cfg, targetVol, advFraction, base, stop, ctx, cost);
    } else {
      f := VolFactorExists(ctx, targetVol, base, stop);
      NegativePart(base, f);
    }
    NeverRaises([first] + rest, 0.0, stop, ctx, cfg.stopFloor);
    BuysIff(RunSteps([first] + rest, 0.0, stop, ctx), price, n);
  }

  lemma BuysIff(left: Option<real>, price: real, n: nat)
    requires left.Some? && price > 0.0 && n > 0
    ensures n <= WholeShares(left.value, price) <==> Covers(left, Cost(n, price))
  {
    WholeSharesAreMost(left.value, price, n);
  }

  /** Only the division by a stop of zero raises. */
  lemma {:induction false} NeverRaises(steps: seq<Step>, size: real, stop: Option<real>, ctx: Context, floor: real)
    requires BaseStop(stop, floor) != 0.0
    requires forall i :: 0 <= i < |steps| && steps[i].FixedFractional? ==> steps[i].floor == floor
    ensures RunSteps(steps, size, stop, ctx).Some?
  {
    if steps != [] {
      var next := steps[0].Apply(size, stop, ctx).value;
      NeverRaises(steps[1..], next, stop, ctx, floor);
    }
  }
}
